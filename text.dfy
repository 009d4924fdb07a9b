/**
 * String primitives the query interpreter and the filter engine are built on:
 * Python's `w in s` substring test, `str.lower()` restricted to ASCII, and the
 * ASCII readings of the regular-expression classes `\d` and `\s`.
 */
module Text {

  datatype Option<+T> = None | Some(value: T)

  /** `w` occurs in `s` at index `i`. */
  predicate OccursAt(s: string, w: string, i: nat) {
    i + |w| <= |s| && s[i..i + |w|] == w
  }

  /** Python's `w in s`, as a left-to-right scan. */
  function Contains(s: string, w: string): bool
    decreases |s|
  {
    w <= s || (|s| > 0 && Contains(s[1..], w))
  }

  /** The scan agrees with the positional definition of a substring, in both directions. */
  lemma {:induction false} ContainsIff(s: string, w: string)
    ensures Contains(s, w) <==> exists i: nat :: OccursAt(s, w, i)
    decreases |s|
  {
    if Contains(s, w) {
      if w <= s {
        assert OccursAt(s, w, 0);
      } else {
        ContainsIff(s[1..], w);
        var i: nat :| OccursAt(s[1..], w, i);
        OccursShift(s, w, i);
      }
    }
    if exists i: nat :: OccursAt(s, w, i) {
      var i: nat :| OccursAt(s, w, i);
      if i == 0 {
        assert s[..|w|] == w;
      } else {
        OccursShift(s, w, i - 1);
        ContainsIff(s[1..], w);
      }
    }
  }

  /** Dropping the first character moves every occurrence one index to the left. */
  lemma OccursShift(s: string, w: string, i: nat)
    requires |s| > 0
    ensures OccursAt(s[1..], w, i) <==> OccursAt(s, w, i + 1)
  {
    if i + 1 + |w| <= |s| {
      var a, b := s[1..][i..i + |w|], s[i + 1..i + 1 + |w|];
      assert forall k | 0 <= k < |w| :: a[k] == s[i + 1 + k] == b[k];
      assert a == b;
    }
  }

  /** An occurrence at a known index is enough for `Contains`. */
  lemma OccursAtContains(s: string, w: string, i: nat)
    requires OccursAt(s, w, i)
    ensures Contains(s, w)
  {
    ContainsIff(s, w);
  }

  /** Substring is transitive: a string containing `w` contains every substring of `w`. */
  lemma {:induction false} ContainsTransitive(s: string, w: string, v: string)
    requires Contains(s, w) && Contains(w, v)
    ensures Contains(s, v)
  {
    ContainsIff(s, w);
    ContainsIff(w, v);
    var i: nat :| OccursAt(s, w, i);
    var j: nat :| OccursAt(w, v, j);
    assert s[i..i + |w|] == w;
    assert w[j..j + |v|] == v;
    assert forall k | 0 <= k < |v| :: s[i + j + k] == w[j + k] == v[k];
    assert s[i + j..i + j + |v|] == v;
    OccursAtContains(s, v, i + j);
  }

  /** A string containing `w` contains every character of `w`. */
  lemma ContainsChar(s: string, w: string, k: nat)
    requires Contains(s, w) && k < |w|
    ensures w[k] in s
  {
    ContainsIff(s, w);
    var i: nat :| OccursAt(s, w, i);
    assert s[i + k] == s[i..i + |w|][k];
  }

  /** A string lacking one of the letters of `w` does not contain `w`. */
  lemma MissingLetter(s: string, w: string, k: nat)
    requires k < |w| && w[k] !in s
    ensures !Contains(s, w)
  {
    if Contains(s, w) {
      ContainsChar(s, w, k);
    }
  }

  /** Python's `str.lower()` on one character, restricted to ASCII letters. */
  function LowerChar(c: char): char {
    if 'A' <= c <= 'Z' then (c as int + 32) as char else c
  }

  /** Python's `str.lower()`, character by character (ASCII letters only). */
  function Lower(s: string): string {
    seq(|s|, i requires 0 <= i < |s| => LowerChar(s[i]))
  }

  /** Lowering commutes with slicing. */
  lemma LowerSlice(s: string, i: nat, j: nat)
    requires i <= j <= |s|
    ensures Lower(s)[i..j] == Lower(s[i..j])
  {
  }

  /** A substring survives lowering: if `s` contains `w`, `lower(s)` contains `lower(w)`. */
  lemma {:induction false} LowerKeepsContains(s: string, w: string)
    requires Contains(s, w)
    ensures Contains(Lower(s), Lower(w))
  {
    ContainsIff(s, w);
    var i: nat :| OccursAt(s, w, i);
    LowerSlice(s, i, i + |w|);
    OccursAtContains(Lower(s), Lower(w), i);
  }

  /** The `\d` class, restricted to ASCII digits. */
  predicate IsDigit(c: char) {
    '0' <= c <= '9'
  }

  /** The `\s` class, restricted to the ASCII whitespace characters. */
  predicate IsSpace(c: char) {
    c == ' ' || c == '\t' || c == '\n' || c == '\r' || c == '\U{000B}' || c == '\U{000C}'
  }

  predicate AllDigits(s: string) {
    forall i | 0 <= i < |s| :: IsDigit(s[i])
  }

  predicate AllSpaces(s: string) {
    forall i | 0 <= i < |s| :: IsSpace(s[i])
  }

  function DigitValue(c: char): (d: nat)
    requires IsDigit(c)
    ensures d < 10
  {
    c as int - '0' as int
  }

  /** Python's `int(s)` on a run of ASCII digits (leading zeros allowed). */
  function DecimalValue(s: string): nat
    requires AllDigits(s)
  {
    if s == [] then 0 else 10 * DecimalValue(s[..|s| - 1]) + DigitValue(s[|s| - 1])
  }

  function Pow10(k: nat): (p: nat)
    ensures p >= 1
  {
    if k == 0 then 1 else 10 * Pow10(k - 1)
  }

  /** Index of the end of the maximal run of digits starting at `i`. */
  function SkipDigits(s: string, i: nat): (j: nat)
    requires i <= |s|
    ensures i <= j <= |s| && AllDigits(s[i..j])
    ensures j == |s| || !IsDigit(s[j])
    decreases |s| - i
  {
    if i < |s| && IsDigit(s[i]) then SkipDigits(s, i + 1) else i
  }

  /** Index of the end of the maximal run of whitespace starting at `i`. */
  function SkipSpaces(s: string, i: nat): (j: nat)
    requires i <= |s|
    ensures i <= j <= |s| && AllSpaces(s[i..j])
    ensures j == |s| || !IsSpace(s[j])
    decreases |s| - i
  {
    if i < |s| && IsSpace(s[i]) then SkipSpaces(s, i + 1) else i
  }

  /** A run from `i` that stops exactly at a given non-member is the maximal one. */
  lemma SkipDigitsAt(s: string, i: nat, j: nat)
    requires i <= j <= |s| && AllDigits(s[i..j]) && (j == |s| || !IsDigit(s[j]))
    ensures SkipDigits(s, i) == j
    decreases j - i
  {
    if i < j {
      assert IsDigit(s[i..j][0]);
      assert s[i + 1..j] == s[i..j][1..];
      SkipDigitsAt(s, i + 1, j);
    }
  }

  lemma SkipSpacesAt(s: string, i: nat, j: nat)
    requires i <= j <= |s| && AllSpaces(s[i..j]) && (j == |s| || !IsSpace(s[j]))
    ensures SkipSpaces(s, i) == j
    decreases j - i
  {
    if i < j {
      assert IsSpace(s[i..j][0]);
      assert s[i + 1..j] == s[i..j][1..];
      SkipSpacesAt(s, i + 1, j);
    }
  }

  /** Start of the maximal run of whitespace that ends just before index `j`. */
  function SpacesBefore(s: string, j: nat): (k: nat)
    requires j <= |s|
    ensures k <= j && AllSpaces(s[k..j])
    ensures k == 0 || !IsSpace(s[k - 1])
  {
    if j > 0 && IsSpace(s[j - 1]) then
      var k := SpacesBefore(s, j - 1);
      assert s[k..j] == s[k..j - 1] + [s[j - 1]];
      k
    else j
  }

  lemma SpacesBeforeAt(s: string, k: nat, j: nat)
    requires k <= j <= |s| && AllSpaces(s[k..j]) && (k == 0 || !IsSpace(s[k - 1]))
    ensures SpacesBefore(s, j) == k
    decreases j - k
  {
    if k < j {
      assert IsSpace(s[k..j][j - 1 - k]);
      assert s[k..j - 1] == s[k..j][..j - 1 - k];
      SpacesBeforeAt(s, k, j - 1);
    }
  }

  /** Index of the first digit at or after `i` (what `re.search(r"\d+", s)` starts on). */
  function FirstDigitFrom(s: string, i: nat): (r: Option<nat>)
    requires i <= |s|
    ensures r.Some? ==> i <= r.value < |s| && IsDigit(s[r.value])
    ensures r.Some? ==> forall k | i <= k < r.value :: !IsDigit(s[k])
    ensures r.None? ==> forall k | i <= k < |s| :: !IsDigit(s[k])
    decreases |s| - i
  {
    if i == |s| then None
    else if IsDigit(s[i]) then Some(i)
    else FirstDigitFrom(s, i + 1)
  }

  /** `int(re.search(r"\d+", s).group())`: the value of the first run of digits, if any. */
  function FirstNumber(s: string): Option<nat> {
    match FirstDigitFrom(s, 0)
    case None => None
    case Some(i) => Some(DecimalValue(s[i..SkipDigits(s, i + 1)]))
  }

  /** `FirstNumber` reads the leftmost maximal digit run, and finds one exactly when `s` has a digit. */
  lemma FirstNumberIsFirstRun(s: string)
    ensures FirstNumber(s).None? <==> forall k | 0 <= k < |s| :: !IsDigit(s[k])
    ensures FirstNumber(s).Some? ==>
      exists i, j :: 0 <= i < j <= |s| && FirstDigitRun(s, i, j) && FirstNumber(s).value == DecimalValue(s[i..j])
  {
    if FirstDigitFrom(s, 0).Some? {
      var i := FirstDigitFrom(s, 0).value;
      var j := SkipDigits(s, i + 1);
      assert FirstDigitRun(s, i, j);
    }
  }

  /** `s[i..j]` is the leftmost maximal run of digits in `s`. */
  ghost predicate FirstDigitRun(s: string, i: nat, j: nat) {
    && i < j <= |s|
    && AllDigits(s[i..j])
    && (j == |s| || !IsDigit(s[j]))
    && forall k | 0 <= k < i :: !IsDigit(s[k])
  }
}
