/**
 * The two regular expressions of the query interpreter, as scanners over a
 * string, each proved against a declarative reading of its pattern:
 *
 *   bedroom phrase   (\d+)\s*ห้องนอน|(\d+)\s*bedroom            (tast.py:34)
 *   price ceiling    ไม่เกิน\s*(\d+(?:\.\d+)?)\s*ล้าน|under\s*(\d+(?:\.\d+)?)
 *                                                              (tast.py:39)
 *
 * `\d` is read as an ASCII digit and `\s` as ASCII whitespace (see Text).
 */
module Patterns {
  import opened Text

  const BedroomThai := "ห้องนอน"
  const BedroomEnglish := "bedroom"
  const AtMost := "ไม่เกิน"
  const Under := "under"
  const Million := "ล้าน"

  // ---------------------------------------------------------------------------
  // Bedroom phrase: (\d+)\s*ห้องนอน|(\d+)\s*bedroom

  /** A bedroom keyword starts at index `j`. */
  predicate BedroomKeywordAt(s: string, j: nat) {
    OccursAt(s, BedroomThai, j) || OccursAt(s, BedroomEnglish, j)
  }

  /** `s[i..m]` are digits, `s[m..j]` whitespace, and a bedroom keyword starts at `j`. */
  ghost predicate BedroomPhraseAt(s: string, i: nat, m: nat, j: nat) {
    && i < m <= j <= |s|
    && AllDigits(s[i..m])
    && AllSpaces(s[m..j])
    && BedroomKeywordAt(s, j)
  }

  /** What `re.search` decides: the pattern matches somewhere in `s`. */
  ghost predicate HasBedroomPhrase(s: string) {
    exists i: nat, m: nat, j: nat :: BedroomPhraseAt(s, i, m, j)
  }

  /** The pattern matches with its keyword at `j`: skip back over whitespace, then a digit. */
  predicate BedroomMatchEndingAt(s: string, j: nat)
    requires j <= |s|
  {
    BedroomKeywordAt(s, j) && var k := SpacesBefore(s, j); k > 0 && IsDigit(s[k - 1])
  }

  /** Scans the keyword positions `j`, `j + 1`, ... for a match. */
  function BedroomSearchFrom(s: string, j: nat): bool
    requires j <= |s|
    decreases |s| - j
  {
    BedroomMatchEndingAt(s, j) || (j < |s| && BedroomSearchFrom(s, j + 1))
  }

  /** `re.search(r"(\d+)\s*ห้องนอน|(\d+)\s*bedroom", s)` is truthy. */
  function BedroomSearch(s: string): bool {
    BedroomSearchFrom(s, 0)
  }

  lemma {:induction false} BedroomSearchFromSound(s: string, j: nat)
    requires j <= |s| && BedroomSearchFrom(s, j)
    ensures HasBedroomPhrase(s)
    decreases |s| - j
  {
    if BedroomMatchEndingAt(s, j) {
      var k := SpacesBefore(s, j);
      assert s[k - 1..k] == [s[k - 1]];
      assert BedroomPhraseAt(s, k - 1, k, j);
    } else {
      BedroomSearchFromSound(s, j + 1);
    }
  }

  lemma {:induction false} BedroomSearchFromComplete(s: string, from: nat, j: nat)
    requires from <= j <= |s| && BedroomMatchEndingAt(s, j)
    ensures BedroomSearchFrom(s, from)
    decreases j - from
  {
    if from < j {
      BedroomSearchFromComplete(s, from + 1, j);
    }
  }

  /** The scanner decides exactly the regular expression, in both directions. */
  lemma BedroomSearchIff(s: string)
    ensures BedroomSearch(s) <==> HasBedroomPhrase(s)
  {
    if BedroomSearch(s) {
      BedroomSearchFromSound(s, 0);
    }
    if HasBedroomPhrase(s) {
      var i: nat, m: nat, j: nat :| BedroomPhraseAt(s, i, m, j);
      assert IsDigit(s[i..m][m - 1 - i]);
      SpacesBeforeAt(s, m, j);
      BedroomSearchFromComplete(s, 0, j);
    }
  }

  /** A match needs ห้องนอน or bedroom in the string. */
  lemma BedroomSearchNeedsKeyword(s: string)
    requires BedroomSearch(s)
    ensures Contains(s, BedroomThai) || Contains(s, BedroomEnglish)
  {
    BedroomSearchIff(s);
    var i: nat, m: nat, j: nat :| BedroomPhraseAt(s, i, m, j);
    if OccursAt(s, BedroomThai, j) {
      OccursAtContains(s, BedroomThai, j);
    } else {
      OccursAtContains(s, BedroomEnglish, j);
    }
  }

  /** A token that matches the bedroom phrase has a digit, so `re.search(r"\d+", token)` succeeds. */
  lemma BedroomPhraseHasNumber(s: string)
    requires BedroomSearch(s)
    ensures FirstNumber(s).Some?
  {
    BedroomSearchIff(s);
    var i: nat, m: nat, j: nat :| BedroomPhraseAt(s, i, m, j);
    assert IsDigit(s[i..m][0]);
  }

  // ---------------------------------------------------------------------------
  // Numbers: \d+(?:\.\d+)?

  /** The exact value of `float("<whole>.<fraction>")`. */
  function DecimalReal(whole: string, fraction: string): real
    requires AllDigits(whole) && AllDigits(fraction)
  {
    DecimalValue(whole) as real + DecimalValue(fraction) as real / Pow10(|fraction|) as real
  }

  /**
   * `s[b..e]` is a number literal of value `v`; `k` is the index of its
   * decimal point, or `k == e` when it has none.
   */
  ghost predicate NumberSpan(s: string, b: nat, k: nat, e: nat, v: real) {
    && b < k <= e <= |s|
    && AllDigits(s[b..k])
    && if k == e then v == DecimalValue(s[b..k]) as real
       else k + 1 < e && s[k] == '.' && AllDigits(s[k + 1..e]) && v == DecimalReal(s[b..k], s[k + 1..e])
  }

  datatype Literal = Literal(value: real, end: nat)

  /** The greedy match of `\d+(?:\.\d+)?` at index `b`. */
  function NumberAt(s: string, b: nat): Option<Literal>
    requires b <= |s|
  {
    if b < |s| && IsDigit(s[b]) then
      var k := SkipDigits(s, b);
      if k + 1 < |s| && s[k] == '.' && IsDigit(s[k + 1]) then
        var e := SkipDigits(s, k + 1);
        Some(Literal(DecimalReal(s[b..k], s[k + 1..e]), e))
      else
        Some(Literal(DecimalValue(s[b..k]) as real, k))
    else
      None
  }

  /**
   * The greedy match is a number literal and nothing can extend it: no digit
   * follows it, and a literal without a fraction is not followed by a point
   * and a digit. It exists exactly when `s[b]` is a digit.
   */
  lemma NumberAtIsLiteral(s: string, b: nat)
    requires b <= |s|
    ensures NumberAt(s, b).None? <==> !(b < |s| && IsDigit(s[b]))
    ensures NumberAt(s, b).Some? ==>
      var n := NumberAt(s, b).value;
      exists k: nat :: NumberSpan(s, b, k, n.end, n.value) && (k == n.end ==> !(n.end + 1 < |s| && s[n.end] == '.' && IsDigit(s[n.end + 1])))
    ensures NumberAt(s, b).Some? ==> NumberAt(s, b).value.end == |s| || !IsDigit(s[NumberAt(s, b).value.end])
  {
    if b < |s| && IsDigit(s[b]) {
      var k := SkipDigits(s, b);
      if k + 1 < |s| && s[k] == '.' && IsDigit(s[k + 1]) {
        var e := SkipDigits(s, k + 1);
        assert NumberSpan(s, b, k, e, DecimalReal(s[b..k], s[k + 1..e]));
      } else {
        assert NumberSpan(s, b, k, k, DecimalValue(s[b..k]) as real);
      }
    }
  }

  /**
   * A literal that is followed by neither a digit nor a point-and-digit is
   * the one the greedy match finds.
   */
  lemma NumberAtSpan(s: string, b: nat, k: nat, e: nat, v: real)
    requires NumberSpan(s, b, k, e, v)
    requires e == |s| || !IsDigit(s[e])
    requires k == e ==> !(e + 1 < |s| && s[e] == '.' && IsDigit(s[e + 1]))
    ensures NumberAt(s, b) == Some(Literal(v, e))
  {
    assert IsDigit(s[b..k][0]);
    if k == e {
      SkipDigitsAt(s, b, k);
    } else {
      SkipDigitsAt(s, b, k);
      assert IsDigit(s[k + 1..e][0]);
      SkipDigitsAt(s, k + 1, e);
    }
  }

  // ---------------------------------------------------------------------------
  // Price ceiling: ไม่เกิน\s*(\d+(?:\.\d+)?)\s*ล้าน|under\s*(\d+(?:\.\d+)?)

  /** The first alternative matches at `p`: ไม่เกิน, spaces, a number, spaces, ล้าน. */
  ghost predicate AtMostMillionAt(s: string, p: nat, b: nat, k: nat, e: nat, c: nat, v: real) {
    && OccursAt(s, AtMost, p)
    && NumberSpan(s, b, k, e, v)
    && OccursAt(s, Million, c)
    && p + |AtMost| <= b && AllSpaces(s[p + |AtMost|..b])
    && e <= c && AllSpaces(s[e..c])
  }

  /**
   * The second alternative matches at `p`: under, spaces, a number. Its group
   * is greedy: the number stops before anything that could extend it.
   */
  ghost predicate UnderAt(s: string, p: nat, b: nat, k: nat, e: nat, v: real) {
    && OccursAt(s, Under, p)
    && NumberSpan(s, b, k, e, v)
    && p + |Under| <= b && AllSpaces(s[p + |Under|..b])
    && (e == |s| || !IsDigit(s[e]))
    && (k == e ==> !(e + 1 < |s| && s[e] == '.' && IsDigit(s[e + 1])))
  }

  /** The value the first alternative captures at `p`, if it matches there. */
  function AtMostMillionValue(s: string, p: nat): Option<real>
    requires OccursAt(s, AtMost, p)
  {
    var b := SkipSpaces(s, p + |AtMost|);
    match NumberAt(s, b)
    case None => None
    case Some(n) =>
      var c := SkipSpaces(s, n.end);
      if OccursAt(s, Million, c) then Some(n.value) else None
  }

  /** The value the second alternative captures at `p`, if it matches there. */
  function UnderValue(s: string, p: nat): Option<real>
    requires OccursAt(s, Under, p)
  {
    var b := SkipSpaces(s, p + |Under|);
    match NumberAt(s, b)
    case None => None
    case Some(n) => Some(n.value)
  }

  /** The value the price pattern captures when a match starts at index `p`. */
  function PriceAt(s: string, p: nat): Option<real> {
    if OccursAt(s, AtMost, p) then AtMostMillionValue(s, p)
    else if OccursAt(s, Under, p) then UnderValue(s, p)
    else None
  }

  /** Every value `PriceAt` reports comes from a match of one of the two alternatives. */
  lemma PriceAtSound(s: string, p: nat, v: real)
    requires PriceAt(s, p) == Some(v)
    ensures || (exists b: nat, k: nat, e: nat, c: nat :: AtMostMillionAt(s, p, b, k, e, c, v))
            || (exists b: nat, k: nat, e: nat :: UnderAt(s, p, b, k, e, v))
  {
    if OccursAt(s, AtMost, p) {
      var b := SkipSpaces(s, p + |AtMost|);
      NumberAtIsLiteral(s, b);
      var n := NumberAt(s, b).value;
      var k: nat :| NumberSpan(s, b, k, n.end, n.value);
      var c := SkipSpaces(s, n.end);
      assert AtMostMillionAt(s, p, b, k, n.end, c, v);
    } else {
      var b := SkipSpaces(s, p + |Under|);
      NumberAtIsLiteral(s, b);
      var n := NumberAt(s, b).value;
      var k: nat :| NumberSpan(s, b, k, n.end, n.value) && (k == n.end ==> !(n.end + 1 < |s| && s[n.end] == '.' && IsDigit(s[n.end + 1])));
      assert UnderAt(s, p, b, k, n.end, v);
    }
  }

  /** Every match of the first alternative is found, with its value. */
  lemma AtMostMillionComplete(s: string, p: nat, b: nat, k: nat, e: nat, c: nat, v: real)
    requires AtMostMillionAt(s, p, b, k, e, c, v)
    ensures PriceAt(s, p) == Some(v)
  {
    assert IsDigit(s[b..k][0]);
    SkipSpacesAt(s, p + |AtMost|, b);
    // `s[e]` is whitespace or the first letter of ล้าน: no digit, no point
    if e < c {
      assert IsSpace(s[e..c][0]);
    } else {
      assert s[e] == s[c..c + |Million|][0];
    }
    NumberAtSpan(s, b, k, e, v);
    assert s[c] == s[c..c + |Million|][0];
    SkipSpacesAt(s, e, c);
  }

  /** Every match of the second alternative is found, with its value. */
  lemma UnderComplete(s: string, p: nat, b: nat, k: nat, e: nat, v: real)
    requires UnderAt(s, p, b, k, e, v)
    ensures PriceAt(s, p) == Some(v)
  {
    assert !OccursAt(s, AtMost, p) by {
      assert s[p] == s[p..p + |Under|][0];
    }
    assert IsDigit(s[b..k][0]);
    SkipSpacesAt(s, p + |Under|, b);
    NumberAtSpan(s, b, k, e, v);
  }

  datatype Hit = Hit(pos: nat, amount: real)

  /** `re.search` of the price pattern from index `from`: the leftmost match. */
  function LeftmostPrice(s: string, from: nat): Option<Hit>
    requires from <= |s|
    decreases |s| - from
  {
    match PriceAt(s, from)
    case Some(v) => Some(Hit(from, v))
    case None => if from == |s| then None else LeftmostPrice(s, from + 1)
  }

  /** `LeftmostPrice` reports the first index at or after `from` where the pattern matches, or none. */
  lemma {:induction false} LeftmostPriceIsFirst(s: string, from: nat)
    requires from <= |s|
    ensures var r := LeftmostPrice(s, from);
      && (r.Some? ==> from <= r.value.pos <= |s| && PriceAt(s, r.value.pos) == Some(r.value.amount))
      && (r.Some? ==> forall p | from <= p < r.value.pos :: PriceAt(s, p).None?)
      && (r.None? <==> forall p | from <= p <= |s| :: PriceAt(s, p).None?)
    decreases |s| - from
  {
    if PriceAt(s, from).None? && from < |s| {
      LeftmostPriceIsFirst(s, from + 1);
      var r := LeftmostPrice(s, from + 1);
      assert LeftmostPrice(s, from) == r;
      if r.Some? {
        forall p | from <= p < r.value.pos ensures PriceAt(s, p).None? {
          if p > from {
            assert from + 1 <= p < r.value.pos;
          }
        }
        assert PriceAt(s, r.value.pos).Some?;
      } else {
        forall p | from <= p <= |s| ensures PriceAt(s, p).None? {
          if p > from {
            assert from + 1 <= p <= |s|;
          }
        }
      }
    }
  }

  /** A match needs ไม่เกิน or under in the string. */
  lemma PriceAtNeedsMarker(s: string, p: nat)
    requires PriceAt(s, p).Some?
    ensures Contains(s, AtMost) || Contains(s, Under)
  {
    if OccursAt(s, AtMost, p) {
      OccursAtContains(s, AtMost, p);
    } else {
      OccursAtContains(s, Under, p);
    }
  }

  /** Without ล้าน in the string only the under alternative can match. */
  lemma PriceAtWithoutMillion(s: string, p: nat)
    requires !Contains(s, Million) && PriceAt(s, p).Some?
    ensures OccursAt(s, Under, p)
  {
    if OccursAt(s, AtMost, p) {
      var b := SkipSpaces(s, p + |AtMost|);
      var c := SkipSpaces(s, NumberAt(s, b).value.end);
      OccursAtContains(s, Million, c);
    }
  }

  /** A match can start only on the first letter of ไม่เกิน or of under. */
  lemma PriceAtNeedsFirstLetter(s: string, p: nat)
    requires PriceAt(s, p).Some?
    ensures p < |s| && (s[p] == AtMost[0] || s[p] == Under[0])
  {
    if OccursAt(s, AtMost, p) {
      assert s[p] == s[p..p + |AtMost|][0];
    } else {
      assert s[p] == s[p..p + |Under|][0];
    }
  }

  /** Conversely to `LeftmostPriceIsFirst`: a match with none before it is the one `LeftmostPrice` reports. */
  lemma {:induction false} LeftmostPriceAt(s: string, from: nat, p: nat)
    requires from <= p <= |s| && PriceAt(s, p).Some?
    requires forall p' | from <= p' < p :: PriceAt(s, p').None?
    ensures LeftmostPrice(s, from) == Some(Hit(p, PriceAt(s, p).value))
    decreases p - from
  {
    if from < p {
      assert PriceAt(s, from).None?;
      LeftmostPriceAt(s, from + 1, p);
    }
  }
}
