/**
 * The interpreter on concrete queries: each lemma states the filter record
 * `parse_query` returns for one lowercased query and the tokens a word
 * tokenizer gives for it. The proofs go through the general lemmas: the
 * match the pattern finds, no match before it, and letters a keyword needs
 * that a token lacks.
 */
module QueryScenarios {
  import opened Text
  import opened Patterns
  import opened QueryInterpreter

  /** A token lacking a letter of each type keyword names no type. */
  lemma NoType(t: string, h: nat, c: nat, w: nat)
    requires h < |HouseMarker| && HouseMarker[h] !in t
    requires c < |Condo| && Condo[c] !in t
    requires w < |Townhome| && Townhome[w] !in t
    ensures TokenType(t) == None
  {
    MissingLetter(t, HouseMarker, h);
    MissingLetter(t, Condo, c);
    MissingLetter(t, Townhome, w);
  }

  /** Tokens `ts[from..to]`, each lacking the same letter of each type keyword, name no type. */
  lemma NoTypeIn(ts: seq<string>, from: nat, to: nat, h: nat, c: nat, w: nat)
    requires from <= to <= |ts|
    requires h < |HouseMarker| && c < |Condo| && w < |Townhome|
    requires forall j | from <= j < to :: HouseMarker[h] !in ts[j] && Condo[c] !in ts[j] && Townhome[w] !in ts[j]
    ensures forall j | from <= j < to :: TokenType(ts[j]).None?
  {
    forall j | from <= j < to ensures TokenType(ts[j]).None? {
      NoType(ts[j], h, c, w);
    }
  }

  /** A token lacking a letter of each bedroom keyword names no bedroom count. */
  lemma NoBedroomKeyword(t: string, th: nat, en: nat)
    requires th < |BedroomThai| && BedroomThai[th] !in t
    requires en < |BedroomEnglish| && BedroomEnglish[en] !in t
    ensures TokenBedrooms(t) == None
  {
    MissingLetter(t, BedroomThai, th);
    MissingLetter(t, BedroomEnglish, en);
    if BedroomSearch(t) {
      BedroomSearchNeedsKeyword(t);
    }
  }

  /** A token without a digit names no bedroom count. */
  lemma NoBedroomDigit(t: string)
    requires forall k | 0 <= k < |t| :: !IsDigit(t[k])
    ensures TokenBedrooms(t) == None
  {
    if BedroomSearch(t) {
      BedroomPhraseHasNumber(t);
      FirstNumberIsFirstRun(t);
    }
  }

  /** A token lacking a letter of each location keyword names no location. */
  lemma NoLocation(t: string, n: nat, b: nat)
    requires n < |Nonthaburi| && Nonthaburi[n] !in t
    requires b < |Bangkok| && Bangkok[b] !in t
    ensures TokenLocation(t) == None
  {
    MissingLetter(t, Nonthaburi, n);
    MissingLetter(t, Bangkok, b);
  }

  /** No match of the price pattern starts before `p` when no letter before `p` begins ไม่เกิน or under. */
  lemma NoPriceBefore(s: string, p: nat)
    requires p <= |s|
    requires AtMost[0] !in s[..p] && Under[0] !in s[..p]
    ensures forall i | 0 <= i < p :: PriceAt(s, i).None?
  {
    forall i | 0 <= i < p ensures PriceAt(s, i).None? {
      if PriceAt(s, i).Some? {
        assert s[i] == s[..p][i];
        PriceAtNeedsFirstLetter(s, i);
      }
    }
  }

  /** A match after a prefix in which none can start is the leftmost one. */
  lemma FirstMatchAfterPrefix(s: string, p: nat)
    requires p <= |s| && PriceAt(s, p).Some?
    requires AtMost[0] !in s[..p] && Under[0] !in s[..p]
    ensures LeftmostPrice(s, 0) == Some(Hit(p, PriceAt(s, p).value))
  {
    NoPriceBefore(s, p);
    LeftmostPriceAt(s, 0, p);
  }

  // ---------------------------------------------------------------------------
  // คอนโด under 50000 จอง

  lemma FiftyThousand()
    ensures AllDigits("50000") && DecimalValue("50000") == 50000
  {
    assert "50000"[..4] == "5000" && "5000"[..3] == "500" && "500"[..2] == "50" && "50"[..1] == "5";
  }

  /** The under alternative matches right after `pre` and captures 50000. */
  lemma UnderFiftyThousandMatch(q: string, pre: string, post: string)
    requires q == pre + Under + " 50000" + post
    requires |post| > 0 && post[0] == ' '
    ensures OccursAt(q, Under, |pre|) && PriceAt(q, |pre|) == Some(50000.0)
  {
    var p := |pre|;
    assert q[p..p + 5] == Under && q[p + 5..p + 6] == " ";
    assert q[p + 6..p + 11] == "50000";
    FiftyThousand();
    assert q[p + 11] == ' ';
    assert UnderAt(q, p, p + 6, p + 11, p + 11, 50000.0);
    UnderComplete(q, p, p + 6, p + 11, p + 11, 50000.0);
  }

  /** under 50000 after a prefix in which no match can start, with no ล้าน around, sets a ceiling of 50,000. */
  lemma UnderFiftyThousand(q: string, pre: string, post: string)
    requires q == pre + Under + " 50000" + post
    requires AtMost[0] !in pre && Under[0] !in pre
    requires |post| > 0 && post[0] == ' '
    requires Million[0] !in pre && Million[0] !in post
    ensures PriceCeiling(q) == Some(50000.0)
  {
    UnderFiftyThousandMatch(q, pre, post);
    assert q[..|pre|] == pre;
    FirstMatchAfterPrefix(q, |pre|);
    OccursAtContains(q, Under, |pre|);
    MissingLetter(q, Million, 0);
  }

  lemma CondoPrice(q: string)
    requires q == "คอนโด " + Under + " 50000" + " " + ReservedThai
    ensures PriceCeiling(q) == Some(50000.0)
  {
    UnderFiftyThousand(q, "คอนโด ", " " + ReservedThai);
  }

  lemma CondoType(ts: seq<string>)
    requires |ts| == 4 && ts[0] == "คอนโด" && ts[1] == "under" && ts[2] == "50000" && ts[3] == "จอง"
    ensures TokenType(ts[0]) == Some(Condo) && forall j | 0 < j < |ts| :: TokenType(ts[j]).None?
  {
    MissingLetter(ts[0], HouseMarker, 0);
    OccursAtContains(ts[0], Condo, 0);
    NoTypeIn(ts, 1, 4, 0, 0, 0);
  }

  lemma CondoNoBedrooms(ts: seq<string>)
    requires |ts| == 4 && ts[0] == "คอนโด" && ts[1] == "under" && ts[2] == "50000" && ts[3] == "จอง"
    ensures forall j | 0 <= j < |ts| :: TokenBedrooms(ts[j]).None?
  {
    NoBedroomDigit(ts[0]);
    NoBedroomKeyword(ts[1], 0, 4);
    NoBedroomKeyword(ts[2], 0, 0);
    NoBedroomDigit(ts[3]);
  }

  lemma CondoNoLocation(ts: seq<string>)
    requires |ts| == 4 && ts[0] == "คอนโด" && ts[1] == "under" && ts[2] == "50000" && ts[3] == "จอง"
    ensures forall j | 0 <= j < |ts| :: TokenLocation(ts[j]).None?
  {
    NoLocation(ts[0], 5, 6);
    NoLocation(ts[1], 5, 6);
    NoLocation(ts[2], 5, 6);
    NoLocation(ts[3], 5, 6);
  }

  lemma CondoReserved(q: string)
    requires q == "คอนโด " + Under + " 50000" + " " + ReservedThai
    ensures AsksReserved(q)
  {
    assert q[18..21] == ReservedThai;
    OccursAtContains(q, ReservedThai, 18);
  }

  /** A condominium under 50,000, reserved: under takes its number as written, and จอง asks for reserved listings. */
  lemma CondoUnderReserved(q: string, ts: seq<string>)
    requires q == "คอนโด " + Under + " 50000" + " " + ReservedThai && ts == ["คอนโด", "under", "50000", "จอง"]
    ensures Interpret(q, ts) == QueryFilter(Some(Condo), None, Some(50000.0), None, Reserved)
  {
    CondoType(ts);
    LastOfIsLastSome(ts, TokenType, 0);
    CondoNoBedrooms(ts);
    LastOfIsLast(ts, TokenBedrooms);
    CondoNoLocation(ts);
    LastOfIsLast(ts, TokenLocation);
    CondoPrice(q);
    CondoReserved(q);
  }

  // ---------------------------------------------------------------------------
  // บ้านเดี่ยว 2 ห้องนอน ไม่เกิน 3 ล้าน ในนนทบุรี, split into words

  /** ไม่เกิน 3 ล้าน after a prefix in which no match can start sets a ceiling of 3 million. */
  lemma AtMostThreeMillion(q: string, pre: string, post: string)
    requires q == pre + AtMost + " 3 " + Million + post
    requires AtMost[0] !in pre && Under[0] !in pre
    ensures PriceCeiling(q) == Some(3000000.0)
  {
    var p := |pre|;
    assert q[p..p + 7] == AtMost;
    assert q[p + 7..p + 8] == " " && q[p + 9..p + 10] == " ";
    assert q[p + 8..p + 9] == "3" && "3"[..0] == "";
    assert q[p + 10..p + 14] == Million;
    assert !IsDigit(q[p + 9]);
    assert AtMostMillionAt(q, p, p + 8, p + 9, p + 9, p + 10, 3.0);
    AtMostMillionComplete(q, p, p + 8, p + 9, p + 9, p + 10, 3.0);
    assert q[..p] == pre;
    NoPriceBefore(q, p);
    LeftmostPriceAt(q, 0, p);
    OccursAtContains(q, AtMost, p);
    OccursAtContains(q, Million, p + 10);
  }

  /** A query around ไม่เกิน 3 ล้าน asks for reserved listings only if its other parts spell reserved or จอง. */
  lemma AtMostThreeMillionNotReserved(q: string, pre: string, post: string)
    requires q == pre + AtMost + " 3 " + Million + post
    requires Reserved[0] !in pre && Reserved[0] !in post
    requires ReservedThai[0] !in pre && ReservedThai[0] !in post
    ensures !AsksReserved(q)
  {
    MissingLetter(q, Reserved, 0);
    MissingLetter(q, ReservedThai, 0);
  }

  /** บ้านเดี่ยว contains บ้าน, so it names a detached house. */
  lemma DetachedWord(t: string)
    requires t == House
    ensures TokenType(t) == Some(House)
  {
    assert t[..4] == HouseMarker;
    OccursAtContains(t, HouseMarker, 0);
  }

  lemma DetachedType(ts: seq<string>)
    requires |ts| == 7 && ts[0] == House && ts[1] == "2" && ts[2] == "ห้องนอน" && ts[3] == "ไม่เกิน" && ts[4] == "3" && ts[5] == "ล้าน" && ts[6] == "ในนนทบุรี"
    ensures TokenType(ts[0]) == Some(House) && forall j | 0 < j < |ts| :: TokenType(ts[j]).None?
  {
    DetachedWord(ts[0]);
    NoTypeIn(ts, 1, 6, 0, 0, 0);
    NoTypeIn(ts, 6, 7, 1, 0, 1);
  }

  lemma DetachedNoBedrooms(ts: seq<string>)
    requires |ts| == 7 && ts[0] == House && ts[1] == "2" && ts[2] == "ห้องนอน" && ts[3] == "ไม่เกิน" && ts[4] == "3" && ts[5] == "ล้าน" && ts[6] == "ในนนทบุรี"
    ensures forall j | 0 <= j < |ts| :: TokenBedrooms(ts[j]).None?
  {
    forall j | 0 <= j < |ts| ensures TokenBedrooms(ts[j]).None? {
      if j == 1 || j == 4 {
        NoBedroomKeyword(ts[j], 0, 0);
      } else {
        NoBedroomDigit(ts[j]);
      }
    }
  }

  lemma DetachedLocation(ts: seq<string>)
    requires |ts| > 0 && ts[|ts| - 1] == "ในนนทบุรี"
    ensures TokenLocation(ts[|ts| - 1]) == Some(Nonthaburi)
  {
    var t := ts[|ts| - 1];
    assert t[2..9] == Nonthaburi;
    OccursAtContains(t, Nonthaburi, 2);
  }

  /** The two spellings of the detached-house query before its price: the count apart from ห้องนอน, or joined to it. */
  predicate HousePrefix(pre: string) {
    pre == "บ้านเดี่ยว 2 ห้องนอน " || pre == "บ้านเดี่ยว 2ห้องนอน "
  }

  lemma HouseQueryCeiling(q: string, pre: string)
    requires HousePrefix(pre) && q == pre + AtMost + " 3 " + Million + " ในนนทบุรี"
    ensures PriceCeiling(q) == Some(3000000.0)
  {
    AtMostThreeMillion(q, pre, " ในนนทบุรี");
  }

  lemma HouseQueryNotReserved(q: string, pre: string)
    requires HousePrefix(pre) && q == pre + AtMost + " 3 " + Million + " ในนนทบุรี"
    ensures !AsksReserved(q)
  {
    AtMostThreeMillionNotReserved(q, pre, " ในนนทบุรี");
  }

  /**
   * A detached house, at most 3 million, in Nonthaburi. With the number and
   * ห้องนอน in separate tokens no token matches the bedroom pattern, so the
   * bedroom count stays unset: that rule looks at one token at a time.
   */
  lemma DetachedHouseWords(q: string, ts: seq<string>)
    requires q == "บ้านเดี่ยว 2 ห้องนอน " + AtMost + " 3 " + Million + " ในนนทบุรี"
    requires ts == ["บ้านเดี่ยว", "2", "ห้องนอน", "ไม่เกิน", "3", "ล้าน", "ในนนทบุรี"]
    ensures Interpret(q, ts) == QueryFilter(Some(House), None, Some(3000000.0), Some(Nonthaburi), Available)
  {
    DetachedType(ts);
    LastOfIsLastSome(ts, TokenType, 0);
    DetachedNoBedrooms(ts);
    LastOfIsLast(ts, TokenBedrooms);
    DetachedLocation(ts);
    LastOfIsLastSome(ts, TokenLocation, 6);
    HouseQueryCeiling(q, "บ้านเดี่ยว 2 ห้องนอน ");
    HouseQueryNotReserved(q, "บ้านเดี่ยว 2 ห้องนอน ");
  }

  // ---------------------------------------------------------------------------
  // บ้านเดี่ยว 2ห้องนอน ไม่เกิน 3 ล้าน ในนนทบุรี, the count joined to its keyword

  lemma JoinedType(ts: seq<string>)
    requires |ts| == 6 && ts[0] == House && ts[1] == "2ห้องนอน" && ts[2] == "ไม่เกิน" && ts[3] == "3" && ts[4] == "ล้าน" && ts[5] == "ในนนทบุรี"
    ensures TokenType(ts[0]) == Some(House) && forall j | 0 < j < |ts| :: TokenType(ts[j]).None?
  {
    DetachedWord(ts[0]);
    NoTypeIn(ts, 1, 5, 0, 0, 0);
    NoTypeIn(ts, 5, 6, 1, 0, 1);
  }

  /** The token 2ห้องนอน matches the bedroom pattern, and its first digit run is 2. */
  lemma TwoBedrooms(t: string)
    requires t == "2ห้องนอน"
    ensures TokenBedrooms(t) == Some(2)
  {
    assert t[1..8] == BedroomThai;
    assert t[0..1] == "2" && "2"[..0] == "";
    assert BedroomPhraseAt(t, 0, 1, 1);
    BedroomSearchIff(t);
    assert !IsDigit(t[1]);
    SkipDigitsAt(t, 1, 1);
  }

  lemma JoinedBedrooms(ts: seq<string>)
    requires |ts| == 6 && ts[0] == House && ts[1] == "2ห้องนอน" && ts[2] == "ไม่เกิน" && ts[3] == "3" && ts[4] == "ล้าน" && ts[5] == "ในนนทบุรี"
    ensures TokenBedrooms(ts[1]) == Some(2) && forall j | 1 < j < |ts| :: TokenBedrooms(ts[j]).None?
  {
    TwoBedrooms(ts[1]);
    forall j | 1 < j < |ts| ensures TokenBedrooms(ts[j]).None? {
      if j == 3 {
        NoBedroomKeyword(ts[j], 0, 0);
      } else {
        NoBedroomDigit(ts[j]);
      }
    }
  }

  /** The same request with the count joined to ห้องนอน in one token: now the bedroom count is read. */
  lemma DetachedHouseJoined(q: string, ts: seq<string>)
    requires q == "บ้านเดี่ยว 2ห้องนอน " + AtMost + " 3 " + Million + " ในนนทบุรี"
    requires ts == ["บ้านเดี่ยว", "2ห้องนอน", "ไม่เกิน", "3", "ล้าน", "ในนนทบุรี"]
    ensures Interpret(q, ts) == QueryFilter(Some(House), Some(2), Some(3000000.0), Some(Nonthaburi), Available)
  {
    JoinedType(ts);
    LastOfIsLastSome(ts, TokenType, 0);
    JoinedBedrooms(ts);
    LastOfIsLastSome(ts, TokenBedrooms, 1);
    DetachedLocation(ts);
    LastOfIsLastSome(ts, TokenLocation, 5);
    HouseQueryCeiling(q, "บ้านเดี่ยว 2ห้องนอน ");
    HouseQueryNotReserved(q, "บ้านเดี่ยว 2ห้องนอน ");
  }

  // ---------------------------------------------------------------------------
  // ล้าน anywhere scales the ceiling

  /** ล้าน scales the number under captured, though the under alternative does not mention it. */
  lemma UnderScaledByMillion(q: string)
    requires q == "under 3 ล้าน"
    ensures PriceCeiling(q) == Some(3000000.0)
  {
    assert q[0..5] == Under && q[6..7] == "3" && q[8..12] == Million;
    assert "3"[..0] == "";
    assert !IsDigit(q[7]);
    assert UnderAt(q, 0, 6, 7, 7, 3.0);
    UnderComplete(q, 0, 6, 7, 7, 3.0);
    LeftmostPriceAt(q, 0, 0);
    OccursAtContains(q, Under, 0);
    OccursAtContains(q, Million, 8);
  }

  /** ไม่เกิน without ล้าน after the number sets no ceiling. */
  lemma AtMostWithoutMillion(q: string, ts: seq<string>)
    requires q == "ไม่เกิน 5" && ts == ["ไม่เกิน", "5"]
    ensures Interpret(q, ts).priceMax == None
  {
    MissingLetter(q, Million, 0);
    MissingLetter(q, Under, 0);
    AtMostNeedsMillion(q, ts);
  }
}
