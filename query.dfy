/**
 * The query interpreter, `parse_query` (tast.py:21-52): it walks the tokens of
 * the lowercased query and overwrites the fields of a filter record, later
 * tokens winning. The tokenizer (nltk's `word_tokenize`) is not modelled: the
 * token sequence is an input, taken to be the tokens of the lowercased query.
 *
 * `ParseQuery` is the loop of the source; `Interpret` states field by field
 * what the loop computes, and the lemmas below state what that means.
 */
module QueryInterpreter {
  import opened Text
  import opened Patterns

  const House := "บ้านเดี่ยว"
  const HouseMarker := "บ้าน"
  const Condo := "คอนโด"
  const Townhome := "ทาวน์โฮม"
  const Nonthaburi := "นนทบุรี"
  const Bangkok := "กรุงเทพ"
  const Reserved := "reserved"
  const ReservedThai := "จอง"
  const Available := "available"

  /** The `result` dict of `parse_query`; `None` stands for Python's `None`. */
  datatype QueryFilter = QueryFilter(
    propertyType: Option<string>,
    bedrooms: Option<nat>,
    priceMax: Option<real>,
    location: Option<string>,
    status: string)

  /** The record `parse_query` starts from. */
  const DefaultFilter := QueryFilter(None, None, None, None, Available)

  /** Property type named by one token: บ้าน (which บ้านเดี่ยว contains) beats คอนโด beats ทาวน์โฮม. */
  function TokenType(t: string): Option<string> {
    if Contains(t, HouseMarker) then Some(House)
    else if Contains(t, Condo) then Some(Condo)
    else if Contains(t, Townhome) then Some(Townhome)
    else None
  }

  /** Bedroom count named by one token: the first digit run of a token matching the bedroom phrase. */
  function TokenBedrooms(t: string): Option<nat> {
    if BedroomSearch(t) then FirstNumber(t) else None
  }

  /** Location named by one token: นนทบุรี beats กรุงเทพ. */
  function TokenLocation(t: string): Option<string> {
    if Contains(t, Nonthaburi) then Some(Nonthaburi)
    else if Contains(t, Bangkok) then Some(Bangkok)
    else None
  }

  /** The value `f` gives the last token for which it gives one. */
  function LastOf<T>(tokens: seq<string>, f: string -> Option<T>): Option<T> {
    if tokens == [] then None
    else
      var last := |tokens| - 1;
      match f(tokens[last])
      case Some(v) => Some(v)
      case None => LastOf(tokens[..last], f)
  }

  /** `LastOf` finds a value exactly when some token has one, and then it is the last such token's. */
  lemma {:induction false} LastOfIsLast<T>(tokens: seq<string>, f: string -> Option<T>)
    ensures LastOf(tokens, f).None? <==> forall i | 0 <= i < |tokens| :: f(tokens[i]).None?
    ensures LastOf(tokens, f).Some? ==>
      exists i | 0 <= i < |tokens| ::
        f(tokens[i]) == LastOf(tokens, f) && forall j | i < j < |tokens| :: f(tokens[j]).None?
  {
    if tokens != [] {
      var last := |tokens| - 1;
      if f(tokens[last]).None? {
        LastOfIsLast(tokens[..last], f);
        assert forall i | 0 <= i < last :: tokens[..last][i] == tokens[i];
      }
    }
  }

  /** The price ceiling read off the whole query, scaled when ล้าน occurs anywhere in it. */
  function PriceCeiling(q: string): Option<real> {
    if Contains(q, AtMost) || Contains(q, Under) then
      match LeftmostPrice(q, 0)
      case None => None
      case Some(h) => Some(if Contains(q, Million) then h.amount * 1000000.0 else h.amount)
    else
      None
  }

  /** The whole query asks for reserved listings. */
  predicate AsksReserved(q: string) {
    Contains(q, Reserved) || Contains(q, ReservedThai)
  }

  /**
   * The record `parse_query` returns for the lowercased query `q` and its tokens.
   * The whole-query checks sit inside the token loop, so they apply only when
   * there is at least one token.
   */
  function Interpret(q: string, tokens: seq<string>): QueryFilter {
    QueryFilter(
      LastOf(tokens, TokenType),
      LastOf(tokens, TokenBedrooms),
      if tokens == [] then None else PriceCeiling(q),
      LastOf(tokens, TokenLocation),
      if tokens != [] && AsksReserved(q) then Reserved else Available)
  }

  /** One more token: its value wins if it has one. */
  lemma LastOfExtend<T>(tokens: seq<string>, k: nat, f: string -> Option<T>)
    requires k < |tokens|
    ensures LastOf(tokens[..k + 1], f) == if f(tokens[k]).Some? then f(tokens[k]) else LastOf(tokens[..k], f)
  {
    assert tokens[..k + 1][..k] == tokens[..k];
  }

  /** บ้านเดี่ยว contains บ้าน, so the first test of the chain adds nothing to the second. */
  lemma HouseCoversDetached(t: string)
    ensures Contains(t, House) || Contains(t, HouseMarker) <==> Contains(t, HouseMarker)
  {
    if Contains(t, House) {
      assert OccursAt(House, HouseMarker, 0);
      OccursAtContains(House, HouseMarker, 0);
      ContainsTransitive(t, House, HouseMarker);
    }
  }

  /** Lines 27-32 of `parse_query`: the property-type rule applied to one token. */
  method ApplyTypeRule(token: string, result: QueryFilter) returns (updated: QueryFilter)
    ensures updated == result.(propertyType := if TokenType(token).Some? then TokenType(token) else result.propertyType)
  {
    updated := result;
    HouseCoversDetached(token);
    if Contains(token, House) || Contains(token, HouseMarker) {
      updated := updated.(propertyType := Some(House));
    } else if Contains(token, Condo) {
      updated := updated.(propertyType := Some(Condo));
    } else if Contains(token, Townhome) {
      updated := updated.(propertyType := Some(Townhome));
    }
  }

  /** Lines 34-36 of `parse_query`: the bedroom rule applied to one token. */
  method ApplyBedroomRule(token: string, result: QueryFilter) returns (updated: QueryFilter)
    ensures updated == result.(bedrooms := if TokenBedrooms(token).Some? then TokenBedrooms(token) else result.bedrooms)
  {
    updated := result;
    if BedroomSearch(token) {
      BedroomPhraseHasNumber(token);
      var num := FirstNumber(token).value;
      updated := updated.(bedrooms := Some(num));
    }
  }

  /** Lines 38-42 of `parse_query`: the price rule, read off the whole query. */
  method ApplyPriceRule(q: string, result: QueryFilter) returns (updated: QueryFilter)
    ensures updated == result.(priceMax := if PriceCeiling(q).Some? then PriceCeiling(q) else result.priceMax)
  {
    updated := result;
    if Contains(q, AtMost) || Contains(q, Under) {
      var m := LeftmostPrice(q, 0);
      if m.Some? {
        var amount := if Contains(q, Million) then m.value.amount * 1000000.0 else m.value.amount;
        updated := updated.(priceMax := Some(amount));
      }
    }
  }

  /** Lines 44-47 of `parse_query`: the location rule applied to one token. */
  method ApplyLocationRule(token: string, result: QueryFilter) returns (updated: QueryFilter)
    ensures updated == result.(location := if TokenLocation(token).Some? then TokenLocation(token) else result.location)
  {
    updated := result;
    if Contains(token, Nonthaburi) {
      updated := updated.(location := Some(Nonthaburi));
    } else if Contains(token, Bangkok) {
      updated := updated.(location := Some(Bangkok));
    }
  }

  /** `parse_query(query)`, given the tokens of `query.lower()`. */
  method ParseQuery(query: string, tokens: seq<string>) returns (result: QueryFilter)
    ensures result == Interpret(Lower(query), tokens)
  {
    var q := Lower(query);
    result := DefaultFilter;
    for k := 0 to |tokens|
      invariant result.propertyType == LastOf(tokens[..k], TokenType)
      invariant result.bedrooms == LastOf(tokens[..k], TokenBedrooms)
      invariant result.priceMax == if k == 0 then None else PriceCeiling(q)
      invariant result.location == LastOf(tokens[..k], TokenLocation)
      invariant result.status == if k > 0 && AsksReserved(q) then Reserved else Available
    {
      var token := tokens[k];
      LastOfExtend(tokens, k, TokenType);
      LastOfExtend(tokens, k, TokenBedrooms);
      LastOfExtend(tokens, k, TokenLocation);

      result := ApplyTypeRule(token, result);
      result := ApplyBedroomRule(token, result);

      result := ApplyPriceRule(q, result);

      result := ApplyLocationRule(token, result);

      if Contains(q, Reserved) || Contains(q, ReservedThai) {
        result := result.(status := Reserved);
      }
    }
    assert tokens[..|tokens|] == tokens;
  }

  // ---------------------------------------------------------------------------
  // What the record means

  /** With no token, the record is the default one whatever the query says. */
  lemma NoTokensGiveDefault(q: string)
    ensures Interpret(q, []) == DefaultFilter
  {
  }

  /**
   * A query whose tokens name no type, bedroom phrase or location, and which
   * has none of ไม่เกิน, under, reserved, จอง, gives the default record.
   */
  lemma NoKeywordsGiveDefault(q: string, tokens: seq<string>)
    requires forall i | 0 <= i < |tokens| ::
      && !Contains(tokens[i], HouseMarker) && !Contains(tokens[i], Condo) && !Contains(tokens[i], Townhome)
      && !BedroomSearch(tokens[i])
      && !Contains(tokens[i], Nonthaburi) && !Contains(tokens[i], Bangkok)
    requires !Contains(q, AtMost) && !Contains(q, Under)
    requires !Contains(q, Reserved) && !Contains(q, ReservedThai)
    ensures Interpret(q, tokens) == DefaultFilter
  {
    assert forall i | 0 <= i < |tokens| :: TokenType(tokens[i]).None?;
    assert forall i | 0 <= i < |tokens| :: TokenBedrooms(tokens[i]).None?;
    assert forall i | 0 <= i < |tokens| :: TokenLocation(tokens[i]).None?;
    LastOfIsLast(tokens, TokenType);
    LastOfIsLast(tokens, TokenBedrooms);
    LastOfIsLast(tokens, TokenLocation);
  }

  /** The property type is absent or one of the three canonical names. */
  lemma PropertyTypeRange(q: string, tokens: seq<string>)
    ensures Interpret(q, tokens).propertyType in {None, Some(House), Some(Condo), Some(Townhome)}
  {
    LastOfIsLast(tokens, TokenType);
    var r := LastOf(tokens, TokenType);
    if r.Some? {
      var i :| 0 <= i < |tokens| && TokenType(tokens[i]) == r;
    }
  }

  /** The location is absent or one of the two canonical names. */
  lemma LocationRange(q: string, tokens: seq<string>)
    ensures Interpret(q, tokens).location in {None, Some(Nonthaburi), Some(Bangkok)}
  {
    LastOfIsLast(tokens, TokenLocation);
    var r := LastOf(tokens, TokenLocation);
    if r.Some? {
      var i :| 0 <= i < |tokens| && TokenLocation(tokens[i]) == r;
    }
  }

  /**
   * The property type comes from the last token containing a type keyword,
   * with บ้าน winning over คอนโด and คอนโด over ทาวน์โฮม inside that token.
   */
  lemma PropertyTypeFromLastKeywordToken(q: string, tokens: seq<string>, i: nat)
    requires i < |tokens| && TokenType(tokens[i]).Some?
    requires forall j | i < j < |tokens| :: TokenType(tokens[j]).None?
    ensures Contains(tokens[i], HouseMarker) ==> Interpret(q, tokens).propertyType == Some(House)
    ensures !Contains(tokens[i], HouseMarker) && Contains(tokens[i], Condo) ==>
      Interpret(q, tokens).propertyType == Some(Condo)
    ensures !Contains(tokens[i], HouseMarker) && !Contains(tokens[i], Condo) ==>
      Interpret(q, tokens).propertyType == Some(Townhome)
  {
    LastOfIsLastSome(tokens, TokenType, i);
  }

  /** The location comes from the last token containing a location, นนทบุรี winning inside it. */
  lemma LocationFromLastKeywordToken(q: string, tokens: seq<string>, i: nat)
    requires i < |tokens| && TokenLocation(tokens[i]).Some?
    requires forall j | i < j < |tokens| :: TokenLocation(tokens[j]).None?
    ensures Contains(tokens[i], Nonthaburi) ==> Interpret(q, tokens).location == Some(Nonthaburi)
    ensures !Contains(tokens[i], Nonthaburi) ==> Interpret(q, tokens).location == Some(Bangkok)
  {
    LastOfIsLastSome(tokens, TokenLocation, i);
  }

  /** `LastOf` is determined by the last token for which `f` gives a value. */
  lemma {:induction false} LastOfIsLastSome<T>(tokens: seq<string>, f: string -> Option<T>, i: nat)
    requires i < |tokens| && f(tokens[i]).Some?
    requires forall j | i < j < |tokens| :: f(tokens[j]).None?
    ensures LastOf(tokens, f) == f(tokens[i])
  {
    var last := |tokens| - 1;
    if i < last {
      assert forall j | i < j < last :: tokens[..last][j] == tokens[j];
      LastOfIsLastSome(tokens[..last], f, i);
    }
  }

  /**
   * A bedroom count, when present, is the value of the first digit run of the
   * last token matching the bedroom phrase (not necessarily the digits next to
   * the keyword).
   */
  lemma BedroomsFromLastPhraseToken(q: string, tokens: seq<string>)
    ensures Interpret(q, tokens).bedrooms.Some? <==> exists i | 0 <= i < |tokens| :: HasBedroomPhrase(tokens[i])
    ensures Interpret(q, tokens).bedrooms.Some? ==>
      exists i | 0 <= i < |tokens| ::
        && HasBedroomPhrase(tokens[i])
        && (forall j | i < j < |tokens| :: !HasBedroomPhrase(tokens[j]))
        && Interpret(q, tokens).bedrooms == FirstNumber(tokens[i])
  {
    forall t: string ensures TokenBedrooms(t).Some? <==> HasBedroomPhrase(t) {
      BedroomSearchIff(t);
      if BedroomSearch(t) {
        BedroomPhraseHasNumber(t);
      }
    }
    LastOfIsLast(tokens, TokenBedrooms);
    var r := LastOf(tokens, TokenBedrooms);
    if r.Some? {
      var i :| 0 <= i < |tokens| && TokenBedrooms(tokens[i]) == r
        && forall j | i < j < |tokens| :: TokenBedrooms(tokens[j]).None?;
      assert HasBedroomPhrase(tokens[i]);
    } else {
      assert forall i | 0 <= i < |tokens| :: !HasBedroomPhrase(tokens[i]);
    }
  }

  /**
   * A price ceiling, when present, is the number of the leftmost match of the
   * price pattern, times a million exactly when ล้าน occurs anywhere in the
   * query (also when the match is the under alternative).
   */
  lemma PriceFromLeftmostMatch(q: string, tokens: seq<string>)
    ensures Interpret(q, tokens).priceMax.Some? <==>
      tokens != [] && exists p | 0 <= p <= |q| :: PriceAt(q, p).Some?
    ensures Interpret(q, tokens).priceMax.Some? ==>
      exists p | 0 <= p <= |q| ::
        && PriceAt(q, p).Some?
        && (forall p' | 0 <= p' < p :: PriceAt(q, p').None?)
        && Interpret(q, tokens).priceMax.value ==
             if Contains(q, Million) then PriceAt(q, p).value * 1000000.0 else PriceAt(q, p).value
  {
    LeftmostPriceIsFirst(q, 0);
    var m := LeftmostPrice(q, 0);
    if m.Some? {
      PriceAtNeedsMarker(q, m.value.pos);
      assert PriceCeiling(q).Some?;
      if tokens != [] {
        var p := m.value.pos;
        assert PriceAt(q, p).Some? && forall p' | 0 <= p' < p :: PriceAt(q, p').None?;
      }
    } else {
      assert PriceCeiling(q).None?;
    }
  }

  /** A ไม่เกิน phrase without ล้าน anywhere sets no price unless under matches. */
  lemma AtMostNeedsMillion(q: string, tokens: seq<string>)
    requires !Contains(q, Million) && !Contains(q, Under)
    ensures Interpret(q, tokens).priceMax == None
  {
    LeftmostPriceIsFirst(q, 0);
    var m := LeftmostPrice(q, 0);
    if m.Some? {
      PriceAtWithoutMillion(q, m.value.pos);
      OccursAtContains(q, Under, m.value.pos);
    }
  }

  /** The status is reserved exactly when some token exists and the query has reserved or จอง. */
  lemma StatusIff(q: string, tokens: seq<string>)
    ensures Interpret(q, tokens).status in {Reserved, Available}
    ensures Interpret(q, tokens).status == Reserved <==>
      tokens != [] && (Contains(q, Reserved) || Contains(q, ReservedThai))
  {
  }

  /** Lowercasing first means an upper-case RESERVED in the raw query asks for reserved listings. */
  lemma UpperCaseReservedCounts(query: string, tokens: seq<string>)
    requires tokens != [] && Contains(query, "RESERVED")
    ensures Interpret(Lower(query), tokens).status == Reserved
  {
    LowerKeepsContains(query, "RESERVED");
    LowerReserved();
  }

  lemma LowerReserved()
    ensures Lower("RESERVED") == Reserved
  {
  }
}
