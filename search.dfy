/**
 * The filter engine: the predicate chain of `search_property`
 * (tast.py:58-69). Each step rebinds the result to the rows of the previous
 * one that pass a test, and the steps after the status test run only when
 * their field of the record is truthy in Python's sense (`None`, `0`, `0.0`
 * and the empty string are falsy). The listing table, which the source fetches
 * from a spreadsheet on every search, is a parameter here.
 */
module FilterEngine {
  import opened Text
  import opened QueryInterpreter

  /** One listing: a row of the spreadsheet, with the columns the filter reads. */
  datatype Row = Row(status: string, propertyType: string, bedrooms: int, price: real, location: string)

  /** `df[mask]` for a row predicate: the rows that pass, in their order. */
  function Where(rows: seq<Row>, keep: Row -> bool): seq<Row> {
    if rows == [] then []
    else if keep(rows[0]) then [rows[0]] + Where(rows[1..], keep)
    else Where(rows[1..], keep)
  }

  // Python truthiness of the record's fields
  predicate TypeActive(q: QueryFilter) { q.propertyType.Some? && q.propertyType.value != "" }
  predicate BedroomsActive(q: QueryFilter) { q.bedrooms.Some? && q.bedrooms.value != 0 }
  predicate PriceActive(q: QueryFilter) { q.priceMax.Some? && q.priceMax.value != 0.0 }
  predicate LocationActive(q: QueryFilter) { q.location.Some? && q.location.value != "" }

  // The five tests of the chain, one per column
  predicate StatusTest(q: QueryFilter, r: Row) { r.status == q.status }
  predicate TypeTest(q: QueryFilter, r: Row) requires q.propertyType.Some? {
    Lower(r.propertyType) == Lower(q.propertyType.value)
  }
  predicate BedroomsTest(q: QueryFilter, r: Row) requires q.bedrooms.Some? { r.bedrooms == q.bedrooms.value }
  predicate PriceTest(q: QueryFilter, r: Row) requires q.priceMax.Some? { r.price <= q.priceMax.value }
  predicate LocationTest(q: QueryFilter, r: Row) requires q.location.Some? { Contains(r.location, q.location.value) }

  /** `search_property` after the record and the table are at hand: the chain of filters. */
  function Search(table: seq<Row>, q: QueryFilter): seq<Row> {
    var byStatus := Where(table, r => StatusTest(q, r));
    var byType := if TypeActive(q) then Where(byStatus, r => TypeTest(q, r)) else byStatus;
    var byBedrooms := if BedroomsActive(q) then Where(byType, r => BedroomsTest(q, r)) else byType;
    var byPrice := if PriceActive(q) then Where(byBedrooms, r => PriceTest(q, r)) else byBedrooms;
    if LocationActive(q) then Where(byPrice, r => LocationTest(q, r)) else byPrice
  }

  /** A row passes every test that the record switches on. */
  predicate Matches(q: QueryFilter, r: Row) {
    && StatusTest(q, r)
    && (TypeActive(q) ==> TypeTest(q, r))
    && (BedroomsActive(q) ==> BedroomsTest(q, r))
    && (PriceActive(q) ==> PriceTest(q, r))
    && (LocationActive(q) ==> LocationTest(q, r))
  }

  // ---------------------------------------------------------------------------
  // Where

  /** `Where` keeps a row exactly when it is in the input and passes. */
  lemma {:induction false} WhereMembers(rows: seq<Row>, keep: Row -> bool)
    ensures |Where(rows, keep)| <= |rows|
    ensures forall r :: r in Where(rows, keep) <==> r in rows && keep(r)
  {
    if rows != [] {
      WhereMembers(rows[1..], keep);
      assert rows == [rows[0]] + rows[1..];
    }
  }

  /** Indices of the rows that pass, in increasing order. */
  function KeptIndices(rows: seq<Row>, keep: Row -> bool, from: nat): seq<nat>
    requires from <= |rows|
    decreases |rows| - from
  {
    if from == |rows| then []
    else if keep(rows[from]) then [from] + KeptIndices(rows, keep, from + 1)
    else KeptIndices(rows, keep, from + 1)
  }

  /**
   * `Where` is the subsequence of all passing rows: the i-th output row is the
   * input row at the i-th passing index, the indices increase, and an index
   * is listed exactly when its row passes.
   */
  lemma {:induction false} WhereIsPassingSubsequence(rows: seq<Row>, keep: Row -> bool, from: nat)
    requires from <= |rows|
    ensures var out, idx := Where(rows[from..], keep), KeptIndices(rows, keep, from);
      && |out| == |idx|
      && (forall k | 0 <= k < |idx| :: from <= idx[k] < |rows| && out[k] == rows[idx[k]])
      && (forall k, l | 0 <= k < l < |idx| :: idx[k] < idx[l])
      && (forall i | from <= i < |rows| :: i in idx <==> keep(rows[i]))
    decreases |rows| - from
  {
    if from < |rows| {
      WhereIsPassingSubsequence(rows, keep, from + 1);
      assert rows[from..][1..] == rows[from + 1..];
      assert rows[from..][0] == rows[from];
    }
  }

  /** Filtering by `p` and then by `q` is filtering by both. */
  lemma {:induction false} WhereWhere(rows: seq<Row>, p: Row -> bool, q: Row -> bool, both: Row -> bool)
    requires forall r :: both(r) == (p(r) && q(r))
    ensures Where(Where(rows, p), q) == Where(rows, both)
  {
    if rows != [] {
      WhereWhere(rows[1..], p, q, both);
    }
  }

  /** Filters that agree on every row give the same result. */
  lemma {:induction false} WhereSame(rows: seq<Row>, p: Row -> bool, q: Row -> bool)
    requires forall r :: p(r) == q(r)
    ensures Where(rows, p) == Where(rows, q)
  {
    if rows != [] {
      WhereSame(rows[1..], p, q);
    }
  }

  /** A second pass of the same filter changes nothing. */
  lemma {:induction false} WhereIdempotent(rows: seq<Row>, p: Row -> bool)
    ensures Where(Where(rows, p), p) == Where(rows, p)
  {
    if rows != [] {
      WhereIdempotent(rows[1..], p);
    }
  }

  // ---------------------------------------------------------------------------
  // The chain

  /** The chain of filters is one filter by the conjunction of the active tests. */
  lemma SearchIsOneFilter(table: seq<Row>, q: QueryFilter)
    ensures Search(table, q) == Where(table, r => Matches(q, r))
  {
    var s0 := r => StatusTest(q, r);
    var s1 := r => StatusTest(q, r) && (TypeActive(q) ==> TypeTest(q, r));
    var s2 := r => s1(r) && (BedroomsActive(q) ==> BedroomsTest(q, r));
    var s3 := r => s2(r) && (PriceActive(q) ==> PriceTest(q, r));
    var s4 := r => s3(r) && (LocationActive(q) ==> LocationTest(q, r));
    var byStatus := Where(table, s0);
    var byType := if TypeActive(q) then Where(byStatus, r => TypeTest(q, r)) else byStatus;
    if TypeActive(q) {
      WhereWhere(table, s0, r => TypeTest(q, r), s1);
    } else {
      WhereSame(table, s0, s1);
    }
    assert byType == Where(table, s1);
    var byBedrooms := if BedroomsActive(q) then Where(byType, r => BedroomsTest(q, r)) else byType;
    if BedroomsActive(q) {
      WhereWhere(table, s1, r => BedroomsTest(q, r), s2);
    } else {
      WhereSame(table, s1, s2);
    }
    assert byBedrooms == Where(table, s2);
    var byPrice := if PriceActive(q) then Where(byBedrooms, r => PriceTest(q, r)) else byBedrooms;
    if PriceActive(q) {
      WhereWhere(table, s2, r => PriceTest(q, r), s3);
    } else {
      WhereSame(table, s2, s3);
    }
    assert byPrice == Where(table, s3);
    if LocationActive(q) {
      WhereWhere(table, s3, r => LocationTest(q, r), s4);
    } else {
      WhereSame(table, s3, s4);
    }
    WhereSame(table, s4, r => Matches(q, r));
  }

  /** Sound and complete: a row is in the result exactly when it is in the table and passes every active test. */
  lemma SearchSoundComplete(table: seq<Row>, q: QueryFilter, row: Row)
    ensures row in Search(table, q) <==> row in table && Matches(q, row)
  {
    SearchIsOneFilter(table, q);
    WhereMembers(table, r => Matches(q, r));
  }

  /**
   * The result is the subsequence of the table made of every matching row, in
   * table order (`reset_index` only renumbers them).
   */
  lemma SearchIsMatchingSubsequence(table: seq<Row>, q: QueryFilter)
    ensures exists idx: seq<nat> ::
      && |idx| == |Search(table, q)|
      && (forall k | 0 <= k < |idx| :: idx[k] < |table| && Search(table, q)[k] == table[idx[k]])
      && (forall k, l | 0 <= k < l < |idx| :: idx[k] < idx[l])
      && (forall i | 0 <= i < |table| :: i in idx <==> Matches(q, table[i]))
  {
    SearchIsOneFilter(table, q);
    WhereIsPassingSubsequence(table, r => Matches(q, r), 0);
    assert table[0..] == table;
    var idx := KeptIndices(table, r => Matches(q, r), 0);
  }

  /**
   * A table sorted by any key, under any order relation on that key (price,
   * location, bedrooms, ...), gives a result sorted the same way.
   */
  lemma SearchKeepsOrder<K>(table: seq<Row>, q: QueryFilter, key: Row -> K, le: (K, K) -> bool)
    requires forall i, j | 0 <= i < j < |table| :: le(key(table[i]), key(table[j]))
    ensures forall i, j | 0 <= i < j < |Search(table, q)| :: le(key(Search(table, q)[i]), key(Search(table, q)[j]))
  {
    var keep := r => Matches(q, r);
    SearchIsOneFilter(table, q);
    WhereIsPassingSubsequence(table, keep, 0);
    assert table[0..] == table;
    var out, idx := Search(table, q), KeptIndices(table, keep, 0);
    forall i, j | 0 <= i < j < |out| ensures le(key(out[i]), key(out[j])) {
      assert out[i] == table[idx[i]] && out[j] == table[idx[j]] && idx[i] < idx[j];
    }
  }

  /** Running the search again on its own result with the same record returns it unchanged. */
  lemma SearchIdempotent(table: seq<Row>, q: QueryFilter)
    ensures Search(Search(table, q), q) == Search(table, q)
  {
    SearchIsOneFilter(table, q);
    SearchIsOneFilter(Search(table, q), q);
    WhereIdempotent(table, r => Matches(q, r));
  }

  /** The default record keeps exactly the available rows. */
  lemma DefaultKeepsAvailable(table: seq<Row>)
    ensures Search(table, DefaultFilter) == Where(table, (r: Row) => r.status == Available)
  {
    WhereSame(table, r => StatusTest(DefaultFilter, r), (r: Row) => r.status == Available);
  }

  /** A bedroom count or price ceiling of zero is falsy: it filters nothing, like `None`. */
  lemma ZeroIsNoConstraint(table: seq<Row>, q: QueryFilter)
    ensures Search(table, q.(bedrooms := Some(0))) == Search(table, q.(bedrooms := None))
    ensures Search(table, q.(priceMax := Some(0.0))) == Search(table, q.(priceMax := None))
  {
    var b0, bn := q.(bedrooms := Some(0)), q.(bedrooms := None);
    SearchIsOneFilter(table, b0);
    SearchIsOneFilter(table, bn);
    WhereSame(table, r => Matches(b0, r), r => Matches(bn, r));
    var p0, pn := q.(priceMax := Some(0.0)), q.(priceMax := None);
    SearchIsOneFilter(table, p0);
    SearchIsOneFilter(table, pn);
    WhereSame(table, r => Matches(p0, r), r => Matches(pn, r));
  }

  /** The bedroom test is exact: a three-bedroom listing fails a request for two. */
  lemma BedroomsAreExact(table: seq<Row>, q: QueryFilter, row: Row)
    requires q.bedrooms == Some(2) && row.bedrooms == 3
    ensures row !in Search(table, q)
  {
    SearchSoundComplete(table, q, row);
  }

  /** The location test is a substring test: นนทบุรี-เมือง passes a request for นนทบุรี. */
  lemma LocationIsSubstring(table: seq<Row>, q: QueryFilter, row: Row)
    requires q.location == Some(Nonthaburi) && row.location == Nonthaburi + "-เมือง"
    requires row in table && Matches(q.(location := None), row)
    ensures row in Search(table, q)
  {
    assert OccursAt(row.location, Nonthaburi, 0);
    OccursAtContains(row.location, Nonthaburi, 0);
    SearchSoundComplete(table, q, row);
  }

  // ---------------------------------------------------------------------------
  // search_property

  /**
   * `search_property`: interpret the query, then filter the table by the
   * record. The table stands for what `load_data` fetches, and `tokens` for
   * what the tokenizer makes of the lowercased query.
   */
  method SearchProperty(query: string, tokens: seq<string>, table: seq<Row>) returns (rows: seq<Row>)
    ensures rows == Search(table, Interpret(Lower(query), tokens))
    ensures forall r :: r in rows <==> r in table && Matches(Interpret(Lower(query), tokens), r)
  {
    var q := ParseQuery(query, tokens);
    rows := Search(table, q);
    forall r ensures r in rows <==> r in table && Matches(q, r) {
      SearchSoundComplete(table, q, r);
    }
  }
}
