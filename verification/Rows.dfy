/** Rows, row streams and the selection a query builder performs.
    The SQL driver is replaced by its meaning: filter, stable order, page. */
module Rows {

  datatype Option<+T> = None | Some(value: T)

  /** A database cell. Times, decimals and floats are opaque tokens. */
  datatype Cell =
    | Null
    | Int(i: int)
    | Text(s: string)
    | Flag(b: bool)
    | Float(f: int)
    | Decimal(d: int)
    | Time(t: int)
    | Blob(bytes: seq<int>)

  type Row = map<string, Cell>

  /** What `int64` fields hold after scanning: NULL and absent columns leave 0. */
  function IntAt(r: Row, col: string): int {
    if col in r && r[col].Int? then r[col].i else 0
  }

  /** What `*int64` fields hold after scanning: NULL and absent columns leave nil. */
  function NillableIntAt(r: Row, col: string): Option<int> {
    if col in r && r[col].Int? then Some(r[col].i) else None
  }

  function Project(cols: seq<string>, r: Row): Row {
    map c | c in cols && c in r :: r[c]
  }

  // ---------------------------------------------------------------- streams

  function Filter<T>(p: T -> bool, s: seq<T>): seq<T> {
    if s == [] then [] else if p(s[0]) then [s[0]] + Filter(p, s[1..]) else Filter(p, s[1..])
  }

  lemma {:induction false} FilterIn<T(!new)>(p: T -> bool, s: seq<T>)
    ensures forall x :: x in Filter(p, s) <==> x in s && p(x)
  {
    if s != [] {
      FilterIn(p, s[1..]);
      assert s == [s[0]] + s[1..];
    }
  }

  function MapSeq<T, U>(f: T -> U, s: seq<T>): (r: seq<U>)
    ensures |r| == |s| && forall i :: 0 <= i < |s| ==> r[i] == f(s[i])
  {
    if s == [] then [] else [f(s[0])] + MapSeq(f, s[1..])
  }

  lemma {:induction false} FilterConcat<T(!new)>(p: T -> bool, s: seq<T>, t: seq<T>)
    ensures Filter(p, s + t) == Filter(p, s) + Filter(p, t)
  {
    if s == [] {
      assert s + t == t;
    } else {
      assert (s + t)[1..] == s[1..] + t && (s + t)[0] == s[0];
      FilterConcat(p, s[1..], t);
    }
  }

  lemma {:induction false} FilterAll<T(!new)>(p: T -> bool, s: seq<T>)
    requires forall x :: x in s ==> p(x)
    ensures Filter(p, s) == s
  {
    if s != [] {
      assert s == [s[0]] + s[1..];
      FilterAll(p, s[1..]);
    }
  }

  lemma {:induction false} FilterNone<T(!new)>(p: T -> bool, s: seq<T>)
    requires forall x :: x in s ==> !p(x)
    ensures Filter(p, s) == []
  {
    if s != [] {
      assert s == [s[0]] + s[1..];
      FilterNone(p, s[1..]);
    }
  }

  lemma {:induction false} FilterEq<T(!new)>(p: T -> bool, q: T -> bool, s: seq<T>)
    requires forall x :: x in s ==> p(x) == q(x)
    ensures Filter(p, s) == Filter(q, s)
  {
    if s != [] {
      assert s == [s[0]] + s[1..];
      FilterEq(p, q, s[1..]);
    }
  }

  lemma {:induction false} FilterFilter<T(!new)>(p: T -> bool, q: T -> bool, both: T -> bool, s: seq<T>)
    requires forall x :: x in s ==> both(x) == (q(x) && p(x))
    ensures Filter(p, Filter(q, s)) == Filter(both, s)
  {
    if s != [] {
      FilterFilter(p, q, both, s[1..]);
      FilterCons(p, s[0], Filter(q, s[1..]));
    }
  }

  // ---------------------------------------------------------------- ordering

  /** ORDER BY keys, most significant first. */
  type Order<!T> = seq<T -> int>

  predicate Leq<T>(o: Order<T>, x: T, y: T) {
    if o == [] then true
    else o[0](x) < o[0](y) || (o[0](x) == o[0](y) && Leq(o[1..], x, y))
  }

  /** Two rows the order does not tell apart. */
  predicate Tied<T>(o: Order<T>, x: T, y: T) {
    forall k :: 0 <= k < |o| ==> o[k](x) == o[k](y)
  }

  lemma LeqTotal<T>(o: Order<T>, x: T, y: T)
    ensures Leq(o, x, y) || Leq(o, y, x)
  {}

  lemma LeqTransitive<T>(o: Order<T>, x: T, y: T, z: T)
    requires Leq(o, x, y) && Leq(o, y, z)
    ensures Leq(o, x, z)
  {}

  lemma {:induction false} LeqBothIsTied<T>(o: Order<T>, x: T, y: T)
    ensures Leq(o, x, y) && Leq(o, y, x) <==> Tied(o, x, y)
  {
    if o != [] {
      LeqBothIsTied(o[1..], x, y);
      if Tied(o, x, y) {
        assert o[0](x) == o[0](y);
        assert forall k :: 0 <= k < |o[1..]| ==> o[1..][k] == o[k + 1];
        assert Tied(o[1..], x, y);
      }
      if Leq(o, x, y) && Leq(o, y, x) {
        assert Tied(o[1..], x, y);
        forall k | 0 <= k < |o| ensures o[k](x) == o[k](y) {
          if k > 0 { assert o[k] == o[1..][k - 1]; }
        }
      }
    }
  }

  predicate Sorted<T>(o: Order<T>, s: seq<T>) {
    forall i, j :: 0 <= i < j < |s| ==> Leq(o, s[i], s[j])
  }

  /** Puts x before the first element it is not greater than. */
  function Insert<T>(o: Order<T>, x: T, s: seq<T>): seq<T> {
    if s == [] then [x]
    else if Leq(o, x, s[0]) then [x] + s
    else [s[0]] + Insert(o, x, s[1..])
  }

  /** Stable: rows the order ties keep their physical order. */
  function SortBy<T>(o: Order<T>, s: seq<T>): seq<T> {
    if s == [] then [] else Insert(o, s[0], SortBy(o, s[1..]))
  }

  lemma {:induction false} InsertIn<T(!new)>(o: Order<T>, x: T, s: seq<T>)
    ensures forall y :: y in Insert(o, x, s) <==> y == x || y in s
  {
    if s != [] {
      InsertIn(o, x, s[1..]);
      assert s == [s[0]] + s[1..];
    }
  }

  lemma {:induction false} SortByIn<T(!new)>(o: Order<T>, s: seq<T>)
    ensures forall x :: x in SortBy(o, s) <==> x in s
  {
    if s != [] {
      SortByIn(o, s[1..]);
      InsertIn(o, s[0], SortBy(o, s[1..]));
      assert s == [s[0]] + s[1..];
    }
  }

  lemma {:induction false} InsertSorted<T(!new)>(o: Order<T>, x: T, s: seq<T>)
    requires Sorted(o, s)
    ensures Sorted(o, Insert(o, x, s))
  {
    if s == [] {
    } else if Leq(o, x, s[0]) {
      forall j | 0 <= j < |s| ensures Leq(o, x, s[j]) {
        if j > 0 { LeqTransitive(o, x, s[0], s[j]); }
      }
    } else {
      LeqTotal(o, x, s[0]);
      InsertSorted(o, x, s[1..]);
      var t := Insert(o, x, s[1..]);
      InsertIn(o, x, s[1..]);
      forall j | 0 <= j < |t| ensures Leq(o, s[0], t[j]) {
        assert t[j] in t;
        if t[j] != x {
          var k :| 0 <= k < |s[1..]| && s[1..][k] == t[j];
          assert s[k + 1] == t[j];
        }
      }
    }
  }

  lemma {:induction false} SortBySorted<T(!new)>(o: Order<T>, s: seq<T>)
    ensures Sorted(o, SortBy(o, s))
  {
    if s != [] {
      SortBySorted(o, s[1..]);
      InsertSorted(o, s[0], SortBy(o, s[1..]));
    }
  }

  lemma {:induction false} FilterInsert<T(!new)>(p: T -> bool, o: Order<T>, x: T, s: seq<T>)
    requires Sorted(o, s)
    ensures Filter(p, Insert(o, x, s))
         == if p(x) then Insert(o, x, Filter(p, s)) else Filter(p, s)
  {
    if s == [] {
    } else if Leq(o, x, s[0]) {
      FilterCons(p, x, s);
      if p(x) { FilterIn(p, s); InsertFront(o, x, Filter(p, s), s); }
    } else {
      FilterInsert(p, o, x, s[1..]);
      FilterCons(p, s[0], Insert(o, x, s[1..]));
      if p(s[0]) && p(x) { InsertCons(o, x, s[0], Filter(p, s[1..])); }
    }
  }

  lemma FilterCons<T(!new)>(p: T -> bool, x: T, s: seq<T>)
    ensures Filter(p, [x] + s) == if p(x) then [x] + Filter(p, s) else Filter(p, s)
  {
    assert ([x] + s)[1..] == s;
  }

  lemma InsertCons<T(!new)>(o: Order<T>, x: T, y: T, s: seq<T>)
    requires !Leq(o, x, y)
    ensures Insert(o, x, [y] + s) == [y] + Insert(o, x, s)
  {
    assert ([y] + s)[1..] == s;
  }

  lemma InsertFront<T(!new)>(o: Order<T>, x: T, f: seq<T>, s: seq<T>)
    requires Sorted(o, s) && s != [] && Leq(o, x, s[0])
    requires forall y :: y in f ==> y in s
    ensures Insert(o, x, f) == [x] + f
  {
    if f != [] {
      assert f[0] in s;
      var k :| 0 <= k < |s| && s[k] == f[0];
      if k > 0 { LeqTransitive(o, x, s[0], s[k]); }
    }
  }

  lemma SortCons<T(!new)>(o: Order<T>, x: T, s: seq<T>)
    ensures SortBy(o, [x] + s) == Insert(o, x, SortBy(o, s))
  {
    assert ([x] + s)[1..] == s;
  }

  /** Filtering commutes with a stable sort. */
  lemma {:induction false} FilterSort<T(!new)>(p: T -> bool, o: Order<T>, s: seq<T>)
    ensures Filter(p, SortBy(o, s)) == SortBy(o, Filter(p, s))
  {
    if s != [] {
      FilterSort(p, o, s[1..]);
      SortBySorted(o, s[1..]);
      FilterInsert(p, o, s[0], SortBy(o, s[1..]));
      if p(s[0]) { SortCons(o, s[0], Filter(p, s[1..])); }
    }
  }

  // ---------------------------------------------------------------- selection

  /** The selection part every generated query builder carries. */
  datatype Selection = Selection(
    fields: seq<string>,
    predicates: seq<Row -> bool>,
    order: Order<Row>,
    limit: Option<nat>,
    offset: nat)
  {
    predicate Unpaged() { limit.None? && offset == 0 }

    function Where(p: Row -> bool): Selection { this.(predicates := predicates + [p]) }
  }

  predicate Matches(ps: seq<Row -> bool>, r: Row) {
    forall k :: 0 <= k < |ps| ==> ps[k](r)
  }

  function Page<T>(limit: Option<nat>, offset: nat, s: seq<T>): seq<T> {
    var t := if offset <= |s| then s[offset..] else [];
    if limit.Some? && limit.value < |t| then t[..limit.value] else t
  }

  lemma PageIn<T(!new)>(limit: Option<nat>, offset: nat, s: seq<T>)
    ensures forall x :: x in Page(limit, offset, s) ==> x in s
    ensures limit.None? && offset == 0 ==> Page(limit, offset, s) == s
  {}

  /** The rows a query returns, before projection. */
  function RowsOf(table: seq<Row>, sel: Selection): seq<Row> {
    Page(sel.limit, sel.offset, SortBy(sel.order, Filter(MatchesAll(sel.predicates), table)))
  }

  lemma RowsOfIn(table: seq<Row>, sel: Selection)
    ensures forall x :: x in RowsOf(table, sel) ==> x in table && Matches(sel.predicates, x)
    ensures sel.Unpaged() ==>
              forall x :: x in table && Matches(sel.predicates, x) ==> x in RowsOf(table, sel)
  {
    FilterIn(MatchesAll(sel.predicates), table);
    SortByIn(sel.order, Filter(MatchesAll(sel.predicates), table));
    PageIn(sel.limit, sel.offset, SortBy(sel.order, Filter(MatchesAll(sel.predicates), table)));
  }

  /** `col IN (ids)`; NULL never matches. */
  function ColIn(col: string, ids: seq<int>): Row -> bool {
    (r: Row) => col in r && r[col].Int? && r[col].i in ids
  }

  lemma MatchesWhere(ps: seq<Row -> bool>, p: Row -> bool, r: Row)
    ensures Matches(ps + [p], r) <==> Matches(ps, r) && p(r)
  {
    if Matches(ps + [p], r) {
      assert forall k :: 0 <= k < |ps| ==> ps[k] == (ps + [p])[k];
      assert (ps + [p])[|ps|] == p;
    }
  }

  function MatchesAll(ps: seq<Row -> bool>): Row -> bool {
    (r: Row) => Matches(ps, r)
  }

  lemma RowsOfUnpaged(table: seq<Row>, sel: Selection)
    requires sel.Unpaged()
    ensures RowsOf(table, sel) == SortBy(sel.order, Filter(MatchesAll(sel.predicates), table))
  {
    var t := SortBy(sel.order, Filter(MatchesAll(sel.predicates), table));
    assert t[0..] == t;
  }

  /** One parent's share of an unpaged IN query is exactly that parent's own query. */
  lemma ScopeRows(table: seq<Row>, sel: Selection, col: string, ids: seq<int>, id: int)
    requires sel.Unpaged() && id in ids
    ensures Filter(ColIn(col, [id]), RowsOf(table, sel.Where(ColIn(col, ids))))
         == RowsOf(table, sel.Where(ColIn(col, [id])))
  {
    var all := MatchesAll(sel.Where(ColIn(col, ids)).predicates);
    var one := MatchesAll(sel.Where(ColIn(col, [id])).predicates);
    var own := ColIn(col, [id]);
    RowsOfUnpaged(table, sel.Where(ColIn(col, ids)));
    RowsOfUnpaged(table, sel.Where(own));
    FilterSort(own, sel.order, Filter(all, table));
    forall r | r in table ensures one(r) == (all(r) && own(r)) {
      MatchesWhere(sel.predicates, ColIn(col, ids), r);
      MatchesWhere(sel.predicates, own, r);
    }
    FilterFilter(own, all, one, table);
  }
}
