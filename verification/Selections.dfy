/** What filter, stable order and page give, said in terms of positions in the table. */
module Selections {
  import opened Rows

  /** x comes before y: on the first key that tells them apart it is smaller. */
  ghost predicate Smaller<T(!new)>(o: Order<T>, x: T, y: T) {
    exists k :: 0 <= k < |o| && o[k](x) < o[k](y) && forall j :: 0 <= j < k ==> o[j](x) == o[j](y)
  }

  lemma {:induction false} LeqExact<T(!new)>(o: Order<T>, x: T, y: T)
    ensures Leq(o, x, y) <==> Smaller(o, x, y) || Tied(o, x, y)
  {
    if o != [] {
      LeqExact(o[1..], x, y);
      assert forall k :: 0 <= k < |o[1..]| ==> o[1..][k] == o[k + 1];
      if o[0](x) == o[0](y) {
        if Smaller(o[1..], x, y) {
          var k :| 0 <= k < |o[1..]| && o[1..][k](x) < o[1..][k](y)
                   && forall j :: 0 <= j < k ==> o[1..][j](x) == o[1..][j](y);
          assert o[k + 1](x) < o[k + 1](y);
          assert forall j :: 0 <= j < k + 1 ==> o[j](x) == o[j](y) by {
            assert forall j :: 0 < j < k + 1 ==> o[j] == o[1..][j - 1];
          }
          assert Smaller(o, x, y);
        }
        if Smaller(o, x, y) {
          var k :| 0 <= k < |o| && o[k](x) < o[k](y) && forall j :: 0 <= j < k ==> o[j](x) == o[j](y);
          assert o[1..][k - 1] == o[k];
          assert Smaller(o[1..], x, y);
        }
        if Tied(o[1..], x, y) {
          assert forall k :: 0 < k < |o| ==> o[k] == o[1..][k - 1];
          assert Tied(o, x, y);
        }
        if Tied(o, x, y) { assert Tied(o[1..], x, y); }
      } else if o[0](x) < o[0](y) {
        assert Smaller(o, x, y);
      } else {
        assert !Smaller(o, x, y) && !Tied(o, x, y);
      }
    }
  }

  /** Row i of the table goes before row j: by the order, and by position where it ties them. */
  ghost predicate Before<T(!new)>(o: Order<T>, s: seq<T>, i: nat, j: nat)
    requires i < |s| && j < |s|
  {
    Smaller(o, s[i], s[j]) || (Tied(o, s[i], s[j]) && i < j)
  }

  /** The elements of s at these places, each place once, in that order. */
  ghost predicate Arranged<T(!new)>(o: Order<T>, s: seq<T>, at: seq<nat>, t: seq<T>) {
    && |at| == |t|
    && (forall k :: 0 <= k < |at| ==> at[k] < |s| && t[k] == s[at[k]])
    && (forall k, l :: 0 <= k < l < |at| ==> at[k] < |s| && at[l] < |s| && Before(o, s, at[k], at[l]))
  }

  /** A place is taken exactly when its element is selected. */
  ghost predicate Covers<T(!new)>(p: T -> bool, s: seq<T>, at: seq<nat>) {
    forall i :: 0 <= i < |s| ==> (i in at <==> p(s[i]))
  }

  function Shifted(at: seq<nat>): (r: seq<nat>)
    ensures |r| == |at| && forall k :: 0 <= k < |at| ==> r[k] == at[k] + 1
  {
    seq(|at|, k requires 0 <= k < |at| => at[k] + 1)
  }

  // ---------------------------------------------------------------- stable sorting of what is selected

  lemma {:induction false} InsertPlace<T(!new)>(o: Order<T>, x: T, t: seq<T>) returns (m: nat)
    requires Sorted(o, t)
    ensures m <= |t| && Insert(o, x, t) == t[..m] + [x] + t[m..]
    ensures forall k :: 0 <= k < m ==> !Leq(o, x, t[k])
    ensures forall k :: m <= k < |t| ==> Leq(o, x, t[k])
  {
    if t == [] {
      m := 0;
    } else if Leq(o, x, t[0]) {
      m := 0;
      forall k | 0 <= k < |t| ensures Leq(o, x, t[k]) {
        if k > 0 { LeqTransitive(o, x, t[0], t[k]); }
      }
    } else {
      var n := InsertPlace(o, x, t[1..]);
      m := n + 1;
      assert [t[0]] + (t[1..][..n] + [x] + t[1..][n..]) == t[..m] + [x] + t[m..];
      assert forall k :: 0 < k < |t| ==> t[k] == t[1..][k - 1];
    }
  }

  lemma BeforeShifts<T(!new)>(o: Order<T>, s: seq<T>, i: nat, j: nat)
    requires s != [] && i + 1 < |s| && j + 1 < |s|
    ensures Before(o, s, i + 1, j + 1) <==> Before(o, s[1..], i, j)
  {
    hide Smaller, Tied;
  }

  lemma ArrangedShifts<T(!new)>(o: Order<T>, s: seq<T>, at: seq<nat>, t: seq<T>)
    requires s != [] && Arranged(o, s[1..], at, t)
    ensures Arranged(o, s, Shifted(at), t)
  {
    hide Before;
    forall k, l | 0 <= k < l < |at| ensures Before(o, s, Shifted(at)[k], Shifted(at)[l]) {
      BeforeShifts(o, s, at[k], at[l]);
    }
  }

  /** Row 0 comes in front of the later rows it does not exceed, and behind the smaller ones. */
  lemma FirstRow<T(!new)>(o: Order<T>, s: seq<T>, i: nat)
    requires 0 < i < |s|
    ensures Leq(o, s[0], s[i]) ==> Before(o, s, 0, i)
    ensures !Leq(o, s[0], s[i]) ==> Before(o, s, i, 0)
  {
    LeqExact(o, s[0], s[i]);
    LeqExact(o, s[i], s[0]);
    LeqTotal(o, s[0], s[i]);
    hide Smaller, Leq;
    assert Tied(o, s[0], s[i]) <==> Tied(o, s[i], s[0]);
  }

  lemma ArrangedInsert<T(!new)>(o: Order<T>, s: seq<T>, at: seq<nat>, t: seq<T>, m: nat)
    requires s != [] && Arranged(o, s[1..], at, t) && m <= |t|
    requires forall k :: 0 <= k < m ==> !Leq(o, s[0], t[k])
    requires forall k :: m <= k < |t| ==> Leq(o, s[0], t[k])
    ensures Arranged(o, s, Shifted(at)[..m] + [0] + Shifted(at)[m..], t[..m] + [s[0]] + t[m..])
  {
    hide Before, Leq;
    var later := Shifted(at);
    var all := later[..m] + [0] + later[m..];
    ArrangedShifts(o, s, at, t);
    forall k, l | 0 <= k < l < |all| ensures all[k] < |s| && all[l] < |s| && Before(o, s, all[k], all[l]) {
      if k == m { FirstRow(o, s, later[l - 1]); } else if l == m { FirstRow(o, s, later[k]); }
    }
  }

  /** Filtering and sorting lists the selected rows once each, by the order and, where it ties them, by position. */
  lemma {:induction false} SortedPlaces<T(!new)>(p: T -> bool, o: Order<T>, s: seq<T>) returns (at: seq<nat>)
    ensures Arranged(o, s, at, SortBy(o, Filter(p, s))) && Covers(p, s, at)
  {
    hide Before, Leq;
    at := [];
    if s != [] {
      var before := SortedPlaces(p, o, s[1..]);
      var t := SortBy(o, Filter(p, s[1..]));
      SortBySorted(o, Filter(p, s[1..]));
      at := Shifted(before);
      if p(s[0]) {
        var m := InsertPlace(o, s[0], t);
        ArrangedInsert(o, s, before, t, m);
        SortCons(o, s[0], Filter(p, s[1..]));
        at := at[..m] + [0] + at[m..];
        CoversMore(p, s, before, at, m);
      } else {
        ArrangedShifts(o, s, before, t);
        CoversMore(p, s, before, at, 0);
      }
    }
  }

  lemma CoversMore<T(!new)>(p: T -> bool, s: seq<T>, before: seq<nat>, at: seq<nat>, m: nat)
    requires s != [] && m <= |before| && Covers(p, s[1..], before)
    requires at == if p(s[0]) then Shifted(before)[..m] + [0] + Shifted(before)[m..] else Shifted(before)
    ensures Covers(p, s, at)
  {
    var later := Shifted(before);
    assert forall i :: i in at <==> i in later || (i == 0 && p(s[0])) by {
      assert later[..m] + later[m..] == later;
    }
    forall i | 0 < i < |s| ensures i in later <==> i - 1 in before {
      if i - 1 in before {
        var k :| 0 <= k < |before| && before[k] == i - 1;
        assert later[k] == i;
      }
    }
  }

  /** The rows of a query: those that match, once each, by the order and then by position, cut to the page. */
  lemma RowsOfExact(table: seq<Row>, sel: Selection) returns (at: seq<nat>, all: seq<Row>)
    ensures Arranged(sel.order, table, at, all)
    ensures forall i :: 0 <= i < |table| ==>
              (i in at <==> forall k :: 0 <= k < |sel.predicates| ==> sel.predicates[k](table[i]))
    ensures var from := if sel.offset < |all| then sel.offset else |all|;
            var upto := if sel.limit.Some? && from + sel.limit.value < |all| then from + sel.limit.value else |all|;
            RowsOf(table, sel) == all[from..upto]
  {
    at := SortedPlaces(MatchesAll(sel.predicates), sel.order, table);
    all := SortBy(sel.order, Filter(MatchesAll(sel.predicates), table));
    hide Arranged, Before, SortBy, Filter;
  }
}
