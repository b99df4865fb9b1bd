/** The loaders' loops: key maps filled row by row, then edges assigned in place.
    A pointer to a parent node is its position in the node list. */
module Loaders {
  import opened Rows
  import opened Eager
  import opened ManyToMany
  import opened Nodes

  // ---------------------------------------------------------------- key maps

  /** Position i is where the last parent with its id stands. */
  predicate IsLast(rows: seq<Row>, i: int) {
    0 <= i < |rows| && forall j :: i < j < |rows| ==> Id(rows[j]) != Id(rows[i])
  }

  ghost predicate IsIndex(rows: seq<Row>, byID: map<int, nat>) {
    && (forall i :: 0 <= i < |rows| ==> Id(rows[i]) in byID)
    && (forall id :: id in byID ==> IsLast(rows, byID[id]) && Id(rows[byID[id]]) == id)
  }

  /** `byID` and `nodeids` of the to-many loaders: a later parent with the same id wins. */
  method IndexById(rows: seq<Row>) returns (byID: map<int, nat>)
    ensures IsIndex(rows, byID)
  {
    byID := map[];
    for k := 0 to |rows|
      invariant forall i :: 0 <= i < k ==> Id(rows[i]) in byID
      invariant forall id :: id in byID ==> byID[id] < k && IsLast(rows[..k], byID[id]) && Id(rows[byID[id]]) == id
    {
      byID := byID[Id(rows[k]) := k];
    }
    assert rows[..|rows|] == rows;
  }

  lemma LastIsIndexed(rows: seq<Row>, byID: map<int, nat>, i: int, id: int)
    requires IsIndex(rows, byID) && 0 <= i < |rows| && id in byID
    ensures byID[id] == i <==> IsLast(rows, i) && Id(rows[i]) == id
  {}

  lemma IdIsIndexed(rows: seq<Row>, byID: map<int, nat>, id: int)
    requires IsIndex(rows, byID) && id in IdsOf(rows)
    ensures id in byID && byID[id] < |rows|
  {
    var w :| 0 <= w < |IdsOf(rows)| && IdsOf(rows)[w] == id;
    assert Id(rows[w]) == id;
  }

  ghost predicate GroupedBy(keys: seq<Option<int>>, nodeids: map<int, seq<nat>>, n: nat)
    requires n <= |keys|
  {
    && (forall fk, x :: fk in nodeids && 0 <= x < |nodeids[fk]| ==>
          nodeids[fk][x] < n && keys[nodeids[fk][x]] == Some(fk))
    && (forall i :: 0 <= i < n && keys[i].Some? ==> keys[i].value in nodeids && i in nodeids[keys[i].value])
  }

  function Grouped(nodeids: map<int, seq<nat>>, fk: int): seq<nat> {
    if fk in nodeids then nodeids[fk] else []
  }

  lemma GroupedByAdd(keys: seq<Option<int>>, nodeids: map<int, seq<nat>>, k: nat)
    requires k < |keys| && GroupedBy(keys, nodeids, k)
    ensures keys[k].None? ==> GroupedBy(keys, nodeids, k + 1)
    ensures keys[k].Some? ==>
              GroupedBy(keys, nodeids[keys[k].value := Grouped(nodeids, keys[k].value) + [k]], k + 1)
  {
    if keys[k].Some? {
      var fk := keys[k].value;
      var next := nodeids[fk := Grouped(nodeids, fk) + [k]];
      forall id, x | id in next && 0 <= x < |next[id]| ensures next[id][x] < k + 1 && keys[next[id][x]] == Some(id) {
        if id != fk {
          assert next[id] == nodeids[id];
        } else if x < |next[id]| - 1 {
          assert fk in nodeids && next[id][x] == nodeids[fk][x];
        }
      }
      forall i | 0 <= i < k + 1 && keys[i].Some? ensures keys[i].value in next && i in next[keys[i].value] {
        if i < k {
          assert i in nodeids[keys[i].value];
        } else {
          assert next[fk][|next[fk]| - 1] == k;
        }
      }
    }
  }

  ghost function NillableKeys(rows: seq<Row>, col: string): seq<Option<int>> {
    seq(|rows|, i requires 0 <= i < |rows| => NillableIntAt(rows[i], col))
  }

  ghost function DefiniteKeys(rows: seq<Row>, col: string): seq<Option<int>> {
    seq(|rows|, i requires 0 <= i < |rows| => Some(IntAt(rows[i], col)))
  }

  /** The distinct keys among the first k, in order of appearance. */
  ghost function Listed(keys: seq<Option<int>>, k: nat): seq<int>
    requires k <= |keys|
  {
    if k == 0 then []
    else
      var before := Listed(keys, k - 1);
      if keys[k - 1].None? || keys[k - 1].value in before then before else before + [keys[k - 1].value]
  }

  lemma {:induction false} ListedForeign(rows: seq<Row>, col: string, k: nat)
    requires k <= |rows|
    ensures |NillableKeys(rows, col)| == |rows| && Listed(NillableKeys(rows, col), k) == ForeignKeys(rows[..k], col)
  {
    hide NillableIntAt;
    if k > 0 {
      assert rows[..k][..k - 1] == rows[..k - 1];
      ListedForeign(rows, col, k - 1);
    }
  }

  lemma {:induction false} ListedPlain(rows: seq<Row>, col: string, k: nat)
    requires k <= |rows|
    ensures |DefiniteKeys(rows, col)| == |rows| && Listed(DefiniteKeys(rows, col), k) == PlainKeys(rows[..k], col)
  {
    hide IntAt;
    if k > 0 {
      assert rows[..k][..k - 1] == rows[..k - 1];
      ListedPlain(rows, col, k - 1);
    }
  }

  /** Where the collecting stands after k rows: the keys listed are the keys grouped. */
  ghost predicate Collected(keys: seq<Option<int>>, k: nat, ids: seq<int>, nodeids: map<int, seq<nat>>) {
    k <= |keys| && ids == Listed(keys, k) && GroupedBy(keys, nodeids, k) && SameKeys(ids, nodeids)
  }

  ghost predicate SameKeys(ids: seq<int>, nodeids: map<int, seq<nat>>) { forall fk :: fk in ids <==> fk in nodeids }

  lemma SameKeysStep(ids: seq<int>, nodeids: map<int, seq<nat>>, fk: int, list: seq<nat>)
    requires SameKeys(ids, nodeids)
    ensures fk in ids <==> fk in nodeids
    ensures SameKeys(if fk in ids then ids else ids + [fk], nodeids[fk := list])
  {}

  lemma ListedStep(keys: seq<Option<int>>, k: nat)
    requires k < |keys|
    ensures var before := Listed(keys, k);
            Listed(keys, k + 1)
            == if keys[k].None? || keys[k].value in before then before else before + [keys[k].value]
  {}

  lemma CollectStep(keys: seq<Option<int>>, k: nat, ids: seq<int>, nodeids: map<int, seq<nat>>)
    requires k < |keys| && Collected(keys, k, ids, nodeids)
    ensures keys[k].None? ==> Collected(keys, k + 1, ids, nodeids)
    ensures keys[k].Some? && keys[k].value !in nodeids ==>
              Collected(keys, k + 1, ids + [keys[k].value], nodeids[keys[k].value := [k]])
    ensures keys[k].Some? && keys[k].value in nodeids ==>
              Collected(keys, k + 1, ids, nodeids[keys[k].value := nodeids[keys[k].value] + [k]])
  {
    GroupedByAdd(keys, nodeids, k);
    ListedStep(keys, k);
    hide GroupedBy, Listed, SameKeys;
    if keys[k].Some? {
      SameKeysStep(ids, nodeids, keys[k].value, Grouped(nodeids, keys[k].value) + [k]);
      assert [] + [k] == [k];
    }
  }

  lemma CollectStart(keys: seq<Option<int>>)
    ensures Collected(keys, 0, [], map[])
  {}

  lemma CollectEnd(keys: seq<Option<int>>, ids: seq<int>, nodeids: map<int, seq<nat>>)
    requires Collected(keys, |keys|, ids, nodeids)
    ensures ids == Listed(keys, |keys|) && GroupedBy(keys, nodeids, |keys|) && forall fk :: fk in ids <==> fk in nodeids
  {}

  /** Proxy keys: the id list sent to the database and, per key, every parent holding it. */
  method CollectForeignKeys(rows: seq<Row>, col: string) returns (ids: seq<int>, nodeids: map<int, seq<nat>>)
    ensures ids == ForeignKeys(rows, col)
    ensures GroupedBy(NillableKeys(rows, col), nodeids, |rows|)
    ensures forall k :: k in ids <==> k in nodeids
  {
    ghost var keys := NillableKeys(rows, col);
    ids, nodeids := [], map[];
    CollectStart(keys);
    hide Collected, Listed, GroupedBy, ForeignKeys, NillableIntAt;
    for k := 0 to |rows|
      invariant Collected(keys, k, ids, nodeids)
    {
      CollectStep(keys, k, ids, nodeids);
      var key := NillableIntAt(rows[k], col);
      if key.Some? {
        var fk := key.value;
        if fk !in nodeids {
          ids := ids + [fk];
          nodeids := nodeids[fk := [k]];
        } else {
          nodeids := nodeids[fk := nodeids[fk] + [k]];
        }
      }
    }
    CollectEnd(keys, ids, nodeids);
    ListedForeign(rows, col, |rows|);
    assert rows[..|rows|] == rows;
  }

  /** Link keys are plain int64: every parent has one. */
  method CollectPlainKeys(rows: seq<Row>, col: string) returns (ids: seq<int>, nodeids: map<int, seq<nat>>)
    ensures ids == PlainKeys(rows, col)
    ensures GroupedBy(DefiniteKeys(rows, col), nodeids, |rows|)
    ensures forall k :: k in ids <==> k in nodeids
  {
    ghost var keys := DefiniteKeys(rows, col);
    ids, nodeids := [], map[];
    CollectStart(keys);
    hide Collected, Listed, GroupedBy, PlainKeys, IntAt;
    for k := 0 to |rows|
      invariant Collected(keys, k, ids, nodeids)
    {
      CollectStep(keys, k, ids, nodeids);
      var fk := IntAt(rows[k], col);
      if fk !in nodeids {
        ids := ids + [fk];
        nodeids := nodeids[fk := [k]];
      } else {
        nodeids := nodeids[fk := nodeids[fk] + [k]];
      }
    }
    CollectEnd(keys, ids, nodeids);
    ListedPlain(rows, col, |rows|);
    assert rows[..|rows|] == rows;
  }

  // ---------------------------------------------------------------- many-to-many

  /** Some scanned row among the first n links the parent at m to the group id. */
  ghost predicate Noted(stream: seq<Linked>, n: nat, byID: map<int, nat>, id: int, m: nat) {
    exists k :: 0 <= k < n && k < |stream| && Id(stream[k].row) == id && stream[k].out in byID
        && byID[stream[k].out] == m
  }

  ghost predicate Recorded(stream: seq<Linked>, n: nat, byID: map<int, nat>, nids: map<int, set<nat>>)
    requires n <= |stream|
  {
    && (forall id :: id in nids <==> exists k :: 0 <= k < n && Id(stream[k].row) == id)
    && (forall id, m: nat :: id in nids ==> (m in nids[id] <==> Noted(stream, n, byID, id, m)))
  }

  function NotedSoFar(nids: map<int, set<nat>>, id: int): set<nat> {
    if id in nids then nids[id] else {}
  }

  lemma NotedStep(stream: seq<Linked>, n: nat, byID: map<int, nat>, id: int, m: nat)
    requires n < |stream| && stream[n].out in byID
    ensures Noted(stream, n + 1, byID, id, m)
       <==> Noted(stream, n, byID, id, m) || (Id(stream[n].row) == id && byID[stream[n].out] == m)
  {
    if Id(stream[n].row) == id && byID[stream[n].out] == m { assert Noted(stream, n + 1, byID, id, m); }
  }

  lemma RecordedStep(stream: seq<Linked>, n: nat, byID: map<int, nat>, nids: map<int, set<nat>>)
    requires n < |stream| && stream[n].out in byID && Recorded(stream, n, byID, nids)
    ensures var id := Id(stream[n].row);
            Recorded(stream, n + 1, byID, nids[id := NotedSoFar(nids, id) + {byID[stream[n].out]}])
  {
    var head := Id(stream[n].row);
    var next := nids[head := NotedSoFar(nids, head) + {byID[stream[n].out]}];
    forall id, m: nat | id in next ensures m in next[id] <==> Noted(stream, n + 1, byID, id, m) {
      NotedStep(stream, n, byID, id, m);
      if id == head && id !in nids { assert !Noted(stream, n, byID, id, m); }
    }
    forall id ensures id in next <==> exists k :: 0 <= k < n + 1 && Id(stream[k].row) == id {
      if id in nids {
        var k :| 0 <= k < n && Id(stream[k].row) == id;
        assert k < n + 1;
      }
    }
  }

  /** The wrapped `Assign`: a group row is kept once, and every parent linked to it is noted. */
  method ScanGroups(stream: seq<Linked>, byID: map<int, nat>)
    returns (neighbors: seq<Row>, nids: map<int, set<nat>>)
    requires forall k :: 0 <= k < |stream| ==> stream[k].out in byID
    ensures neighbors == FirstSeen(stream, {})
    ensures Recorded(stream, |stream|, byID, nids)
  {
    neighbors, nids := [], map[];
    for n := 0 to |stream|
      invariant neighbors == FirstSeen(stream[..n], {})
      invariant Recorded(stream, n, byID, nids)
    {
      FirstSeenSnoc(stream, n, nids.Keys);
      RecordedStep(stream, n, byID, nids);
      var outValue, inValue := stream[n].out, Id(stream[n].row);
      if inValue !in nids {
        neighbors := neighbors + [stream[n].row];
        assert {} + {byID[outValue]} == {byID[outValue]};
        nids := nids[inValue := {byID[outValue]}];
      } else {
        nids := nids[inValue := nids[inValue] + {byID[outValue]}];
      }
    }
    assert stream[..|stream|] == stream;
  }

  ghost predicate HasId(s: seq<Linked>, id: int) {
    exists k :: 0 <= k < |s| && Id(s[k].row) == id
  }

  lemma HasIdTail(s: seq<Linked>, id: int)
    requires s != []
    ensures HasId(s, id) <==> Id(s[0].row) == id || HasId(s[1..], id)
  {
    if k :| 0 <= k < |s| && Id(s[k].row) == id && k > 0 { assert s[1..][k - 1] == s[k]; }
    if k :| 0 <= k < |s[1..]| && Id(s[1..][k].row) == id { assert s[k + 1] == s[1..][k]; }
  }

  lemma {:induction false} FirstSeenConcat(s: seq<Linked>, t: seq<Linked>, seen: set<int>, after: set<int>)
    requires forall id :: id in after <==> id in seen || HasId(s, id)
    ensures FirstSeen(s + t, seen) == FirstSeen(s, seen) + FirstSeen(t, after)
  {
    if s == [] {
      assert s + t == t;
      assert forall id :: id in after <==> id in seen;
      assert after == seen;
    } else {
      assert (s + t)[1..] == s[1..] + t;
      FirstSeenStep(s, seen);
      FirstSeenStep(s + t, seen);
      forall id { HasIdTail(s, id); }
      FirstSeenConcat(s[1..], t, SeenNext(s, seen), after);
    }
  }

  lemma FirstSeenSnoc(stream: seq<Linked>, n: nat, keys: set<int>)
    requires n < |stream|
    requires forall id :: id in keys <==> exists k :: 0 <= k < n && Id(stream[k].row) == id
    ensures FirstSeen(stream[..n + 1], {}) == FirstSeen(stream[..n], {})
                                              + if Id(stream[n].row) in keys then [] else [stream[n].row]
  {
    assert stream[..n + 1] == stream[..n] + [stream[n]];
    forall id ensures id in keys <==> HasId(stream[..n], id) {
      if k :| 0 <= k < n && Id(stream[k].row) == id { assert stream[..n][k] == stream[k]; }
    }
    FirstSeenConcat(stream[..n], [stream[n]], {}, keys);
    FirstSeenStep([stream[n]], keys);
  }

  function NotedFor(nids: map<int, set<nat>>, i: nat): Row -> bool {
    (g: Row) => Id(g) in nids && i in nids[Id(g)]
  }

  /** The inner loop: a Go map of parents is ranged over in any order. */
  method AddGroup(nodes: seq<AccountNode>, parents: set<nat>, n: Row)
    requires Distinct(nodes) && forall m :: m in parents ==> m < |nodes|
    modifies nodes`groups
    ensures forall i :: 0 <= i < |nodes| ==> nodes[i].groups == old(nodes[i].groups) + if i in parents then [n] else []
  {
    var todo := parents;
    while todo != {}
      invariant todo <= parents
      invariant forall i :: 0 <= i < |nodes| ==>
                  nodes[i].groups == old(nodes[i].groups) + if i in parents && i !in todo then [n] else []
      decreases todo
    {
      var kn :| kn in todo;
      nodes[kn].groups := nodes[kn].groups + [n];
      todo := todo - {kn};
    }
  }

  lemma NotedForSnoc(nids: map<int, set<nat>>, i: nat, s: seq<Row>, j: nat)
    requires j < |s| && Id(s[j]) in nids
    ensures Filter(NotedFor(nids, i), s[..j + 1])
            == Filter(NotedFor(nids, i), s[..j]) + if i in nids[Id(s[j])] then [s[j]] else []
  {
    FilterSnoc(NotedFor(nids, i), s, j);
  }

  /** The final double loop. */
  method AssignGroups(nodes: seq<AccountNode>, neighbors: seq<Row>, nids: map<int, set<nat>>)
    returns (err: Option<LoadError>)
    requires Distinct(nodes)
    requires forall id, m: nat :: id in nids && m in nids[id] ==> m < |nodes|
    modifies nodes`groups
    ensures err.None? <==> forall n :: n in neighbors ==> Id(n) in nids
    ensures err.None? ==> forall i :: 0 <= i < |nodes| ==>
              nodes[i].groups == old(nodes[i].groups) + Filter(NotedFor(nids, i), neighbors)
  {
    assert forall i :: Filter(NotedFor(nids, i), neighbors[..0]) == [];
    hide Filter, NotedFor, Id;
    for j := 0 to |neighbors|
      invariant forall n :: n in neighbors[..j] ==> Id(n) in nids
      invariant forall i :: 0 <= i < |nodes| ==>
                  nodes[i].groups == old(nodes[i].groups) + Filter(NotedFor(nids, i), neighbors[..j])
    {
      var n := neighbors[j];
      assert n in neighbors;
      if Id(n) !in nids { return Some(UnexpectedNode("groups", Id(n))); }
      assert neighbors[..j + 1] == neighbors[..j] + [n];
      AddGroup(nodes, nids[Id(n)], n);
      forall i | 0 <= i < |nodes| { NotedForSnoc(nids, i, neighbors, j); }
    }
    assert neighbors[..|neighbors|] == neighbors;
    err := None;
  }

  /** `loadGroups` after the query ran: for every stream whose parents are known, in whatever
      order the maps are walked, the unexpected-node error does not occur, and each parent that
      is the last with its id gets its groups; an earlier parent with the same id gets none. */
  method LoadGroups(nodes: seq<AccountNode>, stream: seq<Linked>) returns (err: Option<LoadError>)
    requires Distinct(nodes)
    requires forall k :: 0 <= k < |stream| ==> stream[k].out in IdsOf(NodeRows(nodes))
    modifies nodes`groups
    ensures err.None?
    ensures forall i :: 0 <= i < |nodes| ==> nodes[i].groups == GroupsAt(NodeRows(nodes), stream, i)
  {
    hide FirstSeen, Filter, GroupsFor, NotedFor, GroupsAt, IsIndex, Recorded, Id;
    var rows := NodeRows(nodes);
    for k := 0 to |nodes|
      invariant forall i :: 0 <= i < k ==> nodes[i].groups == []
    {
      nodes[k].groups := [];
    }
    var byID := IndexById(rows);
    forall k | 0 <= k < |stream| ensures stream[k].out in byID { IdIsIndexed(rows, byID, stream[k].out); }
    var neighbors, nids := ScanGroups(stream, byID);
    ScanIsKnown(rows, stream, byID, nids);
    err := AssignGroups(nodes, neighbors, nids);
    forall i | 0 <= i < |nodes|
      ensures nodes[i].groups == GroupsAt(rows, stream, i)
    {
      NotedMeansLinked(rows, stream, byID, nids, i);
      assert [] + GroupsAt(rows, stream, i) == GroupsAt(rows, stream, i);
    }
  }

  ghost function GroupsAt(rows: seq<Row>, stream: seq<Linked>, i: nat): seq<Row>
    requires i < |rows|
  {
    if IsLast(rows, i) then GroupsFor(stream, Id(rows[i])) else []
  }

  /** Every kept group was noted, for parents that exist: the error branch is dead. */
  lemma ScanIsKnown(rows: seq<Row>, stream: seq<Linked>, byID: map<int, nat>, nids: map<int, set<nat>>)
    requires IsIndex(rows, byID) && Recorded(stream, |stream|, byID, nids)
    ensures forall n :: n in FirstSeen(stream, {}) ==> Id(n) in nids
    ensures forall id, m: nat :: id in nids && m in nids[id] ==> m < |rows|
  {
    FirstSeenSound(stream, {});
    forall n | n in FirstSeen(stream, {}) ensures Id(n) in nids {
      var k :| 0 <= k < |stream| && stream[k].row == n;
      assert Id(stream[k].row) == Id(n);
    }
    forall id, m: nat | id in nids && m in nids[id] ensures m < |rows| {
      assert Noted(stream, |stream|, byID, id, m);
    }
  }

  lemma NotedMeansLinked(rows: seq<Row>, stream: seq<Linked>, byID: map<int, nat>, nids: map<int, set<nat>>, i: nat)
    requires i < |rows| && IsIndex(rows, byID)
    requires forall k :: 0 <= k < |stream| ==> stream[k].out in byID
    requires Recorded(stream, |stream|, byID, nids)
    ensures Filter(NotedFor(nids, i), FirstSeen(stream, {})) == GroupsAt(rows, stream, i)
  {
    var firsts := FirstSeen(stream, {});
    hide NotedFor, LinkedTo, IsLast, FirstSeen, Recorded, IsIndex, Filter;
    forall g: Row
      ensures NotedFor(nids, i)(g) <==> IsLast(rows, i) && LinkedTo(stream, Id(rows[i]))(g)
    {
      NotedIffLinked(rows, stream, byID, nids, i, g);
    }
    if IsLast(rows, i) {
      FilterEq(NotedFor(nids, i), LinkedTo(stream, Id(rows[i])), firsts);
    } else {
      FilterNone(NotedFor(nids, i), firsts);
    }
  }

  /** The parents noted for a group are those linked to it, by position and by id. */
  lemma NotedIffLinked(rows: seq<Row>, stream: seq<Linked>, byID: map<int, nat>, nids: map<int, set<nat>>, i: nat,
                       g: Row)
    requires i < |rows| && IsIndex(rows, byID)
    requires forall k :: 0 <= k < |stream| ==> stream[k].out in byID
    requires Recorded(stream, |stream|, byID, nids)
    ensures NotedFor(nids, i)(g) <==> IsLast(rows, i) && LinkedTo(stream, Id(rows[i]))(g)
  {
    if NotedFor(nids, i)(g) {
      var k :| 0 <= k < |stream| && Id(stream[k].row) == Id(g) && byID[stream[k].out] == i;
      LastIsIndexed(rows, byID, i, stream[k].out);
    }
    if IsLast(rows, i) && LinkedTo(stream, Id(rows[i]))(g) {
      var k :| 0 <= k < |stream| && stream[k].out == Id(rows[i]) && Id(stream[k].row) == Id(g);
      LastIsIndexed(rows, byID, i, stream[k].out);
    }
  }

  // ---------------------------------------------------------------- to-many children

  /** The parent at i gets its children when it is the last with its id, else nothing. */
  ghost function ChildrenAt<T>(rows: seq<Row>, key: T -> int, neighbors: seq<T>, i: nat): seq<T>
    requires i < |rows|
  {
    if IsLast(rows, i) then Filter(KeyIs(key, Id(rows[i])), neighbors) else []
  }

  lemma ChildStep<T(!new)>(rows: seq<Row>, nodeids: map<int, nat>, key: T -> int, neighbors: seq<T>, j: nat, i: nat)
    requires IsIndex(rows, nodeids) && i < |rows| && j < |neighbors| && key(neighbors[j]) in nodeids
    ensures ChildrenAt(rows, key, neighbors[..j + 1], i)
         == ChildrenAt(rows, key, neighbors[..j], i) + if nodeids[key(neighbors[j])] == i then [neighbors[j]] else []
  {
    FilterSnoc(KeyIs(key, Id(rows[i])), neighbors, j);
    LastIsIndexed(rows, nodeids, i, key(neighbors[j]));
  }

  method AssignUsageLogs(nodes: seq<AccountNode>, neighbors: seq<Row>) returns (err: Option<LoadError>)
    requires Distinct(nodes)
    requires forall n :: n in neighbors ==> IntAt(n, "account_id") in IdsOf(NodeRows(nodes))
    modifies nodes`usageLogs
    ensures err.None?
    ensures forall i :: 0 <= i < |nodes| ==>
            nodes[i].usageLogs == ChildrenAt(NodeRows(nodes), ColKey("account_id"), neighbors, i)
  {
    var rows := NodeRows(nodes);
    var nodeids := IndexById(rows);
    for k := 0 to |nodes|
      invariant forall i :: 0 <= i < k ==> nodes[i].usageLogs == []
    {
      nodes[k].usageLogs := [];
    }
    for j := 0 to |neighbors|
      invariant forall i :: 0 <= i < |nodes| ==>
                nodes[i].usageLogs == ChildrenAt(rows, ColKey("account_id"), neighbors[..j], i)
    {
      var n := neighbors[j];
      var fk := IntAt(n, "account_id");
      IdIsIndexed(rows, nodeids, fk);
      if fk !in nodeids { return Some(UnexpectedNode("account_id", fk)); }
      forall i | 0 <= i < |nodes| { ChildStep(rows, nodeids, ColKey("account_id"), neighbors, j, i); }
      var node := nodes[nodeids[fk]];
      node.usageLogs := node.usageLogs + [n];
    }
    assert neighbors[..|neighbors|] == neighbors;
    err := None;
  }

  method AssignAccountGroups(nodes: seq<AccountNode>, neighbors: seq<AccountGroupTree>) returns (err: Option<LoadError>)
    requires Distinct(nodes)
    requires forall n :: n in neighbors ==> OwnerOf(n) in IdsOf(NodeRows(nodes))
    modifies nodes`accountGroups
    ensures err.None?
    ensures forall i :: 0 <= i < |nodes| ==>
            nodes[i].accountGroups == ChildrenAt(NodeRows(nodes), OwnerOf, neighbors, i)
  {
    var rows := NodeRows(nodes);
    var nodeids := IndexById(rows);
    for k := 0 to |nodes|
      invariant forall i :: 0 <= i < k ==> nodes[i].accountGroups == []
    {
      nodes[k].accountGroups := [];
    }
    for j := 0 to |neighbors|
      invariant forall i :: 0 <= i < |nodes| ==> nodes[i].accountGroups == ChildrenAt(rows, OwnerOf, neighbors[..j], i)
    {
      var n := neighbors[j];
      var fk := OwnerOf(n);
      IdIsIndexed(rows, nodeids, fk);
      if fk !in nodeids { return Some(UnexpectedNode("account_id", fk)); }
      forall i | 0 <= i < |nodes| { ChildStep(rows, nodeids, OwnerOf, neighbors, j, i); }
      var node := nodes[nodeids[fk]];
      node.accountGroups := node.accountGroups + [n];
    }
    assert neighbors[..|neighbors|] == neighbors;
    err := None;
  }

  lemma FilterSnoc<T(!new)>(p: T -> bool, s: seq<T>, j: nat)
    requires j < |s|
    ensures Filter(p, s[..j + 1]) == Filter(p, s[..j]) + if p(s[j]) then [s[j]] else []
  {
    assert s[..j + 1] == s[..j] + [s[j]];
    FilterConcat(p, s[..j], [s[j]]);
    FilterCons(p, s[j], []);
    assert [s[j]] + [] == [s[j]];
  }

  // ---------------------------------------------------------------- to-one children

  /** What the to-one loops leave behind: the last neighbour with the parent's key. */
  ghost function LastWithKey<T>(key: T -> int, fk: Option<int>, neighbors: seq<T>): Option<T> {
    if fk.None? then None else LastOf(Filter(KeyIs(key, fk.value), neighbors))
  }

  lemma LastWithKeySnoc<T(!new)>(key: T -> int, fk: Option<int>, s: seq<T>, j: nat)
    requires j < |s|
    ensures LastWithKey(key, fk, s[..j + 1])
         == if fk == Some(key(s[j])) then Some(s[j]) else LastWithKey(key, fk, s[..j])
  {
    if fk.Some? { FilterSnoc(KeyIs(key, fk.value), s, j); }
  }

  lemma GroupedIs(keys: seq<Option<int>>, nodeids: map<int, seq<nat>>, fk: int)
    requires GroupedBy(keys, nodeids, |keys|) && fk in nodeids
    ensures forall i :: i in nodeids[fk] ==> i < |keys|
    ensures forall i: nat :: i < |keys| ==> (i in nodeids[fk] <==> keys[i] == Some(fk))
  {
    forall i | i in nodeids[fk] ensures i < |keys| && keys[i] == Some(fk) {
      var x :| 0 <= x < |nodeids[fk]| && nodeids[fk][x] == i;
    }
  }

  method GiveProxy(nodes: seq<AccountNode>, mine: seq<nat>, n: Row)
    requires Distinct(nodes) && forall m :: m in mine ==> m < |nodes|
    modifies nodes`proxy
    ensures forall i :: 0 <= i < |nodes| ==> nodes[i].proxy == if i in mine then Some(n) else old(nodes[i].proxy)
  {
    for x := 0 to |mine|
      invariant forall i :: 0 <= i < |nodes| ==>
                nodes[i].proxy == if i in mine[..x] then Some(n) else old(nodes[i].proxy)
    {
      assert mine[x] in mine && mine[..x + 1] == mine[..x] + [mine[x]];
      nodes[mine[x]].proxy := Some(n);
    }
    assert mine[..|mine|] == mine;
  }

  method AssignProxies(nodes: seq<AccountNode>, neighbors: seq<Row>, nodeids: map<int, seq<nat>>)
    returns (err: Option<LoadError>)
    requires Distinct(nodes) && GroupedBy(NillableKeys(NodeRows(nodes), "proxy_id"), nodeids, |nodes|)
    requires forall i :: 0 <= i < |nodes| ==> nodes[i].proxy == None
    modifies nodes`proxy
    ensures err.None? <==> forall n :: n in neighbors ==> Id(n) in nodeids
    ensures err.None? ==> forall i :: 0 <= i < |nodes| ==>
              nodes[i].proxy == LastWithKey(ColKey("id"), NillableIntAt(nodes[i].row, "proxy_id"), neighbors)
  {
    ghost var keys := NillableKeys(NodeRows(nodes), "proxy_id");
    assert forall i :: 0 <= i < |nodes| ==>
                         keys[i] == NillableIntAt(nodes[i].row, "proxy_id")
                             && LastWithKey(ColKey("id"), keys[i], neighbors[..0]) == None;
    hide LastWithKey, NillableKeys, NillableIntAt;
    for j := 0 to |neighbors|
      invariant forall n :: n in neighbors[..j] ==> Id(n) in nodeids
      invariant forall i :: 0 <= i < |nodes| ==> nodes[i].proxy == LastWithKey(ColKey("id"), keys[i], neighbors[..j])
    {
      var n := neighbors[j];
      assert n in neighbors;
      if Id(n) !in nodeids { return Some(UnexpectedNode("proxy_id", Id(n))); }
      assert neighbors[..j + 1] == neighbors[..j] + [n];
      GroupedIs(keys, nodeids, Id(n));
      GiveProxy(nodes, nodeids[Id(n)], n);
      forall i | 0 <= i < |nodes| { LastWithKeySnoc(ColKey("id"), keys[i], neighbors, j); }
    }
    assert neighbors[..|neighbors|] == neighbors;
    err := None;
  }

  method GiveOwner(nodes: seq<AccountGroupNode>, mine: seq<nat>, n: AccountTree)
    requires Distinct(nodes) && forall m :: m in mine ==> m < |nodes|
    modifies nodes`account
    ensures forall i :: 0 <= i < |nodes| ==> nodes[i].account == if i in mine then Some(n) else old(nodes[i].account)
  {
    for x := 0 to |mine|
      invariant forall i :: 0 <= i < |nodes| ==>
                nodes[i].account == if i in mine[..x] then Some(n) else old(nodes[i].account)
    {
      assert mine[x] in mine && mine[..x + 1] == mine[..x] + [mine[x]];
      nodes[mine[x]].account := Some(n);
    }
    assert mine[..|mine|] == mine;
  }

  method AssignOwners(nodes: seq<AccountGroupNode>, neighbors: seq<AccountTree>, nodeids: map<int, seq<nat>>)
    returns (err: Option<LoadError>)
    requires Distinct(nodes) && GroupedBy(DefiniteKeys(LinkNodeRows(nodes), "account_id"), nodeids, |nodes|)
    requires forall i :: 0 <= i < |nodes| ==> nodes[i].account == None
    modifies nodes`account
    ensures err.None? <==> forall n :: n in neighbors ==> AccountKey(n) in nodeids
    ensures err.None? ==> forall i :: 0 <= i < |nodes| ==>
              nodes[i].account == LastWithKey(AccountKey, Some(IntAt(nodes[i].row, "account_id")), neighbors)
  {
    ghost var keys := DefiniteKeys(LinkNodeRows(nodes), "account_id");
    assert forall i :: 0 <= i < |nodes| ==>
                         keys[i] == Some(IntAt(nodes[i].row, "account_id"))
                             && LastWithKey(AccountKey, keys[i], neighbors[..0]) == None;
    hide LastWithKey, DefiniteKeys, IntAt;
    for j := 0 to |neighbors|
      invariant forall n :: n in neighbors[..j] ==> AccountKey(n) in nodeids
      invariant forall i :: 0 <= i < |nodes| ==> nodes[i].account == LastWithKey(AccountKey, keys[i], neighbors[..j])
    {
      var n := neighbors[j];
      assert n in neighbors;
      if AccountKey(n) !in nodeids { return Some(UnexpectedNode("account_id", AccountKey(n))); }
      assert neighbors[..j + 1] == neighbors[..j] + [n];
      GroupedIs(keys, nodeids, AccountKey(n));
      GiveOwner(nodes, nodeids[AccountKey(n)], n);
      forall i | 0 <= i < |nodes| { LastWithKeySnoc(AccountKey, keys[i], neighbors, j); }
    }
    assert neighbors[..|neighbors|] == neighbors;
    err := None;
  }

  method GiveGroupRow(nodes: seq<AccountGroupNode>, mine: seq<nat>, n: Row)
    requires Distinct(nodes) && forall m :: m in mine ==> m < |nodes|
    modifies nodes`group
    ensures forall i :: 0 <= i < |nodes| ==> nodes[i].group == if i in mine then Some(n) else old(nodes[i].group)
  {
    for x := 0 to |mine|
      invariant forall i :: 0 <= i < |nodes| ==>
                nodes[i].group == if i in mine[..x] then Some(n) else old(nodes[i].group)
    {
      assert mine[x] in mine && mine[..x + 1] == mine[..x] + [mine[x]];
      nodes[mine[x]].group := Some(n);
    }
    assert mine[..|mine|] == mine;
  }

  method AssignGroupRows(nodes: seq<AccountGroupNode>, neighbors: seq<Row>, nodeids: map<int, seq<nat>>)
    returns (err: Option<LoadError>)
    requires Distinct(nodes) && GroupedBy(DefiniteKeys(LinkNodeRows(nodes), "group_id"), nodeids, |nodes|)
    requires forall i :: 0 <= i < |nodes| ==> nodes[i].group == None
    modifies nodes`group
    ensures err.None? <==> forall n :: n in neighbors ==> Id(n) in nodeids
    ensures err.None? ==> forall i :: 0 <= i < |nodes| ==>
              nodes[i].group == LastWithKey(ColKey("id"), Some(IntAt(nodes[i].row, "group_id")), neighbors)
  {
    ghost var keys := DefiniteKeys(LinkNodeRows(nodes), "group_id");
    assert forall i :: 0 <= i < |nodes| ==>
                         keys[i] == Some(IntAt(nodes[i].row, "group_id"))
                             && LastWithKey(ColKey("id"), keys[i], neighbors[..0]) == None;
    hide LastWithKey, DefiniteKeys, IntAt;
    for j := 0 to |neighbors|
      invariant forall n :: n in neighbors[..j] ==> Id(n) in nodeids
      invariant forall i :: 0 <= i < |nodes| ==> nodes[i].group == LastWithKey(ColKey("id"), keys[i], neighbors[..j])
    {
      var n := neighbors[j];
      assert n in neighbors;
      if Id(n) !in nodeids { return Some(UnexpectedNode("group_id", Id(n))); }
      assert neighbors[..j + 1] == neighbors[..j] + [n];
      GroupedIs(keys, nodeids, Id(n));
      GiveGroupRow(nodes, nodeids[Id(n)], n);
      forall i | 0 <= i < |nodes| { LastWithKeySnoc(ColKey("id"), keys[i], neighbors, j); }
    }
    assert neighbors[..|neighbors|] == neighbors;
    err := None;
  }
}
