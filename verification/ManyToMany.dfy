/** The de-duplicating many-to-many load: what it gives each parent, for every stream,
    and exactly when that is what the parent's own query would give. */
module ManyToMany {
  import opened Rows
  import opened Eager

  // ---------------------------------------------------------------- first appearances

  ghost predicate HasRow(stream: seq<Linked>, g: Row) {
    exists k :: 0 <= k < |stream| && stream[k].row == g
  }

  lemma HasRowTail(stream: seq<Linked>, g: Row)
    requires stream != []
    ensures HasRow(stream, g) <==> stream[0].row == g || HasRow(stream[1..], g)
  {
    if k :| 0 <= k < |stream| && stream[k].row == g && k > 0 { assert stream[1..][k - 1].row == g; }
    if k :| 0 <= k < |stream[1..]| && stream[1..][k].row == g { assert stream[k + 1].row == g; }
  }

  function SeenNext(stream: seq<Linked>, seen: set<int>): set<int>
    requires stream != []
  {
    seen + {Id(stream[0].row)}
  }

  lemma FirstSeenStep(stream: seq<Linked>, seen: set<int>)
    requires stream != []
    ensures FirstSeen(stream, seen)
         == (if Id(stream[0].row) in seen then [] else [stream[0].row]) + FirstSeen(stream[1..], SeenNext(stream, seen))
  {
    if Id(stream[0].row) in seen { assert SeenNext(stream, seen) == seen; }
  }

  /** Only rows of the stream are listed, and none whose id was seen before. */
  lemma {:induction false} FirstSeenSound(stream: seq<Linked>, seen: set<int>)
    ensures forall g :: g in FirstSeen(stream, seen) ==> Id(g) !in seen && HasRow(stream, g)
  {
    if stream != [] {
      FirstSeenStep(stream, seen);
      FirstSeenSound(stream[1..], SeenNext(stream, seen));
      forall g | g in FirstSeen(stream, seen) ensures Id(g) !in seen && HasRow(stream, g) {
        HasRowTail(stream, g);
      }
    }
  }

  lemma {:induction false} FirstSeenDistinct(stream: seq<Linked>, seen: set<int>)
    ensures DistinctIds(FirstSeen(stream, seen))
  {
    if stream != [] {
      FirstSeenStep(stream, seen);
      var rest := FirstSeen(stream[1..], SeenNext(stream, seen));
      FirstSeenDistinct(stream[1..], SeenNext(stream, seen));
      FirstSeenSound(stream[1..], SeenNext(stream, seen));
      forall j | 0 <= j < |rest| ensures Id(rest[j]) != Id(stream[0].row) { assert rest[j] in rest; }
    }
  }

  /** Every id of the stream not seen before is listed. */
  lemma {:induction false} FirstSeenComplete(stream: seq<Linked>, seen: set<int>, k: nat) returns (g: Row)
    requires k < |stream| && Id(stream[k].row) !in seen
    ensures g in FirstSeen(stream, seen) && Id(g) == Id(stream[k].row)
  {
    FirstSeenStep(stream, seen);
    if Id(stream[k].row) == Id(stream[0].row) {
      g := stream[0].row;
    } else {
      g := FirstSeenComplete(stream[1..], SeenNext(stream, seen), k - 1);
    }
  }

  ghost predicate StreamSorted(o: Order<Row>, stream: seq<Linked>) {
    forall i, j :: 0 <= i < j < |stream| ==> Leq(o, stream[i].row, stream[j].row)
  }

  lemma {:induction false} FirstSeenSorted(o: Order<Row>, stream: seq<Linked>, seen: set<int>)
    requires StreamSorted(o, stream)
    ensures Sorted(o, FirstSeen(stream, seen))
  {
    if stream != [] {
      FirstSeenStep(stream, seen);
      var rest := FirstSeen(stream[1..], SeenNext(stream, seen));
      FirstSeenSorted(o, stream[1..], SeenNext(stream, seen));
      FirstSeenSound(stream[1..], SeenNext(stream, seen));
      forall j | 0 <= j < |rest| ensures Leq(o, stream[0].row, rest[j]) {
        assert rest[j] in rest;
        var k :| 0 <= k < |stream[1..]| && stream[1..][k].row == rest[j];
        assert stream[k + 1].row == rest[j];
      }
    }
  }

  lemma {:induction false} FilterKeeps(p: Row -> bool, o: Order<Row>, s: seq<Row>)
    ensures DistinctIds(s) ==> DistinctIds(Filter(p, s))
    ensures Sorted(o, s) ==> Sorted(o, Filter(p, s))
  {
    if s != [] {
      FilterKeeps(p, o, s[1..]);
      FilterIn(p, s[1..]);
      var f := Filter(p, s[1..]);
      if p(s[0]) {
        forall j | 0 <= j < |f|
          ensures DistinctIds(s) ==> Id(s[0]) != Id(f[j])
          ensures Sorted(o, s) ==> Leq(o, s[0], f[j])
        {
          assert f[j] in f;
          var k :| 0 <= k < |s[1..]| && s[1..][k] == f[j];
          assert s[k + 1] == f[j];
        }
      }
    }
  }

  /** For every stream the load gives a parent exactly its linked groups, without repeats. */
  lemma GroupsForContents(stream: seq<Linked>, out: int)
    ensures DistinctIds(GroupsFor(stream, out))
    ensures forall g :: g in GroupsFor(stream, out) ==> HasRow(stream, g) && IsLinked(stream, out, Id(g))
    ensures forall id :: IsLinked(stream, out, id) ==> exists g :: g in GroupsFor(stream, out) && Id(g) == id
  {
    var firsts := FirstSeen(stream, {});
    FirstSeenSound(stream, {});
    FirstSeenDistinct(stream, {});
    FilterIn(LinkedTo(stream, out), firsts);
    FilterKeeps(LinkedTo(stream, out), [], firsts);
    forall id | IsLinked(stream, out, id)
      ensures exists g :: g in GroupsFor(stream, out) && Id(g) == id
    {
      var k :| 0 <= k < |stream| && stream[k].out == out && Id(stream[k].row) == id;
      var g := FirstSeenComplete(stream, {}, k);
      assert g in GroupsFor(stream, out);
    }
  }

  /** Where a group id first appears in the stream. */
  function FirstAt(stream: seq<Linked>, id: int): nat {
    if stream == [] || Id(stream[0].row) == id then 0 else 1 + FirstAt(stream[1..], id)
  }

  ghost predicate InAppearance(stream: seq<Linked>, s: seq<Row>) {
    && (forall g :: g in s ==> FirstAt(stream, Id(g)) < |stream| && stream[FirstAt(stream, Id(g))].row == g)
    && (forall i, j :: 0 <= i < j < |s| ==> FirstAt(stream, Id(s[i])) < FirstAt(stream, Id(s[j])))
  }

  lemma {:induction false} FirstSeenAppearance(stream: seq<Linked>, seen: set<int>)
    ensures InAppearance(stream, FirstSeen(stream, seen))
  {
    hide DistinctIds, Id;
    if stream != [] {
      var rest, tail := stream[1..], FirstSeen(stream[1..], SeenNext(stream, seen));
      FirstSeenStep(stream, seen);
      FirstSeenAppearance(rest, SeenNext(stream, seen));
      FirstSeenSound(rest, SeenNext(stream, seen));
      forall g | g in tail
        ensures FirstAt(stream, Id(g)) == 1 + FirstAt(rest, Id(g)) && stream[FirstAt(stream, Id(g))].row == g
      {
        assert Id(g) !in SeenNext(stream, seen);
      }
      assert forall j :: 0 <= j < |tail| ==> tail[j] in tail;
    }
  }

  lemma {:induction false} FilterAppearance(p: Row -> bool, stream: seq<Linked>, s: seq<Row>)
    requires InAppearance(stream, s)
    ensures InAppearance(stream, Filter(p, s))
  {
    hide FirstAt, Id;
    if s != [] {
      assert forall j :: 0 <= j < |s[1..]| ==> s[1..][j] == s[j + 1];
      FilterAppearance(p, stream, s[1..]);
      FilterIn(p, s[1..]);
      var f := Filter(p, s[1..]);
      forall j | 0 <= j < |f| && p(s[0]) ensures FirstAt(stream, Id(s[0])) < FirstAt(stream, Id(f[j])) {
        assert f[j] in f;
        var k :| 0 <= k < |s[1..]| && s[1..][k] == f[j];
        assert s[k + 1] == f[j];
      }
    }
  }

  /** A parent's groups come in the order in which each first appears in the stream, whichever parent it
      appears for, and each is the row of that first appearance. */
  lemma GroupsInAppearance(stream: seq<Linked>, out: int)
    ensures InAppearance(stream, GroupsFor(stream, out))
  {
    FirstSeenAppearance(stream, {});
    FilterAppearance(LinkedTo(stream, out), stream, FirstSeen(stream, {}));
  }

  /** De-duplication is global over all parents, and still every parent's list is sorted. */
  lemma GroupsForSorted(o: Order<Row>, stream: seq<Linked>, out: int)
    requires StreamSorted(o, stream)
    ensures Sorted(o, GroupsFor(stream, out))
  {
    FirstSeenSorted(o, stream, {});
    FilterKeeps(LinkedTo(stream, out), o, FirstSeen(stream, {}));
  }

  // ---------------------------------------------------------------- the join

  lemma {:induction false} LinkedOrderLeq(o: Order<Row>, a: Linked, b: Linked)
    ensures Leq(LinkedOrder(o), a, b) == Leq(o, a.row, b.row)
  {
    if o != [] {
      LinkedOrderLeq(o[1..], a, b);
      assert LinkedOrder(o)[1..] == LinkedOrder(o[1..]);
    }
  }

  lemma {:induction false} PairsOfIn(link: Row, groups: seq<Row>)
    ensures forall l :: l in PairsOf(link, groups) <==>
              l.row in groups && l.out == IntAt(link, "account_id") && Joined(link, l.row)
  {
    if groups != [] {
      PairsOfIn(link, groups[1..]);
      assert groups == [groups[0]] + groups[1..];
    }
  }

  /** ON groups.id = account_groups.group_id; NULL keys join nothing. */
  predicate Joined(link: Row, g: Row) {
    && NillableIntAt(link, "account_id").Some? && NillableIntAt(g, "id").Some?
    && NillableIntAt(link, "group_id") == NillableIntAt(g, "id")
  }

  lemma {:induction false} LinkPairsIn(links: seq<Row>, groups: seq<Row>)
    ensures forall l :: l in LinkPairs(links, groups) <==>
              l.row in groups
              && exists k :: 0 <= k < |links| && l.out == IntAt(links[k], "account_id") && Joined(links[k], l.row)
  {
    if links != [] {
      LinkPairsIn(links[1..], groups);
      PairsOfIn(links[0], groups);
      forall l: Linked
        ensures l in LinkPairs(links, groups) <==>
                l.row in groups
                && exists k :: 0 <= k < |links| && l.out == IntAt(links[k], "account_id") && Joined(links[k], l.row)
      {
        if k :| 0 <= k < |links| && l.out == IntAt(links[k], "account_id") && Joined(links[k], l.row) {
          if k > 0 { assert links[k] == links[1..][k - 1]; }
        }
        if l in LinkPairs(links[1..], groups) {
          var k :| 0 <= k < |links[1..]| && l.out == IntAt(links[1..][k], "account_id") && Joined(links[1..][k], l.row);
          assert links[k + 1] == links[1..][k];
        }
      }
    }
  }

  lemma JoinRowsUnpaged(db: Database, sel: Selection, ids: seq<int>)
    requires sel.Unpaged()
    ensures JoinRows(db, sel, ids)
            == SortBy(LinkedOrder(sel.order), Filter(Joins(sel, ids), LinkPairs(db.links, db.groups)))
  {
    var t := SortBy(LinkedOrder(sel.order), Filter(Joins(sel, ids), LinkPairs(db.links, db.groups)));
    assert t[0..] == t;
  }

  /** What the stream holds, and its order. */
  lemma JoinRowsContents(db: Database, sel: Selection, ids: seq<int>)
    requires sel.Unpaged()
    ensures forall l :: l in JoinRows(db, sel, ids) <==>
              l in LinkPairs(db.links, db.groups) && l.out in ids && Matches(sel.predicates, l.row)
    ensures forall l :: l in JoinRows(db, sel, ids) ==> l.row in db.groups
    ensures StreamSorted(sel.order, JoinRows(db, sel, ids))
  {
    JoinRowsUnpaged(db, sel, ids);
    var f := Filter(Joins(sel, ids), LinkPairs(db.links, db.groups));
    FilterIn(Joins(sel, ids), LinkPairs(db.links, db.groups));
    SortByIn(LinkedOrder(sel.order), f);
    SortBySorted(LinkedOrder(sel.order), f);
    LinkPairsIn(db.links, db.groups);
    var s := JoinRows(db, sel, ids);
    forall i, j | 0 <= i < j < |s| ensures Leq(sel.order, s[i].row, s[j].row) {
      LinkedOrderLeq(sel.order, s[i], s[j]);
    }
  }

  // ---------------------------------------------------------------- batched or alone

  /** The query's order tells any two selected groups apart. */
  ghost predicate Separates(groups: seq<Row>, sel: Selection) {
    forall g, h :: Selected(groups, sel, g) && Selected(groups, sel, h) && Tied(sel.order, g, h) ==> g == h
  }

  predicate Selected(groups: seq<Row>, sel: Selection, g: Row) {
    g in groups && Matches(sel.predicates, g)
  }

  lemma SomeElement(s: seq<Row>)
    requires s != []
    ensures exists g :: g in s
  {
    assert s[0] in s;
  }

  lemma {:induction false} SortedListsAgree(o: Order<Row>, a: seq<Row>, b: seq<Row>)
    requires Sorted(o, a) && Sorted(o, b) && DistinctIds(a) && DistinctIds(b)
    requires forall g :: g in a <==> g in b
    requires forall g, h :: g in a && h in a && Tied(o, g, h) ==> g == h
    ensures a == b
  {
    if a == [] {
      if b != [] { SomeElement(b); }
    } else {
      assert a[0] in a && a[0] in b;
      assert b[0] in b && b[0] in a;
      var i :| 0 <= i < |b| && b[i] == a[0];
      var j :| 0 <= j < |a| && a[j] == b[0];
      HeadsAgree(o, a, b, i, j);
      forall g ensures g in a[1..] <==> g in b[1..] {
        TailIn(a, g);
        TailIn(b, g);
      }
      forall g, h | g in a[1..] && h in a[1..] && Tied(o, g, h) ensures g == h {
        assert g in a && h in a;
      }
      SortedListsAgree(o, a[1..], b[1..]);
      assert a == [a[0]] + a[1..] && b == [b[0]] + b[1..];
    }
  }

  lemma HeadsAgree(o: Order<Row>, a: seq<Row>, b: seq<Row>, i: nat, j: nat)
    requires Sorted(o, a) && Sorted(o, b) && i < |b| && j < |a| && a[0] == b[i] && b[0] == a[j]
    requires forall g, h :: g in a && h in a && Tied(o, g, h) ==> g == h
    ensures a[0] == b[0]
  {
    if i > 0 && j > 0 {
      LeqBothIsTied(o, a[0], b[0]);
      assert a[0] in a && a[j] in a;
    }
  }

  lemma TailIn(s: seq<Row>, g: Row)
    requires s != [] && DistinctIds(s)
    ensures g in s[1..] <==> g in s && g != s[0]
  {
    if g in s && g != s[0] {
      var k :| 0 <= k < |s| && s[k] == g;
      assert s[1..][k - 1] == g;
    }
    if g in s[1..] {
      var k :| 0 <= k < |s[1..]| && s[1..][k] == g;
      assert s[k + 1] == g;
    }
  }

  /** A group is in the parent's list exactly when the parent is linked to it and it is selected. */
  lemma GroupsForMember(db: Database, sel: Selection, ids: seq<int>, out: int, g: Row)
    requires sel.Unpaged() && DistinctIds(db.groups) && out in ids
    ensures g in GroupsFor(JoinRows(db, sel, ids), out)
       <==> Linked(out, g) in LinkPairs(db.links, db.groups) && Selected(db.groups, sel, g)
  {
    var s := JoinRows(db, sel, ids);
    JoinRowsContents(db, sel, ids);
    GroupsForContents(s, out);
    LinkPairsIn(db.links, db.groups);
    if g in GroupsFor(s, out) {
      var k :| 0 <= k < |s| && s[k].row == g;
      assert s[k] in s;
      var m :| 0 <= m < |s| && s[m].out == out && Id(s[m].row) == Id(g);
      assert s[m] in s;
      SameGroup(db.groups, s[m].row, g);
      assert s[m] == Linked(out, g);
    } else if Linked(out, g) in LinkPairs(db.links, db.groups) && Selected(db.groups, sel, g) {
      assert Linked(out, g) in s;
      assert IsLinked(s, out, Id(g));
      var h :| h in GroupsFor(s, out) && Id(h) == Id(g);
      var m :| 0 <= m < |s| && s[m].row == h;
      assert s[m] in s;
      SameGroup(db.groups, g, h);
      assert false;
    }
  }

  lemma SameGroup(groups: seq<Row>, g: Row, h: Row)
    requires DistinctIds(groups) && g in groups && h in groups && Id(g) == Id(h)
    ensures g == h
  {}

  /** With an order that separates the groups, batching does not change any parent's list. */
  lemma BatchedGroupsAgree(db: Database, sel: Selection, ids: seq<int>, out: int)
    requires sel.Unpaged() && DistinctIds(db.groups) && out in ids && Separates(db.groups, sel)
    ensures GroupsFor(JoinRows(db, sel, ids), out) == GroupsFor(JoinRows(db, sel, [out]), out)
  {
    var a, b := GroupsFor(JoinRows(db, sel, ids), out), GroupsFor(JoinRows(db, sel, [out]), out);
    forall g ensures g in a <==> g in b {
      GroupsForMember(db, sel, ids, out, g);
      GroupsForMember(db, sel, [out], out, g);
    }
    forall g, h | g in a && h in a && Tied(sel.order, g, h) ensures g == h {
      GroupsForMember(db, sel, ids, out, g);
      GroupsForMember(db, sel, ids, out, h);
    }
    JoinRowsContents(db, sel, ids);
    JoinRowsContents(db, sel, [out]);
    GroupsForContents(JoinRows(db, sel, ids), out);
    GroupsForContents(JoinRows(db, sel, [out]), out);
    GroupsForSorted(sel.order, JoinRows(db, sel, ids), out);
    GroupsForSorted(sel.order, JoinRows(db, sel, [out]), out);
    SortedListsAgree(sel.order, a, b);
  }

  // ---------------------------------------------------------------- projection

  lemma ProjectKeepsId(cols: seq<string>, r: Row)
    requires "id" in cols
    ensures Id(Project(cols, r)) == Id(r)
  {}

  lemma {:induction false} FirstSeenProjected(cols: seq<string>, stream: seq<Linked>, seen: set<int>)
    requires "id" in cols
    ensures FirstSeen(MapSeq(LinkedProjector(cols), stream), seen) == MapSeq(Projector(cols), FirstSeen(stream, seen))
  {
    if stream != [] {
      var p := MapSeq(LinkedProjector(cols), stream);
      ProjectKeepsId(cols, stream[0].row);
      assert p[1..] == MapSeq(LinkedProjector(cols), stream[1..]);
      FirstSeenProjected(cols, stream[1..], seen);
      FirstSeenProjected(cols, stream[1..], seen + {Id(stream[0].row)});
    }
  }

  lemma IsLinkedProjected(cols: seq<string>, stream: seq<Linked>, out: int, id: int)
    requires "id" in cols
    ensures IsLinked(MapSeq(LinkedProjector(cols), stream), out, id) <==> IsLinked(stream, out, id)
  {
    var p := MapSeq(LinkedProjector(cols), stream);
    forall k | 0 <= k < |stream| ensures p[k].out == stream[k].out && Id(p[k].row) == Id(stream[k].row) {
      ProjectKeepsId(cols, stream[k].row);
    }
    if k :| 0 <= k < |stream| && stream[k].out == out && Id(stream[k].row) == id {
      assert p[k].out == out && Id(p[k].row) == id;
    }
  }

  lemma {:induction false} FilterProjected(cols: seq<string>, p: Row -> bool, q: Row -> bool, s: seq<Row>)
    requires forall r :: r in s ==> q(Project(cols, r)) == p(r)
    ensures Filter(q, MapSeq(Projector(cols), s)) == MapSeq(Projector(cols), Filter(p, s))
  {
    if s != [] {
      assert s == [s[0]] + s[1..];
      FilterProjected(cols, p, q, s[1..]);
      assert MapSeq(Projector(cols), s) == [Project(cols, s[0])] + MapSeq(Projector(cols), s[1..]);
      FilterCons(q, Project(cols, s[0]), MapSeq(Projector(cols), s[1..]));
      if p(s[0]) { assert ([s[0]] + Filter(p, s[1..]))[1..] == Filter(p, s[1..]); }
    }
  }

  /** Selecting group columns changes the columns of the listed groups and nothing else. */
  lemma GroupsForProjected(cols: seq<string>, stream: seq<Linked>, out: int)
    requires "id" in cols
    ensures GroupsFor(MapSeq(LinkedProjector(cols), stream), out) == MapSeq(Projector(cols), GroupsFor(stream, out))
  {
    var p := MapSeq(LinkedProjector(cols), stream);
    FirstSeenProjected(cols, stream, {});
    forall r | r in FirstSeen(stream, {})
      ensures LinkedTo(p, out)(Project(cols, r)) == LinkedTo(stream, out)(r)
    {
      ProjectKeepsId(cols, r);
      IsLinkedProjected(cols, stream, out, Id(r));
    }
    FilterProjected(cols, LinkedTo(stream, out), LinkedTo(p, out), FirstSeen(stream, {}));
  }

  // ---------------------------------------------------------------- the condition is exact

  /** Batching changes no parent's list, for this content of the link table. */
  ghost predicate BatchAgrees(db: Database, sel: Selection, ids: seq<int>) {
    forall out :: out in ids ==> GroupsFor(JoinRows(db, sel, ids), out) == GroupsFor(JoinRows(db, sel, [out]), out)
  }

  /** The database with its link table filled anew. */
  function Relinked(db: Database, links: seq<Row>): Database { db.(links := links) }

  /** With two or more parents, batching is harmless for every link table if and only if the
      query's order separates the groups it selects. */
  lemma SeparationIsExact(db: Database, sel: Selection, ids: seq<int>, a: int, b: int)
    requires sel.Unpaged() && DistinctIds(db.groups) && a in ids && b in ids && a != b
    requires forall g :: g in db.groups ==> NillableIntAt(g, "id").Some?
    ensures Separates(db.groups, sel) <==> forall links :: BatchAgrees(Relinked(db, links), sel, ids)
  {
    if Separates(db.groups, sel) {
      forall links, out | out in ids
        ensures GroupsFor(JoinRows(Relinked(db, links), sel, ids), out)
                == GroupsFor(JoinRows(Relinked(db, links), sel, [out]), out)
      {
        BatchedGroupsAgree(Relinked(db, links), sel, ids, out);
      }
    } else {
      var g, h :| Selected(db.groups, sel, g) && Selected(db.groups, sel, h) && Tied(sel.order, g, h) && g != h;
      TieReorders(db, sel, ids, a, b, g, h);
      assert !BatchAgrees(Relinked(db, CrossedLinks(a, b, g, h)), sel, ids);
    }
  }

  function LinkRow(account: int, g: Row): Row {
    map["account_id" := Int(account), "group_id" := Int(Id(g))]
  }

  /** Account a joins g then h, account b joins h then g. */
  function CrossedLinks(a: int, b: int, g: Row, h: Row): seq<Row> {
    [LinkRow(a, g), LinkRow(a, h), LinkRow(b, h), LinkRow(b, g)]
  }

  lemma {:induction false} PairsOfLinkRow(account: int, g: Row, groups: seq<Row>)
    requires DistinctIds(groups) && NillableIntAt(g, "id").Some?
    requires forall h :: h in groups ==> NillableIntAt(h, "id").Some?
    ensures PairsOf(LinkRow(account, g), groups)
         == if exists k :: 0 <= k < |groups| && Id(groups[k]) == Id(g)
            then [Linked(account, groups[Position(groups, Id(g))])] else []
  {
    if groups != [] {
      assert groups == [groups[0]] + groups[1..];
      PairsOfLinkRow(account, g, groups[1..]);
      if Id(groups[0]) == Id(g) {
        assert forall k :: 0 <= k < |groups[1..]| ==> groups[1..][k] == groups[k + 1];
        assert PairsOf(LinkRow(account, g), groups[1..]) == [];
      } else if k :| 0 <= k < |groups| && Id(groups[k]) == Id(g) {
        assert groups[1..][k - 1] == groups[k];
      }
    }
  }

  function Position(groups: seq<Row>, id: int): nat
    requires exists k :: 0 <= k < |groups| && Id(groups[k]) == id
    ensures Position(groups, id) < |groups| && Id(groups[Position(groups, id)]) == id
  {
    if Id(groups[0]) == id then 0
    else
      assert exists k :: 0 <= k < |groups[1..]| && Id(groups[1..][k]) == id by {
        var k :| 0 <= k < |groups| && Id(groups[k]) == id;
        assert groups[1..][k - 1] == groups[k];
      }
      1 + Position(groups[1..], id)
  }

  lemma PairOf(account: int, g: Row, groups: seq<Row>)
    requires DistinctIds(groups) && g in groups
    requires forall h :: h in groups ==> NillableIntAt(h, "id").Some?
    ensures PairsOf(LinkRow(account, g), groups) == [Linked(account, g)]
  {
    PairsOfLinkRow(account, g, groups);
    var k :| 0 <= k < |groups| && groups[k] == g;
    assert Id(groups[k]) == Id(g);
    SameGroup(groups, groups[Position(groups, Id(g))], g);
  }

  lemma {:induction false} SortTied(o: Order<Linked>, s: seq<Linked>)
    requires forall x, y :: x in s && y in s ==> Leq(o, x, y)
    ensures SortBy(o, s) == s
  {
    if s != [] {
      assert s == [s[0]] + s[1..];
      SortTied(o, s[1..]);
    }
  }

  lemma TiedLeq(o: Order<Row>, x: Linked, y: Linked)
    requires Tied(o, x.row, y.row)
    ensures Leq(LinkedOrder(o), x, y)
  {
    LinkedOrderLeq(o, x, y);
    LeqBothIsTied(o, x.row, y.row);
  }

  lemma TieReorders(db: Database, sel: Selection, ids: seq<int>, a: int, b: int, g: Row, h: Row)
    requires sel.Unpaged() && DistinctIds(db.groups) && a in ids && b in ids && a != b
    requires forall x :: x in db.groups ==> NillableIntAt(x, "id").Some?
    requires Selected(db.groups, sel, g) && Selected(db.groups, sel, h) && Tied(sel.order, g, h) && g != h
    ensures GroupsFor(JoinRows(Relinked(db, CrossedLinks(a, b, g, h)), sel, ids), b) == [g, h]
    ensures GroupsFor(JoinRows(Relinked(db, CrossedLinks(a, b, g, h)), sel, [b]), b) == [h, g]
  {
    hide Filter, GroupsFor, CrossedLinks;
    CrossedPairs(a, b, g, h, db.groups);
    CrossedJoin(Relinked(db, CrossedLinks(a, b, g, h)), sel, ids, a, b, g, h);
    CrossedJoin(Relinked(db, CrossedLinks(a, b, g, h)), sel, [b], a, b, g, h);
    CrossedFiltered(sel, ids, a, b, g, h);
    if Id(g) == Id(h) { SameGroup(db.groups, g, h); }
    CrossedGroups(a, b, g, h);
  }

  /** The crossed links of two tied groups, as they are joined. */
  function FourPairs(a: int, b: int, g: Row, h: Row): seq<Linked> {
    [Linked(a, g), Linked(a, h), Linked(b, h), Linked(b, g)]
  }

  lemma CrossedJoin(crossed: Database, sel: Selection, ids: seq<int>, a: int, b: int, g: Row, h: Row)
    requires sel.Unpaged() && Tied(sel.order, g, h)
    requires LinkPairs(crossed.links, crossed.groups) == FourPairs(a, b, g, h)
    ensures JoinRows(crossed, sel, ids) == Filter(Joins(sel, ids), FourPairs(a, b, g, h))
  {
    hide SortBy, LinkedOrder, LinkPairs;
    var joined := Filter(Joins(sel, ids), FourPairs(a, b, g, h));
    JoinRowsUnpaged(crossed, sel, ids);
    FilterIn(Joins(sel, ids), FourPairs(a, b, g, h));
    forall x, y | x in joined && y in joined ensures Leq(LinkedOrder(sel.order), x, y) { TiedLeq(sel.order, x, y); }
    SortTied(LinkedOrder(sel.order), joined);
  }

  lemma CrossedFiltered(sel: Selection, ids: seq<int>, a: int, b: int, g: Row, h: Row)
    requires a in ids && b in ids && a != b && Matches(sel.predicates, g) && Matches(sel.predicates, h)
    ensures var four := FourPairs(a, b, g, h);
            Filter(Joins(sel, ids), four) == four && Filter(Joins(sel, [b]), four) == [Linked(b, h), Linked(b, g)]
  {
    var four := FourPairs(a, b, g, h);
    var front, back := [Linked(a, g), Linked(a, h)], [Linked(b, h), Linked(b, g)];
    FilterAll(Joins(sel, ids), four);
    assert four == front + back;
    FilterConcat(Joins(sel, [b]), front, back);
    FilterNone(Joins(sel, [b]), front);
    FilterAll(Joins(sel, [b]), back);
  }

  lemma CrossedPairs(a: int, b: int, g: Row, h: Row, groups: seq<Row>)
    requires DistinctIds(groups) && g in groups && h in groups
    requires forall x :: x in groups ==> NillableIntAt(x, "id").Some?
    ensures LinkPairs(CrossedLinks(a, b, g, h), groups) == [Linked(a, g), Linked(a, h), Linked(b, h), Linked(b, g)]
  {
    var links := CrossedLinks(a, b, g, h);
    PairOf(a, g, groups);
    PairOf(a, h, groups);
    PairOf(b, h, groups);
    PairOf(b, g, groups);
    assert links[1..] == [LinkRow(a, h), LinkRow(b, h), LinkRow(b, g)];
    assert links[1..][1..] == [LinkRow(b, h), LinkRow(b, g)];
    assert links[1..][1..][1..] == [LinkRow(b, g)];
    assert links[1..][1..][1..][1..] == [];
    assert LinkPairs(links[1..][1..][1..], groups) == [Linked(b, g)];
    assert LinkPairs(links[1..][1..], groups) == [Linked(b, h), Linked(b, g)];
    assert LinkPairs(links[1..], groups) == [Linked(a, h), Linked(b, h), Linked(b, g)];
  }

  lemma CrossedGroups(a: int, b: int, g: Row, h: Row)
    requires a != b && Id(g) != Id(h)
    ensures GroupsFor([Linked(a, g), Linked(a, h), Linked(b, h), Linked(b, g)], b) == [g, h]
    ensures GroupsFor([Linked(b, h), Linked(b, g)], b) == [h, g]
  {
    var four := [Linked(a, g), Linked(a, h), Linked(b, h), Linked(b, g)];
    var two := [Linked(b, h), Linked(b, g)];
    SeenTwo(b, h, g);
    assert four[1..][1..] == two && four[1..][0] == Linked(a, h);
    FirstSeenNone(two, {Id(g), Id(h)});
    FirstSeenStep(four[1..], {Id(g)});
    assert {Id(g)} + {Id(h)} == {Id(g), Id(h)} && {} + {Id(g)} == {Id(g)};
    FirstSeenStep(four, {});
    assert FirstSeen(four, {}) == [g, h];
    assert four[2] == Linked(b, h) && four[3] == Linked(b, g);
    assert two[0] == Linked(b, h) && two[1] == Linked(b, g);
    FilterAll(LinkedTo(four, b), [g, h]);
    FilterAll(LinkedTo(two, b), [h, g]);
  }

  lemma SeenTwo(b: int, h: Row, g: Row)
    requires Id(g) != Id(h)
    ensures FirstSeen([Linked(b, h), Linked(b, g)], {}) == [h, g]
  {
    var two := [Linked(b, h), Linked(b, g)];
    assert two[1..] == [Linked(b, g)] && two[1..][1..] == [];
    FirstSeenStep(two, {});
    assert {} + {Id(h)} == {Id(h)};
    FirstSeenStep(two[1..], {Id(h)});
  }

  lemma {:induction false} FirstSeenNone(stream: seq<Linked>, seen: set<int>)
    requires forall l :: l in stream ==> Id(l.row) in seen
    ensures FirstSeen(stream, seen) == []
  {
    if stream != [] {
      assert stream == [stream[0]] + stream[1..];
      FirstSeenNone(stream[1..], seen);
    }
  }
}
