/** A page on the groups query of an account load, which the code applies to the joined rows of all accounts
    together: when every account gets its own page of groups. */
module GroupPages {
  import opened Rows
  import opened Schema
  import opened Eager
  import opened ManyToMany
  import opened EagerProof
  import opened KeyFacts
  import opened Shares
  import opened PageFacts
  import opened LinkPages

  function Out(): Linked -> int { (l: Linked) => l.out }

  /** All joined rows of the parents, in query order, no page applied. */
  function AllJoined(db: Database, sel: Selection, ids: seq<int>): seq<Linked> { JoinRows(db, Unlimited(sel), ids) }

  // ---------------------------------------------------------------- the joined rows

  lemma JoinPaged(db: Database, sel: Selection, ids: seq<int>)
    ensures JoinRows(db, sel, ids) == Page(sel.limit, sel.offset, AllJoined(db, sel, ids))
  {
    JoinRowsUnpaged(db, Unlimited(sel), ids);
  }

  /** One parent's share of all joined rows is what joining for it alone gives, in the same order. */
  lemma JoinShare(db: Database, sel: Selection, ids: seq<int>, id: int)
    requires id in ids
    ensures AllJoined(db, sel, [id]) == ShareOf(Out(), id, AllJoined(db, sel, ids))
  {
    var pairs := LinkPairs(db.links, db.groups);
    var all, own, one := Joins(Unlimited(sel), ids), KeyIs(Out(), id), Joins(Unlimited(sel), [id]);
    JoinRowsUnpaged(db, Unlimited(sel), ids);
    JoinRowsUnpaged(db, Unlimited(sel), [id]);
    FilterSort(own, LinkedOrder(sel.order), Filter(all, pairs));
    FilterFilter(own, all, one, pairs);
  }

  lemma JoinOwned(db: Database, sel: Selection, ids: seq<int>)
    ensures Owned(AllJoined(db, sel, ids), Out(), ids)
    ensures forall l :: l in AllJoined(db, sel, ids) ==> l.row in db.groups && Matches(sel.predicates, l.row)
    ensures StreamSorted(sel.order, AllJoined(db, sel, ids))
  {
    JoinRowsContents(db, Unlimited(sel), ids);
  }

  /** A link joins at most one group. */
  lemma {:induction false} OneGroupALink(link: Row, groups: seq<Row>)
    requires DistinctIds(groups)
    ensures |PairsOf(link, groups)| <= 1
  {
    if groups != [] {
      OneGroupALink(link, groups[1..]);
      PairsOfIn(link, groups[1..]);
      forall l | l in PairsOf(link, groups[1..]) ensures Id(l.row) != Id(groups[0]) {
        var k :| 0 <= k < |groups[1..]| && groups[1..][k] == l.row;
        assert groups[k + 1] == l.row;
      }
      Inhabited(PairsOf(link, groups[1..]));
    }
  }

  lemma LinksKeyedTail(links: seq<Row>)
    requires LinksKeyed(links) && links != []
    ensures LinksKeyed(links[1..]) && forall k :: 0 <= k < |links[1..]| ==> !SameKeys(links[0], links[1..][k])
  {
    assert forall k :: 0 <= k < |links[1..]| ==> links[1..][k] == links[k + 1];
  }

  /** No account is joined to a group twice. */
  lemma {:induction false} PairsDistinct(links: seq<Row>, groups: seq<Row>)
    requires LinksKeyed(links) && DistinctIds(groups)
    ensures Distinct(LinkPairs(links, groups))
  {
    if links != [] {
      LinksKeyedTail(links);
      PairsDistinct(links[1..], groups);
      OneGroupALink(links[0], groups);
      PairsOfIn(links[0], groups);
      LinkPairsIn(links[1..], groups);
      var first, rest := PairsOf(links[0], groups), LinkPairs(links[1..], groups);
      forall x, l | x in first && l in rest ensures x != l {
        var k :| 0 <= k < |links[1..]| && l.out == IntAt(links[1..][k], "account_id") && Joined(links[1..][k], l.row);
        assert !SameKeys(links[0], links[1..][k]);
      }
      DistinctConcat(first, rest);
    }
  }

  lemma DistinctConcat<T(!new)>(a: seq<T>, b: seq<T>)
    requires |a| <= 1 && Distinct(b) && forall x, y :: x in a && y in b ==> x != y
    ensures Distinct(a + b)
  {
    if a != [] {
      assert a == [a[0]] && a[0] in a;
      forall i, j | 0 <= i < j < |a + b| ensures (a + b)[i] != (a + b)[j] {
        assert (a + b)[j] == b[j - 1] && b[j - 1] in b;
      }
    } else {
      assert a + b == b;
    }
  }

  lemma JoinDistinct(db: Database, sel: Selection, ids: seq<int>)
    requires LinksKeyed(db.links) && DistinctIds(db.groups)
    ensures Distinct(AllJoined(db, sel, ids))
  {
    var pairs := LinkPairs(db.links, db.groups);
    PairsDistinct(db.links, db.groups);
    JoinRowsUnpaged(db, Unlimited(sel), ids);
    FilterDistinct(Joins(Unlimited(sel), ids), pairs);
    SortKeepsDistinct(LinkedOrder(sel.order), Filter(Joins(Unlimited(sel), ids), pairs));
  }

  // ---------------------------------------------------------------- pages with the same members

  lemma Inhabited<T(!new)>(s: seq<T>)
    ensures s != [] <==> exists t :: t in s
  {
    if s != [] { assert s[0] in s; }
  }

  /** Two stretches of a list without repeats that hold the same elements are the same stretch. */
  lemma SameStretch<T(!new)>(s: seq<T>, a: seq<T>, b: seq<T>, c: seq<T>, x: seq<T>, y: seq<T>, z: seq<T>)
    requires Distinct(s) && s == a + (b + c) && s == x + (y + z) && forall t :: t in b <==> t in y
    ensures b == y
  {
    Inhabited(b);
    Inhabited(y);
    if b != [] || y != [] {
      StretchStarts(s, a, b, c, x, y, z);
      StretchStarts(s, x, y, z, a, b, c);
      StretchEnds(s, a, b, c, x, y, z);
      StretchEnds(s, x, y, z, a, b, c);
      assert b == s[|a|..|a| + |b|] && y == s[|x|..|x| + |y|];
    }
  }

  lemma StretchStarts<T(!new)>(s: seq<T>, a: seq<T>, b: seq<T>, c: seq<T>, x: seq<T>, y: seq<T>, z: seq<T>)
    requires Distinct(s) && s == a + (b + c) && s == x + (y + z) && b != [] && forall t :: t in b ==> t in y
    ensures |x| <= |a|
  {
    assert s[|a|] == b[0] && b[0] in b;
    var k :| 0 <= k < |y| && y[k] == b[0];
    assert s[|x| + k] == y[k];
  }

  lemma StretchEnds<T(!new)>(s: seq<T>, a: seq<T>, b: seq<T>, c: seq<T>, x: seq<T>, y: seq<T>, z: seq<T>)
    requires Distinct(s) && s == a + (b + c) && s == x + (y + z) && b != [] && forall t :: t in b ==> t in y
    ensures |a| + |b| <= |x| + |y|
  {
    var last := |b| - 1;
    assert s[|a| + last] == b[last] && b[last] in b;
    var k :| 0 <= k < |y| && y[k] == b[last];
    assert s[|x| + k] == y[k];
  }

  /** An owner's share is paged as soon as the members agree. */
  lemma MembersTellPage<T(!new)>(all: seq<T>, key: T -> int, id: int, limit: Option<nat>, offset: nat)
    requires Distinct(all)
    requires forall t ::
               t in ShareOf(key, id, Page(limit, offset, all)) <==> t in Page(limit, offset, ShareOf(key, id, all))
    ensures SharePaged(all, key, id, limit, offset)
  {
    var mine := ShareOf(key, id, all);
    FilterDistinct(KeyIs(key, id), all);
    if offset <= |mine| {
      FilterShorter(KeyIs(key, id), all);
      PagedStretch(all, key, id, limit, offset);
    } else {
      FilterShorter(KeyIs(key, id), all);
      PageShort(limit, offset, mine);
      Inhabited(ShareOf(key, id, Page(limit, offset, all)));
    }
  }

  lemma PagedStretch<T(!new)>(all: seq<T>, key: T -> int, id: int, limit: Option<nat>, offset: nat)
    requires Distinct(ShareOf(key, id, all)) && offset <= |all| && offset <= |ShareOf(key, id, all)|
    requires forall t ::
               t in ShareOf(key, id, Page(limit, offset, all)) <==> t in Page(limit, offset, ShareOf(key, id, all))
    ensures SharePaged(all, key, id, limit, offset)
  {
    var own, mine := KeyIs(key, id), ShareOf(key, id, all);
    var back := PageSplit(limit, offset, all);
    var rest := PageSplit(limit, offset, mine);
    var front, page := all[..offset], Page(limit, offset, all);
    FilterConcat(own, front, page + back);
    FilterConcat(own, page, back);
    hide Filter, Page, Distinct;
    assert mine == Filter(own, front) + (Filter(own, page) + Filter(own, back));
    SameStretch(mine, Filter(own, front), Filter(own, page), Filter(own, back), mine[..offset],
                Page(limit, offset, mine), rest);
  }

  // ---------------------------------------------------------------- the groups of the joined rows

  /** Which groups a stream gives an account: those joined to it in the stream. */
  lemma MembersOfStream(groups: seq<Row>, stream: seq<Linked>, id: int, g: Row)
    requires DistinctIds(groups) && forall l :: l in stream ==> l.row in groups
    ensures g in GroupsFor(stream, id) <==> Linked(id, g) in stream
  {
    GroupsForContents(stream, id);
    if g in GroupsFor(stream, id) {
      var k :| 0 <= k < |stream| && stream[k].row == g;
      var m :| 0 <= m < |stream| && stream[m].out == id && Id(stream[m].row) == Id(g);
      assert stream[k] in stream && stream[m] in stream;
      SameGroup(groups, stream[m].row, g);
      assert stream[m] == Linked(id, g);
    }
    if Linked(id, g) in stream {
      assert IsLinked(stream, id, Id(g));
      var h :| h in GroupsFor(stream, id) && Id(h) == Id(g);
      var k :| 0 <= k < |stream| && stream[k].row == h;
      assert stream[k] in stream;
      SameGroup(groups, g, h);
    }
  }

  /** The paged streams give an account the same groups. */
  ghost predicate SamePageMembers(db: Database, sel: Selection, ids: seq<int>, id: int) {
    forall g :: g in GroupsFor(JoinRows(db, sel, ids), id) <==> g in GroupsFor(JoinRows(db, sel, [id]), id)
  }

  lemma PagedGroups(db: Database, sel: Selection, ids: seq<int>)
    ensures forall l :: l in JoinRows(db, sel, ids) ==> l in AllJoined(db, sel, ids)
  {
    JoinPaged(db, sel, ids);
    PageIn(sel.limit, sel.offset, AllJoined(db, sel, ids));
  }

  /** One account: the batched page gives it the groups of its own page exactly when its share is paged. */
  lemma GroupsOfPage(db: Database, sel: Selection, ids: seq<int>, id: int)
    requires DistinctIds(db.groups) && LinksKeyed(db.links) && id in ids
    ensures SamePageMembers(db, sel, ids, id)
            <==> SharePaged(AllJoined(db, sel, ids), Out(), id, sel.limit, sel.offset)
  {
    var all, batch, mine := AllJoined(db, sel, ids), JoinRows(db, sel, ids), JoinRows(db, sel, [id]);
    JoinDistinct(db, sel, ids);
    JoinPaged(db, sel, ids);
    JoinPaged(db, sel, [id]);
    JoinShare(db, sel, ids, id);
    JoinOwned(db, sel, ids);
    JoinOwned(db, sel, [id]);
    PagedGroups(db, sel, ids);
    PagedGroups(db, sel, [id]);
    FilterIn(KeyIs(Out(), id), batch);
    hide JoinRows, Filter, Page, GroupsFor, Distinct, DistinctIds, LinksKeyed, AllJoined;
    forall g: Row
      ensures g in GroupsFor(batch, id) <==> Linked(id, g) in batch
      ensures g in GroupsFor(mine, id) <==> Linked(id, g) in mine
    {
      MembersOfStream(db.groups, batch, id, g);
      MembersOfStream(db.groups, mine, id, g);
    }
    var share := ShareOf(Out(), id, batch);
    forall l: Linked ensures l in share <==> l.out == id && Linked(id, l.row) in batch {}
    forall l: Linked ensures l in mine <==> l.out == id && Linked(id, l.row) in mine {
      if l in mine { assert Out()(l) in [id]; }
    }
    if SamePageMembers(db, sel, ids, id) { MembersTellPage(all, Out(), id, sel.limit, sel.offset); }
  }

  /** A page on the groups query, for any limit and offset: the batched load gives every account the groups of its own
      page exactly when the page over all joined rows is harmless. */
  lemma GroupPageIsExact(db: Database, sel: Selection, ids: seq<int>)
    requires DistinctIds(db.groups) && LinksKeyed(db.links)
    ensures (forall id :: id in ids ==> SamePageMembers(db, sel, ids, id))
            <==> PageHarmless(AllJoined(db, sel, ids), Out(), ids, sel.limit, sel.offset)
  {
    JoinDistinct(db, sel, ids);
    JoinOwned(db, sel, ids);
    PageExact(AllJoined(db, sel, ids), Out(), ids, sel.limit, sel.offset);
    hide SamePageMembers, SharePaged, PageHarmless, AllJoined, DistinctIds, LinksKeyed;
    forall id | id in ids { GroupsOfPage(db, sel, ids, id); }
  }

  /** With an order that tells the groups apart, in the same order, too. */
  lemma GroupPageInOrder(db: Database, sel: Selection, ids: seq<int>, id: int)
    requires DistinctIds(db.groups) && Separates(db.groups, sel) && SamePageMembers(db, sel, ids, id)
    ensures GroupsFor(JoinRows(db, sel, ids), id) == GroupsFor(JoinRows(db, sel, [id]), id)
  {
    var a, b := GroupsFor(JoinRows(db, sel, ids), id), GroupsFor(JoinRows(db, sel, [id]), id);
    PagedSorted(db, sel, ids);
    PagedSorted(db, sel, [id]);
    GroupsForContents(JoinRows(db, sel, ids), id);
    GroupsForContents(JoinRows(db, sel, [id]), id);
    GroupsForSorted(sel.order, JoinRows(db, sel, ids), id);
    GroupsForSorted(sel.order, JoinRows(db, sel, [id]), id);
    JoinOwned(db, sel, ids);
    PagedGroups(db, sel, ids);
    forall g | g in a ensures Selected(db.groups, sel, g) {
      var k :| 0 <= k < |JoinRows(db, sel, ids)| && JoinRows(db, sel, ids)[k].row == g;
      assert JoinRows(db, sel, ids)[k] in AllJoined(db, sel, ids);
    }
    hide GroupsFor, JoinRows;
    SortedListsAgree(sel.order, a, b);
  }

  lemma PagedSorted(db: Database, sel: Selection, ids: seq<int>)
    ensures StreamSorted(sel.order, JoinRows(db, sel, ids))
  {
    var all := AllJoined(db, sel, ids);
    JoinOwned(db, sel, ids);
    JoinPaged(db, sel, ids);
    if sel.offset <= |all| {
      assert forall k :: 0 <= k < |JoinRows(db, sel, ids)| ==> JoinRows(db, sel, ids)[k] == all[sel.offset + k];
    }
  }

  // ---------------------------------------------------------------- on the stitched edge

  /** Selecting group columns, among which the id always is, neither joins nor parts groups. */
  lemma ProjectedMembers(groups: seq<Row>, cols: seq<string>, a: seq<Linked>, b: seq<Linked>, id: int)
    requires DistinctIds(groups) && "id" in cols && forall l :: l in a || l in b ==> l.row in groups
    ensures SameGroups(GroupsFor(MapSeq(LinkedProjector(cols), a), id), GroupsFor(MapSeq(LinkedProjector(cols), b), id))
            <==> forall g :: g in GroupsFor(a, id) <==> g in GroupsFor(b, id)
  {
    IdTellsApart(cols, groups);
    hide GroupsFor, MapSeq, Project, DistinctIds;
    GroupsForProjected(cols, a, id);
    GroupsForProjected(cols, b, id);
    if SameGroups(GroupsFor(MapSeq(LinkedProjector(cols), a), id), GroupsFor(MapSeq(LinkedProjector(cols), b), id)) {
      StreamGroups(groups, a, id);
      StreamGroups(groups, b, id);
      forall g | g in GroupsFor(a, id) ensures g in GroupsFor(b, id) {
        Unprojected(groups, cols, GroupsFor(a, id), GroupsFor(b, id), g);
      }
      forall g | g in GroupsFor(b, id) ensures g in GroupsFor(a, id) {
        Unprojected(groups, cols, GroupsFor(b, id), GroupsFor(a, id), g);
      }
    } else if forall g :: g in GroupsFor(a, id) <==> g in GroupsFor(b, id) {
      ProjectedSame(cols, a, b, id);
    }
  }

  lemma StreamGroups(groups: seq<Row>, stream: seq<Linked>, id: int)
    requires forall l :: l in stream ==> l.row in groups
    ensures forall g :: g in GroupsFor(stream, id) ==> g in groups
  {
    GroupsForContents(stream, id);
    forall g | g in GroupsFor(stream, id) ensures g in groups {
      var k :| 0 <= k < |stream| && stream[k].row == g;
      assert stream[k] in stream;
    }
  }

  lemma Unprojected(groups: seq<Row>, cols: seq<string>, a: seq<Row>, b: seq<Row>, g: Row)
    requires TellsApart(cols, groups) && g in a && forall h :: h in a || h in b ==> h in groups
    requires forall h :: h in MapSeq(Projector(cols), a) ==> h in MapSeq(Projector(cols), b)
    ensures g in b
  {
    hide Project;
    var i :| 0 <= i < |a| && a[i] == g;
    var p := MapSeq(Projector(cols), a);
    assert p[i] == Project(cols, g) && p[i] in p;
    var j :| 0 <= j < |b| && MapSeq(Projector(cols), b)[j] == Project(cols, g);
    assert b[j] in b;
  }

  lemma TreeGroups(db: Database, q: AccountPlan, k: nat)
    requires q.with.groups.Some? && BatchAccounts(db, q).Some? && k < |BatchAccounts(db, q).value|
    ensures k < |AccountNodes(db, q)| == |RowsOf(db.accounts, q.sel)|
    ensures AccountNodes(db, q)[k]
         == Project(AccountColumns(q.sel.fields, q.with.proxy.Some?), RowsOf(db.accounts, q.sel)[k])
    ensures BatchGroups(db, q.with, AccountNodes(db, q)).Some?
    ensures BatchAccounts(db, q).value[k].groups
         == GroupsFor(BatchGroups(db, q.with, AccountNodes(db, q)).value, Id(AccountNodes(db, q)[k]))
  {
    hide BatchGroups, BatchProxies, BatchUsageLogs, BatchLinks, GroupsFor, RowsOf, Filter, AccountColumns, Project, Id;
  }

  /** Every account of a finished load has the groups its own query returns. */
  ghost predicate GroupsAsOwn(db: Database, q: AccountPlan)
    requires BatchAccounts(db, q).Some?
  {
    var trees, rows := BatchAccounts(db, q).value, RowsOf(db.accounts, q.sel);
    && |trees| == |rows|
    && forall k :: 0 <= k < |trees| ==>
         && OwnGroups(db, q.with, rows[k]).Some?
         && SameGroups(trees[k].groups, GroupsFor(OwnGroups(db, q.with, rows[k]).value, Id(rows[k])))
  }

  lemma StitchedGroups(db: Database, q: AccountPlan, k: nat)
    requires ValidDb(db) && q.with.groups.Some? && BatchAccounts(db, q).Some? && k < |BatchAccounts(db, q).value|
    ensures k < |RowsOf(db.accounts, q.sel)| == |IdsOf(AccountNodes(db, q))|
    ensures var ids, r := IdsOf(AccountNodes(db, q)), RowsOf(db.accounts, q.sel)[k];
            && ids[k] == Id(r) && OwnGroups(db, q.with, r).Some?
            && (SameGroups(BatchAccounts(db, q).value[k].groups, GroupsFor(OwnGroups(db, q.with, r).value, Id(r)))
                <==> SamePageMembers(db, q.with.groups.value, ids, ids[k]))
  {
    hide BatchAccounts, GroupStream, GroupsFor, RowsOf, AccountColumns, Project, SameGroups, SamePageMembers, ValidDb;
    hide Id;
    var sel, ids := q.with.groups.value, IdsOf(AccountNodes(db, q));
    TreeGroups(db, q, k);
    AccountNodeKeys(q.sel.fields, q.with.proxy.Some?, RowsOf(db.accounts, q.sel)[k]);
    StreamsOfPage(db, sel, ids, ids[k]);
  }

  /** The scanned streams of one batched and one own query. */
  lemma StreamsOfPage(db: Database, sel: Selection, ids: seq<int>, id: int)
    requires ValidDb(db) && id in ids && GroupStream(db, sel, ids).Some?
    ensures GroupStream(db, sel, [id]).Some?
    ensures SameGroups(GroupsFor(GroupStream(db, sel, ids).value, id), GroupsFor(GroupStream(db, sel, [id]).value, id))
            <==> SamePageMembers(db, sel, ids, id)
  {
    IdFirstHas(sel.fields, db.groupColumns, "id");
    JoinOwned(db, sel, ids);
    JoinOwned(db, sel, [id]);
    PagedGroups(db, sel, ids);
    PagedGroups(db, sel, [id]);
    hide JoinRows, GroupsFor, Project, SameGroups, AllJoined, DistinctIds, IdFirst;
    ProjectedMembers(db.groups, IdFirst(sel.fields, db.groupColumns, "id"), JoinRows(db, sel, ids),
                     JoinRows(db, sel, [id]), id);
  }

  /** A page on the groups query of an account load, for any limit and offset: every account has the groups of its own
      page, once each, exactly when the page over the joined rows of all accounts is harmless. */
  lemma AccountGroupsPageIsExact(db: Database, q: AccountPlan)
    requires ValidDb(db) && LinksKeyed(db.links) && q.with.groups.Some? && BatchAccounts(db, q).Some?
    ensures var sel, ids := q.with.groups.value, IdsOf(AccountNodes(db, q));
            GroupsAsOwn(db, q) <==> PageHarmless(AllJoined(db, sel, ids), Out(), ids, sel.limit, sel.offset)
  {
    var sel, ids := q.with.groups.value, IdsOf(AccountNodes(db, q));
    GroupPageIsExact(db, sel, ids);
    TreeCount(db, q);
    hide BatchAccounts, RowsOf, OwnGroups, SameGroups, GroupsFor, SamePageMembers, PageHarmless, AllJoined, Id;
    hide LinksKeyed, AccountNodes, IdsOf, ValidDb;
    SameMembersByPlace(db, sel, ids);
    forall k | 0 <= k < |BatchAccounts(db, q).value| { StitchedGroups(db, q, k); }
  }

  lemma SameMembersByPlace(db: Database, sel: Selection, ids: seq<int>)
    ensures (forall id :: id in ids ==> SamePageMembers(db, sel, ids, id))
            <==> forall k :: 0 <= k < |ids| ==> SamePageMembers(db, sel, ids, ids[k])
  {
    hide SamePageMembers;
    if forall k :: 0 <= k < |ids| ==> SamePageMembers(db, sel, ids, ids[k]) {
      forall id | id in ids ensures SamePageMembers(db, sel, ids, id) {
        var k :| 0 <= k < |ids| && ids[k] == id;
      }
    }
  }
}
