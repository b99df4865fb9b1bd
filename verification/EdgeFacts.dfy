/** What a caller may rely on in the loaded edges. */
module EdgeFacts {
  import opened Rows
  import opened Schema
  import opened Eager
  import opened EagerProof
  import opened KeyFacts

  // ---------------------------------------------------------------- to-many: conservation

  ghost predicate NoRepeats(ids: seq<int>) {
    forall i, j :: 0 <= i < j < |ids| ==> ids[i] != ids[j]
  }

  /** All parents' lists, one after the other. */
  function AllShares<T>(key: T -> int, ids: seq<int>, children: seq<T>): seq<T> {
    if ids == [] then [] else Filter(KeyIs(key, ids[0]), children) + AllShares(key, ids[1..], children)
  }

  lemma {:induction false} SharesOfNone<T>(key: T -> int, ids: seq<int>)
    ensures AllShares<T>(key, ids, []) == []
  {
    if ids != [] { SharesOfNone<T>(key, ids[1..]); }
  }

  lemma {:induction false} SharesStep<T(!new)>(key: T -> int, ids: seq<int>, c: T, children: seq<T>)
    requires NoRepeats(ids)
    ensures multiset(AllShares(key, ids, [c] + children))
         == multiset(AllShares(key, ids, children)) + if key(c) in ids then multiset{c} else multiset{}
  {
    hide Filter;
    if ids != [] {
      assert ids == [ids[0]] + ids[1..];
      assert NoRepeats(ids[1..]);
      SharesStep(key, ids[1..], c, children);
      FilterCons(KeyIs(key, ids[0]), c, children);
      if key(c) == ids[0] {
        assert key(c) !in ids[1..];
      }
    }
  }

  /** Conservation: over parents with distinct ids the children are split with none lost and none doubled. */
  lemma {:induction false} ChildrenConserved<T(!new)>(key: T -> int, ids: seq<int>, children: seq<T>)
    requires NoRepeats(ids) && forall c :: c in children ==> key(c) in ids
    ensures multiset(AllShares(key, ids, children)) == multiset(children)
  {
    if children == [] {
      SharesOfNone(key, ids);
    } else {
      assert children == [children[0]] + children[1..];
      ChildrenConserved(key, ids, children[1..]);
      SharesStep(key, ids, children[0], children[1..]);
    }
  }

  function UsageLogsOf(trees: seq<AccountTree>): seq<Row> {
    if trees == [] then [] else trees[0].usageLogs + UsageLogsOf(trees[1..])
  }

  lemma {:induction false} UsageLogsAreShares(with: AccountWith, stream: seq<Linked>, proxies: seq<Row>, logs: seq<Row>,
                                              links: seq<AccountGroupTree>, nodes: seq<Row>)
    ensures UsageLogsOf(MapSeq(AccountStitcher(with, stream, proxies, logs, links), nodes))
         == AllShares(ColKey("account_id"), IdsOf(nodes), logs)
  {
    if nodes != [] {
      UsageLogsAreShares(with, stream, proxies, logs, links, nodes[1..]);
      var f := AccountStitcher(with, stream, proxies, logs, links);
      assert MapSeq(f, nodes)[1..] == MapSeq(f, nodes[1..]);
      assert IdsOf(nodes)[1..] == IdsOf(nodes[1..]);
    }
  }

  /** Every usage log the batched child query returned is in exactly one account's list. */
  lemma UsageLogsConserved(db: Database, q: AccountPlan)
    requires ValidDb(db) && BatchAccounts(db, q).Some? && AccountNodes(db, q) != []
    ensures multiset(UsageLogsOf(BatchAccounts(db, q).value))
         == multiset(BatchUsageLogs(db, q.with, AccountNodes(db, q)).value)
  {
    var nodes := AccountNodes(db, q);
    var ids := IdsOf(nodes);
    var logs := BatchUsageLogs(db, q.with, nodes).value;
    UsageLogsAreShares(q.with, BatchGroups(db, q.with, nodes).value, BatchProxies(db, q.with, nodes).value, logs,
                       BatchLinks(db, q.with, nodes).value, nodes);
    ParentIdsDistinct(db, q);
    if q.with.usageLogs.Some? {
      var sel := q.with.usageLogs.value;
      var s := sel.(fields := AppendFieldOnce(sel.fields, "account_id"));
      IdFirstHas(s.fields, db.usageLogColumns, "account_id");
      LeafRowsKeyed(db.usageLogs, db.usageLogColumns, s, "account_id", ids);
    }
    ChildrenConserved(ColKey("account_id"), ids, logs);
  }

  function LinksOf(trees: seq<AccountTree>): seq<AccountGroupTree> {
    if trees == [] then [] else trees[0].accountGroups + LinksOf(trees[1..])
  }

  lemma {:induction false} LinksAreShares(with: AccountWith, stream: seq<Linked>, proxies: seq<Row>, logs: seq<Row>,
                                          links: seq<AccountGroupTree>, nodes: seq<Row>)
    ensures LinksOf(MapSeq(AccountStitcher(with, stream, proxies, logs, links), nodes))
         == AllShares(OwnerOf, IdsOf(nodes), links)
  {
    if nodes != [] {
      LinksAreShares(with, stream, proxies, logs, links, nodes[1..]);
      var f := AccountStitcher(with, stream, proxies, logs, links);
      assert MapSeq(f, nodes)[1..] == MapSeq(f, nodes[1..]);
      assert IdsOf(nodes)[1..] == IdsOf(nodes[1..]);
    }
  }

  /** Every link the batched nested load returned, with all below it, is in exactly one account's list. */
  lemma LinksConserved(db: Database, q: AccountPlan)
    requires ValidDb(db) && BatchAccounts(db, q).Some? && AccountNodes(db, q) != []
    ensures multiset(LinksOf(BatchAccounts(db, q).value)) == multiset(BatchLinks(db, q.with, AccountNodes(db, q)).value)
  {
    hide BatchGroups, BatchProxies, BatchUsageLogs, AccountNodes, BatchAccountGroups;
    var nodes := AccountNodes(db, q);
    var links := BatchLinks(db, q.with, nodes).value;
    LinksAreShares(q.with, BatchGroups(db, q.with, nodes).value, BatchProxies(db, q.with, nodes).value,
                   BatchUsageLogs(db, q.with, nodes).value, links, nodes);
    ParentIdsDistinct(db, q);
    if q.with.accountGroups.Some? { BatchLinksKeyed(db, q.with.accountGroups.value, IdsOf(nodes)); }
    ChildrenConserved(OwnerOf, IdsOf(nodes), links);
  }

  lemma ParentIdsDistinct(db: Database, q: AccountPlan)
    requires ValidDb(db)
    ensures NoRepeats(IdsOf(AccountNodes(db, q)))
  {
    var rows, nodes := RowsOf(db.accounts, q.sel), AccountNodes(db, q);
    RowsOfDistinct(db.accounts, q.sel);
    forall i | 0 <= i < |nodes| ensures Id(nodes[i]) == Id(rows[i]) {
      AccountNodeKeys(q.sel.fields, q.with.proxy.Some?, rows[i]);
    }
  }

  // ---------------------------------------------------------------- to-one: fan-out

  lemma {:induction false} ForeignKeysDistinct(nodes: seq<Row>, col: string)
    ensures NoRepeats(ForeignKeys(nodes, col))
  {
    if nodes != [] { ForeignKeysDistinct(nodes[..|nodes| - 1], col); }
  }

  // ---------------------------------------------------------------- projection

  /** The edges of a tree, without the row's own columns. */
  ghost predicate SameEdges(a: AccountTree, b: AccountTree) {
    a.loaded == b.loaded && a.groups == b.groups && a.proxy == b.proxy && a.usageLogs == b.usageLogs
    && a.accountGroups == b.accountGroups
  }

  lemma {:induction false} SameForeignKeys(a: seq<Row>, b: seq<Row>, col: string)
    requires |a| == |b| && forall i :: 0 <= i < |a| ==> NillableIntAt(a[i], col) == NillableIntAt(b[i], col)
    ensures ForeignKeys(a, col) == ForeignKeys(b, col)
  {
    if a != [] { SameForeignKeys(a[..|a| - 1], b[..|b| - 1], col); }
  }

  /** Selecting account columns changes no edge, for every valid select list. */
  lemma ProjectionKeepsEdges(db: Database, q: AccountPlan, fields: seq<string>)
    requires ValidFields(fields, ACCOUNT_COLUMNS)
    ensures var some, all := BatchAccounts(db, q.(sel := q.sel.(fields := fields))),
                             BatchAccounts(db, q.(sel := q.sel.(fields := [])));
            && some.Some? == all.Some?
            && (some.Some? ==> |some.value| == |all.value| == |RowsOf(db.accounts, q.sel)|)
            && (some.Some? ==>
                  forall i :: 0 <= i < |some.value| ==>
                    && SameEdges(some.value[i], all.value[i])
                    && some.value[i].row
                       == Project(AccountColumns(fields, q.with.proxy.Some?), RowsOf(db.accounts, q.sel)[i]))
  {
    hide BatchGroups, BatchProxies, BatchUsageLogs, BatchLinks, Project, AccountColumns, Filter, GroupsFor, LastOf,
        SortBy;
    var p, u := q.(sel := q.sel.(fields := fields)), q.(sel := q.sel.(fields := []));
    var rows, a, b := RowsOf(db.accounts, q.sel), AccountNodes(db, p), AccountNodes(db, u);
    assert RowsOf(db.accounts, p.sel) == rows && RowsOf(db.accounts, u.sel) == rows;
    forall i | 0 <= i < |rows|
      ensures Id(a[i]) == Id(b[i])
      ensures q.with.proxy.Some? ==> NillableIntAt(a[i], "proxy_id") == NillableIntAt(b[i], "proxy_id")
    {
      AccountNodeKeys(fields, q.with.proxy.Some?, rows[i]);
      AccountNodeKeys([], q.with.proxy.Some?, rows[i]);
    }
    SameParts(db, q.with, a, b);
    assert BatchAccounts(db, p).Some? == BatchAccounts(db, u).Some?;
  }

  /** The child queries see the parents only through their ids and foreign keys. */
  lemma SameParts(db: Database, with: AccountWith, a: seq<Row>, b: seq<Row>)
    requires |a| == |b| && forall i :: 0 <= i < |a| ==> Id(a[i]) == Id(b[i])
    requires with.proxy.Some? ==> forall i :: 0 <= i < |a| ==>
             NillableIntAt(a[i], "proxy_id") == NillableIntAt(b[i], "proxy_id")
    ensures BatchGroups(db, with, a) == BatchGroups(db, with, b)
            && BatchProxies(db, with, a) == BatchProxies(db, with, b)
    ensures BatchUsageLogs(db, with, a) == BatchUsageLogs(db, with, b)
            && BatchLinks(db, with, a) == BatchLinks(db, with, b)
  {
    assert IdsOf(a) == IdsOf(b);
    if with.proxy.Some? { SameForeignKeys(a, b, "proxy_id"); }
  }

  ghost predicate SameLinkEdges(a: AccountGroupTree, b: AccountGroupTree) {
    a.loaded == b.loaded && a.account == b.account && a.group == b.group
  }

  lemma {:induction false} SamePlainKeys(a: seq<Row>, b: seq<Row>, col: string)
    requires |a| == |b| && forall i :: 0 <= i < |a| ==> IntAt(a[i], col) == IntAt(b[i], col)
    ensures PlainKeys(a, col) == PlainKeys(b, col)
  {
    if a != [] { SamePlainKeys(a[..|a| - 1], b[..|b| - 1], col); }
  }

  /** The child queries see the links only through the keys of the edges that are loaded. */
  lemma SameLinkParts(db: Database, with: AccountGroupWith, a: seq<Row>, b: seq<Row>)
    requires |a| == |b|
    requires with.account.Some? ==> forall i :: 0 <= i < |a| ==> IntAt(a[i], "account_id") == IntAt(b[i], "account_id")
    requires with.group.Some? ==> forall i :: 0 <= i < |a| ==> IntAt(a[i], "group_id") == IntAt(b[i], "group_id")
    ensures BatchOwners(db, with, a) == BatchOwners(db, with, b)
            && BatchGroupRows(db, with, a) == BatchGroupRows(db, with, b)
  {
    if with.account.Some? { SamePlainKeys(a, b, "account_id"); }
    if with.group.Some? { SamePlainKeys(a, b, "group_id"); }
  }

  lemma StitchedLink(with: AccountGroupWith, owners: seq<AccountTree>, groups: seq<Row>, a: Row, b: Row)
    requires with.account.Some? ==> IntAt(a, "account_id") == IntAt(b, "account_id")
    requires with.group.Some? ==> IntAt(a, "group_id") == IntAt(b, "group_id")
    requires (with.account.None? ==> owners == []) && (with.group.None? ==> groups == [])
    ensures SameLinkEdges(StitchAccountGroup(with, owners, groups, a), StitchAccountGroup(with, owners, groups, b))
  {
    hide IntAt;
  }

  /** Selecting link columns changes no edge, for every valid select list: both keys are added when needed. */
  lemma LinkProjectionKeepsEdges(db: Database, q: AccountGroupPlan, fields: seq<string>)
    requires ValidFields(fields, ACCOUNT_GROUP_COLUMNS)
    ensures var some, all := BatchAccountGroups(db, q.(sel := q.sel.(fields := fields))),
                             BatchAccountGroups(db, q.(sel := q.sel.(fields := [])));
            && some.Some? == all.Some?
            && (some.Some? ==> |some.value| == |all.value| == |RowsOf(db.links, q.sel)|)
            && (some.Some? ==>
                  forall i :: 0 <= i < |some.value| ==>
                    && SameLinkEdges(some.value[i], all.value[i])
                    && some.value[i].row
                       == Project(AccountGroupColumns(fields, q.with.account.Some?, q.with.group.Some?),
                                  RowsOf(db.links, q.sel)[i]))
  {
    hide BatchOwners, BatchGroupRows, Project, AccountGroupColumns, StitchAccountGroup, SameLinkEdges, SortBy, Filter,
        IntAt;
    var p, u := q.(sel := q.sel.(fields := fields)), q.(sel := q.sel.(fields := []));
    var rows, a, b := RowsOf(db.links, q.sel), AccountGroupNodes(db, p), AccountGroupNodes(db, u);
    assert RowsOf(db.links, p.sel) == rows && RowsOf(db.links, u.sel) == rows;
    forall i | 0 <= i < |rows|
      ensures q.with.account.Some? ==> IntAt(a[i], "account_id") == IntAt(b[i], "account_id")
      ensures q.with.group.Some? ==> IntAt(a[i], "group_id") == IntAt(b[i], "group_id")
    {
      AccountGroupNodeKeys(fields, q.with.account.Some?, q.with.group.Some?, rows[i]);
      AccountGroupNodeKeys([], q.with.account.Some?, q.with.group.Some?, rows[i]);
    }
    SameLinkParts(db, q.with, a, b);
    NoEdgeNoRows(db, q.with, a);
    var owners, groups := BatchOwners(db, q.with, a), BatchGroupRows(db, q.with, a);
    if owners.Some? && groups.Some? {
      forall i | 0 <= i < |rows|
        ensures SameLinkEdges(StitchAccountGroup(q.with, owners.value, groups.value, a[i]),
                              StitchAccountGroup(q.with, owners.value, groups.value, b[i]))
        ensures StitchAccountGroup(q.with, owners.value, groups.value, a[i]).row == a[i]
      {
        StitchedLink(q.with, owners.value, groups.value, a[i], b[i]);
        StitchedRow(q.with, owners.value, groups.value, a[i]);
      }
    }
  }

  lemma StitchedRow(with: AccountGroupWith, owners: seq<AccountTree>, groups: seq<Row>, node: Row)
    ensures StitchAccountGroup(with, owners, groups, node).row == node
  {}

  lemma NoEdgeNoRows(db: Database, with: AccountGroupWith, nodes: seq<Row>)
    ensures with.account.None? ==> BatchOwners(db, with, nodes) == Some([])
    ensures with.group.None? ==> BatchGroupRows(db, with, nodes) == Some([])
  {}
}
