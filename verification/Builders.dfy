/** The query builders as the generated code has them: objects updated in place. */
module Builders {
  import opened Rows
  import opened Schema
  import opened Eager
  import opened EagerProof
  import opened KeyFacts
  import opened Nodes
  import opened Loaders

  // ---------------------------------------------------------------- builders

  class QueryContext {
    var fields: seq<string>
    var limit: Option<nat>
    var offset: nat

    constructor (fields: seq<string>, limit: Option<nat>, offset: nat)
      ensures this.fields == fields && this.limit == limit && this.offset == offset
    {
      this.fields, this.limit, this.offset := fields, limit, offset;
    }

    method Clone() returns (c: QueryContext)
      ensures fresh(c) && c.fields == fields && c.limit == limit && c.offset == offset
    {
      c := new QueryContext(fields, limit, offset);
    }
  }

  /** Reports the first selected field that is not a column. */
  method CheckFields(fields: seq<string>, columns: seq<string>) returns (err: Option<LoadError>)
    ensures err.None? <==> ValidFields(fields, columns)
    ensures err.Some? ==> exists k :: 0 <= k < |fields| && err.value == InvalidField(fields[k])
                                      && fields[k] !in columns && ValidFields(fields[..k], columns)
  {
    for k := 0 to |fields|
      invariant forall j :: 0 <= j < k ==> fields[j] in columns
    {
      if fields[k] !in columns { return Some(InvalidField(fields[k])); }
    }
    return None;
  }

  /** `querySpec`'s column loop for entities with an id. */
  method SelectIdFirst(fields: seq<string>, columns: seq<string>) returns (cols: seq<string>)
    ensures cols == IdFirst(fields, columns, "id")
  {
    if |fields| == 0 { return columns; }
    cols := ["id"];
    for k := 0 to |fields|
      invariant cols == ["id"] + Without(fields[..k], "id")
    {
      assert fields[..k + 1][..k] == fields[..k];
      if fields[k] != "id" { cols := cols + [fields[k]]; }
    }
    assert fields[..|fields|] == fields;
  }

  /** Group, proxy and usage-log queries: no edges of their own are requested here. `joins` holds the parents
      of every join that was appended to the query. */
  class LeafQuery {
    const ctx: QueryContext
    var predicates: seq<Row -> bool>
    var order: Order<Row>
    var joins: seq<seq<int>>

    ghost function Repr(): set<object> { {this, ctx} }

    ghost function Spec(): Selection
      reads this, ctx
    {
      Selection(ctx.fields, predicates, order, ctx.limit, ctx.offset)
    }

    constructor ()
      ensures fresh(Repr()) && Spec() == Selection([], [], [], None, 0) && joins == []
    {
      ctx := new QueryContext([], None, 0);
      predicates, order, joins := [], [], [];
    }

    constructor Copy(ctx: QueryContext, predicates: seq<Row -> bool>, order: Order<Row>, joins: seq<seq<int>>)
      ensures this.ctx == ctx && this.predicates == predicates && this.order == order && this.joins == joins
    {
      this.ctx, this.predicates, this.order, this.joins := ctx, predicates, order, joins;
    }

    method Where(p: Row -> bool)
      modifies this`predicates
      ensures Spec() == old(Spec()).Where(p)
    {
      predicates := predicates + [p];
    }

    /** The join of `loadGroups`, which it appends with `Where` before it runs the query. */
    method Join(ids: seq<int>)
      modifies this`joins
      ensures joins == old(joins) + [ids] && Spec() == old(Spec())
    {
      joins := joins + [ids];
    }

    method OrderBy(key: Row -> int)
      modifies this`order
      ensures Spec() == old(Spec()).(order := old(order) + [key])
    {
      order := order + [key];
    }

    method Select(fields: seq<string>)
      modifies ctx
      ensures Spec() == old(Spec()).(fields := old(ctx.fields) + fields)
    {
      ctx.fields := ctx.fields + fields;
    }

    method AppendFieldOnce(field: string)
      modifies ctx
      ensures Spec() == old(Spec()).(fields := Schema.AppendFieldOnce(old(ctx.fields), field))
    {
      if |ctx.fields| > 0 && field !in ctx.fields { ctx.fields := ctx.fields + [field]; }
    }

    method Limit(n: nat)
      modifies ctx
      ensures Spec() == old(Spec()).(limit := Some(n))
    {
      ctx.limit := Some(n);
    }

    method Clone() returns (c: LeafQuery)
      ensures fresh(c.Repr()) && c.Spec() == Spec() && c.joins == joins
    {
      var ctx' := ctx.Clone();
      c := new LeafQuery.Copy(ctx', predicates, order, joins);
    }

    /** `All`: field check, driver query, one node a row. */
    method All(table: seq<Row>, columns: seq<string>) returns (err: Option<LoadError>, nodes: seq<Row>)
      ensures err.None? <==> FetchLeaf(table, columns, Spec()).Some?
      ensures err.None? ==> FetchLeaf(table, columns, Spec()) == Some(nodes)
      ensures err.Some? ==> err.value.InvalidField?
    {
      nodes := [];
      err := CheckFields(ctx.fields, columns);
      var sel := Selection(ctx.fields, predicates, order, ctx.limit, ctx.offset);
      var rows := RowsOf(table, sel);
      LeafTraverse(IdFirst(ctx.fields, columns, "id"), rows);
      if err.Some? { return; }
      var cols := SelectIdFirst(ctx.fields, columns);
      for k := 0 to |rows|
        invariant nodes == MapSeq(Projector(cols), rows[..k])
      {
        MapSeqSnoc(Projector(cols), rows, k);
        nodes := nodes + [Project(cols, rows[k])];
      }
      assert rows[..|rows|] == rows;
    }
  }

  ghost function LeafReprOf(q: LeafQuery?): set<object> { if q == null then {} else q.Repr() }

  ghost predicate Inside(q: LeafQuery?, s: set<object>) { q != null ==> q in s && q.ctx in s }

  ghost predicate Outside(q: LeafQuery?, s: set<object>) { q != null ==> q !in s && q.ctx !in s }

  ghost predicate Apart(p: LeafQuery?, q: LeafQuery?) { p != null && q != null ==> p != q && p.ctx != q.ctx }

  ghost predicate OwnCtx(q: LeafQuery?, ctx: QueryContext) { q != null ==> q.ctx != ctx }

  ghost function LinksReprOf(q: AccountGroupQuery?): set<object>
    reads q
  {
    if q == null then {} else q.Repr
  }

  ghost predicate LinksValid(q: AccountGroupQuery?)
    reads q, LinksReprOf(q)
  {
    q == null || q.Valid()
  }

  ghost function LinksSpecOf(q: AccountGroupQuery?): Option<AccountGroupPlan>
    reads q
  {
    if q == null then None else Some(q.plan)
  }

  method CloneLinks(q: AccountGroupQuery?) returns (c: AccountGroupQuery?)
    requires LinksValid(q)
    ensures LinksValid(c) && LinksSpecOf(c) == LinksSpecOf(q)
    ensures fresh(LinksReprOf(c))
    decreases LinksReprOf(q), 1
  {
    if q == null { c := null; } else { c := q.Clone(); }
  }

  ghost function LeafSpecOf(q: LeafQuery?): Option<Selection>
    reads LeafReprOf(q)
  {
    if q == null then None else Some(q.Spec())
  }

  method CloneLeaf(q: LeafQuery?) returns (c: LeafQuery?)
    ensures c != null ==> fresh(c) && fresh(c.ctx)
    ensures fresh(LeafReprOf(c))
    ensures LeafSpecOf(c) == LeafSpecOf(q)
  {
    if q == null { c := null; } else { c := q.Clone(); }
  }

  ghost function AccountReprOf(q: AccountQuery?): set<object>
    reads q
  {
    if q == null then {} else q.Repr
  }

  ghost predicate AccountValid(q: AccountQuery?)
    reads q, AccountReprOf(q)
  {
    q == null || q.Valid()
  }

  ghost function AccountSpecOf(q: AccountQuery?): Option<AccountPlan>
    reads q
  {
    if q == null then None else Some(q.plan)
  }

  method CloneAccounts(q: AccountQuery?) returns (c: AccountQuery?)
    requires AccountValid(q)
    ensures AccountValid(c) && AccountSpecOf(c) == AccountSpecOf(q)
    ensures fresh(AccountReprOf(c))
    decreases AccountReprOf(q), 1
  {
    if q == null { c := null; } else { c := q.Clone(); }
  }

  lemma {:induction false} MapSeqSnoc<T, U>(f: T -> U, s: seq<T>, k: nat)
    requires k < |s|
    ensures MapSeq(f, s[..k + 1]) == MapSeq(f, s[..k]) + [f(s[k])]
  {
    var a, b := MapSeq(f, s[..k + 1]), MapSeq(f, s[..k]) + [f(s[k])];
    assert forall i :: 0 <= i < |a| ==> a[i] == b[i];
  }

  // ---------------------------------------------------------------- edges to leaf entities

  /** `loadGroups`. */
  method LoadGroupsEdge(query: LeafQuery, db: Database, nodes: seq<AccountNode>, ghost with: AccountWith)
    returns (err: Option<LoadError>)
    requires Distinct(nodes) && with.groups == Some(query.Spec())
    modifies nodes`groups, query`joins
    ensures query.joins == old(query.joins) + [IdsOf(NodeRows(nodes))] && query.Spec() == old(query.Spec())
    ensures err.None? <==> BatchGroups(db, with, NodeRows(nodes)).Some?
    ensures err.None? ==> GroupsStitched(nodes, BatchGroups(db, with, NodeRows(nodes)).value)
    ensures err.Some? ==> err.value.InvalidField?
  {
    var edgeIDs := IdsOf(NodeRows(nodes));
    query.Join(edgeIDs);
    err := CheckFields(query.ctx.fields, db.groupColumns);
    if err.Some? { return; }
    var sel := Selection(query.ctx.fields, query.predicates, query.order, query.ctx.limit, query.ctx.offset);
    var stream := GroupStream(db, sel, edgeIDs);
    StreamOut(db, sel, edgeIDs);
    err := LoadGroups(nodes, stream.value);
  }

  /** `loadProxy`: no query at all when no parent holds a key. */
  method LoadProxyEdge(query: LeafQuery, db: Database, nodes: seq<AccountNode>, ghost with: AccountWith)
    returns (err: Option<LoadError>)
    requires Distinct(nodes) && with.proxy == Some(query.Spec()) && "id" in db.proxyColumns
    requires forall i :: 0 <= i < |nodes| ==> nodes[i].proxy == None
    modifies nodes`proxy, query
    ensures err.None? <==> BatchProxies(db, with, NodeRows(nodes)).Some?
    ensures err.None? ==> ProxiesStitched(nodes, with, BatchProxies(db, with, NodeRows(nodes)).value)
    ensures err.Some? ==> err.value.InvalidField?
  {
    var ids, nodeids := CollectForeignKeys(NodeRows(nodes), "proxy_id");
    if |ids| == 0 { return None; }
    ghost var sel := query.Spec();
    query.Where(ColIn("id", ids));
    var neighbors;
    err, neighbors := query.All(db.proxies, db.proxyColumns);
    if err.Some? { return; }
    IdFirstHas(sel.fields, db.proxyColumns, "id");
    LeafRowsKeyed(db.proxies, db.proxyColumns, sel, "id", ids);
    err := AssignProxies(nodes, neighbors, nodeids);
  }

  /** `loadUsageLogs`. */
  method LoadUsageLogsEdge(query: LeafQuery, db: Database, nodes: seq<AccountNode>, ghost with: AccountWith)
    returns (err: Option<LoadError>)
    requires Distinct(nodes) && with.usageLogs == Some(query.Spec()) && "account_id" in db.usageLogColumns
    modifies nodes`usageLogs, query, query.ctx
    ensures err.None? <==> BatchUsageLogs(db, with, NodeRows(nodes)).Some?
    ensures err.None? ==> UsageLogsStitched(nodes, BatchUsageLogs(db, with, NodeRows(nodes)).value)
    ensures err.Some? ==> err.value.InvalidField?
  {
    var fks := IdsOf(NodeRows(nodes));
    ghost var sel := query.Spec();
    if |query.ctx.fields| > 0 { query.AppendFieldOnce("account_id"); }
    query.Where(ColIn("account_id", fks));
    var neighbors;
    err, neighbors := query.All(db.usageLogs, db.usageLogColumns);
    if err.Some? { return; }
    ghost var s := sel.(fields := Schema.AppendFieldOnce(sel.fields, "account_id"));
    IdFirstHas(s.fields, db.usageLogColumns, "account_id");
    LeafRowsKeyed(db.usageLogs, db.usageLogColumns, s, "account_id", fks);
    err := AssignUsageLogs(nodes, neighbors);
  }

  ghost predicate LeavesArrive(db: Database, with: AccountWith, rows: seq<Row>) {
    BatchGroups(db, with, rows).Some? && BatchProxies(db, with, rows).Some? && BatchUsageLogs(db, with, rows).Some?
  }

  ghost predicate GroupsStitched(nodes: seq<AccountNode>, stream: seq<Linked>)
    reads nodes`groups
  {
    forall i :: 0 <= i < |nodes| ==> nodes[i].groups == GroupsAt(NodeRows(nodes), stream, i)
  }

  ghost predicate ProxiesStitched(nodes: seq<AccountNode>, with: AccountWith, proxies: seq<Row>)
    reads nodes`proxy
  {
    forall i :: 0 <= i < |nodes| ==>
      nodes[i].proxy == LastWithKey(ColKey("id"),
        if with.proxy.None? then None else NillableIntAt(nodes[i].row, "proxy_id"), proxies)
  }

  ghost predicate UsageLogsStitched(nodes: seq<AccountNode>, logs: seq<Row>)
    reads nodes`usageLogs
  {
    forall i :: 0 <= i < |nodes| ==> nodes[i].usageLogs == ChildrenAt(NodeRows(nodes), ColKey("account_id"), logs, i)
  }

  ghost predicate LinksStitched(nodes: seq<AccountNode>, links: seq<AccountGroupTree>)
    reads nodes`accountGroups
  {
    forall i :: 0 <= i < |nodes| ==> nodes[i].accountGroups == ChildrenAt(NodeRows(nodes), OwnerOf, links, i)
  }

  /** The three loads over leaf queries, in order, stopping at the first failure. */
  method LoadLeafEdges(groups: LeafQuery?, proxy: LeafQuery?, usageLogs: LeafQuery?, db: Database,
                       nodes: seq<AccountNode>, ghost with: AccountWith)
    returns (err: Option<LoadError>)
    requires Distinct(nodes) && ValidDb(db) && Apart(groups, proxy) && Apart(groups, usageLogs)
             && Apart(proxy, usageLogs)
    requires with.groups == LeafSpecOf(groups) && with.proxy == LeafSpecOf(proxy)
             && with.usageLogs == LeafSpecOf(usageLogs)
    requires forall i :: 0 <= i < |nodes| ==>
               nodes[i].groups == [] && nodes[i].proxy == None && nodes[i].usageLogs == []
    modifies nodes`groups, nodes`proxy, nodes`usageLogs, LeafReprOf(groups), LeafReprOf(proxy),
      LeafReprOf(usageLogs)
    ensures err.None? <==> LeavesArrive(db, with, NodeRows(nodes))
    ensures err.None? ==> GroupsStitched(nodes, BatchGroups(db, with, NodeRows(nodes)).value)
    ensures err.None? ==> ProxiesStitched(nodes, with, BatchProxies(db, with, NodeRows(nodes)).value)
    ensures err.None? ==> UsageLogsStitched(nodes, BatchUsageLogs(db, with, NodeRows(nodes)).value)
    ensures err.Some? ==> err.value.InvalidField?
  {
    hide BatchGroups, BatchProxies, BatchUsageLogs, GroupsAt, ProxiesStitched, UsageLogsStitched;
    if groups != null {
      err := LoadGroupsEdge(groups, db, nodes, with);
      if err.Some? { return; }
    } else {
      NoGroups(nodes, db, with);
    }
    err := LoadFlatEdges(proxy, usageLogs, db, nodes, with);
  }

  lemma NoGroups(nodes: seq<AccountNode>, db: Database, with: AccountWith)
    requires with.groups.None? && forall i :: 0 <= i < |nodes| ==> nodes[i].groups == []
    ensures BatchGroups(db, with, NodeRows(nodes)) == Some([]) && GroupsStitched(nodes, [])
  {
    forall i | 0 <= i < |nodes| ensures GroupsFor([], Id(nodes[i].row)) == [] {}
  }

  lemma NoProxy(nodes: seq<AccountNode>, db: Database, with: AccountWith)
    requires with.proxy.None? && forall i :: 0 <= i < |nodes| ==> nodes[i].proxy == None
    ensures BatchProxies(db, with, NodeRows(nodes)) == Some([]) && ProxiesStitched(nodes, with, [])
  {}

  lemma NoUsageLogs(nodes: seq<AccountNode>, db: Database, with: AccountWith)
    requires with.usageLogs.None? && forall i :: 0 <= i < |nodes| ==> nodes[i].usageLogs == []
    ensures BatchUsageLogs(db, with, NodeRows(nodes)) == Some([]) && UsageLogsStitched(nodes, [])
  {}

  lemma NoLinks(nodes: seq<AccountNode>, db: Database, with: AccountWith)
    requires with.accountGroups.None? && forall i :: 0 <= i < |nodes| ==> nodes[i].accountGroups == []
    ensures BatchLinks(db, with, NodeRows(nodes)) == Some([]) && LinksStitched(nodes, [])
  {}

  method LoadFlatEdges(proxy: LeafQuery?, usageLogs: LeafQuery?, db: Database, nodes: seq<AccountNode>,
                       ghost with: AccountWith)
    returns (err: Option<LoadError>)
    requires Distinct(nodes) && ValidDb(db) && Apart(proxy, usageLogs)
    requires with.proxy == LeafSpecOf(proxy) && with.usageLogs == LeafSpecOf(usageLogs)
    requires forall i :: 0 <= i < |nodes| ==> nodes[i].proxy == None && nodes[i].usageLogs == []
    modifies nodes`proxy, nodes`usageLogs, LeafReprOf(proxy), LeafReprOf(usageLogs)
    ensures err.None?
            <==> BatchProxies(db, with, NodeRows(nodes)).Some? && BatchUsageLogs(db, with, NodeRows(nodes)).Some?
    ensures err.None? ==> ProxiesStitched(nodes, with, BatchProxies(db, with, NodeRows(nodes)).value)
    ensures err.None? ==> UsageLogsStitched(nodes, BatchUsageLogs(db, with, NodeRows(nodes)).value)
    ensures err.Some? ==> err.value.InvalidField?
  {
    hide BatchProxies, BatchUsageLogs, ProxiesStitched, UsageLogsStitched;
    if proxy != null {
      err := LoadProxyEdge(proxy, db, nodes, with);
      if err.Some? { return; }
    } else {
      NoProxy(nodes, db, with);
    }
    if usageLogs != null {
      err := LoadUsageLogsEdge(usageLogs, db, nodes, with);
    } else {
      NoUsageLogs(nodes, db, with);
      err := None;
    }
  }

  /** `loadGroup` of a link row. */
  method LoadGroupEdge(query: LeafQuery, db: Database, nodes: seq<AccountGroupNode>, ghost with: AccountGroupWith)
    returns (err: Option<LoadError>)
    requires Distinct(nodes) && nodes != [] && with.group == Some(query.Spec()) && "id" in db.groupColumns
    requires forall i :: 0 <= i < |nodes| ==> nodes[i].group == None
    modifies nodes`group, query
    ensures err.None? <==> BatchGroupRows(db, with, LinkNodeRows(nodes)).Some?
    ensures err.None? ==> GroupRowsStitched(nodes, with, BatchGroupRows(db, with, LinkNodeRows(nodes)).value)
    ensures err.Some? ==> err.value.InvalidField?
  {
    var ids, nodeids := CollectPlainKeys(LinkNodeRows(nodes), "group_id");
    PlainKeysNonEmpty(LinkNodeRows(nodes), "group_id");
    if |ids| == 0 { return None; }
    ghost var sel := query.Spec();
    query.Where(ColIn("id", ids));
    var neighbors;
    err, neighbors := query.All(db.groups, db.groupColumns);
    if err.Some? { return; }
    IdFirstHas(sel.fields, db.groupColumns, "id");
    LeafRowsKeyed(db.groups, db.groupColumns, sel, "id", ids);
    err := AssignGroupRows(nodes, neighbors, nodeids);
  }

  ghost function Trees(nodes: seq<AccountNode>): seq<AccountTree>
    reads nodes
  {
    seq(|nodes|, i requires 0 <= i < |nodes| reads nodes => nodes[i].Tree())
  }

  ghost function LinkTrees(nodes: seq<AccountGroupNode>): seq<AccountGroupTree>
    reads nodes
  {
    seq(|nodes|, i requires 0 <= i < |nodes| reads nodes => nodes[i].Tree())
  }

  /** Finished children, as the values their parents hold from here on. */
  method SnapshotAccounts(nodes: seq<AccountNode>) returns (trees: seq<AccountTree>)
    ensures trees == Trees(nodes)
  {
    trees := seq(|nodes|, i requires 0 <= i < |nodes| reads nodes => nodes[i].Tree());
  }

  method SnapshotLinks(nodes: seq<AccountGroupNode>) returns (trees: seq<AccountGroupTree>)
    ensures trees == LinkTrees(nodes)
  {
    trees := seq(|nodes|, i requires 0 <= i < |nodes| reads nodes => nodes[i].Tree());
  }

  // ---------------------------------------------------------------- nested edges

  /** The IN query for the links of the given accounts, its own edges loaded. */
  method RunLinks(query: AccountGroupQuery, db: Database, fks: seq<int>)
    returns (err: Option<LoadError>, trees: seq<AccountGroupTree>)
    requires query.Valid() && ValidDb(db)
    modifies query.Repr
    ensures query.Valid() && query.Repr == old(query.Repr)
    ensures var c := old(query.plan);
            var batch := BatchAccountGroups(db, c.(sel := OwnedBy(c.sel, fks)));
            (err.None? <==> batch.Some?) && (err.None? ==> batch == Some(trees))
    ensures err.None? ==> forall t :: t in trees ==> OwnerOf(t) in fks
    ensures err.Some? ==> err.value.InvalidField?
    decreases query.Repr, 7
  {
    ghost var c := query.plan;
    if |query.ctx.fields| > 0 { query.AppendFieldOnce("account_id"); }
    query.Where(ColIn("account_id", fks));
    var children;
    err, children := query.All(db);
    trees := SnapshotLinks(children);
    if err.None? { BatchLinksKeyed(db, c, fks); }
  }

  /** The IN query for the accounts with the given ids. */
  method RunOwners(query: AccountQuery, db: Database, ids: seq<int>)
    returns (err: Option<LoadError>, trees: seq<AccountTree>)
    requires query.Valid() && ValidDb(db)
    modifies query.Repr
    ensures query.Valid() && query.Repr == old(query.Repr)
    ensures var c := old(query.plan);
            var batch := BatchAccounts(db, c.(sel := c.sel.Where(ColIn("id", ids))));
            (err.None? <==> batch.Some?) && (err.None? ==> batch == Some(trees))
    ensures err.None? ==> forall t :: t in trees ==> AccountKey(t) in ids
    ensures err.Some? ==> err.value.InvalidField?
    decreases query.Repr, 7
  {
    ghost var c := query.plan;
    query.Where(ColIn("id", ids));
    var owners;
    err, owners := query.All(db);
    trees := SnapshotAccounts(owners);
    if err.None? { BatchOwnersKeyed(db, c, ids); }
  }

  /** `loadAccountGroups`. */
  method LoadAccountGroupsEdge(query: AccountGroupQuery, db: Database, nodes: seq<AccountNode>, ghost with: AccountWith)
    returns (err: Option<LoadError>)
    requires query.Valid() && ValidDb(db) && Distinct(nodes) && with.accountGroups == Some(query.plan)
    requires forall n :: n in nodes ==> n !in query.Repr
    modifies nodes`accountGroups, query.Repr
    ensures query.Valid() && query.Repr == old(query.Repr)
    ensures err.None? <==> BatchLinks(db, with, NodeRows(nodes)).Some?
    ensures err.None? ==> LinksStitched(nodes, BatchLinks(db, with, NodeRows(nodes)).value)
    ensures err.Some? ==> err.value.InvalidField?
    decreases query.Repr, 8
  {
    var fks := IdsOf(NodeRows(nodes));
    var neighbors;
    err, neighbors := RunLinks(query, db, fks);
    if err.None? { err := AssignAccountGroups(nodes, neighbors); }
  }

  /** `loadAccount` of a link row. */
  method LoadAccountEdge(query: AccountQuery, db: Database, nodes: seq<AccountGroupNode>, ghost with: AccountGroupWith)
    returns (err: Option<LoadError>)
    requires query.Valid() && ValidDb(db) && Distinct(nodes) && nodes != [] && with.account == Some(query.plan)
    requires forall n :: n in nodes ==> n !in query.Repr
    requires forall i :: 0 <= i < |nodes| ==> nodes[i].account == None
    modifies nodes`account, query.Repr
    ensures query.Valid() && query.Repr == old(query.Repr)
    ensures err.None? <==> BatchOwners(db, with, LinkNodeRows(nodes)).Some?
    ensures err.None? ==> OwnersStitched(nodes, with, BatchOwners(db, with, LinkNodeRows(nodes)).value)
    ensures err.Some? ==> err.value.InvalidField?
    decreases query.Repr, 8
  {
    var ids, nodeids := CollectPlainKeys(LinkNodeRows(nodes), "account_id");
    PlainKeysNonEmpty(LinkNodeRows(nodes), "account_id");
    if |ids| == 0 { return None; }
    var neighbors;
    err, neighbors := RunOwners(query, db, ids);
    if err.None? { err := AssignOwners(nodes, neighbors, nodeids); }
  }

  lemma PlainKeysNonEmpty(rows: seq<Row>, col: string)
    requires rows != []
    ensures PlainKeys(rows, col) != []
  {
    PlainKeysHold(rows, col);
  }

  // ---------------------------------------------------------------- what the edge loads leave

  ghost predicate AllLast(rows: seq<Row>) { forall i :: 0 <= i < |rows| ==> IsLast(rows, i) }

  lemma NodesAreLast(db: Database, q: AccountPlan)
    requires ValidDb(db)
    ensures AllLast(AccountNodes(db, q))
  {
    RowsOfDistinct(db.accounts, q.sel);
    var nodes, rows := AccountNodes(db, q), RowsOf(db.accounts, q.sel);
    forall i | 0 <= i < |nodes| ensures Id(nodes[i]) == Id(rows[i]) {
      AccountNodeKeys(q.sel.fields, q.with.proxy.Some?, rows[i]);
    }
  }

  ghost predicate Unloaded(nodes: seq<AccountNode>, loaded: seq<bool>)
    reads nodes
  {
    forall i :: 0 <= i < |nodes| ==> nodes[i].Tree() == AccountTree(nodes[i].row, loaded, [], None, [], [])
  }

  ghost predicate EdgesArrive(db: Database, with: AccountWith, rows: seq<Row>) {
    LeavesArrive(db, with, rows) && BatchLinks(db, with, rows).Some?
  }

  ghost predicate Stitched(nodes: seq<AccountNode>, db: Database, with: AccountWith)
    requires EdgesArrive(db, with, NodeRows(nodes))
    reads nodes
  {
    && GroupsStitched(nodes, BatchGroups(db, with, NodeRows(nodes)).value)
    && ProxiesStitched(nodes, with, BatchProxies(db, with, NodeRows(nodes)).value)
    && UsageLogsStitched(nodes, BatchUsageLogs(db, with, NodeRows(nodes)).value)
    && LinksStitched(nodes, BatchLinks(db, with, NodeRows(nodes)).value)
  }

  lemma BatchOutcome(db: Database, q: AccountPlan)
    ensures BatchAccounts(db, q).Some? <==>
            ValidFields(q.sel.fields, ACCOUNT_COLUMNS)
            && (AccountNodes(db, q) == [] || EdgesArrive(db, q.with, AccountNodes(db, q)))
    ensures ValidFields(q.sel.fields, ACCOUNT_COLUMNS) && AccountNodes(db, q) == [] ==> BatchAccounts(db, q) == Some([])
  {
    hide BatchGroups, BatchProxies, BatchUsageLogs, BatchLinks, MapSeq, AccountNodes;
  }

  /** The scanned nodes are the plan's parent rows, flagged with the requested edges. */
  lemma ScannedRows(db: Database, q: AccountPlan, nodes: seq<AccountNode>)
    requires NodeRows(nodes)
             == MapSeq(Projector(AccountColumns(q.sel.fields, q.with.proxy.Some?)), RowsOf(db.accounts, q.sel))
    ensures NodeRows(nodes) == AccountNodes(db, q)
    ensures nodes == [] ==> AccountNodes(db, q) == [] && Trees(nodes) == []
    ensures nodes != [] ==> AccountNodes(db, q) != []
    ensures Loaded(q.with)
            == [q.with.groups.Some?, q.with.proxy.Some?, q.with.usageLogs.Some?, q.with.accountGroups.Some?]
  {
    assert |AccountNodes(db, q)| == |nodes|;
  }

  /** Nodes whose edges were assigned in place carry the batched trees. */
  lemma StitchedIsBatch(nodes: seq<AccountNode>, db: Database, q: AccountPlan)
    requires ValidDb(db) && nodes != [] && ValidFields(q.sel.fields, ACCOUNT_COLUMNS)
    requires NodeRows(nodes) == AccountNodes(db, q)
    requires EdgesArrive(db, q.with, NodeRows(nodes)) && Stitched(nodes, db, q.with)
    requires forall i :: 0 <= i < |nodes| ==> nodes[i].loaded == Loaded(q.with)
    ensures BatchAccounts(db, q) == Some(Trees(nodes))
  {
    NodesAreLast(db, q);
    var rows := NodeRows(nodes);
    var f := AccountStitcher(q.with, BatchGroups(db, q.with, rows).value, BatchProxies(db, q.with, rows).value,
                             BatchUsageLogs(db, q.with, rows).value, BatchLinks(db, q.with, rows).value);
    assert BatchAccounts(db, q) == Some(MapSeq(f, rows)) by {
      hide BatchGroups, BatchProxies, BatchUsageLogs, BatchLinks, MapSeq, AccountStitcher;
    }
    hide BatchGroups, BatchProxies, BatchUsageLogs, BatchLinks, Stitched, EdgesArrive;
    forall i | 0 <= i < |nodes| ensures nodes[i].Tree() == f(rows[i]) { NodeIsStitched(nodes, db, q.with, i); }
    assert Trees(nodes) == MapSeq(f, rows);
  }

  lemma NodeIsStitched(nodes: seq<AccountNode>, db: Database, with: AccountWith, i: nat)
    requires i < |nodes| && AllLast(NodeRows(nodes)) && nodes[i].loaded == Loaded(with)
    requires EdgesArrive(db, with, NodeRows(nodes)) && Stitched(nodes, db, with)
    ensures var rows := NodeRows(nodes);
            nodes[i].Tree()
            == StitchAccount(with, BatchGroups(db, with, rows).value, BatchProxies(db, with, rows).value,
                             BatchUsageLogs(db, with, rows).value, BatchLinks(db, with, rows).value, rows[i])
  {
    hide BatchGroups, BatchProxies, BatchUsageLogs, BatchLinks;
  }

  ghost predicate LinksReady(db: Database, with: AccountGroupWith, rows: seq<Row>) {
    BatchOwners(db, with, rows).Some? && BatchGroupRows(db, with, rows).Some?
  }

  ghost predicate OwnersStitched(nodes: seq<AccountGroupNode>, with: AccountGroupWith, owners: seq<AccountTree>)
    reads nodes`account
  {
    forall i :: 0 <= i < |nodes| ==>
      nodes[i].account == LastOf(Filter(KeyIs(AccountKey, IntAt(nodes[i].row, "account_id")), owners))
  }

  ghost predicate GroupRowsStitched(nodes: seq<AccountGroupNode>, with: AccountGroupWith, groups: seq<Row>)
    reads nodes`group
  {
    forall i :: 0 <= i < |nodes| ==>
      nodes[i].group == LastOf(Filter(KeyIs(ColKey("id"), IntAt(nodes[i].row, "group_id")), groups))
  }

  lemma NoOwners(nodes: seq<AccountGroupNode>, db: Database, with: AccountGroupWith)
    requires with.account.None? && forall i :: 0 <= i < |nodes| ==> nodes[i].account == None
    ensures BatchOwners(db, with, LinkNodeRows(nodes)) == Some([]) && OwnersStitched(nodes, with, [])
  {}

  lemma NoGroupRows(nodes: seq<AccountGroupNode>, db: Database, with: AccountGroupWith)
    requires with.group.None? && forall i :: 0 <= i < |nodes| ==> nodes[i].group == None
    ensures BatchGroupRows(db, with, LinkNodeRows(nodes)) == Some([]) && GroupRowsStitched(nodes, with, [])
  {}

  lemma LinksOutcome(db: Database, q: AccountGroupPlan)
    ensures BatchAccountGroups(db, q).Some? <==>
            ValidFields(q.sel.fields, ACCOUNT_GROUP_COLUMNS)
            && (AccountGroupNodes(db, q) == [] || LinksReady(db, q.with, AccountGroupNodes(db, q)))
    ensures ValidFields(q.sel.fields, ACCOUNT_GROUP_COLUMNS) && AccountGroupNodes(db, q) == [] ==>
              BatchAccountGroups(db, q) == Some([])
  {
    hide BatchOwners, BatchGroupRows, MapSeq, AccountGroupNodes;
  }

  lemma ScannedLinks(db: Database, q: AccountGroupPlan, nodes: seq<AccountGroupNode>)
    requires LinkNodeRows(nodes)
          == MapSeq(Projector(AccountGroupColumns(q.sel.fields, q.with.account.Some?, q.with.group.Some?)),
                    RowsOf(db.links, q.sel))
    ensures LinkNodeRows(nodes) == AccountGroupNodes(db, q)
    ensures nodes == [] ==> AccountGroupNodes(db, q) == [] && LinkTrees(nodes) == []
    ensures nodes != [] ==> AccountGroupNodes(db, q) != []
    ensures GroupLoaded(q.with) == [q.with.account.Some?, q.with.group.Some?]
  {
    assert |AccountGroupNodes(db, q)| == |nodes|;
  }

  lemma StitchedLinksIsBatch(nodes: seq<AccountGroupNode>, db: Database, q: AccountGroupPlan)
    requires nodes != [] && ValidFields(q.sel.fields, ACCOUNT_GROUP_COLUMNS)
    requires LinkNodeRows(nodes) == AccountGroupNodes(db, q) && LinksReady(db, q.with, LinkNodeRows(nodes))
    requires OwnersStitched(nodes, q.with, BatchOwners(db, q.with, LinkNodeRows(nodes)).value)
    requires GroupRowsStitched(nodes, q.with, BatchGroupRows(db, q.with, LinkNodeRows(nodes)).value)
    requires forall i :: 0 <= i < |nodes| ==> nodes[i].loaded == GroupLoaded(q.with)
    ensures BatchAccountGroups(db, q) == Some(LinkTrees(nodes))
  {
    var rows := LinkNodeRows(nodes);
    var f := AccountGroupStitcher(q.with, BatchOwners(db, q.with, rows).value, BatchGroupRows(db, q.with, rows).value);
    assert BatchAccountGroups(db, q) == Some(MapSeq(f, rows)) by {
      hide BatchOwners, BatchGroupRows, MapSeq, AccountGroupStitcher;
    }
    hide BatchOwners, BatchGroupRows;
    assert LinkTrees(nodes) == MapSeq(f, rows);
  }

  // ---------------------------------------------------------------- scanning

  /** The columns `querySpec` asks for. */
  method AccountSpec(fields: seq<string>, withProxy: bool) returns (cols: seq<string>)
    ensures cols == AccountColumns(fields, withProxy)
  {
    cols := SelectIdFirst(fields, ACCOUNT_COLUMNS);
    if |fields| > 0 && withProxy && "proxy_id" !in cols { cols := cols + ["proxy_id"]; }
  }

  /** The scan callback: one fresh node a row, no edge assigned yet. */
  method NewAccountNodes(rows: seq<Row>, cols: seq<string>, loaded: seq<bool>) returns (nodes: seq<AccountNode>)
    ensures fresh(nodes) && Distinct(nodes)
    ensures NodeRows(nodes) == MapSeq(Projector(cols), rows) && Unloaded(nodes, loaded)
  {
    hide Project;
    nodes := [];
    for k := 0 to |rows|
      invariant fresh(nodes) && Distinct(nodes) && |nodes| == k
      invariant forall i :: 0 <= i < k ==> nodes[i].row == Project(cols, rows[i])
      invariant forall i :: 0 <= i < k ==> nodes[i].Tree() == AccountTree(nodes[i].row, loaded, [], None, [], [])
    {
      var node := new AccountNode(Project(cols, rows[k]), loaded);
      nodes := nodes + [node];
    }
  }

  method ScanAccounts(db: Database, sel: Selection, withProxy: bool, loaded: seq<bool>)
      returns (nodes: seq<AccountNode>)
    ensures fresh(nodes) && Distinct(nodes)
    ensures NodeRows(nodes) == MapSeq(Projector(AccountColumns(sel.fields, withProxy)), RowsOf(db.accounts, sel))
    ensures Unloaded(nodes, loaded)
  {
    hide RowsOf, AccountColumns, MapSeq, Unloaded, Distinct;
    var cols := AccountSpec(sel.fields, withProxy);
    nodes := NewAccountNodes(RowsOf(db.accounts, sel), cols, loaded);
  }

  method AccountGroupSpec(fields: seq<string>, withAccount: bool, withGroup: bool) returns (cols: seq<string>)
    ensures cols == AccountGroupColumns(fields, withAccount, withGroup)
  {
    cols := if |fields| > 0 then fields else ACCOUNT_GROUP_COLUMNS;
    if |fields| > 0 && withAccount && "account_id" !in cols { cols := cols + ["account_id"]; }
    if |fields| > 0 && withGroup && "group_id" !in cols { cols := cols + ["group_id"]; }
  }

  method NewAccountGroupNodes(rows: seq<Row>, cols: seq<string>, loaded: seq<bool>)
      returns (nodes: seq<AccountGroupNode>)
    ensures fresh(nodes) && Distinct(nodes)
    ensures LinkNodeRows(nodes) == MapSeq(Projector(cols), rows)
    ensures forall i :: 0 <= i < |nodes| ==> nodes[i].Tree() == AccountGroupTree(nodes[i].row, loaded, None, None)
  {
    hide Project;
    nodes := [];
    for k := 0 to |rows|
      invariant fresh(nodes) && Distinct(nodes) && |nodes| == k
      invariant forall i :: 0 <= i < k ==> nodes[i].row == Project(cols, rows[i])
      invariant forall i :: 0 <= i < k ==> nodes[i].Tree() == AccountGroupTree(nodes[i].row, loaded, None, None)
    {
      var node := new AccountGroupNode(Project(cols, rows[k]), loaded);
      nodes := nodes + [node];
    }
  }

  method ScanAccountGroups(db: Database, sel: Selection, withAccount: bool, withGroup: bool, loaded: seq<bool>)
    returns (nodes: seq<AccountGroupNode>)
    ensures fresh(nodes) && Distinct(nodes)
    ensures LinkNodeRows(nodes)
            == MapSeq(Projector(AccountGroupColumns(sel.fields, withAccount, withGroup)), RowsOf(db.links, sel))
    ensures forall i :: 0 <= i < |nodes| ==> nodes[i].Tree() == AccountGroupTree(nodes[i].row, loaded, None, None)
  {
    hide RowsOf, AccountGroupColumns, MapSeq, Distinct;
    var cols := AccountGroupSpec(sel.fields, withAccount, withGroup);
    nodes := NewAccountGroupNodes(RowsOf(db.links, sel), cols, loaded);
  }

  class AccountQuery {
    const ctx: QueryContext
    var predicates: seq<Row -> bool>
    var order: Order<Row>
    var withGroups: LeafQuery?
    var withProxy: LeafQuery?
    var withUsageLogs: LeafQuery?
    var withAccountGroups: AccountGroupQuery?
    ghost var plan: AccountPlan
    ghost var Repr: set<object>

    /** The `With...` children are owned: no object is shared between parts of the tree. */
    ghost predicate Owned()
      reads this`withGroups, this`withProxy, this`withUsageLogs, this`withAccountGroups, this`Repr, Repr - {this}
      decreases Repr, 0
    {
      && this in Repr && ctx in Repr
      && Inside(withGroups, Repr) && Inside(withProxy, Repr) && Inside(withUsageLogs, Repr)
      && Apart(withGroups, withProxy) && Apart(withGroups, withUsageLogs) && Apart(withProxy, withUsageLogs)
      && OwnCtx(withGroups, ctx) && OwnCtx(withProxy, ctx) && OwnCtx(withUsageLogs, ctx)
      && (withAccountGroups != null ==>
            && withAccountGroups in Repr && withAccountGroups.Repr <= Repr
            && this !in withAccountGroups.Repr && ctx !in withAccountGroups.Repr
            && Outside(withGroups, withAccountGroups.Repr) && Outside(withProxy, withAccountGroups.Repr)
            && Outside(withUsageLogs, withAccountGroups.Repr)
            && withAccountGroups.Valid())
    }

    /** The plan this builder stands for. */
    ghost predicate Planned()
      requires Owned()
      reads this, Repr
      decreases Repr, 1
    {
      plan == AccountPlan(Sel(), AccountWith(
        LeafSpecOf(withGroups), LeafSpecOf(withProxy), LeafSpecOf(withUsageLogs), LinksSpecOf(withAccountGroups)))
    }

    ghost predicate Valid()
      reads this, Repr
      ensures Valid() ==> this in Repr
      decreases Repr, 2
    {
      Owned() && Planned()
    }

    ghost function Sel(): Selection
      reads this, ctx
    {
      Selection(ctx.fields, predicates, order, ctx.limit, ctx.offset)
    }

    constructor ()
      ensures Valid() && fresh(Repr)
      ensures plan == AccountPlan(Selection([], [], [], None, 0), AccountWith(None, None, None, None))
    {
      ctx := new QueryContext([], None, 0);
      predicates, order := [], [];
      withGroups, withProxy, withUsageLogs, withAccountGroups := null, null, null, null;
      plan := AccountPlan(Selection([], [], [], None, 0), AccountWith(None, None, None, None));
      new;
      Repr := {this, ctx};
    }

    constructor Copy(ctx: QueryContext, predicates: seq<Row -> bool>, order: Order<Row>,
                     withGroups: LeafQuery?, withProxy: LeafQuery?, withUsageLogs: LeafQuery?,
                     withAccountGroups: AccountGroupQuery?, ghost parts: set<object>)
      requires ctx in parts && Inside(withGroups, parts) && Inside(withProxy, parts) && Inside(withUsageLogs, parts)
      requires LinksReprOf(withAccountGroups) <= parts
      requires Apart(withGroups, withProxy) && Apart(withGroups, withUsageLogs) && Apart(withProxy, withUsageLogs)
      requires OwnCtx(withGroups, ctx) && OwnCtx(withProxy, ctx) && OwnCtx(withUsageLogs, ctx)
      requires LinksValid(withAccountGroups) && ctx !in LinksReprOf(withAccountGroups)
      requires Outside(withGroups, LinksReprOf(withAccountGroups)) && Outside(withProxy, LinksReprOf(withAccountGroups))
      requires Outside(withUsageLogs, LinksReprOf(withAccountGroups))
      ensures Valid()
      ensures plan == AccountPlan(
        Selection(ctx.fields, predicates, order, ctx.limit, ctx.offset),
        AccountWith(LeafSpecOf(withGroups), LeafSpecOf(withProxy), LeafSpecOf(withUsageLogs),
                    LinksSpecOf(withAccountGroups)))
      ensures Repr == {this} + parts
    {
      this.ctx, this.predicates, this.order := ctx, predicates, order;
      this.withGroups, this.withProxy, this.withUsageLogs := withGroups, withProxy, withUsageLogs;
      this.withAccountGroups := withAccountGroups;
      new;
      plan := AccountPlan(Sel(), AccountWith(
        LeafSpecOf(withGroups), LeafSpecOf(withProxy), LeafSpecOf(withUsageLogs), LinksSpecOf(withAccountGroups)));
      Repr := {this} + parts;
    }

    method Where(p: Row -> bool)
      requires Valid()
      modifies this
      ensures Valid() && Repr == old(Repr)
      ensures plan == old(plan).(sel := old(plan).sel.Where(p))
    {
      predicates := predicates + [p];
      plan := plan.(sel := Sel());
    }

    method OrderBy(key: Row -> int)
      requires Valid()
      modifies this
      ensures Valid() && Repr == old(Repr)
      ensures plan == old(plan).(sel := old(plan).sel.(order := old(order) + [key]))
    {
      order := order + [key];
      plan := plan.(sel := Sel());
    }

    method Limit(n: nat)
      requires Valid()
      modifies this, ctx
      ensures Valid() && Repr == old(Repr)
      ensures plan == old(plan).(sel := old(plan).sel.(limit := Some(n)))
    {
      ctx.limit := Some(n);
      plan := plan.(sel := Sel());
    }

    method Select(fields: seq<string>)
      requires Valid()
      modifies this, ctx
      ensures Valid() && Repr == old(Repr)
      ensures plan == old(plan).(sel := old(plan).sel.(fields := old(ctx.fields) + fields))
    {
      ctx.fields := ctx.fields + fields;
      plan := plan.(sel := Sel());
    }

    /** The `With...` calls: the child query is a fresh object, built by the call's options. */
    method WithGroups(q: LeafQuery)
      requires Valid() && Repr !! q.Repr()
      modifies this
      ensures Valid() && Repr == old(Repr) + q.Repr()
      ensures plan == old(plan).(with := old(plan).with.(groups := Some(old(q.Spec()))))
    {
      withGroups := q;
      Repr := Repr + q.Repr();
      plan := plan.(with := plan.with.(groups := Some(q.Spec())));
    }

    method WithProxy(q: LeafQuery)
      requires Valid() && Repr !! q.Repr()
      modifies this
      ensures Valid() && Repr == old(Repr) + q.Repr()
      ensures plan == old(plan).(with := old(plan).with.(proxy := Some(old(q.Spec()))))
    {
      withProxy := q;
      Repr := Repr + q.Repr();
      plan := plan.(with := plan.with.(proxy := Some(q.Spec())));
    }

    method WithUsageLogs(q: LeafQuery)
      requires Valid() && Repr !! q.Repr()
      modifies this
      ensures Valid() && Repr == old(Repr) + q.Repr()
      ensures plan == old(plan).(with := old(plan).with.(usageLogs := Some(old(q.Spec()))))
    {
      withUsageLogs := q;
      Repr := Repr + q.Repr();
      plan := plan.(with := plan.with.(usageLogs := Some(q.Spec())));
    }

    method WithAccountGroups(q: AccountGroupQuery)
      requires Valid() && q.Valid() && Repr !! q.Repr
      modifies this
      ensures Valid() && Repr == old(Repr) + q.Repr
      ensures plan == old(plan).(with := old(plan).with.(accountGroups := Some(old(q.plan))))
    {
      withAccountGroups := q;
      Repr := Repr + q.Repr;
      plan := plan.(with := plan.with.(accountGroups := Some(q.plan)));
    }

    /** `All`: the parents' query, then one IN query for every requested edge. The result, or the
        failure, is the batched specification; the unexpected-node errors do not occur. */
    method All(db: Database) returns (err: Option<LoadError>, nodes: seq<AccountNode>)
      requires Valid() && ValidDb(db)
      modifies Repr
      ensures Valid() && Repr == old(Repr) && plan.sel == old(plan).sel
      ensures fresh(nodes) && Distinct(nodes)
      ensures err.None? <==> BatchAccounts(db, old(plan)).Some?
      ensures err.None? ==> BatchAccounts(db, old(plan)) == Some(Trees(nodes))
      ensures err.Some? ==> err.value.InvalidField?
      decreases Repr, 6
    {
      hide BatchAccounts, AccountNodes, Stitched, EdgesArrive, Loaded, RowsOf, Traverse;
      ghost var q := plan;
      BatchOutcome(db, q);
      nodes := [];
      err := CheckFields(ctx.fields, ACCOUNT_COLUMNS);
      if err.Some? { return; }
      nodes := ScanAccounts(db, Selection(ctx.fields, predicates, order, ctx.limit, ctx.offset), withProxy != null,
                            [withGroups != null, withProxy != null, withUsageLogs != null, withAccountGroups != null]);
      ScannedRows(db, q, nodes);
      if |nodes| == 0 { return; }
      err := LoadEdges(db, nodes);
      SyncPlan();
      if err.None? { StitchedIsBatch(nodes, db, q); }
    }

    /** The plan after the child queries were narrowed. */
    ghost method SyncPlan()
      requires Owned()
      modifies this`plan
      ensures Valid() && plan.sel == Sel()
    {
      plan := AccountPlan(Sel(), AccountWith(
        LeafSpecOf(withGroups), LeafSpecOf(withProxy), LeafSpecOf(withUsageLogs), LinksSpecOf(withAccountGroups)));
      assert Owned();
    }

    /** The edge loads of `sqlAll`, in order, stopping at the first failure. */
    method LoadEdges(db: Database, nodes: seq<AccountNode>) returns (err: Option<LoadError>)
      requires Valid() && ValidDb(db) && Distinct(nodes)
      requires forall n :: n in nodes ==> n !in Repr
      requires forall i :: 0 <= i < |nodes| ==>
                 && nodes[i].groups == [] && nodes[i].proxy == None
                 && nodes[i].usageLogs == [] && nodes[i].accountGroups == []
      modifies nodes, Repr - {this, ctx}
      ensures Owned()
      ensures err.None? <==> EdgesArrive(db, plan.with, NodeRows(nodes))
      ensures err.None? ==> Stitched(nodes, db, plan.with)
      ensures err.Some? ==> err.value.InvalidField?
      decreases Repr, 5
    {
      hide BatchGroups, BatchProxies, BatchUsageLogs, BatchLinks;
      hide GroupsStitched, ProxiesStitched, UsageLogsStitched, LinksStitched;
      ghost var with := plan.with;
      err := LoadLeafEdges(withGroups, withProxy, withUsageLogs, db, nodes, with);
      assert Owned();
      if err.None? && withAccountGroups != null {
        err := LoadAccountGroupsEdge(withAccountGroups, db, nodes, with);
      } else if err.None? {
        NoLinks(nodes, db, with);
      }
    }

    /** The copies `Clone` makes of the parts that hold no nested account query. */
    method CloneParts()
      returns (ctx': QueryContext, g: LeafQuery?, p: LeafQuery?, u: LeafQuery?, ghost parts: set<object>)
      ensures fresh(parts) && ctx' in parts && Inside(g, parts) && Inside(p, parts) && Inside(u, parts)
      ensures Apart(g, p) && Apart(g, u) && Apart(p, u) && OwnCtx(g, ctx') && OwnCtx(p, ctx') && OwnCtx(u, ctx')
      ensures Selection(ctx'.fields, predicates, order, ctx'.limit, ctx'.offset) == Sel()
      ensures LeafSpecOf(g) == LeafSpecOf(withGroups) && LeafSpecOf(p) == LeafSpecOf(withProxy)
      ensures LeafSpecOf(u) == LeafSpecOf(withUsageLogs)
    {
      ctx' := ctx.Clone();
      g := CloneLeaf(withGroups);
      p := CloneLeaf(withProxy);
      u := CloneLeaf(withUsageLogs);
      parts := {ctx'} + LeafReprOf(g) + LeafReprOf(p) + LeafReprOf(u);
    }

    /** A deep copy: same plan, and no object shared with the original. */
    method Clone() returns (c: AccountQuery)
      requires Valid()
      ensures c.Valid() && fresh(c.Repr) && c.plan == plan
      decreases Repr, 0
    {
      ghost var spec := plan;
      var ctx', g, p, u, parts := CloneParts();
      var l := CloneLinks(withAccountGroups);
      assert forall o :: o in LinksReprOf(l) ==> o !in parts;
      parts := parts + LinksReprOf(l);
      assert fresh(parts);
      c := new AccountQuery.Copy(ctx', predicates, order, g, p, u, l, parts);
    }

    /** Whatever happens to other objects, a clone or its original among them, leaves this query as it was. */
    twostate lemma Undisturbed()
      requires old(Valid()) && unchanged(old(Repr))
      ensures Valid() && plan == old(plan) && Repr == old(Repr)
    {}
  }

  class AccountGroupQuery {
    const ctx: QueryContext
    var predicates: seq<Row -> bool>
    var order: Order<Row>
    var withAccount: AccountQuery?
    var withGroup: LeafQuery?
    ghost var plan: AccountGroupPlan
    ghost var Repr: set<object>

    ghost predicate Owned()
      reads this`withAccount, this`withGroup, this`Repr, Repr - {this}
      decreases Repr, 0
    {
      && this in Repr && ctx in Repr && Inside(withGroup, Repr) && OwnCtx(withGroup, ctx)
      && (withAccount != null ==>
            && withAccount in Repr && withAccount.Repr <= Repr
            && this !in withAccount.Repr && ctx !in withAccount.Repr && Outside(withGroup, withAccount.Repr)
            && withAccount.Valid())
    }

    ghost predicate Planned()
      requires Owned()
      reads this, Repr
      decreases Repr, 1
    {
      plan == AccountGroupPlan(Sel(), AccountGroupWith(AccountSpecOf(withAccount), LeafSpecOf(withGroup)))
    }

    ghost predicate Valid()
      reads this, Repr
      ensures Valid() ==> this in Repr
      decreases Repr, 2
    {
      Owned() && Planned()
    }

    ghost function Sel(): Selection
      reads this, ctx
    {
      Selection(ctx.fields, predicates, order, ctx.limit, ctx.offset)
    }

    constructor ()
      ensures Valid() && fresh(Repr)
      ensures plan == AccountGroupPlan(Selection([], [], [], None, 0), AccountGroupWith(None, None))
    {
      ctx := new QueryContext([], None, 0);
      predicates, order := [], [];
      withAccount, withGroup := null, null;
      plan := AccountGroupPlan(Selection([], [], [], None, 0), AccountGroupWith(None, None));
      new;
      Repr := {this, ctx};
    }

    constructor Copy(ctx: QueryContext, predicates: seq<Row -> bool>, order: Order<Row>,
                     withAccount: AccountQuery?, withGroup: LeafQuery?, ghost parts: set<object>)
      requires ctx in parts && Inside(withGroup, parts) && AccountReprOf(withAccount) <= parts
      requires OwnCtx(withGroup, ctx)
      requires AccountValid(withAccount) && ctx !in AccountReprOf(withAccount)
               && Outside(withGroup, AccountReprOf(withAccount))
      ensures Valid()
      ensures plan == AccountGroupPlan(
        Selection(ctx.fields, predicates, order, ctx.limit, ctx.offset),
        AccountGroupWith(AccountSpecOf(withAccount), LeafSpecOf(withGroup)))
      ensures Repr == {this} + parts
    {
      this.ctx, this.predicates, this.order := ctx, predicates, order;
      this.withAccount, this.withGroup := withAccount, withGroup;
      new;
      plan := AccountGroupPlan(Sel(), AccountGroupWith(AccountSpecOf(withAccount), LeafSpecOf(withGroup)));
      Repr := {this} + parts;
    }

    method Where(p: Row -> bool)
      requires Valid()
      modifies this
      ensures Valid() && Repr == old(Repr)
      ensures plan == old(plan).(sel := old(plan).sel.Where(p))
    {
      predicates := predicates + [p];
      plan := plan.(sel := Sel());
    }

    method AppendFieldOnce(field: string)
      requires Valid()
      modifies this, ctx
      ensures Valid() && Repr == old(Repr)
      ensures plan == old(plan).(sel := old(plan).sel.(fields := Schema.AppendFieldOnce(old(ctx.fields), field)))
    {
      if |ctx.fields| > 0 && field !in ctx.fields { ctx.fields := ctx.fields + [field]; }
      plan := plan.(sel := Sel());
    }

    method WithAccount(q: AccountQuery)
      requires Valid() && q.Valid() && Repr !! q.Repr
      modifies this
      ensures Valid() && Repr == old(Repr) + q.Repr
      ensures plan == old(plan).(with := old(plan).with.(account := Some(old(q.plan))))
    {
      withAccount := q;
      Repr := Repr + q.Repr;
      plan := plan.(with := plan.with.(account := Some(q.plan)));
    }

    method WithGroup(q: LeafQuery)
      requires Valid() && Repr !! q.Repr()
      modifies this
      ensures Valid() && Repr == old(Repr) + q.Repr()
      ensures plan == old(plan).(with := old(plan).with.(group := Some(old(q.Spec()))))
    {
      withGroup := q;
      Repr := Repr + q.Repr();
      plan := plan.(with := plan.with.(group := Some(q.Spec())));
    }

    method All(db: Database) returns (err: Option<LoadError>, nodes: seq<AccountGroupNode>)
      requires Valid() && ValidDb(db)
      modifies Repr
      ensures Valid() && Repr == old(Repr) && plan.sel == old(plan).sel
      ensures fresh(nodes) && Distinct(nodes)
      ensures err.None? <==> BatchAccountGroups(db, old(plan)).Some?
      ensures err.None? ==> BatchAccountGroups(db, old(plan)) == Some(LinkTrees(nodes))
      ensures err.Some? ==> err.value.InvalidField?
      decreases Repr, 6
    {
      hide BatchAccountGroups, AccountGroupNodes, LinksReady, GroupLoaded, RowsOf, Traverse;
      ghost var q := plan;
      LinksOutcome(db, q);
      nodes := [];
      err := CheckFields(ctx.fields, ACCOUNT_GROUP_COLUMNS);
      if err.Some? { return; }
      nodes := ScanAccountGroups(db, Selection(ctx.fields, predicates, order, ctx.limit, ctx.offset),
                                 withAccount != null, withGroup != null, [withAccount != null, withGroup != null]);
      ScannedLinks(db, q, nodes);
      if |nodes| == 0 { return; }
      err := LoadEdges(db, nodes);
      SyncPlan();
      if err.None? { StitchedLinksIsBatch(nodes, db, q); }
    }

    ghost method SyncPlan()
      requires Owned()
      modifies this`plan
      ensures Valid() && plan.sel == Sel()
    {
      plan := AccountGroupPlan(Sel(), AccountGroupWith(AccountSpecOf(withAccount), LeafSpecOf(withGroup)));
      assert Owned();
    }

    method LoadEdges(db: Database, nodes: seq<AccountGroupNode>) returns (err: Option<LoadError>)
      requires Valid() && ValidDb(db) && Distinct(nodes) && nodes != []
      requires forall n :: n in nodes ==> n !in Repr
      requires forall i :: 0 <= i < |nodes| ==> nodes[i].account == None && nodes[i].group == None
      modifies nodes, Repr - {this, ctx}
      ensures Owned()
      ensures err.None? <==> LinksReady(db, plan.with, LinkNodeRows(nodes))
      ensures err.None? ==> OwnersStitched(nodes, plan.with, BatchOwners(db, plan.with, LinkNodeRows(nodes)).value)
      ensures err.None? ==>
                GroupRowsStitched(nodes, plan.with, BatchGroupRows(db, plan.with, LinkNodeRows(nodes)).value)
      ensures err.Some? ==> err.value.InvalidField?
      decreases Repr, 5
    {
      hide BatchOwners, BatchGroupRows, OwnersStitched, GroupRowsStitched;
      ghost var with := plan.with;
      err := None;
      if withAccount != null {
        err := LoadAccountEdge(withAccount, db, nodes, with);
      } else {
        NoOwners(nodes, db, with);
      }
      assert Owned();
      if err.None? {
        if withGroup != null {
          err := LoadGroupEdge(withGroup, db, nodes, with);
        } else {
          NoGroupRows(nodes, db, with);
        }
      }
    }

    method Clone() returns (c: AccountGroupQuery)
      requires Valid()
      ensures c.Valid() && fresh(c.Repr) && c.plan == plan
      decreases Repr, 0
    {
      var a := CloneAccounts(withAccount);
      var ctx' := ctx.Clone();
      var g := CloneLeaf(withGroup);
      ghost var parts := {ctx'} + LeafReprOf(g) + AccountReprOf(a);
      c := new AccountGroupQuery.Copy(ctx', predicates, order, a, g, parts);
    }

    /** Whatever happens to other objects, a clone or its original among them, leaves this query as it was. */
    twostate lemma Undisturbed()
      requires old(Valid()) && unchanged(old(Repr))
      ensures Valid() && plan == old(plan) && Repr == old(Repr)
    {}
  }
}
