/** Eager loading on values: the obvious one-parent-at-a-time fetch, and the batched form the generated
    queries compute. */
module Eager {
  import opened Rows
  import opened Schema

  // ---------------------------------------------------------------- data model

  datatype Database = Database(
    accounts: seq<Row>,
    groups: seq<Row>,
    proxies: seq<Row>,
    usageLogs: seq<Row>,
    links: seq<Row>,
    groupColumns: seq<string>,
    proxyColumns: seq<string>,
    usageLogColumns: seq<string>)

  datatype AccountPlan = AccountPlan(sel: Selection, with: AccountWith)

  /** The `with...` fields of an account query. */
  datatype AccountWith = AccountWith(
    groups: Option<Selection>,
    proxy: Option<Selection>,
    usageLogs: Option<Selection>,
    accountGroups: Option<AccountGroupPlan>)

  datatype AccountGroupPlan = AccountGroupPlan(sel: Selection, with: AccountGroupWith)

  datatype AccountGroupWith = AccountGroupWith(account: Option<AccountPlan>, group: Option<Selection>)

  datatype AccountTree = AccountTree(
    row: Row,
    loaded: seq<bool>,
    groups: seq<Row>,
    proxy: Option<Row>,
    usageLogs: seq<Row>,
    accountGroups: seq<AccountGroupTree>)

  datatype AccountGroupTree = AccountGroupTree(
    row: Row,
    loaded: seq<bool>,
    account: Option<AccountTree>,
    group: Option<Row>)

  /** One scanned row of the many-to-many join: the parent's key, then the group. */
  datatype Linked = Linked(out: int, row: Row)

  function Id(r: Row): int { IntAt(r, "id") }

  ghost predicate DistinctIds(s: seq<Row>) {
    forall i, j :: 0 <= i < j < |s| ==> Id(s[i]) != Id(s[j])
  }

  /** What the schema guarantees: ids are primary keys, and the column lists hold the keys. */
  ghost predicate ValidDb(db: Database) {
    && DistinctIds(db.accounts) && DistinctIds(db.groups)
    && "id" in db.groupColumns && "id" in db.proxyColumns && "id" in db.usageLogColumns
    && "account_id" in db.usageLogColumns
  }

  function Loaded(with: AccountWith): seq<bool> {
    [with.groups.Some?, with.proxy.Some?, with.usageLogs.Some?, with.accountGroups.Some?]
  }

  function GroupLoaded(with: AccountGroupWith): seq<bool> { [with.account.Some?, with.group.Some?] }

  // ---------------------------------------------------------------- running a query

  /** Runs f on every row; fails when one row fails. */
  function Traverse<T>(f: Row -> Option<T>, rows: seq<Row>): Option<seq<T>> {
    if rows == [] then Some([])
    else
      var head := f(rows[0]);
      var tail := Traverse(f, rows[1..]);
      if head.None? || tail.None? then None else Some([head.value] + tail.value)
  }

  function Projector(cols: seq<string>): Row -> Row { (r: Row) => Project(cols, r) }

  function LeafLoader(cols: seq<string>): Row -> Option<Row> { (r: Row) => Some(Project(cols, r)) }

  /** A query without edges of its own: proxies, usage logs, groups by key. */
  function FetchLeaf(table: seq<Row>, columns: seq<string>, sel: Selection): Option<seq<Row>> {
    if !ValidFields(sel.fields, columns) then None
    else Traverse(LeafLoader(IdFirst(sel.fields, columns, "id")), RowsOf(table, sel))
  }

  /** Child query of a to-many edge: the foreign key joins the selected fields. */
  function OwnedBy(sel: Selection, ids: seq<int>): Selection {
    sel.(fields := AppendFieldOnce(sel.fields, "account_id")).Where(ColIn("account_id", ids))
  }

  function LastOf<T>(s: seq<T>): Option<T> { if s == [] then None else Some(s[|s| - 1]) }

  // ---------------------------------------------------------------- many-to-many join

  /** The join in physical order: link by link. */
  function LinkPairs(links: seq<Row>, groups: seq<Row>): seq<Linked> {
    if links == [] then []
    else PairsOf(links[0], groups) + LinkPairs(links[1..], groups)
  }

  function PairsOf(link: Row, groups: seq<Row>): seq<Linked> {
    if groups == [] then []
    else
      var rest := PairsOf(link, groups[1..]);
      if NillableIntAt(link, "account_id").Some? && NillableIntAt(groups[0], "id").Some?
         && NillableIntAt(link, "group_id") == NillableIntAt(groups[0], "id")
      then [Linked(IntAt(link, "account_id"), groups[0])] + rest
      else rest
  }

  function OnRow(key: Row -> int): Linked -> int { (l: Linked) => key(l.row) }

  function LinkedOrder(o: Order<Row>): Order<Linked> {
    if o == [] then [] else [OnRow(o[0])] + LinkedOrder(o[1..])
  }

  function Joins(sel: Selection, ids: seq<int>): Linked -> bool {
    (l: Linked) => l.out in ids && Matches(sel.predicates, l.row)
  }

  function JoinRows(db: Database, sel: Selection, ids: seq<int>): seq<Linked> {
    Page(sel.limit, sel.offset,
         SortBy(LinkedOrder(sel.order), Filter(Joins(sel, ids), LinkPairs(db.links, db.groups))))
  }

  function LinkedProjector(cols: seq<string>): Linked -> Linked {
    (l: Linked) => Linked(l.out, Project(cols, l.row))
  }

  /** The scanned stream of the wrapped group query; None when a selected field is invalid. */
  function GroupStream(db: Database, sel: Selection, ids: seq<int>): Option<seq<Linked>> {
    if !ValidFields(sel.fields, db.groupColumns) then None
    else Some(MapSeq(LinkedProjector(IdFirst(sel.fields, db.groupColumns, "id")), JoinRows(db, sel, ids)))
  }

  /** The first row of every group id in the stream, in order of appearance. */
  function FirstSeen(stream: seq<Linked>, seen: set<int>): seq<Row> {
    if stream == [] then []
    else if Id(stream[0].row) in seen then FirstSeen(stream[1..], seen)
    else [stream[0].row] + FirstSeen(stream[1..], seen + {Id(stream[0].row)})
  }

  predicate IsLinked(stream: seq<Linked>, out: int, id: int) {
    exists k :: 0 <= k < |stream| && stream[k].out == out && Id(stream[k].row) == id
  }

  function LinkedTo(stream: seq<Linked>, out: int): Row -> bool {
    (g: Row) => IsLinked(stream, out, Id(g))
  }

  /** What the de-duplicating loader gives the parent `out`. */
  function GroupsFor(stream: seq<Linked>, out: int): seq<Row> {
    Filter(LinkedTo(stream, out), FirstSeen(stream, {}))
  }

  // ---------------------------------------------------------------- one parent at a time

  function FetchAccounts(db: Database, q: AccountPlan): Option<seq<AccountTree>>
    decreases q.with, 3
  {
    if !ValidFields(q.sel.fields, ACCOUNT_COLUMNS) then None
    else Traverse(AccountLoader(db, q.sel.fields, q.with), RowsOf(db.accounts, q.sel))
  }

  function AccountLoader(db: Database, fields: seq<string>, with: AccountWith): Row -> Option<AccountTree>
    decreases with, 2
  {
    (r: Row) => LoadAccount(db, fields, with, r)
  }

  function OwnGroups(db: Database, with: AccountWith, r: Row): Option<seq<Linked>> {
    if with.groups.None? then Some([]) else GroupStream(db, with.groups.value, [Id(r)])
  }

  function OwnProxies(db: Database, with: AccountWith, r: Row): Option<seq<Row>> {
    var fk := NillableIntAt(r, "proxy_id");
    if with.proxy.None? || fk.None? then Some([])
    else FetchLeaf(db.proxies, db.proxyColumns, with.proxy.value.Where(ColIn("id", [fk.value])))
  }

  function OwnUsageLogs(db: Database, with: AccountWith, r: Row): Option<seq<Row>> {
    if with.usageLogs.None? then Some([])
    else FetchLeaf(db.usageLogs, db.usageLogColumns, OwnedBy(with.usageLogs.value, [Id(r)]))
  }

  function OwnLinks(db: Database, with: AccountWith, r: Row): Option<seq<AccountGroupTree>>
    decreases with, 0
  {
    if with.accountGroups.None? then Some([])
    else var c := with.accountGroups.value;
         FetchAccountGroups(db, c.(sel := OwnedBy(c.sel, [Id(r)])))
  }

  /** Everything one account row needs, each edge fetched for this row alone. */
  function LoadAccount(db: Database, fields: seq<string>, with: AccountWith, r: Row): Option<AccountTree>
    decreases with, 1
  {
    var groups := OwnGroups(db, with, r);
    var proxies := OwnProxies(db, with, r);
    var logs := OwnUsageLogs(db, with, r);
    var links := OwnLinks(db, with, r);
    if groups.None? || proxies.None? || logs.None? || links.None? then None
    else Some(AccountTree(Project(AccountColumns(fields, with.proxy.Some?), r), Loaded(with),
                          GroupsFor(groups.value, Id(r)), LastOf(proxies.value), logs.value, links.value))
  }

  function FetchAccountGroups(db: Database, q: AccountGroupPlan): Option<seq<AccountGroupTree>>
    decreases q.with, 3
  {
    if !ValidFields(q.sel.fields, ACCOUNT_GROUP_COLUMNS) then None
    else Traverse(AccountGroupLoader(db, q.sel.fields, q.with), RowsOf(db.links, q.sel))
  }

  function AccountGroupLoader(db: Database, fields: seq<string>, with: AccountGroupWith)
    : Row -> Option<AccountGroupTree>
    decreases with, 2
  {
    (r: Row) => LoadAccountGroup(db, fields, with, r)
  }

  function OwnOwners(db: Database, with: AccountGroupWith, r: Row): Option<seq<AccountTree>>
    decreases with, 0
  {
    if with.account.None? then Some([])
    else var c := with.account.value;
         FetchAccounts(db, c.(sel := c.sel.Where(ColIn("id", [IntAt(r, "account_id")]))))
  }

  function OwnGroupRows(db: Database, with: AccountGroupWith, r: Row): Option<seq<Row>> {
    if with.group.None? then Some([])
    else FetchLeaf(db.groups, db.groupColumns, with.group.value.Where(ColIn("id", [IntAt(r, "group_id")])))
  }

  function LoadAccountGroup(db: Database, fields: seq<string>, with: AccountGroupWith, r: Row)
    : Option<AccountGroupTree>
    decreases with, 1
  {
    var accounts, groups := OwnOwners(db, with, r), OwnGroupRows(db, with, r);
    if accounts.None? || groups.None? then None
    else Some(AccountGroupTree(Project(AccountGroupColumns(fields, with.account.Some?, with.group.Some?), r),
                               GroupLoaded(with), LastOf(accounts.value), LastOf(groups.value)))
  }

  // ---------------------------------------------------------------- batched

  function IdsOf(nodes: seq<Row>): seq<int> { MapSeq(Id, nodes) }

  /** Foreign keys in order of first appearance, without repeats; NULL is skipped. */
  function ForeignKeys(nodes: seq<Row>, col: string): seq<int> {
    if nodes == [] then []
    else
      var before := ForeignKeys(nodes[..|nodes| - 1], col);
      var fk := NillableIntAt(nodes[|nodes| - 1], col);
      if fk.None? || fk.value in before then before else before + [fk.value]
  }

  /** The same for plain int64 columns, where NULL reads as 0. */
  function PlainKeys(nodes: seq<Row>, col: string): seq<int> {
    if nodes == [] then []
    else
      var before := PlainKeys(nodes[..|nodes| - 1], col);
      var fk := IntAt(nodes[|nodes| - 1], col);
      if fk in before then before else before + [fk]
  }

  function KeyIs<T>(key: T -> int, k: int): T -> bool { (t: T) => key(t) == k }

  function ColKey(col: string): Row -> int { (r: Row) => IntAt(r, col) }

  function OwnerOf(t: AccountGroupTree): int { IntAt(t.row, "account_id") }

  function AccountKey(t: AccountTree): int { Id(t.row) }

  function StitchAccount(with: AccountWith, stream: seq<Linked>, proxies: seq<Row>, logs: seq<Row>,
                         links: seq<AccountGroupTree>, node: Row): AccountTree
  {
    var fk := NillableIntAt(node, "proxy_id");
    AccountTree(node, Loaded(with),
                GroupsFor(stream, Id(node)),
                if with.proxy.None? || fk.None? then None else LastOf(Filter(KeyIs(ColKey("id"), fk.value), proxies)),
                Filter(KeyIs(ColKey("account_id"), Id(node)), logs),
                Filter(KeyIs(OwnerOf, Id(node)), links))
  }

  function AccountStitcher(with: AccountWith, stream: seq<Linked>, proxies: seq<Row>, logs: seq<Row>,
                           links: seq<AccountGroupTree>): Row -> AccountTree
  {
    (node: Row) => StitchAccount(with, stream, proxies, logs, links, node)
  }

  function StitchAccountGroup(with: AccountGroupWith, accounts: seq<AccountTree>, groups: seq<Row>, node: Row)
    : AccountGroupTree
  {
    AccountGroupTree(node, GroupLoaded(with),
      LastOf(Filter(KeyIs(AccountKey, IntAt(node, "account_id")), accounts)),
      LastOf(Filter(KeyIs(ColKey("id"), IntAt(node, "group_id")), groups)))
  }

  function AccountGroupStitcher(with: AccountGroupWith, accounts: seq<AccountTree>, groups: seq<Row>)
    : Row -> AccountGroupTree
  {
    (node: Row) => StitchAccountGroup(with, accounts, groups, node)
  }

  /** The parent rows a query scans, projected. */
  function AccountNodes(db: Database, q: AccountPlan): seq<Row> {
    MapSeq(Projector(AccountColumns(q.sel.fields, q.with.proxy.Some?)), RowsOf(db.accounts, q.sel))
  }

  function AccountGroupNodes(db: Database, q: AccountGroupPlan): seq<Row> {
    MapSeq(Projector(AccountGroupColumns(q.sel.fields, q.with.account.Some?, q.with.group.Some?)),
           RowsOf(db.links, q.sel))
  }

  function BatchGroups(db: Database, with: AccountWith, nodes: seq<Row>): Option<seq<Linked>> {
    if with.groups.None? then Some([]) else GroupStream(db, with.groups.value, IdsOf(nodes))
  }

  function BatchProxies(db: Database, with: AccountWith, nodes: seq<Row>): Option<seq<Row>> {
    var fks := ForeignKeys(nodes, "proxy_id");
    if with.proxy.None? || fks == [] then Some([])
    else FetchLeaf(db.proxies, db.proxyColumns, with.proxy.value.Where(ColIn("id", fks)))
  }

  function BatchUsageLogs(db: Database, with: AccountWith, nodes: seq<Row>): Option<seq<Row>> {
    if with.usageLogs.None? then Some([])
    else FetchLeaf(db.usageLogs, db.usageLogColumns, OwnedBy(with.usageLogs.value, IdsOf(nodes)))
  }

  function BatchLinks(db: Database, with: AccountWith, nodes: seq<Row>): Option<seq<AccountGroupTree>>
    decreases with, 0
  {
    if with.accountGroups.None? then Some([])
    else var c := with.accountGroups.value;
         BatchAccountGroups(db, c.(sel := OwnedBy(c.sel, IdsOf(nodes))))
  }

  /** One query for the parents, one IN query an edge, then stitching. */
  function BatchAccounts(db: Database, q: AccountPlan): Option<seq<AccountTree>>
    decreases q.with, 1
  {
    var nodes := AccountNodes(db, q);
    if !ValidFields(q.sel.fields, ACCOUNT_COLUMNS) then None
    else if nodes == [] then Some([])
    else
      var stream := BatchGroups(db, q.with, nodes);
      var proxies := BatchProxies(db, q.with, nodes);
      var logs := BatchUsageLogs(db, q.with, nodes);
      var links := BatchLinks(db, q.with, nodes);
      if stream.None? || proxies.None? || logs.None? || links.None? then None
      else Some(MapSeq(AccountStitcher(q.with, stream.value, proxies.value, logs.value, links.value), nodes))
  }

  function BatchOwners(db: Database, with: AccountGroupWith, nodes: seq<Row>): Option<seq<AccountTree>>
    decreases with, 0
  {
    if with.account.None? then Some([])
    else var c := with.account.value;
         BatchAccounts(db, c.(sel := c.sel.Where(ColIn("id", PlainKeys(nodes, "account_id")))))
  }

  function BatchGroupRows(db: Database, with: AccountGroupWith, nodes: seq<Row>): Option<seq<Row>> {
    if with.group.None? then Some([])
    else FetchLeaf(db.groups, db.groupColumns, with.group.value.Where(ColIn("id", PlainKeys(nodes, "group_id"))))
  }

  function BatchAccountGroups(db: Database, q: AccountGroupPlan): Option<seq<AccountGroupTree>>
    decreases q.with, 1
  {
    var nodes := AccountGroupNodes(db, q);
    if !ValidFields(q.sel.fields, ACCOUNT_GROUP_COLUMNS) then None
    else if nodes == [] then Some([])
    else
      var accounts := BatchOwners(db, q.with, nodes);
      var groups := BatchGroupRows(db, q.with, nodes);
      if accounts.None? || groups.None? then None
      else Some(MapSeq(AccountGroupStitcher(q.with, accounts.value, groups.value), nodes))
  }
}
