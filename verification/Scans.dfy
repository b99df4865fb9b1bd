/** What the objects of a finished load hold: every cell of every one is a cell of a database row that the queries
    select, of a column that was asked for, and no such cell is missing. */
module Scans {
  import opened Rows
  import opened Schema
  import opened Eager
  import opened ManyToMany
  import opened EagerProof
  import opened KeyFacts
  import opened ToOne
  import opened PageFacts

  /** The columns that are asked of an account, a link, or an entity without edges. */
  predicate AccountAsked(fields: seq<string>, withProxy: bool, c: string) {
    if fields == [] then c in ACCOUNT_COLUMNS else c == "id" || c in fields || (withProxy && c == "proxy_id")
  }

  predicate LinkAsked(fields: seq<string>, with: AccountGroupWith, c: string) {
    if fields == [] then c in ACCOUNT_GROUP_COLUMNS
    else || c in fields || (with.account.Some? && c == "account_id") || (with.group.Some? && c == "group_id")
  }

  predicate LeafAsked(fields: seq<string>, columns: seq<string>, c: string) {
    if fields == [] then c in columns else c == "id" || c in fields
  }

  /** The object holds exactly the cells of the row in the columns that were asked for. */
  ghost predicate Holds(asked: string -> bool, r: Row, row: Row) {
    && (forall c :: c in row <==> c in r && asked(c))
    && (forall c :: c in row ==> row[c] == r[c])
  }

  ghost predicate AccountHolds(fields: seq<string>, withProxy: bool, r: Row, row: Row) {
    Holds((c: string) => AccountAsked(fields, withProxy, c), r, row)
  }

  ghost predicate LinkHolds(fields: seq<string>, with: AccountGroupWith, r: Row, row: Row) {
    Holds((c: string) => LinkAsked(fields, with, c), r, row)
  }

  ghost predicate LeafHolds(fields: seq<string>, columns: seq<string>, r: Row, row: Row) {
    Holds((c: string) => LeafAsked(fields, columns, c), r, row)
  }

  ghost predicate CellIs(r: Row, c: string, k: int) { c in r && r[c] == Int(k) }

  /** The fields of a to-many child query: with its foreign key, unless all columns are asked for anyway. */
  function WithKey(fields: seq<string>): seq<string> { if fields == [] then [] else fields + ["account_id"] }

  // ---------------------------------------------------------------- the trees, at every depth

  /** The object is made of a row of the table that the child query selects and whose column holds the key. */
  ghost predicate ChildHolds(table: seq<Row>, columns: seq<string>, fields: seq<string>, ps: seq<Row -> bool>,
                             key: string, k: int, row: Row)
  {
    exists r :: r in table && Matches(ps, r) && CellIs(r, key, k) && LeafHolds(fields, columns, r, row)
  }

  /** The object is made of a selected group that a link ties to the account. */
  ghost predicate GroupHolds(db: Database, sel: Selection, k: int, row: Row) {
    exists l, g, id ::
      && l in db.links && CellIs(l, "account_id", k) && CellIs(l, "group_id", id)
      && g in db.groups && CellIs(g, "id", id) && Matches(sel.predicates, g)
      && LeafHolds(sel.fields, db.groupColumns, g, row)
  }

  /** The tree is made of the account row and, edge by edge and all the way down, of rows that belong to it. */
  ghost predicate AccountMade(db: Database, fields: seq<string>, with: AccountWith, r: Row, t: AccountTree)
    decreases with, 0
  {
    && AccountHolds(fields, with.proxy.Some?, r, t.row)
    && t.loaded == [with.groups.Some?, with.proxy.Some?, with.usageLogs.Some?, with.accountGroups.Some?]
    && (forall x :: x in t.groups ==> with.groups.Some? && GroupHolds(db, with.groups.value, Id(r), x))
    && (t.proxy.Some? ==>
          with.proxy.Some? && NillableIntAt(r, "proxy_id").Some?
          && ChildHolds(db.proxies, db.proxyColumns, with.proxy.value.fields, with.proxy.value.predicates, "id",
                        NillableIntAt(r, "proxy_id").value, t.proxy.value))
    && (forall x :: x in t.usageLogs ==>
          with.usageLogs.Some?
          && ChildHolds(db.usageLogs, db.usageLogColumns, WithKey(with.usageLogs.value.fields),
                        with.usageLogs.value.predicates, "account_id", Id(r), x))
    && (forall x :: x in t.accountGroups ==>
          with.accountGroups.Some? && LinkComes(db, with.accountGroups.value, Id(r), x))
  }

  ghost predicate LinkComes(db: Database, q: AccountGroupPlan, k: int, t: AccountGroupTree)
    decreases q.with, 1
  {
    exists l :: l in db.links && Matches(q.sel.predicates, l) && CellIs(l, "account_id", k)
                && LinkMade(db, WithKey(q.sel.fields), q.with, l, t)
  }

  ghost predicate LinkMade(db: Database, fields: seq<string>, with: AccountGroupWith, l: Row, t: AccountGroupTree)
    decreases with, 0
  {
    && LinkHolds(fields, with, l, t.row)
    && t.loaded == [with.account.Some?, with.group.Some?]
    && (t.account.Some? ==>
          with.account.Some? && OwnerComes(db, with.account.value, IntAt(l, "account_id"), t.account.value))
    && (t.group.Some? ==>
          with.group.Some?
          && ChildHolds(db.groups, db.groupColumns, with.group.value.fields, with.group.value.predicates, "id",
                        IntAt(l, "group_id"), t.group.value))
  }

  ghost predicate OwnerComes(db: Database, q: AccountPlan, k: int, t: AccountTree)
    decreases q.with, 1
  {
    exists r :: r in db.accounts && Matches(q.sel.predicates, r) && CellIs(r, "id", k)
                && AccountMade(db, q.sel.fields, q.with, r, t)
  }

  // ---------------------------------------------------------------- one projection

  lemma {:induction false} WithoutIn(fields: seq<string>, id: string)
    ensures forall c :: c in Without(fields, id) <==> c in fields && c != id
  {
    WithoutKeeps(fields, id);
  }

  lemma AccountIsHeld(fields: seq<string>, withProxy: bool, r: Row)
    ensures AccountHolds(fields, withProxy, r, Project(AccountColumns(fields, withProxy), r))
  {
    WithoutIn(fields, "id");
  }

  lemma LinkIsHeld(fields: seq<string>, with: AccountGroupWith, r: Row)
    ensures LinkHolds(fields, with, r, Project(AccountGroupColumns(fields, with.account.Some?, with.group.Some?), r))
  {}

  lemma LeafIsHeld(fields: seq<string>, columns: seq<string>, r: Row)
    ensures LeafHolds(fields, columns, r, Project(IdFirst(fields, columns, "id"), r))
  {
    WithoutIn(fields, "id");
  }

  /** `AppendFieldOnce` asks for the same columns as appending. */
  lemma KeyAsked(fields: seq<string>, columns: seq<string>, with: AccountGroupWith, r: Row, row: Row)
    ensures LeafHolds(AppendFieldOnce(fields, "account_id"), columns, r, row)
            <==> LeafHolds(WithKey(fields), columns, r, row)
    ensures LinkHolds(AppendFieldOnce(fields, "account_id"), with, r, row) <==> LinkHolds(WithKey(fields), with, r, row)
  {
    var once, key := AppendFieldOnce(fields, "account_id"), WithKey(fields);
    assert forall c :: LeafAsked(once, columns, c) == LeafAsked(key, columns, c);
    assert forall c :: LinkAsked(once, with, c) == LinkAsked(key, with, c);
    hide LeafAsked, LinkAsked;
  }

  /** A query without edges: one object a row, in the order of the rows; it fails exactly on a field that is no
      column. */
  lemma LeafScans(table: seq<Row>, columns: seq<string>, sel: Selection)
    ensures var v := FetchLeaf(table, columns, sel);
            && (v.None? <==> exists f :: f in sel.fields && f !in columns)
            && (v.Some? ==>
                  && |v.value| == |RowsOf(table, sel)|
                  && forall i :: 0 <= i < |v.value| ==>
                       LeafHolds(sel.fields, columns, RowsOf(table, sel)[i], v.value[i]))
  {
    LeafTraverse(IdFirst(sel.fields, columns, "id"), RowsOf(table, sel));
    hide IdFirst, LeafHolds, Project;
    forall r { LeafIsHeld(sel.fields, columns, r); }
  }

  // ---------------------------------------------------------------- one edge

  lemma LeafChild(table: seq<Row>, columns: seq<string>, sel: Selection, col: string, ids: seq<int>, k: int, x: Row)
    requires col in IdFirst(sel.fields, columns, "id")
    requires FetchLeaf(table, columns, sel.Where(ColIn(col, ids))).Some?
    requires x in FetchLeaf(table, columns, sel.Where(ColIn(col, ids))).value && IntAt(x, col) == k
    ensures ChildHolds(table, columns, sel.fields, sel.predicates, col, k, x)
  {
    hide RowsOf, Matches, IdFirst;
    var narrowed, cols := sel.Where(ColIn(col, ids)), IdFirst(sel.fields, columns, "id");
    var rows := RowsOf(table, narrowed);
    LeafTraverse(cols, rows);
    RowsOfIn(table, narrowed);
    var i :| 0 <= i < |rows| && MapSeq(Projector(cols), rows)[i] == x;
    var r := rows[i];
    assert r in rows && x == Project(cols, r);
    MatchesWhere(sel.predicates, ColIn(col, ids), r);
    LeafIsHeld(sel.fields, columns, r);
    CellOf(cols, col, ids, r);
  }

  lemma CellOf(cols: seq<string>, col: string, ids: seq<int>, r: Row)
    requires col in cols && ColIn(col, ids)(r)
    ensures CellIs(r, col, IntAt(Project(cols, r), col))
  {}

  lemma LogChild(db: Database, sel: Selection, ids: seq<int>, k: int, x: Row)
    requires ValidDb(db) && FetchLeaf(db.usageLogs, db.usageLogColumns, OwnedBy(sel, ids)).Some?
    requires x in FetchLeaf(db.usageLogs, db.usageLogColumns, OwnedBy(sel, ids)).value && IntAt(x, "account_id") == k
    ensures ChildHolds(db.usageLogs, db.usageLogColumns, WithKey(sel.fields), sel.predicates, "account_id", k, x)
  {
    var s := sel.(fields := AppendFieldOnce(sel.fields, "account_id"));
    IdFirstHas(s.fields, db.usageLogColumns, "account_id");
    LeafChild(db.usageLogs, db.usageLogColumns, s, "account_id", ids, k, x);
    hide LeafHolds, Matches, AppendFieldOnce;
    var r :| r in db.usageLogs && Matches(s.predicates, r) && CellIs(r, "account_id", k)
             && LeafHolds(s.fields, db.usageLogColumns, r, x);
    KeyAsked(sel.fields, db.usageLogColumns, AccountGroupWith(None, None), r, x);
  }

  lemma JoinRowsIn(db: Database, sel: Selection, ids: seq<int>, l: Linked)
    requires l in JoinRows(db, sel, ids)
    ensures l in LinkPairs(db.links, db.groups) && Matches(sel.predicates, l.row)
  {
    var f := Filter(Joins(sel, ids), LinkPairs(db.links, db.groups));
    FilterIn(Joins(sel, ids), LinkPairs(db.links, db.groups));
    SortByIn(LinkedOrder(sel.order), f);
    PageIn(sel.limit, sel.offset, SortBy(LinkedOrder(sel.order), f));
  }

  /** An entry of the scanned stream comes from a selected group and a link that joins it. */
  lemma StreamEntry(db: Database, sel: Selection, ids: seq<int>, k: nat) returns (l: Row, g: Row)
    requires ValidDb(db) && GroupStream(db, sel, ids).Some? && k < |GroupStream(db, sel, ids).value|
    ensures var e := GroupStream(db, sel, ids).value[k];
            && l in db.links && CellIs(l, "account_id", e.out) && CellIs(l, "group_id", Id(g))
            && g in db.groups && CellIs(g, "id", Id(g)) && Matches(sel.predicates, g)
            && LeafHolds(sel.fields, db.groupColumns, g, e.row) && Id(e.row) == Id(g)
  {
    hide JoinRows, IdFirst, LinkPairs, Matches;
    var cols, e := IdFirst(sel.fields, db.groupColumns, "id"), JoinRows(db, sel, ids)[k];
    IdFirstHas(sel.fields, db.groupColumns, "id");
    assert e in JoinRows(db, sel, ids);
    JoinRowsIn(db, sel, ids, e);
    LinkPairsIn(db.links, db.groups);
    var m :| 0 <= m < |db.links| && e.out == IntAt(db.links[m], "account_id") && Joined(db.links[m], e.row);
    l, g := db.links[m], e.row;
    LeafIsHeld(sel.fields, db.groupColumns, g);
    assert GroupStream(db, sel, ids).value[k] == Linked(e.out, Project(cols, g));
  }

  lemma GroupChild(db: Database, sel: Selection, ids: seq<int>, k: int, x: Row)
    requires ValidDb(db) && GroupStream(db, sel, ids).Some? && x in GroupsFor(GroupStream(db, sel, ids).value, k)
    ensures GroupHolds(db, sel, k, x)
  {
    hide GroupStream, GroupsFor, LeafHolds, Matches, Id;
    var stream := GroupStream(db, sel, ids).value;
    GroupsForContents(stream, k);
    var i :| 0 <= i < |stream| && stream[i].row == x;
    var j :| 0 <= j < |stream| && stream[j].out == k && Id(stream[j].row) == Id(x);
    var _, g := StreamEntry(db, sel, ids, i);
    var l, other := StreamEntry(db, sel, ids, j);
    SameGroup(db.groups, g, other);
  }

  lemma ProxyChild(db: Database, with: AccountWith, nodes: seq<Row>, k: int, x: Row)
    requires ValidDb(db) && with.proxy.Some? && BatchProxies(db, with, nodes).Some?
    requires x in BatchProxies(db, with, nodes).value && IntAt(x, "id") == k
    ensures ChildHolds(db.proxies, db.proxyColumns, with.proxy.value.fields, with.proxy.value.predicates, "id", k, x)
  {
    IdFirstHas(with.proxy.value.fields, db.proxyColumns, "id");
    LeafChild(db.proxies, db.proxyColumns, with.proxy.value, "id", ForeignKeys(nodes, "proxy_id"), k, x);
  }

  lemma GroupRowChild(db: Database, with: AccountGroupWith, nodes: seq<Row>, k: int, x: Row)
    requires ValidDb(db) && with.group.Some? && BatchGroupRows(db, with, nodes).Some?
    requires x in BatchGroupRows(db, with, nodes).value && IntAt(x, "id") == k
    ensures ChildHolds(db.groups, db.groupColumns, with.group.value.fields, with.group.value.predicates, "id", k, x)
  {
    IdFirstHas(with.group.value.fields, db.groupColumns, "id");
    LeafChild(db.groups, db.groupColumns, with.group.value, "id", PlainKeys(nodes, "group_id"), k, x);
  }

  // ---------------------------------------------------------------- whole loads

  ghost predicate AccountsMadeOf(db: Database, q: AccountPlan) {
    BatchAccounts(db, q).Some? ==>
      var trees, rows := BatchAccounts(db, q).value, RowsOf(db.accounts, q.sel);
      && |trees| == |rows|
      && forall i :: 0 <= i < |rows| ==> AccountMade(db, q.sel.fields, q.with, rows[i], trees[i])
  }

  ghost predicate LinksMadeOf(db: Database, q: AccountGroupPlan) {
    BatchAccountGroups(db, q).Some? ==>
      var trees, rows := BatchAccountGroups(db, q).value, RowsOf(db.links, q.sel);
      && |trees| == |rows|
      && forall i :: 0 <= i < |rows| ==> LinkMade(db, q.sel.fields, q.with, rows[i], trees[i])
  }

  /** A link of the nested load that has the account's id belongs to it. */
  lemma LinkChild(db: Database, c: AccountGroupPlan, ids: seq<int>, k: int, x: AccountGroupTree)
    requires var q := c.(sel := OwnedBy(c.sel, ids));
             LinksMadeOf(db, q) && BatchAccountGroups(db, q).Some? && x in BatchAccountGroups(db, q).value
    requires OwnerOf(x) == k
    ensures LinkComes(db, c, k, x)
  {
    hide RowsOf, Matches, BatchAccountGroups, AppendFieldOnce, LinkHolds;
    var q := c.(sel := OwnedBy(c.sel, ids));
    var trees, rows := BatchAccountGroups(db, q).value, RowsOf(db.links, q.sel);
    RowsOfIn(db.links, q.sel);
    var i :| 0 <= i < |trees| && trees[i] == x;
    var l := rows[i];
    assert l in rows && LinkMade(db, q.sel.fields, q.with, l, x);
    MatchesWhere(c.sel.predicates, ColIn("account_id", ids), l);
    KeyAsked(c.sel.fields, [], c.with, l, x.row);
    LinkKeyHeld(c.sel.fields, c.with, ids, l, x.row);
    assert LinkMade(db, WithKey(c.sel.fields), c.with, l, x);
  }

  lemma LinkKeyHeld(fields: seq<string>, with: AccountGroupWith, ids: seq<int>, l: Row, row: Row)
    requires LinkHolds(WithKey(fields), with, l, row) && ColIn("account_id", ids)(l)
    ensures CellIs(l, "account_id", IntAt(row, "account_id"))
  {
    assert ACCOUNT_GROUP_COLUMNS[0] == "account_id";
    assert fields != [] ==> WithKey(fields)[|fields|] == "account_id";
    assert LinkAsked(WithKey(fields), with, "account_id");
  }

  /** An account of the nested load that has the key is the owner. */
  lemma OwnerChild(db: Database, c: AccountPlan, ids: seq<int>, k: int, x: AccountTree)
    requires var q := c.(sel := c.sel.Where(ColIn("id", ids)));
             AccountsMadeOf(db, q) && BatchAccounts(db, q).Some? && x in BatchAccounts(db, q).value
    requires AccountKey(x) == k
    ensures OwnerComes(db, c, k, x)
  {
    hide RowsOf, Matches, BatchAccounts, AccountHolds;
    var q := c.(sel := c.sel.Where(ColIn("id", ids)));
    var trees, rows := BatchAccounts(db, q).value, RowsOf(db.accounts, q.sel);
    RowsOfIn(db.accounts, q.sel);
    var i :| 0 <= i < |trees| && trees[i] == x;
    var r := rows[i];
    assert r in rows && AccountMade(db, q.sel.fields, q.with, r, x);
    MatchesWhere(c.sel.predicates, ColIn("id", ids), r);
    AccountKeyHeld(c.sel.fields, c.with.proxy.Some?, ids, r, x.row);
  }

  lemma AccountKeyHeld(fields: seq<string>, withProxy: bool, ids: seq<int>, r: Row, row: Row)
    requires AccountHolds(fields, withProxy, r, row) && ColIn("id", ids)(r)
    ensures CellIs(r, "id", IntAt(row, "id"))
  {
    assert ACCOUNT_COLUMNS[0] == "id";
    assert AccountAsked(fields, withProxy, "id");
  }

  /** The k-th tree is stitched from the k-th node, which is the k-th row, projected. */
  lemma StitchedFrom(db: Database, q: AccountPlan, i: nat)
    requires BatchAccounts(db, q).Some? && i < |RowsOf(db.accounts, q.sel)|
    ensures |BatchAccounts(db, q).value| == |AccountNodes(db, q)| == |RowsOf(db.accounts, q.sel)|
    ensures var nodes := AccountNodes(db, q);
            && BatchGroups(db, q.with, nodes).Some? && BatchProxies(db, q.with, nodes).Some?
            && BatchUsageLogs(db, q.with, nodes).Some? && BatchLinks(db, q.with, nodes).Some?
            && BatchAccounts(db, q).value[i]
               == StitchAccount(q.with, BatchGroups(db, q.with, nodes).value, BatchProxies(db, q.with, nodes).value,
                                BatchUsageLogs(db, q.with, nodes).value, BatchLinks(db, q.with, nodes).value, nodes[i])
            && nodes[i] == Project(AccountColumns(q.sel.fields, q.with.proxy.Some?), RowsOf(db.accounts, q.sel)[i])
  {
    hide RowsOf, AccountColumns, Project, BatchGroups, BatchProxies, BatchUsageLogs, BatchLinks, StitchAccount;
  }

  lemma GroupsMade(db: Database, with: AccountWith, nodes: seq<Row>, k: int, x: Row)
    requires ValidDb(db) && BatchGroups(db, with, nodes).Some? && x in GroupsFor(BatchGroups(db, with, nodes).value, k)
    ensures with.groups.Some? && GroupHolds(db, with.groups.value, k, x)
  {
    hide GroupStream, GroupHolds, GroupsFor;
    if with.groups.None? { NoGroups(k); } else { GroupChild(db, with.groups.value, IdsOf(nodes), k, x); }
  }

  lemma ProxyMade(db: Database, with: AccountWith, nodes: seq<Row>, k: int)
    requires ValidDb(db) && with.proxy.Some? && BatchProxies(db, with, nodes).Some?
    ensures var p := LastOf(Filter(KeyIs(ColKey("id"), k), BatchProxies(db, with, nodes).value));
            p.Some? ==> ChildHolds(db.proxies, db.proxyColumns, with.proxy.value.fields, with.proxy.value.predicates,
                                   "id", k, p.value)
  {
    hide BatchProxies, ChildHolds, Filter;
    var p := LastOf(Filter(KeyIs(ColKey("id"), k), BatchProxies(db, with, nodes).value));
    LastOfFilter(KeyIs(ColKey("id"), k), BatchProxies(db, with, nodes).value);
    if p.Some? { ProxyChild(db, with, nodes, k, p.value); }
  }

  lemma LinksMade(db: Database, q: AccountPlan, k: int, x: AccountGroupTree)
    requires BatchLinks(db, q.with, AccountNodes(db, q)).Some?
    requires q.with.accountGroups.Some? ==> LinksMadeOf(db, NestedLinks(db, q))
    requires x in Filter(KeyIs(OwnerOf, k), BatchLinks(db, q.with, AccountNodes(db, q)).value)
    ensures q.with.accountGroups.Some? && LinkComes(db, q.with.accountGroups.value, k, x)
  {
    hide LinksMadeOf, LinkComes, BatchAccountGroups, AccountNodes, Filter;
    FilterIn(KeyIs(OwnerOf, k), BatchLinks(db, q.with, AccountNodes(db, q)).value);
    LinkChild(db, q.with.accountGroups.value, IdsOf(AccountNodes(db, q)), k, x);
  }

  lemma AccountStitchMade(db: Database, q: AccountPlan, i: nat)
    requires ValidDb(db) && BatchAccounts(db, q).Some? && i < |RowsOf(db.accounts, q.sel)|
    requires q.with.accountGroups.Some? ==> LinksMadeOf(db, NestedLinks(db, q))
    ensures |BatchAccounts(db, q).value| == |RowsOf(db.accounts, q.sel)|
    ensures AccountMade(db, q.sel.fields, q.with, RowsOf(db.accounts, q.sel)[i], BatchAccounts(db, q).value[i])
  {
    hide RowsOf, AccountColumns, Project, LinksMadeOf, BatchAccounts, BatchGroups, BatchProxies, BatchUsageLogs;
    hide BatchLinks, GroupsFor, AccountHolds, ChildHolds, GroupHolds, LinkComes, Filter, AccountNodes, LastOf;
    StitchedFrom(db, q, i);
    var nodes, r, with := AccountNodes(db, q), RowsOf(db.accounts, q.sel)[i], q.with;
    var node, t := nodes[i], BatchAccounts(db, q).value[i];
    AccountIsHeld(q.sel.fields, with.proxy.Some?, r);
    AccountNodeKeys(q.sel.fields, with.proxy.Some?, r);
    forall x | x in t.groups ensures with.groups.Some? && GroupHolds(db, with.groups.value, Id(r), x) {
      GroupsMade(db, with, nodes, Id(r), x);
    }
    if t.proxy.Some? { ProxyMade(db, with, nodes, NillableIntAt(node, "proxy_id").value); }
    LogsMade(db, with, nodes, Id(r), t.usageLogs);
    forall x | x in t.accountGroups
      ensures with.accountGroups.Some? && LinkComes(db, with.accountGroups.value, Id(r), x)
    {
      LinksMade(db, q, Id(r), x);
    }
  }

  lemma NoGroups(k: int)
    ensures GroupsFor([], k) == []
  {}

  lemma LogsMade(db: Database, with: AccountWith, nodes: seq<Row>, k: int, logs: seq<Row>)
    requires ValidDb(db) && BatchUsageLogs(db, with, nodes).Some?
    requires logs == Filter(KeyIs(ColKey("account_id"), k), BatchUsageLogs(db, with, nodes).value)
    ensures forall x :: x in logs ==>
              with.usageLogs.Some?
              && ChildHolds(db.usageLogs, db.usageLogColumns, WithKey(with.usageLogs.value.fields),
                            with.usageLogs.value.predicates, "account_id", k, x)
  {
    hide FetchLeaf, ChildHolds;
    FilterIn(KeyIs(ColKey("account_id"), k), BatchUsageLogs(db, with, nodes).value);
    forall x | x in logs
      ensures with.usageLogs.Some?
      ensures ChildHolds(db.usageLogs, db.usageLogColumns, WithKey(with.usageLogs.value.fields),
                         with.usageLogs.value.predicates, "account_id", k, x)
    {
      LogChild(db, with.usageLogs.value, IdsOf(nodes), k, x);
    }
  }

  lemma LinkStitchMade(db: Database, q: AccountGroupPlan, i: nat)
    requires ValidDb(db) && BatchAccountGroups(db, q).Some? && i < |RowsOf(db.links, q.sel)|
    requires q.with.account.Some? ==> AccountsMadeOf(db, NestedOwners(db, q))
    ensures |BatchAccountGroups(db, q).value| == |RowsOf(db.links, q.sel)|
    ensures LinkMade(db, q.sel.fields, q.with, RowsOf(db.links, q.sel)[i], BatchAccountGroups(db, q).value[i])
  {
    hide RowsOf, AccountGroupColumns, Project, AccountsMadeOf, BatchAccounts, FetchLeaf;
    hide LinkHolds, ChildHolds, OwnerComes, Filter;
    var nodes, l, with := AccountGroupNodes(db, q), RowsOf(db.links, q.sel)[i], q.with;
    var node, t := nodes[i], BatchAccountGroups(db, q).value[i];
    assert node == Project(AccountGroupColumns(q.sel.fields, with.account.Some?, with.group.Some?), l);
    LinkIsHeld(q.sel.fields, with, l);
    AccountGroupNodeKeys(q.sel.fields, with.account.Some?, with.group.Some?, l);
    LastOfFilter(KeyIs(AccountKey, IntAt(node, "account_id")), BatchOwners(db, with, nodes).value);
    LastOfFilter(KeyIs(ColKey("id"), IntAt(node, "group_id")), BatchGroupRows(db, with, nodes).value);
    if t.account.Some? {
      OwnerChild(db, with.account.value, PlainKeys(nodes, "account_id"), IntAt(l, "account_id"), t.account.value);
    }
    if t.group.Some? { GroupRowChild(db, with, nodes, IntAt(l, "group_id"), t.group.value); }
  }

  /** For every query: each account of the load is made of its row and of the rows that belong to it, at every
      depth, cell for cell; in the order of the rows. */
  lemma {:induction false} AccountsAreMade(db: Database, q: AccountPlan)
    requires ValidDb(db)
    ensures AccountsMadeOf(db, q)
    decreases q.with
  {
    hide AccountMade, BatchAccounts, RowsOf;
    if BatchAccounts(db, q).Some? {
      if q.with.accountGroups.Some? { LinksAreMade(db, NestedLinks(db, q)); }
      TreeCount(db, q);
      forall i | 0 <= i < |RowsOf(db.accounts, q.sel)| { AccountStitchMade(db, q, i); }
    }
  }

  lemma {:induction false} LinksAreMade(db: Database, q: AccountGroupPlan)
    requires ValidDb(db)
    ensures LinksMadeOf(db, q)
    decreases q.with
  {
    hide LinkMade, BatchAccountGroups, RowsOf;
    if BatchAccountGroups(db, q).Some? {
      if q.with.account.Some? { AccountsAreMade(db, NestedOwners(db, q)); }
      CountLinks(db, q);
      forall i | 0 <= i < |RowsOf(db.links, q.sel)| { LinkStitchMade(db, q, i); }
    }
  }

  lemma CountLinks(db: Database, q: AccountGroupPlan)
    requires BatchAccountGroups(db, q).Some?
    ensures |BatchAccountGroups(db, q).value| == |RowsOf(db.links, q.sel)|
  {
    hide BatchOwners, BatchGroupRows, RowsOf, AccountGroupColumns;
  }
}
