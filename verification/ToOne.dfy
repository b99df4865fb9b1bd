/** What a caller finds behind a loaded to-one edge. */
module ToOne {
  import opened Rows
  import opened Schema
  import opened Eager
  import opened Scope
  import opened EagerProof
  import opened KeyFacts

  datatype EdgeStatus<+T> = Found(value: T) | NotFound | NotLoaded

  /** `ProxyOrErr`. */
  function ProxyOrErr(t: AccountTree): EdgeStatus<Row>
    requires |t.loaded| == 4
  {
    if t.proxy.Some? then Found(t.proxy.value) else if t.loaded[1] then NotFound else NotLoaded
  }

  /** `AccountOrErr`. */
  function AccountOrErr(t: AccountGroupTree): EdgeStatus<AccountTree>
    requires |t.loaded| == 2
  {
    if t.account.Some? then Found(t.account.value) else if t.loaded[0] then NotFound else NotLoaded
  }

  /** `GroupOrErr`. */
  function GroupOrErr(t: AccountGroupTree): EdgeStatus<Row>
    requires |t.loaded| == 2
  {
    if t.group.Some? then Found(t.group.value) else if t.loaded[1] then NotFound else NotLoaded
  }

  /** A row of the table that the key points at and the child query selects. */
  predicate Target(table: seq<Row>, sel: Selection, fk: int, r: Row) {
    r in table && NillableIntAt(r, "id") == Some(fk) && Matches(sel.predicates, r)
  }

  lemma LastOfFilter<T(!new)>(p: T -> bool, s: seq<T>)
    ensures LastOf(Filter(p, s)).None? <==> forall x :: x in s ==> !p(x)
    ensures LastOf(Filter(p, s)).Some? ==> LastOf(Filter(p, s)).value in s && p(LastOf(Filter(p, s)).value)
  {
    FilterIn(p, s);
    var f := Filter(p, s);
    hide Filter;
    if f != [] { assert f[0] in f && f[|f| - 1] in f; }
  }

  lemma InQuery(table: seq<Row>, sel: Selection, ids: seq<int>, r: Row)
    requires sel.Unpaged()
    ensures r in RowsOf(table, sel.Where(ColIn("id", ids)))
       <==> r in table && Matches(sel.predicates, r) && NillableIntAt(r, "id").Some?
            && NillableIntAt(r, "id").value in ids
  {
    RowsOfIn(table, sel.Where(ColIn("id", ids)));
    MatchesWhere(sel.predicates, ColIn("id", ids), r);
  }

  /** Children scanned from an unpaged `id IN (ids)` query: the last one with a requested key is there exactly
      when the key has a target, and is the projection of one. */
  lemma LastChild<T(!new)>(table: seq<Row>, sel: Selection, ids: seq<int>, cols: seq<string>, row: T -> Row,
                           key: T -> int, children: seq<T>, fk: int)
    requires sel.Unpaged() && fk in ids && |children| == |RowsOf(table, sel.Where(ColIn("id", ids)))|
    requires forall i :: 0 <= i < |children| ==>
               && row(children[i]) == Project(cols, RowsOf(table, sel.Where(ColIn("id", ids)))[i])
               && key(children[i]) == Id(RowsOf(table, sel.Where(ColIn("id", ids)))[i])
    ensures var last := LastOf(Filter(KeyIs(key, fk), children));
            && (last.None? <==> forall r :: !Target(table, sel, fk, r))
            && (last.Some? ==> exists r :: Target(table, sel, fk, r) && row(last.value) == Project(cols, r))
  {
    var rows := RowsOf(table, sel.Where(ColIn("id", ids)));
    var mine := KeyIs(key, fk);
    hide RowsOf, Filter;
    LastOfFilter(mine, children);
    forall i | 0 <= i < |rows| ensures mine(children[i]) <==> Target(table, sel, fk, rows[i]) {
      assert rows[i] in rows;
      InQuery(table, sel, ids, rows[i]);
    }
    forall r | Target(table, sel, fk, r) ensures exists i :: 0 <= i < |rows| && rows[i] == r {
      InQuery(table, sel, ids, r);
    }
    assert forall i :: 0 <= i < |children| ==> children[i] in children;
  }

  /** The same for a child query without edges of its own. */
  lemma LeafChild(table: seq<Row>, columns: seq<string>, sel: Selection, ids: seq<int>, fk: int)
    requires sel.Unpaged() && fk in ids && "id" in columns
    requires FetchLeaf(table, columns, sel.Where(ColIn("id", ids))).Some?
    ensures var children := FetchLeaf(table, columns, sel.Where(ColIn("id", ids))).value;
            var last := LastOf(Filter(KeyIs(ColKey("id"), fk), children));
            && (last.None? <==> forall r :: !Target(table, sel, fk, r))
            && (last.Some? ==>
                  exists r :: Target(table, sel, fk, r) && last.value == Project(IdFirst(sel.fields, columns, "id"), r))
  {
    var cols := IdFirst(sel.fields, columns, "id");
    var rows := RowsOf(table, sel.Where(ColIn("id", ids)));
    var children := MapSeq(Projector(cols), rows);
    LeafTraverse(cols, rows);
    IdFirstHas(sel.fields, columns, "id");
    forall i | 0 <= i < |rows| ensures Id(children[i]) == Id(rows[i]) { ProjectKeeps(cols, "id", rows[i]); }
    hide RowsOf, Filter, Project;
    LastChild(table, sel, ids, cols, (r: Row) => r, ColKey("id"), children, fk);
  }

  // ---------------------------------------------------------------- the three edges

  /** What the status of a to-one edge says about the database: never NotLoaded; NotFound exactly when the key
      is NULL or points at no selected row; otherwise the projection of a row the key points at. */
  ghost predicate Tells<T>(status: EdgeStatus<T>, row: T -> Row, table: seq<Row>, sel: Selection, cols: seq<string>,
                           fk: Option<int>)
  {
    && status != NotLoaded
    && (status == NotFound <==> fk.None? || forall r :: !Target(table, sel, fk.value, r))
    && (status.Found? ==>
          fk.Some? && exists r :: Target(table, sel, fk.value, r) && row(status.value) == Project(cols, r))
  }

  function Self(r: Row): Row { r }

  function TreeRow(t: AccountTree): Row { t.row }

  lemma TreeProxy(db: Database, q: AccountPlan, k: nat)
    requires q.with.proxy.Some? && BatchAccounts(db, q).Some? && k < |BatchAccounts(db, q).value|
    ensures k < |AccountNodes(db, q)| == |RowsOf(db.accounts, q.sel)|
    ensures AccountNodes(db, q)[k] == Project(AccountColumns(q.sel.fields, true), RowsOf(db.accounts, q.sel)[k])
    ensures BatchProxies(db, q.with, AccountNodes(db, q)).Some?
    ensures var t, fk := BatchAccounts(db, q).value[k], NillableIntAt(AccountNodes(db, q)[k], "proxy_id");
            && t.loaded == Loaded(q.with)
            && t.proxy == if fk.None? then None
                          else LastOf(Filter(KeyIs(ColKey("id"), fk.value),
                                             BatchProxies(db, q.with, AccountNodes(db, q)).value))
  {
    hide BatchGroups, BatchProxies, BatchUsageLogs, BatchLinks, GroupsFor, RowsOf, Filter, AccountColumns, Project;
    hide NillableIntAt;
  }

  /** After a proxy load, whatever other edges are asked for and however they are paged. */
  lemma ProxyStatus(db: Database, q: AccountPlan, k: nat)
    requires ValidDb(db) && q.with.proxy.Some? && q.with.proxy.value.Unpaged()
    requires BatchAccounts(db, q).Some? && k < |BatchAccounts(db, q).value|
    ensures k < |RowsOf(db.accounts, q.sel)|
    ensures var sel := q.with.proxy.value;
            Tells(ProxyOrErr(BatchAccounts(db, q).value[k]), Self, db.proxies, sel,
                  IdFirst(sel.fields, db.proxyColumns, "id"), NillableIntAt(RowsOf(db.accounts, q.sel)[k], "proxy_id"))
  {
    hide BatchAccounts, AccountNodes, RowsOf, Filter, AccountColumns, FetchLeaf, Target, Project, NillableIntAt;
    TreeProxy(db, q, k);
    var nodes, rows, sel := AccountNodes(db, q), RowsOf(db.accounts, q.sel), q.with.proxy.value;
    AccountNodeKeys(q.sel.fields, true, rows[k]);
    var fk := NillableIntAt(nodes[k], "proxy_id");
    if fk.Some? {
      ForeignKeysHold(nodes, "proxy_id");
      LeafChild(db.proxies, db.proxyColumns, sel, ForeignKeys(nodes, "proxy_id"), fk.value);
    }
  }

  lemma OwnerRows(db: Database, c: AccountPlan)
    requires BatchAccounts(db, c).Some?
    ensures var trees, rows := BatchAccounts(db, c).value, RowsOf(db.accounts, c.sel);
            && |trees| == |rows|
            && forall i :: 0 <= i < |rows| ==>
                 && trees[i].row == Project(AccountColumns(c.sel.fields, c.with.proxy.Some?), rows[i])
                 && AccountKey(trees[i]) == Id(rows[i])
  {
    hide BatchGroups, BatchProxies, BatchUsageLogs, BatchLinks, GroupsFor, RowsOf, Filter, AccountColumns, Project;
    forall r: Row
      ensures Id(Project(AccountColumns(c.sel.fields, c.with.proxy.Some?), r)) == Id(r)
    {
      AccountNodeKeys(c.sel.fields, c.with.proxy.Some?, r);
    }
  }

  lemma LinkParts(db: Database, q: AccountGroupPlan, k: nat)
    requires BatchAccountGroups(db, q).Some? && k < |BatchAccountGroups(db, q).value|
    ensures k < |AccountGroupNodes(db, q)| == |RowsOf(db.links, q.sel)|
    ensures AccountGroupNodes(db, q)[k]
         == Project(AccountGroupColumns(q.sel.fields, q.with.account.Some?, q.with.group.Some?),
                    RowsOf(db.links, q.sel)[k])
    ensures BatchOwners(db, q.with, AccountGroupNodes(db, q)).Some?
    ensures BatchGroupRows(db, q.with, AccountGroupNodes(db, q)).Some?
    ensures var nodes := AccountGroupNodes(db, q);
            BatchAccountGroups(db, q).value[k]
            == StitchAccountGroup(q.with, BatchOwners(db, q.with, nodes).value, BatchGroupRows(db, q.with, nodes).value,
                                  nodes[k])
  {
    hide BatchOwners, BatchGroupRows, RowsOf, AccountGroupColumns, StitchAccountGroup, Project;
  }

  /** After an account load of a link, whatever the account query asks for below. */
  lemma AccountStatus(db: Database, q: AccountGroupPlan, k: nat)
    requires ValidDb(db) && q.with.account.Some? && q.with.account.value.sel.Unpaged()
    requires BatchAccountGroups(db, q).Some? && k < |BatchAccountGroups(db, q).value|
    ensures k < |RowsOf(db.links, q.sel)|
    ensures var c := q.with.account.value;
            Tells(AccountOrErr(BatchAccountGroups(db, q).value[k]), TreeRow, db.accounts, c.sel,
                  AccountColumns(c.sel.fields, c.with.proxy.Some?),
                  Some(IntAt(RowsOf(db.links, q.sel)[k], "account_id")))
  {
    hide BatchAccountGroups, AccountGroupNodes, BatchAccounts, BatchGroupRows, RowsOf, Filter, AccountColumns,
      AccountGroupColumns, Target, Project, IntAt;
    LinkParts(db, q, k);
    var nodes, rows, c := AccountGroupNodes(db, q), RowsOf(db.links, q.sel), q.with.account.value;
    AccountGroupNodeKeys(q.sel.fields, true, q.with.group.Some?, rows[k]);
    PlainKeysHold(nodes, "account_id");
    var n := NestedOwners(db, q);
    OwnerRows(db, n);
    LastChild(db.accounts, c.sel, PlainKeys(nodes, "account_id"), AccountColumns(c.sel.fields, c.with.proxy.Some?),
              TreeRow, AccountKey, BatchAccounts(db, n).value, IntAt(nodes[k], "account_id"));
  }

  /** After a group load of a link. */
  lemma GroupStatus(db: Database, q: AccountGroupPlan, k: nat)
    requires ValidDb(db) && q.with.group.Some? && q.with.group.value.Unpaged()
    requires BatchAccountGroups(db, q).Some? && k < |BatchAccountGroups(db, q).value|
    ensures k < |RowsOf(db.links, q.sel)|
    ensures var sel := q.with.group.value;
            Tells(GroupOrErr(BatchAccountGroups(db, q).value[k]), Self, db.groups, sel,
                  IdFirst(sel.fields, db.groupColumns, "id"), Some(IntAt(RowsOf(db.links, q.sel)[k], "group_id")))
  {
    hide BatchAccountGroups, AccountGroupNodes, BatchOwners, RowsOf, Filter, AccountGroupColumns, FetchLeaf, Target,
      Project, IntAt;
    LinkParts(db, q, k);
    var nodes, rows, sel := AccountGroupNodes(db, q), RowsOf(db.links, q.sel), q.with.group.value;
    AccountGroupNodeKeys(q.sel.fields, q.with.account.Some?, true, rows[k]);
    PlainKeysHold(nodes, "group_id");
    LeafChild(db.groups, db.groupColumns, sel, PlainKeys(nodes, "group_id"), IntAt(nodes[k], "group_id"));
  }
}
