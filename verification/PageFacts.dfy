/** When a page on a to-many child query, which the code applies to the children of all parents together, gives
    every parent its own page. */
module PageFacts {
  import opened Rows
  import opened Schema
  import opened Eager
  import opened Scope
  import opened ManyToMany
  import opened EagerProof
  import opened KeyFacts
  import opened Shares

  // ---------------------------------------------------------------- all children, and their page

  /** The paged IN query gives every parent what its own paged query would give. */
  ghost predicate PageAgrees(table: seq<Row>, sel: Selection, col: string, ids: seq<int>) {
    forall id :: id in ids ==>
      Filter(ColIn(col, [id]), RowsOf(table, sel.Where(ColIn(col, ids)))) == RowsOf(table, sel.Where(ColIn(col, [id])))
  }

  function Unlimited(sel: Selection): Selection { sel.(limit := None, offset := 0) }

  /** All children, in query order, no page applied. */
  function AllChildren(table: seq<Row>, sel: Selection, col: string, ids: seq<int>): seq<Row> {
    RowsOf(table, Unlimited(sel).Where(ColIn(col, ids)))
  }

  lemma PagedRows(table: seq<Row>, sel: Selection, p: Row -> bool)
    ensures RowsOf(table, sel.Where(p)) == Page(sel.limit, sel.offset, RowsOf(table, Unlimited(sel).Where(p)))
  {
    RowsOfUnpaged(table, Unlimited(sel).Where(p));
  }

  /** Rows that carry a key of the list: the filter by column is the filter by key. */
  lemma SharesByKey(col: string, ids: seq<int>, id: int, rows: seq<Row>)
    requires forall r :: r in rows ==> ColIn(col, ids)(r)
    ensures Filter(ColIn(col, [id]), rows) == ShareOf(ColKey(col), id, rows)
  {
    FilterEq(ColIn(col, [id]), KeyIs(ColKey(col), id), rows);
  }

  lemma ChildrenCarryKey(table: seq<Row>, sel: Selection, col: string, ids: seq<int>)
    ensures forall r :: r in RowsOf(table, sel.Where(ColIn(col, ids))) ==> r in table && ColIn(col, ids)(r)
  {
    RowsOfIn(table, sel.Where(ColIn(col, ids)));
    forall r | r in RowsOf(table, sel.Where(ColIn(col, ids))) ensures ColIn(col, ids)(r) {
      MatchesWhere(sel.predicates, ColIn(col, ids), r);
    }
  }

  /** A query repeats no row when its table does not. */
  lemma QueryDistinct(table: seq<Row>, sel: Selection)
    requires Distinct(table) && sel.Unpaged()
    ensures Distinct(RowsOf(table, sel))
  {
    RowsOfUnpaged(table, sel);
    FilterDistinct(MatchesAll(sel.predicates), table);
    SortKeepsDistinct(sel.order, Filter(MatchesAll(sel.predicates), table));
  }

  lemma IdsDistinct(table: seq<Row>)
    requires DistinctIds(table)
    ensures Distinct(table)
  {}

  /** One parent: its share of the paged query is its own paged query exactly when its share is paged. */
  lemma OnePage(table: seq<Row>, sel: Selection, col: string, ids: seq<int>, id: int)
    requires id in ids
    ensures Filter(ColIn(col, [id]), RowsOf(table, sel.Where(ColIn(col, ids))))
            == RowsOf(table, sel.Where(ColIn(col, [id])))
            <==> SharePaged(AllChildren(table, sel, col, ids), ColKey(col), id, sel.limit, sel.offset)
  {
    var all := AllChildren(table, sel, col, ids);
    ChildrenCarryKey(table, Unlimited(sel), col, ids);
    ChildrenCarryKey(table, sel, col, ids);
    PagedRows(table, sel, ColIn(col, ids));
    PagedRows(table, sel, ColIn(col, [id]));
    ScopeRows(table, Unlimited(sel), col, ids, id);
    hide RowsOf, Filter, Page, ColIn;
    SharesByKey(col, ids, id, all);
    SharesByKey(col, ids, id, RowsOf(table, sel.Where(ColIn(col, ids))));
  }

  /** A page on a to-many child query, which the code applies to the children of all parents together, gives every
      parent its own page exactly when it is empty anyway, takes everything, only one parent has children, or it ends
      within one parent's and no other has more than are skipped; for an offset, over a table without repeated rows. */
  lemma PageIsExact(table: seq<Row>, sel: Selection, col: string, ids: seq<int>)
    requires sel.offset > 0 ==> Distinct(table)
    ensures PageAgrees(table, sel, col, ids)
            <==> PageHarmless(AllChildren(table, sel, col, ids), ColKey(col), ids, sel.limit, sel.offset)
  {
    var all := AllChildren(table, sel, col, ids);
    ChildrenCarryKey(table, Unlimited(sel), col, ids);
    if sel.offset > 0 { QueryDistinct(table, Unlimited(sel).Where(ColIn(col, ids))); }
    assert Owned(all, ColKey(col), ids);
    PageExact(all, ColKey(col), ids, sel.limit, sel.offset);
    hide RowsOf, Filter, PageHarmless, AllChildren, SharePaged;
    forall id | id in ids { OnePage(table, sel, col, ids, id); }
  }

  /** In particular for a limit alone, over any table. */
  lemma LimitIsExact(table: seq<Row>, sel: Selection, col: string, ids: seq<int>)
    requires sel.limit.Some? && sel.offset == 0
    ensures var all := AllChildren(table, sel, col, ids);
            PageAgrees(table, sel, col, ids)
            <==> |all| <= sel.limit.value || sel.limit.value == 0 || OneFamily(all, ColKey(col), ids)
  {
    PageIsExact(table, sel, col, ids);
    ChildrenCarryKey(table, Unlimited(sel), col, ids);
    LimitHarmless(AllChildren(table, sel, col, ids), ColKey(col), ids, sel.limit.value);
  }

  // ---------------------------------------------------------------- on the stitched edge

  lemma {:induction false} ProjectedShare(cols: seq<string>, col: string, ids: seq<int>, id: int, rows: seq<Row>)
    requires col in cols && forall r :: r in rows ==> ColIn(col, ids)(r)
    ensures Filter(KeyIs(ColKey(col), id), MapSeq(Projector(cols), rows))
         == MapSeq(Projector(cols), Filter(ColIn(col, [id]), rows))
  {
    hide Project;
    if rows != [] {
      ProjectedShare(cols, col, ids, id, rows[1..]);
      ProjectKeeps(cols, col, rows[0]);
      assert MapSeq(Projector(cols), rows)[1..] == MapSeq(Projector(cols), rows[1..]);
      assert rows[0] in rows;
    }
  }

  /** The selected columns tell the rows of the table apart. */
  ghost predicate TellsApart(cols: seq<string>, table: seq<Row>) {
    forall r, t :: r in table && t in table && Project(cols, r) == Project(cols, t) ==> r == t
  }

  /** Then projecting loses no difference. */
  lemma ProjectedEqual(table: seq<Row>, cols: seq<string>, a: seq<Row>, b: seq<Row>)
    requires TellsApart(cols, table) && (forall r :: r in a || r in b ==> r in table)
    ensures MapSeq(Projector(cols), a) == MapSeq(Projector(cols), b) <==> a == b
  {
    hide Project;
    var p, q := MapSeq(Projector(cols), a), MapSeq(Projector(cols), b);
    if p == q {
      forall i | 0 <= i < |a| ensures a[i] == b[i] {
        assert p[i] == q[i];
        assert a[i] in table && b[i] in table;
      }
    }
  }

  lemma IdTellsApart(cols: seq<string>, table: seq<Row>)
    requires DistinctIds(table) && "id" in cols
    ensures TellsApart(cols, table)
  {
    hide Project, Id, DistinctIds;
    forall r, t | r in table && t in table && Project(cols, r) == Project(cols, t) ensures r == t {
      ProjectKeepsId(cols, r);
      ProjectKeepsId(cols, t);
      SameGroup(table, r, t);
    }
  }

  /** One parent: the projections of its share and of its own query are equal exactly when the rows are. */
  lemma ProjectedPage(table: seq<Row>, cols: seq<string>, sel: Selection, ids: seq<int>, id: int)
    requires TellsApart(cols, table) && "account_id" in cols
    ensures var rows := RowsOf(table, sel.Where(ColIn("account_id", ids)));
            var mine := RowsOf(table, sel.Where(ColIn("account_id", [id])));
            Filter(KeyIs(ColKey("account_id"), id), MapSeq(Projector(cols), rows)) == MapSeq(Projector(cols), mine)
            <==> Filter(ColIn("account_id", [id]), rows) == mine
  {
    var rows := RowsOf(table, sel.Where(ColIn("account_id", ids)));
    var mine := RowsOf(table, sel.Where(ColIn("account_id", [id])));
    ChildrenCarryKey(table, sel, "account_id", ids);
    ChildrenCarryKey(table, sel, "account_id", [id]);
    ProjectedShare(cols, "account_id", ids, id, rows);
    FilterIn(ColIn("account_id", [id]), rows);
    hide RowsOf, Filter, Project, TellsApart;
    ProjectedEqual(table, cols, Filter(ColIn("account_id", [id]), rows), mine);
  }

  /** The child query of a to-many edge, before the parents' ids are added. */
  function OwnedQuery(sel: Selection): Selection { sel.(fields := AppendFieldOnce(sel.fields, "account_id")) }

  /** One parent's share of the rows is what its own query returns. */
  ghost predicate ShareIsOwn(table: seq<Row>, sel: Selection, ids: seq<int>, id: int) {
    Filter(ColIn("account_id", [id]), RowsOf(table, OwnedQuery(sel).Where(ColIn("account_id", ids))))
    == RowsOf(table, OwnedQuery(sel).Where(ColIn("account_id", [id])))
  }

  lemma SharesAreOwn(table: seq<Row>, sel: Selection, ids: seq<int>)
    requires sel.offset > 0 ==> Distinct(table)
    ensures (forall k :: 0 <= k < |ids| ==> ShareIsOwn(table, sel, ids, ids[k]))
            <==> PageHarmless(AllChildren(table, OwnedQuery(sel), "account_id", ids), ColKey("account_id"), ids,
                              sel.limit, sel.offset)
  {
    PageIsExact(table, OwnedQuery(sel), "account_id", ids);
    hide RowsOf, Filter, AllChildren, PageHarmless, Distinct;
    forall id ensures id in ids <==> exists k :: 0 <= k < |ids| && ids[k] == id {}
    assert PageAgrees(table, OwnedQuery(sel), "account_id", ids)
           <==> forall id :: id in ids ==> ShareIsOwn(table, sel, ids, id);
  }

  /** One parent: its stitched list is what its own query returns exactly when the rows agree. */
  lemma StitchedPage(db: Database, sel: Selection, ids: seq<int>, id: int)
    requires ValidDb(db) && DistinctIds(db.usageLogs)
    requires FetchLeaf(db.usageLogs, db.usageLogColumns, OwnedBy(sel, ids)).Some?
    ensures var batch := FetchLeaf(db.usageLogs, db.usageLogColumns, OwnedBy(sel, ids)).value;
            FetchLeaf(db.usageLogs, db.usageLogColumns, OwnedBy(sel, [id]))
              == Some(Filter(KeyIs(ColKey("account_id"), id), batch))
            <==> ShareIsOwn(db.usageLogs, sel, ids, id)
  {
    var s := OwnedQuery(sel);
    var cols := IdFirst(s.fields, db.usageLogColumns, "id");
    IdFirstHas(s.fields, db.usageLogColumns, "account_id");
    IdFirstHas(s.fields, db.usageLogColumns, "id");
    LeafTraverse(cols, RowsOf(db.usageLogs, s.Where(ColIn("account_id", ids))));
    LeafTraverse(cols, RowsOf(db.usageLogs, s.Where(ColIn("account_id", [id]))));
    hide RowsOf, Filter, Project, DistinctIds, IdFirst, TellsApart;
    IdTellsApart(cols, db.usageLogs);
    ProjectedPage(db.usageLogs, cols, s, ids, id);
  }

  lemma TreeLogs(db: Database, q: AccountPlan, k: nat)
    requires q.with.usageLogs.Some? && BatchAccounts(db, q).Some? && k < |BatchAccounts(db, q).value|
    ensures k < |AccountNodes(db, q)| == |RowsOf(db.accounts, q.sel)|
    ensures AccountNodes(db, q)[k]
         == Project(AccountColumns(q.sel.fields, q.with.proxy.Some?), RowsOf(db.accounts, q.sel)[k])
    ensures BatchUsageLogs(db, q.with, AccountNodes(db, q)).Some?
    ensures BatchAccounts(db, q).value[k].usageLogs
         == Filter(KeyIs(ColKey("account_id"), Id(AccountNodes(db, q)[k])),
                   BatchUsageLogs(db, q.with, AccountNodes(db, q)).value)
  {
    hide BatchGroups, BatchProxies, BatchUsageLogs, BatchLinks, GroupsFor, RowsOf, Filter, AccountColumns, Project, Id;
  }

  /** Every account of a finished load has the usage logs its own query returns, in that order. */
  ghost predicate LogsAsOwn(db: Database, q: AccountPlan)
    requires BatchAccounts(db, q).Some?
  {
    |BatchAccounts(db, q).value| == |RowsOf(db.accounts, q.sel)|
    && forall k :: 0 <= k < |BatchAccounts(db, q).value| ==>
         OwnUsageLogs(db, q.with, RowsOf(db.accounts, q.sel)[k]) == Some(BatchAccounts(db, q).value[k].usageLogs)
  }

  /** A page on the usage-log query of an account load, for any limit and offset, is each account's own page exactly
      when it is harmless. */
  lemma UsageLogPageIsExact(db: Database, q: AccountPlan)
    requires ValidDb(db) && DistinctIds(db.usageLogs) && q.with.usageLogs.Some?
    requires BatchAccounts(db, q).Some?
    ensures var sel, ids := q.with.usageLogs.value, IdsOf(AccountNodes(db, q));
            LogsAsOwn(db, q)
            <==> PageHarmless(AllChildren(db.usageLogs, OwnedQuery(sel), "account_id", ids), ColKey("account_id"), ids,
                              sel.limit, sel.offset)
  {
    var nodes, sel := AccountNodes(db, q), q.with.usageLogs.value;
    var ids, rows := IdsOf(nodes), RowsOf(db.accounts, q.sel);
    IdsDistinct(db.usageLogs);
    SharesAreOwn(db.usageLogs, sel, ids);
    TreeCount(db, q);
    forall k | 0 <= k < |nodes|
      ensures Id(nodes[k]) == Id(rows[k]) && ids[k] == Id(nodes[k])
      ensures OwnUsageLogs(db, q.with, rows[k]) == Some(BatchAccounts(db, q).value[k].usageLogs)
              <==> ShareIsOwn(db.usageLogs, sel, ids, ids[k])
    {
      TreeLogs(db, q, k);
      AccountNodeKeys(q.sel.fields, q.with.proxy.Some?, rows[k]);
      StitchedPage(db, sel, ids, ids[k]);
    }
    hide PageHarmless, BatchAccounts, AccountNodes, OwnUsageLogs, RowsOf, ShareIsOwn, AllChildren, DistinctIds;
  }

  lemma TreeCount(db: Database, q: AccountPlan)
    requires BatchAccounts(db, q).Some?
    ensures |BatchAccounts(db, q).value| == |AccountNodes(db, q)| == |RowsOf(db.accounts, q.sel)|
  {
    hide BatchGroups, BatchProxies, BatchUsageLogs, BatchLinks, RowsOf, AccountColumns;
  }
}
