/** A page on the link query of an account load: when every account gets its own page of links. */
module LinkPages {
  import opened Rows
  import opened Schema
  import opened Eager
  import opened Scope
  import opened EagerProof
  import opened KeyFacts
  import opened Shares
  import opened PageFacts

  /** The two keys of a link, its primary key, are never repeated. */
  ghost predicate LinksKeyed(links: seq<Row>) {
    forall i, j :: 0 <= i < j < |links| ==> !SameKeys(links[i], links[j])
  }

  predicate SameKeys(a: Row, b: Row) {
    IntAt(a, "account_id") == IntAt(b, "account_id") && IntAt(a, "group_id") == IntAt(b, "group_id")
  }

  /** The columns the links of an account query are read with. */
  function LinkColumns(c: AccountGroupPlan): seq<string> {
    AccountGroupColumns(OwnedQuery(c.sel).fields, c.with.account.Some?, c.with.group.Some?)
  }

  lemma LinksDistinct(links: seq<Row>)
    requires LinksKeyed(links)
    ensures Distinct(links)
  {}

  lemma LinkColumnsHave(c: AccountGroupPlan)
    ensures "account_id" in LinkColumns(c)
    ensures c.sel.fields == [] || "group_id" in c.sel.fields || c.with.group.Some? ==> "group_id" in LinkColumns(c)
  {
    var all := ACCOUNT_GROUP_COLUMNS;
    assert all[0] == "account_id" && all[1] == "group_id";
  }

  lemma KeysTellApart(cols: seq<string>, links: seq<Row>)
    requires LinksKeyed(links) && "account_id" in cols && "group_id" in cols
    ensures TellsApart(cols, links)
  {
    hide Project, IntAt;
    forall r, t | r in links && t in links && Project(cols, r) == Project(cols, t) ensures r == t {
      ProjectKeeps(cols, "account_id", r);
      ProjectKeeps(cols, "account_id", t);
      ProjectKeeps(cols, "group_id", r);
      ProjectKeeps(cols, "group_id", t);
      assert SameKeys(r, t);
    }
  }

  // ---------------------------------------------------------------- the rows of the links

  function RowOfLink(): AccountGroupTree -> Row { (t: AccountGroupTree) => t.row }

  /** The rows of a link load are those its query returns, projected. */
  lemma LinkLoadRows(db: Database, q: AccountGroupPlan)
    requires BatchAccountGroups(db, q).Some?
    ensures MapSeq(RowOfLink(), BatchAccountGroups(db, q).value) == AccountGroupNodes(db, q)
  {
    hide BatchOwners, BatchGroupRows, RowsOf, AccountGroupColumns, Filter;
    var nodes := AccountGroupNodes(db, q);
    assert |BatchAccountGroups(db, q).value| == |nodes|;
    assert forall i :: 0 <= i < |nodes| ==> BatchAccountGroups(db, q).value[i].row == nodes[i];
  }

  lemma {:induction false} RowsOfShare(id: int, links: seq<AccountGroupTree>)
    ensures MapSeq(RowOfLink(), Filter(KeyIs(OwnerOf, id), links))
         == Filter(KeyIs(ColKey("account_id"), id), MapSeq(RowOfLink(), links))
  {
    hide IntAt;
    var rows := MapSeq(RowOfLink(), links);
    if links == [] {
      assert rows == [];
    } else {
      RowsOfShare(id, links[1..]);
      assert rows[0] == links[0].row && rows[1..] == MapSeq(RowOfLink(), links[1..]);
      assert OwnerOf(links[0]) == ColKey("account_id")(links[0].row);
      assert KeyIs(OwnerOf, id)(links[0]) == KeyIs(ColKey("account_id"), id)(rows[0]);
      var mine := Filter(KeyIs(OwnerOf, id), links);
      if KeyIs(OwnerOf, id)(links[0]) {
        assert mine[0] == links[0] && mine[1..] == Filter(KeyIs(OwnerOf, id), links[1..]);
      }
    }
  }

  lemma TreeLinks(db: Database, q: AccountPlan, k: nat)
    requires q.with.accountGroups.Some? && BatchAccounts(db, q).Some? && k < |BatchAccounts(db, q).value|
    ensures k < |AccountNodes(db, q)| == |RowsOf(db.accounts, q.sel)|
    ensures AccountNodes(db, q)[k]
         == Project(AccountColumns(q.sel.fields, q.with.proxy.Some?), RowsOf(db.accounts, q.sel)[k])
    ensures BatchAccountGroups(db, NestedLinks(db, q)).Some?
    ensures BatchAccounts(db, q).value[k].accountGroups
         == Filter(KeyIs(OwnerOf, Id(AccountNodes(db, q)[k])), BatchAccountGroups(db, NestedLinks(db, q)).value)
  {
    hide BatchGroups, BatchProxies, BatchUsageLogs, BatchAccountGroups, GroupsFor, RowsOf, Filter, AccountColumns;
    hide Project, Id;
  }

  /** The links an account's own query asks for. */
  function OwnLinkQuery(c: AccountGroupPlan, id: int): AccountGroupPlan { c.(sel := OwnedBy(c.sel, [id])) }

  /** Every account of a finished load has links of the rows its own query returns, in that order. */
  ghost predicate LinkRowsAsOwn(db: Database, q: AccountPlan)
    requires q.with.accountGroups.Some? && BatchAccounts(db, q).Some?
  {
    var trees, rows := BatchAccounts(db, q).value, RowsOf(db.accounts, q.sel);
    && |trees| == |rows|
    && forall k :: 0 <= k < |trees| ==>
         MapSeq(RowOfLink(), trees[k].accountGroups)
         == AccountGroupNodes(db, OwnLinkQuery(q.with.accountGroups.value, Id(rows[k])))
  }

  /** One account: the rows of its links are its own query's exactly when its share of the link rows is. */
  lemma LinkRowsPage(db: Database, q: AccountPlan, k: nat)
    requires q.with.accountGroups.Some? && BatchAccounts(db, q).Some? && k < |BatchAccounts(db, q).value|
    requires TellsApart(LinkColumns(q.with.accountGroups.value), db.links)
    ensures k < |RowsOf(db.accounts, q.sel)| == |IdsOf(AccountNodes(db, q))|
    ensures var c, ids := q.with.accountGroups.value, IdsOf(AccountNodes(db, q));
            && ids[k] == Id(RowsOf(db.accounts, q.sel)[k])
            && (MapSeq(RowOfLink(), BatchAccounts(db, q).value[k].accountGroups)
                == AccountGroupNodes(db, OwnLinkQuery(c, ids[k]))
                <==> ShareIsOwn(db.links, c.sel, ids, ids[k]))
  {
    var c, ids := q.with.accountGroups.value, IdsOf(AccountNodes(db, q));
    TreeLinks(db, q, k);
    AccountNodeKeys(q.sel.fields, q.with.proxy.Some?, RowsOf(db.accounts, q.sel)[k]);
    LinkColumnsHave(c);
    hide BatchAccounts, BatchAccountGroups, RowsOf, Filter, Project, AccountColumns, TellsApart, AccountGroupColumns;
    LinkLoadRows(db, NestedLinks(db, q));
    RowsOfShare(ids[k], BatchAccountGroups(db, NestedLinks(db, q)).value);
    ProjectedPage(db.links, LinkColumns(c), OwnedQuery(c.sel), ids, ids[k]);
  }

  /** A page on the link query of an account load, for any limit and offset and whatever is loaded below the links:
      every account has the links of its own page exactly when the page is harmless. */
  lemma LinkPageIsExact(db: Database, q: AccountPlan)
    requires LinksKeyed(db.links) && q.with.accountGroups.Some? && BatchAccounts(db, q).Some?
    requires "group_id" in LinkColumns(q.with.accountGroups.value)
    ensures var sel, ids := q.with.accountGroups.value.sel, IdsOf(AccountNodes(db, q));
            LinkRowsAsOwn(db, q)
            <==> PageHarmless(AllChildren(db.links, OwnedQuery(sel), "account_id", ids), ColKey("account_id"), ids,
                              sel.limit, sel.offset)
  {
    var c, ids := q.with.accountGroups.value, IdsOf(AccountNodes(db, q));
    LinkColumnsHave(c);
    KeysTellApart(LinkColumns(c), db.links);
    LinksDistinct(db.links);
    SharesAreOwn(db.links, c.sel, ids);
    TreeCount(db, q);
    hide BatchAccounts, AccountNodes, AccountGroupNodes, RowsOf, ShareIsOwn, PageHarmless, AllChildren, LinksKeyed;
    hide TellsApart, LinkColumns, Distinct, Id;
    forall k | 0 <= k < |BatchAccounts(db, q).value| { LinkRowsPage(db, q, k); }
  }

  // ---------------------------------------------------------------- with all that is loaded below them

  /** One account: with its own page of rows it has its own page of links, whole. */
  lemma LinkTreesPage(db: Database, q: AccountPlan, k: nat)
    requires ValidDb(db) && q.with.accountGroups.Some? && LinkNestUnpaged(q.with.accountGroups.value.with)
    requires BatchAccounts(db, q).Some? && k < |BatchAccounts(db, q).value|
    requires k < |IdsOf(AccountNodes(db, q))|
    requires ShareIsOwn(db.links, q.with.accountGroups.value.sel, IdsOf(AccountNodes(db, q)),
                        IdsOf(AccountNodes(db, q))[k])
    ensures var own := FetchAccountGroups(db, OwnLinkQuery(q.with.accountGroups.value, IdsOf(AccountNodes(db, q))[k]));
            own.Some? && SameLinks(db, q, BatchAccounts(db, q).value[k].accountGroups, own.value)
  {
    hide BatchAccounts, BatchAccountGroups, RowsOf, Filter, LoadAccountGroup, SameLinkTree, AccountNodes;
    var c, ids, n := q.with.accountGroups.value, IdsOf(AccountNodes(db, q)), NestedLinks(db, q);
    var s := OwnedQuery(c.sel);
    var f, own := AccountGroupLoader(db, s.fields, c.with), ColIn("account_id", [ids[k]]);
    TreeLinks(db, q, k);
    LinksBatchAgrees(db, n);
    AccountGroupKeyed(db, s.fields, c.with);
    var rows := RowsOf(db.links, s.Where(ColIn("account_id", ids)));
    ChildrenCarryKey(db.links, s, "account_id", ids);
    assert FetchAccountGroups(db, n) == Traverse(f, rows);
    forall r | r in rows && f(r).Some? ensures KeyIs(OwnerOf, ids[k])(f(r).value) == own(r) {
      assert ColIn("account_id", [IntAt(r, "account_id")])(r);
    }
    TraverseFilter(f, own, KeyIs(OwnerOf, ids[k]), rows);
    FilterSameLinks(db, n, BatchAccountGroups(db, n).value, FetchAccountGroups(db, n).value, ids[k]);
  }

  /** Every account of a finished load has the links its own query returns, with all below them, up to group order
      where that is not determined. */
  ghost predicate LinksAsOwn(db: Database, q: AccountPlan)
    requires q.with.accountGroups.Some? && BatchAccounts(db, q).Some?
  {
    var trees, rows := BatchAccounts(db, q).value, RowsOf(db.accounts, q.sel);
    && |trees| == |rows|
    && forall k :: 0 <= k < |trees| ==>
         && OwnLinks(db, q.with, rows[k]).Some?
         && SameLinks(db, q, trees[k].accountGroups, OwnLinks(db, q.with, rows[k]).value)
  }

  /** With no page below the links, the same holds of the links whole. */
  lemma LinkTreePageIsExact(db: Database, q: AccountPlan)
    requires ValidDb(db) && LinksKeyed(db.links) && q.with.accountGroups.Some? && BatchAccounts(db, q).Some?
    requires "group_id" in LinkColumns(q.with.accountGroups.value) && LinkNestUnpaged(q.with.accountGroups.value.with)
    ensures var sel, ids := q.with.accountGroups.value.sel, IdsOf(AccountNodes(db, q));
            LinksAsOwn(db, q)
            <==> PageHarmless(AllChildren(db.links, OwnedQuery(sel), "account_id", ids), ColKey("account_id"), ids,
                              sel.limit, sel.offset)
  {
    var c, ids := q.with.accountGroups.value, IdsOf(AccountNodes(db, q));
    var trees, rows := BatchAccounts(db, q).value, RowsOf(db.accounts, q.sel);
    LinkPageIsExact(db, q);
    LinksDistinct(db.links);
    SharesAreOwn(db.links, c.sel, ids);
    TreeCount(db, q);
    LinkColumnsHave(c);
    KeysTellApart(LinkColumns(c), db.links);
    hide BatchAccounts, AccountNodes, AccountGroupNodes, RowsOf, ShareIsOwn, PageHarmless, AllChildren, LinksKeyed;
    hide TellsApart, LinkColumns, Distinct, Id, SameLinks, FetchAccountGroups, LinkNestUnpaged;
    forall k | 0 <= k < |trees|
      ensures OwnLinks(db, q.with, rows[k]) == FetchAccountGroups(db, OwnLinkQuery(c, ids[k])) && ids[k] == Id(rows[k])
      ensures ShareIsOwn(db.links, c.sel, ids, ids[k]) ==>
                && OwnLinks(db, q.with, rows[k]).Some?
                && SameLinks(db, q, trees[k].accountGroups, OwnLinks(db, q.with, rows[k]).value)
      ensures OwnLinks(db, q.with, rows[k]).Some?
              && SameLinks(db, q, trees[k].accountGroups, OwnLinks(db, q.with, rows[k]).value) ==>
                MapSeq(RowOfLink(), trees[k].accountGroups) == AccountGroupNodes(db, OwnLinkQuery(c, Id(rows[k])))
    {
      LinkRowsPage(db, q, k);
      if ShareIsOwn(db.links, c.sel, ids, ids[k]) { LinkTreesPage(db, q, k); }
      if OwnLinks(db, q.with, rows[k]).Some?
         && SameLinks(db, q, trees[k].accountGroups, OwnLinks(db, q.with, rows[k]).value)
      {
        SameLinkRows(db, q, trees[k].accountGroups, OwnLinks(db, q.with, rows[k]).value);
        FetchedLinkRows(db, OwnLinkQuery(c, ids[k]));
      }
    }
  }

  lemma SameLinkRows(db: Database, q: AccountPlan, a: seq<AccountGroupTree>, b: seq<AccountGroupTree>)
    requires q.with.accountGroups.Some? && SameLinks(db, q, a, b)
    ensures MapSeq(RowOfLink(), a) == MapSeq(RowOfLink(), b)
  {
    hide SameLinkTree, NestedLinks, MapSeq;
    var r, s := MapSeq(RowOfLink(), a), MapSeq(RowOfLink(), b);
    forall i | 0 <= i < |a| ensures r[i] == s[i] {
      LinkRowsEqual(db, NestedLinks(db, q), a[i], b[i]);
      assert r[i] == a[i].row && s[i] == b[i].row;
    }
    assert r == s;
  }

  lemma FetchedLinkRows(db: Database, q: AccountGroupPlan)
    requires FetchAccountGroups(db, q).Some?
    ensures MapSeq(RowOfLink(), FetchAccountGroups(db, q).value) == AccountGroupNodes(db, q)
  {
    hide RowsOf, AccountGroupColumns, OwnOwners, OwnGroupRows, Filter, MapSeq, Traverse, Project;
    var rows, trees := RowsOf(db.links, q.sel), FetchAccountGroups(db, q).value;
    TraverseAt(AccountGroupLoader(db, q.sel.fields, q.with), rows);
    var a, b := MapSeq(RowOfLink(), trees), AccountGroupNodes(db, q);
    forall k | 0 <= k < |rows| ensures a[k] == b[k] {
      assert AccountGroupLoader(db, q.sel.fields, q.with)(rows[k]) == Some(trees[k]);
      assert a[k] == trees[k].row;
    }
    assert a == b;
  }
}
