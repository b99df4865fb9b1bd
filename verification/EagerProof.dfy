/** Main theorem: batched eager loading is the one-parent-at-a-time fetch. */
module EagerProof {
  import opened Rows
  import opened Schema
  import opened Eager
  import opened Scope
  import opened ManyToMany

  /** No child query of the nest is paged. */
  ghost predicate NestUnpaged(with: AccountWith)
    decreases with
  {
    && (with.groups.Some? ==> with.groups.value.Unpaged())
    && (with.proxy.Some? ==> with.proxy.value.Unpaged())
    && (with.usageLogs.Some? ==> with.usageLogs.value.Unpaged())
    && (with.accountGroups.Some? ==>
          with.accountGroups.value.sel.Unpaged() && LinkNestUnpaged(with.accountGroups.value.with))
  }

  ghost predicate LinkNestUnpaged(with: AccountGroupWith)
    decreases with
  {
    && (with.group.Some? ==> with.group.value.Unpaged())
    && (with.account.Some? ==> with.account.value.sel.Unpaged() && NestUnpaged(with.account.value.with))
  }

  /** The nested link query, narrowed to all parents of an account query. */
  function NestedLinks(db: Database, q: AccountPlan): AccountGroupPlan
    requires q.with.accountGroups.Some?
  {
    var c := q.with.accountGroups.value;
    c.(sel := OwnedBy(c.sel, IdsOf(AccountNodes(db, q))))
  }

  /** The nested account query, narrowed to the owners of all links of a link query. */
  function NestedOwners(db: Database, q: AccountGroupPlan): AccountPlan
    requires q.with.account.Some?
  {
    var c := q.with.account.value;
    c.(sel := c.sel.Where(ColIn("id", PlainKeys(AccountGroupNodes(db, q), "account_id"))))
  }

  // ---------------------------------------------------------------- trees up to the order of groups

  /** The same groups, each once, in whatever order. */
  ghost predicate SameGroups(a: seq<Row>, b: seq<Row>) {
    DistinctIds(a) && DistinctIds(b) && forall g :: g in a <==> g in b
  }

  /** The order of this level's group lists is determined: no groups are asked for, there is at most one
      parent, or the child query's order tells the groups it selects apart. */
  ghost predicate GroupsSettled(db: Database, q: AccountPlan) {
    q.with.groups.None? || |AccountNodes(db, q)| <= 1 || Separates(db.groups, q.with.groups.value)
  }

  /** Equal trees, except that where the order of a group list is not determined it may differ. */
  ghost predicate SameTree(db: Database, q: AccountPlan, a: AccountTree, b: AccountTree)
    decreases q.with, 1
  {
    && a.row == b.row && a.loaded == b.loaded && a.proxy == b.proxy && a.usageLogs == b.usageLogs
    && SameGroups(a.groups, b.groups) && (GroupsSettled(db, q) ==> a.groups == b.groups)
    && SameLinks(db, q, a.accountGroups, b.accountGroups)
  }

  ghost predicate SameLinks(db: Database, q: AccountPlan, a: seq<AccountGroupTree>, b: seq<AccountGroupTree>)
    decreases q.with, 0
  {
    if q.with.accountGroups.None? then a == b
    else |a| == |b| && forall i :: 0 <= i < |a| ==> SameLinkTree(db, NestedLinks(db, q), a[i], b[i])
  }

  ghost predicate SameLinkTree(db: Database, q: AccountGroupPlan, a: AccountGroupTree, b: AccountGroupTree)
    decreases q.with, 1
  {
    a.row == b.row && a.loaded == b.loaded && a.group == b.group && SameOwner(db, q, a.account, b.account)
  }

  ghost predicate SameOwner(db: Database, q: AccountGroupPlan, a: Option<AccountTree>, b: Option<AccountTree>)
    decreases q.with, 0
  {
    if q.with.account.None? then a == b
    else a.Some? == b.Some? && (a.Some? ==> SameTree(db, NestedOwners(db, q), a.value, b.value))
  }

  /** The batched load and the one-parent-at-a-time fetch both fail, or return the same trees. */
  ghost predicate AccountsAgree(db: Database, q: AccountPlan) {
    var batch, fetch := BatchAccounts(db, q), FetchAccounts(db, q);
    && batch.None? == fetch.None?
    && (batch.Some? ==>
          && |batch.value| == |fetch.value|
          && forall i :: 0 <= i < |batch.value| ==> SameTree(db, q, batch.value[i], fetch.value[i]))
  }

  ghost predicate LinksAgree(db: Database, q: AccountGroupPlan) {
    var batch, fetch := BatchAccountGroups(db, q), FetchAccountGroups(db, q);
    && batch.None? == fetch.None?
    && (batch.Some? ==>
          && |batch.value| == |fetch.value|
          && forall i :: 0 <= i < |batch.value| ==> SameLinkTree(db, q, batch.value[i], fetch.value[i]))
  }

  // ---------------------------------------------------------------- keys survive projection

  lemma IdFirstHas(fields: seq<string>, columns: seq<string>, c: string)
    requires c in columns && (fields == [] || c == "id" || c in fields)
    ensures c in IdFirst(fields, columns, "id")
  {
    WithoutKeeps(fields, "id");
  }

  lemma OwnedByValid(sel: Selection, ids: seq<int>, columns: seq<string>)
    requires "account_id" in columns
    ensures ValidFields(OwnedBy(sel, ids).fields, columns) <==> ValidFields(sel.fields, columns)
  {
    var f := sel.fields;
    if f != [] && "account_id" !in f {
      assert forall k :: 0 <= k < |f| ==> (f + ["account_id"])[k] == f[k];
    }
  }

  lemma AccountNodeKeys(fields: seq<string>, withProxy: bool, r: Row)
    ensures var node := Project(AccountColumns(fields, withProxy), r);
            Id(node) == Id(r) && (withProxy ==> NillableIntAt(node, "proxy_id") == NillableIntAt(r, "proxy_id"))
  {
    AccountColumnsShape(fields, withProxy);
    assert AccountColumns(fields, withProxy)[0] == "id";
  }

  lemma AccountGroupNodeKeys(fields: seq<string>, withAccount: bool, withGroup: bool, r: Row)
    ensures var node := Project(AccountGroupColumns(fields, withAccount, withGroup), r);
            && (withAccount ==> IntAt(node, "account_id") == IntAt(r, "account_id"))
            && (withGroup ==> IntAt(node, "group_id") == IntAt(r, "group_id"))
  {
    assert ACCOUNT_GROUP_COLUMNS[0] == "account_id" && ACCOUNT_GROUP_COLUMNS[1] == "group_id";
  }

  lemma {:induction false} ForeignKeysHold(nodes: seq<Row>, col: string)
    ensures forall k :: k in ForeignKeys(nodes, col) <==>
              exists i :: 0 <= i < |nodes| && NillableIntAt(nodes[i], col) == Some(k)
  {
    if nodes != [] {
      var n := |nodes| - 1;
      ForeignKeysHold(nodes[..n], col);
      forall k ensures k in ForeignKeys(nodes, col) <==>
              exists i :: 0 <= i < |nodes| && NillableIntAt(nodes[i], col) == Some(k)
      {
        if i :| 0 <= i < |nodes| && NillableIntAt(nodes[i], col) == Some(k) && i < n {
          assert nodes[..n][i] == nodes[i];
        }
        if i :| 0 <= i < |nodes[..n]| && NillableIntAt(nodes[..n][i], col) == Some(k) {
          assert nodes[..n][i] == nodes[i];
        }
      }
    }
  }

  lemma {:induction false} PlainKeysHold(nodes: seq<Row>, col: string)
    ensures forall i :: 0 <= i < |nodes| ==> IntAt(nodes[i], col) in PlainKeys(nodes, col)
    ensures forall k :: k in PlainKeys(nodes, col) ==> exists i :: 0 <= i < |nodes| && IntAt(nodes[i], col) == k
  {
    if nodes != [] {
      var n := |nodes| - 1;
      PlainKeysHold(nodes[..n], col);
      forall i | 0 <= i < |nodes| ensures IntAt(nodes[i], col) in PlainKeys(nodes, col) {
        if i < n { assert nodes[..n][i] == nodes[i]; }
      }
      forall k | k in PlainKeys(nodes, col) ensures exists i :: 0 <= i < |nodes| && IntAt(nodes[i], col) == k {
        if k in PlainKeys(nodes[..n], col) {
          var i :| 0 <= i < |nodes[..n]| && IntAt(nodes[..n][i], col) == k;
          assert nodes[i] == nodes[..n][i];
        } else {
          assert IntAt(nodes[n], col) == k;
        }
      }
    }
  }

  // ---------------------------------------------------------------- leaf edges

  /** A leaf child query: batched over ids, then one parent's share. */
  lemma LeafEdge(table: seq<Row>, columns: seq<string>, sel: Selection, col: string, ids: seq<int>, id: int)
    requires sel.Unpaged() && id in ids && col in IdFirst(sel.fields, columns, "id")
    ensures var batch, mine := FetchLeaf(table, columns, sel.Where(ColIn(col, ids))),
                               FetchLeaf(table, columns, sel.Where(ColIn(col, [id])));
            && batch.None? == mine.None?
            && (batch.Some? ==> mine == Some(Filter(KeyIs(ColKey(col), id), batch.value)))
  {
    var cols := IdFirst(sel.fields, columns, "id");
    LeafKeyed(cols, col);
    TraverseFails(LeafLoader(cols), RowsOf(table, sel.Where(ColIn(col, ids))));
    ShareOfOne(LeafLoader(cols), table, sel, col, ids, id, ColKey(col));
  }

  lemma MappedMembers(f: Row -> Row, a: seq<Row>, b: seq<Row>)
    requires forall g :: g in a <==> g in b
    ensures forall g :: g in MapSeq(f, a) <==> g in MapSeq(f, b)
  {
    forall g | g in MapSeq(f, a) ensures g in MapSeq(f, b) { MappedMember(f, a, b, g); }
    forall g | g in MapSeq(f, b) ensures g in MapSeq(f, a) { MappedMember(f, b, a, g); }
  }

  lemma MappedMember(f: Row -> Row, a: seq<Row>, b: seq<Row>, g: Row)
    requires g in MapSeq(f, a) && forall x :: x in a ==> x in b
    ensures g in MapSeq(f, b)
  {
    var i :| 0 <= i < |a| && MapSeq(f, a)[i] == g;
    assert a[i] in b;
    var j :| 0 <= j < |b| && b[j] == a[i];
    assert MapSeq(f, b)[j] == g;
  }

  lemma SameMembers(db: Database, sel: Selection, ids: seq<int>, id: int)
    requires ValidDb(db) && sel.Unpaged() && id in ids
    ensures forall g :: g in GroupsFor(JoinRows(db, sel, ids), id) <==> g in GroupsFor(JoinRows(db, sel, [id]), id)
    ensures |ids| <= 1 || Separates(db.groups, sel) ==>
              GroupsFor(JoinRows(db, sel, ids), id) == GroupsFor(JoinRows(db, sel, [id]), id)
  {
    hide JoinRows, GroupsFor, Separates;
    forall g: Row
      ensures g in GroupsFor(JoinRows(db, sel, ids), id) <==> g in GroupsFor(JoinRows(db, sel, [id]), id)
    {
      GroupsForMember(db, sel, ids, id, g);
      GroupsForMember(db, sel, [id], id, g);
    }
    if Separates(db.groups, sel) { BatchedGroupsAgree(db, sel, ids, id); }
    if |ids| <= 1 { assert ids == [id]; }
  }

  lemma ProjectedSame(cols: seq<string>, a: seq<Linked>, b: seq<Linked>, id: int)
    requires "id" in cols && forall g :: g in GroupsFor(a, id) <==> g in GroupsFor(b, id)
    ensures var p := GroupsFor(MapSeq(LinkedProjector(cols), a), id);
            var q := GroupsFor(MapSeq(LinkedProjector(cols), b), id);
            SameGroups(p, q) && (GroupsFor(a, id) == GroupsFor(b, id) ==> p == q)
  {
    hide GroupsFor, MapSeq;
    GroupsForProjected(cols, a, id);
    GroupsForProjected(cols, b, id);
    MappedMembers(Projector(cols), GroupsFor(a, id), GroupsFor(b, id));
    GroupsForContents(MapSeq(LinkedProjector(cols), a), id);
    GroupsForContents(MapSeq(LinkedProjector(cols), b), id);
  }

  /** The batched stream and a parent's own give it the same groups, for every order; in the same order when
      the order separates them or the parent is the only one. */
  lemma GroupsEdge(db: Database, sel: Selection, ids: seq<int>, id: int)
    requires ValidDb(db) && sel.Unpaged() && id in ids
    ensures var batch, mine := GroupStream(db, sel, ids), GroupStream(db, sel, [id]);
            && batch.None? == mine.None?
            && (batch.Some? ==>
                  && SameGroups(GroupsFor(batch.value, id), GroupsFor(mine.value, id))
                  && (|ids| <= 1 || Separates(db.groups, sel) ==>
                        GroupsFor(batch.value, id) == GroupsFor(mine.value, id)))
  {
    hide JoinRows, GroupsFor, SameGroups, Separates;
    if ValidFields(sel.fields, db.groupColumns) {
      IdFirstHas(sel.fields, db.groupColumns, "id");
      SameMembers(db, sel, ids, id);
      ProjectedSame(IdFirst(sel.fields, db.groupColumns, "id"), JoinRows(db, sel, ids), JoinRows(db, sel, [id]), id);
    }
  }

  lemma ProxyEdge(db: Database, with: AccountWith, nodes: seq<Row>, k: nat)
    requires ValidDb(db) && with.proxy.Some? && with.proxy.value.Unpaged() && k < |nodes|
    requires NillableIntAt(nodes[k], "proxy_id").Some?
    ensures var fk := NillableIntAt(nodes[k], "proxy_id").value;
            var batch := BatchProxies(db, with, nodes);
            var mine := FetchLeaf(db.proxies, db.proxyColumns, with.proxy.value.Where(ColIn("id", [fk])));
            && batch.None? == mine.None?
            && (batch.Some? ==> mine == Some(Filter(KeyIs(ColKey("id"), fk), batch.value)))
  {
    ForeignKeysHold(nodes, "proxy_id");
    var sel := with.proxy.value;
    IdFirstHas(sel.fields, db.proxyColumns, "id");
    LeafEdge(db.proxies, db.proxyColumns, sel, "id", ForeignKeys(nodes, "proxy_id"),
        NillableIntAt(nodes[k], "proxy_id").value);
  }

  lemma UsageLogEdge(db: Database, sel: Selection, ids: seq<int>, id: int)
    requires ValidDb(db) && sel.Unpaged() && id in ids
    ensures var batch := FetchLeaf(db.usageLogs, db.usageLogColumns, OwnedBy(sel, ids));
            var mine := FetchLeaf(db.usageLogs, db.usageLogColumns, OwnedBy(sel, [id]));
            && batch.None? == mine.None?
            && (batch.Some? ==> mine == Some(Filter(KeyIs(ColKey("account_id"), id), batch.value)))
  {
    var s := sel.(fields := AppendFieldOnce(sel.fields, "account_id"));
    IdFirstHas(s.fields, db.usageLogColumns, "account_id");
    LeafEdge(db.usageLogs, db.usageLogColumns, s, "account_id", ids, id);
  }

  // ---------------------------------------------------------------- nested edges

  /** account_groups children: the batched query restricted to one account. */
  lemma LinksEdge(db: Database, c: AccountGroupPlan, ids: seq<int>, id: int)
    requires c.sel.Unpaged() && id in ids
    ensures var batch := FetchAccountGroups(db, c.(sel := OwnedBy(c.sel, ids)));
            batch.Some? ==>
              FetchAccountGroups(db, c.(sel := OwnedBy(c.sel, [id]))) == Some(Filter(KeyIs(OwnerOf, id), batch.value))
  {
    var s := c.sel.(fields := AppendFieldOnce(c.sel.fields, "account_id"));
    if ValidFields(s.fields, ACCOUNT_GROUP_COLUMNS) {
      AccountGroupKeyed(db, s.fields, c.with);
      var f := AccountGroupLoader(db, s.fields, c.with);
      if Share(f, db.links, s, "account_id", ids).Some? {
        ShareOfOne(f, db.links, s, "account_id", ids, id, OwnerOf);
      }
    }
  }

  lemma LinksEdgeFails(db: Database, c: AccountGroupPlan, ids: seq<int>) returns (id: int)
    requires c.sel.Unpaged() && ids != [] && FetchAccountGroups(db, c.(sel := OwnedBy(c.sel, ids))).None?
    ensures id in ids && FetchAccountGroups(db, c.(sel := OwnedBy(c.sel, [id]))).None?
  {
    var s := c.sel.(fields := AppendFieldOnce(c.sel.fields, "account_id"));
    if ValidFields(s.fields, ACCOUNT_GROUP_COLUMNS) {
      id := ShareFails(AccountGroupLoader(db, s.fields, c.with), db.links, s, "account_id", ids);
    } else {
      id := ids[0];
    }
  }

  /** The owning account of a link row. */
  lemma OwnerEdge(db: Database, c: AccountPlan, ids: seq<int>, id: int)
    requires c.sel.Unpaged() && id in ids
    ensures var batch := FetchAccounts(db, c.(sel := c.sel.Where(ColIn("id", ids))));
            batch.Some? ==>
              FetchAccounts(db, c.(sel := c.sel.Where(ColIn("id", [id]))))
                  == Some(Filter(KeyIs(AccountKey, id), batch.value))
  {
    if ValidFields(c.sel.fields, ACCOUNT_COLUMNS) {
      AccountKeyed(db, c.sel.fields, c.with);
      var f := AccountLoader(db, c.sel.fields, c.with);
      if Share(f, db.accounts, c.sel, "id", ids).Some? {
        ShareOfOne(f, db.accounts, c.sel, "id", ids, id, AccountKey);
      }
    }
  }

  lemma OwnerEdgeFails(db: Database, c: AccountPlan, ids: seq<int>) returns (id: int)
    requires c.sel.Unpaged() && ids != [] && FetchAccounts(db, c.(sel := c.sel.Where(ColIn("id", ids)))).None?
    ensures id in ids && FetchAccounts(db, c.(sel := c.sel.Where(ColIn("id", [id])))).None?
  {
    if ValidFields(c.sel.fields, ACCOUNT_COLUMNS) {
      id := ShareFails(AccountLoader(db, c.sel.fields, c.with), db.accounts, c.sel, "id", ids);
    } else {
      id := ids[0];
    }
  }

  // ---------------------------------------------------------------- one level

  /** The nested link query of this level has already been proved. */
  ghost predicate LinksProved(db: Database, q: AccountPlan) {
    q.with.accountGroups.Some? ==> LinksAgree(db, NestedLinks(db, q))
  }

  ghost predicate OwnersProved(db: Database, q: AccountGroupPlan) {
    q.with.account.Some? ==> AccountsAgree(db, NestedOwners(db, q))
  }

  ghost predicate AllArrived(db: Database, q: AccountPlan) {
    var nodes := AccountNodes(db, q);
    && BatchGroups(db, q.with, nodes).Some? && BatchProxies(db, q.with, nodes).Some?
    && BatchUsageLogs(db, q.with, nodes).Some? && BatchLinks(db, q.with, nodes).Some?
  }

  lemma GroupsPart(db: Database, q: AccountPlan, k: nat, r: Row)
    requires ValidDb(db) && (q.with.groups.Some? ==> q.with.groups.value.Unpaged())
    requires k < |AccountNodes(db, q)| && Id(AccountNodes(db, q)[k]) == Id(r)
    ensures var batch, own := BatchGroups(db, q.with, AccountNodes(db, q)), OwnGroups(db, q.with, r);
            && batch.None? == own.None?
            && (batch.Some? ==>
                  && SameGroups(GroupsFor(batch.value, Id(r)), GroupsFor(own.value, Id(r)))
                  && (GroupsSettled(db, q) ==> GroupsFor(batch.value, Id(r)) == GroupsFor(own.value, Id(r))))
  {
    var nodes := AccountNodes(db, q);
    assert IdsOf(nodes)[k] == Id(r);
    hide AccountNodes;
    if q.with.groups.Some? { GroupsEdge(db, q.with.groups.value, IdsOf(nodes), Id(r)); }
  }

  lemma ProxyPart(db: Database, with: AccountWith, nodes: seq<Row>, k: nat, r: Row)
    requires ValidDb(db) && (with.proxy.Some? ==> with.proxy.value.Unpaged()) && k < |nodes|
    requires with.proxy.Some? ==> NillableIntAt(nodes[k], "proxy_id") == NillableIntAt(r, "proxy_id")
    requires BatchProxies(db, with, nodes).Some?
    ensures var own, fk := OwnProxies(db, with, r), NillableIntAt(nodes[k], "proxy_id");
            && own.Some?
            && LastOf(own.value) == if with.proxy.None? || fk.None? then None
                                    else LastOf(Filter(KeyIs(ColKey("id"), fk.value),
                                                       BatchProxies(db, with, nodes).value))
  {
    if with.proxy.Some? && NillableIntAt(r, "proxy_id").Some? { ProxyEdge(db, with, nodes, k); }
  }

  lemma UsageLogPart(db: Database, with: AccountWith, nodes: seq<Row>, k: nat, r: Row)
    requires ValidDb(db) && (with.usageLogs.Some? ==> with.usageLogs.value.Unpaged())
    requires k < |nodes| && Id(nodes[k]) == Id(r)
    ensures BatchUsageLogs(db, with, nodes).None? == OwnUsageLogs(db, with, r).None?
    ensures BatchUsageLogs(db, with, nodes).Some? ==>
              OwnUsageLogs(db, with, r)
              == Some(Filter(KeyIs(ColKey("account_id"), Id(nodes[k])), BatchUsageLogs(db, with, nodes).value))
  {
    assert IdsOf(nodes)[k] == Id(r);
    if with.usageLogs.Some? { UsageLogEdge(db, with.usageLogs.value, IdsOf(nodes), Id(r)); }
  }

  lemma LinkRowsEqual(db: Database, q: AccountGroupPlan, a: AccountGroupTree, b: AccountGroupTree)
    requires SameLinkTree(db, q, a, b)
    ensures a.row == b.row
  {}

  lemma TreeRowsEqual(db: Database, q: AccountPlan, a: AccountTree, b: AccountTree)
    requires SameTree(db, q, a, b)
    ensures a.row == b.row
  {}

  /** Restricting related lists by a property related elements share keeps them related. */
  lemma {:induction false} FilterRelated<T(!new)>(p: T -> bool, r: (T, T) -> bool, a: seq<T>, b: seq<T>)
    requires |a| == |b| && forall i :: 0 <= i < |a| ==> r(a[i], b[i]) && p(a[i]) == p(b[i])
    ensures |Filter(p, a)| == |Filter(p, b)|
    ensures forall i :: 0 <= i < |Filter(p, a)| ==> r(Filter(p, a)[i], Filter(p, b)[i])
  {
    if a == [] {
      assert b == [];
    } else {
      assert forall i :: 0 <= i < |a[1..]| ==> a[1..][i] == a[i + 1] && b[1..][i] == b[i + 1];
      FilterRelated(p, r, a[1..], b[1..]);
    }
  }

  lemma FilterSameLinks(db: Database, q: AccountGroupPlan, a: seq<AccountGroupTree>, b: seq<AccountGroupTree>, id: int)
    requires |a| == |b| && forall i :: 0 <= i < |a| ==> SameLinkTree(db, q, a[i], b[i])
    ensures var x, y := Filter(KeyIs(OwnerOf, id), a), Filter(KeyIs(OwnerOf, id), b);
            |x| == |y| && forall i :: 0 <= i < |x| ==> SameLinkTree(db, q, x[i], y[i])
  {
    hide SameLinkTree, Filter;
    var owned, same := KeyIs(OwnerOf, id), (x, y) => SameLinkTree(db, q, x, y);
    forall i | 0 <= i < |a| ensures same(a[i], b[i]) && owned(a[i]) == owned(b[i]) {
      LinkRowsEqual(db, q, a[i], b[i]);
      assert owned(a[i]) == (OwnerOf(a[i]) == id) && owned(b[i]) == (OwnerOf(b[i]) == id);
    }
    FilterRelated(owned, same, a, b);
  }

  lemma FilterSameTrees(db: Database, q: AccountPlan, a: seq<AccountTree>, b: seq<AccountTree>, id: int)
    requires |a| == |b| && forall i :: 0 <= i < |a| ==> SameTree(db, q, a[i], b[i])
    ensures var x, y := Filter(KeyIs(AccountKey, id), a), Filter(KeyIs(AccountKey, id), b);
            |x| == |y| && forall i :: 0 <= i < |x| ==> SameTree(db, q, x[i], y[i])
  {
    hide SameTree, Filter;
    var keyed, same := KeyIs(AccountKey, id), (x, y) => SameTree(db, q, x, y);
    forall i | 0 <= i < |a| ensures same(a[i], b[i]) && keyed(a[i]) == keyed(b[i]) {
      TreeRowsEqual(db, q, a[i], b[i]);
      assert keyed(a[i]) == (AccountKey(a[i]) == id) && keyed(b[i]) == (AccountKey(b[i]) == id);
    }
    FilterRelated(keyed, same, a, b);
  }

  lemma LinksPart(db: Database, q: AccountPlan, k: nat, r: Row)
    requires q.with.accountGroups.Some? ==> q.with.accountGroups.value.sel.Unpaged()
    requires LinksProved(db, q) && k < |AccountNodes(db, q)| && Id(AccountNodes(db, q)[k]) == Id(r)
    requires BatchLinks(db, q.with, AccountNodes(db, q)).Some?
    ensures OwnLinks(db, q.with, r).Some?
    ensures SameLinks(db, q, Filter(KeyIs(OwnerOf, Id(r)), BatchLinks(db, q.with, AccountNodes(db, q)).value),
                      OwnLinks(db, q.with, r).value)
  {
    var nodes := AccountNodes(db, q);
    assert IdsOf(nodes)[k] == Id(r);
    hide AccountNodes, SameLinkTree, BatchAccountGroups, FetchAccountGroups;
    if q.with.accountGroups.Some? {
      var n := NestedLinks(db, q);
      LinksEdge(db, q.with.accountGroups.value, IdsOf(nodes), Id(r));
      FilterSameLinks(db, n, BatchAccountGroups(db, n).value, FetchAccountGroups(db, n).value, Id(r));
    }
  }

  lemma LoadIs(db: Database, fields: seq<string>, with: AccountWith, r: Row)
    requires OwnGroups(db, with, r).Some? && OwnProxies(db, with, r).Some?
    requires OwnUsageLogs(db, with, r).Some? && OwnLinks(db, with, r).Some?
    ensures LoadAccount(db, fields, with, r)
         == Some(AccountTree(Project(AccountColumns(fields, with.proxy.Some?), r), Loaded(with),
                             GroupsFor(OwnGroups(db, with, r).value, Id(r)), LastOf(OwnProxies(db, with, r).value),
                             OwnUsageLogs(db, with, r).value, OwnLinks(db, with, r).value))
  {
    hide OwnGroups, OwnProxies, OwnUsageLogs, OwnLinks, AccountColumns;
  }

  /** Edge by edge related, as a whole related. */
  lemma TreeFromParts(db: Database, q: AccountPlan, node: Row, id: int, stream: seq<Linked>, proxies: seq<Row>,
                      logs: seq<Row>, links: seq<AccountGroupTree>, tree: AccountTree)
    requires Id(node) == id && tree.row == node && tree.loaded == Loaded(q.with)
    requires SameGroups(GroupsFor(stream, id), tree.groups)
    requires GroupsSettled(db, q) ==> GroupsFor(stream, id) == tree.groups
    requires var fk := NillableIntAt(node, "proxy_id");
             tree.proxy == if q.with.proxy.None? || fk.None? then None
                           else LastOf(Filter(KeyIs(ColKey("id"), fk.value), proxies))
    requires tree.usageLogs == Filter(KeyIs(ColKey("account_id"), id), logs)
    requires SameLinks(db, q, Filter(KeyIs(OwnerOf, id), links), tree.accountGroups)
    ensures SameTree(db, q, StitchAccount(q.with, stream, proxies, logs, links, node), tree)
  {
    hide GroupsSettled, SameGroups, SameLinks, GroupsFor, Filter, Id, NillableIntAt;
  }

  /** Every edge arrived: each parent's stitched tree is its own load, up to the order of groups. */
  lemma StitchIsLoad(db: Database, q: AccountPlan, k: nat)
    requires ValidDb(db) && NestUnpaged(q.with) && k < |RowsOf(db.accounts, q.sel)|
    requires AllArrived(db, q) && LinksProved(db, q)
    ensures var nodes := AccountNodes(db, q);
            var load := LoadAccount(db, q.sel.fields, q.with, RowsOf(db.accounts, q.sel)[k]);
            && load.Some?
            && SameTree(db, q,
                 StitchAccount(q.with, BatchGroups(db, q.with, nodes).value, BatchProxies(db, q.with, nodes).value,
                               BatchUsageLogs(db, q.with, nodes).value, BatchLinks(db, q.with, nodes).value, nodes[k]),
                 load.value)
  {
    var nodes, r := AccountNodes(db, q), RowsOf(db.accounts, q.sel)[k];
    assert k < |nodes|;
    assert nodes[k] == Project(AccountColumns(q.sel.fields, q.with.proxy.Some?), r);
    hide AccountNodes, AccountColumns, BatchGroups, BatchProxies, BatchUsageLogs, BatchLinks, LinksProved;
    hide OwnGroups, OwnProxies, OwnUsageLogs, OwnLinks, RowsOf, Filter, GroupsFor, ValidDb;
    hide SameGroups, GroupsSettled, SameLinks, SameTree, StitchAccount, LoadAccount, Project, Id, NillableIntAt;
    AccountNodeKeys(q.sel.fields, q.with.proxy.Some?, r);
    GroupsPart(db, q, k, r);
    ProxyPart(db, q.with, nodes, k, r);
    UsageLogPart(db, q.with, nodes, k, r);
    LinksPart(db, q, k, r);
    LoadIs(db, q.sel.fields, q.with, r);
    TreeFromParts(db, q, nodes[k], Id(r), BatchGroups(db, q.with, nodes).value, BatchProxies(db, q.with, nodes).value,
                  BatchUsageLogs(db, q.with, nodes).value, BatchLinks(db, q.with, nodes).value,
                  LoadAccount(db, q.sel.fields, q.with, r).value);
  }

  lemma LoadFails(db: Database, fields: seq<string>, with: AccountWith, r: Row)
    ensures LoadAccount(db, fields, with, r).None?
            <==> OwnGroups(db, with, r).None? || OwnProxies(db, with, r).None? || OwnUsageLogs(db, with, r).None?
                 || OwnLinks(db, with, r).None?
  {
    hide OwnGroups, OwnProxies, OwnUsageLogs, OwnLinks, AccountColumns;
  }

  lemma ProxiesFail(db: Database, with: AccountWith, nodes: seq<Row>) returns (k: nat)
    requires ValidDb(db) && (with.proxy.Some? ==> with.proxy.value.Unpaged()) && BatchProxies(db, with, nodes).None?
    ensures k < |nodes|
    ensures forall r :: NillableIntAt(r, "proxy_id") == NillableIntAt(nodes[k], "proxy_id") ==>
                          OwnProxies(db, with, r).None?
  {
    ForeignKeysHold(nodes, "proxy_id");
    var fk := ForeignKeys(nodes, "proxy_id")[0];
    assert fk in ForeignKeys(nodes, "proxy_id");
    k :| 0 <= k < |nodes| && NillableIntAt(nodes[k], "proxy_id") == Some(fk);
    ProxyEdge(db, with, nodes, k);
  }

  lemma LinksFail(db: Database, q: AccountPlan) returns (k: nat)
    requires q.with.accountGroups.Some? ==> q.with.accountGroups.value.sel.Unpaged()
    requires LinksProved(db, q) && AccountNodes(db, q) != []
    requires BatchLinks(db, q.with, AccountNodes(db, q)).None?
    ensures k < |AccountNodes(db, q)|
    ensures forall r :: Id(r) == Id(AccountNodes(db, q)[k]) ==> OwnLinks(db, q.with, r).None?
  {
    var nodes := AccountNodes(db, q);
    hide AccountNodes, SameLinkTree, BatchAccountGroups, FetchAccountGroups;
    var id := LinksEdgeFails(db, q.with.accountGroups.value, IdsOf(nodes));
    k :| 0 <= k < |IdsOf(nodes)| && IdsOf(nodes)[k] == id;
  }

  /** Some edge failed: some parent's own load fails. */
  lemma BatchFailsLoadFails(db: Database, q: AccountPlan) returns (k: nat)
    requires ValidDb(db) && NestUnpaged(q.with) && RowsOf(db.accounts, q.sel) != []
    requires !AllArrived(db, q) && LinksProved(db, q)
    ensures k < |RowsOf(db.accounts, q.sel)|
    ensures LoadAccount(db, q.sel.fields, q.with, RowsOf(db.accounts, q.sel)[k]).None?
  {
    var nodes, rows := AccountNodes(db, q), RowsOf(db.accounts, q.sel);
    forall i | 0 <= i < |rows|
      ensures Id(nodes[i]) == Id(rows[i])
      ensures q.with.proxy.Some? ==> NillableIntAt(nodes[i], "proxy_id") == NillableIntAt(rows[i], "proxy_id")
    {
      AccountNodeKeys(q.sel.fields, q.with.proxy.Some?, rows[i]);
    }
    assert |nodes| == |rows|;
    assert BatchProxies(db, q.with, nodes).None? ==> q.with.proxy.Some?;
    hide AccountNodes, BatchGroups, BatchProxies, BatchUsageLogs, BatchLinks, LinksProved, LoadAccount, RowsOf;
    hide OwnGroups, OwnProxies, OwnUsageLogs, OwnLinks, ValidDb, Id, NillableIntAt, SameGroups, GroupsSettled;
    k := 0;
    if BatchProxies(db, q.with, nodes).None? {
      k := ProxiesFail(db, q.with, nodes);
    } else if BatchLinks(db, q.with, nodes).None? {
      k := LinksFail(db, q);
    } else {
      GroupsPart(db, q, 0, rows[0]);
      UsageLogPart(db, q.with, nodes, 0, rows[0]);
    }
    LoadFails(db, q.sel.fields, q.with, rows[k]);
  }

  lemma OwnerPart(db: Database, q: AccountGroupPlan, k: nat, r: Row)
    requires q.with.account.Some? ==> q.with.account.value.sel.Unpaged()
    requires OwnersProved(db, q) && k < |AccountGroupNodes(db, q)|
    requires q.with.account.Some? ==> IntAt(AccountGroupNodes(db, q)[k], "account_id") == IntAt(r, "account_id")
    requires BatchOwners(db, q.with, AccountGroupNodes(db, q)).Some?
    ensures var nodes, own := AccountGroupNodes(db, q), OwnOwners(db, q.with, r);
            && own.Some?
            && SameOwner(db, q,
                 LastOf(Filter(KeyIs(AccountKey, IntAt(nodes[k], "account_id")), BatchOwners(db, q.with, nodes).value)),
                 LastOf(own.value))
  {
    var nodes := AccountGroupNodes(db, q);
    PlainKeysHold(nodes, "account_id");
    hide AccountGroupNodes, PlainKeys, BatchAccounts, FetchAccounts, SameTree;
    if q.with.account.Some? {
      var n, id := NestedOwners(db, q), IntAt(r, "account_id");
      OwnerEdge(db, q.with.account.value, PlainKeys(nodes, "account_id"), id);
      FilterSameTrees(db, n, BatchAccounts(db, n).value, FetchAccounts(db, n).value, id);
    }
  }

  lemma GroupRowPart(db: Database, with: AccountGroupWith, nodes: seq<Row>, k: nat, r: Row)
    requires ValidDb(db) && (with.group.Some? ==> with.group.value.Unpaged()) && k < |nodes|
    requires with.group.Some? ==> IntAt(nodes[k], "group_id") == IntAt(r, "group_id")
    ensures BatchGroupRows(db, with, nodes).None? == OwnGroupRows(db, with, r).None?
    ensures BatchGroupRows(db, with, nodes).Some? ==>
              LastOf(OwnGroupRows(db, with, r).value)
              == LastOf(Filter(KeyIs(ColKey("id"), IntAt(nodes[k], "group_id")), BatchGroupRows(db, with, nodes).value))
  {
    PlainKeysHold(nodes, "group_id");
    if with.group.Some? {
      IdFirstHas(with.group.value.fields, db.groupColumns, "id");
      LeafEdge(db.groups, db.groupColumns, with.group.value, "id", PlainKeys(nodes, "group_id"), IntAt(r, "group_id"));
    }
  }

  lemma StitchIsLoadLink(db: Database, q: AccountGroupPlan, k: nat)
    requires ValidDb(db) && LinkNestUnpaged(q.with) && k < |RowsOf(db.links, q.sel)|
    requires BatchOwners(db, q.with, AccountGroupNodes(db, q)).Some?
    requires BatchGroupRows(db, q.with, AccountGroupNodes(db, q)).Some? && OwnersProved(db, q)
    ensures var nodes := AccountGroupNodes(db, q);
            var load := LoadAccountGroup(db, q.sel.fields, q.with, RowsOf(db.links, q.sel)[k]);
            && load.Some?
            && SameLinkTree(db, q,
                 StitchAccountGroup(q.with, BatchOwners(db, q.with, nodes).value,
                     BatchGroupRows(db, q.with, nodes).value,
                                    nodes[k]),
                 load.value)
  {
    var nodes, r := AccountGroupNodes(db, q), RowsOf(db.links, q.sel)[k];
    assert k < |nodes|;
    assert nodes[k] == Project(AccountGroupColumns(q.sel.fields, q.with.account.Some?, q.with.group.Some?), r);
    hide AccountGroupNodes, AccountGroupColumns, BatchOwners, BatchGroupRows, OwnersProved, SameOwner;
    hide OwnOwners, OwnGroupRows, RowsOf, Filter, ValidDb;
    AccountGroupNodeKeys(q.sel.fields, q.with.account.Some?, q.with.group.Some?, r);
    OwnerPart(db, q, k, r);
    GroupRowPart(db, q.with, nodes, k, r);
  }

  lemma OwnersFail(db: Database, q: AccountGroupPlan) returns (k: nat)
    requires q.with.account.Some? ==> q.with.account.value.sel.Unpaged()
    requires OwnersProved(db, q) && AccountGroupNodes(db, q) != []
    requires BatchOwners(db, q.with, AccountGroupNodes(db, q)).None?
    ensures q.with.account.Some? && k < |AccountGroupNodes(db, q)|
    ensures forall r :: IntAt(r, "account_id") == IntAt(AccountGroupNodes(db, q)[k], "account_id") ==>
                          OwnOwners(db, q.with, r).None?
  {
    var nodes := AccountGroupNodes(db, q);
    PlainKeysHold(nodes, "account_id");
    hide AccountGroupNodes, PlainKeys, BatchAccounts, FetchAccounts, SameTree;
    assert IntAt(nodes[0], "account_id") in PlainKeys(nodes, "account_id");
    var id := OwnerEdgeFails(db, q.with.account.value, PlainKeys(nodes, "account_id"));
    k :| 0 <= k < |nodes| && IntAt(nodes[k], "account_id") == id;
  }

  lemma BatchFailsLoadLinkFails(db: Database, q: AccountGroupPlan) returns (k: nat)
    requires ValidDb(db) && LinkNestUnpaged(q.with) && RowsOf(db.links, q.sel) != [] && OwnersProved(db, q)
    requires var nodes := AccountGroupNodes(db, q);
             BatchOwners(db, q.with, nodes).None? || BatchGroupRows(db, q.with, nodes).None?
    ensures k < |RowsOf(db.links, q.sel)|
    ensures LoadAccountGroup(db, q.sel.fields, q.with, RowsOf(db.links, q.sel)[k]).None?
  {
    var nodes, rows := AccountGroupNodes(db, q), RowsOf(db.links, q.sel);
    forall i | 0 <= i < |rows|
      ensures q.with.account.Some? ==> IntAt(nodes[i], "account_id") == IntAt(rows[i], "account_id")
      ensures q.with.group.Some? ==> IntAt(nodes[i], "group_id") == IntAt(rows[i], "group_id")
    {
      AccountGroupNodeKeys(q.sel.fields, q.with.account.Some?, q.with.group.Some?, rows[i]);
    }
    assert |nodes| == |rows|;
    hide AccountGroupNodes, BatchOwners, BatchGroupRows, OwnersProved, OwnOwners, OwnGroupRows, RowsOf, ValidDb, IntAt;
    k := 0;
    if BatchOwners(db, q.with, nodes).None? {
      k := OwnersFail(db, q);
    } else {
      GroupRowPart(db, q.with, nodes, 0, rows[0]);
    }
  }

  // ---------------------------------------------------------------- the theorem

  /** For every database and every finite nest of `With...` requests whose child queries are not paged: the
      batched load fails if and only if fetching each parent's children one parent at a time does, and
      otherwise returns the same tree, where group lists hold the same groups once each, in the same order
      wherever that order is determined. */
  lemma {:induction false} BatchAgrees(db: Database, q: AccountPlan)
    requires ValidDb(db) && NestUnpaged(q.with)
    ensures AccountsAgree(db, q)
    decreases q.with
  {
    hide LoadAccount, StitchAccount, BatchGroups, BatchProxies, BatchUsageLogs, RowsOf, SameTree, SameLinkTree;
    var nodes, rows := AccountNodes(db, q), RowsOf(db.accounts, q.sel);
    var f := AccountLoader(db, q.sel.fields, q.with);
    if ValidFields(q.sel.fields, ACCOUNT_COLUMNS) && rows != [] {
      if q.with.accountGroups.Some? { LinksBatchAgrees(db, NestedLinks(db, q)); }
      TraverseFails(f, rows);
      if BatchAccounts(db, q).None? {
        var k := BatchFailsLoadFails(db, q);
        assert rows[k] in rows && f(rows[k]).None?;
      } else {
        forall k | 0 <= k < |rows|
          ensures f(rows[k]).Some? && SameTree(db, q, BatchAccounts(db, q).value[k], f(rows[k]).value)
        {
          StitchIsLoad(db, q, k);
        }
        TraverseAt(f, rows);
      }
    }
  }

  lemma {:induction false} LinksBatchAgrees(db: Database, q: AccountGroupPlan)
    requires ValidDb(db) && LinkNestUnpaged(q.with)
    ensures LinksAgree(db, q)
    decreases q.with
  {
    hide LoadAccountGroup, StitchAccountGroup, RowsOf, SameTree, SameLinkTree;
    var nodes, rows := AccountGroupNodes(db, q), RowsOf(db.links, q.sel);
    var f := AccountGroupLoader(db, q.sel.fields, q.with);
    if ValidFields(q.sel.fields, ACCOUNT_GROUP_COLUMNS) && rows != [] {
      if q.with.account.Some? { BatchAgrees(db, NestedOwners(db, q)); }
      TraverseFails(f, rows);
      if BatchAccountGroups(db, q).None? {
        var k := BatchFailsLoadLinkFails(db, q);
        assert rows[k] in rows && f(rows[k]).None?;
      } else {
        forall k | 0 <= k < |rows|
          ensures f(rows[k]).Some? && SameLinkTree(db, q, BatchAccountGroups(db, q).value[k], f(rows[k]).value)
        {
          StitchIsLoadLink(db, q, k);
        }
        TraverseAt(f, rows);
      }
    }
  }

  // ---------------------------------------------------------------- when the trees are equal

  /** At every level of the nest the order of the group lists is determined. */
  ghost predicate NestSettled(db: Database, q: AccountPlan)
    decreases q.with
  {
    GroupsSettled(db, q) && (q.with.accountGroups.Some? ==> LinkNestSettled(db, NestedLinks(db, q)))
  }

  ghost predicate LinkNestSettled(db: Database, q: AccountGroupPlan)
    decreases q.with
  {
    q.with.account.Some? ==> NestSettled(db, NestedOwners(db, q))
  }

  /** What a caller can check without the data: every order asked for separates the groups it selects. */
  ghost predicate NestSeparates(db: Database, with: AccountWith)
    decreases with
  {
    && (with.groups.Some? ==> Separates(db.groups, with.groups.value))
    && (with.accountGroups.Some? && with.accountGroups.value.with.account.Some? ==>
          NestSeparates(db, with.accountGroups.value.with.account.value.with))
  }

  lemma {:induction false} SeparatedIsSettled(db: Database, q: AccountPlan)
    requires NestSeparates(db, q.with)
    ensures NestSettled(db, q)
    decreases q.with
  {
    hide AccountNodes, AccountGroupNodes, Separates;
    if q.with.accountGroups.Some? && q.with.accountGroups.value.with.account.Some? {
      SeparatedIsSettled(db, NestedOwners(db, NestedLinks(db, q)));
    }
  }

  lemma {:induction false} SettledTreesEqual(db: Database, q: AccountPlan, a: AccountTree, b: AccountTree)
    requires NestSettled(db, q) && SameTree(db, q, a, b)
    ensures a == b
    decreases q.with
  {
    hide GroupsSettled, SameGroups;
    if q.with.accountGroups.Some? {
      forall i | 0 <= i < |a.accountGroups| ensures a.accountGroups[i] == b.accountGroups[i] {
        SettledLinksEqual(db, NestedLinks(db, q), a.accountGroups[i], b.accountGroups[i]);
      }
    }
    assert a.accountGroups == b.accountGroups;
  }

  lemma {:induction false} SettledLinksEqual(db: Database, q: AccountGroupPlan, a: AccountGroupTree,
                                             b: AccountGroupTree)
    requires LinkNestSettled(db, q) && SameLinkTree(db, q, a, b)
    ensures a == b
    decreases q.with
  {
    if q.with.account.Some? && a.account.Some? {
      SettledTreesEqual(db, NestedOwners(db, q), a.account.value, b.account.value);
    }
  }

  /** Where every level's order is determined, the batched load is the one-parent-at-a-time fetch. */
  lemma BatchIsFetch(db: Database, q: AccountPlan)
    requires ValidDb(db) && NestUnpaged(q.with) && NestSettled(db, q)
    ensures BatchAccounts(db, q) == FetchAccounts(db, q)
  {
    hide BatchAccounts, FetchAccounts, SameTree, NestSettled;
    BatchAgrees(db, q);
    var batch, fetch := BatchAccounts(db, q), FetchAccounts(db, q);
    if batch.Some? {
      forall i | 0 <= i < |batch.value| ensures batch.value[i] == fetch.value[i] {
        SettledTreesEqual(db, q, batch.value[i], fetch.value[i]);
      }
      assert batch.value == fetch.value;
    }
  }
}
