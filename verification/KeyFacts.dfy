/** Facts that make the loaders' error branches dead and every parent the last with its id. */
module KeyFacts {
  import opened Rows
  import opened Schema
  import opened Eager
  import opened Scope
  import opened ManyToMany
  import opened EagerProof

  lemma {:induction false} InsertDistinct(o: Order<Row>, x: Row, s: seq<Row>)
    requires DistinctIds(s) && forall r :: r in s ==> Id(r) != Id(x)
    ensures DistinctIds(Insert(o, x, s))
  {
    if s != [] && !Leq(o, x, s[0]) {
      assert s == [s[0]] + s[1..];
      InsertDistinct(o, x, s[1..]);
      InsertIn(o, x, s[1..]);
      var t := Insert(o, x, s[1..]);
      forall j | 0 <= j < |t| ensures Id(t[j]) != Id(s[0]) {
        assert t[j] in t;
        if t[j] != x {
          var k :| 0 <= k < |s[1..]| && s[1..][k] == t[j];
          assert s[k + 1] == t[j];
        }
      }
    }
  }

  lemma {:induction false} SortDistinct(o: Order<Row>, s: seq<Row>)
    requires DistinctIds(s)
    ensures DistinctIds(SortBy(o, s))
  {
    if s != [] {
      SortDistinct(o, s[1..]);
      SortByIn(o, s[1..]);
      forall r | r in SortBy(o, s[1..]) ensures Id(r) != Id(s[0]) {
        var k :| 0 <= k < |s[1..]| && s[1..][k] == r;
        assert s[k + 1] == r;
      }
      InsertDistinct(o, s[0], SortBy(o, s[1..]));
    }
  }

  /** A primary key stays distinct in every query result. */
  lemma RowsOfDistinct(table: seq<Row>, sel: Selection)
    requires DistinctIds(table)
    ensures DistinctIds(RowsOf(table, sel))
  {
    FilterKeeps(MatchesAll(sel.predicates), [], table);
    SortDistinct(sel.order, Filter(MatchesAll(sel.predicates), table));
  }

  /** Rows of a `col IN (ids)` leaf query carry a key of the list. */
  lemma LeafRowsKeyed(table: seq<Row>, columns: seq<string>, sel: Selection, col: string, ids: seq<int>)
    requires col in IdFirst(sel.fields, columns, "id")
    requires FetchLeaf(table, columns, sel.Where(ColIn(col, ids))).Some?
    ensures forall n :: n in FetchLeaf(table, columns, sel.Where(ColIn(col, ids))).value ==> IntAt(n, col) in ids
  {
    var cols := IdFirst(sel.fields, columns, "id");
    var rows := RowsOf(table, sel.Where(ColIn(col, ids)));
    RowsOfIn(table, sel.Where(ColIn(col, ids)));
    LeafTraverse(cols, rows);
    forall n | n in MapSeq(Projector(cols), rows) ensures IntAt(n, col) in ids {
      var i :| 0 <= i < |rows| && MapSeq(Projector(cols), rows)[i] == n;
      assert rows[i] in rows;
      MatchesWhere(sel.predicates, ColIn(col, ids), rows[i]);
    }
  }

  lemma {:induction false} LeafTraverse(cols: seq<string>, rows: seq<Row>)
    ensures Traverse(LeafLoader(cols), rows) == Some(MapSeq(Projector(cols), rows))
  {
    if rows != [] { LeafTraverse(cols, rows[1..]); }
  }

  lemma JoinRowsOut(db: Database, sel: Selection, ids: seq<int>)
    ensures forall l :: l in JoinRows(db, sel, ids) ==> l.out in ids
  {
    var f := Filter(Joins(sel, ids), LinkPairs(db.links, db.groups));
    FilterIn(Joins(sel, ids), LinkPairs(db.links, db.groups));
    SortByIn(LinkedOrder(sel.order), f);
    PageIn(sel.limit, sel.offset, SortBy(LinkedOrder(sel.order), f));
  }

  lemma StreamOut(db: Database, sel: Selection, ids: seq<int>)
    requires GroupStream(db, sel, ids).Some?
    ensures forall k :: 0 <= k < |GroupStream(db, sel, ids).value| ==> GroupStream(db, sel, ids).value[k].out in ids
  {
    JoinRowsOut(db, sel, ids);
    assert forall k :: 0 <= k < |JoinRows(db, sel, ids)| ==> JoinRows(db, sel, ids)[k] in JoinRows(db, sel, ids);
  }

  lemma OwnerColumn(sel: Selection, ids: seq<int>, with: AccountGroupWith)
    ensures "account_id" in AccountGroupColumns(OwnedBy(sel, ids).fields, with.account.Some?, with.group.Some?)
  {
    assert ACCOUNT_GROUP_COLUMNS[0] == "account_id";
  }

  lemma KeyInList(col: string, ids: seq<int>, r: Row)
    ensures ColIn(col, ids)(r) ==> IntAt(r, col) in ids
  {}

  lemma BatchLinksKeyed(db: Database, c: AccountGroupPlan, ids: seq<int>)
    requires BatchAccountGroups(db, c.(sel := OwnedBy(c.sel, ids))).Some?
    ensures forall t :: t in BatchAccountGroups(db, c.(sel := OwnedBy(c.sel, ids))).value ==> OwnerOf(t) in ids
  {
    hide BatchOwners, BatchGroupRows, AccountGroupColumns, RowsOf, Project, IntAt, Filter;
    var q := c.(sel := OwnedBy(c.sel, ids));
    var cols := AccountGroupColumns(q.sel.fields, q.with.account.Some?, q.with.group.Some?);
    var trees, rows := BatchAccountGroups(db, q).value, RowsOf(db.links, q.sel);
    RowsOfIn(db.links, q.sel);
    OwnerColumn(c.sel, ids, q.with);
    forall t | t in trees ensures OwnerOf(t) in ids {
      var i :| 0 <= i < |trees| && trees[i] == t;
      assert t.row == Project(cols, rows[i]);
      ProjectKeeps(cols, "account_id", rows[i]);
      assert rows[i] in rows;
      KeyInList("account_id", ids, rows[i]);
      MatchesWhere(c.sel.predicates, ColIn("account_id", ids), rows[i]);
    }
  }

  lemma BatchOwnersKeyed(db: Database, c: AccountPlan, ids: seq<int>)
    requires BatchAccounts(db, c.(sel := c.sel.Where(ColIn("id", ids)))).Some?
    ensures forall t :: t in BatchAccounts(db, c.(sel := c.sel.Where(ColIn("id", ids)))).value ==> AccountKey(t) in ids
  {
    var q := c.(sel := c.sel.Where(ColIn("id", ids)));
    var trees, rows := BatchAccounts(db, q).value, RowsOf(db.accounts, q.sel);
    RowsOfIn(db.accounts, q.sel);
    forall t | t in trees ensures AccountKey(t) in ids {
      var i :| 0 <= i < |trees| && trees[i] == t;
      assert t.row == Project(AccountColumns(q.sel.fields, q.with.proxy.Some?), rows[i]);
      AccountNodeKeys(q.sel.fields, q.with.proxy.Some?, rows[i]);
      assert rows[i] in rows;
      MatchesWhere(c.sel.predicates, ColIn("id", ids), rows[i]);
    }
  }
}
