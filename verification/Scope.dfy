/** One parent's share of a batched to-one or to-many child query is that parent's own query. */
module Scope {
  import opened Rows
  import opened Schema
  import opened Eager

  lemma {:induction false} TraverseIs<T(!new)>(f: Row -> Option<T>, rows: seq<Row>, out: seq<T>)
    requires |out| == |rows| && forall i :: 0 <= i < |rows| ==> f(rows[i]) == Some(out[i])
    ensures Traverse(f, rows) == Some(out)
  {
    if rows != [] {
      TraverseIs(f, rows[1..], out[1..]);
      assert out == [out[0]] + out[1..];
    }
  }

  /** A run fails exactly when one of its rows fails. */
  lemma {:induction false} TraverseFails<T(!new)>(f: Row -> Option<T>, rows: seq<Row>)
    ensures Traverse(f, rows).None? <==> exists r :: r in rows && f(r).None?
  {
    if rows != [] {
      assert rows == [rows[0]] + rows[1..];
      TraverseFails(f, rows[1..]);
    }
  }

  lemma {:induction false} TraverseAt<T(!new)>(f: Row -> Option<T>, rows: seq<Row>)
    requires Traverse(f, rows).Some?
    ensures |Traverse(f, rows).value| == |rows|
    ensures forall k :: 0 <= k < |rows| ==> f(rows[k]) == Some(Traverse(f, rows).value[k])
  {
    if rows != [] { TraverseAt(f, rows[1..]); }
  }

  lemma {:induction false} TraverseFilter<T(!new)>(f: Row -> Option<T>, p: Row -> bool, mine: T -> bool, rows: seq<Row>)
    requires forall r :: r in rows && f(r).Some? ==> mine(f(r).value) == p(r)
    requires Traverse(f, rows).Some?
    ensures Traverse(f, Filter(p, rows)) == Some(Filter(mine, Traverse(f, rows).value))
  {
    if rows != [] {
      assert rows == [rows[0]] + rows[1..];
      TraverseFilter(f, p, mine, rows[1..]);
      FilterCons(mine, f(rows[0]).value, Traverse(f, rows[1..]).value);
      if p(rows[0]) { assert ([rows[0]] + Filter(p, rows[1..]))[1..] == Filter(p, rows[1..]); }
    }
  }

  /** The rows of an unpaged `col IN (ids)` child query, loaded by f. */
  function Share<T>(f: Row -> Option<T>, table: seq<Row>, sel: Selection, col: string, ids: seq<int>): Option<seq<T>> {
    Traverse(f, RowsOf(table, sel.Where(ColIn(col, ids))))
  }

  ghost predicate KeyedBy<T(!new)>(f: Row -> Option<T>, col: string, key: T -> int) {
    forall r :: ColIn(col, [IntAt(r, col)])(r) && f(r).Some? ==> key(f(r).value) == IntAt(r, col)
  }

  lemma ShareOfOne<T(!new)>(f: Row -> Option<T>, table: seq<Row>, sel: Selection, col: string,
                            ids: seq<int>, id: int, key: T -> int)
    requires sel.Unpaged() && id in ids && KeyedBy(f, col, key)
    requires Share(f, table, sel, col, ids).Some?
    ensures Share(f, table, sel, col, [id]) == Some(Filter(KeyIs(key, id), Share(f, table, sel, col, ids).value))
  {
    var rows := RowsOf(table, sel.Where(ColIn(col, ids)));
    ScopeRows(table, sel, col, ids, id);
    RowsOfIn(table, sel.Where(ColIn(col, ids)));
    forall r | r in rows && f(r).Some?
      ensures KeyIs(key, id)(f(r).value) == ColIn(col, [id])(r)
    {
      MatchesWhere(sel.predicates, ColIn(col, ids), r);
      assert ColIn(col, ids)(r);
      assert ColIn(col, [IntAt(r, col)])(r);
    }
    TraverseFilter(f, ColIn(col, [id]), KeyIs(key, id), rows);
  }

  /** If the batched query fails, the query of some parent fails. */
  lemma ShareFails<T(!new)>(f: Row -> Option<T>, table: seq<Row>, sel: Selection, col: string, ids: seq<int>)
    returns (id: int)
    requires sel.Unpaged() && Share(f, table, sel, col, ids).None?
    ensures id in ids && Share(f, table, sel, col, [id]).None?
  {
    var rows := RowsOf(table, sel.Where(ColIn(col, ids)));
    TraverseFails(f, rows);
    var r: Row :| r in rows && f(r).None?;
    RowsOfIn(table, sel.Where(ColIn(col, ids)));
    MatchesWhere(sel.predicates, ColIn(col, ids), r);
    id := r[col].i;
    ScopeRows(table, sel, col, ids, id);
    FilterIn(ColIn(col, [id]), rows);
    TraverseFails(f, RowsOf(table, sel.Where(ColIn(col, [id]))));
  }

  // ---------------------------------------------------------------- projected keys

  lemma LeafKeyed(cols: seq<string>, col: string)
    requires col in cols
    ensures KeyedBy(LeafLoader(cols), col, ColKey(col))
  {}

  lemma AccountKeyed(db: Database, fields: seq<string>, with: AccountWith)
    ensures KeyedBy(AccountLoader(db, fields, with), "id", AccountKey)
  {
    var cols := AccountColumns(fields, with.proxy.Some?);
    AccountColumnsShape(fields, with.proxy.Some?);
    assert cols[0] == "id";
    forall r: Row
      ensures LoadAccount(db, fields, with, r).Some? ==>
              AccountKey(LoadAccount(db, fields, with, r).value) == IntAt(r, "id")
    {
      LoadedRow(db, fields, with, r);
      ProjectKeeps(cols, "id", r);
    }
    hide LoadAccount, AccountColumns, Project, IntAt;
  }

  lemma ProjectKeeps(cols: seq<string>, col: string, r: Row)
    requires col in cols
    ensures IntAt(Project(cols, r), col) == IntAt(r, col)
  {}

  lemma LoadedRow(db: Database, fields: seq<string>, with: AccountWith, r: Row)
    ensures LoadAccount(db, fields, with, r).Some? ==>
              LoadAccount(db, fields, with, r).value.row == Project(AccountColumns(fields, with.proxy.Some?), r)
  {
    hide AccountColumns, OwnGroups, OwnProxies, OwnUsageLogs, OwnLinks;
  }

  lemma AccountGroupKeyed(db: Database, fields: seq<string>, with: AccountGroupWith)
    requires fields == [] || "account_id" in fields
    ensures KeyedBy(AccountGroupLoader(db, fields, with), "account_id", OwnerOf)
  {
    assert ACCOUNT_GROUP_COLUMNS[0] == "account_id";
    hide OwnOwners, OwnGroupRows;
  }
}
