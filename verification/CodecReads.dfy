/** What reading a row through a column list yields, whatever the order and repetition of the columns. */
module CodecReads {
  import opened Rows
  import opened Columns
  import opened Codec

  /** A stored row: a cell for every column. */
  type Stored = Column -> Cell

  function RowHolders(t: Table, columns: seq<Column>, row: Stored): seq<Holder> {
    seq(|columns|, i requires 0 <= i < |columns| => Holder(t.Kind(columns[i]), row(columns[i])))
  }

  /** Each cell has its column's type, and JSON cells decode. */
  ghost predicate Readable(coder: Coder, t: Table, row: Stored) {
    forall c :: Fits(t.Kind(c), row(c)) && !Undecodable(coder, t, c, Holder(t.Kind(c), row(c)))
  }

  /** The value one cell stands for; None leaves the field at its zero value. */
  function ValueOf(coder: Coder, rule: Rule, c: Column, cell: Cell): Option<Value> {
    match rule.style
    case Always => Some(Of(if cell.Int? then cell else Int(0)))
    case WhenValid | Nillable => if cell.Null? then None else Some(Of(cell))
    case Document =>
      if !cell.Blob? || cell.bytes == [] then None
      else match coder.decode(c, cell.bytes) case None => None case Some(doc) => Some(Json(doc))
  }

  function ValueAt(coder: Coder, t: Table, row: Stored, c: Column): Option<Value> {
    match t.Rule(c) case None => None case Some(rule) => ValueOf(coder, rule, c, row(c))
  }

  /** The entity that holds exactly these columns of the row. */
  function Holding(coder: Coder, t: Table, row: Stored, columns: set<Column>): Assigned {
    Assigned(map c | c in columns && ValueAt(coder, t, row, c).Some? :: ValueAt(coder, t, row, c).value,
             map c | c in columns && t.Rule(c).None? :: Holder(t.Kind(c), row(c)), None)
  }

  lemma HoldingAt(coder: Coder, t: Table, row: Stored, columns: set<Column>, d: Column)
    ensures var f := Holding(coder, t, row, columns).fields;
            && (d in f <==> d in columns && ValueAt(coder, t, row, d).Some?)
            && (d in f ==> f[d] == ValueAt(coder, t, row, d).value)
  {}

  /** Reading a column, even again, adds just that column: a repeated JSON column merges into itself. */
  lemma HoldingStep(coder: Coder, t: Table, row: Stored, columns: set<Column>, c: Column)
    requires Readable(coder, t, row)
    ensures Step(coder, t, Holding(coder, t, row, columns), c, Holder(t.Kind(c), row(c)))
         == Holding(coder, t, row, columns + {c})
  {
    if t.Rule(c).None? {
      UnknownStep(coder, t, row, columns, c);
    } else {
      KnownStep(coder, t, row, columns, c);
    }
  }

  lemma UnknownStep(coder: Coder, t: Table, row: Stored, columns: set<Column>, c: Column)
    requires t.Rule(c).None?
    ensures Step(coder, t, Holding(coder, t, row, columns), c, Holder(t.Kind(c), row(c)))
         == Holding(coder, t, row, columns + {c})
  {
    hide AccountKind, AccountRule, AccountGroupKind, AccountGroupRule, GroupKind, GroupRule;
    hide ValueOf;
    var a, b := Holding(coder, t, row, columns), Holding(coder, t, row, columns + {c});
    assert a.selected[c := Holder(t.Kind(c), row(c))] == b.selected && a.fields == b.fields;
  }

  lemma SameSelected(coder: Coder, t: Table, row: Stored, columns: set<Column>, c: Column)
    requires t.Rule(c).Some?
    ensures Holding(coder, t, row, columns).selected == Holding(coder, t, row, columns + {c}).selected
    ensures Holding(coder, t, row, columns).err == None
  {
    hide AccountKind, AccountRule, AccountGroupKind, AccountGroupRule, GroupKind, GroupRule;
    hide ValueOf;
  }

  lemma KnownStep(coder: Coder, t: Table, row: Stored, columns: set<Column>, c: Column)
    requires Readable(coder, t, row) && t.Rule(c).Some?
    ensures Step(coder, t, Holding(coder, t, row, columns), c, Holder(t.Kind(c), row(c)))
         == Holding(coder, t, row, columns + {c})
  {
    hide AccountKind, AccountRule, AccountGroupKind, AccountGroupRule, GroupKind, GroupRule;
    hide AssignOne, ValueAt, Agrees, Readable, Undecodable, Holding;
    var h, a, b := Holder(t.Kind(c), row(c)), Holding(coder, t, row, columns), Holding(coder, t, row, columns + {c});
    var r := AssignOne(coder, t.Rule(c).value, a.fields, c, h).0;
    SameSelected(coder, t, row, columns, c);
    HoldingNoErr(coder, t, row, columns + {c});
    StepErr(coder, t, a, c, h);
    NotUndecodable(coder, t, row, c);
    OwnColumn(coder, t, row, columns, c);
    forall d ensures d in r <==> d in b.fields {
      HoldingAt(coder, t, row, columns, d);
      HoldingAt(coder, t, row, columns + {c}, d);
    }
    forall d | d in r ensures r[d] == b.fields[d] {
      HoldingAt(coder, t, row, columns, d);
      HoldingAt(coder, t, row, columns + {c}, d);
    }
    assert r == b.fields;
  }

  lemma NotUndecodable(coder: Coder, t: Table, row: Stored, c: Column)
    requires Readable(coder, t, row)
    ensures Fits(t.Kind(c), row(c)) && !Undecodable(coder, t, c, Holder(t.Kind(c), row(c)))
  {}

  /** Assigning a column over nothing, or over the same value, leaves the value its cell stands for. */
  lemma AssignOneIs(coder: Coder, rule: Rule, fields: Fields, c: Column, cell: Cell)
    requires rule.style.Document? && cell.Blob? && cell.bytes != [] ==> coder.decode(c, cell.bytes).Some?
    requires c in fields ==> ValueOf(coder, rule, c, cell) == Some(fields[c])
    ensures var v := ValueOf(coder, rule, c, cell);
            AssignOne(coder, rule, fields, c, Holder(rule.kind, cell)).0
            == if v.Some? then fields[c := v.value] else fields
  {
    var doc := DocAt(fields, c);
    if doc.Obj? { assert doc.entries + doc.entries == doc.entries; }
  }

  lemma OwnColumn(coder: Coder, t: Table, row: Stored, columns: set<Column>, c: Column)
    requires Readable(coder, t, row) && t.Rule(c).Some?
    ensures var before := Holding(coder, t, row, columns).fields;
            var r := AssignOne(coder, t.Rule(c).value, before, c, Holder(t.Kind(c), row(c))).0;
            && (c in r <==> ValueAt(coder, t, row, c).Some?)
            && (c in r ==> r[c] == ValueAt(coder, t, row, c).value)
  {
    hide AccountKind, AccountRule, AccountGroupKind, AccountGroupRule, GroupKind, GroupRule;
    hide ValueOf, AssignOne, Holding, Agrees;
    HoldingAt(coder, t, row, columns, c);
    NotUndecodable(coder, t, row, c);
    KindFits(t, c);
    AssignOneIs(coder, t.Rule(c).value, Holding(coder, t, row, columns).fields, c, row(c));
  }

  lemma KindFits(t: Table, c: Column)
    requires t.Rule(c).Some?
    ensures t.Rule(c).value.kind == t.Kind(c)
  {
    TablesAgree(t);
  }

  lemma {:induction false} ReadFrom(coder: Coder, t: Table, row: Stored, done: set<Column>, columns: seq<Column>)
    requires Readable(coder, t, row)
    ensures AssignFrom(coder, t, Holding(coder, t, row, done), columns, RowHolders(t, columns, row))
         == Holding(coder, t, row, done + set c | c in columns)
    decreases columns
  {
    hide Agrees, Readable, Step, Holding;
    if columns == [] {
      assert done + (set c | c in columns) == done;
    } else {
      var c, rest := columns[0], columns[1..];
      HoldingStep(coder, t, row, done, c);
      HoldingNoErr(coder, t, row, done);
      assert RowHolders(t, columns, row)[1..] == RowHolders(t, rest, row);
      ReadFrom(coder, t, row, done + {c}, rest);
      assert done + {c} + (set d | d in rest) == done + set d | d in columns;
    }
  }

  lemma HoldingNoErr(coder: Coder, t: Table, row: Stored, done: set<Column>)
    ensures Holding(coder, t, row, done).err == None
  {}

  const Blank: Assigned := Assigned(map[], map[], None)

  /** The listed cells have their column's type, and the listed JSON cells decode. */
  ghost predicate ReadableAt(coder: Coder, t: Table, row: Stored, columns: seq<Column>) {
    forall c :: c in columns ==> Fits(t.Kind(c), row(c)) && !Undecodable(coder, t, c, Holder(t.Kind(c), row(c)))
  }

  /** Reading a row through any column list whose cells decode gives exactly the listed columns, whatever the other
      columns hold: the order of the columns and how often each is repeated make no difference. */
  lemma ReadIsPointwise(coder: Coder, t: Table, row: Stored, columns: seq<Column>)
    requires ReadableAt(coder, t, row, columns)
    ensures AssignFrom(coder, t, Blank, columns, RowHolders(t, columns, row))
         == Holding(coder, t, row, set c | c in columns)
  {
    hide AccountKind, AccountRule, AccountGroupKind, AccountGroupRule, GroupKind, GroupRule, AssignFrom;
    var listed := set c | c in columns;
    var read: Stored := c => if c in listed then row(c) else Null;
    assert Blank == Holding(coder, t, read, {});
    ReadFrom(coder, t, read, {}, columns);
    assert {} + listed == listed && RowHolders(t, columns, read) == RowHolders(t, columns, row);
    SameListed(coder, t, row, read, listed);
  }

  lemma SameListed(coder: Coder, t: Table, row: Stored, read: Stored, listed: set<Column>)
    requires forall c :: c in listed ==> read(c) == row(c)
    ensures Holding(coder, t, read, listed) == Holding(coder, t, row, listed)
  {
    hide AccountKind, AccountRule, AccountGroupKind, AccountGroupRule, GroupKind, GroupRule, ValueOf;
    assert forall c :: c in listed ==> ValueAt(coder, t, read, c) == ValueAt(coder, t, row, c);
  }

  /** The same scanned pairs of distinct columns, in another order. */
  ghost predicate Reorders(t: Table, cs: seq<Column>, hs: seq<Holder>, ds: seq<Column>, gs: seq<Holder>) {
    && ScannedFrom(t, cs, hs) && ScannedFrom(t, ds, gs)
    && (forall i, j :: 0 <= i < j < |cs| ==> cs[i] != cs[j])
    && (forall i :: 0 <= i < |cs| ==> HasPair(ds, gs, cs[i], hs[i]))
    && (forall j :: 0 <= j < |ds| ==> HasPair(cs, hs, ds[j], gs[j]))
  }

  ghost predicate HasPair(cs: seq<Column>, hs: seq<Holder>, c: Column, h: Holder) {
    exists i :: 0 <= i < |cs| && i < |hs| && cs[i] == c && hs[i] == h
  }

  lemma ReordersBothDecode(coder: Coder, t: Table, cs: seq<Column>, hs: seq<Holder>, ds: seq<Column>, gs: seq<Holder>)
    requires Reorders(t, cs, hs, ds, gs) && forall i :: 0 <= i < |cs| ==> !Undecodable(coder, t, cs[i], hs[i])
    ensures AssignFrom(coder, t, Blank, cs, hs) == AssignFrom(coder, t, Blank, ds, gs)
  {
    hide AccountKind, AccountRule, AccountGroupKind, AccountGroupRule, GroupKind, GroupRule, Undecodable, Fits, Holding;
    var row: Stored := c => CellOf(cs, hs, c);
    forall i | 0 <= i < |cs| ensures row(cs[i]) == hs[i].cell { CellOfAt(cs, hs, i); }
    assert hs == RowHolders(t, cs, row);
    assert gs == RowHolders(t, ds, row);
    SameColumns(t, cs, hs, ds, gs);
    hide Reorders;
    ReadIsPointwise(coder, t, row, cs);
    ReadIsPointwise(coder, t, row, ds);
  }

  lemma SameColumns(t: Table, cs: seq<Column>, hs: seq<Holder>, ds: seq<Column>, gs: seq<Holder>)
    requires Reorders(t, cs, hs, ds, gs)
    ensures (set c | c in cs) == set c | c in ds
  {
    ColumnsWithin(cs, hs, ds, gs);
    ColumnsWithin(ds, gs, cs, hs);
    hide HasPair, ScannedFrom;
  }

  lemma ColumnsWithin(cs: seq<Column>, hs: seq<Holder>, ds: seq<Column>, gs: seq<Holder>)
    requires |cs| == |hs| && forall i :: 0 <= i < |cs| ==> HasPair(ds, gs, cs[i], hs[i])
    ensures forall c :: c in cs ==> c in ds
  {
    hide HasPair;
    forall c | c in cs ensures c in ds {
      var i :| 0 <= i < |cs| && cs[i] == c;
      PairIn(ds, gs, cs[i], hs[i]);
    }
  }

  lemma PairIn(cs: seq<Column>, hs: seq<Holder>, c: Column, h: Holder)
    requires HasPair(cs, hs, c, h)
    ensures c in cs
  {}

  /** The error is that of the first column whose JSON does not decode. */
  lemma {:induction false} ErrorIsFirst(coder: Coder, t: Table, a: Assigned, cs: seq<Column>, hs: seq<Holder>, i: nat)
    requires a.err.None? && ScannedFrom(t, cs, hs) && i < |cs| && Undecodable(coder, t, cs[i], hs[i])
    requires forall j :: 0 <= j < i ==> !Undecodable(coder, t, cs[j], hs[j])
    ensures AssignFrom(coder, t, a, cs, hs).err == Some(BadJson(cs[i]))
    decreases cs
  {
    hide Agrees, Step, Undecodable, Fits;
    StepErr(coder, t, a, cs[0], hs[0]);
    var next := Step(coder, t, a, cs[0], hs[0]);
    if i > 0 {
      assert forall j :: 0 <= j < |cs[1..]| ==> cs[1..][j] == cs[j + 1] && hs[1..][j] == hs[j + 1];
      ErrorIsFirst(coder, t, next, cs[1..], hs[1..], i - 1);
    } else {
      assert AssignFrom(coder, t, next, cs[1..], hs[1..]) == next;
    }
  }

  lemma FirstUndecodable(coder: Coder, t: Table, cs: seq<Column>, hs: seq<Holder>, n: nat)
    returns (i: nat)
    requires n < |cs| == |hs| && Undecodable(coder, t, cs[n], hs[n])
    ensures i <= n && Undecodable(coder, t, cs[i], hs[i])
    ensures forall j :: 0 <= j < i ==> !Undecodable(coder, t, cs[j], hs[j])
  {
    i := 0;
    while !Undecodable(coder, t, cs[i], hs[i])
      invariant i <= n && forall j :: 0 <= j < i ==> !Undecodable(coder, t, cs[j], hs[j])
      decreases n - i
    {
      i := i + 1;
    }
  }

  /** At most one of the columns does not decode. */
  ghost predicate OneCulprit(coder: Coder, t: Table, cs: seq<Column>, hs: seq<Holder>)
    requires |cs| == |hs|
  {
    forall i, j :: 0 <= i < j < |cs| ==> !(Undecodable(coder, t, cs[i], hs[i]) && Undecodable(coder, t, cs[j], hs[j]))
  }

  /** For distinct columns, any reordering of the scanned pairs succeeds alike and then assigns the same entity;
      and it fails with the same error when only one column is to blame. */
  lemma OrderIsIrrelevant(coder: Coder, t: Table, cs: seq<Column>, hs: seq<Holder>, ds: seq<Column>, gs: seq<Holder>)
    requires Reorders(t, cs, hs, ds, gs)
    ensures var a, b := AssignFrom(coder, t, Blank, cs, hs), AssignFrom(coder, t, Blank, ds, gs);
            && (a.err.None? <==> b.err.None?) && (a.err.None? ==> a == b)
            && (OneCulprit(coder, t, cs, hs) ==> a.err == b.err)
  {
    hide Undecodable, AssignFrom, Fits;
    if k :| 0 <= k < |cs| && Undecodable(coder, t, cs[k], hs[k]) {
      ReordersBothFail(coder, t, cs, hs, ds, gs, k);
    } else {
      OnlyJsonFails(coder, t, Blank, cs, hs);
      ReordersBothDecode(coder, t, cs, hs, ds, gs);
    }
  }

  lemma ReordersBothFail(coder: Coder, t: Table, cs: seq<Column>, hs: seq<Holder>, ds: seq<Column>, gs: seq<Holder>,
                         k: nat)
    requires Reorders(t, cs, hs, ds, gs) && k < |cs| && Undecodable(coder, t, cs[k], hs[k])
    ensures var a, b := AssignFrom(coder, t, Blank, cs, hs).err, AssignFrom(coder, t, Blank, ds, gs).err;
            a.Some? && b.Some? && (OneCulprit(coder, t, cs, hs) ==> a == b)
  {
    hide Undecodable, AssignFrom, Fits;
    var m :| 0 <= m < |ds| && ds[m] == cs[k] && gs[m] == hs[k];
    var i := FirstUndecodable(coder, t, cs, hs, k);
    var j := FirstUndecodable(coder, t, ds, gs, m);
    ErrorIsFirst(coder, t, Blank, cs, hs, i);
    ErrorIsFirst(coder, t, Blank, ds, gs, j);
  }

  /** Any column that does not decode is the one reported when it comes first. */
  lemma CulpritInFront(coder: Coder, t: Table, cs: seq<Column>, hs: seq<Holder>, k: nat)
    requires ScannedFrom(t, cs, hs) && forall i, j :: 0 <= i < j < |cs| ==> cs[i] != cs[j]
    requires k < |cs| && Undecodable(coder, t, cs[k], hs[k])
    ensures Reorders(t, cs, hs, InFront(cs, k), InFront(hs, k))
    ensures AssignFrom(coder, t, Blank, InFront(cs, k), InFront(hs, k)).err == Some(BadJson(cs[k]))
  {
    hide Undecodable, AssignFrom, Fits, InFront, AccountKind, AccountGroupKind, GroupKind;
    var ds, gs := InFront(cs, k), InFront(hs, k);
    forall i | 0 <= i < |cs| ensures exists j :: 0 <= j < |ds| && ds[j] == cs[i] && gs[j] == hs[i] {
      var j := if i == k then 0 else if i < k then i + 1 else i;
      assert ds[j] == cs[Source(k, j)] && gs[j] == hs[Source(k, j)];
    }
    ErrorIsFirst(coder, t, Blank, ds, gs, 0);
  }

  /** The error is the same in every order of distinct columns exactly when at most one of them does not decode. */
  lemma ErrorOrderIsExact(coder: Coder, t: Table, cs: seq<Column>, hs: seq<Holder>)
    requires ScannedFrom(t, cs, hs) && forall i, j :: 0 <= i < j < |cs| ==> cs[i] != cs[j]
    ensures (forall ds, gs :: Reorders(t, cs, hs, ds, gs) ==>
               AssignFrom(coder, t, Blank, ds, gs).err == AssignFrom(coder, t, Blank, cs, hs).err)
            <==> OneCulprit(coder, t, cs, hs)
  {
    hide Undecodable, AssignFrom, Fits, HasPair, InFront;
    if OneCulprit(coder, t, cs, hs) {
      forall ds, gs | Reorders(t, cs, hs, ds, gs)
        ensures AssignFrom(coder, t, Blank, ds, gs).err == AssignFrom(coder, t, Blank, cs, hs).err
      {
        OrderIsIrrelevant(coder, t, cs, hs, ds, gs);
      }
    } else {
      var i, j :| 0 <= i < j < |cs| && Undecodable(coder, t, cs[i], hs[i]) && Undecodable(coder, t, cs[j], hs[j]);
      CulpritInFront(coder, t, cs, hs, i);
      CulpritInFront(coder, t, cs, hs, j);
    }
  }

  /** Element k moved to the front. */
  function InFront<T>(s: seq<T>, k: nat): (r: seq<T>)
    requires k < |s|
    ensures |r| == |s| && forall j :: 0 <= j < |s| ==> r[j] == s[Source(k, j)]
  {
    [s[k]] + s[..k] + s[k + 1..]
  }

  function Source(k: nat, j: nat): nat { if j == 0 then k else if j <= k then j - 1 else j }

  function CellOf(cs: seq<Column>, hs: seq<Holder>, c: Column): Cell {
    if cs == [] || hs == [] then Null else if cs[0] == c then hs[0].cell else CellOf(cs[1..], hs[1..], c)
  }

  lemma {:induction false} CellOfAt(cs: seq<Column>, hs: seq<Holder>, i: nat)
    requires i < |cs| == |hs| && forall j, k :: 0 <= j < k < |cs| ==> cs[j] != cs[k]
    ensures CellOf(cs, hs, cs[i]) == hs[i].cell
  {
    if i > 0 { CellOfAt(cs[1..], hs[1..], i - 1); }
  }
}
