/** Writing a mutation and reading the row back. */
module CreateProof {
  import opened Rows
  import opened Columns
  import opened Codec
  import opened CodecReads
  import opened Create

  /** What a field holds that was never assigned. */
  function Zero(rule: Rule): Option<Value> {
    match rule.style
    case Nillable => None
    case Document => Some(Json(NilMap))
    case _ => match rule.kind
              case NullInt64 => Some(Of(Int(0)))
              case NullString => Some(Of(Text("")))
              case NullTime => Some(Of(Time(0)))
              case NullBool => Some(Of(Flag(false)))
              case NullFloat64 => Some(Of(Float(0)))
              case _ => None
  }

  /** The value of an entity's field; None is a nil pointer. */
  function FieldOf(rule: Rule, fields: Fields, c: Column): Option<Value> {
    if c in fields then Some(fields[c]) else Zero(rule)
  }

  lemma {:induction false} FieldForSpec(t: Created, m: Contents, n: nat, c: Column)
    requires n <= |Scalars(t)|
    ensures FieldFor(SpecFields(t, m, n), c)
         == if c in Scalars(t)[..n] && c in m.fields then Some(SpecField(c, TypeOf(t, c), m.fields[c])) else None
  {
    hide Scalars, TypeOf;
    if n > 0 {
      FieldForSpec(t, m, n - 1, c);
      var last, before := Scalars(t)[n - 1], SpecFields(t, m, n - 1);
      assert Scalars(t)[..n] == Scalars(t)[..n - 1] + [last];
      if last in m.fields {
        var fields := before + [SpecField(last, TypeOf(t, last), m.fields[last])];
        assert fields[..|fields| - 1] == before;
      } else {
        assert before + [] == before;
      }
    }
  }

  lemma {:induction false} EdgeForSpec(t: Created, m: Contents, n: nat, c: Column)
    requires n <= |Keys(t)|
    ensures EdgeFor(SpecEdges(t, m, n), c) == if c in Keys(t)[..n] && c in m.keys then Some(m.keys[c]) else None
  {
    hide Keys;
    if n > 0 {
      EdgeForSpec(t, m, n - 1, c);
      var last, before := Keys(t)[n - 1], SpecEdges(t, m, n - 1);
      assert Keys(t)[..n] == Keys(t)[..n - 1] + [last];
      if last in m.keys {
        var edges := before + [(last, m.keys[last])];
        assert edges[..|edges| - 1] == before;
      } else {
        assert before + [] == before;
      }
    }
  }

  /** The stored cell of a column, from the mutation. */
  function CellFrom(coder: Coder, t: Created, m: Contents, id: Option<int>, c: Column): Cell {
    if c == Id && id.Some? then Int(id.value)
    else if c in m.fields then Encoded(coder, SpecField(c, TypeOf(t, c), m.fields[c]))
    else if c in m.keys then Int(m.keys[c]) else Null
  }

  lemma InsertedIs(coder: Coder, t: Created, m: Contents, id: Option<int>, c: Column)
    requires Typed(t, m)
    ensures Inserted(coder, SpecOf(t, m), id, c) == CellFrom(coder, t, m, id, c)
  {
    hide Scalars, Keys, TypeOf, Encoded, AccountRule, AccountGroupRule;
    if c in m.fields { EveryColumnIsWritten(t, c); }
    FieldForSpec(t, m, |Scalars(t)|, c);
    EdgeForSpec(t, m, |Keys(t)|, c);
    assert Scalars(t)[..|Scalars(t)|] == Scalars(t) && Keys(t)[..|Keys(t)|] == Keys(t);
  }

  /** A cell that can be read and reads as the given field. */
  ghost predicate Reads(coder: Coder, t: Created, c: Column, cell: Cell, field: Option<Value>) {
    && Fits(t.Kind(c), cell) && !Undecodable(coder, t, c, Holder(t.Kind(c), cell))
    && (t.Rule(c).Some? ==>
          var read := ValueOf(coder, t.Rule(c).value, c, cell);
          (if read.Some? then read else Zero(t.Rule(c).value)) == field)
  }

  lemma DocumentColumns(t: Created, c: Column)
    requires t.Rule(c).Some? && t.Rule(c).value.style.Document?
    ensures c == Credentials || c == Extra
  {}

  lemma ScalarReads(coder: Coder, t: Created, c: Column, v: Value)
    requires Lawful(coder) && t.Rule(c).Some? && c != Id && Suits(t.Rule(c).value, v)
    ensures Reads(coder, t, c, Encoded(coder, SpecField(c, TypeOf(t, c), v)), Some(v))
  {
    TablesAgree(t);
    SpecFitsCodec(t, c);
    if v.Json? { DocumentColumns(t, c); }
    hide TypeOf, AccountKind, AccountRule, AccountGroupKind, AccountGroupRule;
    if v.Json? { assert coder.decode(c, coder.encode(v.doc)) == Some(v.doc) && coder.encode(v.doc) != []; }
  }

  lemma KeyReads(coder: Coder, t: Created, c: Column, k: int)
    requires c in Keys(t) || c == Id
    ensures Reads(coder, t, c, Int(k), Some(Of(Int(k))))
  {
    TablesAgree(t);
    SpecFitsCodec(t, c);
    assert t.Kind(Id) == NullInt64 || t.Kind(Id) == UnknownType;
    hide Keys, TypeOf, AccountKind, AccountRule, AccountGroupKind, AccountGroupRule;
  }

  lemma NullReads(coder: Coder, t: Created, c: Column)
    ensures Reads(coder, t, c, Null, if t.Rule(c).Some? then Zero(t.Rule(c).value) else None)
  {
    TablesAgree(t);
    SpecFitsCodec(t, c);
    hide TypeOf, Keys, AccountKind, AccountRule, AccountGroupKind, AccountGroupRule;
  }

  /** One column: its stored cell reads as the field of the node. */
  lemma ColumnReadsBack(coder: Coder, t: Created, m: Contents, id: Option<int>, c: Column)
    requires Lawful(coder) && Typed(t, m)
    ensures Reads(coder, t, c, CellFrom(coder, t, m, id, c),
                  if t.Rule(c).None? then None
                  else if c == Id then Some(Of(Int(if id.Some? then id.value else 0)))
                  else FieldOf(t.Rule(c).value, NodeOf(t, m), c))
  {
    NodeAt(t, m, c);
    SpecFitsCodec(t, c);
    hide Reads, Scalars, Keys, TypeOf, NodeOf, Encoded, Suits, Lawful, AccountKind, AccountRule, AccountGroupKind,
        AccountGroupRule;
    if c == Id && id.Some? {
      KeyReads(coder, t, c, id.value);
    } else if c in m.fields {
      ScalarReads(coder, t, c, m.fields[c]);
    } else if c in m.keys {
      KeyReads(coder, t, c, m.keys[c]);
    } else {
      NullReads(coder, t, c);
    }
  }

  lemma NodeAt(t: Created, m: Contents, c: Column)
    requires Typed(t, m)
    ensures c in NodeOf(t, m) <==> c in m.fields || c in m.keys
    ensures c in m.fields ==> NodeOf(t, m)[c] == m.fields[c]
    ensures c in m.keys ==> NodeOf(t, m)[c] == Of(Int(m.keys[c]))
  {
    hide Scalars, Keys, AccountRule, AccountGroupRule;
    if c in m.fields { EveryColumnIsWritten(t, c); }
  }

  /** Write/read round trip: the row of `createSpec`'s spec, read back through any column list (in any order,
      with repetitions), assigns without error; every column in the list holds what the node returned by the
      create holds, the id column the generated id, and every other column its zero value. */
  lemma WriteThenRead(coder: Coder, t: Created, m: Contents, id: Option<int>, columns: seq<Column>)
    requires Lawful(coder) && Typed(t, m)
    ensures var row := StoredRow(coder, SpecOf(t, m), id);
            var read := AssignFrom(coder, t, Blank, columns, RowHolders(t, columns, row));
            && read.err == None
            && forall c :: t.Rule(c).Some? ==>
                 FieldOf(t.Rule(c).value, read.fields, c)
                 == if c !in columns then Zero(t.Rule(c).value)
                    else if c == Id then Some(Of(Int(if id.Some? then id.value else 0)))
                    else FieldOf(t.Rule(c).value, NodeOf(t, m), c)
  {
    hide Typed, SpecOf, NodeOf, Fits, Undecodable, CellFrom, Inserted, ValueOf, Zero;
    hide AccountKind, AccountRule, AccountGroupKind, AccountGroupRule;
    var row := StoredRow(coder, SpecOf(t, m), id);
    forall c ensures row(c) == CellFrom(coder, t, m, id, c) { InsertedIs(coder, t, m, id, c); }
    forall c { ColumnReadsBack(coder, t, m, id, c); }
    ReadIsPointwise(coder, t, row, columns);
    forall c { HoldingAt(coder, t, row, (set x | x in columns), c); }
  }
}
