/** Assigning scanned columns over an entity that holds something already. */
module CodecOver {
  import opened Rows
  import opened Columns
  import opened Codec

  /** Reading a document over another adds its entries to it; null and what is no map are replaced. */
  ghost predicate DocMerges(before: Doc, read: Doc, after: Doc) {
    if before.NilMap? || read.NilMap? then after == read
    else
      && after.Obj?
      && (forall k :: k in after.entries <==> k in before.entries || k in read.entries)
      && (forall k :: k in read.entries ==> after.entries[k] == read.entries[k])
      && (forall k :: k in before.entries && k !in read.entries ==> after.entries[k] == before.entries[k])
  }

  ghost predicate Unchanged(before: Fields, after: Fields, c: Column) {
    (c in after <==> c in before) && (c in before ==> after[c] == before[c])
  }

  /** What one cell leaves in its field: an id always becomes the number, 0 for NULL; otherwise NULL and empty JSON
      leave the field alone, JSON is merged into it, and any other value replaces it. */
  ghost predicate CellAssigned(coder: Coder, before: Fields, after: Fields, c: Column, cell: Cell) {
    if c == Id then c in after && after[c] == Of(if cell.Int? then cell else Int(0))
    else if cell.Null? || cell == Blob([]) then Unchanged(before, after, c)
    else if !cell.Blob? then c in after && after[c] == Of(cell)
    else
      match coder.decode(c, cell.bytes)
      case None => Unchanged(before, after, c)
      case Some(read) =>
        && c in after && after[c].Json?
        && DocMerges(if c in before && before[c].Json? then before[c].doc else NilMap, read, after[c].doc)
  }

  lemma OnlyIdAlways(t: Table, c: Column)
    requires t.Rule(c).Some?
    ensures t.Rule(c).value.style.Always? <==> c == Id
  {
    if t.Groups? { GroupIdAlways(c); } else { OtherIdAlways(t, c); }
    hide AccountRule, AccountGroupRule, GroupRule;
  }

  lemma GroupIdAlways(c: Column)
    requires GroupRule(c).Some?
    ensures GroupRule(c).value.style.Always? <==> c == Id
  {}

  lemma OtherIdAlways(t: Table, c: Column)
    requires t.Rule(c).Some? && !t.Groups?
    ensures t.Rule(c).value.style.Always? <==> c == Id
  {}

  /** One cell under a rule that suits it. */
  lemma OneRule(coder: Coder, rule: Rule, fields: Fields, c: Column, cell: Cell)
    requires rule.style.Always? <==> c == Id
    requires if rule.style.Document? then cell.Null? || cell.Blob? else !cell.Blob?
    requires cell.Blob? && cell.bytes != [] ==> coder.decode(c, cell.bytes).Some?
    ensures CellAssigned(coder, fields, AssignOne(coder, rule, fields, c, Holder(rule.kind, cell)).0, c, cell)
  {}

  lemma RuleSuits(t: Table, c: Column, cell: Cell)
    requires t.Rule(c).Some? && Fits(t.Kind(c), cell)
    ensures t.Rule(c).value.kind == t.Kind(c)
    ensures if t.Rule(c).value.style.Document? then cell.Null? || cell.Blob? else !cell.Blob?
  {
    TablesAgree(t);
    hide AccountKind, AccountRule, AccountGroupKind, AccountGroupRule, GroupKind, GroupRule;
  }

  lemma OneCell(coder: Coder, t: Table, a: Assigned, c: Column, cell: Cell)
    requires a.err.None? && t.Rule(c).Some? && Fits(t.Kind(c), cell)
    requires !Undecodable(coder, t, c, Holder(t.Kind(c), cell))
    ensures var r := Step(coder, t, a, c, Holder(t.Kind(c), cell));
            && CellAssigned(coder, a.fields, r.fields, c, cell) && r.selected == a.selected && r.err == None
            && forall d :: d != c ==> Unchanged(a.fields, r.fields, d)
  {
    hide AccountKind, AccountRule, AccountGroupKind, AccountGroupRule, GroupKind, GroupRule, CellAssigned, AssignOne;
    hide Fits;
    RuleSuits(t, c, cell);
    OnlyIdAlways(t, c);
    StepErr(coder, t, a, c, Holder(t.Kind(c), cell));
    OneRule(coder, t.Rule(c).value, a.fields, c, cell);
  }

  /** What a list of distinct known columns leaves: each listed field what its cell makes of it, the others as they
      were. */
  ghost predicate AllAssigned(coder: Coder, before: Fields, after: Fields, columns: seq<Column>, values: seq<Holder>)
    requires |values| == |columns|
  {
    && (forall i :: 0 <= i < |columns| ==> CellAssigned(coder, before, after, columns[i], values[i].cell))
    && (forall c :: c !in columns ==> Unchanged(before, after, c))
  }

  /** Assigning distinct columns the entity knows, whatever it held: columns of scanned cells that decode. */
  lemma {:induction false} AssignsOver(coder: Coder, t: Table, a: Assigned, columns: seq<Column>, values: seq<Holder>)
    requires a.err.None? && ScannedFrom(t, columns, values)
    requires forall i :: 0 <= i < |columns| ==>
                           t.Rule(columns[i]).Some? && !Undecodable(coder, t, columns[i], values[i])
    requires forall i, j :: 0 <= i < j < |columns| ==> columns[i] != columns[j]
    ensures var r := AssignFrom(coder, t, a, columns, values);
            r.err == None && r.selected == a.selected && AllAssigned(coder, a.fields, r.fields, columns, values)
    decreases columns
  {
    hide Step, Undecodable, Fits, CellAssigned, AccountRule, AccountGroupRule, GroupRule;
    if columns != [] {
      var c, h, rest := columns[0], values[0], columns[1..];
      assert h == Holder(t.Kind(c), h.cell);
      OneCell(coder, t, a, c, h.cell);
      var next := Step(coder, t, a, c, h);
      assert forall i :: 0 <= i < |rest| ==> rest[i] == columns[i + 1] && values[1..][i] == values[i + 1];
      AssignsOver(coder, t, next, rest, values[1..]);
      var after := AssignFrom(coder, t, next, rest, values[1..]).fields;
      assert c !in rest;
      CellStays(coder, a.fields, next.fields, after, c, h.cell);
      forall i | 0 < i < |columns| ensures CellAssigned(coder, a.fields, after, columns[i], values[i].cell) {
        assert rest[i - 1] == columns[i];
        CellFrom(coder, a.fields, next.fields, after, columns[i], values[i].cell);
      }
      forall d | d !in columns ensures Unchanged(a.fields, after, d) {
        assert d != columns[0] && d !in rest;
        assert Unchanged(a.fields, next.fields, d) && Unchanged(next.fields, after, d);
      }
      assert AssignFrom(coder, t, a, columns, values).fields == after;
    }
  }

  /** Later columns do not touch the field. */
  lemma CellStays(coder: Coder, before: Fields, next: Fields, after: Fields, c: Column, cell: Cell)
    requires CellAssigned(coder, before, next, c, cell) && Unchanged(next, after, c)
    ensures CellAssigned(coder, before, after, c, cell)
  {}

  /** Nor did earlier ones. */
  lemma CellFrom(coder: Coder, before: Fields, next: Fields, after: Fields, c: Column, cell: Cell)
    requires CellAssigned(coder, next, after, c, cell) && Unchanged(before, next, c)
    ensures CellAssigned(coder, before, after, c, cell)
  {}
}
