/** Create builders: defaults, checks, and the row and node made from a mutation. */
module Create {
  import opened Rows
  import opened Columns
  import opened Codec
  import opened CodecReads

  /** The package variables: default functions, None where unset, and default constants. */
  datatype Defaults = Defaults(funcs: Column -> Option<Value>, consts: Column -> Value)

  /** The entities whose create builders are modelled. */
  type Created = t: Table | !t.Groups? witness Accounts

  type Validators = (Column, Value) -> bool

  // ---------------------------------------------------------------- the two entities

  function AccountScalars(): seq<Column> {
    [CreatedAt, UpdatedAt, DeletedAt, Name, Notes, Platform, Type, Credentials, Extra, Concurrency, LoadFactor,
     Priority, RateMultiplier, UpstreamCostMultiplier, UpstreamCostMultiplierUpdatedAt,
     UpstreamCostMultiplierChangeId, UpstreamCostMultiplierSource, CurrentFinanceProfileId, Status, ErrorMessage,
     LastUsedAt, ExpiresAt, AutoPauseOnExpired, Schedulable, RateLimitedAt, RateLimitResetAt, OverloadUntil,
     TempUnschedulableUntil, TempUnschedulableReason, SessionWindowStart, SessionWindowEnd, SessionWindowStatus]
  }

  function AccountDefaulted(): seq<Column> {
    [CreatedAt, UpdatedAt, Credentials, Extra, Concurrency, Priority, RateMultiplier, UpstreamCostMultiplierSource,
     Status, AutoPauseOnExpired, Schedulable]
  }

  function AccountChecked(): seq<Column> {
    [CreatedAt, UpdatedAt, Name, Platform, Type, Credentials, Extra, Concurrency, Priority, RateMultiplier,
     UpstreamCostMultiplierSource, Status, AutoPauseOnExpired, Schedulable, SessionWindowStatus]
  }

  function AccountFieldType(c: Column): FieldType {
    match c
    case Credentials | Extra => TypeJSON
    case Concurrency | LoadFactor | Priority => TypeInt
    case RateMultiplier | UpstreamCostMultiplier => TypeFloat64
    case UpstreamCostMultiplierChangeId | CurrentFinanceProfileId | Id | ProxyId => TypeInt64
    case AutoPauseOnExpired | Schedulable => TypeBool
    case Name | Notes | Platform | Type | UpstreamCostMultiplierSource | Status | ErrorMessage
      | TempUnschedulableReason | SessionWindowStatus => TypeString
    case _ => TypeTime
  }

  /** The columns `createSpec` writes as scalars, in its order. */
  function Scalars(t: Created): seq<Column> { if t.Accounts? then AccountScalars() else [Priority, CreatedAt] }

  /** The columns it writes through edges: both keys of a link, which has no id. */
  function Keys(t: Created): seq<Column> { if t.Accounts? then [ProxyId] else [AccountId, GroupId] }

  function TypeOf(t: Created, c: Column): FieldType {
    if t.Accounts? then AccountFieldType(c) else if c == CreatedAt then TypeTime else TypeInt
  }

  /** The columns `defaults` fills, and those whose default is a function that may be unset. */
  function DefaultColumns(t: Created): seq<Column> { if t.Accounts? then AccountDefaulted() else [Priority, CreatedAt] }

  predicate FromFunction(t: Created, c: Column) {
    t.Accounts? && (c == CreatedAt || c == UpdatedAt || c == Credentials || c == Extra)
  }

  /** The columns `check` looks at, those it requires and those it validates. */
  function CheckedColumns(t: Created): seq<Column> {
    if t.Accounts? then AccountChecked() else [AccountId, GroupId, Priority, CreatedAt]
  }

  predicate Required(t: Created, c: Column) { t.Accounts? ==> c != SessionWindowStatus }

  predicate Validated(t: Created, c: Column) {
    t.Accounts?
    && (c == Name || c == Platform || c == Type || c == UpstreamCostMultiplierSource || c == Status
        || c == SessionWindowStatus)
  }

  // ---------------------------------------------------------------- defaults and check

  function DefaultFor(t: Created, d: Defaults, c: Column): Option<Value> {
    if FromFunction(t, c) then d.funcs(c) else Some(d.consts(c))
  }

  /** `defaults` over the given columns: fill what is unset, stop at the first that cannot be computed. */
  function Defaulted(t: Created, d: Defaults, m: Contents, columns: seq<Column>): (Contents, bool)
    decreases columns
  {
    if columns == [] then (m, true)
    else if columns[0] in m.fields then Defaulted(t, d, m, columns[1..])
    else match DefaultFor(t, d, columns[0])
         case None => (m, false)
         case Some(v) => Defaulted(t, d, m.(fields := m.fields[columns[0] := v]), columns[1..])
  }

  /** A unique edge's key is set through the edge. */
  predicate Present(t: Created, m: Contents, c: Column) { if c in Keys(t) then c in m.keys else c in m.fields }

  /** One step of `check`. */
  predicate Acceptable(t: Created, v: Validators, m: Contents, c: Column) {
    && (Required(t, c) ==> Present(t, m, c))
    && (Validated(t, c) && c in m.fields ==> v(c, m.fields[c]))
  }

  predicate Passes(t: Created, v: Validators, m: Contents) {
    forall c :: c in CheckedColumns(t) ==> Acceptable(t, v, m, c)
  }

  /** What was set stays; with every default computable all defaulted columns are set, from the defaults
      where they were not; otherwise one of them stays unset. */
  lemma {:induction false} DefaultsFill(t: Created, d: Defaults, m: Contents, columns: seq<Column>)
    ensures var (n, ok) := Defaulted(t, d, m, columns);
            && n.keys == m.keys
            && (ok <==> forall c :: c in columns && c !in m.fields ==> DefaultFor(t, d, c).Some?)
            && (ok <==> forall c :: c in columns ==> c in n.fields)
            && (forall c :: c in m.fields ==> c in n.fields && n.fields[c] == m.fields[c])
            && (forall c :: c in n.fields && c !in m.fields ==>
                  c in columns && DefaultFor(t, d, c) == Some(n.fields[c]))
    decreases columns
  {
    hide DefaultFor;
    if columns != [] {
      var c, rest := columns[0], columns[1..];
      assert forall x :: x in columns <==> x == c || x in rest;
      if c in m.fields {
        DefaultsFill(t, d, m, rest);
      } else if DefaultFor(t, d, c).Some? {
        DefaultsFill(t, d, m.(fields := m.fields[c := DefaultFor(t, d, c).value]), rest);
      }
    }
  }

  /** `check` after `defaults` passes exactly when every default could be computed, every required column
      without a default was set, and every value to validate, its own or a default, is accepted. So a default
      that could not be computed never gets past `check`, even when the error of `defaults` is dropped. */
  lemma CheckAfterDefaults(t: Created, d: Defaults, v: Validators, m: Contents)
    ensures var (n, ok) := Defaulted(t, d, m, DefaultColumns(t));
            Passes(t, v, n) <==>
              && ok
              && (forall c :: c in CheckedColumns(t) && Required(t, c) && c !in DefaultColumns(t) ==> Present(t, m, c))
              && (forall c :: c in CheckedColumns(t) && Validated(t, c) && c in m.fields ==> v(c, m.fields[c]))
              && (forall c :: c in CheckedColumns(t) && Validated(t, c) && c in DefaultColumns(t) && c !in m.fields ==>
                    DefaultFor(t, d, c).Some? && v(c, DefaultFor(t, d, c).value))
  {
    hide Defaulted, DefaultFor, DefaultColumns, CheckedColumns, Required, Validated, Keys;
    forall c | c in DefaultColumns(t) { DefaultsAreRequired(t, c); }
    DefaultsFill(t, d, m, DefaultColumns(t));
    var (n, ok) := Defaulted(t, d, m, DefaultColumns(t));
    if Passes(t, v, n) {
      forall c | c in DefaultColumns(t) ensures c in n.fields {
        assert Acceptable(t, v, n, c);
      }
      forall c | c in CheckedColumns(t) && Required(t, c) && c !in DefaultColumns(t) ensures Present(t, m, c) {
        assert Acceptable(t, v, n, c);
      }
      forall c | c in CheckedColumns(t) && Validated(t, c) && c in m.fields ensures v(c, m.fields[c]) {
        assert Acceptable(t, v, n, c);
      }
      forall c | c in CheckedColumns(t) && Validated(t, c) && c in DefaultColumns(t) && c !in m.fields
        ensures DefaultFor(t, d, c).Some? && v(c, DefaultFor(t, d, c).value)
      {
        assert Acceptable(t, v, n, c);
      }
    }
  }

  lemma AccountCheckedAt(i: nat)
    requires i < |AccountChecked()|
    ensures AccountChecked()[i] in {Name, Platform, Type, SessionWindowStatus}
            || AccountChecked()[i] in AccountDefaulted()
  {
    if i < 2 || 5 <= i < 14 { assert AccountChecked()[i] == AccountDefaulted()[if i < 2 then i else i - 3]; }
  }

  lemma AccountUndefaulted()
    ensures Name in AccountChecked() && Platform in AccountChecked() && Type in AccountChecked()
    ensures SessionWindowStatus in AccountChecked()
  {
    var s := AccountChecked();
    assert s[2] == Name && s[3] == Platform && s[4] == Type && s[14] == SessionWindowStatus;
  }

  /** The account lists, column by column: checked are the defaulted columns and four more. */
  lemma AccountFacts(c: Column)
    ensures c in AccountChecked()
            <==> c in AccountDefaulted() || c == Name || c == Platform || c == Type || c == SessionWindowStatus
    ensures c in AccountDefaulted() ==>
              c != Name && c != Platform && c != Type && c != SessionWindowStatus && c != ProxyId
  {
    hide AccountChecked, AccountDefaulted;
    AccountUndefaulted();
    if c in AccountChecked() {
      var i :| 0 <= i < |AccountChecked()| && AccountChecked()[i] == c;
      AccountCheckedAt(i);
    }
    if c in AccountDefaulted() {
      var i :| 0 <= i < |AccountDefaulted()| && AccountDefaulted()[i] == c;
      AccountDefaultIsChecked(i);
    }
  }

  lemma AccountAcceptable(v: Validators, n: Contents, c: Column)
    requires c != ProxyId
    ensures Acceptable(Accounts, v, n, c)
            <==> (c != SessionWindowStatus ==> c in n.fields)
                 && (Validated(Accounts, c) && c in n.fields ==> v(c, n.fields[c]))
  {}

  /** For accounts: `check` after `defaults` passes exactly when every default could be computed, name, platform
      and type were set, and the six validators accept, the session window's only if its field is set. */
  lemma AccountCheckExact(d: Defaults, v: Validators, m: Contents)
    ensures var (n, ok) := Defaulted(Accounts, d, m, AccountDefaulted());
            Passes(Accounts, v, n) <==>
              && ok && Name in m.fields && Platform in m.fields && Type in m.fields
              && forall c :: Validated(Accounts, c) && c in n.fields ==> v(c, n.fields[c])
  {
    hide Defaulted, DefaultFor, Acceptable, Validated, AccountChecked, AccountDefaulted;
    DefaultsFill(Accounts, d, m, AccountDefaulted());
    var (n, ok) := Defaulted(Accounts, d, m, AccountDefaulted());
    AccountFacts(Name);
    AccountFacts(Platform);
    AccountFacts(Type);
    if Passes(Accounts, v, n) {
      forall c | Validated(Accounts, c) && c in n.fields ensures v(c, n.fields[c]) {
        ValidatedIsChecked(c);
        AccountAcceptable(v, n, c);
      }
      forall c | c in AccountDefaulted() || c == Name || c == Platform || c == Type ensures c in n.fields {
        AccountFacts(c);
        AccountAcceptable(v, n, c);
      }
    }
    if ok && Name in m.fields && Platform in m.fields && Type in m.fields
       && forall c :: Validated(Accounts, c) && c in n.fields ==> v(c, n.fields[c])
    {
      forall c | c in AccountChecked() ensures Acceptable(Accounts, v, n, c) {
        AccountFacts(c);
        AccountAcceptable(v, n, c);
      }
    }
  }

  lemma ValidatedIsChecked(c: Column)
    requires Validated(Accounts, c)
    ensures c in AccountChecked() && c != ProxyId
  {
    AccountFacts(c);
    assert AccountDefaulted()[7] == UpstreamCostMultiplierSource && AccountDefaulted()[8] == Status;
  }

  // ---------------------------------------------------------------- createSpec

  function SpecFields(t: Created, m: Contents, n: nat): seq<SpecField>
    requires n <= |Scalars(t)|
  {
    if n == 0 then []
    else
      var c := Scalars(t)[n - 1];
      SpecFields(t, m, n - 1) + if c in m.fields then [SpecField(c, TypeOf(t, c), m.fields[c])] else []
  }

  function SpecEdges(t: Created, m: Contents, n: nat): seq<(Column, int)>
    requires n <= |Keys(t)|
  {
    if n == 0 then []
    else
      var c := Keys(t)[n - 1];
      SpecEdges(t, m, n - 1) + if c in m.keys then [(c, m.keys[c])] else []
  }

  function SpecOf(t: Created, m: Contents): CreateSpec {
    CreateSpec(SpecFields(t, m, |Scalars(t)|), SpecEdges(t, m, |Keys(t)|))
  }

  function Picked(m: Contents, columns: seq<Column>): Fields { map c | c in columns && c in m.fields :: m.fields[c] }

  function Linked(m: Contents, columns: seq<Column>): Fields {
    map c | c in columns && c in m.keys :: Of(Int(m.keys[c]))
  }

  /** The fields of the node `createSpec` returns: what was set, and the keys its edges carry. */
  function NodeOf(t: Created, m: Contents): Fields { Picked(m, Scalars(t)) + Linked(m, Keys(t)) }

  lemma PickedStep(m: Contents, columns: seq<Column>, c: Column)
    ensures Picked(m, columns + [c])
         == if c in m.fields then Picked(m, columns)[c := m.fields[c]] else Picked(m, columns)
  {}

  /** What one more scalar column adds to the spec and to the node. */
  lemma ScalarStep(t: Created, m: Contents, i: nat)
    requires i < |Scalars(t)|
    ensures var c := Scalars(t)[i];
            && SpecFields(t, m, i + 1)
               == SpecFields(t, m, i) + (if c in m.fields then [SpecField(c, TypeOf(t, c), m.fields[c])] else [])
            && Picked(m, Scalars(t)[..i + 1])
               == if c in m.fields then Picked(m, Scalars(t)[..i])[c := m.fields[c]] else Picked(m, Scalars(t)[..i])
  {
    hide Scalars, TypeOf, Picked;
    assert Scalars(t)[..i + 1] == Scalars(t)[..i] + [Scalars(t)[i]];
    PickedStep(m, Scalars(t)[..i], Scalars(t)[i]);
  }

  lemma LinkedStep(m: Contents, columns: seq<Column>, c: Column, before: Fields)
    ensures before + Linked(m, columns + [c])
         == if c in m.keys then (before + Linked(m, columns))[c := Of(Int(m.keys[c]))] else before + Linked(m, columns)
  {}

  class CreateBuilder {
    const t: Created
    var contents: Contents

    constructor (t: Created, contents: Contents)
      ensures this.t == t && this.contents == contents
    {
      this.t, this.contents := t, contents;
    }

    /** `defaults`; false where it returns an error. */
    method ApplyDefaults(d: Defaults) returns (ok: bool)
      modifies this
      ensures (contents, ok) == Defaulted(t, d, old(contents), DefaultColumns(t))
    {
      hide DefaultColumns, FromFunction;
      ghost var all := Defaulted(t, d, contents, DefaultColumns(t));
      for i := 0 to |DefaultColumns(t)|
        invariant Defaulted(t, d, contents, DefaultColumns(t)[i..]) == all
      {
        var c := DefaultColumns(t)[i];
        assert DefaultColumns(t)[i..][0] == c && DefaultColumns(t)[i..][1..] == DefaultColumns(t)[i + 1..];
        if c !in contents.fields {
          var v := DefaultFor(t, d, c);
          if v.None? { return false; }
          contents := contents.(fields := contents.fields[c := v.value]);
        }
      }
      ok := true;
    }

    /** `check`: the first column at fault, if any. */
    method Check(v: Validators) returns (bad: Option<Column>)
      ensures bad.None? <==> Passes(t, v, contents)
      ensures bad.Some? ==> exists i :: 0 <= i < |CheckedColumns(t)| && CheckedColumns(t)[i] == bad.value
                                      && !Acceptable(t, v, contents, CheckedColumns(t)[i])
                                      && forall j :: 0 <= j < i ==> Acceptable(t, v, contents, CheckedColumns(t)[j])
    {
      hide CheckedColumns, Required, Validated, Keys;
      for i := 0 to |CheckedColumns(t)|
        invariant forall j :: 0 <= j < i ==> Acceptable(t, v, contents, CheckedColumns(t)[j])
      {
        var c := CheckedColumns(t)[i];
        assert c in CheckedColumns(t);
        if Required(t, c) && !Present(t, contents, c) { return Some(c); }
        if Validated(t, c) && c in contents.fields && !v(c, contents.fields[c]) { return Some(c); }
      }
      bad := None;
    }

    /** The scalar half of `createSpec`: field specs and node fields, side by side. */
    method AddScalars(node: Entity) returns (fields: seq<SpecField>)
      requires node.fields == map[]
      modifies node
      ensures node.fields == Picked(contents, Scalars(t)) && node.selected == old(node.selected)
      ensures fields == SpecFields(t, contents, |Scalars(t)|)
    {
      assert Picked(contents, Scalars(t)[..0]) == map[];
      assert SpecFields(t, contents, 0) == [];
      hide Picked, Scalars, TypeOf, SpecFields;
      fields := [];
      for i := 0 to |Scalars(t)|
        invariant fields == SpecFields(t, contents, i)
        invariant node.fields == Picked(contents, Scalars(t)[..i]) && node.selected == old(node.selected)
      {
        ScalarStep(t, contents, i);
        var c := Scalars(t)[i];
        if c in contents.fields {
          fields := fields + [SpecField(c, TypeOf(t, c), contents.fields[c])];
          node.fields := node.fields[c := contents.fields[c]];
        }
      }
      assert Scalars(t)[..|Scalars(t)|] == Scalars(t);
    }

    /** The edge half: an edge spec carries the key, and the node's key field is set beside it. */
    method AddEdges(node: Entity) returns (edges: seq<(Column, int)>)
      modifies node
      ensures node.fields == old(node.fields) + Linked(contents, Keys(t)) && node.selected == old(node.selected)
      ensures edges == SpecEdges(t, contents, |Keys(t)|)
    {
      assert Linked(contents, Keys(t)[..0]) == map[];
      hide Linked, Keys;
      edges := [];
      ghost var before := node.fields;
      for i := 0 to |Keys(t)|
        invariant edges == SpecEdges(t, contents, i)
        invariant node.fields == before + Linked(contents, Keys(t)[..i]) && node.selected == old(node.selected)
      {
        var c := Keys(t)[i];
        assert Keys(t)[..i + 1] == Keys(t)[..i] + [c];
        LinkedStep(contents, Keys(t)[..i], c, before);
        if c in contents.keys {
          edges := edges + [(c, contents.keys[c])];
          node.fields := node.fields[c := Of(Int(contents.keys[c]))];
        }
      }
      assert Keys(t)[..|Keys(t)|] == Keys(t);
    }

    /** `createSpec`: the spec to insert and the node to return. */
    method MakeSpec() returns (node: Entity, spec: CreateSpec)
      ensures fresh(node) && node.fields == NodeOf(t, contents) && node.selected == map[]
      ensures spec == SpecOf(t, contents)
    {
      node := new Entity();
      var fields := AddScalars(node);
      var edges := AddEdges(node);
      spec := CreateSpec(fields, edges);
    }
  }

  // ---------------------------------------------------------------- the written row

  function FieldFor(fields: seq<SpecField>, c: Column): Option<SpecField> {
    if fields == [] then None
    else if fields[|fields| - 1].column == c then Some(fields[|fields| - 1]) else FieldFor(fields[..|fields| - 1], c)
  }

  function EdgeFor(edges: seq<(Column, int)>, c: Column): Option<int> {
    if edges == [] then None
    else if edges[|edges| - 1].0 == c then Some(edges[|edges| - 1].1) else EdgeFor(edges[..|edges| - 1], c)
  }

  /** JSON fields are stored encoded, the others as they are. */
  function Encoded(coder: Coder, f: SpecField): Cell {
    match f.value
    case Of(cell) => cell
    case Json(doc) => if f.fieldType.TypeJSON? then Blob(coder.encode(doc)) else Null
  }

  /** The row an insert of the spec stores, with the generated id where the table has one. */
  function Inserted(coder: Coder, spec: CreateSpec, id: Option<int>, c: Column): Cell {
    if c == Id && id.Some? then Int(id.value)
    else match FieldFor(spec.fields, c)
         case Some(f) => Encoded(coder, f)
         case None => match EdgeFor(spec.edges, c) case Some(k) => Int(k) case None => Null
  }

  function StoredRow(coder: Coder, spec: CreateSpec, id: Option<int>): Stored { c => Inserted(coder, spec, id, c) }

  /** A value of the Go type of the field. */
  predicate Suits(rule: Rule, v: Value) {
    if rule.style.Document? then v.Json? else v.Of? && !v.cell.Null? && Fits(rule.kind, v.cell)
  }

  /** The holder a column of this field type is scanned into; decimals are read through their own scanner. */
  predicate HolderFor(f: FieldType, kind: Kind) {
    match f
    case TypeTime => kind == NullTime
    case TypeString => kind == NullString
    case TypeJSON => kind == RawBytes
    case TypeInt | TypeInt64 => kind == NullInt64
    case TypeFloat64 => kind == NullFloat64 || kind == NullScanner
    case TypeBool => kind == NullBool
  }

  /** The field types of `createSpec` fit the holders of the codec, column by column. */
  lemma SpecFitsCodec(t: Created, c: Column)
    ensures t.Rule(c).Some? ==> HolderFor(TypeOf(t, c), t.Rule(c).value.kind)
    ensures t.Rule(c).Some? ==>
              && (t.Rule(c).value.style.Document? <==> TypeOf(t, c).TypeJSON?)
              && (t.Rule(c).value.style.Always? <==> c == Id)
    ensures c in Keys(t) ==> t.Rule(c).Some? && t.Rule(c).value.kind.NullInt64? && c != Id
  {
    AccountHolders(c);
    StylesFit(t, c);
    hide AccountFieldType, AccountRule;
  }

  lemma AccountHolders(c: Column)
    ensures AccountRule(c).Some? ==> HolderFor(AccountFieldType(c), AccountRule(c).value.kind)
  {}

  lemma StylesFit(t: Created, c: Column)
    ensures t.Rule(c).Some? ==>
              && (t.Rule(c).value.style.Document? <==> TypeOf(t, c).TypeJSON?)
              && (t.Rule(c).value.style.Always? <==> c == Id)
    ensures c in Keys(t) ==> t.Rule(c).Some? && t.Rule(c).value.kind.NullInt64? && c != Id
  {}

  /** Where a defaulted account column stands in `check`. */
  function CheckPlace(i: nat): nat { if i < 2 then i else i + 3 }

  lemma AccountDefaultIsChecked(i: nat)
    requires i < |AccountDefaulted()|
    ensures CheckPlace(i) < |AccountChecked()| && AccountChecked()[CheckPlace(i)] == AccountDefaulted()[i]
    ensures AccountDefaulted()[i] !in {Name, Platform, Type, SessionWindowStatus, ProxyId}
  {}

  /** Every defaulted column is required, and never an edge's. */
  lemma DefaultsAreRequired(t: Created, c: Column)
    requires c in DefaultColumns(t)
    ensures c in CheckedColumns(t) && Required(t, c) && c !in Keys(t)
  {
    hide AccountDefaulted, AccountChecked;
    if t.Accounts? {
      var i :| 0 <= i < |AccountDefaulted()| && AccountDefaulted()[i] == c;
      AccountDefaultIsChecked(i);
    } else {
      assert CheckedColumns(t)[2] == Priority && CheckedColumns(t)[3] == CreatedAt;
    }
  }

  lemma AccountScalarIsWritten(c: Column)
    requires AccountRule(c).Some? && c != Id && c != ProxyId
    ensures c in AccountScalars()
  {}

  /** `createSpec` writes every column the codec reads, as a scalar or through an edge, except the id. */
  lemma EveryColumnIsWritten(t: Created, c: Column)
    requires t.Rule(c).Some?
    ensures c in Scalars(t) || c in Keys(t) || c == Id
  {
    hide AccountScalars, AccountRule;
    if t.Accounts? {
      if c != Id && c != ProxyId { AccountScalarIsWritten(c); }
    } else {
      assert Scalars(t)[0] == Priority && Scalars(t)[1] == CreatedAt;
      assert Keys(t)[0] == AccountId && Keys(t)[1] == GroupId;
    }
  }

  /** What the setters guarantee: scalar fields of the right Go type, ids for the unique edges, not both. */
  ghost predicate Typed(t: Created, m: Contents) {
    && (forall c :: c in m.fields ==>
          && t.Rule(c).Some? && c != Id && c !in Keys(t)
          && Suits(t.Rule(c).value, m.fields[c]))
    && (forall c :: c in m.keys ==> c in Keys(t) && c !in m.fields)
  }
}
