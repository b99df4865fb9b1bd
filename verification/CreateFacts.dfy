/** The create builders' tables, with the columns named: what `check` asks, what `defaults` gives, and which fields can
    be nil. */
module CreateFacts {
  import opened Rows
  import opened Schema
  import opened Columns
  import opened ColumnNames
  import opened Codec
  import opened Create
  import opened CreateProof

  /** For links: `check` passes exactly when both keys, the priority and the creation time are set. */
  lemma LinkCheckExact(v: Validators, m: Contents)
    ensures Passes(AccountGroups, v, m)
            <==> AccountId in m.keys && GroupId in m.keys && Priority in m.fields && CreatedAt in m.fields
  {
    var checked := CheckedColumns(AccountGroups);
    assert checked[0] == AccountId && checked[1] == GroupId && checked[2] == Priority && checked[3] == CreatedAt;
    if Passes(AccountGroups, v, m) {
      forall i | 0 <= i < |checked| ensures Acceptable(AccountGroups, v, m, checked[i]) {}
    }
  }

  lemma LinkTables(c: Column)
    ensures c in CheckedColumns(AccountGroups) && Required(AccountGroups, c)
            <==> c.AccountId? || c.GroupId? || c.Priority? || c.CreatedAt?
  {
    var checked := CheckedColumns(AccountGroups);
    assert checked[0] == AccountId && checked[1] == GroupId && checked[2] == Priority && checked[3] == CreatedAt;
  }

  /** `check` goes through a link's columns in the order of the schema, too. */
  lemma LinkSchemaOrder()
    ensures |CheckedColumns(AccountGroups)| == |ACCOUNT_GROUP_COLUMNS| == 4
    ensures forall i :: 0 <= i < 4 ==> NameOf(CheckedColumns(AccountGroups)[i]) == ACCOUNT_GROUP_COLUMNS[i]
  {}

  /** The columns of an account that `check` requires. */
  ghost predicate IsRequired(c: Column) {
    match c
    case CreatedAt | UpdatedAt | Name | Platform | Type | Credentials | Extra | Concurrency | Priority | RateMultiplier
      | UpstreamCostMultiplierSource | Status | AutoPauseOnExpired | Schedulable => true
    case _ => false
  }

  /** The columns of an account with a validator. */
  ghost predicate IsValidated(c: Column) {
    match c
    case Name | Platform | Type | UpstreamCostMultiplierSource | Status | SessionWindowStatus => true
    case _ => false
  }

  lemma AccountTables(c: Column)
    ensures c in AccountChecked() <==> IsRequired(c) || c == SessionWindowStatus
    ensures Validated(Accounts, c) <==> IsValidated(c)
    ensures Required(Accounts, c) <==> c != SessionWindowStatus
  {
    AccountFacts(c);
    AccountDefaults(c);
    hide AccountChecked;
  }

  lemma AccountDefaults(c: Column)
    ensures c in AccountDefaulted() <==> IsRequired(c) && c != Name && c != Platform && c != Type
    ensures FromFunction(Accounts, c) <==> IsFunction(c)
  {
    if c in AccountDefaulted() {
      var i :| 0 <= i < |AccountDefaulted()| && AccountDefaulted()[i] == c;
      DefaultedAt(i);
    }
    if IsRequired(c) && c != Name && c != Platform && c != Type { DefaultedHas(c); }
    hide AccountDefaulted, IsRequired;
  }

  lemma DefaultedAt(i: nat)
    requires i < |AccountDefaulted()|
    ensures var c := AccountDefaulted()[i]; IsRequired(c) && c != Name && c != Platform && c != Type
  {}

  lemma DefaultedHas(c: Column)
    requires IsRequired(c) && c != Name && c != Platform && c != Type
    ensures c in AccountDefaulted()
  {
    var s := AccountDefaulted();
    match c {
      case CreatedAt => assert s[0] == c;
      case UpdatedAt => assert s[1] == c;
      case Credentials => assert s[2] == c;
      case Extra => assert s[3] == c;
      case Concurrency => assert s[4] == c;
      case Priority => assert s[5] == c;
      case RateMultiplier => assert s[6] == c;
      case UpstreamCostMultiplierSource => assert s[7] == c;
      case Status => assert s[8] == c;
      case AutoPauseOnExpired => assert s[9] == c;
      case Schedulable => assert s[10] == c;
    }
  }

  /** For accounts: `check` passes exactly when the fourteen required columns are set and the six validators accept. */
  lemma AccountPassesExact(v: Validators, m: Contents)
    ensures Passes(Accounts, v, m)
            <==> && (forall c :: IsRequired(c) ==> c in m.fields)
                 && (forall c :: IsValidated(c) && c in m.fields ==> v(c, m.fields[c]))
  {
    assert forall c :: IsRequired(c) ==> c != SessionWindowStatus && c !in Keys(Accounts);
    assert forall c :: IsValidated(c) ==> (IsRequired(c) || c == SessionWindowStatus) && c !in Keys(Accounts);
    forall c { AccountTables(c); }
    hide AccountChecked, Validated, Required, IsRequired, IsValidated, Keys;
    if Passes(Accounts, v, m) {
      forall c | IsRequired(c) || (IsValidated(c) && c in m.fields)
        ensures IsRequired(c) ==> c in m.fields
        ensures IsValidated(c) && c in m.fields ==> v(c, m.fields[c])
      {
        assert Acceptable(Accounts, v, m, c);
      }
    }
  }

  /** `createSpec`, `check` and `defaults` all go through their columns in the order of the schema. */
  lemma SchemaOrder(i: nat)
    ensures i + 1 < |AccountScalars()| ==> Place(AccountScalars()[i]) < Place(AccountScalars()[i + 1])
    ensures i + 1 < |AccountChecked()| ==> Place(AccountChecked()[i]) < Place(AccountChecked()[i + 1])
    ensures i + 1 < |AccountDefaulted()| ==> Place(AccountDefaulted()[i]) < Place(AccountDefaulted()[i + 1])
  {
    ScalarPlace(i);
    CheckedPlace(i);
    DefaultedPlace(i);
    hide AccountScalars, AccountChecked, AccountDefaulted, Place;
  }

  lemma ScalarPlace(i: nat)
    ensures i + 1 < |AccountScalars()| ==> Place(AccountScalars()[i]) < Place(AccountScalars()[i + 1])
  {
    assert |AccountScalars()| == 32;
    if i < 20 {
      if i < 10 { EarlyScalar(i); } else { MiddleScalar(i); }
    } else if i < 31 {
      if i < 26 { LateScalar(i); } else { LastScalar(i); }
    }
    hide AccountScalars, Place;
  }

  lemma EarlyScalar(i: nat)
    requires i < 10 && |AccountScalars()| == 32
    ensures Place(AccountScalars()[i]) < Place(AccountScalars()[i + 1])
  {}

  lemma MiddleScalar(i: nat)
    requires 10 <= i < 20 && |AccountScalars()| == 32
    ensures Place(AccountScalars()[i]) < Place(AccountScalars()[i + 1])
  {}

  lemma LateScalar(i: nat)
    requires 20 <= i < 26 && |AccountScalars()| == 32
    ensures Place(AccountScalars()[i]) < Place(AccountScalars()[i + 1])
  {}

  lemma LastScalar(i: nat)
    requires 26 <= i < 31 && |AccountScalars()| == 32
    ensures Place(AccountScalars()[i]) < Place(AccountScalars()[i + 1])
  {}

  lemma CheckedPlace(i: nat)
    ensures i + 1 < |AccountChecked()| ==> Place(AccountChecked()[i]) < Place(AccountChecked()[i + 1])
  {}

  lemma DefaultedPlace(i: nat)
    ensures i + 1 < |AccountDefaulted()| ==> Place(AccountDefaulted()[i]) < Place(AccountDefaulted()[i + 1])
  {}

  // ---------------------------------------------------------------- defaults

  /** The account columns whose default is a package function. */
  ghost predicate IsFunction(c: Column) { c.CreatedAt? || c.UpdatedAt? || c.Credentials? || c.Extra? }

  /** The account columns whose default is a package constant. */
  ghost predicate IsConstant(c: Column) {
    match c
    case Concurrency | Priority | RateMultiplier | UpstreamCostMultiplierSource | Status | AutoPauseOnExpired
      | Schedulable => true
    case _ => false
  }

  /** The columns of an account or a link that `defaults` gives the value. */
  ghost predicate GivesDefault(t: Created, d: Defaults, c: Column, x: Value) {
    if t.Accounts? then (IsFunction(c) && d.funcs(c) == Some(x)) || (IsConstant(c) && d.consts(c) == x)
    else (c.Priority? || c.CreatedAt?) && d.consts(c) == x
  }

  /** What a mutation holds after `defaults`: what was set, and the default of every unset column that has one. */
  ghost predicate IsFilled(t: Created, d: Defaults, m: Contents, n: Contents) {
    && n.keys == m.keys
    && (forall c :: c in m.fields ==> c in n.fields && n.fields[c] == m.fields[c])
    && (forall c :: c in n.fields && c !in m.fields ==> GivesDefault(t, d, c, n.fields[c]))
    && (forall c, x :: c !in m.fields && GivesDefault(t, d, c, x) ==> c in n.fields)
  }

  /** Every default that is needed can be computed. */
  ghost predicate Computable(t: Created, d: Defaults, m: Contents) {
    t.Accounts? ==> forall c :: IsFunction(c) && c !in m.fields ==> d.funcs(c).Some?
  }

  lemma DefaultTables(t: Created, d: Defaults, c: Column)
    ensures t.Accounts? ==> (c in DefaultColumns(t) <==> IsFunction(c) || IsConstant(c))
    ensures t.AccountGroups? ==> (c in DefaultColumns(t) <==> (c.Priority? || c.CreatedAt?))
    ensures forall x :: GivesDefault(t, d, c, x) <==> c in DefaultColumns(t) && DefaultFor(t, d, c) == Some(x)
  {
    AccountDefaults(c);
    var l := DefaultColumns(AccountGroups);
    assert l[0] == Priority && l[1] == CreatedAt;
    hide AccountDefaulted;
  }

  /** `defaults` succeeds exactly when the functions it needs are there, and then fills exactly what is unset. */
  lemma DefaultsExact(t: Created, d: Defaults, m: Contents)
    ensures var (n, ok) := Defaulted(t, d, m, DefaultColumns(t));
            (ok <==> Computable(t, d, m)) && (ok ==> IsFilled(t, d, m, n))
  {
    DefaultsFill(t, d, m, DefaultColumns(t));
    forall c { DefaultTables(t, d, c); }
    hide DefaultColumns, Defaulted, GivesDefault, IsConstant;
    assert forall c :: c in DefaultColumns(t) && !(t.Accounts? && IsFunction(c)) ==> DefaultFor(t, d, c).Some?;
  }

  /** What a create needs of its caller: of an account name, platform and type, values the validators accept and, where
      a default is needed, one that can be computed and is accepted; of a link both keys. */
  ghost predicate Insertable(t: Created, d: Defaults, v: Validators, m: Contents) {
    if t.Accounts? then
      && Computable(t, d, m) && Name in m.fields && Platform in m.fields && Type in m.fields
      && (forall c :: IsValidated(c) && c in m.fields ==> v(c, m.fields[c]))
      && (forall c :: (c == UpstreamCostMultiplierSource || c == Status) && c !in m.fields ==> v(c, d.consts(c)))
    else AccountId in m.keys && GroupId in m.keys
  }

  /** Only two validated columns can hold a default. */
  lemma FilledAt(d: Defaults, m: Contents, n: Contents, c: Column)
    requires IsFilled(Accounts, d, m, n) && c !in m.fields && IsValidated(c)
    ensures c in n.fields <==> c == UpstreamCostMultiplierSource || c == Status
    ensures c in n.fields ==> n.fields[c] == d.consts(c)
  {
    if c == UpstreamCostMultiplierSource || c == Status { assert GivesDefault(Accounts, d, c, d.consts(c)); }
  }

  lemma FilledValidates(d: Defaults, v: Validators, m: Contents, n: Contents)
    requires IsFilled(Accounts, d, m, n)
    ensures (forall c :: IsValidated(c) && c in n.fields ==> v(c, n.fields[c]))
            <==> && (forall c :: IsValidated(c) && c in m.fields ==> v(c, m.fields[c]))
                 && (forall c :: (c == UpstreamCostMultiplierSource || c == Status) && c !in m.fields ==>
                       v(c, d.consts(c)))
  {
    assert IsValidated(UpstreamCostMultiplierSource) && IsValidated(Status);
    forall c | IsValidated(c) && c !in m.fields
      ensures c in n.fields <==> c == UpstreamCostMultiplierSource || c == Status
      ensures c in n.fields ==> n.fields[c] == d.consts(c)
    {
      FilledAt(d, m, n, c);
    }
    hide GivesDefault, IsValidated;
  }

  /** `check` after `defaults`, whose error is dropped, passes exactly on what is insertable. */
  lemma InsertableExact(t: Created, d: Defaults, v: Validators, m: Contents)
    ensures Passes(t, v, Defaulted(t, d, m, DefaultColumns(t)).0) <==> Insertable(t, d, v, m)
  {
    var (n, ok) := Defaulted(t, d, m, DefaultColumns(t));
    DefaultsExact(t, d, m);
    if t.Accounts? {
      AccountCheckExact(d, v, m);
      forall c ensures Validated(Accounts, c) <==> IsValidated(c) { AccountTables(c); }
      if ok { FilledValidates(d, v, m, n); }
    } else {
      LinkCheckExact(v, n);
      assert GivesDefault(t, d, Priority, d.consts(Priority)) && GivesDefault(t, d, CreatedAt, d.consts(CreatedAt));
    }
    hide Defaulted, Validated, IsValidated, Passes, Computable, IsFilled;
  }

  /** The row an insert of these contents carries: the given value of every set column, the default of every unset
      column that has one, the edge keys, and nothing else. */
  ghost predicate IsRowOf(t: Created, d: Defaults, m: Contents, spec: CreateSpec) {
    && (forall c :: c in m.fields ==>
          FieldFor(spec.fields, c).Some? && FieldFor(spec.fields, c).value.value == m.fields[c])
    && (forall c, x :: c !in m.fields && GivesDefault(t, d, c, x) ==>
          FieldFor(spec.fields, c).Some? && FieldFor(spec.fields, c).value.value == x)
    && (forall c :: FieldFor(spec.fields, c).Some? && c !in m.fields ==>
          GivesDefault(t, d, c, FieldFor(spec.fields, c).value.value))
    && (forall c :: EdgeFor(spec.edges, c) == if c in m.keys then Some(m.keys[c]) else None)
  }

  lemma DefaultIsRead(t: Created, c: Column)
    requires c in DefaultColumns(t)
    ensures t.Rule(c).Some? && c != Id && c !in Keys(t)
  {}

  /** The spec carries exactly the fields and keys of these contents. */
  ghost predicate CarriesOnly(spec: CreateSpec, n: Contents) {
    && (forall c :: FieldFor(spec.fields, c).Some? <==> c in n.fields)
    && (forall c :: c in n.fields ==> FieldFor(spec.fields, c).value.value == n.fields[c])
    && (forall c :: EdgeFor(spec.edges, c) == if c in n.keys then Some(n.keys[c]) else None)
  }

  lemma SpecCarries(t: Created, n: Contents)
    requires forall c :: c in n.fields ==> t.Rule(c).Some? && c != Id && c !in Keys(t)
    requires forall c :: c in n.keys ==> c in Keys(t)
    ensures CarriesOnly(SpecOf(t, n), n)
  {
    hide Scalars, Keys, TypeOf, SpecFields, SpecEdges, AccountRule, AccountGroupRule;
    assert Scalars(t)[..|Scalars(t)|] == Scalars(t) && Keys(t)[..|Keys(t)|] == Keys(t);
    forall c
      ensures FieldFor(SpecOf(t, n).fields, c)
           == if c in n.fields then Some(SpecField(c, TypeOf(t, c), n.fields[c])) else None
      ensures EdgeFor(SpecOf(t, n).edges, c) == if c in n.keys then Some(n.keys[c]) else None
    {
      FieldForSpec(t, n, |Scalars(t)|, c);
      EdgeForSpec(t, n, |Keys(t)|, c);
      if c in n.fields { EveryColumnIsWritten(t, c); }
    }
  }

  lemma FilledIsRow(t: Created, d: Defaults, m: Contents, n: Contents, spec: CreateSpec)
    requires IsFilled(t, d, m, n) && CarriesOnly(spec, n)
    ensures IsRowOf(t, d, m, spec)
  {
    assert forall c, x, y :: GivesDefault(t, d, c, x) && GivesDefault(t, d, c, y) ==> x == y by {
      assert forall c :: IsConstant(c) ==> !IsFunction(c);
    }
    hide GivesDefault, FieldFor, EdgeFor;
  }

  /** `createSpec` after `defaults` writes that row. */
  lemma SpecIsRow(t: Created, d: Defaults, m: Contents)
    requires Typed(t, m) && Computable(t, d, m)
    ensures IsRowOf(t, d, m, SpecOf(t, Defaulted(t, d, m, DefaultColumns(t)).0))
  {
    var n := Defaulted(t, d, m, DefaultColumns(t)).0;
    DefaultsExact(t, d, m);
    forall c | c in n.fields ensures t.Rule(c).Some? && c != Id && c !in Keys(t) {
      if c !in m.fields {
        DefaultTables(t, d, c);
        DefaultIsRead(t, c);
      }
    }
    hide *;
    assert forall c :: c in n.keys ==> c in Keys(t) by { TypedKeys(t, m); FilledKeys(t, d, m, n); }
    SpecCarries(t, n);
    FilledIsRow(t, d, m, n, SpecOf(t, n));
  }

  lemma TypedKeys(t: Created, m: Contents)
    requires Typed(t, m)
    ensures forall c :: c in m.keys ==> c in Keys(t)
  {}

  lemma FilledKeys(t: Created, d: Defaults, m: Contents, n: Contents)
    requires IsFilled(t, d, m, n)
    ensures n.keys == m.keys
  {}

  // ---------------------------------------------------------------- what the codec reads

  /** The codec reads exactly the columns that are written, and the id of an account. */
  lemma ReadExactlyWhatIsWritten(t: Created, c: Column)
    ensures t.Rule(c).Some? <==> c in Scalars(t) || c in Keys(t) || (t.Accounts? && c == Id)
    ensures t.Kind(c).UnknownType? <==> t.Rule(c).None?
  {
    KnownKinds(t, c);
    if t.Rule(c).Some? { EveryColumnIsWritten(t, c); }
    if c in Scalars(t) {
      var i :| 0 <= i < |Scalars(t)| && Scalars(t)[i] == c;
      ScalarIsRead(t, i);
    }
    if c in Keys(t) { SpecFitsCodec(t, c); }
    assert AccountGroupRule(Id).None? && AccountRule(Id).Some?;
    hide Scalars, Keys, AccountRule, AccountGroupRule, AccountKind, AccountGroupKind;
  }

  lemma ScalarIsRead(t: Created, i: nat)
    requires i < |Scalars(t)|
    ensures t.Rule(Scalars(t)[i]).Some?
  {}

  lemma KnownKinds(t: Created, c: Column)
    ensures t.Kind(c).UnknownType? <==> t.Rule(c).None?
  {}

  /** A field can be nil exactly when `check` lets its column stay unset: NULL reads as nil there, and as the zero
      value where a row never holds it. */
  lemma NilExactlyWhenOptional(t: Created, c: Column)
    requires t.Rule(c).Some? && c != Id
    ensures Zero(t.Rule(c).value) == None <==> !(c in CheckedColumns(t) && Required(t, c))
  {
    LinkTables(c);
    AccountTables(c);
    OptionalIsNil(t, c);
    hide AccountChecked, CheckedColumns, Required, AccountRule, AccountGroupRule, IsRequired, Zero;
    assert t.Accounts? ==> CheckedColumns(t) == AccountChecked();
  }

  lemma OptionalIsNil(t: Created, c: Column)
    requires t.Rule(c).Some? && c != Id
    ensures Zero(t.Rule(c).value) == None <==> t.Accounts? && !IsRequired(c)
    ensures t.AccountGroups? ==> c.AccountId? || c.GroupId? || c.Priority? || c.CreatedAt?
  {}

  /** Three integer columns of an account are of Go's `int`, the other integers of `int64`. */
  lemma IntTypes(c: Column)
    ensures TypeOf(Accounts, c) == TypeInt <==> c.Concurrency? || c.LoadFactor? || c.Priority?
    ensures c in Scalars(AccountGroups) ==> (TypeOf(AccountGroups, c) == TypeInt <==> c.Priority?)
  {}
}
