/** Bulk saves of accounts and of account-group links: the chain with the entities' own defaults, checks and specs. */
module BulkEntities {
  import opened Rows
  import opened Columns
  import opened Codec
  import opened CodecReads
  import opened Create
  import opened CreateProof
  import opened CreateFacts
  import opened Bulk
  import opened BulkHooks
  import opened BulkExact
  import opened BulkCode

  function EnvOf(t: Created, v: Validators, hooks: seq<seq<Hook>>, driver: nat -> Written): Env {
    Env(hooks, (m: Contents) => Passes(t, v, m), (m: Contents) => SpecOf(t, m), driver)
  }

  /** `builder.defaults()` with its error dropped. */
  function DefaultsOf(t: Created, d: Defaults): Contents -> Contents {
    (m: Contents) => Defaulted(t, d, m, DefaultColumns(t)).0
  }

  /** The column is in the insert, as a scalar or through an edge. */
  predicate Carries(spec: CreateSpec, c: Column) { FieldFor(spec.fields, c).Some? || EdgeFor(spec.edges, c).Some? }

  /** Every column `check` requires is one the codec reads, so `createSpec` writes it. */
  lemma RequiredIsWritten(t: Created, c: Column)
    requires c in CheckedColumns(t)
    ensures c in Keys(t) || c in Scalars(t)
  {
    CheckedIsRead(t, c);
    hide CheckedColumns, Keys, Scalars, AccountRule, AccountGroupRule;
    EveryColumnIsWritten(t, c);
  }

  lemma CheckedIsRead(t: Created, c: Column)
    requires c in CheckedColumns(t)
    ensures t.Rule(c).Some? && c != Id
  {}

  /** A spec made from contents that pass the check carries every required column. */
  lemma CheckedSpecIsComplete(t: Created, v: Validators, m: Contents, c: Column)
    requires Passes(t, v, m) && c in CheckedColumns(t) && Required(t, c)
    ensures Carries(SpecOf(t, m), c)
  {
    hide Scalars, Keys, CheckedColumns, Required, Validated, TypeOf, SpecFields, SpecEdges;
    RequiredIsWritten(t, c);
    assert Acceptable(t, v, m, c);
    FieldForSpec(t, m, |Scalars(t)|, c);
    EdgeForSpec(t, m, |Keys(t)|, c);
    assert Scalars(t)[..|Scalars(t)|] == Scalars(t) && Keys(t)[..|Keys(t)|] == Keys(t);
  }

  /** With hooks that pass on the mutation they are given, however they edit it, and however `defaults`
      ended: no row is ever written that lacks a required column. */
  lemma WrittenRowsAreComplete(t: Created, v: Validators, hooks: seq<seq<Hook>>, driver: nat -> Written, s: State)
    requires var env := EnvOf(t, v, hooks, driver); Fresh(env, s) && AllInPlace(env)
    ensures var log := Save(EnvOf(t, v, hooks, driver), s).0.log;
            forall p, j, c ::
              (0 <= p < |log| && log[p].Wrote? && 0 <= j < |log[p].specs| && log[p].specs[j].Some?
               && c in CheckedColumns(t) && Required(t, c)) ==> Carries(log[p].specs[j].value, c)
  {
    var env := EnvOf(t, v, hooks, driver);
    OnlyCheckedRowsWritten(env, s);
    hide CheckedColumns, Required, Carries, Save, Passes, SpecOf, Fresh, AllInPlace;
    var log := Save(env, s).0.log;
    forall p, j, c | 0 <= p < |log| && log[p].Wrote? && 0 <= j < |log[p].specs| && log[p].specs[j].Some?
                     && c in CheckedColumns(t) && Required(t, c)
      ensures Carries(log[p].specs[j].value, c)
    {
      assert FromChecked(env, log[p].specs[j].value);
      var m :| env.check(m) && env.spec(m) == log[p].specs[j].value;
      CheckedSpecIsComplete(t, v, m, c);
    }
  }

  /** Both keys of a link; of an account, all columns that must not be missing. */
  ghost predicate HasItsColumns(t: Created, spec: CreateSpec) {
    if t.AccountGroups? then EdgeFor(spec.edges, AccountId).Some? && EdgeFor(spec.edges, GroupId).Some?
    else forall c :: IsRequired(c) ==> FieldFor(spec.fields, c).Some?
  }

  /** So no link is ever written without both its keys, and no account without any of its fourteen columns. */
  lemma WrittenRowsHaveKeys(t: Created, v: Validators, hooks: seq<seq<Hook>>, driver: nat -> Written, s: State)
    requires var env := EnvOf(t, v, hooks, driver); Fresh(env, s) && AllInPlace(env)
    ensures var log := Save(EnvOf(t, v, hooks, driver), s).0.log;
            forall p, j :: 0 <= p < |log| && log[p].Wrote? && 0 <= j < |log[p].specs| && log[p].specs[j].Some? ==>
              HasItsColumns(t, log[p].specs[j].value)
  {
    OnlyCheckedRowsWritten(EnvOf(t, v, hooks, driver), s);
    var env := EnvOf(t, v, hooks, driver);
    hide Save, Passes, SpecOf, Fresh, AllInPlace, IsRequired;
    var log := Save(env, s).0.log;
    forall p, j | 0 <= p < |log| && log[p].Wrote? && 0 <= j < |log[p].specs| && log[p].specs[j].Some?
      ensures HasItsColumns(t, log[p].specs[j].value)
    {
      var m :| env.check(m) && env.spec(m) == log[p].specs[j].value;
      CheckedHasColumns(t, v, m);
    }
  }

  lemma CheckedHasColumns(t: Created, v: Validators, m: Contents)
    requires Passes(t, v, m)
    ensures HasItsColumns(t, SpecOf(t, m))
  {
    hide Scalars, Keys, TypeOf, SpecFields, SpecEdges, Passes;
    assert Scalars(t)[..|Scalars(t)|] == Scalars(t) && Keys(t)[..|Keys(t)|] == Keys(t);
    if t.AccountGroups? {
      LinkCheckExact(v, m);
      EdgeForSpec(t, m, |Keys(t)|, AccountId);
      EdgeForSpec(t, m, |Keys(t)|, GroupId);
      LinkKeys();
    } else {
      AccountPassesExact(v, m);
      forall c | IsRequired(c) ensures FieldFor(SpecOf(t, m).fields, c).Some? {
        AccountTables(c);
        RequiredIsWritten(t, c);
        NoKeyRequired(c);
        FieldForSpec(t, m, |Scalars(t)|, c);
      }
    }
  }

  lemma LinkKeys()
    ensures AccountId in Keys(AccountGroups) && GroupId in Keys(AccountGroups)
  {
    assert Keys(AccountGroups)[0] == AccountId && Keys(AccountGroups)[1] == GroupId;
  }

  lemma NoKeyRequired(c: Column)
    requires IsRequired(c)
    ensures c !in Keys(Accounts)
  {}

  /** A hook that sets no column that was unset. */
  ghost predicate FillsNothing(h: Hook) {
    forall f: Contents, c :: h.decide(f, []).Next? && c !in f.fields ==> c !in h.decide(f, []).edited.fields
  }

  lemma {:induction false} KeepFillsNothing(hooks: seq<Hook>, f: Contents, c: Column)
    requires forall k :: 0 <= k < |hooks| ==> FillsNothing(hooks[k])
    requires c !in f.fields
    ensures c !in Keep(hooks, f).fields
  {
    if hooks != [] && hooks[0].decide(f, []).Next? {
      assert FillsNothing(hooks[0]);
      KeepFillsNothing(hooks[1..], hooks[0].decide(f, []).edited, c);
    }
  }

  /** The column `defaults` could not fill: required by `check` and unset. */
  lemma MissingDefault(t: Created, d: Defaults, given: Contents) returns (c: Column)
    requires !Defaulted(t, d, given, DefaultColumns(t)).1
    ensures c !in DefaultsOf(t, d)(given).fields
    ensures forall v, f: Contents :: c !in f.fields ==> !Passes(t, v, f)
  {
    DefaultsFill(t, d, given, DefaultColumns(t));
    c :| c in DefaultColumns(t) && c !in DefaultsOf(t, d)(given).fields;
    DefaultsAreRequired(t, c);
    hide CheckedColumns, Required, Validated, DefaultColumns, Keys;
    forall v, f: Contents | c !in f.fields ensures !Passes(t, v, f) {
      assert !Acceptable(t, v, f, c);
    }
  }

  /** A default that could not be computed never reaches the database: although the error of `defaults` is
      dropped, if one builder's defaults fail and its hooks never set a column that is unset, nothing is
      written for any builder, however often the hooks call next and whatever they return. */
  lemma FailedDefaultIsNeverWritten(t: Created, d: Defaults, v: Validators, hooks: seq<seq<Hook>>,
                                    driver: nat -> Written, s: State, given: Contents, i: nat)
    requires var env := EnvOf(t, v, hooks, driver); Fresh(env, s) && AllInPlace(env)
    requires i < |hooks| && s.heap[s.held[i]].contents == DefaultsOf(t, d)(given)
    requires forall j :: 0 <= j < |hooks| && j != i ==> s.held[j] != s.held[i]
    requires !Defaulted(t, d, given, DefaultColumns(t)).1
    requires forall k, c :: 0 <= k < |hooks[i]| ==> NeverSets(c)(hooks[i][k])
    ensures Writes(Save(EnvOf(t, v, hooks, driver), s).0.log) == 0
  {
    hide Defaulted, Passes, Save, AllInPlace, NeverSets;
    var env := EnvOf(t, v, hooks, driver);
    var c := MissingDefault(t, d, given);
    assert NeedsUnset(env, i, c);
    UnsetNeverWritten(env, s, i, c);
  }

  /** With transparent hooks, which may also substitute mutations, the save then fails outright: nothing is
      written for any builder and no mutation is marked done. */
  lemma FailedDefaultWritesNothing(t: Created, d: Defaults, v: Validators, hooks: seq<seq<Hook>>,
                                   driver: nat -> Written, s: State, contents: seq<Contents>, given: Contents, i: nat)
    requires var env := EnvOf(t, v, hooks, driver);
             Fresh(env, s) && Holds(env, s, contents, 0) && AllTransparent(env)
    requires i < |hooks| && |contents| == |hooks| && contents[i] == DefaultsOf(t, d)(given)
    requires !Defaulted(t, d, given, DefaultColumns(t)).1
    requires forall k :: 0 <= k < |hooks[i]| ==> FillsNothing(hooks[i][k])
    ensures var (u, r) := Save(EnvOf(t, v, hooks, driver), s);
            r.Failed? && Writes(u.log) == 0 && forall e :: e in u.log ==> !e.Marked?
  {
    var env := EnvOf(t, v, hooks, driver);
    var c := MissingDefault(t, d, given);
    KeepFillsNothing(hooks[i], contents[i], c);
    assert !Ready(env, contents, i);
    hide *;
    FirstStopAt(env, contents, 0, i);
    SaveExact(env, s, contents);
    ErrorMeansNothingHappened(env, s, contents);
  }

  /** Bulk save of fresh builders, each with its own mutation: the chain from their defaulted contents. If one
      builder's defaults fail, all hooks keep the mutation object, and that builder's never set an unset column,
      then nothing is written. Without hooks it succeeds exactly when all contents are insertable and the driver
      inserts, and then has sent one write: what was given, the package's defaults where nothing was. */
  method SaveBulk(t: Created, d: Defaults, v: Validators, hooks: seq<seq<Hook>>, driver: nat -> Written,
                  given: seq<Contents>) returns (save: BulkSave, r: Outcome)
    requires |given| == |hooks|
    ensures fresh(save) && save.Shaped()
    ensures (save.Now(), r)
         == Save(EnvOf(t, v, hooks, driver),
                 Start(seq(|given|, i requires 0 <= i < |given| => DefaultsOf(t, d)(given[i]))))
    ensures AllInPlace(EnvOf(t, v, hooks, driver)) ==>
              forall i :: 0 <= i < |hooks| && !Defaulted(t, d, given[i], DefaultColumns(t)).1
                          && (forall k, c :: 0 <= k < |hooks[i]| ==> NeverSets(c)(hooks[i][k])) ==>
                            Writes(save.log) == 0
    ensures NoHooks(hooks) && |hooks| > 0 ==> SavedPlainly(t, d, v, given, driver(0), save.log, r)
  {
    hide SavedPlainly;
    hide Defaulted, Passes, Save, AllInPlace, NeverSets, DefaultColumns, WithDefaults;
    var env := EnvOf(t, v, hooks, driver);
    save := new BulkSave(env, given);
    DefaultedStart(given, DefaultsOf(t, d));
    r := save.SaveAll(None, DefaultsOf(t, d));
    ghost var s := Start(seq(|given|, i requires 0 <= i < |given| => DefaultsOf(t, d)(given[i])));
    if AllInPlace(env) {
      forall i | 0 <= i < |hooks| && !Defaulted(t, d, given[i], DefaultColumns(t)).1
                 && (forall k, c :: 0 <= k < |hooks[i]| ==> NeverSets(c)(hooks[i][k]))
        ensures Writes(save.log) == 0
      {
        FailedDefaultIsNeverWritten(t, d, v, hooks, driver, s, given[i], i);
      }
    }
    if NoHooks(hooks) && |hooks| > 0 {
      var contents := seq(|given|, i requires 0 <= i < |given| => DefaultsOf(t, d)(given[i]));
      PlainSave(t, d, v, hooks, driver, given, contents);
    }
  }

  ghost predicate NoHooks(hooks: seq<seq<Hook>>) { forall i :: 0 <= i < |hooks| ==> hooks[i] == [] }

  /** The write that a bulk save without hooks sends: a row a builder, in order. */
  ghost predicate IsWriteOf(t: Created, d: Defaults, given: seq<Contents>, e: Event) {
    && e.Wrote? && |e.specs| == |given|
    && forall i :: 0 <= i < |given| ==>
         e.specs[i].Some? && (Typed(t, given[i]) ==> IsRowOf(t, d, given[i], e.specs[i].value))
  }

  /** One builder without hooks: it gets through exactly when its contents are insertable, and then writes its row. */
  lemma PlainBuilder(t: Created, d: Defaults, v: Validators, given: Contents)
    ensures Passes(t, v, DefaultsOf(t, d)(given)) <==> Insertable(t, d, v, given)
    ensures Insertable(t, d, v, given) && Typed(t, given) ==>
              IsRowOf(t, d, given, SpecOf(t, DefaultsOf(t, d)(given)))
  {
    hide Insertable, SpecOf, Defaulted, IsRowOf, Typed, Passes;
    InsertableExact(t, d, v, given);
    if Insertable(t, d, v, given) {
      InsertableComputes(t, d, v, given);
      if Typed(t, given) { SpecIsRow(t, d, given); }
    }
  }

  lemma PlainWrite(env: Env, contents: seq<Contents>)
    requires NoHooks(env.hooks) && |contents| == |env.hooks| && FirstStop(env, contents, 0) == |env.hooks|
    ensures CarriesAll(env, contents, Wrote([] + SpecsFrom(env, contents, 0), true))
  {
    SpecsFromAt(env, contents, 0);
    hide SpecsFrom;
    forall i | 0 <= i < |env.hooks| ensures SpecsFrom(env, contents, 0)[i] == Some(env.spec(contents[i])) {
      assert SpecsFrom(env, contents, 0)[i - 0] == SpecsFrom(env, contents, 0)[i];
      assert Admit(env.hooks[i], contents[i]) == Some(contents[i]);
    }
  }

  /** Any entity, no hooks: success means that all checks pass and the driver inserts, and the one write carries
      every builder's own spec. */
  lemma PlainExact(env: Env, contents: seq<Contents>)
    requires NoHooks(env.hooks) && |contents| == |env.hooks| > 0
    ensures var (u, r) := Save(env, Start(contents));
            && (r == Done <==> (forall i :: 0 <= i < |contents| ==> env.check(contents[i])) && env.driver(0).Inserted?)
            && (r == Done ==> Writes(u.log) == 1 && exists e :: e in u.log && CarriesAll(env, contents, e))
  {
    hide Save, Run, Layers, Checks, Marks, FirstStop, Writes, SpecsFrom, CarriesAll;
    var s := Start(contents);
    SaveExact(env, s, contents);
    assert forall i :: 0 <= i < |contents| ==> Ready(env, contents, i) == env.check(contents[i]);
    if Save(env, s).1 == Done {
      PlainWrite(env, contents);
      var e := Wrote([] + SpecsFrom(env, contents, 0), true);
      assert e in Save(env, s).0.log && CarriesAll(env, contents, e);
    }
  }

  ghost predicate CarriesAll(env: Env, contents: seq<Contents>, e: Event) {
    && e.Wrote? && |e.specs| == |contents|
    && forall i :: 0 <= i < |contents| ==> e.specs[i] == Some(env.spec(contents[i]))
  }

  /** The save succeeds exactly when every builder's contents are insertable and the driver inserts; then one
      write was sent, with every builder's row. */
  ghost predicate SavedPlainly(t: Created, d: Defaults, v: Validators, given: seq<Contents>, answer: Written,
                               log: seq<Event>, r: Outcome)
  {
    && (r == Done <==> (forall i :: 0 <= i < |given| ==> Insertable(t, d, v, given[i])) && answer.Inserted?)
    && (r == Done ==> Writes(log) == 1 && exists e :: e in log && IsWriteOf(t, d, given, e))
  }

  ghost predicate AllDefaulted(t: Created, d: Defaults, given: seq<Contents>, contents: seq<Contents>) {
    |contents| == |given| && forall i :: 0 <= i < |given| ==> contents[i] == DefaultsOf(t, d)(given[i])
  }

  lemma PlainChecks(t: Created, d: Defaults, v: Validators, hooks: seq<seq<Hook>>, driver: nat -> Written,
                    given: seq<Contents>, contents: seq<Contents>)
    requires AllDefaulted(t, d, given, contents)
    ensures forall i :: 0 <= i < |given| ==>
              (EnvOf(t, v, hooks, driver).check(contents[i]) <==> Insertable(t, d, v, given[i]))
  {
    hide Passes, Insertable, SpecOf, DefaultsOf, IsRowOf, Typed;
    forall i | 0 <= i < |given| { PlainBuilder(t, d, v, given[i]); }
  }

  lemma PlainRows(t: Created, d: Defaults, v: Validators, hooks: seq<seq<Hook>>, driver: nat -> Written,
                  given: seq<Contents>, contents: seq<Contents>, e: Event)
    requires AllDefaulted(t, d, given, contents) && CarriesAll(EnvOf(t, v, hooks, driver), contents, e)
    requires forall i :: 0 <= i < |given| ==> Insertable(t, d, v, given[i])
    ensures IsWriteOf(t, d, given, e)
  {
    hide Passes, Insertable, SpecOf, DefaultsOf, IsRowOf, Typed;
    forall i | 0 <= i < |given| { PlainBuilder(t, d, v, given[i]); }
  }

  lemma PlainSave(t: Created, d: Defaults, v: Validators, hooks: seq<seq<Hook>>, driver: nat -> Written,
                  given: seq<Contents>, contents: seq<Contents>)
    requires NoHooks(hooks) && |hooks| == |contents| > 0 && AllDefaulted(t, d, given, contents)
    ensures var (u, r) := Save(EnvOf(t, v, hooks, driver), Start(contents));
            SavedPlainly(t, d, v, given, driver(0), u.log, r)
  {
    hide Save, Passes, Insertable, SpecOf, DefaultsOf, Writes, IsWriteOf, CarriesAll, Run, Layers;
    var env := EnvOf(t, v, hooks, driver);
    PlainExact(env, contents);
    PlainChecks(t, d, v, hooks, driver, given, contents);
    var (u, r) := Save(env, Start(contents));
    if r == Done {
      var e :| e in u.log && CarriesAll(env, contents, e);
      PlainRows(t, d, v, hooks, driver, given, contents, e);
    }
  }

  lemma InsertableComputes(t: Created, d: Defaults, v: Validators, m: Contents)
    requires Insertable(t, d, v, m)
    ensures Computable(t, d, m)
  {}

  lemma {:induction false} FirstStopAt(env: Env, contents: seq<Contents>, i: nat, k: nat)
    requires |contents| == |env.hooks| && i <= k < |env.hooks| && !Ready(env, contents, k)
    ensures FirstStop(env, contents, i) <= k
    decreases k - i
  {
    if Ready(env, contents, i) { FirstStopAt(env, contents, i + 1, k); }
  }

  lemma ValidatedIsScalar(t: Created, c: Column)
    ensures Validated(t, c) ==> c !in Keys(t)
  {}

  /** The spec of a builder tells, column by column, what `check` looks at. */
  lemma SpecTells(t: Created, f: Contents, g: Contents, c: Column)
    requires SpecOf(t, f) == SpecOf(t, g) && c in CheckedColumns(t)
    ensures Present(t, f, c) <==> Present(t, g, c)
    ensures Validated(t, c) ==> (c in f.fields <==> c in g.fields) && (c in f.fields ==> f.fields[c] == g.fields[c])
  {
    ValidatedIsScalar(t, c);
    hide Scalars, Keys, CheckedColumns, Validated, TypeOf, SpecFields, SpecEdges;
    RequiredIsWritten(t, c);
    FieldForSpec(t, f, |Scalars(t)|, c);
    FieldForSpec(t, g, |Scalars(t)|, c);
    EdgeForSpec(t, f, |Keys(t)|, c);
    EdgeForSpec(t, g, |Keys(t)|, c);
    assert Scalars(t)[..|Scalars(t)|] == Scalars(t) && Keys(t)[..|Keys(t)|] == Keys(t);
  }

  lemma EntitySpecDecides(t: Created, v: Validators, hooks: seq<seq<Hook>>, driver: nat -> Written)
    ensures SpecDecides(EnvOf(t, v, hooks, driver))
  {
    var env := EnvOf(t, v, hooks, driver);
    hide CheckedColumns, Required, Validated, Keys, SpecOf, Present;
    forall f, g | env.spec(f) == env.spec(g) && env.check(f) ensures env.check(g) {
      forall c | c in CheckedColumns(t) ensures Acceptable(t, v, g, c) {
        assert Acceptable(t, v, f, c);
        SpecTells(t, f, g, c);
      }
    }
  }

  /** Through transparent hooks, every row written is one that `check` would let pass exactly when, should
      all builders get through, what each one's hooks pass on satisfies `check`. */
  lemma WrittenRowsPass(t: Created, v: Validators, hooks: seq<seq<Hook>>, driver: nat -> Written, s: State,
                        contents: seq<Contents>)
    requires var env := EnvOf(t, v, hooks, driver);
             Fresh(env, s) && Holds(env, s, contents, 0) && AllTransparent(env) && |hooks| > 0
    ensures var env := EnvOf(t, v, hooks, driver);
            (forall e :: e in Save(env, s).0.log && e.Wrote? ==> SpecsChecked(env, e.specs))
            <==> (FirstStop(env, contents, 0) == |hooks| ==>
                    forall j :: 0 <= j < |hooks| ==> AdmitsSound(env, contents, j))
  {
    hide Save, AllTransparent, FirstStop, SpecsChecked, AdmitsSound, SpecDecides, Passes, SpecOf;
    var env := EnvOf(t, v, hooks, driver);
    EntitySpecDecides(t, v, hooks, driver);
    WrittenRowsExact(env, s, contents);
  }

  /** What comes back from reading the row of a returned node, through any column list. */
  ghost predicate ReadsAsSaved(coder: Coder, t: Created, node: Node, m: Contents, columns: seq<Column>) {
    var row := StoredRow(coder, node.row, if t.Accounts? then Some(node.id) else None);
    var read := AssignFrom(coder, t, Blank, columns, RowHolders(t, columns, row));
    && node.row == SpecOf(t, m)
    && read.err == None
    && forall c :: c in columns && t.Rule(c).Some? ==>
         FieldOf(t.Rule(c).value, read.fields, c)
         == if c == Id then Some(Of(Int(node.id))) else FieldOf(t.Rule(c).value, NodeOf(t, m), c)
  }

  lemma SavedNodeReads(coder: Coder, t: Created, node: Node, m: Contents, columns: seq<Column>)
    requires Lawful(coder) && Typed(t, m) && node.row == SpecOf(t, m)
    ensures ReadsAsSaved(coder, t, node, m, columns)
  {
    var id := if t.Accounts? then Some(node.id) else None;
    WriteThenRead(coder, t, m, id, columns);
    assert t.AccountGroups? ==> t.Rule(Id).None?;
    hide Lawful, Typed, SpecOf, NodeOf, AssignFrom, RowHolders, FieldOf, Zero, AccountRule, AccountGroupRule;
  }

  /** End to end: after a successful bulk save through transparent hooks, reading any returned node's row
      back gives the node: the contents its hooks passed on, with the generated id. */
  lemma SavedNodesReadBack(coder: Coder, t: Created, v: Validators, hooks: seq<seq<Hook>>, driver: nat -> Written,
                           s: State, contents: seq<Contents>, columns: seq<Column>)
    requires var env := EnvOf(t, v, hooks, driver);
             && Fresh(env, s) && Holds(env, s, contents, 0) && AllTransparent(env) && |hooks| > 0
             && |contents| == |hooks| && Save(env, s).1 == Done
    requires Lawful(coder)
    requires forall j :: 0 <= j < |hooks| && Admit(hooks[j], contents[j]).Some? ==>
                           Typed(t, Admit(hooks[j], contents[j]).value)
    ensures var u := Save(EnvOf(t, v, hooks, driver), s).0;
            |u.nodes| == |hooks| && forall j :: 0 <= j < |hooks| ==>
              && u.nodes[j].Some? && Admit(hooks[j], contents[j]).Some?
              && ReadsAsSaved(coder, t, u.nodes[j].value, Admit(hooks[j], contents[j]).value, columns)
  {
    var env := EnvOf(t, v, hooks, driver);
    SaveReturnsWrittenNodes(env, s, contents);
    hide Save, ReadsAsSaved, Typed, Lawful, SpecOf, Passes;
    var u := Save(env, s).0;
    forall j | 0 <= j < |hooks|
      ensures u.nodes[j].Some? && Admit(hooks[j], contents[j]).Some?
      ensures ReadsAsSaved(coder, t, u.nodes[j].value, Admit(hooks[j], contents[j]).value, columns)
    {
      assert Ready(env, contents, j);
      SavedNodeReads(coder, t, u.nodes[j].value, Admit(hooks[j], contents[j]).value, columns);
    }
  }
}
