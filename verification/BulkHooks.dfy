/** What bulk create promises, hook class by hook class, and how a hook outside the class breaks it. */
module BulkHooks {
  import opened Rows
  import opened Columns
  import opened Bulk

  // ---------------------------------------------------------------- hooks that call next at most once

  ghost predicate Frugal(env: Env) {
    forall i, k :: 0 <= i < |env.hooks| && 0 <= k < |env.hooks[i]| ==> env.hooks[i][k].bound <= 1
  }

  ghost predicate AllHooks(mut: Mutator, p: Hook -> bool) {
    mut.Wrapped? ==> p(mut.hook) && AllHooks(mut.next, p)
  }

  lemma {:induction false} LayersAll(hooks: seq<Hook>, i: nat, p: Hook -> bool)
    requires forall k :: 0 <= k < |hooks| ==> p(hooks[k])
    ensures AllHooks(Layers(hooks, i), p)
  {
    if hooks != [] { LayersAll(hooks[1..], i, p); }
  }

  function AtMostOnce(): Hook -> bool { (h: Hook) => h.bound <= 1 }

  lemma WritesSnoc(log: seq<Event>, e: Event)
    ensures Writes(log + [e]) == Writes(log) + if e.Wrote? then 1 else 0
  {
    assert (log + [e])[..|log|] == log;
  }

  lemma {:induction false} RunWritesOnce(env: Env, s: State, mut: Mutator, m: nat)
    requires Valid(env, s) && Frugal(env) && AllHooks(mut, AtMostOnce()) && Builder(mut) < |env.hooks| && m < |s.heap|
    ensures Writes(Run(env, s, mut, m).0.log) <= Writes(s.log) + 1
    decreases 2 * (|env.hooks| - Builder(mut)), mut, 0, 0
  {
    hide Run, Consult, Deeper, Fill, Mark, Write, Writes;
    match mut {
      case Wrapped(h, next) =>
        RunWrapped(env, s, h, next, m);
        ConsultWritesOnce(env, s, h, next, m, []);
      case Base(i) =>
        RunBase(env, s, i, m);
        var ok := env.check(s.heap[s.held[i]].contents);
        WritesSnoc(s.log, Checked(i, ok));
        if s.heap[m].own && ok {
          var filled := Fill(env, Record(s, Checked(i, true)), i, m);
          FillStep(env, s, i, m);
          DeeperWritesOnce(env, filled, i);
          var t := Deeper(env, filled, i).0;
          MarkStep(env, t, i, m);
          WritesSnoc(t.log, Marked(i));
        }
    }
  }

  lemma {:induction false} DeeperWritesOnce(env: Env, s: State, i: nat)
    requires Valid(env, s) && Frugal(env) && i < |env.hooks|
    ensures Writes(Deeper(env, s, i).0.log) <= Writes(s.log) + 1
    decreases 2 * (|env.hooks| - i) - 1, Base(i), 0, 0
  {
    hide Run, Write, Writes;
    if i + 1 < |env.hooks| {
      LayersAll(env.hooks[i + 1], i + 1, AtMostOnce());
      RunWritesOnce(env, s, Layers(env.hooks[i + 1], i + 1), s.held[i + 1]);
    } else {
      WriteStep(env, s);
      WritesSnoc(s.log, Wrote(s.specs, Write(env, s).1.Done?));
    }
  }

  lemma {:induction false} ConsultWritesOnce(env: Env, s: State, h: Hook, next: Mutator, m: nat, results: seq<Outcome>)
    requires Valid(env, s) && Frugal(env) && AllHooks(next, AtMostOnce()) && h.bound <= 1
    requires Builder(next) < |env.hooks| && m < |s.heap| && |results| <= h.bound
    ensures Writes(Consult(env, s, h, next, m, results).0.log) <= Writes(s.log) + if results == [] then 1 else 0
    decreases 2 * (|env.hooks| - Builder(next)), next, 1, h.bound - |results|
  {
    hide Run, Consult, Enter, Writes;
    if Calls(s, h, m, results) {
      var (s', m') := Enter(s, m, h.decide(s.heap[m].contents, results));
      ConsultCalls(env, s, h, next, m, results);
      RunWritesOnce(env, s', next, m');
      var (t, r) := Run(env, s', next, m');
      ConsultWritesOnce(env, t, h, next, m, results + [r]);
    } else {
      ConsultEnds(env, s, h, next, m, results);
    }
  }

  /** Hooks that call next at most once: at most one batch write. */
  lemma AtMostOneWrite(env: Env, s: State)
    requires Fresh(env, s) && Frugal(env)
    ensures Writes(Save(env, s).0.log) <= 1
  {
    if |env.hooks| > 0 {
      LayersAll(env.hooks[0], 0, AtMostOnce());
      RunWritesOnce(env, s, Layers(env.hooks[0], 0), s.held[0]);
    }
  }

  // ---------------------------------------------------------------- earlier slots

  /** A mutator of builder i leaves the slots of the earlier builders alone. */
  ghost predicate SameBelow(s: State, t: State, i: nat) {
    && |t.held| == |s.held| && |t.nodes| == |s.nodes| && |t.specs| == |s.specs|
    && forall j :: 0 <= j < i && j < |s.held| && j < |s.nodes| && j < |s.specs| ==>
         t.held[j] == s.held[j] && t.nodes[j] == s.nodes[j] && t.specs[j] == s.specs[j]
  }

  lemma {:induction false} RunLocal(env: Env, s: State, mut: Mutator, m: nat)
    requires Valid(env, s) && Builder(mut) < |env.hooks| && m < |s.heap|
    ensures SameBelow(s, Run(env, s, mut, m).0, Builder(mut))
    decreases 2 * (|env.hooks| - Builder(mut)), mut, 0, 0
  {
    hide Run, Consult, Deeper, Fill, Mark;
    match mut {
      case Wrapped(h, next) =>
        RunWrapped(env, s, h, next, m);
        ConsultLocal(env, s, h, next, m, []);
      case Base(i) =>
        RunBase(env, s, i, m);
        if s.heap[m].own && env.check(s.heap[s.held[i]].contents) {
          var filled := Fill(env, Record(s, Checked(i, true)), i, m);
          FillStep(env, s, i, m);
          DeeperLocal(env, filled, i);
          MarkStep(env, Deeper(env, filled, i).0, i, m);
        }
    }
  }

  lemma {:induction false} DeeperLocal(env: Env, s: State, i: nat)
    requires Valid(env, s) && i < |env.hooks|
    ensures SameBelow(s, Deeper(env, s, i).0, i + 1)
    decreases 2 * (|env.hooks| - i) - 1, Base(i), 0, 0
  {
    hide Run, Write;
    if i + 1 < |env.hooks| {
      RunLocal(env, s, Layers(env.hooks[i + 1], i + 1), s.held[i + 1]);
    } else {
      WriteStep(env, s);
    }
  }

  lemma {:induction false} ConsultLocal(env: Env, s: State, h: Hook, next: Mutator, m: nat, results: seq<Outcome>)
    requires Valid(env, s) && Builder(next) < |env.hooks| && m < |s.heap| && |results| <= h.bound
    ensures SameBelow(s, Consult(env, s, h, next, m, results).0, Builder(next))
    decreases 2 * (|env.hooks| - Builder(next)), next, 1, h.bound - |results|
  {
    hide Run, Consult, Enter;
    if Calls(s, h, m, results) {
      var (s', m') := Enter(s, m, h.decide(s.heap[m].contents, results));
      ConsultCalls(env, s, h, next, m, results);
      RunLocal(env, s', next, m');
      var (t, r) := Run(env, s', next, m');
      ConsultLocal(env, t, h, next, m, results + [r]);
    } else {
      ConsultEnds(env, s, h, next, m, results);
    }
  }

  // ---------------------------------------------------------------- hooks that keep the mutation object

  ghost predicate InPlace(h: Hook) {
    forall f, results :: h.decide(f, results).Finish? || h.decide(f, results).Next?
  }

  ghost predicate AllInPlace(env: Env) {
    forall i, k :: 0 <= i < |env.hooks| && 0 <= k < |env.hooks[i]| ==> InPlace(env.hooks[i][k])
  }

  ghost predicate InPlaceLayers(mut: Mutator) { mut.Wrapped? ==> InPlace(mut.hook) && InPlaceLayers(mut.next) }

  lemma {:induction false} LayersInPlace(hooks: seq<Hook>, i: nat)
    requires forall k :: 0 <= k < |hooks| ==> InPlace(hooks[k])
    ensures InPlaceLayers(Layers(hooks, i))
  {
    if hooks != [] { LayersInPlace(hooks[1..], i); }
  }

  /** The spec was made from contents that pass the check. */
  ghost predicate FromChecked(env: Env, row: CreateSpec) { exists f :: env.check(f) && env.spec(f) == row }

  ghost predicate SpecsChecked(env: Env, specs: seq<Option<CreateSpec>>) {
    forall j :: 0 <= j < |specs| && specs[j].Some? ==> FromChecked(env, specs[j].value)
  }

  ghost predicate WritesChecked(env: Env, s: State) {
    && SpecsChecked(env, s.specs)
    && forall p :: 0 <= p < |s.log| && s.log[p].Wrote? ==> SpecsChecked(env, s.log[p].specs)
  }

  lemma FillChecked(env: Env, s: State, i: nat, m: nat)
    requires Valid(env, s) && i < |env.hooks| && s.held[i] == m && WritesChecked(env, s)
             && env.check(s.heap[m].contents)
    ensures var filled := Fill(env, Record(s, Checked(i, true)), i, m);
            filled.held == s.held && WritesChecked(env, filled)
  {
    hide Fill;
    FillStep(env, s, i, m);
    assert FromChecked(env, env.spec(s.heap[m].contents));
  }

  lemma WritesCheckedStep(env: Env, s: State, t: State, e: Event)
    requires WritesChecked(env, s) && t.specs == s.specs && t.log == s.log + [e] && (e.Wrote? ==> e.specs == s.specs)
    ensures WritesChecked(env, t)
  {
    hide SpecsChecked;
  }

  lemma {:induction false} RunInPlace(env: Env, s: State, mut: Mutator, m: nat)
    requires Valid(env, s) && AllInPlace(env) && InPlaceLayers(mut) && Builder(mut) < |env.hooks| && m < |s.heap|
    requires s.held[Builder(mut)] == m && WritesChecked(env, s)
    ensures var (t, _) := Run(env, s, mut, m); t.held == s.held && WritesChecked(env, t)
    decreases 2 * (|env.hooks| - Builder(mut)), mut, 0, 0
  {
    hide Run, Consult, Deeper, Fill, Mark, WritesChecked;
    match mut {
      case Wrapped(h, next) =>
        RunWrapped(env, s, h, next, m);
        ConsultInPlace(env, s, h, next, m, []);
      case Base(i) =>
        RunBase(env, s, i, m);
        if env.check(s.heap[m].contents) {
          var filled := Fill(env, Record(s, Checked(i, true)), i, m);
          FillStep(env, s, i, m);
          FillChecked(env, s, i, m);
          DeeperInPlace(env, filled, i);
          var t := Deeper(env, filled, i).0;
          MarkStep(env, t, i, m);
          WritesCheckedStep(env, t, Mark(env, t, i, m), Marked(i));
        } else {
          WritesCheckedStep(env, s, Record(s, Checked(i, false)), Checked(i, false));
        }
    }
  }

  lemma {:induction false} DeeperInPlace(env: Env, s: State, i: nat)
    requires Valid(env, s) && AllInPlace(env) && i < |env.hooks| && WritesChecked(env, s)
    ensures var (t, _) := Deeper(env, s, i); t.held == s.held && WritesChecked(env, t)
    decreases 2 * (|env.hooks| - i) - 1, Base(i), 0, 0
  {
    hide Run, Write, WritesChecked;
    if i + 1 < |env.hooks| {
      LayersInPlace(env.hooks[i + 1], i + 1);
      RunInPlace(env, s, Layers(env.hooks[i + 1], i + 1), s.held[i + 1]);
    } else {
      WriteStep(env, s);
      var (t, r) := Write(env, s);
      WritesCheckedStep(env, s, t, Wrote(s.specs, r.Done?));
    }
  }

  lemma {:induction false} ConsultInPlace(env: Env, s: State, h: Hook, next: Mutator, m: nat, results: seq<Outcome>)
    requires Valid(env, s) && AllInPlace(env) && InPlace(h) && InPlaceLayers(next)
    requires Builder(next) < |env.hooks| && m < |s.heap| && |results| <= h.bound
    requires s.held[Builder(next)] == m && WritesChecked(env, s)
    ensures var (t, _) := Consult(env, s, h, next, m, results); t.held == s.held && WritesChecked(env, t)
    decreases 2 * (|env.hooks| - Builder(next)), next, 1, h.bound - |results|
  {
    hide Run, Consult, Enter;
    if Calls(s, h, m, results) {
      var (s', m') := Enter(s, m, h.decide(s.heap[m].contents, results));
      ConsultCalls(env, s, h, next, m, results);
      RunInPlace(env, s', next, m');
      var (t, r) := Run(env, s', next, m');
      ConsultInPlace(env, t, h, next, m, results + [r]);
    } else {
      ConsultEnds(env, s, h, next, m, results);
    }
  }

  /** Hooks that pass on the mutation object they were given, edited or not: every row ever written
      was made from contents that passed the check. */
  lemma OnlyCheckedRowsWritten(env: Env, s: State)
    requires Fresh(env, s) && AllInPlace(env)
    ensures var log := Save(env, s).0.log;
            forall p :: 0 <= p < |log| && log[p].Wrote? ==> SpecsChecked(env, log[p].specs)
  {
    if |env.hooks| > 0 {
      LayersInPlace(env.hooks[0], 0);
      RunInPlace(env, s, Layers(env.hooks[0], 0), s.held[0]);
    }
  }

  // ---------------------------------------------------------------- a column that no hook sets

  ghost function NeverSets(c: Column): Hook -> bool {
    (h: Hook) => forall f, results ::
                   h.decide(f, results).Next? && c !in f.fields ==> c !in h.decide(f, results).edited.fields
  }

  /** Builder i's mutation is its own, lacks the column, and has not passed the check. */
  ghost predicate Lacking(env: Env, s: State, i: nat, c: Column)
    requires Valid(env, s) && i < |env.hooks|
  {
    && c !in s.heap[s.held[i]].contents.fields && !PassedIn(s.log, i)
    && forall j :: 0 <= j < |s.held| && j != i ==> s.held[j] != s.held[i]
  }

  /** The check needs the column, and builder i's hooks do not set it. */
  ghost predicate NeedsUnset(env: Env, i: nat, c: Column)
    requires i < |env.hooks|
  {
    && AllInPlace(env)
    && (forall f: Contents :: c !in f.fields ==> !env.check(f))
    && forall k :: 0 <= k < |env.hooks[i]| ==> NeverSets(c)(env.hooks[i][k])
  }

  /** The layers of a mutator: hooks that keep the object and, for builder i, never set the column. */
  ghost predicate Mild(mut: Mutator, i: nat, c: Column) {
    InPlaceLayers(mut) && (Builder(mut) == i ==> AllHooks(mut, NeverSets(c)))
  }

  lemma LayersMild(env: Env, k: nat, i: nat, c: Column)
    requires i < |env.hooks| && NeedsUnset(env, i, c) && k < |env.hooks|
    ensures Mild(Layers(env.hooks[k], k), i, c)
  {
    LayersInPlace(env.hooks[k], k);
    if k == i { LayersAll(env.hooks[k], k, NeverSets(c)); }
  }

  lemma {:induction false} RunLacks(env: Env, s: State, mut: Mutator, m: nat, i: nat, c: Column)
    requires Valid(env, s) && i < |env.hooks| && NeedsUnset(env, i, c) && Builder(mut) < |env.hooks| && Mild(mut, i, c)
    requires m == s.held[Builder(mut)] && Lacking(env, s, i, c)
    ensures var (t, _) := Run(env, s, mut, m); t.held == s.held && Lacking(env, t, i, c)
    decreases 2 * (|env.hooks| - Builder(mut)), mut, 0, 0
  {
    hide Run, Consult, Deeper, Fill, Mark, NeedsUnset;
    match mut {
      case Wrapped(h, next) =>
        RunWrapped(env, s, h, next, m);
        ConsultLacks(env, s, h, next, m, [], i, c);
      case Base(k) =>
        RunBase(env, s, k, m);
        MustFail(env, s, i, c);
        if env.check(s.heap[m].contents) {
          var filled := Fill(env, Record(s, Checked(k, true)), k, m);
          FillStep(env, s, k, m);
          DeeperLacks(env, filled, k, i, c);
          MarkStep(env, Deeper(env, filled, k).0, k, m);
        }
    }
  }

  lemma MustFail(env: Env, s: State, i: nat, c: Column)
    requires Valid(env, s) && i < |env.hooks| && NeedsUnset(env, i, c) && Lacking(env, s, i, c)
    ensures !env.check(s.heap[s.held[i]].contents)
  {}

  lemma {:induction false} DeeperLacks(env: Env, s: State, k: nat, i: nat, c: Column)
    requires Valid(env, s) && i < |env.hooks| && NeedsUnset(env, i, c) && k < |env.hooks| && Lacking(env, s, i, c)
    ensures var (t, _) := Deeper(env, s, k); t.held == s.held && Lacking(env, t, i, c)
    decreases 2 * (|env.hooks| - k) - 1, Base(k), 0, 0
  {
    hide Run, Write, NeedsUnset, Mild;
    if k + 1 < |env.hooks| {
      LayersMild(env, k + 1, i, c);
      RunLacks(env, s, Layers(env.hooks[k + 1], k + 1), s.held[k + 1], i, c);
    } else {
      WriteStep(env, s);
    }
  }

  lemma {:induction false} ConsultLacks(env: Env, s: State, h: Hook, next: Mutator, m: nat, results: seq<Outcome>,
                                        i: nat, c: Column)
    requires Valid(env, s) && i < |env.hooks| && NeedsUnset(env, i, c) && Builder(next) < |env.hooks|
             && Mild(Wrapped(h, next), i, c)
    requires m == s.held[Builder(next)] && Lacking(env, s, i, c) && |results| <= h.bound
    ensures var (t, _) := Consult(env, s, h, next, m, results); t.held == s.held && Lacking(env, t, i, c)
    decreases 2 * (|env.hooks| - Builder(next)), next, 1, h.bound - |results|
  {
    hide Run, Consult, NeedsUnset;
    if Calls(s, h, m, results) {
      var (s', m') := Enter(s, m, h.decide(s.heap[m].contents, results));
      ConsultCalls(env, s, h, next, m, results);
      assert Builder(next) == i ==> NeverSets(c)(h);
      RunLacks(env, s', next, m', i, c);
      var (t, r) := Run(env, s', next, m');
      ConsultLacks(env, t, h, next, m, results + [r], i, c);
    } else {
      ConsultEnds(env, s, h, next, m, results);
    }
  }

  /** Hooks that keep the mutation object, however often they call next and whatever they return: if one
      builder lacks a column the check needs and its hooks never set it, nothing is written for any builder. */
  lemma UnsetNeverWritten(env: Env, s: State, i: nat, c: Column)
    requires Fresh(env, s) && i < |env.hooks| && NeedsUnset(env, i, c) && Lacking(env, s, i, c)
    ensures Writes(Save(env, s).0.log) == 0
  {
    hide NeedsUnset, Mild;
    NoWriteBeforeAllChecks(env, s);
    LayersMild(env, 0, i, c);
    RunLacks(env, s, Layers(env.hooks[0], 0), s.held[0], i, c);
  }

  function Substitute(other: Contents): Hook {
    Hook(1, (f: Contents, results: seq<Outcome>) => if results == [] then Swap(other) else Finish(results[0]))
  }

  /** The bulk save checks the mutation the builder holds and only then takes over the one the hook
      passed on. So a hook that substitutes another mutation writes a row that was never checked. */
  lemma SubstituteIsNotChecked(env: Env, s: State, other: Contents)
    requires Fresh(env, s) && env.hooks == [[Substitute(other)]] && env.check(s.heap[s.held[0]].contents)
    ensures |Save(env, s).0.log| >= 2
    ensures Save(env, s).0.log[..2] == [Checked(0, true), Wrote([Some(env.spec(other))], env.driver(0).Inserted?)]
  {
    var h, m := Substitute(other), |s.heap|;
    var s1 := s.(heap := s.heap + [Mutation(other, false, true)]);
    assert Layers(env.hooks[0], 0) == Wrapped(h, Base(0)) by { assert [h][1..] == []; }
    assert s1.heap[s1.held[0]] == s.heap[s.held[0]];
    hide Run, Consult, Fill, Mark, Write, Writes;
    RunWrapped(env, s, h, Base(0), s.held[0]);
    ConsultCalls(env, s, h, Base(0), s.held[0], []);
    var (t, r) := Run(env, s1, Base(0), m);
    assert [] + [r] == [r];
    FirstWrite(env, s1, m);
    ConsultEnds(env, t, h, Base(0), s.held[0], [r]);
  }

  /** A single builder's mutator on a mutation m, when the mutation it holds passes the check. */
  lemma FirstWrite(env: Env, s: State, m: nat)
    requires Valid(env, s) && |env.hooks| == 1 && m < |s.heap| && s.heap[m].own
    requires s.log == [] && env.check(s.heap[s.held[0]].contents)
    ensures var log := Run(env, s, Base(0), m).0.log;
            && |log| >= 2
            && log[..2] == [Checked(0, true), Wrote([Some(env.spec(s.heap[m].contents))], env.driver(0).Inserted?)]
  {
    WritesSnoc([], Checked(0, true));
    assert Writes([]) == 0 && [] + [Checked(0, true)] == [Checked(0, true)];
    hide Run, Consult, Fill, Mark, Write, Writes, Valid;
    RunBase(env, s, 0, m);
    FillStep(env, s, 0, m);
    var filled := Fill(env, Record(s, Checked(0, true)), 0, m);
    assert filled.specs == [Some(env.spec(s.heap[m].contents))] && filled.log == [Checked(0, true)];
    WriteStep(env, filled);
    MarkStep(env, Write(env, filled).0, 0, m);
  }
}
