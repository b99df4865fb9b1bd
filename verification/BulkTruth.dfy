/** When the outcome of a save tells what was written: conditions on hooks that are enough. */
module BulkTruth {
  import opened Rows
  import opened Columns
  import opened Bulk
  import opened BulkHooks

  // ---------------------------------------------------------------- hooks that do not invent success

  /** On some contents the hook calls next after these results. */
  ghost predicate MayCall(h: Hook, results: seq<Outcome>) { exists f :: !h.decide(f, results).Finish? }

  /** The hook can come to have seen these results: at each one it called next, within its bound. */
  ghost predicate Reached(h: Hook, results: seq<Outcome>) {
    |results| <= h.bound && forall k :: 0 <= k < |results| ==> MayCall(h, results[..k])
  }

  lemma ReachedStep(s: State, h: Hook, m: nat, results: seq<Outcome>, r: Outcome)
    requires m < |s.heap| && Reached(h, results) && Calls(s, h, m, results)
    ensures Reached(h, results + [r])
  {
    var next := results + [r];
    forall k | 0 <= k < |next| ensures MayCall(h, next[..k]) {
      if k < |results| { assert next[..k] == results[..k]; } else { assert next[..k] == results; }
    }
  }

  /** Success is returned only when some call of next succeeded. */
  ghost predicate Truthful(h: Hook) {
    forall f, results :: Reached(h, results) && h.decide(f, results) == Finish(Done) ==> Done in results
  }

  /** Success is returned only when the last call of next succeeded. */
  ghost predicate Honest(h: Hook) {
    forall f, results :: Reached(h, results) && h.decide(f, results) == Finish(Done) ==>
                           results != [] && results[|results| - 1] == Done
  }

  ghost predicate AllTruthful(env: Env) {
    forall i, k :: 0 <= i < |env.hooks| && 0 <= k < |env.hooks[i]| ==> Truthful(env.hooks[i][k])
  }

  ghost predicate AllHonest(env: Env) {
    forall i, k :: 0 <= i < |env.hooks| && 0 <= k < |env.hooks[i]| ==> Honest(env.hooks[i][k])
  }

  /** What the hook returns on these contents after these results; None when it calls next. A hook at its bound
      that would call once more fails. */
  function Answer(h: Hook, f: Contents, results: seq<Outcome>): Option<Outcome> {
    var move := h.decide(f, results);
    if move.Finish? then Some(move.result) else if |results| < h.bound then None else Some(Failed("hook"))
  }

  /** Failure is returned only when no call of next succeeded. */
  ghost predicate Loyal(h: Hook) {
    forall f, results :: Reached(h, results) && Answer(h, f, results).Some? && Answer(h, f, results).value.Failed? ==>
                           Done !in results
  }

  ghost predicate AllLoyal(env: Env) {
    forall i, k :: 0 <= i < |env.hooks| && 0 <= k < |env.hooks[i]| ==> Loyal(env.hooks[i][k])
  }

  ghost function IsLoyal(): Hook -> bool { (h: Hook) => Loyal(h) }

  lemma HonestIsTruthful(env: Env)
    requires AllHonest(env)
    ensures AllTruthful(env)
  {}

  /** The layers of a mutator are as truthful, and as honest, as all hooks are. */
  ghost predicate Faithful(env: Env, mut: Mutator) {
    mut.Wrapped? ==> Truthful(mut.hook) && (AllHonest(env) ==> Honest(mut.hook)) && Faithful(env, mut.next)
  }

  lemma {:induction false} LayersFaithful(env: Env, hooks: seq<Hook>, i: nat)
    requires forall k :: 0 <= k < |hooks| ==> Truthful(hooks[k]) && (AllHonest(env) ==> Honest(hooks[k]))
    ensures Faithful(env, Layers(hooks, i))
  {
    hide Truthful, Honest, AllHonest;
    if hooks != [] { LayersFaithful(env, hooks[1..], i); }
  }

  ghost predicate Landed(log: seq<Event>) { exists p :: 0 <= p < |log| && log[p].Wrote? && log[p].ok }

  ghost predicate MarksAfterLanding(log: seq<Event>) {
    forall p :: 0 <= p < |log| && log[p].Marked? ==> Landed(log[..p])
  }

  lemma LandedStep(log: seq<Event>, e: Event)
    ensures Landed(log + [e]) <==> Landed(log) || (e.Wrote? && e.ok)
    ensures MarksAfterLanding(log) && (e.Marked? ==> Landed(log)) ==> MarksAfterLanding(log + [e])
  {
    var next := log + [e];
    if e.Wrote? && e.ok { assert next[|log|] == e; }
    if p :| 0 <= p < |log| && log[p].Wrote? && log[p].ok { assert next[p] == log[p]; }
    if MarksAfterLanding(log) && (e.Marked? ==> Landed(log)) {
      forall p | 0 <= p < |next| && next[p].Marked? ensures Landed(next[..p]) {
        if p < |log| { assert next[..p] == log[..p]; } else { assert next[..p] == log; }
      }
    }
  }

  /** Every slot from builder i on is filled and its mutation marked done. */
  ghost predicate CompleteFrom(s: State, i: nat)
    requires |s.nodes| == |s.held|
  {
    forall j :: i <= j < |s.held| ==> s.nodes[j].Some? && s.held[j] < |s.heap| && s.heap[s.held[j]].done
  }

  lemma MarkCompletes(env: Env, t: State, i: nat, m: nat)
    requires Valid(env, t) && i < |env.hooks| && m < |t.heap| && t.held[i] == m && t.nodes[i].Some?
             && CompleteFrom(t, i + 1)
    ensures CompleteFrom(Mark(env, t, i, m), i)
  {
    hide Mark;
    MarkStep(env, t, i, m);
  }

  /** What an outcome of builder i's mutator says about the log and the slots. */
  ghost predicate Telling(env: Env, i: nat, t: State, r: Outcome)
    requires |t.nodes| == |t.held|
  {
    MarksAfterLanding(t.log) && (r == Done ==> Landed(t.log) && (AllHonest(env) ==> CompleteFrom(t, i)))
  }

  lemma {:induction false} RunTells(env: Env, s: State, mut: Mutator, m: nat)
    requires Valid(env, s) && AllTruthful(env) && Faithful(env, mut) && Builder(mut) < |env.hooks| && m < |s.heap|
    requires MarksAfterLanding(s.log)
    ensures Telling(env, Builder(mut), Run(env, s, mut, m).0, Run(env, s, mut, m).1)
    decreases 2 * (|env.hooks| - Builder(mut)), mut, 0, 0
  {
    hide Run, Consult, Deeper, Fill, Mark, Landed, MarksAfterLanding, CompleteFrom, AllHonest, AllTruthful;
    match mut {
      case Wrapped(h, next) =>
        RunWrapped(env, s, h, next, m);
        assert Reached(h, []);
        ConsultTells(env, s, h, next, m, []);
      case Base(i) =>
        RunBase(env, s, i, m);
        var ok := env.check(s.heap[s.held[i]].contents);
        LandedStep(s.log, Checked(i, ok));
        if s.heap[m].own && ok {
          var filled := Fill(env, Record(s, Checked(i, true)), i, m);
          FillStep(env, s, i, m);
          DeeperTells(env, filled, i);
          DeeperLocal(env, filled, i);
          var (t, r) := Deeper(env, filled, i);
          LandedStep(t.log, Marked(i));
          MarkStep(env, t, i, m);
          if r.Done? && AllHonest(env) { MarkCompletes(env, t, i, m); }
        }
    }
  }

  lemma {:induction false} DeeperTells(env: Env, s: State, i: nat)
    requires Valid(env, s) && AllTruthful(env) && i < |env.hooks| && MarksAfterLanding(s.log)
    ensures Telling(env, i + 1, Deeper(env, s, i).0, Deeper(env, s, i).1)
    decreases 2 * (|env.hooks| - i) - 1, Base(i), 0, 0
  {
    hide Run, Write, Landed, MarksAfterLanding, Truthful, Honest;
    if i + 1 < |env.hooks| {
      LayersFaithful(env, env.hooks[i + 1], i + 1);
      RunTells(env, s, Layers(env.hooks[i + 1], i + 1), s.held[i + 1]);
    } else {
      WriteStep(env, s);
      LandedStep(s.log, Wrote(s.specs, Write(env, s).1.Done?));
    }
  }

  lemma {:induction false} ConsultTells(env: Env, s: State, h: Hook, next: Mutator, m: nat, results: seq<Outcome>)
    requires Valid(env, s) && AllTruthful(env) && Faithful(env, Wrapped(h, next))
    requires Builder(next) < |env.hooks| && m < |s.heap| && Reached(h, results) && MarksAfterLanding(s.log)
    requires Done in results ==> Landed(s.log)
    requires AllHonest(env) && results != [] && results[|results| - 1] == Done ==> CompleteFrom(s, Builder(next))
    ensures var (t, r) := Consult(env, s, h, next, m, results);
            Telling(env, Builder(next), t, r) && (Landed(s.log) ==> Landed(t.log))
    decreases 2 * (|env.hooks| - Builder(next)), next, 1, h.bound - |results|
  {
    hide Run, Consult, Enter, Landed, MarksAfterLanding, CompleteFrom, AllHonest, AllTruthful;
    if Calls(s, h, m, results) {
      var (s', m') := Enter(s, m, h.decide(s.heap[m].contents, results));
      ConsultCalls(env, s, h, next, m, results);
      RunTells(env, s', next, m');
      var (t, r) := Run(env, s', next, m');
      ReachedStep(s, h, m, results, r);
      RunLogs(env, s', next, m');
      LandedStays(s.log, t.log);
      ConsultTells(env, t, h, next, m, results + [r]);
    } else {
      ConsultEnds(env, s, h, next, m, results);
    }
  }

  lemma LandedStays(log: seq<Event>, longer: seq<Event>)
    requires log <= longer
    ensures Landed(log) ==> Landed(longer)
  {
    if p :| 0 <= p < |log| && log[p].Wrote? && log[p].ok { assert longer[p] == log[p]; }
  }

  /** The log only grows. */
  lemma {:induction false} RunLogs(env: Env, s: State, mut: Mutator, m: nat)
    requires Valid(env, s) && Builder(mut) < |env.hooks| && m < |s.heap|
    ensures s.log <= Run(env, s, mut, m).0.log
    decreases 2 * (|env.hooks| - Builder(mut)), mut, 0, 0
  {
    hide Run, Consult, Deeper, Fill, Mark;
    match mut {
      case Wrapped(h, next) =>
        RunWrapped(env, s, h, next, m);
        ConsultLogs(env, s, h, next, m, []);
      case Base(i) =>
        RunBase(env, s, i, m);
        if s.heap[m].own && env.check(s.heap[s.held[i]].contents) {
          var filled := Fill(env, Record(s, Checked(i, true)), i, m);
          FillStep(env, s, i, m);
          DeeperLogs(env, filled, i);
          MarkStep(env, Deeper(env, filled, i).0, i, m);
        }
    }
  }

  lemma {:induction false} DeeperLogs(env: Env, s: State, i: nat)
    requires Valid(env, s) && i < |env.hooks|
    ensures s.log <= Deeper(env, s, i).0.log
    decreases 2 * (|env.hooks| - i) - 1, Base(i), 0, 0
  {
    hide Run, Write;
    if i + 1 < |env.hooks| {
      RunLogs(env, s, Layers(env.hooks[i + 1], i + 1), s.held[i + 1]);
    } else {
      WriteStep(env, s);
    }
  }

  lemma {:induction false} ConsultLogs(env: Env, s: State, h: Hook, next: Mutator, m: nat, results: seq<Outcome>)
    requires Valid(env, s) && Builder(next) < |env.hooks| && m < |s.heap| && |results| <= h.bound
    ensures s.log <= Consult(env, s, h, next, m, results).0.log
    decreases 2 * (|env.hooks| - Builder(next)), next, 1, h.bound - |results|
  {
    hide Run, Consult, Enter;
    if Calls(s, h, m, results) {
      var (s', m') := Enter(s, m, h.decide(s.heap[m].contents, results));
      ConsultCalls(env, s, h, next, m, results);
      RunLogs(env, s', next, m');
      var (t, r) := Run(env, s', next, m');
      ConsultLogs(env, t, h, next, m, results + [r]);
    } else {
      ConsultEnds(env, s, h, next, m, results);
    }
  }

  /** Hooks that never claim a success they have not seen: no mutation is marked done before a write
      succeeded, and a successful save of at least one builder has written. */
  lemma SuccessMeansLanded(env: Env, s: State)
    requires Fresh(env, s) && AllTruthful(env)
    ensures var (t, r) := Save(env, s);
            MarksAfterLanding(t.log) && (r == Done && |env.hooks| > 0 ==> Landed(t.log))
  {
    hide Run, Layers, Truthful, Honest, Landed, CompleteFrom;
    if |env.hooks| > 0 {
      LayersFaithful(env, env.hooks[0], 0);
      RunTells(env, s, Layers(env.hooks[0], 0), s.held[0]);
    }
  }

  /** If they claim only the success of their last call, a successful save moreover filled every node slot
      and marked every mutation done. */
  lemma SuccessMeansWritten(env: Env, s: State)
    requires Fresh(env, s) && AllHonest(env)
    ensures var (t, r) := Save(env, s);
            && MarksAfterLanding(t.log)
            && (r == Done && |env.hooks| > 0 ==> Landed(t.log) && CompleteFrom(t, 0))
  {
    HonestIsTruthful(env);
    hide Run, Layers, Truthful, Honest, Landed, CompleteFrom;
    if |env.hooks| > 0 {
      LayersFaithful(env, env.hooks[0], 0);
      RunTells(env, s, Layers(env.hooks[0], 0), s.held[0]);
    }
  }

  // ---------------------------------------------------------------- failure means that nothing was accepted

  lemma {:induction false} RunFails(env: Env, s: State, mut: Mutator, m: nat)
    requires Valid(env, s) && AllLoyal(env) && AllHooks(mut, IsLoyal()) && Builder(mut) < |env.hooks| && m < |s.heap|
    ensures var (t, r) := Run(env, s, mut, m); r.Failed? && Landed(t.log) ==> Landed(s.log)
    decreases 2 * (|env.hooks| - Builder(mut)), mut, 0, 0
  {
    hide Run, Consult, Deeper, Fill, Mark, Landed, AllLoyal, Loyal;
    match mut {
      case Wrapped(h, next) =>
        RunWrapped(env, s, h, next, m);
        assert Reached(h, []) && IsLoyal()(h);
        ConsultFails(env, s, h, next, m, [], Landed(s.log));
      case Base(i) =>
        RunBase(env, s, i, m);
        var ok := env.check(s.heap[s.held[i]].contents);
        LandedStep(s.log, Checked(i, ok));
        if s.heap[m].own && ok {
          var filled := Fill(env, Record(s, Checked(i, true)), i, m);
          FillStep(env, s, i, m);
          DeeperFails(env, filled, i);
        }
    }
  }

  lemma {:induction false} DeeperFails(env: Env, s: State, i: nat)
    requires Valid(env, s) && AllLoyal(env) && i < |env.hooks|
    ensures var (t, r) := Deeper(env, s, i); r.Failed? && Landed(t.log) ==> Landed(s.log)
    decreases 2 * (|env.hooks| - i) - 1, Base(i), 0, 0
  {
    hide Run, Write, Landed, Loyal;
    if i + 1 < |env.hooks| {
      LayersAll(env.hooks[i + 1], i + 1, IsLoyal());
      RunFails(env, s, Layers(env.hooks[i + 1], i + 1), s.held[i + 1]);
    } else {
      WriteStep(env, s);
      LandedStep(s.log, Wrote(s.specs, Write(env, s).1.Done?));
    }
  }

  lemma {:induction false} ConsultFails(env: Env, s: State, h: Hook, next: Mutator, m: nat, results: seq<Outcome>,
                                        before: bool)
    requires Valid(env, s) && AllLoyal(env) && Loyal(h) && AllHooks(next, IsLoyal())
    requires Builder(next) < |env.hooks| && m < |s.heap| && Reached(h, results)
    requires Landed(s.log) ==> before || Done in results
    ensures var (t, r) := Consult(env, s, h, next, m, results); r.Failed? && Landed(t.log) ==> before
    decreases 2 * (|env.hooks| - Builder(next)), next, 1, h.bound - |results|
  {
    hide Run, Consult, Enter, Landed, AllLoyal;
    if Calls(s, h, m, results) {
      var (s', m') := Enter(s, m, h.decide(s.heap[m].contents, results));
      ConsultCalls(env, s, h, next, m, results);
      RunFails(env, s', next, m');
      var (t, r) := Run(env, s', next, m');
      ReachedStep(s, h, m, results, r);
      ConsultFails(env, t, h, next, m, results + [r], before);
    } else {
      ConsultEnds(env, s, h, next, m, results);
      assert Answer(h, s.heap[m].contents, results) == Some(Consult(env, s, h, next, m, results).1);
    }
  }

  /** Hooks that never report failure after a success they have seen: a failed save had no accepted write. */
  lemma FailureMeansNotLanded(env: Env, s: State)
    requires Fresh(env, s) && AllLoyal(env)
    ensures Save(env, s).1.Failed? ==> !Landed(Save(env, s).0.log)
  {
    hide Run, Layers, Loyal;
    if |env.hooks| > 0 {
      LayersAll(env.hooks[0], 0, IsLoyal());
      RunFails(env, s, Layers(env.hooks[0], 0), s.held[0]);
    }
  }

  // ---------------------------------------------------------------- a hook that invents success

  /** A hook that turns every failure into success. */
  function Swallow(): Hook {
    Hook(1, (f: Contents, results: seq<Outcome>) => if results == [] then Next(f) else Finish(Done))
  }

  /** Why honesty is needed: with Swallow on the second builder, a failed check is reported as a
      successful save, the first mutation is marked done, and nothing was written. */
  lemma SwallowedFailure(env: Env, s: State)
    requires Fresh(env, s) && env.hooks == [[], [Swallow()]] && s.held[0] != s.held[1]
    requires env.check(s.heap[s.held[0]].contents) && !env.check(s.heap[s.held[1]].contents)
    ensures Save(env, s).1 == Done
    ensures Save(env, s).0.log == [Checked(0, true), Checked(1, false), Marked(0)]
  {
    var filled := Fill(env, Record(s, Checked(0, true)), 0, s.held[0]);
    FillStep(env, s, 0, s.held[0]);
    var m := filled.held[1];
    var s1 := SetContents(filled, m, filled.heap[m].contents);
    assert s1.heap == filled.heap;
    assert Layers(env.hooks[1], 1) == Wrapped(Swallow(), Base(1)) by { assert [Swallow()][1..] == []; }
    hide Run, Consult, Fill, Mark, Write, Valid;
    RunBase(env, s1, 1, m);
    var t := Record(s1, Checked(1, false));
    var r := Failed("validation");
    ConsultCalls(env, filled, Swallow(), Base(1), m, []);
    assert [] + [r] == [r];
    ConsultEnds(env, t, Swallow(), Base(1), m, [r]);
    RunWrapped(env, filled, Swallow(), Base(1), m);
    RunBase(env, s, 0, s.held[0]);
    MarkStep(env, t, 0, s.held[0]);
  }
}
