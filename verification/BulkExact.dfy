/** Bulk create through hooks that either fail first or call next once and return its result:
    the whole run, event by event. */
module BulkExact {
  import opened Rows
  import opened Columns
  import opened Bulk
  import opened BulkHooks

  /** Fails before calling next, or calls next once, on its own mutation edited in place or on a new one,
      and returns what it returned. */
  ghost predicate Transparent(h: Hook) {
    && h.bound >= 1
    && (forall f :: PassesOn(h, f) || (h.decide(f, []).Finish? && h.decide(f, []).result.Failed?))
    && (forall f, r :: h.decide(f, [r]) == Finish(r))
  }

  predicate PassesOn(h: Hook, f: Contents) {
    h.decide(f, []).Next? || h.decide(f, []).Swap? || h.decide(f, []).Stray?
  }

  ghost predicate AllTransparent(env: Env) {
    forall i, k :: 0 <= i < |env.hooks| && 0 <= k < |env.hooks[i]| ==> Transparent(env.hooks[i][k])
  }

  /** The contents that reach the innermost mutator through a stack, hook 0 first; None when a hook fails or
      the mutation that arrives is of another type. */
  function Admit(hooks: seq<Hook>, f: Contents): Option<Contents> { AdmitFrom(hooks, f, true) }

  function AdmitFrom(hooks: seq<Hook>, f: Contents, own: bool): Option<Contents> {
    if hooks == [] then if own then Some(f) else None
    else
      match hooks[0].decide(f, [])
      case Next(g) => AdmitFrom(hooks[1..], g, own)
      case Swap(g) => AdmitFrom(hooks[1..], g, true)
      case Stray(g) => AdmitFrom(hooks[1..], g, false)
      case _ => None
  }

  /** What the stack leaves in the mutation it was given: the edits up to the first hook that passes on
      another one. */
  function Keep(hooks: seq<Hook>, f: Contents): Contents {
    if hooks == [] then f else match hooks[0].decide(f, []) case Next(g) => Keep(hooks[1..], g) case _ => f
  }

  /** Builder i gets through: its hooks let it pass, and what they leave in the builder's own mutation,
      not what they pass on, passes the check. */
  predicate Ready(env: Env, contents: seq<Contents>, i: nat)
    requires |contents| == |env.hooks| && i < |env.hooks|
  {
    Admit(env.hooks[i], contents[i]).Some? && env.check(Keep(env.hooks[i], contents[i]))
  }

  /** The first builder from i on that does not get through; n when all do. */
  function FirstStop(env: Env, contents: seq<Contents>, i: nat): (k: nat)
    requires |contents| == |env.hooks| && i <= |env.hooks|
    ensures i <= k <= |env.hooks|
    ensures forall j :: i <= j < k ==> Ready(env, contents, j)
    ensures k < |env.hooks| ==> !Ready(env, contents, k)
    decreases |env.hooks| - i
  {
    if i == |env.hooks| || !Ready(env, contents, i) then i else FirstStop(env, contents, i + 1)
  }

  function Checks(i: nat, k: nat): seq<Event>
    decreases k - i
  {
    if i >= k then [] else [Checked(i, true)] + Checks(i + 1, k)
  }

  /** Completions come in reverse order. */
  function Marks(i: nat, n: nat): seq<Event>
    decreases n - i
  {
    if i >= n then [] else Marks(i + 1, n) + [Marked(i)]
  }

  /** A hook that fails leaves no event; a failed check does. */
  function Stop(env: Env, contents: seq<Contents>, k: nat): seq<Event>
    requires |contents| == |env.hooks| && k < |env.hooks|
  {
    if Admit(env.hooks[k], contents[k]).None? then [] else [Checked(k, false)]
  }

  /** All specs from builder i on, in builder order. */
  function SpecsFrom(env: Env, contents: seq<Contents>, i: nat): seq<Option<CreateSpec>>
    requires |contents| == |env.hooks| && i <= |env.hooks|
    requires forall j :: i <= j < |env.hooks| ==> Ready(env, contents, j)
    decreases |env.hooks| - i
  {
    if i == |env.hooks| then []
    else
      assert Ready(env, contents, i);
      [Some(env.spec(Admit(env.hooks[i], contents[i]).value))] + SpecsFrom(env, contents, i + 1)
  }

  /** The log of a save from builder i on, given the driver's answer. */
  function Trace(env: Env, contents: seq<Contents>, i: nat, specs: seq<Option<CreateSpec>>, answer: Written): seq<Event>
    requires |contents| == |env.hooks| && i <= |env.hooks|
  {
    var n, k := |env.hooks|, FirstStop(env, contents, i);
    if k < n then Checks(i, k) + Stop(env, contents, k)
    else Checks(i, n) + [Wrote(specs + SpecsFrom(env, contents, i), answer.Inserted?)]
         + if answer.Inserted? then Marks(i, n) else []
  }

  // ---------------------------------------------------------------- one hook stack

  ghost predicate TransparentLayers(mut: Mutator) {
    mut.Wrapped? ==> Transparent(mut.hook) && TransparentLayers(mut.next)
  }

  lemma ConsultOnce(env: Env, s: State, h: Hook, next: Mutator, m: nat)
    requires Valid(env, s) && Builder(next) < |env.hooks| && m < |s.heap| && Transparent(h)
    ensures PassesOn(h, s.heap[m].contents) ==>
              var (s', m') := Enter(s, m, h.decide(s.heap[m].contents, []));
              Entered(env, s, s', m') && Consult(env, s, h, next, m, []) == Run(env, s', next, m')
    ensures !PassesOn(h, s.heap[m].contents) ==>
              Consult(env, s, h, next, m, []).0 == s && Consult(env, s, h, next, m, []).1.Failed?
  {
    hide Run, Consult;
    if Calls(s, h, m, []) {
      ConsultCalls(env, s, h, next, m, []);
      var (s', m') := Enter(s, m, h.decide(s.heap[m].contents, []));
      var (t, r) := Run(env, s', next, m');
      assert [] + [r] == [r];
      ConsultEnds(env, t, h, next, m, [r]);
    } else {
      ConsultEnds(env, s, h, next, m, []);
    }
  }

  /** The objects once the stack has passed the mutation on, or failed, and the one it passed on last. */
  function Through(s: State, hooks: seq<Hook>, m: nat): (r: (State, nat))
    requires m < |s.heap|
    ensures r.1 < |r.0.heap|
    decreases hooks
  {
    if hooks == [] || !PassesOn(hooks[0], s.heap[m].contents) then (s, m)
    else
      var (s', m') := Enter(s, m, hooks[0].decide(s.heap[m].contents, []));
      Through(s', hooks[1..], m')
  }

  /** Only the contents of the mutation given change, and new objects appear: the one passed on is the one
      given or a new one, and holds what the stack admits. */
  ghost predicate PassedOn(s: State, hooks: seq<Hook>, m: nat, t: State, m': nat)
    requires m < |s.heap| && m' < |t.heap|
  {
    var f := s.heap[m].contents;
    && t == s.(heap := t.heap) && |s.heap| <= |t.heap| && (m' == m || |s.heap| <= m')
    && (forall k :: 0 <= k < |s.heap| && k != m ==> t.heap[k] == s.heap[k])
    && t.heap[m] == Mutation(Keep(hooks, f), s.heap[m].done, s.heap[m].own)
    && (AdmitFrom(hooks, f, s.heap[m].own).Some? ==>
          t.heap[m'].own && t.heap[m'].contents == AdmitFrom(hooks, f, s.heap[m].own).value)
  }

  lemma {:induction false} ThroughPasses(s: State, hooks: seq<Hook>, m: nat)
    requires m < |s.heap|
    ensures var (t, m') := Through(s, hooks, m); PassedOn(s, hooks, m, t, m')
    decreases hooks
  {
    if hooks != [] && PassesOn(hooks[0], s.heap[m].contents) {
      var (s', m') := Enter(s, m, hooks[0].decide(s.heap[m].contents, []));
      ThroughPasses(s', hooks[1..], m');
    }
  }

  /** A transparent stack either fails without an event or is the innermost mutator on what it admits,
      with what it keeps left in the mutation it was given. */
  lemma {:induction false} StackIsAdmit(env: Env, s: State, hooks: seq<Hook>, i: nat, m: nat)
    requires Valid(env, s) && i < |env.hooks| && m < |s.heap| && forall k :: 0 <= k < |hooks| ==> Transparent(hooks[k])
    ensures var (t, m') := Through(s, hooks, m);
            && PassedOn(s, hooks, m, t, m')
            && (AdmitFrom(hooks, s.heap[m].contents, s.heap[m].own).Some? ==>
                  Run(env, s, Layers(hooks, i), m) == Run(env, t, Base(i), m'))
            && (AdmitFrom(hooks, s.heap[m].contents, s.heap[m].own).None? ==>
                  Run(env, s, Layers(hooks, i), m).0 == t && Run(env, s, Layers(hooks, i), m).1.Failed?)
    decreases hooks
  {
    hide Run, Consult, Transparent;
    ThroughPasses(s, hooks, m);
    if hooks == [] {
      RunBase(env, s, i, m);
    } else {
      RunWrapped(env, s, hooks[0], Layers(hooks[1..], i), m);
      ConsultOnce(env, s, hooks[0], Layers(hooks[1..], i), m);
      if PassesOn(hooks[0], s.heap[m].contents) {
        var (s', m') := Enter(s, m, hooks[0].decide(s.heap[m].contents, []));
        StackIsAdmit(env, s', hooks[1..], i, m');
      }
    }
  }

  // ---------------------------------------------------------------- the whole chain

  /** From builder i on, mutations are distinct objects with the given contents. */
  ghost predicate Holds(env: Env, s: State, contents: seq<Contents>, i: nat) {
    && Valid(env, s) && |contents| == |env.hooks|
    && (forall j :: i <= j < |s.held| ==> s.heap[s.held[j]].contents == contents[j])
    && (forall j, k :: i <= j < k < |s.held| ==> s.held[j] != s.held[k])
  }

  lemma {:induction false} WritesConcat(a: seq<Event>, b: seq<Event>)
    ensures Writes(a + b) == Writes(a) + Writes(b)
  {
    if b == [] {
      assert a + b == a;
    } else {
      var n := |b| - 1;
      WritesConcat(a, b[..n]);
      assert (a + b)[..|a + b| - 1] == a + b[..n];
    }
  }

  lemma {:induction false} ChecksNoWrites(i: nat, k: nat)
    ensures Writes(Checks(i, k)) == 0
    decreases k - i
  {
    if i < k {
      ChecksNoWrites(i + 1, k);
      WritesConcat([Checked(i, true)], Checks(i + 1, k));
    }
  }

  /** The state in which builder i's slot was just filled with what its stack admits. */
  function Filled(env: Env, s: State, i: nat): (t: State)
    requires Valid(env, s) && i < |env.hooks| && Admit(env.hooks[i], s.heap[s.held[i]].contents).Some?
    ensures Valid(env, t) && Through(s, env.hooks[i], s.held[i]).1 < |t.heap|
  {
    ThroughPasses(s, env.hooks[i], s.held[i]);
    var (t, m) := Through(s, env.hooks[i], s.held[i]);
    Fill(env, Record(t, Checked(i, true)), i, m)
  }

  /** The innermost mutator after its stack: the check looks at the mutation the builder still holds. */
  lemma BaseRun(env: Env, s: State, i: nat)
    requires Valid(env, s) && i < |env.hooks| && Admit(env.hooks[i], s.heap[s.held[i]].contents).Some?
    ensures var kept := Keep(env.hooks[i], s.heap[s.held[i]].contents);
            var (t, m) := Through(s, env.hooks[i], s.held[i]);
            && PassedOn(s, env.hooks[i], s.held[i], t, m)
            && Run(env, t, Base(i), m)
               == if env.check(kept) then Up(env, Deeper(env, Filled(env, s, i), i), i, m)
                  else (Record(t, Checked(i, false)), Failed("validation"))
  {
    hide Run, Deeper, Fill, Up, Through, Keep, AdmitFrom;
    var (t, m) := Through(s, env.hooks[i], s.held[i]);
    ThroughPasses(s, env.hooks[i], s.held[i]);
    RunBase(env, t, i, m);
  }

  lemma FilledFacts(env: Env, s: State, i: nat)
    requires Valid(env, s) && i < |env.hooks| && Admit(env.hooks[i], s.heap[s.held[i]].contents).Some?
    ensures var t := Filled(env, s, i);
            var (u, m) := Through(s, env.hooks[i], s.held[i]);
            var row := env.spec(Admit(env.hooks[i], s.heap[s.held[i]].contents).value);
            && Valid(env, t) && t.heap == u.heap && t.held == s.held[i := m] && u.heap[m].own
            && PassedOn(s, env.hooks[i], s.held[i], u, m)
            && t.log == s.log + [Checked(i, true)] && Writes(t.log) == Writes(s.log)
            && t.nodes == s.nodes[i := Some(Node(row, 0))]
            && t.specs[..i + 1] == s.specs[..i] + [Some(row)]
            && (i + 1 == |env.hooks| ==> t.specs == s.specs[..i] + [Some(row)])
  {
    hide Fill, Writes, Through, Keep, AdmitFrom;
    ThroughPasses(s, env.hooks[i], s.held[i]);
    var (u, m) := Through(s, env.hooks[i], s.held[i]);
    FillStep(env, u, i, m);
    WritesSnoc(s.log, Checked(i, true));
  }

  /** Filling slot i leaves the later builders' mutations as they were. */
  lemma FilledHolds(env: Env, s: State, contents: seq<Contents>, i: nat)
    requires Holds(env, s, contents, i) && i < |env.hooks| && Admit(env.hooks[i], contents[i]).Some?
    ensures Holds(env, Filled(env, s, i), contents, i + 1)
  {
    hide Fill, Writes, Through, Keep, AdmitFrom, Filled;
    FilledFacts(env, s, i);
  }

  lemma {:induction false} ChainExact(env: Env, s: State, contents: seq<Contents>, i: nat)
    requires Holds(env, s, contents, i) && AllTransparent(env) && i < |env.hooks|
    ensures var (t, r) := Run(env, s, Layers(env.hooks[i], i), s.held[i]);
            RunsAsTraced(env, s, contents, i, s.specs[..i], t, r)
    decreases |env.hooks| - i
  {
    hide Run, Layers, AdmitFrom, Keep, Through, Filled, Deeper, Up;
    StackIsAdmit(env, s, env.hooks[i], i, s.held[i]);
    if Admit(env.hooks[i], contents[i]).Some? { BaseRun(env, s, i); }
    if Admit(env.hooks[i], contents[i]).None? {
      assert s.log + ([] + []) == s.log;
    } else if !Ready(env, contents, i) {
      assert Checks(i, i) + Stop(env, contents, i) == [Checked(i, false)];
    } else if i + 1 < |env.hooks| {
      FilledHolds(env, s, contents, i);
      ChainExact(env, Filled(env, s, i), contents, i + 1);
      ChainMiddle(env, s, contents, i);
    } else {
      ChainLast(env, s, contents, i);
    }
  }

  /** What the induction says about running the chain from builder i. */
  ghost predicate RunsAsTraced(env: Env, s: State, contents: seq<Contents>, i: nat, specs: seq<Option<CreateSpec>>,
                               t: State, r: Outcome)
    requires |contents| == |env.hooks| && i <= |env.hooks|
  {
    var answer := env.driver(Writes(s.log));
    && t.log == s.log + Trace(env, contents, i, specs, answer)
    && (r == Done <==> FirstStop(env, contents, i) == |env.hooks| && answer.Inserted?)
    && (r == Done ==> Writes(t.log) == Writes(s.log) + 1)
  }

  lemma ChainMiddle(env: Env, s: State, contents: seq<Contents>, i: nat)
    requires Holds(env, s, contents, i) && i + 1 < |env.hooks| && Ready(env, contents, i)
    requires var filled := Filled(env, s, i);
             && Valid(env, filled)
             && var (t, r) := Run(env, filled, Layers(env.hooks[i + 1], i + 1), filled.held[i + 1]);
                RunsAsTraced(env, filled, contents, i + 1, filled.specs[..i + 1], t, r)
    ensures var (u, m) := Through(s, env.hooks[i], s.held[i]);
            var (t, r) := Up(env, Deeper(env, Filled(env, s, i), i), i, m);
            RunsAsTraced(env, s, contents, i, s.specs[..i], t, r)
  {
    hide Run, Trace, Writes, Layers, AdmitFrom, FirstStop, Keep, Through, Filled;
    FilledFacts(env, s, i);
    var filled := Filled(env, s, i);
    var (t, r) := Run(env, filled, Layers(env.hooks[i + 1], i + 1), filled.held[i + 1]);
    TraceStep(env, contents, i, s.specs[..i], env.driver(Writes(s.log)));
    WritesSnoc(t.log, Marked(i));
  }

  lemma ChainLast(env: Env, s: State, contents: seq<Contents>, i: nat)
    requires Holds(env, s, contents, i) && i + 1 == |env.hooks| && Ready(env, contents, i)
    ensures var (u, m) := Through(s, env.hooks[i], s.held[i]);
            var (t, r) := Up(env, Deeper(env, Filled(env, s, i), i), i, m);
            RunsAsTraced(env, s, contents, i, s.specs[..i], t, r)
  {
    hide Run, Trace, Writes, Layers, AdmitFrom, FirstStop, Keep, Through, Filled;
    FilledFacts(env, s, i);
    var filled, answer := Filled(env, s, i), env.driver(Writes(s.log));
    TraceEnd(env, contents, i, s.specs[..i], answer);
    WritesSnoc(filled.log, Wrote(filled.specs, answer.Inserted?));
    WritesSnoc(filled.log + [Wrote(filled.specs, answer.Inserted?)], Marked(i));
  }

  lemma TraceEnd(env: Env, contents: seq<Contents>, i: nat, specs: seq<Option<CreateSpec>>, answer: Written)
    requires |contents| == |env.hooks| && i + 1 == |env.hooks| && Ready(env, contents, i)
    ensures var row := Some(env.spec(Admit(env.hooks[i], contents[i]).value));
            Trace(env, contents, i, specs, answer)
            == [Checked(i, true)] + [Wrote(specs + [row], answer.Inserted?)]
               + if answer.Inserted? then [Marked(i)] else []
    ensures FirstStop(env, contents, i) == |env.hooks|
  {
    assert Checks(i + 1, i + 1) == [] && Marks(i + 1, i + 1) == [];
    assert Checks(i, i + 1) == [Checked(i, true)] && Marks(i, i + 1) == [Marked(i)];
    var row := Some(env.spec(Admit(env.hooks[i], contents[i]).value));
    assert SpecsFrom(env, contents, i) == [row] by { assert SpecsFrom(env, contents, i + 1) == []; }
    assert specs + SpecsFrom(env, contents, i) == specs + [row];
    assert FirstStop(env, contents, i + 1) == i + 1;
  }

  /** Filling slot i and then running the rest is the trace from i. */
  lemma TraceStep(env: Env, contents: seq<Contents>, i: nat, specs: seq<Option<CreateSpec>>, answer: Written)
    requires |contents| == |env.hooks| && i + 1 < |env.hooks| && Ready(env, contents, i)
    ensures var row := Some(env.spec(Admit(env.hooks[i], contents[i]).value));
            var rest := Trace(env, contents, i + 1, specs + [row], answer);
            Trace(env, contents, i, specs, answer)
            == [Checked(i, true)] + rest
               + if FirstStop(env, contents, i + 1) == |env.hooks| && answer.Inserted? then [Marked(i)] else []
  {
    hide AdmitFrom, Keep, SpecsFrom, Stop;
    var n, k := |env.hooks|, FirstStop(env, contents, i + 1);
    var row := Some(env.spec(Admit(env.hooks[i], contents[i]).value));
    var rest := Trace(env, contents, i + 1, specs + [row], answer);
    assert FirstStop(env, contents, i) == k;
    assert Checks(i, k) == [Checked(i, true)] + Checks(i + 1, k);
    if k < n {
      assert Checks(i, k) + Stop(env, contents, k) == [Checked(i, true)] + (Checks(i + 1, k) + Stop(env, contents, k));
      assert [Checked(i, true)] + rest + [] == [Checked(i, true)] + rest;
    } else {
      SpecsFromStep(env, contents, i);
      var wrote := [Wrote((specs + [row]) + SpecsFrom(env, contents, i + 1), answer.Inserted?)];
      assert specs + SpecsFrom(env, contents, i) == (specs + [row]) + SpecsFrom(env, contents, i + 1);
      TraceEvents(i, n, wrote, answer.Inserted?);
    }
  }

  lemma TraceEvents(i: nat, n: nat, wrote: seq<Event>, marked: bool)
    requires i < n
    ensures Checks(i, n) + wrote + (if marked then Marks(i, n) else [])
         == [Checked(i, true)] + (Checks(i + 1, n) + wrote + (if marked then Marks(i + 1, n) else []))
            + (if marked then [Marked(i)] else [])
  {}

  lemma SpecsFromStep(env: Env, contents: seq<Contents>, i: nat)
    requires |contents| == |env.hooks| && i < |env.hooks|
    requires forall j :: i <= j < |env.hooks| ==> Ready(env, contents, j)
    ensures Ready(env, contents, i)
    ensures SpecsFrom(env, contents, i)
         == [Some(env.spec(Admit(env.hooks[i], contents[i]).value))] + SpecsFrom(env, contents, i + 1)
  {}

  /** The complete behaviour of a save through transparent hooks. With k the first builder that does
      not get through: checks 0..k-1 in order, then nothing or the one failed check, an error, no write
      and no mutation marked. When all get through: all checks in index order, exactly one write with
      all specs in builder order, and, if the driver accepts it, completions in reverse index order. */
  lemma SaveExact(env: Env, s: State, contents: seq<Contents>)
    requires Fresh(env, s) && Holds(env, s, contents, 0) && AllTransparent(env) && |env.hooks| > 0
    ensures var (t, r) := Save(env, s);
            && t.log == Trace(env, contents, 0, [], env.driver(0))
            && (r == Done <==> FirstStop(env, contents, 0) == |env.hooks| && env.driver(0).Inserted?)
            && (r == Done ==> Writes(t.log) == 1)
  {
    ChainExact(env, s, contents, 0);
    assert s.specs[..0] == [];
    assert [] + Trace(env, contents, 0, [], env.driver(0)) == Trace(env, contents, 0, [], env.driver(0));
  }

  // ---------------------------------------------------------------- the returned nodes

  /** The node of builder j: the row that was written, with the generated id (0 when none came back). */
  function ReturnedNode(env: Env, contents: seq<Contents>, j: nat, answer: Written): Node
    requires |contents| == |env.hooks| && j < |env.hooks| && Ready(env, contents, j) && answer.Inserted?
  {
    Node(env.spec(Admit(env.hooks[j], contents[j]).value), if answer.ids(j).Some? then answer.ids(j).value else 0)
  }

  /** From builder i on: the slot holds the written row with its id, and the mutation the builder ends up
      with is the one its stack passed on, marked done. */
  ghost predicate NodesReturned(env: Env, contents: seq<Contents>, i: nat, t: State, answer: Written) {
    && Valid(env, t) && |contents| == |env.hooks| && answer.Inserted?
    && (forall j :: 0 <= j < |env.hooks| ==> t.ids[j] == answer.ids(j))
    && forall j :: i <= j < |env.hooks| ==>
         && Ready(env, contents, j)
         && t.nodes[j] == Some(ReturnedNode(env, contents, j, answer))
         && t.heap[t.held[j]] == Mutation(Admit(env.hooks[j], contents[j]).value, true, true)
  }

  /** The state after running builder i's mutator on the mutation it holds. */
  function RunFrom(env: Env, s: State, i: nat): State
    requires Valid(env, s) && i < |env.hooks|
  {
    Run(env, s, Layers(env.hooks[i], i), s.held[i]).0
  }

  lemma {:induction false} NodesExact(env: Env, s: State, contents: seq<Contents>, i: nat)
    requires Holds(env, s, contents, i) && AllTransparent(env) && i < |env.hooks|
    requires FirstStop(env, contents, i) == |env.hooks| && env.driver(Writes(s.log)).Inserted?
    ensures NodesReturned(env, contents, i, RunFrom(env, s, i), env.driver(Writes(s.log)))
    ensures Run(env, s, Layers(env.hooks[i], i), s.held[i]).1 == Done
    decreases |env.hooks| - i
  {
    hide Run, Layers, AdmitFrom, Keep, Through, Filled, Deeper, Writes, NodesReturned;
    assert Ready(env, contents, i);
    StackIsAdmit(env, s, env.hooks[i], i, s.held[i]);
    BaseRun(env, s, i);
    FilledHolds(env, s, contents, i);
    FilledFacts(env, s, i);
    if i + 1 < |env.hooks| { NodesExact(env, Filled(env, s, i), contents, i + 1); }
    DeeperNodes(env, s, contents, i);
  }

  /** Below slot i everything is complete, slot i is still as it was filled; marking completes it. */
  lemma DeeperNodes(env: Env, s: State, contents: seq<Contents>, i: nat)
    requires Holds(env, s, contents, i) && AllTransparent(env) && i < |env.hooks| && Ready(env, contents, i)
    requires env.driver(Writes(s.log)).Inserted? && Holds(env, Filled(env, s, i), contents, i + 1)
    requires i + 1 < |env.hooks| ==>
               var filled := Filled(env, s, i);
               && NodesReturned(env, contents, i + 1, RunFrom(env, filled, i + 1), env.driver(Writes(s.log)))
               && Run(env, filled, Layers(env.hooks[i + 1], i + 1), filled.held[i + 1]).1 == Done
    ensures var (_, m) := Through(s, env.hooks[i], s.held[i]);
            var (t, r) := Up(env, Deeper(env, Filled(env, s, i), i), i, m);
            r == Done && NodesReturned(env, contents, i, t, env.driver(Writes(s.log)))
  {
    hide Run, Layers, AdmitFrom, Keep, Through, Filled, Writes, Write, Mark, AllTransparent, NodesReturned;
    var filled, answer := Filled(env, s, i), env.driver(Writes(s.log));
    var (_, m) := Through(s, env.hooks[i], s.held[i]);
    FilledFacts(env, s, i);
    if i + 1 < |env.hooks| { FilledStays(env, filled, contents, i, m); }
    WriteStep(env, filled);
    if i + 1 == |env.hooks| { NothingBelow(env, contents, Write(env, filled).0, answer); }
    MarkNode(env, contents, i, Deeper(env, filled, i).0, m, answer);
  }

  /** Running the later builders disturbs neither slot i nor its mutation. */
  lemma FilledStays(env: Env, filled: State, contents: seq<Contents>, i: nat, m: nat)
    requires Holds(env, filled, contents, i + 1) && AllTransparent(env) && i + 1 < |env.hooks| && m < |filled.heap|
    requires filled.held[i] == m && forall j :: i < j < |filled.held| ==> filled.held[j] != m
    ensures var t := RunFrom(env, filled, i + 1);
            t.held[i] == m && t.nodes[i] == filled.nodes[i] && t.heap[m] == filled.heap[m]
  {
    hide Run, Layers;
    RunLocal(env, filled, Layers(env.hooks[i + 1], i + 1), filled.held[i + 1]);
    RunKeepsOthers(env, filled, contents, i + 1, m);
  }

  lemma NothingBelow(env: Env, contents: seq<Contents>, t: State, answer: Written)
    requires Valid(env, t) && |contents| == |env.hooks| && answer.Inserted?
    requires forall j :: 0 <= j < |env.hooks| ==> t.ids[j] == answer.ids(j)
    ensures NodesReturned(env, contents, |env.hooks|, t, answer)
  {}

  lemma MarkNode(env: Env, contents: seq<Contents>, i: nat, t: State, m: nat, answer: Written)
    requires Valid(env, t) && i < |env.hooks| && m < |t.heap| && NodesReturned(env, contents, i + 1, t, answer)
    requires Ready(env, contents, i) && t.held[i] == m && t.heap[m].own
    requires t.heap[m].contents == Admit(env.hooks[i], contents[i]).value
    requires t.nodes[i] == Some(Node(env.spec(Admit(env.hooks[i], contents[i]).value), 0))
    ensures NodesReturned(env, contents, i, Mark(env, t, i, m), answer)
  {
    hide AdmitFrom, Keep, Ready;
    MarkStep(env, t, i, m);
  }

  /** The rest of the chain touches only the mutations of its own builders and new ones. */
  lemma {:induction false} RunKeepsOthers(env: Env, s: State, contents: seq<Contents>, i: nat, other: nat)
    requires Holds(env, s, contents, i) && AllTransparent(env) && i < |env.hooks| && other < |s.heap|
    requires forall j :: i <= j < |s.held| ==> s.held[j] != other
    ensures Run(env, s, Layers(env.hooks[i], i), s.held[i]).0.heap[other] == s.heap[other]
    decreases |env.hooks| - i
  {
    hide Run, Layers, AdmitFrom, Keep, Through, Filled, Write, Mark;
    StackIsAdmit(env, s, env.hooks[i], i, s.held[i]);
    if Admit(env.hooks[i], contents[i]).Some? { BaseRun(env, s, i); }
    var (u, m) := Through(s, env.hooks[i], s.held[i]);
    if Ready(env, contents, i) {
      var filled := Filled(env, s, i);
      FilledHolds(env, s, contents, i);
      FilledFacts(env, s, i);
      if i + 1 < |env.hooks| { RunKeepsOthers(env, filled, contents, i + 1, other); } else { WriteStep(env, filled); }
      var t := Deeper(env, filled, i).0;
      MarkStep(env, t, i, m);
    }
  }

  /** On success every slot of the result holds the row that was written, with its id, and every
      mutation is marked done. */
  lemma SaveReturnsWrittenNodes(env: Env, s: State, contents: seq<Contents>)
    requires Fresh(env, s) && Holds(env, s, contents, 0) && AllTransparent(env) && |env.hooks| > 0
    requires Save(env, s).1 == Done
    ensures env.driver(0).Inserted? && NodesReturned(env, contents, 0, Save(env, s).0, env.driver(0))
  {
    SaveExact(env, s, contents);
    NodesExact(env, s, contents, 0);
  }

  lemma StoppedTrace(env: Env, contents: seq<Contents>, answer: Written)
    requires |contents| == |env.hooks| && !(FirstStop(env, contents, 0) == |env.hooks| && answer.Inserted?)
    ensures forall e :: e in Trace(env, contents, 0, [], answer) ==> !e.Marked? && !(e.Wrote? && e.ok)
    ensures FirstStop(env, contents, 0) < |env.hooks| ==> Writes(Trace(env, contents, 0, [], answer)) == 0
  {
    hide AdmitFrom, Keep, Marks, Checks, SpecsFrom, Writes, FirstStop, Ready;
    var k := FirstStop(env, contents, 0);
    ChecksOnly(0, k);
    if k < |env.hooks| {
      ChecksNoWrites(0, k);
      WritesConcat(Checks(0, k), Stop(env, contents, k));
      StopNoWrites(env, contents, k);
    }
  }

  lemma StopNoWrites(env: Env, contents: seq<Contents>, k: nat)
    requires |contents| == |env.hooks| && k < |env.hooks|
    ensures Writes(Stop(env, contents, k)) == 0
  {
    WritesSnoc([], Checked(k, false));
    assert [] + [Checked(k, false)] == [Checked(k, false)];
  }

  /** Consequence: an error means that no accepted write happened and nothing was marked done. */
  lemma ErrorMeansNothingHappened(env: Env, s: State, contents: seq<Contents>)
    requires Fresh(env, s) && Holds(env, s, contents, 0) && AllTransparent(env) && |env.hooks| > 0
    requires Save(env, s).1.Failed?
    ensures forall e :: e in Save(env, s).0.log ==> !e.Marked? && !(e.Wrote? && e.ok)
    ensures FirstStop(env, contents, 0) < |env.hooks| ==> Writes(Save(env, s).0.log) == 0
  {
    hide Save, Trace, Writes, AllTransparent, FirstStop, Run;
    SaveExact(env, s, contents);
    StoppedTrace(env, contents, env.driver(0));
  }

  lemma {:induction false} ChecksOnly(i: nat, k: nat)
    ensures forall e :: e in Checks(i, k) ==> e.Checked?
    decreases k - i
  {
    if i < k { ChecksOnly(i + 1, k); }
  }

  // ---------------------------------------------------------------- whether what is written was checked

  /** Contents with the same spec pass the check alike. */
  ghost predicate SpecDecides(env: Env) {
    forall f, g :: env.spec(f) == env.spec(g) && env.check(f) ==> env.check(g)
  }

  /** What builder j's hooks pass on passes the check. */
  predicate AdmitsSound(env: Env, contents: seq<Contents>, j: nat)
    requires |contents| == |env.hooks| && j < |env.hooks|
  {
    Admit(env.hooks[j], contents[j]).Some? && env.check(Admit(env.hooks[j], contents[j]).value)
  }

  lemma {:induction false} SpecsFromAt(env: Env, contents: seq<Contents>, i: nat)
    requires |contents| == |env.hooks| && i <= |env.hooks|
    requires forall j :: i <= j < |env.hooks| ==> Ready(env, contents, j)
    ensures |SpecsFrom(env, contents, i)| == |env.hooks| - i
    ensures forall j :: i <= j < |env.hooks| ==>
              Admit(env.hooks[j], contents[j]).Some?
              && SpecsFrom(env, contents, i)[j - i] == Some(env.spec(Admit(env.hooks[j], contents[j]).value))
    decreases |env.hooks| - i
  {
    hide AdmitFrom, Keep;
    if i < |env.hooks| {
      SpecsFromAt(env, contents, i + 1);
      assert Ready(env, contents, i);
      assert SpecsFrom(env, contents, i)[1..] == SpecsFrom(env, contents, i + 1);
    }
  }

  /** The row of contents comes from checked contents exactly when they pass the check themselves. */
  lemma FromCheckedExact(env: Env, f: Contents)
    requires SpecDecides(env)
    ensures FromChecked(env, env.spec(f)) <==> env.check(f)
  {}

  lemma SpecsExact(env: Env, contents: seq<Contents>)
    requires |contents| == |env.hooks| && FirstStop(env, contents, 0) == |env.hooks| && SpecDecides(env)
    ensures SpecsChecked(env, SpecsFrom(env, contents, 0))
            <==> forall j :: 0 <= j < |env.hooks| ==> AdmitsSound(env, contents, j)
  {
    hide AdmitFrom, Keep, SpecDecides, FromChecked;
    SpecsFromAt(env, contents, 0);
    forall j | 0 <= j < |env.hooks|
      ensures SpecsFrom(env, contents, 0)[j].Some?
      ensures AdmitsSound(env, contents, j) <==> FromChecked(env, SpecsFrom(env, contents, 0)[j].value)
    {
      assert SpecsFrom(env, contents, 0)[j - 0] == Some(env.spec(Admit(env.hooks[j], contents[j]).value));
      FromCheckedExact(env, Admit(env.hooks[j], contents[j]).value);
    }
  }

  /** Through transparent hooks, every row written comes from contents that pass the check exactly when,
      whenever all builders get through, what each one's hooks pass on does. */
  lemma WrittenRowsExact(env: Env, s: State, contents: seq<Contents>)
    requires Fresh(env, s) && Holds(env, s, contents, 0) && AllTransparent(env) && |env.hooks| > 0
    requires SpecDecides(env)
    ensures (forall e :: e in Save(env, s).0.log && e.Wrote? ==> SpecsChecked(env, e.specs))
            <==> (FirstStop(env, contents, 0) == |env.hooks| ==>
                    forall j :: 0 <= j < |env.hooks| ==> AdmitsSound(env, contents, j))
  {
    hide Save, Run, Writes, AllTransparent, FirstStop, SpecDecides, SpecsChecked, AdmitsSound, Ready, SpecsFrom;
    hide Checks, Marks;
    SaveExact(env, s, contents);
    var n, k := |env.hooks|, FirstStop(env, contents, 0);
    ChecksOnly(0, k);
    MarksOnly(0, n);
    if k == n {
      SpecsExact(env, contents);
      assert [] + SpecsFrom(env, contents, 0) == SpecsFrom(env, contents, 0);
      assert Wrote(SpecsFrom(env, contents, 0), env.driver(0).Inserted?) in Save(env, s).0.log;
    }
  }

  lemma {:induction false} MarksOnly(i: nat, n: nat)
    ensures forall e :: e in Marks(i, n) ==> e.Marked?
    decreases n - i
  {
    if i < n { MarksOnly(i + 1, n); }
  }

  /** Hooks that keep the mutation object pass on what was checked. */
  lemma {:induction false} InPlaceAdmitsKept(hooks: seq<Hook>, f: Contents)
    requires forall k :: 0 <= k < |hooks| ==> InPlace(hooks[k])
    ensures Admit(hooks, f).Some? ==> Admit(hooks, f) == Some(Keep(hooks, f))
  {
    if hooks != [] && hooks[0].decide(f, []).Next? { InPlaceAdmitsKept(hooks[1..], hooks[0].decide(f, []).edited); }
  }
}
