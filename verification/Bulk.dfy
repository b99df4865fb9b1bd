/** Bulk create: n mutators chained through arbitrary hook stacks, one shared write at the end. */
module Bulk {
  import opened Rows
  import opened Columns

  datatype Outcome = Done | Failed(reason: string)

  /** What a hook does next: return, pass on the mutation it was given after editing it in place,
      pass on a new mutation object, of the builder's type or of another, or edit any mutations it can
      lay its hands on, those of other builders too, and pass on one of them. */
  datatype Move =
    | Finish(result: Outcome)
    | Next(edited: Contents)
    | Swap(other: Contents)
    | Stray(other: Contents)
    | Borrow(target: nat, edits: map<nat, Contents>)

  /** An arbitrary hook: it sees the mutation's contents and what its calls of `next` returned so
      far, and calls `next` at most `bound` times. */
  datatype Hook = Hook(bound: nat, decide: (Contents, seq<Outcome>) -> Move)

  /** A mutation object; `own` when it is of the Go type the builders expect. */
  datatype Mutation = Mutation(contents: Contents, done: bool, own: bool)

  datatype Node = Node(row: CreateSpec, id: int)

  datatype Event =
    | Checked(builder: nat, ok: bool)
    | Wrote(specs: seq<Option<CreateSpec>>, ok: bool)
    | Marked(builder: nat)

  /** The closures `Save` builds: the innermost mutator of builder i, wrapped by its hooks. */
  datatype Mutator = Base(i: nat) | Wrapped(hook: Hook, next: Mutator)

  /** The driver's answer to one batch write: an error, or the generated ids, if any. */
  datatype Written = Rejected(reason: string) | Inserted(ids: nat -> Option<int>)

  /** What does not change during a save. `driver` answers the k-th write. */
  datatype Env = Env(
    hooks: seq<seq<Hook>>,
    check: Contents -> bool,
    spec: Contents -> CreateSpec,
    driver: nat -> Written)

  /** Mutation objects live in `heap`; `held[i]` is builder i's current mutation, `ids[i]` the generated
      id in the spec of slot i. */
  datatype State = State(
    heap: seq<Mutation>,
    held: seq<nat>,
    nodes: seq<Option<Node>>,
    specs: seq<Option<CreateSpec>>,
    ids: seq<Option<int>>,
    log: seq<Event>)

  function Builder(mut: Mutator): nat { match mut case Base(i) => i case Wrapped(_, next) => Builder(next) }

  /** Hook 0 outermost. */
  function Layers(hooks: seq<Hook>, i: nat): (mut: Mutator)
    ensures Builder(mut) == i
  {
    if hooks == [] then Base(i) else Wrapped(hooks[0], Layers(hooks[1..], i))
  }

  ghost predicate Valid(env: Env, s: State) {
    && |s.held| == |s.nodes| == |s.specs| == |s.ids| == |env.hooks|
    && forall i :: 0 <= i < |s.held| ==> s.held[i] < |s.heap| && s.heap[s.held[i]].own
  }

  function Writes(log: seq<Event>): nat {
    if log == [] then 0 else Writes(log[..|log| - 1]) + if log[|log| - 1].Wrote? then 1 else 0
  }

  // ---------------------------------------------------------------- the chain as a state transformer

  function SetContents(s: State, m: nat, f: Contents): State
    requires m < |s.heap|
  {
    s.(heap := s.heap[m := s.heap[m].(contents := f)])
  }

  function Record(s: State, e: Event): State { s.(log := s.log + [e]) }

  /** `createSpec` into slot i, after the builder took over the mutation it was passed. */
  function Fill(env: Env, s: State, i: nat, m: nat): State
    requires Valid(env, s) && i < |s.held| && m < |s.heap| && s.heap[m].own
  {
    var row := env.spec(s.heap[m].contents);
    s.(held := s.held[i := m], nodes := s.nodes[i := Some(Node(row, 0))], specs := s.specs[i := Some(row)],
       ids := s.ids[i := None])
  }

  /** `BatchCreate`: a write that is accepted puts the generated ids into the specs. */
  function Write(env: Env, s: State): (State, Outcome) {
    match env.driver(Writes(s.log))
    case Rejected(reason) => (Record(s, Wrote(s.specs, false)), Failed(reason))
    case Inserted(ids) =>
      var filled := s.(ids := seq(|s.ids|, i requires 0 <= i < |s.ids| => ids(i)));
      (Record(filled, Wrote(s.specs, true)), Done)
  }

  /** The way back up: id, node id, done flag. */
  function Mark(env: Env, s: State, i: nat, m: nat): State
    requires Valid(env, s) && i < |s.nodes| && m < |s.heap|
  {
    var id := s.ids[i];
    var nodes :=
      if s.nodes[i].Some? && id.Some? then s.nodes[i := Some(s.nodes[i].value.(id := id.value))] else s.nodes;
    Record(s.(heap := s.heap[m := s.heap[m].(done := true)], nodes := nodes), Marked(i))
  }

  /** Nothing to complete after an error. */
  function Up(env: Env, p: (State, Outcome), i: nat, m: nat): (State, Outcome)
    requires Valid(env, p.0) && i < |env.hooks| && m < |p.0.heap|
  {
    if p.1.Failed? then p else (Mark(env, p.0, i, m), Done)
  }

  /** The objects after a hook edited those that exist. */
  function Edit(heap: seq<Mutation>, edits: map<nat, Contents>): (r: seq<Mutation>)
    ensures |r| == |heap| && forall k :: 0 <= k < |heap| ==> r[k].done == heap[k].done && r[k].own == heap[k].own
  {
    seq(|heap|, k requires 0 <= k < |heap| => if k in edits then heap[k].(contents := edits[k]) else heap[k])
  }

  /** A hook calls next: on the mutation it was given, edited, or on another object. A target that
      does not exist means the mutation it was given. */
  function Enter(s: State, m: nat, move: Move): (State, nat)
    requires m < |s.heap|
  {
    match move
    case Finish(_) => (s, m)
    case Next(edited) => (SetContents(s, m, edited), m)
    case Swap(other) => (s.(heap := s.heap + [Mutation(other, false, true)]), |s.heap|)
    case Stray(other) => (s.(heap := s.heap + [Mutation(other, false, false)]), |s.heap|)
    case Borrow(target, edits) => (s.(heap := Edit(s.heap, edits)), if target < |s.heap| then target else m)
  }

  /** `mut.Mutate(ctx, m)`. */
  function Run(env: Env, s: State, mut: Mutator, m: nat): (r: (State, Outcome))
    requires Valid(env, s) && Builder(mut) < |env.hooks| && m < |s.heap|
    ensures Valid(env, r.0) && |s.heap| <= |r.0.heap|
    decreases 2 * (|env.hooks| - Builder(mut)), mut, 0, 0
  {
    match mut
    case Wrapped(h, next) => Consult(env, s, h, next, m, [])
    case Base(i) =>
      if !s.heap[m].own then (s, Failed("unexpected mutation type"))
      else if !env.check(s.heap[s.held[i]].contents) then (Record(s, Checked(i, false)), Failed("validation"))
      else Up(env, Deeper(env, Fill(env, Record(s, Checked(i, true)), i, m), i), i, m)
  }

  /** From the filled slot i on: the next mutator, or the write. */
  function Deeper(env: Env, s: State, i: nat): (r: (State, Outcome))
    requires Valid(env, s) && i < |env.hooks|
    ensures Valid(env, r.0) && |s.heap| <= |r.0.heap|
    decreases 2 * (|env.hooks| - i) - 1, Base(i), 0, 0
  {
    if i + 1 < |env.hooks| then Run(env, s, Layers(env.hooks[i + 1], i + 1), s.held[i + 1]) else Write(env, s)
  }

  /** A hook around `next`, given what its earlier calls returned. */
  function Consult(env: Env, s: State, h: Hook, next: Mutator, m: nat, results: seq<Outcome>): (r: (State, Outcome))
    requires Valid(env, s) && Builder(next) < |env.hooks| && m < |s.heap| && |results| <= h.bound
    ensures Valid(env, r.0) && |s.heap| <= |r.0.heap|
    decreases 2 * (|env.hooks| - Builder(next)), next, 1, h.bound - |results|
  {
    var move := h.decide(s.heap[m].contents, results);
    if move.Finish? then (s, move.result)
    else if |results| == h.bound then (s, Failed("hook"))
    else
      var (s', m') := Enter(s, m, move);
      var (t, r) := Run(env, s', next, m');
      Consult(env, t, h, next, m, results + [r])
  }

  /** `Save` after the mutators are built: nothing to do without builders. */
  function Save(env: Env, s: State): (State, Outcome)
    requires Valid(env, s)
  {
    if |env.hooks| == 0 then (s, Done) else Run(env, s, Layers(env.hooks[0], 0), s.held[0])
  }

  /** What `Save` starts from: empty slots, one mutation a builder, nothing logged. */
  ghost predicate Fresh(env: Env, s: State) {
    && Valid(env, s) && s.log == []
    && forall i :: 0 <= i < |s.specs| ==> s.specs[i] == None && s.nodes[i] == None && s.ids[i] == None
  }

  // ---------------------------------------------------------------- what each step changes

  lemma RunBase(env: Env, s: State, i: nat, m: nat)
    requires Valid(env, s) && i < |env.hooks| && m < |s.heap|
    ensures Run(env, s, Base(i), m)
         == if !s.heap[m].own then (s, Failed("unexpected mutation type"))
            else if !env.check(s.heap[s.held[i]].contents) then (Record(s, Checked(i, false)), Failed("validation"))
            else Up(env, Deeper(env, Fill(env, Record(s, Checked(i, true)), i, m), i), i, m)
  {}

  lemma RunWrapped(env: Env, s: State, h: Hook, next: Mutator, m: nat)
    requires Valid(env, s) && Builder(next) < |env.hooks| && m < |s.heap|
    ensures Run(env, s, Wrapped(h, next), m) == Consult(env, s, h, next, m, [])
  {}

  predicate Calls(s: State, h: Hook, m: nat, results: seq<Outcome>)
    requires m < |s.heap|
  {
    |results| < h.bound && !h.decide(s.heap[m].contents, results).Finish?
  }

  lemma ConsultCalls(env: Env, s: State, h: Hook, next: Mutator, m: nat, results: seq<Outcome>)
    requires Valid(env, s) && Builder(next) < |env.hooks| && m < |s.heap| && |results| <= h.bound
    requires Calls(s, h, m, results)
    ensures var (s', m') := Enter(s, m, h.decide(s.heap[m].contents, results));
            && Entered(env, s, s', m') && (h.decide(s.heap[m].contents, results).Next? ==> m' == m)
            && var (t, r) := Run(env, s', next, m');
               Consult(env, s, h, next, m, results) == Consult(env, t, h, next, m, results + [r])
  {}

  lemma ConsultEnds(env: Env, s: State, h: Hook, next: Mutator, m: nat, results: seq<Outcome>)
    requires Valid(env, s) && Builder(next) < |env.hooks| && m < |s.heap| && |results| <= h.bound
    requires !Calls(s, h, m, results)
    ensures Consult(env, s, h, next, m, results).0 == s
    ensures var move := h.decide(s.heap[m].contents, results);
            Consult(env, s, h, next, m, results).1 == if move.Finish? then move.result else Failed("hook")
  {}

  /** Entering next changes nothing but the heap, and no done flag. */
  ghost predicate Entered(env: Env, s: State, t: State, m: nat) {
    && Valid(env, s) && Valid(env, t) && m < |t.heap| && |s.heap| <= |t.heap|
    && t.held == s.held && t.nodes == s.nodes && t.specs == s.specs && t.ids == s.ids && t.log == s.log
    && forall j :: 0 <= j < |s.heap| ==> t.heap[j].done == s.heap[j].done && t.heap[j].own == s.heap[j].own
  }

  lemma FillStep(env: Env, s: State, i: nat, m: nat)
    requires Valid(env, s) && i < |env.hooks| && m < |s.heap| && s.heap[m].own
    ensures var t := Fill(env, Record(s, Checked(i, true)), i, m);
            var row := env.spec(s.heap[m].contents);
            && Valid(env, t) && t.heap == s.heap && t.log == s.log + [Checked(i, true)]
            && t.held == s.held[i := m] && t.specs == s.specs[i := Some(row)] && t.ids == s.ids[i := None]
            && t.nodes == s.nodes[i := Some(Node(row, 0))]
  {}

  lemma WriteStep(env: Env, s: State)
    ensures var (t, r) := Write(env, s);
            && t == Record(s.(ids := t.ids), Wrote(s.specs, r.Done?)) && |t.ids| == |s.ids|
            && (r.Done? <==> env.driver(Writes(s.log)).Inserted?)
            && (r.Done? ==> forall i :: 0 <= i < |t.ids| ==> t.ids[i] == env.driver(Writes(s.log)).ids(i))
  {}

  lemma MarkStep(env: Env, s: State, i: nat, m: nat)
    requires Valid(env, s) && i < |env.hooks| && m < |s.heap|
    ensures var t := Mark(env, s, i, m);
            && Valid(env, t) && t.held == s.held && t.specs == s.specs && t.ids == s.ids && t.log == s.log + [Marked(i)]
            && t.heap == s.heap[m := s.heap[m].(done := true)]
            && |t.nodes| == |s.nodes| && (t.nodes[i].Some? <==> s.nodes[i].Some?)
            && forall j :: 0 <= j < |s.nodes| && j != i ==> t.nodes[j] == s.nodes[j]
  {}

  // ---------------------------------------------------------------- every hook: no write before all checks

  /** Builder i's check passed at some time. */
  ghost predicate PassedIn(log: seq<Event>, i: nat) { Checked(i, true) in log }

  /** A write found all n slots filled, and came after a passed check of every builder. */
  ghost predicate Guarded(n: nat, log: seq<Event>) {
    forall p :: 0 <= p < |log| && log[p].Wrote? ==>
      |log[p].specs| == n && (forall i :: 0 <= i < n ==> log[p].specs[i].Some? && PassedIn(log[..p], i))
  }

  ghost predicate FilledMeansPassed(s: State) {
    forall i :: 0 <= i < |s.specs| && s.specs[i].Some? ==> PassedIn(s.log, i)
  }

  ghost predicate Safe(env: Env, s: State) {
    Valid(env, s) && Guarded(|env.hooks|, s.log) && FilledMeansPassed(s)
  }

  ghost predicate FilledBelow(s: State, i: nat) { forall j :: 0 <= j < i && j < |s.specs| ==> s.specs[j].Some? }

  lemma GuardedStep(n: nat, log: seq<Event>, e: Event)
    requires Guarded(n, log)
    requires e.Wrote? ==> |e.specs| == n && forall i :: 0 <= i < n ==> e.specs[i].Some? && PassedIn(log, i)
    ensures Guarded(n, log + [e])
  {
    var next := log + [e];
    forall p | 0 <= p < |next| && next[p].Wrote?
      ensures |next[p].specs| == n && forall i :: 0 <= i < n ==> next[p].specs[i].Some? && PassedIn(next[..p], i)
    {
      if p < |log| { assert next[..p] == log[..p] && next[p] == log[p]; } else { assert next[..p] == log; }
    }
  }

  lemma SafeStep(env: Env, s: State, e: Event)
    requires Safe(env, s)
    requires e.Wrote? ==> e.specs == s.specs && FilledBelow(s, |env.hooks|)
    ensures Safe(env, Record(s, e))
  {
    GuardedStep(|env.hooks|, s.log, e);
  }

  lemma SafeSame(env: Env, s: State, t: State)
    requires Safe(env, s) && Valid(env, t) && t.specs == s.specs && t.log == s.log
    ensures Safe(env, t)
  {}

  lemma SafeFill(env: Env, s: State, i: nat, m: nat)
    requires Safe(env, s) && i < |env.hooks| && m < |s.heap| && s.heap[m].own && FilledBelow(s, i)
    ensures var t := Fill(env, Record(s, Checked(i, true)), i, m); Safe(env, t) && FilledBelow(t, i + 1)
  {
    SafeStep(env, s, Checked(i, true));
    FillStep(env, s, i, m);
    assert (s.log + [Checked(i, true)])[|s.log|] == Checked(i, true);
  }

  lemma SafeMark(env: Env, s: State, i: nat, m: nat)
    requires Safe(env, s) && i < |env.hooks| && m < |s.heap|
    ensures Safe(env, Mark(env, s, i, m)) && Mark(env, s, i, m).specs == s.specs
  {
    MarkStep(env, s, i, m);
    SafeStep(env, s, Marked(i));
    SafeSame(env, Record(s, Marked(i)), Mark(env, s, i, m));
  }

  /** For every hook, running a mutator keeps: a write only after all checks, with all slots. */
  lemma {:induction false} RunSafe(env: Env, s: State, mut: Mutator, m: nat)
    requires Safe(env, s) && Builder(mut) < |env.hooks| && m < |s.heap| && FilledBelow(s, Builder(mut))
    ensures Safe(env, Run(env, s, mut, m).0) && FilledBelow(Run(env, s, mut, m).0, Builder(mut))
    decreases 2 * (|env.hooks| - Builder(mut)), mut, 0, 0
  {
    hide Run, Consult, Deeper, Fill, Mark, Write, Guarded, FilledMeansPassed;
    match mut {
      case Wrapped(h, next) =>
        RunWrapped(env, s, h, next, m);
        ConsultSafe(env, s, h, next, m, []);
      case Base(i) =>
        RunBase(env, s, i, m);
        SafeStep(env, s, Checked(i, false));
        if s.heap[m].own && env.check(s.heap[s.held[i]].contents) {
          var filled := Fill(env, Record(s, Checked(i, true)), i, m);
          SafeFill(env, s, i, m);
          FillStep(env, s, i, m);
          DeeperSafe(env, filled, i);
          SafeMark(env, Deeper(env, filled, i).0, i, m);
        }
    }
  }

  lemma {:induction false} DeeperSafe(env: Env, s: State, i: nat)
    requires Safe(env, s) && i < |env.hooks| && FilledBelow(s, i + 1)
    ensures Safe(env, Deeper(env, s, i).0) && FilledBelow(Deeper(env, s, i).0, i + 1)
    decreases 2 * (|env.hooks| - i) - 1, Base(i), 0, 0
  {
    hide Run, Write, Guarded, FilledMeansPassed;
    if i + 1 < |env.hooks| {
      RunSafe(env, s, Layers(env.hooks[i + 1], i + 1), s.held[i + 1]);
    } else {
      WriteStep(env, s);
      var (t, r) := Write(env, s);
      SafeSame(env, s, s.(ids := t.ids));
      SafeStep(env, s.(ids := t.ids), Wrote(s.specs, r.Done?));
    }
  }

  lemma {:induction false} ConsultSafe(env: Env, s: State, h: Hook, next: Mutator, m: nat, results: seq<Outcome>)
    requires Safe(env, s) && Builder(next) < |env.hooks| && m < |s.heap| && |results| <= h.bound
             && FilledBelow(s, Builder(next))
    ensures Safe(env, Consult(env, s, h, next, m, results).0)
    ensures FilledBelow(Consult(env, s, h, next, m, results).0, Builder(next))
    decreases 2 * (|env.hooks| - Builder(next)), next, 1, h.bound - |results|
  {
    hide Run, Consult, Enter, Guarded, FilledMeansPassed;
    if Calls(s, h, m, results) {
      var (s', m') := Enter(s, m, h.decide(s.heap[m].contents, results));
      ConsultCalls(env, s, h, next, m, results);
      SafeSame(env, s, s');
      RunSafe(env, s', next, m');
      var (t, r) := Run(env, s', next, m');
      ConsultSafe(env, t, h, next, m, results + [r]);
    } else {
      ConsultEnds(env, s, h, next, m, results);
    }
  }

  /** All or nothing, whatever the hooks do: a write is preceded by a passed check of every builder and
      carries a spec for every builder; so a builder that never passes its check prevents every write. */
  lemma NoWriteBeforeAllChecks(env: Env, s: State)
    requires Fresh(env, s)
    ensures Guarded(|env.hooks|, Save(env, s).0.log)
    ensures forall i :: 0 <= i < |env.hooks| && !PassedIn(Save(env, s).0.log, i) ==> Writes(Save(env, s).0.log) == 0
  {
    if |env.hooks| > 0 { RunSafe(env, s, Layers(env.hooks[0], 0), s.held[0]); }
    var log := Save(env, s).0.log;
    forall i | 0 <= i < |env.hooks| && !PassedIn(log, i) ensures Writes(log) == 0 {
      GuardedNoWrites(|env.hooks|, log, log, i);
    }
  }

  lemma {:induction false} GuardedNoWrites(n: nat, log: seq<Event>, prefix: seq<Event>, i: nat)
    requires Guarded(n, log) && i < n && !PassedIn(log, i) && prefix <= log
    ensures Writes(prefix) == 0
  {
    if prefix != [] {
      var p := |prefix| - 1;
      GuardedNoWrites(n, log, prefix[..p], i);
      assert log[p] == prefix[p];
      assert log[p].Wrote? ==> PassedIn(log[..p], i);
      assert PassedIn(log[..p], i) ==> PassedIn(log, i);
    }
  }
}
