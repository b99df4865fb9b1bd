/** Why the conditions on hooks are exact: any hook can be led through any results it can reach. */
module BulkSteer {
  import opened Rows
  import opened Columns
  import opened Bulk
  import opened BulkHooks
  import opened BulkTruth

  // ---------------------------------------------------------------- the company of the hook

  /** The contents of a mutation that counts. */
  function Count(k: int): Contents { Contents(map[], map[Id := k]) }

  function CountOf(f: Contents): int { if Id in f.keys then f.keys[Id] else 0 }

  /** The last result, once there is one. */
  function Return(results: seq<Outcome>, otherwise: Move): Move {
    if results != [] then Finish(results[|results| - 1]) else otherwise
  }

  /** Passes on mutation `own`, whatever it was given. */
  function Lend(own: nat): Hook {
    Hook(1, (f: Contents, results: seq<Outcome>) => Return(results, Borrow(own, map[])))
  }

  /** Steers another builder's hook: at its k-th call, counted in its own mutation `own`, it sets mutation 0 to
      the next contents of the script; it returns what comes back. */
  function Steer(own: nat, script: seq<Contents>): Hook {
    Hook(1, (f: Contents, results: seq<Outcome>) =>
      Return(results, Borrow(own, Advance(own, script, f, CountOf(f) + 1))))
  }

  /** Mutation 0 gets the script's k-th contents, and the counter counts k. */
  function Advance(own: nat, script: seq<Contents>, f: Contents, k: int): map<nat, Contents> {
    map[0 := if 0 <= k < |script| then script[k] else f, own := Count(k)]
  }

  lemma SteerMoves(own: nat, script: seq<Contents>, f: Contents)
    ensures Steer(own, script).decide(f, []) == Borrow(own, Advance(own, script, f, CountOf(f) + 1))
    ensures forall r :: Steer(own, script).decide(f, [r]) == Finish(r)
  {
    var call := Borrow(own, Advance(own, script, f, CountOf(f) + 1));
    assert Steer(own, script).decide(f, []) == Return([], call);
    forall r ensures Steer(own, script).decide(f, [r]) == Return([r], call) {}
  }

  /** The k-th write succeeds or fails like the k-th result. */
  function Answering(results: seq<Outcome>, k: nat): Written {
    if k < |results| && results[k].Failed? then Rejected(results[k].reason) else Inserted(i => None)
  }

  /** The hook under test on the first builder, outside a hook that lends; the second builder steers. Every
      check passes. */
  function Led(h: Hook, own: nat, script: seq<Contents>, results: seq<Outcome>): Env {
    Env([[h, Lend(own)], [Steer(own, script)]], (f: Contents) => true, (f: Contents) => CreateSpec([], []),
        (k: nat) => Answering(results, k))
  }

  // ---------------------------------------------------------------- one call of next

  /** Before the hook decides for the k-th time: mutation 0 holds the script's k-th contents, the second
      builder's own mutation counts k, and k writes were answered. */
  ghost predicate OnScript(env: Env, s: State, own: nat, script: seq<Contents>, results: seq<Outcome>, k: nat) {
    && Valid(env, s) && |env.hooks| == 2 && 0 < own < |s.heap| && k < |script| && k <= |results|
    && s.held[1] == own && s.heap[0].contents == script[k] && s.heap[own].contents == Count(k)
    && Writes(s.log) == k && (Landed(s.log) <==> Done in results[..k])
  }

  /** Same objects with the same contents, held alike. */
  ghost predicate SameContents(s: State, t: State) {
    && |t.heap| == |s.heap| && t.held == s.held
    && forall k :: 0 <= k < |s.heap| ==> t.heap[k].contents == s.heap[k].contents
  }

  /** On the way up: a mark changes no contents and writes nothing. */
  lemma UpKeeps(env: Env, s: State, r: Outcome, i: nat, m: nat)
    requires Valid(env, s) && i < |env.hooks| && m < |s.heap|
    ensures var (t, x) := Up(env, (s, r), i, m);
            && x == r && Valid(env, t) && SameContents(s, t)
            && Writes(t.log) == Writes(s.log) && (Landed(t.log) <==> Landed(s.log))
  {
    hide Mark, Writes, Landed;
    MarkStep(env, s, i, m);
    WritesSnoc(s.log, Marked(i));
    LandedStep(s.log, Marked(i));
  }

  /** On the way down: a passed check and a filled slot write nothing. */
  lemma FillKeeps(env: Env, s: State, i: nat, m: nat)
    requires Valid(env, s) && i < |env.hooks| && m < |s.heap| && s.heap[m].own
    ensures var t := Fill(env, Record(s, Checked(i, true)), i, m);
            && Valid(env, t) && t.heap == s.heap && t.held == s.held[i := m]
            && Writes(t.log) == Writes(s.log) && (Landed(t.log) <==> Landed(s.log))
  {
    hide Fill, Writes, Landed;
    FillStep(env, s, i, m);
    WritesSnoc(s.log, Checked(i, true));
    LandedStep(s.log, Checked(i, true));
  }

  /** The environment behind the hook under test. */
  ghost predicate Steady(env: Env, own: nat, script: seq<Contents>, results: seq<Outcome>) {
    && |env.hooks| == 2 && env.hooks[1] == [Steer(own, script)] && (forall f :: env.check(f))
    && (forall k: nat :: env.driver(k) == Answering(results, k))
  }

  lemma AnsweredWrite(env: Env, own: nat, script: seq<Contents>, results: seq<Outcome>, s: State)
    requires Steady(env, own, script, results) && Writes(s.log) < |results|
    ensures var (t, r) := Write(env, s);
            && r == results[Writes(s.log)] && t.heap == s.heap && t.held == s.held
            && Writes(t.log) == Writes(s.log) + 1 && (Landed(t.log) <==> Landed(s.log) || r == Done)
  {
    var (t, r) := Write(env, s);
    hide Writes, Landed;
    WritesSnoc(s.log, Wrote(s.specs, r.Done?));
    LandedStep(s.log, Wrote(s.specs, r.Done?));
  }

  /** The second builder's innermost mutator: one write, answered as the script says. */
  lemma AnsweredBase(env: Env, own: nat, script: seq<Contents>, results: seq<Outcome>, s: State)
    requires Steady(env, own, script, results) && Valid(env, s) && Writes(s.log) < |results|
    ensures var (t, r) := Run(env, s, Base(1), s.held[1]);
            && r == results[Writes(s.log)] && SameContents(s, t)
            && Writes(t.log) == Writes(s.log) + 1 && (Landed(t.log) <==> Landed(s.log) || r == Done)
  {
    var m := s.held[1];
    hide Run, Fill, Writes, Landed, Up, Write, Steer, Answering;
    RunBase(env, s, 1, m);
    FillKeeps(env, s, 1, m);
    var filled := Fill(env, Record(s, Checked(1, true)), 1, m);
    AnsweredWrite(env, own, script, results, filled);
    WriteStep(env, filled);
    hide Steady;
    var (t, r) := Write(env, filled);
    UpKeeps(env, t, r, 1, m);
  }

  lemma SteerEnter(env: Env, own: nat, script: seq<Contents>, s: State, k: nat)
    requires Valid(env, s) && 0 < own < |s.heap| && s.heap[own].contents == Count(k) && k + 1 < |script|
    ensures Calls(s, Steer(own, script), own, [])
    ensures var (t, m) := Enter(s, own, Steer(own, script).decide(s.heap[own].contents, []));
            && m == own && Entered(env, s, t, m)
            && t.heap[0].contents == script[k + 1] && t.heap[own].contents == Count(k + 1)
  {
    SteerMoves(own, script, s.heap[own].contents);
    assert Steer(own, script).bound == 1;
    hide Steer;
  }

  /** Before the k-th answer: as on script, whatever mutation 0 holds. */
  ghost predicate Counting(env: Env, s: State, own: nat, script: seq<Contents>, results: seq<Outcome>, k: nat) {
    && Valid(env, s) && |env.hooks| == 2 && 0 < own < |s.heap| && k < |results| && |script| == |results| + 1
    && s.held[1] == own && s.heap[own].contents == Count(k)
    && Writes(s.log) == k && (Landed(s.log) <==> Done in results[..k])
  }

  /** The second builder's turn: the script advances. */
  lemma SteerRun(env: Env, own: nat, script: seq<Contents>, results: seq<Outcome>, s: State, k: nat)
    requires Steady(env, own, script, results) && Counting(env, s, own, script, results, k)
    ensures var (t, r) := Run(env, s, Wrapped(Steer(own, script), Base(1)), own);
            r == results[k] && OnScript(env, t, own, script, results, k + 1)
  {
    var steer := Steer(own, script);
    SteerEnter(env, own, script, s, k);
    assert results[..k + 1] == results[..k] + [results[k]];
    hide Run, Consult, Landed, Writes, Steer, Steady, Enter, Advance, Count;
    RunWrapped(env, s, steer, Base(1), own);
    ConsultCalls(env, s, steer, Base(1), own, []);
    var (s', m') := Enter(s, own, steer.decide(s.heap[own].contents, []));
    AnsweredBase(env, own, script, results, s');
    var (t, r) := Run(env, s', Base(1), m');
    SteerMoves(own, script, t.heap[own].contents);
    assert [] + [r] == [r];
    ConsultEnds(env, t, steer, Base(1), own, [r]);
  }

  /** The first builder's innermost mutator on the lent mutation. */
  lemma LentBase(env: Env, own: nat, script: seq<Contents>, results: seq<Outcome>, s: State, k: nat)
    requires Steady(env, own, script, results) && Counting(env, s, own, script, results, k)
    ensures var (t, r) := Run(env, s, Base(0), own);
            r == results[k] && OnScript(env, t, own, script, results, k + 1)
  {
    assert Layers(env.hooks[1], 1) == Wrapped(Steer(own, script), Base(1)) by {
      assert [Steer(own, script)][1..] == [];
    }
    hide Run, Consult, Fill, Landed, Writes, Steer, Layers, Up, Answering, Count;
    RunBase(env, s, 0, own);
    FillKeeps(env, s, 0, own);
    var filled := Fill(env, Record(s, Checked(0, true)), 0, own);
    SteerRun(env, own, script, results, filled, k);
    var (t, r) := Deeper(env, filled, 0);
    UpKeeps(env, t, r, 0, own);
  }

  /** What the hook itself does to the objects before it calls next leaves the second builder's alone. */
  ghost predicate Spares(move: Move, own: nat) { move.Borrow? ==> own !in move.edits }

  lemma EnterSpares(env: Env, s: State, own: nat, move: Move)
    requires Valid(env, s) && 0 < own < |s.heap| && Spares(move, own)
    ensures var (s', m') := Enter(s, 0, move); Entered(env, s, s', m') && s'.heap[own] == s.heap[own]
  {}

  lemma ScriptStep(env: Env, own: nat, script: seq<Contents>, results: seq<Outcome>, s: State, k: nat, move: Move)
    requires Steady(env, own, script, results) && OnScript(env, s, own, script, results, k) && Spares(move, own)
    requires k < |results| && |script| == |results| + 1
    ensures var (s', m') := Enter(s, 0, move);
            && Entered(env, s, s', m')
            && var (t, r) := Run(env, s', Wrapped(Lend(own), Base(0)), m');
               r == results[k] && OnScript(env, t, own, script, results, k + 1)
  {
    var lend := Lend(own);
    EnterSpares(env, s, own, move);
    var (s', m') := Enter(s, 0, move);
    LentEnter(s', own, m');
    hide Run, Consult, Landed, Writes, Steady, Enter, Spares, Count;
    RunWrapped(env, s', lend, Base(0), m');
    ConsultCalls(env, s', lend, Base(0), m', []);
    LentBase(env, own, script, results, s', k);
    var (t, r) := Run(env, s', Base(0), own);
    assert [] + [r] == [r];
    ConsultEnds(env, t, lend, Base(0), m', [r]);
  }

  lemma LentEnter(s: State, own: nat, m: nat)
    requires own < |s.heap| && m < |s.heap|
    ensures Enter(s, m, Lend(own).decide(s.heap[m].contents, [])) == (s, own)
  {
    assert Edit(s.heap, map[]) == s.heap;
  }

  // ---------------------------------------------------------------- the whole run

  /** The hook is led through these results to a point where it returns. */
  ghost predicate Leads(h: Hook, own: nat, script: seq<Contents>, results: seq<Outcome>) {
    && |script| == |results| + 1 && |results| <= h.bound
    && (forall k :: 0 <= k < |results| ==>
          !h.decide(script[k], results[..k]).Finish? && Spares(h.decide(script[k], results[..k]), own))
    && Answer(h, script[|results|], results).Some?
  }

  lemma {:induction false} LedAlong(h: Hook, own: nat, script: seq<Contents>, results: seq<Outcome>, s: State, k: nat)
    requires Leads(h, own, script, results) && k <= |results|
    requires OnScript(Led(h, own, script, results), s, own, script, results, k)
    ensures var (t, r) :=
              Consult(Led(h, own, script, results), s, h, Wrapped(Lend(own), Base(0)), 0, results[..k]);
            Answer(h, script[|results|], results) == Some(r) && (Landed(t.log) <==> Done in results)
    decreases |results| - k
  {
    var env, next := Led(h, own, script, results), Wrapped(Lend(own), Base(0));
    assert Steady(env, own, script, results);
    hide Consult, Run, Landed, Led, Writes, Spares, Lend, Steady, Count;
    if k < |results| {
      var move := h.decide(script[k], results[..k]);
      ConsultCalls(env, s, h, next, 0, results[..k]);
      ScriptStep(env, own, script, results, s, k, move);
      var (s', m') := Enter(s, 0, move);
      var (t, r) := Run(env, s', next, m');
      assert results[..k] + [r] == results[..k + 1];
      LedAlong(h, own, script, results, t, k + 1);
    } else {
      assert results[..k] == results;
      ConsultEnds(env, s, h, next, 0, results);
    }
  }

  /** Two builders: mutation 0 for the first, mutation `own` for the second. */
  function TwoBuilders(own: nat, f: Contents): State
    requires own > 0
  {
    State(seq(own + 1, i => Mutation(if i == 0 then f else Count(0), false, true)), [0, own],
          [None, None], [None, None], [None, None], [])
  }

  lemma LedSave(h: Hook, own: nat, script: seq<Contents>, results: seq<Outcome>)
    requires Leads(h, own, script, results) && own > 0
    ensures var env, s := Led(h, own, script, results), TwoBuilders(own, script[0]);
            && Fresh(env, s) && Answer(h, script[|results|], results) == Some(Save(env, s).1)
            && (Landed(Save(env, s).0.log) <==> Done in results)
  {
    var env, s := Led(h, own, script, results), TwoBuilders(own, script[0]);
    assert Layers(env.hooks[0], 0) == Wrapped(h, Wrapped(Lend(own), Base(0))) by {
      assert [h, Lend(own)][1..] == [Lend(own)] && [Lend(own)][1..] == [];
      assert Layers([Lend(own)], 0) == Wrapped(Lend(own), Layers([], 0));
    }
    hide Run, Consult, Leads, Steer, Lend, Layers;
    RunWrapped(env, s, h, Wrapped(Lend(own), Base(0)), 0);
    assert results[..0] == [];
    LedAlong(h, own, script, results, s, 0);
  }

  // ---------------------------------------------------------------- a script for any results

  ghost predicate AllSpare(moves: seq<Move>, own: nat) { forall k :: 0 <= k < |moves| ==> Spares(moves[k], own) }

  /** Some object index beyond every edit of these moves. */
  lemma {:induction false} BeyondEdits(moves: seq<Move>) returns (own: nat)
    ensures own > 0 && forall above :: above >= own ==> AllSpare(moves, above)
  {
    own := 1;
    if moves != [] {
      var last := moves[|moves| - 1];
      var before := BeyondEdits(moves[..|moves| - 1]);
      own := before;
      if last.Borrow? {
        var top := BeyondKeys(last.edits.Keys);
        own := if top > before then top else before;
      }
      forall above | above >= own ensures AllSpare(moves, above) {
        assert AllSpare(moves[..|moves| - 1], above);
        assert forall k :: 0 <= k < |moves| - 1 ==> moves[k] == moves[..|moves| - 1][k];
      }
    }
  }

  lemma {:induction false} BeyondKeys(keys: set<nat>) returns (top: nat)
    ensures forall k :: k in keys ==> k < top
  {
    top := 0;
    if keys != {} {
      var k :| k in keys;
      var rest := BeyondKeys(keys - {k});
      top := if rest > k then rest else k + 1;
      assert forall x :: x in keys ==> x == k || x in keys - {k};
    }
  }

  /** Contents on which the hook calls next after each of the results, and f at the end. */
  lemma {:induction false} ScriptFor(h: Hook, results: seq<Outcome>, n: nat, f: Contents)
    returns (script: seq<Contents>)
    requires n <= |results| && forall k :: 0 <= k < n ==> MayCall(h, results[..k])
    ensures |script| == n + 1 && script[n] == f
    ensures forall k :: 0 <= k < n ==> !h.decide(script[k], results[..k]).Finish?
  {
    if n == 0 {
      script := [f];
    } else {
      var g :| !h.decide(g, results[..n - 1]).Finish?;
      var before := ScriptFor(h, results, n - 1, g);
      script := before + [f];
    }
  }

  /** Every result a hook can reach is reached in some save beside two hooks that return what they are told: it
      ends with what the hook returns then, and a write was accepted if and only if one of the results is a
      success. */
  lemma Reachable(h: Hook, f: Contents, results: seq<Outcome>) returns (env: Env, s: State)
    requires Reached(h, results) && Answer(h, f, results).Some?
    ensures Fresh(env, s) && |env.hooks| == 2 && TellingBut(env, h)
    ensures Save(env, s).1 == Answer(h, f, results).value
    ensures Landed(Save(env, s).0.log) <==> Done in results
  {
    hide Save, Landed, Led, TellingBut;
    var script := ScriptFor(h, results, |results|, f);
    var moves := seq(|results|, k requires 0 <= k < |results| => h.decide(script[k], results[..k]));
    var own := BeyondEdits(moves);
    assert AllSpare(moves, own);
    forall k | 0 <= k < |results| ensures Spares(h.decide(script[k], results[..k]), own) {
      assert Spares(moves[k], own);
    }
    LedSave(h, own, script, results);
    env, s := Led(h, own, script, results), TwoBuilders(own, script[0]);
    LedCompany(h, own, script, results);
  }

  /** Every other hook reports exactly what it sees. */
  ghost predicate TellingBut(env: Env, h: Hook) {
    forall i, k :: 0 <= i < |env.hooks| && 0 <= k < |env.hooks[i]| ==>
                     env.hooks[i][k] == h || (Truthful(env.hooks[i][k]) && Loyal(env.hooks[i][k]))
  }

  lemma LedCompany(h: Hook, own: nat, script: seq<Contents>, results: seq<Outcome>)
    ensures var env := Led(h, own, script, results); |env.hooks| == 2 && TellingBut(env, h)
  {
    Reports(Lend(own));
    forall f { SteerMoves(own, script, f); }
    Reports(Steer(own, script));
    var env := Led(h, own, script, results);
    hide Truthful, Loyal, Lend, Steer;
    forall i, k | 0 <= i < |env.hooks| && 0 <= k < |env.hooks[i]|
      ensures env.hooks[i][k] == h || (Truthful(env.hooks[i][k]) && Loyal(env.hooks[i][k]))
    {}
  }

  /** A hook that calls next once and returns what comes back is truthful and loyal. */
  lemma Reports(h: Hook)
    requires h.bound == 1 && forall f, r :: h.decide(f, [r]) == Finish(r)
    requires forall f :: !h.decide(f, []).Finish?
    ensures Truthful(h) && Loyal(h)
  {
    forall f, results | Reached(h, results) && Answer(h, f, results).Some?
      ensures results != [] && Answer(h, f, results).value == results[|results| - 1] && |results| == 1
    {
      if results != [] { assert results == [results[0]]; }
    }
    assert forall f, results :: h.decide(f, results) == Finish(Done) ==> Answer(h, f, results) == Some(Done);
  }

  // ---------------------------------------------------------------- the exact conditions

  /** Never claiming an unseen success is exactly what a hook needs for success to mean that something was
      written, whatever the check, the driver and the truthful hooks beside it. */
  lemma TruthIsExact(h: Hook)
    ensures Truthful(h)
            <==> forall env, s :: Fresh(env, s) && |env.hooks| > 0 && TruthfulBut(env, h) && Save(env, s).1 == Done ==>
                   Landed(Save(env, s).0.log)
  {
    hide Save, Landed, Reached;
    if Truthful(h) {
      forall env, s | Fresh(env, s) && |env.hooks| > 0 && TruthfulBut(env, h) && Save(env, s).1 == Done
        ensures Landed(Save(env, s).0.log)
      {
        SuccessMeansLanded(env, s);
      }
    } else {
      var f, results :| Reached(h, results) && h.decide(f, results) == Finish(Done) && Done !in results;
      var env, s := Reachable(h, f, results);
    }
  }

  /** Never reporting failure after a success it has seen is exactly what a hook needs for failure to mean that
      no write was accepted. */
  lemma LoyaltyIsExact(h: Hook)
    ensures Loyal(h)
            <==> forall env, s :: Fresh(env, s) && LoyalBut(env, h) && Save(env, s).1.Failed? ==>
                   !Landed(Save(env, s).0.log)
  {
    hide Save, Landed, Reached;
    if Loyal(h) {
      forall env, s | Fresh(env, s) && LoyalBut(env, h) && Save(env, s).1.Failed?
        ensures !Landed(Save(env, s).0.log)
      {
        FailureMeansNotLanded(env, s);
      }
    } else {
      var f, results :| Reached(h, results) && Answer(h, f, results).Some? && Answer(h, f, results).value.Failed?
                        && Done in results;
      var env, s := Reachable(h, f, results);
    }
  }

  ghost predicate TruthfulBut(env: Env, h: Hook) {
    forall i, k :: 0 <= i < |env.hooks| && 0 <= k < |env.hooks[i]| ==> env.hooks[i][k] == h || Truthful(env.hooks[i][k])
  }

  ghost predicate LoyalBut(env: Env, h: Hook) {
    forall i, k :: 0 <= i < |env.hooks| && 0 <= k < |env.hooks[i]| ==> env.hooks[i][k] == h || Loyal(env.hooks[i][k])
  }
}
