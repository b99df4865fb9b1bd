/** Bulk create under hooks with memory: each may decide from everything that has happened, edit any mutation at any
    time, before it calls next, between its calls and after them, and create mutations as it likes. It can call
    only its own next. */
module BulkWild {
  import opened Rows
  import opened Columns
  import opened Bulk

  datatype Act = Return(result: Outcome) | Call(target: nat)

  /** What a hook does when it is its turn: edit mutations, create some, and then return or call next. */
  datatype Choice = Choice(edits: map<nat, Contents>, news: seq<Mutation>, act: Act)

  /** A hook's turn. `left` is different at every turn of a save, so a choice by turns is a choice with memory. */
  datatype Turn = Turn(left: nat, builder: nat, depth: nat, state: State, mutation: nat, results: seq<Outcome>)

  type Play = Turn -> Choice

  /** The objects after a hook's edits; what it creates is not done yet. */
  function Touch(s: State, choice: Choice): (t: State)
    ensures |s.heap| <= |t.heap| && t == s.(heap := t.heap)
    ensures forall k :: 0 <= k < |s.heap| ==> t.heap[k].own == s.heap[k].own && t.heap[k].done == s.heap[k].done
  {
    s.(heap := Edit(s.heap, choice.edits) + MapSeq((m: Mutation) => m.(done := false), choice.news))
  }

  function Target(t: State, m: nat, act: Act): nat
    requires m < |t.heap| && act.Call?
  {
    if act.target < |t.heap| then act.target else m
  }

  // ---------------------------------------------------------------- the chain, turn by turn

  /** Builder i's mutator from its k-th hook on, with turns left; a run that would take more is cut off. */
  function Wild(env: Env, play: Play, s: State, i: nat, k: nat, m: nat, left: nat): (r: (State, Outcome, nat))
    requires Valid(env, s) && i < |env.hooks| && k <= |env.hooks[i]| && m < |s.heap|
    ensures Valid(env, r.0) && |s.heap| <= |r.0.heap| && r.2 <= left
    decreases left, |env.hooks| - i, |env.hooks[i]| - k, 1
  {
    if k < |env.hooks[i]| then Turns(env, play, s, i, k, m, [], left)
    else if !s.heap[m].own then (s, Failed("unexpected mutation type"), left)
    else if !env.check(s.heap[s.held[i]].contents) then (Record(s, Checked(i, false)), Failed("validation"), left)
    else
      var (t, r, rest) := Below(env, play, Fill(env, Record(s, Checked(i, true)), i, m), i, left);
      var (u, x) := Up(env, (t, r), i, m);
      (u, x, rest)
  }

  /** From the filled slot i on: the next mutator, or the write. */
  function Below(env: Env, play: Play, s: State, i: nat, left: nat): (r: (State, Outcome, nat))
    requires Valid(env, s) && i < |env.hooks|
    ensures Valid(env, r.0) && |s.heap| <= |r.0.heap| && r.2 <= left
    decreases left, |env.hooks| - i, 0, 0
  {
    if i + 1 < |env.hooks| then Wild(env, play, s, i + 1, 0, s.held[i + 1], left)
    else var (t, r) := Write(env, s); (t, r, left)
  }

  /** Turn after turn of builder i's k-th hook. */
  function Turns(env: Env, play: Play, s: State, i: nat, k: nat, m: nat, results: seq<Outcome>, left: nat)
    : (r: (State, Outcome, nat))
    requires Valid(env, s) && i < |env.hooks| && k < |env.hooks[i]| && m < |s.heap|
    ensures Valid(env, r.0) && |s.heap| <= |r.0.heap| && r.2 <= left
    decreases left, |env.hooks| - i, |env.hooks[i]| - k, 0
  {
    if left == 0 then (s, Failed("cut off"), 0)
    else
      var choice := play(Turn(left, i, k, s, m, results));
      var t := Touch(s, choice);
      if choice.act.Return? then (t, choice.act.result, left - 1)
      else
        var (u, r, rest) := Wild(env, play, t, i, k + 1, Target(t, m, choice.act), left - 1);
        Turns(env, play, u, i, k, m, results + [r], rest)
  }

  function WildSave(env: Env, play: Play, s: State, left: nat): (State, Outcome)
    requires Valid(env, s)
  {
    if |env.hooks| == 0 then (s, Done)
    else var (t, r, _) := Wild(env, play, s, 0, 0, s.held[0], left); (t, r)
  }

  // ---------------------------------------------------------------- no write before all checks

  lemma WildBase(env: Env, play: Play, s: State, i: nat, m: nat, left: nat)
    requires Valid(env, s) && i < |env.hooks| && m < |s.heap|
    ensures var r := Wild(env, play, s, i, |env.hooks[i]|, m, left);
            if !s.heap[m].own then r == (s, Failed("unexpected mutation type"), left)
            else if !env.check(s.heap[s.held[i]].contents)
            then r == (Record(s, Checked(i, false)), Failed("validation"), left)
            else
              var b := Below(env, play, Fill(env, Record(s, Checked(i, true)), i, m), i, left);
              (r.0, r.1) == Up(env, (b.0, b.1), i, m) && r.2 == b.2
  {}

  lemma {:induction false} WildSafe(env: Env, play: Play, s: State, i: nat, k: nat, m: nat, left: nat)
    requires Safe(env, s) && i < |env.hooks| && k <= |env.hooks[i]| && m < |s.heap| && FilledBelow(s, i)
    ensures var t := Wild(env, play, s, i, k, m, left).0; Safe(env, t) && FilledBelow(t, i)
    decreases left, |env.hooks| - i, |env.hooks[i]| - k, 1
  {
    hide Wild, Turns, Below, Fill, Mark, Write, Guarded, FilledMeansPassed;
    if k < |env.hooks[i]| {
      TurnsSafe(env, play, s, i, k, m, [], left);
      WildTurns(env, play, s, i, k, m, left);
    } else {
      WildBase(env, play, s, i, m, left);
      SafeStep(env, s, Checked(i, false));
      if s.heap[m].own && env.check(s.heap[s.held[i]].contents) {
        var filled := Fill(env, Record(s, Checked(i, true)), i, m);
        SafeFill(env, s, i, m);
        FillStep(env, s, i, m);
        BelowSafe(env, play, filled, i, left);
        SafeMark(env, Below(env, play, filled, i, left).0, i, m);
      }
    }
  }

  lemma WildTurns(env: Env, play: Play, s: State, i: nat, k: nat, m: nat, left: nat)
    requires Valid(env, s) && i < |env.hooks| && k < |env.hooks[i]| && m < |s.heap|
    ensures Wild(env, play, s, i, k, m, left) == Turns(env, play, s, i, k, m, [], left)
  {}

  lemma {:induction false} BelowSafe(env: Env, play: Play, s: State, i: nat, left: nat)
    requires Safe(env, s) && i < |env.hooks| && FilledBelow(s, i + 1)
    ensures var t := Below(env, play, s, i, left).0; Safe(env, t) && FilledBelow(t, i + 1)
    decreases left, |env.hooks| - i, 0, 0
  {
    hide Wild, Write, Guarded, FilledMeansPassed;
    if i + 1 < |env.hooks| {
      WildSafe(env, play, s, i + 1, 0, s.held[i + 1], left);
    } else {
      WriteStep(env, s);
      var (t, r) := Write(env, s);
      SafeSame(env, s, s.(ids := t.ids));
      SafeStep(env, s.(ids := t.ids), Wrote(s.specs, r.Done?));
    }
  }

  lemma {:induction false} TurnsSafe(env: Env, play: Play, s: State, i: nat, k: nat, m: nat, results: seq<Outcome>,
                                     left: nat)
    requires Safe(env, s) && i < |env.hooks| && k < |env.hooks[i]| && m < |s.heap| && FilledBelow(s, i)
    ensures var t := Turns(env, play, s, i, k, m, results, left).0; Safe(env, t) && FilledBelow(t, i)
    decreases left, |env.hooks| - i, |env.hooks[i]| - k, 0
  {
    hide Wild, Touch, Guarded, FilledMeansPassed;
    if left > 0 {
      var choice := play(Turn(left, i, k, s, m, results));
      var t := Touch(s, choice);
      SafeSame(env, s, t);
      if choice.act.Call? {
        WildSafe(env, play, t, i, k + 1, Target(t, m, choice.act), left - 1);
        var (u, r, rest) := Wild(env, play, t, i, k + 1, Target(t, m, choice.act), left - 1);
        TurnsSafe(env, play, u, i, k, m, results + [r], rest);
      }
    }
  }

  /** For every play of the hooks, and at every point of a save: a batch write comes only after a passed check of
      every builder and carries a spec for every builder. */
  lemma NoWriteBeforeAllChecks(env: Env, play: Play, s: State, left: nat)
    requires Fresh(env, s)
    ensures Guarded(|env.hooks|, WildSave(env, play, s, left).0.log)
    ensures var log := WildSave(env, play, s, left).0.log;
            forall i :: 0 <= i < |env.hooks| && !PassedIn(log, i) ==> Writes(log) == 0
  {
    if |env.hooks| > 0 { WildSafe(env, play, s, 0, 0, s.held[0], left); }
    var log := WildSave(env, play, s, left).0.log;
    forall i | 0 <= i < |env.hooks| && !PassedIn(log, i) ensures Writes(log) == 0 {
      GuardedNoWrites(|env.hooks|, log, log, i);
    }
  }

  // ---------------------------------------------------------------- the hooks of the chain play so

  /** The choice a move stands for. */
  function ChoiceOf(s: State, m: nat, move: Move): Choice
    requires m < |s.heap|
  {
    match move
    case Finish(result) => Choice(map[], [], Return(result))
    case Next(edited) => Choice(map[m := edited], [], Call(m))
    case Swap(other) => Choice(map[], [Mutation(other, false, true)], Call(|s.heap|))
    case Stray(other) => Choice(map[], [Mutation(other, false, false)], Call(|s.heap|))
    case Borrow(target, edits) => Choice(edits, [], Call(if target < |s.heap| then target else m))
  }

  /** The hooks of the environment, played without memory. */
  function Playing(env: Env): Play {
    (turn: Turn) =>
      if turn.builder < |env.hooks| && turn.depth < |env.hooks[turn.builder]| && turn.mutation < |turn.state.heap|
      then
        var h := env.hooks[turn.builder][turn.depth];
        var move := h.decide(turn.state.heap[turn.mutation].contents, turn.results);
        if |turn.results| >= h.bound && !move.Finish? then Choice(map[], [], Return(Failed("hook")))
        else ChoiceOf(turn.state, turn.mutation, move)
      else Choice(map[], [], Return(Done))
  }

  lemma TouchEnters(s: State, m: nat, move: Move)
    requires m < |s.heap|
    ensures var choice := ChoiceOf(s, m, move);
            var (t, x) := Enter(s, m, move);
            Touch(s, choice) == t && (!move.Finish? ==> choice.act.Call? && Target(t, m, choice.act) == x)
  {
    var choice := ChoiceOf(s, m, move);
    var (t, _) := Enter(s, m, move);
    assert Touch(s, choice).heap == t.heap;
  }

  /** With n turns or more, builder i's mutator from its k-th hook on takes n and does what the chain does. */
  lemma {:induction false} RunIsPlayed(env: Env, s: State, i: nat, k: nat, m: nat) returns (n: nat)
    requires Valid(env, s) && i < |env.hooks| && k <= |env.hooks[i]| && m < |s.heap|
    ensures var (t, r) := Run(env, s, Layers(env.hooks[i][k..], i), m);
            forall left :: left >= n ==> Wild(env, Playing(env), s, i, k, m, left) == (t, r, left - n)
    decreases 2 * (|env.hooks| - i), Layers(env.hooks[i][k..], i), 0, 0
  {
    hide Run, Consult, Deeper, Wild, Turns, Below, Fill, Up, Playing;
    if k < |env.hooks[i]| {
      LayersAt(env, i, k);
      RunWrapped(env, s, env.hooks[i][k], Layers(env.hooks[i][k + 1..], i), m);
      n := ConsultIsPlayed(env, s, i, k, m, []);
      forall left: nat | left >= n { WildTurns(env, Playing(env), s, i, k, m, left); }
    } else {
      assert env.hooks[i][k..] == [];
      RunBase(env, s, i, m);
      n := 0;
      if s.heap[m].own && env.check(s.heap[s.held[i]].contents) {
        FillStep(env, s, i, m);
        n := DeeperIsPlayed(env, Fill(env, Record(s, Checked(i, true)), i, m), i);
      }
      forall left: nat | left >= n { WildBase(env, Playing(env), s, i, m, left); }
    }
  }

  lemma LayersAt(env: Env, i: nat, k: nat)
    requires i < |env.hooks| && k < |env.hooks[i]|
    ensures Layers(env.hooks[i][k..], i) == Wrapped(env.hooks[i][k], Layers(env.hooks[i][k + 1..], i))
  {
    assert env.hooks[i][k..][0] == env.hooks[i][k] && env.hooks[i][k..][1..] == env.hooks[i][k + 1..];
  }

  lemma {:induction false} DeeperIsPlayed(env: Env, s: State, i: nat) returns (n: nat)
    requires Valid(env, s) && i < |env.hooks|
    ensures var (t, r) := Deeper(env, s, i);
            forall left :: left >= n ==> Below(env, Playing(env), s, i, left) == (t, r, left - n)
    decreases 2 * (|env.hooks| - i) - 1, Base(i), 0, 0
  {
    hide Run, Wild, Write, Playing;
    if i + 1 < |env.hooks| {
      assert env.hooks[i + 1][0..] == env.hooks[i + 1];
      n := RunIsPlayed(env, s, i + 1, 0, s.held[i + 1]);
    } else {
      n := 0;
    }
  }

  /** The next turn, by the hook's own decision. */
  lemma TurnStep(env: Env, s: State, i: nat, k: nat, m: nat, results: seq<Outcome>, left: nat)
    requires Valid(env, s) && i < |env.hooks| && k < |env.hooks[i]| && m < |s.heap| && left > 0
    requires |results| <= env.hooks[i][k].bound
    ensures var h, play := env.hooks[i][k], Playing(env);
            var move := h.decide(s.heap[m].contents, results);
            var r := Turns(env, play, s, i, k, m, results, left);
            if Calls(s, h, m, results) then
              var (t, x) := Enter(s, m, move);
              && Entered(env, s, t, x)
              && var (u, y, rest) := Wild(env, play, t, i, k + 1, x, left - 1);
                 r == Turns(env, play, u, i, k, m, results + [y], rest)
            else r == (s, if move.Finish? then move.result else Failed("hook"), left - 1)
  {
    hide Wild;
    var move := env.hooks[i][k].decide(s.heap[m].contents, results);
    TouchEnters(s, m, move);
    TouchNothing(s);
  }

  lemma TouchNothing(s: State)
    ensures forall act :: Touch(s, Choice(map[], [], act)) == s
  {
    forall act ensures Touch(s, Choice(map[], [], act)) == s { assert Touch(s, Choice(map[], [], act)).heap == s.heap; }
  }

  lemma {:induction false} ConsultIsPlayed(env: Env, s: State, i: nat, k: nat, m: nat, results: seq<Outcome>)
    returns (n: nat)
    requires Valid(env, s) && i < |env.hooks| && k < |env.hooks[i]| && m < |s.heap|
    requires |results| <= env.hooks[i][k].bound
    ensures var (t, r) := Consult(env, s, env.hooks[i][k], Layers(env.hooks[i][k + 1..], i), m, results);
            forall left :: left >= n ==> Turns(env, Playing(env), s, i, k, m, results, left) == (t, r, left - n)
    decreases 2 * (|env.hooks| - i), Layers(env.hooks[i][k + 1..], i), 1, env.hooks[i][k].bound - |results|
  {
    hide Run, Consult, Wild, Turns, Playing, Enter;
    var h, next := env.hooks[i][k], Layers(env.hooks[i][k + 1..], i);
    if Calls(s, h, m, results) {
      ConsultCalls(env, s, h, next, m, results);
      var (t, x) := Enter(s, m, h.decide(s.heap[m].contents, results));
      var inner := RunIsPlayed(env, t, i, k + 1, x);
      var (u, y) := Run(env, t, next, x);
      var outer := ConsultIsPlayed(env, u, i, k, m, results + [y]);
      n := 1 + inner + outer;
      forall left: nat | left >= n { TurnStep(env, s, i, k, m, results, left); }
    } else {
      ConsultEnds(env, s, h, next, m, results);
      n := 1;
      forall left: nat | left >= n { TurnStep(env, s, i, k, m, results, left); }
    }
  }

  /** Every save of the chain is such a play. */
  lemma SaveIsPlayed(env: Env, s: State) returns (n: nat)
    requires Valid(env, s)
    ensures forall left :: left >= n ==> WildSave(env, Playing(env), s, left) == Save(env, s)
  {
    n := 0;
    if |env.hooks| > 0 {
      assert env.hooks[0][0..] == env.hooks[0];
      n := RunIsPlayed(env, s, 0, 0, s.held[0]);
    }
  }
}
