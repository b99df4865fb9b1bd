/** `Save` of the bulk builders as the code has it: shared slot arrays, a mutator array filled with
    wrapped closures, and a log of what reached the database. */
module BulkCode {
  import opened Rows
  import opened Columns
  import opened Bulk

  /** Every builder's defaults, in order; an error from them is ignored. */
  function WithDefaults(s: State, defaults: Contents -> Contents, n: nat): (t: State)
    requires n <= |s.held| && forall i :: 0 <= i < |s.held| ==> s.held[i] < |s.heap|
    ensures t.held == s.held && |t.heap| == |s.heap|
    ensures forall k :: 0 <= k < |s.heap| ==> t.heap[k].own == s.heap[k].own && t.heap[k].done == s.heap[k].done
    ensures t.nodes == s.nodes && t.specs == s.specs && t.ids == s.ids && t.log == s.log
  {
    if n == 0 then s
    else
      var t := WithDefaults(s, defaults, n - 1);
      SetContents(t, t.held[n - 1], defaults(t.heap[t.held[n - 1]].contents))
  }

  /** One mutation of its own a builder, all slots empty. */
  function Start(contents: seq<Contents>): State {
    var n := |contents|;
    State(seq(n, i requires 0 <= i < n => Mutation(contents[i], false, true)), seq(n, i => i), seq(n, i => None),
          seq(n, i => None), seq(n, i => None), [])
  }

  /** With a mutation a builder, the first n hold their defaulted contents and the others what they held. */
  lemma {:induction false} DefaultsReach(s: State, defaults: Contents -> Contents, n: nat)
    requires n <= |s.held| && forall i :: 0 <= i < |s.held| ==> s.held[i] < |s.heap|
    requires forall i, j :: 0 <= i < j < |s.held| ==> s.held[i] != s.held[j]
    ensures forall i :: 0 <= i < |s.held| ==>
              WithDefaults(s, defaults, n).heap[s.held[i]].contents
              == if i < n then defaults(s.heap[s.held[i]].contents) else s.heap[s.held[i]].contents
  {
    if n > 0 { DefaultsReach(s, defaults, n - 1); }
  }

  /** From fresh builders, the loop over `defaults` leaves fresh builders with defaulted contents. */
  lemma DefaultedStart(contents: seq<Contents>, defaults: Contents -> Contents)
    ensures WithDefaults(Start(contents), defaults, |contents|)
         == Start(seq(|contents|, i requires 0 <= i < |contents| => defaults(contents[i])))
  {
    var s, n := Start(contents), |contents|;
    var t := Start(seq(n, i requires 0 <= i < n => defaults(contents[i])));
    DefaultsReach(s, defaults, n);
    hide WithDefaults;
    forall i | 0 <= i < n ensures WithDefaults(s, defaults, n).heap[i] == t.heap[i] {
      assert s.held[i] == i;
    }
  }

  class BulkSave {
    const env: Env
    var heap: seq<Mutation>
    const held: array<nat>
    const nodes: array<Option<Node>>
    const specs: array<Option<CreateSpec>>
    const ids: array<Option<int>>
    const mutators: array<Mutator>
    var log: seq<Event>

    ghost predicate Shaped()
      reads this, held, nodes, specs, ids, mutators
    {
      && held.Length == nodes.Length == specs.Length == ids.Length == mutators.Length == |env.hooks|
      && forall i :: 0 <= i < held.Length ==> held[i] < |heap| && heap[held[i]].own
    }

    ghost predicate Built()
      reads this, held, nodes, specs, ids, mutators
    {
      Shaped() && forall i :: 0 <= i < mutators.Length ==> mutators[i] == Layers(env.hooks[i], i)
    }

    ghost function Now(): State
      reads this, held, nodes, specs, ids
    {
      State(heap, held[..], nodes[..], specs[..], ids[..], log)
    }

    /** One builder a hook stack, each with its own mutation; all slots empty. */
    constructor (env: Env, contents: seq<Contents>)
      requires |contents| == |env.hooks|
      ensures this.env == env && Shaped() && Fresh(env, Now())
      ensures fresh(held) && fresh(nodes) && fresh(specs) && fresh(ids) && fresh(mutators)
      ensures Now() == Start(contents)
    {
      var n := |contents|;
      this.env, heap, log := env, Start(contents).heap, [];
      held := new nat[n](i => i);
      nodes := new Option<Node>[n](i => None);
      specs := new Option<CreateSpec>[n](i => None);
      ids := new Option<int>[n](i => None);
      mutators := new Mutator[n](i => Base(i));
    }

    /** The builder takes over the mutation it was passed, and slot i is filled. */
    method FillSlot(i: nat, m: nat)
      requires Built() && i < |env.hooks| && m < |heap| && heap[m].own
      modifies held, nodes, specs, ids
      ensures Built() && Now() == Fill(env, old(Now()), i, m)
    {
      held[i] := m;
      var row := env.spec(heap[m].contents);
      nodes[i], specs[i], ids[i] := Some(Node(row, 0)), Some(row), None;
    }

    /** On the way back: the id, the node's id, the done flag. */
    method MarkDone(i: nat, m: nat)
      requires Built() && i < |env.hooks| && m < |heap|
      modifies this, nodes
      ensures Built() && Now() == Mark(env, old(Now()), i, m)
    {
      var id := ids[i];
      if nodes[i].Some? && id.Some? { nodes[i] := Some(nodes[i].value.(id := id.value)); }
      heap := heap[m := heap[m].(done := true)];
      log := log + [Marked(i)];
    }

    /** The innermost `MutateFunc` of builder i. */
    method MutateBase(i: nat, m: nat) returns (r: Outcome)
      requires Built() && i < |env.hooks| && m < |heap|
      modifies this, held, nodes, specs, ids
      ensures Built() && (Now(), r) == Run(env, old(Now()), Base(i), m)
      decreases |env.hooks| - i, 0, 0, 0
    {
      if !heap[m].own { return Failed("unexpected mutation type"); }
      var ok := env.check(heap[held[i]].contents);
      log := log + [Checked(i, ok)];
      if !ok { return Failed("validation"); }
      FillSlot(i, m);
      if i < mutators.Length - 1 {
        r := Mutate(mutators[i + 1], held[i + 1]);
      } else {
        r := BatchCreate();
      }
      if r.Failed? { return; }
      MarkDone(i, m);
    }

    method BatchCreate() returns (r: Outcome)
      requires Built()
      modifies this`log, ids
      ensures Built() && (Now(), r) == Write(env, old(Now()))
    {
      match env.driver(Writes(log)) {
        case Rejected(reason) =>
          log := log + [Wrote(specs[..], false)];
          r := Failed(reason);
        case Inserted(generated) =>
          forall i | 0 <= i < ids.Length { ids[i] := generated(i); }
          log := log + [Wrote(specs[..], true)];
          r := Done;
          assert ids[..] == Write(env, old(Now())).0.ids;
          assert Now() == old(Now()).(ids := ids[..], log := log);
      }
    }

    /** Calling a mutator: the base function, or the outermost hook around the rest. */
    method Mutate(mut: Mutator, m: nat) returns (r: Outcome)
      requires Built() && Builder(mut) < |env.hooks| && m < |heap|
      modifies this, held, nodes, specs, ids
      ensures Built() && (Now(), r) == Run(env, old(Now()), mut, m)
      decreases |env.hooks| - Builder(mut), 1, mut, 0
    {
      match mut {
        case Base(i) => r := MutateBase(i, m);
        case Wrapped(h, next) => r := CallHook(h, next, m, []);
      }
    }

    method CallHook(h: Hook, next: Mutator, m: nat, results: seq<Outcome>) returns (r: Outcome)
      requires Built() && Builder(next) < |env.hooks| && m < |heap| && |results| <= h.bound
      modifies this, held, nodes, specs, ids
      ensures Built() && (Now(), r) == Consult(env, old(Now()), h, next, m, results)
      decreases |env.hooks| - Builder(next), 1, next, h.bound - |results| + 1
    {
      hide Run, Consult, Enter;
      var move := h.decide(heap[m].contents, results);
      if move.Finish? || |results| == h.bound {
        ConsultEnds(env, Now(), h, next, m, results);
        return if move.Finish? then move.result else Failed("hook");
      }
      ConsultCalls(env, Now(), h, next, m, results);
      var passed := PassOn(m, move);
      r := Mutate(next, passed);
      r := CallHook(h, next, m, results + [r]);
    }

    /** The mutation a hook hands to next, after its edits. */
    method PassOn(m: nat, move: Move) returns (passed: nat)
      requires Built() && m < |heap| && !move.Finish?
      modifies this`heap
      ensures Built() && (Now(), passed) == Enter(old(Now()), m, move)
    {
      match move {
        case Next(edited) =>
          heap := heap[m := heap[m].(contents := edited)];
          passed := m;
        case Swap(other) =>
          passed := |heap|;
          heap := heap + [Mutation(other, false, true)];
        case Stray(other) =>
          passed := |heap|;
          heap := heap + [Mutation(other, false, false)];
        case Borrow(target, edits) =>
          heap := Edit(heap, edits);
          passed := if target < |heap| then target else m;
      }
    }

    /** The hooks around builder i's mutator, last hook first, so that hook 0 ends up outermost. */
    method Wrap(i: nat) returns (mut: Mutator)
      requires i < |env.hooks|
      ensures mut == Layers(env.hooks[i], i)
    {
      mut := Base(i);
      var hooks := env.hooks[i];
      var j := |hooks|;
      while j > 0
        invariant 0 <= j <= |hooks| && mut == Layers(hooks[j..], i)
      {
        j := j - 1;
        assert hooks[j..][0] == hooks[j] && hooks[j..][1..] == hooks[j + 1..];
        mut := Wrapped(hooks[j], mut);
      }
      assert hooks[0..] == hooks;
    }

    /** Builder i's share of the loop: its defaults, and its mutator. */
    method Prepare(i: nat, defaults: Contents -> Contents)
      requires Shaped() && i < |env.hooks|
      modifies this`heap, mutators
      ensures Shaped()
      ensures Now() == SetContents(old(Now()), held[i], defaults(old(heap)[held[i]].contents))
      ensures mutators[i] == Layers(env.hooks[i], i)
      ensures forall k :: 0 <= k < mutators.Length && k != i ==> mutators[k] == old(mutators[k])
    {
      heap := heap[held[i] := heap[held[i]].(contents := defaults(heap[held[i]].contents))];
      mutators[i] := Wrap(i);
    }

    /** `Save`: a pending builder error wins; defaults and wrapping go builder by builder, and then
        the first mutator starts the chain. */
    method SaveAll(pending: Option<string>, defaults: Contents -> Contents) returns (r: Outcome)
      requires Shaped()
      modifies this, held, nodes, specs, ids, mutators
      ensures Shaped()
      ensures pending.Some? ==> r == Failed(pending.value) && Now() == old(Now())
      ensures pending.None? ==>
                (Now(), r) == Save(env, WithDefaults(old(Now()), defaults, |env.hooks|))
    {
      if pending.Some? { return Failed(pending.value); }
      hide Run, Layers;
      ghost var s := Now();
      for i := 0 to mutators.Length
        invariant Shaped() && Now() == WithDefaults(s, defaults, i)
        invariant forall k :: 0 <= k < i ==> mutators[k] == Layers(env.hooks[k], k)
      {
        Prepare(i, defaults);
      }
      if mutators.Length > 0 { r := Mutate(mutators[0], held[0]); } else { r := Done; }
    }
  }
}
