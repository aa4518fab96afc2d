/** Banks over whole runs: any number of invocations, planned at once and published one at a time. */
module AllocationRuns {
  import opened Options
  import opened Allocation
  import opened Operands
  import opened AllocationLaws
  import opened Sequences
  import Order

  /** An invocation with the nonces it drew. */
  datatype Step = Step(inputs: seq<Value>, outputs: seq<Output>, nonces: seq<string>)

  predicate IsStep(s: Step) { |s.nonces| == |s.outputs| + |s.inputs| }

  /**
   * The bank, and what became of grants, each as it is compiled: those consumed, in order, and what each was issued in
   * place of. `latest` are the grants the last published invocation issued, as it left them.
   */
  datatype State = State(bank: Bank, consumed: seq<Value>, origin: map<Value, seq<Value>>, latest: seq<Value>)

  function Recorded(origin: map<Value, seq<Value>>, issued: seq<Value>, inputs: seq<Value>): map<Value, seq<Value>> {
    map c | c in origin.Keys + Order.Elements(CompiledAll(issued)) :: if c in CompiledAll(issued) then inputs
        else origin[c]
  }

  function Apply(base: seq<Row>, s: State, step: Step): State
    requires IsStep(step)
  {
    match Invoke(base, s.bank, step.inputs, step.outputs, step.nonces)
    case Rejected => s
    case Accepted(answer) =>
      var inputs := CompiledAll(step.inputs);
      State(answer.bank, s.consumed + inputs, Recorded(s.origin, answer.issued, inputs), answer.issued)
  }

  predicate AreSteps(steps: seq<Step>) { forall step | step in steps :: IsStep(step) }

  lemma InitSteps(steps: seq<Step>)
    requires AreSteps(steps) && steps != []
    ensures AreSteps(steps[..|steps| - 1]) && IsStep(steps[|steps| - 1])
  {
    assert steps[|steps| - 1] in steps && forall step | step in steps[..|steps| - 1] :: step in steps;
  }

  function Run(base: seq<Row>, s: State, steps: seq<Step>): State
    requires AreSteps(steps)
  {
    if steps == [] then s
    else
      InitSteps(steps);
      Apply(base, Run(base, s, steps[..|steps| - 1]), steps[|steps| - 1])
  }

  // ---------------------------------------------------------------------------
  // Fresh nonces

  /** Nonces drawn at random: all different, and none in a pattern, in the bank, or in a grant issued before. */
  predicate FreshFor(s: State, step: Step) {
    FreshNonces(step.outputs, step.nonces) && forall n | n in step.nonces :: UnusedIn(s, n)
  }

  predicate UnusedIn(s: State, n: string) {
    && (forall e | e in s.bank.entries && ValueOf(e).Some? :: Unused(n, ValueOf(e).value.rows))
    && (forall c | c in s.consumed :: Unused(n, c.rows))
    && (forall c | c in s.origin :: Unused(n, c.rows))
  }

  /** What an accepted step issues. */
  function IssuedBy(s: State, step: Step): (r: seq<Value>)
    requires IsStep(step) && ContractOf(s.bank).Some?
    ensures |r| == |step.outputs|
  {
    IssuedOne(step.outputs, s.bank.tags[0], CompiledAll(step.inputs), step.nonces[..|step.outputs|]);
    Issued(step.outputs, s.bank.tags[0], CompiledAll(step.inputs), step.nonces[..|step.outputs|])
  }

  predicate Accepts(s: State, step: Step) { Passes(s.bank, step.inputs, step.outputs) }

  lemma StepParts(base: seq<Row>, s: State, step: Step)
    requires IsStep(step)
    ensures !Accepts(s, step) ==> Apply(base, s, step) == s
    ensures Accepts(s, step) ==> ContractOf(s.bank).Some? && |IssuedBy(s, step)| == |step.outputs|
    ensures Accepts(s, step) ==>
              var r, inputs := Apply(base, s, step), CompiledAll(step.inputs);
              && r.bank.tags == s.bank.tags && r.latest == IssuedBy(s, step)
              && r.bank.entries == Without(CompiledEntries(s.bank.entries), inputs)
                  + IssuedEntries(step.outputs, IssuedBy(s, step))
              && r.consumed == s.consumed + inputs && r.origin == Recorded(s.origin, IssuedBy(s, step), inputs)
  {
    InvokeAccepts(base, s.bank, step.inputs, step.outputs, step.nonces);
  }

  /** A grant none of the step's nonces are in. */
  predicate Older(step: Step, v: Value) { forall n | n in step.nonces :: Unused(n, v.rows) }

  /** A grant the bank holds, or that was issued or consumed before, is older than the step. */
  lemma KnownIsOlder(s: State, step: Step, v: Value)
    requires FreshFor(s, step) && (Holders(s.bank.entries, v) > 0 || Compiled(v) in s.consumed
            || Compiled(v) in s.origin)
    ensures Older(step, v)
  {
    forall n | n in step.nonces ensures Unused(n, v.rows) {
      CompiledAgain(v);
      SameNonces(v, Compiled(v), n);
      HoldersNone(s.bank.entries, v);
      if Holders(s.bank.entries, v) > 0 {
        var e :| e in s.bank.entries && HoldsOne(e, v);
        SameNonces(ValueOf(e).value, v, n);
      }
    }
  }

  /** What a step issues is none of the older grants. */
  lemma IssuedIsNew(s: State, step: Step, v: Value)
    requires IsStep(step) && FreshFor(s, step) && Accepts(s, step) && Older(step, v)
    ensures Compiled(v) !in CompiledAll(IssuedBy(s, step))
    ensures Holders(IssuedEntries(step.outputs, IssuedBy(s, step)), v) == 0
  {
    FewerNonces(step.outputs, step.nonces);
    HoldersIssued(step.outputs, s.bank.tags[0], CompiledAll(step.inputs), step.nonces[..|step.outputs|], v);
    if Compiled(v) in CompiledAll(IssuedBy(s, step)) { IssuedIsYounger(s, step, v); }
  }

  lemma IssuedIsYounger(s: State, step: Step, v: Value)
    requires IsStep(step) && FreshFor(s, step) && Accepts(s, step) && Compiled(v) in CompiledAll(IssuedBy(s, step))
    ensures !Older(step, v)
  {
    var issued, nonces := IssuedBy(s, step), step.nonces[..|step.outputs|];
    FewerNonces(step.outputs, step.nonces);
    IssuedNonces(step.outputs, s.bank.tags[0], CompiledAll(step.inputs), nonces);
    CompiledAt(issued);
    var i :| 0 <= i < |issued| && CompiledAll(issued)[i] == Compiled(v);
    SameNonces(issued[i], v, nonces[i]);
    assert nonces[i] in step.nonces;
  }

  /** How many rows hold a grant after an accepted step. */
  lemma HoldersApplied(base: seq<Row>, s: State, step: Step, v: Value)
    requires IsStep(step) && FreshFor(s, step) && Accepts(s, step)
    ensures Compiled(v) in CompiledAll(step.inputs) && Older(step, v)
            ==> Holders(Apply(base, s, step).bank.entries, v) == 0
    ensures Compiled(v) !in CompiledAll(step.inputs) && Older(step, v)
            ==> Holders(Apply(base, s, step).bank.entries, v) == Holders(s.bank.entries, v)
    ensures Holders(s.bank.entries, v) <= 1 ==> Holders(Apply(base, s, step).bank.entries, v) <= 1
  {
    InvokeAccepts(base, s.bank, step.inputs, step.outputs, step.nonces);
    HoldersAfter(base, s.bank, step.inputs, step.outputs, step.nonces, v);
    FewerNonces(step.outputs, step.nonces);
    HoldersIssued(step.outputs, s.bank.tags[0], CompiledAll(step.inputs), step.nonces[..|step.outputs|], v);
    if Holders(s.bank.entries, v) > 0 { KnownIsOlder(s, step, v); }
  }

  // ---------------------------------------------------------------------------
  // The invariant

  /** No grant is held by two rows; none is consumed twice, and none of the consumed is held. */
  ghost predicate Linear(s: State) {
    && Order.Distinct(s.consumed) && (forall c | c in s.consumed :: Compiled(c) == c && Holders(s.bank.entries, c) == 0)
    && forall v :: Holders(s.bank.entries, v) <= 1
  }

  /** What an accepted step consumes was held, is older than it, and was not consumed before. */
  lemma ConsumesHeld(s: State, step: Step, c: Value)
    requires IsStep(step) && FreshFor(s, step) && Accepts(s, step) && c in CompiledAll(step.inputs)
    ensures Compiled(c) == c && Holders(s.bank.entries, c) > 0 && Older(step, c)
  {
    CompiledPlain(step.inputs);
    CompiledAt(step.inputs);
    var i :| 0 <= i < |step.inputs| && CompiledAll(step.inputs)[i] == c;
    assert step.inputs[i] in step.inputs;
    PassesHeld(s.bank, step.inputs, step.outputs, step.inputs[i]);
    HoldersAlike(s.bank.entries, step.inputs[i], c);
    KnownIsOlder(s, step, c);
  }

  lemma ConsumedStaysOut(base: seq<Row>, s: State, step: Step, c: Value)
    requires IsStep(step) && FreshFor(s, step) && Linear(s) && Accepts(s, step)
            && c in s.consumed + CompiledAll(step.inputs)
    ensures Compiled(c) == c && Holders(Apply(base, s, step).bank.entries, c) == 0
  {
    if c in CompiledAll(step.inputs) {
      ConsumesHeld(s, step, c);
    } else {
      KnownIsOlder(s, step, c);
    }
    HoldersApplied(base, s, step, c);
  }

  /** Every step keeps grants linear. */
  lemma StepIsLinear(base: seq<Row>, s: State, step: Step)
    requires IsStep(step) && FreshFor(s, step) && Linear(s)
    ensures Linear(Apply(base, s, step))
  {
    StepParts(base, s, step);
    if Accepts(s, step) {
      var r, inputs := Apply(base, s, step), CompiledAll(step.inputs);
      forall c | c in inputs ensures c !in s.consumed { ConsumesHeld(s, step, c); }
      Order.DistinctJoined(s.consumed, inputs);
      forall c | c in r.consumed ensures Compiled(c) == c && Holders(r.bank.entries, c) == 0 {
        ConsumedStaysOut(base, s, step, c);
      }
      forall v ensures Holders(r.bank.entries, v) <= 1 { HoldersApplied(base, s, step, v); }
    }
  }

  // ---------------------------------------------------------------------------
  // Runs

  /** Each step draws nonces not seen before it. */
  predicate FreshRun(base: seq<Row>, s: State, steps: seq<Step>)
    requires AreSteps(steps)
  {
    steps == [] || (InitSteps(steps); FreshRun(base, s, steps[..|steps| - 1])
        && FreshFor(Run(base, s, steps[..|steps| - 1]), steps[|steps| - 1]))
  }

  /**
   * In every run each grant is consumed at most once, and once consumed the bank never holds it again, in whatever
   * form, so no later invocation may name it.
   */
  lemma {:induction false} UsedOnce(base: seq<Row>, s: State, steps: seq<Step>)
    requires AreSteps(steps) && FreshRun(base, s, steps) && Linear(s)
    ensures Linear(Run(base, s, steps))
    ensures forall v, inputs, outputs | Compiled(v) in Run(base, s, steps).consumed && v in inputs ::
            !Passes(Run(base, s, steps).bank, inputs, outputs)
  {
    if steps != [] {
      InitSteps(steps);
      UsedOnce(base, s, steps[..|steps| - 1]);
      StepIsLinear(base, Run(base, s, steps[..|steps| - 1]), steps[|steps| - 1]);
    }
    var r := Run(base, s, steps);
    forall v, inputs, outputs | Compiled(v) in r.consumed && v in inputs ensures !Passes(r.bank, inputs, outputs) {
      CompiledAgain(v);
      HoldersAlike(r.bank.entries, v, Compiled(v));
      UnheldFails(r.bank, inputs, outputs, v);
    }
  }

  // ---------------------------------------------------------------------------
  // Conservation

  /** What a step without inputs credits, or debits, of a resource; nothing when it is refused. */
  function Credit(s: State, step: Step, shape: Shape): real {
    if Accepts(s, step) && step.inputs == [] && Moved([], step.outputs) == shape then SumOut(step.outputs) else 0.0
  }

  function Credits(base: seq<Row>, s: State, steps: seq<Step>, shape: Shape): real
    requires AreSteps(steps)
  {
    if steps == [] then 0.0
    else
      InitSteps(steps);
      Credits(base, s, steps[..|steps| - 1], shape)
          + Credit(Run(base, s, steps[..|steps| - 1]), steps[|steps| - 1], shape)
  }

  /** How many transfers went through. */
  function Transfers(base: seq<Row>, s: State, steps: seq<Step>): nat
    requires AreSteps(steps)
  {
    if steps == [] then 0
    else
      InitSteps(steps);
      Transfers(base, s, steps[..|steps| - 1]) + Transfer(Run(base, s, steps[..|steps| - 1]), steps[|steps| - 1])
  }

  function Total(s: State, shape: Shape): real
    requires ContractOf(s.bank).Some?
  {
    TotalOf(s.bank.entries, s.bank.tags[0], shape)
  }

  /** By how much a step changes the bank's total beyond its credit. */
  function StepOff(base: seq<Row>, s: State, step: Step, shape: Shape): real
    requires IsStep(step) && ContractOf(s.bank).Some? && Apply(base, s, step).bank.tags == s.bank.tags
  {
    Total(Apply(base, s, step), shape) - Total(s, shape) - Credit(s, step, shape)
  }

  function Transfer(s: State, step: Step): nat { if step.inputs != [] && Accepts(s, step) then 1 else 0 }

  lemma LinearIsOnce(s: State, step: Step)
    requires IsStep(step) && Linear(s) && Accepts(s, step)
    ensures HeldOnce(s.bank.entries, step.inputs)
  {
    forall v | v in step.inputs ensures Holders(s.bank.entries, v) == 1 {
      PassesHeld(s.bank, step.inputs, step.outputs, v);
    }
  }

  lemma StepConserves(base: seq<Row>, s: State, step: Step, shape: Shape)
    requires IsStep(step) && Linear(s) && ContractOf(s.bank).Some? && AllConform(step.outputs)
    ensures Apply(base, s, step).bank.tags == s.bank.tags
    ensures Abs(StepOff(base, s, step, shape)) <= TOLERANCE * Transfer(s, step) as real
  {
    StepParts(base, s, step);
    if Accepts(s, step) {
      LinearIsOnce(s, step);
      InvokeAccepts(base, s.bank, step.inputs, step.outputs, step.nonces);
      AllocateConserves(base, s.bank, step.inputs, step.outputs, step.nonces, shape);
      if step.inputs != [] { TransferConserves(base, s.bank, step.inputs, step.outputs, step.nonces, shape); }
    }
  }

  /** By how much a run changes the bank's total beyond its credits and debits. */
  function Off(base: seq<Row>, s: State, steps: seq<Step>, shape: Shape): real
    requires AreSteps(steps) && ContractOf(s.bank).Some? && Run(base, s, steps).bank.tags == s.bank.tags
  {
    Total(Run(base, s, steps), shape) - Total(s, shape) - Credits(base, s, steps, shape)
  }

  lemma OffNext(base: seq<Row>, s: State, steps: seq<Step>, shape: Shape)
    requires AreSteps(steps) && steps != [] && AreSteps(steps[..|steps| - 1]) && IsStep(steps[|steps| - 1])
            && ContractOf(s.bank).Some?
    requires Run(base, s, steps[..|steps| - 1]).bank.tags == s.bank.tags
    requires Apply(base, Run(base, s, steps[..|steps| - 1]), steps[|steps| - 1]).bank.tags == s.bank.tags
    ensures Run(base, s, steps).bank.tags == s.bank.tags
    ensures Off(base, s, steps, shape) == Off(base, s, steps[..|steps| - 1], shape)
            + StepOff(base, Run(base, s, steps[..|steps| - 1]), steps[|steps| - 1], shape)
    ensures Transfers(base, s, steps) == Transfers(base, s, steps[..|steps| - 1])
            + Transfer(Run(base, s, steps[..|steps| - 1]), steps[|steps| - 1])
  {}

  lemma Tolerances(x: real, n: nat, y: real, k: nat, z: real, m: nat)
    requires Abs(x) <= TOLERANCE * n as real && Abs(y) <= TOLERANCE * k as real && z == x + y && m == n + k
    ensures Abs(z) <= TOLERANCE * m as real
  {}

  /**
   * Over any run, what the bank holds of each resource and unit is what it held, plus credits, less debits, to within
   * the tolerance for each transfer.
   */
  lemma {:induction false} RunConserves(base: seq<Row>, s: State, steps: seq<Step>, shape: Shape)
    requires AreSteps(steps) && FreshRun(base, s, steps) && Linear(s) && ContractOf(s.bank).Some?
    requires forall step | step in steps :: AllConform(step.outputs)
    ensures Run(base, s, steps).bank.tags == s.bank.tags
    ensures Abs(Off(base, s, steps, shape)) <= TOLERANCE * Transfers(base, s, steps) as real
  {
    if steps != [] {
      InitSteps(steps);
      var init, last := steps[..|steps| - 1], steps[|steps| - 1];
      assert last in steps && forall step | step in init :: step in steps;
      RunConserves(base, s, init, shape);
      UsedOnce(base, s, init);
      StepConserves(base, Run(base, s, init), last, shape);
      OffNext(base, s, steps, shape);
      Tolerances(Off(base, s, init, shape), Transfers(base, s, init), StepOff(base, Run(base, s, init), last, shape),
          Transfer(Run(base, s, init), last),
        Off(base, s, steps, shape), Transfers(base, s, steps));
    }
  }

  // ---------------------------------------------------------------------------
  // Many invocations at once

  /** An invocation planned over a bank state, its answers submitted and not yet published. */
  datatype Submission = Submission(seen: Bank, step: Step)
  datatype World = World(state: State, open: seq<Submission>)
  datatype Action = Plan(step: Step) | Publish(index: nat) | Abandon(index: nat)

  function Removed<T>(s: seq<T>, i: nat): seq<T>
    requires i < |s|
  {
    s[..i] + s[i + 1..]
  }

  /** Publication goes through only while the bank is still the one the submission was planned over. */
  predicate Publishes(w: World, a: Action) { a.Publish? && a.index < |w.open| && w.open[a.index].seen == w.state.bank }

  predicate IsWorld(w: World) { forall o | o in w.open :: IsStep(o.step) }

  function Act(base: seq<Row>, w: World, a: Action): (r: World)
    requires IsWorld(w)
    ensures IsWorld(r)
  {
    match a
    case Plan(step) =>
      if IsStep(step) && Invoke(base, w.state.bank, step.inputs, step.outputs, step.nonces).Accepted?
      then w.(open := w.open + [Submission(w.state.bank, step)]) else w
    case Publish(i) =>
      if i >= |w.open| then w
      else
        assert w.open[i] in w.open;
        World(if Publishes(w, a) then Apply(base, w.state, w.open[i].step) else w.state, Removed(w.open, i))
    case Abandon(i) => if i >= |w.open| then w else w.(open := Removed(w.open, i))
  }

  function Acts(base: seq<Row>, w: World, actions: seq<Action>): (r: World)
    requires IsWorld(w)
    ensures IsWorld(r)
  {
    if actions == [] then w else Act(base, Acts(base, w, actions[..|actions| - 1]), actions[|actions| - 1])
  }

  /** The step a publication puts through, none when it does not. */
  function Passed(w: World, a: Action): (r: seq<Step>)
    requires IsWorld(w)
    ensures AreSteps(r)
  {
    if Publishes(w, a) then
      assert w.open[a.index] in w.open;
      [w.open[a.index].step]
    else []
  }

  /** The invocations published, in order. */
  function Published(base: seq<Row>, w: World, actions: seq<Action>): (r: seq<Step>)
    requires IsWorld(w)
    ensures AreSteps(r)
  {
    if actions == [] then []
    else
        Published(base, w, actions[..|actions| - 1])
        + Passed(Acts(base, w, actions[..|actions| - 1]), actions[|actions| - 1])
  }

  lemma PassesOn(base: seq<Row>, s: State, steps: seq<Step>, w: World, a: Action)
    requires IsWorld(w) && AreSteps(steps) && w.state == Run(base, s, steps)
    ensures AreSteps(steps + Passed(w, a)) && Act(base, w, a).state == Run(base, s, steps + Passed(w, a))
  {
    if Publishes(w, a) {
      assert w.open[a.index] in w.open;
      RunOneMore(base, s, steps, w.open[a.index].step);
    } else {
      Whole(steps);
    }
  }

  lemma RunOneMore(base: seq<Row>, s: State, steps: seq<Step>, step: Step)
    requires AreSteps(steps) && IsStep(step)
    ensures AreSteps(steps + [step]) && Run(base, s, steps + [step]) == Apply(base, Run(base, s, steps), step)
  {
    assert (steps + [step])[..|steps|] == steps;
  }

  /**
   * However invocations are planned at once, published or abandoned, the bank is always what running the published ones
   * one after another makes it: what holds of every run of invocations holds there too.
   */
  lemma {:induction false} PublishedSerially(base: seq<Row>, w: World, actions: seq<Action>)
    requires IsWorld(w)
    ensures Acts(base, w, actions).state == Run(base, w.state, Published(base, w, actions))
  {
    if actions != [] {
      var init := actions[..|actions| - 1];
      PublishedSerially(base, w, init);
      PassesOn(base, w.state, Published(base, w, init), Acts(base, w, init), actions[|actions| - 1]);
    }
  }

  /** Of two submissions planned over the same bank, only one can be published. */
  lemma OneOfTwo(base: seq<Row>, w: World, i: nat, k: nat)
    requires IsWorld(w) && i < |w.open| && k < |w.open| && i != k
    requires w.open[i].seen == w.open[k].seen == w.state.bank && Accepts(w.state, w.open[i].step)
            && FreshFor(w.state, w.open[i].step)
    ensures Act(base, w, Publish(i)).state.bank != w.open[k].seen
  {
    var step := w.open[i].step;
    assert w.open[i] in w.open;
    StepParts(base, w.state, step);
    var issued := IssuedBy(w.state, step);
    var more, nonces := IssuedEntries(step.outputs, issued), step.nonces[..|step.outputs|];
    IssuedEntriesAt(step.outputs, issued);
    FewerNonces(step.outputs, step.nonces);
    IssuedNonces(step.outputs, w.state.bank.tags[0], CompiledAll(step.inputs), nonces);
    var entry, nonce, grant := more[0], nonces[0], issued[0];
    assert entry in more && entry in Act(base, w, Publish(i)).state.bank.entries && nonce in step.nonces
        && entry.right == Direct(grant);
    assert entry in w.state.bank.entries ==> Unused(nonce, grant.rows);
  }
}
