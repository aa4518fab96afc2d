/**
 * Where grants came from: what a run records of it, what the grants themselves still say, and which handles still
 * answer.
 */
module Lineage {
  import opened Options
  import opened Allocation
  import opened Operands
  import opened AllocationLaws
  import opened AllocationRuns
  import opened Sequences
  import Order

  // ---------------------------------------------------------------------------
  // Where grants came from

  /** The grants a grant says it came from. */
  function Parents(v: Value): set<Value> { set r | r in v.rows && r.Previous? :: r.grant }

  lemma PreviousRows(pattern: seq<Row>, contract: string, held: Held, nonce: string, lineage: seq<Value>, title: string,
      g: Value)
    ensures Previous(g) in GrantValue(pattern, contract, held, nonce, lineage, title).rows <==> g in lineage
  {
    CarriedReads(pattern, contract);
    LineageRows(lineage);
    var heading := if title == "" then [] else [Label(title)];
    assert Previous(g) !in Carried(pattern, contract) && Previous(g) !in HeldRows(held)
        && Previous(g) !in [Nonce(nonce), Pin(contract)] && Previous(g) !in heading;
    assert Previous(g) in Lineage(lineage) <==> g in lineage;
  }

  lemma GrantParents(pattern: seq<Row>, contract: string, held: Held, nonce: string, lineage: seq<Value>, title: string)
    ensures Parents(GrantValue(pattern, contract, held, nonce, lineage, title)) == Order.Elements(lineage)
  {
    var v := GrantValue(pattern, contract, held, nonce, lineage, title);
    forall g ensures g in Parents(v) <==> g in lineage {
      PreviousRows(pattern, contract, held, nonce, lineage, title, g);
      assert g in Parents(v) <==> Previous(g) in v.rows;
    }
  }

  lemma NoParents(v: Value)
    ensures Parents(v) == {} <==> Compiled(v) == v
  {
    CompiledAgain(v);
    if r :| r in v.rows && r.Previous? { assert r.grant in Parents(v); }
  }

  /** The bank's rows hold exactly this value. */
  predicate Keeps(es: seq<Entry>, v: Value) { exists e | e in es :: IsAllocation(e) && ValueOf(e) == Some(v) }

  lemma KeepsHolds(es: seq<Entry>, v: Value)
    requires Keeps(es, v)
    ensures Holders(es, v) > 0
  {
    HoldersNone(es, v);
  }

  /**
   * After an accepted step the bank keeps what the step issued, and of older grants the compiled ones it did not
   * consume.
   */
  lemma KeptAfter(base: seq<Row>, s: State, step: Step, v: Value)
    requires IsStep(step) && FreshFor(s, step) && Accepts(s, step) && Keeps(Apply(base, s, step).bank.entries, v)
    ensures v in IssuedBy(s, step) || (Compiled(v) == v && v !in CompiledAll(step.inputs)
            && Holders(s.bank.entries, v) > 0)
  {
    StepParts(base, s, step);
    var e :| e in Apply(base, s, step).bank.entries && IsAllocation(e) && ValueOf(e) == Some(v);
    if e in IssuedEntries(step.outputs, IssuedBy(s, step)) {
      IssuedEntryOf(step.outputs, IssuedBy(s, step), e);
    } else {
      KeptOlder(s.bank.entries, CompiledAll(step.inputs), e, v);
    }
  }

  lemma IssuedEntryOf(outputs: seq<Output>, issued: seq<Value>, e: Entry)
    requires |issued| == |outputs| && e in IssuedEntries(outputs, issued)
    ensures e.right.Direct? && e.right.value in issued
  {
    IssuedEntriesAt(outputs, issued);
    var more := IssuedEntries(outputs, issued);
    var i :| 0 <= i < |more| && more[i] == e;
  }

  lemma KeptOlder(es: seq<Entry>, consumed: seq<Value>, e: Entry, v: Value)
    requires Resolves(es) && e in Without(CompiledEntries(es), consumed) && IsAllocation(e) && ValueOf(e) == Some(v)
    ensures Compiled(v) == v && v !in consumed && Holders(es, v) > 0
  {
    WithoutIn(CompiledEntries(es), consumed);
    CompiledIsFlat(es);
    HoldersNone(CompiledEntries(es), v);
    HoldersCompiled(es, v);
  }

  /** The other way round: a compiled grant an accepted step does not consume is kept as it is. */
  lemma StaysKept(base: seq<Row>, s: State, step: Step, v: Value)
    requires IsStep(step) && Accepts(s, step) && Compiled(v) == v && v !in CompiledAll(step.inputs)
            && Holders(s.bank.entries, v) > 0
    ensures Keeps(Apply(base, s, step).bank.entries, v)
  {
    StepParts(base, s, step);
    var compiled := CompiledEntries(s.bank.entries);
    HoldersCompiled(s.bank.entries, v);
    HoldersNone(compiled, v);
    CompiledIsFlat(s.bank.entries);
    var e :| e in compiled && HoldsOne(e, v);
    WithoutIn(compiled, CompiledAll(step.inputs));
    assert e in Without(compiled, CompiledAll(step.inputs));
    assert e in Apply(base, s, step).bank.entries;
  }

  /** The issued grants name what was consumed for them, as it was compiled. */
  lemma IssuedParents(s: State, step: Step, v: Value)
    requires IsStep(step) && Accepts(s, step) && v in IssuedBy(s, step)
    ensures Parents(v) == Order.Elements(CompiledAll(step.inputs))
    ensures Compiled(v) in CompiledAll(IssuedBy(s, step))
  {
    var nonces := step.nonces[..|step.outputs|];
    IssuedOne(step.outputs, s.bank.tags[0], CompiledAll(step.inputs), nonces);
    var i :| 0 <= i < |IssuedBy(s, step)| && IssuedBy(s, step)[i] == v;
    var o := step.outputs[i];
    GrantParents(o.pattern, s.bank.tags[0], DeclaredOf(o), nonces[i], CompiledAll(step.inputs), o.title);
    CompiledIn(IssuedBy(s, step), v);
  }

  // ---------------------------------------------------------------------------
  // Lineage

  /**
   * Every grant held or consumed was issued; what it was issued in place of was consumed; and a held grant says so as
   * long as no other invocation has been published, and says nothing from then on.
   */
  ghost predicate Traced(s: State) {
    && (forall v | Holders(s.bank.entries, v) > 0 || Compiled(v) in s.consumed :: Compiled(v) in s.origin)
    && (forall c, p | c in s.origin && p in s.origin[c] :: p in s.consumed)
    && (forall v | Keeps(s.bank.entries, v) ::
        Compiled(v) in s.origin
        && Parents(v) == if v in s.latest then Order.Elements(s.origin[Compiled(v)]) else {})
  }

  lemma RecordedAt(origin: map<Value, seq<Value>>, issued: seq<Value>, inputs: seq<Value>, c: Value)
    ensures c in Recorded(origin, issued, inputs) <==> c in origin || c in CompiledAll(issued)
    ensures c in CompiledAll(issued) ==> Recorded(origin, issued, inputs)[c] == inputs
    ensures c !in CompiledAll(issued) && c in origin ==> Recorded(origin, issued, inputs)[c] == origin[c]
  {}

  lemma StepOrigin(base: seq<Row>, s: State, step: Step, v: Value)
    requires IsStep(step) && FreshFor(s, step) && Linear(s) && Traced(s) && Accepts(s, step)
    requires Holders(Apply(base, s, step).bank.entries, v) > 0 || Compiled(v) in Apply(base, s, step).consumed
    ensures Compiled(v) in Apply(base, s, step).origin
  {
    StepParts(base, s, step);
    RecordedAt(s.origin, IssuedBy(s, step), CompiledAll(step.inputs), Compiled(v));
    CompiledAgain(v);
    if Compiled(v) in CompiledAll(step.inputs) {
      ConsumesHeld(s, step, Compiled(v));
      HoldersAlike(s.bank.entries, v, Compiled(v));
    } else if Compiled(v) !in s.consumed {
      HoldersNone(Apply(base, s, step).bank.entries, v);
      var e :| e in Apply(base, s, step).bank.entries && HoldsOne(e, v);
      var w := ValueOf(e).value;
      KeptAfter(base, s, step, w);
      if w in IssuedBy(s, step) { CompiledIn(IssuedBy(s, step), w); } else { HoldersAlike(s.bank.entries, v, w); }
    }
  }

  lemma StepParents(base: seq<Row>, s: State, step: Step, v: Value)
    requires IsStep(step) && FreshFor(s, step) && Linear(s) && Traced(s) && Accepts(s, step)
            && Keeps(Apply(base, s, step).bank.entries, v)
    ensures var r := Apply(base, s, step);
            Compiled(v) in r.origin && Parents(v) == if v in r.latest then Order.Elements(r.origin[Compiled(v)]) else {}
  {
    StepParts(base, s, step);
    KeptAfter(base, s, step, v);
    RecordedAt(s.origin, IssuedBy(s, step), CompiledAll(step.inputs), Compiled(v));
    if v in IssuedBy(s, step) {
      IssuedParents(s, step, v);
    } else {
      NoParents(v);
      KnownIsOlder(s, step, v);
      IssuedIsNew(s, step, v);
    }
  }

  lemma StepConsumed(base: seq<Row>, s: State, step: Step, c: Value, p: Value)
    requires IsStep(step) && Traced(s) && Accepts(s, step) && c in Apply(base, s, step).origin
            && p in Apply(base, s, step).origin[c]
    ensures p in Apply(base, s, step).consumed
  {
    StepParts(base, s, step);
    RecordedAt(s.origin, IssuedBy(s, step), CompiledAll(step.inputs), c);
  }

  lemma StepTraced(base: seq<Row>, s: State, step: Step)
    requires IsStep(step) && FreshFor(s, step) && Linear(s) && Traced(s)
    ensures Traced(Apply(base, s, step))
  {
    StepParts(base, s, step);
    if Accepts(s, step) {
      var r := Apply(base, s, step);
      forall v | Holders(r.bank.entries, v) > 0 || Compiled(v) in r.consumed ensures Compiled(v) in r.origin {
        StepOrigin(base, s, step, v);
      }
      forall c, p | c in r.origin && p in r.origin[c] ensures p in r.consumed { StepConsumed(base, s, step, c, p); }
      forall v | Keeps(r.bank.entries, v)
        ensures Compiled(v) in r.origin && Parents(v) == if v in r.latest then Order.Elements(r.origin[Compiled(v)])
                else {}
      {
        StepParents(base, s, step, v);
      }
    }
  }

  lemma {:induction false} RunTraced(base: seq<Row>, s: State, steps: seq<Step>)
    requires AreSteps(steps) && FreshRun(base, s, steps) && Linear(s) && Traced(s)
    ensures Traced(Run(base, s, steps)) && Linear(Run(base, s, steps))
  {
    UsedOnce(base, s, steps);
    if steps != [] {
      InitSteps(steps);
      RunTraced(base, s, steps[..|steps| - 1]);
      StepTraced(base, Run(base, s, steps[..|steps| - 1]), steps[|steps| - 1]);
    }
  }

  /** Issues before issues: each grant from the next, all but the first consumed, the last issued without inputs. */
  ghost predicate IsDescent(s: State, path: seq<Value>) {
    && path != [] && (forall c | c in path :: c in s.origin)
    && (forall i | 0 < i < |path| :: InPlaceOf(s, path[i - 1], path[i]))
    && s.origin[path[|path| - 1]] == []
  }

  /** `c` was issued in place of `p`, among others, and `p` was consumed. */
  predicate InPlaceOf(s: State, c: Value, p: Value) { c in s.origin && p in s.origin[c] && p in s.consumed }

  ghost predicate DescentOf(s: State, c: Value, path: seq<Value>) { IsDescent(s, path) && path[0] == c }

  ghost predicate Descends(s: State, c: Value) { exists path :: DescentOf(s, c, path) }

  lemma DescentStays(s: State, r: State, path: seq<Value>)
    requires IsDescent(s, path) && (forall c | c in s.consumed :: c in r.consumed)
    requires forall c | c in s.origin :: c in r.origin && r.origin[c] == s.origin[c]
    ensures IsDescent(r, path)
  {
    assert path[|path| - 1] in path;
    forall i | 0 < i < |path| ensures InPlaceOf(r, path[i - 1], path[i]) { assert InPlaceOf(s, path[i - 1], path[i]); }
  }

  lemma DescentGrows(s: State, c: Value, path: seq<Value>)
    requires IsDescent(s, path) && InPlaceOf(s, c, path[0])
    ensures IsDescent(s, [c] + path)
  {
    var whole := [c] + path;
    assert whole[|whole| - 1] == path[|path| - 1];
    forall i | 0 < i < |whole| ensures InPlaceOf(s, whole[i - 1], whole[i]) {
      assert whole[i] == path[i - 1];
      if i > 1 { assert whole[i - 1] == path[i - 2]; }
    }
  }

  /** What was issued before a step stays recorded as it was. */
  lemma OriginStays(base: seq<Row>, s: State, step: Step, c: Value)
    requires IsStep(step) && FreshFor(s, step) && Accepts(s, step) && c in s.origin && Compiled(c) == c
    ensures c in Apply(base, s, step).origin && Apply(base, s, step).origin[c] == s.origin[c]
  {
    StepParts(base, s, step);
    KnownIsOlder(s, step, c);
    IssuedIsNew(s, step, c);
    RecordedAt(s.origin, IssuedBy(s, step), CompiledAll(step.inputs), c);
  }

  /** Everything issued is recorded as it is compiled, and leads back. */
  ghost predicate AllDescend(s: State) { forall c | c in s.origin :: Compiled(c) == c && Descends(s, c) }

  lemma NewDescends(base: seq<Row>, s: State, step: Step, c: Value)
    requires IsStep(step) && FreshFor(s, step) && Linear(s) && Traced(s) && AllDescend(s) && Accepts(s, step)
    requires c in CompiledAll(IssuedBy(s, step))
    ensures Compiled(c) == c && Descends(Apply(base, s, step), c)
  {
    StepParts(base, s, step);
    CompiledPlain(IssuedBy(s, step));
    var r, inputs := Apply(base, s, step), CompiledAll(step.inputs);
    RecordedAt(s.origin, IssuedBy(s, step), inputs, c);
    if inputs == [] {
      assert DescentOf(r, c, [c]);
    } else {
      ConsumesHeld(s, step, inputs[0]);
      OldDescends(base, s, step, inputs[0]);
      DescentThrough(r, c, inputs[0]);
    }
  }

  lemma DescentThrough(s: State, c: Value, p: Value)
    requires Descends(s, p) && InPlaceOf(s, c, p)
    ensures Descends(s, c)
  {
    var path :| DescentOf(s, p, path);
    DescentGrows(s, c, path);
    assert DescentOf(s, c, [c] + path);
  }

  lemma OldDescends(base: seq<Row>, s: State, step: Step, c: Value)
    requires IsStep(step) && FreshFor(s, step) && AllDescend(s) && Accepts(s, step) && c in s.origin
    ensures Descends(Apply(base, s, step), c)
  {
    StepParts(base, s, step);
    var path :| DescentOf(s, c, path);
    forall c | c in s.origin ensures c in Apply(base, s, step).origin && Apply(base, s, step).origin[c] == s.origin[c] {
      OriginStays(base, s, step, c);
    }
    DescentStays(s, Apply(base, s, step), path);
    assert DescentOf(Apply(base, s, step), c, path);
  }

  lemma {:induction false} RunDescends(base: seq<Row>, s: State, steps: seq<Step>)
    requires AreSteps(steps) && FreshRun(base, s, steps) && Linear(s) && Traced(s) && AllDescend(s)
    ensures AllDescend(Run(base, s, steps))
  {
    if steps != [] {
      InitSteps(steps);
      var init, step := Run(base, s, steps[..|steps| - 1]), steps[|steps| - 1];
      RunTraced(base, s, steps[..|steps| - 1]);
      RunDescends(base, s, steps[..|steps| - 1]);
      StepParts(base, init, step);
      if Accepts(init, step) {
        forall c | c in Apply(base, init, step).origin
            ensures Compiled(c) == c && Descends(Apply(base, init, step), c) {
          RecordedAt(init.origin, IssuedBy(init, step), CompiledAll(step.inputs), c);
          if c in init.origin { OldDescends(base, init, step, c); } else { NewDescends(base, init, step, c); }
        }
      }
    }
  }

  /** A bank nothing was issued to yet. */
  function New(contract: string): (s: State)
    ensures Linear(s) && Traced(s) && AllDescend(s) && forall n :: UnusedIn(s, n)
  {
    State(Bank([contract], []), [], map[], [])
  }

  /**
   * In every run of a new bank, each grant it holds was issued in place of consumed ones, and these in turn, back to
   * one issued without inputs.
   */
  lemma OriginLeadsBack(base: seq<Row>, contract: string, steps: seq<Step>, v: Value) returns (path: seq<Value>)
    requires AreSteps(steps) && FreshRun(base, New(contract), steps)
            && Holders(Run(base, New(contract), steps).bank.entries, v) > 0
    ensures DescentOf(Run(base, New(contract), steps), Compiled(v), path)
  {
    RunTraced(base, New(contract), steps);
    RunDescends(base, New(contract), steps);
    assert Descends(Run(base, New(contract), steps), Compiled(v));
    path :| DescentOf(Run(base, New(contract), steps), Compiled(v), path);
  }

  /** The same as grants themselves say it: each names the next among what it came from. */
  ghost predicate IsLineage(s: State, path: seq<Value>) {
    && path != [] && (forall i | 0 < i < |path| :: path[i] in Parents(path[i - 1]))
    && Minted(s, path[|path| - 1])
  }

  ghost predicate LineageOf(s: State, v: Value, path: seq<Value>) { IsLineage(s, path) && path[0] == v }

  ghost predicate LeadsBack(s: State, v: Value) { exists path :: LineageOf(s, v, path) }

  /** Issued without inputs. */
  predicate Minted(s: State, v: Value) { Compiled(v) in s.origin && s.origin[Compiled(v)] == [] }

  lemma LineageIsShort(s: State, v: Value, path: seq<Value>)
    requires Linear(s) && Traced(s) && Keeps(s.bank.entries, v) && LineageOf(s, v, path)
    ensures |path| == 1 || (|path| == 2 && v in s.latest && path[1] in s.origin[Compiled(v)])
  {
    if |path| > 1 {
      var p, more := path[1], |path| > 2;
      assert more ==> Parents(p) != {} by { if more { assert path[2] in Parents(p); } }
      assert p in Parents(v) && p in s.consumed;
      NoParents(p);
    }
  }

  /** Issued by the last invocation published, in place of some grant that was issued without inputs. */
  predicate JustIssued(s: State, v: Value)
    requires Compiled(v) in s.origin
  {
    v in s.latest && exists p | p in s.origin[Compiled(v)] :: Minted(s, p)
  }

  lemma LineageIs(s: State, v: Value)
    requires Linear(s) && Traced(s) && Keeps(s.bank.entries, v)
    ensures LeadsBack(s, v) ==> Minted(s, v) || JustIssued(s, v)
  {
    if path :| LineageOf(s, v, path) { LineageIsShort(s, v, path); }
  }

  lemma LineageIsThere(s: State, v: Value)
    requires Traced(s) && Keeps(s.bank.entries, v) && (Minted(s, v) || JustIssued(s, v))
    ensures LeadsBack(s, v)
  {
    if Minted(s, v) {
      assert LineageOf(s, v, [v]);
    } else {
      var p :| p in s.origin[Compiled(v)] && Minted(s, p);
      assert p in Order.Elements(s.origin[Compiled(v)]);
      assert LineageOf(s, v, [v, p]);
    }
  }

  /**
   * What a held grant itself says leads back only so far: the compiler leaves out what grants came from. In every run
   * of a new bank, a held grant leads to one issued without inputs exactly when it is one, or it was issued by the last
   * invocation published, in place of at least one such grant.
   */
  lemma LineageLeadsBack(base: seq<Row>, contract: string, steps: seq<Step>, v: Value)
    requires AreSteps(steps) && FreshRun(base, New(contract), steps)
            && Keeps(Run(base, New(contract), steps).bank.entries, v)
    ensures var s := Run(base, New(contract), steps);
            && Compiled(v) in s.origin
            && (LeadsBack(s, v) <==> Minted(s, v) || JustIssued(s, v))
  {
    var s := Run(base, New(contract), steps);
    RunTraced(base, New(contract), steps);
    LineageIs(s, v);
    if Minted(s, v) || JustIssued(s, v) { LineageIsThere(s, v); }
  }

  // ---------------------------------------------------------------------------
  // A lineage that does not lead back

  /** Publishing any invocation takes their lineage from the grants it leaves, all but those issued without inputs. */
  lemma LineageIsLost(base: seq<Row>, s: State, step: Step, v: Value)
    requires IsStep(step) && FreshFor(s, step) && Linear(s) && Traced(s) && Accepts(s, step)
    requires Keeps(s.bank.entries, v) && s.origin[Compiled(v)] != [] && Compiled(v) !in CompiledAll(step.inputs)
    ensures Keeps(Apply(base, s, step).bank.entries, Compiled(v)) && !LeadsBack(Apply(base, s, step), Compiled(v))
  {
    var r, c := Apply(base, s, step), Compiled(v);
    KeepsHolds(s.bank.entries, v);
    KnownIsOlder(s, step, v);
    CompiledAgain(v);
    HoldersAlike(s.bank.entries, v, c);
    KnownIsOlder(s, step, c);
    StaysKept(base, s, step, c);
    StepIsLinear(base, s, step);
    StepTraced(base, s, step);
    OriginStays(base, s, step, c);
    IssuedIsNew(s, step, c);
    StepParts(base, s, step);
    if c in r.latest { CompiledIn(r.latest, c); }
    LineageIs(r, c);
  }

  lemma UnusedConsumed(s: State, step: Step, n: string, c: Value)
    requires IsStep(step) && Accepts(s, step) && UnusedIn(s, n) && c in CompiledAll(step.inputs)
    ensures Unused(n, c.rows)
  {
    CompiledAt(step.inputs);
    var i :| 0 <= i < |step.inputs| && CompiledAll(step.inputs)[i] == c;
    var v := step.inputs[i];
    PassesHeld(s.bank, step.inputs, step.outputs, v);
    HoldersNone(s.bank.entries, v);
    var e :| e in s.bank.entries && HoldsOne(e, v);
    SameNonces(ValueOf(e).value, v, n);
    CompiledAgain(v);
    SameNonces(v, c, n);
  }

  lemma UnusedIssued(s: State, step: Step, n: string, v: Value)
    requires IsStep(step) && Accepts(s, step) && n !in step.nonces && v in IssuedBy(s, step)
    requires forall o | o in step.outputs :: Unused(n, o.pattern)
    ensures Unused(n, v.rows) && Unused(n, Compiled(v).rows)
  {
    var issued, nonces := IssuedBy(s, step), step.nonces[..|step.outputs|];
    IssuedOne(step.outputs, s.bank.tags[0], CompiledAll(step.inputs), nonces);
    var i :| 0 <= i < |issued| && issued[i] == v;
    var o := step.outputs[i];
    assert nonces[i] in step.nonces;
    GrantNonce(o.pattern, s.bank.tags[0], DeclaredOf(o), nonces[i], CompiledAll(step.inputs), o.title, n);
    CompiledAgain(v);
    SameNonces(v, Compiled(v), n);
  }

  lemma UnusedRow(base: seq<Row>, s: State, step: Step, n: string, e: Entry)
    requires IsStep(step) && Accepts(s, step) && UnusedIn(s, n) && n !in step.nonces
            && (forall o | o in step.outputs :: Unused(n, o.pattern))
    requires e in Apply(base, s, step).bank.entries
    ensures e.right.Direct? && Unused(n, e.right.value.rows)
  {
    StepParts(base, s, step);
    var compiled := CompiledEntries(s.bank.entries);
    if e in IssuedEntries(step.outputs, IssuedBy(s, step)) {
      IssuedEntryOf(step.outputs, IssuedBy(s, step), e);
      UnusedIssued(s, step, n, e.right.value);
    } else {
      WithoutIn(compiled, CompiledAll(step.inputs));
      CompiledEntryAt(s.bank.entries);
      var i :| 0 <= i < |compiled| && compiled[i] == e;
      UnusedCompiled(s.bank.entries[i], n);
    }
  }

  lemma UnusedCompiled(e: Entry, n: string)
    requires CompiledRight(e.right).Some? && (ValueOf(e).Some? ==> Unused(n, ValueOf(e).value.rows))
    ensures Unused(n, CompiledEntry(e).right.value.rows)
  {
    if ValueOf(e).Some? {
      CompiledAgain(ValueOf(e).value);
      SameNonces(ValueOf(e).value, Compiled(ValueOf(e).value), n);
    }
  }

  /** A nonce no step has drawn stays unused. */
  lemma UnusedAfter(base: seq<Row>, s: State, step: Step, n: string)
    requires IsStep(step) && Accepts(s, step) && UnusedIn(s, n) && n !in step.nonces
            && (forall o | o in step.outputs :: Unused(n, o.pattern))
    ensures UnusedIn(Apply(base, s, step), n) && Resolves(Apply(base, s, step).bank.entries)
  {
    StepParts(base, s, step);
    var r, issued := Apply(base, s, step), IssuedBy(s, step);
    forall e | e in r.bank.entries ensures e.right.Direct? && Unused(n, e.right.value.rows) {
      UnusedRow(base, s, step, n, e);
    }
    forall c | c in CompiledAll(step.inputs) ensures Unused(n, c.rows) { UnusedConsumed(s, step, n, c); }
    forall c | c in CompiledAll(issued) ensures Unused(n, c.rows) { UnusedCompiledIssued(s, step, n, c); }
    forall c | c in r.origin ensures Unused(n, c.rows) { RecordedAt(s.origin, issued, CompiledAll(step.inputs), c); }
  }

  lemma UnusedCompiledIssued(s: State, step: Step, n: string, c: Value)
    requires IsStep(step) && Accepts(s, step) && n !in step.nonces && c in CompiledAll(IssuedBy(s, step))
    requires forall o | o in step.outputs :: Unused(n, o.pattern)
    ensures Unused(n, c.rows)
  {
    var issued := IssuedBy(s, step);
    CompiledAt(issued);
    var i :| 0 <= i < |issued| && CompiledAll(issued)[i] == c;
    UnusedIssued(s, step, n, issued[i]);
  }

  /** What an accepted step of conforming outputs issues, the bank holds, as declared. */
  lemma IssuedIsHeld(base: seq<Row>, s: State, step: Step, i: nat)
    requires IsStep(step) && Accepts(s, step) && AllConform(step.outputs) && i < |step.outputs|
            && DeclaredOf(step.outputs[i]).amount > 0.0
    ensures InputFits(Apply(base, s, step).bank, s.bank.tags[0], IssuedBy(s, step)[i])
            && HeldOf(IssuedBy(s, step)[i]) == DeclaredOf(step.outputs[i])
    ensures Keeps(Apply(base, s, step).bank.entries, IssuedBy(s, step)[i])
  {
    StepParts(base, s, step);
    var issued, nonces, o := IssuedBy(s, step), step.nonces[..|step.outputs|], step.outputs[i];
    IssuedOne(step.outputs, s.bank.tags[0], CompiledAll(step.inputs), nonces);
    IssuedEntriesAt(step.outputs, issued);
    assert o in step.outputs;
    IssuedAsDeclared(o.pattern, s.bank.tags[0], o.held.value, nonces[i], CompiledAll(step.inputs), o.title);
    GrantReads(o.pattern, s.bank.tags[0], o.held.value, nonces[i], CompiledAll(step.inputs), o.title);
    var e := IssuedEntries(step.outputs, issued)[i];
    assert e in IssuedEntries(step.outputs, issued) && e in Apply(base, s, step).bank.entries;
  }

  /** An issue of 3 points, and the planned use of some of a grant, over a library whose allocations say nothing. */
  const THREE := Held(Shape("points", ""), 3.0)

  function Credit3(nonce: string): Step {
    Step([], [Output("out0", AllocationPattern([], THREE.shape, "allocate"), Some(THREE), "")], [nonce])
  }

  function Use(grant: Value, amount: real, nonces: seq<string>): Step {
    Step(UsePlan([], "allocate", grant, amount).inputs, UsePlan([], "allocate", grant, amount).outputs, nonces)
  }

  lemma PatternsUseNoNonce(shape: Shape, n: string)
    ensures Unused(n, AllocationPattern([], shape, "allocate"))
  {
    var kind, unit := if shape.kind == "" then [] else [Kind(shape.kind)], if shape.unit == "" then []
        else [Unit(shape.unit)];
    assert Nonce(n) !in kind && Nonce(n) !in unit && Nonce(n) !in [Pin("allocate")];
  }

  lemma CreditAccepted(nonce: string)
    ensures IsStep(Credit3(nonce)) && FreshFor(New("allocate"), Credit3(nonce))
            && Accepts(New("allocate"), Credit3(nonce))
    ensures AllConform(Credit3(nonce).outputs)
  {
    PatternsUseNoNonce(THREE.shape, nonce);
    PlannedConforms([], "allocate", THREE);
    assert CompiledAll([]) == [] && CompiledEntries([]) == [];
  }

  /** A planned use of a grant the bank holds, with fresh nonces, is a step that is accepted. */
  lemma UseAccepted(s: State, grant: Value, amount: real, nonces: seq<string>)
    requires ContractOf(s.bank) == Some("allocate") && Resolves(s.bank.entries) && InputFits(s.bank, "allocate", grant)
    requires HeldOf(grant).shape == THREE.shape && 0.0 < amount <= HeldOf(grant).amount
    requires Order.Distinct(nonces) && (forall n | n in nonces :: UnusedIn(s, n))
            && |nonces| == |Use(grant, amount, nonces).outputs| + 1
    ensures IsStep(Use(grant, amount, nonces)) && FreshFor(s, Use(grant, amount, nonces))
            && Accepts(s, Use(grant, amount, nonces))
    ensures AllConform(Use(grant, amount, nonces).outputs)
  {
    PlannedIsAccepted([], s.bank, "allocate", grant, amount);
    PlanConforms([], "allocate", grant, amount);
    forall n | n in nonces ensures Unused(n, AllocationPattern([], THREE.shape, "allocate")) {
      PatternsUseNoNonce(THREE.shape, n);
    }
  }

  /** Nonces to come, one by one and in patterns, are unused. */
  ghost predicate Ready(s: State, step: Step, later: seq<string>) {
    && IsStep(step) && FreshFor(s, step) && Accepts(s, step) && Linear(s) && Traced(s) && AllConform(step.outputs)
    && forall n | n in later :: UnusedIn(s, n) && n !in step.nonces
        && forall o | o in step.outputs :: Unused(n, o.pattern)
  }

  lemma Proceed(s: State, step: Step, later: seq<string>)
    requires Ready(s, step, later) && later != []
    ensures var r := Apply([], s, step);
            Linear(r) && Traced(r) && r.bank.tags == s.bank.tags && Resolves(r.bank.entries)
    ensures forall n | n in later :: UnusedIn(Apply([], s, step), n)
  {
    StepIsLinear([], s, step);
    StepTraced([], s, step);
    StepParts([], s, step);
    forall n | n in later ensures UnusedIn(Apply([], s, step), n) { UnusedAfter([], s, step, n); }
    UnusedAfter([], s, step, later[0]);
  }

  /** After the credit: the bank holds the grant of 3. */
  lemma Credited(nonce: string, later: seq<string>) returns (s: State, grant: Value)
    requires later != [] && nonce !in later
    ensures s == Apply([], New("allocate"), Credit3(nonce)) && Linear(s) && Traced(s) && s.bank.tags == ["allocate"]
    ensures Resolves(s.bank.entries) && InputFits(s.bank, "allocate", grant) && HeldOf(grant) == THREE
    ensures forall n | n in later :: UnusedIn(s, n)
  {
    var start, step := New("allocate"), Credit3(nonce);
    CreditAccepted(nonce);
    forall n ensures Unused(n, AllocationPattern([], THREE.shape, "allocate")) { PatternsUseNoNonce(THREE.shape, n); }
    Proceed(start, step, later);
    s, grant := Apply([], start, step), IssuedBy(start, step)[0];
    IssuedIsHeld([], start, step, 0);
  }

  /** Using part of a grant leaves the bank two grants in its place, one of 1 and one of the rest. */
  lemma Split(s: State, grant: Value, nonces: seq<string>, later: seq<string>)
      returns (r: State, one: Value, rest: Value)
    requires Linear(s) && Traced(s) && s.bank.tags == ["allocate"] && Resolves(s.bank.entries) && later != []
    requires InputFits(s.bank, "allocate", grant) && HeldOf(grant) == THREE && |nonces| == 3 && Order.Distinct(nonces)
    requires (forall n | n in nonces :: UnusedIn(s, n)) && (forall n | n in later :: UnusedIn(s, n) && n !in nonces)
    ensures IsStep(Use(grant, 1.0, nonces)) && FreshFor(s, Use(grant, 1.0, nonces))
            && r == Apply([], s, Use(grant, 1.0, nonces))
    ensures Linear(r) && Traced(r) && r.bank.tags == ["allocate"] && Resolves(r.bank.entries)
            && forall n | n in later :: UnusedIn(r, n)
    ensures Keeps(r.bank.entries, one) && Compiled(one) in r.origin && r.origin[Compiled(one)] != []
            && Compiled(one) != Compiled(rest)
    ensures InputFits(r.bank, "allocate", one) && Compiled(one) != one
    ensures InputFits(r.bank, "allocate", rest) && HeldOf(rest) == THREE.(amount := 2.0)
  {
    var step := Use(grant, 1.0, nonces);
    UseAccepted(s, grant, 1.0, nonces);
    forall n ensures Unused(n, AllocationPattern([], THREE.shape, "allocate")) { PatternsUseNoNonce(THREE.shape, n); }
    Proceed(s, step, later);
    StepParts([], s, step);
    r, one, rest := Apply([], s, step), IssuedBy(s, step)[0], IssuedBy(s, step)[1];
    IssuedIsHeld([], s, step, 0);
    IssuedIsHeld([], s, step, 1);
    SplitApart(s, step);
    SplitParents(s, step);
    CompiledIn(IssuedBy(s, step), one);
    RecordedAt(s.origin, IssuedBy(s, step), CompiledAll(step.inputs), Compiled(one));
  }

  lemma SplitParents(s: State, step: Step)
    requires IsStep(step) && Accepts(s, step) && step.inputs != [] && step.outputs != []
    ensures Compiled(IssuedBy(s, step)[0]) != IssuedBy(s, step)[0]
  {
    var one := IssuedBy(s, step)[0];
    IssuedParents(s, step, one);
    CompiledIn(step.inputs, step.inputs[0]);
    assert Compiled(step.inputs[0]) in Parents(one);
    NoParents(one);
  }

  lemma SplitApart(s: State, step: Step)
    requires IsStep(step) && FreshFor(s, step) && Accepts(s, step) && |step.outputs| > 1
    ensures Compiled(IssuedBy(s, step)[0]) != Compiled(IssuedBy(s, step)[1])
  {
    var nonces := step.nonces[..|step.outputs|];
    FewerNonces(step.outputs, step.nonces);
    IssuedNonces(step.outputs, s.bank.tags[0], CompiledAll(step.inputs), nonces);
    if Compiled(IssuedBy(s, step)[0]) == Compiled(IssuedBy(s, step)[1]) {
      SameNonces(IssuedBy(s, step)[0], IssuedBy(s, step)[1], nonces[0]);
    }
  }

  lemma FreshRunMore(base: seq<Row>, s: State, steps: seq<Step>, step: Step)
    requires AreSteps(steps) && FreshRun(base, s, steps) && IsStep(step) && FreshFor(Run(base, s, steps), step)
    ensures AreSteps(steps + [step]) && FreshRun(base, s, steps + [step])
    ensures Run(base, s, steps + [step]) == Apply(base, Run(base, s, steps), step)
  {
    assert (steps + [step])[..|steps|] == steps;
  }

  /**
   * A run after which the bank keeps a grant that came from another and no longer says so: an issue of 3, a use of 1 of
   * it, and a use of the 2 that are left. The handle of the 1 answered before the last step; it no longer does, though
   * its grant was not consumed.
   */
  lemma LineageFails(first: string, second: seq<string>, third: seq<string>)
      returns (earlier: seq<Step>, last: Step, v: Value)
    requires |second| == 3 && |third| == 2 && Order.Distinct(second) && Order.Distinct(third)
    requires first !in second + third && forall n | n in third :: n !in second
    ensures AreSteps(earlier) && AreSteps(earlier + [last]) && FreshRun([], New("allocate"), earlier + [last])
    ensures InputFits(Run([], New("allocate"), earlier).bank, "allocate", v)
    ensures IsLost(Run([], New("allocate"), earlier + [last]), v)
  {
    var s, grant := Credited(first, second + third);
    CreditAccepted(first);
    var credit, use := Credit3(first), Use(grant, 1.0, second);
    FreshRunMore([], New("allocate"), [], credit);
    var split, one, rest := Split(s, grant, second, third);
    FreshRunMore([], New("allocate"), [] + [credit], use);
    earlier, last, v := [] + [credit] + [use], Use(rest, 2.0, third), one;
    LastUse(split, one, rest, third);
    FreshRunMore([], New("allocate"), earlier, last);
  }

  /** The grant is there, unconsumed, without its lineage, and its handle does not answer. */
  ghost predicate IsLost(s: State, v: Value) {
    && Keeps(s.bank.entries, Compiled(v)) && Compiled(v) !in s.consumed && !LeadsBack(s, Compiled(v))
    && !InputFits(s.bank, "allocate", v)
  }

  lemma LastUse(s: State, one: Value, rest: Value, nonces: seq<string>)
    requires Linear(s) && Traced(s) && s.bank.tags == ["allocate"] && Resolves(s.bank.entries)
    requires Keeps(s.bank.entries, one) && s.origin[Compiled(one)] != [] && Compiled(one) != Compiled(rest)
    requires InputFits(s.bank, "allocate", rest) && HeldOf(rest) == THREE.(amount := 2.0) && Compiled(one) != one
    requires |nonces| == 2 && Order.Distinct(nonces) && forall n | n in nonces :: UnusedIn(s, n)
    ensures var last := Use(rest, 2.0, nonces);
            IsStep(last) && FreshFor(s, last) && IsLost(Apply([], s, last), one)
  {
    var last := Use(rest, 2.0, nonces);
    UseAccepted(s, rest, 2.0, nonces);
    LastInput(rest, nonces);
    LineageIsLost([], s, last, one);
    HandleIsLost([], s, last, one);
  }

  /** A grant that names what it came from, and that a step does not consume, is no longer what its handle holds. */
  lemma HandleIsLost(base: seq<Row>, s: State, step: Step, v: Value)
    requires IsStep(step) && FreshFor(s, step) && Linear(s) && Accepts(s, step)
    requires Keeps(s.bank.entries, v) && Compiled(v) != v && Keeps(Apply(base, s, step).bank.entries, Compiled(v))
    ensures Compiled(v) !in Apply(base, s, step).consumed && !InputFits(Apply(base, s, step).bank, "allocate", v)
  {
    StepIsLinear(base, s, step);
    KeepsHolds(Apply(base, s, step).bank.entries, Compiled(v));
    KeepsHolds(s.bank.entries, v);
    StillKept(base, s, step, v);
    FitsKept(Apply(base, s, step).bank, "allocate", v);
  }

  lemma LastInput(rest: Value, nonces: seq<string>)
    ensures CompiledAll(Use(rest, 2.0, nonces).inputs) == [Compiled(rest)]
  {
    assert [rest][1..] == [];
  }

  // ---------------------------------------------------------------------------
  // Handles

  /** Some step of the run was accepted. */
  predicate AnyAccepted(base: seq<Row>, s: State, steps: seq<Step>)
    requires AreSteps(steps)
  {
    steps != [] && (InitSteps(steps); AnyAccepted(base, s, steps[..|steps| - 1])
        || Accepts(Run(base, s, steps[..|steps| - 1]), steps[|steps| - 1]))
  }

  /** A grant once held is held from then on, or was consumed. */
  lemma {:induction false} StaysKnown(base: seq<Row>, s: State, steps: seq<Step>, v: Value)
    requires AreSteps(steps) && FreshRun(base, s, steps) && Linear(s) && Holders(s.bank.entries, v) > 0
    ensures Compiled(v) in Run(base, s, steps).consumed || Holders(Run(base, s, steps).bank.entries, v) > 0
    ensures !AnyAccepted(base, s, steps) ==> Run(base, s, steps) == s
  {
    if steps != [] {
      InitSteps(steps);
      var init, step := Run(base, s, steps[..|steps| - 1]), steps[|steps| - 1];
      StaysKnown(base, s, steps[..|steps| - 1], v);
      StepParts(base, init, step);
      if Accepts(init, step) {
        KnownIsOlder(init, step, v);
        HoldersApplied(base, init, step, v);
      }
    }
  }

  /**
   * After an accepted step the bank still keeps an older grant exactly when it is a compiled one and was not consumed.
   */
  lemma StillKept(base: seq<Row>, s: State, step: Step, v: Value)
    requires IsStep(step) && FreshFor(s, step) && Linear(s) && Accepts(s, step)
    requires Holders(s.bank.entries, v) > 0 || Compiled(v) in s.consumed
    ensures Keeps(Apply(base, s, step).bank.entries, v) <==> Compiled(v) == v && v !in Apply(base, s, step).consumed
  {
    StepParts(base, s, step);
    KnownIsOlder(s, step, v);
    IssuedIsNew(s, step, v);
    if Keeps(Apply(base, s, step).bank.entries, v) {
      KeptAfter(base, s, step, v);
      if v in IssuedBy(s, step) { CompiledIn(IssuedBy(s, step), v); }
    }
    if Compiled(v) == v && v !in Apply(base, s, step).consumed { StaysKept(base, s, step, v); }
  }

  lemma {:induction false} KeptThrough(base: seq<Row>, s: State, steps: seq<Step>, v: Value)
    requires AreSteps(steps) && FreshRun(base, s, steps) && Linear(s) && Keeps(s.bank.entries, v)
    ensures Keeps(Run(base, s, steps).bank.entries, v)
            <==> Compiled(v) !in Run(base, s, steps).consumed && (Compiled(v) == v || !AnyAccepted(base, s, steps))
  {
    KeepsHolds(s.bank.entries, v);
    if steps == [] {
      CompiledAgain(v);
      HoldersAlike(s.bank.entries, v, Compiled(v));
    } else {
      InitSteps(steps);
      var init, step := Run(base, s, steps[..|steps| - 1]), steps[|steps| - 1];
      KeptThrough(base, s, steps[..|steps| - 1], v);
      StaysKnown(base, s, steps[..|steps| - 1], v);
      UsedOnce(base, s, steps[..|steps| - 1]);
      StepParts(base, init, step);
      if Accepts(init, step) { StillKept(base, init, step, v); }
    }
  }

  lemma FitsKept(bank: Bank, contract: string, v: Value)
    ensures InputFits(bank, contract, v) <==>
            GrantOf(v, contract).Some? && GrantOf(v, contract).value.amount > 0.0
            && Keeps(bank.entries, v)
  {
    if GrantOf(v, contract).Some? && GrantOf(v, contract).value.amount > 0.0 {
      if e :| e in bank.entries && IsAllocation(e) && ValueOf(e) == Some(v) { assert GrantIn(e, contract) == Some(v); }
    }
  }

  /**
   * A handle is a row holding a grant of the bank; it answers for the grant while the bank keeps it. After any run it
   * still does exactly when the grant was not consumed and, unless it names nothing it came from, no invocation was
   * published: publishing one leaves the bank a copy without its lineage, which is not what the handle holds.
   */
  lemma HandleAnswers(base: seq<Row>, s: State, steps: seq<Step>, contract: string, v: Value)
    requires AreSteps(steps) && FreshRun(base, s, steps) && Linear(s) && InputFits(s.bank, contract, v)
    ensures InputFits(Run(base, s, steps).bank, contract, v)
            <==> Compiled(v) !in Run(base, s, steps).consumed && (Parents(v) == {} || !AnyAccepted(base, s, steps))
  {
    FitsKept(s.bank, contract, v);
    FitsKept(Run(base, s, steps).bank, contract, v);
    KeptThrough(base, s, steps, v);
    NoParents(v);
  }
}
