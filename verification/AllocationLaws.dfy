/** What one invocation keeps of a bank: amounts, and which grants it holds. */
module AllocationLaws {
  import opened Options
  import opened Allocation
  import opened Operands
  import opened Sequences
  import Order

  // ---------------------------------------------------------------------------
  // A grant is read as it was declared

  lemma {:induction false} KindFirst(a: seq<Row>, b: seq<Row>)
    ensures KindOf(a + b) == if KindOf(a).Some? then KindOf(a) else KindOf(b)
    ensures UnitOf(a + b) == if UnitOf(a).Some? then UnitOf(a) else UnitOf(b)
    ensures AmountOf(a + b) == if AmountOf(a).Some? then AmountOf(a) else AmountOf(b)
  {
    if a == [] {
      assert a + b == b;
    } else {
      assert (a + b)[1..] == a[1..] + b;
      KindFirst(a[1..], b);
    }
  }

  lemma {:induction false} CarriedReads(pattern: seq<Row>, contract: string)
    ensures KindOf(Carried(pattern, contract)) == KindOf(pattern)
    ensures UnitOf(Carried(pattern, contract)) == UnitOf(pattern)
    ensures AmountOf(Carried(pattern, contract)) == AmountOf(pattern)
    ensures forall r | r in Carried(pattern, contract) :: r in pattern && !r.Previous?
  {
    if pattern != [] {
      CarriedReads(pattern[1..], contract);
      var rest := Carried(pattern[1..], contract);
      if pattern[0].Previous? || pattern[0] == Pin(contract) {
        assert Carried(pattern, contract) == rest;
      } else {
        assert Carried(pattern, contract)[1..] == rest;
      }
    }
  }

  lemma HeldRowsRead(held: Held)
    ensures KindOf(HeldRows(held)) == if held.shape.kind == "" then None else Some(held.shape.kind)
    ensures UnitOf(HeldRows(held)) == if held.shape.unit == "" then None else Some(held.shape.unit)
    ensures AmountOf(HeldRows(held)) == Some(held.amount)
  {
    KindFirst((if held.shape.kind == "" then [] else [Kind(held.shape.kind)])
        + (if held.shape.unit == "" then [] else [Unit(held.shape.unit)]), [Amount(held.amount)]);
    KindFirst(if held.shape.kind == "" then [] else [Kind(held.shape.kind)],
        if held.shape.unit == "" then [] else [Unit(held.shape.unit)]);
  }

  lemma {:induction false} LineageRows(grants: seq<Value>)
    ensures forall r :: r in Lineage(grants) <==> r.Previous? && r.grant in grants
    ensures KindOf(Lineage(grants)).None? && UnitOf(Lineage(grants)).None? && AmountOf(Lineage(grants)).None?
  {
    if grants != [] {
      LineageRows(grants[1..]);
      assert grants == [grants[0]] + grants[1..];
      assert Lineage(grants)[1..] == Lineage(grants[1..]);
    }
  }

  function Tail(contract: string, nonce: string, lineage: seq<Value>, title: string): seq<Row> {
    [Nonce(nonce), Pin(contract)] + Lineage(lineage) + if title == "" then [] else [Label(title)]
  }

  lemma TailReads(contract: string, nonce: string, lineage: seq<Value>, title: string)
    ensures UnitOf(Tail(contract, nonce, lineage, title)).None? && KindOf(Tail(contract, nonce, lineage, title)).None?
  {
    LineageRows(lineage);
    KindFirst([Nonce(nonce), Pin(contract)], Lineage(lineage));
    KindFirst([Nonce(nonce), Pin(contract)] + Lineage(lineage), if title == "" then [] else [Label(title)]);
    assert [Nonce(nonce), Pin(contract)][1..] == [Pin(contract)] && [Nonce(nonce), Pin(contract)][1..][1..] == [];
  }

  lemma GrantReads(pattern: seq<Row>, contract: string, held: Held, nonce: string, lineage: seq<Value>, title: string)
    ensures var rows := GrantValue(pattern, contract, held, nonce, lineage, title).rows;
            && KindOf(rows) == (if KindOf(pattern).Some? then KindOf(pattern) else KindOf(HeldRows(held)))
            && UnitOf(rows) == (if UnitOf(pattern).Some? then UnitOf(pattern) else UnitOf(HeldRows(held)))
            && AmountOf(rows) == (if AmountOf(pattern).Some? then AmountOf(pattern) else Some(held.amount))
            && Pins(rows, contract) && Nonce(nonce) in rows
  {
    var carried, tail := Carried(pattern, contract), Tail(contract, nonce, lineage, title);
    CarriedReads(pattern, contract);
    HeldRowsRead(held);
    TailReads(contract, nonce, lineage, title);
    KindFirst(HeldRows(held), tail);
    KindFirst(carried, HeldRows(held) + tail);
    assert tail[0] == Nonce(nonce) && tail[1] == Pin(contract);
  }

  /** A pattern that names the declared resource, no other unit, and no other amount. */
  predicate Conforms(pattern: seq<Row>, held: Held) {
    && KindOf(pattern) == Some(held.shape.kind)
    && (UnitOf(pattern).Some? ==> UnitOf(pattern) == Some(held.shape.unit))
    && (AmountOf(pattern).Some? ==> AmountOf(pattern) == Some(held.amount))
  }

  /** An issued grant is held by the bank, as what its output declared, exactly when the output's pattern conforms. */
  lemma IssuedAsDeclared(pattern: seq<Row>, contract: string, held: Held, nonce: string, lineage: seq<Value>,
      title: string)
    requires held.amount != 0.0 && held.shape.kind != ""
    ensures var v := GrantValue(pattern, contract, held, nonce, lineage, title);
            GrantIn(Entry(pattern, Direct(v)), contract) == Some(v) && HeldOf(v) == held <==> Conforms(pattern, held)
  {
    GrantReads(pattern, contract, held, nonce, lineage, title);
    HeldRowsRead(held);
  }

  /** The patterns the planner writes conform, over any capability that itself says nothing of a resource. */
  lemma PlannedConforms(base: seq<Row>, contract: string, held: Held)
    requires KindOf(base).None? && UnitOf(base).None? && AmountOf(base).None? && held.shape.kind != ""
    ensures Conforms(AllocationPattern(base, held.shape, contract), held)
            && Pins(AllocationPattern(base, held.shape, contract), contract)
  {
    var kind, unit := [Kind(held.shape.kind)], if held.shape.unit == "" then [] else [Unit(held.shape.unit)];
    var added := kind + unit + [Pin(contract)];
    KindFirst(base, added);
    KindFirst(kind + unit, [Pin(contract)]);
    KindFirst(kind, unit);
    assert AllocationPattern(base, held.shape, contract) == base + added;
    assert added[|added| - 1] == Pin(contract);
  }

  // ---------------------------------------------------------------------------
  // Whole invocations

  /** An invocation is accepted: its operands resolve and the handler's checks pass on them. */
  predicate Passes(bank: Bank, inputs: seq<Value>, outputs: seq<Output>) {
    Resolves(bank.entries) && Fits(CompiledBank(bank).value, CompiledAll(inputs), outputs)
  }

  lemma InvokeAccepts(base: seq<Row>, bank: Bank, inputs: seq<Value>, outputs: seq<Output>, nonces: seq<string>)
    requires |nonces| >= |outputs| + |inputs|
    ensures Invoke(base, bank, inputs, outputs, nonces).Accepted? <==> Passes(bank, inputs, outputs)
    ensures Passes(bank, inputs, outputs) ==>
              |Issued(outputs, bank.tags[0], CompiledAll(inputs), nonces[..|outputs|])| == |outputs|
    ensures Passes(bank, inputs, outputs) ==>
              var issued := Issued(outputs, bank.tags[0], CompiledAll(inputs), nonces[..|outputs|]);
              && Invoke(base, bank, inputs, outputs, nonces).answer.issued == issued
              && Invoke(base, bank, inputs, outputs, nonces).answer.bank
                 == bank.(entries := Without(CompiledEntries(bank.entries), CompiledAll(inputs))
                     + IssuedEntries(outputs, issued))
  {
    CompiledLength(inputs);
    if Passes(bank, inputs, outputs) { IssuedOne(outputs, bank.tags[0], CompiledAll(inputs), nonces[..|outputs|]); }
  }

  lemma {:induction false} CompiledSum(vs: seq<Value>)
    ensures SumIn(CompiledAll(vs)) == SumIn(vs)
  {
    if vs != [] {
      CompiledReads(vs[0]);
      CompiledSum(vs[1..]);
    }
  }

  lemma CompiledMoved(inputs: seq<Value>, outputs: seq<Output>)
    requires outputs != []
    ensures Moved(CompiledAll(inputs), outputs) == Moved(inputs, outputs)
            && (CompiledAll(inputs) == [] <==> inputs == [])
  {
    CompiledAt(inputs);
    if inputs != [] { CompiledReads(inputs[0]); }
  }

  // ---------------------------------------------------------------------------
  // Planned consumption is accepted

  /** A grant the bank holds is held, as it is compiled, by the compiled bank. */
  lemma CompiledFits(bank: Bank, contract: string, v: Value)
    requires InputFits(bank, contract, v) && Resolves(bank.entries)
    ensures InputFits(CompiledBank(bank).value, contract, Compiled(v))
  {
    var e :| e in bank.entries && GrantIn(e, contract) == Some(v);
    var i :| 0 <= i < |bank.entries| && bank.entries[i] == e;
    CompiledEntryAt(bank.entries);
    CompiledEntryHolds(e, contract);
    CompiledReads(v);
    assert Pin(contract) in Compiled(v).rows <==> Pin(contract) in v.rows;
    var c := CompiledEntries(bank.entries)[i];
    assert c in CompiledEntries(bank.entries) && GrantIn(c, contract) == Some(Compiled(v));
  }

  /** The handler's checks of a planned use, over a bank as it is compiled. */
  lemma PlannedFits(base: seq<Row>, bank: Bank, contract: string, grant: Value, amount: real)
    requires ContractOf(bank) == Some(contract) && InputFits(bank, contract, grant) && HeldOf(grant).shape.kind != ""
    requires KindOf(base).None? && UnitOf(base).None? && AmountOf(base).None?
    ensures var plan := UsePlan(base, contract, grant, amount);
            Consume(base, contract, grant, amount).Some? <==> Fits(bank, plan.inputs, plan.outputs)
  {
    var plan, held := UsePlan(base, contract, grant, amount), HeldOf(grant);
    PlanConforms(base, contract, grant, amount);
    PlanSums(base, contract, grant, amount);
    assert plan.outputs[0] in plan.outputs && DeclaredOf(plan.outputs[0]).amount == amount;
  }

  lemma PlanCompiles(base: seq<Row>, contract: string, grant: Value, amount: real)
    ensures UsePlan(base, contract, Compiled(grant), amount).outputs == UsePlan(base, contract, grant, amount).outputs
    ensures UsePlan(base, contract, Compiled(grant), amount).inputs == CompiledAll([grant])
    ensures Consume(base, contract, Compiled(grant), amount).Some? <==> Consume(base, contract, grant, amount).Some?
  {
    CompiledReads(grant);
    assert [grant][1..] == [] && [Compiled(grant)] + [] == [Compiled(grant)];
  }

  /**
   * Of a positive grant the bank holds, the planner admits exactly the uses whose invocation is accepted, amounts up to
   * the tolerance over the grant among them, unless the bank does not resolve; and what it issues is held as declared.
   */
  lemma PlannedIsAccepted(base: seq<Row>, bank: Bank, contract: string, grant: Value, amount: real)
    requires ContractOf(bank) == Some(contract) && InputFits(bank, contract, grant) && HeldOf(grant).shape.kind != ""
    requires KindOf(base).None? && UnitOf(base).None? && AmountOf(base).None?
    ensures var plan := UsePlan(base, contract, grant, amount);
            Passes(bank, plan.inputs, plan.outputs)
            <==> Consume(base, contract, grant, amount).Some? && Resolves(bank.entries)
    ensures forall o | o in UsePlan(base, contract, grant, amount).outputs :: Conforms(o.pattern, DeclaredOf(o))
  {
    PlanConforms(base, contract, grant, amount);
    if Resolves(bank.entries) {
      CompiledFits(bank, contract, grant);
      CompiledReads(grant);
      PlanCompiles(base, contract, grant, amount);
      PlannedFits(base, CompiledBank(bank).value, contract, Compiled(grant), amount);
    }
  }

  lemma PlanConforms(base: seq<Row>, contract: string, grant: Value, amount: real)
    requires HeldOf(grant).shape.kind != "" && KindOf(base).None? && UnitOf(base).None? && AmountOf(base).None?
    ensures forall o | o in UsePlan(base, contract, grant, amount).outputs ::
              o.held.Some? && o.held.value.shape == HeldOf(grant).shape && Pins(o.pattern, contract)
                  && Conforms(o.pattern, DeclaredOf(o))
  {
    PlannedConforms(base, contract, HeldOf(grant).(amount := amount));
    PlannedConforms(base, contract, HeldOf(grant).(amount := HeldOf(grant).amount - amount));
  }

  lemma PlanSums(base: seq<Row>, contract: string, grant: Value, amount: real)
    ensures var plan, rest := UsePlan(base, contract, grant, amount), HeldOf(grant).amount - amount;
            SumIn(plan.inputs) == HeldOf(grant).amount
                && SumOut(plan.outputs) == if rest > TOLERANCE then HeldOf(grant).amount else amount
  {
    var plan, rest := UsePlan(base, contract, grant, amount), HeldOf(grant).amount - amount;
    assert [grant][1..] == [];
    if rest > TOLERANCE {
      assert plan.outputs[1..][1..] == [] && SumOut(plan.outputs[1..]) == rest;
    } else {
      assert plan.outputs[1..] == [];
    }
  }

  // ---------------------------------------------------------------------------
  // How many rows hold a grant

  /** The row holds the grant, in whatever form: with or without what it came from. */
  predicate HoldsOne(e: Entry, v: Value) { IsAllocation(e) && Compiled(ValueOf(e).value) == Compiled(v) }

  function Holders(es: seq<Entry>, v: Value): nat {
    if es == [] then 0 else (if HoldsOne(es[0], v) then 1 else 0) + Holders(es[1..], v)
  }

  lemma {:induction false} HoldersNone(es: seq<Entry>, v: Value)
    ensures Holders(es, v) == 0 <==> forall e | e in es :: !HoldsOne(e, v)
  {
    if es != [] {
      HoldersNone(es[1..], v);
      assert es == [es[0]] + es[1..];
    }
  }

  lemma {:induction false} HoldersJoined(a: seq<Entry>, b: seq<Entry>, v: Value)
    ensures Holders(a + b, v) == Holders(a, v) + Holders(b, v)
  {
    if a == [] {
      assert a + b == b;
    } else {
      assert (a + b)[1..] == a[1..] + b;
      HoldersJoined(a[1..], b, v);
    }
  }

  lemma {:induction false} HoldersCompiled(es: seq<Entry>, v: Value)
    requires Resolves(es)
    ensures Holders(CompiledEntries(es), v) == Holders(es, v)
  {
    if es != [] {
      assert es[0] in es;
      CompiledEntryHolds(es[0], "");
      if IsAllocation(es[0]) { CompiledAgain(ValueOf(es[0]).value); }
      HoldersCompiled(es[1..], v);
      assert CompiledEntries(es)[1..] == CompiledEntries(es[1..]);
    }
  }

  /** Rows as the compiler leaves them: values directly, and nothing of what they came from. */
  predicate Flat(es: seq<Entry>) { forall e | e in es :: e.right.Direct? && Compiled(e.right.value) == e.right.value }

  lemma CompiledIsFlat(es: seq<Entry>)
    requires Resolves(es)
    ensures Flat(CompiledEntries(es))
  {
    CompiledEntryAt(es);
    VoidHoldsNothing();
    forall e | e in CompiledEntries(es) ensures e.right.Direct? && Compiled(e.right.value) == e.right.value {
      var i :| 0 <= i < |es| && CompiledEntries(es)[i] == e;
      assert es[i] in es;
      match es[i].right
      case Direct(value) => CompiledAgain(value);
      case Ref(held, _) => CompiledAgain(held);
      case Hole(_) =>
    }
  }

  predicate Drops(e: Entry, consumed: seq<Value>) { IsAllocation(e) && e.right.Direct? && e.right.value in consumed }

  lemma {:induction false} WithoutIn(es: seq<Entry>, consumed: seq<Value>)
    ensures forall e :: e in Without(es, consumed) <==> e in es && !Drops(e, consumed)
  {
    if es != [] { WithoutIn(es[1..], consumed); }
  }

  /** Of a compiled bank, taking grants out takes out every row that holds one of them, and no other. */
  lemma {:induction false} HoldersWithout(es: seq<Entry>, consumed: seq<Value>, v: Value)
    requires Flat(es) && forall c | c in consumed :: Compiled(c) == c
    ensures Holders(Without(es, consumed), v) == if Compiled(v) in consumed then 0 else Holders(es, v)
  {
    if es != [] {
      assert es[0] in es && forall e | e in es[1..] :: e in es;
      HoldersWithout(es[1..], consumed, v);
      WithoutFirst(es, consumed);
      HoldersFirst(es[0], Without(es[1..], consumed), v);
      DropsHolder(es[0], consumed, v);
    }
  }

  lemma WithoutFirst(es: seq<Entry>, consumed: seq<Value>)
    requires es != []
    ensures Without(es, consumed) == if Drops(es[0], consumed) then Without(es[1..], consumed)
            else [es[0]] + Without(es[1..], consumed)
  {
    Whole(Without(es[1..], consumed));
  }

  lemma HoldersFirst(e: Entry, rest: seq<Entry>, v: Value)
    ensures Holders([e] + rest, v) == (if HoldsOne(e, v) then 1 else 0) + Holders(rest, v)
  {
    assert ([e] + rest)[1..] == rest;
  }

  lemma DropsHolder(e: Entry, consumed: seq<Value>, v: Value)
    requires e.right.Direct? && Compiled(e.right.value) == e.right.value
    ensures HoldsOne(e, v) ==> (Drops(e, consumed) <==> Compiled(v) in consumed)
  {}

  lemma CompiledIn(vs: seq<Value>, v: Value)
    requires v in vs
    ensures Compiled(v) in CompiledAll(vs)
  {
    CompiledAt(vs);
    var i :| 0 <= i < |vs| && vs[i] == v;
    assert CompiledAll(vs)[i] == Compiled(v);
  }

  lemma CompiledPlain(vs: seq<Value>)
    ensures forall c | c in CompiledAll(vs) :: Compiled(c) == c
  {
    CompiledAt(vs);
    forall c | c in CompiledAll(vs) ensures Compiled(c) == c {
      var i :| 0 <= i < |vs| && CompiledAll(vs)[i] == c;
      CompiledAgain(vs[i]);
    }
  }

  /**
   * After an accepted invocation no row holds a consumed grant, in whatever form the bank had it, and every other grant
   * is held by as many rows as before, besides what was issued.
   */
  lemma HoldersAfter(base: seq<Row>, bank: Bank, inputs: seq<Value>, outputs: seq<Output>, nonces: seq<string>,
      v: Value)
    requires |nonces| >= |outputs| + |inputs| && Invoke(base, bank, inputs, outputs, nonces).Accepted?
    ensures |Issued(outputs, bank.tags[0], CompiledAll(inputs), nonces[..|outputs|])| == |outputs|
    ensures Holders(Invoke(base, bank, inputs, outputs, nonces).answer.bank.entries, v)
            == (if Compiled(v) in CompiledAll(inputs) then 0 else Holders(bank.entries, v))
               + Holders(IssuedEntries(outputs, Issued(outputs, bank.tags[0], CompiledAll(inputs),
                   nonces[..|outputs|])), v)
  {
    InvokeAccepts(base, bank, inputs, outputs, nonces);
    var compiled, consumed := CompiledEntries(bank.entries), CompiledAll(inputs);
    var issued := Issued(outputs, bank.tags[0], consumed, nonces[..|outputs|]);
    CompiledIsFlat(bank.entries);
    CompiledPlain(inputs);
    HoldersCompiled(bank.entries, v);
    HoldersWithout(compiled, consumed, v);
    HoldersJoined(Without(compiled, consumed), IssuedEntries(outputs, issued), v);
  }

  // ---------------------------------------------------------------------------
  // New grants

  predicate Unused(nonce: string, rows: seq<Row>) { Nonce(nonce) !in rows }

  /** Nonces drawn at random: all different, and none in a pattern they are put beside. */
  predicate FreshNonces(outputs: seq<Output>, nonces: seq<string>) {
    && Order.Distinct(nonces)
    && forall n, o | n in nonces && o in outputs :: Unused(n, o.pattern)
  }

  lemma GrantNonce(pattern: seq<Row>, contract: string, held: Held, nonce: string, lineage: seq<Value>, title: string,
      n: string)
    requires Unused(n, pattern) && n != nonce
    ensures Unused(n, GrantValue(pattern, contract, held, nonce, lineage, title).rows)
  {
    CarriedReads(pattern, contract);
    LineageRows(lineage);
    var heading := if title == "" then [] else [Label(title)];
    assert Nonce(n) !in HeldRows(held) && Nonce(n) !in [Nonce(nonce), Pin(contract)] && Nonce(n) !in Lineage(lineage)
        && Nonce(n) !in heading;
  }

  /** Each issued grant carries its own nonce and none of the others. */
  lemma IssuedNonces(outputs: seq<Output>, contract: string, inputs: seq<Value>, nonces: seq<string>)
    requires |nonces| == |outputs| && FreshNonces(outputs, nonces)
    ensures |Issued(outputs, contract, inputs, nonces)| == |outputs|
    ensures forall i | 0 <= i < |outputs| :: !Unused(nonces[i], Issued(outputs, contract, inputs, nonces)[i].rows)
    ensures forall i, k | 0 <= i < |outputs| && 0 <= k < |outputs| && i != k ::
            Unused(nonces[i], Issued(outputs, contract, inputs, nonces)[k].rows)
  {
    IssuedOne(outputs, contract, inputs, nonces);
    forall i | 0 <= i < |outputs| ensures !Unused(nonces[i], Issued(outputs, contract, inputs, nonces)[i].rows) {
      GrantReads(outputs[i].pattern, contract, DeclaredOf(outputs[i]), nonces[i], inputs, outputs[i].title);
    }
    forall i, k | 0 <= i < |outputs| && 0 <= k < |outputs| && i != k
        ensures Unused(nonces[i], Issued(outputs, contract, inputs, nonces)[k].rows) {
      var o := outputs[k];
      assert nonces[i] in nonces && o in outputs;
      GrantNonce(o.pattern, contract, DeclaredOf(o), nonces[k], inputs, o.title, nonces[i]);
    }
  }

  lemma SameNonces(v: Value, w: Value, n: string)
    requires Compiled(v) == Compiled(w)
    ensures Unused(n, v.rows) <==> Unused(n, w.rows)
  {
    CompiledReads(v);
    CompiledReads(w);
    assert Nonce(n) in Compiled(v).rows <==> Nonce(n) in v.rows;
    assert Nonce(n) in Compiled(w).rows <==> Nonce(n) in w.rows;
  }

  /** The rows for what was issued hold at most one copy of any grant, and none of a grant without their nonces. */
  lemma HoldersIssued(outputs: seq<Output>, contract: string, inputs: seq<Value>, nonces: seq<string>, v: Value)
    requires |nonces| == |outputs| && FreshNonces(outputs, nonces)
    ensures |Issued(outputs, contract, inputs, nonces)| == |outputs|
    ensures var more := IssuedEntries(outputs, Issued(outputs, contract, inputs, nonces));
            Holders(more, v) <= 1 && ((forall n | n in nonces :: Unused(n, v.rows)) ==> Holders(more, v) == 0)
  {
    var issued := Issued(outputs, contract, inputs, nonces);
    IssuedNonces(outputs, contract, inputs, nonces);
    var more := IssuedEntries(outputs, issued);
    IssuedEntriesAt(outputs, issued);
    HoldersNone(more, v);
    if i :| 0 <= i < |more| && HoldsOne(more[i], v) {
      SameNonces(issued[i], v, nonces[i]);
      assert nonces[i] in nonces;
      forall k | 0 <= k < |more| && k != i ensures !HoldsOne(more[k], v) {
        if HoldsOne(more[k], v) { SameNonces(issued[k], v, nonces[i]); }
      }
      OnlyHolder(more, v, i);
    } else {
      forall e | e in more ensures !HoldsOne(e, v) {}
    }
  }

  lemma {:induction false} OnlyHolder(es: seq<Entry>, v: Value, i: nat)
    requires i < |es| && forall k | 0 <= k < |es| && k != i :: !HoldsOne(es[k], v)
    ensures Holders(es, v) <= 1
  {
    if i == 0 {
      forall e | e in es[1..] ensures !HoldsOne(e, v) {
        var k :| 0 <= k < |es| - 1 && es[1..][k] == e;
        assert es[k + 1] == e;
      }
      HoldersNone(es[1..], v);
    } else {
      forall k | 0 <= k < |es| - 1 && k != i - 1 ensures !HoldsOne(es[1..][k], v) { assert es[1..][k] == es[k + 1]; }
      OnlyHolder(es[1..], v, i - 1);
    }
  }

  /**
   * A consumed grant is gone: the next bank holds it in no row, in no form, and no invocation of it can name the grant
   * again.
   */
  lemma ConsumedIsGone(base: seq<Row>, bank: Bank, inputs: seq<Value>, outputs: seq<Output>, nonces: seq<string>,
      v: Value)
    requires |nonces| == |outputs| + |inputs| && FreshNonces(outputs, nonces)
            && (forall n | n in nonces :: Unused(n, v.rows))
    requires Invoke(base, bank, inputs, outputs, nonces).Accepted? && v in inputs
    ensures Holders(Invoke(base, bank, inputs, outputs, nonces).answer.bank.entries, v) == 0
    ensures forall again, more | v in again :: !Passes(Invoke(base, bank, inputs, outputs, nonces).answer.bank, again,
            more)
  {
    var next := Invoke(base, bank, inputs, outputs, nonces).answer.bank;
    HoldersAfter(base, bank, inputs, outputs, nonces, v);
    CompiledIn(inputs, v);
    FewerNonces(outputs, nonces);
    HoldersIssued(outputs, bank.tags[0], CompiledAll(inputs), nonces[..|outputs|], v);
    forall again, more | v in again ensures !Passes(next, again, more) { UnheldFails(next, again, more, v); }
  }

  lemma FewerNonces(outputs: seq<Output>, nonces: seq<string>)
    requires |nonces| >= |outputs| && FreshNonces(outputs, nonces)
    ensures FreshNonces(outputs, nonces[..|outputs|]) && forall n | n in nonces[..|outputs|] :: n in nonces
  {
    var some := nonces[..|outputs|];
    forall n | n in some ensures n in nonces {
      var i :| 0 <= i < |some| && some[i] == n;
      assert nonces[i] == n;
    }
  }

  /** No invocation may name a grant no row holds. */
  lemma UnheldFails(bank: Bank, inputs: seq<Value>, outputs: seq<Output>, v: Value)
    requires v in inputs && Holders(bank.entries, v) == 0
    ensures !Passes(bank, inputs, outputs)
  {
    if Passes(bank, inputs, outputs) {
      PassesHeld(bank, inputs, outputs, v);
    }
  }

  /** What an accepted invocation consumes was held by some row. */
  lemma PassesHeld(bank: Bank, inputs: seq<Value>, outputs: seq<Output>, v: Value)
    requires Passes(bank, inputs, outputs) && v in inputs
    ensures Holders(bank.entries, v) > 0
  {
    CompiledIn(inputs, v);
    var c, compiled := Compiled(v), CompiledEntries(bank.entries);
    assert InputFits(CompiledBank(bank).value, bank.tags[0], c);
    var e :| e in compiled && GrantIn(e, bank.tags[0]) == Some(c);
    CompiledAgain(v);
    assert HoldsOne(e, v);
    HoldersNone(compiled, v);
    HoldersCompiled(bank.entries, v);
  }

  // ---------------------------------------------------------------------------
  // What a bank holds in all

  function CountedIn(e: Entry, contract: string, shape: Shape): real {
    if GrantIn(e, contract).Some? && HeldOf(GrantIn(e, contract).value).shape == shape
        then HeldOf(GrantIn(e, contract).value).amount else 0.0
  }

  function TotalOf(es: seq<Entry>, contract: string, shape: Shape): real {
    if es == [] then 0.0 else CountedIn(es[0], contract, shape) + TotalOf(es[1..], contract, shape)
  }

  lemma {:induction false} TotalConcat(a: seq<Entry>, b: seq<Entry>, contract: string, shape: Shape)
    ensures TotalOf(a + b, contract, shape) == TotalOf(a, contract, shape) + TotalOf(b, contract, shape)
  {
    if a == [] {
      assert a + b == b;
    } else {
      assert (a + b)[1..] == a[1..] + b;
      TotalConcat(a[1..], b, contract, shape);
    }
  }

  lemma {:induction false} TotalCompiled(es: seq<Entry>, contract: string, shape: Shape)
    requires Resolves(es)
    ensures TotalOf(CompiledEntries(es), contract, shape) == TotalOf(es, contract, shape)
  {
    if es != [] {
      assert es[0] in es;
      CompiledEntryHolds(es[0], contract);
      if ValueOf(es[0]).Some? { CompiledReads(ValueOf(es[0]).value); }
      TotalCompiled(es[1..], contract, shape);
      assert CompiledEntries(es)[1..] == CompiledEntries(es[1..]);
    }
  }

  /** What the rows taken out with `consumed` hold. */
  function DroppedTotal(es: seq<Entry>, consumed: seq<Value>, contract: string, shape: Shape): real {
    if es == [] then 0.0
    else
        (if Drops(es[0], consumed) then CountedIn(es[0], contract, shape) else 0.0)
        + DroppedTotal(es[1..], consumed, contract, shape)
  }

  lemma {:induction false} WithoutTotal(es: seq<Entry>, consumed: seq<Value>, contract: string, shape: Shape)
    ensures TotalOf(Without(es, consumed), contract, shape)
            == TotalOf(es, contract, shape) - DroppedTotal(es, consumed, contract, shape)
  {
    if es != [] {
      WithoutTotal(es[1..], consumed, contract, shape);
      var rest := Without(es[1..], consumed);
      assert [] + rest == rest && ([es[0]] + rest)[1..] == rest;
    }
  }

  /** A grant as an invocation may consume it: compiled, pinned to the contract, of a positive amount. */
  predicate Spendable(v: Value, contract: string) {
    GrantOf(v, contract).Some? && GrantOf(v, contract).value.amount > 0.0 && Compiled(v) == v
  }

  /** What taking one grant out takes out: its amount when one row holds it, more when several do. */
  lemma {:induction false} DroppedOne(es: seq<Entry>, v: Value, contract: string, shape: Shape)
    requires Flat(es) && Spendable(v, contract)
    ensures shape != HeldOf(v).shape ==> DroppedTotal(es, [v], contract, shape) == 0.0
    ensures shape == HeldOf(v).shape && Holders(es, v) == 0 ==> DroppedTotal(es, [v], contract, shape) == 0.0
    ensures shape == HeldOf(v).shape && Holders(es, v) == 1
            ==> DroppedTotal(es, [v], contract, shape) == HeldOf(v).amount
    ensures shape == HeldOf(v).shape && Holders(es, v) > 1 ==> DroppedTotal(es, [v], contract, shape) > HeldOf(v).amount
  {
    if es != [] {
      assert es[0] in es && forall e | e in es[1..] :: e in es;
      DroppedOne(es[1..], v, contract, shape);
      HeadDropped(es[0], v, contract, shape);
    }
  }

  lemma HeadDropped(e: Entry, v: Value, contract: string, shape: Shape)
    requires e.right.Direct? && Compiled(e.right.value) == e.right.value && Spendable(v, contract)
    ensures Drops(e, [v]) <==> HoldsOne(e, v)
    ensures Drops(e, [v]) ==> CountedIn(e, contract, shape) == if shape == HeldOf(v).shape then HeldOf(v).amount
            else 0.0
  {}

  lemma {:induction false} DroppedAdds(es: seq<Entry>, consumed: seq<Value>, v: Value, contract: string, shape: Shape)
    requires v !in consumed
    ensures DroppedTotal(es, consumed + [v], contract, shape)
            == DroppedTotal(es, consumed, contract, shape) + DroppedTotal(es, [v], contract, shape)
  {
    if es != [] { DroppedAdds(es[1..], consumed, v, contract, shape); }
  }

  lemma {:induction false} DroppedNothing(es: seq<Entry>, contract: string, shape: Shape)
    ensures DroppedTotal(es, [], contract, shape) == 0.0
  {
    if es != [] { DroppedNothing(es[1..], contract, shape); }
  }

  lemma {:induction false} SumInAdds(vs: seq<Value>, v: Value)
    ensures SumIn(vs + [v]) == SumIn(vs) + HeldOf(v).amount
  {
    if vs == [] {
      assert [v][1..] == [] && [] + [v] == [v];
    } else {
      assert (vs + [v])[1..] == vs[1..] + [v];
      SumInAdds(vs[1..], v);
    }
  }

  /** Grants of one resource, all different, each held by some row. */
  ghost predicate Consumable(es: seq<Entry>, consumed: seq<Value>, contract: string, moved: Shape) {
    && Flat(es) && Order.Distinct(consumed)
    && forall v | v in consumed :: Spendable(v, contract) && HeldOf(v).shape == moved && Holders(es, v) > 0
  }

  predicate HeldOnce(es: seq<Entry>, vs: seq<Value>) { forall v | v in vs :: Holders(es, v) == 1 }

  /** Taking grants out takes at least their amounts out, and exactly these when each is held by one row. */
  lemma {:induction false} DroppedAll(es: seq<Entry>, consumed: seq<Value>, contract: string, moved: Shape,
      shape: Shape)
    requires Consumable(es, consumed, contract, moved)
    ensures shape != moved ==> DroppedTotal(es, consumed, contract, shape) == 0.0
    ensures shape == moved ==> DroppedTotal(es, consumed, contract, shape) >= SumIn(consumed)
    ensures shape == moved ==> (DroppedTotal(es, consumed, contract, shape) == SumIn(consumed)
            <==> HeldOnce(es, consumed))
    decreases |consumed|
  {
    if consumed == [] {
      DroppedNothing(es, contract, shape);
    } else {
      var init, last := consumed[..|consumed| - 1], consumed[|consumed| - 1];
      assert consumed == init + [last] && last !in init;
      assert last in consumed && forall v | v in init :: v in consumed;
      DroppedAll(es, init, contract, moved, shape);
      DroppedAdds(es, init, last, contract, shape);
      DroppedOne(es, last, contract, shape);
      SumInAdds(init, last);
    }
  }

  /** What an invocation adds to the bank is exactly what its outputs declare. */
  lemma {:induction false} IssuedTotal(outputs: seq<Output>, contract: string, inputs: seq<Value>, nonces: seq<string>,
      moved: Shape, shape: Shape)
    requires |nonces| >= |outputs| && moved.kind != ""
    requires forall o | o in outputs ::
            o.held.Some? && o.held.value.amount != 0.0 && o.held.value.shape == moved
            && Conforms(o.pattern, o.held.value)
    ensures |Issued(outputs, contract, inputs, nonces)| == |outputs|
    ensures TotalOf(IssuedEntries(outputs, Issued(outputs, contract, inputs, nonces)), contract, shape) == if shape
            == moved then SumOut(outputs) else 0.0
  {
    IssuedOne(outputs, contract, inputs, nonces);
    if outputs != [] {
      assert outputs[0] in outputs && forall o | o in outputs[1..] :: o in outputs;
      IssuedTotal(outputs[1..], contract, inputs, nonces[1..], moved, shape);
      var o, issued := outputs[0], Issued(outputs, contract, inputs, nonces);
      IssuedAsDeclared(o.pattern, contract, o.held.value, nonces[0], inputs, o.title);
      assert issued[1..] == Issued(outputs[1..], contract, inputs, nonces[1..]);
      assert IssuedEntries(outputs, issued)[1..] == IssuedEntries(outputs[1..], issued[1..]);
    }
  }

  predicate AllConform(outputs: seq<Output>) {
    forall o | o in outputs :: o.held.Some? && o.held.value.shape.kind != "" && Conforms(o.pattern, o.held.value)
  }

  /** By how much an accepted invocation changes what the bank holds of a resource and unit. */
  function Change(base: seq<Row>, bank: Bank, inputs: seq<Value>, outputs: seq<Output>, nonces: seq<string>,
      shape: Shape): real
    requires |nonces| >= |outputs| + |inputs| && Invoke(base, bank, inputs, outputs, nonces).Accepted?
            && ContractOf(bank).Some?
  {
    TotalOf(Invoke(base, bank, inputs, outputs, nonces).answer.bank.entries, bank.tags[0],
        shape) - TotalOf(bank.entries, bank.tags[0], shape)
  }

  /** The rows of the next bank, as amounts: what was there, less what was dropped, and what was issued. */
  lemma ChangeParts(base: seq<Row>, bank: Bank, inputs: seq<Value>, outputs: seq<Output>, nonces: seq<string>,
      shape: Shape)
    requires |nonces| >= |outputs| + |inputs| && Invoke(base, bank, inputs, outputs, nonces).Accepted?
    ensures ContractOf(bank).Some? && Resolves(bank.entries)
    ensures |Issued(outputs, bank.tags[0], CompiledAll(inputs), nonces[..|outputs|])| == |outputs|
    ensures Change(base, bank, inputs, outputs, nonces, shape)
            == TotalOf(IssuedEntries(outputs, Issued(outputs, bank.tags[0], CompiledAll(inputs), nonces[..|outputs|])),
                bank.tags[0], shape)
               - DroppedTotal(CompiledEntries(bank.entries), CompiledAll(inputs), bank.tags[0], shape)
  {
    InvokeAccepts(base, bank, inputs, outputs, nonces);
    var compiled, consumed, contract := CompiledEntries(bank.entries), CompiledAll(inputs), bank.tags[0];
    var issued := Issued(outputs, contract, consumed, nonces[..|outputs|]);
    TotalCompiled(bank.entries, contract, shape);
    WithoutTotal(compiled, consumed, contract, shape);
    TotalConcat(Without(compiled, consumed), IssuedEntries(outputs, issued), contract, shape);
  }

  /** What an accepted invocation consumes can be consumed from the compiled bank. */
  lemma PassesConsumable(bank: Bank, inputs: seq<Value>, outputs: seq<Output>)
    requires Passes(bank, inputs, outputs)
    ensures Consumable(CompiledEntries(bank.entries), CompiledAll(inputs), bank.tags[0], Moved(inputs, outputs))
    ensures HeldOnce(CompiledEntries(bank.entries), CompiledAll(inputs)) <==> HeldOnce(bank.entries, inputs)
  {
    var compiled, consumed := CompiledEntries(bank.entries), CompiledAll(inputs);
    CompiledIsFlat(bank.entries);
    CompiledPlain(inputs);
    CompiledMoved(inputs, outputs);
    CompiledAt(inputs);
    forall c | c in consumed ensures Holders(compiled, c) > 0 { CompiledHeld(bank, inputs, outputs, c); }
    forall i | 0 <= i < |inputs| ensures Holders(compiled, consumed[i]) == Holders(bank.entries, inputs[i]) {
      SameHolders(bank.entries, inputs[i]);
    }
    forall c | c in consumed ensures Spendable(c, bank.tags[0]) && HeldOf(c).shape == Moved(inputs, outputs) {
      assert InputFits(CompiledBank(bank).value, bank.tags[0], c);
    }
    OnceEach(compiled, consumed, bank.entries, inputs);
  }

  lemma OnceEach(compiled: seq<Entry>, consumed: seq<Value>, es: seq<Entry>, inputs: seq<Value>)
    requires |consumed| == |inputs| && forall i | 0 <= i < |inputs| ::
            Holders(compiled, consumed[i]) == Holders(es, inputs[i])
    ensures HeldOnce(compiled, consumed) <==> HeldOnce(es, inputs)
  {
    if HeldOnce(compiled, consumed) {
      forall v | v in inputs ensures Holders(es, v) == 1 {
        var i :| 0 <= i < |inputs| && inputs[i] == v;
        assert consumed[i] in consumed;
      }
    }
    if HeldOnce(es, inputs) {
      forall c | c in consumed ensures Holders(compiled, c) == 1 {
        var i :| 0 <= i < |inputs| && consumed[i] == c;
        assert inputs[i] in inputs;
      }
    }
  }

  lemma {:induction false} SameHolders(es: seq<Entry>, v: Value)
    requires Resolves(es)
    ensures Holders(CompiledEntries(es), Compiled(v)) == Holders(es, v)
  {
    HoldersCompiled(es, v);
    CompiledAgain(v);
    HoldersAlike(CompiledEntries(es), v, Compiled(v));
  }

  lemma {:induction false} HoldersAlike(es: seq<Entry>, v: Value, w: Value)
    requires Compiled(v) == Compiled(w)
    ensures Holders(es, v) == Holders(es, w)
  {
    if es != [] { HoldersAlike(es[1..], v, w); }
  }

  lemma CompiledHeld(bank: Bank, inputs: seq<Value>, outputs: seq<Output>, c: Value)
    requires Passes(bank, inputs, outputs) && c in CompiledAll(inputs)
    ensures Holders(CompiledEntries(bank.entries), c) > 0
  {
    CompiledAt(inputs);
    var i :| 0 <= i < |inputs| && CompiledAll(inputs)[i] == c;
    assert inputs[i] in inputs;
    PassesHeld(bank, inputs, outputs, inputs[i]);
    SameHolders(bank.entries, inputs[i]);
  }

  lemma CreatedTotal(bank: Bank, inputs: seq<Value>, outputs: seq<Output>, nonces: seq<string>, shape: Shape)
    requires |nonces| >= |outputs| && Passes(bank, inputs, outputs) && AllConform(outputs)
    ensures var issued := Issued(outputs, bank.tags[0], CompiledAll(inputs), nonces[..|outputs|]);
            |issued| == |outputs| && TotalOf(IssuedEntries(outputs, issued), bank.tags[0], shape) == if shape
                == Moved(inputs, outputs) then SumOut(outputs) else 0.0
  {
    var moved := Moved(inputs, outputs);
    CompiledMoved(inputs, outputs);
    assert outputs[0] in outputs;
    forall o | o in outputs ensures o.held.value.amount != 0.0 && o.held.value.shape == moved {
      assert OutputFits(bank.tags[0], CompiledAll(inputs) != [], o);
    }
    IssuedTotal(outputs, bank.tags[0], CompiledAll(inputs), nonces[..|outputs|], moved, shape);
  }

  /**
   * One accepted invocation moves one resource and unit, and changes nothing of any other. It changes the bank's total
   * by what is issued less what is consumed exactly when each consumed grant is held by one row; a grant held by
   * several is taken out of all of them, and the total falls by more.
   */
  lemma AllocateConserves(base: seq<Row>, bank: Bank, inputs: seq<Value>, outputs: seq<Output>, nonces: seq<string>,
      shape: Shape)
    requires |nonces| >= |outputs| + |inputs| && AllConform(outputs)
    requires Invoke(base, bank, inputs, outputs, nonces).Accepted?
    ensures ContractOf(bank).Some? && outputs != []
    ensures shape != Moved(inputs, outputs) ==> Change(base, bank, inputs, outputs, nonces, shape) == 0.0
    ensures shape == Moved(inputs, outputs) ==>
            Change(base, bank, inputs, outputs, nonces,
            shape) <= SumOut(outputs) - SumIn(inputs)
    ensures shape == Moved(inputs, outputs) ==>
              (Change(base, bank, inputs, outputs, nonces, shape) == SumOut(outputs) - SumIn(inputs)
               <==> HeldOnce(bank.entries, inputs))
  {
    InvokeAccepts(base, bank, inputs, outputs, nonces);
    ChangeParts(base, bank, inputs, outputs, nonces, shape);
    CreatedTotal(bank, inputs, outputs, nonces, shape);
    PassesConsumable(bank, inputs, outputs);
    DroppedAll(CompiledEntries(bank.entries), CompiledAll(inputs), bank.tags[0], Moved(inputs, outputs), shape);
    CompiledSum(inputs);
  }

  /** A transfer whose grants are held once each conserves every resource to within the tolerance. */
  lemma TransferConserves(base: seq<Row>, bank: Bank, inputs: seq<Value>, outputs: seq<Output>, nonces: seq<string>,
      shape: Shape)
    requires |nonces| >= |outputs| + |inputs| && AllConform(outputs) && inputs != [] && HeldOnce(bank.entries, inputs)
    requires Invoke(base, bank, inputs, outputs, nonces).Accepted?
    ensures ContractOf(bank).Some? && Abs(Change(base, bank, inputs, outputs, nonces, shape)) <= TOLERANCE
  {
    AllocateConserves(base, bank, inputs, outputs, nonces, shape);
    InvokeAccepts(base, bank, inputs, outputs, nonces);
    CompiledMoved(inputs, outputs);
    CompiledSum(inputs);
    SmallChange(Change(base, bank, inputs, outputs, nonces, shape), SumIn(inputs), SumOut(outputs),
        shape == Moved(inputs, outputs));
  }

  lemma SmallChange(change: real, consumed: real, issued: real, moved: bool)
    requires change == if moved then issued - consumed else 0.0
    requires Abs(consumed - issued) <= TOLERANCE
    ensures Abs(change) <= TOLERANCE
  {}

  lemma CountedAsDeclared(pattern: seq<Row>, contract: string, held: Held, nonce: string, lineage: seq<Value>,
      title: string)
    requires held.amount != 0.0 && held.shape.kind != ""
    ensures var entry := Entry(pattern, Direct(GrantValue(pattern, contract, held, nonce, lineage, title)));
            CountedIn(entry, contract, held.shape) == held.amount <==> Conforms(pattern, held)
  {
    IssuedAsDeclared(pattern, contract, held, nonce, lineage, title);
  }

  lemma OneIssued(o: Output, contract: string, inputs: seq<Value>, nonces: seq<string>, shape: Shape)
    requires nonces != [] && o.held.Some?
    ensures |Issued([o], contract, inputs, nonces[..1])| == 1
    ensures TotalOf(IssuedEntries([o], Issued([o], contract, inputs, nonces[..1])), contract, shape)
            == CountedIn(Entry(o.pattern, Direct(GrantValue(o.pattern, contract, o.held.value, nonces[0], inputs,
                o.title))), contract, shape)
  {
    var v := GrantValue(o.pattern, contract, o.held.value, nonces[0], inputs, o.title);
    var issued, entry := Issued([o], contract, inputs, nonces[..1]), Entry(o.pattern, Direct(v));
    IssuedOne([o], contract, inputs, nonces[..1]);
    IssuedEntriesAt([o], issued);
    assert IssuedEntries([o], issued) == [entry] && [entry][1..] == [];
  }

  /** What one output adds is its declaration's amount exactly when its pattern conforms. */
  lemma OneOutputAdds(bank: Bank, inputs: seq<Value>, o: Output, nonces: seq<string>)
    requires nonces != [] && o.held.Some? && o.held.value.shape.kind != "" && Passes(bank, inputs, [o])
    ensures Moved(inputs, [o]) == o.held.value.shape
            && |Issued([o], bank.tags[0], CompiledAll(inputs), nonces[..1])| == 1
    ensures TotalOf(IssuedEntries([o], Issued([o], bank.tags[0], CompiledAll(inputs), nonces[..1])), bank.tags[0],
            o.held.value.shape) == o.held.value.amount
            <==> Conforms(o.pattern, o.held.value)
  {
    var contract, shape, consumed := bank.tags[0], o.held.value.shape, CompiledAll(inputs);
    CompiledMoved(inputs, [o]);
    assert OutputFits(contract, consumed != [], o) && DeclaredOf(o).shape == Moved(inputs, [o]) by { assert o in [o]; }
    OneIssued(o, contract, consumed, nonces, shape);
    CountedAsDeclared(o.pattern, contract, o.held.value, nonces[0], consumed, o.title);
  }

  /** What taking grants that are held once each out takes out. */
  lemma OnceDropped(bank: Bank, inputs: seq<Value>, outputs: seq<Output>)
    requires Passes(bank, inputs, outputs) && HeldOnce(bank.entries, inputs)
    ensures DroppedTotal(CompiledEntries(bank.entries), CompiledAll(inputs), bank.tags[0], Moved(inputs, outputs))
            == SumIn(inputs)
  {
    PassesConsumable(bank, inputs, outputs);
    DroppedAll(CompiledEntries(bank.entries), CompiledAll(inputs), bank.tags[0], Moved(inputs, outputs),
        Moved(inputs, outputs));
    CompiledSum(inputs);
  }

  /**
   * For an invocation of one output, whose inputs are held once each, the condition on patterns is exact too: a pattern
   * that says another amount, unit or resource shadows what is declared.
   */
  lemma OneOutputConserves(base: seq<Row>, bank: Bank, inputs: seq<Value>, o: Output, nonces: seq<string>)
    requires |nonces| >= 1 + |inputs| && HeldOnce(bank.entries, inputs) && o.held.Some? && o.held.value.shape.kind != ""
    requires Invoke(base, bank, inputs, [o], nonces).Accepted?
    ensures ContractOf(bank).Some?
    ensures Change(base, bank, inputs, [o], nonces, o.held.value.shape) == o.held.value.amount - SumIn(inputs)
            <==> Conforms(o.pattern, o.held.value)
  {
    InvokeAccepts(base, bank, inputs, [o], nonces);
    ChangeParts(base, bank, inputs, [o], nonces, o.held.value.shape);
    OneOutputAdds(bank, inputs, o, nonces);
    OnceDropped(bank, inputs, [o]);
  }

  // ---------------------------------------------------------------------------
  // Where amounts are not conserved

  /** A bank without grants yet, and an output whose pattern says 100 of what it declares 1 of. */
  const EMPTY_BANK := Bank(["allocate"], [])
  const SHADOWED := Output("out0", [Kind("points"), Amount(100.0), Pin("allocate")],
      Some(Held(Shape("points", ""), 1.0)), "")

  lemma ShadowedIsAccepted(base: seq<Row>, nonces: seq<string>)
    requires nonces != []
    ensures Invoke(base, EMPTY_BANK, [], [SHADOWED], nonces).Accepted?
  {
    assert CompiledAll([]) == [] && CompiledEntries([]) == [];
    assert SHADOWED.pattern[2] == Pin("allocate");
    InvokeAccepts(base, EMPTY_BANK, [], [SHADOWED], nonces);
  }

  /** An accepted credit of 1 that does not add 1. */
  lemma ShadowedAmount(base: seq<Row>, nonces: seq<string>)
    requires nonces != []
    ensures Invoke(base, EMPTY_BANK, [], [SHADOWED], nonces).Accepted?
    ensures Change(base, EMPTY_BANK, [], [SHADOWED], nonces, Shape("points", "")) != 1.0
  {
    ShadowedIsAccepted(base, nonces);
    OneOutputConserves(base, EMPTY_BANK, [], SHADOWED, nonces);
    var rows := SHADOWED.pattern;
    assert rows[1..][0] == Amount(100.0) && AmountOf(rows[1..]) == Some(100.0) && AmountOf(rows) == AmountOf(rows[1..]);
  }

  /** One grant in two rows of a bank, directly and through a ref. */
  function TwiceHeld(grant: Value): Bank {
    Bank(["allocate"], [Entry([Kind("points")], Direct(grant)), Entry([Kind("points")], Ref(grant, true))])
  }

  const POINTS := Value([Kind("points"), Amount(5.0), Nonce("n"), Pin("allocate")])
  lemma OneRowReads(r: Row)
    ensures KindOf([r]) == (if r.Kind? then Some(r.kind) else None)
            && UnitOf([r]) == (if r.Unit? then Some(r.unit) else None)
    ensures AmountOf([r]) == if r.Amount? then Some(r.amount) else None
  {
    assert [r][1..] == [];
  }

  lemma PointsRead()
    ensures HeldBy(POINTS) == Some(Held(Shape("points", ""), 5.0)) && Pins(POINTS.rows, "allocate")
            && Compiled(POINTS) == POINTS
  {
    var rows := POINTS.rows;
    OneRowReads(rows[0]);
    OneRowReads(rows[1]);
    OneRowReads(rows[2]);
    OneRowReads(rows[3]);
    KindFirst([rows[0]], [rows[1]]);
    KindFirst([rows[2]], [rows[3]]);
    KindFirst([rows[0]] + [rows[1]], [rows[2]] + [rows[3]]);
    assert rows == [rows[0]] + [rows[1]] + ([rows[2]] + [rows[3]]) && rows[3] == Pin("allocate");
    CompiledAgain(POINTS);
  }

  lemma PointsHeld(e: Entry)
    requires e.pattern == [Kind("points")] && ValueOf(e) == Some(POINTS)
    ensures GrantIn(e, "allocate") == Some(POINTS) && HoldsOne(e, POINTS)
  {
    PointsRead();
    OneRowReads(Kind("points"));
  }

  lemma TwiceHeldRows()
    ensures Resolves(TwiceHeld(POINTS).entries) && Holders(TwiceHeld(POINTS).entries, POINTS) == 2
    ensures InputFits(TwiceHeld(POINTS), "allocate", POINTS)
  {
    PointsRead();
    var es := TwiceHeld(POINTS).entries;
    PointsHeld(es[0]);
    PointsHeld(es[1]);
    assert es[1..] == [es[1]] && [es[1]][1..] == [];
    assert es[0] in es;
  }

  /**
   * Using the whole grant, as planned and accepted, leaves the bank with less than it had: two rows held the one grant.
   */
  lemma TwiceHeldIsLost(nonces: seq<string>)
    requires |nonces| >= 2
    ensures var plan := UsePlan([], "allocate", POINTS, 5.0);
            && |plan.outputs| == 1 && Invoke([], TwiceHeld(POINTS), plan.inputs, plan.outputs, nonces).Accepted?
            && Change([], TwiceHeld(POINTS), plan.inputs, plan.outputs, nonces, Shape("points", "")) < 0.0
  {
    var plan, bank := UsePlan([], "allocate", POINTS, 5.0), TwiceHeld(POINTS);
    TwiceHeldRows();
    PointsRead();
    PlannedIsAccepted([], bank, "allocate", POINTS, 5.0);
    PlanConforms([], "allocate", POINTS, 5.0);
    PlanSums([], "allocate", POINTS, 5.0);
    InvokeAccepts([], bank, plan.inputs, plan.outputs, nonces);
    assert POINTS in plan.inputs;
    AllocateConserves([], bank, plan.inputs, plan.outputs, nonces, Shape("points", ""));
  }
}
