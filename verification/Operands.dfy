/**
 * What an invocation is handed: the ref compiler's copy of the bank and of the grants to consume. Refs are replaced by
 * what they hold, and rows that say what a value came from are left out.
 */
module Operands {
  import opened Options
  import opened Allocation
  import opened Sequences

  /** An open field of the bank is compiled to the value nothing satisfies. */
  const VOID := Value([Other("void")])

  function Unlinked(rows: seq<Row>): seq<Row> {
    if rows == [] then [] else (if rows[0].Previous? then [] else [rows[0]]) + Unlinked(rows[1..])
  }

  function Compiled(v: Value): Value { Value(Unlinked(v.rows)) }

  function CompiledAll(vs: seq<Value>): seq<Value> {
    if vs == [] then [] else [Compiled(vs[0])] + CompiledAll(vs[1..])
  }

  /** None where the operand stays unresolved: a row still asks, or holds what its pattern does not accept. */
  function CompiledRight(r: Right): Option<Value> {
    match r
    case Direct(value) => Some(Compiled(value))
    case Ref(held, fits) => if fits then Some(Compiled(held)) else None
    case Hole(field) => if field then Some(VOID) else None
  }

  predicate Resolves(es: seq<Entry>) { forall e | e in es :: CompiledRight(e.right).Some? }

  function CompiledEntry(e: Entry): Entry
    requires CompiledRight(e.right).Some?
  {
    Entry(e.pattern, Direct(CompiledRight(e.right).value))
  }

  function CompiledEntries(es: seq<Entry>): seq<Entry>
    requires Resolves(es)
  {
    if es == [] then [] else [CompiledEntry(es[0])] + CompiledEntries(es[1..])
  }

  function CompiledBank(bank: Bank): Option<Bank> {
    if Resolves(bank.entries) then Some(bank.(entries := CompiledEntries(bank.entries))) else None
  }

  /** A whole invocation: its operands are compiled, then the handler is called with them. */
  function Invoke(base: seq<Row>, bank: Bank, inputs: seq<Value>, outputs: seq<Output>, nonces: seq<string>): Verdict
    requires |nonces| >= |outputs| + |inputs|
  {
    CompiledLength(inputs);
    match CompiledBank(bank)
    case None => Rejected
    case Some(compiled) => Allocate(base, compiled, CompiledAll(inputs), outputs, nonces)
  }

  lemma {:induction false} CompiledLength(vs: seq<Value>)
    ensures |CompiledAll(vs)| == |vs|
  {
    if vs != [] { CompiledLength(vs[1..]); }
  }

  // ---------------------------------------------------------------------------
  // The compiler, row by row

  method CompileValue(v: Value) returns (r: Value)
    ensures r == Compiled(v)
  {
    var children := [];
    for i := 0 to |v.rows|
      invariant children + Unlinked(v.rows[i..]) == Unlinked(v.rows)
    {
      assert v.rows[i..][0] == v.rows[i] && v.rows[i..][1..] == v.rows[i + 1..];
      if v.rows[i].Previous? { continue; }
      children := children + [v.rows[i]];
    }
    r := Value(children);
  }

  method CompileRight(r: Right) returns (value: Option<Value>)
    ensures value == CompiledRight(r)
  {
    match r
    case Direct(v) =>
      var c := CompileValue(v);
      value := Some(c);
    case Ref(held, fits) =>
      if !fits { return None; }
      var c := CompileValue(held);
      value := Some(c);
    case Hole(field) =>
      value := if field then Some(VOID) else None;
  }

  method CompileBank(bank: Bank) returns (r: Option<Bank>)
    ensures r == CompiledBank(bank)
  {
    var entries := [];
    for i := 0 to |bank.entries|
      invariant Resolves(bank.entries[..i])
      invariant entries == CompiledEntries(bank.entries[..i])
    {
      var e := bank.entries[i];
      OneMore(bank.entries, i);
      var value := CompileRight(e.right);
      if value.None? {
        assert e in bank.entries;
        return None;
      }
      CompiledNext(bank.entries[..i], e);
      entries := entries + [Entry(e.pattern, Direct(value.value))];
    }
    assert bank.entries[..|bank.entries|] == bank.entries;
    r := Some(bank.(entries := entries));
  }

  lemma {:induction false} CompiledNext(es: seq<Entry>, e: Entry)
    requires Resolves(es) && CompiledRight(e.right).Some?
    ensures Resolves(es + [e]) && CompiledEntries(es + [e]) == CompiledEntries(es) + [CompiledEntry(e)]
  {
    if es == [] {
      assert [] + [e] == [e] && [e][1..] == [];
    } else {
      assert (es + [e])[1..] == es[1..] + [e];
      CompiledNext(es[1..], e);
      assert (es + [e])[0] == es[0];
    }
  }

  method CompileInputs(inputs: seq<Value>) returns (r: seq<Value>)
    ensures r == CompiledAll(inputs)
  {
    r := [];
    for i := 0 to |inputs|
      invariant r + CompiledAll(inputs[i..]) == CompiledAll(inputs)
    {
      assert inputs[i..][0] == inputs[i] && inputs[i..][1..] == inputs[i + 1..];
      var c := CompileValue(inputs[i]);
      r := r + [c];
    }
  }

  method RunInvocation(base: seq<Row>, bank: Bank, inputs: seq<Value>, outputs: seq<Output>, nonces: seq<string>)
      returns (r: Verdict)
    requires |nonces| >= |outputs| + |inputs|
    ensures r == Invoke(base, bank, inputs, outputs, nonces)
  {
    var owner := CompileBank(bank);
    if owner.None? { return Rejected; }
    var grants := CompileInputs(inputs);
    CompiledLength(inputs);
    r := AllocatePrimitive(base, owner.value, grants, outputs, nonces);
  }

  // ---------------------------------------------------------------------------
  // What compiling keeps

  lemma {:induction false} UnlinkedReads(rows: seq<Row>)
    ensures forall r :: r in Unlinked(rows) <==> r in rows && !r.Previous?
    ensures KindOf(Unlinked(rows)) == KindOf(rows) && UnitOf(Unlinked(rows)) == UnitOf(rows)
            && AmountOf(Unlinked(rows)) == AmountOf(rows)
  {
    if rows != [] {
      UnlinkedReads(rows[1..]);
      var rest := Unlinked(rows[1..]);
      assert rows == [rows[0]] + rows[1..];
      if rows[0].Previous? {
        assert [] + rest == rest;
      } else {
        assert Unlinked(rows)[0] == rows[0] && Unlinked(rows)[1..] == rest;
      }
    }
  }

  lemma {:induction false} UnlinkedStays(rows: seq<Row>)
    requires forall r | r in rows :: !r.Previous?
    ensures Unlinked(rows) == rows
  {
    if rows != [] {
      assert rows[0] in rows && forall r | r in rows[1..] :: r in rows;
      UnlinkedStays(rows[1..]);
    }
  }

  /** A compiled value holds the same amount, carries the same nonces and pins, and names nothing it came from. */
  lemma CompiledReads(v: Value)
    ensures HeldBy(Compiled(v)) == HeldBy(v)
    ensures forall r: Row | !r.Previous? :: r in Compiled(v).rows <==> r in v.rows
    ensures forall r | r in Compiled(v).rows :: !r.Previous?
  {
    UnlinkedReads(v.rows);
  }

  /**
   * Compiling leaves a value as it is exactly when the value names nothing it came from; so a second time changes
   * nothing.
   */
  lemma CompiledAgain(v: Value)
    ensures Compiled(v) == v <==> forall r | r in v.rows :: !r.Previous?
    ensures Compiled(Compiled(v)) == Compiled(v)
  {
    UnlinkedReads(v.rows);
    UnlinkedStays(Compiled(v).rows);
    if forall r | r in v.rows :: !r.Previous? { UnlinkedStays(v.rows); }
  }

  lemma {:induction false} CompiledAt(vs: seq<Value>)
    ensures |CompiledAll(vs)| == |vs|
    ensures forall i | 0 <= i < |vs| :: CompiledAll(vs)[i] == Compiled(vs[i])
  {
    if vs != [] { CompiledAt(vs[1..]); }
  }

  lemma {:induction false} CompiledEntryAt(es: seq<Entry>)
    requires Resolves(es)
    ensures |CompiledEntries(es)| == |es|
    ensures forall i | 0 <= i < |es| :: CompiledEntries(es)[i] == CompiledEntry(es[i])
  {
    if es != [] { CompiledEntryAt(es[1..]); }
  }

  lemma VoidHoldsNothing()
    ensures HeldBy(VOID).None? && Compiled(VOID) == VOID
  {
    var rows := [Other("void")];
    assert rows[1..] == [] && Unlinked(rows[1..]) == [] && KindOf(rows[1..]).None? && KindOf(rows).None?;
    assert Unlinked(rows) == [rows[0]] + [];
  }

  /** A compiled row is an allocation exactly when the row was, of the same amount, and under any contract. */
  lemma CompiledEntryHolds(e: Entry, contract: string)
    requires CompiledRight(e.right).Some?
    ensures IsAllocation(CompiledEntry(e)) <==> IsAllocation(e)
    ensures IsAllocation(e) ==> ValueOf(CompiledEntry(e)) == Some(Compiled(ValueOf(e).value))
    ensures GrantIn(CompiledEntry(e), contract) == if GrantIn(e, contract).Some? then Some(Compiled(ValueOf(e).value))
            else None
  {
    VoidHoldsNothing();
    if ValueOf(e).Some? {
      CompiledReads(ValueOf(e).value);
      assert Pin(contract) in Compiled(ValueOf(e).value).rows <==> Pin(contract) in ValueOf(e).value.rows;
    }
  }
}
