/** Banks and grants: the allocate handler's checks and what it answers. Amounts are reals; rounding is not modelled. */
module Allocation {
  import opened Options
  import opened Sequences
  import Order

  // ---------------------------------------------------------------------------
  // Grants

  /** A row of a pattern, of a grant or of a bank's declaration. */
  datatype Row =
    | Kind(kind: string)
    | Unit(unit: string)
    | Amount(amount: real)
    | Nonce(nonce: string)
    | Pin(contract: string)
    | Previous(grant: Value)
    | Label(text: string)
    | Other(name: string)

  /** A value is its rows: two values with the same rows are the same grant. */
  datatype Value = Value(rows: seq<Row>)

  datatype Shape = Shape(kind: string, unit: string)
  datatype Held = Held(shape: Shape, amount: real)

  /** The first row of each field is the one read. */
  function KindOf(rows: seq<Row>): Option<string> {
    if rows == [] then None else if rows[0].Kind? then Some(rows[0].kind) else KindOf(rows[1..])
  }

  function UnitOf(rows: seq<Row>): Option<string> {
    if rows == [] then None else if rows[0].Unit? then Some(rows[0].unit) else UnitOf(rows[1..])
  }

  function AmountOf(rows: seq<Row>): Option<real> {
    if rows == [] then None else if rows[0].Amount? then Some(rows[0].amount) else AmountOf(rows[1..])
  }

  function ShapeOf(rows: seq<Row>): Option<Shape> {
    match KindOf(rows)
    case None => None
    case Some(kind) => Some(Shape(kind, match UnitOf(rows) case Some(unit) => unit case None => ""))
  }

  /** What a value holds: an amount of a resource, None when it names no resource or no amount. */
  function HeldBy(v: Value): Option<Held> {
    match (ShapeOf(v.rows), AmountOf(v.rows))
    case (Some(shape), Some(amount)) => Some(Held(shape, amount))
    case _ => None
  }

  predicate Pins(rows: seq<Row>, contract: string) { Pin(contract) in rows }

  /** The grant a value is under a contract. */
  function GrantOf(v: Value, contract: string): Option<Held> { if Pins(v.rows, contract) then HeldBy(v) else None }

  /** A pattern's rows that its values carry: not its history, and not the pin only the handler puts on a value. */
  function Carried(pattern: seq<Row>, contract: string): seq<Row> {
    if pattern == [] then []
    else
        (if pattern[0].Previous? || pattern[0] == Pin(contract) then [] else [pattern[0]])
        + Carried(pattern[1..], contract)
  }

  function HeldRows(held: Held): seq<Row> {
    (if held.shape.kind == "" then [] else [Kind(held.shape.kind)])
    + (if held.shape.unit == "" then [] else [Unit(held.shape.unit)])
    + [Amount(held.amount)]
  }

  function Lineage(grants: seq<Value>): seq<Row> {
    if grants == [] then [] else [Previous(grants[0])] + Lineage(grants[1..])
  }

  /**
   * An issued grant: what its pattern carries, the amount, what tells it from every other, its contract, and what it
   * came from.
   */
  function GrantValue(pattern: seq<Row>, contract: string, held: Held, nonce: string, lineage: seq<Value>,
      title: string): Value {
    Value(Carried(pattern, contract) + (HeldRows(held)
        + ([Nonce(nonce), Pin(contract)] + Lineage(lineage) + if title == "" then [] else [Label(title)])))
  }

  // ---------------------------------------------------------------------------
  // Banks

  /**
   * A bank row holds a value itself, as the handler leaves it; or through a ref someone put there, whose value
   * satisfies the row's pattern (`fits`) or not; or nothing: an open field of the bank, or a row that still asks.
   */
  datatype Right = Direct(value: Value) | Ref(held: Value, fits: bool) | Hole(field: bool)
  datatype Entry = Entry(pattern: seq<Row>, right: Right)

  /** `tags`: the contracts the bank's value declares; it is a bank when it declares one. */
  datatype Bank = Bank(tags: seq<string>, entries: seq<Entry>)

  function ContractOf(bank: Bank): Option<string> { if |bank.tags| == 1 then Some(bank.tags[0]) else None }

  function ValueOf(e: Entry): Option<Value> {
    match e.right
    case Direct(value) => Some(value)
    case Ref(held, _) => Some(held)
    case Hole(_) => None
  }

  predicate IsAllocation(e: Entry) { ShapeOf(e.pattern).Some? && ValueOf(e).Some? && HeldBy(ValueOf(e).value).Some? }

  /** The grant an entry of a bank with this contract holds. */
  function GrantIn(e: Entry, contract: string): Option<Value> {
    if IsAllocation(e) && HeldBy(ValueOf(e).value).value.amount != 0.0
        && Pins(ValueOf(e).value.rows, contract) then ValueOf(e) else None
  }

  predicate HoldsGrant(es: seq<Entry>, contract: string, v: Value) {
    exists e | e in es :: GrantIn(e, contract) == Some(v)
  }

  // ---------------------------------------------------------------------------
  // The allocate handler

  const TOLERANCE := 0.000000001

  /** An output to issue: its pattern and what its declaration says. */
  datatype Output = Output(name: string, pattern: seq<Row>, held: Option<Held>, title: string)

  /**
   * What the handler answers: the issued grants, what each consumed handle holds afterwards, and the bank's next value.
   */
  datatype Answer = Answer(issued: seq<Value>, emptied: seq<Value>, bank: Bank)
  datatype Verdict = Accepted(answer: Answer) | Rejected

  predicate InputFits(bank: Bank, contract: string, v: Value) {
    && GrantOf(v, contract).Some? && GrantOf(v, contract).value.amount > 0.0
    && HoldsGrant(bank.entries, contract, v)
  }

  predicate OutputFits(contract: string, transfer: bool, o: Output) {
    && o.held.Some? && o.held.value.amount != 0.0 && (transfer ==> o.held.value.amount > 0.0)
    && Pins(o.pattern, contract)
  }

  function HeldOf(v: Value): Held { if HeldBy(v).Some? then HeldBy(v).value else Held(Shape("", ""), 0.0) }
  function DeclaredOf(o: Output): Held { if o.held.Some? then o.held.value else Held(Shape("", ""), 0.0) }

  function SumIn(vs: seq<Value>): real { if vs == [] then 0.0 else HeldOf(vs[0]).amount + SumIn(vs[1..]) }
  function SumOut(os: seq<Output>): real { if os == [] then 0.0 else DeclaredOf(os[0]).amount + SumOut(os[1..]) }

  function Abs(x: real): real { if x < 0.0 then -x else x }

  /** The one resource and unit an invocation moves. */
  function Moved(inputs: seq<Value>, outputs: seq<Output>): Shape
    requires outputs != []
  {
    if inputs != [] then HeldOf(inputs[0]).shape else DeclaredOf(outputs[0]).shape
  }

  /** Every check of an invocation. */
  predicate Fits(bank: Bank, inputs: seq<Value>, outputs: seq<Output>) {
    && ContractOf(bank).Some? && outputs != [] && Order.Distinct(inputs)
    && (forall v | v in inputs ::
        InputFits(bank, ContractOf(bank).value, v)
        && HeldOf(v).shape == Moved(inputs, outputs))
    && (forall o | o in outputs ::
        OutputFits(ContractOf(bank).value, inputs != [], o)
        && DeclaredOf(o).shape == Moved(inputs, outputs))
    && (inputs != [] ==> Abs(SumIn(inputs) - SumOut(outputs)) <= TOLERANCE)
  }

  function Issued(outputs: seq<Output>, contract: string, inputs: seq<Value>, nonces: seq<string>): seq<Value>
    requires |nonces| >= |outputs|
  {
    if outputs == [] then []
    else
        [GrantValue(outputs[0].pattern, contract, DeclaredOf(outputs[0]), nonces[0], inputs, outputs[0].title)]
        + Issued(outputs[1..], contract, inputs, nonces[1..])
  }

  function IssuedEntries(outputs: seq<Output>, issued: seq<Value>): seq<Entry>
    requires |issued| == |outputs|
  {
    if outputs == [] then [] else
        [Entry(outputs[0].pattern, Direct(issued[0]))]
        + IssuedEntries(outputs[1..], issued[1..])
  }

  lemma {:induction false} IssuedOne(outputs: seq<Output>, contract: string, inputs: seq<Value>, nonces: seq<string>)
    requires |nonces| >= |outputs|
    ensures |Issued(outputs, contract, inputs, nonces)| == |outputs|
    ensures forall i | 0 <= i < |outputs| :: Issued(outputs, contract, inputs, nonces)[i]
              == GrantValue(outputs[i].pattern, contract, DeclaredOf(outputs[i]), nonces[i], inputs, outputs[i].title)
  {
    if outputs != [] { IssuedOne(outputs[1..], contract, inputs, nonces[1..]); }
  }

  lemma {:induction false} IssuedEntriesAt(outputs: seq<Output>, issued: seq<Value>)
    requires |issued| == |outputs|
    ensures |IssuedEntries(outputs, issued)| == |outputs|
    ensures forall i | 0 <= i < |outputs| ::
            IssuedEntries(outputs, issued)[i]
            == Entry(outputs[i].pattern, Direct(issued[i]))
  {
    if outputs != [] { IssuedEntriesAt(outputs[1..], issued[1..]); }
  }

  /** The bank's rows without those whose own right is a consumed grant. */
  function Without(es: seq<Entry>, consumed: seq<Value>): seq<Entry> {
    if es == [] then []
    else
        (if IsAllocation(es[0]) && es[0].right.Direct? && es[0].right.value in consumed then [] else [es[0]])
        + Without(es[1..], consumed)
  }

  /** The pattern of plain grants of a resource, over the rows of the library's allocation capability. */
  function AllocationPattern(base: seq<Row>, shape: Shape, contract: string): seq<Row> {
    base + ((if shape.kind == "" then [] else [Kind(shape.kind)])
        + (if shape.unit == "" then [] else [Unit(shape.unit)]) + [Pin(contract)])
  }

  /** What the handles of consumed grants hold afterwards: grants of nothing. */
  function Emptied(base: seq<Row>, contract: string, inputs: seq<Value>, nonces: seq<string>): seq<Value>
    requires |nonces| >= |inputs|
  {
    if inputs == [] then []
    else [GrantValue(AllocationPattern(base, HeldOf(inputs[0]).shape, contract), contract,
        HeldOf(inputs[0]).(amount := 0.0), nonces[0], [inputs[0]], "consumed")]
         + Emptied(base, contract, inputs[1..], nonces[1..])
  }

  function Allocate(base: seq<Row>, bank: Bank, inputs: seq<Value>, outputs: seq<Output>, nonces: seq<string>): Verdict
    requires |nonces| >= |outputs| + |inputs|
  {
    if !Fits(bank, inputs, outputs) then Rejected
    else
      var contract := ContractOf(bank).value;
      var issued := Issued(outputs, contract, inputs, nonces[..|outputs|]);
      IssuedOne(outputs, contract, inputs, nonces[..|outputs|]);
      Accepted(Answer(issued, Emptied(base, contract, inputs, nonces[|outputs|..]),
        bank.(entries := Without(bank.entries, inputs) + IssuedEntries(outputs, issued))))
  }

  // ---------------------------------------------------------------------------
  // The handler, in place

  method CheckInputs(bank: Bank, contract: string, inputs: seq<Value>) returns (ok: bool)
    ensures ok <==> forall v | v in inputs :: InputFits(bank, contract, v)
  {
    for i := 0 to |inputs|
      invariant forall v | v in inputs[..i] :: InputFits(bank, contract, v)
    {
      assert inputs[..i + 1] == inputs[..i] + [inputs[i]];
      if !InputFits(bank, contract, inputs[i]) { return false; }
    }
    assert inputs[..|inputs|] == inputs;
    ok := true;
  }

  method CheckOutputs(contract: string, transfer: bool, outputs: seq<Output>) returns (ok: bool)
    ensures ok <==> forall o | o in outputs :: OutputFits(contract, transfer, o)
  {
    for i := 0 to |outputs|
      invariant forall o | o in outputs[..i] :: OutputFits(contract, transfer, o)
    {
      assert outputs[..i + 1] == outputs[..i] + [outputs[i]];
      if !OutputFits(contract, transfer, outputs[i]) { return false; }
    }
    assert outputs[..|outputs|] == outputs;
    ok := true;
  }

  /** Consumed and issued amounts are of one resource and unit. */
  method CheckShapes(shape: Shape, inputs: seq<Value>, outputs: seq<Output>) returns (ok: bool)
    ensures ok <==>
            (forall v | v in inputs :: HeldOf(v).shape == shape)
            && (forall o | o in outputs :: DeclaredOf(o).shape == shape)
  {
    for i := 0 to |inputs|
      invariant forall v | v in inputs[..i] :: HeldOf(v).shape == shape
    {
      assert inputs[..i + 1] == inputs[..i] + [inputs[i]];
      if HeldOf(inputs[i]).shape != shape { return false; }
    }
    assert inputs[..|inputs|] == inputs;
    for i := 0 to |outputs|
      invariant forall o | o in outputs[..i] :: DeclaredOf(o).shape == shape
    {
      assert outputs[..i + 1] == outputs[..i] + [outputs[i]];
      if DeclaredOf(outputs[i]).shape != shape { return false; }
    }
    assert outputs[..|outputs|] == outputs;
    ok := true;
  }

  method CheckSums(inputs: seq<Value>, outputs: seq<Output>) returns (ok: bool)
    ensures ok <==> Abs(SumIn(inputs) - SumOut(outputs)) <= TOLERANCE
  {
    var consumed, issued := 0.0, 0.0;
    for i := 0 to |inputs|
      invariant consumed + SumIn(inputs[i..]) == SumIn(inputs)
    {
      assert inputs[i..][1..] == inputs[i + 1..];
      consumed := consumed + HeldOf(inputs[i]).amount;
    }
    for i := 0 to |outputs|
      invariant issued + SumOut(outputs[i..]) == SumOut(outputs)
    {
      assert outputs[i..][1..] == outputs[i + 1..];
      issued := issued + DeclaredOf(outputs[i]).amount;
    }
    ok := Abs(consumed - issued) <= TOLERANCE;
  }

  method CheckInvocation(bank: Bank, inputs: seq<Value>, outputs: seq<Output>) returns (ok: bool)
    ensures ok <==> Fits(bank, inputs, outputs)
  {
    if ContractOf(bank).None? || outputs == [] || !Order.Distinct(inputs) { return false; }
    var contract := ContractOf(bank).value;
    ok := CheckInputs(bank, contract, inputs);
    if !ok { return; }
    ok := CheckOutputs(contract, inputs != [], outputs);
    if !ok { return; }
    ok := CheckShapes(Moved(inputs, outputs), inputs, outputs);
    if !ok || inputs == [] { return; }
    ok := CheckSums(inputs, outputs);
  }

  /** The issued grants, and the bank's rows for them. */
  method Issue(outputs: seq<Output>, contract: string, inputs: seq<Value>, nonces: seq<string>)
      returns (issued: seq<Value>, rows: seq<Entry>)
    requires |nonces| == |outputs|
    ensures issued == Issued(outputs, contract, inputs, nonces)
    ensures |issued| == |outputs| && rows == IssuedEntries(outputs, issued)
  {
    issued, rows := [], [];
    ghost var whole := Issued(outputs, contract, inputs, nonces);
    IssuedLength(outputs, contract, inputs, nonces);
    ghost var entries := IssuedEntries(outputs, whole);
    for i := 0 to |outputs|
      invariant issued == whole[..i] && |whole| == |entries| == |outputs| && rows == entries[..i]
    {
      IssuedGrant(outputs, contract, inputs, nonces, i);
      IssuedEntry(outputs, whole, i);
      OneMore(whole, i);
      OneMore(entries, i);
      var grant := GrantValue(outputs[i].pattern, contract, DeclaredOf(outputs[i]), nonces[i], inputs,
          outputs[i].title);
      issued := issued + [grant];
      rows := rows + [Entry(outputs[i].pattern, Direct(grant))];
    }
    assert whole[..|outputs|] == whole && entries[..|outputs|] == entries;
  }

  lemma IssuedLength(outputs: seq<Output>, contract: string, inputs: seq<Value>, nonces: seq<string>)
    requires |nonces| >= |outputs|
    ensures |Issued(outputs, contract, inputs, nonces)| == |outputs|
            == |IssuedEntries(outputs, Issued(outputs, contract, inputs, nonces))|
  {
    IssuedOne(outputs, contract, inputs, nonces);
    IssuedEntriesAt(outputs, Issued(outputs, contract, inputs, nonces));
  }

  lemma {:induction false} IssuedGrant(outputs: seq<Output>, contract: string, inputs: seq<Value>, nonces: seq<string>,
      i: nat)
    requires i < |outputs| <= |nonces| && |Issued(outputs, contract, inputs, nonces)| == |outputs|
    ensures Issued(outputs, contract, inputs, nonces)[i]
            == GrantValue(outputs[i].pattern, contract, DeclaredOf(outputs[i]), nonces[i], inputs, outputs[i].title)
  {
    IssuedOne(outputs, contract, inputs, nonces);
  }

  lemma {:induction false} IssuedEntry(outputs: seq<Output>, issued: seq<Value>, i: nat)
    requires i < |outputs| == |issued| && |IssuedEntries(outputs, issued)| == |outputs|
    ensures IssuedEntries(outputs, issued)[i] == Entry(outputs[i].pattern, Direct(issued[i]))
  {
    IssuedEntriesAt(outputs, issued);
  }

  /** What each consumed handle is proposed to hold. */
  method Empty(base: seq<Row>, contract: string, inputs: seq<Value>, nonces: seq<string>) returns (emptied: seq<Value>)
    requires |nonces| >= |inputs|
    ensures emptied == Emptied(base, contract, inputs, nonces)
  {
    emptied := [];
    for i := 0 to |inputs|
      invariant emptied + Emptied(base, contract, inputs[i..], nonces[i..]) == Emptied(base, contract, inputs, nonces)
    {
      assert inputs[i..][1..] == inputs[i + 1..] && nonces[i..][1..] == nonces[i + 1..];
      var held := HeldOf(inputs[i]);
      emptied := emptied + [GrantValue(AllocationPattern(base, held.shape, contract), contract, held.(amount := 0.0),
          nonces[i], [inputs[i]], "consumed")];
    }
  }

  method AllocatePrimitive(base: seq<Row>, bank: Bank, inputs: seq<Value>, outputs: seq<Output>, nonces: seq<string>)
      returns (r: Verdict)
    requires |nonces| >= |outputs| + |inputs|
    ensures r == Allocate(base, bank, inputs, outputs, nonces)
  {
    var ok := CheckInvocation(bank, inputs, outputs);
    if !ok { return Rejected; }
    var contract := ContractOf(bank).value;
    var issued, rows := Issue(outputs, contract, inputs, nonces[..|outputs|]);
    var emptied := Empty(base, contract, inputs, nonces[|outputs|..]);
    r := Accepted(Answer(issued, emptied, bank.(entries := Without(bank.entries, inputs) + rows)));
  }

  // ---------------------------------------------------------------------------
  // Planning

  datatype Plan = Plan(inputs: seq<Value>, outputs: seq<Output>)

  /**
   * The invocation that uses `amount` of a grant: the amount used, and the remainder when there is more than the
   * tolerance of it.
   */
  function UsePlan(base: seq<Row>, contract: string, grant: Value, amount: real): Plan {
    var held := HeldOf(grant);
    var pattern, rest := AllocationPattern(base, held.shape, contract), held.amount - amount;
    Plan([grant], [Output("out0", pattern, Some(held.(amount := amount)), "Used")]
                  + if rest > TOLERANCE then [Output("out1", pattern, Some(held.(amount := rest)), "remaining")]
                      else [])
  }

  /** None where the code refuses: nothing to use, or more than the grant holds beyond the tolerance. */
  function Consume(base: seq<Row>, contract: string, grant: Value, amount: real): Option<Plan> {
    if amount <= 0.0 || amount > HeldOf(grant).amount + TOLERANCE then None
        else Some(UsePlan(base, contract, grant, amount))
  }
}
