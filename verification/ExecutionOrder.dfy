/** The order an evaluation runs its steps in: dependencies first, later rows first, each step once. */
module ExecutionOrder {
  import opened Options
  import opened Sequences
  import Order

  /**
   * A step: the path of its row, and the row ids its own rows refer to, by identity or as the head of a property path.
   */
  datatype Step = Step(path: seq<string>, refs: seq<string>)

  // ---------------------------------------------------------------------------
  // The rows that are steps

  /** What a row is, as far as walking it for steps goes. */
  datatype Kind = Kind(template: bool, reference: bool, own: bool, gone: bool, conflicting: bool, executable: bool,
      satisfied: bool)

  /**
   * A row below the evaluated node, with what its own rows refer to. `own` rows are settings, journals, attempts and
   * triggers.
   */
  datatype Row = Row(id: string, kind: Kind, refs: seq<string>, rows: seq<Row>)

  const MAX_DEPTH := 64
  const MAX_STEPS := 1000

  /** `steps` followed by the steps of a row and the rows below it, parents first; None where the walk gives up. */
  function Walk(row: Row, at: seq<string>, depth: nat, steps: seq<Step>): (r: Option<seq<Step>>)
    decreases row, 1, 0
  {
    if depth > MAX_DEPTH || |steps| >= MAX_STEPS then None
    else if row.kind.template || row.kind.reference || (depth > 0 && row.kind.own) then Some(steps)
    else if row.kind.gone || row.kind.conflicting then None
    else
      var with := if depth == 0 || row.kind.executable then steps + [Step(at, row.refs)] else steps;
      if depth > 0 && row.kind.satisfied then Some(with) else WalkRows(row, 0, at, depth, with)
  }

  function WalkRows(row: Row, i: nat, at: seq<string>, depth: nat, steps: seq<Step>): Option<seq<Step>>
    requires i <= |row.rows|
    decreases row, 0, |row.rows| - i
  {
    if i == |row.rows| then Some(steps)
    else
      match Walk(row.rows[i], at + [row.rows[i].id], depth + 1, steps)
      case None => None
      case Some(next) => WalkRows(row, i + 1, at, depth, next)
  }

  // ---------------------------------------------------------------------------
  // References between steps

  /** The step a row id names: the last step whose path ends in it. */
  function StepOf(steps: seq<Step>, id: string): Option<nat> {
    if steps == [] then None
    else if |steps[|steps| - 1].path| > 0 && steps[|steps| - 1].path[|steps[|steps| - 1].path| - 1] == id
        then Some(|steps| - 1)
    else StepOf(steps[..|steps| - 1], id)
  }

  lemma {:induction false} StepOfBound(steps: seq<Step>, id: string)
    ensures StepOf(steps, id).Some? ==> StepOf(steps, id).value < |steps|
  {
    if steps != [] { StepOfBound(steps[..|steps| - 1], id); }
  }

  /** The other steps that the first `k` references of step `i` name, each once, in order of reference. */
  function Dependencies(steps: seq<Step>, i: nat, k: nat): (r: seq<nat>)
    requires i < |steps| && k <= |steps[i].refs|
    ensures forall d | d in r :: d < |steps| && d != i
  {
    if k == 0 then []
    else
      var before, target := Dependencies(steps, i, k - 1), StepOf(steps, steps[i].refs[k - 1]);
      StepOfBound(steps, steps[i].refs[k - 1]);
      if target.Some? && target.value != i && target.value !in before then before + [target.value] else before
  }

  type Graph = seq<seq<nat>>

  predicate InGraph(g: Graph, ds: seq<nat>) { forall d | d in ds :: d < |g| }

  predicate IsGraph(g: Graph) { forall i | 0 <= i < |g| :: InGraph(g, g[i]) }

  function GraphOf(steps: seq<Step>): (g: Graph)
    ensures IsGraph(g) && |g| == |steps|
  {
    seq(|steps|, i requires 0 <= i < |steps| => Dependencies(steps, i, |steps[i].refs|))
  }

  // ---------------------------------------------------------------------------
  // Placing, as a function

  datatype State = State(order: seq<nat>, visiting: set<nat>)

  function Below(n: nat): (r: set<nat>)
    ensures forall i: nat :: i in r <==> i < n
  {
    if n == 0 then {} else Below(n - 1) + {n - 1}
  }

  /** The indices that can still be entered. */
  function Left(g: Graph, s: State): set<nat> { Below(|g|) - s.visiting - Order.Elements(s.order) }

  predicate Grows(s: State, r: State) { s.order <= r.order && r.visiting == s.visiting }

  function Place(g: Graph, s: State, i: nat): (r: State)
    requires IsGraph(g) && i < |g|
    ensures Grows(s, r)
    decreases |Left(g, s)|, 0, 0
  {
    if i in s.order || i in s.visiting then s
    else
      Entered(g, s, i);
      var inside := PlaceAll(g, s.(visiting := s.visiting + {i}), g[i]);
      State(inside.order + [i], s.visiting)
  }

  lemma Entered(g: Graph, s: State, i: nat)
    requires i < |g| && i !in s.order && i !in s.visiting
    ensures |Left(g, s.(visiting := s.visiting + {i}))| < |Left(g, s)|
  {
    assert i in Left(g, s) && Left(g, s.(visiting := s.visiting + {i})) == Left(g, s) - {i};
  }

  lemma InTail(g: Graph, ds: seq<nat>)
    requires InGraph(g, ds) && ds != []
    ensures ds[0] < |g| && InGraph(g, ds[1..])
  {
    assert forall d | d in ds[1..] :: d in ds;
    assert ds[0] in ds;
  }

  function PlaceAll(g: Graph, s: State, ds: seq<nat>): (r: State)
    requires IsGraph(g) && InGraph(g, ds)
    ensures Grows(s, r)
    decreases |Left(g, s)|, 1, |ds|
  {
    if ds == [] then s
    else
      InTail(g, ds);
      var next := Place(g, s, ds[0]);
      LeftShrinks(g, s, next);
      PlaceAll(g, next, ds[1..])
  }

  lemma LeftShrinks(g: Graph, s: State, r: State)
    requires Grows(s, r)
    ensures |Left(g, r)| <= |Left(g, s)|
  {
    Fewer(Left(g, r), Left(g, s));
  }

  /** From the last step to the first. */
  function PlaceFrom(g: Graph, s: State, n: nat): State
    requires IsGraph(g) && n <= |g|
    decreases n
  {
    if n == 0 then s else PlaceFrom(g, Place(g, s, n - 1), n - 1)
  }

  function OrderOf(g: Graph): seq<nat>
    requires IsGraph(g)
  {
    PlaceFrom(g, State([], {}), |g|).order
  }

  // ---------------------------------------------------------------------------
  // Placing, in place

  class Placement {
    var order: seq<nat>
    var placed: set<nat>
    var visiting: set<nat>

    ghost predicate Valid()
      reads this
    {
      placed == Order.Elements(order)
    }

    ghost function Abstract(): State
      reads this
    {
      State(order, visiting)
    }

    constructor ()
      ensures Valid() && Abstract() == State([], {})
    {
      order, placed, visiting := [], {}, {};
    }

    method Enter(g: Graph, i: nat)
      requires Valid() && IsGraph(g) && i < |g|
      modifies this
      decreases |Left(g, Abstract())|, 0, 0
      ensures Valid() && Abstract() == Place(g, old(Abstract()), i)
    {
      if i in placed || i in visiting { return; }
      Entered(g, Abstract(), i);
      visiting := visiting + {i};
      ghost var inside := Abstract();
      var k := 0;
      while k < |g[i]|
        invariant 0 <= k <= |g[i]| && Valid() && Grows(inside, Abstract())
        invariant InGraph(g, g[i][k..]) && PlaceAll(g, inside, g[i]) == PlaceAll(g, Abstract(), g[i][k..])
      {
        LeftShrinks(g, inside, Abstract());
        InTail(g, g[i][k..]);
        assert g[i][k..][0] == g[i][k] && g[i][k..][1..] == g[i][k + 1..];
        Enter(g, g[i][k]);
        k := k + 1;
      }
      visiting := visiting - {i};
      placed := placed + {i};
      order := order + [i];
      assert visiting == old(visiting);
    }
  }

  method ExecutionOrder(steps: seq<Step>) returns (order: seq<nat>)
    ensures order == OrderOf(GraphOf(steps))
  {
    var g := GraphOf(steps);
    var placement := new Placement();
    var index := |steps|;
    while index > 0
      invariant 0 <= index <= |steps| && placement.Valid()
      invariant PlaceFrom(g, State([], {}), |g|) == PlaceFrom(g, placement.Abstract(), index)
    {
      index := index - 1;
      placement.Enter(g, index);
    }
    order := placement.order;
  }
}
