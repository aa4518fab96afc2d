/** Each step once, after what it refers to unless that refers back, and children before parents when nothing refers. */
module ExecutionOrderLaws {
  import opened Options
  import opened ExecutionOrder
  import Order

  /** `path` follows references. */
  ghost predicate IsPath(g: Graph, path: seq<nat>) {
    path != [] && forall k | 0 <= k < |path| - 1 :: path[k] < |g| && path[k + 1] in g[path[k]]
  }

  /** `a` is `b`, or refers to it, directly or through others. */
  ghost predicate Reaches(g: Graph, a: nat, b: nat) {
    exists path :: IsPath(g, path) && path[0] == a && path[|path| - 1] == b
  }

  lemma ReachesItself(g: Graph, a: nat)
    ensures Reaches(g, a, a)
  {
    assert IsPath(g, [a]) && [a][0] == a && [a][|[a]| - 1] == a;
  }

  lemma ReachesOn(g: Graph, a: nat, b: nat, c: nat)
    requires Reaches(g, a, b) && b < |g| && c in g[b]
    ensures Reaches(g, a, c)
  {
    var path :| IsPath(g, path) && path[0] == a && path[|path| - 1] == b;
    var longer := path + [c];
    assert IsPath(g, longer) && longer[0] == a && longer[|longer| - 1] == c;
  }

  // ---------------------------------------------------------------------------
  // Every step once, dependencies first

  /** What step `x` refers to stands in `before`, or refers back to it. */
  ghost predicate Ready(g: Graph, before: seq<nat>, x: nat)
    requires x < |g|
  {
    forall d | d in g[x] :: d in before || Reaches(g, d, x)
  }

  ghost predicate IsOrder(g: Graph, order: seq<nat>) {
    && Order.Distinct(order)
    && (forall x | x in order :: x < |g|)
    && (forall k | 0 <= k < |order| && order[k] < |g| :: Ready(g, order[..k], order[k]))
  }

  ghost predicate Sound(g: Graph, s: State) {
    IsOrder(g, s.order) && forall v | v in s.visiting :: v !in s.order
  }

  /** Everything being visited waits, directly or not, for `i`. */
  ghost predicate WaitFor(g: Graph, s: State, i: nat) { forall v | v in s.visiting :: Reaches(g, v, i) }

  lemma Append(g: Graph, order: seq<nat>, i: nat)
    requires IsOrder(g, order) && i < |g| && i !in order && Ready(g, order, i)
    ensures IsOrder(g, order + [i])
  {
    var longer := order + [i];
    assert forall x | x in longer :: x in order || x == i;
    forall k | 0 <= k < |longer| && longer[k] < |g| ensures Ready(g, longer[..k], longer[k]) {
      assert longer[..k] == order[..k] && longer[k] in longer;
      if k == |order| { assert order[..k] == order; }
    }
  }

  lemma InPrefix(a: seq<nat>, b: seq<nat>)
    requires a <= b
    ensures forall x | x in a :: x in b
  {
    assert b == a + b[|a|..];
  }

  lemma HeadOrTail(ds: seq<nat>)
    requires ds != []
    ensures forall d | d in ds :: d == ds[0] || d in ds[1..]
  {
    assert ds == [ds[0]] + ds[1..];
  }

  lemma {:induction false} PlaceLaw(g: Graph, s: State, i: nat)
    requires IsGraph(g) && i < |g| && Sound(g, s) && WaitFor(g, s, i)
    ensures Sound(g, Place(g, s, i))
    ensures i in Place(g, s, i).order || i in s.visiting
    decreases |Left(g, s)|, 0, 0
  {
    if i !in s.order && i !in s.visiting {
      Entered(g, s, i);
      ReachesItself(g, i);
      var entered := s.(visiting := s.visiting + {i});
      PlaceAllLaw(g, entered, g[i], i);
      var inside := PlaceAll(g, entered, g[i]);
      Append(g, inside.order, i);
    }
  }

  lemma {:induction false} PlaceAllLaw(g: Graph, s: State, ds: seq<nat>, i: nat)
    requires IsGraph(g) && InGraph(g, ds) && i < |g| && i in s.visiting && (forall d | d in ds :: d in g[i])
    requires Sound(g, s) && WaitFor(g, s, i)
    ensures Sound(g, PlaceAll(g, s, ds))
    ensures forall d | d in ds :: d in PlaceAll(g, s, ds).order || d in s.visiting
    decreases |Left(g, s)|, 1, |ds|
  {
    if ds != [] {
      InTail(g, ds);
      forall v | v in s.visiting ensures Reaches(g, v, ds[0]) { ReachesOn(g, v, i, ds[0]); }
      PlaceLaw(g, s, ds[0]);
      var next := Place(g, s, ds[0]);
      LeftShrinks(g, s, next);
      PlaceAllLaw(g, next, ds[1..], i);
      InPrefix(next.order, PlaceAll(g, next, ds[1..]).order);
      HeadOrTail(ds);
    }
  }

  lemma {:induction false} PlaceFromLaw(g: Graph, s: State, n: nat)
    requires IsGraph(g) && n <= |g| && Sound(g, s) && s.visiting == {}
    requires forall i | n <= i < |g| :: i in s.order
    ensures IsOrder(g, PlaceFrom(g, s, n).order)
    ensures forall i | 0 <= i < |g| :: i in PlaceFrom(g, s, n).order
    decreases n
  {
    if n > 0 {
      PlaceLaw(g, s, n - 1);
      InPrefix(s.order, Place(g, s, n - 1).order);
      PlaceFromLaw(g, Place(g, s, n - 1), n - 1);
    }
  }

  /**
   * Whatever the references, every step is run exactly once, and each step runs after every step it refers to, except
   * those that in turn refer back to it.
   */
  lemma OrderIsComplete(g: Graph)
    requires IsGraph(g)
    ensures Order.Distinct(OrderOf(g)) && (forall i :: i in OrderOf(g) <==> 0 <= i < |g|)
    ensures forall k | 0 <= k < |OrderOf(g)| :: 0 <= OrderOf(g)[k] < |g| && Ready(g, OrderOf(g)[..k], OrderOf(g)[k])
  {
    PlaceFromLaw(g, State([], {}), |g|);
    forall k | 0 <= k < |OrderOf(g)| ensures OrderOf(g)[k] < |g| && Ready(g, OrderOf(g)[..k], OrderOf(g)[k]) {
      assert OrderOf(g)[k] in OrderOf(g);
    }
  }

  ghost predicate Acyclic(g: Graph) {
    forall i, d | 0 <= i < |g| && d in g[i] :: !Reaches(g, d, i)
  }

  ghost predicate DependenciesFirst(g: Graph, order: seq<nat>) {
    forall k, d | 0 <= k < |order| && order[k] < |g| && d in g[order[k]] :: d in order[..k]
  }

  /** Along a path of references, every step runs before the one that refers to it. */
  lemma {:induction false} PathRunsBackwards(g: Graph, order: seq<nat>, path: seq<nat>, k: nat)
    requires DependenciesFirst(g, order) && IsPath(g, path) && k < |order| && order[k] == path[0]
    ensures path[|path| - 1] in order[..k + 1]
  {
    if |path| == 1 {
      assert order[..k + 1][k] == path[0];
    } else {
      assert path[1] in g[path[0]];
      assert path[1] in order[..k];
      var j :| 0 <= j < k && order[..k][j] == path[1];
      var rest := path[1..];
      forall m | 0 <= m < |rest| - 1 ensures rest[m] < |g| && rest[m + 1] in g[rest[m]] {
        assert path[m + 1] < |g| && path[m + 2] in g[path[m + 1]];
      }
      PathRunsBackwards(g, order, rest, j);
      assert rest[|rest| - 1] == path[|path| - 1];
      assert order[..k + 1][..j + 1] == order[..j + 1];
    }
  }

  /** Every step runs after all it refers to exactly when no steps refer to each other in a circle. */
  lemma RunsAfterDependencies(g: Graph)
    requires IsGraph(g)
    ensures DependenciesFirst(g, OrderOf(g)) <==> Acyclic(g)
  {
    var order := OrderOf(g);
    OrderIsComplete(g);
    if DependenciesFirst(g, order) {
      forall i, d | 0 <= i < |g| && d in g[i] ensures !Reaches(g, d, i) {
        assert i in order;
        var k :| 0 <= k < |order| && order[k] == i;
        assert d in order[..k];
        var j :| 0 <= j < k && order[..k][j] == d;
        if Reaches(g, d, i) {
          var path :| IsPath(g, path) && path[0] == d && path[|path| - 1] == i;
          PathRunsBackwards(g, order, path, j);
          assert false;
        }
      }
    }
    if Acyclic(g) {
      forall k, d | 0 <= k < |order| && order[k] < |g| && d in g[order[k]] ensures d in order[..k] {
        assert Ready(g, order[..k], order[k]);
      }
    }
  }

  // ---------------------------------------------------------------------------
  // Without references

  function Backwards(n: nat): (r: seq<nat>)
    ensures |r| == n && forall k | 0 <= k < n :: r[k] == n - 1 - k
  {
    if n == 0 then [] else [n - 1] + Backwards(n - 1)
  }

  lemma {:induction false} PlaceFromBackwards(g: Graph, s: State, n: nat)
    requires IsGraph(g) && n <= |g| && s.visiting == {} && (forall i | 0 <= i < |g| :: g[i] == [])
    requires forall x | x in s.order :: x >= n
    ensures PlaceFrom(g, s, n).order == s.order + Backwards(n)
    decreases n
  {
    if n > 0 {
      assert Place(g, s, n - 1) == State(s.order + [n - 1], {});
      PlaceFromBackwards(g, State(s.order + [n - 1], {}), n - 1);
    }
  }

  /** Without references between them, steps run last to first. */
  lemma UnrelatedRunBackwards(g: Graph)
    requires IsGraph(g) && forall i | 0 <= i < |g| :: g[i] == []
    ensures OrderOf(g) == Backwards(|g|)
  {
    PlaceFromBackwards(g, State([], {}), |g|);
    assert [] + Backwards(|g|) == Backwards(|g|);
  }

  // ---------------------------------------------------------------------------
  // The steps of a node

  /** Rows of one node have different ids. */
  predicate DistinctIds(row: Row) {
    && (forall i, k | 0 <= i < k < |row.rows| :: row.rows[i].id != row.rows[k].id)
    && (forall i | 0 <= i < |row.rows| :: DistinctIds(row.rows[i]))
  }

  predicate From(steps: seq<Step>, n: nat, at: seq<string>) { forall k | n <= k < |steps| :: at <= steps[k].path }

  /** From `n` on, no step is above, or the same row as, an earlier one. */
  predicate ParentsFirst(steps: seq<Step>, n: nat) {
    forall i, k | n <= i < k < |steps| :: !(steps[k].path <= steps[i].path)
  }

  predicate WithinDepth(steps: seq<Step>, n: nat, length: nat) {
    forall k | n <= k < |steps| :: |steps[k].path| <= length
  }

  lemma {:induction false} WalkLaw(row: Row, at: seq<string>, depth: nat, steps: seq<Step>)
    requires DistinctIds(row) && Walk(row, at, depth, steps).Some?
    ensures var r := Walk(row, at, depth, steps).value;
            steps <= r && |r| <= MAX_STEPS && From(r, |steps|, at) && ParentsFirst(r, |steps|)
                && WithinDepth(r, |steps|, |at| + MAX_DEPTH - depth)
    decreases row, 1, 0
  {
    if !(row.kind.template || row.kind.reference || (depth > 0 && row.kind.own)) {
      var with := if depth == 0 || row.kind.executable then steps + [Step(at, row.refs)] else steps;
      if !(depth > 0 && row.kind.satisfied) { WalkRowsLaw(row, 0, at, depth, with, |steps|); }
    }
  }

  /** The steps from `n` so far are the row itself, perhaps, and steps below its first `i` rows. */
  predicate Below(steps: seq<Step>, n: nat, row: Row, i: nat, at: seq<string>) {
    forall k | n <= k < |steps| :: steps[k].path == at || exists j | 0 <= j < i && j < |row.rows| ::
        at + [row.rows[j].id] <= steps[k].path
  }

  lemma {:induction false} WalkRowsLaw(row: Row, i: nat, at: seq<string>, depth: nat, steps: seq<Step>, n: nat)
    requires DistinctIds(row) && i <= |row.rows| && n <= |steps| <= MAX_STEPS && depth <= MAX_DEPTH
            && WalkRows(row, i, at, depth, steps).Some?
    requires From(steps, n, at) && ParentsFirst(steps, n) && WithinDepth(steps, n, |at| + MAX_DEPTH - depth)
            && Below(steps, n, row, i, at)
    ensures var r := WalkRows(row, i, at, depth, steps).value;
            steps <= r && |r| <= MAX_STEPS && From(r, n, at) && ParentsFirst(r, n)
                && WithinDepth(r, n, |at| + MAX_DEPTH - depth)
    decreases row, 0, |row.rows| - i
  {
    if i < |row.rows| {
      var child := at + [row.rows[i].id];
      WalkLaw(row.rows[i], child, depth + 1, steps);
      var next := Walk(row.rows[i], child, depth + 1, steps).value;
      ChildSteps(row, i, at, steps, next, n);
      WalkRowsLaw(row, i + 1, at, depth, next, n);
    }
  }

  lemma ChildSteps(row: Row, i: nat, at: seq<string>, steps: seq<Step>, next: seq<Step>, n: nat)
    requires DistinctIds(row) && i < |row.rows| && n <= |steps| && steps <= next
    requires From(steps, n, at) && ParentsFirst(steps, n) && Below(steps, n, row, i, at)
    requires From(next, |steps|, at + [row.rows[i].id]) && ParentsFirst(next, |steps|)
    ensures From(next, n, at) && ParentsFirst(next, n) && Below(next, n, row, i + 1, at)
  {
    var child := at + [row.rows[i].id];
    forall k | n <= k < |next| ensures at <= next[k].path {
      if k < |steps| { assert next[k] == steps[k]; }
    }
    forall k | n <= k < |next|
      ensures next[k].path == at || exists j | 0 <= j < i + 1 && j < |row.rows| :: at + [row.rows[j].id] <= next[k].path
    {
      if k < |steps| { assert next[k] == steps[k]; }
    }
    forall a, b | n <= a < b < |next| ensures !(next[b].path <= next[a].path) {
      if a < |steps| { assert next[a] == steps[a]; }
      if b < |steps| { assert next[b] == steps[b]; }
      if a < |steps| <= b && next[b].path <= next[a].path { Apart(row, i, at, next[a].path, next[b].path); }
    }
  }

  /** A path below one row is not the path of the node or of anything below an earlier row. */
  lemma Apart(row: Row, i: nat, at: seq<string>, early: seq<string>, late: seq<string>)
    requires DistinctIds(row) && i < |row.rows| && at + [row.rows[i].id] <= late
    requires early == at || exists j | 0 <= j < i && j < |row.rows| :: at + [row.rows[j].id] <= early
    ensures !(late <= early)
  {
    if early != at {
      var j :| 0 <= j < i && j < |row.rows| && at + [row.rows[j].id] <= early;
      assert early[|at|] == (at + [row.rows[j].id])[|at|] == row.rows[j].id;
      assert late[|at|] == (at + [row.rows[i].id])[|at|] == row.rows[i].id;
    }
  }

  /** An evaluation has at most 1,000 steps, at most 64 levels down, each listed before the steps below it. */
  lemma StepsOfANode(row: Row, at: seq<string>)
    requires DistinctIds(row) && Walk(row, at, 0, []).Some?
    ensures var steps := Walk(row, at, 0, []).value;
            |steps| <= MAX_STEPS && WithinDepth(steps, 0, |at| + MAX_DEPTH) && From(steps, 0, at)
                && ParentsFirst(steps, 0)
  {
    WalkLaw(row, at, 0, []);
  }

  /** When no step refers to another, the rows below a step run before it. */
  lemma ChildrenRunFirst(row: Row, at: seq<string>, parent: nat, child: nat)
    requires DistinctIds(row) && Walk(row, at, 0, []).Some?
    requires var steps := Walk(row, at, 0, []).value;
             && parent < |steps| && child < |steps| && steps[parent].path < steps[child].path
             && forall i | 0 <= i < |steps| :: GraphOf(steps)[i] == []
    ensures var order := OrderOf(GraphOf(Walk(row, at, 0, []).value));
            0 <= |order| - 1 - child < |order| - 1 - parent < |order|
            && order[|order| - 1 - parent] == parent && order[|order| - 1 - child] == child
  {
    StepsOfANode(row, at);
    UnrelatedRunBackwards(GraphOf(Walk(row, at, 0, []).value));
  }
}
