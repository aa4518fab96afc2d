/** The content-addressed node table every operation of the graph reads and grows. */
module Store {
  import opened Graph

  datatype Result<+T> = Ok(value: T) | Err(message: string)

  type Table = map<Cid, Content>

  ghost predicate RowsIn(table: Table, es: seq<Edge>) {
    forall e | e in es :: e.left in table && e.right in table
  }

  /** Every node is filed under its own cid and every edge resolves. */
  ghost predicate Closed(table: Table) {
    forall c | c in table :: table[c] == c.content && RowsIn(table, c.content.children)
  }

  predicate IsChild(parent: Cid, c: Cid) {
    exists e | e in parent.content.children :: e.left == c || e.right == c
  }

  /** `path` leads from its first node to its last along edges. */
  ghost predicate IsPath(path: seq<Cid>) {
    path != [] && forall i | 0 < i < |path| :: IsChild(path[i - 1], path[i])
  }

  /** Whatever can be reached from a node of a closed table is in the table. */
  lemma {:induction false} ReachedIsIn(table: Table, path: seq<Cid>)
    requires Closed(table) && IsPath(path) && path[0] in table
    ensures path[|path| - 1] in table
  {
    if |path| > 1 {
      ReachedIsIn(table, path[..|path| - 1]);
      assert IsChild(path[|path| - 2], path[|path| - 1]);
    }
  }

  /** Tables that agree on cids agree on nodes: two closed tables merge into one. */
  lemma ClosedUnion(a: Table, b: Table)
    requires Closed(a) && Closed(b)
    ensures Closed(a + b)
    ensures forall c | c in a && c in b :: a[c] == b[c]
  {}

  predicate Matches(nodes: seq<(Cid, Content)>) { forall n | n in nodes :: n.0.content == n.1 }

  ghost predicate Resolves(nodes: seq<(Cid, Content)>) {
    forall n, e | n in nodes && e in n.1.children :: Names(nodes, e.left) && Names(nodes, e.right)
  }

  predicate Names(nodes: seq<(Cid, Content)>, c: Cid) { exists n | n in nodes :: n.0 == c }

  class FosStore {
    var table: Table

    constructor ()
      ensures table == map[]
    {
      table := map[];
    }

    /** Insert content whose edges resolve here. */
    method PutNode(value: Content) returns (r: Result<Cid>)
      requires Closed(table)
      modifies this
      ensures Closed(table)
      ensures r.Ok? <==> RowsIn(old(table), value.children)
      ensures r.Ok? ==> r.value == Cid(value) && table.Keys == old(table).Keys + {Cid(value)}
      ensures r.Err? ==> table == old(table)
    {
      for i := 0 to |value.children|
        invariant RowsIn(table, value.children[..i])
        invariant table == old(table)
      {
        var e := value.children[i];
        if e.left !in table || e.right !in table { return Err("edge to missing node"); }
      }
      assert value.children[..|value.children|] == value.children;
      if Cid(value) !in table { table := table[Cid(value) := value]; }
      r := Ok(Cid(value));
    }

    /** `PutNode` where the caller knows the edges resolve. */
    method Put(value: Content) returns (cid: Cid)
      requires Closed(table) && RowsIn(table, value.children)
      modifies this
      ensures Closed(table)
      ensures cid == Cid(value) && table.Keys == old(table).Keys + {Cid(value)}
    {
      var r := PutNode(value);
      cid := r.value;
    }
  }

  /**
   * A store over loaded nodes: refused when a node is not filed under its own cid, an edge does not resolve or the root
   * is missing.
   */
  method StoreOf(nodes: seq<(Cid, Content)>, root: Cid) returns (r: Result<FosStore>)
    ensures r.Ok? <==> Matches(nodes) && Resolves(nodes) && Names(nodes, root)
    ensures r.Ok? ==> fresh(r.value) && Closed(r.value.table) && root in r.value.table
    ensures r.Ok? ==> forall c :: c in r.value.table <==> Names(nodes, c)
  {
    var store := new FosStore();
    for i := 0 to |nodes|
      invariant Matches(nodes[..i])
      invariant forall c :: c in store.table <==> Names(nodes[..i], c)
      invariant forall c | c in store.table :: store.table[c] == c.content
    {
      var (cid, node) := nodes[i];
      assert nodes[..i + 1] == nodes[..i] + [nodes[i]];
      if cid.content != node {
        assert nodes[i] in nodes;
        return Err("node does not match its content");
      }
      store.table := store.table[cid := node];
    }
    assert nodes[..|nodes|] == nodes;
    for i := 0 to |nodes|
      invariant forall n, e | n in nodes[..i] && e in n.1.children :: e.left in store.table && e.right in store.table
    {
      var rows := nodes[i].1.children;
      for j := 0 to |rows|
        invariant RowsIn(store.table, rows[..j])
      {
        if rows[j].left !in store.table || rows[j].right !in store.table {
          assert nodes[i] in nodes && rows[j] in nodes[i].1.children;
          return Err("edge to missing node");
        }
      }
      assert rows[..|rows|] == rows;
      assert nodes[..i + 1] == nodes[..i] + [nodes[i]];
    }
    if root !in store.table { return Err("root node not found"); }
    r := Ok(store);
  }
}
