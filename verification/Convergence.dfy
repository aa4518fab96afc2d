/**
 * What a merge means. A node stands for a tree: its data without the time of its last edit, its rows by key, and for a
 * ref its value and bookkeeping without its history. Where the two sides edit different things, merging contents is
 * patching trees.
 */
module Convergence {
  import opened Options
  import opened Json
  import opened Graph
  import opened Merge
  import opened MergeLaws

  // ---------------------------------------------------------------------------
  // Trees and patches

  datatype Row = Row(left: Cid, tree: Tree)
  datatype Tree = Tree(isRef: bool, data: Data, value: Option<Tree>, rows: map<Key, Row>)

  function Untimed(data: Data): Data { data - {"updated"} }

  /** Take what changed; None where both sides changed it, differently. */
  function PatchField(b: Option<Json>, o: Option<Json>, t: Option<Json>): Option<Json> {
    if o == t then o else if b == o then t else if b == t then o else None
  }

  function PatchData(b: Data, o: Data, t: Data): Data {
    map key | key in o.Keys + t.Keys && PatchField(Get(b, key), Get(o, key), Get(t, key)).Some?
      :: PatchField(Get(b, key), Get(o, key), Get(t, key)).value
  }

  function RowAt(rows: map<Key, Row>, key: Key): Option<Row> { if key in rows then Some(rows[key]) else None }

  function BaseTree(b: Option<Row>, left: Cid): Option<Tree> {
    if b.Some? && b.value.left == left then Some(b.value.tree) else None
  }

  /** One row of the patch; `both` is the patch of the two versions. */
  function PatchRow(b: Option<Row>, o: Option<Row>, t: Option<Row>, both: Option<Row>): Option<Row> {
    if o == t then o else if b == o then t else if b == t then o else both
  }

  function PatchValue(b: Option<Tree>, o: Option<Tree>, t: Option<Tree>, both: Option<Tree>): Option<Tree> {
    if o == t then o else if b == o then t else if b == t then o else both
  }

  function Rows0(b: Option<Tree>): map<Key, Row> { if b.Some? then b.value.rows else map[] }
  function Data0(b: Option<Tree>): Data { if b.Some? then b.value.data else map[] }
  function Value0(b: Option<Tree>): Option<Tree> { if b.Some? then b.value.value else None }

  /** Both edits applied to `b`. */
  function Patch(b: Option<Tree>, o: Tree, t: Tree): Tree
    decreases o, 2
  {
    if o == t then o else if b == Some(o) then t else if b == Some(t) then o else PatchInside(b, o, t)
  }

  function PatchInside(b: Option<Tree>, o: Tree, t: Tree): Tree
    decreases o, 1
  {
    Tree(o.isRef && t.isRef,
      PatchData(Data0(b), o.data, t.data),
      PatchValue(Value0(b), o.value, t.value, if o.value.Some?
          && t.value.Some? then Some(Patch(Value0(b), o.value.value, t.value.value)) else None),
      PatchRows(b, o, t))
  }

  function PatchRows(b: Option<Tree>, o: Tree, t: Tree): map<Key, Row>
    decreases o, 0
  {
    var both := map key | key in o.rows && key in t.rows && o.rows[key].left == t.rows[key].left
                  :: Row(o.rows[key].left, Patch(BaseTree(RowAt(Rows0(b), key), o.rows[key].left), o.rows[key].tree,
                      t.rows[key].tree));
    map key | key in o.rows.Keys + t.rows.Keys && PatchRow(RowAt(Rows0(b), key), RowAt(o.rows, key), RowAt(t.rows, key),
        RowAt(both, key)).Some?
      :: PatchRow(RowAt(Rows0(b), key), RowAt(o.rows, key), RowAt(t.rows, key), RowAt(both, key)).value
  }

  /** The two versions of a row, patched. */
  function BothRow(b: Option<Row>, o: Option<Row>, t: Option<Row>): Option<Row> {
    if o.Some? && t.Some? && o.value.left == t.value.left
    then Some(Row(o.value.left, Patch(BaseTree(b, o.value.left), o.value.tree, t.value.tree)))
    else None
  }

  lemma PatchRowAt(b: Option<Tree>, o: Tree, t: Tree, key: Key)
    ensures RowAt(PatchRows(b, o, t), key)
         == PatchRow(RowAt(Rows0(b), key), RowAt(o.rows, key), RowAt(t.rows, key),
             BothRow(RowAt(Rows0(b), key), RowAt(o.rows, key), RowAt(t.rows, key)))
  {}

  lemma SameRows(m: map<Key, Row>, n: map<Key, Row>)
    requires forall key :: RowAt(m, key) == RowAt(n, key)
    ensures m == n
  {
    forall key ensures key in m <==> key in n { assert RowAt(m, key) == RowAt(n, key); }
    forall key | key in m ensures m[key] == n[key] { assert RowAt(m, key) == RowAt(n, key); }
  }

  lemma SameData(m: Data, n: Data)
    requires forall key :: Get(m, key) == Get(n, key)
    ensures m == n
  {
    forall key ensures key in m <==> key in n { assert Get(m, key) == Get(n, key); }
    forall key | key in m ensures m[key] == n[key] { assert Get(m, key) == Get(n, key); }
  }

  lemma PatchDataAt(b: Data, o: Data, t: Data, key: string)
    ensures Get(PatchData(b, o, t), key) == PatchField(Get(b, key), Get(o, key), Get(t, key))
  {}

  // The order of the sides does not matter to a patch.

  lemma PatchDataSwap(b: Data, o: Data, t: Data)
    ensures PatchData(b, o, t) == PatchData(b, t, o)
  {
    forall key ensures Get(PatchData(b, o, t), key) == Get(PatchData(b, t, o), key) {
      PatchDataAt(b, o, t, key);
      PatchDataAt(b, t, o, key);
    }
    SameData(PatchData(b, o, t), PatchData(b, t, o));
  }

  lemma {:induction false} PatchSwap(b: Option<Tree>, o: Tree, t: Tree)
    ensures Patch(b, o, t) == Patch(b, t, o)
    decreases o, 1, 1
  {
    if o != t && b != Some(o) && b != Some(t) { InsideSwap(b, o, t); }
  }

  lemma {:induction false} InsideSwap(b: Option<Tree>, o: Tree, t: Tree)
    ensures PatchInside(b, o, t) == PatchInside(b, t, o)
    decreases o, 1, 0
  {
    PatchRowsSwap(b, o, t);
    PatchDataSwap(Data0(b), o.data, t.data);
    if o.value.Some? && t.value.Some? { PatchSwap(Value0(b), o.value.value, t.value.value); }
  }

  lemma {:induction false} PatchRowsSwap(b: Option<Tree>, o: Tree, t: Tree)
    ensures PatchRows(b, o, t) == PatchRows(b, t, o)
    decreases o, 0, 2
  {
    forall key ensures RowAt(PatchRows(b, o, t), key) == RowAt(PatchRows(b, t, o), key) { RowSwap(b, o, t, key); }
    SameRows(PatchRows(b, o, t), PatchRows(b, t, o));
  }

  lemma {:induction false} RowSwap(b: Option<Tree>, o: Tree, t: Tree, key: Key)
    ensures RowAt(PatchRows(b, o, t), key) == RowAt(PatchRows(b, t, o), key)
    decreases o, 0, 1
  {
    PatchRowAt(b, o, t, key);
    PatchRowAt(b, t, o, key);
    BothRowSwap(b, o, t, key);
  }

  lemma {:induction false} BothRowSwap(b: Option<Tree>, o: Tree, t: Tree, key: Key)
    ensures BothRow(RowAt(Rows0(b), key), RowAt(o.rows, key), RowAt(t.rows, key))
            == BothRow(RowAt(Rows0(b), key), RowAt(t.rows, key), RowAt(o.rows, key))
    decreases o, 0, 0
  {
    if key in o.rows && key in t.rows && o.rows[key].left == t.rows[key].left {
      PatchSwap(BaseTree(RowAt(Rows0(b), key), o.rows[key].left), o.rows[key].tree, t.rows[key].tree);
    }
  }

  // Looking inside changes nothing where one side is unchanged.

  lemma PatchUnchanged(b: Option<Tree>, o: Tree, t: Tree)
    requires o.isRef == t.isRef
    requires o == t || b == Some(o) || b == Some(t)
    ensures PatchInside(b, o, t) == Patch(b, o, t)
  {
    var r := Patch(b, o, t);
    forall key ensures RowAt(PatchRows(b, o, t), key) == RowAt(r.rows, key) { PatchRowAt(b, o, t, key); }
    SameRows(PatchRows(b, o, t), r.rows);
    forall key ensures Get(PatchData(Data0(b), o.data, t.data), key) == Get(r.data, key) {
      PatchDataAt(Data0(b), o.data, t.data, key);
    }
    SameData(PatchData(Data0(b), o.data, t.data), r.data);
  }

  // ---------------------------------------------------------------------------
  // The tree a node stands for

  function TreeOf(h: Host, c: Cid): Tree
    decreases Height(c), 0
  {
    var ref := IsMutableRef(c.content);
    FirstHeight(c.content.children, Prim("target"));
    BookHeight(h, c.content);
    Tree(ref, Untimed(c.content.data),
      if ref && RefValue(c.content).Some? then Some(TreeOf(h, RefValue(c.content).value)) else None,
      RowsOf(h, if ref then Book(h, c.content).children else c.content.children))
  }

  function RowsOf(h: Host, es: seq<Edge>): map<Key, Row>
    decreases RowsHeight(es), 1
  {
    RowsHeights(h, es);
    map key | key in RowsByKey(h, es) :: Row(RowsByKey(h, es)[key].left, TreeOf(h, RowsByKey(h, es)[key].right))
  }

  lemma RowsHeights(h: Host, es: seq<Edge>)
    ensures forall key | key in RowsByKey(h, es) :: Height(RowsByKey(h, es)[key].right) <= RowsHeight(es)
  {
    RowsByKeyShape(h, es);
    forall key | key in RowsByKey(h, es) ensures Height(RowsByKey(h, es)[key].right) <= RowsHeight(es) {
      RowHeight(es, RowsByKey(h, es)[key]);
    }
  }

  function RowTree(h: Host, e: Option<Edge>): Option<Row> {
    if e.Some? then Some(Row(e.value.left, TreeOf(h, e.value.right))) else None
  }

  lemma RowsOfAt(h: Host, es: seq<Edge>, key: Key)
    ensures RowAt(RowsOf(h, es), key) == RowTree(h, At(RowsByKey(h, es), key))
  {}

  function BaseTreeOf(h: Host, b: Option<Cid>): Option<Tree> { if b.Some? then Some(TreeOf(h, b.value)) else None }

  // ---------------------------------------------------------------------------
  // Edits of different things

  predicate IsPointer(e: Edge) { e.left == Prim("target") || e.left == Prim("alias") || e.left == Prim("notSelected") }

  /** A node without pointers of its own, and a ref; neither is a branch choice. */
  predicate IsPlain(c: Content) { forall e | e in c.children :: !IsPointer(e) }
  predicate IsValueRef(c: Content) { IsMutableRef(c) && !IsBranchChoice(c) }

  predicate Alike(b: Option<Cid>, o: Cid, t: Cid) {
    || (IsPlain(o.content) && IsPlain(t.content) && (b.Some? ==> IsPlain(b.value.content)))
    || (IsValueRef(o.content) && IsValueRef(t.content) && (b.Some? ==> IsValueRef(b.value.content)))
  }

  ghost predicate FieldsApart(b: Data, o: Data, t: Data) {
    forall key :: !FieldConflict(b, o, t, key)
  }

  /** At most one side changed the row, or both did inside it, in different places. */
  ghost predicate RowApart(h: Host, key: Key, b: Option<Edge>, o: Option<Edge>, t: Option<Edge>)
    decreases (if o.Some? then Height(o.value.right) else 0) + (if t.Some? then Height(t.value.right) else 0), 2
  {
    !BothChanged(b, o, t)
    || (&& key.Alias? && o.Some? && t.Some? && o.value.left == t.value.left && !IsChoice(o.value)
        && !IsProposal(o.value)
        && Disjoint(h, BaseOf(b, o.value), o.value.right, t.value.right, IsFieldRow(h, o.value)))
  }

  ghost predicate RowsApart(h: Host, b: seq<Edge>, o: seq<Edge>, t: seq<Edge>)
    decreases RowsHeight(o) + RowsHeight(t), 3
  {
    RowsHeights(h, o);
    RowsHeights(h, t);
    forall key :: RowApart(h, key, At(RowsByKey(h, b), key), At(RowsByKey(h, o), key), At(RowsByKey(h, t), key))
  }

  /** The same of the members, proposals, peers and own rows of two refs. */
  ghost predicate BooksApart(h: Host, b: Option<Cid>, o: Cid, t: Cid)
    decreases Height(o) + Height(t), 0
  {
    BookRowsHeight(h, o.content);
    BookRowsHeight(h, t.content);
    RowsApart(h, BookOf(h, b), Book(h, o.content).children, Book(h, t.content).children)
  }

  lemma BookRowsHeight(h: Host, c: Content)
    ensures RowsHeight(Book(h, c).children) <= RowsHeight(c.children)
  {
    BookRows(h, c);
    RowsHeightSubset(Book(h, c).children, c.children);
  }

  /** The values of two refs: one side's change when the ref is typed, else edits of different things inside. */
  ghost predicate ValuesApart(h: Host, b: Option<Cid>, o: Cid, t: Cid, field: bool)
    decreases Height(o) + Height(t), 0
  {
    var s := Sides(h, b, o, t);
    FirstHeight(o.content.children, Prim("target"));
    FirstHeight(t.content.children, Prim("target"));
    if IsTyped(s, field) then s.ov == s.tv || s.bv == s.ov || s.bv == s.tv
    else if IsMutableRef(o.content) && IsMutableRef(t.content) then s.ov.Some? && s.tv.Some?
        && Disjoint(h, s.bv, s.ov.value, s.tv.value, false)
    else false
  }

  /** Ours and theirs edit different things of `b`, at every depth. */
  ghost predicate Disjoint(h: Host, b: Option<Cid>, o: Cid, t: Cid, field: bool)
    decreases Height(o) + Height(t), 1
  {
    || Unchanged(b, o, t).Some?
    || (&& Alike(b, o, t)
        && FieldsApart(BaseContent(b).data, o.content.data, t.content.data)
        && if IsMutableRef(o.content)
           then ValuesApart(h, b, o, t, field) && BooksApart(h, b, o, t)
           else RowsApart(h, BaseContent(b).children, o.content.children, t.content.children))
  }

  function BookOf(h: Host, b: Option<Cid>): seq<Edge> { if b.Some? then Book(h, b.value.content).children else [] }
}
