/** Merging edits of different things is patching; hence it converges, and works as an inverse. */
module ConvergenceLaws {
  import opened Options
  import opened Json
  import opened Graph
  import opened Merge
  import opened MergeLaws
  import opened Convergence

  // ---------------------------------------------------------------------------
  // Data

  lemma DataRefines(b: Data, o: Data, t: Data)
    requires FieldsApart(b, o, t)
    ensures Untimed(MergedData(b, o, t)) == PatchData(Untimed(b), Untimed(o), Untimed(t))
  {
    forall key ensures Get(Untimed(MergedData(b, o, t)), key)
        == Get(PatchData(Untimed(b), Untimed(o), Untimed(t)), key) {
      PatchDataAt(Untimed(b), Untimed(o), Untimed(t), key);
      if key != "updated" {
        MergedFieldSide(b, o, t, key);
        assert !FieldConflict(b, o, t, key);
      }
    }
    SameData(Untimed(MergedData(b, o, t)), PatchData(Untimed(b), Untimed(o), Untimed(t)));
  }

  lemma NoFieldConflict(b: Data, o: Data, t: Data, theirsWins: bool)
    requires FieldsApart(b, o, t)
    ensures MergeData(b, o, t, theirsWins) == Some(MergedData(b, o, t))
  {}

  // ---------------------------------------------------------------------------
  // Rows

  /** The row a key contributes, when it contributes one without raising anything. */
  ghost predicate Single(h: Host, key: Key, r: RowsResult) {
    r.rows.Rows? && r.raised == [] && |r.rows.edges| <= 1 && forall e | e in r.rows.edges :: KeyOf(h, e) == key
  }

  function Contribution(r: RowsResult): Option<Edge> {
    if r.rows.Rows? && r.rows.edges != [] then Some(r.rows.edges[0]) else None
  }

  /** Keys that each contribute a row of their own make a list indexed by those rows. */
  lemma {:induction false} KeysIndex(h: Host, keys: seq<Key>, bm: map<Key, Edge>, om: map<Key, Edge>, tm: map<Key,
      Edge>, labels: Labels, bound: nat)
    requires Below(om, tm, bound)
    requires forall key | key in keys :: Single(h, key,
            MergeKey(h, key, At(bm, key), At(om, key), At(tm, key), labels, bound))
    ensures MergeKeys(h, keys, bm, om, tm, labels, bound).rows.Rows?
            && MergeKeys(h, keys, bm, om, tm, labels, bound).raised == []
  {
    if keys != [] {
      KeysIndex(h, keys[1..], bm, om, tm, labels, bound);
      assert keys[0] in keys;
    }
  }

  lemma IndexOfContributions(h: Host, base: Content, ours: Content, theirs: Content, labels: Labels, key: Key)
    requires MergeChildren(h, base, ours, theirs, labels).rows.Rows?
    requires forall k | k in AllKeys(h, base, ours, theirs) :: Single(h, k, RowFor(h, base, ours, theirs, labels, k))
    ensures At(RowsByKey(h, MergeChildren(h, base, ours, theirs, labels).rows.edges), key)
         == if key in AllKeys(h, base, ours, theirs) then Contribution(RowFor(h, base, ours, theirs, labels, key))
             else None
  {
    if key in RowsByKey(h, MergeChildren(h, base, ours, theirs, labels).rows.edges) {
      Contributed(h, base, ours, theirs, labels, key);
    } else if key in AllKeys(h, base, ours, theirs) && Contribution(RowFor(h, base, ours, theirs, labels, key)).Some? {
      Contributes(h, base, ours, theirs, labels, key);
    }
  }

  lemma Contributed(h: Host, base: Content, ours: Content, theirs: Content, labels: Labels, key: Key)
    requires MergeChildren(h, base, ours, theirs, labels).rows.Rows?
    requires forall k | k in AllKeys(h, base, ours, theirs) :: Single(h, k, RowFor(h, base, ours, theirs, labels, k))
    requires key in RowsByKey(h, MergeChildren(h, base, ours, theirs, labels).rows.edges)
    ensures key in AllKeys(h, base, ours, theirs)
    ensures Contribution(RowFor(h, base, ours, theirs, labels, key))
            == Some(RowsByKey(h, MergeChildren(h, base, ours, theirs, labels).rows.edges)[key])
  {
    var edges := MergeChildren(h, base, ours, theirs, labels).rows.edges;
    RowsByKeyShape(h, edges);
    var e := RowsByKey(h, edges)[key];
    var k := SourceOf(h, base, ours, theirs, labels, e);
    OneRow(h, k, RowFor(h, base, ours, theirs, labels, k), e);
  }

  lemma OneRow(h: Host, k: Key, r: RowsResult, e: Edge)
    requires Single(h, k, r) && e in r.rows.edges
    ensures KeyOf(h, e) == k && Contribution(r) == Some(e)
  {}

  lemma Contributes(h: Host, base: Content, ours: Content, theirs: Content, labels: Labels, key: Key)
    requires MergeChildren(h, base, ours, theirs, labels).rows.Rows?
    requires key in AllKeys(h, base, ours, theirs) && Single(h, key, RowFor(h, base, ours, theirs, labels, key))
    requires Contribution(RowFor(h, base, ours, theirs, labels, key)).Some?
    ensures key in RowsByKey(h, MergeChildren(h, base, ours, theirs, labels).rows.edges)
  {
    RowsByKeyShape(h, MergeChildren(h, base, ours, theirs, labels).rows.edges);
    ChildrenContribute(h, base, ours, theirs, labels);
    var row := RowFor(h, base, ours, theirs, labels, key);
    OneRow(h, key, row, row.rows.edges[0]);
  }

  ghost predicate Refined(h: Host, b: Option<Cid>, o: Cid, t: Cid, r: NodeResult) {
    r.outcome.Merged? && r.raised == [] && TreeOf(h, r.outcome.cid)
        == Patch(BaseTreeOf(h, b), TreeOf(h, o), TreeOf(h, t))
  }

  predicate Keyed(h: Host, key: Key, e: Option<Edge>) { e.Some? ==> KeyOf(h, e.value) == key }

  lemma RowRefines(h: Host, key: Key, b: Option<Edge>, o: Option<Edge>, t: Option<Edge>, labels: Labels, bound: nat)
    requires o.Some? && t.Some? ==> Height(o.value.right) + Height(t.value.right) < bound
    requires Keyed(h, key, b) && Keyed(h, key, o) && Keyed(h, key, t) && RowApart(h, key, b, o, t)
    requires BothChanged(b, o, t) ==>
               Refined(h, BaseOf(b, o.value), o.value.right, t.value.right,
                 MergeNode(h, BaseOf(b, o.value), o.value.right, t.value.right, labels, false, IsFieldRow(h, o.value)))
    ensures Single(h, key, MergeKey(h, key, b, o, t, labels, bound))
    ensures RowTree(h, Contribution(MergeKey(h, key, b, o, t, labels, bound)))
         == PatchRow(RowTree(h, b), RowTree(h, o), RowTree(h, t), BothRow(RowTree(h, b), RowTree(h, o), RowTree(h, t)))
  {
    if BothChanged(b, o, t) {
      BothRefine(h, key, b, o.value, t.value, labels, bound);
    }
  }

  lemma BothRefine(h: Host, key: Key, b: Option<Edge>, o: Edge, t: Edge, labels: Labels, bound: nat)
    requires Height(o.right) + Height(t.right) < bound
    requires Keyed(h, key, b) && KeyOf(h, o) == key && KeyOf(h, t) == key && BothChanged(b, Some(o), Some(t))
    requires key.Alias? && o.left == t.left && !IsChoice(o) && !IsProposal(o)
    requires Refined(h, BaseOf(b, o), o.right, t.right,
            MergeNode(h, BaseOf(b, o), o.right, t.right, labels, false, IsFieldRow(h, o)))
    ensures Single(h, key, MergeKey(h, key, b, Some(o), Some(t), labels, bound))
    ensures RowTree(h, Contribution(MergeKey(h, key, b, Some(o), Some(t), labels, bound)))
         == PatchRow(RowTree(h, b), RowTree(h, Some(o)), RowTree(h, Some(t)),
             BothRow(RowTree(h, b), RowTree(h, Some(o)), RowTree(h, Some(t))))
  {
    var merged := MergeNode(h, BaseOf(b, o), o.right, t.right, labels, false, IsFieldRow(h, o));
    assert KeepsIdentity(o.right, t.right, merged);
    var e := Edge(o.left, merged.outcome.cid);
    assert KeyOf(h, e) == key;
    assert MergeKey(h, key, b, Some(o), Some(t), labels, bound) == RowsResult(Rows([e]), []);
    assert BaseTreeOf(h, BaseOf(b, o)) == BaseTree(RowTree(h, b), o.left);
    assert RowTree(h, Some(e)) == BothRow(RowTree(h, b), RowTree(h, Some(o)), RowTree(h, Some(t)));
  }

  ghost predicate RowsRefined(h: Host, b: Content, o: Content, t: Content, labels: Labels) {
    forall key | BothChanged(At(RowsByKey(h, b.children), key), At(RowsByKey(h, o.children), key),
        At(RowsByKey(h, t.children), key)) ::
      RowRefined(h, At(RowsByKey(h, b.children), key), At(RowsByKey(h, o.children), key),
          At(RowsByKey(h, t.children), key), labels)
  }

  ghost predicate RowRefined(h: Host, b: Option<Edge>, o: Option<Edge>, t: Option<Edge>, labels: Labels) {
    o.Some? && t.Some? &&
    Refined(h, BaseOf(b, o.value), o.value.right, t.value.right,
      MergeNode(h, BaseOf(b, o.value), o.value.right, t.value.right, labels, false, IsFieldRow(h, o.value)))
  }

  lemma RowForRefines(h: Host, b: Content, o: Content, t: Content, labels: Labels, key: Key)
    requires RowsApart(h, b.children, o.children, t.children) && RowsRefined(h, b, o, t, labels)
    ensures Single(h, key, RowFor(h, b, o, t, labels, key))
    ensures var rb, ro, rt := RowTree(h, At(RowsByKey(h, b.children), key)),
            RowTree(h, At(RowsByKey(h, o.children), key)), RowTree(h, At(RowsByKey(h, t.children), key));
            RowTree(h, Contribution(RowFor(h, b, o, t, labels, key))) == PatchRow(rb, ro, rt, BothRow(rb, ro, rt))
  {
    ChildrenBelow(h, o, t);
    RowsByKeyShape(h, b.children);
    RowsByKeyShape(h, o.children);
    RowsByKeyShape(h, t.children);
    RowRefines(h, key, At(RowsByKey(h, b.children), key), At(RowsByKey(h, o.children), key),
        At(RowsByKey(h, t.children), key), labels,
      Size(Cid(o), Cid(t)));
  }

  lemma ChildrenMerge(h: Host, b: Content, o: Content, t: Content, labels: Labels)
    requires forall key :: Single(h, key, RowFor(h, b, o, t, labels, key))
    ensures MergeChildren(h, b, o, t, labels).rows.Rows? && MergeChildren(h, b, o, t, labels).raised == []
  {
    ChildrenBelow(h, o, t);
    var bm, om, tm, bound := RowsByKey(h, b.children), RowsByKey(h, o.children), RowsByKey(h, t.children),
        Size(Cid(o), Cid(t));
    forall key | key in AllKeys(h, b, o, t) ensures Single(h, key,
        MergeKey(h, key, At(bm, key), At(om, key), At(tm, key), labels, bound)) {
      assert Single(h, key, RowFor(h, b, o, t, labels, key));
    }
    KeysIndex(h, AllKeys(h, b, o, t), bm, om, tm, labels, bound);
  }

  /** The merged rows, by key, are the patch of the rows by key. */
  lemma ChildrenRefine(h: Host, b: Content, o: Content, t: Content, labels: Labels, bt: Option<Tree>, ot: Tree,
      tt: Tree)
    requires RowsApart(h, b.children, o.children, t.children) && RowsRefined(h, b, o, t, labels)
    requires Rows0(bt) == RowsOf(h, b.children) && ot.rows == RowsOf(h, o.children) && tt.rows == RowsOf(h, t.children)
    ensures MergeChildren(h, b, o, t, labels).rows.Rows? && MergeChildren(h, b, o, t, labels).raised == []
    ensures RowsOf(h, MergeChildren(h, b, o, t, labels).rows.edges) == PatchRows(bt, ot, tt)
  {
    forall key ensures Single(h, key, RowFor(h, b, o, t, labels, key)) { RowForRefines(h, b, o, t, labels, key); }
    ChildrenMerge(h, b, o, t, labels);
    var edges := MergeChildren(h, b, o, t, labels).rows.edges;
    forall key ensures RowAt(RowsOf(h, edges), key) == RowAt(PatchRows(bt, ot, tt), key) {
      MergedRowAt(h, b, o, t, labels, bt, ot, tt, key);
    }
    SameRows(RowsOf(h, edges), PatchRows(bt, ot, tt));
  }

  lemma MergedRowAt(h: Host, b: Content, o: Content, t: Content, labels: Labels, bt: Option<Tree>, ot: Tree, tt: Tree,
      key: Key)
    requires RowsApart(h, b.children, o.children, t.children) && RowsRefined(h, b, o, t, labels)
    requires Rows0(bt) == RowsOf(h, b.children) && ot.rows == RowsOf(h, o.children) && tt.rows == RowsOf(h, t.children)
    requires MergeChildren(h, b, o, t, labels).rows.Rows?
    requires forall k :: Single(h, k, RowFor(h, b, o, t, labels, k))
    ensures RowAt(RowsOf(h, MergeChildren(h, b, o, t, labels).rows.edges), key) == RowAt(PatchRows(bt, ot, tt), key)
  {
    var edges := MergeChildren(h, b, o, t, labels).rows.edges;
    PatchRowAt(bt, ot, tt, key);
    RowsOfAt(h, b.children, key);
    RowsOfAt(h, o.children, key);
    RowsOfAt(h, t.children, key);
    RowsOfAt(h, edges, key);
    IndexOfContributions(h, b, o, t, labels, key);
    RowForRefines(h, b, o, t, labels, key);
    KeysOfSides(h, b, o, t, key);
  }

  // ---------------------------------------------------------------------------
  // Plain nodes

  /** Where edits are apart, every merged row has the left of one it came from. */
  lemma MergedLeft(h: Host, b: Content, o: Content, t: Content, labels: Labels, e: Edge)
    requires RowsApart(h, b.children, o.children, t.children) && RowsRefined(h, b, o, t, labels)
    requires MergeChildren(h, b, o, t, labels).rows.Rows? && e in MergeChildren(h, b, o, t, labels).rows.edges
    ensures exists x | x in o.children || x in t.children :: x.left == e.left
  {
    var key := SourceOf(h, b, o, t, labels, e);
    RowForRefines(h, b, o, t, labels, key);
    OneRow(h, key, RowFor(h, b, o, t, labels, key), e);
    RowsByKeyShape(h, o.children);
    RowsByKeyShape(h, t.children);
    var oe, te := At(RowsByKey(h, o.children), key), At(RowsByKey(h, t.children), key);
    PatchedLeft(h, At(RowsByKey(h, b.children), key), oe, te, e);
    if oe.Some? && oe.value.left == e.left { assert oe.value in o.children; } else { assert te.value in t.children; }
  }

  lemma PatchedLeft(h: Host, b: Option<Edge>, o: Option<Edge>, t: Option<Edge>, e: Edge)
    requires RowTree(h, Some(e)) == PatchRow(RowTree(h, b), RowTree(h, o), RowTree(h, t),
            BothRow(RowTree(h, b), RowTree(h, o), RowTree(h, t)))
    ensures (o.Some? && o.value.left == e.left) || (t.Some? && t.value.left == e.left)
  {}

  lemma PlainRows(h: Host, b: Content, o: Content, t: Content, labels: Labels)
    requires IsPlain(o) && IsPlain(t)
    requires RowsApart(h, b.children, o.children, t.children) && RowsRefined(h, b, o, t, labels)
    requires MergeChildren(h, b, o, t, labels).rows.Rows?
    ensures forall e | e in MergeChildren(h, b, o, t, labels).rows.edges :: !IsPointer(e)
  {
    forall e | e in MergeChildren(h, b, o, t, labels).rows.edges ensures !IsPointer(e) {
      MergedLeft(h, b, o, t, labels, e);
    }
  }

  lemma PlainRefines(h: Host, b: Option<Cid>, o: Cid, t: Cid, labels: Labels, isTop: bool)
    requires IsPlain(o.content) && IsPlain(t.content) && (b.Some? ==> IsPlain(b.value.content))
    requires FieldsApart(BaseContent(b).data, o.content.data, t.content.data)
    requires RowsApart(h, BaseContent(b).children, o.content.children, t.content.children)
    requires RowsRefined(h, BaseContent(b), o.content, t.content, labels)
    ensures Refined(h, b, o, t, MergePlain(h, b, o, t, labels, isTop))
  {
    var bc := BaseContent(b);
    PlainChildren(h, b, o, t, labels);
    PlainRows(h, bc, o.content, t.content, labels);
    DataRefines(bc.data, o.content.data, t.content.data);
    var edges := MergeChildren(h, bc, o.content, t.content, labels).rows.edges;
    PlainTree(h, MergedData(bc.data, o.content.data, t.content.data), edges);
    PlainMerges(h, b, o, t, labels, isTop);
    PlainPatch(h, b, o, t, MergedData(bc.data, o.content.data, t.content.data), edges);
  }

  lemma PlainChildren(h: Host, b: Option<Cid>, o: Cid, t: Cid, labels: Labels)
    requires IsPlain(o.content) && IsPlain(t.content) && (b.Some? ==> IsPlain(b.value.content))
    requires RowsApart(h, BaseContent(b).children, o.content.children, t.content.children)
    requires RowsRefined(h, BaseContent(b), o.content, t.content, labels)
    ensures var r := MergeChildren(h, BaseContent(b), o.content, t.content, labels);
            r.rows.Rows? && r.raised == [] && RowsOf(h, r.rows.edges)
                == PatchRows(BaseTreeOf(h, b), TreeOf(h, o), TreeOf(h, t))
  {
    assert RowsOf(h, []) == map[];
    ChildrenRefine(h, BaseContent(b), o.content, t.content, labels, BaseTreeOf(h, b), TreeOf(h, o), TreeOf(h, t));
  }

  lemma PlainMerges(h: Host, b: Option<Cid>, o: Cid, t: Cid, labels: Labels, isTop: bool)
    requires FieldsApart(BaseContent(b).data, o.content.data, t.content.data)
    requires MergeChildren(h, BaseContent(b), o.content, t.content, labels).rows.Rows?
            && MergeChildren(h, BaseContent(b), o.content, t.content, labels).raised == []
    ensures MergePlain(h, b, o, t, labels, isTop)
            == NodeResult(Merged(Cid(Content(MergedData(BaseContent(b).data, o.content.data, t.content.data),
                 MergeChildren(h, BaseContent(b), o.content, t.content, labels).rows.edges))), [])
  {
    NoFieldConflict(BaseContent(b).data, o.content.data, t.content.data, isTop);
  }

  lemma PlainPatch(h: Host, b: Option<Cid>, o: Cid, t: Cid, data: Data, edges: seq<Edge>)
    requires IsPlain(o.content) && IsPlain(t.content) && (b.Some? ==> IsPlain(b.value.content))
    requires Untimed(data) == PatchData(Untimed(BaseContent(b).data), Untimed(o.content.data), Untimed(t.content.data))
    requires RowsOf(h, edges) == PatchRows(BaseTreeOf(h, b), TreeOf(h, o), TreeOf(h, t))
    ensures Tree(false, Untimed(data), None, RowsOf(h, edges)) == Patch(BaseTreeOf(h, b), TreeOf(h, o), TreeOf(h, t))
  {
    var bt, ot, tt := BaseTreeOf(h, b), TreeOf(h, o), TreeOf(h, t);
    PatchIsInside(bt, ot, tt);
    assert Data0(bt) == Untimed(BaseContent(b).data) && Value0(bt).None? && ot.value.None? && tt.value.None?;
  }

  lemma PlainTree(h: Host, data: Data, edges: seq<Edge>)
    requires forall e | e in edges :: !IsPointer(e)
    ensures TreeOf(h, Cid(Content(data, edges))) == Tree(false, Untimed(data), None, RowsOf(h, edges))
  {
    assert !IsRef(Content(data, edges));
  }

  lemma PatchIsInside(b: Option<Tree>, o: Tree, t: Tree)
    requires o.isRef == t.isRef
    ensures Patch(b, o, t) == PatchInside(b, o, t)
  {
    if o == t || b == Some(o) || b == Some(t) { PatchUnchanged(b, o, t); }
  }

  // ---------------------------------------------------------------------------
  // Refs

  lemma {:induction false} FilterConcat(h: Host, s: Sieve, a: seq<Edge>, b: seq<Edge>)
    ensures Filter(h, s, a + b) == Filter(h, s, a) + Filter(h, s, b)
  {
    if a == [] {
      assert a + b == b;
    } else {
      assert (a + b)[1..] == a[1..] + b;
      FilterConcat(h, s, a[1..], b);
    }
  }

  lemma {:induction false} FilterAll(h: Host, s: Sieve, es: seq<Edge>)
    requires forall e | e in es :: Passes(h, s, e)
    ensures Filter(h, s, es) == es
  {
    if es != [] { FilterAll(h, s, es[1..]); }
  }

  lemma {:induction false} FilterNone(h: Host, s: Sieve, es: seq<Edge>)
    requires forall e | e in es :: !Passes(h, s, e)
    ensures Filter(h, s, es) == []
  {
    if es != [] { FilterNone(h, s, es[1..]); }
  }

  function Pointers(value: Option<Cid>): seq<Edge> {
    (if value.Some? then [Edge(Prim("target"), value.value)] else []) + [Edge(Prim("alias"), Cid(EMPTY))]
  }

  /** A ref built from bookkeeping and history has that bookkeeping, and the value it was given. */
  lemma RefReads(h: Host, data: Data, value: Option<Cid>, book: seq<Edge>, history: seq<Edge>)
    requires forall e | e in book :: IsBook(h, e) && !IsPrev(e) && e.left != Prim("target")
    requires forall e | e in history :: IsPrev(e)
    ensures IsRef(RefNode(data, value, book + history))
    ensures Book(h, RefNode(data, value, book + history)).children == book
    ensures RefValue(RefNode(data, value, book + history)) == value
  {
    var ref := RefNode(data, value, book + history);
    assert ref.children == Pointers(value) + (book + history);
    assert Pointers(value)[|Pointers(value)| - 1] in ref.children;
    BookPart(h, value, book, history);
    FreshPart(h, book, history);
    NotBookkeeping("target");
    if Prim("target") == Prim("previous") { PrimInjective("target", "previous"); }
    RefValueReads(value, book + history);
  }

  lemma BookPart(h: Host, value: Option<Cid>, book: seq<Edge>, history: seq<Edge>)
    requires forall e | e in book :: IsBook(h, e)
    requires forall e | e in history :: IsPrev(e)
    ensures Filter(h, Booked(true), Pointers(value) + (book + history)) == book + history
  {
    PointersAreNotBook(h, value);
    FilterConcat(h, Booked(true), Pointers(value), book + history);
    FilterNone(h, Booked(true), Pointers(value));
    FilterAll(h, Booked(true), book + history);
  }

  lemma FreshPart(h: Host, book: seq<Edge>, history: seq<Edge>)
    requires forall e | e in book :: !IsPrev(e)
    requires forall e | e in history :: IsPrev(e)
    ensures Filter(h, NotPrev, book + history) == book
  {
    FilterConcat(h, NotPrev, book, history);
    FilterAll(h, NotPrev, book);
    FilterNone(h, NotPrev, history);
  }

  lemma RefValueReads(value: Option<Cid>, rows: seq<Edge>)
    requires forall e | e in rows :: e.left != Prim("target")
    ensures First(Pointers(value) + rows, Prim("target")) == value
  {
    NotBookkeeping("target");
    if Prim("target") == Prim("alias") { PrimInjective("target", "alias"); }
    if value.None? {
      FirstNone([Edge(Prim("alias"), Cid(EMPTY))] + rows, Prim("target"));
    }
  }

  lemma {:induction false} FirstNone(es: seq<Edge>, left: Cid)
    requires forall e | e in es :: e.left != left
    ensures First(es, left) == None
  {
    if es != [] { FirstNone(es[1..], left); }
  }

  lemma PointersAreNotBook(h: Host, value: Option<Cid>)
    ensures value.Some? ==> !IsBook(h, Edge(Prim("target"), value.value))
    ensures !IsBook(h, Edge(Prim("alias"), Cid(EMPTY)))
  {
    if value.Some? { TargetIsNotBook(h, value.value); }
    NotBookkeeping("alias");
  }

  lemma TargetIsNotBook(h: Host, value: Cid)
    ensures !IsBook(h, Edge(Prim("target"), value))
  {
    NotBookkeeping("target");
    PrimIsPrimitive("target");
    assert "target" in POINTERS;
  }

  function ValueTree(h: Host, v: Option<Cid>): Option<Tree> { if v.Some? then Some(TreeOf(h, v.value)) else None }

  function BothValue(b: Option<Tree>, o: Option<Tree>, t: Option<Tree>): Option<Tree> {
    if o.Some? && t.Some? then Some(Patch(b, o.value, t.value)) else None
  }

  ghost predicate ValueRefined(h: Host, s: RefSides, v: RequestResult) {
    && v.failed.Merged? && v.raised == []
    && ValueTree(h, v.request) == PatchValue(ValueTree(h, s.bv), ValueTree(h, s.ov), ValueTree(h, s.tv),
                                             BothValue(ValueTree(h, s.bv), ValueTree(h, s.ov), ValueTree(h, s.tv)))
  }

  lemma TypedRefines(h: Host, s: RefSides)
    requires s.ov == s.tv || s.bv == s.ov || s.bv == s.tv
    ensures ValueRefined(h, s, MergeTyped(h, s))
  {}

  lemma ValuesRefine(h: Host, s: RefSides, o: Cid, t: Cid, labels: Labels, isTop: bool)
    requires IsMutableRef(o.content) && IsMutableRef(t.content) && s.ov == RefValue(o.content)
            && s.tv == RefValue(t.content)
    requires s.ov.Some? && s.tv.Some? && Refined(h, s.bv, s.ov.value, s.tv.value,
            MergeNode(h, s.bv, s.ov.value, s.tv.value, labels, true, false))
    ensures ValueRefined(h, s, MergeValues(h, s, o, t, labels, isTop))
  {
    ValuesBelow(h, o.content, t.content);
    assert SideValue(h, o.content) == s.ov.value && SideValue(h, t.content) == s.tv.value;
    var vb, vo, vt := ValueTree(h, s.bv), TreeOf(h, s.ov.value), TreeOf(h, s.tv.value);
    assert PatchValue(vb, Some(vo), Some(vt), Some(Patch(vb, vo, vt))) == Some(Patch(vb, vo, vt));
  }

  function MergeBooks(h: Host, b: Option<Cid>, o: Cid, t: Cid, labels: Labels): RowsResult {
    MergeChildren(h, Content(map[], BookOf(h, b)), Book(h, o.content), Book(h, t.content), labels)
  }

  /** Rows of bookkeeping that both sides changed merge to what both edits make of them. */
  ghost predicate BooksRefined(h: Host, b: Option<Cid>, o: Cid, t: Cid, labels: Labels) {
    RowsRefined(h, Content(map[], BookOf(h, b)), Book(h, o.content), Book(h, t.content), labels)
  }

  lemma BooksRefine(h: Host, b: Option<Cid>, o: Cid, t: Cid, labels: Labels)
    requires IsValueRef(o.content) && IsValueRef(t.content) && (b.Some? ==> IsValueRef(b.value.content))
    requires BooksApart(h, b, o, t) && BooksRefined(h, b, o, t, labels)
    ensures var r := MergeBooks(h, b, o, t, labels);
            && r.rows.Rows? && r.raised == []
            && RowsOf(h, r.rows.edges) == PatchRows(BaseTreeOf(h, b), TreeOf(h, o), TreeOf(h, t))
  {
    assert RowsOf(h, []) == map[];
    ChildrenRefine(h, Content(map[], BookOf(h, b)), Book(h, o.content), Book(h, t.content), labels, BaseTreeOf(h, b),
        TreeOf(h, o), TreeOf(h, t));
  }

  /**
   * A row that stays bookkeeping of its ref whatever becomes of the node it leads to, as long as it keeps its identity.
   */
  predicate FitsBook(h: Host, e: Edge) {
    IsBook(h, e) && !IsPrev(e) && e.left != Prim("target") && e.left != Prim("notSelected")
  }

  lemma BookFits(h: Host, c: Content)
    requires IsRef(c)
    ensures forall e | e in Book(h, c).children :: FitsBook(h, e)
  {
    BookRows(h, c);
    NotBookkeeping("notSelected");
    PrimIsPrimitive("notSelected");
    assert "notSelected" in POINTERS;
    forall e | e in Book(h, c).children ensures e.left != Prim("target") { PointersAreNotRows(h, c, e); }
  }

  lemma StaysBook(h: Host, o: Edge, e: Edge)
    requires FitsBook(h, o) && !IsChoice(o) && e.left == o.left && AliasId(e.right.content).Some?
    ensures FitsBook(h, e)
  {
    if IsRow(h, o) { assert Has(e.right.content.data, "alias"); }
  }

  /** Merged bookkeeping is bookkeeping. */
  lemma BookEdges(h: Host, b: Option<Cid>, o: Cid, t: Cid, labels: Labels)
    requires IsRef(o.content) && IsRef(t.content) && BooksApart(h, b, o, t) && BooksRefined(h, b, o, t, labels)
    requires MergeBooks(h, b, o, t, labels).rows.Rows?
    ensures forall e | e in MergeBooks(h, b, o, t, labels).rows.edges :: FitsBook(h, e)
  {
    BookFits(h, o.content);
    BookFits(h, t.content);
    forall e | e in MergeBooks(h, b, o, t, labels).rows.edges ensures FitsBook(h, e) {
      BookEdge(h, Content(map[], BookOf(h, b)), Book(h, o.content), Book(h, t.content), labels, e);
    }
  }

  lemma BookEdge(h: Host, b: Content, o: Content, t: Content, labels: Labels, e: Edge)
    requires (forall x | x in o.children :: FitsBook(h, x)) && (forall x | x in t.children :: FitsBook(h, x))
    requires RowsApart(h, b.children, o.children, t.children) && RowsRefined(h, b, o, t, labels)
    requires MergeChildren(h, b, o, t, labels).rows.Rows? && e in MergeChildren(h, b, o, t, labels).rows.edges
    ensures FitsBook(h, e)
  {
    var key := SourceOf(h, b, o, t, labels, e);
    var be, oe, te := At(RowsByKey(h, b.children), key), At(RowsByKey(h, o.children), key),
        At(RowsByKey(h, t.children), key);
    RowForRefines(h, b, o, t, labels, key);
    OneRow(h, key, RowFor(h, b, o, t, labels, key), e);
    RowsByKeyShape(h, o.children);
    RowsByKeyShape(h, t.children);
    assert RowApart(h, key, be, oe, te);
    ChildrenBelow(h, o, t);
    if BothChanged(be, oe, te) {
      PatchedLeft(h, be, oe, te, e);
      KeyedAlias(h, key, e);
      StaysBook(h, oe.value, e);
    } else {
      OneVersion(h, key, be, oe, te, labels, Size(Cid(o), Cid(t)), e);
    }
  }

  lemma KeyedAlias(h: Host, key: Key, e: Edge)
    requires KeyOf(h, e) == key && key.Alias?
    ensures AliasId(e.right.content).Some?
  {}

  /** A row not changed on both sides is one of the versions. */
  lemma OneVersion(h: Host, key: Key, b: Option<Edge>, o: Option<Edge>, t: Option<Edge>, labels: Labels, bound: nat,
      e: Edge)
    requires o.Some? && t.Some? ==> Height(o.value.right) + Height(t.value.right) < bound
    requires !BothChanged(b, o, t) && MergeKey(h, key, b, o, t, labels, bound).rows.Rows?
            && e in MergeKey(h, key, b, o, t, labels, bound).rows.edges
    ensures Some(e) == o || Some(e) == t
  {}

  lemma NotHandle(b: Data, o: Data, t: Data)
    requires !Has(o, "ref") && !Has(t, "ref")
    ensures !Has(MergedData(b, o, t), "ref")
  {
    MergedFieldSide(b, o, t, "ref");
  }

  lemma HistoryIsPrev(h: Host, s: RefSides, o: Cid, t: Cid, value: Option<Cid>)
    ensures forall e | e in History(h, s, o, t, value) :: IsPrev(e)
  {
    FilterIn(h, Prev, s.o.children);
    FilterIn(h, Prev, s.t.children);
    FilterIn(h, NotIn(PrevRows(h, s.o)), PrevRows(h, s.t));
  }

  lemma RefTree(h: Host, data: Data, value: Option<Cid>, book: seq<Edge>, history: seq<Edge>)
    requires forall e | e in book :: IsBook(h, e) && !IsPrev(e) && e.left != Prim("target")
    requires forall e | e in history :: IsPrev(e)
    requires !Has(data, "ref")
    ensures TreeOf(h, Cid(RefNode(data, value, book + history)))
            == Tree(true, Untimed(data), ValueTree(h, value), RowsOf(h, book))
  {
    RefReads(h, data, value, book, history);
  }

  function RefsValue(h: Host, b: Option<Cid>, o: Cid, t: Cid, labels: Labels, isTop: bool, field: bool): RequestResult
    requires IsMutableRef(o.content)
  {
    var s := Sides(h, b, o, t);
    if IsTyped(s, field) then MergeTyped(h, s) else MergeValues(h, s, o, t, labels, isTop)
  }

  /** The bookkeeping a ref merge merges is the refs' own. */
  lemma BooksAre(h: Host, b: Option<Cid>, o: Cid, t: Cid, labels: Labels)
    requires IsValueRef(o.content) && IsValueRef(t.content) && (b.Some? ==> IsValueRef(b.value.content))
    ensures var s := Sides(h, b, o, t);
            MergeChildren(h, if s.b.Some? then Book(h, s.b.value) else NoData(), Book(h, s.o), Book(h, s.t), labels)
                == MergeBooks(h, b, o, t, labels)
  {
    var s := Sides(h, b, o, t);
    assert s.o == o.content && s.t == t.content && (b.Some? ==> s.b == Some(b.value.content));
    assert (if s.b.Some? then Book(h, s.b.value) else NoData()) == Content(map[], BookOf(h, b));
  }

  lemma RefsMerge(h: Host, b: Option<Cid>, o: Cid, t: Cid, labels: Labels, isTop: bool, field: bool)
    requires IsValueRef(o.content) && IsValueRef(t.content) && (b.Some? ==> IsValueRef(b.value.content))
    requires !(field && ValuesConflict(Sides(h, b, o, t).bv, Sides(h, b, o, t).ov, Sides(h, b, o, t).tv))
    requires RefsValue(h, b, o, t, labels, isTop, field).failed.Merged?
            && RefsValue(h, b, o, t, labels, isTop, field).raised == []
    requires MergeBooks(h, b, o, t, labels).rows.Rows? && MergeBooks(h, b, o, t, labels).raised == []
    ensures MergeRefs(h, b, o, t, labels, isTop, field)
         == NodeResult(Merged(MergedRef(h, Sides(h, b, o, t), o, t, RefsValue(h, b, o, t, labels, isTop, field).request,
             MergeBooks(h, b, o, t, labels).rows)), [])
  {
    BooksAre(h, b, o, t, labels);
  }

  lemma RefsRefine(h: Host, b: Option<Cid>, o: Cid, t: Cid, labels: Labels, isTop: bool, field: bool)
    requires IsValueRef(o.content) && IsValueRef(t.content) && (b.Some? ==> IsValueRef(b.value.content))
    requires FieldsApart(BaseContent(b).data, o.content.data, t.content.data)
    requires BooksApart(h, b, o, t) && BooksRefined(h, b, o, t, labels)
    requires ValueRefined(h, Sides(h, b, o, t), RefsValue(h, b, o, t, labels, isTop, field))
    requires !(field && ValuesConflict(Sides(h, b, o, t).bv, Sides(h, b, o, t).ov, Sides(h, b, o, t).tv))
    ensures Refined(h, b, o, t, MergeRefs(h, b, o, t, labels, isTop, field))
  {
    var value := RefsValue(h, b, o, t, labels, isTop, field);
    BooksRefine(h, b, o, t, labels);
    RefsMerge(h, b, o, t, labels, isTop, field);
    MergedRefTree(h, b, o, t, labels, value.request);
    DataRefines(BaseContent(b).data, o.content.data, t.content.data);
    RefPatch(h, b, o, t, value.request, MergeBooks(h, b, o, t, labels).rows.edges);
  }

  lemma RefPatch(h: Host, b: Option<Cid>, o: Cid, t: Cid, value: Option<Cid>, edges: seq<Edge>)
    requires IsValueRef(o.content) && IsValueRef(t.content) && (b.Some? ==> IsValueRef(b.value.content))
    requires RowsOf(h, edges) == PatchRows(BaseTreeOf(h, b), TreeOf(h, o), TreeOf(h, t))
    requires Untimed(MergedData(BaseContent(b).data, o.content.data, t.content.data))
          == PatchData(Untimed(BaseContent(b).data), Untimed(o.content.data), Untimed(t.content.data))
    requires ValueRefined(h, Sides(h, b, o, t), RequestResult(value, Merged(Cid(EMPTY)), []))
    ensures Tree(true, Untimed(MergedData(BaseContent(b).data, o.content.data, t.content.data)), ValueTree(h, value),
            RowsOf(h, edges))
         == Patch(BaseTreeOf(h, b), TreeOf(h, o), TreeOf(h, t))
  {
    var bt, ot, tt := BaseTreeOf(h, b), TreeOf(h, o), TreeOf(h, t);
    PatchIsInside(bt, ot, tt);
    assert Data0(bt) == Untimed(BaseContent(b).data);
    var s := Sides(h, b, o, t);
    assert ot.value == ValueTree(h, s.ov) && tt.value == ValueTree(h, s.tv) && Value0(bt) == ValueTree(h, s.bv);
  }

  lemma MergedRefTree(h: Host, b: Option<Cid>, o: Cid, t: Cid, labels: Labels, value: Option<Cid>)
    requires IsValueRef(o.content) && IsValueRef(t.content) && (b.Some? ==> IsValueRef(b.value.content))
    requires BooksApart(h, b, o, t) && BooksRefined(h, b, o, t, labels)
    requires MergeBooks(h, b, o, t, labels).rows.Rows?
    ensures TreeOf(h, MergedRef(h, Sides(h, b, o, t), o, t, value, MergeBooks(h, b, o, t, labels).rows))
         == Tree(true, Untimed(MergedData(BaseContent(b).data, o.content.data, t.content.data)), ValueTree(h, value),
                 RowsOf(h, MergeBooks(h, b, o, t, labels).rows.edges))
  {
    var s := Sides(h, b, o, t);
    BookEdges(h, b, o, t, labels);
    HistoryIsPrev(h, s, o, t, value);
    NotHandle(BaseContent(b).data, o.content.data, t.content.data);
    RefTree(h, MergedData(BaseContent(b).data, o.content.data, t.content.data), value,
        MergeBooks(h, b, o, t, labels).rows.edges,
      History(h, s, o, t, value));
  }

  // ---------------------------------------------------------------------------
  // Nodes

  lemma AlikeNode(h: Host, b: Option<Cid>, o: Cid, t: Cid, labels: Labels, isTop: bool, field: bool)
    requires Unchanged(b, o, t).None? && Alike(b, o, t)
    ensures MergeNode(h, b, o, t, labels, isTop, field)
         == if IsMutableRef(o.content) then MergeRefs(h, b, o, t, labels, isTop, field)
             else MergePlain(h, b, o, t, labels, isTop)
  {}

  lemma UnchangedRefines(h: Host, b: Option<Cid>, o: Cid, t: Cid, labels: Labels, isTop: bool, field: bool)
    requires Unchanged(b, o, t).Some?
    ensures Refined(h, b, o, t, MergeNode(h, b, o, t, labels, isTop, field))
  {}

  /**
   * Where ours and theirs edit different things of the base, at any depth, the merge raises no choice and the merged
   * node is the base with both edits applied.
   */
  lemma {:induction false} DisjointEditsPatch(h: Host, b: Option<Cid>, o: Cid, t: Cid, labels: Labels, isTop: bool,
      field: bool)
    requires Disjoint(h, b, o, t, field)
    ensures Refined(h, b, o, t, MergeNode(h, b, o, t, labels, isTop, field))
    decreases Height(o) + Height(t), 1
  {
    if Unchanged(b, o, t).Some? {
      UnchangedRefines(h, b, o, t, labels, isTop, field);
    } else {
      AlikeNode(h, b, o, t, labels, isTop, field);
      if IsMutableRef(o.content) {
        RefValuesPatch(h, b, o, t, labels, isTop, field);
        BooksPatch(h, b, o, t, labels);
        RefsRefine(h, b, o, t, labels, isTop, field);
      } else {
        RowsPatch(h, BaseContent(b), o.content, t.content, labels);
        PlainRefines(h, b, o, t, labels, isTop);
      }
    }
  }

  lemma {:induction false} RefValuesPatch(h: Host, b: Option<Cid>, o: Cid, t: Cid, labels: Labels, isTop: bool,
      field: bool)
    requires IsValueRef(o.content) && IsValueRef(t.content) && ValuesApart(h, b, o, t, field)
    ensures ValueRefined(h, Sides(h, b, o, t), RefsValue(h, b, o, t, labels, isTop, field))
    ensures !(field && ValuesConflict(Sides(h, b, o, t).bv, Sides(h, b, o, t).ov, Sides(h, b, o, t).tv))
    decreases Height(o) + Height(t), 0
  {
    var s := Sides(h, b, o, t);
    if IsTyped(s, field) {
      TypedRefines(h, s);
    } else {
      FirstHeight(o.content.children, Prim("target"));
      FirstHeight(t.content.children, Prim("target"));
      DisjointEditsPatch(h, s.bv, s.ov.value, s.tv.value, labels, true, false);
      ValuesRefine(h, s, o, t, labels, isTop);
    }
  }

  lemma {:induction false} BooksPatch(h: Host, b: Option<Cid>, o: Cid, t: Cid, labels: Labels)
    requires BooksApart(h, b, o, t)
    ensures BooksRefined(h, b, o, t, labels)
    decreases Height(o) + Height(t), 0, 1
  {
    BookRowsHeight(h, o.content);
    BookRowsHeight(h, t.content);
    RowsPatch(h, Content(map[], BookOf(h, b)), Book(h, o.content), Book(h, t.content), labels);
  }

  lemma {:induction false} RowsPatch(h: Host, b: Content, o: Content, t: Content, labels: Labels)
    requires RowsApart(h, b.children, o.children, t.children)
    ensures RowsRefined(h, b, o, t, labels)
    decreases Height(Cid(o)) + Height(Cid(t)), 0, 0
  {
    ChildrenBelow(h, o, t);
    var bm, om, tm := RowsByKey(h, b.children), RowsByKey(h, o.children), RowsByKey(h, t.children);
    forall key | BothChanged(At(bm, key), At(om, key), At(tm, key))
        ensures RowRefined(h, At(bm, key), At(om, key), At(tm, key), labels) {
      assert RowApart(h, key, At(bm, key), At(om, key), At(tm, key));
      DisjointEditsPatch(h, BaseOf(At(bm, key), om[key]), om[key].right, tm[key].right, labels, false,
          IsFieldRow(h, om[key]));
    }
  }
}
