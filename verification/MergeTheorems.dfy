/** Two sides converge, and merging back is an inverse: what a failed commit wrote is undone, everything else stays. */
module MergeTheorems {
  import opened Options
  import opened Json
  import opened Graph
  import opened Merge
  import opened MergeLaws
  import opened Convergence
  import opened ConvergenceLaws

  // ---------------------------------------------------------------------------
  // Convergence

  lemma SameField(h: Host, key: Key, o: Edge, t: Edge)
    requires key.Alias? && KeyOf(h, o) == key && KeyOf(h, t) == key && o.left == t.left
    ensures IsFieldRow(h, o) == IsFieldRow(h, t)
  {}

  /** Editing different things is a relation between the two sides, whichever is called ours. */
  lemma {:induction false} DisjointSwap(h: Host, b: Option<Cid>, o: Cid, t: Cid, field: bool)
    requires Disjoint(h, b, o, t, field)
    ensures Disjoint(h, b, t, o, field)
    decreases Height(o) + Height(t), 1
  {
    if Unchanged(b, o, t).None? {
      forall key ensures !FieldConflict(BaseContent(b).data, t.content.data, o.content.data, key) {
        assert !FieldConflict(BaseContent(b).data, o.content.data, t.content.data, key);
      }
      if IsMutableRef(o.content) {
        ValuesSwap(h, b, o, t, field);
        BookRowsHeight(h, o.content);
        BookRowsHeight(h, t.content);
        RowsSwap(h, Content(map[], BookOf(h, b)), Book(h, o.content), Book(h, t.content));
      } else {
        RowsSwap(h, BaseContent(b), o.content, t.content);
      }
    }
  }

  lemma {:induction false} ValuesSwap(h: Host, b: Option<Cid>, o: Cid, t: Cid, field: bool)
    requires ValuesApart(h, b, o, t, field)
    ensures ValuesApart(h, b, t, o, field)
    decreases Height(o) + Height(t), 0
  {
    var s := Sides(h, b, o, t);
    if !IsTyped(s, field) {
      FirstHeight(o.content.children, Prim("target"));
      FirstHeight(t.content.children, Prim("target"));
      DisjointSwap(h, s.bv, s.ov.value, s.tv.value, false);
    }
  }

  lemma {:induction false} RowsSwap(h: Host, b: Content, o: Content, t: Content)
    requires RowsApart(h, b.children, o.children, t.children)
    ensures RowsApart(h, b.children, t.children, o.children)
    decreases Height(Cid(o)) + Height(Cid(t)), 0
  {
    ChildrenBelow(h, o, t);
    RowsByKeyShape(h, o.children);
    RowsByKeyShape(h, t.children);
    var bm, om, tm := RowsByKey(h, b.children), RowsByKey(h, o.children), RowsByKey(h, t.children);
    forall key ensures RowApart(h, key, At(bm, key), At(tm, key), At(om, key)) {
      assert RowApart(h, key, At(bm, key), At(om, key), At(tm, key));
      if BothChanged(At(bm, key), At(om, key), At(tm, key)) {
        DisjointSwap(h, BaseOf(At(bm, key), om[key]), om[key].right, tm[key].right, IsFieldRow(h, om[key]));
        SameField(h, key, om[key], tm[key]);
      }
    }
  }

  /** Disjoint edits converge: whichever side merges, nothing is left to decide and the trees are the same. */
  lemma DisjointEditsConverge(h: Host, b: Option<Cid>, o: Cid, t: Cid, here: Labels, there: Labels)
    requires Disjoint(h, b, o, t, false)
    ensures MergeNodes(h, b, o, t, here).outcome.Merged? && MergeNodes(h, b, o, t, here).raised == []
    ensures MergeNodes(h, b, t, o, there).outcome.Merged? && MergeNodes(h, b, t, o, there).raised == []
    ensures TreeOf(h, MergeNodes(h, b, o, t, here).outcome.cid) == TreeOf(h, MergeNodes(h, b, t, o, there).outcome.cid)
         == Patch(BaseTreeOf(h, b), TreeOf(h, o), TreeOf(h, t))
  {
    DisjointEditsPatch(h, b, o, t, here, true, false);
    DisjointSwap(h, b, o, t, false);
    DisjointEditsPatch(h, b, t, o, there, true, false);
    PatchSwap(BaseTreeOf(h, b), TreeOf(h, o), TreeOf(h, t));
  }

  // ---------------------------------------------------------------------------
  // Undoing a publication

  /** Concurrent edits (`p` to `c`) touch nothing of what a publication (`b` to `p`) changed, as trees. */
  ghost predicate TreesApart(p: Tree, c: Tree, b: Tree)
    decreases c, 1
  {
    || p == c || p == b
    || (&& p.isRef == c.isRef == b.isRef
        && (forall key :: Get(p.data, key) == Get(c.data, key) || Get(p.data, key) == Get(b.data, key))
        && (p.value == c.value || p.value == b.value
            || (p.value.Some? && c.value.Some? && b.value.Some?
                && TreesApart(p.value.value, c.value.value, b.value.value)))
        && forall key :: RowTreesApart(p, c, b, key))
  }

  ghost predicate RowTreesApart(p: Tree, c: Tree, b: Tree, key: Key)
    decreases c, 0
  {
    || RowAt(p.rows, key) == RowAt(c.rows, key) || RowAt(p.rows, key) == RowAt(b.rows, key)
    || (&& key in p.rows && key in c.rows && key in b.rows && p.rows[key].left == c.rows[key].left == b.rows[key].left
        && TreesApart(p.rows[key].tree, c.rows[key].tree, b.rows[key].tree))
  }

  /** Undoing a publication under concurrent edits, then publishing again, gives the edited publication. */
  lemma {:induction false} PatchRedo(p: Tree, c: Tree, b: Tree)
    requires TreesApart(p, c, b)
    ensures Patch(Some(b), Patch(Some(p), c, b), p) == c
    decreases c
  {
    if p != c && p != b {
      var r := Patch(Some(p), c, b);
      PatchIsInside(Some(p), c, b);
      PatchIsInside(Some(b), r, p);
      forall key ensures Get(PatchData(b.data, r.data, p.data), key) == Get(c.data, key) {
        PatchDataAt(p.data, c.data, b.data, key);
        PatchDataAt(b.data, r.data, p.data, key);
      }
      SameData(PatchData(b.data, r.data, p.data), c.data);
      forall key ensures RowAt(PatchRows(Some(b), r, p), key) == RowAt(c.rows, key) {
        RedoRow(p, c, b, r, key);
      }
      SameRows(PatchRows(Some(b), r, p), c.rows);
      RedoValue(p, c, b, r);
    }
  }

  lemma {:induction false} RedoRow(p: Tree, c: Tree, b: Tree, r: Tree, key: Key)
    requires TreesApart(p, c, b) && p != c && p != b && r.rows == PatchRows(Some(p), c, b)
    ensures RowAt(PatchRows(Some(b), r, p), key) == RowAt(c.rows, key)
    decreases c, 0
  {
    PatchRowAt(Some(p), c, b, key);
    PatchRowAt(Some(b), r, p, key);
    assert RowTreesApart(p, c, b, key);
    var pr, cr, br, rr := RowAt(p.rows, key), RowAt(c.rows, key), RowAt(b.rows, key), RowAt(r.rows, key);
    if pr != cr && pr != br {
      PatchRedo(p.rows[key].tree, c.rows[key].tree, b.rows[key].tree);
      RedoBoth(pr.value, cr.value, br.value, rr);
    } else {
      RedoTaken(pr, cr, br, rr);
    }
  }

  lemma RedoBoth(p: Row, c: Row, b: Row, r: Option<Row>)
    requires p != c && p != b && p.left == c.left == b.left
    requires r == Some(Row(c.left, Patch(Some(p.tree), c.tree, b.tree)))
            && Patch(Some(b.tree), Patch(Some(p.tree), c.tree, b.tree), p.tree) == c.tree
    ensures PatchRow(Some(b), r, Some(p), BothRow(Some(b), r, Some(p))) == Some(c)
  {}

  lemma RedoTaken(p: Option<Row>, c: Option<Row>, b: Option<Row>, r: Option<Row>)
    requires p == c || p == b
    requires r == PatchRow(p, c, b, BothRow(p, c, b))
    ensures PatchRow(b, r, p, BothRow(b, r, p)) == c
  {}

  lemma {:induction false} RedoValue(p: Tree, c: Tree, b: Tree, r: Tree)
    requires TreesApart(p, c, b) && p != c && p != b && r == PatchInside(Some(p), c, b)
    ensures PatchInside(Some(b), r, p).value == c.value
    decreases c, 0
  {
    if p.value != c.value && p.value != b.value {
      PatchRedo(p.value.value, c.value.value, b.value.value);
    }
  }

  // The same of nodes: row by row, the concurrent edits or the publication left the row as it was, or both went inside.

  ghost predicate RowOneSided(p: Option<Edge>, c: Option<Edge>, b: Option<Edge>) { p == c || p == b }

  ghost predicate RowIsApart(h: Host, key: Key, p: Option<Edge>, c: Option<Edge>, b: Option<Edge>)
    decreases if c.Some? then Height(c.value.right) else 0, 2
  {
    || RowOneSided(p, c, b)
    || (&& key.Alias? && p.Some? && c.Some? && b.Some? && p.value.left == c.value.left == b.value.left
        && !IsChoice(c.value) && !IsProposal(c.value)
        && Apart(h, p.value.right, c.value.right, b.value.right, IsFieldRow(h, c.value)))
  }

  ghost predicate FieldsOneSided(p: Data, c: Data, b: Data) {
    forall key | key != "updated" :: Get(p, key) == Get(c, key) || Get(p, key) == Get(b, key)
  }

  predicate AllAlike(p: Cid, c: Cid, b: Cid) { Alike(Some(p), c, b) }

  /** Concurrent edits (`p` to `c`) touch nothing of what a publication (`b` to `p`) changed, at any depth. */
  ghost predicate Apart(h: Host, p: Cid, c: Cid, b: Cid, field: bool)
    decreases Height(c), 1
  {
    || p == c || p == b
    || (&& AllAlike(p, c, b)
        && FieldsOneSided(p.content.data, c.content.data, b.content.data)
        && if IsMutableRef(c.content)
           then ValuesOneSided(h, p, c, b, field) && BooksAreApart(h, p, c, b)
           else (RowsHeights(h, c.content.children);
                 forall key :: RowIsApart(h, key, At(RowsByKey(h, p.content.children), key),
                     At(RowsByKey(h, c.content.children), key),
                                          At(RowsByKey(h, b.content.children), key))))
  }

  /** The same of the members, proposals, peers and own rows of three refs. */
  ghost predicate BooksAreApart(h: Host, p: Cid, c: Cid, b: Cid)
    decreases Height(c), 0
  {
    BookRowsHeight(h, c.content);
    RowsHeights(h, Book(h, c.content).children);
    forall key :: RowIsApart(h, key, At(RowsByKey(h, Book(h, p.content).children), key),
        At(RowsByKey(h, Book(h, c.content).children), key),
                             At(RowsByKey(h, Book(h, b.content).children), key))
  }

  /** Three refs that hold values and agree on being named; a typed value is changed on one side only. */
  ghost predicate ValuesOneSided(h: Host, p: Cid, c: Cid, b: Cid, field: bool)
    decreases Height(c), 0
  {
    FirstHeight(c.content.children, Prim("target"));
    && IsMutableRef(c.content)
    && RefValue(p.content).Some? && RefValue(c.content).Some? && RefValue(b.content).Some?
    && Has(p.content.data, "name") == Has(c.content.data, "name") == Has(b.content.data, "name")
    && if field || Has(c.content.data, "name")
       then RefValue(p.content) == RefValue(c.content) || RefValue(p.content) == RefValue(b.content)
       else Apart(h, RefValue(p.content).value, RefValue(c.content).value, RefValue(b.content).value, false)
  }

  lemma {:induction false} ApartDisjoint(h: Host, p: Cid, c: Cid, b: Cid, field: bool)
    requires Apart(h, p, c, b, field)
    ensures Disjoint(h, Some(p), c, b, field)
    decreases Height(c), 1
  {
    if Unchanged(Some(p), c, b).None? {
      if IsMutableRef(c.content) {
        ApartValues(h, p, c, b, field);
        ApartBooks(h, p, c, b);
      } else {
        RowsHeights(h, c.content.children);
        forall key ensures RowApart(h, key, At(RowsByKey(h, p.content.children), key),
            At(RowsByKey(h, c.content.children), key),
                                    At(RowsByKey(h, b.content.children), key)) {
          ApartRow(h, key, At(RowsByKey(h, p.content.children), key), At(RowsByKey(h, c.content.children), key),
              At(RowsByKey(h, b.content.children), key));
        }
      }
    }
  }

  lemma {:induction false} ApartBooks(h: Host, p: Cid, c: Cid, b: Cid)
    requires BooksAreApart(h, p, c, b)
    ensures BooksApart(h, Some(p), c, b)
    decreases Height(c), 0
  {
    BookRowsHeight(h, c.content);
    RowsHeights(h, Book(h, c.content).children);
    var pm, cm, bm := RowsByKey(h, Book(h, p.content).children), RowsByKey(h, Book(h, c.content).children),
        RowsByKey(h, Book(h, b.content).children);
    forall key ensures RowApart(h, key, At(pm, key), At(cm, key), At(bm, key)) {
      ApartRow(h, key, At(pm, key), At(cm, key), At(bm, key));
    }
  }

  lemma {:induction false} ApartValues(h: Host, p: Cid, c: Cid, b: Cid, field: bool)
    requires IsValueRef(p.content) && IsValueRef(c.content) && IsValueRef(b.content)
            && ValuesOneSided(h, p, c, b, field)
    ensures ValuesApart(h, Some(p), c, b, field)
    decreases Height(c), 0
  {
    FirstHeight(c.content.children, Prim("target"));
    if !(field || Has(c.content.data, "name")) {
      ApartDisjoint(h, RefValue(p.content).value, RefValue(c.content).value, RefValue(b.content).value, false);
    }
  }

  lemma {:induction false} ApartRow(h: Host, key: Key, p: Option<Edge>, c: Option<Edge>, b: Option<Edge>)
    requires RowIsApart(h, key, p, c, b)
    ensures RowApart(h, key, p, c, b)
    decreases if c.Some? then Height(c.value.right) else 0, 2
  {
    if !RowOneSided(p, c, b) { ApartDisjoint(h, p.value.right, c.value.right, b.value.right, IsFieldRow(h, c.value)); }
  }

  lemma {:induction false} ApartTrees(h: Host, p: Cid, c: Cid, b: Cid, field: bool)
    requires Apart(h, p, c, b, field)
    ensures TreesApart(TreeOf(h, p), TreeOf(h, c), TreeOf(h, b))
    decreases Height(c), 1
  {
    if p != c && p != b {
      ApartFields(p.content.data, c.content.data, b.content.data);
      if IsMutableRef(c.content) {
        ApartValueTrees(h, p, c, b, field);
        ApartBookTrees(h, p, c, b);
      } else {
        RowsHeights(h, c.content.children);
        forall key ensures RowTreesApart(TreeOf(h, p), TreeOf(h, c), TreeOf(h, b), key) {
          ApartRowTrees(h, p.content.children, c.content.children, b.content.children, TreeOf(h, p), TreeOf(h, c),
              TreeOf(h, b), key);
        }
      }
    }
  }

  lemma ApartFields(p: Data, c: Data, b: Data)
    requires FieldsOneSided(p, c, b)
    ensures forall key :: Get(Untimed(p), key) == Get(Untimed(c), key) || Get(Untimed(p), key) == Get(Untimed(b), key)
  {
    forall key ensures Get(Untimed(p), key) == Get(Untimed(c), key) || Get(Untimed(p), key) == Get(Untimed(b), key) {
      if key != "updated" { assert Get(p, key) == Get(c, key) || Get(p, key) == Get(b, key); }
    }
  }

  lemma {:induction false} ApartBookTrees(h: Host, p: Cid, c: Cid, b: Cid)
    requires IsMutableRef(p.content) && IsMutableRef(c.content) && IsMutableRef(b.content) && BooksAreApart(h, p, c, b)
    ensures forall key :: RowTreesApart(TreeOf(h, p), TreeOf(h, c), TreeOf(h, b), key)
    decreases Height(c), 0
  {
    BookRowsHeight(h, c.content);
    forall key ensures RowTreesApart(TreeOf(h, p), TreeOf(h, c), TreeOf(h, b), key) {
      RowsHeights(h, Book(h, c.content).children);
      ApartRowTrees(h, Book(h, p.content).children, Book(h, c.content).children, Book(h, b.content).children,
          TreeOf(h, p), TreeOf(h, c), TreeOf(h, b), key);
    }
  }

  lemma {:induction false} ApartRowTrees(h: Host, p: seq<Edge>, c: seq<Edge>, b: seq<Edge>, pt: Tree, ct: Tree,
      bt: Tree, key: Key)
    requires pt.rows == RowsOf(h, p) && ct.rows == RowsOf(h, c) && bt.rows == RowsOf(h, b)
    requires RowIsApart(h, key, At(RowsByKey(h, p), key), At(RowsByKey(h, c), key), At(RowsByKey(h, b), key))
    ensures RowTreesApart(pt, ct, bt, key)
    decreases RowsHeight(c), 2
  {
    var pm, cm, bm := RowsByKey(h, p), RowsByKey(h, c), RowsByKey(h, b);
    RowsOfAt(h, p, key);
    RowsOfAt(h, c, key);
    RowsOfAt(h, b, key);
    if !RowOneSided(At(pm, key), At(cm, key), At(bm, key)) {
      RowsHeights(h, c);
      ApartTrees(h, pm[key].right, cm[key].right, bm[key].right, IsFieldRow(h, cm[key]));
    }
  }

  lemma {:induction false} ApartValueTrees(h: Host, p: Cid, c: Cid, b: Cid, field: bool)
    requires IsMutableRef(p.content) && IsMutableRef(c.content) && IsMutableRef(b.content)
            && ValuesOneSided(h, p, c, b, field)
    ensures var pv, cv, bv := TreeOf(h, p).value, TreeOf(h, c).value, TreeOf(h, b).value;
            pv == cv || pv == bv || (pv.Some? && cv.Some? && bv.Some? && TreesApart(pv.value, cv.value, bv.value))
    decreases Height(c), 0
  {
    FirstHeight(c.content.children, Prim("target"));
    if !(field || Has(c.content.data, "name")) {
      ApartTrees(h, RefValue(p.content).value, RefValue(c.content).value, RefValue(b.content).value, false);
    }
  }

  // The undone node and the publication edit different things of the node before, so publishing again is a merge too.

  lemma UndoneField(p: Data, c: Data, b: Data, key: string)
    requires FieldsOneSided(p, c, b)
    ensures !FieldConflict(b, MergedData(p, c, b), p, key)
  {
    if key != "updated" {
      MergedFieldSide(p, c, b, key);
      assert Get(p, key) == Get(c, key) || Get(p, key) == Get(b, key);
    }
  }

  function Undone(h: Host, p: Cid, c: Cid, b: Cid, labels: Labels, isTop: bool, field: bool): NodeResult {
    MergeNode(h, Some(p), c, b, labels, isTop, field)
  }

  /** One row of the undone node beside the row before and the row published. */
  lemma {:induction false} UndoneRow(h: Host, key: Key, p: Option<Edge>, c: Option<Edge>, b: Option<Edge>,
      labels: Labels, bound: nat)
    requires c.Some? && b.Some? ==> Height(c.value.right) + Height(b.value.right) < bound
    requires Keyed(h, key, p) && Keyed(h, key, c) && Keyed(h, key, b) && RowIsApart(h, key, p, c, b)
    requires Single(h, key, MergeKey(h, key, p, c, b, labels, bound))
    ensures RowApart(h, key, b, Contribution(MergeKey(h, key, p, c, b, labels, bound)), p)
    decreases if c.Some? then Height(c.value.right) else 0, 5
  {
    if !RowOneSided(p, c, b) && c != b {
      var field := IsFieldRow(h, c.value);
      var merged := MergeNode(h, BaseOf(p, c.value), c.value.right, b.value.right, labels, false, field);
      assert BaseOf(p, c.value) == Some(p.value.right);
      UndoneDisjoint(h, p.value.right, c.value.right, b.value.right, labels, false, field);
      assert KeepsIdentity(c.value.right, b.value.right, merged);
      ApartDisjoint(h, p.value.right, c.value.right, b.value.right, field);
      DisjointEditsPatch(h, Some(p.value.right), c.value.right, b.value.right, labels, false, field);
      var e := Edge(c.value.left, merged.outcome.cid);
      assert MergeKey(h, key, p, c, b, labels, bound) == RowsResult(Rows([e]), []);
      SameField(h, key, c.value, e);
      assert BaseOf(b, e) == Some(b.value.right);
    }
  }

  lemma UndoneUnchanged(h: Host, p: Cid, c: Cid, b: Cid, labels: Labels, isTop: bool, field: bool)
    requires Unchanged(Some(p), c, b).Some?
    ensures Undone(h, p, c, b, labels, isTop, field).outcome == Merged(Unchanged(Some(p), c, b).value)
    ensures Disjoint(h, Some(b), Unchanged(Some(p), c, b).value, p, field)
  {}

  lemma {:induction false} UndoneDisjoint(h: Host, p: Cid, c: Cid, b: Cid, labels: Labels, isTop: bool, field: bool)
    requires Apart(h, p, c, b, field)
    ensures Undone(h, p, c, b, labels, isTop, field).outcome.Merged?
    ensures Disjoint(h, Some(b), Undone(h, p, c, b, labels, isTop, field).outcome.cid, p, field)
    decreases Height(c), 4
  {
    if Unchanged(Some(p), c, b).Some? {
      UndoneUnchanged(h, p, c, b, labels, isTop, field);
    } else {
      ApartDisjoint(h, p, c, b, field);
      DisjointEditsPatch(h, Some(p), c, b, labels, isTop, field);
      AlikeNode(h, Some(p), c, b, labels, isTop, field);
      if IsMutableRef(c.content) {
        UndoneRefs(h, p, c, b, labels, isTop, field);
      } else {
        UndonePlain(h, p, c, b, labels, isTop, field);
      }
    }
  }

  lemma {:induction false} UndonePlain(h: Host, p: Cid, c: Cid, b: Cid, labels: Labels, isTop: bool, field: bool)
    requires Apart(h, p, c, b, field) && Unchanged(Some(p), c, b).None? && !IsMutableRef(c.content)
    requires MergePlain(h, Some(p), c, b, labels, isTop).outcome.Merged?
    ensures Disjoint(h, Some(b), MergePlain(h, Some(p), c, b, labels, isTop).outcome.cid, p, field)
    decreases Height(c), 3
  {
    ApartDisjoint(h, p, c, b, field);
    RowsPatch(h, p.content, c.content, b.content, labels);
    var rows := MergeChildren(h, p.content, c.content, b.content, labels).rows;
    PlainRows(h, p.content, c.content, b.content, labels);
    var r := MergePlain(h, Some(p), c, b, labels, isTop).outcome.cid;
    assert r == Cid(Content(MergedData(p.content.data, c.content.data, b.content.data), rows.edges));
    forall key ensures !FieldConflict(b.content.data, r.content.data, p.content.data, key) {
      UndoneField(p.content.data, c.content.data, b.content.data, key);
    }
    forall key ensures RowApart(h, key, At(RowsByKey(h, b.content.children), key),
        At(RowsByKey(h, r.content.children), key), At(RowsByKey(h, p.content.children), key)) {
      UndoneRowAt(h, p.content, c.content, b.content, labels, key);
    }
  }

  lemma {:induction false} UndoneRowAt(h: Host, p: Content, c: Content, b: Content, labels: Labels, key: Key)
    requires RowsApart(h, p.children, c.children, b.children) && RowsRefined(h, p, c, b, labels)
    requires MergeChildren(h, p, c, b, labels).rows.Rows?
    requires RowIsApart(h, key, At(RowsByKey(h, p.children), key), At(RowsByKey(h, c.children), key),
            At(RowsByKey(h, b.children), key))
    ensures RowApart(h, key, At(RowsByKey(h, b.children), key),
            At(RowsByKey(h, MergeChildren(h, p, c, b, labels).rows.edges), key), At(RowsByKey(h, p.children), key))
    decreases Height(Cid(c)), 0
  {
    UndoneRowIs(h, p, c, b, labels, key);
    RowsByKeyShape(h, p.children);
    RowsByKeyShape(h, c.children);
    RowsByKeyShape(h, b.children);
    RowsHeights(h, c.children);
    ChildrenBelow(h, c, b);
    RowForRefines(h, p, c, b, labels, key);
    UndoneRow(h, key, At(RowsByKey(h, p.children), key), At(RowsByKey(h, c.children), key),
        At(RowsByKey(h, b.children), key), labels, Size(Cid(c), Cid(b)));
  }

  lemma UndoneRowIs(h: Host, p: Content, c: Content, b: Content, labels: Labels, key: Key)
    requires RowsApart(h, p.children, c.children, b.children) && RowsRefined(h, p, c, b, labels)
    requires MergeChildren(h, p, c, b, labels).rows.Rows?
    ensures At(RowsByKey(h, MergeChildren(h, p, c, b, labels).rows.edges), key)
            == Contribution(RowFor(h, p, c, b, labels, key))
  {
    forall k ensures Single(h, k, RowFor(h, p, c, b, labels, k)) { RowForRefines(h, p, c, b, labels, k); }
    IndexOfContributions(h, p, c, b, labels, key);
    KeysOfSides(h, p, c, b, key);
  }

  // Refs.

  lemma {:induction false} UndoneBooks(h: Host, p: Cid, c: Cid, b: Cid, labels: Labels, r: Cid)
    requires BooksAreApart(h, p, c, b) && BooksApart(h, Some(p), c, b) && BooksRefined(h, Some(p), c, b, labels)
    requires MergeBooks(h, Some(p), c, b, labels).rows.Rows?
            && Book(h, r.content).children == MergeBooks(h, Some(p), c, b, labels).rows.edges
    ensures BooksApart(h, Some(b), r, p)
    decreases Height(c), 1
  {
    var pc, cc, bc := Content(map[], BookOf(h, Some(p))), Book(h, c.content), Book(h, b.content);
    BookRowsHeight(h, c.content);
    RowsHeights(h, cc.children);
    forall key ensures RowApart(h, key, At(RowsByKey(h, bc.children), key),
        At(RowsByKey(h, Book(h, r.content).children), key), At(RowsByKey(h, pc.children), key)) {
      assert RowIsApart(h, key, At(RowsByKey(h, pc.children), key), At(RowsByKey(h, cc.children), key),
          At(RowsByKey(h, bc.children), key));
      UndoneRowAt(h, pc, cc, bc, labels, key);
    }
  }

  /** The bookkeeping of the three refs merges to bookkeeping. */
  ghost predicate BooksMergeTo(h: Host, p: Cid, c: Cid, b: Cid, labels: Labels) {
    && IsValueRef(p.content) && IsValueRef(c.content) && IsValueRef(b.content)
    && BooksApart(h, Some(p), c, b) && BooksRefined(h, Some(p), c, b, labels)
        && MergeBooks(h, Some(p), c, b, labels).rows.Rows?
  }

  lemma MergedRefShape(h: Host, p: Cid, c: Cid, b: Cid, labels: Labels, value: Option<Cid>)
    requires BooksMergeTo(h, p, c, b, labels)
    ensures var r := MergedRef(h, Sides(h, Some(p), c, b), c, b, value,
            MergeBooks(h, Some(p), c, b, labels).rows).content;
            && IsMutableRef(r) && RefValue(r) == value
                && Book(h, r).children == MergeBooks(h, Some(p), c, b, labels).rows.edges
            && r.data == MergedData(p.content.data, c.content.data, b.content.data)
  {
    var s, rows := Sides(h, Some(p), c, b), MergeBooks(h, Some(p), c, b, labels).rows;
    BookEdges(h, Some(p), c, b, labels);
    HistoryIsPrev(h, s, c, b, value);
    NotHandle(p.content.data, c.content.data, b.content.data);
    RefReads(h, MergedData(p.content.data, c.content.data, b.content.data), value, rows.edges,
        History(h, s, c, b, value));
  }

  lemma MergedRefUnbranched(h: Host, p: Cid, c: Cid, b: Cid, labels: Labels, value: Option<Cid>)
    requires BooksMergeTo(h, p, c, b, labels)
    ensures !IsBranchChoice(MergedRef(h, Sides(h, Some(p), c, b), c, b, value,
            MergeBooks(h, Some(p), c, b, labels).rows).content)
  {
    var s, rows := Sides(h, Some(p), c, b), MergeBooks(h, Some(p), c, b, labels).rows;
    BookEdges(h, Some(p), c, b, labels);
    HistoryIsPrev(h, s, c, b, value);
    RefNodeUnbranched(MergedData(p.content.data, c.content.data, b.content.data), value, rows.edges,
        History(h, s, c, b, value));
  }

  lemma RefNodeUnbranched(data: Data, value: Option<Cid>, book: seq<Edge>, history: seq<Edge>)
    requires forall e | e in book :: e.left != Prim("notSelected")
    requires forall e | e in history :: IsPrev(e)
    ensures !IsBranchChoice(RefNode(data, value, book + history))
  {
    OtherPrims();
  }

  lemma OtherPrims()
    ensures Prim("target") != Prim("notSelected") && Prim("alias") != Prim("notSelected")
            && Prim("previous") != Prim("notSelected")
  {
    if Prim("target") == Prim("notSelected") { PrimInjective("target", "notSelected"); }
    if Prim("alias") == Prim("notSelected") { PrimInjective("alias", "notSelected"); }
    if Prim("previous") == Prim("notSelected") { PrimInjective("previous", "notSelected"); }
  }

  lemma UndoneName(p: Data, c: Data, b: Data)
    requires Has(c, "name") == Has(b, "name")
    ensures Has(MergedData(p, c, b), "name") == Has(c, "name")
  {
    MergedFieldSide(p, c, b, "name");
  }

  lemma {:induction false} UndoneRefs(h: Host, p: Cid, c: Cid, b: Cid, labels: Labels, isTop: bool, field: bool)
    requires Apart(h, p, c, b, field) && Unchanged(Some(p), c, b).None? && IsMutableRef(c.content)
    ensures MergeRefs(h, Some(p), c, b, labels, isTop, field).outcome.Merged?
    ensures Disjoint(h, Some(b), MergeRefs(h, Some(p), c, b, labels, isTop, field).outcome.cid, p, field)
    decreases Height(c), 3
  {
    ApartDisjoint(h, p, c, b, field);
    BooksPatch(h, Some(p), c, b, labels);
    BooksRefine(h, Some(p), c, b, labels);
    RefValuesPatch(h, Some(p), c, b, labels, isTop, field);
    RefsMerge(h, Some(p), c, b, labels, isTop, field);
    ApartParts(h, p, c, b, field);
    UndoneRef(h, p, c, b, labels, isTop, field,
      MergedRef(h, Sides(h, Some(p), c, b), c, b, RefsValue(h, Some(p), c, b, labels, isTop, field).request,
          MergeBooks(h, Some(p), c, b, labels).rows));
  }

  /** What being apart says of three refs. */
  lemma ApartParts(h: Host, p: Cid, c: Cid, b: Cid, field: bool)
    requires Apart(h, p, c, b, field) && p != c && p != b && IsMutableRef(c.content)
    ensures AllAlike(p, c, b) && IsValueRef(p.content) && IsValueRef(c.content) && IsValueRef(b.content)
    ensures FieldsOneSided(p.content.data, c.content.data, b.content.data) && ValuesOneSided(h, p, c, b, field)
            && BooksAreApart(h, p, c, b)
  {}

  lemma {:induction false} UndoneRef(h: Host, p: Cid, c: Cid, b: Cid, labels: Labels, isTop: bool, field: bool, r: Cid)
    requires AllAlike(p, c, b) && IsMutableRef(c.content)
            && FieldsOneSided(p.content.data, c.content.data, b.content.data)
    requires ValuesOneSided(h, p, c, b, field) && BooksAreApart(h, p, c, b) && BooksMergeTo(h, p, c, b, labels)
    requires r == MergedRef(h, Sides(h, Some(p), c, b), c, b, RefsValue(h, Some(p), c, b, labels, isTop, field).request,
            MergeBooks(h, Some(p), c, b, labels).rows)
    ensures Disjoint(h, Some(b), r, p, field)
    decreases Height(c), 2
  {
    var value := RefsValue(h, Some(p), c, b, labels, isTop, field).request;
    MergedRefShape(h, p, c, b, labels, value);
    MergedRefUnbranched(h, p, c, b, labels, value);
    UndoneBooks(h, p, c, b, labels, r);
    UndoneValues(h, p, c, b, labels, isTop, field, r);
    RefDisjoint(h, p, c, b, labels, field, r);
  }

  lemma RefDisjoint(h: Host, p: Cid, c: Cid, b: Cid, labels: Labels, field: bool, r: Cid)
    requires IsValueRef(p.content) && IsValueRef(b.content) && IsValueRef(r.content)
    requires FieldsOneSided(p.content.data, c.content.data, b.content.data)
    requires r.content.data == MergedData(p.content.data, c.content.data, b.content.data)
    requires BooksApart(h, Some(b), r, p) && ValuesApart(h, Some(b), r, p, field)
    ensures Disjoint(h, Some(b), r, p, field)
  {
    forall key ensures !FieldConflict(b.content.data, r.content.data, p.content.data, key) {
      UndoneField(p.content.data, c.content.data, b.content.data, key);
    }
  }

  lemma {:induction false} UndoneValues(h: Host, p: Cid, c: Cid, b: Cid, labels: Labels, isTop: bool, field: bool,
      r: Cid)
    requires IsValueRef(p.content) && IsValueRef(c.content) && IsValueRef(b.content)
            && ValuesOneSided(h, p, c, b, field)
    requires IsMutableRef(r.content) && RefValue(r.content) == RefsValue(h, Some(p), c, b, labels, isTop, field).request
    requires r.content.data == MergedData(p.content.data, c.content.data, b.content.data)
    ensures ValuesApart(h, Some(b), r, p, field)
    decreases Height(c), 0
  {
    UndoneName(p.content.data, c.content.data, b.content.data);
    if !(field || Has(c.content.data, "name")) {
      FirstHeight(c.content.children, Prim("target"));
      var pv, cv, bv := RefValue(p.content).value, RefValue(c.content).value, RefValue(b.content).value;
      UndoneDisjoint(h, pv, cv, bv, labels, true, false);
      assert SideValue(h, c.content) == cv && SideValue(h, b.content) == bv;
      assert RefValue(r.content) == Some(Undone(h, pv, cv, bv, labels, true, false).outcome.cid);
    }
  }

  /**
   * A publication (`before` to `published`) that failed is undone by merging the node before it into the current node.
   * With nobody else editing, the node before is back exactly; otherwise everything the publication wrote is undone and
   * every concurrent edit stays, which is to say that publishing again gives the current tree.
   */
  lemma MergeIsInversePatch(h: Host, before: Cid, published: Cid, current: Cid, labels: Labels, again: Labels)
    requires Apart(h, published, current, before, false)
    ensures var restored := MergeNodes(h, Some(published), current, before, labels);
            && restored.outcome.Merged? && restored.raised == []
            && (current == published ==> restored.outcome.cid == before)
            && TreeOf(h, restored.outcome.cid) == Patch(Some(TreeOf(h, published)), TreeOf(h, current),
                TreeOf(h, before))
            && MergeNodes(h, Some(before), restored.outcome.cid, published, again).outcome.Merged?
            && TreeOf(h, MergeNodes(h, Some(before), restored.outcome.cid, published, again).outcome.cid)
                == TreeOf(h, current)
  {
    ApartDisjoint(h, published, current, before, false);
    DisjointEditsPatch(h, Some(published), current, before, labels, true, false);
    UndoneDisjoint(h, published, current, before, labels, true, false);
    var restored := MergeNodes(h, Some(published), current, before, labels).outcome.cid;
    DisjointEditsPatch(h, Some(before), restored, published, again, true, false);
    ApartTrees(h, published, current, before, false);
    PatchRedo(TreeOf(h, published), TreeOf(h, current), TreeOf(h, before));
  }
}
