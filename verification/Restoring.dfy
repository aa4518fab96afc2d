/** The restoring merge of a failed publication, as the evaluator sees it and as it is on nodes. */
module Restoring {
  import opened Options
  import opened Graph
  import opened Merge
  import opened Convergence
  import opened ConvergenceLaws
  import opened MergeTheorems
  import opened Evaluation
  import opened Conflicts
  import L = Lossless
  import W = MergeWitnesses
  import V = RefWitnesses

  // ---------------------------------------------------------------------------
  // Reading a tree

  const NOTHING := Tree(false, map[], None, map[])

  /** What rows are read of: the value of a ref, nothing when it holds none; else the tree itself. */
  function Inner(t: Tree): Tree { if t.isRef then (if t.value.Some? then t.value.value else NOTHING) else t }

  /** The row at a place: the keys that lead to it, through the values of refs. */
  function Read(t: Tree, place: seq<Key>): Option<Row>
    requires place != []
    decreases |place|
  {
    var row := RowAt(t.rows, place[0]);
    if |place| == 1 || row.None? then row else Read(Inner(row.value.tree), place[1..])
  }

  ghost predicate OneSidedAt(p: Tree, c: Tree, b: Tree, place: seq<Key>)
    requires place != []
  {
    Read(p, place) == Read(c, place) || Read(p, place) == Read(b, place)
  }

  lemma InnerApart(p: Tree, c: Tree, b: Tree)
    requires TreesApart(p, c, b)
    ensures TreesApart(Inner(p), Inner(c), Inner(b))
            && Inner(Patch(Some(p), c, b)) == Patch(Some(Inner(p)), Inner(c), Inner(b))
  {
    if p != c && p != b { PatchIsInside(Some(p), c, b); }
  }

  /** At a place only one side changed, the patch has that side's version. */
  lemma {:induction false} ReadPatched(p: Tree, c: Tree, b: Tree, place: seq<Key>)
    requires place != [] && TreesApart(p, c, b) && OneSidedAt(p, c, b, place)
    ensures Read(Patch(Some(p), c, b), place) == Patched(Read(p, place), Read(c, place), Read(b, place))
    decreases |place|
  {
    if p != c && p != b {
      var key := place[0];
      PatchIsInside(Some(p), c, b);
      PatchRowAt(Some(p), c, b, key);
      assert RowTreesApart(p, c, b, key);
      if |place| > 1 && Contested(RowAt(p.rows, key), RowAt(c.rows, key), RowAt(b.rows, key)) {
        var pt, ct, bt := p.rows[key].tree, c.rows[key].tree, b.rows[key].tree;
        InnerApart(pt, ct, bt);
        ReadPatched(Inner(pt), Inner(ct), Inner(bt), place[1..]);
      }
    }
  }

  /** Three different versions. */
  predicate Contested(p: Option<Row>, c: Option<Row>, b: Option<Row>) { p != c && p != b && c != b }

  // ---------------------------------------------------------------------------
  // A replica read from a tree

  /** A part of the replica: where it is kept, and what is read from the row there. */
  datatype Part<!T> = Part(place: seq<Key>, value: Option<Row> -> T)

  predicate IsPart<T>(part: Part<T>) { part.place != [] }

  function PartOf<T>(part: Part<T>, t: Tree): T
    requires IsPart(part)
  {
    part.value(Read(t, part.place))
  }

  /** Only one side changed what the part is read from. */
  ghost predicate PartApart<T>(part: Part<T>, p: Tree, c: Tree, b: Tree) {
    IsPart(part) && OneSidedAt(p, c, b, part.place)
  }

  lemma PartPatched<T>(part: Part<T>, p: Tree, c: Tree, b: Tree)
    requires TreesApart(p, c, b) && PartApart(part, p, c, b)
    ensures PartOf(part, Patch(Some(p), c, b)) == Patched(PartOf(part, p), PartOf(part, c), PartOf(part, b))
  {
    ReadPatched(p, c, b, part.place);
  }

  datatype Layout = Layout(journal: Part<Option<Record>>, pending: Part<set<Write>>, live: Part<set<Write>>,
      done: Part<set<nat>>,
    tasks: Part<set<nat>>, edits: Part<map<string, string>>)

  predicate IsLayout(l: Layout) {
    IsPart(l.journal) && IsPart(l.pending) && IsPart(l.live) && IsPart(l.done) && IsPart(l.tasks) && IsPart(l.edits)
  }

  function ReplicaOf(l: Layout, t: Tree): Replica
    requires IsLayout(l)
  {
    Replica(PartOf(l.journal, t), PartOf(l.pending, t), PartOf(l.live, t), PartOf(l.done, t), PartOf(l.tasks, t),
        PartOf(l.edits, t))
  }

  /** Of each part, the publication or the concurrent edits left what it is read from as it was. */
  ghost predicate PartsApart(l: Layout, p: Tree, c: Tree, b: Tree) {
    && PartApart(l.journal, p, c, b) && PartApart(l.pending, p, c, b) && PartApart(l.live, p, c, b)
    && PartApart(l.done, p, c, b) && PartApart(l.tasks, p, c, b) && PartApart(l.edits, p, c, b)
  }

  /**
   * Wherever the parts of a replica are kept, if each was changed by the publication or by others, not both, the merge
   * that undoes the publication restores the replica part by part, as the evaluator's model of it does.
   */
  lemma RestoredIsMerged(h: Host, before: Cid, published: Cid, current: Cid, labels: Labels, l: Layout)
    requires Apart(h, published, current, before, false)
    requires PartsApart(l, TreeOf(h, published), TreeOf(h, current), TreeOf(h, before))
    ensures var restored := MergeNodes(h, Some(published), current, before, labels);
            && restored.outcome.Merged?
            && ReplicaOf(l, TreeOf(h, restored.outcome.cid))
               == Restored(ReplicaOf(l, TreeOf(h, published)), ReplicaOf(l, TreeOf(h, current)),
                   ReplicaOf(l, TreeOf(h, before)))
  {
    var p, c, b := TreeOf(h, published), TreeOf(h, current), TreeOf(h, before);
    MergeIsInversePatch(h, before, published, current, labels, labels);
    ApartTrees(h, published, current, before, false);
    PartPatched(l.journal, p, c, b);
    PartPatched(l.pending, p, c, b);
    PartPatched(l.live, p, c, b);
    PartPatched(l.done, p, c, b);
    PartPatched(l.tasks, p, c, b);
    PartPatched(l.edits, p, c, b);
  }

  // ---------------------------------------------------------------------------
  // Where the restoring merge does not take the publication back

  /** It refuses exactly where the edits since and the version before split on the published one. */
  lemma RestoringRefuses(h: Host, before: Cid, published: Cid, current: Cid, labels: Labels)
    ensures var restored := MergeNodes(h, Some(published), current, before, labels).outcome;
            !restored.Thrown? ==> (restored.Conflict? <==> Splits(h, Some(published), current, before, true, false))
  {
    NodeConflicts(h, Some(published), current, before, labels, true, false);
  }

  /** Of a plain root: exactly where one of its own fields was published and edited since, and the versions split. */
  lemma PlainRootRefuses(h: Host, before: Cid, published: Cid, current: Cid, labels: Labels)
    requires W.IsPlain(current) && W.IsPlain(before)
    requires current != before && current != published && before != published
    requires !MergeNodes(h, Some(published), current, before, labels).outcome.Thrown?
    ensures MergeNodes(h, Some(published), current, before, labels).outcome.Conflict?
            <==> RowsSplit(h, published.content, current.content, before.content)
  {
    PlainNodesConflict(h, Some(published), current, before, labels, true);
  }

  /** A root that is a ref never refuses: where its values split it keeps the current one, with what was published. */
  lemma RefRootKeepsPublished(h: Host, before: Cid, published: Cid, current: Cid, labels: Labels)
    requires IsMutableRef(current.content) && !IsBranchChoice(current.content) && !IsBranchChoice(before.content)
    requires Unchanged(Some(published), current, before).None?
    requires !IsTyped(Sides(h, Some(published), current, before), false)
    requires !MergeNodes(h, Some(published), current, before, labels).outcome.Thrown?
    ensures var r := MergeNodes(h, Some(published), current, before, labels).outcome;
            && r.Merged?
            && (ValuesSplit(h, Sides(h, Some(published), current, before), current, before) ==>
                  RefValue(r.cid.content) == Some(SideValue(h, current.content)))
  {
    RefRootMerges(h, Some(published), current, before, labels);
    NodeConflicts(h, Some(published), current, before, labels, true, false);
    L.RefValueKept(h, Some(published), current, before, labels, true, false);
  }

  lemma RefRootMerges(h: Host, base: Option<Cid>, ours: Cid, theirs: Cid, labels: Labels)
    requires IsMutableRef(ours.content) && !IsBranchChoice(ours.content) && !IsBranchChoice(theirs.content)
    requires Unchanged(base, ours, theirs).None? && !IsTyped(Sides(h, base, ours, theirs), false)
    ensures MergeNodes(h, base, ours, theirs, labels) == MergeRefs(h, base, ours, theirs, labels, true, false)
    ensures !Splits(h, base, ours, theirs, true, false)
  {}

  /** A field of the root was published and edited since: the restoring merge refuses. */
  lemma RestoringIsRefused(h: Host, labels: Labels)
    requires W.LongTexts(h)
    ensures MergeNodes(h, Some(V.Held(V.Field(h, 0.0))), V.Held(V.Field(h, 1.0)), V.Held(V.Grown(h)), labels).outcome
            == Conflict
  {
    V.HeldConflict(h, labels);
  }
}
