/**
 * When a merge loses nothing, at every depth. What became of both versions is said of the result alone; the conditions,
 * of the versions alone.
 */
module Lossless {
  import opened Options
  import opened Json
  import opened Text
  import opened Graph
  import opened Merge
  import opened MergeLaws
  import opened BranchLaws
  import opened Conflicts
  import opened ValueLaws
  import Order

  // ---------------------------------------------------------------------------
  // A result that accounts for both versions

  /** A field changed on either side is as that side left it. */
  ghost predicate DataKept(b: Data, o: Data, t: Data, r: Data) {
    forall key | key != "updated" :: FieldKept(Get(b, key), Get(o, key), Get(t, key), Get(r, key))
  }

  predicate FieldKept(b: Option<Json>, o: Option<Json>, t: Option<Json>, r: Option<Json>) {
    (o != b ==> r == o) && (t != b ==> r == t) && (o == b && t == b ==> r == b)
  }

  /** `r` accounts for both versions, and so does everything below it. */
  ghost predicate Lossless(h: Host, base: Option<Cid>, ours: Cid, theirs: Cid, labels: Labels, field: bool, r: Cid)
    decreases Height(ours) + Height(theirs), 4, 0
  {
    if Unchanged(base, ours, theirs).Some? then r == Unchanged(base, ours, theirs).value
    else if OneBranched(h, ours, theirs) then
      LiftedBelow(h, ours, theirs);
      LosslessAgain(h, LiftedBase(h, base, ours, theirs), Lifted(h, ours, theirs, ours),
          Lifted(h, ours, theirs, theirs),
        labels, r, Size(ours, theirs))
    else if IsBranchChoice(ours.content) && IsBranchChoice(theirs.content) then
      BranchesBelow(h, ours, theirs);
      LosslessBranches(h, base, ours, theirs, labels, r, Size(ours, theirs))
    else if IsMutableRef(ours.content) || IsMutableRef(theirs.content) then
      LosslessRefs(h, base, ours, theirs, labels, field, r)
    else
      && DataKept(BaseContent(base).data, ours.content.data, theirs.content.data, r.content.data)
      && LosslessRows(h, BaseContent(base), ours.content, theirs.content, labels, r.content.children)
  }

  ghost predicate LosslessAgain(h: Host, base: Option<Cid>, ours: Cid, theirs: Cid, labels: Labels, r: Cid, bound: nat)
    requires ChoiceTop(h, ours) + ChoiceTop(h, theirs) < bound
    decreases bound, 3, 0
  {
    if Unchanged(base, ours, theirs).Some? then r == Unchanged(base, ours, theirs).value
    else LosslessBranches(h, base, ours, theirs, labels, r, bound)
  }

  /** Every row of either side is the one its key stands for, and what became of each key is among the rows. */
  ghost predicate LosslessRows(h: Host, base: Content, ours: Content, theirs: Content, labels: Labels, rows: seq<Edge>)
    decreases Height(Cid(ours)) + Height(Cid(theirs)), 2, 0
  {
    && AllStand(h, ours.children) && AllStand(h, theirs.children)
    && forall key | key in AllKeys(h, base, ours, theirs) :: LosslessAt(h, base, ours, theirs, labels, rows, key)
  }

  predicate AllStand(h: Host, es: seq<Edge>) { forall e | e in es :: RowsByKeyHas(h, es, e) }

  ghost predicate LosslessAt(h: Host, base: Content, ours: Content, theirs: Content, labels: Labels, rows: seq<Edge>,
      key: Key)
    decreases Height(Cid(ours)) + Height(Cid(theirs)), 1, 0
  {
    ChildrenBelow(h, ours, theirs);
    var b, o, t := At(RowsByKey(h, base.children), key), At(RowsByKey(h, ours.children), key),
                   At(RowsByKey(h, theirs.children), key);
    Deleted(b, o, t) || exists e | e in rows :: LosslessRow(h, key, b, o, t, labels, e, Size(Cid(ours), Cid(theirs)))
  }

  /** The row is the version that changed, the newer proposal, a choice offering both, or both in one. */
  ghost predicate LosslessRow(h: Host, key: Key, b: Option<Edge>, o: Option<Edge>, t: Option<Edge>, labels: Labels,
      e: Edge, bound: nat)
    requires o.Some? && t.Some? ==> Height(o.value.right) + Height(t.value.right) < bound
    decreases bound, 0, 1
  {
    if !BothChanged(b, o, t) then
      (Some(e) == o && (o == t || b == t)) || (Some(e) == t && (o == t || b == o))
    else
      || (key.Submission? && Some(e) == t && o.Some? && Timestamp(h, e) > Timestamp(h, o.value))
      || (key.Submission? && Some(e) == o && t.Some? && Timestamp(h, e) >= Timestamp(h, t.value))
      || (&& Descends(o, t) && e.left == o.value.left
          && Lossless(h, BaseOf(b, o.value), o.value.right, t.value.right, labels, IsFieldRow(h, o.value), e.right))
      || (IsChoice(e) && AliasId(e.right.content) == Some(ChoiceId(h, key)) && Offers(h, e.right, o, t, labels))
  }

  /** Every option is the one its name stands for. */
  predicate AllNamed(os: seq<ChoiceOption>) { forall x | x in os :: FindOption(os, x.peerId) == Some(x) }

  /** Of every name either side has a version for, the branches have one option that accounts for both. */
  ghost predicate LosslessBranches(h: Host, base: Option<Cid>, ours: Cid, theirs: Cid, labels: Labels, r: Cid,
      bound: nat)
    requires ChoiceTop(h, ours) + ChoiceTop(h, theirs) < bound
    decreases bound, 2, 0
  {
    var bs, os, ts := BranchOptions(h, base), ReadChoice(h, ours).options, ReadChoice(h, theirs).options;
    && AllNamed(os) && AllNamed(ts)
    && forall name | OptionEdge(FindOption(os, name)).Some? || OptionEdge(FindOption(ts, name)).Some? ::
      exists x | Named(x) in ReadChoice(h, r).options ::
        LosslessOption(h, name, FindOption(bs, name), FindOption(os, name), FindOption(ts, name), labels, x, os, ts,
            bound)
  }

  ghost predicate LosslessOption(h: Host, name: string, b: Option<ChoiceOption>, o: Option<ChoiceOption>,
      t: Option<ChoiceOption>, labels: Labels, x: ChoiceOption, os: seq<ChoiceOption>, ts: seq<ChoiceOption>,
          bound: nat)
    requires Top(os) + Top(ts) < bound && o == FindOption(os, name) && t == FindOption(ts, name)
    decreases bound, 0, 1
  {
    var oe, te := OptionEdge(o), OptionEdge(t);
    && x.peerId == name && x.edge.Some?
    && (if oe.Some? && te.Some? then
          TopCovers(os, name);
          TopCovers(ts, name);
          && oe.value.left == te.value.left == x.edge.value.left
          && Lossless(h, BaseRight(b), oe.value.right, te.value.right, labels, false, x.edge.value.right)
          && LosslessRequest(h, OptionRequest(b), o.value.requestMerge, t.value.requestMerge, labels, x.requestMerge,
              bound)
        else
          x.edge == (if oe.Some? then oe else te) && x.requestMerge == OptionRequest(if oe.Some? then o else t))
  }

  ghost predicate LosslessRequest(h: Host, b: Option<Cid>, o: Option<Cid>, t: Option<Cid>, labels: Labels,
      r: Option<Cid>, bound: nat)
    requires o.Some? && t.Some? ==> Height(o.value) + Height(t.value) < bound
    decreases bound, 0, 0
  {
    || (o == b && r == t)
    || ((t == b || o == t) && r == o)
    || (o.Some? && t.Some? && r.Some? && Lossless(h, b, o.value, t.value, labels, false, r.value))
  }

  /** The ref's data, its value and its bookkeeping. */
  ghost predicate LosslessRefs(h: Host, base: Option<Cid>, ours: Cid, theirs: Cid, labels: Labels, field: bool, r: Cid)
    requires IsMutableRef(ours.content) || IsMutableRef(theirs.content)
    decreases Height(ours) + Height(theirs), 3, 0
  {
    var s := Sides(h, base, ours, theirs);
    BooksBelow(h, ours.content, theirs.content);
    ValuesBelow(h, ours.content, theirs.content);
    && WholeRef(h, s.o) && WholeRef(h, s.t) && IsRef(r.content)
    && DataKept(BaseData(s), s.o.data, s.t.data, r.content.data)
    && (if IsTyped(s, field) then TypedKept(h, s, RefValue(r.content))
        else RefValue(r.content).Some? && Lossless(h, s.bv, SideValue(h, ours.content), SideValue(h, theirs.content),
               labels, false, RefValue(r.content).value))
    && LosslessRows(h, BookOf(h, s.b), Book(h, s.o), Book(h, s.t), labels, r.content.children)
  }

  /** Every edge of a ref is its value, the mark of a ref, history or bookkeeping: all that merging refs looks at. */
  predicate WholeRef(h: Host, ref: Content) {
    forall e | e in ref.children ::
      || Some(e) == Value(ref) || e == Edge(Prim("alias"), Cid(EMPTY))
      || IsPrev(e) || e in Book(h, ref).children
  }

  function Value(ref: Content): Option<Edge> {
    match RefValue(ref) case Some(v) => Some(Edge(Prim("target"), v)) case None => None
  }

  function BaseData(s: RefSides): Data { if s.b.Some? then s.b.value.data else map[] }

  /** A typed value is the side's that changed it, or branches that hold what both supplied. */
  ghost predicate TypedKept(h: Host, s: RefSides, r: Option<Cid>) {
    if s.ov == s.tv || s.tv == s.bv then r == s.ov
    else if s.ov == s.bv then r == s.tv
    else
      r.Some? && AliasId(s.o).Some?
      && forall v, c | v in [s.ov, s.tv] && v.Some? && Supplies(h, v.value, AliasId(s.o).value, c) ::
           HoldsValue(ReadChoice(h, r.value).options, c)
  }

  // ---------------------------------------------------------------------------
  // The conditions

  ghost predicate FieldsOneSided(b: Data, o: Data, t: Data) { forall key :: !FieldConflict(b, o, t, key) }

  /**
   * Merging loses nothing where this holds: rows of a node have keys, and branches names, of their own; no field of
   * data is changed on both sides at the top, in the value of a ref, or in the data of a ref; no own field of a ref is
   * given two versions that split; and the value of the top ref does not split. Of nodes that become a choice nothing
   * is asked.
   */
  ghost predicate Safe(h: Host, base: Option<Cid>, ours: Cid, theirs: Cid, isTop: bool, field: bool)
    decreases Height(ours) + Height(theirs), 4, 0
  {
    if Unchanged(base, ours, theirs).Some? then true
    else if OneBranched(h, ours, theirs) then
      LiftedBelow(h, ours, theirs);
      SafeAgain(h, LiftedBase(h, base, ours, theirs), Lifted(h, ours, theirs, ours), Lifted(h, ours, theirs, theirs),
        Size(ours, theirs))
    else if IsBranchChoice(ours.content) && IsBranchChoice(theirs.content) then
      BranchesBelow(h, ours, theirs);
      SafeBranches(h, base, ours, theirs, Size(ours, theirs))
    else if IsMutableRef(ours.content) || IsMutableRef(theirs.content) then
      SafeRefs(h, base, ours, theirs, isTop, field)
    else
      && (isTop ==> FieldsOneSided(BaseContent(base).data, ours.content.data, theirs.content.data))
      && SafeRows(h, BaseContent(base), ours.content, theirs.content)
  }

  ghost predicate SafeAgain(h: Host, base: Option<Cid>, ours: Cid, theirs: Cid, bound: nat)
    requires ChoiceTop(h, ours) + ChoiceTop(h, theirs) < bound
    decreases bound, 3, 0
  {
    Unchanged(base, ours, theirs).Some? || SafeBranches(h, base, ours, theirs, bound)
  }

  /** No two rows share a key. */
  predicate OwnKeys(h: Host, es: seq<Edge>) { forall d, e | d in es && e in es && KeyOf(h, d) == KeyOf(h, e) :: d == e }

  ghost predicate SafeRows(h: Host, base: Content, ours: Content, theirs: Content)
    decreases Height(Cid(ours)) + Height(Cid(theirs)), 2, 0
  {
    && OwnKeys(h, ours.children) && OwnKeys(h, theirs.children)
    && forall key | key in AllKeys(h, base, ours, theirs) :: SafeAt(h, base, ours, theirs, key)
  }

  ghost predicate SafeAt(h: Host, base: Content, ours: Content, theirs: Content, key: Key)
    decreases Height(Cid(ours)) + Height(Cid(theirs)), 1, 0
  {
    ChildrenBelow(h, ours, theirs);
    SafeKey(h, key, At(RowsByKey(h, base.children), key), At(RowsByKey(h, ours.children), key),
      At(RowsByKey(h, theirs.children), key), Size(Cid(ours), Cid(theirs)))
  }

  ghost predicate SafeKey(h: Host, key: Key, b: Option<Edge>, o: Option<Edge>, t: Option<Edge>, bound: nat)
    requires o.Some? && t.Some? ==> Height(o.value.right) + Height(t.value.right) < bound
    decreases bound, 0, 1
  {
    Contested(key, b, o, t) && Descends(o, t) && !VersionsSplit(h, b, o.value, t.value, bound) ==>
      Safe(h, BaseOf(b, o.value), o.value.right, t.value.right, false, IsFieldRow(h, o.value))
  }

  /** No two options share a name. */
  predicate OwnNames(os: seq<ChoiceOption>) { forall x, y | x in os && y in os && x.peerId == y.peerId :: x == y }

  ghost predicate SafeBranches(h: Host, base: Option<Cid>, ours: Cid, theirs: Cid, bound: nat)
    requires ChoiceTop(h, ours) + ChoiceTop(h, theirs) < bound
    decreases bound, 2, 0
  {
    var bs, os, ts := BranchOptions(h, base), ReadChoice(h, ours).options, ReadChoice(h, theirs).options;
    && OwnNames(os) && OwnNames(ts)
    && forall name :: SafeOption(h, name, FindOption(bs, name), FindOption(os, name), FindOption(ts, name), os, ts,
        bound)
  }

  ghost predicate SafeOption(h: Host, name: string, b: Option<ChoiceOption>, o: Option<ChoiceOption>,
      t: Option<ChoiceOption>, os: seq<ChoiceOption>, ts: seq<ChoiceOption>, bound: nat)
    requires Top(os) + Top(ts) < bound && o == FindOption(os, name) && t == FindOption(ts, name)
    decreases bound, 0, 1
  {
    var oe, te := OptionEdge(o), OptionEdge(t);
    if oe.Some? && te.Some? then
      TopCovers(os, name);
      TopCovers(ts, name);
      && Safe(h, BaseRight(b), oe.value.right, te.value.right, false, false)
      && SafeRequest(h, OptionRequest(b), o.value.requestMerge, t.value.requestMerge, bound)
    else
      te.Some? && o.Some? ==> o.value.requestMerge == t.value.requestMerge
  }

  ghost predicate SafeRequest(h: Host, b: Option<Cid>, o: Option<Cid>, t: Option<Cid>, bound: nat)
    requires o.Some? && t.Some? ==> Height(o.value) + Height(t.value) < bound
    decreases bound, 0, 0
  {
    o.Some? && t.Some? ==> Safe(h, b, o.value, t.value, false, false)
  }

  ghost predicate SafeRefs(h: Host, base: Option<Cid>, ours: Cid, theirs: Cid, isTop: bool, field: bool)
    requires IsMutableRef(ours.content) || IsMutableRef(theirs.content)
    decreases Height(ours) + Height(theirs), 3, 0
  {
    var s := Sides(h, base, ours, theirs);
    BooksBelow(h, ours.content, theirs.content);
    ValuesBelow(h, ours.content, theirs.content);
    && WholeRef(h, s.o) && WholeRef(h, s.t) && FieldsOneSided(BaseData(s), s.o.data, s.t.data)
    && (IsTyped(s, field)
        || (&& (isTop ==> !ValuesSplit(h, s, ours, theirs))
            && Safe(h, s.bv, SideValue(h, ours.content), SideValue(h, theirs.content), true, false)))
    && !BooksSplit(h, s) && SafeRows(h, BookOf(h, s.b), Book(h, s.o), Book(h, s.t))
  }

  // ---------------------------------------------------------------------------
  // Nothing is lost

  lemma OneSidedKeeps(b: Data, o: Data, t: Data)
    ensures DataKept(b, o, t, MergedData(b, o, t)) <==> FieldsOneSided(b, o, t)
  {
    forall key | key != "updated"
      ensures FieldKept(Get(b, key), Get(o, key), Get(t, key), Get(MergedData(b, o, t), key))
              <==> !FieldConflict(b, o, t, key)
    {
      MergedFieldSide(b, o, t, key);
    }
    if DataKept(b, o, t, MergedData(b, o, t)) {
      forall key ensures !FieldConflict(b, o, t, key) {
        if key != "updated" { assert FieldKept(Get(b, key), Get(o, key), Get(t, key), Get(MergedData(b, o, t), key)); }
      }
    }
  }

  lemma OwnKeysStand(h: Host, es: seq<Edge>)
    ensures AllStand(h, es) <==> OwnKeys(h, es)
  {
    EveryRowStands(h, es);
  }

  lemma OwnNamesFound(os: seq<ChoiceOption>)
    requires OwnNames(os)
    ensures AllNamed(os)
  {
    forall x | x in os ensures FindOption(os, x.peerId) == Some(x) { FoundIsNamed(os, x.peerId); }
  }

  /**
   * Where the versions are safe, their merge accounts for both, at every depth: whatever either side changed, added or
   * removed is there, or a choice offers it.
   */
  lemma {:induction false} MergeLosesNothing(h: Host, base: Option<Cid>, ours: Cid, theirs: Cid, labels: Labels,
      isTop: bool, field: bool)
    requires Safe(h, base, ours, theirs, isTop, field)
    requires MergeNode(h, base, ours, theirs, labels, isTop, field).outcome.Merged?
    ensures Lossless(h, base, ours, theirs, labels, field,
              MergeNode(h, base, ours, theirs, labels, isTop, field).outcome.cid)
    decreases Height(ours) + Height(theirs), 4, 0
  {
    if Unchanged(base, ours, theirs).Some? {
    } else if OneBranched(h, ours, theirs) {
      LiftedLosesNothing(h, base, ours, theirs, labels, isTop, field);
    } else if IsBranchChoice(ours.content) && IsBranchChoice(theirs.content) {
      BranchesBelow(h, ours, theirs);
      BranchesLoseNothing(h, base, ours, theirs, labels, Size(ours, theirs));
    } else if IsMutableRef(ours.content) || IsMutableRef(theirs.content) {
      RefsLoseNothing(h, base, ours, theirs, labels, isTop, field);
    } else {
      PlainLosesNothing(h, base, ours, theirs, labels, isTop);
    }
  }

  lemma {:induction false} LiftedLosesNothing(h: Host, base: Option<Cid>, ours: Cid, theirs: Cid, labels: Labels,
      isTop: bool, field: bool)
    requires Unchanged(base, ours, theirs).None? && OneBranched(h, ours, theirs)
    requires Safe(h, base, ours, theirs, isTop, field)
    requires MergeNode(h, base, ours, theirs, labels, isTop, field).outcome.Merged?
    ensures Lossless(h, base, ours, theirs, labels, field,
              MergeNode(h, base, ours, theirs, labels, isTop, field).outcome.cid)
    decreases Height(ours) + Height(theirs), 3, 1
  {
    LiftedBelow(h, ours, theirs);
    AgainLosesNothing(h, LiftedBase(h, base, ours, theirs), Lifted(h, ours, theirs, ours),
      Lifted(h, ours, theirs, theirs), labels, Size(ours, theirs));
  }

  lemma {:induction false} AgainLosesNothing(h: Host, base: Option<Cid>, ours: Cid, theirs: Cid, labels: Labels,
      bound: nat)
    requires ChoiceTop(h, ours) + ChoiceTop(h, theirs) < bound && SafeAgain(h, base, ours, theirs, bound)
    requires MergeAgain(h, base, ours, theirs, labels, bound).outcome.Merged?
    ensures LosslessAgain(h, base, ours, theirs, labels,
              MergeAgain(h, base, ours, theirs, labels, bound).outcome.cid, bound)
    decreases bound, 3, 0
  {
    if Unchanged(base, ours, theirs).None? { BranchesLoseNothing(h, base, ours, theirs, labels, bound); }
  }

  lemma {:induction false} PlainLosesNothing(h: Host, base: Option<Cid>, ours: Cid, theirs: Cid, labels: Labels,
      isTop: bool)
    requires isTop ==> FieldsOneSided(BaseContent(base).data, ours.content.data, theirs.content.data)
    requires SafeRows(h, BaseContent(base), ours.content, theirs.content)
    requires MergePlain(h, base, ours, theirs, labels, isTop).outcome.Merged?
    ensures var r := MergePlain(h, base, ours, theirs, labels, isTop).outcome.cid.content;
            && DataKept(BaseContent(base).data, ours.content.data, theirs.content.data, r.data)
            && LosslessRows(h, BaseContent(base), ours.content, theirs.content, labels, r.children)
    decreases Height(ours) + Height(theirs), 3, 0
  {
    var b := BaseContent(base);
    DataIsOneSided(b.data, ours.content.data, theirs.content.data, isTop);
    OneSidedKeeps(b.data, ours.content.data, theirs.content.data);
    RowsLoseNothing(h, b, ours.content, theirs.content, labels,
      MergeChildren(h, b, ours.content, theirs.content, labels).rows.edges);
  }

  lemma DataIsOneSided(b: Data, o: Data, t: Data, theirsWins: bool)
    requires MergeData(b, o, t, theirsWins).Some? && (theirsWins ==> FieldsOneSided(b, o, t))
    ensures FieldsOneSided(b, o, t)
  {
    forall key ensures !FieldConflict(b, o, t, key) { ConflictIsKey(b, o, t, key); }
  }

  lemma ConflictIsKey(b: Data, o: Data, t: Data, key: string)
    ensures FieldConflict(b, o, t, key) ==> key in b.Keys + o.Keys + t.Keys
  {}

  lemma {:induction false} RowsLoseNothing(h: Host, base: Content, ours: Content, theirs: Content, labels: Labels,
      rows: seq<Edge>)
    requires SafeRows(h, base, ours, theirs) && MergeChildren(h, base, ours, theirs, labels).rows.Rows?
    requires forall e | e in MergeChildren(h, base, ours, theirs, labels).rows.edges :: e in rows
    ensures LosslessRows(h, base, ours, theirs, labels, rows)
    decreases Height(Cid(ours)) + Height(Cid(theirs)), 2, 0
  {
    OwnKeysStand(h, ours.children);
    OwnKeysStand(h, theirs.children);
    ChildrenContribute(h, base, ours, theirs, labels);
    forall key | key in AllKeys(h, base, ours, theirs) ensures LosslessAt(h, base, ours, theirs, labels, rows, key) {
      assert forall e | e in RowFor(h, base, ours, theirs, labels, key).rows.edges :: e in rows;
      AtLosesNothing(h, base, ours, theirs, labels, rows, key);
    }
  }

  lemma {:induction false} AtLosesNothing(h: Host, base: Content, ours: Content, theirs: Content, labels: Labels,
      rows: seq<Edge>, key: Key)
    requires SafeAt(h, base, ours, theirs, key) && RowFor(h, base, ours, theirs, labels, key).rows.Rows?
    requires forall e | e in RowFor(h, base, ours, theirs, labels, key).rows.edges :: e in rows
    ensures LosslessAt(h, base, ours, theirs, labels, rows, key)
    decreases Height(Cid(ours)) + Height(Cid(theirs)), 1, 0
  {
    var b, o, t := At(RowsByKey(h, base.children), key), At(RowsByKey(h, ours.children), key),
                   At(RowsByKey(h, theirs.children), key);
    ChildrenBelow(h, ours, theirs);
    if !Deleted(b, o, t) {
      var e := AccountOf(h, base, ours, theirs, labels, key);
      KeyLosesNothing(h, key, b, o, t, labels, e, Size(Cid(ours), Cid(theirs)));
    }
  }

  lemma AccountOf(h: Host, base: Content, ours: Content, theirs: Content, labels: Labels, key: Key) returns (e: Edge)
    requires RowFor(h, base, ours, theirs, labels, key).rows.Rows? && !DeletedUnder(h, base, ours, theirs, key)
    ensures RowFor(h, base, ours, theirs, labels, key).rows == Rows([e])
    ensures AccountsFor(h, base, ours, theirs, labels, key, e)
  {
    RowAccounts(h, base, ours, theirs, labels, key);
    e := RowFor(h, base, ours, theirs, labels, key).rows.edges[0];
  }

  lemma {:induction false} KeyLosesNothing(h: Host, key: Key, b: Option<Edge>, o: Option<Edge>, t: Option<Edge>,
      labels: Labels, e: Edge, bound: nat)
    requires o.Some? && t.Some? ==> Height(o.value.right) + Height(t.value.right) < bound
    requires SafeKey(h, key, b, o, t, bound)
    requires MergeKey(h, key, b, o, t, labels, bound).rows == Rows([e]) && Accounts(h, key, b, o, t, labels, e)
    ensures LosslessRow(h, key, b, o, t, labels, e, bound)
    decreases bound, 0, 1
  {
    if Contested(key, b, o, t) && Descends(o, t) && VersionsMerge(h, b, o.value, t.value, labels).Merged? {
      VersionsTell(h, key, b, o, t, labels, bound);
      KeyMerges(h, key, b, o, t, labels, bound);
      MergeLosesNothing(h, BaseOf(b, o.value), o.value.right, t.value.right, labels, false, IsFieldRow(h, o.value));
    }
  }

  lemma {:induction false} BranchesLoseNothing(h: Host, base: Option<Cid>, ours: Cid, theirs: Cid, labels: Labels,
      bound: nat)
    requires ChoiceTop(h, ours) + ChoiceTop(h, theirs) < bound && SafeBranches(h, base, ours, theirs, bound)
    requires MergeBranches(h, base, ours, theirs, labels, bound).outcome.Merged?
    ensures LosslessBranches(h, base, ours, theirs, labels,
              MergeBranches(h, base, ours, theirs, labels, bound).outcome.cid, bound)
    decreases bound, 2, 0
  {
    var bs, os, ts := BranchOptions(h, base), ReadChoice(h, ours).options, ReadChoice(h, theirs).options;
    var r := MergeBranches(h, base, ours, theirs, labels, bound).outcome.cid;
    OwnNamesFound(os);
    OwnNamesFound(ts);
    forall name | OptionEdge(FindOption(os, name)).Some? || OptionEdge(FindOption(ts, name)).Some?
      ensures exists x | Named(x) in ReadChoice(h, r).options ::
                LosslessOption(h, name, FindOption(bs, name), FindOption(os, name), FindOption(ts, name), labels, x, os,
                  ts, bound)
    {
      var x := NoBranchIsLost(h, base, ours, theirs, labels, bound, name);
      assert SafeOption(h, name, FindOption(bs, name), FindOption(os, name), FindOption(ts, name), os, ts, bound);
      OptionLosesNothing(h, name, FindOption(bs, name), FindOption(os, name), FindOption(ts, name), labels, x, os, ts,
        bound);
    }
  }

  lemma {:induction false} OptionLosesNothing(h: Host, name: string, b: Option<ChoiceOption>, o: Option<ChoiceOption>,
      t: Option<ChoiceOption>, labels: Labels, x: ChoiceOption, os: seq<ChoiceOption>, ts: seq<ChoiceOption>,
          bound: nat)
    requires Top(os) + Top(ts) < bound && o == FindOption(os, name) && t == FindOption(ts, name)
    requires SafeOption(h, name, b, o, t, os, ts, bound) && OptionAccounts(h, name, b, o, t, labels, x)
    ensures LosslessOption(h, name, b, o, t, labels, x, os, ts, bound)
    decreases bound, 0, 1
  {
    var oe, te := OptionEdge(o), OptionEdge(t);
    if oe.Some? && te.Some? {
      TopCovers(os, name);
      TopCovers(ts, name);
      MergeLosesNothing(h, BaseRight(b), oe.value.right, te.value.right, labels, false, false);
      RequestLosesNothing(h, OptionRequest(b), o.value.requestMerge, t.value.requestMerge, labels, x.requestMerge,
          bound);
    }
  }

  lemma {:induction false} RequestLosesNothing(h: Host, b: Option<Cid>, o: Option<Cid>, t: Option<Cid>, labels: Labels,
      r: Option<Cid>, bound: nat)
    requires o.Some? && t.Some? ==> Height(o.value) + Height(t.value) < bound
    requires SafeRequest(h, b, o, t, bound) && RequestAccounts(h, b, o, t, labels, r)
    ensures LosslessRequest(h, b, o, t, labels, r, bound)
    decreases bound, 0, 0
  {
    if o.Some? && t.Some? && MergeNode(h, b, o.value, t.value, labels, false, false).outcome.Merged? {
      MergeLosesNothing(h, b, o.value, t.value, labels, false, false);
    }
  }

  lemma {:induction false} RefsLoseNothing(h: Host, base: Option<Cid>, ours: Cid, theirs: Cid, labels: Labels,
      isTop: bool, field: bool)
    requires IsMutableRef(ours.content) || IsMutableRef(theirs.content)
    requires SafeRefs(h, base, ours, theirs, isTop, field)
    requires MergeRefs(h, base, ours, theirs, labels, isTop, field).outcome.Merged?
    ensures LosslessRefs(h, base, ours, theirs, labels, field,
              MergeRefs(h, base, ours, theirs, labels, isTop, field).outcome.cid)
    decreases Height(ours) + Height(theirs), 3, 0
  {
    var s := Sides(h, base, ours, theirs);
    RefIs(h, base, ours, theirs, labels, isTop, field);
    BooksBelow(h, ours.content, theirs.content);
    ValuesBelow(h, ours.content, theirs.content);
    OneSidedKeeps(BaseData(s), s.o.data, s.t.data);
    SafePartsMerge(h, base, ours, theirs, labels, isTop, field);
    RowsLoseNothing(h, BookOf(h, s.b), Book(h, s.o), Book(h, s.t), labels,
      MergeRefs(h, base, ours, theirs, labels, isTop, field).outcome.cid.content.children);
    ValueLosesNothing(h, s, ours, theirs, labels, isTop, field);
  }

  lemma SafePartsMerge(h: Host, base: Option<Cid>, ours: Cid, theirs: Cid, labels: Labels, isTop: bool, field: bool)
    requires IsMutableRef(ours.content) || IsMutableRef(theirs.content)
    requires SafeRefs(h, base, ours, theirs, isTop, field)
    requires MergeRefs(h, base, ours, theirs, labels, isTop, field).outcome.Merged?
    ensures var s := Sides(h, base, ours, theirs);
            BooksMerge(h, s, labels).Rows? && (IsTyped(s, field) || ValuesMerge(h, s, ours, theirs, labels).Merged?)
  {
    RefsParts(h, base, ours, theirs, labels, isTop, field);
    PartsTell(h, Sides(h, base, ours, theirs), ours, theirs, labels);
  }

  lemma {:induction false} ValueLosesNothing(h: Host, s: RefSides, ours: Cid, theirs: Cid, labels: Labels,
      isTop: bool, field: bool)
    requires IsMutableRef(ours.content) || IsMutableRef(theirs.content)
    requires RefValueMerge(h, s, ours, theirs, labels, isTop, field).failed.Merged?
    requires Height(SideValue(h, ours.content)) + Height(SideValue(h, theirs.content)) < Size(ours, theirs)
    requires IsTyped(s, field)
             || (&& ValuesMerge(h, s, ours, theirs, labels).Merged?
                 && Safe(h, s.bv, SideValue(h, ours.content), SideValue(h, theirs.content), true, false))
    ensures var r := RefValueMerge(h, s, ours, theirs, labels, isTop, field).request;
            if IsTyped(s, field) then TypedKept(h, s, r)
            else r.Some? && Lossless(h, s.bv, SideValue(h, ours.content), SideValue(h, theirs.content), labels, false,
                   r.value)
    decreases Height(ours) + Height(theirs), 2, 0
  {
    if IsTyped(s, field) {
      TypedLosesNothing(h, s);
    } else {
      MergeLosesNothing(h, s.bv, SideValue(h, ours.content), SideValue(h, theirs.content), labels, true, false);
    }
  }

  /** The bookkeeping a merged ref is given: the merged rows, or ours' when they conflict. */
  function BooksKept(h: Host, s: RefSides, labels: Labels): seq<Edge> {
    var books := BooksMerge(h, s, labels);
    if books.Rows? then books.edges else Book(h, s.o).children
  }

  /** What a ref has beside its bookkeeping: its value, the mark of a ref, its history. */
  predicate IsPointer(e: Edge) { e.left == Prim("target") || e.left == Prim("alias") || IsPrev(e) }

  /** A merged ref holds its value, its bookkeeping, and else its history alone. */
  lemma MergedRefReads(h: Host, s: RefSides, ours: Cid, theirs: Cid, labels: Labels, value: Option<Cid>)
    ensures var r := MergedRef(h, s, ours, theirs, value, BooksMerge(h, s, labels)).content;
            && IsRef(r) && RefValue(r) == value && r.data == MergedData(BaseData(s), s.o.data, s.t.data)
            && (forall e | e in BooksKept(h, s, labels) :: e in r.children)
            && (forall e | e in r.children :: e in BooksKept(h, s, labels) || IsPointer(e))
  {
    var rows, history := BooksKept(h, s, labels), History(h, s, ours, theirs, value);
    NoTargets(h, s.o);
    forall e | e in rows ensures e.left != Prim("target") {
      if BooksMerge(h, s, labels).Rows? { BookRowIsNoTarget(h, s, labels, e); }
    }
    HistoryIsPrev(h, s, ours, theirs, value);
    RefReads(MergedData(BaseData(s), s.o.data, s.t.data), value, rows + history);
    RefRows(MergedData(BaseData(s), s.o.data, s.t.data), value, rows + history);
  }

  lemma HistoryIsPrev(h: Host, s: RefSides, ours: Cid, theirs: Cid, value: Option<Cid>)
    ensures forall e | e in History(h, s, ours, theirs, value) :: e.left != Prim("target") && IsPrev(e)
  {
    HistoryIsKept(h, s, ours, theirs, value);
    NotBookkeeping("target");
  }

  lemma RefReads(data: Data, value: Option<Cid>, rows: seq<Edge>)
    requires forall e | e in rows :: e.left != Prim("target")
    ensures IsRef(RefNode(data, value, rows)) && RefValue(RefNode(data, value, rows)) == value
  {
    var head, mark := if value.Some? then [Edge(Prim("target"), value.value)] else [], Edge(Prim("alias"), Cid(EMPTY));
    AliasIsNoTarget();
    assert RefNode(data, value, rows).children == head + ([mark] + rows);
    assert mark in head + ([mark] + rows);
    NoFirst([mark] + rows, Prim("target"));
    FirstAfter(head, [mark] + rows, Prim("target"));
  }

  lemma RefRows(data: Data, value: Option<Cid>, rows: seq<Edge>)
    ensures forall e | e in rows :: e in RefNode(data, value, rows).children
    ensures forall e | e in RefNode(data, value, rows).children ::
              e in rows || e.left == Prim("target") || e.left == Prim("alias")
  {}

  lemma AliasIsNoTarget()
    ensures Prim("alias") != Prim("target")
  {
    if Prim("alias") == Prim("target") { PrimInjective("alias", "target"); }
  }

  lemma {:induction false} NoFirst(es: seq<Edge>, left: Cid)
    requires forall e | e in es :: e.left != left
    ensures First(es, left).None?
  {
    if es != [] { NoFirst(es[1..], left); }
  }

  lemma BookRowIsNoTarget(h: Host, s: RefSides, labels: Labels, e: Edge)
    requires BooksMerge(h, s, labels).Rows? && e in BooksMerge(h, s, labels).edges
    ensures e.left != Prim("target")
  {
    var key := NothingIsMadeUp(h, BookOf(h, s.b), Book(h, s.o), Book(h, s.t), labels, e);
    RowsByKeyShape(h, Book(h, s.o).children);
    RowsByKeyShape(h, Book(h, s.t).children);
    AccountsLeft(h, key, At(RowsByKey(h, BookOf(h, s.b).children), key), At(RowsByKey(h, Book(h, s.o).children), key),
      At(RowsByKey(h, Book(h, s.t).children), key), labels, e);
    NoTargets(h, s.o);
    NoTargets(h, s.t);
  }

  lemma AccountsLeft(h: Host, key: Key, b: Option<Edge>, o: Option<Edge>, t: Option<Edge>, labels: Labels, e: Edge)
    requires Accounts(h, key, b, o, t, labels, e)
    ensures (o.Some? && e.left == o.value.left) || (t.Some? && e.left == t.value.left) || e.left != Prim("target")
  {
    NotBookkeeping("target");
  }

  lemma NoTargets(h: Host, ref: Content)
    ensures forall e | e in Book(h, ref).children :: e.left != Prim("target")
  {
    BookRows(h, ref);
    forall e | e in Book(h, ref).children ensures e.left != Prim("target") { PointersAreNotRows(h, ref, e); }
  }

  lemma TypedLosesNothing(h: Host, s: RefSides)
    requires MergeTyped(h, s).failed.Merged?
    ensures TypedKept(h, s, MergeTyped(h, s).request)
  {
    if ValuesConflict(s.bv, s.ov, s.tv) {
      var values := [s.bv] + SortedValues(h, s.ov, s.tv);
      forall v, c | v in [s.ov, s.tv] && v.Some? && Supplies(h, v.value, AliasId(s.o).value, c)
        ensures HoldsValue(ReadChoice(h, MergeTyped(h, s).request.value).options, c)
      {
        BothSorted(h, s.ov, s.tv, v);
        assert v in values;
        NoValueIsLost(h, s.o, values, DefaultValue(h, s.bv), c);
      }
    }
  }

  lemma BothSorted(h: Host, ov: Option<Cid>, tv: Option<Cid>, v: Option<Cid>)
    requires v in [ov, tv] && v.Some?
    ensures v in SortedValues(h, ov, tv)
  {
    var given := (if ov.Some? then [ov.value] else []) + (if tv.Some? then [tv.value] else []);
    assert v.value in given;
    SortedIn(h, given, v.value);
    var i :| 0 <= i < |Sort(h, given)| && Sort(h, given)[i] == v.value;
    assert SortedValues(h, ov, tv)[i] == v;
  }

  lemma {:induction false} SortedIn(h: Host, cs: seq<Cid>, c: Cid)
    requires c in cs
    ensures c in Sort(h, cs)
  {
    if c != cs[0] { SortedIn(h, cs[1..], c); }
    InsertedIn(h, cs[0], Sort(h, cs[1..]), c);
  }

  lemma {:induction false} InsertedIn(h: Host, d: Cid, cs: seq<Cid>, c: Cid)
    requires c == d || c in cs
    ensures c in Insert(h, d, cs)
  {
    if cs != [] && Before(h.text(cs[0]), h.text(d)) && c != cs[0] { InsertedIn(h, d, cs[1..], c); }
  }

  // ---------------------------------------------------------------------------
  // Exactly when a ref loses something

  /** A choice that has the name of the key's choice stands under the key itself. */
  predicate InPlace(h: Host, es: seq<Edge>, key: Key) {
    forall e | e in es && IsChoice(e) && AliasId(e.right.content) == Some(ChoiceId(h, key)) :: KeyOf(h, e) == key
  }

  /** What became of the key's versions in the two refs' bookkeeping is among the rows, unless it is a deletion. */
  ghost predicate Accounted(h: Host, s: RefSides, labels: Labels, rows: seq<Edge>, key: Key) {
    || DeletedUnder(h, BookOf(h, s.b), Book(h, s.o), Book(h, s.t), key)
    || exists e | e in rows :: AccountsFor(h, BookOf(h, s.b), Book(h, s.o), Book(h, s.t), labels, key, e)
  }

  ghost predicate AllAccounted(h: Host, s: RefSides, labels: Labels, rows: seq<Edge>) {
    forall key | key in BookKeys(h, s) :: Accounted(h, s, labels, rows, key)
  }

  /** Ours' rows have keys of their own, and no choice among them stands in for another key. */
  predicate Orderly(h: Host, s: RefSides) {
    OwnKeys(h, Book(h, s.o).children) && forall key | key in BookKeys(h, s) :: InPlace(h, Book(h, s.o).children, key)
  }

  function BookKeys(h: Host, s: RefSides): seq<Key> { AllKeys(h, BookOf(h, s.b), Book(h, s.o), Book(h, s.t)) }

  /** What a merged ref is: its data, its value, and its bookkeeping but for history. */
  lemma RefIs(h: Host, base: Option<Cid>, ours: Cid, theirs: Cid, labels: Labels, isTop: bool, field: bool)
    requires IsMutableRef(ours.content) || IsMutableRef(theirs.content)
    requires MergeRefs(h, base, ours, theirs, labels, isTop, field).outcome.Merged?
    ensures var s, r := Sides(h, base, ours, theirs),
              MergeRefs(h, base, ours, theirs, labels, isTop, field).outcome.cid.content;
            && IsRef(r) && r.data == MergedData(BaseData(s), s.o.data, s.t.data)
            && RefValueMerge(h, s, ours, theirs, labels, isTop, field).failed.Merged?
            && RefValue(r) == RefValueMerge(h, s, ours, theirs, labels, isTop, field).request
            && !BooksMerge(h, s, labels).RowsThrown?
            && (forall e | e in BooksKept(h, s, labels) :: e in r.children)
            && (forall e | e in r.children :: e in BooksKept(h, s, labels) || IsPointer(e))
  {
    var s := Sides(h, base, ours, theirs);
    RefsParts(h, base, ours, theirs, labels, isTop, field);
    MergedRefReads(h, s, ours, theirs, labels, RefValueMerge(h, s, ours, theirs, labels, isTop, field).request);
  }

  /** The data of a merged ref accounts for both sides exactly when no field of it was changed on both, at any depth. */
  lemma RefDataKept(h: Host, base: Option<Cid>, ours: Cid, theirs: Cid, labels: Labels, isTop: bool, field: bool)
    requires IsMutableRef(ours.content) || IsMutableRef(theirs.content)
    requires MergeRefs(h, base, ours, theirs, labels, isTop, field).outcome.Merged?
    ensures var s := Sides(h, base, ours, theirs);
            DataKept(BaseData(s), s.o.data, s.t.data,
              MergeRefs(h, base, ours, theirs, labels, isTop, field).outcome.cid.content.data)
            <==> FieldsOneSided(BaseData(s), s.o.data, s.t.data)
  {
    var s := Sides(h, base, ours, theirs);
    RefIs(h, base, ours, theirs, labels, isTop, field);
    OneSidedKeeps(BaseData(s), s.o.data, s.t.data);
  }

  /** The value of a merged ref is the merge of both unless the values split: then the ref is the top one, and ours'. */
  lemma RefValueKept(h: Host, base: Option<Cid>, ours: Cid, theirs: Cid, labels: Labels, isTop: bool, field: bool)
    requires IsMutableRef(ours.content) || IsMutableRef(theirs.content)
    requires !IsTyped(Sides(h, base, ours, theirs), field)
    requires MergeRefs(h, base, ours, theirs, labels, isTop, field).outcome.Merged?
    ensures var s := Sides(h, base, ours, theirs);
            var value := RefValue(MergeRefs(h, base, ours, theirs, labels, isTop, field).outcome.cid.content);
            if ValuesSplit(h, s, ours, theirs) then isTop && value == Some(SideValue(h, ours.content))
            else value.Some? && ValuesMerge(h, s, ours, theirs, labels) == Merged(value.value)
  {
    RefIs(h, base, ours, theirs, labels, isTop, field);
    PartsTell(h, Sides(h, base, ours, theirs), ours, theirs, labels);
  }

  /**
   * The bookkeeping of a merged ref accounts for both sides exactly when no own field of the ref was given two versions
   * that split, at any depth. (When one was, a row of ours may happen to account for it all the same: only if rows of
   * ours share a key, or a choice among them has the identity of another key's choice.)
   */
  lemma RefBooksKept(h: Host, base: Option<Cid>, ours: Cid, theirs: Cid, labels: Labels, isTop: bool, field: bool)
    requires IsMutableRef(ours.content) || IsMutableRef(theirs.content)
    requires MergeRefs(h, base, ours, theirs, labels, isTop, field).outcome.Merged?
    ensures var s := Sides(h, base, ours, theirs);
            var rows := MergeRefs(h, base, ours, theirs, labels, isTop, field).outcome.cid.content.children;
            if !BooksSplit(h, s) then AllAccounted(h, s, labels, rows)
            else Orderly(h, s) ==> !AllAccounted(h, s, labels, rows)
  {
    RefIs(h, base, ours, theirs, labels, isTop, field);
    BookKeeps(h, Sides(h, base, ours, theirs), labels,
      MergeRefs(h, base, ours, theirs, labels, isTop, field).outcome.cid.content.children);
  }

  /** Else it is ours': whatever theirs changed or added there is gone. */
  lemma SplitBooksAreOurs(h: Host, base: Option<Cid>, ours: Cid, theirs: Cid, labels: Labels, isTop: bool, field: bool)
    requires IsMutableRef(ours.content) || IsMutableRef(theirs.content)
    requires MergeRefs(h, base, ours, theirs, labels, isTop, field).outcome.Merged?
    requires BooksSplit(h, Sides(h, base, ours, theirs))
    ensures forall e | e in MergeRefs(h, base, ours, theirs, labels, isTop, field).outcome.cid.content.children ::
              IsPointer(e) || e in Book(h, Sides(h, base, ours, theirs).o).children
  {
    RefIs(h, base, ours, theirs, labels, isTop, field);
    BooksTell(h, Sides(h, base, ours, theirs), labels);
  }

  lemma BookKeeps(h: Host, s: RefSides, labels: Labels, rows: seq<Edge>)
    requires !BooksMerge(h, s, labels).RowsThrown?
    requires forall e | e in BooksKept(h, s, labels) :: e in rows
    requires forall e | e in rows :: e in BooksKept(h, s, labels) || IsPointer(e)
    ensures if !BooksSplit(h, s) then AllAccounted(h, s, labels, rows)
            else Orderly(h, s) ==> !AllAccounted(h, s, labels, rows)
  {
    var b, o, t := BookOf(h, s.b), Book(h, s.o), Book(h, s.t);
    BooksTell(h, s, labels);
    if !BooksSplit(h, s) {
      forall key | key in BookKeys(h, s) ensures Accounted(h, s, labels, rows, key) {
        KeyIsAccounted(h, b, o, t, labels, key);
      }
    } else if Orderly(h, s) {
      var key := ClashOf(h, b, o, t);
      ClashIsLost(h, b, o, t, labels, rows, key);
      assert !Accounted(h, s, labels, rows, key);
    }
  }

  lemma KeyIsAccounted(h: Host, base: Content, ours: Content, theirs: Content, labels: Labels, key: Key)
    requires MergeChildren(h, base, ours, theirs, labels).rows.Rows?
    ensures DeletedUnder(h, base, ours, theirs, key)
            || exists e | e in MergeChildren(h, base, ours, theirs, labels).rows.edges ::
                AccountsFor(h, base, ours, theirs, labels, key, e)
  {
    if key in RowsByKey(h, ours.children) || key in RowsByKey(h, theirs.children) {
      NothingIsLost(h, base, ours, theirs, labels, key);
    }
  }

  /** Where ours' rows are kept whole, nothing among them accounts for the versions they clash at. */
  lemma ClashIsLost(h: Host, base: Content, ours: Content, theirs: Content, labels: Labels, rows: seq<Edge>, key: Key)
    requires ClashAt(h, base, ours, theirs, key)
    requires forall e | e in rows :: e in ours.children || IsPointer(e)
    requires OwnKeys(h, ours.children) && InPlace(h, ours.children, key)
    ensures !DeletedUnder(h, base, ours, theirs, key)
    ensures forall e | e in rows :: !AccountsFor(h, base, ours, theirs, labels, key, e)
  {
    var b, o, t := At(RowsByKey(h, base.children), key), At(RowsByKey(h, ours.children), key),
                   At(RowsByKey(h, theirs.children), key);
    ClashIsKey(h, base, ours, theirs, key);
    forall e | e in rows ensures !AccountsFor(h, base, ours, theirs, labels, key, e) {
      PointerIsNoChoice(e);
      if IsChoice(e) && AliasId(e.right.content) == Some(ChoiceId(h, key)) {
        OwnChoiceOffersNothing(h, ours, key, e, t, labels);
      }
      ClashNeverMerges(h, base, ours, theirs, labels, key);
    }
  }

  lemma PointerIsNoChoice(e: Edge)
    ensures IsPointer(e) ==> !IsChoice(e)
  {
    NotBookkeeping("target");
    NotBookkeeping("alias");
    if Prim("previous") == Prim("choice") { PrimInjective("previous", "choice"); }
  }

  lemma ClashNeverMerges(h: Host, base: Content, ours: Content, theirs: Content, labels: Labels, key: Key)
    requires ClashAt(h, base, ours, theirs, key)
    ensures var b, o, t := At(RowsByKey(h, base.children), key), At(RowsByKey(h, ours.children), key),
              At(RowsByKey(h, theirs.children), key);
            Descends(o, t) ==> !VersionsMerge(h, b, o.value, t.value, labels).Merged?
  {
    var b, o, t := At(RowsByKey(h, base.children), key), At(RowsByKey(h, ours.children), key),
                   At(RowsByKey(h, theirs.children), key);
    ChildrenBelow(h, ours, theirs);
    if Descends(o, t) { SplitNeverMerges(h, key, b, o.value, t.value, labels, Size(Cid(ours), Cid(theirs))); }
  }

  /** A choice in the key's own place is one of the two versions, so it does not offer them. */
  lemma OwnChoiceOffersNothing(h: Host, ours: Content, key: Key, e: Edge, t: Option<Edge>, labels: Labels)
    requires e in ours.children && KeyOf(h, e) == key && OwnKeys(h, ours.children)
    ensures !Offers(h, e.right, At(RowsByKey(h, ours.children), key), t, labels)
  {
    RowsByKeyShape(h, ours.children);
    if Offers(h, e.right, Some(e), t, labels) { OfferedIsLower(h, e.right, e, t, labels); }
  }

  lemma OfferedIsLower(h: Host, choice: Cid, e: Edge, t: Option<Edge>, labels: Labels)
    requires Offers(h, choice, Some(e), t, labels)
    ensures Height(e.right) < Height(choice)
  {
    var offered := SideOptions(Some(e), t, labels);
    var x := offered[0];
    NamedIn(offered, x);
    assert Named(x) in multiset(ReadChoice(h, choice).options);
    TopIsOver(ReadChoice(h, choice).options, Named(x));
    ChoiceHeight(h, choice);
  }

  lemma {:induction false} TopIsOver(os: seq<ChoiceOption>, x: ChoiceOption)
    requires x in os
    ensures OptionTop(x) <= Top(os)
  {
    if x != os[0] { TopIsOver(os[1..], x); }
  }
}
