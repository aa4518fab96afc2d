/** Which inputs conflict: told from the versions alone, without merging them. */
module Conflicts {
  import opened Options
  import opened Json
  import opened Graph
  import opened Merge
  import opened MergeLaws
  import opened BranchLaws

  // ---------------------------------------------------------------------------
  // Versions that split

  /** The versions cannot become one node, so that their parent keeps both or conflicts in turn. */
  predicate Splits(h: Host, base: Option<Cid>, ours: Cid, theirs: Cid, isTop: bool, field: bool)
    decreases Height(ours) + Height(theirs), 4, 0
  {
    if Unchanged(base, ours, theirs).Some? then false
    else if OneBranched(h, ours, theirs) then
      LiftedBelow(h, ours, theirs);
      AgainSplits(h, LiftedBase(h, base, ours, theirs), Lifted(h, ours, theirs, ours), Lifted(h, ours, theirs, theirs),
        Size(ours, theirs))
    else if IsBranchChoice(ours.content) && IsBranchChoice(theirs.content) then
      BranchesBelow(h, ours, theirs);
      BranchesSplit(h, base, ours, theirs, Size(ours, theirs))
    else if IsMutableRef(ours.content) || IsMutableRef(theirs.content) then
      RefsSplit(h, base, ours, theirs, isTop, field)
    else
      PlainSplits(h, base, ours, theirs, isTop)
  }

  predicate AgainSplits(h: Host, base: Option<Cid>, ours: Cid, theirs: Cid, ghost bound: nat)
    requires ChoiceTop(h, ours) + ChoiceTop(h, theirs) < bound
    decreases bound, 3, 0
  {
    Unchanged(base, ours, theirs).None? && BranchesSplit(h, base, ours, theirs, bound)
  }

  /** Plain nodes: a field of data both sides changed, where it may conflict, or a row that is their own field. */
  predicate PlainSplits(h: Host, base: Option<Cid>, ours: Cid, theirs: Cid, isTop: bool)
    decreases Height(ours) + Height(theirs), 3, 0
  {
    var b, o, t := BaseContent(base), ours.content, theirs.content;
    || (!isTop && exists key | key in b.data.Keys + o.data.Keys + t.data.Keys ::
        FieldConflict(b.data, o.data, t.data, key))
    || RowsSplit(h, b, o, t)
  }

  predicate RowsSplit(h: Host, base: Content, ours: Content, theirs: Content)
    decreases Height(Cid(ours)) + Height(Cid(theirs)), 2, 0
  {
    AnyClash(h, AllKeys(h, base, ours, theirs), base, ours, theirs)
  }

  predicate AnyClash(h: Host, keys: seq<Key>, base: Content, ours: Content, theirs: Content)
    decreases Height(Cid(ours)) + Height(Cid(theirs)), 1, 1
  {
    exists key | key in keys :: ClashAt(h, base, ours, theirs, key)
  }

  /** One of the nodes' own fields that both sides changed, and whose versions split or are of different kinds. */
  predicate ClashAt(h: Host, base: Content, ours: Content, theirs: Content, key: Key)
    decreases Height(Cid(ours)) + Height(Cid(theirs)), 1, 0
  {
    ChildrenBelow(h, ours, theirs);
    KeySplits(h, key, At(RowsByKey(h, base.children), key), At(RowsByKey(h, ours.children), key),
      At(RowsByKey(h, theirs.children), key), Size(Cid(ours), Cid(theirs)))
  }

  predicate IsField(h: Host, e: Option<Edge>) { e.Some? && IsFieldRow(h, e.value) }

  predicate KeySplits(h: Host, key: Key, b: Option<Edge>, o: Option<Edge>, t: Option<Edge>, ghost bound: nat)
    requires o.Some? && t.Some? ==> Height(o.value.right) + Height(t.value.right) < bound
    decreases bound, 0, 1
  {
    && Contested(key, b, o, t) && (IsField(h, o) || IsField(h, t))
    && (Descends(o, t) ==> VersionsSplit(h, b, o.value, t.value, bound))
  }

  /** Two versions of a row the merge looks inside. */
  predicate VersionsSplit(h: Host, b: Option<Edge>, o: Edge, t: Edge, ghost bound: nat)
    requires Height(o.right) + Height(t.right) < bound
    decreases bound, 0, 0
  {
    Splits(h, BaseOf(b, o), o.right, t.right, false, IsFieldRow(h, o))
  }

  predicate BranchesSplit(h: Host, base: Option<Cid>, ours: Cid, theirs: Cid, ghost bound: nat)
    requires ChoiceTop(h, ours) + ChoiceTop(h, theirs) < bound
    decreases bound, 2, 0
  {
    var os, ts := ReadChoice(h, ours).options, ReadChoice(h, theirs).options;
    exists name | name in NamesOf(os + ts, []) ::
      OptionSplits(h, name, FindOption(BranchOptions(h, base), name), FindOption(os, name), FindOption(ts, name), os,
          ts,
        bound)
  }

  /** Two versions of a branch: of different kinds, or split, or with requests to merge that do. */
  predicate OptionSplits(h: Host, name: string, b: Option<ChoiceOption>, o: Option<ChoiceOption>,
      t: Option<ChoiceOption>, ghost os: seq<ChoiceOption>, ghost ts: seq<ChoiceOption>, ghost bound: nat)
    requires Top(os) + Top(ts) < bound
    requires o == FindOption(os, name) && t == FindOption(ts, name)
    decreases bound, 0, 1
  {
    var oe, te := OptionEdge(o), OptionEdge(t);
    oe.Some? && te.Some?
    && (oe.value.left != te.value.left
        || (TopCovers(os, name);
            TopCovers(ts, name);
            || Splits(h, BaseRight(b), oe.value.right, te.value.right, false, false)
            || RequestSplits(h, OptionRequest(b), o.value.requestMerge, t.value.requestMerge, bound)))
  }

  predicate RequestSplits(h: Host, b: Option<Cid>, o: Option<Cid>, t: Option<Cid>, ghost bound: nat)
    requires o.Some? && t.Some? ==> Height(o.value) + Height(t.value) < bound
    decreases bound, 0, 0
  {
    o != b && t != b && o != t && (o.None? || t.None? || Splits(h, b, o.value, t.value, false, false))
  }

  /** Refs: one of a node's own fields given two values; or, below the top, values that split. */
  predicate RefsSplit(h: Host, base: Option<Cid>, ours: Cid, theirs: Cid, isTop: bool, field: bool)
    requires IsMutableRef(ours.content) || IsMutableRef(theirs.content)
    decreases Height(ours) + Height(theirs), 3, 0
  {
    var s := Sides(h, base, ours, theirs);
    || (field && ValuesConflict(s.bv, s.ov, s.tv))
    || (!IsTyped(s, field) && !isTop && ValuesSplit(h, s, ours, theirs))
  }

  predicate ValuesSplit(h: Host, s: RefSides, ours: Cid, theirs: Cid)
    requires IsMutableRef(ours.content) || IsMutableRef(theirs.content)
    decreases Height(ours) + Height(theirs), 2, 0
  {
    ValuesBelow(h, ours.content, theirs.content);
    Splits(h, s.bv, SideValue(h, ours.content), SideValue(h, theirs.content), true, false)
  }

  // ---------------------------------------------------------------------------
  // They conflict exactly when they split

  predicate Exact(r: Outcome, splits: bool) { !r.Thrown? ==> (r.Conflict? <==> splits) }
  predicate ExactRows(r: Rows, splits: bool) { !r.RowsThrown? ==> (r.RowsConflict? <==> splits) }

  /**
   * Which versions conflict is told from the versions: a merge that does not fail for a ref without identity is a
   * conflict exactly when they split.
   */
  lemma {:induction false} NodeConflicts(h: Host, base: Option<Cid>, ours: Cid, theirs: Cid, labels: Labels,
      isTop: bool, field: bool)
    ensures Exact(MergeNode(h, base, ours, theirs, labels, isTop, field).outcome,
              Splits(h, base, ours, theirs, isTop, field))
    decreases Height(ours) + Height(theirs), 4, 0
  {
    if Unchanged(base, ours, theirs).Some? {
    } else if OneBranched(h, ours, theirs) {
      LiftedBelow(h, ours, theirs);
      AgainConflicts(h, LiftedBase(h, base, ours, theirs), Lifted(h, ours, theirs, ours),
        Lifted(h, ours, theirs, theirs), labels, Size(ours, theirs));
    } else if IsBranchChoice(ours.content) && IsBranchChoice(theirs.content) {
      BranchesBelow(h, ours, theirs);
      BranchesConflict(h, base, ours, theirs, labels, Size(ours, theirs));
    } else if IsMutableRef(ours.content) || IsMutableRef(theirs.content) {
      RefsConflict(h, base, ours, theirs, labels, isTop, field);
    } else {
      PlainConflicts(h, base, ours, theirs, labels, isTop);
    }
  }

  lemma {:induction false} AgainConflicts(h: Host, base: Option<Cid>, ours: Cid, theirs: Cid, labels: Labels,
      bound: nat)
    requires ChoiceTop(h, ours) + ChoiceTop(h, theirs) < bound
    ensures Exact(MergeAgain(h, base, ours, theirs, labels, bound).outcome, AgainSplits(h, base, ours, theirs, bound))
    decreases bound, 3, 0
  {
    BranchesConflict(h, base, ours, theirs, labels, bound);
  }

  lemma {:induction false} PlainConflicts(h: Host, base: Option<Cid>, ours: Cid, theirs: Cid, labels: Labels,
      isTop: bool)
    ensures Exact(MergePlain(h, base, ours, theirs, labels, isTop).outcome, PlainSplits(h, base, ours, theirs, isTop))
    decreases Height(ours) + Height(theirs), 3, 0
  {
    RowsConflict(h, BaseContent(base), ours.content, theirs.content, labels);
  }

  lemma {:induction false} RowsConflict(h: Host, base: Content, ours: Content, theirs: Content, labels: Labels)
    ensures ExactRows(MergeChildren(h, base, ours, theirs, labels).rows, RowsSplit(h, base, ours, theirs))
    decreases Height(Cid(ours)) + Height(Cid(theirs)), 2, 0
  {
    ChildrenBelow(h, ours, theirs);
    KeysConflict(h, AllKeys(h, base, ours, theirs), base, ours, theirs, labels);
  }

  lemma {:induction false} KeysConflict(h: Host, keys: seq<Key>, base: Content, ours: Content, theirs: Content,
      labels: Labels)
    requires Below(RowsByKey(h, ours.children), RowsByKey(h, theirs.children), Size(Cid(ours), Cid(theirs)))
    ensures var rows := MergeKeys(h, keys, RowsByKey(h, base.children), RowsByKey(h, ours.children),
              RowsByKey(h, theirs.children), labels, Size(Cid(ours), Cid(theirs))).rows;
            ExactRows(rows, AnyClash(h, keys, base, ours, theirs))
    decreases Height(Cid(ours)) + Height(Cid(theirs)), 1, |keys|
  {
    if keys != [] {
      var key := keys[0];
      KeyConflicts(h, key, At(RowsByKey(h, base.children), key), At(RowsByKey(h, ours.children), key),
        At(RowsByKey(h, theirs.children), key), labels, Size(Cid(ours), Cid(theirs)));
      KeysConflict(h, keys[1..], base, ours, theirs, labels);
      AnyClashFirst(h, keys, base, ours, theirs);
    }
  }

  lemma AnyClashFirst(h: Host, keys: seq<Key>, base: Content, ours: Content, theirs: Content)
    requires keys != []
    ensures AnyClash(h, keys, base, ours, theirs)
            <==> ClashAt(h, base, ours, theirs, keys[0]) || AnyClash(h, keys[1..], base, ours, theirs)
  {
    assert keys == [keys[0]] + keys[1..];
  }

  lemma {:induction false} KeyConflicts(h: Host, key: Key, b: Option<Edge>, o: Option<Edge>, t: Option<Edge>,
      labels: Labels, bound: nat)
    requires o.Some? && t.Some? ==> Height(o.value.right) + Height(t.value.right) < bound
    ensures ExactRows(MergeKey(h, key, b, o, t, labels, bound).rows, KeySplits(h, key, b, o, t, bound))
    decreases bound, 0, 1
  {
    if Contested(key, b, o, t) && Descends(o, t) {
      NodeConflicts(h, BaseOf(b, o.value), o.value.right, t.value.right, labels, false, IsFieldRow(h, o.value));
    }
  }

  lemma {:induction false} BranchesConflict(h: Host, base: Option<Cid>, ours: Cid, theirs: Cid, labels: Labels,
      bound: nat)
    requires ChoiceTop(h, ours) + ChoiceTop(h, theirs) < bound
    ensures Exact(MergeBranches(h, base, ours, theirs, labels, bound).outcome,
              BranchesSplit(h, base, ours, theirs, bound))
    decreases bound, 2, 0
  {
    var os, ts := ReadChoice(h, ours).options, ReadChoice(h, theirs).options;
    OptionsConflict(h, NamesOf(os + ts, []), BranchOptions(h, base), os, ts, labels, bound);
  }

  lemma {:induction false} OptionsConflict(h: Host, names: seq<string>, bs: seq<ChoiceOption>, os: seq<ChoiceOption>,
      ts: seq<ChoiceOption>, labels: Labels, bound: nat)
    requires Top(os) + Top(ts) < bound
    ensures Exact(MergeOptions(h, names, bs, os, ts, labels, bound).failed,
              exists name | name in names ::
                OptionSplits(h, name, FindOption(bs, name), FindOption(os, name), FindOption(ts, name), os, ts, bound))
    decreases bound, 1, |names|
  {
    if names != [] {
      var name := names[0];
      OptionConflicts(h, name, FindOption(bs, name), FindOption(os, name), FindOption(ts, name), labels, os, ts, bound);
      OptionsConflict(h, names[1..], bs, os, ts, labels, bound);
      assert names == [name] + names[1..];
    }
  }

  lemma {:induction false} OptionConflicts(h: Host, name: string, b: Option<ChoiceOption>, o: Option<ChoiceOption>,
      t: Option<ChoiceOption>, labels: Labels, os: seq<ChoiceOption>, ts: seq<ChoiceOption>, bound: nat)
    requires Top(os) + Top(ts) < bound && o == FindOption(os, name) && t == FindOption(ts, name)
    ensures Exact(MergeOption(h, name, b, o, t, labels, os, ts, bound).failed,
            OptionSplits(h, name, b, o, t, os, ts, bound))
    decreases bound, 0, 1
  {
    var oe, te := OptionEdge(o), OptionEdge(t);
    if oe.Some? && te.Some? && oe.value.left == te.value.left {
      TopCovers(os, name);
      TopCovers(ts, name);
      NodeConflicts(h, BaseRight(b), oe.value.right, te.value.right, labels, false, false);
      RequestConflicts(h, OptionRequest(b), o.value.requestMerge, t.value.requestMerge, labels, bound);
    }
  }

  lemma {:induction false} RequestConflicts(h: Host, b: Option<Cid>, o: Option<Cid>, t: Option<Cid>, labels: Labels,
      bound: nat)
    requires o.Some? && t.Some? ==> Height(o.value) + Height(t.value) < bound
    ensures Exact(MergeRequest(h, b, o, t, labels, bound).failed, RequestSplits(h, b, o, t, bound))
    decreases bound, 0, 0
  {
    if o.Some? && t.Some? { NodeConflicts(h, b, o.value, t.value, labels, false, false); }
  }

  lemma {:induction false} RefsConflict(h: Host, base: Option<Cid>, ours: Cid, theirs: Cid, labels: Labels,
      isTop: bool, field: bool)
    requires IsMutableRef(ours.content) || IsMutableRef(theirs.content)
    ensures Exact(MergeRefs(h, base, ours, theirs, labels, isTop, field).outcome,
              RefsSplit(h, base, ours, theirs, isTop, field))
    decreases Height(ours) + Height(theirs), 3, 0
  {
    var s := Sides(h, base, ours, theirs);
    ValuesConflictExactly(h, s, ours, theirs, labels, isTop);
    RefsOutcome(h, base, ours, theirs, labels, isTop, field);
  }

  lemma RefsOutcome(h: Host, base: Option<Cid>, ours: Cid, theirs: Cid, labels: Labels, isTop: bool, field: bool)
    requires IsMutableRef(ours.content) || IsMutableRef(theirs.content)
    ensures var s, r := Sides(h, base, ours, theirs), MergeRefs(h, base, ours, theirs, labels, isTop, field).outcome;
            && (r.Conflict? <==>
                (field && ValuesConflict(s.bv, s.ov, s.tv))
                || (!IsTyped(s, field) && MergeValues(h, s, ours, theirs, labels, isTop).failed.Conflict?))
            && (!r.Thrown? && !(field && ValuesConflict(s.bv, s.ov, s.tv)) && !IsTyped(s, field)
                ==> !MergeValues(h, s, ours, theirs, labels, isTop).failed.Thrown?)
  {}

  lemma {:induction false} ValuesConflictExactly(h: Host, s: RefSides, ours: Cid, theirs: Cid, labels: Labels,
      isTop: bool)
    requires IsMutableRef(ours.content) || IsMutableRef(theirs.content)
    ensures Exact(MergeValues(h, s, ours, theirs, labels, isTop).failed, !isTop && ValuesSplit(h, s, ours, theirs))
    decreases Height(ours) + Height(theirs), 2, 0
  {
    ValuesBelow(h, ours.content, theirs.content);
    NodeConflicts(h, s.bv, SideValue(h, ours.content), SideValue(h, theirs.content), labels, true, false);
  }

  // ---------------------------------------------------------------------------
  // What a caller reads from them

  /** The nodes clash at one of their own fields exactly when some key, of all there are, is one they clash at. */
  lemma ClashOf(h: Host, base: Content, ours: Content, theirs: Content) returns (key: Key)
    requires RowsSplit(h, base, ours, theirs)
    ensures key in AllKeys(h, base, ours, theirs) && ClashAt(h, base, ours, theirs, key)
  {
    assert AnyClash(h, AllKeys(h, base, ours, theirs), base, ours, theirs);
    key :| key in AllKeys(h, base, ours, theirs) && ClashAt(h, base, ours, theirs, key);
  }

  lemma ClashSplits(h: Host, base: Content, ours: Content, theirs: Content, key: Key)
    requires ClashAt(h, base, ours, theirs, key)
    ensures RowsSplit(h, base, ours, theirs)
  {
    ClashIsKey(h, base, ours, theirs, key);
    assert AnyClash(h, AllKeys(h, base, ours, theirs), base, ours, theirs);
  }

  lemma ClashIsKey(h: Host, base: Content, ours: Content, theirs: Content, key: Key)
    requires ClashAt(h, base, ours, theirs, key)
    ensures key in AllKeys(h, base, ours, theirs)
    ensures Contested(key, At(RowsByKey(h, base.children), key), At(RowsByKey(h, ours.children), key),
              At(RowsByKey(h, theirs.children), key))
  {
    KeysOfSides(h, base, ours, theirs, key);
  }

  /**
   * Two changed versions of a plain node conflict exactly when some field of their data was changed on both sides and
   * the node may conflict (it is neither the top node nor the value of a ref), or some row that is one of their own
   * fields was changed on both sides and its versions split. Children never make their parent conflict.
   */
  lemma PlainNodesConflict(h: Host, base: Option<Cid>, ours: Cid, theirs: Cid, labels: Labels, isTop: bool)
    requires !IsBranchChoice(ours.content) && !IsBranchChoice(theirs.content)
    requires !IsMutableRef(ours.content) && !IsMutableRef(theirs.content) && Unchanged(base, ours, theirs).None?
    requires !MergeNode(h, base, ours, theirs, labels, isTop, false).outcome.Thrown?
    ensures MergeNode(h, base, ours, theirs, labels, isTop, false).outcome.Conflict?
            <==> (!isTop && exists key ::
                    FieldConflict(BaseContent(base).data, ours.content.data, theirs.content.data, key))
                 || RowsSplit(h, BaseContent(base), ours.content, theirs.content)
  {
    NodeConflicts(h, base, ours, theirs, labels, isTop, false);
    PlainSplitsWhere(h, base, ours, theirs, isTop);
  }

  lemma PlainSplitsWhere(h: Host, base: Option<Cid>, ours: Cid, theirs: Cid, isTop: bool)
    requires !IsBranchChoice(ours.content) && !IsBranchChoice(theirs.content)
    requires !IsMutableRef(ours.content) && !IsMutableRef(theirs.content) && Unchanged(base, ours, theirs).None?
    ensures Splits(h, base, ours, theirs, isTop, false)
            <==> (!isTop && exists key ::
                    FieldConflict(BaseContent(base).data, ours.content.data, theirs.content.data, key))
                 || RowsSplit(h, BaseContent(base), ours.content, theirs.content)
  {
    var b, o, t := BaseContent(base), ours.content, theirs.content;
    forall key | FieldConflict(b.data, o.data, t.data, key) ensures key in b.data.Keys + o.data.Keys + t.data.Keys {}
  }

  /** Of a row that became something, the two versions merged exactly when they do not split. */
  lemma VersionsTell(h: Host, key: Key, b: Option<Edge>, o: Option<Edge>, t: Option<Edge>, labels: Labels, bound: nat)
    requires o.Some? && t.Some? ==> Height(o.value.right) + Height(t.value.right) < bound
    requires Contested(key, b, o, t) && Descends(o, t) && MergeKey(h, key, b, o, t, labels, bound).rows.Rows?
    ensures VersionsMerge(h, b, o.value, t.value, labels).Merged? <==> !VersionsSplit(h, b, o.value, t.value, bound)
  {
    NodeConflicts(h, BaseOf(b, o.value), o.value.right, t.value.right, labels, false, IsFieldRow(h, o.value));
  }

  lemma SplitNeverMerges(h: Host, key: Key, b: Option<Edge>, o: Edge, t: Edge, labels: Labels, bound: nat)
    requires Height(o.right) + Height(t.right) < bound
    requires KeySplits(h, key, b, Some(o), Some(t), bound) && Descends(Some(o), Some(t))
    ensures !VersionsMerge(h, b, o, t, labels).Merged?
  {
    NodeConflicts(h, BaseOf(b, o), o.right, t.right, labels, false, IsFieldRow(h, o));
  }

  // ---------------------------------------------------------------------------
  // The two merges a ref is made of

  function ValuesMerge(h: Host, s: RefSides, ours: Cid, theirs: Cid, labels: Labels): Outcome
    requires IsMutableRef(ours.content) || IsMutableRef(theirs.content)
  {
    MergeNode(h, s.bv, SideValue(h, ours.content), SideValue(h, theirs.content), labels, true, false).outcome
  }

  function BookOf(h: Host, ref: Option<Content>): Content { if ref.Some? then Book(h, ref.value) else NoData() }

  function BooksMerge(h: Host, s: RefSides, labels: Labels): Rows {
    MergeChildren(h, BookOf(h, s.b), Book(h, s.o), Book(h, s.t), labels).rows
  }

  /** The bookkeeping of the refs clashes at one of the refs' own fields. */
  predicate BooksSplit(h: Host, s: RefSides) { RowsSplit(h, BookOf(h, s.b), Book(h, s.o), Book(h, s.t)) }

  lemma PartsTell(h: Host, s: RefSides, ours: Cid, theirs: Cid, labels: Labels)
    requires IsMutableRef(ours.content) || IsMutableRef(theirs.content)
    ensures Exact(ValuesMerge(h, s, ours, theirs, labels), ValuesSplit(h, s, ours, theirs))
    ensures ExactRows(BooksMerge(h, s, labels), BooksSplit(h, s))
  {
    NodeConflicts(h, s.bv, SideValue(h, ours.content), SideValue(h, theirs.content), labels, true, false);
    BooksTell(h, s, labels);
  }

  lemma BooksTell(h: Host, s: RefSides, labels: Labels)
    ensures ExactRows(BooksMerge(h, s, labels), BooksSplit(h, s))
  {
    RowsConflict(h, BookOf(h, s.b), Book(h, s.o), Book(h, s.t), labels);
  }

  /** The value and the bookkeeping a merged ref is built from. */
  function RefValueMerge(h: Host, s: RefSides, ours: Cid, theirs: Cid, labels: Labels, isTop: bool,
      field: bool): RequestResult
    requires IsMutableRef(ours.content) || IsMutableRef(theirs.content)
  {
    if IsTyped(s, field) then MergeTyped(h, s) else MergeValues(h, s, ours, theirs, labels, isTop)
  }

  lemma RefsParts(h: Host, base: Option<Cid>, ours: Cid, theirs: Cid, labels: Labels, isTop: bool, field: bool)
    requires IsMutableRef(ours.content) || IsMutableRef(theirs.content)
    requires MergeRefs(h, base, ours, theirs, labels, isTop, field).outcome.Merged?
    ensures var s := Sides(h, base, ours, theirs);
            && RefValueMerge(h, s, ours, theirs, labels, isTop, field).failed.Merged?
                && !BooksMerge(h, s, labels).RowsThrown?
            && MergeRefs(h, base, ours, theirs, labels, isTop, field)
               == NodeResult(Merged(MergedRef(h, s, ours, theirs,
                   RefValueMerge(h, s, ours, theirs, labels, isTop, field).request, BooksMerge(h, s, labels))),
                    RefValueMerge(h, s, ours, theirs, labels, isTop, field).raised
                    + MergeChildren(h, BookOf(h, s.b), Book(h, s.o), Book(h, s.t), labels).raised)
  {}
}
