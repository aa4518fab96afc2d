/**
 * The choices a merge reports and the choices its result holds. A part of a merge that meets a conflict is given up
 * after choices were already reported for it; the rest of what is reported, and nothing else, is new in the result.
 */
module Reported {
  import opened Options
  import opened Json
  import opened Graph
  import opened Merge
  import opened MergeLaws
  import opened BranchLaws
  import opened Conflicts
  import opened Beneath
  import opened Store

  // ---------------------------------------------------------------------------
  // Choices of parts that were not given up

  function KeptInNode(h: Host, base: Option<Cid>, ours: Cid, theirs: Cid, labels: Labels, isTop: bool,
      field: bool): set<Cid>
    decreases Height(ours) + Height(theirs), 4, 0
  {
    if Unchanged(base, ours, theirs).Some? then {}
    else if OneBranched(h, ours, theirs) then
      LiftedBelow(h, ours, theirs);
      KeptAgain(h, LiftedBase(h, base, ours, theirs), Lifted(h, ours, theirs, ours), Lifted(h, ours, theirs, theirs),
          labels, Size(ours, theirs))
    else if IsBranchChoice(ours.content) && IsBranchChoice(theirs.content) then
      BranchesBelow(h, ours, theirs);
      KeptInBranches(h, base, ours, theirs, labels, Size(ours, theirs))
    else if IsMutableRef(ours.content) || IsMutableRef(theirs.content) then
      KeptInRefs(h, base, ours, theirs, labels, isTop, field)
    else
      KeptInRows(h, BaseContent(base), ours.content, theirs.content, labels)
  }

  function KeptAgain(h: Host, base: Option<Cid>, ours: Cid, theirs: Cid, labels: Labels, ghost bound: nat): set<Cid>
    requires ChoiceTop(h, ours) + ChoiceTop(h, theirs) < bound
    decreases bound, 3, 0
  {
    if Unchanged(base, ours, theirs).Some? then {} else KeptInBranches(h, base, ours, theirs, labels, bound)
  }

  function KeptInRows(h: Host, base: Content, ours: Content, theirs: Content, labels: Labels): set<Cid>
    decreases Height(Cid(ours)) + Height(Cid(theirs)), 2, 0
  {
    ChildrenBelow(h, ours, theirs);
    KeptInKeys(h, AllKeys(h, base, ours, theirs), RowsByKey(h, base.children), RowsByKey(h, ours.children),
      RowsByKey(h, theirs.children), labels, Size(Cid(ours), Cid(theirs)))
  }

  function KeptInKeys(h: Host, keys: seq<Key>, bm: map<Key, Edge>, om: map<Key, Edge>, tm: map<Key, Edge>,
      labels: Labels, ghost bound: nat): set<Cid>
    requires Below(om, tm, bound)
    decreases bound, 1, |keys|
  {
    if keys == [] then {}
    else
        KeptInKey(h, keys[0], At(bm, keys[0]), At(om, keys[0]), At(tm, keys[0]), labels, bound)
        + KeptInKeys(h, keys[1..], bm, om, tm, labels, bound)
  }

  /**
   * A merged row keeps what its node keeps; a row that could not be merged keeps the choice over its versions alone.
   */
  function KeptInKey(h: Host, key: Key, b: Option<Edge>, o: Option<Edge>, t: Option<Edge>, labels: Labels,
      ghost bound: nat): set<Cid>
    requires o.Some? && t.Some? ==> Height(o.value.right) + Height(t.value.right) < bound
    decreases bound, 0, 1
  {
    if !Contested(key, b, o, t) then {}
    else if Descends(o, t) && !VersionsSplit(h, b, o.value, t.value, bound) then
      KeptInNode(h, BaseOf(b, o.value), o.value.right, t.value.right, labels, false, IsFieldRow(h, o.value))
    else {ChoiceOver(h, key, b, o, t, labels)}
  }

  function KeptInBranches(h: Host, base: Option<Cid>, ours: Cid, theirs: Cid, labels: Labels,
      ghost bound: nat): set<Cid>
    requires ChoiceTop(h, ours) + ChoiceTop(h, theirs) < bound
    decreases bound, 2, 0
  {
    var o, t := ReadChoice(h, ours), ReadChoice(h, theirs);
    KeptInOptions(h, NamesOf(o.options + t.options, []), BranchOptions(h, base), o.options, t.options, labels, bound)
  }

  function KeptInOptions(h: Host, names: seq<string>, bs: seq<ChoiceOption>, os: seq<ChoiceOption>,
      ts: seq<ChoiceOption>, labels: Labels, ghost bound: nat): set<Cid>
    requires Top(os) + Top(ts) < bound
    decreases bound, 1, |names|
  {
    if names == [] then {}
    else KeptInOption(h, names[0], FindOption(bs, names[0]), FindOption(os, names[0]), FindOption(ts, names[0]), labels,
        os, ts, bound)
         + KeptInOptions(h, names[1..], bs, os, ts, labels, bound)
  }

  function KeptInOption(h: Host, name: string, b: Option<ChoiceOption>, o: Option<ChoiceOption>,
      t: Option<ChoiceOption>, labels: Labels,
      ghost os: seq<ChoiceOption>, ghost ts: seq<ChoiceOption>, ghost bound: nat): set<Cid>
    requires Top(os) + Top(ts) < bound
    requires o == FindOption(os, name) && t == FindOption(ts, name)
    decreases bound, 0, 1
  {
    var oe, te, be := OptionEdge(o), OptionEdge(t), OptionEdge(b);
    if oe.None? || te.None? || oe.value.left != te.value.left then {}
    else
      TopCovers(os, name);
      TopCovers(ts, name);
      KeptInNode(h, if be.Some? then Some(be.value.right) else None, oe.value.right, te.value.right, labels, false,
          false)
      + KeptInRequest(h, OptionRequest(b), o.value.requestMerge, t.value.requestMerge, labels, bound)
  }

  function KeptInRequest(h: Host, b: Option<Cid>, o: Option<Cid>, t: Option<Cid>, labels: Labels,
      ghost bound: nat): set<Cid>
    requires o.Some? && t.Some? ==> Height(o.value) + Height(t.value) < bound
    decreases bound, 0, 0
  {
    if o == b || t == b || o == t || o.None? || t.None? then {}
        else KeptInNode(h, b, o.value, t.value, labels, false, false)
  }

  /**
   * The merge of the values counts unless it was a conflict and ours was kept; the merge of the bookkeeping, unless
   * ours was.
   */
  function KeptInRefs(h: Host, base: Option<Cid>, ours: Cid, theirs: Cid, labels: Labels, isTop: bool,
      field: bool): set<Cid>
    requires IsMutableRef(ours.content) || IsMutableRef(theirs.content)
    decreases Height(ours) + Height(theirs), 3, 0
  {
    var s := Sides(h, base, ours, theirs);
    ValuesBelow(h, ours.content, theirs.content);
    BooksBelow(h, ours.content, theirs.content);
    (if !IsTyped(s, field) && !ValuesSplit(h, s, ours, theirs)
     then KeptInNode(h, s.bv, SideValue(h, ours.content), SideValue(h, theirs.content), labels, true, false) else {})
    + (if !BooksSplit(h, s) then KeptInRows(h, BookOf(h, s.b), Book(h, s.o), Book(h, s.t), labels) else {})
  }

  // ---------------------------------------------------------------------------
  // What is kept is reported, and is in the result

  function ChoiceRow(c: Cid): Edge { Edge(Prim("choice"), c) }

  ghost predicate InRows(es: seq<Edge>, c: Cid) {
    exists e | e in es :: e == ChoiceRow(c) || Occurs(e.left, ChoiceRow(c)) || Occurs(e.right, ChoiceRow(c))
  }

  ghost predicate InOption(o: ChoiceOption, c: Cid) {
    (o.edge.Some? && Occurs(o.edge.value.right, ChoiceRow(c)))
        || (o.requestMerge.Some? && Occurs(o.requestMerge.value, ChoiceRow(c)))
  }

  lemma {:induction false} NodeKeeps(h: Host, base: Option<Cid>, ours: Cid, theirs: Cid, labels: Labels, isTop: bool,
      field: bool, c: Cid)
    requires c in KeptInNode(h, base, ours, theirs, labels, isTop, field)
    requires MergeNode(h, base, ours, theirs, labels, isTop, field).outcome.Merged?
    ensures c in MergeNode(h, base, ours, theirs, labels, isTop, field).raised
    ensures Occurs(MergeNode(h, base, ours, theirs, labels, isTop, field).outcome.cid, ChoiceRow(c))
    decreases Height(ours) + Height(theirs), 4, 0
  {
    if OneBranched(h, ours, theirs) {
      LiftedBelow(h, ours, theirs);
      AgainKeeps(h, LiftedBase(h, base, ours, theirs), Lifted(h, ours, theirs, ours), Lifted(h, ours, theirs, theirs),
          labels, Size(ours, theirs), c);
    } else if IsBranchChoice(ours.content) && IsBranchChoice(theirs.content) {
      BranchesBelow(h, ours, theirs);
      BranchesKeep(h, base, ours, theirs, labels, Size(ours, theirs), c);
    } else if IsMutableRef(ours.content) || IsMutableRef(theirs.content) {
      RefsKeep(h, base, ours, theirs, labels, isTop, field, c);
    } else {
      PlainKeeps(h, base, ours, theirs, labels, isTop, c);
    }
  }

  lemma {:induction false} AgainKeeps(h: Host, base: Option<Cid>, ours: Cid, theirs: Cid, labels: Labels, bound: nat,
      c: Cid)
    requires ChoiceTop(h, ours) + ChoiceTop(h, theirs) < bound && c in KeptAgain(h, base, ours, theirs, labels, bound)
    requires MergeAgain(h, base, ours, theirs, labels, bound).outcome.Merged?
    ensures c in MergeAgain(h, base, ours, theirs, labels, bound).raised
    ensures Occurs(MergeAgain(h, base, ours, theirs, labels, bound).outcome.cid, ChoiceRow(c))
    decreases bound, 3, 0
  {
    BranchesKeep(h, base, ours, theirs, labels, bound, c);
  }

  lemma {:induction false} PlainKeeps(h: Host, base: Option<Cid>, ours: Cid, theirs: Cid, labels: Labels, isTop: bool,
      c: Cid)
    requires c in KeptInRows(h, BaseContent(base), ours.content, theirs.content, labels)
    requires MergePlain(h, base, ours, theirs, labels, isTop).outcome.Merged?
    ensures c in MergePlain(h, base, ours, theirs, labels, isTop).raised
    ensures Occurs(MergePlain(h, base, ours, theirs, labels, isTop).outcome.cid, ChoiceRow(c))
    decreases Height(ours) + Height(theirs), 3, 0
  {
    RowsKeep(h, BaseContent(base), ours.content, theirs.content, labels, c);
  }

  lemma {:induction false} RowsKeep(h: Host, base: Content, ours: Content, theirs: Content, labels: Labels, c: Cid)
    requires c in KeptInRows(h, base, ours, theirs, labels) && MergeChildren(h, base, ours, theirs, labels).rows.Rows?
    ensures c in MergeChildren(h, base, ours, theirs, labels).raised
    ensures InRows(MergeChildren(h, base, ours, theirs, labels).rows.edges, c)
    decreases Height(Cid(ours)) + Height(Cid(theirs)), 2, 0
  {
    ChildrenBelow(h, ours, theirs);
    KeysKeep(h, AllKeys(h, base, ours, theirs), RowsByKey(h, base.children), RowsByKey(h, ours.children),
        RowsByKey(h, theirs.children),
      labels, Size(Cid(ours), Cid(theirs)), c);
  }

  lemma {:induction false} KeysKeep(h: Host, keys: seq<Key>, bm: map<Key, Edge>, om: map<Key, Edge>, tm: map<Key, Edge>,
      labels: Labels, bound: nat, c: Cid)
    requires Below(om, tm, bound) && c in KeptInKeys(h, keys, bm, om, tm, labels, bound)
    requires MergeKeys(h, keys, bm, om, tm, labels, bound).rows.Rows?
    ensures c in MergeKeys(h, keys, bm, om, tm, labels, bound).raised
    ensures InRows(MergeKeys(h, keys, bm, om, tm, labels, bound).rows.edges, c)
    decreases bound, 1, |keys|
  {
    var key := keys[0];
    if c in KeptInKey(h, key, At(bm, key), At(om, key), At(tm, key), labels, bound) {
      KeyKeeps(h, key, At(bm, key), At(om, key), At(tm, key), labels, bound, c);
    } else {
      KeysKeep(h, keys[1..], bm, om, tm, labels, bound, c);
    }
  }

  lemma {:induction false} KeyKeeps(h: Host, key: Key, b: Option<Edge>, o: Option<Edge>, t: Option<Edge>,
      labels: Labels, bound: nat, c: Cid)
    requires o.Some? && t.Some? ==> Height(o.value.right) + Height(t.value.right) < bound
    requires c in KeptInKey(h, key, b, o, t, labels, bound) && MergeKey(h, key, b, o, t, labels, bound).rows.Rows?
    ensures c in MergeKey(h, key, b, o, t, labels, bound).raised
    ensures InRows(MergeKey(h, key, b, o, t, labels, bound).rows.edges, c)
    decreases bound, 0, 1
  {
    if Descends(o, t) { VersionsTell(h, key, b, o, t, labels, bound); }
    if Descends(o, t) && !VersionsSplit(h, b, o.value, t.value, bound) {
      NodeKeeps(h, BaseOf(b, o.value), o.value.right, t.value.right, labels, false, IsFieldRow(h, o.value), c);
    }
  }

  lemma {:induction false} BranchesKeep(h: Host, base: Option<Cid>, ours: Cid, theirs: Cid, labels: Labels, bound: nat,
      c: Cid)
    requires ChoiceTop(h, ours) + ChoiceTop(h, theirs) < bound
            && c in KeptInBranches(h, base, ours, theirs, labels, bound)
    requires MergeBranches(h, base, ours, theirs, labels, bound).outcome.Merged?
    ensures c in MergeBranches(h, base, ours, theirs, labels, bound).raised
    ensures Occurs(MergeBranches(h, base, ours, theirs, labels, bound).outcome.cid, ChoiceRow(c))
    decreases bound, 2, 0
  {
    var o, t := ReadChoice(h, ours), ReadChoice(h, theirs);
    var names := NamesOf(o.options + t.options, []);
    OptionsKeep(h, names, BranchOptions(h, base), o.options, t.options, labels, bound, c);
    var merged := MergeOptions(h, names, BranchOptions(h, base), o.options, t.options, labels, bound);
    var option :| option in merged.options && InOption(option, c);
    WrittenBranches(h, base, ours, theirs, labels, bound, option, ChoiceRow(c));
  }

  lemma WrittenBranches(h: Host, base: Option<Cid>, ours: Cid, theirs: Cid, labels: Labels, bound: nat,
      option: ChoiceOption, e: Edge)
    requires ChoiceTop(h, ours) + ChoiceTop(h, theirs) < bound
            && MergeBranches(h, base, ours, theirs, labels, bound).outcome.Merged?
    requires option in MergeOptions(h, NamesOf(ReadChoice(h, ours).options + ReadChoice(h, theirs).options, []),
            BranchOptions(h, base),
                         ReadChoice(h, ours).options, ReadChoice(h, theirs).options, labels, bound).options
    requires (option.edge.Some? && Occurs(option.edge.value.right, e))
            || (option.requestMerge.Some? && Occurs(option.requestMerge.value, e))
    ensures Occurs(MergeBranches(h, base, ours, theirs, labels, bound).outcome.cid, e)
  {
    var o, t := ReadChoice(h, ours), ReadChoice(h, theirs);
    var b := if base.Some? && IsBranchChoice(base.value.content) then Some(ReadChoice(h, base.value)) else None;
    var merged := MergeOptions(h, NamesOf(o.options + t.options, []), BranchOptions(h, base), o.options, t.options,
        labels, bound);
    OccursInBranches(h, o.id, if b.Some? && b.value.base.Some? then b.value.base else o.base, merged.options,
      OrMain(if b.Some? && b.value.defaultName.Some? then b.value.defaultName else o.defaultName), option, e);
  }

  lemma {:induction false} OptionsKeep(h: Host, names: seq<string>, bs: seq<ChoiceOption>, os: seq<ChoiceOption>,
      ts: seq<ChoiceOption>, labels: Labels, bound: nat, c: Cid)
    requires Top(os) + Top(ts) < bound && c in KeptInOptions(h, names, bs, os, ts, labels, bound)
    requires MergeOptions(h, names, bs, os, ts, labels, bound).failed.Merged?
    ensures c in MergeOptions(h, names, bs, os, ts, labels, bound).raised
    ensures exists option :: option in MergeOptions(h, names, bs, os, ts, labels, bound).options && InOption(option, c)
    decreases bound, 1, |names|
  {
    var name := names[0];
    if c in KeptInOption(h, name, FindOption(bs, name), FindOption(os, name), FindOption(ts, name), labels, os, ts,
        bound) {
      OptionKeeps(h, name, FindOption(bs, name), FindOption(os, name), FindOption(ts, name), labels, os, ts, bound, c);
      var first := MergeOption(h, name, FindOption(bs, name), FindOption(os, name), FindOption(ts, name), labels, os,
          ts, bound);
      var option :| option in first.options && InOption(option, c);
      assert option in MergeOptions(h, names, bs, os, ts, labels, bound).options;
    } else {
      OptionsKeep(h, names[1..], bs, os, ts, labels, bound, c);
      var rest := MergeOptions(h, names[1..], bs, os, ts, labels, bound);
      var option :| option in rest.options && InOption(option, c);
      assert option in MergeOptions(h, names, bs, os, ts, labels, bound).options;
    }
  }

  lemma {:induction false} OptionKeeps(h: Host, name: string, b: Option<ChoiceOption>, o: Option<ChoiceOption>,
      t: Option<ChoiceOption>, labels: Labels,
      os: seq<ChoiceOption>, ts: seq<ChoiceOption>, bound: nat, c: Cid)
    requires Top(os) + Top(ts) < bound && o == FindOption(os, name) && t == FindOption(ts, name)
    requires c in KeptInOption(h, name, b, o, t, labels, os, ts, bound)
            && MergeOption(h, name, b, o, t, labels, os, ts, bound).failed.Merged?
    ensures c in MergeOption(h, name, b, o, t, labels, os, ts, bound).raised
    ensures exists option ::
            option in MergeOption(h, name, b, o, t, labels, os, ts, bound).options
            && InOption(option, c)
    decreases bound, 0, 1
  {
    var oe, te, be := OptionEdge(o), OptionEdge(t), OptionEdge(b);
    TopCovers(os, name);
    TopCovers(ts, name);
    var r := MergeOption(h, name, b, o, t, labels, os, ts, bound);
    if c in KeptInNode(h, if be.Some? then Some(be.value.right) else None, oe.value.right, te.value.right, labels,
        false, false) {
      NodeKeeps(h, if be.Some? then Some(be.value.right) else None, oe.value.right, te.value.right, labels, false,
          false, c);
    } else {
      RequestKeeps(h, OptionRequest(b), o.value.requestMerge, t.value.requestMerge, labels, bound, c);
    }
    assert r.options[0] in r.options && InOption(r.options[0], c);
  }

  lemma {:induction false} RequestKeeps(h: Host, b: Option<Cid>, o: Option<Cid>, t: Option<Cid>, labels: Labels,
      bound: nat, c: Cid)
    requires o.Some? && t.Some? ==> Height(o.value) + Height(t.value) < bound
    requires c in KeptInRequest(h, b, o, t, labels, bound) && MergeRequest(h, b, o, t, labels, bound).failed.Merged?
    ensures c in MergeRequest(h, b, o, t, labels, bound).raised
    ensures MergeRequest(h, b, o, t, labels, bound).request.Some?
            && Occurs(MergeRequest(h, b, o, t, labels, bound).request.value, ChoiceRow(c))
    decreases bound, 0, 0
  {
    NodeKeeps(h, b, o.value, t.value, labels, false, false, c);
  }

  lemma {:induction false} RefsKeep(h: Host, base: Option<Cid>, ours: Cid, theirs: Cid, labels: Labels, isTop: bool,
      field: bool, c: Cid)
    requires IsMutableRef(ours.content) || IsMutableRef(theirs.content)
    requires c in KeptInRefs(h, base, ours, theirs, labels, isTop, field)
            && MergeRefs(h, base, ours, theirs, labels, isTop, field).outcome.Merged?
    ensures c in MergeRefs(h, base, ours, theirs, labels, isTop, field).raised
    ensures Occurs(MergeRefs(h, base, ours, theirs, labels, isTop, field).outcome.cid, ChoiceRow(c))
    decreases Height(ours) + Height(theirs), 3, 0
  {
    var s := Sides(h, base, ours, theirs);
    RefsParts(h, base, ours, theirs, labels, isTop, field);
    ValuesBelow(h, ours.content, theirs.content);
    BooksBelow(h, ours.content, theirs.content);
    var value, books := RefValueMerge(h, s, ours, theirs, labels, isTop, field).request, BooksMerge(h, s, labels);
    PartsTell(h, s, ours, theirs, labels);
    if books.Rows? && c in KeptInRows(h, BookOf(h, s.b), Book(h, s.o), Book(h, s.t), labels) {
      RowsKeep(h, BookOf(h, s.b), Book(h, s.o), Book(h, s.t), labels, c);
      InMerged(h, s, ours, theirs, value, books, c);
    } else {
      NodeKeeps(h, s.bv, SideValue(h, ours.content), SideValue(h, theirs.content), labels, true, false, c);
      InMerged(h, s, ours, theirs, value, books, c);
    }
  }

  lemma InMerged(h: Host, s: RefSides, ours: Cid, theirs: Cid, value: Option<Cid>, books: Rows, c: Cid)
    requires (value.Some? && Occurs(value.value, ChoiceRow(c))) || (books.Rows? && InRows(books.edges, c))
    ensures Occurs(MergedRef(h, s, ours, theirs, value, books), ChoiceRow(c))
  {
    var rows := (if books.Rows? then books.edges else Book(h, s.o).children) + History(h, s, ours, theirs, value);
    if books.Rows? && InRows(books.edges, c) {
      var e :| e in books.edges && (e == ChoiceRow(c) || Occurs(e.left, ChoiceRow(c)) || Occurs(e.right, ChoiceRow(c)));
      assert e in rows && e in Content(map[], rows).children;
    }
    OccursInRef(MergedData(if s.b.Some? then s.b.value.data else map[], s.o.data, s.t.data), value, rows, ChoiceRow(c));
  }

  // ---------------------------------------------------------------------------
  // Nothing else is in the result

  /** A row holding a conflict nobody has resolved. */
  predicate IsConflictRow(e: Edge) { IsChoice(e) && Has(e.right.content.data, "conflict") }

  /** Some option of the branches is the one a node without branches is merged with. */
  predicate HasMain(h: Host, c: Cid) { MainOf(h, c, c).Some? }

  /** `ok` says something of rows holding conflicts alone; `whole` makes every branched row have a main branch. */
  ghost predicate Tells(h: Host, ok: Edge -> bool, whole: Edge -> bool) {
    && OfChoices(whole) && (forall e: Edge | !IsConflictRow(e) :: ok(e))
    && forall e: Edge | whole(e) && IsChoice(e) && IsBranchChoice(e.right.content) :: HasMain(h, e.right)
  }

  ghost predicate Given(ok: Edge -> bool, whole: Edge -> bool, base: Option<Cid>, ours: Cid, theirs: Cid) {
    FineCid(ok, base) && All(ok, ours) && All(ok, theirs) && All(whole, ours)
  }

  ghost predicate KeptOk(ok: Edge -> bool, kept: set<Cid>) { forall c | c in kept :: ok(ChoiceRow(c)) }

  ghost predicate FineMap(ok: Edge -> bool, m: map<Key, Edge>) { forall key | key in m :: Fine(ok, m[key]) }

  ghost predicate WholeOptions(whole: Edge -> bool, os: seq<ChoiceOption>) {
    forall o | o in os :: WholeOption(whole, o)
  }

  ghost predicate WholeOption(whole: Edge -> bool, o: ChoiceOption) {
    (o.edge.Some? ==> All(whole, o.edge.value.right)) && FineCid(whole, o.requestMerge)
  }

  lemma BranchesAreNoConflict(h: Host, base: Option<Cid>, ours: Cid, theirs: Cid, labels: Labels, bound: nat)
    requires ChoiceTop(h, ours) + ChoiceTop(h, theirs) < bound
            && MergeBranches(h, base, ours, theirs, labels, bound).outcome.Merged?
    ensures !Has(MergeBranches(h, base, ours, theirs, labels, bound).outcome.cid.content.data, "conflict")
  {}

  lemma LiftedIsNoConflict(h: Host, base: Option<Cid>, ours: Cid, theirs: Cid, labels: Labels)
    requires OneBranched(h, ours, theirs) && MergeLifted(h, base, ours, theirs, labels).outcome.Merged?
    ensures !Has(MergeLifted(h, base, ours, theirs, labels).outcome.cid.content.data, "conflict")
  {
    LiftedBelow(h, ours, theirs);
    NoConflictLifted(h, ours, theirs, ours);
    NoConflictLifted(h, ours, theirs, theirs);
    AgainIsNoConflict(h, LiftedBase(h, base, ours, theirs), Lifted(h, ours, theirs, ours),
        Lifted(h, ours, theirs, theirs), labels, Size(ours, theirs));
  }

  lemma NoConflictLifted(h: Host, ours: Cid, theirs: Cid, c: Cid)
    requires OneBranched(h, ours, theirs)
    ensures !Has(Lifted(h, ours, theirs, c).content.data, "conflict")
  {}

  lemma AgainIsNoConflict(h: Host, base: Option<Cid>, ours: Cid, theirs: Cid, labels: Labels, bound: nat)
    requires ChoiceTop(h, ours) + ChoiceTop(h, theirs) < bound
            && MergeAgain(h, base, ours, theirs, labels, bound).outcome.Merged?
    requires !Has(ours.content.data, "conflict") && !Has(theirs.content.data, "conflict")
    ensures !Has(MergeAgain(h, base, ours, theirs, labels, bound).outcome.cid.content.data, "conflict")
  {
    AgainIs(h, base, ours, theirs, labels, bound);
    if Unchanged(base, ours, theirs).None? { BranchesAreNoConflict(h, base, ours, theirs, labels, bound); }
  }

  /** A branched row with a main branch merges to branches, or to what the other side holds. */
  lemma BranchedMerged(h: Host, base: Option<Cid>, ours: Cid, theirs: Cid, labels: Labels, isTop: bool, field: bool)
    requires IsBranchChoice(ours.content) && HasMain(h, ours)
            && MergeNode(h, base, ours, theirs, labels, isTop, field).outcome.Merged?
    ensures var cid := MergeNode(h, base, ours, theirs, labels, isTop, field).outcome.cid;
            cid == theirs || !Has(cid.content.data, "conflict")
  {
    if Unchanged(base, ours, theirs).None? {
      if OneBranched(h, ours, theirs) {
        LiftedIsNoConflict(h, base, ours, theirs, labels);
      } else {
        BranchesBelow(h, ours, theirs);
        BranchesAreNoConflict(h, base, ours, theirs, labels, Size(ours, theirs));
      }
    }
  }

  ghost predicate AllMerged(ok: Edge -> bool, r: Outcome) { r.Merged? ==> All(ok, r.cid) }

  ghost predicate AllOf(ok: Edge -> bool, rows: Rows) { rows.Rows? ==> AllRows(ok, rows.edges) }

  lemma AllJoined(ok: Edge -> bool, a: Rows, b: Rows)
    requires AllOf(ok, a) && AllOf(ok, b)
    ensures a.Rows? && b.Rows? ==> AllRows(ok, a.edges + b.edges)
  {}

  lemma {:induction false} NodeExplains(h: Host, ok: Edge -> bool, whole: Edge -> bool, base: Option<Cid>, ours: Cid,
      theirs: Cid, labels: Labels, isTop: bool, field: bool)
    requires Tells(h, ok, whole) && Given(ok, whole, base, ours, theirs)
    requires KeptOk(ok, KeptInNode(h, base, ours, theirs, labels, isTop, field))
    ensures AllMerged(ok, MergeNode(h, base, ours, theirs, labels, isTop, field).outcome)
    decreases Height(ours) + Height(theirs), 4, 0
  {
    if Unchanged(base, ours, theirs).Some? {
    } else if OneBranched(h, ours, theirs) {
      LiftedExplains(h, ok, whole, base, ours, theirs, labels);
    } else if IsBranchChoice(ours.content) && IsBranchChoice(theirs.content) {
      BranchesBelow(h, ours, theirs);
      OursWhole(h, whole, ours);
      BranchesExplain(h, ok, whole, base, ours, theirs, labels, Size(ours, theirs));
    } else if IsMutableRef(ours.content) || IsMutableRef(theirs.content) {
      RefsExplain(h, ok, whole, base, ours, theirs, labels, isTop, field);
    } else {
      PlainExplains(h, ok, whole, base, ours, theirs, labels, isTop);
    }
  }

  lemma OursWhole(h: Host, whole: Edge -> bool, ours: Cid)
    requires All(whole, ours)
    ensures WholeOptions(whole, ReadChoice(h, ours).options)
  {
    FineRead(whole, h, ours);
  }

  lemma LiftedFine(h: Host, ok: Edge -> bool, ours: Cid, theirs: Cid, c: Cid)
    requires OneBranched(h, ours, theirs) && OfChoices(ok) && All(ok, ours) && All(ok, theirs) && All(ok, c)
    ensures All(ok, Lifted(h, ours, theirs, c))
  {
    var branched := if IsBranchChoice(ours.content) then ours else theirs;
    var choice, main := ReadChoice(h, branched), MainOf(h, ours, theirs).value;
    FineRead(ok, h, branched);
    if choice.defaultName.Some? { FoundOption(choice.options, choice.defaultName.value); }
    assert main in choice.options;
    AllBranches(ok, h, choice.id, choice.base, [ChoiceOption(main.peerId, Some(Edge(main.edge.value.left, c)), None,
        None)], OrMain(choice.defaultName));
  }

  /** Lifted, ours still holds in its options only what is below ours. */
  lemma LiftedWhole(h: Host, whole: Edge -> bool, ours: Cid, theirs: Cid)
    requires OneBranched(h, ours, theirs) && All(whole, ours)
    ensures WholeOptions(whole, ReadChoice(h, Lifted(h, ours, theirs, ours)).options)
  {
    if IsBranchChoice(ours.content) {
      OursWhole(h, whole, ours);
    } else {
      LiftOptions(h, ReadChoice(h, theirs), MainOf(h, ours, theirs).value, ours);
    }
  }

  lemma {:induction false} LiftedExplains(h: Host, ok: Edge -> bool, whole: Edge -> bool, base: Option<Cid>, ours: Cid,
      theirs: Cid, labels: Labels)
    requires Tells(h, ok, whole) && Given(ok, whole, base, ours, theirs) && OneBranched(h, ours, theirs)
            && Unchanged(base, ours, theirs).None?
    requires KeptOk(ok, KeptInNode(h, base, ours, theirs, labels, false, false))
    ensures AllMerged(ok, MergeLifted(h, base, ours, theirs, labels).outcome)
    decreases Height(ours) + Height(theirs), 3, 1
  {
    LiftedBelow(h, ours, theirs);
    LiftedFine(h, ok, ours, theirs, ours);
    LiftedFine(h, ok, ours, theirs, theirs);
    if base.Some? { LiftedFine(h, ok, ours, theirs, base.value); }
    LiftedWhole(h, whole, ours, theirs);
    var b, o, t := LiftedBase(h, base, ours, theirs), Lifted(h, ours, theirs, ours), Lifted(h, ours, theirs, theirs);
    LiftedIs(h, base, ours, theirs, labels, b, o, t, Size(ours, theirs));
    AgainExplains(h, ok, whole, b, o, t, labels, Size(ours, theirs));
  }

  lemma {:induction false} AgainExplains(h: Host, ok: Edge -> bool, whole: Edge -> bool, base: Option<Cid>, ours: Cid,
      theirs: Cid, labels: Labels, bound: nat)
    requires ChoiceTop(h, ours) + ChoiceTop(h, theirs) < bound && Tells(h, ok, whole)
    requires FineCid(ok, base) && All(ok, ours) && All(ok, theirs) && WholeOptions(whole, ReadChoice(h, ours).options)
    requires KeptOk(ok, KeptAgain(h, base, ours, theirs, labels, bound))
    ensures AllMerged(ok, MergeAgain(h, base, ours, theirs, labels, bound).outcome)
    decreases bound, 3, 0
  {
    AgainIs(h, base, ours, theirs, labels, bound);
    if Unchanged(base, ours, theirs).None? {
      BranchesExplain(h, ok, whole, base, ours, theirs, labels, bound);
    } else {
      SideFine(ok, base, ours, theirs);
    }
  }

  lemma SideFine(ok: Edge -> bool, base: Option<Cid>, ours: Cid, theirs: Cid)
    requires All(ok, ours) && All(ok, theirs) && Unchanged(base, ours, theirs).Some?
    ensures AllMerged(ok, Merged(Unchanged(base, ours, theirs).value))
  {}

  lemma LiftedIs(h: Host, base: Option<Cid>, ours: Cid, theirs: Cid, labels: Labels, b: Option<Cid>, o: Cid, t: Cid,
      bound: nat)
    requires OneBranched(h, ours, theirs) && Unchanged(base, ours, theirs).None? && bound == Size(ours, theirs)
    requires b == LiftedBase(h, base, ours, theirs) && o == Lifted(h, ours, theirs, ours)
            && t == Lifted(h, ours, theirs, theirs)
    requires ChoiceTop(h, o) + ChoiceTop(h, t) < bound
    ensures MergeLifted(h, base, ours, theirs, labels) == MergeAgain(h, b, o, t, labels, bound)
    ensures KeptInNode(h, base, ours, theirs, labels, false, false) == KeptAgain(h, b, o, t, labels, bound)
  {}

  lemma AgainIs(h: Host, base: Option<Cid>, ours: Cid, theirs: Cid, labels: Labels, bound: nat)
    requires ChoiceTop(h, ours) + ChoiceTop(h, theirs) < bound
    ensures MergeAgain(h, base, ours, theirs, labels, bound)
            == if Unchanged(base, ours, theirs).Some? then NodeResult(Merged(Unchanged(base, ours, theirs).value), [])
                else MergeBranches(h, base, ours, theirs, labels, bound)
    ensures Unchanged(base, ours, theirs).None? ==>
            KeptAgain(h, base, ours, theirs, labels, bound)
            == KeptInBranches(h, base, ours, theirs, labels, bound)
  {}

  lemma {:induction false} PlainExplains(h: Host, ok: Edge -> bool, whole: Edge -> bool, base: Option<Cid>, ours: Cid,
      theirs: Cid, labels: Labels, isTop: bool)
    requires Tells(h, ok, whole) && Given(ok, whole, base, ours, theirs)
    requires KeptOk(ok, KeptInRows(h, BaseContent(base), ours.content, theirs.content, labels))
    ensures AllMerged(ok, MergePlain(h, base, ours, theirs, labels, isTop).outcome)
    decreases Height(ours) + Height(theirs), 3, 0
  {
    AllEmpty(ok);
    RowsExplain(h, ok, whole, BaseContent(base), ours.content, theirs.content, labels);
    var rows := MergeChildren(h, BaseContent(base), ours.content, theirs.content, labels).rows;
    var data := MergeData(BaseContent(base).data, ours.content.data, theirs.content.data, isTop);
    if rows.Rows? && data.Some? { AllNode(ok, data.value, rows.edges); }
  }

  lemma MapFine(h: Host, ok: Edge -> bool, c: Content)
    requires All(ok, Cid(c))
    ensures FineMap(ok, RowsByKey(h, c.children))
  {
    RowsByKeyShape(h, c.children);
  }

  lemma {:induction false} RowsExplain(h: Host, ok: Edge -> bool, whole: Edge -> bool, base: Content, ours: Content,
      theirs: Content, labels: Labels)
    requires Tells(h, ok, whole) && Given(ok, whole, Some(Cid(base)), Cid(ours), Cid(theirs))
    requires KeptOk(ok, KeptInRows(h, base, ours, theirs, labels))
    ensures AllOf(ok, MergeChildren(h, base, ours, theirs, labels).rows)
    decreases Height(Cid(ours)) + Height(Cid(theirs)), 2, 0
  {
    ChildrenBelow(h, ours, theirs);
    MapFine(h, ok, base);
    MapFine(h, ok, ours);
    MapFine(h, ok, theirs);
    MapFine(h, whole, ours);
    KeysExplain(h, ok, whole, AllKeys(h, base, ours, theirs), RowsByKey(h, base.children), RowsByKey(h, ours.children),
        RowsByKey(h, theirs.children),
      labels, Size(Cid(ours), Cid(theirs)));
  }

  lemma {:induction false} KeysExplain(h: Host, ok: Edge -> bool, whole: Edge -> bool, keys: seq<Key>, bm: map<Key,
      Edge>, om: map<Key, Edge>, tm: map<Key, Edge>, labels: Labels, bound: nat)
    requires Tells(h, ok, whole) && Below(om, tm, bound)
    requires FineMap(ok, bm) && FineMap(ok, om) && FineMap(ok, tm) && FineMap(whole, om)
    requires KeptOk(ok, KeptInKeys(h, keys, bm, om, tm, labels, bound))
    ensures AllOf(ok, MergeKeys(h, keys, bm, om, tm, labels, bound).rows)
    decreases bound, 1, |keys|
  {
    if keys != [] {
      var key := keys[0];
      KeyExplains(h, ok, whole, key, At(bm, key), At(om, key), At(tm, key), labels, bound);
      KeysExplain(h, ok, whole, keys[1..], bm, om, tm, labels, bound);
      AllJoined(ok, MergeKey(h, key, At(bm, key), At(om, key), At(tm, key), labels, bound).rows,
          MergeKeys(h, keys[1..], bm, om, tm, labels, bound).rows);
    }
  }

  ghost predicate FineRow(ok: Edge -> bool, e: Option<Edge>) { e.Some? ==> Fine(ok, e.value) }

  /** The row of one key comes from one side, from a merge, or is a choice. */
  lemma {:induction false} KeyExplains(h: Host, ok: Edge -> bool, whole: Edge -> bool, key: Key, b: Option<Edge>,
      o: Option<Edge>, t: Option<Edge>, labels: Labels, bound: nat)
    requires o.Some? && t.Some? ==> Height(o.value.right) + Height(t.value.right) < bound
    requires Tells(h, ok, whole) && FineRow(ok, b) && FineRow(ok, o) && FineRow(ok, t) && FineRow(whole, o)
    requires KeptOk(ok, KeptInKey(h, key, b, o, t, labels, bound))
    ensures AllOf(ok, MergeKey(h, key, b, o, t, labels, bound).rows)
    decreases bound, 0, 1
  {
    if Contested(key, b, o, t) && MergeKey(h, key, b, o, t, labels, bound).rows.Rows? {
      if Descends(o, t) { VersionsTell(h, key, b, o, t, labels, bound); }
      if Descends(o, t) && !VersionsSplit(h, b, o.value, t.value, bound) {
        KeyMerges(h, key, b, o, t, labels, bound);
        KeptMerges(h, key, b, o, t, labels, bound);
        VersionsExplain(h, ok, whole, b, o.value, t.value, labels, bound);
      } else {
        KeyDivides(h, key, b, o, t, labels, bound);
        KeptDivides(h, key, b, o, t, labels, bound);
        ChoiceFine(h, ok, key, b, o, t, labels);
      }
    }
  }

  lemma KeptMerges(h: Host, key: Key, b: Option<Edge>, o: Option<Edge>, t: Option<Edge>, labels: Labels, bound: nat)
    requires o.Some? && t.Some? ==> Height(o.value.right) + Height(t.value.right) < bound
    requires Contested(key, b, o, t) && Descends(o, t) && !VersionsSplit(h, b, o.value, t.value, bound)
    ensures KeptInKey(h, key, b, o, t, labels, bound)
            == KeptInNode(h, BaseOf(b, o.value), o.value.right, t.value.right, labels, false, IsFieldRow(h, o.value))
  {}

  lemma KeptDivides(h: Host, key: Key, b: Option<Edge>, o: Option<Edge>, t: Option<Edge>, labels: Labels, bound: nat)
    requires o.Some? && t.Some? ==> Height(o.value.right) + Height(t.value.right) < bound
    requires Contested(key, b, o, t) && !(Descends(o, t) && !VersionsSplit(h, b, o.value, t.value, bound))
    ensures KeptInKey(h, key, b, o, t, labels, bound) == {ChoiceOver(h, key, b, o, t, labels)}
  {}

  lemma {:induction false} VersionsExplain(h: Host, ok: Edge -> bool, whole: Edge -> bool, b: Option<Edge>, o: Edge,
      t: Edge, labels: Labels, bound: nat)
    requires Height(o.right) + Height(t.right) < bound && Descends(Some(o), Some(t))
            && VersionsMerge(h, b, o, t, labels).Merged?
    requires Tells(h, ok, whole) && FineRow(ok, b) && Fine(ok, o) && Fine(ok, t) && Fine(whole, o)
    requires KeptOk(ok, KeptInNode(h, BaseOf(b, o), o.right, t.right, labels, false, IsFieldRow(h, o)))
    ensures Fine(ok, Edge(o.left, VersionsMerge(h, b, o, t, labels).cid))
    decreases bound, 0, 0
  {
    NodeExplains(h, ok, whole, BaseOf(b, o), o.right, t.right, labels, false, IsFieldRow(h, o));
    MergedRowFine(h, ok, whole, b, o, t, labels);
  }

  lemma MergedRowFine(h: Host, ok: Edge -> bool, whole: Edge -> bool, b: Option<Edge>, o: Edge, t: Edge, labels: Labels)
    requires Tells(h, ok, whole) && Fine(ok, o) && Fine(ok, t) && whole(o) && Descends(Some(o), Some(t))
    requires VersionsMerge(h, b, o, t, labels).Merged? && All(ok, VersionsMerge(h, b, o, t, labels).cid)
    ensures Fine(ok, Edge(o.left, VersionsMerge(h, b, o, t, labels).cid))
  {
    if IsChoice(o) { BranchedMerged(h, BaseOf(b, o), o.right, t.right, labels, false, IsFieldRow(h, o)); }
  }

  lemma ChoiceFine(h: Host, ok: Edge -> bool, key: Key, b: Option<Edge>, o: Option<Edge>, t: Option<Edge>,
      labels: Labels)
    requires OfChoices(ok) && FineRow(ok, b) && FineRow(ok, o) && FineRow(ok, t)
            && ok(ChoiceRow(ChoiceOver(h, key, b, o, t, labels)))
    ensures Fine(ok, ChoiceRow(ChoiceOver(h, key, b, o, t, labels)))
  {
    AllPrim(ok, "choice");
    AllChoice(ok, h, ChoiceId(h, key), if b.Some? && Mergeable(b.value) then b else None, SideOptions(o, t, labels));
  }

  lemma {:induction false} BranchesExplain(h: Host, ok: Edge -> bool, whole: Edge -> bool, base: Option<Cid>, ours: Cid,
      theirs: Cid, labels: Labels, bound: nat)
    requires ChoiceTop(h, ours) + ChoiceTop(h, theirs) < bound && Tells(h, ok, whole)
    requires FineCid(ok, base) && All(ok, ours) && All(ok, theirs) && WholeOptions(whole, ReadChoice(h, ours).options)
    requires KeptOk(ok, KeptInBranches(h, base, ours, theirs, labels, bound))
    ensures AllMerged(ok, MergeBranches(h, base, ours, theirs, labels, bound).outcome)
    decreases bound, 2, 0
  {
    var o, t := ReadChoice(h, ours), ReadChoice(h, theirs);
    var names, bs := NamesOf(o.options + t.options, []), BranchOptions(h, base);
    FineRead(ok, h, ours);
    FineRead(ok, h, theirs);
    if base.Some? { FineRead(ok, h, base.value); }
    OptionsExplain(h, ok, whole, names, bs, o.options, t.options, labels, bound);
    WrittenFine(h, ok, base, ours, theirs, labels, bound);
  }

  /** Branches written from fine options are fine. */
  lemma WrittenFine(h: Host, ok: Edge -> bool, base: Option<Cid>, ours: Cid, theirs: Cid, labels: Labels, bound: nat)
    requires ChoiceTop(h, ours) + ChoiceTop(h, theirs) < bound && OfChoices(ok)
    requires FineEnds(ok, ReadChoice(h, ours).base)
    requires base.Some? ==> FineEnds(ok, ReadChoice(h, base.value).base)
    requires var o, t := ReadChoice(h, ours).options, ReadChoice(h, theirs).options;
             FineOptions(ok, MergeOptions(h, NamesOf(o + t, []), BranchOptions(h, base), o, t, labels, bound).options)
    ensures AllMerged(ok, MergeBranches(h, base, ours, theirs, labels, bound).outcome)
  {
    var o, t := ReadChoice(h, ours), ReadChoice(h, theirs);
    var options := MergeOptions(h, NamesOf(o.options + t.options, []), BranchOptions(h, base), o.options, t.options,
      labels, bound).options;
    var b := if base.Some? && IsBranchChoice(base.value.content) then Some(ReadChoice(h, base.value)) else None;
    AllBranches(ok, h, o.id, if b.Some? && b.value.base.Some? then b.value.base else o.base, options,
      OrMain(if b.Some? && b.value.defaultName.Some? then b.value.defaultName else o.defaultName));
  }

  lemma {:induction false} OptionsExplain(h: Host, ok: Edge -> bool, whole: Edge -> bool, names: seq<string>,
      bs: seq<ChoiceOption>, os: seq<ChoiceOption>, ts: seq<ChoiceOption>, labels: Labels, bound: nat)
    requires Top(os) + Top(ts) < bound && Tells(h, ok, whole)
    requires FineOptions(ok, bs) && FineOptions(ok, os) && FineOptions(ok, ts) && WholeOptions(whole, os)
    requires KeptOk(ok, KeptInOptions(h, names, bs, os, ts, labels, bound))
    ensures FineOptions(ok, MergeOptions(h, names, bs, os, ts, labels, bound).options)
    decreases bound, 1, |names|
  {
    if names != [] {
      var name := names[0];
      FoundOption(bs, name);
      FoundOption(os, name);
      FoundOption(ts, name);
      OptionExplains(h, ok, whole, name, FindOption(bs, name), FindOption(os, name), FindOption(ts, name), labels, os,
          ts, bound);
      OptionsExplain(h, ok, whole, names[1..], bs, os, ts, labels, bound);
    }
  }

  ghost predicate FineSome(ok: Edge -> bool, o: Option<ChoiceOption>) { o.Some? ==> FineOption(ok, o.value) }

  lemma {:induction false} OptionExplains(h: Host, ok: Edge -> bool, whole: Edge -> bool, name: string,
      b: Option<ChoiceOption>, o: Option<ChoiceOption>, t: Option<ChoiceOption>, labels: Labels,
      os: seq<ChoiceOption>, ts: seq<ChoiceOption>, bound: nat)
    requires Top(os) + Top(ts) < bound && o == FindOption(os, name) && t == FindOption(ts, name)
    requires Tells(h, ok, whole)
    requires FineSome(ok, b) && FineSome(ok, o) && FineSome(ok, t) && (o.Some? ==> WholeOption(whole, o.value))
    requires KeptOk(ok, KeptInOption(h, name, b, o, t, labels, os, ts, bound))
    ensures FineOptions(ok, MergeOption(h, name, b, o, t, labels, os, ts, bound).options)
    decreases bound, 0, 1
  {
    var oe, te, be := OptionEdge(o), OptionEdge(t), OptionEdge(b);
    if oe.Some? && te.Some? && oe.value.left == te.value.left {
      TopCovers(os, name);
      TopCovers(ts, name);
      NodeExplains(h, ok, whole, if be.Some? then Some(be.value.right) else None, oe.value.right, te.value.right,
          labels, false, false);
      RequestExplains(h, ok, whole, OptionRequest(b), o.value.requestMerge, t.value.requestMerge, labels, bound);
    }
    OptionFine(h, ok, name, b, o, t, labels, os, ts, bound);
  }

  /** An option merged from fine parts is fine. */
  lemma OptionFine(h: Host, ok: Edge -> bool, name: string, b: Option<ChoiceOption>, o: Option<ChoiceOption>,
      t: Option<ChoiceOption>, labels: Labels, os: seq<ChoiceOption>, ts: seq<ChoiceOption>, bound: nat)
    requires Top(os) + Top(ts) < bound && o == FindOption(os, name) && t == FindOption(ts, name)
    requires FineSome(ok, o) && FineSome(ok, t)
    requires var oe, te, be := OptionEdge(o), OptionEdge(t), OptionEdge(b);
             oe.Some? && te.Some? && oe.value.left == te.value.left ==>
               (TopCovers(os, name);
                TopCovers(ts, name);
                && AllMerged(ok, MergeNode(h, if be.Some? then Some(be.value.right) else None, oe.value.right,
                     te.value.right, labels, false, false).outcome)
                && FineCid(ok, MergeRequest(h, OptionRequest(b), o.value.requestMerge, t.value.requestMerge, labels,
                     bound).request))
    ensures FineOptions(ok, MergeOption(h, name, b, o, t, labels, os, ts, bound).options)
  {
    TopCovers(os, name);
    TopCovers(ts, name);
  }

  lemma {:induction false} RequestExplains(h: Host, ok: Edge -> bool, whole: Edge -> bool, b: Option<Cid>,
      o: Option<Cid>, t: Option<Cid>, labels: Labels, bound: nat)
    requires o.Some? && t.Some? ==> Height(o.value) + Height(t.value) < bound
    requires Tells(h, ok, whole)
    requires FineCid(ok, b) && FineCid(ok, o) && FineCid(ok, t) && FineCid(whole, o)
    requires KeptOk(ok, KeptInRequest(h, b, o, t, labels, bound))
    ensures FineCid(ok, MergeRequest(h, b, o, t, labels, bound).request)
    decreases bound, 0, 0
  {
    if o != b && t != b && o != t && o.Some? && t.Some? {
      NodeExplains(h, ok, whole, b, o.value, t.value, labels, false, false);
    }
  }

  // ---------------------------------------------------------------------------
  // The values and the bookkeeping of refs

  lemma FineAdded(ok: Edge -> bool, h: Host, options: seq<ChoiceOption>, incoming: Cid, c: Cid, preferred: string)
    requires FineOptions(ok, options) && All(ok, incoming) && All(ok, c)
    ensures FineOptions(ok, AddValue(h, options, incoming, c, preferred))
  {}

  lemma {:induction false} FineAddedAll(ok: Edge -> bool, h: Host, options: seq<ChoiceOption>, incoming: Cid,
      more: seq<ChoiceOption>)
    requires FineOptions(ok, options) && All(ok, incoming) && FineOptions(ok, more)
    ensures FineOptions(ok, AddOptions(h, options, incoming, more))
    decreases |more|
  {
    if more != [] {
      assert more[0] in more;
      if more[0].edge.Some? { FineAdded(ok, h, options, incoming, more[0].edge.value.left, more[0].peerId); }
      FineAddedAll(ok, h, if more[0].edge.Some? then AddValue(h, options, incoming, more[0].edge.value.left,
          more[0].peerId) else options, incoming, more[1..]);
    }
  }

  ghost predicate FineCids(ok: Edge -> bool, cs: seq<Option<Cid>>) { forall c | c in cs :: FineCid(ok, c) }

  lemma {:induction false} FineValues(ok: Edge -> bool, h: Host, options: seq<ChoiceOption>, incoming: Cid, id: string,
      prior: seq<ChoiceOption>, values: seq<Option<Cid>>)
    requires FineOptions(ok, options) && All(ok, incoming) && FineCids(ok, values)
    ensures FineOptions(ok, AddValues(h, options, incoming, id, prior, values))
    decreases |values|
  {
    if values != [] {
      assert FineCid(ok, values[0]);
      var next :=
        if values[0].None? then options
        else if IsValueBranches(h, values[0].value, id)
            then AddOptions(h, options, incoming, ReadChoice(h, values[0].value).options)
        else AddValue(h, options, incoming, values[0].value, NameOfValue(prior, values[0].value));
      if values[0].Some? {
        FineRead(ok, h, values[0].value);
        FineAddedAll(ok, h, options, incoming, ReadChoice(h, values[0].value).options);
        FineAdded(ok, h, options, incoming, values[0].value, NameOfValue(prior, values[0].value));
      }
      FineValues(ok, h, next, incoming, id, prior, values[1..]);
    }
  }

  lemma AllValueBranches(ok: Edge -> bool, h: Host, ref: Content, values: seq<Option<Cid>>, selected: Option<Cid>)
    requires OfChoices(ok) && FineCids(ok, values)
    ensures FineCid(ok, ValueBranches(h, ref, values, selected))
  {
    if AliasId(ref).Some? {
      var id := AliasId(ref).value;
      var incoming := Incoming(ref, id);
      AllRef(ok, incoming.content.data, None, []);
      FineValues(ok, h, [], incoming, id, PriorOptions(h, values, id), values);
      var options := AddValues(h, [], incoming, id, PriorOptions(h, values, id), values);
      var name := if selected.Some? && HoldsValue(options, selected.value) then NameOfValue(options, selected.value)
                  else if options != [] then options[0].peerId else "main";
      assert options != [] ==> options[0] in options;
      AllBranches(ok, h, id, if options != [] then options[0].edge else None, options, name);
    }
  }

  lemma FineSorted(ok: Edge -> bool, h: Host, ov: Option<Cid>, tv: Option<Cid>)
    requires FineCid(ok, ov) && FineCid(ok, tv)
    ensures FineCids(ok, SortedValues(h, ov, tv))
  {
    var both := (if ov.Some? then [ov.value] else []) + (if tv.Some? then [tv.value] else []);
    SortedIn(h, both);
    var sorted := Sort(h, both);
    forall c | c in SortedValues(h, ov, tv) ensures FineCid(ok, c) {
      var i :| 0 <= i < |sorted| && c == Some(sorted[i]);
      assert sorted[i] in both;
    }
  }

  /** What the merge of two refs is made from. */
  ghost predicate FineSides(ok: Edge -> bool, h: Host, s: RefSides) {
    && FineCid(ok, s.bv) && FineCid(ok, s.ov) && FineCid(ok, s.tv)
    && All(ok, Cid(s.o)) && All(ok, Cid(s.t)) && (s.b.Some? ==> All(ok, Cid(s.b.value)))
  }

  lemma SidesFine(ok: Edge -> bool, h: Host, base: Option<Cid>, ours: Cid, theirs: Cid)
    requires OfChoices(ok) && FineCid(ok, base) && All(ok, ours) && All(ok, theirs)
    ensures FineSides(ok, h, Sides(h, base, ours, theirs))
  {
    AllAsRef(ok, h, ours);
    AllAsRef(ok, h, theirs);
    if base.Some? { AllAsRef(ok, h, base.value); }
  }

  lemma TypedFine(ok: Edge -> bool, h: Host, s: RefSides)
    requires OfChoices(ok) && FineSides(ok, h, s)
    ensures FineCid(ok, MergeTyped(h, s).request)
  {
    FineSorted(ok, h, s.ov, s.tv);
    AllValueBranches(ok, h, s.o, [s.bv] + SortedValues(h, s.ov, s.tv), DefaultValue(h, s.bv));
  }

  lemma VersionFine(ok: Edge -> bool, h: Host, c: Cid)
    requires OfChoices(ok) && All(ok, c)
    ensures Fine(ok, PrevEdge(RefCid(h, c)))
  {
    AllAsRef(ok, h, c);
    FinePointer(ok, "previous", RefCid(h, c));
  }

  lemma OldVersionsFine(ok: Edge -> bool, h: Host, s: RefSides)
    requires All(ok, Cid(s.o)) && All(ok, Cid(s.t))
    ensures AllRows(ok, PrevRows(h, s.o) + Filter(h, NotIn(PrevRows(h, s.o)), PrevRows(h, s.t)))
  {
    AllBook(ok, h, s.o);
    AllBook(ok, h, s.t);
    AllFiltered(ok, h, NotIn(PrevRows(h, s.o)), PrevRows(h, s.t));
    AllBoth(ok, PrevRows(h, s.o), Filter(h, NotIn(PrevRows(h, s.o)), PrevRows(h, s.t)));
  }

  lemma HistoryFine(ok: Edge -> bool, h: Host, s: RefSides, ours: Cid, theirs: Cid, value: Option<Cid>)
    requires OfChoices(ok) && FineSides(ok, h, s) && All(ok, ours) && All(ok, theirs)
    ensures AllRows(ok, History(h, s, ours, theirs, value))
  {
    if value != Some(SideValue(h, ours.content)) || value != Some(SideValue(h, theirs.content)) {
      VersionFine(ok, h, ours);
      VersionFine(ok, h, theirs);
    } else {
      OldVersionsFine(ok, h, s);
    }
  }

  lemma MergedRefFine(ok: Edge -> bool, h: Host, s: RefSides, ours: Cid, theirs: Cid, value: Option<Cid>, books: Rows)
    requires OfChoices(ok) && FineSides(ok, h, s) && All(ok, ours) && All(ok, theirs)
    requires FineCid(ok, value) && AllOf(ok, books)
    ensures All(ok, MergedRef(h, s, ours, theirs, value, books))
  {
    HistoryFine(ok, h, s, ours, theirs, value);
    AllBook(ok, h, s.o);
    var rows := if books.Rows? then books.edges else Book(h, s.o).children;
    assert AllRows(ok, Book(h, s.o).children);
    AllBoth(ok, rows, History(h, s, ours, theirs, value));
    AllRef(ok, MergedData(if s.b.Some? then s.b.value.data else map[], s.o.data, s.t.data), value,
        rows + History(h, s, ours, theirs, value));
  }

  lemma {:induction false} ValuesExplain(h: Host, ok: Edge -> bool, whole: Edge -> bool, s: RefSides, ours: Cid,
      theirs: Cid, labels: Labels, isTop: bool)
    requires IsMutableRef(ours.content) || IsMutableRef(theirs.content)
    requires Tells(h, ok, whole) && Given(ok, whole, s.bv, ours, theirs)
    requires ValuesMerge(h, s, ours, theirs, labels).Merged? ==>
               KeptOk(ok, KeptInNode(h, s.bv, SideValue(h, ours.content), SideValue(h, theirs.content), labels, true,
                   false))
    ensures FineCid(ok, MergeValues(h, s, ours, theirs, labels, isTop).request)
    decreases Height(ours) + Height(theirs), 2, 0
  {
    ValuesBelow(h, ours.content, theirs.content);
    AllSideValue(ok, h, ours);
    AllSideValue(ok, h, theirs);
    AllSideValue(whole, h, ours);
    if ValuesMerge(h, s, ours, theirs, labels).Merged? {
      NodeExplains(h, ok, whole, s.bv, SideValue(h, ours.content), SideValue(h, theirs.content), labels, true, false);
    }
  }

  lemma {:induction false} BooksExplain(h: Host, ok: Edge -> bool, whole: Edge -> bool, base: Option<Cid>, ours: Cid,
      theirs: Cid, labels: Labels)
    requires Tells(h, ok, whole) && Given(ok, whole, base, ours, theirs)
    requires var s := Sides(h, base, ours, theirs);
            KeptOk(ok, KeptInRows(h, BookOf(h, s.b), Book(h, s.o), Book(h, s.t), labels))
    ensures AllOf(ok, BooksMerge(h, Sides(h, base, ours, theirs), labels))
    decreases Height(ours) + Height(theirs), 2, 1
  {
    var s := Sides(h, base, ours, theirs);
    BooksBelow(h, ours.content, theirs.content);
    SidesFine(ok, h, base, ours, theirs);
    AllEmpty(ok);
    AllBook(ok, h, s.o);
    AllBook(ok, h, s.t);
    if s.b.Some? { AllBook(ok, h, s.b.value); }
    AllAsRef(whole, h, ours);
    AllBook(whole, h, s.o);
    RowsExplain(h, ok, whole, BookOf(h, s.b), Book(h, s.o), Book(h, s.t), labels);
  }

  lemma {:induction false} RefsExplain(h: Host, ok: Edge -> bool, whole: Edge -> bool, base: Option<Cid>, ours: Cid,
      theirs: Cid, labels: Labels, isTop: bool, field: bool)
    requires IsMutableRef(ours.content) || IsMutableRef(theirs.content)
    requires Tells(h, ok, whole) && Given(ok, whole, base, ours, theirs)
    requires KeptOk(ok, KeptInRefs(h, base, ours, theirs, labels, isTop, field))
    ensures AllMerged(ok, MergeRefs(h, base, ours, theirs, labels, isTop, field).outcome)
    decreases Height(ours) + Height(theirs), 3, 0
  {
    if MergeRefs(h, base, ours, theirs, labels, isTop, field).outcome.Merged? {
      RefsParts(h, base, ours, theirs, labels, isTop, field);
      PartsExplain(h, ok, whole, base, ours, theirs, labels, isTop, field);
      MergedRefFine(ok, h, Sides(h, base, ours, theirs), ours, theirs,
          RefValueMerge(h, Sides(h, base, ours, theirs), ours, theirs, labels, isTop, field).request,
        BooksMerge(h, Sides(h, base, ours, theirs), labels));
    }
  }

  lemma {:induction false} PartsExplain(h: Host, ok: Edge -> bool, whole: Edge -> bool, base: Option<Cid>, ours: Cid,
      theirs: Cid, labels: Labels, isTop: bool, field: bool)
    requires IsMutableRef(ours.content) || IsMutableRef(theirs.content)
    requires Tells(h, ok, whole) && Given(ok, whole, base, ours, theirs)
            && KeptOk(ok, KeptInRefs(h, base, ours, theirs, labels, isTop, field))
    ensures var s := Sides(h, base, ours, theirs);
            && FineSides(ok, h, s) && AllOf(ok, BooksMerge(h, s, labels))
            && FineCid(ok, RefValueMerge(h, s, ours, theirs, labels, isTop, field).request)
    decreases Height(ours) + Height(theirs), 2, 2
  {
    var s := Sides(h, base, ours, theirs);
    SidesFine(ok, h, base, ours, theirs);
    PartsTell(h, s, ours, theirs, labels);
    if IsTyped(s, field) { TypedFine(ok, h, s); } else { ValuesExplain(h, ok, whole, s, ours, theirs, labels, isTop); }
    if BooksMerge(h, s, labels).Rows? { BooksExplain(h, ok, whole, base, ours, theirs, labels); }
  }

  // ---------------------------------------------------------------------------
  // The choices of a result

  /** The row is below one of the nodes the merge started from. */
  ghost predicate HeldBefore(base: Option<Cid>, ours: Cid, theirs: Cid, e: Edge) {
    (base.Some? && Occurs(base.value, e)) || Occurs(ours, e) || Occurs(theirs, e)
  }

  /** Every branched row below the node has a version for its main branch. */
  ghost predicate MainsBelow(h: Host, c: Cid) {
    forall e: Edge | Occurs(c, e) && IsChoice(e) && IsBranchChoice(e.right.content) :: HasMain(h, e.right)
  }

  /** Every conflict in the result that was in none of the three nodes was raised by this merge, in a part it kept. */
  lemma NewConflictIsKept(h: Host, base: Option<Cid>, ours: Cid, theirs: Cid, labels: Labels, e: Edge)
    requires MergeNodes(h, base, ours, theirs, labels).outcome.Merged? && MainsBelow(h, ours)
    requires IsConflictRow(e) && Occurs(MergeNodes(h, base, ours, theirs, labels).outcome.cid, e)
            && !HeldBefore(base, ours, theirs, e)
    ensures e.right in KeptInNode(h, base, ours, theirs, labels, true, false)
  {
    var kept := KeptInNode(h, base, ours, theirs, labels, true, false);
    var ok := (x: Edge) => IsConflictRow(x) && x == e ==> x.right in kept;
    var whole := (x: Edge) => IsChoice(x) && IsBranchChoice(x.right.content) ==> HasMain(h, x.right);
    if base.Some? { OkOccurs(ok, base.value); }
    OkOccurs(ok, ours);
    OkOccurs(ok, theirs);
    OkOccurs(whole, ours);
    NodeExplains(h, ok, whole, base, ours, theirs, labels, true, false);
    OccursOk(ok, MergeNodes(h, base, ours, theirs, labels).outcome.cid, e);
  }

  /**
   * What is kept is reported and stands in the result. A reported choice no side held before stands in the result
   * exactly when it was raised in a part that was kept.
   */
  lemma ReportedStands(h: Host, base: Option<Cid>, ours: Cid, theirs: Cid, labels: Labels, c: Cid)
    requires MergeNodes(h, base, ours, theirs, labels).outcome.Merged?
    ensures var r, kept := MergeNodes(h, base, ours, theirs, labels),
            KeptInNode(h, base, ours, theirs, labels, true, false);
            && (c in kept ==> c in r.raised && Occurs(r.outcome.cid, ChoiceRow(c)))
            && (MainsBelow(h, ours) && Has(c.content.data, "conflict") && !HeldBefore(base, ours, theirs, ChoiceRow(c))
                ==> (Occurs(r.outcome.cid, ChoiceRow(c)) <==> c in kept))
  {
    if c in KeptInNode(h, base, ours, theirs, labels, true, false) {
      NodeKeeps(h, base, ours, theirs, labels, true, false, c);
    }
    var r := MergeNodes(h, base, ours, theirs, labels);
    if MainsBelow(h, ours) && Has(c.content.data, "conflict") && !HeldBefore(base, ours, theirs, ChoiceRow(c))
        && Occurs(r.outcome.cid, ChoiceRow(c)) {
      NewConflictIsKept(h, base, ours, theirs, labels, ChoiceRow(c));
    }
  }

  /** Every conflict new in the result is reported. */
  lemma NewConflictIsReported(h: Host, base: Option<Cid>, ours: Cid, theirs: Cid, labels: Labels, e: Edge)
    requires MergeNodes(h, base, ours, theirs, labels).outcome.Merged? && MainsBelow(h, ours)
    requires IsConflictRow(e) && Occurs(MergeNodes(h, base, ours, theirs, labels).outcome.cid, e)
            && !HeldBefore(base, ours, theirs, e)
    ensures e.right in MergeNodes(h, base, ours, theirs, labels).raised
  {
    NewConflictIsKept(h, base, ours, theirs, labels, e);
    NodeKeeps(h, base, ours, theirs, labels, true, false, e.right);
  }
}
