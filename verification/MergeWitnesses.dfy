/** Inputs at which a merge does not do what its description says. */
module MergeWitnesses {
  import opened Options
  import opened Json
  import opened Text
  import opened Graph
  import opened Merge
  import opened MergeLaws
  import opened Beneath
  import opened Conflicts
  import opened Reported
  import opened ValueLaws
  import opened Sequences
  import Order

  // ---------------------------------------------------------------------------
  // Nodes with few rows

  lemma OneKey(h: Host, e: Edge)
    ensures KeysOf(h, [e]) == [KeyOf(h, e)] && RowsByKey(h, [e]) == map[KeyOf(h, e) := e]
  {
    assert [e][..0] == [];
    assert KeysOf(h, []) == [] && RowsByKey(h, []) == map[];
  }

  lemma TwoKeys(h: Host, e: Edge, f: Edge)
    requires KeyOf(h, e) != KeyOf(h, f)
    ensures KeysOf(h, [e, f]) == [KeyOf(h, e), KeyOf(h, f)]
    ensures RowsByKey(h, [e, f]) == map[KeyOf(h, e) := e, KeyOf(h, f) := f]
  {
    assert [e, f][..1] == [e];
    OneKey(h, e);
  }

  lemma {:induction false} SameSplice<T>(keys: seq<T>, theirs: seq<T>, i: nat)
    requires i <= |theirs| && forall k | k in theirs :: k in keys
    ensures Order.Splice(keys, theirs, i) == keys
    decreases |theirs| - i
  {
    if i < |theirs| { SameSplice(keys, theirs, i + 1); }
  }

  lemma {:induction false} SameAppend<T>(keys: seq<T>, base: seq<T>)
    requires forall k | k in base :: k in keys
    ensures Order.Append(keys, base) == keys
    decreases |base|
  {
    if base != [] { SameAppend(keys, base[1..]); }
  }

  /** Keys ours has already are where ours has them. */
  lemma SameOrder<T>(keys: seq<T>, theirs: seq<T>, base: seq<T>)
    requires (forall k | k in theirs :: k in keys) && (forall k | k in base :: k in keys)
    ensures Order.OrderedKeys(keys, theirs, base) == keys
  {
    SameSplice(keys, theirs, 0);
    SameAppend(keys, base);
  }

  /** A plain node: data and rows, neither a ref nor a choice. */
  predicate IsPlain(c: Cid) { !IsBranchChoice(c.content) && !IsMutableRef(c.content) }

  lemma MergesPlain(h: Host, base: Option<Cid>, ours: Cid, theirs: Cid, labels: Labels, isTop: bool, field: bool)
    requires IsPlain(ours) && IsPlain(theirs) && Unchanged(base, ours, theirs).None?
    ensures MergeNode(h, base, ours, theirs, labels, isTop, field) == MergePlain(h, base, ours, theirs, labels, isTop)
  {}

  // ---------------------------------------------------------------------------
  // A field that is lost

  function Counted(n: real): Cid { Cid(Content(map["count" := Num(n)], [])) }

  /** Both sides changed a field of the top node, and ours' change is nowhere in the result. */
  lemma FieldIsLost(h: Host, labels: Labels)
    ensures var r := MergeNodes(h, Some(Counted(0.0)), Counted(1.0), Counted(2.0), labels);
            r.outcome == Merged(Counted(2.0)) && r.raised == []
  {
    var b, o, t := Counted(0.0), Counted(1.0), Counted(2.0);
    assert b.content.data["count"] != o.content.data["count"] && o.content.data["count"] != t.content.data["count"];
    MergesPlain(h, Some(b), o, t, labels, true, false);
    var merged := MergedData(b.content.data, o.content.data, t.content.data);
    assert merged == t.content.data;
    SameOrder<Key>([], [], []);
  }

  // ---------------------------------------------------------------------------
  // A row that is lost

  function Named(id: string, n: real): Cid { Cid(Content(map["alias" := AliasData(id), "count" := Num(n)], [])) }

  function Left(n: real): Cid { Cid(Content(map["left" := Num(n)], [])) }

  const FIRST := Edge(Left(1.0), Named("row", 1.0))
  const SECOND := Edge(Left(1.0), Named("row", 2.0))

  function Twins(data: Data): Cid { Cid(Content(data, [FIRST, SECOND])) }

  lemma LeftKey(h: Host, n: real, right: Cid)
    ensures KeyOf(h, Edge(Left(n), right)) == match AliasId(right.content) case Some(id) => if id == ""
            then Exact(Edge(Left(n), right)) else Alias(id) case None => Exact(Edge(Left(n), right))
    ensures !IsChoice(Edge(Left(n), right)) && Mergeable(Edge(Left(n), right))
  {
    assert "left" in Left(n).content.data;
    NoPrim(n, "proposal");
    NoPrim(n, "choice");
  }

  lemma NoPrim(n: real, name: string)
    ensures Left(n) != Prim(name)
  {
    assert "left" in Left(n).content.data && "left" !in Prim(name).content.data;
  }

  /** A node whose rows' lefts are all of these is plain. */
  lemma PlainRows(c: Cid)
    requires forall e | e in c.content.children :: exists n :: e.left == Left(n)
    ensures IsPlain(c)
  {
    forall e | e in c.content.children ensures e.left != Prim("target") && e.left != Prim("alias")
        && e.left != Prim("notSelected") {
      var n :| e.left == Left(n);
      NoPrim(n, "target");
      NoPrim(n, "alias");
      NoPrim(n, "notSelected");
    }
  }

  /** What one key contributes is all there is when there is no other. */
  lemma OnlyKey(h: Host, key: Key, bm: map<Key, Edge>, om: map<Key, Edge>, tm: map<Key, Edge>, labels: Labels,
      bound: nat)
    requires Below(om, tm, bound)
    ensures MergeKeys(h, [key], bm, om, tm, labels, bound)
            == MergeKey(h, key, At(bm, key), At(om, key), At(tm, key), labels, bound)
  {
    assert [key][1..] == [];
    assert MergeKeys(h, [], bm, om, tm, labels, bound) == RowsResult(Rows([]), []);
    var first := MergeKey(h, key, At(bm, key), At(om, key), At(tm, key), labels, bound);
    if first.rows.Rows? { Whole(first.rows.edges); }
    Whole(first.raised);
  }

  /** A row both sides changed, whose versions merge. */
  lemma VersionsOfKey(h: Host, key: Key, b: Option<Edge>, o: Edge, t: Edge, labels: Labels, bound: nat, c: Cid)
    requires key.Alias? && BothChanged(b, Some(o), Some(t)) && Descends(Some(o), Some(t))
            && Height(o.right) + Height(t.right) < bound
    requires MergeNode(h, BaseOf(b, o), o.right, t.right, labels, false, IsFieldRow(h, o)) == NodeResult(Merged(c), [])
    ensures MergeKey(h, key, b, Some(o), Some(t), labels, bound) == RowsResult(Rows([Edge(o.left, c)]), [])
  {}

  /** A row both sides changed, whose versions do not merge, becomes a choice when it is no field. */
  lemma ChoiceOfKey(h: Host, key: Key, b: Option<Edge>, o: Edge, t: Edge, labels: Labels, bound: nat, raised: seq<Cid>)
    requires key.Alias? && BothChanged(b, Some(o), Some(t)) && Descends(Some(o), Some(t))
            && Height(o.right) + Height(t.right) < bound
    requires !IsFieldRow(h, o) && !IsFieldRow(h, t)
    requires MergeNode(h, BaseOf(b, o), o.right, t.right, labels, false, false) == NodeResult(Conflict, raised)
    ensures var choice := ChoiceOver(h, key, b, Some(o), Some(t), labels);
            && MergeKey(h, key, b, Some(o), Some(t), labels, bound)
                == RowsResult(Rows([ChoiceRow(choice)]), raised + [choice])
            && KeptInKey(h, key, b, Some(o), Some(t), labels, bound) == {choice}
  {
    NodeConflicts(h, BaseOf(b, o), o.right, t.right, labels, false, IsFieldRow(h, o));
  }

  lemma TwinKeys(h: Host)
    ensures KeysOf(h, [FIRST, SECOND]) == [Alias("row")] && RowsByKey(h, [FIRST, SECOND]) == map[Alias("row") := SECOND]
  {
    LeftKey(h, 1.0, Named("row", 1.0));
    LeftKey(h, 1.0, Named("row", 2.0));
    assert [FIRST, SECOND][..1] == [FIRST];
    OneKey(h, FIRST);
  }

  lemma TwinsPlain(data: Data)
    ensures IsPlain(Twins(data))
  {
    assert FIRST.left == Left(1.0) && SECOND.left == Left(1.0);
    PlainRows(Twins(data));
  }

  lemma TwinRows(h: Host, base: Content, ours: Content, theirs: Content, labels: Labels)
    requires base.children == ours.children == theirs.children == [FIRST, SECOND]
    ensures MergeChildren(h, base, ours, theirs, labels) == RowsResult(Rows([SECOND]), [])
  {
    TwinKeys(h);
    SameOrder([Alias("row")], [Alias("row")], [Alias("row")]);
    ChildrenBelow(h, ours, theirs);
    var m := map[Alias("row") := SECOND];
    OnlyKey(h, Alias("row"), m, m, m, labels, Size(Cid(ours), Cid(theirs)));
  }

  /** Two rows share an identity; neither side touched them, and the first is nowhere in the result. */
  lemma RowIsLost(h: Host, labels: Labels)
    ensures var r := MergeNodes(h, Some(Twins(map["count" := Num(0.0)])), Twins(map["count" := Num(1.0)]),
            Twins(map["count" := Num(2.0)]), labels);
            r.outcome.Merged? && FIRST !in r.outcome.cid.content.children && r.raised == []
  {
    var b, o, t := Twins(map["count" := Num(0.0)]), Twins(map["count" := Num(1.0)]), Twins(map["count" := Num(2.0)]);
    assert b.content.data["count"] != o.content.data["count"] && o.content.data["count"] != t.content.data["count"]
        && b.content.data["count"] != t.content.data["count"];
    TwinsPlain(o.content.data);
    TwinsPlain(t.content.data);
    MergesPlain(h, Some(b), o, t, labels, true, false);
    TwinRows(h, b.content, o.content, t.content, labels);
    assert FIRST.right.content.data["count"] != SECOND.right.content.data["count"];
  }

  // ---------------------------------------------------------------------------
  // A reported choice that is not in the result

  /** Texts of cids have more than one character. */
  ghost predicate LongTexts(h: Host) { forall c :: |h.text(c)| > 1 }

  /** A row, an own field, and the node that has both. */
  function RowOf(n: real): Edge { Edge(Left(1.0), Named("r", n)) }
  function FieldOf(h: Host, n: real): Edge { Edge(Left(2.0), Named(FieldId(h, Left(2.0)), n)) }
  function Inner(h: Host, n: real): Cid { Cid(Content(map["alias" := AliasData("n")], [RowOf(n), FieldOf(h, n)])) }
  function InnerRow(h: Host, n: real): Edge { Edge(Left(1.0), Inner(h, n)) }
  function Outer(h: Host, n: real): Cid { Cid(Content(map[], [InnerRow(h, n)])) }

  lemma NamedConflict(h: Host, id: string, labels: Labels, field: bool)
    ensures MergeNode(h, Some(Named(id, 0.0)), Named(id, 1.0), Named(id, 2.0), labels, false, field)
            == NodeResult(Conflict, [])
  {
    var b, o, t := Named(id, 0.0), Named(id, 1.0), Named(id, 2.0);
    assert Get(b.content.data, "count") == Some(Num(0.0)) && Get(o.content.data, "count") == Some(Num(1.0))
        && Get(t.content.data, "count") == Some(Num(2.0));
    assert FieldConflict(b.content.data, o.content.data, t.content.data, "count");
    assert "count" in b.content.data.Keys + o.content.data.Keys + t.content.data.Keys;
    MergesPlain(h, Some(b), o, t, labels, false, field);
  }

  /** The choice raised over the row. */
  function RowChoice(h: Host, labels: Labels): Cid {
    ChoiceOver(h, Alias("r"), Some(RowOf(0.0)), Some(RowOf(1.0)), Some(RowOf(2.0)), labels)
  }

  lemma RowIsNoField(h: Host, n: real)
    requires LongTexts(h)
    ensures !IsFieldRow(h, RowOf(n)) && Mergeable(RowOf(n)) && !IsChoice(RowOf(n))
  {
    LeftKey(h, 1.0, Named("r", n));
    assert |FieldId(h, Left(1.0))| > 1 && |"r"| == 1;
  }

  lemma CountsApart(left: Cid, id: string, m: real, n: real)
    requires m != n
    ensures Edge(left, Named(id, m)) != Edge(left, Named(id, n))
  {
    assert Named(id, m).content.data["count"] != Named(id, n).content.data["count"];
  }

  lemma RowDivides(h: Host, labels: Labels, bound: nat)
    requires LongTexts(h) && Height(RowOf(1.0).right) + Height(RowOf(2.0).right) < bound
    ensures MergeKey(h, Alias("r"), Some(RowOf(0.0)), Some(RowOf(1.0)), Some(RowOf(2.0)), labels, bound)
            == RowsResult(Rows([ChoiceRow(RowChoice(h, labels))]), [RowChoice(h, labels)])
  {
    var b, o, t := RowOf(0.0), RowOf(1.0), RowOf(2.0);
    CountsApart(Left(1.0), "r", 0.0, 1.0);
    CountsApart(Left(1.0), "r", 0.0, 2.0);
    CountsApart(Left(1.0), "r", 1.0, 2.0);
    NamedConflict(h, "r", labels, false);
    RowIsNoField(h, 0.0);
    RowIsNoField(h, 1.0);
    RowIsNoField(h, 2.0);
    ChoiceOfKey(h, Alias("r"), Some(b), o, t, labels, bound, []);
    Whole([RowChoice(h, labels)]);
  }

  lemma FieldDivides(h: Host, labels: Labels, bound: nat)
    requires Height(FieldOf(h, 1.0).right) + Height(FieldOf(h, 2.0).right) < bound
    ensures MergeKey(h, Alias(FieldId(h, Left(2.0))), Some(FieldOf(h, 0.0)), Some(FieldOf(h, 1.0)),
            Some(FieldOf(h, 2.0)), labels, bound)
            == RowsResult(RowsConflict, [])
  {
    var b, o, t := FieldOf(h, 0.0), FieldOf(h, 1.0), FieldOf(h, 2.0);
    CountsApart(Left(2.0), FieldId(h, Left(2.0)), 0.0, 1.0);
    CountsApart(Left(2.0), FieldId(h, Left(2.0)), 0.0, 2.0);
    CountsApart(Left(2.0), FieldId(h, Left(2.0)), 1.0, 2.0);
    NamedConflict(h, FieldId(h, Left(2.0)), labels, IsFieldRow(h, o));
    LeftKey(h, 2.0, o.right);
    LeftKey(h, 2.0, b.right);
    assert IsFieldRow(h, o) && Descends(Some(o), Some(t)) && BaseOf(Some(b), o) == Some(b.right);
  }

  lemma InnerKeys(h: Host, n: real)
    requires LongTexts(h)
    ensures KeysOf(h, [RowOf(n), FieldOf(h, n)]) == [Alias("r"), Alias(FieldId(h, Left(2.0)))]
    ensures RowsByKey(h, [RowOf(n), FieldOf(h, n)]) == InnerMap(h, n)
  {
    LeftKey(h, 1.0, Named("r", n));
    LeftKey(h, 2.0, Named(FieldId(h, Left(2.0)), n));
    assert |FieldId(h, Left(2.0))| > 1 && |"r"| == 1;
    TwoKeys(h, RowOf(n), FieldOf(h, n));
  }

  /** The two keys one after the other: the row is made a choice, then the field gives the rows up. */
  lemma InnerKeysMerge(h: Host, labels: Labels, bm: map<Key, Edge>, om: map<Key, Edge>, tm: map<Key, Edge>, bound: nat)
    requires LongTexts(h) && Below(om, tm, bound)
    requires bm == InnerMap(h, 0.0) && om == InnerMap(h, 1.0) && tm == InnerMap(h, 2.0)
    ensures MergeKeys(h, [Alias("r"), Alias(FieldId(h, Left(2.0)))], bm, om, tm, labels, bound)
            == RowsResult(RowsConflict, [RowChoice(h, labels)])
  {
    var r, f := Alias("r"), Alias(FieldId(h, Left(2.0)));
    InnerAt(h, 0.0);
    InnerAt(h, 1.0);
    InnerAt(h, 2.0);
    assert Height(om[r].right) + Height(tm[r].right) < bound && Height(om[f].right) + Height(tm[f].right) < bound;
    RowDivides(h, labels, bound);
    FieldDivides(h, labels, bound);
    TwoKeysMerge(h, r, f, bm, om, tm, labels, bound, ChoiceRow(RowChoice(h, labels)), RowChoice(h, labels));
  }

  lemma InnerAt(h: Host, n: real)
    requires LongTexts(h)
    ensures At(InnerMap(h, n), Alias("r")) == Some(RowOf(n))
            && At(InnerMap(h, n), Alias(FieldId(h, Left(2.0)))) == Some(FieldOf(h, n))
  {
    assert |FieldId(h, Left(2.0))| > 1 && |"r"| == 1;
  }

  /** A key that becomes a choice, then one that gives the rows up. */
  lemma TwoKeysMerge(h: Host, k: Key, f: Key, bm: map<Key, Edge>, om: map<Key, Edge>, tm: map<Key, Edge>,
      labels: Labels, bound: nat, row: Edge, c: Cid)
    requires Below(om, tm, bound)
    requires MergeKey(h, k, At(bm, k), At(om, k), At(tm, k), labels, bound) == RowsResult(Rows([row]), [c])
    requires MergeKey(h, f, At(bm, f), At(om, f), At(tm, f), labels, bound) == RowsResult(RowsConflict, [])
    ensures MergeKeys(h, [k, f], bm, om, tm, labels, bound) == RowsResult(RowsConflict, [c])
  {
    assert [k, f][1..] == [f];
    OnlyKey(h, f, bm, om, tm, labels, bound);
    Whole([c]);
  }

  function InnerMap(h: Host, n: real): map<Key, Edge> {
    map[Alias("r") := RowOf(n), Alias(FieldId(h, Left(2.0))) := FieldOf(h, n)]
  }

  lemma InnerRows(h: Host, labels: Labels)
    requires LongTexts(h)
    ensures MergeChildren(h, Inner(h, 0.0).content, Inner(h, 1.0).content, Inner(h, 2.0).content, labels)
            == RowsResult(RowsConflict, [RowChoice(h, labels)])
  {
    var b, o, t := Inner(h, 0.0).content, Inner(h, 1.0).content, Inner(h, 2.0).content;
    InnerKeys(h, 0.0);
    InnerKeys(h, 1.0);
    InnerKeys(h, 2.0);
    var keys := [Alias("r"), Alias(FieldId(h, Left(2.0)))];
    SameOrder(keys, keys, keys);
    ChildrenBelow(h, o, t);
    InnerKeysMerge(h, labels, RowsByKey(h, b.children), RowsByKey(h, o.children), RowsByKey(h, t.children),
        Size(Cid(o), Cid(t)));
  }

  lemma InnerAllPlain(h: Host)
    ensures IsPlain(Inner(h, 1.0)) && IsPlain(Inner(h, 2.0))
            && Unchanged(Some(Inner(h, 0.0)), Inner(h, 1.0), Inner(h, 2.0)).None?
  {
    InnerApart(h);
    InnerIsPlain(h, 1.0);
    InnerIsPlain(h, 2.0);
  }

  lemma InnerConflict(h: Host, labels: Labels)
    requires LongTexts(h)
    ensures MergeNode(h, Some(Inner(h, 0.0)), Inner(h, 1.0), Inner(h, 2.0), labels, false, false)
            == NodeResult(Conflict, [RowChoice(h, labels)])
  {
    var b, o, t := Inner(h, 0.0), Inner(h, 1.0), Inner(h, 2.0);
    InnerAllPlain(h);
    InnerRows(h, labels);
    MergesPlain(h, Some(b), o, t, labels, false, false);
    PlainGivesUp(h, b, o, t, labels);
  }

  lemma PlainGivesUp(h: Host, base: Cid, ours: Cid, theirs: Cid, labels: Labels)
    requires base.content.data == ours.content.data == theirs.content.data
    requires MergeChildren(h, base.content, ours.content, theirs.content, labels).rows.RowsConflict?
    ensures MergePlain(h, Some(base), ours, theirs, labels, false)
            == NodeResult(Conflict, MergeChildren(h, base.content, ours.content, theirs.content, labels).raised)
  {}

  lemma InnerApart(h: Host)
    ensures Inner(h, 0.0) != Inner(h, 1.0) && Inner(h, 0.0) != Inner(h, 2.0) && Inner(h, 1.0) != Inner(h, 2.0)
  {
    var b, o, t := Inner(h, 0.0).content.children[0], Inner(h, 1.0).content.children[0],
        Inner(h, 2.0).content.children[0];
    assert b.right.content.data["count"] == Num(0.0) && o.right.content.data["count"] == Num(1.0)
        && t.right.content.data["count"] == Num(2.0);
  }

  lemma InnerIsPlain(h: Host, n: real)
    ensures IsPlain(Inner(h, n)) && IsPlain(Outer(h, n))
  {
    forall e | e in Inner(h, n).content.children ensures e.left == Left(1.0) || e.left == Left(2.0) {
      assert e == RowOf(n) || e == FieldOf(h, n);
    }
    PlainRows(Inner(h, n));
    assert InnerRow(h, n).left == Left(1.0);
    PlainRows(Outer(h, n));
  }

  // The outer node: its one row cannot be merged, and becomes a choice over whole versions.

  /** The choice raised over the inner node, and left in the result. */
  function InnerChoice(h: Host, labels: Labels): Cid {
    ChoiceOver(h, Alias("n"), Some(InnerRow(h, 0.0)), Some(InnerRow(h, 1.0)), Some(InnerRow(h, 2.0)), labels)
  }

  lemma InnerRowIs(h: Host, n: real)
    requires LongTexts(h)
    ensures !IsFieldRow(h, InnerRow(h, n)) && Mergeable(InnerRow(h, n)) && KeyOf(h, InnerRow(h, n)) == Alias("n")
  {
    LeftKey(h, 1.0, Inner(h, n));
    assert |FieldId(h, Left(1.0))| > 1 && |"n"| == 1;
  }

  lemma InnerDivides(h: Host, labels: Labels, bound: nat)
    requires LongTexts(h) && Height(Inner(h, 1.0)) + Height(Inner(h, 2.0)) < bound
    ensures MergeKey(h, Alias("n"), Some(InnerRow(h, 0.0)), Some(InnerRow(h, 1.0)), Some(InnerRow(h, 2.0)), labels,
            bound)
            == RowsResult(Rows([ChoiceRow(InnerChoice(h, labels))]), [RowChoice(h, labels), InnerChoice(h, labels)])
    ensures KeptInKey(h, Alias("n"), Some(InnerRow(h, 0.0)), Some(InnerRow(h, 1.0)), Some(InnerRow(h, 2.0)), labels,
            bound) == {InnerChoice(h, labels)}
  {
    InnerApart(h);
    InnerRowIs(h, 0.0);
    InnerRowIs(h, 1.0);
    InnerRowIs(h, 2.0);
    InnerConflict(h, labels);
    ChoiceOfKey(h, Alias("n"), Some(InnerRow(h, 0.0)), InnerRow(h, 1.0), InnerRow(h, 2.0), labels, bound,
        [RowChoice(h, labels)]);
    assert [RowChoice(h, labels)] + [InnerChoice(h, labels)] == [RowChoice(h, labels), InnerChoice(h, labels)];
  }

  lemma OuterRows(h: Host, labels: Labels)
    requires LongTexts(h)
    ensures var b, o, t := Outer(h, 0.0).content, Outer(h, 1.0).content, Outer(h, 2.0).content;
            && MergeChildren(h, b, o, t, labels) == RowsResult(Rows([ChoiceRow(InnerChoice(h, labels))]),
                [RowChoice(h, labels), InnerChoice(h, labels)])
            && KeptInRows(h, b, o, t, labels) == {InnerChoice(h, labels)}
  {
    var b, o, t, key := Outer(h, 0.0).content, Outer(h, 1.0).content, Outer(h, 2.0).content, Alias("n");
    InnerRowIs(h, 0.0);
    InnerRowIs(h, 1.0);
    InnerRowIs(h, 2.0);
    OneKey(h, InnerRow(h, 0.0));
    OneKey(h, InnerRow(h, 1.0));
    OneKey(h, InnerRow(h, 2.0));
    SameOrder([key], [key], [key]);
    ChildrenBelow(h, o, t);
    OuterKeys(h, labels, RowsByKey(h, b.children), RowsByKey(h, o.children), RowsByKey(h, t.children),
        Size(Cid(o), Cid(t)));
  }

  lemma OuterKeys(h: Host, labels: Labels, bm: map<Key, Edge>, om: map<Key, Edge>, tm: map<Key, Edge>, bound: nat)
    requires LongTexts(h) && Below(om, tm, bound)
    requires bm == map[Alias("n") := InnerRow(h, 0.0)] && om == map[Alias("n") := InnerRow(h, 1.0)]
            && tm == map[Alias("n") := InnerRow(h, 2.0)]
    ensures MergeKeys(h, [Alias("n")], bm, om, tm, labels, bound)
            == RowsResult(Rows([ChoiceRow(InnerChoice(h, labels))]), [RowChoice(h, labels), InnerChoice(h, labels)])
    ensures KeptInKeys(h, [Alias("n")], bm, om, tm, labels, bound) == {InnerChoice(h, labels)}
  {
    var key := Alias("n");
    assert om[key] == InnerRow(h, 1.0) && tm[key] == InnerRow(h, 2.0) && bm[key] == InnerRow(h, 0.0);
    InnerDivides(h, labels, bound);
    OnlyKey(h, key, bm, om, tm, labels, bound);
    OnlyKeyKept(h, key, bm, om, tm, labels, bound);
  }

  lemma OnlyKeyKept(h: Host, key: Key, bm: map<Key, Edge>, om: map<Key, Edge>, tm: map<Key, Edge>, labels: Labels,
      bound: nat)
    requires Below(om, tm, bound)
    ensures KeptInKeys(h, [key], bm, om, tm, labels, bound)
            == KeptInKey(h, key, At(bm, key), At(om, key), At(tm, key), labels, bound)
  {
    assert [key][1..] == [] && KeptInKeys(h, [], bm, om, tm, labels, bound) == {};
  }

  lemma OuterMerges(h: Host, labels: Labels)
    requires LongTexts(h)
    ensures var b, o, t := Some(Outer(h, 0.0)), Outer(h, 1.0), Outer(h, 2.0);
            && MergeNodes(h, b, o, t, labels)
               == NodeResult(Merged(Cid(Content(map[], [ChoiceRow(InnerChoice(h, labels))]))),
                   [RowChoice(h, labels), InnerChoice(h, labels)])
            && KeptInNode(h, b, o, t, labels, true, false) == {InnerChoice(h, labels)}
  {
    OuterAllPlain(h);
    OuterRows(h, labels);
    PlainTop(h, Outer(h, 0.0), Outer(h, 1.0), Outer(h, 2.0), labels, [ChoiceRow(InnerChoice(h, labels))],
        [RowChoice(h, labels), InnerChoice(h, labels)]);
  }

  lemma OuterAllPlain(h: Host)
    ensures IsPlain(Outer(h, 1.0)) && IsPlain(Outer(h, 2.0))
            && Unchanged(Some(Outer(h, 0.0)), Outer(h, 1.0), Outer(h, 2.0)).None?
  {
    InnerApart(h);
    var b, o, t := Outer(h, 0.0), Outer(h, 1.0), Outer(h, 2.0);
    assert b.content.children[0] != o.content.children[0] && b.content.children[0] != t.content.children[0]
        && o.content.children[0] != t.content.children[0];
    InnerIsPlain(h, 1.0);
    InnerIsPlain(h, 2.0);
  }

  /** Top nodes without data are their rows. */
  lemma PlainTop(h: Host, b: Cid, o: Cid, t: Cid, labels: Labels, edges: seq<Edge>, raised: seq<Cid>)
    requires IsPlain(o) && IsPlain(t) && Unchanged(Some(b), o, t).None?
            && b.content.data == o.content.data == t.content.data == map[]
    requires MergeChildren(h, b.content, o.content, t.content, labels) == RowsResult(Rows(edges), raised)
    ensures MergeNodes(h, Some(b), o, t, labels) == NodeResult(Merged(Cid(Content(map[], edges))), raised)
    ensures KeptInNode(h, Some(b), o, t, labels, true, false) == KeptInRows(h, b.content, o.content, t.content, labels)
  {
    MergesPlain(h, Some(b), o, t, labels, true, false);
    assert MergedData(map[], map[], map[]) == map[];
  }

  /** No node here has a row that is a choice. */
  lemma NoChoices(h: Host, n: real, e: Edge)
    requires IsChoice(e)
    ensures !Occurs(Outer(h, n), e)
  {
    NoPrim(1.0, "choice");
    NoPrim(2.0, "choice");
    var ok := (x: Edge) => !IsChoice(x);
    assert All(ok, Left(1.0)) && All(ok, Left(2.0)) && All(ok, Named("r", n))
        && All(ok, Named(FieldId(h, Left(2.0)), n));
    assert AllRows(ok, [RowOf(n), FieldOf(h, n)]);
    AllNode(ok, map["alias" := AliasData("n")], [RowOf(n), FieldOf(h, n)]);
    AllNode(ok, map[], [InnerRow(h, n)]);
    if Occurs(Outer(h, n), e) { OccursOk(ok, Outer(h, n), e); }
  }

  /**
   * A reported choice that is nowhere in the result: a row of the inner node becomes a choice, then a field of it
   * conflicts and the whole inner node becomes one, over its versions as they were.
   */
  lemma ReportedIsGone(h: Host, labels: Labels)
    requires LongTexts(h)
    ensures var r := MergeNodes(h, Some(Outer(h, 0.0)), Outer(h, 1.0), Outer(h, 2.0), labels);
            && r.outcome.Merged? && RowChoice(h, labels) in r.raised
            && !Occurs(r.outcome.cid, ChoiceRow(RowChoice(h, labels)))
  {
    OuterMerges(h, labels);
    ChoicesApart(h, labels);
    OuterHasNone(h, ChoiceRow(RowChoice(h, labels)));
    ReportedStands(h, Some(Outer(h, 0.0)), Outer(h, 1.0), Outer(h, 2.0), labels, RowChoice(h, labels));
  }

  lemma ChoicesApart(h: Host, labels: Labels)
    ensures RowChoice(h, labels) != InnerChoice(h, labels) && Has(RowChoice(h, labels).content.data, "conflict")
  {
    ChoiceReads(h, Alias("r"), Some(RowOf(0.0)), Some(RowOf(1.0)), Some(RowOf(2.0)), labels);
    ChoiceReads(h, Alias("n"), Some(InnerRow(h, 0.0)), Some(InnerRow(h, 1.0)), Some(InnerRow(h, 2.0)), labels);
  }

  lemma OuterHasNone(h: Host, row: Edge)
    requires IsChoice(row)
    ensures !HeldBefore(Some(Outer(h, 0.0)), Outer(h, 1.0), Outer(h, 2.0), row) && MainsBelow(h, Outer(h, 1.0))
  {
    NoChoices(h, 0.0, row);
    NoChoices(h, 1.0, row);
    NoChoices(h, 2.0, row);
    forall e: Edge ensures !(Occurs(Outer(h, 1.0), e) && IsChoice(e)) { if IsChoice(e) { NoChoices(h, 1.0, e); } }
  }

  // ---------------------------------------------------------------------------
  // A conflict mark that is not reported

  /** Branches whose one option is a deletion, a conflict under the same identity, and what they are merged to. */
  const OPTION := Edge(Prim("notSelected"), OptionNode(ChoiceOption("a", None, None, None)))
  const BRANCHED := Cid(Content(map["alias" := AliasData("x"), "option" := OptionData(0.0)], [OPTION]))
  const MARKED: Data := map["alias" := AliasData("x"), "option" := OptionData(0.0),
      "conflict" := Obj(map["path" := Str("x")])]
  const CONFLICT := Cid(Content(MARKED, []))
  const BLENDED := Cid(Content(MARKED, [OPTION]))

  function Holding(c: Cid): Cid { Cid(Content(map[], [ChoiceRow(c)])) }

  lemma BranchedIsPlain()
    ensures IsBranchChoice(BRANCHED.content) && !IsBranchChoice(CONFLICT.content) && !IsMutableRef(BRANCHED.content)
            && !IsMutableRef(CONFLICT.content)
  {
    if Prim("notSelected") == Prim("target") { PrimInjective("notSelected", "target"); }
    if Prim("notSelected") == Prim("alias") { PrimInjective("notSelected", "alias"); }
    assert OPTION in BRANCHED.content.children;
  }

  lemma NoMain(h: Host)
    ensures MainOf(h, BRANCHED, CONFLICT).None? && !HasMain(h, BRANCHED)
  {
    BranchedIsPlain();
    OptionReads(ChoiceOption("a", None, None, None));
    var read := ReadOption(OPTION.right);
    assert [OPTION][1..] == [] && ReadOptions([OPTION]) == [read] + ReadOptions([]);
    NoMainIn(h, BRANCHED, [read]);
  }

  lemma NoMainIn(h: Host, c: Cid, os: seq<ChoiceOption>)
    requires IsBranchChoice(c.content) && ReadChoice(h, c).options == os && forall o | o in os :: o.edge.None?
    ensures forall d :: MainOf(h, c, d).None?
  {
    var choice := ReadChoice(h, c);
    if choice.defaultName.Some? { FoundOption(os, choice.defaultName.value); }
  }

  lemma OptionKey(h: Host)
    ensures KeyOf(h, OPTION) == Exact(OPTION)
  {
    if Prim("notSelected") == Prim("proposal") { PrimInjective("notSelected", "proposal"); }
  }

  lemma BlendRows(h: Host, labels: Labels)
    ensures MergeChildren(h, EMPTY, BRANCHED.content, CONFLICT.content, labels) == RowsResult(Rows([OPTION]), [])
  {
    var key := Exact(OPTION);
    OptionKey(h);
    OneKey(h, OPTION);
    SameOrder([key], [], []);
    ChildrenBelow(h, BRANCHED.content, CONFLICT.content);
    assert KeysOf(h, []) == [] && RowsByKey(h, []) == map[];
    OnlyKey(h, key, map[], map[key := OPTION], map[], labels, Size(BRANCHED, CONFLICT));
  }

  lemma Blends(h: Host, labels: Labels, field: bool)
    ensures MergeNode(h, None, BRANCHED, CONFLICT, labels, false, field) == NodeResult(Merged(BLENDED), [])
  {
    BranchedIsPlain();
    NoMain(h);
    BlendRows(h, labels);
    MarkedApart();
    BlendData();
    BlendIsPlain(h, labels, field);
  }

  lemma MarkedApart()
    ensures CONFLICT != BRANCHED && ChoiceRow(CONFLICT) != ChoiceRow(BRANCHED)
  {
    assert "conflict" in CONFLICT.content.data && "conflict" !in BRANCHED.content.data;
  }

  lemma BlendData()
    ensures MergeData(map[], BRANCHED.content.data, MARKED, false) == Some(MARKED)
  {
    assert MergedData(map[], BRANCHED.content.data, MARKED) == MARKED;
  }

  lemma BlendIsPlain(h: Host, labels: Labels, field: bool)
    requires IsBranchChoice(BRANCHED.content) && !IsBranchChoice(CONFLICT.content) && !IsMutableRef(BRANCHED.content)
            && !IsMutableRef(CONFLICT.content)
    requires MainOf(h, BRANCHED, CONFLICT).None? && CONFLICT != BRANCHED
    ensures MergeNode(h, None, BRANCHED, CONFLICT, labels, false, field)
            == MergePlain(h, None, BRANCHED, CONFLICT, labels, false)
  {}

  lemma HoldingKey(h: Host, c: Cid)
    requires AliasId(c.content) == Some("x")
    ensures KeyOf(h, ChoiceRow(c)) == Alias("x") && KeysOf(h, [ChoiceRow(c)]) == [Alias("x")]
            && RowsByKey(h, [ChoiceRow(c)]) == map[Alias("x") := ChoiceRow(c)]
  {
    if Prim("choice") == Prim("proposal") { PrimInjective("choice", "proposal"); }
    OneKey(h, ChoiceRow(c));
  }

  lemma HoldingPlain(c: Cid)
    ensures IsPlain(Holding(c))
  {
    if Prim("choice") == Prim("target") { PrimInjective("choice", "target"); }
    if Prim("choice") == Prim("alias") { PrimInjective("choice", "alias"); }
  }

  lemma HoldingMerges(h: Host, labels: Labels, bound: nat)
    requires Height(BRANCHED) + Height(CONFLICT) < bound
    ensures MergeKey(h, Alias("x"), None, Some(ChoiceRow(BRANCHED)), Some(ChoiceRow(CONFLICT)), labels, bound)
            == RowsResult(Rows([ChoiceRow(BLENDED)]), [])
  {
    MarkedApart();
    BranchedIsPlain();
    Blends(h, labels, IsFieldRow(h, ChoiceRow(BRANCHED)));
    VersionsOfKey(h, Alias("x"), None, ChoiceRow(BRANCHED), ChoiceRow(CONFLICT), labels, bound, BLENDED);
  }

  lemma HoldingRows(h: Host, labels: Labels)
    ensures MergeChildren(h, EMPTY, Holding(BRANCHED).content, Holding(CONFLICT).content, labels)
            == RowsResult(Rows([ChoiceRow(BLENDED)]), [])
  {
    var key, o, t := Alias("x"), Holding(BRANCHED).content, Holding(CONFLICT).content;
    HoldingKey(h, BRANCHED);
    HoldingKey(h, CONFLICT);
    SameOrder([key], [key], []);
    ChildrenBelow(h, o, t);
    assert KeysOf(h, []) == [] && RowsByKey(h, []) == map[];
    HoldingKeys(h, labels, RowsByKey(h, o.children), RowsByKey(h, t.children), Size(Cid(o), Cid(t)));
  }

  lemma HoldingKeys(h: Host, labels: Labels, om: map<Key, Edge>, tm: map<Key, Edge>, bound: nat)
    requires Below(om, tm, bound) && om == map[Alias("x") := ChoiceRow(BRANCHED)]
            && tm == map[Alias("x") := ChoiceRow(CONFLICT)]
    ensures MergeKeys(h, [Alias("x")], map[], om, tm, labels, bound) == RowsResult(Rows([ChoiceRow(BLENDED)]), [])
  {
    assert om[Alias("x")] == ChoiceRow(BRANCHED) && tm[Alias("x")] == ChoiceRow(CONFLICT);
    HoldingMerges(h, labels, bound);
    OnlyKey(h, Alias("x"), map[], om, tm, labels, bound);
  }

  /**
   * Branches without a version for their main branch are merged with a conflict as plain nodes: the result carries the
   * conflict mark, nothing is reported, and neither side had the row.
   */
  lemma MarkIsNotReported(h: Host, labels: Labels)
    ensures MergeNodes(h, None, Holding(BRANCHED), Holding(CONFLICT), labels)
            == NodeResult(Merged(Holding(BLENDED)), [])
    ensures IsConflictRow(ChoiceRow(BLENDED)) && Occurs(Holding(BLENDED), ChoiceRow(BLENDED))
            && !MainsBelow(h, Holding(BRANCHED))
  {
    HoldingPlain(BRANCHED);
    HoldingPlain(CONFLICT);
    MarkedApart();
    HoldingApart(BRANCHED, CONFLICT);
    MergesPlain(h, None, Holding(BRANCHED), Holding(CONFLICT), labels, true, false);
    HoldingNode(h, labels);
    BlendedIsThere(h);
  }

  lemma HoldingApart(c: Cid, d: Cid)
    requires ChoiceRow(c) != ChoiceRow(d)
    ensures Holding(c) != Holding(d)
  {
    assert Holding(c).content.children[0] != Holding(d).content.children[0];
  }

  lemma BlendedIsThere(h: Host)
    ensures IsConflictRow(ChoiceRow(BLENDED)) && Occurs(Holding(BLENDED), ChoiceRow(BLENDED))
            && !MainsBelow(h, Holding(BRANCHED))
  {
    OccursHolding(BLENDED);
    NotMainsBelow(h);
  }

  lemma NotMainsBelow(h: Host)
    ensures !MainsBelow(h, Holding(BRANCHED))
  {
    BranchedIsPlain();
    NoMain(h);
    OccursHolding(BRANCHED);
    var e := ChoiceRow(BRANCHED);
    assert Occurs(Holding(BRANCHED), e) && IsChoice(e) && e.right == BRANCHED;
  }

  lemma OccursHolding(c: Cid)
    ensures Occurs(Holding(c), ChoiceRow(c))
  {
    assert ChoiceRow(c) in Holding(c).content.children;
  }

  lemma HoldingNode(h: Host, labels: Labels)
    ensures MergePlain(h, None, Holding(BRANCHED), Holding(CONFLICT), labels, true)
            == NodeResult(Merged(Holding(BLENDED)), [])
  {
    HoldingRows(h, labels);
    assert MergedData(map[], map[], map[]) == map[];
  }
}
