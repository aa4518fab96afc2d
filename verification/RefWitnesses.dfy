/** What a merge of refs gives up without a trace: inputs that do not meet the conditions of `Lossless`. */
module RefWitnesses {
  import opened Options
  import opened Json
  import opened Text
  import opened Graph
  import opened Merge
  import opened MergeLaws
  import opened Conflicts
  import opened Lossless
  import opened MergeWitnesses
  import Order

  /** The row of one own field, and with a row of another identity beside it. */
  function Field(h: Host, n: real): seq<Edge> { [FieldOf(h, n)] }
  function Grown(h: Host): seq<Edge> { [FieldOf(h, 2.0), RowOf(1.0)] }

  lemma FieldFirst(h: Host)
    requires LongTexts(h)
    ensures KeysOf(h, Grown(h)) == [Alias(FieldId(h, Left(2.0))), Alias("r")]
    ensures RowsByKey(h, Grown(h)) == map[Alias(FieldId(h, Left(2.0))) := FieldOf(h, 2.0), Alias("r") := RowOf(1.0)]
  {
    LeftKey(h, 1.0, RowOf(1.0).right);
    LeftKey(h, 2.0, FieldOf(h, 2.0).right);
    assert |FieldId(h, Left(2.0))| > 1 && |"r"| == 1;
    TwoKeys(h, FieldOf(h, 2.0), RowOf(1.0));
  }

  lemma FieldAlone(h: Host, n: real)
    requires LongTexts(h)
    ensures KeysOf(h, Field(h, n)) == [Alias(FieldId(h, Left(2.0)))]
    ensures RowsByKey(h, Field(h, n)) == map[Alias(FieldId(h, Left(2.0))) := FieldOf(h, n)]
  {
    LeftKey(h, 2.0, FieldOf(h, n).right);
    assert |FieldId(h, Left(2.0))| > 1;
    OneKey(h, FieldOf(h, n));
  }

  lemma OneMore<T>(x: T, y: T)
    requires x != y
    ensures Order.OrderedKeys([x], [x, y], [x]) == [x, y]
  {
    assert [x, y][..1] == [x] && [x, y][2..] == [];
    assert Order.Slot([x], [x], []) == 1;
    assert [x][..1] + [y] + [x][1..] == [x, y];
    assert Order.Splice([x, y], [x, y], 2) == [x, y];
    assert Order.Splice([x], [x, y], 1) == [x, y];
    assert Order.Splice([x], [x, y], 0) == [x, y];
    SameAppend([x, y], [x]);
  }

  /** Both sides gave the field a value, so the rows conflict, whatever else is among them. */
  lemma GrownConflict(h: Host, base: Content, ours: Content, theirs: Content, labels: Labels)
    requires LongTexts(h)
    requires base.children == Field(h, 0.0) && ours.children == Field(h, 1.0) && theirs.children == Grown(h)
    ensures MergeChildren(h, base, ours, theirs, labels) == RowsResult(RowsConflict, [])
  {
    var key := Alias(FieldId(h, Left(2.0)));
    FieldAlone(h, 0.0);
    FieldAlone(h, 1.0);
    FieldFirst(h);
    assert |FieldId(h, Left(2.0))| > 1 && |"r"| == 1;
    OneMore(key, Alias("r"));
    ChildrenBelow(h, ours, theirs);
    FirstDecides(h, key, Alias("r"), RowsByKey(h, base.children), RowsByKey(h, ours.children),
      RowsByKey(h, theirs.children), labels, Size(Cid(ours), Cid(theirs)));
  }

  lemma FirstDecides(h: Host, key: Key, more: Key, bm: map<Key, Edge>, om: map<Key, Edge>, tm: map<Key, Edge>,
      labels: Labels, bound: nat)
    requires Below(om, tm, bound) && key == Alias(FieldId(h, Left(2.0)))
    requires At(bm, key) == Some(FieldOf(h, 0.0)) && At(om, key) == Some(FieldOf(h, 1.0))
             && At(tm, key) == Some(FieldOf(h, 2.0))
    ensures MergeKeys(h, [key, more], bm, om, tm, labels, bound) == RowsResult(RowsConflict, [])
  {
    assert key in om && key in tm && om[key] == FieldOf(h, 1.0) && tm[key] == FieldOf(h, 2.0);
    FieldDivides(h, labels, bound);
  }

  // ---------------------------------------------------------------------------
  // Refs

  const REF: Data := map["alias" := AliasData("ref")]

  function Ref(value: Cid, rows: seq<Edge>): Cid { Cid(RefNode(REF, Some(value), rows)) }

  lemma RefIsRef(value: Cid, rows: seq<Edge>)
    ensures IsMutableRef(Ref(value, rows).content) && !IsBranchChoice(Ref(value, rows).content)
    ensures RefValue(Ref(value, rows).content) == Some(value)
  {
    assert Ref(value, rows).content.children[1] == Edge(Prim("alias"), Cid(EMPTY));
  }

  lemma MergesRefs(h: Host, base: Cid, ours: Cid, theirs: Cid, bv: Cid, ov: Cid, tv: Cid, b: seq<Edge>, o: seq<Edge>,
      t: seq<Edge>, labels: Labels)
    requires base == Ref(bv, b) && ours == Ref(ov, o) && theirs == Ref(tv, t)
            && Unchanged(Some(base), ours, theirs).None?
    ensures IsMutableRef(ours.content)
    ensures Sides(h, Some(base), ours, theirs)
            == RefSides(Some(base.content), ours.content, theirs.content, Some(bv), Some(ov), Some(tv))
    ensures !IsTyped(Sides(h, Some(base), ours, theirs), false)
    ensures SideValue(h, ours.content) == ov && SideValue(h, theirs.content) == tv
    ensures MergeNodes(h, Some(base), ours, theirs, labels)
            == MergeRefs(h, Some(base), ours, theirs, labels, true, false)
  {
    RefIsRef(bv, b);
    RefIsRef(ov, o);
    RefIsRef(tv, t);
  }

  // Bookkeeping of refs whose value is no row.

  /** Not loaded from another peer, no identity, no ref. */
  predicate Bare(c: Cid) { !Has(c.content.data, "alias") && !IsRef(c.content) && !IsPeerReference(c.content) }

  lemma NoRowOf(h: Host, name: string, c: Cid)
    requires Bare(c) && name in ["target", "alias"]
    ensures !Passes(h, Booked(true), Edge(Prim(name), c))
  {
    NotBookkeeping(name);
    PrimIsPrimitive(name);
  }

  lemma OwnRow(h: Host, n: real, right: Cid)
    requires Has(right.content.data, "alias")
    ensures Passes(h, Booked(true), Edge(Left(n), right)) && !IsPrev(Edge(Left(n), right))
  {
    var e := Edge(Left(n), right);
    assert "left" in Left(n).content.data && !Has(Left(n).content.data, "peerId");
    assert !IsMember(e) && !IsPrimitive(e.left);
    NoPrim(n, "choice");
    NoPrim(n, "previous");
  }

  lemma {:induction false} FilterAll(h: Host, s: Sieve, es: seq<Edge>)
    requires forall e | e in es :: Passes(h, s, e)
    ensures Filter(h, s, es) == es
  {
    if es != [] { FilterAll(h, s, es[1..]); }
  }

  lemma {:induction false} FilterNone(h: Host, s: Sieve, es: seq<Edge>)
    requires forall e | e in es :: !Passes(h, s, e)
    ensures Filter(h, s, es) == []
  {
    if es != [] { FilterNone(h, s, es[1..]); }
  }

  lemma FilterHead(h: Host, s: Sieve, e: Edge, es: seq<Edge>)
    ensures Filter(h, s, [e] + es) == (if Passes(h, s, e) then [e] else []) + Filter(h, s, es)
  {
    assert ([e] + es)[0] == e && ([e] + es)[1..] == es;
  }

  lemma FilterRef(h: Host, s: Sieve, value: Cid, rows: seq<Edge>)
    requires !Passes(h, s, Edge(Prim("target"), value)) && !Passes(h, s, Edge(Prim("alias"), Cid(EMPTY)))
    ensures Filter(h, s, Ref(value, rows).content.children) == Filter(h, s, rows)
  {
    var mark := Edge(Prim("alias"), Cid(EMPTY));
    assert Ref(value, rows).content.children == [Edge(Prim("target"), value)] + ([mark] + rows);
    FilterHead(h, s, Edge(Prim("target"), value), [mark] + rows);
    FilterHead(h, s, mark, rows);
  }

  lemma RefBook(h: Host, value: Cid, rows: seq<Edge>)
    requires Bare(value) && forall e | e in rows :: Passes(h, Booked(true), e) && !IsPrev(e)
    ensures Book(h, Ref(value, rows).content) == Content(map[], rows) && PrevRows(h, Ref(value, rows).content) == []
  {
    RefIsRef(value, rows);
    NoRowOf(h, "target", value);
    NoRowOf(h, "alias", Cid(EMPTY));
    FilterRef(h, Booked(true), value, rows);
    FilterAll(h, Booked(true), rows);
    FilterAll(h, NotPrev, rows);
    RefPrev(h, value, rows);
  }

  lemma RefPrev(h: Host, value: Cid, rows: seq<Edge>)
    requires forall e | e in rows :: !IsPrev(e)
    ensures PrevRows(h, Ref(value, rows).content) == []
  {
    NotBookkeeping("target");
    NotBookkeeping("alias");
    FilterRef(h, Prev, value, rows);
    FilterNone(h, Prev, rows);
  }

  // ---------------------------------------------------------------------------
  // What is lost

  lemma FieldRows(h: Host, n: real)
    ensures forall e | e in Field(h, n) :: Passes(h, Booked(true), e) && !IsPrev(e)
  {
    OwnRow(h, 2.0, FieldOf(h, n).right);
  }

  lemma GrownRows(h: Host)
    ensures forall e | e in Grown(h) :: Passes(h, Booked(true), e) && !IsPrev(e)
  {
    OwnRow(h, 2.0, FieldOf(h, 2.0).right);
    OwnRow(h, 1.0, RowOf(1.0).right);
  }

  lemma FieldsApart(h: Host)
    ensures FieldOf(h, 0.0) != FieldOf(h, 1.0) && FieldOf(h, 0.0) != FieldOf(h, 2.0)
            && FieldOf(h, 1.0) != FieldOf(h, 2.0)
  {
    CountsApart(Left(2.0), FieldId(h, Left(2.0)), 0.0, 1.0);
    CountsApart(Left(2.0), FieldId(h, Left(2.0)), 0.0, 2.0);
    CountsApart(Left(2.0), FieldId(h, Left(2.0)), 1.0, 2.0);
  }

  lemma RefsApart(v: Cid, w: Cid, a: seq<Edge>, b: seq<Edge>)
    requires v != w || a != b
    ensures Ref(v, a) != Ref(w, b)
  {
    var c, d := Ref(v, a).content.children, Ref(w, b).content.children;
    assert c[0] == Edge(Prim("target"), v) && d[0] == Edge(Prim("target"), w);
    assert c[2..] == a && d[2..] == b;
  }

  const VALUE := Counted(0.0)

  lemma ValueIsBare()
    ensures Bare(VALUE)
  {}

  lemma SameData()
    ensures MergedData(REF, REF, REF) == REF
  {
    assert forall key | key != "updated" :: MergedField(REF, REF, REF, key) == Get(REF, key);
  }

  lemma NoHistory(h: Host, s: RefSides, ours: Cid, theirs: Cid, value: Cid)
    requires SideValue(h, ours.content) == value == SideValue(h, theirs.content)
    requires PrevRows(h, s.o) == [] && PrevRows(h, s.t) == []
    ensures History(h, s, ours, theirs, Some(value)) == []
  {}

  lemma BooksOf(h: Host, labels: Labels)
    requires LongTexts(h)
    ensures var b, o, t := Ref(VALUE, Field(h, 0.0)).content, Ref(VALUE, Field(h, 1.0)).content,
              Ref(VALUE, Grown(h)).content;
            && Book(h, o).children == Field(h, 1.0) && PrevRows(h, o) == [] && PrevRows(h, t) == []
            && MergeChildren(h, Book(h, b), Book(h, o), Book(h, t), labels) == RowsResult(RowsConflict, [])
  {
    ValueIsBare();
    FieldRows(h, 0.0);
    FieldRows(h, 1.0);
    GrownRows(h);
    RefBook(h, VALUE, Field(h, 0.0));
    RefBook(h, VALUE, Field(h, 1.0));
    RefBook(h, VALUE, Grown(h));
    GrownConflict(h, Content(map[], Field(h, 0.0)), Content(map[], Field(h, 1.0)), Content(map[], Grown(h)), labels);
  }

  /**
   * Both sides gave a ref's own field a value and theirs added a row: the merge is ours' version as it was. Theirs'
   * value of the field and its row are gone, and nothing is reported.
   */
  lemma RowsOfTheirsAreLost(h: Host, labels: Labels)
    requires LongTexts(h)
    ensures MergeNodes(h, Some(Ref(VALUE, Field(h, 0.0))), Ref(VALUE, Field(h, 1.0)), Ref(VALUE, Grown(h)), labels)
            == NodeResult(Merged(Ref(VALUE, Field(h, 1.0))), [])
  {
    RefsOfFieldsApart(h);
    BooksOf(h, labels);
    RowsAreOurs(h, Ref(VALUE, Field(h, 0.0)), Ref(VALUE, Field(h, 1.0)), Ref(VALUE, Grown(h)), Field(h, 0.0),
      Field(h, 1.0), Grown(h), labels);
  }

  lemma RefsOfFieldsApart(h: Host)
    ensures Unchanged(Some(Ref(VALUE, Field(h, 0.0))), Ref(VALUE, Field(h, 1.0)), Ref(VALUE, Grown(h))).None?
  {
    FieldsApart(h);
    assert Field(h, 0.0)[0] != Field(h, 1.0)[0] && Field(h, 0.0)[0] != Grown(h)[0] && Field(h, 1.0)[0] != Grown(h)[0];
    RefsApart(VALUE, VALUE, Field(h, 0.0), Field(h, 1.0));
    RefsApart(VALUE, VALUE, Field(h, 0.0), Grown(h));
    RefsApart(VALUE, VALUE, Field(h, 1.0), Grown(h));
  }

  /** Refs of one value whose bookkeeping conflicts. */
  lemma RowsAreOurs(h: Host, base: Cid, ours: Cid, theirs: Cid, b: seq<Edge>, o: seq<Edge>, t: seq<Edge>,
      labels: Labels)
    requires base == Ref(VALUE, b) && ours == Ref(VALUE, o) && theirs == Ref(VALUE, t)
    requires Unchanged(Some(base), ours, theirs).None?
    requires Book(h, ours.content).children == o && PrevRows(h, ours.content) == [] && PrevRows(h, theirs.content) == []
    requires MergeChildren(h, Book(h, base.content), Book(h, ours.content), Book(h, theirs.content), labels)
             == RowsResult(RowsConflict, [])
    ensures MergeNodes(h, Some(base), ours, theirs, labels) == NodeResult(Merged(ours), [])
  {
    MergesRefs(h, base, ours, theirs, VALUE, VALUE, VALUE, b, o, t, labels);
    var s := Sides(h, Some(base), ours, theirs);
    ValueAlone(h, s, ours, theirs, labels);
    BooksGivenUp(h, Some(base), ours, theirs, labels, VALUE);
    OursAgain(h, s, ours, theirs, o);
  }

  lemma OursAgain(h: Host, s: RefSides, ours: Cid, theirs: Cid, o: seq<Edge>)
    requires ours == Ref(VALUE, o) && s.o == ours.content && s.t.data == REF && s.b.Some? && s.b.value.data == REF
    requires SideValue(h, ours.content) == SideValue(h, theirs.content) == VALUE
    requires Book(h, s.o).children == o && PrevRows(h, s.o) == [] && PrevRows(h, s.t) == []
    ensures MergedRef(h, s, ours, theirs, Some(VALUE), RowsConflict) == ours
  {
    SameData();
    NoHistory(h, s, ours, theirs, VALUE);
    assert o + [] == o;
  }

  lemma ValueAlone(h: Host, s: RefSides, ours: Cid, theirs: Cid, labels: Labels)
    requires IsMutableRef(ours.content) && SideValue(h, ours.content) == SideValue(h, theirs.content) == VALUE
    ensures MergeValues(h, s, ours, theirs, labels, true) == RequestResult(Some(VALUE), Merged(Cid(EMPTY)), [])
  {}

  /** Untyped refs whose bookkeeping conflicts. */
  lemma BooksGivenUp(h: Host, base: Option<Cid>, ours: Cid, theirs: Cid, labels: Labels, value: Cid)
    requires IsMutableRef(ours.content) && !IsTyped(Sides(h, base, ours, theirs), false)
    requires var s := Sides(h, base, ours, theirs);
             && MergeValues(h, s, ours, theirs, labels, true) == RequestResult(Some(value), Merged(Cid(EMPTY)), [])
             && MergeChildren(h, BookOf(h, s.b), Book(h, s.o), Book(h, s.t), labels) == RowsResult(RowsConflict, [])
    ensures MergeRefs(h, base, ours, theirs, labels, true, false)
            == NodeResult(Merged(MergedRef(h, Sides(h, base, ours, theirs), ours, theirs, Some(value), RowsConflict)),
                [])
  {}

  /** Nodes of the same rows, as the values of refs without rows of their own. */
  function Held(rows: seq<Edge>): Cid { Cid(Content(map[], rows)) }
  function Holder(rows: seq<Edge>): Cid { Ref(Held(rows), []) }

  lemma HeldIsBare(rows: seq<Edge>)
    requires forall e | e in rows :: exists n :: e.left == Left(n)
    ensures Bare(Held(rows)) && IsPlain(Held(rows))
  {
    PlainRows(Held(rows));
    assert !IsHandle(Held(rows).content);
  }

  lemma HeldConflict(h: Host, labels: Labels)
    requires LongTexts(h)
    ensures MergeNode(h, Some(Held(Field(h, 0.0))), Held(Field(h, 1.0)), Held(Grown(h)), labels, true, false)
            == NodeResult(Conflict, [])
  {
    FieldsApart(h);
    LeftsOf(h);
    HeldIsBare(Field(h, 1.0));
    HeldIsBare(Grown(h));
    assert Field(h, 0.0)[0] != Field(h, 1.0)[0] && Field(h, 0.0)[0] != Grown(h)[0] && Field(h, 1.0)[0] != Grown(h)[0];
    MergesPlain(h, Some(Held(Field(h, 0.0))), Held(Field(h, 1.0)), Held(Grown(h)), labels, true, false);
    GrownConflict(h, Held(Field(h, 0.0)).content, Held(Field(h, 1.0)).content, Held(Grown(h)).content, labels);
  }

  lemma LeftsOf(h: Host)
    ensures forall n, e | e in Field(h, n) :: e.left == Left(2.0)
    ensures forall e | e in Grown(h) :: e.left == Left(1.0) || e.left == Left(2.0)
  {}

  /**
   * The top node is a ref; both sides gave an own field of its value a value, and theirs added a row to it. The merge
   * keeps ours' value whole: theirs' row is gone, and nothing is reported.
   */
  lemma ValueOfTheirsIsLost(h: Host, labels: Labels)
    requires LongTexts(h)
    ensures var r := MergeNodes(h, Some(Holder(Field(h, 0.0))), Holder(Field(h, 1.0)), Holder(Grown(h)), labels);
            && r.raised == [] && r.outcome.Merged?
            && RefValue(r.outcome.cid.content) == Some(Held(Field(h, 1.0)))
            && (forall e | e in r.outcome.cid.content.children :: IsPointer(e))
            && RowOf(1.0) in Held(Grown(h)).content.children && RowOf(1.0) !in Held(Field(h, 1.0)).content.children
  {
    HoldersApart(h);
    HeldConflict(h, labels);
    NoBooks(h, labels);
    ValueIsOurs(h, Holder(Field(h, 0.0)), Holder(Field(h, 1.0)), Holder(Grown(h)), Held(Field(h, 0.0)),
      Held(Field(h, 1.0)), Held(Grown(h)), labels);
    RowIsGone(h);
  }

  /** Refs without rows whose values conflict. */
  lemma ValueIsOurs(h: Host, base: Cid, ours: Cid, theirs: Cid, b: Cid, o: Cid, t: Cid, labels: Labels)
    requires base == Ref(b, []) && ours == Ref(o, []) && theirs == Ref(t, [])
    requires Unchanged(Some(base), ours, theirs).None?
    requires MergeNode(h, Some(b), o, t, labels, true, false) == NodeResult(Conflict, [])
    requires MergeChildren(h, Book(h, base.content), Book(h, ours.content), Book(h, theirs.content), labels)
             == RowsResult(Rows([]), [])
    ensures var r := MergeNodes(h, Some(base), ours, theirs, labels);
            && r.raised == [] && r.outcome.Merged? && RefValue(r.outcome.cid.content) == Some(o)
            && forall e | e in r.outcome.cid.content.children :: IsPointer(e)
  {
    MergesRefs(h, base, ours, theirs, b, o, t, [], [], [], labels);
    OursIsKept(h, Some(base), ours, theirs, labels);
  }

  lemma RowIsGone(h: Host)
    ensures RowOf(1.0) in Held(Grown(h)).content.children && RowOf(1.0) !in Held(Field(h, 1.0)).content.children
  {
    assert Grown(h)[1] == RowOf(1.0);
    LeftsApart();
  }

  lemma LeftsApart()
    ensures Left(1.0) != Left(2.0)
  {
    assert Left(1.0).content.data["left"] == Num(1.0) && Left(2.0).content.data["left"] == Num(2.0);
  }

  lemma HoldersApart(h: Host)
    ensures Unchanged(Some(Holder(Field(h, 0.0))), Holder(Field(h, 1.0)), Holder(Grown(h))).None?
  {
    FieldsApart(h);
    assert Field(h, 0.0)[0] != Field(h, 1.0)[0] && Field(h, 0.0)[0] != Grown(h)[0] && Field(h, 1.0)[0] != Grown(h)[0];
    assert Held(Field(h, 0.0)) != Held(Field(h, 1.0)) && Held(Field(h, 0.0)) != Held(Grown(h))
           && Held(Field(h, 1.0)) != Held(Grown(h));
    RefsApart(Held(Field(h, 0.0)), Held(Field(h, 1.0)), [], []);
    RefsApart(Held(Field(h, 0.0)), Held(Grown(h)), [], []);
    RefsApart(Held(Field(h, 1.0)), Held(Grown(h)), [], []);
  }

  lemma NoBooks(h: Host, labels: Labels)
    ensures var b, o, t := Holder(Field(h, 0.0)).content, Holder(Field(h, 1.0)).content, Holder(Grown(h)).content;
            MergeChildren(h, Book(h, b), Book(h, o), Book(h, t), labels) == RowsResult(Rows([]), [])
  {
    LeftsOf(h);
    HeldIsBare(Field(h, 0.0));
    HeldIsBare(Field(h, 1.0));
    HeldIsBare(Grown(h));
    RefBook(h, Held(Field(h, 0.0)), []);
    RefBook(h, Held(Field(h, 1.0)), []);
    RefBook(h, Held(Grown(h)), []);
    NothingToMerge(h, labels);
  }

  lemma NothingToMerge(h: Host, labels: Labels)
    ensures MergeChildren(h, EMPTY, EMPTY, EMPTY, labels) == RowsResult(Rows([]), [])
  {
    SameOrder<Key>([], [], []);
  }

  /** The top ref keeps ours' value when the values conflict. */
  lemma OursIsKept(h: Host, base: Option<Cid>, ours: Cid, theirs: Cid, labels: Labels)
    requires IsMutableRef(ours.content) && !IsTyped(Sides(h, base, ours, theirs), false)
    requires var s := Sides(h, base, ours, theirs);
             && MergeNode(h, s.bv, SideValue(h, ours.content), SideValue(h, theirs.content), labels, true, false)
                == NodeResult(Conflict, [])
             && MergeChildren(h, BookOf(h, s.b), Book(h, s.o), Book(h, s.t), labels) == RowsResult(Rows([]), [])
    ensures var r := MergeRefs(h, base, ours, theirs, labels, true, false);
            && r.raised == [] && r.outcome.Merged?
            && RefValue(r.outcome.cid.content) == Some(SideValue(h, ours.content))
            && forall e | e in r.outcome.cid.content.children :: IsPointer(e)
  {
    ConflictKeepsOurs(h, base, ours, theirs, labels);
    RefIs(h, base, ours, theirs, labels, true, false);
  }

  lemma ConflictKeepsOurs(h: Host, base: Option<Cid>, ours: Cid, theirs: Cid, labels: Labels)
    requires IsMutableRef(ours.content) && !IsTyped(Sides(h, base, ours, theirs), false)
    requires var s := Sides(h, base, ours, theirs);
             && MergeNode(h, s.bv, SideValue(h, ours.content), SideValue(h, theirs.content), labels, true, false)
                == NodeResult(Conflict, [])
             && MergeChildren(h, BookOf(h, s.b), Book(h, s.o), Book(h, s.t), labels) == RowsResult(Rows([]), [])
    ensures var s, r := Sides(h, base, ours, theirs), MergeRefs(h, base, ours, theirs, labels, true, false);
            && r.raised == [] && r.outcome.Merged?
            && MergeValues(h, s, ours, theirs, labels, true)
               == RequestResult(Some(SideValue(h, ours.content)), Merged(Cid(EMPTY)), [])
  {}
}
