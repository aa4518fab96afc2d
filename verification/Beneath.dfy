/** Rows anywhere below a node: what holds of all of them, which occur, and what the nodes a merge builds add. */
module Beneath {
  import opened Options
  import opened Json
  import opened Graph
  import opened Merge
  import opened Store

  /** `ok` holds of every row below the node. */
  ghost predicate All(ok: Edge -> bool, c: Cid)
    decreases c
  {
    forall e | e in c.content.children :: ok(e) && All(ok, e.left) && All(ok, e.right)
  }

  ghost predicate Fine(ok: Edge -> bool, e: Edge) { ok(e) && All(ok, e.left) && All(ok, e.right) }

  ghost predicate AllRows(ok: Edge -> bool, es: seq<Edge>) { forall e | e in es :: Fine(ok, e) }

  /** The row is somewhere below the node. */
  ghost predicate Occurs(c: Cid, e: Edge)
    decreases c
  {
    exists x | x in c.content.children :: x == e || Occurs(x.left, e) || Occurs(x.right, e)
  }

  lemma {:induction false} OccursOk(ok: Edge -> bool, c: Cid, e: Edge)
    requires All(ok, c) && Occurs(c, e)
    ensures ok(e)
    decreases c
  {
    var x :| x in c.content.children && (x == e || Occurs(x.left, e) || Occurs(x.right, e));
    if x != e {
      if Occurs(x.left, e) { OccursOk(ok, x.left, e); } else { OccursOk(ok, x.right, e); }
    }
  }

  /** What holds of all rows that occur below a node holds of every row below it. */
  lemma {:induction false} OkOccurs(ok: Edge -> bool, c: Cid)
    requires forall e | Occurs(c, e) :: ok(e)
    ensures All(ok, c)
    decreases c
  {
    forall x | x in c.content.children ensures Fine(ok, x) {
      assert Occurs(c, x);
      forall e | Occurs(x.left, e) || Occurs(x.right, e) ensures ok(e) { assert Occurs(c, e); }
      OkOccurs(ok, x.left);
      OkOccurs(ok, x.right);
    }
  }

  ghost predicate Leads(path: seq<Cid>, c: Cid, e: Edge) {
    IsPath(path) && path[0] == c && e in path[|path| - 1].content.children
  }

  lemma {:induction false} OccursLeads(c: Cid, e: Edge) returns (path: seq<Cid>)
    requires Occurs(c, e)
    ensures Leads(path, c, e)
    decreases c
  {
    var x :| x in c.content.children && (x == e || Occurs(x.left, e) || Occurs(x.right, e));
    path := [c];
    if x != e {
      var below := if Occurs(x.left, e) then x.left else x.right;
      var rest := OccursLeads(below, e);
      assert IsChild(c, below);
      path := [c] + rest;
    }
  }

  lemma {:induction false} LeadsOccurs(path: seq<Cid>, c: Cid, e: Edge)
    requires Leads(path, c, e)
    ensures Occurs(c, e)
  {
    if |path| > 1 {
      assert IsChild(path[0], path[1]);
      LeadsOccurs(path[1..], path[1], e);
    }
  }

  /** A row occurs below a node exactly when some path of edges leads to a node that has it. */
  lemma OccursPath(c: Cid, e: Edge)
    ensures Occurs(c, e) <==> exists path :: Leads(path, c, e)
  {
    if Occurs(c, e) { var path := OccursLeads(c, e); }
    if path :| Leads(path, c, e) { LeadsOccurs(path, c, e); }
  }

  lemma OccursUnder(c: Cid, x: Edge, e: Edge)
    requires x in c.content.children && (Occurs(x.left, e) || Occurs(x.right, e))
    ensures Occurs(c, e)
  {}

  // ---------------------------------------------------------------------------
  // What builders of nodes keep

  /**
   * Properties every row has that is no choice: the nodes a merge builds have such rows only, besides those it is
   * given.
   */
  ghost predicate OfChoices(ok: Edge -> bool) { forall e: Edge | !IsChoice(e) :: ok(e) }

  lemma NotChoice(name: string)
    requires name != "choice"
    ensures Prim(name) != Prim("choice")
  {
    if Prim(name) == Prim("choice") { PrimInjective(name, "choice"); }
  }

  lemma AllScalar(ok: Edge -> bool, text: string)
    ensures All(ok, Scalar(text))
  {}

  lemma AllPrim(ok: Edge -> bool, name: string)
    requires OfChoices(ok)
    ensures All(ok, Prim(name))
  {
    AllScalar(ok, "primitive");
    AllScalar(ok, name);
    var row := Edge(Scalar("primitive"), Scalar(name));
    assert Prim(name).content.children == [row] && Prim("choice").content.children != [];
    assert Scalar("primitive").content.children == [];
  }

  /** A pointer row is fine when what it points to is. */
  lemma FinePointer(ok: Edge -> bool, name: string, c: Cid)
    requires OfChoices(ok) && name != "choice" && All(ok, c)
    ensures Fine(ok, Edge(Prim(name), c))
  {
    NotChoice(name);
    AllPrim(ok, name);
  }

  lemma AllNode(ok: Edge -> bool, data: Data, es: seq<Edge>)
    requires AllRows(ok, es)
    ensures All(ok, Cid(Content(data, es)))
  {}

  lemma AllSome(ok: Edge -> bool, es: seq<Edge>, some: seq<Edge>)
    requires AllRows(ok, es) && forall e | e in some :: e in es
    ensures AllRows(ok, some)
  {}

  lemma AllFiltered(ok: Edge -> bool, h: Host, s: Sieve, es: seq<Edge>)
    requires AllRows(ok, es)
    ensures AllRows(ok, Filter(h, s, es))
  {
    FilterIn(h, s, es);
  }

  lemma AllBoth(ok: Edge -> bool, a: seq<Edge>, b: seq<Edge>)
    requires AllRows(ok, a) && AllRows(ok, b)
    ensures AllRows(ok, a + b)
  {}

  lemma {:induction false} AllFirst(ok: Edge -> bool, es: seq<Edge>, left: Cid)
    requires AllRows(ok, es)
    ensures First(es, left).Some? ==> All(ok, First(es, left).value)
  {
    if es != [] {
      assert es[0] in es;
      if es[0].left != left { AllFirst(ok, es[1..], left); }
    }
  }

  lemma {:induction false} AllLast(ok: Edge -> bool, es: seq<Edge>, left: Cid)
    requires AllRows(ok, es)
    ensures Last(es, left).Some? ==> All(ok, Last(es, left).value)
  {
    if es != [] {
      assert es[|es| - 1] in es;
      if es[|es| - 1].left != left { AllLast(ok, es[..|es| - 1], left); }
    }
  }

  // ---------------------------------------------------------------------------
  // Choices and branches

  ghost predicate FineEnds(ok: Edge -> bool, e: Option<Edge>) {
    e.Some? ==> All(ok, e.value.left) && All(ok, e.value.right)
  }
  ghost predicate FineCid(ok: Edge -> bool, c: Option<Cid>) { c.Some? ==> All(ok, c.value) }
  ghost predicate FineOption(ok: Edge -> bool, o: ChoiceOption) {
    FineEnds(ok, o.edge) && FineEnds(ok, o.base) && FineCid(ok, o.requestMerge)
  }
  ghost predicate FineOptions(ok: Edge -> bool, os: seq<ChoiceOption>) { forall o | o in os :: FineOption(ok, o) }

  lemma FineReadPointer(ok: Edge -> bool, c: Cid)
    requires All(ok, c)
    ensures FineEnds(ok, ReadPointer(c))
  {
    assert AllRows(ok, c.content.children);
    AllLast(ok, c.content.children, Prim("instruction"));
    AllLast(ok, c.content.children, Prim("target"));
  }

  lemma FineReadOption(ok: Edge -> bool, c: Cid)
    requires All(ok, c)
    ensures FineOption(ok, ReadOption(c))
  {
    assert AllRows(ok, c.content.children);
    FineReadPointer(ok, c);
    AllFirst(ok, c.content.children, Prim("base"));
    AllFirst(ok, c.content.children, Prim("approve"));
    var base := First(c.content.children, Prim("base"));
    if base.Some? { FineReadPointer(ok, base.value); }
  }

  lemma {:induction false} FineReadOptions(ok: Edge -> bool, es: seq<Edge>)
    requires AllRows(ok, es)
    ensures FineOptions(ok, ReadOptions(es))
  {
    if es != [] {
      assert es[0] in es && AllRows(ok, es[1..]);
      FineReadOption(ok, es[0].right);
      FineReadOptions(ok, es[1..]);
    }
  }

  lemma FineRead(ok: Edge -> bool, h: Host, c: Cid)
    requires All(ok, c)
    ensures FineOptions(ok, ReadChoice(h, c).options) && FineEnds(ok, ReadChoice(h, c).base)
  {
    assert AllRows(ok, c.content.children);
    FineReadOptions(ok, c.content.children);
    AllLast(ok, c.content.children, Prim("base"));
    var base := Last(c.content.children, Prim("base"));
    if base.Some? { FineReadPointer(ok, base.value); }
  }

  lemma {:induction false} FoundOption(os: seq<ChoiceOption>, name: string)
    ensures FindOption(os, name).Some? ==> FindOption(os, name).value in os && FindOption(os, name).value.peerId == name
  {
    if os != [] && os[0].peerId != name { FoundOption(os[1..], name); }
  }

  lemma FinePointerRows(ok: Edge -> bool, e: Option<Edge>)
    requires OfChoices(ok) && FineEnds(ok, e)
    ensures AllRows(ok, PointerRows(e)) && All(ok, Pointer(e))
  {
    if e.Some? {
      FinePointer(ok, "instruction", e.value.left);
      FinePointer(ok, "target", e.value.right);
    }
    AllNode(ok, map[], PointerRows(e));
  }

  lemma FineOptionNode(ok: Edge -> bool, o: ChoiceOption)
    requires OfChoices(ok) && FineOption(ok, o)
    ensures All(ok, OptionNode(o))
  {
    FinePointerRows(ok, o.edge);
    FinePointerRows(ok, o.base);
    if o.requestMerge.Some? { FinePointer(ok, "approve", o.requestMerge.value); }
    FinePointer(ok, "base", Pointer(o.base));
    AllNode(ok, PointerData(o.peerId), OptionNode(o).content.children);
  }

  lemma {:induction false} InsertedIn(h: Host, c: Cid, cs: seq<Cid>)
    ensures forall x :: x in Insert(h, c, cs) <==> x == c || x in cs
  {
    if cs != [] { InsertedIn(h, c, cs[1..]); }
  }

  lemma {:induction false} SortedIn(h: Host, cs: seq<Cid>)
    ensures forall x :: x in Sort(h, cs) <==> x in cs
  {
    if cs != [] {
      SortedIn(h, cs[1..]);
      InsertedIn(h, cs[0], Sort(h, cs[1..]));
    }
  }

  lemma {:induction false} OptionNodesIn(os: seq<ChoiceOption>)
    ensures forall c :: c in OptionNodes(os) <==> exists o | o in os :: c == OptionNode(o)
  {
    if os != [] {
      OptionNodesIn(os[1..]);
      assert os == [os[0]] + os[1..];
    }
  }

  lemma {:induction false} AlternativesAre(cs: seq<Cid>)
    ensures forall e :: e in Alternatives(cs) <==> e.left == Prim("notSelected") && e.right in cs
  {
    if cs != [] { AlternativesAre(cs[1..]); }
  }

  /** The rows of a choice: the version it started from, and its options. */
  lemma ChoiceRowsAre(h: Host, base: Option<Edge>, os: seq<ChoiceOption>, e: Edge)
    ensures e in ChoiceRows(h, base, os)
            <==>
                e == Edge(Prim("base"), Pointer(base))
                || (e.left == Prim("notSelected") && exists o | o in os :: e.right == OptionNode(o))
  {
    SortedIn(h, OptionNodes(os));
    OptionNodesIn(os);
    AlternativesAre(Sort(h, OptionNodes(os)));
  }

  lemma FineChoice(ok: Edge -> bool, h: Host, base: Option<Edge>, os: seq<ChoiceOption>)
    requires OfChoices(ok) && FineEnds(ok, base) && FineOptions(ok, os)
    ensures AllRows(ok, ChoiceRows(h, base, os))
  {
    FinePointerRows(ok, base);
    FinePointer(ok, "base", Pointer(base));
    forall e | e in ChoiceRows(h, base, os) ensures Fine(ok, e) {
      ChoiceRowsAre(h, base, os, e);
      if o :| o in os && e == Edge(Prim("notSelected"), OptionNode(o)) {
        FineOptionNode(ok, o);
        FinePointer(ok, "notSelected", OptionNode(o));
      }
    }
  }

  lemma AllBranches(ok: Edge -> bool, h: Host, id: string, base: Option<Edge>, os: seq<ChoiceOption>, name: string)
    requires OfChoices(ok) && FineEnds(ok, base) && FineOptions(ok, os)
    ensures All(ok, PutBranches(h, id, base, os, name))
            && !Has(PutBranches(h, id, base, os, name).content.data, "conflict")
  {
    FineChoice(ok, h, base, os);
    AllNode(ok, PutBranches(h, id, base, os, name).content.data, ChoiceRows(h, base, os));
  }

  lemma AllChoice(ok: Edge -> bool, h: Host, id: string, base: Option<Edge>, os: seq<ChoiceOption>)
    requires OfChoices(ok) && FineEnds(ok, base) && FineOptions(ok, os)
    ensures All(ok, PutChoice(h, id, base, os))
  {
    FineChoice(ok, h, base, os);
    AllNode(ok, PutChoice(h, id, base, os).content.data, ChoiceRows(h, base, os));
  }

  /** An option's row and its request to merge are below the branches that hold it. */
  lemma OccursInBranches(h: Host, id: string, base: Option<Edge>, os: seq<ChoiceOption>, name: string, o: ChoiceOption,
      e: Edge)
    requires o in os && ((o.edge.Some? && Occurs(o.edge.value.right, e))
            || (o.requestMerge.Some? && Occurs(o.requestMerge.value, e)))
    ensures Occurs(PutBranches(h, id, base, os, name), e)
  {
    var node, row := OptionNode(o), Edge(Prim("notSelected"), OptionNode(o));
    ChoiceRowsAre(h, base, os, row);
    if o.edge.Some? && Occurs(o.edge.value.right, e) {
      var x := Edge(Prim("target"), o.edge.value.right);
      assert x in PointerRows(o.edge) && x in node.content.children;
      OccursUnder(node, x, e);
    } else {
      var x := Edge(Prim("approve"), o.requestMerge.value);
      assert x in [x] && x in node.content.children;
      OccursUnder(node, x, e);
    }
    OccursUnder(PutBranches(h, id, base, os, name), row, e);
  }

  // ---------------------------------------------------------------------------
  // Refs

  lemma AllEmpty(ok: Edge -> bool)
    ensures All(ok, Cid(EMPTY))
  {}

  lemma AllRef(ok: Edge -> bool, data: Data, value: Option<Cid>, rows: seq<Edge>)
    requires OfChoices(ok) && FineCid(ok, value) && AllRows(ok, rows)
    ensures All(ok, Cid(RefNode(data, value, rows)))
  {
    AllEmpty(ok);
    FinePointer(ok, "alias", Cid(EMPTY));
    if value.Some? { FinePointer(ok, "target", value.value); }
    AllNode(ok, data, RefNode(data, value, rows).children);
  }

  lemma AllStripped(ok: Edge -> bool, h: Host, c: Cid)
    requires All(ok, c)
    ensures All(ok, Cid(StripLink(h, c.content)))
  {
    assert AllRows(ok, c.content.children);
    AllFirst(ok, c.content.children, Prim("target"));
    AllFiltered(ok, h, Unbooked, c.content.children);
    AllNode(ok, c.content.data, Filter(h, Unbooked, c.content.children));
  }

  lemma AllAsRef(ok: Edge -> bool, h: Host, c: Cid)
    requires OfChoices(ok) && All(ok, c)
    ensures All(ok, Cid(AsRef(h, c.content))) && FineCid(ok, RefValue(AsRef(h, c.content)))
  {
    assert AllRows(ok, c.content.children);
    AllStripped(ok, h, c);
    AllFiltered(ok, h, Booked(IsRef(c.content)), c.content.children);
    var ref := AsRef(h, c.content);
    if !IsMutableRef(c.content) { AllRef(ok, ref.data, Some(Cid(StripLink(h, c.content))), Bookkeeping(h, c.content)); }
    assert AllRows(ok, ref.children);
    AllFirst(ok, ref.children, Prim("target"));
  }

  lemma AllSideValue(ok: Edge -> bool, h: Host, c: Cid)
    requires OfChoices(ok) && All(ok, c)
    ensures All(ok, SideValue(h, c.content))
  {
    AllAsRef(ok, h, c);
    AllStripped(ok, h, c);
  }

  lemma AllBook(ok: Edge -> bool, h: Host, ref: Content)
    requires All(ok, Cid(ref))
    ensures All(ok, Cid(Book(h, ref))) && AllRows(ok, PrevRows(h, ref))
  {
    assert AllRows(ok, ref.children);
    AllFiltered(ok, h, Booked(IsRef(ref)), ref.children);
    AllFiltered(ok, h, NotPrev, Bookkeeping(h, ref));
    AllFiltered(ok, h, Prev, ref.children);
    AllNode(ok, map[], Book(h, ref).children);
  }

  lemma OccursInRef(data: Data, value: Option<Cid>, rows: seq<Edge>, e: Edge)
    requires (value.Some? && Occurs(value.value, e)) || Occurs(Cid(Content(map[], rows)), e)
    ensures Occurs(Cid(RefNode(data, value, rows)), e)
  {
    var ref := Cid(RefNode(data, value, rows));
    if value.Some? && Occurs(value.value, e) {
      var x := Edge(Prim("target"), value.value);
      assert ref.content.children[0] == x;
      OccursUnder(ref, x, e);
    } else {
      var x :| x in rows && (x == e || Occurs(x.left, e) || Occurs(x.right, e));
      assert x in ref.content.children;
    }
  }
}
