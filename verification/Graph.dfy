/**
 * The content-addressed graph under the merge: nodes, edges, refs, choices and proposals.
 *
 * The hash is symbolic: the cid of a content is the term built from it, so different contents have different cids and
 * no node is below itself. `content(store, cid)` is then `cid.content`; which cids a store actually holds is the
 * business of `Store.FosStore`.
 */
module Graph {
  import opened Options
  import opened Json
  import opened Text

  datatype Cid = Cid(content: Content)
  datatype Content = Content(data: Data, children: seq<Edge>)
  datatype Edge = Edge(left: Cid, right: Cid)

  /**
   * What the code reads that the graph does not determine: the text of a cid (its order decides how alternatives are
   * sorted, and field identities are such texts), the identity a wrapped node is given when it has none, the text of a
   * proposal's name row, and whether a choice edge counts as a row (the reader's selected branch decides).
   */
  datatype Host = Host(text: Cid -> string, freshId: Content -> string, title: Cid -> string, choiceRow: Edge -> bool)

  ghost predicate Injective(h: Host) {
    forall a, b :: h.text(a) == h.text(b) ==> a == b
  }

  // ---------------------------------------------------------------------------
  // Heights

  function Max(a: nat, b: nat): nat { if a < b then b else a }

  function Height(c: Cid): nat {
    1 + RowsHeight(c.content.children)
  }

  function Size(a: Cid, b: Cid): nat { Height(a) + Height(b) }

  function EdgeHeight(e: Edge): nat {
    Max(Height(e.left), Height(e.right))
  }

  function RowsHeight(es: seq<Edge>): nat {
    if es == [] then 0 else Max(EdgeHeight(es[0]), RowsHeight(es[1..]))
  }

  lemma {:induction false} RowHeight(es: seq<Edge>, e: Edge)
    requires e in es
    ensures Height(e.left) <= RowsHeight(es)
    ensures Height(e.right) <= RowsHeight(es)
  {
    if es[0] != e { RowHeight(es[1..], e); }
  }

  lemma {:induction false} RowsHeightBound(es: seq<Edge>, bound: nat)
    requires forall e | e in es :: Height(e.left) <= bound && Height(e.right) <= bound
    ensures RowsHeight(es) <= bound
  {
    if es != [] {
      assert forall e | e in es[1..] :: e in es;
      RowsHeightBound(es[1..], bound);
    }
  }

  lemma RowsHeightSubset(es: seq<Edge>, whole: seq<Edge>)
    requires forall e | e in es :: e in whole
    ensures RowsHeight(es) <= RowsHeight(whole)
  {
    forall e | e in es ensures Height(e.left) <= RowsHeight(whole) && Height(e.right) <= RowsHeight(whole) {
      RowHeight(whole, e);
    }
    RowsHeightBound(es, RowsHeight(whole));
  }

  // ---------------------------------------------------------------------------
  // Primitives, identities, refs

  const EMPTY: Content := Content(map[], [])

  function Scalar(text: string): Cid {
    Cid(Content(map["scalar" := Obj(map["type" := Str("text"), "value" := Str(text)])], []))
  }

  /** The node host code reads as the primitive `name`: one row of two texts. */
  function Prim(name: string): Cid {
    Cid(Content(map[], [Edge(Scalar("primitive"), Scalar(name))]))
  }

  lemma PrimInjective(a: string, b: string)
    requires Prim(a) == Prim(b)
    ensures a == b
  {
    assert Prim(a).content.children[0].right == Prim(b).content.children[0].right;
    assert Scalar(a).content.data["scalar"].fields["value"] == Scalar(b).content.data["scalar"].fields["value"];
  }

  function AliasData(id: string): Json { Obj(map["id" := Str(id)]) }

  function AliasId(c: Content): Option<string> { MemberText(c.data, "alias", "id") }

  /** The right of the first (`First`) or last (`Last`) row whose left is `left`. */
  function First(es: seq<Edge>, left: Cid): Option<Cid> {
    if es == [] then None else if es[0].left == left then Some(es[0].right) else First(es[1..], left)
  }

  function Last(es: seq<Edge>, left: Cid): Option<Cid> {
    if es == [] then None
    else if es[|es| - 1].left == left then Some(es[|es| - 1].right)
    else Last(es[..|es| - 1], left)
  }

  predicate IsRef(c: Content) {
    exists e | e in c.children :: e.left == Prim("target") || e.left == Prim("alias")
  }

  predicate IsHandle(c: Content) { Has(c.data, "ref") }

  /** A mutable ref the merge merges by value: a ref node that does not stand for another row. */
  predicate IsMutableRef(c: Content) { IsRef(c) && !IsHandle(c) }

  function RefValue(c: Content): Option<Cid> { First(c.children, Prim("target")) }

  function RefNode(data: Data, value: Option<Cid>, rows: seq<Edge>): Content {
    Content(data, (if value.Some? then [Edge(Prim("target"), value.value)] else []) + [Edge(Prim("alias"), Cid(EMPTY))]
        + rows)
  }

  // ---------------------------------------------------------------------------
  // Rows and bookkeeping

  predicate IsPrev(e: Edge) { e.left == Prim("previous") }
  predicate IsProposal(e: Edge) { e.left == Prim("proposal") }
  predicate IsPeer(e: Edge) { e.left == Prim("member") }
  predicate IsChoice(e: Edge) { e.left == Prim("choice") }
  predicate IsBookkeeping(e: Edge) { IsPrev(e) || IsProposal(e) || IsPeer(e) }

  predicate IsMember(e: Edge) {
    Has(e.left.content.data, "peerId") && e.left.content.children == [] && Has(e.left.content.data, "alias")
        && !Has(e.left.content.data, "ref")
  }

  predicate IsPrimitive(c: Cid) {
    c.content.data == map[] && |c.content.children| == 1
    && Member(c.content.children[0].left.content.data, "scalar", "value") == Some(Str("primitive"))
    && Member(c.content.children[0].right.content.data, "scalar", "type") == Some(Str("text"))
    && MemberText(c.content.children[0].right.content.data, "scalar", "value").Some?
  }

  const POINTERS: set<string> := {"target", "instruction", "mergeSource", "base", "selected", "notSelected", "link"}

  /** A peer-held node not loaded here. */
  predicate IsPeerReference(c: Content) {
    match (Member(c.data, "ref", "peer"), Member(c.data, "ref", "version"), Member(c.data, "ref", "id"))
    case (Some(peer), Some(version), id) => Truthy(peer) && Truthy(version) && id == Member(c.data, "alias", "id")
    case _ => false
  }

  /** Whether an edge is a row of its node rather than a pointer, history or policy edge. */
  predicate IsRow(h: Host, e: Edge) {
    if IsMember(e) then false
    else if IsChoice(e) then h.choiceRow(e)
    else if !Has(e.right.content.data, "alias") && !IsRef(e.right.content)
        && !IsPeerReference(e.right.content) then false
    else if IsPrimitive(e.left) then
      !IsBookkeeping(e) && e.left != Prim("grants") && e.left != Prim("accepts")
          && (forall name | name in POINTERS :: e.left != Prim(name)) && Has(e.right.content.data, "alias")
    else true
  }

  function FieldId(h: Host, field: Cid): string {
    h.text(Cid(Content(map["name" := Obj(map["content" := Str("field")])], [Edge(field, field)])))
  }

  /** Whether the edge is one of its node's own fields: the right carries the identity derived from the left. */
  predicate IsFieldRow(h: Host, e: Edge) { AliasId(e.right.content) == Some(FieldId(h, e.left)) }

  /** Which rows of a node are wanted: its bookkeeping, what is not bookkeeping, its history, or what is not history. */
  datatype Sieve = Booked(ofRef: bool) | Unbooked | Prev | NotPrev | NotIn(rows: seq<Edge>)

  predicate Passes(h: Host, s: Sieve, e: Edge) {
    match s
    case Booked(ofRef) => IsBookkeeping(e) || (ofRef && (IsRow(h, e) || IsMember(e)))
    case Unbooked => !IsBookkeeping(e)
    case Prev => IsPrev(e)
    case NotPrev => !IsPrev(e)
    case NotIn(rows) => forall x | x in rows :: x.right != e.right
  }

  function Filter(h: Host, s: Sieve, es: seq<Edge>): seq<Edge> {
    if es == [] then [] else (if Passes(h, s, es[0]) then [es[0]] else []) + Filter(h, s, es[1..])
  }

  /** History, proposals and peers of a node, and a ref's own rows and memberships. */
  function Bookkeeping(h: Host, c: Content): seq<Edge> { Filter(h, Booked(IsRef(c)), c.children) }

  /** The content a node stands for: a ref's value (empty when it holds none), else the node without its bookkeeping. */
  function StripLink(h: Host, c: Content): Content {
    if IsMutableRef(c) then
      match RefValue(c) case Some(v) => v.content case None => EMPTY
    else Content(c.data, Filter(h, Unbooked, c.children))
  }

  /** The node as a ref whose value is its content. */
  function MakeLink(h: Host, c: Content): Content {
    if IsMutableRef(c) then c
    else
      var alias := if "alias" in c.data then c.data["alias"] else AliasData(h.freshId(c));
      RefNode(map["alias" := alias, "updated" := Obj(map["time" := Num(0.0)])], Some(Cid(StripLink(h, c))),
          Bookkeeping(h, c))
  }

  // ---------------------------------------------------------------------------
  // Proposals and keys

  datatype Proposal = Proposal(peerId: string, name: string, timestamp: real)

  function TimeOf(value: Option<Json>): real {
    match value
    case Some(Obj(fields)) => if "time" in fields && fields["time"].Num? then fields["time"].n else 0.0
    case _ => 0.0
  }

  function ReadProposal(h: Host, c: Cid): Option<Proposal> {
    var es := c.content.children;
    var peer := match Last(es, Prim("sender"))
      case Some(sender) => (match MemberText(sender.content.data, "peerId",
          "content") case Some(p) => p case None => "")
      case None => "";
    var name := match Last(es, Prim("proposalName")) case Some(n) => h.title(n) case None => "";
    if peer == "" || Last(es, Prim("proposed")).None? || Last(es, Prim("previous")).None? then None
    else Some(Proposal(peer, name, TimeOf(Get(c.content.data, "updated"))))
  }

  /** The identity of an edge inside its parent. The constructors stand for the prefixes `p:`, `a:` and `e:`. */
  datatype Key = Submission(name: string) | Alias(id: string) | Exact(edge: Edge)

  function KeyOf(h: Host, e: Edge): Key {
    if IsProposal(e) && ReadProposal(h, e.right).Some? then
      var p := ReadProposal(h, e.right).value;
      Submission(p.peerId + "/" + p.name)
    else if AliasId(e.right.content).Some? && AliasId(e.right.content).value != ""
        then Alias(AliasId(e.right.content).value)
    else Exact(e)
  }

  // ---------------------------------------------------------------------------
  // Choices

  datatype ChoiceOption = ChoiceOption(peerId: string, edge: Option<Edge>, base: Option<Edge>,
      requestMerge: Option<Cid>)
  datatype ChoiceRecord = ChoiceRecord(id: string, base: Option<Edge>, options: seq<ChoiceOption>,
      defaultName: Option<string>)

  predicate IsBranchChoice(c: Content) {
    Has(c.data, "option") && !Has(c.data, "conflict") && exists e | e in c.children :: e.left == Prim("notSelected")
  }

  function PointerData(peerId: string): Data {
    if peerId == "" then map[] else map["peerId" := Obj(map["content" := Str(peerId)])]
  }

  function PointerRows(edge: Option<Edge>): seq<Edge> {
    if edge.None? then [] else [Edge(Prim("instruction"), edge.value.left), Edge(Prim("target"), edge.value.right)]
  }

  function Pointer(edge: Option<Edge>): Cid { Cid(Content(map[], PointerRows(edge))) }

  function ReadPointer(c: Cid): Option<Edge> {
    match (Last(c.content.children, Prim("instruction")), Last(c.content.children, Prim("target")))
    case (Some(left), Some(right)) => Some(Edge(left, right))
    case _ => None
  }

  function OptionNode(o: ChoiceOption): Cid {
    Cid(Content(PointerData(o.peerId),
      PointerRows(o.edge)
      + (if o.requestMerge.Some? then [Edge(Prim("approve"), o.requestMerge.value)] else [])
      + (if o.base.Some? then [Edge(Prim("base"), Pointer(o.base))] else [])))
  }

  function ReadOption(c: Cid): ChoiceOption {
    var peer := match MemberText(c.content.data, "peerId", "content") case Some(p) => p case None => "unknown";
    ChoiceOption(peer, ReadPointer(c),
      (match First(c.content.children, Prim("base")) case Some(b) => ReadPointer(b) case None => None),
      First(c.content.children, Prim("approve")))
  }

  /** Insertion keeps equal texts in the order they came, as a stable sort does. */
  function Insert(h: Host, c: Cid, sorted: seq<Cid>): seq<Cid> {
    if sorted == [] || !Before(h.text(sorted[0]), h.text(c)) then [c] + sorted
        else [sorted[0]] + Insert(h, c, sorted[1..])
  }

  function Sort(h: Host, cs: seq<Cid>): seq<Cid> {
    if cs == [] then [] else Insert(h, cs[0], Sort(h, cs[1..]))
  }

  function OptionNodes(os: seq<ChoiceOption>): seq<Cid> {
    if os == [] then [] else [OptionNode(os[0])] + OptionNodes(os[1..])
  }

  function Alternatives(cs: seq<Cid>): seq<Edge> {
    if cs == [] then [] else [Edge(Prim("notSelected"), cs[0])] + Alternatives(cs[1..])
  }

  function ChoiceRows(h: Host, base: Option<Edge>, options: seq<ChoiceOption>): seq<Edge> {
    [Edge(Prim("base"), Pointer(base))] + Alternatives(Sort(h, OptionNodes(options)))
  }

  function OptionData(selected: real): Json {
    Obj(map["selectedIndex" := Num(selected), "defaultResolutionStrategy" := Str("choice")])
  }

  /** A conflict: a choice nobody has resolved. */
  function PutChoice(h: Host, id: string, base: Option<Edge>, options: seq<ChoiceOption>): Cid {
    Cid(Content(map["alias" := AliasData(id), "conflict" := Obj(map["path" := Str(id)]), "option" := OptionData(0.0)],
      ChoiceRows(h, base, options)))
  }

  function ReadOptions(es: seq<Edge>): seq<ChoiceOption> {
    if es == [] then []
    else (if es[0].left == Prim("notSelected") then [ReadOption(es[0].right)] else []) + ReadOptions(es[1..])
  }

  function SelectedIndex(c: Content): real {
    match Member(c.data, "option", "selectedIndex") case Some(Num(n)) => n case _ => 0.0
  }

  function NameAt(options: seq<ChoiceOption>, index: real): Option<string> {
    if index.Floor as real == index && 0 <= index.Floor < |options| then Some(options[index.Floor].peerId) else None
  }

  function ReadChoice(h: Host, c: Cid): ChoiceRecord {
    var options := ReadOptions(c.content.children);
    ChoiceRecord(
      (match AliasId(c.content) case Some(id) => id case None => h.text(c)),
      (match Last(c.content.children, Prim("base")) case Some(b) => ReadPointer(b) case None => None),
      options, NameAt(options, SelectedIndex(c.content)))
  }

  function FindOption(options: seq<ChoiceOption>, name: string): Option<ChoiceOption> {
    if options == [] then None else if options[0].peerId == name then Some(options[0])
        else FindOption(options[1..], name)
  }

  function IndexOfName(options: seq<ChoiceOption>, name: string): nat {
    if options == [] || options[0].peerId == name then 0 else 1 + IndexOfName(options[1..], name)
  }

  /** Editable alternatives: a choice without the conflict mark, one of whose options is the default (none when ''). */
  function PutBranches(h: Host, id: string, base: Option<Edge>, options: seq<ChoiceOption>,
      defaultName: string): (r: Cid)
    ensures AliasId(r.content) == Some(id)
  {
    var read := ReadOptions(ChoiceRows(h, base, options));
    var found := IndexOfName(read, defaultName);
    var selected := if defaultName == "" then -1.0 else if found < |read| then found as real else 0.0;
    Cid(Content(map["alias" := AliasData(id), "option" := OptionData(selected)], ChoiceRows(h, base, options)))
  }
}
