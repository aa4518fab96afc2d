/**
 * The three-way merge as functions on contents. `MergeStore` runs the same steps over a store, in place; the laws of
 * the merge are proved here and in `MergeLaws` about these functions.
 */
module Merge {
  import opened Options
  import opened Json
  import opened Text
  import opened Graph
  import Order

  datatype Labels = Labels(ours: string, theirs: string)

  /** A merged node, a conflict for the parent to keep as a choice, or an exception (a typed value without identity). */
  datatype Outcome = Merged(cid: Cid) | Conflict | Thrown

  /** `raised`: the choices created on the way, in order, whether or not the outcome still holds them. */
  datatype NodeResult = NodeResult(outcome: Outcome, raised: seq<Cid>)

  datatype Rows = Rows(edges: seq<Edge>) | RowsConflict | RowsThrown
  datatype RowsResult = RowsResult(rows: Rows, raised: seq<Cid>)

  // ---------------------------------------------------------------------------
  // Data

  function LargerTime(a: real, b: real): real { if a < b then b else a }

  function MergedTime(base: Data, ours: Data, theirs: Data): real {
    LargerTime(LargerTime(TimeOf(Get(ours, "updated")), TimeOf(Get(theirs, "updated"))), TimeOf(Get(base, "updated")))
  }

  /** Both sides changed the field, differently. */
  predicate FieldConflict(base: Data, ours: Data, theirs: Data, key: string) {
    && key != "updated"
    && Get(ours, key) != Get(theirs, key)
    && Get(base, key) != Get(ours, key)
    && Get(base, key) != Get(theirs, key)
  }

  /** The merged value of one field other than `updated`; theirs where both sides changed it. */
  function MergedField(base: Data, ours: Data, theirs: Data, key: string): Option<Json> {
    if Get(ours, key) == Get(theirs, key) then Get(ours, key)
    else if Get(base, key) == Get(ours, key) then Get(theirs, key)
    else if Get(base, key) == Get(theirs, key) then Get(ours, key)
    else Get(theirs, key)
  }

  function MergedData(base: Data, ours: Data, theirs: Data): Data {
    var fields := map key | key in ours.Keys + theirs.Keys && key != "updated"
        && MergedField(base, ours, theirs, key).Some?
                    :: MergedField(base, ours, theirs, key).value;
    var time := MergedTime(base, ours, theirs);
    if time > 0.0 then fields["updated" := Obj(map["time" := Num(time)])] else fields
  }

  lemma MergedFieldSide(base: Data, ours: Data, theirs: Data, key: string)
    requires key != "updated"
    ensures Get(MergedData(base, ours, theirs), key) == MergedField(base, ours, theirs, key)
    ensures MergedField(base, ours, theirs, key) == Get(ours, key)
            || MergedField(base, ours, theirs, key) == Get(theirs, key)
  {}

  lemma MergedAlias(base: Data, ours: Data, theirs: Data)
    ensures var id := MemberText(ours, "alias", "id");
            id.Some? && MemberText(theirs, "alias", "id") == id
            ==> MemberText(MergedData(base, ours, theirs), "alias", "id") == id
  {
    MergedFieldSide(base, ours, theirs, "alias");
  }

  function MergeData(base: Data, ours: Data, theirs: Data, theirsWins: bool): Option<Data> {
    if !theirsWins && exists key | key in base.Keys + ours.Keys + theirs.Keys :: FieldConflict(base, ours, theirs, key)
        then None
    else Some(MergedData(base, ours, theirs))
  }

  // ---------------------------------------------------------------------------
  // Children by key

  /** The keys of a node's rows, each where it first occurs. */
  function KeysOf(h: Host, es: seq<Edge>): seq<Key> {
    if es == [] then []
    else
      var before, key := KeysOf(h, es[..|es| - 1]), KeyOf(h, es[|es| - 1]);
      if key in before then before else before + [key]
  }

  /** The row each key stands for: the last one carrying it. */
  function RowsByKey(h: Host, es: seq<Edge>): map<Key, Edge> {
    if es == [] then map[]
    else RowsByKey(h, es[..|es| - 1])[KeyOf(h, es[|es| - 1]) := es[|es| - 1]]
  }

  function At(m: map<Key, Edge>, key: Key): Option<Edge> {
    if key in m then Some(m[key]) else None
  }

  lemma {:induction false} RowsByKeyShape(h: Host, es: seq<Edge>)
    ensures forall key | key in RowsByKey(h, es) ::
            RowsByKey(h, es)[key] in es && KeyOf(h, RowsByKey(h, es)[key]) == key
    ensures forall e | e in es :: KeyOf(h, e) in RowsByKey(h, es)
    ensures forall key :: key in KeysOf(h, es) <==> key in RowsByKey(h, es)
    ensures Order.Distinct(KeysOf(h, es))
  {
    if es != [] {
      RowsByKeyShape(h, es[..|es| - 1]);
      assert es == es[..|es| - 1] + [es[|es| - 1]];
    }
  }

  /** The identity a choice over `key` takes: the row's own for a row with one, else the whole key text. */
  function ChoiceId(h: Host, key: Key): string {
    match key
    case Alias(id) => id
    case Submission(name) => "p:" + name
    case Exact(e) => "e:" + h.text(e.left) + ":" + h.text(e.right)
  }

  function Timestamp(h: Host, e: Edge): real {
    match ReadProposal(h, e.right) case Some(p) => p.timestamp case None => 0.0
  }

  /** A row the merge may look inside: not a choice, unless an editable branch choice. */
  predicate Mergeable(e: Edge) { !IsChoice(e) || IsBranchChoice(e.right.content) }

  /** The version of `b` both sides started from, when it is of use as a merge base for `o`. */
  function BaseOf(b: Option<Edge>, o: Edge): Option<Cid> {
    if b.Some? && b.value.left == o.left && Mergeable(b.value) then Some(b.value.right) else None
  }

  function BaseContent(base: Option<Cid>): Content {
    if base.Some? then base.value.content else EMPTY
  }

  function SideOptions(o: Option<Edge>, t: Option<Edge>, labels: Labels): seq<ChoiceOption> {
    [ChoiceOption(labels.ours, o, None, None), ChoiceOption(labels.theirs, t, None, None)]
  }

  /** Both versions of `key`, as a choice for its reader. */
  function ChoiceOver(h: Host, key: Key, b: Option<Edge>, o: Option<Edge>, t: Option<Edge>, labels: Labels): Cid {
    PutChoice(h, ChoiceId(h, key), if b.Some? && Mergeable(b.value) then b else None, SideOptions(o, t, labels))
  }

  /** Heights of the rows both sides hold under one key add up to less than `bound`. */
  ghost predicate Below(om: map<Key, Edge>, tm: map<Key, Edge>, bound: nat) {
    forall key | key in om && key in tm :: Height(om[key].right) + Height(tm[key].right) < bound
  }

  lemma ChildrenBelow(h: Host, ours: Content, theirs: Content)
    ensures Below(RowsByKey(h, ours.children), RowsByKey(h, theirs.children), Size(Cid(ours), Cid(theirs)))
  {
    RowsByKeyShape(h, ours.children);
    RowsByKeyShape(h, theirs.children);
    var om, tm := RowsByKey(h, ours.children), RowsByKey(h, theirs.children);
    forall key | key in om && key in tm
      ensures Height(om[key].right) + Height(tm[key].right) < Size(Cid(ours), Cid(theirs))
    {
      RowHeight(ours.children, om[key]);
      RowHeight(theirs.children, tm[key]);
    }
  }

  function AllKeys(h: Host, base: Content, ours: Content, theirs: Content): seq<Key> {
    Order.OrderedKeys(KeysOf(h, ours.children), KeysOf(h, theirs.children), KeysOf(h, base.children))
  }

  function MergeChildren(h: Host, base: Content, ours: Content, theirs: Content, labels: Labels): RowsResult
    decreases Height(Cid(ours)) + Height(Cid(theirs)), 2, 0
  {
    ChildrenBelow(h, ours, theirs);
    MergeKeys(h, AllKeys(h, base, ours, theirs), RowsByKey(h, base.children), RowsByKey(h, ours.children),
      RowsByKey(h, theirs.children), labels, Size(Cid(ours), Cid(theirs)))
  }

  function MergeKeys(h: Host, keys: seq<Key>, bm: map<Key, Edge>, om: map<Key, Edge>, tm: map<Key, Edge>,
      labels: Labels, ghost bound: nat): RowsResult
    requires Below(om, tm, bound)
    decreases bound, 1, |keys|
  {
    if keys == [] then RowsResult(Rows([]), [])
    else
      var first := MergeKey(h, keys[0], At(bm, keys[0]), At(om, keys[0]), At(tm, keys[0]), labels, bound);
      if !first.rows.Rows? then first
      else
        var rest := MergeKeys(h, keys[1..], bm, om, tm, labels, bound);
        RowsResult(if rest.rows.Rows? then Rows(first.rows.edges + rest.rows.edges) else rest.rows,
            first.raised + rest.raised)
  }

  function Kept(e: Option<Edge>): RowsResult { RowsResult(Rows(if e.Some? then [e.value] else []), []) }

  /** Both sides hold the row as one the merge looks inside. */
  predicate Descends(o: Option<Edge>, t: Option<Edge>) {
    o.Some? && t.Some? && o.value.left == t.value.left && Mergeable(o.value)
  }

  /** One key: its row on one side, the merge of both, or a choice over them. */
  function MergeKey(h: Host, key: Key, b: Option<Edge>, o: Option<Edge>, t: Option<Edge>, labels: Labels,
      ghost bound: nat): RowsResult
    requires o.Some? && t.Some? ==> Height(o.value.right) + Height(t.value.right) < bound
    decreases bound, 0, 1
  {
    if o == t then Kept(o)
    else if b == o then Kept(t)
    else if b == t then Kept(o)
    else if key.Submission? && o.Some? && t.Some? then
      Kept(if Timestamp(h, t.value) > Timestamp(h, o.value) then t else o)
    else if Descends(o, t) then
      var merged := MergeNode(h, BaseOf(b, o.value), o.value.right, t.value.right, labels, false,
          IsFieldRow(h, o.value));
      match merged.outcome
      case Merged(cid) => RowsResult(Rows([Edge(o.value.left, cid)]), merged.raised)
      case Thrown => RowsResult(RowsThrown, merged.raised)
      case Conflict => Divide(h, key, b, o, t, labels, merged.raised)
    else Divide(h, key, b, o, t, labels, [])
  }

  /**
   * The two versions cannot be one: the node itself conflicts when the row is its own field, else they become a choice.
   */
  function Divide(h: Host, key: Key, b: Option<Edge>, o: Option<Edge>, t: Option<Edge>, labels: Labels,
      raised: seq<Cid>): RowsResult {
    if (o.Some? && IsFieldRow(h, o.value)) || (t.Some? && IsFieldRow(h, t.value)) then RowsResult(RowsConflict, raised)
    else
      var choice := ChoiceOver(h, key, b, o, t, labels);
      RowsResult(Rows([Edge(Prim("choice"), choice)]), raised + [choice])
  }

  // ---------------------------------------------------------------------------
  // Nodes

  /** The node both sides hold, when at most one of them changed it. */
  function Unchanged(base: Option<Cid>, ours: Cid, theirs: Cid): Option<Cid> {
    if ours == theirs then Some(ours)
    else if base == Some(ours) then Some(theirs)
    else if base == Some(theirs) then Some(ours)
    else None
  }

  /** Two versions of one identity merge to that identity. */
  predicate KeepsIdentity(ours: Cid, theirs: Cid, r: NodeResult) {
    AliasId(ours.content).Some? && AliasId(ours.content) == AliasId(theirs.content) && r.outcome.Merged?
    ==> AliasId(r.outcome.cid.content) == AliasId(ours.content)
  }

  function MergeNode(h: Host, base: Option<Cid>, ours: Cid, theirs: Cid, labels: Labels, isTop: bool,
      field: bool): (r: NodeResult)
    ensures KeepsIdentity(ours, theirs, r)
    decreases Height(ours) + Height(theirs), 4, 0
  {
    if Unchanged(base, ours, theirs).Some? then NodeResult(Merged(Unchanged(base, ours, theirs).value), [])
    else if OneBranched(h, ours, theirs) then
      MergeLifted(h, base, ours, theirs, labels)
    else if IsBranchChoice(ours.content) && IsBranchChoice(theirs.content) then
      BranchesBelow(h, ours, theirs);
      MergeBranches(h, base, ours, theirs, labels, Size(ours, theirs))
    else if IsMutableRef(ours.content) || IsMutableRef(theirs.content) then
      MergeRefs(h, base, ours, theirs, labels, isTop, field)
    else
      MergePlain(h, base, ours, theirs, labels, isTop)
  }

  function MergePlain(h: Host, base: Option<Cid>, ours: Cid, theirs: Cid, labels: Labels, isTop: bool): (r: NodeResult)
    ensures KeepsIdentity(ours, theirs, r)
    decreases Height(ours) + Height(theirs), 3, 0
  {
    MergedAlias(BaseContent(base).data, ours.content.data, theirs.content.data);
    var b := BaseContent(base);
    var data := MergeData(b.data, ours.content.data, theirs.content.data, isTop);
    if data.None? then NodeResult(Conflict, [])
    else
      var children := MergeChildren(h, b, ours.content, theirs.content, labels);
      NodeResult(FromRows(children.rows, data.value), children.raised)
  }

  function FromRows(rows: Rows, data: Data): Outcome {
    match rows
    case Rows(edges) => Merged(Cid(Content(data, edges)))
    case RowsConflict => Conflict
    case RowsThrown => Thrown
  }

  function MergeNodes(h: Host, base: Option<Cid>, ours: Cid, theirs: Cid, labels: Labels): NodeResult {
    MergeNode(h, base, ours, theirs, labels, true, false)
  }

  // ---------------------------------------------------------------------------
  // Branch choices

  /** The option a plain node stands for beside the branch choice on the other side: the default's, else the first. */
  function MainOf(h: Host, ours: Cid, theirs: Cid): Option<ChoiceOption> {
    var choice := ReadChoice(h, if IsBranchChoice(ours.content) then ours else theirs);
    var main := if choice.defaultName.Some? && FindOption(choice.options, choice.defaultName.value).Some?
                then FindOption(choice.options, choice.defaultName.value)
                else if choice.options == [] then None else Some(choice.options[0]);
    if main.Some? && main.value.edge.Some? then main else None
  }

  function OrMain(name: Option<string>): string { if name.Some? then name.value else "main" }

  /** A plain node as the branch choice whose one option is `main` holding it. */
  function Lift(h: Host, choice: ChoiceRecord, main: ChoiceOption, cid: Cid): Cid
    requires main.edge.Some?
  {
    PutBranches(h, choice.id, choice.base, [ChoiceOption(main.peerId, Some(Edge(main.edge.value.left, cid)), None,
        None)], OrMain(choice.defaultName))
  }

  predicate OneBranched(h: Host, ours: Cid, theirs: Cid) {
    IsBranchChoice(ours.content) != IsBranchChoice(theirs.content) && MainOf(h, ours, theirs).Some?
  }

  /** `cid` beside the branched side: itself when it is branched, else lifted into that side's default branch. */
  function Lifted(h: Host, ours: Cid, theirs: Cid, cid: Cid): Cid
    requires OneBranched(h, ours, theirs)
  {
    if IsBranchChoice(cid.content) then cid
    else Lift(h, ReadChoice(h, if IsBranchChoice(ours.content) then ours else theirs), MainOf(h, ours, theirs).value,
        cid)
  }

  function LiftedBase(h: Host, base: Option<Cid>, ours: Cid, theirs: Cid): Option<Cid>
    requires OneBranched(h, ours, theirs)
  {
    if base.Some? then Some(Lifted(h, ours, theirs, base.value)) else None
  }

  function MergeLifted(h: Host, base: Option<Cid>, ours: Cid, theirs: Cid, labels: Labels): (r: NodeResult)
    requires OneBranched(h, ours, theirs)
    ensures KeepsIdentity(ours, theirs, r)
    decreases Height(ours) + Height(theirs), 3, 1
  {
    LiftedBelow(h, ours, theirs);
    LiftedIdentity(h, ours, theirs);
    MergeAgain(h, LiftedBase(h, base, ours, theirs), Lifted(h, ours, theirs, ours), Lifted(h, ours, theirs, theirs),
        labels, Size(ours, theirs))
  }

  lemma LiftedIdentity(h: Host, ours: Cid, theirs: Cid)
    requires OneBranched(h, ours, theirs)
    ensures AliasId(ours.content).Some? && AliasId(ours.content) == AliasId(theirs.content)
            ==> AliasId(Lifted(h, ours, theirs, ours).content) == AliasId(ours.content)
                == AliasId(Lifted(h, ours, theirs, theirs).content)
  {}

  /** The merge of two branched nodes, begun anew. */
  function MergeAgain(h: Host, base: Option<Cid>, ours: Cid, theirs: Cid, labels: Labels,
      ghost bound: nat): (r: NodeResult)
    requires ChoiceTop(h, ours) + ChoiceTop(h, theirs) < bound
    ensures KeepsIdentity(ours, theirs, r)
    decreases bound, 3, 0
  {
    if Unchanged(base, ours, theirs).Some? then NodeResult(Merged(Unchanged(base, ours, theirs).value), [])
    else MergeBranches(h, base, ours, theirs, labels, bound)
  }

  /** The greatest height of what the options hold and request. */
  function OptionTop(o: ChoiceOption): nat {
    Max(if o.edge.Some? then Height(o.edge.value.right) else 0,
        if o.requestMerge.Some? then Height(o.requestMerge.value) else 0)
  }

  function Top(os: seq<ChoiceOption>): nat {
    if os == [] then 0 else Max(OptionTop(os[0]), Top(os[1..]))
  }

  function ChoiceTop(h: Host, choice: Cid): nat { Top(ReadChoice(h, choice).options) }

  lemma {:induction false} TopCovers(os: seq<ChoiceOption>, name: string)
    ensures FindOption(os, name).Some? ==> OptionTop(FindOption(os, name).value) <= Top(os)
  {
    if os != [] && os[0].peerId != name { TopCovers(os[1..], name); }
  }

  function NamesOf(os: seq<ChoiceOption>, seen: seq<string>): seq<string> {
    if os == [] then seen
    else NamesOf(os[1..], if os[0].peerId in seen then seen else seen + [os[0].peerId])
  }

  datatype OptionsResult = OptionsResult(options: seq<ChoiceOption>, failed: Outcome, raised: seq<Cid>)

  function MergeBranches(h: Host, base: Option<Cid>, ours: Cid, theirs: Cid, labels: Labels,
      ghost bound: nat): (r: NodeResult)
    requires ChoiceTop(h, ours) + ChoiceTop(h, theirs) < bound
    ensures KeepsIdentity(ours, theirs, r)
    decreases bound, 2, 0
  {
    var o, t := ReadChoice(h, ours), ReadChoice(h, theirs);
    var b := if base.Some? && IsBranchChoice(base.value.content) then Some(ReadChoice(h, base.value)) else None;
    var merged := MergeOptions(h, NamesOf(o.options + t.options, []), if b.Some? then b.value.options else [],
        o.options, t.options, labels, bound);
    if !merged.failed.Merged? then NodeResult(merged.failed, merged.raised)
    else
      NodeResult(Merged(PutBranches(h, o.id,
        if b.Some? && b.value.base.Some? then b.value.base else o.base, merged.options,
        OrMain(if b.Some? && b.value.defaultName.Some? then b.value.defaultName else o.defaultName))), merged.raised)
  }

  /** `failed` is a conflict or an exception when some option could not be merged; else any merged node. */
  function MergeOptions(h: Host, names: seq<string>, bs: seq<ChoiceOption>, os: seq<ChoiceOption>,
      ts: seq<ChoiceOption>, labels: Labels, ghost bound: nat): OptionsResult
    requires Top(os) + Top(ts) < bound
    decreases bound, 1, |names|
  {
    if names == [] then OptionsResult([], Merged(Cid(EMPTY)), [])
    else
      var first := MergeOption(h, names[0], FindOption(bs, names[0]), FindOption(os, names[0]),
          FindOption(ts, names[0]), labels, os, ts, bound);
      if !first.failed.Merged? then first
      else
        var rest := MergeOptions(h, names[1..], bs, os, ts, labels, bound);
        OptionsResult(first.options + rest.options, rest.failed, first.raised + rest.raised)
  }

  function OptionEdge(o: Option<ChoiceOption>): Option<Edge> { if o.Some? then o.value.edge else None }
  function OptionRequest(o: Option<ChoiceOption>): Option<Cid> { if o.Some? then o.value.requestMerge else None }

  function MergeOption(h: Host, name: string, b: Option<ChoiceOption>, o: Option<ChoiceOption>, t: Option<ChoiceOption>,
      labels: Labels,
      ghost os: seq<ChoiceOption>, ghost ts: seq<ChoiceOption>, ghost bound: nat): OptionsResult
    requires Top(os) + Top(ts) < bound
    requires o == FindOption(os, name) && t == FindOption(ts, name)
    decreases bound, 0, 1
  {
    var oe, te := OptionEdge(o), OptionEdge(t);
    if oe.None? || te.None? then
      var edge := if oe.Some? then oe else te;
      OptionsResult(if edge.Some? then [(if o.Some? then o.value else t.value).(peerId := name, edge := edge)] else [],
          Merged(Cid(EMPTY)), [])
    else if oe.value.left != te.value.left then OptionsResult([], Conflict, [])
    else
      TopCovers(os, name);
      TopCovers(ts, name);
      var be := OptionEdge(b);
      var merged := MergeNode(h, if be.Some? then Some(be.value.right) else None, oe.value.right, te.value.right,
          labels, false, false);
      if !merged.outcome.Merged? then OptionsResult([], merged.outcome, merged.raised)
      else
        var request := MergeRequest(h, OptionRequest(b), o.value.requestMerge, t.value.requestMerge, labels, bound);
        if !request.failed.Merged? then OptionsResult([], request.failed, merged.raised + request.raised)
        else OptionsResult([o.value.(peerId := name, edge := Some(Edge(oe.value.left, merged.outcome.cid)),
            requestMerge := request.request)],
               Merged(Cid(EMPTY)), merged.raised + request.raised)
  }

  datatype RequestResult = RequestResult(request: Option<Cid>, failed: Outcome, raised: seq<Cid>)

  function MergeRequest(h: Host, b: Option<Cid>, o: Option<Cid>, t: Option<Cid>, labels: Labels,
      ghost bound: nat): RequestResult
    requires o.Some? && t.Some? ==> Height(o.value) + Height(t.value) < bound
    decreases bound, 0, 0
  {
    if o == b then RequestResult(t, Merged(Cid(EMPTY)), [])
    else if t == b || o == t then RequestResult(o, Merged(Cid(EMPTY)), [])
    else if o.None? || t.None? then RequestResult(None, Conflict, [])
    else
      var merged := MergeNode(h, b, o.value, t.value, labels, false, false);
      if merged.outcome.Merged? then RequestResult(Some(merged.outcome.cid), Merged(Cid(EMPTY)), merged.raised)
      else RequestResult(None, merged.outcome, merged.raised)
  }

  // Heights of what a choice holds.

  lemma {:induction false} FirstHeight(es: seq<Edge>, left: Cid)
    ensures First(es, left).Some? ==> Height(First(es, left).value) <= RowsHeight(es)
  {
    if es != [] && es[0].left != left { FirstHeight(es[1..], left); }
  }

  lemma {:induction false} LastHeight(es: seq<Edge>, left: Cid)
    ensures Last(es, left).Some? ==> Height(Last(es, left).value) <= RowsHeight(es)
  {
    if es != [] {
      var init := es[..|es| - 1];
      RowHeight(es, es[|es| - 1]);
      LastHeight(init, left);
      assert forall e | e in init :: e in es;
      RowsHeightSubset(init, es);
    }
  }

  lemma OptionHeight(c: Cid)
    ensures OptionTop(ReadOption(c)) < Height(c)
  {
    LastHeight(c.content.children, Prim("target"));
    FirstHeight(c.content.children, Prim("approve"));
  }

  lemma {:induction false} OptionsHeight(es: seq<Edge>)
    ensures Top(ReadOptions(es)) <= RowsHeight(es)
  {
    if es != [] {
      OptionHeight(es[0].right);
      OptionsHeight(es[1..]);
      var rest := ReadOptions(es[1..]);
      assert ReadOptions(es) == if es[0].left == Prim("notSelected") then [ReadOption(es[0].right)] + rest else rest;
      TopHead(ReadOption(es[0].right), rest);
    }
  }

  lemma TopHead(o: ChoiceOption, os: seq<ChoiceOption>)
    ensures Top([o] + os) == Max(OptionTop(o), Top(os))
  {
    assert ([o] + os)[1..] == os;
  }

  lemma ChoiceHeight(h: Host, c: Cid)
    ensures ChoiceTop(h, c) < Height(c)
  {
    OptionsHeight(c.content.children);
  }

  lemma BranchesBelow(h: Host, ours: Cid, theirs: Cid)
    ensures ChoiceTop(h, ours) + ChoiceTop(h, theirs) < Size(ours, theirs)
  {
    ChoiceHeight(h, ours);
    ChoiceHeight(h, theirs);
  }

  lemma LiftOptions(h: Host, choice: ChoiceRecord, main: ChoiceOption, cid: Cid)
    requires main.edge.Some?
    ensures IsBranchChoice(Lift(h, choice, main, cid).content)
    ensures var name := if main.peerId == "" then "unknown" else main.peerId;
            ReadChoice(h, Lift(h, choice, main, cid)).options
                == [ChoiceOption(name, Some(Edge(main.edge.value.left, cid)), None, None)]
  {
    var option := ChoiceOption(main.peerId, Some(Edge(main.edge.value.left, cid)), None, None);
    OneOption(h, choice.base, option);
    var lifted := Lift(h, choice, main, cid);
    assert lifted.content.children == ChoiceRows(h, choice.base, [option]);
    assert lifted.content.children[1].left == Prim("notSelected");
  }

  lemma LiftTop(h: Host, choice: ChoiceRecord, main: ChoiceOption, cid: Cid)
    requires main.edge.Some?
    ensures ChoiceTop(h, Lift(h, choice, main, cid)) == Height(cid)
  {
    LiftOptions(h, choice, main, cid);
    var options := ReadChoice(h, Lift(h, choice, main, cid)).options;
    assert options == [options[0]] + [];
    TopHead(options[0], []);
  }

  lemma PointerNames()
    ensures Prim("instruction") != Prim("target") && Prim("base") != Prim("notSelected")
            && Prim("approve") != Prim("base")
    ensures Prim("instruction") != Prim("base") && Prim("target") != Prim("base")
    ensures Prim("instruction") != Prim("approve") && Prim("target") != Prim("approve")
  {
    if Prim("instruction") == Prim("target") { PrimInjective("instruction", "target"); }
    if Prim("base") == Prim("notSelected") { PrimInjective("base", "notSelected"); }
    if Prim("approve") == Prim("base") { PrimInjective("approve", "base"); }
    if Prim("instruction") == Prim("base") { PrimInjective("instruction", "base"); }
    if Prim("target") == Prim("base") { PrimInjective("target", "base"); }
    if Prim("instruction") == Prim("approve") { PrimInjective("instruction", "approve"); }
    if Prim("target") == Prim("approve") { PrimInjective("target", "approve"); }
  }

  lemma PointerReads(rows: seq<Edge>, edge: Option<Edge>, more: seq<Edge>)
    requires rows == PointerRows(edge) + more
    requires forall e | e in more :: e.left != Prim("instruction") && e.left != Prim("target")
    requires |more| <= 2
    ensures Last(rows, Prim("instruction")) == if edge.Some? then Some(edge.value.left) else None
    ensures Last(rows, Prim("target")) == if edge.Some? then Some(edge.value.right) else None
  {
    PointerNames();
    if more != [] {
      assert rows[|rows| - 1] == more[|more| - 1];
      assert rows[..|rows| - 1] == PointerRows(edge) + more[..|more| - 1];
      PointerReads(rows[..|rows| - 1], edge, more[..|more| - 1]);
    } else if edge.Some? {
      assert rows[..1] == [Edge(Prim("instruction"), edge.value.left)];
      assert rows[..1][..0] == [];
    }
  }

  /** An option is read back as it was written, but that an empty name reads as unknown. */
  lemma OptionReads(o: ChoiceOption)
    ensures ReadOption(OptionNode(o)) == o.(peerId := if o.peerId == "" then "unknown" else o.peerId)
  {
    OptionFirsts(o);
    OptionPointer(o);
    BaseReads(o);
    OptionName(o);
  }

  lemma OptionName(o: ChoiceOption)
    ensures MemberText(PointerData(o.peerId), "peerId", "content") == if o.peerId == "" then None else Some(o.peerId)
  {}

  lemma OptionPointer(o: ChoiceOption)
    ensures OptionNode(o).content.children == PointerRows(o.edge) + (RequestRows(o) + BaseRows(o))
    ensures ReadPointer(OptionNode(o)) == o.edge
  {
    PointerNames();
    assert OptionNode(o).content.children == PointerRows(o.edge) + (RequestRows(o) + BaseRows(o));
    PointerReads(OptionNode(o).content.children, o.edge, RequestRows(o) + BaseRows(o));
  }

  lemma BaseReads(o: ChoiceOption)
    ensures o.base.Some? ==> ReadPointer(Pointer(o.base)) == o.base
  {
    PointerReads(PointerRows(o.base), o.base, []);
  }

  function RequestRows(o: ChoiceOption): seq<Edge> {
    if o.requestMerge.Some? then [Edge(Prim("approve"), o.requestMerge.value)] else []
  }
  function BaseRows(o: ChoiceOption): seq<Edge> { if o.base.Some? then [Edge(Prim("base"), Pointer(o.base))] else [] }

  lemma OptionFirsts(o: ChoiceOption)
    ensures First(PointerRows(o.edge) + (RequestRows(o) + BaseRows(o)), Prim("approve")) == o.requestMerge
    ensures First(PointerRows(o.edge) + (RequestRows(o) + BaseRows(o)), Prim("base")) == if o.base.Some?
            then Some(Pointer(o.base)) else None
  {
    PointerNames();
    FirstAfter(PointerRows(o.edge), RequestRows(o) + BaseRows(o), Prim("approve"));
    FirstAfter(PointerRows(o.edge), RequestRows(o) + BaseRows(o), Prim("base"));
    FirstAfter(RequestRows(o), BaseRows(o), Prim("base"));
    FirstAfter(RequestRows(o), BaseRows(o), Prim("approve"));
  }

  lemma {:induction false} FirstAfter(a: seq<Edge>, b: seq<Edge>, left: Cid)
    ensures First(a + b, left) == if First(a, left).Some? then First(a, left) else First(b, left)
  {
    if a == [] {
      assert a + b == b;
    } else {
      assert (a + b)[1..] == a[1..] + b;
      FirstAfter(a[1..], b, left);
    }
  }

  lemma OneOption(h: Host, base: Option<Edge>, o: ChoiceOption)
    ensures ChoiceRows(h, base, [o]) == [Edge(Prim("base"), Pointer(base)), Edge(Prim("notSelected"), OptionNode(o))]
    ensures ReadOptions(ChoiceRows(h, base, [o])) == [o.(peerId := if o.peerId == "" then "unknown" else o.peerId)]
  {
    PointerNames();
    OptionReads(o);
    var node := OptionNode(o);
    assert [o][1..] == [] && OptionNodes([o]) == [node];
    assert [node][1..] == [] && Sort(h, [node]) == [node];
    assert Alternatives([node]) == [Edge(Prim("notSelected"), node)];
    var rows := ChoiceRows(h, base, [o]);
    assert rows[1..] == [Edge(Prim("notSelected"), node)];
    assert rows[1..][1..] == [];
    assert ReadOptions(rows[1..]) == [ReadOption(node)];
  }

  lemma LiftedBelow(h: Host, ours: Cid, theirs: Cid)
    requires OneBranched(h, ours, theirs)
    ensures ChoiceTop(h, Lifted(h, ours, theirs, ours))
            + ChoiceTop(h, Lifted(h, ours, theirs, theirs)) < Size(ours, theirs)
  {
    var choice, main := ReadChoice(h, if IsBranchChoice(ours.content) then ours else theirs),
        MainOf(h, ours, theirs).value;
    if IsBranchChoice(ours.content) {
      ChoiceHeight(h, ours);
      LiftTop(h, choice, main, theirs);
    } else {
      ChoiceHeight(h, theirs);
      LiftTop(h, choice, main, ours);
    }
  }

  // ---------------------------------------------------------------------------
  // Mutable refs

  /** The side as a ref: itself, or a new ref holding it. */
  function AsRef(h: Host, c: Content): Content { MakeLink(h, c) }

  /** The node a side's value is merged as: what the ref holds, else the side without its bookkeeping. */
  function SideValue(h: Host, c: Content): Cid {
    match RefValue(AsRef(h, c)) case Some(v) => v case None => Cid(StripLink(h, c))
  }

  /** Members, proposals and peers of a ref, without its history. */
  function Book(h: Host, ref: Content): Content {
    Content(map[], Filter(h, NotPrev, Bookkeeping(h, ref)))
  }

  function NoData(): Content { EMPTY }

  function PrevRows(h: Host, ref: Content): seq<Edge> { Filter(h, Prev, ref.children) }

  /** Three supplied values, no two alike. */
  predicate ValuesConflict(b: Option<Cid>, o: Option<Cid>, t: Option<Cid>) { o != t && o != b && t != b }

  /** What the merge knows about the two refs and their base. */
  datatype RefSides = RefSides(b: Option<Content>, o: Content, t: Content, bv: Option<Cid>, ov: Option<Cid>,
      tv: Option<Cid>)

  function Sides(h: Host, base: Option<Cid>, ours: Cid, theirs: Cid): RefSides {
    var b := if base.Some? then Some(AsRef(h, base.value.content)) else None;
    var o, t := AsRef(h, ours.content), AsRef(h, theirs.content);
    RefSides(b, o, t, if b.Some? then RefValue(b.value) else None, RefValue(o), RefValue(t))
  }

  lemma SidesIdentity(h: Host, base: Option<Cid>, ours: Cid, theirs: Cid)
    ensures AliasId(ours.content).Some? ==> AliasId(Sides(h, base, ours, theirs).o) == AliasId(ours.content)
    ensures AliasId(theirs.content).Some? ==> AliasId(Sides(h, base, ours, theirs).t) == AliasId(theirs.content)
  {}

  predicate IsTyped(s: RefSides, field: bool) {
    field || Has(s.o.data, "name") || Has(s.t.data, "name") || (s.b.Some? && s.bv.None?)
  }

  function MergeRefs(h: Host, base: Option<Cid>, ours: Cid, theirs: Cid, labels: Labels, isTop: bool,
      field: bool): (r: NodeResult)
    requires IsMutableRef(ours.content) || IsMutableRef(theirs.content)
    ensures KeepsIdentity(ours, theirs, r)
    decreases Height(ours) + Height(theirs), 3, 0
  {
    var s := Sides(h, base, ours, theirs);
    SidesIdentity(h, base, ours, theirs);
    if field && ValuesConflict(s.bv, s.ov, s.tv) then NodeResult(Conflict, [])
    else
      var value := if IsTyped(s, field) then MergeTyped(h, s) else MergeValues(h, s, ours, theirs, labels, isTop);
      if !value.failed.Merged? then NodeResult(value.failed, value.raised)
      else
        BooksBelow(h, ours.content, theirs.content);
        var book := MergeChildren(h, if s.b.Some? then Book(h, s.b.value) else NoData(), Book(h, s.o), Book(h, s.t),
            labels);
        NodeResult(if book.rows.RowsThrown? then Thrown
            else Merged(MergedRef(h, s, ours, theirs, value.request, book.rows)), value.raised + book.raised)
  }

  /**
   * Values of refs without a declared type merge as nodes; a conflict inside is the row's, but the top node keeps ours.
   */
  function MergeValues(h: Host, s: RefSides, ours: Cid, theirs: Cid, labels: Labels, isTop: bool): RequestResult
    requires IsMutableRef(ours.content) || IsMutableRef(theirs.content)
    decreases Height(ours) + Height(theirs), 2, 0
  {
    ValuesBelow(h, ours.content, theirs.content);
    var o := SideValue(h, ours.content);
    var merged := MergeNode(h, s.bv, o, SideValue(h, theirs.content), labels, true, false);
    match merged.outcome
    case Merged(cid) => RequestResult(Some(cid), Merged(Cid(EMPTY)), merged.raised)
    case Conflict => if isTop then RequestResult(Some(o), Merged(Cid(EMPTY)), merged.raised)
        else RequestResult(None, Conflict, merged.raised)
    case Thrown => RequestResult(None, Thrown, merged.raised)
  }

  /** A typed value is taken whole from the side that changed it; two changes become the ref's value branches. */
  function MergeTyped(h: Host, s: RefSides): RequestResult {
    if s.ov == s.tv || s.tv == s.bv then RequestResult(s.ov, Merged(Cid(EMPTY)), [])
    else if s.ov == s.bv then RequestResult(s.tv, Merged(Cid(EMPTY)), [])
    else
      var branches := ValueBranches(h, s.o, [s.bv] + SortedValues(h, s.ov, s.tv), DefaultValue(h, s.bv));
      match branches
      case Some(cid) => RequestResult(Some(cid), Merged(Cid(EMPTY)), [])
      case None => RequestResult(None, Thrown, [])
  }

  function SortedValues(h: Host, ov: Option<Cid>, tv: Option<Cid>): seq<Option<Cid>> {
    var sorted := Sort(h, (if ov.Some? then [ov.value] else []) + (if tv.Some? then [tv.value] else []));
    seq(|sorted|, (i: int) requires 0 <= i < |sorted| => Some(sorted[i]))
  }

  /** The value the base selects: its default option's when it is a branch choice, else the base's own value. */
  function DefaultValue(h: Host, bv: Option<Cid>): Option<Cid> {
    if bv.Some? && IsBranchChoice(bv.value.content) then
      var choice := ReadChoice(h, bv.value);
      if choice.defaultName.None? then None
      else
        var edge := OptionEdge(FindOption(choice.options, choice.defaultName.value));
        if edge.Some? then Some(edge.value.left) else None
    else bv
  }

  // The union of supplied values: each is the left of an option, the ref's identity its shared right.

  predicate HoldsValue(options: seq<ChoiceOption>, cid: Cid) {
    exists o | o in options :: o.edge.Some? && o.edge.value.left == cid
  }

  predicate HasName(options: seq<ChoiceOption>, name: string) { exists o | o in options :: o.peerId == name }

  function AddValue(h: Host, options: seq<ChoiceOption>, incoming: Cid, cid: Cid,
      preferred: string): seq<ChoiceOption> {
    if HoldsValue(options, cid) then options
    else
      var name := if preferred != "" && !HasName(options, preferred) then preferred
                  else if options != [] then "value-" + h.text(cid) else "main";
      options + [ChoiceOption(name, Some(Edge(cid, incoming)), None, None)]
  }

  function AddOptions(h: Host, options: seq<ChoiceOption>, incoming: Cid, more: seq<ChoiceOption>): seq<ChoiceOption>
    decreases |more|
  {
    if more == [] then options
    else AddOptions(h, if more[0].edge.Some? then AddValue(h, options, incoming, more[0].edge.value.left,
        more[0].peerId) else options, incoming, more[1..])
  }

  /** A value that is itself the ref's branches. */
  predicate IsValueBranches(h: Host, cid: Cid, id: string) {
    IsBranchChoice(cid.content) && ReadChoice(h, cid).id == id
  }

  function PriorOptions(h: Host, values: seq<Option<Cid>>, id: string): seq<ChoiceOption> {
    if values == [] then []
    else (if values[0].Some? && IsValueBranches(h, values[0].value, id) then ReadChoice(h, values[0].value).options
        else []) + PriorOptions(h, values[1..], id)
  }

  function NameOfValue(options: seq<ChoiceOption>, cid: Cid): string {
    if options == [] then "" else if options[0].edge.Some?
        && options[0].edge.value.left == cid then options[0].peerId else NameOfValue(options[1..], cid)
  }

  function AddValues(h: Host, options: seq<ChoiceOption>, incoming: Cid, id: string, prior: seq<ChoiceOption>,
      values: seq<Option<Cid>>): seq<ChoiceOption>
    decreases |values|
  {
    if values == [] then options
    else
      var next :=
        if values[0].None? then options
        else if IsValueBranches(h, values[0].value, id)
            then AddOptions(h, options, incoming, ReadChoice(h, values[0].value).options)
        else AddValue(h, options, incoming, values[0].value, NameOfValue(prior, values[0].value));
      AddValues(h, next, incoming, id, prior, values[1..])
  }

  function Incoming(ref: Content, id: string): Cid {
    var data := map["alias" := AliasData(id)];
    Cid(RefNode(if Has(ref.data, "name") then data["name" := ref.data["name"]] else data, None, []))
  }

  /** None where the code fails: the ref has no identity to name its branches by. */
  function ValueBranches(h: Host, ref: Content, values: seq<Option<Cid>>, selected: Option<Cid>): Option<Cid> {
    match AliasId(ref)
    case None => None
    case Some(id) =>
      var options := AddValues(h, [], Incoming(ref, id), id, PriorOptions(h, values, id), values);
      var name := if selected.Some? && HoldsValue(options, selected.value) then NameOfValue(options, selected.value)
                  else if options != [] then options[0].peerId else "main";
      Some(PutBranches(h, id, if options != [] then options[0].edge else None, options, name))
  }

  /** The merged ref: its value, its bookkeeping, and a history that names both parents when the value is new. */
  function MergedRef(h: Host, s: RefSides, ours: Cid, theirs: Cid, value: Option<Cid>, book: Rows): (r: Cid)
    ensures AliasId(s.o).Some? && AliasId(s.o) == AliasId(s.t) ==> AliasId(r.content) == AliasId(s.o)
  {
    MergedAlias(if s.b.Some? then s.b.value.data else map[], s.o.data, s.t.data);
    var rows := if book.Rows? then book.edges else Book(h, s.o).children;
    Cid(RefNode(MergedData(if s.b.Some? then s.b.value.data else map[], s.o.data, s.t.data), value,
        rows + History(h, s, ours, theirs, value)))
  }

  function PrevEdge(cid: Cid): Edge { Edge(Prim("previous"), cid) }

  function History(h: Host, s: RefSides, ours: Cid, theirs: Cid, value: Option<Cid>): seq<Edge> {
    if value != Some(SideValue(h, ours.content)) || value != Some(SideValue(h, theirs.content)) then
      var o, t := RefCid(h, ours), RefCid(h, theirs);
      if o == t then [PrevEdge(o)]
      else if Before(h.text(t), h.text(o)) then [PrevEdge(t), PrevEdge(o)] else [PrevEdge(o), PrevEdge(t)]
    else
      PrevRows(h, s.o) + Filter(h, NotIn(PrevRows(h, s.o)), PrevRows(h, s.t))
  }

  /** The version a merged ref's history names for a side: the side's ref, or the ref made for it. */
  function RefCid(h: Host, cid: Cid): Cid { if IsMutableRef(cid.content) then cid else Cid(AsRef(h, cid.content)) }

  // Heights of what a ref is merged by.

  lemma {:induction false} FilterIn(h: Host, s: Sieve, es: seq<Edge>)
    ensures forall e :: e in Filter(h, s, es) <==> e in es && Passes(h, s, e)
  {
    if es != [] { FilterIn(h, s, es[1..]); }
  }

  lemma StripHeight(h: Host, c: Content)
    ensures Height(Cid(StripLink(h, c))) <= Height(Cid(c))
    ensures IsMutableRef(c) ==> Height(Cid(StripLink(h, c))) < Height(Cid(c))
  {
    if IsMutableRef(c) {
      FirstHeight(c.children, Prim("target"));
      RefHeight(c);
    } else {
      FilterIn(h, Unbooked, c.children);
      RowsHeightSubset(StripLink(h, c).children, c.children);
    }
  }

  lemma RefHeight(c: Content)
    requires IsRef(c)
    ensures Height(Cid(c)) > Height(Cid(EMPTY))
  {
    var e :| e in c.children && (e.left == Prim("target") || e.left == Prim("alias"));
    RowHeight(c.children, e);
  }

  lemma SideHeight(h: Host, c: Content)
    ensures Height(SideValue(h, c)) <= Height(Cid(c))
    ensures IsMutableRef(c) ==> Height(SideValue(h, c)) < Height(Cid(c))
  {
    StripHeight(h, c);
    if IsMutableRef(c) { FirstHeight(c.children, Prim("target")); }
  }

  lemma ValuesBelow(h: Host, ours: Content, theirs: Content)
    requires IsMutableRef(ours) || IsMutableRef(theirs)
    ensures Height(SideValue(h, ours)) + Height(SideValue(h, theirs)) < Size(Cid(ours), Cid(theirs))
  {
    SideHeight(h, ours);
    SideHeight(h, theirs);
  }

  /** A ref made for a plain node has the node's bookkeeping and nothing else besides pointers. */
  lemma BookHeight(h: Host, c: Content)
    ensures Height(Cid(Book(h, AsRef(h, c)))) <= Height(Cid(c))
  {
    var ref := AsRef(h, c);
    BookRows(h, ref);
    if !IsMutableRef(c) {
      FilterIn(h, Booked(IsRef(c)), c.children);
      forall e | e in Book(h, ref).children ensures e in c.children {
        PointersAreNotRows(h, ref, e);
      }
    }
    RowsHeightSubset(Book(h, ref).children, c.children);
  }

  predicate IsBook(h: Host, e: Edge) { IsBookkeeping(e) || IsRow(h, e) || IsMember(e) }

  lemma BookRows(h: Host, ref: Content)
    ensures forall e | e in Book(h, ref).children :: e in ref.children && !IsPrev(e) && IsBook(h, e)
  {
    FilterIn(h, NotPrev, Bookkeeping(h, ref));
    FilterIn(h, Booked(IsRef(ref)), ref.children);
  }

  lemma PrimIsPrimitive(name: string)
    ensures IsPrimitive(Prim(name)) && !IsMember(Edge(Prim(name), Cid(EMPTY)))
  {}

  lemma PointersAreNotRows(h: Host, ref: Content, e: Edge)
    requires e in ref.children && IsBook(h, e)
    ensures e.left != Prim("target")
    ensures e.left == Prim("alias") ==> e.right != Cid(EMPTY)
  {
    PrimIsPrimitive("target");
    PrimIsPrimitive("alias");
    NotBookkeeping("target");
    assert "target" in POINTERS;
    NotBookkeeping("alias");
  }

  lemma NotBookkeeping(name: string)
    requires name != "previous" && name != "proposal" && name != "member" && name != "choice"
    ensures Prim(name) != Prim("previous") && Prim(name) != Prim("proposal") && Prim(name) != Prim("member")
            && Prim(name) != Prim("choice")
  {
    if Prim(name) == Prim("previous") { PrimInjective(name, "previous"); }
    if Prim(name) == Prim("proposal") { PrimInjective(name, "proposal"); }
    if Prim(name) == Prim("member") { PrimInjective(name, "member"); }
    if Prim(name) == Prim("choice") { PrimInjective(name, "choice"); }
  }

  lemma BooksBelow(h: Host, ours: Content, theirs: Content)
    ensures Height(Cid(Book(h, AsRef(h, ours)))) + Height(Cid(Book(h, AsRef(h, theirs)))) <= Size(Cid(ours),
            Cid(theirs))
  {
    BookHeight(h, ours);
    BookHeight(h, theirs);
  }
}
