/** Host values as graph nodes: a record's and a sequence's fields are typed rows, a scalar is a leaf. */
module NodeValues {
  import opened Options
  import opened Json
  import opened Text
  import opened Graph
  import opened Merge

  /**
   * What a caller may hand over. A record's members form a map: records that list them in another order are the same
   * value. `Unsupported` stands for what has no node form: functions, symbols, instances of classes, numbers that are
   * not finite.
   */
  datatype Value =
    | Undefined
    | Nil
    | Flag(b: bool)
    | Number(n: real)
    | Text(s: string)
    | Sequence(items: seq<Value>)
    | Record(fields: map<string, Value>)
    | Unsupported

  const MAX_DEPTH := 64
  const MAX_FIELDS := 10000
  const MAX_NAME := 1024
  const MAX_PATH := 240
  const MAX_ACTIVE := 256

  /**
   * What construction reads that the graph does not determine: the URI encoding of a name, the digest text standing for
   * a long path, and the branch a reader has selected of a choice.
   */
  datatype Editor = Editor(encode: string -> string, hashed: (string, string) -> string, selected: Cid -> string)

  // ---------------------------------------------------------------------------
  // Fields of a value

  predicate IsContainer(v: Value) { v.Sequence? || v.Record? }

  /** Names in row order: a sequence's positions, a record's defined members sorted. */
  ghost function FieldNames(v: Value): (r: seq<string>)
    requires IsContainer(v)
    ensures v.Sequence? ==> |r| == |v.items|
  {
    match v
    case Sequence(items) => seq(|items|, i requires 0 <= i < |items| => Decimal(i))
    case Record(fields) => Listed(Defined(fields), Sorted)
  }

  ghost function Defined(fields: map<string, Value>): set<string> {
    set name | name in fields && !fields[name].Undefined?
  }

  ghost function FieldAt(v: Value, i: nat): (r: Value)
    requires IsContainer(v) && i < |FieldNames(v)|
    ensures r < v
  {
    if v.Sequence? then v.items[i]
    else
      ListedOnce(Defined(v.fields), Sorted);
      assert FieldNames(v)[i] in FieldNames(v);
      v.fields[FieldNames(v)[i]]
  }

  /** The value a reader gets back: undefined members are left out, undefined items are null. */
  function Clean(v: Value): Value {
    match v
    case Sequence(items) => Sequence(seq(|items|, i requires 0 <= i < |items| => if items[i].Undefined? then Nil
        else Clean(items[i])))
    case Record(fields) => Record(map name | name in fields && !fields[name].Undefined? :: Clean(fields[name]))
    case _ => v
  }

  // ---------------------------------------------------------------------------
  // Construction

  datatype Built = Built(shape: string, cid: Cid)

  function ScalarData(shape: string, value: Json): Data {
    map["scalar" := Obj(map["type" := Str(shape), "value" := value])]
  }

  const SHAPES: set<string> := {"null", "boolean", "number", "string", "sequence", "record"}

  function Leaf(v: Value): (r: Option<Built>)
    ensures r.Some? ==> r.value.shape in SHAPES && r.value.cid.content.children == []
  {
    match v
    case Nil => Some(Built("null", Cid(Content(ScalarData("null", Null), []))))
    case Flag(b) => Some(Built("boolean", Cid(Content(ScalarData("boolean", Bool(b)), []))))
    case Number(n) => Some(Built("number", Cid(Content(ScalarData("number", Num(n)), []))))
    case Text(s) => Some(Built("string", Cid(Content(ScalarData("text", Str(s)), []))))
    case _ => None
  }

  function NameData(name: string): Json { Obj(map["content" := Str(name)]) }

  function Named(c: Cid, name: string): Cid {
    Cid(Content(c.content.data["name" := NameData(name)], c.content.children))
  }

  /**
   * The branch a reader has selected: an option's value when its row is a ref shared by the alternatives, else its row.
   */
  function SelectedValue(h: Host, e: Editor, c: Cid): Option<Cid> {
    var choice := ReadChoice(h, c);
    match OptionEdge(FindOption(choice.options, e.selected(c)))
    case None => None
    case Some(edge) =>
      var right := edge.right.content;
      if IsRef(right) && RefValue(right).None? && AliasId(right) == Some(choice.id) then Some(edge.left)
          else Some(edge.right)
  }

  lemma PointerHeight(c: Cid)
    ensures var edge := ReadOption(c).edge;
            edge.Some? ==> Height(edge.value.left) < Height(c) && Height(edge.value.right) < Height(c)
  {
    LastHeight(c.content.children, Prim("instruction"));
    LastHeight(c.content.children, Prim("target"));
  }

  lemma {:induction false} FoundHeight(es: seq<Edge>, name: string)
    ensures var edge := OptionEdge(FindOption(ReadOptions(es), name));
            edge.Some? ==> Height(edge.value.left) < RowsHeight(es) && Height(edge.value.right) < RowsHeight(es)
  {
    if es != [] {
      FoundHeight(es[1..], name);
      RowHeight(es, es[0]);
      PointerHeight(es[0].right);
      assert [es[0]] + es[1..] == es;
      FoundHead(es[0], es[1..], name);
    }
  }

  lemma FoundHead(e: Edge, es: seq<Edge>, name: string)
    ensures FindOption(ReadOptions([e] + es), name)
            == if e.left == Prim("notSelected") && ReadOption(e.right).peerId == name then Some(ReadOption(e.right))
                else FindOption(ReadOptions(es), name)
  {
    assert ([e] + es)[1..] == es;
    var rest := ReadOptions(es);
    if e.left == Prim("notSelected") {
      assert ([ReadOption(e.right)] + rest)[1..] == rest;
    } else {
      assert [] + rest == rest;
    }
  }

  lemma SelectedHeight(h: Host, e: Editor, c: Cid)
    ensures SelectedValue(h, e, c).Some? ==> Height(SelectedValue(h, e, c).value) < Height(c)
  {
    FoundHeight(c.content.children, e.selected(c));
  }

  /** The content a node stands for. */
  function ValueContent(h: Host, e: Editor, c: Cid): Content
    decreases Height(c)
  {
    SelectedHeight(h, e, c);
    FirstHeight(c.content.children, Prim("target"));
    if IsBranchChoice(c.content) then
      match SelectedValue(h, e, c) case Some(v) => ValueContent(h, e, v) case None => c.content
    else if IsHandle(c.content) then c.content
    else
      match RefValue(c.content)
      case Some(v) => if IsBranchChoice(v.content) then ValueContent(h, e, v) else v.content
      case None => c.content
  }

  function FieldName(h: Host, e: Editor, c: Cid): Option<string> {
    match MemberText(c.content.data, "name", "content")
    case Some(name) => Some(name)
    case None => MemberText(ValueContent(h, e, c).data, "name", "content")
  }

  /** The row an earlier version of the value has under a name. */
  function Prior(h: Host, e: Editor, es: seq<Edge>, name: string): Option<Cid> {
    if es == [] then None
    else if FieldName(h, e, es[0].right) == Some(name) then Some(es[0].right)
    else Prior(h, e, es[1..], name)
  }

  /** A field keeps the identity it had; a new one is named by its path, or by a digest when the path is long. */
  function FieldIdentity(e: Editor, id: Option<string>, prior: Option<Cid>, name: string): (r: Option<string>)
    ensures id.Some? ==> r.Some?
    ensures r.Some? ==> r.value != ""
    ensures id.None? && prior.None? ==> r.None?
  {
    var kept := if prior.Some? then AliasId(prior.value.content) else None;
    if kept.Some? && kept.value != "" then kept
    else if id.None? then None
    else
      var path := id.value + "/field/" + e.encode(name);
      Some(if |path| <= MAX_PATH then path else "field:" + e.hashed(id.value, name))
  }

  function FieldRow(identity: Option<string>, name: string, next: Built): Edge {
    var cid := Named(next.cid, name);
    Edge(Prim(next.shape),
      if identity.None? then cid
      else Cid(RefNode(map["alias" := AliasData(identity.value), "name" := NameData(name)], Some(cid), [])))
  }

  function ContainerData(v: Value): Data {
    map["presentation" := Obj(if v.Sequence? then map["sequence" := Bool(true)] else map[])]
  }

  /**
   * The node of a value, None where the code throws. With an identity the fields are refs that editors change; without
   * one they are the values themselves. `previous` is the node of the version before, whose field identities are kept.
   */
  ghost function Construct(h: Host, e: Editor, v: Value, id: Option<string>, previous: Option<Cid>,
      depth: nat): (r: Option<Built>)
    ensures r.Some? ==> r.value.shape in SHAPES
    decreases v, 1, 0
  {
    if depth > MAX_DEPTH then None
    else if !IsContainer(v) then Leaf(v)
    else if |FieldNames(v)| > MAX_FIELDS then None
    else
      var before := if id.Some? && previous.Some? then ValueContent(h, e, previous.value).children else [];
      match ConstructRows(h, e, v, 0, id, before, depth)
      case None => None
      case Some(rows) => Some(Built(if v.Sequence? then "sequence" else "record", Cid(Content(ContainerData(v), rows))))
  }

  /** The rows of the fields from the `i`th. */
  ghost function ConstructRows(h: Host, e: Editor, v: Value, i: nat, id: Option<string>, before: seq<Edge>,
      depth: nat): Option<seq<Edge>>
    requires IsContainer(v) && i <= |FieldNames(v)|
    decreases v, 0, |FieldNames(v)| - i
  {
    var names := FieldNames(v);
    if i == |names| then Some([])
    else if |names[i]| > MAX_NAME then None
    else
      var prior := Prior(h, e, before, names[i]);
      var identity := FieldIdentity(e, id, prior, names[i]);
      var value := FieldAt(v, i);
      var next := if value.Undefined? then (if depth + 1 > MAX_DEPTH then None else Leaf(Nil))
          else Construct(h, e, value, identity, prior, depth + 1);
      if next.None? then None
      else
        match ConstructRows(h, e, v, i + 1, id, before, depth)
        case None => None
        case Some(rest) => Some([FieldRow(identity, names[i], next.value)] + rest)
  }

  // ---------------------------------------------------------------------------
  // Reading

  function ScalarValue(data: Data): Option<Value> {
    match (MemberText(data, "scalar", "type"), Member(data, "scalar", "value"))
    case (Some(t), Some(Str(s))) => if t == "text" || t == "peer" then Some(Text(s)) else None
    case (Some(t), Some(Num(n))) => if t == "number" || t == "time" then Some(Number(n)) else None
    case (Some(t), Some(Bool(b))) => if t == "boolean" then Some(Flag(b)) else None
    case (Some(t), Some(Null)) => if t == "null" then Some(Nil) else None
    case _ => None
  }

  function PrimName(c: Cid): Option<string> {
    if IsPrimitive(c) then MemberText(c.content.children[0].right.content.data, "scalar", "value") else None
  }

  /** A row of a scalar type holds a scalar of that type. */
  predicate Fits(shape: Option<string>, v: Value) {
    match shape
    case Some(name) => (name == "null" ==> v.Nil?) && (name == "string" ==> v.Text?) && (name == "number" ==> v.Number?)
        && (name == "boolean" ==> v.Flag?)
    case None => true
  }

  /** Links and rows without identity or name are not fields. */
  predicate IsField(h: Host, e: Edge) {
    e.left != Prim("link") && (IsRow(h, e) || Has(e.right.content.data, "name"))
  }

  function FromEntries(entries: seq<(string, Value)>): map<string, Value> {
    if entries == [] then map[] else FromEntries(entries[..|entries| - 1])[entries[|entries| - 1].0 :=
        entries[|entries| - 1].1]
  }

  function Seconds(entries: seq<(string, Value)>): seq<Value> {
    seq(|entries|, i requires 0 <= i < |entries| => entries[i].1)
  }

  function Assembled(data: Data, entries: seq<(string, Value)>): Value {
    match Member(data, "presentation", "sequence")
    case Some(flag) => if Truthy(flag) then Sequence(Seconds(entries)) else Record(FromEntries(entries))
    case None => Record(FromEntries(entries))
  }

  /** The value of a node, None where the code gives undefined. `active` holds the nodes being read. */
  function Read(h: Host, e: Editor, c: Cid, depth: nat, active: set<Cid>): Option<Value>
    decreases Height(c), 0, 0
  {
    if depth > MAX_DEPTH || |active| > MAX_ACTIVE || c in active then None
    else
      SelectedHeight(h, e, c);
      FirstHeight(c.content.children, Prim("target"));
      var data := c.content.data;
      if IsBranchChoice(c.content) then
        match SelectedValue(h, e, c) case Some(v) => Read(h, e, v, depth, active + {c}) case None => None
      else if RefValue(c.content).Some? then Read(h, e, RefValue(c.content).value, depth, active + {c})
      else if Has(data, "scalar") then ScalarValue(data)
      else if Has(data, "presentation") then
        match ReadRows(h, e, c.content.children, {}, depth, active + {c})
        case Some(entries) => Some(Assembled(data, entries))
        case None => None
      else None
  }

  function ReadRows(h: Host, e: Editor, es: seq<Edge>, names: set<string>, depth: nat,
      active: set<Cid>): Option<seq<(string, Value)>>
    decreases RowsHeight(es), 1, |es|
  {
    if es == [] then Some([])
    else if !IsField(h, es[0]) then ReadRows(h, e, es[1..], names, depth, active)
    else
      RowHeight(es, es[0]);
      match FieldName(h, e, es[0].right)
      case None => None
      case Some(name) =>
        if name in names then None
        else
          match Read(h, e, es[0].right, depth + 1, active)
          case None => None
          case Some(value) =>
            if !Fits(PrimName(es[0].left), value) then None
            else
              match ReadRows(h, e, es[1..], names + {name}, depth, active)
              case None => None
              case Some(rest) => Some([(name, value)] + rest)
  }
}
