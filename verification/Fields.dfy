/** A typed row as a lens: its fields are refs in its value, one for each row of its type. */
module Fields {
  import opened Options
  import opened Json
  import opened Graph
  import opened Merge
  import opened NodeValues

  const VOID: Cid := Prim("void")
  const UNIT: Cid := Cid(EMPTY)

  /** A text or a number a leaf holds. */
  datatype LeafText = TextLeaf(s: string) | NumberLeaf(n: real)

  function LeafNode(leaf: LeafText): Cid {
    match leaf
    case TextLeaf(s) => Cid(Content(ScalarData("text", Str(s)), []))
    case NumberLeaf(n) => Cid(Content(ScalarData("number", Num(n)), []))
  }

  /** A value primitive: a leaf hole in a field. */
  predicate IsLeafType(c: Cid) {
    PrimName(c) == Some("string") || PrimName(c) == Some("number") || PrimName(c) == Some("boolean")
  }

  // ---------------------------------------------------------------------------
  // Values

  const MAX_CHOICES := 32

  /** What a ref or a plain node stands for: void while it is a hole, a choice's selected option. */
  function ValueOf(h: Host, e: Editor, c: Cid, depth: nat): Cid
    decreases Height(c)
  {
    SelectedHeight(h, e, c);
    FirstHeight(c.content.children, Prim("target"));
    if depth > MAX_CHOICES then c
    else if IsBranchChoice(c.content) then
      match SelectedValue(h, e, c) case Some(v) => ValueOf(h, e, v, depth + 1) case None => c
    else if !IsRef(c.content) then c
    else
      match RefValue(c.content)
      case Some(v) => if IsBranchChoice(v.content) then ValueOf(h, e, v, depth + 1) else v
      case None => VOID
  }

  /** The row of a field that is its leaf hole, |rows| when it has none. */
  function HoleOf(rows: seq<Edge>): (i: nat)
    ensures i <= |rows| && (i < |rows| ==> IsLeafType(rows[i].right))
            && forall k | 0 <= k < i :: !IsLeafType(rows[k].right)
  {
    if rows == [] || IsLeafType(rows[0].right) then 0 else 1 + HoleOf(rows[1..])
  }

  /** A value for a field: its rows with the leaf hole filled. None for a field that holds no value. */
  function FieldText(field: Cid, leaf: LeafText): Option<Cid> {
    var rows := field.content.children;
    if IsLeafType(field) then Some(LeafNode(leaf))
    else if HoleOf(rows) == |rows| then None
    else Some(Cid(Content(map[], rows[HoleOf(rows) := Edge(rows[HoleOf(rows)].left, LeafNode(leaf))])))
  }

  function ScalarLeaf(c: Cid): Option<LeafText> {
    match Member(c.content.data, "scalar", "value")
    case Some(Str(s)) => Some(TextLeaf(s))
    case Some(Num(n)) => Some(NumberLeaf(n))
    case _ => None
  }

  function FirstLeaf(rows: seq<Edge>): Option<LeafText> {
    if rows == [] then None else if ScalarLeaf(rows[0].right).Some? then ScalarLeaf(rows[0].right)
        else FirstLeaf(rows[1..])
  }

  /** The leaf a value holds, through refs; a primitive's own rows are its name, not leaves. */
  function LeafValue(h: Host, e: Editor, c: Cid): Option<LeafText> {
    var value := ValueOf(h, e, c, 0);
    if PrimName(value).Some? then None else FirstLeaf(value.content.children)
  }

  // ---------------------------------------------------------------------------
  // Rows

  /** The row of a field: the one with the field's identity, else the first without any. */
  function OwnIndex(h: Host, es: seq<Edge>, field: Cid): (i: nat)
    ensures i <= |es| && (i < |es| ==> es[i].left == field && IsFieldRow(h, es[i]))
    ensures forall k | 0 <= k < i :: !(es[k].left == field && IsFieldRow(h, es[k]))
  {
    if es == [] || (es[0].left == field && IsFieldRow(h, es[0])) then 0 else 1 + OwnIndex(h, es[1..], field)
  }

  predicate IsBare(e: Edge, field: Cid) { e.left == field && !Has(e.right.content.data, "alias") }

  function BareIndex(es: seq<Edge>, field: Cid): (i: nat)
    ensures i <= |es| && (i < |es| ==> IsBare(es[i], field))
    ensures forall k | 0 <= k < i :: !IsBare(es[k], field)
  {
    if es == [] || IsBare(es[0], field) then 0 else 1 + BareIndex(es[1..], field)
  }

  function FieldIndex(h: Host, es: seq<Edge>, field: Cid): Option<nat> {
    if OwnIndex(h, es, field) < |es| then Some(OwnIndex(h, es, field))
    else if BareIndex(es, field) < |es| then Some(BareIndex(es, field))
    else None
  }

  lemma FieldIndexIn(h: Host, es: seq<Edge>, field: Cid)
    ensures FieldIndex(h, es, field).Some? ==>
            FieldIndex(h, es, field).value < |es|
            && es[FieldIndex(h, es, field).value].left == field
  {}

  /** What a row holds for a field: void for an open hole, None when it has no such field. */
  function FieldValue(h: Host, e: Editor, value: Content, field: Cid): Option<Cid> {
    FieldIndexIn(h, value.children, field);
    match FieldIndex(h, value.children, field)
    case Some(i) => Some(ValueOf(h, e, value.children[i].right, 0))
    case None => None
  }

  function Updated(data: Data, now: real): Data { data["updated" := Obj(map["time" := Num(now)])] }

  /** The row with the field's ref holding something else; None when the row has no such field. */
  function WithFieldValue(h: Host, value: Content, field: Cid, held: Cid, now: real): Option<Content> {
    FieldIndexIn(h, value.children, field);
    match FieldIndex(h, value.children, field)
    case None => None
    case Some(i) =>
      var next := Cid(RefNode(Updated(value.children[i].right.content.data, now), Some(held), []));
      Some(Content(Updated(value.data, now), value.children[i := Edge(field, next)]))
  }

  /**
   * What a new row's field holds: what is supplied for it, nothing when its type leaves it open, else the type's own
   * value.
   */
  function HeldFor(row: Edge, values: map<Cid, Cid>): Option<Cid> {
    if row.left in values then Some(values[row.left]) else if row.right == VOID
        || row.right == UNIT then None else Some(row.right)
  }

  function FieldRef(h: Host, row: Edge, values: map<Cid, Cid>): Edge {
    Edge(row.left, Cid(RefNode(map["alias" := AliasData(FieldId(h, row.left))], HeldFor(row, values), [])))
  }

  function FieldRefs(h: Host, rows: seq<Edge>, values: map<Cid, Cid>): seq<Edge> {
    if rows == [] then [] else [FieldRef(h, rows[0], values)] + FieldRefs(h, rows[1..], values)
  }

  /** A new row of a type: a ref for each of its fields, then the child rows. */
  function ConstructRow(h: Host, kind: Cid, id: string, values: map<Cid, Cid>, now: real,
      children: seq<Edge>): Content {
    var time := Obj(map["time" := Num(now)]);
    Content(map["alias" := AliasData(id), "created" := time, "updated" := time],
        FieldRefs(h, kind.content.children, values) + children)
  }

  // ---------------------------------------------------------------------------
  // Laws

  /** The node held by a ref, when it is not itself a choice. */
  lemma RefHolds(h: Host, e: Editor, data: Data, held: Option<Cid>, depth: nat)
    requires "option" !in data && depth <= MAX_CHOICES && (held.Some? ==> !IsBranchChoice(held.value.content))
    ensures ValueOf(h, e, Cid(RefNode(data, held, [])), depth) == if held.Some? then held.value else VOID
  {
    var ref := RefNode(data, held, []);
    if Prim("alias") == Prim("target") { PrimInjective("alias", "target"); }
    if held.Some? {
      assert ref.children[0] == Edge(Prim("target"), held.value) && ref.children[0] in ref.children;
      assert First(ref.children, Prim("target")) == held;
    } else {
      assert ref.children == [Edge(Prim("alias"), Cid(EMPTY))] && ref.children[0] in ref.children
          && ref.children[1..] == [];
      assert ref.children[0].left != Prim("target");
      assert First(ref.children, Prim("target")) == None;
    }
    assert ref.data == data;
    assert !Has(ref.data, "option");
    assert !IsBranchChoice(ref);
  }

  /** A row's field, once replaced, is found where it was, by identity or without. */
  lemma FieldStays(h: Host, es: seq<Edge>, field: Cid, next: Cid)
    requires FieldIndex(h, es, field).Some?
    requires var i := FieldIndex(h, es, field).value;
             i < |es| && AliasId(next.content) == AliasId(es[i].right.content)
                 && Has(next.content.data, "alias") == Has(es[i].right.content.data, "alias")
    ensures FieldIndex(h, es[FieldIndex(h, es, field).value := Edge(field, next)], field) == FieldIndex(h, es, field)
  {
    var i := FieldIndex(h, es, field).value;
    var r := es[i := Edge(field, next)];
    assert r[i] == Edge(field, next) && es[i].left == field;
    assert forall k | 0 <= k < |es| && k != i :: r[k] == es[k];
    var own := OwnIndex(h, r, field);
    if OwnIndex(h, es, field) < |es| {
      assert IsFieldRow(h, r[i]);
    } else {
      assert forall k | 0 <= k < |r| :: !(r[k].left == field && IsFieldRow(h, r[k]));
      assert IsBare(r[i], field);
    }
  }

  /**
   * Putting a value into a field and getting it again: what was put, from a row that had the field, unless it is itself
   * a choice between values.
   */
  lemma PutThenGet(h: Host, e: Editor, value: Content, field: Cid, held: Cid, now: real)
    requires WithFieldValue(h, value, field, held, now).Some? && !IsBranchChoice(held.content)
    requires "option" !in value.children[FieldIndex(h, value.children, field).value].right.content.data
    ensures FieldValue(h, e, WithFieldValue(h, value, field, held, now).value, field) == Some(held)
  {
    var i := FieldIndex(h, value.children, field).value;
    var data := Updated(value.children[i].right.content.data, now);
    var next := Cid(RefNode(data, Some(held), []));
    FieldStays(h, value.children, field, next);
    RefHolds(h, e, data, Some(held), 0);
  }

  lemma OtherIndexes(h: Host, es: seq<Edge>, i: nat, row: Edge, other: Cid)
    requires i < |es| && row.left == es[i].left && row.left != other
    ensures FieldIndex(h, es[i := row], other) == FieldIndex(h, es, other)
  {
    var r := es[i := row];
    assert forall k | 0 <= k < |es| && k != i :: r[k] == es[k];
    assert OwnIndex(h, r, other) == OwnIndex(h, es, other);
    assert BareIndex(r, other) == BareIndex(es, other);
  }

  /** Putting a value into one field leaves every other field, every child row and the order of rows as they were. */
  lemma PutLeavesTheRest(h: Host, e: Editor, value: Content, field: Cid, held: Cid, now: real, other: Cid)
    requires WithFieldValue(h, value, field, held, now).Some? && other != field
    ensures FieldValue(h, e, WithFieldValue(h, value, field, held, now).value, other) == FieldValue(h, e, value, other)
    ensures var next := WithFieldValue(h, value, field, held, now).value;
            |next.children| == |value.children| && forall k | 0 <= k < |value.children|
                && k != FieldIndex(h, value.children, field).value :: next.children[k] == value.children[k]
  {
    FieldIndexIn(h, value.children, field);
    FieldIndexIn(h, value.children, other);
    var i := FieldIndex(h, value.children, field).value;
    var next := Cid(RefNode(Updated(value.children[i].right.content.data, now), Some(held), []));
    OtherIndexes(h, value.children, i, Edge(field, next), other);
  }

  lemma {:induction false} RefsAt(h: Host, rows: seq<Edge>, values: map<Cid, Cid>, k: nat)
    ensures |FieldRefs(h, rows, values)| == |rows|
    ensures k < |rows| ==> FieldRefs(h, rows, values)[k] == FieldRef(h, rows[k], values)
  {
    if rows != [] { RefsAt(h, rows[1..], values, if k > 0 then k - 1 else 0); }
  }

  predicate DistinctFields(rows: seq<Edge>) { forall i, k | 0 <= i < k < |rows| :: rows[i].left != rows[k].left }

  /** A new row holds, for each field of its type, what was supplied, else the type's own value, else nothing. */
  lemma ConstructedFields(h: Host, e: Editor, kind: Cid, id: string, values: map<Cid, Cid>, now: real,
      children: seq<Edge>, k: nat)
    requires k < |kind.content.children| && DistinctFields(kind.content.children)
    requires HeldFor(kind.content.children[k], values).Some?
            ==> !IsBranchChoice(HeldFor(kind.content.children[k], values).value.content)
    ensures var row := kind.content.children[k];
            FieldValue(h, e, ConstructRow(h, kind, id, values, now, children), row.left)
                == Some(if HeldFor(row, values).Some? then HeldFor(row, values).value else VOID)
  {
    var rows, row := kind.content.children, kind.content.children[k];
    var refs := FieldRefs(h, rows, values);
    var es := refs + children;
    RefsAt(h, rows, values, k);
    assert es[k] == FieldRef(h, row, values);
    assert IsFieldRow(h, es[k]);
    forall j | 0 <= j < k ensures es[j].left != row.left { RefsAt(h, rows, values, j); }
    assert OwnIndex(h, es, row.left) == k;
    RefHolds(h, e, map["alias" := AliasData(FieldId(h, row.left))], HeldFor(row, values), 0);
  }

  lemma {:induction false} FirstLeafJoined(a: seq<Edge>, b: seq<Edge>)
    ensures FirstLeaf(a + b) == if FirstLeaf(a).Some? then FirstLeaf(a) else FirstLeaf(b)
  {
    if a == [] {
      assert a + b == b;
    } else {
      assert (a + b)[1..] == a[1..] + b;
      FirstLeafJoined(a[1..], b);
    }
  }

  /**
   * The leaf put into a field is the one read from it, exactly when no row of the field before its hole holds a text or
   * a number of its own, or one equal to it.
   */
  lemma LeafRoundTrip(h: Host, e: Editor, field: Cid, leaf: LeafText)
    requires !IsLeafType(field) && !IsRef(Content(map[], field.content.children)) && FieldText(field, leaf).Some?
            && PrimName(FieldText(field, leaf).value).None?
    ensures var earlier := FirstLeaf(field.content.children[..HoleOf(field.content.children)]);
            LeafValue(h, e, FieldText(field, leaf).value) == Some(leaf) <==> earlier.None? || earlier == Some(leaf)
  {
    var rows, value := field.content.children, FieldText(field, leaf).value;
    var i := HoleOf(rows);
    LeafFilled(rows, i, leaf);
    NotARef(rows, i, Edge(rows[i].left, LeafNode(leaf)));
    assert !IsBranchChoice(value.content) && ValueOf(h, e, value, 0) == value;
  }

  lemma LeafFilled(rows: seq<Edge>, i: nat, leaf: LeafText)
    requires i < |rows|
    ensures FirstLeaf(rows[i := Edge(rows[i].left, LeafNode(leaf))]) == if FirstLeaf(rows[..i]).Some?
            then FirstLeaf(rows[..i]) else Some(leaf)
  {
    var filled := Edge(rows[i].left, LeafNode(leaf));
    assert rows[i := filled] == rows[..i] + ([filled] + rows[i + 1..]);
    FirstLeafJoined(rows[..i], [filled] + rows[i + 1..]);
    assert ([filled] + rows[i + 1..])[0] == filled && ScalarLeaf(LeafNode(leaf)) == Some(leaf);
  }

  lemma NotARef(rows: seq<Edge>, i: nat, filled: Edge)
    requires i < |rows| && filled.left == rows[i].left && !IsRef(Content(map[], rows))
    ensures !IsRef(Content(map[], rows[i := filled]))
  {
    var r := rows[i := filled];
    forall x | x in r ensures x.left != Prim("target") && x.left != Prim("alias") {
      var k :| 0 <= k < |r| && r[k] == x;
      assert rows[k] in rows && rows[k].left == x.left;
    }
  }

  /** A leaf type's own value holds no leaf row: its text is read as the value itself, never as its leaf. */
  lemma LeafTypesHoldNoLeaf(h: Host, e: Editor, field: Cid, leaf: LeafText)
    requires IsLeafType(field)
    ensures FieldText(field, leaf) == Some(LeafNode(leaf)) && LeafValue(h, e, LeafNode(leaf)).None?
            && ScalarLeaf(LeafNode(leaf)) == Some(leaf)
  {
    assert !IsBranchChoice(LeafNode(leaf).content);
  }
}
