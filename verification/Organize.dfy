/** A model's answer made into a plan: a bounded forest of new rows, then the rows themselves. */
module Organize {
  import opened Options
  import opened Json
  import opened Sequences
  import opened Text

  const MAX_ITEMS := 100
  const MAX_TEXT := 4000
  const MAX_NESTING := 6
  const MAX_TITLE := 120
  const MAX_REF := 64

  /** The two row types a plan may name. */
  const PLAIN_TYPE := "string"
  const NOTE_TYPE := "note"

  /** Names every object answers to: the membership test of the type table accepts them too. */
  const INHERITED: set<string> := {"constructor", "toString", "valueOf", "hasOwnProperty", "isPrototypeOf",
      "propertyIsEnumerable", "toLocaleString",
    "__proto__", "__defineGetter__", "__defineSetter__", "__lookupGetter__", "__lookupSetter__"}

  /** A row to add. `parent`: a row of the outline, an earlier item's ref, or None for the target. */
  datatype Item = Item(ref: string, parent: Option<string>, text: string, kind: string)

  datatype Plan = Plan(title: string, items: seq<Item>)

  // ---------------------------------------------------------------------------
  // Text

  predicate IsSpace(c: char) {
    var n := c as int;
    9 <= n <= 13 || n == 32 || n == 160 || n == 0x1680 || 0x2000 <= n <= 0x200A || n == 0x2028 || n == 0x2029
        || n == 0x202F || n == 0x205F || n == 0x3000 || n == 0xFEFF
  }

  function TrimLeft(s: string): string { if s != "" && IsSpace(s[0]) then TrimLeft(s[1..]) else s }

  function TrimRight(s: string): string { if s != "" && IsSpace(s[|s| - 1]) then TrimRight(s[..|s| - 1]) else s }

  function Trim(s: string): string { TrimRight(TrimLeft(s)) }

  const ELLIPSIS: char := '\U{2026}'

  function Clip(s: string, max: nat): (r: string)
    requires max > 0
    ensures |r| <= max && (s != "" ==> r != "") && (|s| <= max ==> r == s)
  {
    if |s| > max then s[..max - 1] + [ELLIPSIS] else s
  }

  predicate IsRefChar(c: char) {
    'a' <= c <= 'z' || 'A' <= c <= 'Z' || '0' <= c <= '9' || c == '_' || c == '.' || c == ':' || c == '-'
  }

  predicate IsRef(s: string) { 0 < |s| <= MAX_REF && forall c | c in s :: IsRefChar(c) }

  // ---------------------------------------------------------------------------
  // The answer

  /** The list of items an answer holds: its `items`, or the answer itself when it is a list. */
  function ItemsOf(data: Json): seq<Json> {
    match data
    case Arr(items) => items
    case Obj(fields) => if "items" in fields && fields["items"].Arr? then fields["items"].items else []
    case _ => []
  }

  function TextField(value: Json, key: string): Option<string> {
    if value.Obj? && key in value.fields && value.fields[key].Str? then Some(value.fields[key].s) else None
  }

  function TrimmedField(value: Json, key: string): string {
    match TextField(value, key) case Some(s) => Trim(s) case None => ""
  }

  /** An item counts when it is an object with text. */
  predicate IsItem(value: Json) { (value.Obj? || value.Arr?) && TrimmedField(value, "text") != "" }

  function KindOf(value: Json): string {
    var named := TextField(value, "type");
    if named.Some? && (named.value == PLAIN_TYPE || named.value == NOTE_TYPE || named.value in INHERITED)
        then named.value
    else if '\n' in TrimmedField(value, "text") then NOTE_TYPE
    else PLAIN_TYPE
  }

  // ---------------------------------------------------------------------------
  // Sanitising

  /** Names at least as long as `ref`: appending to it takes it past one of them. */
  function AsLong(taken: set<string>, ref: string): set<string> { set t | t in taken && |t| >= |ref| }

  lemma LongerLeavesFewer(taken: set<string>, ref: string)
    requires ref in taken
    ensures |AsLong(taken, ref + "'")| < |AsLong(taken, ref)|
  {
    assert ref in AsLong(taken, ref) && ref !in AsLong(taken, ref + "'");
    assert AsLong(taken, ref + "'") <= AsLong(taken, ref) - {ref};
    Fewer(AsLong(taken, ref + "'"), AsLong(taken, ref) - {ref});
  }

  /** The name with primes appended until nothing has it. */
  function Unused(taken: set<string>, ref: string): (r: string)
    ensures r !in taken && ref <= r
    decreases |AsLong(taken, ref)|
  {
    if ref in taken then
      LongerLeavesFewer(taken, ref);
      Unused(taken, ref + "'")
    else ref
  }

  /** How deep each new row is among new rows, by ref. */
  type Depths = map<string, nat>

  /** The row an item names as its parent, when it is of the outline or an earlier item. */
  function ParentOf(known: set<string>, depths: Depths, value: Json): Option<string> {
    var named := TrimmedField(value, "parent");
    if named != "" && (named in known || named in depths) then Some(named) else None
  }

  function DepthUnder(known: set<string>, depths: Depths, parent: Option<string>): nat {
    if parent.Some? && parent.value in depths && parent.value !in known then depths[parent.value] + 1 else 0
  }

  /** The parent and depth of an item; too deep, it goes under the target. */
  function Placed(known: set<string>, depths: Depths, value: Json): (r: (Option<string>, nat))
    ensures r.1 < MAX_NESTING
    ensures r.0.Some? ==> r.0.value in known || r.0.value in depths
    ensures r.1 == DepthUnder(known, depths, r.0)
  {
    var parent := ParentOf(known, depths, value);
    if DepthUnder(known, depths, parent) >= MAX_NESTING then (None, 0) else (parent, DepthUnder(known, depths, parent))
  }

  function RefOf(known: set<string>, depths: Depths, count: nat, value: Json): string {
    var named, taken := TrimmedField(value, "ref"), known + depths.Keys;
    Unused(taken, if IsRef(named) && named !in taken then named else "n" + Decimal(count + 1))
  }

  /** The plan so far: its items and their depths. */
  datatype Draft = Draft(items: seq<Item>, depths: Depths)

  function AddItem(known: set<string>, d: Draft, value: Json): Draft {
    if !IsItem(value) then d
    else
      var placed, ref := Placed(known, d.depths, value), RefOf(known, d.depths, |d.items|, value);
      Draft(d.items + [Item(ref, placed.0, Clip(TrimmedField(value, "text"), MAX_TEXT), KindOf(value))],
          d.depths[ref := placed.1])
  }

  /** The items of the first values, up to the limit. */
  function Drafted(known: set<string>, values: seq<Json>): Draft {
    if values == [] then Draft([], map[])
    else
      var before := Drafted(known, values[..|values| - 1]);
      if |before.items| >= MAX_ITEMS then before else AddItem(known, before, values[|values| - 1])
  }

  // ---------------------------------------------------------------------------
  // The sanitiser, in place

  method Rename(taken: set<string>, start: string) returns (ref: string)
    ensures ref == Unused(taken, start)
  {
    ref := start;
    while ref in taken
      invariant Unused(taken, ref) == Unused(taken, start)
      decreases |AsLong(taken, ref)|
    {
      LongerLeavesFewer(taken, ref);
      ref := ref + "'";
    }
  }

  lemma {:induction false} DraftedOn(known: set<string>, values: seq<Json>, i: nat)
    requires i <= |values| && |Drafted(known, values[..i]).items| >= MAX_ITEMS
    ensures Drafted(known, values) == Drafted(known, values[..i])
    decreases |values| - i
  {
    if i < |values| {
      assert values[..i + 1][..i] == values[..i];
      DraftedOn(known, values, i + 1);
    } else {
      assert values[..i] == values;
    }
  }

  method MakeItem(known: set<string>, refs: Depths, count: nat, value: Json) returns (item: Item, nesting: nat)
    ensures item == Item(RefOf(known, refs, count, value), Placed(known, refs, value).0,
            Clip(TrimmedField(value, "text"), MAX_TEXT), KindOf(value))
    ensures nesting == Placed(known, refs, value).1
  {
    var text, named := TrimmedField(value, "text"), TrimmedField(value, "ref");
    var parent := ParentOf(known, refs, value);
    nesting := DepthUnder(known, refs, parent);
    if nesting >= MAX_NESTING { parent, nesting := None, 0; }
    var ref := if IsRef(named) && named !in known && named !in refs then named else "n" + Decimal(count + 1);
    ref := Rename(known + refs.Keys, ref);
    item := Item(ref, parent, Clip(text, MAX_TEXT), KindOf(value));
  }

  method ParseItems(known: set<string>, values: seq<Json>) returns (items: seq<Item>)
    ensures items == Drafted(known, values).items
  {
    items := [];
    var refs: Depths := map[];
    for i := 0 to |values|
      invariant Draft(items, refs) == Drafted(known, values[..i])
    {
      if |items| >= MAX_ITEMS {
        DraftedOn(known, values, i);
        return;
      }
      assert values[..i + 1][..i] == values[..i];
      var value := values[i];
      if IsItem(value) {
        var item, nesting := MakeItem(known, refs, |items|, value);
        refs := refs[item.ref := nesting];
        items := items + [item];
      }
    }
    assert values[..|values|] == values;
  }

  /** `title`: the answer's title as one short line. `parsed`: what the JSON reader makes of an answer given as text. */
  method ParseOrganizePlan(raw: Json, parsed: string -> Option<Json>, title: string -> string, known: set<string>)
      returns (plan: Option<Plan>)
    ensures plan.None? <==> raw.Str? && parsed(raw.s).None?
    ensures plan.Some? ==> plan.value.items == Drafted(known,
            ItemsOf(if raw.Str? then parsed(raw.s).value else raw)).items
    ensures plan.Some? ==> |plan.value.title| <= MAX_TITLE
  {
    var data := raw;
    if raw.Str? {
      if parsed(raw.s).None? { return None; }
      data := parsed(raw.s).value;
    }
    var items := ParseItems(known, ItemsOf(data));
    var named := TextField(data, "title");
    plan := Some(Plan(if named.Some? then Clip(title(named.value), MAX_TITLE) else "", items));
  }

  // ---------------------------------------------------------------------------
  // Rows

  /** A row to put: the item it is of, by place in the plan, and the rows inside it. */
  datatype Tree = Tree(item: nat, text: string, kind: string, rows: seq<Tree>)

  /** What is left to build below a parent: the items after the one it names. */
  function Remaining(items: seq<Item>, parent: Option<string>): nat {
    if parent.None? then |items| + 1 else |items| - IndexOf(items, parent.value)
  }

  /** The place of the item with a ref, |items| when there is none. */
  function IndexOf(items: seq<Item>, ref: string): (i: nat)
    ensures i <= |items| && (i < |items| ==> items[i].ref == ref) && (forall k | 0 <= k < i :: items[k].ref != ref)
  {
    if items == [] || items[0].ref == ref then 0 else 1 + IndexOf(items[1..], ref)
  }

  /** Parents are earlier items, and no two items share a ref. */
  predicate IsForest(items: seq<Item>, known: set<string>) {
    && (forall i, k | 0 <= i < k < |items| :: items[i].ref != items[k].ref)
    && (forall i | 0 <= i < |items| :: items[i].ref !in known)
    && (forall i | 0 <= i < |items| && items[i].parent.Some? ::
        items[i].parent.value in known
        || IndexOf(items, items[i].parent.value) < i)
  }

  /** The rows under a parent, from the `k`th item on, each with the rows under it. */
  function RowsAt(items: seq<Item>, known: set<string>, parent: Option<string>, k: nat): seq<Tree>
    requires IsForest(items, known) && k <= |items| && (parent.Some? ==> parent.value !in known)
    decreases Remaining(items, parent), |items| - k
  {
    if k == |items| then []
    else if items[k].parent != parent then RowsAt(items, known, parent, k + 1)
    else
      Below(items, known, parent, k);
      [Tree(k, items[k].text, items[k].kind, RowsAt(items, known, Some(items[k].ref), 0))]
          + RowsAt(items, known, parent, k + 1)
  }

  lemma Below(items: seq<Item>, known: set<string>, parent: Option<string>, k: nat)
    requires IsForest(items, known) && k < |items| && items[k].parent == parent
            && (parent.Some? ==> parent.value !in known)
    ensures Remaining(items, Some(items[k].ref)) < Remaining(items, parent)
    ensures IndexOf(items, items[k].ref) == k
  {}
}
