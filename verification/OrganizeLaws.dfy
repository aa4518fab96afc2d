/**
 * Every plan is a bounded forest, nothing the model said in it is lost, and building it puts each row once, in its
 * place.
 */
module OrganizeLaws {
  import opened Options
  import opened Json
  import opened Organize
  import Order

  // ---------------------------------------------------------------------------
  // The plan

  /** The row an item is under, when it is an earlier item. */
  function ParentIndex(items: seq<Item>, i: nat): Option<nat>
    requires i < |items|
  {
    if items[i].parent.Some? && IndexOf(items, items[i].parent.value) < i
        then Some(IndexOf(items, items[i].parent.value)) else None
  }

  /** How many new rows an item is inside. */
  function Nesting(items: seq<Item>, i: nat): nat
    requires i < |items|
    decreases i
  {
    match ParentIndex(items, i) case Some(p) => Nesting(items, p) + 1 case None => 0
  }

  predicate ItemOk(items: seq<Item>, i: nat)
    requires i < |items|
  {
    Nesting(items, i) < MAX_NESTING && 0 < |items[i].text| <= MAX_TEXT
  }

  /** Depths are kept for exactly the items, as deep as they are. */
  ghost predicate Tracks(d: Draft) {
    && (forall ref :: ref in d.depths <==> IndexOf(d.items, ref) < |d.items|)
    && (forall i | 0 <= i < |d.items| :: d.items[i].ref in d.depths && d.depths[d.items[i].ref] == Nesting(d.items, i))
  }

  ghost predicate DraftOk(known: set<string>, d: Draft) {
    IsForest(d.items, known) && Tracks(d) && forall i | 0 <= i < |d.items| :: ItemOk(d.items, i)
  }

  lemma {:induction false} IndexOfPrefix(items: seq<Item>, item: Item, ref: string)
    ensures IndexOf(items, ref) < |items| ==> IndexOf(items + [item], ref) == IndexOf(items, ref)
    ensures IndexOf(items, ref) == |items| ==> IndexOf(items + [item], ref) == if item.ref == ref then |items|
            else |items| + 1
  {
    if items == [] {
      assert [item][1..] == [] && [] + [item] == [item];
    } else {
      assert (items + [item])[1..] == items[1..] + [item];
      if items[0].ref != ref { IndexOfPrefix(items[1..], item, ref); }
    }
  }

  lemma {:induction false} NestingPrefix(items: seq<Item>, item: Item, i: nat)
    requires i < |items|
    ensures ParentIndex(items + [item], i) == ParentIndex(items, i) && Nesting(items + [item], i) == Nesting(items, i)
    decreases i
  {
    assert (items + [item])[i] == items[i];
    if items[i].parent.Some? { IndexOfPrefix(items, item, items[i].parent.value); }
    var p := ParentIndex(items, i);
    if p.Some? { NestingPrefix(items, item, p.value); }
  }

  lemma IndexOfOwn(items: seq<Item>, known: set<string>, i: nat)
    requires IsForest(items, known) && i < |items|
    ensures IndexOf(items, items[i].ref) == i
  {}

  /** One more item keeps the forest. */
  lemma AddKeepsForest(known: set<string>, d: Draft, item: Item)
    requires DraftOk(known, d) && item.ref !in known && item.ref !in d.depths
    requires item.parent.Some? ==> item.parent.value in known || item.parent.value in d.depths
    ensures IsForest(d.items + [item], known)
  {
    var items := d.items + [item];
    forall i, k | 0 <= i < k < |items| ensures items[i].ref != items[k].ref {
      if k == |d.items| { assert d.items[i].ref in d.depths; }
    }
    forall i | 0 <= i < |items| && items[i].parent.Some? && items[i].parent.value !in known
        ensures IndexOf(items, items[i].parent.value) < i {
      IndexOfPrefix(d.items, item, items[i].parent.value);
    }
  }

  lemma AddNesting(known: set<string>, d: Draft, item: Item)
    requires DraftOk(known, d) && item.ref !in known && item.ref !in d.depths
    requires item.parent.Some? ==> item.parent.value in known || item.parent.value in d.depths
    ensures Nesting(d.items + [item], |d.items|) == DepthUnder(known, d.depths, item.parent)
  {
    var items := d.items + [item];
    if item.parent.Some? {
      IndexOfPrefix(d.items, item, item.parent.value);
      var p := IndexOf(d.items, item.parent.value);
      if p < |d.items| {
        assert d.items[p].ref == item.parent.value && d.items[p].ref !in known;
        NestingPrefix(d.items, item, p);
      }
    }
  }

  lemma AddTracks(known: set<string>, d: Draft, item: Item, depth: nat)
    requires DraftOk(known, d) && item.ref !in d.depths && Nesting(d.items + [item], |d.items|) == depth
    ensures Tracks(Draft(d.items + [item], d.depths[item.ref := depth]))
  {
    var r := Draft(d.items + [item], d.depths[item.ref := depth]);
    forall ref ensures ref in r.depths <==> IndexOf(r.items, ref) < |r.items| { IndexOfPrefix(d.items, item, ref); }
    forall i | 0 <= i < |r.items| ensures r.items[i].ref in r.depths
        && r.depths[r.items[i].ref] == Nesting(r.items, i) {
      if i < |d.items| {
        NestingPrefix(d.items, item, i);
        assert r.items[i] == d.items[i] && d.items[i].ref in d.depths;
      }
    }
  }

  lemma AddKeeps(known: set<string>, d: Draft, value: Json)
    requires DraftOk(known, d) && IsItem(value)
    ensures DraftOk(known, AddItem(known, d, value))
  {
    var r := AddItem(known, d, value);
    var item := r.items[|d.items|];
    AddKeepsForest(known, d, item);
    AddNesting(known, d, item);
    AddTracks(known, d, item, r.depths[item.ref]);
    forall i | 0 <= i < |r.items| ensures ItemOk(r.items, i) {
      if i < |d.items| {
        NestingPrefix(d.items, item, i);
        assert ItemOk(d.items, i) && r.items[i] == d.items[i];
      }
    }
  }

  /**
   * For every answer and every set of known ids the plan has at most 100 items; their refs differ from each other and
   * from the known ids; each parent is the target, a known id or an earlier item; new rows nest less than six deep; and
   * every text is there and at most 4000 characters.
   */
  lemma {:induction false} PlanIsBounded(known: set<string>, values: seq<Json>)
    ensures |Drafted(known, values).items| <= MAX_ITEMS
    ensures DraftOk(known, Drafted(known, values))
  {
    if values != [] {
      PlanIsBounded(known, values[..|values| - 1]);
      var before := Drafted(known, values[..|values| - 1]);
      if |before.items| < MAX_ITEMS && IsItem(values[|values| - 1]) { AddKeeps(known, before, values[|values| - 1]); }
    }
  }

  // ---------------------------------------------------------------------------
  // What the model said

  /** The texts of the values that are items. */
  function Texts(values: seq<Json>): seq<string> {
    if values == [] then []
    else
      var last := values[|values| - 1];
      Texts(values[..|values| - 1]) + if IsItem(last) then [Clip(TrimmedField(last, "text"), MAX_TEXT)] else []
  }

  function ItemTexts(items: seq<Item>): seq<string> { seq(|items|, i requires 0 <= i < |items| => items[i].text) }

  function Least(a: nat, b: nat): nat { if a < b then a else b }

  lemma TextAdded(known: set<string>, d: Draft, value: Json)
    requires IsItem(value)
    ensures ItemTexts(AddItem(known, d, value).items)
            == ItemTexts(d.items) + [Clip(TrimmedField(value, "text"), MAX_TEXT)]
  {}

  /**
   * The plan holds the texts of the answer's items, in order, as many as the limit allows; a value is left out only
   * when it has no text.
   */
  lemma {:induction false} NothingIsDropped(known: set<string>, values: seq<Json>)
    ensures ItemTexts(Drafted(known, values).items) == Texts(values)[..Least(MAX_ITEMS, |Texts(values)|)]
  {
    if values != [] {
      var init, last := values[..|values| - 1], values[|values| - 1];
      NothingIsDropped(known, init);
      PlanIsBounded(known, init);
      var before, texts := Drafted(known, init), Texts(init);
      assert |before.items| == |ItemTexts(before.items)| == Least(MAX_ITEMS, |texts|);
      if |before.items| == MAX_ITEMS {
        assert Texts(values)[..MAX_ITEMS] == texts[..MAX_ITEMS];
      } else {
        assert texts[..|texts|] == texts && Texts(values)[..|Texts(values)|] == Texts(values);
        if IsItem(last) { TextAdded(known, before, last); } else { assert texts + [] == texts; }
      }
    }
  }

  /** The values that are items. */
  function Values(values: seq<Json>): seq<Json> {
    if values == [] then []
    else
      var last := values[|values| - 1];
      Values(values[..|values| - 1]) + if IsItem(last) then [last] else []
  }

  /** Each item of a plan has the type its value gives it. */
  lemma {:induction false} KindsInOrder(known: set<string>, values: seq<Json>)
    ensures |Drafted(known, values).items| == Least(MAX_ITEMS, |Values(values)|)
    ensures forall i | 0 <= i < |Drafted(known, values).items| ::
            Drafted(known, values).items[i].kind == KindOf(Values(values)[i])
  {
    if values != [] { KindsInOrder(known, values[..|values| - 1]); }
  }

  predicate NamesInherited(value: Json) {
    TextField(value, "type").Some? && TextField(value, "type").value in INHERITED
  }

  /** One of the two types a plan may name. */
  predicate IsPlanType(kind: string) { kind == PLAIN_TYPE || kind == NOTE_TYPE }

  lemma KindIsPlanType(value: Json)
    ensures IsPlanType(KindOf(value)) <==> !NamesInherited(value)
  {}

  /**
   * Every item of a plan is of one of the two types a plan may name exactly when none of the values taken for it names
   * a property that every object has.
   */
  lemma KindIsNamed(known: set<string>, values: seq<Json>)
    ensures (forall item | item in Drafted(known, values).items :: IsPlanType(item.kind))
            <==> forall i | 0 <= i < |Values(values)| && i < MAX_ITEMS :: !NamesInherited(Values(values)[i])
  {
    KindsInOrder(known, values);
    KindsAre(Drafted(known, values).items, Values(values));
  }

  lemma KindsAre(items: seq<Item>, values: seq<Json>)
    requires |items| == Least(MAX_ITEMS, |values|) && forall i | 0 <= i < |items| :: items[i].kind == KindOf(values[i])
    ensures (forall item | item in items :: IsPlanType(item.kind))
            <==> forall i | 0 <= i < |values| && i < MAX_ITEMS :: !NamesInherited(values[i])
  {
    forall i | 0 <= i < |items| ensures IsPlanType(items[i].kind) <==> !NamesInherited(values[i]) {
      KindIsPlanType(values[i]);
    }
    if forall item | item in items :: IsPlanType(item.kind) {
      forall i | 0 <= i < |items| ensures !NamesInherited(values[i]) { assert items[i] in items; }
    } else {
      var item :| item in items && !IsPlanType(item.kind);
      var i :| 0 <= i < |items| && items[i] == item;
    }
  }

  /** An answer whose one item asks for the type named `constructor`, and gets it. */
  lemma KindIsInherited(known: set<string>)
    ensures var value := Obj(map["text" := Str("x"), "type" := Str("constructor")]);
            |Drafted(known, [value]).items| == 1 && Drafted(known, [value]).items[0].kind == "constructor"
  {
    var value := Obj(map["text" := Str("x"), "type" := Str("constructor")]);
    assert Trim("x") == "x" && TextField(value, "type") == Some("constructor") && IsItem(value);
    assert [value][..0] == [] && Values([value][..0]) == [];
    KindsInOrder(known, [value]);
    assert Values([value]) == [value];
  }

  // ---------------------------------------------------------------------------
  // The rows

  /** The items a tree, and a row of trees, put, in the order they are met. */
  function ItemsIn(t: Tree): seq<nat>
    decreases t, 0
  {
    [t.item] + ItemsInAll(t.rows)
  }

  function ItemsInAll(ts: seq<Tree>): seq<nat>
    decreases ts, 1
  {
    if ts == [] then [] else ItemsIn(ts[0]) + ItemsInAll(ts[1..])
  }

  /** The item, this one or one it is inside, that stands directly under a parent. */
  function Under(items: seq<Item>, i: nat, parent: Option<string>): Option<nat>
    requires i < |items|
    decreases i
  {
    if items[i].parent == parent then Some(i)
    else match ParentIndex(items, i) case Some(p) => Under(items, p, parent) case None => None
  }

  lemma {:induction false} UnderIsLater(items: seq<Item>, known: set<string>, r: nat, i: nat)
    requires IsForest(items, known) && r < |items| && i < |items| && Under(items, i, Some(items[r].ref)).Some?
    ensures i > r
    decreases i
  {
    if items[i].parent == Some(items[r].ref) {
      IndexOfOwn(items, known, r);
    } else {
      UnderIsLater(items, known, r, ParentIndex(items, i).value);
    }
  }

  /** An item is the root `r` under a parent, or inside it, exactly when `r` is what stands for it there. */
  lemma {:induction false} UnderRoot(items: seq<Item>, known: set<string>, parent: Option<string>, r: nat, i: nat)
    requires IsForest(items, known) && r < |items| && i < |items| && items[r].parent == parent
            && (parent.Some? ==> parent.value !in known)
    ensures i == r || Under(items, i, Some(items[r].ref)).Some? <==> Under(items, i, parent) == Some(r)
    decreases i
  {
    IndexOfOwn(items, known, r);
    if items[i].parent == parent {
      if i != r && Under(items, i, Some(items[r].ref)).Some? {
        UnderIsLater(items, known, r, ParentIndex(items, i).value);
        assert false;
      }
    } else if ParentIndex(items, i).Some? {
      UnderRoot(items, known, parent, r, ParentIndex(items, i).value);
    }
  }

  /** An item is under a parent, inside the `k`th item or a later one. */
  predicate StandsFrom(items: seq<Item>, i: nat, parent: Option<string>, k: nat) {
    i < |items| && Under(items, i, parent).Some? && Under(items, i, parent).value >= k
  }

  /** One more tree puts its root and what is inside it. */
  lemma TreePut(items: seq<Item>, known: set<string>, parent: Option<string>, k: nat, i: nat)
    requires IsForest(items, known) && k < |items| && (parent.Some? ==> parent.value !in known)
            && items[k].parent == parent
    requires i in ItemsInAll(RowsAt(items, known, Some(items[k].ref), 0))
            <==> StandsFrom(items, i, Some(items[k].ref), 0)
    requires i in ItemsInAll(RowsAt(items, known, parent, k + 1)) <==> StandsFrom(items, i, parent, k + 1)
    ensures i in ItemsInAll(RowsAt(items, known, parent, k)) <==> StandsFrom(items, i, parent, k)
  {
    Below(items, known, parent, k);
    var inside, rest := RowsAt(items, known, Some(items[k].ref), 0), RowsAt(items, known, parent, k + 1);
    var tree := Tree(k, items[k].text, items[k].kind, inside);
    assert RowsAt(items, known, parent, k) == [tree] + rest && ([tree] + rest)[1..] == rest;
    if i < |items| { UnderRoot(items, known, parent, k, i); }
  }

  /** What is put below a parent from the `k`th item on: everything that stands under it there, and nothing else. */
  lemma {:induction false} RowsPut(items: seq<Item>, known: set<string>, parent: Option<string>, k: nat, i: nat)
    requires IsForest(items, known) && k <= |items| && (parent.Some? ==> parent.value !in known)
    ensures i in ItemsInAll(RowsAt(items, known, parent, k)) <==> StandsFrom(items, i, parent, k)
    decreases Remaining(items, parent), |items| - k
  {
    if i < |items| { UnderStands(items, i, parent); }
    if k < |items| {
      RowsPut(items, known, parent, k + 1, i);
      if items[k].parent == parent {
        Below(items, known, parent, k);
        RowsPut(items, known, Some(items[k].ref), 0, i);
        TreePut(items, known, parent, k, i);
      }
    }
  }

  lemma {:induction false} UnderStands(items: seq<Item>, i: nat, parent: Option<string>)
    requires i < |items|
    ensures Under(items, i, parent).Some? ==>
            Under(items, i, parent).value <= i
            && items[Under(items, i, parent).value].parent == parent
    decreases i
  {
    if items[i].parent != parent && ParentIndex(items, i).Some? {
      UnderStands(items, ParentIndex(items, i).value, parent);
    }
  }

  lemma {:induction false} RowsOnce(items: seq<Item>, known: set<string>, parent: Option<string>, k: nat)
    requires IsForest(items, known) && k <= |items| && (parent.Some? ==> parent.value !in known)
    ensures Order.Distinct(ItemsInAll(RowsAt(items, known, parent, k)))
    decreases Remaining(items, parent), |items| - k
  {
    if k < |items| {
      RowsOnce(items, known, parent, k + 1);
      if items[k].parent == parent {
        Below(items, known, parent, k);
        RowsOnce(items, known, Some(items[k].ref), 0);
        TreeOnce(items, known, parent, k);
      }
    }
  }

  lemma TreeOnce(items: seq<Item>, known: set<string>, parent: Option<string>, k: nat)
    requires IsForest(items, known) && k < |items| && (parent.Some? ==> parent.value !in known)
            && items[k].parent == parent
    requires Order.Distinct(ItemsInAll(RowsAt(items, known, Some(items[k].ref), 0)))
            && Order.Distinct(ItemsInAll(RowsAt(items, known, parent, k + 1)))
    ensures Order.Distinct(ItemsInAll(RowsAt(items, known, parent, k)))
  {
    var inside, rest := RowsAt(items, known, Some(items[k].ref), 0), RowsAt(items, known, parent, k + 1);
    Below(items, known, parent, k);
    assert RowsAt(items, known, parent, k)[1..] == rest;
    forall x | x in ItemsInAll(inside) ensures x != k && x !in ItemsInAll(rest) {
      RowsPut(items, known, Some(items[k].ref), 0, x);
      RowsPut(items, known, parent, k + 1, x);
      UnderIsLater(items, known, k, x);
      UnderRoot(items, known, parent, k, x);
    }
    RowsPut(items, known, parent, k + 1, k);
    Order.DistinctJoined([k], ItemsInAll(inside));
    Order.DistinctJoined([k] + ItemsInAll(inside), ItemsInAll(rest));
  }

  /** Every item stands under the target when no outline rows are known. */
  lemma {:induction false} AllUnderTarget(items: seq<Item>, i: nat)
    requires IsForest(items, {}) && i < |items|
    ensures Under(items, i, None).Some?
    decreases i
  {
    if items[i].parent.Some? { AllUnderTarget(items, ParentIndex(items, i).value); }
  }

  /** Without an outline, building the plan ends and puts each of its items exactly once. */
  lemma EachItemOnce(values: seq<Json>)
    ensures DraftOk({}, Drafted({}, values))
    ensures var items := Drafted({}, values).items;
            var put := ItemsInAll(RowsAt(items, {}, None, 0));
            Order.Distinct(put) && forall i: nat :: i in put <==> i < |items|
  {
    PlanIsBounded({}, values);
    var items := Drafted({}, values).items;
    RowsOnce(items, {}, None, 0);
    forall i: nat ensures i in ItemsInAll(RowsAt(items, {}, None, 0)) <==> i < |items| {
      RowsPut(items, {}, None, 0, i);
      if i < |items| { AllUnderTarget(items, i); }
    }
  }

  /** With one, the items built are exactly those not inside a row of the outline. */
  lemma OutlineRowsAreLeftOut(items: seq<Item>, known: set<string>, i: nat)
    requires IsForest(items, known)
    ensures i in ItemsInAll(RowsAt(items, known, None, 0)) <==> i < |items| && Under(items, i, None).Some?
  {
    RowsPut(items, known, None, 0, i);
  }

  /** Each row is put inside its parent's, with its own text, and the rows of one parent in plan order. */
  ghost predicate InPlace(items: seq<Item>, parent: Option<string>, ts: seq<Tree>)
    decreases ts
  {
    && (forall j | 0 <= j < |ts| ::
        ts[j].item < |items| && items[ts[j].item].parent == parent
        && ts[j].text == items[ts[j].item].text && ts[j].kind == items[ts[j].item].kind)
    && (forall j, k | 0 <= j < k < |ts| :: ts[j].item < ts[k].item)
    && (forall j | 0 <= j < |ts| :: InPlace(items, Some(items[ts[j].item].ref), ts[j].rows))
  }

  lemma {:induction false} RowsInPlace(items: seq<Item>, known: set<string>, parent: Option<string>, k: nat)
    requires IsForest(items, known) && k <= |items| && (parent.Some? ==> parent.value !in known)
    ensures InPlace(items, parent, RowsAt(items, known, parent, k))
    ensures forall t | t in RowsAt(items, known, parent, k) :: t.item >= k
    decreases Remaining(items, parent), |items| - k
  {
    if k < |items| {
      RowsInPlace(items, known, parent, k + 1);
      if items[k].parent == parent {
        Below(items, known, parent, k);
        RowsInPlace(items, known, Some(items[k].ref), 0);
        var inside, rest := RowsAt(items, known, Some(items[k].ref), 0), RowsAt(items, known, parent, k + 1);
        InPlaceAdded(items, parent, Tree(k, items[k].text, items[k].kind, inside), rest);
      }
    }
  }

  lemma InPlaceAdded(items: seq<Item>, parent: Option<string>, first: Tree, rest: seq<Tree>)
    requires first.item < |items| && items[first.item].parent == parent && first.text == items[first.item].text
            && first.kind == items[first.item].kind
    requires InPlace(items, Some(items[first.item].ref), first.rows) && InPlace(items, parent, rest)
            && forall t | t in rest :: t.item > first.item
    ensures InPlace(items, parent, [first] + rest)
  {
    var ts := [first] + rest;
    assert forall j | 0 < j < |ts| :: ts[j] == rest[j - 1] && ts[j] in rest;
  }
}
