/** Resolving a choice inside a node: the picked version takes the choice's place. */
module Resolve {
  import opened Options
  import opened Json
  import opened Graph
  import opened Merge
  import opened MergeLaws
  import opened Store
  import opened ChoiceStore
  import opened Sequences
  import Order

  function Touch(c: Cid, now: real): Cid {
    Cid(Content(c.content.data["updated" := Obj(map["time" := Num(now)])], c.content.children))
  }

  /**
   * The row an option leaves in place of its choice: its version, marked as changed now; none when it is a deletion.
   */
  function PickedRows(edge: Option<Edge>, now: real): seq<Edge> {
    if edge.Some? then [Edge(edge.value.left, Touch(edge.value.right, now))] else []
  }

  /** The place of the first row with the key, |es| when there is none. */
  function FirstWithKey(h: Host, es: seq<Edge>, key: Key): (i: nat)
    ensures i <= |es|
    ensures i < |es| ==> KeyOf(h, es[i]) == key
    ensures forall j | 0 <= j < i :: KeyOf(h, es[j]) != key
  {
    if es == [] || KeyOf(h, es[0]) == key then 0 else 1 + FirstWithKey(h, es[1..], key)
  }

  function AlternativesOf(es: seq<Edge>): seq<Cid> {
    if es == [] then [] else (if es[0].left == Prim("notSelected") then [es[0].right] else []) + AlternativesOf(es[1..])
  }

  lemma {:induction false} AlternativesRead(es: seq<Edge>)
    ensures ReadOptions(es) == ReadAll(AlternativesOf(es))
  {
    if es != [] {
      AlternativesRead(es[1..]);
      var rest := AlternativesOf(es[1..]);
      assert [] + rest == rest && [] + ReadOptions(es[1..]) == ReadOptions(es[1..]);
      if es[0].left == Prim("notSelected") { ReadHead(es[0].right, rest); }
    }
  }

  lemma {:induction false} ReadAllAt(cs: seq<Cid>, k: nat)
    ensures |ReadAll(cs)| == |cs|
    ensures k < |cs| ==> ReadAll(cs)[k] == ReadOption(cs[k])
  {
    if cs != [] { ReadAllAt(cs[1..], if k > 0 then k - 1 else 0); }
  }

  lemma {:induction false} AlternativesOfIn(table: Table, es: seq<Edge>)
    requires RowsIn(table, es)
    ensures forall c | c in AlternativesOf(es) :: c in table
  {
    if es != [] { AlternativesOfIn(table, es[1..]); }
  }

  /**
   * What a pick puts in place of the choice; None when there is no such option. No pick, and a picked deletion, remove
   * it.
   */
  function Replacement(options: seq<ChoiceOption>, pick: Option<int>, now: real): Option<seq<Edge>> {
    match pick
    case None => Some([])
    case Some(k) => if 0 <= k < |options| then Some(PickedRows(options[k].edge, now)) else None
  }

  /** Rows with the choice replaced, siblings and their order untouched; rows without such a choice as they are. */
  function Resolved(h: Host, es: seq<Edge>, id: string, pick: Option<int>, now: real): Option<seq<Edge>> {
    var i := FirstWithKey(h, es, Alias(id));
    if i == |es| || !IsChoice(es[i]) then Some(es)
    else
      match Replacement(ReadChoice(h, es[i].right).options, pick, now)
      case Some(rows) => Some(es[..i] + rows + es[i + 1..])
      case None => None
  }

  method FilterAlternatives(es: seq<Edge>) returns (out: seq<Cid>)
    ensures out == AlternativesOf(es)
  {
    out := [];
    for i := 0 to |es|
      invariant out + AlternativesOf(es[i..]) == AlternativesOf(es)
    {
      assert es[i..][0] == es[i] && es[i..][1..] == es[i + 1..];
      if es[i].left == Prim("notSelected") { out := out + [es[i].right]; }
    }
  }

  /** The two ends of a pointer, the last of each. */
  method ReadEnds(es: seq<Edge>) returns (left: Option<Cid>, right: Option<Cid>)
    ensures left == Last(es, Prim("instruction")) && right == Last(es, Prim("target"))
  {
    PointerNames();
    left, right := None, None;
    for i := 0 to |es|
      invariant left == Last(es[..i], Prim("instruction")) && right == Last(es[..i], Prim("target"))
    {
      assert es[..i + 1][..i] == es[..i];
      if es[i].left == Prim("instruction") { left := Some(es[i].right); }
      if es[i].left == Prim("target") { right := Some(es[i].right); }
    }
    assert es[..|es|] == es;
  }

  /** The row in place of the choice, its node put with the time it was picked. */
  method PickInto(store: FosStore, h: Host, choice: Cid, pick: Option<int>, now: real) returns (r: Result<seq<Edge>>)
    requires Closed(store.table) && choice in store.table
    modifies store
    ensures Closed(store.table) && old(store.table).Keys <= store.table.Keys
    ensures var rows := Replacement(ReadChoice(h, choice).options, pick, now);
            (r.Ok? <==> rows.Some?) && (r.Ok? ==> rows == Some(r.value) && RowsIn(store.table, r.value))
  {
    if pick.None? { return Ok([]); }
    var alternatives := FilterAlternatives(choice.content.children);
    AlternativesRead(choice.content.children);
    ReadAllAt(alternatives, if pick.value >= 0 then pick.value else 0);
    if !(0 <= pick.value < |alternatives|) { return Err("choice has no such option"); }
    var pointer := alternatives[pick.value];
    AlternativesOfIn(store.table, choice.content.children);
    PointerIn(store.table, pointer);
    var left, right := ReadEnds(pointer.content.children);
    if left.None? || right.None? { return Ok([]); }
    var touched := store.Put(Touch(right.value, now).content);
    r := Ok([Edge(left.value, touched)]);
  }

  method ResolveChoiceIn(store: FosStore, h: Host, value: Content, id: string, pick: Option<int>, now: real)
      returns (r: Result<Content>)
    requires Closed(store.table) && RowsIn(store.table, value.children)
    modifies store
    ensures Closed(store.table) && old(store.table).Keys <= store.table.Keys
    ensures r.Ok? <==> Resolved(h, value.children, id, pick, now).Some?
    ensures r.Ok? ==>
            r.value == Content(value.data, Resolved(h, value.children, id, pick, now).value)
            && RowsIn(store.table, r.value.children)
  {
    var children := ResolveRows(store, h, value.children, id, pick, now);
    if children.Err? { return Err(children.message); }
    r := Ok(Content(value.data, children.value));
  }

  method ResolveRows(store: FosStore, h: Host, es: seq<Edge>, id: string, pick: Option<int>, now: real)
      returns (r: Result<seq<Edge>>)
    requires Closed(store.table) && RowsIn(store.table, es)
    modifies store
    ensures Closed(store.table) && old(store.table).Keys <= store.table.Keys
    ensures r.Ok? <==> Resolved(h, es, id, pick, now).Some?
    ensures r.Ok? ==> Some(r.value) == Resolved(h, es, id, pick, now) && RowsIn(store.table, r.value)
  {
    var found := FirstWithKey(h, es, Alias(id));
    ResolvedIs(h, es, id, pick, now, found);
    if found == |es| || !IsChoice(es[found]) { return Ok(es); }
    r := ReplaceInto(store, h, es, found, pick, now);
  }

  lemma ResolvedIs(h: Host, es: seq<Edge>, id: string, pick: Option<int>, now: real, i: nat)
    requires i == FirstWithKey(h, es, Alias(id)) && i <= |es|
    ensures i == |es| || !IsChoice(es[i]) ==> Resolved(h, es, id, pick, now) == Some(es)
    ensures i < |es| && IsChoice(es[i]) ==>
              var rows := Replacement(ReadChoice(h, es[i].right).options, pick, now);
              Resolved(h, es, id, pick, now) == if rows.Some? then Some(es[..i] + rows.value + es[i + 1..]) else None
  {}

  method ReplaceInto(store: FosStore, h: Host, es: seq<Edge>, found: nat, pick: Option<int>, now: real)
      returns (r: Result<seq<Edge>>)
    requires Closed(store.table) && RowsIn(store.table, es) && found < |es|
    modifies store
    ensures Closed(store.table) && old(store.table).Keys <= store.table.Keys
    ensures var rows := Replacement(ReadChoice(h, es[found].right).options, pick, now);
            (r.Ok? <==> rows.Some?) && (r.Ok? ==>
                r.value == es[..found] + rows.value + es[found + 1..]
                && RowsIn(store.table, r.value))
  {
    ghost var rows := Replacement(ReadChoice(h, es[found].right).options, pick, now);
    ghost var put := if rows.Some? then rows.value else [];
    var children := [];
    for i := 0 to |es|
      invariant Closed(store.table) && old(store.table).Keys <= store.table.Keys && RowsIn(store.table, children)
      invariant RowsIn(store.table, es)
      invariant i > found ==> rows.Some?
      invariant children == Built(es, found, put, i)
    {
      BuiltNext(es, found, put, i);
      if i != found {
        children := children + [es[i]];
      } else {
        var picked := PickInto(store, h, es[i].right, pick, now);
        if picked.Err? { return Err(picked.message); }
        children := children + picked.value;
      }
    }
    BuiltAll(es, found, put);
    r := Ok(children);
  }

  /** The first `i` rows with the one at `found` replaced. */
  function Built(es: seq<Edge>, found: nat, rows: seq<Edge>, i: nat): seq<Edge>
    requires found < |es| && i <= |es|
  {
    if i <= found then es[..i] else es[..found] + rows + es[found + 1..i]
  }

  lemma BuiltAll(es: seq<Edge>, found: nat, rows: seq<Edge>)
    requires found < |es|
    ensures Built(es, found, rows, |es|) == es[..found] + rows + es[found + 1..]
  {
    assert es[found + 1..|es|] == es[found + 1..];
  }

  lemma BuiltNext(es: seq<Edge>, found: nat, rows: seq<Edge>, i: nat)
    requires found < |es| && i < |es|
    ensures Built(es, found, rows, i + 1) == Built(es, found, rows, i) + if i == found then rows else [es[i]]
  {
    if i > found {
      assert es[found + 1..i + 1] == es[found + 1..i] + [es[i]];
    }
  }

  // ---------------------------------------------------------------------------
  // A choice gives back what it holds

  /** The place of an option the choice was made with. */
  lemma OptionAt(options: seq<ChoiceOption>, os: seq<ChoiceOption>, o: ChoiceOption) returns (pick: nat)
    requires multiset(options) == multiset(NamedAll(os)) && Named(o) in NamedAll(os)
    ensures pick < |options| && options[pick] == Named(o)
  {
    assert Named(o) in multiset(options);
    pick :| pick < |options| && options[pick] == Named(o);
  }

  lemma SidesNamed(o: Option<Edge>, t: Option<Edge>, labels: Labels)
    ensures Named(SideOptions(o, t, labels)[0]) in NamedAll(SideOptions(o, t, labels))
    ensures Named(SideOptions(o, t, labels)[1]) in NamedAll(SideOptions(o, t, labels))
  {
    var os := SideOptions(o, t, labels);
    assert os[1..] == [os[1]] && os[1..][1..] == [];
    assert NamedAll(os[1..]) == [Named(os[1])] + NamedAll([]);
  }

  lemma PickReplaces(h: Host, before: seq<Edge>, row: Edge, after: seq<Edge>, id: string, pick: Option<int>, now: real,
      rows: seq<Edge>)
    requires id != "" && IsChoice(row) && AliasId(row.right.content) == Some(id)
    requires forall e | e in before :: KeyOf(h, e) != Alias(id)
    requires Replacement(ReadChoice(h, row.right).options, pick, now) == Some(rows)
    ensures Resolved(h, before + [row] + after, id, pick, now) == Some(before + rows + after)
  {
    var es := before + [row] + after;
    ChoiceHasKey(h, id, row);
    FirstAt(h, before, row, after, Alias(id));
    assert es[|before|] == row && es[..|before|] == before && es[|before| + 1..] == after;
  }

  lemma ChoiceHasKey(h: Host, id: string, row: Edge)
    requires id != "" && IsChoice(row) && AliasId(row.right.content) == Some(id)
    ensures KeyOf(h, row) == Alias(id)
  {
    if Prim("choice") == Prim("proposal") { PrimInjective("choice", "proposal"); }
  }

  lemma FirstAt(h: Host, before: seq<Edge>, row: Edge, after: seq<Edge>, key: Key)
    requires KeyOf(h, row) == key && forall e | e in before :: KeyOf(h, e) != key
    ensures FirstWithKey(h, before + [row] + after, key) == |before|
  {
    var es := before + [row] + after;
    assert es[|before|] == row;
    forall j | 0 <= j < |before| ensures KeyOf(h, es[j]) != key { assert es[j] == before[j]; }
  }

  /** Either version a choice was raised over can be put back, whatever key the row had. */
  lemma ChoiceGivesBack(h: Host, before: seq<Edge>, after: seq<Edge>, key: Key, b: Option<Edge>, o: Option<Edge>,
      t: Option<Edge>, labels: Labels, now: real)
    returns (ours: nat, theirs: nat)
    requires ChoiceId(h, key) != "" && forall e | e in before :: KeyOf(h, e) != Alias(ChoiceId(h, key))
    ensures var es, id := before + [Edge(Prim("choice"), ChoiceOver(h, key, b, o, t, labels))] + after,
            ChoiceId(h, key);
            && Resolved(h, es, id, Some(ours), now) == Some(before + PickedRows(o, now) + after)
            && Resolved(h, es, id, Some(theirs), now) == Some(before + PickedRows(t, now) + after)
            && Resolved(h, es, id, None, now) == Some(before + [] + after)
  {
    var row, id := Edge(Prim("choice"), ChoiceOver(h, key, b, o, t, labels)), ChoiceId(h, key);
    ours, theirs := SidesAt(h, key, b, o, t, labels);
    PickReplaces(h, before, row, after, id, Some(ours), now, PickedRows(o, now));
    PickReplaces(h, before, row, after, id, Some(theirs), now, PickedRows(t, now));
    PickReplaces(h, before, row, after, id, None, now, []);
  }

  /** The places of both sides' versions among a choice's options. */
  lemma SidesAt(h: Host, key: Key, b: Option<Edge>, o: Option<Edge>, t: Option<Edge>, labels: Labels)
      returns (ours: nat, theirs: nat)
    ensures var options := ReadChoice(h, ChoiceOver(h, key, b, o, t, labels)).options;
            ours < |options| && options[ours].edge == o && theirs < |options| && options[theirs].edge == t
  {
    var os := SideOptions(o, t, labels);
    ChoiceReads(h, key, b, o, t, labels);
    SidesNamed(o, t, labels);
    ours := OptionAt(ReadChoice(h, ChoiceOver(h, key, b, o, t, labels)).options, os, os[0]);
    theirs := OptionAt(ReadChoice(h, ChoiceOver(h, key, b, o, t, labels)).options, os, os[1]);
  }

  // ---------------------------------------------------------------------------
  // The choices of a merge, where they stand

  /** Rows are filed under their own keys. */
  ghost predicate Filed(h: Host, key: Key, e: Option<Edge>) { e.Some? ==> KeyOf(h, e.value) == key }

  lemma ChoiceIdNotEmpty(h: Host, key: Key, e: Edge)
    requires KeyOf(h, e) == key
    ensures ChoiceId(h, key) != ""
  {
    match key
    case Alias(id) =>
    case Submission(name) => assert ("p:" + name)[0] == 'p';
    case Exact(x) => assert ("e:" + h.text(x.left) + ":" + h.text(x.right))[0] == 'e';
  }

  /** Two versions of one row merge to a row of the same identity, if not to a proposal. */
  lemma MergedKey(h: Host, key: Key, b: Option<Edge>, o: Edge, t: Edge, labels: Labels, c: Cid)
    requires KeyOf(h, o) == key && KeyOf(h, t) == key && o != t && !key.Submission?
    requires VersionsMerge(h, b, o, t, labels) == Merged(c)
    ensures KeyOf(h, Edge(o.left, c)) == key || KeyOf(h, Edge(o.left, c)).Submission?
  {
    assert KeepsIdentity(o.right, t.right, MergeNode(h, BaseOf(b, o), o.right, t.right, labels, false,
        IsFieldRow(h, o)));
  }

  predicate HasKey(h: Host, key: Key, e: Edge) {
    KeyOf(h, e) == key || KeyOf(h, e).Submission? || KeyOf(h, e) == Alias(ChoiceId(h, key))
  }

  /** An uncontested row is one of the versions. */
  lemma TakenKey(h: Host, key: Key, b: Option<Edge>, o: Option<Edge>, t: Option<Edge>, labels: Labels, bound: nat,
      e: Edge)
    requires o.Some? && t.Some? ==> Height(o.value.right) + Height(t.value.right) < bound
    requires !Contested(key, b, o, t) && MergeKey(h, key, b, o, t, labels, bound).rows.Rows?
            && e in MergeKey(h, key, b, o, t, labels, bound).rows.edges
    ensures Some(e) == o || Some(e) == t
  {}

  lemma ChoiceKey(h: Host, key: Key, b: Option<Edge>, o: Option<Edge>, t: Option<Edge>, labels: Labels)
    requires Contested(key, b, o, t) && Filed(h, key, o) && Filed(h, key, t)
    ensures HasKey(h, key, Edge(Prim("choice"), ChoiceOver(h, key, b, o, t, labels)))
  {
    ChoiceIdNotEmpty(h, key, if o.Some? then o.value else t.value);
    ChoiceHasKey(h, ChoiceId(h, key), Edge(Prim("choice"), ChoiceOver(h, key, b, o, t, labels)));
  }

  /** What one key contributes has that key, or the identity of the choice over it, or is a proposal. */
  lemma RowKey(h: Host, key: Key, b: Option<Edge>, o: Option<Edge>, t: Option<Edge>, labels: Labels, bound: nat,
      e: Edge)
    requires o.Some? && t.Some? ==> Height(o.value.right) + Height(t.value.right) < bound
    requires Filed(h, key, o) && Filed(h, key, t)
    requires MergeKey(h, key, b, o, t, labels, bound).rows.Rows?
            && e in MergeKey(h, key, b, o, t, labels, bound).rows.edges
    ensures HasKey(h, key, e)
  {
    if !Contested(key, b, o, t) {
      TakenKey(h, key, b, o, t, labels, bound, e);
    } else if Descends(o, t) && VersionsMerge(h, b, o.value, t.value, labels).Merged? {
      KeyMerges(h, key, b, o, t, labels, bound);
      MergedKey(h, key, b, o.value, t.value, labels, VersionsMerge(h, b, o.value, t.value, labels).cid);
    } else {
      KeyDivides(h, key, b, o, t, labels, bound);
      ChoiceKey(h, key, b, o, t, labels);
    }
  }

  /** The merged rows are what the keys before one contribute, what it contributes, and what those after it do. */
  lemma {:induction false} KeysSplit(h: Host, keys: seq<Key>, i: nat, bm: map<Key, Edge>, om: map<Key, Edge>,
      tm: map<Key, Edge>, labels: Labels, bound: nat)
    requires Below(om, tm, bound) && i < |keys| && MergeKeys(h, keys, bm, om, tm, labels, bound).rows.Rows?
    ensures MergeKeys(h, keys[..i], bm, om, tm, labels, bound).rows.Rows?
            && MergeKeys(h, keys[i + 1..], bm, om, tm, labels, bound).rows.Rows?
    ensures var key := keys[i];
            && MergeKey(h, key, At(bm, key), At(om, key), At(tm, key), labels, bound).rows.Rows?
            && MergeKeys(h, keys, bm, om, tm, labels, bound).rows.edges
               == MergeKeys(h, keys[..i], bm, om, tm, labels, bound).rows.edges
                  + MergeKey(h, key, At(bm, key), At(om, key), At(tm, key), labels, bound).rows.edges
                  + MergeKeys(h, keys[i + 1..], bm, om, tm, labels, bound).rows.edges
  {
    if i == 0 {
      assert keys[..0] == [] && MergeKeys(h, keys[..0], bm, om, tm, labels, bound).rows.edges == [];
      Whole(MergeKey(h, keys[0], At(bm, keys[0]), At(om, keys[0]), At(tm, keys[0]), labels, bound).rows.edges);
    } else {
      KeysSplit(h, keys[1..], i - 1, bm, om, tm, labels, bound);
      assert keys[1..][..i - 1] == keys[..i][1..] && keys[1..][i..] == keys[i + 1..] && keys[1..][i - 1] == keys[i]
          && keys[..i][0] == keys[0];
      KeysHead(h, keys[..i], bm, om, tm, labels, bound);
      KeysHead(h, keys, bm, om, tm, labels, bound);
      var first := MergeKey(h, keys[0], At(bm, keys[0]), At(om, keys[0]), At(tm, keys[0]), labels, bound).rows.edges;
      var mid := MergeKey(h, keys[i], At(bm, keys[i]), At(om, keys[i]), At(tm, keys[i]), labels, bound).rows.edges;
      FourJoined(first, MergeKeys(h, keys[..i][1..], bm, om, tm, labels, bound).rows.edges, mid,
          MergeKeys(h, keys[i + 1..], bm, om, tm, labels, bound).rows.edges);
    }
  }

  lemma KeysHead(h: Host, keys: seq<Key>, bm: map<Key, Edge>, om: map<Key, Edge>, tm: map<Key, Edge>, labels: Labels,
      bound: nat)
    requires Below(om, tm, bound) && keys != []
    requires MergeKey(h, keys[0], At(bm, keys[0]), At(om, keys[0]), At(tm, keys[0]), labels, bound).rows.Rows?
    requires MergeKeys(h, keys[1..], bm, om, tm, labels, bound).rows.Rows?
    ensures MergeKeys(h, keys, bm, om, tm, labels, bound).rows
            == Rows(MergeKey(h, keys[0], At(bm, keys[0]), At(om, keys[0]), At(tm, keys[0]), labels, bound).rows.edges
                    + MergeKeys(h, keys[1..], bm, om, tm, labels, bound).rows.edges)
  {}

  lemma FourJoined<T>(a: seq<T>, b: seq<T>, c: seq<T>, d: seq<T>)
    ensures a + (b + c + d) == a + b + c + d
  {}

  /** The key's row could not be merged: it stands in the merged rows as a choice over both versions. */
  predicate DividedAt(h: Host, base: Content, ours: Content, theirs: Content, labels: Labels, key: Key) {
    && key in AllKeys(h, base, ours, theirs)
    && RowFor(h, base, ours, theirs, labels, key).rows
        == Rows([Edge(Prim("choice"), ChoiceAt(h, base, ours, theirs, labels, key))])
    && BothChanged(At(RowsByKey(h, base.children), key), At(RowsByKey(h, ours.children), key),
        At(RowsByKey(h, theirs.children), key))
  }

  function ChoiceAt(h: Host, base: Content, ours: Content, theirs: Content, labels: Labels, key: Key): Cid {
    ChoiceOver(h, key, At(RowsByKey(h, base.children), key), At(RowsByKey(h, ours.children), key),
        At(RowsByKey(h, theirs.children), key), labels)
  }

  lemma MapFiled(h: Host, es: seq<Edge>, key: Key)
    ensures Filed(h, key, At(RowsByKey(h, es), key))
  {
    RowsByKeyShape(h, es);
  }

  ghost predicate FiledMap(h: Host, m: map<Key, Edge>) { forall key | key in m :: KeyOf(h, m[key]) == key }

  lemma MapsFiled(h: Host, es: seq<Edge>)
    ensures FiledMap(h, RowsByKey(h, es))
  {
    RowsByKeyShape(h, es);
  }

  /** Rows of other keys do not have the identity of a choice over this one, when no other key's choice would. */
  lemma OtherRows(h: Host, key: Key, keys: seq<Key>, bm: map<Key, Edge>, om: map<Key, Edge>, tm: map<Key, Edge>,
      labels: Labels, bound: nat, e: Edge)
    requires Below(om, tm, bound) && FiledMap(h, om) && FiledMap(h, tm)
    requires forall k | k in keys :: ChoiceId(h, k) != ChoiceId(h, key)
    requires MergeKeys(h, keys, bm, om, tm, labels, bound).rows.Rows?
            && e in MergeKeys(h, keys, bm, om, tm, labels, bound).rows.edges
    ensures KeyOf(h, e) != Alias(ChoiceId(h, key))
  {
    var k := RowSource(h, keys, bm, om, tm, labels, bound, e);
    OtherId(h, k, key, e);
  }

  /** The key a merged row comes from. */
  lemma RowSource(h: Host, keys: seq<Key>, bm: map<Key, Edge>, om: map<Key, Edge>, tm: map<Key, Edge>, labels: Labels,
      bound: nat, e: Edge) returns (k: Key)
    requires Below(om, tm, bound) && FiledMap(h, om) && FiledMap(h, tm)
    requires MergeKeys(h, keys, bm, om, tm, labels, bound).rows.Rows?
            && e in MergeKeys(h, keys, bm, om, tm, labels, bound).rows.edges
    ensures k in keys && HasKey(h, k, e)
  {
    KeysContribute(h, keys, bm, om, tm, labels, bound);
    k :| k in keys && e in MergeKey(h, k, At(bm, k), At(om, k), At(tm, k), labels, bound).rows.edges;
    RowKey(h, k, At(bm, k), At(om, k), At(tm, k), labels, bound, e);
  }

  lemma OtherId(h: Host, k: Key, key: Key, e: Edge)
    requires HasKey(h, k, e) && ChoiceId(h, k) != ChoiceId(h, key)
    ensures KeyOf(h, e) != Alias(ChoiceId(h, key))
  {}

  /** Where a choice stands among the merged rows. */
  lemma ChoiceStands(h: Host, base: Content, ours: Content, theirs: Content, labels: Labels, key: Key)
      returns (before: seq<Edge>, after: seq<Edge>)
    requires MergeChildren(h, base, ours, theirs, labels).rows.Rows? && DividedAt(h, base, ours, theirs, labels, key)
    requires forall k | k in AllKeys(h, base, ours, theirs) && k != key :: ChoiceId(h, k) != ChoiceId(h, key)
    ensures MergeChildren(h, base, ours, theirs, labels).rows.edges
            == before + [Edge(Prim("choice"), ChoiceAt(h, base, ours, theirs, labels, key))] + after
    ensures forall e | e in before :: KeyOf(h, e) != Alias(ChoiceId(h, key))
  {
    ChildrenBelow(h, ours, theirs);
    var keys := AllKeys(h, base, ours, theirs);
    var bm, om, tm, bound := RowsByKey(h, base.children), RowsByKey(h, ours.children), RowsByKey(h, theirs.children),
        Size(Cid(ours), Cid(theirs));
    var i := FirstPlace(keys, key);
    KeysSplit(h, keys, i, bm, om, tm, labels, bound);
    before, after := MergeKeys(h, keys[..i], bm, om, tm, labels, bound).rows.edges,
        MergeKeys(h, keys[i + 1..], bm, om, tm, labels, bound).rows.edges;
    MapsFiled(h, ours.children);
    MapsFiled(h, theirs.children);
    forall e | e in before ensures KeyOf(h, e) != Alias(ChoiceId(h, key)) {
      OtherRows(h, key, keys[..i], bm, om, tm, labels, bound, e);
    }
  }

  lemma FirstPlace(keys: seq<Key>, key: Key) returns (i: nat)
    requires key in keys
    ensures i < |keys| && keys[i] == key && forall k | k in keys[..i] :: k in keys && k != key
  {
    i := Order.IndexOf(keys, key);
    forall k | k in keys[..i] ensures k in keys && k != key {
      var j :| 0 <= j < i && keys[..i][j] == k;
    }
  }

  /**
   * Either version of a row the merge kept as a choice can be put back into the merged rows, whatever key it had: some
   * pick restores ours, some pick restores theirs, each in the choice's own place, or removes the row where that side
   * had deleted it; no pick removes it. The one condition is that no other key is named as this choice is.
   */
  lemma EitherVersionReturns(h: Host, base: Content, ours: Content, theirs: Content, labels: Labels, key: Key,
      now: real)
    returns (before: seq<Edge>, after: seq<Edge>, oursPick: nat, theirsPick: nat)
    requires MergeChildren(h, base, ours, theirs, labels).rows.Rows? && DividedAt(h, base, ours, theirs, labels, key)
    requires forall k | k in AllKeys(h, base, ours, theirs) && k != key :: ChoiceId(h, k) != ChoiceId(h, key)
    ensures var es, id := MergeChildren(h, base, ours, theirs, labels).rows.edges, ChoiceId(h, key);
            && es == before + [Edge(Prim("choice"), ChoiceAt(h, base, ours, theirs, labels, key))] + after
            && Resolved(h, es, id, Some(oursPick), now)
                == Some(before + PickedRows(At(RowsByKey(h, ours.children), key), now) + after)
            && Resolved(h, es, id, Some(theirsPick), now)
                == Some(before + PickedRows(At(RowsByKey(h, theirs.children), key), now) + after)
            && Resolved(h, es, id, None, now) == Some(before + [] + after)
  {
    before, after := ChoiceStands(h, base, ours, theirs, labels, key);
    SomeRow(h, base, ours, theirs, key);
    oursPick, theirsPick := ChoiceGivesBack(h, before, after, key, At(RowsByKey(h, base.children), key),
        At(RowsByKey(h, ours.children), key),
      At(RowsByKey(h, theirs.children), key), labels, now);
  }

  lemma SomeRow(h: Host, base: Content, ours: Content, theirs: Content, key: Key)
    requires BothChanged(At(RowsByKey(h, base.children), key), At(RowsByKey(h, ours.children), key),
            At(RowsByKey(h, theirs.children), key))
    ensures ChoiceId(h, key) != ""
  {
    var o, t := At(RowsByKey(h, ours.children), key), At(RowsByKey(h, theirs.children), key);
    MapFiled(h, ours.children, key);
    MapFiled(h, theirs.children, key);
    ChoiceIdNotEmpty(h, key, if o.Some? then o.value else t.value);
  }
}
