/** Choices, refs and value branches written into a store: every node they are made of, bottom up. */
module ChoiceStore {
  import opened Options
  import opened Json
  import opened Graph
  import opened Merge
  import opened Store
  import opened Sequences

  ghost predicate EdgeIn(table: Table, e: Option<Edge>) {
    e.Some? ==> e.value.left in table && e.value.right in table
  }

  ghost predicate OptionIn(table: Table, o: ChoiceOption) {
    EdgeIn(table, o.edge) && EdgeIn(table, o.base) && (o.requestMerge.Some? ==> o.requestMerge.value in table)
  }

  ghost predicate OptionsIn(table: Table, os: seq<ChoiceOption>) { forall o | o in os :: OptionIn(table, o) }

  ghost predicate ChoiceIn(table: Table, choice: ChoiceRecord) {
    EdgeIn(table, choice.base) && OptionsIn(table, choice.options)
  }

  // ---------------------------------------------------------------------------
  // What a node of a closed table leads to is in the table

  lemma {:induction false} FirstIn(table: Table, es: seq<Edge>, left: Cid)
    requires RowsIn(table, es)
    ensures First(es, left).Some? ==> First(es, left).value in table
  {
    if es != [] && es[0].left != left { FirstIn(table, es[1..], left); }
  }

  lemma {:induction false} LastIn(table: Table, es: seq<Edge>, left: Cid)
    requires RowsIn(table, es)
    ensures Last(es, left).Some? ==> Last(es, left).value in table
  {
    if es != [] && es[|es| - 1].left != left { LastIn(table, es[..|es| - 1], left); }
  }

  lemma PointerIn(table: Table, c: Cid)
    requires Closed(table) && c in table
    ensures EdgeIn(table, ReadPointer(c))
  {
    LastIn(table, c.content.children, Prim("instruction"));
    LastIn(table, c.content.children, Prim("target"));
  }

  lemma ReadOptionIn(table: Table, c: Cid)
    requires Closed(table) && c in table
    ensures OptionIn(table, ReadOption(c))
  {
    PointerIn(table, c);
    FirstIn(table, c.content.children, Prim("approve"));
    FirstIn(table, c.content.children, Prim("base"));
    var base := First(c.content.children, Prim("base"));
    if base.Some? { PointerIn(table, base.value); }
  }

  lemma {:induction false} ReadOptionsIn(table: Table, es: seq<Edge>)
    requires Closed(table) && RowsIn(table, es)
    ensures OptionsIn(table, ReadOptions(es))
  {
    if es != [] {
      ReadOptionIn(table, es[0].right);
      ReadOptionsIn(table, es[1..]);
    }
  }

  lemma ReadChoiceIn(table: Table, h: Host, c: Cid)
    requires Closed(table) && c in table
    ensures ChoiceIn(table, ReadChoice(h, c))
  {
    ReadOptionsIn(table, c.content.children);
    LastIn(table, c.content.children, Prim("base"));
    var base := Last(c.content.children, Prim("base"));
    if base.Some? { PointerIn(table, base.value); }
  }

  lemma {:induction false} FoundIn(table: Table, os: seq<ChoiceOption>, name: string)
    requires OptionsIn(table, os)
    ensures FindOption(os, name).Some? ==> OptionIn(table, FindOption(os, name).value)
  {
    if os != [] && os[0].peerId != name { FoundIn(table, os[1..], name); }
  }

  lemma {:induction false} FilterRows(table: Table, h: Host, s: Sieve, es: seq<Edge>)
    requires RowsIn(table, es)
    ensures RowsIn(table, Filter(h, s, es))
  {
    if es != [] { FilterRows(table, h, s, es[1..]); }
  }

  // ---------------------------------------------------------------------------
  // Primitives, pointers, options

  method PutPrim(store: FosStore, name: string) returns (cid: Cid)
    requires Closed(store.table)
    modifies store
    ensures Closed(store.table) && old(store.table).Keys <= store.table.Keys
    ensures cid == Prim(name) && cid in store.table
  {
    var kind := store.Put(Scalar("primitive").content);
    var text := store.Put(Scalar(name).content);
    cid := store.Put(Content(map[], [Edge(kind, text)]));
  }

  method PutPointerRows(store: FosStore, edge: Option<Edge>) returns (rows: seq<Edge>)
    requires Closed(store.table) && EdgeIn(store.table, edge)
    modifies store
    ensures Closed(store.table) && old(store.table).Keys <= store.table.Keys
    ensures rows == PointerRows(edge) && RowsIn(store.table, rows)
  {
    if edge.None? { return []; }
    var instruction := PutPrim(store, "instruction");
    var target := PutPrim(store, "target");
    rows := [Edge(instruction, edge.value.left), Edge(target, edge.value.right)];
  }

  method PutPointer(store: FosStore, edge: Option<Edge>) returns (cid: Cid)
    requires Closed(store.table) && EdgeIn(store.table, edge)
    modifies store
    ensures Closed(store.table) && old(store.table).Keys <= store.table.Keys
    ensures cid == Pointer(edge) && cid in store.table
  {
    var rows := PutPointerRows(store, edge);
    cid := store.Put(Content(map[], rows));
  }

  method PutBaseRows(store: FosStore, o: ChoiceOption) returns (rows: seq<Edge>)
    requires Closed(store.table) && EdgeIn(store.table, o.base)
    modifies store
    ensures Closed(store.table) && old(store.table).Keys <= store.table.Keys
    ensures rows == BaseRows(o) && RowsIn(store.table, rows)
  {
    if o.base.None? { return []; }
    var base := PutPrim(store, "base");
    var pointer := PutPointer(store, o.base);
    rows := [Edge(base, pointer)];
  }

  method PutOption(store: FosStore, o: ChoiceOption) returns (cid: Cid)
    requires Closed(store.table) && OptionIn(store.table, o)
    modifies store
    ensures Closed(store.table) && old(store.table).Keys <= store.table.Keys
    ensures cid == OptionNode(o) && cid in store.table
  {
    var rows := PutPointerRows(store, o.edge);
    if o.requestMerge.Some? {
      var approve := PutPrim(store, "approve");
      rows := rows + [Edge(approve, o.requestMerge.value)];
    }
    var base := PutBaseRows(store, o);
    cid := store.Put(Content(PointerData(o.peerId), rows + base));
  }

  lemma NodesNext(options: seq<ChoiceOption>, i: nat, nodes: seq<Cid>)
    requires i < |options|
    ensures nodes + OptionNodes(options[i..]) == nodes + [OptionNode(options[i])] + OptionNodes(options[i + 1..])
  {
    assert options[i..][1..] == options[i + 1..];
    Longer(nodes, [OptionNode(options[i])], OptionNodes(options[i + 1..]));
  }

  method PutOptions(store: FosStore, options: seq<ChoiceOption>) returns (nodes: seq<Cid>)
    requires Closed(store.table) && OptionsIn(store.table, options)
    modifies store
    ensures Closed(store.table) && old(store.table).Keys <= store.table.Keys
    ensures nodes == OptionNodes(options) && AllIn(store.table, nodes)
  {
    nodes := [];
    assert options[0..] == options;
    for i := 0 to |options|
      invariant Closed(store.table) && old(store.table).Keys <= store.table.Keys
      invariant nodes + OptionNodes(options[i..]) == OptionNodes(options)
      invariant OptionsIn(store.table, options) && AllIn(store.table, nodes)
    {
      NodesNext(options, i, nodes);
      nodes := PushOption(store, options, i, nodes);
    }
    NoNodesLeft(options, nodes);
  }

  lemma NoNodesLeft(options: seq<ChoiceOption>, nodes: seq<Cid>)
    ensures nodes + OptionNodes(options[|options|..]) == nodes
  {
    assert options[|options|..] == [] && OptionNodes([]) == [];
  }

  method PushOption(store: FosStore, options: seq<ChoiceOption>, i: nat, nodes: seq<Cid>) returns (more: seq<Cid>)
    requires Closed(store.table) && OptionsIn(store.table, options) && i < |options| && AllIn(store.table, nodes)
    modifies store
    ensures Closed(store.table) && old(store.table).Keys <= store.table.Keys
    ensures more == nodes + [OptionNode(options[i])] && AllIn(store.table, more) && OptionsIn(store.table, options)
  {
    assert OptionIn(store.table, options[i]);
    var node := PutOption(store, options[i]);
    more := nodes + [node];
  }

  ghost predicate AllIn(table: Table, cids: seq<Cid>) { forall c | c in cids :: c in table }

  lemma {:induction false} InsertIn(table: Table, h: Host, c: Cid, cs: seq<Cid>)
    requires c in table && forall x | x in cs :: x in table
    ensures forall x | x in Insert(h, c, cs) :: x in table
  {
    if cs != [] { InsertIn(table, h, c, cs[1..]); }
  }

  lemma {:induction false} SortIn(table: Table, h: Host, cs: seq<Cid>)
    requires forall x | x in cs :: x in table
    ensures forall x | x in Sort(h, cs) :: x in table
  {
    if cs != [] {
      SortIn(table, h, cs[1..]);
      InsertIn(table, h, cs[0], Sort(h, cs[1..]));
    }
  }

  lemma {:induction false} AlternativesIn(table: Table, cs: seq<Cid>)
    requires Prim("notSelected") in table && forall x | x in cs :: x in table
    ensures RowsIn(table, Alternatives(cs))
  {
    if cs != [] { AlternativesIn(table, cs[1..]); }
  }

  method PutChoiceRows(store: FosStore, h: Host, base: Option<Edge>, options: seq<ChoiceOption>)
      returns (rows: seq<Edge>)
    requires Closed(store.table) && EdgeIn(store.table, base) && OptionsIn(store.table, options)
    modifies store
    ensures Closed(store.table) && old(store.table).Keys <= store.table.Keys
    ensures rows == ChoiceRows(h, base, options) && RowsIn(store.table, rows)
  {
    var nodes := PutOptions(store, options);
    var baseCid := PutPointer(store, base);
    var baseName := PutPrim(store, "base");
    var notSelected := PutPrim(store, "notSelected");
    SortIn(store.table, h, nodes);
    AlternativesIn(store.table, Sort(h, nodes));
    rows := [Edge(baseName, baseCid)] + Alternatives(Sort(h, nodes));
  }

  method StoreChoice(store: FosStore, h: Host, id: string, base: Option<Edge>, options: seq<ChoiceOption>)
      returns (cid: Cid)
    requires Closed(store.table) && EdgeIn(store.table, base) && OptionsIn(store.table, options)
    modifies store
    ensures Closed(store.table) && old(store.table).Keys <= store.table.Keys
    ensures cid == PutChoice(h, id, base, options) && cid in store.table
  {
    var rows := PutChoiceRows(store, h, base, options);
    cid := store.Put(Content(map["alias" := AliasData(id), "conflict" := Obj(map["path" := Str(id)]),
        "option" := OptionData(0.0)], rows));
  }

  lemma WithoutMark(alias: Json, mark: Json, was: Json, now: Json)
    ensures (map["alias" := alias, "conflict" := mark, "option" := was] - {"conflict"})["option" := now]
            == map["alias" := alias, "option" := now]
  {
    var data := (map["alias" := alias, "conflict" := mark, "option" := was] - {"conflict"})["option" := now];
    assert data.Keys == {"alias", "option"};
  }

  /** The conflict node first, then the same node without its mark and with its default. */
  method StoreBranches(store: FosStore, h: Host, id: string, base: Option<Edge>, options: seq<ChoiceOption>,
      defaultName: string) returns (cid: Cid)
    requires Closed(store.table) && EdgeIn(store.table, base) && OptionsIn(store.table, options)
    modifies store
    ensures Closed(store.table) && old(store.table).Keys <= store.table.Keys
    ensures cid == PutBranches(h, id, base, options, defaultName) && cid in store.table
  {
    var choice := StoreChoice(store, h, id, base, options);
    var read := ReadOptions(choice.content.children);
    var found := IndexOfName(read, defaultName);
    var selected := if defaultName == "" then -1.0 else if found < |read| then found as real else 0.0;
    WithoutMark(AliasData(id), Obj(map["path" := Str(id)]), OptionData(0.0), OptionData(selected));
    cid := store.Put(Content((choice.content.data - {"conflict"})["option" := OptionData(selected)],
        choice.content.children));
  }

  // ---------------------------------------------------------------------------
  // Refs

  method StoreRef(store: FosStore, data: Data, value: Option<Cid>, rows: seq<Edge>) returns (cid: Cid)
    requires Closed(store.table) && RowsIn(store.table, rows) && (value.Some? ==> value.value in store.table)
    modifies store
    ensures Closed(store.table) && old(store.table).Keys <= store.table.Keys
    ensures cid == Cid(RefNode(data, value, rows)) && cid in store.table
  {
    var target := PutPrim(store, "target");
    var alias := PutPrim(store, "alias");
    var empty := store.Put(EMPTY);
    cid := store.Put(Content(data, (if value.Some? then [Edge(target, value.value)] else []) + [Edge(alias, empty)]
        + rows));
  }

  method StoreStripped(store: FosStore, h: Host, c: Cid) returns (cid: Cid)
    requires Closed(store.table) && c in store.table
    modifies store
    ensures Closed(store.table) && old(store.table).Keys <= store.table.Keys
    ensures cid == Cid(StripLink(h, c.content)) && cid in store.table
  {
    FirstIn(store.table, c.content.children, Prim("target"));
    FilterRows(store.table, h, Unbooked, c.content.children);
    var stripped := StripLink(h, c.content);
    if IsMutableRef(c.content) && RefValue(c.content).Some? {
      assert stripped == RefValue(c.content).value.content;
    }
    cid := store.Put(stripped);
  }

  /** The side as a ref in the store: itself, or a ref made for it. */
  method StoreLink(store: FosStore, h: Host, c: Cid) returns (cid: Cid)
    requires Closed(store.table) && c in store.table
    modifies store
    ensures Closed(store.table) && old(store.table).Keys <= store.table.Keys
    ensures cid == RefCid(h, c) && cid in store.table
    ensures cid.content == AsRef(h, c.content)
  {
    if IsMutableRef(c.content) { return c; }
    var value := StoreStripped(store, h, c);
    FilterRows(store.table, h, Booked(IsRef(c.content)), c.content.children);
    var alias := if "alias" in c.content.data then c.content.data["alias"] else AliasData(h.freshId(c.content));
    cid := StoreRef(store, map["alias" := alias, "updated" := Obj(map["time" := Num(0.0)])], Some(value),
        Bookkeeping(h, c.content));
  }
}
