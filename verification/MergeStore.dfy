/**
 * The merge over a store: nodes are read from the table and every node of the result is put back into it. Each method
 * computes what its function in `Merge` says, keeps the table closed, only adds to it, and logs the choices it raises.
 */
module MergeStore {
  import opened Options
  import opened Json
  import opened Graph
  import opened Merge
  import opened Store
  import opened ChoiceStore
  import opened Sequences
  import Order

  /** The choices a merge has created, in order. */
  class ChoiceLog {
    var cids: seq<Cid>

    constructor ()
      ensures cids == []
    {
      cids := [];
    }
  }

  ghost predicate CidIn(table: Table, c: Option<Cid>) { c.Some? ==> c.value in table }

  // ---------------------------------------------------------------------------
  // Data and keys

  /** `data` on the keys in `keys`. */
  function Only(data: Data, keys: set<string>): Data { map key | key in data && key in keys :: data[key] }

  /** Field by field, whatever the order the fields come in. */
  method MergeDataInto(base: Data, ours: Data, theirs: Data, theirsWins: bool) returns (out: Option<Data>)
    ensures out == MergeData(base, ours, theirs, theirsWins)
  {
    var fields: Data := map[];
    var all := base.Keys + ours.Keys + theirs.Keys;
    var todo := all;
    while todo != {}
      invariant todo <= all
      invariant fields == Only(MergedData(base, ours, theirs), all - todo)
      invariant !theirsWins ==> forall key | key in all - todo :: !FieldConflict(base, ours, theirs, key)
    {
      var key :| key in todo;
      if FieldConflict(base, ours, theirs, key) && !theirsWins { return None; }
      fields := MergeField(base, ours, theirs, key, fields);
      FieldDone(MergedData(base, ours, theirs), all - todo, key);
      todo := todo - {key};
      assert all - todo == (all - (todo + {key})) + {key};
    }
    WholeData(base, ours, theirs);
    assert all - todo == all;
    out := Some(fields);
  }

  lemma FieldDone(data: Data, done: set<string>, key: string)
    ensures Only(data, done + {key}) == if key in data then Only(data, done)[key := data[key]] else Only(data, done)
  {}

  lemma WholeData(base: Data, ours: Data, theirs: Data)
    ensures Only(MergedData(base, ours, theirs), base.Keys + ours.Keys + theirs.Keys) == MergedData(base, ours, theirs)
  {
    var data, all := MergedData(base, ours, theirs), base.Keys + ours.Keys + theirs.Keys;
    if "updated" !in all {
      assert MergedTime(base, ours, theirs) == 0.0;
    }
    forall key | key in data ensures key in all {
      if key != "updated" { MergedFieldSide(base, ours, theirs, key); }
    }
  }

  /** The merged value of one key, put beside those already merged. */
  method MergeField(base: Data, ours: Data, theirs: Data, key: string, fields: Data) returns (out: Data)
    requires key !in fields
    ensures out == if key in MergedData(base, ours, theirs) then fields[key := MergedData(base, ours, theirs)[key]]
            else fields
  {
    if key == "updated" {
      var time := MergedTime(base, ours, theirs);
      return if time > 0.0 then fields[key := Obj(map["time" := Num(time)])] else fields;
    }
    MergedFieldSide(base, ours, theirs, key);
    var b, o, t := Get(base, key), Get(ours, key), Get(theirs, key);
    var value := t;
    if o != t && b != o && b == t { value := o; }
    out := if value.Some? then fields[key := value.value] else fields;
  }

  /** Rows by key: a key stands where it first occurs, for the last row that carries it. */
  method IndexRows(h: Host, es: seq<Edge>) returns (rows: map<Key, Edge>, keys: seq<Key>)
    ensures rows == RowsByKey(h, es) && keys == KeysOf(h, es)
  {
    rows, keys := map[], [];
    for i := 0 to |es|
      invariant rows == RowsByKey(h, es[..i]) && keys == KeysOf(h, es[..i])
    {
      var key := KeyOf(h, es[i]);
      assert es[..i + 1][..i] == es[..i];
      if key !in keys { keys := keys + [key]; }
      rows := rows[key := es[i]];
    }
    assert es[..|es|] == es;
  }

  // ---------------------------------------------------------------------------
  // Rows

  /** What is still to come, after `out` with `raised` choices on the way. */
  function After(out: seq<Edge>, raised: seq<Cid>, rest: RowsResult): RowsResult {
    RowsResult(if rest.rows.Rows? then Rows(out + rest.rows.edges) else rest.rows, raised + rest.raised)
  }

  lemma AfterAll(out: seq<Edge>, raised: seq<Cid>, rest: RowsResult)
    requires rest == RowsResult(Rows([]), [])
    ensures After(out, raised, rest) == RowsResult(Rows(out), raised)
  {
    assert out + [] == out && raised + [] == raised;
  }

  lemma AfterKey(h: Host, keys: seq<Key>, i: nat, bm: map<Key, Edge>, om: map<Key, Edge>, tm: map<Key, Edge>,
      labels: Labels, bound: nat,
      out: seq<Edge>, raised: seq<Cid>)
    requires Below(om, tm, bound) && i < |keys|
    ensures var first := MergeKey(h, keys[i], At(bm, keys[i]), At(om, keys[i]), At(tm, keys[i]), labels, bound);
            After(out, raised, MergeKeys(h, keys[i..], bm, om, tm, labels, bound))
            == if first.rows.Rows? then After(out + first.rows.edges, raised + first.raised,
                MergeKeys(h, keys[i + 1..], bm, om, tm, labels, bound))
               else RowsResult(first.rows, raised + first.raised)
  {
    assert keys[i..][0] == keys[i] && keys[i..][1..] == keys[i + 1..];
    var first := MergeKey(h, keys[i], At(bm, keys[i]), At(om, keys[i]), At(tm, keys[i]), labels, bound);
    var rest := MergeKeys(h, keys[i + 1..], bm, om, tm, labels, bound);
    if first.rows.Rows? { AfterBoth(out, raised, first, rest); }
  }

  lemma AfterBoth(out: seq<Edge>, raised: seq<Cid>, first: RowsResult, rest: RowsResult)
    requires first.rows.Rows?
    ensures After(out, raised, RowsResult(if rest.rows.Rows? then Rows(first.rows.edges + rest.rows.edges)
            else rest.rows, first.raised + rest.raised))
            == After(out + first.rows.edges, raised + first.raised, rest)
  {
    Longer(raised, first.raised, rest.raised);
    if rest.rows.Rows? { Longer(out, first.rows.edges, rest.rows.edges); }
  }

  ghost predicate MapIn(table: Table, m: map<Key, Edge>) {
    forall key | key in m :: m[key].left in table && m[key].right in table
  }

  lemma IndexIn(table: Table, h: Host, es: seq<Edge>)
    requires RowsIn(table, es)
    ensures MapIn(table, RowsByKey(h, es))
  {
    RowsByKeyShape(h, es);
  }

  /** The store is closed and holds every choice logged. */
  ghost predicate Sound(table: Table, cids: seq<Cid>) { Closed(table) && AllIn(table, cids) }

  method MergeChildrenInto(store: FosStore, log: ChoiceLog, h: Host, base: Content, ours: Content, theirs: Content,
      labels: Labels) returns (r: Rows)
    requires Sound(store.table, log.cids)
    requires RowsIn(store.table, base.children) && RowsIn(store.table, ours.children)
            && RowsIn(store.table, theirs.children)
    modifies store, log
    decreases Height(Cid(ours)) + Height(Cid(theirs)), 2, 0
    ensures Sound(store.table, log.cids) && old(store.table).Keys <= store.table.Keys
    ensures r == MergeChildren(h, base, ours, theirs, labels).rows
    ensures log.cids == old(log.cids) + MergeChildren(h, base, ours, theirs, labels).raised
    ensures r.Rows? ==> RowsIn(store.table, r.edges)
  {
    var bMap, bKeys := IndexRows(h, base.children);
    var oMap, oKeys := IndexRows(h, ours.children);
    var tMap, tKeys := IndexRows(h, theirs.children);
    var keys := Order.OrderKeys(oKeys, tKeys, bKeys);
    ChildrenBelow(h, ours, theirs);
    IndexIn(store.table, h, base.children);
    IndexIn(store.table, h, ours.children);
    IndexIn(store.table, h, theirs.children);
    ghost var bound := Size(Cid(ours), Cid(theirs));
    r := MergeKeysInto(store, log, h, keys, bMap, oMap, tMap, labels, bound);
  }

  method MergeKeysInto(store: FosStore, log: ChoiceLog, h: Host, keys: seq<Key>, bMap: map<Key, Edge>, oMap: map<Key,
      Edge>, tMap: map<Key, Edge>,
      labels: Labels, ghost bound: nat) returns (r: Rows)
    requires Sound(store.table, log.cids)
    requires MapIn(store.table, bMap) && MapIn(store.table, oMap) && MapIn(store.table, tMap)
            && Below(oMap, tMap, bound)
    modifies store, log
    decreases bound, 1, |keys|
    ensures Sound(store.table, log.cids) && old(store.table).Keys <= store.table.Keys
    ensures r == MergeKeys(h, keys, bMap, oMap, tMap, labels, bound).rows
    ensures log.cids == old(log.cids) + MergeKeys(h, keys, bMap, oMap, tMap, labels, bound).raised
    ensures r.Rows? ==> RowsIn(store.table, r.edges)
  {
    ghost var table, logged, whole := store.table, log.cids, MergeKeys(h, keys, bMap, oMap, tMap, labels, bound);
    ghost var raised := [];
    r := Rows([]);
    AfterNothing(whole);
    for i := 0 to |keys|
      invariant Sound(store.table, log.cids) && table.Keys <= store.table.Keys
      invariant r.Rows? && RowsIn(store.table, r.edges)
      invariant whole == After(r.edges, raised, MergeKeys(h, keys[i..], bMap, oMap, tMap, labels, bound))
      invariant log.cids == logged + raised
    {
      ghost var out, more := r.edges, [];
      r, more := MergeTurnInto(store, log, h, keys[i], bMap, oMap, tMap, labels, bound, table, r.edges);
      KeysTurn(h, keys, i, bMap, oMap, tMap, labels, bound, whole, out, raised, r, more);
      Longer(logged, raised, more);
      raised := raised + more;
      if !r.Rows? { return; }
    }
    AfterAll(r.edges, raised, MergeKeys(h, keys[|keys|..], bMap, oMap, tMap, labels, bound));
  }

  lemma AfterNothing(whole: RowsResult)
    ensures whole == After([], [], whole)
  {
    Whole(whole.raised);
    if whole.rows.Rows? { Whole(whole.rows.edges); }
  }

  /** One turn leaves less to come. */
  lemma KeysTurn(h: Host, keys: seq<Key>, i: nat, bm: map<Key, Edge>, om: map<Key, Edge>, tm: map<Key, Edge>,
      labels: Labels, bound: nat,
      whole: RowsResult, out: seq<Edge>, raised: seq<Cid>, r: Rows, more: seq<Cid>)
    requires Below(om, tm, bound) && i < |keys| && whole
            == After(out, raised, MergeKeys(h, keys[i..], bm, om, tm, labels, bound))
    requires var first := MergeKey(h, keys[i], At(bm, keys[i]), At(om, keys[i]), At(tm, keys[i]), labels, bound);
             more == first.raised && r == if first.rows.Rows? then Rows(out + first.rows.edges) else first.rows
    ensures whole == if r.Rows? then After(r.edges, raised + more,
            MergeKeys(h, keys[i + 1..], bm, om, tm, labels, bound)) else RowsResult(r, raised + more)
  {
    AfterKey(h, keys, i, bm, om, tm, labels, bound, out, raised);
  }

  /** `out` with the row of one more key pushed. */
  method MergeTurnInto(store: FosStore, log: ChoiceLog, h: Host, key: Key, bMap: map<Key, Edge>, oMap: map<Key, Edge>,
      tMap: map<Key, Edge>,
      labels: Labels, ghost bound: nat, ghost table: Table, out: seq<Edge>) returns (r: Rows, ghost more: seq<Cid>)
    requires Sound(store.table, log.cids) && table.Keys <= store.table.Keys && RowsIn(store.table, out)
    requires MapIn(table, bMap) && MapIn(table, oMap) && MapIn(table, tMap) && Below(oMap, tMap, bound)
    modifies store, log
    decreases bound, 0, 2
    ensures Sound(store.table, log.cids) && old(store.table).Keys <= store.table.Keys
            && log.cids == old(log.cids) + more
    ensures var first := MergeKey(h, key, At(bMap, key), At(oMap, key), At(tMap, key), labels, bound);
            more == first.raised && r == if first.rows.Rows? then Rows(out + first.rows.edges) else first.rows
    ensures r.Rows? ==> RowsIn(store.table, r.edges)
  {
    more := MergeKey(h, key, At(bMap, key), At(oMap, key), At(tMap, key), labels, bound).raised;
    r := MergeRowInto(store, log, h, key, At(bMap, key), At(oMap, key), At(tMap, key), labels, bound);
    if r.Rows? { r := Rows(out + r.edges); }
  }

  lemma RowsJoin(was: Table, table: Table, es: seq<Edge>, more: seq<Edge>)
    requires RowsIn(was, es) && was.Keys <= table.Keys && RowsIn(table, more)
    ensures RowsIn(table, es + more)
  {}

  /** One turn of the loop over the keys. */
  method MergeRowInto(store: FosStore, log: ChoiceLog, h: Host, key: Key, b: Option<Edge>, o: Option<Edge>,
      t: Option<Edge>, labels: Labels, ghost bound: nat)
      returns (r: Rows)
    requires Sound(store.table, log.cids) && EdgeIn(store.table, b) && EdgeIn(store.table, o) && EdgeIn(store.table, t)
    requires o.Some? && t.Some? ==> Height(o.value.right) + Height(t.value.right) < bound
    modifies store, log
    decreases bound, 0, 1
    ensures Sound(store.table, log.cids) && old(store.table).Keys <= store.table.Keys
    ensures r == MergeKey(h, key, b, o, t, labels, bound).rows
    ensures log.cids == old(log.cids) + MergeKey(h, key, b, o, t, labels, bound).raised
    ensures r.Rows? ==> RowsIn(store.table, r.edges)
  {
    ghost var logged := log.cids;
    if o == t { return Rows(if o.Some? then [o.value] else []); }
    if b == o { return Rows(if t.Some? then [t.value] else []); }
    if b == t { return Rows(if o.Some? then [o.value] else []); }
    if key.Submission? && o.Some? && t.Some? {
      return Rows([if Timestamp(h, t.value) > Timestamp(h, o.value) then t.value else o.value]);
    }
    if Descends(o, t) {
      var merged := MergeNodeInto(store, log, h, BaseOf(b, o.value), o.value.right, t.value.right, labels, false,
          IsFieldRow(h, o.value));
      if merged.Merged? { return Rows([Edge(o.value.left, merged.cid)]); }
      if merged.Thrown? { return RowsThrown; }
      DivideAfter(h, key, b, o, t, labels, MergeNode(h, BaseOf(b, o.value), o.value.right, t.value.right, labels, false,
          IsFieldRow(h, o.value)).raised);
      Longer(logged, MergeNode(h, BaseOf(b, o.value), o.value.right, t.value.right, labels, false,
          IsFieldRow(h, o.value)).raised, Divide(h, key, b, o, t, labels, []).raised);
      r := DivideInto(store, log, h, key, b, o, t, labels);
    } else {
      r := DivideInto(store, log, h, key, b, o, t, labels);
    }
  }

  lemma DivideAfter(h: Host, key: Key, b: Option<Edge>, o: Option<Edge>, t: Option<Edge>, labels: Labels,
      raised: seq<Cid>)
    ensures Divide(h, key, b, o, t, labels, raised).rows == Divide(h, key, b, o, t, labels, []).rows
    ensures Divide(h, key, b, o, t, labels, raised).raised == raised + Divide(h, key, b, o, t, labels, []).raised
  {
    var choice := ChoiceOver(h, key, b, o, t, labels);
    assert [] + [choice] == [choice];
  }

  method StoreChoiceOver(store: FosStore, h: Host, key: Key, b: Option<Edge>, o: Option<Edge>, t: Option<Edge>,
      labels: Labels) returns (cid: Cid)
    requires Closed(store.table) && EdgeIn(store.table, b) && EdgeIn(store.table, o) && EdgeIn(store.table, t)
    modifies store
    ensures Closed(store.table) && old(store.table).Keys <= store.table.Keys
    ensures cid == ChoiceOver(h, key, b, o, t, labels) && cid in store.table
  {
    cid := StoreChoice(store, h, ChoiceId(h, key), if b.Some? && Mergeable(b.value) then b else None,
        SideOptions(o, t, labels));
  }

  lemma Logged(table: Table, cids: seq<Cid>, c: Cid)
    requires AllIn(table, cids) && c in table
    ensures AllIn(table, cids + [c])
  {}

  method DivideInto(store: FosStore, log: ChoiceLog, h: Host, key: Key, b: Option<Edge>, o: Option<Edge>,
      t: Option<Edge>, labels: Labels) returns (r: Rows)
    requires Sound(store.table, log.cids) && EdgeIn(store.table, b) && EdgeIn(store.table, o) && EdgeIn(store.table, t)
    modifies store, log
    ensures Sound(store.table, log.cids) && old(store.table).Keys <= store.table.Keys
    ensures r == Divide(h, key, b, o, t, labels, []).rows
    ensures log.cids == old(log.cids) + Divide(h, key, b, o, t, labels, []).raised
    ensures r.Rows? ==> RowsIn(store.table, r.edges)
  {
    if (o.Some? && IsFieldRow(h, o.value)) || (t.Some? && IsFieldRow(h, t.value)) { return RowsConflict; }
    assert [] + [ChoiceOver(h, key, b, o, t, labels)] == [ChoiceOver(h, key, b, o, t, labels)];
    var row := RaiseInto(store, log, h, key, b, o, t, labels);
    r := Rows([row]);
  }

  /** A choice over both versions, logged, and the row that holds it. */
  method RaiseInto(store: FosStore, log: ChoiceLog, h: Host, key: Key, b: Option<Edge>, o: Option<Edge>,
      t: Option<Edge>, labels: Labels) returns (row: Edge)
    requires Sound(store.table, log.cids) && EdgeIn(store.table, b) && EdgeIn(store.table, o) && EdgeIn(store.table, t)
    modifies store, log
    ensures Sound(store.table, log.cids) && old(store.table).Keys <= store.table.Keys
    ensures row == Edge(Prim("choice"), ChoiceOver(h, key, b, o, t, labels)) && row.left in store.table
            && row.right in store.table
    ensures log.cids == old(log.cids) + [ChoiceOver(h, key, b, o, t, labels)]
  {
    var choice := StoreChoiceOver(store, h, key, b, o, t, labels);
    var name := PutPrim(store, "choice");
    Logged(store.table, log.cids, choice);
    log.cids := log.cids + [choice];
    row := Edge(name, choice);
  }

  // ---------------------------------------------------------------------------
  // Nodes

  method MergeNodeInto(store: FosStore, log: ChoiceLog, h: Host, base: Option<Cid>, ours: Cid, theirs: Cid,
      labels: Labels, isTop: bool, field: bool)
      returns (r: Outcome)
    requires Sound(store.table, log.cids) && CidIn(store.table, base) && ours in store.table && theirs in store.table
    modifies store, log
    decreases Height(ours) + Height(theirs), 4, 0
    ensures Sound(store.table, log.cids) && old(store.table).Keys <= store.table.Keys
    ensures r == MergeNode(h, base, ours, theirs, labels, isTop, field).outcome
    ensures log.cids == old(log.cids) + MergeNode(h, base, ours, theirs, labels, isTop, field).raised
    ensures r.Merged? ==> r.cid in store.table
  {
    var same := Unchanged(base, ours, theirs);
    if same.Some? {
      assert log.cids + [] == log.cids;
      return Merged(same.value);
    }
    if OneBranched(h, ours, theirs) {
      assert MergeNode(h, base, ours, theirs, labels, isTop, field) == MergeLifted(h, base, ours, theirs, labels);
      r := MergeLiftedInto(store, log, h, base, ours, theirs, labels);
    } else if IsBranchChoice(ours.content) && IsBranchChoice(theirs.content) {
      BranchesBelow(h, ours, theirs);
      assert MergeNode(h, base, ours, theirs, labels, isTop, field)
          == MergeBranches(h, base, ours, theirs, labels, Size(ours, theirs));
      r := MergeBranchesInto(store, log, h, base, ours, theirs, labels, Size(ours, theirs));
    } else if IsMutableRef(ours.content) || IsMutableRef(theirs.content) {
      assert MergeNode(h, base, ours, theirs, labels, isTop, field)
          == MergeRefs(h, base, ours, theirs, labels, isTop, field);
      r := MergeRefsInto(store, log, h, base, ours, theirs, labels, isTop, field);
    } else {
      assert MergeNode(h, base, ours, theirs, labels, isTop, field) == MergePlain(h, base, ours, theirs, labels, isTop);
      r := MergePlainInto(store, log, h, base, ours, theirs, labels, isTop);
    }
  }

  method MergePlainInto(store: FosStore, log: ChoiceLog, h: Host, base: Option<Cid>, ours: Cid, theirs: Cid,
      labels: Labels, isTop: bool) returns (r: Outcome)
    requires Sound(store.table, log.cids) && CidIn(store.table, base) && ours in store.table && theirs in store.table
    modifies store, log
    decreases Height(ours) + Height(theirs), 3, 0
    ensures Sound(store.table, log.cids) && old(store.table).Keys <= store.table.Keys
    ensures r == MergePlain(h, base, ours, theirs, labels, isTop).outcome
    ensures log.cids == old(log.cids) + MergePlain(h, base, ours, theirs, labels, isTop).raised
    ensures r.Merged? ==> r.cid in store.table
  {
    var b := BaseContent(base);
    var data := MergeDataInto(b.data, ours.content.data, theirs.content.data, isTop);
    if data.None? { return Conflict; }
    var rows := MergeChildrenInto(store, log, h, b, ours.content, theirs.content, labels);
    if rows.RowsConflict? { return Conflict; }
    if rows.RowsThrown? { return Thrown; }
    var cid := store.Put(Content(data.value, rows.edges));
    r := Merged(cid);
  }

  // ---------------------------------------------------------------------------
  // Branch choices

  lemma MainIn(table: Table, h: Host, ours: Cid, theirs: Cid)
    requires Closed(table) && ours in table && theirs in table && MainOf(h, ours, theirs).Some?
    ensures EdgeIn(table, ReadChoice(h, if IsBranchChoice(ours.content) then ours else theirs).base)
    ensures OptionIn(table, MainOf(h, ours, theirs).value)
  {
    var choice := ReadChoice(h, if IsBranchChoice(ours.content) then ours else theirs);
    ReadChoiceIn(table, h, if IsBranchChoice(ours.content) then ours else theirs);
    if choice.defaultName.Some? { FoundIn(table, choice.options, choice.defaultName.value); }
  }

  method StoreLifted(store: FosStore, h: Host, ours: Cid, theirs: Cid, cid: Cid) returns (r: Cid)
    requires Closed(store.table) && ours in store.table && theirs in store.table && cid in store.table
            && OneBranched(h, ours, theirs)
    modifies store
    ensures Closed(store.table) && old(store.table).Keys <= store.table.Keys
    ensures r == Lifted(h, ours, theirs, cid) && r in store.table
  {
    if IsBranchChoice(cid.content) { return cid; }
    var choice, main := ReadChoice(h, if IsBranchChoice(ours.content) then ours else theirs),
        MainOf(h, ours, theirs).value;
    MainIn(store.table, h, ours, theirs);
    r := StoreBranches(store, h, choice.id, choice.base,
        [ChoiceOption(main.peerId, Some(Edge(main.edge.value.left, cid)), None, None)], OrMain(choice.defaultName));
  }

  lemma LiftedUnfold(h: Host, base: Option<Cid>, ours: Cid, theirs: Cid, labels: Labels, b: Option<Cid>, o: Cid, t: Cid,
      bound: nat)
    requires OneBranched(h, ours, theirs) && bound == Size(ours, theirs)
    requires b == LiftedBase(h, base, ours, theirs) && o == Lifted(h, ours, theirs, ours)
            && t == Lifted(h, ours, theirs, theirs)
    requires ChoiceTop(h, o) + ChoiceTop(h, t) < bound
    ensures MergeLifted(h, base, ours, theirs, labels) == MergeAgain(h, b, o, t, labels, bound)
  {}

  method MergeLiftedInto(store: FosStore, log: ChoiceLog, h: Host, base: Option<Cid>, ours: Cid, theirs: Cid,
      labels: Labels) returns (r: Outcome)
    requires Sound(store.table, log.cids) && CidIn(store.table, base) && ours in store.table && theirs in store.table
    requires OneBranched(h, ours, theirs)
    modifies store, log
    decreases Height(ours) + Height(theirs), 3, 1
    ensures Sound(store.table, log.cids) && old(store.table).Keys <= store.table.Keys
    ensures r == MergeLifted(h, base, ours, theirs, labels).outcome
    ensures log.cids == old(log.cids) + MergeLifted(h, base, ours, theirs, labels).raised
    ensures r.Merged? ==> r.cid in store.table
  {
    LiftedBelow(h, ours, theirs);
    var b, o, t := StoreSides(store, h, base, ours, theirs);
    ghost var bound := Size(ours, theirs);
    LiftedUnfold(h, base, ours, theirs, labels, b, o, t, bound);
    r := MergeAgainInto(store, log, h, b, o, t, labels, bound);
  }

  method StoreSides(store: FosStore, h: Host, base: Option<Cid>, ours: Cid, theirs: Cid)
      returns (b: Option<Cid>, o: Cid, t: Cid)
    requires Closed(store.table) && CidIn(store.table, base) && ours in store.table && theirs in store.table
            && OneBranched(h, ours, theirs)
    modifies store
    ensures Closed(store.table) && old(store.table).Keys <= store.table.Keys
    ensures b == LiftedBase(h, base, ours, theirs) && o == Lifted(h, ours, theirs, ours)
            && t == Lifted(h, ours, theirs, theirs)
    ensures CidIn(store.table, b) && o in store.table && t in store.table
  {
    b := None;
    if base.Some? {
      var lifted := StoreLifted(store, h, ours, theirs, base.value);
      b := Some(lifted);
    }
    o := StoreLifted(store, h, ours, theirs, ours);
    t := StoreLifted(store, h, ours, theirs, theirs);
  }

  method MergeAgainInto(store: FosStore, log: ChoiceLog, h: Host, base: Option<Cid>, ours: Cid, theirs: Cid,
      labels: Labels, ghost bound: nat) returns (r: Outcome)
    requires Sound(store.table, log.cids) && CidIn(store.table, base) && ours in store.table && theirs in store.table
    requires ChoiceTop(h, ours) + ChoiceTop(h, theirs) < bound
    modifies store, log
    decreases bound, 3, 0
    ensures Sound(store.table, log.cids) && old(store.table).Keys <= store.table.Keys
    ensures r == MergeAgain(h, base, ours, theirs, labels, bound).outcome
    ensures log.cids == old(log.cids) + MergeAgain(h, base, ours, theirs, labels, bound).raised
    ensures r.Merged? ==> r.cid in store.table
  {
    if ours == theirs { return Merged(ours); }
    if base == Some(ours) { return Merged(theirs); }
    if base == Some(theirs) { return Merged(ours); }
    r := MergeBranchesInto(store, log, h, base, ours, theirs, labels, bound);
  }

  method MergeBranchesInto(store: FosStore, log: ChoiceLog, h: Host, base: Option<Cid>, ours: Cid, theirs: Cid,
      labels: Labels, ghost bound: nat) returns (r: Outcome)
    requires Sound(store.table, log.cids) && CidIn(store.table, base) && ours in store.table && theirs in store.table
    requires ChoiceTop(h, ours) + ChoiceTop(h, theirs) < bound
    modifies store, log
    decreases bound, 2, 0
    ensures Sound(store.table, log.cids) && old(store.table).Keys <= store.table.Keys
    ensures r == MergeBranches(h, base, ours, theirs, labels, bound).outcome
    ensures log.cids == old(log.cids) + MergeBranches(h, base, ours, theirs, labels, bound).raised
    ensures r.Merged? ==> r.cid in store.table
  {
    var o, t := ReadChoice(h, ours), ReadChoice(h, theirs);
    var b := if base.Some? && IsBranchChoice(base.value.content) then Some(ReadChoice(h, base.value)) else None;
    ReadChoiceIn(store.table, h, ours);
    ReadChoiceIn(store.table, h, theirs);
    if base.Some? { ReadChoiceIn(store.table, h, base.value); }
    var names := NamesOf(o.options + t.options, []);
    var failed, options := MergeOptionsInto(store, log, h, names, if b.Some? then b.value.options else [], o.options,
        t.options, labels, bound);
    if !failed.Merged? { return failed; }
    var cid := StoreBranches(store, h, o.id, if b.Some? && b.value.base.Some? then b.value.base else o.base, options,
      OrMain(if b.Some? && b.value.defaultName.Some? then b.value.defaultName else o.defaultName));
    r := Merged(cid);
  }

  function AfterOptions(out: seq<ChoiceOption>, raised: seq<Cid>, rest: OptionsResult): OptionsResult {
    OptionsResult(out + rest.options, rest.failed, raised + rest.raised)
  }

  lemma AfterName(h: Host, names: seq<string>, i: nat, bs: seq<ChoiceOption>, os: seq<ChoiceOption>,
      ts: seq<ChoiceOption>, labels: Labels, bound: nat,
      out: seq<ChoiceOption>, raised: seq<Cid>)
    requires Top(os) + Top(ts) < bound && i < |names|
    ensures var first := MergeOption(h, names[i], FindOption(bs, names[i]), FindOption(os, names[i]),
            FindOption(ts, names[i]), labels, os, ts, bound);
            AfterOptions(out, raised, MergeOptions(h, names[i..], bs, os, ts, labels, bound))
            == if first.failed.Merged? then AfterOptions(out + first.options, raised + first.raised,
                MergeOptions(h, names[i + 1..], bs, os, ts, labels, bound))
               else AfterOptions(out, raised, first)
  {
    assert names[i..][0] == names[i] && names[i..][1..] == names[i + 1..];
    var first := MergeOption(h, names[i], FindOption(bs, names[i]), FindOption(os, names[i]), FindOption(ts, names[i]),
        labels, os, ts, bound);
    var rest := MergeOptions(h, names[i + 1..], bs, os, ts, labels, bound);
    Longer(out, first.options, rest.options);
    Longer(raised, first.raised, rest.raised);
  }

  method MergeOptionsInto(store: FosStore, log: ChoiceLog, h: Host, names: seq<string>, bs: seq<ChoiceOption>,
      os: seq<ChoiceOption>, ts: seq<ChoiceOption>,
      labels: Labels, ghost bound: nat) returns (failed: Outcome, options: seq<ChoiceOption>)
    requires Sound(store.table, log.cids) && OptionsIn(store.table, bs) && OptionsIn(store.table, os)
            && OptionsIn(store.table, ts)
    requires Top(os) + Top(ts) < bound
    modifies store, log
    decreases bound, 1, |names|
    ensures Sound(store.table, log.cids) && old(store.table).Keys <= store.table.Keys
    ensures failed == MergeOptions(h, names, bs, os, ts, labels, bound).failed
    ensures log.cids == old(log.cids) + MergeOptions(h, names, bs, os, ts, labels, bound).raised
    ensures failed.Merged? ==>
            options == MergeOptions(h, names, bs, os, ts, labels, bound).options
            && OptionsIn(store.table, options)
  {
    ghost var table, logged, whole := store.table, log.cids, MergeOptions(h, names, bs, os, ts, labels, bound);
    ghost var raised, rest := [], whole;
    failed, options := Merged(Cid(EMPTY)), [];
    for i := 0 to |names|
      invariant Sound(store.table, log.cids) && table.Keys <= store.table.Keys
      invariant rest == MergeOptions(h, names[i..], bs, os, ts, labels, bound)
      invariant failed == Merged(Cid(EMPTY)) && OptionsIn(store.table, options)
      invariant whole == AfterOptions(options, raised, rest)
      invariant log.cids == logged + raised
    {
      AfterName(h, names, i, bs, os, ts, labels, bound, options, raised);
      ghost var first := MergeOption(h, names[i], FindOption(bs, names[i]), FindOption(os, names[i]),
          FindOption(ts, names[i]), labels, os, ts, bound);
      failed, options := MergeOptionInto(store, log, h, names[i], bs, os, ts, labels, bound, table, options);
      Longer(logged, raised, first.raised);
      raised := raised + first.raised;
      if !failed.Merged? { return; }
      rest := MergeOptions(h, names[i + 1..], bs, os, ts, labels, bound);
    }
    assert options + [] == options && raised + [] == raised;
  }

  /** One turn of the loop over the names: `out` with the merged option pushed. */
  method MergeOptionInto(store: FosStore, log: ChoiceLog, h: Host, name: string, bs: seq<ChoiceOption>,
      os: seq<ChoiceOption>, ts: seq<ChoiceOption>,
      labels: Labels, ghost bound: nat, ghost table: Table, out: seq<ChoiceOption>)
          returns (failed: Outcome, options: seq<ChoiceOption>)
    requires Sound(store.table, log.cids) && table.Keys <= store.table.Keys && OptionsIn(store.table, out)
    requires OptionsIn(table, bs) && OptionsIn(table, os) && OptionsIn(table, ts) && Top(os) + Top(ts) < bound
    modifies store, log
    decreases bound, 0, 3
    ensures Sound(store.table, log.cids) && old(store.table).Keys <= store.table.Keys && OptionsIn(store.table, options)
    ensures var first := MergeOption(h, name, FindOption(bs, name), FindOption(os, name), FindOption(ts, name), labels,
            os, ts, bound);
            failed == first.failed && log.cids == old(log.cids) + first.raised && options == out + first.options
  {
    FoundIn(table, bs, name);
    FoundIn(table, os, name);
    FoundIn(table, ts, name);
    TopCovers(os, name);
    TopCovers(ts, name);
    failed, options := MergeNamedInto(store, log, h, name, FindOption(bs, name), FindOption(os, name),
        FindOption(ts, name), labels, os, ts, bound);
    options := out + options;
  }

  ghost predicate FoundOptionIn(table: Table, o: Option<ChoiceOption>) { o.Some? ==> OptionIn(table, o.value) }

  method MergeNamedInto(store: FosStore, log: ChoiceLog, h: Host, name: string, b: Option<ChoiceOption>,
      o: Option<ChoiceOption>, t: Option<ChoiceOption>,
      labels: Labels, ghost os: seq<ChoiceOption>, ghost ts: seq<ChoiceOption>, ghost bound: nat)
          returns (failed: Outcome, options: seq<ChoiceOption>)
    requires Sound(store.table, log.cids) && FoundOptionIn(store.table, b) && FoundOptionIn(store.table, o)
            && FoundOptionIn(store.table, t)
    requires Top(os) + Top(ts) < bound && o == FindOption(os, name) && t == FindOption(ts, name)
    modifies store, log
    decreases bound, 0, 2
    ensures Sound(store.table, log.cids) && old(store.table).Keys <= store.table.Keys && OptionsIn(store.table, options)
    ensures var first := MergeOption(h, name, b, o, t, labels, os, ts, bound);
            failed == first.failed && log.cids == old(log.cids) + first.raised && options == first.options
  {
    var oe, te := OptionEdge(o), OptionEdge(t);
    failed, options := Merged(Cid(EMPTY)), [];
    ghost var logged := log.cids;
    if oe.None? || te.None? {
      assert logged + [] == logged;
      var edge := if oe.Some? then oe else te;
      if edge.Some? { options := [(if o.Some? then o.value else t.value).(peerId := name, edge := edge)]; }
      return;
    }
    if oe.value.left != te.value.left {
      assert logged + [] == logged;
      return Conflict, [];
    }
    failed, options := MergeBothInto(store, log, h, name, b, o, t, labels, os, ts, bound);
  }

  function JoinedOption(name: string, o: ChoiceOption, left: Cid, node: NodeResult,
      request: RequestResult): OptionsResult {
    if !node.outcome.Merged? then OptionsResult([], node.outcome, node.raised)
    else if !request.failed.Merged? then OptionsResult([], request.failed, node.raised + request.raised)
    else OptionsResult([o.(peerId := name, edge := Some(Edge(left, node.outcome.cid)),
        requestMerge := request.request)], request.failed, node.raised + request.raised)
  }

  lemma OptionUnfold(h: Host, name: string, b: Option<ChoiceOption>, o: Option<ChoiceOption>, t: Option<ChoiceOption>,
      labels: Labels, os: seq<ChoiceOption>, ts: seq<ChoiceOption>, bound: nat, before: Option<Cid>)
    requires Top(os) + Top(ts) < bound && o == FindOption(os, name) && t == FindOption(ts, name)
    requires OptionEdge(o).Some? && OptionEdge(t).Some? && OptionEdge(o).value.left == OptionEdge(t).value.left
    requires before == if OptionEdge(b).Some? then Some(OptionEdge(b).value.right) else None
    requires o.value.requestMerge.Some? && t.value.requestMerge.Some?
            ==> Height(o.value.requestMerge.value) + Height(t.value.requestMerge.value) < bound
    ensures MergeOption(h, name, b, o, t, labels, os, ts, bound)
            == JoinedOption(name, o.value, OptionEdge(o).value.left,
                 MergeNode(h, before, OptionEdge(o).value.right, OptionEdge(t).value.right, labels, false, false),
                 MergeRequest(h, OptionRequest(b), o.value.requestMerge, t.value.requestMerge, labels, bound))
  {}

  method MergeBothInto(store: FosStore, log: ChoiceLog, h: Host, name: string, b: Option<ChoiceOption>,
      o: Option<ChoiceOption>, t: Option<ChoiceOption>,
      labels: Labels, ghost os: seq<ChoiceOption>, ghost ts: seq<ChoiceOption>, ghost bound: nat)
          returns (failed: Outcome, options: seq<ChoiceOption>)
    requires Sound(store.table, log.cids) && FoundOptionIn(store.table, b) && FoundOptionIn(store.table, o)
            && FoundOptionIn(store.table, t)
    requires Top(os) + Top(ts) < bound && o == FindOption(os, name) && t == FindOption(ts, name)
    requires OptionEdge(o).Some? && OptionEdge(t).Some? && OptionEdge(o).value.left == OptionEdge(t).value.left
    modifies store, log
    decreases bound, 0, 1
    ensures Sound(store.table, log.cids) && old(store.table).Keys <= store.table.Keys && OptionsIn(store.table, options)
    ensures var first := MergeOption(h, name, b, o, t, labels, os, ts, bound);
            failed == first.failed && log.cids == old(log.cids) + first.raised && options == first.options
  {
    TopCovers(os, name);
    TopCovers(ts, name);
    options := [];
    ghost var logged := log.cids;
    var be, oe, te := OptionEdge(b), OptionEdge(o), OptionEdge(t);
    var before := if be.Some? then Some(be.value.right) else None;
    ghost var node := MergeNode(h, before, oe.value.right, te.value.right, labels, false, false);
    ghost var requests := MergeRequest(h, OptionRequest(b), o.value.requestMerge, t.value.requestMerge, labels, bound);
    Longer(logged, node.raised, requests.raised);
    OptionUnfold(h, name, b, o, t, labels, os, ts, bound, before);
    var merged := MergeNodeInto(store, log, h, before, oe.value.right, te.value.right, labels, false, false);
    if !merged.Merged? { return merged, []; }
    var request;
    failed, request := MergeRequestInto(store, log, h, OptionRequest(b), o.value.requestMerge, t.value.requestMerge,
        labels, bound);
    if failed.Merged? {
      options := [o.value.(peerId := name, edge := Some(Edge(oe.value.left, merged.cid)), requestMerge := request)];
    }
  }

  method MergeRequestInto(store: FosStore, log: ChoiceLog, h: Host, b: Option<Cid>, o: Option<Cid>, t: Option<Cid>,
      labels: Labels, ghost bound: nat)
      returns (failed: Outcome, request: Option<Cid>)
    requires Sound(store.table, log.cids) && CidIn(store.table, b) && CidIn(store.table, o) && CidIn(store.table, t)
    requires o.Some? && t.Some? ==> Height(o.value) + Height(t.value) < bound
    modifies store, log
    decreases bound, 0, 0
    ensures Sound(store.table, log.cids) && old(store.table).Keys <= store.table.Keys && CidIn(store.table, request)
    ensures failed == MergeRequest(h, b, o, t, labels, bound).failed
            && request == MergeRequest(h, b, o, t, labels, bound).request
    ensures log.cids == old(log.cids) + MergeRequest(h, b, o, t, labels, bound).raised
  {
    failed, request := Merged(Cid(EMPTY)), if o == b then t else o;
    if o == b || t == b || o == t { return; }
    if o.None? || t.None? { return Conflict, None; }
    var merged := MergeNodeInto(store, log, h, b, o.value, t.value, labels, false, false);
    if merged.Merged? { request := Some(merged.cid); } else { failed, request := merged, None; }
  }

  // ---------------------------------------------------------------------------
  // Refs

  lemma RefRowsIn(table: Table, h: Host, ref: Content)
    requires RowsIn(table, ref.children)
    ensures RowsIn(table, Book(h, ref).children) && RowsIn(table, PrevRows(h, ref)) && CidIn(table, RefValue(ref))
  {
    FilterRows(table, h, Booked(IsRef(ref)), ref.children);
    FilterRows(table, h, NotPrev, Bookkeeping(h, ref));
    FilterRows(table, h, Prev, ref.children);
    FirstIn(table, ref.children, Prim("target"));
  }

  ghost predicate ValuesIn(table: Table, values: seq<Option<Cid>>) { forall v | v in values :: CidIn(table, v) }

  lemma AddValueIn(table: Table, h: Host, options: seq<ChoiceOption>, incoming: Cid, cid: Cid, preferred: string)
    requires OptionsIn(table, options) && incoming in table && cid in table
    ensures OptionsIn(table, AddValue(h, options, incoming, cid, preferred))
  {}

  lemma {:induction false} AddOptionsIn(table: Table, h: Host, options: seq<ChoiceOption>, incoming: Cid,
      more: seq<ChoiceOption>)
    requires OptionsIn(table, options) && OptionsIn(table, more) && incoming in table
    ensures OptionsIn(table, AddOptions(h, options, incoming, more))
    decreases |more|
  {
    if more != [] {
      assert OptionIn(table, more[0]);
      if more[0].edge.Some? { AddValueIn(table, h, options, incoming, more[0].edge.value.left, more[0].peerId); }
      var next := if more[0].edge.Some? then AddValue(h, options, incoming, more[0].edge.value.left, more[0].peerId)
          else options;
      AddOptionsIn(table, h, next, incoming, more[1..]);
    }
  }

  lemma {:induction false} AddValuesIn(table: Table, h: Host, options: seq<ChoiceOption>, incoming: Cid, id: string,
      prior: seq<ChoiceOption>, values: seq<Option<Cid>>)
    requires Closed(table) && OptionsIn(table, options) && ValuesIn(table, values) && incoming in table
    ensures OptionsIn(table, AddValues(h, options, incoming, id, prior, values))
    decreases |values|
  {
    if values != [] {
      assert CidIn(table, values[0]);
      if values[0].Some? {
        AddValueIn(table, h, options, incoming, values[0].value, NameOfValue(prior, values[0].value));
        ReadChoiceIn(table, h, values[0].value);
        AddOptionsIn(table, h, options, incoming, ReadChoice(h, values[0].value).options);
      }
      var next :=
        if values[0].None? then options
        else if IsValueBranches(h, values[0].value, id)
            then AddOptions(h, options, incoming, ReadChoice(h, values[0].value).options)
        else AddValue(h, options, incoming, values[0].value, NameOfValue(prior, values[0].value));
      AddValuesIn(table, h, next, incoming, id, prior, values[1..]);
    }
  }

  method StoreValueBranches(store: FosStore, h: Host, ref: Content, values: seq<Option<Cid>>, selected: Option<Cid>)
      returns (cid: Option<Cid>)
    requires Closed(store.table) && ValuesIn(store.table, values)
    modifies store
    ensures Closed(store.table) && old(store.table).Keys <= store.table.Keys
    ensures cid == ValueBranches(h, ref, values, selected) && CidIn(store.table, cid)
  {
    if AliasId(ref).None? { return None; }
    var id := AliasId(ref).value;
    var data: Data := map["alias" := AliasData(id)];
    var incoming := StoreRef(store, if Has(ref.data, "name") then data["name" := ref.data["name"]] else data, None, []);
    AddValuesIn(store.table, h, [], incoming, id, PriorOptions(h, values, id), values);
    var options := AddValues(h, [], incoming, id, PriorOptions(h, values, id), values);
    var name := if selected.Some? && HoldsValue(options, selected.value) then NameOfValue(options, selected.value)
                else if options != [] then options[0].peerId else "main";
    if options != [] { assert OptionIn(store.table, options[0]); }
    var branches := StoreBranches(store, h, id, if options != [] then options[0].edge else None, options, name);
    cid := Some(branches);
  }

  ghost predicate SidesIn(table: Table, s: RefSides) {
    && RowsIn(table, s.o.children) && RowsIn(table, s.t.children) && (s.b.Some? ==> RowsIn(table, s.b.value.children))
    && CidIn(table, s.ov) && CidIn(table, s.tv) && CidIn(table, s.bv)
  }

  /** Both sides and the base as refs in the store. */
  method StoreRefs(store: FosStore, h: Host, base: Option<Cid>, ours: Cid, theirs: Cid) returns (s: RefSides)
    requires Closed(store.table) && CidIn(store.table, base) && ours in store.table && theirs in store.table
    modifies store
    ensures Closed(store.table) && old(store.table).Keys <= store.table.Keys
    ensures s == Sides(h, base, ours, theirs) && SidesIn(store.table, s)
    ensures RefCid(h, ours) in store.table && RefCid(h, theirs) in store.table
  {
    var o := StoreLink(store, h, ours);
    var t := StoreLink(store, h, theirs);
    s := Sides(h, base, ours, theirs);
    if base.Some? {
      var b := StoreLink(store, h, base.value);
      RefRowsIn(store.table, h, b.content);
    }
    RefRowsIn(store.table, h, o.content);
    RefRowsIn(store.table, h, t.content);
  }

  lemma {:induction false} SortedIn(table: Table, h: Host, s: RefSides)
    requires SidesIn(table, s)
    ensures ValuesIn(table, [s.bv] + SortedValues(h, s.ov, s.tv))
  {
    SortIn(table, h, (if s.ov.Some? then [s.ov.value] else []) + (if s.tv.Some? then [s.tv.value] else []));
  }

  method MergeTypedInto(store: FosStore, h: Host, s: RefSides) returns (failed: Outcome, value: Option<Cid>)
    requires Closed(store.table) && SidesIn(store.table, s)
    modifies store
    ensures Closed(store.table) && old(store.table).Keys <= store.table.Keys && CidIn(store.table, value)
    ensures RequestResult(value, failed, []) == MergeTyped(h, s)
  {
    failed := Merged(Cid(EMPTY));
    if s.ov == s.tv || s.tv == s.bv { return failed, s.ov; }
    if s.ov == s.bv { return failed, s.tv; }
    SortedIn(store.table, h, s);
    value := StoreValueBranches(store, h, s.o, [s.bv] + SortedValues(h, s.ov, s.tv), DefaultValue(h, s.bv));
    if value.None? { failed := Thrown; }
  }

  /** A side's value: what its ref holds, else the side without its bookkeeping, put for the purpose. */
  method StoreSideValue(store: FosStore, h: Host, side: Cid) returns (value: Cid)
    requires Closed(store.table) && side in store.table && RowsIn(store.table, AsRef(h, side.content).children)
    modifies store
    ensures Closed(store.table) && old(store.table).Keys <= store.table.Keys
    ensures value == SideValue(h, side.content) && value in store.table
  {
    var held := RefValue(AsRef(h, side.content));
    if held.Some? {
      FirstIn(store.table, AsRef(h, side.content).children, Prim("target"));
      return held.value;
    }
    value := StoreStripped(store, h, side);
  }

  method MergeValuesInto(store: FosStore, log: ChoiceLog, h: Host, s: RefSides, ours: Cid, theirs: Cid, labels: Labels,
      isTop: bool)
      returns (failed: Outcome, value: Option<Cid>)
    requires Sound(store.table, log.cids) && ours in store.table && theirs in store.table && SidesIn(store.table, s)
    requires s.o == AsRef(h, ours.content) && s.t == AsRef(h, theirs.content)
    requires IsMutableRef(ours.content) || IsMutableRef(theirs.content)
    modifies store, log
    decreases Height(ours) + Height(theirs), 2, 0
    ensures Sound(store.table, log.cids) && old(store.table).Keys <= store.table.Keys && CidIn(store.table, value)
    ensures failed == MergeValues(h, s, ours, theirs, labels, isTop).failed
            && value == MergeValues(h, s, ours, theirs, labels, isTop).request
    ensures log.cids == old(log.cids) + MergeValues(h, s, ours, theirs, labels, isTop).raised
  {
    ValuesBelow(h, ours.content, theirs.content);
    var o := StoreSideValue(store, h, ours);
    var t := StoreSideValue(store, h, theirs);
    var merged := MergeNodeInto(store, log, h, s.bv, o, t, labels, true, false);
    failed := Merged(Cid(EMPTY));
    match merged
    case Merged(cid) => value := Some(cid);
    case Conflict => if isTop { value := Some(o); } else { failed, value := Conflict, None; }
    case Thrown => failed, value := Thrown, None;
  }

  function MergedValue(h: Host, s: RefSides, ours: Cid, theirs: Cid, labels: Labels, isTop: bool,
      field: bool): RequestResult
    requires IsMutableRef(ours.content) || IsMutableRef(theirs.content)
  {
    if field && ValuesConflict(s.bv, s.ov, s.tv) then RequestResult(None, Conflict, [])
    else if IsTyped(s, field) then MergeTyped(h, s)
    else MergeValues(h, s, ours, theirs, labels, isTop)
  }

  method MergeValueInto(store: FosStore, log: ChoiceLog, h: Host, s: RefSides, ours: Cid, theirs: Cid, labels: Labels,
      isTop: bool, field: bool)
      returns (failed: Outcome, value: Option<Cid>)
    requires Sound(store.table, log.cids) && ours in store.table && theirs in store.table && SidesIn(store.table, s)
    requires s.o == AsRef(h, ours.content) && s.t == AsRef(h, theirs.content)
    requires IsMutableRef(ours.content) || IsMutableRef(theirs.content)
    modifies store, log
    decreases Height(ours) + Height(theirs), 2, 1
    ensures Sound(store.table, log.cids) && old(store.table).Keys <= store.table.Keys && CidIn(store.table, value)
    ensures var merged := MergedValue(h, s, ours, theirs, labels, isTop, field);
            failed == merged.failed && value == merged.request && log.cids == old(log.cids) + merged.raised
  {
    assert log.cids + [] == log.cids;
    if field && ValuesConflict(s.bv, s.ov, s.tv) { return Conflict, None; }
    if IsTyped(s, field) {
      failed, value := MergeTypedInto(store, h, s);
    } else {
      failed, value := MergeValuesInto(store, log, h, s, ours, theirs, labels, isTop);
    }
  }

  function MergedBook(h: Host, s: RefSides, labels: Labels): RowsResult {
    MergeChildren(h, if s.b.Some? then Book(h, s.b.value) else NoData(), Book(h, s.o), Book(h, s.t), labels)
  }

  method MergeBookInto(store: FosStore, log: ChoiceLog, h: Host, s: RefSides, ours: Cid, theirs: Cid, labels: Labels)
      returns (r: Rows)
    requires Sound(store.table, log.cids) && SidesIn(store.table, s)
    requires s.o == AsRef(h, ours.content) && s.t == AsRef(h, theirs.content)
    modifies store, log
    decreases Height(ours) + Height(theirs), 2, 1
    ensures Sound(store.table, log.cids) && old(store.table).Keys <= store.table.Keys
    ensures r == MergedBook(h, s, labels).rows && log.cids == old(log.cids) + MergedBook(h, s, labels).raised
    ensures r.Rows? ==> RowsIn(store.table, r.edges)
  {
    BooksBelow(h, ours.content, theirs.content);
    RefRowsIn(store.table, h, s.o);
    RefRowsIn(store.table, h, s.t);
    if s.b.Some? { RefRowsIn(store.table, h, s.b.value); }
    var b := if s.b.Some? then Book(h, s.b.value) else NoData();
    r := MergeChildrenInto(store, log, h, b, Book(h, s.o), Book(h, s.t), labels);
  }

  function Joined(h: Host, s: RefSides, ours: Cid, theirs: Cid, value: RequestResult, books: RowsResult): NodeResult {
    if !value.failed.Merged? then NodeResult(value.failed, value.raised)
    else NodeResult(if books.rows.RowsThrown? then Thrown
        else Merged(MergedRef(h, s, ours, theirs, value.request, books.rows)), value.raised + books.raised)
  }

  lemma RefsUnfold(h: Host, base: Option<Cid>, ours: Cid, theirs: Cid, labels: Labels, isTop: bool, field: bool)
    requires IsMutableRef(ours.content) || IsMutableRef(theirs.content)
    ensures var s := Sides(h, base, ours, theirs);
            MergeRefs(h, base, ours, theirs, labels, isTop, field)
            == Joined(h, s, ours, theirs, MergedValue(h, s, ours, theirs, labels, isTop, field),
                MergedBook(h, s, labels))
  {}

  method MergeRefsInto(store: FosStore, log: ChoiceLog, h: Host, base: Option<Cid>, ours: Cid, theirs: Cid,
      labels: Labels, isTop: bool, field: bool) returns (r: Outcome)
    requires Sound(store.table, log.cids) && CidIn(store.table, base) && ours in store.table && theirs in store.table
    requires IsMutableRef(ours.content) || IsMutableRef(theirs.content)
    modifies store, log
    decreases Height(ours) + Height(theirs), 3, 0
    ensures Sound(store.table, log.cids) && old(store.table).Keys <= store.table.Keys
    ensures r == MergeRefs(h, base, ours, theirs, labels, isTop, field).outcome
    ensures log.cids == old(log.cids) + MergeRefs(h, base, ours, theirs, labels, isTop, field).raised
    ensures r.Merged? ==> r.cid in store.table
  {
    var s := StoreRefs(store, h, base, ours, theirs);
    ghost var logged, merged, books := log.cids, MergedValue(h, s, ours, theirs, labels, isTop, field),
        MergedBook(h, s, labels);
    RefsUnfold(h, base, ours, theirs, labels, isTop, field);
    var failed, value := MergeValueInto(store, log, h, s, ours, theirs, labels, isTop, field);
    if !failed.Merged? { return failed; }
    Longer(logged, merged.raised, books.raised);
    r := FinishRefInto(store, log, h, s, ours, theirs, value, labels);
  }

  method FinishRefInto(store: FosStore, log: ChoiceLog, h: Host, s: RefSides, ours: Cid, theirs: Cid,
      value: Option<Cid>, labels: Labels) returns (r: Outcome)
    requires Sound(store.table, log.cids) && SidesIn(store.table, s) && CidIn(store.table, value)
    requires s.o == AsRef(h, ours.content) && s.t == AsRef(h, theirs.content)
    requires RefCid(h, ours) in store.table && RefCid(h, theirs) in store.table
    modifies store, log
    decreases Height(ours) + Height(theirs), 2, 2
    ensures Sound(store.table, log.cids) && old(store.table).Keys <= store.table.Keys
    ensures var books := MergedBook(h, s, labels);
            log.cids == old(log.cids) + books.raised
                && r == if books.rows.RowsThrown? then Thrown
                else Merged(MergedRef(h, s, ours, theirs, value, books.rows))
    ensures r.Merged? ==> r.cid in store.table
  {
    var book := MergeBookInto(store, log, h, s, ours, theirs, labels);
    if book.RowsThrown? { return Thrown; }
    var cid := StoreMergedRef(store, h, s, ours, theirs, value, book);
    r := Merged(cid);
  }

  lemma HistoryIn(table: Table, h: Host, s: RefSides, ours: Cid, theirs: Cid, value: Option<Cid>)
    requires SidesIn(table, s) && Prim("previous") in table && RefCid(h, ours) in table && RefCid(h, theirs) in table
    ensures RowsIn(table, History(h, s, ours, theirs, value))
  {
    RefRowsIn(table, h, s.o);
    RefRowsIn(table, h, s.t);
    FilterRows(table, h, NotIn(PrevRows(h, s.o)), PrevRows(h, s.t));
  }

  method StoreMergedRef(store: FosStore, h: Host, s: RefSides, ours: Cid, theirs: Cid, value: Option<Cid>, book: Rows)
      returns (cid: Cid)
    requires Closed(store.table) && SidesIn(store.table, s) && CidIn(store.table, value)
    requires RefCid(h, ours) in store.table && RefCid(h, theirs) in store.table
            && (book.Rows? ==> RowsIn(store.table, book.edges))
    modifies store
    ensures Closed(store.table) && old(store.table).Keys <= store.table.Keys
    ensures cid == MergedRef(h, s, ours, theirs, value, book) && cid in store.table
  {
    var previous := PutPrim(store, "previous");
    RefRowsIn(store.table, h, s.o);
    HistoryIn(store.table, h, s, ours, theirs, value);
    var rows, history := if book.Rows? then book.edges else Book(h, s.o).children, History(h, s, ours, theirs, value);
    var data := MergeDataInto(if s.b.Some? then s.b.value.data else map[], s.o.data, s.t.data, true);
    RowsJoin(store.table, store.table, rows, history);
    cid := StoreRef(store, data.value, value, rows + history);
  }

  /** The merge of the top nodes, with the choices logged on the way. */
  method MergeTopInto(store: FosStore, h: Host, base: Option<Cid>, ours: Cid, theirs: Cid, labels: Labels)
      returns (r: Outcome, raised: seq<Cid>)
    requires Closed(store.table) && CidIn(store.table, base) && ours in store.table && theirs in store.table
    modifies store
    ensures Closed(store.table) && old(store.table).Keys <= store.table.Keys
    ensures MergeNodes(h, base, ours, theirs, labels) == NodeResult(r, raised)
    ensures (r.Merged? ==> r.cid in store.table) && AllIn(store.table, raised)
  {
    var log := new ChoiceLog();
    r := MergeNodeInto(store, log, h, base, ours, theirs, labels, true, false);
    raised := log.cids;
    Whole(raised);
  }

  /** The three-way merge of two versions of a node, with the choices it leaves to the reader. */
  method MergeNodesInto(store: FosStore, h: Host, base: Option<Cid>, ours: Cid, theirs: Cid, labels: Labels)
      returns (r: Result<(Cid, seq<Cid>)>)
    requires Closed(store.table) && CidIn(store.table, base) && ours in store.table && theirs in store.table
    modifies store
    ensures Closed(store.table) && old(store.table).Keys <= store.table.Keys
    ensures r.Ok? <==> MergeNodes(h, base, ours, theirs, labels).outcome.Merged?
    ensures r.Ok? ==> MergeNodes(h, base, ours, theirs, labels) == NodeResult(Merged(r.value.0), r.value.1)
    ensures r.Ok? ==> r.value.0 in store.table && AllIn(store.table, r.value.1)
  {
    var outcome, raised := MergeTopInto(store, h, base, ours, theirs, labels);
    match outcome
    case Merged(cid) => r := Ok((cid, raised));
    case Conflict => r := Err("conflicting typed refs must be merged through their owning node to resolve the choice");
    case Thrown => r := Err("a ref without identity has no value branches");
  }
}
