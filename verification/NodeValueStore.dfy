/** Construction and reading over a store: fields are put and pushed one at a time. */
module NodeValueStore {
  import opened Options
  import opened Json
  import opened Text
  import opened Graph
  import opened Merge
  import opened Store
  import opened ChoiceStore
  import opened NodeValues
  import opened NodeValueLaws
  import opened Sequences

  /** Member names sorted. */
  method SortNames(names: set<string>) returns (r: seq<string>)
    ensures r == Listed(names, Sorted)
  {
    r := [];
    var todo := names;
    while todo != {}
      invariant r + Listed(todo, Sorted) == Listed(names, Sorted)
    {
      FirstExists(Sorted, todo);
      var first :| first in todo && forall name | name in todo :: UpTo(Sorted, first, name);
      ListedFrom(todo, first);
      r := r + [first];
      todo := todo - {first};
    }
  }

  lemma ListedFrom(names: set<string>, first: string)
    requires first in names && forall name | name in names :: UpTo(Sorted, first, name)
    ensures Listed(names, Sorted) == [first] + Listed(names - {first}, Sorted)
  {
    var head := Listed(names, Sorted)[0];
    assert head in names;
    UpToIsTotal(Sorted, first, head);
  }

  /** A value's field names in row order. */
  method NamesInOrder(v: Value) returns (names: seq<string>)
    requires IsContainer(v)
    ensures names == FieldNames(v)
  {
    match v
    case Sequence(items) => names := seq(|items|, i requires 0 <= i < |items| => Decimal(i));
    case Record(fields) => names := SortNames(set name | name in fields && !fields[name].Undefined?);
  }

  method PutLeaf(store: FosStore, v: Value) returns (r: Option<Built>)
    requires Closed(store.table)
    modifies store
    ensures Closed(store.table) && old(store.table).Keys <= store.table.Keys
    ensures r == Leaf(v) && (r.Some? ==> r.value.cid in store.table)
  {
    r := Leaf(v);
    if r.Some? {
      var cid := store.Put(r.value.cid.content);
    }
  }

  /** The field's node under its name, and the ref to it when it has an identity. */
  method PutField(store: FosStore, identity: Option<string>, name: string, next: Built) returns (row: Edge)
    requires Closed(store.table) && next.cid in store.table
    modifies store
    ensures Closed(store.table) && old(store.table).Keys <= store.table.Keys
    ensures row == FieldRow(identity, name, next) && RowsIn(store.table, [row])
  {
    var cid := store.Put(Named(next.cid, name).content);
    var left := PutPrim(store, next.shape);
    if identity.None? { return Edge(left, cid); }
    var ref := StoreRef(store, map["alias" := AliasData(identity.value), "name" := NameData(name)], Some(cid), []);
    row := Edge(left, ref);
  }

  ghost predicate Matches(table: Table, r: Result<Built>, want: Option<Built>) {
    match r
    case Ok(built) => want == Some(built) && built.cid in table
    case Err(_) => want.None?
  }

  /** An earlier version counts only when the store holds it. */
  ghost function Known(table: Table, previous: Option<Cid>): Option<Cid> {
    if previous.Some? && previous.value in table then previous else None
  }

  lemma {:induction false} ValueContentIn(table: Table, h: Host, e: Editor, c: Cid)
    requires Closed(table) && c in table
    ensures RowsIn(table, ValueContent(h, e, c).children)
    decreases Height(c)
  {
    SelectedHeight(h, e, c);
    FirstHeight(c.content.children, Prim("target"));
    SelectedIn(table, h, e, c);
    var selected, target := SelectedValue(h, e, c), RefValue(c.content);
    if IsBranchChoice(c.content) {
      if selected.Some? { ValueContentIn(table, h, e, selected.value); }
    } else if target.Some? {
      ValueContentIn(table, h, e, target.value);
    }
  }

  lemma {:induction false} PriorIn(table: Table, h: Host, e: Editor, es: seq<Edge>, name: string)
    requires RowsIn(table, es)
    ensures Prior(h, e, es, name).Some? ==> Prior(h, e, es, name).value in table
  {
    if es != [] && FieldName(h, e, es[0].right) != Some(name) { PriorIn(table, h, e, es[1..], name); }
  }

  method FieldsBefore(store: FosStore, h: Host, e: Editor, id: Option<string>, previous: Option<Cid>)
      returns (before: seq<Edge>)
    requires Closed(store.table)
    ensures before == if id.Some? && Known(store.table, previous).Some? then ValueContent(h, e, previous.value).children
            else []
    ensures RowsIn(store.table, before)
  {
    if id.None? || previous.None? || previous.value !in store.table { return []; }
    ValueContentIn(store.table, h, e, previous.value);
    before := ValueContent(h, e, previous.value).children;
  }

  method ConstructNodeValue(store: FosStore, h: Host, e: Editor, v: Value, id: Option<string>, previous: Option<Cid>,
      depth: nat) returns (r: Result<Built>)
    requires Closed(store.table)
    modifies store
    decreases v, 1, 0
    ensures Closed(store.table) && old(store.table).Keys <= store.table.Keys
    ensures Matches(store.table, r, Construct(h, e, v, id, Known(old(store.table), previous), depth))
  {
    if depth > MAX_DEPTH { return Err("Node value nesting exceeds 64 levels."); }
    if !IsContainer(v) {
      var leaf := PutLeaf(store, v);
      return if leaf.Some? then Ok(leaf.value) else Err("Expected graph fields or a scalar value.");
    }
    r := ConstructContainer(store, h, e, v, id, previous, depth);
  }

  method ConstructContainer(store: FosStore, h: Host, e: Editor, v: Value, id: Option<string>, previous: Option<Cid>,
      depth: nat) returns (r: Result<Built>)
    requires Closed(store.table) && IsContainer(v) && depth <= MAX_DEPTH
    modifies store
    decreases v, 0, 4
    ensures Closed(store.table) && old(store.table).Keys <= store.table.Keys
    ensures Matches(store.table, r, Construct(h, e, v, id, Known(old(store.table), previous), depth))
  {
    var names := NamesInOrder(v);
    if |names| > MAX_FIELDS { return Err("Node value has too many fields."); }
    var before := FieldsBefore(store, h, e, id, previous);
    ContainerUnfold(h, e, v, id, Known(store.table, previous), depth, before);
    var rows := ConstructFields(store, h, e, v, names, id, before, depth);
    if rows.Err? { return Err(rows.message); }
    var cid := store.Put(Content(ContainerData(v), rows.value));
    r := Ok(Built(if v.Sequence? then "sequence" else "record", cid));
  }

  lemma ContainerUnfold(h: Host, e: Editor, v: Value, id: Option<string>, known: Option<Cid>, depth: nat,
      before: seq<Edge>)
    requires IsContainer(v) && depth <= MAX_DEPTH && |FieldNames(v)| <= MAX_FIELDS
    requires before == if id.Some? && known.Some? then ValueContent(h, e, known.value).children else []
    ensures var rows := ConstructRows(h, e, v, 0, id, before, depth);
            Construct(h, e, v, id, known, depth)
            == if rows.Some? then Some(Built(if v.Sequence? then "sequence" else "record",
                Cid(Content(ContainerData(v), rows.value)))) else None
  {}

  /** The fields still to come, after `rows`. */
  ghost function After(rows: seq<Edge>, rest: Option<seq<Edge>>): Option<seq<Edge>> {
    if rest.Some? then Some(rows + rest.value) else None
  }

  lemma AfterField(h: Host, e: Editor, v: Value, i: nat, id: Option<string>, before: seq<Edge>, depth: nat,
      rows: seq<Edge>)
    requires IsContainer(v) && i < |FieldNames(v)|
    ensures After(rows, ConstructRows(h, e, v, i, id, before, depth))
            == if |FieldNames(v)[i]| > MAX_NAME || BuiltAt(h, e, v, i, id, before, depth).None? then None
               else After(rows + [FieldRow(IdentityAt(h, e, v, i, id, before), FieldNames(v)[i],
                   BuiltAt(h, e, v, i, id, before, depth).value)],
                      ConstructRows(h, e, v, i + 1, id, before, depth))
  {
    var rest := ConstructRows(h, e, v, i + 1, id, before, depth);
    if |FieldNames(v)[i]| <= MAX_NAME && BuiltAt(h, e, v, i, id, before, depth).Some? && rest.Some? {
      var row := FieldRow(IdentityAt(h, e, v, i, id, before), FieldNames(v)[i],
          BuiltAt(h, e, v, i, id, before, depth).value);
      Longer(rows, [row], rest.value);
    }
  }

  /** `rows` and the rows of the fields from the `i`th make the whole. */
  ghost predicate ToCome(h: Host, e: Editor, v: Value, i: nat, id: Option<string>, before: seq<Edge>, depth: nat,
      rows: seq<Edge>, whole: Option<seq<Edge>>)
    requires IsContainer(v) && i <= |FieldNames(v)|
  {
    whole == After(rows, ConstructRows(h, e, v, i, id, before, depth))
  }

  lemma ToComeNext(h: Host, e: Editor, v: Value, i: nat, id: Option<string>, before: seq<Edge>, depth: nat,
      rows: seq<Edge>, whole: Option<seq<Edge>>)
      returns (row: Edge)
    requires IsContainer(v) && i < |FieldNames(v)| && ToCome(h, e, v, i, id, before, depth, rows, whole)
    ensures |FieldNames(v)[i]| > MAX_NAME || BuiltAt(h, e, v, i, id, before, depth).None? ==> whole.None?
    ensures BuiltAt(h, e, v, i, id, before, depth).Some?
            ==> row == FieldRow(IdentityAt(h, e, v, i, id, before), FieldNames(v)[i],
            BuiltAt(h, e, v, i, id, before, depth).value)
    ensures |FieldNames(v)[i]| <= MAX_NAME && BuiltAt(h, e, v, i, id, before, depth).Some?
            ==> ToCome(h, e, v, i + 1, id, before, depth, rows + [row], whole)
  {
    AfterField(h, e, v, i, id, before, depth, rows);
    row := Edge(Cid(EMPTY), Cid(EMPTY));
    if BuiltAt(h, e, v, i, id, before, depth).Some? {
      row := FieldRow(IdentityAt(h, e, v, i, id, before), FieldNames(v)[i],
          BuiltAt(h, e, v, i, id, before, depth).value);
    }
  }

  method ConstructFields(store: FosStore, h: Host, e: Editor, v: Value, names: seq<string>, id: Option<string>,
      before: seq<Edge>, depth: nat)
      returns (r: Result<seq<Edge>>)
    requires Closed(store.table) && RowsIn(store.table, before) && IsContainer(v) && names == FieldNames(v)
    modifies store
    decreases v, 0, 3
    ensures Closed(store.table) && old(store.table).Keys <= store.table.Keys
    ensures r.Ok? <==> ConstructRows(h, e, v, 0, id, before, depth).Some?
    ensures r.Ok? ==> r.value == ConstructRows(h, e, v, 0, id, before, depth).value && RowsIn(store.table, r.value)
  {
    ghost var whole := ConstructRows(h, e, v, 0, id, before, depth);
    var rows := [];
    if whole.Some? { Whole(whole.value); }
    for i := 0 to |names|
      invariant Closed(store.table) && old(store.table).Keys <= store.table.Keys && RowsIn(store.table, rows)
              && RowsIn(store.table, before)
      invariant ToCome(h, e, v, i, id, before, depth, rows, whole)
    {
      ghost var row := ToComeNext(h, e, v, i, id, before, depth, rows, whole);
      var longer := PushField(store, h, e, v, names, i, id, before, depth, rows);
      if longer.Err? { return longer; }
      rows := longer.value;
    }
    Whole(rows);
    r := Ok(rows);
  }

  /** `rows` with the row of field `i`. */
  method PushField(store: FosStore, h: Host, e: Editor, v: Value, names: seq<string>, i: nat, id: Option<string>,
      before: seq<Edge>, depth: nat, rows: seq<Edge>)
      returns (r: Result<seq<Edge>>)
    requires Closed(store.table) && RowsIn(store.table, before) && RowsIn(store.table, rows) && IsContainer(v)
            && names == FieldNames(v) && i < |names|
    modifies store
    decreases v, 0, 2
    ensures Closed(store.table) && old(store.table).Keys <= store.table.Keys
    ensures r.Ok? <==> |names[i]| <= MAX_NAME && BuiltAt(h, e, v, i, id, before, depth).Some?
    ensures r.Ok? ==> r.value == rows + [FieldRow(IdentityAt(h, e, v, i, id, before), names[i],
            BuiltAt(h, e, v, i, id, before, depth).value)]
    ensures r.Ok? ==> RowsIn(store.table, r.value)
  {
    if |names[i]| > MAX_NAME { return Err("A field name exceeds 1,024 characters."); }
    var row := ConstructField(store, h, e, v, names, i, id, before, depth);
    if row.Err? { return Err(row.message); }
    r := Ok(rows + [row.value]);
  }

  method ConstructField(store: FosStore, h: Host, e: Editor, v: Value, names: seq<string>, i: nat, id: Option<string>,
      before: seq<Edge>, depth: nat)
      returns (r: Result<Edge>)
    requires Closed(store.table) && RowsIn(store.table, before) && IsContainer(v) && names == FieldNames(v)
            && i < |names|
    modifies store
    decreases v, 0, 1
    ensures Closed(store.table) && old(store.table).Keys <= store.table.Keys
    ensures r.Ok? <==> BuiltAt(h, e, v, i, id, before, depth).Some?
    ensures r.Ok? ==> r.value == FieldRow(IdentityAt(h, e, v, i, id, before), names[i],
            BuiltAt(h, e, v, i, id, before, depth).value)
    ensures r.Ok? ==> RowsIn(store.table, [r.value])
  {
    var prior := Prior(h, e, before, names[i]);
    var identity := FieldIdentity(e, id, prior, names[i]);
    PriorIn(store.table, h, e, before, names[i]);
    assert BuiltAt(h, e, v, i, id, before, depth) == EntryBuilt(h, e, ValueAt(v, names, i), identity, prior, depth);
    var next := ConstructEntry(store, h, e, ValueAt(v, names, i), identity, prior, depth, v);
    if next.Err? { return Err(next.message); }
    var row := PutField(store, identity, names[i], next.value);
    r := Ok(row);
  }

  ghost function EntryBuilt(h: Host, e: Editor, value: Value, identity: Option<string>, prior: Option<Cid>,
      depth: nat): Option<Built> {
    if value.Undefined? then (if depth + 1 > MAX_DEPTH then None else Leaf(Nil))
        else Construct(h, e, value, identity, prior, depth + 1)
  }

  /** A missing item is null. */
  method ConstructMissing(store: FosStore, depth: nat) returns (next: Result<Built>)
    requires Closed(store.table)
    modifies store
    ensures Closed(store.table) && old(store.table).Keys <= store.table.Keys
    ensures Matches(store.table, next, if depth + 1 > MAX_DEPTH then None else Leaf(Nil))
  {
    if depth + 1 > MAX_DEPTH { return Err("Node value nesting exceeds 64 levels."); }
    var leaf := PutLeaf(store, Nil);
    next := Ok(leaf.value);
  }

  method ConstructEntry(store: FosStore, h: Host, e: Editor, value: Value, identity: Option<string>, prior: Option<Cid>,
      depth: nat, ghost v: Value)
      returns (next: Result<Built>)
    requires Closed(store.table) && value < v && Known(store.table, prior) == prior
    modifies store
    decreases v, 0, 0
    ensures Closed(store.table) && old(store.table).Keys <= store.table.Keys
    ensures Matches(store.table, next, EntryBuilt(h, e, value, identity, prior, depth))
  {
    if value.Undefined? {
      next := ConstructMissing(store, depth);
    } else {
      next := ConstructNodeValue(store, h, e, value, identity, prior, depth + 1);
    }
  }

  function ValueAt(v: Value, names: seq<string>, i: nat): (r: Value)
    requires IsContainer(v) && names == FieldNames(v) && i < |names|
    ensures r == FieldAt(v, i)
  {
    if v.Sequence? then v.items[i]
    else
      assert FieldAt(v, i) == v.fields[names[i]] && names[i] in v.fields by {
        ListedOnce(Defined(v.fields), Sorted);
        assert names[i] in FieldNames(v);
      }
      v.fields[names[i]]
  }

  // ---------------------------------------------------------------------------
  // Reading

  lemma SelectedIn(table: Table, h: Host, e: Editor, c: Cid)
    requires Closed(table) && c in table
    ensures SelectedValue(h, e, c).Some? ==> SelectedValue(h, e, c).value in table
    ensures RefValue(c.content).Some? ==> RefValue(c.content).value in table
  {
    ReadChoiceIn(table, h, c);
    FoundIn(table, ReadChoice(h, c).options, e.selected(c));
    FirstIn(table, c.content.children, Prim("target"));
  }

  method ReadGraphValue(store: FosStore, h: Host, e: Editor, c: Cid, depth: nat, active: set<Cid>)
      returns (r: Option<Value>)
    requires Closed(store.table)
    decreases Height(c), 0, 0
    ensures r == if c in store.table then Read(h, e, c, depth, active) else None
  {
    if depth > MAX_DEPTH || |active| > MAX_ACTIVE || c in active || c !in store.table { return None; }
    SelectedHeight(h, e, c);
    FirstHeight(c.content.children, Prim("target"));
    SelectedIn(store.table, h, e, c);
    var data, target := c.content.data, RefValue(c.content);
    if IsBranchChoice(c.content) {
      var selected := SelectedValue(h, e, c);
      if selected.None? { return None; }
      r := ReadGraphValue(store, h, e, selected.value, depth, active + {c});
    } else if target.Some? {
      r := ReadGraphValue(store, h, e, target.value, depth, active + {c});
    } else if Has(data, "scalar") {
      r := ScalarValue(data);
    } else if Has(data, "presentation") {
      var entries := ReadFields(store, h, e, c.content.children, depth, active + {c});
      r := if entries.Some? then Some(Assembled(data, entries.value)) else None;
    } else {
      r := None;
    }
  }

  function AfterEntries(entries: seq<(string, Value)>, rest: Option<seq<(string, Value)>>): Option<seq<(string,
      Value)>> {
    if rest.Some? then Some(entries + rest.value) else None
  }

  /** What reading one row comes to: passed over, refused, or an entry. */
  datatype RowRead = Passed | Refused | Entry(name: string, value: Value)

  function ReadRow(h: Host, e: Editor, row: Edge, names: set<string>, depth: nat, active: set<Cid>): RowRead {
    if !IsField(h, row) then Passed
    else if FieldName(h, e, row.right).None? || FieldName(h, e, row.right).value in names then Refused
    else
      var value := Read(h, e, row.right, depth + 1, active);
      if value.None? || !Fits(PrimName(row.left), value.value) then Refused
          else Entry(FieldName(h, e, row.right).value, value.value)
  }

  lemma AfterRow(h: Host, e: Editor, es: seq<Edge>, i: nat, names: set<string>, depth: nat, active: set<Cid>,
      entries: seq<(string, Value)>)
    requires i < |es|
    ensures AfterEntries(entries, ReadRows(h, e, es[i..], names, depth, active))
            == match ReadRow(h, e, es[i], names, depth, active)
               case Passed => AfterEntries(entries, ReadRows(h, e, es[i + 1..], names, depth, active))
               case Refused => None
               case Entry(name, value) => AfterEntries(entries + [(name, value)],
                   ReadRows(h, e, es[i + 1..], names + {name}, depth, active))
  {
    assert es[i..][0] == es[i] && es[i..][1..] == es[i + 1..];
    var row := ReadRow(h, e, es[i], names, depth, active);
    if row.Entry? {
      var rest := ReadRows(h, e, es[i + 1..], names + {row.name}, depth, active);
      if rest.Some? { Longer(entries, [(row.name, row.value)], rest.value); }
    }
  }

  method ReadFields(store: FosStore, h: Host, e: Editor, es: seq<Edge>, depth: nat, active: set<Cid>)
      returns (r: Option<seq<(string, Value)>>)
    requires Closed(store.table) && RowsIn(store.table, es)
    decreases RowsHeight(es), 1, 0
    ensures r == ReadRows(h, e, es, {}, depth, active)
  {
    var entries, names := [], {};
    ghost var whole, rest := ReadRows(h, e, es, {}, depth, active), ReadRows(h, e, es, {}, depth, active);
    assert es[0..] == es;
    if whole.Some? { Whole(whole.value); }
    for i := 0 to |es|
      invariant rest == ReadRows(h, e, es[i..], names, depth, active)
      invariant whole == AfterEntries(entries, rest)
    {
      AfterRow(h, e, es, i, names, depth, active, entries);
      RowHeight(es, es[i]);
      ghost var row := ReadRow(h, e, es[i], names, depth, active);
      if IsField(h, es[i]) {
        var name := FieldName(h, e, es[i].right);
        if name.None? || name.value in names { return None; }
        var value := ReadGraphValue(store, h, e, es[i].right, depth + 1, active);
        if value.None? || !Fits(PrimName(es[i].left), value.value) { return None; }
        entries, names := entries + [(name.value, value.value)], names + {name.value};
      }
      rest := ReadRows(h, e, es[i + 1..], names, depth, active);
    }
    Whole(entries);
    r := Some(entries);
  }
}
