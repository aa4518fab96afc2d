/** What is constructed is read back unchanged, and values without identities have one node each. */
module NodeValueLaws {
  import opened Options
  import opened Json
  import opened Text
  import opened Graph
  import opened Merge
  import opened NodeValues

  // ---------------------------------------------------------------------------
  // Names

  lemma {:induction false} DecimalUnique(a: nat, b: nat)
    requires Decimal(a) == Decimal(b)
    ensures a == b
  {
    var s, t := Decimal(a), Decimal(b);
    assert s[|s| - 1] == Digit(a % 10) && t[|t| - 1] == Digit(b % 10);
    if a >= 10 && b >= 10 {
      assert s[..|s| - 1] == Decimal(a / 10) && t[..|t| - 1] == Decimal(b / 10);
      DecimalUnique(a / 10, b / 10);
    } else if a >= 10 {
      DecimalNotEmpty(a / 10);
    } else if b >= 10 {
      DecimalNotEmpty(b / 10);
    }
  }

  lemma DecimalNotEmpty(a: nat)
    ensures Decimal(a) != ""
  {}

  lemma NamesDistinct(v: Value, i: nat, k: nat)
    requires IsContainer(v) && i < k < |FieldNames(v)|
    ensures FieldNames(v)[i] != FieldNames(v)[k]
  {
    if v.Record? { ListedOnce(Defined(v.fields), Sorted); }
    if v.Sequence? && Decimal(i) == Decimal(k) { DecimalUnique(i, k); }
  }

  // ---------------------------------------------------------------------------
  // Entries

  ghost function CleanAt(v: Value, i: nat): Value
    requires IsContainer(v) && i < |FieldNames(v)|
  {
    if FieldAt(v, i).Undefined? then Nil else Clean(FieldAt(v, i))
  }

  ghost function EntryAt(v: Value, i: nat): (string, Value)
    requires IsContainer(v) && i < |FieldNames(v)|
  {
    (FieldNames(v)[i], CleanAt(v, i))
  }

  /** The fields from the `i`th as they are read. */
  ghost function Entries(v: Value, i: nat): seq<(string, Value)>
    requires IsContainer(v) && i <= |FieldNames(v)|
  {
    seq(|FieldNames(v)| - i, k requires 0 <= k < |FieldNames(v)| - i => EntryAt(v, i + k))
  }

  lemma EntriesNext(v: Value, i: nat)
    requires IsContainer(v) && i < |FieldNames(v)|
    ensures Entries(v, i) == [EntryAt(v, i)] + Entries(v, i + 1)
  {}

  lemma {:induction false} FromEntriesAt(entries: seq<(string, Value)>)
    requires forall i, k | 0 <= i < k < |entries| :: entries[i].0 != entries[k].0
    ensures forall name :: name in FromEntries(entries) <==> exists i | 0 <= i < |entries| :: entries[i].0 == name
    ensures forall i | 0 <= i < |entries| :: FromEntries(entries)[entries[i].0] == entries[i].1
  {
    if entries != [] { FromEntriesAt(entries[..|entries| - 1]); }
  }

  lemma FromAllEntries(entries: seq<(string, Value)>, want: map<string, Value>)
    requires forall i, k | 0 <= i < k < |entries| :: entries[i].0 != entries[k].0
    requires forall i | 0 <= i < |entries| :: entries[i].0 in want && want[entries[i].0] == entries[i].1
    requires forall name | name in want :: exists i | 0 <= i < |entries| :: entries[i].0 == name
    ensures FromEntries(entries) == want
  {
    FromEntriesAt(entries);
    var got := FromEntries(entries);
    forall name | name in want ensures name in got && got[name] == want[name] {
      var i :| 0 <= i < |entries| && entries[i].0 == name;
      assert got[entries[i].0] == entries[i].1;
    }
    assert got.Keys == want.Keys;
  }

  lemma RecordName(v: Value, name: string) returns (k: nat)
    requires v.Record? && name in Clean(v).fields
    ensures k < |FieldNames(v)| && FieldNames(v)[k] == name
  {
    ListedOnce(Defined(v.fields), Sorted);
    assert name in FieldNames(v);
    k :| k < |FieldNames(v)| && FieldNames(v)[k] == name;
  }

  lemma RecordEntry(v: Value, k: nat)
    requires v.Record? && k < |FieldNames(v)|
    ensures FieldNames(v)[k] in Clean(v).fields && Clean(v).fields[FieldNames(v)[k]] == CleanAt(v, k)
  {
    ListedOnce(Defined(v.fields), Sorted);
    assert FieldNames(v)[k] in FieldNames(v);
  }

  lemma RecordEntries(v: Value)
    requires v.Record?
    ensures FromEntries(Entries(v, 0)) == Clean(v).fields
  {
    var entries, want := Entries(v, 0), Clean(v).fields;
    forall i, k | 0 <= i < k < |entries| ensures entries[i].0 != entries[k].0 {
      NamesDistinct(v, i, k);
    }
    forall i | 0 <= i < |entries| ensures entries[i].0 in want && want[entries[i].0] == entries[i].1 {
      RecordEntry(v, i);
    }
    forall name | name in want ensures exists i | 0 <= i < |entries| :: entries[i].0 == name {
      var i := RecordName(v, name);
      assert entries[i].0 == name;
    }
    FromAllEntries(entries, want);
  }

  lemma SequenceEntries(v: Value)
    requires v.Sequence?
    ensures Seconds(Entries(v, 0)) == Clean(v).items
  {
    forall i | 0 <= i < |v.items| ensures Seconds(Entries(v, 0))[i] == Clean(v).items[i] {
      assert Entries(v, 0)[i] == EntryAt(v, 0 + i);
    }
  }

  lemma AssembledIsClean(v: Value, data: Data)
    requires IsContainer(v)
    requires Member(data, "presentation", "sequence") == if v.Sequence? then Some(Bool(true)) else None
    ensures Assembled(data, Entries(v, 0)) == Clean(v)
  {
    if v.Sequence? { SequenceEntries(v); } else { RecordEntries(v); }
  }

  // ---------------------------------------------------------------------------
  // Rows

  lemma ShapesAreTypes(shape: string)
    requires shape in SHAPES
    ensures Prim(shape) != Prim("target") && Prim(shape) != Prim("link")
  {
    if Prim(shape) == Prim("target") { PrimInjective(shape, "target"); }
    if Prim(shape) == Prim("link") { PrimInjective(shape, "link"); }
  }

  lemma {:induction false} RowsHaveNoTarget(h: Host, e: Editor, v: Value, i: nat, id: Option<string>, before: seq<Edge>,
      depth: nat)
    requires IsContainer(v) && i <= |FieldNames(v)| && ConstructRows(h, e, v, i, id, before, depth).Some?
    ensures First(ConstructRows(h, e, v, i, id, before, depth).value, Prim("target")).None?
    decreases |FieldNames(v)| - i
  {
    if i < |FieldNames(v)| {
      RowsHaveNoTarget(h, e, v, i + 1, id, before, depth);
      var rows, rest := ConstructRows(h, e, v, i, id, before, depth).value,
          ConstructRows(h, e, v, i + 1, id, before, depth).value;
      assert rows[1..] == rest;
      var value, identity := FieldAt(v, i), IdentityAt(h, e, v, i, id, before);
      var next := if value.Undefined? then Leaf(Nil)
          else Construct(h, e, value, identity, PriorAt(h, e, v, i, before), depth + 1);
      assert rows[0] == FieldRow(identity, FieldNames(v)[i], next.value);
      ShapesAreTypes(next.value.shape);
    }
  }

  ghost function PriorAt(h: Host, e: Editor, v: Value, i: nat, before: seq<Edge>): Option<Cid>
    requires IsContainer(v) && i < |FieldNames(v)|
  {
    Prior(h, e, before, FieldNames(v)[i])
  }

  ghost function IdentityAt(h: Host, e: Editor, v: Value, i: nat, id: Option<string>, before: seq<Edge>): Option<string>
    requires IsContainer(v) && i < |FieldNames(v)|
  {
    FieldIdentity(e, id, PriorAt(h, e, v, i, before), FieldNames(v)[i])
  }

  /** What the row of field `i` is built from. */
  ghost function BuiltAt(h: Host, e: Editor, v: Value, i: nat, id: Option<string>, before: seq<Edge>,
      depth: nat): Option<Built>
    requires IsContainer(v) && i < |FieldNames(v)|
  {
    if FieldAt(v, i).Undefined? then (if depth + 1 > MAX_DEPTH then None else Leaf(Nil))
    else Construct(h, e, FieldAt(v, i), IdentityAt(h, e, v, i, id, before), PriorAt(h, e, v, i, before), depth + 1)
  }

  lemma RowsUnfold(h: Host, e: Editor, v: Value, i: nat, id: Option<string>, before: seq<Edge>, depth: nat)
    requires IsContainer(v) && i < |FieldNames(v)| && ConstructRows(h, e, v, i, id, before, depth).Some?
    ensures BuiltAt(h, e, v, i, id, before, depth).Some? && depth < MAX_DEPTH
    ensures ConstructRows(h, e, v, i + 1, id, before, depth).Some?
    ensures ConstructRows(h, e, v, i, id, before, depth).value
            == [FieldRow(IdentityAt(h, e, v, i, id, before), FieldNames(v)[i],
                BuiltAt(h, e, v, i, id, before, depth).value)]
               + ConstructRows(h, e, v, i + 1, id, before, depth).value
  {}

  // ---------------------------------------------------------------------------
  // Round trip

  /** The node itself, or as the field of that name. */
  function WithName(c: Cid, name: Option<string>): Cid { if name.Some? then Named(c, name.value) else c }

  ghost predicate Above(active: set<Cid>, height: nat) { forall a | a in active :: Height(a) > height }

  lemma LeafReads(h: Host, e: Editor, v: Value, depth: nat, name: Option<string>, active: set<Cid>)
    requires Leaf(v).Some? && depth <= MAX_DEPTH && |active| <= MAX_ACTIVE
    requires WithName(Leaf(v).value.cid, name) !in active
    ensures Read(h, e, WithName(Leaf(v).value.cid, name), depth, active) == Some(v)
  {
    var c := WithName(Leaf(v).value.cid, name);
    assert RefValue(c.content).None?;
    LeafData(v, name);
    assert !IsBranchChoice(c.content);
  }

  lemma LeafData(v: Value, name: Option<string>)
    requires Leaf(v).Some?
    ensures var data := WithName(Leaf(v).value.cid, name).content.data;
            "option" !in data && Has(data, "scalar") && ScalarValue(data) == Some(v)
  {}

  lemma ContainerReads(h: Host, e: Editor, v: Value, rows: seq<Edge>, depth: nat, name: Option<string>,
      active: set<Cid>)
    requires IsContainer(v) && depth <= MAX_DEPTH && |active| <= MAX_ACTIVE && First(rows, Prim("target")).None?
    requires WithName(Cid(Content(ContainerData(v), rows)), name) !in active
    requires ReadRows(h, e, rows, {}, depth, active + {WithName(Cid(Content(ContainerData(v), rows)), name)})
            == Some(Entries(v, 0))
    ensures Read(h, e, WithName(Cid(Content(ContainerData(v), rows)), name), depth, active) == Some(Clean(v))
  {
    var c := WithName(Cid(Content(ContainerData(v), rows)), name);
    assert c.content.children == rows;
    ContainerShape(v, name, rows);
    assert !IsBranchChoice(c.content);
    AssembledIsClean(v, c.content.data);
  }

  lemma ContainerShape(v: Value, name: Option<string>, rows: seq<Edge>)
    requires IsContainer(v)
    ensures var data := WithName(Cid(Content(ContainerData(v), rows)), name).content.data;
            && "option" !in data && "scalar" !in data && Has(data, "presentation")
            && Member(data, "presentation", "sequence") == if v.Sequence? then Some(Bool(true)) else None
  {}

  lemma SameHeight(c: Cid, name: Option<string>)
    ensures Height(WithName(c, name)) == Height(c)
  {}

  lemma FieldShape(h: Host, e: Editor, identity: Option<string>, name: string, next: Built)
    requires next.shape in SHAPES
    ensures IsField(h, FieldRow(identity, name, next))
            && FieldName(h, e, FieldRow(identity, name, next).right) == Some(name)
  {
    ShapesAreTypes(next.shape);
    var data := FieldRow(identity, name, next).right.content.data;
    assert "name" in data && data["name"] == NameData(name);
  }

  lemma FieldReads(h: Host, e: Editor, identity: Option<string>, name: string, next: Built, depth: nat,
      active: set<Cid>)
    requires identity.Some? && depth <= MAX_DEPTH && |active| <= MAX_ACTIVE
    requires FieldRow(identity, name, next).right !in active
    ensures Read(h, e, FieldRow(identity, name, next).right, depth, active)
            == Read(h, e, Named(next.cid, name), depth, active + {FieldRow(identity, name, next).right})
  {
    var ref := FieldRow(identity, name, next).right;
    assert ref.content.children[0] == Edge(Prim("target"), Named(next.cid, name));
    assert "option" !in ref.content.data;
  }

  lemma FieldHeight(identity: Option<string>, name: string, next: Built)
    ensures identity.Some? ==> Height(FieldRow(identity, name, next).right) > Height(next.cid)
    ensures identity.None? ==> Height(FieldRow(identity, name, next).right) == Height(next.cid)
  {
    var right := FieldRow(identity, name, next).right;
    SameHeight(next.cid, Some(name));
    if identity.Some? {
      assert right.content.children[0] == Edge(Prim("target"), Named(next.cid, name));
      RowHeight(right.content.children, right.content.children[0]);
    }
  }

  lemma TypeName(shape: string)
    ensures PrimName(Prim(shape)) == Some(shape)
  {}

  lemma BuiltFits(h: Host, e: Editor, v: Value, id: Option<string>, previous: Option<Cid>, depth: nat)
    requires Construct(h, e, v, id, previous, depth).Some?
    ensures Fits(Some(Construct(h, e, v, id, previous, depth).value.shape), Clean(v))
  {}

  ghost predicate Room(active: set<Cid>, depth: nat) { |active| + 2 * (MAX_DEPTH - depth) <= MAX_ACTIVE }

  /** A constructed node reads back as its value, whatever encloses it. */
  lemma {:induction false} BuiltReads(h: Host, e: Editor, v: Value, id: Option<string>, previous: Option<Cid>,
      depth: nat, name: Option<string>, active: set<Cid>)
    requires Construct(h, e, v, id, previous, depth).Some?
    requires Room(active, depth) && Above(active, Height(Construct(h, e, v, id, previous, depth).value.cid))
    ensures Read(h, e, WithName(Construct(h, e, v, id, previous, depth).value.cid, name), depth, active)
            == Some(Clean(v))
    decreases v, 1, 0
  {
    var built := Construct(h, e, v, id, previous, depth).value.cid;
    SameHeight(built, name);
    if !IsContainer(v) {
      LeafReads(h, e, v, depth, name, active);
    } else {
      var before := if id.Some? && previous.Some? then ValueContent(h, e, previous.value).children else [];
      var rows := ConstructRows(h, e, v, 0, id, before, depth).value;
      var c := WithName(built, name);
      assert built.content == Content(ContainerData(v), rows);
      RowsHaveNoTarget(h, e, v, 0, id, before, depth);
      RowsRead(h, e, v, 0, id, before, depth, {}, active + {c});
      ContainerReads(h, e, v, rows, depth, name, active);
    }
  }

  ghost predicate Unseen(v: Value, i: nat, names: set<string>)
    requires IsContainer(v)
  {
    forall k | i <= k < |FieldNames(v)| :: FieldNames(v)[k] !in names
  }

  lemma UnseenNext(v: Value, i: nat, names: set<string>)
    requires IsContainer(v) && i < |FieldNames(v)| && Unseen(v, i, names)
    ensures Unseen(v, i + 1, names + {FieldNames(v)[i]}) && FieldNames(v)[i] !in names
  {
    forall k | i + 1 <= k < |FieldNames(v)| ensures FieldNames(v)[k] !in names + {FieldNames(v)[i]} {
      NamesDistinct(v, i, k);
    }
  }

  lemma {:induction false} RowsRead(h: Host, e: Editor, v: Value, i: nat, id: Option<string>, before: seq<Edge>,
      depth: nat, names: set<string>, active: set<Cid>)
    requires IsContainer(v) && i <= |FieldNames(v)| && ConstructRows(h, e, v, i, id, before, depth).Some?
    requires |active| + 2 * (MAX_DEPTH - depth) <= MAX_ACTIVE + 1
    requires Above(active, RowsHeight(ConstructRows(h, e, v, i, id, before, depth).value))
    requires Unseen(v, i, names)
    ensures ReadRows(h, e, ConstructRows(h, e, v, i, id, before, depth).value, names, depth, active)
            == Some(Entries(v, i))
    decreases v, 0, |FieldNames(v)| - i + 4
  {
    if i == |FieldNames(v)| {
      assert Entries(v, i) == [];
    } else {
      var name, identity, next := FieldNames(v)[i], IdentityAt(h, e, v, i, id, before),
          BuiltAt(h, e, v, i, id, before, depth);
      var rows, rest := ConstructRows(h, e, v, i, id, before, depth).value,
          ConstructRows(h, e, v, i + 1, id, before, depth).value;
      RowsUnfold(h, e, v, i, id, before, depth);
      var row := FieldRow(identity, name, next.value);
      assert rows[0] == row && rows[1..] == rest;
      UnseenNext(v, i, names);
      RowsRead(h, e, v, i + 1, id, before, depth, names + {name}, active);
      RowHeight(rows, rows[0]);
      FieldShape(h, e, identity, name, next.value);
      FieldRead(h, e, v, i, id, before, depth, active, row);
      EntriesNext(v, i);
      RowsReadHead(h, e, rows, names, depth, active, name, CleanAt(v, i));
    }
  }

  lemma RowsReadHead(h: Host, e: Editor, rows: seq<Edge>, names: set<string>, depth: nat, active: set<Cid>,
      name: string, value: Value)
    requires rows != [] && IsField(h, rows[0]) && FieldName(h, e, rows[0].right) == Some(name) && name !in names
    requires Read(h, e, rows[0].right, depth + 1, active) == Some(value) && Fits(PrimName(rows[0].left), value)
    ensures ReadRows(h, e, rows, names, depth, active)
            == match ReadRows(h, e, rows[1..], names + {name}, depth,
                active) case None => None case Some(rest) => Some([(name, value)] + rest)
  {}

  lemma ChildFits(h: Host, e: Editor, v: Value, i: nat, id: Option<string>, before: seq<Edge>, depth: nat)
    requires IsContainer(v) && i < |FieldNames(v)| && BuiltAt(h, e, v, i, id, before, depth).Some?
    ensures Fits(Some(BuiltAt(h, e, v, i, id, before, depth).value.shape), CleanAt(v, i))
  {
    if !FieldAt(v, i).Undefined? {
      BuiltFits(h, e, FieldAt(v, i), IdentityAt(h, e, v, i, id, before), PriorAt(h, e, v, i, before), depth + 1);
    }
  }

  lemma MissingReads(h: Host, e: Editor, v: Value, i: nat, id: Option<string>, before: seq<Edge>, depth: nat,
      within: set<Cid>)
    requires IsContainer(v) && i < |FieldNames(v)| && BuiltAt(h, e, v, i, id, before, depth).Some?
            && FieldAt(v, i).Undefined?
    requires |within| <= MAX_ACTIVE && Named(BuiltAt(h, e, v, i, id, before, depth).value.cid,
            FieldNames(v)[i]) !in within
    ensures Read(h, e, Named(BuiltAt(h, e, v, i, id, before, depth).value.cid, FieldNames(v)[i]), depth + 1, within)
            == Some(Nil)
  {
    assert BuiltAt(h, e, v, i, id, before, depth) == Leaf(Nil);
    LeafReads(h, e, Nil, depth + 1, Some(FieldNames(v)[i]), within);
  }

  lemma BuiltIsConstructed(h: Host, e: Editor, v: Value, i: nat, id: Option<string>, before: seq<Edge>, depth: nat)
    requires IsContainer(v) && i < |FieldNames(v)| && !FieldAt(v, i).Undefined?
    ensures BuiltAt(h, e, v, i, id, before, depth)
            == Construct(h, e, FieldAt(v, i), IdentityAt(h, e, v, i, id, before), PriorAt(h, e, v, i, before),
                depth + 1)
    ensures CleanAt(v, i) == Clean(FieldAt(v, i))
  {}

  lemma {:induction false} PresentReads(h: Host, e: Editor, v: Value, i: nat, id: Option<string>, before: seq<Edge>,
      depth: nat, within: set<Cid>, next: Built)
    requires IsContainer(v) && i < |FieldNames(v)| && !FieldAt(v, i).Undefined?
            && BuiltAt(h, e, v, i, id, before, depth) == Some(next)
    requires Room(within, depth + 1) && Above(within, Height(next.cid))
    ensures Read(h, e, Named(next.cid, FieldNames(v)[i]), depth + 1, within) == Some(CleanAt(v, i))
    decreases v, 0, 0
  {
    BuiltIsConstructed(h, e, v, i, id, before, depth);
    BuiltReads(h, e, FieldAt(v, i), IdentityAt(h, e, v, i, id, before), PriorAt(h, e, v, i, before), depth + 1,
        Some(FieldNames(v)[i]), within);
  }

  /** Field `i`'s own value reads back. */
  lemma {:induction false} ChildReads(h: Host, e: Editor, v: Value, i: nat, id: Option<string>, before: seq<Edge>,
      depth: nat, within: set<Cid>, next: Built)
    requires IsContainer(v) && i < |FieldNames(v)| && depth < MAX_DEPTH
            && BuiltAt(h, e, v, i, id, before, depth) == Some(next)
    requires Room(within, depth + 1) && Above(within, Height(next.cid))
    ensures Read(h, e, Named(next.cid, FieldNames(v)[i]), depth + 1, within) == Some(CleanAt(v, i))
    decreases v, 0, 1
  {
    if FieldAt(v, i).Undefined? {
      SameHeight(next.cid, Some(FieldNames(v)[i]));
      MissingReads(h, e, v, i, id, before, depth, within);
    } else {
      PresentReads(h, e, v, i, id, before, depth, within, next);
    }
  }

  /** The row's node reads back: directly, or through its ref. */
  lemma {:induction false} RightReads(h: Host, e: Editor, v: Value, i: nat, id: Option<string>, before: seq<Edge>,
      depth: nat, active: set<Cid>, next: Built)
    requires IsContainer(v) && i < |FieldNames(v)| && depth < MAX_DEPTH
            && BuiltAt(h, e, v, i, id, before, depth) == Some(next)
    requires |active| + 2 * (MAX_DEPTH - depth) <= MAX_ACTIVE + 1
            && Above(active, Height(FieldRow(IdentityAt(h, e, v, i, id, before), FieldNames(v)[i], next).right))
    ensures Read(h, e, FieldRow(IdentityAt(h, e, v, i, id, before), FieldNames(v)[i], next).right, depth + 1, active)
            == Some(CleanAt(v, i))
    decreases v, 0, 2
  {
    var name, identity := FieldNames(v)[i], IdentityAt(h, e, v, i, id, before);
    FieldHeight(identity, name, next);
    if identity.Some? {
      FieldReads(h, e, identity, name, next, depth + 1, active);
      ChildReads(h, e, v, i, id, before, depth, active + {FieldRow(identity, name, next).right}, next);
    } else {
      ChildReads(h, e, v, i, id, before, depth, active, next);
    }
  }

  lemma {:induction false} FieldRead(h: Host, e: Editor, v: Value, i: nat, id: Option<string>, before: seq<Edge>,
      depth: nat, active: set<Cid>, row: Edge)
    requires IsContainer(v) && i < |FieldNames(v)| && depth < MAX_DEPTH && BuiltAt(h, e, v, i, id, before, depth).Some?
    requires row == FieldRow(IdentityAt(h, e, v, i, id, before), FieldNames(v)[i],
            BuiltAt(h, e, v, i, id, before, depth).value)
    requires |active| + 2 * (MAX_DEPTH - depth) <= MAX_ACTIVE + 1 && Above(active, Height(row.right))
    ensures Read(h, e, row.right, depth + 1, active) == Some(CleanAt(v, i))
    ensures Fits(PrimName(row.left), CleanAt(v, i))
    decreases v, 0, 3
  {
    TypeName(BuiltAt(h, e, v, i, id, before, depth).value.shape);
    ChildFits(h, e, v, i, id, before, depth);
    RightReads(h, e, v, i, id, before, depth, active, BuiltAt(h, e, v, i, id, before, depth).value);
  }

  /**
   * Every value that is accepted is returned as it was, with or without editor identities, over any earlier version:
   * the reader's limits on depth and on nodes being read, and its guard against cycles, are never met.
   */
  lemma RoundTrip(h: Host, e: Editor, v: Value, id: Option<string>, previous: Option<Cid>)
    requires Construct(h, e, v, id, previous, 0).Some?
    ensures Read(h, e, Construct(h, e, v, id, previous, 0).value.cid, 0, {}) == Some(Clean(v))
  {
    BuiltReads(h, e, v, id, previous, 0, None, {});
  }

  // ---------------------------------------------------------------------------
  // One node for each value

  lemma CleanFields(v: Value)
    requires IsContainer(v)
    ensures IsContainer(Clean(v)) && FieldNames(Clean(v)) == FieldNames(v)
  {
    if v.Record? { assert Defined(Clean(v).fields) == Defined(v.fields); }
  }

  lemma CleanField(v: Value, i: nat)
    requires IsContainer(v) && i < |FieldNames(v)| && FieldNames(Clean(v)) == FieldNames(v)
    ensures FieldAt(Clean(v), i) == CleanAt(v, i)
  {
    if v.Sequence? {
      assert Clean(v).items[i] == if v.items[i].Undefined? then Nil else Clean(v.items[i]);
    } else {
      var name := FieldNames(v)[i];
      ListedOnce(Defined(v.fields), Sorted);
      assert name in FieldNames(v);
      assert Clean(v).fields[name] == Clean(v.fields[name]);
    }
  }

  /** What is left out of a value makes no difference to its node. */
  lemma {:induction false} CleanBuildsSame(h: Host, e: Editor, v: Value, id: Option<string>, previous: Option<Cid>,
      depth: nat)
    requires !v.Undefined?
    ensures Construct(h, e, Clean(v), id, previous, depth) == Construct(h, e, v, id, previous, depth)
    decreases v, 1, 0
  {
    if IsContainer(v) {
      CleanFields(v);
      var before := if id.Some? && previous.Some? then ValueContent(h, e, previous.value).children else [];
      CleanRowsSame(h, e, v, 0, id, before, depth);
    }
  }

  lemma {:induction false} CleanRowsSame(h: Host, e: Editor, v: Value, i: nat, id: Option<string>, before: seq<Edge>,
      depth: nat)
    requires IsContainer(v) && FieldNames(Clean(v)) == FieldNames(v) && i <= |FieldNames(v)|
    ensures ConstructRows(h, e, Clean(v), i, id, before, depth) == ConstructRows(h, e, v, i, id, before, depth)
    decreases v, 0, |FieldNames(v)| - i + 1
  {
    if i < |FieldNames(v)| {
      CleanRowsSame(h, e, v, i + 1, id, before, depth);
      CleanEntrySame(h, e, v, i, id, before, depth);
      RowsAlike(h, e, Clean(v), v, i, id, before, depth);
    }
  }

  lemma {:induction false} CleanEntrySame(h: Host, e: Editor, v: Value, i: nat, id: Option<string>, before: seq<Edge>,
      depth: nat)
    requires IsContainer(v) && i < |FieldNames(v)| && FieldNames(Clean(v)) == FieldNames(v)
    ensures BuiltAt(h, e, Clean(v), i, id, before, depth) == BuiltAt(h, e, v, i, id, before, depth)
    decreases v, 0, 0
  {
    CleanField(v, i);
    if !FieldAt(v, i).Undefined? {
      CleanBuildsSame(h, e, FieldAt(v, i), IdentityAt(h, e, v, i, id, before), PriorAt(h, e, v, i, before), depth + 1);
    }
  }

  lemma RowsAlike(h: Host, e: Editor, v: Value, w: Value, i: nat, id: Option<string>, before: seq<Edge>, depth: nat)
    requires IsContainer(v) && IsContainer(w) && FieldNames(v) == FieldNames(w) && i < |FieldNames(v)|
    requires BuiltAt(h, e, v, i, id, before, depth) == BuiltAt(h, e, w, i, id, before, depth)
    requires ConstructRows(h, e, v, i + 1, id, before, depth) == ConstructRows(h, e, w, i + 1, id, before, depth)
    ensures ConstructRows(h, e, v, i, id, before, depth) == ConstructRows(h, e, w, i, id, before, depth)
  {}

  /**
   * Without identities, two values have the same cid exactly when they are equal up to member order and what is left
   * out.
   */
  lemma SameCid(h: Host, e: Editor, v: Value, w: Value)
    requires Construct(h, e, v, None, None, 0).Some? && Construct(h, e, w, None, None, 0).Some?
    ensures Construct(h, e, v, None, None, 0).value.cid == Construct(h, e, w, None, None, 0).value.cid
            <==> Clean(v) == Clean(w)
  {
    RoundTrip(h, e, v, None, None);
    RoundTrip(h, e, w, None, None);
    CleanBuildsSame(h, e, v, None, None, 0);
    CleanBuildsSame(h, e, w, None, None, 0);
  }
}
