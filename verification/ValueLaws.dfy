/** What the merge keeps of data fields, of typed values, and of which side came first. */
module ValueLaws {
  import opened Options
  import opened Json
  import opened Text
  import opened Graph
  import opened Merge
  import opened MergeLaws

  // ---------------------------------------------------------------------------
  // Fields of data

  /**
   * A field changed on one side is as that side left it. Ours' change is lost exactly when theirs changed the same
   * field to something else and the data may not conflict: that of the top node, of a ref's value, and of a ref itself
   * at any depth. Theirs' change never is.
   */
  lemma FieldChanges(base: Data, ours: Data, theirs: Data, theirsWins: bool, key: string)
    requires key != "updated" && MergeData(base, ours, theirs, theirsWins).Some?
    ensures var merged := MergeData(base, ours, theirs, theirsWins).value;
            && (Get(theirs, key) != Get(base, key) ==> Get(merged, key) == Get(theirs, key))
            && (Get(ours, key) != Get(base, key) ==> (Get(merged, key) == Get(ours, key)
                <==> !FieldConflict(base, ours, theirs, key)))
            && (Get(ours, key) == Get(base, key) == Get(theirs, key) ==> Get(merged, key) == Get(base, key))
  {
    MergedFieldSide(base, ours, theirs, key);
  }

  // ---------------------------------------------------------------------------
  // Rows sharing a key

  /**
   * A node's rows all take part in a merge exactly when no two of them share a key: of those that do, the last stands
   * for all.
   */
  lemma EveryRowStands(h: Host, es: seq<Edge>)
    ensures (forall e | e in es :: RowsByKeyHas(h, es, e))
            <==> (forall d, e | d in es && e in es && KeyOf(h, d) == KeyOf(h, e) :: d == e)
  {
    RowsByKeyShape(h, es);
    if forall e | e in es :: RowsByKeyHas(h, es, e) {
      forall d, e | d in es && e in es && KeyOf(h, d) == KeyOf(h, e) ensures d == e {
        assert RowsByKeyHas(h, es, d) && RowsByKeyHas(h, es, e);
      }
    }
  }

  predicate RowsByKeyHas(h: Host, es: seq<Edge>, e: Edge) {
    KeyOf(h, e) in RowsByKey(h, es) && RowsByKey(h, es)[KeyOf(h, e)] == e
  }

  // ---------------------------------------------------------------------------
  // Typed values

  lemma AddedValue(h: Host, options: seq<ChoiceOption>, incoming: Cid, cid: Cid, preferred: string)
    ensures HoldsValue(AddValue(h, options, incoming, cid, preferred), cid)
    ensures options <= AddValue(h, options, incoming, cid, preferred)
  {
    var r := AddValue(h, options, incoming, cid, preferred);
    if !HoldsValue(options, cid) { assert r[|options|] in r; }
  }

  lemma StillHeld(options: seq<ChoiceOption>, more: seq<ChoiceOption>, cid: Cid)
    requires options <= more && HoldsValue(options, cid)
    ensures HoldsValue(more, cid)
  {
    var o :| o in options && o.edge.Some? && o.edge.value.left == cid;
    assert o in more;
  }

  lemma {:induction false} AddedOptions(h: Host, options: seq<ChoiceOption>, incoming: Cid, more: seq<ChoiceOption>)
    ensures options <= AddOptions(h, options, incoming, more)
    ensures forall o | o in more && o.edge.Some? ::
            HoldsValue(AddOptions(h, options, incoming, more), o.edge.value.left)
    decreases |more|
  {
    if more != [] {
      var next := if more[0].edge.Some? then AddValue(h, options, incoming, more[0].edge.value.left, more[0].peerId)
          else options;
      AddedOptions(h, next, incoming, more[1..]);
      if more[0].edge.Some? {
        AddedValue(h, options, incoming, more[0].edge.value.left, more[0].peerId);
        StillHeld(next, AddOptions(h, next, incoming, more[1..]), more[0].edge.value.left);
      }
      assert more == [more[0]] + more[1..];
    }
  }

  /** The values a supplied value stands for: those of its options when it is itself the ref's branches. */
  ghost predicate Supplies(h: Host, value: Cid, id: string, cid: Cid) {
    if IsValueBranches(h, value, id) then HoldsValue(ReadChoice(h, value).options, cid) else cid == value
  }

  lemma {:induction false} AddedValues(h: Host, options: seq<ChoiceOption>, incoming: Cid, id: string,
      prior: seq<ChoiceOption>, values: seq<Option<Cid>>, cid: Cid)
    ensures options <= AddValues(h, options, incoming, id, prior, values)
    ensures (exists v | v in values :: v.Some? && Supplies(h, v.value, id, cid))
            ==> HoldsValue(AddValues(h, options, incoming, id, prior, values), cid)
    decreases |values|
  {
    if values != [] {
      var next := NextOptions(h, options, incoming, id, prior, values[0]);
      AddedValues(h, next, incoming, id, prior, values[1..], cid);
      AddedNext(h, options, incoming, id, prior, values[0], cid);
      if values[0].Some? && Supplies(h, values[0].value, id, cid) {
        StillHeld(next, AddValues(h, next, incoming, id, prior, values[1..]), cid);
      }
      assert values == [values[0]] + values[1..];
    }
  }

  function NextOptions(h: Host, options: seq<ChoiceOption>, incoming: Cid, id: string, prior: seq<ChoiceOption>,
      value: Option<Cid>): seq<ChoiceOption> {
    if value.None? then options
    else if IsValueBranches(h, value.value, id) then AddOptions(h, options, incoming,
        ReadChoice(h, value.value).options)
    else AddValue(h, options, incoming, value.value, NameOfValue(prior, value.value))
  }

  lemma AddedNext(h: Host, options: seq<ChoiceOption>, incoming: Cid, id: string, prior: seq<ChoiceOption>,
      value: Option<Cid>, cid: Cid)
    ensures options <= NextOptions(h, options, incoming, id, prior, value)
    ensures value.Some? && Supplies(h, value.value, id, cid)
            ==> HoldsValue(NextOptions(h, options, incoming, id, prior, value), cid)
  {
    if value.Some? {
      if IsValueBranches(h, value.value, id) {
        AddedOptions(h, options, incoming, ReadChoice(h, value.value).options);
      } else {
        AddedValue(h, options, incoming, value.value, NameOfValue(prior, value.value));
      }
    }
  }

  lemma {:induction false} NamedHolds(os: seq<ChoiceOption>, cid: Cid)
    ensures HoldsValue(NamedAll(os), cid) <==> HoldsValue(os, cid)
  {
    if os != [] {
      NamedHolds(os[1..], cid);
      assert os == [os[0]] + os[1..];
      if HoldsValue(os, cid) {
        var o :| o in os && o.edge.Some? && o.edge.value.left == cid;
        if o == os[0] { assert NamedAll(os)[0] in NamedAll(os); }
      }
    }
  }

  lemma SameHolds(a: seq<ChoiceOption>, b: seq<ChoiceOption>, cid: Cid)
    requires multiset(a) == multiset(b) && HoldsValue(a, cid)
    ensures HoldsValue(b, cid)
  {
    var o :| o in a && o.edge.Some? && o.edge.value.left == cid;
    assert o in multiset(b);
  }

  /** Every value either side or the base supplied for a typed ref is an alternative of the branches they become. */
  lemma NoValueIsLost(h: Host, ref: Content, values: seq<Option<Cid>>, selected: Option<Cid>, cid: Cid)
    requires ValueBranches(h, ref, values, selected).Some?
    requires exists v | v in values :: v.Some? && Supplies(h, v.value, AliasId(ref).value, cid)
    ensures HoldsValue(ReadChoice(h, ValueBranches(h, ref, values, selected).value).options, cid)
  {
    var id := AliasId(ref).value;
    var options := AddValues(h, [], Incoming(ref, id), id, PriorOptions(h, values, id), values);
    AddedValues(h, [], Incoming(ref, id), id, PriorOptions(h, values, id), values, cid);
    var base := if options != [] then options[0].edge else None;
    OptionsReadBack(h, base, options);
    NamedHolds(options, cid);
    SameHolds(NamedAll(options), ReadOptions(ChoiceRows(h, base, options)), cid);
  }

  // ---------------------------------------------------------------------------
  // Both sides raise the same choice

  lemma SortTwo(h: Host, x: Cid, y: Cid)
    requires Injective(h)
    ensures Sort(h, [x, y]) == Sort(h, [y, x])
  {
    BeforeIsTotal(h.text(x), h.text(y));
    SortPair(h, x, y);
    SortPair(h, y, x);
  }

  lemma SortPair(h: Host, x: Cid, y: Cid)
    ensures Sort(h, [x, y]) == if Before(h.text(y), h.text(x)) then [y, x] else [x, y]
  {
    assert [x, y][1..] == [y] && [y][1..] == [] && Sort(h, [y]) == [y];
    assert Insert(h, x, [y]) == Sort(h, [x, y]);
    assert Insert(h, x, []) == [x];
  }

  /** Two devices that merge the same conflict, each as its own `ours`, raise the very same choice node. */
  lemma SameChoice(h: Host, key: Key, b: Option<Edge>, o: Option<Edge>, t: Option<Edge>, labels: Labels)
    requires Injective(h)
    ensures ChoiceOver(h, key, b, o, t, labels) == ChoiceOver(h, key, b, t, o, Labels(labels.theirs, labels.ours))
  {
    var here, there := SideOptions(o, t, labels), SideOptions(t, o, Labels(labels.theirs, labels.ours));
    NodesOfTwo(here[0], here[1]);
    NodesOfTwo(here[1], here[0]);
    SortTwo(h, OptionNode(here[0]), OptionNode(here[1]));
    assert there == [here[1], here[0]];
  }

  lemma NodesOfTwo(x: ChoiceOption, y: ChoiceOption)
    ensures OptionNodes([x, y]) == [OptionNode(x), OptionNode(y)]
  {
    assert [x, y][1..] == [y] && [y][1..] == [];
    assert OptionNodes([y]) == [OptionNode(y)] + OptionNodes([]);
  }
}
