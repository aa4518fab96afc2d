/**
 * What a merge keeps: every version of a row is taken, merged, decided or offered as a choice, and a choice gives it
 * back.
 */
module MergeLaws {
  import opened Options
  import opened Text
  import opened Graph
  import opened Merge
  import Order

  // ---------------------------------------------------------------------------
  // Keys of merged rows

  /** What one key contributes. */
  function RowFor(h: Host, base: Content, ours: Content, theirs: Content, labels: Labels, key: Key): RowsResult {
    ChildrenBelow(h, ours, theirs);
    MergeKey(h, key, At(RowsByKey(h, base.children), key), At(RowsByKey(h, ours.children), key),
        At(RowsByKey(h, theirs.children), key),
      labels, Size(Cid(ours), Cid(theirs)))
  }

  lemma {:induction false} KeysContribute(h: Host, keys: seq<Key>, bm: map<Key, Edge>, om: map<Key, Edge>, tm: map<Key,
      Edge>, labels: Labels, bound: nat)
    requires Below(om, tm, bound)
    requires MergeKeys(h, keys, bm, om, tm, labels, bound).rows.Rows?
    ensures forall key | key in keys :: MergeKey(h, key, At(bm, key), At(om, key), At(tm, key), labels,
            bound).rows.Rows?
    ensures forall e :: e in MergeKeys(h, keys, bm, om, tm, labels, bound).rows.edges
                        <==> exists key | key in keys ::
                            e in MergeKey(h, key, At(bm, key), At(om, key), At(tm, key), labels, bound).rows.edges
  {
    if keys != [] {
      KeysContribute(h, keys[1..], bm, om, tm, labels, bound);
      assert keys == [keys[0]] + keys[1..];
    }
  }

  lemma KeysOfSides(h: Host, base: Content, ours: Content, theirs: Content, key: Key)
    ensures key in AllKeys(h, base, ours, theirs)
            <==>
                key in RowsByKey(h, base.children) || key in RowsByKey(h, ours.children)
                || key in RowsByKey(h, theirs.children)
  {
    RowsByKeyShape(h, base.children);
    RowsByKeyShape(h, ours.children);
    RowsByKeyShape(h, theirs.children);
    Order.OrderedKeysMembers(KeysOf(h, ours.children), KeysOf(h, theirs.children), KeysOf(h, base.children));
  }

  /** The merged rows are exactly what the keys of the three nodes contribute. */
  lemma ChildrenContribute(h: Host, base: Content, ours: Content, theirs: Content, labels: Labels)
    requires MergeChildren(h, base, ours, theirs, labels).rows.Rows?
    ensures forall key | key in AllKeys(h, base, ours, theirs) :: RowFor(h, base, ours, theirs, labels, key).rows.Rows?
    ensures forall e :: e in MergeChildren(h, base, ours, theirs, labels).rows.edges
                        <==> exists key | key in AllKeys(h, base, ours, theirs) ::
                            e in RowFor(h, base, ours, theirs, labels, key).rows.edges
  {
    ChildrenBelow(h, ours, theirs);
    KeysContribute(h, AllKeys(h, base, ours, theirs), RowsByKey(h, base.children), RowsByKey(h, ours.children),
        RowsByKey(h, theirs.children),
      labels, Size(Cid(ours), Cid(theirs)));
  }

  // ---------------------------------------------------------------------------
  // Choices give both versions back

  function Named(o: ChoiceOption): ChoiceOption { o.(peerId := if o.peerId == "" then "unknown" else o.peerId) }

  function NamedAll(os: seq<ChoiceOption>): seq<ChoiceOption> {
    if os == [] then [] else [Named(os[0])] + NamedAll(os[1..])
  }

  function ReadAll(cs: seq<Cid>): seq<ChoiceOption> { if cs == [] then [] else [ReadOption(cs[0])] + ReadAll(cs[1..]) }

  lemma {:induction false} ReadAlternatives(cs: seq<Cid>)
    ensures ReadOptions(Alternatives(cs)) == ReadAll(cs)
    ensures forall e | e in Alternatives(cs) :: e.left == Prim("notSelected")
  {
    if cs != [] {
      ReadAlternatives(cs[1..]);
      assert Alternatives(cs)[1..] == Alternatives(cs[1..]);
    }
  }

  lemma {:induction false} ReadNodes(os: seq<ChoiceOption>)
    ensures ReadAll(OptionNodes(os)) == NamedAll(os)
  {
    if os != [] {
      OptionReads(os[0]);
      ReadNodes(os[1..]);
      assert OptionNodes(os)[1..] == OptionNodes(os[1..]);
    }
  }

  lemma ReadHead(c: Cid, cs: seq<Cid>)
    ensures ReadAll([c] + cs) == [ReadOption(c)] + ReadAll(cs)
  {
    assert ([c] + cs)[1..] == cs;
  }

  lemma {:induction false} InsertReads(h: Host, c: Cid, cs: seq<Cid>)
    ensures multiset(ReadAll(Insert(h, c, cs))) == multiset{ReadOption(c)} + multiset(ReadAll(cs))
  {
    ReadHead(c, cs);
    if cs != [] && Before(h.text(cs[0]), h.text(c)) {
      InsertReads(h, c, cs[1..]);
      ReadHead(cs[0], Insert(h, c, cs[1..]));
    }
  }

  lemma {:induction false} SortReads(h: Host, cs: seq<Cid>)
    ensures multiset(ReadAll(Sort(h, cs))) == multiset(ReadAll(cs))
  {
    if cs != [] {
      SortReads(h, cs[1..]);
      InsertReads(h, cs[0], Sort(h, cs[1..]));
    }
  }

  lemma {:induction false} LastSkips(rows: seq<Edge>, more: seq<Edge>, left: Cid)
    requires forall e | e in more :: e.left != left
    ensures Last(rows + more, left) == Last(rows, left)
  {
    if more == [] {
      assert rows + more == rows;
    } else {
      assert (rows + more)[..|rows + more| - 1] == rows + more[..|more| - 1];
      LastSkips(rows, more[..|more| - 1], left);
    }
  }

  /** The alternatives of a choice read back as they were written, in the order of their cids. */
  lemma OptionsReadBack(h: Host, base: Option<Edge>, os: seq<ChoiceOption>)
    ensures multiset(ReadOptions(ChoiceRows(h, base, os))) == multiset(NamedAll(os))
    ensures Last(ChoiceRows(h, base, os), Prim("base")) == Some(Pointer(base))
  {
    PointerNames();
    var sorted, e := Sort(h, OptionNodes(os)), Edge(Prim("base"), Pointer(base));
    ReadAlternatives(sorted);
    SortReads(h, OptionNodes(os));
    ReadNodes(os);
    assert ChoiceRows(h, base, os) == [e] + Alternatives(sorted);
    assert ChoiceRows(h, base, os)[1..] == Alternatives(sorted);
    LastSkips([e], Alternatives(sorted), Prim("base"));
  }

  lemma PointerRoundTrip(edge: Option<Edge>)
    ensures ReadPointer(Pointer(edge)) == edge
  {
    PointerReads(PointerRows(edge), edge, []);
  }

  lemma PutChoiceReads(h: Host, id: string, base: Option<Edge>, os: seq<ChoiceOption>)
    ensures ReadChoice(h, PutChoice(h, id, base, os)).id == id
    ensures ReadChoice(h, PutChoice(h, id, base, os)).base == base
    ensures multiset(ReadChoice(h, PutChoice(h, id, base, os)).options) == multiset(NamedAll(os))
  {
    var c := PutChoice(h, id, base, os);
    assert c.content.children == ChoiceRows(h, base, os) && c.content.data["alias"] == AliasData(id);
    OptionsReadBack(h, base, os);
    PointerRoundTrip(base);
  }

  /**
   * A raised choice reads back as the two versions, each under its side's label, with the version they started from.
   */
  lemma ChoiceReads(h: Host, key: Key, b: Option<Edge>, o: Option<Edge>, t: Option<Edge>, labels: Labels)
    ensures ReadChoice(h, ChoiceOver(h, key, b, o, t, labels)).id == ChoiceId(h, key)
    ensures ReadChoice(h, ChoiceOver(h, key, b, o, t, labels)).base == if b.Some? && Mergeable(b.value) then b else None
    ensures Offers(h, ChoiceOver(h, key, b, o, t, labels), o, t, labels)
  {
    PutChoiceReads(h, ChoiceId(h, key), if b.Some? && Mergeable(b.value) then b else None, SideOptions(o, t, labels));
  }

  /** `choice` offers the versions of both sides, a missing one as a deletion. */
  predicate Offers(h: Host, choice: Cid, o: Option<Edge>, t: Option<Edge>, labels: Labels) {
    multiset(ReadChoice(h, choice).options) == multiset(NamedAll(SideOptions(o, t, labels)))
  }

  // ---------------------------------------------------------------------------
  // No version is lost

  /** Gone on both sides, or gone on one and left alone by the other. */
  predicate Deleted(b: Option<Edge>, o: Option<Edge>, t: Option<Edge>) {
    || (o.None? && t.None?)
    || (o.None? && t == b)
    || (t.None? && o == b)
  }

  predicate BothChanged(b: Option<Edge>, o: Option<Edge>, t: Option<Edge>) { o != t && b != o && b != t }

  /** `e` is what became of the two versions under `key`. */
  ghost predicate Accounts(h: Host, key: Key, b: Option<Edge>, o: Option<Edge>, t: Option<Edge>, labels: Labels,
      e: Edge) {
    if !BothChanged(b, o, t) then
      // the one version there is, or the one that changed
      (Some(e) == o && (o == t || b == t)) || (Some(e) == t && (o == t || b == o))
    else
      || (key.Submission? && Some(e) == t && o.Some? && Timestamp(h, e) > Timestamp(h, o.value))
      || (key.Submission? && Some(e) == o && t.Some? && Timestamp(h, e) >= Timestamp(h, t.value))
      || (&& Descends(o, t) && e.left == o.value.left
          && MergeNode(h, BaseOf(b, o.value), o.value.right, t.value.right, labels, false,
              IsFieldRow(h, o.value)).outcome == Merged(e.right))
      || (IsChoice(e) && AliasId(e.right.content) == Some(ChoiceId(h, key)) && Offers(h, e.right, o, t, labels))
  }

  ghost predicate AccountsFor(h: Host, base: Content, ours: Content, theirs: Content, labels: Labels, key: Key,
      e: Edge) {
    Accounts(h, key, At(RowsByKey(h, base.children), key), At(RowsByKey(h, ours.children), key),
        At(RowsByKey(h, theirs.children), key), labels, e)
  }

  /** What became of two versions of a row the merge looks inside. */
  function VersionsMerge(h: Host, b: Option<Edge>, o: Edge, t: Edge, labels: Labels): Outcome {
    MergeNode(h, BaseOf(b, o), o.right, t.right, labels, false, IsFieldRow(h, o)).outcome
  }

  /** Both sides changed the row, and neither version stands alone. */
  predicate Contested(key: Key, b: Option<Edge>, o: Option<Edge>, t: Option<Edge>) {
    BothChanged(b, o, t) && !(key.Submission? && o.Some? && t.Some?)
  }

  /** A contested row whose versions merge is their merge. */
  lemma KeyMerges(h: Host, key: Key, b: Option<Edge>, o: Option<Edge>, t: Option<Edge>, labels: Labels, bound: nat)
    requires o.Some? && t.Some? ==> Height(o.value.right) + Height(t.value.right) < bound
    requires Contested(key, b, o, t) && Descends(o, t) && VersionsMerge(h, b, o.value, t.value, labels).Merged?
    ensures MergeKey(h, key, b, o, t, labels, bound).rows
            == Rows([Edge(o.value.left, VersionsMerge(h, b, o.value, t.value, labels).cid)])
  {}

  /** Any other contested row becomes a choice, when it becomes anything. */
  lemma KeyDivides(h: Host, key: Key, b: Option<Edge>, o: Option<Edge>, t: Option<Edge>, labels: Labels, bound: nat)
    requires o.Some? && t.Some? ==> Height(o.value.right) + Height(t.value.right) < bound
    requires Contested(key, b, o, t) && !(Descends(o, t) && VersionsMerge(h, b, o.value, t.value, labels).Merged?)
    ensures var rows := MergeKey(h, key, b, o, t, labels, bound).rows;
            rows.Rows? ==> rows == Rows([Edge(Prim("choice"), ChoiceOver(h, key, b, o, t, labels))])
  {}

  lemma DividedAccounts(h: Host, key: Key, b: Option<Edge>, o: Option<Edge>, t: Option<Edge>, labels: Labels,
      raised: seq<Cid>)
    requires BothChanged(b, o, t) && Divide(h, key, b, o, t, labels, raised).rows.Rows?
    ensures var edges := Divide(h, key, b, o, t, labels, raised).rows.edges;
            |edges| == 1 && Accounts(h, key, b, o, t, labels, edges[0])
  {
    ChoiceReads(h, key, b, o, t, labels);
  }

  /** One key contributes nothing exactly when its row is deleted, else one row that accounts for both versions. */
  lemma KeyAccounts(h: Host, key: Key, b: Option<Edge>, o: Option<Edge>, t: Option<Edge>, labels: Labels, bound: nat)
    requires o.Some? && t.Some? ==> Height(o.value.right) + Height(t.value.right) < bound
    requires MergeKey(h, key, b, o, t, labels, bound).rows.Rows?
    ensures MergeKey(h, key, b, o, t, labels, bound).rows.edges == [] <==> Deleted(b, o, t)
    ensures var edges := MergeKey(h, key, b, o, t, labels, bound).rows.edges;
            edges != [] ==> |edges| == 1 && Accounts(h, key, b, o, t, labels, edges[0])
  {
    if BothChanged(b, o, t) && !(key.Submission? && o.Some? && t.Some?) {
      if Descends(o, t) {
        var merged := MergeNode(h, BaseOf(b, o.value), o.value.right, t.value.right, labels, false,
            IsFieldRow(h, o.value));
        if merged.outcome.Conflict? { DividedAccounts(h, key, b, o, t, labels, merged.raised); }
      } else {
        DividedAccounts(h, key, b, o, t, labels, []);
      }
    }
  }

  ghost predicate DeletedUnder(h: Host, base: Content, ours: Content, theirs: Content, key: Key) {
    Deleted(At(RowsByKey(h, base.children), key), At(RowsByKey(h, ours.children), key),
        At(RowsByKey(h, theirs.children), key))
  }

  lemma RowAccounts(h: Host, base: Content, ours: Content, theirs: Content, labels: Labels, key: Key)
    requires RowFor(h, base, ours, theirs, labels, key).rows.Rows?
    ensures RowFor(h, base, ours, theirs, labels, key).rows.edges == [] <==> DeletedUnder(h, base, ours, theirs, key)
    ensures var edges := RowFor(h, base, ours, theirs, labels, key).rows.edges;
            edges != [] ==> |edges| == 1 && AccountsFor(h, base, ours, theirs, labels, key, edges[0])
  {
    ChildrenBelow(h, ours, theirs);
    KeyAccounts(h, key, At(RowsByKey(h, base.children), key), At(RowsByKey(h, ours.children), key),
        At(RowsByKey(h, theirs.children), key),
      labels, Size(Cid(ours), Cid(theirs)));
  }

  /**
   * No silent loss: of every row either side has, nothing is left only when it is deleted on both sides, or deleted on
   * one and unchanged on the other; otherwise a merged row accounts for both versions.
   */
  lemma NothingIsLost(h: Host, base: Content, ours: Content, theirs: Content, labels: Labels, key: Key)
    requires MergeChildren(h, base, ours, theirs, labels).rows.Rows?
    requires key in RowsByKey(h, ours.children) || key in RowsByKey(h, theirs.children)
    ensures DeletedUnder(h, base, ours, theirs, key)
            || exists e | e in MergeChildren(h, base, ours, theirs, labels).rows.edges ::
                AccountsFor(h, base, ours, theirs, labels, key, e)
  {
    KeysOfSides(h, base, ours, theirs, key);
    ChildrenContribute(h, base, ours, theirs, labels);
    var row := RowFor(h, base, ours, theirs, labels, key);
    RowAccounts(h, base, ours, theirs, labels, key);
    if !DeletedUnder(h, base, ours, theirs, key) {
      assert row.rows.edges[0] in row.rows.edges;
    }
  }

  lemma SourceOf(h: Host, base: Content, ours: Content, theirs: Content, labels: Labels, e: Edge) returns (key: Key)
    requires MergeChildren(h, base, ours, theirs, labels).rows.Rows?
    requires e in MergeChildren(h, base, ours, theirs, labels).rows.edges
    ensures key in AllKeys(h, base, ours, theirs)
    ensures RowFor(h, base, ours, theirs, labels, key).rows.Rows?
            && e in RowFor(h, base, ours, theirs, labels, key).rows.edges
  {
    ChildrenContribute(h, base, ours, theirs, labels);
    key :| key in AllKeys(h, base, ours, theirs) && e in RowFor(h, base, ours, theirs, labels, key).rows.edges;
  }

  /** And nothing else is in the merge: every merged row accounts for the versions under some key. */
  lemma NothingIsMadeUp(h: Host, base: Content, ours: Content, theirs: Content, labels: Labels, e: Edge)
      returns (key: Key)
    requires MergeChildren(h, base, ours, theirs, labels).rows.Rows?
    requires e in MergeChildren(h, base, ours, theirs, labels).rows.edges
    ensures key in AllKeys(h, base, ours, theirs) && AccountsFor(h, base, ours, theirs, labels, key, e)
  {
    key := SourceOf(h, base, ours, theirs, labels, e);
    RowAccounts(h, base, ours, theirs, labels, key);
    TheOne(RowFor(h, base, ours, theirs, labels, key).rows.edges, e);
  }

  lemma TheOne(edges: seq<Edge>, e: Edge)
    requires |edges| <= 1 && e in edges
    ensures edges != [] && edges[0] == e
  {}
}
