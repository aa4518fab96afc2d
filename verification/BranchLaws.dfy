/** What a merge keeps of branches, and of a ref's history. */
module BranchLaws {
  import opened Options
  import opened Text
  import opened Graph
  import opened Merge
  import opened MergeLaws
  import Order

  // ---------------------------------------------------------------------------
  // Options by name

  lemma {:induction false} FoundIsNamed(os: seq<ChoiceOption>, name: string)
    ensures FindOption(os, name).Some? ==> FindOption(os, name).value in os && FindOption(os, name).value.peerId == name
    ensures FindOption(os, name).Some? <==> exists o | o in os :: o.peerId == name
  {
    if os != [] {
      FoundIsNamed(os[1..], name);
      assert os == [os[0]] + os[1..];
    }
  }

  lemma {:induction false} NamesListed(os: seq<ChoiceOption>, seen: seq<string>)
    requires Order.Distinct(seen)
    ensures Order.Distinct(NamesOf(os, seen))
    ensures forall name :: name in NamesOf(os, seen) <==> name in seen || exists o | o in os :: o.peerId == name
  {
    if os != [] {
      NamesListed(os[1..], if os[0].peerId in seen then seen else seen + [os[0].peerId]);
      assert os == [os[0]] + os[1..];
    }
  }

  /** The row an option was of at the start, as a merge base. */
  function BaseRight(b: Option<ChoiceOption>): Option<Cid> {
    if OptionEdge(b).Some? then Some(OptionEdge(b).value.right) else None
  }

  /**
   * What both sides ask to merge the branch into is the ask of the side that changed it, or the merge of two changed
   * asks.
   */
  ghost predicate RequestAccounts(h: Host, b: Option<Cid>, o: Option<Cid>, t: Option<Cid>, labels: Labels,
      r: Option<Cid>) {
    || (o == b && r == t)
    || ((t == b || o == t) && r == o)
    || (o.Some? && t.Some? && r.Some? && MergeNode(h, b, o.value, t.value, labels, false, false).outcome
        == Merged(r.value))
  }

  /**
   * `x` is what became of the versions of a branch: the one there is, or the merge of both, with its request to merge.
   */
  ghost predicate OptionAccounts(h: Host, name: string, b: Option<ChoiceOption>, o: Option<ChoiceOption>,
      t: Option<ChoiceOption>, labels: Labels, x: ChoiceOption) {
    && x.peerId == name && x.edge.Some?
    && (if OptionEdge(o).Some? && OptionEdge(t).Some? then
          && OptionEdge(o).value.left == OptionEdge(t).value.left == x.edge.value.left
          && MergeNode(h, BaseRight(b), OptionEdge(o).value.right, OptionEdge(t).value.right, labels, false,
              false).outcome == Merged(x.edge.value.right)
          && RequestAccounts(h, OptionRequest(b), o.value.requestMerge, t.value.requestMerge, labels, x.requestMerge)
        else
          && (Some(x.edge.value) == OptionEdge(o) || Some(x.edge.value) == OptionEdge(t))
          && x.requestMerge == OptionRequest(if o.Some? then o else t))
  }

  lemma RequestIsAccounted(h: Host, b: Option<Cid>, o: Option<Cid>, t: Option<Cid>, labels: Labels, bound: nat)
    requires o.Some? && t.Some? ==> Height(o.value) + Height(t.value) < bound
    requires MergeRequest(h, b, o, t, labels, bound).failed.Merged?
    ensures RequestAccounts(h, b, o, t, labels, MergeRequest(h, b, o, t, labels, bound).request)
  {}

  /** A branch neither side holds a version of is gone; any other leaves one option that accounts for both sides. */
  lemma OptionIsAccounted(h: Host, name: string, bs: seq<ChoiceOption>, os: seq<ChoiceOption>, ts: seq<ChoiceOption>,
      labels: Labels, bound: nat)
    requires Top(os) + Top(ts) < bound
    requires MergeOption(h, name, FindOption(bs, name), FindOption(os, name), FindOption(ts, name), labels, os, ts,
            bound).failed.Merged?
    ensures var r := MergeOption(h, name, FindOption(bs, name), FindOption(os, name), FindOption(ts, name), labels, os,
            ts, bound).options;
            if OptionEdge(FindOption(os, name)).None? && OptionEdge(FindOption(ts, name)).None? then r == []
            else |r| == 1 && OptionAccounts(h, name, FindOption(bs, name), FindOption(os, name), FindOption(ts, name),
                labels, r[0])
  {
    var b, o, t := FindOption(bs, name), FindOption(os, name), FindOption(ts, name);
    if OptionEdge(o).Some? && OptionEdge(t).Some? {
      TopCovers(os, name);
      TopCovers(ts, name);
      RequestIsAccounted(h, OptionRequest(b), o.value.requestMerge, t.value.requestMerge, labels, bound);
    }
  }

  lemma {:induction false} OptionsContribute(h: Host, names: seq<string>, bs: seq<ChoiceOption>, os: seq<ChoiceOption>,
      ts: seq<ChoiceOption>, labels: Labels, bound: nat)
    requires Top(os) + Top(ts) < bound && MergeOptions(h, names, bs, os, ts, labels, bound).failed.Merged?
    ensures forall name | name in names ::
              MergeOption(h, name, FindOption(bs, name), FindOption(os, name), FindOption(ts, name), labels, os, ts,
                  bound).failed.Merged?
    ensures forall x :: x in MergeOptions(h, names, bs, os, ts, labels, bound).options <==>
              exists name | name in names :: x in MergeOption(h, name, FindOption(bs, name), FindOption(os, name),
                  FindOption(ts, name), labels, os, ts, bound).options
  {
    if names != [] {
      OptionsContribute(h, names[1..], bs, os, ts, labels, bound);
      var first := MergeOption(h, names[0], FindOption(bs, names[0]), FindOption(os, names[0]),
          FindOption(ts, names[0]), labels, os, ts, bound);
      var rest := MergeOptions(h, names[1..], bs, os, ts, labels, bound);
      assert MergeOptions(h, names, bs, os, ts, labels, bound).options == first.options + rest.options;
      assert forall name :: name in names <==> name == names[0] || name in names[1..];
    }
  }

  // ---------------------------------------------------------------------------
  // Merged branches

  function BranchOptions(h: Host, base: Option<Cid>): seq<ChoiceOption> {
    if base.Some? && IsBranchChoice(base.value.content) then ReadChoice(h, base.value).options else []
  }

  /** The options a merge of two branched nodes writes. */
  function WrittenOptions(h: Host, base: Option<Cid>, ours: Cid, theirs: Cid, labels: Labels, bound: nat): OptionsResult
    requires ChoiceTop(h, ours) + ChoiceTop(h, theirs) < bound
  {
    var o, t := ReadChoice(h, ours).options, ReadChoice(h, theirs).options;
    MergeOptions(h, NamesOf(o + t, []), BranchOptions(h, base), o, t, labels, bound)
  }

  lemma BranchesRead(h: Host, base: Option<Cid>, ours: Cid, theirs: Cid, labels: Labels, bound: nat)
    requires ChoiceTop(h, ours) + ChoiceTop(h, theirs) < bound
            && MergeBranches(h, base, ours, theirs, labels, bound).outcome.Merged?
    ensures WrittenOptions(h, base, ours, theirs, labels, bound).failed.Merged?
    ensures var read := ReadChoice(h, MergeBranches(h, base, ours, theirs, labels, bound).outcome.cid).options;
            multiset(read) == multiset(NamedAll(WrittenOptions(h, base, ours, theirs, labels, bound).options))
  {
    var merged := MergeBranches(h, base, ours, theirs, labels, bound).outcome.cid;
    var written := WrittenOptions(h, base, ours, theirs, labels, bound).options;
    var o := ReadChoice(h, ours);
    var b := if base.Some? && IsBranchChoice(base.value.content) then Some(ReadChoice(h, base.value)) else None;
    var at := if b.Some? && b.value.base.Some? then b.value.base else o.base;
    assert merged.content.children == ChoiceRows(h, at, written);
    OptionsReadBack(h, at, written);
  }

  lemma {:induction false} NamedIn(os: seq<ChoiceOption>, x: ChoiceOption)
    requires x in os
    ensures Named(x) in NamedAll(os)
  {
    if x == os[0] {
      assert NamedAll(os)[0] == Named(x);
    } else {
      assert os == [os[0]] + os[1..];
      NamedIn(os[1..], x);
    }
  }

  /**
   * No branch is lost: of every name either side has an option for, the merged node has one that accounts for both
   * versions, unless neither side's option holds anything. (An option without a name reads back as unknown.)
   */
  lemma NoBranchIsLost(h: Host, base: Option<Cid>, ours: Cid, theirs: Cid, labels: Labels, bound: nat, name: string)
      returns (x: ChoiceOption)
    requires ChoiceTop(h, ours) + ChoiceTop(h, theirs) < bound
            && MergeBranches(h, base, ours, theirs, labels, bound).outcome.Merged?
    requires OptionEdge(FindOption(ReadChoice(h, ours).options, name)).Some?
            || OptionEdge(FindOption(ReadChoice(h, theirs).options, name)).Some?
    ensures OptionAccounts(h, name, FindOption(BranchOptions(h, base), name),
            FindOption(ReadChoice(h, ours).options, name), FindOption(ReadChoice(h, theirs).options, name), labels, x)
    ensures Named(x) in ReadChoice(h, MergeBranches(h, base, ours, theirs, labels, bound).outcome.cid).options
  {
    var bs, os, ts := BranchOptions(h, base), ReadChoice(h, ours).options, ReadChoice(h, theirs).options;
    var names, written := NamesOf(os + ts, []), WrittenOptions(h, base, ours, theirs, labels, bound).options;
    BranchesRead(h, base, ours, theirs, labels, bound);
    FoundIsNamed(os, name);
    FoundIsNamed(ts, name);
    NamesListed(os + ts, []);
    assert name in names;
    OptionsContribute(h, names, bs, os, ts, labels, bound);
    OptionIsAccounted(h, name, bs, os, ts, labels, bound);
    x := MergeOption(h, name, FindOption(bs, name), FindOption(os, name), FindOption(ts, name), labels, os, ts,
        bound).options[0];
    assert x in written;
    NamedIn(written, x);
    assert Named(x) in multiset(ReadChoice(h, MergeBranches(h, base, ours, theirs, labels, bound).outcome.cid).options);
  }

  lemma FoundInOne(o: ChoiceOption, name: string)
    ensures FindOption([o], name) == if o.peerId == name then Some(o) else None
  {
    assert [o][1..] == [];
  }

  /** A plain node beside a branched one is merged with the default branch; every other branch stays as it is. */
  lemma PlainMeetsBranches(h: Host, base: Option<Cid>, ours: Cid, theirs: Cid, labels: Labels, bound: nat, name: string)
      returns (x: ChoiceOption)
    requires OneBranched(h, ours, theirs) && !IsBranchChoice(ours.content)
    requires ChoiceTop(h, Lifted(h, ours, theirs, ours)) + ChoiceTop(h, theirs) < bound
    requires MergeBranches(h, base, Lifted(h, ours, theirs, ours), theirs, labels, bound).outcome.Merged?
    requires OptionEdge(FindOption(ReadChoice(h, theirs).options, name)).Some?
    ensures Named(x) in ReadChoice(h, MergeBranches(h, base, Lifted(h, ours, theirs, ours), theirs, labels,
            bound).outcome.cid).options
    ensures x.peerId == name && x.edge.Some?
    ensures if name != NameOr(MainOf(h, ours, theirs).value.peerId)
            then x.edge == OptionEdge(FindOption(ReadChoice(h, theirs).options, name))
            else MergeNode(h, BaseRight(FindOption(BranchOptions(h, base), name)), ours,
                   OptionEdge(FindOption(ReadChoice(h, theirs).options, name)).value.right, labels, false,
                       false).outcome == Merged(x.edge.value.right)
  {
    var lifted := Lifted(h, ours, theirs, ours);
    var option := LiftedOption(h, ours, theirs);
    FoundInOne(option, name);
    x := NoBranchIsLost(h, base, lifted, theirs, labels, bound, name);
  }

  lemma LiftedOption(h: Host, ours: Cid, theirs: Cid) returns (option: ChoiceOption)
    requires OneBranched(h, ours, theirs) && !IsBranchChoice(ours.content)
    ensures option == ChoiceOption(NameOr(MainOf(h, ours, theirs).value.peerId),
            Some(Edge(MainOf(h, ours, theirs).value.edge.value.left, ours)), None, None)
    ensures ReadChoice(h, Lifted(h, ours, theirs, ours)).options == [option]
  {
    var main := MainOf(h, ours, theirs).value;
    LiftOptions(h, ReadChoice(h, theirs), main, ours);
    option := ChoiceOption(NameOr(main.peerId), Some(Edge(main.edge.value.left, ours)), None, None);
  }

  function NameOr(name: string): string { if name == "" then "unknown" else name }

  // ---------------------------------------------------------------------------
  // History

  lemma ParentsJoined(h: Host, o: Content, t: Content)
    ensures forall e ::
            e in PrevRows(h, o) + Filter(h, NotIn(PrevRows(h, o)), PrevRows(h, t))
            <==> IsPrev(e) && (e in o.children || e in t.children)
  {
    var mine, others := PrevRows(h, o), PrevRows(h, t);
    FilterIn(h, Prev, o.children);
    FilterIn(h, Prev, t.children);
    FilterIn(h, NotIn(mine), others);
    assert forall e, x | x in mine && e in others && x.right == e.right :: x == e;
  }

  /**
   * A merge that makes a new value names both versions as its parents; one that does not keeps the parents of both
   * sides.
   */
  lemma HistoryIsKept(h: Host, s: RefSides, ours: Cid, theirs: Cid, value: Option<Cid>)
    ensures forall e :: e in History(h, s, ours, theirs, value) <==>
              if value == Some(SideValue(h, ours.content)) == Some(SideValue(h, theirs.content)) then IsPrev(e)
                  && (e in s.o.children || e in s.t.children)
              else e == PrevEdge(RefCid(h, ours)) || e == PrevEdge(RefCid(h, theirs))
  {
    ParentsJoined(h, s.o, s.t);
  }
}
