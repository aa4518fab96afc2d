/** Sibling order of a merge: `orderedKeys`, the union of three key lists with ours as the backbone. */
module Order {

  predicate Distinct<T(==)>(s: seq<T>) {
    forall i, j | 0 <= i < j < |s| :: s[i] != s[j]
  }

  lemma DistinctJoined<T>(a: seq<T>, b: seq<T>)
    requires Distinct(a) && Distinct(b) && forall x | x in b :: x !in a
    ensures Distinct(a + b)
  {
    forall i, k | 0 <= i < k < |a + b| ensures (a + b)[i] != (a + b)[k] {
      if i < |a| <= k { assert (a + b)[k] == b[k - |a|] && b[k - |a|] in b && a[i] in a; }
    }
  }

  /** The elements of `s` that are in `kept`, in the order of `s`. */
  function Keep<T(==)>(s: seq<T>, kept: seq<T>): seq<T> {
    if s == [] then [] else (if s[0] in kept then [s[0]] else []) + Keep(s[1..], kept)
  }

  function Elements<T(==)>(s: seq<T>): set<T> { set x | x in s }

  /** `y` stands immediately after `x`. */
  ghost predicate Adjacent<T>(s: seq<T>, x: T, y: T) {
    exists p | 0 < p < |s| :: s[p - 1] == x && s[p] == y
  }

  function IndexOf<T(==)>(s: seq<T>, x: T): (i: nat)
    ensures i <= |s|
    ensures i < |s| ==> s[i] == x
    ensures i == |s| <==> x !in s
    ensures forall k | 0 <= k < i :: s[k] != x
  {
    if s == [] then 0 else if s[0] == x then 0 else 1 + IndexOf(s[1..], x)
  }

  // ---------------------------------------------------------------------------
  // Specification

  /** Where a key with `before` (nearest last) and `after` around it on theirs' side goes in `out`. */
  function Slot<T(==)>(out: seq<T>, before: seq<T>, after: seq<T>): (at: nat)
    ensures at <= |out|
  {
    if before != [] then
      var last := before[|before| - 1];
      if last in out then IndexOf(out, last) + 1 else Slot(out, before[..|before| - 1], after)
    else if after != [] then
      if after[0] in out then IndexOf(out, after[0]) else Slot(out, [], after[1..])
    else |out|
  }

  /** `out` with the keys `theirs[i..]` it lacks spliced in, one at a time. */
  function Splice<T(==)>(out: seq<T>, theirs: seq<T>, i: nat): seq<T>
    requires i <= |theirs|
    decreases |theirs| - i
  {
    if i == |theirs| then out
    else if theirs[i] in out then Splice(out, theirs, i + 1)
    else
      var at := Slot(out, theirs[..i], theirs[i + 1..]);
      Splice(out[..at] + [theirs[i]] + out[at..], theirs, i + 1)
  }

  function Append<T(==)>(out: seq<T>, base: seq<T>): seq<T>
    decreases |base|
  {
    if base == [] then out else Append(if base[0] in out then out else out + [base[0]], base[1..])
  }

  function OrderedKeys<T(==)>(ours: seq<T>, theirs: seq<T>, base: seq<T>): seq<T> {
    Append(Splice(ours, theirs, 0), base)
  }

  // ---------------------------------------------------------------------------
  // The algorithm

  method Find<T(==)>(out: seq<T>, x: T) returns (idx: int)
    ensures x in out ==> idx == IndexOf(out, x)
    ensures x !in out ==> idx == -1
  {
    idx := 0;
    while idx < |out|
      invariant 0 <= idx <= |out|
      invariant x !in out[..idx]
    {
      if out[idx] == x { return; }
      idx := idx + 1;
    }
    idx := -1;
  }

  /** The two searches of one step: back over theirs to a placed key, then forward, else the end. */
  method FindSlot<T(==)>(out: seq<T>, theirs: seq<T>, i: nat) returns (at: nat)
    requires i < |theirs|
    ensures at == Slot(out, theirs[..i], theirs[i + 1..])
  {
    var found := -1;
    var j := i - 1;
    while j >= 0 && found < 0
      invariant -1 <= j < i
      invariant found < 0 ==> Slot(out, theirs[..i], theirs[i + 1..]) == Slot(out, theirs[..j + 1], theirs[i + 1..])
      invariant found >= 0 ==> found == Slot(out, theirs[..i], theirs[i + 1..])
    {
      var idx := Find(out, theirs[j]);
      assert theirs[..j + 1][..j] == theirs[..j];
      if idx >= 0 { found := idx + 1; }
      j := j - 1;
    }
    j := i + 1;
    while j < |theirs| && found < 0
      invariant i + 1 <= j <= |theirs|
      invariant found < 0 ==> Slot(out, theirs[..i], theirs[i + 1..]) == Slot(out, [], theirs[j..])
      invariant found >= 0 ==> found == Slot(out, theirs[..i], theirs[i + 1..])
    {
      var idx := Find(out, theirs[j]);
      assert theirs[j..][1..] == theirs[j + 1..];
      if idx >= 0 { found := idx; }
      j := j + 1;
    }
    at := if found < 0 then |out| else found;
  }

  method OrderKeys<T(==)>(ours: seq<T>, theirs: seq<T>, base: seq<T>) returns (out: seq<T>)
    ensures out == OrderedKeys(ours, theirs, base)
  {
    out := ours;
    var present := Elements(out);
    var i := 0;
    while i < |theirs|
      invariant 0 <= i <= |theirs|
      invariant present == Elements(out)
      invariant Splice(ours, theirs, 0) == Splice(out, theirs, i)
    {
      if theirs[i] !in present {
        var at := FindSlot(out, theirs, i);
        out := out[..at] + [theirs[i]] + out[at..];
        present := present + {theirs[i]};
      }
      i := i + 1;
    }
    var b := 0;
    while b < |base|
      invariant 0 <= b <= |base|
      invariant present == Elements(out)
      invariant OrderedKeys(ours, theirs, base) == Append(out, base[b..])
    {
      assert base[b..][1..] == base[b + 1..];
      if base[b] !in present {
        out := out + [base[b]];
        present := present + {base[b]};
      }
      b := b + 1;
    }
  }

  // ---------------------------------------------------------------------------
  // Laws

  lemma {:induction false} KeepConcat<T>(a: seq<T>, b: seq<T>, kept: seq<T>)
    ensures Keep(a + b, kept) == Keep(a, kept) + Keep(b, kept)
  {
    if a == [] {
      assert a + b == b;
    } else {
      KeepConcat(a[1..], b, kept);
      KeepHead(a[0], a[1..], kept);
      KeepHead(a[0], a[1..] + b, kept);
      assert a == [a[0]] + a[1..];
      assert a + b == [a[0]] + (a[1..] + b);
    }
  }

  lemma KeepHead<T>(x: T, s: seq<T>, kept: seq<T>)
    ensures Keep([x] + s, kept) == (if x in kept then [x] else []) + Keep(s, kept)
  {
    assert ([x] + s)[1..] == s;
  }

  lemma KeepAt<T>(s: seq<T>, i: nat, kept: seq<T>)
    requires i < |s|
    ensures Keep(s, kept) == Keep(s[..i], kept) + (if s[i] in kept then [s[i]] else []) + Keep(s[i + 1..], kept)
  {
    assert s[i..] == [s[i]] + s[i + 1..];
    assert s == s[..i] + s[i..];
    KeepConcat(s[..i], s[i..], kept);
    KeepHead(s[i], s[i + 1..], kept);
  }

  lemma {:induction false} KeepMembers<T>(s: seq<T>, kept: seq<T>)
    ensures forall x :: x in Keep(s, kept) <==> x in s && x in kept
  {
    if s != [] { KeepMembers(s[1..], kept); }
  }

  lemma {:induction false} KeepAll<T>(s: seq<T>, kept: seq<T>)
    requires forall x | x in s :: x in kept
    ensures Keep(s, kept) == s
  {
    if s != [] { KeepAll(s[1..], kept); }
  }

  lemma {:induction false} KeepNone<T>(s: seq<T>, kept: seq<T>)
    requires forall x | x in s :: x !in kept
    ensures Keep(s, kept) == []
  {
    if s != [] { KeepNone(s[1..], kept); }
  }

  lemma {:induction false} KeepSame<T>(s: seq<T>, a: seq<T>, b: seq<T>)
    requires forall x | x in s :: x in a <==> x in b
    ensures Keep(s, a) == Keep(s, b)
  {
    if s != [] { KeepSame(s[1..], a, b); }
  }

  lemma {:induction false} KeepTwice<T>(s: seq<T>, a: seq<T>, b: seq<T>)
    ensures Keep(Keep(s, a), b) == Keep(Keep(s, b), a)
  {
    if s != [] {
      KeepTwice(s[1..], a, b);
      KeepConcat(if s[0] in a then [s[0]] else [], Keep(s[1..], a), b);
      KeepConcat(if s[0] in b then [s[0]] else [], Keep(s[1..], b), a);
    }
  }

  function InsertAt<T>(out: seq<T>, at: nat, x: T): seq<T>
    requires at <= |out|
  {
    out[..at] + [x] + out[at..]
  }

  lemma InsertKeeps<T>(out: seq<T>, at: nat, x: T, kept: seq<T>)
    requires at <= |out|
    ensures Keep(InsertAt(out, at, x), kept) == Keep(out[..at], kept) + (if x in kept then [x] else [])
            + Keep(out[at..], kept)
    ensures Keep(out, kept) == Keep(out[..at], kept) + Keep(out[at..], kept)
  {
    assert out == out[..at] + out[at..];
    KeepConcat(out[..at], out[at..], kept);
    KeepConcat(out[..at] + [x], out[at..], kept);
    KeepConcat(out[..at], [x], kept);
  }

  lemma InsertDistinct<T>(out: seq<T>, at: nat, x: T)
    requires at <= |out| && Distinct(out) && x !in out
    ensures Distinct(InsertAt(out, at, x))
  {
    var r := InsertAt(out, at, x);
    forall i, j | 0 <= i < j < |r| ensures r[i] != r[j] {
      assert r[i] == if i < at then out[i] else if i == at then x else out[i - 1];
      assert r[j] == if j < at then out[j] else if j == at then x else out[j - 1];
    }
  }

  lemma InsertMembers<T>(out: seq<T>, at: nat, x: T)
    requires at <= |out|
    ensures forall y :: y in InsertAt(out, at, x) <==> y in out || y == x
  {
    assert out == out[..at] + out[at..];
  }

  /** An adjacency survives an insertion that does not go right after its first element. */
  lemma InsertAdjacent<T>(out: seq<T>, at: nat, x: T, a: T, b: T)
    requires at <= |out| && Adjacent(out, a, b)
    requires at > 0 ==> out[at - 1] != a
    ensures Adjacent(InsertAt(out, at, x), a, b)
  {
    var p :| 0 < p < |out| && out[p - 1] == a && out[p] == b;
    var r := InsertAt(out, at, x);
    if p < at {
      assert r[p - 1] == a && r[p] == b;
    } else {
      assert r[p] == a && r[p + 1] == b;
    }
  }

  /** The first key of theirs, from `from` on, that is in `placed`; the length when there is none. */
  function FirstShared<T(==)>(theirs: seq<T>, placed: seq<T>, from: nat): (j: nat)
    requires from <= |theirs|
    ensures from <= j <= |theirs|
    ensures j < |theirs| ==> theirs[j] in placed
    ensures forall k | from <= k < j :: theirs[k] !in placed
    decreases |theirs| - from
  {
    if from == |theirs| || theirs[from] in placed then from else FirstShared(theirs, placed, from + 1)
  }

  lemma {:induction false} SlotForward<T>(out: seq<T>, after: seq<T>, j: nat)
    requires j <= |after|
    requires forall k | 0 <= k < j :: after[k] !in out
    requires j < |after| ==> after[j] in out
    ensures Slot(out, [], after) == if j < |after| then IndexOf(out, after[j]) else |out|
  {
    if j > 0 { SlotForward(out, after[1..], j - 1); }
  }

  /** Everything before `theirs[i]` is placed and `theirs[i]` is not. */
  ghost predicate Next<T>(out: seq<T>, theirs: seq<T>, i: nat) {
    i < |theirs| && theirs[i] !in out && forall k | 0 <= k < i :: theirs[k] in out
  }

  /** The slot of a key once everything before it is placed: right after its predecessor. */
  lemma SlotAfter<T>(out: seq<T>, theirs: seq<T>, i: nat)
    requires Next(out, theirs, i) && i > 0
    ensures var at := Slot(out, theirs[..i], theirs[i + 1..]); 0 < at && out[at - 1] == theirs[i - 1]
  {}

  /** The slot of theirs' first key: right before the first key that is placed, else the end. */
  lemma SlotOpening<T>(out: seq<T>, theirs: seq<T>)
    requires Next(out, theirs, 0)
    ensures var j := FirstShared(theirs, out, 0);
            Slot(out, theirs[..0], theirs[1..]) == if j < |theirs| then IndexOf(out, theirs[j]) else |out|
  {
    var j := FirstShared(theirs, out, 0);
    SlotForward(out, theirs[1..], j - 1);
    assert theirs[..0] == [];
  }

  function Step<T(==)>(out: seq<T>, theirs: seq<T>, i: nat): seq<T>
    requires i < |theirs|
  {
    InsertAt(out, Slot(out, theirs[..i], theirs[i + 1..]), theirs[i])
  }

  // Three things stay true while theirs is placed: who is there, the adjacencies, and how theirs opens.

  ghost predicate Members<T>(out: seq<T>, ours: seq<T>, theirs: seq<T>, i: nat)
    requires i <= |theirs|
  {
    && Distinct(out)
    && (forall x | x in out :: x in ours || x in theirs[..i])
    && (forall x | x in ours :: x in out)
    && (forall x | x in theirs[..i] :: x in out)
    && Keep(out, ours) == ours
  }

  ghost predicate Followed<T>(out: seq<T>, ours: seq<T>, theirs: seq<T>, i: nat)
    requires i <= |theirs|
  {
    forall k | 0 < k < i && theirs[k] !in ours :: Adjacent(out, theirs[k - 1], theirs[k])
  }

  ghost predicate Opened<T>(out: seq<T>, ours: seq<T>, theirs: seq<T>, i: nat)
    requires i <= |theirs|
  {
    var first := FirstShared(theirs, ours, 0);
    && (0 < i <= first < |theirs| ==> Adjacent(out, theirs[i - 1], theirs[first]))
    && (0 < first < i ==> Adjacent(out, theirs[first - 1], theirs[first]))
    && (first == |theirs| ==> out == ours + theirs[..i])
  }

  lemma MembersNext<T>(out: seq<T>, ours: seq<T>, theirs: seq<T>, i: nat)
    requires i < |theirs| && Members(out, ours, theirs, i) && theirs[i] !in out
    ensures Next(out, theirs, i) && theirs[i] !in ours
  {
    forall k | 0 <= k < i ensures theirs[k] in out { assert theirs[k] == theirs[..i][k]; }
  }

  lemma StepMembers<T>(out: seq<T>, ours: seq<T>, theirs: seq<T>, i: nat)
    requires i < |theirs| && Members(out, ours, theirs, i) && theirs[i] !in out
    ensures Members(Step(out, theirs, i), ours, theirs, i + 1)
  {
    var at, x, r := Slot(out, theirs[..i], theirs[i + 1..]), theirs[i], Step(out, theirs, i);
    InsertDistinct(out, at, x);
    InsertMembers(out, at, x);
    StepKeeps(out, at, x, ours);
    TakeNext(theirs, i);
  }

  lemma TakeNext<T>(s: seq<T>, i: nat)
    requires i < |s|
    ensures forall x :: x in s[..i + 1] <==> x in s[..i] || x == s[i]
  {
    assert s[..i + 1] == s[..i] + [s[i]];
  }

  lemma StepKeeps<T>(out: seq<T>, at: nat, x: T, ours: seq<T>)
    requires at <= |out| && x !in ours && Keep(out, ours) == ours
    ensures Keep(InsertAt(out, at, x), ours) == ours
  {
    InsertKeeps(out, at, x, ours);
  }

  lemma StepFollowed<T>(out: seq<T>, ours: seq<T>, theirs: seq<T>, i: nat)
    requires Distinct(theirs) && Next(out, theirs, i) && Followed(out, ours, theirs, i)
    ensures Followed(Step(out, theirs, i), ours, theirs, i + 1)
  {
    if i > 0 {
      var at, r := Slot(out, theirs[..i], theirs[i + 1..]), Step(out, theirs, i);
      SlotAfter(out, theirs, i);
      assert r[at - 1] == theirs[i - 1] && r[at] == theirs[i];
      assert Adjacent(r, theirs[i - 1], theirs[i]);
      forall k | 0 < k < i && theirs[k] !in ours ensures Adjacent(r, theirs[k - 1], theirs[k]) {
        InsertAdjacent(out, at, theirs[i], theirs[k - 1], theirs[k]);
      }
    }
  }

  lemma {:induction false} FirstSharedAgrees<T>(theirs: seq<T>, a: seq<T>, b: seq<T>, from: nat)
    requires from <= |theirs|
    requires forall k | 0 <= k < |theirs| :: theirs[k] in a <==> theirs[k] in b
    ensures FirstShared(theirs, a, from) == FirstShared(theirs, b, from)
    decreases |theirs| - from
  {
    if from < |theirs| { FirstSharedAgrees(theirs, a, b, from + 1); }
  }

  lemma StepOpensFirst<T>(out: seq<T>, ours: seq<T>, theirs: seq<T>)
    requires Next(out, theirs, 0) && Members(out, ours, theirs, 0) && Opened(out, ours, theirs, 0)
    ensures Opened(Step(out, theirs, 0), ours, theirs, 1)
  {
    var first, r := FirstShared(theirs, ours, 0), Step(out, theirs, 0);
    assert theirs[..0] == [];
    SlotOpening(out, theirs);
    FirstSharedAgrees(theirs, out, ours, 0);
    if first < |theirs| {
      var at := IndexOf(out, theirs[first]);
      assert r[at] == theirs[0] && r[at + 1] == theirs[first];
    } else {
      assert r == ours + theirs[..1];
    }
  }

  lemma StepOpens<T>(out: seq<T>, ours: seq<T>, theirs: seq<T>, i: nat)
    requires Distinct(theirs) && Distinct(out) && Next(out, theirs, i) && i > 0 && theirs[i] !in ours
    requires Opened(out, ours, theirs, i)
    ensures Opened(Step(out, theirs, i), ours, theirs, i + 1)
  {
    var first, r, at := FirstShared(theirs, ours, 0), Step(out, theirs, i), Slot(out, theirs[..i], theirs[i + 1..]);
    SlotAfter(out, theirs, i);
    if i < first < |theirs| {
      var p :| 0 < p < |out| && out[p - 1] == theirs[i - 1] && out[p] == theirs[first];
      assert p == at;
      assert r[at] == theirs[i] && r[at + 1] == theirs[first];
    } else if 0 < first < i {
      InsertAdjacent(out, at, theirs[i], theirs[first - 1], theirs[first]);
    } else if first == |theirs| {
      assert out[|ours| + i - 1] == theirs[..i][i - 1];
      assert at == |out|;
      assert r == ours + theirs[..i + 1];
    }
  }

  lemma Skip<T>(out: seq<T>, ours: seq<T>, theirs: seq<T>, i: nat)
    requires Distinct(theirs) && i < |theirs| && theirs[i] in out
    requires Placed(out, ours, theirs, i)
    ensures Placed(out, ours, theirs, i + 1)
  {
    assert theirs[i] !in theirs[..i];
    TakeNext(theirs, i);
    assert FirstShared(theirs, ours, 0) < |theirs|;
  }

  ghost predicate Placed<T>(out: seq<T>, ours: seq<T>, theirs: seq<T>, i: nat)
    requires i <= |theirs|
  {
    Members(out, ours, theirs, i) && Followed(out, ours, theirs, i) && Opened(out, ours, theirs, i)
  }

  lemma Place<T>(out: seq<T>, ours: seq<T>, theirs: seq<T>, i: nat)
    requires Distinct(theirs) && i < |theirs| && theirs[i] !in out && Placed(out, ours, theirs, i)
    ensures Placed(Step(out, theirs, i), ours, theirs, i + 1)
  {
    MembersNext(out, ours, theirs, i);
    StepMembers(out, ours, theirs, i);
    StepFollowed(out, ours, theirs, i);
    if i == 0 { StepOpensFirst(out, ours, theirs); } else { StepOpens(out, ours, theirs, i); }
  }

  lemma {:induction false} SplicePlaces<T>(out: seq<T>, ours: seq<T>, theirs: seq<T>, i: nat)
    requires Distinct(theirs) && i <= |theirs| && Placed(out, ours, theirs, i)
    ensures Placed(Splice(out, theirs, i), ours, theirs, |theirs|)
    decreases |theirs| - i
  {
    if i == |theirs| {
    } else if theirs[i] in out {
      Skip(out, ours, theirs, i);
      SplicePlaces(out, ours, theirs, i + 1);
    } else {
      Place(out, ours, theirs, i);
      SplicePlaces(Step(out, theirs, i), ours, theirs, i + 1);
    }
  }

  lemma Spliced<T>(ours: seq<T>, theirs: seq<T>)
    requires Distinct(ours) && Distinct(theirs)
    ensures Placed(Splice(ours, theirs, 0), ours, theirs, |theirs|)
  {
    KeepAll(ours, ours);
    assert theirs[..0] == [];
    SplicePlaces(ours, ours, theirs, 0);
  }

  lemma {:induction false} AppendGrows<T>(out: seq<T>, base: seq<T>)
    ensures |out| <= |Append(out, base)| && Append(out, base)[..|out|] == out
    decreases |base|
  {
    if base != [] {
      var next := if base[0] in out then out else out + [base[0]];
      AppendGrows(next, base[1..]);
      assert next[..|out|] == out && Append(next, base[1..])[..|next|][..|out|] == Append(next, base[1..])[..|out|];
    }
  }

  lemma {:induction false} AppendDistinct<T>(out: seq<T>, base: seq<T>)
    requires Distinct(out)
    ensures Distinct(Append(out, base))
    decreases |base|
  {
    if base != [] { AppendDistinct(if base[0] in out then out else out + [base[0]], base[1..]); }
  }

  lemma {:induction false} AppendMembers<T>(out: seq<T>, base: seq<T>, x: T)
    ensures x in Append(out, base) <==> x in out || x in base
    decreases |base|
  {
    if base != [] {
      AppendMembers(if base[0] in out then out else out + [base[0]], base[1..], x);
      assert base == [base[0]] + base[1..];
    }
  }

  lemma AppendShape<T>(out: seq<T>, base: seq<T>)
    requires Distinct(out)
    ensures out <= Append(out, base)
    ensures Distinct(Append(out, base))
    ensures forall x :: x in Append(out, base) <==> x in out || x in base
    ensures forall x | x in Append(out, base)[|out|..] :: x !in out
  {
    AppendGrows(out, base);
    AppendDistinct(out, base);
    forall x ensures x in Append(out, base) <==> x in out || x in base { AppendMembers(out, base, x); }
    AfterPrefix(out, Append(out, base));
  }

  lemma AfterPrefix<T>(s: seq<T>, whole: seq<T>)
    requires s <= whole && Distinct(whole)
    ensures forall x | x in whole[|s|..] :: x !in s
  {
    forall x | x in whole[|s|..] ensures x !in s {
      var k :| 0 <= k < |whole| - |s| && whole[|s|..][k] == x;
      assert whole[|s| + k] == x;
    }
  }

  /**
   * The order of the merged keys: each key of the three lists once; ours unchanged as the backbone; every key found
   * only in theirs, but the first, right after the key before it in theirs; a run of new keys that opens theirs right
   * before the first key theirs shares with ours, and after all of ours when nothing is shared; what only base has,
   * last.
   */
  lemma OrderedKeysLaw<T>(ours: seq<T>, theirs: seq<T>, base: seq<T>)
    requires Distinct(ours) && Distinct(theirs)
    ensures Distinct(OrderedKeys(ours, theirs, base))
    ensures forall x :: x in OrderedKeys(ours, theirs, base) <==> x in ours || x in theirs || x in base
    ensures Keep(OrderedKeys(ours, theirs, base), ours) == ours
    ensures forall k | 0 < k < |theirs| && theirs[k] !in ours ::
            Adjacent(OrderedKeys(ours, theirs, base), theirs[k - 1], theirs[k])
    ensures var first := FirstShared(theirs, ours, 0);
            if first == |theirs| then ours + theirs <= OrderedKeys(ours, theirs, base)
            else first > 0 ==> Adjacent(OrderedKeys(ours, theirs, base), theirs[first - 1], theirs[first])
    ensures exists n | 0 <= n <= |OrderedKeys(ours, theirs, base)| ::
            BaseFrom(OrderedKeys(ours, theirs, base), ours, theirs, n)
  {
    OrderedKeysMembers(ours, theirs, base);
    OrderedKeysFollow(ours, theirs, base);
  }

  /** From `n` on, `out` holds only keys of neither side; before `n`, only keys of one. */
  ghost predicate BaseFrom<T>(out: seq<T>, ours: seq<T>, theirs: seq<T>, n: nat) {
    && n <= |out|
    && (forall x | x in out[..n] :: x in ours || x in theirs)
    && (forall x | x in out[n..] :: x !in ours && x !in theirs)
  }

  lemma OrderedKeysMembers<T>(ours: seq<T>, theirs: seq<T>, base: seq<T>)
    requires Distinct(ours) && Distinct(theirs)
    ensures Distinct(OrderedKeys(ours, theirs, base))
    ensures forall x :: x in OrderedKeys(ours, theirs, base) <==> x in ours || x in theirs || x in base
    ensures Keep(OrderedKeys(ours, theirs, base), ours) == ours
    ensures BaseFrom(OrderedKeys(ours, theirs, base), ours, theirs, |Splice(ours, theirs, 0)|)
  {
    var placed, out := Splice(ours, theirs, 0), OrderedKeys(ours, theirs, base);
    Spliced(ours, theirs);
    assert theirs[..|theirs|] == theirs;
    AppendShape(placed, base);
    assert out[..|placed|] == placed;
    KeepPrefix(out, |placed|, ours);
  }

  lemma KeepPrefix<T>(out: seq<T>, n: nat, kept: seq<T>)
    requires n <= |out| && forall x | x in out[n..] :: x !in kept
    ensures Keep(out, kept) == Keep(out[..n], kept)
  {
    assert out == out[..n] + out[n..];
    KeepConcat(out[..n], out[n..], kept);
    KeepNone(out[n..], kept);
  }

  lemma OrderedKeysFollow<T>(ours: seq<T>, theirs: seq<T>, base: seq<T>)
    requires Distinct(ours) && Distinct(theirs)
    ensures Followed(OrderedKeys(ours, theirs, base), ours, theirs, |theirs|)
    ensures var first := FirstShared(theirs, ours, 0);
            if first == |theirs| then ours + theirs <= OrderedKeys(ours, theirs, base)
            else first > 0 ==> Adjacent(OrderedKeys(ours, theirs, base), theirs[first - 1], theirs[first])
  {
    var placed, out, first := Splice(ours, theirs, 0), OrderedKeys(ours, theirs, base), FirstShared(theirs, ours, 0);
    Spliced(ours, theirs);
    assert theirs[..|theirs|] == theirs;
    AppendShape(placed, base);
    forall k | 0 < k < |theirs| && theirs[k] !in ours ensures Adjacent(out, theirs[k - 1], theirs[k]) {
      AdjacentPrefix(placed, out, theirs[k - 1], theirs[k]);
    }
    if 0 < first < |theirs| { AdjacentPrefix(placed, out, theirs[first - 1], theirs[first]); }
  }

  lemma AdjacentPrefix<T>(s: seq<T>, whole: seq<T>, x: T, y: T)
    requires s <= whole && Adjacent(s, x, y)
    ensures Adjacent(whole, x, y)
  {
    var p :| 0 < p < |s| && s[p - 1] == x && s[p] == y;
    assert whole[p - 1] == x && whole[p] == y;
  }

  // Theirs' order survives too when both sides agree on the order of what they share.

  /** `theirs` around its key `i`, filtered by what is placed: before the key joins and after. */
  lemma KeepBefore<T>(theirs: seq<T>, i: nat, placed: seq<T>)
    requires Next(placed, theirs, i)
    ensures Keep(theirs, placed) == theirs[..i] + Keep(theirs[i + 1..], placed)
  {
    KeepAt(theirs, i, placed);
    KeepAll(theirs[..i], placed);
  }

  lemma KeepAfter<T>(theirs: seq<T>, i: nat, placed: seq<T>, grown: seq<T>)
    requires Distinct(theirs) && Next(placed, theirs, i)
    requires forall x :: x in grown <==> x in placed || x == theirs[i]
    ensures Keep(theirs, grown) == theirs[..i] + [theirs[i]] + Keep(theirs[i + 1..], placed)
  {
    KeepAt(theirs, i, grown);
    KeepAll(theirs[..i], grown);
    assert theirs[i] !in theirs[i + 1..];
    KeepSame(theirs[i + 1..], placed, grown);
  }

  lemma PlaceKeepsTheirs<T>(out: seq<T>, theirs: seq<T>, i: nat)
    requires Distinct(out) && Distinct(theirs) && Next(out, theirs, i)
    requires Keep(out, theirs) == Keep(theirs, out)
    ensures Keep(Step(out, theirs, i), theirs) == Keep(theirs, Step(out, theirs, i))
  {
    var at, r := Slot(out, theirs[..i], theirs[i + 1..]), Step(out, theirs, i);
    InsertMembers(out, at, theirs[i]);
    KeepBefore(theirs, i, out);
    KeepAfter(theirs, i, out, r);
    InsertKeeps(out, at, theirs[i], theirs);
    SlotSplitsTheirs(out, theirs, i);
    Cancel(theirs[..i], Keep(theirs[i + 1..], out), Keep(out[at..], theirs));
  }

  lemma Cancel<T>(p: seq<T>, s: seq<T>, t: seq<T>)
    requires p + s == p + t
    ensures s == t
  {
    assert s == (p + s)[|p|..] && t == (p + t)[|p|..];
  }

  /** What of theirs stands before the slot of key `i` is exactly the keys before it. */
  lemma SlotSplitsTheirs<T>(out: seq<T>, theirs: seq<T>, i: nat)
    requires Distinct(out) && Distinct(theirs) && Next(out, theirs, i)
    requires Keep(out, theirs) == Keep(theirs, out)
    ensures Keep(out[..Slot(out, theirs[..i], theirs[i + 1..])], theirs) == theirs[..i]
  {
    var at := Slot(out, theirs[..i], theirs[i + 1..]);
    if i > 0 {
      SlotAfter(out, theirs, i);
      KeepBefore(theirs, i, out);
      KeepEndingAt(out, theirs, at);
      PrefixEndingAt(Keep(out[..at], theirs), Keep(out[at..], theirs), theirs[..i], Keep(theirs[i + 1..], out), out,
          theirs);
    } else {
      OpensTheirs(out, theirs, at);
    }
  }

  lemma KeepEndingAt<T>(out: seq<T>, theirs: seq<T>, at: nat)
    requires 0 < at <= |out| && out[at - 1] in theirs
    ensures Keep(out, theirs) == Keep(out[..at], theirs) + Keep(out[at..], theirs)
    ensures var p := Keep(out[..at], theirs); p != [] && p[|p| - 1] == out[at - 1]
  {
    assert out == out[..at] + out[at..];
    KeepConcat(out[..at], out[at..], theirs);
    assert out[..at] == out[..at - 1] + [out[at - 1]];
    KeepConcat(out[..at - 1], [out[at - 1]], theirs);
  }

  lemma {:induction false} KeepDistinct<T>(s: seq<T>, kept: seq<T>)
    requires Distinct(s)
    ensures Distinct(Keep(s, kept))
  {
    if s != [] {
      KeepDistinct(s[1..], kept);
      KeepMembers(s[1..], kept);
    }
  }

  lemma PrefixEndingAt<T>(p: seq<T>, s: seq<T>, q: seq<T>, t: seq<T>, out: seq<T>, theirs: seq<T>)
    requires Distinct(out) && Keep(out, theirs) == p + s == q + t
    requires p != [] && q != [] && p[|p| - 1] == q[|q| - 1]
    ensures p == q
  {
    KeepDistinct(out, theirs);
    var whole := p + s;
    assert whole[|p| - 1] == whole[|q| - 1];
    assert p == whole[..|p|] && q == whole[..|q|];
  }

  /** Nothing of theirs stands before the slot of theirs' first key. */
  lemma OpensTheirs<T>(out: seq<T>, theirs: seq<T>, at: nat)
    requires Distinct(out) && Next(out, theirs, 0) && at == Slot(out, theirs[..0], theirs[1..])
    requires Keep(out, theirs) == Keep(theirs, out)
    ensures Keep(out[..at], theirs) == []
  {
    var j := FirstShared(theirs, out, 0);
    SlotOpening(out, theirs);
    KeepFirst(theirs, out, j);
    assert out == out[..at] + out[at..];
    KeepConcat(out[..at], out[at..], theirs);
    var p := Keep(out[..at], theirs);
    KeepMembers(out[..at], theirs);
    if p != [] { assert false; }
  }

  lemma KeepFirst<T>(theirs: seq<T>, out: seq<T>, j: nat)
    requires j <= |theirs| && (forall k | 0 <= k < j :: theirs[k] !in out) && (j < |theirs| ==> theirs[j] in out)
    ensures j == |theirs| ==> Keep(theirs, out) == []
    ensures j < |theirs| ==> Keep(theirs, out) != [] && Keep(theirs, out)[0] == theirs[j]
  {
    KeepNone(theirs[..j], out);
    if j == |theirs| {
      assert theirs[..j] == theirs;
    } else {
      KeepAt(theirs, j, out);
    }
  }

  lemma {:induction false} SpliceKeepsTheirs<T>(out: seq<T>, theirs: seq<T>, i: nat)
    requires Distinct(out) && Distinct(theirs) && i <= |theirs|
    requires forall k | 0 <= k < i :: theirs[k] in out
    requires Keep(out, theirs) == Keep(theirs, out)
    ensures Keep(Splice(out, theirs, i), theirs) == theirs
    decreases |theirs| - i
  {
    if i == |theirs| {
      KeepAll(theirs, out);
    } else if theirs[i] in out {
      SpliceKeepsTheirs(out, theirs, i + 1);
    } else {
      PlaceKeepsTheirs(out, theirs, i);
      var at := Slot(out, theirs[..i], theirs[i + 1..]);
      InsertDistinct(out, at, theirs[i]);
      InsertMembers(out, at, theirs[i]);
      SpliceKeepsTheirs(Step(out, theirs, i), theirs, i + 1);
    }
  }

  lemma TheirsSurvive<T>(ours: seq<T>, theirs: seq<T>, base: seq<T>)
    requires Distinct(ours) && Distinct(theirs)
    requires Keep(ours, theirs) == Keep(theirs, ours)
    ensures Keep(OrderedKeys(ours, theirs, base), theirs) == theirs
  {
    var placed, out := Splice(ours, theirs, 0), OrderedKeys(ours, theirs, base);
    SpliceKeepsTheirs(ours, theirs, 0);
    Spliced(ours, theirs);
    AppendShape(placed, base);
    OrderedKeysMembers(ours, theirs, base);
    assert out[..|placed|] == placed;
    KeepPrefix(out, |placed|, theirs);
  }

  /** Both orders survive exactly when the two sides list their shared keys in the same relative order. */
  lemma BothOrdersSurvive<T>(ours: seq<T>, theirs: seq<T>, base: seq<T>)
    requires Distinct(ours) && Distinct(theirs)
    ensures Keep(OrderedKeys(ours, theirs, base), ours) == ours
    ensures Keep(OrderedKeys(ours, theirs, base), theirs) == theirs <==> Keep(ours, theirs) == Keep(theirs, ours)
  {
    if Keep(ours, theirs) == Keep(theirs, ours) { TheirsSurvive(ours, theirs, base); }
    OrderedKeysMembers(ours, theirs, base);
    KeepTwice(OrderedKeys(ours, theirs, base), ours, theirs);
  }
}
