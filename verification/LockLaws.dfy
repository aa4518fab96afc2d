/** One at a time on each account, in order of arrival, and always someone who can go on. */
module LockLaws {
  import opened Options
  import opened Text
  import opened Locks
  import opened Sequences

  // ---------------------------------------------------------------------------
  // Queues

  predicate IsTicket(s: State, t: nat) { t < |s.tickets| }

  /** Whoever has begun has seen everyone before it on its account settle. */
  predicate InTurn(s: State) {
    forall i, t | 0 <= i < t < |s.tickets| && s.tickets[i].key == s.tickets[t].key && !s.tickets[t].status.Waiting? ::
        s.tickets[i].status.Settled?
  }

  /** A ticket follows the one right before it on its account, or nobody there is left to wait for. */
  predicate Linked(s: State) {
    forall t | 0 <= t < |s.tickets| :: LinkedAt(s, t)
  }

  predicate LinkedAt(s: State, t: nat)
    requires t < |s.tickets|
  {
    var me := s.tickets[t];
    match me.prev
    case Some(p) => p < t && s.tickets[p].key == me.key && forall i | p < i < t :: s.tickets[i].key != me.key
    case None => forall i | 0 <= i < t && s.tickets[i].key == me.key :: s.tickets[i].status.Settled?
  }

  /** The queue entry names an account's last ticket; without an entry all its tickets have settled. */
  predicate Tailed(s: State) {
    && (forall key | key in s.tail :: s.tail[key] < |s.tickets| && s.tickets[s.tail[key]].key == key
         && forall i | s.tail[key] < i < |s.tickets| :: s.tickets[i].key != key)
    && (forall i | 0 <= i < |s.tickets| && s.tickets[i].key !in s.tail :: s.tickets[i].status.Settled?)
  }

  /** A caller's tickets are for its accounts in order; all but the newest of them run. */
  predicate OwnedAt(s: State, w: nat)
    requires w < |s.workers|
  {
    var me := s.workers[w];
    && |me.held| <= |me.keys| && StrictlySorted(me.keys)
    && (forall i | 0 <= i < |me.held| ::
        me.held[i] < |s.tickets| && s.tickets[me.held[i]].owner == w
        && s.tickets[me.held[i]].key == me.keys[i])
    && (forall i | 0 <= i < |me.held| ::
        s.tickets[me.held[i]].status.Running?
        || (i == |me.held| - 1 && me.phase.Acquiring? && s.tickets[me.held[i]].status.Waiting?))
    && (me.phase.Finished? ==> me.held == [])
    && (me.phase.Working? ==> |me.held| == |me.keys|)
  }

  predicate Owned(s: State) { forall w | 0 <= w < |s.workers| :: OwnedAt(s, w) }

  /** A ticket that has not settled is held by its caller. */
  predicate Covered(s: State) {
    forall t | 0 <= t < |s.tickets| && !s.tickets[t].status.Settled? ::
        s.tickets[t].owner < |s.workers| && t in s.workers[s.tickets[t].owner].held
  }

  predicate Orderly(s: State) { InTurn(s) && Linked(s) && Tailed(s) }

  predicate Sound(s: State) { Orderly(s) && Owned(s) && Covered(s) }

  // ---------------------------------------------------------------------------
  // Queues stay in order

  /** Everyone before a ticket whose predecessor has settled has settled. */
  lemma TurnHasCome(s: State, t: nat)
    requires Orderly(s) && t < |s.tickets| && IsSettled(s, s.tickets[t].prev)
    ensures forall i | 0 <= i < t && s.tickets[i].key == s.tickets[t].key :: s.tickets[i].status.Settled?
  {
    assert LinkedAt(s, t);
  }

  lemma CallOrderly(s: State, w: nat)
    requires Orderly(s) && Enabled(s, Call(w))
    ensures Orderly(Next(s, Call(w)))
  {
    var r := Next(s, Call(w));
    var n, key := |s.tickets|, s.workers[w].keys[|s.workers[w].held|];
    assert forall i | 0 <= i < n :: r.tickets[i] == s.tickets[i];
    forall t | 0 <= t < |r.tickets| ensures LinkedAt(r, t) {
      if t < n { assert LinkedAt(s, t); }
    }
  }

  lemma StatusOrderly(s: State, t: nat, status: Status)
    requires Orderly(s) && t < |s.tickets|
    requires (status.Running? && s.tickets[t].status.Waiting? && IsSettled(s, s.tickets[t].prev))
            || (status.Settled? && s.tickets[t].status.Running?)
    ensures Orderly(SetStatus(s, t, status))
  {
    var r := SetStatus(s, t, status);
    if status.Running? { TurnHasCome(s, t); }
    assert forall i | 0 <= i < |s.tickets| ::
        r.tickets[i].key == s.tickets[i].key
        && r.tickets[i].prev == s.tickets[i].prev && (i != t ==> r.tickets[i] == s.tickets[i]);
    forall i | 0 <= i < |r.tickets| ensures LinkedAt(r, i) { assert LinkedAt(s, i); }
  }

  lemma CleanOrderly(s: State, t: nat)
    requires Orderly(s) && Enabled(s, Clean(t))
    ensures Orderly(Next(s, Clean(t)))
  {
    var r, key := Next(s, Clean(t)), s.tickets[t].key;
    forall i | 0 <= i < |s.tickets| && s.tickets[i].key == key ensures s.tickets[i].status.Settled? {
      if i < t { assert InTurn(s); }
    }
    forall i | 0 <= i < |r.tickets| ensures LinkedAt(r, i) { assert LinkedAt(s, i); }
  }

  lemma WorkersOrderly(s: State, r: State)
    requires Orderly(s) && r.tail == s.tail && r.tickets == s.tickets
    ensures Orderly(r)
  {
    forall i | 0 <= i < |r.tickets| ensures LinkedAt(r, i) { assert LinkedAt(s, i); }
  }

  lemma SettleOrderly(s: State, w: nat)
    requires Orderly(s) && Owned(s) && Enabled(s, Settle(w))
    ensures Orderly(Next(s, Settle(w)))
  {
    var worker := s.workers[w];
    assert OwnedAt(s, w);
    if worker.held == [] {
      WorkersOrderly(s, Next(s, Settle(w)));
    } else {
      var last := worker.held[|worker.held| - 1];
      StatusOrderly(s, last, Settled);
      WorkersOrderly(SetStatus(s, last, Settled), Next(s, Settle(w)));
    }
  }

  lemma StepOrderly(s: State, a: Step)
    requires Sound(s) && Enabled(s, a)
    ensures Orderly(Next(s, a))
  {
    match a
    case Call(w) => CallOrderly(s, w);
    case Start(t) => StatusOrderly(s, t, Running);
    case Enter(w) => WorkersOrderly(s, Next(s, a));
    case Leave(w) => WorkersOrderly(s, Next(s, a));
    case Settle(w) => SettleOrderly(s, w);
    case Clean(t) => CleanOrderly(s, t);
  }

  // ---------------------------------------------------------------------------
  // Callers keep to their tickets

  lemma HeldApart(s: State, w: nat, i: nat, v: nat, k: nat)
    requires Owned(s) && w < |s.workers| && v < |s.workers| && i < |s.workers[w].held| && k < |s.workers[v].held|
    requires s.workers[w].held[i] == s.workers[v].held[k]
    ensures w == v && i == k
  {
    assert OwnedAt(s, w) && OwnedAt(s, v);
    if i < k { BeforeIsTotal(s.workers[w].keys[i], s.workers[w].keys[k]); }
    if k < i { BeforeIsTotal(s.workers[w].keys[k], s.workers[w].keys[i]); }
  }

  lemma HeldDiffers(s: State, w: nat, i: nat, v: nat, k: nat)
    requires Owned(s) && w < |s.workers| && v < |s.workers| && i < |s.workers[w].held| && k < |s.workers[v].held|
    requires w != v || i != k
    ensures s.workers[w].held[i] != s.workers[v].held[k]
  {
    assert s.workers[w].held[i] == s.workers[v].held[k] ==> w == v && i == k by {
      if s.workers[w].held[i] == s.workers[v].held[k] { HeldApart(s, w, i, v, k); }
    }
  }

  lemma OwnedKept(s: State, r: State, w: nat)
    requires w < |s.workers| && w < |r.workers| && OwnedAt(s, w) && r.workers[w] == s.workers[w]
    requires |s.tickets| <= |r.tickets| && forall i | 0 <= i < |s.tickets| :: r.tickets[i] == s.tickets[i]
    ensures OwnedAt(r, w)
  {}

  lemma CallerOwned(s: State, v: nat)
    requires Owned(s) && Enabled(s, Call(v))
    ensures OwnedAt(Next(s, Call(v)), v)
  {
    var r, n := Next(s, Call(v)), |s.tickets|;
    assert OwnedAt(s, v) && r.workers[v].held == s.workers[v].held + [n];
    assert forall i | 0 <= i < n :: r.tickets[i] == s.tickets[i];
    assert r.tickets[n].owner == v && r.tickets[n].key == s.workers[v].keys[|s.workers[v].held|];
  }

  lemma CallOwned(s: State, v: nat)
    requires Sound(s) && Enabled(s, Call(v))
    ensures Owned(Next(s, Call(v)))
  {
    var r := Next(s, Call(v));
    CallerOwned(s, v);
    forall w | 0 <= w < |r.workers| ensures OwnedAt(r, w) {
      assert OwnedAt(s, w);
      if w != v { OwnedKept(s, r, w); }
    }
  }

  lemma StartOwned(s: State, t: nat)
    requires Sound(s) && Enabled(s, Start(t))
    ensures Owned(Next(s, Start(t)))
  {
    var r := Next(s, Start(t));
    forall w | 0 <= w < |r.workers| ensures OwnedAt(r, w) { assert OwnedAt(s, w); }
  }

  lemma SettleOwned(s: State, v: nat)
    requires Sound(s) && Enabled(s, Settle(v)) && s.workers[v].held != []
    ensures Owned(Next(s, Settle(v)))
  {
    var r := Next(s, Settle(v));
    forall w | 0 <= w < |r.workers| ensures OwnedAt(r, w) {
      assert OwnedAt(s, w) && OwnedAt(s, v);
      if w != v { OtherSettles(s, v, w); } else { OwnSettles(s, v); }
    }
  }

  /** A caller whose tickets stay as they are keeps them. */
  lemma OwnedSame(s: State, r: State, w: nat)
    requires w < |s.workers| && w < |r.workers| && OwnedAt(s, w) && r.workers[w] == s.workers[w]
            && |r.tickets| == |s.tickets|
    requires forall i | 0 <= i < |s.workers[w].held| ::
            r.tickets[s.workers[w].held[i]] == s.tickets[s.workers[w].held[i]]
    ensures OwnedAt(r, w)
  {}

  /** A caller that settles its newest ticket keeps the ones before it. */
  lemma OwnedShorter(s: State, r: State, w: nat, fewer: seq<nat>)
    requires w < |s.workers| && w < |r.workers| && OwnedAt(s, w) && s.workers[w].phase.Releasing?
            && s.workers[w].held != []
    requires fewer == s.workers[w].held[..|s.workers[w].held| - 1] && r.workers[w] == s.workers[w].(held := fewer)
            && |r.tickets| == |s.tickets|
    requires forall i | 0 <= i < |fewer| :: r.tickets[fewer[i]] == s.tickets[fewer[i]]
    ensures OwnedAt(r, w)
  {}

  lemma OwnSettles(s: State, v: nat)
    requires Owned(s) && Enabled(s, Settle(v)) && s.workers[v].held != []
    ensures OwnedAt(Next(s, Settle(v)), v)
  {
    var held := s.workers[v].held;
    var fewer := held[..|held| - 1];
    assert OwnedAt(s, v);
    forall i | 0 <= i < |fewer| ensures fewer[i] != held[|held| - 1] { HeldDiffers(s, v, i, v, |held| - 1); }
    OwnedShorter(s, Next(s, Settle(v)), v, fewer);
  }

  lemma OtherSettles(s: State, v: nat, w: nat)
    requires Owned(s) && Enabled(s, Settle(v)) && s.workers[v].held != [] && w < |s.workers| && w != v
    ensures OwnedAt(Next(s, Settle(v)), w)
  {
    var held, mine := s.workers[w].held, s.workers[v].held;
    assert OwnedAt(s, w) && OwnedAt(s, v);
    forall i | 0 <= i < |held| ensures held[i] != mine[|mine| - 1] { HeldDiffers(s, w, i, v, |mine| - 1); }
    OwnedSame(s, Next(s, Settle(v)), w);
  }

  lemma PhaseOwned(s: State, w: nat, phase: Phase)
    requires Owned(s) && w < |s.workers| && LastRuns(s, s.workers[w])
    requires phase.Finished? ==> s.workers[w].held == []
    requires phase.Working? ==> |s.workers[w].held| == |s.workers[w].keys|
    ensures Owned(SetWorker(s, w, s.workers[w].(phase := phase)))
  {
    var r := SetWorker(s, w, s.workers[w].(phase := phase));
    forall v | 0 <= v < |r.workers| ensures OwnedAt(r, v) { assert OwnedAt(s, v); }
  }

  lemma CleanOwned(s: State, t: nat)
    requires Owned(s) && Enabled(s, Clean(t))
    ensures Owned(Next(s, Clean(t)))
  {
    var r := Next(s, Clean(t));
    forall v | 0 <= v < |r.workers| ensures OwnedAt(r, v) { assert OwnedAt(s, v); }
  }

  /** A worker past acquiring runs on all its tickets. */
  lemma PastAcquiring(s: State, w: nat)
    requires Owned(s) && w < |s.workers| && !s.workers[w].phase.Acquiring?
    ensures LastRuns(s, s.workers[w])
  {
    assert OwnedAt(s, w);
  }

  lemma StepOwned(s: State, a: Step)
    requires Sound(s) && Enabled(s, a)
    ensures Owned(Next(s, a))
  {
    match a
    case Call(w) => CallOwned(s, w);
    case Start(t) => StartOwned(s, t);
    case Enter(w) => PhaseOwned(s, w, Working);
    case Leave(w) =>
      PastAcquiring(s, w);
      PhaseOwned(s, w, Releasing);
    case Settle(w) => if s.workers[w].held == [] { PhaseOwned(s, w, Finished); } else { SettleOwned(s, w); }
    case Clean(t) => CleanOwned(s, t);
  }

  lemma CallCovered(s: State, w: nat)
    requires Covered(s) && Enabled(s, Call(w))
    ensures Covered(Next(s, Call(w)))
  {
    var r, held := Next(s, Call(w)), s.workers[w].held;
    assert r.workers[w].held[|held|] == |s.tickets|;
    forall t | 0 <= t < |r.tickets| && !r.tickets[t].status.Settled?
      ensures r.tickets[t].owner < |r.workers| && t in r.workers[r.tickets[t].owner].held
    {
      if t < |s.tickets| { assert r.tickets[t] == s.tickets[t]; }
    }
  }

  lemma SettleCovered(s: State, w: nat)
    requires Covered(s) && Enabled(s, Settle(w))
    ensures Covered(Next(s, Settle(w)))
  {
    var r, held := Next(s, Settle(w)), s.workers[w].held;
    if held != [] { assert held == held[..|held| - 1] + [held[|held| - 1]]; }
    forall t | 0 <= t < |r.tickets| && !r.tickets[t].status.Settled?
      ensures r.tickets[t].owner < |r.workers| && t in r.workers[r.tickets[t].owner].held
    {
      assert !s.tickets[t].status.Settled? && r.tickets[t].owner == s.tickets[t].owner;
    }
  }

  lemma StepCovered(s: State, a: Step)
    requires Sound(s) && Enabled(s, a)
    ensures Covered(Next(s, a))
  {
    match a
    case Call(w) => CallCovered(s, w);
    case Settle(w) => SettleCovered(s, w);
    case _ =>
  }

  lemma StepSound(s: State, a: Step)
    requires Sound(s) && Enabled(s, a)
    ensures Sound(Next(s, a))
  {
    StepOrderly(s, a);
    StepOwned(s, a);
    StepCovered(s, a);
  }

  /** What a run of enabled steps leads to. */
  ghost predicate Reaches(s: State, steps: seq<Step>, r: State)
    decreases |steps|
  {
    if steps == [] then r == s else Enabled(s, steps[0]) && Reaches(Next(s, steps[0]), steps[1..], r)
  }

  lemma {:induction false} ReachedIsSound(s: State, steps: seq<Step>, r: State)
    requires Sound(s) && Reaches(s, steps, r)
    ensures Sound(r)
    decreases |steps|
  {
    if steps != [] {
      StepSound(s, steps[0]);
      ReachedIsSound(Next(s, steps[0]), steps[1..], r);
    }
  }

  lemma BeginsSound(s: State)
    requires Begins(s)
    ensures Sound(s)
  {
    forall w | 0 <= w < |s.workers| ensures OwnedAt(s, w) { assert s.workers[w] in s.workers; }
  }

  // ---------------------------------------------------------------------------
  // Mutual exclusion and order

  predicate HoldsKey(s: State, w: nat, key: Key)
    requires w < |s.workers|
  {
    exists i | 0 <= i < |s.workers[w].held| :: s.workers[w].held[i] < |s.tickets|
        && s.tickets[s.workers[w].held[i]].status.Running? && s.tickets[s.workers[w].held[i]].key == key
  }

  /** In every reachable state an account is held by at most one caller, so no two work on it at once. */
  lemma OneAtATime(s: State, steps: seq<Step>, r: State, v: nat, w: nat, key: Key)
    requires Begins(s) && Reaches(s, steps, r) && v < |r.workers| && w < |r.workers|
    requires HoldsKey(r, v, key) && HoldsKey(r, w, key)
    ensures v == w
  {
    BeginsSound(s);
    ReachedIsSound(s, steps, r);
    var a := HeldTicket(r, v, key);
    var b := HeldTicket(r, w, key);
    assert a == b;
  }

  /** The running ticket by which a caller holds an account. */
  lemma HeldTicket(s: State, w: nat, key: Key) returns (t: nat)
    requires Owned(s) && w < |s.workers| && HoldsKey(s, w, key)
    ensures t < |s.tickets| && s.tickets[t].status.Running? && s.tickets[t].key == key && s.tickets[t].owner == w
  {
    var i :| 0 <= i < |s.workers[w].held| && s.workers[w].held[i] < |s.tickets|
        && s.tickets[s.workers[w].held[i]].status.Running? && s.tickets[s.workers[w].held[i]].key == key;
    assert OwnedAt(s, w);
    t := s.workers[w].held[i];
  }

  /** A caller at work holds every account it named. */
  lemma WorkIsCovered(s: State, steps: seq<Step>, r: State, w: nat, key: Key)
    requires Begins(s) && Reaches(s, steps, r) && w < |r.workers| && r.workers[w].phase.Working?
            && key in r.workers[w].keys
    ensures HoldsKey(r, w, key)
  {
    BeginsSound(s);
    ReachedIsSound(s, steps, r);
    assert OwnedAt(r, w);
    var i :| 0 <= i < |r.workers[w].keys| && r.workers[w].keys[i] == key;
    assert r.tickets[r.workers[w].held[i]].key == key;
  }

  /** A ticket that may start is the first of its account not to have settled: arrival order, deleted entries or not. */
  lemma StartsInTurn(s: State, steps: seq<Step>, r: State, t: nat, i: nat)
    requires Begins(s) && Reaches(s, steps, r) && Enabled(r, Start(t)) && i < t && r.tickets[i].key == r.tickets[t].key
    ensures r.tickets[i].status.Settled?
  {
    BeginsSound(s);
    ReachedIsSound(s, steps, r);
    TurnHasCome(r, t);
  }

  // ---------------------------------------------------------------------------
  // No deadlock

  function KeysAfter(s: State, key: Key): set<Key> { set t | t in s.tickets && Before(key, t.key) :: t.key }

  lemma {:induction false} BeforeTransitive(a: string, b: string, c: string)
    requires Before(a, b) && Before(b, c)
    ensures Before(a, c)
  {
    BeforeIsTotal(a, b);
    BeforeIsTotal(b, c);
    BeforeIsTotal(a, c);
    if !Before(a, c) { NotBeforeTransitive(b, c, a); }
  }

  lemma FewerAfter(s: State, key: Key, later: nat)
    requires later < |s.tickets| && Before(key, s.tickets[later].key)
    ensures |KeysAfter(s, s.tickets[later].key)| < |KeysAfter(s, key)|
  {
    var next := s.tickets[later].key;
    assert s.tickets[later] in s.tickets;
    assert next in KeysAfter(s, key);
    BeforeIsTotal(next, next);
    forall k | k in KeysAfter(s, next) ensures k in KeysAfter(s, key) {
      var t :| t in s.tickets && Before(next, t.key) && t.key == k;
      BeforeTransitive(key, next, k);
    }
    Smaller(KeysAfter(s, next), KeysAfter(s, key), next);
  }

  lemma Smaller(a: set<Key>, b: set<Key>, x: Key)
    requires a <= b && x in b && x !in a
    ensures |a| < |b|
  {
    assert a <= b - {x};
    Fewer(a, b - {x});
  }

  /** The first ticket of an account that has not settled. */
  lemma {:induction false} FirstUnsettled(s: State, t: nat, from: nat) returns (i: nat)
    requires from <= t < |s.tickets| && !s.tickets[t].status.Settled?
    requires forall k | 0 <= k < from && s.tickets[k].key == s.tickets[t].key :: s.tickets[k].status.Settled?
    ensures i <= t && s.tickets[i].key == s.tickets[t].key && !s.tickets[i].status.Settled?
    ensures forall k | 0 <= k < i && s.tickets[k].key == s.tickets[t].key :: s.tickets[k].status.Settled?
    decreases t - from
  {
    if s.tickets[from].key == s.tickets[t].key && !s.tickets[from].status.Settled? {
      i := from;
    } else {
      i := FirstUnsettled(s, t, from + 1);
    }
  }

  /** A caller whose newest ticket runs, or that has none, has a step of its own. */
  lemma OwnStep(s: State, w: nat) returns (a: Step)
    requires Sound(s) && w < |s.workers| && !s.workers[w].phase.Finished? && LastRuns(s, s.workers[w])
    ensures Enabled(s, a) && !a.Clean?
  {
    assert OwnedAt(s, w);
    match s.workers[w].phase
    case Acquiring => a := if |s.workers[w].held| < |s.workers[w].keys| then Call(w) else Enter(w);
    case Working => a := Leave(w);
    case Releasing => a := Settle(w);
  }

  /** A caller whose newest ticket waits waits for a later account than any it holds. */
  lemma WaitsForLater(s: State, v: nat, i: nat)
    requires Owned(s) && v < |s.workers| && i in s.workers[v].held && i < |s.tickets| && s.tickets[i].status.Running?
            && !LastRuns(s, s.workers[v])
    ensures var next := s.workers[v].held[|s.workers[v].held| - 1];
            next < |s.tickets| && s.tickets[next].status.Waiting? && Before(s.tickets[i].key, s.tickets[next].key)
  {
    assert OwnedAt(s, v);
    var worker := s.workers[v];
    var k :| 0 <= k < |worker.held| && worker.held[k] == i;
    assert Before(worker.keys[k], worker.keys[|worker.held| - 1]);
  }

  /** Whoever waits waits, in the end, for someone who can go on: for the holder of its account, or of a later one. */
  lemma {:induction false} Unblock(s: State, t: nat) returns (a: Step)
    requires Sound(s) && t < |s.tickets| && s.tickets[t].status.Waiting?
    ensures Enabled(s, a) && !a.Clean?
    decreases |KeysAfter(s, s.tickets[t].key)|
  {
    var i := FirstUnsettled(s, t, 0);
    assert LinkedAt(s, i);
    if s.tickets[i].status.Waiting? {
      a := Start(i);
    } else {
      var v := s.tickets[i].owner;
      assert i in s.workers[v].held;
      if LastRuns(s, s.workers[v]) {
        assert OwnedAt(s, v);
        a := OwnStep(s, v);
      } else {
        WaitsForLater(s, v, i);
        var next := s.workers[v].held[|s.workers[v].held| - 1];
        FewerAfter(s, s.tickets[t].key, next);
        a := Unblock(s, next);
      }
    }
  }

  /**
   * In every reachable state with an unfinished caller some caller can step: taking accounts in order rules out
   * deadlock.
   */
  lemma NoDeadlock(s: State, steps: seq<Step>, r: State, w: nat) returns (a: Step)
    requires Begins(s) && Reaches(s, steps, r) && w < |r.workers| && !r.workers[w].phase.Finished?
    ensures Enabled(r, a) && !a.Clean?
  {
    BeginsSound(s);
    ReachedIsSound(s, steps, r);
    if LastRuns(r, r.workers[w]) {
      a := OwnStep(r, w);
    } else {
      assert OwnedAt(r, w);
      a := Unblock(r, r.workers[w].held[|r.workers[w].held| - 1]);
    }
  }
}
