/**
 * One evaluation of a node: begun, run, committed and published together, or aborted, over a host that may fail at any
 * call.
 */
module Evaluation {
  import opened Options
  import opened ExecutionOrder
  import opened ExecutionOrderLaws
  import opened Sequences
  import Order

  // ---------------------------------------------------------------------------
  // What is stored

  datatype Status = Idle | Opening | Running | Committing | Committed | AwaitingReview | RolledBack | NeedsRecovery
  datatype EffectStatus = Attempting | Applied | PendingReview | Reverted | Manual

  /** An effect left to a person names the task written for it. */
  datatype Effect = Effect(step: nat, status: EffectStatus, task: Option<nat>)

  datatype Record = Record(id: nat, status: Status, started: int, failed: bool, effects: seq<Effect>)

  /** A value a handler answered for a destination, submitted under an evaluation. */
  datatype Write = Write(evaluation: nat, destination: string, value: string)

  /**
   * The part of a replica an evaluation touches: the node's journal, submissions not yet live, values live, steps done,
   * tasks for manual recovery; and what everybody else edits.
   */
  datatype Replica = Replica(journal: Option<Record>, pending: set<Write>, live: set<Write>, done: set<nat>,
      tasks: set<nat>, edits: map<string, string>)

  function Of(writes: set<Write>, id: nat): set<Write> { set w | w in writes && w.evaluation == id }

  /** The evaluation's submissions made live. */
  function CommitWrites(r: Replica, id: nat): Replica {
    r.(live := r.live + Of(r.pending, id), pending := r.pending - Of(r.pending, id))
  }

  function DiscardWrites(r: Replica, id: nat): Replica { r.(pending := r.pending - Of(r.pending, id)) }

  function Patched<T(==)>(base: T, ours: T, theirs: T): T { if ours == base then theirs else ours }

  /**
   * The published root taken back: a merge of the current root with the one before publication, on the published one,
   * where nobody else edited what the publication wrote.
   */
  function Restored(published: Replica, current: Replica, before: Replica): Replica {
    Replica(Patched(published.journal, current.journal, before.journal),
        Patched(published.pending, current.pending, before.pending),
      Patched(published.live, current.live, before.live), Patched(published.done, current.done, before.done),
      Patched(published.tasks, current.tasks, before.tasks), Patched(published.edits, current.edits, before.edits))
  }

  /** Statuses from which a node may be evaluated again. */
  predicate Settled(s: Status) { s == Idle || s == Committed || s == RolledBack || s == AwaitingReview }

  // ---------------------------------------------------------------------------
  // What happened

  datatype Event =
    | Saved(journal: Option<Record>, ok: bool)
    | Opened(step: nat, ok: bool)
    | Ran(step: nat, answers: set<Write>, ok: bool)
    | CommitCalled(step: nat, ok: bool)
    | Aborted(step: nat, ok: bool)
    | TakenBack(how: Taking)

  /**
   * What the restoring merge did, which is up to what others edited: it took the publication back; or others had edited
   * some of what it wrote, and of that the merge kept what it would; or it refused.
   */
  datatype Taking = Cleared | Mixed | Untaken

  /**
   * The calls made, by kind, each in order; `kept`: the steps whose abort failed; `answers`: what was answered;
   * `failed`: an open, run or commit failed; `taking`: what was done about a publication that could not be saved.
   */
  datatype Tally = Tally(opens: seq<nat>, runs: seq<nat>, commits: seq<nat>, aborts: seq<nat>, kept: seq<nat>,
      answers: set<Write>, failed: bool, taking: Option<Taking>)

  const NO_CALLS := Tally([], [], [], [], [], {}, false, None)

  function Counted(y: Tally, e: Event): Tally {
    match e
    case Saved(_, _) => y
    case Opened(step, ok) => y.(opens := y.opens + [step], failed := y.failed || !ok)
    case Ran(step, answers, ok) => y.(runs := y.runs + [step], answers := y.answers + answers,
        failed := y.failed || !ok)
    case CommitCalled(step, ok) => y.(commits := y.commits + [step], failed := y.failed || !ok)
    case Aborted(step, ok) => y.(aborts := y.aborts + [step], kept := if ok then y.kept else y.kept + [step])
    case TakenBack(how) => y.(taking := Some(how))
  }

  function Tallied(t: seq<Event>): Tally {
    if t == [] then NO_CALLS else Counted(Tallied(t[..|t| - 1]), t[|t| - 1])
  }

  /** The journal that names the step about to run as attempted. */
  predicate Announces(e: Event, step: nat) {
    && e.Saved? && e.ok && e.journal.Some? && e.journal.value.effects != []
    && e.journal.value.effects[|e.journal.value.effects| - 1] == Effect(step, Attempting, None)
  }

  /** Every step was run right after a journal that says so was stored. */
  predicate JournalFirst(t: seq<Event>) {
    forall k | 0 <= k < |t| && t[k].Ran? :: k > 0 && Announces(t[k - 1], t[k].step)
  }

  lemma Logged(t: seq<Event>, e: Event)
    ensures Tallied(t + [e]) == Counted(Tallied(t), e)
    ensures JournalFirst(t) && (e.Ran? ==> t != [] && Announces(t[|t| - 1], e.step)) ==> JournalFirst(t + [e])
  {
    assert (t + [e])[..|t|] == t;
  }

  // ---------------------------------------------------------------------------
  // The host

  datatype Answer = Failed | Answered(writes: set<Write>, pending: bool)

  /**
   * The host an evaluation runs on. Each call may fail; a save that fails may have been stored all the same; while a
   * call is awaited, others may edit the replica.
   */
  class Driver {
    var memory: Replica
    var disk: Replica
    ghost var trace: seq<Event>

    /** Someone else's edits, between two of ours. */
    method Interfere()
      modifies this`memory
      ensures memory == old(memory).(edits := memory.edits)
    {
      var edits: map<string, string> := *;
      memory := memory.(edits := edits);
    }

    method Save(r: Replica) returns (ok: bool)
      modifies this
      ensures memory == r.(edits := memory.edits)
      ensures trace == old(trace) + [Saved(r.journal, ok)]
      ensures disk == r || (!ok && disk == old(disk))
    {
      memory := r;
      ok := *;
      var stored: bool := *;
      if ok || stored { disk := r; }
      trace := trace + [Saved(r.journal, ok)];
      Interfere();
    }

    method Open(step: nat) returns (ok: bool)
      modifies this
      ensures memory == old(memory).(edits := memory.edits) && disk == old(disk)
              && trace == old(trace) + [Opened(step, ok)]
    {
      ok := *;
      trace := trace + [Opened(step, ok)];
      Interfere();
    }

    method Run(step: nat, id: nat) returns (a: Answer)
      modifies this
      ensures memory == old(memory).(edits := memory.edits) && disk == old(disk)
      ensures trace == old(trace) + [Ran(step, if a.Answered? then a.writes else {}, a.Answered?)]
      ensures a.Answered? ==> forall w | w in a.writes :: w.evaluation == id
    {
      var fails: bool, pending: bool := *, *;
      var answers: set<Write> := *;
      a := if fails then Failed else Answered(Of(answers, id), pending);
      trace := trace + [Ran(step, if a.Answered? then a.writes else {}, a.Answered?)];
      Interfere();
    }

    method Commit(step: nat) returns (ok: bool)
      modifies this
      ensures memory == old(memory).(edits := memory.edits) && disk == old(disk)
              && trace == old(trace) + [CommitCalled(step, ok)]
    {
      ok := *;
      trace := trace + [CommitCalled(step, ok)];
      Interfere();
    }

    /**
     * Merges the replica with what it was before the publication. Others may have edited anything meanwhile; what the
     * merge does then is stated of nodes in `Restoring`.
     */
    method TakeBack(p: Publication) returns (how: Taking)
      requires memory == p.after.(edits := memory.edits)
      modifies this
      ensures disk == old(disk) && trace == old(trace) + [TakenBack(how)]
      ensures how.Untaken? ==> memory == old(memory)
      ensures how.Cleared? ==> memory == Restored(p.after, old(memory), p.before)
      ensures how.Mixed? ==> MixedOf(Restored(p.after, old(memory), p.before), old(memory), memory)
    {
      var restored, published := Restored(p.after, memory, p.before), memory;
      var live: set<Write>, pending: set<Write>, done: set<nat> := *, *, *;
      how := *;
      if how.Cleared? {
        memory := restored;
      } else if how.Mixed? {
        memory := restored.(live := restored.live + live * published.live,
          pending := restored.pending + pending * published.pending, done := restored.done + done * published.done);
      }
      trace := trace + [TakenBack(how)];
    }

    method Abort(step: nat) returns (ok: bool)
      modifies this
      ensures memory == old(memory).(edits := memory.edits) && disk == old(disk)
              && trace == old(trace) + [Aborted(step, ok)]
    {
      ok := *;
      trace := trace + [Aborted(step, ok)];
      Interfere();
    }
  }

  /** Some of what was published may have stayed. */
  ghost predicate MixedOf(restored: Replica, published: Replica, now: Replica) {
    && now == restored.(live := now.live, pending := now.pending, done := now.done)
    && restored.live <= now.live <= restored.live + published.live
    && restored.pending <= now.pending <= restored.pending + published.pending
    && restored.done <= now.done <= restored.done + published.done
  }

  /**
   * Whether the step may go on: time left, the journal still ours, instructions and rows unchanged, nothing unfilled.
   */
  method Check(d: Driver, step: nat) returns (ok: bool) {
    ok := *;
  }

  // ---------------------------------------------------------------------------
  // The phases

  /** Nothing of what was live or done has changed, nor the tasks. */
  ghost predicate Kept(was: Replica, now: Replica) {
    now.live == was.live && now.done == was.done && now.tasks == was.tasks
  }

  function FirstSteps(n: nat): (r: seq<nat>)
    ensures |r| == n && forall k | 0 <= k < n :: r[k] == k
  {
    if n == 0 then [] else FirstSteps(n - 1) + [n - 1]
  }

  method SaveRecord(d: Driver, record: Record) returns (ok: bool)
    modifies d
    ensures d.memory == old(d.memory).(journal := Some(record), edits := d.memory.edits)
    ensures d.trace == old(d.trace) + [Saved(Some(record), ok)]
    ensures Tallied(d.trace) == Tallied(old(d.trace)) && (JournalFirst(old(d.trace)) ==> JournalFirst(d.trace))
    ensures ok ==> d.disk == d.memory.(edits := d.disk.edits)
  {
    ghost var was := d.trace;
    ok := d.Save(d.memory.(journal := Some(record)));
    Logged(was, Saved(Some(record), ok));
  }

  /** Open every step, first to last; a step counts as begun once its opening was tried. */
  method OpenAll(d: Driver, n: nat) returns (ok: bool, begun: seq<nat>)
    requires JournalFirst(d.trace)
    modifies d
    ensures d.memory == old(d.memory).(edits := d.memory.edits)
    ensures JournalFirst(d.trace)
    ensures Tallied(d.trace) == Tallied(old(d.trace)).(opens := Tallied(old(d.trace)).opens + begun,
            failed := Tallied(d.trace).failed)
    ensures |begun| <= n && begun == FirstSteps(|begun|)
    ensures ok ==> |begun| == n && Tallied(d.trace).failed == Tallied(old(d.trace)).failed
  {
    begun := [];
    ghost var was := Tallied(d.trace);
    Whole(was.opens);
    for i := 0 to n
      invariant d.memory == old(d.memory).(edits := d.memory.edits)
      invariant JournalFirst(d.trace) && begun == FirstSteps(i)
      invariant Tallied(d.trace) == was.(opens := was.opens + begun)
    {
      ok := Check(d, i);
      if !ok { return; }
      ghost var before := d.trace;
      Longer(was.opens, begun, [i]);
      begun := begun + [i];
      ok := d.Open(i);
      Logged(before, Opened(i, ok));
      if !ok { return; }
    }
    ok := true;
  }

  /** The record with its last effect's status set. */
  function SetStatus(record: Record, status: EffectStatus): Record
    requires record.effects != []
  {
    var last := |record.effects| - 1;
    record.(effects := record.effects[..last] + [record.effects[last].(status := status)])
  }

  method CheckAll(d: Driver, n: nat) returns (ok: bool) {
    ok := true;
    for i := 0 to n {
      ok := Check(d, i);
      if !ok { return; }
    }
  }

  /** Run the step and submit what it answers. Stopped when the run fails, answers what it may not, or is not saved. */
  method RunPrimitive(d: Driver, step: nat, id: nat) returns (ok: bool, pending: bool, ghost answers: set<Write>)
    requires JournalFirst(d.trace) && d.trace != [] && Announces(d.trace[|d.trace| - 1], step)
    modifies d
    ensures d.memory == old(d.memory).(edits := d.memory.edits, pending := d.memory.pending)
    ensures JournalFirst(d.trace) && Of(answers, id) == answers
    ensures old(d.memory).pending <= d.memory.pending <= old(d.memory).pending + answers
    ensures ok ==> d.memory.pending == old(d.memory).pending + answers
    ensures Tallied(d.trace) == Tallied(old(d.trace)).(runs := Tallied(old(d.trace)).runs + [step],
            answers := Tallied(old(d.trace)).answers + answers, failed := Tallied(d.trace).failed)
    ensures ok ==> Tallied(d.trace).failed == Tallied(old(d.trace)).failed
  {
    ghost var was := d.trace;
    var a := d.Run(step, id);
    answers := if a.Answered? then a.writes else {};
    Logged(was, Ran(step, answers, a.Answered?));
    var proposes: bool := *;
    if a.Failed? || !proposes { return false, false, answers; }
    pending := a.pending;
    ghost var ran := d.trace;
    var proposed := d.memory.(pending := d.memory.pending + a.writes);
    ok := d.Save(proposed);
    Logged(ran, Saved(proposed.journal, ok));
  }

  /** What one turn of the run loop came to. */
  datatype Turn = Passed | Stopped | Done(pending: bool)

  /** Run a step through its executor, if it has exactly one: journal the attempt, run, journal the outcome. */
  method RunOne(d: Driver, step: nat, n: nat, record: Record)
      returns (turn: Turn, next: Record, ghost answers: set<Write>)
    requires JournalFirst(d.trace)
    modifies d
    ensures Kept(old(d.memory), d.memory) && JournalFirst(d.trace) && Of(answers, record.id) == answers
    ensures next.(effects := record.effects) == record
    ensures turn.Passed? ==> next == record && d.memory == old(d.memory) && d.trace == old(d.trace) && answers == {}
    ensures turn.Done? ==>
            d.memory.journal == Some(next)
            && next.effects == record.effects + [Effect(step, if turn.pending then PendingReview else Applied, None)]
    ensures turn.Done? ==> Tallied(d.trace) == Tallied(old(d.trace)).(runs := Tallied(old(d.trace)).runs + [step],
            answers := Tallied(old(d.trace)).answers + answers)
    ensures old(d.memory).pending <= d.memory.pending <= old(d.memory).pending + answers
    ensures turn.Done? ==> d.memory.pending == old(d.memory).pending + answers
    ensures Tallied(d.trace).answers == Tallied(old(d.trace)).answers + answers
    ensures Quiet(Tallied(old(d.trace)), Tallied(d.trace))
  {
    next, answers := record, {};
    var ok := Check(d, step);
    if !ok { return Stopped, record, {}; }
    var runs: bool := *;
    if !runs { return Passed, record, {}; }
    ok := CheckAll(d, n);
    if !ok { return Stopped, record, {}; }
    next := record.(effects := record.effects + [Effect(step, Attempting, None)]);
    ok := SaveRecord(d, next);
    if !ok { return Stopped, next, {}; }
    var pending;
    ok, pending, answers := RunPrimitive(d, step, record.id);
    if !ok { return Stopped, next, answers; }
    next := SetStatus(next, if pending then PendingReview else Applied);
    ok := SaveRecord(d, next);
    turn := if ok then Done(pending) else Stopped;
  }

  /** Only runs were called: opens, commits and aborts are as they were. */
  predicate Quiet(was: Tally, now: Tally) {
    now == was.(runs := now.runs, answers := now.answers, failed := now.failed)
  }

  /** `a` is `b` with some elements left out. */
  predicate Subsequence<T(==)>(a: seq<T>, b: seq<T>) {
    if a == [] then true
    else if b == [] then false
    else if a[|a| - 1] == b[|b| - 1] then Subsequence(a[..|a| - 1], b[..|b| - 1])
    else Subsequence(a, b[..|b| - 1])
  }

  lemma {:induction false} SubsequenceSkips<T>(a: seq<T>, b: seq<T>, x: T)
    requires Subsequence(a, b)
    ensures Subsequence(a, b + [x])
    decreases |b|, 1
  {
    assert (b + [x])[..|b|] == b;
    if a != [] && a[|a| - 1] == x { SubsequenceDrops(a, b); }
  }

  lemma {:induction false} SubsequenceDrops<T>(a: seq<T>, b: seq<T>)
    requires a != [] && Subsequence(a, b)
    ensures Subsequence(a[..|a| - 1], b)
    decreases |b|, 0
  {
    var init, last := b[..|b| - 1], b[|b| - 1];
    assert b == init + [last];
    if a[|a| - 1] != last { SubsequenceDrops(a, init); }
    SubsequenceSkips(a[..|a| - 1], init, last);
  }

  lemma SubsequenceTakes<T>(a: seq<T>, b: seq<T>, x: T)
    requires Subsequence(a, b)
    ensures Subsequence(a + [x], b + [x])
  {
    assert (a + [x])[..|a|] == a && (b + [x])[..|b|] == b;
  }

  /** Run every step of the order that an executor runs. */
  method RunAll(d: Driver, order: seq<nat>, n: nat, record: Record)
      returns (ok: bool, awaiting: bool, next: Record, ghost answers: set<Write>)
    requires JournalFirst(d.trace) && record.effects == [] && d.memory.journal == Some(record)
    modifies d
    ensures Kept(old(d.memory), d.memory) && JournalFirst(d.trace) && Of(answers, record.id) == answers
    ensures next.(effects := []) == record
    ensures old(d.memory).pending <= d.memory.pending <= old(d.memory).pending + answers
    ensures Quiet(Tallied(old(d.trace)), Tallied(d.trace))
            && Tallied(d.trace).answers == Tallied(old(d.trace)).answers + answers
    ensures ok ==> d.memory.journal == Some(next) && d.memory.pending == old(d.memory).pending + answers
    ensures ok ==> HasRun(next, order, Tallied(old(d.trace)), Tallied(d.trace)) && awaiting == Awaits(next.effects)
  {
    next, answers, awaiting := record, {}, false;
    ghost var was, start := Tallied(d.trace), d.memory;
    HasRunNone(record, order, was);
    for i := 0 to |order|
      invariant JournalFirst(d.trace) && d.memory.journal == Some(next) && awaiting == Awaits(next.effects)
      invariant Answers(record, start, was, next, d.memory, Tallied(d.trace), answers)
              && d.memory.pending == start.pending + answers
      invariant HasRun(next, order[..i], was, Tallied(d.trace))
    {
      var turn;
      ghost var more, before, earlier, memory, so := {}, next, Tallied(d.trace), d.memory, answers;
      turn, next, more := RunOne(d, order[i], n, next);
      answers := answers + more;
      MoreAnswers(record, start, was, before, memory, earlier, so, next, d.memory, Tallied(d.trace), more);
      if turn.Stopped? { return false, awaiting, next, answers; }
      HasRunNext(before, next, order, i, was, earlier, Tallied(d.trace), turn);
      awaiting := awaiting || (turn.Done? && turn.pending);
    }
    assert order[..|order|] == order;
    ok := true;
  }

  /** What has been answered so far is submitted, or about to be; nothing else has changed. */
  ghost predicate Answers(record: Record, start: Replica, was: Tally, next: Record, memory: Replica, now: Tally,
      answers: set<Write>) {
    && Kept(start, memory) && next.(effects := []) == record && Of(answers, record.id) == answers
    && start.pending <= memory.pending <= start.pending + answers && Quiet(was, now)
        && now.answers == was.answers + answers
  }

  lemma MoreAnswers(record: Record, start: Replica, was: Tally, next: Record, memory: Replica, now: Tally,
      answers: set<Write>,
      later: Record, after: Replica, since: Tally, more: set<Write>)
    requires Answers(record, start, was, next, memory, now, answers) && memory.pending == start.pending + answers
    requires Kept(memory, after) && later.(effects := next.effects) == next && Of(more, record.id) == more
    requires memory.pending <= after.pending <= memory.pending + more && Quiet(now, since)
            && since.answers == now.answers + more
    ensures Answers(record, start, was, later, after, since, answers + more)
    ensures after.pending == memory.pending + more ==> after.pending == start.pending + (answers + more)
  {}

  lemma HasRunNone(record: Record, order: seq<nat>, was: Tally)
    requires record.effects == []
    ensures HasRun(record, order[..0], was, was)
  {
    Whole(was.runs);
  }

  /** One more turn of the loop keeps the account of what has run. */
  lemma HasRunNext(record: Record, next: Record, order: seq<nat>, i: nat, was: Tally, now: Tally, later: Tally,
      turn: Turn)
    requires i < |order| && HasRun(record, order[..i], was, now) && !turn.Stopped?
    requires turn.Passed? ==> next == record && later == now
    requires turn.Done? ==>
            next.effects == record.effects
            + [Effect(order[i], if turn.pending then PendingReview else Applied, None)]
    requires turn.Done? ==> later == now.(runs := now.runs + [order[i]], answers := later.answers)
    ensures HasRun(next, order[..i + 1], was, later)
    ensures Awaits(next.effects) <==> Awaits(record.effects) || (turn.Done? && turn.pending)
  {
    var ran := Effects(record.effects);
    assert order[..i + 1] == order[..i] + [order[i]];
    if turn.Done? {
      EffectsNext(record.effects, order[i], turn.pending);
      SubsequenceTakes(ran, order[..i], order[i]);
      Longer(was.runs, ran, [order[i]]);
    } else {
      SubsequenceSkips(ran, order[..i], order[i]);
    }
  }

  /** The steps the effects are of, in order. */
  function Effects(es: seq<Effect>): seq<nat> {
    if es == [] then [] else Effects(es[..|es| - 1]) + [es[|es| - 1].step]
  }

  predicate AllSettled(es: seq<Effect>) { forall e | e in es :: e.status == Applied || e.status == PendingReview }

  /** The steps run are some of the order, in order; the journal lists exactly those, each with its outcome. */
  predicate HasRun(record: Record, order: seq<nat>, was: Tally, now: Tally) {
    && now == was.(runs := was.runs + Effects(record.effects), answers := now.answers)
    && Subsequence(Effects(record.effects), order) && AllSettled(record.effects)
  }

  predicate Awaits(es: seq<Effect>) { exists e | e in es :: e.status == PendingReview }

  lemma EffectsNext(es: seq<Effect>, step: nat, pending: bool)
    ensures Effects(es + [Effect(step, if pending then PendingReview else Applied, None)]) == Effects(es) + [step]
    ensures Awaits(es + [Effect(step, if pending then PendingReview else Applied, None)]) <==> Awaits(es) || pending
    ensures AllSettled(es) ==> AllSettled(es + [Effect(step, if pending then PendingReview else Applied, None)])
  {
    var e := Effect(step, if pending then PendingReview else Applied, None);
    var longer := es + [e];
    assert longer[..|es|] == es && longer[|es|] == e;
    assert forall x | x in longer :: x in es || x == e;
  }

  /** Commit every step, last to first. */
  method CommitAll(d: Driver, n: nat) returns (ok: bool)
    requires JournalFirst(d.trace)
    modifies d
    ensures d.memory == old(d.memory).(edits := d.memory.edits) && JournalFirst(d.trace)
    ensures Tallied(d.trace) == Tallied(old(d.trace)).(commits := Tallied(d.trace).commits,
            failed := Tallied(d.trace).failed)
    ensures ok ==> Tallied(d.trace) == Tallied(old(d.trace)).(commits := Tallied(old(d.trace)).commits + Backwards(n))
  {
    ghost var was := Tallied(d.trace);
    ghost var called: seq<nat> := [];
    Whole(was.commits);
    Whole(Backwards(n));
    var i := n;
    while i > 0
      invariant 0 <= i <= n && d.memory == old(d.memory).(edits := d.memory.edits) && JournalFirst(d.trace)
      invariant Tallied(d.trace) == was.(commits := was.commits + called)
      invariant called + Backwards(i) == Backwards(n)
    {
      i := i - 1;
      ok := Check(d, i);
      if !ok { return; }
      ghost var before := d.trace;
      ok := d.Commit(i);
      Logged(before, CommitCalled(i, ok));
      Longer(was.commits, called, [i]);
      Longer(called, [i], Backwards(i));
      called := called + [i];
      if !ok { return; }
    }
    ok := true;
  }

  /** The checkable steps among the first `n`. */
  function Checkable(checkable: seq<bool>, from: nat): set<nat>
    requires from <= |checkable|
    decreases |checkable| - from
  {
    if from == |checkable| then {} else Checkable(checkable, from + 1) + if checkable[from] then {from} else {}
  }

  /** Mark every checkable step done, last to first; one whose requirements are unfulfilled stops it. */
  method MarkDone(checkable: seq<bool>, r: Replica) returns (ok: bool, next: Replica)
    ensures ok ==> next == r.(done := r.done + Checkable(checkable, 0))
  {
    next := r;
    var i := |checkable|;
    while i > 0
      invariant 0 <= i <= |checkable| && next == r.(done := r.done + Checkable(checkable, i))
    {
      i := i - 1;
      if checkable[i] {
        ok := *;
        if !ok { return; }
        next := next.(done := next.done + {i});
      }
    }
    ok := true;
  }

  /** What publication writes: submissions live, checkable steps done, the journal committed. */
  function Completed(r: Replica, record: Record, checkable: seq<bool>): Replica {
    CommitWrites(r, record.id).(done := r.done + Checkable(checkable, 0), journal := Some(record.(status := Committed)))
  }

  datatype Publication = Publication(before: Replica, after: Replica)

  /**
   * Completion and submissions published together, on a copy first: the live replica changes only when the copy is
   * complete.
   */
  method Publish(d: Driver, checkable: seq<bool>, record: Record) returns (ok: bool, published: Option<Publication>)
    requires JournalFirst(d.trace)
    modifies d
    ensures JournalFirst(d.trace) && Tallied(d.trace) == Tallied(old(d.trace))
    ensures published.None? ==> !ok && d.memory == old(d.memory)
    ensures published.Some? ==> published == Some(Publication(old(d.memory),
            Completed(old(d.memory), record, checkable)))
                                && d.memory == published.value.after.(edits := d.memory.edits)
    ensures ok ==> d.disk == d.memory.(edits := d.disk.edits)
  {
    var before := d.memory;
    var marked;
    ok, marked := MarkDone(checkable, CommitWrites(before, record.id));
    if !ok { return false, None; }
    var after := marked.(journal := Some(record.(status := Committed)));
    published := Some(Publication(before, after));
    ghost var was := d.trace;
    ok := d.Save(after);
    Logged(was, Saved(after.journal, ok));
  }

  // ---------------------------------------------------------------------------
  // Giving up

  function Reversed(s: seq<nat>): (r: seq<nat>)
    ensures |r| == |s| && forall k | 0 <= k < |s| :: r[k] == s[|s| - 1 - k]
  {
    if s == [] then [] else [s[|s| - 1]] + Reversed(s[..|s| - 1])
  }

  /** Every effect reverted: what handlers answered was only submitted. */
  function AllReverted(es: seq<Effect>): seq<Effect> {
    if es == [] then [] else AllReverted(es[..|es| - 1]) + [es[|es| - 1].(status := Reverted)]
  }

  /** The steps left to a person, in order. */
  function Manuals(es: seq<Effect>): seq<nat> {
    if es == [] then [] else Manuals(es[..|es| - 1]) + if es[|es| - 1].status == Manual then [es[|es| - 1].step] else []
  }

  /** Each effect is reverted or left to a person who has a task for it. */
  predicate Accounted(es: seq<Effect>, tasks: set<nat>) {
    forall e | e in es :: e.status == Reverted || (e.status == Manual && e.task.Some? && e.task.value in tasks)
  }

  lemma {:induction false} RevertedAll(es: seq<Effect>)
    ensures Manuals(AllReverted(es)) == [] && Accounted(AllReverted(es), {})
  {
    if es != [] {
      RevertedAll(es[..|es| - 1]);
      var before := AllReverted(es[..|es| - 1]);
      assert AllReverted(es)[..|before|] == before;
    }
  }

  lemma ManualNext(es: seq<Effect>, step: nat, task: nat, tasks: set<nat>)
    requires Accounted(es, tasks)
    ensures Manuals(es + [Effect(step, Manual, Some(task))]) == Manuals(es) + [step]
    ensures Accounted(es + [Effect(step, Manual, Some(task))], tasks + {task})
  {
    var longer := es + [Effect(step, Manual, Some(task))];
    assert longer[..|es|] == es;
    assert forall x | x in longer :: x in es || x == Effect(step, Manual, Some(task));
  }

  lemma {:induction false} ManualsListed(es: seq<Effect>)
    ensures Manuals(es) != [] <==> exists e | e in es :: e.status == Manual
  {
    if es != [] {
      ManualsListed(es[..|es| - 1]);
      assert es == es[..|es| - 1] + [es[|es| - 1]];
    }
  }

  /** Abort one step; when it will not, journal a task for it. */
  method AbortOne(d: Driver, step: nat, effects: seq<Effect>) returns (ok: bool, next: seq<Effect>)
    requires JournalFirst(d.trace) && Manuals(effects) == Tallied(d.trace).kept && Accounted(effects, d.memory.tasks)
    modifies d
    ensures d.memory == old(d.memory).(edits := d.memory.edits, tasks := d.memory.tasks) && JournalFirst(d.trace)
    ensures Tallied(d.trace) == Tallied(old(d.trace)).(aborts := Tallied(old(d.trace)).aborts + [step],
            kept := Tallied(d.trace).kept)
    ensures ok ==> Manuals(next) == Tallied(d.trace).kept && Accounted(next, d.memory.tasks)
  {
    next := effects;
    ghost var before := d.trace;
    ok := d.Abort(step);
    Logged(before, Aborted(step, ok));
    if ok { return; }
    var task: nat := *;
    ManualNext(next, step, task, d.memory.tasks);
    next := next + [Effect(step, Manual, Some(task))];
    ghost var aborted := d.trace;
    var asked := d.memory.(tasks := d.memory.tasks + {task});
    ok := d.Save(asked);
    Logged(aborted, Saved(asked.journal, ok));
  }

  /** Abort every step begun, last to first; a step that will not abort becomes a task. */
  method AbortAll(d: Driver, begun: seq<nat>, effects: seq<Effect>) returns (ok: bool, next: seq<Effect>)
    requires JournalFirst(d.trace) && Manuals(effects) == [] && Accounted(effects, d.memory.tasks)
            && Tallied(d.trace).aborts == [] && Tallied(d.trace).kept == []
    modifies d
    ensures d.memory == old(d.memory).(edits := d.memory.edits, tasks := d.memory.tasks) && JournalFirst(d.trace)
    ensures Tallied(d.trace) == Tallied(old(d.trace)).(aborts := Tallied(d.trace).aborts, kept := Tallied(d.trace).kept)
    ensures ok ==> Tallied(d.trace).aborts == Reversed(begun)
    ensures ok ==> Manuals(next) == Tallied(d.trace).kept && Accounted(next, d.memory.tasks)
  {
    next := effects;
    var i := |begun|;
    assert begun[..i] == begun;
    Whole(Reversed(begun));
    while i > 0
      invariant 0 <= i <= |begun| && JournalFirst(d.trace)
      invariant d.memory == old(d.memory).(edits := d.memory.edits, tasks := d.memory.tasks)
      invariant Tallied(d.trace) == Tallied(old(d.trace)).(aborts := Tallied(d.trace).aborts,
              kept := Tallied(d.trace).kept)
      invariant Tallied(d.trace).aborts + Reversed(begun[..i]) == Reversed(begun)
      invariant Manuals(next) == Tallied(d.trace).kept && Accounted(next, d.memory.tasks)
    {
      i := i - 1;
      ReversedNext(Tallied(d.trace).aborts, begun, i);
      ok, next := AbortOne(d, begun[i], next);
      if !ok { return; }
    }
    assert Reversed(begun[..0]) == [];
    ok := true;
  }

  lemma ReversedNext(done: seq<nat>, s: seq<nat>, i: nat)
    requires i < |s|
    ensures done + Reversed(s[..i + 1]) == done + [s[i]] + Reversed(s[..i])
  {
    assert s[..i + 1][..i] == s[..i];
  }

  datatype Ending = Threw | Returned(record: Record) | Refused

  /** Drop the submissions, abort what was begun, and journal how it ended. */
  method WindUp(d: Driver, record: Record, begun: seq<nat>) returns (r: Ending)
    requires JournalFirst(d.trace) && Tallied(d.trace).aborts == [] && Tallied(d.trace).kept == []
    modifies d
    ensures JournalFirst(d.trace) && d.memory.live == old(d.memory).live && d.memory.done == old(d.memory).done
    ensures Tallied(d.trace) == Tallied(old(d.trace)).(aborts := Tallied(d.trace).aborts, kept := Tallied(d.trace).kept)
    ensures !r.Refused? && (r.Returned? ==>
            RolledBackWell(r.record, record.id, begun, d.memory, Tallied(d.trace))
            && d.disk == d.memory.(edits := d.disk.edits))
  {
    var next := record.(failed := true);
    var discards: bool := *;
    if discards {
      ghost var before := d.trace;
      var discarded := DiscardWrites(d.memory, record.id);
      var ok := d.Save(discarded);
      Logged(before, Saved(discarded.journal, ok));
    }
    RevertedAll(next.effects);
    assert Accounted(AllReverted(next.effects), d.memory.tasks);
    var ok, effects := AbortAll(d, begun, AllReverted(next.effects));
    if !ok { return Threw; }
    ManualsListed(effects);
    next := next.(effects := effects, status := if exists e | e in effects :: e.status == Manual then NeedsRecovery
        else RolledBack);
    ok := SaveRecord(d, next);
    r := if ok then Returned(next) else Threw;
  }

  /**
   * Take back what was published, drop the submissions, abort what was begun, and journal how it ended. When the
   * restoring merge refuses, none of that happens: the publication stays.
   */
  method Rollback(d: Driver, record: Record, begun: seq<nat>, published: Option<Publication>, ghost was: Replica)
      returns (r: Ending)
    requires JournalFirst(d.trace) && Tallied(d.trace).aborts == [] && Tallied(d.trace).kept == []
    requires Tallied(d.trace).taking.None?
    requires published.None? ==> Kept(was, d.memory)
    requires published.Some? ==>
            Kept(was, published.value.before) && published.value.after.tasks == was.tasks
            && d.memory == published.value.after.(edits := d.memory.edits)
    modifies d
    ensures JournalFirst(d.trace)
    ensures Tallied(d.trace) == Tallied(old(d.trace)).(aborts := Tallied(d.trace).aborts, kept := Tallied(d.trace).kept,
            taking := Tallied(d.trace).taking)
    ensures published.Some? <==> Tallied(d.trace).taking.Some?
    ensures Tallied(d.trace).taking == Some(Untaken) ==>
            r == Threw && d.memory == old(d.memory) && d.disk == old(d.disk) && Tallied(d.trace).aborts == []
    ensures Tallied(d.trace).taking == Some(Mixed) ==> StillThere(was, old(d.memory), d.memory)
    ensures Tallied(d.trace).taking in [None, Some(Cleared)] ==> d.memory.live == was.live && d.memory.done == was.done
    ensures !r.Refused? && (r.Returned? ==>
            RolledBackWell(r.record, record.id, begun, d.memory, Tallied(d.trace))
            && d.disk == d.memory.(edits := d.disk.edits))
  {
    if published.Some? {
      ghost var trace := d.trace;
      var how := d.TakeBack(published.value);
      Logged(trace, TakenBack(how));
      if how.Untaken? { return Threw; }
    }
    r := WindUp(d, record, begun);
  }

  /** Nothing that was live or done before is gone, and nothing is that was not so before or published. */
  predicate StillThere(was: Replica, published: Replica, now: Replica) {
    && was.live <= now.live <= was.live + published.live
    && was.done <= now.done <= was.done + published.done
  }

  /**
   * How a failed evaluation ends: exactly the steps begun were aborted, last to first; recovery is needed exactly when
   * some abort failed, and each of those, and no other effect, is left to a person with a task; all other effects are
   * reverted.
   */
  ghost predicate RolledBackWell(record: Record, id: nat, begun: seq<nat>, memory: Replica, y: Tally) {
    && record.id == id && record.failed && memory.journal == Some(record)
    && y.aborts == Reversed(begun)
    && record.status == (if y.kept != [] then NeedsRecovery else RolledBack)
    && Manuals(record.effects) == y.kept && Accounted(record.effects, memory.tasks)
  }

  // ---------------------------------------------------------------------------
  // The evaluation

  /** Everything opened and committed, every answer live, every checkable step done, nothing aborted or left pending. */
  ghost predicate CommittedWell(record: Record, id: nat, was: Replica, memory: Replica, y: Tally, checkable: seq<bool>,
      order: seq<nat>) {
    && record.id == id && record.status == Committed && !record.failed && memory.journal == Some(record)
    && y.opens == FirstSteps(|checkable|) && y.commits == Backwards(|checkable|) && y.aborts == [] && !y.failed
    && Subsequence(y.runs, order) && Effects(record.effects) == y.runs
        && (forall e | e in record.effects :: e.status == Applied)
    && memory.live == was.live + y.answers && memory.pending == was.pending
        && memory.done == was.done + Checkable(checkable, 0) && memory.tasks == was.tasks
  }

  /**
   * A result waits for review: everything opened, the answers submitted and none live, nothing committed or aborted.
   */
  ghost predicate AwaitsWell(record: Record, id: nat, was: Replica, memory: Replica, y: Tally, n: nat,
      order: seq<nat>) {
    && record.id == id && record.status == AwaitingReview && !record.failed && memory.journal == Some(record)
    && y.opens == FirstSteps(n) && y.commits == [] && y.aborts == [] && !y.failed
    && Subsequence(y.runs, order) && Effects(record.effects) == y.runs && Awaits(record.effects)
    && Kept(was, memory) && memory.pending == was.pending + y.answers
  }

  lemma SubmissionsGoLive(was: set<Write>, answers: set<Write>, id: nat)
    requires Of(was, id) == {} && Of(answers, id) == answers
    ensures Of(was + answers, id) == answers && was + answers - answers == was
  {
    forall w | w in answers ensures w.evaluation == id { assert w in Of(answers, id); }
    forall w | w in was ensures w.evaluation != id { assert w in Of(was, id) <==> w.evaluation == id; }
  }

  datatype Tried = Tried(finished: bool, record: Record, begun: seq<nat>, published: Option<Publication>)

  /** Everything was opened and committed, every answer is live and every checkable step done. */
  ghost predicate PublishedWell(was: Replica, memory: Replica, y: Tally, checkable: seq<bool>) {
    && y.opens == FirstSteps(|checkable|) && y.commits == Backwards(|checkable|) && !y.failed
    && memory.live == was.live + y.answers && memory.done == was.done + Checkable(checkable, 0)
  }

  ghost predicate GivenUp(t: Tried, id: nat, was: Replica, memory: Replica, y: Tally, checkable: seq<bool>) {
    && !t.finished && t.record.id == id && y.opens == t.begun && t.begun == FirstSteps(|t.begun|) && y.aborts == []
        && y.kept == [] && y.taking.None?
    && (t.published.None? ==> Kept(was, memory))
    && (t.published.Some? ==>
        Kept(was, t.published.value.before) && t.published.value.after.tasks == was.tasks
        && memory == t.published.value.after.(edits := memory.edits)
        && PublishedWell(was, memory, y, checkable))
  }

  /** Open, run, commit, publish; stopped by the first call that fails. */
  method Attempt(d: Driver, g: Graph, checkable: seq<bool>, record: Record) returns (t: Tried)
    requires IsGraph(g) && |checkable| == |g| && record.effects == [] && !record.failed && JournalFirst(d.trace)
            && Tallied(d.trace) == NO_CALLS
    requires Of(d.memory.pending, record.id) == {}
    modifies d
    ensures JournalFirst(d.trace) && Tallied(d.trace).taking.None?
    ensures t.finished ==> CommittedWell(t.record, record.id, old(d.memory), d.memory, Tallied(d.trace), checkable,
            OrderOf(g))
                           || AwaitsWell(t.record, record.id, old(d.memory), d.memory, Tallied(d.trace), |g|,
                               OrderOf(g))
    ensures t.finished ==> d.disk == d.memory.(edits := d.disk.edits)
    ensures !t.finished ==> GivenUp(t, record.id, old(d.memory), d.memory, Tallied(d.trace), checkable)
  {
    var ok, begun := OpenAll(d, |g|);
    Whole(begun);
    if !ok { return Tried(false, record, begun, None); }
    var next := record.(status := Running);
    ok := SaveRecord(d, next);
    if !ok { return Tried(false, next, begun, None); }
    var awaiting;
    ghost var answers;
    ok, awaiting, next, answers := RunAll(d, OrderOf(g), |g|, next);
    if !ok { return Tried(false, next, begun, None); }
    Whole(Effects(next.effects));
    assert {} + answers == answers;
    next := next.(status := if awaiting then AwaitingReview else Committing);
    ok := SaveRecord(d, next);
    if !ok { return Tried(false, next, begun, None); }
    if awaiting { return Tried(true, next, begun, None); }
    ok := CommitAll(d, |g|);
    if !ok { return Tried(false, next, begun, None); }
    Whole(Backwards(|g|));
    SubmissionsGoLive(old(d.memory).pending, answers, record.id);
    var published;
    ok, published := Publish(d, checkable, next);
    next := next.(status := Committed);
    t := Tried(ok, next, begun, published);
  }

  /** What is live and done when an evaluation did not commit. */
  ghost predicate AsTaken(taking: Option<Taking>, r: Ending, was: Replica, memory: Replica, y: Tally,
      checkable: seq<bool>) {
    match taking
    case None => memory.live == was.live && memory.done == was.done
    case Some(Cleared) => memory.live == was.live && memory.done == was.done
    case Some(Mixed) =>
      && was.live <= memory.live <= was.live + y.answers
      && was.done <= memory.done <= was.done + Checkable(checkable, 0)
    case Some(Untaken) => r == Threw && PublishedWell(was, memory, y, checkable) && y.aborts == []
  }

  /**
   * All or nothing, of the replica in memory. A refused evaluation touches nothing. One that starts and returns its
   * record has either committed everything, or waits for review, or was rolled back. Unless it committed, nothing of it
   * is live and no step is done, even when it could not journal how it ended, but for one case: everything was
   * published, the save failed, and the restoring merge did not take the publication back. It kept some of it, or it
   * refused: then the evaluation throws with all of it still live and nothing aborted.
   */
  method EvaluateNode(d: Driver, g: Graph, checkable: seq<bool>, id: nat, started: int) returns (r: Ending)
    requires IsGraph(g) && |checkable| == |g| && Of(d.memory.pending, id) == {}
    modifies d
    ensures r.Refused? ==> d.memory == old(d.memory) && d.disk == old(d.disk) && d.trace == []
    ensures old(d.memory).journal.Some? && !Settled(old(d.memory).journal.value.status) ==> r.Refused?
    ensures JournalFirst(d.trace)
    ensures r.Returned? ==> Tallied(d.trace).opens == FirstSteps(|Tallied(d.trace).opens|)
    ensures r.Returned? ==> CommittedWell(r.record, id, old(d.memory), d.memory, Tallied(d.trace), checkable,
            OrderOf(g))
                            || AwaitsWell(r.record, id, old(d.memory), d.memory, Tallied(d.trace), |g|, OrderOf(g))
                            || RolledBackWell(r.record, id, Tallied(d.trace).opens, d.memory, Tallied(d.trace))
    ensures r.Returned? ==> d.disk == d.memory.(edits := d.disk.edits)
    ensures Tallied(d.trace).taking.Some? ==> !(r.Returned? && r.record.status == Committed)
    ensures !(r.Returned? && r.record.status == Committed) ==>
            AsTaken(Tallied(d.trace).taking, r, old(d.memory), d.memory, Tallied(d.trace), checkable)
  {
    d.trace := [];
    var journal := d.memory.journal;
    if journal.Some? && !Settled(journal.value.status) { return Refused; }
    var problems: bool := *;
    if |g| == 0 || problems { return Refused; }
    var record := Record(id, Opening, started, false, []);
    var ok := SaveRecord(d, record);
    if !ok { return Threw; }
    var t := Attempt(d, g, checkable, record);
    if t.finished { return Returned(t.record); }
    r := Rollback(d, t.record, t.begun, t.published, old(d.memory));
  }

  // ---------------------------------------------------------------------------
  // Recovery

  const BUDGET_MS := 120000

  /** A run that may still be under way is left alone for a minute past its budget. */
  predicate MayBeRunning(record: Record, now: int) {
    (record.status == Opening || record.status == Running || record.status == Committing)
        && now - record.started < BUDGET_MS + 60000
  }

  predicate Undone(e: Effect, doneTasks: set<nat>) {
    e.status == Manual && !(e.task.Some? && e.task.value in doneTasks)
  }

  /** Each effect of `before` as it is after recovery: reverted, or left to a person. */
  predicate Handed(before: seq<Effect>, after: seq<Effect>, tasks: set<nat>) {
    && |after| == |before| && Accounted(after, tasks)
    && forall i | 0 <= i < |before| :: after[i].step == before[i].step
        && (after[i].status == Reverted <==> before[i].status == Reverted)
                                       && (before[i].task.Some? ==> after[i].task == before[i].task)
  }

  /**
   * Recovery of an interrupted run, None where the run may still be going on. Every effect not reverted gets a task;
   * the node may be evaluated again exactly when all those tasks are done.
   */
  method RecoverEvaluation(r: Replica, doneTasks: set<nat>, now: int) returns (next: Option<Replica>)
    ensures r.journal.None? || Settled(r.journal.value.status) ==> next == Some(r)
    ensures r.journal.Some? && !Settled(r.journal.value.status) ==>
              && (next.None? <==> MayBeRunning(r.journal.value, now))
              && (next.Some? ==>
                  next.value.journal.Some?
                  && next.value == r.(journal := next.value.journal, tasks := next.value.tasks)
                  && r.tasks <= next.value.tasks)
    ensures r.journal.Some? && !Settled(r.journal.value.status) && next.Some? ==>
              var after := next.value.journal.value;
              && after == r.journal.value.(status := after.status, effects := after.effects)
              && Handed(r.journal.value.effects, after.effects, next.value.tasks)
              && after.status == (if exists e | e in after.effects :: Undone(e, doneTasks) then NeedsRecovery
                  else RolledBack)
  {
    if r.journal.None? || Settled(r.journal.value.status) { return Some(r); }
    var record := r.journal.value;
    if MayBeRunning(record, now) { return None; }
    var effects, tasks := [], r.tasks;
    for i := 0 to |record.effects|
      invariant r.tasks <= tasks && Handed(record.effects[..i], effects, tasks)
    {
      var effect := record.effects[i];
      if effect.status != Reverted {
        if effect.task.None? || effect.task.value !in tasks {
          var created: nat := *;
          effect := effect.(task := if effect.task.Some? then effect.task else Some(created));
          tasks := tasks + {effect.task.value};
        }
        effect := effect.(status := Manual);
      }
      HandedNext(record.effects, i, effects, effect, tasks);
      effects := effects + [effect];
    }
    assert record.effects[..|record.effects|] == record.effects;
    var pending := exists e | e in effects :: Undone(e, doneTasks);
    next := Some(r.(journal := Some(record.(effects := effects,
        status := if pending then NeedsRecovery else RolledBack)), tasks := tasks));
  }

  lemma HandedNext(before: seq<Effect>, i: nat, effects: seq<Effect>, effect: Effect, tasks: set<nat>)
    requires i < |before| && Handed(before[..i], effects, tasks)
    requires effect.step == before[i].step && (effect.status == Reverted <==> before[i].status == Reverted)
    requires before[i].task.Some? ==> effect.task == before[i].task
    requires Accounted([effect], tasks)
    ensures Handed(before[..i + 1], effects + [effect], tasks)
  {
    assert before[..i + 1] == before[..i] + [before[i]];
    assert Accounted([effect], tasks) && effect in [effect];
    assert forall e | e in effects + [effect] :: e in effects || e == effect;
  }
}
