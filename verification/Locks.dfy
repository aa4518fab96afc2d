/**
 * Per-account queues of promises, and taking several of them in order.
 *
 * Each call of `withUserLock` is a ticket: it waits for the ticket that was last in its account's queue when it came,
 * runs once that one has settled, whether it succeeded or failed, and settles. A queue entry is deleted only by its
 * last ticket.
 */
module Locks {
  import opened Options
  import opened Text

  type Key = string

  datatype Status = Waiting | Running | Settled

  datatype Ticket = Ticket(key: Key, prev: Option<nat>, owner: nat, status: Status)

  /** A caller on its way through its accounts: taking them in order, at work, or giving them back from the last. */
  datatype Phase = Acquiring | Working | Releasing | Finished
  datatype Worker = Worker(keys: seq<Key>, held: seq<nat>, phase: Phase)

  /**
   * `tail`: the last ticket of each account whose queue entry has not been deleted. Tickets are in order of arrival.
   */
  datatype State = State(tail: map<Key, nat>, tickets: seq<Ticket>, workers: seq<Worker>)

  predicate IsSettled(s: State, t: Option<nat>) {
    t.Some? ==> t.value < |s.tickets| && s.tickets[t.value].status.Settled?
  }

  predicate LastRuns(s: State, w: Worker) {
    w.held == [] || (w.held[|w.held| - 1] < |s.tickets| && s.tickets[w.held[|w.held| - 1]].status.Running?)
  }

  // ---------------------------------------------------------------------------
  // Steps

  datatype Step =
    | Call(worker: nat)
    | Start(ticket: nat)
    | Enter(worker: nat)
    | Leave(worker: nat)
    | Settle(worker: nat)
    | Clean(ticket: nat)

  predicate Enabled(s: State, a: Step) {
    match a
    case Call(w) => w < |s.workers| && s.workers[w].phase.Acquiring? && |s.workers[w].held| < |s.workers[w].keys|
        && LastRuns(s, s.workers[w])
    case Start(t) => t < |s.tickets| && s.tickets[t].status.Waiting? && IsSettled(s, s.tickets[t].prev)
    case Enter(w) => w < |s.workers| && s.workers[w].phase.Acquiring? && |s.workers[w].held| == |s.workers[w].keys|
        && LastRuns(s, s.workers[w])
    case Leave(w) => w < |s.workers| && s.workers[w].phase.Working?
    case Settle(w) => w < |s.workers| && s.workers[w].phase.Releasing? && LastRuns(s, s.workers[w])
    case Clean(t) =>
      t < |s.tickets| && s.tickets[t].status.Settled? && s.tickets[t].key in s.tail && s.tail[s.tickets[t].key] == t
  }

  function At(tail: map<Key, nat>, key: Key): Option<nat> { if key in tail then Some(tail[key]) else None }

  function SetWorker(s: State, w: nat, worker: Worker): State
    requires w < |s.workers|
  {
    s.(workers := s.workers[w := worker])
  }

  function SetStatus(s: State, t: nat, status: Status): State
    requires t < |s.tickets|
  {
    s.(tickets := s.tickets[t := s.tickets[t].(status := status)])
  }

  /**
   * The next account's queue is joined while the accounts before it are held; the innermost lock is given back first.
   */
  function Next(s: State, a: Step): State
    requires Enabled(s, a)
  {
    match a
    case Call(w) =>
      var worker := s.workers[w];
      var key := worker.keys[|worker.held|];
      State(s.tail[key := |s.tickets|], s.tickets + [Ticket(key, At(s.tail, key), w, Waiting)],
        s.workers[w := worker.(held := worker.held + [|s.tickets|])])
    case Start(t) => SetStatus(s, t, Running)
    case Enter(w) => SetWorker(s, w, s.workers[w].(phase := Working))
    case Leave(w) => SetWorker(s, w, s.workers[w].(phase := Releasing))
    case Settle(w) =>
      var worker := s.workers[w];
      if worker.held == [] then SetWorker(s, w, worker.(phase := Finished))
      else
        var last := worker.held[|worker.held| - 1];
        SetWorker(SetStatus(s, last, Settled), w, worker.(held := worker.held[..|worker.held| - 1]))
    case Clean(t) => s.(tail := s.tail - {s.tickets[t].key})
  }

  // ---------------------------------------------------------------------------
  // Taking several

  predicate StrictlySorted(keys: seq<Key>) { forall i, k | 0 <= i < k < |keys| :: Before(keys[i], keys[k]) }

  /** The accounts a caller names, each once, in order. */
  ghost function LockOrder(names: seq<Key>): seq<Key> { Listed((set name | name in names), Sorted) }

  lemma LockOrderSorted(names: seq<Key>)
    ensures StrictlySorted(LockOrder(names))
    ensures forall key :: key in LockOrder(names) <==> key in names
  {
    var all := set name | name in names;
    ListedOnce(all, Sorted);
    ListedInOrder(all, Sorted);
    forall i, k | 0 <= i < k < |LockOrder(names)| ensures Before(LockOrder(names)[i], LockOrder(names)[k]) {
      BeforeIsTotal(LockOrder(names)[i], LockOrder(names)[k]);
    }
  }

  /** Callers with the accounts they name, none of them begun. */
  ghost predicate Begins(s: State) {
    s.tail == map[] && s.tickets == [] && forall w | w in s.workers ::
        w.held == [] && w.phase.Acquiring?
        && StrictlySorted(w.keys)
  }

  // ---------------------------------------------------------------------------
  // In place

  /** The process's table of queues, with the promises chained in it and the callers waiting on them. */
  class UserQueues {
    var tail: map<Key, nat>
    var tickets: seq<Ticket>
    var workers: seq<Worker>

    function Abstract(): State
      reads this
    {
      State(tail, tickets, workers)
    }

    constructor (callers: seq<seq<Key>>)
      requires forall keys | keys in callers :: StrictlySorted(keys)
      ensures Begins(Abstract()) && |workers| == |callers|
              && forall i | 0 <= i < |callers| :: workers[i].keys == callers[i]
    {
      tail, tickets := map[], [];
      workers := seq(|callers|, i requires 0 <= i < |callers| => Worker(callers[i], [], Acquiring));
    }

    /** Chain a promise after the account's last one, if its entry is there, and become the last. */
    method Join(w: nat)
      requires Enabled(Abstract(), Call(w))
      modifies this
      ensures Abstract() == Next(old(Abstract()), Call(w))
    {
      var key, t := workers[w].keys[|workers[w].held|], |tickets|;
      var previous := if key in tail then Some(tail[key]) else None;
      tickets := tickets + [Ticket(key, previous, w, Waiting)];
      tail := tail[key := t];
      workers := workers[w := workers[w].(held := workers[w].held + [t])];
    }

    /** The promise before it has settled, well or not: the function runs. */
    method Begin(t: nat)
      requires Enabled(Abstract(), Start(t))
      modifies this`tickets
      ensures Abstract() == Next(old(Abstract()), Start(t))
    {
      tickets := tickets[t := tickets[t].(status := Running)];
    }

    /** The innermost function a caller still runs returns or fails: its promise settles. */
    method GiveBack(w: nat)
      requires Enabled(Abstract(), Settle(w))
      modifies this`tickets, this`workers
      ensures Abstract() == Next(old(Abstract()), Settle(w))
    {
      var worker := workers[w];
      if worker.held == [] {
        workers := workers[w := worker.(phase := Finished)];
      } else {
        var last := worker.held[|worker.held| - 1];
        tickets := tickets[last := tickets[last].(status := Settled)];
        workers := workers[w := worker.(held := worker.held[..|worker.held| - 1])];
      }
    }

    /** After a promise settles: delete the account's entry if it is still this promise's. */
    method Forget(t: nat)
      requires t < |tickets| && tickets[t].status.Settled?
      modifies this`tail
      ensures Abstract() == if Enabled(old(Abstract()), Clean(t)) then Next(old(Abstract()), Clean(t))
              else old(Abstract())
    {
      var key := tickets[t].key;
      if key in tail && tail[key] == t { tail := tail - {key}; }
    }
  }
}
