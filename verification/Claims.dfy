/** Leases on work: who holds which part of a tree, and which operations that keeps others from. */
module Claims {
  import opened Options

  type Scope = seq<string>
  type Branches = map<string, string>

  /** A lease by a peer's session, made at an attachment, on a path, in the branches selected along it. */
  datatype WorkClaim = WorkClaim(id: string, peer: string, session: string, attachment: Scope, path: Scope,
      branches: Branches, expiresAt: int)

  const LEASE_MS := 15 * 60 * 1000
  const MAX_CLAIMS := 256
  const MAX_PATH := 64
  const MAX_ID := 128

  predicate Within(path: Scope, root: Scope) { root <= path }

  predicate ValidPath(path: Scope) {
    |path| <= MAX_PATH && forall id | id in path :: 0 < |id| <= MAX_ID && id != "." && id != ".."
  }

  predicate WellFormed(c: WorkClaim) {
    && ValidPath(c.attachment) && ValidPath(c.path) && Within(c.path, c.attachment)
    && forall id | id in c.branches :: c.branches[id] != ""
  }

  /** Two branch selections name different branches of some node. */
  predicate Differ(a: Branches, b: Branches) { exists id | id in a :: id in b && b[id] != a[id] }

  predicate Overlaps(c: WorkClaim, path: Scope, branches: Branches) {
    (Within(path, c.path) || Within(c.path, path)) && !Differ(c.branches, branches)
  }

  /** The leases that count now. */
  function Live(claims: seq<WorkClaim>, now: int): seq<WorkClaim> {
    if claims == [] then []
    else (if WellFormed(claims[0]) && claims[0].expiresAt > now then [claims[0]] else []) + Live(claims[1..], now)
  }

  /** Who acts, from where in the tree. */
  datatype Principal = Principal(peer: string, session: string, attachment: Scope)

  predicate Holds(c: WorkClaim, p: Principal) {
    c.peer == p.peer && c.session == p.session && c.attachment == p.attachment
  }

  function Active(live: seq<WorkClaim>, p: Principal): Option<WorkClaim> {
    if live == [] then None else if Holds(live[0], p) then Some(live[0]) else Active(live[1..], p)
  }

  // ---------------------------------------------------------------------------
  // Events

  /** A change of a submission; one that fails leaves the changes before it applied until the event is undone. */
  datatype Change = Change(path: Scope, succeeds: bool, edit: string)

  datatype Kind =
    | Status
    | Release(claim: string)
    | Renew(claim: string)
    | Claim
    | Read
    | Complete
    | Decide
    | Invite
    | Input
    | Branch
    | Submit(changes: seq<Change>)

  /**
   * `workClaim`: the lease the operation is done under; `mcp`: it comes from an agent's tools. `permitted` stands for
   * every check the leases do not decide: grants, masks, revisions, whether the row is outstanding.
   */
  datatype Event = Event(kind: Kind, path: Scope, workClaim: Option<string>, mcp: bool, permitted: bool,
      edit: Option<string>)

  predicate IsWork(k: Kind) { k.Status? || k.Release? || k.Renew? || k.Claim? }

  predicate Guarded(k: Kind) { k.Complete? || k.Input? || k.Branch? || k.Decide? }

  /** The branches selected along a path. */
  type Selection = Scope -> Branches

  predicate AnyOverlaps(live: seq<WorkClaim>, path: Scope, branches: Branches) {
    exists c | c in live :: Overlaps(c, path, branches)
  }

  /** The lease an operation is done under, when it names one. */
  function Scoped(live: seq<WorkClaim>, e: Event, p: Principal): Option<WorkClaim> {
    if e.workClaim.Some? then Active(live, p) else None
  }

  /** Where an event's paths start: at its lease, else at the attachment. */
  function Origin(live: seq<WorkClaim>, e: Event, p: Principal): Scope {
    if Scoped(live, e, p).Some? then Scoped(live, e, p).value.path else p.attachment
  }

  /** The lease is the one named, an agent with a lease works under it, and the lease's branches are still selected. */
  predicate Admitted(live: seq<WorkClaim>, e: Event, p: Principal, at: Selection) {
    var active := Active(live, p);
    && (e.workClaim.Some? ==> active.Some? && active.value.id == e.workClaim.value)
    && (e.mcp && active.Some? && !IsWork(e.kind) ==> e.workClaim.Some?)
    && (Scoped(live, e, p).Some? ==> forall id | id in active.value.branches ::
        id in at(active.value.path)
        && at(active.value.path)[id] == active.value.branches[id])
  }

  /** What leases ask of an operation. */
  predicate Unclaimed(live: seq<WorkClaim>, e: Event, p: Principal, at: Selection) {
    var origin := Origin(live, e, p);
    if IsWork(e.kind) || e.kind.Read? || e.kind.Invite? || Scoped(live, e, p).Some? then true
    else if Guarded(e.kind) then !AnyOverlaps(live, origin + e.path, at(origin + e.path))
    else forall c | c in e.kind.changes :: !AnyOverlaps(live, origin + c.path, at(origin + c.path))
  }

  /** Whether a lease operation goes through. */
  predicate LeaseAllowed(live: seq<WorkClaim>, e: Event, p: Principal, at: Selection)
    requires IsWork(e.kind)
  {
    var active, origin := Active(live, p), Origin(live, e, p);
    match e.kind
    case Status => true
    case Release(id) => active.Some? && active.value.id == id
    case Renew(id) => e.permitted && active.Some? && active.value.id == id
    case Claim => e.permitted && active.None? && e.path != []
        && !AnyOverlaps(live, origin + e.path, at(origin + e.path)) && |live| < MAX_CLAIMS
    case _ => false
  }

  function Dropped(live: seq<WorkClaim>, id: string): seq<WorkClaim> {
    if live == [] then [] else (if live[0].id == id then [] else [live[0]]) + Dropped(live[1..], id)
  }

  function Renewed(live: seq<WorkClaim>, id: string, until: int): seq<WorkClaim> {
    if live == [] then [] else
        [if live[0].id == id then live[0].(expiresAt := until) else live[0]]
        + Renewed(live[1..], id, until)
  }

  function NewClaim(e: Event, p: Principal, at: Selection, now: int, id: string): WorkClaim {
    WorkClaim(id, p.peer, p.session, p.attachment, p.attachment + e.path, at(p.attachment + e.path), now + LEASE_MS)
  }

  /**
   * The leases to store after an event that goes through; None when they stay as they are stored. `changed`: a
   * submission that changed something.
   */
  function NextClaims(live: seq<WorkClaim>, e: Event, p: Principal, at: Selection, now: int, id: string,
      changed: bool): Option<seq<WorkClaim>> {
    match e.kind
    case Release(claim) => Some(Dropped(live, claim))
    case Renew(claim) => Some(Renewed(live, claim, now + LEASE_MS))
    case Claim => Some(live + [NewClaim(e, p, at, now, id)])
    case Submit(_) => if changed && Scoped(live, e, p).Some? then Some(Dropped(live, Scoped(live, e, p).value.id))
        else None
    case _ => None
  }

  predicate Allowed(live: seq<WorkClaim>, e: Event, p: Principal, at: Selection) {
    Admitted(live, e, p, at) && (if IsWork(e.kind) then LeaseAllowed(live, e, p, at) else
        e.permitted
        && Unclaimed(live, e, p, at))
  }

  // ---------------------------------------------------------------------------
  // The host

  /** The account's root: its leases and everything else, as the edits that made it. */
  datatype Root = Root(claims: seq<WorkClaim>, edits: seq<string>)

  class Host {
    var root: Root

    constructor ()
      ensures root == Root([], [])
    {
      root := Root([], []);
    }

    /** Apply changes to the live root one by one; false at the first that fails, with those before it applied. */
    method ApplyChanges(changes: seq<Change>) returns (ok: bool)
      modifies this
      ensures root.claims == old(root.claims) && old(root.edits) <= root.edits
      ensures ok <==> forall c | c in changes :: c.succeeds
      ensures ok ==> |root.edits| == |old(root.edits)| + |changes|
      ensures ok ==> forall i | 0 <= i < |changes| :: root.edits[|old(root.edits)| + i] == changes[i].edit
    {
      for i := 0 to |changes|
        invariant root.claims == old(root.claims) && old(root.edits) <= root.edits
                && |root.edits| == |old(root.edits)| + i
        invariant forall c | c in changes[..i] :: c.succeeds
        invariant forall k | 0 <= k < i :: root.edits[|old(root.edits)| + k] == changes[k].edit
      {
        assert changes[..i + 1] == changes[..i] + [changes[i]];
        if !changes[i].succeeds { return false; }
        root := root.(edits := root.edits + [changes[i].edit]);
      }
      assert changes[..|changes|] == changes;
      ok := true;
    }

    method Dispatch(e: Event, p: Principal, at: Selection, now: int, id: string) returns (ok: bool)
      modifies this
      ensures ok ==> Allowed(Live(old(root.claims), now), e, p, at)
      ensures ok ==> exists changed ::
              (changed <==> root.edits != old(root.edits))
              && Stored(old(root.claims), Live(old(root.claims), now), e, p, at, now, id, changed) == root.claims
      ensures ok && (IsWork(e.kind) || e.kind.Read?) ==> root.edits == old(root.edits)
      ensures !ok && Allowed(Live(old(root.claims), now), e, p, at)
              ==> e.kind.Submit? && exists c | c in e.kind.changes :: !c.succeeds
    {
      var before, live := root, Live(root.claims, now);
      if !Admitted(live, e, p, at) { return false; }
      if IsWork(e.kind) {
        ok := LeaseAllowed(live, e, p, at);
        if !ok { return; }
      } else {
        ok := e.permitted && Unclaimed(live, e, p, at);
        if !ok { return; }
        if e.kind.Read? {
          assert Stored(root.claims, live, e, p, at, now, id, false) == root.claims;
          return;
        }
        if e.kind.Submit? {
          ok := ApplyChanges(e.kind.changes);
          if !ok { return; }
        } else if e.edit.Some? {
          root := root.(edits := root.edits + [e.edit.value]);
        }
      }
      var changed := root.edits != before.edits;
      var next := NextClaims(live, e, p, at, now, id, changed);
      if next.Some? { root := root.(claims := next.value); }
      ok := true;
      assert Stored(old(root.claims), live, e, p, at, now, id, changed) == root.claims;
    }

    /** An event that fails leaves the root as it was, however far it got. */
    method DispatchEvent(e: Event, p: Principal, at: Selection, now: int, id: string) returns (ok: bool)
      modifies this
      ensures !ok ==> root == old(root)
      ensures ok ==> Allowed(Live(old(root.claims), now), e, p, at)
      ensures ok ==> exists changed ::
              (changed <==> root.edits != old(root.edits))
              && Stored(old(root.claims), Live(old(root.claims), now), e, p, at, now, id, changed) == root.claims
    {
      var before := root;
      ok := Dispatch(e, p, at, now, id);
      if !ok { root := before; }
    }
  }

  function Stored(claims: seq<WorkClaim>, live: seq<WorkClaim>, e: Event, p: Principal, at: Selection, now: int,
      id: string, changed: bool): seq<WorkClaim> {
    match NextClaims(live, e, p, at, now, id, changed) case Some(next) => next case None => claims
  }
}
