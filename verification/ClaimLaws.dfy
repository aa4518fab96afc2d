/** Leases exclude each other in every reachable state, and operations stay out of what others hold. */
module ClaimLaws {
  import opened Options
  import opened Claims

  lemma OverlapIsSymmetric(c: WorkClaim, d: WorkClaim)
    ensures Overlaps(c, d.path, d.branches) <==> Overlaps(d, c.path, c.branches)
  {
    if Differ(c.branches, d.branches) {
      var id :| id in c.branches && id in d.branches && d.branches[id] != c.branches[id];
      assert id in d.branches && id in c.branches && c.branches[id] != d.branches[id];
    }
    if Differ(d.branches, c.branches) {
      var id :| id in d.branches && id in c.branches && c.branches[id] != d.branches[id];
      assert id in c.branches && id in d.branches && d.branches[id] != c.branches[id];
    }
  }

  predicate SameHolder(c: WorkClaim, d: WorkClaim) {
    c.peer == d.peer && c.session == d.session && c.attachment == d.attachment
  }

  predicate Compatible(c: WorkClaim, d: WorkClaim) {
    !Overlaps(c, d.path, d.branches) && c.id != d.id && !SameHolder(c, d)
  }

  predicate CompatibleWithAll(c: WorkClaim, others: seq<WorkClaim>) { forall d | d in others :: Compatible(c, d) }

  /** No two leases overlap, share an id or are held by the same session at the same attachment. */
  predicate Exclusive(claims: seq<WorkClaim>) {
    claims == [] || (CompatibleWithAll(claims[0], claims[1..]) && Exclusive(claims[1..]))
  }

  lemma {:induction false} ExclusivePairs(claims: seq<WorkClaim>, i: nat, k: nat)
    requires Exclusive(claims) && i < k < |claims|
    ensures Compatible(claims[i], claims[k])
  {
    if i == 0 {
      assert claims[k] == claims[1..][k - 1];
    } else {
      ExclusivePairs(claims[1..], i - 1, k - 1);
    }
  }

  lemma {:induction false} LiveIn(claims: seq<WorkClaim>, now: int)
    ensures forall c :: c in Live(claims, now) <==> c in claims && WellFormed(c) && c.expiresAt > now
    ensures |Live(claims, now)| <= |claims|
  {
    if claims != [] {
      LiveIn(claims[1..], now);
      assert claims == [claims[0]] + claims[1..];
    }
  }

  /** Leases running out leave the rest exclusive. */
  lemma {:induction false} LiveExclusive(claims: seq<WorkClaim>, now: int)
    requires Exclusive(claims)
    ensures Exclusive(Live(claims, now))
  {
    if claims != [] {
      LiveExclusive(claims[1..], now);
      LiveIn(claims[1..], now);
      ConsExclusive(claims[0], Live(claims[1..], now));
      assert [] + Live(claims[1..], now) == Live(claims[1..], now);
    }
  }

  lemma ConsExclusive(c: WorkClaim, rest: seq<WorkClaim>)
    requires CompatibleWithAll(c, rest) && Exclusive(rest)
    ensures Exclusive([c] + rest)
  {
    assert ([c] + rest)[1..] == rest;
  }

  lemma {:induction false} DroppedIn(live: seq<WorkClaim>, id: string)
    ensures forall c :: c in Dropped(live, id) <==> c in live && c.id != id
    ensures |Dropped(live, id)| <= |live|
  {
    if live != [] {
      DroppedIn(live[1..], id);
      assert live == [live[0]] + live[1..];
    }
  }

  lemma {:induction false} DroppedExclusive(live: seq<WorkClaim>, id: string)
    requires Exclusive(live)
    ensures Exclusive(Dropped(live, id))
  {
    if live != [] {
      DroppedExclusive(live[1..], id);
      DroppedIn(live[1..], id);
      ConsExclusive(live[0], Dropped(live[1..], id));
      assert [] + Dropped(live[1..], id) == Dropped(live[1..], id);
    }
  }

  lemma {:induction false} RenewedExclusive(live: seq<WorkClaim>, id: string, until: int)
    requires Exclusive(live)
    ensures Exclusive(Renewed(live, id, until)) && |Renewed(live, id, until)| == |live|
    ensures forall r | r in Renewed(live, id, until) :: exists c | c in live :: r == c || r == c.(expiresAt := until)
  {
    if live != [] {
      RenewedExclusive(live[1..], id, until);
      var head := if live[0].id == id then live[0].(expiresAt := until) else live[0];
      var rest := Renewed(live[1..], id, until);
      forall r | r in rest ensures Compatible(head, r) {
        var c :| c in live[1..] && (r == c || r == c.(expiresAt := until));
        assert Compatible(live[0], c);
      }
      ConsExclusive(head, rest);
      assert live == [live[0]] + live[1..];
    }
  }

  lemma {:induction false} AppendExclusive(live: seq<WorkClaim>, c: WorkClaim)
    requires Exclusive(live) && forall d | d in live :: Compatible(d, c)
    ensures Exclusive(live + [c])
  {
    if live == [] {
      assert [] + [c] == [c] && [c][1..] == [];
    } else {
      assert forall d | d in live[1..] :: d in live;
      AppendExclusive(live[1..], c);
      assert (live + [c])[1..] == live[1..] + [c];
      assert live[0] in live;
    }
  }

  lemma {:induction false} NoActive(live: seq<WorkClaim>, p: Principal)
    ensures Active(live, p).None? <==> forall c | c in live :: !Holds(c, p)
    ensures Active(live, p).Some? ==> Active(live, p).value in live && Holds(Active(live, p).value, p)
  {
    if live != [] {
      NoActive(live[1..], p);
      assert live == [live[0]] + live[1..];
    }
  }

  /** Each event keeps the stored leases exclusive and at most 256. */
  lemma EventKeepsExclusive(claims: seq<WorkClaim>, e: Event, p: Principal, at: Selection, now: int, id: string,
      changed: bool)
    requires Exclusive(claims) && |claims| <= MAX_CLAIMS && Allowed(Live(claims, now), e, p, at)
    requires forall c | c in claims :: c.id != id
    ensures var next := Stored(claims, Live(claims, now), e, p, at, now, id, changed);
            Exclusive(next) && |next| <= MAX_CLAIMS
  {
    var live := Live(claims, now);
    LiveIn(claims, now);
    LiveExclusive(claims, now);
    match e.kind
    case Release(claim) =>
      DroppedExclusive(live, claim);
      DroppedIn(live, claim);
    case Renew(claim) =>
      RenewedExclusive(live, claim, now + LEASE_MS);
    case Submit(_) =>
      if Scoped(live, e, p).Some? {
        DroppedExclusive(live, Scoped(live, e, p).value.id);
        DroppedIn(live, Scoped(live, e, p).value.id);
      }
    case Claim =>
      var c := NewClaim(e, p, at, now, id);
      NoActive(live, p);
      forall d | d in live ensures Compatible(d, c) { assert d in claims && !Overlaps(d, c.path, c.branches); }
      AppendExclusive(live, c);
    case _ =>
  }

  // ---------------------------------------------------------------------------
  // Runs

  /**
   * One event as it came, with the identity drawn for a lease, whether it got through, and whether it changed anything.
   */
  datatype Call = Call(e: Event, p: Principal, at: Selection, now: int, id: string, passes: bool, changed: bool)

  function After(claims: seq<WorkClaim>, c: Call): seq<WorkClaim> {
    var live := Live(claims, c.now);
    if c.passes && Allowed(live, c.e, c.p, c.at) then Stored(claims, live, c.e, c.p, c.at, c.now, c.id, c.changed)
        else claims
  }

  function Run(calls: seq<Call>): seq<WorkClaim> {
    if calls == [] then [] else After(Run(calls[..|calls| - 1]), calls[|calls| - 1])
  }

  /** New leases get ids no stored lease has. */
  predicate FreshIds(calls: seq<Call>) {
    calls == [] || (FreshIds(calls[..|calls| - 1])
        && forall c | c in Run(calls[..|calls| - 1]) :: c.id != calls[|calls| - 1].id)
  }

  /**
   * In every state any events reach, whoever sends them and however time passes: live leases do not overlap, a session
   * holds at most one at an attachment, and there are at most 256.
   */
  lemma {:induction false} ClaimsAreExclusive(calls: seq<Call>, now: int)
    requires FreshIds(calls)
    ensures Exclusive(Run(calls)) && |Run(calls)| <= MAX_CLAIMS
    ensures Exclusive(Live(Run(calls), now)) && |Live(Run(calls), now)| <= MAX_CLAIMS
  {
    if calls != [] {
      var before, c := Run(calls[..|calls| - 1]), calls[|calls| - 1];
      ClaimsAreExclusive(calls[..|calls| - 1], now);
      if c.passes && Allowed(Live(before, c.now), c.e, c.p, c.at) {
        EventKeepsExclusive(before, c.e, c.p, c.at, c.now, c.id, c.changed);
      }
    }
    LiveExclusive(Run(calls), now);
    LiveIn(Run(calls), now);
  }

  // ---------------------------------------------------------------------------
  // Operations and others' leases

  /** Branches selected along a path stay selected further down it. */
  predicate Deepens(at: Selection, above: Scope, below: Scope) {
    forall id | id in at(above) :: id in at(below) && at(below)[id] == at(above)[id]
  }

  /** Work done under a lease stays clear of every other lease, however deep below its own path it goes. */
  lemma ScopedStaysClear(own: WorkClaim, other: WorkClaim, path: Scope, at: Selection)
    requires !Overlaps(other, own.path, own.branches) && Within(path, own.path) && Deepens(at, own.path, path)
    requires forall id | id in own.branches :: id in at(own.path) && at(own.path)[id] == own.branches[id]
    ensures !Overlaps(other, path, at(path))
  {
    Comparable(own.path, other.path, path);
    if Within(own.path, other.path) || Within(other.path, own.path) {
      var id :| id in other.branches && id in own.branches && own.branches[id] != other.branches[id];
      assert id in other.branches && id in at(path) && at(path)[id] != other.branches[id];
    }
  }

  lemma Comparable(own: Scope, other: Scope, path: Scope)
    requires own <= path
    ensures other <= path || path <= other ==> own <= other || other <= own
  {
    if other <= path && |other| <= |own| {
      assert other == path[..|other|] == own[..|other|];
    } else if other <= path {
      assert own == path[..|own|] == other[..|own|];
    }
  }

  /** The paths an event acts on. */
  predicate ActsOn(e: Event, rel: Scope) {
    (Guarded(e.kind) && rel == e.path) || (e.kind.Submit? && exists c | c in e.kind.changes :: c.path == rel)
  }

  lemma {:induction false} OthersAreApart(live: seq<WorkClaim>, own: WorkClaim, other: WorkClaim)
    requires Exclusive(live) && own in live && other in live && other.id != own.id
    ensures !Overlaps(other, own.path, own.branches)
  {
    var i :| 0 <= i < |live| && live[i] == own;
    var k :| 0 <= k < |live| && live[k] == other;
    if i < k { ExclusivePairs(live, i, k); } else { ExclusivePairs(live, k, i); }
    OverlapIsSymmetric(own, other);
  }

  /**
   * Completing, answering, branching, deciding or submitting never succeeds on a path that overlaps a live lease, other
   * than the one the operation itself is done under.
   */
  lemma OperationsStayClear(claims: seq<WorkClaim>, e: Event, p: Principal, at: Selection, now: int, rel: Scope,
      c: WorkClaim)
    requires Exclusive(claims) && Allowed(Live(claims, now), e, p, at) && ActsOn(e, rel) && c in Live(claims, now)
    requires forall above, below | Within(below, above) :: Deepens(at, above, below)
    requires Scoped(Live(claims, now), e, p).Some? ==> c.id != Scoped(Live(claims, now), e, p).value.id
    ensures var path := Origin(Live(claims, now), e, p) + rel;
            !Overlaps(c, path, at(path))
  {
    var live := Live(claims, now);
    var path := Origin(live, e, p) + rel;
    NoActive(live, p);
    if Scoped(live, e, p).Some? {
      var own := Scoped(live, e, p).value;
      LiveExclusive(claims, now);
      OthersAreApart(live, own, c);
      assert Within(path, own.path);
      ScopedStaysClear(own, c, path, at);
    }
  }

  /** The leases there would be if no one else had any. */
  function Own(live: seq<WorkClaim>, p: Principal): seq<WorkClaim> {
    match Active(live, p) case Some(c) => [c] case None => []
  }

  lemma OwnActive(live: seq<WorkClaim>, e: Event, p: Principal)
    ensures Active(Own(live, p), p) == Active(live, p)
    ensures Origin(Own(live, p), e, p) == Origin(live, e, p) && Scoped(Own(live, p), e, p) == Scoped(live, e, p)
  {
    NoActive(live, p);
    ActiveHolds(live, p);
  }

  lemma {:induction false} ActiveHolds(live: seq<WorkClaim>, p: Principal)
    ensures Active(live, p).Some? ==> Active(live, p).value in live && Holds(Active(live, p).value, p)
  {
    if live != [] && !Holds(live[0], p) { ActiveHolds(live[1..], p); }
  }

  /** Someone's lease overlaps a path the event acts on. */
  ghost predicate Meets(live: seq<WorkClaim>, e: Event, p: Principal, at: Selection) {
    exists rel :: ActsOn(e, rel) && AnyOverlaps(live, Origin(live, e, p) + rel, at(Origin(live, e, p) + rel))
  }

  /**
   * What leases hold back, of what goes through when no one else has any: claiming a path that overlaps a lease, or
   * when there are as many as there may be; and completing, answering, branching, deciding or submitting on such a
   * path, unless done under a lease of one's own. Nothing else: reading, inviting, and seeing, renewing or releasing a
   * lease never are.
   */
  lemma LeasesHoldBack(live: seq<WorkClaim>, e: Event, p: Principal, at: Selection)
    requires Allowed(Own(live, p), e, p, at)
    ensures !Allowed(live, e, p, at)
            <==> if e.kind.Claim? then |live| >= MAX_CLAIMS
                || AnyOverlaps(live, Origin(live, e, p) + e.path, at(Origin(live, e, p) + e.path))
                 else Scoped(live, e, p).None? && Meets(live, e, p, at)
  {
    OwnActive(live, e, p);
    if !IsWork(e.kind) { UnclaimedMeets(live, e, p, at); }
  }

  lemma UnclaimedMeets(live: seq<WorkClaim>, e: Event, p: Principal, at: Selection)
    requires !IsWork(e.kind)
    ensures !Unclaimed(live, e, p, at) <==> Scoped(live, e, p).None? && Meets(live, e, p, at)
  {
    if Guarded(e.kind) && AnyOverlaps(live, Origin(live, e, p) + e.path, at(Origin(live, e, p) + e.path)) {
      assert ActsOn(e, e.path);
    }
    if e.kind.Submit? {
      forall c | c in e.kind.changes ensures ActsOn(e, c.path) {}
    }
  }

  /**
   * A lease just granted counts exactly when its path is one the store reads back: at most 64 names of at most 128
   * characters.
   */
  lemma GrantedIsLive(claims: seq<WorkClaim>, e: Event, p: Principal, at: Selection, now: int, id: string)
    requires e.kind.Claim? && Allowed(Live(claims, now), e, p, at) && ValidPath(p.attachment)
    requires forall i | i in at(p.attachment + e.path) :: at(p.attachment + e.path)[i] != ""
    requires forall c | c in claims :: c.id != id
    ensures NewClaim(e, p, at, now, id) in Live(Stored(claims, Live(claims, now), e, p, at, now, id, false), now)
            <==> ValidPath(p.attachment + e.path)
  {
    var next := Stored(claims, Live(claims, now), e, p, at, now, id, false);
    LiveIn(next, now);
    LiveIn(claims, now);
    assert next[|next| - 1] == NewClaim(e, p, at, now, id);
  }

  /** Names of a path as deep as one attachment and one event can make it. */
  function Names(n: nat): Scope { seq(n, i => "row") }

  const DEEP := Principal("peer", "session", Names(40))
  const DEEP_CLAIM := Event(Claim, Names(30), None, false, true, None)

  /** A lease that is granted and, from the next event on, is not there. */
  lemma DeepClaimIsLost(now: int, id: string)
    ensures var at: Selection := path => map[];
            && Allowed(Live([], now), DEEP_CLAIM, DEEP, at)
            && NewClaim(DEEP_CLAIM, DEEP, at, now,
                id) !in Live(Stored([], Live([], now), DEEP_CLAIM, DEEP, at, now, id, false), now)
  {
    var at: Selection := path => map[];
    assert |Names(30)| == 30 && |DEEP.attachment + DEEP_CLAIM.path| == 70;
    GrantedIsLive([], DEEP_CLAIM, DEEP, at, now, id);
  }
}
