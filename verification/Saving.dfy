/**
 * Saving an account from several servers: immutable nodes first, links to them next, and the visible root last, by
 * comparison.
 */
module Saving {
  import opened Options
  import opened Graph
  import opened Store

  /** The account's tables: nodes by cid, the nodes it may read, and its visible root. */
  datatype Database = Database(nodes: Table, links: set<Cid>, root: Cid)

  datatype Stage = Editing | NodesIn | LinksIn | Stopped

  /**
   * A store loaded by some server: its nodes and root, the nodes the save under way took from it, the root remembered
   * when it was loaded or last saved, the one its caller falls back on, and, for the record, the root it started from:
   * the visible one if it was remembered, else that.
   */
  datatype Loaded = Loaded(table: Table, root: Cid, taken: Table, remembered: Option<Cid>, fallback: Cid, origin: Cid,
      stage: Stage)

  /** An advance of the visible root: by which store, from what to what. */
  datatype Saved = Saved(store: nat, from: Cid, to: Cid)

  /** `log`: every advance, in order. */
  datatype World = World(db: Database, stores: seq<Loaded>, log: seq<Saved>)

  /** The root a store last saved, `origin` when it has not saved yet. */
  function LastSaved(log: seq<Saved>, store: nat, origin: Cid): Cid {
    if log == [] then origin
    else if log[|log| - 1].store == store then log[|log| - 1].to
    else LastSaved(log[..|log| - 1], store, origin)
  }

  /** The root a save expects to find. */
  function Expected(s: Loaded): Cid { match s.remembered case Some(root) => root case None => s.fallback }

  datatype Step =
    | Load(table: Table, remember: bool, fallback: Cid)
    | Edit(store: nat, table: Table, root: Cid)
    | InsertNodes(store: nat)
    | InsertLinks(store: nat)
    | Advance(store: nat)
    | Stop(store: nat)

  /** Saves await the database at each of their steps, so a store may be edited at any time. */
  ghost predicate Enabled(w: World, a: Step) {
    match a
    case Load(table, _, _) => Closed(table) && table.Keys <= w.db.nodes.Keys && w.db.root in table
    case Edit(i, table, root) => i < |w.stores| && !w.stores[i].stage.Stopped? && Closed(table)
        && w.stores[i].table.Keys <= table.Keys && root in table
    case InsertNodes(i) => i < |w.stores| && w.stores[i].stage.Editing?
    case InsertLinks(i) => i < |w.stores| && w.stores[i].stage.NodesIn?
    case Advance(i) => i < |w.stores| && w.stores[i].stage.LinksIn?
    case Stop(i) => i < |w.stores|
  }

  /** Whether an advance goes through. */
  predicate Advances(w: World, i: nat)
    requires i < |w.stores|
  {
    w.db.root == Expected(w.stores[i])
  }

  ghost function Next(w: World, a: Step): World
    requires Enabled(w, a)
  {
    match a
    case Load(table, remember, fallback) =>
      w.(stores := w.stores + [Loaded(table, w.db.root, map[], if remember then Some(w.db.root) else None, fallback,
          if remember then w.db.root else fallback, Editing)])
    case Edit(i, table, root) => w.(stores := w.stores[i := w.stores[i].(table := table, root := root)])
    case InsertNodes(i) => w.(db := w.db.(nodes := w.db.nodes + w.stores[i].table),
        stores := w.stores[i := w.stores[i].(taken := w.stores[i].table, stage := NodesIn)])
    case InsertLinks(i) => w.(db := w.db.(links := w.db.links + w.stores[i].taken.Keys),
        stores := w.stores[i := w.stores[i].(stage := LinksIn)])
    case Advance(i) =>
      var s := w.stores[i];
      if Advances(w, i) then
        World(w.db.(root := s.root), w.stores[i := s.(remembered := Some(s.root), stage := Editing)],
            w.log + [Saved(i, w.db.root, s.root)])
      else w.(stores := w.stores[i := s.(stage := Editing)])
    case Stop(i) => w.(stores := w.stores[i := w.stores[i].(stage := Stopped)])
  }

  // ---------------------------------------------------------------------------
  // Laws

  /** Every end of every edge of a linked node is linked. */
  ghost predicate LinksClosed(links: set<Cid>) {
    forall c, e | c in links && e in c.content.children :: e.left in links && e.right in links
  }

  ghost predicate StoreSound(db: Database, s: Loaded) {
    && Closed(s.table) && s.root in s.table && Closed(s.taken)
    && (s.stage.NodesIn? || s.stage.LinksIn? ==> s.taken.Keys <= db.nodes.Keys)
    && (s.stage.LinksIn? ==> s.taken.Keys <= db.links)
  }

  /** Each advance starts where the last one ended, and the last one ended at the visible root. */
  predicate Chained(log: seq<Saved>, root: Cid) {
    && (forall i | 0 < i < |log| :: log[i].from == log[i - 1].to)
    && (log != [] ==> log[|log| - 1].to == root)
  }

  /** The advance was made by a store that had last saved, or was loaded at, the root it started from. */
  predicate Honest(log: seq<Saved>, stores: seq<Loaded>, k: nat)
    requires k < |log|
  {
    log[k].store < |stores| && log[k].from == LastSaved(log[..k], log[k].store, stores[log[k].store].origin)
  }

  /** Every store expects what it last saved, or was loaded at. */
  predicate Current(log: seq<Saved>, stores: seq<Loaded>) {
    && (forall i | 0 <= i < |stores| :: Expected(stores[i]) == LastSaved(log, i, stores[i].origin))
    && (forall k | 0 <= k < |log| :: Honest(log, stores, k))
  }

  ghost predicate Sound(w: World) {
    && Closed(w.db.nodes) && LinksClosed(w.db.links)
    && (forall i | 0 <= i < |w.stores| :: StoreSound(w.db, w.stores[i]))
    && Chained(w.log, w.db.root) && Current(w.log, w.stores)
  }

  lemma TableLinks(table: Table)
    requires Closed(table)
    ensures LinksClosed(table.Keys)
  {}

  lemma StoresSound(w: World, r: World, i: nat)
    requires Sound(w) && i < |w.stores| == |r.stores| && StoreSound(r.db, r.stores[i])
    requires forall k | 0 <= k < |w.stores| && k != i :: r.stores[k] == w.stores[k]
    requires w.db.nodes.Keys <= r.db.nodes.Keys && w.db.links <= r.db.links
    ensures forall k | 0 <= k < |r.stores| :: StoreSound(r.db, r.stores[k])
  {
    forall k | 0 <= k < |r.stores| && k != i ensures StoreSound(r.db, r.stores[k]) {
      assert StoreSound(w.db, w.stores[k]);
    }
  }

  lemma {:induction false} NotSavedYet(log: seq<Saved>, store: nat, origin: Cid)
    requires forall k | 0 <= k < |log| :: log[k].store != store
    ensures LastSaved(log, store, origin) == origin
  {
    if log != [] { NotSavedYet(log[..|log| - 1], store, origin); }
  }

  lemma LoadCurrent(log: seq<Saved>, stores: seq<Loaded>, s: Loaded)
    requires Current(log, stores) && Expected(s) == s.origin
    ensures Current(log, stores + [s])
  {
    forall k | 0 <= k < |log| ensures Honest(log, stores + [s], k) { assert Honest(log, stores, k); }
    forall k | 0 <= k < |log| ensures log[k].store != |stores| { assert Honest(log, stores, k); }
    NotSavedYet(log, |stores|, s.origin);
  }

  /** A step that advances nothing leaves what stores expect as it is. */
  lemma StaysCurrent(log: seq<Saved>, stores: seq<Loaded>, i: nat, s: Loaded)
    requires Current(log, stores) && i < |stores| && s.origin == stores[i].origin && Expected(s) == Expected(stores[i])
    ensures Current(log, stores[i := s])
  {
    var after := stores[i := s];
    forall k | 0 <= k < |log| ensures Honest(log, after, k) { assert Honest(log, stores, k); }
  }

  lemma SavedOnce(log: seq<Saved>, e: Saved, store: nat, origin: Cid)
    ensures LastSaved(log + [e], store, origin) == if e.store == store then e.to else LastSaved(log, store, origin)
  {
    assert (log + [e])[..|log|] == log;
  }

  lemma AdvanceCurrent(log: seq<Saved>, stores: seq<Loaded>, i: nat, e: Saved, s: Loaded)
    requires Current(log, stores) && i < |stores| && e.store == i && e.from == Expected(stores[i])
    requires s.origin == stores[i].origin && Expected(s) == e.to
    ensures Current(log + [e], stores[i := s])
  {
    var more, after := log + [e], stores[i := s];
    forall k | 0 <= k < |after| ensures Expected(after[k]) == LastSaved(more, k, after[k].origin) {
      SavedOnce(log, e, k, after[k].origin);
    }
    forall k | 0 <= k < |more| ensures Honest(more, after, k) {
      if k < |log| {
        assert Honest(log, stores, k) && more[..k] == log[..k];
      } else {
        assert more[..k] == log;
      }
    }
  }

  lemma LoadSound(w: World, a: Step)
    requires Sound(w) && a.Load? && Enabled(w, a)
    ensures Sound(Next(w, a))
  {
    var r := Next(w, a);
    forall k | 0 <= k < |r.stores| ensures StoreSound(w.db, r.stores[k]) {
      if k < |w.stores| { assert StoreSound(w.db, w.stores[k]); }
    }
    LoadCurrent(w.log, w.stores, r.stores[|w.stores|]);
  }

  lemma AdvanceSound(w: World, i: nat)
    requires Sound(w) && Enabled(w, Advance(i))
    ensures Sound(Next(w, Advance(i)))
  {
    assert StoreSound(w.db, w.stores[i]);
    var r := Next(w, Advance(i));
    StoresSound(w, r, i);
    if Advances(w, i) {
      AdvanceCurrent(w.log, w.stores, i, Saved(i, w.db.root, w.stores[i].root), r.stores[i]);
    } else {
      StaysCurrent(w.log, w.stores, i, r.stores[i]);
    }
  }

  lemma StepSound(w: World, a: Step)
    requires Sound(w) && Enabled(w, a)
    ensures Sound(Next(w, a))
  {
    match a
    case Load(_, _, _) => LoadSound(w, a);
    case Edit(i, _, _) =>
      StoresSound(w, Next(w, a), i);
      StaysCurrent(w.log, w.stores, i, Next(w, a).stores[i]);
    case InsertNodes(i) =>
      ClosedUnion(w.db.nodes, w.stores[i].table);
      StoresSound(w, Next(w, a), i);
      StaysCurrent(w.log, w.stores, i, Next(w, a).stores[i]);
    case InsertLinks(i) =>
      TableLinks(w.stores[i].taken);
      StoresSound(w, Next(w, a), i);
      StaysCurrent(w.log, w.stores, i, Next(w, a).stores[i]);
    case Advance(i) => AdvanceSound(w, i);
    case Stop(i) =>
      StoresSound(w, Next(w, a), i);
      StaysCurrent(w.log, w.stores, i, Next(w, a).stores[i]);
  }

  ghost predicate Reaches(w: World, steps: seq<Step>, r: World)
    decreases |steps|
  {
    if steps == [] then r == w else Enabled(w, steps[0]) && Reaches(Next(w, steps[0]), steps[1..], r)
  }

  lemma {:induction false} ReachedIsSound(w: World, steps: seq<Step>, r: World)
    requires Sound(w) && Reaches(w, steps, r)
    ensures Sound(r)
    decreases |steps|
  {
    if steps != [] {
      StepSound(w, steps[0]);
      ReachedIsSound(Next(w, steps[0]), steps[1..], r);
    }
  }

  /** A linked table's nodes lead only to linked nodes. */
  lemma {:induction false} ReachedIsLinked(links: set<Cid>, path: seq<Cid>)
    requires LinksClosed(links) && IsPath(path) && path[0] in links
    ensures path[|path| - 1] in links
  {
    if |path| > 1 {
      ReachedIsLinked(links, path[..|path| - 1]);
      assert IsChild(path[|path| - 2], path[|path| - 1]);
    }
  }

  /** The visible root is stored and linked. */
  predicate Visible(db: Database) { db.root in db.nodes && db.root in db.links }

  /** An advance moves to a root that is stored and linked by then. */
  predicate Covers(w: World, a: Step) {
    a.Advance? && a.store < |w.stores| && Advances(w, a.store) ==> Visible(w.db.(root := w.stores[a.store].root))
  }

  /** A store being saved keeps to the roots the save took nodes for. */
  predicate Steady(w: World, a: Step) {
    a.Edit? && a.store < |w.stores| && !w.stores[a.store].stage.Editing? ==> a.root in w.stores[a.store].taken
  }

  ghost predicate AllCover(w: World, steps: seq<Step>)
    decreases |steps|
  {
    steps != [] && Enabled(w, steps[0]) ==> Covers(w, steps[0]) && AllCover(Next(w, steps[0]), steps[1..])
  }

  ghost predicate AllSteady(w: World, steps: seq<Step>)
    decreases |steps|
  {
    steps != [] && Enabled(w, steps[0]) ==> Steady(w, steps[0]) && AllSteady(Next(w, steps[0]), steps[1..])
  }

  /** The visible root is stored and linked after each step. */
  ghost predicate AlwaysVisible(w: World, steps: seq<Step>)
    decreases |steps|
  {
    steps != [] && Enabled(w, steps[0]) ==>
      Visible(Next(w, steps[0]).db) && AlwaysVisible(Next(w, steps[0]), steps[1..])
  }

  /** Over any run the visible root stays stored and linked exactly when each advance moves to a root that is so. */
  lemma {:induction false} VisibleExactly(w: World, steps: seq<Step>)
    requires Visible(w.db)
    ensures AlwaysVisible(w, steps) <==> AllCover(w, steps)
    decreases |steps|
  {
    if steps != [] && Enabled(w, steps[0]) && Covers(w, steps[0]) { VisibleExactly(Next(w, steps[0]), steps[1..]); }
  }

  /** Whenever it is, every node reachable from it is stored and readable. */
  lemma VisibleIsStored(w: World, steps: seq<Step>, r: World, path: seq<Cid>)
    requires Sound(w) && Reaches(w, steps, r) && Visible(r.db) && IsPath(path) && path[0] == r.db.root
    ensures path[|path| - 1] in r.db.nodes && r.db.nodes[path[|path| - 1]] == path[|path| - 1].content
            && path[|path| - 1] in r.db.links
  {
    ReachedIsSound(w, steps, r);
    ReachedIsIn(r.db.nodes, path);
    ReachedIsLinked(r.db.links, path);
  }

  /** A store's root is among the nodes its save took. */
  predicate Holds(s: Loaded) { s.stage.NodesIn? || s.stage.LinksIn? ==> s.root in s.taken }

  predicate AllHold(stores: seq<Loaded>) { forall i | 0 <= i < |stores| :: Holds(stores[i]) }

  lemma SteadyStep(w: World, a: Step)
    requires Sound(w) && AllHold(w.stores) && Enabled(w, a) && Steady(w, a)
    ensures Covers(w, a) && AllHold(Next(w, a).stores)
  {
    if a.Advance? { assert StoreSound(w.db, w.stores[a.store]) && Holds(w.stores[a.store]); }
    if a.InsertNodes? { assert StoreSound(w.db, w.stores[a.store]); }
    forall i | 0 <= i < |Next(w, a).stores| ensures Holds(Next(w, a).stores[i]) {
      if i < |w.stores| { assert Holds(w.stores[i]); }
    }
  }

  /**
   * Where no store moves, while it is saved, to a root the save took no nodes for, the visible root is always stored
   * and linked, whatever servers do and wherever they stop.
   */
  lemma {:induction false} SteadyIsVisible(w: World, steps: seq<Step>)
    requires Sound(w) && Visible(w.db) && AllHold(w.stores) && AllSteady(w, steps)
    ensures AlwaysVisible(w, steps)
    decreases |steps|
  {
    if steps != [] && Enabled(w, steps[0]) {
      SteadyStep(w, steps[0]);
      StepSound(w, steps[0]);
      SteadyIsVisible(Next(w, steps[0]), steps[1..]);
    }
  }

  const OLD := Cid(EMPTY)
  const NEW := Cid(Content(map[], [Edge(OLD, OLD)]))
  const ACCOUNT := World(Database(map[OLD := EMPTY], {OLD}, OLD), [], [])

  /** The store is edited after its nodes were taken and before its root is read. */
  const LATE: seq<Step> := [Load(map[OLD := EMPTY], true, OLD), InsertNodes(0), InsertLinks(0),
      Edit(0, map[OLD := EMPTY, NEW := NEW.content], NEW), Advance(0)]

  /** Then the visible root is a node nobody stored. */
  lemma LateEditIsVisible() returns (r: World)
    ensures Sound(ACCOUNT) && Visible(ACCOUNT.db) && Reaches(ACCOUNT, LATE, r)
    ensures r.db.root == NEW && NEW !in r.db.nodes
  {
    var w1 := Next(ACCOUNT, LATE[0]);
    var w2 := Next(w1, InsertNodes(0));
    var w3 := Next(w2, InsertLinks(0));
    var w4 := Next(w3, LATE[3]);
    r := Next(w4, Advance(0));
    assert Reaches(r, [], r);
    assert Reaches(w4, [LATE[4]], r) by { assert [LATE[4]][1..] == []; }
    assert Reaches(w3, LATE[3..], r) by { assert LATE[3..][1..] == [LATE[4]]; }
    assert Reaches(w2, LATE[2..], r) by { assert LATE[2..][1..] == LATE[3..]; }
    assert Reaches(w1, LATE[1..], r) by { assert LATE[1..][1..] == LATE[2..]; }
  }

  /**
   * Advances form one chain, and each was made from the root its store had last saved, or was loaded at; the next one a
   * store makes goes through exactly when the visible root is still that one.
   */
  lemma NothingIsOverwritten(w: World, steps: seq<Step>, r: World)
    requires Sound(w) && Reaches(w, steps, r)
    ensures Chained(r.log, r.db.root)
    ensures forall k | 0 <= k < |r.log| :: Honest(r.log, r.stores, k)
    ensures forall i | 0 <= i < |r.stores| :: Advances(r, i) <==> r.db.root == LastSaved(r.log, i, r.stores[i].origin)
  {
    ReachedIsSound(w, steps, r);
  }

  // ---------------------------------------------------------------------------
  // In place

  class AccountRow {
    var root: Cid

    constructor (at: Cid)
      ensures root == at
    {
      root := at;
    }

    /** The conditional update: advance the root only from the expected one. */
    method Update(expected: Cid, next: Cid) returns (saved: bool)
      modifies this
      ensures saved <==> old(root) == expected
      ensures root == if saved then next else old(root)
    {
      saved := root == expected;
      if saved { root := next; }
    }
  }

  /** The roots stores were loaded at, by store. */
  class LoadedRoots {
    var roots: map<nat, Cid>

    constructor ()
      ensures roots == map[]
    {
      roots := map[];
    }

    method RememberLoadedRoot(store: nat, root: Cid)
      modifies this
      ensures roots == old(roots)[store := root]
    {
      roots := roots[store := root];
    }

    /**
     * Saved: the row moved from the expected root to the store's, which is remembered from now on. Not saved: nothing
     * changed.
     */
    method SaveRootVersion(store: nat, next: Cid, fallback: Cid, row: AccountRow) returns (saved: bool)
      modifies this, row
      ensures saved <==> old(row.root) == if store in old(roots) then old(roots)[store] else fallback
      ensures saved ==> row.root == next && roots == old(roots)[store := next]
      ensures !saved ==> row.root == old(row.root) && roots == old(roots)
    {
      var expected := if store in roots then roots[store] else fallback;
      saved := row.Update(expected, next);
      if saved { roots := roots[store := next]; }
    }
  }
}
