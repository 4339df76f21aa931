/** The snapshots a reconcile takes of scopes with many new events
    (`refresh_remote` and `snapshot_large_catalogs` in src/runtime.rs). */
module Snapshots {
  import opened Types
  import opened Remote
  import opened Retention
  import opened Catalog
  import opened CatalogProofs
  import opened Maintenance

  const SNAPSHOT_EVENTS := 10_000

  // ---- Counting ----

  function CountOf(counted: map<ScopeId, nat>, scope: ScopeId): nat {
    if scope in counted then counted[scope] else 0
  }

  /** The events of the scope that its snapshot does not cover. */
  function Uncovered(r: Store, events: set<CatalogEvent>, scope: ScopeId): set<CatalogEvent> {
    set e | e in events && e.resource.scope == scope && e.counter > CoveredAt(r, e.Key())
  }

  /** Every uncovered event of the scan is counted once more. */
  ghost predicate CountsScan(r: Store, events: set<CatalogEvent>, before: map<ScopeId, nat>, after: map<ScopeId, nat>) {
    forall scope: ScopeId :: CountOf(after, scope) == CountOf(before, scope) + |Uncovered(r, events, scope)|
  }

  lemma UncoveredStep(r: Store, events: set<CatalogEvent>, e: CatalogEvent, scope: ScopeId)
    requires e !in events
    ensures |Uncovered(r, events + {e}, scope)| == |Uncovered(r, events, scope)| +
              if scope == e.resource.scope && e.counter > CoveredAt(r, e.Key()) then 1 else 0
  {
    var before, after := Uncovered(r, events, scope), Uncovered(r, events + {e}, scope);
    if scope == e.resource.scope && e.counter > CoveredAt(r, e.Key()) {
      assert after == before + {e};
    } else {
      assert after == before;
    }
  }

  function CountedUp(counted: map<ScopeId, nat>, scope: ScopeId): map<ScopeId, nat> {
    counted[scope := CountOf(counted, scope) + 1]
  }

  lemma CountStep(
    r: Store, events: set<CatalogEvent>, before: map<ScopeId, nat>, after: map<ScopeId, nat>, e: CatalogEvent)
    requires CountsScan(r, events, before, after) && e !in events
    ensures CountsScan(r, events + {e}, before,
                       if e.counter > CoveredAt(r, e.Key()) then CountedUp(after, e.resource.scope) else after)
  {
    var counted := if e.counter > CoveredAt(r, e.Key()) then CountedUp(after, e.resource.scope) else after;
    forall scope: ScopeId
      ensures CountOf(counted, scope) == CountOf(before, scope) + |Uncovered(r, events + {e}, scope)|
    {
      assert CountOf(after, scope) == CountOf(before, scope) + |Uncovered(r, events, scope)|;
      UncoveredStep(r, events, e, scope);
    }
  }

  method CountEvents(counted: map<ScopeId, nat>, events: set<CatalogEvent>, covered: Cursors, ghost r: Store)
    returns (after: map<ScopeId, nat>)
    requires forall e :: e in events ==> At(covered, e.Key()) == CoveredAt(r, e.Key())
    ensures CountsScan(r, events, counted, after)
  {
    after := counted;
    var todo := events;
    ghost var done: set<CatalogEvent> := {};
    while todo != {}
      invariant todo <= events && done == events - todo && CountsScan(r, done, counted, after)
    {
      var e :| e in todo;
      CountStep(r, done, counted, after, e);
      if e.counter > At(covered, e.Key()) {
        after := CountedUp(after, e.resource.scope);
      }
      todo, done := todo - {e}, done + {e};
    }
    assert done == events;
  }

  lemma ScannedAreCovered(r: Store, scopes: set<ScopeId>, cursors: Cursors, covered: Cursors, events: set<CatalogEvent>)
    requires WellFormed(r) && events == ScanEvents(r, scopes, cursors)
    requires forall k: CursorKey :: InScope(scopes, k.scope) ==> At(covered, k) == CoveredAt(r, k)
    ensures forall e :: e in events ==> At(covered, e.Key()) == CoveredAt(r, e.Key())
  {
    forall e | e in events ensures At(covered, e.Key()) == CoveredAt(r, e.Key()) {
      HitIsShown(r, scopes, cursors, e);
    }
  }

  function Due(counted: map<ScopeId, nat>): set<ScopeId> {
    set scope | scope in counted && counted[scope] >= SNAPSHOT_EVENTS
  }

  // ---- What the snapshots make of the store ----

  /** The store after one client wrote a snapshot of each scope. */
  ghost function SnapshotsTaken(r: Store, c: Client, due: set<ScopeId>): Store {
    r.(snapshots := map s | s in r.snapshots.Keys + due :: if s in due then SnapshotOf(c, s, {}) else r.snapshots[s],
       segments := set q | q in r.segments && !CoveredByOne(r, c, due, q))
  }

  ghost predicate CoveredByOne(r: Store, c: Client, due: set<ScopeId>, q: Segment) {
    exists s :: s in due && q in CoveredSegments(r.segments, SnapshotOf(c, s, {}))
  }

  lemma NoSnapshotTaken(r: Store, c: Client)
    ensures SnapshotsTaken(r, c, {}) == r
  {
  }

  lemma OneMoreSnapshot(r: Store, c: Client, due: set<ScopeId>, scope: ScopeId)
    requires scope !in due
    ensures SnapshotsTaken(r, c, due + {scope}) == Compacted(SnapshotsTaken(r, c, due), SnapshotOf(c, scope, {}), {})
  {
    var a, b := SnapshotsTaken(r, c, due + {scope}), Compacted(SnapshotsTaken(r, c, due), SnapshotOf(c, scope, {}), {});
    forall q ensures q in a.segments <==> q in b.segments {
      if q in r.segments && q in CoveredSegments(r.segments, SnapshotOf(c, scope, {})) {
        assert CoveredByOne(r, c, due + {scope}, q);
      }
      if CoveredByOne(r, c, due, q) {
        assert CoveredByOne(r, c, due + {scope}, q);
      }
    }
    assert a.snapshots == b.snapshots;
    assert a.segments == b.segments;
    assert a.commits == b.commits;
  }

  /** What a full scan lists afterwards, whoever took the snapshots. */
  lemma {:induction false} VisibleAfterSnapshots(r: Store, c: Client, due: set<ScopeId>, e: CatalogEvent)
    requires WellFormed(r) && Keyed(c.commits) && Positive(c.commits)
    ensures WellFormed(SnapshotsTaken(r, c, due))
    ensures e in Visible(SnapshotsTaken(r, c, due)) <==>
            if e.resource.scope in due then Held(c, e) || Beyond(r, c, e) else e in Visible(r)
    decreases |due|
  {
    if due == {} {
      NoSnapshotTaken(r, c);
    } else {
      var scope :| scope in due;
      var rest := due - {scope};
      assert due == rest + {scope};
      VisibleAfterSnapshots(r, c, rest, e);
      OneMoreSnapshot(r, c, rest, scope);
      CompactedIsWellFormed(SnapshotsTaken(r, c, rest), c, scope, {});
      VisibleAfterCompaction(SnapshotsTaken(r, c, rest), c, scope, {}, e);
      if e.resource.scope == scope {
        BeyondInOtherScopes(r, c, rest, e);
      }
    }
  }

  lemma BeyondInOtherScopes(r: Store, c: Client, due: set<ScopeId>, e: CatalogEvent)
    requires WellFormed(r) && e.resource.scope !in due
    ensures Beyond(SnapshotsTaken(r, c, due), c, e) <==> Beyond(r, c, e)
  {
    if Beyond(r, c, e) {
      var q :| q in r.segments && e in q.events && e.counter > At(c.cursors, e.Key());
      assert WellFormedSegment(q);
      assert !CoveredByOne(r, c, due, q);
      assert q in SnapshotsTaken(r, c, due).segments;
    }
  }

  /** The snapshots hide nothing if and only if the client is fit to compact each of the
      scopes, whatever it has counted or refreshed. */
  lemma SnapshotsHideNothingIff(r: Store, c: Client, due: set<ScopeId>)
    requires WellFormed(r) && Keyed(c.commits) && Positive(c.commits)
    ensures Visible(SnapshotsTaken(r, c, due)) == Visible(r) <==> forall s :: s in due ==> FitToCompact(r, c, s, {})
  {
    var after := Visible(SnapshotsTaken(r, c, due));
    forall e ensures e in after <==>
        if e.resource.scope in due then Held(c, e) || Beyond(r, c, e) else e in Visible(r)
    {
      VisibleAfterSnapshots(r, c, due, e);
    }
    if forall s :: s in due ==> FitToCompact(r, c, s, {}) {
      forall e ensures e in after <==> e in Visible(r) {
        assert e.resource.scope in due ==> FitToCompact(r, c, e.resource.scope, {});
      }
    }
  }

  // ---- As steps of the protocol ----

  /** The guard of a compaction that drops nothing. */
  ghost predicate MaySnapshot(maintainer: ClientId, w: World, client: ClientId, scope: ScopeId) {
    && client in w.clients && JustRefreshed(w.remote, w.clients[client], scope, {})
    && (client != maintainer ==> w.clients[client].commits.Keys !! w.removed)
  }

  /** A client that holds no removed commit may snapshot each scope it just refreshed. */
  lemma RefreshedScopesMayBeSnapshot(
    maintainer: ClientId, w: World, w': World, client: ClientId, scopes: set<ScopeId>, next: Cursors, scope: ScopeId)
    requires Reachable(maintainer, w) && RefreshStep(w, w', client, scopes, next) && InScope(scopes, scope)
    requires client != maintainer ==> w.clients[client].commits.Keys !! w.removed
    ensures MaySnapshot(maintainer, w', client, scope)
  {
    ReachableIsOk(maintainer, w);
    forall e | e in Visible(w.remote) && e.resource.scope == scope ensures e.commitId in w'.clients[client].commits {
      VisibleIsLearned(maintainer, w, w'.clients[client], client, scopes, next, e);
    }
    forall k: CursorKey | k.scope == scope ensures CoveredAt(w.remote, k) <= At(w'.clients[client].cursors, k) {
      RefreshPasses(w.remote, w.clients[client], scopes, next, w'.clients[client], k);
    }
    NothingRemovedIsLearned(maintainer, w, w'.clients[client], client, scopes, next);
  }

  lemma VisibleIsLearned(
    maintainer: ClientId, w: World, c': Client, client: ClientId, scopes: set<ScopeId>, next: Cursors, e: CatalogEvent)
    requires Inv(maintainer, w) && client in w.clients && RefreshesTo(w.remote, w.clients[client], scopes, next, c')
    requires e in Visible(w.remote) && InScope(scopes, e.resource.scope)
    ensures e.commitId in c'.commits
  {
    LiveIsKeyed(w);
    assert ClientOk(w, w.clients[client]);
    assert e.commitId in w.Live();
    RefreshCatchesUp(w.remote, w.Live(), w.clients[client], scopes, next, c', e.commitId);
  }

  lemma NothingRemovedIsLearned(
    maintainer: ClientId, w: World, c': Client, client: ClientId, scopes: set<ScopeId>, next: Cursors)
    requires Inv(maintainer, w) && client in w.clients && RefreshesTo(w.remote, w.clients[client], scopes, next, c')
    ensures w.clients[client].commits.Keys !! w.removed ==> c'.commits.Keys !! w.removed
  {
    LiveIsKeyed(w);
    assert ClientOk(w, w.clients[client]);
    forall id | id in c'.commits && id in w.removed ensures id in w.clients[client].commits {
      RefreshCatchesUp(w.remote, w.Live(), w.clients[client], scopes, next, c', id);
    }
  }

  ghost function AfterSnapshot(w: World, client: ClientId, scope: ScopeId): World
    requires client in w.clients
  {
    w.(remote := Compacted(w.remote, SnapshotOf(w.clients[client], scope, {}), {}))
  }

  lemma SnapshotIsAStep(maintainer: ClientId, w: World, client: ClientId, scope: ScopeId)
    requires Reachable(maintainer, w) && MaySnapshot(maintainer, w, client, scope)
    ensures Next(maintainer, w, AfterSnapshot(w, client, scope), Compact(client, scope, {}))
    ensures Leads(maintainer, w, AfterSnapshot(w, client, scope), [Compact(client, scope, {})])
    ensures Reachable(maintainer, AfterSnapshot(w, client, scope))
    ensures Visible(AfterSnapshot(w, client, scope).remote) == Visible(w.remote)
  {
    var w' := AfterSnapshot(w, client, scope);
    assert MayDeleteAll(w, client, {}, 1);
    assert w.clients[client].commits - {} == w.clients[client].commits;
    assert w.clients[client := w.clients[client]] == w.clients;
    assert CompactStep(maintainer, w, w', client, scope, {});
    OneStep(maintainer, w, w', Compact(client, scope, {}));
    LeadsKeepsReachable(maintainer, w, w', [Compact(client, scope, {})]);
    ReachableIsOk(maintainer, w);
    CompactKeepsInv(maintainer, w, w', client, scope, {});
  }

  /** Taking one snapshot leaves the others allowed. */
  lemma OthersMayStill(maintainer: ClientId, w: World, client: ClientId, scope: ScopeId, other: ScopeId)
    requires Reachable(maintainer, w) && MaySnapshot(maintainer, w, client, scope)
    requires MaySnapshot(maintainer, w, client, other) && other != scope
    ensures MaySnapshot(maintainer, AfterSnapshot(w, client, scope), client, other)
  {
    SnapshotIsAStep(maintainer, w, client, scope);
    var w' := AfterSnapshot(w, client, scope);
    forall k: CursorKey | k.scope == other ensures CoveredAt(w'.remote, k) <= At(w.clients[client].cursors, k) {
      assert CoveredAt(w'.remote, k) == CoveredAt(w.remote, k);
    }
  }

  ghost predicate MaySnapshotAll(maintainer: ClientId, w: World, client: ClientId, due: set<ScopeId>) {
    forall scope :: scope in due ==> MaySnapshot(maintainer, w, client, scope)
  }

  /** One more snapshot on the way. */
  lemma SnapshotOn(
    maintainer: ClientId, w0: World, w: World, client: ClientId, due: set<ScopeId>, scope: ScopeId, steps: seq<Step>)
    returns (w': World, steps': seq<Step>)
    requires Reachable(maintainer, w) && Leads(maintainer, w0, w, steps)
    requires MaySnapshotAll(maintainer, w, client, due) && scope in due
    ensures client in w.clients && w' == AfterSnapshot(w, client, scope)
    ensures Reachable(maintainer, w') && Leads(maintainer, w0, w', steps')
    ensures MaySnapshotAll(maintainer, w', client, due - {scope})
  {
    assert MaySnapshot(maintainer, w, client, scope);
    w', steps' := AfterSnapshot(w, client, scope), steps + [Compact(client, scope, {})];
    SnapshotIsAStep(maintainer, w, client, scope);
    LeadsOn(maintainer, w0, w, w', steps, [Compact(client, scope, {})]);
    forall other | other in due - {scope} ensures MaySnapshot(maintainer, w', client, other) {
      OthersMayStill(maintainer, w, client, scope, other);
    }
  }

  /** The counts after the snapshots: a scope that was due starts again. */
  function CountedAgain(counted: map<ScopeId, nat>): map<ScopeId, nat> {
    map scope | scope in counted :: if scope in Due(counted) then 0 else counted[scope]
  }

  lemma CountedAgainMeaning(counted: map<ScopeId, nat>)
    ensures Due(CountedAgain(counted)) == {}
    ensures forall scope: ScopeId ::
      && (scope in Due(counted) <==> CountOf(counted, scope) >= 10_000)
      && CountOf(CountedAgain(counted), scope) == if CountOf(counted, scope) >= 10_000 then 0
         else CountOf(counted, scope)
  {
  }

  // ---- How often ----

  /** How many events of the scope stand counted with the new ones of a scan. */
  ghost function Reached(
    r: Store, scopes: set<ScopeId>, cursors: Cursors, counted: map<ScopeId, nat>, scope: ScopeId): nat
  {
    CountOf(counted, scope) + |Uncovered(r, ScanEvents(r, scopes, cursors), scope)|
  }

  /** The scopes that reach 10,000 are due, and start again; the others keep the count. */
  ghost predicate IsDue(
    r: Store, scopes: set<ScopeId>, cursors: Cursors, counted: map<ScopeId, nat>, due: set<ScopeId>,
    after: map<ScopeId, nat>)
  {
    forall scope: ScopeId ::
      && (scope in due <==> Reached(r, scopes, cursors, counted, scope) >= 10_000)
      && CountOf(after, scope) == if scope in due then 0 else Reached(r, scopes, cursors, counted, scope)
  }

  lemma CountedIsDue(
    r: Store, scopes: set<ScopeId>, cursors: Cursors, counted: map<ScopeId, nat>, mid: map<ScopeId, nat>)
    requires CountsScan(r, ScanEvents(r, scopes, cursors), counted, mid)
    ensures IsDue(r, scopes, cursors, counted, Due(mid), CountedAgain(mid))
  {
    CountedAgainMeaning(mid);
  }

  function Sum(s: seq<nat>): nat {
    if s == [] then 0 else Sum(s[..|s| - 1]) + s[|s| - 1]
  }

  /** The counts of one scope along a sequence of reconciles that list so many new events. */
  ghost predicate Counting(counts: seq<nat>, listed: seq<nat>) {
    && |counts| == |listed| + 1
    && forall k: nat :: k < |listed| ==>
         counts[k + 1] == if counts[k] + listed[k] >= 10_000 then 0 else counts[k] + listed[k]
  }

  /** What is counted after a snapshot was listed since. */
  lemma {:induction false} CountedSince(counts: seq<nat>, listed: seq<nat>, i: nat, j: nat)
    requires Counting(counts, listed) && i < j <= |listed| && counts[i] + listed[i] >= 10_000
    ensures counts[j] <= Sum(listed[i + 1..j])
  {
    if i + 1 == j {
      assert listed[i + 1..j] == [];
    } else {
      CountedSince(counts, listed, i, j - 1);
      assert listed[i + 1..j][..j - i - 2] == listed[i + 1..j - 1];
      assert counts[j - 1 + 1] <= counts[j - 1] + listed[j - 1];
    }
  }

  lemma FarApart(counts: seq<nat>, listed: seq<nat>, i: nat, j: nat)
    requires Counting(counts, listed) && i < j < |listed|
    requires counts[i] + listed[i] >= 10_000 && counts[j] + listed[j] >= 10_000
    ensures Sum(listed[i + 1..j + 1]) >= 10_000
  {
    CountedSince(counts, listed, i, j);
    assert listed[i + 1..j + 1][..j - i - 1] == listed[i + 1..j];
  }

  /** What one reconcile of a client found and did: the remote it scanned with its cursors,
      the scopes it took snapshots of, and the counts it left. */
  datatype Counted = Counted(
    remote: Store, scopes: set<ScopeId>, cursors: Cursors, due: set<ScopeId>, counts: map<ScopeId, nat>)
  {
    /** How many new uncovered events of the scope were listed. */
    ghost function Listed(scope: ScopeId): nat {
      |Uncovered(remote, ScanEvents(remote, scopes, cursors), scope)|
    }
  }

  /** Reconciles of one client in a row, the first one starting from `counts`; in between
      anybody may do anything. */
  ghost predicate InARow(counts: map<ScopeId, nat>, calls: seq<Counted>) {
    forall k: nat :: k < |calls| ==>
      IsDue(calls[k].remote, calls[k].scopes, calls[k].cursors, if k == 0 then counts else calls[k - 1].counts,
            calls[k].due, calls[k].counts)
  }

  ghost function CountsOf(counts: map<ScopeId, nat>, calls: seq<Counted>, scope: ScopeId): seq<nat> {
    seq(|calls| + 1, k requires 0 <= k <= |calls| => CountOf(if k == 0 then counts else calls[k - 1].counts, scope))
  }

  ghost function ListedBy(calls: seq<Counted>, scope: ScopeId): seq<nat> {
    seq(|calls|, k requires 0 <= k < |calls| => calls[k].Listed(scope))
  }

  /** Between two snapshots a client takes of a scope at least 10,000 new uncovered events
      of it are listed. */
  lemma SnapshotsAreFarApart(counts: map<ScopeId, nat>, calls: seq<Counted>, scope: ScopeId, i: nat, j: nat)
    requires InARow(counts, calls) && i < j < |calls|
    requires scope in calls[i].due && scope in calls[j].due
    ensures Sum(ListedBy(calls, scope)[i + 1..j + 1]) >= 10_000
  {
    var before, listed := CountsOf(counts, calls, scope), ListedBy(calls, scope);
    forall k: nat | k < |calls|
      ensures scope in calls[k].due <==> before[k] + listed[k] >= 10_000
      ensures before[k + 1] == if before[k] + listed[k] >= 10_000 then 0 else before[k] + listed[k]
    {
      CountsOn(counts, calls, scope, k);
    }
    FarApart(before, listed, i, j);
  }

  lemma CountsOn(counts: map<ScopeId, nat>, calls: seq<Counted>, scope: ScopeId, k: nat)
    requires InARow(counts, calls) && k < |calls|
    ensures var n := CountsOf(counts, calls, scope)[k] + ListedBy(calls, scope)[k];
            && (scope in calls[k].due <==> n >= 10_000)
            && CountsOf(counts, calls, scope)[k + 1] == if n >= 10_000 then 0 else n
  {
    var start := if k == 0 then counts else calls[k - 1].counts;
    assert IsDue(calls[k].remote, calls[k].scopes, calls[k].cursors, start, calls[k].due, calls[k].counts);
    assert Reached(calls[k].remote, calls[k].scopes, calls[k].cursors, start, scope)
        == CountsOf(counts, calls, scope)[k] + ListedBy(calls, scope)[k];
  }
}
