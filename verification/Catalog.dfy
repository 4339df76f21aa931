/** The catalog protocol as a transition system: many clients publish immutable segments
    to a dumb remote, read them with cursors, and one of them compacts history
    (src/v2_remote.rs, src/runtime.rs). */
module Catalog {
  import opened Types
  import opened CommitGraph
  import opened Binary
  import opened Remote
  import opened Retention

  // ---- Scans ----

  /** Listed by the scope's snapshot, or by a segment beyond what the snapshot covers. */
  ghost predicate Shown(r: Store, e: CatalogEvent) {
    || (e.resource.scope in r.snapshots && e in r.snapshots[e.resource.scope].events)
    || (exists q :: q in r.segments && e in q.events && e.counter > CoveredAt(r, e.Key()))
  }

  lemma HitIsShown(r: Store, scopes: set<ScopeId>, cursors: Cursors, e: CatalogEvent)
    requires WellFormed(r) && e in ScanEvents(r, scopes, cursors)
    ensures InScope(scopes, e.resource.scope) && e.counter > At(cursors, e.Key()) && Shown(r, e)
  {
    if q :|
      q in r.segments && InScope(scopes, q.scope) && q.last > Floor(r, cursors, q.Key())
      && e in SegmentHits(q, scopes, Floor(r, cursors, q.Key()))
    {
      assert e.Key() == q.Key();
    } else {
      var p :| p in r.snapshots && InScope(scopes, p) && e in SnapshotHits(r.snapshots[p], scopes, cursors);
      assert e.resource.scope == p;
    }
  }

  lemma ShownIsHit(r: Store, scopes: set<ScopeId>, cursors: Cursors, e: CatalogEvent)
    requires WellFormed(r) && InScope(scopes, e.resource.scope) && e.counter > At(cursors, e.Key()) && Shown(r, e)
    ensures e in ScanEvents(r, scopes, cursors)
  {
    var p := e.resource.scope;
    if p in r.snapshots && e in r.snapshots[p].events {
      assert e in SnapshotHits(r.snapshots[p], scopes, cursors);
    } else {
      var q :| q in r.segments && e in q.events && e.counter > CoveredAt(r, e.Key());
      assert e.Key() == q.Key() && e.counter <= q.last;
      assert e in SegmentHits(q, scopes, Floor(r, cursors, q.Key()));
    }
  }

  /** What a scan returns, event by event. */
  lemma ScanMembers(r: Store, scopes: set<ScopeId>, cursors: Cursors, e: CatalogEvent)
    requires WellFormed(r)
    ensures e in ScanEvents(r, scopes, cursors) <==>
      InScope(scopes, e.resource.scope) && e.counter > At(cursors, e.Key()) && Shown(r, e)
  {
    if e in ScanEvents(r, scopes, cursors) {
      HitIsShown(r, scopes, cursors, e);
    } else if InScope(scopes, e.resource.scope) && e.counter > At(cursors, e.Key()) && Shown(r, e) {
      ShownIsHit(r, scopes, cursors, e);
    }
  }

  lemma ScanIsVisibleInScope(r: Store, scopes: set<ScopeId>)
    requires WellFormed(r)
    ensures ScanEvents(r, scopes, map[]) == set e | e in Visible(r) && InScope(scopes, e.resource.scope)
  {
    forall e ensures e in ScanEvents(r, scopes, map[]) <==> e in Visible(r) && InScope(scopes, e.resource.scope) {
      ScanMembers(r, scopes, map[], e);
      ScanMembers(r, {}, map[], e);
    }
  }

  /** The incremental scan refines the full one: it returns exactly the full-scan events
      above the cursor of their author and scope, and the pointwise maximum of the
      request's and the full scan's cursors. */
  lemma IncrementalScanRefinesFullScan(r: Store, scopes: set<ScopeId>, cursors: Cursors, next: Cursors, full: Cursors)
    requires WellFormed(r)
    requires IsScanCursors(r, scopes, cursors, next) && IsScanCursors(r, scopes, map[], full)
    ensures ScanEvents(r, scopes, cursors) == set e | e in ScanEvents(r, scopes, map[])
      && e.counter > At(cursors, e.Key())
    ensures next.Keys == cursors.Keys + full.Keys
    ensures forall k: CursorKey :: At(next, k) == Max(At(cursors, k), At(full, k))
  {
    IncrementalEvents(r, scopes, cursors);
    forall k: CursorKey
      ensures k in next <==> k in cursors || k in full
      ensures At(next, k) == Max(At(cursors, k), At(full, k))
    {
      IncrementalCursor(r, scopes, cursors, next, full, k);
    }
  }

  lemma IncrementalEvents(r: Store, scopes: set<ScopeId>, cursors: Cursors)
    requires WellFormed(r)
    ensures ScanEvents(r, scopes, cursors) == set e | e in ScanEvents(r, scopes, map[])
      && e.counter > At(cursors, e.Key())
  {
    forall e ensures e in ScanEvents(r, scopes, cursors) <==>
      e in ScanEvents(r, scopes, map[]) && e.counter > At(cursors, e.Key())
    {
      ScanMembers(r, scopes, cursors, e);
      ScanMembers(r, scopes, map[], e);
    }
  }

  lemma IncrementalCursor(r: Store, scopes: set<ScopeId>, cursors: Cursors, next: Cursors, full: Cursors, k: CursorKey)
    requires IsScanCursors(r, scopes, cursors, next) && IsScanCursors(r, scopes, map[], full)
    ensures k in next <==> k in cursors || k in full
    ensures At(next, k) == Max(At(cursors, k), At(full, k))
  {
    var ps, qs := r.snapshots.Keys, r.segments;
    if k in cursors {
      assert Offers(r, scopes, cursors, ps, qs, k, cursors[k]);
    }
    if k in full {
      // What the full scan takes is on offer to the request too, unless its cursor is ahead.
      assert Offers(r, scopes, map[], ps, qs, k, full[k]);
      assert full[k] > At(cursors, k) || k !in cursors ==> Offers(r, scopes, cursors, ps, qs, k, full[k]);
    }
    if k in next {
      assert Offers(r, scopes, cursors, ps, qs, k, next[k]);
      assert Offers(r, scopes, map[], ps, qs, k, next[k]) || (k in cursors && next[k] == cursors[k]);
    }
  }

  // ---- The system ----

  /** The part of a client's runtime state the catalog protocol reads and writes. */
  datatype Client = Client(
    commits: CommitMap,
    cursors: Cursors,
    checkpoints: map<ResourceKey, CommitId>,
    retired: set<ClientId>)

  /** `counters` holds each client's own counter. `published`, `removed`, `rank` and `clock`
      are history: every commit ever published, the ones maintenance deleted, and the
      order of publication. */
  datatype World = World(
    remote: Store,
    clients: map<ClientId, Client>,
    counters: map<ClientId, nat>,
    published: CommitMap,
    removed: set<CommitId>,
    rank: map<CommitId, nat>,
    clock: nat)
  {
    /** The published commits that maintenance has not removed. */
    function Live(): CommitMap {
      published - removed
    }
  }

  datatype Step =
    | Join(client: ClientId)
    | Publish(client: ClientId, batch: seq<Commit>)
    | Refresh(client: ClientId, scopes: set<ScopeId>, next: Cursors)
    | Acknowledge(client: ClientId, key: ResourceKey)
    | Retire(client: ClientId, other: ClientId)
    | SetCheckpoint(client: ClientId, key: ResourceKey, id: CommitId)
    | ClearCheckpoint(client: ClientId, key: ResourceKey)
    | Compact(client: ClientId, scope: ScopeId, obsolete: set<CommitId>)
    | Collect(client: ClientId, dead: set<Digest>)

  function Ids(batch: seq<Commit>): set<CommitId> {
    set c | c in batch :: c.id
  }

  function ById(batch: seq<Commit>): CommitMap {
    if batch == [] then map[] else ById(batch[..|batch| - 1])[batch[|batch| - 1].id := batch[|batch| - 1]]
  }

  /** What `commit_batch` leaves behind, apart from packs and indexes. */
  ghost predicate BatchCommitted(r: Store, r': Store, batch: seq<Commit>) {
    && r'.snapshots == r.snapshots && r'.acks == r.acks
    && r'.segments == r.segments + (set k | k in GroupKeys(batch) :: SegmentOf(batch, k))
    && r'.commits.Keys == r.commits.Keys + Ids(batch)
    && (forall id :: id in r.commits ==> r'.commits[id] == r.commits[id])
    && (forall c :: c in batch && c.id !in r.commits ==> r'.commits[c.id] == c)
  }

  ghost predicate Increasing(counter: nat, batch: seq<Commit>) {
    && (batch != [] ==> counter < batch[0].counter)
    && forall i, j :: 0 <= i < j < |batch| ==> batch[i].counter < batch[j].counter
  }

  /** A batch as `execute`, `publish_bytes` and `publish_delete` build it: own commits
      with new identifiers, strictly increasing counters, at most one per resource, and
      the known heads as parents. */
  ghost predicate IsBatchOf(w: World, client: ClientId, batch: seq<Commit>)
    requires client in w.clients && client in w.counters
  {
    && batch != [] && Increasing(w.counters[client], batch)
    && (forall i :: 0 <= i < |batch| ==>
          && batch[i].author == client
          && batch[i].id !in w.published
          && batch[i].parents == Heads(w.clients[client].commits, batch[i].resource))
    && (forall i, j :: 0 <= i < j < |batch| ==> batch[i].id != batch[j].id && batch[i].resource != batch[j].resource)
  }

  ghost function NewIds(c: Client, events: set<CatalogEvent>): set<CommitId> {
    set e | e in events && e.commitId !in c.commits :: e.commitId
  }

  /** `refresh_remote`, when every listed commit can be loaded. */
  ghost predicate RefreshesTo(r: Store, c: Client, scopes: set<ScopeId>, next: Cursors, c': Client) {
    var ids := NewIds(c, ScanEvents(r, scopes, c.cursors));
    && IsScanCursors(r, scopes, c.cursors, next)
    && ids <= r.commits.Keys
    && c' == c.(commits := c.commits + LoadedFrom(r.commits, ids),
                cursors := MergeMax(c.cursors, next))
  }

  /** The client holds everything visible in the scope, is past everything the current
      snapshot covers, and past every commit it is about to drop. */
  ghost predicate JustRefreshed(r: Store, c: Client, scope: ScopeId, obsolete: set<CommitId>) {
    && (forall e :: e in Visible(r) && e.resource.scope == scope ==> e.commitId in c.commits)
    && (forall k: CursorKey :: k.scope == scope ==> CoveredAt(r, k) <= At(c.cursors, k))
    && (forall id :: id in obsolete ==>
          id in c.commits && c.commits[id].resource.scope == scope
            && c.commits[id].counter <= At(c.cursors, GroupKey(c.commits[id])))
  }

  function ScopeCursors(cursors: Cursors, scope: ScopeId): Cursors {
    map k | k in cursors && k.scope == scope :: cursors[k]
  }

  /** The snapshot a compactor writes: its own commits of the scope except the obsolete. */
  function SnapshotOf(c: Client, scope: ScopeId, obsolete: set<CommitId>): Snapshot {
    Snapshot(
      scope,
      set id | id in c.commits && c.commits[id].resource.scope == scope && id !in obsolete :: EventOf(c.commits[id]),
      ScopeCursors(c.cursors, scope))
  }

  /** A compaction that drops commits forgets the checkpoints of the scope; a scheduled
      snapshot drops none. */
  function KeptCheckpoints(checkpoints: map<ResourceKey, CommitId>, scope: ScopeId, obsolete: set<CommitId>)
    : map<ResourceKey, CommitId>
  {
    if obsolete == {} then checkpoints else map k | k in checkpoints && k.scope != scope :: checkpoints[k]
  }

  /** What `maintain` has checked about every commit it deletes. */
  ghost predicate MayDelete(w: World, client: ClientId, id: CommitId, n: nat)
    requires client in w.clients
  {
    var c := w.clients[client];
    id in c.commits &&
    var key := c.commits[id].resource;
    && key in c.checkpoints
    && AllAcknowledged(c.commits, w.remote.acks, c.retired, client, key, c.checkpoints[key])
    && id in Obsolete(ResourceCommits(c.commits, key), n, c.checkpoints[key], PinnedFor(w.remote.acks, key))
  }

  ghost predicate MayDeleteAll(w: World, client: ClientId, obsolete: set<CommitId>, n: nat)
    requires client in w.clients
  {
    n >= 1 && forall id :: id in obsolete ==> MayDelete(w, client, id, n)
  }

  function WithClient(w: World, client: ClientId, c: Client): World {
    w.(clients := w.clients[client := c])
  }

  ghost predicate PublishStep(w: World, w': World, client: ClientId, batch: seq<Commit>) {
    && client in w.clients && client in w.counters && IsBatchOf(w, client, batch)
    && BatchCommitted(w.remote, w'.remote, batch)
    && w' == World(
         w'.remote,
         w.clients[client := w.clients[client].(commits := w.clients[client].commits + ById(batch))],
         w.counters[client := batch[|batch| - 1].counter],
         w.published + ById(batch),
         w.removed,
         w.rank + (map id | id in Ids(batch) :: w.clock),
         w.clock + 1)
  }

  ghost predicate RefreshStep(w: World, w': World, client: ClientId, scopes: set<ScopeId>, next: Cursors) {
    && client in w.clients && client in w'.clients
    && RefreshesTo(w.remote, w.clients[client], scopes, next, w'.clients[client])
    && w' == WithClient(w, client, w'.clients[client])
  }

  ghost predicate CompactStep(
    maintainer: ClientId, w: World, w': World, client: ClientId, scope: ScopeId, obsolete: set<CommitId>)
  {
    && client in w.clients && JustRefreshed(w.remote, w.clients[client], scope, obsolete)
    && (client != maintainer ==> obsolete == {} && w.clients[client].commits.Keys !! w.removed)
    && (exists n: nat :: MayDeleteAll(w, client, obsolete, n))
    && var c := w.clients[client];
       w' == WithClient(w, client, c.(
               commits := c.commits - obsolete,
               checkpoints := KeptCheckpoints(c.checkpoints, scope, obsolete)))
             .(remote := Compacted(w.remote, SnapshotOf(c, scope, obsolete), obsolete),
               removed := w.removed + obsolete)
  }

  /** The steps that touch one client's own record, one acknowledgement or dead packs. */
  ghost predicate LocalStep(maintainer: ClientId, w: World, w': World, step: Step) {
    match step
    case Join(c) =>
      c !in w.clients && w' == WithClient(w, c, Client(map[], map[], map[], {})).(counters := w.counters[c := 0])
    case Acknowledge(c, key) =>
      && c in w.clients
      && w' == w.(remote := w.remote.(acks := w.remote.acks[AckKey(c, key) :=
                    ResourceAck(c, key, Heads(w.clients[c].commits, key), {})]))
    case Retire(c, other) =>
      c in w.clients && w' == WithClient(w, c, w.clients[c].(retired := w.clients[c].retired + {other}))
    case SetCheckpoint(c, key, id) =>
      && c == maintainer && c in w.clients
      && id in w.clients[c].commits && w.clients[c].commits[id].resource == key
      && w' == WithClient(w, c, w.clients[c].(checkpoints := w.clients[c].checkpoints[key := id]))
    case ClearCheckpoint(c, key) =>
      c in w.clients && w' == WithClient(w, c, w.clients[c].(checkpoints := w.clients[c].checkpoints - {key}))
    case Collect(c, dead) =>
      && c in w.clients
      && w' == w.(remote := w.remote.(packs := w.remote.packs - dead, indexes := w.remote.indexes - dead))
    case _ => false
  }

  /** One step of a system in which only `maintainer` deletes history. */
  ghost predicate Next(maintainer: ClientId, w: World, w': World, step: Step) {
    match step
    case Publish(c, batch) => PublishStep(w, w', c, batch)
    case Refresh(c, scopes, next) => RefreshStep(w, w', c, scopes, next)
    case Compact(c, scope, obsolete) => CompactStep(maintainer, w, w', c, scope, obsolete)
    case _ => LocalStep(maintainer, w, w', step)
  }

  ghost predicate Init(w: World) {
    w == World(Store(map[], map[], map[], {}, map[], map[]), map[], map[], map[], {}, map[], 0)
  }

  // ---- Invariants ----

  ghost predicate Submap(a: CommitMap, b: CommitMap) {
    forall id :: id in a ==> id in b && a[id] == b[id]
  }

  ghost predicate CountersFit(published: CommitMap, counters: map<ClientId, nat>) {
    forall id :: id in published ==>
      published[id].author in counters && 1 <= published[id].counter <= counters[published[id].author]
  }

  ghost predicate ParentsPublished(published: CommitMap) {
    forall id :: id in published ==> published[id].parents <= published.Keys
  }

  ghost predicate RanksBelow(rank: map<CommitId, nat>, clock: nat) {
    forall id :: id in rank ==> rank[id] < clock
  }

  ghost predicate HistoryOk(
    published: CommitMap, removed: set<CommitId>, rank: map<CommitId, nat>, clock: nat, counters: map<ClientId, nat>)
  {
    && Keyed(published) && CountersFit(published, counters) && ParentsPublished(published)
    && SameResource(published) && Ranked(published, rank) && RanksBelow(rank, clock)
    && removed <= published.Keys
  }

  ghost predicate PublishedOk(w: World) {
    HistoryOk(w.published, w.removed, w.rank, w.clock, w.counters)
  }

  ghost predicate Bounded(cursors: Cursors, counters: map<ClientId, nat>) {
    forall k :: k in cursors ==> k.client in counters && cursors[k] <= counters[k.client]
  }

  ghost predicate SegmentsBounded(segments: set<Segment>, counters: map<ClientId, nat>) {
    forall q :: q in segments ==> q.client in counters && q.last <= counters[q.client]
  }

  /** A full scan lists exactly the live commits. */
  ghost predicate Shows(r: Store, live: CommitMap) {
    forall e :: e in Visible(r) <==> e.commitId in live && e == EventOf(live[e.commitId])
  }

  ghost predicate RemoteOk(w: World) {
    && WellFormed(w.remote)
    && (forall p :: p in w.remote.snapshots ==> Bounded(w.remote.snapshots[p].cursors, w.counters))
    && SegmentsBounded(w.remote.segments, w.counters)
    && Shows(w.remote, w.Live()) && Submap(w.Live(), w.remote.commits)
    && w.remote.commits.Keys <= w.published.Keys
  }

  /** Every live commit at or below the cursor of its author and scope is known. */
  ghost predicate Sound(live: CommitMap, c: Client) {
    forall id :: id in live && live[id].counter <= At(c.cursors, GroupKey(live[id])) ==> id in c.commits
  }

  /** With each commit its parents are known, unless they were removed. */
  ghost predicate Closed(commits: CommitMap, removed: set<CommitId>) {
    forall id :: id in commits ==> commits[id].parents <= commits.Keys + removed
  }

  ghost predicate ClientOk(w: World, c: Client) {
    && Submap(c.commits, w.published) && Bounded(c.cursors, w.counters)
    && Sound(w.Live(), c) && Closed(c.commits, w.removed)
  }

  ghost predicate CheckpointsOk(c: Client) {
    forall key :: key in c.checkpoints ==>
      c.checkpoints[key] in c.commits && c.commits[c.checkpoints[key]].resource == key
  }

  ghost predicate MaintainerOk(w: World, c: Client) {
    c.commits.Keys !! w.removed && CheckpointsOk(c)
  }

  ghost predicate AckOk(w: World, k: AckKey, ack: ResourceAck) {
    && ack.client == k.client && ack.resource == k.resource && k.client in w.clients
    && ack.observedHeads <= w.clients[k.client].commits.Keys + w.removed
  }

  ghost predicate AcksOk(w: World) {
    forall k :: k in w.remote.acks ==> AckOk(w, k, w.remote.acks[k])
  }

  ghost predicate ClientsOk(w: World) {
    forall c :: c in w.clients ==> ClientOk(w, w.clients[c])
  }

  ghost predicate Inv(maintainer: ClientId, w: World) {
    && w.counters.Keys == w.clients.Keys
    && PublishedOk(w) && RemoteOk(w) && ClientsOk(w) && AcksOk(w)
    && (maintainer in w.clients ==> MaintainerOk(w, w.clients[maintainer]))
  }

  // ---- Batches ----

  lemma {:induction false} GroupMembers(commits: seq<Commit>, key: CursorKey)
    ensures forall c :: c in Group(commits, key) <==> c in commits && GroupKey(c) == key
  {
    if commits != [] {
      var rest := commits[..|commits| - 1];
      GroupMembers(rest, key);
      assert commits == rest + [commits[|rest|]];
    }
  }

  lemma {:induction false} LastCounterBounds(commits: seq<Commit>)
    ensures forall c :: c in commits ==> c.counter <= LastCounter(commits)
    ensures commits != [] ==> exists c :: c in commits && c.counter == LastCounter(commits)
  {
    if commits != [] {
      var rest := commits[..|commits| - 1];
      LastCounterBounds(rest);
      assert commits == rest + [commits[|rest|]];
      assert commits[|rest|] in commits;
    }
  }

  lemma {:induction false} FirstCounterBounds(commits: seq<Commit>)
    ensures forall c :: c in commits ==> FirstCounter(commits) <= c.counter
    ensures commits != [] ==> exists c :: c in commits && c.counter == FirstCounter(commits)
  {
    if commits != [] {
      var rest := commits[..|commits| - 1];
      FirstCounterBounds(rest);
      assert commits == rest + [commits[|rest|]];
      assert commits[|rest|] in commits;
    }
  }

  /** The segment of a group holds exactly the group's events, from its first counter to
      its last. */
  lemma SegmentOfGroup(batch: seq<Commit>, key: CursorKey)
    requires key in GroupKeys(batch)
    ensures var q := SegmentOf(batch, key);
            && q.Key() == key
            && (forall e :: e in q.events <==> exists c :: c in batch && GroupKey(c) == key && e == EventOf(c))
            && (forall e :: e in q.events ==> q.first <= e.counter <= q.last)
            && (exists c :: c in batch && GroupKey(c) == key && q.first == c.counter)
            && exists c :: c in batch && GroupKey(c) == key && q.last == c.counter
  {
    GroupMembers(batch, key);
    FirstCounterBounds(Group(batch, key));
    LastCounterBounds(Group(batch, key));
    var c :| c in batch && GroupKey(c) == key;
    assert c in Group(batch, key);
  }

  lemma {:induction false} ByIdMeaning(batch: seq<Commit>)
    requires forall i, j :: 0 <= i < j < |batch| ==> batch[i].id != batch[j].id
    ensures ById(batch).Keys == Ids(batch)
    ensures forall c :: c in batch ==> c.id in ById(batch) && ById(batch)[c.id] == c
    ensures forall id :: id in ById(batch) ==> ById(batch)[id] in batch && ById(batch)[id].id == id
  {
    if batch != [] {
      var rest, last := batch[..|batch| - 1], batch[|batch| - 1];
      ByIdMeaning(rest);
      assert batch == rest + [last];
      LastIdIsNew(batch);
      ByIdGrows(rest, last);
    }
  }

  lemma LastIdIsNew(batch: seq<Commit>)
    requires batch != [] && forall i, j :: 0 <= i < j < |batch| ==> batch[i].id != batch[j].id
    ensures forall c :: c in batch[..|batch| - 1] ==> c.id != batch[|batch| - 1].id
  {
    var rest := batch[..|batch| - 1];
    forall c | c in rest ensures c.id != batch[|rest|].id {
      var i :| 0 <= i < |rest| && rest[i] == c;
      assert batch[i].id != batch[|rest|].id;
    }
  }

  lemma ByIdGrows(rest: seq<Commit>, last: Commit)
    requires ById(rest).Keys == Ids(rest) && forall c :: c in rest ==>
      c.id != last.id && c.id in ById(rest) && ById(rest)[c.id] == c
    requires forall id :: id in ById(rest) ==> ById(rest)[id] in rest && ById(rest)[id].id == id
    ensures var all := ById(rest + [last]);
            && all == ById(rest)[last.id := last] && all.Keys == Ids(rest + [last])
            && (forall c :: c in rest + [last] ==> c.id in all && all[c.id] == c)
            && (forall id :: id in all ==> all[id] in rest + [last] && all[id].id == id)
  {
    var batch := rest + [last];
    assert batch[..|batch| - 1] == rest;
    assert Ids(batch) == Ids(rest) + {last.id};
  }

  lemma BatchBounds(w: World, client: ClientId, batch: seq<Commit>)
    requires client in w.clients && client in w.counters && IsBatchOf(w, client, batch)
    ensures forall c :: c in batch ==>
      && c.author == client && c.id !in w.published && c.parents == Heads(w.clients[client].commits, c.resource)
      && w.counters[client] < c.counter <= batch[|batch| - 1].counter
  {
    forall c | c in batch
      ensures c.author == client && c.id !in w.published && c.parents == Heads(w.clients[client].commits, c.resource)
      ensures w.counters[client] < c.counter <= batch[|batch| - 1].counter
    {
      var i :| 0 <= i < |batch| && batch[i] == c;
    }
  }
}
