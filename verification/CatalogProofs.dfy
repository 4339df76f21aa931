/** What every step of the catalog protocol keeps, and what follows over whole runs. */
module CatalogProofs {
  import opened Types
  import opened CommitGraph
  import opened Binary
  import opened Remote
  import opened ChunkStore
  import opened Retention
  import opened Catalog

  // ---- Scans in a well-formed store ----

  /** An event is visible when the snapshot of its scope lists it or some segment does
      beyond what that snapshot covers. */
  lemma VisibleMeaning(r: Store, e: CatalogEvent)
    requires WellFormed(r)
    ensures e in Visible(r) <==>
            || (e.resource.scope in r.snapshots && e in r.snapshots[e.resource.scope].events)
            || (exists q :: q in r.segments && e in q.events && e.counter > CoveredAt(r, e.Key()))
  {
    ScanMembers(r, {}, map[], e);
    if Shown(r, e) {
      ShownEventsCount(r, e);
    }
  }

  lemma ShownEventsCount(r: Store, e: CatalogEvent)
    requires WellFormed(r) && Shown(r, e)
    ensures e.counter >= 1
  {
  }

  lemma VisibleFrame(r: Store, r': Store)
    requires WellFormed(r) && r'.snapshots == r.snapshots && r'.segments == r.segments
    ensures WellFormed(r') && Visible(r') == Visible(r)
  {
    forall e ensures e in Visible(r') <==> e in Visible(r) {
      VisibleMeaning(r, e);
      VisibleMeaning(r', e);
    }
  }

  lemma ScanMeaning(r: Store, scopes: set<ScopeId>, cursors: Cursors, e: CatalogEvent)
    requires WellFormed(r)
    ensures e in ScanEvents(r, scopes, cursors) <==>
            e in Visible(r) && InScope(scopes, e.resource.scope) && e.counter > At(cursors, e.Key())
  {
    IncrementalEvents(r, scopes, cursors);
    ScanIsVisibleInScope(r, scopes);
  }

  // ---- Publish ----

  ghost predicate CommitsAdded(before: CommitMap, commits: seq<Commit>, after: CommitMap) {
    && after.Keys == before.Keys + Ids(commits)
    && (forall id :: id in before ==> after[id] == before[id])
    && (forall c :: c in commits && c.id !in before ==> after[c.id] == c)
  }

  ghost predicate DistinctIds(commits: seq<Commit>) {
    forall i, j :: 0 <= i < j < |commits| ==> commits[i].id != commits[j].id
  }

  lemma CommitsAddedStep(before: CommitMap, rest: seq<Commit>, last: Commit, mid: CommitMap)
    requires DistinctIds(rest + [last]) && CommitsAdded(before, rest, mid)
    ensures CommitsAdded(before, rest + [last], if last.id in mid then mid else mid[last.id := last])
  {
    var all := rest + [last];
    forall c | c in rest ensures c.id != last.id {
      var i :| 0 <= i < |rest| && rest[i] == c;
      assert all[i].id != all[|rest|].id;
    }
    assert Ids(all) == Ids(rest) + {last.id};
  }

  lemma {:induction false} CommitWritesMeaning(r: Store, commits: seq<Commit>)
    requires DistinctIds(commits)
    ensures var r' := ApplyAll(r, CommitWrites(commits));
            r' == r.(commits := r'.commits) && CommitsAdded(r.commits, commits, r'.commits)
  {
    if commits != [] {
      var rest, last := commits[..|commits| - 1], commits[|commits| - 1];
      CommitWritesMeaning(r, rest);
      assert commits == rest + [last];
      assert CommitWrites(commits) == CommitWrites(rest) + [PutCommit(last)];
      ApplyStep(r, CommitWrites(rest), PutCommit(last));
      CommitsAddedStep(r.commits, rest, last, ApplyAll(r, CommitWrites(rest)).commits);
    }
  }

  lemma SegmentsStep(commits: seq<Commit>, rest: seq<CursorKey>, last: CursorKey)
    ensures (set k | k in rest + [last] :: SegmentOf(commits, k)) == (set k | k in rest ::
      SegmentOf(commits, k)) + {SegmentOf(commits, last)}
  {
    var all := rest + [last];
    assert forall k :: k in all <==> k in rest || k == last;
  }

  lemma {:induction false} SegmentWritesMeaning(r: Store, commits: seq<Commit>, order: seq<CursorKey>)
    ensures ApplyAll(r, SegmentWrites(commits, order))
            == r.(segments := r.segments + set k | k in order :: SegmentOf(commits, k))
  {
    if order == [] {
      assert r.segments + (set k | k in order :: SegmentOf(commits, k)) == r.segments;
    } else {
      var rest, last := order[..|order| - 1], order[|order| - 1];
      SegmentWritesMeaning(r, commits, rest);
      SegmentWritesStep(commits, rest, last);
      assert order == rest + [last];
      ApplyStep(r, SegmentWrites(commits, rest), PutSegment(SegmentOf(commits, last)));
      SegmentsStep(commits, rest, last);
    }
  }

  lemma SegmentWritesStep(commits: seq<Commit>, rest: seq<CursorKey>, last: CursorKey)
    ensures SegmentWrites(commits, rest + [last]) ==
      SegmentWrites(commits, rest) + [PutSegment(SegmentOf(commits, last))]
  {
  }

  lemma {:induction false} PackWritesFrame(r: Store, packs: seq<Pack>)
    ensures var r' := ApplyAll(r, PackWrites(packs)); r' == r.(packs := r'.packs)
  {
    if packs != [] {
      PackWritesFrame(r, packs[..|packs| - 1]);
      assert PackWrites(packs)[..|packs| - 1] == PackWrites(packs[..|packs| - 1]);
    }
  }

  lemma {:induction false} IndexWritesFrame(r: Store, packs: seq<Pack>)
    ensures var r' := ApplyAll(r, IndexWrites(packs)); r' == r.(indexes := r'.indexes)
  {
    if packs != [] {
      IndexWritesFrame(r, packs[..|packs| - 1]);
      assert IndexWrites(packs)[..|packs| - 1] == IndexWrites(packs[..|packs| - 1]);
    }
  }

  /** The writes of `commit_batch`, in whatever order of groups, amount to the publish step. */
  lemma CommitBatchPublishes(r: Store, batch: CommitBatch, order: seq<CursorKey>)
    requires Lists(order, GroupKeys(batch.commits))
    requires DistinctIds(batch.commits)
    ensures BatchCommitted(r, ApplyAll(r, BatchLog(batch, order)), batch.commits)
  {
    var p, x, c, s := PackWrites(batch.packs), IndexWrites(batch.packs), CommitWrites(batch.commits),
      SegmentWrites(batch.commits, order);
    ApplyConcat(r, p, x);
    ApplyConcat(r, p + x, c);
    ApplyConcat(r, p + x + c, s);
    PackWritesFrame(r, batch.packs);
    IndexWritesFrame(ApplyAll(r, p), batch.packs);
    CommitWritesMeaning(ApplyAll(r, p + x), batch.commits);
    SegmentWritesMeaning(ApplyAll(r, p + x + c), batch.commits, order);
    assert (set k | k in order :: SegmentOf(batch.commits, k)) == (set k | k in GroupKeys(batch.commits) ::
      SegmentOf(batch.commits, k));
  }

  lemma BatchWritesIndexes(r: Store, batch: CommitBatch, order: seq<CursorKey>)
    requires DistinctIds(batch.commits)
    ensures var r' := ApplyAll(r, BatchLog(batch, order));
            r'.packs == WithPacks(r, batch.packs).packs && r'.indexes == WithPacks(r, batch.packs).indexes
  {
    var p, x, c, s := PackWrites(batch.packs), IndexWrites(batch.packs), CommitWrites(batch.commits),
      SegmentWrites(batch.commits, order);
    ApplyConcat(r, p, x);
    ApplyConcat(r, p + x, c);
    ApplyConcat(r, p + x + c, s);
    CommitWritesMeaning(ApplyAll(r, p + x), batch.commits);
    SegmentWritesMeaning(ApplyAll(r, p + x + c), batch.commits, order);
  }

  lemma PublishedSegments(w: World, client: ClientId, batch: seq<Commit>)
    requires client in w.clients && client in w.counters && IsBatchOf(w, client, batch)
    ensures forall k :: k in GroupKeys(batch) ==>
      var q := SegmentOf(batch, k);
      && WellFormedSegment(q) && q.client == client && q.last <= batch[|batch| - 1].counter
      && forall e :: e in q.events ==> exists c :: c in batch && e == EventOf(c)
    ensures forall c :: c in batch ==> EventOf(c) in SegmentOf(batch, GroupKey(c)).events
  {
    BatchBounds(w, client, batch);
    forall k | k in GroupKeys(batch)
      ensures var q := SegmentOf(batch, k);
              && WellFormedSegment(q) && q.client == client && q.last <= batch[|batch| - 1].counter
              && forall e :: e in q.events ==> exists c :: c in batch && e == EventOf(c)
    {
      SegmentOfGroup(batch, k);
    }
    forall c | c in batch ensures EventOf(c) in SegmentOf(batch, GroupKey(c)).events {
      assert GroupKey(c) in GroupKeys(batch);
      SegmentOfGroup(batch, GroupKey(c));
    }
  }

  /** Adding segments above what the snapshots cover adds exactly their events. */
  lemma NewSegmentsAreVisible(r: Store, r': Store, added: set<Segment>, e: CatalogEvent)
    requires WellFormed(r) && r'.snapshots == r.snapshots && r'.segments == r.segments + added
    requires forall q :: q in added ==> WellFormedSegment(q)
    requires forall q, e :: q in added && e in q.events ==> e.counter > CoveredAt(r, e.Key())
    ensures WellFormed(r')
    ensures e in Visible(r') <==> e in Visible(r) || exists q :: q in added && e in q.events
  {
    VisibleMeaning(r, e);
    VisibleMeaning(r', e);
    assert CoveredAt(r', e.Key()) == CoveredAt(r, e.Key());
  }

  lemma CoverIsBounded(w: World, k: CursorKey)
    requires RemoteOk(w)
    ensures CoveredAt(w.remote, k) == 0 || (k.client in w.counters && CoveredAt(w.remote, k) <= w.counters[k.client])
  {
    if CoveredAt(w.remote, k) != 0 {
      assert Bounded(w.remote.snapshots[k.scope].cursors, w.counters);
    }
  }

  /** New commits under known ones: what publishing appends to the history. */
  ghost predicate Extends(published: CommitMap, added: CommitMap, counters: map<ClientId, nat>) {
    && Keyed(added) && added.Keys !! published.Keys && CountersFit(added, counters)
    && forall id, p :: id in added && p in added[id].parents ==>
        p in published && published[p].resource == added[id].resource
  }

  lemma ExtendHistory(published: CommitMap, removed: set<CommitId>, rank: map<CommitId, nat>, clock: nat,
    counters: map<ClientId, nat>,
                      added: CommitMap, counters': map<ClientId, nat>)
    requires HistoryOk(published, removed, rank, clock, counters) && Extends(published, added, counters')
    requires forall c :: c in counters ==> c in counters' && counters[c] <= counters'[c]
    ensures HistoryOk(published + added, removed, rank + (map id | id in added.Keys :: clock), clock + 1, counters')
    ensures (published + added) - removed == (published - removed) + added
  {
    ExtendRanks(published, rank, clock, added);
    ExtendShape(published, counters, added, counters');
    ExtendLive(published, removed, added);
  }

  lemma ExtendLive(published: CommitMap, removed: set<CommitId>, added: CommitMap)
    requires removed <= published.Keys && added.Keys !! published.Keys
    ensures (published + added) - removed == (published - removed) + added
  {
  }

  lemma ExtendShape(published: CommitMap, counters: map<ClientId, nat>, added: CommitMap, counters': map<ClientId, nat>)
    requires Keyed(published) && CountersFit(published, counters) && ParentsPublished(published)
      && SameResource(published)
    requires Extends(published, added, counters')
    requires forall c :: c in counters ==> c in counters' && counters[c] <= counters'[c]
    ensures var all := published + added;
      Keyed(all) && CountersFit(all, counters') && ParentsPublished(all) && SameResource(all)
  {
    var all := published + added;
    forall id, p | id in all && p in all[id].parents
      ensures p in published && published[p].resource == all[id].resource
    {
      if id in published {
        assert published[id].parents <= published.Keys;
      }
    }
    assert CountersFit(all, counters');
  }

  lemma ExtendRanks(published: CommitMap, rank: map<CommitId, nat>, clock: nat, added: CommitMap)
    requires Ranked(published, rank) && RanksBelow(rank, clock) && ParentsPublished(published)
    requires added.Keys !! published.Keys
    requires forall id, p :: id in added && p in added[id].parents ==> p in published
    ensures Ranked(published + added, rank + (map id | id in added.Keys :: clock))
    ensures RanksBelow(rank + (map id | id in added.Keys :: clock), clock + 1)
  {
    var all, rank' := published + added, rank + (map id | id in added.Keys :: clock);
    forall id, p | id in all && p in all[id].parents && p in all ensures rank'[p] < rank'[id] {
      if id in published {
        assert published[id].parents <= published.Keys;
      }
      assert p in published && rank'[p] == rank[p];
    }
  }

  /** The commits of a batch are new, above the author's counter, and hang below known ones. */
  lemma BatchExtends(w: World, client: ClientId, batch: seq<Commit>)
    requires client in w.clients && client in w.counters && IsBatchOf(w, client, batch)
    requires Submap(w.clients[client].commits, w.published)
    ensures ById(batch).Keys == Ids(batch)
    ensures Extends(w.published, ById(batch), w.counters[client := batch[|batch| - 1].counter])
    ensures forall id :: id in ById(batch) ==>
      && ById(batch)[id] in batch && ById(batch)[id].author == client && ById(batch)[id].counter > w.counters[client]
      && ById(batch)[id].parents <= w.clients[client].commits.Keys
    ensures batch[|batch| - 1].counter > w.counters[client]
  {
    ByIdMeaning(batch);
    BatchBounds(w, client, batch);
    var own := w.clients[client].commits;
    forall c, p | c in batch && p in c.parents
      ensures p in own && p in w.published && w.published[p].resource == c.resource
    {
      HeadsMeaning(own, c.resource, p);
    }
    assert batch[|batch| - 1] in batch;
  }

  lemma PublishKeepsHistory(w: World, w': World, client: ClientId, batch: seq<Commit>)
    requires PublishedOk(w) && PublishStep(w, w', client, batch) && Submap(w.clients[client].commits, w.published)
    ensures PublishedOk(w') && w'.Live() == w.Live() + ById(batch)
  {
    BatchExtends(w, client, batch);
    ExtendHistory(w.published, w.removed, w.rank, w.clock, w.counters, ById(batch), w'.counters);
  }

  lemma PublishShows(w: World, w': World, client: ClientId, batch: seq<Commit>)
    requires RemoteOk(w) && PublishStep(w, w', client, batch) && Submap(w.clients[client].commits, w.published)
    requires w'.Live() == w.Live() + ById(batch) && w.Live().Keys <= w.published.Keys
    ensures WellFormed(w'.remote) && Shows(w'.remote, w'.Live())
  {
    BatchExtends(w, client, batch);
    PublishedSegments(w, client, batch);
    var added := set k | k in GroupKeys(batch) :: SegmentOf(batch, k);
    forall q, e | q in added && e in q.events ensures e.counter > CoveredAt(w.remote, e.Key()) {
      CoverIsBounded(w, e.Key());
      BatchBounds(w, client, batch);
    }
    forall e
      ensures WellFormed(w'.remote)
      ensures e in Visible(w'.remote) <==> e.commitId in w'.Live() && e == EventOf(w'.Live()[e.commitId])
    {
      NewSegmentsAreVisible(w.remote, w'.remote, added, e);
      NewEvents(w, client, batch, e);
    }
  }

  lemma NewEvents(w: World, client: ClientId, batch: seq<Commit>, e: CatalogEvent)
    requires client in w.clients && client in w.counters && IsBatchOf(w, client, batch)
    ensures (exists q :: q in (set k | k in GroupKeys(batch) :: SegmentOf(batch, k)) && e in q.events)
            <==> e.commitId in ById(batch) && e == EventOf(ById(batch)[e.commitId])
  {
    PublishedSegments(w, client, batch);
    ByIdMeaning(batch);
    if e.commitId in ById(batch) && e == EventOf(ById(batch)[e.commitId]) {
      var c := ById(batch)[e.commitId];
      assert GroupKey(c) in GroupKeys(batch) && e in SegmentOf(batch, GroupKey(c)).events;
    }
  }

  lemma PublishKeepsRemote(w: World, w': World, client: ClientId, batch: seq<Commit>)
    requires PublishedOk(w) && RemoteOk(w) && PublishStep(w, w', client, batch)
      && Submap(w.clients[client].commits, w.published)
    ensures RemoteOk(w')
  {
    PublishKeepsHistory(w, w', client, batch);
    PublishShows(w, w', client, batch);
    BatchExtends(w, client, batch);
    PublishKeepsSegmentBounds(w, w', client, batch);
    PublishKeepsCoverBounds(w, w', client, batch);
    forall id | id in w'.Live() ensures id in w'.remote.commits && w'.remote.commits[id] == w'.Live()[id] {
      if id in ById(batch) {
        assert id !in w.remote.commits && ById(batch)[id] in batch;
      }
    }
  }

  lemma BoundedGrows(cursors: Cursors, counters: map<ClientId, nat>, counters': map<ClientId, nat>)
    requires Bounded(cursors, counters)
    requires forall c :: c in counters ==> c in counters' && counters[c] <= counters'[c]
    ensures Bounded(cursors, counters')
  {
  }

  lemma SegmentsBoundedGrows(
    segments: set<Segment>, added: set<Segment>, counters: map<ClientId, nat>, counters': map<ClientId, nat>)
    requires SegmentsBounded(segments, counters) && SegmentsBounded(added, counters')
    requires forall c :: c in counters ==> c in counters' && counters[c] <= counters'[c]
    ensures SegmentsBounded(segments + added, counters')
  {
  }

  lemma PublishKeepsSegmentBounds(w: World, w': World, client: ClientId, batch: seq<Commit>)
    requires SegmentsBounded(w.remote.segments, w.counters)
    requires PublishStep(w, w', client, batch) && batch[|batch| - 1].counter > w.counters[client]
    ensures SegmentsBounded(w'.remote.segments, w'.counters)
  {
    BatchKeepsSegmentBounds(w, client, batch);
  }

  lemma BatchKeepsSegmentBounds(w: World, client: ClientId, batch: seq<Commit>)
    requires SegmentsBounded(w.remote.segments, w.counters)
    requires client in w.clients && client in w.counters && IsBatchOf(w, client, batch)
    requires batch[|batch| - 1].counter > w.counters[client]
    ensures SegmentsBounded(w.remote.segments + (set k | k in GroupKeys(batch) :: SegmentOf(batch, k)),
                            w.counters[client := batch[|batch| - 1].counter])
  {
    var counters := w.counters[client := batch[|batch| - 1].counter];
    NewSegmentsAreBounded(w, client, batch, counters);
    SegmentsBoundedGrows(w.remote.segments, set k | k in GroupKeys(batch) :: SegmentOf(batch, k), w.counters, counters);
  }

  lemma NewSegmentsAreBounded(w: World, client: ClientId, batch: seq<Commit>, counters': map<ClientId, nat>)
    requires client in w.clients && client in w.counters && IsBatchOf(w, client, batch)
    requires client in counters' && counters'[client] == batch[|batch| - 1].counter
    ensures SegmentsBounded(set k | k in GroupKeys(batch) :: SegmentOf(batch, k), counters')
  {
    PublishedSegments(w, client, batch);
  }

  lemma PublishKeepsCoverBounds(w: World, w': World, client: ClientId, batch: seq<Commit>)
    requires forall p :: p in w.remote.snapshots ==> Bounded(w.remote.snapshots[p].cursors, w.counters)
    requires PublishStep(w, w', client, batch) && batch[|batch| - 1].counter > w.counters[client]
    ensures forall p :: p in w'.remote.snapshots ==> Bounded(w'.remote.snapshots[p].cursors, w'.counters)
  {
    forall p | p in w.remote.snapshots ensures Bounded(w.remote.snapshots[p].cursors, w'.counters) {
      BoundedGrows(w.remote.snapshots[p].cursors, w.counters, w'.counters);
    }
  }

  /** New commits lie above every cursor for their author. */
  lemma ExtendSound(
    live: CommitMap, c: Client, added: CommitMap, client: ClientId, counters: map<ClientId, nat>, commits': CommitMap)
    requires Sound(live, c) && Bounded(c.cursors, counters) && client in counters
    requires forall id :: id in added ==> added[id].author == client && added[id].counter > counters[client]
    requires c.commits.Keys <= commits'.Keys
    ensures Sound(live + added, c.(commits := commits'))
  {
    forall id | id in added ensures At(c.cursors, GroupKey(added[id])) < added[id].counter {
      assert GroupKey(added[id]).client == client;
    }
  }

  /** What a publish step does to the clients, with the batch reduced to the commits it adds. */
  ghost predicate PublishFrame(w: World, w': World, client: ClientId, added: CommitMap) {
    && client in w.clients && client in w.counters && client in w'.counters
    && w'.clients == w.clients[client := w.clients[client].(commits := w.clients[client].commits + added)]
    && w'.counters == w.counters[client := w'.counters[client]] && w'.counters[client] > w.counters[client]
    && w'.published == w.published + added && w'.removed == w.removed && w'.remote.acks == w.remote.acks
    && added.Keys !! w.published.Keys
    && forall id :: id in added ==>
         && added[id].author == client && added[id].counter > w.counters[client]
         && added[id].parents <= w.clients[client].commits.Keys
  }

  lemma PublishStepFrame(w: World, w': World, client: ClientId, batch: seq<Commit>)
    requires PublishStep(w, w', client, batch) && Submap(w.clients[client].commits, w.published)
    ensures PublishFrame(w, w', client, ById(batch))
  {
    BatchExtends(w, client, batch);
  }

  lemma PublishKeepsClient(w: World, w': World, client: ClientId, added: CommitMap, c: ClientId)
    requires PublishFrame(w, w', client, added) && w'.Live() == w.Live() + added
    requires c in w.clients && ClientOk(w, w.clients[c])
    ensures ClientOk(w', w'.clients[c])
  {
    BoundedGrows(w.clients[c].cursors, w.counters, w'.counters);
    ExtendSound(w.Live(), w.clients[c], added, client, w.counters, w'.clients[c].commits);
    PublishKeepsClosed(w, w', client, added, c);
  }

  lemma PublishKeepsClosed(w: World, w': World, client: ClientId, added: CommitMap, c: ClientId)
    requires PublishFrame(w, w', client, added) && c in w.clients
    requires Submap(w.clients[c].commits, w.published) && Closed(w.clients[c].commits, w.removed)
    ensures Submap(w'.clients[c].commits, w'.published) && Closed(w'.clients[c].commits, w'.removed)
  {
  }

  lemma PublishKeepsClients(w: World, w': World, client: ClientId, added: CommitMap)
    requires PublishFrame(w, w', client, added) && w'.Live() == w.Live() + added && ClientsOk(w)
    ensures ClientsOk(w')
  {
    forall c | c in w'.clients ensures ClientOk(w', w'.clients[c]) {
      assert ClientOk(w, w.clients[c]);
      PublishKeepsClient(w, w', client, added, c);
    }
  }

  lemma PublishKeepsAcks(w: World, w': World, client: ClientId, added: CommitMap)
    requires PublishFrame(w, w', client, added) && AcksOk(w)
    ensures AcksOk(w')
  {
    forall k | k in w'.remote.acks ensures AckOk(w', k, w'.remote.acks[k]) {
      assert AckOk(w, k, w.remote.acks[k]);
    }
  }

  lemma PublishKeepsMaintainer(w: World, w': World, client: ClientId, added: CommitMap, c: ClientId)
    requires PublishFrame(w, w', client, added) && c in w.clients && MaintainerOk(w, w.clients[c])
    requires w.removed <= w.published.Keys && Submap(w.clients[c].commits, w.published)
    ensures MaintainerOk(w', w'.clients[c])
  {
    var known := w.clients[c];
    forall key | key in known.checkpoints
      ensures known.checkpoints[key] in w'.clients[c].commits
        && w'.clients[c].commits[known.checkpoints[key]].resource == key
    {
      assert known.checkpoints[key] in known.commits && known.checkpoints[key] in w.published;
    }
  }

  lemma PublishKeepsInv(maintainer: ClientId, w: World, w': World, client: ClientId, batch: seq<Commit>)
    requires Inv(maintainer, w) && PublishStep(w, w', client, batch)
    ensures Inv(maintainer, w')
  {
    assert ClientOk(w, w.clients[client]);
    PublishStepFrame(w, w', client, batch);
    PublishKeepsHistory(w, w', client, batch);
    PublishKeepsRemote(w, w', client, batch);
    PublishKeepsRest(maintainer, w, w', client, ById(batch));
  }

  lemma PublishKeepsRest(maintainer: ClientId, w: World, w': World, client: ClientId, added: CommitMap)
    requires Inv(maintainer, w) && PublishFrame(w, w', client, added) && w'.Live() == w.Live() + added
    ensures ClientsOk(w') && AcksOk(w') && w'.counters.Keys == w'.clients.Keys
    ensures maintainer in w'.clients ==> MaintainerOk(w', w'.clients[maintainer])
  {
    PublishKeepsClients(w, w', client, added);
    PublishKeepsAcks(w, w', client, added);
    if maintainer in w.clients {
      assert ClientOk(w, w.clients[maintainer]);
      PublishKeepsMaintainer(w, w', client, added, maintainer);
    }
  }

  // ---- Refresh ----

  lemma ScanOfLive(r: Store, live: CommitMap, scopes: set<ScopeId>, cursors: Cursors, e: CatalogEvent)
    requires WellFormed(r) && Shows(r, live)
    ensures e in ScanEvents(r, scopes, cursors) <==>
            && e.commitId in live && e == EventOf(live[e.commitId])
            && InScope(scopes, e.resource.scope) && e.counter > At(cursors, e.Key())
  {
    ScanMeaning(r, scopes, cursors, e);
  }

  lemma NewIdsAreLive(r: Store, live: CommitMap, c: Client, scopes: set<ScopeId>, id: CommitId)
    requires WellFormed(r) && Shows(r, live) && Keyed(live) && Sound(live, c)
    ensures id in NewIds(c, ScanEvents(r, scopes, c.cursors)) <==>
            id in live && id !in c.commits && InScope(scopes, live[id].resource.scope)
  {
    var events := ScanEvents(r, scopes, c.cursors);
    if id in NewIds(c, events) {
      var e :| e in events && e.commitId !in c.commits && e.commitId == id;
      ScanOfLive(r, live, scopes, c.cursors, e);
    }
    if id in live && id !in c.commits && InScope(scopes, live[id].resource.scope) {
      var e := EventOf(live[id]);
      assert e.Key() == GroupKey(live[id]);
      ScanOfLive(r, live, scopes, c.cursors, e);
      assert e in events;
    }
  }

  /** After a refresh the client holds every live commit of the scopes it asked for, and
      what it learned is live. */
  lemma RefreshCatchesUp(
    r: Store, live: CommitMap, c: Client, scopes: set<ScopeId>, next: Cursors, c': Client, id: CommitId)
    requires WellFormed(r) && Shows(r, live) && Keyed(live) && Submap(live, r.commits) && Sound(live, c)
    requires RefreshesTo(r, c, scopes, next, c')
    ensures id in c'.commits <==> id in c.commits || (id in live && InScope(scopes, live[id].resource.scope))
    ensures id in c.commits ==> c'.commits[id] == c.commits[id]
    ensures id in c'.commits && id !in c.commits ==> c'.commits[id] == live[id]
  {
    NewIdsAreLive(r, live, c, scopes, id);
  }

  /** A refresh moves the cursors past every snapshot and segment of its scopes. */
  lemma RefreshPasses(r: Store, c: Client, scopes: set<ScopeId>, next: Cursors, c': Client, k: CursorKey)
    requires RefreshesTo(r, c, scopes, next, c') && InScope(scopes, k.scope)
    ensures CoveredAt(r, k) <= At(c'.cursors, k)
    ensures forall q :: q in r.segments && q.Key() == k ==> q.last <= At(c'.cursors, k)
  {
    var ps, qs := r.snapshots.Keys, r.segments;
    assert At(c'.cursors, k) == Max(At(c.cursors, k), At(next, k));
    if k.scope in r.snapshots && k in r.snapshots[k.scope].cursors {
      assert Offers(r, scopes, c.cursors, ps, qs, k, r.snapshots[k.scope].cursors[k]);
    }
    forall q | q in r.segments && q.Key() == k ensures q.last <= At(c'.cursors, k) {
      if q.last > Floor(r, c.cursors, k) {
        assert Offers(r, scopes, c.cursors, ps, qs, k, q.last);
      }
    }
  }

  lemma RefreshCursor(
    r: Store, counters: map<ClientId, nat>, c: Client, scopes: set<ScopeId>, next: Cursors, c': Client, k: CursorKey)
    requires RefreshesTo(r, c, scopes, next, c')
    requires Bounded(c.cursors, counters) && SegmentsBounded(r.segments, counters)
    requires forall p :: p in r.snapshots ==> Bounded(r.snapshots[p].cursors, counters)
    ensures k in c'.cursors ==> k.client in counters && c'.cursors[k] <= counters[k.client]
    ensures !InScope(scopes, k.scope) ==> At(c'.cursors, k) == At(c.cursors, k)
    ensures InScope(scopes, k.scope) ==> CoveredAt(r, k) <= At(c'.cursors, k)
    ensures InScope(scopes, k.scope) ==> forall q :: q in r.segments && q.Key() == k ==> q.last <= At(c'.cursors, k)
  {
    var ps, qs := r.snapshots.Keys, r.segments;
    assert At(c'.cursors, k) == Max(At(c.cursors, k), At(next, k));
    if k in next {
      assert Offers(r, scopes, c.cursors, ps, qs, k, next[k]);
    }
    assert k in c'.cursors ==> c'.cursors[k] == At(c'.cursors, k) && (k in c.cursors || k in next);
    if InScope(scopes, k.scope) {
      RefreshPasses(r, c, scopes, next, c', k);
    }
  }

  lemma LiveIsKeyed(w: World)
    requires PublishedOk(w)
    ensures Keyed(w.Live()) && Submap(w.Live(), w.published)
  {
  }

  lemma RefreshedCommits(w: World, c: Client, scopes: set<ScopeId>, next: Cursors, c': Client)
    requires PublishedOk(w) && RemoteOk(w) && ClientOk(w, c) && RefreshesTo(w.remote, c, scopes, next, c')
    ensures Submap(c'.commits, w.published)
    ensures Closed(c'.commits, w.removed)
  {
    LiveIsKeyed(w);
    forall id ensures id in c'.commits ==> id in w.published && c'.commits[id] == w.published[id] {
      RefreshCatchesUp(w.remote, w.Live(), c, scopes, next, c', id);
    }
    forall id, p | id in c'.commits && p in c'.commits[id].parents ensures p in c'.commits || p in w.removed {
      RefreshCatchesUp(w.remote, w.Live(), c, scopes, next, c', id);
      RefreshCatchesUp(w.remote, w.Live(), c, scopes, next, c', p);
      if id in c.commits {
        assert c.commits[id].parents <= c.commits.Keys + w.removed;
      } else {
        assert w.published[id].parents <= w.published.Keys;
      }
    }
  }

  lemma RefreshedCursors(w: World, c: Client, scopes: set<ScopeId>, next: Cursors, c': Client)
    requires PublishedOk(w) && RemoteOk(w) && ClientOk(w, c) && RefreshesTo(w.remote, c, scopes, next, c')
    ensures Bounded(c'.cursors, w.counters)
    ensures Sound(w.Live(), c')
  {
    LiveIsKeyed(w);
    forall k | k in c'.cursors ensures k.client in w.counters && c'.cursors[k] <= w.counters[k.client] {
      RefreshCursor(w.remote, w.counters, c, scopes, next, c', k);
    }
    var live := w.Live();
    forall id | id in live && live[id].counter <= At(c'.cursors, GroupKey(live[id])) ensures id in c'.commits {
      RefreshCursor(w.remote, w.counters, c, scopes, next, c', GroupKey(live[id]));
      RefreshCatchesUp(w.remote, live, c, scopes, next, c', id);
    }
  }

  lemma RefreshKeepsMaintainer(w: World, c: Client, scopes: set<ScopeId>, next: Cursors, c': Client)
    requires PublishedOk(w) && RemoteOk(w) && ClientOk(w, c) && RefreshesTo(w.remote, c, scopes, next, c')
    ensures c.commits.Keys <= c'.commits.Keys
    ensures MaintainerOk(w, c) ==> MaintainerOk(w, c')
  {
    LiveIsKeyed(w);
    forall id ensures id in c.commits ==> id in c'.commits && c'.commits[id] == c.commits[id]
              ensures id in c'.commits && id !in c.commits ==> id in w.Live() {
      RefreshCatchesUp(w.remote, w.Live(), c, scopes, next, c', id);
    }
    assert MaintainerOk(w, c) ==> forall key :: key in c.checkpoints ==> c.checkpoints[key] in c.commits;
  }

  lemma RefreshKeepsInv(maintainer: ClientId, w: World, w': World, c: ClientId, scopes: set<ScopeId>, next: Cursors)
    requires Inv(maintainer, w) && RefreshStep(w, w', c, scopes, next)
    ensures Inv(maintainer, w')
  {
    assert ClientOk(w, w.clients[c]);
    RefreshedCommits(w, w.clients[c], scopes, next, w'.clients[c]);
    RefreshedCursors(w, w.clients[c], scopes, next, w'.clients[c]);
    RefreshKeepsMaintainer(w, w.clients[c], scopes, next, w'.clients[c]);
    OneClientChanged(maintainer, w, c, w'.clients[c]);
  }

  /** Replacing one client's record by a well-behaved one that forgets nothing. */
  lemma OneClientChanged(maintainer: ClientId, w: World, client: ClientId, c: Client)
    requires Inv(maintainer, w) && client in w.clients && ClientOk(w, c)
    requires w.clients[client].commits.Keys <= c.commits.Keys
    requires client == maintainer ==> MaintainerOk(w, c)
    ensures Inv(maintainer, WithClient(w, client, c))
  {
    var w' := WithClient(w, client, c);
    forall d | d in w'.clients ensures ClientOk(w', w'.clients[d]) {
      assert d != client ==> ClientOk(w, w.clients[d]);
    }
    forall k | k in w'.remote.acks ensures AckOk(w', k, w'.remote.acks[k]) {
      assert AckOk(w, k, w.remote.acks[k]);
    }
  }

  // ---- Compaction ----

  lemma CompactedIsWellFormed(r: Store, c: Client, scope: ScopeId, obsolete: set<CommitId>)
    requires WellFormed(r) && forall id :: id in c.commits ==> c.commits[id].counter >= 1
    ensures WellFormed(Compacted(r, SnapshotOf(c, scope, obsolete), obsolete))
  {
  }

  ghost predicate Held(c: Client, e: CatalogEvent) {
    e.commitId in c.commits && e == EventOf(c.commits[e.commitId])
  }

  /** The event stands in a segment beyond the client's cursor. */
  ghost predicate Beyond(r: Store, c: Client, e: CatalogEvent) {
    exists q :: q in r.segments && e in q.events && e.counter > At(c.cursors, e.Key())
  }

  ghost predicate Positive(commits: CommitMap) {
    forall id :: id in commits ==> commits[id].counter >= 1
  }

  /** After a compaction by any client, a full scan lists of the scope what the client
      holds and keeps, and what stands in a segment beyond its cursors. */
  lemma VisibleAfterCompaction(r: Store, c: Client, scope: ScopeId, obsolete: set<CommitId>, e: CatalogEvent)
    requires WellFormed(r) && Keyed(c.commits) && Positive(c.commits)
    ensures e in Visible(Compacted(r, SnapshotOf(c, scope, obsolete), obsolete)) <==>
            if e.resource.scope == scope then (Held(c, e) && e.commitId !in obsolete) || Beyond(r, c, e)
            else e in Visible(r)
  {
    var snapshot := SnapshotOf(c, scope, obsolete);
    var r' := Compacted(r, snapshot, obsolete);
    CompactedIsWellFormed(r, c, scope, obsolete);
    VisibleMeaning(r', e);
    if e.resource.scope == scope {
      assert CoveredAt(r', e.Key()) == At(c.cursors, e.Key());
      assert e in snapshot.events <==> Held(c, e) && e.commitId !in obsolete;
      forall q | q in r.segments && e in q.events && e.counter > At(c.cursors, e.Key()) ensures q in r'.segments {
        assert q.Key() == e.Key() && e.counter <= q.last && At(snapshot.cursors, q.Key()) == At(c.cursors, q.Key());
      }
    } else {
      VisibleMeaning(r, e);
      assert CoveredAt(r', e.Key()) == CoveredAt(r, e.Key());
      forall q | q in r.segments && e in q.events ensures q in r'.segments {
        assert q.Key() == e.Key() && At(snapshot.cursors, q.Key()) == 0;
      }
    }
  }

  /** What a client may compact: it holds every visible event that it does not drop, or
      the event stands beyond its cursors; all it keeps is visible; and nothing beyond its
      cursors is hidden or dropped. */
  ghost predicate FitToCompact(r: Store, c: Client, scope: ScopeId, obsolete: set<CommitId>) {
    && (forall e :: e in Visible(r) && e.resource.scope == scope && e.commitId !in obsolete ==>
        Held(c, e) || Beyond(r, c, e))
    && (forall e :: Held(c, e) && e.resource.scope == scope && e.commitId !in obsolete ==> e in Visible(r))
    && (forall e :: Beyond(r, c, e) && e.resource.scope == scope ==> e in Visible(r) && e.commitId !in obsolete)
  }

  /** Compaction hides exactly the obsolete commits if and only if the client is fit to
      compact the scope, whatever it refreshed before. */
  lemma CompactionHidesExactlyTheObsolete(r: Store, c: Client, scope: ScopeId, obsolete: set<CommitId>)
    requires WellFormed(r) && Keyed(c.commits) && Positive(c.commits)
    requires forall e :: e in Visible(r) && e.commitId in obsolete ==> e.resource.scope == scope
    ensures Visible(Compacted(r, SnapshotOf(c, scope, obsolete), obsolete))
            == (set e | e in Visible(r) && e.commitId !in obsolete)
            <==> FitToCompact(r, c, scope, obsolete)
  {
    var after := Visible(Compacted(r, SnapshotOf(c, scope, obsolete), obsolete));
    var kept := set e | e in Visible(r) && e.commitId !in obsolete;
    forall e ensures e in after <==> if e.resource.scope == scope then (Held(c, e) && e.commitId !in obsolete)
      || Beyond(r, c, e)
                                     else e in Visible(r)
    {
      VisibleAfterCompaction(r, c, scope, obsolete, e);
    }
    if FitToCompact(r, c, scope, obsolete) {
      forall e ensures e in after <==> e in kept {
      }
    }
    if after == kept {
      forall e | e in Visible(r) && e.resource.scope == scope && e.commitId !in obsolete
        ensures Held(c, e) || Beyond(r, c, e)
      {
        assert e in kept;
      }
      forall e | Held(c, e) && e.resource.scope == scope && e.commitId !in obsolete ensures e in Visible(r) {
        assert e in after;
      }
      forall e | Beyond(r, c, e) && e.resource.scope == scope ensures e in Visible(r) && e.commitId !in obsolete {
        assert e in after;
      }
    }
  }

  /** A client that has just refreshed the scope is fit to compact it if and only if it
      holds no commit of it that was removed before. */
  lemma RefreshedClientIsFit(r: Store, live: CommitMap, c: Client, scope: ScopeId, obsolete: set<CommitId>)
    requires WellFormed(r) && Shows(r, live) && Keyed(c.commits)
    requires forall id :: id in c.commits && id in live ==> c.commits[id] == live[id]
    requires JustRefreshed(r, c, scope, obsolete)
    ensures FitToCompact(r, c, scope, obsolete) <==>
            forall id :: id in c.commits && c.commits[id].resource.scope == scope && id !in obsolete ==> id in live
  {
    forall e | e in Visible(r) && e.resource.scope == scope ensures Held(c, e) {
    }
    forall e | Beyond(r, c, e) && e.resource.scope == scope ensures e in Visible(r) && e.commitId !in obsolete {
      VisibleMeaning(r, e);
      assert CoveredAt(r, e.Key()) <= At(c.cursors, e.Key());
      assert Held(c, e) && e.Key() == GroupKey(c.commits[e.commitId]);
    }
    forall id | id in c.commits && c.commits[id].resource.scope == scope && id !in obsolete
      ensures Held(c, EventOf(c.commits[id])) && (id in live <==> EventOf(c.commits[id]) in Visible(r))
    {
    }
  }

  lemma ObsoleteIsOfTheScope(r: Store, live: CommitMap, c: Client, scope: ScopeId, obsolete: set<CommitId>)
    requires Shows(r, live) && JustRefreshed(r, c, scope, obsolete)
    requires forall id :: id in c.commits && id in live ==> c.commits[id] == live[id]
    ensures forall e :: e in Visible(r) && e.commitId in obsolete ==> e.resource.scope == scope
  {
  }

  /** A client that still holds a removed commit makes it visible again by compacting,
      although the commit itself can no longer be loaded. */
  lemma StaleCompactionListsAMissingCommit(r: Store, c: Client, scope: ScopeId, id: CommitId)
    requires WellFormed(r) && Keyed(c.commits) && Positive(c.commits)
    requires id in c.commits && c.commits[id].resource.scope == scope && id !in r.commits
    ensures var r' := Compacted(r, SnapshotOf(c, scope, {}), {});
            EventOf(c.commits[id]) in Visible(r') && id !in r'.commits
  {
    VisibleAfterCompaction(r, c, scope, {}, EventOf(c.commits[id]));
  }

  /** The store after one client published `a` and then `b`. */
  function TwoBatches(a: Commit, b: Commit): Store {
    Store(map[], map[], map[a.id := a, b.id := b], {SegmentOf([a], GroupKey(a)), SegmentOf([b], GroupKey(b))}, map[],
      map[])
  }

  /** Two clients: one refreshed after the first batch, the other after both. */
  function Behind(a: Commit): Client {
    Client(map[a.id := a], map[GroupKey(a) := a.counter], map[], {})
  }

  function UpToDate(a: Commit, b: Commit): Client {
    Client(map[a.id := a, b.id := b], map[GroupKey(a) := b.counter], map[], {})
  }

  /** The store once the client that is up to date has compacted. */
  function CompactedOnce(a: Commit, b: Commit): Store {
    Compacted(TwoBatches(a, b), SnapshotOf(UpToDate(a, b), a.resource.scope, {}), {})
  }

  lemma OneSegment(a: Commit)
    ensures SegmentOf([a], GroupKey(a)) == Segment(a.author, a.resource.scope, a.counter, a.counter, {EventOf(a)})
  {
    assert [a][..0] == [];
    assert Group([a], GroupKey(a)) == [a];
    assert [a][0] in [a];
    assert (set c | c in [a] :: EventOf(c)) == {EventOf(a)};
    assert LastCounter([]) == 0;
    assert LastCounter([a]) == a.counter && FirstCounter([a]) == a.counter;
  }

  lemma TwoBatchesShowBoth(a: Commit, b: Commit)
    requires 1 <= a.counter && 1 <= b.counter
    ensures WellFormed(TwoBatches(a, b)) && Visible(TwoBatches(a, b)) == {EventOf(a), EventOf(b)}
    ensures TwoBatches(a, b).segments == {
              Segment(a.author, a.resource.scope, a.counter, a.counter, {EventOf(a)}),
              Segment(b.author, b.resource.scope, b.counter, b.counter, {EventOf(b)})}
  {
    OneSegment(a);
    OneSegment(b);
    var r := TwoBatches(a, b);
    var qa, qb := SegmentOf([a], GroupKey(a)), SegmentOf([b], GroupKey(b));
    assert EventOf(a).Key() == qa.Key() && EventOf(b).Key() == qb.Key();
    forall e ensures e in Visible(r) <==> e == EventOf(a) || e == EventOf(b) {
      VisibleMeaning(r, e);
      assert qa in r.segments && qb in r.segments;
    }
  }

  lemma BothAreCovered(a: Commit, b: Commit)
    requires GroupKey(a) == GroupKey(b) && 1 <= a.counter < b.counter
    ensures CompactedOnce(a, b).segments == {}
  {
    TwoBatchesShowBoth(a, b);
    var snapshot := SnapshotOf(UpToDate(a, b), a.resource.scope, {});
    assert At(snapshot.cursors, GroupKey(a)) == b.counter;
    forall q | q in TwoBatches(a, b).segments ensures q.last <= At(snapshot.cursors, q.Key()) {
      assert q.Key() == GroupKey(a);
    }
  }

  lemma BothAreHeld(a: Commit, b: Commit, e: CatalogEvent)
    requires a.id != b.id && GroupKey(a) == GroupKey(b) && 1 <= a.counter < b.counter
    ensures Held(UpToDate(a, b), e) <==> e == EventOf(a) || e == EventOf(b)
    ensures !Beyond(TwoBatches(a, b), UpToDate(a, b), e)
  {
    TwoBatchesShowBoth(a, b);
    forall q | q in TwoBatches(a, b).segments && e in q.events
      ensures e.counter <= b.counter && e.Key() == GroupKey(a)
    {
    }
  }

  /** The client that is up to date may compact, and hides nothing. */
  lemma BothAreCompacted(a: Commit, b: Commit)
    requires a.id != b.id && GroupKey(a) == GroupKey(b) && 1 <= a.counter < b.counter
    ensures WellFormed(CompactedOnce(a, b)) && Visible(CompactedOnce(a, b)) == {EventOf(a), EventOf(b)}
  {
    TwoBatchesShowBoth(a, b);
    CompactedIsWellFormed(TwoBatches(a, b), UpToDate(a, b), a.resource.scope, {});
    forall e ensures e in Visible(CompactedOnce(a, b)) <==> e in {EventOf(a), EventOf(b)} {
      BothStayVisible(a, b, e);
    }
  }

  lemma UpToDateIsRefreshed(a: Commit, b: Commit)
    requires a.id != b.id && GroupKey(a) == GroupKey(b) && 1 <= a.counter < b.counter
    ensures JustRefreshed(TwoBatches(a, b), UpToDate(a, b), a.resource.scope, {})
  {
    TwoBatchesShowBoth(a, b);
  }

  lemma BothStayVisible(a: Commit, b: Commit, e: CatalogEvent)
    requires a.id != b.id && GroupKey(a) == GroupKey(b) && 1 <= a.counter < b.counter
    ensures e in Visible(CompactedOnce(a, b)) <==> e in {EventOf(a), EventOf(b)}
  {
    TwoBatchesShowBoth(a, b);
    VisibleAfterCompaction(TwoBatches(a, b), UpToDate(a, b), a.resource.scope, {}, e);
    BothAreHeld(a, b, e);
  }

  /** Compacting a scope without refreshing it first, whatever the client holds and has
      counted: another client is fit to compact, has seen the event and is past every
      segment that lists it, and compacts, which hides nothing. When now the first client
      compacts without holding the event, the event disappears. */
  lemma LateCompactionLosesEvents(r: Store, other: Client, c: Client, scope: ScopeId, e: CatalogEvent)
    requires WellFormed(r) && Keyed(other.commits) && Positive(other.commits) && Keyed(c.commits) && Positive(c.commits)
    requires FitToCompact(r, other, scope, {}) && e in Visible(r) && e.resource.scope == scope && !Held(c, e)
    requires forall q :: q in r.segments && e in q.events ==> q.last <= At(other.cursors, q.Key())
    ensures var once := Compacted(r, SnapshotOf(other, scope, {}), {});
            && Visible(once) == Visible(r)
            && e !in Visible(Compacted(once, SnapshotOf(c, scope, {}), {}))
  {
    var once := Compacted(r, SnapshotOf(other, scope, {}), {});
    CompactionHidesExactlyTheObsolete(r, other, scope, {});
    assert (set x | x in Visible(r) && x.commitId !in {}) == Visible(r);
    CompactedIsWellFormed(r, other, scope, {});
    VisibleAfterCompaction(once, c, scope, {}, e);
    CoveredIsGone(r, other, c, scope, e);
  }

  lemma CoveredIsGone(r: Store, other: Client, c: Client, scope: ScopeId, e: CatalogEvent)
    requires WellFormed(r) && e.resource.scope == scope
    requires forall q :: q in r.segments && e in q.events ==> q.last <= At(other.cursors, q.Key())
    ensures !Beyond(Compacted(r, SnapshotOf(other, scope, {}), {}), c, e)
  {
    forall q | q in r.segments && e in q.events
      ensures q !in Compacted(r, SnapshotOf(other, scope, {}), {}).segments
    {
      assert WellFormedSegment(q) && q.Key().scope == scope;
      assert At(SnapshotOf(other, scope, {}).cursors, q.Key()) == At(other.cursors, q.Key());
    }
  }

  /** Compacting a scope without refreshing it first: one client knows the first of two
      commits, another refreshed after both and compacted, which hid nothing. When now the
      first client compacts, the second commit disappears. */
  lemma UnrefreshedCompactionLosesEvents(a: Commit, b: Commit)
    requires a.id != b.id && GroupKey(a) == GroupKey(b) && 1 <= a.counter < b.counter
    ensures JustRefreshed(TwoBatches(a, b), UpToDate(a, b), a.resource.scope, {})
    ensures EventOf(b) in Visible(CompactedOnce(a, b))
    ensures EventOf(b) !in Visible(Compacted(CompactedOnce(a, b), SnapshotOf(Behind(a), a.resource.scope, {}), {}))
  {
    UpToDateIsRefreshed(a, b);
    BothAreCompacted(a, b);
    BothAreCovered(a, b);
    VisibleAfterCompaction(CompactedOnce(a, b), Behind(a), a.resource.scope, {}, EventOf(b));
  }

  lemma CompactKeepsRemote(
    maintainer: ClientId, w: World, w': World, client: ClientId, scope: ScopeId, obsolete: set<CommitId>)
    requires PublishedOk(w) && RemoteOk(w) && CompactStep(maintainer, w, w', client, scope, obsolete)
    requires ClientOk(w, w.clients[client]) && w.clients[client].commits.Keys !! w.removed
    ensures RemoteOk(w')
    ensures Visible(w'.remote) == set e | e in Visible(w.remote) && e.commitId !in obsolete
  {
    CompactShows(w, w.clients[client], scope, obsolete);
    CompactKeepsBounds(w, w', w.clients[client], scope, obsolete);
  }

  /** The rest of the remote's invariant, once a full scan is known to list what is live. */
  lemma CompactKeepsBounds(w: World, w': World, c: Client, scope: ScopeId, obsolete: set<CommitId>)
    requires RemoteOk(w) && Bounded(c.cursors, w.counters)
    requires w'.remote == Compacted(w.remote, SnapshotOf(c, scope, obsolete), obsolete) && w'.counters == w.counters
    requires w'.published == w.published && w'.removed == w.removed + obsolete
    requires WellFormed(w'.remote) && Shows(w'.remote, w.Live() - obsolete)
    ensures RemoteOk(w')
  {
    assert w'.Live() == w.Live() - obsolete;
    SnapshotsStayBounded(w.remote, c, scope, obsolete, w.counters);
  }

  lemma SnapshotsStayBounded(r: Store, c: Client, scope: ScopeId, obsolete: set<CommitId>, counters: map<ClientId, nat>)
    requires forall p :: p in r.snapshots ==> Bounded(r.snapshots[p].cursors, counters)
    requires Bounded(c.cursors, counters)
    ensures var r' := Compacted(r, SnapshotOf(c, scope, obsolete), obsolete);
            forall p :: p in r'.snapshots ==> Bounded(r'.snapshots[p].cursors, counters)
  {
    var r' := Compacted(r, SnapshotOf(c, scope, obsolete), obsolete);
    forall p | p in r'.snapshots ensures Bounded(r'.snapshots[p].cursors, counters) {
      if p == scope {
        assert r'.snapshots[p].cursors == ScopeCursors(c.cursors, scope);
      } else {
        assert Bounded(r.snapshots[p].cursors, counters);
      }
    }
  }

  lemma CompactShows(w: World, c: Client, scope: ScopeId, obsolete: set<CommitId>)
    requires PublishedOk(w) && RemoteOk(w) && Submap(c.commits, w.published) && c.commits.Keys !! w.removed
    requires JustRefreshed(w.remote, c, scope, obsolete)
    ensures var r' := Compacted(w.remote, SnapshotOf(c, scope, obsolete), obsolete);
            && WellFormed(r') && Shows(r', w.Live() - obsolete)
            && Visible(r') == set e | e in Visible(w.remote) && e.commitId !in obsolete
  {
    LiveIsKeyed(w);
    CompactedIsWellFormed(w.remote, c, scope, obsolete);
    RefreshedClientIsFit(w.remote, w.Live(), c, scope, obsolete);
    ObsoleteIsOfTheScope(w.remote, w.Live(), c, scope, obsolete);
    CompactionHidesExactlyTheObsolete(w.remote, c, scope, obsolete);
  }

  lemma CompactKeepsClient(
    maintainer: ClientId, w: World, w': World, client: ClientId, scope: ScopeId, obsolete: set<CommitId>, d: ClientId)
    requires PublishedOk(w) && CompactStep(maintainer, w, w', client, scope, obsolete) && d in w.clients
      && ClientOk(w, w.clients[d])
    ensures ClientOk(w', w'.clients[d])
  {
    var dropped := if d == client then obsolete else {};
    assert w'.clients[d].commits == w.clients[d].commits - dropped && w'.clients[d].cursors == w.clients[d].cursors;
    ForgettingKeepsClient(w, w', w.clients[d], w'.clients[d], obsolete, dropped);
  }

  lemma ForgettingKeepsClient(
    w: World, w': World, c: Client, c': Client, obsolete: set<CommitId>, dropped: set<CommitId>)
    requires ClientOk(w, c) && dropped <= obsolete && c'.commits == c.commits - dropped && c'.cursors == c.cursors
    requires w'.published == w.published && w'.removed == w.removed + obsolete && w'.counters == w.counters
    ensures ClientOk(w', c')
  {
    var live, live' := w.Live(), w'.Live();
    assert live' == live - obsolete;
    forall id | id in c'.commits ensures c'.commits[id].parents <= c'.commits.Keys + w'.removed {
      assert c.commits[id].parents <= c.commits.Keys + w.removed;
    }
  }

  lemma CompactKeepsHistory(
    maintainer: ClientId, w: World, w': World, client: ClientId, scope: ScopeId, obsolete: set<CommitId>)
    requires PublishedOk(w) && CompactStep(maintainer, w, w', client, scope, obsolete)
      && Submap(w.clients[client].commits, w.published)
    ensures PublishedOk(w')
  {
    assert obsolete <= w.published.Keys;
  }

  lemma CompactKeepsAcks(
    maintainer: ClientId, w: World, w': World, client: ClientId, scope: ScopeId, obsolete: set<CommitId>)
    requires AcksOk(w) && CompactStep(maintainer, w, w', client, scope, obsolete)
    ensures AcksOk(w')
  {
    forall k | k in w'.remote.acks ensures AckOk(w', k, w'.remote.acks[k]) {
      assert AckOk(w, k, w.remote.acks[k]);
    }
  }

  lemma CompactKeepsClients(
    maintainer: ClientId, w: World, w': World, client: ClientId, scope: ScopeId, obsolete: set<CommitId>)
    requires PublishedOk(w) && ClientsOk(w) && CompactStep(maintainer, w, w', client, scope, obsolete)
    ensures ClientsOk(w')
  {
    forall d | d in w'.clients ensures ClientOk(w', w'.clients[d]) {
      assert ClientOk(w, w.clients[d]);
      CompactKeepsClient(maintainer, w, w', client, scope, obsolete, d);
    }
  }

  lemma CompactKeepsInv(
    maintainer: ClientId, w: World, w': World, client: ClientId, scope: ScopeId, obsolete: set<CommitId>)
    requires Inv(maintainer, w) && CompactStep(maintainer, w, w', client, scope, obsolete)
    ensures Inv(maintainer, w')
    ensures Visible(w'.remote) == set e | e in Visible(w.remote) && e.commitId !in obsolete
  {
    assert ClientOk(w, w.clients[client]);
    CompactKeepsHistory(maintainer, w, w', client, scope, obsolete);
    CompactKeepsRemote(maintainer, w, w', client, scope, obsolete);
    CompactKeepsClients(maintainer, w, w', client, scope, obsolete);
    CompactKeepsAcks(maintainer, w, w', client, scope, obsolete);
    if maintainer in w.clients {
      CompactKeepsMaintainer(maintainer, w, w', client, scope, obsolete);
    }
  }

  lemma CompactKeepsMaintainer(
    maintainer: ClientId, w: World, w': World, client: ClientId, scope: ScopeId, obsolete: set<CommitId>)
    requires CompactStep(maintainer, w, w', client, scope, obsolete)
    requires maintainer in w.clients && MaintainerOk(w, w.clients[maintainer])
    ensures MaintainerOk(w', w'.clients[maintainer])
  {
    var c, c' := w.clients[maintainer], w'.clients[maintainer];
    forall key | key in c'.checkpoints
      ensures c'.checkpoints[key] in c'.commits && c'.commits[c'.checkpoints[key]].resource == key
    {
      assert c.checkpoints[key] in c.commits;
    }
  }

  // ---- Every step, every run ----

  /** Retiring a client and setting or clearing a checkpoint touch no known commit. */
  lemma RecordChangeKeepsInv(maintainer: ClientId, w: World, w': World, client: ClientId, c: Client)
    requires Inv(maintainer, w) && client in w.clients && w' == WithClient(w, client, c)
    requires c.commits == w.clients[client].commits && c.cursors == w.clients[client].cursors
    requires client == maintainer ==> CheckpointsOk(c)
    ensures Inv(maintainer, w')
  {
    assert ClientOk(w, w.clients[client]);
    OneClientChanged(maintainer, w, client, c);
  }

  lemma RecordAfter(maintainer: ClientId, w: World, w': World, step: Step) returns (c: Client)
    requires LocalStep(maintainer, w, w', step) && (step.Retire? || step.SetCheckpoint? || step.ClearCheckpoint?)
    requires step.client == maintainer ==> CheckpointsOk(w.clients[step.client])
    ensures step.client in w.clients && w' == WithClient(w, step.client, c)
    ensures c.commits == w.clients[step.client].commits && c.cursors == w.clients[step.client].cursors
    ensures step.client == maintainer ==> CheckpointsOk(c)
  {
    c := w'.clients[step.client];
  }

  lemma CheckpointStepsKeepInv(maintainer: ClientId, w: World, w': World, step: Step)
    requires Inv(maintainer, w) && LocalStep(maintainer, w, w', step)
    requires step.Retire? || step.SetCheckpoint? || step.ClearCheckpoint?
    ensures Inv(maintainer, w')
  {
    var c := RecordAfter(maintainer, w, w', step);
    RecordChangeKeepsInv(maintainer, w, w', step.client, c);
  }

  lemma LocalStepKeepsInv(maintainer: ClientId, w: World, w': World, step: Step)
    requires Inv(maintainer, w) && LocalStep(maintainer, w, w', step)
    ensures Inv(maintainer, w')
  {
    match step
    case Join(c) => JoinKeepsInv(maintainer, w, w', c);
    case Acknowledge(c, key) => AcknowledgeKeepsInv(maintainer, w, w', c, key);
    case Collect(c, dead) => CollectKeepsInv(maintainer, w, w', c, dead);
    case _ => CheckpointStepsKeepInv(maintainer, w, w', step);
  }

  lemma AcknowledgeKeepsAcks(maintainer: ClientId, w: World, w': World, c: ClientId, key: ResourceKey)
    requires AcksOk(w) && LocalStep(maintainer, w, w', Acknowledge(c, key))
    ensures AcksOk(w')
  {
    forall k | k in w'.remote.acks ensures AckOk(w', k, w'.remote.acks[k]) {
      if k != AckKey(c, key) {
        assert AckOk(w, k, w.remote.acks[k]);
      }
    }
  }

  lemma AcknowledgeKeepsInv(maintainer: ClientId, w: World, w': World, c: ClientId, key: ResourceKey)
    requires Inv(maintainer, w) && LocalStep(maintainer, w, w', Acknowledge(c, key))
    ensures Inv(maintainer, w')
  {
    VisibleFrame(w.remote, w'.remote);
    AcknowledgeKeepsAcks(maintainer, w, w', c, key);
    forall d | d in w'.clients ensures ClientOk(w', w'.clients[d]) {
      assert ClientOk(w, w.clients[d]);
    }
  }

  lemma CollectKeepsInv(maintainer: ClientId, w: World, w': World, c: ClientId, dead: set<Digest>)
    requires Inv(maintainer, w) && LocalStep(maintainer, w, w', Collect(c, dead))
    ensures Inv(maintainer, w')
  {
    VisibleFrame(w.remote, w'.remote);
    forall d | d in w'.clients ensures ClientOk(w', w'.clients[d]) {
      assert ClientOk(w, w.clients[d]);
    }
    forall k | k in w'.remote.acks ensures AckOk(w', k, w'.remote.acks[k]) {
      assert AckOk(w, k, w.remote.acks[k]);
    }
  }

  lemma JoinKeepsRemote(maintainer: ClientId, w: World, w': World, c: ClientId)
    requires w.counters.Keys == w.clients.Keys && RemoteOk(w) && LocalStep(maintainer, w, w', Join(c))
    ensures RemoteOk(w')
  {
    forall p | p in w.remote.snapshots ensures Bounded(w.remote.snapshots[p].cursors, w'.counters) {
      BoundedGrows(w.remote.snapshots[p].cursors, w.counters, w'.counters);
    }
  }

  lemma JoinKeepsClients(maintainer: ClientId, w: World, w': World, c: ClientId)
    requires w.counters.Keys == w.clients.Keys && PublishedOk(w) && ClientsOk(w) && AcksOk(w)
      && LocalStep(maintainer, w, w', Join(c))
    ensures ClientsOk(w') && AcksOk(w')
  {
    JoinedClientsOk(w, w', c);
    JoinedAcksOk(w, w', c);
  }

  lemma JoinedClientsOk(w: World, w': World, c: ClientId)
    requires w.counters.Keys == w.clients.Keys && CountersFit(w.published, w.counters) && ClientsOk(w)
      && c !in w.clients
    requires w' == WithClient(w, c, Client(map[], map[], map[], {})).(counters := w.counters[c := 0])
    ensures ClientsOk(w')
  {
    assert w'.Live() == w.Live();
    forall d | d in w'.clients ensures ClientOk(w', w'.clients[d]) {
      if d != c {
        assert ClientOk(w, w.clients[d]);
        BoundedGrows(w.clients[d].cursors, w.counters, w'.counters);
      }
    }
  }

  lemma JoinedAcksOk(w: World, w': World, c: ClientId)
    requires AcksOk(w) && c !in w.clients
    requires w' == WithClient(w, c, Client(map[], map[], map[], {})).(counters := w.counters[c := 0])
    ensures AcksOk(w')
  {
    forall k | k in w'.remote.acks ensures AckOk(w', k, w'.remote.acks[k]) {
      assert AckOk(w, k, w.remote.acks[k]);
    }
  }

  lemma JoinKeepsInv(maintainer: ClientId, w: World, w': World, c: ClientId)
    requires Inv(maintainer, w) && LocalStep(maintainer, w, w', Join(c))
    ensures Inv(maintainer, w')
  {
    JoinKeepsRemote(maintainer, w, w', c);
    JoinKeepsClients(maintainer, w, w', c);
    assert CountersFit(w.published, w'.counters);
    if maintainer in w.clients {
      assert MaintainerOk(w, w.clients[maintainer]);
    }
  }

  lemma StepKeepsInv(maintainer: ClientId, w: World, w': World, step: Step)
    requires Inv(maintainer, w) && Next(maintainer, w, w', step)
    ensures Inv(maintainer, w')
  {
    match step
    case Publish(c, batch) => PublishKeepsInv(maintainer, w, w', c, batch);
    case Refresh(c, scopes, next) => RefreshKeepsInv(maintainer, w, w', c, scopes, next);
    case Compact(c, scope, obsolete) => CompactKeepsInv(maintainer, w, w', c, scope, obsolete);
    case _ => LocalStepKeepsInv(maintainer, w, w', step);
  }

  ghost predicate StepAt(maintainer: ClientId, ws: seq<World>, steps: seq<Step>, i: nat)
    requires |ws| == |steps| + 1 && i < |steps|
  {
    Next(maintainer, ws[i], ws[i + 1], steps[i])
  }

  /** The steps lead through the worlds, one after the other. */
  ghost predicate IsTrail(maintainer: ClientId, ws: seq<World>, steps: seq<Step>) {
    |ws| == |steps| + 1 && forall i: nat :: i < |steps| ==> StepAt(maintainer, ws, steps, i)
  }

  ghost predicate IsRun(maintainer: ClientId, ws: seq<World>, steps: seq<Step>) {
    IsTrail(maintainer, ws, steps) && Init(ws[0])
  }

  lemma RunTakesStep(maintainer: ClientId, ws: seq<World>, steps: seq<Step>, i: nat)
    requires IsTrail(maintainer, ws, steps) && i < |steps|
    ensures Next(maintainer, ws[i], ws[i + 1], steps[i])
  {
    assert StepAt(maintainer, ws, steps, i);
  }

  lemma InitKeepsInv(maintainer: ClientId, w: World)
    requires Init(w)
    ensures Inv(maintainer, w)
  {
    assert Visible(w.remote) == {};
  }

  lemma {:induction false} RunKeepsInv(maintainer: ClientId, ws: seq<World>, steps: seq<Step>, i: nat)
    requires IsRun(maintainer, ws, steps) && i < |ws|
    ensures Inv(maintainer, ws[i])
  {
    if i > 0 {
      RunKeepsInv(maintainer, ws, steps, i - 1);
      RunTakesStep(maintainer, ws, steps, i - 1);
      StepKeepsInv(maintainer, ws[i - 1], ws[i], steps[i - 1]);
    } else {
      InitKeepsInv(maintainer, ws[0]);
    }
  }
}
