/** The runtime object: refresh, publish, read back, execute a plan, resolve and roll back
    (`SyncRuntime` in src/runtime.rs). */
module Runtime {
  import opened Types
  import opened CommitGraph
  import opened Binary
  import opened Remote
  import opened ChunkStore
  import opened Retention
  import opened Catalog
  import opened CatalogProofs
  import opened Execution
  import opened Convergence
  import opened Views
  import opened Resolution
  import opened Batches
  import opened Maintenance
  import opened Refinement
  import opened DurableRuns
  import opened Snapshots
  import opened Upkeep

  /** A host that never hands out the same version token twice. */
  class LocalReplica {
    var slots: map<ResourceKey, Slot>
    var clock: Token
    const keepsTombstones: bool

    constructor (keepsTombstones: bool)
      ensures slots == map[] && clock == 0 && this.keepsTombstones == keepsTombstones
    {
      slots, clock := map[], 0;
      this.keepsTombstones := keepsTombstones;
    }

    function SlotOf(key: ResourceKey): Slot
      reads this
    {
      if key in slots then slots[key] else Absent
    }

    method ReadResource(key: ResourceKey) returns (content: Option<ResourceContent>)
      ensures content == if SlotOf(key).File? then Some(ResourceContent(SlotOf(key).data, SlotOf(key).version))
        else None
    {
      var slot := SlotOf(key);
      content := if slot.File? then Some(ResourceContent(slot.data, slot.version)) else None;
    }

    /** Writes only while the slot is still what was planned. */
    method WritePresent(key: ResourceKey, data: Bytes, planned: ReplicaState) returns (token: Option<Token>)
      modifies this
      ensures token.Some? <==> Matches(old(SlotOf(key)), planned)
      ensures token.Some? ==>
        slots == old(slots)[key := File(data, token.value)] && clock == token.value == old(clock) + 1
      ensures token.None? ==> slots == old(slots) && clock == old(clock)
    {
      if Matches(SlotOf(key), planned) {
        clock := clock + 1;
        slots := slots[key := File(data, clock)];
        token := Some(clock);
      } else {
        token := None;
      }
    }

    method DeleteResource(key: ResourceKey, planned: ReplicaState) returns (applied: bool)
      modifies this
      ensures applied <==> Matches(old(SlotOf(key)), planned)
      ensures applied ==> slots == old(slots)[key := SlotOf(key)] && !SlotOf(key).File? && clock == old(clock) + 1
      ensures applied ==> SlotOf(key).VersionToken().GetOr(clock) == clock
      ensures !applied ==> slots == old(slots) && clock == old(clock)
    {
      applied := Matches(SlotOf(key), planned);
      if applied {
        clock := clock + 1;
        slots := slots[key := if keepsTombstones then Tombstone(clock) else Absent];
      }
    }
  }

  /** Adding the loaded commits and merging the cursors is the refresh step. */
  lemma LoadedRefresh(r: Store, c: Client, scopes: set<ScopeId>, ids: set<CommitId>, loaded: CommitMap, next: Cursors)
    requires ids == NewIds(c, ScanEvents(r, scopes, c.cursors)) && ids <= r.commits.Keys
    requires loaded == LoadedFrom(r.commits, ids)
    requires IsScanCursors(r, scopes, c.cursors, next)
    ensures RefreshesTo(r, c, scopes, next, c.(commits := c.commits + loaded, cursors := MergeMax(c.cursors, next)))
  {
  }

  class SyncRuntime {
    const clientId: ClientId
    const crdt: Crdt
    const local: LocalReplica
    const remote: LocalFolderRemote
    var counter: nat
    var commits: CommitMap
    var baselines: map<ResourceKey, BaselineState>
    var texts: map<ResourceKey, set<TextItem>>
    var conflicts: set<ConflictRecord>
    var cursors: Cursors
    var checkpoints: map<ResourceKey, CommitId>
    var retired: set<ClientId>
    var counted: map<ScopeId, nat>

    constructor (clientId: ClientId, crdt: Crdt, local: LocalReplica, remote: LocalFolderRemote)
      ensures this.clientId == clientId && this.crdt == crdt && this.local == local && this.remote == remote
      ensures counter == 0 && commits == map[] && baselines == map[] && texts == map[] && conflicts == {}
      ensures cursors == map[] && checkpoints == map[] && retired == {} && counted == map[]
    {
      this.clientId, this.crdt, this.local, this.remote := clientId, crdt, local, remote;
      counter, commits, baselines, texts, conflicts := 0, map[], map[], map[], {};
      cursors, checkpoints, retired, counted := map[], map[], {}, map[];
    }

    /** The replica the planner and the executor are about. */
    function State(): Replica
      reads this, local
    {
      Replica(local.slots, commits, baselines, texts)
    }

    /** The client record the catalog protocol is about. */
    function AsClient(): Client
      reads this
    {
      Client(commits, cursors, checkpoints, retired)
    }

    /** Incremental scan, new events counted, load of what is missing, cursors moved
        forward; when a listed commit cannot be loaded nothing but the counts changes. */
    method RefreshRemote(scopes: set<ScopeId>) returns (ok: bool, ghost next: Cursors)
      requires WellFormed(remote.Contents())
      modifies this`commits, this`cursors, this`counted
      ensures CountsScan(remote.Contents(), ScanEvents(remote.Contents(), scopes, old(cursors)), old(counted), counted)
      ensures ok ==> RefreshesTo(old(remote.Contents()), old(AsClient()), scopes, next, AsClient())
      ensures ok <==> NewIds(old(AsClient()),
        ScanEvents(old(remote.Contents()), scopes, old(cursors))) <= old(remote.commits).Keys
      ensures !ok ==> AsClient() == old(AsClient())
    {
      ghost var r, c := remote.Contents(), AsClient();
      var events, scanned, covered := remote.ScanCatalog(scopes, cursors);
      next := scanned;
      ScannedAreCovered(r, scopes, cursors, covered, events);
      counted := CountEvents(counted, events, covered, r);
      ghost var ids := NewIds(c, events);
      var missing := set e | e in events && e.commitId !in commits :: e.commitId;
      assert missing == ids;
      var loaded := remote.LoadCommits(missing);
      ok := loaded.Some?;
      if ok {
        LoadedRefresh(r, c, scopes, ids, loaded.value, next);
        commits, cursors := commits + loaded.value, MergeMax(cursors, scanned);
      }
    }

    /** The bytes one commit stands for, if the store can still produce them. */
    method ContentForRemote(key: ResourceKey, head: CommitId) returns (bytes: Option<Bytes>)
      requires Addressed(commits) && Consistent(remote.packs, remote.indexes)
      ensures bytes.Some? ==> IsContentOf(crdt, commits, key, head, bytes.value)
      ensures bytes.Some? <==>
        head in commits && !commits[head].change.Delete?
        && (commits[head].change.BinarySnapshot? ==> AllIndexed(remote.indexes, commits[head].change.chunkHashes))
    {
      if head !in commits {
        return None;
      }
      match commits[head].change {
        case Delete =>
          bytes := None;
        case TextDelta(_) =>
          var doc := TextDocAt(commits, key, head);
          bytes := Some(crdt.content(doc));
        case BinarySnapshot(_, _, chunkHashes) =>
          var data := ReadSnapshot(remote, chunkHashes);
          bytes := if data.Ok? then Some(data.value) else None;
      }
    }

    /** Pack and store the chunks the remote does not list yet. */
    method PackMissing(
      chunks: seq<Chunk>)
      returns (packs: seq<Pack>, ghost found: set<Digest>, ghost groups: seq<seq<Chunk>>)
      requires Cut(chunks)
      ensures forall h :: h in found <==> h in HashesOf(chunks) && Indexed(remote.indexes, h)
      ensures IsPacking(Missing(chunks, found), groups, packs)
    {
      var hashes := HashesOf(chunks);
      var existing := remote.LookupChunks(set h | h in hashes);
      found := existing.Keys;
      MissingMembers(chunks, existing.Keys);
      packs, groups := BuildPacks(Missing(chunks, existing.Keys));
    }

    /** Publish new content on top of the given parents. Only a binary snapshot is cut into
        chunks; the commit is stored in one batch with the packs that the remote lacks. */
    method PublishBytes(
      key: ResourceKey, kind: ResourceKind, data: Bytes, parents: set<CommitId>, id: CommitId, timestamp: int,
      cut: Bytes -> seq<Chunk>)
      returns (c: Commit, ghost packs: seq<Pack>, ghost found: set<Digest>, ghost groups: seq<seq<Chunk>>,
               ghost order: seq<CursorKey>)
      requires CutsUp(cut(data), data) && Addressed(commits) && Consistent(remote.packs, remote.indexes)
      modifies this`counter, this`commits, remote
      ensures Consistent(remote.packs, remote.indexes) && KeepsIndexed(old(remote.indexes), remote.indexes)
      ensures c == Commit(id, key, parents, clientId, old(counter) + 1, timestamp,
                          PublishChange(crdt, old(commits), key, kind, data, HashesOf(cut(data))))
      ensures counter == old(counter) + 1 && commits == old(commits)[id := c] && Addressed(commits)
      ensures kind == Text ==> packs == []
      ensures kind == Binary ==>
        && (forall h :: h in found <==> h in HashesOf(cut(data)) && Indexed(old(remote.indexes), h))
        && IsPacking(Missing(cut(data), found), groups, packs)
      ensures Lists(order, GroupKeys([c]))
      ensures remote.Contents() == ApplyAll(old(remote.Contents()), BatchLog(CommitBatch(packs, [c]), order))
    {
      counter := counter + 1;
      var chunks: seq<Chunk>, built: seq<Pack> := [], [];
      found, groups := {}, [];
      if kind == Binary {
        chunks := cut(data);
        built, found, groups := PackMissing(chunks);
        MissingMembers(chunks, found);
        BuiltPacksAreWellSealed(Missing(chunks, found), groups, built);
        CutIsAddressed(chunks, data);
      }
      packs := built;
      ghost var stored := remote.Contents();
      c := Commit(id, key, parents, clientId, counter, timestamp,
                  PublishChange(crdt, commits, key, kind, data, HashesOf(chunks)));
      order := remote.CommitBatch(CommitBatch(built, [c]));
      BatchStoreIsConsistent(stored, CommitBatch(packs, [c]), order);
      commits := commits[id := c];
    }

    method PublishDelete(key: ResourceKey, parents: set<CommitId>, id: CommitId, timestamp: int)
      returns (c: Commit, ghost order: seq<CursorKey>)
      requires Addressed(commits) && Consistent(remote.packs, remote.indexes)
      modifies this`counter, this`commits, remote
      ensures Consistent(remote.packs, remote.indexes) && KeepsIndexed(old(remote.indexes), remote.indexes)
      ensures c == Commit(id, key, parents, clientId, old(counter) + 1, timestamp, Delete)
      ensures counter == old(counter) + 1 && commits == old(commits)[id := c] && Addressed(commits)
      ensures Lists(order, GroupKeys([c]))
      ensures remote.Contents() == ApplyAll(old(remote.Contents()), BatchLog(CommitBatch([], [c]), order))
    {
      counter := counter + 1;
      c := Commit(id, key, parents, clientId, counter, timestamp, Delete);
      ghost var stored := remote.Contents();
      order := remote.CommitBatch(CommitBatch([], [c]));
      BatchStoreIsConsistent(stored, CommitBatch([], [c]), order);
      commits := commits[id := c];
    }

    // ---- Resolve and rollback ----

    /** The system as this client's records and the remote show it. */
    ghost predicate Mirrors(w: World)
      reads this, remote
    {
      && clientId in w.clients && clientId in w.counters
      && w.remote == remote.Contents() && w.clients[clientId] == AsClient() && w.counters[clientId] == counter
    }

    /** What holds between any two calls: the records are those of a reachable system, every
        snapshot names its own bytes, and the store is consistent. */
    ghost predicate Ready(maintainer: ClientId, w: World)
      reads this, remote
    {
      && Mirrors(w) && Reachable(maintainer, w)
      && Addressed(commits) && Addressed(w.Live()) && Consistent(remote.packs, remote.indexes)
    }

    ghost predicate UnusedId(id: CommitId)
      reads this
    {
      id !in commits && id !in ParentsIn(commits)
    }

    lemma FreshOnHeads(key: ResourceKey, c: Commit)
      requires UnusedId(c.id) && c.resource == key && c.parents == Heads(commits, key)
      ensures IsFreshCommit(commits, key, c)
    {
    }

    /** Publish a tombstone over all heads and record it as the baseline. */
    method PublishTombstone(key: ResourceKey, id: CommitId, timestamp: int, ghost maintainer: ClientId, ghost w: World)
      returns (c: Commit, ghost w': World)
      requires Ready(maintainer, w) && id !in w.published
      modifies this`counter, this`commits, this`baselines, remote
      ensures IsFreshCommit(old(commits), key, c) && c.change.Delete?
      ensures State() == Published(old(State()), c).WithBaseline(key, BaselineDeleted({c.id}))
      ensures c.id == id && c.timestamp == timestamp && Ready(maintainer, w')
        && Grows(w, w', Added(old(commits), commits))
      ensures Leads(maintainer, w, w', [Publish(clientId, [c])])
    {
      c, w' := PublishDeleteIn(key, id, timestamp, maintainer, w);
      baselines := baselines[key := BaselineDeleted({c.id})];
    }

    method PublishDeleteIn(key: ResourceKey, id: CommitId, timestamp: int, ghost maintainer: ClientId, ghost w: World)
      returns (c: Commit, ghost w': World)
      requires Ready(maintainer, w) && id !in w.published
      modifies this`counter, this`commits, remote
      ensures IsFreshCommit(old(commits), key, c) && c.change.Delete? && commits == old(commits)[c.id := c]
      ensures c.id == id && c.timestamp == timestamp && Ready(maintainer, w')
        && Grows(w, w', Added(old(commits), commits))
      ensures Leads(maintainer, w, w', [Publish(clientId, [c])])
    {
      UnusedIn(maintainer, w, clientId, id);
      ghost var order;
      c, order := PublishDelete(key, Heads(commits, key), id, timestamp);
      w' := PublishOneStep(maintainer, w, c, [], order);
    }

    method PublishBytesIn(
      key: ResourceKey, kind: ResourceKind, data: Bytes, id: CommitId, timestamp: int, cut: Bytes -> seq<Chunk>,
      ghost maintainer: ClientId, ghost w: World)
      returns (c: Commit, ghost w': World)
      requires Ready(maintainer, w) && id !in w.published && CutsUp(cut(data), data)
      modifies this`counter, this`commits, remote
      ensures IsFreshCommit(old(commits), key, c) && commits == old(commits)[c.id := c]
      ensures c.change == PublishChange(crdt, old(commits), key, kind, data, HashesOf(cut(data)))
      ensures c.id == id && c.timestamp == timestamp && Ready(maintainer, w')
        && Grows(w, w', Added(old(commits), commits))
      ensures Leads(maintainer, w, w', [Publish(clientId, [c])])
    {
      UnusedIn(maintainer, w, clientId, id);
      ghost var packs, found, groups, order;
      c, packs, found, groups, order := PublishBytes(key, kind, data, Heads(commits, key), id, timestamp, cut);
      w' := PublishOneStep(maintainer, w, c, packs, order);
    }

    /** Publish content over all heads and record it as the baseline. */
    method PublishKept(
      key: ResourceKey, kind: ResourceKind, content: ResourceContent, id: CommitId, timestamp: int,
      cut: Bytes -> seq<Chunk>,
      ghost maintainer: ClientId, ghost w: World)
      returns (c: Commit, ghost w': World)
      requires Ready(maintainer, w) && id !in w.published && CutsUp(cut(content.data), content.data)
      modifies this`counter, this`commits, this`baselines, remote
      ensures IsFreshCommit(old(commits), key, c)
      ensures c.change == PublishChange(crdt, old(commits), key, kind, content.data, HashesOf(cut(content.data)))
      ensures State() == Published(old(State()), c)
                         .WithBaseline(key, BaselinePresent(Digest(content.data), content.version, {c.id}))
      ensures c.id == id && c.timestamp == timestamp && Ready(maintainer, w')
        && Grows(w, w', Added(old(commits), commits))
      ensures Leads(maintainer, w, w', [Publish(clientId, [c])])
    {
      c, w' := PublishBytesIn(key, kind, content.data, id, timestamp, cut, maintainer, w);
      baselines := baselines[key := BaselinePresent(Digest(content.data), content.version, {c.id})];
    }

    /** Remove the local file if one was seen, then publish a tombstone over all heads. */
    method DeleteEverywhere(
      key: ResourceKey, seen: ReplicaState, id: CommitId, timestamp: int, ghost maintainer: ClientId, ghost w: World)
      returns (outcome: Outcome, c: Commit, ghost w': World)
      requires Ready(maintainer, w) && id !in w.published
      modifies this`counter, this`commits, this`baselines, local, remote
      ensures outcome == DeleteOutcome(old(State()), key, seen)
      ensures outcome == Done ==> Deletes(old(State()), State(), key, seen, c) && IsFreshCommit(old(commits), key, c)
      ensures outcome != Done ==> State() == old(State())
      ensures c.id == id && c.timestamp == timestamp && Ready(maintainer, w')
        && Grows(w, w', Added(old(commits), commits))
      ensures Leads(maintainer, w, w', if outcome == Done then [Publish(clientId, [c])] else [])
    {
      ghost var r := State();
      if seen.LocalPresent? {
        var applied := local.DeleteResource(key, seen);
        if !applied {
          NoStep(maintainer, w);
          return Moved, NoCommit(key, id, timestamp), w;
        }
      }
      ghost var left := local.SlotOf(key);
      c, w' := PublishTombstone(key, id, timestamp, maintainer, w);
      assert seen.LocalPresent? ==>
        State() == Published(r, c).WithSlot(key, left).WithBaseline(key, BaselineDeleted({c.id}));
      outcome := Done;
    }

    /** What is returned in the place of a commit when none is made. */
    function NoCommit(key: ResourceKey, id: CommitId, timestamp: int): Commit
      reads this
    {
      Commit(id, key, {}, clientId, counter, timestamp, Delete)
    }

    /** Write the content of a known commit locally and publish it again over all heads.
        Nothing happens when the content cannot be read or the file is not the seen one. */
    method RestoreContent(
      key: ResourceKey, version: CommitId, seen: ReplicaState, id: CommitId, timestamp: int, cut: Bytes -> seq<Chunk>,
      ghost maintainer: ClientId, ghost w: World)
      returns (outcome: Outcome, c: Commit, ghost w': World)
      requires Ready(maintainer, w) && id !in w.published && version in commits && !commits[version].change.Delete?
      requires forall data :: CutsUp(cut(data), data)
      modifies this`counter, this`commits, this`baselines, local, remote
      ensures outcome == RestoreOutcome(old(State()), old(remote.indexes), key, seen, version)
      ensures outcome == Done ==>
        Restores(crdt, old(State()), State(), key, seen, version, c) && IsFreshCommit(old(commits), key, c)
      ensures outcome != Done ==> State() == old(State())
      ensures c.id == id && c.timestamp == timestamp && Ready(maintainer, w')
        && Grows(w, w', Added(old(commits), commits))
      ensures Leads(maintainer, w, w', if outcome == Done then [Publish(clientId, [c])] else [])
    {
      NoStep(maintainer, w);
      var content := ContentForRemote(key, version);
      if content.None? {
        return Unreadable, NoCommit(key, id, timestamp), w;
      }
      ghost var r := State();
      var token := local.WritePresent(key, content.value, seen);
      if token.None? {
        return Moved, NoCommit(key, id, timestamp), w;
      }
      ghost var written := State();
      outcome := Done;
      c, w' := PublishRestored(key, version, content.value, token.value, id, timestamp, cut, maintainer, w);
      WrittenThenPublished(crdt, r, written, State(), key, version, c, content.value,
                           HashesOf(cut(content.value)), token.value);
    }

    /** The second half of restoring: the written content is published and recorded. */
    method PublishRestored(
      key: ResourceKey, version: CommitId, bytes: Bytes, token: Token, id: CommitId, timestamp: int,
      cut: Bytes -> seq<Chunk>, ghost maintainer: ClientId, ghost w: World)
      returns (c: Commit, ghost w': World)
      requires Ready(maintainer, w) && id !in w.published && version in commits && !commits[version].change.Delete?
      requires IsContentOf(crdt, commits, key, version, bytes) && (forall data :: CutsUp(cut(data), data))
      modifies this`counter, this`commits, this`baselines, remote
      ensures State() == Published(old(State()), c).WithBaseline(key, BaselinePresent(Digest(bytes), token, {c.id}))
      ensures IsFreshCommit(old(commits), key, c)
      ensures c.change == PublishChange(crdt, old(commits), key, if old(commits)[version].change.TextDelta? then Text
                                        else Binary, bytes, HashesOf(cut(bytes)))
      ensures c.id == id && c.timestamp == timestamp && Ready(maintainer, w')
        && Grows(w, w', Added(old(commits), commits))
      ensures Leads(maintainer, w, w', [Publish(clientId, [c])])
    {
      var kind := if commits[version].change.TextDelta? then Text else Binary;
      c, w' := PublishKept(key, kind, ResourceContent(bytes, token), id, timestamp, cut, maintainer, w);
    }

    method Restore(
      key: ResourceKey, version: CommitId, seen: ReplicaState, id: CommitId, timestamp: int, cut: Bytes -> seq<Chunk>,
      ghost maintainer: ClientId, ghost w: World)
      returns (outcome: Outcome, c: Commit, ghost w': World)
      requires Ready(maintainer, w) && id !in w.published && version in commits
      requires forall data :: CutsUp(cut(data), data)
      modifies this`counter, this`commits, this`baselines, local, remote
      ensures outcome == RestoreOutcome(old(State()), old(remote.indexes), key, seen, version)
      ensures outcome == Done ==>
        Restores(crdt, old(State()), State(), key, seen, version, c) && IsFreshCommit(old(commits), key, c)
      ensures outcome != Done ==> State() == old(State())
      ensures c.id == id && c.timestamp == timestamp && Ready(maintainer, w')
        && Grows(w, w', Added(old(commits), commits))
      ensures Leads(maintainer, w, w', if outcome == Done then [Publish(clientId, [c])] else [])
    {
      if commits[version].change.Delete? {
        outcome, c, w' := DeleteEverywhere(key, seen, id, timestamp, maintainer, w);
      } else {
        outcome, c, w' := RestoreContent(key, version, seen, id, timestamp, cut, maintainer, w);
      }
    }

    /** What the inventory says of one resource; nothing when it fails. */
    method Look(listing: map<ResourceKey, Listing>, key: ResourceKey) returns (seen: Option<ReplicaState>)
      ensures seen == Seen(State(), listing, key)
    {
      var inventory := LocalInventory(listing);
      seen := if inventory.Some? then Some(StateIn(inventory.value, key)) else None;
    }

    /** Restore a version of the resource; to the other clients, publish one commit. */
    method Rollback(
      key: ResourceKey, version: CommitId, listing: map<ResourceKey, Listing>, id: CommitId, timestamp: int,
      cut: Bytes -> seq<Chunk>, ghost maintainer: ClientId, ghost w: World)
      returns (outcome: Outcome, c: Commit, ghost w': World)
      requires Ready(maintainer, w) && id !in w.published
      requires forall data :: CutsUp(cut(data), data)
      modifies this`counter, this`commits, this`baselines, local, remote
      ensures RollsBack(crdt, old(State()), State(), old(remote.indexes), key, version,
                        Seen(old(State()), listing, key), c, outcome)
      ensures c.id == id && c.timestamp == timestamp && Ready(maintainer, w')
        && Grows(w, w', Added(old(commits), commits))
      ensures Leads(maintainer, w, w', if outcome == Done then [Publish(clientId, [c])] else [])
    {
      NoStep(maintainer, w);
      if version !in commits || commits[version].resource != key {
        return Invalid, NoCommit(key, id, timestamp), w;
      }
      var seen := Look(listing, key);
      if seen.None? {
        return Unlisted, NoCommit(key, id, timestamp), w;
      }
      outcome, c, w' := Restore(key, version, seen.value, id, timestamp, cut, maintainer, w);
    }

    /** Publish the local side of a conflict, when there is one. */
    method KeepFile(
      key: ResourceKey, kind: ResourceKind, id: CommitId, timestamp: int, cut: Bytes -> seq<Chunk>,
      ghost maintainer: ClientId, ghost w: World)
      returns (outcome: Outcome, c: Commit, ghost w': World)
      requires Ready(maintainer, w) && id !in w.published
      requires forall data :: CutsUp(cut(data), data)
      modifies this`counter, this`commits, this`baselines, remote
      ensures outcome == if old(local.SlotOf(key)).File? then Done else Invalid
      ensures outcome == Done ==>
        Keeps(crdt, old(State()), State(), kind, key, c) && IsFreshCommit(old(commits), key, c)
      ensures outcome != Done ==> State() == old(State())
      ensures c.id == id && c.timestamp == timestamp && Ready(maintainer, w')
        && Grows(w, w', Added(old(commits), commits))
      ensures Leads(maintainer, w, w', if outcome == Done then [Publish(clientId, [c])] else [])
    {
      var content := local.ReadResource(key);
      if content.None? {
        NoStep(maintainer, w);
        return Invalid, NoCommit(key, id, timestamp), w;
      }
      c, w' := PublishKept(key, kind, content.value, id, timestamp, cut, maintainer, w);
      outcome := Done;
    }

    /** Carry out a choice between the sides of a conflict whose record is not stale. */
    method Settle(
      record: ConflictRecord, choice: Choice, kind: ResourceKind, seen: ReplicaState, id: CommitId, timestamp: int,
      cut: Bytes -> seq<Chunk>, ghost maintainer: ClientId, ghost w: World)
      returns (outcome: Outcome, c: Commit, ghost w': World)
      requires !IsStale(State(), record, Some(seen))
      requires Ready(maintainer, w) && id !in w.published
      requires forall data :: CutsUp(cut(data), data)
      modifies this`counter, this`commits, this`baselines, local, remote
      ensures outcome != Stale
      ensures Resolves(crdt, old(State()), State(), old(remote.indexes), kind, record, choice, Some(seen), c, outcome)
      ensures c.id == id && c.timestamp == timestamp && Ready(maintainer, w')
        && Grows(w, w', Added(old(commits), commits))
      ensures Leads(maintainer, w, w', if outcome == Done then [Publish(clientId, [c])] else [])
    {
      var key := record.resource;
      match choice {
        case KeepLocal =>
          outcome, c, w' := KeepFile(key, kind, id, timestamp, cut, maintainer, w);
        case TakeDelete =>
          outcome, c, w' := DeleteEverywhere(key, seen, id, timestamp, maintainer, w);
        case TakeRemote(version) =>
          if version !in record.remoteHeads || version !in commits {
            NoStep(maintainer, w);
            return Invalid, NoCommit(key, id, timestamp), w;
          }
          outcome, c, w' := Restore(key, version, seen, id, timestamp, cut, maintainer, w);
      }
    }

    /** Everything of `resolve` but the conflict record. */
    method Decide(
      record: ConflictRecord, choice: Choice, kind: ResourceKind, listing: map<ResourceKey, Listing>, id: CommitId,
      timestamp: int, cut: Bytes -> seq<Chunk>, ghost maintainer: ClientId, ghost w: World)
      returns (outcome: Outcome, c: Commit, ghost w': World)
      requires Ready(maintainer, w) && id !in w.published
      requires forall data :: CutsUp(cut(data), data)
      modifies this`counter, this`commits, this`baselines, local, remote
      ensures Resolves(crdt, old(State()), State(), old(remote.indexes), kind, record, choice,
                       Seen(old(State()), listing, record.resource), c, outcome)
      ensures c.id == id && c.timestamp == timestamp && Ready(maintainer, w')
        && Grows(w, w', Added(old(commits), commits))
      ensures Leads(maintainer, w, w', if outcome == Done then [Publish(clientId, [c])] else [])
    {
      NoStep(maintainer, w);
      if Heads(commits, record.resource) != record.remoteHeads {
        return Stale, NoCommit(record.resource, id, timestamp), w;
      }
      var seen := Look(listing, record.resource);
      if seen.None? {
        return Unlisted, NoCommit(record.resource, id, timestamp), w;
      }
      if IsStale(Replica(local.slots, commits, baselines, texts), record, seen) {
        return Stale, NoCommit(record.resource, id, timestamp), w;
      }
      outcome, c, w' := Settle(record, choice, kind, seen.value, id, timestamp, cut, maintainer, w);
    }

    /** Resolve a conflict; to the other clients, publish at most one commit. A record that
        no longer describes the heads or the listed file is dropped without touching either;
        a settled one is gone as well. */
    method Resolve(
      record: ConflictRecord, choice: Choice, kind: ResourceKind, listing: map<ResourceKey, Listing>, id: CommitId,
      timestamp: int, cut: Bytes -> seq<Chunk>, ghost maintainer: ClientId, ghost w: World)
      returns (outcome: Outcome, c: Commit, ghost w': World)
      requires record in conflicts && Ready(maintainer, w) && id !in w.published
      requires forall data :: CutsUp(cut(data), data)
      modifies this`counter, this`commits, this`baselines, this`conflicts, local, remote
      ensures Resolves(crdt, old(State()), State(), old(remote.indexes), kind, record, choice,
                       Seen(old(State()), listing, record.resource), c, outcome)
      ensures conflicts == if outcome == Stale || outcome == Done then old(conflicts) - {record} else old(conflicts)
      ensures c.id == id && c.timestamp == timestamp && Ready(maintainer, w')
        && Grows(w, w', Added(old(commits), commits))
      ensures Leads(maintainer, w, w', if outcome == Done then [Publish(clientId, [c])] else [])
    {
      outcome, c, w' := Decide(record, choice, kind, listing, id, timestamp, cut, maintainer, w);
      if outcome == Stale || outcome == Done {
        conflicts := conflicts - {record};
      }
    }

    // ---- Execute ----

    /** The task starts from the state this runtime is in. */
    ghost predicate Serves(t: Task)
      reads this, local
    {
      t.crdt == crdt && t.client == clientId && t.state == State() && t.clock == local.clock
    }

    ghost predicate UsableIds(t: Task)
      reads this
    {
      && Publishing(t.plan) <= t.ids.Keys
      && (forall key :: key in Publishing(t.plan) ==> UnusedId(t.ids[key]))
      && (forall a, b :: a in Publishing(t.plan) && b in Publishing(t.plan) && t.ids[a] == t.ids[b] ==> a == b)
    }

    /** The commit for one upload or deletion, or nothing when the file is not the planned
        one. Only a binary file is cut into chunks. */
    method MakeCommit(t: Task, key: ResourceKey, cut: Bytes -> seq<Chunk>)
      returns (made: Option<Commit>, chunks: seq<Chunk>)
      requires Serves(t) && key in Publishing(t.plan) && key in t.ids && UnusedId(t.ids[key])
      requires forall data :: CutsUp(cut(data), data)
      modifies this`counter
      ensures made.None? <==> UploadFails(t, key)
      ensures made.None? ==> counter == old(counter) && chunks == []
      ensures made.Some? ==>
        && MadeFor(t, key, made.value) && made.value.counter == counter == old(counter) + 1
        && StoresChunks(made.value, chunks) && (!made.value.change.BinarySnapshot? ==> chunks == [])
      ensures Cut(chunks)
    {
      chunks := [];
      var change := Delete;
      if t.plan[key].Upload? {
        var content := local.ReadResource(key);
        if content.None? || t.PlannedFor(key).VersionToken() != Some(content.value.version) {
          return None, [];
        }
        if t.KindFor(key) == Binary {
          chunks := cut(content.value.data);
          CutIsAddressed(chunks, content.value.data);
        }
        change := UploadChange(crdt, t.state, key, t.KindFor(key), content.value.data, HashesOf(chunks));
      }
      counter := counter + 1;
      var c := Commit(t.ids[key], key, Heads(commits, key), clientId, counter, t.timestamp, change);
      FreshOnHeads(key, c);
      assert IsMade(t, key, c, HashesOf(chunks));
      made := Some(c);
    }

    /** Prepare one more resource. */
    method PrepareOne(
      t: Task, key: ResourceKey, p: Prepared, cut: Bytes -> seq<Chunk>, ghost done: set<ResourceKey>)
      returns (p': Prepared)
      requires Serves(t) && key in Publishing(t.plan) && key in t.ids && UnusedId(t.ids[key])
      requires forall data :: CutsUp(cut(data), data)
      requires PreparedOk(t, done, p, counter) && key !in done
      modifies this`counter
      ensures PreparedOk(t, done + {key}, p', counter)
    {
      var c, chunks := MakeCommit(t, key, cut);
      if c.None? {
        PreparedFail(t, done, p, counter, key);
        p' := p.(failed := p.failed + {key});
      } else {
        PreparedAdd(t, done, p, counter - 1, key, c.value, chunks);
        p' := Prepared(p.made[key := c.value], p.batch + [c.value], p.newChunks + chunks, p.failed);
      }
    }

    /** All commits of one batch. Counters increase along the batch; each resource occurs
        at most once; an upload whose file moved on is left out. */
    method PrepareUploads(t: Task, cut: Bytes -> seq<Chunk>) returns (p: Prepared)
      requires Serves(t) && t.counter == counter && UsableIds(t)
      requires forall data :: CutsUp(cut(data), data)
      modifies this`counter
      ensures IsPrepared(t, p, counter)
    {
      p := Prepared(map[], [], [], {});
      PreparedNothing(t);
      var todo := Publishing(t.plan);
      ghost var done: set<ResourceKey> := {};
      while todo != {}
        invariant todo <= Publishing(t.plan) && Serves(t) && done == Publishing(t.plan) - todo
        invariant PreparedOk(t, done, p, counter)
      {
        var key :| key in todo;
        todo := todo - {key};
        p := PrepareOne(t, key, p, cut, done);
        done := done + {key};
      }
      assert done == Publishing(t.plan);
    }

    /** Pack what the remote lacks and store everything in one batch. */
    method StoreUploads(prepared: Prepared, ghost t: Task)
      requires IsPrepared(t, prepared, counter) && DistinctIds(prepared.batch)
      requires Consistent(remote.packs, remote.indexes)
      modifies remote
      ensures Consistent(remote.packs, remote.indexes)
      ensures IsStored(prepared, old(remote.Contents()), remote.Contents())
    {
      PreparedFacts(t, prepared, counter);
      var built, found, groups := PackMissing(prepared.newChunks);
      ghost var packs := built;
      MissingMembers(prepared.newChunks, found);
      BuiltPacksAreWellSealed(Missing(prepared.newChunks, found), groups, built);
      if prepared.batch == [] {
        NothingToPack(found, groups, packs);
      }
      ghost var before := remote.Contents();
      ghost var order := remote.CommitBatch(CommitBatch(built, prepared.batch));
      BatchStoreIsConsistent(before, CommitBatch(packs, prepared.batch), order);
      if FreshIds(packs, before.indexes) {
        UploadsAreReadable(t, prepared, counter, before, found, groups, packs);
      }
      assert Uploaded(prepared, packs, order, before, remote.Contents());
    }

    /** Make the commits and store them. */
    method PrepareAndStore(t: Task, cut: Bytes -> seq<Chunk>) returns (p: Prepared)
      requires Serves(t) && t.counter == counter && UsableIds(t) && (forall data :: CutsUp(cut(data), data))
      requires Addressed(commits) && Consistent(remote.packs, remote.indexes)
      modifies this`counter, remote
      ensures IsPrepared(t, p, counter) && NewBatch(commits, p.batch) && Addressed(commits + ById(p.batch))
      ensures Consistent(remote.packs, remote.indexes) && IsStored(p, old(remote.Contents()), remote.Contents())
    {
      p := PrepareUploads(t, cut);
      MadeBatchIsNew(t, p, counter);
      StoreUploads(p, t);
    }

    /** Take one stored commit over into the state. */
    method RememberCommit(c: Commit, planned: ReplicaState) returns (ghost token: Token)
      modifies this`commits, this`baselines, this`texts, local
      ensures State() == AfterCommit(crdt, old(State()), planned, c, token)
      ensures local.clock >= old(local.clock)
    {
      var key := c.resource;
      token := 0;
      commits := commits[c.id := c];
      var heads := Heads(commits, key);
      match c.change {
        case Delete =>
          baselines := baselines[key := BaselineDeleted(heads)];
        case BinarySnapshot(contentId, _, _) =>
          baselines := baselines[key := BaselinePresent(contentId, planned.VersionToken().GetOr(0), heads)];
        case TextDelta(_) =>
          var merged := TextDoc(commits, key);
          var bytes := crdt.content(merged);
          var written := local.WritePresent(key, bytes, planned);
          if written.Some? {
            token := written.value;
            texts := texts[key := merged];
            baselines := baselines[key := BaselinePresent(Digest(bytes), written.value, heads)];
          }
      }
    }

    /** Take the whole batch over, one commit after the other. */
    method RememberBatch(t: Task, batch: seq<Commit>) returns (ghost tokens: seq<Token>)
      requires Serves(t) && NewBatch(commits, batch)
      modifies this`commits, this`baselines, this`texts, local
      ensures Remembered(t, State(), batch, tokens) && t.clock <= local.clock
    {
      tokens := [];
      assert batch[..0] == [];
      for i := 0 to |batch|
        invariant Remembered(t, State(), batch[..i], tokens) && t.clock <= local.clock
      {
        NextIsNew(t.state.commits, batch, i);
        ghost var s := State();
        ghost var token := RememberCommit(batch[i], t.PlannedFor(batch[i].resource));
        RememberStep(t, s, batch[..i], tokens, batch[i], token);
        tokens := tokens + [token];
      }
      assert batch[..|batch|] == batch;
    }

    /** Take the stored commits over into the state. */
    method TakeOver(t: Task, p: Prepared, ghost before: Store)
      requires Serves(t) && IsPrepared(t, p, counter) && NewBatch(commits, p.batch)
      requires WellPlanned(t.plan, commits) && IsStored(p, before, remote.Contents())
      modifies this`commits, this`baselines, this`texts, local
      ensures Progress(t, State(), remote.indexes, Publishing(t.plan), p.failed) && t.clock <= local.clock
      ensures commits == old(commits) + ById(p.batch) && WellPlanned(t.plan, commits)
      ensures Transferred(t, counter, commits, before, remote.Contents())
    {
      WellPlannedGrows(t.plan, commits, p.batch);
      ghost var tokens := RememberBatch(t, p.batch);
      BatchProgress(t, p, counter, State(), tokens, remote.indexes);
      TransferredBy(t, p, counter, commits, before, remote.Contents());
    }

    /** The upload half of `execute`: make the commits, store packs, indexes, commits and
        segments in one batch, then take the commits over. */
    method UploadAll(t: Task, cut: Bytes -> seq<Chunk>) returns (failed: set<ResourceKey>)
      requires Serves(t) && t.counter == counter && UsableIds(t) && (forall data :: CutsUp(cut(data), data))
      requires WellPlanned(t.plan, commits) && Addressed(commits) && Consistent(remote.packs, remote.indexes)
      modifies this`counter, this`commits, this`baselines, this`texts, local, remote
      ensures Progress(t, State(), remote.indexes, Publishing(t.plan), failed) && t.clock <= local.clock
      ensures WellPlanned(t.plan, commits) && Addressed(commits) && Consistent(remote.packs, remote.indexes)
      ensures Transferred(t, counter, commits, old(remote.Contents()), remote.Contents())
    {
      ghost var before := remote.Contents();
      var p := PrepareAndStore(t, cut);
      TakeOver(t, p, before);
      failed := p.failed;
    }

    /** Carry out one of the remaining operations. It fails exactly when the content cannot
        be read or the local file is not the planned one any more, and changes nothing then. */
    method ApplyOne(t: Task, key: ResourceKey)
      returns (failed: bool, ghost bytes: Bytes, ghost left: Slot, ghost token: Token)
      requires t.crdt == crdt && key in t.plan && t.plan[key].Key() == key && local.SlotOf(key) == t.SlotOf(key)
      requires t.clock <= local.clock
      requires Addressed(commits) && Consistent(remote.packs, remote.indexes)
      requires !t.plan[key].Publishes()
      requires t.plan[key].Download? ==> t.plan[key].remote.RemotePresent? && t.plan[key].remote.heads != {}
      modifies this`baselines, this`texts, local
      ensures failed <==> Fails(t, commits, remote.indexes, key)
      ensures failed ==> State() == old(State())
      ensures !failed ==>
        && State() == ApplyOperation(old(State()), t.KindFor(key), t.plan[key], t.PlannedFor(key), bytes, left, token)
        && !left.File? && NewTokens(t, key, left, token)
        && (t.plan[key].Download? ==> IsContentOf(crdt, commits, key, First(Heads(commits, key)), bytes))
      ensures old(local.clock) <= local.clock
    {
      failed, bytes, left, token := false, [], Absent, 0;
      match t.plan[key] {
        case EstablishBaseline(_, state, heads) =>
          if t.KindFor(key) == Text {
            texts := texts[key := TextDoc(commits, key)];
          }
          if state.LocalPresent? {
            baselines := baselines[key := BaselinePresent(state.contentId, state.version, heads)];
          }
        case EstablishDeletedBaseline(_, heads) =>
          baselines := baselines[key := BaselineDeleted(heads)];
        case Download(_, remoteState) =>
          failed, bytes, token := DownloadOne(key, remoteState, t.PlannedFor(key));
        case ApplyDelete(_, state, heads) =>
          var applied := local.DeleteResource(key, state);
          failed := !applied;
          if applied {
            left := local.SlotOf(key);
            baselines := baselines[key := BaselineDeleted(heads)];
          }
        case _ =>
      }
    }

    /** Read the content at the first head and write it while the file is the planned one. */
    method DownloadOne(key: ResourceKey, source: RemoteResourceState, planned: ReplicaState)
      returns (failed: bool, ghost bytes: Bytes, ghost token: Token)
      requires Addressed(commits) && Consistent(remote.packs, remote.indexes)
      requires source.RemotePresent? && source.heads != {}
      modifies this`baselines, this`texts, local
      ensures failed <==> !CanRead(commits, remote.indexes, key) || !Matches(old(local.SlotOf(key)), planned)
      ensures failed ==> State() == old(State())
      ensures !failed ==> IsContentOf(crdt, commits, key, First(Heads(commits, key)), bytes) && token > old(local.clock)
      ensures old(local.clock) <= local.clock
      ensures !failed ==> forall kind, left ::
        State() == ApplyOperation(old(State()), kind, Download(key, source), planned, bytes, left, token)
    {
      bytes, token := [], 0;
      if Heads(commits, key) == {} {
        return true, bytes, token;
      }
      var content := ContentForRemote(key, First(Heads(commits, key)));
      if content.None? {
        return true, bytes, token;
      }
      var written := local.WritePresent(key, content.value, planned);
      if written.None? {
        return true, bytes, token;
      }
      bytes, token := content.value, written.value;
      var selected := First(source.heads);
      if selected in commits && commits[selected].change.TextDelta? {
        texts := texts[key := TextDoc(commits, key)];
      }
      baselines := baselines[key := BaselinePresent(source.contentId, written.value, source.heads)];
      failed := false;
    }

    /** Apply one more operation of the plan. */
    method ApplyNext(t: Task, key: ResourceKey, failed: set<ResourceKey>, ghost done: set<ResourceKey>)
      returns (failed': set<ResourceKey>)
      requires t.crdt == crdt && key in t.plan && key !in Publishing(t.plan) && key !in done && t.clock <= local.clock
      requires WellPlanned(t.plan, commits) && Addressed(commits) && Consistent(remote.packs, remote.indexes)
      requires Progress(t, State(), remote.indexes, done, failed)
      modifies this`baselines, this`texts, local
      ensures Progress(t, State(), remote.indexes, done + {key}, failed') && t.clock <= local.clock
    {
      ghost var s := State();
      assert ViewOf(s, key) == ViewOf(t.state, key);
      var failedNow, bytes, left, token := ApplyOne(t, key);
      if !failedNow {
        AppliedOutcome(t, s, State(), remote.indexes, key, bytes, left, token);
        AppliedElsewhere(t, s, key, bytes, left, token);
      }
      ProgressStep(t, s, State(), remote.indexes, done, failed, key, failedNow);
      failed' := if failedNow then failed + {key} else failed;
    }

    /** The rest of `execute`: baselines, downloads and local deletions, in an arbitrary order. */
    method ApplyRest(t: Task, uploadsFailed: set<ResourceKey>) returns (failed: set<ResourceKey>)
      requires t.crdt == crdt
      requires WellPlanned(t.plan, commits) && Addressed(commits) && Consistent(remote.packs, remote.indexes)
      requires Progress(t, State(), remote.indexes, Publishing(t.plan), uploadsFailed) && t.clock <= local.clock
      modifies this`baselines, this`texts, local
      ensures Progress(t, State(), remote.indexes, t.plan.Keys, failed)
    {
      failed := uploadsFailed;
      var todo := t.plan.Keys - Publishing(t.plan);
      ghost var done := Publishing(t.plan);
      while todo != {}
        invariant todo <= t.plan.Keys && done == t.plan.Keys - todo && Publishing(t.plan) <= done
        invariant Progress(t, State(), remote.indexes, done, failed) && t.clock <= local.clock
      {
        var key :| key in todo;
        failed := ApplyNext(t, key, failed, done);
        todo := todo - {key};
        done := done + {key};
      }
      assert done == t.plan.Keys;
    }

    /** Tell the others, per resource, which heads this client has seen. */
    method Acknowledge(keys: set<ResourceKey>)
      modifies remote`acks
      ensures remote.acks == WithAcks(old(remote.acks), clientId, commits, keys)
    {
      var todo := keys;
      var list: seq<ResourceAck> := [];
      ghost var acks, done: set<ResourceKey> := remote.acks, {};
      while todo != {}
        invariant todo <= keys && done == keys - todo && remote.acks == acks
        invariant PutAcks(acks, list) == WithAcks(acks, clientId, commits, done)
      {
        var key :| key in todo;
        AcknowledgeStep(acks, list, clientId, commits, done, key);
        list := list + [ResourceAck(clientId, key, Heads(commits, key), {})];
        todo, done := todo - {key}, done + {key};
      }
      assert done == keys;
      remote.WriteAcknowledgements(list);
    }

    /** Both halves of `execute`. */
    method TransferAll(t: Task, cut: Bytes -> seq<Chunk>) returns (failed: set<ResourceKey>)
      requires Serves(t) && t.counter == counter && UsableIds(t) && (forall data :: CutsUp(cut(data), data))
      requires WellPlanned(t.plan, commits) && Addressed(commits) && Consistent(remote.packs, remote.indexes)
      modifies this`counter, this`commits, this`baselines, this`texts, local, remote
      ensures Progress(t, State(), remote.indexes, t.plan.Keys, failed)
      ensures Consistent(remote.packs, remote.indexes) && Addressed(commits)
      ensures Transferred(t, counter, commits, old(remote.Contents()), remote.Contents())
    {
      var uploadsFailed := UploadAll(t, cut);
      failed := ApplyRest(t, uploadsFailed);
    }

    /** Forget the conflicts of the scopes and record those of the plan. */
    method RecordConflicts(scopes: set<ScopeId>, plan: map<ResourceKey, PlanOperation>)
      modifies this`conflicts
      ensures conflicts == RecordedConflicts(old(conflicts), scopes, plan)
    {
      conflicts := (set c | c in conflicts && c.resource.scope !in scopes) +
                   (set key | key in plan && plan[key].Conflict? :: plan[key].record);
    }

    /** Carry out a plan. Every planned resource gets its outcome, seen against the state
        in which execution began; no other resource is touched. The remote receives the
        prepared batch and the acknowledgement of every resource not in conflict. */
    method Execute(
      t: Task, scopes: set<ScopeId>, cut: Bytes -> seq<Chunk>)
      returns (failed: set<ResourceKey>)
      requires Serves(t) && t.counter == counter && UsableIds(t) && (forall data :: CutsUp(cut(data), data))
      requires WellPlanned(t.plan, commits) && Addressed(commits) && Consistent(remote.packs, remote.indexes)
      modifies this`counter, this`commits, this`baselines, this`texts, this`conflicts, local, remote
      ensures Progress(t, State(), remote.indexes, t.plan.Keys, failed)
      ensures conflicts == RecordedConflicts(old(conflicts), scopes, t.plan)
      ensures Consistent(remote.packs, remote.indexes) && Addressed(commits)
      ensures Executed(t, counter, commits, old(remote.Contents()), remote.Contents())
    {
      RecordConflicts(scopes, t.plan);
      failed := CarryOut(t, cut);
    }

    /** Everything of `execute` but the conflicts: transfers, then acknowledgements. */
    method CarryOut(t: Task, cut: Bytes -> seq<Chunk>) returns (failed: set<ResourceKey>)
      requires Serves(t) && t.counter == counter && UsableIds(t) && (forall data :: CutsUp(cut(data), data))
      requires WellPlanned(t.plan, commits) && Addressed(commits) && Consistent(remote.packs, remote.indexes)
      modifies this`counter, this`commits, this`baselines, this`texts, local, remote
      ensures Progress(t, State(), remote.indexes, t.plan.Keys, failed)
      ensures Consistent(remote.packs, remote.indexes) && Addressed(commits)
      ensures Executed(t, counter, commits, old(remote.Contents()), remote.Contents())
    {
      ghost var before := remote.Contents();
      failed := TransferAll(t, cut);
      ghost var stored := remote.Contents();
      Acknowledge(Unconflicted(t.plan));
      ExecutedBy(t, counter, commits, before, stored, remote.Contents());
    }

    // ---- Reconcile ----

    /** A refresh in a sound system can always load what it lists. */
    method RefreshIn(scopes: set<ScopeId>, ghost maintainer: ClientId, ghost w: World)
      returns (ghost w': World, ghost next: Cursors)
      requires Mirrors(w) && Reachable(maintainer, w) && Addressed(commits) && Addressed(w.Live())
      modifies this`commits, this`cursors, this`counted
      ensures Addressed(commits) && Addressed(w'.Live()) && Mirrors(w') && Reachable(maintainer, w')
      ensures CountsScan(remote.Contents(), ScanEvents(remote.Contents(), scopes, old(cursors)), old(counted), counted)
      ensures Leads(maintainer, w, w', [Refresh(clientId, scopes, next)])
      ensures w' == WithClient(w, clientId, AsClient())
      ensures RefreshesTo(w.remote, w.clients[clientId], scopes, next, AsClient())
    {
      EverythingListedIsStored(maintainer, w, clientId, scopes);
      var ok;
      ok, next := RefreshRemote(scopes);
      w' := WithClient(w, clientId, AsClient());
      RefreshSteps(maintainer, w, clientId, scopes, next, AsClient());
      LoadedIsLive(maintainer, w, clientId, scopes, next, AsClient());
    }

    /** What the planner is told about the local files; nothing when a file whose hash is
        needed cannot be read. */
    method LocalInventory(
      listing: map<ResourceKey, Listing>)
      returns (inventory: Option<map<ResourceKey, ReplicaState>>)
      ensures inventory.Some? <==>
        forall key :: key in listing ==> InventoryState(listing[key], State().BaselineOf(key), local.SlotOf(key)).Some?
      ensures inventory.Some? ==> IsInventory(State(), listing, inventory.value)
    {
      var states: map<ResourceKey, ReplicaState> := map[];
      var todo := listing.Keys;
      while todo != {}
        invariant todo <= listing.Keys && states.Keys == listing.Keys - todo
        invariant forall key :: key in states ==>
          InventoryState(listing[key], State().BaselineOf(key), local.SlotOf(key)) == Some(states[key])
      {
        var key :| key in todo;
        todo := todo - {key};
        var baseline := if key in baselines then Some(baselines[key]) else None;
        var state := InventoryState(listing[key], baseline, local.SlotOf(key));
        if state.None? {
          return None;
        }
        states := states[key := state.value];
      }
      inventory := Some(states);
    }

    /** The records the protocol has of this client are the commits it knows. */
    ghost predicate KnownIn(maintainer: ClientId, w: World)
      reads this
    {
      Reachable(maintainer, w) && clientId in w.clients && w.clients[clientId].commits == commits
    }

    /** The identifiers of the commits to come are the given ones. */
    predicate TakesIds(t: Task, ids: ResourceKey -> CommitId) {
      forall key :: key in t.ids ==> t.ids[key] == ids(key)
    }

    /** The task of carrying out everything planned in scope. */
    method PlanTask(
      scopes: set<ScopeId>, inventory: map<ResourceKey, ReplicaState>, kinds: map<ResourceKey, ResourceKind>,
      ids: ResourceKey -> CommitId, timestamp: int, ghost maintainer: ClientId, ghost w: World)
      returns (t: Task)
      requires KnownIn(maintainer, w)
      requires (forall a, b :: ids(a) == ids(b) ==> a == b) && (forall key :: ids(key) !in w.published)
      ensures Serves(t) && t.counter == counter && UsableIds(t) && UnpublishedIds(t, w)
      ensures t.inventory == inventory && t.kinds == kinds && TakesIds(t, ids) && t.timestamp == timestamp
      ensures t.plan == BuildPlan(crdt, State(), kinds, scopes, inventory) && WellPlanned(t.plan, commits)
    {
      var r := Replica(local.slots, commits, baselines, texts);
      var plan := BuildPlan(crdt, r, kinds, scopes, inventory);
      BuiltPlanIsWellPlanned(crdt, r, kinds, scopes, inventory);
      var chosen := map key | key in Publishing(plan) :: ids(key);
      forall key | key in Publishing(plan) ensures UnusedId(chosen[key]) {
        UnusedIn(maintainer, w, clientId, ids(key));
      }
      t := Task(crdt, r, local.clock, clientId, counter, timestamp, plan, inventory, kinds, chosen);
    }

    /** Write a snapshot of every scope whose count is due and start counting again. When
        the client may compact all of them, each snapshot is a step of the protocol. */
    method SnapshotLargeCatalogs(ghost maintainer: ClientId, ghost w: World)
      returns (ghost w': World, ghost steps: seq<Step>)
      requires Mirrors(w) && Reachable(maintainer, w)
      modifies this`counted, remote
      ensures remote.Contents() == SnapshotsTaken(old(remote.Contents()), AsClient(), Due(old(counted)))
      ensures counted == CountedAgain(old(counted)) && Due(counted) == {}
      ensures forall scope: ScopeId ::
        && (CountOf(old(counted), scope) >= 10_000 ==>
              && CountOf(counted, scope) == 0
              && scope in remote.snapshots && remote.snapshots[scope] == SnapshotOf(AsClient(), scope, {}))
        && (CountOf(old(counted), scope) < 10_000 ==>
              && CountOf(counted, scope) == CountOf(old(counted), scope)
              && (scope in remote.snapshots <==> scope in old(remote.snapshots))
              && (scope in old(remote.snapshots) ==> remote.snapshots[scope] == old(remote.snapshots)[scope]))
      ensures MaySnapshotAll(maintainer, w, clientId, Due(old(counted))) ==>
        && w' == w.(remote := remote.Contents()) && Reachable(maintainer, w')
        && Leads(maintainer, w, w', steps)
    {
      var due := Due(counted);
      ghost var r, done: set<ScopeId>, all := remote.Contents(), {}, due;
      w', steps := w, [];
      NoSnapshotTaken(r, AsClient());
      NoStep(maintainer, w);
      while due != {}
        invariant due <= all && done == all - due && counted == old(counted)
        invariant remote.Contents() == SnapshotsTaken(r, AsClient(), done)
        invariant MaySnapshotAll(maintainer, w, clientId, all) ==>
          && w' == w.(remote := remote.Contents()) && Reachable(maintainer, w') && Leads(maintainer, w, w', steps)
          && MaySnapshotAll(maintainer, w', clientId, due)
      {
        var scope :| scope in due;
        OneMoreSnapshot(r, AsClient(), done, scope);
        ghost var droppedSegments, droppedCommits := remote.CompactCatalog(SnapshotOf(AsClient(), scope, {}), {});
        if MaySnapshotAll(maintainer, w, clientId, all) {
          w', steps := SnapshotOn(maintainer, w, w', clientId, due, scope, steps);
        }
        due, done := due - {scope}, done + {scope};
      }
      assert done == all;
      CountedAgainMeaning(counted);
      counted := CountedAgain(counted);
    }

    /** The part of a reconcile before the inventory: refresh, then the snapshots that are due. */
    method RefreshAndSnapshot(scopes: set<ScopeId>, ghost maintainer: ClientId, ghost w: World)
      returns (ghost due: set<ScopeId>, ghost start: World, ghost mid: World, ghost steps: seq<Step>)
      requires Ready(maintainer, w)
      modifies this`commits, this`cursors, this`counted, remote
      ensures IsRefreshOf(w, start, clientId, scopes, old(State()), State())
      ensures KnownIn(maintainer, start) && start.published == w.published
      ensures IsDue(w.remote, scopes, old(cursors), old(counted), due, counted)
      ensures Addressed(commits) && Consistent(remote.packs, remote.indexes)
      ensures MaySnapshotAll(maintainer, start, clientId, due) ==>
        Ready(maintainer, mid) && OnlyReads(maintainer, w, mid, steps)
    {
      ghost var next, taken;
      start, next := RefreshIn(scopes, maintainer, w);
      due := Due(counted);
      CountedIsDue(w.remote, scopes, old(cursors), old(counted), counted);
      assert RefreshStep(w, start, clientId, scopes, next);
      ghost var refreshed := State();
      mid, taken := SnapshotLargeCatalogs(maintainer, start);
      assert State() == refreshed && remote.packs == start.remote.packs && remote.indexes == start.remote.indexes;
      steps := [Refresh(clientId, scopes, next)] + taken;
      if MaySnapshotAll(maintainer, start, clientId, due) {
        ReadsOn(maintainer, w, start, mid, Refresh(clientId, scopes, next), taken);
      }
    }

    /** The part of a reconcile after the refresh and the snapshots. */
    method ListAndExecute(
      scopes: set<ScopeId>, listing: map<ResourceKey, Listing>, kinds: map<ResourceKey, ResourceKind>,
      ids: ResourceKey -> CommitId, timestamp: int, cut: Bytes -> seq<Chunk>, ghost maintainer: ClientId,
      ghost w: World)
      returns (failed: Option<set<ResourceKey>>, ghost t: Task)
      requires KnownIn(maintainer, w) && Addressed(commits) && Consistent(remote.packs, remote.indexes)
      requires (forall a, b :: ids(a) == ids(b) ==> a == b) && (forall key :: ids(key) !in w.published)
      requires forall data :: CutsUp(cut(data), data)
      modifies this`counter, this`commits, this`baselines, this`texts, this`conflicts, local, remote
      ensures Addressed(commits) && Consistent(remote.packs, remote.indexes)
      ensures t.state == old(State()) && t.clock == old(local.clock) && t.timestamp == timestamp && TakesIds(t, ids)
      ensures t.crdt == crdt && t.kinds == kinds && t.client == clientId
      ensures t.counter == old(counter) && UnpublishedIds(t, w)
      ensures failed.None? ==>
        && State() == t.state && conflicts == old(conflicts)
        && counter == old(counter) && remote.Contents() == old(remote.Contents())
      ensures failed.Some? ==> IsInventory(t.state, listing, t.inventory)
      ensures failed.Some? ==> ExecutesPlan(t, scopes, State(), remote.indexes, failed.value)
      ensures failed.Some? ==> conflicts == RecordedConflicts(old(conflicts), scopes, t.plan)
      ensures failed.Some? ==> Executed(t, counter, commits, old(remote.Contents()), remote.Contents())
    {
      failed := None;
      t := Task(crdt, State(), local.clock, clientId, counter, timestamp, map[], map[], kinds, map[]);
      var inventory := LocalInventory(listing);
      if inventory.Some? {
        var task := PlanTask(scopes, inventory.value, kinds, ids, timestamp, maintainer, w);
        t := task;
        var done := Execute(task, scopes, cut);
        failed := Some(done);
      }
    }

    /** The same as a run of the protocol, when what came before it was one. */
    method ExecuteFrom(
      scopes: set<ScopeId>, listing: map<ResourceKey, Listing>, kinds: map<ResourceKey, ResourceKind>,
      ids: ResourceKey -> CommitId, timestamp: int, cut: Bytes -> seq<Chunk>, ghost maintainer: ClientId,
      ghost w: World, ghost start: World, ghost mid: World, ghost taken: seq<Step>, ghost allowed: bool)
      returns (failed: Option<set<ResourceKey>>, ghost t: Task, ghost w': World, ghost steps: seq<Step>)
      requires KnownIn(maintainer, start) && Addressed(commits) && Consistent(remote.packs, remote.indexes)
      requires (forall a, b :: ids(a) == ids(b) ==> a == b) && (forall key :: ids(key) !in start.published)
      requires forall data :: CutsUp(cut(data), data)
      requires start.published == w.published
      requires allowed ==> Ready(maintainer, mid) && OnlyReads(maintainer, w, mid, taken)
      modifies this`counter, this`commits, this`baselines, this`texts, this`conflicts, local, remote
      ensures Addressed(commits) && Consistent(remote.packs, remote.indexes)
      ensures t.state == old(State()) && t.clock == old(local.clock) && t.timestamp == timestamp && TakesIds(t, ids)
      ensures t.crdt == crdt && t.kinds == kinds && t.client == clientId
      ensures allowed ==>
        && Ready(maintainer, w') && Leads(maintainer, w, w', steps) && Grows(w, w', Added(t.state.commits, commits))
      ensures failed.None? ==> State() == t.state && conflicts == old(conflicts)
      ensures failed.Some? ==> IsInventory(t.state, listing, t.inventory)
      ensures failed.Some? ==> ExecutesPlan(t, scopes, State(), remote.indexes, failed.value)
      ensures failed.Some? ==> conflicts == RecordedConflicts(old(conflicts), scopes, t.plan)
    {
      ghost var known := AsClient();
      failed, t := ListAndExecute(scopes, listing, kinds, ids, timestamp, cut, maintainer, start);
      assert AsClient() == known.(commits := commits);
      w', steps := w, [];
      if allowed {
        w', steps := ReconcileSteps(maintainer, failed.Some?, t, counter, commits, w, mid, taken, remote.Contents());
      }
    }

    /** One reconcile: refresh, snapshots of the scopes that are due, list, plan, carry out.
        To the other clients it is a refresh, those snapshots, at most one published batch
        and acknowledgements, provided the client may compact the scopes that are due. */
    method Reconcile(
      scopes: set<ScopeId>, listing: map<ResourceKey, Listing>, kinds: map<ResourceKey, ResourceKind>,
      ids: ResourceKey -> CommitId, timestamp: int, cut: Bytes -> seq<Chunk>, ghost maintainer: ClientId,
      ghost w: World)
      returns (failed: Option<set<ResourceKey>>, ghost t: Task, ghost due: set<ScopeId>, ghost start: World,
               ghost w': World, ghost steps: seq<Step>)
      requires Ready(maintainer, w) && (forall data :: CutsUp(cut(data), data))
      requires (forall a, b :: ids(a) == ids(b) ==> a == b) && (forall key :: ids(key) !in w.published)
      modifies this`counter, this`commits, this`cursors, this`counted, this`baselines, this`texts, this`conflicts
      modifies local, remote
      ensures IsRefreshOf(w, start, clientId, scopes, old(State()), t.state)
      ensures IsDue(w.remote, scopes, old(cursors), old(counted), due, counted)
      ensures MaySnapshotAll(maintainer, start, clientId, due) ==>
        && Ready(maintainer, w') && Leads(maintainer, w, w', steps) && Grows(w, w', Added(t.state.commits, commits))
      ensures Addressed(commits) && Consistent(remote.packs, remote.indexes)
      ensures failed.None? ==> State() == t.state && conflicts == old(conflicts)
      ensures t.clock == old(local.clock) && t.timestamp == timestamp && TakesIds(t, ids) && t.crdt == crdt
        && t.kinds == kinds
        && t.client == clientId
      ensures failed.Some? ==> IsInventory(t.state, listing, t.inventory)
      ensures failed.Some? ==> ExecutesPlan(t, scopes, State(), remote.indexes, failed.value)
      ensures failed.Some? ==> conflicts == RecordedConflicts(old(conflicts), scopes, t.plan)
    {
      ghost var mid, taken;
      due, start, mid, taken := RefreshAndSnapshot(scopes, maintainer, w);
      failed, t, w', steps := ExecuteFrom(scopes, listing, kinds, ids, timestamp, cut, maintainer, w, start, mid, taken,
                                          MaySnapshotAll(maintainer, start, clientId, due));
    }

    /** The reconcile that follows a resolution or a rollback. */
    method ReconcileAfter(
      scopes: set<ScopeId>, listing: map<ResourceKey, Listing>, kinds: map<ResourceKey, ResourceKind>,
      ids: ResourceKey -> CommitId, timestamp: int, cut: Bytes -> seq<Chunk>, ghost maintainer: ClientId,
      ghost w0: World, ghost w: World, ghost c: Commit)
      returns (failed: Option<set<ResourceKey>>, ghost t: Task, ghost due: set<ScopeId>, ghost start: World,
               ghost w': World, ghost steps: seq<Step>)
      requires Ready(maintainer, w) && Leads(maintainer, w0, w, [Publish(clientId, [c])])
      requires forall data :: CutsUp(cut(data), data)
      requires (forall a, b :: ids(a) == ids(b) ==> a == b)
        && (forall key :: ids(key) !in w0.published && ids(key) != c.id)
      modifies this`counter, this`commits, this`cursors, this`counted, this`baselines, this`texts, this`conflicts
      modifies local, remote
      ensures IsRefreshOf(w, start, clientId, scopes, old(State()), t.state)
      ensures IsDue(w.remote, scopes, old(cursors), old(counted), due, counted)
      ensures MaySnapshotAll(maintainer, start, clientId, due) ==>
        Ready(maintainer, w') && Leads(maintainer, w0, w', steps)
      ensures Addressed(commits) && Consistent(remote.packs, remote.indexes)
      ensures failed.None? ==> State() == t.state && conflicts == old(conflicts)
      ensures failed.Some? ==> t.crdt == crdt && t.kinds == kinds && IsInventory(t.state, listing, t.inventory)
      ensures failed.Some? ==> ExecutesPlan(t, scopes, State(), remote.indexes, failed.value)
      ensures failed.Some? ==> conflicts == RecordedConflicts(old(conflicts), scopes, t.plan)
    {
      PublishedBy(maintainer, w0, w, clientId, c);
      failed, t, due, start, w', steps := Reconcile(scopes, listing, kinds, ids, timestamp, cut, maintainer, w);
      if MaySnapshotAll(maintainer, start, clientId, due) {
        LeadsOn(maintainer, w0, w, w', [Publish(clientId, [c])], steps);
        steps := [Publish(clientId, [c])] + steps;
      }
    }

    /** All of `resolve`: a resolution that goes through is followed by a reconcile of the
        scope. `settled` is the replica between the two. */
    method ResolveAndReconcile(
      record: ConflictRecord, choice: Choice, kind: ResourceKind, listing: map<ResourceKey, Listing>, id: CommitId,
      later: map<ResourceKey, Listing>, kinds: map<ResourceKey, ResourceKind>, ids: ResourceKey -> CommitId,
      timestamp: int, cut: Bytes -> seq<Chunk>, ghost maintainer: ClientId, ghost w: World)
      returns (outcome: Outcome, failed: Option<set<ResourceKey>>, ghost settled: Replica, ghost c: Commit,
               ghost mid: World, ghost t: Task, ghost due: set<ScopeId>, ghost start: World, ghost w': World,
               ghost steps: seq<Step>)
      requires record in conflicts && Ready(maintainer, w) && id !in w.published
      requires forall data :: CutsUp(cut(data), data)
      requires (forall a, b :: ids(a) == ids(b) ==> a == b)
        && (forall key :: ids(key) !in w.published && ids(key) != id)
      modifies this`counter, this`commits, this`cursors, this`counted, this`baselines, this`texts, this`conflicts
      modifies local, remote
      ensures Resolves(crdt, old(State()), settled, old(remote.indexes), kind, record, choice,
                       Seen(old(State()), listing, record.resource), c, outcome)
      ensures outcome != Done ==> State() == settled && Ready(maintainer, w') && w' == w
      ensures outcome == Done ==>
        && Leads(maintainer, w, mid, [Publish(clientId, [c])])
        && IsRefreshOf(mid, start, clientId, {record.resource.scope}, settled, t.state)
        && IsDue(mid.remote, {record.resource.scope}, old(cursors), old(counted), due, counted)
        && (MaySnapshotAll(maintainer, start, clientId, due) ==>
              Ready(maintainer, w') && Leads(maintainer, w, w', steps))
        && (failed.None? ==> State() == t.state)
        && (failed.Some? ==>
              && t.crdt == crdt && t.kinds == kinds && IsInventory(t.state, later, t.inventory)
              && ExecutesPlan(t, {record.resource.scope}, State(), remote.indexes, failed.value))
      ensures Addressed(commits) && Consistent(remote.packs, remote.indexes)
    {
      var made;
      outcome, made, mid := Resolve(record, choice, kind, listing, id, timestamp, cut, maintainer, w);
      c, settled, failed, due, start, w', steps := made, State(), None, {}, mid, mid, [];
      t := Task(crdt, State(), local.clock, clientId, counter, timestamp, map[], map[], kinds, map[]);
      if outcome == Done {
        failed, t, due, start, w', steps :=
          ReconcileAfter({record.resource.scope}, later, kinds, ids, timestamp, cut, maintainer, w, mid, made);
      } else {
        NothingTaken(maintainer, w, mid);
      }
    }

    /** All of `rollback`, which ends with a reconcile as well. */
    method RollbackAndReconcile(
      key: ResourceKey, version: CommitId, listing: map<ResourceKey, Listing>, id: CommitId,
      later: map<ResourceKey, Listing>, kinds: map<ResourceKey, ResourceKind>, ids: ResourceKey -> CommitId,
      timestamp: int, cut: Bytes -> seq<Chunk>, ghost maintainer: ClientId, ghost w: World)
      returns (outcome: Outcome, failed: Option<set<ResourceKey>>, ghost settled: Replica, ghost c: Commit,
               ghost mid: World, ghost t: Task, ghost due: set<ScopeId>, ghost start: World, ghost w': World,
               ghost steps: seq<Step>)
      requires Ready(maintainer, w) && id !in w.published
      requires forall data :: CutsUp(cut(data), data)
      requires (forall a, b :: ids(a) == ids(b) ==> a == b)
        && (forall key :: ids(key) !in w.published && ids(key) != id)
      modifies this`counter, this`commits, this`cursors, this`counted, this`baselines, this`texts, this`conflicts
      modifies local, remote
      ensures RollsBack(crdt, old(State()), settled, old(remote.indexes), key, version,
                        Seen(old(State()), listing, key), c, outcome)
      ensures outcome != Done ==> State() == settled && Ready(maintainer, w') && w' == w
      ensures outcome == Done ==>
        && Leads(maintainer, w, mid, [Publish(clientId, [c])])
        && IsRefreshOf(mid, start, clientId, {key.scope}, settled, t.state)
        && IsDue(mid.remote, {key.scope}, old(cursors), old(counted), due, counted)
        && (MaySnapshotAll(maintainer, start, clientId, due) ==>
              Ready(maintainer, w') && Leads(maintainer, w, w', steps))
        && (failed.None? ==> State() == t.state)
        && (failed.Some? ==>
              && t.crdt == crdt && t.kinds == kinds && IsInventory(t.state, later, t.inventory)
              && ExecutesPlan(t, {key.scope}, State(), remote.indexes, failed.value))
      ensures Addressed(commits) && Consistent(remote.packs, remote.indexes)
    {
      var made;
      outcome, made, mid := Rollback(key, version, listing, id, timestamp, cut, maintainer, w);
      c, settled, failed, due, start, w', steps := made, State(), None, {}, mid, mid, [];
      t := Task(crdt, State(), local.clock, clientId, counter, timestamp, map[], map[], kinds, map[]);
      if outcome == Done {
        failed, t, due, start, w', steps :=
          ReconcileAfter({key.scope}, later, kinds, ids, timestamp, cut, maintainer, w, mid, made);
      } else {
        NothingTaken(maintainer, w, mid);
      }
    }

    // ---- Maintenance ----

    method HasSeen(
      acks: map<AckKey, ResourceAck>, client: ClientId, key: ResourceKey, checkpoint: CommitId)
      returns (seen: bool)
      ensures seen <==> HasAcknowledged(commits, acks, client, key, checkpoint)
    {
      var todo := acks.Keys;
      while todo != {}
        invariant todo <= acks.Keys
        invariant forall k, head :: (k in acks && k !in todo && acks[k].client == client && acks[k].resource == key
                                     && head in acks[k].observedHeads) ==> !Reaches(commits, head, checkpoint)
      {
        var k :| k in todo;
        todo := todo - {k};
        if acks[k].client == client && acks[k].resource == key {
          var heads := acks[k].observedHeads;
          while heads != {}
            invariant heads <= acks[k].observedHeads
            invariant forall head :: head in acks[k].observedHeads && head !in heads ==>
              !Reaches(commits, head, checkpoint)
          {
            var head :| head in heads;
            heads := heads - {head};
            var below := IsDescendant(commits, head, checkpoint);
            if below {
              return true;
            }
          }
        }
      }
      return false;
    }

    /** The acknowledgement gate. */
    method AllHaveSeen(acks: map<AckKey, ResourceAck>, key: ResourceKey, checkpoint: CommitId) returns (all: bool)
      ensures all <==> AllAcknowledged(commits, acks, retired, clientId, key, checkpoint)
    {
      var active := ActiveClients(ResourceCommits(commits, key), retired, clientId);
      var todo := active;
      while todo != {}
        invariant todo <= active
        invariant forall client :: client in active && client !in todo ==>
          HasAcknowledged(commits, acks, client, key, checkpoint)
      {
        var client :| client in todo;
        todo := todo - {client};
        var seen := HasSeen(acks, client, key, checkpoint);
        if !seen {
          return false;
        }
      }
      return true;
    }

    /** Publish a copy of the only head on top of it. */
    method CopyHead(key: ResourceKey, id: CommitId, timestamp: int, cut: Bytes -> seq<Chunk>)
      returns (done: bool, c: Commit, ghost packs: seq<Pack>, ghost order: seq<CursorKey>)
      requires Addressed(commits) && Consistent(remote.packs, remote.indexes)
        && (forall data :: CutsUp(cut(data), data))
      requires |Heads(commits, key)| == 1
      modifies this`counter, this`commits, remote
      ensures Addressed(commits) && Consistent(remote.packs, remote.indexes)
        && KeepsIndexed(old(remote.indexes), remote.indexes)
      ensures !done ==>
        remote.Contents() == old(remote.Contents()) && AsClient() == old(AsClient()) && counter == old(counter)
      ensures done ==>
        && IsCopyOfHeads(crdt, old(commits), c, id, key, clientId, old(counter) + 1) && c.timestamp == timestamp
        && counter == old(counter) + 1 && commits == old(commits)[id := c] && Lists(order, GroupKeys([c]))
        && remote.Contents() == ApplyAll(old(remote.Contents()), BatchLog(CommitBatch(packs, [c]), order))
    {
      var head := First(Heads(commits, key));
      OnlyElement(Heads(commits, key), head);
      packs, order := [], [];
      if commits[head].change.Delete? {
        c, order := PublishDelete(key, {head}, id, timestamp);
      } else {
        var content := ContentForRemote(key, head);
        if content.None? {
          return false, Commit(id, key, {head}, clientId, counter, timestamp, Delete), [], [];
        }
        ghost var found, groups;
        c, packs, found, groups, order := PublishBytes(key, Binary, content.value, {head}, id, timestamp, cut);
      }
      done := true;
    }

    /** Make a copy of the only head the checkpoint and acknowledge it. */
    method StoreCheckpoint(key: ResourceKey, id: CommitId, timestamp: int, cut: Bytes -> seq<Chunk>)
      returns (done: bool, c: Commit, ghost packs: seq<Pack>, ghost order: seq<CursorKey>)
      requires Addressed(commits) && Consistent(remote.packs, remote.indexes)
        && (forall data :: CutsUp(cut(data), data))
      requires |Heads(commits, key)| == 1
      modifies this`counter, this`commits, this`checkpoints, remote
      ensures Addressed(commits) && Consistent(remote.packs, remote.indexes)
        && KeepsIndexed(old(remote.indexes), remote.indexes)
      ensures !done ==>
        remote.Contents() == old(remote.Contents()) && AsClient() == old(AsClient()) && counter == old(counter)
      ensures done ==>
        && IsCopyOfHeads(crdt, old(commits), c, id, key, clientId, old(counter) + 1) && c.timestamp == timestamp
        && counter == old(counter) + 1 && Lists(order, GroupKeys([c]))
        && AsClient() == old(AsClient()).(commits := old(commits)[id := c], checkpoints := old(checkpoints)[key := id])
        && remote.Contents() == StoredCheckpoint(old(remote.Contents()), c, packs, order)
    {
      done, c, packs, order := CopyHead(key, id, timestamp, cut);
      if done {
        checkpoints := checkpoints[key := c.id];
        ghost var stored := remote.Contents();
        AcknowledgeOne(key, {c.id});
        assert remote.Contents() == stored.(acks := remote.acks);
      }
    }

    method MakeCheckpoint(key: ResourceKey, id: CommitId, timestamp: int, cut: Bytes -> seq<Chunk>, ghost w: World)
      returns (done: bool, ghost c: Commit, ghost w': World, ghost steps: seq<Step>)
      requires Mirrors(w) && Reachable(clientId, w) && CaughtUp(w, clientId) && id !in w.published
      requires Addressed(commits) && Consistent(remote.packs, remote.indexes)
        && (forall data :: CutsUp(cut(data), data))
      requires |Heads(commits, key)| == 1
      modifies this`counter, this`commits, this`checkpoints, remote
      ensures Mirrors(w') && Reachable(clientId, w') && CaughtUp(w', clientId) && Leads(clientId, w, w', steps)
      ensures Addressed(commits) && Consistent(remote.packs, remote.indexes)
        && KeepsIndexed(old(remote.indexes), remote.indexes)
      ensures !done ==> w' == w
      ensures done ==> Checkpointed(crdt, w, w', clientId, key, c) && c.id == id && c.timestamp == timestamp
    {
      var copy;
      ghost var packs, order;
      done, copy, packs, order := StoreCheckpoint(key, id, timestamp, cut);
      c, w', steps := copy, w, [];
      NoStep(clientId, w);
      if done {
        w', steps := CheckpointSteps(crdt, clientId, w, copy, packs, order);
      }
    }

    method AcknowledgeOne(key: ResourceKey, heads: set<CommitId>)
      modifies remote`acks
      ensures remote.acks == old(remote.acks)[AckKey(clientId, key) := ResourceAck(clientId, key, heads, {})]
    {
      var ack := ResourceAck(clientId, key, heads, {});
      assert [ack][..0] == [];
      assert PutAcks(remote.acks, []) == remote.acks;
      remote.WriteAcknowledgements([ack]);
    }

    /** What is to be done about one resource. History is dropped exactly when it is too
        long, nothing is in dispute, the checkpoint is acknowledged by every active client
        and something lies outside what is retained. */
    method Judge(key: ResourceKey, policy: Policy, acks: map<AckKey, ResourceAck>) returns (verdict: Verdict)
      ensures verdict.Drop? <==>
        Droppable(AsClient(), acks, clientId, key, policy) && ObsoleteOf(AsClient(), acks, key, policy.keep) != {}
      ensures verdict.Drop? ==> verdict.obsolete == ObsoleteOf(AsClient(), acks, key, policy.keep)
      ensures verdict.NeedsCheckpoint? ==> !Postponed(commits, key, policy) && key !in checkpoints
      ensures verdict == VerdictOf(AsClient(), acks, clientId, key, policy)
    {
      var own := ResourceCommits(commits, key);
      if |own| <= policy.keep {
        return Short;
      }
      if Postponed(commits, key, policy) {
        return Postpone;
      }
      if key !in checkpoints {
        return NeedsCheckpoint;
      }
      var all := AllHaveSeen(acks, key, checkpoints[key]);
      if !all {
        return Waiting;
      }
      var obsolete := own.Keys - Retained(own, policy.keep, checkpoints[key], PinnedFor(acks, key));
      verdict := if obsolete == {} then Nothing else Drop(obsolete);
    }

    method ClearCheckpoint(
      key: ResourceKey, ghost id: CommitId, ghost w: World)
      returns (ghost w': World, ghost steps: seq<Step>)
      requires Mirrors(w) && Reachable(clientId, w) && CaughtUp(w, clientId)
      modifies this`checkpoints
      ensures Mirrors(w') && Reachable(clientId, w') && CaughtUp(w', clientId) && Leads(clientId, w, w', steps)
      ensures TouchesOnly(w, w', clientId, key, id) && w' == AfterClear(w, clientId, key)
    {
      w', steps := ClearSteps(clientId, w, key, id);
      checkpoints := checkpoints - {key};
    }

    /** Act on the verdict about one resource. */
    method Tend(
      key: ResourceKey, verdict: Verdict, id: CommitId, timestamp: int, cut: Bytes -> seq<Chunk>, ghost w: World)
      returns (ok: bool, ghost w': World, ghost steps: seq<Step>)
      requires Mirrors(w) && Reachable(clientId, w) && CaughtUp(w, clientId) && id !in w.published
      requires Addressed(commits) && Consistent(remote.packs, remote.indexes)
        && (forall data :: CutsUp(cut(data), data))
      requires verdict.NeedsCheckpoint? ==> |Heads(commits, key)| == 1
      modifies this`counter, this`commits, this`checkpoints, remote
      ensures Mirrors(w') && Reachable(clientId, w') && CaughtUp(w', clientId) && Leads(clientId, w, w', steps)
      ensures Addressed(commits) && Consistent(remote.packs, remote.indexes)
        && KeepsIndexed(old(remote.indexes), remote.indexes)
      ensures TouchesOnly(w, w', clientId, key, id)
      ensures verdict.Drop? ==> w' == w && ok
      ensures if ok then Acted(crdt, w, w', clientId, key, verdict, id) else w' == w
    {
      ok, w', steps := true, w, [];
      NoStep(clientId, w);
      match verdict {
        case Short =>
          w', steps := ClearCheckpoint(key, id, w);
        case Nothing =>
          w', steps := ClearCheckpoint(key, id, w);
        case NeedsCheckpoint =>
          ghost var c;
          ok, c, w', steps := MakeCheckpoint(key, id, timestamp, cut, w);
          if ok {
            CheckpointedTouchesOnly(crdt, w, w', clientId, key, c);
          }
        case _ =>
      }
    }

    /** Write a snapshot without the obsolete commits, then forget them and the
        checkpoints of the scope. */
    method CompactScope(scope: ScopeId, obsolete: set<CommitId>, ghost w: World)
      requires Mirrors(w) && Addressed(commits)
      modifies this`commits, this`checkpoints, remote
      ensures remote.Contents() == Compacted(old(remote.Contents()), SnapshotOf(old(AsClient()), scope, obsolete),
        obsolete)
      ensures AsClient() == old(AsClient()).(
        commits := old(commits) - obsolete,
        checkpoints := KeptCheckpoints(old(checkpoints), scope, obsolete))
      ensures Mirrors(AfterCompaction(w, clientId, scope, obsolete))
      ensures remote.packs == old(remote.packs) && remote.indexes == old(remote.indexes)
      ensures Addressed(commits)
    {
      ghost var droppedSegments, droppedCommits :=
        remote.CompactCatalog(SnapshotOf(AsClient(), scope, obsolete), obsolete);
      commits := commits - obsolete;
      checkpoints := KeptCheckpoints(checkpoints, scope, obsolete);
    }

    /** Delete every pack in which no chunk of a known snapshot was located. */
    method CollectGarbage() returns (ghost dead: set<Digest>, ghost found: map<Digest, Location>)
      requires Consistent(remote.packs, remote.indexes)
      modifies remote`packs, remote`indexes
      ensures IsLookup(old(remote.indexes), SnapshotHashes(commits), found)
        && dead == DeadPacks(old(remote.packs), found)
      ensures remote.packs == old(remote.packs) - dead && remote.indexes == old(remote.indexes) - dead
      ensures forall id :: id in remote.packs <==> id in old(remote.packs) && InUse(found, id)
      ensures forall id :: id in remote.packs ==>
        id in old(remote.indexes) && ListsSnapshotOf(commits, old(remote.indexes)[id])
      ensures Consistent(remote.packs, remote.indexes)
      ensures forall id :: id in commits && commits[id].change.BinarySnapshot? ==>
        (AllIndexed(remote.indexes, commits[id].change.chunkHashes) <==>
          AllIndexed(old(remote.indexes), commits[id].change.chunkHashes))
    {
      var live := SnapshotHashes(commits);
      var located := remote.LookupChunks(live);
      var unused := DeadPacks(remote.packs, located);
      dead, found := unused, located;
      ghost var packs, indexes := remote.packs, remote.indexes;
      GarbageCollectionKeepsLiveReads(packs, indexes, live, found, []);
      CollectedPacks(packs, indexes, live, found);
      forall id | id in packs - dead ensures ListsSnapshotOf(commits, indexes[id]) {
        var h :| h in live && ListsHash(indexes[id], h);
      }
      forall id | id in commits && commits[id].change.BinarySnapshot?
        ensures AllIndexed(indexes - dead, commits[id].change.chunkHashes) <==>
          AllIndexed(indexes, commits[id].change.chunkHashes)
      {
        GarbageCollectionKeepsLiveReads(packs, indexes, live, found, commits[id].change.chunkHashes);
      }
      remote.DeletePackObjects(unused);
    }

    /** Judge one resource and act on it. */
    method SurveyOne(
      key: ResourceKey, policy: Policy, acks: map<AckKey, ResourceAck>, ids: ResourceKey -> CommitId, timestamp: int,
      cut: Bytes -> seq<Chunk>,
      obsolete: set<CommitId>, ghost keys: set<ResourceKey>, ghost todo: set<ResourceKey>, ghost start: World,
      ghost w: World)
      returns (ok: bool, found: set<CommitId>, ghost w': World, ghost steps: seq<Step>)
      requires Reachable(clientId, start) && Mirrors(w) && Reachable(clientId, w) && CaughtUp(w, clientId)
      requires Surveyed(clientId, start, w, policy, keys, ids, todo, obsolete) && key in todo && todo <= keys
      requires Tended(crdt, start, w, clientId, policy, keys - todo, ids)
      requires AcksFiled(acks) && SameAcks(start.remote.acks, acks, key)
      requires forall a, b :: ids(a) == ids(b) ==> a == b
      requires Addressed(commits) && Consistent(remote.packs, remote.indexes)
        && (forall data :: CutsUp(cut(data), data))
      modifies this`counter, this`commits, this`checkpoints, remote
      ensures Mirrors(w') && Reachable(clientId, w') && CaughtUp(w', clientId) && Leads(clientId, w, w', steps)
      ensures Addressed(commits) && Consistent(remote.packs, remote.indexes)
        && KeepsIndexed(old(remote.indexes), remote.indexes)
      ensures w'.removed == w.removed
      ensures ok ==> Surveyed(clientId, start, w', policy, keys, ids, todo - {key}, found)
      ensures ok ==> Tended(crdt, start, w', clientId, policy, keys - (todo - {key}), ids)
      ensures !ok ==> w' == w
    {
      JudgedNow(clientId, start, w, acks, key, policy);
      VerdictThen(clientId, start, w, acks, key, policy);
      var verdict := Judge(key, policy, acks);
      ok, w', steps := Tend(key, verdict, ids(key), timestamp, cut, w);
      var more := if verdict.Drop? then verdict.obsolete else {};
      found := obsolete + more;
      if ok {
        SurveyedIsTended(crdt, clientId, start, w, w', policy, keys, todo, ids, key);
        SurveyStep(clientId, start, w, w', policy, keys, ids, todo, obsolete, key, more);
      }
    }

    /** Look at every resource once: clear, renew or keep its checkpoint, and collect what
        is to be deleted. */
    method Survey(
      keys: set<ResourceKey>, policy: Policy, acks: map<AckKey, ResourceAck>, ids: ResourceKey -> CommitId,
      timestamp: int, cut: Bytes -> seq<Chunk>, ghost start: World)
      returns (ok: bool, obsolete: set<CommitId>, ghost left: set<ResourceKey>, ghost w: World, ghost steps: seq<Step>)
      requires Mirrors(start) && Reachable(clientId, start) && CaughtUp(start, clientId)
      requires AcksFiled(acks) && forall key :: key in keys ==> SameAcks(start.remote.acks, acks, key)
      requires forall a, b :: ids(a) == ids(b) ==> a == b
      requires forall key :: key in keys ==> ids(key) !in start.published
      requires Addressed(commits) && Consistent(remote.packs, remote.indexes)
        && (forall data :: CutsUp(cut(data), data))
      modifies this`counter, this`commits, this`checkpoints, remote
      ensures Mirrors(w) && Reachable(clientId, w) && CaughtUp(w, clientId) && Leads(clientId, start, w, steps)
      ensures Addressed(commits) && Consistent(remote.packs, remote.indexes)
        && KeepsIndexed(old(remote.indexes), remote.indexes)
      ensures w.removed == start.removed
      ensures ok ==> left == {} && Surveyed(clientId, start, w, policy, keys, ids, {}, obsolete)
      ensures left <= keys && Tended(crdt, start, w, clientId, policy, keys - left, ids)
    {
      var todo := keys;
      obsolete, w, steps, left := {}, start, [], keys;
      NoStep(clientId, start);
      NothingTended(crdt, start, clientId, policy, ids);
      assert keys - keys == {};
      SurveyBegins(clientId, start, policy, keys, ids);
      while todo != {}
        invariant todo <= keys && left == todo
        invariant Mirrors(w) && Reachable(clientId, w) && CaughtUp(w, clientId) && Leads(clientId, start, w, steps)
        invariant Tended(crdt, start, w, clientId, policy, keys - todo, ids)
        invariant Addressed(commits) && Consistent(remote.packs, remote.indexes)
          && KeepsIndexed(old(remote.indexes), remote.indexes)
        invariant Surveyed(clientId, start, w, policy, keys, ids, todo, obsolete)
      {
        var key :| key in todo;
        ghost var before, taken := w, steps;
        ghost var more;
        ok, obsolete, w, more := SurveyOne(key, policy, acks, ids, timestamp, cut, obsolete, keys, todo, start, w);
        steps := taken + more;
        LeadsOn(clientId, start, before, w, taken, more);
        if !ok {
          return;
        }
        todo := todo - {key};
        left := todo;
      }
      ok := true;
    }

    method PickScope(left: set<CommitId>) returns (scope: ScopeId, batch: set<CommitId>)
      requires left != {} && left <= commits.Keys
      ensures batch != {} && forall id :: id in batch <==>
        id in left && id in commits && commits[id].resource.scope == scope
    {
      var id :| id in left;
      scope := commits[id].resource.scope;
      batch := set x | x in left && x in commits && commits[x].resource.scope == scope;
      assert id in batch;
    }

    /** Compact the scope of one of the commits that are left. */
    method DeleteOneScope(
      policy: Policy, left: set<CommitId>, ghost obsolete: set<CommitId>, ghost keys: set<ResourceKey>,
      ghost start: World, ghost w: World)
      returns (rest: set<CommitId>, ghost w': World, ghost step: Step)
      requires Reachable(clientId, start) && Mirrors(w) && Reachable(clientId, w) && CaughtUp(w, clientId)
        && policy.keep >= 1
      requires Deleting(clientId, start, w, policy, keys, obsolete, left) && Addressed(commits) && left != {}
        && left <= commits.Keys
      modifies this`commits, this`checkpoints, remote
      ensures Mirrors(w') && Reachable(clientId, w') && CaughtUp(w', clientId) && Leads(clientId, w, w', [step])
        && Addressed(commits)
      ensures Deleting(clientId, start, w', policy, keys, obsolete, rest) && rest < left
      ensures remote.packs == old(remote.packs) && remote.indexes == old(remote.indexes)
      ensures Cleared(old(AsClient()), AsClient(), left - rest) && w'.published == w.published
    {
      var scope, batch := PickScope(left);
      rest, w', step := left - batch, AfterCompaction(w, clientId, scope, batch), Compact(clientId, scope, batch);
      DeleteScope(clientId, start, w, policy, keys, obsolete, left, scope, batch);
      ghost var c := AsClient();
      CompactScope(scope, batch, w);
      ScopeCleared(c, AsClient(), scope, left, batch);
    }

    /** Compact every scope that lost something, one after the other. */
    method DeleteObsolete(
      policy: Policy, obsolete: set<CommitId>, ghost keys: set<ResourceKey>, ghost start: World, ghost w0: World)
      returns (ghost w: World, ghost steps: seq<Step>)
      requires Reachable(clientId, start) && Mirrors(w0) && Reachable(clientId, w0) && CaughtUp(w0, clientId)
        && policy.keep >= 1
      requires Deleting(clientId, start, w0, policy, keys, obsolete, obsolete) && Addressed(commits)
      modifies this`commits, this`checkpoints, remote
      ensures Mirrors(w) && Reachable(clientId, w) && CaughtUp(w, clientId) && Leads(clientId, w0, w, steps)
        && Addressed(commits)
      ensures Deleting(clientId, start, w, policy, keys, obsolete, {})
      ensures remote.packs == old(remote.packs) && remote.indexes == old(remote.indexes)
      ensures w.published == w0.published && Cleared(old(AsClient()), AsClient(), obsolete)
    {
      var left := obsolete;
      w, steps := w0, [];
      NoStep(clientId, w0);
      NothingCleared(AsClient());
      assert obsolete - left == {};
      while left != {}
        invariant Mirrors(w) && Reachable(clientId, w) && CaughtUp(w, clientId) && Leads(clientId, w0, w, steps)
          && Addressed(commits)
        invariant Deleting(clientId, start, w, policy, keys, obsolete, left) && left <= obsolete
        invariant remote.packs == old(remote.packs) && remote.indexes == old(remote.indexes)
        invariant w.published == w0.published && Cleared(old(AsClient()), AsClient(), obsolete - left)
      {
        ghost var before, was, mid, step := w, left, AsClient(), Join(clientId);
        LeftIsKnown(clientId, start, w, left);
        left, w, step := DeleteOneScope(policy, left, obsolete, keys, start, w);
        ClearedOn(old(AsClient()), mid, AsClient(), obsolete, was, left);
        LeadsOn(clientId, w0, before, w, steps, [step]);
        steps := steps + [step];
      }
      assert obsolete - left == obsolete;
    }

    /** The global refresh maintenance begins with. */
    method RefreshEverything(ghost w: World) returns (ghost start: World, ghost next: Cursors)
      requires Mirrors(w) && Reachable(clientId, w) && Addressed(commits) && Addressed(w.Live())
      modifies this`commits, this`cursors, this`counted
      ensures Mirrors(start) && Reachable(clientId, start) && CaughtUp(start, clientId) && AllPast(start, clientId)
        && Addressed(commits)
      ensures IsFullRefresh(w, start, clientId) && Leads(clientId, w, start, [Refresh(clientId, {}, next)])
      ensures start.published == w.published
    {
      start, next := RefreshIn({}, clientId, w);
      FullRefreshSteps(clientId, w, next, AsClient());
    }

    /** Survey the resources of the scopes against the acknowledgements stored now. */
    method SurveyScopes(
      scopes: set<ScopeId>, policy: Policy, ids: ResourceKey -> CommitId, timestamp: int, cut: Bytes -> seq<Chunk>,
      ghost start: World)
      returns (ok: bool, obsolete: set<CommitId>, ghost left: set<ResourceKey>, ghost w: World, ghost steps: seq<Step>)
      requires Mirrors(start) && Reachable(clientId, start) && CaughtUp(start, clientId) && AllPast(start, clientId)
      requires (forall a, b :: ids(a) == ids(b) ==> a == b) && (forall key :: ids(key) !in start.published)
      requires Addressed(commits) && Consistent(remote.packs, remote.indexes)
        && (forall data :: CutsUp(cut(data), data))
      modifies this`counter, this`commits, this`checkpoints, remote
      ensures Mirrors(w) && Reachable(clientId, w) && CaughtUp(w, clientId) && Leads(clientId, start, w, steps)
        && w.removed == start.removed
      ensures Addressed(commits) && Consistent(remote.packs, remote.indexes)
        && KeepsIndexed(old(remote.indexes), remote.indexes)
      ensures ok ==> Deleting(clientId, start, w, policy, RemoteKeys(start.clients[clientId].commits, scopes),
        obsolete, obsolete)
      ensures var keys := RemoteKeys(start.clients[clientId].commits, scopes);
              left <= keys && Tended(crdt, start, w, clientId, policy, keys - left, ids)
      ensures ok ==> left == {}
    {
      ReachableFilesAcks(clientId, start);
      var keys := RemoteKeys(commits, scopes);
      var acks := remote.ListAcknowledgements(keys);
      forall key | key in keys ensures AcksFiled(acks) && SameAcks(start.remote.acks, acks, key) {
        ListedAcksAgree(start.remote.acks, keys, acks, key);
      }
      ok, obsolete, left, w, steps := Survey(keys, policy, acks, ids, timestamp, cut, start);
      if ok {
        SurveyIsDone(clientId, start, w, policy, keys, ids, obsolete);
      }
    }

    method CollectIn(ghost maintainer: ClientId, ghost w: World) returns (ghost w': World, ghost step: Step)
      requires Mirrors(w) && Reachable(maintainer, w) && CaughtUp(w, clientId)
        && Consistent(remote.packs, remote.indexes)
      modifies remote`packs, remote`indexes
      ensures Mirrors(w') && Reachable(maintainer, w') && CaughtUp(w', clientId) && Leads(maintainer, w, w', [step])
        && w'.removed == w.removed && w'.published == w.published
      ensures StoreStep(w, w', step)
      ensures Consistent(remote.packs, remote.indexes) && KeepsReadable(commits, old(remote.indexes), remote.indexes)
    {
      ghost var dead, found := CollectGarbage();
      assert Collected(w, clientId, dead, found);
      w' := CollectSteps(maintainer, w, clientId, dead);
      step := Collect(clientId, dead);
    }

    /** The deletions: obsolete commits, scope by scope, then the packs nobody needs. */
    method Reclaim(
      policy: Policy, obsolete: set<CommitId>, ghost keys: set<ResourceKey>, ghost start: World, ghost w0: World)
      returns (ghost w: World, ghost steps: seq<Step>)
      requires Reachable(clientId, start) && Mirrors(w0) && Reachable(clientId, w0) && CaughtUp(w0, clientId)
        && policy.keep >= 1
      requires Deleting(clientId, start, w0, policy, keys, obsolete, obsolete) && Addressed(commits)
      requires Consistent(remote.packs, remote.indexes)
      modifies this`commits, this`checkpoints, remote
      ensures Mirrors(w) && Reachable(clientId, w) && CaughtUp(w, clientId) && Leads(clientId, w0, w, steps)
        && Addressed(commits)
      ensures w.removed == start.removed + ToDelete(start.clients[clientId], start.remote.acks, clientId, keys, policy)
      ensures w.published == w0.published && Cleared(old(AsClient()), AsClient(), obsolete)
      ensures Consistent(remote.packs, remote.indexes) && KeepsReadable(commits, old(remote.indexes), remote.indexes)
    {
      ghost var before, step;
      before, steps := DeleteObsolete(policy, obsolete, keys, start, w0);
      w, step := CollectIn(clientId, before);
      LeadsOn(clientId, w0, before, w, steps, [step]);
      steps := steps + [step];
    }

    /** Refresh, survey, delete. */
    method MaintainWith(
      policy: Policy, scopes: set<ScopeId>, ids: ResourceKey -> CommitId, timestamp: int, cut: Bytes -> seq<Chunk>,
      ghost w: World)
      returns (ok: bool, ghost left: set<ResourceKey>, ghost start: World, ghost surveyed: World, ghost w': World,
               ghost steps: seq<Step>)
      requires Ready(clientId, w) && policy.keep >= 1 && (forall data :: CutsUp(cut(data), data))
      requires (forall a, b :: ids(a) == ids(b) ==> a == b) && (forall key :: ids(key) !in w.published)
      modifies this`counter, this`commits, this`cursors, this`counted, this`checkpoints, remote
      ensures Ready(clientId, w') && Leads(clientId, w, w', steps)
      ensures IsFullRefresh(w, start, clientId) && CaughtUp(w', clientId)
      ensures w'.removed == start.removed + Deleted(ok, start, clientId, scopes, policy)
      ensures Maintained(crdt, clientId, start, surveyed, w', policy, scopes, left, ids, ok)
      ensures KeepsReadable(commits, old(remote.indexes), remote.indexes)
    {
      ghost var next, more: seq<Step>;
      start, next := RefreshEverything(w);
      var obsolete;
      ok, obsolete, left, surveyed, more := SurveyScopes(scopes, policy, ids, timestamp, cut, start);
      NothingCleared(surveyed.clients[clientId]);
      LeadsOn(clientId, w, start, surveyed, [Refresh(clientId, {}, next)], more);
      w', steps := surveyed, [Refresh(clientId, {}, next)] + more;
      if ok {
        w', more := Reclaim(policy, obsolete, RemoteKeys(start.clients[clientId].commits, scopes), start, surveyed);
        LeadsOn(clientId, w, surveyed, w', steps, more);
        steps := steps + more;
      }
      CaughtUpLiveIsAddressed(clientId, w', clientId);
    }

    /** Maintenance by the one client that deletes history; with nothing to keep it does
        nothing. Without failure the commits deleted are exactly those that were obsolete,
        with everyone's acknowledgement, right after the refresh. Whatever happens the run
        is a sequence of protocol steps, and what could be read of the remaining commits
        still can. */
    method Maintain(
      scopes: set<ScopeId>, keep: nat, kinds: map<ResourceKey, ResourceKind>, interrupted: set<ResourceKey>,
      ids: ResourceKey -> CommitId, timestamp: int, cut: Bytes -> seq<Chunk>, ghost w: World)
      returns (ok: bool, ghost left: set<ResourceKey>, ghost start: World, ghost surveyed: World, ghost w': World,
               ghost steps: seq<Step>)
      requires Ready(clientId, w) && (forall data :: CutsUp(cut(data), data))
      requires (forall a, b :: ids(a) == ids(b) ==> a == b) && (forall key :: ids(key) !in w.published)
      modifies this`counter, this`commits, this`cursors, this`counted, this`checkpoints, remote
      ensures Ready(clientId, w') && Leads(clientId, w, w', steps)
      ensures if keep == 0 then ok && w' == w else IsFullRefresh(w, start, clientId) && CaughtUp(w', clientId)
      ensures keep > 0 ==>
        var policy := Policy(keep, kinds, interrupted + set c | c in old(conflicts) :: c.resource);
        && w'.removed == start.removed + Deleted(ok, start, clientId, scopes, policy)
        && Maintained(crdt, clientId, start, surveyed, w', policy, scopes, left, ids, ok)
      ensures KeepsReadable(commits, old(remote.indexes), remote.indexes)
    {
      ok, left, start, surveyed, w', steps := true, {}, w, w, w, [];
      NoStep(clientId, w);
      if keep > 0 {
        var policy := Policy(keep, kinds, interrupted + set c | c in conflicts :: c.resource);
        ok, left, start, surveyed, w', steps := MaintainWith(policy, scopes, ids, timestamp, cut, w);
      }
    }
  }
}
