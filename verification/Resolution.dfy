/** What a conflict resolution and a rollback lead to (`resolve` and `rollback` in
    src/runtime.rs). */
module Resolution {
  import opened Types
  import opened Core
  import opened CommitGraph
  import opened ChunkStore
  import opened Execution
  import opened Convergence
  import opened Views

  datatype Choice = KeepLocal | TakeDelete | TakeRemote(id: CommitId)

  datatype Outcome = Stale | Unlisted | Invalid | Unreadable | Moved | Done

  /** The change `publish_bytes` makes; text is edited against everything known. */
  function PublishChange(
    crdt: Crdt, m: CommitMap, key: ResourceKey, kind: ResourceKind, data: Bytes, chunks: seq<Digest>): ResourceChange
  {
    match kind
    case Binary => BinarySnapshot(Digest(data), |data|, chunks)
    case Text => TextDelta(crdt.edit(TextDoc(m, key), data))
  }

  // ---- What is seen of the local side ----

  /** The resource's state in the inventory; nothing when the inventory itself fails. */
  ghost function Seen(r: Replica, listing: map<ResourceKey, Listing>, key: ResourceKey): Option<ReplicaState> {
    if exists k :: k in listing && InventoryState(listing[k], r.BaselineOf(k), r.SlotOf(k)).None? then None
    else if key in listing then InventoryState(listing[key], r.BaselineOf(key), r.SlotOf(key))
    else Some(LocalMissing)
  }

  /** The state tells what the slot holds, its hash aside. */
  predicate SeesSlot(slot: Slot, seen: ReplicaState) {
    Matches(slot, seen) && (slot.File? <==> seen.LocalPresent?)
  }

  // ---- When it is refused ----

  /** The record no longer describes the heads or what the inventory says of the file. */
  predicate IsStale(r: Replica, record: ConflictRecord, seen: Option<ReplicaState>) {
    || Heads(r.commits, record.resource) != record.remoteHeads
    || (seen.Some? && (seen.value.VersionToken() != record.local.VersionToken()
                       || seen.value.ContentId() != record.local.ContentId()))
  }

  /** Going back to one commit: its content must be readable, and the file still the one
      that was seen. */
  ghost function RestoreOutcome(
    r: Replica, indexes: Indexes, key: ResourceKey, seen: ReplicaState, id: CommitId): Outcome
    requires id in r.commits
  {
    if r.commits[id].change.Delete? then DeleteOutcome(r, key, seen)
    else if !Readable(r.commits, indexes, id) then Unreadable
    else if !Matches(r.SlotOf(key), seen) then Moved
    else Done
  }

  function DeleteOutcome(r: Replica, key: ResourceKey, seen: ReplicaState): Outcome {
    if seen.LocalPresent? && !Matches(r.SlotOf(key), seen) then Moved else Done
  }

  ghost function ResolveOutcome(
    r: Replica, indexes: Indexes, record: ConflictRecord, choice: Choice, seen: Option<ReplicaState>): Outcome
  {
    if IsStale(r, record, seen) then Stale
    else if seen.None? then Unlisted
    else match choice
      case KeepLocal => if r.SlotOf(record.resource).File? then Done else Invalid
      case TakeDelete => DeleteOutcome(r, record.resource, seen.value)
      case TakeRemote(id) =>
        if id !in record.remoteHeads || id !in r.commits then Invalid
        else RestoreOutcome(r, indexes, record.resource, seen.value, id)
  }

  ghost function RollbackOutcome(
    r: Replica, indexes: Indexes, key: ResourceKey, id: CommitId, seen: Option<ReplicaState>): Outcome
  {
    if id !in r.commits || r.commits[id].resource != key then Invalid
    else if seen.None? then Unlisted
    else RestoreOutcome(r, indexes, key, seen.value, id)
  }

  // ---- What it does ----

  function Published(r: Replica, c: Commit): Replica {
    r.(commits := r.commits[c.id := c])
  }

  /** Remove the local file, when one was seen, and publish a tombstone. */
  ghost predicate Deletes(r: Replica, r': Replica, key: ResourceKey, seen: ReplicaState, c: Commit) {
    && c.change.Delete?
    && if seen.LocalPresent?
       then exists left: Slot ::
         !left.File? && r' == Published(r, c).WithSlot(key, left).WithBaseline(key, BaselineDeleted({c.id}))
       else r' == Published(r, c).WithBaseline(key, BaselineDeleted({c.id}))
  }

  /** Write the content of one known commit and publish it again on top of all heads. */
  ghost predicate Restores(
    crdt: Crdt, r: Replica, r': Replica, key: ResourceKey, seen: ReplicaState, id: CommitId, c: Commit)
  {
    id in r.commits &&
    if r.commits[id].change.Delete? then Deletes(r, r', key, seen, c)
    else exists bytes, chunks, token :: Rewrites(crdt, r, r', key, id, c, bytes, chunks, token)
  }

  ghost predicate Rewrites(
    crdt: Crdt, r: Replica, r': Replica, key: ResourceKey, id: CommitId, c: Commit, bytes: Bytes, chunks: seq<Digest>,
    token: Token)
    requires id in r.commits
  {
    var kind := if r.commits[id].change.TextDelta? then Text else Binary;
    && IsContentOf(crdt, r.commits, key, id, bytes)
    && c.change == PublishChange(crdt, r.commits, key, kind, bytes, chunks)
    && r' == Published(r, c).WithSlot(key, File(bytes, token))
                            .WithBaseline(key, BaselinePresent(Digest(bytes), token, {c.id}))
  }

  /** Writing first and publishing after that rewrites the resource. */
  lemma WrittenThenPublished(
    crdt: Crdt, r: Replica, written: Replica, r': Replica, key: ResourceKey, id: CommitId, c: Commit, bytes: Bytes,
    chunks: seq<Digest>, token: Token)
    requires id in r.commits && !r.commits[id].change.Delete? && IsContentOf(crdt, r.commits, key, id, bytes)
    requires written == r.WithSlot(key, File(bytes, token))
    requires r' == Published(written, c).WithBaseline(key, BaselinePresent(Digest(bytes), token, {c.id}))
    requires var kind := if r.commits[id].change.TextDelta? then Text else Binary;
             c.change == PublishChange(crdt, r.commits, key, kind, bytes, chunks)
    ensures forall seen :: Restores(crdt, r, r', key, seen, id, c)
  {
    assert Rewrites(crdt, r, r', key, id, c, bytes, chunks, token);
  }

  /** Publish the local file as it is. */
  ghost predicate Keeps(crdt: Crdt, r: Replica, r': Replica, kind: ResourceKind, key: ResourceKey, c: Commit) {
    var slot := r.SlotOf(key);
    && slot.File?
    && (exists chunks :: c.change == PublishChange(crdt, r.commits, key, kind, slot.data, chunks))
    && r' == Published(r, c).WithBaseline(key, BaselinePresent(Digest(slot.data), slot.version, {c.id}))
  }

  /** A carried-out choice. */
  ghost predicate Settles(
    crdt: Crdt, r: Replica, r': Replica, kind: ResourceKind, key: ResourceKey, choice: Choice, seen: ReplicaState,
    c: Commit)
  {
    && IsFreshCommit(r.commits, key, c)
    && match choice
       case KeepLocal => Keeps(crdt, r, r', kind, key, c)
       case TakeDelete => Deletes(r, r', key, seen, c)
       case TakeRemote(id) => Restores(crdt, r, r', key, seen, id, c)
  }

  /** `resolve` of a recorded conflict: refused without effect, or carried out. */
  ghost predicate Resolves(
    crdt: Crdt, r: Replica, r': Replica, indexes: Indexes, kind: ResourceKind, record: ConflictRecord, choice: Choice,
    seen: Option<ReplicaState>, c: Commit, outcome: Outcome)
  {
    && outcome == ResolveOutcome(r, indexes, record, choice, seen)
    && if outcome == Done then seen.Some? && Settles(crdt, r, r', kind, record.resource, choice, seen.value, c)
       else r' == r
  }

  /** `rollback` to any known version of the resource. */
  ghost predicate RollsBack(
    crdt: Crdt, r: Replica, r': Replica, indexes: Indexes, key: ResourceKey, id: CommitId,
    seen: Option<ReplicaState>, c: Commit, outcome: Outcome)
  {
    && outcome == RollbackOutcome(r, indexes, key, id, seen)
    && if outcome == Done
       then seen.Some? && IsFreshCommit(r.commits, key, c) && Restores(crdt, r, r', key, seen.value, id, c)
       else r' == r
  }

  // ---- What it leads to ----

  /** The published change carries exactly the bytes. */
  lemma PublishedContent(crdt: Crdt, m: CommitMap, c: Commit, kind: ResourceKind, data: Bytes, chunks: seq<Digest>)
    requires crdt.Lawful() && IsFreshCommit(m, c.resource, c)
    requires c.change == PublishChange(crdt, m, c.resource, kind, data, chunks)
    ensures RemoteState(crdt, m[c.id := c], c.resource) == RemotePresent(Digest(data), |data|, {c.id})
  {
    StateAfterPublish(crdt, m, c);
  }

  lemma DeletedResourceIsSettled(
    crdt: Crdt, r: Replica, r': Replica, kind: ResourceKind, key: ResourceKey, seen: ReplicaState, c: Commit)
    requires IsFreshCommit(r.commits, key, c) && Deletes(r, r', key, seen, c) && SeesSlot(r.SlotOf(key), seen)
    ensures PlanOf(crdt, r', kind, key) == EstablishDeletedBaseline(key, {c.id})
    ensures r'.commits == r.commits[c.id := c] && !r'.SlotOf(key).File?
  {
    StateAfterPublish(crdt, r.commits, c);
  }

  lemma RestoredResourceIsSettled(
    crdt: Crdt, r: Replica, r': Replica, kind: ResourceKind, key: ResourceKey, seen: ReplicaState, id: CommitId,
    c: Commit)
    requires crdt.Lawful() && IsFreshCommit(r.commits, key, c) && Restores(crdt, r, r', key, seen, id, c)
    requires r.commits[id].change.Delete? ==> SeesSlot(r.SlotOf(key), seen)
    ensures PlanOf(crdt, r', kind, key).EstablishBaseline? || PlanOf(crdt, r', kind, key).EstablishDeletedBaseline?
    ensures r'.commits == r.commits[c.id := c]
    ensures if r.commits[id].change.Delete? then !r'.SlotOf(key).File?
            else r'.SlotOf(key).File? && IsContentOf(crdt, r.commits, key, id, r'.SlotOf(key).data)
                 && RemoteState(crdt, r'.commits, key) ==
                    RemotePresent(Digest(r'.SlotOf(key).data), |r'.SlotOf(key).data|, {c.id})
  {
    if r.commits[id].change.Delete? {
      DeletedResourceIsSettled(crdt, r, r', kind, key, seen, c);
    } else {
      var bytes, chunks, token :| Rewrites(crdt, r, r', key, id, c, bytes, chunks, token);
      PublishedContent(crdt, r.commits, c, if r.commits[id].change.TextDelta? then Text else Binary, bytes, chunks);
    }
  }

  lemma CarriedOutPublishes(
    crdt: Crdt, r: Replica, r': Replica, kind: ResourceKind, key: ResourceKey, choice: Choice, seen: ReplicaState,
    c: Commit)
    requires Settles(crdt, r, r', kind, key, choice, seen, c)
    ensures r'.commits == r.commits[c.id := c]
    ensures Heads(r'.commits, key) == {c.id}
  {
    PublishLeavesOneHead(r.commits, c, key);
  }

  /** A resolution that goes through collapses any number of heads into one commit whose
      parents are all recorded heads and keeps every commit. If the inventory saw the slot
      as it is, only a baseline is left to record, and the local file holds the chosen side. */
  lemma ResolveCollapsesTheHeads(
    crdt: Crdt, r: Replica, r': Replica, indexes: Indexes, kind: ResourceKind, record: ConflictRecord, choice: Choice,
    seen: Option<ReplicaState>, c: Commit)
    requires crdt.Lawful() && Resolves(crdt, r, r', indexes, kind, record, choice, seen, c, Done)
    ensures c.parents == record.remoteHeads && Heads(r'.commits, record.resource) == {c.id}
    ensures r'.commits == r.commits[c.id := c]
    ensures SeesSlot(r.SlotOf(record.resource), seen.value) ==>
            var key := record.resource;
            && (PlanOf(crdt, r', kind, key).EstablishBaseline? || PlanOf(crdt, r', kind, key).EstablishDeletedBaseline?)
            && match choice
               case KeepLocal => r'.SlotOf(key) == r.SlotOf(key)
               case TakeDelete => !r'.SlotOf(key).File?
               case TakeRemote(id) =>
                 if r.commits[id].change.Delete? then !r'.SlotOf(key).File?
                 else r'.SlotOf(key).File? && IsContentOf(crdt, r.commits, key, id, r'.SlotOf(key).data)
  {
    var key := record.resource;
    CarriedOutPublishes(crdt, r, r', kind, key, choice, seen.value, c);
    if SeesSlot(r.SlotOf(key), seen.value) {
      match choice
      case KeepLocal =>
        var chunks :| c.change == PublishChange(crdt, r.commits, key, kind, r.SlotOf(key).data, chunks);
        PublishedContent(crdt, r.commits, c, kind, r.SlotOf(key).data, chunks);
      case TakeDelete => DeletedResourceIsSettled(crdt, r, r', kind, key, seen.value, c);
      case TakeRemote(id) => RestoredResourceIsSettled(crdt, r, r', kind, key, seen.value, id, c);
    }
  }

  /** A rollback publishes exactly the selected version's content on top of all heads and
      removes no commit. */
  lemma RollbackRestoresTheVersion(
    crdt: Crdt, r: Replica, r': Replica, indexes: Indexes, kind: ResourceKind, key: ResourceKey, id: CommitId,
    seen: Option<ReplicaState>, c: Commit)
    requires crdt.Lawful() && RollsBack(crdt, r, r', indexes, key, id, seen, c, Done)
    requires r.commits[id].change.Delete? ==> SeesSlot(r.SlotOf(key), seen.value)
    ensures forall old' :: old' in r.commits ==> old' in r'.commits && r'.commits[old'] == r.commits[old']
    ensures Heads(r'.commits, key) == {c.id} && c.parents == Heads(r.commits, key)
    ensures PlanOf(crdt, r', kind, key).EstablishBaseline? || PlanOf(crdt, r', kind, key).EstablishDeletedBaseline?
    ensures match r.commits[id].change
            case Delete => c.change.Delete? && !r'.SlotOf(key).File?
            case BinarySnapshot(contentId, _, _) =>
              && c.change.BinarySnapshot? && c.change.contentId == contentId && r'.SlotOf(key).File?
              && Digest(r'.SlotOf(key).data) == contentId
            case TextDelta(_) =>
              && r'.SlotOf(key).File? && IsContentOf(crdt, r.commits, key, id, r'.SlotOf(key).data)
              && crdt.content(TextDoc(r'.commits, key)) == r'.SlotOf(key).data
  {
    PublishLeavesOneHead(r.commits, c, key);
    RestoredResourceIsSettled(crdt, r, r', kind, key, seen.value, id, c);
    if r.commits[id].change.TextDelta? {
      StateOfOnlyHead(crdt, r'.commits, key, c.id);
    }
  }
}
