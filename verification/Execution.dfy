/** One replica: the local files, what it knows, and the effect of each planned operation
    (`local_inventory`, `build_plan` and `execute` in src/runtime.rs). */
module Execution {
  import opened Types
  import opened Core
  import opened CommitGraph

  /** What the host stores for one resource. */
  datatype Slot = Absent | Tombstone(version: Token) | File(data: Bytes, version: Token) {
    /** The version a precondition is compared with. */
    function VersionToken(): Option<Token> {
      if Absent? then None else Some(version)
    }
  }

  /** A resource as the host lists it; the content hash may be left to the engine. */
  datatype Listing =
    | ListedPresent(contentId: Option<Digest>, size: nat, version: Token)
    | ListedDeleted(version: Token)

  datatype ResourceContent = ResourceContent(data: Bytes, version: Token)

  datatype Replica = Replica(
    slots: map<ResourceKey, Slot>,
    commits: CommitMap,
    baselines: map<ResourceKey, BaselineState>,
    texts: map<ResourceKey, set<TextItem>>)
  {
    function SlotOf(key: ResourceKey): Slot {
      if key in slots then slots[key] else Absent
    }

    function BaselineOf(key: ResourceKey): Option<BaselineState> {
      if key in baselines then Some(baselines[key]) else None
    }

    function WithSlot(key: ResourceKey, slot: Slot): Replica {
      this.(slots := slots[key := slot])
    }

    function WithBaseline(key: ResourceKey, baseline: BaselineState): Replica {
      this.(baselines := baselines[key := baseline])
    }
  }

  // ---- Inventory ----

  /** The listing describes the slot as it is; a hash may be left out. */
  predicate Describes(listing: Listing, slot: Slot) {
    match listing
    case ListedPresent(contentId, size, version) =>
      && slot.File? && slot.version == version
      && (contentId.Some? ==> contentId.value == Digest(slot.data))
    case ListedDeleted(version) => slot == Tombstone(version)
  }

  /** The local state the planner sees: a listed hash is taken as it is, a missing one
      comes from the baseline when its version token is the listed one, and otherwise
      from the content read now. */
  function InventoryState(listing: Listing, baseline: Option<BaselineState>, now: Slot): Option<ReplicaState> {
    match listing
    case ListedDeleted(version) => Some(LocalDeleted(version))
    case ListedPresent(Some(contentId), size, version) => Some(LocalPresent(contentId, size, version))
    case ListedPresent(None, size, version) =>
      if baseline.Some? && baseline.value.BaselinePresent? && baseline.value.localVersion == version
      then Some(LocalPresent(baseline.value.contentId, size, version))
      else if now.File? then Some(LocalPresent(Digest(now.data), |now.data|, version))
      else None
  }

  function BaselinePairs(r: Replica, scopes: set<ScopeId>): map<ResourceKey, BaselineState> {
    map key | key in r.baselines && InScope(scopes, key.scope) :: r.baselines[key]
  }

  /** A diverged text resource is uploaded: its CRDT merges the two sides. */
  function MergeTextConflict(op: PlanOperation, kind: ResourceKind, local: ReplicaState): PlanOperation {
    if op.Conflict? && op.record.kind == ContentVsContent && kind == Text then Upload(op.Key(), local) else op
  }

  function StateIn(inventory: map<ResourceKey, ReplicaState>, key: ResourceKey): ReplicaState {
    if key in inventory then inventory[key] else LocalMissing
  }

  /** A resource the host does not list is taken as binary. */
  function KindOf(kinds: map<ResourceKey, ResourceKind>, key: ResourceKey): ResourceKind {
    if key in kinds then kinds[key] else Binary
  }

  function BuildPlan(
    crdt: Crdt, r: Replica, kinds: map<ResourceKey, ResourceKind>, scopes: set<ScopeId>,
    inventory: map<ResourceKey, ReplicaState>)
    : (plan: map<ResourceKey, PlanOperation>)
  {
    var plan := PlanInventory(inventory, BaselinePairs(r, scopes), RemotePairs(crdt, r.commits, scopes));
    map key | key in plan :: MergeTextConflict(plan[key], KindOf(kinds, key), StateIn(inventory, key))
  }

  // ---- Local mutations ----

  /** A precondition made from a planned state holds when the version is still that one,
      or when there is still nothing. */
  predicate Matches(slot: Slot, planned: ReplicaState) {
    slot.VersionToken() == planned.VersionToken()
  }

  // ---- Effects of the operations ----

  /** The change an upload publishes. Text is edited against the acknowledged document. */
  function UploadChange(
    crdt: Crdt, r: Replica, key: ResourceKey, kind: ResourceKind, data: Bytes, chunks: seq<Digest>): ResourceChange
  {
    match kind
    case Binary => BinarySnapshot(Digest(data), |data|, chunks)
    case Text =>
      var base := if key in r.baselines && key in r.texts then r.texts[key] else {};
      TextDelta(crdt.edit(base, data))
  }

  /** After the batch is stored: remember the commit and move the baseline. A text upload
      also writes the merged document back, if the file is still the planned one. */
  function AfterCommit(crdt: Crdt, r: Replica, planned: ReplicaState, c: Commit, token: Token): Replica {
    var key := c.resource;
    var r1 := r.(commits := r.commits[c.id := c]);
    var heads := Heads(r1.commits, key);
    match c.change
    case Delete => r1.WithBaseline(key, BaselineDeleted(heads))
    case BinarySnapshot(contentId, _, _) =>
      r1.WithBaseline(key, BaselinePresent(contentId, planned.VersionToken().GetOr(0), heads))
    case TextDelta(_) =>
      if Matches(r.SlotOf(key), planned) then
        var doc := TextDoc(r1.commits, key);
        var bytes := crdt.content(doc);
        r1.WithSlot(key, File(bytes, token))
          .(texts := r.texts[key := doc])
          .WithBaseline(key, BaselinePresent(Digest(bytes), token, heads))
      else r1
  }

  /** The remaining operations. `bytes` is what the remote returned for a download, `left`
      what the host keeps of a deleted file, `token` the version a write is given. */
  function ApplyOperation(
    r: Replica, kind: ResourceKind, op: PlanOperation, planned: ReplicaState, bytes: Bytes, left: Slot, token: Token)
    : Replica
  {
    match op
    case EstablishBaseline(key, local, heads) =>
      var r1 := if kind == Text then r.(texts := r.texts[key := TextDoc(r.commits, key)]) else r;
      if local.LocalPresent? then r1.WithBaseline(key, BaselinePresent(local.contentId, local.version, heads)) else r1
    case EstablishDeletedBaseline(key, heads) => r.WithBaseline(key, BaselineDeleted(heads))
    case Download(key, remote) =>
      if Matches(r.SlotOf(key), planned) && remote.RemotePresent? && remote.heads != {} then
        var first := First(remote.heads);
        var r1 := r.WithSlot(key, File(bytes, token));
        var r2 := if first in r.commits && r.commits[first].change.TextDelta?
                  then r1.(texts := r1.texts[key := TextDoc(r.commits, key)]) else r1;
        r2.WithBaseline(key, BaselinePresent(remote.contentId, token, remote.heads))
      else r
    case ApplyDelete(key, local, heads) =>
      if Matches(r.SlotOf(key), local) then r.WithSlot(key, left).WithBaseline(key, BaselineDeleted(heads)) else r
    case _ => r
  }

  /** `content_for_remote` for one commit: the snapshot's own bytes, or the text document
      as of the commit. */
  ghost predicate IsContentOf(crdt: Crdt, m: CommitMap, key: ResourceKey, id: CommitId, bytes: Bytes) {
    && id in m
    && match m[id].change
       case Delete => false
       case BinarySnapshot(contentId, _, _) => Digest(bytes) == contentId
       case TextDelta(_) => exists doc :: IsTextDocAt(m, key, id, doc) && bytes == crdt.content(doc)
  }
}
