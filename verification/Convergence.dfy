/** What one undisturbed reconcile leads to (`execute` in src/runtime.rs). */
module Convergence {
  import opened Types
  import opened Core
  import opened CommitGraph
  import opened Execution

  /** The state a host reports for a slot it hashes itself. */
  function Observed(slot: Slot): ReplicaState {
    match slot
    case Absent => LocalMissing
    case Tombstone(version) => LocalDeleted(version)
    case File(data, version) => LocalPresent(Digest(data), |data|, version)
  }

  /** The operation planned for one resource whose local state is reported as `local`. */
  function PlanFor(crdt: Crdt, r: Replica, kind: ResourceKind, key: ResourceKey, local: ReplicaState): PlanOperation {
    MergeTextConflict(PlanResource(key, local, r.BaselineOf(key), RemoteState(crdt, r.commits, key)), kind, local)
  }

  /** The operation planned when the host reports the slot as it is. */
  function PlanOf(crdt: Crdt, r: Replica, kind: ResourceKind, key: ResourceKey): PlanOperation {
    PlanFor(crdt, r, kind, key, Observed(r.SlotOf(key)))
  }

  /** A commit published on top of all known heads. */
  ghost predicate IsFreshCommit(m: CommitMap, key: ResourceKey, c: Commit) {
    c.resource == key && c.id !in m && c.id !in ParentsIn(m) && c.parents == Heads(m, key) && c.id !in c.parents
  }

  /** The commit `execute` publishes for an upload or a tombstone. */
  ghost predicate Publishes(
    crdt: Crdt, r: Replica, r': Replica, kind: ResourceKind, key: ResourceKey, op: PlanOperation, c: Commit,
    chunks: seq<Digest>, token: Token)
  {
    var slot := r.SlotOf(key);
    && IsFreshCommit(r.commits, key, c)
    && (if op.Upload? then slot.File? && c.change == UploadChange(crdt, r, key, kind, slot.data, chunks)
       else c.change.Delete?)
    && r' == AfterCommit(crdt, r, Observed(slot), c, token)
  }

  ghost predicate Applies(
    crdt: Crdt, r: Replica, r': Replica, kind: ResourceKind, key: ResourceKey, op: PlanOperation, bytes: Bytes,
    left: Slot, token: Token)
  {
    && (op.Download? ==>
          Heads(r.commits, key) != {} && IsContentOf(crdt, r.commits, key, First(Heads(r.commits, key)), bytes))
    && !left.File? && r' == ApplyOperation(r, kind, op, Observed(r.SlotOf(key)), bytes, left, token)
  }

  /** The planned operation carried out with nothing changing in between. */
  ghost predicate Carried(
    crdt: Crdt, r: Replica, r': Replica, kind: ResourceKind, key: ResourceKey, op: PlanOperation)
  {
    if op.Publishes() then exists c, chunks, token :: Publishes(crdt, r, r', kind, key, op, c, chunks, token)
    else exists bytes, left, token :: Applies(crdt, r, r', kind, key, op, bytes, left, token)
  }

  // ---- One resource ----

  lemma UploadSettles(crdt: Crdt, r: Replica, r': Replica, kind: ResourceKind, key: ResourceKey) returns (c: Commit)
    requires PlanOf(crdt, r, kind, key).Publishes() && Carried(crdt, r, r', kind, key, PlanOf(crdt, r, kind, key))
    ensures PlanOf(crdt, r', kind, key).Settled()
    ensures r'.commits == r.commits[c.id := c] && Heads(r'.commits, key) == {c.id} && c.parents == Heads(r.commits, key)
  {
    var op, slot := PlanOf(crdt, r, kind, key), r.SlotOf(key);
    var chunks, token;
    c, chunks, token :| Publishes(crdt, r, r', kind, key, op, c, chunks, token);
    PublishLeavesOneHead(r.commits, c, key);
    AfterCommitRemembers(crdt, r, Observed(slot), c, token);
    if op.PublishDelete? {
      TombstoneSettles(crdt, r, kind, key, c, token);
    } else if kind == Text {
      TextUploadSettles(crdt, r, key, c, token);
    } else {
      BinaryUploadSettles(crdt, r, kind, key, c, token);
    }
  }

  lemma AfterCommitRemembers(crdt: Crdt, r: Replica, planned: ReplicaState, c: Commit, token: Token)
    ensures AfterCommit(crdt, r, planned, c, token).commits == r.commits[c.id := c]
  {
  }

  lemma TombstoneSettles(crdt: Crdt, r: Replica, kind: ResourceKind, key: ResourceKey, c: Commit, token: Token)
    requires IsFreshCommit(r.commits, key, c) && c.change.Delete? && !r.SlotOf(key).File?
    ensures PlanOf(crdt, AfterCommit(crdt, r, Observed(r.SlotOf(key)), c, token), kind, key).Settled()
  {
    StateAfterPublish(crdt, r.commits, c);
  }

  lemma TextUploadSettles(crdt: Crdt, r: Replica, key: ResourceKey, c: Commit, token: Token)
    requires IsFreshCommit(r.commits, key, c) && c.change.TextDelta? && r.SlotOf(key).File?
    ensures PlanOf(crdt, AfterCommit(crdt, r, Observed(r.SlotOf(key)), c, token), Text, key).Settled()
  {
    StateAfterPublish(crdt, r.commits, c);
    TextDocAfterPublish(r.commits, c);
  }

  lemma BinaryUploadSettles(crdt: Crdt, r: Replica, kind: ResourceKind, key: ResourceKey, c: Commit, token: Token)
    requires IsFreshCommit(r.commits, key, c) && r.SlotOf(key).File?
    requires c.change.BinarySnapshot? && c.change.contentId == Digest(r.SlotOf(key).data)
    ensures PlanOf(crdt, AfterCommit(crdt, r, Observed(r.SlotOf(key)), c, token), kind, key).Settled()
  {
    StateAfterPublish(crdt, r.commits, c);
  }

  lemma TextDocAfterPublish(m: CommitMap, c: Commit)
    requires c.id !in m && c.change.TextDelta?
    ensures TextDoc(m[c.id := c], c.resource) == TextDoc(m, c.resource) + c.change.delta
  {
    var before, after := ResourceCommits(m, c.resource), ResourceCommits(m[c.id := c], c.resource);
    assert after.Keys == before.Keys + {c.id};
    assert forall id :: id in before ==> DeltaOf(m, id) == DeltaOf(m[c.id := c], id);
    assert DeltaOf(m[c.id := c], c.id) == c.change.delta;
  }

  /** What a plan to download was made from. */
  lemma DownloadIsOfRemoteState(crdt: Crdt, r: Replica, kind: ResourceKind, key: ResourceKey, local: ReplicaState)
    requires PlanFor(crdt, r, kind, key, local).Download?
    ensures PlanFor(crdt, r, kind, key, local) == Download(key, RemoteState(crdt, r.commits, key))
    ensures RemoteState(crdt, r.commits, key).RemotePresent?
    ensures RemoteState(crdt, r.commits, key).heads == Heads(r.commits, key) != {}
  {
  }

  /** The text at the first head, which is what a download writes, is the text of all
      heads merged, which is what the remote state was computed from. */
  ghost predicate FirstHeadIsMerge(crdt: Crdt, m: CommitMap, key: ResourceKey)
    requires Heads(m, key) != {}
  {
    var first := First(Heads(m, key));
    m[first].change.TextDelta? ==>
      exists doc :: IsTextDocAt(m, key, first, doc) && crdt.content(doc) == crdt.content(TextDoc(m, key))
  }

  lemma TextDocAtIsUnique(m: CommitMap, key: ResourceKey, head: CommitId, a: set<TextItem>, b: set<TextItem>)
    requires IsTextDocAt(m, key, head, a) && IsTextDocAt(m, key, head, b)
    ensures a == b
  {
  }

  /** A present remote state whose first head is text is the merge of all heads. */
  lemma PresentTextIsMerge(crdt: Crdt, m: CommitMap, key: ResourceKey)
    requires RemoteState(crdt, m, key).RemotePresent?
    ensures Heads(m, key) != {} && First(Heads(m, key)) in m
    ensures var change, id := m[First(Heads(m, key))].change, RemoteState(crdt, m, key).contentId;
            && !change.Delete?
            && (change.TextDelta? ==> id == Digest(crdt.content(TextDoc(m, key))))
            && (change.BinarySnapshot? ==> id == change.contentId)
  {
    var first := First(Heads(m, key));
    assert first in Heads(m, key);
  }

  /** What a download writes has the planned hash exactly when the first head is the merge. */
  lemma DownloadedHash(crdt: Crdt, m: CommitMap, key: ResourceKey, bytes: Bytes)
    requires RemoteState(crdt, m, key).RemotePresent?
    requires IsContentOf(crdt, m, key, First(Heads(m, key)), bytes)
    ensures Digest(bytes) == RemoteState(crdt, m, key).contentId <==> FirstHeadIsMerge(crdt, m, key)
  {
    PresentTextIsMerge(crdt, m, key);
    var first := First(Heads(m, key));
    if m[first].change.TextDelta? {
      var doc :| IsTextDocAt(m, key, first, doc) && bytes == crdt.content(doc);
      if FirstHeadIsMerge(crdt, m, key) {
        var other :| IsTextDocAt(m, key, first, other) && crdt.content(other) == crdt.content(TextDoc(m, key));
        TextDocAtIsUnique(m, key, first, doc, other);
      }
    }
  }

  /** Text changes the plan in one case: where both sides moved, the local text is uploaded
      and the CRDT merges it. */
  lemma OnlyDivergedTextMerges(crdt: Crdt, r: Replica, kind: ResourceKind, key: ResourceKey, local: ReplicaState)
    ensures var plain := PlanResource(key, local, r.BaselineOf(key), RemoteState(crdt, r.commits, key));
            PlanFor(crdt, r, kind, key, local) ==
            if kind == Text && plain.Conflict? && local.LocalPresent?
              && RemoteState(crdt, r.commits, key).RemotePresent?
               && r.BaselineOf(key).Some? then Upload(key, local)
            else plain
  {
  }

  /** As soon as two heads are unlike, such as a tombstone beside content, every replica
      plans a conflict that names all heads, whatever it holds itself. */
  lemma UnlikeHeadsAreAConflict(
    crdt: Crdt, r: Replica, kind: ResourceKind, key: ResourceKey, local: ReplicaState, g: CommitId, h: CommitId)
    requires g in Heads(r.commits, key) && h in Heads(r.commits, key) && g in r.commits && h in r.commits
    requires Unlike(r.commits[g].change, r.commits[h].change)
    ensures PlanFor(crdt, r, kind, key, local)
            == Conflict(ConflictRecord(key, RemoteFork, local, Heads(r.commits, key)))
  {
    RemoteStateMeaning(crdt, r.commits, key);
  }

  /** With one head the first head holds everything. */
  lemma OnlyHeadIsMerge(crdt: Crdt, m: CommitMap, rank: map<CommitId, nat>, key: ResourceKey)
    requires Ranked(m, rank) && SameResource(m) && |Heads(m, key)| == 1
    ensures FirstHeadIsMerge(crdt, m, key)
  {
    var first := First(Heads(m, key));
    OnlyElement(Heads(m, key), first);
    HeadsMeaning(m, key, first);
    TextDocAtOnlyHead(m, rank, key, first, TextDoc(m, key));
  }

  /** The resource has at most one head, or the first one is not text. */
  predicate NoForkedText(m: CommitMap, key: ResourceKey) {
    var heads := Heads(m, key);
    heads == {} || |heads| == 1 || (First(heads) in m && !m[First(heads)].change.TextDelta?)
  }

  lemma UnforkedFirstHeadIsMerge(crdt: Crdt, m: CommitMap, rank: map<CommitId, nat>, key: ResourceKey)
    requires Ranked(m, rank) && SameResource(m) && Heads(m, key) != {} && NoForkedText(m, key)
    ensures FirstHeadIsMerge(crdt, m, key)
  {
    if |Heads(m, key)| == 1 {
      OnlyHeadIsMerge(crdt, m, rank, key);
    }
  }

  lemma OnlyElement(s: set<CommitId>, x: CommitId)
    requires x in s && |s| == 1
    ensures s == {x}
  {
    assert |s - {x}| == 0;
  }

  /** The replica after a download that was not refused. */
  lemma AfterDownload(crdt: Crdt, r: Replica, kind: ResourceKind, key: ResourceKey, local: ReplicaState, bytes: Bytes,
                      left: Slot, token: Token)
    requires PlanFor(crdt, r, kind, key, local).Download? && Matches(r.SlotOf(key), local)
    ensures var remote := RemoteState(crdt, r.commits, key);
            var r' := ApplyOperation(r, kind, PlanFor(crdt, r, kind, key, local), local, bytes, left, token);
            && remote.RemotePresent? && r'.commits == r.commits && r'.SlotOf(key) == File(bytes, token)
            && r'.BaselineOf(key) == Some(BaselinePresent(remote.contentId, token, remote.heads))
  {
    DownloadIsOfRemoteState(crdt, r, kind, key, local);
  }

  /** What is planned next for a file that was just downloaded and is reported honestly.
      When the host leaves the hash to the engine, the engine takes the one it recorded and
      settles. When the host computes it, the plan settles exactly if the first head is the
      merge, and otherwise uploads the first head's text over the other heads'. */
  lemma DownloadSettlesIff(
    crdt: Crdt, r: Replica, kind: ResourceKind, key: ResourceKey, local: ReplicaState, bytes: Bytes, left: Slot,
    token: Token,
    listing: Listing)
    requires PlanFor(crdt, r, kind, key, local).Download? && Matches(r.SlotOf(key), local)
    requires IsContentOf(crdt, r.commits, key, First(Heads(r.commits, key)), bytes)
    requires listing.ListedPresent? && Describes(listing, File(bytes, token))
    ensures var r' := ApplyOperation(r, kind, PlanFor(crdt, r, kind, key, local), local, bytes, left, token);
            var seen := InventoryState(listing, r'.BaselineOf(key), r'.SlotOf(key));
            && r'.SlotOf(key) == File(bytes, token) && seen.Some?
            && var next := PlanFor(crdt, r', kind, key, seen.value);
               if listing.contentId.None? || FirstHeadIsMerge(crdt, r.commits, key) then next.EstablishBaseline?
               else next == Upload(key, seen.value)
  {
    AfterDownload(crdt, r, kind, key, local, bytes, left, token);
    DownloadedHash(crdt, r.commits, key, bytes);
  }

  /** Quiescence of one resource: a carried-out operation leaves only baselines to record,
      except after a download whose first head is not the merge, and an unresolved conflict
      is reported again under the same identifier. */
  lemma ReconciledResourceIsQuiet(crdt: Crdt, r: Replica, r': Replica, kind: ResourceKind, key: ResourceKey)
    requires Carried(crdt, r, r', kind, key, PlanOf(crdt, r, kind, key))
    ensures var op, op' := PlanOf(crdt, r, kind, key), PlanOf(crdt, r', kind, key);
            && (op.Download? ==> Heads(r.commits, key) != {})
            && if op.Conflict? then op' == op
               else op'.Settled() <==> (op.Download? ==> FirstHeadIsMerge(crdt, r.commits, key))
  {
    var op := PlanOf(crdt, r, kind, key);
    if op.Publishes() {
      var c := UploadSettles(crdt, r, r', kind, key);
    } else {
      var bytes, left, token :| Applies(crdt, r, r', kind, key, op, bytes, left, token);
      if op.Download? {
        var listing := ListedPresent(Some(Digest(bytes)), |bytes|, token);
        DownloadSettlesIff(crdt, r, kind, key, Observed(r.SlotOf(key)), bytes, left, token, listing);
      } else {
        OtherOperationsSettle(crdt, r, r', kind, key, bytes, left, token);
      }
    }
  }

  lemma OtherOperationsSettle(
    crdt: Crdt, r: Replica, r': Replica, kind: ResourceKind, key: ResourceKey, bytes: Bytes, left: Slot, token: Token)
    requires var op := PlanOf(crdt, r, kind, key);
             !op.Publishes() && !op.Download? && Applies(crdt, r, r', kind, key, op, bytes, left, token)
    ensures if PlanOf(crdt, r, kind, key).Conflict?
            then PlanOf(crdt, r', kind, key) == PlanOf(crdt, r, kind, key)
            else PlanOf(crdt, r', kind, key).Settled()
  {
    assert r'.commits == r.commits;
    match PlanOf(crdt, r, kind, key)
    case EstablishBaseline(_, _, _) =>
    case EstablishDeletedBaseline(_, _) =>
    case ApplyDelete(_, _, _) =>
    case Noop(_) =>
    case Conflict(_) =>
  }

  /** The baseline a carried-out operation leaves is of the heads known now, and of the file
      as it is: present with its version, or deleted when there is none. */
  lemma BaselineIsOfTheKnownHeads(crdt: Crdt, r: Replica, r': Replica, kind: ResourceKind, key: ResourceKey)
    requires Carried(crdt, r, r', kind, key, PlanOf(crdt, r, kind, key))
    requires !PlanOf(crdt, r, kind, key).Conflict? && !PlanOf(crdt, r, kind, key).Noop?
    ensures HasBaseline(r', key, Heads(r'.commits, key))
  {
    var op := PlanOf(crdt, r, kind, key);
    if op.Publishes() {
      var c, chunks, token :| Publishes(crdt, r, r', kind, key, op, c, chunks, token);
      PublishedBaseline(crdt, r, kind, key, op, c, chunks, token);
    } else {
      var bytes, left, token :| Applies(crdt, r, r', kind, key, op, bytes, left, token);
      AppliedBaseline(crdt, r, kind, key, bytes, left, token);
    }
  }

  lemma PublishedBaseline(
    crdt: Crdt, r: Replica, kind: ResourceKind, key: ResourceKey, op: PlanOperation, c: Commit, chunks: seq<Digest>,
    token: Token)
    requires op == PlanOf(crdt, r, kind, key) && op.Publishes()
    requires Publishes(crdt, r, AfterCommit(crdt, r, Observed(r.SlotOf(key)), c, token), kind, key, op, c, chunks,
                       token)
    ensures var r' := AfterCommit(crdt, r, Observed(r.SlotOf(key)), c, token);
            HasBaseline(r', key, Heads(r'.commits, key))
  {
    assert op.PublishDelete? ==> !r.SlotOf(key).File?;
    assert r.SlotOf(key).File? ==> Observed(r.SlotOf(key)).VersionToken() == Some(r.SlotOf(key).version);
  }

  lemma AppliedBaseline(
    crdt: Crdt, r: Replica, kind: ResourceKind, key: ResourceKey, bytes: Bytes, left: Slot, token: Token)
    requires var op := PlanOf(crdt, r, kind, key); !op.Publishes() && !op.Conflict? && !op.Noop?
    requires !left.File?
    ensures var r' := ApplyOperation(r, kind, PlanOf(crdt, r, kind, key), Observed(r.SlotOf(key)), bytes, left, token);
            r'.commits == r.commits && HasBaseline(r', key, Heads(r.commits, key))
  {
    var op, local, remote := PlanOf(crdt, r, kind, key), Observed(r.SlotOf(key)), RemoteState(crdt, r.commits, key);
    assert remote.Heads() == Heads(r.commits, key);
    PlannedOnHeads(key, local, r.BaselineOf(key), remote);
    OperationRecordsHeads(r, kind, key, op, remote, bytes, left, token);
  }

  /** The baseline is of these heads and of the file as it is: present with its version, or
      deleted when there is none. */
  ghost predicate HasBaseline(r: Replica, key: ResourceKey, heads: set<CommitId>) {
    r.BaselineOf(key).Some? &&
    var b, slot := r.BaselineOf(key).value, r.SlotOf(key);
    b.remoteHeads == heads && if slot.File? then b.BaselinePresent? && b.localVersion == slot.version
                              else b.BaselineDeleted?
  }

  lemma PlannedOnHeads(
    key: ResourceKey, local: ReplicaState, baseline: Option<BaselineState>, remote: RemoteResourceState)
    ensures match PlanResource(key, local, baseline, remote)
            case EstablishBaseline(k, state, heads) =>
              k == key && state == local && local.LocalPresent? && heads == remote.Heads()
            case EstablishDeletedBaseline(k, heads) => k == key && !local.LocalPresent? && heads == remote.Heads()
            case Download(k, source) => k == key && source == remote && remote.RemotePresent?
            case ApplyDelete(k, state, heads) => k == key && state == local && heads == remote.Heads()
            case _ => true
  {
  }

  lemma OperationRecordsHeads(
    r: Replica, kind: ResourceKind, key: ResourceKey, op: PlanOperation, remote: RemoteResourceState, bytes: Bytes,
    left: Slot, token: Token)
    requires op.Settled() || op.Download? || op.ApplyDelete?
    requires !op.Noop? && op.Key() == key && !left.File?
    requires op.Download? ==> op.remote == remote && remote.RemotePresent? && remote.heads != {}
    requires op.EstablishBaseline? || op.ApplyDelete? ==> op.local == Observed(r.SlotOf(key))
    requires op.EstablishBaseline? ==> op.local.LocalPresent?
    requires op.EstablishDeletedBaseline? ==> !r.SlotOf(key).File?
    requires op.EstablishBaseline? || op.EstablishDeletedBaseline? || op.ApplyDelete? ==>
      op.remoteHeads == remote.Heads()
    ensures var r' := ApplyOperation(r, kind, op, Observed(r.SlotOf(key)), bytes, left, token);
            r'.commits == r.commits && HasBaseline(r', key, remote.Heads())
  {
  }
}
