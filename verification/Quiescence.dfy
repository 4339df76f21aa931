/** Two reconciles in a row with nothing in between, with the inventories as the runtime
    builds them: honest listings whose missing hashes come from the baselines
    (`local_inventory`, `build_plan` and `execute` in src/runtime.rs). */
module Quiescence {
  import opened Types
  import opened Core
  import opened CommitGraph
  import opened ChunkStore
  import opened Execution
  import opened Convergence
  import opened Views
  import opened TextJoin
  import opened Batches
  import opened Resolution
  import opened Refinement

  // ---- What the host lists ----

  /** The listing shows one slot as it is; the hash may be left out. */
  predicate Shows(listing: Listing, slot: Slot) {
    Describes(listing, slot) && (listing.ListedPresent? && slot.File? ==> listing.size == |slot.data|)
  }

  /** The host lists what it has of the scopes and nothing else. */
  ghost predicate Honest(r: Replica, scopes: set<ScopeId>, listing: map<ResourceKey, Listing>) {
    && (forall key :: key in listing ==> InScope(scopes, key.scope) && Shows(listing[key], r.SlotOf(key)))
    && (forall key: ResourceKey :: InScope(scopes, key.scope) && key !in listing ==> r.SlotOf(key).Absent?)
  }

  /** A present baseline whose version is the file's has the file's hash. */
  predicate HashRecorded(r: Replica, key: ResourceKey) {
    var baseline, slot := r.BaselineOf(key), r.SlotOf(key);
    baseline.Some? && baseline.value.BaselinePresent? && slot.File? && baseline.value.localVersion == slot.version ==>
      baseline.value.contentId == Digest(slot.data)
  }

  /** What the planner is told of an honestly listed file is true if and only if the host
      gave the hash or the baseline has it. */
  lemma ListedStateIsObservedIff(r: Replica, key: ResourceKey, listing: Listing)
    requires Shows(listing, r.SlotOf(key))
    ensures InventoryState(listing, r.BaselineOf(key), r.SlotOf(key)) == Some(Observed(r.SlotOf(key))) <==>
            (listing.ListedPresent? && listing.contentId.None? ==> HashRecorded(r, key))
  {
  }

  /** Whatever size the host lists, a file the engine hashes itself is seen as it is; the
      listed size is taken over with a hash that is given or recorded. */
  lemma DescribedStateIsObservedIff(r: Replica, key: ResourceKey, listing: Listing)
    requires Describes(listing, r.SlotOf(key))
    ensures InventoryState(listing, r.BaselineOf(key), r.SlotOf(key)) == Some(Observed(r.SlotOf(key))) <==>
            match (listing, r.SlotOf(key), r.BaselineOf(key))
            case (ListedPresent(Some(_), size, _), File(data, _), _) => size == |data|
            case (ListedPresent(None, size, version), File(data, _), Some(BaselinePresent(contentId, recorded, _))) =>
              recorded == version ==> contentId == Digest(data) && size == |data|
            case _ => true
  {
  }

  lemma HonestStates(r: Replica, scopes: set<ScopeId>, listing: map<ResourceKey, Listing>,
                     inventory: map<ResourceKey, ReplicaState>, key: ResourceKey)
    requires Honest(r, scopes, listing) && IsInventory(r, listing, inventory) && InScope(scopes, key.scope)
    requires HashRecorded(r, key)
    ensures StateIn(inventory, key) == Observed(r.SlotOf(key))
  {
    if key in listing {
      ListedStateIsObservedIff(r, key, listing[key]);
    }
  }

  /** The task is the one a reconcile of honestly listed files makes. */
  ghost predicate IsHonestTask(t: Task, scopes: set<ScopeId>, listing: map<ResourceKey, Listing>) {
    && t.plan == BuildPlan(t.crdt, t.state, t.kinds, scopes, t.inventory)
    && IsInventory(t.state, listing, t.inventory) && Honest(t.state, scopes, listing)
  }

  lemma PlannedInScope(t: Task, scopes: set<ScopeId>, listing: map<ResourceKey, Listing>, key: ResourceKey)
    requires IsHonestTask(t, scopes, listing) && key in t.plan
    ensures InScope(scopes, key.scope)
  {
  }

  lemma HonestPlan(t: Task, scopes: set<ScopeId>, listing: map<ResourceKey, Listing>, key: ResourceKey)
    requires IsHonestTask(t, scopes, listing) && key in t.plan && HashRecorded(t.state, key)
    ensures t.PlannedFor(key) == Observed(t.SlotOf(key))
    ensures t.plan[key] == PlanOf(t.crdt, t.state, t.KindFor(key), key)
  {
    PlannedInScope(t, scopes, listing, key);
    HonestStates(t.state, scopes, listing, t.inventory, key);
    BuiltPlanIsPlanFor(t.crdt, t.state, t.kinds, scopes, t.inventory, key);
  }

  // ---- What the baselines record ----

  /** A carried-out operation leaves the file's hash in the baseline, unless it wrote the
      text of a first head that is not the merge. */
  lemma CarriedRecordsHashIff(crdt: Crdt, r: Replica, r': Replica, kind: ResourceKind, key: ResourceKey)
    requires HashRecorded(r, key) && Carried(crdt, r, r', kind, key, PlanOf(crdt, r, kind, key))
    ensures var op := PlanOf(crdt, r, kind, key);
            && (op.Download? ==> Heads(r.commits, key) != {})
            && (HashRecorded(r', key) <==> (op.Download? ==> FirstHeadIsMerge(crdt, r.commits, key)))
  {
    var op, slot := PlanOf(crdt, r, kind, key), r.SlotOf(key);
    if op.Publishes() {
      var c, chunks, token :| Publishes(crdt, r, r', kind, key, op, c, chunks, token);
      PublishedRecordsHash(crdt, r, kind, key, op, c, chunks, token);
    } else {
      var bytes, left, token :| Applies(crdt, r, r', kind, key, op, bytes, left, token);
      if op.Download? {
        AfterDownload(crdt, r, kind, key, Observed(slot), bytes, left, token);
        DownloadIsOfRemoteState(crdt, r, kind, key, Observed(slot));
        DownloadedHash(crdt, r.commits, key, bytes);
      } else {
        AppliedRecordsHash(crdt, r, kind, key, bytes, left, token);
      }
    }
  }

  lemma PublishedRecordsHash(
    crdt: Crdt, r: Replica, kind: ResourceKind, key: ResourceKey, op: PlanOperation, c: Commit, chunks: seq<Digest>,
    token: Token)
    requires op.Publishes() && Publishes(crdt, r, AfterCommit(crdt, r, Observed(r.SlotOf(key)), c, token), kind, key,
      op, c, chunks, token)
    ensures HashRecorded(AfterCommit(crdt, r, Observed(r.SlotOf(key)), c, token), key)
  {
  }

  lemma AppliedRecordsHash(
    crdt: Crdt, r: Replica, kind: ResourceKind, key: ResourceKey, bytes: Bytes, left: Slot, token: Token)
    requires HashRecorded(r, key) && !left.File? && !PlanOf(crdt, r, kind, key).Download?
    ensures HashRecorded(ApplyOperation(r, kind, PlanOf(crdt, r, kind, key), Observed(r.SlotOf(key)), bytes, left,
      token), key)
  {
    var op, local := PlanOf(crdt, r, kind, key), Observed(r.SlotOf(key));
    assert op.Key() == key && (op.EstablishBaseline? ==> op.local == local);
    OperationRecordsHash(r, kind, key, op, bytes, left, token);
  }

  lemma OperationRecordsHash(
    r: Replica, kind: ResourceKind, key: ResourceKey, op: PlanOperation, bytes: Bytes, left: Slot, token: Token)
    requires HashRecorded(r, key) && !left.File? && !op.Download?
    requires op.Key() == key && (op.EstablishBaseline? ==> op.local == Observed(r.SlotOf(key)))
    ensures HashRecorded(ApplyOperation(r, kind, op, Observed(r.SlotOf(key)), bytes, left, token), key)
  {
  }

  /** A whole reconcile keeps the hashes recorded, except where it downloaded the text of
      a first head that is not the merge. */
  lemma ReconcileRecordsHashesIff(
    t: Task, s: Replica, indexes: Indexes, failed: set<ResourceKey>, scopes: set<ScopeId>,
    listing: map<ResourceKey, Listing>, key: ResourceKey)
    requires IsHonestTask(t, scopes, listing) && ExecutesPlan(t, scopes, s, indexes, failed)
    requires SameResource(t.state.commits) && SameResource(s.commits) && HashRecorded(t.state, key)
    ensures var downloaded := key in t.plan && key !in failed && t.plan[key].Download?;
            && (downloaded ==> Heads(t.state.commits, key) != {})
            && (HashRecorded(s, key) <==> (downloaded ==> FirstHeadIsMerge(t.crdt, t.state.commits, key)))
  {
    if key in t.plan && key !in failed {
      HonestPlan(t, scopes, listing, key);
      var r' := OutcomeIsCarried(t, s, indexes, key);
      CarriedRecordsHashIff(t.crdt, t.state, r', t.KindFor(key), key);
      SameViewSameHash(r', s, key);
    } else {
      if key in t.plan {
        assert HasOutcome(t, s, indexes, key, true);
      }
      SameViewSameHash(t.state, s, key);
    }
  }

  /** What a reconcile has settled it has acknowledged at the heads known afterwards, and the
      baseline holds the version of the file as it is now, or says that there is none. */
  lemma SettledBaselineIsCurrent(
    t: Task, s: Replica, indexes: Indexes, failed: set<ResourceKey>, scopes: set<ScopeId>,
    listing: map<ResourceKey, Listing>, key: ResourceKey)
    requires IsHonestTask(t, scopes, listing) && ExecutesPlan(t, scopes, s, indexes, failed)
    requires SameResource(t.state.commits) && SameResource(s.commits) && HashRecorded(t.state, key)
    requires key in t.plan && key !in failed && !t.plan[key].Conflict? && !t.plan[key].Noop?
    ensures HasBaseline(s, key, Heads(s.commits, key))
  {
    HonestPlan(t, scopes, listing, key);
    var r' := OutcomeIsCarried(t, s, indexes, key);
    BaselineIsOfTheKnownHeads(t.crdt, t.state, r', t.KindFor(key), key);
    SameViewSameBaseline(t.crdt, r', s, key);
  }

  /** For a text that was in step, uploaded or downloaded the recorded document is everything
      known of it, so the next edit is made against the whole of it. */
  lemma SettledTextHasItsDocument(
    t: Task, s: Replica, indexes: Indexes, failed: set<ResourceKey>, scopes: set<ScopeId>,
    listing: map<ResourceKey, Listing>, key: ResourceKey)
    requires IsHonestTask(t, scopes, listing) && ExecutesPlan(t, scopes, s, indexes, failed)
    requires SameResource(t.state.commits) && SameResource(s.commits) && HashRecorded(t.state, key)
    requires key in t.plan && key !in failed && t.KindFor(key) == Text
    requires var op := t.plan[key];
             op.EstablishBaseline? || op.Upload?
               || (op.Download? && AllDeltas(t.state.commits, Heads(t.state.commits, key)))
    ensures key in s.baselines && key in s.texts && s.texts[key] == TextDoc(s.commits, key)
  {
    HonestPlan(t, scopes, listing, key);
    var r' := OutcomeIsCarried(t, s, indexes, key);
    BaseIsTheDocument(t.crdt, t.state, r', key);
    RemoteStateFrame(t.crdt, r'.commits, s.commits, key);
    assert ViewOf(s, key).text == ViewOf(r', key).text && r'.BaselineOf(key) == s.BaselineOf(key);
  }

  /** What a reconcile does not plan, and what fails, keeps its file, its baseline, its
      document and its commits. */
  lemma OthersStay(
    t: Task, s: Replica, indexes: Indexes, failed: set<ResourceKey>, scopes: set<ScopeId>, key: ResourceKey)
    requires ExecutesPlan(t, scopes, s, indexes, failed) && (key in failed || key !in t.plan)
    ensures s.SlotOf(key) == t.state.SlotOf(key) && s.BaselineOf(key) == t.state.BaselineOf(key)
    ensures key in s.texts <==> key in t.state.texts
    ensures key in s.texts ==> s.texts[key] == t.state.texts[key]
    ensures ResourceCommits(s.commits, key) == ResourceCommits(t.state.commits, key)
  {
    assert ViewOf(s, key) == ViewOf(t.state, key);
  }

  lemma SameViewSameBaseline(crdt: Crdt, a: Replica, b: Replica, key: ResourceKey)
    requires ViewOf(a, key) == ViewOf(b, key)
    ensures HasBaseline(a, key, Heads(a.commits, key)) <==> HasBaseline(b, key, Heads(b.commits, key))
  {
    RemoteStateFrame(crdt, a.commits, b.commits, key);
  }

  lemma SameViewSameHash(a: Replica, b: Replica, key: ResourceKey)
    requires ViewOf(a, key) == ViewOf(b, key)
    ensures HashRecorded(a, key) <==> HashRecorded(b, key)
  {
  }

  // ---- The second reconcile ----

  /** When the refresh of a second reconcile brings nothing new about a resource and nobody
      touched its file, a conflict is reported again and everything else is settled. The
      one exception: the first reconcile downloaded a text whose first head is not the
      merge, and the host computes the hash itself; then the second uploads that text. */
  lemma UndisturbedReconcileIsQuiet(
    t: Task, s: Replica, indexes: Indexes, failed: set<ResourceKey>, t': Task, scopes: set<ScopeId>,
    listing: map<ResourceKey, Listing>, listing': map<ResourceKey, Listing>, key: ResourceKey)
    requires IsHonestTask(t, scopes, listing) && ExecutesPlan(t, scopes, s, indexes, failed)
    requires IsHonestTask(t', scopes, listing') && t'.crdt == t.crdt && t'.KindFor(key) == t.KindFor(key)
    requires ViewOf(t'.state, key) == ViewOf(s, key) && HashRecorded(t.state, key)
    requires key in t.plan && key !in failed && key in t'.plan
    requires SameResource(t.state.commits) && SameResource(s.commits) && SameResource(t'.state.commits)
    ensures var op, op' := t.plan[key], t'.plan[key];
            var hashed := key in listing' && listing'[key].ListedPresent? && listing'[key].contentId.Some?;
            && (op.Download? ==> Heads(t.state.commits, key) != {})
            && if op.Conflict? then op' == op
               else if op.Download? && hashed && !FirstHeadIsMerge(t.crdt, t.state.commits, key) then op'.Upload?
               else op'.Settled()
  {
    HonestPlan(t, scopes, listing, key);
    if t.plan[key].Download? {
      DownloadedResource(t, s, indexes, t', scopes, listing', key);
    } else {
      ReconcileRecordsHashesIff(t, s, indexes, failed, scopes, listing, key);
      SameViewSameHash(t'.state, s, key);
      HonestPlan(t', scopes, listing', key);
      ExecutedResourceIsQuiet(t, s, indexes, key);
      SameViewSamePlan(t.crdt, s, t'.state, t.KindFor(key), key, Observed(s.SlotOf(key)));
    }
  }

  /** Where no text has several heads the exception is gone: whoever hashes the file, the
      second reconcile repeats a conflict or settles. */
  lemma SingleHeadReconcileIsQuiet(
    t: Task, s: Replica, indexes: Indexes, failed: set<ResourceKey>, t': Task, scopes: set<ScopeId>,
    listing: map<ResourceKey, Listing>, listing': map<ResourceKey, Listing>, key: ResourceKey, rank: map<CommitId, nat>)
    requires IsHonestTask(t, scopes, listing) && ExecutesPlan(t, scopes, s, indexes, failed)
    requires IsHonestTask(t', scopes, listing') && t'.crdt == t.crdt && t'.KindFor(key) == t.KindFor(key)
    requires ViewOf(t'.state, key) == ViewOf(s, key) && HashRecorded(t.state, key)
    requires key in t.plan && key !in failed && key in t'.plan
    requires SameResource(t.state.commits) && SameResource(s.commits) && SameResource(t'.state.commits)
    requires Ranked(t.state.commits, rank) && NoForkedText(t.state.commits, key)
    ensures if t.plan[key].Conflict? then t'.plan[key] == t.plan[key] else t'.plan[key].Settled()
  {
    UndisturbedReconcileIsQuiet(t, s, indexes, failed, t', scopes, listing, listing', key);
    if t.plan[key].Download? {
      UnforkedFirstHeadIsMerge(t.crdt, t.state.commits, rank, key);
    }
  }

  lemma DownloadedResource(
    t: Task, s: Replica, indexes: Indexes, t': Task, scopes: set<ScopeId>, listing': map<ResourceKey, Listing>,
    key: ResourceKey)
    requires key in t.plan && HasOutcome(t, s, indexes, key, false) && t.plan[key].Download?
    requires t.plan[key] == PlanOf(t.crdt, t.state, t.KindFor(key), key) && t.PlannedFor(key) == Observed(t.SlotOf(key))
    requires IsHonestTask(t', scopes, listing') && t'.crdt == t.crdt && t'.KindFor(key) == t.KindFor(key)
    requires ViewOf(t'.state, key) == ViewOf(s, key) && key in t'.plan
    requires SameResource(t.state.commits) && SameResource(s.commits)
    ensures Heads(t.state.commits, key) != {} && key in listing' && listing'[key].ListedPresent?
    ensures var op' := t'.plan[key];
            if listing'[key].contentId.None? || FirstHeadIsMerge(t.crdt, t.state.commits, key)
              then op'.EstablishBaseline?
            else op'.Upload?
  {
    var r' := OutcomeIsCarried(t, s, indexes, key);
    var local, kind := Observed(t.SlotOf(key)), t.KindFor(key);
    var bytes, left, token :| Applies(t.crdt, t.state, r', kind, key, t.plan[key], bytes, left, token);
    AfterDownload(t.crdt, t.state, kind, key, local, bytes, left, token);
    DownloadIsOfRemoteState(t.crdt, t.state, kind, key, local);
    DownloadIsListed(t', scopes, listing', key, bytes, token);
    DownloadSettlesIff(t.crdt, t.state, kind, key, local, bytes, left, token, listing'[key]);
    SameViewSamePlan(t.crdt, r', t'.state, kind, key, StateIn(t'.inventory, key));
  }

  /** The planner is told of the downloaded file, and plans it in that state. */
  lemma DownloadIsListed(
    t: Task, scopes: set<ScopeId>, listing: map<ResourceKey, Listing>, key: ResourceKey, bytes: Bytes, token: Token)
    requires IsHonestTask(t, scopes, listing) && key in t.plan && t.SlotOf(key) == File(bytes, token)
    ensures key in listing && listing[key].ListedPresent? && Describes(listing[key], File(bytes, token))
    ensures InventoryState(listing[key], t.state.BaselineOf(key), t.SlotOf(key)) == Some(StateIn(t.inventory, key))
    ensures t.plan[key] == PlanFor(t.crdt, t.state, t.KindFor(key), key, StateIn(t.inventory, key))
  {
    PlannedInScope(t, scopes, listing, key);
    assert Shows(listing[key], t.SlotOf(key));
    BuiltPlanIsPlanFor(t.crdt, t.state, t.kinds, scopes, t.inventory, key);
  }

  // ---- Resolving what was recorded ----

  /** The listing shows the resource as it is, and its hash is given or recorded. */
  ghost predicate ShowsTruly(r: Replica, listing: map<ResourceKey, Listing>, key: ResourceKey) {
    && (if key in listing then Shows(listing[key], r.SlotOf(key)) else r.SlotOf(key).Absent?)
    && (key in listing && listing[key].ListedPresent? && listing[key].contentId.None? ==> HashRecorded(r, key))
  }

  lemma SeenIsObserved(r: Replica, listing: map<ResourceKey, Listing>, key: ResourceKey)
    requires ShowsTruly(r, listing, key)
    ensures Seen(r, listing, key).Some? ==> Seen(r, listing, key).value == Observed(r.SlotOf(key))
  {
    if key in listing {
      ListedStateIsObservedIff(r, key, listing[key]);
    }
  }

  /** A resolution that goes through found the file of the record, version and content, so
      whatever it replaces or removes is the file the conflict was recorded for. */
  lemma ResolvedFileIsTheRecorded(
    crdt: Crdt, r: Replica, r': Replica, indexes: Indexes, kind: ResourceKind, record: ConflictRecord, choice: Choice,
    listing: map<ResourceKey, Listing>, c: Commit)
    requires ShowsTruly(r, listing, record.resource)
    requires Resolves(crdt, r, r', indexes, kind, record, choice, Seen(r, listing, record.resource), c, Done)
    ensures Heads(r.commits, record.resource) == record.remoteHeads
    ensures match r.SlotOf(record.resource)
            case Absent => record.local.LocalMissing?
            case Tombstone(version) => record.local == LocalDeleted(version)
            case File(data, version) =>
              record.local.LocalPresent? && record.local.version == version && record.local.contentId == Digest(data)
  {
    SeenIsObserved(r, listing, record.resource);
  }

  /** A file whose version or content is no longer the recorded one stays as it is, with
      its baseline and all commits, and the record goes unless the inventory fails. */
  lemma ChangedFileIsKept(
    crdt: Crdt, r: Replica, r': Replica, indexes: Indexes, kind: ResourceKind, record: ConflictRecord, choice: Choice,
    listing: map<ResourceKey, Listing>, c: Commit, outcome: Outcome)
    requires ShowsTruly(r, listing, record.resource)
    requires Resolves(crdt, r, r', indexes, kind, record, choice, Seen(r, listing, record.resource), c, outcome)
    requires var now := Observed(r.SlotOf(record.resource));
             now.VersionToken() != record.local.VersionToken() || now.ContentId() != record.local.ContentId()
    ensures r' == r
    ensures Seen(r, listing, record.resource).Some? ==> outcome == Stale
  {
    SeenIsObserved(r, listing, record.resource);
  }

  // ---- Forks ----

  /** While two heads are unlike, such as a tombstone beside content, a reconcile leaves
      everything of the resource as it is and lists it as a fork with all heads, whatever
      the host listed and whatever the replica held. */
  lemma ForkedResourceIsLeftAlone(
    t: Task, s: Replica, indexes: Indexes, failed: set<ResourceKey>, scopes: set<ScopeId>,
    conflicts: set<ConflictRecord>, key: ResourceKey, g: CommitId, h: CommitId)
    requires ExecutesPlan(t, scopes, s, indexes, failed) && InScope(scopes, key.scope)
    requires g in Heads(t.state.commits, key) && h in Heads(t.state.commits, key)
    requires g in t.state.commits && h in t.state.commits
      && Unlike(t.state.commits[g].change, t.state.commits[h].change)
    ensures ViewOf(s, key) == ViewOf(t.state, key)
    ensures ConflictRecord(key, RemoteFork, t.PlannedFor(key), Heads(t.state.commits, key))
            in RecordedConflicts(conflicts, scopes, t.plan)
  {
    KnownResourceIsPlanned(t.crdt, t.state, t.kinds, scopes, t.inventory, g);
    HeadsMeaning(t.state.commits, key, g);
    BuiltPlanIsPlanFor(t.crdt, t.state, t.kinds, scopes, t.inventory, key);
    UnlikeHeadsAreAConflict(t.crdt, t.state, t.KindFor(key), key, t.PlannedFor(key), g, h);
    ConflictChangesNothing(t, s, indexes, failed, key);
  }

  lemma KnownResourceIsPlanned(
    crdt: Crdt, r: Replica, kinds: map<ResourceKey, ResourceKind>, scopes: set<ScopeId>,
    inventory: map<ResourceKey, ReplicaState>, id: CommitId)
    requires id in r.commits && InScope(scopes, r.commits[id].resource.scope)
    ensures r.commits[id].resource in BuildPlan(crdt, r, kinds, scopes, inventory)
  {
    assert r.commits[id].resource in RemotePairs(crdt, r.commits, scopes);
  }

  lemma ConflictChangesNothing(t: Task, s: Replica, indexes: Indexes, failed: set<ResourceKey>, key: ResourceKey)
    requires key in t.plan && t.plan[key].Conflict? && Progress(t, s, indexes, t.plan.Keys, failed)
    ensures ViewOf(s, key) == ViewOf(t.state, key)
  {
    assert HasOutcome(t, s, indexes, key, key in failed);
  }

  // ---- What a reconcile may overwrite ----

  /** The file is what the client and the remote last agreed on. */
  predicate IsAcknowledged(r: Replica, key: ResourceKey, data: Bytes) {
    var baseline := r.BaselineOf(key);
    baseline.Some? && baseline.value.BaselinePresent? && baseline.value.contentId == Digest(data)
  }

  /** The file went into a commit that is new in `m`: a binary as it was, a text as the
      edit that leads to it. */
  ghost predicate IsPublishedEdit(t: Task, m: CommitMap, key: ResourceKey, data: Bytes) {
    exists id, chunks :: id in m && id !in t.state.commits && m[id].resource == key
                         && m[id].change == UploadChange(t.crdt, t.state, key, t.KindFor(key), data, chunks)
  }

  /** A reconcile takes away or replaces a file only if it is the acknowledged one or was
      published on the way, be it binary or text. */
  lemma ReconcileOverwritesOnlyWhatIsPublished(
    t: Task, s: Replica, indexes: Indexes, failed: set<ResourceKey>, scopes: set<ScopeId>,
    listing: map<ResourceKey, Listing>, key: ResourceKey)
    requires IsHonestTask(t, scopes, listing) && ExecutesPlan(t, scopes, s, indexes, failed)
    requires SameResource(t.state.commits) && SameResource(s.commits) && HashRecorded(t.state, key)
    requires t.SlotOf(key).File? && s.SlotOf(key) != t.SlotOf(key)
    ensures IsAcknowledged(t.state, key, t.SlotOf(key).data) || IsPublishedEdit(t, s.commits, key, t.SlotOf(key).data)
  {
    assert ViewOf(s, key) != ViewOf(t.state, key);
    HonestPlan(t, scopes, listing, key);
    var op, kind := t.plan[key], t.KindFor(key);
    var r' := OutcomeIsCarried(t, s, indexes, key);
    if op.Publishes() {
      PublishedOnTheWay(t, r', key);
      SameCommitsSameEdit(t, r'.commits, s.commits, key);
    } else {
      var bytes, left, token :| Applies(t.crdt, t.state, r', kind, key, op, bytes, left, token);
      OnlyTheBaselineIsOverwritten(t.crdt, t.state, kind, key, bytes, left, token);
    }
  }

  /** A publication touches the file only when it merges a text. */
  lemma PublishedOnTheWay(t: Task, r': Replica, key: ResourceKey)
    requires key in t.plan && t.plan[key].Publishes() && t.SlotOf(key).File? && r'.SlotOf(key) != t.SlotOf(key)
    requires Carried(t.crdt, t.state, r', t.KindFor(key), key, t.plan[key])
    ensures IsPublishedEdit(t, r'.commits, key, t.SlotOf(key).data)
  {
    var op := t.plan[key];
    var c, chunks, token :| Publishes(t.crdt, t.state, r', t.KindFor(key), key, op, c, chunks, token);
    AfterCommitRemembers(t.crdt, t.state, Observed(t.SlotOf(key)), c, token);
    assert c.change.TextDelta?;
    assert r'.commits[c.id].change == UploadChange(t.crdt, t.state, key, t.KindFor(key), t.SlotOf(key).data, chunks);
  }

  lemma SameCommitsSameEdit(t: Task, m: CommitMap, n: CommitMap, key: ResourceKey)
    requires t.SlotOf(key).File? && IsPublishedEdit(t, m, key, t.SlotOf(key).data)
    requires ResourceCommits(m, key) == ResourceCommits(n, key)
    ensures IsPublishedEdit(t, n, key, t.SlotOf(key).data)
  {
    var data := t.SlotOf(key).data;
    var id, chunks :| id in m && id !in t.state.commits && m[id].resource == key
                      && m[id].change == UploadChange(t.crdt, t.state, key, t.KindFor(key), data, chunks);
    assert id in ResourceCommits(n, key) && ResourceCommits(n, key)[id] == ResourceCommits(m, key)[id];
    assert n[id] == m[id];
  }

  lemma OnlyTheBaselineIsOverwritten(
    crdt: Crdt, r: Replica, kind: ResourceKind, key: ResourceKey, bytes: Bytes, left: Slot, token: Token)
    requires var op := PlanOf(crdt, r, kind, key);
             r.SlotOf(key).File?
             && ApplyOperation(r, kind, op, Observed(r.SlotOf(key)), bytes, left, token).SlotOf(key) != r.SlotOf(key)
    ensures IsAcknowledged(r, key, r.SlotOf(key).data)
  {
    var op := PlanOf(crdt, r, kind, key);
    assert op.Download? || op.ApplyDelete?;
    OverwritesOnlyTheBaseline(key, Observed(r.SlotOf(key)), r.BaselineOf(key), RemoteState(crdt, r.commits, key));
  }
}
