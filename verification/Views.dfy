/** The part of a replica one resource is about, and what a whole `execute` does to it. */
module Views {
  import opened Types
  import opened Core
  import opened CommitGraph
  import opened ChunkStore
  import opened Execution
  import opened Convergence

  datatype View = View(slot: Slot, baseline: Option<BaselineState>, text: Option<set<TextItem>>, commits: CommitMap)

  function ViewOf(r: Replica, key: ResourceKey): View {
    View(r.SlotOf(key), r.BaselineOf(key), if key in r.texts then Some(r.texts[key]) else None,
         ResourceCommits(r.commits, key))
  }

  /** Planning a resource depends on its view alone. */
  lemma SameViewSamePlan(crdt: Crdt, a: Replica, b: Replica, kind: ResourceKind, key: ResourceKey, local: ReplicaState)
    requires ViewOf(a, key) == ViewOf(b, key)
    ensures PlanFor(crdt, a, kind, key, local) == PlanFor(crdt, b, kind, key, local)
  {
    RemoteStateFrame(crdt, a.commits, b.commits, key);
  }

  // ---- Publishing ----

  /** Publishing for a resource depends on its view alone. */
  lemma AfterCommitView(crdt: Crdt, r: Replica, s: Replica, planned: ReplicaState, c: Commit, token: Token)
    requires ViewOf(r, c.resource) == ViewOf(s, c.resource) && c.id !in r.commits && c.id !in s.commits
    ensures ViewOf(AfterCommit(crdt, r, planned, c, token), c.resource)
            == ViewOf(AfterCommit(crdt, s, planned, c, token), c.resource)
  {
    CommitsAgree(crdt, r.commits, s.commits, c);
    match c.change
    case Delete => SnapshotCommitView(crdt, r, s, planned, c, token);
    case BinarySnapshot(contentId, _, _) => SnapshotCommitView(crdt, r, s, planned, c, token);
    case TextDelta(_) => TextCommitView(crdt, r, s, planned, c, token);
  }

  lemma CommitsAgree(crdt: Crdt, m: CommitMap, n: CommitMap, c: Commit)
    requires ResourceCommits(m, c.resource) == ResourceCommits(n, c.resource) && c.id !in m && c.id !in n
    ensures ResourceCommits(m[c.id := c], c.resource) == ResourceCommits(n[c.id := c], c.resource)
    ensures Heads(m[c.id := c], c.resource) == Heads(n[c.id := c], c.resource)
    ensures TextDoc(m[c.id := c], c.resource) == TextDoc(n[c.id := c], c.resource)
  {
    assert ResourceCommits(m[c.id := c], c.resource) == ResourceCommits(m, c.resource)[c.id := c];
    assert ResourceCommits(n[c.id := c], c.resource) == ResourceCommits(n, c.resource)[c.id := c];
    RemoteStateFrame(crdt, m[c.id := c], n[c.id := c], c.resource);
  }

  lemma SnapshotCommitView(crdt: Crdt, r: Replica, s: Replica, planned: ReplicaState, c: Commit, token: Token)
    requires ViewOf(r, c.resource) == ViewOf(s, c.resource) && !c.change.TextDelta?
    requires ResourceCommits(r.commits[c.id := c], c.resource) == ResourceCommits(s.commits[c.id := c], c.resource)
    requires Heads(r.commits[c.id := c], c.resource) == Heads(s.commits[c.id := c], c.resource)
    ensures ViewOf(AfterCommit(crdt, r, planned, c, token), c.resource)
            == ViewOf(AfterCommit(crdt, s, planned, c, token), c.resource)
  {
    var heads := Heads(r.commits[c.id := c], c.resource);
    var b := if c.change.Delete? then BaselineDeleted(heads)
             else BaselinePresent(c.change.contentId, planned.VersionToken().GetOr(0), heads);
    BaselineView(r.(commits := r.commits[c.id := c]), s.(commits := s.commits[c.id := c]), c.resource, b);
  }

  lemma TextCommitView(crdt: Crdt, r: Replica, s: Replica, planned: ReplicaState, c: Commit, token: Token)
    requires ViewOf(r, c.resource) == ViewOf(s, c.resource) && c.change.TextDelta?
    requires ResourceCommits(r.commits[c.id := c], c.resource) == ResourceCommits(s.commits[c.id := c], c.resource)
    requires Heads(r.commits[c.id := c], c.resource) == Heads(s.commits[c.id := c], c.resource)
    requires TextDoc(r.commits[c.id := c], c.resource) == TextDoc(s.commits[c.id := c], c.resource)
    ensures ViewOf(AfterCommit(crdt, r, planned, c, token), c.resource)
            == ViewOf(AfterCommit(crdt, s, planned, c, token), c.resource)
  {
    var key, m, n := c.resource, r.commits[c.id := c], s.commits[c.id := c];
    var doc := TextDoc(m, key);
    if Matches(r.SlotOf(key), planned) {
      WriteView(r.(commits := m), s.(commits := n), key, File(crdt.content(doc), token), doc,
                BaselinePresent(Digest(crdt.content(doc)), token, Heads(m, key)));
    }
  }

  lemma BaselineView(r: Replica, s: Replica, key: ResourceKey, b: BaselineState)
    requires r.SlotOf(key) == s.SlotOf(key) && ResourceCommits(r.commits, key) == ResourceCommits(s.commits, key)
    requires (key in r.texts <==> key in s.texts) && (key in r.texts ==> r.texts[key] == s.texts[key])
    ensures ViewOf(r.WithBaseline(key, b), key) == ViewOf(s.WithBaseline(key, b), key)
  {
  }

  lemma WriteView(r: Replica, s: Replica, key: ResourceKey, slot: Slot, doc: set<TextItem>, b: BaselineState)
    requires ResourceCommits(r.commits, key) == ResourceCommits(s.commits, key)
    ensures ViewOf(r.WithSlot(key, slot).(texts := r.texts[key := doc]).WithBaseline(key, b), key)
            == ViewOf(s.WithSlot(key, slot).(texts := s.texts[key := doc]).WithBaseline(key, b), key)
  {
  }

  /** Publishing for a resource changes the view of no other. */
  lemma AfterCommitElsewhere(crdt: Crdt, r: Replica, planned: ReplicaState, c: Commit, token: Token, other: ResourceKey)
    requires c.resource != other && c.id !in r.commits
    ensures ViewOf(AfterCommit(crdt, r, planned, c, token), other) == ViewOf(r, other)
  {
    var r' := AfterCommit(crdt, r, planned, c, token);
    AfterCommitWritesOwn(crdt, r, planned, c, token, other);
    assert ResourceCommits(r.commits[c.id := c], other) == ResourceCommits(r.commits, other);
  }

  lemma AfterCommitWritesOwn(crdt: Crdt, r: Replica, planned: ReplicaState, c: Commit, token: Token, other: ResourceKey)
    requires c.resource != other
    ensures var r' := AfterCommit(crdt, r, planned, c, token);
            && r'.commits == r.commits[c.id := c]
            && r'.SlotOf(other) == r.SlotOf(other) && r'.BaselineOf(other) == r.BaselineOf(other)
            && (other in r'.texts <==> other in r.texts) && (other in r.texts ==> r'.texts[other] == r.texts[other])
  {
    match c.change
    case Delete =>
    case BinarySnapshot(_, _, _) =>
    case TextDelta(_) =>
  }

  // ---- The other operations ----

  lemma ApplyElsewhere(
    r: Replica, kind: ResourceKind, op: PlanOperation, planned: ReplicaState, bytes: Bytes, left: Slot, token: Token,
    other: ResourceKey)
    requires op.Key() != other
    ensures ViewOf(ApplyOperation(r, kind, op, planned, bytes, left, token), other) == ViewOf(r, other)
  {
    match op
    case Download(_, _) =>
    case EstablishBaseline(_, _, _) =>
    case ApplyDelete(_, _, _) =>
    case EstablishDeletedBaseline(_, _) =>
    case _ =>
  }

  /** What an operation does to its resource depends on the resource's view alone. */
  lemma ApplyView(
    crdt: Crdt, r: Replica, s: Replica, kind: ResourceKind, op: PlanOperation, planned: ReplicaState,
    bytes: Bytes, left: Slot, token: Token)
    requires ViewOf(r, op.Key()) == ViewOf(s, op.Key())
    requires op.Download? && op.remote.RemotePresent? ==> op.remote.heads <= ResourceCommits(r.commits, op.Key()).Keys
    ensures ViewOf(ApplyOperation(r, kind, op, planned, bytes, left, token), op.Key())
            == ViewOf(ApplyOperation(s, kind, op, planned, bytes, left, token), op.Key())
  {
    RemoteStateFrame(crdt, r.commits, s.commits, op.Key());
    match op
    case Download(key, remote) =>
      if remote.RemotePresent? && remote.heads != {} {
        SameCommit(r.commits, s.commits, key, First(remote.heads));
      }
      DownloadView(r, s, kind, key, remote, planned, bytes, left, token);
    case EstablishBaseline(key, local, heads) => EstablishView(r, s, kind, key, local, heads, planned, bytes, left,
      token);
    case ApplyDelete(key, local, heads) => DeleteView(r, s, kind, key, local, heads, planned, bytes, left, token);
    case EstablishDeletedBaseline(key, heads) => BaselineView(r, s, key, BaselineDeleted(heads));
    case _ =>
  }

  lemma SameCommit(m: CommitMap, n: CommitMap, key: ResourceKey, id: CommitId)
    requires ResourceCommits(m, key) == ResourceCommits(n, key) && id in ResourceCommits(m, key)
    ensures id in m && id in n && m[id] == n[id]
  {
    assert ResourceCommits(m, key)[id] == ResourceCommits(n, key)[id];
  }

  lemma EstablishView(
    r: Replica, s: Replica, kind: ResourceKind, key: ResourceKey, local: ReplicaState, heads: set<CommitId>,
    planned: ReplicaState, bytes: Bytes, left: Slot, token: Token)
    requires ViewOf(r, key) == ViewOf(s, key) && TextDoc(r.commits, key) == TextDoc(s.commits, key)
    ensures ViewOf(ApplyOperation(r, kind, EstablishBaseline(key, local, heads), planned, bytes, left, token), key)
            == ViewOf(ApplyOperation(s, kind, EstablishBaseline(key, local, heads), planned, bytes, left, token), key)
  {
  }

  lemma DeleteView(
    r: Replica, s: Replica, kind: ResourceKind, key: ResourceKey, local: ReplicaState, heads: set<CommitId>,
    planned: ReplicaState, bytes: Bytes, left: Slot, token: Token)
    requires ViewOf(r, key) == ViewOf(s, key)
    ensures ViewOf(ApplyOperation(r, kind, ApplyDelete(key, local, heads), planned, bytes, left, token), key)
            == ViewOf(ApplyOperation(s, kind, ApplyDelete(key, local, heads), planned, bytes, left, token), key)
  {
  }

  lemma DownloadView(
    r: Replica, s: Replica, kind: ResourceKind, key: ResourceKey, remote: RemoteResourceState,
    planned: ReplicaState, bytes: Bytes, left: Slot, token: Token)
    requires ViewOf(r, key) == ViewOf(s, key) && TextDoc(r.commits, key) == TextDoc(s.commits, key)
    requires remote.RemotePresent? && remote.heads != {} ==>
      var first := First(remote.heads); first in r.commits && first in s.commits && r.commits[first] == s.commits[first]
    ensures ViewOf(ApplyOperation(r, kind, Download(key, remote), planned, bytes, left, token), key)
            == ViewOf(ApplyOperation(s, kind, Download(key, remote), planned, bytes, left, token), key)
  {
    if Matches(r.SlotOf(key), planned) && remote.RemotePresent? && remote.heads != {} {
      var first := First(remote.heads);
      var b := BaselinePresent(remote.contentId, token, remote.heads);
      DownloadShape(r, kind, key, remote, planned, bytes, left, token);
      DownloadShape(s, kind, key, remote, planned, bytes, left, token);
      if r.commits[first].change.TextDelta? {
        WriteView(r, s, key, File(bytes, token), TextDoc(r.commits, key), b);
      } else {
        SlotView(r, s, key, File(bytes, token), b);
      }
    }
  }

  lemma DownloadShape(
    r: Replica, kind: ResourceKind, key: ResourceKey, remote: RemoteResourceState,
    planned: ReplicaState, bytes: Bytes, left: Slot, token: Token)
    requires Matches(r.SlotOf(key), planned) && remote.RemotePresent? && remote.heads != {}
    requires First(remote.heads) in r.commits
    ensures ApplyOperation(r, kind, Download(key, remote), planned, bytes, left, token) ==
            var r1 := r.WithSlot(key, File(bytes, token));
            var b := BaselinePresent(remote.contentId, token, remote.heads);
            if r.commits[First(remote.heads)].change.TextDelta?
            then r1.(texts := r.texts[key := TextDoc(r.commits, key)]).WithBaseline(key, b) else r1.WithBaseline(key, b)
  {
  }

  lemma SlotView(r: Replica, s: Replica, key: ResourceKey, slot: Slot, b: BaselineState)
    requires ViewOf(r, key) == ViewOf(s, key)
    ensures ViewOf(r.WithSlot(key, slot).WithBaseline(key, b), key) ==
      ViewOf(s.WithSlot(key, slot).WithBaseline(key, b), key)
  {
  }

  // ---- What `execute` is given ----

  /** The state an execution starts in, with the last version token handed out so far, and
      the plan it carries out, with the kinds and inventory the plan was made from and one
      identifier for each commit to come. */
  datatype Task = Task(
    crdt: Crdt, state: Replica, clock: Token, client: ClientId, counter: nat, timestamp: int,
    plan: map<ResourceKey, PlanOperation>, inventory: map<ResourceKey, ReplicaState>,
    kinds: map<ResourceKey, ResourceKind>, ids: map<ResourceKey, CommitId>)
  {
    function KindFor(key: ResourceKey): ResourceKind {
      KindOf(kinds, key)
    }

    function PlannedFor(key: ResourceKey): ReplicaState {
      StateIn(inventory, key)
    }

    function SlotOf(key: ResourceKey): Slot {
      state.SlotOf(key)
    }
  }

  /** The operations of a plan, each filed under its own resource; downloads are of present
      states made of commits of the resource. */
  ghost predicate WellPlanned(plan: map<ResourceKey, PlanOperation>, commits: CommitMap) {
    forall key :: key in plan ==>
      && plan[key].Key() == key
      && (plan[key].Download? ==>
            && plan[key].remote.RemotePresent? && plan[key].remote.heads != {}
            && plan[key].remote.heads <= ResourceCommits(commits, key).Keys)
  }

  // ---- What it makes of one resource ----

  /** The commit made for one planned upload or deletion. */
  ghost predicate IsMade(t: Task, key: ResourceKey, c: Commit, chunks: seq<Digest>)
    requires key in t.plan
  {
    && IsFreshCommit(t.state.commits, key, c)
    && key in t.ids && c.id == t.ids[key] && c.author == t.client && c.timestamp == t.timestamp
    && if t.plan[key].Upload? then
         && t.SlotOf(key).File? && t.PlannedFor(key).VersionToken() == Some(t.SlotOf(key).version)
         && c.change == UploadChange(t.crdt, t.state, key, t.KindFor(key), t.SlotOf(key).data, chunks)
       else t.plan[key].PublishDelete? && c.change.Delete?
  }

  /** An upload is skipped when the file is gone or no longer the planned one. */
  predicate UploadFails(t: Task, key: ResourceKey)
    requires key in t.plan
  {
    && t.plan[key].Upload?
    && !(t.SlotOf(key).File? && t.PlannedFor(key).VersionToken() == Some(t.SlotOf(key).version))
  }

  /** The chunks of the commit, if it names any, can be found. */
  ghost predicate Readable(m: CommitMap, indexes: Indexes, id: CommitId)
    requires id in m
  {
    m[id].change.BinarySnapshot? ==> AllIndexed(indexes, m[id].change.chunkHashes)
  }

  /** The content a download asks for can be read. */
  ghost predicate CanRead(m: CommitMap, indexes: Indexes, key: ResourceKey) {
    && Heads(m, key) != {}
    && var first := First(Heads(m, key));
       first in m && !m[first].change.Delete? && Readable(m, indexes, first)
  }

  /** Exactly when an operation fails. */
  ghost predicate Fails(t: Task, m: CommitMap, indexes: Indexes, key: ResourceKey)
    requires key in t.plan
  {
    match t.plan[key]
    case Upload(_, _) => UploadFails(t, key)
    case Download(_, _) => !CanRead(m, indexes, key) || !Matches(t.SlotOf(key), t.PlannedFor(key))
    case ApplyDelete(_, local, _) => !Matches(t.SlotOf(key), local)
    case _ => false
  }

  /** What `execute` made of one resource: the state after it is `s`. */
  ghost predicate HasOutcome(t: Task, s: Replica, indexes: Indexes, key: ResourceKey, failed: bool)
    requires key in t.plan
  {
    && (failed <==> Fails(t, s.commits, indexes, key))
    && if failed then ViewOf(s, key) == ViewOf(t.state, key)
       else if t.plan[key].Publishes() then exists c, chunks, token :: PublishedAs(t, s, key, c, chunks, token)
       else exists bytes, left: Slot, token :: AppliedAs(t, s, key, bytes, left, token)
  }

  ghost predicate PublishedAs(t: Task, s: Replica, key: ResourceKey, c: Commit, chunks: seq<Digest>, token: Token)
    requires key in t.plan
  {
    && IsMade(t, key, c, chunks)
    && ViewOf(s, key) == ViewOf(AfterCommit(t.crdt, t.state, t.PlannedFor(key), c, token), key)
  }

  /** What a download or a deletion leaves has a version never handed out before. */
  predicate NewTokens(t: Task, key: ResourceKey, left: Slot, token: Token)
    requires key in t.plan
  {
    && (t.plan[key].Download? ==> token > t.clock)
    && (t.plan[key].ApplyDelete? && left.Tombstone? ==> left.version > t.clock)
  }

  ghost predicate AppliedAs(t: Task, s: Replica, key: ResourceKey, bytes: Bytes, left: Slot, token: Token)
    requires key in t.plan
  {
    && !left.File? && NewTokens(t, key, left, token)
    && (t.plan[key].Download? ==>
          && Heads(s.commits, key) != {}
          && IsContentOf(t.crdt, s.commits, key, First(Heads(s.commits, key)), bytes))
    && ViewOf(s, key) ==
       ViewOf(ApplyOperation(t.state, t.KindFor(key), t.plan[key], t.PlannedFor(key), bytes, left, token), key)
  }

  // ---- Progress through a plan ----

  /** Up to the state `s` the resources in `done` were dealt with and no other was touched. */
  ghost predicate Progress(t: Task, s: Replica, indexes: Indexes, done: set<ResourceKey>, failed: set<ResourceKey>) {
    && (forall key :: key in done ==> key in t.plan && HasOutcome(t, s, indexes, key, key in failed))
    && (forall key :: key !in done ==> ViewOf(s, key) == ViewOf(t.state, key))
    && failed <= done
  }

  lemma OutcomeFrame(t: Task, s: Replica, s': Replica, indexes: Indexes, key: ResourceKey, failed: bool)
    requires key in t.plan && HasOutcome(t, s, indexes, key, failed)
    requires s'.commits == s.commits && ViewOf(s', key) == ViewOf(s, key)
    ensures HasOutcome(t, s', indexes, key, failed)
  {
    if !failed {
      if t.plan[key].Publishes() {
        var c, chunks, token :| PublishedAs(t, s, key, c, chunks, token);
        assert PublishedAs(t, s', key, c, chunks, token);
      } else {
        var bytes, left: Slot, token :| AppliedAs(t, s, key, bytes, left, token);
        assert AppliedAs(t, s', key, bytes, left, token);
      }
    }
  }

  lemma ProgressStep(
    t: Task, s: Replica, s': Replica, indexes: Indexes, done: set<ResourceKey>, failed: set<ResourceKey>,
    key: ResourceKey, failedNow: bool)
    requires Progress(t, s, indexes, done, failed) && key in t.plan && key !in done
    requires s'.commits == s.commits && forall other :: other != key ==> ViewOf(s', other) == ViewOf(s, other)
    requires HasOutcome(t, s', indexes, key, failedNow)
    ensures Progress(t, s', indexes, done + {key}, if failedNow then failed + {key} else failed)
  {
    forall other | other in done ensures HasOutcome(t, s', indexes, other, other in failed) {
      OutcomeFrame(t, s, s', indexes, other, other in failed);
    }
  }

  /** One operation applied without failure, seen from the state before the whole run. */
  lemma AppliedOutcome(
    t: Task, s: Replica, s': Replica, indexes: Indexes, key: ResourceKey, bytes: Bytes, left: Slot, token: Token)
    requires key in t.plan && t.plan[key].Key() == key && !t.plan[key].Publishes()
    requires ViewOf(s, key) == ViewOf(t.state, key) && !left.File? && NewTokens(t, key, left, token)
    requires s' == ApplyOperation(s, t.KindFor(key), t.plan[key], t.PlannedFor(key), bytes, left, token)
    requires t.plan[key].Download? && t.plan[key].remote.RemotePresent? ==>
      t.plan[key].remote.heads <= ResourceCommits(s.commits, key).Keys
    requires !Fails(t, s.commits, indexes, key)
    requires t.plan[key].Download? ==> IsContentOf(t.crdt, s.commits, key, First(Heads(s.commits, key)), bytes)
    ensures HasOutcome(t, s', indexes, key, false)
  {
    var op := t.plan[key];
    ApplyView(t.crdt, s, t.state, t.KindFor(key), op, t.PlannedFor(key), bytes, left, token);
    ApplyKeepsCommits(s, t.KindFor(key), op, t.PlannedFor(key), bytes, left, token);
    assert AppliedAs(t, s', key, bytes, left, token);
  }

  lemma AppliedElsewhere(t: Task, s: Replica, key: ResourceKey, bytes: Bytes, left: Slot, token: Token)
    requires key in t.plan && t.plan[key].Key() == key
    ensures var s' := ApplyOperation(s, t.KindFor(key), t.plan[key], t.PlannedFor(key), bytes, left, token);
            s'.commits == s.commits && forall other :: other != key ==> ViewOf(s', other) == ViewOf(s, other)
  {
    ApplyKeepsCommits(s, t.KindFor(key), t.plan[key], t.PlannedFor(key), bytes, left, token);
    forall other | other != key
      ensures ViewOf(ApplyOperation(s, t.KindFor(key), t.plan[key], t.PlannedFor(key), bytes, left, token), other)
              == ViewOf(s, other)
    {
      ApplyElsewhere(s, t.KindFor(key), t.plan[key], t.PlannedFor(key), bytes, left, token, other);
    }
  }

  lemma ApplyKeepsCommits(
    r: Replica, kind: ResourceKind, op: PlanOperation, planned: ReplicaState, bytes: Bytes, left: Slot, token: Token)
    ensures ApplyOperation(r, kind, op, planned, bytes, left, token).commits == r.commits
  {
    match op
    case Download(_, _) =>
    case EstablishBaseline(_, _, _) =>
    case ApplyDelete(_, _, _) =>
    case _ =>
  }

  // ---- Quiescence ----

  /** The content of a commit depends on the commits of its resource alone. */
  lemma ContentFrame(crdt: Crdt, m: CommitMap, n: CommitMap, key: ResourceKey, id: CommitId, bytes: Bytes)
    requires ResourceCommits(m, key) == ResourceCommits(n, key) && SameResource(m) && SameResource(n)
    requires id in ResourceCommits(m, key).Keys && IsContentOf(crdt, m, key, id, bytes)
    ensures IsContentOf(crdt, n, key, id, bytes)
  {
    SameCommit(m, n, key, id);
    if m[id].change.TextDelta? {
      var doc :| IsTextDocAt(m, key, id, doc) && bytes == crdt.content(doc);
      DocFrame(m, n, key, id, doc);
    }
  }

  lemma DocFrame(m: CommitMap, n: CommitMap, key: ResourceKey, id: CommitId, doc: set<TextItem>)
    requires ResourceCommits(m, key) == ResourceCommits(n, key) && SameResource(m) && SameResource(n)
    requires id in ResourceCommits(m, key).Keys && IsTextDocAt(m, key, id, doc)
    ensures IsTextDocAt(n, key, id, doc)
  {
    var commits := ResourceCommits(m, key);
    SameCommit(m, n, key, id);
    forall other | Reaches(commits, id, other) ensures DeltaOf(m, other) == DeltaOf(n, other) {
      if other in m {
        ReachableStaysInResource(m, key, id, other);
      }
      if other in n {
        ReachableStaysInResource(n, key, id, other);
      }
      assert other in m <==> other in commits;
      assert other in n <==> other in ResourceCommits(n, key);
      if other in commits {
        SameCommit(m, n, key, other);
      }
    }
  }

  /** When nothing changed between planning and execution, an outcome without failure is
      the planned operation carried out, as far as the resource is concerned. */
  lemma OutcomeIsCarried(t: Task, s: Replica, indexes: Indexes, key: ResourceKey) returns (r': Replica)
    requires key in t.plan && t.plan[key].Key() == key && HasOutcome(t, s, indexes, key, false)
    requires t.PlannedFor(key) == Observed(t.SlotOf(key))
    requires SameResource(t.state.commits) && SameResource(s.commits)
    ensures Carried(t.crdt, t.state, r', t.KindFor(key), key, t.plan[key]) && ViewOf(r', key) == ViewOf(s, key)
  {
    if t.plan[key].Publishes() {
      var c, chunks, token :| PublishedAs(t, s, key, c, chunks, token);
      r' := AfterCommit(t.crdt, t.state, t.PlannedFor(key), c, token);
      assert Publishes(t.crdt, t.state, r', t.KindFor(key), key, t.plan[key], c, chunks, token);
    } else {
      var bytes, left: Slot, token :| AppliedAs(t, s, key, bytes, left, token);
      r' := AppliedIsCarried(t, s, key, bytes, left, token);
    }
  }

  lemma AppliedIsCarried(
    t: Task, s: Replica, key: ResourceKey, bytes: Bytes, left: Slot, token: Token)
    returns (r': Replica)
    requires key in t.plan && t.plan[key].Key() == key && !t.plan[key].Publishes()
    requires t.PlannedFor(key) == Observed(t.SlotOf(key)) && AppliedAs(t, s, key, bytes, left, token)
    requires SameResource(t.state.commits) && SameResource(s.commits)
    ensures Carried(t.crdt, t.state, r', t.KindFor(key), key, t.plan[key]) && ViewOf(r', key) == ViewOf(s, key)
  {
    var op, kind := t.plan[key], t.KindFor(key);
    r' := ApplyOperation(t.state, kind, op, t.PlannedFor(key), bytes, left, token);
    ApplyKeepsCommits(t.state, kind, op, t.PlannedFor(key), bytes, left, token);
    if op.Download? {
      DownloadedBefore(t.crdt, t.state, s, key, bytes);
    }
    assert Applies(t.crdt, t.state, r', kind, key, op, bytes, left, token);
  }

  /** What was downloaded is also the content the earlier state knew. */
  lemma DownloadedBefore(crdt: Crdt, r: Replica, s: Replica, key: ResourceKey, bytes: Bytes)
    requires ResourceCommits(r.commits, key) == ResourceCommits(s.commits, key)
    requires SameResource(r.commits) && SameResource(s.commits)
    requires Heads(s.commits, key) != {} && IsContentOf(crdt, s.commits, key, First(Heads(s.commits, key)), bytes)
    ensures Heads(r.commits, key) != {} && IsContentOf(crdt, r.commits, key, First(Heads(r.commits, key)), bytes)
  {
    RemoteStateFrame(crdt, s.commits, r.commits, key);
    var first := First(Heads(s.commits, key));
    assert first in Heads(s.commits, key);
    ContentFrame(crdt, s.commits, r.commits, key, first, bytes);
  }

  /** So after an undisturbed `execute` every resource without failure is quiet, except
      after a download whose first head is not the merge. */
  lemma ExecutedResourceIsQuiet(t: Task, s: Replica, indexes: Indexes, key: ResourceKey)
    requires key in t.plan && HasOutcome(t, s, indexes, key, false)
    requires t.plan[key] == PlanOf(t.crdt, t.state, t.KindFor(key), key)
    requires t.PlannedFor(key) == Observed(t.SlotOf(key))
    requires SameResource(t.state.commits) && SameResource(s.commits)
    ensures var op, op' := t.plan[key], PlanOf(t.crdt, s, t.KindFor(key), key);
            && (op.Download? ==> Heads(t.state.commits, key) != {})
            && if op.Conflict? then op' == op
               else op'.Settled() <==> (op.Download? ==> FirstHeadIsMerge(t.crdt, t.state.commits, key))
  {
    var r' := OutcomeIsCarried(t, s, indexes, key);
    ReconciledResourceIsQuiet(t.crdt, t.state, r', t.KindFor(key), key);
    SameViewSamePlan(t.crdt, r', s, t.KindFor(key), key, Observed(s.SlotOf(key)));
  }
}
