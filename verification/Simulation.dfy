/** A reconcile of binary files as a run of the machines whose users edit at any time: what
    is proved about those runs holds of it (`reconcile` in src/runtime.rs). */
module Simulation {
  import opened Types
  import opened Core
  import opened CommitGraph
  import opened ChunkStore
  import opened Execution
  import opened Convergence
  import opened Views
  import opened Refinement
  import M = OnlyCopy

  // ---- Runs of one client's engine ----

  ghost predicate IsTrail(crdt: Crdt, client: ClientId, ws: seq<M.World>, steps: seq<M.Step>) {
    && |ws| == |steps| + 1
    && forall i: nat :: i < |steps| ==>
         M.StepAt(crdt, ws, steps, i) && steps[i].client == client && !steps[i].ByUser()
  }

  ghost predicate Runs(crdt: Crdt, client: ClientId, w: M.World, w': M.World) {
    exists ws, steps :: IsTrail(crdt, client, ws, steps) && ws[0] == w && ws[|ws| - 1] == w'
  }

  lemma RunsNowhere(crdt: Crdt, client: ClientId, w: M.World)
    ensures Runs(crdt, client, w, w)
  {
    assert IsTrail(crdt, client, [w], []);
  }

  lemma RunsOn(crdt: Crdt, client: ClientId, w: M.World, mid: M.World, w': M.World, step: M.Step)
    requires Runs(crdt, client, w, mid) && M.Next(crdt, mid, w', step) && step.client == client && !step.ByUser()
    ensures Runs(crdt, client, w, w')
  {
    var ws, steps :| IsTrail(crdt, client, ws, steps) && ws[0] == w && ws[|ws| - 1] == mid;
    var ws', steps' := ws + [w'], steps + [step];
    forall i: nat | i < |steps'|
      ensures M.StepAt(crdt, ws', steps', i) && steps'[i].client == client && !steps'[i].ByUser()
    {
      if i < |steps| {
        assert M.StepAt(crdt, ws, steps, i) && steps[i].client == client && !steps[i].ByUser();
        assert ws'[i] == ws[i] && ws'[i + 1] == ws[i + 1] && steps'[i] == steps[i];
      }
    }
    assert IsTrail(crdt, client, ws', steps');
  }

  /** The client's machine takes an engine step that publishes nothing. */
  lemma MachineMoves(crdt: Crdt, w: M.World, client: ClientId, m': M.Machine, step: M.Step) returns (w': M.World)
    requires client in w.machines && step.client == client && !step.ByUser() && !step.Join? && !step.Commit?
    requires M.EngineStep(crdt, w.history, w.machines[client], m', step)
    ensures w' == M.World(w.history, w.machines[client := m']) && M.Next(crdt, w, w', step)
  {
    w' := M.World(w.history, w.machines[client := m']);
  }

  // ---- Where the machine stands ----

  /** The resources dealt with look as they end, the others as they began. */
  ghost predicate HasViews(t: Task, s: Replica, r: Replica, done: set<ResourceKey>) {
    forall key :: ViewOf(r, key) == ViewOf(if key in done then s else t.state, key)
  }

  ghost predicate IssuedUpTo(t: Task, issued: set<(ResourceKey, Token)>, done: set<ResourceKey>) {
    forall k, v :: (k, v) in issued ==> v <= t.clock || k in done
  }

  ghost predicate HistoryOf(t: Task, before: CommitMap, history: CommitMap, done: set<ResourceKey>) {
    forall id :: id in history ==> id in before || exists key :: key in done && key in t.ids && id == t.ids[key]
  }

  ghost predicate Underway(t: Task, s: Replica, before: CommitMap, w: M.World, done: set<ResourceKey>) {
    && t.client in w.machines && HistoryOf(t, before, w.history, done)
    && var m := w.machines[t.client];
       && m.phase.Planned? && m.phase.inventory == t.inventory && m.phase.plan == t.plan && m.phase.done == done
       && HasViews(t, s, m.replica, done) && IssuedUpTo(t, m.issued, done)
  }

  /** The task is about binary resources; its identifiers are distinct and new. */
  ghost predicate IsBinaryTask(t: Task, before: CommitMap) {
    && (forall key :: t.KindFor(key) == Binary)
    && (forall key :: key in t.ids ==> t.ids[key] !in before)
    && (forall a, b :: a in t.ids && b in t.ids && t.ids[a] == t.ids[b] ==> a == b)
  }

  /** The operation is filed under its resource and carries the state it was planned for. */
  ghost predicate IsPlanned(t: Task, key: ResourceKey) {
    && key in t.plan && t.plan[key].Key() == key
    && (t.plan[key].Upload? ==> t.plan[key].local == t.PlannedFor(key))
    && (t.plan[key].Download? && t.plan[key].remote.RemotePresent? ==>
          t.plan[key].remote.heads <= ResourceCommits(t.state.commits, key).Keys)
  }

  // ---- Uploads and deletions ----

  lemma ReadOn(t: Task, s: Replica, before: CommitMap, w: M.World, done: set<ResourceKey>, key: ResourceKey)
    returns (w': M.World)
    requires Underway(t, s, before, w, done) && key in t.plan && key !in done && t.plan[key].Upload?
      && t.SlotOf(key).File?
    ensures M.Next(t.crdt, w, w', M.Read(t.client, key)) && Underway(t, s, before, w', done) && w'.history == w.history
    ensures w'.machines[t.client].replica == w.machines[t.client].replica
    ensures key in w'.machines[t.client].phase.contents
    ensures w'.machines[t.client].phase.contents[key] == ResourceContent(t.SlotOf(key).data, t.SlotOf(key).version)
  {
    var m := w.machines[t.client];
    assert ViewOf(m.replica, key) == ViewOf(t.state, key);
    var content := ResourceContent(t.SlotOf(key).data, t.SlotOf(key).version);
    var m' := m.(phase := m.phase.(contents := m.phase.contents[key := content]));
    w' := MachineMoves(t.crdt, w, t.client, m', M.Read(t.client, key));
  }

  /** The replica does not know the commit that is about to be made. */
  lemma NotYetKnown(
    t: Task, s: Replica, r: Replica, done: set<ResourceKey>, key: ResourceKey, c: Commit, chunks: seq<Digest>,
    token: Token)
    requires HasViews(t, s, r, done) && key in t.plan && key !in done && PublishedAs(t, s, key, c, chunks, token)
    ensures c.id !in r.commits
  {
    AfterCommitRemembers(t.crdt, t.state, t.PlannedFor(key), c, token);
    assert c.id in ResourceCommits(t.state.commits[c.id := c], key);
    assert c.id in ResourceCommits(s.commits, key) && s.commits[c.id].resource == key;
    if c.id in r.commits {
      KnownFrom(t, s, r, done, c.id);
    }
  }

  lemma KnownFrom(t: Task, s: Replica, r: Replica, done: set<ResourceKey>, id: CommitId)
    requires HasViews(t, s, r, done) && id in r.commits
    ensures id in t.state.commits || (id in s.commits && s.commits[id].resource in done)
  {
    var key := r.commits[id].resource;
    assert ViewOf(r, key) == ViewOf(if key in done then s else t.state, key);
    assert id in ResourceCommits(r.commits, key);
    if key in done {
      assert id in ResourceCommits(s.commits, key);
    } else {
      assert id in ResourceCommits(t.state.commits, key);
    }
  }

  /** Without text the token of a publication plays no part. */
  lemma TokenIsIdle(crdt: Crdt, r: Replica, planned: ReplicaState, c: Commit, token: Token)
    requires !c.change.TextDelta?
    ensures AfterCommit(crdt, r, planned, c, token) == AfterCommit(crdt, r, planned, c, 0)
  {
  }

  lemma CommittedViews(
    t: Task, s: Replica, r: Replica, done: set<ResourceKey>, key: ResourceKey, c: Commit, chunks: seq<Digest>,
    token: Token)
    requires HasViews(t, s, r, done) && key in t.plan && key !in done && PublishedAs(t, s, key, c, chunks, token)
    requires !c.change.TextDelta?
    ensures c.id !in r.commits
    ensures HasViews(t, s, AfterCommit(t.crdt, r, t.PlannedFor(key), c, 0), done + {key})
  {
    NotYetKnown(t, s, r, done, key, c, chunks, token);
    var planned := t.PlannedFor(key);
    var r' := AfterCommit(t.crdt, r, planned, c, 0);
    assert ViewOf(r, key) == ViewOf(t.state, key);
    AfterCommitView(t.crdt, r, t.state, planned, c, 0);
    TokenIsIdle(t.crdt, t.state, planned, c, token);
    forall k ensures ViewOf(r', k) == ViewOf(if k in done + {key} then s else t.state, k) {
      if k != key {
        AfterCommitElsewhere(t.crdt, r, planned, c, 0, k);
        assert ViewOf(r, k) == ViewOf(if k in done then s else t.state, k);
      }
    }
  }

  lemma CommitOn(
    t: Task, s: Replica, before: CommitMap, w0: M.World, w: M.World, done: set<ResourceKey>, key: ResourceKey,
    c: Commit,
    chunks: seq<Digest>, token: Token)
    returns (w': M.World)
    requires IsBinaryTask(t, before) && IsPlanned(t, key) && t.plan[key].Publishes() && key !in done
    requires Runs(t.crdt, t.client, w0, w) && Underway(t, s, before, w, done)
    requires PublishedAs(t, s, key, c, chunks, token)
    ensures Runs(t.crdt, t.client, w0, w') && Underway(t, s, before, w', done + {key})
  {
    var mid := w;
    if t.plan[key].Upload? {
      mid := ReadOn(t, s, before, w, done, key);
      RunsOn(t.crdt, t.client, w0, w, mid, M.Read(t.client, key));
    }
    w' := CommitRead(t, s, before, mid, done, key, c, chunks, token);
    RunsOn(t.crdt, t.client, w0, mid, w', M.Commit(t.client, key, c));
  }

  lemma CommitRead(
    t: Task, s: Replica, before: CommitMap, w: M.World, done: set<ResourceKey>, key: ResourceKey, c: Commit,
    chunks: seq<Digest>, token: Token)
    returns (w': M.World)
    requires IsBinaryTask(t, before) && IsPlanned(t, key) && t.plan[key].Publishes() && key !in done
    requires Underway(t, s, before, w, done) && PublishedAs(t, s, key, c, chunks, token)
    requires t.plan[key].Upload? ==>
      var contents := w.machines[t.client].phase.contents;
      key in contents && contents[key] == ResourceContent(t.SlotOf(key).data, t.SlotOf(key).version)
    ensures M.Next(t.crdt, w, w', M.Commit(t.client, key, c)) && Underway(t, s, before, w', done + {key})
  {
    var m := w.machines[t.client];
    CommittedViews(t, s, m.replica, done, key, c, chunks, token);
    IdIsNew(t, before, w.history, done, key);
    assert ViewOf(m.replica, key) == ViewOf(t.state, key);
    RemoteStateFrame(t.crdt, m.replica.commits, t.state.commits, key);
    var m' := m.(replica := AfterCommit(t.crdt, m.replica, t.PlannedFor(key), c, 0),
                 phase := m.phase.(done := done + {key}));
    if t.plan[key].Upload? {
      assert c.change == UploadChange(t.crdt, m.replica, key, Binary, m.phase.contents[key].data, chunks);
    }
    assert M.CommitStep(t.crdt, w.history, m, m', M.Commit(t.client, key, c));
    w' := M.World(w.history[c.id := c], w.machines[t.client := m']);
  }

  lemma IdIsNew(t: Task, before: CommitMap, history: CommitMap, done: set<ResourceKey>, key: ResourceKey)
    requires IsBinaryTask(t, before) && HistoryOf(t, before, history, done) && key in t.ids && key !in done
    ensures t.ids[key] !in history
  {
  }

  // ---- The other operations ----

  /** What a download read is still the content at the first head. */
  lemma ContentIsStill(
    t: Task, s: Replica, r: Replica, done: set<ResourceKey>, key: ResourceKey, bytes: Bytes, left: Slot, token: Token)
    requires HasViews(t, s, r, done) && M.NoText(s.commits) && key !in done
    requires IsPlanned(t, key) && t.plan[key].Download? && AppliedAs(t, s, key, bytes, left, token)
    ensures Heads(r.commits, key) != {} && IsContentOf(t.crdt, r.commits, key, First(Heads(r.commits, key)), bytes)
  {
    ApplyKeepsCommits(t.state, t.KindFor(key), t.plan[key], t.PlannedFor(key), bytes, left, token);
    assert ViewOf(r, key) == ViewOf(t.state, key);
    assert ResourceCommits(r.commits, key) == ResourceCommits(s.commits, key);
    RemoteStateFrame(t.crdt, r.commits, s.commits, key);
    var first := First(Heads(s.commits, key));
    assert first in Heads(s.commits, key);
    SameCommit(s.commits, r.commits, key, first);
  }

  lemma AppliedViews(
    t: Task, s: Replica, r: Replica, done: set<ResourceKey>, key: ResourceKey, bytes: Bytes, left: Slot, token: Token)
    requires HasViews(t, s, r, done) && IsPlanned(t, key) && key !in done && AppliedAs(t, s, key, bytes, left, token)
    ensures HasViews(t, s, ApplyOperation(r, t.KindFor(key), t.plan[key], t.PlannedFor(key), bytes, left, token),
                     done + {key})
  {
    var op, kind, planned := t.plan[key], t.KindFor(key), t.PlannedFor(key);
    assert ViewOf(r, key) == ViewOf(t.state, key);
    ApplyView(t.crdt, r, t.state, kind, op, planned, bytes, left, token);
    forall k ensures ViewOf(ApplyOperation(r, kind, op, planned, bytes, left, token), k)
                     == ViewOf(if k in done + {key} then s else t.state, k)
    {
      if k != key {
        ApplyElsewhere(r, kind, op, planned, bytes, left, token, k);
        assert ViewOf(r, k) == ViewOf(if k in done then s else t.state, k);
      }
    }
  }

  /** Only a deletion leaves something behind. */
  lemma LeftIsIdle(
    r: Replica, kind: ResourceKind, op: PlanOperation, planned: ReplicaState, bytes: Bytes, left: Slot, token: Token)
    requires !op.ApplyDelete?
    ensures ApplyOperation(r, kind, op, planned, bytes, left, token)
            == ApplyOperation(r, kind, op, planned, bytes, Absent, token)
  {
  }

  lemma ApplyOn(
    t: Task, s: Replica, before: CommitMap, w0: M.World, w: M.World, done: set<ResourceKey>, key: ResourceKey,
    bytes: Bytes, left: Slot, token: Token)
    returns (w': M.World)
    requires IsBinaryTask(t, before) && IsPlanned(t, key) && !t.plan[key].Publishes() && key !in done
    requires Runs(t.crdt, t.client, w0, w) && Underway(t, s, before, w, done)
    requires AppliedAs(t, s, key, bytes, left, token) && M.NoText(s.commits)
    ensures Runs(t.crdt, t.client, w0, w') && Underway(t, s, before, w', done + {key})
  {
    var step;
    w', step := ApplyNext(t, s, before, w, done, key, bytes, left, token);
    RunsOn(t.crdt, t.client, w0, w, w', step);
  }

  lemma IssueOne(t: Task, m: M.Machine, done: set<ResourceKey>, key: ResourceKey, slot: Slot)
    requires IssuedUpTo(t, m.issued, done)
    ensures IssuedUpTo(t, M.Issue(m, key, slot).issued, done + {key})
  {
  }

  lemma ApplyNext(
    t: Task, s: Replica, before: CommitMap, w: M.World, done: set<ResourceKey>, key: ResourceKey, bytes: Bytes,
    left: Slot, token: Token)
    returns (w': M.World, step: M.Step)
    requires IsBinaryTask(t, before) && IsPlanned(t, key) && !t.plan[key].Publishes() && key !in done
    requires Underway(t, s, before, w, done) && AppliedAs(t, s, key, bytes, left, token) && M.NoText(s.commits)
    ensures M.Next(t.crdt, w, w', step) && step.client == t.client && !step.ByUser()
    ensures Underway(t, s, before, w', done + {key})
  {
    var m, op := w.machines[t.client], t.plan[key];
    var remains := if op.ApplyDelete? then left else Absent;
    AppliedViews(t, s, m.replica, done, key, bytes, left, token);
    if op.Download? {
      ContentIsStill(t, s, m.replica, done, key, bytes, left, token);
    }
    if !op.ApplyDelete? {
      LeftIsIdle(m.replica, Binary, op, t.PlannedFor(key), bytes, left, token);
    }
    var r' := ApplyOperation(m.replica, Binary, op, t.PlannedFor(key), bytes, remains, token);
    var m' := M.Issue(m, key, r'.SlotOf(key)).(replica := r', phase := m.phase.(done := done + {key}));
    step := M.Apply(t.client, key, bytes, remains, token);
    IssueOne(t, m, done, key, r'.SlotOf(key));
    assert M.ApplyStep(t.crdt, m, m', step);
    w' := MachineMoves(t.crdt, w, t.client, m', step);
  }

  // ---- The whole reconcile ----

  ghost predicate AllCarried(t: Task, s: Replica, indexes: Indexes, keys: set<ResourceKey>) {
    forall key :: key in keys ==> IsPlanned(t, key) && HasOutcome(t, s, indexes, key, false)
  }

  lemma OneLess(done: set<ResourceKey>, todo: set<ResourceKey>, key: ResourceKey, all: set<ResourceKey>)
    requires key in todo && done !! todo && done + todo == all
    ensures key !in done && done + {key} !! todo - {key} && (done + {key}) + (todo - {key}) == all
    ensures |todo - {key}| < |todo|
  {
  }

  lemma {:induction false} CarryAll(
    t: Task, s: Replica, indexes: Indexes, before: CommitMap, w0: M.World, w: M.World, done: set<ResourceKey>,
    todo: set<ResourceKey>, all: set<ResourceKey>)
    returns (w': M.World)
    requires IsBinaryTask(t, before) && M.NoText(s.commits) && AllCarried(t, s, indexes, todo)
    requires done !! todo && done + todo == all
    requires Runs(t.crdt, t.client, w0, w) && Underway(t, s, before, w, done)
    ensures Runs(t.crdt, t.client, w0, w') && Underway(t, s, before, w', all)
    decreases |todo|
  {
    if todo == {} {
      w' := w;
      assert done == all;
    } else {
      var key :| key in todo;
      OneLess(done, todo, key, all);
      var mid := CarryOne(t, s, indexes, before, w0, w, done, key);
      w' := CarryAll(t, s, indexes, before, w0, mid, done + {key}, todo - {key}, all);
    }
  }

  lemma CarryOne(
    t: Task, s: Replica, indexes: Indexes, before: CommitMap, w0: M.World, w: M.World, done: set<ResourceKey>,
    key: ResourceKey)
    returns (w': M.World)
    requires IsBinaryTask(t, before) && M.NoText(s.commits) && IsPlanned(t, key) && key !in done
    requires HasOutcome(t, s, indexes, key, false)
    requires Runs(t.crdt, t.client, w0, w) && Underway(t, s, before, w, done)
    ensures Runs(t.crdt, t.client, w0, w') && Underway(t, s, before, w', done + {key})
  {
    if t.plan[key].Publishes() {
      var c, chunks, token :| PublishedAs(t, s, key, c, chunks, token);
      w' := CommitOn(t, s, before, w0, w, done, key, c, chunks, token);
    } else {
      var bytes, left: Slot, token :| AppliedAs(t, s, key, bytes, left, token);
      w' := ApplyOn(t, s, before, w0, w, done, key, bytes, left, token);
    }
  }

  /** The machine is idle in the state the task begins with. */
  ghost predicate Stands(t: Task, w: M.World) {
    && t.client in w.machines && w.machines[t.client].phase.Idle? && w.machines[t.client].replica == t.state
    && IssuedUpTo(t, w.machines[t.client].issued, {})
  }

  /** The plan is the one the machine makes of the same listing. */
  lemma PlanOn(t: Task, s: Replica, w: M.World, scopes: set<ScopeId>, listing: map<ResourceKey, Listing>)
    returns (w': M.World)
    requires Stands(t, w) && IsBinaryTask(t, w.history) && IsInventory(t.state, listing, t.inventory)
    requires forall key :: key in listing ==> Describes(listing[key], t.SlotOf(key))
    requires t.plan == BuildPlan(t.crdt, t.state, t.kinds, scopes, t.inventory)
    ensures Runs(t.crdt, t.client, w, w') && Underway(t, s, w.history, w', {})
  {
    var m := w.machines[t.client];
    var listed := m.(phase := M.Listed(listing));
    RunsNowhere(t.crdt, t.client, w);
    var mid := MachineMoves(t.crdt, w, t.client, listed, M.List(t.client, listing));
    RunsOn(t.crdt, t.client, w, w, mid, M.List(t.client, listing));
    BinaryPlan(t, scopes);
    var planned := listed.(phase := M.Planned(t.inventory, t.plan, map[], {}));
    SameInventory(t, listed, listing);
    assert M.PlanStep(t.crdt, listed, planned, scopes);
    w' := MachineMoves(t.crdt, mid, t.client, planned, M.Plan(t.client, scopes));
    RunsOn(t.crdt, t.client, w, mid, w', M.Plan(t.client, scopes));
  }

  lemma BinaryPlan(t: Task, scopes: set<ScopeId>)
    requires forall key :: t.KindFor(key) == Binary
    ensures BuildPlan(t.crdt, t.state, t.kinds, scopes, t.inventory)
            == BuildPlan(t.crdt, t.state, map[], scopes, t.inventory)
  {
    var a := BuildPlan(t.crdt, t.state, t.kinds, scopes, t.inventory);
    var b := BuildPlan(t.crdt, t.state, map[], scopes, t.inventory);
    forall key | key in a ensures a[key] == b[key] {
      assert t.KindFor(key) == Binary;
    }
  }

  lemma SameInventory(t: Task, m: M.Machine, listing: map<ResourceKey, Listing>)
    requires m.replica == t.state && m.phase == M.Listed(listing) && IsInventory(t.state, listing, t.inventory)
    ensures forall key :: key in M.Inventory(m) ==> M.Inventory(m)[key].Some?
    ensures (map key | key in M.Inventory(m) && M.Inventory(m)[key].Some? :: M.Inventory(m)[key].value) == t.inventory
  {
  }

  lemma PlannedOperations(t: Task, scopes: set<ScopeId>, key: ResourceKey)
    requires t.plan == BuildPlan(t.crdt, t.state, t.kinds, scopes, t.inventory) && key in t.plan
    requires t.KindFor(key) == Binary
    ensures IsPlanned(t, key)
  {
    BuiltPlanIsWellPlanned(t.crdt, t.state, t.kinds, scopes, t.inventory);
    UploadsCarryTheirState(t, scopes, key);
  }

  lemma UploadsCarryTheirState(t: Task, scopes: set<ScopeId>, key: ResourceKey)
    requires t.plan == BuildPlan(t.crdt, t.state, t.kinds, scopes, t.inventory) && key in t.plan
    ensures t.plan[key].Upload? ==> t.plan[key].local == t.PlannedFor(key)
  {
    var baselines, remotes := BaselinePairs(t.state, scopes), RemotePairs(t.crdt, t.state.commits, scopes);
    UploadCarriesItsState(key, t.PlannedFor(key), if key in baselines then Some(baselines[key]) else None,
                          if key in remotes then remotes[key] else RemoteMissing, t.KindFor(key));
  }

  lemma UploadCarriesItsState(
    key: ResourceKey, local: ReplicaState, baseline: Option<BaselineState>, remote: RemoteResourceState,
    kind: ResourceKind)
    ensures var op := MergeTextConflict(PlanResource(key, local, baseline, remote), kind, local);
            op.Upload? ==> op.local == local
  {
  }

  /** A reconcile of binary files that were listed as they were is a run of the machine:
      list, plan, then a read and a commit or one application for every resource that did
      not fail. It ends idle with the very files, baselines and commits. */
  lemma ReconcileIsARun(
    t: Task, s: Replica, indexes: Indexes, failed: set<ResourceKey>, w: M.World, scopes: set<ScopeId>,
    listing: map<ResourceKey, Listing>)
    returns (w': M.World)
    requires Stands(t, w) && IsBinaryTask(t, w.history) && M.NoText(s.commits)
    requires IsInventory(t.state, listing, t.inventory) && ExecutesPlan(t, scopes, s, indexes, failed)
    requires forall key :: key in listing ==> Describes(listing[key], t.SlotOf(key))
    ensures Runs(t.crdt, t.client, w, w') && t.client in w'.machines && w'.machines[t.client].phase.Idle?
    ensures forall key :: ViewOf(w'.machines[t.client].replica, key) == ViewOf(s, key)
  {
    var planned := PlanOn(t, s, w, scopes, listing);
    var done := t.plan.Keys - failed;
    forall key | key in done ensures IsPlanned(t, key) && HasOutcome(t, s, indexes, key, false) {
      PlannedOperations(t, scopes, key);
    }
    var carried := CarryAll(t, s, indexes, w.history, w, planned, {}, done, done);
    var m := carried.machines[t.client];
    w' := MachineMoves(t.crdt, carried, t.client, m.(phase := M.Idle), M.Abort(t.client));
    RunsOn(t.crdt, t.client, w, carried, w', M.Abort(t.client));
    forall key ensures ViewOf(m.replica, key) == ViewOf(s, key) {
      UnfinishedKeepsView(t, s, indexes, failed, key);
      assert ViewOf(m.replica, key) == ViewOf(if key in done then s else t.state, key);
    }
  }

  lemma UnfinishedKeepsView(t: Task, s: Replica, indexes: Indexes, failed: set<ResourceKey>, key: ResourceKey)
    requires Progress(t, s, indexes, t.plan.Keys, failed)
    ensures key !in t.plan.Keys - failed ==> ViewOf(s, key) == ViewOf(t.state, key)
  {
    if key in t.plan && key in failed {
      assert HasOutcome(t, s, indexes, key, true);
    }
  }

  // ---- What follows ----

  /** Along a run of the engine a file is there, or its content is committed. */
  lemma {:induction false} FileOrCommitted(
    crdt: Crdt, client: ClientId, ws: seq<M.World>, steps: seq<M.Step>, i: nat, key: ResourceKey)
    requires IsTrail(crdt, client, ws, steps) && i < |ws| && M.Inv(crdt, ws[0])
    requires client in ws[0].machines && ws[0].machines[client].replica.SlotOf(key).File?
    ensures M.Inv(crdt, ws[i]) && client in ws[i].machines
    ensures var slot := ws[0].machines[client].replica.SlotOf(key);
            ws[i].machines[client].replica.SlotOf(key) == slot || M.Committed(ws[i].history, Digest(slot.data))
  {
    if i > 0 {
      FileOrCommitted(crdt, client, ws, steps, i - 1, key);
      assert M.StepAt(crdt, ws, steps, i - 1) && steps[i - 1].client == client && !steps[i - 1].ByUser();
      M.StepKeepsInv(crdt, ws[i - 1], ws[i], steps[i - 1]);
      var slot := ws[0].machines[client].replica.SlotOf(key);
      StepKeepsOrCommits(crdt, ws[i - 1], ws[i], steps[i - 1], client, key, slot);
    }
  }

  lemma StepKeepsOrCommits(
    crdt: Crdt, w: M.World, w': M.World, step: M.Step, client: ClientId, key: ResourceKey, slot: Slot)
    requires M.Inv(crdt, w) && M.Next(crdt, w, w', step) && step.client == client && !step.ByUser() && slot.File?
    requires client in w.machines
    requires w.machines[client].replica.SlotOf(key) == slot || M.Committed(w.history, Digest(slot.data))
    ensures client in w'.machines
    ensures w'.machines[client].replica.SlotOf(key) == slot || M.Committed(w'.history, Digest(slot.data))
  {
    if w.machines[client].replica.SlotOf(key) == slot && w'.machines[client].replica.SlotOf(key) != slot {
      M.StepDestroysOnlyCommitted(crdt, w, w', step, client, key);
    }
    if M.Committed(w.history, Digest(slot.data)) {
      M.CommittedGrows(w.history, w'.history, Digest(slot.data));
    }
  }

  /** So a reconcile, whenever in a run of user edits and reconciles it comes, replaces or
      removes a binary file only if the content is that of a commit. */
  lemma ReconcileDestroysNoOnlyCopy(
    t: Task, s: Replica, indexes: Indexes, failed: set<ResourceKey>, w: M.World, scopes: set<ScopeId>,
    listing: map<ResourceKey, Listing>, key: ResourceKey)
    returns (w': M.World)
    requires M.Inv(t.crdt, w) && Stands(t, w) && IsBinaryTask(t, w.history) && M.NoText(s.commits)
    requires IsInventory(t.state, listing, t.inventory) && ExecutesPlan(t, scopes, s, indexes, failed)
    requires forall k :: k in listing ==> Describes(listing[k], t.SlotOf(k))
    requires t.SlotOf(key).File? && s.SlotOf(key) != t.SlotOf(key)
    ensures Runs(t.crdt, t.client, w, w') && M.Inv(t.crdt, w')
    ensures M.Committed(w'.history, Digest(t.SlotOf(key).data))
  {
    w' := ReconcileIsARun(t, s, indexes, failed, w, scopes, listing);
    assert ViewOf(w'.machines[t.client].replica, key) == ViewOf(s, key);
    var ws, steps :| IsTrail(t.crdt, t.client, ws, steps) && ws[0] == w && ws[|ws| - 1] == w';
    FileOrCommitted(t.crdt, t.client, ws, steps, |ws| - 1, key);
  }
}
