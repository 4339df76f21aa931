/** Runs of many replicas of binary resources in which users edit at any time, also
    between a plan and its execution: a reconcile never destroys the only copy. */
module OnlyCopy {
  import opened Types
  import opened Core
  import opened CommitGraph
  import opened Execution

  /** Where a reconcile stands. `contents` holds the contents read for uploads; `done` the
      resources whose operation was tried. */
  datatype Phase =
    | Idle
    | Listed(listing: map<ResourceKey, Listing>)
    | Planned(
        inventory: map<ResourceKey, ReplicaState>,
        plan: map<ResourceKey, PlanOperation>,
        contents: map<ResourceKey, ResourceContent>,
        done: set<ResourceKey>)

  /** `issued` are the version tokens the host has handed out so far. */
  datatype Machine = Machine(replica: Replica, issued: set<(ResourceKey, Token)>, phase: Phase)

  /** `history` holds every commit ever published. */
  datatype World = World(history: CommitMap, machines: map<ClientId, Machine>)

  datatype Step =
    // users
    | UserWrite(client: ClientId, key: ResourceKey, data: Bytes, token: Token)
    | UserDelete(client: ClientId, key: ResourceKey, left: Slot)
    // the engine
    | Join(client: ClientId)
    | Learn(client: ClientId, ids: set<CommitId>)
    | Forget(client: ClientId, ids: set<CommitId>)
    | List(client: ClientId, listing: map<ResourceKey, Listing>)
    | Plan(client: ClientId, scopes: set<ScopeId>)
    | Read(client: ClientId, key: ResourceKey)
    | Commit(client: ClientId, key: ResourceKey, commit: Types.Commit)
    | Apply(client: ClientId, key: ResourceKey, bytes: Bytes, left: Slot, token: Token)
    | Abort(client: ClientId)
  {
    predicate ByUser() {
      UserWrite? || UserDelete?
    }
  }

  /** What a deletion may leave: nothing, or a tombstone with a new version. */
  predicate LeftBehind(m: Machine, key: ResourceKey, left: Slot) {
    left.Absent? || (left.Tombstone? && (key, left.version) !in m.issued)
  }

  function Issue(m: Machine, key: ResourceKey, slot: Slot): Machine {
    if slot.Absent? then m else m.(issued := m.issued + {(key, slot.version)})
  }

  function Inventory(m: Machine): map<ResourceKey, Option<ReplicaState>>
    requires m.phase.Listed?
  {
    map key | key in m.phase.listing ::
      InventoryState(m.phase.listing[key], m.replica.BaselineOf(key), m.replica.SlotOf(key))
  }

  /** All states are known, or the reconcile is given up. */
  ghost predicate PlanStep(crdt: Crdt, m: Machine, m': Machine, scopes: set<ScopeId>) {
    && m.phase.Listed?
    && var states := Inventory(m);
       if forall key :: key in states ==> states[key].Some? then
         var inventory := map key | key in states && states[key].Some? :: states[key].value;
         m' == m.(phase := Planned(inventory, BuildPlan(crdt, m.replica, map[], scopes, inventory), map[], {}))
       else m' == m.(phase := Idle)
  }

  ghost predicate CommitStep(crdt: Crdt, history: CommitMap, m: Machine, m': Machine, step: Step)
    requires step.Commit?
  {
    var r, key, c := m.replica, step.key, step.commit;
    && m.phase.Planned? && key in m.phase.plan && key !in m.phase.done
    && c.id !in history && c.resource == key && c.author == step.client && c.parents == Heads(r.commits, key)
    && (match m.phase.plan[key]
        case Upload(_, local) =>
          && key in m.phase.contents && local.VersionToken() == Some(m.phase.contents[key].version)
          && exists chunks :: c.change == UploadChange(crdt, r, key, Binary, m.phase.contents[key].data, chunks)
        case PublishDelete(_) => c.change.Delete?
        case _ => false)
    && m' == m.(replica := AfterCommit(crdt, r, StateIn(m.phase.inventory, key), c, 0),
                phase := m.phase.(done := m.phase.done + {key}))
  }

  ghost predicate ApplyStep(crdt: Crdt, m: Machine, m': Machine, step: Step)
    requires step.Apply?
  {
    var r, key := m.replica, step.key;
    && m.phase.Planned? && key in m.phase.plan && key !in m.phase.done
    && !m.phase.plan[key].Publishes()
    && (m.phase.plan[key].Download? ==>
          && Heads(r.commits, key) != {}
          && IsContentOf(crdt, r.commits, key, First(Heads(r.commits, key)), step.bytes)
          && (key, step.token) !in m.issued)
    && LeftBehind(m, key, step.left)
    && var r' := ApplyOperation(r, Binary, m.phase.plan[key], StateIn(m.phase.inventory, key),
                                step.bytes, step.left, step.token);
       m' == Issue(m, key, r'.SlotOf(key)).(replica := r', phase := m.phase.(done := m.phase.done + {key}))
  }

  /** Listing the files and reading the content of an upload. */
  ghost predicate ReadStep(m: Machine, m': Machine, step: Step) {
    var r := m.replica;
    match step
    case List(_, listing) =>
      && m.phase.Idle?
      && (forall key :: key in listing ==> Describes(listing[key], r.SlotOf(key)))
      && m' == m.(phase := Listed(listing))
    case Read(_, key) =>
      && m.phase.Planned? && key in m.phase.plan && m.phase.plan[key].Upload? && r.SlotOf(key).File?
      && m' == m.(phase := m.phase.(contents :=
           m.phase.contents[key := ResourceContent(r.SlotOf(key).data, r.SlotOf(key).version)]))
    case _ => false
  }

  /** The replica learns or forgets commits between reconciles, or gives one up. */
  ghost predicate IdleStep(history: CommitMap, m: Machine, m': Machine, step: Step) {
    var r := m.replica;
    match step
    case Learn(_, ids) =>
      && m.phase.Idle? && ids <= history.Keys
      && m' == m.(replica := r.(commits := r.commits + map id | id in ids && id in history :: history[id]))
    case Forget(_, ids) =>
      m.phase.Idle? && m' == m.(replica := r.(commits := r.commits - ids))
    case Abort(_) => m' == m.(phase := Idle)
    case _ => false
  }

  /** Effect of the engine's step on the machine, with the history it can see. */
  ghost predicate EngineStep(crdt: Crdt, history: CommitMap, m: Machine, m': Machine, step: Step) {
    match step
    case Plan(_, scopes) => PlanStep(crdt, m, m', scopes)
    case Commit(_, _, _) => CommitStep(crdt, history, m, m', step)
    case Apply(_, _, _, _, _) => ApplyStep(crdt, m, m', step)
    case _ => ReadStep(m, m', step) || IdleStep(history, m, m', step)
  }

  ghost predicate UserStep(m: Machine, m': Machine, step: Step) {
    match step
    case UserWrite(_, key, data, token) =>
      (key, token) !in m.issued && m' ==
        Issue(m, key, File(data, token)).(replica := m.replica.WithSlot(key, File(data, token)))
    case UserDelete(_, key, left) =>
      LeftBehind(m, key, left) && m' == Issue(m, key, left).(replica := m.replica.WithSlot(key, left))
    case _ => false
  }

  ghost predicate Next(crdt: Crdt, w: World, w': World, step: Step) {
    var c := step.client;
    if step.Join? then
      c !in w.machines && w' == w.(machines := w.machines[c := Machine(Replica(map[], map[], map[], map[]), {}, Idle)])
    else
      && c in w.machines && c in w'.machines
      && w'.machines == w.machines[c := w'.machines[c]]
      && w'.history == (if step.Commit? then w.history[step.commit.id := step.commit] else w.history)
      && (if step.ByUser() then UserStep(w.machines[c], w'.machines[c], step)
          else EngineStep(crdt, w.history, w.machines[c], w'.machines[c], step))
  }

  // ---- Invariants ----

  /** Some published commit has exactly this content. */
  ghost predicate Committed(history: CommitMap, contentId: Digest) {
    exists id :: id in history && history[id].change.BinarySnapshot? && history[id].change.contentId == contentId
  }

  ghost predicate NoText(m: CommitMap) {
    forall id :: id in m ==> !m[id].change.TextDelta?
  }

  /** If the slot still has version `version`, it is a file with this content. */
  ghost predicate FileAt(slot: Slot, version: Token, contentId: Digest) {
    slot.VersionToken() == Some(version) ==> slot.File? && Digest(slot.data) == contentId
  }

  ghost predicate BaselineOk(
    history: CommitMap, issued: set<(ResourceKey, Token)>, key: ResourceKey, slot: Slot, b: BaselineState)
  {
    b.BaselinePresent? ==>
      Committed(history, b.contentId) && (key, b.localVersion) in issued && FileAt(slot, b.localVersion, b.contentId)
  }

  /** A recorded local state is still right as long as its version is current. */
  ghost predicate StateOk(issued: set<(ResourceKey, Token)>, key: ResourceKey, slot: Slot, s: ReplicaState) {
    match s
    case LocalMissing => true
    case LocalPresent(contentId, _, version) => (key, version) in issued && FileAt(slot, version, contentId)
    case LocalDeleted(version) => (key, version) in issued && (slot.VersionToken() == Some(version) ==> slot.Tombstone?)
  }

  ghost predicate ListingOk(issued: set<(ResourceKey, Token)>, key: ResourceKey, slot: Slot, l: Listing) {
    && (key, l.version) in issued
    && (slot.VersionToken() == Some(l.version) ==>
          if l.ListedDeleted? then slot.Tombstone?
          else slot.File? && (l.contentId.Some? ==> Digest(slot.data) == l.contentId.value))
  }

  ghost predicate ReadOk(issued: set<(ResourceKey, Token)>, key: ResourceKey, slot: Slot, c: ResourceContent) {
    (key, c.version) in issued && FileAt(slot, c.version, Digest(c.data))
  }

  /** What the plan relies on: an operation that may replace a file has its content
      committed, and a download still has the remote state it was planned for. */
  ghost predicate OperationOk(
    crdt: Crdt, history: CommitMap, commits: CommitMap, local: ReplicaState, key: ResourceKey, op: PlanOperation,
    done: bool)
  {
    && op.Key() == key
    && (op.Download? || op.ApplyDelete? ==> local.LocalPresent? ==> Committed(history, local.contentId))
    && (op.Download? ==>
          op.remote.RemotePresent? && Committed(history, op.remote.contentId)
          && (!done ==> op.remote == RemoteState(crdt, commits, key)))
    && (op.EstablishBaseline? ==> op.local == local && local.LocalPresent? && Committed(history, local.contentId))
    && (op.ApplyDelete? || op.Upload? ==> op.local == local && local.LocalPresent?)
  }

  ghost predicate PhaseOk(crdt: Crdt, history: CommitMap, m: Machine) {
    match m.phase
    case Idle => true
    case Listed(listing) =>
      forall key :: key in listing ==> ListingOk(m.issued, key, m.replica.SlotOf(key), listing[key])
    case Planned(inventory, plan, contents, done) =>
      && (forall key :: key in inventory ==> StateOk(m.issued, key, m.replica.SlotOf(key), inventory[key]))
      && (forall key :: key in contents ==> ReadOk(m.issued, key, m.replica.SlotOf(key), contents[key]))
      && (forall key :: key in plan ==>
            OperationOk(crdt, history, m.replica.commits, StateIn(inventory, key), key, plan[key], key in done))
  }

  ghost predicate Knows(m: Machine, history: CommitMap) {
    forall id :: id in m.replica.commits ==> id in history && m.replica.commits[id] == history[id]
  }

  ghost predicate SlotsIssued(m: Machine) {
    forall key :: key in m.replica.slots && !m.replica.slots[key].Absent? ==>
      (key, m.replica.slots[key].version) in m.issued
  }

  ghost predicate BaselinesOk(history: CommitMap, m: Machine) {
    forall key :: key in m.replica.baselines ==>
      BaselineOk(history, m.issued, key, m.replica.SlotOf(key), m.replica.baselines[key])
  }

  ghost predicate MachineOk(crdt: Crdt, history: CommitMap, m: Machine) {
    Knows(m, history) && SlotsIssued(m) && BaselinesOk(history, m) && PhaseOk(crdt, history, m)
  }

  ghost predicate Inv(crdt: Crdt, w: World) {
    NoText(w.history) && forall c :: c in w.machines ==> MachineOk(crdt, w.history, w.machines[c])
  }

  // ---- Replacing a slot ----

  /** A slot given a version never used before, or emptied, falsifies no record of the
      earlier ones. */
  lemma SlotChange(history: CommitMap, m: Machine, key: ResourceKey, slot: Slot)
    requires SlotsIssued(m) && BaselinesOk(history, m)
    requires slot.Absent? || (key, slot.version) !in m.issued
    ensures var m' := Issue(m, key, slot).(replica := m.replica.WithSlot(key, slot));
            SlotsIssued(m') && BaselinesOk(history, m')
  {
    var m' := Issue(m, key, slot).(replica := m.replica.WithSlot(key, slot));
    forall k | k in m'.replica.baselines
      ensures BaselineOk(history, m'.issued, k, m'.replica.SlotOf(k), m'.replica.baselines[k])
    {
      assert BaselineOk(history, m.issued, k, m.replica.SlotOf(k), m.replica.baselines[k]);
    }
  }

  lemma SlotChangeKeepsPhase(crdt: Crdt, history: CommitMap, m: Machine, key: ResourceKey, slot: Slot)
    requires PhaseOk(crdt, history, m)
    requires slot.Absent? || (key, slot.version) !in m.issued
    ensures PhaseOk(crdt, history, Issue(m, key, slot).(replica := m.replica.WithSlot(key, slot)))
  {
    var m' := Issue(m, key, slot).(replica := m.replica.WithSlot(key, slot));
    match m.phase
    case Idle =>
    case Listed(listing) =>
      forall k | k in listing ensures ListingOk(m'.issued, k, m'.replica.SlotOf(k), listing[k]) {
        assert ListingOk(m.issued, k, m.replica.SlotOf(k), listing[k]);
      }
    case Planned(inventory, plan, contents, done) =>
      forall k | k in inventory ensures StateOk(m'.issued, k, m'.replica.SlotOf(k), inventory[k]) {
        assert StateOk(m.issued, k, m.replica.SlotOf(k), inventory[k]);
      }
      forall k | k in contents ensures ReadOk(m'.issued, k, m'.replica.SlotOf(k), contents[k]) {
        assert ReadOk(m.issued, k, m.replica.SlotOf(k), contents[k]);
      }
  }

  lemma UserStepKeepsMachine(crdt: Crdt, history: CommitMap, m: Machine, m': Machine, step: Step)
    requires MachineOk(crdt, history, m) && UserStep(m, m', step)
    ensures MachineOk(crdt, history, m')
  {
    var slot := if step.UserWrite? then File(step.data, step.token) else step.left;
    SlotChange(history, m, step.key, slot);
    SlotChangeKeepsPhase(crdt, history, m, step.key, slot);
  }

  // ---- Planning ----

  /** In a history of binary commits a present remote state is the content of a commit. */
  lemma PresentRemoteIsCommitted(crdt: Crdt, history: CommitMap, m: Machine, key: ResourceKey)
    requires NoText(history) && Knows(m, history)
    ensures var remote := RemoteState(crdt, m.replica.commits, key);
            remote.RemotePresent? ==>
              && remote.heads == Heads(m.replica.commits, key) && remote.heads != {}
              && SameSnapshots(m.replica.commits, remote.heads, remote.contentId, remote.size)
              && Committed(history, remote.contentId)
  {
    var commits := m.replica.commits;
    var heads := Heads(commits, key);
    if heads != {} {
      var first := First(heads);
      assert !commits[first].change.TextDelta?;
      assert commits[first] == history[first];
    }
  }

  lemma InventoryStateOk(
    history: CommitMap, issued: set<(ResourceKey, Token)>, key: ResourceKey, slot: Slot, l: Listing,
    b: Option<BaselineState>)
    requires ListingOk(issued, key, slot, l) && (b.Some? ==> BaselineOk(history, issued, key, slot, b.value))
    ensures InventoryState(l, b, slot).Some? ==> StateOk(issued, key, slot, InventoryState(l, b, slot).value)
  {
  }

  lemma PlanResourceOk(
    crdt: Crdt, history: CommitMap, commits: CommitMap, key: ResourceKey,
    local: ReplicaState, baseline: Option<BaselineState>, remote: RemoteResourceState)
    requires baseline.Some? && baseline.value.BaselinePresent? ==> Committed(history, baseline.value.contentId)
    requires remote.RemotePresent? ==> Committed(history, remote.contentId) && remote == RemoteState(crdt, commits, key)
    ensures OperationOk(crdt, history, commits, local, key, PlanResource(key, local, baseline, remote), false)
  {
    var op := PlanResource(key, local, baseline, remote);
    if local.LocalPresent? && (op.Download? || op.ApplyDelete?) {
      OverwritesOnlyTheBaseline(key, local, baseline, remote);
    }
  }

  lemma BuiltOperation(
    crdt: Crdt, r: Replica, scopes: set<ScopeId>, inventory: map<ResourceKey, ReplicaState>, key: ResourceKey)
    returns (baseline: Option<BaselineState>, remote: RemoteResourceState)
    requires key in BuildPlan(crdt, r, map[], scopes, inventory)
    ensures BuildPlan(crdt, r, map[], scopes, inventory)[key] ==
      PlanResource(key, StateIn(inventory, key), baseline, remote)
    ensures baseline == None || baseline == r.BaselineOf(key)
    ensures remote == RemoteMissing || remote == RemoteState(crdt, r.commits, key)
  {
    var baselines, remotes := BaselinePairs(r, scopes), RemotePairs(crdt, r.commits, scopes);
    baseline := if key in baselines then Some(baselines[key]) else None;
    remote := if key in remotes then remotes[key] else RemoteMissing;
  }

  lemma PlannedOperationOk(
    crdt: Crdt, history: CommitMap, m: Machine, scopes: set<ScopeId>, inventory: map<ResourceKey, ReplicaState>,
    key: ResourceKey)
    requires NoText(history) && Knows(m, history) && BaselinesOk(history, m)
    requires key in BuildPlan(crdt, m.replica, map[], scopes, inventory)
    ensures OperationOk(crdt, history, m.replica.commits, StateIn(inventory, key), key,
                        BuildPlan(crdt, m.replica, map[], scopes, inventory)[key], false)
  {
    var baseline, remote := BuiltOperation(crdt, m.replica, scopes, inventory, key);
    PresentRemoteIsCommitted(crdt, history, m, key);
    assert baseline.Some? ==> BaselineOk(history, m.issued, key, m.replica.SlotOf(key), baseline.value);
    PlanResourceOk(crdt, history, m.replica.commits, key, StateIn(inventory, key), baseline, remote);
  }

  lemma PlanKeepsMachine(crdt: Crdt, history: CommitMap, m: Machine, m': Machine, scopes: set<ScopeId>)
    requires NoText(history) && MachineOk(crdt, history, m) && PlanStep(crdt, m, m', scopes)
    ensures MachineOk(crdt, history, m')
  {
    var states := Inventory(m);
    if forall key :: key in states ==> states[key].Some? {
      var inventory := map key | key in states && states[key].Some? :: states[key].value;
      forall key | key in inventory ensures StateOk(m.issued, key, m.replica.SlotOf(key), inventory[key]) {
        assert ListingOk(m.issued, key, m.replica.SlotOf(key), m.phase.listing[key]);
        assert key in m.replica.baselines ==>
          BaselineOk(history, m.issued, key, m.replica.SlotOf(key), m.replica.baselines[key]);
        InventoryStateOk(history, m.issued, key, m.replica.SlotOf(key), m.phase.listing[key],
          m.replica.BaselineOf(key));
      }
      var plan := BuildPlan(crdt, m.replica, map[], scopes, inventory);
      forall key | key in plan ensures OperationOk(crdt, history, m.replica.commits, StateIn(inventory, key), key,
        plan[key], false)
      {
        PlannedOperationOk(crdt, history, m, scopes, inventory, key);
      }
    }
  }

  lemma ListAndReadKeepMachine(crdt: Crdt, history: CommitMap, m: Machine, m': Machine, step: Step)
    requires MachineOk(crdt, history, m) && ReadStep(m, m', step)
    ensures MachineOk(crdt, history, m')
  {
    if step.List? {
      forall key | key in step.listing ensures ListingOk(m.issued, key, m.replica.SlotOf(key), step.listing[key]) {
        assert Describes(step.listing[key], m.replica.SlotOf(key));
      }
    }
  }

  // ---- Commits ----

  lemma CommittedGrows(history: CommitMap, history': CommitMap, contentId: Digest)
    requires Committed(history, contentId) && forall id :: id in history ==>
      id in history' && history'[id] == history[id]
    ensures Committed(history', contentId)
  {
    var id :| id in history && history[id].change.BinarySnapshot? && history[id].change.contentId == contentId;
    assert id in history' && history'[id] == history[id];
  }

  lemma OperationsGrow(
    crdt: Crdt, history: CommitMap, c: Types.Commit, commits: CommitMap, local: ReplicaState, key: ResourceKey,
    op: PlanOperation, done: bool)
    requires c.id !in history && OperationOk(crdt, history, commits, local, key, op, done)
    ensures OperationOk(crdt, history[c.id := c], commits, local, key, op, done)
  {
    var history' := history[c.id := c];
    forall id | Committed(history, id) ensures Committed(history', id) {
      CommittedGrows(history, history', id);
    }
  }

  /** A new commit elsewhere changes nothing for a machine that does not know it. */
  lemma HistoryGrows(crdt: Crdt, history: CommitMap, c: Types.Commit, m: Machine)
    requires MachineOk(crdt, history, m) && c.id !in history
    ensures MachineOk(crdt, history[c.id := c], m)
  {
    var history' := history[c.id := c];
    forall key | key in m.replica.baselines
      ensures BaselineOk(history', m.issued, key, m.replica.SlotOf(key), m.replica.baselines[key])
    {
      assert BaselineOk(history, m.issued, key, m.replica.SlotOf(key), m.replica.baselines[key]);
      if m.replica.baselines[key].BaselinePresent? {
        CommittedGrows(history, history', m.replica.baselines[key].contentId);
      }
    }
    if m.phase.Planned? {
      var inventory, plan, done := m.phase.inventory, m.phase.plan, m.phase.done;
      forall key | key in plan ensures OperationOk(crdt, history', m.replica.commits, StateIn(inventory, key), key,
        plan[key], key in done)
      {
        OperationsGrow(crdt, history, c, m.replica.commits, StateIn(inventory, key), key, plan[key], key in done);
      }
    }
  }

  lemma CommitKeepsBaselines(crdt: Crdt, history: CommitMap, m: Machine, m': Machine, step: Step)
    requires MachineOk(crdt, history, m) && step.Commit? && CommitStep(crdt, history, m, m', step)
    ensures BaselinesOk(history[step.commit.id := step.commit], m')
    ensures m'.replica.slots == m.replica.slots && m'.issued == m.issued
    ensures m'.replica.commits == m.replica.commits[step.commit.id := step.commit]
    ensures !step.commit.change.TextDelta?
  {
    var c, key := step.commit, step.key;
    var history' := history[c.id := c];
    HistoryGrows(crdt, history, c, m);
    var planned := StateIn(m.phase.inventory, key);
    assert OperationOk(crdt, history, m.replica.commits, planned, key, m.phase.plan[key], false);
    if m.phase.plan[key].Upload? {
      assert ReadOk(m.issued, key, m.replica.SlotOf(key), m.phase.contents[key]);
      assert history'[c.id] == c;
    }
    forall k | k in m'.replica.baselines
      ensures BaselineOk(history', m'.issued, k, m'.replica.SlotOf(k), m'.replica.baselines[k])
    {
      if k != key {
        assert BaselineOk(history', m.issued, k, m.replica.SlotOf(k), m.replica.baselines[k]);
      }
    }
  }

  lemma CommitKeepsMachine(crdt: Crdt, history: CommitMap, m: Machine, m': Machine, step: Step)
    requires MachineOk(crdt, history, m) && step.Commit? && CommitStep(crdt, history, m, m', step)
    ensures MachineOk(crdt, history[step.commit.id := step.commit], m') && !step.commit.change.TextDelta?
  {
    var c, key := step.commit, step.key;
    var history' := history[c.id := c];
    CommitKeepsBaselines(crdt, history, m, m', step);
    HistoryGrows(crdt, history, c, m);
    var inventory, plan, done := m.phase.inventory, m.phase.plan, m'.phase.done;
    forall k | k in plan
      ensures OperationOk(crdt, history', m'.replica.commits, StateIn(inventory, k), k, plan[k], k in done)
    {
      assert OperationOk(crdt, history', m.replica.commits, StateIn(inventory, k), k, plan[k], k in m.phase.done);
      if k != key {
        CommitKeepsOperation(crdt, history', m.replica.commits, c, StateIn(inventory, k), k, plan[k], k in done);
      }
    }
    assert PhaseOk(crdt, history', m');
  }

  lemma CommitKeepsOperation(
    crdt: Crdt, history: CommitMap, m: CommitMap, c: Types.Commit, planned: ReplicaState, k: ResourceKey,
    op: PlanOperation, done: bool)
    requires c.resource != k && c.id !in m && OperationOk(crdt, history, m, planned, k, op, done)
    ensures OperationOk(crdt, history, m[c.id := c], planned, k, op, done)
  {
    assert ResourceCommits(m[c.id := c], k) == ResourceCommits(m, k);
    RemoteStateFrame(crdt, m, m[c.id := c], k);
  }

  // ---- Applying ----

  lemma BaselineChange(history: CommitMap, m: Machine, key: ResourceKey, b: BaselineState)
    requires BaselinesOk(history, m) && BaselineOk(history, m.issued, key, m.replica.SlotOf(key), b)
    ensures BaselinesOk(history, m.(replica := m.replica.WithBaseline(key, b)))
  {
    var m' := m.(replica := m.replica.WithBaseline(key, b));
    forall k | k in m'.replica.baselines
      ensures BaselineOk(history, m'.issued, k, m'.replica.SlotOf(k), m'.replica.baselines[k])
    {
      assert k != key ==> BaselineOk(history, m.issued, k, m.replica.SlotOf(k), m.replica.baselines[k]);
    }
  }

  /** What a download writes is the committed content it was planned for. */
  lemma DownloadWritesPlannedContent(crdt: Crdt, history: CommitMap, m: Machine, step: Step)
    requires NoText(history) && Knows(m, history) && m.phase.Planned? && step.Apply? && step.key in m.phase.plan
    requires var op := m.phase.plan[step.key];
             op.Download? && OperationOk(crdt, history, m.replica.commits, StateIn(m.phase.inventory, step.key),
               step.key, op, false)
    requires var heads := Heads(m.replica.commits, step.key);
             heads != {} && IsContentOf(crdt, m.replica.commits, step.key, First(heads), step.bytes)
    ensures Digest(step.bytes) == m.phase.plan[step.key].remote.contentId
    ensures var first := First(m.phase.plan[step.key].remote.heads);
      first in m.replica.commits && !m.replica.commits[first].change.TextDelta?
  {
    PresentRemoteIsCommitted(crdt, history, m, step.key);
    assert First(Heads(m.replica.commits, step.key)) in Heads(m.replica.commits, step.key);
  }

  lemma ApplyKeepsMachine(crdt: Crdt, history: CommitMap, m: Machine, m': Machine, step: Step)
    requires NoText(history) && MachineOk(crdt, history, m) && step.Apply? && ApplyStep(crdt, m, m', step)
    ensures MachineOk(crdt, history, m')
  {
    var key, op := step.key, m.phase.plan[step.key];
    assert OperationOk(crdt, history, m.replica.commits, StateIn(m.phase.inventory, key), key, op, false);
    if op.Download? && Matches(m.replica.SlotOf(key), StateIn(m.phase.inventory, key)) {
      DownloadKeepsMachine(crdt, history, m, m', step);
    } else if op.ApplyDelete? && Matches(m.replica.SlotOf(key), op.local) {
      WriteKeepsMachine(crdt, history, m, key, step.left, BaselineDeleted(op.remoteHeads));
    } else if op.EstablishBaseline? {
      RecordKeepsMachine(crdt, history, m, m', key,
        BaselinePresent(op.local.contentId, op.local.version, op.remoteHeads));
    } else if op.EstablishDeletedBaseline? {
      RecordKeepsMachine(crdt, history, m, m', key, BaselineDeleted(op.remoteHeads));
    } else {
      UntouchedKeepsMachine(crdt, history, m, m', key);
    }
  }

  lemma DownloadKeepsMachine(crdt: Crdt, history: CommitMap, m: Machine, m': Machine, step: Step)
    requires NoText(history) && MachineOk(crdt, history, m) && step.Apply? && ApplyStep(crdt, m, m', step)
    requires var planned := StateIn(m.phase.inventory, step.key);
             && m.phase.plan[step.key].Download? && Matches(m.replica.SlotOf(step.key), planned)
             && OperationOk(crdt, history, m.replica.commits, planned, step.key, m.phase.plan[step.key], false)
    ensures MachineOk(crdt, history, m')
  {
    var key, remote := step.key, m.phase.plan[step.key].remote;
    DownloadWritesPlannedContent(crdt, history, m, step);
    WriteKeepsMachine(crdt, history, m, key, File(step.bytes, step.token),
                      BaselinePresent(remote.contentId, step.token, remote.heads));
  }

  /** Recording a baseline issues no token that the slot does not have already. */
  lemma RecordKeepsMachine(crdt: Crdt, history: CommitMap, m: Machine, m': Machine, key: ResourceKey, b: BaselineState)
    requires MachineOk(crdt, history, m) && m.phase.Planned?
    requires BaselineOk(history, m.issued, key, m.replica.SlotOf(key), b)
    requires m' == Issue(Tried(m.(replica := m.replica.WithBaseline(key, b)), key), key, m.replica.SlotOf(key))
    ensures MachineOk(crdt, history, m')
  {
    EstablishKeepsMachine(crdt, history, m, key, b);
    UntouchedSlot(m, key);
  }

  lemma UntouchedSlot(m: Machine, key: ResourceKey)
    requires SlotsIssued(m)
    ensures Issue(m, key, m.replica.SlotOf(key)) == m
  {
    if !m.replica.SlotOf(key).Absent? {
      assert m.issued + {(key, m.replica.SlotOf(key).version)} == m.issued;
    }
  }

  function Tried(m: Machine, key: ResourceKey): Machine
    requires m.phase.Planned?
  {
    m.(phase := m.phase.(done := m.phase.done + {key}))
  }

  lemma TriedKeepsMachine(crdt: Crdt, history: CommitMap, m: Machine, key: ResourceKey)
    requires MachineOk(crdt, history, m) && m.phase.Planned?
    ensures MachineOk(crdt, history, Tried(m, key))
  {
    var m' := Tried(m, key);
    forall k | k in m'.phase.plan
      ensures OperationOk(crdt, history, m'.replica.commits, StateIn(m'.phase.inventory, k), k, m'.phase.plan[k],
        k in m'.phase.done)
    {
      assert OperationOk(crdt, history, m.replica.commits, StateIn(m.phase.inventory, k), k, m.phase.plan[k],
        k in m.phase.done);
    }
  }

  lemma WriteKeepsMachine(crdt: Crdt, history: CommitMap, m: Machine, key: ResourceKey, slot: Slot, b: BaselineState)
    requires MachineOk(crdt, history, m) && m.phase.Planned?
    requires slot.Absent? || (key, slot.version) !in m.issued
    requires b.BaselinePresent? ==>
      slot.File? && slot.version == b.localVersion && Digest(slot.data) == b.contentId
      && Committed(history, b.contentId)
    ensures MachineOk(crdt, history,
      Tried(Issue(m, key, slot).(replica := m.replica.WithSlot(key, slot).WithBaseline(key, b)), key))
  {
    var m1 := Issue(m, key, slot).(replica := m.replica.WithSlot(key, slot));
    SlotChange(history, m, key, slot);
    SlotChangeKeepsPhase(crdt, history, m, key, slot);
    EstablishKeepsMachine(crdt, history, m1, key, b);
  }

  lemma EstablishKeepsMachine(crdt: Crdt, history: CommitMap, m: Machine, key: ResourceKey, b: BaselineState)
    requires MachineOk(crdt, history, m) && m.phase.Planned?
    requires BaselineOk(history, m.issued, key, m.replica.SlotOf(key), b)
    ensures MachineOk(crdt, history, Tried(m.(replica := m.replica.WithBaseline(key, b)), key))
  {
    BaselineChange(history, m, key, b);
    TriedKeepsMachine(crdt, history, m, key);
  }

  lemma UntouchedKeepsMachine(crdt: Crdt, history: CommitMap, m: Machine, m': Machine, key: ResourceKey)
    requires MachineOk(crdt, history, m) && m.phase.Planned?
    requires m' == Issue(Tried(m, key), key, m.replica.SlotOf(key))
    ensures MachineOk(crdt, history, m')
  {
    TriedKeepsMachine(crdt, history, m, key);
    UntouchedSlot(m, key);
  }

  // ---- Every step, every run ----

  lemma EngineStepKeepsMachine(crdt: Crdt, history: CommitMap, m: Machine, m': Machine, step: Step)
    requires NoText(history) && MachineOk(crdt, history, m) && EngineStep(crdt, history, m, m', step) && !step.Commit?
    ensures MachineOk(crdt, history, m')
  {
    match step
    case Plan(_, scopes) => PlanKeepsMachine(crdt, history, m, m', scopes);
    case Apply(_, _, _, _, _) => ApplyKeepsMachine(crdt, history, m, m', step);
    case _ =>
      if ReadStep(m, m', step) {
        ListAndReadKeepMachine(crdt, history, m, m', step);
      } else {
        IdleStepKeepsMachine(crdt, history, m, m', step);
      }
  }

  lemma IdleStepKeepsMachine(crdt: Crdt, history: CommitMap, m: Machine, m': Machine, step: Step)
    requires MachineOk(crdt, history, m) && IdleStep(history, m, m', step)
    ensures MachineOk(crdt, history, m')
  {
    assert m'.replica.slots == m.replica.slots && m'.replica.baselines == m.replica.baselines && m'.issued == m.issued;
    forall key | key in m'.replica.baselines
      ensures BaselineOk(history, m'.issued, key, m'.replica.SlotOf(key), m'.replica.baselines[key])
    {
      assert BaselineOk(history, m.issued, key, m.replica.SlotOf(key), m.replica.baselines[key]);
    }
  }

  lemma CommitKeepsInv(crdt: Crdt, w: World, w': World, step: Step)
    requires Inv(crdt, w) && Next(crdt, w, w', step) && step.Commit?
    ensures Inv(crdt, w')
  {
    var c := step.client;
    assert MachineOk(crdt, w.history, w.machines[c]) && NoText(w.history);
    CommitKeepsMachine(crdt, w.history, w.machines[c], w'.machines[c], step);
    forall d | d in w.machines && d != c ensures MachineOk(crdt, w'.history, w'.machines[d]) {
      HistoryGrows(crdt, w.history, step.commit, w.machines[d]);
    }
  }

  lemma OneMachineMoves(crdt: Crdt, w: World, w': World, c: ClientId)
    requires Inv(crdt, w) && w'.history == w.history && c in w'.machines
    requires w'.machines == w.machines[c := w'.machines[c]] && MachineOk(crdt, w.history, w'.machines[c])
    ensures Inv(crdt, w')
  {
    forall d | d in w'.machines ensures MachineOk(crdt, w'.history, w'.machines[d]) {
      assert d != c ==> w'.machines[d] == w.machines[d];
    }
  }

  lemma StepKeepsInv(crdt: Crdt, w: World, w': World, step: Step)
    requires Inv(crdt, w) && Next(crdt, w, w', step)
    ensures Inv(crdt, w')
  {
    var c := step.client;
    if step.Commit? {
      CommitKeepsInv(crdt, w, w', step);
    } else {
      if !step.Join? {
        assert MachineOk(crdt, w.history, w.machines[c]);
        MachineStepKeepsMachine(crdt, w.history, w.machines[c], w'.machines[c], step);
      }
      OneMachineMoves(crdt, w, w', c);
    }
  }

  lemma MachineStepKeepsMachine(crdt: Crdt, history: CommitMap, m: Machine, m': Machine, step: Step)
    requires NoText(history) && MachineOk(crdt, history, m) && !step.Commit?
    requires if step.ByUser() then UserStep(m, m', step) else EngineStep(crdt, history, m, m', step)
    ensures MachineOk(crdt, history, m')
  {
    if step.ByUser() {
      UserStepKeepsMachine(crdt, history, m, m', step);
    } else {
      EngineStepKeepsMachine(crdt, history, m, m', step);
    }
  }

  /** The engine took a file away: it was replaced or removed. */
  ghost predicate Destroys(w: World, w': World, c: ClientId, key: ResourceKey) {
    && c in w.machines && c in w'.machines
    && w.machines[c].replica.SlotOf(key).File?
    && w'.machines[c].replica.SlotOf(key) != w.machines[c].replica.SlotOf(key)
  }

  /** An applied operation that takes a file away takes away committed content. */
  lemma AppliedStepDestroysOnlyCommitted(crdt: Crdt, history: CommitMap, m: Machine, m': Machine, step: Step)
    requires MachineOk(crdt, history, m) && step.Apply? && ApplyStep(crdt, m, m', step)
    requires m.replica.SlotOf(step.key).File? && m'.replica.SlotOf(step.key) != m.replica.SlotOf(step.key)
    ensures Committed(history, Digest(m.replica.SlotOf(step.key).data))
  {
    var key, inventory := step.key, m.phase.inventory;
    var planned := StateIn(inventory, key);
    assert OperationOk(crdt, history, m.replica.commits, planned, key, m.phase.plan[key], false);
    assert key in inventory ==> StateOk(m.issued, key, m.replica.SlotOf(key), planned);
  }

  lemma StepDestroysOnlyCommitted(crdt: Crdt, w: World, w': World, step: Step, c: ClientId, key: ResourceKey)
    requires Inv(crdt, w) && Next(crdt, w, w', step) && !step.ByUser() && Destroys(w, w', c, key)
    ensures Committed(w.history, Digest(w.machines[c].replica.SlotOf(key).data))
  {
    assert step.client == c;
    var m, m' := w.machines[c], w'.machines[c];
    if step.Commit? {
      CommitKeepsBaselines(crdt, w.history, m, m', step);
      assert false;
    } else {
      OnlyApplyTouchesSlots(crdt, w.history, m, m', step, key);
      AppliedStepDestroysOnlyCommitted(crdt, w.history, m, m', step);
    }
  }

  lemma OnlyApplyTouchesSlots(crdt: Crdt, history: CommitMap, m: Machine, m': Machine, step: Step, key: ResourceKey)
    requires EngineStep(crdt, history, m, m', step) && !step.Commit? && m'.replica.SlotOf(key) != m.replica.SlotOf(key)
    requires MachineOk(crdt, history, m)
    ensures step.Apply? && step.key == key
  {
    if step.Apply? {
      var planned := StateIn(m.phase.inventory, step.key);
      assert OperationOk(crdt, history, m.replica.commits, planned, step.key, m.phase.plan[step.key], false);
      OperationTouchesItsSlot(m.replica, m.phase.plan[step.key], planned, step.bytes, step.left, step.token, key);
    }
  }

  lemma OperationTouchesItsSlot(
    r: Replica, op: PlanOperation, planned: ReplicaState, bytes: Bytes, left: Slot, token: Token, key: ResourceKey)
    ensures key != op.Key() ==> ApplyOperation(r, Binary, op, planned, bytes, left, token).SlotOf(key) == r.SlotOf(key)
  {
  }

  ghost predicate StepAt(crdt: Crdt, ws: seq<World>, steps: seq<Step>, i: nat)
    requires |ws| == |steps| + 1 && i < |steps|
  {
    Next(crdt, ws[i], ws[i + 1], steps[i])
  }

  ghost predicate IsRun(crdt: Crdt, ws: seq<World>, steps: seq<Step>) {
    && |ws| == |steps| + 1 && ws[0] == World(map[], map[])
    && forall i: nat :: i < |steps| ==> StepAt(crdt, ws, steps, i)
  }

  lemma RunTakesStep(crdt: Crdt, ws: seq<World>, steps: seq<Step>, i: nat)
    requires IsRun(crdt, ws, steps) && i < |steps|
    ensures Next(crdt, ws[i], ws[i + 1], steps[i])
  {
    assert StepAt(crdt, ws, steps, i);
  }

  lemma {:induction false} RunKeepsInv(crdt: Crdt, ws: seq<World>, steps: seq<Step>, i: nat)
    requires IsRun(crdt, ws, steps) && i < |ws|
    ensures Inv(crdt, ws[i])
  {
    if i > 0 {
      RunKeepsInv(crdt, ws, steps, i - 1);
      RunTakesStep(crdt, ws, steps, i - 1);
      StepKeepsInv(crdt, ws[i - 1], ws[i], steps[i - 1]);
    }
  }

  lemma {:induction false} HistoryOnlyGrows(crdt: Crdt, ws: seq<World>, steps: seq<Step>, i: nat, j: nat)
    requires IsRun(crdt, ws, steps) && i <= j < |ws|
    ensures forall id :: id in ws[i].history ==> id in ws[j].history && ws[j].history[id] == ws[i].history[id]
  {
    if i < j {
      HistoryOnlyGrows(crdt, ws, steps, i, j - 1);
      RunTakesStep(crdt, ws, steps, j - 1);
    }
  }

  /** Over every run of user writes, user deletes and reconciles, whatever a step of the
      engine overwrites or deletes is the content of a commit, now and ever after. */
  lemma ReconcileNeverDestroysTheOnlyCopy(
    crdt: Crdt, ws: seq<World>, steps: seq<Step>, i: nat, j: nat, c: ClientId, key: ResourceKey)
    requires IsRun(crdt, ws, steps) && i < |steps| && !steps[i].ByUser() && Destroys(ws[i], ws[i + 1], c, key)
    requires i <= j < |ws|
    ensures Committed(ws[j].history, Digest(ws[i].machines[c].replica.SlotOf(key).data))
  {
    RunKeepsInv(crdt, ws, steps, i);
    RunTakesStep(crdt, ws, steps, i);
    StepDestroysOnlyCommitted(crdt, ws[i], ws[i + 1], steps[i], c, key);
    HistoryOnlyGrows(crdt, ws, steps, i, j);
    CommittedGrows(ws[i].history, ws[j].history, Digest(ws[i].machines[c].replica.SlotOf(key).data));
  }
}
