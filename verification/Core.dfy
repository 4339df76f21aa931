/** The backend-independent three-way planner (src/core.rs). */
module Core {
  import opened Types

  /** Plan one resource from its local, acknowledged and remote states. */
  function PlanResource(
    key: ResourceKey, local: ReplicaState, baseline: Option<BaselineState>, remote: RemoteResourceState)
    : (op: PlanOperation)
    ensures op.Key() == key
  {
    match (local, remote, baseline)
    case (_, RemoteForked(heads), _) =>
      Conflict(ConflictRecord(key, RemoteFork, local, heads))
    case (LocalPresent(id, _, _), RemotePresent(remoteId, _, heads), b) =>
      if id == remoteId then EstablishBaseline(key, local, heads)
      else if b.None? then Conflict(ConflictRecord(key, InitialDivergence, local, heads))
      else if b.value.BaselinePresent? && id == b.value.contentId then Download(key, remote)
      else if b.value.BaselinePresent? && remoteId == b.value.contentId then Upload(key, local)
      else Conflict(ConflictRecord(key, ContentVsContent, local, heads))
    case (LocalPresent(_, _, _), RemoteMissing, _) =>
      Upload(key, local)
    case (LocalPresent(id, _, _), RemoteDeleted(heads), b) =>
      if b.Some? && b.value.BaselinePresent? && id == b.value.contentId then ApplyDelete(key, local, heads)
      else if b.Some? && b.value.BaselineDeleted? then Upload(key, local)
      else Conflict(ConflictRecord(key, ModifyVsDelete, local, heads))
    case (_, RemotePresent(remoteId, _, heads), b) =>
      if b.None? || b.value.BaselineDeleted? then Download(key, remote)
      else if remoteId == b.value.contentId then PublishDelete(key)
      else Conflict(ConflictRecord(key, DeleteVsModify, local, heads))
    case (_, RemoteDeleted(heads), _) =>
      EstablishDeletedBaseline(key, heads)
    case (_, RemoteMissing, _) =>
      Noop(key)
  }

  /** Plan the union of local, baseline and remote resources: one operation per key. */
  function PlanInventory(
    local: map<ResourceKey, ReplicaState>,
    baselines: map<ResourceKey, BaselineState>,
    remote: map<ResourceKey, RemoteResourceState>)
    : (plan: map<ResourceKey, PlanOperation>)
    ensures plan.Keys == local.Keys + baselines.Keys + remote.Keys
    ensures forall key :: key in plan ==> plan[key].Key() == key
  {
    map key | key in local.Keys + baselines.Keys + remote.Keys ::
      PlanResource(
        key,
        if key in local then local[key] else LocalMissing,
        if key in baselines then Some(baselines[key]) else None,
        if key in remote then remote[key] else RemoteMissing)
  }

  // ---- What the decision table means ----

  /** Outcome of a textbook three-way merge of optional contents. */
  datatype Merge = Agree | TakeRemote | TakeLocal | Diverge

  /** Reference definition: the side that still equals the base gives way. */
  function ThreeWay(base: Option<Digest>, local: Option<Digest>, remote: Option<Digest>): Merge {
    if local == remote then Agree
    else if local == base then TakeRemote
    else if remote == base then TakeLocal
    else Diverge
  }

  function BaseContent(baseline: Option<BaselineState>): Option<Digest> {
    if baseline.Some? && baseline.value.BaselinePresent? then Some(baseline.value.contentId) else None
  }

  function RemoteContent(remote: RemoteResourceState): Option<Digest> {
    if remote.RemotePresent? then Some(remote.contentId) else None
  }

  /** What an operation does about a difference between the two sides. */
  function Effect(op: PlanOperation): Merge {
    match op
    case Noop(_) => Agree
    case EstablishBaseline(_, _, _) => Agree
    case EstablishDeletedBaseline(_, _) => Agree
    case Upload(_, _) => TakeLocal
    case PublishDelete(_) => TakeLocal
    case Download(_, _) => TakeRemote
    case ApplyDelete(_, _, _) => TakeRemote
    case Conflict(_) => Diverge
  }

  /** The inputs on which the planner departs from a three-way merge: a fork, a local
      file nobody published yet, and a tombstone met by a file with no baseline. */
  predicate Exceptional(local: ReplicaState, baseline: Option<BaselineState>, remote: RemoteResourceState) {
    || remote.RemoteForked?
    || (local.LocalPresent? && remote.RemoteMissing?)
    || (local.LocalPresent? && remote.RemoteDeleted? && baseline.None?)
  }

  /** Outside the exceptional inputs the planner is the three-way merge; on them it
      keeps both sides (conflict) or publishes the only copy there is. */
  lemma PlannerIsThreeWayMerge(
    key: ResourceKey, local: ReplicaState, baseline: Option<BaselineState>, remote: RemoteResourceState)
    ensures var op := PlanResource(key, local, baseline, remote);
            if !Exceptional(local, baseline, remote) then
              Effect(op) == ThreeWay(BaseContent(baseline), local.ContentId(), RemoteContent(remote))
            else if remote.RemoteMissing? then Effect(op) == TakeLocal
            else Effect(op) == Diverge
  {
  }

  /** Planning an inventory misses no resource that any side knows, and plans each of them
      by the three-way merge of what the sides say about that resource. */
  lemma InventoryIsThreeWayMerge(
    local: map<ResourceKey, ReplicaState>, baselines: map<ResourceKey, BaselineState>,
    remote: map<ResourceKey, RemoteResourceState>, key: ResourceKey)
    ensures var plan := PlanInventory(local, baselines, remote);
            var ours := if key in local then local[key] else LocalMissing;
            var base := if key in baselines then Some(baselines[key]) else None;
            var theirs := if key in remote then remote[key] else RemoteMissing;
            && (key in plan <==> key in local || key in baselines || key in remote)
            && (key in plan ==>
                  && plan[key].Key() == key
                  && if !Exceptional(ours, base, theirs) then
                       Effect(plan[key]) == ThreeWay(BaseContent(base), ours.ContentId(), RemoteContent(theirs))
                     else Effect(plan[key]) == if theirs.RemoteMissing? then TakeLocal else Diverge)
  {
    var ours := if key in local then local[key] else LocalMissing;
    var base := if key in baselines then Some(baselines[key]) else None;
    PlannerIsThreeWayMerge(key, ours, base, if key in remote then remote[key] else RemoteMissing);
  }

  /** A planned operation that replaces or removes a present local file has seen it
      unchanged since the acknowledged baseline. */
  lemma OverwritesOnlyTheBaseline(
    key: ResourceKey, local: ReplicaState, baseline: Option<BaselineState>, remote: RemoteResourceState)
    requires local.LocalPresent?
    requires PlanResource(key, local, baseline, remote).Download?
      || PlanResource(key, local, baseline, remote).ApplyDelete?
    ensures baseline.Some? && baseline.value.BaselinePresent? && baseline.value.contentId == local.contentId
  {
  }

  /** A conflict records the local state and all remote heads, and its kind says which
      sides had moved: both directions. */
  lemma ConflictTellsBothSides(
    key: ResourceKey, local: ReplicaState, baseline: Option<BaselineState>, remote: RemoteResourceState)
    requires PlanResource(key, local, baseline, remote).Conflict?
    ensures var record := PlanResource(key, local, baseline, remote).record;
            && record.resource == key && record.local == local
            && !remote.RemoteMissing? && record.remoteHeads == remote.heads
            && (record.kind == RemoteFork <==> remote.RemoteForked?)
            && (record.kind == ModifyVsDelete <==> local.LocalPresent? && remote.RemoteDeleted?)
            && (record.kind == DeleteVsModify <==> !local.LocalPresent? && remote.RemotePresent?)
            && (record.kind == InitialDivergence <==> local.LocalPresent? && remote.RemotePresent? && baseline.None?)
            && (record.kind == ContentVsContent <==> local.LocalPresent? && remote.RemotePresent? && baseline.Some?)
  {
  }

  /** What an operation acts on is what was observed: the acknowledged heads are all remote
      heads, and the planned local state is the one later used as precondition. */
  lemma OperationsCarryWhatWasSeen(
    key: ResourceKey, local: ReplicaState, baseline: Option<BaselineState>, remote: RemoteResourceState)
    ensures match PlanResource(key, local, baseline, remote)
            case EstablishBaseline(_, state, heads) => state == local && remote.RemotePresent? && heads == remote.heads
            case EstablishDeletedBaseline(_, heads) => remote.RemoteDeleted? && heads == remote.heads
              && !local.LocalPresent?
            case Upload(_, state) => state == local && local.LocalPresent?
            case Download(_, source) => source == remote && remote.RemotePresent?
            case PublishDelete(_) => !local.LocalPresent?
            case ApplyDelete(_, state, heads) => state == local && remote.RemoteDeleted? && heads == remote.heads
            case Noop(_) => !local.LocalPresent? && remote.RemoteMissing?
            case Conflict(_) => true
  {
  }
}
