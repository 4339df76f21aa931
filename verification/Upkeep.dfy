/** What one run of maintenance makes of every resource (`maintain` in src/runtime.rs). */
module Upkeep {
  import opened Types
  import opened CommitGraph
  import opened Remote
  import opened Retention
  import opened Catalog
  import opened CatalogProofs
  import opened Execution
  import opened Views
  import opened Maintenance

  // ---- The decision about one resource ----

  /** The resource is recorded as text, or not recorded and its last commit is a text edit. */
  ghost predicate IsText(kinds: map<ResourceKey, ResourceKind>, own: CommitMap, key: ResourceKey) {
    if key in kinds then kinds[key] == Text
    else exists id :: id in own && own[id].change.TextDelta? && forall other :: other in own ==> other <= id
  }

  lemma RetentionKindMeaning(kinds: map<ResourceKey, ResourceKind>, own: CommitMap, key: ResourceKey)
    ensures RetentionKind(kinds, own, key) == Text <==> IsText(kinds, own, key)
  {
    if key !in kinds && own != map[] {
      var last := Last(own.Keys);
      assert last in own && forall other :: other in own ==> other <= last;
    }
  }

  /** The order of the checks: too short, disputed or text, no checkpoint, not
      acknowledged, nothing outside what is retained. */
  ghost function VerdictOf(
    c: Client, acks: map<AckKey, ResourceAck>, self: ClientId, key: ResourceKey, policy: Policy): Verdict
  {
    if |ResourceCommits(c.commits, key)| <= policy.keep then Short
    else if Postponed(c.commits, key, policy) then Postpone
    else if key !in c.checkpoints then NeedsCheckpoint
    else CheckpointVerdict(
      AllAcknowledged(c.commits, acks, c.retired, self, key, c.checkpoints[key]), ObsoleteOf(c, acks, key, policy.keep))
  }

  function CheckpointVerdict(acknowledged: bool, obsolete: set<CommitId>): Verdict {
    if !acknowledged then Waiting else if obsolete == {} then Nothing else Drop(obsolete)
  }

  /** No run touches the history of the resource for now. */
  ghost predicate LeftAlone(m: CommitMap, key: ResourceKey, policy: Policy) {
    |Heads(m, key)| != 1 || key in policy.held || IsText(policy.kinds, ResourceCommits(m, key), key)
  }

  /** The commit lies outside what is retained: at least `keep` commits of the resource
      are newer, by timestamp and then by identifier, it is not the checkpoint, and nobody
      has pinned it. */
  ghost predicate Outlived(c: Client, acks: map<AckKey, ResourceAck>, key: ResourceKey, keep: nat, id: CommitId)
    requires key in c.checkpoints
  {
    var own := ResourceCommits(c.commits, key);
    && id in own && id != c.checkpoints[key]
    && (forall k :: k in acks && acks[k].resource == key ==> id !in acks[k].pinned)
    && keep <= |set other | other in own
                  && (own[other].timestamp > own[id].timestamp
                      || (own[other].timestamp == own[id].timestamp && own[other].id > own[id].id))|
  }

  lemma VerdictMeaning(c: Client, acks: map<AckKey, ResourceAck>, self: ClientId, key: ResourceKey, policy: Policy)
    ensures var own, verdict := ResourceCommits(c.commits, key), VerdictOf(c, acks, self, key, policy);
            && (verdict.Short? <==> |own| <= policy.keep)
            && (verdict.Postpone? <==> |own| > policy.keep && LeftAlone(c.commits, key, policy))
            && (verdict.NeedsCheckpoint? <==>
                  |own| > policy.keep && !LeftAlone(c.commits, key, policy) && key !in c.checkpoints)
            && (verdict.Waiting? || verdict.Nothing? || verdict.Drop? ==> key in c.checkpoints)
            && (verdict.Drop? ==>
                  && |own| > policy.keep && !LeftAlone(c.commits, key, policy)
                  && verdict.obsolete != {}
                  && forall id :: id in verdict.obsolete <==> Outlived(c, acks, key, policy.keep, id))
            && (verdict.Nothing? ==> forall id :: !Outlived(c, acks, key, policy.keep, id))
  {
    PostponedMeaning(c.commits, key, policy);
    if key in c.checkpoints {
      AllObsolete(c, acks, key, policy.keep);
    }
  }

  lemma PostponedMeaning(m: CommitMap, key: ResourceKey, policy: Policy)
    ensures Postponed(m, key, policy) <==> LeftAlone(m, key, policy)
  {
    RetentionKindMeaning(policy.kinds, ResourceCommits(m, key), key);
  }

  lemma AllObsolete(c: Client, acks: map<AckKey, ResourceAck>, key: ResourceKey, keep: nat)
    requires key in c.checkpoints
    ensures forall id :: id in ObsoleteOf(c, acks, key, keep) <==> Outlived(c, acks, key, keep, id)
  {
    forall id ensures id in ObsoleteOf(c, acks, key, keep) <==> Outlived(c, acks, key, keep, id) {
      ObsoleteMeaning(c, acks, key, keep, id);
    }
  }

  lemma ObsoleteMeaning(c: Client, acks: map<AckKey, ResourceAck>, key: ResourceKey, keep: nat, id: CommitId)
    requires key in c.checkpoints
    ensures id in ObsoleteOf(c, acks, key, keep) <==> Outlived(c, acks, key, keep, id)
  {
    var own := ResourceCommits(c.commits, key);
    if id in own {
      assert NewerThan(own, id) ==
             set other | other in own
               && (own[other].timestamp > own[id].timestamp
                   || (own[other].timestamp == own[id].timestamp && own[other].id > own[id].id));
    }
  }

  /** Every active client has acknowledged, and whoever authored a commit of the resource
      and is not retired is active, as is the maintainer. */
  lemma WaitingMeaning(c: Client, acks: map<AckKey, ResourceAck>, self: ClientId, key: ResourceKey, policy: Policy)
    requires key in c.checkpoints
    requires |ResourceCommits(c.commits, key)| > policy.keep && !LeftAlone(c.commits, key, policy)
    ensures VerdictOf(c, acks, self, key, policy).Waiting? <==>
            exists client ::
              && (client == self
                  || (client !in c.retired
                      && exists id ::
                          id in c.commits && c.commits[id].resource == key && c.commits[id].author == client))
              && !HasAcknowledged(c.commits, acks, client, key, c.checkpoints[key])
  {
    RetentionKindMeaning(policy.kinds, ResourceCommits(c.commits, key), key);
    var active := ActiveClients(ResourceCommits(c.commits, key), c.retired, self);
    forall client
      ensures client in active <==>
              client == self
              || (client !in c.retired
                  && exists id :: id in c.commits && c.commits[id].resource == key && c.commits[id].author == client)
    {
      if client in Authors(ResourceCommits(c.commits, key)) {
        var id :| id in ResourceCommits(c.commits, key) && ResourceCommits(c.commits, key)[id].author == client;
        assert c.commits[id].author == client;
      }
      if id :| id in c.commits && c.commits[id].resource == key && c.commits[id].author == client {
        assert id in ResourceCommits(c.commits, key);
      }
    }
  }

  // ---- It does not depend on when it is made ----

  lemma AllAcknowledgedFrame(
    c: Client, c': Client, acks: map<AckKey, ResourceAck>, acks': map<AckKey, ResourceAck>, self: ClientId,
    key: ResourceKey)
    requires SameResource(c.commits) && CheckpointsOk(c) && AcksFiled(acks) && key in c.checkpoints
    requires SameRecord(c, c', key) && SameAcks(acks, acks', key)
    requires AllAcknowledged(c.commits, acks, c.retired, self, key, c.checkpoints[key])
    ensures AllAcknowledged(c'.commits, acks', c'.retired, self, key, c.checkpoints[key])
  {
    assert c.checkpoints[key] in ResourceCommits(c.commits, key);
    forall client | client in ActiveClients(ResourceCommits(c'.commits, key), c'.retired, self)
      ensures HasAcknowledged(c'.commits, acks', client, key, c.checkpoints[key])
    {
      AcknowledgedFrame(c.commits, c'.commits, acks, acks', client, key, c.checkpoints[key]);
    }
  }

  lemma SameGate(
    c: Client, c': Client, acks: map<AckKey, ResourceAck>, acks': map<AckKey, ResourceAck>, self: ClientId,
    key: ResourceKey)
    requires SameResource(c.commits) && CheckpointsOk(c) && AcksFiled(acks) && key in c.checkpoints
    requires SameResource(c'.commits) && CheckpointsOk(c') && AcksFiled(acks') && key in c'.checkpoints
    requires SameRecord(c, c', key) && SameAcks(acks, acks', key)
    ensures AllAcknowledged(c.commits, acks, c.retired, self, key, c.checkpoints[key])
            <==> AllAcknowledged(c'.commits, acks', c'.retired, self, key, c'.checkpoints[key])
  {
    if AllAcknowledged(c.commits, acks, c.retired, self, key, c.checkpoints[key]) {
      AllAcknowledgedFrame(c, c', acks, acks', self, key);
    }
    if AllAcknowledged(c'.commits, acks', c'.retired, self, key, c'.checkpoints[key]) {
      AllAcknowledgedFrame(c', c, acks', acks, self, key);
    }
  }

  lemma PostponedFrame(m: CommitMap, m': CommitMap, key: ResourceKey, policy: Policy)
    requires ResourceCommits(m, key) == ResourceCommits(m', key)
    ensures Postponed(m, key, policy) <==> Postponed(m', key, policy)
  {
    HeadsFrame(m, m', key);
  }

  lemma ObsoleteFrame(
    c: Client, c': Client, acks: map<AckKey, ResourceAck>, acks': map<AckKey, ResourceAck>, key: ResourceKey, keep: nat)
    requires key in c.checkpoints && SameRecord(c, c', key)
    requires AcksFiled(acks) && AcksFiled(acks') && SameAcks(acks, acks', key)
    ensures ObsoleteOf(c, acks, key, keep) == ObsoleteOf(c', acks', key, keep)
  {
    PinnedFrame(acks, acks', key);
  }

  lemma VerdictFrame(
    c: Client, c': Client, acks: map<AckKey, ResourceAck>, acks': map<AckKey, ResourceAck>, self: ClientId,
    key: ResourceKey, policy: Policy)
    requires SameResource(c.commits) && CheckpointsOk(c) && AcksFiled(acks)
    requires SameResource(c'.commits) && CheckpointsOk(c') && AcksFiled(acks')
    requires SameRecord(c, c', key) && SameAcks(acks, acks', key)
    ensures VerdictOf(c, acks, self, key, policy) == VerdictOf(c', acks', self, key, policy)
  {
    PostponedFrame(c.commits, c'.commits, key, policy);
    if key in c.checkpoints {
      SameGate(c, c', acks, acks', self, key);
      ObsoleteFrame(c, c', acks, acks', key, policy.keep);
    }
  }

  // ---- Acting on it ----

  /** What is done about one resource, as a change of the system. */
  ghost predicate Acted(
    crdt: Crdt, w: World, w': World, self: ClientId, key: ResourceKey, verdict: Verdict, id: CommitId)
  {
    && self in w.clients
    && match verdict
       case Short => w' == AfterClear(w, self, key)
       case Nothing => w' == AfterClear(w, self, key)
       case NeedsCheckpoint => exists c: Commit :: c.id == id && Checkpointed(crdt, w, w', self, key, c)
       case _ => w' == w
  }

  /** A copy of the only head was published on top of it and recorded. */
  ghost predicate IsNewCheckpoint(crdt: Crdt, c0: Client, c: Client, key: ResourceKey, copy: Commit) {
    && copy.resource == key && copy.parents == Heads(c0.commits, key)
    && (forall head :: head in copy.parents ==> CopiesContent(crdt, c0.commits, key, head, copy))
    && ResourceCommits(c.commits, key) == ResourceCommits(c0.commits, key)[copy.id := copy]
    && key in c.checkpoints && c.checkpoints[key] == copy.id
  }

  ghost predicate SameCheckpoint(c0: Client, c: Client, key: ResourceKey) {
    && (key in c.checkpoints <==> key in c0.checkpoints)
    && (key in c.checkpoints && key in c0.checkpoints ==> c.checkpoints[key] == c0.checkpoints[key])
  }

  /** What the survey made of one resource, by the verdict about it at the start. */
  ghost predicate TendedAs(crdt: Crdt, c0: Client, c: Client, key: ResourceKey, verdict: Verdict, id: CommitId) {
    match verdict
    case NeedsCheckpoint => exists copy: Commit :: copy.id == id && IsNewCheckpoint(crdt, c0, c, key, copy)
    case _ =>
      && ResourceCommits(c.commits, key) == ResourceCommits(c0.commits, key)
      && if verdict.Short? || verdict.Nothing? then key !in c.checkpoints else SameCheckpoint(c0, c, key)
  }

  ghost function VerdictAt(w: World, self: ClientId, key: ResourceKey, policy: Policy): Verdict
    requires self in w.clients
  {
    VerdictOf(w.clients[self], w.remote.acks, self, key, policy)
  }

  /** The commits published so far are the copies made. */
  ghost predicate OnlyCopies(
    start: World, w: World, self: ClientId, policy: Policy, done: set<ResourceKey>, ids: ResourceKey -> CommitId)
    requires self in start.clients
  {
    forall id :: id in w.published && id !in start.published ==>
      exists key :: key in done && id == ids(key) && VerdictAt(start, self, key, policy).NeedsCheckpoint?
  }

  /** The resources in `done` were tended, each by its own verdict, and nothing else. */
  ghost predicate Tended(
    crdt: Crdt, start: World, w: World, self: ClientId, policy: Policy, done: set<ResourceKey>,
    ids: ResourceKey -> CommitId)
  {
    && self in start.clients && self in w.clients
    && AllTended(crdt, start, w, self, policy, done, ids)
    && OthersUntouched(start, w, self, done)
    && OnlyCopies(start, w, self, policy, done, ids)
  }

  ghost predicate AllTended(
    crdt: Crdt, start: World, w: World, self: ClientId, policy: Policy, done: set<ResourceKey>,
    ids: ResourceKey -> CommitId)
    requires self in start.clients && self in w.clients
  {
    forall key :: key in done ==>
      TendedAs(crdt, start.clients[self], w.clients[self], key, VerdictAt(start, self, key, policy), ids(key))
  }

  ghost predicate OthersUntouched(start: World, w: World, self: ClientId, done: set<ResourceKey>) {
    forall key :: key !in done ==> Untouched(start, w, self, key)
  }

  lemma NothingTended(crdt: Crdt, start: World, self: ClientId, policy: Policy, ids: ResourceKey -> CommitId)
    requires self in start.clients
    ensures Tended(crdt, start, start, self, policy, {}, ids)
  {
  }

  /** The tended resources stay so while another is dealt with. */
  lemma TendedFrame(
    crdt: Crdt, c0: Client, c: Client, c': Client, key: ResourceKey, verdict: Verdict, id: CommitId)
    requires TendedAs(crdt, c0, c, key, verdict, id) && SameRecord(c, c', key)
    ensures TendedAs(crdt, c0, c', key, verdict, id)
  {
    if verdict.NeedsCheckpoint? {
      var copy: Commit :| copy.id == id && IsNewCheckpoint(crdt, c0, c, key, copy);
      assert IsNewCheckpoint(crdt, c0, c', key, copy);
    }
  }

  lemma CopyFrame(crdt: Crdt, m: CommitMap, n: CommitMap, key: ResourceKey, head: CommitId, copy: Commit)
    requires ResourceCommits(m, key) == ResourceCommits(n, key) && SameResource(m) && SameResource(n)
    requires head in ResourceCommits(m, key) && CopiesContent(crdt, m, key, head, copy)
    ensures CopiesContent(crdt, n, key, head, copy)
  {
    SameCommit(m, n, key, head);
    if !m[head].change.Delete? {
      var bytes :| IsContentOf(crdt, m, key, head, bytes)
                   && copy.change.BinarySnapshot? && copy.change.contentId == Digest(bytes)
                   && copy.change.size == |bytes|;
      ContentFrame(crdt, m, n, key, head, bytes);
    }
  }

  /** Acting on an untouched resource tends it. */
  lemma ActedIsTended(
    crdt: Crdt, maintainer: ClientId, start: World, w: World, w': World, key: ResourceKey, verdict: Verdict,
    id: CommitId)
    requires Inv(maintainer, start) && Inv(maintainer, w) && Untouched(start, w, maintainer, key)
    requires Acted(crdt, w, w', maintainer, key, verdict, id)
    ensures maintainer in w'.clients
    ensures TendedAs(crdt, start.clients[maintainer], w'.clients[maintainer], key, verdict, id)
  {
    if verdict.NeedsCheckpoint? {
      var c: Commit :| c.id == id && Checkpointed(crdt, w, w', maintainer, key, c);
      InvMeans(maintainer, start);
      InvMeans(maintainer, w);
      NewCheckpoint(crdt, start, w, w', maintainer, key, c);
    }
  }

  lemma NewCheckpoint(
    crdt: Crdt, start: World, w: World, w': World, self: ClientId, key: ResourceKey, c: Commit)
    requires Untouched(start, w, self, key) && Checkpointed(crdt, w, w', self, key, c)
    requires SameResource(start.clients[self].commits) && SameResource(w.clients[self].commits)
    ensures IsNewCheckpoint(crdt, start.clients[self], w'.clients[self], key, c)
  {
    var m0, m := start.clients[self].commits, w.clients[self].commits;
    HeadsFrame(m0, m, key);
    forall head | head in c.parents ensures CopiesContent(crdt, m0, key, head, c) {
      HeadsMeaning(m, key, head);
      CopyFrame(crdt, m, m0, key, head, c);
    }
    assert ResourceCommits(m[c.id := c], key) == ResourceCommits(m, key)[c.id := c];
  }

  lemma ActedPublishes(
    crdt: Crdt, w: World, w': World, self: ClientId, key: ResourceKey, verdict: Verdict, id: CommitId)
    requires Acted(crdt, w, w', self, key, verdict, id)
    ensures w'.published.Keys == if verdict.NeedsCheckpoint? then w.published.Keys + {id} else w.published.Keys
  {
  }

  lemma TendedStep(
    crdt: Crdt, maintainer: ClientId, start: World, w: World, w': World, policy: Policy, done: set<ResourceKey>,
    ids: ResourceKey -> CommitId, key: ResourceKey)
    requires Inv(maintainer, start) && Inv(maintainer, w) && Tended(crdt, start, w, maintainer, policy, done, ids)
    requires key !in done && TouchesOnly(w, w', maintainer, key, ids(key))
    requires Acted(crdt, w, w', maintainer, key, VerdictAt(start, maintainer, key, policy), ids(key))
    ensures Tended(crdt, start, w', maintainer, policy, done + {key}, ids)
  {
    var verdict := VerdictAt(start, maintainer, key, policy);
    ActedIsTended(crdt, maintainer, start, w, w', key, verdict, ids(key));
    StillTended(crdt, start, w, w', maintainer, policy, done, ids, key);
    StillUntouched(start, w, w', maintainer, done, key);
    ActedPublishes(crdt, w, w', maintainer, key, verdict, ids(key));
    StillOnlyCopies(start, w, w', maintainer, policy, done, ids, key);
  }

  lemma StillTended(
    crdt: Crdt, start: World, w: World, w': World, self: ClientId, policy: Policy, done: set<ResourceKey>,
    ids: ResourceKey -> CommitId, key: ResourceKey)
    requires self in start.clients && self in w.clients && self in w'.clients && key !in done
    requires AllTended(crdt, start, w, self, policy, done, ids)
    requires forall other :: other != key ==> Untouched(w, w', self, other)
    requires TendedAs(crdt, start.clients[self], w'.clients[self], key, VerdictAt(start, self, key, policy), ids(key))
    ensures AllTended(crdt, start, w', self, policy, done + {key}, ids)
  {
    forall k | k in done
      ensures TendedAs(crdt, start.clients[self], w'.clients[self], k, VerdictAt(start, self, k, policy), ids(k))
    {
      assert Untouched(w, w', self, k);
      TendedFrame(crdt, start.clients[self], w.clients[self], w'.clients[self], k, VerdictAt(start, self, k, policy),
        ids(k));
    }
  }

  lemma StillUntouched(start: World, w: World, w': World, self: ClientId, done: set<ResourceKey>, key: ResourceKey)
    requires OthersUntouched(start, w, self, done) && forall other :: other != key ==> Untouched(w, w', self, other)
    ensures OthersUntouched(start, w', self, done + {key})
  {
    forall k | k !in done + {key} ensures Untouched(start, w', self, k) {
      UntouchedTrans(start, w, w', self, k);
    }
  }

  lemma StillOnlyCopies(
    start: World, w: World, w': World, self: ClientId, policy: Policy, done: set<ResourceKey>,
    ids: ResourceKey -> CommitId, key: ResourceKey)
    requires self in start.clients && OnlyCopies(start, w, self, policy, done, ids)
    requires w'.published.Keys ==
             if VerdictAt(start, self, key, policy).NeedsCheckpoint? then w.published.Keys + {ids(key)}
               else w.published.Keys
    ensures OnlyCopies(start, w', self, policy, done + {key}, ids)
  {
    forall id | id in w'.published && id !in start.published
      ensures exists k :: k in done + {key} && id == ids(k) && VerdictAt(start, self, k, policy).NeedsCheckpoint?
    {
      if id in w.published {
        var k :| k in done && id == ids(k) && VerdictAt(start, self, k, policy).NeedsCheckpoint?;
        assert k in done + {key};
      } else {
        assert key in done + {key};
      }
    }
  }

  /** What is judged from the listed acknowledgements is the verdict at the start. */
  lemma VerdictNow(
    maintainer: ClientId, start: World, w: World, acks: map<AckKey, ResourceAck>, key: ResourceKey, policy: Policy)
    requires Inv(maintainer, start) && Inv(maintainer, w) && Untouched(start, w, maintainer, key)
    requires AcksFiled(acks) && SameAcks(start.remote.acks, acks, key)
    ensures VerdictOf(w.clients[maintainer], acks, maintainer, key, policy) == VerdictAt(start, maintainer, key, policy)
  {
    InvMeans(maintainer, start);
    InvMeans(maintainer, w);
    VerdictFrame(start.clients[maintainer], w.clients[maintainer], start.remote.acks, acks, maintainer, key, policy);
  }

  lemma VerdictThen(
    maintainer: ClientId, start: World, w: World, acks: map<AckKey, ResourceAck>, key: ResourceKey, policy: Policy)
    requires Reachable(maintainer, start) && Reachable(maintainer, w) && Untouched(start, w, maintainer, key)
    requires AcksFiled(acks) && SameAcks(start.remote.acks, acks, key)
    ensures VerdictOf(w.clients[maintainer], acks, maintainer, key, policy) == VerdictAt(start, maintainer, key, policy)
  {
    ReachableIsOk(maintainer, start);
    ReachableIsOk(maintainer, w);
    VerdictNow(maintainer, start, w, acks, key, policy);
  }

  lemma SurveyedIsTended(
    crdt: Crdt, maintainer: ClientId, start: World, w: World, w': World, policy: Policy, keys: set<ResourceKey>,
    todo: set<ResourceKey>, ids: ResourceKey -> CommitId, key: ResourceKey)
    requires Reachable(maintainer, start) && Reachable(maintainer, w)
    requires Tended(crdt, start, w, maintainer, policy, keys - todo, ids) && key in todo && todo <= keys
    requires TouchesOnly(w, w', maintainer, key, ids(key))
    requires Acted(crdt, w, w', maintainer, key, VerdictAt(start, maintainer, key, policy), ids(key))
    ensures Tended(crdt, start, w', maintainer, policy, keys - (todo - {key}), ids)
  {
    var done := keys - todo;
    assert keys - (todo - {key}) == done + {key};
    TendedWithinReach(crdt, maintainer, start, w, w', policy, done, ids, key);
  }

  lemma TendedWithinReach(
    crdt: Crdt, maintainer: ClientId, start: World, w: World, w': World, policy: Policy, done: set<ResourceKey>,
    ids: ResourceKey -> CommitId, key: ResourceKey)
    requires Reachable(maintainer, start) && Reachable(maintainer, w)
    requires Tended(crdt, start, w, maintainer, policy, done, ids) && key !in done
    requires TouchesOnly(w, w', maintainer, key, ids(key))
    requires Acted(crdt, w, w', maintainer, key, VerdictAt(start, maintainer, key, policy), ids(key))
    ensures Tended(crdt, start, w', maintainer, policy, done + {key}, ids)
  {
    ReachableIsOk(maintainer, start);
    ReachableIsOk(maintainer, w);
    TendedStep(crdt, maintainer, start, w, w', policy, done, ids, key);
  }

  // ---- Deleting ----

  function Without(checkpoints: map<ResourceKey, CommitId>, scopes: set<ScopeId>): map<ResourceKey, CommitId> {
    map key | key in checkpoints && key.scope !in scopes :: checkpoints[key]
  }

  function ScopesOf(m: CommitMap, ids: set<CommitId>): set<ScopeId> {
    set id | id in ids && id in m :: m[id].resource.scope
  }

  /** The client forgot those commits, and every checkpoint of the scopes they were in. */
  ghost predicate Cleared(c: Client, c': Client, ids: set<CommitId>) {
    c' == c.(commits := c.commits - ids, checkpoints := Without(c.checkpoints, ScopesOf(c.commits, ids)))
  }

  lemma NothingCleared(c: Client)
    ensures Cleared(c, c, {})
  {
    assert c.commits - {} == c.commits;
    assert Without(c.checkpoints, ScopesOf(c.commits, {})) == c.checkpoints;
  }

  /** Compacting one scope clears it. */
  lemma ScopeCleared(c: Client, c': Client, scope: ScopeId, left: set<CommitId>, batch: set<CommitId>)
    requires batch != {} && forall id :: id in batch <==>
      id in left && id in c.commits && c.commits[id].resource.scope == scope
    requires c' == c.(commits := c.commits - batch, checkpoints := KeptCheckpoints(c.checkpoints, scope, batch))
    ensures Cleared(c, c', left - (left - batch))
  {
    var id :| id in batch;
    assert left - (left - batch) == batch;
    assert c.commits[id].resource.scope == scope;
    assert ScopesOf(c.commits, batch) == {scope};
    assert c'.checkpoints == Without(c.checkpoints, {scope});
  }

  /** One scope after the other. */
  lemma ClearedOn(c0: Client, c: Client, c': Client, all: set<CommitId>, was: set<CommitId>, left: set<CommitId>)
    requires Cleared(c0, c, all - was) && Cleared(c, c', was - left) && left <= was <= all && was <= c.commits.Keys
    ensures Cleared(c0, c', all - left)
  {
    assert all - left == (all - was) + (was - left);
    assert ScopesOf(c0.commits, all - left) == ScopesOf(c0.commits, all - was) + ScopesOf(c.commits, was - left);
    assert c'.commits == c0.commits - (all - left);
    assert c'.checkpoints == Without(c0.checkpoints, ScopesOf(c0.commits, all - left));
  }

  // ---- A whole run ----

  /** What a run of maintenance leaves, seen from right after its refresh: all resources
      of the scopes but `left`, where it failed, were tended, then the obsolete commits
      were forgotten. */
  ghost predicate Maintained(
    crdt: Crdt, self: ClientId, start: World, surveyed: World, w: World, policy: Policy, scopes: set<ScopeId>,
    left: set<ResourceKey>, ids: ResourceKey -> CommitId, ok: bool)
  {
    && self in start.clients && self in surveyed.clients && self in w.clients && (ok ==> left == {})
    && var keys := RemoteKeys(start.clients[self].commits, scopes);
       && left <= keys && Tended(crdt, start, surveyed, self, policy, keys - left, ids)
       && w.published == surveyed.published
       && Cleared(surveyed.clients[self], w.clients[self], Deleted(ok, start, self, scopes, policy))
  }

  // ---- What it means for one resource ----

  /** What is deleted of a resource is what its verdict names. */
  lemma DoomedIsDropped(c: Client, acks: map<AckKey, ResourceAck>, self: ClientId, key: ResourceKey, policy: Policy)
    ensures Doomed(c, acks, self, key, policy)
            == match VerdictOf(c, acks, self, key, policy) case Drop(obsolete) => obsolete case _ => {}
  {
  }

  lemma DeletedMeaning(start: World, self: ClientId, scopes: set<ScopeId>, policy: Policy, id: CommitId)
    requires self in start.clients
    ensures id in Deleted(true, start, self, scopes, policy) <==>
            && id in start.clients[self].commits
            && start.clients[self].commits[id].resource in RemoteKeys(start.clients[self].commits, scopes)
            && match VerdictAt(start, self, start.clients[self].commits[id].resource, policy)
               case Drop(obsolete) => id in obsolete
               case _ => false
  {
    if id in start.clients[self].commits {
      DoomedIsDropped(start.clients[self], start.remote.acks, self, start.clients[self].commits[id].resource, policy);
    }
  }

  /** The end of a run for one resource, by the verdict about it: all its commits, or all
      but the obsolete, or all and a copy of the head. A checkpoint that was kept or made
      is still recorded unless something in its scope was deleted. */
  ghost predicate EndsAs(
    crdt: Crdt, c0: Client, c: Client, key: ResourceKey, verdict: Verdict, id: CommitId, cleared: set<ScopeId>)
  {
    match verdict
    case NeedsCheckpoint =>
      exists copy: Commit ::
        && copy.id == id && copy.resource == key && copy.parents == Heads(c0.commits, key)
        && (forall head :: head in copy.parents ==> CopiesContent(crdt, c0.commits, key, head, copy))
        && ResourceCommits(c.commits, key) == ResourceCommits(c0.commits, key)[id := copy]
        && (if key.scope in cleared then key !in c.checkpoints else key in c.checkpoints && c.checkpoints[key] == id)
    case Drop(obsolete) =>
      && ResourceCommits(c.commits, key) == ResourceCommits(c0.commits, key) - obsolete
      && key !in c.checkpoints
    case _ =>
      && ResourceCommits(c.commits, key) == ResourceCommits(c0.commits, key)
      && if verdict.Short? || verdict.Nothing? || key.scope in cleared then key !in c.checkpoints
         else SameCheckpoint(c0, c, key)
  }

  /** The scopes in which something was deleted. */
  ghost function ClearedScopes(
    ok: bool, start: World, self: ClientId, scopes: set<ScopeId>, policy: Policy): set<ScopeId>
    requires self in start.clients
  {
    ScopesOf(start.clients[self].commits, Deleted(ok, start, self, scopes, policy))
  }

  /** Clearing touches of a resource only what its verdict names. */
  ghost predicate DropsOnly(c: Client, key: ResourceKey, verdict: Verdict, deleted: set<CommitId>) {
    && (verdict.Drop? ==>
        verdict.obsolete != {} && verdict.obsolete <= deleted
        && verdict.obsolete <= ResourceCommits(c.commits, key).Keys)
    && forall id :: id in deleted && id in ResourceCommits(c.commits, key) ==> verdict.Drop? && id in verdict.obsolete
  }

  lemma ClearedResource(c1: Client, c: Client, key: ResourceKey, verdict: Verdict, deleted: set<CommitId>)
    requires Cleared(c1, c, deleted) && DropsOnly(c1, key, verdict, deleted)
    ensures ResourceCommits(c.commits, key)
            == if verdict.Drop? then ResourceCommits(c1.commits, key) - verdict.obsolete
              else ResourceCommits(c1.commits, key)
    ensures if key.scope in ScopesOf(c1.commits, deleted) then key !in c.checkpoints else SameCheckpoint(c1, c, key)
    ensures verdict.Drop? ==> key.scope in ScopesOf(c1.commits, deleted)
  {
    if verdict.Drop? {
      var id :| id in verdict.obsolete;
      assert c1.commits[id].resource.scope in ScopesOf(c1.commits, deleted);
    }
  }

  lemma EndsAfterClearing(
    crdt: Crdt, c0: Client, c1: Client, c: Client, key: ResourceKey, verdict: Verdict, id: CommitId,
    deleted: set<CommitId>)
    requires TendedAs(crdt, c0, c1, key, verdict, id) && Cleared(c1, c, deleted) && DropsOnly(c1, key, verdict, deleted)
    ensures EndsAs(crdt, c0, c, key, verdict, id, ScopesOf(c1.commits, deleted))
  {
    ClearedResource(c1, c, key, verdict, deleted);
    if verdict.NeedsCheckpoint? {
      var copy: Commit :| copy.id == id && IsNewCheckpoint(crdt, c0, c1, key, copy);
      assert ResourceCommits(c.commits, key) == ResourceCommits(c0.commits, key)[id := copy];
    }
  }

  /** Every resource the run got to ends by its verdict, when nothing failed or nothing of
      it was to be deleted. */
  lemma TendedEnds(
    crdt: Crdt, self: ClientId, start: World, surveyed: World, w: World, policy: Policy, scopes: set<ScopeId>,
    left: set<ResourceKey>, ids: ResourceKey -> CommitId, ok: bool, key: ResourceKey)
    requires Maintained(crdt, self, start, surveyed, w, policy, scopes, left, ids, ok)
    requires key in RemoteKeys(start.clients[self].commits, scopes) && key !in left
    requires ok || !VerdictAt(start, self, key, policy).Drop?
    requires ids(key) !in start.clients[self].commits
    ensures EndsAs(crdt, start.clients[self], w.clients[self], key, VerdictAt(start, self, key, policy), ids(key),
                   ClearedScopes(ok, start, self, scopes, policy))
  {
    var c0, c1, deleted := start.clients[self], surveyed.clients[self], Deleted(ok, start, self, scopes, policy);
    var verdict := VerdictAt(start, self, key, policy);
    assert TendedAs(crdt, c0, c1, key, verdict, ids(key));
    forall id | id in deleted ensures id in c0.commits && id in c1.commits && c1.commits[id] == c0.commits[id] {
      DeletedIsSame(crdt, self, start, surveyed, w, policy, scopes, left, ids, ok, id);
    }
    SameScopes(c0.commits, c1.commits, deleted);
    DropsOwn(start, self, scopes, policy, ok, c1, key, ids(key), crdt);
    EndsAfterClearing(crdt, c0, c1, w.clients[self], key, verdict, ids(key), deleted);
  }

  lemma SameScopes(m: CommitMap, n: CommitMap, ids: set<CommitId>)
    requires forall id :: id in ids ==> id in m && id in n && n[id] == m[id]
    ensures ScopesOf(m, ids) == ScopesOf(n, ids)
  {
    forall scope ensures scope in ScopesOf(m, ids) <==> scope in ScopesOf(n, ids) {
    }
  }

  lemma DeletedIsSame(
    crdt: Crdt, self: ClientId, start: World, surveyed: World, w: World, policy: Policy, scopes: set<ScopeId>,
    left: set<ResourceKey>, ids: ResourceKey -> CommitId, ok: bool, id: CommitId)
    requires Maintained(crdt, self, start, surveyed, w, policy, scopes, left, ids, ok)
    requires id in Deleted(ok, start, self, scopes, policy)
    ensures id in start.clients[self].commits && id in surveyed.clients[self].commits
    ensures surveyed.clients[self].commits[id] == start.clients[self].commits[id]
  {
    DeletedMeaning(start, self, scopes, policy, id);
    var key := start.clients[self].commits[id].resource;
    assert TendedAs(crdt, start.clients[self], surveyed.clients[self], key, VerdictAt(start, self, key, policy),
      ids(key));
    SameCommit(start.clients[self].commits, surveyed.clients[self].commits, key, id);
  }

  lemma DropsOwn(
    start: World, self: ClientId, scopes: set<ScopeId>, policy: Policy, ok: bool, c1: Client, key: ResourceKey,
    id: CommitId, crdt: Crdt)
    requires self in start.clients && key in RemoteKeys(start.clients[self].commits, scopes)
    requires TendedAs(crdt, start.clients[self], c1, key, VerdictAt(start, self, key, policy), id)
    requires ok || !VerdictAt(start, self, key, policy).Drop?
    requires id !in start.clients[self].commits
    ensures DropsOnly(c1, key, VerdictAt(start, self, key, policy), Deleted(ok, start, self, scopes, policy))
  {
    var verdict, deleted := VerdictAt(start, self, key, policy), Deleted(ok, start, self, scopes, policy);
    var c0 := start.clients[self];
    if verdict.Drop? {
      VerdictMeaning(c0, start.remote.acks, self, key, policy);
      forall d | d in verdict.obsolete ensures d in deleted && d in ResourceCommits(c1.commits, key) {
        assert Outlived(c0, start.remote.acks, key, policy.keep, d);
        DeletedMeaning(start, self, scopes, policy, d);
      }
    }
    forall d | d in deleted && d in ResourceCommits(c1.commits, key) ensures verdict.Drop? && d in verdict.obsolete {
      DeletedMeaning(start, self, scopes, policy, d);
      DeletedStays(c0, c1, key, verdict, id, d, crdt);
    }
  }

  lemma DeletedStays(c0: Client, c1: Client, key: ResourceKey, verdict: Verdict, id: CommitId, d: CommitId, crdt: Crdt)
    requires TendedAs(crdt, c0, c1, key, verdict, id) && id !in c0.commits
    requires d in c0.commits && d in ResourceCommits(c1.commits, key)
    ensures c0.commits[d].resource == key
  {
    if verdict.NeedsCheckpoint? {
      var copy: Commit :| copy.id == id && IsNewCheckpoint(crdt, c0, c1, key, copy);
      assert d in ResourceCommits(c0.commits, key);
    } else {
      assert d in ResourceCommits(c0.commits, key);
    }
  }

  /** A resource the run did not get to keeps everything but a checkpoint in a scope where
      something was deleted. */
  lemma UntendedEnds(
    crdt: Crdt, self: ClientId, start: World, surveyed: World, w: World, policy: Policy, scopes: set<ScopeId>,
    left: set<ResourceKey>, ids: ResourceKey -> CommitId, ok: bool, key: ResourceKey)
    requires Maintained(crdt, self, start, surveyed, w, policy, scopes, left, ids, ok)
    requires key !in RemoteKeys(start.clients[self].commits, scopes) || key in left
    ensures ResourceCommits(w.clients[self].commits, key) == ResourceCommits(start.clients[self].commits, key)
    ensures key in w.clients[self].checkpoints ==> SameCheckpoint(start.clients[self], w.clients[self], key)
  {
    var c0, c1, deleted := start.clients[self], surveyed.clients[self], Deleted(ok, start, self, scopes, policy);
    assert Untouched(start, surveyed, self, key);
    forall d | d in deleted ensures d !in ResourceCommits(c1.commits, key) {
      DeletedMeaning(start, self, scopes, policy, d);
      assert ResourceCommits(c1.commits, key) == ResourceCommits(c0.commits, key);
    }
    ClearedResource(c1, w.clients[self], key, Waiting, deleted);
  }

  /** History that is short enough, disputed, held or text stays as it is, whether or not
      the run failed, and no checkpoint is recorded for it. */
  lemma HistoryStays(
    crdt: Crdt, self: ClientId, start: World, surveyed: World, w: World, policy: Policy, scopes: set<ScopeId>,
    left: set<ResourceKey>, ids: ResourceKey -> CommitId, ok: bool, key: ResourceKey)
    requires Maintained(crdt, self, start, surveyed, w, policy, scopes, left, ids, ok)
    requires ids(key) !in start.clients[self].commits
    requires |ResourceCommits(start.clients[self].commits, key)| <= policy.keep
             || LeftAlone(start.clients[self].commits, key, policy)
    ensures ResourceCommits(w.clients[self].commits, key) == ResourceCommits(start.clients[self].commits, key)
    ensures key in w.clients[self].checkpoints ==> SameCheckpoint(start.clients[self], w.clients[self], key)
  {
    VerdictMeaning(start.clients[self], start.remote.acks, self, key, policy);
    if key in RemoteKeys(start.clients[self].commits, scopes) && key !in left {
      TendedEnds(crdt, self, start, surveyed, w, policy, scopes, left, ids, ok, key);
    } else {
      UntendedEnds(crdt, self, start, surveyed, w, policy, scopes, left, ids, ok, key);
    }
  }

  /** A run publishes nothing but copies of heads, each for a resource that was too long,
      not left alone, and without a checkpoint. */
  lemma OnlyCopiesArePublished(
    crdt: Crdt, self: ClientId, start: World, surveyed: World, w: World, policy: Policy, scopes: set<ScopeId>,
    left: set<ResourceKey>, ids: ResourceKey -> CommitId, ok: bool, id: CommitId)
    returns (key: ResourceKey)
    requires Reachable(self, start) && Reachable(self, w)
    requires Maintained(crdt, self, start, surveyed, w, policy, scopes, left, ids, ok)
    requires forall k :: ids(k) !in start.published
    requires id in w.published && id !in start.published
    ensures w.published[id].resource == key && id == ids(key)
      && w.published[id].parents == Heads(start.clients[self].commits, key)
    ensures |ResourceCommits(start.clients[self].commits, key)| > policy.keep
    ensures !LeftAlone(start.clients[self].commits, key, policy) && key !in start.clients[self].checkpoints
  {
    ReachableIsOk(self, start);
    ReachableIsOk(self, w);
    assert ClientOk(start, start.clients[self]) && ClientOk(w, w.clients[self]);
    key :| key in RemoteKeys(start.clients[self].commits, scopes) - left && id == ids(key)
           && VerdictAt(start, self, key, policy).NeedsCheckpoint?;
    VerdictMeaning(start.clients[self], start.remote.acks, self, key, policy);
    TendedEnds(crdt, self, start, surveyed, w, policy, scopes, left, ids, ok, key);
    assert id in ResourceCommits(w.clients[self].commits, key);
  }

  /** A run that did not fail, resource by resource: which checkpoints are cleared, made
      and kept, and exactly which commits go. */
  lemma MaintainedResource(
    crdt: Crdt, self: ClientId, start: World, surveyed: World, w: World, policy: Policy, scopes: set<ScopeId>,
    left: set<ResourceKey>, ids: ResourceKey -> CommitId, key: ResourceKey)
    requires Maintained(crdt, self, start, surveyed, w, policy, scopes, left, ids, true)
    requires key in RemoteKeys(start.clients[self].commits, scopes) && ids(key) !in start.clients[self].commits
    ensures var c0, c := start.clients[self], w.clients[self];
            var own, own' := ResourceCommits(c0.commits, key), ResourceCommits(c.commits, key);
            var cleared := key.scope in ClearedScopes(true, start, self, scopes, policy);
            if |own| <= policy.keep then own' == own && key !in c.checkpoints
            else if LeftAlone(c0.commits, key, policy) then own' == own
            else if key !in c0.checkpoints then
              && own'.Keys == own.Keys + {ids(key)} && own'[ids(key)].parents == Heads(c0.commits, key)
              && (forall head :: head in Heads(c0.commits, key) ==>
                 CopiesContent(crdt, c0.commits, key, head, own'[ids(key)]))
              && (!cleared ==> key in c.checkpoints && c.checkpoints[key] == ids(key))
            else if !AllAcknowledged(c0.commits, start.remote.acks, c0.retired, self, key, c0.checkpoints[key]) then
              own' == own && (!cleared ==> SameCheckpoint(c0, c, key))
            else
              && key !in c.checkpoints
              && forall id :: id in own' <==> id in own && !Outlived(c0, start.remote.acks, key, policy.keep, id)
  {
    VerdictMeaning(start.clients[self], start.remote.acks, self, key, policy);
    TendedEnds(crdt, self, start, surveyed, w, policy, scopes, left, ids, true, key);
  }
}
