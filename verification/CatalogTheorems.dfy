/** Safety of the catalog protocol over whole runs. */
module CatalogTheorems {
  import opened Types
  import opened CommitGraph
  import opened Binary
  import opened Remote
  import opened Retention
  import opened Catalog
  import opened CatalogProofs

  /** At every point of every run a full scan lists exactly the published commits that
      maintenance did not remove, and each of them can be loaded. */
  lemma FullScanIsTheLiveHistory(maintainer: ClientId, ws: seq<World>, steps: seq<Step>, i: nat)
    requires IsRun(maintainer, ws, steps) && i < |ws|
    ensures Visible(ws[i].remote) == set id | id in ws[i].published
      && id !in ws[i].removed :: EventOf(ws[i].published[id])
    ensures forall id :: id in ws[i].published && id !in ws[i].removed ==>
      id in ws[i].remote.commits && ws[i].remote.commits[id] == ws[i].published[id]
  {
    RunKeepsInv(maintainer, ws, steps, i);
    var w := ws[i];
    LiveIsKeyed(w);
    forall id | id in w.published && id !in w.removed
      ensures EventOf(w.published[id]) in Visible(w.remote) && id in w.Live()
    {
      assert EventOf(w.Live()[id]).commitId == id;
    }
  }

  /** Whatever publishes, refreshes with changing scopes and compactions came before, a
      client knows every visible event at or below its cursor for that author and scope. */
  lemma CursorsAreSound(maintainer: ClientId, ws: seq<World>, steps: seq<Step>, i: nat, c: ClientId, e: CatalogEvent)
    requires IsRun(maintainer, ws, steps) && i < |ws| && c in ws[i].clients
    requires e in Visible(ws[i].remote) && e.counter <= At(ws[i].clients[c].cursors, e.Key())
    ensures e.commitId in ws[i].clients[c].commits && e == EventOf(ws[i].clients[c].commits[e.commitId])
  {
    RunKeepsInv(maintainer, ws, steps, i);
    var w := ws[i];
    LiveIsKeyed(w);
    assert ClientOk(w, w.clients[c]);
    assert e.Key() == GroupKey(w.Live()[e.commitId]);
  }

  /** A refresh can always load what it lists, and afterwards the client knows every
      visible event of the scopes it asked for, whatever its cursors were. */
  lemma RefreshLearnsTheScopes(
    maintainer: ClientId, ws: seq<World>, steps: seq<Step>, i: nat, c: ClientId, scopes: set<ScopeId>, next: Cursors,
    e: CatalogEvent)
    requires IsRun(maintainer, ws, steps) && i < |steps| && steps[i] == Refresh(c, scopes, next)
    requires e in Visible(ws[i + 1].remote) && InScope(scopes, e.resource.scope)
    ensures c in ws[i + 1].clients && e.commitId in ws[i + 1].clients[c].commits
      && e == EventOf(ws[i + 1].clients[c].commits[e.commitId])
  {
    RunKeepsInv(maintainer, ws, steps, i);
    RunKeepsInv(maintainer, ws, steps, i + 1);
    var w, w' := ws[i], ws[i + 1];
    RunTakesStep(maintainer, ws, steps, i);
    LiveIsKeyed(w);
    assert ClientOk(w, w.clients[c]);
    assert ClientOk(w', w'.clients[c]);
    RefreshCatchesUp(w.remote, w.Live(), w.clients[c], scopes, next, w'.clients[c], e.commitId);
  }

  lemma RefreshCanAlwaysLoad(
    maintainer: ClientId, ws: seq<World>, steps: seq<Step>, i: nat, c: ClientId, scopes: set<ScopeId>)
    requires IsRun(maintainer, ws, steps) && i < |ws| && c in ws[i].clients
    ensures NewIds(ws[i].clients[c],
      ScanEvents(ws[i].remote, scopes, ws[i].clients[c].cursors)) <= ws[i].remote.commits.Keys
  {
    RunKeepsInv(maintainer, ws, steps, i);
    var w := ws[i];
    LiveIsKeyed(w);
    assert ClientOk(w, w.clients[c]);
    forall id | id in NewIds(w.clients[c], ScanEvents(w.remote, scopes, w.clients[c].cursors))
      ensures id in w.remote.commits
    {
      NewIdsAreLive(w.remote, w.Live(), w.clients[c], scopes, id);
    }
  }

  /** Compaction in a run hides exactly the obsolete commits, so that any later refresh of
      the scope by any client still brings in every published commit not removed. */
  lemma CompactionHidesNothingElse(
    maintainer: ClientId, ws: seq<World>, steps: seq<Step>, i: nat, c: ClientId, scope: ScopeId,
    obsolete: set<CommitId>)
    requires IsRun(maintainer, ws, steps) && i < |steps| && steps[i] == Compact(c, scope, obsolete)
    ensures Visible(ws[i + 1].remote) == set e | e in Visible(ws[i].remote) && e.commitId !in obsolete
  {
    RunKeepsInv(maintainer, ws, steps, i);
    RunTakesStep(maintainer, ws, steps, i);
    CompactKeepsInv(maintainer, ws[i], ws[i + 1], c, scope, obsolete);
  }

  lemma StepForgetsNothing(maintainer: ClientId, w: World, w': World, step: Step)
    requires Inv(maintainer, w) && Next(maintainer, w, w', step)
    ensures w.removed <= w'.removed && Submap(w.published, w'.published)
  {
    if step.Publish? {
      ClientKnowsPublished(maintainer, w, step.client);
      PublishStepFrame(w, w', step.client, step.batch);
    } else {
      OtherStepsKeepHistory(maintainer, w, w', step);
    }
  }

  lemma OtherStepsKeepHistory(maintainer: ClientId, w: World, w': World, step: Step)
    requires Next(maintainer, w, w', step) && !step.Publish?
    ensures w.removed <= w'.removed && w'.published == w.published
  {
  }

  lemma ClientKnowsPublished(maintainer: ClientId, w: World, client: ClientId)
    requires Inv(maintainer, w) && client in w.clients
    ensures PublishedOk(w) && Submap(w.clients[client].commits, w.published)
  {
    assert ClientOk(w, w.clients[client]);
  }

  lemma {:induction false} RemovedGrows(maintainer: ClientId, ws: seq<World>, steps: seq<Step>, i: nat, j: nat)
    requires IsRun(maintainer, ws, steps) && i <= j < |ws|
    ensures ws[i].removed <= ws[j].removed && Submap(ws[i].published, ws[j].published)
  {
    if i < j {
      RemovedGrows(maintainer, ws, steps, i, j - 1);
      RunForgetsNothing(maintainer, ws, steps, j - 1);
      SubmapTrans(ws[i].published, ws[j - 1].published, ws[j].published);
    }
  }

  lemma RunForgetsNothing(maintainer: ClientId, ws: seq<World>, steps: seq<Step>, i: nat)
    requires IsRun(maintainer, ws, steps) && i < |steps|
    ensures ws[i].removed <= ws[i + 1].removed && Submap(ws[i].published, ws[i + 1].published)
  {
    RunKeepsInv(maintainer, ws, steps, i);
    RunTakesStep(maintainer, ws, steps, i);
    StepForgetsNothing(maintainer, ws[i], ws[i + 1], steps[i]);
  }

  lemma SubmapTrans(a: CommitMap, b: CommitMap, c: CommitMap)
    requires Submap(a, b) && Submap(b, c)
    ensures Submap(a, c)
  {
  }

  /** Every commit published before, and not removed by then, is known to a client right
      after it refreshes the commit's scope, however many compactions happened between. */
  lemma PublishedCommitsReachEveryClient(
    maintainer: ClientId, ws: seq<World>, steps: seq<Step>, i: nat, j: nat, id: CommitId, c: ClientId,
    scopes: set<ScopeId>, next: Cursors)
    requires IsRun(maintainer, ws, steps) && i <= j < |steps|
    requires id in ws[i].published && id !in ws[j + 1].removed
    requires steps[j] == Refresh(c, scopes, next) && InScope(scopes, ws[i].published[id].resource.scope)
    ensures c in ws[j + 1].clients && id in ws[j + 1].clients[c].commits
      && ws[j + 1].clients[c].commits[id] == ws[i].published[id]
  {
    RemovedGrows(maintainer, ws, steps, i, j + 1);
    RunKeepsInv(maintainer, ws, steps, j + 1);
    var e := LiveEvent(maintainer, ws[j + 1], id);
    RefreshLearnsTheScopes(maintainer, ws, steps, j, c, scopes, next, e);
    KnownIsPublished(maintainer, ws[j + 1], c, id);
  }

  lemma LiveEvent(maintainer: ClientId, w: World, id: CommitId) returns (e: CatalogEvent)
    requires Inv(maintainer, w) && id in w.published && id !in w.removed
    ensures e == EventOf(w.published[id]) && e.commitId == id && e in Visible(w.remote)
  {
    LiveIsKeyed(w);
    e := EventOf(w.published[id]);
    assert id in w.Live();
  }

  lemma KnownIsPublished(maintainer: ClientId, w: World, c: ClientId, id: CommitId)
    requires Inv(maintainer, w) && c in w.clients && id in w.clients[c].commits
    ensures id in w.published && w.clients[c].commits[id] == w.published[id]
  {
    assert ClientOk(w, w.clients[c]);
  }

  // ---- Maintenance ----

  /** A path whose commits one client holds is held by every client that holds its start
      and is closed under parents up to removed commits. */
  lemma {:induction false} PathIsHeld(
    published: CommitMap, removed: set<CommitId>, mine: CommitMap, theirs: CommitMap, path: seq<CommitId>)
    requires Submap(mine, published) && Submap(theirs, published) && mine.Keys !! removed && Closed(theirs, removed)
    requires IsPath(mine, path) && path[|path| - 1] in mine && path[0] in theirs
    ensures path[|path| - 1] in theirs
  {
    if |path| > 1 {
      assert path[1] in mine[path[0]].parents;
      assert path[1] in mine;
      PathIsHeld(published, removed, mine, theirs, path[1..]);
    }
  }

  /** `author` wrote some commit of the same resource that the maintainer knows and has
      not been retired by it. */
  ghost predicate IsActiveAuthor(w: World, maintainer: ClientId, id: CommitId, author: ClientId) {
    maintainer in w.clients && id in w.published &&
    var m := w.clients[maintainer];
    author !in m.retired
    && exists other ::
        other in m.commits && m.commits[other].resource == w.published[id].resource && m.commits[other].author == author
  }

  /** Whenever maintenance deletes a commit of a resource, every client that is a
      non-retired author of it has acknowledged a head from which the checkpoint is
      reachable, and itself holds the checkpoint. */
  lemma DeletionIsAcknowledged(
    maintainer: ClientId, ws: seq<World>, steps: seq<Step>, i: nat, scope: ScopeId, obsolete: set<CommitId>,
    id: CommitId, author: ClientId)
    returns (key: ResourceKey, checkpoint: CommitId, ack: AckKey, head: CommitId)
    requires IsRun(maintainer, ws, steps) && i < |steps|
    requires steps[i] == Compact(maintainer, scope, obsolete) && id in obsolete
    requires IsActiveAuthor(ws[i], maintainer, id, author)
    ensures key == ws[i].published[id].resource && checkpoint !in obsolete
    ensures ack in ws[i].remote.acks && ack == AckKey(author, key) && head in ws[i].remote.acks[ack].observedHeads
    ensures Reaches(ws[i].clients[maintainer].commits, head, checkpoint)
    ensures author in ws[i].clients && checkpoint in ws[i].clients[author].commits
      && head in ws[i].clients[author].commits
  {
    RunKeepsInv(maintainer, ws, steps, i);
    RunTakesStep(maintainer, ws, steps, i);
    var w := ws[i];
    var n := CompactionWasAllowed(maintainer, w, ws[i + 1], scope, obsolete);
    assert MayDelete(w, maintainer, id, n);
    key := w.clients[maintainer].commits[id].resource;
    checkpoint := w.clients[maintainer].checkpoints[key];
    assert ClientOk(w, w.clients[maintainer]);
    CheckpointIsKept(w, maintainer, obsolete, n, key);
    AuthorIsActive(w.clients[maintainer].commits, w.clients[maintainer].retired, maintainer, key, author);
    ack, head := AcknowledgedHeadIsHeld(maintainer, w, key, checkpoint, author);
  }

  lemma CompactionWasAllowed(
    maintainer: ClientId, w: World, w': World, scope: ScopeId, obsolete: set<CommitId>)
    returns (n: nat)
    requires Next(maintainer, w, w', Compact(maintainer, scope, obsolete))
    ensures maintainer in w.clients && MayDeleteAll(w, maintainer, obsolete, n)
  {
    assert CompactStep(maintainer, w, w', maintainer, scope, obsolete);
    n :| MayDeleteAll(w, maintainer, obsolete, n);
  }

  lemma AcknowledgedHeadIsHeld(maintainer: ClientId, w: World, key: ResourceKey, checkpoint: CommitId, author: ClientId)
    returns (ack: AckKey, head: CommitId)
    requires Inv(maintainer, w) && maintainer in w.clients && checkpoint in w.clients[maintainer].commits
    requires HasAcknowledged(w.clients[maintainer].commits, w.remote.acks, author, key, checkpoint)
    ensures ack in w.remote.acks && ack == AckKey(author, key) && head in w.remote.acks[ack].observedHeads
    ensures Reaches(w.clients[maintainer].commits, head, checkpoint)
    ensures author in w.clients && checkpoint in w.clients[author].commits && head in w.clients[author].commits
  {
    var m := w.clients[maintainer];
    assert ClientOk(w, m) && MaintainerOk(w, m);
    ack, head :| ack in w.remote.acks && w.remote.acks[ack].client == author && w.remote.acks[ack].resource == key
                 && head in w.remote.acks[ack].observedHeads && Reaches(m.commits, head, checkpoint);
    assert AckOk(w, ack, w.remote.acks[ack]);
    var path :| IsPath(m.commits, path) && path[0] == head && path[|path| - 1] == checkpoint;
    PathStartIsKnown(m.commits, path);
    assert ClientOk(w, w.clients[author]);
    PathIsHeld(w.published, w.removed, m.commits, w.clients[author].commits, path);
  }

  lemma PathStartIsKnown(m: CommitMap, path: seq<CommitId>)
    requires IsPath(m, path) && path[|path| - 1] in m
    ensures path[0] in m
  {
    assert |path| > 1 ==> path[0] in m;
  }

  lemma CheckpointIsKept(w: World, maintainer: ClientId, obsolete: set<CommitId>, n: nat, key: ResourceKey)
    requires maintainer in w.clients && MayDeleteAll(w, maintainer, obsolete, n) && CheckpointsOk(w.clients[maintainer])
    requires key in w.clients[maintainer].checkpoints
    ensures w.clients[maintainer].checkpoints[key] !in obsolete
    ensures w.clients[maintainer].checkpoints[key] in w.clients[maintainer].commits
  {
    var m := w.clients[maintainer];
    var checkpoint := m.checkpoints[key];
    assert checkpoint in obsolete ==> MayDelete(w, maintainer, checkpoint, n);
  }

  lemma AuthorIsActive(commits: CommitMap, retired: set<ClientId>, self: ClientId, key: ResourceKey, author: ClientId)
    requires exists id :: id in commits && commits[id].resource == key && commits[id].author == author
    requires author !in retired
    ensures author in ActiveClients(ResourceCommits(commits, key), retired, self)
  {
    var own := ResourceCommits(commits, key);
    var id :| id in commits && commits[id].resource == key && commits[id].author == author;
    assert id in own && own[id].author == author;
  }

  // ---- The DAG over runs ----

  /** In every reachable state and for every client, each known commit is an ancestor of
      a known head, and known heads are pairwise unrelated. */
  lemma KnownDagIsSound(
    maintainer: ClientId, ws: seq<World>, steps: seq<Step>, i: nat, c: ClientId, id: CommitId)
    returns (head: CommitId)
    requires IsRun(maintainer, ws, steps) && i < |ws| && c in ws[i].clients && id in ws[i].clients[c].commits
    ensures var m := ws[i].clients[c].commits;
            var key := m[id].resource;
            && head in Heads(m, key) && Reaches(ResourceCommits(m, key), head, id)
            && forall a, b :: a in Heads(m, key) && b in Heads(m, key) && a != b ==> !Reaches(m, a, b)
  {
    RunKeepsInv(maintainer, ws, steps, i);
    var w := ws[i];
    var m := w.clients[c].commits;
    assert ClientOk(w, w.clients[c]);
    SubmapKeepsShape(m, w.published, w.rank);
    head := EveryCommitReachesAHead(m, w.rank, m[id].resource, id);
    forall a, b | a in Heads(m, m[id].resource) && b in Heads(m, m[id].resource) && a != b ensures !Reaches(m, a, b) {
      HeadsAreUnrelated(m, m[id].resource, a, b);
    }
  }

  lemma SubmapKeepsShape(m: CommitMap, published: CommitMap, rank: map<CommitId, nat>)
    requires Submap(m, published) && Ranked(published, rank) && SameResource(published)
    ensures Ranked(m, rank) && SameResource(m)
  {
  }

  lemma OnlyPublishAddsCommits(maintainer: ClientId, w: World, w': World, step: Step)
    requires Next(maintainer, w, w', step) && w'.published != w.published
    ensures step.Publish? && PublishStep(w, w', step.client, step.batch)
  {
  }

  lemma PublishHoldsParents(
    maintainer: ClientId, w: World, w': World, client: ClientId, batch: seq<Commit>, key: ResourceKey, head: CommitId)
    requires Inv(maintainer, w) && PublishStep(w, w', client, batch)
    requires head in Heads(w.published, key) && head !in Heads(w'.published, key)
    ensures head in w.clients[client].commits
  {
    assert ClientOk(w, w.clients[client]);
    PublishStepFrame(w, w', client, batch);
    var child := HeadLostOnlyUnderAChild(w.published, w'.published, key, head);
    assert child in ById(batch);
  }

  /** A published commit stops being a head only when a client publishes that already
      held it. */
  lemma HeadIsLostOnlyByAHolder(
    maintainer: ClientId, ws: seq<World>, steps: seq<Step>, i: nat, key: ResourceKey, head: CommitId)
    requires IsRun(maintainer, ws, steps) && i < |steps|
    requires head in Heads(ws[i].published, key) && head !in Heads(ws[i + 1].published, key)
    ensures steps[i].Publish? && steps[i].client in ws[i].clients && head in ws[i].clients[steps[i].client].commits
  {
    RunKeepsInv(maintainer, ws, steps, i);
    RunTakesStep(maintainer, ws, steps, i);
    OnlyPublishAddsCommits(maintainer, ws[i], ws[i + 1], steps[i]);
    PublishHoldsParents(maintainer, ws[i], ws[i + 1], steps[i].client, steps[i].batch, key, head);
  }

  /** No client publishing in step `k` holds `head`. */
  ghost predicate NotByAHolder(ws: seq<World>, steps: seq<Step>, k: nat, head: CommitId)
    requires |ws| == |steps| + 1 && k < |steps|
  {
    steps[k].Publish? && steps[k].client in ws[k].clients ==> head !in ws[k].clients[steps[k].client].commits
  }

  /** So concurrent publishes all remain heads: while no publishing client holds it, a
      head stays a head. */
  lemma {:induction false} ConcurrentHeadsRemain(
    maintainer: ClientId, ws: seq<World>, steps: seq<Step>, i: nat, j: nat, key: ResourceKey, head: CommitId)
    requires IsRun(maintainer, ws, steps) && i <= j < |ws|
    requires head in Heads(ws[i].published, key)
    requires forall k: nat :: i <= k < j ==> NotByAHolder(ws, steps, k, head)
    ensures head in Heads(ws[j].published, key)
  {
    if i < j {
      ConcurrentHeadsRemain(maintainer, ws, steps, i, j - 1, key, head);
      assert NotByAHolder(ws, steps, j - 1, head);
      if head !in Heads(ws[j].published, key) {
        HeadIsLostOnlyByAHolder(maintainer, ws, steps, j - 1, key, head);
        assert false;
      }
    }
  }
}
