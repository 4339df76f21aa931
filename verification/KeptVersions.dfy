/** Whether a version that maintenance keeps still reads as before (`maintain` and
    `content_for_remote` in src/runtime.rs). */
module KeptVersions {
  import opened Types
  import opened CommitGraph
  import opened Remote
  import opened Retention
  import opened Catalog
  import opened CatalogProofs
  import opened Execution
  import opened Views
  import opened Maintenance
  import opened Upkeep
  import opened TextJoin

  // ---- Content in terms of the resource's own commits ----

  /** Some ancestor brings the item. */
  ghost predicate Brings(own: CommitMap, id: CommitId, item: TextItem) {
    exists x :: Reaches(own, id, x) && item in DeltaOf(own, x)
  }

  ghost predicate IsDocIn(own: CommitMap, id: CommitId, doc: set<TextItem>) {
    forall item :: item in doc <==> Brings(own, id, item)
  }

  ghost predicate IsContentIn(crdt: Crdt, own: CommitMap, id: CommitId, bytes: Bytes) {
    && id in own
    && match own[id].change
       case Delete => false
       case BinarySnapshot(contentId, _, _) => Digest(bytes) == contentId
       case TextDelta(_) => exists doc :: IsDocIn(own, id, doc) && bytes == crdt.content(doc)
  }

  lemma DocIsOwn(m: CommitMap, key: ResourceKey, id: CommitId, doc: set<TextItem>)
    requires SameResource(m) && id in ResourceCommits(m, key)
    ensures IsTextDocAt(m, key, id, doc) <==> IsDocIn(ResourceCommits(m, key), id, doc)
  {
    var own := ResourceCommits(m, key);
    forall x | Reaches(own, id, x) ensures DeltaOf(m, x) == DeltaOf(own, x) {
      if x in m {
        ReachableStaysInResource(m, key, id, x);
        assert x in own;
      }
    }
  }

  lemma ContentIsOwn(crdt: Crdt, m: CommitMap, key: ResourceKey, id: CommitId, bytes: Bytes)
    requires SameResource(m) && id in ResourceCommits(m, key)
    ensures IsContentOf(crdt, m, key, id, bytes) <==> IsContentIn(crdt, ResourceCommits(m, key), id, bytes)
  {
    if m[id].change.TextDelta? {
      forall doc ensures IsTextDocAt(m, key, id, doc) <==> IsDocIn(ResourceCommits(m, key), id, doc) {
        DocIsOwn(m, key, id, doc);
      }
    }
  }

  // ---- A new child ----

  lemma {:induction false} PathAvoidsChild(own: CommitMap, c: Commit, path: seq<CommitId>)
    requires c.id !in own && c.id !in ParentsIn(own) && path != [] && path[0] != c.id
    ensures IsPath(own[c.id := c], path) <==> IsPath(own, path)
    ensures IsPath(own, path) ==> c.id !in path
    decreases |path|
  {
    if |path| > 1 {
      var rest := path[1..];
      if IsPath(own[c.id := c], path) || IsPath(own, path) {
        assert path[0] in own && path[1] in own[path[0]].parents && path[1] != c.id;
        PathAvoidsChild(own, c, rest);
        assert path == [path[0]] + rest;
        StepsOf(own[c.id := c], path);
        StepsOf(own, path);
      }
    }
  }

  /** A path is its first step and the rest. */
  lemma StepsOf(m: CommitMap, path: seq<CommitId>)
    requires |path| > 1
    ensures IsPath(m, path) <==> path[0] in m && path[1] in m[path[0]].parents && IsPath(m, path[1..])
  {
    var rest := path[1..];
    if path[0] in m && path[1] in m[path[0]].parents && IsPath(m, rest) {
      forall i | 0 <= i < |path| - 1 ensures path[i] in m && path[i + 1] in m[path[i]].parents {
        if i > 0 {
          assert rest[i - 1] in m && rest[i] in m[rest[i - 1]].parents;
        }
      }
    }
  }

  lemma ChildKeepsReach(own: CommitMap, c: Commit, id: CommitId, x: CommitId)
    requires c.id !in own && c.id !in ParentsIn(own) && id != c.id
    ensures Reaches(own[c.id := c], id, x) <==> Reaches(own, id, x)
    ensures Reaches(own, id, x) ==> x != c.id
  {
    if Reaches(own[c.id := c], id, x) {
      var path :| IsPath(own[c.id := c], path) && path[0] == id && path[|path| - 1] == x;
      PathAvoidsChild(own, c, path);
    }
    if Reaches(own, id, x) {
      var path :| IsPath(own, path) && path[0] == id && path[|path| - 1] == x;
      PathAvoidsChild(own, c, path);
    }
  }

  /** Publishing on top changes no earlier version. */
  lemma ChildKeepsContent(crdt: Crdt, own: CommitMap, c: Commit, id: CommitId, bytes: Bytes)
    requires c.id !in own && c.id !in ParentsIn(own) && id in own
    ensures IsContentIn(crdt, own[c.id := c], id, bytes) <==> IsContentIn(crdt, own, id, bytes)
  {
    forall doc ensures IsDocIn(own[c.id := c], id, doc) <==> IsDocIn(own, id, doc) {
      ChildKeepsDoc(own, c, id, doc);
    }
  }

  lemma ChildKeepsDoc(own: CommitMap, c: Commit, id: CommitId, doc: set<TextItem>)
    requires c.id !in own && c.id !in ParentsIn(own) && id in own
    ensures IsDocIn(own[c.id := c], id, doc) <==> IsDocIn(own, id, doc)
  {
    var grown := own[c.id := c];
    forall item ensures Brings(grown, id, item) <==> Brings(own, id, item) {
      if x :| Reaches(grown, id, x) && item in DeltaOf(grown, x) {
        ChildKeepsReach(own, c, id, x);
        assert DeltaOf(own, x) == DeltaOf(grown, x);
      }
      if x :| Reaches(own, id, x) && item in DeltaOf(own, x) {
        ChildKeepsReach(own, c, id, x);
        assert DeltaOf(own, x) == DeltaOf(grown, x);
      }
    }
  }

  // ---- Dropped ancestors ----

  /** Every item that an ancestor brings is still brought by one that is reached without
      the dropped commits. */
  ghost predicate KeepsItems(own: CommitMap, dropped: set<CommitId>, id: CommitId) {
    forall item :: Brings(own, id, item) ==> Brings(own - dropped, id, item)
  }

  lemma FewerReach(own: CommitMap, dropped: set<CommitId>, id: CommitId, x: CommitId)
    requires Reaches(own - dropped, id, x)
    ensures Reaches(own, id, x)
  {
    var path :| IsPath(own - dropped, path) && path[0] == id && path[|path| - 1] == x;
    assert IsPath(own, path);
  }

  /** A kept text version has the same document after the deletion if and only if no item
      of its ancestors is lost. */
  lemma DroppedDocIff(own: CommitMap, dropped: set<CommitId>, id: CommitId, doc: set<TextItem>)
    requires IsDocIn(own, id, doc)
    ensures IsDocIn(own - dropped, id, doc) <==> KeepsItems(own, dropped, id)
  {
    forall item | Brings(own - dropped, id, item) ensures Brings(own, id, item) {
      var x :| Reaches(own - dropped, id, x) && item in DeltaOf(own - dropped, x);
      FewerReach(own, dropped, id, x);
      assert item in DeltaOf(own, x);
    }
  }

  // ---- A whole run of maintenance ----

  /** No run deletes below this version: it is no text, or nothing of its resource goes. */
  ghost predicate IsSafe(start: World, self: ClientId, policy: Policy, id: CommitId)
    requires self in start.clients && id in start.clients[self].commits
  {
    var c := start.clients[self].commits[id];
    !c.change.TextDelta? || !VerdictAt(start, self, c.resource, policy).Drop?
  }

  /** Every version that is known before and after a run of maintenance reads the same,
      except a text in a resource that is not of text kind and loses history. */
  lemma KeptVersionReadsTheSame(
    crdt: Crdt, self: ClientId, start: World, surveyed: World, w: World, policy: Policy, scopes: set<ScopeId>,
    left: set<ResourceKey>, ids: ResourceKey -> CommitId, ok: bool, id: CommitId, bytes: Bytes)
    requires Reachable(self, start) && Reachable(self, w)
    requires Maintained(crdt, self, start, surveyed, w, policy, scopes, left, ids, ok)
    requires forall k :: ids(k) !in start.published
    requires id in start.clients[self].commits && id in w.clients[self].commits && IsSafe(start, self, policy, id)
    ensures var key := start.clients[self].commits[id].resource;
            && w.clients[self].commits[id] == start.clients[self].commits[id]
            && (IsContentOf(crdt, w.clients[self].commits, key, id, bytes)
                <==> IsContentOf(crdt, start.clients[self].commits, key, id, bytes))
  {
    ReachableIsOk(self, start);
    ReachableIsOk(self, w);
    InvMeans(self, start);
    InvMeans(self, w);
    var m, n, key := start.clients[self].commits, w.clients[self].commits, start.clients[self].commits[id].resource;
    OwnAfter(crdt, self, start, surveyed, w, policy, scopes, left, ids, ok, id);
    ContentIsOwn(crdt, m, key, id, bytes);
    ContentIsOwn(crdt, n, key, id, bytes);
    if ResourceCommits(n, key) != ResourceCommits(m, key) && m[id].change.TextDelta? {
      var copy: Commit :| copy.id == ids(key) && ResourceCommits(n, key) == ResourceCommits(m, key)[copy.id := copy];
      UnpublishedIsFresh(self, start, self, copy.id);
      ChildKeepsContent(crdt, ResourceCommits(m, key), copy, id, bytes);
    }
  }

  /** In the excepted case the document stays if and only if no item of the version's
      ancestors is lost. */
  lemma KeptTextReadsTheSameIff(
    crdt: Crdt, self: ClientId, start: World, surveyed: World, w: World, policy: Policy, scopes: set<ScopeId>,
    left: set<ResourceKey>, ids: ResourceKey -> CommitId, id: CommitId, doc: set<TextItem>)
    requires Reachable(self, start) && Reachable(self, w)
    requires Maintained(crdt, self, start, surveyed, w, policy, scopes, left, ids, true)
    requires forall k :: ids(k) !in start.published
    requires id in start.clients[self].commits && id in w.clients[self].commits
    requires var key := start.clients[self].commits[id].resource;
             && key in RemoteKeys(start.clients[self].commits, scopes)
             && VerdictAt(start, self, key, policy).Drop? && IsTextDocAt(start.clients[self].commits, key, id, doc)
    ensures var key := start.clients[self].commits[id].resource;
            IsTextDocAt(w.clients[self].commits, key, id, doc) <==>
              KeepsItems(ResourceCommits(start.clients[self].commits, key),
                         VerdictAt(start, self, key, policy).obsolete, id)
  {
    ReachableIsOk(self, start);
    ReachableIsOk(self, w);
    InvMeans(self, start);
    InvMeans(self, w);
    assert ClientOk(start, start.clients[self]);
    var m, n, key := start.clients[self].commits, w.clients[self].commits, start.clients[self].commits[id].resource;
    OwnAfter(crdt, self, start, surveyed, w, policy, scopes, left, ids, true, id);
    TendedEnds(crdt, self, start, surveyed, w, policy, scopes, left, ids, true, key);
    DocIsOwn(m, key, id, doc);
    DocIsOwn(n, key, id, doc);
    DroppedDocIff(ResourceCommits(m, key), VerdictAt(start, self, key, policy).obsolete, id, doc);
  }

  /** At least as many versions stay as are to be kept. */
  lemma EnoughVersionsStay(
    crdt: Crdt, self: ClientId, start: World, surveyed: World, w: World, policy: Policy, scopes: set<ScopeId>,
    left: set<ResourceKey>, ids: ResourceKey -> CommitId, key: ResourceKey)
    requires Reachable(self, start) && Maintained(crdt, self, start, surveyed, w, policy, scopes, left, ids, true)
    requires key in RemoteKeys(start.clients[self].commits, scopes) && forall k :: ids(k) !in start.published
    ensures var own, own' := ResourceCommits(start.clients[self].commits, key),
      ResourceCommits(w.clients[self].commits, key);
            |own'| >= if policy.keep < |own| then policy.keep else |own|
  {
    ReachableIsOk(self, start);
    assert ClientOk(start, start.clients[self]);
    LiveIsKeyed(start);
    var c0 := start.clients[self];
    var own, own' := ResourceCommits(c0.commits, key), ResourceCommits(w.clients[self].commits, key);
    TendedEnds(crdt, self, start, surveyed, w, policy, scopes, left, ids, true, key);
    var kept := Newest(own, policy.keep);
    NewestSize(own, policy.keep);
    NewestStay(c0, start.remote.acks, self, key, policy);
    assert kept <= own'.Keys;
    CardinalityOfSubset(kept, own'.Keys);
    assert |own'| == |own'.Keys|;
  }

  lemma NewestStay(c: Client, acks: map<AckKey, ResourceAck>, self: ClientId, key: ResourceKey, policy: Policy)
    ensures VerdictOf(c, acks, self, key, policy).Drop? ==>
            VerdictOf(c, acks, self, key, policy).obsolete !! Newest(ResourceCommits(c.commits, key), policy.keep)
  {
  }

  /** What a kept version's resource has become. */
  lemma OwnAfter(
    crdt: Crdt, self: ClientId, start: World, surveyed: World, w: World, policy: Policy, scopes: set<ScopeId>,
    left: set<ResourceKey>, ids: ResourceKey -> CommitId, ok: bool, id: CommitId)
    requires Inv(self, start) && Maintained(crdt, self, start, surveyed, w, policy, scopes, left, ids, ok)
    requires forall k :: ids(k) !in start.published
    requires id in start.clients[self].commits && id in w.clients[self].commits
    ensures var m, n := start.clients[self].commits, w.clients[self].commits;
            var key := m[id].resource;
            var own, own' := ResourceCommits(m, key), ResourceCommits(n, key);
            && n[id] == m[id] && id in own'
            && (IsSafe(start, self, policy, id) && m[id].change.TextDelta? ==>
                  own' == own || exists copy: Commit :: copy.id == ids(key) && own' == own[copy.id := copy])
  {
    var key := start.clients[self].commits[id].resource;
    assert ClientOk(start, start.clients[self]);
    KeptCommit(crdt, self, start, surveyed, w, policy, scopes, left, ids, ok, id);
    if IsSafe(start, self, policy, id) && start.clients[self].commits[id].change.TextDelta? {
      if key in RemoteKeys(start.clients[self].commits, scopes) && key !in left {
        TendedEnds(crdt, self, start, surveyed, w, policy, scopes, left, ids, ok, key);
      } else {
        UntendedEnds(crdt, self, start, surveyed, w, policy, scopes, left, ids, ok, key);
      }
    }
  }

  lemma KeptCommit(
    crdt: Crdt, self: ClientId, start: World, surveyed: World, w: World, policy: Policy, scopes: set<ScopeId>,
    left: set<ResourceKey>, ids: ResourceKey -> CommitId, ok: bool, id: CommitId)
    requires Maintained(crdt, self, start, surveyed, w, policy, scopes, left, ids, ok)
    requires id in start.clients[self].commits && id in w.clients[self].commits
    requires ids(start.clients[self].commits[id].resource) !in start.clients[self].commits
    ensures w.clients[self].commits[id] == start.clients[self].commits[id]
  {
    var c0, c1, key := start.clients[self], surveyed.clients[self], start.clients[self].commits[id].resource;
    assert w.clients[self].commits[id] == c1.commits[id];
    if key in RemoteKeys(c0.commits, scopes) - left {
      assert TendedAs(crdt, c0, c1, key, VerdictAt(start, self, key, policy), ids(key));
      TendedKeeps(crdt, c0, c1, key, VerdictAt(start, self, key, policy), ids(key), id);
    } else {
      assert Untouched(start, surveyed, self, key);
      SameCommit(c0.commits, c1.commits, key, id);
    }
  }

  lemma TendedKeeps(
    crdt: Crdt, c0: Client, c1: Client, key: ResourceKey, verdict: Verdict, copyId: CommitId, id: CommitId)
    requires TendedAs(crdt, c0, c1, key, verdict, copyId) && copyId !in c0.commits
    requires id in ResourceCommits(c0.commits, key)
    ensures id in c1.commits && c1.commits[id] == c0.commits[id]
  {
    if verdict.NeedsCheckpoint? {
      var copy: Commit :| copy.id == copyId && IsNewCheckpoint(crdt, c0, c1, key, copy);
      assert id in ResourceCommits(c1.commits, key) && ResourceCommits(c1.commits, key)[id] == c0.commits[id];
    } else {
      SameCommit(c0.commits, c1.commits, key, id);
    }
  }

  // ---- A text whose versions change ----

  function TextVersion(
    id: CommitId, parents: set<CommitId>, key: ResourceKey, author: ClientId, item: TextItem): Commit
  {
    Commit(id, key, parents, author, id + 1, id, TextDelta({item}))
  }

  /** Two text versions with a binary one on top: the host took the file for text at first. */
  function TurnedBinary(key: ResourceKey, author: ClientId): CommitMap {
    map[0 := TextVersion(0, {}, key, author, TextItem(1, [66])),
        1 := TextVersion(1, {0}, key, author, TextItem(0, [65])),
        2 := Commit(2, key, {1}, author, 3, 2, BinarySnapshot(Digest([]), 0, []))]
  }

  function TurnedBinaryClient(key: ResourceKey, author: ClientId): Client {
    Client(TurnedBinary(key, author), map[], map[key := 2], {})
  }

  function TurnedBinaryAcks(key: ResourceKey, author: ClientId): map<AckKey, ResourceAck> {
    map[AckKey(author, key) := ResourceAck(author, key, {2}, {})]
  }

  /** With two versions to keep and the resource recorded as binary the first text goes,
      and the second, which is kept, reads as another text. */
  lemma RetentionCanRewriteText(key: ResourceKey, author: ClientId)
    ensures var c, acks := TurnedBinaryClient(key, author), TurnedBinaryAcks(key, author);
            && VerdictOf(c, acks, author, key, Policy(2, map[key := Binary], {})) == Drop({0})
            && IsContentOf(Register(), c.commits, key, 1, [66])
            && IsContentOf(Register(), c.commits - {0}, key, 1, [65])
  {
    var c, acks := TurnedBinaryClient(key, author), TurnedBinaryAcks(key, author);
    var m := c.commits;
    assert ResourceCommits(m, key) == m && ResourceCommits(m - {0}, key) == m - {0};
    TurnedBinaryVerdict(key, author);
    VersionBefore(key, author);
    VersionAfter(key, author);
  }

  lemma TurnedBinaryVerdict(key: ResourceKey, author: ClientId)
    ensures VerdictOf(TurnedBinaryClient(key, author), TurnedBinaryAcks(key, author), author, key,
                      Policy(2, map[key := Binary], {})) == Drop({0})
  {
    var m := TurnedBinary(key, author);
    assert ResourceCommits(m, key) == m;
    TurnedBinaryHead(key, author);
    TurnedBinarySeen(key, author);
    TurnedBinaryObsolete(key, author);
  }

  lemma TurnedBinaryHead(key: ResourceKey, author: ClientId)
    ensures |TurnedBinary(key, author)| == 3 && Heads(TurnedBinary(key, author), key) == {2}
  {
    var m := TurnedBinary(key, author);
    assert ResourceCommits(m, key) == m;
    assert ParentsIn(m) == {0, 1} by {
      assert m[1].parents == {0} && m[2].parents == {1} && m[0].parents == {};
    }
  }

  lemma TurnedBinarySeen(key: ResourceKey, author: ClientId)
    ensures AllAcknowledged(TurnedBinary(key, author), TurnedBinaryAcks(key, author), {}, author, key, 2)
  {
    var m, acks := TurnedBinary(key, author), TurnedBinaryAcks(key, author);
    ReachesSelf(m, 2);
    forall client | client in ActiveClients(ResourceCommits(m, key), {}, author)
      ensures HasAcknowledged(m, acks, client, key, 2)
    {
      assert client == author;
      assert acks[AckKey(author, key)].observedHeads == {2};
    }
  }

  lemma TurnedBinaryObsolete(key: ResourceKey, author: ClientId)
    ensures ObsoleteOf(TurnedBinaryClient(key, author), TurnedBinaryAcks(key, author), key, 2) == {0}
  {
    var m := TurnedBinary(key, author);
    assert ResourceCommits(m, key) == m;
    assert NewerThan(m, 2) == {} && NewerThan(m, 1) == {2} && NewerThan(m, 0) == {1, 2};
    assert Newest(m, 2) == {1, 2};
    assert PinnedFor(TurnedBinaryAcks(key, author), key) == {};
  }

  lemma VersionBefore(key: ResourceKey, author: ClientId)
    ensures IsContentOf(Register(), TurnedBinary(key, author), key, 1, [66])
  {
    var m := TurnedBinary(key, author);
    assert ResourceCommits(m, key) == m;
    var first, second := TextItem(0, [65]), TextItem(1, [66]);
    assert DeltaOf(m, 0) == {second} && DeltaOf(m, 1) == {first};
    ReachesSelf(m, 1);
    ReachesStep(m, 1, 1, 0);
    forall x | Reaches(m, 1, x) ensures x in {0, 1} {
      ClosedContainsReachable(m, {0, 1}, 1, x);
    }
    assert IsTextDocAt(m, key, 1, {first, second});
    LatestOfTwo(first, second);
  }

  lemma VersionAfter(key: ResourceKey, author: ClientId)
    ensures IsContentOf(Register(), TurnedBinary(key, author) - {0}, key, 1, [65])
  {
    var m := TurnedBinary(key, author) - {0};
    assert ResourceCommits(m, key) == m;
    var first, second := TextItem(0, [65]), TextItem(1, [66]);
    assert DeltaOf(m, 1) == {first} && DeltaOf(m, 0) == {};
    ReachesSelf(m, 1);
    forall x | Reaches(m, 1, x) ensures x in {0, 1} {
      ClosedContainsReachable(m, {0, 1}, 1, x);
    }
    assert IsTextDocAt(m, key, 1, {first});
    LatestOfTwo(first, second);
  }
}
