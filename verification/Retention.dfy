/** History retention and the acknowledgement gate (`maintain` in src/runtime.rs). */
module Retention {
  import opened Types
  import opened CommitGraph
  import opened Remote

  /** Order of the retention sort: by timestamp, then by identifier. */
  predicate Newer(a: Commit, b: Commit) {
    a.timestamp > b.timestamp || (a.timestamp == b.timestamp && a.id > b.id)
  }

  function NewerThan(commits: CommitMap, id: CommitId): set<CommitId>
    requires id in commits
  {
    set other | other in commits && Newer(commits[other], commits[id])
  }

  /** The first `n` commits of the list sorted from newest to oldest: those with fewer
      than `n` commits before them. */
  function Newest(commits: CommitMap, n: nat): set<CommitId> {
    set id | id in commits && |NewerThan(commits, id)| < n
  }

  function Retained(commits: CommitMap, n: nat, checkpoint: CommitId, pinned: set<CommitId>): set<CommitId> {
    Newest(commits, n) + {checkpoint} + pinned
  }

  function Obsolete(commits: CommitMap, n: nat, checkpoint: CommitId, pinned: set<CommitId>): set<CommitId> {
    commits.Keys - Retained(commits, n, checkpoint, pinned)
  }

  function PinnedFor(acks: map<AckKey, ResourceAck>, key: ResourceKey): set<CommitId> {
    set k, id | k in acks && acks[k].resource == key && id in acks[k].pinned :: id
  }

  function Authors(commits: CommitMap): set<ClientId> {
    set id | id in commits :: commits[id].author
  }

  function ActiveClients(commits: CommitMap, retired: set<ClientId>, self: ClientId): set<ClientId> {
    (Authors(commits) - retired) + {self}
  }

  ghost predicate HasAcknowledged(
    m: CommitMap, acks: map<AckKey, ResourceAck>, client: ClientId, key: ResourceKey, checkpoint: CommitId)
  {
    exists k, head :: k in acks && acks[k].client == client && acks[k].resource == key
                      && head in acks[k].observedHeads && Reaches(m, head, checkpoint)
  }

  /** Every active client has seen a head on top of the checkpoint. */
  ghost predicate AllAcknowledged(
    m: CommitMap, acks: map<AckKey, ResourceAck>, retired: set<ClientId>, self: ClientId, key: ResourceKey,
    checkpoint: CommitId)
  {
    forall client :: client in ActiveClients(ResourceCommits(m, key), retired, self) ==>
      HasAcknowledged(m, acks, client, key, checkpoint)
  }

  // ---- Heads after retention ----

  ghost predicate HasChild(commits: CommitMap, id: CommitId) {
    exists child :: child in commits && id in commits[child].parents
  }

  /** Every child of `id` is dropped. */
  ghost predicate ChildrenDropped(commits: CommitMap, dropped: set<CommitId>, id: CommitId) {
    forall child :: child in commits && id in commits[child].parents ==> child in dropped
  }

  /** Dropping commits of a resource leaves exactly the surviving heads plus every kept
      commit that has children, all of them dropped. */
  lemma HeadsAfterDropping(m: CommitMap, key: ResourceKey, dropped: set<CommitId>)
    ensures var commits := ResourceCommits(m, key);
            forall id :: id in Heads(m - dropped, key) <==>
              && id in commits && id !in dropped
              && (id in Heads(m, key) || (HasChild(commits, id) && ChildrenDropped(commits, dropped, id)))
  {
    var commits := ResourceCommits(m, key);
    forall id ensures id in Heads(m - dropped, key) <==>
      id in commits && id !in dropped && ChildrenDropped(commits, dropped, id)
    {
      HeadsMeaning(m - dropped, key, id);
      if id in Heads(m - dropped, key) {
        forall child | child in commits && id in commits[child].parents ensures child in dropped {
          assert child !in dropped ==> child in m - dropped;
        }
      }
    }
    forall id ensures id in Heads(m, key) <==> id in commits && !HasChild(commits, id) {
      HeadsMeaning(m, key, id);
      assert id in Heads(m, key) ==> forall child :: child in commits ==> child in m && m[child].resource == key;
    }
  }

  /** So the heads are unchanged exactly when no head is dropped and every kept commit
      that has a child keeps one. */
  lemma HeadsUnchangedIff(m: CommitMap, key: ResourceKey, dropped: set<CommitId>)
    ensures var commits := ResourceCommits(m, key);
            Heads(m - dropped, key) == Heads(m, key) <==>
              && Heads(m, key) !! dropped
              && forall id :: id in commits && id !in dropped && HasChild(commits, id) ==>
                 !ChildrenDropped(commits, dropped, id)
  {
    var commits := ResourceCommits(m, key);
    HeadsAfterDropping(m, key, dropped);
    forall id | id in Heads(m, key) ensures id in commits && !HasChild(commits, id) {
      HeadsMeaning(m, key, id);
      assert forall child :: child in commits ==> child in m && m[child].resource == key;
    }
  }

  /** A child is newer than its parents. */
  ghost predicate CausalOrder(commits: CommitMap) {
    forall id, p :: id in commits && p in commits[id].parents && p in commits ==> Newer(commits[id], commits[p])
  }

  ghost predicate Keyed(m: CommitMap) {
    forall id :: id in m ==> m[id].id == id
  }

  /** The newest commits are closed under "newer than". */
  lemma NewestIsUpwardClosed(commits: CommitMap, n: nat, id: CommitId, other: CommitId)
    requires id in Newest(commits, n) && other in commits && Newer(commits[other], commits[id])
    ensures other in Newest(commits, n)
  {
    assert NewerThan(commits, other) <= NewerThan(commits, id);
    CardinalityOfSubset(NewerThan(commits, other), NewerThan(commits, id));
  }

  /** Nothing is newer than the newest. */
  lemma {:induction false} NewestExists(commits: CommitMap) returns (top: CommitId)
    requires commits != map[] && Keyed(commits)
    ensures top in commits && NewerThan(commits, top) == {}
    ensures forall id :: id in commits && id != top ==> Newer(commits[top], commits[id])
    decreases |commits|
  {
    var x :| x in commits;
    var rest := commits - {x};
    if rest == map[] {
      top := x;
      forall id | id in commits ensures id == x {
        assert id != x ==> id in rest;
      }
    } else {
      var best := NewestExists(rest);
      top := if Newer(commits[x], commits[best]) then x else best;
      forall id | id in commits && id != top ensures Newer(commits[top], commits[id]) {
        assert id != x ==> id in rest && rest[id] == commits[id];
      }
    }
  }

  /** The first `n` of a list have `n` members, or all when there are no more. */
  ghost predicate TakesAll(taken: set<CommitId>, n: nat, commits: CommitMap) {
    |taken| == if n < |commits| then n else |commits|
  }

  /** Retention keeps exactly `n` newest commits, or all when there are no more. */
  lemma {:induction false} NewestSize(commits: CommitMap, n: nat)
    requires Keyed(commits)
    ensures TakesAll(Newest(commits, n), n, commits)
    decreases |commits|
  {
    if n == 0 || commits == map[] {
      NewestOfNone(commits, n);
    } else {
      var top := NewestExists(commits);
      OneFewer(commits, top);
      NewestSize(commits - {top}, n - 1);
      NewestWithTop(commits, top, n);
    }
  }

  lemma NewestOfNone(commits: CommitMap, n: nat)
    requires n == 0 || commits == map[]
    ensures TakesAll(Newest(commits, n), n, commits)
  {
    assert Newest(commits, n) == {};
    assert commits == map[] ==> |commits| == 0;
  }

  lemma OneFewer(commits: CommitMap, id: CommitId)
    requires id in commits
    ensures |commits - {id}| == |commits| - 1
  {
    assert (commits - {id}).Keys == commits.Keys - {id};
    assert |commits| == |commits.Keys| && |commits - {id}| == |(commits - {id}).Keys|;
  }

  lemma NewestWithTop(commits: CommitMap, top: CommitId, n: nat)
    requires top in commits && NewerThan(commits, top) == {} && n > 0
    requires forall id :: id in commits && id != top ==> Newer(commits[top], commits[id])
    requires TakesAll(Newest(commits - {top}, n - 1), n - 1, commits - {top}) && |commits - {top}| == |commits| - 1
    ensures TakesAll(Newest(commits, n), n, commits)
  {
    NewestSplits(commits, top, n);
    OneMore(Newest(commits, n), Newest(commits - {top}, n - 1), top);
  }

  lemma OneMore(all: set<CommitId>, rest: set<CommitId>, x: CommitId)
    requires all == rest + {x} && x !in rest
    ensures |all| == |rest| + 1
  {
  }

  lemma NewestSplits(commits: CommitMap, top: CommitId, n: nat)
    requires top in commits && NewerThan(commits, top) == {} && n > 0
    requires forall id :: id in commits && id != top ==> Newer(commits[top], commits[id])
    ensures Newest(commits, n) == Newest(commits - {top}, n - 1) + {top} && top !in Newest(commits - {top}, n - 1)
  {
    forall id | id in commits && id != top
      ensures |NewerThan(commits, id)| == |NewerThan(commits - {top}, id)| + 1
    {
      OneMoreIsNewer(commits, top, id);
    }
  }

  lemma OneMoreIsNewer(commits: CommitMap, top: CommitId, id: CommitId)
    requires top in commits && id in commits && id != top && Newer(commits[top], commits[id])
    ensures |NewerThan(commits, id)| == |NewerThan(commits - {top}, id)| + 1
  {
    assert NewerThan(commits, id) == NewerThan(commits - {top}, id) + {top};
  }

  lemma {:induction false} CardinalityOfSubset(a: set<CommitId>, b: set<CommitId>)
    requires a <= b
    ensures |a| <= |b|
  {
    if a != {} {
      var x :| x in a;
      CardinalityOfSubset(a - {x}, b - {x});
    }
  }

  /** In a causal order the only head is newer than everything else. */
  lemma OnlyHeadIsNewest(m: CommitMap, rank: map<CommitId, nat>, key: ResourceKey, head: CommitId, n: nat)
    requires Ranked(m, rank) && Keyed(m) && CausalOrder(ResourceCommits(m, key))
    requires Heads(m, key) == {head} && n >= 1
    ensures head in Newest(ResourceCommits(m, key), n)
  {
    var commits := ResourceCommits(m, key);
    forall id | id in commits ensures !Newer(commits[id], commits[head]) {
      var h := EveryCommitReachesAHead(m, rank, key, id);
      var path :| IsPath(commits, path) && path[0] == head && path[|path| - 1] == id;
      PathGoesBack(commits, path);
    }
    assert NewerThan(commits, head) == {};
  }

  lemma {:induction false} PathGoesBack(commits: CommitMap, path: seq<CommitId>)
    requires IsPath(commits, path) && CausalOrder(commits) && path[|path| - 1] in commits
    ensures path[0] in commits && (path[0] == path[|path| - 1] || Newer(commits[path[0]], commits[path[|path| - 1]]))
  {
    if |path| > 1 {
      PathGoesBack(commits, path[1..]);
      assert path[1] in commits[path[0]].parents;
    }
  }

  /** With a causal order, the checkpoint among the newest `n` and nothing pinned,
      retention changes neither the heads nor the remote state. */
  lemma CausalRetentionKeepsHeads(
    crdt: Crdt, m: CommitMap, rank: map<CommitId, nat>, key: ResourceKey, head: CommitId, n: nat, checkpoint: CommitId)
    requires Ranked(m, rank) && Keyed(m) && CausalOrder(ResourceCommits(m, key))
    requires Heads(m, key) == {head} && n >= 1
    requires checkpoint in Newest(ResourceCommits(m, key), n)
    requires !m[head].change.TextDelta?
    ensures var m' := m - Obsolete(ResourceCommits(m, key), n, checkpoint, {});
            Heads(m', key) == Heads(m, key) && RemoteState(crdt, m', key) == RemoteState(crdt, m, key)
  {
    var commits := ResourceCommits(m, key);
    var dropped := Obsolete(commits, n, checkpoint, {});
    OnlyHeadIsNewest(m, rank, key, head, n);
    forall id | id in commits && id !in dropped && HasChild(commits, id)
      ensures !ChildrenDropped(commits, dropped, id)
    {
      var child :| child in commits && id in commits[child].parents;
      NewestIsUpwardClosed(commits, n, id, child);
      assert child !in dropped;
    }
    HeadsUnchangedIff(m, key, dropped);
    StateOfOnlyHead(crdt, m, key, head);
    StateOfOnlyHead(crdt, m - dropped, key, head);
  }

  function Line(key: ResourceKey, author: ClientId, i: nat): Commit {
    Commit(i, key, if i == 0 then {} else {i - 1}, author, i + 1, i, Delete)
  }

  function LineOfFour(key: ResourceKey, author: ClientId): CommitMap {
    map[0 := Line(key, author, 0), 1 := Line(key, author, 1), 2 := Line(key, author, 2), 3 := Line(key, author, 3)]
  }

  /** In a piece of the line a commit is a head when its successor is not in the piece. */
  lemma LineHeads(m: CommitMap, key: ResourceKey, author: ClientId, id: CommitId)
    requires forall i :: i in m ==> m[i] == Line(key, author, i)
    ensures id in Heads(m, key) <==> id in m && id + 1 !in m
  {
    HeadsMeaning(m, key, id);
  }

  /** Without those conditions retention can create a head: four commits in a row, the
      second a checkpoint, one version kept. */
  lemma RetentionCanForkALine(key: ResourceKey, author: ClientId)
    ensures var m := LineOfFour(key, author);
            && Heads(m, key) == {3}
            && Heads(m - Obsolete(ResourceCommits(m, key), 1, 1, {}), key) == {1, 3}
  {
    var m := LineOfFour(key, author);
    LineKeepsLast(key, author);
    assert ResourceCommits(m, key) == m;
    LineHead(key, author);
    BrokenLineHeads(key, author);
  }

  lemma LineHead(key: ResourceKey, author: ClientId)
    ensures Heads(LineOfFour(key, author), key) == {3}
  {
    var m := LineOfFour(key, author);
    assert forall i :: i in m ==> m[i] == Line(key, author, i);
    forall id ensures id in Heads(m, key) <==> id == 3 {
      LineHeads(m, key, author, id);
    }
  }

  lemma BrokenLineHeads(key: ResourceKey, author: ClientId)
    ensures Heads(LineOfFour(key, author) - {0, 2}, key) == {1, 3}
  {
    var m := LineOfFour(key, author) - {0, 2};
    assert forall i :: i in m ==> m[i] == Line(key, author, i);
    forall id ensures id in Heads(m, key) <==> id == 1 || id == 3 {
      LineHeads(m, key, author, id);
    }
  }

  lemma LineKeepsLast(key: ResourceKey, author: ClientId)
    ensures Obsolete(LineOfFour(key, author), 1, 1, {}) == {0, 2}
  {
    var m := LineOfFour(key, author);
    assert NewerThan(m, 3) == {};
    forall id | id in m && id != 3 ensures id !in Newest(m, 1) {
      assert 3 in NewerThan(m, id);
    }
    assert Newest(m, 1) == {3};
  }
}
