/** The commit DAG of a replica: heads, reachability, materialized text and remote
    state (`RuntimeState` in src/runtime.rs). */
module CommitGraph {
  import opened Types

  function ResourceCommits(m: CommitMap, key: ResourceKey): CommitMap {
    map id | id in m && m[id].resource == key :: m[id]
  }

  function ParentsIn(m: CommitMap): set<CommitId> {
    set id, p | id in m && p in m[id].parents :: p
  }

  /** Commits of the resource that no commit of the resource names as a parent. */
  function Heads(m: CommitMap, key: ResourceKey): set<CommitId> {
    var commits := ResourceCommits(m, key);
    commits.Keys - ParentsIn(commits)
  }

  // ---- Reachability ----

  /** Follows parent edges; edges leave only commits that are in the map. */
  ghost predicate IsPath(m: CommitMap, path: seq<CommitId>) {
    && path != []
    && forall i :: 0 <= i < |path| - 1 ==> path[i] in m && path[i + 1] in m[path[i]].parents
  }

  /** `to` lies zero or more parent edges above `from`. */
  ghost predicate Reaches(m: CommitMap, from: CommitId, to: CommitId) {
    exists path :: IsPath(m, path) && path[0] == from && path[|path| - 1] == to
  }

  lemma ReachesSelf(m: CommitMap, id: CommitId)
    ensures Reaches(m, id, id)
  {
    assert IsPath(m, [id]);
  }

  lemma ReachesStep(m: CommitMap, from: CommitId, id: CommitId, parent: CommitId)
    requires Reaches(m, from, id) && id in m && parent in m[id].parents
    ensures Reaches(m, from, parent)
  {
    var path :| IsPath(m, path) && path[0] == from && path[|path| - 1] == id;
    assert IsPath(m, path + [parent]);
  }

  /** What a set closed under parents does not contain is out of reach from inside. */
  lemma {:induction false} ClosedUnderPath(m: CommitMap, closed: set<CommitId>, path: seq<CommitId>)
    requires IsPath(m, path) && path[0] in closed
    requires forall id :: id in closed && id in m ==> m[id].parents <= closed
    ensures path[|path| - 1] in closed
  {
    if |path| > 1 {
      ClosedUnderPath(m, closed, path[1..]);
    }
  }

  lemma ClosedContainsReachable(m: CommitMap, closed: set<CommitId>, from: CommitId, to: CommitId)
    requires from in closed && Reaches(m, from, to)
    requires forall id :: id in closed && id in m ==> m[id].parents <= closed
    ensures to in closed
  {
    var path :| IsPath(m, path) && path[0] == from && path[|path| - 1] == to;
    ClosedUnderPath(m, closed, path);
  }

  /** Worklist search with a visited set. It stops on every finite map, also one with
      cycles or with parents that are not in the map, in whatever order the pending
      identifiers are taken. */
  method IsDescendant(m: CommitMap, candidate: CommitId, ancestor: CommitId) returns (r: bool)
    ensures r <==> Reaches(m, candidate, ancestor)
  {
    var pending, visited := {candidate}, {};
    ghost var all := {candidate} + ParentsIn(m);
    ReachesSelf(m, candidate);
    while pending != {}
      invariant pending <= all && visited <= all
      invariant candidate in pending + visited
      invariant forall id :: id in pending + visited ==> Reaches(m, candidate, id)
      invariant forall id :: id in visited && id in m ==> m[id].parents <= pending + visited
      invariant ancestor !in visited
      decreases all - visited, pending
    {
      var id :| id in pending;
      pending := pending - {id};
      if id == ancestor {
        return true;
      }
      if id !in visited {
        visited := visited + {id};
        if id in m {
          forall p | p in m[id].parents ensures Reaches(m, candidate, p) && p in all {
            ReachesStep(m, candidate, id, p);
          }
          pending := pending + m[id].parents;
        }
      }
    }
    if Reaches(m, candidate, ancestor) {
      ClosedContainsReachable(m, visited, candidate, ancestor);
      assert false;
    }
    return false;
  }

  // ---- Shape of the DAG ----

  /** Parents belong to the resource of their child. */
  ghost predicate SameResource(m: CommitMap) {
    forall id, p :: id in m && p in m[id].parents && p in m ==> m[p].resource == m[id].resource
  }

  /** `rank` is a publication order: a parent was published before its children. */
  ghost predicate Ranked(m: CommitMap, rank: map<CommitId, nat>) {
    && m.Keys <= rank.Keys
    && forall id, p :: id in m && p in m[id].parents && p in m ==> rank[p] < rank[id]
  }

  lemma HeadsMeaning(m: CommitMap, key: ResourceKey, id: CommitId)
    ensures id in Heads(m, key) <==>
            && id in m && m[id].resource == key
            && forall child :: child in m && m[child].resource == key ==> id !in m[child].parents
  {
    var commits := ResourceCommits(m, key);
    if id in m && m[id].resource == key && exists child ::
      child in m && m[child].resource == key && id in m[child].parents {
      var child :| child in m && m[child].resource == key && id in m[child].parents;
      assert child in commits && id in commits[child].parents;
    }
  }

  lemma ReachedHasAChild(m: CommitMap, from: CommitId, to: CommitId) returns (child: CommitId)
    requires Reaches(m, from, to) && from != to
    ensures child in m && to in m[child].parents && Reaches(m, from, child)
  {
    var path :| IsPath(m, path) && path[0] == from && path[|path| - 1] == to;
    child := path[|path| - 2];
    assert IsPath(m, path[..|path| - 1]);
  }

  /** Heads of one resource are pairwise unrelated. */
  lemma HeadsAreUnrelated(m: CommitMap, key: ResourceKey, a: CommitId, b: CommitId)
    requires SameResource(m) && a in Heads(m, key) && b in Heads(m, key) && a != b
    ensures !Reaches(m, a, b)
  {
    HeadsMeaning(m, key, b);
    if Reaches(m, a, b) {
      var child := ReachedHasAChild(m, a, b);
      assert false;
    }
  }

  /** Going up along children always ends at a head, so every commit of the resource is
      an ancestor of some head. */
  lemma {:induction false} EveryCommitReachesAHead(
    m: CommitMap, rank: map<CommitId, nat>, key: ResourceKey, id: CommitId)
    returns (head: CommitId)
    requires Ranked(m, rank) && id in m && m[id].resource == key
    ensures head in Heads(m, key) && Reaches(ResourceCommits(m, key), head, id)
    decreases set x | x in m && rank[x] > rank[id]
  {
    HeadsMeaning(m, key, id);
    if id in Heads(m, key) {
      head := id;
      ReachesSelf(ResourceCommits(m, key), id);
    } else {
      var child :| child in m && m[child].resource == key && id in m[child].parents;
      var above := set x | x in m && rank[x] > rank[id];
      var higher := set x | x in m && rank[x] > rank[child];
      assert higher <= above && child in above - higher;
      head := EveryCommitReachesAHead(m, rank, key, child);
      ReachesStep(ResourceCommits(m, key), head, child, id);
    }
  }

  /** Publishing with the known heads as parents leaves the new commit as the only
      head of its resource and leaves every other resource alone. */
  lemma PublishLeavesOneHead(m: CommitMap, c: Commit, key: ResourceKey)
    requires c.id !in m && c.id !in ParentsIn(m)
    requires c.parents == Heads(m, c.resource) && c.id !in c.parents
    ensures Heads(m[c.id := c], key) == if key == c.resource then {c.id} else Heads(m, key)
  {
    var m' := m[c.id := c];
    forall id
      ensures id in Heads(m', key) <==> id in if key == c.resource then {c.id} else Heads(m, key)
    {
      HeadsMeaning(m', key, id);
      HeadsMeaning(m, key, id);
      assert m'[c.id] == c && c.parents == Heads(m, c.resource);
      if id in Heads(m', key) && id != c.id {
        assert forall child :: child in m && m[child].resource == key ==> child in m' && m'[child] == m[child];
        assert id in Heads(m, key);
      }
      if id in Heads(m, key) && key != c.resource {
        assert id in Heads(m', key);
      }
      if id == c.id && key == c.resource {
        assert forall child :: child in m ==> id !in m[child].parents by {
          assert forall child :: child in m && id in m[child].parents ==> id in ParentsIn(m);
        }
        assert id in Heads(m', key);
      }
    }
  }

  /** A head disappears from a growing map only under a commit that names it. */
  lemma HeadLostOnlyUnderAChild(m: CommitMap, m': CommitMap, key: ResourceKey, head: CommitId)
    returns (child: CommitId)
    requires forall id :: id in m ==> id in m' && m'[id] == m[id]
    requires head in Heads(m, key) && head !in Heads(m', key)
    ensures child in m' && child !in m && m'[child].resource == key && head in m'[child].parents
  {
    HeadsMeaning(m, key, head);
    HeadsMeaning(m', key, head);
    child :| child in m' && m'[child].resource == key && head in m'[child].parents;
  }

  // ---- Text documents ----

  /** The contract of the text CRDT. A document is the set of items it has integrated,
      so applying an update is set union: commutative, associative and idempotent. */
  datatype Crdt = Crdt(
    content: set<TextItem> -> Bytes,
    edit: (set<TextItem>, Bytes) -> set<TextItem>)
  {
    /** `set_text(t)` leaves content `t`, also when its update is applied elsewhere to
        an equal document. */
    ghost predicate Lawful() {
      forall doc, text :: content(doc + edit(doc, text)) == text
    }
  }

  function DeltaOf(m: CommitMap, id: CommitId): set<TextItem> {
    if id in m && m[id].change.TextDelta? then m[id].change.delta else {}
  }

  function UnionOfDeltas(m: CommitMap, ids: set<CommitId>): set<TextItem> {
    set id, item | id in ids && item in DeltaOf(m, id) :: item
  }

  /** The document holding every delta of the resource. */
  function TextDoc(m: CommitMap, key: ResourceKey): set<TextItem> {
    UnionOfDeltas(m, ResourceCommits(m, key).Keys)
  }

  /** The document as of one head: the deltas of everything reachable from it inside
      the resource. */
  ghost predicate IsTextDocAt(m: CommitMap, key: ResourceKey, head: CommitId, doc: set<TextItem>) {
    forall item :: item in doc <==>
      exists id :: Reaches(ResourceCommits(m, key), head, id) && item in DeltaOf(m, id)
  }

  /** Worklist search for the reachable set, then one application per delta in an
      arbitrary order. */
  method TextDocAt(m: CommitMap, key: ResourceKey, head: CommitId) returns (doc: set<TextItem>)
    ensures IsTextDocAt(m, key, head, doc)
  {
    var commits := ResourceCommits(m, key);
    var pending, reachable := {head}, {};
    ghost var all := {head} + ParentsIn(commits);
    ReachesSelf(commits, head);
    while pending != {}
      invariant pending <= all && reachable <= all
      invariant head in pending + reachable
      invariant forall id :: id in pending + reachable ==> Reaches(commits, head, id)
      invariant forall id :: id in reachable && id in commits ==> commits[id].parents <= pending + reachable
      decreases all - reachable, pending
    {
      var id :| id in pending;
      pending := pending - {id};
      if id !in reachable {
        reachable := reachable + {id};
        if id in m && m[id].resource == key {
          forall p | p in m[id].parents ensures Reaches(commits, head, p) && p in all {
            ReachesStep(commits, head, id, p);
          }
          pending := pending + m[id].parents;
        }
      }
    }
    forall id | Reaches(commits, head, id) ensures id in reachable {
      ClosedContainsReachable(commits, reachable, head, id);
    }
    var todo := reachable;
    doc := {};
    while todo != {}
      invariant todo <= reachable
      invariant doc == UnionOfDeltas(m, reachable - todo)
      decreases todo
    {
      var id :| id in todo;
      assert reachable - (todo - {id}) == (reachable - todo) + {id};
      todo := todo - {id};
      doc := doc + DeltaOf(m, id);
    }
    assert reachable - todo == reachable;
  }

  /** With one head, the document at the head is the whole document: nothing published
      for the resource is outside its history. */
  lemma TextDocAtOnlyHead(m: CommitMap, rank: map<CommitId, nat>, key: ResourceKey, head: CommitId, doc: set<TextItem>)
    requires Ranked(m, rank) && SameResource(m)
    requires Heads(m, key) == {head}
    ensures IsTextDocAt(m, key, head, doc) <==> doc == TextDoc(m, key)
  {
    var commits := ResourceCommits(m, key);
    forall id | id in commits ensures Reaches(commits, head, id) {
      var h := EveryCommitReachesAHead(m, rank, key, id);
    }
    forall id | Reaches(commits, head, id) && id in m ensures id in commits {
      ReachableStaysInResource(m, key, head, id);
    }
    forall item
      ensures item in TextDoc(m, key) <==> exists id :: Reaches(commits, head, id) && item in DeltaOf(m, id)
    {
      if item in TextDoc(m, key) {
        var id :| id in commits.Keys && item in DeltaOf(m, id);
        assert Reaches(commits, head, id);
      }
      if id :| Reaches(commits, head, id) && item in DeltaOf(m, id) {
        assert id in commits;
      }
    }
  }

  lemma ReachableStaysInResource(m: CommitMap, key: ResourceKey, head: CommitId, id: CommitId)
    requires SameResource(m) && head in m && m[head].resource == key
    requires Reaches(ResourceCommits(m, key), head, id) && id in m
    ensures m[id].resource == key
  {
    var path :| IsPath(ResourceCommits(m, key), path) && path[0] == head && path[|path| - 1] == id;
    if |path| > 1 {
      var child := path[|path| - 2];
      assert child in ResourceCommits(m, key) && id in m[child].parents;
    }
  }

  // ---- Remote state ----

  lemma {:induction false} MinimumExists(s: set<CommitId>) returns (least: CommitId)
    requires s != {}
    ensures least in s && forall x :: x in s ==> least <= x
  {
    var x :| x in s;
    if s == {x} {
      least := x;
    } else {
      var rest := MinimumExists(s - {x});
      least := if x < rest then x else rest;
      assert forall y :: y in s ==> y == x || y in s - {x};
    }
  }

  lemma MinimumIsUnique(s: set<CommitId>)
    requires s != {}
    ensures exists least :: least in s && forall x :: x in s ==> least <= x
  {
    var least := MinimumExists(s);
  }

  /** The first of a sorted list of heads. */
  function First(s: set<CommitId>): (least: CommitId)
    requires s != {}
    ensures least in s && forall x :: x in s ==> least <= x
  {
    MinimumIsUnique(s);
    var least :| least in s && forall x :: x in s ==> least <= x;
    least
  }

  lemma {:induction false} MaximumExists(s: set<CommitId>) returns (greatest: CommitId)
    requires s != {}
    ensures greatest in s && forall x :: x in s ==> x <= greatest
  {
    var x :| x in s;
    if s == {x} {
      greatest := x;
    } else {
      var rest := MaximumExists(s - {x});
      greatest := if rest < x then x else rest;
      assert forall y :: y in s ==> y == x || y in s - {x};
    }
  }

  lemma MaximumIsThere(s: set<CommitId>)
    requires s != {}
    ensures exists greatest :: greatest in s && forall x :: x in s ==> x <= greatest
  {
    var greatest := MaximumExists(s);
  }

  /** The last of a list sorted by identifier. */
  function Last(s: set<CommitId>): (greatest: CommitId)
    requires s != {}
    ensures greatest in s && forall x :: x in s ==> x <= greatest
  {
    MaximumIsThere(s);
    var greatest :| greatest in s && forall x :: x in s ==> x <= greatest;
    greatest
  }

  predicate AllDeletes(m: CommitMap, heads: set<CommitId>)
    requires heads <= m.Keys
  {
    forall h :: h in heads ==> m[h].change.Delete?
  }

  predicate AllDeltas(m: CommitMap, heads: set<CommitId>)
    requires heads <= m.Keys
  {
    forall h :: h in heads ==> m[h].change.TextDelta?
  }

  predicate SameSnapshots(m: CommitMap, heads: set<CommitId>, contentId: Digest, size: nat)
    requires heads <= m.Keys
  {
    forall h :: h in heads ==>
      m[h].change.BinarySnapshot? && m[h].change.contentId == contentId && m[h].change.size == size
  }

  function RemoteState(crdt: Crdt, m: CommitMap, key: ResourceKey): RemoteResourceState {
    var heads := Heads(m, key);
    if heads == {} then RemoteMissing
    else if AllDeletes(m, heads) then RemoteDeleted(heads)
    else if AllDeltas(m, heads) then
      var text := crdt.content(TextDoc(m, key));
      RemotePresent(Digest(text), |text|, heads)
    else
      var first := m[First(heads)].change;
      if first.BinarySnapshot? && SameSnapshots(m, heads, first.contentId, first.size)
      then RemotePresent(first.contentId, first.size, heads)
      else RemoteForked(heads)
  }

  function RemoteKeys(m: CommitMap, scopes: set<ScopeId>): set<ResourceKey> {
    set id | id in m && (scopes == {} || m[id].resource.scope in scopes) :: m[id].resource
  }

  function RemotePairs(crdt: Crdt, m: CommitMap, scopes: set<ScopeId>): map<ResourceKey, RemoteResourceState> {
    map key | key in RemoteKeys(m, scopes) :: RemoteState(crdt, m, key)
  }

  /** The state of a resource depends on the commits of that resource alone. */
  lemma RemoteStateFrame(crdt: Crdt, m: CommitMap, m': CommitMap, key: ResourceKey)
    requires ResourceCommits(m, key) == ResourceCommits(m', key)
    ensures Heads(m, key) == Heads(m', key)
    ensures TextDoc(m, key) == TextDoc(m', key)
    ensures RemoteState(crdt, m, key) == RemoteState(crdt, m', key)
  {
    var commits := ResourceCommits(m, key);
    assert forall id :: id in commits ==> id in m && id in m' && m[id] == commits[id] == m'[id];
    assert forall id :: id in commits ==> DeltaOf(m, id) == DeltaOf(m', id);
    assert TextDoc(m, key) == TextDoc(m', key);
  }

  /** Snapshots of one content and size. */
  predicate SameSnapshot(a: ResourceChange, b: ResourceChange) {
    a.BinarySnapshot? && b.BinarySnapshot? && a.contentId == b.contentId && a.size == b.size
  }

  /** Two changes that no single state can stand for. */
  predicate Unlike(a: ResourceChange, b: ResourceChange) {
    !(a.Delete? && b.Delete?) && !(a.TextDelta? && b.TextDelta?) && !SameSnapshot(a, b)
  }

  /** What the remote state is, head by head: missing without heads, deleted when all are
      tombstones, present when all are text or all are one snapshot, and forked as soon as
      two heads are unlike. */
  lemma RemoteStateMeaning(crdt: Crdt, m: CommitMap, key: ResourceKey)
    ensures Heads(m, key) <= m.Keys
    ensures var heads, state := Heads(m, key), RemoteState(crdt, m, key);
            && (state.RemoteMissing? <==> heads == {})
            && (state.RemoteDeleted? <==> heads != {} && forall h :: h in heads ==> m[h].change.Delete?)
            && (state.RemotePresent? <==>
                  && heads != {} && (forall h :: h in heads ==> !m[h].change.Delete?)
                  && forall g, h :: g in heads && h in heads ==> !Unlike(m[g].change, m[h].change))
            && (state.RemoteForked? <==> exists g, h :: g in heads && h in heads && Unlike(m[g].change, m[h].change))
            && (!state.RemoteMissing? ==> state.heads == heads)
    ensures var state := RemoteState(crdt, m, key);
            state.RemotePresent? ==> forall h :: h in Heads(m, key) ==>
              match m[h].change
              case BinarySnapshot(contentId, size, _) => state.contentId == contentId && state.size == size
              case _ =>
                var text := crdt.content(TextDoc(m, key)); state.contentId == Digest(text) && state.size == |text|
  {
    var heads := Heads(m, key);
    if heads != {} {
      var first := First(heads);
      assert first in heads && !Unlike(m[first].change, m[first].change);
      if !AllDeletes(m, heads) && !AllDeltas(m, heads) {
        ForkedIff(m, heads, first);
      }
    }
  }

  lemma ForkedIff(m: CommitMap, heads: set<CommitId>, first: CommitId)
    requires heads <= m.Keys && first in heads && !AllDeletes(m, heads) && !AllDeltas(m, heads)
    ensures (m[first].change.BinarySnapshot?
      && SameSnapshots(m, heads, m[first].change.contentId, m[first].change.size))
            <==> forall g, h :: g in heads && h in heads ==> !Unlike(m[g].change, m[h].change)
  {
    var gone :| gone in heads && !m[gone].change.Delete?;
    var other :| other in heads && !m[other].change.TextDelta?;
    if forall g, h :: g in heads && h in heads ==> !Unlike(m[g].change, m[h].change) {
      forall h | h in heads ensures SameSnapshot(m[first].change, m[h].change) {
        assert !Unlike(m[gone].change, m[other].change) && !Unlike(m[first].change, m[h].change);
        assert !Unlike(m[first].change, m[gone].change) && !Unlike(m[first].change, m[other].change);
      }
    }
  }

  /** With one head the remote state is that of the head's own change. */
  lemma StateOfOnlyHead(crdt: Crdt, m: CommitMap, key: ResourceKey, head: CommitId)
    requires Heads(m, key) == {head}
    ensures head in m && m[head].resource == key
    ensures RemoteState(crdt, m, key) ==
            match m[head].change
            case Delete => RemoteDeleted({head})
            case BinarySnapshot(contentId, size, _) => RemotePresent(contentId, size, {head})
            case TextDelta(_) =>
              var text := crdt.content(TextDoc(m, key));
              RemotePresent(Digest(text), |text|, {head})
  {
    assert head in Heads(m, key);
    assert First({head}) == head;
  }

  /** After publishing on top of all heads the remote state is that of the new commit. */
  lemma StateAfterPublish(crdt: Crdt, m: CommitMap, c: Commit)
    requires c.id !in m && c.id !in ParentsIn(m)
    requires c.parents == Heads(m, c.resource) && c.id !in c.parents
    ensures var m' := m[c.id := c];
            RemoteState(crdt, m', c.resource) ==
            match c.change
            case Delete => RemoteDeleted({c.id})
            case BinarySnapshot(contentId, size, _) => RemotePresent(contentId, size, {c.id})
            case TextDelta(delta) =>
              var text := crdt.content(TextDoc(m, c.resource) + delta);
              RemotePresent(Digest(text), |text|, {c.id})
  {
    var m' := m[c.id := c];
    PublishLeavesOneHead(m, c, c.resource);
    StateOfOnlyHead(crdt, m', c.resource, c.id);
    assert TextDoc(m', c.resource) == TextDoc(m, c.resource) + DeltaOf(m', c.id) by {
      var before, after := ResourceCommits(m, c.resource), ResourceCommits(m', c.resource);
      assert after.Keys == before.Keys + {c.id};
      assert forall id :: id in before ==> DeltaOf(m', id) == DeltaOf(m, id);
    }
  }
}
