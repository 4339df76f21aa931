/** Concurrent text edits end in the join of their deltas (`text_doc`, `text_doc_at` and
    the text branches of `execute` in src/runtime.rs; `TextDoc` in src/text.rs). */
module TextJoin {
  import opened Types
  import opened Core
  import opened CommitGraph
  import opened Execution
  import opened Convergence

  // ---- The contract of the CRDT can be met ----

  /** Apply deltas one after another, as `from_baseline_and_deltas` does. */
  function Replay(doc: set<TextItem>, deltas: seq<set<TextItem>>): set<TextItem>
    decreases |deltas|
  {
    if deltas == [] then doc else Replay(doc + deltas[0], deltas[1..])
  }

  /** Replaying holds exactly the items of the start and of every delta, so neither the
      order of the deltas nor repeating one matters. */
  lemma {:induction false} ReplayIsUnion(doc: set<TextItem>, deltas: seq<set<TextItem>>)
    ensures Replay(doc, deltas) == doc + set delta, item | delta in deltas && item in delta :: item
    decreases |deltas|
  {
    if deltas != [] {
      ReplayIsUnion(doc + deltas[0], deltas[1..]);
      assert deltas == [deltas[0]] + deltas[1..];
    }
  }

  /** So a client that applies the deltas of all known commits of a resource, in whatever
      order and however often, has the document that the heads and the planner are about. */
  lemma ReplayIsTheDocument(m: CommitMap, key: ResourceKey, order: seq<CommitId>)
    requires forall id :: id in order <==> id in ResourceCommits(m, key)
    ensures Replay({}, seq(|order|, i requires 0 <= i < |order| => DeltaOf(m, order[i]))) == TextDoc(m, key)
  {
    var deltas := seq(|order|, i requires 0 <= i < |order| => DeltaOf(m, order[i]));
    ReplayIsUnion({}, deltas);
    forall item ensures item in TextDoc(m, key) <==> exists delta :: delta in deltas && item in delta {
      if item in TextDoc(m, key) {
        var id :| id in ResourceCommits(m, key).Keys && item in DeltaOf(m, id);
        var i :| 0 <= i < |order| && order[i] == id;
        assert deltas[i] == DeltaOf(m, id);
      }
      if delta :| delta in deltas && item in delta {
        var i :| 0 <= i < |deltas| && deltas[i] == delta;
        assert order[i] in ResourceCommits(m, key);
      }
    }
  }

  lemma {:induction false} LatestExists(doc: set<TextItem>) returns (top: TextItem)
    requires doc != {}
    ensures top in doc && forall item :: item in doc ==> item.clock <= top.clock
  {
    var x :| x in doc;
    if doc == {x} {
      top := x;
    } else {
      var rest := LatestExists(doc - {x});
      top := if rest.clock < x.clock then x else rest;
      assert forall y :: y in doc ==> y == x || y in doc - {x};
    }
  }

  ghost predicate IsLatest(doc: set<TextItem>, top: TextItem) {
    top in doc && forall item :: item in doc ==> item.clock <= top.clock
  }

  ghost function Latest(doc: set<TextItem>): (top: TextItem)
    requires exists top :: IsLatest(doc, top)
    ensures IsLatest(doc, top)
  {
    var top :| IsLatest(doc, top);
    top
  }

  /** A register whose content is that of a latest item. */
  ghost function LatestContent(doc: set<TextItem>): Bytes {
    if exists top :: IsLatest(doc, top) then Latest(doc).payload else []
  }

  ghost function LatestEdit(doc: set<TextItem>, text: Bytes): set<TextItem> {
    if exists top :: IsLatest(doc, top) then {TextItem(Latest(doc).clock + 1, text)} else {TextItem(0, text)}
  }

  lemma LatestEditWrites(doc: set<TextItem>, text: Bytes)
    ensures LatestContent(doc + LatestEdit(doc, text)) == text
  {
    if doc == {} {
      assert IsLatest({TextItem(0, text)}, TextItem(0, text));
      assert doc + LatestEdit(doc, text) == {TextItem(0, text)};
    } else {
      var top := LatestExists(doc);
      assert IsLatest(doc, top);
      var added := TextItem(Latest(doc).clock + 1, text);
      assert IsLatest(doc + LatestEdit(doc, text), added);
    }
  }

  /** The law the other results assume is not empty: a register of writes meets it. */
  lemma LawfulCrdtExists() returns (crdt: Crdt)
    ensures crdt.Lawful()
  {
    crdt := Register();
    RegisterIsLawful();
  }

  ghost function Register(): Crdt {
    Crdt(doc => LatestContent(doc), (doc, text) => LatestEdit(doc, text))
  }

  lemma RegisterIsLawful()
    ensures Register().Lawful()
  {
    forall doc, text ensures Register().content(doc + Register().edit(doc, text)) == text {
      LatestEditWrites(doc, text);
    }
  }

  // ---- Several heads ----

  function HeadNumber(id: CommitId, key: ResourceKey, author: ClientId, item: TextItem): Commit {
    Commit(id, key, {}, author, 1, 0, TextDelta({item}))
  }

  /** Two clients created the same text concurrently. */
  function TwoTexts(key: ResourceKey, a: ClientId, b: ClientId, first: TextItem, second: TextItem): CommitMap {
    map[0 := HeadNumber(0, key, a, first), 1 := HeadNumber(1, key, b, second)]
  }

  lemma TwoTextHeads(key: ResourceKey, a: ClientId, b: ClientId, first: TextItem, second: TextItem)
    ensures var m := TwoTexts(key, a, b, first, second);
            Heads(m, key) == {0, 1} && First({0, 1}) == 0 && TextDoc(m, key) == {first, second}
    ensures IsTextDocAt(TwoTexts(key, a, b, first, second), key, 0, {first})
  {
    var m := TwoTexts(key, a, b, first, second);
    assert ResourceCommits(m, key) == m;
    assert DeltaOf(m, 0) == {first} && DeltaOf(m, 1) == {second};
    assert 0 in {0, 1};
    ReachesSelf(m, 0);
    forall id | Reaches(m, 0, id) ensures id == 0 {
      ClosedContainsReachable(m, {0}, 0, id);
    }
    assert IsTextDocAt(m, key, 0, {first});
  }

  lemma LatestOfTwo(first: TextItem, second: TextItem)
    requires first.clock < second.clock
    ensures LatestContent({first}) == first.payload && LatestContent({first, second}) == second.payload
  {
    assert IsLatest({first}, first) && IsLatest({first, second}, second);
    assert IsLatest({first}, Latest({first})) && IsLatest({first, second}, Latest({first, second}));
  }

  /** A download that is not the merge: the first of the two heads has one text, the join
      of both another. */
  lemma FirstHeadNeedNotBeTheMerge(
    key: ResourceKey, a: ClientId, b: ClientId)
    returns (crdt: Crdt, r: Replica, bytes: Bytes)
    ensures crdt.Lawful() && Heads(r.commits, key) == {0, 1} && PlanOf(crdt, r, Text, key).Download?
    ensures IsContentOf(crdt, r.commits, key, First(Heads(r.commits, key)), bytes)
    ensures !FirstHeadIsMerge(crdt, r.commits, key)
  {
    var first, second := TextItem(0, [65]), TextItem(1, [66]);
    crdt := Register();
    RegisterIsLawful();
    var m := TwoTexts(key, a, b, first, second);
    r := Replica(map[], m, map[], map[]);
    TwoTextHeads(key, a, b, first, second);
    LatestOfTwo(first, second);
    bytes := [65];
    assert [65][0] != [66][0];
    forall doc | IsTextDocAt(m, key, 0, doc) ensures crdt.content(doc) != crdt.content(TextDoc(m, key)) {
      TextDocAtIsUnique(m, key, 0, doc, {first});
    }
  }

  /** What follows from such a download: the replica took the merged document for the text
      in the file, so whatever the user writes next is published as an edit of the merge,
      and the joined text becomes the user's. What the other heads had added is gone. */
  lemma NextEditErasesUnseenHeads(
    crdt: Crdt, r: Replica, key: ResourceKey, local: ReplicaState, bytes: Bytes, left: Slot, token: Token,
    text: Bytes, version: Token, c: Commit, chunks: seq<Digest>)
    requires crdt.Lawful() && PlanFor(crdt, r, Text, key, local).Download? && Matches(r.SlotOf(key), local)
    requires Heads(r.commits, key) != {} && r.commits[First(Heads(r.commits, key))].change.TextDelta?
    requires var r1 := ApplyOperation(r, Text, PlanFor(crdt, r, Text, key, local), local, bytes, left, token);
             var r2 := r1.WithSlot(key, File(text, version));
             IsFreshCommit(r2.commits, key, c) && c.change == UploadChange(crdt, r2, key, Text, text, chunks)
    ensures var r1 := ApplyOperation(r, Text, PlanFor(crdt, r, Text, key, local), local, bytes, left, token);
            var r2 := r1.WithSlot(key, File(text, version));
            && (text != crdt.content(TextDoc(r.commits, key)) ==> PlanOf(crdt, r2, Text, key).Upload?)
            && crdt.content(TextDoc(r2.commits[c.id := c], key)) == text
  {
    DownloadIsOfRemoteState(crdt, r, Text, key, local);
    AfterDownload(crdt, r, Text, key, local, bytes, left, token);
    PresentTextIsMerge(crdt, r.commits, key);
    TextDocAfterPublish(r.commits, c);
  }

  /** After a reconcile that found the text in step or uploaded it the next edit is made
      against exactly the document the file shows, so the document becomes that edit. */
  lemma NextEditBecomesTheDocument(
    crdt: Crdt, r: Replica, r': Replica, key: ResourceKey, text: Bytes, version: Token, c: Commit, chunks: seq<Digest>)
    requires crdt.Lawful() && Carried(crdt, r, r', Text, key, PlanOf(crdt, r, Text, key))
    requires PlanOf(crdt, r, Text, key).EstablishBaseline? || PlanOf(crdt, r, Text, key).Upload?
    requires var r2 := r'.WithSlot(key, File(text, version));
             IsFreshCommit(r2.commits, key, c) && c.change == UploadChange(crdt, r2, key, Text, text, chunks)
    ensures crdt.content(TextDoc(r'.commits[c.id := c], key)) == text
  {
    BaseIsTheDocument(crdt, r, r', key);
    TextDocAfterPublish(r'.commits, c);
  }

  /** The document recorded with a text is everything known of it, downloaded or not. */
  lemma BaseIsTheDocument(crdt: Crdt, r: Replica, r': Replica, key: ResourceKey)
    requires Carried(crdt, r, r', Text, key, PlanOf(crdt, r, Text, key))
    requires var op := PlanOf(crdt, r, Text, key);
             op.EstablishBaseline? || op.Upload? || (op.Download? && AllDeltas(r.commits, Heads(r.commits, key)))
    ensures key in r'.baselines && key in r'.texts && r'.texts[key] == TextDoc(r'.commits, key)
  {
    var op := PlanOf(crdt, r, Text, key);
    if op.Upload? {
      var c, chunks, token :| Publishes(crdt, r, r', Text, key, op, c, chunks, token);
    } else {
      var bytes, left, token :| Applies(crdt, r, r', Text, key, op, bytes, left, token);
      if op.Download? {
        DownloadIsOfRemoteState(crdt, r, Text, key, Observed(r.SlotOf(key)));
        TextDownloadKeepsBase(r, op, bytes, left, token);
      }
    }
  }

  lemma TextDownloadKeepsBase(r: Replica, op: PlanOperation, bytes: Bytes, left: Slot, token: Token)
    requires op.Download? && op.remote.RemotePresent? && op.remote.heads != {}
    requires op.remote.heads == Heads(r.commits, op.key) && AllDeltas(r.commits, op.remote.heads)
    ensures var r' := ApplyOperation(r, Text, op, Observed(r.SlotOf(op.key)), bytes, left, token);
            && op.key in r'.baselines && op.key in r'.texts
            && r'.commits == r.commits && r'.texts[op.key] == TextDoc(r'.commits, op.key)
  {
  }

  // ---- Two replicas ----

  /** A replica whose acknowledged document is `base` and whose user wrote `text`. */
  ghost predicate Editing(crdt: Crdt, r: Replica, key: ResourceKey, base: set<TextItem>, text: Bytes) {
    && key in r.texts && r.texts[key] == base
    && r.BaselineOf(key).Some? && r.BaselineOf(key).value.BaselinePresent?
    && r.BaselineOf(key).value.contentId == Digest(crdt.content(base))
    && r.SlotOf(key).File? && r.SlotOf(key).data == text
  }

  /** The upload of an edit publishes its delta, and the replica ends with the document
      and the file that contain everything it knew and the edit. */
  lemma UploadJoins(crdt: Crdt, r: Replica, key: ResourceKey, base: set<TextItem>, text: Bytes, c: Commit, token: Token)
    requires Editing(crdt, r, key, base, text) && IsFreshCommit(r.commits, key, c)
    requires c.change == UploadChange(crdt, r, key, Text, text, [])
    ensures var r' := AfterCommit(crdt, r, Observed(r.SlotOf(key)), c, token);
            var doc := TextDoc(r.commits, key) + crdt.edit(base, text);
            && r'.commits == r.commits[c.id := c] && Heads(r'.commits, key) == {c.id}
            && TextDoc(r'.commits, key) == doc && key in r'.texts && r'.texts[key] == doc
            && r'.SlotOf(key) == File(crdt.content(doc), token)
            && r'.BaselineOf(key) == Some(BaselinePresent(Digest(crdt.content(doc)), token, {c.id}))
            && RemoteState(crdt, r'.commits, key) ==
               RemotePresent(Digest(crdt.content(doc)), |crdt.content(doc)|, {c.id})
  {
    PublishLeavesOneHead(r.commits, c, key);
    TextDocAfterPublish(r.commits, c);
    StateAfterPublish(crdt, r.commits, c);
  }

  /** Refreshing brings the commit map up to the other replica's. */
  function Refreshed(r: Replica, commits: CommitMap): Replica {
    r.(commits := commits)
  }

  /** Two replicas edit the same acknowledged base differently and reconcile one after the
      other; after the first has reconciled again, both hold the join of both deltas in
      their document and its content in their file. */
  lemma TwoReplicasJoin(
    crdt: Crdt, a: Replica, b: Replica, rank: map<CommitId, nat>, key: ResourceKey, base: set<TextItem>, head: CommitId,
    textA: Bytes, textB: Bytes, commitA: Commit, commitB: Commit, tokens: (Token, Token, Token), bytes: Bytes)
    requires crdt.Lawful() && a.commits == b.commits && Heads(a.commits, key) == {head}
      && a.commits[head].change.TextDelta?
    requires TextDoc(a.commits, key) == base
    requires Editing(crdt, a, key, base, textA) && Editing(crdt, b, key, base, textB)
    requires textA != crdt.content(base) && textB != crdt.content(base) && textA != textB
    requires IsFreshCommit(a.commits, key, commitA) && commitA.change == UploadChange(crdt, a, key, Text, textA, [])
    requires var a1 := AfterCommit(crdt, a, Observed(a.SlotOf(key)), commitA, tokens.0);
             var b1 := Refreshed(b, a1.commits);
             && IsFreshCommit(b1.commits, key, commitB)
                && commitB.change == UploadChange(crdt, b1, key, Text, textB, [])
             && var b2 := AfterCommit(crdt, b1, Observed(b1.SlotOf(key)), commitB, tokens.1);
                Ranked(b2.commits, rank) && SameResource(b2.commits)
                  && IsContentOf(crdt, b2.commits, key, commitB.id, bytes)
    ensures var join := base + crdt.edit(base, textA) + crdt.edit(base, textB);
            var a1 := AfterCommit(crdt, a, Observed(a.SlotOf(key)), commitA, tokens.0);
            var b1 := Refreshed(b, a1.commits);
            var b2 := AfterCommit(crdt, b1, Observed(b1.SlotOf(key)), commitB, tokens.1);
            var a2 := Refreshed(a1, b2.commits);
            var a3 := ApplyOperation(a2, Text, PlanOf(crdt, a2, Text, key), Observed(a2.SlotOf(key)), bytes, Absent,
              tokens.2);
            && PlanOf(crdt, a, Text, key).Upload? && PlanOf(crdt, b1, Text, key).Upload?
            && key in b2.texts && b2.texts[key] == join && b2.SlotOf(key).File?
               && b2.SlotOf(key).data == crdt.content(join)
            && key in a3.texts && a3.texts[key] == join && a3.SlotOf(key).File?
               && a3.SlotOf(key).data == crdt.content(join)
  {
    var deltaA, deltaB := crdt.edit(base, textA), crdt.edit(base, textB);
    StateOfOnlyHead(crdt, a.commits, key, head);
    FirstEditUploads(crdt, a, key, base, head, textA);
    UploadJoins(crdt, a, key, base, textA, commitA, tokens.0);
    var a1 := AfterCommit(crdt, a, Observed(a.SlotOf(key)), commitA, tokens.0);
    var b1 := Refreshed(b, a1.commits);
    UploadJoins(crdt, b1, key, base, textB, commitB, tokens.1);
    var b2 := AfterCommit(crdt, b1, Observed(b1.SlotOf(key)), commitB, tokens.1);
    assert TextDoc(b2.commits, key) == base + deltaA + deltaB;
    SecondEditMerges(crdt, b1, key, base, textA, textB, {commitA.id});
    FirstReplicaCatchesUp(crdt, a1, b2.commits, rank, key, textA, commitA.id, commitB, tokens.0, tokens.2, bytes);
  }

  lemma FirstEditUploads(crdt: Crdt, r: Replica, key: ResourceKey, base: set<TextItem>, head: CommitId, text: Bytes)
    requires Editing(crdt, r, key, base, text) && text != crdt.content(base)
    requires RemoteState(crdt, r.commits, key) ==
      RemotePresent(Digest(crdt.content(base)), |crdt.content(base)|, {head})
    ensures PlanOf(crdt, r, Text, key).Upload?
  {
  }

  /** Both sides moved away from the base: for text the conflict becomes an upload. */
  lemma SecondEditMerges(
    crdt: Crdt, r: Replica, key: ResourceKey, base: set<TextItem>, theirs: Bytes, mine: Bytes, heads: set<CommitId>)
    requires Editing(crdt, r, key, base, mine) && mine != theirs && mine != crdt.content(base)
      && theirs != crdt.content(base)
    requires RemoteState(crdt, r.commits, key) == RemotePresent(Digest(theirs), |theirs|, heads)
    ensures PlanOf(crdt, r, Text, key).Upload?
  {
  }

  /** The replica that published first sees only a remote change, and takes it over. */
  lemma FirstReplicaCatchesUp(
    crdt: Crdt, r: Replica, commits: CommitMap, rank: map<CommitId, nat>, key: ResourceKey,
    text: Bytes, acknowledged: CommitId, c: Commit, before: Token, token: Token, bytes: Bytes)
    requires Ranked(commits, rank) && SameResource(commits) && Heads(commits, key) == {c.id} && c.id in commits
      && commits[c.id] == c
    requires c.change.TextDelta? && IsContentOf(crdt, commits, key, c.id, bytes)
    requires r.SlotOf(key) == File(text, before)
    requires r.BaselineOf(key) == Some(BaselinePresent(Digest(text), before, {acknowledged}))
    ensures var r2 := Refreshed(r, commits);
            var r3 := ApplyOperation(r2, Text, PlanOf(crdt, r2, Text, key), Observed(r2.SlotOf(key)), bytes, Absent,
              token);
            && key in r3.texts && r3.texts[key] == TextDoc(commits, key)
            && r3.SlotOf(key).File? && r3.SlotOf(key).data == crdt.content(TextDoc(commits, key))
  {
    StateOfOnlyHead(crdt, commits, key, c.id);
    var doc :| IsTextDocAt(commits, key, c.id, doc) && bytes == crdt.content(doc);
    TextDocAtOnlyHead(commits, rank, key, c.id, doc);
    assert First({c.id}) == c.id;
  }
}
