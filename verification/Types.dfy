/** The records and enums of the v2 protocol (src/v2_types.rs). */
module Types {

  datatype Option<+T> = None | Some(value: T) {
    function GetOr(default: T): T {
      if Some? then value else default
    }
  }

  newtype Byte = x: int | 0 <= x < 256

  type Bytes = seq<Byte>

  /** A blake3 content address. Hashing is modelled as an injective constructor:
      equal digests mean equal bytes. No operation of the model looks at `preimage`. */
  datatype Digest = Digest(preimage: Bytes)

  datatype ClientId = ClientId(name: string)

  datatype ScopeId = ScopeId(name: string)

  datatype ResourceKey = ResourceKey(scope: ScopeId, resource: string)

  /** An `author:counter:digest` string. Only its identity and its place in the
      total order of identifiers matter. */
  type CommitId = nat

  /** A version token handed out by a local replica. */
  type Token = nat

  datatype ResourceKind = Binary | Text

  /** State of one resource as a local replica reports it. */
  datatype ReplicaState =
    | LocalMissing
    | LocalPresent(contentId: Digest, size: nat, version: Token)
    | LocalDeleted(version: Token)
  {
    function VersionToken(): Option<Token> {
      if LocalMissing? then None else Some(version)
    }

    function ContentId(): Option<Digest> {
      if LocalPresent? then Some(contentId) else None
    }
  }

  /** Last state acknowledged by this client. */
  datatype BaselineState =
    | BaselinePresent(contentId: Digest, localVersion: Token, remoteHeads: set<CommitId>)
    | BaselineDeleted(remoteHeads: set<CommitId>)

  /** Materialized state of the current heads of a resource. */
  datatype RemoteResourceState =
    | RemoteMissing
    | RemotePresent(contentId: Digest, size: nat, heads: set<CommitId>)
    | RemoteDeleted(heads: set<CommitId>)
    | RemoteForked(heads: set<CommitId>)
  {
    function Heads(): set<CommitId> {
      if RemoteMissing? then {} else heads
    }
  }

  datatype ConflictKind =
    | InitialDivergence
    | ContentVsContent
    | DeleteVsModify
    | ModifyVsDelete
    | RemoteFork

  /** A conflict. Its identifier is the hash of exactly these four fields, so two
      records have the same identifier when and only when they are equal. */
  datatype ConflictRecord = ConflictRecord(
    resource: ResourceKey, kind: ConflictKind, local: ReplicaState, remoteHeads: set<CommitId>)

  datatype PlanOperation =
    | Noop(key: ResourceKey)
    | EstablishBaseline(key: ResourceKey, local: ReplicaState, remoteHeads: set<CommitId>)
    | EstablishDeletedBaseline(key: ResourceKey, remoteHeads: set<CommitId>)
    | Upload(key: ResourceKey, local: ReplicaState)
    | Download(key: ResourceKey, remote: RemoteResourceState)
    | PublishDelete(key: ResourceKey)
    | ApplyDelete(key: ResourceKey, local: ReplicaState, remoteHeads: set<CommitId>)
    | Conflict(record: ConflictRecord)
  {
    function Key(): ResourceKey {
      if Conflict? then record.resource else key
    }

    /** The operations that only record what both sides already agree on. */
    predicate Settled() {
      Noop? || EstablishBaseline? || EstablishDeletedBaseline?
    }

    /** The operations that publish a commit. */
    predicate Publishes() {
      Upload? || PublishDelete?
    }
  }

  /** One integrated item of a text CRDT update. */
  datatype TextItem = TextItem(clock: nat, payload: Bytes)

  datatype ResourceChange =
    | BinarySnapshot(contentId: Digest, size: nat, chunkHashes: seq<Digest>)
    | TextDelta(delta: set<TextItem>)
    | Delete

  datatype Commit = Commit(
    id: CommitId,
    resource: ResourceKey,
    parents: set<CommitId>,
    author: ClientId,
    counter: nat,
    timestamp: int,
    change: ResourceChange)

  type CommitMap = map<CommitId, Commit>

  function Max(a: nat, b: nat): (r: nat) {
    if a < b then b else a
  }

  /** A request without scopes asks for all of them. */
  predicate InScope(scopes: set<ScopeId>, scope: ScopeId) {
    scopes == {} || scope in scopes
  }
}
