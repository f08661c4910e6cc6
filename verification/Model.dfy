/** Entries, version identities and versions, and the two relations reconciliation
    is built on: causal sight and last-write-wins order (src/model.rs:169-261). */
module Model {
  import opened Bytes

  type PeerId = seq<Byte>
  type Path = seq<Byte>
  type ObjectHash = seq<Byte>
  type Authenticator = seq<Byte>

  datatype Option<+T> = None | Some(value: T)

  datatype Entry =
    | File(hash: ObjectHash, size: nat, executable: bool)
    | Directory
    | Symlink(target: seq<Byte>)
    | Tombstone

  datatype VersionId = VersionId(peer: PeerId, sequence: nat, authenticator: Option<Authenticator>)

  datatype BaseVersion = BaseVersion(id: VersionId, entry: Entry, authenticator: Option<Authenticator>)

  datatype Version = Version(
    peer: PeerId,
    sequence: nat,
    idAuthenticator: Option<Authenticator>,
    timestamp: int,
    seen: seq<VersionId>,
    mergeBase: Option<BaseVersion>,
    versionAuthenticator: Option<Authenticator>,
    baseAuthenticator: Option<Authenticator>,
    entry: Entry)
  {
    function Id(): VersionId { VersionId(peer, sequence, idAuthenticator) }

    function AsBase(): Option<BaseVersion>
    {
      if entry.File? then Some(BaseVersion(Id(), entry, baseAuthenticator)) else None
    }

    predicate HasSeen(other: VersionId)
    {
      Id() == other || SeenAtLeast(seen, other.peer, other.sequence)
    }
  }

  datatype Record = Record(path: Path, version: Version)

  /** Some remembered version of `peer` is at least as late as `sequence`. */
  predicate SeenAtLeast(seen: seq<VersionId>, peer: PeerId, sequence: nat)
  {
    exists k :: 0 <= k < |seen| && seen[k].peer == peer && seen[k].sequence >= sequence
  }

  datatype Ordering = Less | Equal | Greater

  function CompareBytes(a: seq<Byte>, b: seq<Byte>): Ordering
  {
    if Bytes.Less(a, b) then Less else if a == b then Equal else Greater
  }

  function CompareInts(a: int, b: int): Ordering
  {
    if a < b then Less else if a == b then Equal else Greater
  }

  function ThenWith(first: Ordering, second: Ordering): Ordering
  {
    if first == Equal then second else first
  }

  function LwwCmp(a: Version, b: Version): Ordering
  {
    ThenWith(CompareInts(a.timestamp, b.timestamp),
             ThenWith(CompareBytes(a.peer, b.peer), CompareInts(a.sequence, b.sequence)))
  }

  function Reverse(o: Ordering): Ordering
  {
    match o case Less => Greater case Equal => Equal case Greater => Less
  }

  /** Last-write-wins is antisymmetric, and ties only versions of one identity. */
  lemma LwwAntisymmetric(a: Version, b: Version)
    ensures LwwCmp(b, a) == Reverse(LwwCmp(a, b))
    ensures LwwCmp(a, b) == Equal <==> a.timestamp == b.timestamp && a.peer == b.peer && a.sequence == b.sequence
  {
    LessTotal(a.peer, b.peer);
    LessIrreflexive(a.peer);
    if Bytes.Less(a.peer, b.peer) {
      LessAsymmetric(a.peer, b.peer);
    } else if Bytes.Less(b.peer, a.peer) {
      LessAsymmetric(b.peer, a.peer);
    }
  }

  lemma LwwTransitive(a: Version, b: Version, c: Version)
    requires LwwCmp(a, b) != Greater && LwwCmp(b, c) != Greater
    ensures LwwCmp(a, c) != Greater
  {
    LwwAntisymmetric(a, b);
    LwwAntisymmetric(b, c);
    LwwAntisymmetric(a, c);
    if a.timestamp == b.timestamp == c.timestamp && a.peer != b.peer && b.peer != c.peer {
      LessTransitive(a.peer, b.peer, c.peer);
    }
  }

  // ---------------------------------------------------------------- remembering versions

  /** Keeps the latest version of each peer; `seen` lists every peer at most once. */
  function Remember(seen: seq<VersionId>, id: VersionId): seq<VersionId>
  {
    if seen == [] then [id]
    else if seen[0].peer == id.peer then
      if id.sequence > seen[0].sequence then [id] + seen[1..] else seen
    else [seen[0]] + Remember(seen[1..], id)
  }

  lemma SeenCons(head: VersionId, tail: seq<VersionId>, peer: PeerId, sequence: nat)
    ensures SeenAtLeast([head] + tail, peer, sequence)
            <==> (head.peer == peer && head.sequence >= sequence) || SeenAtLeast(tail, peer, sequence)
  {
    var all := [head] + tail;
    assert all[0] == head;
    assert forall k :: 0 <= k < |tail| ==> all[k + 1] == tail[k];
  }

  /** Remembering adds exactly the sight of one version and of its predecessors. */
  lemma {:induction false} RememberSees(seen: seq<VersionId>, id: VersionId, peer: PeerId, sequence: nat)
    ensures SeenAtLeast(Remember(seen, id), peer, sequence)
            <==> SeenAtLeast(seen, peer, sequence) || (id.peer == peer && id.sequence >= sequence)
  {
    if seen == [] {
      SeenCons(id, [], peer, sequence);
      assert [id] + [] == [id];
    } else {
      assert seen == [seen[0]] + seen[1..];
      SeenCons(seen[0], seen[1..], peer, sequence);
      if seen[0].peer == id.peer {
        SeenCons(id, seen[1..], peer, sequence);
      } else {
        RememberSees(seen[1..], id, peer, sequence);
        SeenCons(seen[0], Remember(seen[1..], id), peer, sequence);
      }
    }
  }

  /** Every remembered identity was remembered or is the new one. */
  lemma {:induction false} RememberFrom(seen: seq<VersionId>, id: VersionId)
    ensures forall s :: s in Remember(seen, id) ==> s in seen || s == id
  {
    if seen != [] && seen[0].peer != id.peer {
      RememberFrom(seen[1..], id);
    }
  }
}
