/** How versions are made: by a scan that finds a changed or missing entry
    (src/scan.rs:283-347) and by a materialized merge (src/sync.rs:2775-2797). */
module Versions {
  import opened Utils
  import opened Bytes
  import opened Model
  import opened Reconcile

  /** Signing a record fills in its three authenticators and nothing else. */
  type Signer = Record -> Record

  ghost predicate Signs(sign: Signer)
  {
    forall r: Record ::
      var s := sign(r);
      && s.version.idAuthenticator.Some? && s.version.versionAuthenticator.Some? && s.version.baseAuthenticator.Some?
      && s == r.(version := r.version.(idAuthenticator := s.version.idAuthenticator,
                                       versionAuthenticator := s.version.versionAuthenticator,
                                       baseAuthenticator := s.version.baseAuthenticator))
  }

  /** The contract can be met. */
  lemma SomeSigner(mark: Authenticator) returns (sign: Signer)
    ensures Signs(sign)
  {
    sign := (r: Record) => r.(version := r.version.(idAuthenticator := Some(mark), versionAuthenticator := Some(mark),
                                                    baseAuthenticator := Some(mark)));
  }

  /** The counter of a share: every number it gives is larger than all before. */
  class SequenceSource {
    var last: nat

    constructor (start: nat)
      ensures last == start
    {
      last := start;
    }

    method Next() returns (sequence: nat)
      modifies this
      ensures sequence == last > old(last)
    {
      last := last + 1;
      sequence := last;
    }
  }

  // ---------------------------------------------------------------- scanning

  /** The base a changed file keeps: the replaced version when both peers acknowledged
      it, otherwise the base of an own authenticated version. */
  function ScanBase(peer: PeerId, head: Option<BaseVersion>, known: Version): Option<BaseVersion>
  {
    if head == known.AsBase() then known.AsBase()
    else if known.peer == peer && known.idAuthenticator.Some? && known.versionAuthenticator.Some? then known.mergeBase
    else None
  }

  predicate ScanChanges(known: Option<Version>, found: Entry)
  {
    if known.None? then !found.Tombstone? else known.value.entry != found
  }

  /** The version a scan records for an entry that differs from the recorded one;
      a path that is gone is found as a tombstone. */
  function ScannedVersion(peer: PeerId, known: Option<Version>, head: Option<BaseVersion>, found: Entry,
                          timestamp: int, sequence: nat): Version
  {
    var seen := if known.Some? then Remember(known.value.seen, known.value.Id()) else [];
    var base := if known.Some? && !found.Tombstone? then ScanBase(peer, head, known.value) else None;
    Version(peer, sequence, None, timestamp, seen, base, None, None, found)
  }

  // ---------------------------------------------------------------- merging

  function InsertByPeer(seen: seq<VersionId>, id: VersionId): seq<VersionId>
  {
    if seen == [] || !Bytes.Less(seen[0].peer, id.peer) then [id] + seen
    else [seen[0]] + InsertByPeer(seen[1..], id)
  }

  /** A stable sort by peer. */
  function SortByPeer(seen: seq<VersionId>): seq<VersionId>
  {
    if seen == [] then [] else InsertByPeer(SortByPeer(seen[1..]), seen[0])
  }

  function RememberAll(seen: seq<VersionId>, ids: seq<VersionId>): seq<VersionId>
    decreases |ids|
  {
    if ids == [] then seen else RememberAll(Remember(seen, ids[0]), ids[1..])
  }

  /** `remember_version`: everything a version saw, and the version. */
  function RememberVersion(seen: seq<VersionId>, v: Version): seq<VersionId>
  {
    SortByPeer(RememberAll(seen, v.seen + [v.Id()]))
  }

  method RememberInto(seen: seq<VersionId>, v: Version) returns (r: seq<VersionId>)
    ensures r == RememberVersion(seen, v)
  {
    r := seen;
    var items := v.seen + [v.Id()];
    assert items[0..] == items;
    for k := 0 to |items|
      invariant RememberAll(seen, items) == RememberAll(r, items[k..])
    {
      assert items[k..][0] == items[k] && items[k..][1..] == items[k + 1..];
      r := Remember(r, items[k]);
    }
    assert items[|items|..] == [];
    r := SortByPeer(r);
  }

  lemma {:induction false} InsertByPeerMembers(seen: seq<VersionId>, id: VersionId)
    ensures forall s :: s in InsertByPeer(seen, id) <==> s in seen || s == id
  {
    if seen != [] && Bytes.Less(seen[0].peer, id.peer) {
      InsertByPeerMembers(seen[1..], id);
      assert seen == [seen[0]] + seen[1..];
    }
  }

  lemma {:induction false} SortByPeerMembers(seen: seq<VersionId>)
    ensures forall s :: s in SortByPeer(seen) <==> s in seen
  {
    if seen != [] {
      SortByPeerMembers(seen[1..]);
      InsertByPeerMembers(SortByPeer(seen[1..]), seen[0]);
      assert seen == [seen[0]] + seen[1..];
    }
  }

  lemma SeenByMembers(x: seq<VersionId>, y: seq<VersionId>, peer: PeerId, sequence: nat)
    requires forall s :: s in x ==> s in y
    ensures SeenAtLeast(x, peer, sequence) ==> SeenAtLeast(y, peer, sequence)
  {
    if SeenAtLeast(x, peer, sequence) {
      var k :| 0 <= k < |x| && x[k].peer == peer && x[k].sequence >= sequence;
      assert x[k] in y;
      var m :| 0 <= m < |y| && y[m] == x[k];
    }
  }

  lemma {:induction false} RememberAllSees(seen: seq<VersionId>, ids: seq<VersionId>, peer: PeerId, sequence: nat)
    ensures SeenAtLeast(RememberAll(seen, ids), peer, sequence)
            <==> SeenAtLeast(seen, peer, sequence) || SeenAtLeast(ids, peer, sequence)
    ensures forall s :: s in RememberAll(seen, ids) ==> s in seen || s in ids
    decreases |ids|
  {
    if ids != [] {
      RememberSees(seen, ids[0], peer, sequence);
      RememberFrom(seen, ids[0]);
      RememberAllSees(Remember(seen, ids[0]), ids[1..], peer, sequence);
      assert ids == [ids[0]] + ids[1..];
      SeenCons(ids[0], ids[1..], peer, sequence);
    }
  }

  /** A merge has seen what either input had seen, and the inputs; no more. */
  lemma RememberVersionSees(seen: seq<VersionId>, v: Version, peer: PeerId, sequence: nat)
    ensures SeenAtLeast(RememberVersion(seen, v), peer, sequence)
            <==> SeenAtLeast(seen, peer, sequence) || SeenAtLeast(v.seen, peer, sequence)
                 || (v.peer == peer && v.sequence >= sequence)
    ensures forall s :: s in RememberVersion(seen, v) ==> s in seen || s in v.seen || s == v.Id()
  {
    var ids := v.seen + [v.Id()];
    var all := RememberAll(seen, ids);
    RememberAllSees(seen, ids, peer, sequence);
    SortByPeerMembers(all);
    SeenByMembers(all, SortByPeer(all), peer, sequence);
    SeenByMembers(SortByPeer(all), all, peer, sequence);
    SeenAppend(v.seen, v.Id(), peer, sequence);
  }

  lemma SeenAppend(seen: seq<VersionId>, id: VersionId, peer: PeerId, sequence: nat)
    ensures SeenAtLeast(seen + [id], peer, sequence)
            <==> SeenAtLeast(seen, peer, sequence) || (id.peer == peer && id.sequence >= sequence)
  {
    var all := seen + [id];
    assert all[|seen|] == id;
    assert forall k :: 0 <= k < |seen| ==> all[k] == seen[k];
  }

  /** The record of a merge before it is signed. */
  function MergedRecord(c: MergeCandidate, peer: PeerId, sequence: nat, entry: Entry): Record
  {
    var w, l := c.winner.version, c.loser.version;
    Record(c.winner.path,
           Version(peer, sequence, None, Max(w.timestamp, l.timestamp),
                   RememberVersion(RememberVersion([], w), l), Some(c.base), None, None, entry))
  }

  lemma MergedSees(c: MergeCandidate, id: PeerId, next: nat, entry: Entry, peer: PeerId, sequence: nat)
    ensures var seen := MergedRecord(c, id, next, entry).version.seen;
            var w, l := c.winner.version, c.loser.version;
            && (SeenAtLeast(seen, peer, sequence)
                <==> SeenAtLeast(w.seen, peer, sequence) || (w.peer == peer && w.sequence >= sequence)
                     || SeenAtLeast(l.seen, peer, sequence) || (l.peer == peer && l.sequence >= sequence))
            && (forall s :: s in seen ==> s in w.seen || s == w.Id() || s in l.seen || s == l.Id())
  {
    var w, l := c.winner.version, c.loser.version;
    RememberVersionSees([], w, peer, sequence);
    RememberVersionSees(RememberVersion([], w), l, peer, sequence);
  }

  // ---------------------------------------------------------------- the order of what is seen

  predicate OnePerPeer(seen: seq<VersionId>)
  {
    forall i, j :: 0 <= i < j < |seen| ==> seen[i].peer != seen[j].peer
  }

  /** Strictly in the order of the peers. */
  predicate InPeerOrder(seen: seq<VersionId>)
  {
    forall i, j :: 0 <= i < j < |seen| ==> Bytes.Less(seen[i].peer, seen[j].peer)
  }

  /** Remembering never lists a peer twice. */
  lemma {:induction false} RememberOnePerPeer(seen: seq<VersionId>, id: VersionId)
    requires OnePerPeer(seen)
    ensures OnePerPeer(Remember(seen, id))
  {
    if seen != [] && seen[0].peer != id.peer {
      var rest := Remember(seen[1..], id);
      RememberOnePerPeer(seen[1..], id);
      RememberFrom(seen[1..], id);
      forall j | 0 <= j < |rest|
        ensures rest[j].peer != seen[0].peer
      {
        assert rest[j] in rest;
      }
    }
  }

  /** What is remembered already, or surpassed, changes nothing; a later version takes the
      place of the one before it, and a new peer comes last. */
  lemma {:induction false} RememberKeeps(seen: seq<VersionId>, id: VersionId, k: nat)
    requires OnePerPeer(seen) && k <= |seen| && forall i :: 0 <= i < k ==> seen[i].peer != id.peer
    requires k < |seen| ==> seen[k].peer == id.peer
    ensures Remember(seen, id)
            == if k == |seen| then seen + [id] else if seen[k].sequence >= id.sequence then seen else seen[k := id]
  {
    if k > 0 {
      RememberKeeps(seen[1..], id, k - 1);
      assert seen == [seen[0]] + seen[1..];
    }
  }

  lemma {:induction false} RememberAllOnePerPeer(seen: seq<VersionId>, ids: seq<VersionId>)
    requires OnePerPeer(seen)
    ensures OnePerPeer(RememberAll(seen, ids))
    decreases |ids|
  {
    if ids != [] {
      RememberOnePerPeer(seen, ids[0]);
      RememberAllOnePerPeer(Remember(seen, ids[0]), ids[1..]);
    }
  }

  lemma {:induction false} InsertByPeerKeeps(seen: seq<VersionId>, id: VersionId)
    requires InPeerOrder(seen) && forall s :: s in seen ==> s.peer != id.peer
    ensures InPeerOrder(InsertByPeer(seen, id))
  {
    if seen != [] {
      assert seen[0] in seen;
      LessTotal(seen[0].peer, id.peer);
      if Bytes.Less(seen[0].peer, id.peer) {
        var rest := InsertByPeer(seen[1..], id);
        InsertByPeerKeeps(seen[1..], id);
        InsertByPeerMembers(seen[1..], id);
        FirstOfPeers(seen[0], rest);
      } else {
        forall k | 0 <= k < |seen|
          ensures Bytes.Less(id.peer, seen[k].peer)
        {
          if k > 0 {
            LessTransitive(id.peer, seen[0].peer, seen[k].peer);
          }
        }
        assert forall s :: s in seen ==> Bytes.Less(id.peer, s.peer);
        FirstOfPeers(id, seen);
      }
    }
  }

  lemma FirstOfPeers(first: VersionId, rest: seq<VersionId>)
    requires InPeerOrder(rest) && forall s :: s in rest ==> Bytes.Less(first.peer, s.peer)
    ensures InPeerOrder([first] + rest)
  {
    var all := [first] + rest;
    forall i, j | 0 <= i < j < |all|
      ensures Bytes.Less(all[i].peer, all[j].peer)
    {
      assert all[j] == rest[j - 1] && rest[j - 1] in rest;
      assert i > 0 ==> all[i] == rest[i - 1];
    }
  }

  lemma {:induction false} SortByPeerSorts(seen: seq<VersionId>)
    requires OnePerPeer(seen)
    ensures InPeerOrder(SortByPeer(seen))
  {
    if seen != [] {
      SortByPeerSorts(seen[1..]);
      SortByPeerMembers(seen[1..]);
      forall s | s in SortByPeer(seen[1..])
        ensures s.peer != seen[0].peer
      {
        var k :| 0 <= k < |seen[1..]| && seen[1..][k] == s;
        assert seen[k + 1] == s;
      }
      InsertByPeerKeeps(SortByPeer(seen[1..]), seen[0]);
    }
  }

  lemma RememberVersionSorts(seen: seq<VersionId>, v: Version)
    requires OnePerPeer(seen)
    ensures InPeerOrder(RememberVersion(seen, v)) && OnePerPeer(RememberVersion(seen, v))
  {
    RememberAllOnePerPeer(seen, v.seen + [v.Id()]);
    SortByPeerSorts(RememberAll(seen, v.seen + [v.Id()]));
    var all := RememberVersion(seen, v);
    forall i, j | 0 <= i < j < |all|
      ensures all[i].peer != all[j].peer
    {
      LessIrreflexive(all[i].peer);
    }
  }

  /** What a merge has seen is listed in the order of the peers, each of them once. */
  lemma MergedInPeerOrder(c: MergeCandidate, peer: PeerId, sequence: nat, entry: Entry)
    ensures InPeerOrder(MergedRecord(c, peer, sequence, entry).version.seen)
  {
    RememberVersionSorts([], c.winner.version);
    RememberVersionSorts(RememberVersion([], c.winner.version), c.loser.version);
  }
}
