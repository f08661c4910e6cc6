/** The scanning loop: the records of one scan, and the fact that a scan is a run of
    single-path steps of the history (src/scan.rs:223-347, 376, src/sync.rs:1569-1581,
    src/state.rs:6425-6472). */
module Scan {
  import opened Bytes
  import opened Model
  import opened Reconcile
  import opened Versions
  import opened History
  import opened PlanLaws

  /** What stands at a path: an entry that can be recorded, or a pipe, socket or device. */
  datatype Kind = Plain(entry: Entry) | Special

  /** Something the walk of the share found, with its modification time. */
  datatype Found = Found(path: Path, kind: Kind, timestamp: int)

  predicate ValidListing(listing: seq<Found>)
  {
    && (forall k :: 0 <= k < |listing| && listing[k].kind.Plain? ==> !listing[k].kind.entry.Tombstone?)
    && (forall i, j :: 0 <= i < j < |listing| ==> listing[i].path != listing[j].path)
  }

  function FoundPaths(listing: seq<Found>): set<Path>
  {
    set k | 0 <= k < |listing| :: listing[k].path
  }

  /** `cur` is the world after the scan steps made so far; all else waits. */
  ghost predicate Reached(w: World, atA: bool, acts: seq<Action>, sign: Signer, cur: World)
  {
    && Runs(w, acts, sign) && After(w, acts, sign) == cur
    && At(cur, !atA) == At(w, !atA) && cur.exchange == w.exchange
  }

  /** The replica in the middle of a scan: `records` lists what has been decided, and the
      other paths are as before. */
  ghost predicate Scanning(before: Replica, now: Replica, records: seq<Record>, last: nat)
  {
    && now.id == before.id && now.heads == before.heads && now.counter == last >= before.counter
    && UniquePaths(records)
    && (forall k :: 0 <= k < |records| ==>
          records[k].path in now.records && now.records[records[k].path] == records[k].version)
    && (forall p :: p !in PathsOf(records) ==> Get(now.records, p) == Get(before.records, p))
  }

  /** A version knows exactly the version it replaces and what that one knew. */
  ghost predicate KnowsReplaced(v: Version, was: Version)
  {
    forall id: VersionId :: Knows(v, id) <==> Knows(was, id) || (was.peer == id.peer && was.sequence >= id.sequence)
  }

  /** The base of an edit: the file it replaces, when both peers have acknowledged that;
      else what the replaced version of this peer had; and a deletion has none. */
  predicate BaseFollows(before: Replica, path: Path, was: Version, v: Version)
  {
    var acknowledged := if path in before.heads then Some(before.heads[path]) else None;
    if v.entry.Tombstone? then v.mergeBase == None
    else if was.entry.File? && acknowledged == Some(BaseVersion(was.Id(), was.entry, was.baseAuthenticator)) then
      v.mergeBase == acknowledged
    else if !was.entry.File? && acknowledged == None then v.mergeBase == None
    else if was.peer == before.id && was.idAuthenticator.Some? && was.versionAuthenticator.Some? then
      v.mergeBase == was.mergeBase
    else v.mergeBase == None
  }

  /** A new version: made here and now, under a new number, signed, and after what it replaces. */
  ghost predicate Renewed(before: Replica, v: Version, path: Path, found: Entry, timestamp: int)
  {
    && v.entry == found && v.peer == before.id && v.sequence > before.counter && v.timestamp == timestamp
    && v.idAuthenticator.Some? && v.versionAuthenticator.Some? && v.baseAuthenticator.Some?
    && (if path in before.records then
          KnowsReplaced(v, before.records[path]) && BaseFollows(before, path, before.records[path], v)
        else v.seen == [] && v.mergeBase == None)
  }

  /** An entry equal to the recorded one keeps its version; any other is a new version. */
  ghost predicate Decided(before: Replica, v: Version, path: Path, found: Entry, timestamp: int)
  {
    if path in before.records && before.records[path].entry == found then v == before.records[path]
    else Renewed(before, v, path, found, timestamp)
  }

  lemma ScannedIsRenewed(before: Replica, path: Path, found: Entry, timestamp: int, sequence: nat, sign: Signer)
    requires Signs(sign) && sequence > before.counter
    ensures var v := ScannedVersion(before.id, Get(before.records, path), Get(before.heads, path), found, timestamp, sequence);
            Renewed(before, sign(Record(path, v)).version, path, found, timestamp)
  {
    var v := ScannedVersion(before.id, Get(before.records, path), Get(before.heads, path), found, timestamp, sequence);
    var signed := sign(Record(path, v)).version;
    assert signed.seen == v.seen && signed.mergeBase == v.mergeBase;
    if path in before.records {
      var was := before.records[path];
      forall id: VersionId
        ensures Knows(signed, id) <==> Knows(was, id) || (was.peer == id.peer && was.sequence >= id.sequence)
      {
        RememberSees(was.seen, was.Id(), id.peer, id.sequence);
        KnowsIsListed(was.seen, id);
        KnowsIsListed(v.seen, id);
      }
    }
  }

  lemma KnowsIsListed(seen: seq<VersionId>, id: VersionId)
    ensures SeenAtLeast(seen, id.peer, id.sequence) <==> exists s :: s in seen && s.peer == id.peer && s.sequence >= id.sequence
  {
    if k :| 0 <= k < |seen| && seen[k].peer == id.peer && seen[k].sequence >= id.sequence {
      assert seen[k] in seen;
    }
  }

  lemma PathsOfSnoc(records: seq<Record>, r: Record)
    ensures forall p :: p in PathsOf(records + [r]) <==> p in PathsOf(records) || p == r.path
  {
    assert PathsOf(records + [r]) == PathsOf(records) + [r.path];
  }

  /** An unchanged path: its record is carried forward. */
  lemma CarryForward(before: Replica, now: Replica, records: seq<Record>, last: nat, r: Record)
    requires Scanning(before, now, records, last)
    requires r.path !in PathsOf(records) && Get(before.records, r.path) == Some(r.version)
    ensures Scanning(before, now, records + [r], last)
  {
    PathsOfSnoc(records, r);
    FreshPathUnique(records, r);
  }

  lemma FreshPathUnique(records: seq<Record>, r: Record)
    requires UniquePaths(records) && r.path !in PathsOf(records)
    ensures UniquePaths(records + [r])
    ensures forall k :: 0 <= k < |records| ==> records[k].path != r.path
  {
    forall k | 0 <= k < |records|
      ensures records[k].path != r.path
    {
      assert PathsOf(records)[k] == records[k].path;
    }
  }

  /** A changed path: its new version is decided. */
  lemma Replace(before: Replica, now: Replica, records: seq<Record>, last: nat, r: Record)
    requires Scanning(before, now, records, last) && r.path !in PathsOf(records) && r.version.sequence >= last
    ensures var next := now.(counter := r.version.sequence, records := now.records[r.path := r.version]);
            Scanning(before, next, records + [r], r.version.sequence)
  {
    PathsOfSnoc(records, r);
    FreshPathUnique(records, r);
  }

  /** One scan step of the history. */
  lemma ScanStep(w: World, atA: bool, path: Path, found: Entry, timestamp: int, sequence: nat, sign: Signer)
    requires Signs(sign) && !Busy(w, atA) && Fresh(w, atA, sequence) && ScanChanges(Get(At(w, atA).records, path), found)
    ensures var r := At(w, atA);
            var v := ScannedVersion(r.id, Get(r.records, path), Get(r.heads, path), found, timestamp, sequence);
            var w' := Apply(w, Action.Scan(atA, path, found, timestamp, sequence), sign);
            && At(w', atA) == r.(counter := sequence, records := r.records[path := sign(Record(path, v)).version])
            && At(w', !atA) == At(w, !atA) && w'.exchange == w.exchange
  {
  }

  /** Decides one path: an entry equal to the recorded one keeps its version, any other
      gets a new version with the next sequence number. */
  method ScanPath(source: SequenceSource, ghost w: World, ghost atA: bool, ghost acts: seq<Action>, ghost cur: World,
                  ghost records: seq<Record>, peer: PeerId, known: Option<Version>, head: Option<BaseVersion>,
                  path: Path, found: Entry, timestamp: int, sign: Signer)
    returns (r: Record, ghost acts': seq<Action>, ghost next: World)
    requires Signs(sign) && !Busy(w, atA) && Reached(w, atA, acts, sign, cur)
    requires Scanning(At(w, atA), At(cur, atA), records, source.last) && path !in PathsOf(records)
    requires At(w, atA).id == peer && Get(At(w, atA).records, path) == known && Get(At(w, atA).heads, path) == head
    requires known.None? ==> !found.Tombstone?
    modifies source
    ensures Reached(w, atA, acts', sign, next)
    ensures Scanning(At(w, atA), At(next, atA), records + [r], source.last)
    ensures r.path == path && Decided(At(w, atA), r.version, path, found, timestamp)
  {
    if known.Some? && known.value.entry == found {
      r := Record(path, known.value);
      acts', next := acts, cur;
      CarryForward(At(w, atA), At(cur, atA), records, source.last, r);
    } else {
      ghost var last := source.last;
      assert Get(At(cur, atA).records, path) == known;
      var sequence := source.Next();
      r := sign(Record(path, ScannedVersion(peer, known, head, found, timestamp, sequence)));
      ghost var act := Action.Scan(atA, path, found, timestamp, sequence);
      acts', next := acts + [act], Apply(cur, act, sign);
      ScanStep(cur, atA, path, found, timestamp, sequence, sign);
      ScannedIsRenewed(At(w, atA), path, found, timestamp, sequence, sign);
      RunSnoc(w, acts, act, sign);
      Replace(At(w, atA), At(cur, atA), records, last, r);
    }
  }

  /** Walks what was found; a special file is passed over. */
  method ScanEntries(source: SequenceSource, ghost w: World, ghost atA: bool, peer: PeerId,
                     previous: map<Path, Version>, heads: map<Path, BaseVersion>, listing: seq<Found>, sign: Signer)
    returns (records: seq<Record>, ghost acts: seq<Action>, ghost cur: World)
    requires Signs(sign) && !Busy(w, atA) && ValidListing(listing)
    requires At(w, atA).id == peer && At(w, atA).records == previous && At(w, atA).heads == heads
    requires source.last == At(w, atA).counter
    modifies source
    ensures Reached(w, atA, acts, sign, cur)
    ensures Scanning(At(w, atA), At(cur, atA), records, source.last)
    ensures Walked(At(w, atA), listing, records)
  {
    records, acts, cur := [], [], w;
    for k := 0 to |listing|
      invariant Reached(w, atA, acts, sign, cur)
      invariant Scanning(At(w, atA), At(cur, atA), records, source.last)
      invariant Walked(At(w, atA), listing[..k], records)
    {
      var found := listing[k];
      if found.kind.Plain? {
        NotYet(At(w, atA), listing, records, k);
        var r;
        r, acts, cur := ScanPath(source, w, atA, acts, cur, records, peer, Get(previous, found.path),
                                 Get(heads, found.path), found.path, found.kind.entry, found.timestamp, sign);
        ExtendWalk(At(w, atA), listing, records, k, r);
        records := records + [r];
      } else {
        PassWalk(At(w, atA), listing, records, k);
      }
    }
    assert listing[..|listing|] == listing;
  }

  /** The entries of a listing that can be recorded. */
  function PlainOf(listing: seq<Found>): seq<Found>
  {
    if listing == [] then []
    else
      var last := listing[|listing| - 1];
      PlainOf(listing[..|listing| - 1]) + (if last.kind.Plain? then [last] else [])
  }

  lemma {:induction false} PlainMembers(listing: seq<Found>)
    ensures forall f :: f in PlainOf(listing) <==> f in listing && f.kind.Plain?
  {
    if listing != [] {
      PlainMembers(listing[..|listing| - 1]);
      assert listing == listing[..|listing| - 1] + [listing[|listing| - 1]];
    }
  }

  ghost predicate RecordsEntry(before: Replica, found: Found, r: Record)
  {
    found.path == r.path && found.kind.Plain? && Decided(before, r.version, r.path, found.kind.entry, found.timestamp)
  }

  /** The records of a listing, in its order. */
  ghost predicate Walked(before: Replica, listing: seq<Found>, records: seq<Record>)
  {
    var plain := PlainOf(listing);
    |records| == |plain| && forall i :: 0 <= i < |records| ==> RecordsEntry(before, plain[i], records[i])
  }

  lemma ExtendWalk(before: Replica, listing: seq<Found>, records: seq<Record>, k: nat, r: Record)
    requires k < |listing| && Walked(before, listing[..k], records) && RecordsEntry(before, listing[k], r)
    ensures Walked(before, listing[..k + 1], records + [r])
  {
    assert listing[..k + 1][..k] == listing[..k];
  }

  lemma PassWalk(before: Replica, listing: seq<Found>, records: seq<Record>, k: nat)
    requires k < |listing| && Walked(before, listing[..k], records) && listing[k].kind.Special?
    ensures Walked(before, listing[..k + 1], records)
  {
    assert listing[..k + 1][..k] == listing[..k];
  }

  /** Scans a share: what was found first, then every recorded path that was not found.
      `present` are the paths that exist on disk all the same, because the walk passes
      over them. Storing the result drops the records of special files, so the whole
      scan is a run of scan and drop steps, and the records mirror the disk. */
  method ScanShare(source: SequenceSource, ghost w: World, ghost atA: bool, peer: PeerId,
                   previous: map<Path, Version>, heads: map<Path, BaseVersion>,
                   listing: seq<Found>, known: seq<Path>, present: set<Path>, clock: int, sign: Signer)
    returns (records: seq<Record>, ghost acts: seq<Action>, ghost cur: World)
    requires Signs(sign) && !Busy(w, atA) && ValidListing(listing)
    requires At(w, atA).id == peer && At(w, atA).records == previous && At(w, atA).heads == heads
    requires source.last == At(w, atA).counter
    requires StrictlySorted(known) && forall p :: p in known <==> p in previous
    modifies source
    ensures Reached(w, atA, acts, sign, cur)
    ensures Lists(records, At(cur, atA).records) && At(cur, atA).counter == source.last
    ensures At(cur, atA).id == peer && At(cur, atA).heads == heads
    ensures Mirrors(At(w, atA), At(cur, atA).records, listing, present, clock)
  {
    records, acts, cur := ScanEntries(source, w, atA, peer, previous, heads, listing, sign);
    ghost var walked := records;
    ExtendedNone(At(w, atA), walked, known, listing, present, clock);
    for k := 0 to |known|
      invariant Reached(w, atA, acts, sign, cur)
      invariant Scanning(At(w, atA), At(cur, atA), records, source.last)
      invariant Extended(At(w, atA), walked, records, known[..k], listing, present, clock)
    {
      records, acts, cur := ScanMissing(source, w, atA, acts, cur, walked, records, peer, previous, heads, listing,
                                        known, k, present, clock, sign);
    }
    assert known[..|known|] == known;
    ghost var full := cur;
    acts, cur := DropSpecial(w, atA, acts, full, listing, sign);
    Mirrored(At(w, atA), At(full, atA), At(cur, atA), walked, records, source.last, listing, known, present, clock);
  }

  /** A recorded path that was not found keeps its tombstone, keeps its record if it
      exists on disk, and gets a tombstone otherwise. */
  method ScanMissing(source: SequenceSource, ghost w: World, ghost atA: bool, ghost acts: seq<Action>, ghost cur: World,
                     ghost walked: seq<Record>, records: seq<Record>, peer: PeerId,
                     previous: map<Path, Version>, heads: map<Path, BaseVersion>, listing: seq<Found>,
                     known: seq<Path>, k: nat, present: set<Path>, clock: int, sign: Signer)
    returns (records': seq<Record>, ghost acts': seq<Action>, ghost next: World)
    requires Signs(sign) && !Busy(w, atA) && Reached(w, atA, acts, sign, cur)
    requires Scanning(At(w, atA), At(cur, atA), records, source.last)
    requires At(w, atA).id == peer && At(w, atA).records == previous && At(w, atA).heads == heads
    requires k < |known| && StrictlySorted(known) && known[k] in previous
    requires Walked(At(w, atA), listing, walked) && Extended(At(w, atA), walked, records, known[..k], listing, present, clock)
    modifies source
    ensures Reached(w, atA, acts', sign, next)
    ensures Scanning(At(w, atA), At(next, atA), records', source.last)
    ensures Extended(At(w, atA), walked, records', known[..k + 1], listing, present, clock)
  {
    var path := known[k];
    var was := previous[path];
    if path in FoundPaths(listing) {
      records', acts', next := records, acts, cur;
      ExtendBySkip(At(w, atA), walked, records, known, k, listing, present, clock);
    } else {
      NotDecided(At(w, atA), walked, records, known, k, listing, present, clock);
      var r;
      if was.entry.Tombstone? || path in present {
        r, acts', next := Record(path, was), acts, cur;
        CarryForward(At(w, atA), At(cur, atA), records, source.last, r);
      } else {
        r, acts', next := ScanPath(source, w, atA, acts, cur, records, peer, Some(was), Get(heads, path),
                                   path, Tombstone, clock, sign);
      }
      records' := records + [r];
      ExtendByMissing(At(w, atA), walked, records, known, k, listing, present, clock, r);
    }
  }

  /** What a recorded path that was not found keeps or gets. */
  ghost predicate MissingAs(before: Replica, present: set<Path>, clock: int, path: Path, v: Version)
  {
    && path in before.records
    && (if before.records[path].entry.Tombstone? || path in present then v == before.records[path]
        else Renewed(before, v, path, Tombstone, clock))
  }

  /** The walked records are followed by those of recorded paths that were not found. */
  ghost predicate Extended(before: Replica, walked: seq<Record>, records: seq<Record>, known: seq<Path>,
                           listing: seq<Found>, present: set<Path>, clock: int)
  {
    && walked <= records
    && (forall i :: |walked| <= i < |records| ==> MissingAs(before, present, clock, records[i].path, records[i].version))
    && (forall p :: p in PathsOf(records) <==> p in PathsOf(walked) || (p in known && p !in FoundPaths(listing)))
  }

  lemma ExtendedNone(before: Replica, walked: seq<Record>, known: seq<Path>, listing: seq<Found>, present: set<Path>, clock: int)
    ensures Extended(before, walked, walked, known[..0], listing, present, clock)
  {
  }

  lemma ExtendBySkip(before: Replica, walked: seq<Record>, records: seq<Record>, known: seq<Path>, k: nat,
                     listing: seq<Found>, present: set<Path>, clock: int)
    requires k < |known| && Extended(before, walked, records, known[..k], listing, present, clock) && known[k] in FoundPaths(listing)
    ensures Extended(before, walked, records, known[..k + 1], listing, present, clock)
  {
    assert known[..k + 1] == known[..k] + [known[k]];
  }

  lemma ExtendByMissing(before: Replica, walked: seq<Record>, records: seq<Record>, known: seq<Path>, k: nat,
                        listing: seq<Found>, present: set<Path>, clock: int, r: Record)
    requires k < |known| && Extended(before, walked, records, known[..k], listing, present, clock) && known[k] !in FoundPaths(listing)
    requires r.path == known[k] && MissingAs(before, present, clock, r.path, r.version)
    ensures Extended(before, walked, records + [r], known[..k + 1], listing, present, clock)
  {
    assert known[..k + 1] == known[..k] + [known[k]];
    PathsOfSnoc(records, r);
  }

  /** Storing the scan removes the records of the special files. */
  lemma {:induction false} DropSpecial(w: World, atA: bool, acts: seq<Action>, cur: World, listing: seq<Found>, sign: Signer)
    returns (acts': seq<Action>, next: World)
    requires !Busy(w, atA) && Reached(w, atA, acts, sign, cur)
    ensures Reached(w, atA, acts', sign, next)
    ensures At(next, atA) == At(cur, atA).(records := At(cur, atA).records - SpecialPaths(listing))
    decreases |listing|
  {
    if listing == [] {
      acts', next := acts, cur;
    } else {
      var front, last := listing[..|listing| - 1], listing[|listing| - 1];
      acts', next := DropSpecial(w, atA, acts, cur, front, sign);
      assert listing == front + [last];
      if last.kind.Special? {
        assert SpecialPaths(listing) == SpecialPaths(front) + {last.path};
        RunSnoc(w, acts', Drop(atA, last.path), sign);
        acts', next := acts' + [Drop(atA, last.path)], Apply(next, Drop(atA, last.path), sign);
      } else {
        assert SpecialPaths(listing) == SpecialPaths(front);
      }
    }
  }

  function SpecialPaths(listing: seq<Found>): set<Path>
  {
    set k | 0 <= k < |listing| && listing[k].kind.Special? :: listing[k].path
  }

  /** The records after a scan: an entry is recorded as found, a special file not at all,
      and of the paths that were not found exactly the recorded ones keep a record. */
  ghost predicate Mirrors(before: Replica, now: map<Path, Version>, listing: seq<Found>, present: set<Path>, clock: int)
  {
    && (forall k :: 0 <= k < |listing| ==> MirrorsFound(before, now, listing[k]))
    && (forall p :: p !in FoundPaths(listing) ==> (p in now <==> p in before.records))
    && (forall p :: p !in FoundPaths(listing) && p in now ==> MissingAs(before, present, clock, p, now[p]))
  }

  ghost predicate MirrorsFound(before: Replica, now: map<Path, Version>, found: Found)
  {
    match found.kind
    case Plain(entry) => found.path in now && Decided(before, now[found.path], found.path, entry, found.timestamp)
    case Special => found.path !in now
  }

  lemma NotYet(before: Replica, listing: seq<Found>, records: seq<Record>, k: nat)
    requires ValidListing(listing) && k < |listing| && Walked(before, listing[..k], records)
    ensures listing[k].path !in PathsOf(records)
  {
    if listing[k].path in PathsOf(records) {
      var n := WalkedFrom(before, listing[..k], records, listing[k].path);
    }
  }

  /** A walked path was found as an entry that can be recorded. */
  lemma WalkedFrom(before: Replica, listing: seq<Found>, walked: seq<Record>, path: Path) returns (n: nat)
    requires Walked(before, listing, walked) && path in PathsOf(walked)
    ensures n < |listing| && listing[n].path == path && listing[n].kind.Plain? && path in FoundPaths(listing)
  {
    var i :| 0 <= i < |walked| && PathsOf(walked)[i] == path;
    PlainMembers(listing);
    var f := PlainOf(listing)[i];
    assert f in PlainOf(listing);
    n :| 0 <= n < |listing| && listing[n] == f;
  }

  /** Every entry that can be recorded is walked. */
  lemma WalkedTo(before: Replica, listing: seq<Found>, walked: seq<Record>, k: nat) returns (i: nat)
    requires Walked(before, listing, walked) && k < |listing| && listing[k].kind.Plain?
    ensures i < |walked| && RecordsEntry(before, listing[k], walked[i]) && listing[k].path in PathsOf(walked)
  {
    PlainMembers(listing);
    assert listing[k] in PlainOf(listing);
    i :| 0 <= i < |walked| && PlainOf(listing)[i] == listing[k];
    assert PathsOf(walked)[i] == listing[k].path;
  }

  lemma NotDecided(before: Replica, walked: seq<Record>, records: seq<Record>, known: seq<Path>, k: nat,
                   listing: seq<Found>, present: set<Path>, clock: int)
    requires StrictlySorted(known) && k < |known| && known[k] !in FoundPaths(listing)
    requires Walked(before, listing, walked) && Extended(before, walked, records, known[..k], listing, present, clock)
    ensures known[k] !in PathsOf(records)
  {
    LessIrreflexive(known[k]);
    if known[k] in PathsOf(walked) {
      var n := WalkedFrom(before, listing, walked, known[k]);
    }
  }

  lemma Mirrored(before: Replica, full: Replica, after: Replica, walked: seq<Record>, records: seq<Record>, last: nat,
                 listing: seq<Found>, known: seq<Path>, present: set<Path>, clock: int)
    requires Scanning(before, full, records, last) && ValidListing(listing)
    requires Walked(before, listing, walked) && Extended(before, walked, records, known, listing, present, clock)
    requires after == full.(records := full.records - SpecialPaths(listing))
    requires forall p :: p in known <==> p in before.records
    ensures Lists(records, after.records) && Mirrors(before, after.records, listing, present, clock)
  {
    forall p
      ensures p in after.records <==> p in PathsOf(records)
    {
      HeldAfter(before, full, walked, records, last, listing, known, present, clock, p);
    }
    ListsAll(records, after.records, full.records);
    forall k | 0 <= k < |listing|
      ensures MirrorsFound(before, after.records, listing[k])
    {
      FoundMirrored(before, full, after.records, walked, records, last, listing, k);
    }
    forall p | p !in FoundPaths(listing)
      ensures p in after.records <==> p in before.records
      ensures p in after.records ==> MissingAs(before, present, clock, p, after.records[p])
    {
      MissingMirrored(before, full, walked, records, last, listing, known, present, clock, p);
    }
  }

  lemma FoundMirrored(before: Replica, full: Replica, now: map<Path, Version>, walked: seq<Record>, records: seq<Record>,
                      last: nat, listing: seq<Found>, k: nat)
    requires Scanning(before, full, records, last) && Walked(before, listing, walked) && walked <= records
    requires ValidListing(listing) && k < |listing| && now == full.records - SpecialPaths(listing)
    ensures MirrorsFound(before, now, listing[k])
  {
    if listing[k].kind.Plain? {
      var i := WalkedTo(before, listing, walked, k);
      assert records[i] == walked[i];
      PlainIsNotSpecial(listing, k);
    }
  }

  lemma PlainIsNotSpecial(listing: seq<Found>, k: nat)
    requires ValidListing(listing) && k < |listing| && listing[k].kind.Plain?
    ensures listing[k].path !in SpecialPaths(listing)
  {
  }

  /** The stored records are those listed. */
  lemma HeldAfter(before: Replica, full: Replica, walked: seq<Record>, records: seq<Record>, last: nat,
                  listing: seq<Found>, known: seq<Path>, present: set<Path>, clock: int, p: Path)
    requires Scanning(before, full, records, last) && ValidListing(listing)
    requires Walked(before, listing, walked) && Extended(before, walked, records, known, listing, present, clock)
    requires forall q :: q in known <==> q in before.records
    ensures p in full.records - SpecialPaths(listing) <==> p in PathsOf(records)
  {
    if p in PathsOf(records) {
      var k := ListedAt(records, p);
      if p in PathsOf(walked) {
        var n := WalkedFrom(before, listing, walked, p);
        PlainIsNotSpecial(listing, n);
      }
    } else if p in FoundPaths(listing) {
      var k :| 0 <= k < |listing| && listing[k].path == p;
      if listing[k].kind.Plain? {
        var i := WalkedTo(before, listing, walked, k);
      }
    }
  }

  lemma ListedAt(records: seq<Record>, p: Path) returns (k: nat)
    requires p in PathsOf(records)
    ensures k < |records| && records[k].path == p
  {
    k :| 0 <= k < |records| && PathsOf(records)[k] == p;
  }

  lemma MissingMirrored(before: Replica, full: Replica, walked: seq<Record>, records: seq<Record>, last: nat,
                        listing: seq<Found>, known: seq<Path>, present: set<Path>, clock: int, p: Path)
    requires Scanning(before, full, records, last) && p !in FoundPaths(listing)
    requires Walked(before, listing, walked) && Extended(before, walked, records, known, listing, present, clock)
    requires forall q :: q in known <==> q in before.records
    ensures p in full.records - SpecialPaths(listing) <==> p in before.records
    ensures p in full.records ==> MissingAs(before, present, clock, p, full.records[p])
  {
    if p in PathsOf(walked) {
      var n := WalkedFrom(before, listing, walked, p);
    } else if p in PathsOf(records) {
      var k := ListedLater(walked, records, p);
    }
  }

  lemma ListedLater(walked: seq<Record>, records: seq<Record>, p: Path) returns (k: nat)
    requires walked <= records && p in PathsOf(records) && p !in PathsOf(walked)
    ensures |walked| <= k < |records| && records[k].path == p
  {
    forall i | 0 <= i < |walked|
      ensures records[i].path in PathsOf(walked)
    {
      assert PathsOf(walked)[i] == records[i].path;
    }
    k := ListedAt(records, p);
  }

  lemma ListsAll(records: seq<Record>, now: map<Path, Version>, full: map<Path, Version>)
    requires UniquePaths(records) && forall p :: p in now <==> p in PathsOf(records)
    requires forall p :: p in now ==> p in full && now[p] == full[p]
    requires forall k :: 0 <= k < |records| ==> records[k].path in full && full[records[k].path] == records[k].version
    ensures Lists(records, now)
  {
    forall r
      ensures r in records <==> r.path in now && now[r.path] == r.version
    {
      if r in records {
        var k :| 0 <= k < |records| && records[k] == r;
        assert PathsOf(records)[k] == r.path;
      }
      if r.path in now && now[r.path] == r.version {
        var k := ListedAt(records, r.path);
        SameRecord(records[k], r, full);
        assert records[k] in records;
      }
    }
  }

  lemma SameRecord(x: Record, y: Record, full: map<Path, Version>)
    requires x.path == y.path && x.path in full && full[x.path] == x.version && full[y.path] == y.version
    ensures x == y
  {
  }
}
