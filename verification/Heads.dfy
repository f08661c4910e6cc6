/** Acknowledged heads: the regular files on which two installations agree after a
    round. The connector intersects its records with the responder's heads and the
    responder checks the intersection against its own records
    (src/sync.rs:1426-1466, src/main.rs:8191-8196, src/main.rs:6279-6282). */
module Heads {
  import opened Bytes
  import opened Model
  import opened Reconcile

  function FilesOf(records: seq<Record>): seq<Record>
  {
    if records == [] then []
    else (if records[0].version.entry.File? then [records[0]] else []) + FilesOf(records[1..])
  }

  /** A stable sort: a record goes in front of the later ones with its path. */
  function InsertRecord(r: Record, sorted: seq<Record>): seq<Record>
  {
    if sorted == [] || !Bytes.Less(sorted[0].path, r.path) then [r] + sorted
    else [sorted[0]] + InsertRecord(r, sorted[1..])
  }

  function SortRecords(records: seq<Record>): seq<Record>
  {
    if records == [] then [] else InsertRecord(records[0], SortRecords(records[1..]))
  }

  function RegularFileHeads(records: seq<Record>): seq<Record>
  {
    SortRecords(FilesOf(records))
  }

  predicate Holds(records: map<Path, Record>, r: Record)
  {
    r.path in records && records[r.path] == r
  }

  function Kept(heads: seq<Record>, remote: map<Path, Record>): seq<Record>
  {
    if heads == [] then []
    else (if Holds(remote, heads[0]) then [heads[0]] else []) + Kept(heads[1..], remote)
  }

  function IntersectHeads(local: seq<Record>, remote: seq<Record>): Option<seq<Record>>
  {
    if !UniquePaths(local) || !UniquePaths(remote) then None
    else Some(Kept(RegularFileHeads(local), ByPath(remote)))
  }

  predicate ValidateAckHeads(current: seq<Record>, proposed: seq<Record>)
  {
    && RegularFileHeads(proposed) == proposed
    && (forall i :: 0 <= i < |proposed| - 1 ==> proposed[i].path != proposed[i + 1].path)
    && (forall r :: r in proposed ==> Holds(ByPath(current), r))
  }

  // ---------------------------------------------------------------- what sorting gives

  predicate WeaklySorted(records: seq<Record>)
  {
    forall i, j :: 0 <= i < j < |records| ==> !Bytes.Less(records[j].path, records[i].path)
  }

  predicate StrictlySortedRecords(records: seq<Record>)
  {
    forall i, j :: 0 <= i < j < |records| ==> Bytes.Less(records[i].path, records[j].path)
  }

  lemma {:induction false} FilesOfMembers(records: seq<Record>)
    ensures forall r :: r in FilesOf(records) <==> r in records && r.version.entry.File?
    ensures (forall r :: r in records ==> r.version.entry.File?) ==> FilesOf(records) == records
  {
    if records != [] {
      FilesOfMembers(records[1..]);
      assert records == [records[0]] + records[1..];
    }
  }

  lemma {:induction false} InsertRecordMembers(r: Record, sorted: seq<Record>)
    ensures multiset(InsertRecord(r, sorted)) == multiset(sorted) + multiset{r}
    ensures |InsertRecord(r, sorted)| == |sorted| + 1
  {
    if sorted != [] && Bytes.Less(sorted[0].path, r.path) {
      InsertRecordMembers(r, sorted[1..]);
      assert sorted == [sorted[0]] + sorted[1..];
    }
  }

  lemma ConsWeaklySorted(r: Record, rest: seq<Record>)
    requires WeaklySorted(rest) && (rest != [] ==> !Bytes.Less(rest[0].path, r.path))
    ensures WeaklySorted([r] + rest)
  {
    var all := [r] + rest;
    forall i, j | 0 <= i < j < |all|
      ensures !Bytes.Less(all[j].path, all[i].path)
    {
      if i == 0 {
        if j > 1 {
          assert !Bytes.Less(rest[j - 1].path, rest[0].path);
        }
        if j > 1 {
          NotLessTransitive(r.path, rest[0].path, rest[j - 1].path);
        }
      } else {
        assert all[i] == rest[i - 1] && all[j] == rest[j - 1];
      }
    }
  }

  lemma {:induction false} InsertRecordSorted(r: Record, sorted: seq<Record>)
    requires WeaklySorted(sorted)
    ensures WeaklySorted(InsertRecord(r, sorted))
    ensures InsertRecord(r, sorted)[0] == r || (sorted != [] && InsertRecord(r, sorted)[0] == sorted[0])
  {
    if sorted == [] || !Bytes.Less(sorted[0].path, r.path) {
      ConsWeaklySorted(r, sorted);
    } else {
      InsertRecordSorted(r, sorted[1..]);
      LessAsymmetric(sorted[0].path, r.path);
      ConsWeaklySorted(sorted[0], InsertRecord(r, sorted[1..]));
    }
  }

  lemma {:induction false} SortRecordsSorted(records: seq<Record>)
    ensures WeaklySorted(SortRecords(records))
    ensures multiset(SortRecords(records)) == multiset(records)
  {
    if records != [] {
      SortRecordsSorted(records[1..]);
      InsertRecordSorted(records[0], SortRecords(records[1..]));
      InsertRecordMembers(records[0], SortRecords(records[1..]));
      assert records == [records[0]] + records[1..];
    }
  }

  /** Sorting leaves an already sorted list alone. */
  lemma {:induction false} SortRecordsIdle(records: seq<Record>)
    requires WeaklySorted(records)
    ensures SortRecords(records) == records
  {
    if records != [] {
      SortRecordsIdle(records[1..]);
      if |records| > 1 {
        assert !Bytes.Less(records[1].path, records[0].path);
      }
      assert records == [records[0]] + records[1..];
    }
  }

  lemma HeadsMembers(records: seq<Record>)
    ensures forall r :: r in RegularFileHeads(records) <==> r in records && r.version.entry.File?
    ensures WeaklySorted(RegularFileHeads(records))
  {
    FilesOfMembers(records);
    SortRecordsSorted(FilesOf(records));
    forall r
      ensures r in RegularFileHeads(records) <==> r in FilesOf(records)
    {
      assert r in RegularFileHeads(records) <==> r in multiset(RegularFileHeads(records));
    }
  }

  lemma {:induction false} FilesOfUnique(records: seq<Record>)
    requires UniquePaths(records)
    ensures UniquePaths(FilesOf(records))
  {
    if records != [] {
      FilesOfUnique(records[1..]);
      FilesOfMembers(records[1..]);
      var rest := FilesOf(records[1..]);
      forall j | 0 <= j < |rest|
        ensures rest[j].path != records[0].path
      {
        assert rest[j] in records[1..];
      }
    }
  }

  lemma {:induction false} InsertRecordUnique(r: Record, sorted: seq<Record>)
    requires UniquePaths(sorted) && forall s :: s in sorted ==> s.path != r.path
    ensures UniquePaths(InsertRecord(r, sorted))
  {
    if sorted != [] && Bytes.Less(sorted[0].path, r.path) {
      InsertRecordUnique(r, sorted[1..]);
      InsertRecordMembers(r, sorted[1..]);
      var rest := InsertRecord(r, sorted[1..]);
      forall j | 0 <= j < |rest|
        ensures rest[j].path != sorted[0].path
      {
        assert rest[j] in multiset(rest);
        assert rest[j] in sorted[1..] || rest[j] == r;
      }
    }
  }

  lemma {:induction false} SortRecordsUnique(records: seq<Record>)
    requires UniquePaths(records)
    ensures UniquePaths(SortRecords(records))
  {
    if records != [] {
      SortRecordsUnique(records[1..]);
      SortRecordsSorted(records[1..]);
      forall s | s in SortRecords(records[1..])
        ensures s.path != records[0].path
      {
        assert s in multiset(SortRecords(records[1..]));
        assert s in records[1..];
      }
      InsertRecordUnique(records[0], SortRecords(records[1..]));
    }
  }

  lemma WeaklyUniqueIsStrict(records: seq<Record>)
    requires WeaklySorted(records) && forall i :: 0 <= i < |records| - 1 ==> records[i].path != records[i + 1].path
    ensures StrictlySortedRecords(records)
  {
    forall i, j | 0 <= i < j < |records|
      ensures Bytes.Less(records[i].path, records[j].path)
    {
      LessTotal(records[i].path, records[i + 1].path);
      assert !Bytes.Less(records[i + 1].path, records[i].path);
      if i + 1 < j {
        assert !Bytes.Less(records[j].path, records[i + 1].path);
        LessTotal(records[i + 1].path, records[j].path);
        if records[i + 1].path != records[j].path {
          LessTransitive(records[i].path, records[i + 1].path, records[j].path);
        }
      }
    }
  }

  lemma StrictIsWeak(records: seq<Record>)
    requires StrictlySortedRecords(records)
    ensures WeaklySorted(records) && UniquePaths(records)
  {
    forall i, j | 0 <= i < j < |records|
      ensures !Bytes.Less(records[j].path, records[i].path) && records[i].path != records[j].path
    {
      LessAsymmetric(records[i].path, records[j].path);
    }
  }

  lemma HeadsStrict(records: seq<Record>)
    requires UniquePaths(records)
    ensures StrictlySortedRecords(RegularFileHeads(records))
  {
    HeadsMembers(records);
    FilesOfUnique(records);
    SortRecordsUnique(FilesOf(records));
    WeaklyUniqueIsStrict(RegularFileHeads(records));
  }

  lemma {:induction false} KeptMembers(heads: seq<Record>, remote: map<Path, Record>)
    requires StrictlySortedRecords(heads)
    ensures forall r :: r in Kept(heads, remote) <==> r in heads && Holds(remote, r)
    ensures StrictlySortedRecords(Kept(heads, remote))
  {
    if heads != [] {
      KeptMembers(heads[1..], remote);
      assert heads == [heads[0]] + heads[1..];
      var rest := Kept(heads[1..], remote);
      forall j | 0 <= j < |rest|
        ensures Bytes.Less(heads[0].path, rest[j].path)
      {
        assert rest[j] in rest;
        var k :| 0 <= k < |heads[1..]| && heads[1..][k] == rest[j];
        assert heads[k + 1] == rest[j];
      }
    }
  }

  /** With unique paths, the record a path looks up is the record listed. */
  lemma HoldsIsMember(records: seq<Record>, r: Record)
    requires UniquePaths(records)
    ensures Holds(ByPath(records), r) <==> r in records
  {
    if r in records {
      var s := ByPath(records)[r.path];
      var i :| 0 <= i < |records| && records[i] == r;
      var j :| 0 <= j < |records| && records[j] == s;
      assert i == j;
    }
  }

  /** Two strictly sorted lists with the same members are the same list. */
  lemma {:induction false} StrictEqual(a: seq<Record>, b: seq<Record>)
    requires StrictlySortedRecords(a) && StrictlySortedRecords(b)
    requires forall r :: r in a <==> r in b
    ensures a == b
    decreases |a|
  {
    SameEmptiness(a, b);
    if a != [] {
      SameFirst(a, b);
      forall r
        ensures r in a[1..] <==> r in b[1..]
      {
        TailMember(a, r);
        TailMember(b, r);
      }
      StrictEqual(a[1..], b[1..]);
      assert a == [a[0]] + a[1..] && b == [b[0]] + b[1..];
    }
  }

  lemma SameEmptiness(a: seq<Record>, b: seq<Record>)
    requires forall r :: r in a <==> r in b
    ensures a == [] <==> b == []
  {
    if a != [] {
      assert a[0] in a;
    }
    if b != [] {
      assert b[0] in b;
    }
  }

  lemma TailMember(a: seq<Record>, r: Record)
    requires a != [] && StrictlySortedRecords(a)
    ensures r in a[1..] <==> r in a && r != a[0]
  {
    assert a == [a[0]] + a[1..];
    if a[0] in a[1..] {
      var k :| 0 <= k < |a[1..]| && a[1..][k] == a[0];
      assert a[k + 1] == a[0];
      LessIrreflexive(a[0].path);
    }
  }

  lemma SameFirst(a: seq<Record>, b: seq<Record>)
    requires a != [] && b != [] && StrictlySortedRecords(a) && StrictlySortedRecords(b)
    requires forall r :: r in a <==> r in b
    ensures a[0] == b[0]
  {
    assert a[0] in a && b[0] in b;
    var i :| 0 <= i < |b| && b[i] == a[0];
    var j :| 0 <= j < |a| && a[j] == b[0];
    if i > 0 && j > 0 {
      assert Bytes.Less(b[0].path, b[i].path) && Bytes.Less(a[0].path, a[j].path);
      LessAsymmetric(a[0].path, b[0].path);
    }
  }

  // ---------------------------------------------------------------- the properties

  /** What an acknowledgement must be: sorted, unique regular files, each of them the
      record the responder holds. */
  lemma AckAcceptedIff(current: seq<Record>, proposed: seq<Record>)
    ensures ValidateAckHeads(current, proposed)
            <==> && StrictlySortedRecords(proposed)
                 && forall r :: r in proposed ==> r.version.entry.File? && Holds(ByPath(current), r)
  {
    HeadsMembers(proposed);
    if ValidateAckHeads(current, proposed) {
      WeaklyUniqueIsStrict(proposed);
    }
    if StrictlySortedRecords(proposed) && forall r :: r in proposed ==> r.version.entry.File? && Holds(ByPath(current), r) {
      StrictIsWeak(proposed);
      FilesOfMembers(proposed);
      SortRecordsIdle(proposed);
    }
  }

  /** The intersection is exactly the regular files both sides record identically. */
  lemma IntersectIsAgreement(local: seq<Record>, remote: seq<Record>)
    requires UniquePaths(local) && UniquePaths(remote)
    ensures IntersectHeads(local, remote).Some?
    ensures StrictlySortedRecords(IntersectHeads(local, remote).value)
    ensures forall r :: r in IntersectHeads(local, remote).value <==> r in local && r in remote && r.version.entry.File?
  {
    HeadsMembers(local);
    HeadsStrict(local);
    KeptMembers(RegularFileHeads(local), ByPath(remote));
    forall r
      ensures Holds(ByPath(remote), r) <==> r in remote
    {
      HoldsIsMember(remote, r);
    }
  }

  /** The connector sees only the responder's heads, yet finds the same agreement, and
      the responder would have found it too. */
  lemma IntersectFromHeads(local: seq<Record>, remote: seq<Record>)
    requires UniquePaths(local) && UniquePaths(remote)
    ensures IntersectHeads(local, RegularFileHeads(remote)) == IntersectHeads(local, remote)
    ensures IntersectHeads(remote, local) == IntersectHeads(local, remote)
  {
    HeadsMembers(remote);
    HeadsStrict(remote);
    StrictIsWeak(RegularFileHeads(remote));
    IntersectIsAgreement(local, RegularFileHeads(remote));
    IntersectIsAgreement(local, remote);
    IntersectIsAgreement(remote, local);
    StrictEqual(IntersectHeads(local, RegularFileHeads(remote)).value, IntersectHeads(local, remote).value);
    StrictEqual(IntersectHeads(remote, local).value, IntersectHeads(local, remote).value);
  }

  /** The connector accepts the responder's heads as a well-formed list, and the
      responder never rejects the intersection the connector sends back. */
  lemma AcknowledgementAccepted(local: seq<Record>, remote: seq<Record>)
    requires UniquePaths(local) && UniquePaths(remote)
    ensures ValidateAckHeads(RegularFileHeads(remote), RegularFileHeads(remote))
    ensures IntersectHeads(local, RegularFileHeads(remote)).Some?
    ensures ValidateAckHeads(remote, IntersectHeads(local, RegularFileHeads(remote)).value)
    ensures ValidateAckHeads(local, IntersectHeads(local, RegularFileHeads(remote)).value)
  {
    var heads := RegularFileHeads(remote);
    HeadsMembers(remote);
    HeadsStrict(remote);
    StrictIsWeak(heads);
    IntersectFromHeads(local, remote);
    IntersectIsAgreement(local, remote);
    var shared := IntersectHeads(local, remote).value;
    forall r
      ensures Holds(ByPath(heads), r) <==> r in heads
      ensures Holds(ByPath(remote), r) <==> r in remote
      ensures Holds(ByPath(local), r) <==> r in local
    {
      HoldsIsMember(heads, r);
      HoldsIsMember(remote, r);
      HoldsIsMember(local, r);
    }
    AckAcceptedIff(heads, heads);
    AckAcceptedIff(remote, shared);
    AckAcceptedIff(local, shared);
  }
}
