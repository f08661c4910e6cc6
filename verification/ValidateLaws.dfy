/** The two checks accept exactly the plans that are the deterministic materialization
    path by path, up to the connector's fresh numbers and signatures
    (src/sync.rs:2775-3039). */
module ValidateLaws {
  import opened Utils
  import opened Bytes
  import opened Model
  import opened Reconcile
  import opened Versions
  import opened Merge
  import opened RoundBudget
  import opened PlanLaws
  import opened Materialize
  import opened MaterializeLaws
  import opened Validate
  import ThreeWay

  predicate Accepted(env: Env, proposed: Plan, expected: Plan, connector: PeerId)
  {
    ShapeOk(proposed, expected, connector) && Verified(env, proposed, expected)
  }

  /** A candidate's record and conflicts are its outcome, signed by the connector with a
      number above all it had used. */
  predicate CandidateAgrees(proposed: Plan, c: MergeCandidate, outcome: Outcome<ComputedMerge>, connector: PeerId, greatest: nat)
  {
    var v := View(proposed, c.path);
    && v.0.Some?
    && v.1 == OutcomeConflicts(c, outcome, v.0.value)
    && match outcome
       case Failure(_) => v.0.value == c.winner
       case Success(m) =>
         && Unsigned(v.0.value) == MergedRecord(c, connector, v.0.value.version.sequence, MergedEntry(m))
         && Signed(v.0.value) && v.0.value.version.sequence > greatest
  }

  /** The proposal is the deterministic materialization of `expected`, path by path. */
  ghost predicate Agrees(proposed: Plan, expected: Plan, outcomes: seq<Outcome<ComputedMerge>>, connector: PeerId)
    requires |expected.merges| == |outcomes|
  {
    && proposed.merges == expected.merges
    && |proposed.records| == |expected.records|
    && Ordinary(proposed.conflicts, CandidatePaths(expected.merges))
       == Ordinary(expected.conflicts, CandidatePaths(expected.merges))
    && (forall k :: 0 <= k < |expected.merges| ==>
          CandidateAgrees(proposed, expected.merges[k], outcomes[k], connector, GreatestSequence(expected, connector)))
    && (forall q :: q in ByPath(expected.records) && q !in CandidatePaths(expected.merges) ==>
          View(proposed, q).0 == View(expected, q).0)
    && (forall j, k :: 0 <= j < k < |outcomes| && outcomes[j].Success? && outcomes[k].Success? ==>
          SequenceAt(proposed, expected.merges[j].path) != SequenceAt(proposed, expected.merges[k].path))
  }

  /** What the outcomes of a round guarantee of themselves. */
  predicate OutcomesSound(cs: seq<MergeCandidate>, outcomes: seq<Outcome<ComputedMerge>>)
  {
    && |cs| == |outcomes|
    && TotalBytes(outcomes) <= MAX_ROUND_BYTES
    && forall k :: 0 <= k < |cs| && outcomes[k].Success? ==>
         && cs[k].winner.version.entry.File?
         && outcomes[k].value.executable == cs[k].winner.version.entry.executable
         && |outcomes[k].value.bytes| <= MAX_OUTPUT_BYTES
  }

  lemma {:induction false} OutcomesFromSound(env: Env, cs: seq<MergeCandidate>, k: nat, b: Budget)
    requires k <= |cs| && OutcomesFrom(env, cs, k, b).Done?
    ensures var r := OutcomesFrom(env, cs, k, b).value;
            forall i :: 0 <= i < |r| && r[i].Success? ==>
              && cs[k + i].winner.version.entry.File?
              && r[i].value.executable == cs[k + i].winner.version.entry.executable
    decreases |cs| - k
  {
    if k < |cs| {
      var step := StepOutcome(env, cs[k], k, b).value;
      OutcomesFromSound(env, cs, k + 1, step.0);
      var rest := OutcomesFrom(env, cs, k + 1, step.0).value;
      var r := OutcomesFrom(env, cs, k, b).value;
      assert r == [step.1] + rest;
      forall i | 0 <= i < |r| && r[i].Success?
        ensures cs[k + i].winner.version.entry.File?
        ensures r[i].value.executable == cs[k + i].winner.version.entry.executable
      {
        if i > 0 {
          assert r[i] == rest[i - 1];
          assert cs[k + 1 + (i - 1)] == cs[k + i];
        }
      }
    }
  }

  lemma OutcomesAreSound(env: Env, cs: seq<MergeCandidate>, diff: Differ, utf8: ThreeWay.Utf8)
    requires Faithful(env, diff, utf8) && Outcomes(env, cs).Done?
    ensures OutcomesSound(cs, Outcomes(env, cs).value)
  {
    RoundBudgetHolds(env, cs, diff, utf8);
    OutcomesFromSound(env, cs, 0, Budget(0, 0, 0, false));
  }

  // ---------------------------------------------------------------- small facts

  lemma FirstIsView(records: seq<Record>, p: Path)
    requires UniquePaths(records)
    ensures FirstRecord(records, p) == if p in ByPath(records) then Some(ByPath(records)[p]) else None
  {
    FirstListed(records, p);
    if p in ByPath(records) {
      var k := RecordListed(records, p);
      FirstFound(records, p, k);
      ListedOnce(records, FirstRecord(records, p).value);
    }
  }

  lemma ListedOnce(records: seq<Record>, r: Record)
    requires UniquePaths(records) && r in records
    ensures r.path in ByPath(records) && ByPath(records)[r.path] == r
  {
    var m :| 0 <= m < |records| && records[m] == r;
    ByPathUnique(records, m);
  }

  lemma {:induction false} FirstFound(records: seq<Record>, p: Path, k: nat)
    requires k < |records| && records[k].path == p
    ensures FirstRecord(records, p).Some?
  {
    if k > 0 {
      FirstFound(records[1..], p, k - 1);
    }
  }

  lemma {:induction false} FirstListed(records: seq<Record>, p: Path)
    ensures FirstRecord(records, p).Some? ==>
              FirstRecord(records, p).value in records && FirstRecord(records, p).value.path == p
  {
    if records != [] {
      FirstListed(records[1..], p);
    }
  }

  predicate SomeWholeFile(conflicts: seq<Conflict>)
  {
    conflicts != [] && (conflicts[0].resolution.WholeFile? || SomeWholeFile(conflicts[1..]))
  }

  lemma {:induction false} WholeFileView(conflicts: seq<Conflict>, p: Path)
    ensures WholeFileAt(conflicts, p) <==> SomeWholeFile(ConflictsOf(conflicts, p))
  {
    if conflicts != [] {
      WholeFileView(conflicts[1..], p);
      WholeFileCons(conflicts, p);
      var rest := ConflictsOf(conflicts[1..], p);
      assert ([conflicts[0]] + rest)[1..] == rest;
    }
  }

  lemma WholeFileCons(conflicts: seq<Conflict>, p: Path)
    requires conflicts != []
    ensures WholeFileAt(conflicts, p)
            <==> (conflicts[0].path == p && conflicts[0].resolution.WholeFile?) || WholeFileAt(conflicts[1..], p)
  {
    if WholeFileAt(conflicts[1..], p) {
      var k :| 0 <= k < |conflicts[1..]| && conflicts[1..][k].path == p && conflicts[1..][k].resolution.WholeFile?;
      assert conflicts[k + 1].path == p;
    }
    if WholeFileAt(conflicts, p) && !(conflicts[0].path == p && conflicts[0].resolution.WholeFile?) {
      var k :| 0 <= k < |conflicts| && conflicts[k].path == p && conflicts[k].resolution.WholeFile?;
      assert conflicts[1..][k - 1].path == p;
    }
  }

  /** A candidate's own conflicts say whether it fell back. */
  lemma OutcomeWholeFile(conflicts: seq<Conflict>, c: MergeCandidate, outcome: Outcome<ComputedMerge>, r: Record)
    requires ConflictsOf(conflicts, c.path) == OutcomeConflicts(c, outcome, r)
    ensures WholeFileAt(conflicts, c.path) <==> outcome.Failure?
  {
    WholeFileView(conflicts, c.path);
    assert OutcomeConflicts(c, outcome, r)[|OutcomeConflicts(c, outcome, r)|..] == [];
  }

  lemma OutcomeConflictsFit(c: MergeCandidate, outcome: Outcome<ComputedMerge>, r: Record)
    ensures var cs := OutcomeConflicts(c, outcome, r);
            |cs| <= 1 && (cs != [] ==> cs[0].base == Some(c.base) && cs[0].HasInput(c.winner) && cs[0].HasInput(c.loser))
  {
  }

  lemma CandidateIndexIs(cs: seq<MergeCandidate>, k: nat)
    requires CanonicalOrder(cs) && k < |cs|
    ensures CandidateIndex(cs, cs[k].path) == k
  {
    var i := CandidateIndex(cs, cs[k].path);
    if i < k {
      CanonicalDistinct(cs, i, k);
    } else if k < i < |cs| {
      CanonicalDistinct(cs, k, i);
    }
  }

  lemma CandidatePathsIndex(cs: seq<MergeCandidate>, p: Path)
    ensures p in CandidatePaths(cs) <==> CandidateIndex(cs, p) < |cs|
  {
  }

  ghost function PathSet(records: seq<Record>): set<Path>
  {
    set k | 0 <= k < |records| :: records[k].path
  }

  lemma PathSetLookup(records: seq<Record>, p: Path)
    ensures p in PathSet(records) <==> p in ByPath(records)
  {
    if p in PathSet(records) {
      var k :| 0 <= k < |records| && records[k].path == p;
      assert records[k] in records;
    }
    if p in ByPath(records) {
      var k :| 0 <= k < |records| && records[k] == ByPath(records)[p];
    }
  }

  lemma PathSetGrows(records: seq<Record>)
    requires records != []
    ensures PathSet(records) == PathSet(records[..|records| - 1]) + {records[|records| - 1].path}
  {
    var n := |records| - 1;
    assert forall k :: 0 <= k < n ==> records[..n][k] == records[k];
  }

  lemma {:induction false} PathSetBound(y: seq<Record>)
    ensures |PathSet(y)| <= |y|
  {
    if y != [] {
      PathSetBound(y[..|y| - 1]);
      PathSetGrows(y);
    }
  }

  lemma {:induction false} PathSetSize(x: seq<Record>)
    requires UniquePaths(x)
    ensures |PathSet(x)| == |x|
  {
    if x != [] {
      PathSetSize(x[..|x| - 1]);
      PathSetGrows(x);
    }
  }

  /** A list with as many different paths as records has no duplicate. */
  lemma {:induction false} PathSetFull(y: seq<Record>)
    requires |PathSet(y)| == |y|
    ensures UniquePaths(y)
  {
    if y != [] {
      var n := |y| - 1;
      var shorter := y[..n];
      PathSetBound(shorter);
      PathSetGrows(y);
      PathSetFull(shorter);
      forall i, j | 0 <= i < j < |y|
        ensures y[i].path != y[j].path
      {
        assert shorter[i].path in PathSet(shorter);
        if j < n {
          assert shorter[i].path != shorter[j].path;
        }
      }
    }
  }

  /** As many records as a list without duplicates, and all its paths: no duplicate. */
  lemma SamePathsUnique(x: seq<Record>, y: seq<Record>)
    requires UniquePaths(x) && |y| == |x|
    requires forall k :: 0 <= k < |x| ==> x[k].path in ByPath(y)
    ensures UniquePaths(y)
    ensures forall p :: p in ByPath(y) ==> p in ByPath(x)
  {
    PathSetSize(x);
    PathSetBound(y);
    forall p | p in PathSet(x)
      ensures p in PathSet(y)
    {
      PathSetLookup(y, p);
    }
    SubsetOfSameSize(PathSet(x), PathSet(y));
    PathSetFull(y);
    forall p | p in ByPath(y)
      ensures p in ByPath(x)
    {
      PathSetLookup(x, p);
      PathSetLookup(y, p);
    }
  }

  // ---------------------------------------------------------------- the bytes of the merges

  /** What a path's candidate adds to the round's bytes. */
  function Share(cs: seq<MergeCandidate>, outcomes: seq<Outcome<ComputedMerge>>, p: Path): nat
    requires |cs| == |outcomes|
  {
    if cs == [] then 0
    else
      (if cs[0].path == p && outcomes[0].Success? then |outcomes[0].value.bytes| else 0) + Share(cs[1..], outcomes[1..], p)
  }

  function Shares(cs: seq<MergeCandidate>, outcomes: seq<Outcome<ComputedMerge>>, records: seq<Record>): nat
    requires |cs| == |outcomes|
  {
    if records == [] then 0
    else Shares(cs, outcomes, records[..|records| - 1]) + Share(cs, outcomes, records[|records| - 1].path)
  }

  /** How many records have a path, weighted. */
  function Weighted(records: seq<Record>, p: Path, weight: nat): nat
  {
    if records == [] then 0
    else Weighted(records[..|records| - 1], p, weight) + if records[|records| - 1].path == p then weight else 0
  }

  lemma {:induction false} WeightedAbsent(records: seq<Record>, p: Path, weight: nat)
    requires forall k :: 0 <= k < |records| ==> records[k].path != p
    ensures Weighted(records, p, weight) == 0
  {
    if records != [] {
      WeightedAbsent(records[..|records| - 1], p, weight);
    }
  }

  lemma {:induction false} WeightedOnce(records: seq<Record>, p: Path, weight: nat)
    requires UniquePaths(records)
    ensures Weighted(records, p, weight) <= weight
  {
    if records != [] {
      var shorter := records[..|records| - 1];
      if records[|records| - 1].path == p {
        WeightedAbsent(shorter, p, weight);
      } else {
        WeightedOnce(shorter, p, weight);
      }
    }
  }

  lemma {:induction false} SharesSplit(cs: seq<MergeCandidate>, outcomes: seq<Outcome<ComputedMerge>>, records: seq<Record>)
    requires |cs| == |outcomes| && cs != []
    ensures var weight := if outcomes[0].Success? then |outcomes[0].value.bytes| else 0;
            Shares(cs, outcomes, records) == Weighted(records, cs[0].path, weight) + Shares(cs[1..], outcomes[1..], records)
  {
    if records != [] {
      SharesSplit(cs, outcomes, records[..|records| - 1]);
    }
  }

  lemma {:induction false} SharesNone(cs: seq<MergeCandidate>, outcomes: seq<Outcome<ComputedMerge>>, records: seq<Record>)
    requires |cs| == |outcomes| && cs == []
    ensures Shares(cs, outcomes, records) == 0
  {
    if records != [] {
      SharesNone(cs, outcomes, records[..|records| - 1]);
    }
  }

  /** No byte of a merge is counted twice over records of different paths. */
  lemma {:induction false} SharesBound(cs: seq<MergeCandidate>, outcomes: seq<Outcome<ComputedMerge>>, records: seq<Record>)
    requires |cs| == |outcomes| && UniquePaths(records)
    ensures Shares(cs, outcomes, records) <= TotalBytes(outcomes)
    decreases |cs|
  {
    if cs == [] {
      SharesNone(cs, outcomes, records);
    } else {
      SharesSplit(cs, outcomes, records);
      SharesBound(cs[1..], outcomes[1..], records);
      WeightedOnce(records, cs[0].path, if outcomes[0].Success? then |outcomes[0].value.bytes| else 0);
    }
  }

  lemma {:induction false} ShareAt(cs: seq<MergeCandidate>, outcomes: seq<Outcome<ComputedMerge>>, k: nat)
    requires |cs| == |outcomes| && k < |cs|
    ensures outcomes[k].Success? ==> Share(cs, outcomes, cs[k].path) >= |outcomes[k].value.bytes|
  {
    if k > 0 {
      ShareAt(cs[1..], outcomes[1..], k - 1);
    }
  }

  /** Every proposed merge has at most its candidate's bytes. */
  predicate SizesFit(proposed: Plan, expected: Plan, outcomes: seq<Outcome<ComputedMerge>>, records: seq<Record>)
    requires |expected.merges| == |outcomes|
  {
    forall k :: 0 <= k < |records| && ProposesMerge(proposed, expected, records[k].path) ==>
      SizeAt(proposed, records[k].path) <= Share(expected.merges, outcomes, records[k].path)
  }

  lemma {:induction false} BytesBound(proposed: Plan, expected: Plan, outcomes: seq<Outcome<ComputedMerge>>, records: seq<Record>)
    requires |expected.merges| == |outcomes| && SizesFit(proposed, expected, outcomes, records)
    ensures MergedBytes(proposed, expected, records) <= Shares(expected.merges, outcomes, records)
  {
    if records != [] {
      BytesBound(proposed, expected, outcomes, records[..|records| - 1]);
    }
  }

  // ---------------------------------------------------------------- soundness

  /** The reconciled record of a candidate's path. */
  lemma CandidateRecord(expected: Plan, k: nat) returns (i: nat)
    requires WellShaped(expected) && k < |expected.merges|
    ensures i < |expected.records| && expected.records[i].path == expected.merges[k].path
    ensures expected.records[i] == expected.merges[k].winner
    ensures CandidateIndex(expected.merges, expected.merges[k].path) == k
  {
    assert CandidateOk(expected, expected.merges[k]);
    i := RecordListed(expected.records, expected.merges[k].path);
    CandidateIndexIs(expected.merges, k);
  }

  lemma AcceptedUnique(proposed: Plan, expected: Plan, connector: PeerId)
    requires WellShaped(expected) && ShapeOk(proposed, expected, connector)
    ensures UniquePaths(proposed.records)
    ensures forall p :: p in ByPath(proposed.records) <==> p in ByPath(expected.records)
  {
    forall k | 0 <= k < |expected.records|
      ensures expected.records[k].path in ByPath(proposed.records)
    {
      assert RecordShapeOk(proposed, expected, connector, GreatestSequence(expected, connector), expected.records[k]);
    }
    SamePathsUnique(expected.records, proposed.records);
    forall p | p in ByPath(expected.records)
      ensures p in ByPath(proposed.records)
    {
      var k := RecordListed(expected.records, p);
    }
  }

  lemma CandidateSound(proposed: Plan, expected: Plan, outcome: Outcome<ComputedMerge>, connector: PeerId, k: nat)
    requires WellShaped(expected) && ShapeOk(proposed, expected, connector) && k < |expected.merges|
    requires CandidateVerified(proposed, expected.merges[k], outcome)
    ensures CandidateAgrees(proposed, expected.merges[k], outcome, connector, GreatestSequence(expected, connector))
    ensures ProposesMerge(proposed, expected, expected.merges[k].path) <==> outcome.Success?
  {
    var c := expected.merges[k];
    var i := CandidateRecord(expected, k);
    AcceptedUnique(proposed, expected, connector);
    FirstIsView(proposed.records, c.path);
    assert RecordShapeOk(proposed, expected, connector, GreatestSequence(expected, connector), expected.records[i]);
    OutcomeWholeFile(proposed.conflicts, c, outcome, ByPath(proposed.records)[c.path]);
  }

  /** Soundness: an accepted plan is the deterministic materialization, path by path. */
  lemma AcceptedAgrees(env: Env, proposed: Plan, expected: Plan, connector: PeerId)
    requires WellShaped(expected) && Accepted(env, proposed, expected, connector)
    ensures Agrees(proposed, expected, Outcomes(env, expected.merges).value, connector)
  {
    var outcomes := Outcomes(env, expected.merges).value;
    AcceptedUnique(proposed, expected, connector);
    forall k | 0 <= k < |expected.merges|
      ensures CandidateAgrees(proposed, expected.merges[k], outcomes[k], connector, GreatestSequence(expected, connector))
      ensures ProposesMerge(proposed, expected, expected.merges[k].path) <==> outcomes[k].Success?
    {
      assert CandidateVerified(proposed, expected.merges[k], outcomes[k]);
      CandidateSound(proposed, expected, outcomes[k], connector, k);
    }
    forall q | q in ByPath(expected.records) && q !in CandidatePaths(expected.merges)
      ensures View(proposed, q).0 == View(expected, q).0
    {
      OrdinaryRecordSound(proposed, expected, connector, q);
    }
    forall j, k | 0 <= j < k < |outcomes| && outcomes[j].Success? && outcomes[k].Success?
      ensures SequenceAt(proposed, expected.merges[j].path) != SequenceAt(proposed, expected.merges[k].path)
    {
      NumbersDiffer(proposed, expected, connector, j, k);
    }
  }

  lemma OrdinaryRecordSound(proposed: Plan, expected: Plan, connector: PeerId, q: Path)
    requires WellShaped(expected) && ShapeOk(proposed, expected, connector)
    requires q in ByPath(expected.records) && q !in CandidatePaths(expected.merges)
    ensures View(proposed, q).0 == View(expected, q).0
  {
    var i := RecordListed(expected.records, q);
    CandidatePathsIndex(expected.merges, q);
    assert RecordShapeOk(proposed, expected, connector, GreatestSequence(expected, connector), expected.records[i]);
  }

  lemma NumbersDiffer(proposed: Plan, expected: Plan, connector: PeerId, j: nat, k: nat)
    requires WellShaped(expected) && ShapeOk(proposed, expected, connector) && j < k < |expected.merges|
    requires ProposesMerge(proposed, expected, expected.merges[j].path)
    requires ProposesMerge(proposed, expected, expected.merges[k].path)
    ensures SequenceAt(proposed, expected.merges[j].path) != SequenceAt(proposed, expected.merges[k].path)
  {
    var a := CandidateRecord(expected, j);
    var b := CandidateRecord(expected, k);
    assert a != b by {
      CanonicalDistinct(expected.merges, j, k);
    }
    assert DistinctMerges(proposed, expected, expected.records);
  }

  // ---------------------------------------------------------------- completeness

  lemma AgreesPaths(proposed: Plan, expected: Plan, outcomes: seq<Outcome<ComputedMerge>>, connector: PeerId)
    requires WellShaped(expected) && |expected.merges| == |outcomes| && Agrees(proposed, expected, outcomes, connector)
    ensures UniquePaths(proposed.records)
    ensures forall p :: p in ByPath(expected.records) ==> p in ByPath(proposed.records)
  {
    forall p | p in ByPath(expected.records)
      ensures p in ByPath(proposed.records)
    {
      if p in CandidatePaths(expected.merges) {
        var k := CandidateIndex(expected.merges, p);
        CandidatePathsIndex(expected.merges, p);
        assert CandidateAgrees(proposed, expected.merges[k], outcomes[k], connector, GreatestSequence(expected, connector));
      } else {
        assert View(proposed, p).0 == View(expected, p).0;
      }
    }
    forall k | 0 <= k < |expected.records|
      ensures expected.records[k].path in ByPath(proposed.records)
    {
      assert expected.records[k] in expected.records;
    }
    SamePathsUnique(expected.records, proposed.records);
  }

  lemma CandidateComplete(proposed: Plan, expected: Plan, outcomes: seq<Outcome<ComputedMerge>>, connector: PeerId, k: nat)
    requires WellShaped(expected) && OutcomesSound(expected.merges, outcomes) && k < |outcomes|
    requires UniquePaths(proposed.records) && Agrees(proposed, expected, outcomes, connector)
    ensures var c := expected.merges[k];
            && CandidateVerified(proposed, c, outcomes[k]) && CandidateConflictsOk(proposed, c)
            && (WholeFileAt(proposed.conflicts, c.path) <==> outcomes[k].Failure?)
            && (outcomes[k].Success? ==>
                  && c.path in ByPath(proposed.records)
                  && MergedShapeOk(ByPath(proposed.records)[c.path], c, connector)
                  && FreshlySigned(ByPath(proposed.records)[c.path], GreatestSequence(expected, connector))
                  && SizeAt(proposed, c.path) == |outcomes[k].value.bytes|)
  {
    var c := expected.merges[k];
    assert CandidateAgrees(proposed, c, outcomes[k], connector, GreatestSequence(expected, connector));
    var r := View(proposed, c.path).0.value;
    FirstIsView(proposed.records, c.path);
    OutcomeWholeFile(proposed.conflicts, c, outcomes[k], r);
    OutcomeConflictsFit(c, outcomes[k], r);
    if outcomes[k].Success? {
      assert r.version.entry == Unsigned(r).version.entry == MergedEntry(outcomes[k].value);
    }
  }

  lemma RecordComplete(proposed: Plan, expected: Plan, outcomes: seq<Outcome<ComputedMerge>>, connector: PeerId, i: nat)
    requires WellShaped(expected) && OutcomesSound(expected.merges, outcomes) && i < |expected.records|
    requires UniquePaths(proposed.records) && Agrees(proposed, expected, outcomes, connector)
    ensures var e := expected.records[i];
            var k := CandidateIndex(expected.merges, e.path);
            && RecordShapeOk(proposed, expected, connector, GreatestSequence(expected, connector), e)
            && (ProposesMerge(proposed, expected, e.path) <==> k < |outcomes| && outcomes[k].Success?)
            && (ProposesMerge(proposed, expected, e.path) ==>
                  SizeAt(proposed, e.path) <= Share(expected.merges, outcomes, e.path))
  {
    var e := expected.records[i];
    var k := CandidateIndex(expected.merges, e.path);
    CandidatePathsIndex(expected.merges, e.path);
    ByPathUnique(expected.records, i);
    if k < |outcomes| {
      assert CandidateAgrees(proposed, expected.merges[k], outcomes[k], connector, GreatestSequence(expected, connector));
      CandidateComplete(proposed, expected, outcomes, connector, k);
      ShareAt(expected.merges, outcomes, k);
    } else {
      assert View(proposed, e.path).0 == View(expected, e.path).0;
    }
  }

  lemma NumbersComplete(proposed: Plan, expected: Plan, outcomes: seq<Outcome<ComputedMerge>>, connector: PeerId, i: nat, j: nat)
    requires WellShaped(expected) && OutcomesSound(expected.merges, outcomes) && i < j < |expected.records|
    requires UniquePaths(proposed.records) && Agrees(proposed, expected, outcomes, connector)
    requires ProposesMerge(proposed, expected, expected.records[i].path)
    requires ProposesMerge(proposed, expected, expected.records[j].path)
    ensures SequenceAt(proposed, expected.records[i].path) != SequenceAt(proposed, expected.records[j].path)
  {
    RecordComplete(proposed, expected, outcomes, connector, i);
    RecordComplete(proposed, expected, outcomes, connector, j);
    var a := CandidateIndex(expected.merges, expected.records[i].path);
    var b := CandidateIndex(expected.merges, expected.records[j].path);
    assert a != b;
    if a < b {
      assert SequenceAt(proposed, expected.merges[a].path) != SequenceAt(proposed, expected.merges[b].path);
    } else {
      assert SequenceAt(proposed, expected.merges[b].path) != SequenceAt(proposed, expected.merges[a].path);
    }
  }

  lemma ShapesComplete(proposed: Plan, expected: Plan, outcomes: seq<Outcome<ComputedMerge>>, connector: PeerId)
    requires WellShaped(expected) && OutcomesSound(expected.merges, outcomes)
    requires UniquePaths(proposed.records) && Agrees(proposed, expected, outcomes, connector)
    ensures forall i :: 0 <= i < |expected.records| ==>
              RecordShapeOk(proposed, expected, connector, GreatestSequence(expected, connector), expected.records[i])
  {
    forall i | 0 <= i < |expected.records|
      ensures RecordShapeOk(proposed, expected, connector, GreatestSequence(expected, connector), expected.records[i])
    {
      RecordComplete(proposed, expected, outcomes, connector, i);
    }
  }

  lemma DistinctComplete(proposed: Plan, expected: Plan, outcomes: seq<Outcome<ComputedMerge>>, connector: PeerId)
    requires WellShaped(expected) && OutcomesSound(expected.merges, outcomes)
    requires UniquePaths(proposed.records) && Agrees(proposed, expected, outcomes, connector)
    ensures DistinctMerges(proposed, expected, expected.records)
  {
    forall i, j | 0 <= i < j < |expected.records| && ProposesMerge(proposed, expected, expected.records[i].path)
                  && ProposesMerge(proposed, expected, expected.records[j].path)
      ensures SequenceAt(proposed, expected.records[i].path) != SequenceAt(proposed, expected.records[j].path)
    {
      NumbersComplete(proposed, expected, outcomes, connector, i, j);
    }
  }

  lemma BytesComplete(proposed: Plan, expected: Plan, outcomes: seq<Outcome<ComputedMerge>>, connector: PeerId)
    requires WellShaped(expected) && OutcomesSound(expected.merges, outcomes)
    requires UniquePaths(proposed.records) && Agrees(proposed, expected, outcomes, connector)
    ensures MergedBytes(proposed, expected, expected.records) <= MAX_ROUND_BYTES
  {
    forall i | 0 <= i < |expected.records|
      ensures ProposesMerge(proposed, expected, expected.records[i].path) ==>
                SizeAt(proposed, expected.records[i].path) <= Share(expected.merges, outcomes, expected.records[i].path)
    {
      RecordComplete(proposed, expected, outcomes, connector, i);
    }
    BytesBound(proposed, expected, outcomes, expected.records);
    SharesBound(expected.merges, outcomes, expected.records);
  }

  lemma RecordsComplete(proposed: Plan, expected: Plan, outcomes: seq<Outcome<ComputedMerge>>, connector: PeerId)
    requires WellShaped(expected) && OutcomesSound(expected.merges, outcomes)
    requires UniquePaths(proposed.records) && Agrees(proposed, expected, outcomes, connector)
    ensures RecordsOk(proposed, expected, connector, expected.records)
  {
    ShapesComplete(proposed, expected, outcomes, connector);
    DistinctComplete(proposed, expected, outcomes, connector);
    BytesComplete(proposed, expected, outcomes, connector);
  }

  /** Completeness: a plan that agrees with the materialization passes both checks. */
  lemma AgreesAccepted(env: Env, proposed: Plan, expected: Plan, connector: PeerId)
    requires WellShaped(expected) && Outcomes(env, expected.merges).Done?
    requires OutcomesSound(expected.merges, Outcomes(env, expected.merges).value)
    requires Agrees(proposed, expected, Outcomes(env, expected.merges).value, connector)
    ensures Accepted(env, proposed, expected, connector)
  {
    var outcomes := Outcomes(env, expected.merges).value;
    AgreesPaths(proposed, expected, outcomes, connector);
    RecordsComplete(proposed, expected, outcomes, connector);
    forall k | 0 <= k < |expected.merges|
      ensures CandidateConflictsOk(proposed, expected.merges[k]) && CandidateVerified(proposed, expected.merges[k], outcomes[k])
    {
      CandidateComplete(proposed, expected, outcomes, connector, k);
    }
  }

  /** The two checks together accept exactly the plans that agree. */
  lemma AcceptedIffAgrees(env: Env, proposed: Plan, expected: Plan, connector: PeerId, diff: Differ, utf8: ThreeWay.Utf8)
    requires Faithful(env, diff, utf8) && WellShaped(expected) && Outcomes(env, expected.merges).Done?
    ensures Accepted(env, proposed, expected, connector)
            <==> Agrees(proposed, expected, Outcomes(env, expected.merges).value, connector)
  {
    OutcomesAreSound(env, expected.merges, diff, utf8);
    if Accepted(env, proposed, expected, connector) {
      AcceptedAgrees(env, proposed, expected, connector);
    }
    if Agrees(proposed, expected, Outcomes(env, expected.merges).value, connector) {
      AgreesAccepted(env, proposed, expected, connector);
    }
  }

  // ---------------------------------------------------------------- the connector's own plan

  lemma MaterializedOrdinary(plan: Plan, outcomes: seq<Outcome<ComputedMerge>>, peer: PeerId, sequences: seq<nat>,
                             sign: Signer, after: Plan)
    requires WellShaped(plan) && |plan.merges| == |outcomes| == |sequences|
    requires SortedConflicts(after.conflicts) && Expected(plan, outcomes, peer, sequences, sign, after)
    ensures Ordinary(after.conflicts, CandidatePaths(plan.merges)) == Ordinary(plan.conflicts, CandidatePaths(plan.merges))
  {
    var candidates := CandidatePaths(plan.merges);
    OrdinarySorted(after.conflicts, candidates);
    OrdinarySorted(plan.conflicts, candidates);
    forall p
      ensures ConflictsOf(Ordinary(after.conflicts, candidates), p) == ConflictsOf(Ordinary(plan.conflicts, candidates), p)
    {
      OrdinaryView(after.conflicts, candidates, p);
      OrdinaryView(plan.conflicts, candidates, p);
      if p !in candidates {
        CandidatePathsIndex(plan.merges, p);
        assert View(after, p) == View(plan, p);
      }
    }
    ConflictListsEqual(Ordinary(after.conflicts, candidates), Ordinary(plan.conflicts, candidates));
  }

  lemma OutcomeRecordAgrees(c: MergeCandidate, outcome: Outcome<ComputedMerge>, peer: PeerId, sequence: nat, sign: Signer)
    requires Signs(sign)
    ensures var r := OutcomeRecord(c, outcome, peer, sequence, sign);
            if outcome.Failure? then r == c.winner
            else Unsigned(r) == MergedRecord(c, peer, sequence, MergedEntry(outcome.value)) && Signed(r)
                 && r.version.sequence == sequence
  {
    if outcome.Success? {
      var plain := MergedRecord(c, peer, sequence, MergedEntry(outcome.value));
      var r := sign(plain);
      assert Unsigned(r) == Unsigned(plain) == plain;
    }
  }

  lemma ExpectedAgrees(after: Plan, c: MergeCandidate, outcome: Outcome<ComputedMerge>, connector: PeerId,
                       sequence: nat, sign: Signer, greatest: nat)
    requires Signs(sign) && (outcome.Success? ==> sequence > greatest)
    requires var result := OutcomeRecord(c, outcome, connector, sequence, sign);
             View(after, c.path) == (Some(result), OutcomeConflicts(c, outcome, result))
    ensures CandidateAgrees(after, c, outcome, connector, greatest)
    ensures outcome.Success? ==> SequenceAt(after, c.path) == sequence
  {
    OutcomeRecordAgrees(c, outcome, connector, sequence, sign);
  }

  lemma MaterializedAgrees(plan: Plan, outcomes: seq<Outcome<ComputedMerge>>, connector: PeerId, sequences: seq<nat>,
                           sign: Signer, start: nat)
    requires Signs(sign) && WellShaped(plan) && |plan.merges| == |outcomes| && DrawnFrom(outcomes, sequences, start)
    requires GreatestSequence(plan, connector) <= start
    ensures Materialized(plan, outcomes, connector, sequences, sign).Done?
    ensures Agrees(Materialized(plan, outcomes, connector, sequences, sign).value, plan, outcomes, connector)
  {
    MaterializedView(plan, outcomes, connector, sequences, sign);
    var after := Materialized(plan, outcomes, connector, sequences, sign).value;
    MaterializedOrdinary(plan, outcomes, connector, sequences, sign, after);
    assert |PathsOf(after.records)| == |after.records|;
    MaterializedCandidates(plan, outcomes, connector, sequences, sign, start, after);
    MaterializedOthers(plan, outcomes, connector, sequences, sign, after);
  }

  lemma MaterializedCandidates(plan: Plan, outcomes: seq<Outcome<ComputedMerge>>, connector: PeerId,
                               sequences: seq<nat>, sign: Signer, start: nat, after: Plan)
    requires Signs(sign) && |plan.merges| == |outcomes| && DrawnFrom(outcomes, sequences, start)
    requires GreatestSequence(plan, connector) <= start
    requires Expected(plan, outcomes, connector, sequences, sign, after)
    ensures forall k :: 0 <= k < |outcomes| ==>
              CandidateAgrees(after, plan.merges[k], outcomes[k], connector, GreatestSequence(plan, connector))
    ensures forall k :: 0 <= k < |outcomes| && outcomes[k].Success? ==>
              SequenceAt(after, plan.merges[k].path) == sequences[k]
  {
    forall k | 0 <= k < |outcomes|
      ensures CandidateAgrees(after, plan.merges[k], outcomes[k], connector, GreatestSequence(plan, connector))
      ensures outcomes[k].Success? ==> SequenceAt(after, plan.merges[k].path) == sequences[k]
    {
      var result := OutcomeRecord(plan.merges[k], outcomes[k], connector, sequences[k], sign);
      assert View(after, plan.merges[k].path) == (Some(result), OutcomeConflicts(plan.merges[k], outcomes[k], result));
      ExpectedAgrees(after, plan.merges[k], outcomes[k], connector, sequences[k], sign, GreatestSequence(plan, connector));
    }
  }

  lemma MaterializedOthers(plan: Plan, outcomes: seq<Outcome<ComputedMerge>>, connector: PeerId,
                           sequences: seq<nat>, sign: Signer, after: Plan)
    requires |plan.merges| == |outcomes| == |sequences|
    requires Expected(plan, outcomes, connector, sequences, sign, after)
    ensures forall q :: q in ByPath(plan.records) && q !in CandidatePaths(plan.merges) ==>
              View(after, q).0 == View(plan, q).0
  {
    forall q | q in ByPath(plan.records) && q !in CandidatePaths(plan.merges)
      ensures View(after, q).0 == View(plan, q).0
    {
      CandidatePathsIndex(plan.merges, q);
      assert View(after, q) == View(plan, q);
    }
  }

  /** Whatever the connector materializes from comparable snapshots, the responder, which
      reconciles them the other way round, accepts. */
  lemma ConnectorIsAccepted(env: Env, local: seq<Record>, remote: seq<Record>, connector: PeerId, sequences: seq<nat>,
                            sign: Signer, start: nat, diff: Differ, utf8: ThreeWay.Utf8)
    requires Signs(sign) && Faithful(env, diff, utf8) && AllComparable(local, remote)
    requires Outcomes(env, PlanOf(local, remote).merges).Done?
    requires DrawnFrom(Outcomes(env, PlanOf(local, remote).merges).value, sequences, start)
    requires GreatestSequence(PlanOf(local, remote), connector) <= start
    ensures var outcomes := Outcomes(env, PlanOf(local, remote).merges).value;
            var materialized := Materialized(PlanOf(local, remote), outcomes, connector, sequences, sign);
            materialized.Done? && Accepted(env, materialized.value, PlanOf(remote, local), connector)
  {
    var plan := PlanOf(local, remote);
    PlanWellShaped(local, remote);
    PlanSymmetric(local, remote);
    OutcomesAreSound(env, plan.merges, diff, utf8);
    MaterializedAgrees(plan, Outcomes(env, plan.merges).value, connector, sequences, sign, start);
    AgreesAccepted(env, Materialized(plan, Outcomes(env, plan.merges).value, connector, sequences, sign).value, plan, connector);
  }

  /** A record without its number and signatures. */
  function Erased(v: (Option<Record>, seq<Conflict>), merged: bool): Option<Record>
  {
    if v.0.Some? && merged then Some(Unsigned(v.0.value).(version := Unsigned(v.0.value).version.(sequence := 0))) else v.0
  }

  /** Any two accepted plans hold the same records, but for the numbers and signatures of
      the merges, and as many conflicts, at every reconciled path. */
  lemma AcceptedAlike(env: Env, x: Plan, y: Plan, expected: Plan, connector: PeerId, q: Path)
    requires WellShaped(expected) && Accepted(env, x, expected, connector) && Accepted(env, y, expected, connector)
    requires q in ByPath(expected.records)
    ensures var k := CandidateIndex(expected.merges, q);
            var outcomes := Outcomes(env, expected.merges).value;
            var merged := k < |outcomes| && outcomes[k].Success?;
            && Erased(View(x, q), merged) == Erased(View(y, q), merged)
            && |View(x, q).1| == |View(y, q).1|
            && (!merged ==> View(x, q) == View(y, q))
  {
    var outcomes := Outcomes(env, expected.merges).value;
    var k := CandidateIndex(expected.merges, q);
    AcceptedAgrees(env, x, expected, connector);
    AcceptedAgrees(env, y, expected, connector);
    CandidatePathsIndex(expected.merges, q);
    if k < |outcomes| {
      CandidateAlike(x, y, expected.merges[k], outcomes[k], connector, GreatestSequence(expected, connector));
    } else {
      assert View(x, q).0 == View(expected, q).0 == View(y, q).0;
      OrdinaryView(x.conflicts, CandidatePaths(expected.merges), q);
      OrdinaryView(y.conflicts, CandidatePaths(expected.merges), q);
    }
  }

  lemma CandidateAlike(x: Plan, y: Plan, c: MergeCandidate, outcome: Outcome<ComputedMerge>, connector: PeerId, greatest: nat)
    requires CandidateAgrees(x, c, outcome, connector, greatest) && CandidateAgrees(y, c, outcome, connector, greatest)
    ensures Erased(View(x, c.path), outcome.Success?) == Erased(View(y, c.path), outcome.Success?)
    ensures |View(x, c.path).1| == |View(y, c.path).1|
    ensures outcome.Failure? ==> View(x, c.path) == View(y, c.path)
  {
    var r, s := View(x, c.path).0.value, View(y, c.path).0.value;
    if outcome.Success? {
      var m := MergedEntry(outcome.value);
      assert MergedRecord(c, connector, r.version.sequence, m).version.(sequence := 0)
          == MergedRecord(c, connector, s.version.sequence, m).version.(sequence := 0);
    }
  }
}
