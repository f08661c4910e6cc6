/** What the responder has accepted, said field by field: the record and the conflict of
    every merge candidate, and what the first check alone promises
    (src/sync.rs:2775-3039). */
module AcceptedLaws {
  import opened Utils
  import opened Bytes
  import opened Model
  import opened Reconcile
  import opened Versions
  import opened Merge
  import opened RoundBudget
  import opened PlanLaws
  import opened Materialize
  import opened MaterializeLaws
  import opened Validate
  import opened ValidateLaws
  import Scan

  // ---------------------------------------------------------------- what is said of a merge

  /** A version knows exactly what both of the others knew, and them. */
  ghost predicate KnowsBoth(v: Version, x: Version, y: Version)
  {
    forall id: VersionId ::
      Knows(v, id) <==> Knows(x, id) || Knows(y, id) || (x.peer == id.peer && x.sequence >= id.sequence)
                        || (y.peer == id.peer && y.sequence >= id.sequence)
  }

  /** A record of the connector that merges the two versions of a candidate. */
  ghost predicate Merges(r: Record, c: MergeCandidate, connector: PeerId)
  {
    var v, w, l := r.version, c.winner.version, c.loser.version;
    && r.path == c.winner.path && v.peer == connector
    && v.timestamp == (if w.timestamp > l.timestamp then w.timestamp else l.timestamp)
    && v.mergeBase == Some(c.base) && KnowsBoth(v, w, l)
    && v.idAuthenticator != None && v.versionAuthenticator != None && v.baseAuthenticator != None
  }

  lemma UnsignedMerges(r: Record, c: MergeCandidate, connector: PeerId, sequence: nat, entry: Entry)
    requires Unsigned(r) == MergedRecord(c, connector, sequence, entry) && Signed(r)
    ensures Merges(r, c, connector) && r.version.entry == entry && r.version.sequence == sequence
  {
    var v, w, l := r.version, c.winner.version, c.loser.version;
    assert v.seen == MergedRecord(c, connector, sequence, entry).version.seen;
    forall id: VersionId
      ensures Knows(v, id) <==> Knows(w, id) || Knows(l, id) || (w.peer == id.peer && w.sequence >= id.sequence)
                                || (l.peer == id.peer && l.sequence >= id.sequence)
    {
      MergedSees(c, connector, sequence, entry, id.peer, id.sequence);
      Scan.KnowsIsListed(v.seen, id);
      Scan.KnowsIsListed(w.seen, id);
      Scan.KnowsIsListed(l.seen, id);
    }
  }

  /** The inputs are the two versions, in the order of their identities. */
  predicate InputsOf(conflict: Conflict, c: MergeCandidate)
  {
    var x, y := conflict.input0, conflict.input1;
    && ((x == c.winner && y == c.loser) || (x == c.loser && y == c.winner))
    && (Bytes.Less(x.version.peer, y.version.peer)
        || (x.version.peer == y.version.peer && x.version.sequence <= y.version.sequence))
  }

  /** What is reported of a candidate: nothing when its sides merged without overlap, the
      overlaps with both versions and the merge, or that the later version was kept whole. */
  predicate Reports(conflicts: seq<Conflict>, c: MergeCandidate, outcome: Outcome<ComputedMerge>, r: Record)
  {
    match outcome
    case Success(m) =>
      if m.hunks == [] then conflicts == []
      else
        && |conflicts| == 1 && conflicts[0].path == c.path && conflicts[0].resolution == MergedWithOverlaps
        && conflicts[0].base == Some(c.base) && InputsOf(conflicts[0], c)
        && conflicts[0].merged == Some(r) && conflicts[0].hunks == m.hunks
    case Failure(reason) =>
      && |conflicts| == 1 && conflicts[0].path == c.path && conflicts[0].base == Some(c.base)
      && InputsOf(conflicts[0], c) && conflicts[0].merged == None && conflicts[0].hunks == []
      && conflicts[0].resolution.WholeFile? && conflicts[0].resolution.reason == reason
      && (if conflicts[0].resolution.winner == 0 then conflicts[0].input0 else conflicts[0].input1) == c.winner
  }

  lemma InputsAreOrdered(x: Record, y: Record)
    ensures var (i0, i1, w) := CanonicalInputs(x, y);
            && (if w == 0 then i0 == x && i1 == y else w == 1 && i0 == y && i1 == x)
            && (Bytes.Less(i0.version.peer, i1.version.peer)
                || (i0.version.peer == i1.version.peer && i0.version.sequence <= i1.version.sequence))
  {
    LessTotal(x.version.peer, y.version.peer);
    LessIrreflexive(x.version.peer);
  }

  lemma OutcomeIsReported(c: MergeCandidate, outcome: Outcome<ComputedMerge>, r: Record)
    requires c.path == c.winner.path
    ensures Reports(OutcomeConflicts(c, outcome, r), c, outcome, r)
  {
    InputsAreOrdered(c.winner, c.loser);
  }

  // ---------------------------------------------------------------- numbers

  lemma {:induction false} GreatestCovers(records: seq<Record>, peer: PeerId, r: Record)
    requires r in records && r.version.peer == peer
    ensures r.version.sequence <= Greatest(records, peer)
  {
    if records[0] != r {
      assert r in records[1..];
      GreatestCovers(records[1..], peer, r);
    }
  }

  lemma {:induction false} InputsListed(cs: seq<MergeCandidate>, k: nat)
    requires k < |cs|
    ensures cs[k].winner in CandidateInputs(cs) && cs[k].loser in CandidateInputs(cs)
  {
    if k > 0 {
      InputsListed(cs[1..], k - 1);
    }
  }

  /** A number is above all numbers of the peer that the plan knows. */
  ghost predicate Above(number: nat, plan: Plan, peer: PeerId)
  {
    && (forall r :: r in plan.records && r.version.peer == peer ==> r.version.sequence < number)
    && (forall c :: c in plan.merges ==>
          && (c.winner.version.peer == peer ==> c.winner.version.sequence < number)
          && (c.loser.version.peer == peer ==> c.loser.version.sequence < number))
  }

  lemma AboveGreatest(plan: Plan, peer: PeerId, number: nat)
    requires number > GreatestSequence(plan, peer)
    ensures Above(number, plan, peer)
  {
    var all := plan.records + CandidateInputs(plan.merges);
    forall r | r in plan.records && r.version.peer == peer
      ensures r.version.sequence < number
    {
      GreatestCovers(all, peer, r);
    }
    forall c | c in plan.merges
      ensures c.winner.version.peer == peer ==> c.winner.version.sequence < number
      ensures c.loser.version.peer == peer ==> c.loser.version.sequence < number
    {
      var k :| 0 <= k < |plan.merges| && plan.merges[k] == c;
      InputsListed(plan.merges, k);
      if c.winner.version.peer == peer {
        GreatestCovers(all, peer, c.winner);
      }
      if c.loser.version.peer == peer {
        GreatestCovers(all, peer, c.loser);
      }
    }
  }

  // ---------------------------------------------------------------- what is accepted

  /** The proposal holds at a candidate's path its outcome, and reports it. */
  ghost predicate HoldsOutcome(proposed: Plan, expected: Plan, c: MergeCandidate, outcome: Outcome<ComputedMerge>, connector: PeerId)
  {
    var m := ByPath(proposed.records);
    && c.path in m && Reports(ConflictsOf(proposed.conflicts, c.path), c, outcome, m[c.path])
    && match outcome
       case Failure(_) => m[c.path] == c.winner
       case Success(x) =>
         && Merges(m[c.path], c, connector) && Above(m[c.path].version.sequence, expected, connector)
         && m[c.path].version.entry == File(x.hash, |x.bytes|, x.executable)
  }

  lemma AgreesMeans(proposed: Plan, expected: Plan, outcomes: seq<Outcome<ComputedMerge>>, connector: PeerId, k: nat)
    requires WellShaped(expected) && |expected.merges| == |outcomes| && k < |outcomes|
    requires Agrees(proposed, expected, outcomes, connector)
    ensures HoldsOutcome(proposed, expected, expected.merges[k], outcomes[k], connector)
  {
    var c := expected.merges[k];
    assert CandidateOk(expected, c) && CandidateAgrees(proposed, c, outcomes[k], connector, GreatestSequence(expected, connector));
    var r := View(proposed, c.path).0.value;
    OutcomeIsReported(c, outcomes[k], r);
    if outcomes[k].Success? {
      UnsignedMerges(r, c, connector, r.version.sequence, MergedEntry(outcomes[k].value));
      AboveGreatest(expected, connector, r.version.sequence);
    }
  }

  /** Whatever plan the responder accepts: every candidate's path holds the outcome that
      the responder computes itself, as a version of the connector with a number of its own
      that is above all that are known, and every other path is as reconciled. */
  lemma AcceptedMeans(env: Env, proposed: Plan, expected: Plan, connector: PeerId)
    requires WellShaped(expected) && Accepted(env, proposed, expected, connector)
    ensures var outcomes := Outcomes(env, expected.merges).value;
            && (forall k :: 0 <= k < |outcomes| ==> HoldsOutcome(proposed, expected, expected.merges[k], outcomes[k], connector))
            && (forall j, k :: 0 <= j < k < |outcomes| && outcomes[j].Success? && outcomes[k].Success? ==>
                  NumbersApart(proposed, expected.merges[j].path, expected.merges[k].path))
            && (forall q :: (forall c :: c in expected.merges ==> c.path != q) ==> SameAt(proposed, expected, q))
  {
    var outcomes := Outcomes(env, expected.merges).value;
    AcceptedAgrees(env, proposed, expected, connector);
    forall k | 0 <= k < |outcomes|
      ensures HoldsOutcome(proposed, expected, expected.merges[k], outcomes[k], connector)
    {
      AgreesMeans(proposed, expected, outcomes, connector, k);
    }
    forall j, k | 0 <= j < k < |outcomes| && outcomes[j].Success? && outcomes[k].Success?
      ensures NumbersApart(proposed, expected.merges[j].path, expected.merges[k].path)
    {
      assert HoldsOutcome(proposed, expected, expected.merges[j], outcomes[j], connector);
      assert HoldsOutcome(proposed, expected, expected.merges[k], outcomes[k], connector);
    }
    forall q | forall c :: c in expected.merges ==> c.path != q
      ensures SameAt(proposed, expected, q)
    {
      OthersAgree(proposed, expected, outcomes, connector, q);
    }
  }

  /** And what the connector materializes holds them too. */
  lemma MaterializedMeans(plan: Plan, outcomes: seq<Outcome<ComputedMerge>>, connector: PeerId, sequences: seq<nat>,
                          sign: Signer, start: nat, k: nat)
    requires Signs(sign) && WellShaped(plan) && |plan.merges| == |outcomes| && DrawnFrom(outcomes, sequences, start)
    requires GreatestSequence(plan, connector) <= start && k < |outcomes|
    ensures var done := Materialized(plan, outcomes, connector, sequences, sign);
            done.Done? && HoldsOutcome(done.value, plan, plan.merges[k], outcomes[k], connector)
  {
    MaterializedAgrees(plan, outcomes, connector, sequences, sign, start);
    AgreesMeans(Materialized(plan, outcomes, connector, sequences, sign).value, plan, outcomes, connector, k);
  }

  predicate NumbersApart(plan: Plan, p: Path, q: Path)
  {
    var m := ByPath(plan.records);
    p in m && q in m && m[p].version.sequence != m[q].version.sequence
  }

  predicate SameAt(x: Plan, y: Plan, q: Path)
  {
    var m, n := ByPath(x.records), ByPath(y.records);
    && (q in m <==> q in n) && (q in m ==> m[q] == n[q])
    && ConflictsOf(x.conflicts, q) == ConflictsOf(y.conflicts, q)
  }

  lemma OthersAgree(proposed: Plan, expected: Plan, outcomes: seq<Outcome<ComputedMerge>>, connector: PeerId, q: Path)
    requires WellShaped(expected) && |expected.merges| == |outcomes| && Agrees(proposed, expected, outcomes, connector)
    requires forall c :: c in expected.merges ==> c.path != q
    ensures SameAt(proposed, expected, q)
  {
    var candidates := CandidatePaths(expected.merges);
    assert q !in candidates;
    OrdinaryView(proposed.conflicts, candidates, q);
    OrdinaryView(expected.conflicts, candidates, q);
    AgreedPaths(proposed, expected, outcomes, connector, q);
  }

  lemma AgreedPaths(proposed: Plan, expected: Plan, outcomes: seq<Outcome<ComputedMerge>>, connector: PeerId, q: Path)
    requires WellShaped(expected) && |expected.merges| == |outcomes| && Agrees(proposed, expected, outcomes, connector)
    requires q !in CandidatePaths(expected.merges)
    ensures q in ByPath(proposed.records) <==> q in ByPath(expected.records)
    ensures q in ByPath(proposed.records) ==> ByPath(proposed.records)[q] == ByPath(expected.records)[q]
  {
    AgreesPaths(proposed, expected, outcomes, connector);
    forall k | 0 <= k < |expected.records|
      ensures expected.records[k].path in ByPath(proposed.records)
    {
      ListedOnce(expected.records, expected.records[k]);
    }
    SamePathsUnique(expected.records, proposed.records);
    if q in ByPath(expected.records) {
      assert View(proposed, q).0 == View(expected, q).0;
    }
  }

  /** What a plan reports at a path: every conflict there, as often as it is listed. */
  lemma {:induction false} ReportedOnce(conflicts: seq<Conflict>, p: Path, c: Conflict)
    ensures multiset(ConflictsOf(conflicts, p))[c] == if c.path == p then multiset(conflicts)[c] else 0
  {
    if conflicts != [] {
      ReportedOnce(conflicts[1..], p, c);
      assert conflicts == [conflicts[0]] + conflicts[1..];
    }
  }

  // ---------------------------------------------------------------- the first check alone

  /** A path that the plan's own reconciliation offers as a merge. */
  predicate Offered(expected: Plan, c: MergeCandidate, p: Path)
  {
    c in expected.merges && c.path == p
  }

  predicate KeptWhole(proposed: Plan, p: Path)
  {
    exists x :: x in proposed.conflicts && x.path == p && x.resolution.WholeFile?
  }

  /** Before any contents are looked at: a reconciled record is there, and it is unchanged,
      or the winner of a merge that fell back, or a fresh version of the connector of the
      winner's mode and at most the permitted size. */
  lemma ShapeMeans(proposed: Plan, expected: Plan, connector: PeerId, e: Record)
    requires WellShaped(expected) && ShapeOk(proposed, expected, connector) && e in expected.records
    ensures var m := ByPath(proposed.records);
            && e.path in m
            && ((forall c :: !Offered(expected, c, e.path)) ==> m[e.path] == e)
            && (forall c :: Offered(expected, c, e.path) ==>
                  && (KeptWhole(proposed, e.path) ==> m[e.path] == c.winner)
                  && (!KeptWhole(proposed, e.path) ==>
                        && Merges(m[e.path], c, connector) && Above(m[e.path].version.sequence, expected, connector)
                        && m[e.path].version.entry.File? && c.winner.version.entry.File?
                        && m[e.path].version.entry.executable == c.winner.version.entry.executable
                        && m[e.path].version.entry.size <= MAX_OUTPUT_BYTES))
  {
    assert RecordShapeOk(proposed, expected, connector, GreatestSequence(expected, connector), e);
    var k := CandidateIndex(expected.merges, e.path);
    forall c | Offered(expected, c, e.path)
      ensures k < |expected.merges| && expected.merges[k] == c
    {
      var i :| 0 <= i < |expected.merges| && expected.merges[i] == c;
      CandidateIndexIs(expected.merges, i);
    }
    if k < |expected.merges| {
      assert Offered(expected, expected.merges[k], e.path);
      WholeIsKept(proposed, e.path);
      var r := ByPath(proposed.records)[e.path];
      if !KeptWhole(proposed, e.path) {
        UnsignedMerges(r, expected.merges[k], connector, r.version.sequence, r.version.entry);
        AboveGreatest(expected, connector, r.version.sequence);
      }
    }
  }

  lemma WholeIsKept(proposed: Plan, p: Path)
    ensures WholeFileAt(proposed.conflicts, p) <==> KeptWhole(proposed, p)
  {
    if x :| x in proposed.conflicts && x.path == p && x.resolution.WholeFile? {
      var k :| 0 <= k < |proposed.conflicts| && proposed.conflicts[k] == x;
    }
  }

  ghost predicate Counted(proposed: Plan, expected: Plan, p: Path)
  {
    (exists c :: Offered(expected, c, p)) && !KeptWhole(proposed, p)
  }

  /** The bytes of the proposed merges add up, each counted once. */
  lemma {:induction false} BytesAdd(proposed: Plan, expected: Plan, x: seq<Record>, y: seq<Record>)
    ensures MergedBytes(proposed, expected, x + y) == MergedBytes(proposed, expected, x) + MergedBytes(proposed, expected, y)
  {
    if y == [] {
      assert x + y == x;
    } else {
      var n := |y| - 1;
      assert (x + y)[..|x + y| - 1] == x + y[..n] && (x + y)[|x + y| - 1] == y[n];
      BytesAdd(proposed, expected, x, y[..n]);
    }
  }

  /** Each counts with its size when it is proposed as a merge, and with nothing else. */
  lemma BytesOfOne(proposed: Plan, expected: Plan, e: Record)
    ensures var m := ByPath(proposed.records);
            MergedBytes(proposed, expected, [e])
            == if Counted(proposed, expected, e.path) && e.path in m && m[e.path].version.entry.File?
               then m[e.path].version.entry.size else 0
  {
    WholeIsKept(proposed, e.path);
    var k := CandidateIndex(expected.merges, e.path);
    if k < |expected.merges| {
      assert Offered(expected, expected.merges[k], e.path);
    }
    assert [e][..0] == [];
  }

  /** All of them together keep the limit of a round, no two have one number, and a
      candidate is reported at most once, with its base and both its versions. */
  lemma ShapeLimits(proposed: Plan, expected: Plan, connector: PeerId)
    requires WellShaped(expected) && ShapeOk(proposed, expected, connector)
    ensures MergedBytes(proposed, expected, expected.records) <= MAX_ROUND_BYTES
    ensures |proposed.records| == |expected.records| && proposed.merges == expected.merges
    ensures forall c :: c in expected.merges ==> ReportedAtMostOnce(proposed, c)
    ensures forall i, j ::
              (0 <= i < j < |expected.merges|
               && !KeptWhole(proposed, expected.merges[i].path) && !KeptWhole(proposed, expected.merges[j].path)) ==>
                NumbersApart(proposed, expected.merges[i].path, expected.merges[j].path)
  {
    forall c | c in expected.merges
      ensures ReportedAtMostOnce(proposed, c)
    {
      var k :| 0 <= k < |expected.merges| && expected.merges[k] == c;
      assert CandidateConflictsOk(proposed, expected.merges[k]);
    }
    forall i, j | 0 <= i < j < |expected.merges|
        && !KeptWhole(proposed, expected.merges[i].path) && !KeptWhole(proposed, expected.merges[j].path)
      ensures NumbersApart(proposed, expected.merges[i].path, expected.merges[j].path)
    {
      ProposedApart(proposed, expected, connector, i, j);
    }
  }

  predicate ReportedAtMostOnce(proposed: Plan, c: MergeCandidate)
  {
    var cs := ConflictsOf(proposed.conflicts, c.path);
    && |cs| <= 1
    && (cs != [] ==> cs[0].base == Some(c.base)
                     && (c.winner == cs[0].input0 || c.winner == cs[0].input1) && (c.loser == cs[0].input0 || c.loser == cs[0].input1))
  }

  lemma ProposedApart(proposed: Plan, expected: Plan, connector: PeerId, i: nat, j: nat)
    requires WellShaped(expected) && ShapeOk(proposed, expected, connector) && i < j < |expected.merges|
    requires !KeptWhole(proposed, expected.merges[i].path) && !KeptWhole(proposed, expected.merges[j].path)
    ensures NumbersApart(proposed, expected.merges[i].path, expected.merges[j].path)
  {
    CandidateIndexIs(expected.merges, i);
    CandidateIndexIs(expected.merges, j);
    WholeIsKept(proposed, expected.merges[i].path);
    WholeIsKept(proposed, expected.merges[j].path);
    NumbersDiffer(proposed, expected, connector, i, j);
    AcceptedUnique(proposed, expected, connector);
    var x := CandidateRecord(expected, i);
    var y := CandidateRecord(expected, j);
    ListedOnce(expected.records, expected.records[x]);
    ListedOnce(expected.records, expected.records[y]);
  }
}
