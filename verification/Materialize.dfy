/** Turning a plan's merge candidates into results: each candidate's record and conflict
    are replaced by a signed merge or a whole-file fallback, and the conflicts are put
    back in path order (src/sync.rs:2775-2819, 3208-3260). */
module Materialize {
  import opened Bytes
  import opened Model
  import opened Reconcile
  import opened Versions
  import opened Merge
  import opened RoundBudget
  import opened PlanLaws

  // ---------------------------------------------------------------- plan edits

  function ReplaceRecord(records: seq<Record>, p: Path, r: Record): Try<seq<Record>>
  {
    if records == [] then Bail
    else if records[0].path == p then Done([r] + records[1..])
    else
      var rest :- ReplaceRecord(records[1..], p, r);
      Done([records[0]] + rest)
  }

  function WithoutPath(conflicts: seq<Conflict>, p: Path): seq<Conflict>
  {
    if conflicts == [] then []
    else if conflicts[0].path == p then WithoutPath(conflicts[1..], p)
    else [conflicts[0]] + WithoutPath(conflicts[1..], p)
  }

  function FallbackConflict(c: MergeCandidate, reason: FallbackReason): Conflict
  {
    WholeFileConflict(c.winner, c.loser, reason).(base := Some(c.base))
  }

  /** What a candidate's path holds afterwards. */
  function OutcomeConflicts(c: MergeCandidate, outcome: Outcome<ComputedMerge>, result: Record): seq<Conflict>
  {
    match outcome
    case Success(m) => if m.hunks == [] then [] else [MergedConflict(c.base, c.winner, c.loser, result, m.hunks)]
    case Failure(reason) => [FallbackConflict(c, reason)]
  }

  function MergedEntry(m: ComputedMerge): Entry
  {
    File(m.hash, |m.bytes|, m.executable)
  }

  function OutcomeRecord(c: MergeCandidate, outcome: Outcome<ComputedMerge>, peer: PeerId, sequence: nat, sign: Signer): Record
  {
    match outcome
    case Success(m) => sign(MergedRecord(c, peer, sequence, MergedEntry(m)))
    case Failure(_) => c.winner
  }

  /** One candidate: a merge replaces its record, a fallback leaves it. */
  function ReplaceCandidate(plan: Plan, c: MergeCandidate, outcome: Outcome<ComputedMerge>, result: Record): Try<Plan>
  {
    var conflicts := WithoutPath(plan.conflicts, c.path) + OutcomeConflicts(c, outcome, result);
    if outcome.Success? then
      var records :- ReplaceRecord(plan.records, c.path, result);
      Done(plan.(records := records, conflicts := conflicts))
    else Done(plan.(conflicts := conflicts))
  }

  /** The plan after the first candidates, one per drawn number. */
  function ReplaceAll(plan: Plan, cs: seq<MergeCandidate>, outcomes: seq<Outcome<ComputedMerge>>, peer: PeerId,
                      sequences: seq<nat>, sign: Signer): Try<Plan>
    requires |sequences| <= |cs| == |outcomes|
    decreases |sequences|
  {
    var n := |sequences|;
    if n == 0 then Done(plan)
    else
      var before :- ReplaceAll(plan, cs, outcomes, peer, sequences[..n - 1], sign);
      ReplaceCandidate(before, cs[n - 1], outcomes[n - 1],
                       OutcomeRecord(cs[n - 1], outcomes[n - 1], peer, sequences[n - 1], sign))
  }

  function InsertConflict(conflicts: seq<Conflict>, c: Conflict): seq<Conflict>
  {
    if conflicts == [] || !Bytes.Less(conflicts[0].path, c.path) then [c] + conflicts
    else [conflicts[0]] + InsertConflict(conflicts[1..], c)
  }

  /** A stable sort by path. */
  function SortConflicts(conflicts: seq<Conflict>): seq<Conflict>
  {
    if conflicts == [] then [] else InsertConflict(SortConflicts(conflicts[1..]), conflicts[0])
  }

  /** The materialized plan, given the sequence numbers its merges drew. */
  function Materialized(plan: Plan, outcomes: seq<Outcome<ComputedMerge>>, peer: PeerId, sequences: seq<nat>, sign: Signer)
    : Try<Plan>
    requires |plan.merges| == |outcomes| == |sequences|
  {
    var replaced :- ReplaceAll(plan, plan.merges, outcomes, peer, sequences, sign);
    Done(replaced.(conflicts := SortConflicts(replaced.conflicts)))
  }

  /** Accepted merges drew increasing numbers above `start`. */
  predicate DrawnFrom(outcomes: seq<Outcome<ComputedMerge>>, sequences: seq<nat>, start: nat)
  {
    && |outcomes| == |sequences|
    && (forall k :: 0 <= k < |outcomes| && outcomes[k].Success? ==> start < sequences[k])
    && (forall j, k :: 0 <= j < k < |outcomes| && outcomes[j].Success? && outcomes[k].Success? ==>
          sequences[j] < sequences[k])
  }

  predicate CandidatesRecorded(plan: Plan)
  {
    forall k :: 0 <= k < |plan.merges| ==> plan.merges[k].path in PathsOf(plan.records)
  }

  lemma {:induction false} ReplaceRecordPaths(records: seq<Record>, p: Path, r: Record)
    requires r.path == p
    ensures ReplaceRecord(records, p, r).Done? <==> p in PathsOf(records)
    ensures ReplaceRecord(records, p, r).Done? ==> PathsOf(ReplaceRecord(records, p, r).value) == PathsOf(records)
  {
    if records != [] {
      assert records == [records[0]] + records[1..];
      if records[0].path == p {
        var all := [r] + records[1..];
        assert all[1..] == records[1..];
      } else {
        ReplaceRecordPaths(records[1..], p, r);
        if ReplaceRecord(records[1..], p, r).Done? {
          var all := [records[0]] + ReplaceRecord(records[1..], p, r).value;
          assert all[1..] == ReplaceRecord(records[1..], p, r).value;
        }
      }
    }
  }

  lemma OutcomeRecordPath(c: MergeCandidate, outcome: Outcome<ComputedMerge>, peer: PeerId, sequence: nat, sign: Signer)
    requires Signs(sign)
    ensures OutcomeRecord(c, outcome, peer, sequence, sign).path == c.winner.path
  {
  }

  lemma ReplaceCandidateTotal(plan: Plan, c: MergeCandidate, outcome: Outcome<ComputedMerge>, result: Record)
    requires result.path == c.path
    ensures var r := ReplaceCandidate(plan, c, outcome, result);
            && (c.path in PathsOf(plan.records) ==> r.Done?)
            && (r.Done? ==> PathsOf(r.value.records) == PathsOf(plan.records) && r.value.merges == plan.merges)
  {
    ReplaceRecordPaths(plan.records, c.path, result);
  }

  method ReplaceCandidates(share: SequenceSource, plan0: Plan, outcomes: seq<Outcome<ComputedMerge>>, peer: PeerId, sign: Signer)
    returns (r: Try<Plan>, ghost sequences: seq<nat>)
    requires Signs(sign) && |outcomes| == |plan0.merges|
    requires forall c :: c in plan0.merges ==> c.path == c.winner.path
    modifies share
    ensures CandidatesRecorded(plan0) ==> r.Done?
    ensures r.Done? ==>
              && |sequences| == |outcomes| && Drawn(outcomes, sequences, old(share.last), share.last)
              && r == ReplaceAll(plan0, plan0.merges, outcomes, peer, sequences, sign)
  {
    sequences := [];
    var plan := plan0;
    for k := 0 to |outcomes|
      invariant old(share.last) <= share.last
      invariant |sequences| == k && Drawn(outcomes, sequences, old(share.last), share.last)
      invariant ReplaceAll(plan0, plan0.merges, outcomes, peer, sequences, sign) == Done(plan)
      invariant PathsOf(plan.records) == PathsOf(plan0.records) && plan.merges == plan0.merges
    {
      var next;
      next, sequences := MaterializeOne(share, plan0, plan, outcomes, peer, sequences, sign, k, old(share.last));
      if next.Bail? {
        return Bail, sequences;
      }
      plan := next.value;
    }
    r := Done(plan);
  }

  /** `materialize_merges`: draws one number per accepted merge and edits the plan
      candidate by candidate. It fails only for a missing object, a non-file candidate or
      a candidate without a record. */
  method MaterializeMerges(share: SequenceSource, env: Env, plan0: Plan, peer: PeerId, sign: Signer)
    returns (r: Try<Plan>, ghost sequences: seq<nat>)
    requires Signs(sign)
    requires forall c :: c in plan0.merges ==> c.path == c.winner.path
    modifies share
    ensures r.Done? ==>
              && Outcomes(env, plan0.merges).Done?
              && DrawnFrom(Outcomes(env, plan0.merges).value, sequences, old(share.last))
              && r == Materialized(plan0, Outcomes(env, plan0.merges).value, peer, sequences, sign)
    ensures CandidatesRecorded(plan0) && Outcomes(env, plan0.merges).Done? ==> r.Done?
  {
    sequences := [];
    var outcomes :- ComputeMergeOutcomes(env, plan0.merges);
    var replaced;
    replaced, sequences := ReplaceCandidates(share, plan0, outcomes, peer, sign);
    if replaced.Bail? {
      return Bail, sequences;
    }
    r := Done(replaced.value.(conflicts := SortConflicts(replaced.value.conflicts)));
  }

  /** The numbers drawn so far lie above `start` and up to the counter. */
  predicate Drawn(outcomes: seq<Outcome<ComputedMerge>>, sequences: seq<nat>, start: nat, last: nat)
  {
    && |sequences| <= |outcomes|
    && (forall k :: 0 <= k < |sequences| && outcomes[k].Success? ==> start < sequences[k] <= last)
    && (forall j, k :: 0 <= j < k < |sequences| && outcomes[j].Success? && outcomes[k].Success? ==>
          sequences[j] < sequences[k])
  }

  lemma ReplaceAllNext(plan0: Plan, plan: Plan, cs: seq<MergeCandidate>, outcomes: seq<Outcome<ComputedMerge>>,
                       peer: PeerId, sequences: seq<nat>, sequence: nat, sign: Signer)
    requires |sequences| < |cs| == |outcomes|
    requires ReplaceAll(plan0, cs, outcomes, peer, sequences, sign) == Done(plan)
    ensures var n := |sequences|;
            ReplaceAll(plan0, cs, outcomes, peer, sequences + [sequence], sign)
            == ReplaceCandidate(plan, cs[n], outcomes[n], OutcomeRecord(cs[n], outcomes[n], peer, sequence, sign))
  {
    var all := sequences + [sequence];
    assert all[..|sequences|] == sequences && all[|sequences|] == sequence;
  }

  lemma DrawnNext(outcomes: seq<Outcome<ComputedMerge>>, sequences: seq<nat>, sequence: nat, start: nat, last: nat, last': nat)
    requires |sequences| < |outcomes| && Drawn(outcomes, sequences, start, last) && start <= last <= last'
    requires outcomes[|sequences|].Success? ==> last < sequence == last'
    ensures Drawn(outcomes, sequences + [sequence], start, last')
  {
  }

  method MaterializeOne(share: SequenceSource, ghost plan0: Plan, plan: Plan, outcomes: seq<Outcome<ComputedMerge>>,
                        peer: PeerId, ghost sequences: seq<nat>, sign: Signer, k: nat, ghost start: nat)
    returns (next: Try<Plan>, ghost sequences': seq<nat>)
    requires Signs(sign) && k == |sequences| < |outcomes| == |plan0.merges| && start <= share.last
    requires plan.merges == plan0.merges && plan0.merges[k].path == plan0.merges[k].winner.path
    requires Drawn(outcomes, sequences, start, share.last)
    requires ReplaceAll(plan0, plan0.merges, outcomes, peer, sequences, sign) == Done(plan)
    modifies share
    ensures old(share.last) <= share.last
    ensures |sequences'| == k + 1 && Drawn(outcomes, sequences', start, share.last)
    ensures ReplaceAll(plan0, plan0.merges, outcomes, peer, sequences', sign) == next
    ensures plan0.merges[k].path in PathsOf(plan.records) ==> next.Done?
    ensures next.Done? ==> PathsOf(next.value.records) == PathsOf(plan.records) && next.value.merges == plan.merges
  {
    var sequence := 0;
    if outcomes[k].Success? {
      sequence := share.Next();
    }
    var result := OutcomeRecord(plan.merges[k], outcomes[k], peer, sequence, sign);
    next := ReplaceCandidate(plan, plan.merges[k], outcomes[k], result);
    sequences' := sequences + [sequence];
    ReplaceAllNext(plan0, plan, plan0.merges, outcomes, peer, sequences, sequence, sign);
    DrawnNext(outcomes, sequences, sequence, start, old(share.last), share.last);
    OutcomeRecordPath(plan.merges[k], outcomes[k], peer, sequence, sign);
    ReplaceCandidateTotal(plan, plan.merges[k], outcomes[k], result);
  }
}
