/** The responder's two checks of a materialized plan: its shape against the plan it
    computes itself, and its merge results against its own merges
    (src/sync.rs:2843-3039). */
module Validate {
  import opened Utils
  import opened Bytes
  import opened Model
  import opened Reconcile
  import opened Versions
  import opened Merge
  import opened RoundBudget
  import opened PlanLaws
  import opened Materialize
  import opened MaterializeLaws

  // ---------------------------------------------------------------- the shape

  function Greatest(records: seq<Record>, peer: PeerId): nat
  {
    if records == [] then 0
    else
      var rest := Greatest(records[1..], peer);
      if records[0].version.peer == peer && records[0].version.sequence > rest then records[0].version.sequence else rest
  }

  function CandidateInputs(cs: seq<MergeCandidate>): seq<Record>
  {
    if cs == [] then [] else [cs[0].winner, cs[0].loser] + CandidateInputs(cs[1..])
  }

  /** The latest version of the connector that the plan knows. */
  function GreatestSequence(plan: Plan, connector: PeerId): nat
  {
    Greatest(plan.records + CandidateInputs(plan.merges), connector)
  }

  lemma {:induction false} GreatestBounds(records: seq<Record>, peer: PeerId, bound: nat)
    requires forall r :: r in records && r.version.peer == peer ==> r.version.sequence <= bound
    ensures Greatest(records, peer) <= bound
  {
    if records != [] {
      assert records[0] in records;
      GreatestBounds(records[1..], peer, bound);
    }
  }

  function CandidatePaths(cs: seq<MergeCandidate>): set<Path>
  {
    set k | 0 <= k < |cs| :: cs[k].path
  }

  /** The place of a path's candidate, or their number. */
  function CandidateIndex(cs: seq<MergeCandidate>, p: Path): (k: nat)
    ensures k <= |cs| && (k < |cs| ==> cs[k].path == p)
    ensures k == |cs| ==> forall i :: 0 <= i < |cs| ==> cs[i].path != p
  {
    if cs == [] then 0 else if cs[0].path == p then 0 else 1 + CandidateIndex(cs[1..], p)
  }

  predicate WholeFileAt(conflicts: seq<Conflict>, p: Path)
  {
    exists k :: 0 <= k < |conflicts| && conflicts[k].path == p && conflicts[k].resolution.WholeFile?
  }

  /** A record without its authenticators. */
  function Unsigned(r: Record): Record
  {
    r.(version := r.version.(idAuthenticator := None, versionAuthenticator := None, baseAuthenticator := None))
  }

  predicate Signed(r: Record)
  {
    r.version.idAuthenticator.Some? && r.version.versionAuthenticator.Some? && r.version.baseAuthenticator.Some?
  }

  predicate MergedShapeOk(r: Record, c: MergeCandidate, connector: PeerId)
  {
    && r.version.entry.File? && c.winner.version.entry.File?
    && r.version.entry.executable == c.winner.version.entry.executable
    && Unsigned(r) == MergedRecord(c, connector, r.version.sequence, r.version.entry)
  }

  predicate FreshlySigned(r: Record, greatest: nat)
    requires r.version.entry.File?
  {
    r.version.sequence > greatest && Signed(r) && r.version.entry.size <= MAX_OUTPUT_BYTES
  }

  /** The reconciled path `p` is proposed as a merge. */
  predicate ProposesMerge(proposed: Plan, expected: Plan, p: Path)
  {
    CandidateIndex(expected.merges, p) < |expected.merges| && !WholeFileAt(proposed.conflicts, p)
  }

  predicate RecordShapeOk(proposed: Plan, expected: Plan, connector: PeerId, greatest: nat, e: Record)
  {
    var m := ByPath(proposed.records);
    var k := CandidateIndex(expected.merges, e.path);
    && e.path in m
    && if k == |expected.merges| then m[e.path] == e
       else if WholeFileAt(proposed.conflicts, e.path) then m[e.path] == expected.merges[k].winner
       else MergedShapeOk(m[e.path], expected.merges[k], connector) && FreshlySigned(m[e.path], greatest)
  }

  function SequenceAt(proposed: Plan, p: Path): nat
  {
    if p in ByPath(proposed.records) then ByPath(proposed.records)[p].version.sequence else 0
  }

  function SizeAt(proposed: Plan, p: Path): nat
  {
    if p in ByPath(proposed.records) && ByPath(proposed.records)[p].version.entry.File?
    then ByPath(proposed.records)[p].version.entry.size else 0
  }

  /** The bytes of all proposed merges among some reconciled records. */
  function MergedBytes(proposed: Plan, expected: Plan, records: seq<Record>): nat
  {
    if records == [] then 0
    else
      MergedBytes(proposed, expected, records[..|records| - 1])
      + var p := records[|records| - 1].path;
        if ProposesMerge(proposed, expected, p) then SizeAt(proposed, p) else 0
  }

  predicate DistinctMerges(proposed: Plan, expected: Plan, records: seq<Record>)
  {
    forall i, j ::
      (0 <= i < j < |records| && ProposesMerge(proposed, expected, records[i].path)
       && ProposesMerge(proposed, expected, records[j].path)) ==>
        SequenceAt(proposed, records[i].path) != SequenceAt(proposed, records[j].path)
  }

  predicate CandidateConflictsOk(proposed: Plan, c: MergeCandidate)
  {
    var cs := ConflictsOf(proposed.conflicts, c.path);
    |cs| <= 1 && (cs != [] ==> cs[0].base == Some(c.base) && cs[0].HasInput(c.winner) && cs[0].HasInput(c.loser))
  }

  /** The records of the reconciled plan, checked one by one. */
  predicate RecordsOk(proposed: Plan, expected: Plan, connector: PeerId, records: seq<Record>)
  {
    && (forall k :: 0 <= k < |records| ==>
          RecordShapeOk(proposed, expected, connector, GreatestSequence(expected, connector), records[k]))
    && DistinctMerges(proposed, expected, records)
    && MergedBytes(proposed, expected, records) <= MAX_ROUND_BYTES
  }

  predicate ShapeOk(proposed: Plan, expected: Plan, connector: PeerId)
  {
    && proposed.merges == expected.merges
    && RecordsOk(proposed, expected, connector, expected.records)
    && |proposed.records| == |expected.records|
    && Ordinary(proposed.conflicts, CandidatePaths(expected.merges))
       == Ordinary(expected.conflicts, CandidatePaths(expected.merges))
    && (forall k :: 0 <= k < |expected.merges| ==> CandidateConflictsOk(proposed, expected.merges[k]))
  }

  /** The sequence numbers of the merges met so far. */
  ghost function MergeSequences(proposed: Plan, expected: Plan, records: seq<Record>): set<nat>
  {
    set k | 0 <= k < |records| && ProposesMerge(proposed, expected, records[k].path) :: SequenceAt(proposed, records[k].path)
  }

  /** One reconciled record; the accumulators are the numbers and bytes met so far. */
  method CheckRecord(proposed: Plan, expected: Plan, connector: PeerId, greatest: nat, ghost before: seq<Record>, e: Record,
                     sequences: set<nat>, bytes: nat)
    returns (ok: bool, sequences': set<nat>, bytes': nat)
    requires greatest == GreatestSequence(expected, connector)
    requires RecordsOk(proposed, expected, connector, before)
    requires sequences == MergeSequences(proposed, expected, before)
    requires bytes == MergedBytes(proposed, expected, before)
    ensures ok <==> RecordsOk(proposed, expected, connector, before + [e])
    ensures ok ==> sequences' == MergeSequences(proposed, expected, before + [e])
    ensures ok ==> bytes' == MergedBytes(proposed, expected, before + [e])
  {
    RecordsNext(proposed, expected, connector, before, e);
    SequencesNext(proposed, expected, before, e);
    sequences', bytes' := sequences, bytes;
    ok := RecordShapeOk(proposed, expected, connector, greatest, e);
    if ok && ProposesMerge(proposed, expected, e.path) {
      var sequence := SequenceAt(proposed, e.path);
      bytes' := SaturatingAdd(bytes, SizeAt(proposed, e.path));
      ok := sequence !in sequences && bytes' <= MAX_ROUND_BYTES;
      sequences' := sequences + {sequence};
    }
  }

  lemma RecordsNext(proposed: Plan, expected: Plan, connector: PeerId, before: seq<Record>, e: Record)
    requires RecordsOk(proposed, expected, connector, before)
    ensures var bytes := MergedBytes(proposed, expected, before);
            && MergedBytes(proposed, expected, before + [e])
               == bytes + (if ProposesMerge(proposed, expected, e.path) then SizeAt(proposed, e.path) else 0)
            && (RecordsOk(proposed, expected, connector, before + [e])
                <==> RecordShapeOk(proposed, expected, connector, GreatestSequence(expected, connector), e)
                     && (ProposesMerge(proposed, expected, e.path) ==>
                           SequenceAt(proposed, e.path) !in MergeSequences(proposed, expected, before)
                           && bytes + SizeAt(proposed, e.path) <= MAX_ROUND_BYTES))
  {
    var after := before + [e];
    assert after[..|before|] == before && after[|before|] == e;
    assert forall k :: 0 <= k < |before| ==> after[k] == before[k];
    if ProposesMerge(proposed, expected, e.path) {
      DistinctNext(proposed, expected, before, e);
    }
  }

  lemma DistinctNext(proposed: Plan, expected: Plan, before: seq<Record>, e: Record)
    requires DistinctMerges(proposed, expected, before) && ProposesMerge(proposed, expected, e.path)
    ensures DistinctMerges(proposed, expected, before + [e])
            <==> SequenceAt(proposed, e.path) !in MergeSequences(proposed, expected, before)
  {
    var after := before + [e];
    assert forall k :: 0 <= k < |before| ==> after[k] == before[k];
    if SequenceAt(proposed, e.path) in MergeSequences(proposed, expected, before) {
      var k :| 0 <= k < |before| && ProposesMerge(proposed, expected, before[k].path)
               && SequenceAt(proposed, before[k].path) == SequenceAt(proposed, e.path);
      assert after[k] == before[k] && after[|before|] == e;
    }
  }

  lemma SequencesNext(proposed: Plan, expected: Plan, before: seq<Record>, e: Record)
    ensures MergeSequences(proposed, expected, before + [e])
            == MergeSequences(proposed, expected, before)
               + if ProposesMerge(proposed, expected, e.path) then {SequenceAt(proposed, e.path)} else {}
  {
    var after := before + [e];
    assert after[|before|] == e;
    assert forall k :: 0 <= k < |before| ==> after[k] == before[k];
  }

  lemma RecordsPrefix(proposed: Plan, expected: Plan, connector: PeerId, records: seq<Record>, n: nat)
    requires n <= |records| && RecordsOk(proposed, expected, connector, records)
    ensures RecordsOk(proposed, expected, connector, records[..n])
  {
    BytesPrefix(proposed, expected, records, n);
  }

  lemma {:induction false} BytesPrefix(proposed: Plan, expected: Plan, records: seq<Record>, n: nat)
    requires n <= |records|
    ensures MergedBytes(proposed, expected, records[..n]) <= MergedBytes(proposed, expected, records)
  {
    if n < |records| {
      BytesPrefix(proposed, expected, records[..|records| - 1], n);
      assert records[..|records| - 1][..n] == records[..n];
    } else {
      assert records[..n] == records;
    }
  }

  method CheckRecords(proposed: Plan, expected: Plan, connector: PeerId) returns (ok: bool)
    ensures ok <==> RecordsOk(proposed, expected, connector, expected.records)
  {
    var greatest := GreatestSequence(expected, connector);
    var sequences, bytes := {}, 0;
    for k := 0 to |expected.records|
      invariant RecordsOk(proposed, expected, connector, expected.records[..k])
      invariant sequences == MergeSequences(proposed, expected, expected.records[..k])
      invariant bytes == MergedBytes(proposed, expected, expected.records[..k])
    {
      ok, sequences, bytes := CheckRecord(proposed, expected, connector, greatest, expected.records[..k],
                                          expected.records[k], sequences, bytes);
      assert expected.records[..k] + [expected.records[k]] == expected.records[..k + 1];
      if !ok {
        if RecordsOk(proposed, expected, connector, expected.records) {
          RecordsPrefix(proposed, expected, connector, expected.records, k + 1);
        }
        return;
      }
    }
    assert expected.records[..|expected.records|] == expected.records;
    ok := true;
  }

  method CheckCandidates(proposed: Plan, cs: seq<MergeCandidate>) returns (ok: bool)
    ensures ok <==> forall k :: 0 <= k < |cs| ==> CandidateConflictsOk(proposed, cs[k])
  {
    for k := 0 to |cs|
      invariant forall i :: 0 <= i < k ==> CandidateConflictsOk(proposed, cs[i])
    {
      if !CandidateConflictsOk(proposed, cs[k]) {
        return false;
      }
    }
    ok := true;
  }

  /** `validate_materialized_plan_shape`. */
  method ValidateShape(proposed: Plan, expected: Plan, connector: PeerId) returns (ok: bool)
    ensures ok <==> ShapeOk(proposed, expected, connector)
  {
    if proposed.merges != expected.merges {
      return false;
    }
    ok := CheckRecords(proposed, expected, connector);
    if !ok || |proposed.records| != |expected.records| {
      return false;
    }
    var candidates := CandidatePaths(expected.merges);
    if Ordinary(proposed.conflicts, candidates) != Ordinary(expected.conflicts, candidates) {
      return false;
    }
    ok := CheckCandidates(proposed, expected.merges);
  }

  // ---------------------------------------------------------------- the merge results

  function FirstRecord(records: seq<Record>, p: Path): Option<Record>
  {
    if records == [] then None else if records[0].path == p then Some(records[0]) else FirstRecord(records[1..], p)
  }

  /** The proposed record and conflicts of a candidate are those of the outcome. */
  predicate CandidateVerified(proposed: Plan, c: MergeCandidate, outcome: Outcome<ComputedMerge>)
  {
    var r := FirstRecord(proposed.records, c.path);
    && r.Some?
    && (if outcome.Success? then r.value.version.entry == MergedEntry(outcome.value) else r.value == c.winner)
    && ConflictsOf(proposed.conflicts, c.path) == OutcomeConflicts(c, outcome, r.value)
  }

  predicate Verified(env: Env, proposed: Plan, metadata: Plan)
  {
    var outcomes := Outcomes(env, metadata.merges);
    && outcomes.Done?
    && forall k :: 0 <= k < |metadata.merges| ==> CandidateVerified(proposed, metadata.merges[k], outcomes.value[k])
  }

  /** `verify_materialized_plan`. */
  method VerifyMaterialized(env: Env, proposed: Plan, metadata: Plan) returns (ok: bool)
    ensures ok <==> Verified(env, proposed, metadata)
  {
    var computed := ComputeMergeOutcomes(env, metadata.merges);
    if computed.Bail? {
      return false;
    }
    var outcomes := computed.value;
    for k := 0 to |metadata.merges|
      invariant forall i :: 0 <= i < k ==> CandidateVerified(proposed, metadata.merges[i], outcomes[i])
    {
      var c := metadata.merges[k];
      var r := FirstRecord(proposed.records, c.path);
      if r.None? {
        return false;
      }
      var conflicts := ConflictsOf(proposed.conflicts, c.path);
      match outcomes[k] {
        case Success(merged) =>
          if r.value.version.entry != File(merged.hash, |merged.bytes|, merged.executable) {
            return false;
          }
          if merged.hunks == [] {
            if conflicts != [] {
              return false;
            }
          } else if conflicts != [MergedConflict(c.base, c.winner, c.loser, r.value, merged.hunks)] {
            return false;
          }
        case Failure(reason) =>
          if r.value != c.winner
             || conflicts != [WholeFileConflict(c.winner, c.loser, reason).(base := Some(c.base))] {
            return false;
          }
      }
    }
    ok := true;
  }
}
