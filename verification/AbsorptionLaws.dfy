/** Reconciling a side once more with the materialized plan, as an interrupted round
    does: the plan stands, and nothing new is reported (src/reconcile.rs:131-191,
    src/sync.rs:3208-3260). */
module AbsorptionLaws {
  import opened Bytes
  import opened Model
  import opened Reconcile
  import opened Versions
  import opened Merge
  import opened RoundBudget
  import opened PlanLaws
  import opened Materialize
  import opened MaterializeLaws
  import History

  /** The connector's versions after `start` are news to a version. */
  predicate NewTo(v: Version, connector: PeerId, start: nat)
  {
    (v.peer == connector ==> v.sequence <= start) && !SeenAtLeast(v.seen, connector, start + 1)
  }

  predicate NewToInputs(plan: Plan, connector: PeerId, start: nat)
  {
    forall k :: 0 <= k < |plan.merges| ==>
      NewTo(plan.merges[k].winner.version, connector, start) && NewTo(plan.merges[k].loser.version, connector, start)
  }

  /** The candidates that fell back to a whole file. */
  function FailedMerges(merges: seq<MergeCandidate>, outcomes: seq<Outcome<ComputedMerge>>): set<MergeCandidate>
    requires |merges| == |outcomes|
  {
    set k | 0 <= k < |merges| && outcomes[k].Failure? :: merges[k]
  }

  lemma NewsIsUnseen(v: Version, connector: PeerId, start: nat, id: VersionId)
    requires NewTo(v, connector, start) && id.peer == connector && id.sequence > start
    ensures !v.HasSeen(id)
  {
  }

  /** A materialized merge meets either input without a conflict. */
  lemma MergeSettles(c: MergeCandidate, m: ComputedMerge, connector: PeerId, sequence: nat, start: nat, sign: Signer)
    requires Signs(sign) && sequence > start && c.path == c.winner.path
    requires NewTo(c.winner.version, connector, start) && NewTo(c.loser.version, connector, start)
    ensures var r := OutcomeRecord(c, Success(m), connector, sequence, sign);
            Decide(c.winner, r) == Decide(c.loser, r) == Decision(r, [], [])
  {
    var plain := MergedRecord(c, connector, sequence, MergedEntry(m));
    var r := sign(plain);
    assert r.version.seen == plain.version.seen && r.version.peer == connector && r.version.sequence == sequence;
    var w, l := c.winner.version, c.loser.version;
    MergedSees(c, connector, sequence, MergedEntry(m), w.peer, w.sequence);
    MergedSees(c, connector, sequence, MergedEntry(m), l.peer, l.sequence);
    NewsIsUnseen(w, connector, start, r.version.Id());
    NewsIsUnseen(l, connector, start, r.version.Id());
    DecideAfterMerge(c.winner, c.loser, r);
  }

  /** Deciding between the side's record and `m[p]` keeps `m[p]`, and reports no more than before. */
  predicate Meets(l: map<Path, Record>, r: map<Path, Record>, m: map<Path, Record>, failed: set<MergeCandidate>, p: Path)
    requires p in l || p in r
  {
    && p in m
    && (p in l ==>
          && Decide(l[p], m[p]).record == m[p]
          && (forall c :: c in Decide(l[p], m[p]).conflicts ==> c in DecideAt(l, r, p).conflicts)
          && (forall c :: c in Decide(l[p], m[p]).merges ==> c in failed))
  }

  lemma {:induction false} CollectMeets(l: map<Path, Record>, r: map<Path, Record>, m: map<Path, Record>,
                                        failed: set<MergeCandidate>, paths: seq<Path>)
    requires Covered(l, r, paths) && forall k :: 0 <= k < |paths| ==> Meets(l, r, m, failed, paths[k])
    ensures Covered(l, m, paths) && forall k :: 0 <= k < |paths| ==> paths[k] in m
    ensures var again, first := Collect(l, m, paths), Collect(l, r, paths);
            && |again.records| == |paths| && (forall k :: 0 <= k < |paths| ==> again.records[k] == m[paths[k]])
            && (forall c :: c in again.conflicts ==> c in first.conflicts)
            && (forall c :: c in again.merges ==> c in failed)
  {
    if paths != [] {
      assert Meets(l, r, m, failed, paths[0]);
      CollectMeets(l, r, m, failed, paths[1..]);
    }
  }

  /** A path the plan settles by itself. */
  lemma PlainMeets(l: map<Path, Record>, r: map<Path, Record>, m: map<Path, Record>, failed: set<MergeCandidate>, p: Path)
    requires (p in l || p in r) && (p in l && p in r ==> Comparable(l[p], r[p]))
    requires p in m && m[p] == DecideAt(l, r, p).record
    requires forall c :: c in DecideAt(l, r, p).merges ==> c in failed
    ensures Meets(l, r, m, failed, p)
  {
    if p in l && p in r {
      DecideAgain(l[p], r[p]);
    }
  }

  /** A candidate whose merge succeeded. */
  lemma MergedMeets(l: map<Path, Record>, r: map<Path, Record>, m: map<Path, Record>, failed: set<MergeCandidate>,
                    c: MergeCandidate, p: Path)
    requires (p in l || p in r) && c in DecideAt(l, r, p).merges
    requires p in m && Decide(c.winner, m[p]) == Decide(c.loser, m[p]) == Decision(m[p], [], [])
    ensures Meets(l, r, m, failed, p)
  {
    if p in l && p in r {
      DecideParts(l[p], r[p]);
    }
  }

  /** A path with a candidate. */
  lemma CandidateMeets(l: map<Path, Record>, r: map<Path, Record>, m: map<Path, Record>, failed: set<MergeCandidate>,
                       c: MergeCandidate, outcome: Outcome<ComputedMerge>, connector: PeerId, sequence: nat, sign: Signer,
                       start: nat, p: Path)
    requires (p in l || p in r) && (p in l && p in r ==> Comparable(l[p], r[p])) && c in DecideAt(l, r, p).merges
    requires Signs(sign) && c.path == c.winner.path && c.winner == DecideAt(l, r, p).record
    requires p in m && m[p] == OutcomeRecord(c, outcome, connector, sequence, sign)
    requires if outcome.Success? then sequence > start else c in failed
    requires NewTo(c.winner.version, connector, start) && NewTo(c.loser.version, connector, start)
    ensures Meets(l, r, m, failed, p)
  {
    match outcome {
      case Success(merge) =>
        MergeSettles(c, merge, connector, sequence, start, sign);
        MergedMeets(l, r, m, failed, c, p);
      case Failure(_) =>
        OneCandidate(l, r, p, c);
        PlainMeets(l, r, m, failed, p);
    }
  }

  /** A path of the plan: what is decided there, and what is offered there. */
  lemma PlannedCandidate(local: seq<Record>, remote: seq<Record>, k: nat)
    requires k < |PlanOf(local, remote).merges|
    ensures var c := PlanOf(local, remote).merges[k];
            var (l, r) := (ByPath(local), ByPath(remote));
            && c.path == c.winner.path && (c.path in l || c.path in r)
            && c in DecideAt(l, r, c.path).merges && c.winner == DecideAt(l, r, c.path).record
  {
    var plan := PlanOf(local, remote);
    var c := plan.merges[k];
    PlanWellShaped(local, remote);
    assert CandidateOk(plan, c);
    PlanAt(local, remote, c.path);
    MergeListed(plan.merges, k);
  }

  lemma PlannedElsewhere(local: seq<Record>, remote: seq<Record>, p: Path)
    requires p in ByPath(local) || p in ByPath(remote)
    requires forall k :: 0 <= k < |PlanOf(local, remote).merges| ==> PlanOf(local, remote).merges[k].path != p
    ensures DecideAt(ByPath(local), ByPath(remote), p).merges == []
    ensures View(PlanOf(local, remote), p).0 == Some(DecideAt(ByPath(local), ByPath(remote), p).record)
  {
    PlanAt(local, remote, p);
    NoCandidate(PlanOf(local, remote).merges, p);
  }

  /** What a materialized plan holds at a candidate's path, and elsewhere. */
  lemma MaterializedAt(plan: Plan, outcomes: seq<Outcome<ComputedMerge>>, connector: PeerId, sequences: seq<nat>,
                       sign: Signer, after: Plan, k: nat)
    requires |plan.merges| == |outcomes| == |sequences| && Expected(plan, outcomes, connector, sequences, sign, after)
    requires k < |outcomes|
    ensures var c := plan.merges[k];
            && c.path in ByPath(after.records)
            && ByPath(after.records)[c.path] == OutcomeRecord(c, outcomes[k], connector, sequences[k], sign)
  {
    var result := OutcomeRecord(plan.merges[k], outcomes[k], connector, sequences[k], sign);
    assert View(after, plan.merges[k].path) == (Some(result), OutcomeConflicts(plan.merges[k], outcomes[k], result));
  }

  lemma CandidatePathMeets(l: map<Path, Record>, r: map<Path, Record>, plan: Plan, outcomes: seq<Outcome<ComputedMerge>>,
                           connector: PeerId, sequences: seq<nat>, sign: Signer, start: nat, after: Plan, k: nat)
    requires Signs(sign) && |plan.merges| == |outcomes| && DrawnFrom(outcomes, sequences, start) && k < |outcomes|
    requires NewToInputs(plan, connector, start) && Expected(plan, outcomes, connector, sequences, sign, after)
    requires var c := plan.merges[k];
             && c.path == c.winner.path && (c.path in l || c.path in r)
             && (c.path in l && c.path in r ==> Comparable(l[c.path], r[c.path]))
             && c in DecideAt(l, r, c.path).merges && c.winner == DecideAt(l, r, c.path).record
    ensures Meets(l, r, ByPath(after.records), FailedMerges(plan.merges, outcomes), plan.merges[k].path)
  {
    MaterializedAt(plan, outcomes, connector, sequences, sign, after, k);
    assert outcomes[k].Failure? ==> plan.merges[k] in FailedMerges(plan.merges, outcomes);
    CandidateMeets(l, r, ByPath(after.records), FailedMerges(plan.merges, outcomes), plan.merges[k], outcomes[k],
                   connector, sequences[k], sign, start, plan.merges[k].path);
  }

  lemma OtherPathMeets(local: seq<Record>, remote: seq<Record>, after: Plan, failed: set<MergeCandidate>, p: Path)
    requires AllComparable(local, remote) && (p in ByPath(local) || p in ByPath(remote))
    requires forall k :: 0 <= k < |PlanOf(local, remote).merges| ==> PlanOf(local, remote).merges[k].path != p
    requires View(after, p) == View(PlanOf(local, remote), p)
    ensures Meets(ByPath(local), ByPath(remote), ByPath(after.records), failed, p)
  {
    PlannedElsewhere(local, remote, p);
    PlainMeets(ByPath(local), ByPath(remote), ByPath(after.records), failed, p);
  }

  lemma PathMeets(local: seq<Record>, remote: seq<Record>, outcomes: seq<Outcome<ComputedMerge>>, connector: PeerId,
                  sequences: seq<nat>, sign: Signer, start: nat, after: Plan, p: Path)
    requires AllComparable(local, remote) && Signs(sign)
    requires |PlanOf(local, remote).merges| == |outcomes| && DrawnFrom(outcomes, sequences, start)
    requires NewToInputs(PlanOf(local, remote), connector, start)
    requires Expected(PlanOf(local, remote), outcomes, connector, sequences, sign, after)
    requires p in ByPath(local) || p in ByPath(remote)
    ensures Meets(ByPath(local), ByPath(remote), ByPath(after.records), FailedMerges(PlanOf(local, remote).merges, outcomes), p)
  {
    var merges := PlanOf(local, remote).merges;
    if k :| 0 <= k < |merges| && merges[k].path == p {
      PlannedCandidate(local, remote, k);
      CandidatePathMeets(ByPath(local), ByPath(remote), PlanOf(local, remote), outcomes, connector, sequences, sign, start,
                         after, k);
    } else {
      OtherPathMeets(local, remote, after, FailedMerges(merges, outcomes), p);
    }
  }

  lemma OneCandidate(l: map<Path, Record>, r: map<Path, Record>, p: Path, c: MergeCandidate)
    requires (p in l || p in r) && c in DecideAt(l, r, p).merges
    ensures DecideAt(l, r, p).merges == [c]
  {
  }

  lemma {:induction false} NoCandidate(merges: seq<MergeCandidate>, p: Path)
    requires forall k :: 0 <= k < |merges| ==> merges[k].path != p
    ensures MergesOf(merges, p) == []
  {
    if merges != [] {
      NoCandidate(merges[1..], p);
    }
  }

  /** Reconciling `local` with the records of `after` gives back those records; every
      conflict it reports was reported already, and the only candidates it offers are
      among `failed`. */
  ghost predicate Absorbs(local: seq<Record>, plan: Plan, after: seq<Record>, failed: set<MergeCandidate>)
  {
    var again := PlanOf(local, after);
    && again.records == after
    && (forall c :: c in again.conflicts ==> c in plan.conflicts)
    && (forall c :: c in again.merges ==> c in failed)
  }

  lemma PlanMeets(local: seq<Record>, remote: seq<Record>, outcomes: seq<Outcome<ComputedMerge>>, connector: PeerId,
                  sequences: seq<nat>, sign: Signer, start: nat, after: Plan)
    requires AllComparable(local, remote) && Signs(sign)
    requires |PlanOf(local, remote).merges| == |outcomes| && DrawnFrom(outcomes, sequences, start)
    requires NewToInputs(PlanOf(local, remote), connector, start)
    requires Expected(PlanOf(local, remote), outcomes, connector, sequences, sign, after)
    requires UniquePaths(after.records) && PathsOf(after.records) == AllPaths(local, remote)
    ensures Absorbs(local, PlanOf(local, remote), after.records, FailedMerges(PlanOf(local, remote).merges, outcomes))
  {
    var failed := FailedMerges(PlanOf(local, remote).merges, outcomes);
    forall p | p in ByPath(local) || p in ByPath(remote)
      ensures Meets(ByPath(local), ByPath(remote), ByPath(after.records), failed, p)
    {
      PathMeets(local, remote, outcomes, connector, sequences, sign, start, after, p);
    }
    AgainIs(local, remote, after.records, failed);
  }

  /** Reconciling either side with the materialized plan returns it, and reports nothing
      new: the candidates that fell back to a whole file may be offered again, because
      the winner is kept as it was and has not seen the loser. */
  lemma MaterializedAbsorption(local: seq<Record>, remote: seq<Record>, outcomes: seq<Outcome<ComputedMerge>>,
                               connector: PeerId, sequences: seq<nat>, sign: Signer, start: nat)
    requires AllComparable(local, remote) && Signs(sign)
    requires |PlanOf(local, remote).merges| == |outcomes| && DrawnFrom(outcomes, sequences, start)
    requires NewToInputs(PlanOf(local, remote), connector, start)
    ensures var plan := PlanOf(local, remote);
            var done := Materialized(plan, outcomes, connector, sequences, sign);
            && done.Done?
            && Absorbs(local, plan, done.value.records, FailedMerges(plan.merges, outcomes))
            && Absorbs(remote, plan, done.value.records, FailedMerges(plan.merges, outcomes))
  {
    var plan := PlanOf(local, remote);
    PlanWellShaped(local, remote);
    PlanCovers(local, remote);
    MaterializedView(plan, outcomes, connector, sequences, sign);
    var after := Materialized(plan, outcomes, connector, sequences, sign).value;
    PlanMeets(local, remote, outcomes, connector, sequences, sign, start, after);
    PlanSymmetric(local, remote);
    AllPathsSwap(local, remote);
    ComparableSwap(local, remote);
    PlanMeets(remote, local, outcomes, connector, sequences, sign, start, after);
  }

  lemma ComparableSwap(local: seq<Record>, remote: seq<Record>)
    requires AllComparable(local, remote)
    ensures AllComparable(remote, local)
  {
    PlanSymmetric(local, remote);
    PlanSymmetric(remote, local);
  }

  lemma AgainIs(local: seq<Record>, remote: seq<Record>, after: seq<Record>, failed: set<MergeCandidate>)
    requires UniquePaths(after) && PathsOf(after) == AllPaths(local, remote)
    requires forall p :: p in ByPath(local) || p in ByPath(remote) ==>
               Meets(ByPath(local), ByPath(remote), ByPath(after), failed, p)
    ensures Absorbs(local, PlanOf(local, remote), after, failed)
  {
    var paths := AllPaths(local, remote);
    SamePaths(local, remote, after);
    forall k | 0 <= k < |paths|
      ensures paths[k] in ByPath(local) || paths[k] in ByPath(remote)
    {
      assert paths[k] in paths;
    }
    CollectMeets(ByPath(local), ByPath(remote), ByPath(after), failed, paths);
    forall k | 0 <= k < |paths|
      ensures after[k] == ByPath(after)[paths[k]]
    {
      assert PathsOf(after)[k] == paths[k];
      ByPathUnique(after, k);
    }
  }

  lemma SamePaths(local: seq<Record>, remote: seq<Record>, after: seq<Record>)
    requires PathsOf(after) == AllPaths(local, remote)
    ensures AllPaths(local, after) == AllPaths(local, remote)
  {
    forall p
      ensures p in AllPaths(local, after) <==> p in AllPaths(local, remote)
    {
      if p in ByPath(after) {
        RecordPresent(after, p);
      }
      if p in AllPaths(local, remote) {
        var k :| 0 <= k < |after| && PathsOf(after)[k] == p;
        assert after[k] in after;
      }
    }
    SortedUnique(AllPaths(local, after), AllPaths(local, remote));
  }

  // ---------------------------------------------------------------- in every history

  /** A version of the history has not seen what its replicas have yet to make. */
  lemma HeldIsOld(w: History.World, path: Path, v: Version, atA: bool)
    requires History.Inv(w) && History.Holds(w, path, v)
    ensures NewTo(v, History.At(w, atA).id, History.At(w, atA).counter)
  {
    assert History.IssueOk(w, (v.peer, v.sequence));
    History.UnmadeUnseen(w, v, atA, History.At(w, atA).counter + 1);
  }

  /** The inputs of a candidate are the two sides' records. */
  lemma CandidateInputsListed(local: seq<Record>, remote: seq<Record>, k: nat)
    requires k < |PlanOf(local, remote).merges|
    ensures var c := PlanOf(local, remote).merges[k];
            var (l, r) := (ByPath(local), ByPath(remote));
            && c.path in l && c.path in r
            && (c.winner == l[c.path] || c.winner == r[c.path]) && (c.loser == l[c.path] || c.loser == r[c.path])
  {
    PlannedCandidate(local, remote, k);
    OfferedInputs(ByPath(local), ByPath(remote), PlanOf(local, remote).merges[k].path, PlanOf(local, remote).merges[k]);
  }

  lemma OfferedInputs(l: map<Path, Record>, r: map<Path, Record>, p: Path, c: MergeCandidate)
    requires (p in l || p in r) && c in DecideAt(l, r, p).merges
    ensures p in l && p in r && (c.winner == l[p] || c.winner == r[p]) && (c.loser == l[p] || c.loser == r[p])
  {
    if p in l && p in r {
      OneCandidate(l, r, p, c);
      DecideParts(l[p], r[p]);
    }
  }

  lemma InputsAreOld(w: History.World, local: seq<Record>, remote: seq<Record>, atA: bool)
    requires History.Inv(w) && History.Advertises(local, w.a.records) && History.Advertises(remote, w.b.records)
    ensures NewToInputs(PlanOf(local, remote), History.At(w, atA).id, History.At(w, atA).counter)
  {
    forall k | 0 <= k < |PlanOf(local, remote).merges|
      ensures NewTo(PlanOf(local, remote).merges[k].winner.version, History.At(w, atA).id, History.At(w, atA).counter)
      ensures NewTo(PlanOf(local, remote).merges[k].loser.version, History.At(w, atA).id, History.At(w, atA).counter)
    {
      CandidateInputsListed(local, remote, k);
      var p := PlanOf(local, remote).merges[k].path;
      HeldIsOld(w, p, w.a.records[p], atA);
      HeldIsOld(w, p, w.b.records[p], atA);
    }
  }

  /** After every run of the two replicas: whatever a round materializes, with numbers
      beyond its counter, absorbs the records it was made from. */
  lemma RoundsAreAbsorbed(w: History.World, acts: seq<History.Action>, sign: Signer, local: seq<Record>, remote: seq<Record>,
                          connectorIsA: bool, outcomes: seq<Outcome<ComputedMerge>>, sequences: seq<nat>)
    requires History.Init(w) && History.Runs(w, acts, sign) && Signs(sign)
    requires var now := History.After(w, acts, sign);
             && History.Advertises(local, now.a.records) && History.Advertises(remote, now.b.records)
             && |PlanOf(local, remote).merges| == |outcomes|
             && DrawnFrom(outcomes, sequences, History.At(now, connectorIsA).counter)
    ensures var plan := PlanOf(local, remote);
            var done := Materialized(plan, outcomes, History.At(History.After(w, acts, sign), connectorIsA).id, sequences, sign);
            && done.Done?
            && Absorbs(local, plan, done.value.records, FailedMerges(plan.merges, outcomes))
            && Absorbs(remote, plan, done.value.records, FailedMerges(plan.merges, outcomes))
  {
    var now := History.After(w, acts, sign);
    History.RunKeeps(w, acts, sign);
    History.PlansAgree(now, local, remote);
    InputsAreOld(now, local, remote, connectorIsA);
    MaterializedAbsorption(local, remote, outcomes, History.At(now, connectorIsA).id, sequences, sign,
                           History.At(now, connectorIsA).counter);
  }
}
