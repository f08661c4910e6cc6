/** The rounds of every history: whatever a connector materializes after any run of the
    two replicas passes the responder's check, and drops no file version silently
    (src/main.rs:6186-6233, src/main.rs:8063-8104, src/sync.rs:2775-3039). */
module RoundLaws {
  import opened Bytes
  import opened Model
  import opened Reconcile
  import opened Versions
  import opened Merge
  import opened RoundBudget
  import opened PlanLaws
  import opened Materialize
  import opened MaterializeLaws
  import opened Validate
  import opened AbsorptionLaws
  import ThreeWay
  import History
  import ValidateLaws

  /** No record of the connector is later than `start`. */
  predicate NoLater(r: Record, connector: PeerId, start: nat)
  {
    r.version.peer == connector ==> r.version.sequence <= start
  }

  lemma DecidedIsListed(l: map<Path, Record>, r: map<Path, Record>, p: Path)
    requires p in l || p in r
    ensures var d := DecideAt(l, r, p).record; (p in l && d == l[p]) || (p in r && d == r[p])
  {
    if p in l && p in r {
      DecideParts(l[p], r[p]);
    }
  }

  lemma PlanRecordsOld(w: History.World, local: seq<Record>, remote: seq<Record>, atA: bool)
    requires History.Inv(w) && History.Advertises(local, w.a.records) && History.Advertises(remote, w.b.records)
    ensures forall r :: r in PlanOf(local, remote).records ==> NoLater(r, History.At(w, atA).id, History.At(w, atA).counter)
  {
    var plan := PlanOf(local, remote);
    PlanCovers(local, remote);
    forall r | r in plan.records
      ensures NoLater(r, History.At(w, atA).id, History.At(w, atA).counter)
    {
      var k :| 0 <= k < |plan.records| && plan.records[k] == r;
      var p := AllPaths(local, remote)[k];
      assert p in AllPaths(local, remote);
      DecidedIsListed(ByPath(local), ByPath(remote), p);
      if p in ByPath(local) && r == ByPath(local)[p] {
        HeldIsOld(w, p, w.a.records[p], atA);
      } else {
        HeldIsOld(w, p, w.b.records[p], atA);
      }
    }
  }

  lemma {:induction false} InputsBounded(cs: seq<MergeCandidate>, connector: PeerId, start: nat)
    requires forall k :: 0 <= k < |cs| ==> NoLater(cs[k].winner, connector, start) && NoLater(cs[k].loser, connector, start)
    ensures forall r :: r in CandidateInputs(cs) ==> NoLater(r, connector, start)
  {
    if cs != [] {
      InputsBounded(cs[1..], connector, start);
      assert NoLater(cs[0].winner, connector, start) && NoLater(cs[0].loser, connector, start);
    }
  }

  /** No plan of a reachable world knows a version its maker has yet to make. */
  lemma GreatestIsOld(w: History.World, local: seq<Record>, remote: seq<Record>, atA: bool)
    requires History.Inv(w) && History.Advertises(local, w.a.records) && History.Advertises(remote, w.b.records)
    ensures GreatestSequence(PlanOf(local, remote), History.At(w, atA).id) <= History.At(w, atA).counter
  {
    var id, counter := History.At(w, atA).id, History.At(w, atA).counter;
    var plan := PlanOf(local, remote);
    PlanRecordsOld(w, local, remote, atA);
    InputsAreOld(w, local, remote, atA);
    InputsBounded(plan.merges, id, counter);
    var all := plan.records + CandidateInputs(plan.merges);
    forall r | r in all && r.version.peer == id
      ensures r.version.sequence <= counter
    {
      assert r in plan.records || r in CandidateInputs(plan.merges);
      assert NoLater(r, id, counter);
    }
    GreatestBounds(all, id, counter);
  }

  /** The two sides of a round, as the connector sees them. */
  predicate Snapshots(w: History.World, connectorIsA: bool, own: seq<Record>, other: seq<Record>)
  {
    History.Advertises(own, History.At(w, connectorIsA).records) && History.Advertises(other, History.At(w, !connectorIsA).records)
  }

  lemma RoundIsOrderly(w: History.World, connectorIsA: bool, own: seq<Record>, other: seq<Record>)
    requires History.Inv(w) && Snapshots(w, connectorIsA, own, other)
    ensures AllComparable(own, other)
    ensures GreatestSequence(PlanOf(own, other), History.At(w, connectorIsA).id) <= History.At(w, connectorIsA).counter
  {
    if connectorIsA {
      History.PlansAgree(w, own, other);
      GreatestIsOld(w, own, other, connectorIsA);
    } else {
      History.PlansAgree(w, other, own);
      ComparableSwap(other, own);
      GreatestIsOld(w, other, own, connectorIsA);
    }
  }

  // ---------------------------------------------------------------- two object stores

  type Store = map<ObjectHash, seq<Byte>>

  /** The inputs of a candidate that `store` has are in `other`, with the same bytes. */
  predicate Shares(store: Store, other: Store, c: MergeCandidate)
  {
    FilesOnly(c) ==>
      forall h :: h in [c.base.entry.hash, c.winner.version.entry.hash, c.loser.version.entry.hash] && h in store ==>
        h in other && other[h] == store[h]
  }

  predicate SharesAll(store: Store, other: Store, cs: seq<MergeCandidate>)
  {
    forall k :: 0 <= k < |cs| ==> Shares(store, other, cs[k])
  }

  lemma StepAlike(env: Env, store: Store, c: MergeCandidate, index: nat, b: Budget)
    requires Shares(env.store, store, c) && StepOutcome(env, c, index, b).Done?
    ensures StepOutcome(env.(store := store), c, index, b) == StepOutcome(env, c, index, b)
  {
    if FilesOnly(c) && Stored(env, c) {
      assert Stored(env.(store := store), c);
    }
  }

  lemma {:induction false} OutcomesAlike(env: Env, store: Store, cs: seq<MergeCandidate>, k: nat, b: Budget)
    requires SharesAll(env.store, store, cs) && k <= |cs| && OutcomesFrom(env, cs, k, b).Done?
    ensures OutcomesFrom(env.(store := store), cs, k, b) == OutcomesFrom(env, cs, k, b)
    decreases |cs| - k
  {
    if k < |cs| {
      StepAlike(env, store, cs[k], k, b);
      OutcomesAlike(env, store, cs, k + 1, StepOutcome(env, cs[k], k, b).value.0);
    }
  }

  /** After every run of the two replicas: what either of them materializes as connector,
      with numbers beyond its counter, is accepted by the other, which reconciles the two
      snapshots the other way round and merges what it reads from its own store. */
  lemma RoundsAreAccepted(w: History.World, acts: seq<History.Action>, sign: Signer, connectorIsA: bool,
                          own: seq<Record>, other: seq<Record>, env: Env, theirs: Store, sequences: seq<nat>,
                          diff: Differ, utf8: ThreeWay.Utf8)
    requires History.Init(w) && History.Runs(w, acts, sign) && Signs(sign) && Faithful(env, diff, utf8)
    requires Snapshots(History.After(w, acts, sign), connectorIsA, own, other)
    requires Outcomes(env, PlanOf(own, other).merges).Done? && SharesAll(env.store, theirs, PlanOf(own, other).merges)
    requires DrawnFrom(Outcomes(env, PlanOf(own, other).merges).value, sequences,
                       History.At(History.After(w, acts, sign), connectorIsA).counter)
    ensures var connector := History.At(History.After(w, acts, sign), connectorIsA).id;
            var outcomes := Outcomes(env, PlanOf(own, other).merges).value;
            var materialized := Materialized(PlanOf(own, other), outcomes, connector, sequences, sign);
            materialized.Done? && ValidateLaws.Accepted(env.(store := theirs), materialized.value, PlanOf(other, own), connector)
  {
    var now := History.After(w, acts, sign);
    var merges := PlanOf(own, other).merges;
    History.RunKeeps(w, acts, sign);
    RoundIsOrderly(now, connectorIsA, own, other);
    OutcomesAlike(env, theirs, merges, 0, Budget(0, 0, 0, false));
    ValidateLaws.ConnectorIsAccepted(env.(store := theirs), own, other, History.At(now, connectorIsA).id, sequences, sign,
                                     History.At(now, connectorIsA).counter, diff, utf8);
  }

  // ---------------------------------------------------------------- no silent loss in what is applied

  /** A conflict of the path, the only one, has both versions as inputs. */
  predicate Reported(conflicts: seq<Conflict>, a: Record, b: Record)
  {
    |conflicts| == 1 && conflicts[0].HasInput(a) && conflicts[0].HasInput(b)
  }

  /** What one candidate leaves: its merge has seen both inputs, and is reported when it is
      contested; a fallback is always reported. */
  lemma OutcomeReports(c: MergeCandidate, outcome: Outcome<ComputedMerge>, connector: PeerId, sequence: nat, sign: Signer)
    requires Signs(sign)
    ensures var r := OutcomeRecord(c, outcome, connector, sequence, sign);
            var conflicts := OutcomeConflicts(c, outcome, r);
            match outcome
            case Success(m) =>
              && Superseded(c.winner, r) && Superseded(c.loser, r)
              && (if m.hunks == [] then conflicts == [] else Reported(conflicts, c.winner, c.loser))
            case Failure(_) => r == c.winner && Reported(conflicts, c.winner, c.loser)
  {
    if outcome.Success? {
      var plain := MergedRecord(c, connector, sequence, MergedEntry(outcome.value));
      var r := sign(plain);
      assert r.version.seen == plain.version.seen;
      var x, y := c.winner.version, c.loser.version;
      MergedSees(c, connector, sequence, MergedEntry(outcome.value), x.peer, x.sequence);
      MergedSees(c, connector, sequence, MergedEntry(outcome.value), y.peer, y.sequence);
    }
  }

  /** A file version of either side that the plan's record at its path neither keeps nor
      has seen nor equals is, with the other side's version, in its only conflict. */
  predicate NotSilent(local: seq<Record>, remote: seq<Record>, a: Record, view: (Option<Record>, seq<Conflict>))
  {
    var l, r := ByPath(local), ByPath(remote);
    && view.0.Some?
    && (Superseded(a, view.0.value)
        || (a.path in l && a.path in r && Reported(view.1, l[a.path], r[a.path])))
  }

  predicate ReportedAt(local: seq<Record>, remote: seq<Record>, conflicts: seq<Conflict>, p: Path)
  {
    p in ByPath(local) && p in ByPath(remote) && Reported(conflicts, ByPath(local)[p], ByPath(remote)[p])
  }

  predicate ContestedBy(c: MergeCandidate, outcome: Outcome<ComputedMerge>, p: Path)
  {
    c.path == p && outcome.Success? && outcome.value.hunks != []
  }

  lemma PlainPathReports(local: seq<Record>, remote: seq<Record>, a: Record)
    requires AllComparable(local, remote) && (Holds(local, a) || Holds(remote, a)) && a.version.entry.File?
    requires forall k :: 0 <= k < |PlanOf(local, remote).merges| ==> PlanOf(local, remote).merges[k].path != a.path
    ensures NotSilent(local, remote, a, View(PlanOf(local, remote), a.path))
  {
    NothingLost(local, remote, a);
    NoCandidate(PlanOf(local, remote).merges, a.path);
  }

  lemma CandidatePathReports(local: seq<Record>, remote: seq<Record>, a: Record, k: nat, outcome: Outcome<ComputedMerge>,
                             connector: PeerId, sequence: nat, sign: Signer)
    requires Signs(sign) && (Holds(local, a) || Holds(remote, a)) && k < |PlanOf(local, remote).merges|
    requires PlanOf(local, remote).merges[k].path == a.path
    ensures var c := PlanOf(local, remote).merges[k];
            var r := OutcomeRecord(c, outcome, connector, sequence, sign);
            && NotSilent(local, remote, a, (Some(r), OutcomeConflicts(c, outcome, r)))
            && (ContestedBy(c, outcome, a.path) ==> ReportedAt(local, remote, OutcomeConflicts(c, outcome, r), a.path))
  {
    var c := PlanOf(local, remote).merges[k];
    PlannedCandidate(local, remote, k);
    var l, r := ByPath(local), ByPath(remote);
    OfferedInputs(l, r, a.path, c);
    OneCandidate(l, r, a.path, c);
    DecideParts(l[a.path], r[a.path]);
    OutcomeReports(c, outcome, connector, sequence, sign);
  }

  lemma CandidateView(plan: Plan, outcomes: seq<Outcome<ComputedMerge>>, connector: PeerId, sequences: seq<nat>,
                      sign: Signer, after: Plan, k: nat)
    requires |plan.merges| == |outcomes| == |sequences| && Expected(plan, outcomes, connector, sequences, sign, after)
    requires k < |outcomes|
    ensures var result := OutcomeRecord(plan.merges[k], outcomes[k], connector, sequences[k], sign);
            View(after, plan.merges[k].path) == (Some(result), OutcomeConflicts(plan.merges[k], outcomes[k], result))
  {
  }

  lemma CandidateLosesNothing(local: seq<Record>, remote: seq<Record>, plan: Plan, a: Record,
                              outcomes: seq<Outcome<ComputedMerge>>, connector: PeerId, sequences: seq<nat>, sign: Signer,
                              after: Plan, k: nat)
    requires Signs(sign) && (Holds(local, a) || Holds(remote, a)) && plan == PlanOf(local, remote)
    requires |plan.merges| == |outcomes| == |sequences| && Expected(plan, outcomes, connector, sequences, sign, after)
    requires k < |outcomes| && plan.merges[k].path == a.path
    ensures NotSilent(local, remote, a, View(after, a.path))
    ensures ContestedBy(plan.merges[k], outcomes[k], a.path) ==> ReportedAt(local, remote, View(after, a.path).1, a.path)
  {
    CandidateView(plan, outcomes, connector, sequences, sign, after, k);
    CandidatePathReports(local, remote, a, k, outcomes[k], connector, sequences[k], sign);
  }

  /** Nothing said about a file version, and about overlaps at its path, is left out. */
  predicate LosesNothing(local: seq<Record>, remote: seq<Record>, plan: Plan, outcomes: seq<Outcome<ComputedMerge>>,
                         a: Record, after: Plan)
    requires |plan.merges| == |outcomes|
  {
    && NotSilent(local, remote, a, View(after, a.path))
    && ((exists k :: 0 <= k < |outcomes| && ContestedBy(plan.merges[k], outcomes[k], a.path)) ==>
          ReportedAt(local, remote, View(after, a.path).1, a.path))
  }

  lemma PlainLosesNothing(local: seq<Record>, remote: seq<Record>, plan: Plan, a: Record,
                          outcomes: seq<Outcome<ComputedMerge>>, connector: PeerId, sequences: seq<nat>, sign: Signer,
                          after: Plan)
    requires AllComparable(local, remote) && plan == PlanOf(local, remote)
    requires (Holds(local, a) || Holds(remote, a)) && a.version.entry.File?
    requires |plan.merges| == |outcomes| == |sequences| && Expected(plan, outcomes, connector, sequences, sign, after)
    requires forall k :: 0 <= k < |plan.merges| ==> plan.merges[k].path != a.path
    ensures NotSilent(local, remote, a, View(after, a.path))
  {
    PlainPathReports(local, remote, a);
  }

  lemma SilentNever(local: seq<Record>, remote: seq<Record>, plan: Plan, a: Record,
                    outcomes: seq<Outcome<ComputedMerge>>, connector: PeerId, sequences: seq<nat>, sign: Signer, after: Plan)
    requires AllComparable(local, remote) && Signs(sign) && plan == PlanOf(local, remote)
    requires (Holds(local, a) || Holds(remote, a)) && a.version.entry.File?
    requires |plan.merges| == |outcomes| == |sequences| && Expected(plan, outcomes, connector, sequences, sign, after)
    ensures NotSilent(local, remote, a, View(after, a.path))
  {
    var k := CandidateIndex(plan.merges, a.path);
    if k < |plan.merges| {
      CandidateLosesNothing(local, remote, plan, a, outcomes, connector, sequences, sign, after, k);
    } else {
      PlainLosesNothing(local, remote, plan, a, outcomes, connector, sequences, sign, after);
    }
  }

  lemma ExpectedLosesNothing(local: seq<Record>, remote: seq<Record>, plan: Plan, a: Record,
                             outcomes: seq<Outcome<ComputedMerge>>, connector: PeerId, sequences: seq<nat>, sign: Signer,
                             after: Plan)
    requires AllComparable(local, remote) && Signs(sign) && plan == PlanOf(local, remote)
    requires (Holds(local, a) || Holds(remote, a)) && a.version.entry.File?
    requires |plan.merges| == |outcomes| == |sequences| && Expected(plan, outcomes, connector, sequences, sign, after)
    ensures LosesNothing(local, remote, plan, outcomes, a, after)
  {
    SilentNever(local, remote, plan, a, outcomes, connector, sequences, sign, after);
    if i :| 0 <= i < |outcomes| && ContestedBy(plan.merges[i], outcomes[i], a.path) {
      CandidateLosesNothing(local, remote, plan, a, outcomes, connector, sequences, sign, after, i);
    }
  }

  /** No silent loss in the materialized plan, which is what both endpoints apply. A merge
      with overlaps is reported too, though it has seen both its inputs. */
  lemma MaterializedLosesNothing(local: seq<Record>, remote: seq<Record>, a: Record, outcomes: seq<Outcome<ComputedMerge>>,
                                 connector: PeerId, sequences: seq<nat>, sign: Signer)
    requires AllComparable(local, remote) && Signs(sign)
    requires |PlanOf(local, remote).merges| == |outcomes| == |sequences|
    requires (Holds(local, a) || Holds(remote, a)) && a.version.entry.File?
    ensures var plan := PlanOf(local, remote);
            var done := Materialized(plan, outcomes, connector, sequences, sign);
            done.Done? && LosesNothing(local, remote, plan, outcomes, a, done.value)
  {
    var plan := PlanOf(local, remote);
    PlanWellShaped(local, remote);
    MaterializedView(plan, outcomes, connector, sequences, sign);
    var after := Materialized(plan, outcomes, connector, sequences, sign).value;
    ExpectedLosesNothing(local, remote, plan, a, outcomes, connector, sequences, sign, after);
  }

  predicate FileOfEither(own: seq<Record>, other: seq<Record>, a: Record)
  {
    (Holds(own, a) || Holds(other, a)) && a.version.entry.File?
  }

  /** What the connector of a world materializes loses nothing. */
  predicate RoundLosesNothing(now: History.World, sign: Signer, connectorIsA: bool, own: seq<Record>, other: seq<Record>,
                              outcomes: seq<Outcome<ComputedMerge>>, sequences: seq<nat>, a: Record)
    requires |PlanOf(own, other).merges| == |outcomes| == |sequences|
  {
    var plan := PlanOf(own, other);
    var done := Materialized(plan, outcomes, History.At(now, connectorIsA).id, sequences, sign);
    done.Done? && LosesNothing(own, other, plan, outcomes, a, done.value)
  }

  lemma OrderlyRoundLosesNothing(now: History.World, sign: Signer, connectorIsA: bool, own: seq<Record>, other: seq<Record>,
                                 outcomes: seq<Outcome<ComputedMerge>>, sequences: seq<nat>, a: Record)
    requires History.Inv(now) && Signs(sign) && Snapshots(now, connectorIsA, own, other)
    requires |PlanOf(own, other).merges| == |outcomes| == |sequences|
    requires FileOfEither(own, other, a)
    ensures RoundLosesNothing(now, sign, connectorIsA, own, other, outcomes, sequences, a)
  {
    RoundIsOrderly(now, connectorIsA, own, other);
    MaterializedLosesNothing(own, other, a, outcomes, History.At(now, connectorIsA).id, sequences, sign);
  }

  lemma ReachedIsOrderly(w: History.World, acts: seq<History.Action>, now: History.World, sign: Signer)
    requires History.Init(w) && Signs(sign) && History.Runs(w, acts, sign) && now == History.After(w, acts, sign)
    ensures History.Inv(now)
  {
    History.RunKeeps(w, acts, sign);
  }

  /** In every reachable world: what either replica materializes as connector silently
      drops no file version of either side. */
  lemma RoundsLoseNothing(w: History.World, acts: seq<History.Action>, now: History.World, sign: Signer, connectorIsA: bool,
                          own: seq<Record>, other: seq<Record>, outcomes: seq<Outcome<ComputedMerge>>, sequences: seq<nat>,
                          a: Record)
    requires History.Init(w) && Signs(sign) && History.Runs(w, acts, sign) && now == History.After(w, acts, sign)
    requires Snapshots(now, connectorIsA, own, other)
    requires |PlanOf(own, other).merges| == |outcomes| == |sequences|
    requires FileOfEither(own, other, a)
    ensures RoundLosesNothing(now, sign, connectorIsA, own, other, outcomes, sequences, a)
  {
    ReachedIsOrderly(w, acts, now, sign);
    OrderlyRoundLosesNothing(now, sign, connectorIsA, own, other, outcomes, sequences, a);
  }
}
