/** A round is a run of the history: planning path after path, with a number drawn for
    every accepted merge, comes to exactly the materialized plan, and installing it gives
    the records that are kept (src/sync.rs:2775-2819, src/main.rs:8063-8104). */
module RoundRuns {
  import opened Bytes
  import opened Model
  import opened Reconcile
  import opened Versions
  import opened Merge
  import opened RoundBudget
  import opened PlanLaws
  import opened Materialize
  import opened MaterializeLaws
  import opened AbsorptionLaws
  import Heads
  import Validate
  import H = History

  /** The list says what the snapshot says. */
  ghost predicate Tells(list: seq<Record>, snapshot: map<Path, Version>)
  {
    forall p :: (p in ByPath(list) <==> p in snapshot) && (p in snapshot ==> ByPath(list)[p].version == snapshot[p])
  }

  /** The two lists a round is about. */
  ghost predicate About(w: H.World, own: seq<Record>, other: seq<Record>)
  {
    && w.round.Some?
    && Tells(own, if w.round.value.connectorIsA then w.round.value.a else w.round.value.b)
    && Tells(other, if w.round.value.connectorIsA then w.round.value.b else w.round.value.a)
  }

  /** What a round comes to. */
  datatype Result = Result(plan: Plan, outcomes: seq<Outcome<ComputedMerge>>, sequences: seq<nat>, after: Plan)

  ghost predicate Comes(own: seq<Record>, other: seq<Record>, x: Result, id: PeerId, start: nat, sign: Signer)
  {
    && x.plan == PlanOf(own, other) && |x.plan.merges| == |x.outcomes| == |x.sequences|
    && DrawnFrom(x.outcomes, x.sequences, start)
    && Materialized(x.plan, x.outcomes, id, x.sequences, sign) == Done(x.after)
  }

  // ---------------------------------------------------------------- one path

  lemma RoundDecides(w: H.World, own: seq<Record>, other: seq<Record>, p: Path)
    requires About(w, own, other) && (p in ByPath(own) || p in ByPath(other))
    ensures InRound(w, p)
    ensures H.PlanDecision(w.round.value, p) == DecideAt(ByPath(own), ByPath(other), p)
  {
    var l, r := ByPath(own), ByPath(other);
    if p in l {
      assert l[p] == Record(p, l[p].version);
    }
    if p in r {
      assert r[p] == Record(p, r[p].version);
    }
  }

  /** The plan's word at a path, and the candidate there. */
  lemma PlannedAt(own: seq<Record>, other: seq<Record>, p: Path)
    requires p in ByPath(own) || p in ByPath(other)
    ensures var plan := PlanOf(own, other);
            var d := DecideAt(ByPath(own), ByPath(other), p);
            var k := Validate.CandidateIndex(plan.merges, p);
            && p in ByPath(plan.records) && ByPath(plan.records)[p] == d.record
            && (k == |plan.merges| ==> d.merges == [])
            && (k < |plan.merges| ==> d.merges == [plan.merges[k]] && plan.merges[k].winner == d.record)
  {
    var plan := PlanOf(own, other);
    var d := DecideAt(ByPath(own), ByPath(other), p);
    PlanAt(own, other, p);
    var k := Validate.CandidateIndex(plan.merges, p);
    if k < |plan.merges| {
      MergeListed(plan.merges, k);
      assert plan.merges[k] in d.merges;
      OneCandidate(ByPath(own), ByPath(other), p, plan.merges[k]);
      DecideParts(ByPath(own)[p], ByPath(other)[p]);
    } else {
      NoCandidate(plan.merges, p);
    }
  }

  // ---------------------------------------------------------------- all paths

  /** The numbers of the merges still to come are beyond the counter. */
  ghost predicate Ahead(x: Result, n: nat, counter: nat)
    requires |x.plan.merges| == |x.outcomes| == |x.sequences| && n <= |x.plan.records|
  {
    forall k :: 0 <= k < |x.outcomes| && x.outcomes[k].Success? && Pending(x.plan, n, x.plan.merges[k].path) ==>
      counter < x.sequences[k]
  }

  predicate Pending(plan: Plan, n: nat, p: Path)
    requires n <= |plan.records|
  {
    forall i :: 0 <= i < n ==> plan.records[i].path != p
  }

  /** The first paths of the plan are planned, and nothing else has changed. */
  ghost predicate Planned(w: H.World, now: H.World, x: Result, n: nat)
    requires |x.plan.merges| == |x.outcomes| == |x.sequences|
  {
    && w.round.Some? && now.round.Some? && n <= |x.plan.records|
    && Untouched(w, now)
    && (forall q :: q in now.round.value.target <==> !Pending(x.plan, n, q))
    && (forall q :: q in now.round.value.target ==>
          q in ByPath(x.after.records) && now.round.value.target[q] == ByPath(x.after.records)[q].version)
    && Ahead(x, n, H.At(now, w.round.value.connectorIsA).counter)
  }

  /** All but the connector's counter, the target of the round and the history. */
  predicate Untouched(w: H.World, now: H.World)
    requires w.round.Some? && now.round.Some?
  {
    var c := w.round.value.connectorIsA;
    && now.round.value == w.round.value.(target := now.round.value.target)
    && H.At(now, c) == H.At(w, c).(counter := H.At(now, c).counter) && H.At(now, !c) == H.At(w, !c)
    && now.exchange == w.exchange && now.acked == w.acked
  }

  /** Later paths belong to later candidates. */
  lemma StillAhead(x: Result, n: nat, k: nat)
    requires |x.plan.merges| == |x.outcomes| == |x.sequences| && n < |x.plan.records|
    requires WellShaped(x.plan) && Heads.StrictlySortedRecords(x.plan.records)
    requires k < |x.outcomes| && x.plan.merges[k].path == x.plan.records[n].path
    requires Rising(x) && x.outcomes[k].Success?
    ensures Ahead(x, n + 1, x.sequences[k])
  {
    InPathOrder(x.plan.merges);
    forall j | 0 <= j < |x.outcomes| && x.outcomes[j].Success? && Pending(x.plan, n + 1, x.plan.merges[j].path)
      ensures x.sequences[k] < x.sequences[j]
    {
      assert CandidateOk(x.plan, x.plan.merges[j]);
      var i :| 0 <= i < |x.plan.records| && x.plan.records[i] == x.plan.merges[j].winner;
      LaterCandidate(x.plan, n, k, j, i);
    }
  }

  lemma InPathOrder(cs: seq<MergeCandidate>)
    requires CanonicalOrder(cs)
    ensures forall i, j :: 0 <= i < j < |cs| ==> Bytes.Less(cs[i].path, cs[j].path)
  {
    forall i, j | 0 <= i < j < |cs|
      ensures Bytes.Less(cs[i].path, cs[j].path)
    {
      CanonicalDistinct(cs, i, j);
    }
  }

  lemma ListedIsDone(plan: Plan, n: nat)
    requires n < |plan.records|
    ensures !Pending(plan, n + 1, plan.records[n].path)
  {
  }

  lemma LaterCandidate(plan: Plan, n: nat, k: nat, j: nat, i: nat)
    requires Heads.StrictlySortedRecords(plan.records) && n < |plan.records| && i < |plan.records|
    requires k < |plan.merges| && j < |plan.merges| && plan.merges[k].path == plan.records[n].path
    requires plan.merges[j].path == plan.records[i].path && Pending(plan, n + 1, plan.records[i].path)
    requires j < k ==> Bytes.Less(plan.merges[j].path, plan.merges[k].path)
    ensures k < j
  {
    ListedIsDone(plan, n);
    if j < k {
      EarlierIsListed(plan, n, i);
    }
  }

  /** A listed path that is less than another is listed before it. */
  lemma EarlierIsListed(plan: Plan, n: nat, i: nat)
    requires Heads.StrictlySortedRecords(plan.records) && n < |plan.records| && i < |plan.records|
    requires Bytes.Less(plan.records[i].path, plan.records[n].path)
    ensures !Pending(plan, n + 1, plan.records[i].path)
  {
    if i > n {
      LessAsymmetric(plan.records[n].path, plan.records[i].path);
    }
    if i == n {
      LessIrreflexive(plan.records[n].path);
    }
  }

  /** One path further. */
  lemma Advances(w: H.World, now: H.World, next: H.World, x: Result, n: nat, v: Version, counter: nat)
    requires |x.plan.merges| == |x.outcomes| == |x.sequences| && Planned(w, now, x, n) && n < |x.plan.records|
    requires Sets(now, next, x.plan.records[n].path, v, counter)
    requires x.plan.records[n].path in ByPath(x.after.records) && v == ByPath(x.after.records)[x.plan.records[n].path].version
    requires Ahead(x, n + 1, counter)
    ensures Planned(w, next, x, n + 1)
  {
    OneMoreListed(x.plan, n);
  }

  lemma AheadStays(x: Result, n: nat, counter: nat)
    requires |x.plan.merges| == |x.outcomes| == |x.sequences| && n < |x.plan.records| && Ahead(x, n, counter)
    ensures Ahead(x, n + 1, counter)
  {
  }

  /** The result of a round, path by path, with increasing numbers. */
  ghost predicate Ready(x: Result, id: PeerId, sign: Signer)
  {
    && |x.plan.merges| == |x.outcomes| == |x.sequences|
    && WellShaped(x.plan) && StrictlySorted(PathsOf(x.plan.records))
    && Expected(x.plan, x.outcomes, id, x.sequences, sign, x.after) && Rising(x)
  }

  predicate Rising(x: Result)
    requires |x.plan.merges| == |x.outcomes| == |x.sequences|
  {
    forall i, j :: 0 <= i < j < |x.outcomes| && x.outcomes[i].Success? && x.outcomes[j].Success? ==>
      x.sequences[i] < x.sequences[j]
  }

  ghost predicate Underway(w: H.World, now: H.World, x: Result, n: nat, sign: Signer)
  {
    Signs(sign) && w.round.Some? && Ready(x, H.At(w, w.round.value.connectorIsA).id, sign) && Planned(w, now, x, n)
  }

  /** The path is in one of the snapshots of the round. */
  predicate InRound(now: H.World, p: Path)
  {
    now.round.Some? && (p in now.round.value.a || p in now.round.value.b)
  }

  lemma PlansMerge(w: H.World, now: H.World, x: Result, n: nat, c: MergeCandidate, entry: Entry, sequence: nat, sign: Signer)
    returns (act: H.Action)
    requires Signs(sign) && |x.plan.merges| == |x.outcomes| == |x.sequences| && Planned(w, now, x, n)
    requires n < |x.plan.records| && InRound(now, x.plan.records[n].path)
    requires H.PlanDecision(now.round.value, x.plan.records[n].path).merges == [c]
    requires H.At(now, w.round.value.connectorIsA).counter < sequence && Ahead(x, n + 1, sequence)
    requires x.plan.records[n].path in ByPath(x.after.records)
    requires ByPath(x.after.records)[x.plan.records[n].path].version
             == sign(MergedRecord(c, H.At(w, w.round.value.connectorIsA).id, sequence, entry)).version
    ensures H.Enabled(now, act) && Planned(w, H.Apply(now, act, sign), x, n + 1)
  {
    var p := x.plan.records[n].path;
    act := H.PlanPath(p, Some(entry), sequence);
    MergeEffect(now, p, entry, sequence, sign);
    Advances(w, now, H.Apply(now, act, sign), x, n, ByPath(x.after.records)[p].version, sequence);
  }

  /** What the plan knows of an accepted merge. */
  lemma MergeIsNext(now: H.World, own: seq<Record>, other: seq<Record>, x: Result, id: PeerId, counter: nat, n: nat, k: nat,
                    sign: Signer)
    requires x.plan == PlanOf(own, other) && Ready(x, id, sign) && About(now, own, other) && n < |x.plan.records|
    requires k == Validate.CandidateIndex(x.plan.merges, x.plan.records[n].path) < |x.outcomes| && x.outcomes[k].Success?
    requires Ahead(x, n, counter)
    ensures var (p, c) := (x.plan.records[n].path, x.plan.merges[k]);
            && InRound(now, p) && H.PlanDecision(now.round.value, p).merges == [c]
            && counter < x.sequences[k] && Ahead(x, n + 1, x.sequences[k])
            && p in ByPath(x.after.records)
            && ByPath(x.after.records)[p].version
               == sign(MergedRecord(c, id, x.sequences[k], MergedEntry(x.outcomes[k].value))).version
  {
    PathDecided(now, own, other, n);
    PlannedAt(own, other, x.plan.records[n].path);
    MergeMakes(x, id, k, sign);
    FreshPath(x.plan, n);
    RecordsInOrder(x.plan.records);
    StillAhead(x, n, k);
  }

  lemma MergeMakes(x: Result, id: PeerId, k: nat, sign: Signer)
    requires Ready(x, id, sign) && k < |x.outcomes| && x.outcomes[k].Success?
    ensures var c := x.plan.merges[k];
            && c.path in ByPath(x.after.records)
            && ByPath(x.after.records)[c.path].version
               == sign(MergedRecord(c, id, x.sequences[k], MergedEntry(x.outcomes[k].value))).version
  {
    MaterializedAt(x.plan, x.outcomes, id, x.sequences, sign, x.after, k);
  }

  lemma DecisionSets(now: H.World, p: Path, v: Version, sign: Signer) returns (act: H.Action)
    requires InRound(now, p) && H.PlanDecision(now.round.value, p).record.version == v
    ensures H.Enabled(now, act)
    ensures Sets(now, H.Apply(now, act, sign), p, v, H.At(now, now.round.value.connectorIsA).counter)
  {
    var counter := H.At(now, now.round.value.connectorIsA).counter;
    act := H.PlanPath(p, None, counter + 1);
    DecisionEffect(now, p, counter + 1, sign);
  }

  /** The paths of the plan are those of the two lists, and the round decides as the plan. */
  lemma PathDecided(now: H.World, own: seq<Record>, other: seq<Record>, n: nat)
    requires n < |PlanOf(own, other).records| && About(now, own, other)
    ensures var p := PlanOf(own, other).records[n].path;
            && (p in ByPath(own) || p in ByPath(other)) && InRound(now, p)
            && H.PlanDecision(now.round.value, p) == DecideAt(ByPath(own), ByPath(other), p)
  {
    PlanCovers(own, other);
    var p := PlanOf(own, other).records[n].path;
    assert PathsOf(PlanOf(own, other).records)[n] == p && p in AllPaths(own, other);
    RoundDecides(now, own, other, p);
  }

  /** Where no merge was accepted the materialized plan has what was decided. */
  lemma KeptAsDecided(own: seq<Record>, other: seq<Record>, x: Result, id: PeerId, p: Path, sign: Signer)
    requires x.plan == PlanOf(own, other) && Ready(x, id, sign) && (p in ByPath(own) || p in ByPath(other))
    requires var k := Validate.CandidateIndex(x.plan.merges, p); k < |x.outcomes| ==> x.outcomes[k].Failure?
    ensures p in ByPath(x.after.records)
    ensures ByPath(x.after.records)[p] == DecideAt(ByPath(own), ByPath(other), p).record
  {
    var k := Validate.CandidateIndex(x.plan.merges, p);
    PlannedAt(own, other, p);
    if k < |x.outcomes| {
      FallbackMakes(x, id, k, sign);
    } else {
      NothingMakes(x, id, p, sign);
    }
  }

  lemma FallbackMakes(x: Result, id: PeerId, k: nat, sign: Signer)
    requires Ready(x, id, sign) && k < |x.outcomes| && x.outcomes[k].Failure?
    ensures var c := x.plan.merges[k]; c.path in ByPath(x.after.records) && ByPath(x.after.records)[c.path] == c.winner
  {
    MaterializedAt(x.plan, x.outcomes, id, x.sequences, sign, x.after, k);
  }

  lemma NothingMakes(x: Result, id: PeerId, p: Path, sign: Signer)
    requires Ready(x, id, sign) && p in ByPath(x.plan.records)
    requires forall k :: 0 <= k < |x.plan.merges| ==> x.plan.merges[k].path != p
    ensures p in ByPath(x.after.records) && ByPath(x.after.records)[p] == ByPath(x.plan.records)[p]
  {
    assert View(x.after, p) == View(x.plan, p);
  }

  lemma PlansAccepted(w: H.World, now: H.World, own: seq<Record>, other: seq<Record>, x: Result, n: nat, k: nat, sign: Signer)
    returns (act: H.Action)
    requires x.plan == PlanOf(own, other) && Underway(w, now, x, n, sign) && About(now, own, other) && n < |x.plan.records|
    requires k == Validate.CandidateIndex(x.plan.merges, x.plan.records[n].path) < |x.outcomes| && x.outcomes[k].Success?
    ensures H.Enabled(now, act) && Planned(w, H.Apply(now, act, sign), x, n + 1)
  {
    MergeIsNext(now, own, other, x, H.At(w, w.round.value.connectorIsA).id, H.At(now, w.round.value.connectorIsA).counter,
                n, k, sign);
    act := PlansMerge(w, now, x, n, x.plan.merges[k], MergedEntry(x.outcomes[k].value), x.sequences[k], sign);
  }

  lemma PlansDecided(w: H.World, now: H.World, own: seq<Record>, other: seq<Record>, x: Result, n: nat, sign: Signer)
    returns (act: H.Action)
    requires x.plan == PlanOf(own, other) && Underway(w, now, x, n, sign) && About(now, own, other) && n < |x.plan.records|
    requires var k := Validate.CandidateIndex(x.plan.merges, x.plan.records[n].path); k < |x.outcomes| ==> x.outcomes[k].Failure?
    ensures H.Enabled(now, act) && Planned(w, H.Apply(now, act, sign), x, n + 1)
  {
    PathDecided(now, own, other, n);
    KeptAsDecided(own, other, x, H.At(w, w.round.value.connectorIsA).id, x.plan.records[n].path, sign);
    var p := x.plan.records[n].path;
    var counter := H.At(now, w.round.value.connectorIsA).counter;
    act := DecisionSets(now, p, ByPath(x.after.records)[p].version, sign);
    AheadStays(x, n, counter);
    Advances(w, now, H.Apply(now, act, sign), x, n, ByPath(x.after.records)[p].version, counter);
  }

  lemma PlansOne(w: H.World, now: H.World, own: seq<Record>, other: seq<Record>, x: Result, n: nat, sign: Signer)
    returns (act: H.Action)
    requires x.plan == PlanOf(own, other) && Underway(w, now, x, n, sign) && About(now, own, other) && n < |x.plan.records|
    ensures H.Enabled(now, act) && Planned(w, H.Apply(now, act, sign), x, n + 1)
  {
    var k := Validate.CandidateIndex(x.plan.merges, x.plan.records[n].path);
    if k < |x.outcomes| && x.outcomes[k].Success? {
      act := PlansAccepted(w, now, own, other, x, n, k, sign);
    } else {
      act := PlansDecided(w, now, own, other, x, n, sign);
    }
  }

  lemma FreshPath(plan: Plan, n: nat)
    requires n < |plan.records| && UniquePaths(plan.records)
    ensures Pending(plan, n, plan.records[n].path)
  {
  }

  lemma OneMoreListed(plan: Plan, n: nat)
    requires n < |plan.records|
    ensures forall q :: Pending(plan, n + 1, q) <==> Pending(plan, n, q) && q != plan.records[n].path
  {
  }

  /** A planning step: it sets one path of the target, and a merge uses up its number. */
  predicate Sets(now: H.World, next: H.World, p: Path, v: Version, counter: nat)
  {
    && now.round.Some? && next.round.Some? && next.exchange == now.exchange && next.acked == now.acked
    && next.round.value == now.round.value.(target := now.round.value.target[p := v])
    && var c := now.round.value.connectorIsA;
       H.At(next, !c) == H.At(now, !c) && H.At(next, c) == H.At(now, c).(counter := counter)
  }

  lemma MergeEffect(now: H.World, p: Path, entry: Entry, sequence: nat, sign: Signer)
    requires Signs(sign) && H.Enabled(now, H.PlanPath(p, Some(entry), sequence))
    requires H.PlanDecision(now.round.value, p).merges != []
    ensures var c := H.PlanDecision(now.round.value, p).merges[0];
            var r := MergedRecord(c, H.At(now, now.round.value.connectorIsA).id, sequence, entry);
            Sets(now, H.Apply(now, H.PlanPath(p, Some(entry), sequence), sign), p, sign(r).version, sequence)
  {
  }

  lemma DecisionEffect(now: H.World, p: Path, sequence: nat, sign: Signer)
    requires H.Enabled(now, H.PlanPath(p, None, sequence))
    ensures Sets(now, H.Apply(now, H.PlanPath(p, None, sequence), sign), p, H.PlanDecision(now.round.value, p).record.version,
                 H.At(now, now.round.value.connectorIsA).counter)
  {
  }

  lemma RunsFirst(now: H.World, act: H.Action, rest: seq<H.Action>, sign: Signer)
    requires H.Enabled(now, act) && H.Runs(H.Apply(now, act, sign), rest, sign)
    ensures H.Runs(now, [act] + rest, sign)
    ensures H.After(now, [act] + rest, sign) == H.After(H.Apply(now, act, sign), rest, sign)
  {
    var acts := [act] + rest;
    assert acts[0] == act && acts[1..] == rest;
  }

  lemma AboutFollows(w: H.World, now: H.World, own: seq<Record>, other: seq<Record>)
    requires About(w, own, other) && now.round.Some? && Untouched(w, now)
    ensures About(now, own, other)
  {
  }

  /** One path further, with the world it leads to. */
  lemma PlansNext(w: H.World, now: H.World, own: seq<Record>, other: seq<Record>, x: Result, n: nat, sign: Signer)
    returns (act: H.Action, next: H.World)
    requires x.plan == PlanOf(own, other) && About(w, own, other) && Underway(w, now, x, n, sign) && n < |x.plan.records|
    ensures H.Enabled(now, act) && next == H.Apply(now, act, sign) && Underway(w, next, x, n + 1, sign)
  {
    AboutFollows(w, now, own, other);
    act := PlansOne(w, now, own, other, x, n, sign);
    next := H.Apply(now, act, sign);
  }

  /** Some step leads from here to the next stage. */
  ghost predicate Steps(stage: (H.World, nat) -> bool, now: H.World, n: nat, sign: Signer)
  {
    exists act :: H.Enabled(now, act) && stage(H.Apply(now, act, sign), n + 1)
  }

  /** Stages that follow each other by single steps make a run. */
  lemma {:induction false} StagesAreRun(stage: (H.World, nat) -> bool, last: nat, now: H.World, n: nat, sign: Signer)
    returns (acts: seq<H.Action>, end: H.World)
    requires stage(now, n) && n <= last
    requires forall w: H.World, k: nat :: stage(w, k) && k < last ==> Steps(stage, w, k, sign)
    ensures H.Runs(now, acts, sign) && H.After(now, acts, sign) == end && stage(end, last)
    decreases last - n
  {
    if n == last {
      acts, end := [], now;
    } else {
      assert Steps(stage, now, n, sign);
      var act :| H.Enabled(now, act) && stage(H.Apply(now, act, sign), n + 1);
      acts, end := StagesAreRun(stage, last, H.Apply(now, act, sign), n + 1, sign);
      RunsFirst(now, act, acts, sign);
      acts := [act] + acts;
    }
  }

  lemma IsReady(own: seq<Record>, other: seq<Record>, x: Result, id: PeerId, start: nat, sign: Signer)
    requires Signs(sign) && Comes(own, other, x, id, start, sign)
    ensures Ready(x, id, sign) && PathsOf(x.after.records) == PathsOf(x.plan.records) && Ahead(x, 0, start)
  {
    PlanWellShaped(own, other);
    PlanIsSorted(own, other);
    MaterializedHolds(x, id, sign);
  }

  lemma RecordsInOrder(records: seq<Record>)
    requires StrictlySorted(PathsOf(records))
    ensures Heads.StrictlySortedRecords(records)
  {
    forall i, j | 0 <= i < j < |records|
      ensures Bytes.Less(records[i].path, records[j].path)
    {
      assert PathsOf(records)[i] == records[i].path && PathsOf(records)[j] == records[j].path;
    }
  }

  lemma MaterializedHolds(x: Result, id: PeerId, sign: Signer)
    requires Signs(sign) && WellShaped(x.plan) && |x.plan.merges| == |x.outcomes| == |x.sequences|
    requires Materialized(x.plan, x.outcomes, id, x.sequences, sign) == Done(x.after)
    ensures Expected(x.plan, x.outcomes, id, x.sequences, sign, x.after) && PathsOf(x.after.records) == PathsOf(x.plan.records)
  {
    MaterializedView(x.plan, x.outcomes, id, x.sequences, sign);
  }

  lemma PlanIsSorted(own: seq<Record>, other: seq<Record>)
    ensures StrictlySorted(PathsOf(PlanOf(own, other).records))
  {
    PlanCovers(own, other);
  }

  lemma BegunIsPlanned(w: H.World, x: Result)
    requires w.round.Some? && w.round.value.target == map[] && |x.plan.merges| == |x.outcomes| == |x.sequences|
    requires Ahead(x, 0, H.At(w, w.round.value.connectorIsA).counter)
    ensures Planned(w, w, x, 0)
  {
  }

  lemma StagesFollow(w: H.World, own: seq<Record>, other: seq<Record>, x: Result, sign: Signer)
    returns (stage: (H.World, nat) -> bool)
    requires x.plan == PlanOf(own, other) && About(w, own, other)
    ensures forall now: H.World, n: nat :: stage(now, n) <==> Underway(w, now, x, n, sign)
    ensures forall now: H.World, n: nat :: stage(now, n) && n < |x.plan.records| ==> Steps(stage, now, n, sign)
  {
    stage := (now: H.World, n: nat) => Underway(w, now, x, n, sign);
    forall now: H.World, n: nat | stage(now, n) && n < |x.plan.records|
      ensures Steps(stage, now, n, sign)
    {
      var act, next := PlansNext(w, now, own, other, x, n, sign);
      assert stage(next, n + 1);
    }
  }

  lemma PlansAll(w: H.World, own: seq<Record>, other: seq<Record>, x: Result, sign: Signer)
    returns (acts: seq<H.Action>, end: H.World)
    requires x.plan == PlanOf(own, other) && About(w, own, other) && Underway(w, w, x, 0, sign)
    ensures H.Runs(w, acts, sign) && H.After(w, acts, sign) == end && Underway(w, end, x, |x.plan.records|, sign)
  {
    var stage := StagesFollow(w, own, other, x, sign);
    acts, end := StagesAreRun(stage, |x.plan.records|, w, 0, sign);
  }

  lemma BeginsUnderway(w: H.World, own: seq<Record>, other: seq<Record>, x: Result, sign: Signer)
    requires Signs(sign) && w.round.Some? && w.round.value.target == map[]
    requires var c := H.At(w, w.round.value.connectorIsA); Comes(own, other, x, c.id, c.counter, sign)
    ensures Underway(w, w, x, 0, sign) && PathsOf(x.after.records) == PathsOf(x.plan.records)
  {
    var c := H.At(w, w.round.value.connectorIsA);
    IsReady(own, other, x, c.id, c.counter, sign);
    BegunIsPlanned(w, x);
  }

  lemma EndTells(w: H.World, end: H.World, x: Result, sign: Signer)
    requires Underway(w, end, x, |x.plan.records|, sign) && PathsOf(x.after.records) == PathsOf(x.plan.records)
    ensures end.round.Some? && Untouched(w, end) && Tells(x.after.records, end.round.value.target)
  {
    AllListed(x.plan, x.after);
    TargetTells(w, end, x);
  }

  /** From the beginning of a round there are planning steps that come to exactly the
      materialized plan: the round's target is its list of records, and nothing else has
      changed but the connector's counter. */
  lemma RoundIsRun(w: H.World, own: seq<Record>, other: seq<Record>, x: Result, sign: Signer) returns (acts: seq<H.Action>)
    requires Signs(sign) && About(w, own, other) && w.round.value.target == map[]
    requires var c := H.At(w, w.round.value.connectorIsA); Comes(own, other, x, c.id, c.counter, sign)
    ensures H.Runs(w, acts, sign)
    ensures var end := H.After(w, acts, sign);
            && end.round.Some? && Untouched(w, end) && Tells(x.after.records, end.round.value.target)
  {
    BeginsUnderway(w, own, other, x, sign);
    var end;
    acts, end := PlansAll(w, own, other, x, sign);
    EndTells(w, end, x, sign);
  }

  lemma TargetTells(w: H.World, end: H.World, x: Result)
    requires |x.plan.merges| == |x.outcomes| == |x.sequences| && Planned(w, end, x, |x.plan.records|)
    requires forall q :: q in ByPath(x.after.records) <==> !Pending(x.plan, |x.plan.records|, q)
    ensures Tells(x.after.records, end.round.value.target)
  {
  }

  lemma AllListed(plan: Plan, after: Plan)
    requires PathsOf(after.records) == PathsOf(plan.records)
    ensures forall q :: q in ByPath(after.records) <==> !Pending(plan, |plan.records|, q)
  {
    forall q
      ensures q in ByPath(after.records) <==> !Pending(plan, |plan.records|, q)
    {
      if q in ByPath(after.records) {
        var i :| 0 <= i < |after.records| && after.records[i] == ByPath(after.records)[q];
        assert PathsOf(after.records)[i] == q == PathsOf(plan.records)[i];
      }
      if i :| 0 <= i < |plan.records| && plan.records[i].path == q {
        assert PathsOf(plan.records)[i] == q == PathsOf(after.records)[i];
        assert after.records[i] in after.records;
      }
    }
  }

  /** Installing a path of the target gives the replica that version there, and nothing else. */
  lemma InstallEffect(w: H.World, atA: bool, path: Path, sign: Signer)
    requires H.Enabled(w, H.Install(atA, path))
    ensures var next := H.Apply(w, H.Install(atA, path), sign);
            && path in H.At(next, atA).records && H.At(next, atA).records[path] == w.round.value.target[path]
            && (forall q :: q != path ==> H.Get(H.At(next, atA).records, q) == H.Get(H.At(w, atA).records, q))
            && H.At(next, atA).heads == H.At(w, atA).heads && H.At(next, atA).counter == H.At(w, atA).counter
            && H.At(next, !atA) == H.At(w, !atA) && next.round == w.round && next.exchange == w.exchange
  {
  }
}
