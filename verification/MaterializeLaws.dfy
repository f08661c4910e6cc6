/** What a materialized plan holds at every path, and why it is one particular plan
    (src/sync.rs:2775-2819). */
module MaterializeLaws {
  import opened Bytes
  import opened Model
  import opened Reconcile
  import opened Versions
  import opened Merge
  import opened RoundBudget
  import opened PlanLaws
  import opened Materialize

  // ---------------------------------------------------------------- lists of conflicts

  predicate SortedConflicts(conflicts: seq<Conflict>)
  {
    forall i, j :: 0 <= i < j < |conflicts| ==> Bytes.Less(conflicts[i].path, conflicts[j].path)
  }

  predicate WeaklySorted(conflicts: seq<Conflict>)
  {
    forall i, j :: 0 <= i < j < |conflicts| ==> !Bytes.Less(conflicts[j].path, conflicts[i].path)
  }

  lemma {:induction false} ConflictsOfSnoc(x: seq<Conflict>, y: seq<Conflict>, p: Path)
    requires |y| <= 1
    ensures ConflictsOf(x + y, p) == ConflictsOf(x, p) + (if y != [] && y[0].path == p then y else [])
  {
    if x == [] {
      assert x + y == y;
      assert y != [] ==> y[1..] == [] && y == [y[0]];
    } else {
      ConflictsOfSnoc(x[1..], y, p);
      ConsSnoc(x, y);
      if x[0].path == p {
        ConsRest(x[0], ConflictsOf(x[1..], p), if y != [] && y[0].path == p then y else []);
      }
    }
  }

  lemma ConsSnoc<T>(x: seq<T>, y: seq<T>)
    requires x != []
    ensures (x + y)[0] == x[0] && (x + y)[1..] == x[1..] + y
  {
  }

  lemma ConsRest<T>(head: T, x: seq<T>, y: seq<T>)
    ensures [head] + (x + y) == ([head] + x) + y
  {
  }

  lemma {:induction false} WithoutPathView(conflicts: seq<Conflict>, q: Path, p: Path)
    ensures ConflictsOf(WithoutPath(conflicts, q), p) == if p == q then [] else ConflictsOf(conflicts, p)
  {
    if conflicts != [] {
      WithoutPathView(conflicts[1..], q, p);
      if conflicts[0].path != q {
        var rest := WithoutPath(conflicts[1..], q);
        assert ([conflicts[0]] + rest)[1..] == rest;
      }
    }
  }

  lemma {:induction false} InsertConflictView(conflicts: seq<Conflict>, c: Conflict, p: Path)
    ensures ConflictsOf(InsertConflict(conflicts, c), p) == (if c.path == p then [c] else []) + ConflictsOf(conflicts, p)
  {
    if conflicts == [] || !Bytes.Less(conflicts[0].path, c.path) {
      assert ([c] + conflicts)[1..] == conflicts;
    } else {
      InsertConflictView(conflicts[1..], c, p);
      LessIrreflexive(c.path);
      var rest := InsertConflict(conflicts[1..], c);
      assert ([conflicts[0]] + rest)[1..] == rest;
    }
  }

  lemma {:induction false} SortView(conflicts: seq<Conflict>, p: Path)
    ensures ConflictsOf(SortConflicts(conflicts), p) == ConflictsOf(conflicts, p)
  {
    if conflicts != [] {
      SortView(conflicts[1..], p);
      InsertConflictView(SortConflicts(conflicts[1..]), conflicts[0], p);
    }
  }

  lemma {:induction false} InsertConflictSorted(conflicts: seq<Conflict>, c: Conflict)
    requires WeaklySorted(conflicts)
    ensures WeaklySorted(InsertConflict(conflicts, c))
    ensures forall d :: d in InsertConflict(conflicts, c) <==> d in conflicts || d == c
  {
    if conflicts == [] || !Bytes.Less(conflicts[0].path, c.path) {
      forall j | 0 <= j < |conflicts|
        ensures !Bytes.Less(conflicts[j].path, c.path)
      {
        if j > 0 {
          NotLessTransitive(c.path, conflicts[0].path, conflicts[j].path);
        }
      }
    } else {
      var head, rest := conflicts[0], InsertConflict(conflicts[1..], c);
      InsertConflictSorted(conflicts[1..], c);
      assert conflicts == [head] + conflicts[1..];
      LessAsymmetric(head.path, c.path);
      forall j | 0 <= j < |rest|
        ensures !Bytes.Less(rest[j].path, head.path)
      {
        assert rest[j] in rest;
        if rest[j] != c {
          var k :| 0 <= k < |conflicts[1..]| && conflicts[1..][k] == rest[j];
          assert conflicts[k + 1] == rest[j];
        }
      }
    }
  }

  lemma {:induction false} SortSorts(conflicts: seq<Conflict>)
    ensures WeaklySorted(SortConflicts(conflicts))
  {
    if conflicts != [] {
      SortSorts(conflicts[1..]);
      InsertConflictSorted(SortConflicts(conflicts[1..]), conflicts[0]);
    }
  }

  lemma {:induction false} ConflictIn(conflicts: seq<Conflict>, k: nat)
    requires k < |conflicts|
    ensures ConflictsOf(conflicts, conflicts[k].path) != []
  {
    if k > 0 {
      ConflictIn(conflicts[1..], k - 1);
    }
  }

  lemma {:induction false} TwoConflicts(conflicts: seq<Conflict>, i: nat, j: nat)
    requires i < j < |conflicts| && conflicts[i].path == conflicts[j].path
    ensures |ConflictsOf(conflicts, conflicts[i].path)| >= 2
  {
    if i == 0 {
      ConflictIn(conflicts[1..], j - 1);
    } else {
      TwoConflicts(conflicts[1..], i - 1, j - 1);
    }
  }

  /** At most one conflict a path makes the order strict. */
  lemma SortStrictly(conflicts: seq<Conflict>)
    requires WeaklySorted(conflicts)
    requires forall p :: |ConflictsOf(conflicts, p)| <= 1
    ensures SortedConflicts(conflicts)
  {
    forall i, j | 0 <= i < j < |conflicts|
      ensures Bytes.Less(conflicts[i].path, conflicts[j].path)
    {
      LessTotal(conflicts[i].path, conflicts[j].path);
      if conflicts[i].path == conflicts[j].path {
        TwoConflicts(conflicts, i, j);
        assert false;
      }
    }
  }

  /** The conflicts of the other paths. */
  function Ordinary(conflicts: seq<Conflict>, candidates: set<Path>): seq<Conflict>
  {
    if conflicts == [] then []
    else if conflicts[0].path in candidates then Ordinary(conflicts[1..], candidates)
    else [conflicts[0]] + Ordinary(conflicts[1..], candidates)
  }

  lemma {:induction false} OrdinaryView(conflicts: seq<Conflict>, candidates: set<Path>, p: Path)
    ensures ConflictsOf(Ordinary(conflicts, candidates), p) == if p in candidates then [] else ConflictsOf(conflicts, p)
  {
    if conflicts != [] {
      OrdinaryView(conflicts[1..], candidates, p);
      var rest := Ordinary(conflicts[1..], candidates);
      assert ([conflicts[0]] + rest)[1..] == rest;
    }
  }

  lemma {:induction false} OrdinarySorted(conflicts: seq<Conflict>, candidates: set<Path>)
    requires SortedConflicts(conflicts)
    ensures SortedConflicts(Ordinary(conflicts, candidates))
    ensures forall c :: c in Ordinary(conflicts, candidates) ==> c in conflicts
  {
    if conflicts != [] {
      OrdinarySorted(conflicts[1..], candidates);
      var rest := Ordinary(conflicts[1..], candidates);
      forall j | 0 <= j < |rest|
        ensures Bytes.Less(conflicts[0].path, rest[j].path)
      {
        assert rest[j] in conflicts[1..];
      }
    }
  }

  lemma EmptyView(conflicts: seq<Conflict>)
    requires forall p :: ConflictsOf(conflicts, p) == []
    ensures conflicts == []
  {
    if conflicts != [] {
      ConflictIn(conflicts, 0);
    }
  }

  /** A path before all of a sorted list has no conflict in it. */
  lemma {:induction false} NoneBefore(conflicts: seq<Conflict>, p: Path)
    requires forall k :: 0 <= k < |conflicts| ==> Bytes.Less(p, conflicts[k].path)
    ensures ConflictsOf(conflicts, p) == []
  {
    if conflicts != [] {
      LessIrreflexive(p);
      NoneBefore(conflicts[1..], p);
    }
  }

  lemma HeadView(conflicts: seq<Conflict>)
    requires SortedConflicts(conflicts) && conflicts != []
    ensures ConflictsOf(conflicts, conflicts[0].path) == [conflicts[0]]
  {
    NoneBefore(conflicts[1..], conflicts[0].path);
  }

  lemma FirstPath(x: seq<Conflict>, y: seq<Conflict>)
    requires SortedConflicts(x) && SortedConflicts(y) && x != [] && y != []
    requires forall p :: ConflictsOf(x, p) == ConflictsOf(y, p)
    ensures !Bytes.Less(x[0].path, y[0].path)
  {
    if Bytes.Less(x[0].path, y[0].path) {
      HeadView(x);
      forall k | 0 <= k < |y|
        ensures Bytes.Less(x[0].path, y[k].path)
      {
        if k > 0 {
          LessTransitive(x[0].path, y[0].path, y[k].path);
        }
      }
      NoneBefore(y, x[0].path);
    }
  }

  /** A sorted conflict list is determined by what it holds at each path. */
  lemma {:induction false} ConflictListsEqual(x: seq<Conflict>, y: seq<Conflict>)
    requires SortedConflicts(x) && SortedConflicts(y)
    requires forall p :: ConflictsOf(x, p) == ConflictsOf(y, p)
    ensures x == y
  {
    if x == [] {
      EmptyView(y);
    } else if y == [] {
      EmptyView(x);
    } else {
      FirstPath(x, y);
      FirstPath(y, x);
      LessTotal(x[0].path, y[0].path);
      HeadView(x);
      HeadView(y);
      assert x[0] == y[0];
      forall p
        ensures ConflictsOf(x[1..], p) == ConflictsOf(y[1..], p)
      {
        assert ConflictsOf(x, p) == ConflictsOf(y, p);
        if p == x[0].path {
          NoneBefore(x[1..], p);
          NoneBefore(y[1..], p);
        }
      }
      ConflictListsEqual(x[1..], y[1..]);
      assert x == [x[0]] + x[1..] && y == [y[0]] + y[1..];
    }
  }

  // ---------------------------------------------------------------- record lists

  lemma InByPath(records: seq<Record>, p: Path)
    ensures p in ByPath(records) <==> p in PathsOf(records)
  {
    if p in ByPath(records) {
      RecordPresent(records, p);
    }
    if p in PathsOf(records) {
      var k :| 0 <= k < |records| && PathsOf(records)[k] == p;
      assert records[k] in records;
    }
  }

  lemma UniqueByPaths(x: seq<Record>, y: seq<Record>)
    requires UniquePaths(x) && PathsOf(x) == PathsOf(y)
    ensures UniquePaths(y)
  {
    forall i, j | 0 <= i < j < |y|
      ensures y[i].path != y[j].path
    {
      assert y[i].path == PathsOf(y)[i] == x[i].path && y[j].path == PathsOf(y)[j] == x[j].path;
    }
  }

  lemma {:induction false} ReplaceRecordIndex(records: seq<Record>, p: Path, r: Record) returns (i: nat)
    requires ReplaceRecord(records, p, r).Done?
    ensures i < |records| && records[i].path == p
    ensures ReplaceRecord(records, p, r).value == records[i := r]
  {
    if records[0].path == p {
      i := 0;
    } else {
      var m := ReplaceRecordIndex(records[1..], p, r);
      i := m + 1;
    }
  }

  lemma RecordListed(records: seq<Record>, q: Path) returns (k: nat)
    requires UniquePaths(records) && q in ByPath(records)
    ensures k < |records| && records[k].path == q && ByPath(records)[q] == records[k]
  {
    RecordPresent(records, q);
    k :| 0 <= k < |records| && PathsOf(records)[k] == q;
    ByPathUnique(records, k);
  }

  /** Two lists with the same paths look up the same paths. */
  lemma SamePathsLookup(x: seq<Record>, y: seq<Record>, q: Path)
    requires PathsOf(x) == PathsOf(y)
    ensures q in ByPath(x) <==> q in ByPath(y)
  {
    InByPath(x, q);
    InByPath(y, q);
  }

  lemma UpdatedAt(records: seq<Record>, after: seq<Record>, i: nat, r: Record, q: Path)
    requires UniquePaths(records) && UniquePaths(after) && i < |records| && records[i].path == r.path
    requires after == records[i := r] && q in ByPath(records)
    ensures q in ByPath(after) && ByPath(after)[q] == if q == r.path then r else ByPath(records)[q]
  {
    var k := RecordListed(records, q);
    ByPathUnique(after, k);
  }

  lemma ReplaceRecordView(records: seq<Record>, p: Path, r: Record, q: Path)
    requires UniquePaths(records) && r.path == p && ReplaceRecord(records, p, r).Done?
    ensures var after := ReplaceRecord(records, p, r).value;
            && UniquePaths(after) && |after| == |records|
            && (q in ByPath(after) <==> q in ByPath(records))
            && (q in ByPath(records) ==> ByPath(after)[q] == if q == p then r else ByPath(records)[q])
  {
    var after := ReplaceRecord(records, p, r).value;
    var i := ReplaceRecordIndex(records, p, r);
    ReplaceRecordPaths(records, p, r);
    UniqueByPaths(records, after);
    SamePathsLookup(records, after, q);
    if q in ByPath(records) {
      UpdatedAt(records, after, i, r, q);
    }
  }

  // ---------------------------------------------------------------- the plan's shape

  predicate CandidateOk(plan: Plan, c: MergeCandidate)
  {
    && c.path == c.winner.path == c.loser.path
    && c.path in ByPath(plan.records) && ByPath(plan.records)[c.path] == c.winner
    && ConflictsOf(plan.conflicts, c.path) == []
  }

  /** What `reconcile` guarantees of a plan. */
  ghost predicate WellShaped(plan: Plan)
  {
    && UniquePaths(plan.records)
    && SortedConflicts(plan.conflicts)
    && CanonicalOrder(plan.merges)
    && forall k :: 0 <= k < |plan.merges| ==> CandidateOk(plan, plan.merges[k])
  }

  lemma {:induction false} CanonicalDistinct(cs: seq<MergeCandidate>, i: nat, j: nat)
    requires CanonicalOrder(cs) && i < j < |cs|
    ensures Bytes.Less(cs[i].path, cs[j].path) && cs[i].path != cs[j].path
    decreases j
  {
    if i < j - 1 {
      CanonicalDistinct(cs, i, j - 1);
      LessTransitive(cs[i].path, cs[j - 1].path, cs[j].path);
    }
    LessIrreflexive(cs[i].path);
  }

  lemma {:induction false} CollectSorted(l: map<Path, Record>, r: map<Path, Record>, paths: seq<Path>)
    requires Covered(l, r, paths) && PathKeys(l) && PathKeys(r) && StrictlySorted(paths)
    ensures var plan := Collect(l, r, paths);
            && SortedConflicts(plan.conflicts) && CanonicalOrder(plan.merges)
            && (forall c :: c in plan.conflicts ==> c.path in paths)
            && (forall m :: m in plan.merges ==> m.path in paths)
  {
    if paths != [] {
      var d := DecideAt(l, r, paths[0]);
      var rest := Collect(l, r, paths[1..]);
      CollectSorted(l, r, paths[1..]);
      DecideAtPath(l, r, paths[0]);
      SortedFront(d.conflicts, rest.conflicts, paths);
      OrderedFront(d.merges, rest.merges, paths);
    }
  }

  lemma SortedFront(x: seq<Conflict>, y: seq<Conflict>, paths: seq<Path>)
    requires StrictlySorted(paths) && paths != [] && |x| <= 1 && SortedConflicts(y)
    requires forall c :: c in x ==> c.path == paths[0]
    requires forall c :: c in y ==> c.path in paths[1..]
    ensures SortedConflicts(x + y) && forall c :: c in x + y ==> c.path in paths
  {
    forall c | c in y
      ensures Bytes.Less(paths[0], c.path) && c.path in paths
    {
      var k :| 0 <= k < |paths[1..]| && paths[1..][k] == c.path;
      assert paths[k + 1] == c.path;
    }
    forall i, j | 0 <= i < j < |x + y|
      ensures Bytes.Less((x + y)[i].path, (x + y)[j].path)
    {
      assert (x + y)[j] == y[j - |x|] && y[j - |x|] in y;
      if i < |x| {
        assert (x + y)[i] == x[i] && x[i] in x;
      } else {
        assert (x + y)[i] == y[i - |x|];
      }
    }
  }

  lemma OrderedFront(x: seq<MergeCandidate>, y: seq<MergeCandidate>, paths: seq<Path>)
    requires StrictlySorted(paths) && paths != [] && |x| <= 1 && CanonicalOrder(y)
    requires forall c :: c in x ==> c.path == paths[0]
    requires forall c :: c in y ==> c.path in paths[1..]
    ensures CanonicalOrder(x + y) && forall c :: c in x + y ==> c.path in paths
  {
    forall c | c in y
      ensures Bytes.Less(paths[0], c.path) && c.path in paths
    {
      var k :| 0 <= k < |paths[1..]| && paths[1..][k] == c.path;
      assert paths[k + 1] == c.path;
    }
    forall k | 0 < k < |x + y|
      ensures Bytes.Less((x + y)[k - 1].path, (x + y)[k].path)
    {
      assert (x + y)[k] == y[k - |x|] && y[k - |x|] in y;
      if k - 1 < |x| {
        assert (x + y)[k - 1] == x[k - 1] && x[k - 1] in x;
      } else {
        assert (x + y)[k - 1] == y[k - 1 - |x|];
      }
    }
  }

  lemma {:induction false} MergeListed(merges: seq<MergeCandidate>, k: nat)
    requires k < |merges|
    ensures merges[k] in MergesOf(merges, merges[k].path)
  {
    if k > 0 {
      MergeListed(merges[1..], k - 1);
    }
  }

  lemma PlanWellShaped(local: seq<Record>, remote: seq<Record>)
    ensures WellShaped(PlanOf(local, remote))
  {
    var l, r := ByPath(local), ByPath(remote);
    var plan := PlanOf(local, remote);
    PlanCovers(local, remote);
    CollectSorted(l, r, AllPaths(local, remote));
    forall k | 0 <= k < |plan.merges|
      ensures CandidateOk(plan, plan.merges[k])
    {
      assert plan.merges[k] in plan.merges;
      PlanCandidateOk(local, remote, k);
    }
  }

  lemma PlanCandidateOk(local: seq<Record>, remote: seq<Record>, k: nat)
    requires k < |PlanOf(local, remote).merges|
    requires PlanOf(local, remote).merges[k].path in AllPaths(local, remote)
    ensures CandidateOk(PlanOf(local, remote), PlanOf(local, remote).merges[k])
  {
    var l, r := ByPath(local), ByPath(remote);
    var plan := PlanOf(local, remote);
    var c := plan.merges[k];
    PlanAt(local, remote, c.path);
    MergeListed(plan.merges, k);
    var d := DecideAt(l, r, c.path);
    assert c in d.merges;
    DecideAtPath(l, r, c.path);
  }

  // ---------------------------------------------------------------- the materialized plan, path by path

  lemma OutcomeConflictsPath(c: MergeCandidate, outcome: Outcome<ComputedMerge>, result: Record)
    requires c.path == c.winner.path
    ensures var cs := OutcomeConflicts(c, outcome, result);
            |cs| <= 1 && (cs != [] ==> cs[0].path == c.path)
  {
  }

  /** All a plan says of a path, its candidates left aside. */
  function View(plan: Plan, q: Path): (Option<Record>, seq<Conflict>)
  {
    var m := ByPath(plan.records);
    (if q in m then Some(m[q]) else None, ConflictsOf(plan.conflicts, q))
  }

  /** What one candidate makes of the view of a path. */
  function ViewStep(v: (Option<Record>, seq<Conflict>), c: MergeCandidate, outcome: Outcome<ComputedMerge>,
                    result: Record, q: Path): (Option<Record>, seq<Conflict>)
  {
    if c.path != q then v
    else (if v.0.Some? && outcome.Success? then Some(result) else v.0, OutcomeConflicts(c, outcome, result))
  }

  /** One candidate changes its own path only. */
  lemma ReplaceCandidateView(plan: Plan, c: MergeCandidate, outcome: Outcome<ComputedMerge>, result: Record, q: Path)
    requires UniquePaths(plan.records) && result.path == c.path == c.winner.path
    requires ReplaceCandidate(plan, c, outcome, result).Done?
    ensures View(ReplaceCandidate(plan, c, outcome, result).value, q) == ViewStep(View(plan, q), c, outcome, result, q)
  {
    CandidateConflictsView(plan.conflicts, c, outcome, result, q);
    if outcome.Success? {
      ReplaceRecordView(plan.records, c.path, result, q);
    }
  }

  lemma CandidateConflictsView(conflicts: seq<Conflict>, c: MergeCandidate, outcome: Outcome<ComputedMerge>,
                               result: Record, q: Path)
    requires c.path == c.winner.path
    ensures ConflictsOf(WithoutPath(conflicts, c.path) + OutcomeConflicts(c, outcome, result), q)
            == if q == c.path then OutcomeConflicts(c, outcome, result) else ConflictsOf(conflicts, q)
  {
    OutcomeConflictsPath(c, outcome, result);
    ConflictsOfSnoc(WithoutPath(conflicts, c.path), OutcomeConflicts(c, outcome, result), q);
    WithoutPathView(conflicts, c.path, q);
  }

  /** What all candidates make of it. */
  function ViewAfter(v: (Option<Record>, seq<Conflict>), cs: seq<MergeCandidate>, outcomes: seq<Outcome<ComputedMerge>>,
                     peer: PeerId, sequences: seq<nat>, sign: Signer, q: Path): (Option<Record>, seq<Conflict>)
    requires |sequences| <= |cs| == |outcomes|
    decreases |sequences|
  {
    var n := |sequences|;
    if n == 0 then v
    else
      ViewStep(ViewAfter(v, cs, outcomes, peer, sequences[..n - 1], sign, q), cs[n - 1], outcomes[n - 1],
               OutcomeRecord(cs[n - 1], outcomes[n - 1], peer, sequences[n - 1], sign), q)
  }

  lemma {:induction false} ReplaceAllView(plan: Plan, outcomes: seq<Outcome<ComputedMerge>>, peer: PeerId,
                                          sequences: seq<nat>, sign: Signer, q: Path)
    requires Signs(sign) && UniquePaths(plan.records) && CandidatesRecorded(plan)
    requires |sequences| <= |plan.merges| == |outcomes|
    requires forall i :: 0 <= i < |plan.merges| ==> plan.merges[i].path == plan.merges[i].winner.path
    requires ReplaceAll(plan, plan.merges, outcomes, peer, sequences, sign).Done?
    ensures View(ReplaceAll(plan, plan.merges, outcomes, peer, sequences, sign).value, q)
            == ViewAfter(View(plan, q), plan.merges, outcomes, peer, sequences, sign, q)
    decreases |sequences|
  {
    var n := |sequences|;
    if n > 0 {
      ReplaceAllDone(plan, outcomes, peer, sequences[..n - 1], sign);
      var before := ReplaceAll(plan, plan.merges, outcomes, peer, sequences[..n - 1], sign).value;
      ReplaceAllView(plan, outcomes, peer, sequences[..n - 1], sign, q);
      UniqueByPaths(plan.records, before.records);
      OutcomeRecordPath(plan.merges[n - 1], outcomes[n - 1], peer, sequences[n - 1], sign);
      ReplaceCandidateView(before, plan.merges[n - 1], outcomes[n - 1],
                           OutcomeRecord(plan.merges[n - 1], outcomes[n - 1], peer, sequences[n - 1], sign), q);
    }
  }

  /** Candidates have different paths, so each path sees one of them at most. */
  lemma {:induction false} ViewAfterAt(v: (Option<Record>, seq<Conflict>), cs: seq<MergeCandidate>,
                                       outcomes: seq<Outcome<ComputedMerge>>, peer: PeerId, sequences: seq<nat>,
                                       sign: Signer, q: Path, k: nat)
    requires CanonicalOrder(cs) && |sequences| <= |cs| == |outcomes|
    requires k < |cs| && cs[k].path == q
    ensures ViewAfter(v, cs, outcomes, peer, sequences, sign, q)
            == if k < |sequences| then
                 var result := OutcomeRecord(cs[k], outcomes[k], peer, sequences[k], sign);
                 (if v.0.Some? && outcomes[k].Success? then Some(result) else v.0,
                  OutcomeConflicts(cs[k], outcomes[k], result))
               else v
    decreases |sequences|
  {
    var n := |sequences|;
    if n > 0 {
      ViewAfterAt(v, cs, outcomes, peer, sequences[..n - 1], sign, q, k);
      if k < n - 1 {
        CanonicalDistinct(cs, k, n - 1);
      } else if k > n - 1 {
        CanonicalDistinct(cs, n - 1, k);
      }
    }
  }

  lemma {:induction false} ViewAfterElse(v: (Option<Record>, seq<Conflict>), cs: seq<MergeCandidate>,
                                         outcomes: seq<Outcome<ComputedMerge>>, peer: PeerId, sequences: seq<nat>,
                                         sign: Signer, q: Path)
    requires |sequences| <= |cs| == |outcomes|
    requires forall k :: 0 <= k < |cs| ==> cs[k].path != q
    ensures ViewAfter(v, cs, outcomes, peer, sequences, sign, q) == v
    decreases |sequences|
  {
    if |sequences| > 0 {
      ViewAfterElse(v, cs, outcomes, peer, sequences[..|sequences| - 1], sign, q);
    }
  }

  lemma WellShapedCandidates(plan: Plan)
    requires WellShaped(plan)
    ensures CandidatesRecorded(plan)
    ensures forall i :: 0 <= i < |plan.merges| ==> plan.merges[i].path == plan.merges[i].winner.path
  {
    forall k | 0 <= k < |plan.merges|
      ensures plan.merges[k].path in PathsOf(plan.records)
    {
      assert CandidateOk(plan, plan.merges[k]);
      InByPath(plan.records, plan.merges[k].path);
    }
  }

  lemma {:induction false} ReplaceAllDone(plan: Plan, outcomes: seq<Outcome<ComputedMerge>>, peer: PeerId,
                                          sequences: seq<nat>, sign: Signer)
    requires Signs(sign) && CandidatesRecorded(plan) && |sequences| <= |plan.merges| == |outcomes|
    requires forall i :: 0 <= i < |plan.merges| ==> plan.merges[i].path == plan.merges[i].winner.path
    ensures var r := ReplaceAll(plan, plan.merges, outcomes, peer, sequences, sign);
            r.Done? && PathsOf(r.value.records) == PathsOf(plan.records) && r.value.merges == plan.merges
    decreases |sequences|
  {
    var n := |sequences|;
    if n > 0 {
      ReplaceAllDone(plan, outcomes, peer, sequences[..n - 1], sign);
      var before := ReplaceAll(plan, plan.merges, outcomes, peer, sequences[..n - 1], sign).value;
      OutcomeRecordPath(plan.merges[n - 1], outcomes[n - 1], peer, sequences[n - 1], sign);
      ReplaceCandidateTotal(before, plan.merges[n - 1], outcomes[n - 1],
                            OutcomeRecord(plan.merges[n - 1], outcomes[n - 1], peer, sequences[n - 1], sign));
    }
  }

  /** What the materialized plan must say at a path: a candidate's outcome at its path,
      the plan's own word everywhere else. */
  ghost predicate Expected(plan: Plan, outcomes: seq<Outcome<ComputedMerge>>, peer: PeerId, sequences: seq<nat>,
                           sign: Signer, materialized: Plan)
    requires |plan.merges| == |outcomes| == |sequences|
  {
    && (forall k :: 0 <= k < |plan.merges| ==>
          var result := OutcomeRecord(plan.merges[k], outcomes[k], peer, sequences[k], sign);
          View(materialized, plan.merges[k].path)
          == (Some(result), OutcomeConflicts(plan.merges[k], outcomes[k], result)))
    && (forall q :: (forall k :: 0 <= k < |plan.merges| ==> plan.merges[k].path != q) ==>
          View(materialized, q) == View(plan, q))
  }

  /** A well-shaped plan can always be materialized: it keeps its paths and candidates,
      its conflicts are strictly in path order, and it says at each path what it must. */
  lemma MaterializedView(plan: Plan, outcomes: seq<Outcome<ComputedMerge>>, peer: PeerId, sequences: seq<nat>, sign: Signer)
    requires Signs(sign) && WellShaped(plan) && |plan.merges| == |outcomes| == |sequences|
    ensures var r := Materialized(plan, outcomes, peer, sequences, sign);
            && r.Done? && PathsOf(r.value.records) == PathsOf(plan.records) && r.value.merges == plan.merges
            && UniquePaths(r.value.records) && SortedConflicts(r.value.conflicts)
            && Expected(plan, outcomes, peer, sequences, sign, r.value)
  {
    WellShapedCandidates(plan);
    ReplaceAllDone(plan, outcomes, peer, sequences, sign);
    var replaced := ReplaceAll(plan, plan.merges, outcomes, peer, sequences, sign).value;
    var after := replaced.(conflicts := SortConflicts(replaced.conflicts));
    UniqueByPaths(plan.records, after.records);
    forall q
      ensures View(after, q) == ViewAfter(View(plan, q), plan.merges, outcomes, peer, sequences, sign, q)
    {
      SortedView(plan, outcomes, peer, sequences, sign, replaced, q);
    }
    ExpectedFromViews(plan, outcomes, peer, sequences, sign, after);
    SingleConflicts(plan, outcomes, peer, sequences, sign, after);
    SortSorts(replaced.conflicts);
    SortStrictly(after.conflicts);
  }

  lemma SortedView(plan: Plan, outcomes: seq<Outcome<ComputedMerge>>, peer: PeerId, sequences: seq<nat>, sign: Signer,
                   replaced: Plan, q: Path)
    requires Signs(sign) && WellShaped(plan) && |plan.merges| == |outcomes| == |sequences|
    requires ReplaceAll(plan, plan.merges, outcomes, peer, sequences, sign) == Done(replaced)
    ensures View(replaced.(conflicts := SortConflicts(replaced.conflicts)), q)
            == ViewAfter(View(plan, q), plan.merges, outcomes, peer, sequences, sign, q)
  {
    WellShapedCandidates(plan);
    ReplaceAllView(plan, outcomes, peer, sequences, sign, q);
    SortView(replaced.conflicts, q);
  }

  lemma ExpectedFromViews(plan: Plan, outcomes: seq<Outcome<ComputedMerge>>, peer: PeerId, sequences: seq<nat>,
                          sign: Signer, after: Plan)
    requires WellShaped(plan) && |plan.merges| == |outcomes| == |sequences|
    requires forall q :: View(after, q) == ViewAfter(View(plan, q), plan.merges, outcomes, peer, sequences, sign, q)
    ensures Expected(plan, outcomes, peer, sequences, sign, after)
  {
    forall k | 0 <= k < |plan.merges|
      ensures var result := OutcomeRecord(plan.merges[k], outcomes[k], peer, sequences[k], sign);
              View(after, plan.merges[k].path) == (Some(result), OutcomeConflicts(plan.merges[k], outcomes[k], result))
    {
      var q := plan.merges[k].path;
      assert CandidateOk(plan, plan.merges[k]);
      ViewAfterAt(View(plan, q), plan.merges, outcomes, peer, sequences, sign, q, k);
    }
    forall q | forall k :: 0 <= k < |plan.merges| ==> plan.merges[k].path != q
      ensures View(after, q) == View(plan, q)
    {
      ViewAfterElse(View(plan, q), plan.merges, outcomes, peer, sequences, sign, q);
    }
  }

  lemma SingleConflicts(plan: Plan, outcomes: seq<Outcome<ComputedMerge>>, peer: PeerId, sequences: seq<nat>,
                        sign: Signer, after: Plan)
    requires WellShaped(plan) && |plan.merges| == |outcomes| == |sequences|
    requires Expected(plan, outcomes, peer, sequences, sign, after)
    ensures forall q :: |ConflictsOf(after.conflicts, q)| <= 1
  {
    forall q
      ensures |ConflictsOf(after.conflicts, q)| <= 1
    {
      assert ConflictsOf(after.conflicts, q) == View(after, q).1;
      if k :| 0 <= k < |plan.merges| && plan.merges[k].path == q {
        var result := OutcomeRecord(plan.merges[k], outcomes[k], peer, sequences[k], sign);
        assert View(after, plan.merges[k].path).1 == OutcomeConflicts(plan.merges[k], outcomes[k], result);
        OutcomeConflictsFew(plan.merges[k], outcomes[k], result);
      } else {
        assert View(after, q) == View(plan, q);
        AtMostOne(plan.conflicts, q);
      }
    }
  }

  lemma OutcomeConflictsFew(c: MergeCandidate, outcome: Outcome<ComputedMerge>, result: Record)
    ensures |OutcomeConflicts(c, outcome, result)| <= 1
  {
  }

  lemma {:induction false} AtMostOne(conflicts: seq<Conflict>, q: Path)
    requires SortedConflicts(conflicts)
    ensures |ConflictsOf(conflicts, q)| <= 1
  {
    if conflicts != [] {
      AtMostOne(conflicts[1..], q);
      if conflicts[0].path == q {
        NoneBefore(conflicts[1..], q);
      }
    }
  }
}
