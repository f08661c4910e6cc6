/** Path-by-path reconciliation of two record lists into one plan
    (src/reconcile.rs). */
module Reconcile {
  import opened Bytes
  import opened Model
  import Merge

  datatype ConflictResolution =
    | MergedWithOverlaps
    | WholeFile(winner: nat, reason: Merge.FallbackReason)
    | Destructive(winner: nat)

  /** The two inputs are kept in the order of their identities. */
  datatype Conflict = Conflict(
    path: Path,
    resolution: ConflictResolution,
    base: Option<BaseVersion>,
    input0: Record,
    input1: Record,
    merged: Option<Record>,
    hunks: seq<Merge.ConflictHunk>)
  {
    function WinnerIndex(): nat
    {
      match resolution
      case WholeFile(winner, _) => winner
      case Destructive(winner) => winner
      case MergedWithOverlaps => if LwwCmp(input1.version, input0.version) == Greater then 1 else 0
    }

    function Input(index: nat): Record { if index == 0 then input0 else input1 }

    function Winner(): Record { if merged.Some? then merged.value else Input(WinnerIndex()) }

    function Loser(): Record { if WinnerIndex() == 0 then input1 else input0 }

    predicate HasInput(r: Record) { r == input0 || r == input1 }
  }

  datatype MergeCandidate = MergeCandidate(path: Path, base: BaseVersion, winner: Record, loser: Record)

  datatype Plan = Plan(records: seq<Record>, conflicts: seq<Conflict>, merges: seq<MergeCandidate>)

  // ---------------------------------------------------------------- conflicts

  predicate IdAtMost(a: VersionId, b: VersionId)
  {
    ThenWith(CompareBytes(a.peer, b.peer), CompareInts(a.sequence, b.sequence)) != Greater
  }

  /** The inputs in identity order, and where the first argument went. */
  function CanonicalInputs(a: Record, b: Record): (Record, Record, nat)
  {
    if IdAtMost(a.version.Id(), b.version.Id()) then (a, b, 0) else (b, a, 1)
  }

  function WholeFileConflict(winner: Record, loser: Record, reason: Merge.FallbackReason): Conflict
  {
    var (i0, i1, w) := CanonicalInputs(winner, loser);
    Conflict(winner.path, WholeFile(w, reason), None, i0, i1, None, [])
  }

  function DestructiveConflict(winner: Record, loser: Record): Conflict
  {
    var (i0, i1, w) := CanonicalInputs(winner, loser);
    Conflict(winner.path, Destructive(w), None, i0, i1, None, [])
  }

  function MergedConflict(base: BaseVersion, winner: Record, loser: Record, merged: Record,
                          hunks: seq<Merge.ConflictHunk>): Conflict
  {
    var (i0, i1, _) := CanonicalInputs(winner, loser);
    Conflict(winner.path, MergedWithOverlaps, Some(base), i0, i1, Some(merged), hunks)
  }

  /** The canonical form does not depend on which input came first. */
  lemma CanonicalSwap(a: Record, b: Record)
    requires a.version.peer != b.version.peer || a.version.sequence != b.version.sequence
    ensures var (x, y, w) := CanonicalInputs(a, b);
            CanonicalInputs(b, a) == (x, y, 1 - w)
  {
    LessTotal(a.version.peer, b.version.peer);
    if Bytes.Less(a.version.peer, b.version.peer) {
      LessAsymmetric(a.version.peer, b.version.peer);
    } else if Bytes.Less(b.version.peer, a.version.peer) {
      LessAsymmetric(b.version.peer, a.version.peer);
    }
  }

  /** A conflict gives back the winner and the loser it was built from. For an
      overlap the index is recomputed from the inputs, which needs the winner to be
      strictly later. */
  lemma ConflictRemembers(base: BaseVersion, winner: Record, loser: Record, merged: Record,
                          hunks: seq<Merge.ConflictHunk>, reason: Merge.FallbackReason)
    ensures WholeFileConflict(winner, loser, reason).Winner() == winner
    ensures WholeFileConflict(winner, loser, reason).Loser() == loser
    ensures DestructiveConflict(winner, loser).Winner() == winner
    ensures DestructiveConflict(winner, loser).Loser() == loser
    ensures MergedConflict(base, winner, loser, merged, hunks).Winner() == merged
    ensures LwwCmp(winner.version, loser.version) == Greater ==>
              MergedConflict(base, winner, loser, merged, hunks).Loser() == loser
  {
    LwwAntisymmetric(winner.version, loser.version);
  }

  // ---------------------------------------------------------------- one path

  datatype Decision = Decision(record: Record, conflicts: seq<Conflict>, merges: seq<MergeCandidate>)

  predicate GenuineBase(winner: Version, loser: Version)
  {
    && winner.mergeBase.Some? && loser.mergeBase.Some? && winner.mergeBase == loser.mergeBase
    && winner.HasSeen(winner.mergeBase.value.id) && loser.HasSeen(winner.mergeBase.value.id)
  }

  function Settle(winner: Record, loser: Record): Decision
  {
    if winner.version.entry.File? && loser.version.entry.File? then
      if GenuineBase(winner.version, loser.version) then
        Decision(winner, [], [MergeCandidate(winner.path, winner.version.mergeBase.value, winner, loser)])
      else
        var reason :=
          if winner.version.mergeBase.None? || loser.version.mergeBase.None? then Merge.AbsentBase else Merge.UnequalBase;
        Decision(winner, [WholeFileConflict(winner, loser, reason)], [])
    else if winner.version.entry.File? || loser.version.entry.File? then
      Decision(winner, [DestructiveConflict(winner, loser)], [])
    else Decision(winner, [], [])
  }

  function Decide(a: Record, b: Record): Decision
  {
    if a.version.Id() == b.version.Id() then Decision(a, [], [])
    else if a.version.HasSeen(b.version.Id()) then Decision(a, [], [])
    else if b.version.HasSeen(a.version.Id()) then Decision(b, [], [])
    else if a.version.entry == b.version.entry then
      Decision(if LwwCmp(a.version, b.version) != Less then a else b, [], [])
    else if LwwCmp(a.version, b.version) != Less then Settle(a, b)
    else Settle(b, a)
  }

  /** What keeps a pair of versions of one path from being judged differently by the
      two peers: one identity is one version, sight is one-way, and unrelated
      versions are strictly ordered. */
  predicate Comparable(a: Record, b: Record)
  {
    if a.version.Id() == b.version.Id() then a == b
    else if a.version.HasSeen(b.version.Id()) then !b.version.HasSeen(a.version.Id())
    else b.version.HasSeen(a.version.Id()) || LwwCmp(a.version, b.version) != Equal
  }

  /** The two peers judge a pair alike exactly when it is comparable, and a
      disagreement already shows in the chosen record. */
  lemma DecideSymmetric(a: Record, b: Record)
    ensures Comparable(a, b) <==> Decide(a, b) == Decide(b, a)
    ensures Comparable(a, b) <==> Decide(a, b).record == Decide(b, a).record
    ensures Comparable(a, b) <==> Comparable(b, a)
  {
    LwwAntisymmetric(a.version, b.version);
  }

  // ---------------------------------------------------------------- maps and sorted paths

  predicate StrictlySorted(paths: seq<Path>)
  {
    forall i, j :: 0 <= i < j < |paths| ==> Bytes.Less(paths[i], paths[j])
  }

  /** Adds a path to a sorted set. */
  function InsertPath(paths: seq<Path>, p: Path): seq<Path>
  {
    if paths == [] then [p]
    else if p == paths[0] then paths
    else if Bytes.Less(p, paths[0]) then [p] + paths
    else [paths[0]] + InsertPath(paths[1..], p)
  }

  function SortPaths(paths: seq<Path>): seq<Path>
  {
    if paths == [] then [] else InsertPath(SortPaths(paths[1..]), paths[0])
  }

  lemma {:induction false} InsertSorted(paths: seq<Path>, p: Path)
    requires StrictlySorted(paths)
    ensures StrictlySorted(InsertPath(paths, p))
    ensures forall q :: q in InsertPath(paths, p) <==> q in paths || q == p
  {
    if paths != [] && p != paths[0] {
      var head, tail := paths[0], paths[1..];
      assert paths == [head] + tail;
      if Bytes.Less(p, head) {
        forall j | 0 <= j < |paths|
          ensures Bytes.Less(p, paths[j])
        {
          if j > 0 {
            LessTransitive(p, head, paths[j]);
          }
        }
      } else {
        InsertSorted(tail, p);
        LessTotal(p, head);
        var rest := InsertPath(tail, p);
        forall j | 0 <= j < |rest|
          ensures Bytes.Less(head, rest[j])
        {
          assert rest[j] in rest;
          if rest[j] != p {
            var k :| 0 <= k < |tail| && tail[k] == rest[j];
            assert paths[k + 1] == rest[j];
          }
        }
      }
    }
  }

  lemma {:induction false} SortPathsSorted(paths: seq<Path>)
    ensures StrictlySorted(SortPaths(paths))
    ensures forall q :: q in SortPaths(paths) <==> q in paths
  {
    if paths != [] {
      SortPathsSorted(paths[1..]);
      InsertSorted(SortPaths(paths[1..]), paths[0]);
      assert paths == [paths[0]] + paths[1..];
    }
  }

  /** A set of paths has one sorted list. */
  lemma {:induction false} SortedUnique(x: seq<Path>, y: seq<Path>)
    requires StrictlySorted(x) && StrictlySorted(y)
    requires forall q :: q in x <==> q in y
    ensures x == y
  {
    if x == [] && y != [] {
      HeadIsMember(y);
      assert false;
    } else if x != [] {
      assert x[0] in y && y != [];
      assert y[0] in x;
      assert x[0] == y[0] by {
        HeadFirst(x, y[0]);
        HeadFirst(y, x[0]);
        if x[0] != y[0] {
          LessAsymmetric(x[0], y[0]);
        }
      }
      forall q
        ensures q in x[1..] <==> q in y[1..]
      {
        TailMembers(x, q);
        TailMembers(y, q);
      }
      SortedUnique(x[1..], y[1..]);
      assert x == [x[0]] + x[1..] && y == [y[0]] + y[1..];
    }
  }

  lemma HeadIsMember(x: seq<Path>)
    requires x != []
    ensures x[0] in x
  {
  }

  lemma HeadFirst(x: seq<Path>, q: Path)
    requires StrictlySorted(x) && q in x
    ensures x[0] == q || Bytes.Less(x[0], q)
  {
  }

  lemma TailMembers(x: seq<Path>, q: Path)
    requires StrictlySorted(x) && x != []
    ensures q in x[1..] <==> q in x && q != x[0]
  {
    if q in x[1..] {
      var k :| 0 <= k < |x[1..]| && x[1..][k] == q;
      assert x[k + 1] == q;
      LessIrreflexive(q);
    }
  }

  /** Collecting records into a map: a later record of a path replaces an earlier one. */
  function ByPath(records: seq<Record>): (m: map<Path, Record>)
    ensures forall p :: p in m ==> m[p].path == p && m[p] in records
    ensures forall r :: r in records ==> r.path in m
  {
    if records == [] then map[]
    else
      var last := records[|records| - 1];
      var m := ByPath(records[..|records| - 1])[last.path := last];
      assert records == records[..|records| - 1] + [last];
      m
  }

  function PathsOf(records: seq<Record>): (r: seq<Path>)
    ensures |r| == |records|
    ensures forall k :: 0 <= k < |r| ==> r[k] == records[k].path
  {
    if records == [] then [] else [records[0].path] + PathsOf(records[1..])
  }

  predicate UniquePaths(records: seq<Record>)
  {
    forall i, j :: 0 <= i < j < |records| ==> records[i].path != records[j].path
  }

  lemma {:induction false} ByPathUnique(records: seq<Record>, k: nat)
    requires UniquePaths(records) && k < |records|
    ensures records[k].path in ByPath(records) && ByPath(records)[records[k].path] == records[k]
  {
    if k < |records| - 1 {
      ByPathUnique(records[..|records| - 1], k);
    }
  }

  // ---------------------------------------------------------------- the plan

  predicate Covered(local: map<Path, Record>, remote: map<Path, Record>, paths: seq<Path>)
  {
    forall k :: 0 <= k < |paths| ==> paths[k] in local || paths[k] in remote
  }

  function DecideAt(local: map<Path, Record>, remote: map<Path, Record>, p: Path): Decision
    requires p in local || p in remote
  {
    if p !in remote then Decision(local[p], [], [])
    else if p !in local then Decision(remote[p], [], [])
    else Decide(local[p], remote[p])
  }

  function Collect(local: map<Path, Record>, remote: map<Path, Record>, paths: seq<Path>): Plan
    requires Covered(local, remote, paths)
  {
    if paths == [] then Plan([], [], [])
    else
      var d := DecideAt(local, remote, paths[0]);
      var rest := Collect(local, remote, paths[1..]);
      Plan([d.record] + rest.records, d.conflicts + rest.conflicts, d.merges + rest.merges)
  }

  function AllPaths(local: seq<Record>, remote: seq<Record>): (paths: seq<Path>)
    ensures StrictlySorted(paths)
    ensures forall p :: p in paths <==> p in ByPath(local) || p in ByPath(remote)
  {
    var all := PathsOf(local + remote);
    SortPathsSorted(all);
    AllPathsMembers(local, remote);
    SortPaths(all)
  }

  lemma AllPathsMembers(local: seq<Record>, remote: seq<Record>)
    ensures forall p :: p in PathsOf(local + remote) <==> p in ByPath(local) || p in ByPath(remote)
  {
    var all := local + remote;
    forall p
      ensures p in PathsOf(all) <==> p in ByPath(local) || p in ByPath(remote)
    {
      if p in PathsOf(all) {
        var k :| 0 <= k < |all| && PathsOf(all)[k] == p;
        assert if k < |local| then all[k] == local[k] && all[k] in local
               else all[k] == remote[k - |local|] && all[k] in remote;
      }
      if p in ByPath(local) {
        var k :| 0 <= k < |local| && local[k] == ByPath(local)[p];
        assert all[k] == local[k] && PathsOf(all)[k] == p;
      }
      if p in ByPath(remote) {
        var k :| 0 <= k < |remote| && remote[k] == ByPath(remote)[p];
        assert all[|local| + k] == remote[k] && PathsOf(all)[|local| + k] == p;
      }
    }
  }

  function PlanOf(local: seq<Record>, remote: seq<Record>): Plan
  {
    Collect(ByPath(local), ByPath(remote), AllPaths(local, remote))
  }

  /** `reconcile`: walks the sorted union of paths and grows the three vectors. */
  method ReconcileRecords(local: seq<Record>, remote: seq<Record>) returns (plan: Plan)
    ensures plan == PlanOf(local, remote)
  {
    var localByPath := ByPath(local);
    var remoteByPath := ByPath(remote);
    var paths := AllPaths(local, remote);
    var records, conflicts, merges := [], [], [];
    assert paths[0..] == paths;
    JoinEmpty(Collect(localByPath, remoteByPath, paths));
    for k := 0 to |paths|
      invariant PlanOf(local, remote)
             == Join(Plan(records, conflicts, merges), Collect(localByPath, remoteByPath, paths[k..]))
    {
      var p := paths[k];
      var d;
      if p in localByPath && p in remoteByPath {
        d := Decide(localByPath[p], remoteByPath[p]);
      } else if p in localByPath {
        d := Decision(localByPath[p], [], []);
      } else {
        d := Decision(remoteByPath[p], [], []);
      }
      CollectNext(localByPath, remoteByPath, paths, k);
      JoinAssociative(Plan(records, conflicts, merges), Plan([d.record], d.conflicts, d.merges),
                      Collect(localByPath, remoteByPath, paths[k + 1..]));
      records := records + [d.record];
      conflicts := conflicts + d.conflicts;
      merges := merges + d.merges;
    }
    JoinEmpty(Plan(records, conflicts, merges));
    plan := Plan(records, conflicts, merges);
  }

  function Join(x: Plan, y: Plan): Plan
  {
    Plan(x.records + y.records, x.conflicts + y.conflicts, x.merges + y.merges)
  }

  lemma JoinEmpty(x: Plan)
    ensures Join(Plan([], [], []), x) == x && Join(x, Plan([], [], [])) == x
  {
  }

  lemma JoinAssociative(x: Plan, y: Plan, z: Plan)
    ensures Join(x, Join(y, z)) == Join(Join(x, y), z)
  {
  }

  lemma CollectNext(local: map<Path, Record>, remote: map<Path, Record>, paths: seq<Path>, k: nat)
    requires Covered(local, remote, paths) && k < |paths|
    ensures var d := DecideAt(local, remote, paths[k]);
            Collect(local, remote, paths[k..])
            == Join(Plan([d.record], d.conflicts, d.merges), Collect(local, remote, paths[k + 1..]))
  {
    assert paths[k..][0] == paths[k] && paths[k..][1..] == paths[k + 1..];
  }

  // ---------------------------------------------------------------- records cover the union of paths

  lemma {:induction false} CollectRecords(local: map<Path, Record>, remote: map<Path, Record>, paths: seq<Path>)
    requires Covered(local, remote, paths)
    ensures var plan := Collect(local, remote, paths);
            && |plan.records| == |paths|
            && forall k :: 0 <= k < |paths| ==> plan.records[k] == DecideAt(local, remote, paths[k]).record
  {
    if paths != [] {
      CollectRecords(local, remote, paths[1..]);
    }
  }

  lemma DecideAtPath(local: map<Path, Record>, remote: map<Path, Record>, p: Path)
    requires p in local || p in remote
    requires p in local ==> local[p].path == p
    requires p in remote ==> remote[p].path == p
    ensures var d := DecideAt(local, remote, p);
            && d.record.path == p && |d.conflicts| + |d.merges| <= 1
            && (forall c :: c in d.conflicts ==> c.path == p)
            && (forall m :: m in d.merges ==> m.path == p && m.winner == d.record && m.loser.path == p)
  {
  }

  /** The plan has one record per path of either side, in path order, each the
      decision of that path. */
  lemma PlanCovers(local: seq<Record>, remote: seq<Record>)
    ensures var plan := PlanOf(local, remote);
            var paths := AllPaths(local, remote);
            && PathsOf(plan.records) == paths && UniquePaths(plan.records)
            && forall k :: 0 <= k < |paths| ==>
                 plan.records[k] == DecideAt(ByPath(local), ByPath(remote), paths[k]).record
  {
    var paths := AllPaths(local, remote);
    var l, r := ByPath(local), ByPath(remote);
    CollectRecords(l, r, paths);
    forall k | 0 <= k < |paths|
      ensures PathsOf(PlanOf(local, remote).records)[k] == paths[k]
    {
      DecideAtPath(l, r, paths[k]);
    }
    forall i, j | 0 <= i < j < |paths|
      ensures paths[i] != paths[j]
    {
      LessIrreflexive(paths[i]);
    }
  }

  // ---------------------------------------------------------------- both peers compute one plan

  predicate AllComparable(local: seq<Record>, remote: seq<Record>)
  {
    var l, r := ByPath(local), ByPath(remote);
    forall p :: p in l && p in r ==> Comparable(l[p], r[p])
  }

  lemma {:induction false} CollectSwap(l: map<Path, Record>, r: map<Path, Record>, paths: seq<Path>)
    requires Covered(l, r, paths)
    requires forall p :: p in l && p in r ==> Comparable(l[p], r[p])
    ensures Collect(r, l, paths) == Collect(l, r, paths)
  {
    if paths != [] {
      CollectSwap(l, r, paths[1..]);
      if paths[0] in l && paths[0] in r {
        DecideSymmetric(l[paths[0]], r[paths[0]]);
      }
    }
  }

  lemma AllPathsSwap(local: seq<Record>, remote: seq<Record>)
    ensures AllPaths(remote, local) == AllPaths(local, remote)
  {
    SortedUnique(AllPaths(remote, local), AllPaths(local, remote));
  }

  /** Recomputing the plan with the sides swapped gives the same plan, conflicts,
      canonical inputs and winner indices included, exactly when every path held by
      both sides holds a comparable pair. */
  lemma PlanSymmetric(local: seq<Record>, remote: seq<Record>)
    ensures AllComparable(local, remote) <==> PlanOf(remote, local) == PlanOf(local, remote)
  {
    var l, r := ByPath(local), ByPath(remote);
    var paths := AllPaths(local, remote);
    AllPathsSwap(local, remote);
    if AllComparable(local, remote) {
      CollectSwap(l, r, paths);
    } else {
      var p :| p in l && p in r && !Comparable(l[p], r[p]);
      var k :| 0 <= k < |paths| && paths[k] == p;
      CollectRecords(l, r, paths);
      CollectRecords(r, l, paths);
      DecideSymmetric(l[p], r[p]);
    }
  }
}
