/** Deferring paths that keep changing (src/main.rs:7785-7948): the region that is left
    out of a round, the plan that remains for one side, and the cycle of invalidated
    rounds that makes the region grow. */
module Deferral {
  import opened Utils
  import opened Bytes
  import opened Model
  import opened Paths
  import opened Reconcile
  import opened Heads
  import opened ApplyOrder

  // ---------------------------------------------------------------- the region

  predicate IsDirectory(records: map<Path, Record>, p: Path)
  {
    p in records && records[p].version.entry.Directory?
  }

  /** A directory on both sides and in the plan. */
  predicate StaysDirectory(side: map<Path, Record>, other: map<Path, Record>, target: map<Path, Record>, p: Path)
  {
    IsDirectory(side, p) && IsDirectory(other, p) && IsDirectory(target, p)
  }

  /** The walk from `at` up to the top, remembering the last ancestor that does not stay a directory. */
  function Climb(side: map<Path, Record>, other: map<Path, Record>, target: map<Path, Record>, root: Path, at: Path): Path
    decreases |at|
  {
    if at == [] then root
    else Climb(side, other, target, if StaysDirectory(side, other, target, at) then root else at, Parent(at))
  }

  function RootOf(side: map<Path, Record>, other: map<Path, Record>, target: map<Path, Record>, seed: Path): Path
  {
    Climb(side, other, target, seed, Parent(seed))
  }

  function Roots(side: map<Path, Record>, other: map<Path, Record>, target: map<Path, Record>, deferred: set<Path>): set<Path>
  {
    set seed | seed in deferred :: RootOf(side, other, target, seed)
  }

  /** A root or something below one. */
  predicate InRegion(roots: set<Path>, p: Path)
  {
    p in roots || exists q :: q in roots && IsAncestor(q, p)
  }

  // ---------------------------------------------------------------- the plan that remains

  datatype EffectivePlan = EffectivePlan(plan: Plan, retained: set<Path>)

  /** The records inside the region, or those outside it. */
  function Part(records: seq<Record>, roots: set<Path>, inside: bool): seq<Record>
  {
    if records == [] then []
    else (if InRegion(roots, records[0].path) == inside then [records[0]] else []) + Part(records[1..], roots, inside)
  }

  function ConflictsOutside(conflicts: seq<Conflict>, roots: set<Path>): seq<Conflict>
  {
    if conflicts == [] then []
    else (if InRegion(roots, conflicts[0].path) then [] else [conflicts[0]]) + ConflictsOutside(conflicts[1..], roots)
  }

  function MergesOutside(merges: seq<MergeCandidate>, roots: set<Path>): seq<MergeCandidate>
  {
    if merges == [] then []
    else (if InRegion(roots, merges[0].path) then [] else [merges[0]]) + MergesOutside(merges[1..], roots)
  }

  /** Outside the region the plan, inside it what the side already has. */
  function Effective(side: seq<Record>, other: seq<Record>, full: Plan, deferred: set<Path>): EffectivePlan
  {
    if deferred == {} then EffectivePlan(full, {})
    else
      var roots := Roots(ByPath(side), ByPath(other), ByPath(full.records), deferred);
      EffectivePlan(
        Plan(SortRecords(Part(full.records, roots, false) + Part(side, roots, true)),
             ConflictsOutside(full.conflicts, roots), MergesOutside(full.merges, roots)),
        PathsIn(Part(side, roots, true)))
  }

  method ComputeRoot(side: map<Path, Record>, other: map<Path, Record>, target: map<Path, Record>, seed: Path)
    returns (root: Path)
    ensures root == RootOf(side, other, target, seed)
  {
    root := seed;
    var ancestor := Parent(seed);
    while ancestor != []
      invariant Climb(side, other, target, root, ancestor) == RootOf(side, other, target, seed)
      decreases |ancestor|
    {
      if !StaysDirectory(side, other, target, ancestor) {
        root := ancestor;
      }
      ancestor := Parent(ancestor);
    }
  }

  method ComputeRoots(side: map<Path, Record>, other: map<Path, Record>, target: map<Path, Record>, deferred: set<Path>)
    returns (roots: set<Path>)
    ensures roots == Roots(side, other, target, deferred)
  {
    roots := {};
    var todo := deferred;
    while todo != {}
      invariant todo <= deferred
      invariant roots == Roots(side, other, target, deferred - todo)
      decreases todo
    {
      var seed :| seed in todo;
      var root := ComputeRoot(side, other, target, seed);
      RootsGrow(side, other, target, deferred - todo, seed);
      assert deferred - (todo - {seed}) == (deferred - todo) + {seed};
      roots, todo := roots + {root}, todo - {seed};
    }
    assert deferred - todo == deferred;
  }

  lemma RootsGrow(side: map<Path, Record>, other: map<Path, Record>, target: map<Path, Record>, deferred: set<Path>, seed: Path)
    ensures Roots(side, other, target, deferred + {seed})
            == Roots(side, other, target, deferred) + {RootOf(side, other, target, seed)}
  {
  }

  method ComputeEffectivePlan(side: seq<Record>, other: seq<Record>, full: Plan, deferred: set<Path>)
    returns (effective: EffectivePlan)
    ensures effective == Effective(side, other, full, deferred)
  {
    if deferred == {} {
      return EffectivePlan(full, {});
    }
    var roots := ComputeRoots(ByPath(side), ByPath(other), ByPath(full.records), deferred);
    var stable, kept := Part(full.records, roots, false), Part(side, roots, true);
    effective := EffectivePlan(
      Plan(SortRecords(stable + kept), ConflictsOutside(full.conflicts, roots), MergesOutside(full.merges, roots)),
      PathsIn(kept));
  }

  // ---------------------------------------------------------------- what the region is

  /** The walk ends at its start or higher, and above its end everything stays a directory. */
  lemma {:induction false} ClimbEnds(side: map<Path, Record>, other: map<Path, Record>, target: map<Path, Record>,
                                     seed: Path, root: Path, at: Path)
    requires root == seed || IsAncestor(root, seed)
    requires at != [] ==> IsAncestor(at, seed) && IsAncestor(at, root)
    requires forall q :: IsAncestor(q, root) ==>
               q == at || (at != [] && IsAncestor(q, at)) || StaysDirectory(side, other, target, q)
    ensures var end := Climb(side, other, target, root, at);
            && (end == seed || IsAncestor(end, seed))
            && forall q :: IsAncestor(q, end) ==> StaysDirectory(side, other, target, q)
    decreases |at|
  {
    if at != [] {
      var next := Parent(at);
      ParentIsLast(at);
      if next != [] {
        AncestorTransitive(next, at, seed);
        AncestorTransitive(next, at, root);
      }
      ClimbEnds(side, other, target, seed, if StaysDirectory(side, other, target, at) then root else at, next);
    }
  }

  /** Every proper ancestor of a root is a directory on both sides and in the plan; the
      seed is in the region of its root. */
  lemma RootIsAnchored(side: map<Path, Record>, other: map<Path, Record>, target: map<Path, Record>, seed: Path)
    ensures var root := RootOf(side, other, target, seed);
            && (root == seed || IsAncestor(root, seed))
            && forall q :: IsAncestor(q, root) ==> StaysDirectory(side, other, target, q)
  {
    ParentIsLast(seed);
    ClimbEnds(side, other, target, seed, seed, Parent(seed));
  }

  /** The walk moves up only past what does not stay a directory. */
  lemma {:induction false} ClimbIsTight(side: map<Path, Record>, other: map<Path, Record>, target: map<Path, Record>,
                                        root: Path, at: Path)
    ensures var end := Climb(side, other, target, root, at); end == root || !StaysDirectory(side, other, target, end)
    decreases |at|
  {
    if at != [] {
      ParentIsLast(at);
      ClimbIsTight(side, other, target, if StaysDirectory(side, other, target, at) then root else at, Parent(at));
    }
  }

  /** Not a directory on both sides and in the plan, said record by record. */
  predicate Moves(side: map<Path, Record>, other: map<Path, Record>, target: map<Path, Record>, p: Path)
  {
    || p !in side || p !in other || p !in target
    || !side[p].version.entry.Directory? || !other[p].version.entry.Directory? || !target[p].version.entry.Directory?
  }

  /** The root is exactly the highest ancestor that does not stay a directory, or the
      deferred path itself when all of them do. */
  lemma RootIsHighest(side: map<Path, Record>, other: map<Path, Record>, target: map<Path, Record>, seed: Path)
    ensures var root := RootOf(side, other, target, seed);
            && (root == seed || (IsAncestor(root, seed) && Moves(side, other, target, root)))
            && forall q :: IsAncestor(q, root) ==> !Moves(side, other, target, q)
  {
    RootIsAnchored(side, other, target, seed);
    ClimbIsTight(side, other, target, seed, Parent(seed));
  }

  lemma AncestorsCompare(q: Path, r: Path, seed: Path)
    requires IsAncestor(q, seed) && (r == seed || IsAncestor(r, seed))
    ensures q == r || IsAncestor(q, r) || IsAncestor(r, q)
  {
    if r != seed {
      if |q| < |r| {
        assert r[..|q|] == seed[..|q|] && r[|q|] == seed[..|r|][|q|];
      } else if |r| < |q| {
        assert q[..|r|] == seed[..|r|] && q[|r|] == seed[..|q|][|r|];
      } else {
        assert q == seed[..|q|] == r;
      }
    }
  }

  /** Why a path is deferred with `seed`: it is that path or lies below it, or is or lies
      below an ancestor of it that does not stay a directory. */
  predicate DeferredWith(side: map<Path, Record>, other: map<Path, Record>, target: map<Path, Record>, seed: Path, p: Path)
  {
    || p == seed || IsAncestor(seed, p)
    || exists q :: q in Ancestors(seed) && Moves(side, other, target, q) && (p == q || IsAncestor(q, p))
  }

  lemma RootCovers(side: map<Path, Record>, other: map<Path, Record>, target: map<Path, Record>, seed: Path, p: Path)
    ensures var root := RootOf(side, other, target, seed);
            (p == root || IsAncestor(root, p)) <==> DeferredWith(side, other, target, seed, p)
  {
    var root := RootOf(side, other, target, seed);
    RootIsHighest(side, other, target, seed);
    if p == root || IsAncestor(root, p) {
      assert root == seed || root in Ancestors(seed);
    }
    if p == seed || IsAncestor(seed, p) {
      if root != seed && IsAncestor(seed, p) {
        AncestorTransitive(root, seed, p);
      }
    } else if q :| q in Ancestors(seed) && Moves(side, other, target, q) && (p == q || IsAncestor(q, p)) {
      AncestorsCompare(q, root, seed);
      if IsAncestor(root, q) && IsAncestor(q, p) {
        AncestorTransitive(root, q, p);
      }
    }
  }

  /** The region is no larger and no smaller than that. */
  lemma RegionExactly(side: map<Path, Record>, other: map<Path, Record>, target: map<Path, Record>, deferred: set<Path>, p: Path)
    ensures InRegion(Roots(side, other, target, deferred), p)
            <==> exists seed :: seed in deferred && DeferredWith(side, other, target, seed, p)
  {
    var roots := Roots(side, other, target, deferred);
    if InRegion(roots, p) {
      var root :| root in roots && (p == root || IsAncestor(root, p));
      var seed :| seed in deferred && root == RootOf(side, other, target, seed);
      RootCovers(side, other, target, seed, p);
    }
    if seed :| seed in deferred && DeferredWith(side, other, target, seed, p) {
      RootCovers(side, other, target, seed, p);
      assert RootOf(side, other, target, seed) in roots;
    }
  }

  lemma RegionClosed(roots: set<Path>, p: Path, c: Path)
    requires InRegion(roots, p) && IsAncestor(p, c)
    ensures InRegion(roots, c)
  {
    if p !in roots {
      var q :| q in roots && IsAncestor(q, p);
      AncestorTransitive(q, p, c);
    }
  }

  lemma DeferredInRegion(side: map<Path, Record>, other: map<Path, Record>, target: map<Path, Record>, deferred: set<Path>,
                         p: Path)
    requires p in deferred
    ensures InRegion(Roots(side, other, target, deferred), p)
  {
    RootIsAnchored(side, other, target, p);
    assert RootOf(side, other, target, p) in Roots(side, other, target, deferred);
  }

  /** What lies above the region, outside it, stays a directory everywhere. */
  lemma AboveRegion(side: map<Path, Record>, other: map<Path, Record>, target: map<Path, Record>, deferred: set<Path>,
                    q: Path, p: Path)
    requires var roots := Roots(side, other, target, deferred);
             InRegion(roots, p) && IsAncestor(q, p) && !InRegion(roots, q)
    ensures StaysDirectory(side, other, target, q)
  {
    var roots := Roots(side, other, target, deferred);
    var root := if p in roots then p else var r :| r in roots && IsAncestor(r, p); r;
    var seed :| seed in deferred && RootOf(side, other, target, seed) == root;
    RootIsAnchored(side, other, target, seed);
    if root != p {
      AncestorsComparable(q, root, p);
    }
  }

  /** Both endpoints, which swap the sides, compute the same region. */
  lemma {:induction false} ClimbSymmetric(side: map<Path, Record>, other: map<Path, Record>, target: map<Path, Record>,
                                          root: Path, at: Path)
    ensures Climb(side, other, target, root, at) == Climb(other, side, target, root, at)
    decreases |at|
  {
    if at != [] {
      ClimbSymmetric(side, other, target, if StaysDirectory(side, other, target, at) then root else at, Parent(at));
    }
  }

  lemma RegionSymmetric(side: map<Path, Record>, other: map<Path, Record>, target: map<Path, Record>, deferred: set<Path>)
    ensures Roots(side, other, target, deferred) == Roots(other, side, target, deferred)
  {
    forall seed | seed in deferred
      ensures RootOf(side, other, target, seed) == RootOf(other, side, target, seed)
    {
      ClimbSymmetric(side, other, target, seed, Parent(seed));
    }
    forall r
      ensures r in Roots(side, other, target, deferred) <==> r in Roots(other, side, target, deferred)
    {
      if r in Roots(side, other, target, deferred) {
        var seed :| seed in deferred && RootOf(side, other, target, seed) == r;
      }
      if r in Roots(other, side, target, deferred) {
        var seed :| seed in deferred && RootOf(other, side, target, seed) == r;
      }
    }
  }

  // ---------------------------------------------------------------- what the plan is

  lemma {:induction false} PartMembers(records: seq<Record>, roots: set<Path>, inside: bool)
    ensures forall r :: r in Part(records, roots, inside) <==> r in records && InRegion(roots, r.path) == inside
    ensures UniquePaths(records) ==> UniquePaths(Part(records, roots, inside))
  {
    if records != [] {
      PartMembers(records[1..], roots, inside);
      assert records == [records[0]] + records[1..];
      var rest := Part(records[1..], roots, inside);
      if UniquePaths(records) {
        assert UniquePaths(records[1..]);
        forall j | 0 <= j < |rest|
          ensures rest[j].path != records[0].path
        {
          assert rest[j] in records[1..];
        }
      }
    }
  }

  lemma JoinUnique(a: seq<Record>, b: seq<Record>)
    requires UniquePaths(a) && UniquePaths(b) && forall r, s :: r in a && s in b ==> r.path != s.path
    ensures UniquePaths(a + b)
  {
    forall i, j | 0 <= i < j < |a + b|
      ensures (a + b)[i].path != (a + b)[j].path
    {
      if i < |a| <= j {
        assert (a + b)[i] in a && (a + b)[j] in b;
      }
    }
  }

  /** The region of a round. */
  function RegionOf(side: seq<Record>, other: seq<Record>, full: Plan, deferred: set<Path>): set<Path>
  {
    Roots(ByPath(side), ByPath(other), ByPath(full.records), deferred)
  }

  lemma EffectiveMembers(side: seq<Record>, other: seq<Record>, full: Plan, deferred: set<Path>)
    requires UniquePaths(side) && UniquePaths(full.records)
    ensures var e := Effective(side, other, full, deferred);
            var roots := RegionOf(side, other, full, deferred);
            && UniquePaths(e.plan.records)
            && (forall r :: r in e.plan.records <==> if InRegion(roots, r.path) then r in side else r in full.records)
            && (forall p :: p in e.retained <==> InRegion(roots, p) && p in ByPath(side))
  {
    var roots := RegionOf(side, other, full, deferred);
    if deferred == {} {
      assert roots == {};
    } else {
      PartMembers(full.records, roots, false);
      PartMembers(side, roots, true);
      var a, b := Part(full.records, roots, false), Part(side, roots, true);
      JoinUnique(a, b);
      SortRecordsUnique(a + b);
      SortRecordsSorted(a + b);
      forall r
        ensures r in SortRecords(a + b) <==> r in a || r in b
      {
        assert r in SortRecords(a + b) <==> r in multiset(SortRecords(a + b));
      }
      forall p
        ensures p in PathsIn(b) <==> InRegion(roots, p) && p in ByPath(side)
      {
        if InRegion(roots, p) && p in ByPath(side) {
          assert ByPath(side)[p] in b;
        }
      }
    }
  }

  lemma {:induction false} ConflictsOutsideMembers(conflicts: seq<Conflict>, roots: set<Path>)
    ensures forall c :: c in ConflictsOutside(conflicts, roots) <==> c in conflicts && !InRegion(roots, c.path)
  {
    if conflicts != [] {
      ConflictsOutsideMembers(conflicts[1..], roots);
      assert conflicts == [conflicts[0]] + conflicts[1..];
    }
  }

  lemma {:induction false} MergesOutsideMembers(merges: seq<MergeCandidate>, roots: set<Path>)
    ensures forall m :: m in MergesOutside(merges, roots) <==> m in merges && !InRegion(roots, m.path)
  {
    if merges != [] {
      MergesOutsideMembers(merges[1..], roots);
      assert merges == [merges[0]] + merges[1..];
    }
  }

  /** What is reported: exactly the conflicts and candidates outside the region. */
  lemma EffectiveReports(side: seq<Record>, other: seq<Record>, full: Plan, deferred: set<Path>)
    ensures var e := Effective(side, other, full, deferred).plan;
            var roots := RegionOf(side, other, full, deferred);
            && (forall c :: c in e.conflicts <==> c in full.conflicts && !InRegion(roots, c.path))
            && (forall m :: m in e.merges <==> m in full.merges && !InRegion(roots, m.path))
  {
    var roots := RegionOf(side, other, full, deferred);
    if deferred == {} {
      assert roots == {};
    } else {
      ConflictsOutsideMembers(full.conflicts, roots);
      MergesOutsideMembers(full.merges, roots);
    }
  }

  /** Some of the elements of a list, in its order. */
  predicate Selection<T(==)>(some: seq<T>, all: seq<T>)
  {
    if some == [] then true
    else all != [] && ((some[0] == all[0] && Selection(some[1..], all[1..])) || Selection(some, all[1..]))
  }

  lemma SelectionCons<T>(some: seq<T>, all: seq<T>)
    requires all != [] && Selection(some, all[1..])
    ensures Selection(some, all) && Selection([all[0]] + some, all)
  {
    var longer := [all[0]] + some;
    assert longer[0] == all[0] && longer[1..] == some;
  }

  lemma {:induction false} ConflictsInOrder(conflicts: seq<Conflict>, roots: set<Path>)
    ensures Selection(ConflictsOutside(conflicts, roots), conflicts)
  {
    if conflicts != [] {
      ConflictsInOrder(conflicts[1..], roots);
      SelectionCons(ConflictsOutside(conflicts[1..], roots), conflicts);
      assert [] + ConflictsOutside(conflicts[1..], roots) == ConflictsOutside(conflicts[1..], roots);
    }
  }

  lemma {:induction false} MergesInOrder(merges: seq<MergeCandidate>, roots: set<Path>)
    ensures Selection(MergesOutside(merges, roots), merges)
  {
    if merges != [] {
      MergesInOrder(merges[1..], roots);
      SelectionCons(MergesOutside(merges[1..], roots), merges);
      assert [] + MergesOutside(merges[1..], roots) == MergesOutside(merges[1..], roots);
    }
  }

  /** Everything keeps its order: the records are sorted, and the conflicts and candidates
      stand as the plan has them. */
  lemma EffectiveInOrder(side: seq<Record>, other: seq<Record>, full: Plan, deferred: set<Path>)
    requires UniquePaths(side) && UniquePaths(full.records) && deferred != {}
    ensures StrictlySortedRecords(Effective(side, other, full, deferred).plan.records)
    ensures Selection(Effective(side, other, full, deferred).plan.conflicts, full.conflicts)
    ensures Selection(Effective(side, other, full, deferred).plan.merges, full.merges)
  {
    EffectiveSorted(side, other, full, deferred);
    var roots := RegionOf(side, other, full, deferred);
    ConflictsInOrder(full.conflicts, roots);
    MergesInOrder(full.merges, roots);
  }

  lemma EffectiveSorted(side: seq<Record>, other: seq<Record>, full: Plan, deferred: set<Path>)
    requires UniquePaths(side) && UniquePaths(full.records) && deferred != {}
    ensures StrictlySortedRecords(Effective(side, other, full, deferred).plan.records)
  {
    var roots := RegionOf(side, other, full, deferred);
    var records := Part(full.records, roots, false) + Part(side, roots, true);
    assert Effective(side, other, full, deferred).plan.records == SortRecords(records);
    assert UniquePaths(SortRecords(records)) by {
      EffectiveMembers(side, other, full, deferred);
    }
    SortRecordsSorted(records);
    WeaklyUniqueIsStrict(SortRecords(records));
  }

  /** Path by path: inside the region what the side has, outside it what the plan says. */
  lemma EffectiveAt(side: seq<Record>, other: seq<Record>, full: Plan, deferred: set<Path>, p: Path)
    requires UniquePaths(side) && UniquePaths(full.records)
    ensures var e := ByPath(Effective(side, other, full, deferred).plan.records);
            var there := if InRegion(RegionOf(side, other, full, deferred), p) then ByPath(side) else ByPath(full.records);
            && (p in e <==> p in there) && (p in e ==> e[p] == there[p])
  {
    EffectiveMembers(side, other, full, deferred);
    var records := Effective(side, other, full, deferred).plan.records;
    var e := ByPath(records);
    var there := if InRegion(RegionOf(side, other, full, deferred), p) then ByPath(side) else ByPath(full.records);
    if p in e {
      assert e[p] in records;
      HoldsIsMember(side, e[p]);
      HoldsIsMember(full.records, e[p]);
    }
    if p in there {
      assert there[p] in records;
      HoldsIsMember(records, there[p]);
    }
  }

  /** Deferring any paths keeps a tree a tree: when the side's tree and the plan's are
      well formed, so is the tree of the plan that remains, whose paths are unique. */
  lemma DeferralKeepsTrees(side: seq<Record>, other: seq<Record>, full: Plan, deferred: set<Path>)
    requires UniquePaths(side) && UniquePaths(full.records)
    requires WellFormed(TreeOf(ByPath(side))) && WellFormed(TreeOf(ByPath(full.records)))
    ensures UniquePaths(Effective(side, other, full, deferred).plan.records)
    ensures WellFormed(TreeOf(ByPath(Effective(side, other, full, deferred).plan.records)))
  {
    EffectiveMembers(side, other, full, deferred);
    var e := ByPath(Effective(side, other, full, deferred).plan.records);
    forall p, q | p in TreeOf(e) && IsAncestor(q, p)
      ensures At(TreeOf(e), q) == Some(DirShape)
    {
      assert At(TreeOf(e), p).Some?;
      DeferredParent(side, other, full, deferred, p, q);
      assert At(TreeOf(e), q) == Wanted(e, q);
    }
  }

  lemma DeferredParent(side: seq<Record>, other: seq<Record>, full: Plan, deferred: set<Path>, p: Path, q: Path)
    requires UniquePaths(side) && UniquePaths(full.records)
    requires WellFormed(TreeOf(ByPath(side))) && WellFormed(TreeOf(ByPath(full.records)))
    requires Wanted(ByPath(Effective(side, other, full, deferred).plan.records), p).Some? && IsAncestor(q, p)
    ensures Wanted(ByPath(Effective(side, other, full, deferred).plan.records), q) == Some(DirShape)
  {
    var roots := RegionOf(side, other, full, deferred);
    EffectiveAt(side, other, full, deferred, p);
    EffectiveAt(side, other, full, deferred, q);
    if InRegion(roots, q) {
      RegionClosed(roots, q, p);
      AncestorWanted(ByPath(side), p, q);
    } else if InRegion(roots, p) {
      AboveRegion(ByPath(side), ByPath(other), ByPath(full.records), deferred, q, p);
    } else {
      AncestorWanted(ByPath(full.records), p, q);
    }
  }

  /** The outcome of a watch round at one endpoint, starting from the tree it recorded.
      Its snapshot guards the records the plan leaves as they are. */
  function AppliedTo(side: seq<Record>, other: seq<Record>, full: Plan, deferred: set<Path>): Step
  {
    var e := Effective(side, other, full, deferred);
    ApplyEach(TreeOf(ByPath(side)), Ordered(e.plan.records, ByPath(side), e.retained), ByPath(side), ByPath(side))
  }

  /** No deletion that the plan leaves as it is, outside the region, lies in a directory
      that is gone. */
  ghost predicate Settled(side: seq<Record>, other: seq<Record>, full: Plan, deferred: set<Path>)
  {
    var e := Effective(side, other, full, deferred);
    DeletionsFindable(e.plan.records, ByPath(side), e.retained, ByPath(side))
  }

  /** The plan that remains covers what the side recorded, and is applied to the end, to
      the tree it describes, if and only if that is a tree and no such deletion stands in
      the way. */
  lemma DeferredPlanApplies(side: seq<Record>, other: seq<Record>, full: Plan, deferred: set<Path>)
    requires UniquePaths(side) && UniquePaths(full.records) && WellFormed(TreeOf(ByPath(side)))
    requires forall p :: p in TreeOf(ByPath(side)) ==> p in ByPath(full.records)
    ensures var left := TreeOf(ByPath(Effective(side, other, full, deferred).plan.records));
            AppliedTo(side, other, full, deferred) == Done(left, {})
            <==> WellFormed(left) && Settled(side, other, full, deferred)
  {
    var e := Effective(side, other, full, deferred);
    EffectiveMembers(side, other, full, deferred);
    forall p
      ensures p in TreeOf(ByPath(side)) ==> p in ByPath(e.plan.records)
      ensures p in e.retained ==> Wanted(ByPath(e.plan.records), p) == Wanted(ByPath(side), p)
    {
      EffectiveAt(side, other, full, deferred, p);
    }
    PlanApplies(e.plan.records, ByPath(side), e.retained, ByPath(side));
  }

  /** Outside the common region the two endpoints are left with the same record at every path. */
  lemma EndpointsAgreeOutside(a: seq<Record>, b: seq<Record>, full: Plan, deferred: set<Path>, p: Path)
    requires UniquePaths(a) && UniquePaths(b) && UniquePaths(full.records)
    ensures RegionOf(a, b, full, deferred) == RegionOf(b, a, full, deferred)
    ensures var x := ByPath(Effective(a, b, full, deferred).plan.records);
            var y := ByPath(Effective(b, a, full, deferred).plan.records);
            !InRegion(RegionOf(a, b, full, deferred), p) ==> (p in x <==> p in y) && (p in x ==> x[p] == y[p])
    ensures Effective(a, b, full, deferred).plan.conflicts == Effective(b, a, full, deferred).plan.conflicts
    ensures Effective(a, b, full, deferred).plan.merges == Effective(b, a, full, deferred).plan.merges
  {
    RegionSymmetric(ByPath(a), ByPath(b), ByPath(full.records), deferred);
    EffectiveAt(a, b, full, deferred, p);
    EffectiveAt(b, a, full, deferred, p);
  }

  /** The plan finds a well-formed tree and covers what is recorded there. */
  ghost predicate Applicable(side: seq<Record>, full: Plan)
  {
    && UniquePaths(side) && WellFormed(TreeOf(ByPath(side)))
    && forall p :: p in TreeOf(ByPath(side)) ==> p in ByPath(full.records)
  }

  /** After both endpoints have applied what remains of one plan, their trees are equal
      outside the region, each keeps its own tree inside, and when nothing is deferred
      both are the tree the plan describes. */
  lemma EndpointsConverge(a: seq<Record>, b: seq<Record>, full: Plan, deferred: set<Path>)
    requires UniquePaths(full.records) && WellFormed(TreeOf(ByPath(full.records)))
    requires Applicable(a, full) && Applicable(b, full)
    requires Settled(a, b, full, deferred) && Settled(b, a, full, deferred)
    ensures var x, y := AppliedTo(a, b, full, deferred), AppliedTo(b, a, full, deferred);
            var roots := RegionOf(a, b, full, deferred);
            && x.Done? && y.Done?
            && (forall p :: !InRegion(roots, p) ==> At(x.tree, p) == At(y.tree, p) == Wanted(ByPath(full.records), p))
            && (forall p :: InRegion(roots, p) ==>
                  At(x.tree, p) == Wanted(ByPath(a), p) && At(y.tree, p) == Wanted(ByPath(b), p))
    ensures deferred == {} ==> AppliedTo(a, b, full, {}) == AppliedTo(b, a, full, {}) == Done(TreeOf(ByPath(full.records)), {})
  {
    RoundEnds(a, b, full, deferred);
    RoundEnds(b, a, full, deferred);
    RegionSymmetric(ByPath(a), ByPath(b), ByPath(full.records), deferred);
    if deferred == {} {
      WholeRoundEnds(a, b, full);
      WholeRoundEnds(b, a, full);
    }
  }

  lemma WholeRoundEnds(side: seq<Record>, other: seq<Record>, full: Plan)
    requires UniquePaths(full.records) && WellFormed(TreeOf(ByPath(full.records))) && Applicable(side, full)
    requires Settled(side, other, full, {})
    ensures AppliedTo(side, other, full, {}) == Done(TreeOf(ByPath(full.records)), {})
  {
    RoundEnds(side, other, full, {});
    assert RegionOf(side, other, full, {}) == {};
    SameTree(AppliedTo(side, other, full, {}).tree, TreeOf(ByPath(full.records)));
  }

  /** Once every deletion whose directory is gone is deferred, none stands in the way. */
  lemma DeferralSettles(side: seq<Record>, other: seq<Record>, full: Plan, deferred: set<Path>)
    requires UniquePaths(side) && UniquePaths(full.records)
    requires forall r :: r in side && r.version.entry.Tombstone? && !InDirectories(TreeOf(ByPath(side)), r.path) ==>
               r.path in deferred
    ensures Settled(side, other, full, deferred)
  {
    var e := Effective(side, other, full, deferred);
    EffectiveMembers(side, other, full, deferred);
    forall r | r in e.plan.records && r.path !in e.retained
      ensures Findable(ByPath(side), ByPath(side), r)
    {
      if Guarded(ByPath(side), r) && r.version.entry.Tombstone? && r.path in deferred {
        DeferredInRegion(ByPath(side), ByPath(other), ByPath(full.records), deferred, r.path);
      }
    }
  }

  lemma RoundEnds(side: seq<Record>, other: seq<Record>, full: Plan, deferred: set<Path>)
    requires UniquePaths(full.records) && WellFormed(TreeOf(ByPath(full.records))) && Applicable(side, full)
    requires Settled(side, other, full, deferred)
    ensures AppliedTo(side, other, full, deferred).Done? && AppliedTo(side, other, full, deferred).created == {}
    ensures var roots := RegionOf(side, other, full, deferred);
            forall p :: At(AppliedTo(side, other, full, deferred).tree, p)
                        == Wanted(if InRegion(roots, p) then ByPath(side) else ByPath(full.records), p)
  {
    DeferralKeepsTrees(side, other, full, deferred);
    DeferredPlanApplies(side, other, full, deferred);
    forall p
      ensures At(AppliedTo(side, other, full, deferred).tree, p)
           == Wanted(if InRegion(RegionOf(side, other, full, deferred), p) then ByPath(side) else ByPath(full.records), p)
    {
      EffectiveAt(side, other, full, deferred, p);
    }
  }

  // ---------------------------------------------------------------- invalidations

  predicate AcceptsInvalidation(e: EffectivePlan, p: Path)
  {
    (exists r :: r in e.plan.records && r.path == p) && p !in e.retained
  }

  /** The paths that are accepted are exactly those of the plan outside the region; so
      none of them is deferred yet. */
  lemma AcceptedIff(side: seq<Record>, other: seq<Record>, full: Plan, deferred: set<Path>, p: Path)
    requires UniquePaths(side) && UniquePaths(full.records)
    ensures AcceptsInvalidation(Effective(side, other, full, deferred), p)
            <==> p in ByPath(full.records) && !InRegion(RegionOf(side, other, full, deferred), p)
    ensures AcceptsInvalidation(Effective(side, other, full, deferred), p) ==> p !in deferred
  {
    EffectiveMembers(side, other, full, deferred);
    if p in deferred {
      DeferredInRegion(ByPath(side), ByPath(other), ByPath(full.records), deferred, p);
    }
    if p in ByPath(full.records) {
      assert ByPath(full.records)[p].path == p;
    }
  }

  /** Whatever path an endpoint can fail at while it applies its plan, the other endpoint,
      which computed that plan too, accepts. */
  lemma HonestIsAccepted(e: EffectivePlan, prior: map<Path, Record>, r: Record)
    requires r in Ordered(e.plan.records, prior, e.retained)
    ensures AcceptsInvalidation(e, r.path)
  {
    OrderedMembers(e.plan.records, prior, e.retained);
  }

  // ---------------------------------------------------------------- the cycle

  datatype Cycle = Cycle(retried: bool, firstPath: Option<Path>, deferred: set<Path>)

  const FRESH_CYCLE := Cycle(false, None, {})

  /** The first invalidation only asks for another try; later ones defer their path. */
  function Observe(c: Cycle, p: Path): Cycle
  {
    if c.retried then c.(deferred := c.deferred + {p}) else Cycle(true, Some(p), c.deferred)
  }

  datatype InvalidationAction = Recalculate | Deferred(samePath: bool)

  class InvalidationCycle {
    var retried: bool
    var firstPath: Option<Path>
    var deferred: set<Path>

    constructor ()
      ensures Value() == FRESH_CYCLE
    {
      retried, firstPath, deferred := false, None, {};
    }

    function Value(): Cycle
      reads this
    {
      Cycle(retried, firstPath, deferred)
    }

    method ObservePath(p: Path) returns (action: InvalidationAction)
      modifies this
      ensures Value() == Observe(old(Value()), p)
      ensures action == if old(retried) then Deferred(old(firstPath) == Some(p)) else Recalculate
    {
      if retried {
        deferred := deferred + {p};
        action := Deferred(firstPath == Some(p));
      } else {
        retried, firstPath := true, Some(p);
        action := Recalculate;
      }
    }

    method Reset()
      modifies this
      ensures Value() == FRESH_CYCLE
    {
      retried, firstPath, deferred := false, None, {};
    }
  }

  /** What a round starts from, and the path it failed at; `byResponder` says which
      endpoint reported it. */
  datatype Round = Round(connector: seq<Record>, responder: seq<Record>, full: Plan, byResponder: bool, path: Path)

  /** The receiving endpoint accepts the report: it judges by the reporter's plan, which
      it computes from its own idea of the deferred paths. */
  ghost predicate Reported(r: Round, deferredAtReceiver: set<Path>)
  {
    && UniquePaths(r.connector) && UniquePaths(r.responder) && UniquePaths(r.full.records)
    && AcceptsInvalidation(
         if r.byResponder then Effective(r.responder, r.connector, r.full, deferredAtReceiver)
         else Effective(r.connector, r.responder, r.full, deferredAtReceiver), r.path)
  }

  /** Both cycles after a run of invalidated rounds: the reporter observes the path it
      failed at, and the receiver the path it accepted. */
  function Observed(start: Cycle, rounds: seq<Round>): Cycle
  {
    if rounds == [] then start
    else Observe(Observed(start, rounds[..|rounds| - 1]), rounds[|rounds| - 1].path)
  }

  ghost predicate Cycling(start: Cycle, rounds: seq<Round>)
  {
    forall k :: 0 <= k < |rounds| ==> Reported(rounds[k], Observed(start, rounds[..k]).deferred)
  }

  lemma ReportedIsNew(r: Round, deferred: set<Path>)
    requires Reported(r, deferred)
    ensures r.path !in deferred
  {
    if r.byResponder {
      AcceptedIff(r.responder, r.connector, r.full, deferred, r.path);
    } else {
      AcceptedIff(r.connector, r.responder, r.full, deferred, r.path);
    }
  }

  function PathsDeferred(rounds: seq<Round>): set<Path>
  {
    set k | 0 < k < |rounds| :: rounds[k].path
  }

  lemma CyclingEarlier(start: Cycle, rounds: seq<Round>)
    requires Cycling(start, rounds) && rounds != []
    ensures Cycling(start, rounds[..|rounds| - 1])
    ensures Reported(rounds[|rounds| - 1], Observed(start, rounds[..|rounds| - 1]).deferred)
  {
    var earlier := rounds[..|rounds| - 1];
    forall k | 0 <= k < |earlier|
      ensures Reported(earlier[k], Observed(start, earlier[..k]).deferred)
    {
      assert earlier[..k] == rounds[..k];
      assert Reported(rounds[k], Observed(start, rounds[..k]).deferred);
    }
  }

  lemma PathsDeferredGrow(rounds: seq<Round>)
    requires rounds != []
    ensures PathsDeferred(rounds)
            == PathsDeferred(rounds[..|rounds| - 1]) + if |rounds| > 1 then {rounds[|rounds| - 1].path} else {}
  {
    var n := |rounds| - 1;
    assert forall k :: 0 < k < n ==> rounds[..n][k] == rounds[k];
  }

  /** Every invalidated round after the first defers one more path. */
  lemma {:induction false} EachRoundDefersOne(rounds: seq<Round>)
    requires Cycling(FRESH_CYCLE, rounds)
    ensures var c := Observed(FRESH_CYCLE, rounds);
            && c.retried == (rounds != [])
            && |c.deferred| == (if rounds == [] then 0 else |rounds| - 1)
            && c.deferred == PathsDeferred(rounds)
            && c.firstPath == (if rounds == [] then None else Some(rounds[0].path))
  {
    if rounds != [] {
      CyclingEarlier(FRESH_CYCLE, rounds);
      EachRoundDefersOne(rounds[..|rounds| - 1]);
      ReportedIsNew(rounds[|rounds| - 1], Observed(FRESH_CYCLE, rounds[..|rounds| - 1]).deferred);
      PathsDeferredGrow(rounds);
    }
  }

  /** With paths from a finite set, a cycle has at most one invalidated round more than
      there are paths. */
  lemma CycleIsBounded(rounds: seq<Round>, paths: set<Path>)
    requires Cycling(FRESH_CYCLE, rounds) && forall r :: r in rounds ==> r.path in paths
    ensures |rounds| <= |paths| + 1
  {
    EachRoundDefersOne(rounds);
    SubsetSize(Observed(FRESH_CYCLE, rounds).deferred, paths);
  }

  // ---------------------------------------------------------------- both endpoints

  /** How a round ends: completed, or invalidated at a path. */
  datatype Event = Completed | Interrupted(round: Round)

  /** The cycle each endpoint keeps; the session closes when a report is not accepted. */
  datatype Session = Session(connector: Cycle, responder: Cycle, closed: bool)

  const NEW_SESSION := Session(FRESH_CYCLE, FRESH_CYCLE, false)

  /** The endpoint that fails observes its path and reports it; the other one observes it
      when it accepts it. After a completed round both start afresh. */
  function Play(s: Session, e: Event): Session
  {
    if s.closed then s
    else if e.Completed? then NEW_SESSION
    else
      var r := e.round;
      if r.byResponder then
        var plan := Effective(r.responder, r.connector, r.full, s.connector.deferred);
        if AcceptsInvalidation(plan, r.path) then
          Session(Observe(s.connector, r.path), Observe(s.responder, r.path), false)
        else Session(s.connector, Observe(s.responder, r.path), true)
      else
        var plan := Effective(r.connector, r.responder, r.full, s.responder.deferred);
        if AcceptsInvalidation(plan, r.path) then
          Session(Observe(s.connector, r.path), Observe(s.responder, r.path), false)
        else Session(Observe(s.connector, r.path), s.responder, true)
  }

  function Played(events: seq<Event>): Session
  {
    if events == [] then NEW_SESSION else Play(Played(events[..|events| - 1]), events[|events| - 1])
  }

  /** The reported path is one the reporter was applying: a record of its own plan. */
  ghost predicate Honest(s: Session, e: Event)
  {
    e.Interrupted? ==>
      var r := e.round;
      var own := if r.byResponder then Effective(r.responder, r.connector, r.full, s.responder.deferred)
                 else Effective(r.connector, r.responder, r.full, s.connector.deferred);
      exists x :: x in Ordered(own.plan.records, ByPath(if r.byResponder then r.responder else r.connector), own.retained)
                  && x.path == r.path
  }

  /** The endpoints stay in step, and an honest report is never refused. */
  lemma {:induction false} Lockstep(events: seq<Event>)
    requires forall k :: 0 <= k < |events| ==> Honest(Played(events[..k]), events[k])
    ensures Played(events).connector == Played(events).responder && !Played(events).closed
  {
    if events != [] {
      var n := |events| - 1;
      var earlier := events[..n];
      forall k | 0 <= k < n
        ensures Honest(Played(earlier[..k]), earlier[k])
      {
        assert earlier[..k] == events[..k];
        assert Honest(Played(events[..k]), events[k]);
      }
      Lockstep(earlier);
      assert Honest(Played(events[..n]), events[n]);
      HonestStep(Played(earlier), events[n]);
    }
  }

  /** The rounds that were invalidated since the last completed one. */
  function Since(events: seq<Event>): seq<Round>
  {
    if events == [] || events[|events| - 1].Completed? then []
    else Since(events[..|events| - 1]) + [events[|events| - 1].round]
  }

  /** Both cycles are what was observed since the last completed round, and nothing before. */
  lemma {:induction false} CyclesStartAfresh(events: seq<Event>)
    requires forall k :: 0 <= k < |events| ==> Honest(Played(events[..k]), events[k])
    ensures Played(events).connector == Played(events).responder == Observed(FRESH_CYCLE, Since(events))
  {
    Lockstep(events);
    if events != [] && events[|events| - 1].Interrupted? {
      var n := |events| - 1;
      var earlier := events[..n];
      forall k | 0 <= k < n
        ensures Honest(Played(earlier[..k]), earlier[k])
      {
        assert earlier[..k] == events[..k];
        assert Honest(Played(events[..k]), events[k]);
      }
      CyclesStartAfresh(earlier);
      Lockstep(earlier);
      assert Since(events)[..|Since(events)| - 1] == Since(earlier);
      StepObserves(Played(earlier), events[n]);
    }
  }

  lemma StepObserves(s: Session, e: Event)
    requires e.Interrupted? && !s.closed && s.connector == s.responder && !Play(s, e).closed
    ensures Play(s, e).connector == Observe(s.connector, e.round.path)
  {
  }

  lemma HonestStep(s: Session, e: Event)
    requires s.connector == s.responder && !s.closed && Honest(s, e)
    ensures Play(s, e).connector == Play(s, e).responder && !Play(s, e).closed
  {
    if e.Interrupted? {
      var r := e.round;
      var side := if r.byResponder then r.responder else r.connector;
      var own := Effective(side, if r.byResponder then r.connector else r.responder, r.full, s.connector.deferred);
      var x :| x in Ordered(own.plan.records, ByPath(side), own.retained) && x.path == r.path;
      HonestIsAccepted(own, ByPath(side), x);
    }
  }
}
