/** What applying a plan does besides reaching its tree: the order it keeps, the parents
    it makes, what it only looks at, and what it leaves when it stops
    (src/sync.rs:1966-2147). */
module ApplyLaws {
  import opened Bytes
  import opened Model
  import opened Paths
  import opened Reconcile
  import opened ApplyOrder
  import opened Ignoring
  import Heads

  // ---------------------------------------------------------------- the order

  /** One of them is applied before the other: deletions first and the deepest first among
      them, then directories, then the rest, and among those the shallowest first. */
  predicate Ranked(x: Record, y: Record)
  {
    var e, f := x.version.entry, y.version.entry;
    if e.Tombstone? then !f.Tombstone? || Depth(x.path) > Depth(y.path)
    else if e.Directory? then !f.Tombstone? && (!f.Directory? || Depth(x.path) < Depth(y.path))
    else !f.Tombstone? && !f.Directory? && Depth(x.path) < Depth(y.path)
  }

  /** Neither comes first by rank, and the paths decide. */
  predicate Level(x: Record, y: Record)
  {
    !Ranked(x, y) && !Ranked(y, x) && Bytes.Less(x.path, y.path)
  }

  ghost predicate Arranged(sorted: seq<Record>)
  {
    forall i, j :: 0 <= i < j < |sorted| ==> Ranked(sorted[i], sorted[j]) || Level(sorted[i], sorted[j])
  }

  lemma BeforeIsRanked(x: Record, y: Record)
    ensures Before(x, y) <==> Ranked(x, y)
  {
  }

  lemma {:induction false} InsertArranges(r: Record, sorted: seq<Record>)
    requires Arranged(sorted) && forall x :: x in sorted ==> Bytes.Less(r.path, x.path)
    ensures Arranged(InsertByKey(r, sorted))
    ensures forall x :: x in InsertByKey(r, sorted) <==> x == r || x in sorted
  {
    var all := InsertByKey(r, sorted);
    if sorted == [] || !Before(sorted[0], r) {
      forall k | 0 <= k < |sorted|
        ensures Ranked(r, sorted[k]) || Level(r, sorted[k])
      {
        assert sorted[k] in sorted;
        assert k > 0 ==> Ranked(sorted[0], sorted[k]) || Level(sorted[0], sorted[k]);
      }
    } else {
      var rest := InsertByKey(r, sorted[1..]);
      InsertArranges(r, sorted[1..]);
      assert all == [sorted[0]] + rest && sorted == [sorted[0]] + sorted[1..];
      forall k | 0 <= k < |rest|
        ensures Ranked(sorted[0], rest[k]) || Level(sorted[0], rest[k])
      {
        assert rest[k] in rest;
        if rest[k] != r {
          var m :| 0 <= m < |sorted[1..]| && sorted[1..][m] == rest[k];
          assert sorted[m + 1] == rest[k];
        }
      }
    }
  }

  lemma {:induction false} SortArranges(records: seq<Record>)
    requires StrictlySorted(PathsOf(records))
    ensures Arranged(SortByKey(records))
    ensures forall x :: x in SortByKey(records) <==> x in records
  {
    if records != [] {
      var rest := records[1..];
      TailSorted(records);
      SortArranges(rest);
      InsertArranges(records[0], SortByKey(rest));
      assert records == [records[0]] + rest;
    }
  }

  lemma TailSorted(records: seq<Record>)
    requires records != [] && StrictlySorted(PathsOf(records))
    ensures StrictlySorted(PathsOf(records[1..]))
    ensures forall x :: x in records[1..] ==> Bytes.Less(records[0].path, x.path)
  {
    var all, rest := PathsOf(records), PathsOf(records[1..]);
    assert forall k :: 0 <= k < |rest| ==> rest[k] == all[k + 1];
    forall x | x in records[1..]
      ensures Bytes.Less(records[0].path, x.path)
    {
      var k :| 0 <= k < |records[1..]| && records[1..][k] == x;
      assert all[0] == records[0].path && all[k + 1] == x.path;
    }
  }

  lemma {:induction false} VisibleSorted(records: seq<Record>, prior: map<Path, Record>, retained: set<Path>,
                                         ignored: Record -> bool)
    requires StrictlySorted(PathsOf(records)) && Keyed(prior)
    ensures StrictlySorted(PathsOf(Visible(records, prior, retained, ignored)))
  {
    if records != [] {
      var rest := Visible(records[1..], prior, retained, ignored);
      TailSorted(records);
      VisibleSorted(records[1..], prior, retained, ignored);
      var all := Visible(records, prior, retained, ignored);
      if all != rest {
        assert all == [all[0]] + rest && all[0].path == records[0].path;
        VisibleLater(records, prior, retained, ignored);
        ConsSorted(all[0].path, PathsOf(rest));
        assert PathsOf(all) == [all[0].path] + PathsOf(rest);
      }
    }
  }

  lemma VisibleLater(records: seq<Record>, prior: map<Path, Record>, retained: set<Path>, ignored: Record -> bool)
    requires records != [] && StrictlySorted(PathsOf(records)) && Keyed(prior)
    ensures forall q :: q in PathsOf(Visible(records[1..], prior, retained, ignored)) ==> Bytes.Less(records[0].path, q)
  {
    var rest := Visible(records[1..], prior, retained, ignored);
    TailSorted(records);
    VisibleMembers(records[1..], prior, retained, ignored);
    forall q | q in PathsOf(rest)
      ensures Bytes.Less(records[0].path, q)
    {
      var k :| 0 <= k < |rest| && PathsOf(rest)[k] == q;
      assert rest[k] in rest;
    }
  }

  lemma ConsSorted(p: Path, rest: seq<Path>)
    requires StrictlySorted(rest) && forall q :: q in rest ==> Bytes.Less(p, q)
    ensures StrictlySorted([p] + rest)
  {
    var all := [p] + rest;
    forall i, j | 0 <= i < j < |all|
      ensures Bytes.Less(all[i], all[j])
    {
      assert all[j] == rest[j - 1] && rest[j - 1] in rest;
      assert i > 0 ==> all[i] == rest[i - 1];
    }
  }

  /** The records of a plan are applied by rank, and level ones in the plan's order. */
  lemma AppliedInOrder(records: seq<Record>, prior: map<Path, Record>, retained: set<Path>, ignored: Record -> bool)
    requires StrictlySorted(PathsOf(records)) && Keyed(prior)
    ensures Arranged(OrderedVisible(records, prior, retained, ignored))
  {
    VisibleSorted(records, prior, retained, ignored);
    SortArranges(Visible(records, prior, retained, ignored));
  }

  // ---------------------------------------------------------------- what is only looked at

  /** The disk shows the record, in directories. */
  ghost predicate Shown(tree: Tree, r: Record)
  {
    && (forall q :: IsAncestor(q, r.path) ==> q in tree && tree[q] == DirShape)
    && (if r.version.entry.Tombstone? then r.path !in tree else r.path in tree && ShapeOf(r.version.entry) == Some(tree[r.path]))
  }

  predicate InSnapshot(snapshot: map<Path, Record>, r: Record)
  {
    r.path in snapshot && snapshot[r.path].version == r.version
  }

  /** Records of the snapshot are only looked for: nothing changes, and the round is given
      up as soon as the disk does not show one. */
  lemma {:induction false} SnapshotIsLookedAt(tree: Tree, ordered: seq<Record>, prior: map<Path, Record>, snapshot: map<Path, Record>)
    requires forall r :: r in ordered ==> InSnapshot(snapshot, r)
    ensures ApplyEach(tree, ordered, prior, snapshot)
            == if forall r :: r in ordered ==> Shown(tree, r) then Done(tree, {}) else Stopped(Changed)
    ensures LeftBy(tree, ordered, prior, snapshot) == tree
    decreases |ordered|
  {
    if ordered != [] {
      var r := ordered[0];
      assert r in ordered && ordered == [r] + ordered[1..];
      LookedAt(tree, r, Recorded(prior, r.path), snapshot);
      SnapshotIsLookedAt(tree, ordered[1..], prior, snapshot);
    }
  }

  lemma LookedAt(tree: Tree, r: Record, expected: Option<Entry>, snapshot: map<Path, Record>)
    requires InSnapshot(snapshot, r)
    ensures ApplyGuarded(tree, r, expected, snapshot) == if Shown(tree, r) then Done(tree, {}) else Stopped(Changed)
    ensures Halted(tree, r, snapshot) == tree
  {
    assert Shown(tree, r) <==> InDirectories(tree, r.path) && At(tree, r.path) == ShapeOf(r.version.entry) by {
      ShownIs(tree, r);
    }
  }

  lemma ShownIs(tree: Tree, r: Record)
    ensures Shown(tree, r) <==> InDirectories(tree, r.path) && At(tree, r.path) == ShapeOf(r.version.entry)
  {
    if InDirectories(tree, r.path) {
      forall q | IsAncestor(q, r.path)
        ensures q in tree && tree[q] == DirShape
      {
        assert q in Ancestors(r.path) && At(tree, q) == Some(DirShape);
      }
    }
    if Shown(tree, r) {
      forall q | q in Ancestors(r.path)
        ensures At(tree, q) == Some(DirShape)
      {
        assert IsAncestor(q, r.path);
      }
    }
  }

  /** Whether the loop ends or stops, a path of which it applies nothing but records of the
      snapshot keeps what it had; at most a missing directory is made there. */
  lemma {:induction false} SnapshotIsUntouched(tree: Tree, ordered: seq<Record>, prior: map<Path, Record>,
                                               snapshot: map<Path, Record>, p: Path)
    requires forall r :: r in ordered && r.path == p ==> InSnapshot(snapshot, r)
    ensures var end := LeftBy(tree, ordered, prior, snapshot);
            At(end, p) == At(tree, p) || (At(tree, p) == None && At(end, p) == Some(DirShape))
    decreases |ordered|
  {
    if ordered != [] {
      var r := ordered[0];
      assert r in ordered && ordered == [r] + ordered[1..];
      var step := ApplyGuarded(tree, r, Recorded(prior, r.path), snapshot);
      if InSnapshot(snapshot, r) {
        LookedAt(tree, r, Recorded(prior, r.path), snapshot);
      } else if step.Done? {
        StepTouchesOnly(tree, r.path, r.version.entry, Recorded(prior, r.path), p);
      }
      if step.Done? {
        SnapshotIsUntouched(step.tree, ordered[1..], prior, snapshot, p);
      }
    }
  }

  // ---------------------------------------------------------------- the parents made

  /** A step makes exactly the parents that are missing. */
  lemma StepMakesParents(tree: Tree, r: Record, expected: Option<Entry>, snapshot: map<Path, Record>)
    requires ApplyGuarded(tree, r, expected, snapshot).Done?
    ensures forall q :: q in ApplyGuarded(tree, r, expected, snapshot).created ==> IsAncestor(q, r.path) && q !in tree
    ensures !InSnapshot(snapshot, r) && !(r.version.entry.Tombstone? && (expected == None || expected == Some(Tombstone))) ==>
              forall q :: IsAncestor(q, r.path) && q !in tree ==> q in ApplyGuarded(tree, r, expected, snapshot).created
  {
  }

  /** Every directory the loop makes is a parent of something it applies. */
  lemma {:induction false} MadeAreParents(tree: Tree, ordered: seq<Record>, prior: map<Path, Record>, snapshot: map<Path, Record>)
    requires ApplyEach(tree, ordered, prior, snapshot).Done?
    ensures forall q :: q in ApplyEach(tree, ordered, prior, snapshot).created ==>
              exists r :: r in ordered && IsAncestor(q, r.path)
    decreases |ordered|
  {
    if ordered != [] {
      var r := ordered[0];
      assert ordered == [r] + ordered[1..];
      StepMakesParents(tree, r, Recorded(prior, r.path), snapshot);
      var step := ApplyGuarded(tree, r, Recorded(prior, r.path), snapshot);
      MadeAreParents(step.tree, ordered[1..], prior, snapshot);
    }
  }

  // ---------------------------------------------------------------- where it stops

  lemma StepHalts(ordered: seq<Record>, i: nat, tree: Tree, records: map<Path, Record>, prior: map<Path, Record>,
                  retained: set<Path>, snapshot: map<Path, Record>)
    requires Underway(ordered, i, tree, records, prior, retained) && SnapshotOf(snapshot, prior) && i < |ordered|
    ensures var step := ApplyGuarded(tree, ordered[i], Recorded(prior, ordered[i].path), snapshot);
            if step.Done? then Underway(ordered, i + 1, step.tree, records, prior, retained)
            else Halted(tree, ordered[i], snapshot) == tree
  {
    if Guarded(snapshot, ordered[i]) {
      GuardedAdvances(ordered, i, tree, records, prior, retained, snapshot);
    } else {
      StepAdvances(ordered, i, tree, records, prior, retained);
    }
  }

  /** Wherever the loop stops, the records before that are applied, and every other path
      is as recorded. */
  lemma {:induction false} LeftHalfway(ordered: seq<Record>, i: nat, tree: Tree, records: map<Path, Record>,
                                       prior: map<Path, Record>, retained: set<Path>, snapshot: map<Path, Record>)
    returns (k: nat)
    requires Underway(ordered, i, tree, records, prior, retained) && SnapshotOf(snapshot, prior)
    ensures i <= k <= |ordered| && Underway(ordered, k, LeftBy(tree, ordered[i..], prior, snapshot), records, prior, retained)
    ensures k == |ordered| <==> ApplyEach(tree, ordered[i..], prior, snapshot).Done?
    decreases |ordered| - i
  {
    if i == |ordered| {
      k := i;
    } else {
      var r := ordered[i];
      assert ordered[i..][0] == r && ordered[i..][1..] == ordered[i + 1..];
      var step := ApplyGuarded(tree, r, Recorded(prior, r.path), snapshot);
      StepHalts(ordered, i, tree, records, prior, retained, snapshot);
      if step.Stopped? {
        k := i;
      } else {
        k := LeftHalfway(ordered, i + 1, step.tree, records, prior, retained, snapshot);
      }
    }
  }

  /** A round that is given up has applied a beginning of its records, and every path holds
      what was recorded or what is wanted there. */
  lemma StoppedPlanIsHalfway(records: seq<Record>, prior: map<Path, Record>, retained: set<Path>, snapshot: map<Path, Record>,
                             p: Path)
    requires UniquePaths(records) && Covers(ByPath(records), prior, retained) && SnapshotOf(snapshot, prior)
    requires WellFormed(TreeOf(prior)) && WellFormed(TreeOf(ByPath(records)))
    ensures var end := LeftBy(TreeOf(prior), Ordered(records, prior, retained), prior, snapshot);
            At(end, p) == Wanted(prior, p) || At(end, p) == Wanted(ByPath(records), p)
  {
    PlanBegins(records, prior, retained);
    var ordered := Ordered(records, prior, retained);
    assert ordered[0..] == ordered;
    var k := LeftHalfway(ordered, 0, TreeOf(prior), ByPath(records), prior, retained, snapshot);
  }

  // ---------------------------------------------------------------- refused plans, kept records

  lemma {:induction false} NeverCollides(tree: Tree, ordered: seq<Record>, prior: map<Path, Record>, snapshot: map<Path, Record>)
    ensures ApplyEach(tree, ordered, prior, snapshot) != Stopped(Collision)
    decreases |ordered|
  {
    if ordered != [] {
      var r := ordered[0];
      var step := ApplyGuarded(tree, r, Recorded(prior, r.path), snapshot);
      if step.Done? {
        NeverCollides(step.tree, ordered[1..], prior, snapshot);
      }
    }
  }

  /** A plan is refused exactly when it brings a new record for an ignored path at which
      something stands, or below which a file is in the way. */
  lemma PlanRefusedIff(tree: Tree, records: seq<Record>, prior: map<Path, Record>, retained: set<Path>,
                       snapshot: map<Path, Record>, ignored: Record -> bool)
    ensures ApplyWhole(tree, records, prior, retained, snapshot, ignored) == Stopped(Collision)
            <==> exists r :: r in records && ignored(r) && r.path !in prior
                             && (r.path in tree || exists q :: q in tree && IsAncestor(q, r.path) && tree[q].FileShape?)
  {
    NeverCollides(tree, OrderedVisible(records, prior, retained, ignored), prior, snapshot);
  }

  /** What is recorded afterwards, path by path: the plan's record where it is not ignored
      and not a deletion of the unknown, and an ignored record as it was. */
  lemma RecordedAfterwards(records: map<Path, Record>, prior: map<Path, Record>, ignored: Record -> bool, p: Path)
    requires Keyed(records)
    ensures var kept := Kept(records, prior, ignored);
            && (p in records && !ignored(records[p]) ==>
                  if p in prior || !records[p].version.entry.Tombstone? then p in kept && kept[p] == records[p]
                  else p !in kept)
            && (p in records && ignored(records[p]) ==> if p in prior then p in kept && kept[p] == prior[p] else p !in kept)
            && (p !in records ==> if p in prior && ignored(prior[p]) then p in kept && kept[p] == prior[p] else p !in kept)
  {
    KeptIs(records, prior, ignored, p);
  }
}
