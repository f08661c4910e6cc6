/** Applying a plan where some paths are ignored: what is ignored is never touched, and
    the rest ends as the plan wants it (src/sync.rs:1966-2147). */
module Ignoring {
  import opened Bytes
  import opened Model
  import opened Paths
  import opened Reconcile
  import opened ApplyOrder
  import Heads

  lemma {:induction false} VisibleMembers(records: seq<Record>, prior: map<Path, Record>, retained: set<Path>,
                                          ignored: Record -> bool)
    ensures forall x :: x in Visible(records, prior, retained, ignored)
              <==> !ignored(x) && x.path !in retained && exists r :: r in records && Taken(r, prior, ignored) == Some(x)
  {
    if records != [] {
      VisibleMembers(records[1..], prior, retained, ignored);
      assert records == [records[0]] + records[1..];
    }
  }

  lemma OrderedVisibleMembers(records: seq<Record>, prior: map<Path, Record>, retained: set<Path>, ignored: Record -> bool)
    ensures InOrder(OrderedVisible(records, prior, retained, ignored))
    ensures forall x :: x in OrderedVisible(records, prior, retained, ignored)
              <==> !ignored(x) && x.path !in retained && exists r :: r in records && Taken(r, prior, ignored) == Some(x)
  {
    var visible := Visible(records, prior, retained, ignored);
    VisibleMembers(records, prior, retained, ignored);
    SortByKeySorts(visible);
    forall x
      ensures x in SortByKey(visible) <==> x in visible
    {
      assert x in SortByKey(visible) <==> x in multiset(SortByKey(visible));
    }
  }

  /** Where nothing is ignored this is the plain order. */
  lemma {:induction false} NothingIgnored(records: seq<Record>, prior: map<Path, Record>, retained: set<Path>)
    ensures OrderedVisible(records, prior, retained, (r: Record) => false) == Ordered(records, prior, retained)
  {
    VisibleIsAccepted(records, prior, retained);
  }

  lemma {:induction false} VisibleIsAccepted(records: seq<Record>, prior: map<Path, Record>, retained: set<Path>)
    ensures Visible(records, prior, retained, (r: Record) => false) == Accepted(records, prior, retained)
  {
    if records != [] {
      VisibleIsAccepted(records[1..], prior, retained);
    }
  }

  // ---------------------------------------------------------------- what is never touched

  /** A step changes its own path and makes missing parents, and nothing else. */
  lemma StepTouchesOnly(tree: Tree, p: Path, entry: Entry, expected: Option<Entry>, other: Path)
    requires ApplyOne(tree, p, entry, expected).Done? && other != p
    ensures var step := ApplyOne(tree, p, entry, expected);
            if other in step.created then At(tree, other) == None && At(step.tree, other) == Some(DirShape)
            else At(step.tree, other) == At(tree, other)
  {
  }

  lemma {:induction false} TouchesOnly(tree: Tree, ordered: seq<Record>, prior: map<Path, Record>,
                                       snapshot: map<Path, Record>, other: Path)
    requires ApplyEach(tree, ordered, prior, snapshot).Done? && forall r :: r in ordered ==> r.path != other
    ensures var all := ApplyEach(tree, ordered, prior, snapshot);
            || At(all.tree, other) == At(tree, other)
            || (other in all.created && At(tree, other) == None && At(all.tree, other) == Some(DirShape))
    decreases |ordered|
  {
    if ordered != [] {
      var r := ordered[0];
      var step := ApplyGuarded(tree, r, Recorded(prior, r.path), snapshot);
      if !Guarded(snapshot, r) {
        StepTouchesOnly(tree, r.path, r.version.entry, Recorded(prior, r.path), other);
      }
      TouchesOnly(step.tree, ordered[1..], prior, snapshot, other);
    }
  }

  /** Whatever the disk holds at an ignored path stays there; at most a missing directory
      is made for something below it. */
  lemma IgnoredIsUntouched(tree: Tree, records: seq<Record>, prior: map<Path, Record>, retained: set<Path>,
                           snapshot: map<Path, Record>, ignored: Record -> bool, p: Path)
    requires forall r: Record :: r.path == p ==> ignored(r)
    requires ApplyWhole(tree, records, prior, retained, snapshot, ignored).Done?
    ensures var all := ApplyWhole(tree, records, prior, retained, snapshot, ignored);
            || At(all.tree, p) == At(tree, p)
            || (p in all.created && At(tree, p) == None && At(all.tree, p) == Some(DirShape))
  {
    OrderedVisibleMembers(records, prior, retained, ignored);
    TouchesOnly(tree, OrderedVisible(records, prior, retained, ignored), prior, snapshot, p);
  }

  // ---------------------------------------------------------------- what the plan comes to

  /** What is recorded afterwards: what was taken of the plan, and the ignored records the
      plan does not speak of. */
  function Kept(records: map<Path, Record>, prior: map<Path, Record>, ignored: Record -> bool): map<Path, Record>
  {
    map p | p in records.Keys + prior.Keys && KeptAt(records, prior, ignored, p).Some? :: KeptAt(records, prior, ignored, p).value
  }

  function KeptAt(records: map<Path, Record>, prior: map<Path, Record>, ignored: Record -> bool, p: Path): Option<Record>
  {
    if p in records && Taken(records[p], prior, ignored).Some? then Taken(records[p], prior, ignored)
    else if p in prior && ignored(prior[p]) then Some(prior[p])
    else None
  }

  predicate Keyed(m: map<Path, Record>)
  {
    forall p :: p in m ==> m[p].path == p
  }

  /** The paths that are left alone. */
  function Aside(kept: map<Path, Record>, retained: set<Path>, ignored: Record -> bool): set<Path>
  {
    retained + set p | p in kept && ignored(kept[p])
  }

  lemma KeptIs(records: map<Path, Record>, prior: map<Path, Record>, ignored: Record -> bool, p: Path)
    ensures var kept := Kept(records, prior, ignored);
            (p in kept <==> KeptAt(records, prior, ignored, p).Some?)
            && (p in kept ==> kept[p] == KeptAt(records, prior, ignored, p).value)
  {
  }

  /** An ignored record that is kept is the recorded one. */
  lemma AsideIsAsRecorded(records: map<Path, Record>, prior: map<Path, Record>, retained: set<Path>, ignored: Record -> bool)
    requires Keyed(records) && Covers(Kept(records, prior, ignored), prior, retained)
    ensures var kept := Kept(records, prior, ignored); Covers(kept, prior, Aside(kept, retained, ignored))
  {
    var kept := Kept(records, prior, ignored);
    forall p | p in Aside(kept, retained, ignored)
      ensures Wanted(kept, p) == Wanted(prior, p)
    {
      KeptIs(records, prior, ignored, p);
    }
  }

  lemma KeptIsKeyed(records: map<Path, Record>, prior: map<Path, Record>, ignored: Record -> bool)
    requires Keyed(records) && Keyed(prior)
    ensures Keyed(Kept(records, prior, ignored))
  {
    forall p | p in Kept(records, prior, ignored)
      ensures Kept(records, prior, ignored)[p].path == p
    {
      KeptIs(records, prior, ignored, p);
    }
  }

  /** What is applied is kept, and is not left aside. */
  lemma AppliedIsKept(records: seq<Record>, prior: map<Path, Record>, retained: set<Path>, ignored: Record -> bool, x: Record)
    requires UniquePaths(records) && Keyed(prior) && x in OrderedVisible(records, prior, retained, ignored)
    ensures var kept := Kept(ByPath(records), prior, ignored);
            x.path in kept && kept[x.path] == x && x.path !in Aside(kept, retained, ignored)
  {
    OrderedVisibleMembers(records, prior, retained, ignored);
    var r :| r in records && Taken(r, prior, ignored) == Some(x);
    Heads.HoldsIsMember(records, r);
    KeptIs(ByPath(records), prior, ignored, x.path);
  }

  /** And what is kept is applied, unless it is left aside. */
  lemma KeptIsApplied(records: seq<Record>, prior: map<Path, Record>, retained: set<Path>, ignored: Record -> bool, p: Path)
    requires UniquePaths(records) && Keyed(prior)
    requires var kept := Kept(ByPath(records), prior, ignored); p in kept && p !in Aside(kept, retained, ignored)
    ensures Kept(ByPath(records), prior, ignored)[p] in OrderedVisible(records, prior, retained, ignored)
  {
    OrderedVisibleMembers(records, prior, retained, ignored);
    KeptIs(ByPath(records), prior, ignored, p);
    var x := Kept(ByPath(records), prior, ignored)[p];
    var r := ByPath(records)[p];
    assert r in records && Taken(r, prior, ignored) == Some(x) && !ignored(x) && x.path == p;
  }

  lemma VisibleBegins(records: seq<Record>, prior: map<Path, Record>, retained: set<Path>, ignored: Record -> bool)
    requires UniquePaths(records) && Keyed(prior)
    requires var kept := Kept(ByPath(records), prior, ignored);
             WellFormed(TreeOf(prior)) && WellFormed(TreeOf(kept)) && Covers(kept, prior, retained)
    ensures var kept := Kept(ByPath(records), prior, ignored);
            Underway(OrderedVisible(records, prior, retained, ignored), 0, TreeOf(prior), kept, prior, Aside(kept, retained, ignored))
  {
    var kept := Kept(ByPath(records), prior, ignored);
    var ordered := OrderedVisible(records, prior, retained, ignored);
    AsideIsAsRecorded(ByPath(records), prior, retained, ignored);
    KeptIsKeyed(ByPath(records), prior, ignored);
    SortByKeySorts(Visible(records, prior, retained, ignored));
    forall x | x in ordered
      ensures x.path in kept && kept[x.path] == x && x.path !in Aside(kept, retained, ignored)
    {
      AppliedIsKept(records, prior, retained, ignored, x);
    }
    forall p | p in kept && p !in Aside(kept, retained, ignored)
      ensures kept[p] in ordered
    {
      KeptIsApplied(records, prior, retained, ignored, p);
    }
    BeginsFrom(ordered, kept, prior, Aside(kept, retained, ignored));
  }

  lemma BeginsFrom(ordered: seq<Record>, kept: map<Path, Record>, prior: map<Path, Record>, aside: set<Path>)
    requires InOrder(ordered) && Keyed(kept) && Covers(kept, prior, aside)
    requires WellFormed(TreeOf(prior)) && WellFormed(TreeOf(kept))
    requires forall x :: x in ordered ==> x.path in kept && kept[x.path] == x && x.path !in aside
    requires forall p :: p in kept && p !in aside ==> kept[p] in ordered
    ensures Underway(ordered, 0, TreeOf(prior), kept, prior, aside)
  {
    assert ordered[..0] == [];
  }

  lemma OrderApplies(records: seq<Record>, prior: map<Path, Record>, retained: set<Path>, snapshot: map<Path, Record>,
                     ignored: Record -> bool)
    requires UniquePaths(records) && Keyed(prior) && SnapshotOf(snapshot, prior)
    requires WellFormed(TreeOf(prior)) && Covers(Kept(ByPath(records), prior, ignored), prior, retained)
    ensures var kept := Kept(ByPath(records), prior, ignored);
            var ordered := OrderedVisible(records, prior, retained, ignored);
            ApplyEach(TreeOf(prior), ordered, prior, snapshot) == Done(TreeOf(kept), {})
            <==> WellFormed(TreeOf(kept)) && forall k :: 0 <= k < |ordered| ==> Findable(prior, snapshot, ordered[k])
  {
    var kept := Kept(ByPath(records), prior, ignored);
    var ordered := OrderedVisible(records, prior, retained, ignored);
    if WellFormed(TreeOf(kept)) {
      VisibleBegins(records, prior, retained, ignored);
      RestApplies(ordered, 0, TreeOf(prior), kept, prior, Aside(kept, retained, ignored), snapshot);
      assert ordered[0..] == ordered;
      if forall k :: 0 <= k < |ordered| ==> Findable(prior, snapshot, ordered[k]) {
        PlanEnds(ordered, ApplyEach(TreeOf(prior), ordered, prior, snapshot).tree, kept, prior, Aside(kept, retained, ignored));
      }
    } else if ApplyEach(TreeOf(prior), ordered, prior, snapshot).Done? {
      RunKeepsTree(TreeOf(prior), ordered, prior, snapshot);
    }
  }

  predicate Collision(tree: Tree, records: seq<Record>, prior: map<Path, Record>, ignored: Record -> bool)
  {
    exists k :: 0 <= k < |records| && Collides(tree, records[k], prior, ignored)
  }

  /** On a disk that holds what is recorded, a plan that speaks of all that is recorded
      and not ignored is applied to the end, to exactly what is kept, if and only if no
      ignored record collides, what is kept is a tree, and the deletions in the snapshot
      can be found. */
  lemma VisiblePlanApplies(records: seq<Record>, prior: map<Path, Record>, retained: set<Path>, snapshot: map<Path, Record>,
                           ignored: Record -> bool)
    requires UniquePaths(records) && Keyed(prior) && SnapshotOf(snapshot, prior)
    requires WellFormed(TreeOf(prior)) && Covers(Kept(ByPath(records), prior, ignored), prior, retained)
    ensures var kept := Kept(ByPath(records), prior, ignored);
            var ordered := OrderedVisible(records, prior, retained, ignored);
            ApplyWhole(TreeOf(prior), records, prior, retained, snapshot, ignored) == Done(TreeOf(kept), {})
            <==> && !Collision(TreeOf(prior), records, prior, ignored) && WellFormed(TreeOf(kept))
                 && forall k :: 0 <= k < |ordered| ==> Findable(prior, snapshot, ordered[k])
  {
    OrderApplies(records, prior, retained, snapshot, ignored);
  }
}
