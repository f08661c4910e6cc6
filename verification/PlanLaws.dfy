/** What a plan does to the versions it was computed from: nothing is dropped
    silently, and reconciling a side with the plan's own records changes nothing
    (src/reconcile.rs:131-191). */
module PlanLaws {
  import opened Utils
  import opened Bytes
  import opened Model
  import opened Reconcile
  import Merge

  // ---------------------------------------------------------------- no silent loss

  /** `a` is superseded by `w` without anything to recover: it is kept, or was causally
      seen, or says the same. */
  predicate Superseded(a: Record, w: Record)
  {
    a == w || w.version.HasSeen(a.version.Id()) || w.version.entry == a.version.entry
  }

  predicate RecordedIn(a: Record, b: Record, d: Decision)
  {
    || (|d.conflicts| == 1 && d.merges == [] && d.conflicts[0].HasInput(a) && d.conflicts[0].HasInput(b))
    || (d.conflicts == [] && |d.merges| == 1
        && ((d.merges[0].winner == a && d.merges[0].loser == b) || (d.merges[0].winner == b && d.merges[0].loser == a)))
  }

  /** A decision keeps one of the two versions, and a merge candidate is made of both. */
  lemma DecideParts(a: Record, b: Record)
    ensures var d := Decide(a, b);
            && (d.record == a || d.record == b)
            && |d.conflicts| + |d.merges| <= 1
            && (d.merges != [] ==>
                  && ((d.merges[0].winner == a && d.merges[0].loser == b)
                      || (d.merges[0].winner == b && d.merges[0].loser == a))
                  && d.merges[0].winner == d.record
                  && d.merges[0].winner.version.mergeBase == Some(d.merges[0].base)
                  && d.merges[0].loser.version.mergeBase == Some(d.merges[0].base))
  {
  }

  /** A file version that lost without having been seen is an input of exactly one
      conflict or merge candidate, together with the version that won. */
  lemma NothingLostAtPath(a: Record, b: Record)
    ensures var d := Decide(a, b);
            && (d.record == a || d.record == b)
            && (a.version.entry.File? && !Superseded(a, d.record) ==> RecordedIn(a, b, d))
            && (b.version.entry.File? && !Superseded(b, d.record) && a.version.Id() != b.version.Id() ==>
                  RecordedIn(a, b, d))
            && (d.conflicts != [] || d.merges != [] ==>
                  RecordedIn(a, b, d) && (a.version.entry.File? || b.version.entry.File?)
                  && a.version.entry != b.version.entry
                  && !a.version.HasSeen(b.version.Id()) && !b.version.HasSeen(a.version.Id()))
  {
  }

  // ---------------------------------------------------------------- which version wins

  /** Written later, by the clock; at the same time by the peer that sorts later, and by
      one peer under the larger number. */
  predicate Later(x: Version, y: Version)
  {
    || x.timestamp > y.timestamp
    || (x.timestamp == y.timestamp && Bytes.Less(y.peer, x.peer))
    || (x.timestamp == y.timestamp && x.peer == y.peer && x.sequence > y.sequence)
  }

  /** `v` has `id` among what it saw, or a later version of the same peer. */
  predicate Knows(v: Version, id: VersionId)
  {
    exists s :: s in v.seen && s.peer == id.peer && s.sequence >= id.sequence
  }

  lemma KnowsIsSeen(v: Version, id: VersionId)
    ensures v.HasSeen(id) <==> v.Id() == id || Knows(v, id)
  {
    if k :| 0 <= k < |v.seen| && v.seen[k].peer == id.peer && v.seen[k].sequence >= id.sequence {
      assert v.seen[k] in v.seen;
    }
  }

  /** The version decided for: the one that knows the other, and of two that do not know
      each other the later. */
  predicate Prevails(a: Version, b: Version, winner: Version)
  {
    if Knows(a, b.Id()) then winner == a
    else if Knows(b, a.Id()) then winner == b
    else if Later(a, b) then winner == a
    else if Later(b, a) then winner == b
    else winner == a || winner == b
  }

  lemma DecidePrevails(a: Record, b: Record)
    requires a.version.Id() != b.version.Id()
    ensures Prevails(a.version, b.version, Decide(a, b).record.version)
    ensures Decide(a, b).record == a || Decide(a, b).record == b
  {
    KnowsIsSeen(a.version, b.version.Id());
    KnowsIsSeen(b.version, a.version.Id());
    LessTotal(a.version.peer, b.version.peer);
    if Bytes.Less(a.version.peer, b.version.peer) {
      LessAsymmetric(a.version.peer, b.version.peer);
    }
    if Bytes.Less(b.version.peer, a.version.peer) {
      LessAsymmetric(b.version.peer, a.version.peer);
    }
  }

  /** The last writer wins: of two versions that have not seen each other the plan keeps
      the one with the later time, and at one time the one whose peer sorts later. */
  lemma LastWriterWins(a: Record, b: Record)
    requires a.version.Id() != b.version.Id() && !Knows(a.version, b.version.Id()) && !Knows(b.version, a.version.Id())
    ensures var r := Decide(a, b).record.version;
            && r.timestamp == Max(a.version.timestamp, b.version.timestamp)
            && (a.version.timestamp == b.version.timestamp && Bytes.Less(a.version.peer, b.version.peer) ==> r == b.version)
            && (a.version.timestamp == b.version.timestamp && Bytes.Less(b.version.peer, a.version.peer) ==> r == a.version)
  {
    DecidePrevails(a, b);
    if Bytes.Less(a.version.peer, b.version.peer) {
      LessAsymmetric(a.version.peer, b.version.peer);
    }
    LessIrreflexive(a.version.peer);
  }

  /** At every path both sides record, the plan holds the version that prevails; at a path
      of one side, that side's. */
  lemma PlanPrevails(local: seq<Record>, remote: seq<Record>, p: Path)
    requires p in ByPath(local) || p in ByPath(remote)
    ensures var l, r := ByPath(local), ByPath(remote);
            var records := ByPath(PlanOf(local, remote).records);
            && p in records
            && (p in l && p in r && l[p].version.Id() != r[p].version.Id() ==>
                  Prevails(l[p].version, r[p].version, records[p].version))
            && (p in l && p in r && l[p].version.Id() == r[p].version.Id() ==> records[p] == l[p])
            && (p !in r ==> records[p] == l[p]) && (p !in l ==> records[p] == r[p])
  {
    PlanAt(local, remote, p);
    var l, r := ByPath(local), ByPath(remote);
    if p in l && p in r && l[p].version.Id() != r[p].version.Id() {
      DecidePrevails(l[p], r[p]);
    }
  }

  // ---------------------------------------------------------------- what is reported

  /** Two versions that do not know each other and say different things. */
  predicate Concurrent(a: Version, b: Version)
  {
    && a.Id() != b.Id() && !Knows(a, b.Id()) && !Knows(b, a.Id()) && a.entry != b.entry
  }

  /** Both are edits of one file version that each of them knows. */
  predicate OneBase(a: Version, b: Version)
  {
    && a.mergeBase.Some? && b.mergeBase == a.mergeBase
    && (a.Id() == a.mergeBase.value.id || Knows(a, a.mergeBase.value.id))
    && (b.Id() == a.mergeBase.value.id || Knows(b, a.mergeBase.value.id))
  }

  /** Exactly what a pair of versions reports: two concurrent files of one base are a merge
      candidate; two concurrent files without are a whole-file conflict that says whether a
      base is missing; a concurrent file and something else are a destructive conflict; and
      nothing else is reported. */
  lemma DecideReports(a: Record, b: Record)
    ensures var d := Decide(a, b);
            var x, y := a.version, b.version;
            var files := x.entry.File? && y.entry.File?;
            && (d.merges != [] <==> Concurrent(x, y) && files && OneBase(x, y))
            && (d.conflicts != [] <==>
                  Concurrent(x, y) && (x.entry.File? || y.entry.File?) && !(files && OneBase(x, y)))
            && (d.conflicts != [] ==>
                  && d.conflicts[0].Winner() == d.record && d.conflicts[0].Loser() == (if d.record == a then b else a)
                  && (if files then
                        d.conflicts[0].resolution.WholeFile?
                        && d.conflicts[0].resolution.reason
                           == (if x.mergeBase.None? || y.mergeBase.None? then Merge.AbsentBase else Merge.UnequalBase)
                      else d.conflicts[0].resolution.Destructive?))
  {
    KnowsIsSeen(a.version, b.version.Id());
    KnowsIsSeen(b.version, a.version.Id());
    if a.version.mergeBase.Some? {
      KnowsIsSeen(a.version, a.version.mergeBase.value.id);
      KnowsIsSeen(b.version, a.version.mergeBase.value.id);
    }
  }

  /** Identities in order: by peer, and by number for one peer. */
  predicate IdsInOrder(x: Version, y: Version)
  {
    Bytes.Less(x.peer, y.peer) || (x.peer == y.peer && x.sequence <= y.sequence)
  }

  /** The rest of a report: it is about the winner's path, a conflict has no base, no merge
      and no overlaps, and its inputs are the two versions in the order of their identities. */
  lemma ReportIs(a: Record, b: Record)
    ensures var d := Decide(a, b);
            && (d.conflicts != [] ==>
                  var c := d.conflicts[0];
                  && |d.conflicts| == 1 && c.path == d.record.path
                  && c.base == None && c.merged == None && c.hunks == []
                  && ((c.input0 == a && c.input1 == b) || (c.input0 == b && c.input1 == a))
                  && IdsInOrder(c.input0.version, c.input1.version))
            && (d.merges != [] ==> |d.merges| == 1 && d.merges[0].path == d.record.path)
  {
    LessTotal(a.version.peer, b.version.peer);
    LessIrreflexive(a.version.peer);
  }

  function ConflictsOf(conflicts: seq<Conflict>, p: Path): seq<Conflict>
  {
    if conflicts == [] then []
    else if conflicts[0].path == p then [conflicts[0]] + ConflictsOf(conflicts[1..], p)
    else ConflictsOf(conflicts[1..], p)
  }

  function MergesOf(merges: seq<MergeCandidate>, p: Path): seq<MergeCandidate>
  {
    if merges == [] then []
    else if merges[0].path == p then [merges[0]] + MergesOf(merges[1..], p)
    else MergesOf(merges[1..], p)
  }

  lemma ConflictsOfFront(x: seq<Conflict>, y: seq<Conflict>, q: Path, p: Path)
    requires |x| <= 1 && forall c :: c in x ==> c.path == q
    ensures ConflictsOf(x + y, p) == (if p == q then x else []) + ConflictsOf(y, p)
  {
    if x == [] {
      assert x + y == y;
    } else {
      assert x[0] in x && x == [x[0]] && (x + y)[1..] == y;
    }
  }

  lemma MergesOfFront(x: seq<MergeCandidate>, y: seq<MergeCandidate>, q: Path, p: Path)
    requires |x| <= 1 && forall c :: c in x ==> c.path == q
    ensures MergesOf(x + y, p) == (if p == q then x else []) + MergesOf(y, p)
  {
    if x == [] {
      assert x + y == y;
    } else {
      assert x[0] in x && x == [x[0]] && (x + y)[1..] == y;
    }
  }

  predicate PathKeys(m: map<Path, Record>)
  {
    forall p :: p in m ==> m[p].path == p
  }

  /** The whole plan holds at a path what that path's decision holds. */
  lemma {:induction false} CollectAt(l: map<Path, Record>, r: map<Path, Record>, paths: seq<Path>, p: Path)
    requires Covered(l, r, paths) && PathKeys(l) && PathKeys(r) && StrictlySorted(paths)
    ensures var plan := Collect(l, r, paths);
            && ConflictsOf(plan.conflicts, p) == (if p in paths then DecideAt(l, r, p).conflicts else [])
            && MergesOf(plan.merges, p) == (if p in paths then DecideAt(l, r, p).merges else [])
  {
    if paths != [] {
      var d := DecideAt(l, r, paths[0]);
      var rest := Collect(l, r, paths[1..]);
      CollectAt(l, r, paths[1..], p);
      DecideAtPath(l, r, paths[0]);
      ConflictsOfFront(d.conflicts, rest.conflicts, paths[0], p);
      MergesOfFront(d.merges, rest.merges, paths[0], p);
      TailMembers(paths, p);
    }
  }

  /** All a plan says of a path. */
  function ViewAt(plan: Plan, p: Path): Option<Decision>
  {
    var m := ByPath(plan.records);
    if p in m then Some(Decision(m[p], ConflictsOf(plan.conflicts, p), MergesOf(plan.merges, p))) else None
  }

  lemma RecordPresent(records: seq<Record>, p: Path)
    requires p in ByPath(records)
    ensures p in PathsOf(records)
  {
    var k :| 0 <= k < |records| && records[k] == ByPath(records)[p];
    assert PathsOf(records)[k] == p;
  }

  /** Over whole plans: the decision of a path is all the plan says of it. */
  lemma PlanAt(local: seq<Record>, remote: seq<Record>, p: Path)
    ensures var l, r := ByPath(local), ByPath(remote);
            ViewAt(PlanOf(local, remote), p)
            == if p in l || p in r then Some(DecideAt(l, r, p)) else None
  {
    var l, r := ByPath(local), ByPath(remote);
    var paths := AllPaths(local, remote);
    var plan := PlanOf(local, remote);
    CollectAt(l, r, paths, p);
    PlanCovers(local, remote);
    if p in paths {
      var k :| 0 <= k < |paths| && paths[k] == p;
      assert PathsOf(plan.records)[k] == p;
      ByPathUnique(plan.records, k);
    } else if p in ByPath(plan.records) {
      RecordPresent(plan.records, p);
      assert false;
    }
  }

  predicate Holds(records: seq<Record>, a: Record)
  {
    a.path in ByPath(records) && ByPath(records)[a.path] == a
  }

  /** No silent loss over the whole plan: a file version of either side that the plan's
      record neither keeps nor has seen nor equals is, with the version that won, in
      exactly one conflict or merge candidate of its path. */
  lemma NothingLost(local: seq<Record>, remote: seq<Record>, a: Record)
    requires AllComparable(local, remote)
    requires (Holds(local, a) || Holds(remote, a)) && a.version.entry.File?
    ensures var l, r := ByPath(local), ByPath(remote);
            var view := ViewAt(PlanOf(local, remote), a.path);
            && view.Some?
            && (Superseded(a, view.value.record)
                || (a.path in l && a.path in r && RecordedIn(l[a.path], r[a.path], view.value)))
  {
    var l, r := ByPath(local), ByPath(remote);
    PlanAt(local, remote, a.path);
    if a.path in l && a.path in r {
      NothingLostAtPath(l[a.path], r[a.path]);
    }
  }

  // ---------------------------------------------------------------- absorption

  /** Deciding again between one input and the decision: the winner absorbs itself, and
      the loser meets the decision it already met. */
  lemma DecideAgain(a: Record, b: Record)
    requires Comparable(a, b)
    ensures var d := Decide(a, b);
            && Decide(a, d.record) == (if d.record == a then Decision(a, [], []) else d)
            && Decide(b, d.record) == (if d.record == b then Decision(b, [], []) else d)
            && Decide(a, d.record) == Decide(d.record, a)
            && Decide(b, d.record) == Decide(d.record, b)
  {
    DecideSymmetric(a, b);
    DecideSymmetric(a, Decide(a, b).record);
    DecideSymmetric(b, Decide(a, b).record);
  }

  /** A version that has seen both inputs and that neither has seen ends the matter. */
  lemma DecideAfterMerge(a: Record, b: Record, m: Record)
    requires m.version.HasSeen(a.version.Id()) && m.version.HasSeen(b.version.Id())
    requires !a.version.HasSeen(m.version.Id()) && !b.version.HasSeen(m.version.Id())
    ensures Decide(a, m) == Decide(m, a) == Decide(b, m) == Decide(m, b) == Decision(m, [], [])
  {
  }

  lemma PlanPaths(local: seq<Record>, remote: seq<Record>)
    ensures AllPaths(local, PlanOf(local, remote).records) == AllPaths(local, remote)
  {
    var plan := PlanOf(local, remote);
    forall p
      ensures p in AllPaths(local, plan.records) <==> p in AllPaths(local, remote)
    {
      PlanAt(local, remote, p);
    }
    SortedUnique(AllPaths(local, plan.records), AllPaths(local, remote));
  }

  lemma {:induction false} CollectAgain(l: map<Path, Record>, r: map<Path, Record>, m: map<Path, Record>, paths: seq<Path>)
    requires Covered(l, r, paths) && PathKeys(l) && PathKeys(r)
    requires forall p :: p in l && p in r ==> Comparable(l[p], r[p])
    requires forall k :: 0 <= k < |paths| ==> paths[k] in m && m[paths[k]] == DecideAt(l, r, paths[k]).record
    ensures Covered(l, m, paths)
    ensures var again, first := Collect(l, m, paths), Collect(l, r, paths);
            && again.records == first.records
            && (forall c :: c in again.conflicts ==> c in first.conflicts)
            && (forall c :: c in again.merges ==> c in first.merges)
  {
    if paths != [] {
      var p := paths[0];
      CollectAgain(l, r, m, paths[1..]);
      if p in l && p in r {
        DecideAgain(l[p], r[p]);
      } else if p in l {
        assert Decide(l[p], m[p]) == Decision(l[p], [], []);
      }
      var again, first := DecideAt(l, m, p), DecideAt(l, r, p);
      assert again.record == first.record;
    }
  }

  /** Reconciling a side with the plan's records returns the same records, and any
      conflict or candidate it reports was reported already. */
  lemma Absorption(local: seq<Record>, remote: seq<Record>)
    requires AllComparable(local, remote)
    ensures var plan := PlanOf(local, remote);
            var again := PlanOf(local, plan.records);
            && again.records == plan.records
            && (forall c :: c in again.conflicts ==> c in plan.conflicts)
            && (forall m :: m in again.merges ==> m in plan.merges)
  {
    var l, r := ByPath(local), ByPath(remote);
    var plan := PlanOf(local, remote);
    var paths := AllPaths(local, remote);
    var m := ByPath(plan.records);
    forall k | 0 <= k < |paths|
      ensures paths[k] in m && m[paths[k]] == DecideAt(l, r, paths[k]).record
    {
      assert paths[k] in paths;
      PlanAt(local, remote, paths[k]);
    }
    PlanPaths(local, remote);
    CollectAgain(l, r, m, paths);
  }

  /** What is reported again: a path whose version won here is settled, and any other
      path of this side is judged as before, because a whole-file winner is kept as it
      was and has not seen the loser. */
  lemma ReportedAgain(local: seq<Record>, remote: seq<Record>, p: Path)
    requires AllComparable(local, remote) && p in ByPath(local)
    ensures var plan := PlanOf(local, remote);
            var mine, view := ByPath(local)[p], ViewAt(plan, p);
            && view.Some?
            && ViewAt(PlanOf(local, plan.records), p)
               == if view.value.record == mine then Some(Decision(mine, [], [])) else view
  {
    var plan := PlanOf(local, remote);
    PlanAt(local, remote, p);
    PlanAt(local, plan.records, p);
    if p in ByPath(remote) {
      DecideAgain(ByPath(local)[p], ByPath(remote)[p]);
    }
  }
}
