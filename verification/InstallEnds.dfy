/** How the next run of an install ends, from every slot earlier runs can leave
    (src/sync.rs:2229-2508). */
module InstallEnds {
  import opened Bytes
  import opened Model
  import opened Install
  import opened InstallLaws

  /** What a run comes to that compares `d` with what it was told to expect. */
  function Verdict(j: Job, a: Attempt, d: Option<Node>): Outcome
  {
    if a.expected.None? || a.expected == Some(Tombstone) then if d.None? then Applied else Invalidated
    else if d.None? then Failed
    else if !Matches(j, d, a.expected.value) then Invalidated
    else if d == Some(DirNode(false)) then Failed
    else Applied
  }

  /** The temporary is all of what the run would stage. */
  predicate Whole(j: Job, s: Slot)
  {
    if j.entry.Tombstone? then s.temp.Some? && s.temp.value.FileNode? && s.temp.value.content == s.token
    else Matches(j, s.temp, j.entry) && s.temp != Some(DirNode(false))
  }

  /** With everything staged, a run ends as its verdict says. */
  lemma PerformEnds(j: Job, a: Attempt, s: Slot)
    requires Whole(j, s) && s.temp.Some? && !Matches(j, s.target, j.entry)
    requires j.entry.Tombstone? ==> a.expected.Some? && a.expected != Some(Tombstone)
    ensures var run := Perform(j, a, s);
            && run.outcome == Verdict(j, a, s.target)
            && Last(s, run) == match run.outcome
                               case Applied => s.(target := if j.entry.Tombstone? then None else s.temp, temp := None)
                               case Invalidated => s.(temp := None)
                               case _ => if s.target.None? then s else s.(temp := None)
  {
  }

  lemma PrependLast(s: Slot, before: seq<Slot>, next: Slot, run: Run)
    requires before != [] && before[|before| - 1] == next
    ensures Last(s, Prepend(before, run)) == Last(next, run)
  {
  }

  lemma StageEnds(j: Job, a: Attempt, s: Slot)
    requires Sound(j) && (j.entry.File? ==> |j.source| == j.entry.size) && !Matches(j, s.target, j.entry)
    requires j.entry.Tombstone? ==> a.expected.Some? && a.expected != Some(Tombstone)
    ensures var run := Stage(j, a, s);
            && run.outcome == Verdict(j, a, s.target)
            && (run.outcome != Applied ==> Last(s, run).target == s.target)
            && (run.outcome != Applied && !(run.outcome == Failed && s.target.None?) ==> Last(s, run).temp.None?)
  {
    var staged := Staged(j, s);
    PerformEnds(j, a, staged);
    PrependLast(s, Staging(j, s) + [staged], staged, Perform(j, a, staged));
  }

  /** A slot with nothing exchanged yet: the run compares as if it were the first, unless it
      finds a temporary that is not whole. One still being created is given up for a new
      name; an owned one stays, unless it is what was expected. */
  lemma ResumeEnds(j: Job, a: Attempt, s: Slot)
    requires s.phase != Pending && s.temp.Some? && !Matches(j, s.target, j.entry) && Removable(s.temp.value)
    requires j.entry.Tombstone? ==> s.temp.value.FileNode? && a.expected.Some? && a.expected != Some(Tombstone)
    requires j.entry.Tombstone? && s.phase == Owned ==> Whole(j, s)
    ensures var run := Resume(j, a, s);
            if Whole(j, s) then
              && run.outcome == Verdict(j, a, s.target)
              && (run.outcome != Applied ==> Last(s, run).target == s.target)
            else if s.phase == Creating then
              run.outcome == Failed && Last(s, run) == Slot(s.target, None, Pending, a.spare)
            else if a.expected.Some? && Matches(j, s.temp, a.expected.value) then
              run.outcome == Invalidated && Last(s, run) == s.(temp := None)
            else run.outcome == Failed && run.snapshots == []
  {
    if Whole(j, s) {
      PerformEnds(j, a, s);
      PerformEnds(j, a, s.(phase := Owned));
      PrependLast(s, [s.(phase := Owned)], s.(phase := Owned), Perform(j, a, s.(phase := Owned)));
    }
  }

  /** The job is whole, and a deletion was told what to delete. */
  predicate Ready(j: Job, a: Attempt)
  {
    && Sound(j) && (j.entry.File? ==> |j.source| == j.entry.size)
    && (j.entry.Tombstone? ==> a.expected.Some? && a.expected != Some(Tombstone))
  }

  lemma AnnouncedLast(a: Attempt, s: Slot, run: Run)
    ensures Last(s, Prepend(Announcing(a, s), run)) == Last(Announced(a, s), run)
  {
    var before, next := Announcing(a, s), Announced(a, s);
    if s.phase == Pending {
      PrependLast(s, before, next, run);
    } else {
      assert before + run.snapshots == run.snapshots;
    }
  }

  lemma ApplyAnnounced(j: Job, a: Attempt, s: Slot)
    requires Ready(j, a)
    ensures var next := if s.phase != Pending then s
                        else if s.temp.Some? then Slot(s.target, None, Creating, a.spare)
                        else s.(phase := Creating);
            Apply(j, a, s).outcome == ApplyRecord(j, a, next).outcome
            && Last(s, Apply(j, a, s)) == Last(next, ApplyRecord(j, a, next))
  {
    AnnouncedLast(a, s, ApplyRecord(j, a, Announced(a, s)));
  }

  /** The first run, and any later one that finds nothing staged: with the record already
      there it has nothing to do, and otherwise it compares. */
  lemma FreshEnds(j: Job, a: Attempt, s: Slot)
    requires Ready(j, a) && (s.phase == Pending || (s.temp.None? && Unmistakable(j, s.target, s.token)))
    ensures var run := Apply(j, a, s);
            && run.outcome == (if Matches(j, s.target, j.entry) then Applied else Verdict(j, a, s.target))
            && (Matches(j, s.target, j.entry) || run.outcome != Applied ==> Last(s, run).target == s.target)
            && (run.outcome == Applied && s.target.Some? && !Matches(j, s.target, j.entry) ==>
                  MatchesExpected(j, s.target, a.expected))
  {
    ApplyAnnounced(j, a, s);
    var next := Announced(a, s);
    if !Matches(j, s.target, j.entry) {
      StageEnds(j, a, next);
    }
  }

  /** A stored object of another size than the record says is never staged. */
  lemma WrongSizeFails(j: Job, a: Attempt, s: Slot)
    requires j.entry.File? && |j.source| != j.entry.size && !Matches(j, s.target, j.entry)
    requires s.phase == Pending || s.temp.None?
    ensures var run := Apply(j, a, s);
            run.outcome == Failed && Last(s, run).target == s.target && Last(s, run).temp.None?
  {
    AnnouncedLast(a, s, ApplyRecord(j, a, Announced(a, s)));
  }

  /** Nothing exchanged, and a temporary of an earlier run there. */
  lemma InterruptedEnds(j: Job, a: Attempt, d: Option<Node>, s: Slot)
    requires Ready(j, a) && AtTarget(j, d, s) && s.phase != Pending && s.temp.Some? && Unmistakable(j, d, s.token)
    ensures var run := Apply(j, a, s);
            if Whole(j, s) then run.outcome == Verdict(j, a, d) && (run.outcome != Applied ==> Last(s, run).target == d)
            else if s.phase == Creating then run.outcome == Failed && Last(s, run) == Slot(d, None, Pending, a.spare)
            else if a.expected.Some? && Matches(j, s.temp, a.expected.value) then
              run.outcome == Invalidated && Last(s, run) == s.(temp := None)
            else run.outcome == Failed && Last(s, run) == s
  {
    ApplyAnnounced(j, a, s);
    ResumeEnds(j, a, s);
  }

  /** Exchanged and not decided: the run lets `d` go when it is what was expected and can
      be removed, and otherwise puts it back; only of a deletion a full directory stays. */
  lemma ExchangedEnds(j: Job, a: Attempt, d: Option<Node>, s: Slot)
    requires Ready(j, a) && AtTemp(j, d, s) && Unmistakable(j, d, s.token)
    ensures var run := Apply(j, a, s);
            var told := MatchesExpected(j, d, a.expected);
            if told && d != Some(DirNode(false)) then
              run.outcome == Applied && Last(s, run) == s.(target := if j.entry.Tombstone? then None else s.target, temp := None)
            else
              run.outcome == Failed
              && Last(s, run) == if told && j.entry.Tombstone? then s else s.(target := d, temp := None)
  {
    ApplyAnnounced(j, a, s);
  }

  /** Replaced already: the next run has only the marker of a deletion to remove. */
  lemma ReplacedEnds(j: Job, a: Attempt, s: Slot)
    requires Ready(j, a) && Replaced(j, s) && s.phase != Pending
    ensures var run := Apply(j, a, s);
            run.outcome == Applied && Last(s, run).temp.None?
            && Last(s, run).target == if j.entry.Tombstone? then None else s.target
  {
    ApplyAnnounced(j, a, s);
  }

  /** An install that was rolled back writes again under the name it owns; stopped there, its
      part-written temporary makes every later run give up with nothing changed, unless it
      was told to expect what was written. */
  lemma HalfWrittenStays(j: Job, a: Attempt, d: Option<Node>, s: Slot)
    requires Ready(j, a) && j.entry.File? && AtTarget(j, d, s) && s.phase == Owned && s.temp.Some?
    requires !Matches(j, s.temp, j.entry) && !MatchesExpected(j, s.temp, a.expected)
    ensures Apply(j, a, s).outcome == Failed && Last(s, Apply(j, a, s)) == s
  {
    InterruptedEnds(j, a, d, s);
  }

  /** A history of stopped runs after which every run, unless it is told to expect what was
      written, gives up with nothing changed; the file found at first is at the target. */
  ghost predicate GivesUpForGood(j: Job, d: Node, s: Slot, history: seq<Crash>)
  {
    var now := After(j, s, history);
    && Sound(j) && s.target == Some(d) && s.phase == Pending && now.target == Some(d) && now.temp.Some?
    && forall a: Attempt :: !MatchesExpected(j, now.temp, a.expected) ==>
         Apply(j, a, now).outcome == Failed && Last(now, Apply(j, a, now)) == now
  }

  /** Two runs are enough: one that is rolled back, and one that stops as it writes again. */
  lemma InstallCanGiveUpForGood()
    ensures exists j: Job, d: Node, s: Slot, history: seq<Crash> :: GivesUpForGood(j, d, s, history)
  {
    var j := Job(File([1], 1, false), [1], (c: seq<Byte>) => c);
    var d := FileNode([9], false);
    var s := Slot(Some(d), None, Pending, [7]);
    var history := GivingUp(j, d, s);
    assert GivesUpForGood(j, d, s, history);
  }

  lemma GivingUp(j: Job, d: Node, s0: Slot) returns (history: seq<Crash>)
    requires j == Job(File([1], 1, false), [1], j.hash) && j.hash([1]) == [1] && j.hash([9]) == [9] && j.hash([]) != [1]
    requires d == FileNode([9], false) && s0 == Slot(Some(d), None, Pending, [7])
    ensures GivesUpForGood(j, d, s0, history)
  {
    var a := Attempt(Some(File([5], 1, false)), [8]);
    var s1 := Slot(Some(d), None, Owned, [7]);
    var s2 := s1.(temp := Some(FileNode([], false)));
    RolledBackRun(j, d, a, s0, s1);
    RewritingRun(j, a, s1, s2);
    history := [Crash(a, 9), Crash(a, 1)];
    TwoRuns(j, s0, Crash(a, 9), Crash(a, 1));
    GivenUp(j, d, s2);
  }

  lemma TwoRuns(j: Job, s: Slot, a: Crash, b: Crash)
    ensures After(j, s, [a, b]) == Stopped(j, Stopped(j, s, a), b)
  {
    assert [a, b][..1] == [a] && [a][..0] == [];
    assert After(j, s, [a]) == Stopped(j, s, a);
  }

  lemma GivenUp(j: Job, d: Node, s: Slot)
    requires j == Job(File([1], 1, false), [1], j.hash) && j.hash([1]) == [1] && j.hash([9]) == [9] && j.hash([]) != [1]
    requires d == FileNode([9], false) && s == Slot(Some(d), Some(FileNode([], false)), Owned, [7])
    ensures forall a: Attempt :: !MatchesExpected(j, s.temp, a.expected) ==>
              Apply(j, a, s).outcome == Failed && Last(s, Apply(j, a, s)) == s
  {
    forall a: Attempt | !MatchesExpected(j, s.temp, a.expected)
      ensures Apply(j, a, s).outcome == Failed && Last(s, Apply(j, a, s)) == s
    {
      HalfWrittenStays(j, a, Some(d), s);
    }
  }

  lemma RolledBackRun(j: Job, d: Node, a: Attempt, s0: Slot, s1: Slot)
    requires j == Job(File([1], 1, false), [1], j.hash) && j.hash([1]) == [1] && j.hash([9]) == [9]
    requires d == FileNode([9], false) && a == Attempt(Some(File([5], 1, false)), [8])
    requires s0 == Slot(Some(d), None, Pending, [7]) && s1 == Slot(Some(d), None, Owned, [7])
    ensures Stopped(j, s0, Crash(a, 9)) == s1
  {
    var next := s0.(phase := Creating);
    var staged := Staged(j, next);
    ApplyAnnounced(j, a, s0);
    PerformEnds(j, a, staged);
    PrependLast(next, Staging(j, next) + [staged], staged, Perform(j, a, staged));
    assert ApplyRecord(j, a, next) == Stage(j, a, next);
    assert |Apply(j, a, s0).snapshots| == 8;
  }

  lemma RewritingRun(j: Job, a: Attempt, s1: Slot, s2: Slot)
    requires j == Job(File([1], 1, false), [1], j.hash) && j.hash([1]) == [1] && j.hash([9]) == [9]
    requires s1 == Slot(Some(FileNode([9], false)), None, Owned, [7]) && s2 == s1.(temp := Some(FileNode([], false)))
    ensures Stopped(j, s1, Crash(a, 1)) == s2
  {
    assert Writing(s1, [1], 1)[0] == s2;
    assert Staging(j, s1)[0] == s2;
    var run := Stage(j, a, s1);
    assert run.snapshots[0] == s2;
    assert Apply(j, a, s1) == Prepend([], run);
  }

  /** What stands at the target after a run that says it applied the record. */
  lemma AppliedStands(j: Job, a: Attempt, s: Slot)
    requires Sound(j) && Apply(j, a, s).outcome == Applied
    ensures var end := Last(s, Apply(j, a, s));
            && end.temp.None?
            && match j.entry
               case Tombstone => end.target.None?
               case Directory => end.target == Some(DirNode(true)) || end.target == Some(DirNode(false))
               case Symlink(to) => end.target == Some(LinkNode(to))
               case File(hash, _, executable) =>
                 end.target.Some? && end.target.value.FileNode? && end.target.value.executable == executable
                 && j.hash(end.target.value.content) == hash
  {
    AppliedIsTrue(j, a, s);
  }
}
