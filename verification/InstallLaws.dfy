/** What an install keeps, at every effect of every run and over any number of
    crashes: the entry `d` found at the target is at the target or at the temporary
    until a run that was told to expect it has compared it and lets it go
    (src/sync.rs:2229-2508). */
module InstallLaws {
  import opened Bytes
  import opened Model
  import opened Install

  // ---------------------------------------------------------------- what is assumed

  /** The stored object of a file is the one its record names, and `d` is not one of the
      markers, whose names are drawn at random. */
  predicate Sound(j: Job)
  {
    j.entry.File? ==> j.hash(j.source) == j.entry.hash
  }

  predicate NotMarker(j: Job, d: Option<Node>, a: Attempt, s: Slot)
  {
    Unmistakable(j, d, s.token) && Unmistakable(j, d, a.spare)
  }

  /** Only a deletion puts a marker where `d` was. */
  predicate Unmistakable(j: Job, d: Option<Node>, token: seq<Byte>)
  {
    j.entry.Tombstone? ==> !IsToken(d, token)
  }

  // ---------------------------------------------------------------- the invariant

  /** What stands in for the record at the target: the record, or a deletion's marker. */
  predicate Placed(j: Job, s: Slot)
  {
    if j.entry.Tombstone? then IsToken(s.target, s.token)
    else Matches(j, s.target, j.entry) && Removable(s.target.value)
  }

  /** Not yet exchanged: the temporary holds nothing that matters, and in a deletion an
      owned temporary is the whole marker. */
  predicate AtTarget(j: Job, d: Option<Node>, s: Slot)
  {
    && s.target == d
    && (s.phase != Pending && s.temp.Some? ==>
          !Matches(j, d, j.entry) && Removable(s.temp.value) && (j.entry.Tombstone? ==> s.temp.value.FileNode?))
    && (s.phase == Owned && s.temp.Some? && j.entry.Tombstone? ==> IsToken(s.temp, s.token))
  }

  /** Exchanged, and not yet decided. */
  predicate AtTemp(j: Job, d: Option<Node>, s: Slot)
  {
    s.phase == Owned && s.temp == d && d.Some? && !Matches(j, d, j.entry) && Placed(j, s)
  }

  /** `d` was removed after it compared equal, or there was nothing to displace. */
  predicate Replaced(j: Job, s: Slot)
  {
    s.temp.None? && (Matches(j, s.target, j.entry) || (j.entry.Tombstone? && s.phase == Owned && Placed(j, s)))
  }

  predicate Safe(j: Job, d: Option<Node>, matched: bool, s: Slot)
  {
    AtTarget(j, d, s) || AtTemp(j, d, s) || ((matched || d.None?) && Replaced(j, s))
  }

  /** A deletion staged again after a rollback, with its marker half written: the phase
      already says owned, so no later run looks at the marker. */
  predicate Torn(j: Job, d: Option<Node>, s: Slot)
  {
    && j.entry.Tombstone? && s.phase == Owned && s.target == d && d.Some?
    && s.temp.Some? && s.temp.value.FileNode? && !IsToken(s.temp, s.token)
  }

  /** A deletion of a directory that filled up stays half done: it cannot be removed and is not put back. */
  predicate Stuck(j: Job, d: Option<Node>, s: Slot)
  {
    j.entry.Tombstone? && d == Some(DirNode(false)) && AtTemp(j, d, s)
  }

  /** A deletion starts over under a name it already owns. */
  predicate Restages(j: Job, s: Slot)
  {
    j.entry.Tombstone? && s.phase == Owned && s.temp.None?
  }

  /** What a run from `s` must be: every effect safe, or the half-written marker of a
      re-staged deletion; and its outcome true. */
  ghost predicate Good(j: Job, d: Option<Node>, matched: bool, s: Slot, run: Run)
  {
    && (forall x :: x in run.snapshots ==> Safe(j, d, matched, x) || (Restages(j, s) && Torn(j, d, x)))
    && Safe(j, d, matched, Last(s, run))
    && (run.outcome == Applied ==> Last(s, run).temp.None? && Matches(j, Last(s, run).target, j.entry))
    && (run.outcome == Invalidated ==> Last(s, run).temp.None? && Last(s, run).target == d)
    && (run.outcome == Failed ==> Last(s, run).target == d || Stuck(j, d, Last(s, run)))
    && (run.outcome == Skipped ==> run.snapshots == [])
  }

  predicate Compared(j: Job, d: Option<Node>, a: Attempt, matched: bool)
  {
    matched || MatchesExpected(j, d, a.expected)
  }

  // ---------------------------------------------------------------- one run

  lemma GoodPrepend(j: Job, d: Option<Node>, matched: bool, s: Slot, before: seq<Slot>, next: Slot, run: Run)
    requires next == Last(s, Run(before, Applied))
    requires forall x :: x in before ==> Safe(j, d, matched, x) || (Restages(j, s) && Torn(j, d, x))
    requires Restages(j, next) ==> Restages(j, s)
    requires Good(j, d, matched, next, run) && run.outcome != Skipped
    ensures Good(j, d, matched, s, Prepend(before, run))
  {
    assert Last(s, Prepend(before, run)) == Last(next, run);
  }

  lemma PerformGood(j: Job, d: Option<Node>, matched: bool, a: Attempt, s: Slot)
    requires AtTarget(j, d, s) && s.phase == Owned && s.temp.Some? && Unmistakable(j, d, s.token)
    requires !j.entry.Tombstone? ==> Matches(j, s.temp, j.entry)
    requires j.entry.Tombstone? ==> !NothingRecorded(a.expected)
    ensures Good(j, d, Compared(j, d, a, matched), s, Perform(j, a, s))
  {
    if d.Some? {
      assert AtTemp(j, d, Exchange(s));
    }
    assert AtTarget(j, d, s.(temp := None));
  }

  lemma ResumeGood(j: Job, d: Option<Node>, matched: bool, a: Attempt, s: Slot)
    requires AtTarget(j, d, s) && s.phase != Pending && s.temp.Some? && Unmistakable(j, d, s.token)
    requires j.entry.Tombstone? ==> !NothingRecorded(a.expected)
    ensures Good(j, d, Compared(j, d, a, matched), s, Resume(j, a, s))
  {
    if s.phase == Creating {
      var matches := if j.entry.Tombstone? then IsToken(s.temp, s.token) else Matches(j, s.temp, j.entry);
      if matches {
        var owned := s.(phase := Owned);
        PerformGood(j, d, matched, a, owned);
        GoodPrepend(j, d, Compared(j, d, a, matched), s, [owned], owned, Perform(j, a, owned));
      }
    } else if j.entry.Tombstone? || Matches(j, s.temp, j.entry) {
      PerformGood(j, d, matched, a, s);
    }
  }

  lemma StagingGood(j: Job, d: Option<Node>, matched: bool, s: Slot)
    requires Sound(j) && s.target == d && !Matches(j, d, j.entry) && s.phase != Pending
    ensures forall x :: x in Staging(j, s) ==>
              Safe(j, d, matched, x) || (j.entry.Tombstone? && s.phase == Owned && Torn(j, d, x))
    ensures AtTarget(j, d, Staged(j, s)) && Staged(j, s).temp.Some?
    ensures !j.entry.Tombstone? ==> Matches(j, Staged(j, s).temp, j.entry)
  {
    forall x | x in Staging(j, s)
      ensures AtTarget(j, d, x) || (j.entry.Tombstone? && s.phase == Owned && Torn(j, d, x))
    {
    }
  }

  lemma StageGood(j: Job, d: Option<Node>, matched: bool, a: Attempt, s: Slot)
    requires Sound(j) && AtTarget(j, d, s) && s.phase != Pending && s.temp.None?
    requires !Matches(j, d, j.entry) && Unmistakable(j, d, s.token)
    requires j.entry.Tombstone? ==> !NothingRecorded(a.expected)
    ensures Good(j, d, Compared(j, d, a, matched), s, Stage(j, a, s))
  {
    if !(j.entry.File? && |j.source| != j.entry.size) {
      var staged := Staged(j, s);
      var before := Staging(j, s) + [staged];
      StagingGood(j, d, Compared(j, d, a, matched), s);
      PerformGood(j, d, matched, a, staged);
      assert staged == before[|before| - 1];
      GoodPrepend(j, d, Compared(j, d, a, matched), s, before, staged, Perform(j, a, staged));
    }
  }

  lemma RecoveryGood(j: Job, d: Option<Node>, matched: bool, a: Attempt, s: Slot)
    requires AtTemp(j, d, s) && Unmistakable(j, d, s.token)
    ensures Good(j, d, Compared(j, d, a, matched), s, ApplyRecord(j, a, s))
  {
    var back := Exchange(s).(temp := None);
    assert AtTarget(j, d, back);
    assert AtTarget(j, d, Exchange(s));
    assert Replaced(j, s.(temp := None));
  }

  lemma ApplyRecordGood(j: Job, d: Option<Node>, matched: bool, a: Attempt, s: Slot)
    requires Sound(j) && Safe(j, d, matched, s) && Unmistakable(j, d, s.token) && s.phase != Pending
    requires j.entry.Tombstone? ==> !NothingRecorded(a.expected)
    ensures Good(j, d, Compared(j, d, a, matched), s, ApplyRecord(j, a, s))
  {
    if AtTemp(j, d, s) {
      RecoveryGood(j, d, matched, a, s);
    } else if (matched || d.None?) && Replaced(j, s) {
    } else if Matches(j, d, j.entry) {
    } else if s.temp.Some? {
      ResumeGood(j, d, matched, a, s);
    } else {
      StageGood(j, d, matched, a, s);
    }
  }

  /** One run, from any slot earlier runs can leave. */
  lemma ApplyGood(j: Job, d: Option<Node>, matched: bool, a: Attempt, s: Slot)
    requires Sound(j) && Safe(j, d, matched, s) && NotMarker(j, d, a, s)
    ensures Good(j, d, Compared(j, d, a, matched), s, Apply(j, a, s))
    ensures Apply(j, a, s).outcome == Skipped <==> j.entry.Tombstone? && NothingRecorded(a.expected)
  {
    if !(j.entry.Tombstone? && NothingRecorded(a.expected)) {
      var next := Announced(a, s);
      if s.phase == Pending {
        assert AtTarget(j, d, next) || Replaced(j, next);
        assert AtTarget(j, d, Rotate(s, a.spare)) || Replaced(j, Rotate(s, a.spare));
      }
      ApplyRecordGood(j, d, matched, a, next);
      NotSkipped(j, a, next);
      GoodPrepend(j, d, Compared(j, d, a, matched), s, Announcing(a, s), next, ApplyRecord(j, a, next));
    }
  }

  lemma NotSkipped(j: Job, a: Attempt, s: Slot)
    ensures ApplyRecord(j, a, s).outcome != Skipped
  {
  }

  // ---------------------------------------------------------------- crashes

  /** A run stopped after so many effects, or run to its end when there are fewer. */
  datatype Crash = Crash(attempt: Attempt, effects: nat)

  function Stopped(j: Job, s: Slot, c: Crash): Slot
  {
    var run := Apply(j, c.attempt, s);
    if c.effects == 0 then s
    else if c.effects <= |run.snapshots| then run.snapshots[c.effects - 1]
    else Last(s, run)
  }

  function After(j: Job, s: Slot, history: seq<Crash>): Slot
  {
    if history == [] then s
    else Stopped(j, After(j, s, history[..|history| - 1]), history[|history| - 1])
  }

  /** Some run so far was told to expect an entry equal to `d`. */
  predicate EverTold(j: Job, d: Option<Node>, history: seq<Crash>)
  {
    exists c :: c in history && MatchesExpected(j, d, c.attempt.expected)
  }

  predicate NeverMarker(j: Job, d: Option<Node>, token: seq<Byte>, history: seq<Crash>)
  {
    Unmistakable(j, d, token) && forall c :: c in history ==> Unmistakable(j, d, c.attempt.spare)
  }

  /** A run changes the name of its temporary only to the spare one. */
  ghost predicate KeepsToken(a: Attempt, s: Slot, run: Run)
  {
    forall x :: x in run.snapshots ==> x.token == s.token || x.token == a.spare
  }

  lemma PerformToken(j: Job, a: Attempt, s: Slot)
    requires s.temp.Some?
    ensures KeepsToken(a, s, Perform(j, a, s))
  {
  }

  lemma StageToken(j: Job, a: Attempt, s: Slot)
    ensures KeepsToken(a, s, Stage(j, a, s))
  {
    var staged := Staged(j, s);
    PerformToken(j, a, staged);
    assert forall x :: x in Staging(j, s) ==> x.token == s.token;
  }

  lemma ResumeToken(j: Job, a: Attempt, s: Slot)
    requires s.temp.Some?
    ensures KeepsToken(a, s, Resume(j, a, s))
  {
    PerformToken(j, a, s);
    PerformToken(j, a, s.(phase := Owned));
  }

  lemma RecordToken(j: Job, a: Attempt, s: Slot)
    ensures KeepsToken(a, s, ApplyRecord(j, a, s))
  {
    StageToken(j, a, s);
    if s.temp.Some? {
      ResumeToken(j, a, s);
    }
  }

  lemma TokenKept(j: Job, a: Attempt, s: Slot)
    ensures KeepsToken(a, s, Apply(j, a, s))
  {
    RecordToken(j, a, Announced(a, s));
  }

  lemma SafeGrows(j: Job, d: Option<Node>, s: Slot, before: bool, now: bool)
    requires Safe(j, d, before, s) && (before ==> now)
    ensures Safe(j, d, now, s)
  {
  }

  lemma StoppedSafe(j: Job, d: Option<Node>, matched: bool, s: Slot, c: Crash)
    requires Sound(j) && Safe(j, d, matched, s) && NotMarker(j, d, c.attempt, s)
    ensures Safe(j, d, Compared(j, d, c.attempt, matched), Stopped(j, s, c))
            || (Restages(j, s) && Torn(j, d, Stopped(j, s, c)))
    ensures Unmistakable(j, d, Stopped(j, s, c).token)
  {
    ApplyGood(j, d, matched, c.attempt, s);
    TokenKept(j, c.attempt, s);
    SafeGrows(j, d, s, matched, Compared(j, d, c.attempt, matched));
    var run := Apply(j, c.attempt, s);
    if run.snapshots != [] {
      assert run.snapshots[|run.snapshots| - 1] in run.snapshots;
      if 0 < c.effects <= |run.snapshots| {
        assert run.snapshots[c.effects - 1] in run.snapshots;
      }
    }
  }

  /** Installs know no marker: the slot stays safe in every history. */
  lemma {:induction false} InstallSafe(j: Job, d: Option<Node>, s: Slot, history: seq<Crash>)
    requires Sound(j) && !j.entry.Tombstone? && Safe(j, d, false, s)
    ensures Safe(j, d, EverTold(j, d, history), After(j, s, history))
  {
    if history != [] {
      var n := |history| - 1;
      var earlier := history[..n];
      InstallSafe(j, d, s, earlier);
      assert history[n] in history;
      StoppedSafe(j, d, EverTold(j, d, earlier), After(j, s, earlier), history[n]);
      SafeGrows(j, d, After(j, s, history), Compared(j, d, history[n].attempt, EverTold(j, d, earlier)),
                EverTold(j, d, history));
    }
  }

  /** An install is atomic at every moment of every history, whatever is found: that is
      at the target or the temporary, or the record is in place, the temporary is free,
      and some run was told to expect what was found. */
  lemma InstallIsAtomic(j: Job, d: Option<Node>, s: Slot, history: seq<Crash>)
    requires Sound(j) && !j.entry.Tombstone? && s.target == d && s.phase == Pending
    ensures var now := After(j, s, history);
            || now.target == d
            || (d.Some? && now.temp == d)
            || (InPlace(j, now) && (d.None? || EverTold(j, d, history)))
  {
    assert AtTarget(j, d, s);
    InstallSafe(j, d, s, history);
  }

  /** The record is at the target and the temporary's name is free. */
  predicate InPlace(j: Job, s: Slot) { s.temp.None? && Matches(j, s.target, j.entry) }

  // ---------------------------------------------------------------- a half-written marker

  /** Left alone, a run that finds a half-written marker still ends well. */
  lemma TornRun(j: Job, d: Option<Node>, a: Attempt, s: Slot)
    requires Torn(j, d, s) && !IsToken(d, s.token) && !NothingRecorded(a.expected)
    ensures var run := Apply(j, a, s);
            && (forall x :: x in run.snapshots ==> x.target == d || x.temp == d || MatchesExpected(j, d, a.expected))
            && Safe(j, d, MatchesExpected(j, d, a.expected), Last(s, run))
            && run.outcome in {Applied, Invalidated, Failed}
            && (run.outcome != Applied ==> Last(s, run).target == d)
  {
    assert AtTarget(j, d, s.(temp := None));
  }

  /** With `d` at the temporary of a deletion, and no match for what is expected, the
      next run keeps `d` exactly when the whole marker stands at the target. */
  lemma DisplacedSurvivesIff(j: Job, d: Node, a: Attempt, s: Slot)
    requires j.entry.Tombstone? && s.phase == Owned && s.temp == Some(d) && !IsDir(d)
    requires s.target.Some? && s.target.value.FileNode? && s.target.value != d
    requires !NothingRecorded(a.expected) && !MatchesExpected(j, Some(d), a.expected)
    ensures var end := Last(s, Apply(j, a, s));
            (end.target == Some(d) || end.temp == Some(d)) <==> IsToken(s.target, s.token)
  {
  }

  // ---------------------------------------------------------------- every history

  /** In a deletion, what was found has been exchanged for a half-written marker: no later
      run can tell which of the two is the marker. */
  predicate Displaced(j: Job, d: Node, s: Slot)
  {
    && j.entry.Tombstone? && s.phase == Owned && s.temp == Some(d)
    && s.target.Some? && s.target.value.FileNode? && s.target.value != d && !IsToken(s.target, s.token)
  }

  /** A run that starts there and gets as far as its third effect removes what was found,
      unless that is a directory. */
  predicate Fatal(j: Job, d: Node, s: Slot, c: Crash)
  {
    Displaced(j, d, s) && !IsDir(d) && !NothingRecorded(c.attempt.expected) && c.effects >= 3
  }

  predicate Kept(d: Node, s: Slot)
  {
    s.target == Some(d) || s.temp == Some(d)
  }

  /** A run that was told to expect what was found, could compare it, and removed it. */
  predicate LetsGo(j: Job, d: Node, s: Slot, c: Crash)
  {
    MatchesExpected(j, Some(d), c.attempt.expected) && !Displaced(j, d, s) && !Kept(d, Stopped(j, s, c))
  }

  /** Some run so far has let it go. */
  predicate LetGo(j: Job, d: Node, s: Slot, history: seq<Crash>)
  {
    var n := |history| - 1;
    history != [] && (LetGo(j, d, s, history[..n]) || LetsGo(j, d, After(j, s, history[..n]), history[n]))
  }

  /** No run is fatal while what was found has not been let go of. */
  predicate NeverFatal(j: Job, d: Node, s: Slot, history: seq<Crash>)
  {
    forall k :: 0 <= k < |history| && Fatal(j, d, After(j, s, history[..k]), history[k]) ==> LetGo(j, d, s, history[..k])
  }

  /** Every slot a history can lead to before what was found is let go or lost. */
  predicate Recoverable(j: Job, d: Node, s: Slot)
  {
    Safe(j, Some(d), false, s) || Torn(j, Some(d), s) || Displaced(j, d, s)
  }

  lemma RecoverableIsKept(j: Job, d: Node, s: Slot)
    requires Recoverable(j, d, s)
    ensures Kept(d, s)
  {
  }

  /** A run from a half-written marker, seen at each of its effects. */
  lemma TornEffects(j: Job, d: Node, a: Attempt, s: Slot)
    requires Torn(j, Some(d), s) && !IsToken(Some(d), s.token) && !NothingRecorded(a.expected)
    ensures var x := Exchange(s);
            Apply(j, a, s).snapshots
            == if MatchesExpected(j, Some(d), a.expected) && Removable(d)
               then [x, x.(temp := None), s.(target := None, temp := None)] else [x, s, s.(temp := None)]
  {
    assert ApplyRecord(j, a, s) == Delete(j, a, s);
    assert Apply(j, a, s) == Prepend([], Delete(j, a, s));
  }

  /** A run that goes on from a half-written marker and stops after it has removed what
      was found leaves the half-written marker at the target, for good. */
  predicate LeavesMarker(j: Job, d: Node, s: Slot, c: Crash)
  {
    && Torn(j, Some(d), s) && s.temp != Some(d) && c.effects == 2
    && MatchesExpected(j, Some(d), c.attempt.expected) && Removable(d)
  }

  lemma TornStep(j: Job, d: Node, s: Slot, c: Crash)
    requires Torn(j, Some(d), s) && NotMarker(j, Some(d), c.attempt, s)
    ensures Stopped(j, s, c).token == s.token
    ensures if LetsGo(j, d, s, c) then LeavesMarker(j, d, s, c) || Replaced(j, Stopped(j, s, c)) else Recoverable(j, d, Stopped(j, s, c))
    ensures LeavesMarker(j, d, s, c) ==> LetsGo(j, d, s, c) && Leftover(j, Stopped(j, s, c))
  {
    if !NothingRecorded(c.attempt.expected) {
      TornEffects(j, d, c.attempt, s);
      assert AtTarget(j, Some(d), s.(temp := None));
      if s.temp == Some(d) {
        assert Torn(j, Some(d), Exchange(s));
        assert AtTarget(j, Some(d), Exchange(s).(temp := None));
      } else {
        assert Displaced(j, d, Exchange(s));
      }
    }
  }

  /** A marker no run will recognize, with nothing at the temporary. */
  predicate Leftover(j: Job, s: Slot)
  {
    && j.entry.Tombstone? && s.phase == Owned && s.temp.None?
    && s.target.Some? && s.target.value.FileNode? && !IsToken(s.target, s.token)
  }

  /** A run from the displaced slot, seen at each of its effects. */
  lemma DisplacedEffects(j: Job, d: Node, a: Attempt, s: Slot)
    requires Displaced(j, d, s) && !NothingRecorded(a.expected)
    ensures var x := Exchange(s);
            Apply(j, a, s).snapshots
            == if !MatchesExpected(j, s.target, a.expected) then
                 if IsDir(d) then [x, s] else [x, s, s.(temp := None)]
               else if IsDir(d) then [x, x.(temp := None)]
               else [x, x.(temp := None), s.(target := None, temp := None)]
  {
    assert ApplyRecord(j, a, s) == Delete(j, a, s);
    assert Apply(j, a, s) == Prepend([], Delete(j, a, s));
  }

  lemma DisplacedStep(j: Job, d: Node, s: Slot, c: Crash)
    requires Displaced(j, d, s) && !Fatal(j, d, s, c)
    ensures Recoverable(j, d, Stopped(j, s, c)) && Stopped(j, s, c).token == s.token
  {
    if !NothingRecorded(c.attempt.expected) {
      DisplacedEffects(j, d, c.attempt, s);
      assert Torn(j, Some(d), Exchange(s));
      assert AtTarget(j, Some(d), Exchange(s).(temp := None));
    }
  }

  lemma FatalStep(j: Job, d: Node, s: Slot, c: Crash)
    requires Fatal(j, d, s, c)
    ensures !Kept(d, Stopped(j, s, c))
  {
    DisplacedEffects(j, d, c.attempt, s);
  }

  /** From a safe slot a run lets go only of what it replaces. */
  lemma SafeStep(j: Job, d: Node, s: Slot, c: Crash)
    requires Sound(j) && Safe(j, Some(d), false, s) && NotMarker(j, Some(d), c.attempt, s)
    ensures Unmistakable(j, Some(d), Stopped(j, s, c).token)
    ensures if LetsGo(j, d, s, c) then Replaced(j, Stopped(j, s, c)) else Recoverable(j, d, Stopped(j, s, c))
  {
    StoppedSafe(j, Some(d), false, s, c);
    SafeIsNotDisplaced(j, d, s);
  }

  lemma SafeIsNotDisplaced(j: Job, d: Node, s: Slot)
    requires Safe(j, Some(d), false, s)
    ensures !Displaced(j, d, s)
  {
  }

  /** One run: what can be recovered still can, or is let go of; then it is replaced, but
      for the half-written marker. */
  lemma RecoverableStep(j: Job, d: Node, s: Slot, c: Crash)
    requires Sound(j) && Recoverable(j, d, s) && NotMarker(j, Some(d), c.attempt, s) && !Fatal(j, d, s, c)
    ensures Unmistakable(j, Some(d), Stopped(j, s, c).token)
    ensures if LetsGo(j, d, s, c) then LeavesMarker(j, d, s, c) || Replaced(j, Stopped(j, s, c)) else Recoverable(j, d, Stopped(j, s, c))
  {
    if Displaced(j, d, s) {
      DisplacedStep(j, d, s, c);
    } else if Torn(j, Some(d), s) {
      TornStep(j, d, s, c);
    } else {
      SafeStep(j, d, s, c);
    }
  }

  lemma MarkersEarlier(j: Job, d: Node, s: Slot, history: seq<Crash>)
    requires history != [] && NeverMarker(j, Some(d), s.token, history)
    ensures NeverMarker(j, Some(d), s.token, history[..|history| - 1])
    ensures Unmistakable(j, Some(d), history[|history| - 1].attempt.spare)
  {
    assert history[|history| - 1] in history;
  }

  lemma FatalEarlier(j: Job, d: Node, s: Slot, history: seq<Crash>)
    requires NeverFatal(j, d, s, history) && history != []
    ensures var n := |history| - 1;
            && NeverFatal(j, d, s, history[..n])
            && (LetGo(j, d, s, history[..n]) || !Fatal(j, d, After(j, s, history[..n]), history[n]))
  {
    var earlier := history[..|history| - 1];
    forall k | 0 <= k < |earlier|
      ensures Fatal(j, d, After(j, s, earlier[..k]), earlier[k]) ==> LetGo(j, d, s, earlier[..k])
    {
      assert earlier[..k] == history[..k];
    }
  }

  /** However often runs are cut short, and whatever entry each of them was told to
      expect: short of a fatal run what was found can be recovered until a run that was
      told to expect it has let it go. */
  lemma {:induction false} CrashSafe(j: Job, d: Node, s: Slot, history: seq<Crash>)
    requires Sound(j) && s.target == Some(d) && s.phase == Pending
    requires NeverMarker(j, Some(d), s.token, history) && NeverFatal(j, d, s, history)
    ensures LetGo(j, d, s, history)
            || (Recoverable(j, d, After(j, s, history)) && Unmistakable(j, Some(d), After(j, s, history).token))
  {
    if history == [] {
      assert AtTarget(j, Some(d), s);
    } else {
      var n := |history| - 1;
      FatalEarlier(j, d, s, history);
      MarkersEarlier(j, d, s, history);
      CrashSafe(j, d, s, history[..n]);
      if !LetGo(j, d, s, history) {
        RecoverableStep(j, d, After(j, s, history[..n]), history[n]);
      }
    }
  }

  /** At every moment of a history what was found is kept, or has been let go of by a run
      told to expect it, if and only if no run before that was fatal. */
  lemma SurvivesIff(j: Job, d: Node, s: Slot, history: seq<Crash>)
    requires Sound(j) && s.target == Some(d) && s.phase == Pending && NeverMarker(j, Some(d), s.token, history)
    ensures (forall k :: 0 <= k <= |history| ==> Kept(d, After(j, s, history[..k])) || LetGo(j, d, s, history[..k]))
            <==> NeverFatal(j, d, s, history)
  {
    if NeverFatal(j, d, s, history) {
      forall k | 0 <= k <= |history|
        ensures Kept(d, After(j, s, history[..k])) || LetGo(j, d, s, history[..k])
      {
        PrefixKept(j, d, s, history, k);
      }
    } else {
      var k :| 0 <= k < |history| && Fatal(j, d, After(j, s, history[..k]), history[k]) && !LetGo(j, d, s, history[..k]);
      FatalEnds(j, d, s, history, k);
    }
  }

  /** A fatal run loses what was found. */
  lemma FatalEnds(j: Job, d: Node, s: Slot, history: seq<Crash>, k: nat)
    requires k < |history| && Fatal(j, d, After(j, s, history[..k]), history[k]) && !LetGo(j, d, s, history[..k])
    ensures !Kept(d, After(j, s, history[..k + 1])) && !LetGo(j, d, s, history[..k + 1])
  {
    FatalStep(j, d, After(j, s, history[..k]), history[k]);
    assert history[..k + 1][..k] == history[..k];
  }

  lemma PrefixKept(j: Job, d: Node, s: Slot, history: seq<Crash>, k: nat)
    requires Sound(j) && s.target == Some(d) && s.phase == Pending && k <= |history|
    requires NeverMarker(j, Some(d), s.token, history) && NeverFatal(j, d, s, history)
    ensures Kept(d, After(j, s, history[..k])) || LetGo(j, d, s, history[..k])
  {
    var part := history[..k];
    forall i | 0 <= i < |part|
      ensures Fatal(j, d, After(j, s, part[..i]), part[i]) ==> LetGo(j, d, s, part[..i])
    {
      assert part[..i] == history[..i];
    }
    CrashSafe(j, d, s, part);
  }

  // ---------------------------------------------------------------- all or nothing

  /** What was found is kept, or it was let go of and is replaced by the record, or by the
      whole marker of a deletion that the next run removes. */
  predicate Settled(j: Job, d: Node, s: Slot, history: seq<Crash>)
  {
    var now := After(j, s, history);
    Kept(d, now) || (Replaced(j, now) && LetGo(j, d, s, history))
  }

  /** The runs that break this: one that loses what was found, and one that leaves its
      half-written marker. */
  predicate Breaks(j: Job, d: Node, s: Slot, c: Crash)
  {
    Fatal(j, d, s, c) || LeavesMarker(j, d, s, c)
  }

  predicate NeverBreaks(j: Job, d: Node, s: Slot, history: seq<Crash>)
  {
    forall k :: 0 <= k < |history| ==> !Breaks(j, d, After(j, s, history[..k]), history[k])
  }

  /** What is replaced stays replaced. */
  lemma ReplacedStep(j: Job, s: Slot, c: Crash)
    requires Replaced(j, s)
    ensures Replaced(j, Stopped(j, s, c))
  {
  }

  /** Until it is let go of it can be recovered, and afterwards it is replaced. */
  predicate Orderly(j: Job, d: Node, s: Slot, history: seq<Crash>)
  {
    var now := After(j, s, history);
    if LetGo(j, d, s, history) then Replaced(j, now) else Recoverable(j, d, now) && Unmistakable(j, Some(d), now.token)
  }

  lemma {:induction false} StaysOrderly(j: Job, d: Node, s: Slot, history: seq<Crash>)
    requires Sound(j) && s.target == Some(d) && s.phase == Pending
    requires NeverMarker(j, Some(d), s.token, history) && NeverBreaks(j, d, s, history)
    ensures Orderly(j, d, s, history)
  {
    if history == [] {
      assert AtTarget(j, Some(d), s);
    } else {
      var n := |history| - 1;
      forall k | 0 <= k < n
        ensures !Breaks(j, d, After(j, s, history[..n][..k]), history[..n][k])
      {
        assert history[..n][..k] == history[..k];
      }
      MarkersEarlier(j, d, s, history);
      StaysOrderly(j, d, s, history[..n]);
      OrderlyStep(j, d, s, history);
    }
  }

  lemma OrderlyStep(j: Job, d: Node, s: Slot, history: seq<Crash>)
    requires Sound(j) && history != [] && NeverMarker(j, Some(d), s.token, history)
    requires var n := |history| - 1;
             Orderly(j, d, s, history[..n]) && !Breaks(j, d, After(j, s, history[..n]), history[n])
    ensures Orderly(j, d, s, history)
  {
    var n := |history| - 1;
    var now := After(j, s, history[..n]);
    MarkersEarlier(j, d, s, history);
    if LetGo(j, d, s, history[..n]) {
      ReplacedStep(j, now, history[n]);
    } else {
      RecoverableStep(j, d, now, history[n]);
    }
  }

  lemma OrderlyPrefix(j: Job, d: Node, s: Slot, history: seq<Crash>, k: nat)
    requires Sound(j) && s.target == Some(d) && s.phase == Pending && k <= |history|
    requires NeverMarker(j, Some(d), s.token, history)
    requires forall i :: 0 <= i < k ==> !Breaks(j, d, After(j, s, history[..i]), history[i])
    ensures Orderly(j, d, s, history[..k])
  {
    forall i | 0 <= i < k
      ensures !Breaks(j, d, After(j, s, history[..k][..i]), history[..k][i])
    {
      assert history[..k][..i] == history[..i];
    }
    StaysOrderly(j, d, s, history[..k]);
  }

  /** The first such run breaks it. */
  lemma BreakShows(j: Job, d: Node, s: Slot, history: seq<Crash>, k: nat)
    requires k < |history| && Orderly(j, d, s, history[..k]) && Breaks(j, d, After(j, s, history[..k]), history[k])
    requires NeverMarker(j, Some(d), s.token, history)
    ensures !Settled(j, d, s, history[..k + 1])
  {
    var now := After(j, s, history[..k]);
    assert now.temp.Some?;
    assert !LetGo(j, d, s, history[..k]);
    if Fatal(j, d, now, history[k]) {
      FatalEnds(j, d, s, history, k);
    } else {
      assert history[k] in history;
      assert history[..k + 1][..k] == history[..k];
      TornStep(j, d, now, history[k]);
    }
  }

  /** The first run of a history that breaks it. */
  lemma FirstBreak(j: Job, d: Node, s: Slot, history: seq<Crash>, n: nat) returns (k: nat)
    requires n < |history| && Breaks(j, d, After(j, s, history[..n]), history[n])
    ensures k < |history| && Breaks(j, d, After(j, s, history[..k]), history[k])
    ensures forall i :: 0 <= i < k ==> !Breaks(j, d, After(j, s, history[..i]), history[i])
    decreases n
  {
    if i :| 0 <= i < n && Breaks(j, d, After(j, s, history[..i]), history[i]) {
      k := FirstBreak(j, d, s, history, i);
    } else {
      k := n;
    }
  }

  /** All or nothing, at every moment of every history, if and only if no run breaks it. */
  lemma AllOrNothingIff(j: Job, d: Node, s: Slot, history: seq<Crash>)
    requires Sound(j) && s.target == Some(d) && s.phase == Pending && NeverMarker(j, Some(d), s.token, history)
    ensures (forall k :: 0 <= k <= |history| ==> Settled(j, d, s, history[..k])) <==> NeverBreaks(j, d, s, history)
  {
    if NeverBreaks(j, d, s, history) {
      forall k | 0 <= k <= |history|
        ensures Settled(j, d, s, history[..k])
      {
        OrderlyPrefix(j, d, s, history, k);
      }
    } else {
      var n :| 0 <= n < |history| && Breaks(j, d, After(j, s, history[..n]), history[n]);
      var k := FirstBreak(j, d, s, history, n);
      OrderlyPrefix(j, d, s, history, k);
      BreakShows(j, d, s, history, k);
    }
  }

  // ---------------------------------------------------------------- the outcome of the last run

  /** From any slot at all: a run that says it applied the record has put it at the target
      and left nothing at the temporary. */
  lemma AppliedIsTrue(j: Job, a: Attempt, s: Slot)
    requires Sound(j) && Apply(j, a, s).outcome == Applied
    ensures InPlace(j, Last(s, Apply(j, a, s)))
  {
    var next := Announced(a, s);
    RecordIsTrue(j, a, next);
    RunsJoin(s, [], Announcing(a, s), next, ApplyRecord(j, a, next),
             Announcing(a, s) + ApplyRecord(j, a, next).snapshots, Last(next, ApplyRecord(j, a, next)));
  }

  lemma PerformIsTrue(j: Job, a: Attempt, s: Slot)
    requires s.temp.Some? && (!j.entry.Tombstone? ==> Matches(j, s.temp, j.entry))
    ensures Perform(j, a, s).outcome == Applied ==> InPlace(j, Last(s, Perform(j, a, s)))
  {
  }

  lemma ResumeIsTrue(j: Job, a: Attempt, s: Slot)
    requires s.temp.Some?
    ensures Resume(j, a, s).outcome == Applied ==> InPlace(j, Last(s, Resume(j, a, s)))
  {
    var owned := s.(phase := Owned);
    if j.entry.Tombstone? || Matches(j, s.temp, j.entry) {
      PerformIsTrue(j, a, s);
      PerformIsTrue(j, a, owned);
      RunsJoin(s, [], [owned], owned, Perform(j, a, owned), [owned] + Perform(j, a, owned).snapshots,
               Last(owned, Perform(j, a, owned)));
    }
  }

  lemma StageIsTrue(j: Job, a: Attempt, s: Slot)
    requires Sound(j)
    ensures Stage(j, a, s).outcome == Applied ==> InPlace(j, Last(s, Stage(j, a, s)))
  {
    var staged := Staged(j, s);
    var before := Staging(j, s) + [staged];
    PerformIsTrue(j, a, staged);
    RunsJoin(s, [], before, staged, Perform(j, a, staged), before + Perform(j, a, staged).snapshots,
             Last(staged, Perform(j, a, staged)));
  }

  lemma RecordIsTrue(j: Job, a: Attempt, s: Slot)
    requires Sound(j)
    ensures ApplyRecord(j, a, s).outcome == Applied ==> InPlace(j, Last(s, ApplyRecord(j, a, s)))
  {
    if s.phase == Owned && j.entry.Tombstone? && IsToken(s.target, s.token) {
      assert RecoverTombstone(j, a, s).outcome == Applied ==> InPlace(j, Last(s, RecoverTombstone(j, a, s)));
    } else if Matches(j, s.target, j.entry) {
      assert RecoverDisplaced(j, a, s).outcome == Applied ==> InPlace(j, Last(s, RecoverDisplaced(j, a, s)));
    } else if s.phase != Pending && s.temp.Some? {
      ResumeIsTrue(j, a, s);
    } else {
      StageIsTrue(j, a, s);
    }
  }

  /** Short of a fatal run, what was found is kept until a run that was told to expect it
      lets it go, and the run that ends the history tells the truth: it applied the record,
      left no temporary and removed nothing but what it expected, or it gave up and what
      was found is back in place. Only a deletion can fail and leave a directory at the
      temporary. */
  lemma NothingLostInstalling(j: Job, d: Node, s: Slot, history: seq<Crash>, a: Attempt)
    requires Sound(j) && s.target == Some(d) && s.phase == Pending
    requires NeverMarker(j, Some(d), s.token, history) && Unmistakable(j, Some(d), a.spare)
    requires NeverFatal(j, d, s, history) && (LetGo(j, d, s, history) || !Fatal(j, d, After(j, s, history), Crash(a, 3)))
    ensures var now := After(j, s, history);
            var run := Apply(j, a, now);
            && (Kept(d, now) || LetGo(j, d, s, history))
            && (run.outcome == Applied ==> InPlace(j, Last(now, run)))
            && (!LetGo(j, d, s, history) ==>
                  && (run.outcome == Applied ==> Kept(d, Last(now, run)) || MatchesExpected(j, Some(d), a.expected))
                  && (run.outcome == Invalidated ==> Last(now, run).temp.None? && Last(now, run).target == Some(d))
                  && (run.outcome == Failed ==>
                        Last(now, run).target == Some(d)
                        || (j.entry.Tombstone? && IsDir(d) && Last(now, run).temp == Some(d))))
  {
    var now := After(j, s, history);
    CrashSafe(j, d, s, history);
    if Apply(j, a, now).outcome == Applied {
      AppliedIsTrue(j, a, now);
    }
    if !LetGo(j, d, s, history) {
      LastOutcome(j, d, a, now);
      LastKeeps(j, d, a, now);
    }
  }

  /** A run to its end removes only what it expects. */
  lemma LastKeeps(j: Job, d: Node, a: Attempt, s: Slot)
    requires Sound(j) && Recoverable(j, d, s) && NotMarker(j, Some(d), a, s) && !Fatal(j, d, s, Crash(a, 3))
    ensures Kept(d, Last(s, Apply(j, a, s))) || MatchesExpected(j, Some(d), a.expected)
  {
    var whole := Crash(a, |Apply(j, a, s).snapshots| + 3);
    RecoverableStep(j, d, s, whole);
  }

  lemma LastOutcome(j: Job, d: Node, a: Attempt, s: Slot)
    requires Sound(j) && Recoverable(j, d, s) && NotMarker(j, Some(d), a, s) && !Fatal(j, d, s, Crash(a, 3))
    ensures var run := Apply(j, a, s);
            && (run.outcome == Invalidated ==> Last(s, run).temp.None? && Last(s, run).target == Some(d))
            && (run.outcome == Failed ==>
                  Last(s, run).target == Some(d) || (j.entry.Tombstone? && IsDir(d) && Last(s, run).temp == Some(d)))
  {
    if Safe(j, Some(d), false, s) {
      ApplyGood(j, Some(d), false, a, s);
    } else if NothingRecorded(a.expected) {
      assert Apply(j, a, s).outcome == Skipped;
    } else if Displaced(j, d, s) {
      DisplacedEffects(j, d, a, s);
      assert Apply(j, a, s).outcome == Delete(j, a, s).outcome;
    } else {
      TornRun(j, Some(d), a, s);
      assert Apply(j, a, s).outcome == Delete(j, a, s).outcome;
    }
  }

  // ---------------------------------------------------------------- the loss

  /** A file found at the target is gone though no run was told to expect it. */
  ghost predicate LosesUnseen(j: Job, d: Node, s: Slot, history: seq<Crash>)
  {
    && Sound(j) && s.target == Some(d) && s.phase == Pending && NeverMarker(j, Some(d), s.token, history)
    && !EverTold(j, Some(d), history)
    && After(j, s, history).target != Some(d) && After(j, s, history).temp != Some(d)
  }

  /** Three crashes lose such a file: one after a rollback, one in the middle of writing
      the marker again, one between the two exchanges. */
  lemma DeletionCanLoseAnEdit()
    ensures exists j: Job, d: Node, s: Slot, history: seq<Crash> :: LosesUnseen(j, d, s, history)
  {
    var j := Job(Tombstone, [], (c: seq<Byte>) => c);
    var d := FileNode([9], false);
    var s0 := Slot(Some(d), None, Pending, [7]);
    var history := LossyHistory(j, d, s0);
    assert LosesUnseen(j, d, s0, history);
  }

  lemma LossyHistory(j: Job, d: Node, s0: Slot) returns (history: seq<Crash>)
    requires j.entry.Tombstone? && j == Job(Tombstone, [], j.hash) && d == FileNode([9], false)
    requires s0 == Slot(Some(d), None, Pending, [7]) && j.hash([9]) != [1] && j.hash([]) != [1]
    ensures LosesUnseen(j, d, s0, history)
  {
    var a := Attempt(Some(File([1], 1, false)), [8]);
    var s1 := s0.(phase := Owned);
    var s2 := s1.(temp := Some(FileNode([], false)));
    var s3 := Exchange(s2);
    var s4 := s3.(temp := None);
    FirstRun(j, d, a, s0, s1);
    SecondRun(j, d, a, s1, s2);
    ThirdRun(j, d, a, s2, s3);
    FourthRun(j, d, a, s3, s4);
    history := [Crash(a, 9), Crash(a, 1), Crash(a, 1), Crash(a, 9)];
    FourCrashes(j, s0, s1, s2, s3, s4, Crash(a, 9), Crash(a, 1));
    LossIsUnseen(j, d, a, history);
    LossIsPlain(j, d, s0, history, s4);
  }

  lemma LossIsPlain(j: Job, d: Node, s: Slot, history: seq<Crash>, end: Slot)
    requires j.entry.Tombstone? && s.target == Some(d) && s.phase == Pending && After(j, s, history) == end
    requires NeverMarker(j, Some(d), s.token, history) && !EverTold(j, Some(d), history)
    requires end.target != Some(d) && end.temp != Some(d)
    ensures LosesUnseen(j, d, s, history)
  {
  }

  lemma FourCrashes(j: Job, s0: Slot, s1: Slot, s2: Slot, s3: Slot, s4: Slot, c: Crash, e: Crash)
    requires Stopped(j, s0, c) == s1 && Stopped(j, s1, e) == s2 && Stopped(j, s2, e) == s3 && Stopped(j, s3, c) == s4
    ensures After(j, s0, [c, e, e, c]) == s4
  {
    AfterFour(j, s0, c, e, e, c);
  }

  lemma LossIsUnseen(j: Job, d: Node, a: Attempt, history: seq<Crash>)
    requires d == FileNode([9], false) && a == Attempt(Some(File([1], 1, false)), [8]) && j.hash([9]) != [1]
    requires forall c :: c in history ==> c.attempt == a
    ensures NeverMarker(j, Some(d), [7], history) && !EverTold(j, Some(d), history)
  {
  }

  lemma SecondRun(j: Job, d: Node, a: Attempt, s1: Slot, s2: Slot)
    requires j.entry.Tombstone? && d == FileNode([9], false) && a == Attempt(Some(File([1], 1, false)), [8])
    requires s1 == Slot(Some(d), None, Owned, [7]) && s2 == s1.(temp := Some(FileNode([], false)))
    ensures Stopped(j, s1, Crash(a, 1)) == s2
  {
    assert Writing(s1, [7], 1)[0] == s2;
    assert Staging(j, s1)[0] == s2;
    var run := Stage(j, a, s1);
    assert run.snapshots[0] == s2;
    assert ApplyRecord(j, a, s1) == run;
    assert Apply(j, a, s1) == Prepend([], run);
  }

  lemma ThirdRun(j: Job, d: Node, a: Attempt, s2: Slot, s3: Slot)
    requires j.entry.Tombstone? && d == FileNode([9], false) && a == Attempt(Some(File([1], 1, false)), [8])
    requires s2 == Slot(Some(d), Some(FileNode([], false)), Owned, [7]) && s3 == Exchange(s2)
    ensures Stopped(j, s2, Crash(a, 1)) == s3
  {
    var run := Delete(j, a, s2);
    assert run.snapshots[0] == s3;
    assert ApplyRecord(j, a, s2) == run;
    assert Apply(j, a, s2) == Prepend([], run);
  }

  lemma FourthRun(j: Job, d: Node, a: Attempt, s3: Slot, s4: Slot)
    requires j.entry.Tombstone? && d == FileNode([9], false) && a == Attempt(Some(File([1], 1, false)), [8])
    requires s3 == Slot(Some(FileNode([], false)), Some(d), Owned, [7]) && s4 == s3.(temp := None) && j.hash([]) != [1]
    ensures Stopped(j, s3, Crash(a, 9)) == s4
  {
    var run := Delete(j, a, s3);
    assert run == Run([Exchange(s3), s3, s4], Invalidated);
    assert ApplyRecord(j, a, s3) == run;
    assert Apply(j, a, s3) == Prepend([], run);
  }

  lemma FirstRun(j: Job, d: Node, a: Attempt, s0: Slot, s1: Slot)
    requires j == Job(Tombstone, [], j.hash) && d == FileNode([9], false)
    requires a == Attempt(Some(File([1], 1, false)), [8]) && j.hash([9]) != [1]
    requires s0 == Slot(Some(d), None, Pending, [7]) && s1 == Slot(Some(d), None, Owned, [7])
    ensures Stopped(j, s0, Crash(a, 9)) == s1
  {
    var next := Announced(a, s0);
    var staged := Staged(j, next);
    assert Perform(j, a, staged) == Run([Exchange(staged), staged, s1], Invalidated);
    var run := ApplyRecord(j, a, next);
    assert run == Prepend(Staging(j, next) + [staged], Perform(j, a, staged));
    assert run.snapshots[|run.snapshots| - 1] == s1;
    assert Apply(j, a, s0) == Prepend([next], run);
  }

  lemma AfterFour(j: Job, s: Slot, a: Crash, b: Crash, c: Crash, d: Crash)
    ensures After(j, s, [a, b, c, d]) == Stopped(j, Stopped(j, Stopped(j, Stopped(j, s, a), b), c), d)
  {
    assert [a, b, c, d][..3] == [a, b, c] && [a, b, c][..2] == [a, b] && [a, b][..1] == [a] && [a][..0] == [];
    assert After(j, s, [a]) == Stopped(j, s, a);
    assert After(j, s, [a, b]) == Stopped(j, After(j, s, [a]), b);
    assert After(j, s, [a, b, c]) == Stopped(j, After(j, s, [a, b]), c);
  }

  // ---------------------------------------------------------------- the marker left behind

  /** From a slot that can be recovered, a half-written marker ends up at the target, with
      nothing at the temporary, exactly when a run that goes on from it is stopped after
      it removed what was found, or loses what was found and finds the marker unexpected. */
  lemma MarkerLeftIff(j: Job, d: Node, s: Slot, c: Crash)
    requires Sound(j) && Recoverable(j, d, s) && NotMarker(j, Some(d), c.attempt, s)
    ensures Leftover(j, Stopped(j, s, c)) && Stopped(j, s, c).target != Some(d)
            <==> || LeavesMarker(j, d, s, c)
                 || (Fatal(j, d, s, c) && !MatchesExpected(j, s.target, c.attempt.expected))
  {
    if Fatal(j, d, s, c) {
      DisplacedEffects(j, d, c.attempt, s);
    } else {
      RecoverableStep(j, d, s, c);
      if LeavesMarker(j, d, s, c) {
        TornStep(j, d, s, c);
      } else {
        NotLeftover(j, d, Stopped(j, s, c));
      }
    }
  }

  lemma NotLeftover(j: Job, d: Node, s: Slot)
    requires Recoverable(j, d, s) || Replaced(j, s)
    ensures !Leftover(j, s) || s.target == Some(d)
  {
  }

  /** It stays: every later run, unless it is told to expect the marker, gives up and
      leaves it there as if it were the user's. */
  lemma MarkerStays(j: Job, a: Attempt, s: Slot)
    requires Leftover(j, s) && !NothingRecorded(a.expected) && !MatchesExpected(j, s.target, a.expected)
    ensures Apply(j, a, s).outcome == Invalidated && Last(s, Apply(j, a, s)) == s
  {
    var staged := Staged(j, s);
    assert Perform(j, a, staged) == Run([Exchange(staged), staged, s], Invalidated);
    assert ApplyRecord(j, a, s) == Prepend(Staging(j, s) + [staged], Perform(j, a, staged));
    assert Apply(j, a, s) == Prepend([], ApplyRecord(j, a, s));
  }

  /** A history without a fatal run that leaves the marker of a deletion at its target. */
  ghost predicate LeavesBehind(j: Job, d: Node, s: Slot, history: seq<Crash>)
  {
    && Sound(j) && s.target == Some(d) && s.phase == Pending && NeverMarker(j, Some(d), s.token, history)
    && NeverFatal(j, d, s, history) && Leftover(j, After(j, s, history)) && After(j, s, history).target != Some(d)
  }

  lemma MarkerCanBeLeft()
    ensures exists j: Job, d: Node, s: Slot, history: seq<Crash> :: LeavesBehind(j, d, s, history)
  {
    var j := Job(Tombstone, [], (c: seq<Byte>) => c);
    var d := FileNode([9], false);
    var s0 := Slot(Some(d), None, Pending, [7]);
    var history := LeavingHistory(j, d, s0);
    assert LeavesBehind(j, d, s0, history);
  }

  lemma LeavingHistory(j: Job, d: Node, s0: Slot) returns (history: seq<Crash>)
    requires j == Job(Tombstone, [], j.hash) && d == FileNode([9], false)
    requires s0 == Slot(Some(d), None, Pending, [7]) && j.hash([9]) == [9]
    ensures LeavesBehind(j, d, s0, history)
  {
    var a, b := Attempt(Some(File([1], 1, false)), [8]), Attempt(Some(File([9], 1, false)), [8]);
    var s1 := s0.(phase := Owned);
    var s2 := s1.(temp := Some(FileNode([], false)));
    FirstRun(j, d, a, s0, s1);
    SecondRun(j, d, a, s1, s2);
    assert LeavesMarker(j, d, s2, Crash(b, 2));
    history := [Crash(a, 9), Crash(a, 1), Crash(b, 2)];
    LeavingEnds(j, d, s0, s1, s2, Crash(a, 9), Crash(a, 1), Crash(b, 2));
  }

  lemma LeavingEnds(j: Job, d: Node, s0: Slot, s1: Slot, s2: Slot, a: Crash, b: Crash, c: Crash)
    requires Stopped(j, s0, a) == s1 && Stopped(j, s1, b) == s2 && LeavesMarker(j, d, s2, c)
    requires s0.target == Some(d) && s0.phase == Pending && s0.temp.None? && s1.temp.None? && s2.token == s0.token
    requires NeverMarker(j, Some(d), s0.token, [a, b, c])
    ensures LeavesBehind(j, d, s0, [a, b, c])
  {
    assert c in [a, b, c];
    TornStep(j, d, s2, c);
    AfterThree(j, s0, a, b, c);
    NeverDisplaced(j, d, s0, a, b, c);
  }

  lemma NeverDisplaced(j: Job, d: Node, s: Slot, a: Crash, b: Crash, c: Crash)
    requires s.temp != Some(d) && Stopped(j, s, a).temp != Some(d) && Stopped(j, Stopped(j, s, a), b).temp != Some(d)
    ensures NeverFatal(j, d, s, [a, b, c])
  {
    AfterThree(j, s, a, b, c);
  }

  lemma AfterThree(j: Job, s: Slot, a: Crash, b: Crash, c: Crash)
    ensures After(j, s, []) == s && After(j, s, [a]) == Stopped(j, s, a)
    ensures After(j, s, [a, b]) == Stopped(j, Stopped(j, s, a), b)
    ensures After(j, s, [a, b, c]) == Stopped(j, Stopped(j, Stopped(j, s, a), b), c)
    ensures [a, b, c][..0] == [] && [a, b, c][..1] == [a] && [a, b, c][..2] == [a, b]
  {
    assert [a, b, c][..0] == [] && [a, b, c][..1] == [a] && [a, b, c][..2] == [a, b];
    assert [a, b][..1] == [a] && [a][..0] == [];
    assert After(j, s, [a]) == Stopped(j, s, a);
    assert After(j, s, [a, b]) == Stopped(j, After(j, s, [a]), b);
    assert After(j, s, [a, b, c]) == Stopped(j, After(j, s, [a, b]), c);
  }

  // ---------------------------------------------------------------- edits between runs

  /** An edit made before the exchange becomes what the install preserves, unless it
      makes the target equal to the record while a temporary exists. */
  lemma EditIsAdopted(j: Job, d: Option<Node>, edited: Option<Node>, s: Slot)
    requires AtTarget(j, d, s)
    ensures AtTarget(j, edited, s.(target := edited))
            <==> !(s.phase != Pending && s.temp.Some? && Matches(j, edited, j.entry))
  {
    if s.phase != Pending && s.temp.Some? && !Matches(j, edited, j.entry) {
      assert Removable(s.temp.value);
    }
  }

  /** In that case the next run takes the temporary for displaced data: the target
      keeps its contents exactly when the temporary is what was expected. */
  lemma EqualEditSurvivesIff(j: Job, a: Attempt, s: Slot)
    requires !j.entry.Tombstone? && s.phase != Pending && s.temp.Some? && Matches(j, s.target, j.entry)
    requires Removable(s.target.value) && s.temp != s.target
    ensures var end := Last(s, Apply(j, a, s));
            end.target == s.target <==> MatchesExpected(j, s.temp, a.expected) && Removable(s.temp.value)
    ensures var end := Last(s, Apply(j, a, s)); end.target != s.target ==> end.target == s.temp && end.temp.None?
  {
  }

  /** From a pending slot: a run that stops while it stages a file leaves a prefix of it
      as the temporary, and when the target is then edited to equal the record, the next
      run leaves that prefix at the target and removes the edit, unless it was told to
      expect the prefix. */
  lemma PrefixReplacesEdit(j: Job, a: Attempt, s: Slot, n: nat, edited: Node, b: Attempt)
    requires j.entry.File? && |j.source| == j.entry.size && n <= |j.source|
    requires s.phase == Pending && s.temp.None? && !Matches(j, s.target, j.entry)
    requires Matches(j, Some(edited), j.entry)
    requires var prefix := Some(FileNode(j.source[..n], false));
             prefix != Some(edited) && !MatchesExpected(j, prefix, b.expected)
    ensures var prefix := Some(FileNode(j.source[..n], false));
            var stopped := Stopped(j, s, Crash(a, n + 2));
            var mid := stopped.(target := Some(edited));
            && stopped == s.(phase := Creating, temp := prefix)
            && Apply(j, b, mid).outcome == Failed && Last(mid, Apply(j, b, mid)) == mid.(target := prefix, temp := None)
  {
    var next := Announced(a, s);
    assert next == s.(phase := Creating) && Announcing(a, s) == [next];
    var run := Stage(j, a, next);
    assert ApplyRecord(j, a, next) == run;
    assert run.snapshots[n] == Staging(j, next)[n] == Writing(next, j.source, |j.source|)[n];
    assert Apply(j, a, s).snapshots[n + 1] == run.snapshots[n];
    var mid := Stopped(j, s, Crash(a, n + 2)).(target := Some(edited));
    assert Apply(j, b, mid) == Prepend([], RecoverDisplaced(j, b, mid));
  }

  /** A file that was put at the target between two runs, and that no run was told to
      expect, is gone, and what stands there is not the record. */
  ghost predicate LosesEqualEdit(j: Job, s: Slot, first: Crash, edited: Node, second: Attempt)
  {
    var mid := Stopped(j, s, first).(target := Some(edited));
    var end := Last(mid, Apply(j, second, mid));
    && Sound(j) && s.phase == Pending && s.temp.None?
    && !EverTold(j, Some(edited), [first, Crash(second, 0)])
    && end.temp.None? && end.target != Some(edited) && !Matches(j, end.target, j.entry)
  }

  lemma EqualEditCanBeLost()
    ensures exists j: Job, s: Slot, first: Crash, edited: Node, second: Attempt :: LosesEqualEdit(j, s, first, edited, second)
  {
    var j := Job(File([1], 1, false), [1], (c: seq<Byte>) => c);
    var s := Slot(None, None, Pending, [7]);
    var a := Attempt(None, [8]);
    var edited := FileNode([1], false);
    PrefixReplacesEdit(j, a, s, 0, edited, a);
    assert LosesEqualEdit(j, s, Crash(a, 2), edited, a);
  }
}
