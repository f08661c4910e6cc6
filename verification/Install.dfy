/** Installing one record (src/sync.rs:2229-2508, src/sync.rs:2051-2099).

    A run works on two names in one directory, the target and a temporary named by a
    token, and on the phase of that temporary, which is durable. Every effect is
    atomic; a run is the list of slots after each of its effects together with its
    outcome, so that a crash is a run cut short anywhere. The functions below give
    the list; the methods of `Installer` perform the effects one by one. */
module Install {
  import opened Bytes
  import opened Model

  /** What a name can denote. Of a directory only its emptiness matters. */
  datatype Node =
    | FileNode(content: seq<Byte>, executable: bool)
    | DirNode(empty: bool)
    | LinkNode(target: seq<Byte>)

  datatype Phase = Pending | Creating | Owned

  datatype Slot = Slot(target: Option<Node>, temp: Option<Node>, phase: Phase, token: seq<Byte>)

  /** What stays the same in all runs of one install: the entry to install, the
      verified object of a file, and the content hash. */
  datatype Job = Job(entry: Entry, source: seq<Byte>, hash: seq<Byte> -> ObjectHash)

  /** What may differ from run to run: the entry recorded before, and the token a
      rotation would draw. */
  datatype Attempt = Attempt(expected: Option<Entry>, spare: seq<Byte>)

  datatype Outcome = Skipped | Applied | Invalidated | Failed

  datatype Run = Run(snapshots: seq<Slot>, outcome: Outcome)

  // ---------------------------------------------------------------- looking

  predicate Matches(j: Job, node: Option<Node>, entry: Entry)
  {
    match entry
    case Tombstone => node.None?
    case Directory => node.Some? && node.value.DirNode?
    case Symlink(target) => node == Some(LinkNode(target))
    case File(hash, _, executable) =>
      node.Some? && node.value.FileNode? && j.hash(node.value.content) == hash && node.value.executable == executable
  }

  predicate MatchesExpected(j: Job, node: Option<Node>, expected: Option<Entry>)
  {
    expected.Some? && Matches(j, node, expected.value)
  }

  predicate IsToken(node: Option<Node>, token: seq<Byte>)
  {
    node.Some? && node.value.FileNode? && node.value.content == token
  }

  /** Removing a directory needs it empty; removing a file needs it not a directory. */
  predicate Removable(node: Node) { node.DirNode? ==> node.empty }

  predicate IsDir(node: Node) { node.DirNode? }

  predicate NothingRecorded(expected: Option<Entry>)
  {
    expected.None? || expected.value.Tombstone?
  }

  // ---------------------------------------------------------------- effects

  function Exchange(s: Slot): Slot
  {
    s.(target := s.temp, temp := s.target)
  }

  /** A rotated temporary has a new name, at which there is nothing. */
  function Rotate(s: Slot, spare: seq<Byte>): Slot
  {
    s.(temp := None, phase := Pending, token := spare)
  }

  function Prepend(before: seq<Slot>, run: Run): Run
  {
    Run(before + run.snapshots, run.outcome)
  }

  function Last(s: Slot, run: Run): Slot
  {
    if run.snapshots == [] then s else run.snapshots[|run.snapshots| - 1]
  }

  /** A new file as it grows byte by byte, from nothing to its first `length` bytes. */
  function Writing(s: Slot, content: seq<Byte>, length: nat): (r: seq<Slot>)
    requires length <= |content|
    ensures |r| == length + 1
    ensures forall i :: 0 <= i <= length ==> r[i] == s.(temp := Some(FileNode(content[..i], false)))
  {
    (if length == 0 then [] else Writing(s, content, length - 1)) + [s.(temp := Some(FileNode(content[..length], false)))]
  }

  // ---------------------------------------------------------------- the run

  function RecoverTombstone(j: Job, a: Attempt, s: Slot): Run
    requires s.target.Some?
  {
    if s.temp.None? then Run([s.(target := None)], Applied)
    else if !MatchesExpected(j, s.temp, a.expected) then
      if Removable(s.target.value) then Run([Exchange(s), Exchange(s).(temp := None)], Failed)
      else Run([Exchange(s)], Failed)
    else if !Removable(s.temp.value) then Run([], Failed)
    else if IsDir(s.target.value) then Run([s.(temp := None)], Failed)
    else Run([s.(temp := None), s.(temp := None, target := None)], Applied)
  }

  function RecoverDisplaced(j: Job, a: Attempt, s: Slot): Run
  {
    if s.temp.None? then Run([], Applied)
    else if MatchesExpected(j, s.temp, a.expected) && Removable(s.temp.value) then Run([s.(temp := None)], Applied)
    else if s.target.None? then Run([], Failed)
    else if Removable(s.target.value) then Run([Exchange(s), Exchange(s).(temp := None)], Failed)
    else Run([Exchange(s)], Failed)
  }

  /** The second exchange and the removal of what was staged. */
  function RolledBack(s: Slot, removed: bool, outcome: Outcome): Run
  {
    if removed then Run([Exchange(s), s, s.(temp := None)], outcome) else Run([Exchange(s), s], Failed)
  }

  function AtomicInstall(j: Job, a: Attempt, s: Slot): Run
    requires s.temp.Some?
  {
    if NothingRecorded(a.expected) then
      if s.target.None? then Run([s.(target := s.temp, temp := None)], Applied)
      else if Removable(s.temp.value) then Run([s.(temp := None)], Invalidated)
      else Run([], Failed)
    else if s.target.None? then Run([], Failed)
    else if !MatchesExpected(j, s.target, a.expected) then RolledBack(s, Removable(s.temp.value), Invalidated)
    else if !Removable(s.target.value) then RolledBack(s, Removable(s.temp.value), Failed)
    else Run([Exchange(s), Exchange(s).(temp := None)], Applied)
  }

  function Delete(j: Job, a: Attempt, s: Slot): Run
    requires s.temp.Some?
  {
    if s.target.None? then Run([], Failed)
    else if !MatchesExpected(j, s.target, a.expected) then RolledBack(s, !IsDir(s.temp.value), Invalidated)
    else if !Removable(s.target.value) then RolledBack(s, !IsDir(s.temp.value), Failed)
    else if IsDir(s.temp.value) then Run([Exchange(s), Exchange(s).(temp := None)], Failed)
    else Run([Exchange(s), Exchange(s).(temp := None), s.(target := None, temp := None)], Applied)
  }

  function Perform(j: Job, a: Attempt, s: Slot): Run
    requires s.temp.Some?
  {
    if j.entry.Tombstone? then Delete(j, a, s) else AtomicInstall(j, a, s)
  }

  function Resume(j: Job, a: Attempt, s: Slot): Run
    requires s.temp.Some?
  {
    if s.phase == Creating then
      if !(if j.entry.Tombstone? then IsToken(s.temp, s.token) else Matches(j, s.temp, j.entry)) then
        Run([Rotate(s, a.spare)], Failed)
      else Prepend([s.(phase := Owned)], Perform(j, a, s.(phase := Owned)))
    else if !j.entry.Tombstone? && !Matches(j, s.temp, j.entry) then
      if MatchesExpected(j, s.temp, a.expected) && Removable(s.temp.value) then Run([s.(temp := None)], Invalidated)
      else Run([], Failed)
    else Perform(j, a, s)
  }

  /** The slots while the temporary is created. */
  function Staging(j: Job, s: Slot): (staged: seq<Slot>)
    ensures |staged| > 0
  {
    match j.entry
    case Directory => [s.(temp := Some(DirNode(true)))]
    case Symlink(target) => [s.(temp := Some(LinkNode(target)))]
    case Tombstone => Writing(s, s.token, |s.token|)
    case File(_, _, executable) => Writing(s, j.source, |j.source|) + [s.(temp := Some(FileNode(j.source, executable)))]
  }

  function Staged(j: Job, s: Slot): Slot
  {
    match j.entry
    case Directory => s.(temp := Some(DirNode(true)), phase := Owned)
    case Symlink(target) => s.(temp := Some(LinkNode(target)), phase := Owned)
    case Tombstone => s.(temp := Some(FileNode(s.token, false)), phase := Owned)
    case File(_, _, executable) => s.(temp := Some(FileNode(j.source, executable)), phase := Owned)
  }

  function Stage(j: Job, a: Attempt, s: Slot): Run
  {
    if j.entry.File? && |j.source| != j.entry.size then Run([], Failed)
    else Prepend(Staging(j, s) + [Staged(j, s)], Perform(j, a, Staged(j, s)))
  }

  function ApplyRecord(j: Job, a: Attempt, s: Slot): Run
  {
    if s.phase == Owned && j.entry.Tombstone? && IsToken(s.target, s.token) then RecoverTombstone(j, a, s)
    else if Matches(j, s.target, j.entry) then RecoverDisplaced(j, a, s)
    else if s.phase != Pending && s.temp.Some? then Resume(j, a, s)
    else Stage(j, a, s)
  }

  /** A pending temporary is given an unused name and announced before it is created. */
  function Announcing(a: Attempt, s: Slot): seq<Slot>
  {
    if s.phase != Pending then []
    else if s.temp.Some? then [Rotate(s, a.spare), Rotate(s, a.spare).(phase := Creating)]
    else [s.(phase := Creating)]
  }

  function Announced(a: Attempt, s: Slot): Slot
  {
    if s.phase != Pending then s
    else if s.temp.Some? then Rotate(s, a.spare).(phase := Creating)
    else s.(phase := Creating)
  }

  /** One turn of the apply loop; a deletion of nothing is skipped. */
  function Apply(j: Job, a: Attempt, s: Slot): Run
  {
    if j.entry.Tombstone? && NothingRecorded(a.expected) then Run([], Skipped)
    else Prepend(Announcing(a, s), ApplyRecord(j, a, Announced(a, s)))
  }

  // ---------------------------------------------------------------- the program

  /** The two names and the durable phase, changed one effect at a time. `log` is the
      history of slots. */
  class Installer {
    const job: Job
    var target: Option<Node>
    var temp: Option<Node>
    var phase: Phase
    var token: seq<Byte>
    ghost var log: seq<Slot>

    constructor (job: Job, s: Slot)
      ensures this.job == job && Now() == s && log == []
    {
      this.job := job;
      target, temp, phase, token := s.target, s.temp, s.phase, s.token;
      log := [];
    }

    function Now(): Slot
      reads this
    {
      Slot(target, temp, phase, token)
    }

    /** The effects since `was` are those of `run`. */
    twostate predicate Did(run: Run)
      reads this
    {
      log == old(log) + run.snapshots && Now() == Last(old(Now()), run)
    }

    method SwapNames() returns (done: bool)
      modifies this
      ensures done == (old(target).Some? && old(temp).Some?)
      ensures Did(Run(if done then [Exchange(old(Now()))] else [], Applied))
    {
      done := target.Some? && temp.Some?;
      if done {
        target, temp := temp, target;
        log := log + [Now()];
      }
    }

    method RemoveTemp() returns (done: bool)
      requires temp.Some?
      modifies this
      ensures done == Removable(old(temp).value)
      ensures Did(Run(if done then [old(Now()).(temp := None)] else [], Applied))
    {
      done := Removable(temp.value);
      if done {
        temp := None;
        log := log + [Now()];
      }
    }

    method RemoveTempFile() returns (done: bool)
      requires temp.Some?
      modifies this
      ensures done == !IsDir(old(temp).value)
      ensures Did(Run(if done then [old(Now()).(temp := None)] else [], Applied))
    {
      done := !IsDir(temp.value);
      if done {
        temp := None;
        log := log + [Now()];
      }
    }

    method RemoveTargetFile() returns (done: bool)
      requires target.Some?
      modifies this
      ensures done == !IsDir(old(target).value)
      ensures Did(Run(if done then [old(Now()).(target := None)] else [], Applied))
    {
      done := !IsDir(target.value);
      if done {
        target := None;
        log := log + [Now()];
      }
    }

    method SetPhase(next: Phase)
      modifies this
      ensures Did(Run([old(Now()).(phase := next)], Applied))
    {
      phase := next;
      log := log + [Now()];
    }

    method RotateName(spare: seq<Byte>)
      modifies this
      ensures Did(Run([Rotate(old(Now()), spare)], Applied))
    {
      temp, phase, token := None, Pending, spare;
      log := log + [Now()];
    }

    method PutTemp(node: Node)
      modifies this
      ensures Did(Run([old(Now()).(temp := Some(node))], Applied))
    {
      temp := Some(node);
      log := log + [Now()];
    }

    method WriteTemp(content: seq<Byte>)
      modifies this
      ensures log == old(log) + Writing(old(Now()), content, |content|)
      ensures Now() == old(Now()).(temp := Some(FileNode(content, false)))
    {
      ghost var was := Now();
      PutTemp(FileNode([], false));
      assert content[..0] == [];
      var i := 0;
      while i < |content|
        invariant i <= |content|
        invariant Now() == was.(temp := Some(FileNode(content[..i], false)))
        invariant log == old(log) + Writing(was, content, i)
      {
        i := i + 1;
        PutTemp(FileNode(content[..i], false));
      }
      assert content[..|content|] == content;
    }

    method RecoverTombstoneNow(a: Attempt) returns (outcome: Outcome)
      requires target.Some? && !IsDir(target.value)
      modifies this
      ensures outcome == RecoverTombstone(job, a, old(Now())).outcome
      ensures Did(RecoverTombstone(job, a, old(Now())))
    {
      if temp.Some? {
        if !MatchesExpected(job, temp, a.expected) {
          var _ := SwapNames();
          var _ := RemoveTemp();
          return Failed;
        }
        var removed := RemoveTemp();
        if !removed {
          return Failed;
        }
      }
      var _ := RemoveTargetFile();
      outcome := Applied;
    }

    method RecoverDisplacedNow(a: Attempt) returns (outcome: Outcome)
      modifies this
      ensures outcome == RecoverDisplaced(job, a, old(Now())).outcome
      ensures Did(RecoverDisplaced(job, a, old(Now())))
    {
      if temp.None? {
        return Applied;
      }
      if MatchesExpected(job, temp, a.expected) {
        var removed := RemoveTemp();
        if removed {
          return Applied;
        }
      }
      var swapped := SwapNames();
      if swapped {
        var _ := RemoveTemp();
      }
      outcome := Failed;
    }

    method AtomicInstallNow(a: Attempt) returns (outcome: Outcome)
      requires temp.Some?
      modifies this
      ensures outcome == AtomicInstall(job, a, old(Now())).outcome
      ensures Did(AtomicInstall(job, a, old(Now())))
    {
      if NothingRecorded(a.expected) {
        if target.None? {
          target, temp := temp, None;
          log := log + [Now()];
          return Applied;
        }
        var removed := RemoveTemp();
        return if removed then Invalidated else Failed;
      }
      var swapped := SwapNames();
      if !swapped {
        return Failed;
      }
      if !MatchesExpected(job, temp, a.expected) {
        var _ := SwapNames();
        var removed := RemoveTemp();
        return if removed then Invalidated else Failed;
      }
      var removed := RemoveTemp();
      if !removed {
        var _ := SwapNames();
        var _ := RemoveTemp();
        return Failed;
      }
      outcome := Applied;
    }

    method DeleteNow(a: Attempt) returns (outcome: Outcome)
      requires temp.Some?
      modifies this
      ensures outcome == Delete(job, a, old(Now())).outcome
      ensures Did(Delete(job, a, old(Now())))
    {
      var swapped := SwapNames();
      if !swapped {
        return Failed;
      }
      if !MatchesExpected(job, temp, a.expected) {
        var _ := SwapNames();
        var removed := RemoveTempFile();
        return if removed then Invalidated else Failed;
      }
      var removed := RemoveTemp();
      if !removed {
        var _ := SwapNames();
        var _ := RemoveTempFile();
        return Failed;
      }
      var deleted := RemoveTargetFile();
      outcome := if deleted then Applied else Failed;
    }

    method PerformNow(a: Attempt) returns (outcome: Outcome)
      requires temp.Some?
      modifies this
      ensures outcome == Perform(job, a, old(Now())).outcome
      ensures Did(Perform(job, a, old(Now())))
    {
      if job.entry.Tombstone? {
        outcome := DeleteNow(a);
      } else {
        outcome := AtomicInstallNow(a);
      }
    }

    method ResumeNow(a: Attempt) returns (outcome: Outcome)
      requires temp.Some?
      modifies this
      ensures outcome == Resume(job, a, old(Now())).outcome
      ensures Did(Resume(job, a, old(Now())))
    {
      if phase == Creating {
        var matches := if job.entry.Tombstone? then IsToken(temp, token) else Matches(job, temp, job.entry);
        if !matches {
          RotateName(a.spare);
          return Failed;
        }
        ghost var was := Now();
        SetPhase(Owned);
        outcome := PerformNow(a);
        RunsJoin(was, old(log), [was.(phase := Owned)], was.(phase := Owned), Perform(job, a, was.(phase := Owned)),
                 log, Now());
      } else if !job.entry.Tombstone? && !Matches(job, temp, job.entry) {
        if MatchesExpected(job, temp, a.expected) {
          var removed := RemoveTemp();
          return if removed then Invalidated else Failed;
        }
        outcome := Failed;
      } else {
        outcome := PerformNow(a);
      }
    }

    method CreateTemp()
      modifies this
      ensures Did(Run(Staging(job, old(Now())) + [Staged(job, old(Now()))], Applied))
    {
      match job.entry {
        case Directory => PutTemp(DirNode(true));
        case Symlink(target) => PutTemp(LinkNode(target));
        case Tombstone => WriteTemp(token);
        case File(_, _, executable) =>
          WriteTemp(job.source);
          PutTemp(FileNode(job.source, executable));
      }
      SetPhase(Owned);
    }

    method StageNow(a: Attempt) returns (outcome: Outcome)
      modifies this
      ensures outcome == Stage(job, a, old(Now())).outcome
      ensures Did(Stage(job, a, old(Now())))
    {
      if job.entry.File? && |job.source| != job.entry.size {
        return Failed;
      }
      ghost var was := Now();
      CreateTemp();
      outcome := PerformNow(a);
      RunsJoin(was, old(log), Staging(job, was) + [Staged(job, was)], Staged(job, was), Perform(job, a, Staged(job, was)),
               log, Now());
    }

    /** Installs the record, performing the effects of `ApplyRecord` in order. */
    method ApplyRecordNow(a: Attempt) returns (outcome: Outcome)
      modifies this
      ensures outcome == ApplyRecord(job, a, old(Now())).outcome
      ensures Did(ApplyRecord(job, a, old(Now())))
    {
      if phase == Owned && job.entry.Tombstone? && IsToken(target, token) {
        outcome := RecoverTombstoneNow(a);
      } else if Matches(job, target, job.entry) {
        outcome := RecoverDisplacedNow(a);
      } else if phase != Pending && temp.Some? {
        outcome := ResumeNow(a);
      } else {
        outcome := StageNow(a);
      }
    }

    method Announce(a: Attempt)
      modifies this
      ensures log == old(log) + Announcing(a, old(Now())) && Now() == Announced(a, old(Now()))
    {
      if phase == Pending {
        if temp.Some? {
          RotateName(a.spare);
        }
        SetPhase(Creating);
      }
    }

    /** One turn of the apply loop, effect by effect. */
    method ApplyNow(a: Attempt) returns (outcome: Outcome)
      modifies this
      ensures outcome == Apply(job, a, old(Now())).outcome
      ensures Did(Apply(job, a, old(Now())))
    {
      if job.entry.Tombstone? && NothingRecorded(a.expected) {
        return Skipped;
      }
      ghost var was := Now();
      Announce(a);
      outcome := ApplyRecordNow(a);
      RunsJoin(was, old(log), Announcing(a, was), Announced(a, was), ApplyRecord(job, a, Announced(a, was)), log, Now());
    }
  }

  /** Some effects and then a run are one run. */
  lemma RunsJoin(s: Slot, log0: seq<Slot>, before: seq<Slot>, next: Slot, run: Run, log: seq<Slot>, now: Slot)
    requires next == Last(s, Run(before, Applied))
    requires log == log0 + before + run.snapshots && now == Last(next, run)
    ensures log == log0 + Prepend(before, run).snapshots && now == Last(s, Prepend(before, run))
  {
    assert log0 + before + run.snapshots == log0 + (before + run.snapshots);
  }
}
