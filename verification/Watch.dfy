/** Watch generations and the debounce (src/watch.rs:33-194). Callbacks count filesystem
    events; the coordinator looks at the count, never at the events. */
module Watch {
  import opened Utils
  import opened Model

  type Error = string

  const EXHAUSTED: Error := "watch generation exhausted"

  datatype Status = Status(generation: nat, lost: Option<Error>)

  datatype Snapshot = Healthy(generation: nat) | Lost(error: Error)

  datatype Completion = Current | Pending

  datatype CompleteResult = Failed(error: Error) | Completed(generation: nat, completion: Completion)

  // ---------------------------------------------------------------- the status

  function Changed(s: Status): Status
  {
    if s.lost.Some? then s
    else if s.generation == U64_MAX then s.(lost := Some(EXHAUSTED))
    else s.(generation := s.generation + 1)
  }

  function LoseWatcher(s: Status, e: Error): Status
  {
    if s.lost.Some? then s else s.(lost := Some(e))
  }

  function Look(s: Status): Snapshot
  {
    if s.lost.Some? then Lost(s.lost.value) else Healthy(s.generation)
  }

  function Complete(s: Status, frozen: nat, completed: nat): CompleteResult
  {
    if s.lost.Some? then Failed(s.lost.value)
    else Completed(Max(completed, frozen), if s.generation > Max(completed, frozen) then Pending else Current)
  }

  /** The status shared by the callbacks and the coordinator. Every method runs under its
      lock; the wake is a channel that holds one message. */
  class WatchState {
    var generation: nat
    var lost: Option<Error>
    var wakeQueued: bool

    constructor ()
      ensures Value() == Status(0, None) && !wakeQueued
    {
      generation, lost, wakeQueued := 0, None, false;
    }

    function Value(): Status
      reads this
    {
      Status(generation, lost)
    }

    /** The half of `changed` under the lock. */
    method RecordChange()
      requires generation <= U64_MAX
      modifies this
      ensures Value() == Changed(old(Value())) && wakeQueued == old(wakeQueued) && generation <= U64_MAX
    {
      if lost.None? {
        if generation == U64_MAX {
          lost := Some(EXHAUSTED);
        } else {
          generation := generation + 1;
        }
      }
    }

    method RecordLoss(error: Error)
      modifies this
      ensures Value() == LoseWatcher(old(Value()), error) && wakeQueued == old(wakeQueued)
    {
      if lost.None? {
        lost := Some(error);
      }
    }

    /** The wake afterwards; a full channel drops it. */
    method BestEffortWake()
      modifies this
      ensures Value() == old(Value()) && wakeQueued
    {
      if !wakeQueued {
        wakeQueued := true;
      }
    }

    method TryReceiveWake() returns (woken: bool)
      modifies this
      ensures Value() == old(Value()) && woken == old(wakeQueued) && !wakeQueued
    {
      woken := wakeQueued;
      wakeQueued := false;
    }

    method TakeSnapshot() returns (snapshot: Snapshot)
      ensures snapshot == Look(Value())
    {
      match lost {
        case Some(error) => snapshot := Lost(error);
        case None => snapshot := Healthy(generation);
      }
    }

    method CompleteThrough(frozen: nat, completed: nat) returns (result: CompleteResult)
      ensures result == Complete(Value(), frozen, completed)
    {
      if lost.Some? {
        return Failed(lost.value);
      }
      var reached := Max(completed, frozen);
      result := Completed(reached, if generation > reached then Pending else Current);
    }
  }

  // ---------------------------------------------------------------- what the status keeps

  datatype Event = Change | Loss(error: Error)

  function Seen(events: seq<Event>): Status
  {
    if events == [] then Status(0, None)
    else
      var earlier := Seen(events[..|events| - 1]);
      match events[|events| - 1]
      case Change => Changed(earlier)
      case Loss(error) => LoseWatcher(earlier, error)
  }

  /** Until the watcher is lost the generation counts every change; it is lost exactly
      when a loss was reported or the count would no longer fit. */
  lemma {:induction false} GenerationCounts(events: seq<Event>)
    ensures Seen(events).generation <= U64_MAX
    ensures Seen(events).lost.None? <==> (forall e :: e in events ==> e.Change?) && |events| <= U64_MAX
    ensures Seen(events).lost.None? ==> Seen(events).generation == |events|
  {
    if events != [] {
      var n := |events| - 1;
      GenerationCounts(events[..n]);
      assert events == events[..n] + [events[n]];
    }
  }

  /** The first loss stays, and the generation with it, whatever is reported later. */
  lemma {:induction false} LossIsSticky(events: seq<Event>, more: seq<Event>)
    requires Seen(events).lost.Some?
    ensures Seen(events + more) == Seen(events)
    decreases |more|
  {
    if more == [] {
      assert events + more == events;
    } else {
      var n := |more| - 1;
      LossIsSticky(events, more[..n]);
      var all := events + more;
      assert all[..|all| - 1] == events + more[..n] && all[|all| - 1] == more[n];
    }
  }

  /** No round completes after a loss; otherwise completion says whether anything is left. */
  lemma CompletionIsHonest(events: seq<Event>, frozen: nat, completed: nat)
    ensures Complete(Seen(events), frozen, completed).Failed? <==> Seen(events).lost.Some?
    ensures var r := Complete(Seen(events), frozen, completed);
            r.Completed? ==> r.generation >= frozen && r.generation >= completed && r.generation in {frozen, completed}
                             && (r.completion == Current <==> |events| <= r.generation)
  {
    GenerationCounts(events);
  }

  // ---------------------------------------------------------------- the debounce

  type Instant = t: nat | t <= MAX_INSTANT

  const MAX_INSTANT: nat := 0x7FFF_FFFF_FFFF_FFFF * 1_000_000_000 + 999_999_999

  datatype Config = Config(debounce: nat, maxBurst: nat)

  datatype Timer = Timer(first: Option<Instant>, latest: Option<Instant>)

  const IDLE := Timer(None, None)

  function CheckedAdd(t: Instant, d: nat): Option<Instant>
  {
    if t + d <= MAX_INSTANT then Some(t + d) else None
  }

  function Notify(t: Timer, now: Instant): Timer
  {
    Timer(if t.first.Some? then t.first else Some(now), Some(now))
  }

  function Deadline(t: Timer, c: Config): Option<Instant>
  {
    if t.latest.None? || t.first.None? then None
    else
      var quiet, burst := CheckedAdd(t.latest.value, c.debounce), CheckedAdd(t.first.value, c.maxBurst);
      if quiet.None? || burst.None? then None
      else if quiet.value < burst.value then quiet else burst
  }

  predicate Due(t: Timer, now: Instant, c: Config)
  {
    Deadline(t, c).Some? && now >= Deadline(t, c).value
  }

  class Debounce {
    var first: Option<Instant>
    var latest: Option<Instant>

    constructor ()
      ensures Value() == IDLE
    {
      first, latest := None, None;
    }

    function Value(): Timer
      reads this
    {
      Timer(first, latest)
    }

    method NotifyAt(now: Instant)
      modifies this
      ensures Value() == Notify(old(Value()), now)
    {
      if first.None? {
        first := Some(now);
      }
      latest := Some(now);
    }

    method TakeDue(now: Instant, config: Config) returns (due: bool)
      modifies this
      ensures due == Due(old(Value()), now, config)
      ensures Value() == if due then IDLE else old(Value())
    {
      due := Due(Value(), now, config);
      if due {
        first, latest := None, None;
      }
    }
  }

  predicate Armed(t: Timer) { t.first.Some? }

  /** The timer after a burst of notifications that no deadline interrupted. */
  function Burst(times: seq<Instant>): Timer
  {
    if times == [] then IDLE else Notify(Burst(times[..|times| - 1]), times[|times| - 1])
  }

  predicate Ascending(times: seq<Instant>)
  {
    forall i, j :: 0 <= i <= j < |times| ==> times[i] <= times[j]
  }

  lemma {:induction false} BurstEnds(times: seq<Instant>)
    requires times != []
    ensures Burst(times) == Timer(Some(times[0]), Some(times[|times| - 1]))
  {
    if |times| > 1 {
      BurstEnds(times[..|times| - 1]);
    } else {
      assert times[..0] == [];
    }
  }

  /** Due means that events were notified and have stopped for the debounce, or that the
      first was long enough ago; a deadline past the end of time is never reached. */
  lemma DueIff(t: Timer, now: Instant, c: Config)
    ensures Due(t, now, c)
            <==> && t.first.Some? && t.latest.Some?
                 && t.latest.value + c.debounce <= MAX_INSTANT && t.first.value + c.maxBurst <= MAX_INSTANT
                 && (now >= t.latest.value + c.debounce || now >= t.first.value + c.maxBurst)
  {
  }

  /** However long the burst, the deadline is at most `maxBurst` after its first event; it
      is never before the first event, and it passes once the events stop for `debounce`. */
  lemma BurstIsBounded(times: seq<Instant>, c: Config)
    requires times != [] && Ascending(times)
    requires times[|times| - 1] + c.debounce <= MAX_INSTANT && times[0] + c.maxBurst <= MAX_INSTANT
    ensures Deadline(Burst(times), c).Some?
    ensures times[0] <= Deadline(Burst(times), c).value <= times[0] + c.maxBurst
    ensures forall now: Instant :: now >= times[|times| - 1] + c.debounce || now >= times[0] + c.maxBurst
              <==> Due(Burst(times), now, c)
  {
    BurstEnds(times);
    assert times[0] <= times[|times| - 1];
  }
}
