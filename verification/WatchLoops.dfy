/** The two loops that turn generations into rounds: the responder advertises its
    generation (src/main.rs:5561-5610), the connector schedules rounds for its own and for
    the advertised one (src/main.rs:7640-7710). Callbacks run beside both. */
module WatchLoops {
  import opened Utils
  import opened Model
  import opened Watch

  // ---------------------------------------------------------------- the responder

  /** The coordinator has taken the wake and not looked yet, or it has looked. */
  datatype Point = Top | Woken | Looked(generation: nat)

  /** `inFlight` callbacks have counted their event and not sent their wake yet. */
  datatype Responder = Responder(
    status: Status, inFlight: nat, wakeQueued: bool, timer: Timer, advertised: nat, point: Point, ended: bool)

  datatype ResponderStep =
    | Count | Lose(error: Error) | Wake
    | TakeWake(now: Instant) | TakeLook | Advertise(now: Instant)

  const FRESH_RESPONDER := Responder(Status(0, None), 0, false, IDLE, 0, Top, false)

  function Respond(r: Responder, x: ResponderStep, c: Config): Responder
  {
    match x
    case Count => r.(status := Changed(r.status), inFlight := r.inFlight + 1)
    case Lose(error) => r.(status := LoseWatcher(r.status, error), inFlight := r.inFlight + 1)
    case Wake => if r.inFlight > 0 then r.(inFlight := r.inFlight - 1, wakeQueued := true) else r
    case TakeWake(now) =>
      if r.ended || r.point != Top then r
      else if r.wakeQueued then r.(wakeQueued := false, timer := Notify(r.timer, now), point := Woken)
      else r.(point := Woken)
    case TakeLook =>
      if r.ended || r.point != Woken then r
      else (match Look(r.status)
            case Lost(_) => r.(ended := true)
            case Healthy(generation) => r.(point := Looked(generation)))
    case Advertise(now) =>
      if r.ended || !r.point.Looked? then r
      else if r.point.generation > r.advertised && Due(r.timer, now, c) then
        r.(timer := IDLE, advertised := r.point.generation, point := Top)
      else r.(point := Top)
  }

  function RespondAll(steps: seq<ResponderStep>, c: Config): Responder
  {
    if steps == [] then FRESH_RESPONDER
    else Respond(RespondAll(steps[..|steps| - 1], c), steps[|steps| - 1], c)
  }

  /** Something will still make the coordinator look at the generation. */
  predicate WakeComing(r: Responder) { r.wakeQueued || r.inFlight > 0 }

  predicate ResponderInv(r: Responder)
  {
    && r.advertised <= r.status.generation
    && (r.status.generation > r.advertised ==> WakeComing(r) || Armed(r.timer))
    && (r.point.Looked? ==> r.point.generation <= r.status.generation
                            && (r.status.generation > r.point.generation ==> WakeComing(r)))
  }

  lemma RespondKeeps(r: Responder, x: ResponderStep, c: Config)
    requires ResponderInv(r)
    ensures ResponderInv(Respond(r, x, c))
  {
  }

  /** No change is lost on the responder: a generation beyond the advertised one means a
      queued wake, a callback on its way to queue one, or an armed debounce. */
  lemma {:induction false} ResponderLosesNothing(steps: seq<ResponderStep>, c: Config)
    ensures ResponderInv(RespondAll(steps, c))
    ensures var r := RespondAll(steps, c);
            r.status.generation > r.advertised ==> r.wakeQueued || r.inFlight > 0 || Armed(r.timer)
  {
    if steps != [] {
      ResponderLosesNothing(steps[..|steps| - 1], c);
      RespondKeeps(RespondAll(steps[..|steps| - 1], c), steps[|steps| - 1], c);
    }
  }

  /** One turn of the coordinator with no callback in between. */
  function Turn(r: Responder, now: Instant, c: Config): Responder
  {
    Respond(Respond(Respond(r, TakeWake(now), c), TakeLook, c), Advertise(now), c)
  }

  /** Once the callbacks are quiet, two turns advertise what is pending: the first arms the
      debounce if need be, the second comes when the debounce is due. */
  lemma PendingIsAdvertised(steps: seq<ResponderStep>, c: Config, now: Instant, later: Instant)
    requires var r := RespondAll(steps, c);
             && r.inFlight == 0 && !r.ended && r.point == Top && r.status.lost.None?
             && r.status.generation > r.advertised
    requires Due(Turn(RespondAll(steps, c), now, c).timer, later, c) || !Armed(Turn(RespondAll(steps, c), now, c).timer)
    ensures Turn(Turn(RespondAll(steps, c), now, c), later, c).advertised == RespondAll(steps, c).status.generation
  {
    ResponderLosesNothing(steps, c);
  }

  /** The events of a timer have been quiet for the debounce, or have lasted for a burst. */
  predicate Ripe(t: Timer, now: Instant, c: Config)
  {
    && t.first.Some? && t.latest.Some?
    && t.latest.value + c.debounce <= MAX_INSTANT && t.first.value + c.maxBurst <= MAX_INSTANT
    && (now >= t.latest.value + c.debounce || now >= t.first.value + c.maxBurst)
  }

  /** What a turn does, with its wake and without: it notes the instant of a wake, says the
      generation it finds when that is new and the timer ripe, and ends after a loss. */
  lemma TurnIs(r: Responder, now: Instant, c: Config)
    requires !r.ended && r.point == Top
    ensures var t := Turn(r, now, c);
            var timer := if r.wakeQueued then Timer(if r.timer.first.Some? then r.timer.first else Some(now), Some(now))
                         else r.timer;
            var says := r.status.lost.None? && r.status.generation > r.advertised && Ripe(timer, now, c);
            && t.status == r.status && t.inFlight == r.inFlight && !t.wakeQueued && t.ended == r.status.lost.Some?
            && t.advertised == (if says then r.status.generation else r.advertised)
            && t.timer == (if says then IDLE else timer)
            && (!t.ended ==> t.point == Top)
  {
    DueIff(if r.wakeQueued then Notify(r.timer, now) else r.timer, now, c);
  }

  /** The responder never says a generation twice, nor one it has not reached; in whatever
      order things happen it says one only out of a ripe timer. */
  lemma SaysOnlyWhatIsNew(steps: seq<ResponderStep>, x: ResponderStep, c: Config)
    ensures var (r, t) := (RespondAll(steps, c), Respond(RespondAll(steps, c), x, c));
            t.advertised != r.advertised ==>
              r.advertised < t.advertised <= r.status.generation && x.Advertise? && Ripe(r.timer, x.now, c) && !r.ended
  {
    ResponderLosesNothing(steps, c);
    if x.Advertise? {
      DueIff(RespondAll(steps, c).timer, x.now, c);
    }
  }

  /** The same turn on the shared state, as the loop makes it. */
  method RespondTurn(watch: WatchState, debounce: Debounce, advertised: nat, now: Instant, config: Config)
    returns (announced: Option<nat>, ended: bool)
    modifies watch, debounce
    ensures var r := Turn(Responder(old(watch.Value()), 0, old(watch.wakeQueued), old(debounce.Value()), advertised, Top, false),
                          now, config);
            && watch.Value() == r.status && watch.wakeQueued == r.wakeQueued && debounce.Value() == r.timer
            && ended == r.ended && announced == if r.advertised != advertised then Some(r.advertised) else None
  {
    announced, ended := None, false;
    var woken := watch.TryReceiveWake();
    if woken {
      debounce.NotifyAt(now);
    }
    var snapshot := watch.TakeSnapshot();
    if snapshot.Lost? {
      ended := true;
      return;
    }
    if snapshot.generation > advertised {
      var due := debounce.TakeDue(now, config);
      if due {
        announced := Some(snapshot.generation);
      }
    }
  }

  // ---------------------------------------------------------------- the connector

  datatype Phase = Between | InRound(frozenLocal: nat, frozenRemote: nat)

  /** `covered` is the remote generation of the last completed round. */
  datatype Connector = Connector(
    status: Status, completed: nat, scheduledLocal: nat, remote: nat, scheduledRemote: nat, covered: nat,
    timer: Timer, phase: Phase, ended: bool)

  datatype ConnectorStep =
    | LocalChange | LocalLoss(error: Error) | RemoteChanged(generation: nat)
    | Schedule(now: Instant, auditDue: bool) | RoundDone

  /** The session after its first round. What the responder advertised by then it
      advertised before it scanned for that round. */
  predicate Started(s: Connector)
  {
    && s.completed == s.scheduledLocal <= s.status.generation
    && s.covered == s.scheduledRemote == s.remote
    && s.timer == IDLE && s.phase == Between && !s.ended
  }

  function NoticeLocal(s: Connector, generation: nat, now: Instant): Connector
  {
    if generation > s.scheduledLocal then s.(timer := Notify(s.timer, now), scheduledLocal := generation) else s
  }

  function NoticeRemote(s: Connector, now: Instant): Connector
  {
    if s.remote > s.scheduledRemote then s.(timer := Notify(s.timer, now), scheduledRemote := s.remote) else s
  }

  /** A due debounce is taken; an overdue audit starts a round as well. */
  function StartIfDue(s: Connector, generation: nat, now: Instant, auditDue: bool, c: Config): Connector
  {
    var due := Due(s.timer, now, c);
    var taken := if due then s.(timer := IDLE) else s;
    if due || auditDue then taken.(phase := InRound(generation, s.remote)) else taken
  }

  function Connect(s: Connector, x: ConnectorStep, c: Config): Connector
  {
    match x
    case LocalChange => s.(status := Changed(s.status))
    case LocalLoss(error) => s.(status := LoseWatcher(s.status, error))
    case RemoteChanged(generation) => s.(remote := Max(s.remote, generation))
    case Schedule(now, auditDue) =>
      if s.ended || s.phase != Between then s
      else (match Look(s.status)
            case Lost(_) => s.(ended := true)
            case Healthy(generation) =>
              StartIfDue(NoticeRemote(NoticeLocal(s, generation, now), now), generation, now, auditDue, c))
    case RoundDone =>
      if s.ended || !s.phase.InRound? then s
      else (match Complete(s.status, s.phase.frozenLocal, s.completed)
            case Failed(_) => s.(ended := true)
            case Completed(generation, _) =>
              s.(completed := generation, covered := s.phase.frozenRemote, phase := Between))
  }

  function ConnectAll(s: Connector, steps: seq<ConnectorStep>, c: Config): Connector
  {
    if steps == [] then s else Connect(ConnectAll(s, steps[..|steps| - 1], c), steps[|steps| - 1], c)
  }

  predicate ConnectorInv(s: Connector)
  {
    && s.completed <= s.scheduledLocal <= s.status.generation && s.scheduledRemote <= s.remote
    && (s.phase.InRound? ==> s.phase == InRound(s.scheduledLocal, s.scheduledRemote))
    && (s.phase == Between && !s.ended && !Armed(s.timer) ==>
          s.completed == s.scheduledLocal && s.covered == s.scheduledRemote)
  }

  lemma ConnectKeeps(s: Connector, x: ConnectorStep, c: Config)
    requires ConnectorInv(s)
    ensures ConnectorInv(Connect(s, x, c))
  {
  }

  /** No change is lost on the connector: between rounds an idle debounce means that the
      last completed round covered everything scheduled, local and advertised. */
  lemma {:induction false} ConnectorLosesNothing(s: Connector, steps: seq<ConnectorStep>, c: Config)
    requires Started(s)
    ensures ConnectorInv(ConnectAll(s, steps, c))
    ensures var t := ConnectAll(s, steps, c);
            t.phase == Between && !t.ended && !Armed(t.timer) ==>
              t.completed == t.scheduledLocal && t.covered == t.scheduledRemote
  {
    if steps != [] {
      ConnectorLosesNothing(s, steps[..|steps| - 1], c);
      ConnectKeeps(ConnectAll(s, steps[..|steps| - 1], c), steps[|steps| - 1], c);
    }
  }

  /** And so a change that no completed round covers, here or on the responder, is noticed
      at the next look or waits for the debounce already; and a round that starts, starts
      for everything there is. */
  lemma ChangeReachesARound(s: Connector, steps: seq<ConnectorStep>, c: Config, now: Instant, auditDue: bool)
    requires Started(s)
    requires var t := ConnectAll(s, steps, c);
             && t.phase == Between && !t.ended && t.status.lost.None?
             && (t.status.generation > t.completed || t.remote > t.covered)
    ensures var t := ConnectAll(s, steps, c);
            var u := Connect(t, Schedule(now, auditDue), c);
            && (Armed(u.timer) || u.phase.InRound?)
            && u.scheduledLocal == t.status.generation && u.scheduledRemote == t.remote
            && (u.phase.InRound? ==> u.phase == InRound(t.status.generation, t.remote))
            && (u.phase.InRound? ==> var v := Connect(u, RoundDone, c);
                                     v.completed == t.status.generation && v.covered == t.remote)
  {
    ConnectorLosesNothing(s, steps, c);
  }

  /** What a look does between rounds: it ends the session after a loss, notes the instant of
      anything new, and starts a round, for all there is, when the timer is ripe or an
      audit is due; only a ripe timer is reset. */
  lemma LookIs(s: Connector, now: Instant, auditDue: bool, c: Config)
    requires s.phase == Between && !s.ended
    ensures var t := Connect(s, Schedule(now, auditDue), c);
            var news := s.status.generation > s.scheduledLocal || s.remote > s.scheduledRemote;
            var timer := if news then Timer(if s.timer.first.Some? then s.timer.first else Some(now), Some(now)) else s.timer;
            if s.status.lost.Some? then t == s.(ended := true)
            else
              && t.status == s.status && t.completed == s.completed && t.covered == s.covered && t.remote == s.remote && !t.ended
              && t.scheduledLocal == Max(s.scheduledLocal, s.status.generation)
              && t.scheduledRemote == Max(s.scheduledRemote, s.remote)
              && t.timer == (if Ripe(timer, now, c) then IDLE else timer)
              && t.phase == if Ripe(timer, now, c) || auditDue then InRound(s.status.generation, s.remote) else Between
  {
    DueIff(NoticeRemote(NoticeLocal(s, s.status.generation, now), now).timer, now, c);
  }

  /** A round that ends counts for what it was started with, unless the watcher was lost. */
  lemma RoundEndIs(s: Connector, c: Config)
    requires s.phase.InRound? && !s.ended
    ensures Connect(s, RoundDone, c)
            == if s.status.lost.Some? then s.(ended := true)
               else s.(completed := if s.completed > s.phase.frozenLocal then s.completed else s.phase.frozenLocal,
                       covered := s.phase.frozenRemote, phase := Between)
  {
  }

  /** Once everything is noticed, the look that finds the debounce due starts the round. */
  lemma DueStartsARound(s: Connector, steps: seq<ConnectorStep>, c: Config, now: Instant)
    requires Started(s)
    requires var t := ConnectAll(s, steps, c);
             && t.phase == Between && !t.ended && t.status.lost.None? && Due(t.timer, now, c)
             && t.scheduledLocal == t.status.generation && t.scheduledRemote == t.remote
    ensures var t := ConnectAll(s, steps, c);
            Connect(t, Schedule(now, false), c).phase == InRound(t.status.generation, t.remote)
  {
    ConnectorLosesNothing(s, steps, c);
  }

  /** The look as the loop makes it, on its own variables: `frozen` are the generations a
      round is started for. */
  method ScheduleTurn(watch: WatchState, debounce: Debounce, local: nat, remote: nat, scheduled: nat, now: Instant,
                      auditDue: bool, config: Config, ghost completed: nat, ghost covered: nat)
    returns (newLocal: nat, newRemote: nat, frozen: Option<(nat, nat)>, ended: bool)
    modifies debounce
    ensures var s := Connector(watch.Value(), completed, local, remote, scheduled, covered, old(debounce.Value()), Between, false);
            var t := Connect(s, Schedule(now, auditDue), config);
            && newLocal == t.scheduledLocal && newRemote == t.scheduledRemote && ended == t.ended
            && debounce.Value() == t.timer
            && frozen == if t.phase.InRound? then Some((t.phase.frozenLocal, t.phase.frozenRemote)) else None
  {
    newLocal, newRemote, frozen, ended := local, scheduled, None, false;
    var snapshot := watch.TakeSnapshot();
    if snapshot.Lost? {
      ended := true;
      return;
    }
    if snapshot.generation > newLocal {
      debounce.NotifyAt(now);
      newLocal := snapshot.generation;
    }
    if remote > newRemote {
      debounce.NotifyAt(now);
      newRemote := remote;
    }
    var due := debounce.TakeDue(now, config);
    if due || auditDue {
      frozen := Some((snapshot.generation, remote));
    }
  }
}
