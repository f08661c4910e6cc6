/** What every run of the reservation handshake keeps, whatever is delayed, fails or
    stops (src/main.rs:3970-4359). */
module ReservationLaws {
  import opened Reservation

  lemma InitialInv(s: State)
    requires Initial(s)
    ensures Inv(s)
  {
  }

  // ---------------------------------------------------------------- single steps

  lemma AuthorityKeepsOpening(s: State, x: AuthorityAction)
    requires Inv(s) && s.authority.pc in {AWaitPending, AIssue, AWaitAck, APrepare}
    ensures Joint(AuthorityMoves(s, x))
  {
  }

  lemma HigherKeepsOpening(s: State, x: HigherAction)
    requires Inv(s) && s.authority.pc in {AWaitPending, AIssue, AWaitAck, APrepare}
    ensures Joint(HigherMoves(s, x))
  {
  }

  lemma AuthorityKeepsPreparing(s: State, x: AuthorityAction)
    requires Inv(s) && s.authority.pc in {AWaitPrepareAck}
    ensures Joint(AuthorityMoves(s, x))
  {
  }

  lemma HigherKeepsPreparing(s: State, x: HigherAction)
    requires Inv(s) && s.authority.pc in {AWaitPrepareAck}
    ensures Joint(HigherMoves(s, x))
  {
  }

  lemma AuthorityKeepsDeciding(s: State, x: AuthorityAction)
    requires Inv(s) && s.authority.pc in {ACommit}
    ensures Joint(AuthorityMoves(s, x))
  {
  }

  lemma HigherKeepsDeciding(s: State, x: HigherAction)
    requires Inv(s) && s.authority.pc in {ACommit}
    ensures Joint(HigherMoves(s, x))
  {
  }

  lemma AuthorityKeepsResetting(s: State, x: AuthorityAction)
    requires Inv(s) && s.authority.pc in {AWaitResetAck}
    ensures Joint(AuthorityMoves(s, x))
  {
  }

  lemma HigherKeepsResetting(s: State, x: HigherAction)
    requires Inv(s) && s.authority.pc in {AWaitResetAck}
    ensures Joint(HigherMoves(s, x))
  {
  }

  lemma AuthorityKeepsCommitting(s: State, x: AuthorityAction)
    requires Inv(s) && s.authority.pc in {AWaitCommitAck}
    ensures Joint(AuthorityMoves(s, x))
  {
  }

  lemma HigherKeepsCommitting(s: State, x: HigherAction)
    requires Inv(s) && s.authority.pc in {AWaitCommitAck}
    ensures Joint(HigherMoves(s, x))
  {
  }

  lemma AuthorityKeepsCommitted(s: State, x: AuthorityAction)
    requires Inv(s) && s.authority.pc in {AWaitPermit, AHasPermit}
    ensures Joint(AuthorityMoves(s, x))
  {
  }

  lemma HigherKeepsCommitted(s: State, x: HigherAction)
    requires Inv(s) && s.authority.pc in {AWaitPermit, AHasPermit}
    ensures Joint(HigherMoves(s, x))
  {
  }

  lemma AuthorityKeepsStarting(s: State, x: AuthorityAction)
    requires Inv(s) && s.authority.pc in {AWaitStart}
    ensures Joint(AuthorityMoves(s, x))
  {
  }

  lemma HigherKeepsStarting(s: State, x: HigherAction)
    requires Inv(s) && s.authority.pc in {AWaitStart}
    ensures Joint(HigherMoves(s, x))
  {
  }

  lemma AuthorityKeepsAccepted(s: State, x: AuthorityAction)
    requires Inv(s) && s.authority.pc in {AAccepted}
    ensures Joint(AuthorityMoves(s, x))
  {
  }

  lemma HigherKeepsAccepted(s: State, x: HigherAction)
    requires Inv(s) && s.authority.pc in {AAccepted}
    ensures Joint(HigherMoves(s, x))
  {
  }

  lemma AuthorityHolds(s: State, x: AuthorityAction)
    requires Inv(s)
    ensures Permits(AuthorityMoves(s, x)) && HeldTogether(Witnessed(AuthorityMoves(s, x)))
  {
  }

  lemma AuthorityCounts(s: State, x: AuthorityAction)
    requires Inv(s)
    ensures Counted(AuthorityMoves(s, x))
  {
  }

  lemma AuthorityKeeps(s: State, x: AuthorityAction)
    requires Inv(s)
    ensures Inv(Witnessed(AuthorityMoves(s, x)))
  {
    AuthorityHolds(s, x);
    AuthorityCounts(s, x);
    match s.authority.pc {
      case AWaitPending => AuthorityKeepsOpening(s, x);
      case AIssue => AuthorityKeepsOpening(s, x);
      case AWaitAck => AuthorityKeepsOpening(s, x);
      case APrepare => AuthorityKeepsOpening(s, x);
      case AWaitPrepareAck => AuthorityKeepsPreparing(s, x);
      case ACommit => AuthorityKeepsDeciding(s, x);
      case AWaitResetAck => AuthorityKeepsResetting(s, x);
      case AWaitCommitAck => AuthorityKeepsCommitting(s, x);
      case AWaitPermit => AuthorityKeepsCommitted(s, x);
      case AHasPermit => AuthorityKeepsCommitted(s, x);
      case AWaitStart => AuthorityKeepsStarting(s, x);
      case AAccepted => AuthorityKeepsAccepted(s, x);
    }
    Unwitnessed(AuthorityMoves(s, x));
  }

  lemma HigherHolds(s: State, x: HigherAction)
    requires Inv(s)
    ensures Permits(HigherMoves(s, x)) && HeldTogether(Witnessed(HigherMoves(s, x)))
  {
  }

  lemma HigherCounts(s: State, x: HigherAction)
    requires Inv(s)
    ensures Counted(HigherMoves(s, x))
  {
  }

  lemma HigherKeeps(s: State, x: HigherAction)
    requires Inv(s)
    ensures Inv(Witnessed(HigherMoves(s, x)))
  {
    HigherHolds(s, x);
    HigherCounts(s, x);
    match s.authority.pc {
      case AWaitPending => HigherKeepsOpening(s, x);
      case AIssue => HigherKeepsOpening(s, x);
      case AWaitAck => HigherKeepsOpening(s, x);
      case APrepare => HigherKeepsOpening(s, x);
      case AWaitPrepareAck => HigherKeepsPreparing(s, x);
      case ACommit => HigherKeepsDeciding(s, x);
      case AWaitResetAck => HigherKeepsResetting(s, x);
      case AWaitCommitAck => HigherKeepsCommitting(s, x);
      case AWaitPermit => HigherKeepsCommitted(s, x);
      case AHasPermit => HigherKeepsCommitted(s, x);
      case AWaitStart => HigherKeepsStarting(s, x);
      case AAccepted => HigherKeepsAccepted(s, x);
    }
    Unwitnessed(HigherMoves(s, x));
  }

  lemma Unwitnessed(s: State)
    ensures Joint(s) ==> Joint(Witnessed(s))
    ensures Permits(s) ==> Permits(Witnessed(s))
    ensures Counted(s) ==> Counted(Witnessed(s))
  {
  }

  // ---------------------------------------------------------------- runs

  lemma {:induction false} RunKeeps(s: State, actions: seq<Action>)
    requires Initial(s)
    ensures Inv(Run(s, actions))
  {
    if actions == [] {
      InitialInv(s);
    } else {
      var n := |actions| - 1;
      RunKeeps(s, actions[..n]);
      match actions[n] {
        case ByAuthority(x) => AuthorityKeeps(Run(s, actions[..n]), x);
        case ByHigher(x) => HigherKeeps(Run(s, actions[..n]), x);
      }
    }
  }

  predicate BothHold(s: State) { s.authority.permit && s.higher.permit }

  /** The flag remembers an instant of the run. */
  lemma {:induction false} HeldAtSomeInstant(s: State, actions: seq<Action>)
    requires Initial(s) && Run(s, actions).bothHeld
    ensures exists k :: 0 <= k <= |actions| && BothHold(Run(s, actions[..k]))
  {
    assert actions[..|actions|] == actions;
    if actions != [] && !BothHold(Run(s, actions)) {
      var earlier := actions[..|actions| - 1];
      HeldAtSomeInstant(s, earlier);
      var k :| 0 <= k <= |earlier| && BothHold(Run(s, earlier[..k]));
      assert earlier[..k] == actions[..k];
    }
  }

  /** In every interleaving: when the higher peer is done, the authority has accepted the
      same identity, order, nonce and generations; both permits were held at one instant;
      and no frame of the handshake is left in either channel. */
  lemma ReservationIsSafe(s: State, actions: seq<Action>)
    requires Initial(s) && Run(s, actions).higher.pc == HDone
    ensures var end := Run(s, actions);
            && end.authority.pc == AAccepted
            && end.higher.issue == end.authority.terms && end.higher.generations == end.authority.generations
            && AllData(end.toAuthority) && AllData(end.toHigher)
    ensures exists k :: 0 <= k <= |actions| && BothHold(Run(s, actions[..k]))
  {
    RunKeeps(s, actions);
    HeldAtSomeInstant(s, actions);
  }

  /** The choice of the connecting peer is never changed. */
  predicate Chosen(s: State, id: nat, generations: Generations)
  {
    if s.connectorOrigin then s.higher.id == id && s.higher.generations == generations
    else s.authority.terms.id == id && s.authority.generations == generations
  }

  lemma AuthorityKeepsChoice(s: State, x: AuthorityAction, id: nat, generations: Generations)
    requires Joint(s) && Chosen(s, id, generations)
    ensures Chosen(AuthorityMoves(s, x), id, generations) && AuthorityMoves(s, x).connectorOrigin == s.connectorOrigin
  {
  }

  lemma HigherKeepsChoice(s: State, x: HigherAction, id: nat, generations: Generations)
    requires Chosen(s, id, generations)
    ensures Chosen(HigherMoves(s, x), id, generations) && HigherMoves(s, x).connectorOrigin == s.connectorOrigin
  {
  }

  lemma {:induction false} ChoiceKept(s: State, actions: seq<Action>, id: nat, generations: Generations)
    requires Initial(s) && Chosen(s, id, generations)
    ensures Chosen(Run(s, actions), id, generations) && Run(s, actions).connectorOrigin == s.connectorOrigin
  {
    if actions != [] {
      var n := |actions| - 1;
      ChoiceKept(s, actions[..n], id, generations);
      RunKeeps(s, actions[..n]);
      match actions[n] {
        case ByAuthority(x) => AuthorityKeepsChoice(Run(s, actions[..n]), x, id, generations);
        case ByHigher(x) => HigherKeepsChoice(Run(s, actions[..n]), x, id, generations);
      }
    }
  }

  /** The authority accepts the identity and the generations the connecting peer chose. */
  lemma ConnectorIsHonoured(s: State, actions: seq<Action>, id: nat, generations: Generations)
    requires Initial(s) && Chosen(s, id, generations) && Run(s, actions).higher.pc == HDone
    ensures Run(s, actions).authority.terms.id == id && Run(s, actions).authority.generations == generations
  {
    RunKeeps(s, actions);
    ChoiceKept(s, actions, id, generations);
  }

  /** Nothing an honest peer sends is refused: a handshake fails only when an endpoint
      stops or a commit does not go through. */
  lemma NothingIsRefused(s: State, actions: seq<Action>)
    requires Initial(s)
    ensures var now := Run(s, actions);
            && (now.authority.Receiving() && now.toAuthority != [] ==>
                  !AuthorityReceives(now.authority, now.toAuthority[0]).endpoint.stopped)
            && (now.higher.Receiving() && now.toHigher != [] ==>
                  !HigherReceives(now.higher, now.toHigher[0], now.connectorOrigin).endpoint.stopped)
  {
    RunKeeps(s, actions);
    var now := Run(s, actions);
    if now.authority.Receiving() && now.toAuthority != [] {
      HeadIsExpected(now);
    }
    if now.higher.Receiving() && now.toHigher != [] {
      HigherHeadIsExpected(now);
    }
  }

  lemma HeadIsExpected(s: State)
    requires Inv(s) && s.authority.Receiving() && s.toAuthority != []
    ensures !AuthorityReceives(s.authority, s.toAuthority[0]).endpoint.stopped
  {
  }

  lemma HigherHeadIsExpected(s: State)
    requires Inv(s) && s.higher.Receiving() && s.toHigher != []
    ensures !HigherReceives(s.higher, s.toHigher[0], s.connectorOrigin).endpoint.stopped
  {
  }

  /** The reset counters never differ by more than one, the loop of preparations runs at
      most one round more than there may be resets, and the higher peer never finds too many. */
  lemma ResetsAreBounded(s: State, actions: seq<Action>)
    requires Initial(s)
    ensures var now := Run(s, actions);
            && now.higher.resets <= now.authority.resets <= now.higher.resets + 1
            && now.authority.prepares <= MAX_PAIR_RESETS + 1
            && now.higher.resets <= MAX_PAIR_RESETS
  {
    RunKeeps(s, actions);
  }

  /** Permits are taken in order: while the higher peer waits for its own permit or holds
      it, the authority holds the lower one, unless it has stopped. */
  lemma LowerPermitFirst(s: State, actions: seq<Action>)
    requires Initial(s)
    ensures var now := Run(s, actions);
            now.higher.pc in {HWaitPermit, HHasPermit, HWaitAccepted, HDone} && !now.authority.stopped ==>
              now.authority.permit
  {
    RunKeeps(s, actions);
  }

  // ---------------------------------------------------------------- completion

  /** How far the handshake still is from its end. */
  function Distance(s: State): nat
  {
    var h := s.higher.pc;
    match s.authority.pc
    case AWaitPending => if h == HStart then 30 else 29
    case AIssue => 28
    case AWaitAck => if h == HWaitIssue then 27 else 26
    case APrepare => 25
    case AWaitPrepareAck => if h == HWaitPrepare then 24 else if h == HPreparing then 23 else 22
    case ACommit => 21
    case AWaitResetAck => if h == HWaitDecision then 32 else 31
    case AWaitCommitAck => if h == HWaitDecision then 20 else if h == HCommit then 19 else 18
    case AWaitPermit => 17
    case AHasPermit => 16
    case AWaitStart => if h == HWaitReserved then 15 else if h == HWaitPermit then 14 else if h == HHasPermit then 13 else 12
    case AAccepted => if h == HWaitAccepted then 11 else 0
  }

  /** A step towards the end. */
  function Helpful(s: State): Action
  {
    var h := s.higher.pc;
    match s.authority.pc
    case AWaitPending => if h == HStart then ByHigher(Submit) else ByAuthority(AReceive)
    case AIssue => ByAuthority(Issue(0, 0))
    case AWaitAck => if h == HWaitIssue then ByHigher(HReceive) else ByAuthority(AReceive)
    case APrepare => ByAuthority(Prepare(0))
    case AWaitPrepareAck =>
      if h == HWaitPrepare then ByHigher(HReceive)
      else if h == HPreparing then ByHigher(AckPrepare(0)) else ByAuthority(AReceive)
    case ACommit => ByAuthority(Commit(true))
    case AWaitResetAck => if h == HWaitDecision then ByHigher(HReceive) else ByAuthority(AReceive)
    case AWaitCommitAck =>
      if h == HWaitDecision then ByHigher(HReceive)
      else if h == HCommit then ByHigher(CommitPair(true)) else ByAuthority(AReceive)
    case AWaitPermit => ByAuthority(APermit)
    case AHasPermit => ByAuthority(Reserve)
    case AWaitStart =>
      if h == HWaitReserved then ByHigher(HReceive) else if h == HWaitPermit then ByHigher(HPermit)
      else if h == HHasPermit then ByHigher(Start) else ByAuthority(AReceive)
    case AAccepted => ByHigher(HReceive)
  }

  predicate Running(s: State) { !s.authority.stopped && !s.higher.stopped }

  /** The step comes closer, or takes a progress frame off a channel. */
  predicate Closer(s: State, t: State)
  {
    && Running(t)
    && (|| Distance(t) < Distance(s)
        || (Distance(t) == Distance(s) && Waiting(t) < Waiting(s)))
  }

  lemma OpeningAdvances(s: State)
    requires Inv(s) && Running(s) && s.higher.pc != HDone && s.authority.pc in {AWaitPending, AIssue, AWaitAck, APrepare}
    ensures Closer(s, Next(s, Helpful(s)))
  {
  }

  lemma PreparingAdvances(s: State)
    requires Inv(s) && Running(s) && s.higher.pc != HDone && s.authority.pc in {AWaitPrepareAck}
    ensures Closer(s, Next(s, Helpful(s)))
  {
  }

  lemma DecidingAdvances(s: State)
    requires Inv(s) && Running(s) && s.higher.pc != HDone && s.authority.pc in {ACommit, AWaitResetAck}
    ensures Closer(s, Next(s, Helpful(s)))
  {
  }

  lemma CommittingAdvancesFirst(s: State)
    requires Inv(s) && Running(s) && s.higher.pc != HDone && s.authority.pc in {AWaitCommitAck}
    requires s.higher.pc == HWaitDecision
    ensures Closer(s, Next(s, Helpful(s)))
  {
  }

  lemma CommittingAdvancesLater(s: State)
    requires Inv(s) && Running(s) && s.higher.pc != HDone && s.authority.pc in {AWaitCommitAck}
    requires s.higher.pc != HWaitDecision
    ensures Closer(s, Next(s, Helpful(s)))
  {
  }

  lemma CommittingAdvances(s: State)
    requires Inv(s) && Running(s) && s.higher.pc != HDone && s.authority.pc in {AWaitCommitAck}
    ensures Closer(s, Next(s, Helpful(s)))
  {
    if s.higher.pc == HWaitDecision {
      CommittingAdvancesFirst(s);
    } else {
      CommittingAdvancesLater(s);
    }
  }

  lemma CommittedAdvances(s: State)
    requires Inv(s) && Running(s) && s.higher.pc != HDone && s.authority.pc in {AWaitPermit, AHasPermit}
    ensures Closer(s, Next(s, Helpful(s)))
  {
  }

  lemma StartingAdvancesFirst(s: State)
    requires Inv(s) && Running(s) && s.higher.pc != HDone && s.authority.pc in {AWaitStart}
    requires s.higher.pc == HWaitReserved
    ensures Closer(s, Next(s, Helpful(s)))
  {
  }

  lemma StartingAdvancesLater(s: State)
    requires Inv(s) && Running(s) && s.higher.pc != HDone && s.authority.pc in {AWaitStart}
    requires s.higher.pc != HWaitReserved
    ensures Closer(s, Next(s, Helpful(s)))
  {
  }

  lemma StartingAdvances(s: State)
    requires Inv(s) && Running(s) && s.higher.pc != HDone && s.authority.pc in {AWaitStart}
    ensures Closer(s, Next(s, Helpful(s)))
  {
    if s.higher.pc == HWaitReserved {
      StartingAdvancesFirst(s);
    } else {
      StartingAdvancesLater(s);
    }
  }

  lemma AcceptedAdvances(s: State)
    requires Inv(s) && Running(s) && s.higher.pc != HDone && s.authority.pc in {AAccepted}
    ensures Closer(s, Next(s, Helpful(s)))
  {
  }

  lemma HelpfulAdvances(s: State)
    requires Inv(s) && Running(s) && s.higher.pc != HDone
    ensures Closer(s, Next(s, Helpful(s)))
  {
    match s.authority.pc {
      case AWaitPending => OpeningAdvances(s);
      case AIssue => OpeningAdvances(s);
      case AWaitAck => OpeningAdvances(s);
      case APrepare => OpeningAdvances(s);
      case AWaitPrepareAck => PreparingAdvances(s);
      case ACommit => DecidingAdvances(s);
      case AWaitResetAck => DecidingAdvances(s);
      case AWaitCommitAck => CommittingAdvances(s);
      case AWaitPermit => CommittedAdvances(s);
      case AHasPermit => CommittedAdvances(s);
      case AWaitStart => StartingAdvances(s);
      case AAccepted => AcceptedAdvances(s);
    }
  }

  function Waiting(s: State): nat { |s.toAuthority| + |s.toHigher| }

  /** One more step brings the run closer to its end. */
  lemma OneStepCloser(s: State, actions: seq<Action>) returns (longer: seq<Action>)
    requires Initial(s) && Running(Run(s, actions)) && Run(s, actions).higher.pc != HDone
    ensures Closer(Run(s, actions), Run(s, longer)) && actions <= longer
  {
    RunKeeps(s, actions);
    HelpfulAdvances(Run(s, actions));
    longer := actions + [Helpful(Run(s, actions))];
    assert longer[..|longer| - 1] == actions;
  }

  lemma {:induction false} Complete(s: State, actions: seq<Action>, distance: nat, waiting: nat) returns (whole: seq<Action>)
    requires Initial(s) && Running(Run(s, actions))
    requires distance == Distance(Run(s, actions)) && waiting == Waiting(Run(s, actions))
    ensures actions <= whole && Run(s, whole).higher.pc == HDone
    decreases distance, waiting
  {
    if Run(s, actions).higher.pc == HDone {
      whole := actions;
    } else {
      var longer := OneStepCloser(s, actions);
      whole := Complete(s, longer, Distance(Run(s, longer)), Waiting(Run(s, longer)));
    }
  }

  /** Wherever a run has come while neither endpoint has stopped, it can be completed. */
  lemma CanComplete(s: State, actions: seq<Action>)
    requires Initial(s) && Running(Run(s, actions))
    ensures exists whole :: actions <= whole && Run(s, whole).higher.pc == HDone
  {
    var whole := Complete(s, actions, Distance(Run(s, actions)), Waiting(Run(s, actions)));
  }
}
