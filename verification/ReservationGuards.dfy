/** What one endpoint of the handshake relies on when it knows nothing of the other one
    (src/main.rs:3970-4359): whatever frames arrive, in whatever order, it finishes only
    after one exact exchange of frames, whose grammar is given here. Progress frames and
    the data that follow the handshake are left aside. */
module ReservationGuards {
  import opened Reservation

  /** The log ends with these frames. */
  predicate EndsWith(log: seq<Frame>, end: seq<Frame>)
  {
    |end| <= |log| && log[|log| - |end|..] == end
  }

  function Without(log: seq<Frame>, end: seq<Frame>): seq<Frame>
    requires |end| <= |log|
  {
    log[..|log| - |end|]
  }

  lemma EndGrows(log: seq<Frame>, end: seq<Frame>, more: seq<Frame>)
    requires EndsWith(log, end)
    ensures EndsWith(log + more, end + more) && Without(log + more, end + more) == Without(log, end)
  {
  }

  lemma EndIs(log: seq<Frame>, end: seq<Frame>)
    requires EndsWith(log, end)
    ensures log == Without(log, end) + end
  {
  }

  /** What an endpoint sent in a step that is part of the handshake. */
  function Said(frames: seq<Frame>): seq<Frame>
  {
    if frames == [Queued] || frames == [Data] then [] else frames
  }

  // ---------------------------------------------------------------- the higher peer

  datatype HigherInput = HigherGets(frame: Frame) | HigherDoes(move: HigherAction)

  /** The higher peer, the frames it took and those it sent. */
  datatype HigherRun = HigherRun(higher: Higher, log: seq<Frame>, sent: seq<Frame>)

  function Alone(h: Higher, connectorOrigin: bool): State
  {
    State(Authority(AIssue, false, Terms(0, 0, 0), Generations(0, 0), 0, 0, 0, false), h, [], [], connectorOrigin, false)
  }

  function HigherStep(r: HigherRun, x: HigherInput, connectorOrigin: bool): HigherRun
  {
    match x
    case HigherGets(f) =>
      if !r.higher.Receiving() || r.higher.pc == HDone then r
      else
        var reply := HigherReceives(r.higher, f, connectorOrigin);
        HigherRun(reply.endpoint, if f.Queued? then r.log else r.log + [f], r.sent + reply.frames)
    case HigherDoes(move) =>
      var next := HigherMoves(Alone(r.higher, connectorOrigin), move);
      HigherRun(next.higher, r.log, r.sent + Said(next.toAuthority))
  }

  function HigherDriven(h: Higher, inputs: seq<HigherInput>, connectorOrigin: bool): HigherRun
  {
    if inputs == [] then HigherRun(h, [], [])
    else HigherStep(HigherDriven(h, inputs[..|inputs| - 1], connectorOrigin), inputs[|inputs| - 1], connectorOrigin)
  }

  predicate FreshHigher(h: Higher, connectorOrigin: bool)
  {
    !h.stopped && h.resets == 0 && h.pc == if connectorOrigin then HStart else HWaitIssue
  }

  /** The peer that connects begins by submitting its identity and generations. */
  function Submission(h: Higher, connectorOrigin: bool): seq<Frame>
  {
    if connectorOrigin then [PendingAuthority(h.id, h.generations)] else []
  }

  /** The issue was taken and acknowledged, and then `n` preparations, each acknowledged on
      the issued terms, reset with the checkpoint it prepared, and the reset acknowledged
      with that too. */
  predicate HigherRounds(log: seq<Frame>, sent: seq<Frame>, h: Higher, connectorOrigin: bool, n: nat)
  {
    if n == 0 then
      && log == [ProxyIssue(h.issue, h.generations)]
      && sent == Submission(h, connectorOrigin) + [ProxyAck(h.issue.id, h.issue.order)]
      && (connectorOrigin ==> h.issue.id == h.id)
    else
      && |log| >= 2 && |sent| >= 2
      && log[|log| - 2].PairPrepare? && log[|log| - 2].checkpoint.terms == h.issue
      && sent[|sent| - 2].PairPrepareAck? && sent[|sent| - 2].checkpoint.terms == h.issue
      && log[|log| - 1] == PairReset(log[|log| - 2].checkpoint)
      && sent[|sent| - 1] == PairResetAck(log[|log| - 2].checkpoint)
      && HigherRounds(log[..|log| - 2], sent[..|sent| - 2], h, connectorOrigin, n - 1)
  }

  /** After the rounds that were reset, exactly these frames were taken and sent. */
  predicate HigherSince(r: HigherRun, connectorOrigin: bool, took: seq<Frame>, said: seq<Frame>)
  {
    && EndsWith(r.log, took) && EndsWith(r.sent, said) && r.higher.resets <= MAX_PAIR_RESETS
    && HigherRounds(Without(r.log, took), Without(r.sent, said), r.higher, connectorOrigin, r.higher.resets)
  }

  /** What the last preparation and its commit look like. */
  function Prepared(h: Higher): seq<Frame> { [PairPrepare(h.lower)] }

  function Committed(h: Higher): seq<Frame> { [PairPrepare(h.lower), PairCommit(h.lower)] }

  function Answered(h: Higher): seq<Frame> { [PairPrepareAck(h.Own()), PairCommitAck(h.Own())] }

  predicate HigherGuarded(r: HigherRun, connectorOrigin: bool)
  {
    var h := r.higher;
    h.stopped ||
    match h.pc
    case HStart => r.log == [] && r.sent == [] && connectorOrigin && h.resets == 0
    case HWaitIssue => r.log == [] && r.sent == Submission(h, connectorOrigin) && h.resets == 0
    case HWaitPrepare => HigherSince(r, connectorOrigin, [], [])
    case HPreparing => h.lower.terms == h.issue && HigherSince(r, connectorOrigin, Prepared(h), [])
    case HWaitDecision => h.lower.terms == h.issue && HigherSince(r, connectorOrigin, Prepared(h), [PairPrepareAck(h.Own())])
    case HCommit => h.lower.terms == h.issue && HigherSince(r, connectorOrigin, Committed(h), [PairPrepareAck(h.Own())])
    case HWaitReserved => h.lower.terms == h.issue && HigherSince(r, connectorOrigin, Committed(h), Answered(h))
    case HWaitPermit =>
      h.lower.terms == h.issue && HigherSince(r, connectorOrigin, Committed(h) + [SyncReserved(h.issue)], Answered(h))
    case HHasPermit =>
      h.lower.terms == h.issue && HigherSince(r, connectorOrigin, Committed(h) + [SyncReserved(h.issue)], Answered(h))
    case HWaitAccepted =>
      && h.lower.terms == h.issue
      && HigherSince(r, connectorOrigin, Committed(h) + [SyncReserved(h.issue)],
                     Answered(h) + [SyncStart(h.issue, h.generations)])
    case HDone => h.lower.terms == h.issue && HigherFinished(r, connectorOrigin)
  }

  /** The whole exchange of a higher peer that is done: the issue, at most eight rounds that
      were reset, and then the last preparation, its exact commit, the reservation, the start
      and its acceptance, all on the issued terms and generations. */
  predicate HigherFinished(r: HigherRun, connectorOrigin: bool)
  {
    var h := r.higher;
    HigherSince(r, connectorOrigin, Committed(h) + [SyncReserved(h.issue), SyncAccepted(h.issue)],
                Answered(h) + [SyncStart(h.issue, h.generations)])
  }

  lemma {:induction false} RoundsFrame(log: seq<Frame>, sent: seq<Frame>, h: Higher, g: Higher, connectorOrigin: bool, n: nat)
    requires HigherRounds(log, sent, h, connectorOrigin, n)
    requires g.issue == h.issue && g.generations == h.generations && g.id == h.id
    ensures HigherRounds(log, sent, g, connectorOrigin, n)
  {
    if n > 0 {
      RoundsFrame(log[..|log| - 2], sent[..|sent| - 2], h, g, connectorOrigin, n - 1);
    }
  }

  /** A frame taken and frames sent, in one round. */
  lemma HigherGrows(r: HigherRun, next: HigherRun, connectorOrigin: bool, took: seq<Frame>, said: seq<Frame>,
                    more: seq<Frame>, answer: seq<Frame>)
    requires HigherSince(r, connectorOrigin, took, said)
    requires next.log == r.log + more && next.sent == r.sent + answer
    requires var (h, g) := (r.higher, next.higher);
             g.issue == h.issue && g.generations == h.generations && g.id == h.id && g.resets == h.resets
    ensures HigherSince(next, connectorOrigin, took + more, said + answer)
  {
    EndGrows(r.log, took, more);
    EndGrows(r.sent, said, answer);
    RoundsFrame(Without(r.log, took), Without(r.sent, said), r.higher, next.higher, connectorOrigin, r.higher.resets);
  }

  /** A round that is reset is over. */
  lemma HigherResets(r: HigherRun, next: HigherRun, connectorOrigin: bool)
    requires HigherSince(r, connectorOrigin, Prepared(r.higher), [PairPrepareAck(r.higher.Own())])
    requires var h := r.higher;
             && h.lower.terms == h.issue && h.resets < MAX_PAIR_RESETS
             && next.higher == h.(pc := HWaitPrepare, resets := h.resets + 1)
             && next.log == r.log + [PairReset(h.lower)] && next.sent == r.sent + [PairResetAck(h.lower)]
    ensures HigherSince(next, connectorOrigin, [], [])
  {
    var h := r.higher;
    var took, said := Prepared(h), [PairPrepareAck(h.Own())];
    EndIs(r.log, took);
    EndIs(r.sent, said);
    assert next.log[..|next.log| - 2] == Without(r.log, took) && next.sent[..|next.sent| - 2] == Without(r.sent, said);
    RoundsFrame(Without(r.log, took), Without(r.sent, said), h, next.higher, connectorOrigin, h.resets);
    assert Without(next.log, []) == next.log && Without(next.sent, []) == next.sent;
  }

  lemma HigherGetsGuarded(r: HigherRun, f: Frame, connectorOrigin: bool)
    requires HigherGuarded(r, connectorOrigin)
    ensures HigherGuarded(HigherStep(r, HigherGets(f), connectorOrigin), connectorOrigin)
  {
    var h, next := r.higher, HigherStep(r, HigherGets(f), connectorOrigin);
    if next.higher.stopped || h.stopped || next.higher.pc == h.pc {
      GetsNothing(r, f, connectorOrigin);
    } else if h.pc == HWaitIssue {
      FirstRound(r, f, connectorOrigin);
    } else if h.pc == HWaitPrepare {
      GetsPrepare(r, f, connectorOrigin);
    } else if h.pc == HWaitDecision {
      if f.PairReset? {
        HigherResets(r, next, connectorOrigin);
      } else {
        GetsCommit(r, f, connectorOrigin);
      }
    } else if h.pc == HWaitReserved {
      GetsReserved(r, f, connectorOrigin);
    } else {
      GetsAccepted(r, f, connectorOrigin);
    }
  }

  lemma GetsPrepare(r: HigherRun, f: Frame, connectorOrigin: bool)
    requires HigherGuarded(r, connectorOrigin) && !r.higher.stopped && r.higher.pc == HWaitPrepare
    requires HigherStep(r, HigherGets(f), connectorOrigin).higher.pc == HPreparing
    ensures HigherGuarded(HigherStep(r, HigherGets(f), connectorOrigin), connectorOrigin)
  {
    var next := HigherStep(r, HigherGets(f), connectorOrigin);
    HigherGrows(r, next, connectorOrigin, [], [], [f], []);
    assert [] + [f] == Prepared(next.higher);
  }

  lemma GetsCommit(r: HigherRun, f: Frame, connectorOrigin: bool)
    requires HigherGuarded(r, connectorOrigin) && !r.higher.stopped && r.higher.pc == HWaitDecision
    requires HigherStep(r, HigherGets(f), connectorOrigin).higher.pc == HCommit
    ensures HigherGuarded(HigherStep(r, HigherGets(f), connectorOrigin), connectorOrigin)
  {
    var h, next := r.higher, HigherStep(r, HigherGets(f), connectorOrigin);
    HigherGrows(r, next, connectorOrigin, Prepared(h), [PairPrepareAck(h.Own())], [f], []);
    assert Prepared(h) + [f] == Committed(h);
  }

  lemma GetsReserved(r: HigherRun, f: Frame, connectorOrigin: bool)
    requires HigherGuarded(r, connectorOrigin) && !r.higher.stopped && r.higher.pc == HWaitReserved
    requires HigherStep(r, HigherGets(f), connectorOrigin).higher.pc == HWaitPermit
    ensures HigherGuarded(HigherStep(r, HigherGets(f), connectorOrigin), connectorOrigin)
  {
    var h, next := r.higher, HigherStep(r, HigherGets(f), connectorOrigin);
    HigherGrows(r, next, connectorOrigin, Committed(h), Answered(h), [f], []);
    assert Answered(h) + [] == Answered(h);
  }

  lemma GetsAccepted(r: HigherRun, f: Frame, connectorOrigin: bool)
    requires HigherGuarded(r, connectorOrigin) && !r.higher.stopped && r.higher.pc == HWaitAccepted
    requires HigherStep(r, HigherGets(f), connectorOrigin).higher.pc == HDone
    ensures HigherGuarded(HigherStep(r, HigherGets(f), connectorOrigin), connectorOrigin)
  {
    var h, next := r.higher, HigherStep(r, HigherGets(f), connectorOrigin);
    var said := Answered(h) + [SyncStart(h.issue, h.generations)];
    HigherGrows(r, next, connectorOrigin, Committed(h) + [SyncReserved(h.issue)], said, [f], []);
    assert Committed(h) + [SyncReserved(h.issue)] + [f] == Committed(h) + [SyncReserved(h.issue), SyncAccepted(h.issue)];
    assert said + [] == said;
  }

  lemma FirstRound(r: HigherRun, f: Frame, connectorOrigin: bool)
    requires HigherGuarded(r, connectorOrigin) && !r.higher.stopped && r.higher.pc == HWaitIssue
    requires HigherStep(r, HigherGets(f), connectorOrigin).higher.pc != HWaitIssue
    ensures HigherGuarded(HigherStep(r, HigherGets(f), connectorOrigin), connectorOrigin)
  {
    var next := HigherStep(r, HigherGets(f), connectorOrigin);
    assert Without(next.log, []) == next.log && Without(next.sent, []) == next.sent;
  }

  /** A progress frame, a refusal, or a frame that is not read. */
  lemma GetsNothing(r: HigherRun, f: Frame, connectorOrigin: bool)
    requires HigherGuarded(r, connectorOrigin)
    requires var next := HigherStep(r, HigherGets(f), connectorOrigin).higher;
             next.stopped || r.higher.stopped || next.pc == r.higher.pc
    ensures HigherGuarded(HigherStep(r, HigherGets(f), connectorOrigin), connectorOrigin)
  {
    var next := HigherStep(r, HigherGets(f), connectorOrigin);
    assert next.higher.stopped || next == r;
  }

  /** What the peer becomes and says by a step of its own. */
  lemma HigherSays(r: HigherRun, move: HigherAction, connectorOrigin: bool)
    requires !r.higher.stopped && move != HStop
    ensures var (h, next) := (r.higher, HigherStep(r, HigherDoes(move), connectorOrigin));
            && next.log == r.log
            && (if h.pc == HStart && move == Submit then
                  next.higher == h.(pc := HWaitIssue) && next.sent == r.sent + [PendingAuthority(h.id, h.generations)]
                else if h.pc == HPreparing && move.AckPrepare? then
                  next.higher == h.(pc := HWaitDecision, predecessor := move.own)
                  && next.sent == r.sent + [PairPrepareAck(next.higher.Own())]
                else if h.pc == HCommit && move == CommitPair(true) then
                  next.higher == h.(pc := HWaitReserved) && next.sent == r.sent + [PairCommitAck(h.Own())]
                else if h.pc == HWaitPermit && move == HPermit then
                  next.higher == h.(pc := HHasPermit, permit := true) && next.sent == r.sent
                else if h.pc == HHasPermit && move == Start then
                  next.higher == h.(pc := HWaitAccepted) && next.sent == r.sent + [SyncStart(h.issue, h.generations)]
                else next.higher.stopped || next == r)
  {
    var next := HigherMoves(Alone(r.higher, connectorOrigin), move);
    assert forall frames: seq<Frame> :: [] + frames == frames;
    assert r.sent + [] == r.sent;
  }

  lemma HigherDoesGuarded(r: HigherRun, move: HigherAction, connectorOrigin: bool)
    requires HigherGuarded(r, connectorOrigin)
    ensures HigherGuarded(HigherStep(r, HigherDoes(move), connectorOrigin), connectorOrigin)
  {
    var h, next := r.higher, HigherStep(r, HigherDoes(move), connectorOrigin);
    if !next.higher.stopped && !h.stopped && next.higher.pc != h.pc {
      HigherSays(r, move, connectorOrigin);
      if h.pc == HStart {
        assert r.sent + [PendingAuthority(h.id, h.generations)] == Submission(h, connectorOrigin);
      } else {
        HigherMovesOn(r, next, connectorOrigin);
      }
    } else if !next.higher.stopped && !h.stopped {
      HigherSays(r, move, connectorOrigin);
    }
  }

  lemma HigherMovesOn(r: HigherRun, next: HigherRun, connectorOrigin: bool)
    requires HigherGuarded(r, connectorOrigin) && !r.higher.stopped && next.log == r.log
    requires var h := r.higher;
             || (h.pc == HPreparing && next.higher == h.(pc := HWaitDecision, predecessor := next.higher.predecessor)
                 && next.sent == r.sent + [PairPrepareAck(next.higher.Own())])
             || (h.pc == HCommit && next.higher == h.(pc := HWaitReserved) && next.sent == r.sent + [PairCommitAck(h.Own())])
             || (h.pc == HWaitPermit && next.higher == h.(pc := HHasPermit, permit := true) && next.sent == r.sent)
             || (h.pc == HHasPermit && next.higher == h.(pc := HWaitAccepted)
                 && next.sent == r.sent + [SyncStart(h.issue, h.generations)])
    ensures HigherGuarded(next, connectorOrigin)
  {
    var h := r.higher;
    assert r.log + [] == r.log && r.sent + [] == r.sent;
    if h.pc == HPreparing {
      var said := [PairPrepareAck(next.higher.Own())];
      HigherGrows(r, next, connectorOrigin, Prepared(h), [], [], said);
      assert Prepared(h) + [] == Prepared(h) && [] + said == said;
    } else if h.pc == HCommit {
      HigherGrows(r, next, connectorOrigin, Committed(h), [PairPrepareAck(h.Own())], [], [PairCommitAck(h.Own())]);
      assert Committed(h) + [] == Committed(h) && [PairPrepareAck(h.Own())] + [PairCommitAck(h.Own())] == Answered(h);
    } else {
      var took := Committed(h) + [SyncReserved(h.issue)];
      var said := if h.pc == HWaitPermit then [] else [SyncStart(h.issue, h.generations)];
      HigherGrows(r, next, connectorOrigin, took, Answered(h), [], said);
      assert took + [] == took && Answered(h) + [] == Answered(h);
    }
  }

  lemma {:induction false} HigherKeepsGuard(h: Higher, inputs: seq<HigherInput>, connectorOrigin: bool)
    requires FreshHigher(h, connectorOrigin)
    ensures HigherGuarded(HigherDriven(h, inputs, connectorOrigin), connectorOrigin)
  {
    if inputs != [] {
      var n := |inputs| - 1;
      HigherKeepsGuard(h, inputs[..n], connectorOrigin);
      match inputs[n] {
        case HigherGets(f) => HigherGetsGuarded(HigherDriven(h, inputs[..n], connectorOrigin), f, connectorOrigin);
        case HigherDoes(move) => HigherDoesGuarded(HigherDriven(h, inputs[..n], connectorOrigin), move, connectorOrigin);
      }
    }
  }

  /** The higher peer is done only after the exact exchange of its own reservation. */
  lemma HigherFinishesExactly(h: Higher, inputs: seq<HigherInput>, connectorOrigin: bool)
    requires FreshHigher(h, connectorOrigin)
    requires var r := HigherDriven(h, inputs, connectorOrigin); r.higher.pc == HDone && !r.higher.stopped
    ensures var r := HigherDriven(h, inputs, connectorOrigin);
            HigherFinished(r, connectorOrigin) && r.higher.lower.terms == r.higher.issue
  {
    HigherKeepsGuard(h, inputs, connectorOrigin);
  }

  // ---------------------------------------------------------------- the authority

  datatype AuthorityInput = AuthorityGets(frame: Frame) | AuthorityDoes(move: AuthorityAction)

  datatype AuthorityRun = AuthorityRun(authority: Authority, log: seq<Frame>, sent: seq<Frame>)

  function AloneA(a: Authority): State
  {
    State(a, Higher(HWaitIssue, false, 0, Generations(0, 0), Terms(0, 0, 0), Checkpoint(Terms(0, 0, 0), 0), 0, 0, false),
          [], [], false, false)
  }

  function AuthorityStep(r: AuthorityRun, x: AuthorityInput): AuthorityRun
  {
    match x
    case AuthorityGets(f) =>
      if !r.authority.Receiving() || r.authority.pc == AAccepted then r
      else
        var reply := AuthorityReceives(r.authority, f);
        AuthorityRun(reply.endpoint, if f.Queued? then r.log else r.log + [f], r.sent + reply.frames)
    case AuthorityDoes(move) =>
      var next := AuthorityMoves(AloneA(r.authority), move);
      AuthorityRun(next.authority, r.log, r.sent + Said(next.toHigher))
  }

  function AuthorityDriven(a: Authority, inputs: seq<AuthorityInput>): AuthorityRun
  {
    if inputs == [] then AuthorityRun(a, [], [])
    else AuthorityStep(AuthorityDriven(a, inputs[..|inputs| - 1]), inputs[|inputs| - 1])
  }

  /** When the higher peer connects the authority waits for its submission. */
  predicate FreshAuthority(a: Authority, connectorOrigin: bool)
  {
    !a.stopped && a.resets == 0 && a.pc == if connectorOrigin then AWaitPending else AIssue
  }

  function Submitted(a: Authority, connectorOrigin: bool): seq<Frame>
  {
    if connectorOrigin then [PendingAuthority(a.terms.id, a.generations)] else []
  }

  /** The issue was sent and acknowledged, and then `n` preparations on its terms, each
      acknowledged on them, reset with the checkpoint it prepared, and the reset
      acknowledged with that too. */
  predicate AuthorityRounds(log: seq<Frame>, sent: seq<Frame>, a: Authority, connectorOrigin: bool, n: nat)
  {
    if n == 0 then
      && sent == [ProxyIssue(a.terms, a.generations)]
      && log == Submitted(a, connectorOrigin) + [ProxyAck(a.terms.id, a.terms.order)]
    else
      && |log| >= 2 && |sent| >= 2
      && sent[|sent| - 2].PairPrepare? && sent[|sent| - 2].checkpoint.terms == a.terms
      && log[|log| - 2].PairPrepareAck? && log[|log| - 2].checkpoint.terms == a.terms
      && sent[|sent| - 1] == PairReset(sent[|sent| - 2].checkpoint)
      && log[|log| - 1] == PairResetAck(sent[|sent| - 2].checkpoint)
      && AuthorityRounds(log[..|log| - 2], sent[..|sent| - 2], a, connectorOrigin, n - 1)
  }

  /** After `n` rounds that were reset, `took` frames were taken and exactly these sent. */
  predicate AuthoritySince(r: AuthorityRun, connectorOrigin: bool, n: nat, took: nat, said: seq<Frame>)
  {
    && took <= |r.log| && EndsWith(r.sent, said) && r.authority.resets <= MAX_PAIR_RESETS
    && AuthorityRounds(r.log[..|r.log| - took], Without(r.sent, said), r.authority, connectorOrigin, n)
  }

  /** So many frames before the end the preparation was acknowledged, and so the commit. */
  predicate PrepareAcked(r: AuthorityRun, back: nat)
  {
    && 0 < back <= |r.log| && r.log[|r.log| - back].PairPrepareAck?
    && r.log[|r.log| - back].checkpoint.terms == r.authority.terms
  }

  predicate CommitAcked(r: AuthorityRun, back: nat)
  {
    && 0 < back <= |r.log| && r.log[|r.log| - back].PairCommitAck?
    && r.log[|r.log| - back].checkpoint.terms == r.authority.terms
  }

  function Reserving(a: Authority): seq<Frame> { [PairPrepare(a.Own()), PairCommit(a.Own())] }

  predicate AuthorityGuarded(r: AuthorityRun, connectorOrigin: bool)
  {
    var a := r.authority;
    a.stopped ||
    match a.pc
    case AWaitPending => connectorOrigin && r.log == [] && r.sent == [] && a.resets == 0
    case AIssue => r.log == Submitted(a, connectorOrigin) && r.sent == [] && a.resets == 0
    case AWaitAck => r.log == Submitted(a, connectorOrigin) && r.sent == [ProxyIssue(a.terms, a.generations)] && a.resets == 0
    case APrepare => AuthoritySince(r, connectorOrigin, a.resets, 0, [])
    case AWaitPrepareAck => AuthoritySince(r, connectorOrigin, a.resets, 0, [PairPrepare(a.Own())])
    case ACommit => AuthoritySince(r, connectorOrigin, a.resets, 1, [PairPrepare(a.Own())]) && PrepareAcked(r, 1)
    case AWaitResetAck =>
      && a.resets > 0 && PrepareAcked(r, 1)
      && AuthoritySince(r, connectorOrigin, a.resets - 1, 1, [PairPrepare(a.Own()), PairReset(a.Own())])
    case AWaitCommitAck => AuthoritySince(r, connectorOrigin, a.resets, 1, Reserving(a)) && PrepareAcked(r, 1)
    case AWaitPermit =>
      AuthoritySince(r, connectorOrigin, a.resets, 2, Reserving(a)) && PrepareAcked(r, 2) && CommitAcked(r, 1)
    case AHasPermit =>
      AuthoritySince(r, connectorOrigin, a.resets, 2, Reserving(a)) && PrepareAcked(r, 2) && CommitAcked(r, 1)
    case AWaitStart =>
      && AuthoritySince(r, connectorOrigin, a.resets, 2, Reserving(a) + [SyncReserved(a.terms)])
      && PrepareAcked(r, 2) && CommitAcked(r, 1)
    case AAccepted => AuthorityFinished(r, connectorOrigin)
  }

  /** The whole exchange of an authority that accepted: the issue, at most eight rounds that
      were reset, and then the last preparation, its commit, the reservation and the
      acceptance, with everything acknowledged and started on its own terms and generations. */
  predicate AuthorityFinished(r: AuthorityRun, connectorOrigin: bool)
  {
    var a := r.authority;
    && AuthoritySince(r, connectorOrigin, a.resets, 3, Reserving(a) + [SyncReserved(a.terms), SyncAccepted(a.terms)])
    && PrepareAcked(r, 3) && CommitAcked(r, 2)
    && r.log[|r.log| - 1] == SyncStart(a.terms, a.generations)
  }

  lemma {:induction false} AuthorityRoundsFrame(log: seq<Frame>, sent: seq<Frame>, a: Authority, b: Authority,
                                                connectorOrigin: bool, n: nat)
    requires AuthorityRounds(log, sent, a, connectorOrigin, n) && b.terms == a.terms && b.generations == a.generations
    ensures AuthorityRounds(log, sent, b, connectorOrigin, n)
  {
    if n > 0 {
      AuthorityRoundsFrame(log[..|log| - 2], sent[..|sent| - 2], a, b, connectorOrigin, n - 1);
    }
  }

  lemma AuthorityGrows(r: AuthorityRun, next: AuthorityRun, connectorOrigin: bool, n: nat, took: nat, said: seq<Frame>,
                       more: seq<Frame>, answer: seq<Frame>)
    requires AuthoritySince(r, connectorOrigin, n, took, said)
    requires next.log == r.log + more && next.sent == r.sent + answer && next.authority.resets <= MAX_PAIR_RESETS
    requires next.authority.terms == r.authority.terms && next.authority.generations == r.authority.generations
    ensures AuthoritySince(next, connectorOrigin, n, took + |more|, said + answer)
  {
    EndGrows(r.sent, said, answer);
    assert next.log[..|next.log| - (took + |more|)] == r.log[..|r.log| - took];
    AuthorityRoundsFrame(r.log[..|r.log| - took], Without(r.sent, said), r.authority, next.authority, connectorOrigin, n);
  }

  lemma AuthorityResets(r: AuthorityRun, next: AuthorityRun, connectorOrigin: bool)
    requires var a := r.authority;
             && a.resets > 0 && PrepareAcked(r, 1)
             && AuthoritySince(r, connectorOrigin, a.resets - 1, 1, [PairPrepare(a.Own()), PairReset(a.Own())])
             && next.authority == a.(pc := APrepare) && next.log == r.log + [PairResetAck(a.Own())] && next.sent == r.sent
    ensures AuthoritySince(next, connectorOrigin, r.authority.resets, 0, [])
  {
    var a := r.authority;
    var said := [PairPrepare(a.Own()), PairReset(a.Own())];
    EndIs(r.sent, said);
    assert next.log[..|next.log| - 2] == r.log[..|r.log| - 1] && next.sent[..|next.sent| - 2] == Without(r.sent, said);
    AuthorityRoundsFrame(r.log[..|r.log| - 1], Without(r.sent, said), a, next.authority, connectorOrigin, a.resets - 1);
    assert next.log[..|next.log| - 0] == next.log && Without(next.sent, []) == next.sent;
  }

  lemma AuthorityGetsGuarded(r: AuthorityRun, f: Frame, connectorOrigin: bool)
    requires AuthorityGuarded(r, connectorOrigin)
    ensures AuthorityGuarded(AuthorityStep(r, AuthorityGets(f)), connectorOrigin)
  {
    var a, next := r.authority, AuthorityStep(r, AuthorityGets(f));
    if next.authority.stopped || a.stopped || next.authority.pc == a.pc {
      assert r.sent + [] == r.sent;
      assert next.authority.stopped || next == r;
    } else if a.pc == AWaitPending {
      assert [] + [f] == [f];
    } else if a.pc == AWaitAck {
      assert next.log[..|next.log| - 0] == next.log && Without(next.sent, []) == next.sent == r.sent;
    } else if a.pc == AWaitResetAck {
      assert r.sent + [] == r.sent;
      AuthorityResets(r, next, connectorOrigin);
    } else if a.pc == AWaitPrepareAck {
      GetsPrepareAck(r, f, connectorOrigin);
    } else if a.pc == AWaitCommitAck {
      GetsCommitAck(r, f, connectorOrigin);
    } else {
      GetsStart(r, f, connectorOrigin);
    }
  }

  lemma GetsPrepareAck(r: AuthorityRun, f: Frame, connectorOrigin: bool)
    requires AuthorityGuarded(r, connectorOrigin) && !r.authority.stopped && r.authority.pc == AWaitPrepareAck
    requires AuthorityStep(r, AuthorityGets(f)).authority.pc == ACommit
    ensures AuthorityGuarded(AuthorityStep(r, AuthorityGets(f)), connectorOrigin)
  {
    var a, next := r.authority, AuthorityStep(r, AuthorityGets(f));
    AuthorityGrows(r, next, connectorOrigin, a.resets, 0, [PairPrepare(a.Own())], [f], []);
    assert [PairPrepare(a.Own())] + [] == [PairPrepare(a.Own())];
  }

  lemma GetsCommitAck(r: AuthorityRun, f: Frame, connectorOrigin: bool)
    requires AuthorityGuarded(r, connectorOrigin) && !r.authority.stopped && r.authority.pc == AWaitCommitAck
    requires AuthorityStep(r, AuthorityGets(f)).authority.pc == AWaitPermit
    ensures AuthorityGuarded(AuthorityStep(r, AuthorityGets(f)), connectorOrigin)
  {
    var a, next := r.authority, AuthorityStep(r, AuthorityGets(f));
    AuthorityGrows(r, next, connectorOrigin, a.resets, 1, Reserving(a), [f], []);
    assert Reserving(a) + [] == Reserving(a);
  }

  lemma GetsStart(r: AuthorityRun, f: Frame, connectorOrigin: bool)
    requires AuthorityGuarded(r, connectorOrigin) && !r.authority.stopped && r.authority.pc == AWaitStart
    requires AuthorityStep(r, AuthorityGets(f)).authority.pc == AAccepted
    ensures AuthorityGuarded(AuthorityStep(r, AuthorityGets(f)), connectorOrigin)
  {
    var a, next := r.authority, AuthorityStep(r, AuthorityGets(f));
    AuthorityGrows(r, next, connectorOrigin, a.resets, 2, Reserving(a) + [SyncReserved(a.terms)], [f], [SyncAccepted(a.terms)]);
    assert Reserving(a) + [SyncReserved(a.terms)] + [SyncAccepted(a.terms)]
           == Reserving(a) + [SyncReserved(a.terms), SyncAccepted(a.terms)];
  }

  lemma SaidOne(frames: seq<Frame>, f: Frame)
    requires frames == [] + [f] && f !in {Queued, Data}
    ensures Said(frames) == [f]
  {
    assert frames == [f] && frames[0] == f && [Queued][0] == Queued && [Data][0] == Data;
  }

  /** What the authority becomes and says by a step of its own. */
  lemma AuthoritySays(r: AuthorityRun, move: AuthorityAction)
    requires !r.authority.stopped && move != AStop && r.authority.pc !in {AWaitPermit, AHasPermit}
    ensures var (a, next) := (r.authority, AuthorityStep(r, AuthorityDoes(move)));
            && next.log == r.log
            && (if a.pc == AIssue && move.Issue? then
                  next.authority == a.(pc := AWaitAck, terms := Terms(a.terms.id, move.order, move.nonce))
                  && next.sent == r.sent + [ProxyIssue(next.authority.terms, a.generations)]
                else if a.pc == APrepare && move.Prepare? then
                  next.authority == a.(pc := AWaitPrepareAck, predecessor := move.predecessor, prepares := a.prepares + 1)
                  && next.sent == r.sent + [PairPrepare(next.authority.Own())]
                else if a.pc == ACommit && move == Commit(true) then
                  next.authority == a.(pc := AWaitCommitAck) && next.sent == r.sent + [PairCommit(a.Own())]
                else if a.pc == ACommit && move == Commit(false) && a.resets < MAX_PAIR_RESETS then
                  next.authority == a.(pc := AWaitResetAck, resets := a.resets + 1) && next.sent == r.sent + [PairReset(a.Own())]
                else next.authority.stopped || next == r)
  {
    var (a, next) := (r.authority, AuthorityMoves(AloneA(r.authority), move));
    assert r.sent + [] == r.sent;
    if a.pc == AIssue && move.Issue? {
      SaidOne(next.toHigher, ProxyIssue(next.authority.terms, a.generations));
    } else if a.pc == APrepare && move.Prepare? {
      SaidOne(next.toHigher, PairPrepare(next.authority.Own()));
    } else if a.pc == ACommit && move.Commit? && !next.authority.stopped {
      SaidOne(next.toHigher, if move.swapped then PairCommit(a.Own()) else PairReset(a.Own()));
    }
  }

  lemma AuthorityTakes(r: AuthorityRun, move: AuthorityAction)
    requires !r.authority.stopped && move != AStop && r.authority.pc in {AWaitPermit, AHasPermit}
    ensures var (a, next) := (r.authority, AuthorityStep(r, AuthorityDoes(move)));
            && next.log == r.log
            && (if a.pc == AWaitPermit && move == APermit then
                  next.authority == a.(pc := AHasPermit, permit := true) && next.sent == r.sent
                else if a.pc == AHasPermit && move == Reserve then
                  next.authority == a.(pc := AWaitStart) && next.sent == r.sent + [SyncReserved(a.terms)]
                else next == r)
  {
    var (a, next) := (r.authority, AuthorityMoves(AloneA(r.authority), move));
    assert r.sent + [] == r.sent;
    if a.pc == AHasPermit && move == Reserve {
      SaidOne(next.toHigher, SyncReserved(a.terms));
    }
  }

  lemma AuthorityDoesGuarded(r: AuthorityRun, move: AuthorityAction, connectorOrigin: bool)
    requires AuthorityGuarded(r, connectorOrigin)
    ensures AuthorityGuarded(AuthorityStep(r, AuthorityDoes(move)), connectorOrigin)
  {
    var a, next := r.authority, AuthorityStep(r, AuthorityDoes(move));
    if !next.authority.stopped && !a.stopped {
      if a.pc in {AWaitPermit, AHasPermit} {
        AuthorityTakes(r, move);
      } else {
        AuthoritySays(r, move);
      }
      if next.authority.pc != a.pc {
        if a.pc == AIssue {
          assert next.sent == [ProxyIssue(next.authority.terms, a.generations)];
        } else if a.pc == APrepare {
          AuthorityPrepares(r, next, connectorOrigin);
        } else if a.pc == ACommit {
          AuthorityDecides(r, next, connectorOrigin);
        } else {
          AuthorityReserves(r, next, connectorOrigin);
        }
      }
    }
  }

  lemma AuthorityPrepares(r: AuthorityRun, next: AuthorityRun, connectorOrigin: bool)
    requires AuthorityGuarded(r, connectorOrigin) && !r.authority.stopped && r.authority.pc == APrepare && next.log == r.log
    requires var (a, b) := (r.authority, next.authority);
             && b == a.(pc := AWaitPrepareAck, predecessor := b.predecessor, prepares := b.prepares)
             && next.sent == r.sent + [PairPrepare(b.Own())]
    ensures AuthorityGuarded(next, connectorOrigin)
  {
    var said := [PairPrepare(next.authority.Own())];
    assert r.log + [] == r.log && [] + said == said;
    AuthorityGrows(r, next, connectorOrigin, r.authority.resets, 0, [], [], said);
  }

  lemma AuthorityDecides(r: AuthorityRun, next: AuthorityRun, connectorOrigin: bool)
    requires AuthorityGuarded(r, connectorOrigin) && !r.authority.stopped && r.authority.pc == ACommit && next.log == r.log
    requires var (a, b) := (r.authority, next.authority);
             || (b == a.(pc := AWaitCommitAck) && next.sent == r.sent + [PairCommit(a.Own())])
             || (a.resets < MAX_PAIR_RESETS && b == a.(pc := AWaitResetAck, resets := a.resets + 1)
                 && next.sent == r.sent + [PairReset(a.Own())])
    ensures AuthorityGuarded(next, connectorOrigin)
  {
    var a := r.authority;
    var said := [next.sent[|next.sent| - 1]];
    assert r.log + [] == r.log;
    AuthorityGrows(r, next, connectorOrigin, a.resets, 1, [PairPrepare(a.Own())], [], said);
    assert [PairPrepare(a.Own())] + said == [PairPrepare(a.Own()), said[0]];
  }

  lemma AuthorityReserves(r: AuthorityRun, next: AuthorityRun, connectorOrigin: bool)
    requires AuthorityGuarded(r, connectorOrigin) && !r.authority.stopped && next.log == r.log
    requires var (a, b) := (r.authority, next.authority);
             || (a.pc == AWaitPermit && b == a.(pc := AHasPermit, permit := true) && next.sent == r.sent)
             || (a.pc == AHasPermit && b == a.(pc := AWaitStart) && next.sent == r.sent + [SyncReserved(a.terms)])
    ensures AuthorityGuarded(next, connectorOrigin)
  {
    var a := r.authority;
    assert r.log + [] == r.log && r.sent + [] == r.sent;
    var said := if a.pc == AWaitPermit then [] else [SyncReserved(a.terms)];
    AuthorityGrows(r, next, connectorOrigin, a.resets, 2, Reserving(a), [], said);
    assert Reserving(a) + [] == Reserving(a);
  }

  lemma {:induction false} AuthorityKeepsGuard(a: Authority, inputs: seq<AuthorityInput>, connectorOrigin: bool)
    requires FreshAuthority(a, connectorOrigin)
    ensures AuthorityGuarded(AuthorityDriven(a, inputs), connectorOrigin)
  {
    if inputs != [] {
      var n := |inputs| - 1;
      AuthorityKeepsGuard(a, inputs[..n], connectorOrigin);
      match inputs[n] {
        case AuthorityGets(f) => AuthorityGetsGuarded(AuthorityDriven(a, inputs[..n]), f, connectorOrigin);
        case AuthorityDoes(move) => AuthorityDoesGuarded(AuthorityDriven(a, inputs[..n]), move, connectorOrigin);
      }
    }
  }

  /** The authority accepts only after the exact exchange of its own reservation. */
  lemma AuthorityAcceptsExactly(a: Authority, inputs: seq<AuthorityInput>, connectorOrigin: bool)
    requires FreshAuthority(a, connectorOrigin)
    requires var r := AuthorityDriven(a, inputs); r.authority.pc == AAccepted && !r.authority.stopped
    ensures AuthorityFinished(AuthorityDriven(a, inputs), connectorOrigin)
  {
    AuthorityKeepsGuard(a, inputs, connectorOrigin);
  }
}
