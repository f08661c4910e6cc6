/** The reservation handshake between two installations (src/main.rs:3970-4359). The
    peer that sorts lower is the authority. Both endpoints are state machines joined by
    two FIFO channels; progress frames may be sent while an endpoint works, a commit may
    fail, and either endpoint may stop at any moment: a timeout, an error, a lost lease. */
module Reservation {

  datatype Terms = Terms(id: nat, order: nat, nonce: nat)

  datatype Generations = Generations(connector: nat, responder: nat)

  datatype Checkpoint = Checkpoint(terms: Terms, predecessor: nat)

  datatype Frame =
    | PendingAuthority(id: nat, generations: Generations)
    | ProxyIssue(terms: Terms, generations: Generations)
    | ProxyAck(id: nat, order: nat)
    | Queued
    | PairPrepare(checkpoint: Checkpoint)
    | PairPrepareAck(checkpoint: Checkpoint)
    | PairReset(checkpoint: Checkpoint)
    | PairResetAck(checkpoint: Checkpoint)
    | PairCommit(checkpoint: Checkpoint)
    | PairCommitAck(checkpoint: Checkpoint)
    | SyncReserved(terms: Terms)
    | SyncStart(terms: Terms, generations: Generations)
    | SyncAccepted(terms: Terms)
    | Data

  const MAX_PAIR_RESETS := 8

  datatype AuthorityPc =
    | AWaitPending | AIssue | AWaitAck | APrepare | AWaitPrepareAck | ACommit | AWaitResetAck
    | AWaitCommitAck | AWaitPermit | AHasPermit | AWaitStart | AAccepted

  datatype Authority = Authority(
    pc: AuthorityPc, stopped: bool, terms: Terms, generations: Generations, predecessor: nat,
    resets: nat, prepares: nat, permit: bool)
  {
    function Own(): Checkpoint { Checkpoint(terms, predecessor) }

    predicate Receiving()
    {
      !stopped && pc in {AWaitPending, AWaitAck, AWaitPrepareAck, AWaitResetAck, AWaitCommitAck, AWaitStart, AAccepted}
    }

    predicate Working() { !stopped && pc in {AIssue, APrepare, ACommit, AWaitPermit} }
  }

  datatype HigherPc =
    | HStart | HWaitIssue | HWaitPrepare | HPreparing | HWaitDecision | HCommit | HWaitReserved
    | HWaitPermit | HHasPermit | HWaitAccepted | HDone

  datatype Higher = Higher(
    pc: HigherPc, stopped: bool, id: nat, generations: Generations, issue: Terms, lower: Checkpoint,
    predecessor: nat, resets: nat, permit: bool)
  {
    function Own(): Checkpoint { Checkpoint(issue, predecessor) }

    predicate Receiving()
    {
      !stopped && pc in {HWaitIssue, HWaitPrepare, HWaitDecision, HWaitReserved, HWaitAccepted, HDone}
    }

    predicate Working() { !stopped && pc in {HPreparing, HWaitPermit} }
  }

  /** `connectorOrigin` says that the higher peer opened the session; `bothHeld` that at
      some instant so far both permits were held. */
  datatype State = State(
    authority: Authority, higher: Higher, toAuthority: seq<Frame>, toHigher: seq<Frame>,
    connectorOrigin: bool, bothHeld: bool)

  // ---------------------------------------------------------------- receiving

  /** What an endpoint becomes and sends. */
  datatype Reply<T> = Reply(endpoint: T, frames: seq<Frame>)

  function Rejected(a: Authority): Reply<Authority> { Reply(a.(stopped := true, permit := false), []) }

  function HigherRejected(h: Higher): Reply<Higher> { Reply(h.(stopped := true, permit := false), []) }

  function AuthorityReceives(a: Authority, f: Frame): Reply<Authority>
  {
    match a.pc
    case AWaitPending =>
      if f.Queued? then Reply(a, [])
      else if f.PendingAuthority? then
        Reply(a.(pc := AIssue, terms := a.terms.(id := f.id), generations := f.generations), [])
      else Rejected(a)
    case AWaitAck =>
      if f.Queued? then Reply(a, [])
      else if f == ProxyAck(a.terms.id, a.terms.order) then Reply(a.(pc := APrepare), [])
      else Rejected(a)
    case AWaitPrepareAck =>
      if f.Queued? then Reply(a, [])
      else if f.PairPrepareAck? && f.checkpoint.terms == a.terms then Reply(a.(pc := ACommit), [])
      else Rejected(a)
    case AWaitResetAck =>
      if f.Queued? then Reply(a, [])
      else if f == PairResetAck(a.Own()) then Reply(a.(pc := APrepare), [])
      else Rejected(a)
    case AWaitCommitAck =>
      if f.Queued? then Reply(a, [])
      else if f.PairCommitAck? && f.checkpoint.terms == a.terms then Reply(a.(pc := AWaitPermit), [])
      else Rejected(a)
    case AWaitStart =>
      if f.Queued? then Reply(a, [])
      else if f == SyncStart(a.terms, a.generations) then Reply(a.(pc := AAccepted), [SyncAccepted(a.terms)])
      else Rejected(a)
    case AAccepted => if f.Data? then Reply(a, []) else Rejected(a)
    case _ => Rejected(a)
  }

  function HigherReceives(h: Higher, f: Frame, connectorOrigin: bool): Reply<Higher>
  {
    match h.pc
    case HWaitIssue =>
      if f.Queued? then Reply(h, [])
      else if f.ProxyIssue? && (connectorOrigin ==> f.terms.id == h.id && f.generations == h.generations) then
        Reply(h.(pc := HWaitPrepare, issue := f.terms, generations := f.generations), [ProxyAck(f.terms.id, f.terms.order)])
      else HigherRejected(h)
    case HWaitPrepare =>
      if f.Queued? then Reply(h, [])
      else if f.PairPrepare? && f.checkpoint.terms == h.issue then Reply(h.(pc := HPreparing, lower := f.checkpoint), [])
      else HigherRejected(h)
    case HWaitDecision =>
      if f.Queued? then Reply(h, [])
      else if f == PairCommit(h.lower) then Reply(h.(pc := HCommit), [])
      else if f == PairReset(h.lower) then
        if h.resets + 1 > MAX_PAIR_RESETS then HigherRejected(h.(resets := h.resets + 1))
        else Reply(h.(pc := HWaitPrepare, resets := h.resets + 1), [PairResetAck(f.checkpoint)])
      else HigherRejected(h)
    case HWaitReserved =>
      if f.Queued? then Reply(h, [])
      else if f == SyncReserved(h.issue) then Reply(h.(pc := HWaitPermit), [])
      else HigherRejected(h)
    case HWaitAccepted =>
      if f.Queued? then Reply(h, [])
      else if f == SyncAccepted(h.issue) then Reply(h.(pc := HDone), [])
      else HigherRejected(h)
    case HDone => if f.Data? then Reply(h, []) else HigherRejected(h)
    case _ => HigherRejected(h)
  }

  // ---------------------------------------------------------------- steps

  datatype AuthorityAction =
    | AStop | AQueued | AData | AReceive
    | Issue(order: nat, nonce: nat) | Prepare(predecessor: nat) | Commit(swapped: bool) | APermit | Reserve

  datatype HigherAction =
    | HStop | HQueued | HData | HReceive
    | Submit | AckPrepare(own: nat) | CommitPair(swapped: bool) | HPermit | Start

  datatype Action = ByAuthority(authority: AuthorityAction) | ByHigher(higher: HigherAction)

  function Put(s: State, a: Authority, frames: seq<Frame>): State
  {
    s.(authority := a, toHigher := s.toHigher + frames)
  }

  function HigherPut(s: State, h: Higher, frames: seq<Frame>): State
  {
    s.(higher := h, toAuthority := s.toAuthority + frames)
  }

  /** The steps of the authority; a step that is not enabled changes nothing. */
  function AuthorityMoves(s: State, x: AuthorityAction): State
  {
    var a := s.authority;
    match x
    case AStop => s.(authority := a.(stopped := true, permit := false))
    case AQueued => if a.Working() then Put(s, a, [Queued]) else s
    case AData => if a.pc == AAccepted && !a.stopped then Put(s, a, [Data]) else s
    case AReceive =>
      if a.Receiving() && s.toAuthority != [] then
        var reply := AuthorityReceives(a, s.toAuthority[0]);
        Put(s.(toAuthority := s.toAuthority[1..]), reply.endpoint, reply.frames)
      else s
    case Issue(order, nonce) =>
      if a.pc == AIssue && !a.stopped then
        var terms := Terms(a.terms.id, order, nonce);
        Put(s, a.(pc := AWaitAck, terms := terms), [ProxyIssue(terms, a.generations)])
      else s
    case Prepare(predecessor) =>
      if a.pc == APrepare && !a.stopped then
        Put(s, a.(pc := AWaitPrepareAck, predecessor := predecessor, prepares := a.prepares + 1),
            [PairPrepare(Checkpoint(a.terms, predecessor))])
      else s
    case Commit(swapped) =>
      if a.pc == ACommit && !a.stopped then
        if swapped then Put(s, a.(pc := AWaitCommitAck), [PairCommit(a.Own())])
        else if a.resets + 1 > MAX_PAIR_RESETS then s.(authority := Rejected(a.(resets := a.resets + 1)).endpoint)
        else Put(s, a.(pc := AWaitResetAck, resets := a.resets + 1), [PairReset(a.Own())])
      else s
    case APermit => if a.pc == AWaitPermit && !a.stopped then Put(s, a.(pc := AHasPermit, permit := true), []) else s
    case Reserve => if a.pc == AHasPermit && !a.stopped then Put(s, a.(pc := AWaitStart), [SyncReserved(a.terms)]) else s
  }

  /** The steps of the higher peer. */
  function HigherMoves(s: State, x: HigherAction): State
  {
    var h := s.higher;
    match x
    case HStop => s.(higher := h.(stopped := true, permit := false))
    case HQueued => if h.Working() then HigherPut(s, h, [Queued]) else s
    case HData => if h.pc == HDone && !h.stopped then HigherPut(s, h, [Data]) else s
    case HReceive =>
      if h.Receiving() && s.toHigher != [] then
        var reply := HigherReceives(h, s.toHigher[0], s.connectorOrigin);
        HigherPut(s.(toHigher := s.toHigher[1..]), reply.endpoint, reply.frames)
      else s
    case Submit =>
      if h.pc == HStart && !h.stopped then
        HigherPut(s, h.(pc := HWaitIssue), [PendingAuthority(h.id, h.generations)])
      else s
    case AckPrepare(own) =>
      if h.pc == HPreparing && !h.stopped then
        HigherPut(s, h.(pc := HWaitDecision, predecessor := own), [PairPrepareAck(Checkpoint(h.issue, own))])
      else s
    case CommitPair(swapped) =>
      if h.pc == HCommit && !h.stopped then
        if swapped then HigherPut(s, h.(pc := HWaitReserved), [PairCommitAck(h.Own())])
        else s.(higher := HigherRejected(h).endpoint)
      else s
    case HPermit => if h.pc == HWaitPermit && !h.stopped then HigherPut(s, h.(pc := HHasPermit, permit := true), []) else s
    case Start =>
      if h.pc == HHasPermit && !h.stopped then
        HigherPut(s, h.(pc := HWaitAccepted), [SyncStart(h.issue, h.generations)])
      else s
  }

  function Witnessed(s: State): State
  {
    s.(bothHeld := s.bothHeld || (s.authority.permit && s.higher.permit))
  }

  function Next(s: State, x: Action): State
  {
    Witnessed(match x
              case ByAuthority(move) => AuthorityMoves(s, move)
              case ByHigher(move) => HigherMoves(s, move))
  }

  function Run(s: State, actions: seq<Action>): State
  {
    if actions == [] then s else Next(Run(s, actions[..|actions| - 1]), actions[|actions| - 1])
  }

  /** A session opens with empty channels. The peer that connects chose the identity and
      the generations. */
  predicate Initial(s: State)
  {
    && s.toAuthority == [] && s.toHigher == [] && !s.bothHeld
    && !s.authority.stopped && !s.authority.permit && s.authority.resets == 0 && s.authority.prepares == 0
    && !s.higher.stopped && !s.higher.permit && s.higher.resets == 0
    && (if s.connectorOrigin then s.authority.pc == AWaitPending && s.higher.pc == HStart
        else s.authority.pc == AIssue && s.higher.pc == HWaitIssue)
  }

  // ---------------------------------------------------------------- the invariant

  predicate AllNoise(ch: seq<Frame>) { forall i :: 0 <= i < |ch| ==> ch[i] == Queued }

  predicate AllData(ch: seq<Frame>) { forall i :: 0 <= i < |ch| ==> ch[i] == Data }

  /** Progress frames and then one frame. */
  predicate NoiseThen(ch: seq<Frame>, f: Frame)
  {
    ch != [] && ch[|ch| - 1] == f && forall i :: 0 <= i < |ch| - 1 ==> ch[i] == Queued
  }

  /** What the higher peer submitted is what the authority works on. */
  predicate Submitted(s: State)
  {
    s.connectorOrigin ==> s.authority.terms.id == s.higher.id && s.authority.generations == s.higher.generations
  }

  /** Both endpoints mean the same reservation. */
  predicate Agreed(s: State)
  {
    s.higher.issue == s.authority.terms && s.higher.generations == s.authority.generations && Submitted(s)
  }

  predicate Together(s: State) { Agreed(s) && s.authority.resets == s.higher.resets }

  predicate Paired(s: State) { Together(s) && s.higher.lower == s.authority.Own() }

  /** Where the two endpoints are, and what is on the way between them. */
  predicate Joint(s: State)
  {
    var (a, h, toA, toH) := (s.authority, s.higher, s.toAuthority, s.toHigher);
    match a.pc
    case AWaitPending =>
      && toH == [] && s.connectorOrigin && a.resets == h.resets == 0
      && (|| (h.pc == HStart && toA == [])
          || (h.pc == HWaitIssue && toA == [PendingAuthority(h.id, h.generations)]))
    case AIssue => h.pc == HWaitIssue && Submitted(s) && AllNoise(toH) && toA == [] && a.resets == h.resets == 0
    case AWaitAck =>
      || (h.pc == HWaitIssue && Submitted(s) && NoiseThen(toH, ProxyIssue(a.terms, a.generations)) && toA == []
          && a.resets == h.resets == 0)
      || (h.pc == HWaitPrepare && Agreed(s) && toH == [] && toA == [ProxyAck(a.terms.id, a.terms.order)]
          && a.resets == h.resets == 0)
    case APrepare => h.pc == HWaitPrepare && Together(s) && AllNoise(toH) && toA == []
    case AWaitPrepareAck =>
      || (h.pc == HWaitPrepare && Together(s) && NoiseThen(toH, PairPrepare(a.Own())) && toA == [])
      || (h.pc == HPreparing && Paired(s) && toH == [] && AllNoise(toA))
      || (h.pc == HWaitDecision && Paired(s) && toH == [] && NoiseThen(toA, PairPrepareAck(h.Own())))
    case ACommit =>
      && h.pc == HWaitDecision && Agreed(s) && h.lower == a.Own() && AllNoise(toH) && toA == []
      && (a.resets == h.resets || (a.stopped && a.resets == h.resets + 1))
    case AWaitResetAck =>
      || (h.pc == HWaitDecision && Agreed(s) && h.lower == a.Own() && a.resets == h.resets + 1
          && NoiseThen(toH, PairReset(a.Own())) && toA == [])
      || (h.pc == HWaitPrepare && Paired(s) && toH == [] && toA == [PairResetAck(a.Own())])
    case AWaitCommitAck =>
      || (h.pc == HWaitDecision && Paired(s) && NoiseThen(toH, PairCommit(a.Own())) && toA == [])
      || (h.pc == HCommit && Paired(s) && toH == [] && toA == [])
      || (h.pc == HWaitReserved && Paired(s) && toH == [] && toA == [PairCommitAck(h.Own())])
    case AWaitPermit => h.pc == HWaitReserved && Paired(s) && AllNoise(toH) && toA == []
    case AHasPermit => h.pc == HWaitReserved && Paired(s) && AllNoise(toH) && toA == []
    case AWaitStart =>
      || (h.pc == HWaitReserved && Paired(s) && NoiseThen(toH, SyncReserved(a.terms)) && toA == [])
      || (h.pc in {HWaitPermit, HHasPermit} && Paired(s) && toH == [] && AllNoise(toA))
      || (h.pc == HWaitAccepted && Paired(s) && toH == [] && NoiseThen(toA, SyncStart(a.terms, a.generations)))
    case AAccepted =>
      || (h.pc == HWaitAccepted && Paired(s) && toA == []
          && toH != [] && toH[0] == SyncAccepted(a.terms) && AllData(toH[1..]))
      || (h.pc == HDone && Paired(s) && AllData(toH) && AllData(toA))
  }

  /** An endpoint holds its permit from the moment it gets it until it stops. */
  predicate Permits(s: State)
  {
    && s.authority.permit == (!s.authority.stopped && s.authority.pc in {AHasPermit, AWaitStart, AAccepted})
    && s.higher.permit == (!s.higher.stopped && s.higher.pc in {HHasPermit, HWaitAccepted, HDone})
  }

  /** After the authority accepted, either both permits have been held together or the
      higher peer has stopped. */
  predicate HeldTogether(s: State)
  {
    && (s.authority.pc == AAccepted ==> s.bothHeld || s.higher.stopped)
    && (s.higher.pc == HDone ==> s.bothHeld)
  }

  /** Every round of preparation but the first follows a reset. */
  predicate Counted(s: State)
  {
    var a := s.authority;
    && s.higher.resets <= MAX_PAIR_RESETS && a.resets <= MAX_PAIR_RESETS + 1
    && (a.resets == MAX_PAIR_RESETS + 1 ==> a.stopped && a.pc == ACommit)
    && a.prepares == (match a.pc
                      case AWaitPending => 0
                      case AIssue => 0
                      case AWaitAck => 0
                      case APrepare => a.resets
                      case AWaitResetAck => a.resets
                      case ACommit => if a.resets == s.higher.resets then a.resets + 1 else a.resets
                      case _ => a.resets + 1)
  }

  predicate Inv(s: State) { Joint(s) && Permits(s) && HeldTogether(s) && Counted(s) }
}
