/** What the exchange of heads at the end of a round is for: neither side refuses the
    other's list, every stored base was held by both replicas, and a finished exchange
    leaves both with the same heads (src/main.rs:6263-6289, src/main.rs:8189-8231,
    src/sync.rs:1426-1466, src/state.rs:4596-4649). */
module ExchangeLaws {
  import opened Bytes
  import opened Model
  import opened Reconcile
  import opened Versions
  import opened History
  import Heads

  predicate Has(w: World, atA: bool, path: Path, v: Version)
  {
    path in At(w, atA).records && At(w, atA).records[path] == v
  }

  /** The heads are the bases of exactly the given records. */
  ghost predicate BasesOf(heads: map<Path, BaseVersion>, shared: seq<Record>)
  {
    && (forall r :: r in shared ==> r.path in heads && r.version.AsBase() == Some(heads[r.path]))
    && (forall p :: p in heads ==> exists r :: r in shared && r.path == p)
  }

  /** The answer passes the responder's check and is what the connector has stored. */
  ghost predicate AnswerOk(w: World, e: Exchange, answer: seq<Record>)
  {
    && Heads.ValidateAckHeads(e.frozen, answer)
    && (forall r :: r in answer ==> r in e.frozen && r.version.entry.File? && (r.path, r.version.AsBase().value) in w.acked)
    && BasesOf(At(w, e.connectorIsA).heads, answer)
  }

  ghost predicate ExchangeOk(w: World)
  {
    w.exchange.Some? ==>
      var e := w.exchange.value;
      && UniquePaths(e.frozen)
      && (!e.left ==> Lists(e.frozen, At(w, !e.connectorIsA).records))
      && (e.answer.Some? ==> AnswerOk(w, e, e.answer.value))
  }

  /** The connector, which has only the responder's heads, answers with exactly the
      regular files both list, and the responder will accept that. */
  lemma AnswerIsAgreement(own: seq<Record>, frozen: seq<Record>)
    requires UniquePaths(own) && UniquePaths(frozen)
    ensures Answer(own, frozen).Some? && Heads.ValidateAckHeads(frozen, Answer(own, frozen).value)
    ensures forall r :: r in Answer(own, frozen).value <==> r in own && r in frozen && r.version.entry.File?
  {
    Heads.AcknowledgementAccepted(own, frozen);
    Heads.IntersectFromHeads(own, frozen);
    Heads.IntersectIsAgreement(own, frozen);
  }

  /** A replica that holds all of `shared` stores all of it and nothing else. */
  lemma StoresAll(w: World, atA: bool, shared: seq<Record>)
    requires forall r :: r in shared ==> Has(w, atA, r.path, r.version) && r.version.entry.File?
    ensures var next := Stored(w, atA, shared);
            && BasesOf(At(next, atA).heads, shared)
            && (forall r :: r in shared ==> (r.path, r.version.AsBase().value) in next.acked)
  {
    var heads := HeadsFrom(At(w, atA).records, shared);
    forall r | r in shared
      ensures r.path in heads && heads[r.path] == r.version.AsBase().value
    {
      assert Record(r.path, At(w, atA).records[r.path]) == r;
    }
    forall p | p in heads
      ensures exists r :: r in shared && r.path == p
    {
      assert Record(p, At(w, atA).records[p]) in shared;
    }
  }

  lemma StoredAnswerOk(w: World, e: Exchange, own: seq<Record>, answer: seq<Record>)
    requires Lists(own, At(w, e.connectorIsA).records) && Heads.ValidateAckHeads(e.frozen, answer)
    requires forall r :: r in answer ==> r in own && r in e.frozen && r.version.entry.File?
    ensures AnswerOk(Stored(w, e.connectorIsA, answer), e, answer)
  {
    StoresAll(w, e.connectorIsA, answer);
  }

  /** What an exchange in progress depends on. */
  lemma AlikeKeeps(w: World, w': World, e: Exchange, e': Exchange)
    requires ExchangeOk(w) && w.exchange == Some(e) && w'.exchange == Some(e') && (e' == e || e' == e.(left := true))
    requires !e'.left ==> At(w', !e.connectorIsA).records == At(w, !e.connectorIsA).records
    requires At(w', e.connectorIsA).heads == At(w, e.connectorIsA).heads && w.acked <= w'.acked
    ensures ExchangeOk(w')
  {
  }

  lemma AnsweredKeeps(w: World, w': World, e: Exchange, answer: seq<Record>)
    requires ExchangeOk(w) && w.exchange == Some(e) && AnswerOk(w', e, answer)
    requires At(w', !e.connectorIsA).records == At(w, !e.connectorIsA).records
    ensures ExchangeOk(w'.(exchange := Some(e.(answer := Some(answer)))))
  {
    AnswerOkAlike(w', w'.(exchange := Some(e.(answer := Some(answer)))), e, answer);
  }

  lemma AnswerOkAlike(w: World, w': World, e: Exchange, answer: seq<Record>)
    requires AnswerOk(w, e, answer) && At(w', e.connectorIsA).heads == At(w, e.connectorIsA).heads && w'.acked == w.acked
    ensures AnswerOk(w', e, answer)
    ensures AnswerOk(w', e.(answer := Some(answer)), answer)
  {
  }

  lemma TakeKeeps(w: World, own: seq<Record>, sign: Signer)
    requires ExchangeOk(w) && Enabled(w, TakeHeads(own))
    ensures ExchangeOk(Apply(w, TakeHeads(own), sign))
  {
    var e := w.exchange.value;
    AnswerIsAgreement(own, e.frozen);
    var answer := Answer(own, e.frozen).value;
    StoredAnswerOk(w, e, own, answer);
    AnsweredKeeps(w, Stored(w, e.connectorIsA, answer), e, answer);
  }

  /** Every step keeps the exchange in order. */
  lemma ExchangeKeeps(w: World, act: Action, sign: Signer)
    requires ExchangeOk(w) && Enabled(w, act)
    ensures ExchangeOk(Apply(w, act, sign))
  {
    if act.TakeHeads? {
      TakeKeeps(w, act.own, sign);
    } else if w.exchange.Some? && !act.Abandon? && !act.StoreAnswer? {
      OtherKeeps(w, act, sign);
    }
  }

  lemma OtherKeeps(w: World, act: Action, sign: Signer)
    requires ExchangeOk(w) && Enabled(w, act) && w.exchange.Some?
    requires !act.TakeHeads? && !act.Abandon? && !act.StoreAnswer?
    ensures ExchangeOk(Apply(w, act, sign))
  {
    var w' := Apply(w, act, sign);
    AlikeKeeps(w, w', w.exchange.value, w'.exchange.value);
  }

  lemma {:induction false} ExchangeHolds(w: World, acts: seq<Action>, sign: Signer)
    requires ExchangeOk(w) && Runs(w, acts, sign)
    ensures ExchangeOk(After(w, acts, sign))
    decreases |acts|
  {
    if acts != [] {
      ExchangeKeeps(w, acts[0], sign);
      ExchangeHolds(Apply(w, acts[0], sign), acts[1..], sign);
    }
  }

  /** In every reachable world the connector can answer the heads it was offered, and the
      responder accepts the answer. */
  lemma HeadsAreNeverRefused(w: World, acts: seq<Action>, sign: Signer, own: seq<Record>)
    requires Init(w) && Runs(w, acts, sign) && After(w, acts, sign).exchange.Some?
    requires Lists(own, At(After(w, acts, sign), After(w, acts, sign).exchange.value.connectorIsA).records)
    ensures var e := After(w, acts, sign).exchange.value;
            && Answer(own, e.frozen).Some?
            && (e.answer.Some? ==> Heads.ValidateAckHeads(e.frozen, e.answer.value))
  {
    ExchangeHolds(w, acts, sign);
    AnswerIsAgreement(own, After(w, acts, sign).exchange.value.frozen);
  }

  // ---------------------------------------------------------------- when a base was held

  /** Since its offer an exchange has been in progress. */
  ghost predicate InProgress(w: World, acts: seq<Action>, sign: Signer, m: nat, connectorIsA: bool)
  {
    forall k :: m <= k <= |acts| ==>
      && Runs(w, acts[..k], sign) && After(w, acts[..k], sign).exchange.Some?
      && After(w, acts[..k], sign).exchange.value.connectorIsA == connectorIsA
  }

  /** The exchange in progress was offered, at some moment, from the records then held. */
  lemma {:induction false} OfferedAt(w: World, acts: seq<Action>, sign: Signer) returns (m: nat)
    requires w.exchange.None? && Runs(w, acts, sign) && After(w, acts, sign).exchange.Some?
    ensures m <= |acts| && Runs(w, acts[..m], sign)
    ensures var e := After(w, acts, sign).exchange.value;
            && Lists(e.frozen, At(After(w, acts[..m], sign), !e.connectorIsA).records)
            && InProgress(w, acts, sign, m, e.connectorIsA)
    decreases |acts|
  {
    RunLast(w, acts, sign);
    var n := |acts| - 1;
    assert acts[..|acts|] == acts;
    if acts[n].Offer? {
      m := |acts|;
    } else {
      m := OfferedAt(w, acts[..n], sign);
      assert acts[..n][..m] == acts[..m];
      GoesOn(w, acts, sign, m);
    }
  }

  lemma GoesOn(w: World, acts: seq<Action>, sign: Signer, m: nat)
    requires Runs(w, acts, sign) && acts != [] && After(w, acts, sign).exchange.Some?
    requires InProgress(w, acts[..|acts| - 1], sign, m, After(w, acts, sign).exchange.value.connectorIsA)
    ensures InProgress(w, acts, sign, m, After(w, acts, sign).exchange.value.connectorIsA)
  {
    var n := |acts| - 1;
    assert acts[..|acts|] == acts;
    forall k | m <= k <= n
      ensures acts[..n][..k] == acts[..k]
    {
    }
  }

  lemma StoredFrom(w: World, atA: bool, shared: seq<Record>, path: Path, base: BaseVersion) returns (v: Version)
    requires (path, base) !in w.acked && (path, base) in Stored(w, atA, shared).acked
    ensures v.AsBase() == Some(base) && Has(w, atA, path, v) && Record(path, v) in shared
  {
    v := At(w, atA).records[path];
  }

  /** A step that stores a base for the first time is the connector's. */
  lemma NewBase(w: World, act: Action, sign: Signer, path: Path, base: BaseVersion) returns (v: Version)
    requires ExchangeOk(w) && Enabled(w, act)
    requires (path, base) !in w.acked && (path, base) in Apply(w, act, sign).acked
    ensures act.TakeHeads? && v.AsBase() == Some(base)
    ensures var e := w.exchange.value;
            && Record(path, v) in e.frozen && Has(w, e.connectorIsA, path, v)
            && (!e.left ==> Has(w, !e.connectorIsA, path, v))
  {
    if act.StoreAnswer? {
      NothingNew(w, sign);
    }
    assert act.TakeHeads?;
    var e := w.exchange.value;
    AnswerIsAgreement(act.own, e.frozen);
    v := StoredFrom(w, e.connectorIsA, Answer(act.own, e.frozen).value, path, base);
  }

  /** The responder stores only what the connector has stored already. */
  lemma NothingNew(w: World, sign: Signer)
    requires ExchangeOk(w) && Enabled(w, StoreAnswer)
    ensures Apply(w, StoreAnswer, sign).acked == w.acked
  {
    var e := w.exchange.value;
    var records := At(w, !e.connectorIsA).records;
    var heads := HeadsFrom(records, e.answer.value);
    forall p | p in heads
      ensures (p, heads[p]) in w.acked
    {
      assert Record(p, records[p]) in e.answer.value;
    }
  }

  /** A step by which a responder that has stopped waiting scans, installs or drops the
      path, and with it gives up the version. */
  ghost predicate Takes(w: World, act: Action, sign: Signer, atA: bool, path: Path, v: Version)
    requires Enabled(w, act)
  {
    && Has(w, atA, path, v) && !Has(Apply(w, act, sign), atA, path, v)
    && w.exchange.Some? && w.exchange.value.left && w.exchange.value.connectorIsA != atA
    && ((act.Scan? && act.atA == atA && act.path == path)
        || (act.Install? && act.atA == atA && act.path == path)
        || (act.Drop? && act.atA == atA && act.path == path))
  }

  /** After the offer such a step was made, and the version never came back. */
  ghost predicate TakenAway(w: World, acts: seq<Action>, sign: Signer, atA: bool, path: Path, v: Version, m: nat)
  {
    exists k :: m <= k < |acts| && TakenFor(w, acts, sign, atA, path, v, k)
  }

  ghost predicate TakenFor(w: World, acts: seq<Action>, sign: Signer, atA: bool, path: Path, v: Version, k: nat)
    requires k < |acts|
  {
    && Runs(w, acts[..k], sign) && Enabled(After(w, acts[..k], sign), acts[k])
    && Takes(After(w, acts[..k], sign), acts[k], sign, atA, path, v)
    && forall i :: k < i <= |acts| ==> Runs(w, acts[..i], sign) && !Has(After(w, acts[..i], sign), atA, path, v)
  }

  /** Records change at a path only by a scan, an install or a drop there. */
  lemma OnlyThese(w: World, act: Action, sign: Signer, atA: bool, path: Path, v: Version)
    requires Enabled(w, act) && Has(w, atA, path, v) && !Has(Apply(w, act, sign), atA, path, v)
    requires w.exchange.Some? && w.exchange.value.connectorIsA != atA
    ensures Takes(w, act, sign, atA, path, v)
  {
  }

  /** The last moment since the offer at which the version was held. */
  lemma {:induction false} LastHeld(w: World, acts: seq<Action>, sign: Signer, atA: bool, path: Path, v: Version, m: nat)
    returns (k: nat)
    requires Runs(w, acts, sign) && m <= |acts| && Runs(w, acts[..m], sign) && Has(After(w, acts[..m], sign), atA, path, v)
    requires !Has(After(w, acts, sign), atA, path, v)
    ensures m <= k < |acts| && Runs(w, acts[..k], sign) && Has(After(w, acts[..k], sign), atA, path, v)
    ensures forall i :: k < i <= |acts| ==> Runs(w, acts[..i], sign) && !Has(After(w, acts[..i], sign), atA, path, v)
    decreases |acts|
  {
    RunLast(w, acts, sign);
    var n := |acts| - 1;
    assert acts[..|acts|] == acts;
    if Has(After(w, acts[..n], sign), atA, path, v) {
      k := n;
    } else {
      assert acts[..n][..m] == acts[..m];
      k := LastHeld(w, acts[..n], sign, atA, path, v, m);
      forall i | k <= i <= n
        ensures acts[..n][..i] == acts[..i]
      {
      }
    }
  }

  lemma TakenAfterLeave(w: World, acts: seq<Action>, sign: Signer, connectorIsA: bool, path: Path, v: Version, k: nat)
    requires Runs(w, acts, sign) && k < |acts| && InProgress(w, acts, sign, k, connectorIsA)
    requires Runs(w, acts[..k], sign) && Has(After(w, acts[..k], sign), !connectorIsA, path, v)
    requires forall i :: k < i <= |acts| ==> Runs(w, acts[..i], sign) && !Has(After(w, acts[..i], sign), !connectorIsA, path, v)
    ensures TakenFor(w, acts, sign, !connectorIsA, path, v, k)
  {
    RunPrefix(w, acts, k, sign);
    RunSnoc(w, acts[..k], acts[k], sign);
    assert acts[..k] + [acts[k]] == acts[..k + 1];
    assert !Has(After(w, acts[..k + 1], sign), !connectorIsA, path, v);
    OnlyThese(After(w, acts[..k], sign), acts[k], sign, !connectorIsA, path, v);
  }

  /** What the responder offered it still holds, unless it was taken away. */
  lemma OfferedIsHeldIff(w: World, acts: seq<Action>, sign: Signer, connectorIsA: bool, path: Path, v: Version, m: nat)
    requires Runs(w, acts, sign) && m <= |acts| && InProgress(w, acts, sign, m, connectorIsA)
    requires Runs(w, acts[..m], sign) && Has(After(w, acts[..m], sign), !connectorIsA, path, v)
    ensures Has(After(w, acts, sign), !connectorIsA, path, v) <==> !TakenAway(w, acts, sign, !connectorIsA, path, v, m)
  {
    assert acts[..|acts|] == acts;
    if !Has(After(w, acts, sign), !connectorIsA, path, v) {
      var k := LastHeld(w, acts, sign, !connectorIsA, path, v, m);
      assert InProgress(w, acts, sign, k, connectorIsA);
      TakenAfterLeave(w, acts, sign, connectorIsA, path, v, k);
    }
  }

  lemma NewBaseAt(w: World, acts: seq<Action>, act: Action, sign: Signer, path: Path, base: BaseVersion)
    returns (m: nat, connectorIsA: bool, v: Version)
    requires Init(w) && Runs(w, acts, sign) && Enabled(After(w, acts, sign), act)
    requires (path, base) !in After(w, acts, sign).acked && (path, base) in Apply(After(w, acts, sign), act, sign).acked
    ensures m <= |acts| && Runs(w, acts[..m], sign) && v.AsBase() == Some(base)
    ensures Has(After(w, acts[..m], sign), !connectorIsA, path, v) && Has(After(w, acts, sign), connectorIsA, path, v)
    ensures Busy(After(w, acts, sign), !connectorIsA) ==> Has(After(w, acts, sign), !connectorIsA, path, v)
    ensures InProgress(w, acts, sign, m, connectorIsA)
  {
    ExchangeHolds(w, acts, sign);
    v := NewBase(After(w, acts, sign), act, sign, path, base);
    connectorIsA := After(w, acts, sign).exchange.value.connectorIsA;
    m := OfferedAt(w, acts, sign);
  }

  /** Every base a replica ever stored is a version that the responder held when it
      offered its heads and the connector held when it answered. Both held it at the
      answer if the responder was still waiting, and otherwise unless it had left and then
      scanned, installed or dropped that path, and the version did not come back. */
  lemma {:induction false} AckedWasHeld(w: World, acts: seq<Action>, sign: Signer, path: Path, base: BaseVersion)
    returns (m: nat, n: nat, connectorIsA: bool, v: Version)
    requires Init(w) && Runs(w, acts, sign) && (path, base) in After(w, acts, sign).acked
    ensures m <= n < |acts| && Runs(w, acts[..m], sign) && Runs(w, acts[..n], sign) && v.AsBase() == Some(base)
    ensures Has(After(w, acts[..m], sign), !connectorIsA, path, v)
    ensures Has(After(w, acts[..n], sign), connectorIsA, path, v)
    ensures Busy(After(w, acts[..n], sign), !connectorIsA) ==> Has(After(w, acts[..n], sign), !connectorIsA, path, v)
    ensures Has(After(w, acts[..n], sign), !connectorIsA, path, v)
            <==> !TakenAway(w, acts[..n], sign, !connectorIsA, path, v, m)
    decreases |acts|
  {
    RunLast(w, acts, sign);
    var k := |acts| - 1;
    var last := After(w, acts[..k], sign);
    if (path, base) in last.acked {
      m, n, connectorIsA, v := AckedWasHeld(w, acts[..k], sign, path, base);
      assert acts[..k][..m] == acts[..m] && acts[..k][..n] == acts[..n];
    } else {
      m, connectorIsA, v := NewBaseAt(w, acts[..k], acts[k], sign, path, base);
      OfferedIsHeldIff(w, acts[..k], sign, connectorIsA, path, v, m);
      n := k;
      assert acts[..k][..m] == acts[..m];
    }
  }

  ghost predicate HeldByBoth(w: World, shared: seq<Record>)
  {
    forall r :: r in shared ==> Has(w, true, r.path, r.version) && Has(w, false, r.path, r.version)
  }

  /** While the responder waits, everything in the answer was held by both replicas at
      the moment the connector answered. */
  lemma {:induction false} AnsweredAt(w: World, acts: seq<Action>, sign: Signer) returns (n: nat)
    requires Init(w) && Runs(w, acts, sign)
    requires var e := After(w, acts, sign).exchange; e.Some? && e.value.answer.Some? && !e.value.left
    ensures n < |acts| && Runs(w, acts[..n], sign)
    ensures HeldByBoth(After(w, acts[..n], sign), After(w, acts, sign).exchange.value.answer.value)
    decreases |acts|
  {
    RunLast(w, acts, sign);
    var k := |acts| - 1;
    var last := After(w, acts[..k], sign);
    if acts[k].TakeHeads? {
      n := k;
      ExchangeHolds(w, acts[..k], sign);
      AnswerIsAgreement(acts[k].own, last.exchange.value.frozen);
    } else {
      n := AnsweredAt(w, acts[..k], sign);
      assert acts[..k][..n] == acts[..n];
    }
  }

  lemma SameBases(x: map<Path, BaseVersion>, y: map<Path, BaseVersion>, shared: seq<Record>)
    requires BasesOf(x, shared) && BasesOf(y, shared)
    ensures x == y
  {
  }

  /** A finished exchange leaves both replicas with the same heads, and there was one
      moment at which both held the version of every one of them. */
  lemma FinishedExchangeAgrees(w: World, acts: seq<Action>, sign: Signer) returns (n: nat)
    requires Init(w) && Runs(w, acts, sign) && Enabled(After(w, acts, sign), StoreAnswer)
    ensures var end := Apply(After(w, acts, sign), StoreAnswer, sign);
            var shared := After(w, acts, sign).exchange.value.answer.value;
            && end.a.heads == end.b.heads && BasesOf(end.a.heads, shared)
            && n < |acts| && Runs(w, acts[..n], sign) && HeldByBoth(After(w, acts[..n], sign), shared)
  {
    var now := After(w, acts, sign);
    var e := now.exchange.value;
    n := AnsweredAt(w, acts, sign);
    ExchangeHolds(w, acts, sign);
    StoresAll(now, !e.connectorIsA, e.answer.value);
    SameBases(Apply(now, StoreAnswer, sign).a.heads, Apply(now, StoreAnswer, sign).b.heads, e.answer.value);
  }

  // ---------------------------------------------------------------- a base never held together

  predicate Together(w: World, path: Path, base: BaseVersion)
  {
    && path in w.a.records && path in w.b.records
    && w.a.records[path].AsBase() == Some(base) && w.b.records[path].AsBase() == Some(base)
  }

  /** A run that stores a base though no moment finds it at both replicas. */
  ghost predicate StoredApart(w: World, acts: seq<Action>, sign: Signer, path: Path, base: BaseVersion)
  {
    && Init(w) && Signs(sign) && Runs(w, acts, sign) && (path, base) in After(w, acts, sign).acked
    && forall n :: 0 <= n <= |acts| ==> Runs(w, acts[..n], sign) && !Together(After(w, acts[..n], sign), path, base)
  }

  /** Step by step, never together up to `end`. */
  ghost predicate ApartUntil(w: World, acts: seq<Action>, sign: Signer, path: Path, base: BaseVersion, end: World)
    decreases |acts|
  {
    && !Together(w, path, base)
    && if acts == [] then w == end
       else Enabled(w, acts[0]) && ApartUntil(Apply(w, acts[0], sign), acts[1..], sign, path, base, end)
  }

  lemma {:induction false} ApartThroughout(w: World, acts: seq<Action>, sign: Signer, path: Path, base: BaseVersion, end: World)
    requires ApartUntil(w, acts, sign, path, base, end)
    ensures Runs(w, acts, sign) && After(w, acts, sign) == end
    ensures forall n :: 0 <= n <= |acts| ==> Runs(w, acts[..n], sign) && !Together(After(w, acts[..n], sign), path, base)
    decreases |acts|
  {
    if acts != [] {
      var next := Apply(w, acts[0], sign);
      ApartThroughout(next, acts[1..], sign, path, base, end);
      forall n | 0 <= n <= |acts|
        ensures Runs(w, acts[..n], sign) && !Together(After(w, acts[..n], sign), path, base)
      {
        if n > 0 {
          assert acts[..n][0] == acts[0] && acts[..n][1..] == acts[1..][..n - 1];
          assert !Together(After(next, acts[1..][..n - 1], sign), path, base);
        }
      }
    }
  }

  lemma {:induction false} ApartJoins(w: World, x: seq<Action>, y: seq<Action>, sign: Signer, path: Path, base: BaseVersion,
                                      mid: World, end: World)
    requires ApartUntil(w, x, sign, path, base, mid) && ApartUntil(mid, y, sign, path, base, end)
    ensures ApartUntil(w, x + y, sign, path, base, end)
    decreases |x|
  {
    if x == [] {
      assert x + y == y;
    } else {
      ApartJoins(Apply(w, x[0], sign), x[1..], y, sign, path, base, mid, end);
      assert (x + y)[0] == x[0] && (x + y)[1..] == x[1..] + y;
    }
  }

  lemma ApartStep(w: World, act: Action, sign: Signer, path: Path, base: BaseVersion, next: World)
    requires Enabled(w, act) && Apply(w, act, sign) == next && !Together(w, path, base) && !Together(next, path, base)
    ensures ApartUntil(w, [act], sign, path, base, next)
  {
    assert [act][1..] == [];
    assert ApartUntil(next, [], sign, path, base, next);
  }

  /** The responder gives up waiting and its user replaces the file, while the connector
      still installs the offered version and stores it: a base that no single moment
      found at both replicas. */
  lemma BaseCanBeStoredApart()
    ensures exists w: World, acts: seq<Action>, sign: Signer, path: Path, base: BaseVersion :: StoredApart(w, acts, sign, path, base)
  {
    var sign := SomeSigner([0]);
    var path: Path := [1];
    var w := World(Replica([0], 0, map[], map[]), Replica([1], 0, map[], map[]), None, None, map[], 0, {});
    var first := File([1], 1, false);
    var v := sign(Record(path, ScannedVersion([1], None, None, first, 0, 1))).version;
    var base := v.AsBase().value;
    var offered, xs := Offering(w, sign, path, first, v);
    var end, ys := Parting(offered, sign, path, v);
    ApartJoins(w, xs, ys, sign, path, base, offered, end);
    ApartThroughout(w, xs + ys, sign, path, base, end);
    assert StoredApart(w, xs + ys, sign, path, base);
  }

  /** The responder records a file, and offers it at the end of a round that brings it over. */
  lemma Offering(w: World, sign: Signer, path: Path, file: Entry, v: Version) returns (end: World, acts: seq<Action>)
    requires w == World(Replica([0], 0, map[], map[]), Replica([1], 0, map[], map[]), None, None, map[], 0, {})
    requires Signs(sign) && file.File? && v == sign(Record(path, ScannedVersion([1], None, None, file, 0, 1))).version
    ensures ApartUntil(w, acts, sign, path, v.AsBase().value, end)
    ensures end.a == w.a && end.b == Replica([1], 1, map[path := v], map[])
    ensures end.round == Some(Round(true, map[], map[path := v], map[path := v]))
    ensures end.exchange == Some(Exchange(true, [Record(path, v)], None, false))
  {
    var base := v.AsBase().value;
    var scan := Action.Scan(false, path, file, 0, 1);
    var w1 := Issued(w, false, path, v).(b := Replica([1], 1, map[path := v], map[]));
    ApartStep(w, scan, sign, path, base, w1);
    var w2 := w1.(round := Some(Round(true, map[], map[path := v], map[])));
    ApartStep(w1, Begin(true), sign, path, base, w2);
    var w3 := w1.(round := Some(Round(true, map[], map[path := v], map[path := v])));
    ApartStep(w2, PlanPath(path, None, 1), sign, path, base, w3);
    var offer := Offer(true, [Record(path, v)]);
    end := w3.(exchange := Some(Exchange(true, [Record(path, v)], None, false)));
    ApartStep(w3, offer, sign, path, base, end);
    ApartJoins(w, [scan], [Begin(true)], sign, path, base, w1, w2);
    ApartJoins(w, [scan] + [Begin(true)], [PlanPath(path, None, 1)], sign, path, base, w2, w3);
    acts := [scan] + [Begin(true)] + [PlanPath(path, None, 1)] + [offer];
    ApartJoins(w, [scan] + [Begin(true)] + [PlanPath(path, None, 1)], [offer], sign, path, base, w3, end);
  }

  lemma OneRecord(path: Path, v: Version)
    ensures Lists([Record(path, v)], map[path := v])
    ensures v.entry.File? ==> Answer([Record(path, v)], [Record(path, v)]).Some?
                              && Record(path, v) in Answer([Record(path, v)], [Record(path, v)]).value
  {
    AnswerIsAgreement([Record(path, v)], [Record(path, v)]);
  }

  /** The responder leaves and records a change; the connector installs and stores. */
  lemma Parting(w: World, sign: Signer, path: Path, v: Version) returns (end: World, acts: seq<Action>)
    requires Signs(sign) && v.entry.File?
    requires w.a == Replica([0], 0, map[], map[]) && w.b == Replica([1], 1, map[path := v], map[])
    requires w.round == Some(Round(true, map[], map[path := v], map[path := v]))
    requires w.exchange == Some(Exchange(true, [Record(path, v)], None, false))
    ensures ApartUntil(w, acts, sign, path, v.AsBase().value, end)
    ensures (path, v.AsBase().value) in end.acked
  {
    var base := v.AsBase().value;
    var w1 := w.(exchange := Some(w.exchange.value.(left := true)));
    ApartStep(w, Leave, sign, path, base, w1);
    var edit := Action.Scan(false, path, Directory, 0, 2);
    Edited(w1, edit, sign, path, v);
    var w2 := Apply(w1, edit, sign);
    ApartStep(w1, edit, sign, path, base, w2);
    ApartJoins(w, [Leave], [edit], sign, path, base, w1, w2);
    var rest;
    end, rest := StoringLate(w2, sign, path, v);
    acts := [Leave] + [edit] + rest;
    ApartJoins(w, [Leave] + [edit], rest, sign, path, base, w2, end);
  }

  lemma StoringLate(w: World, sign: Signer, path: Path, v: Version) returns (end: World, acts: seq<Action>)
    requires v.entry.File? && w.a == Replica([0], 0, map[], map[])
    requires path in w.b.records && w.b.records[path].AsBase() == None
    requires w.round == Some(Round(true, map[], map[path := v], map[path := v]))
    requires w.exchange == Some(Exchange(true, [Record(path, v)], None, true))
    ensures ApartUntil(w, acts, sign, path, v.AsBase().value, end)
    ensures (path, v.AsBase().value) in end.acked
  {
    var base := v.AsBase().value;
    var install := Action.Install(true, path);
    var next := w.(a := w.a.(records := map[path := v]));
    ApartStep(w, install, sign, path, base, next);
    var take := TakeHeads([Record(path, v)]);
    OneRecord(path, v);
    end := Apply(next, take, sign);
    var shared := Answer([Record(path, v)], [Record(path, v)]).value;
    assert path in HeadsFrom(map[path := v], shared);
    assert end.acked == next.acked + set p | p in HeadsFrom(map[path := v], shared) :: (p, HeadsFrom(map[path := v], shared)[p]);
    ApartStep(next, take, sign, path, base, end);
    acts := [install] + [take];
    ApartJoins(w, [install], [take], sign, path, base, next, end);
  }

  lemma Edited(w: World, act: Action, sign: Signer, path: Path, v: Version)
    requires Signs(sign) && v.entry.File? && w.b == Replica([1], 1, map[path := v], map[]) && !Busy(w, false)
    requires act == Action.Scan(false, path, Directory, 0, 2)
    ensures Enabled(w, act)
    ensures var w' := Apply(w, act, sign);
            && w'.a == w.a && w'.exchange == w.exchange && w'.round == w.round
            && path in w'.b.records && w'.b.records[path].AsBase() == None
  {
  }
}
