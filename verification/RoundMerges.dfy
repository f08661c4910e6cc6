/** What the outcomes of a round are, candidate by candidate: an accepted one is the merge
    of the bytes that base, winner and loser name, in which the winner takes the overlaps;
    a refused one is refused for a reason that holds, and for the budget exactly when it
    would not fit into what the earlier ones left (src/sync.rs:3065-3131). */
module RoundMerges {
  import opened Utils
  import opened Bytes
  import opened Model
  import opened Reconcile
  import opened Versions
  import opened Merge
  import opened RoundBudget
  import opened Materialize
  import MergeLaws
  import ThreeWay

  /** The three files of a candidate are in the store. */
  predicate Readable(env: Env, c: MergeCandidate)
  {
    && c.base.entry.File? && c.winner.version.entry.File? && c.loser.version.entry.File?
    && c.base.entry.hash in env.store && c.winner.version.entry.hash in env.store && c.loser.version.entry.hash in env.store
  }

  function BytesOf(env: Env, e: Entry): seq<Byte>
    requires e.File? && e.hash in env.store
  {
    env.store[e.hash]
  }

  /** The merge a candidate asks for: the winner is the first side and wins. */
  function Asked(env: Env, c: MergeCandidate, diff: Differ, utf8: ThreeWay.Utf8): Outcome<MergeResult>
    requires Readable(env, c) && GoodDiff(diff)
  {
    ThreeWay.MergeOf(BytesOf(env, c.base.entry), BytesOf(env, c.winner.version.entry), BytesOf(env, c.loser.version.entry),
                     true, diff, utf8)
  }

  function AskedWork(env: Env, c: MergeCandidate, utf8: ThreeWay.Utf8): Outcome<nat>
    requires Readable(env, c)
  {
    ThreeWay.WorkOf(BytesOf(env, c.base.entry), BytesOf(env, c.winner.version.entry), BytesOf(env, c.loser.version.entry), utf8)
  }

  predicate Large(c: MergeCandidate)
  {
    && c.base.entry.File? && c.winner.version.entry.File? && c.loser.version.entry.File?
    && (c.base.entry.size > MAX_INPUT_BYTES || c.winner.version.entry.size > MAX_INPUT_BYTES
        || c.loser.version.entry.size > MAX_INPUT_BYTES)
  }

  /** What an outcome says is so. */
  ghost predicate OutcomeIsTrue(env: Env, c: MergeCandidate, o: Outcome<ComputedMerge>, diff: Differ, utf8: ThreeWay.Utf8)
    requires GoodDiff(diff)
  {
    match o
    case Success(m) =>
      && !Large(c) && Readable(env, c) && Asked(env, c, diff, utf8) == Success(MergeResult(m.bytes, m.hunks))
      && m.hash == env.hash(m.bytes) && m.executable == c.winner.version.entry.executable
    case Failure(RoundMergeBudget) => true
    case Failure(reason) =>
      if Large(c) then reason == InputBytes else Readable(env, c) && Asked(env, c, diff, utf8) == Failure(reason)
  }

  lemma StepIsTrue(env: Env, c: MergeCandidate, k: nat, b: Budget, diff: Differ, utf8: ThreeWay.Utf8)
    requires Faithful(env, diff, utf8) && StepOutcome(env, c, k, b).Done?
    ensures OutcomeIsTrue(env, c, StepOutcome(env, c, k, b).value.1, diff, utf8)
  {
    if Readable(env, c) {
      var base, w, l := BytesOf(env, c.base.entry), BytesOf(env, c.winner.version.entry), BytesOf(env, c.loser.version.entry);
      assert env.work(base, w, l) == ThreeWay.WorkOf(base, w, l, utf8);
      assert env.merge(base, w, l) == ThreeWay.MergeOf(base, w, l, true, diff, utf8);
    }
  }

  lemma {:induction false} FromAreTrue(env: Env, cs: seq<MergeCandidate>, k: nat, b: Budget, diff: Differ, utf8: ThreeWay.Utf8)
    requires k <= |cs| && Faithful(env, diff, utf8) && OutcomesFrom(env, cs, k, b).Done?
    ensures var r := OutcomesFrom(env, cs, k, b).value;
            forall i :: 0 <= i < |r| ==> OutcomeIsTrue(env, cs[k + i], r[i], diff, utf8)
    decreases |cs| - k
  {
    if k < |cs| {
      StepIsTrue(env, cs[k], k, b, diff, utf8);
      FromAreTrue(env, cs, k + 1, StepOutcome(env, cs[k], k, b).value.0, diff, utf8);
    }
  }

  /** Every outcome of a round is true. */
  lemma OutcomesAreTrue(env: Env, cs: seq<MergeCandidate>, diff: Differ, utf8: ThreeWay.Utf8)
    requires Faithful(env, diff, utf8) && Outcomes(env, cs).Done?
    ensures var r := Outcomes(env, cs).value;
            forall k :: 0 <= k < |r| ==> OutcomeIsTrue(env, cs[k], r[k], diff, utf8)
  {
    FromAreTrue(env, cs, 0, Budget(0, 0, 0, false), diff, utf8);
  }

  /** So an accepted merge is, cell by cell, the side that changed it, and the winner's text
      where both did, with the winner's lines as the first column of the hunk. */
  lemma AcceptedComesTo(env: Env, c: MergeCandidate, m: ComputedMerge, diff: Differ, utf8: ThreeWay.Utf8)
    returns (texts: seq<seq<Byte>>)
    requires GoodDiff(diff) && OutcomeIsTrue(env, c, Success(m), diff, utf8)
    ensures Readable(env, c)
    ensures var cells := ThreeWay.CellsOf(BytesOf(env, c.base.entry), BytesOf(env, c.winner.version.entry),
                                          BytesOf(env, c.loser.version.entry), diff);
            && |texts| == |cells| && m.bytes == ThreeWay.Joined(texts) && ThreeWay.HunksMatch(cells, m.hunks)
            && forall k :: 0 <= k < |cells| ==> ThreeWay.ComesTo(cells[k], texts[k], true)
  {
    texts := ThreeWay.MergeComesTo(BytesOf(env, c.base.entry), BytesOf(env, c.winner.version.entry),
                                   BytesOf(env, c.loser.version.entry), true, diff, utf8);
  }

  // ---------------------------------------------------------------- refusals for the budget

  /** The comparison work a candidate takes, when it is read and within the limit of one merge. */
  function WorkTaken(env: Env, c: MergeCandidate, utf8: ThreeWay.Utf8): nat
  {
    if !Large(c) && Readable(env, c) && AskedWork(env, c, utf8).Success? && AskedWork(env, c, utf8).value <= MAX_WORK
    then AskedWork(env, c, utf8).value else 0
  }

  /** The work taken by candidates that were not refused. */
  function WorkSpent(env: Env, cs: seq<MergeCandidate>, utf8: ThreeWay.Utf8): nat
  {
    if cs == [] then 0 else WorkTaken(env, cs[0], utf8) + WorkSpent(env, cs[1..], utf8)
  }

  predicate NoneRefused(outcomes: seq<Outcome<ComputedMerge>>)
  {
    forall k :: 0 <= k < |outcomes| ==> outcomes[k] != Failure(RoundMergeBudget)
  }

  /** What the budget has become after so many outcomes, none of them a refusal. */
  function Left(env: Env, cs: seq<MergeCandidate>, outcomes: seq<Outcome<ComputedMerge>>, b: Budget, utf8: ThreeWay.Utf8): Budget
  {
    Budget(b.work + WorkSpent(env, cs, utf8), b.hunks + TotalHunks(outcomes), b.output + TotalBytes(outcomes), false)
  }

  function HunksOf(o: Outcome<ComputedMerge>): nat { if o.Success? then |o.value.hunks| else 0 }

  function SizeOf(o: Outcome<ComputedMerge>): nat { if o.Success? then |o.value.bytes| else 0 }

  /** One candidate that is not refused. */
  lemma StepLeaves(env: Env, c: MergeCandidate, k: nat, b: Budget, diff: Differ, utf8: ThreeWay.Utf8)
    requires Faithful(env, diff, utf8) && !b.exhausted && StepOutcome(env, c, k, b).Done?
    requires StepOutcome(env, c, k, b).value.1 != Failure(RoundMergeBudget)
    ensures var (after, o) := StepOutcome(env, c, k, b).value;
            after == Budget(b.work + WorkTaken(env, c, utf8), b.hunks + HunksOf(o), b.output + SizeOf(o), false)
  {
    if Readable(env, c) {
      var base, w, l := BytesOf(env, c.base.entry), BytesOf(env, c.winner.version.entry), BytesOf(env, c.loser.version.entry);
      assert CandidateWork(env, c) == env.work(base, w, l) == ThreeWay.WorkOf(base, w, l, utf8) == AskedWork(env, c, utf8);
    }
  }

  lemma LeftCons(env: Env, c: MergeCandidate, cs: seq<MergeCandidate>, o: Outcome<ComputedMerge>,
                 os: seq<Outcome<ComputedMerge>>, b: Budget, utf8: ThreeWay.Utf8)
    ensures Left(env, [c] + cs, [o] + os, b, utf8)
            == Left(env, cs, os, Budget(b.work + WorkTaken(env, c, utf8), b.hunks + HunksOf(o), b.output + SizeOf(o), false), utf8)
  {
    assert ([c] + cs)[1..] == cs && ([o] + os)[1..] == os;
    assert WorkSpent(env, [c] + cs, utf8) == WorkTaken(env, c, utf8) + WorkSpent(env, cs, utf8);
    assert TotalHunks([o] + os) == HunksOf(o) + TotalHunks(os);
    assert TotalBytes([o] + os) == SizeOf(o) + TotalBytes(os);
  }

  lemma NoneRefusedTail(o: Outcome<ComputedMerge>, os: seq<Outcome<ComputedMerge>>)
    requires NoneRefused([o] + os)
    ensures NoneRefused(os) && o != Failure(RoundMergeBudget)
  {
    assert ([o] + os)[0] == o;
    assert forall k :: 0 <= k < |os| ==> os[k] == ([o] + os)[k + 1];
  }

  lemma OutcomesCons(env: Env, cs: seq<MergeCandidate>, k: nat, b: Budget)
    requires k < |cs| && OutcomesFrom(env, cs, k, b).Done?
    ensures var step := StepOutcome(env, cs[k], k, b);
            && step.Done? && OutcomesFrom(env, cs, k + 1, step.value.0).Done?
            && OutcomesFrom(env, cs, k, b).value == [step.value.1] + OutcomesFrom(env, cs, k + 1, step.value.0).value
  {
  }

  /** One outcome further, from what it left. */
  lemma StepOn(env: Env, cs: seq<MergeCandidate>, k: nat, b: Budget, r: seq<Outcome<ComputedMerge>>, diff: Differ,
               utf8: ThreeWay.Utf8)
    requires k < |cs| && Faithful(env, diff, utf8) && !b.exhausted && OutcomesFrom(env, cs, k, b) == Done(r)
    requires r != [] && r[0] != Failure(RoundMergeBudget)
    ensures OutcomesFrom(env, cs, k + 1, Left(env, [cs[k]], [r[0]], b, utf8)) == Done(r[1..])
  {
    var after := FirstStep(env, cs, k, b, r);
    StepAfter(env, cs[k], k, b, after, r[0], diff, utf8);
  }

  lemma FirstStep(env: Env, cs: seq<MergeCandidate>, k: nat, b: Budget, r: seq<Outcome<ComputedMerge>>) returns (after: Budget)
    requires k < |cs| && OutcomesFrom(env, cs, k, b) == Done(r)
    ensures r != [] && StepOutcome(env, cs[k], k, b) == Done((after, r[0])) && OutcomesFrom(env, cs, k + 1, after) == Done(r[1..])
  {
    OutcomesCons(env, cs, k, b);
    after := StepOutcome(env, cs[k], k, b).value.0;
  }

  lemma StepAfter(env: Env, c: MergeCandidate, k: nat, b: Budget, after: Budget, o: Outcome<ComputedMerge>, diff: Differ,
                  utf8: ThreeWay.Utf8)
    requires Faithful(env, diff, utf8) && !b.exhausted && StepOutcome(env, c, k, b) == Done((after, o))
    requires o != Failure(RoundMergeBudget)
    ensures after == Left(env, [c], [o], b, utf8)
  {
    StepLeaves(env, c, k, b, diff, utf8);
    LeftOne(env, c, o, b, utf8);
  }

  lemma LeftOne(env: Env, c: MergeCandidate, o: Outcome<ComputedMerge>, b: Budget, utf8: ThreeWay.Utf8)
    ensures Left(env, [c], [o], b, utf8)
            == Budget(b.work + WorkTaken(env, c, utf8), b.hunks + HunksOf(o), b.output + SizeOf(o), false)
  {
    assert [c] + [] == [c] && [o] + [] == [o];
    LeftCons(env, c, [], o, [], b, utf8);
  }

  lemma LeftTwice(env: Env, c: MergeCandidate, cs: seq<MergeCandidate>, o: Outcome<ComputedMerge>,
                  os: seq<Outcome<ComputedMerge>>, b: Budget, utf8: ThreeWay.Utf8)
    ensures Left(env, cs, os, Left(env, [c], [o], b, utf8), utf8) == Left(env, [c] + cs, [o] + os, b, utf8)
  {
    LeftOne(env, c, o, b, utf8);
    LeftCons(env, c, cs, o, os, b, utf8);
  }

  lemma {:induction false} BudgetAt(env: Env, cs: seq<MergeCandidate>, k: nat, b: Budget, i: nat,
                                    r: seq<Outcome<ComputedMerge>>, diff: Differ, utf8: ThreeWay.Utf8)
    requires k <= i <= |cs| && Faithful(env, diff, utf8) && !b.exhausted && OutcomesFrom(env, cs, k, b) == Done(r)
    requires |r| == |cs| - k && NoneRefused(r[..i - k])
    ensures OutcomesFrom(env, cs, i, Left(env, cs[k..i], r[..i - k], b, utf8)) == Done(r[i - k..])
    decreases i - k
  {
    if k < i {
      var o, rest := r[0], r[1..];
      assert r[..i - k] == [o] + rest[..i - k - 1];
      NoneRefusedTail(o, rest[..i - k - 1]);
      StepOn(env, cs, k, b, r, diff, utf8);
      BudgetAt(env, cs, k + 1, Left(env, [cs[k]], [o], b, utf8), i, rest, diff, utf8);
      assert cs[k..i] == [cs[k]] + cs[k + 1..i] && r[i - k..] == rest[i - k - 1..];
      LeftTwice(env, cs[k], cs[k + 1..i], o, rest[..i - k - 1], b, utf8);
    } else {
      LeftNothing(env, b, utf8);
      assert cs[k..i] == [] && r[..i - k] == [] && r[i - k..] == r;
    }
  }

  lemma LeftNothing(env: Env, b: Budget, utf8: ThreeWay.Utf8)
    requires !b.exhausted
    ensures Left(env, [], [], b, utf8) == b
  {
  }

  /** A candidate does not fit into what is left. */
  ghost predicate TooMuch(env: Env, c: MergeCandidate, index: nat, left: Budget, diff: Differ, utf8: ThreeWay.Utf8)
    requires GoodDiff(diff)
  {
    || index >= MAX_CANDIDATES
    || (&& !Large(c) && Readable(env, c) && AskedWork(env, c, utf8).Success? && AskedWork(env, c, utf8).value <= MAX_WORK
        && (|| left.work + AskedWork(env, c, utf8).value > MAX_ROUND_WORK
            || (&& Asked(env, c, diff, utf8).Success?
                && (|| left.hunks + |Asked(env, c, diff, utf8).value.hunks| > MAX_ROUND_HUNKS
                    || left.output + |Asked(env, c, diff, utf8).value.bytes| > MAX_ROUND_BYTES))))
  }

  lemma StepRefusesIff(env: Env, c: MergeCandidate, k: nat, b: Budget, diff: Differ, utf8: ThreeWay.Utf8)
    requires Faithful(env, diff, utf8) && !b.exhausted && StepOutcome(env, c, k, b).Done?
    ensures StepOutcome(env, c, k, b).value.1 == Failure(RoundMergeBudget) <==> TooMuch(env, c, k, b, diff, utf8)
  {
    if Readable(env, c) {
      var base, w, l := BytesOf(env, c.base.entry), BytesOf(env, c.winner.version.entry), BytesOf(env, c.loser.version.entry);
      assert env.work(base, w, l) == ThreeWay.WorkOf(base, w, l, utf8);
      assert env.merge(base, w, l) == ThreeWay.MergeOf(base, w, l, true, diff, utf8);
      ThreeWay.MergeReasons(base, w, l, true, diff, utf8);
    }
  }

  /** The first refusal for the budget comes exactly where a candidate does not fit into
      what those before it left. */
  lemma RefusedIff(env: Env, cs: seq<MergeCandidate>, k: nat, diff: Differ, utf8: ThreeWay.Utf8)
    requires Faithful(env, diff, utf8) && Outcomes(env, cs).Done? && k < |cs|
    requires NoneRefused(Outcomes(env, cs).value[..k])
    ensures var r := Outcomes(env, cs).value;
            r[k] == Failure(RoundMergeBudget)
            <==> TooMuch(env, cs[k], k, Left(env, cs[..k], r[..k], Budget(0, 0, 0, false), utf8), diff, utf8)
  {
    var start := Budget(0, 0, 0, false);
    var r := Outcomes(env, cs).value;
    BudgetAt(env, cs, 0, start, k, r, diff, utf8);
    assert cs[0..k] == cs[..k];
    var left := Left(env, cs[..k], r[..k], start, utf8);
    OutcomesCons(env, cs, k, left);
    StepRefusesIff(env, cs[k], k, left, diff, utf8);
  }

  lemma {:induction false} ReadableIsComputed(env: Env, cs: seq<MergeCandidate>, k: nat, b: Budget)
    requires k <= |cs| && !b.exhausted && forall i :: k <= i < |cs| && i < MAX_CANDIDATES ==> Large(cs[i]) || Readable(env, cs[i])
    ensures OutcomesFrom(env, cs, k, b).Done?
    decreases |cs| - k
  {
    if k < |cs| {
      var step := StepOutcome(env, cs[k], k, b);
      assert step.Done?;
      if step.value.0.exhausted {
        ExhaustedStays(env, cs, k + 1, step.value.0);
      } else {
        ReadableIsComputed(env, cs, k + 1, step.value.0);
      }
    }
  }

  /** The outcomes of candidates in path order are computed when every one that counts is
      too large or can be read. */
  lemma OutcomesAreComputed(env: Env, cs: seq<MergeCandidate>)
    requires forall i, k :: 0 <= i < k < |cs| ==> Bytes.Less(cs[i].path, cs[k].path)
    requires forall i :: 0 <= i < |cs| && i < MAX_CANDIDATES ==> Large(cs[i]) || Readable(env, cs[i])
    ensures Outcomes(env, cs).Done?
  {
    ReadableIsComputed(env, cs, 0, Budget(0, 0, 0, false));
  }

  // ---------------------------------------------------------------- the record of a merge

  /** The record an accepted merge leaves: the merged bytes under their hash, the winner's
      mode, the later of the two times, the base they share, and the sight of both. */
  lemma MergedRecordIs(env: Env, c: MergeCandidate, m: ComputedMerge, connector: PeerId, sequence: nat, sign: Signer,
                       diff: Differ, utf8: ThreeWay.Utf8)
    requires Signs(sign) && GoodDiff(diff) && OutcomeIsTrue(env, c, Success(m), diff, utf8)
    ensures var r := OutcomeRecord(c, Success(m), connector, sequence, sign);
            var v := r.version;
            && r.path == c.winner.path && v.peer == connector && v.sequence == sequence
            && v.entry == File(env.hash(m.bytes), |m.bytes|, c.winner.version.entry.executable)
            && v.timestamp == Max(c.winner.version.timestamp, c.loser.version.timestamp)
            && v.mergeBase == Some(c.base)
            && v.idAuthenticator.Some? && v.versionAuthenticator.Some? && v.baseAuthenticator.Some?
  {
  }
}
