/** The merges of one round and the budget they share (src/sync.rs:3041-3206). */
module RoundBudget {
  import opened Bytes
  import opened Model
  import opened Reconcile
  import opened Merge
  import ThreeWay

  const MAX_CANDIDATES := 64
  const MAX_ROUND_WORK := 32_000_000
  const MAX_ROUND_HUNKS := 4_096
  const MAX_ROUND_BYTES := 2 * 1024 * 1024

  /** A call that may stop with an error. */
  datatype Try<+T> = Done(value: T) | Bail {
    predicate IsFailure() { Bail? }
    function PropagateFailure<U>(): Try<U> requires Bail? { Bail }
    function Extract(): T requires Done? { value }
  }

  /** What a merge needs from outside: stored objects, the hash, and the three-way
      merge in which the winner takes overlaps. */
  datatype Env = Env(
    store: map<ObjectHash, seq<Byte>>,
    hash: seq<Byte> -> ObjectHash,
    work: (seq<Byte>, seq<Byte>, seq<Byte>) -> Outcome<nat>,
    merge: (seq<Byte>, seq<Byte>, seq<Byte>) -> Outcome<MergeResult>)

  ghost predicate Faithful(env: Env, diff: Differ, utf8: ThreeWay.Utf8)
  {
    && GoodDiff(diff)
    && (forall base, w, l :: env.work(base, w, l) == ThreeWay.WorkOf(base, w, l, utf8))
    && (forall base, w, l :: env.merge(base, w, l) == ThreeWay.MergeOf(base, w, l, true, diff, utf8))
  }

  datatype ComputedMerge = ComputedMerge(bytes: seq<Byte>, hash: ObjectHash, executable: bool, hunks: seq<ConflictHunk>)

  datatype Budget = Budget(work: nat, hunks: nat, output: nat, exhausted: bool)

  predicate CanonicalOrder(cs: seq<MergeCandidate>)
  {
    forall k :: 0 < k < |cs| ==> Bytes.Less(cs[k - 1].path, cs[k].path)
  }

  predicate FilesOnly(c: MergeCandidate)
  {
    c.base.entry.File? && c.winner.version.entry.File? && c.loser.version.entry.File?
  }

  predicate TooLarge(c: MergeCandidate)
    requires FilesOnly(c)
  {
    || c.base.entry.size > MAX_INPUT_BYTES
    || c.winner.version.entry.size > MAX_INPUT_BYTES
    || c.loser.version.entry.size > MAX_INPUT_BYTES
  }

  predicate Stored(env: Env, c: MergeCandidate)
    requires FilesOnly(c)
  {
    && c.base.entry.hash in env.store
    && c.winner.version.entry.hash in env.store
    && c.loser.version.entry.hash in env.store
  }

  function CandidateWork(env: Env, c: MergeCandidate): Outcome<nat>
    requires FilesOnly(c) && Stored(env, c)
  {
    env.work(env.store[c.base.entry.hash], env.store[c.winner.version.entry.hash], env.store[c.loser.version.entry.hash])
  }

  function CandidateMerge(env: Env, c: MergeCandidate): Outcome<MergeResult>
    requires FilesOnly(c) && Stored(env, c)
  {
    env.merge(env.store[c.base.entry.hash], env.store[c.winner.version.entry.hash], env.store[c.loser.version.entry.hash])
  }

  /** One candidate under what is left of the budget. */
  function StepOutcome(env: Env, c: MergeCandidate, index: nat, b: Budget): Try<(Budget, Outcome<ComputedMerge>)>
  {
    if b.exhausted || index >= MAX_CANDIDATES then Done((b.(exhausted := true), Failure(RoundMergeBudget)))
    else if !FilesOnly(c) then Bail
    else if TooLarge(c) then Done((b, Failure(InputBytes)))
    else if !Stored(env, c) then Bail
    else
      var work := CandidateWork(env, c);
      if work.Failure? then Done((b, Failure(work.reason)))
      else if work.value > MAX_WORK then Done((b, Failure(ComparisonWork)))
      else if b.work + work.value > MAX_ROUND_WORK then Done((b.(exhausted := true), Failure(RoundMergeBudget)))
      else
        var b1 := b.(work := b.work + work.value);
        var merged := CandidateMerge(env, c);
        if merged.Failure? then Done((b1, Failure(merged.reason)))
        else
          var m := merged.value;
          if b.hunks + |m.hunks| > MAX_ROUND_HUNKS || b.output + |m.bytes| > MAX_ROUND_BYTES then
            Done((b1.(exhausted := true), Failure(RoundMergeBudget)))
          else
            Done((b1.(hunks := b.hunks + |m.hunks|, output := b.output + |m.bytes|),
                  Success(ComputedMerge(m.bytes, env.hash(m.bytes), c.winner.version.entry.executable, m.hunks))))
  }

  function OutcomesFrom(env: Env, cs: seq<MergeCandidate>, k: nat, b: Budget): (r: Try<seq<Outcome<ComputedMerge>>>)
    requires k <= |cs|
    ensures r.Done? ==> |r.value| == |cs| - k
    decreases |cs| - k
  {
    if k == |cs| then Done([])
    else
      var step :- StepOutcome(env, cs[k], k, b);
      var rest :- OutcomesFrom(env, cs, k + 1, step.0);
      Done([step.1] + rest)
  }

  function Outcomes(env: Env, cs: seq<MergeCandidate>): (r: Try<seq<Outcome<ComputedMerge>>>)
    ensures r.Done? ==> |r.value| == |cs|
  {
    if !CanonicalOrder(cs) then Bail else OutcomesFrom(env, cs, 0, Budget(0, 0, 0, false))
  }

  function Prepend<T>(front: seq<T>, rest: Try<seq<T>>): Try<seq<T>>
  {
    if rest.Bail? then Bail else Done(front + rest.value)
  }

  lemma PrependNothing<T>(rest: Try<seq<T>>)
    ensures Prepend([], rest) == rest
  {
    if rest.Done? {
      assert [] + rest.value == rest.value;
    }
  }

  method ComputeMergeOutcomes(env: Env, cs: seq<MergeCandidate>) returns (r: Try<seq<Outcome<ComputedMerge>>>)
    ensures r == Outcomes(env, cs)
  {
    if !CanonicalOrder(cs) {
      return Bail;
    }
    var work, hunks, output, exhausted := 0, 0, 0, false;
    var outcomes: seq<Outcome<ComputedMerge>> := [];
    PrependNothing(OutcomesFrom(env, cs, 0, Budget(0, 0, 0, false)));
    for index := 0 to |cs|
      invariant Outcomes(env, cs)
             == Prepend(outcomes, OutcomesFrom(env, cs, index, Budget(work, hunks, output, exhausted)))
    {
      var c := cs[index];
      ghost var before := Budget(work, hunks, output, exhausted);
      ghost var step := StepOutcome(env, c, index, before);
      var outcome;
      if exhausted || index >= MAX_CANDIDATES {
        exhausted := true;
        outcome := Failure(RoundMergeBudget);
      } else {
        if !FilesOnly(c) {
          return Bail;
        }
        if TooLarge(c) {
          outcome := Failure(InputBytes);
        } else {
          if !Stored(env, c) {
            return Bail;
          }
          outcome, work, hunks, output, exhausted := MergeCandidateStep(env, c, index, work, hunks, output);
        }
      }
      assert step == Done((Budget(work, hunks, output, exhausted), outcome));
      PrependStep(env, cs, index, before, outcomes);
      outcomes := outcomes + [outcome];
    }
    assert outcomes + [] == outcomes;
    r := Done(outcomes);
  }

  lemma PrependStep(env: Env, cs: seq<MergeCandidate>, k: nat, b: Budget, front: seq<Outcome<ComputedMerge>>)
    requires k < |cs| && StepOutcome(env, cs[k], k, b).Done?
    ensures var step := StepOutcome(env, cs[k], k, b).value;
            Prepend(front, OutcomesFrom(env, cs, k, b))
            == Prepend(front + [step.1], OutcomesFrom(env, cs, k + 1, step.0))
  {
    var step := StepOutcome(env, cs[k], k, b).value;
    var rest := OutcomesFrom(env, cs, k + 1, step.0);
    if rest.Done? {
      assert front + ([step.1] + rest.value) == (front + [step.1]) + rest.value;
    }
  }

  /** A candidate whose inputs were read. */
  method MergeCandidateStep(env: Env, c: MergeCandidate, ghost index: nat, work0: nat, hunks0: nat, output0: nat)
    returns (outcome: Outcome<ComputedMerge>, work: nat, hunks: nat, output: nat, exhausted: bool)
    requires index < MAX_CANDIDATES && FilesOnly(c) && !TooLarge(c) && Stored(env, c)
    ensures StepOutcome(env, c, index, Budget(work0, hunks0, output0, false))
         == Done((Budget(work, hunks, output, exhausted), outcome))
  {
    work, hunks, output, exhausted := work0, hunks0, output0, false;
    var candidateWork := CandidateWork(env, c);
    if candidateWork.Failure? {
      outcome := Failure(candidateWork.reason);
    } else if candidateWork.value > MAX_WORK {
      outcome := Failure(ComparisonWork);
    } else if work + candidateWork.value > MAX_ROUND_WORK {
      exhausted := true;
      outcome := Failure(RoundMergeBudget);
    } else {
      work := work + candidateWork.value;
      match CandidateMerge(env, c) {
        case Failure(reason) => outcome := Failure(reason);
        case Success(m) =>
          if hunks + |m.hunks| > MAX_ROUND_HUNKS || output + |m.bytes| > MAX_ROUND_BYTES {
            exhausted := true;
            outcome := Failure(RoundMergeBudget);
          } else {
            hunks := hunks + |m.hunks|;
            output := output + |m.bytes|;
            outcome := Success(ComputedMerge(m.bytes, env.hash(m.bytes), c.winner.version.entry.executable, m.hunks));
          }
      }
    }
  }

  // ---------------------------------------------------------------- the budget holds

  function TotalBytes(outcomes: seq<Outcome<ComputedMerge>>): nat
  {
    if outcomes == [] then 0
    else (if outcomes[0].Success? then |outcomes[0].value.bytes| else 0) + TotalBytes(outcomes[1..])
  }

  function TotalHunks(outcomes: seq<Outcome<ComputedMerge>>): nat
  {
    if outcomes == [] then 0
    else (if outcomes[0].Success? then |outcomes[0].value.hunks| else 0) + TotalHunks(outcomes[1..])
  }

  /** The comparison work of the accepted merges, candidate by candidate. */
  function TotalWork(env: Env, cs: seq<MergeCandidate>, outcomes: seq<Outcome<ComputedMerge>>): nat
    requires |cs| == |outcomes|
  {
    if cs == [] then 0
    else
      (if outcomes[0].Success? && FilesOnly(cs[0]) && Stored(env, cs[0]) && CandidateWork(env, cs[0]).Success?
       then CandidateWork(env, cs[0]).value else 0)
      + TotalWork(env, cs[1..], outcomes[1..])
  }

  predicate Sticky(outcomes: seq<Outcome<ComputedMerge>>)
  {
    forall i, j :: 0 <= i < j < |outcomes| && outcomes[i] == Failure(RoundMergeBudget) ==>
      outcomes[j] == Failure(RoundMergeBudget)
  }

  predicate EachWithinLimits(outcomes: seq<Outcome<ComputedMerge>>)
  {
    forall i :: 0 <= i < |outcomes| && outcomes[i].Success? ==>
      |outcomes[i].value.bytes| <= MAX_OUTPUT_BYTES && |outcomes[i].value.hunks| <= MAX_HUNKS
  }

  lemma {:induction false} ExhaustedStays(env: Env, cs: seq<MergeCandidate>, k: nat, b: Budget)
    requires k <= |cs| && b.exhausted
    ensures var r := OutcomesFrom(env, cs, k, b);
            r.Done? && forall i :: 0 <= i < |r.value| ==> r.value[i] == Failure(RoundMergeBudget)
    decreases |cs| - k
  {
    if k < |cs| {
      ExhaustedStays(env, cs, k + 1, b);
    }
  }

  lemma StepWithin(env: Env, c: MergeCandidate, k: nat, b: Budget, diff: Differ, utf8: ThreeWay.Utf8)
    requires Faithful(env, diff, utf8) && StepOutcome(env, c, k, b).Done?
    requires b.work <= MAX_ROUND_WORK && b.hunks <= MAX_ROUND_HUNKS && b.output <= MAX_ROUND_BYTES
    ensures var (b', o) := StepOutcome(env, c, k, b).value;
            && b'.work <= MAX_ROUND_WORK && b'.hunks <= MAX_ROUND_HUNKS && b'.output <= MAX_ROUND_BYTES
            && b.work <= b'.work
            && (o.Success? ==>
                  && k < MAX_CANDIDATES && FilesOnly(c) && Stored(env, c)
                  && CandidateWork(env, c).Success? && CandidateMerge(env, c).Success?
                  && o.value.bytes == CandidateMerge(env, c).value.bytes
                  && o.value.hunks == CandidateMerge(env, c).value.hunks
                  && o.value.hash == env.hash(o.value.bytes)
                  && |o.value.bytes| <= MAX_OUTPUT_BYTES && |o.value.hunks| <= MAX_HUNKS
                  && b'.work == b.work + CandidateWork(env, c).value
                  && b'.hunks == b.hunks + |o.value.hunks| && b'.output == b.output + |o.value.bytes|)
            && (o.Failure? ==> b'.hunks == b.hunks && b'.output == b.output)
            && (o == Failure(RoundMergeBudget) <==> b'.exhausted)
  {
    if FilesOnly(c) && Stored(env, c) {
      var base, w, l := env.store[c.base.entry.hash], env.store[c.winner.version.entry.hash], env.store[c.loser.version.entry.hash];
      ThreeWay.MergeLimits(base, w, l, true, diff, utf8);
      ThreeWay.MergeReasons(base, w, l, true, diff, utf8);
      assert env.work(base, w, l) == ThreeWay.WorkOf(base, w, l, utf8);
      assert env.merge(base, w, l) == ThreeWay.MergeOf(base, w, l, true, diff, utf8);
    }
  }

  lemma {:induction false} BudgetFrom(env: Env, cs: seq<MergeCandidate>, k: nat, b: Budget, diff: Differ, utf8: ThreeWay.Utf8)
    requires k <= |cs| && Faithful(env, diff, utf8) && OutcomesFrom(env, cs, k, b).Done?
    requires b.work <= MAX_ROUND_WORK && b.hunks <= MAX_ROUND_HUNKS && b.output <= MAX_ROUND_BYTES
    ensures var r := OutcomesFrom(env, cs, k, b).value;
            && b.work + TotalWork(env, cs[k..], r) <= MAX_ROUND_WORK
            && b.hunks + TotalHunks(r) <= MAX_ROUND_HUNKS
            && b.output + TotalBytes(r) <= MAX_ROUND_BYTES
            && EachWithinLimits(r) && Sticky(r)
            && forall i :: 0 <= i < |r| && r[i].Success? ==> k + i < MAX_CANDIDATES
    decreases |cs| - k
  {
    var r := OutcomesFrom(env, cs, k, b).value;
    if k < |cs| {
      StepWithin(env, cs[k], k, b, diff, utf8);
      var (b', o) := StepOutcome(env, cs[k], k, b).value;
      BudgetFrom(env, cs, k + 1, b', diff, utf8);
      var rest := OutcomesFrom(env, cs, k + 1, b').value;
      assert r == [o] + rest && r[1..] == rest;
      assert cs[k..][1..] == cs[k + 1..];
      if b'.exhausted {
        ExhaustedStays(env, cs, k + 1, b');
      }
    }
  }

  /** Over any candidate list, what a round accepts stays within every budget, and once a
      candidate is refused for the budget every later one is. */
  lemma RoundBudgetHolds(env: Env, cs: seq<MergeCandidate>, diff: Differ, utf8: ThreeWay.Utf8)
    requires Faithful(env, diff, utf8) && Outcomes(env, cs).Done?
    ensures var r := Outcomes(env, cs).value;
            && TotalWork(env, cs, r) <= MAX_ROUND_WORK
            && TotalHunks(r) <= MAX_ROUND_HUNKS
            && TotalBytes(r) <= MAX_ROUND_BYTES
            && EachWithinLimits(r) && Sticky(r)
            && forall i :: 0 <= i < |r| && r[i].Success? ==> i < MAX_CANDIDATES
  {
    BudgetFrom(env, cs, 0, Budget(0, 0, 0, false), diff, utf8);
    assert cs[0..] == cs;
  }
}
