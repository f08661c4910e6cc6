/** A reservation is a task of the permit graph: its steps take the two permits in
    order, and give them back (src/main.rs:4104-4115, src/main.rs:4330-4335). */
module PermitLaws {
  import opened Model
  import opened Permits
  import R = Reservation

  predicate GotLower(s: R.State) { s.authority.pc in {R.AHasPermit, R.AWaitStart, R.AAccepted} }

  predicate GotHigher(s: R.State) { s.higher.pc in {R.HHasPermit, R.HWaitAccepted, R.HDone} }

  /** The task a reservation is, between two given peers. */
  function TaskOf(s: R.State, lower: PeerId, higher: PeerId): Task
  {
    Task([lower, higher], if GotHigher(s) then 2 else if GotLower(s) then 1 else 0,
         (if GotLower(s) && s.authority.stopped then {0} else {}) + (if GotHigher(s) && s.higher.stopped then {1} else {}),
         false)
  }

  /** It holds what the endpoints hold, and waits for what they wait for. */
  lemma RoundIsTask(s: R.State, lower: PeerId, higher: PeerId)
    requires R.Inv(s) && lower != higher
    ensures TaskOf(s, lower, higher).Holds(lower) <==> s.authority.permit
    ensures TaskOf(s, lower, higher).Holds(higher) <==> s.higher.permit
    ensures s.authority.pc == R.AWaitPermit ==> TaskOf(s, lower, higher).Waits(lower)
    ensures s.higher.pc == R.HWaitPermit ==> TaskOf(s, lower, higher).Waits(higher)
  {
    var t := TaskOf(s, lower, higher);
    assert t.needs[0] == lower && t.needs[1] == higher;
    assert GotHigher(s) ==> GotLower(s);
  }

  /** A step of the handshake takes the next permit, or drops one, or changes neither. */
  lemma StepIsTaskStep(s: R.State, x: R.Action, lower: PeerId, higher: PeerId)
    requires R.Inv(s)
    ensures var (t, u) := (TaskOf(s, lower, higher), TaskOf(R.Next(s, x), lower, higher));
            || u == t
            || (x in {R.ByAuthority(R.APermit), R.ByHigher(R.HPermit)} && u == t.(got := t.got + 1))
            || (exists which :: 0 <= which < t.got && u == t.(dropped := t.dropped + {which}))
  {
    var (t, u) := (TaskOf(s, lower, higher), TaskOf(R.Next(s, x), lower, higher));
    assert GotHigher(s) ==> GotLower(s);
    match x {
      case ByAuthority(move) => LowerMove(s, move, lower, higher);
      case ByHigher(move) => HigherMove(s, move, lower, higher);
    }
  }

  /** The authority gets its permit by one step only, and stops for good. */
  lemma LowerSteps(s: R.State, x: R.AuthorityAction)
    requires R.Inv(s)
    ensures var t := R.AuthorityMoves(s, x);
            && t.higher == s.higher && (s.authority.stopped ==> t.authority.stopped)
            && (GotLower(s) ==> GotLower(t))
            && (GotLower(t) && !GotLower(s) ==> x == R.APermit && !t.authority.stopped && !GotHigher(s))
  {
  }

  lemma HigherSteps(s: R.State, x: R.HigherAction)
    requires R.Inv(s)
    ensures var t := R.HigherMoves(s, x);
            && t.authority == s.authority && (s.higher.stopped ==> t.higher.stopped)
            && (GotHigher(s) ==> GotHigher(t))
            && (GotHigher(t) && !GotHigher(s) ==> x == R.HPermit && !t.higher.stopped && GotLower(s))
  {
  }

  lemma LowerMove(s: R.State, x: R.AuthorityAction, lower: PeerId, higher: PeerId)
    requires R.Inv(s)
    ensures var (t, u) := (TaskOf(s, lower, higher), TaskOf(R.AuthorityMoves(s, x), lower, higher));
            || u == t
            || (x == R.APermit && u == t.(got := t.got + 1))
            || (0 < t.got && u == t.(dropped := t.dropped + {0}))
  {
    LowerSteps(s, x);
    if SameGot(s, R.AuthorityMoves(s, x)) {
      TaskMoves(s, R.AuthorityMoves(s, x), lower, higher);
    }
  }

  lemma HigherMove(s: R.State, x: R.HigherAction, lower: PeerId, higher: PeerId)
    requires R.Inv(s)
    ensures var (t, u) := (TaskOf(s, lower, higher), TaskOf(R.HigherMoves(s, x), lower, higher));
            || u == t
            || (x == R.HPermit && u == t.(got := t.got + 1))
            || (1 < t.got && u == t.(dropped := t.dropped + {1}))
  {
    HigherSteps(s, x);
    if SameGot(s, R.HigherMoves(s, x)) {
      TaskMoves(s, R.HigherMoves(s, x), lower, higher);
    }
  }

  predicate SameGot(s: R.State, t: R.State) { GotLower(t) == GotLower(s) && GotHigher(t) == GotHigher(s) }

  predicate SameLowerStop(s: R.State, t: R.State) { t.authority.stopped == s.authority.stopped }

  predicate SameHigherStop(s: R.State, t: R.State) { t.higher.stopped == s.higher.stopped }

  /** How the task follows the four facts it is made of. */
  lemma TaskMoves(s: R.State, t: R.State, lower: PeerId, higher: PeerId)
    requires SameGot(s, t)
    ensures var (a, b) := (TaskOf(s, lower, higher), TaskOf(t, lower, higher));
            && (SameLowerStop(s, t) && SameHigherStop(s, t) ==> b == a)
            && (SameHigherStop(s, t) && t.authority.stopped && GotLower(s) ==> b == a.(dropped := a.dropped + {0}))
            && (SameLowerStop(s, t) && t.higher.stopped && GotHigher(s) ==> b == a.(dropped := a.dropped + {1}))
  {
    var (a, b) := (TaskOf(s, lower, higher), TaskOf(t, lower, higher));
    if t.authority.stopped && GotLower(s) && GotLower(t) {
      assert a.dropped + {0} == {0} + (if GotHigher(s) && s.higher.stopped then {1} else {});
    }
    if t.higher.stopped && GotHigher(s) && GotHigher(t) {
      assert a.dropped + {1} == (if GotLower(s) && s.authority.stopped then {0} else {}) + {1};
    }
  }
}
