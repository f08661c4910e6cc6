/** Installation permits among any number of installations and concurrent rounds
    (src/sync.rs:310-326, src/main.rs:3893-3905, src/main.rs:4104-4115, src/main.rs:4330-4335).

    Every installation has one permit. A round takes the permit of the lower peer and
    then that of the higher one; local work, such as recovery, takes one permit. */
module Permits {
  import opened Utils
  import opened Bytes
  import opened Model

  /** How two peers stand: the order both endpoints derive, or no order at all. */
  const MAX_PEER_ID_BYTES := 128

  predicate CanonicalByte(b: Byte)
  {
    48 <= b <= 57 || 65 <= b <= 90 || 97 <= b <= 122 || b == 45 || b == 95
  }

  predicate CanonicalPeer(p: PeerId)
  {
    0 < |p| <= MAX_PEER_ID_BYTES && forall i :: 0 <= i < |p| ==> CanonicalByte(p[i])
  }

  function PeerOrder(local: PeerId, remote: PeerId): Option<Ordering>
  {
    if !CanonicalPeer(local) || !CanonicalPeer(remote) || local == remote then None
    else Some(CompareBytes(local, remote))
  }

  /** The endpoints of a session agree on who is the authority: exactly one of them. */
  lemma PeerOrderAgrees(local: PeerId, remote: PeerId)
    ensures PeerOrder(local, remote).Some? == PeerOrder(remote, local).Some?
    ensures PeerOrder(local, remote) == Some(Ordering.Less) <==> PeerOrder(remote, local) == Some(Ordering.Greater)
    ensures PeerOrder(local, remote).Some? ==> PeerOrder(local, remote).value != Equal
  {
    LessTotal(local, remote);
    if Bytes.Less(local, remote) {
      LessAsymmetric(local, remote);
    } else if Bytes.Less(remote, local) {
      LessAsymmetric(remote, local);
    }
  }

  /** A task takes the permits it needs one after the other; a lease that runs out drops
      one of them early. */
  datatype Task = Task(needs: seq<PeerId>, got: nat, dropped: set<nat>, finished: bool)
  {
    predicate Holds(x: PeerId)
    {
      !finished && exists i :: 0 <= i < got && i < |needs| && i !in dropped && needs[i] == x
    }

    predicate Waits(x: PeerId)
    {
      !finished && got < |needs| && needs[got] == x
    }
  }

  datatype Action =
    | StartRound(local: PeerId, remote: PeerId)
    | StartLocal(at: PeerId)
    | Acquire(task: nat)
    | Drop(task: nat, which: nat)
    | Finish(task: nat)

  type State = seq<Task>

  predicate Free(s: State, x: PeerId)
  {
    forall i :: 0 <= i < |s| ==> !s[i].Holds(x)
  }

  /** The permits of a round, the authority's first. */
  function RoundNeeds(local: PeerId, remote: PeerId): seq<PeerId>
  {
    if PeerOrder(local, remote) == Some(Ordering.Less) then [local, remote]
    else if PeerOrder(local, remote) == Some(Ordering.Greater) then [remote, local]
    else []
  }

  function Next(s: State, x: Action): State
  {
    match x
    case StartRound(local, remote) =>
      if PeerOrder(local, remote).None? then s else s + [Task(RoundNeeds(local, remote), 0, {}, false)]
    case StartLocal(at) => s + [Task([at], 0, {}, false)]
    case Acquire(i) =>
      if i < |s| && !s[i].finished && s[i].got < |s[i].needs| && Free(s, s[i].needs[s[i].got]) then
        s[i := s[i].(got := s[i].got + 1)]
      else s
    case Drop(i, which) => if i < |s| && which < s[i].got then s[i := s[i].(dropped := s[i].dropped + {which})] else s
    case Finish(i) => if i < |s| then s[i := s[i].(finished := true)] else s
  }

  function Run(actions: seq<Action>): State
  {
    if actions == [] then [] else Next(Run(actions[..|actions| - 1]), actions[|actions| - 1])
  }

  // ---------------------------------------------------------------- the invariant

  predicate Rising(needs: seq<PeerId>)
  {
    forall i, j :: 0 <= i < j < |needs| ==> Bytes.Less(needs[i], needs[j])
  }

  /** Every task takes its permits in the order of the installations. */
  predicate Inv(s: State)
  {
    forall i :: 0 <= i < |s| ==> Rising(s[i].needs) && s[i].got <= |s[i].needs|
  }

  lemma RoundNeedsRise(local: PeerId, remote: PeerId)
    ensures Rising(RoundNeeds(local, remote)) && RoundNeeds(remote, local) == RoundNeeds(local, remote)
    ensures PeerOrder(local, remote).Some? ==> |RoundNeeds(local, remote)| == 2
  {
    PeerOrderAgrees(local, remote);
    LessTotal(local, remote);
  }

  lemma StepKeeps(s: State, x: Action)
    requires Inv(s)
    ensures Inv(Next(s, x))
  {
    if x.StartRound? {
      RoundNeedsRise(x.local, x.remote);
    }
  }

  lemma {:induction false} RunKeeps(actions: seq<Action>)
    ensures Inv(Run(actions))
  {
    if actions != [] {
      RunKeeps(actions[..|actions| - 1]);
      StepKeeps(Run(actions[..|actions| - 1]), actions[|actions| - 1]);
    }
  }

  // ---------------------------------------------------------------- exclusion

  ghost predicate Exclusive(s: State)
  {
    forall i, j, x :: 0 <= i < |s| && 0 <= j < |s| && s[i].Holds(x) && s[j].Holds(x) ==> i == j
  }

  /** A step makes at most one task hold at most one permit more, and that one was free. */
  lemma StepHolds(s: State, x: Action, i: nat, p: PeerId)
    requires Inv(s) && i < |Next(s, x)| && Next(s, x)[i].Holds(p)
    ensures i < |s| && (s[i].Holds(p) || (x == Acquire(i) && s[i].Waits(p) && Free(s, p)))
  {
    var t := Next(s, x)[i];
    var k :| 0 <= k < t.got && k < |t.needs| && k !in t.dropped && t.needs[k] == p;
    assert i < |s|;
    if k < s[i].got {
      assert s[i].needs[k] == p && k !in s[i].dropped;
    }
  }

  lemma StepKeepsExclusive(s: State, x: Action)
    requires Inv(s) && Exclusive(s)
    ensures Exclusive(Next(s, x))
  {
    var t := Next(s, x);
    forall i, j, p | 0 <= i < |t| && 0 <= j < |t| && t[i].Holds(p) && t[j].Holds(p)
      ensures i == j
    {
      StepHolds(s, x, i, p);
      StepHolds(s, x, j, p);
    }
  }

  /** An installation's permit is held by one task at a time. */
  lemma {:induction false} PermitIsExclusive(actions: seq<Action>)
    ensures Exclusive(Run(actions))
  {
    if actions != [] {
      var earlier := actions[..|actions| - 1];
      PermitIsExclusive(earlier);
      RunKeeps(earlier);
      StepKeepsExclusive(Run(earlier), actions[|actions| - 1]);
    }
  }

  /** A lease that runs out gives back its permit, and a task that ends all of them; no other
      task loses anything. */
  lemma PermitsAreGivenBack(s: State, i: nat, which: nat, j: nat, p: PeerId)
    requires Inv(s) && i < |s| && which < s[i].got && j < |s|
    ensures !Next(s, Drop(i, which))[i].Holds(s[i].needs[which]) && !Next(s, Finish(i))[i].Holds(p)
    ensures s[j].Holds(p) && !(i == j && p == s[i].needs[which]) ==> Next(s, Drop(i, which))[j].Holds(p)
    ensures s[j].Holds(p) && i != j ==> Next(s, Finish(i))[j].Holds(p)
  {
    RisingDiffers(s[i].needs);
    if s[j].Holds(p) {
      var k :| 0 <= k < s[j].got && k < |s[j].needs| && k !in s[j].dropped && s[j].needs[k] == p;
      assert i == j && p != s[i].needs[which] ==> k != which;
      assert Next(s, Drop(i, which))[j].needs[k] == p;
    }
  }

  lemma RisingDiffers(needs: seq<PeerId>)
    requires Rising(needs)
    ensures forall a, b :: 0 <= a < b < |needs| ==> needs[a] != needs[b]
  {
    forall a, b | 0 <= a < b < |needs|
      ensures needs[a] != needs[b]
    {
      LessIrreflexive(needs[a]);
    }
  }

  /** A round takes the permits of both its peers, and first that of the one that sorts
      lower; local work takes its own. */
  lemma RoundTakesBoth(s: State, local: PeerId, remote: PeerId)
    requires PeerOrder(local, remote).Some?
    ensures var t := Next(s, StartRound(local, remote));
            && |t| == |s| + 1 && t[..|s|] == s && t[|s|].got == 0 && t[|s|].dropped == {} && !t[|s|].finished
            && t[|s|].needs == (if Bytes.Less(local, remote) then [local, remote] else [remote, local])
    ensures var t := Next(s, StartLocal(local)); t == s + [Task([local], 0, {}, false)]
  {
    LessTotal(local, remote);
  }

  predicate NameChar(c: char)
  {
    'A' <= c <= 'Z' || 'a' <= c <= 'z' || '0' <= c <= '9' || c == '-' || c == '_'
  }

  /** A name of letters, digits, hyphens and underscores, one to 128 of them. */
  ghost predicate IsPeerName(p: PeerId)
  {
    p != [] && |p| <= 128 && forall b: Byte :: b in p ==> NameChar(b as char)
  }

  lemma PeerNames(p: PeerId)
    ensures CanonicalPeer(p) <==> IsPeerName(p)
  {
    forall b: Byte | b in p
      ensures CanonicalByte(b) <==> NameChar(b as char)
    {
    }
    if IsPeerName(p) {
      forall i | 0 <= i < |p|
        ensures CanonicalByte(p[i])
      {
        assert p[i] in p;
      }
    }
  }

  /** Two peers are ordered exactly when both have such names, and different ones. */
  lemma OrderedPeers(local: PeerId, remote: PeerId)
    ensures PeerOrder(local, remote).Some? <==> IsPeerName(local) && IsPeerName(remote) && local != remote
  {
    PeerNames(local);
    PeerNames(remote);
  }

  // ---------------------------------------------------------------- waiting

  /** Task `i` waits for a permit that task `j` holds. */
  predicate BlockedBy(s: State, i: nat, j: nat)
  {
    i < |s| && j < |s| && !s[i].finished && s[i].got < |s[i].needs| && s[j].Holds(s[i].needs[s[i].got])
  }

  /** A task that is in the way and waits itself waits for a later installation. */
  lemma WaitingRises(s: State, i: nat, j: nat)
    requires Inv(s) && BlockedBy(s, i, j) && s[j].got < |s[j].needs|
    ensures Bytes.Less(s[i].needs[s[i].got], s[j].needs[s[j].got])
  {
    var x := s[i].needs[s[i].got];
    var a :| 0 <= a < s[j].got && a < |s[j].needs| && a !in s[j].dropped && s[j].needs[a] == x;
  }

  ghost predicate WaitPath(s: State, path: seq<nat>)
  {
    forall k :: 0 <= k < |path| - 1 ==> BlockedBy(s, path[k], path[k + 1])
  }

  lemma {:induction false} PathRises(s: State, path: seq<nat>)
    requires Inv(s) && |path| > 1 && WaitPath(s, path)
    requires var last := path[|path| - 1]; last < |s| && s[last].got < |s[last].needs|
    ensures var (first, last) := (path[0], path[|path| - 1]);
            && first < |s| && last < |s| && s[first].got < |s[first].needs| && s[last].got < |s[last].needs|
            && Bytes.Less(s[first].needs[s[first].got], s[last].needs[s[last].got])
  {
    assert BlockedBy(s, path[0], path[1]);
    if |path| > 2 {
      var rest := path[1..];
      forall k | 0 <= k < |rest| - 1
        ensures BlockedBy(s, rest[k], rest[k + 1])
      {
        assert BlockedBy(s, path[k + 1], path[k + 2]);
      }
      PathRises(s, rest);
      WaitingRises(s, path[0], path[1]);
      LessTransitive(s[path[0]].needs[s[path[0]].got], s[path[1]].needs[s[path[1]].got],
                     s[path[|path| - 1]].needs[s[path[|path| - 1]].got]);
    } else {
      WaitingRises(s, path[0], path[1]);
    }
  }

  /** No chain of waiting tasks closes, whatever rounds run in whatever directions. */
  lemma NoCyclicWait(actions: seq<Action>, path: seq<nat>)
    requires |path| > 1 && WaitPath(Run(actions), path)
    ensures path[0] != path[|path| - 1]
  {
    var s := Run(actions);
    RunKeeps(actions);
    assert BlockedBy(s, path[0], path[1]);
    if path[0] == path[|path| - 1] {
      PathRises(s, path);
      LessIrreflexive(s[path[0]].needs[s[path[0]].got]);
    }
  }

  /** A task that can go on: it has all it needs, or the next permit is free. */
  predicate CanMove(s: State, i: nat)
  {
    i < |s| && !s[i].finished && (s[i].got < |s[i].needs| ==> Free(s, s[i].needs[s[i].got]))
  }

  /** Following the blocking tasks ends at one that can move. */
  lemma {:induction false} SomeoneMovesFrom(s: State, path: seq<nat>) returns (k: nat)
    requires Inv(s) && path != [] && WaitPath(s, path)
    requires path[|path| - 1] < |s| && !s[path[|path| - 1]].finished
    requires forall a :: 0 <= a < |path| ==> path[a] < |s|
    requires forall a, b :: 0 <= a < b < |path| ==> path[a] != path[b]
    ensures CanMove(s, k)
    decreases |s| - |path|
  {
    var last := path[|path| - 1];
    DistinctAreFew(path, |s|);
    if CanMove(s, last) {
      k := last;
    } else {
      var x := s[last].needs[s[last].got];
      var next :| 0 <= next < |s| && s[next].Holds(x);
      assert BlockedBy(s, last, next);
      var longer := path + [next];
      PathExtends(s, path, next);
      if s[next].got == |s[next].needs| {
        k := next;
      } else {
        forall a | 0 <= a < |path|
          ensures path[a] != next
        {
          PathTail(s, longer, a);
          if path[a] == next {
            PathRises(s, longer[a..]);
            LessIrreflexive(s[next].needs[s[next].got]);
          }
        }
        DistinctAreFew(longer, |s|);
        k := SomeoneMovesFrom(s, longer);
      }
    }
  }

  lemma PathExtends(s: State, path: seq<nat>, next: nat)
    requires path != [] && WaitPath(s, path) && BlockedBy(s, path[|path| - 1], next)
    ensures WaitPath(s, path + [next])
  {
    var longer := path + [next];
    forall k | 0 <= k < |longer| - 1
      ensures BlockedBy(s, longer[k], longer[k + 1])
    {
      if k < |path| - 1 {
        assert BlockedBy(s, path[k], path[k + 1]);
      }
    }
  }

  lemma PathTail(s: State, path: seq<nat>, a: nat)
    requires a <= |path| && WaitPath(s, path)
    ensures WaitPath(s, path[a..])
  {
    forall k | 0 <= k < |path[a..]| - 1
      ensures BlockedBy(s, path[a..][k], path[a..][k + 1])
    {
      assert BlockedBy(s, path[a + k], path[a + k + 1]);
    }
  }

  /** The numbers below `n`. */
  ghost function UpTo(n: nat): (all: set<nat>)
    ensures |all| == n && forall k: nat :: k in all <==> k < n
  {
    if n == 0 then {} else UpTo(n - 1) + {n - 1}
  }

  lemma DistinctAreFew(path: seq<nat>, n: nat)
    requires forall a :: 0 <= a < |path| ==> path[a] < n
    requires forall a, b :: 0 <= a < b < |path| ==> path[a] != path[b]
    ensures |path| <= n
  {
    var members := set a | 0 <= a < |path| :: path[a];
    SetOfDistinct(path);
    SubsetSize(members, UpTo(n));
  }

  lemma {:induction false} SetOfDistinct(path: seq<nat>)
    requires forall a, b :: 0 <= a < b < |path| ==> path[a] != path[b]
    ensures |set a | 0 <= a < |path| :: path[a]| == |path|
  {
    if path != [] {
      var n := |path| - 1;
      SetOfDistinct(path[..n]);
      assert (set a | 0 <= a < |path| :: path[a]) == (set a | 0 <= a < n :: path[..n][a]) + {path[n]};
    }
  }

  /** The queue of every installation that tasks wait for has one of them in front. */
  ghost predicate InFront(s: State, turn: PeerId -> nat)
  {
    forall i, x :: 0 <= i < |s| && s[i].Waits(x) ==> turn(x) < |s| && s[turn(x)].Waits(x)
  }

  /** The task has all its permits, or its turn has come for the next one, which is free. */
  predicate MovesInTurn(s: State, turn: PeerId -> nat, k: nat)
  {
    CanMove(s, k) && (s[k].got < |s[k].needs| ==> turn(s[k].needs[s[k].got]) == k)
  }

  /** A task that can move and has not all it needs gets the next permit. */
  lemma MoverAdvances(s: State, k: nat)
    requires CanMove(s, k) && s[k].got < |s[k].needs|
    ensures var t := Next(s, Acquire(k));
            |t| == |s| && t[k] == s[k].(got := s[k].got + 1) && forall i :: 0 <= i < |s| && i != k ==> t[i] == s[i]
  {
  }

  /** The installations never stand still: while a task is unfinished, some task can go
      on, in whatever order the queues let their tasks through. */
  lemma SomeoneMoves(actions: seq<Action>, turn: PeerId -> nat, i: nat)
    requires i < |Run(actions)| && !Run(actions)[i].finished && InFront(Run(actions), turn)
    ensures exists k :: MovesInTurn(Run(actions), turn, k)
  {
    RunKeeps(actions);
    var s := Run(actions);
    var k := SomeoneMovesFrom(s, [i]);
    if s[k].got < |s[k].needs| {
      var x := s[k].needs[s[k].got];
      assert s[k].Waits(x);
      assert MovesInTurn(s, turn, turn(x));
    } else {
      assert MovesInTurn(s, turn, k);
    }
  }
}
