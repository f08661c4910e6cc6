/** Two replicas of one share over every history: scans, rounds that plan and
    materialize merges, partial installs, crashes and exchanges of heads. The causal
    invariant kept by every step is what makes the two peers' plans equal and their
    merge bases genuine (src/scan.rs:283-347, src/reconcile.rs:131-191,
    src/sync.rs:2775-2808, src/main.rs:6188, src/main.rs:6263-6289,
    src/main.rs:8063-8220, src/state.rs:4596-4649). */
module History {
  import opened Bytes
  import opened Model
  import opened Reconcile
  import opened Versions
  import PlanLaws
  import Heads

  datatype Replica = Replica(id: PeerId, counter: nat, records: map<Path, Version>, heads: map<Path, BaseVersion>)

  /** A round works on the two snapshots taken when it began. */
  datatype Round = Round(connectorIsA: bool, a: map<Path, Version>, b: map<Path, Version>, target: map<Path, Version>)

  /** The end of a round: the responder has sent the heads of `frozen`, its records
      then, and holds its permit until the answer comes or it gives up and leaves. */
  datatype Exchange = Exchange(connectorIsA: bool, frozen: seq<Record>, answer: Option<seq<Record>>, left: bool)

  type Key = (PeerId, nat)
  datatype Issue = Issue(path: Path, version: Version, birth: nat)

  /** `issued`, `clock` and `acked` are history: every version ever made with the time
      it was made, and every base a replica ever stored. */
  datatype World = World(a: Replica, b: Replica, round: Option<Round>, exchange: Option<Exchange>,
                         issued: map<Key, Issue>, clock: nat, acked: set<(Path, BaseVersion)>)

  datatype Action =
    | Scan(atA: bool, path: Path, found: Entry, timestamp: int, sequence: nat)
    | Begin(connectorIsA: bool)
    | PlanPath(path: Path, merged: Option<Entry>, sequence: nat)
    | Install(atA: bool, path: Path)
    | Drop(atA: bool, path: Path)
    | Offer(connectorIsA: bool, current: seq<Record>)
    | TakeHeads(own: seq<Record>)
    | StoreAnswer
    | Leave
    | Abandon
    | End

  function Get<K, V>(m: map<K, V>, k: K): Option<V>
  {
    if k in m then Some(m[k]) else None
  }

  function At(w: World, atA: bool): Replica { if atA then w.a else w.b }

  function WithReplica(w: World, atA: bool, r: Replica): World
  {
    if atA then w.(a := r) else w.(b := r)
  }

  /** A fresh sequence number is larger than every earlier one of its replica. */
  predicate Fresh(w: World, atA: bool, sequence: nat)
  {
    sequence > At(w, atA).counter
  }

  /** Records a new version of `atA`'s replica in the history. */
  function Issued(w: World, atA: bool, path: Path, v: Version): World
  {
    var r := At(w, atA);
    WithReplica(w, atA, r.(counter := v.sequence))
      .(issued := w.issued[(r.id, v.sequence) := Issue(path, v, w.clock)], clock := w.clock + 1)
  }

  function PlanDecision(round: Round, path: Path): Decision
    requires path in round.a || path in round.b
  {
    var own, other := if round.connectorIsA then round.a else round.b, if round.connectorIsA then round.b else round.a;
    if path !in other then Decision(Record(path, own[path]), [], [])
    else if path !in own then Decision(Record(path, other[path]), [], [])
    else Decide(Record(path, own[path]), Record(path, other[path]))
  }

  /** The responder of an exchange holds the installation permit of the share. */
  predicate Busy(w: World, atA: bool)
  {
    w.exchange.Some? && !w.exchange.value.left && w.exchange.value.connectorIsA != atA
  }

  /** The list of all records, in some order. */
  ghost predicate Lists(list: seq<Record>, records: map<Path, Version>)
  {
    && UniquePaths(list)
    && forall r :: r in list <==> r.path in records && records[r.path] == r.version
  }

  ghost predicate Enabled(w: World, act: Action)
  {
    match act
    case Scan(atA, _, _, _, sequence) => !Busy(w, atA) && Fresh(w, atA, sequence)
    case Begin(_) => true
    case PlanPath(path, merged, sequence) =>
      && w.round.Some? && (path in w.round.value.a || path in w.round.value.b)
      && Fresh(w, w.round.value.connectorIsA, sequence)
    case Install(atA, path) => !Busy(w, atA) && w.round.Some? && path in w.round.value.target
    case Drop(atA, _) => !Busy(w, atA)
    case Offer(connectorIsA, current) => w.exchange.None? && Lists(current, At(w, !connectorIsA).records)
    case TakeHeads(own) =>
      w.exchange.Some? && w.exchange.value.answer.None? && Lists(own, At(w, w.exchange.value.connectorIsA).records)
    case StoreAnswer => w.exchange.Some? && w.exchange.value.answer.Some? && !w.exchange.value.left
    case Leave => w.exchange.Some?
    case Abandon => true
    case End => true
  }

  /** The whole set of heads is replaced by the given records the replica still holds. */
  function HeadsFrom(records: map<Path, Version>, shared: seq<Record>): map<Path, BaseVersion>
  {
    map p | p in records && records[p].entry.File? && Record(p, records[p]) in shared :: records[p].AsBase().value
  }

  function Stored(w: World, atA: bool, shared: seq<Record>): World
  {
    var r := At(w, atA);
    var heads := HeadsFrom(r.records, shared);
    WithReplica(w, atA, r.(heads := heads)).(acked := w.acked + set p | p in heads :: (p, heads[p]))
  }

  /** What the connector makes of its records and the responder's heads. */
  function Answer(own: seq<Record>, frozen: seq<Record>): Option<seq<Record>>
  {
    var offered := Heads.RegularFileHeads(frozen);
    if Heads.ValidateAckHeads(offered, offered) then Heads.IntersectHeads(own, offered) else None
  }

  ghost function Apply(w: World, act: Action, sign: Signer): World
    requires Enabled(w, act)
  {
    match act
    case Scan(atA, path, found, timestamp, sequence) =>
      var r := At(w, atA);
      var known := Get(r.records, path);
      if !ScanChanges(known, found) then w
      else
        var v := sign(Record(path, ScannedVersion(r.id, known, Get(r.heads, path), found, timestamp, sequence))).version;
        var w' := Issued(w, atA, path, v);
        WithReplica(w', atA, At(w', atA).(records := r.records[path := v]))
    case Begin(connectorIsA) =>
      w.(round := Some(Round(connectorIsA, w.a.records, w.b.records, map[])))
    case PlanPath(path, merged, sequence) =>
      var round := w.round.value;
      var d := PlanDecision(round, path);
      if d.merges != [] && merged.Some? then
        var v := sign(MergedRecord(d.merges[0], At(w, round.connectorIsA).id, sequence, merged.value)).version;
        Issued(w, round.connectorIsA, path, v).(round := Some(round.(target := round.target[path := v])))
      else w.(round := Some(round.(target := round.target[path := d.record.version])))
    case Install(atA, path) =>
      var r := At(w, atA);
      WithReplica(w, atA, r.(records := r.records[path := w.round.value.target[path]]))
    case Drop(atA, path) =>
      var r := At(w, atA);
      WithReplica(w, atA, r.(records := r.records - {path}))
    case Offer(connectorIsA, current) => w.(exchange := Some(Exchange(connectorIsA, current, None, false)))
    case TakeHeads(own) =>
      var e := w.exchange.value;
      var answer := Answer(own, e.frozen);
      if answer.None? then w.(exchange := None)
      else Stored(w, e.connectorIsA, answer.value).(exchange := Some(e.(answer := answer)))
    case StoreAnswer =>
      var e := w.exchange.value;
      if !Heads.ValidateAckHeads(e.frozen, e.answer.value) then w.(exchange := None)
      else Stored(w, !e.connectorIsA, e.answer.value).(exchange := None)
    case Leave => w.(exchange := Some(w.exchange.value.(left := true)))
    case Abandon => w.(exchange := None)
    case End => w.(round := None)
  }

  // ---------------------------------------------------------------- the invariant

  predicate Saw(v: Version, k: Key)
  {
    SeenAtLeast(v.seen, k.0, k.1)
  }

  /** No more has been seen than has been made. */
  predicate SeenBounded(w: World, v: Version)
  {
    forall s :: s in v.seen ==>
      (s.peer == w.a.id ==> s.sequence <= w.a.counter) && (s.peer == w.b.id ==> s.sequence <= w.b.counter)
  }

  predicate BaseGenuine(w: World, path: Path, v: Version)
  {
    v.mergeBase.Some? ==>
      (path, v.mergeBase.value) in w.acked && Saw(v, (v.mergeBase.value.id.peer, v.mergeBase.value.id.sequence))
  }

  predicate IssueOk(w: World, k: Key)
    requires k in w.issued
  {
    var i := w.issued[k];
    && i.version.peer == k.0 && i.version.sequence == k.1
    && (k.0 == w.a.id || k.0 == w.b.id)
    && (k.0 == w.a.id ==> k.1 <= w.a.counter) && (k.0 == w.b.id ==> k.1 <= w.b.counter)
    && i.birth < w.clock
    && SeenBounded(w, i.version) && BaseGenuine(w, i.path, i.version)
  }

  /** A held version is the issued one of its identity. */
  predicate Holds(w: World, path: Path, v: Version)
  {
    (v.peer, v.sequence) in w.issued
    && w.issued[(v.peer, v.sequence)].path == path && w.issued[(v.peer, v.sequence)].version == v
  }

  predicate AllHeld(w: World, records: map<Path, Version>)
  {
    forall p :: p in records ==> Holds(w, p, records[p])
  }

  /** A version sees only versions made before it. */
  predicate Causal(w: World)
  {
    forall j, k :: j in w.issued && k in w.issued && j != k && Saw(w.issued[j].version, k) ==>
      w.issued[k].birth < w.issued[j].birth
  }

  predicate HeadsAcked(w: World, heads: map<Path, BaseVersion>)
  {
    forall p :: p in heads ==> (p, heads[p]) in w.acked
  }

  predicate IssuesOk(w: World)
  {
    w.a.id != w.b.id && forall k :: k in w.issued ==> IssueOk(w, k)
  }

  predicate RoundHeld(w: World)
  {
    w.round.Some? ==>
      AllHeld(w, w.round.value.a) && AllHeld(w, w.round.value.b) && AllHeld(w, w.round.value.target)
  }

  ghost predicate Inv(w: World)
  {
    && IssuesOk(w) && Causal(w)
    && AllHeld(w, w.a.records) && AllHeld(w, w.b.records) && RoundHeld(w)
    && HeadsAcked(w, w.a.heads) && HeadsAcked(w, w.b.heads)
  }

  predicate Init(w: World)
  {
    && w.a.id != w.b.id
    && w.a.records == map[] && w.b.records == map[] && w.a.heads == map[] && w.b.heads == map[]
    && w.round == None && w.exchange == None && w.issued == map[] && w.acked == {}
  }

  lemma IssueKeepsIssues(w: World, atA: bool, path: Path, v: Version)
    requires IssuesOk(w) && v.peer == At(w, atA).id && Fresh(w, atA, v.sequence)
    requires SeenBounded(w, v) && BaseGenuine(w, path, v)
    ensures IssuesOk(Issued(w, atA, path, v))
  {
    var w' := Issued(w, atA, path, v);
    forall k | k in w'.issued
      ensures IssueOk(w', k)
    {
      if k != (v.peer, v.sequence) {
        assert IssueOk(w, k);
      }
    }
  }

  lemma IssueKeepsCausal(w: World, atA: bool, path: Path, v: Version)
    requires IssuesOk(w) && Causal(w) && v.peer == At(w, atA).id && Fresh(w, atA, v.sequence)
    ensures Causal(Issued(w, atA, path, v))
  {
    var w' := Issued(w, atA, path, v);
    var key := (v.peer, v.sequence);
    forall j, k | j in w'.issued && k in w'.issued && j != k && Saw(w'.issued[j].version, k)
      ensures w'.issued[k].birth < w'.issued[j].birth
    {
      if j == key {
        assert IssueOk(w, k);
      } else {
        assert IssueOk(w, j);
        if k == key {
          UnmadeUnseen(w, w.issued[j].version, atA, v.sequence);
          assert false;
        }
      }
    }
  }

  lemma UnmadeUnseen(w: World, u: Version, atA: bool, sequence: nat)
    requires w.a.id != w.b.id && SeenBounded(w, u) && Fresh(w, atA, sequence)
    ensures !Saw(u, (At(w, atA).id, sequence))
  {
    forall k | 0 <= k < |u.seen| && u.seen[k].peer == At(w, atA).id
      ensures u.seen[k].sequence < sequence
    {
      assert u.seen[k] in u.seen;
    }
  }

  lemma IssueKeepsHeld(w: World, atA: bool, path: Path, v: Version, p: Path, u: Version)
    requires IssuesOk(w) && v.peer == At(w, atA).id && Fresh(w, atA, v.sequence)
    requires Holds(w, p, u)
    ensures Holds(Issued(w, atA, path, v), p, u)
  {
    assert IssueOk(w, (u.peer, u.sequence));
  }

  lemma IssueKeepsAllHeld(w: World, atA: bool, path: Path, v: Version, records: map<Path, Version>)
    requires IssuesOk(w) && v.peer == At(w, atA).id && Fresh(w, atA, v.sequence)
    requires AllHeld(w, records)
    ensures AllHeld(Issued(w, atA, path, v), records)
  {
    forall p | p in records
      ensures Holds(Issued(w, atA, path, v), p, records[p])
    {
      IssueKeepsHeld(w, atA, path, v, p, records[p]);
    }
  }

  /** A new version with bounded sight and a genuine base joins the history. */
  lemma IssueKeeps(w: World, atA: bool, path: Path, v: Version)
    requires Inv(w) && v.peer == At(w, atA).id && Fresh(w, atA, v.sequence)
    requires SeenBounded(w, v) && BaseGenuine(w, path, v)
    ensures Inv(Issued(w, atA, path, v))
    ensures Holds(Issued(w, atA, path, v), path, v)
  {
    IssueKeepsIssues(w, atA, path, v);
    IssueKeepsCausal(w, atA, path, v);
    IssueKeepsAllHeld(w, atA, path, v, w.a.records);
    IssueKeepsAllHeld(w, atA, path, v, w.b.records);
    if w.round.Some? {
      IssueKeepsAllHeld(w, atA, path, v, w.round.value.a);
      IssueKeepsAllHeld(w, atA, path, v, w.round.value.b);
      IssueKeepsAllHeld(w, atA, path, v, w.round.value.target);
    }
  }

  lemma ScannedOk(w: World, path: Path, peer: PeerId, known: Option<Version>, head: Option<BaseVersion>,
                  found: Entry, timestamp: int, sequence: nat)
    requires IssuesOk(w)
    requires known.Some? ==> Holds(w, path, known.value)
    requires head.Some? ==> (path, head.value) in w.acked
    ensures var v := ScannedVersion(peer, known, head, found, timestamp, sequence);
            SeenBounded(w, v) && BaseGenuine(w, path, v)
  {
    if known.Some? {
      var u := known.value;
      assert IssueOk(w, (u.peer, u.sequence));
      RememberFrom(u.seen, u.Id());
      RememberSees(u.seen, u.Id(), u.peer, u.sequence);
      if u.mergeBase.Some? {
        var b := u.mergeBase.value.id;
        RememberSees(u.seen, u.Id(), b.peer, b.sequence);
      }
    }
  }

  lemma MergedOk(w: World, path: Path, c: MergeCandidate, peer: PeerId, sequence: nat, entry: Entry)
    requires IssuesOk(w) && Holds(w, path, c.winner.version) && Holds(w, path, c.loser.version)
    requires c.winner.version.mergeBase == Some(c.base)
    ensures var v := MergedRecord(c, peer, sequence, entry).version;
            SeenBounded(w, v) && BaseGenuine(w, path, v)
  {
    var x, y := c.winner.version, c.loser.version;
    assert IssueOk(w, (x.peer, x.sequence)) && IssueOk(w, (y.peer, y.sequence));
    MergedSees(c, peer, sequence, entry, c.base.id.peer, c.base.id.sequence);
  }

  predicate Sourced(w: World, path: Path, d: Decision)
  {
    && Holds(w, path, d.record.version)
    && (d.merges != [] ==>
          && Holds(w, path, d.merges[0].winner.version) && Holds(w, path, d.merges[0].loser.version)
          && d.merges[0].winner.version.mergeBase == Some(d.merges[0].base))
  }

  lemma PlannedOk(w: World, path: Path)
    requires RoundHeld(w) && w.round.Some? && (path in w.round.value.a || path in w.round.value.b)
    ensures Sourced(w, path, PlanDecision(w.round.value, path))
  {
    var round := w.round.value;
    if path in round.a && path in round.b {
      var a, b := Record(path, round.a[path]), Record(path, round.b[path]);
      assert Holds(w, path, a.version) && Holds(w, path, b.version);
      PlanLaws.DecideParts(a, b);
      PlanLaws.DecideParts(b, a);
    }
  }

  predicate Within(fewer: map<Path, Version>, records: map<Path, Version>)
  {
    forall p :: p in fewer ==> p in records && fewer[p] == records[p]
  }

  lemma ScanKeeps(w: World, act: Action, sign: Signer)
    requires Inv(w) && Enabled(w, act) && Signs(sign) && act.Scan?
    ensures Inv(Apply(w, act, sign))
  {
    var r := At(w, act.atA);
    var known, head := Get(r.records, act.path), Get(r.heads, act.path);
    if ScanChanges(known, act.found) {
      var plain := ScannedVersion(r.id, known, head, act.found, act.timestamp, act.sequence);
      var v := sign(Record(act.path, plain)).version;
      ScannedOk(w, act.path, r.id, known, head, act.found, act.timestamp, act.sequence);
      assert v.seen == plain.seen && v.mergeBase == plain.mergeBase;
      IssueKeeps(w, act.atA, act.path, v);
      ReplaceKeeps(Issued(w, act.atA, act.path, v), act.atA, act.path, v);
    }
  }

  /** A replica may take any issued version of a path. */
  lemma ReplaceKeeps(w: World, atA: bool, path: Path, v: Version)
    requires Inv(w) && Holds(w, path, v)
    ensures var r := At(w, atA);
            Inv(WithReplica(w, atA, r.(records := r.records[path := v])))
  {
    var r := At(w, atA);
    var w' := WithReplica(w, atA, r.(records := r.records[path := v]));
    forall k | k in w'.issued
      ensures IssueOk(w', k)
    {
      assert IssueOk(w, k);
    }
    HeldAlike(w, w');
  }

  /** Holding depends on the history only. */
  lemma HeldAlike(w: World, w': World)
    requires w'.issued == w.issued
    ensures forall p, u :: Holds(w, p, u) <==> Holds(w', p, u)
    ensures Causal(w) <==> Causal(w')
  {
  }

  lemma PlanKeeps(w: World, act: Action, sign: Signer)
    requires Inv(w) && Enabled(w, act) && Signs(sign) && act.PlanPath?
    ensures Inv(Apply(w, act, sign))
  {
    var round := w.round.value;
    var d := PlanDecision(round, act.path);
    PlannedOk(w, act.path);
    if d.merges != [] && act.merged.Some? {
      var plain := MergedRecord(d.merges[0], At(w, round.connectorIsA).id, act.sequence, act.merged.value);
      var v := sign(plain).version;
      MergedOk(w, act.path, d.merges[0], At(w, round.connectorIsA).id, act.sequence, act.merged.value);
      assert v.seen == plain.version.seen && v.mergeBase == plain.version.mergeBase;
      IssueKeeps(w, round.connectorIsA, act.path, v);
      TargetKeeps(Issued(w, round.connectorIsA, act.path, v), act.path, v);
    } else {
      TargetKeeps(w, act.path, d.record.version);
    }
  }

  lemma TargetKeeps(w: World, path: Path, v: Version)
    requires Inv(w) && w.round.Some? && Holds(w, path, v)
    ensures var round := w.round.value;
            Inv(w.(round := Some(round.(target := round.target[path := v]))))
  {
    var round := w.round.value;
    var w' := w.(round := Some(round.(target := round.target[path := v])));
    forall k | k in w'.issued
      ensures IssueOk(w', k)
    {
      assert IssueOk(w, k);
    }
    HeldAlike(w, w');
  }

  /** More bases, and fewer records or other heads among them, change nothing. */
  lemma LessKeeps(w: World, w': World)
    requires Inv(w) && w'.issued == w.issued && w'.clock == w.clock && w.acked <= w'.acked
    requires w'.round == w.round || w'.round == None || w'.round == Some(Round(w'.round.value.connectorIsA, w.a.records, w.b.records, map[]))
    requires w'.a.id == w.a.id && w'.a.counter == w.a.counter && w'.b.id == w.b.id && w'.b.counter == w.b.counter
    requires Within(w'.a.records, w.a.records) && Within(w'.b.records, w.b.records)
    requires HeadsAcked(w', w'.a.heads) && HeadsAcked(w', w'.b.heads)
    ensures Inv(w')
  {
    forall k | k in w'.issued
      ensures IssueOk(w', k)
    {
      assert IssueOk(w, k);
    }
    HeldAlike(w, w');
  }

  /** Storing heads acknowledges them. */
  lemma StoredKeeps(w: World, atA: bool, shared: seq<Record>, exchange: Option<Exchange>)
    requires Inv(w)
    ensures Inv(Stored(w, atA, shared).(exchange := exchange))
  {
    LessKeeps(w, Stored(w, atA, shared).(exchange := exchange));
  }

  lemma HeadsKeep(w: World, act: Action, sign: Signer)
    requires Inv(w) && Enabled(w, act) && (act.TakeHeads? || act.StoreAnswer?)
    ensures Inv(Apply(w, act, sign))
  {
    var e := w.exchange.value;
    LessKeeps(w, w.(exchange := None));
    if act.StoreAnswer? {
      StoredKeeps(w, !e.connectorIsA, e.answer.value, None);
    } else if Answer(act.own, e.frozen).Some? {
      var answer := Answer(act.own, e.frozen);
      StoredKeeps(w, e.connectorIsA, answer.value, Some(e.(answer := answer)));
    }
  }

  /** The remaining steps make no version and take none over. */
  lemma OtherKeeps(w: World, act: Action, sign: Signer)
    requires Inv(w) && Enabled(w, act)
    requires act.Begin? || act.Drop? || act.Offer? || act.Leave? || act.Abandon? || act.End?
    ensures Inv(Apply(w, act, sign))
  {
    LessKeeps(w, Apply(w, act, sign));
  }

  /** Every step keeps the invariant. */
  lemma StepKeeps(w: World, act: Action, sign: Signer)
    requires Inv(w) && Enabled(w, act) && Signs(sign)
    ensures Inv(Apply(w, act, sign))
  {
    match act
    case Scan(_, _, _, _, _) => ScanKeeps(w, act, sign);
    case PlanPath(_, _, _) => PlanKeeps(w, act, sign);
    case Install(atA, path) =>
      assert Holds(w, path, w.round.value.target[path]);
      ReplaceKeeps(w, atA, path, w.round.value.target[path]);
    case TakeHeads(_) => HeadsKeep(w, act, sign);
    case StoreAnswer => HeadsKeep(w, act, sign);
    case _ => OtherKeeps(w, act, sign);
  }

  ghost predicate Runs(w: World, acts: seq<Action>, sign: Signer)
    decreases |acts|
  {
    acts == [] || (Enabled(w, acts[0]) && Runs(Apply(w, acts[0], sign), acts[1..], sign))
  }

  /** The world after a run. */
  ghost function After(w: World, acts: seq<Action>, sign: Signer): World
    requires Runs(w, acts, sign)
    decreases |acts|
  {
    if acts == [] then w else After(Apply(w, acts[0], sign), acts[1..], sign)
  }

  lemma {:induction false} RunSnoc(w: World, acts: seq<Action>, act: Action, sign: Signer)
    requires Runs(w, acts, sign) && Enabled(After(w, acts, sign), act)
    ensures Runs(w, acts + [act], sign)
    ensures After(w, acts + [act], sign) == Apply(After(w, acts, sign), act, sign)
    decreases |acts|
  {
    if acts == [] {
      assert [] + [act] == [act] && [act][1..] == [];
    } else {
      RunSnoc(Apply(w, acts[0], sign), acts[1..], act, sign);
      assert (acts + [act])[0] == acts[0] && (acts + [act])[1..] == acts[1..] + [act];
    }
  }

  /** Any part of a run from its start is a run. */
  lemma {:induction false} RunPrefix(w: World, acts: seq<Action>, n: nat, sign: Signer)
    requires Runs(w, acts, sign) && n <= |acts|
    ensures Runs(w, acts[..n], sign)
    ensures n < |acts| ==> Enabled(After(w, acts[..n], sign), acts[n])
    decreases |acts|
  {
    if n > 0 {
      RunPrefix(Apply(w, acts[0], sign), acts[1..], n - 1, sign);
      assert acts[..n][0] == acts[0] && acts[..n][1..] == acts[1..][..n - 1];
    }
  }

  /** The last step of a run. */
  lemma RunLast(w: World, acts: seq<Action>, sign: Signer)
    requires Runs(w, acts, sign) && acts != []
    ensures var n := |acts| - 1;
            && Runs(w, acts[..n], sign) && Enabled(After(w, acts[..n], sign), acts[n])
            && After(w, acts, sign) == Apply(After(w, acts[..n], sign), acts[n], sign)
  {
    var n := |acts| - 1;
    RunPrefix(w, acts, n, sign);
    RunSnoc(w, acts[..n], acts[n], sign);
    assert acts[..n] + [acts[n]] == acts;
  }

  lemma {:induction false} RunKeeps(w: World, acts: seq<Action>, sign: Signer)
    requires Inv(w) && Runs(w, acts, sign) && Signs(sign)
    ensures Inv(After(w, acts, sign))
    decreases |acts|
  {
    if acts != [] {
      StepKeeps(w, acts[0], sign);
      RunKeeps(Apply(w, acts[0], sign), acts[1..], sign);
    }
  }

  // ---------------------------------------------------------------- what the invariant gives

  /** Two versions of the history with different identities never see each other, and
      one identity is one version. */
  lemma SightIsOneWay(w: World, path: Path, u: Version, v: Version)
    requires Inv(w) && Holds(w, path, u) && Holds(w, path, v)
    ensures Comparable(Record(path, u), Record(path, v))
  {
    var j, k := (u.peer, u.sequence), (v.peer, v.sequence);
    LwwAntisymmetric(u, v);
    if j != k && Saw(u, k) && Saw(v, j) {
      assert false;
    }
  }

  /** The records a replica advertises are among its records. */
  predicate Advertises(records: seq<Record>, held: map<Path, Version>)
  {
    forall p :: p in ByPath(records) ==> p in held && ByPath(records)[p].version == held[p]
  }

  lemma PlansAgree(w: World, local: seq<Record>, remote: seq<Record>)
    requires Inv(w) && Advertises(local, w.a.records) && Advertises(remote, w.b.records)
    ensures AllComparable(local, remote)
    ensures PlanOf(remote, local) == PlanOf(local, remote)
  {
    var l, r := ByPath(local), ByPath(remote);
    forall p | p in l && p in r
      ensures Comparable(l[p], r[p])
    {
      assert Holds(w, p, w.a.records[p]) && Holds(w, p, w.b.records[p]);
      SightIsOneWay(w, p, l[p].version, r[p].version);
    }
    PlanSymmetric(local, remote);
  }

  /** In every reachable world the responder that recomputes the plan with the sides
      swapped gets the connector's plan. */
  lemma RecomputedPlanIsTheSame(w: World, acts: seq<Action>, sign: Signer, local: seq<Record>, remote: seq<Record>)
    requires Init(w) && Runs(w, acts, sign) && Signs(sign)
    requires Advertises(local, After(w, acts, sign).a.records) && Advertises(remote, After(w, acts, sign).b.records)
    ensures PlanOf(remote, local) == PlanOf(local, remote)
  {
    RunKeeps(w, acts, sign);
    PlansAgree(After(w, acts, sign), local, remote);
  }

  /** A merge made in a round has seen both its inputs, and neither has seen it: either
      input meets it without any conflict, so an interrupted round is simply redone. */
  lemma MergeIsAbsorbed(w: World, path: Path, merged: Entry, sequence: nat, sign: Signer)
    requires Inv(w) && Signs(sign) && Enabled(w, PlanPath(path, Some(merged), sequence))
    requires PlanDecision(w.round.value, path).merges != []
    ensures var c := PlanDecision(w.round.value, path).merges[0];
            var m := Record(path, Apply(w, PlanPath(path, Some(merged), sequence), sign).round.value.target[path]);
            && Decide(c.winner, m) == Decide(m, c.winner) == Decision(m, [], [])
            && Decide(c.loser, m) == Decide(m, c.loser) == Decision(m, [], [])
  {
    var round := w.round.value;
    PlannedOk(w, path);
    FreshMergeAbsorbed(w, path, PlanDecision(round, path).merges[0], round.connectorIsA, merged, sequence, sign);
  }

  lemma FreshMergeAbsorbed(w: World, path: Path, c: MergeCandidate, atA: bool, merged: Entry, sequence: nat, sign: Signer)
    requires IssuesOk(w) && Signs(sign) && Fresh(w, atA, sequence)
    requires Holds(w, path, c.winner.version) && Holds(w, path, c.loser.version)
    ensures var m := Record(path, sign(MergedRecord(c, At(w, atA).id, sequence, merged)).version);
            && Decide(c.winner, m) == Decide(m, c.winner) == Decision(m, [], [])
            && Decide(c.loser, m) == Decide(m, c.loser) == Decision(m, [], [])
  {
    var id := At(w, atA).id;
    var m := sign(MergedRecord(c, id, sequence, merged));
    var x, y := c.winner.version, c.loser.version;
    assert IssueOk(w, (x.peer, x.sequence)) && IssueOk(w, (y.peer, y.sequence));
    UnmadeUnseen(w, x, atA, sequence);
    UnmadeUnseen(w, y, atA, sequence);
    MergedSees(c, id, sequence, merged, x.peer, x.sequence);
    MergedSees(c, id, sequence, merged, y.peer, y.sequence);
    PlanLaws.DecideAfterMerge(c.winner, c.loser, Record(path, m.version));
  }

  /** The base of every held version was acknowledged and has been seen by it, so two
      concurrent files with one base always become a merge candidate. */
  lemma BasesAreGenuine(w: World, path: Path, u: Version, v: Version)
    requires Inv(w) && Holds(w, path, u) && Holds(w, path, v)
    ensures u.mergeBase.Some? ==> (path, u.mergeBase.value) in w.acked && u.HasSeen(u.mergeBase.value.id)
    ensures u.mergeBase.Some? && u.mergeBase == v.mergeBase ==> GenuineBase(u, v)
  {
    assert IssueOk(w, (u.peer, u.sequence)) && IssueOk(w, (v.peer, v.sequence));
  }
}
