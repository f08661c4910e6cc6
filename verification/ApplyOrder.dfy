/** Applying a whole plan to a directory tree (src/sync.rs:1943-2147): which records
    are applied, in which order, and what each of them does to the tree. */
module ApplyOrder {
  import opened Bytes
  import opened Model
  import opened Paths
  import opened Reconcile
  import Heads
  import Install
  import InstallEnds
  import InstallLaws

  /** What is on disk at a path. A file is its contents, known by their hash. */
  datatype Shape =
    | FileShape(hash: ObjectHash, executable: bool)
    | DirShape
    | LinkShape(target: seq<Byte>)

  type Tree = map<Path, Shape>

  function ShapeOf(e: Entry): Option<Shape>
  {
    match e
    case File(hash, _, executable) => Some(FileShape(hash, executable))
    case Directory => Some(DirShape)
    case Symlink(target) => Some(LinkShape(target))
    case Tombstone => None
  }

  function At(tree: Tree, p: Path): Option<Shape>
  {
    if p in tree then Some(tree[p]) else None
  }

  /** The shape the records give a path. */
  function Wanted(records: map<Path, Record>, p: Path): Option<Shape>
  {
    if p in records then ShapeOf(records[p].version.entry) else None
  }

  function TreeOf(records: map<Path, Record>): (tree: Tree)
    ensures forall p :: At(tree, p) == Wanted(records, p)
  {
    map p | p in records && Wanted(records, p).Some? :: Wanted(records, p).value
  }

  /** Everything lies in directories. */
  ghost predicate WellFormed(tree: Tree)
  {
    forall p, q :: p in tree && IsAncestor(q, p) ==> At(tree, q) == Some(DirShape)
  }

  predicate HasChildren(tree: Tree, p: Path)
  {
    exists c :: c in tree && IsAncestor(p, c)
  }

  // ---------------------------------------------------------------- one record

  datatype Error = ParentNotDirectory | Changed | Gone | NotEmpty | Collision

  /** What happened to one record; `created` are the missing parents that had to be made. */
  datatype Step = Done(tree: Tree, created: set<Path>) | Stopped(error: Error)

  predicate Skips(entry: Entry, expected: Option<Entry>)
  {
    entry.Tombstone? && Install.NothingRecorded(expected)
  }

  function Live(expected: Option<Entry>): Option<Shape>
  {
    if expected.None? then None else ShapeOf(expected.value)
  }

  function Put(tree: Tree, p: Path, shape: Option<Shape>): Tree
  {
    if shape.Some? then tree[p := shape.value] else tree - {p}
  }

  function MissingParents(tree: Tree, p: Path): set<Path>
  {
    set q | q in Ancestors(p) && q !in tree
  }

  function WithDirectories(tree: Tree, made: set<Path>): Tree
  {
    tree + map q | q in made :: DirShape
  }

  /** Applies one record: makes missing parents, leaves a matching entry alone, and
      replaces what was recorded before unless it is a directory in use. */
  function ApplyOne(tree: Tree, p: Path, entry: Entry, expected: Option<Entry>): Step
  {
    if Skips(entry, expected) then Done(tree, {})
    else if exists q :: q in Ancestors(p) && q in tree && tree[q] != DirShape then Stopped(ParentNotDirectory)
    else
      var created := MissingParents(tree, p);
      var base := WithDirectories(tree, created);
      if At(base, p) == ShapeOf(entry) then Done(base, created)
      else if At(base, p) == None then
        if Live(expected) == None then Done(Put(base, p, ShapeOf(entry)), created) else Stopped(Gone)
      else if At(base, p) != Live(expected) then Stopped(Changed)
      else if At(base, p) == Some(DirShape) && HasChildren(base, p) then Stopped(NotEmpty)
      else Done(Put(base, p, ShapeOf(entry)), created)
  }

  /** Every parent of the path is a directory. */
  predicate InDirectories(tree: Tree, p: Path)
  {
    forall q :: q in Ancestors(p) ==> At(tree, q) == Some(DirShape)
  }

  /** The snapshot of a watch round holds this very record. */
  predicate Guarded(snapshot: map<Path, Record>, r: Record)
  {
    r.path in snapshot && snapshot[r.path].version == r.version
  }

  /** A record of the snapshot is not applied: the disk must still show it. A path is
      looked up through its parents, so even a deleted one counts as changed when its
      directory is gone. */
  function ApplyGuarded(tree: Tree, r: Record, expected: Option<Entry>, snapshot: map<Path, Record>): Step
  {
    if !Guarded(snapshot, r) then ApplyOne(tree, r.path, r.version.entry, expected)
    else if InDirectories(tree, r.path) && At(tree, r.path) == ShapeOf(r.version.entry) then Done(tree, {})
    else Stopped(Changed)
  }

  // ---------------------------------------------------------------- the order

  const MAX_DEPTH: int := 0xFFFF_FFFF_FFFF_FFFF

  function Kind(e: Entry): nat
  {
    match e
    case Tombstone => 0
    case Directory => 1
    case File(_, _, _) => 2
    case Symlink(_) => 2
  }

  /** Deletions deepest first, then directories and then the rest, shallowest first. */
  predicate Before(a: Record, b: Record)
  {
    || Kind(a.version.entry) < Kind(b.version.entry)
    || (Kind(a.version.entry) == Kind(b.version.entry) && DepthKey(a) < DepthKey(b))
  }

  function DepthKey(r: Record): int
  {
    if r.version.entry.Tombstone? then MAX_DEPTH - Depth(r.path) else Depth(r.path)
  }

  function InsertByKey(r: Record, sorted: seq<Record>): seq<Record>
  {
    if sorted == [] || !Before(sorted[0], r) then [r] + sorted
    else [sorted[0]] + InsertByKey(r, sorted[1..])
  }

  function SortByKey(records: seq<Record>): seq<Record>
  {
    if records == [] then [] else InsertByKey(records[0], SortByKey(records[1..]))
  }

  /** The records to apply: not those that only forget what was never recorded, and not
      those of retained paths. */
  function Accepted(records: seq<Record>, prior: map<Path, Record>, retained: set<Path>): seq<Record>
  {
    if records == [] then []
    else
      var r := records[0];
      var skipped := (r.version.entry.Tombstone? && r.path !in prior) || r.path in retained;
      (if skipped then [] else [r]) + Accepted(records[1..], prior, retained)
  }

  function Ordered(records: seq<Record>, prior: map<Path, Record>, retained: set<Path>): seq<Record>
  {
    SortByKey(Accepted(records, prior, retained))
  }

  // ---------------------------------------------------------------- ignored records

  /** What is taken of a plan's record: nothing when it only forgets what was never
      recorded, and for an ignored one what was recorded before. */
  function Taken(r: Record, prior: map<Path, Record>, ignored: Record -> bool): Option<Record>
  {
    if r.version.entry.Tombstone? && r.path !in prior then None
    else if !ignored(r) then Some(r)
    else if r.path in prior then Some(prior[r.path])
    else None
  }

  /** The records to apply: what is taken, but for ignored and retained records. */
  function Visible(records: seq<Record>, prior: map<Path, Record>, retained: set<Path>, ignored: Record -> bool): seq<Record>
  {
    if records == [] then []
    else
      var t := Taken(records[0], prior, ignored);
      (if t.Some? && !ignored(t.value) && t.value.path !in retained then [t.value] else [])
      + Visible(records[1..], prior, retained, ignored)
  }

  function OrderedVisible(records: seq<Record>, prior: map<Path, Record>, retained: set<Path>, ignored: Record -> bool)
    : seq<Record>
  {
    SortByKey(Visible(records, prior, retained, ignored))
  }

  /** An ignored record that was never recorded meets something on the disk. */
  predicate Collides(tree: Tree, r: Record, prior: map<Path, Record>, ignored: Record -> bool)
  {
    && ignored(r) && r.path !in prior
    && (r.path in tree || exists q :: q in Ancestors(r.path) && q in tree && tree[q].FileShape?)
  }

  /** A whole plan: nothing is touched when an ignored record collides. */
  function ApplyWhole(tree: Tree, records: seq<Record>, prior: map<Path, Record>, retained: set<Path>,
                      snapshot: map<Path, Record>, ignored: Record -> bool): Step
  {
    if exists k :: 0 <= k < |records| && Collides(tree, records[k], prior, ignored) then Stopped(Collision)
    else ApplyEach(tree, OrderedVisible(records, prior, retained, ignored), prior, snapshot)
  }

  function Recorded(prior: map<Path, Record>, p: Path): Option<Entry>
  {
    if p in prior then Some(prior[p].version.entry) else None
  }

  /** What went before and what comes after. */
  function Joined(created: set<Path>, rest: Step): Step
  {
    if rest.Stopped? then rest else Done(rest.tree, created + rest.created)
  }

  /** Applying the records one after the other, up to the first that stops. */
  function ApplyEach(tree: Tree, ordered: seq<Record>, prior: map<Path, Record>, snapshot: map<Path, Record>): Step
    decreases |ordered|
  {
    if ordered == [] then Done(tree, {})
    else
      var r := ordered[0];
      var step := ApplyGuarded(tree, r, Recorded(prior, r.path), snapshot);
      if step.Stopped? then step
      else
        Joined(step.created, ApplyEach(step.tree, ordered[1..], prior, snapshot))
  }

  /** What a record that stops the loop leaves: the parents it made. */
  function Halted(tree: Tree, r: Record, snapshot: map<Path, Record>): Tree
  {
    if Guarded(snapshot, r) || exists q :: q in Ancestors(r.path) && q in tree && tree[q] != DirShape then tree
    else WithDirectories(tree, MissingParents(tree, r.path))
  }

  /** The tree the loop leaves, whether it ends or stops. */
  function LeftBy(tree: Tree, ordered: seq<Record>, prior: map<Path, Record>, snapshot: map<Path, Record>): Tree
    decreases |ordered|
  {
    if ordered == [] then tree
    else
      var r := ordered[0];
      var step := ApplyGuarded(tree, r, Recorded(prior, r.path), snapshot);
      if step.Stopped? then Halted(tree, r, snapshot) else LeftBy(step.tree, ordered[1..], prior, snapshot)
  }

  /** The directory a plan is applied to, changed record by record. */
  class Disk {
    var tree: Tree
    var created: set<Path>

    constructor (tree: Tree)
      ensures this.tree == tree && created == {}
    {
      this.tree := tree;
      created := {};
    }

    method ApplyRecord(p: Path, entry: Entry, expected: Option<Entry>) returns (error: Option<Error>)
      modifies this
      ensures var step := ApplyOne(old(tree), p, entry, expected);
              if step.Stopped? then
                error == Some(step.error)
                && tree == (if step.error == ParentNotDirectory then old(tree)
                            else WithDirectories(old(tree), MissingParents(old(tree), p)))
              else error == None && tree == step.tree && created == old(created) + step.created
    {
      if Skips(entry, expected) {
        assert created == created + {};
        return None;
      }
      if exists q :: q in Ancestors(p) && q in tree && tree[q] != DirShape {
        return Some(ParentNotDirectory);
      }
      var missing := MissingParents(tree, p);
      tree, created := WithDirectories(tree, missing), created + missing;
      if At(tree, p) == ShapeOf(entry) {
        return None;
      }
      if At(tree, p) == None {
        if Live(expected) == None {
          tree := Put(tree, p, ShapeOf(entry));
        }
        return if Live(expected) == None then None else Some(Gone);
      }
      if At(tree, p) != Live(expected) {
        return Some(Changed);
      }
      if At(tree, p) == Some(DirShape) && HasChildren(tree, p) {
        return Some(NotEmpty);
      }
      tree := Put(tree, p, ShapeOf(entry));
      error := None;
    }

    /** Applies one record, or only looks at it when the snapshot holds it. */
    method ApplyUnlessGuarded(r: Record, expected: Option<Entry>, snapshot: map<Path, Record>) returns (error: Option<Error>)
      modifies this
      ensures var step := ApplyGuarded(old(tree), r, expected, snapshot);
              if step.Stopped? then error == Some(step.error) && tree == Halted(old(tree), r, snapshot)
              else error == None && tree == step.tree && created == old(created) + step.created
    {
      if Guarded(snapshot, r) {
        assert created == created + {};
        error := if InDirectories(tree, r.path) && At(tree, r.path) == ShapeOf(r.version.entry) then None else Some(Changed);
      } else {
        error := ApplyRecord(r.path, r.version.entry, expected);
      }
    }

    /** Applies the records of a plan in order, up to the first that stops. */
    method ApplyPlan(records: seq<Record>, prior: map<Path, Record>, retained: set<Path>, snapshot: map<Path, Record>,
                     ignored: Record -> bool)
      returns (error: Option<Error>)
      requires created == {}
      modifies this
      ensures var step := ApplyWhole(old(tree), records, prior, retained, snapshot, ignored);
              if step.Stopped? then error == Some(step.error)
              else error == None && tree == step.tree && created == step.created
      ensures tree == if error == Some(Collision) then old(tree)
                      else LeftBy(old(tree), OrderedVisible(records, prior, retained, ignored), prior, snapshot)
    {
      for k := 0 to |records|
        invariant tree == old(tree) && created == {}
        invariant forall n :: 0 <= n < k ==> !Collides(tree, records[n], prior, ignored)
      {
        if Collides(tree, records[k], prior, ignored) {
          return Some(Collision);
        }
      }
      error := ApplyOrdered(OrderedVisible(records, prior, retained, ignored), prior, snapshot);
    }

    method ApplyOrdered(ordered: seq<Record>, prior: map<Path, Record>, snapshot: map<Path, Record>)
      returns (error: Option<Error>)
      requires created == {}
      modifies this
      ensures var step := ApplyEach(old(tree), ordered, prior, snapshot);
              if step.Stopped? then error == Some(step.error)
              else error == None && tree == step.tree && created == step.created
      ensures tree == LeftBy(old(tree), ordered, prior, snapshot) && error != Some(Collision)
    {
      ghost var (was, whole) := (tree, ApplyEach(tree, ordered, prior, snapshot));
      assert ordered[0..] == ordered;
      var i := 0;
      while i < |ordered|
        invariant i <= |ordered|
        invariant LeftBy(tree, ordered[i..], prior, snapshot) == LeftBy(was, ordered, prior, snapshot)
        invariant whole == Joined(created, ApplyEach(tree, ordered[i..], prior, snapshot))
      {
        EachGoesOn(tree, created, ordered, i, prior, snapshot);
        error := ApplyUnlessGuarded(ordered[i], Recorded(prior, ordered[i].path), snapshot);
        if error.Some? {
          return;
        }
        i := i + 1;
      }
      error := None;
    }
  }

  /** The loop from the `i`-th record on is that record and then the others. */
  lemma EachGoesOn(tree: Tree, created: set<Path>, ordered: seq<Record>, i: nat, prior: map<Path, Record>, snapshot: map<Path, Record>)
    requires i < |ordered|
    ensures var step := ApplyGuarded(tree, ordered[i], Recorded(prior, ordered[i].path), snapshot);
            && LeftBy(tree, ordered[i..], prior, snapshot)
               == (if step.Stopped? then Halted(tree, ordered[i], snapshot) else LeftBy(step.tree, ordered[i + 1..], prior, snapshot))
            && Joined(created, ApplyEach(tree, ordered[i..], prior, snapshot))
               == (if step.Stopped? then step
                   else Joined(created + step.created, ApplyEach(step.tree, ordered[i + 1..], prior, snapshot)))
            && step != Stopped(Collision)
  {
    assert ordered[i..][0] == ordered[i] && ordered[i..][1..] == ordered[i + 1..];
    var step := ApplyGuarded(tree, ordered[i], Recorded(prior, ordered[i].path), snapshot);
    if step.Done? {
      var rest := ApplyEach(step.tree, ordered[i + 1..], prior, snapshot);
      assert rest.Done? ==> created + (step.created + rest.created) == (created + step.created) + rest.created;
    }
  }

  // ---------------------------------------------------------------- the sort

  predicate InOrder(sorted: seq<Record>)
  {
    forall i, j :: 0 <= i < j < |sorted| ==> !Before(sorted[j], sorted[i])
  }

  lemma ConsInOrder(r: Record, rest: seq<Record>)
    requires InOrder(rest) && (rest != [] ==> !Before(rest[0], r))
    ensures InOrder([r] + rest)
  {
    var all := [r] + rest;
    forall i, j | 0 <= i < j < |all|
      ensures !Before(all[j], all[i])
    {
      assert all[j] == rest[j - 1];
      if i > 0 {
        assert all[i] == rest[i - 1];
      }
    }
  }

  lemma {:induction false} InsertByKeySorts(r: Record, sorted: seq<Record>)
    requires InOrder(sorted)
    ensures InOrder(InsertByKey(r, sorted))
    ensures multiset(InsertByKey(r, sorted)) == multiset(sorted) + multiset{r}
    ensures InsertByKey(r, sorted)[0] == r || (sorted != [] && InsertByKey(r, sorted)[0] == sorted[0])
  {
    if sorted == [] || !Before(sorted[0], r) {
      ConsInOrder(r, sorted);
    } else {
      InsertByKeySorts(r, sorted[1..]);
      ConsInOrder(sorted[0], InsertByKey(r, sorted[1..]));
      assert sorted == [sorted[0]] + sorted[1..];
    }
  }

  lemma {:induction false} SortByKeySorts(records: seq<Record>)
    ensures InOrder(SortByKey(records))
    ensures multiset(SortByKey(records)) == multiset(records)
  {
    if records != [] {
      SortByKeySorts(records[1..]);
      InsertByKeySorts(records[0], SortByKey(records[1..]));
      assert records == [records[0]] + records[1..];
    }
  }

  lemma {:induction false} AcceptedMembers(records: seq<Record>, prior: map<Path, Record>, retained: set<Path>)
    ensures forall r :: r in Accepted(records, prior, retained) <==>
              r in records && !(r.version.entry.Tombstone? && r.path !in prior) && r.path !in retained
  {
    if records != [] {
      AcceptedMembers(records[1..], prior, retained);
      assert records == [records[0]] + records[1..];
    }
  }

  lemma OrderedMembers(records: seq<Record>, prior: map<Path, Record>, retained: set<Path>)
    ensures InOrder(Ordered(records, prior, retained))
    ensures forall r :: r in Ordered(records, prior, retained) <==>
              r in records && !(r.version.entry.Tombstone? && r.path !in prior) && r.path !in retained
  {
    var accepted := Accepted(records, prior, retained);
    SortByKeySorts(accepted);
    AcceptedMembers(records, prior, retained);
    forall r
      ensures r in SortByKey(accepted) <==> r in accepted
    {
      assert r in SortByKey(accepted) <==> r in multiset(SortByKey(accepted));
    }
  }

  // ---------------------------------------------------------------- the theorem

  /** What must hold of a plan: it speaks of every live recorded path, and at retained
      paths it wants what is recorded. */
  ghost predicate Covers(records: map<Path, Record>, prior: map<Path, Record>, retained: set<Path>)
  {
    && (forall p :: p in TreeOf(prior) ==> p in records)
    && (forall p :: p in retained ==> Wanted(records, p) == Wanted(prior, p))
  }

  /** Everything applied so far is as wanted, and nothing else has changed. */
  ghost predicate Halfway(tree: Tree, applied: seq<Record>, records: map<Path, Record>, prior: map<Path, Record>)
  {
    forall p :: At(tree, p) == if p in PathsIn(applied) then Wanted(records, p) else Wanted(prior, p)
  }

  function PathsIn(records: seq<Record>): set<Path>
  {
    set r | r in records :: r.path
  }

  /** The data of an application half done: `ordered` is split at `i`. */
  ghost predicate Underway(ordered: seq<Record>, i: nat, tree: Tree, records: map<Path, Record>,
                           prior: map<Path, Record>, retained: set<Path>)
  {
    && i <= |ordered| && InOrder(ordered)
    && WellFormed(TreeOf(prior)) && WellFormed(TreeOf(records)) && Covers(records, prior, retained)
    && (forall r :: r in ordered ==> r.path in records && records[r.path] == r)
    && (forall p :: p in records ==> records[p].path == p)
    && (forall p :: p in records && p !in retained && !(records[p].version.entry.Tombstone? && p !in prior) ==>
          records[p] in ordered)
    && (forall r :: r in ordered ==> r.path !in retained)
    && Halfway(tree, ordered[..i], records, prior)
  }

  lemma PathsInIndex(ordered: seq<Record>, i: nat, p: Path)
    requires i <= |ordered|
    ensures p in PathsIn(ordered[..i]) <==> exists j :: 0 <= j < i && ordered[j].path == p
  {
    if p in PathsIn(ordered[..i]) {
      var s :| s in ordered[..i] && s.path == p;
      var j :| 0 <= j < i && ordered[..i][j] == s;
      assert ordered[j].path == p;
    }
    if j :| 0 <= j < i && ordered[j].path == p {
      assert ordered[..i][j] in ordered[..i];
    }
  }

  /** A record that must come earlier has come already. */
  lemma EarlierIsDone(ordered: seq<Record>, i: nat, r: Record)
    requires InOrder(ordered) && i < |ordered| && r in ordered && Before(r, ordered[i])
    ensures r.path in PathsIn(ordered[..i])
  {
    PathsInIndex(ordered, i, r.path);
    var j :| 0 <= j < |ordered| && ordered[j] == r;
  }

  /** A path whose records all come later is not done. */
  lemma LaterIsNotDone(ordered: seq<Record>, i: nat, p: Path)
    requires InOrder(ordered) && i < |ordered|
    requires forall s :: s in ordered && s.path == p ==> Before(ordered[i], s)
    ensures p !in PathsIn(ordered[..i])
  {
    PathsInIndex(ordered, i, p);
  }

  lemma AncestorWanted(records: map<Path, Record>, p: Path, q: Path)
    requires WellFormed(TreeOf(records)) && IsAncestor(q, p) && Wanted(records, p).Some?
    ensures q in records && records[q].version.entry.Directory?
  {
    assert At(TreeOf(records), p).Some?;
    assert At(TreeOf(records), q) == Wanted(records, q);
  }

  /** Every parent of the next record is a directory, and none has to be made. */
  lemma ParentsReady(ordered: seq<Record>, i: nat, tree: Tree, records: map<Path, Record>, prior: map<Path, Record>,
                     retained: set<Path>, q: Path)
    requires Underway(ordered, i, tree, records, prior, retained) && i < |ordered|
    requires !Skips(ordered[i].version.entry, Recorded(prior, ordered[i].path)) && IsAncestor(q, ordered[i].path)
    ensures At(tree, q) == Some(DirShape)
  {
    var r := ordered[i];
    assert r in ordered;
    AncestorShallower(q, r.path);
    if r.version.entry.Tombstone? {
      AncestorWanted(prior, r.path, q);
      LaterIsNotDone(ordered, i, q);
    } else {
      AncestorWanted(records, r.path, q);
      if q !in retained {
        assert records[q] in ordered;
        EarlierIsDone(ordered, i, records[q]);
      }
    }
  }

  /** Nothing is left below a path that is to stop being a directory. */
  lemma ChildIsGone(ordered: seq<Record>, i: nat, tree: Tree, records: map<Path, Record>, prior: map<Path, Record>,
                    retained: set<Path>, c: Path)
    requires Underway(ordered, i, tree, records, prior, retained) && i < |ordered|
    requires ShapeOf(ordered[i].version.entry) != Some(DirShape) && IsAncestor(ordered[i].path, c)
    ensures c !in tree
  {
    var r := ordered[i];
    assert r in ordered;
    AncestorShallower(r.path, c);
    if Wanted(records, c).Some? {
      AncestorWanted(records, c, r.path);
      assert false;
    }
    if Wanted(prior, c).Some? {
      assert c in TreeOf(prior);
      assert records[c] in ordered && records[c].version.entry.Tombstone?;
      EarlierIsDone(ordered, i, records[c]);
    }
    assert At(tree, c).None?;
  }

  /** A directory that is removed or displaced is empty when its turn comes. */
  lemma DisplacedIsEmpty(ordered: seq<Record>, i: nat, tree: Tree, records: map<Path, Record>, prior: map<Path, Record>,
                         retained: set<Path>)
    requires Underway(ordered, i, tree, records, prior, retained) && i < |ordered|
    requires ShapeOf(ordered[i].version.entry) != Some(DirShape)
    ensures !HasChildren(tree, ordered[i].path)
  {
    forall c | IsAncestor(ordered[i].path, c)
      ensures c !in tree
    {
      ChildIsGone(ordered, i, tree, records, prior, retained, c);
    }
  }

  lemma OneMore(ordered: seq<Record>, i: nat, p: Path)
    requires i < |ordered|
    ensures p in PathsIn(ordered[..i + 1]) <==> p in PathsIn(ordered[..i]) || p == ordered[i].path
  {
    PathsInIndex(ordered, i, p);
    PathsInIndex(ordered, i + 1, p);
  }

  /** Where a step neither makes parents nor stops, it sets one path. */
  lemma StepSets(tree: Tree, p: Path, entry: Entry, expected: Option<Entry>)
    requires !Skips(entry, expected) && forall q :: IsAncestor(q, p) ==> At(tree, q) == Some(DirShape)
    requires At(tree, p) == Live(expected) || At(tree, p) == ShapeOf(entry)
    requires ShapeOf(entry) != Some(DirShape) ==> !HasChildren(tree, p)
    ensures var step := ApplyOne(tree, p, entry, expected);
            && step.Done? && step.created == {}
            && forall q :: At(step.tree, q) == if q == p then ShapeOf(entry) else At(tree, q)
  {
    assert MissingParents(tree, p) == {};
    assert WithDirectories(tree, {}) == tree;
  }

  /** The next record is applied, no parent is made, and the tree stays half way. */
  lemma StepAdvances(ordered: seq<Record>, i: nat, tree: Tree, records: map<Path, Record>, prior: map<Path, Record>,
                     retained: set<Path>)
    requires Underway(ordered, i, tree, records, prior, retained) && i < |ordered|
    ensures var r := ordered[i];
            var step := ApplyOne(tree, r.path, r.version.entry, Recorded(prior, r.path));
            && step.Done? && step.created == {}
            && Underway(ordered, i + 1, step.tree, records, prior, retained)
  {
    var r := ordered[i];
    var expected := Recorded(prior, r.path);
    var step := ApplyOne(tree, r.path, r.version.entry, expected);
    assert r in ordered && Wanted(records, r.path) == ShapeOf(r.version.entry);
    assert At(tree, r.path) == Live(expected) || At(tree, r.path) == ShapeOf(r.version.entry);
    if !Skips(r.version.entry, expected) {
      forall q | IsAncestor(q, r.path)
        ensures At(tree, q) == Some(DirShape)
      {
        ParentsReady(ordered, i, tree, records, prior, retained, q);
      }
      if ShapeOf(r.version.entry) != Some(DirShape) {
        DisplacedIsEmpty(ordered, i, tree, records, prior, retained);
      }
      StepSets(tree, r.path, r.version.entry, expected);
    }
    forall p
      ensures At(step.tree, p) == if p in PathsIn(ordered[..i + 1]) then Wanted(records, p) else Wanted(prior, p)
    {
      OneMore(ordered, i, p);
    }
  }

  /** What the snapshot holds is what is recorded. */
  predicate SnapshotOf(snapshot: map<Path, Record>, prior: map<Path, Record>)
  {
    forall p :: p in snapshot ==> p in prior && prior[p] == snapshot[p]
  }

  /** A deletion the snapshot holds is found only where its parents are directories. */
  predicate Findable(prior: map<Path, Record>, snapshot: map<Path, Record>, r: Record)
  {
    Guarded(snapshot, r) && r.version.entry.Tombstone? ==> InDirectories(TreeOf(prior), r.path)
  }

  /** When a deletion's turn comes its parents are still what was recorded. */
  lemma ParentsAsRecorded(ordered: seq<Record>, i: nat, tree: Tree, records: map<Path, Record>, prior: map<Path, Record>,
                          retained: set<Path>, q: Path)
    requires Underway(ordered, i, tree, records, prior, retained) && i < |ordered|
    requires ordered[i].version.entry.Tombstone? && IsAncestor(q, ordered[i].path)
    ensures At(tree, q) == At(TreeOf(prior), q)
  {
    AncestorShallower(q, ordered[i].path);
    LaterIsNotDone(ordered, i, q);
  }

  lemma ParentsAtTurn(ordered: seq<Record>, i: nat, tree: Tree, records: map<Path, Record>, prior: map<Path, Record>,
                      retained: set<Path>)
    requires Underway(ordered, i, tree, records, prior, retained) && i < |ordered|
    ensures if ordered[i].version.entry.Tombstone? then InDirectories(tree, ordered[i].path) == InDirectories(TreeOf(prior), ordered[i].path)
            else InDirectories(tree, ordered[i].path)
  {
    forall q | IsAncestor(q, ordered[i].path)
      ensures if ordered[i].version.entry.Tombstone? then At(tree, q) == At(TreeOf(prior), q) else At(tree, q) == Some(DirShape)
    {
      if ordered[i].version.entry.Tombstone? {
        ParentsAsRecorded(ordered, i, tree, records, prior, retained, q);
      } else {
        ParentsReady(ordered, i, tree, records, prior, retained, q);
      }
    }
  }

  /** A record of the snapshot is found on the disk, but for a deletion whose parents are gone. */
  lemma GuardedAdvances(ordered: seq<Record>, i: nat, tree: Tree, records: map<Path, Record>, prior: map<Path, Record>,
                        retained: set<Path>, snapshot: map<Path, Record>)
    requires Underway(ordered, i, tree, records, prior, retained) && i < |ordered|
    requires SnapshotOf(snapshot, prior) && Guarded(snapshot, ordered[i])
    ensures ApplyGuarded(tree, ordered[i], Recorded(prior, ordered[i].path), snapshot)
            == if Findable(prior, snapshot, ordered[i]) then Done(tree, {}) else Stopped(Changed)
    ensures Underway(ordered, i + 1, tree, records, prior, retained)
  {
    var r := ordered[i];
    assert r in ordered && Wanted(records, r.path) == ShapeOf(r.version.entry) == Wanted(prior, r.path);
    ParentsAtTurn(ordered, i, tree, records, prior, retained);
    forall p
      ensures At(tree, p) == if p in PathsIn(ordered[..i + 1]) then Wanted(records, p) else Wanted(prior, p)
    {
      OneMore(ordered, i, p);
    }
  }

  /** The loop of a watch round goes to its end exactly when every deletion it meets in
      the snapshot can be found. */
  lemma {:induction false} RestApplies(ordered: seq<Record>, i: nat, tree: Tree, records: map<Path, Record>,
                                       prior: map<Path, Record>, retained: set<Path>, snapshot: map<Path, Record>)
    requires Underway(ordered, i, tree, records, prior, retained) && SnapshotOf(snapshot, prior)
    ensures var all := ApplyEach(tree, ordered[i..], prior, snapshot);
            if forall k :: i <= k < |ordered| ==> Findable(prior, snapshot, ordered[k])
            then all.Done? && all.created == {} && Underway(ordered, |ordered|, all.tree, records, prior, retained)
            else all == Stopped(Changed)
    decreases |ordered| - i
  {
    if i < |ordered| {
      var r := ordered[i];
      if Guarded(snapshot, r) {
        GuardedAdvances(ordered, i, tree, records, prior, retained, snapshot);
      } else {
        StepAdvances(ordered, i, tree, records, prior, retained);
      }
      assert ordered[i..][0] == r && ordered[i..][1..] == ordered[i + 1..];
      var step := ApplyGuarded(tree, r, Recorded(prior, r.path), snapshot);
      if step.Done? {
        RestApplies(ordered, i + 1, step.tree, records, prior, retained, snapshot);
      }
    }
  }

  /** At every path the records leave alone, what is recorded is what is wanted. */
  lemma UntouchedIsWanted(ordered: seq<Record>, tree: Tree, records: map<Path, Record>, prior: map<Path, Record>,
                          retained: set<Path>, p: Path)
    requires Underway(ordered, |ordered|, tree, records, prior, retained) && p !in PathsIn(ordered)
    ensures Wanted(prior, p) == Wanted(records, p)
  {
    if p in records && p !in retained {
      assert records[p] !in ordered;
      assert records[p].version.entry.Tombstone? && p !in prior;
    } else if p !in records {
      assert p !in TreeOf(prior);
    }
  }

  lemma PlanBegins(records: seq<Record>, prior: map<Path, Record>, retained: set<Path>)
    requires UniquePaths(records) && Covers(ByPath(records), prior, retained)
    requires WellFormed(TreeOf(prior)) && WellFormed(TreeOf(ByPath(records)))
    ensures Underway(Ordered(records, prior, retained), 0, TreeOf(prior), ByPath(records), prior, retained)
  {
    OrderedMembers(records, prior, retained);
    forall r | r in records
      ensures ByPath(records)[r.path] == r
    {
      Heads.HoldsIsMember(records, r);
    }
    assert Ordered(records, prior, retained)[..0] == [];
  }

  lemma PlanEnds(ordered: seq<Record>, tree: Tree, records: map<Path, Record>, prior: map<Path, Record>, retained: set<Path>)
    requires Underway(ordered, |ordered|, tree, records, prior, retained)
    ensures tree == TreeOf(records)
  {
    assert ordered[..|ordered|] == ordered;
    forall p
      ensures At(tree, p) == At(TreeOf(records), p)
    {
      if p !in PathsIn(ordered) {
        UntouchedIsWanted(ordered, tree, records, prior, retained, p);
      }
    }
    SameTree(tree, TreeOf(records));
  }

  /** Whatever is applied, everything stays in directories. */
  lemma StepKeepsTree(tree: Tree, p: Path, entry: Entry, expected: Option<Entry>)
    requires WellFormed(tree) && ApplyOne(tree, p, entry, expected).Done?
    ensures WellFormed(ApplyOne(tree, p, entry, expected).tree)
  {
    if !Skips(entry, expected) {
      ParentsMade(tree, p);
      var base := WithDirectories(tree, MissingParents(tree, p));
      var step := ApplyOne(tree, p, entry, expected);
      if step.tree != base {
        PutKeepsTree(base, p, ShapeOf(entry));
      }
    }
  }

  lemma ParentsMade(tree: Tree, p: Path)
    requires WellFormed(tree) && forall q :: q in Ancestors(p) && q in tree ==> tree[q] == DirShape
    ensures var base := WithDirectories(tree, MissingParents(tree, p));
            WellFormed(base) && InDirectories(base, p)
  {
    var base := WithDirectories(tree, MissingParents(tree, p));
    forall c, q | c in base && IsAncestor(q, c)
      ensures At(base, q) == Some(DirShape)
    {
      if c in tree {
        assert At(tree, q) == Some(DirShape);
      } else {
        AncestorTransitive(q, c, p);
      }
    }
  }

  lemma PutKeepsTree(tree: Tree, p: Path, shape: Option<Shape>)
    requires WellFormed(tree) && InDirectories(tree, p)
    requires At(tree, p) == Some(DirShape) ==> !HasChildren(tree, p)
    ensures WellFormed(Put(tree, p, shape))
  {
    forall c, q | c in Put(tree, p, shape) && IsAncestor(q, c)
      ensures At(Put(tree, p, shape), q) == Some(DirShape)
    {
      if c == p {
        assert q in Ancestors(p);
      } else {
        assert At(tree, q) == Some(DirShape);
        assert q == p ==> HasChildren(tree, p);
      }
    }
  }

  lemma {:induction false} RunKeepsTree(tree: Tree, ordered: seq<Record>, prior: map<Path, Record>, snapshot: map<Path, Record>)
    requires WellFormed(tree) && ApplyEach(tree, ordered, prior, snapshot).Done?
    ensures WellFormed(ApplyEach(tree, ordered, prior, snapshot).tree)
    decreases |ordered|
  {
    if ordered != [] {
      var r := ordered[0];
      if !Guarded(snapshot, r) {
        StepKeepsTree(tree, r.path, r.version.entry, Recorded(prior, r.path));
      }
      RunKeepsTree(ApplyGuarded(tree, r, Recorded(prior, r.path), snapshot).tree, ordered[1..], prior, snapshot);
    }
  }

  /** Every deletion of the snapshot that is not retained lies in directories. */
  ghost predicate DeletionsFindable(records: seq<Record>, prior: map<Path, Record>, retained: set<Path>, snapshot: map<Path, Record>)
  {
    forall r :: r in records && r.path !in retained ==> Findable(prior, snapshot, r)
  }

  /** When the tree a plan wants is well formed and the deletions in the snapshot can be
      found, every parent is a directory in time, every directory removed or displaced is
      empty, and the disk ends as the tree the plan wants. Where they cannot be found the
      round is given up as changed, though nothing on the disk has changed. */
  lemma PlanEndsOrStops(records: seq<Record>, prior: map<Path, Record>, retained: set<Path>, snapshot: map<Path, Record>)
    requires UniquePaths(records) && Covers(ByPath(records), prior, retained) && SnapshotOf(snapshot, prior)
    requires WellFormed(TreeOf(prior)) && WellFormed(TreeOf(ByPath(records)))
    ensures ApplyEach(TreeOf(prior), Ordered(records, prior, retained), prior, snapshot)
            == if DeletionsFindable(records, prior, retained, snapshot) then Done(TreeOf(ByPath(records)), {}) else Stopped(Changed)
  {
    var ordered := Ordered(records, prior, retained);
    PlanBegins(records, prior, retained);
    RestApplies(ordered, 0, TreeOf(prior), ByPath(records), prior, retained, snapshot);
    assert ordered[0..] == ordered;
    FindableInOrder(records, prior, retained, snapshot);
    if DeletionsFindable(records, prior, retained, snapshot) {
      PlanEnds(ordered, ApplyEach(TreeOf(prior), ordered, prior, snapshot).tree, ByPath(records), prior, retained);
    }
  }

  /** A plan that covers what is recorded in a well-formed tree is applied to the end, to
      exactly the tree it wants and without making a parent, if and only if everything it
      wants lies in directories it wants, and the deletions in the snapshot can be found. */
  lemma PlanApplies(records: seq<Record>, prior: map<Path, Record>, retained: set<Path>, snapshot: map<Path, Record>)
    requires UniquePaths(records) && Covers(ByPath(records), prior, retained) && SnapshotOf(snapshot, prior)
    requires WellFormed(TreeOf(prior))
    ensures ApplyEach(TreeOf(prior), Ordered(records, prior, retained), prior, snapshot) == Done(TreeOf(ByPath(records)), {})
            <==> WellFormed(TreeOf(ByPath(records))) && DeletionsFindable(records, prior, retained, snapshot)
  {
    if WellFormed(TreeOf(ByPath(records))) {
      PlanEndsOrStops(records, prior, retained, snapshot);
    } else if ApplyEach(TreeOf(prior), Ordered(records, prior, retained), prior, snapshot).Done? {
      RunKeepsTree(TreeOf(prior), Ordered(records, prior, retained), prior, snapshot);
    }
  }

  lemma FindableInOrder(records: seq<Record>, prior: map<Path, Record>, retained: set<Path>, snapshot: map<Path, Record>)
    requires SnapshotOf(snapshot, prior)
    ensures DeletionsFindable(records, prior, retained, snapshot)
            <==> forall k :: 0 <= k < |Ordered(records, prior, retained)| ==>
                   Findable(prior, snapshot, Ordered(records, prior, retained)[k])
  {
    var ordered := Ordered(records, prior, retained);
    OrderedMembers(records, prior, retained);
    if DeletionsFindable(records, prior, retained, snapshot) {
      forall k | 0 <= k < |ordered|
        ensures Findable(prior, snapshot, ordered[k])
      {
        assert ordered[k] in ordered;
      }
    } else {
      var r :| r in records && r.path !in retained && !Findable(prior, snapshot, r);
      assert r in ordered;
    }
  }

  /** Outside a watch round nothing is guarded, and every such plan is applied. */
  lemma UnguardedPlanApplies(records: seq<Record>, prior: map<Path, Record>, retained: set<Path>)
    requires UniquePaths(records) && Covers(ByPath(records), prior, retained)
    requires WellFormed(TreeOf(prior)) && WellFormed(TreeOf(ByPath(records)))
    ensures ApplyEach(TreeOf(prior), Ordered(records, prior, retained), prior, map[]) == Done(TreeOf(ByPath(records)), {})
  {
    PlanApplies(records, prior, retained, map[]);
  }

  /** A watch round over a deleted directory and its deleted file, with nothing to do:
      given up, though the disk is empty as recorded. */
  lemma DeletedDirectoryStops(d: Record, f: Record)
    requires d.version.entry.Tombstone? && f.version.entry.Tombstone? && IsAncestor(d.path, f.path)
    ensures var prior := map[d.path := d, f.path := f];
            TreeOf(prior) == map[] && ApplyEach(map[], Ordered([d, f], prior, {}), prior, prior) == Stopped(Changed)
  {
    var prior := map[d.path := d, f.path := f];
    AncestorShallower(d.path, f.path);
    var records := [d, f];
    assert TreeOf(prior) == map[];
    forall i, j | 0 <= i < j < |records|
      ensures records[i].path != records[j].path
    {
    }
    assert !InDirectories(TreeOf(prior), f.path) by {
      assert At(TreeOf(prior), d.path) == None;
    }
    assert !Findable(prior, prior, records[1]);
    WantsNothing(records);
    PlanEndsOrStops(records, prior, {}, prior);
  }

  lemma WantsNothing(records: seq<Record>)
    requires forall r :: r in records ==> r.version.entry.Tombstone?
    ensures forall p :: Wanted(ByPath(records), p) == None
    ensures WellFormed(TreeOf(ByPath(records)))
  {
  }

  lemma SameTree(a: Tree, b: Tree)
    requires forall p :: At(a, p) == At(b, p)
    ensures a == b
  {
    forall p
      ensures p in a <==> p in b
      ensures p in a ==> a[p] == b[p]
    {
      assert At(a, p) == At(b, p);
    }
  }

  // ---------------------------------------------------------------- a plan that is no tree

  lemma {:induction false} PrefixLess(p: seq<Byte>, n: nat)
    requires n < |p|
    ensures Bytes.Less(p[..n], p)
  {
    if n > 0 {
      PrefixLess(p[1..], n - 1);
      assert p[..n][1..] == p[1..][..n - 1];
    }
  }

  lemma TwoPaths(a: seq<Record>, b: seq<Record>, d: Path, f: Path)
    requires Bytes.Less(d, f)
    requires forall p :: p in ByPath(a) || p in ByPath(b) <==> p == d || p == f
    ensures AllPaths(a, b) == [d, f]
  {
    SortedUnique(AllPaths(a, b), [d, f]);
  }

  lemma ByPathOne(r: Record)
    ensures ByPath([r]) == map[r.path := r]
  {
    Heads.HoldsIsMember([r], r);
  }

  lemma ByPathTwo(r: Record, s: Record)
    requires r.path != s.path
    ensures ByPath([r, s]) == map[r.path := r, s.path := s]
  {
    Heads.HoldsIsMember([r, s], r);
    Heads.HoldsIsMember([r, s], s);
  }

  /** One side deletes a directory, the other puts a new file into it. */
  lemma DeletedAndFilled(d: Path, f: Path, gone: Version, dir: Version, file: Version)
    requires IsAncestor(d, f) && gone.HasSeen(dir.Id()) && gone.Id() != dir.Id()
    ensures PlanOf([Record(d, gone)], [Record(d, dir), Record(f, file)]).records == [Record(d, gone), Record(f, file)]
  {
    var a, b := [Record(d, gone)], [Record(d, dir), Record(f, file)];
    PrefixLess(f, |d|);
    ByPathOne(Record(d, gone));
    ByPathTwo(Record(d, dir), Record(f, file));
    TwoPaths(a, b, d, f);
    PlanCovers(a, b);
    var records := PlanOf(a, b).records;
    assert |records| == |PathsOf(records)| == 2;
    assert records[0] == DecideAt(ByPath(a), ByPath(b), d).record;
    assert records[1] == DecideAt(ByPath(a), ByPath(b), f).record;
  }

  /** The plan of the two keeps the deletion and the file. It stops at the side of the
      file, whose directory is not empty; the other side makes the directory again. */
  lemma NewChildBlocks(d: Path, f: Path, gone: Version, dir: Version, file: Version)
    requires IsAncestor(d, f) && gone.entry.Tombstone? && dir.entry.Directory? && file.entry.File?
    requires Ancestors(d) == {} && gone.HasSeen(dir.Id()) && gone.Id() != dir.Id()
    ensures var a, b := [Record(d, gone)], [Record(d, dir), Record(f, file)];
            var plan := PlanOf(a, b).records;
            var atA := ApplyEach(TreeOf(ByPath(a)), Ordered(plan, ByPath(a), {}), ByPath(a), map[]);
            && ApplyEach(TreeOf(ByPath(b)), Ordered(plan, ByPath(b), {}), ByPath(b), map[]) == Stopped(NotEmpty)
            && atA.Done? && d in atA.created
  {
    DeletedAndFilled(d, f, gone, dir, file);
    FilledSide(d, f, gone, dir, file);
    EmptiedSide(d, f, gone, file);
  }

  lemma FilledSide(d: Path, f: Path, gone: Version, dir: Version, file: Version)
    requires IsAncestor(d, f) && gone.entry.Tombstone? && dir.entry.Directory? && file.entry.File? && Ancestors(d) == {}
    ensures var prior := ByPath([Record(d, dir), Record(f, file)]);
            ApplyEach(TreeOf(prior), Ordered([Record(d, gone), Record(f, file)], prior, {}), prior, map[]) == Stopped(NotEmpty)
  {
    var prior := ByPath([Record(d, dir), Record(f, file)]);
    ByPathTwo(Record(d, dir), Record(f, file));
    TwoInOrder(Record(d, gone), Record(f, file), prior);
    FilledStops(d, f, TreeOf(prior), [Record(d, gone), Record(f, file)], prior);
  }

  lemma EmptiedSide(d: Path, f: Path, gone: Version, file: Version)
    requires IsAncestor(d, f) && gone.entry.Tombstone? && file.entry.File?
    ensures var prior := ByPath([Record(d, gone)]);
            var end := ApplyEach(TreeOf(prior), Ordered([Record(d, gone), Record(f, file)], prior, {}), prior, map[]);
            end.Done? && d in end.created
  {
    var prior := ByPath([Record(d, gone)]);
    ByPathOne(Record(d, gone));
    TwoInOrder(Record(d, gone), Record(f, file), prior);
    MadeAgain(d, f, TreeOf(prior), [Record(d, gone), Record(f, file)], prior);
  }

  lemma TwoInOrder(gone: Record, file: Record, prior: map<Path, Record>)
    requires gone.version.entry.Tombstone? && file.version.entry.File? && gone.path in prior
    ensures Ordered([gone, file], prior, {}) == [gone, file]
  {
    assert [gone, file][1..] == [file] && [file][1..] == [];
    assert Accepted([file], prior, {}) == [file] + Accepted([], prior, {});
    assert Accepted([gone, file], prior, {}) == [gone] + Accepted([file], prior, {});
    assert [gone] + [file] == [gone, file];
    assert SortByKey([file]) == [file];
    assert SortByKey([gone, file]) == InsertByKey(gone, [file]);
  }

  lemma FilledStops(d: Path, f: Path, tree: Tree, plan: seq<Record>, prior: map<Path, Record>)
    requires |plan| == 2 && plan[0].path == d && plan[0].version.entry.Tombstone? && IsAncestor(d, f)
    requires d in prior && prior[d].version.entry.Directory? && At(tree, d) == Some(DirShape) && At(tree, f).Some?
    requires Ancestors(d) == {}
    ensures ApplyEach(tree, plan, prior, map[]) == Stopped(NotEmpty)
  {
    assert MissingParents(tree, d) == {} && WithDirectories(tree, {}) == tree;
    assert f in tree;
    assert ApplyOne(tree, d, Tombstone, Some(Directory)) == Stopped(NotEmpty);
  }

  lemma MadeAgain(d: Path, f: Path, tree: Tree, plan: seq<Record>, prior: map<Path, Record>)
    requires |plan| == 2 && plan[0].path == d && plan[0].version.entry.Tombstone? && IsAncestor(d, f)
    requires plan[1].path == f && plan[1].version.entry.File? && f !in prior
    requires d in prior && prior[d].version.entry.Tombstone? && tree == map[]
    ensures ApplyEach(tree, plan, prior, map[]).Done? && d in ApplyEach(tree, plan, prior, map[]).created
  {
    var file := plan[1].version.entry;
    var step := ApplyOne(map[], f, file, None);
    assert d in MissingParents(map[], f);
    AncestorShallower(d, f);
    assert f !in WithDirectories(map[], MissingParents(map[], f));
    assert step.Done? && d in step.created;
    assert plan[1..] == [plan[1]] && plan[1..][1..] == [];
    assert ApplyEach(map[], plan[1..], prior, map[]) == Done(step.tree, step.created + {});
    assert ApplyEach(map[], plan, prior, map[]) == Done(step.tree, {} + (step.created + {}));
  }

  // ---------------------------------------------------------------- one record, crash-safely

  function NodeShape(j: Install.Job, node: Install.Node): Shape
  {
    match node
    case FileNode(content, executable) => FileShape(j.hash(content), executable)
    case DirNode(_) => DirShape
    case LinkNode(target) => LinkShape(target)
  }

  /** The node at a path is what the tree says, and a directory is empty when the tree
      has nothing below it. */
  predicate Shows(j: Install.Job, d: Option<Install.Node>, tree: Tree, p: Path)
  {
    && d.Some? == At(tree, p).Some?
    && (d.Some? ==> NodeShape(j, d.value) == At(tree, p).value)
    && (d.Some? && d.value.DirNode? ==> d.value.empty == !HasChildren(tree, p))
  }

  lemma MatchesIsShape(j: Install.Job, d: Option<Install.Node>, e: Entry)
    ensures Install.Matches(j, d, e) <==> (if d.None? then ShapeOf(e).None? else ShapeOf(e) == Some(NodeShape(j, d.value)))
  {
  }

  /** What a step comes to where every parent is a directory. */
  lemma FreshStep(tree: Tree, p: Path, entry: Entry, expected: Option<Entry>)
    requires !Skips(entry, expected) && forall q :: IsAncestor(q, p) ==> At(tree, q) == Some(DirShape)
    ensures var step := ApplyOne(tree, p, entry, expected);
            if At(tree, p) == ShapeOf(entry) then step == Done(tree, {})
            else if At(tree, p) == None && Live(expected) != None then step == Stopped(Gone)
            else if At(tree, p) != Live(expected) then step == Stopped(Changed)
            else if At(tree, p) == Some(DirShape) && HasChildren(tree, p) then step == Stopped(NotEmpty)
            else step.Done? && step.created == {} && At(step.tree, p) == ShapeOf(entry)
  {
    assert MissingParents(tree, p) == {};
    assert WithDirectories(tree, {}) == tree;
  }

  /** The step on the tree is what a run of the install protocol does from a fresh slot:
      it succeeds, finds a change or fails exactly when the run does, and leaves at the
      target what the run leaves. */
  lemma StepIsInstall(j: Install.Job, a: Install.Attempt, d: Option<Install.Node>, token: seq<Byte>, tree: Tree, p: Path)
    requires j.entry.File? ==> j.hash(j.source) == j.entry.hash && |j.source| == j.entry.size
    requires Shows(j, d, tree, p) && forall q :: IsAncestor(q, p) ==> At(tree, q) == Some(DirShape)
    requires !Skips(j.entry, a.expected)
    ensures var s := Install.Slot(d, None, Install.Pending, token);
            var run := Install.Apply(j, a, s);
            var step := ApplyOne(tree, p, j.entry, a.expected);
            && run.outcome == (if step.Done? then Install.Applied
                               else if step == Stopped(Changed) then Install.Invalidated
                               else Install.Failed)
            && (step.Done? ==> Install.Matches(j, Install.Last(s, run).target, j.entry) && At(step.tree, p) == ShapeOf(j.entry))
            && (step.Stopped? ==> Install.Last(s, run).target == d)
  {
    var s := Install.Slot(d, None, Install.Pending, token);
    InstallEnds.FreshEnds(j, a, s);
    FreshStep(tree, p, j.entry, a.expected);
    MatchesIsShape(j, d, j.entry);
    if a.expected.Some? {
      MatchesIsShape(j, d, a.expected.value);
    }
    if Install.Apply(j, a, s).outcome == Install.Applied {
      InstallLaws.AppliedIsTrue(j, a, s);
    }
  }
}
