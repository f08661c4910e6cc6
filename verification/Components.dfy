/** Which edits of two sides belong together, said without the algorithm: the cells of a
    merge are the connected components of the edits that overlap or start together
    (src/merge.rs:151-230). Edits apart from all others therefore never collide, and a
    merge of two sides whose edits are all apart has no hunk. */
module Components {
  import opened Utils
  import opened Bytes
  import opened Merge
  import opened Compose
  import opened MergeLaws
  import opened ThreeWay

  /** Two edits collide when they start at the same base line or share a base line; an
      insertion shares the lines around it when it is strictly inside the other. */
  predicate Collide(e: Edit, f: Edit)
  {
    e.base.start == f.base.start || (e.base.start < f.base.end && f.base.start < e.base.end)
  }

  /** No two parts of the set are without a collision between them. */
  ghost predicate Connected(s: set<Edit>)
  {
    forall part: set<Edit> :: part != {} && part < s ==> exists e, f :: e in part && f in s - part && Collide(e, f)
  }

  lemma AddConnected(s: set<Edit>, e: Edit, f: Edit)
    requires Connected(s) && f in s && Collide(e, f)
    ensures Connected(s + {e})
  {
    forall part: set<Edit> | part != {} && part < s + {e}
      ensures exists x, y :: x in part && y in s + {e} - part && Collide(x, y)
    {
      var mine := part * s;
      if mine == {} {
        assert e in part && f in s + {e} - part && Collide(e, f);
      } else if mine == s {
        assert e !in part && f in part && Collide(f, e);
      } else {
        var x, y :| x in mine && y in s - mine && Collide(x, y);
        assert x in part && y in s + {e} - part;
      }
    }
  }

  function Members(es: seq<Edit>): set<Edit>
  {
    set e | e in es
  }

  function Taken(ae: seq<Edit>, be: seq<Edit>, a0: nat, b0: nat, a: nat, b: nat): set<Edit>
    requires a0 <= a <= |ae| && b0 <= b <= |be|
  {
    Members(ae[a0..a]) + Members(be[b0..b])
  }

  ghost predicate CoveredAt(s: set<Edit>, x: nat)
  {
    exists f :: f in s && f.base.start <= x < f.base.end
  }

  /** The taken edits cover the base lines from `start` to `end`, or are all insertions there. */
  ghost predicate Spans(s: set<Edit>, start: nat, end: nat)
  {
    && start <= end
    && (forall e :: e in s ==> start <= e.base.start <= e.base.end <= end)
    && (end > start ==> forall e :: e in s ==> e.base.start < end)
    && (forall x: nat :: start <= x < end ==> CoveredAt(s, x))
  }

  /** A joining edit collides with one that was taken. */
  lemma JoiningCollides(s: set<Edit>, start: nat, end: nat, e: Edit) returns (f: Edit)
    requires Spans(s, start, end) && s != {} && start <= e.base.start <= e.base.end && Joins(e, start, end)
    ensures f in s && Collide(e, f)
  {
    if end == start {
      f :| f in s;
    } else {
      assert CoveredAt(s, e.base.start);
      f :| f in s && f.base.start <= e.base.start < f.base.end;
    }
  }

  lemma JoiningSpans(s: set<Edit>, start: nat, end: nat, e: Edit)
    requires Spans(s, start, end) && start <= e.base.start <= e.base.end && Joins(e, start, end)
    ensures Spans(s + {e}, start, Max(end, e.base.end))
  {
    var last := Max(end, e.base.end);
    forall x: nat | start <= x < last
      ensures CoveredAt(s + {e}, x)
    {
      if x < end {
        assert CoveredAt(s, x);
        var f :| f in s && f.base.start <= x < f.base.end;
        assert f in s + {e};
      } else {
        assert e in s + {e} && e.base.start <= x < e.base.end;
      }
    }
  }

  predicate NoneCollide(x: set<Edit>, y: set<Edit>)
  {
    forall e, f :: e in x && f in y ==> !Collide(e, f)
  }

  /** A group being collected is one component so far. */
  ghost predicate Together(s: set<Edit>, start: nat, end: nat)
  {
    Connected(s) && Spans(s, start, end)
  }

  lemma JoiningKeeps(s: set<Edit>, start: nat, end: nat, e: Edit)
    requires Together(s, start, end) && start <= e.base.start <= e.base.end && Joins(e, start, end)
    ensures Together(s + {e}, start, Max(end, e.base.end))
  {
    JoiningSpans(s, start, end, e);
    if s == {} {
      assert s + {e} == {e};
    } else {
      var f := JoiningCollides(s, start, end, e);
      AddConnected(s, e, f);
    }
  }

  predicate StartsFrom(es: seq<Edit>, i: nat, start: nat)
  {
    forall k :: i <= k < |es| ==> start <= es[k].base.start <= es[k].base.end
  }

  lemma TakenMore(ae: seq<Edit>, be: seq<Edit>, a0: nat, b0: nat, a: nat, b: nat)
    requires a0 <= a <= |ae| && b0 <= b <= |be|
    ensures a < |ae| ==> Taken(ae, be, a0, b0, a + 1, b) == Taken(ae, be, a0, b0, a, b) + {ae[a]}
    ensures b < |be| ==> Taken(ae, be, a0, b0, a, b + 1) == Taken(ae, be, a0, b0, a, b) + {be[b]}
  {
    if a < |ae| {
      assert ae[a0..a + 1] == ae[a0..a] + [ae[a]];
    }
    if b < |be| {
      assert be[b0..b + 1] == be[b0..b] + [be[b]];
    }
  }

  lemma TakeA(ae: seq<Edit>, be: seq<Edit>, start: nat, a0: nat, b0: nat, a: nat, b: nat, end: nat)
    requires a0 <= a < |ae| && b0 <= b <= |be| && StartsFrom(ae, a0, start) && Joins(ae[a], start, end)
    requires Together(Taken(ae, be, a0, b0, a, b), start, end)
    ensures Together(Taken(ae, be, a0, b0, a + 1, b), start, Max(end, ae[a].base.end))
  {
    TakenMore(ae, be, a0, b0, a, b);
    JoiningKeeps(Taken(ae, be, a0, b0, a, b), start, end, ae[a]);
  }

  lemma TakeB(ae: seq<Edit>, be: seq<Edit>, start: nat, a0: nat, b0: nat, a: nat, b: nat, end: nat)
    requires a0 <= a <= |ae| && b0 <= b < |be| && StartsFrom(be, b0, start) && Joins(be[b], start, end)
    requires Together(Taken(ae, be, a0, b0, a, b), start, end)
    ensures Together(Taken(ae, be, a0, b0, a, b + 1), start, Max(end, be[b].base.end))
  {
    TakenMore(ae, be, a0, b0, a, b);
    JoiningKeeps(Taken(ae, be, a0, b0, a, b), start, end, be[b]);
  }

  lemma {:induction false} GrowTogether(ae: seq<Edit>, be: seq<Edit>, start: nat, a0: nat, b0: nat, a: nat, b: nat, end: nat)
    requires a0 <= a <= |ae| && b0 <= b <= |be| && StartsFrom(ae, a0, start) && StartsFrom(be, b0, start)
    requires Together(Taken(ae, be, a0, b0, a, b), start, end)
    ensures var (a1, b1, end1) := Grow(ae, be, start, a, b, end);
            a <= a1 <= |ae| && b <= b1 <= |be| && Together(Taken(ae, be, a0, b0, a1, b1), start, end1)
    decreases |ae| - a + |be| - b
  {
    if a < |ae| && Joins(ae[a], start, end) {
      TakeA(ae, be, start, a0, b0, a, b, end);
      GrowTogether(ae, be, start, a0, b0, a + 1, b, Max(end, ae[a].base.end));
    } else if b < |be| && Joins(be[b], start, end) {
      TakeB(ae, be, start, a0, b0, a, b, end);
      GrowTogether(ae, be, start, a0, b0, a, b + 1, Max(end, be[b].base.end));
    }
  }

  lemma ReadyStarts(baseLines: nat, aLines: nat, bLines: nat, ae: seq<Edit>, be: seq<Edit>, ai: nat, bi: nat, cursor: nat)
    requires Ready(baseLines, aLines, bLines, ae, be, ai, bi, cursor) && Pending(ae, be, ai, bi)
    ensures StartsFrom(ae, ai, NextStart(ae, be, ai, bi)) && StartsFrom(be, bi, NextStart(ae, be, ai, bi))
  {
  }

  /** The next group is one component, and nothing later collides with it. */
  lemma GroupIsComponent(baseLines: nat, aLines: nat, bLines: nat, ae: seq<Edit>, be: seq<Edit>, ai: nat, bi: nat, cursor: nat)
    requires Ready(baseLines, aLines, bLines, ae, be, ai, bi, cursor) && Pending(ae, be, ai, bi)
    ensures var g := GroupAt(ae, be, ai, bi);
            && ai <= g.aEnd <= |ae| && bi <= g.bEnd <= |be|
            && Connected(Taken(ae, be, ai, bi, g.aEnd, g.bEnd))
            && NoneCollide(Taken(ae, be, ai, bi, g.aEnd, g.bEnd), Taken(ae, be, g.aEnd, g.bEnd, |ae|, |be|))
  {
    GroupBounds(baseLines, aLines, bLines, ae, be, ai, bi, cursor);
    ReadyStarts(baseLines, aLines, bLines, ae, be, ai, bi, cursor);
    var g := GroupAt(ae, be, ai, bi);
    assert Taken(ae, be, ai, bi, ai, bi) == {};
    GrowTogether(ae, be, g.start, ai, bi, ai, bi, g.start);
    GroupIsLeast(ae, be, ai, bi, baseLines);
    forall e, f | e in Taken(ae, be, ai, bi, g.aEnd, g.bEnd) && f in Taken(ae, be, g.aEnd, g.bEnd, |ae|, |be|)
      ensures !Collide(e, f)
    {
      LaterIsApart(ae, be, g, e, f);
    }
  }

  lemma LaterIsApart(ae: seq<Edit>, be: seq<Edit>, g: Group, e: Edit, f: Edit)
    requires g.aEnd <= |ae| && g.bEnd <= |be| && f in Taken(ae, be, g.aEnd, g.bEnd, |ae|, |be|)
    requires StartsFrom(ae, g.aEnd, g.end) && StartsFrom(be, g.bEnd, g.end) && InOrder(ae) && InOrder(be)
    requires g.start <= e.base.start <= e.base.end <= g.end && (g.end > g.start ==> e.base.start < g.end)
    requires g.aEnd < |ae| ==> !Joins(ae[g.aEnd], g.start, g.end)
    requires g.bEnd < |be| ==> !Joins(be[g.bEnd], g.start, g.end)
    ensures !Collide(e, f)
  {
    if f in ae[g.aEnd..] {
      var k :| g.aEnd <= k < |ae| && ae[k] == f;
      assert ae[g.aEnd].base.start <= f.base.start;
    } else {
      var k :| g.bEnd <= k < |be| && be[k] == f;
      assert be[g.bEnd].base.start <= f.base.start;
    }
  }

  predicate InOrder(es: seq<Edit>)
  {
    forall k, m :: 0 <= k <= m < |es| ==> es[k].base.start <= es[m].base.start
  }

  // ---------------------------------------------------------------- the cells

  function EditsIn(c: Cell): set<Edit>
  {
    Members(c.aEdits) + Members(c.bEdits)
  }

  /** Each cell is one component, and edits of different cells do not collide. */
  ghost predicate AreComponents(cells: seq<Cell>)
  {
    && (forall k :: 0 <= k < |cells| ==> Connected(EditsIn(cells[k])))
    && (forall i, k, e, f :: 0 <= i < k < |cells| && e in EditsIn(cells[i]) && f in EditsIn(cells[k]) ==> !Collide(e, f))
  }

  lemma {:induction false} EditsOfCells(cells: seq<Cell>, k: nat, e: Edit)
    requires k < |cells| && e in EditsIn(cells[k])
    ensures e in AllEdits(cells, A) || e in AllEdits(cells, B)
  {
    if k > 0 {
      EditsOfCells(cells[1..], k - 1, e);
    }
  }

  lemma ComponentsCons(gap: Cell, group: Cell, rest: seq<Cell>)
    requires EditsIn(gap) == {} && Connected(EditsIn(group)) && AreComponents(rest)
    requires forall e, f :: e in EditsIn(group) && (f in AllEdits(rest, A) || f in AllEdits(rest, B)) ==> !Collide(e, f)
    ensures AreComponents([gap, group] + rest)
  {
    var cells := [gap, group] + rest;
    forall i, k, e, f | 0 <= i < k < |cells| && e in EditsIn(cells[i]) && f in EditsIn(cells[k])
      ensures !Collide(e, f)
    {
      if i == 1 {
        assert cells[k] == rest[k - 2];
        EditsOfCells(rest, k - 2, f);
      } else if i > 1 {
        assert cells[i] == rest[i - 2] && cells[k] == rest[k - 2];
      }
    }
    forall k | 0 <= k < |cells|
      ensures Connected(EditsIn(cells[k]))
    {
      if k > 1 {
        assert cells[k] == rest[k - 2];
      }
    }
  }

  lemma GroupJoins(ae: seq<Edit>, be: seq<Edit>, ai: nat, bi: nat, a: nat, b: nat, gap: Cell, group: Cell, rest: seq<Cell>)
    requires ai <= a <= |ae| && bi <= b <= |be| && EditsIn(gap) == {} && AreComponents(rest)
    requires group.aEdits == ae[ai..a] && group.bEdits == be[bi..b]
    requires AllEdits(rest, A) == ae[a..] && AllEdits(rest, B) == be[b..]
    requires Connected(Taken(ae, be, ai, bi, a, b))
    requires NoneCollide(Taken(ae, be, ai, bi, a, b), Taken(ae, be, a, b, |ae|, |be|))
    ensures AreComponents([gap, group] + rest)
  {
    assert ae[a..|ae|] == ae[a..] && be[b..|be|] == be[b..];
    ComponentsCons(gap, group, rest);
  }

  lemma {:induction false} CellsFromComponents(base: seq<Line>, a: seq<Line>, b: seq<Line>, ae: seq<Edit>, be: seq<Edit>,
                                               ai: nat, bi: nat, cursor: nat)
    requires Ready(|base|, |a|, |b|, ae, be, ai, bi, cursor)
    ensures AreComponents(CellsFrom(base, a, b, ae, be, ai, bi, cursor))
    decreases |ae| - ai + |be| - bi
  {
    if ai < |ae| || bi < |be| {
      GroupBounds(|base|, |a|, |b|, ae, be, ai, bi, cursor);
      GroupIsComponent(|base|, |a|, |b|, ae, be, ai, bi, cursor);
      var g := GroupAt(ae, be, ai, bi);
      CellsFromComponents(base, a, b, ae, be, g.aEnd, g.bEnd, g.end);
      CellsPartition(base, a, b, ae, be, g.aEnd, g.bEnd, g.end);
      GroupJoins(ae, be, ai, bi, g.aEnd, g.bEnd, Gap(base, cursor, g.start),
                 GroupCell(base, a, b, ae[ai..g.aEnd], be[bi..g.bEnd], g.start, g.end),
                 CellsFrom(base, a, b, ae, be, g.aEnd, g.bEnd, g.end));
    }
  }

  /** The cells of a merge are the connected components of all edits of both sides. */
  lemma CellsAreComponents(base: seq<Byte>, a: seq<Byte>, b: seq<Byte>, diff: Differ)
    requires GoodDiff(diff)
    ensures AreComponents(CellsOf(base, a, b, diff))
  {
    var base', a', b' := LinesOf(base), LinesOf(a), LinesOf(b);
    EditsReady(base', a', b', diff);
    CellsFromComponents(base', a', b', EditsOf(base', a', diff), EditsOf(base', b', diff), 0, 0, 0);
  }

  // ---------------------------------------------------------------- sides whose edits are apart

  /** In a cell with edits of both sides an edit of one collides with an edit of the other. */
  lemma SharedCellCollides(c: Cell)
    requires Connected(EditsIn(c)) && c.aEdits != [] && c.bEdits != []
    ensures exists e, f :: e in c.aEdits && f in c.bEdits && Collide(e, f)
  {
    var x, y := Members(c.aEdits), Members(c.bEdits);
    assert c.aEdits[0] in x && c.bEdits[0] in y;
    if x < EditsIn(c) {
      var e, f :| e in x && f in EditsIn(c) - x && Collide(e, f);
      assert e in c.aEdits && f in c.bEdits;
    } else {
      assert c.bEdits[0] in c.aEdits && Collide(c.bEdits[0], c.bEdits[0]);
    }
  }

  /** No edit of one side collides with an edit of the other. */
  predicate SidesApart(ae: seq<Edit>, be: seq<Edit>)
  {
    forall e, f :: e in ae && f in be ==> !Collide(e, f)
  }

  lemma {:induction false} EditsInAll(cells: seq<Cell>, k: nat)
    requires k < |cells|
    ensures forall e :: e in cells[k].aEdits ==> e in AllEdits(cells, A)
    ensures forall e :: e in cells[k].bEdits ==> e in AllEdits(cells, B)
  {
    if k > 0 {
      EditsInAll(cells[1..], k - 1);
    }
  }

  lemma {:induction false} UncontestedHasNoHunks(cells: seq<Cell>)
    requires forall k :: 0 <= k < |cells| ==> !cells[k].Contested()
    ensures Hunks(cells) == []
  {
    if cells != [] {
      UncontestedHasNoHunks(cells[1..]);
    }
  }

  /** A side without edits in a cell has the base text there. */
  lemma IdleHasBaseText(cells: seq<Cell>, k: nat)
    requires AllGenuine(cells) && k < |cells|
    ensures cells[k].aEdits == [] ==> cells[k].a == cells[k].base
    ensures cells[k].bEdits == [] ==> cells[k].b == cells[k].base
  {
  }

  /** Sides whose edits are apart never conflict: an admitted merge succeeds without a
      hunk, and every cell has the base text on one side and takes the other's. */
  lemma ApartSidesMerge(base: seq<Byte>, a: seq<Byte>, b: seq<Byte>, aWins: bool, diff: Differ, utf8: Utf8)
    requires GoodDiff(diff) && Admission(base, a, b, utf8).Success?
    requires SidesApart(EditsOf(LinesOf(base), LinesOf(a), diff), EditsOf(LinesOf(base), LinesOf(b), diff))
    ensures var cells := CellsOf(base, a, b, diff);
            && MergeOf(base, a, b, aWins, diff, utf8).Success? && MergeOf(base, a, b, aWins, diff, utf8).value.hunks == []
            && forall k :: 0 <= k < |cells| ==> cells[k].a == cells[k].base || cells[k].b == cells[k].base
  {
    var cells := CellsOf(base, a, b, diff);
    CellsAreComponents(base, a, b, diff);
    CellsPartitionFiles(base, a, b, diff);
    forall k | 0 <= k < |cells|
      ensures cells[k].a == cells[k].base || cells[k].b == cells[k].base
    {
      IdleHasBaseText(cells, k);
      if cells[k].aEdits != [] && cells[k].bEdits != [] {
        SharedCellCollides(cells[k]);
        EditsInAll(cells, k);
        assert false;
      }
    }
    UncontestedHasNoHunks(cells);
    MergeCorrect(base, a, b, aWins, diff, utf8);
  }

  /** Contested cells hold colliding edits. */
  lemma ContestedCollides(base: seq<Byte>, a: seq<Byte>, b: seq<Byte>, diff: Differ, k: nat)
    requires GoodDiff(diff) && k < |CellsOf(base, a, b, diff)| && CellsOf(base, a, b, diff)[k].Contested()
    ensures var c := CellsOf(base, a, b, diff)[k]; exists e, f :: e in c.aEdits && f in c.bEdits && Collide(e, f)
  {
    CellsAreComponents(base, a, b, diff);
    CellsPartitionFiles(base, a, b, diff);
    IdleHasBaseText(CellsOf(base, a, b, diff), k);
    SharedCellCollides(CellsOf(base, a, b, diff)[k]);
  }
}
