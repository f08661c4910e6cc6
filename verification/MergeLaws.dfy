/** What a merge means: over one partition of the base into cells, the three files
    and the output are concatenations of cell texts, and the output text of every
    cell follows the three-way rule. Identity, agreement, symmetry and the exact
    failures of `merge` follow. */
module MergeLaws {
  import opened Bytes
  import opened Merge
  import opened Compose

  /** A piece of the base with its text in the three files, and the edits that made
      the sides' texts. */
  datatype Cell = Cell(range: Range, base: seq<Byte>, a: seq<Byte>, b: seq<Byte>,
                       aEdits: seq<Edit>, bEdits: seq<Edit>)
  {
    /** Both sides changed it, differently. */
    predicate Contested() { a != b && a != base && b != base }
  }

  datatype Column = Base | A | B | Out(aWins: bool)

  /** The text of a cell in one file; `Out` is the three-way rule. */
  function Text(c: Cell, col: Column): seq<Byte>
  {
    match col
    case Base => c.base
    case A => c.a
    case B => c.b
    case Out(aWins) =>
      if c.a == c.b || c.b == c.base then c.a
      else if c.a == c.base then c.b
      else if aWins then c.a else c.b
  }

  function Whole(cells: seq<Cell>, col: Column): seq<Byte>
  {
    if cells == [] then [] else Text(cells[0], col) + Whole(cells[1..], col)
  }

  function Hunks(cells: seq<Cell>): seq<ConflictHunk>
  {
    if cells == [] then []
    else if cells[0].Contested() then
      [ConflictHunk(cells[0].range, SideSpan(cells[0].aEdits), SideSpan(cells[0].bEdits))] + Hunks(cells[1..])
    else Hunks(cells[1..])
  }

  function Gap(base: seq<Line>, lo: nat, hi: nat): Cell
    requires lo <= hi <= |base|
  {
    var text := Flatten(base[lo..hi]);
    Cell(Range(lo, hi), text, text, text, [], [])
  }

  function GroupCell(base: seq<Line>, a: seq<Line>, b: seq<Line>, ga: seq<Edit>, gb: seq<Edit>, lo: nat, hi: nat): Cell
    requires Within(ga, lo, hi, |a|) && Within(gb, lo, hi, |b|) && hi <= |base|
  {
    Cell(Range(lo, hi), Flatten(base[lo..hi]), Rendered(base, a, lo, hi, ga), Rendered(base, b, lo, hi, gb), ga, gb)
  }

  /** Gap, group, gap, group, ..., gap. */
  function CellsFrom(base: seq<Line>, a: seq<Line>, b: seq<Line>, ae: seq<Edit>, be: seq<Edit>,
                     ai: nat, bi: nat, cursor: nat): seq<Cell>
    requires Ready(|base|, |a|, |b|, ae, be, ai, bi, cursor)
    decreases |ae| - ai + |be| - bi
  {
    if ai == |ae| && bi == |be| then [Gap(base, cursor, |base|)]
    else
      GroupBounds(|base|, |a|, |b|, ae, be, ai, bi, cursor);
      var g := GroupAt(ae, be, ai, bi);
      [Gap(base, cursor, g.start),
       GroupCell(base, a, b, ae[ai..g.aEnd], be[bi..g.bEnd], g.start, g.end)]
      + CellsFrom(base, a, b, ae, be, g.aEnd, g.bEnd, g.end)
  }

  // ---------------------------------------------------------------- the cells partition the base

  /** The cells' base ranges follow each other from `lo` to `hi`. */
  predicate Chained(cells: seq<Cell>, lo: nat, hi: nat)
  {
    if cells == [] then lo == hi
    else cells[0].range.start == lo && lo <= cells[0].range.end && Chained(cells[1..], cells[0].range.end, hi)
  }

  function AllEdits(cells: seq<Cell>, col: Column): seq<Edit>
  {
    if cells == [] then []
    else (match col case A => cells[0].aEdits case B => cells[0].bEdits case _ => []) + AllEdits(cells[1..], col)
  }

  /** What a gap and a group in front do to the functions on cells. */
  lemma Cons2(x: Cell, y: Cell, rest: seq<Cell>, col: Column)
    ensures Whole([x, y] + rest, col) == Text(x, col) + Text(y, col) + Whole(rest, col)
    ensures !x.Contested() ==> Hunks([x, y] + rest) == Hunks([y]) + Hunks(rest)
  {
    var cells := [x, y] + rest;
    assert cells[1..] == [y] + rest && cells[1..][1..] == rest;
    assert [y][1..] == [];
  }

  lemma Cons2Partition(x: Cell, y: Cell, rest: seq<Cell>, lo: nat, hi: nat)
    requires x.range.start == lo <= x.range.end == y.range.start <= y.range.end
    requires Chained(rest, y.range.end, hi)
    requires x.aEdits == x.bEdits == []
    ensures Chained([x, y] + rest, lo, hi)
    ensures AllEdits([x, y] + rest, A) == y.aEdits + AllEdits(rest, A)
    ensures AllEdits([x, y] + rest, B) == y.bEdits + AllEdits(rest, B)
  {
    var cells := [x, y] + rest;
    assert cells[1..] == [y] + rest && cells[1..][1..] == rest;
  }

  /** The cells cut the base without gap or overlap, and every edit of either side
      is in exactly one cell, in order. */
  lemma {:induction false} CellsPartition(base: seq<Line>, a: seq<Line>, b: seq<Line>, ae: seq<Edit>, be: seq<Edit>,
                                          ai: nat, bi: nat, cursor: nat)
    requires Ready(|base|, |a|, |b|, ae, be, ai, bi, cursor)
    ensures var cells := CellsFrom(base, a, b, ae, be, ai, bi, cursor);
            && Chained(cells, cursor, |base|)
            && AllEdits(cells, A) == ae[ai..] && AllEdits(cells, B) == be[bi..]
    decreases |ae| - ai + |be| - bi
  {
    if ai == |ae| && bi == |be| {
      assert CellsFrom(base, a, b, ae, be, ai, bi, cursor)[1..] == [];
      assert ae[ai..] == [] && be[bi..] == [];
    } else {
      GroupBounds(|base|, |a|, |b|, ae, be, ai, bi, cursor);
      var g := GroupAt(ae, be, ai, bi);
      CellsPartition(base, a, b, ae, be, g.aEnd, g.bEnd, g.end);
      var rest := CellsFrom(base, a, b, ae, be, g.aEnd, g.bEnd, g.end);
      var group := GroupCell(base, a, b, ae[ai..g.aEnd], be[bi..g.bEnd], g.start, g.end);
      Cons2Partition(Gap(base, cursor, g.start), group, rest, cursor, |base|);
      SplitTail(ae, ai, g.aEnd);
      SplitTail(be, bi, g.bEnd);
    }
  }

  lemma SplitTail(es: seq<Edit>, i: nat, j: nat)
    requires i <= j <= |es|
    ensures es[i..] == es[i..j] + es[j..]
  {
  }

  predicate Increasing(hunks: seq<ConflictHunk>, lo: nat)
  {
    && (forall k :: 0 <= k < |hunks| ==> lo <= hunks[k].base.start <= hunks[k].base.end)
    && (forall k, m :: 0 <= k < m < |hunks| ==> hunks[k].base.end <= hunks[m].base.start)
  }

  /** Hunks are reported in base order and do not overlap. */
  lemma {:induction false} HunksIncrease(cells: seq<Cell>, lo: nat, hi: nat)
    requires Chained(cells, lo, hi)
    ensures Increasing(Hunks(cells), lo)
  {
    if cells != [] {
      HunksIncrease(cells[1..], cells[0].range.end, hi);
      var hs, rest := Hunks(cells), Hunks(cells[1..]);
      if cells[0].Contested() {
        assert forall k :: 1 <= k < |hs| ==> hs[k] == rest[k - 1];
      }
    }
  }

  // ---------------------------------------------------------------- the cells' texts are the files

  /** Rendering a run of edits gives the side's own lines. */
  lemma {:induction false} RenderedIsSide(base: seq<Line>, side: seq<Line>, es: seq<Edit>, later: seq<Edit>,
                                          lo: nat, hi: nat, j: nat)
    returns (j': nat)
    requires Rewrites(base, side, es + later, lo, j)
    requires Within(es, lo, hi, |side|) && hi <= |base|
    requires later != [] ==> hi <= later[0].base.start
    ensures j <= j' <= |side|
    ensures Rendered(base, side, lo, hi, es) == Flatten(side[j..j'])
    ensures Rewrites(base, side, later, hi, j')
    decreases |es|
  {
    if es == [] {
      assert es + later == later;
      RewritesLater(base, side, later, lo, j, hi);
      j' := j + (hi - lo);
    } else {
      var e := es[0];
      ConsAppend(es, later);
      WithinTail(es, lo, hi, |side|);
      j' := RenderedIsSide(base, side, es[1..], later, e.base.end, hi, e.side.end);
      FlattenTwice(side, j, e.side.start, e.side.end, j');
    }
  }

  lemma ConsAppend(es: seq<Edit>, later: seq<Edit>)
    requires es != []
    ensures (es + later)[0] == es[0] && (es + later)[1..] == es[1..] + later
  {
  }

  lemma FlattenTwice(s: seq<Line>, i: nat, j: nat, k: nat, m: nat)
    requires i <= j <= k <= m <= |s|
    ensures Flatten(s[i..m]) == Flatten(s[i..j]) + Flatten(s[j..k]) + Flatten(s[k..m])
  {
    FlattenSplit(s, i, k, m);
    FlattenSplit(s, i, j, k);
  }

  lemma {:induction false} BaseColumn(base: seq<Line>, a: seq<Line>, b: seq<Line>, ae: seq<Edit>, be: seq<Edit>,
                                      ai: nat, bi: nat, cursor: nat)
    requires Ready(|base|, |a|, |b|, ae, be, ai, bi, cursor)
    ensures Whole(CellsFrom(base, a, b, ae, be, ai, bi, cursor), Base) == Flatten(base[cursor..])
    decreases |ae| - ai + |be| - bi
  {
    if ai == |ae| && bi == |be| {
      LastGap(base, cursor);
    } else {
      GroupBounds(|base|, |a|, |b|, ae, be, ai, bi, cursor);
      var g := GroupAt(ae, be, ai, bi);
      BaseColumn(base, a, b, ae, be, g.aEnd, g.bEnd, g.end);
      Cons2(Gap(base, cursor, g.start), GroupCell(base, a, b, ae[ai..g.aEnd], be[bi..g.bEnd], g.start, g.end),
            CellsFrom(base, a, b, ae, be, g.aEnd, g.bEnd, g.end), Base);
      Flatten3(base, cursor, g.start, g.end);
    }
  }

  /** A side is the concatenation of its column: what a merge keeps or drops, it
      keeps or drops cell by cell. */
  lemma {:induction false} SideColumn(base: seq<Line>, a: seq<Line>, b: seq<Line>, ae: seq<Edit>, be: seq<Edit>,
                                      ai: nat, bi: nat, cursor: nat, j: nat)
    requires Ready(|base|, |a|, |b|, ae, be, ai, bi, cursor)
    requires Rewrites(base, a, ae[ai..], cursor, j)
    ensures Whole(CellsFrom(base, a, b, ae, be, ai, bi, cursor), A) == Flatten(a[j..])
    decreases |ae| - ai + |be| - bi
  {
    if ai == |ae| && bi == |be| {
      LastGap(base, cursor);
    } else {
      GroupBounds(|base|, |a|, |b|, ae, be, ai, bi, cursor);
      var g := GroupAt(ae, be, ai, bi);
      var j1, j2 := SideStep(base, a, ae, ai, g.aEnd, cursor, g.start, g.end, j);
      SideColumn(base, a, b, ae, be, g.aEnd, g.bEnd, g.end, j2);
      Cons2(Gap(base, cursor, g.start), GroupCell(base, a, b, ae[ai..g.aEnd], be[bi..g.bEnd], g.start, g.end),
            CellsFrom(base, a, b, ae, be, g.aEnd, g.bEnd, g.end), A);
      Flatten3(a, j, j1, j2);
    }
  }

  lemma {:induction false} SwapWhole(cells: seq<Cell>)
    ensures Whole(SwapCells(cells), A) == Whole(cells, B)
  {
    if cells != [] {
      SwapWhole(cells[1..]);
    }
  }

  lemma LastGap(base: seq<Line>, cursor: nat)
    requires cursor <= |base|
    ensures forall col :: Whole([Gap(base, cursor, |base|)], col) == Flatten(base[cursor..])
    ensures Hunks([Gap(base, cursor, |base|)]) == []
  {
    var gap := Gap(base, cursor, |base|);
    assert base[cursor..|base|] == base[cursor..];
    assert [gap][1..] == [];
    forall col
      ensures Whole([gap], col) == Flatten(base[cursor..])
    {
      assert Text(gap, col) == gap.base;
      assert gap.base + [] == gap.base;
    }
  }

  lemma Flatten3(s: seq<Line>, i: nat, j: nat, k: nat)
    requires i <= j <= k <= |s|
    ensures Flatten(s[i..]) == Flatten(s[i..j]) + Flatten(s[j..k]) + Flatten(s[k..])
  {
    assert s[i..|s|] == s[i..] && s[k..|s|] == s[k..];
    FlattenTwice(s, i, j, k, |s|);
  }

  /** One side through a gap and a group. */
  lemma SideStep(base: seq<Line>, side: seq<Line>, es: seq<Edit>, i: nat, i': nat, cursor: nat, start: nat, end: nat, j: nat)
    returns (j1: nat, j2: nat)
    requires i <= i' <= |es| && cursor <= start <= end <= |base|
    requires Rewrites(base, side, es[i..], cursor, j)
    requires Within(es[i..i'], start, end, |side|)
    requires i' < |es| ==> end <= es[i'].base.start
    ensures j <= j1 <= j2 <= |side|
    ensures Flatten(side[j..j1]) == Flatten(base[cursor..start])
    ensures Flatten(side[j1..j2]) == Rendered(base, side, start, end, es[i..i'])
    ensures Rewrites(base, side, es[i'..], end, j2)
  {
    SplitTail(es, i, i');
    GapBeforeRun(es, i, i', start, end, |side|, |base|);
    RewritesLater(base, side, es[i..i'] + es[i'..], cursor, j, start);
    j1 := j + (start - cursor);
    j2 := RenderedIsSide(base, side, es[i..i'], es[i'..], start, end, j1);
  }

  lemma GapBeforeRun(es: seq<Edit>, i: nat, i': nat, start: nat, end: nat, sideLines: nat, limit: nat)
    requires i <= i' <= |es| && start <= end <= limit
    requires Within(es[i..i'], start, end, sideLines)
    requires i' < |es| ==> end <= es[i'].base.start
    ensures var run := es[i..i'] + es[i'..]; start <= if run == [] then limit else run[0].base.start
  {
    assert i < i' ==> es[i..i'][0] == es[i];
  }

  // ---------------------------------------------------------------- compose computes the output column

  function HunkOf(c: Cell): ConflictHunk
  {
    ConflictHunk(c.range, SideSpan(c.aEdits), SideSpan(c.bEdits))
  }

  /** A group cell: a side without edits has the base text. */
  predicate Genuine(c: Cell)
  {
    (c.aEdits == [] ==> c.a == c.base) && (c.bEdits == [] ==> c.b == c.base)
  }

  function SettleCell(c: Cell, aWins: bool, output: seq<Byte>, hunks: seq<ConflictHunk>)
    : Outcome<(seq<Byte>, seq<ConflictHunk>)>
  {
    SettleTexts(c.aEdits == [], c.bEdits == [], c.base, c.a, c.b, HunkOf(c), aWins, output, hunks)
  }

  /** Resolving a group appends the three-way choice and records exactly a
      contested cell, or fails on a limit. */
  lemma SettleIsRule(c: Cell, aWins: bool, output: seq<Byte>, hunks: seq<ConflictHunk>)
    requires Genuine(c)
    ensures var r := SettleCell(c, aWins, output, hunks);
            r.Success? ==> r.value == (output + Text(c, Out(aWins)), hunks + Hunks([c]))
  {
    assert [c][1..] == [];
    assert Hunks([c]) == if c.Contested() then [HunkOf(c)] else [];
    assert hunks + [] == hunks;
  }

  lemma SettleFailures(c: Cell, aWins: bool, output: seq<Byte>, hunks: seq<ConflictHunk>)
    requires Genuine(c) && |hunks| <= MAX_HUNKS
    requires |c.base| <= MAX_OUTPUT_BYTES && |output| + |c.a| + |c.b| <= MAX_OUTPUT_BYTES
    ensures var r := SettleCell(c, aWins, output, hunks);
            && (r.Failure? <==> |hunks| == MAX_HUNKS && c.Contested())
            && (r.Failure? ==> r.reason == TooManyHunks)
  {
  }

  /** `compose` as a fold over the cells. */
  function ComposeCells(cells: seq<Cell>, aWins: bool, output: seq<Byte>, hunks: seq<ConflictHunk>): Outcome<MergeResult>
  {
    if cells == [] then Success(MergeResult(output, hunks))
    else
      match SettleCell(cells[0], aWins, output, hunks)
      case Failure(reason) => Failure(reason)
      case Success(v) => ComposeCells(cells[1..], aWins, v.0, v.1)
  }

  predicate AllGenuine(cells: seq<Cell>)
  {
    forall k :: 0 <= k < |cells| ==> Genuine(cells[k])
  }

  lemma Cons2Fold(x: Cell, y: Cell, rest: seq<Cell>, aWins: bool, output: seq<Byte>, hunks: seq<ConflictHunk>)
    requires x.aEdits == x.bEdits == [] && x.b == x.base
    ensures ComposeCells([x, y] + rest, aWins, output, hunks)
         == var gap := AppendBytes(output, x.base);
            if gap.Failure? then Failure(gap.reason)
            else
              var settled := SettleCell(y, aWins, gap.value, hunks);
              if settled.Failure? then Failure(settled.reason)
              else ComposeCells(rest, aWins, settled.value.0, settled.value.1)
  {
    var cells := [x, y] + rest;
    assert cells[1..] == [y] + rest && cells[1..][1..] == rest;
  }

  lemma LastFold(x: Cell, aWins: bool, output: seq<Byte>, hunks: seq<ConflictHunk>)
    requires x.aEdits == x.bEdits == [] && x.b == x.base
    ensures ComposeCells([x], aWins, output, hunks)
         == var gap := AppendBytes(output, x.base);
            if gap.Failure? then Failure(gap.reason) else Success(MergeResult(gap.value, hunks))
  {
    assert [x][1..] == [];
  }

  lemma {:induction false} CellsGenuine(base: seq<Line>, a: seq<Line>, b: seq<Line>, ae: seq<Edit>, be: seq<Edit>,
                                        ai: nat, bi: nat, cursor: nat)
    requires Ready(|base|, |a|, |b|, ae, be, ai, bi, cursor)
    ensures AllGenuine(CellsFrom(base, a, b, ae, be, ai, bi, cursor))
    decreases |ae| - ai + |be| - bi
  {
    if ai < |ae| || bi < |be| {
      GroupBounds(|base|, |a|, |b|, ae, be, ai, bi, cursor);
      var g := GroupAt(ae, be, ai, bi);
      CellsGenuine(base, a, b, ae, be, g.aEnd, g.bEnd, g.end);
    }
  }

  /** `compose` is that fold. */
  lemma {:induction false} ComposeIsFold(base: seq<Line>, a: seq<Line>, b: seq<Line>, ae: seq<Edit>, be: seq<Edit>,
                                         aWins: bool, ai: nat, bi: nat, cursor: nat,
                                         output: seq<Byte>, hunks: seq<ConflictHunk>)
    requires Ready(|base|, |a|, |b|, ae, be, ai, bi, cursor)
    ensures ComposeFrom(base, a, b, ae, be, aWins, ai, bi, cursor, output, hunks)
            == ComposeCells(CellsFrom(base, a, b, ae, be, ai, bi, cursor), aWins, output, hunks)
    decreases |ae| - ai + |be| - bi
  {
    if ai == |ae| && bi == |be| {
      LastFold(Gap(base, cursor, |base|), aWins, output, hunks);
      assert base[cursor..|base|] == base[cursor..];
    } else {
      GroupBounds(|base|, |a|, |b|, ae, be, ai, bi, cursor);
      var g := GroupAt(ae, be, ai, bi);
      var gap := Gap(base, cursor, g.start);
      var group := GroupCell(base, a, b, ae[ai..g.aEnd], be[bi..g.bEnd], g.start, g.end);
      Cons2Fold(gap, group, CellsFrom(base, a, b, ae, be, g.aEnd, g.bEnd, g.end), aWins, output, hunks);
      var step := ComposeGroup(base, a, b, ae, be, aWins, ai, bi, cursor, output, hunks);
      if step.Success? {
        ComposeIsFold(base, a, b, ae, be, aWins, g.aEnd, g.bEnd, g.end, step.value.0, step.value.1);
      }
    }
  }

  /** A successful fold is the output column with one hunk per contested cell. */
  lemma {:induction false} FoldIsOutput(cells: seq<Cell>, aWins: bool, output: seq<Byte>, hunks: seq<ConflictHunk>)
    requires AllGenuine(cells)
    ensures var r := ComposeCells(cells, aWins, output, hunks);
            r.Success? ==> r.value == MergeResult(output + Whole(cells, Out(aWins)), hunks + Hunks(cells))
  {
    if cells == [] {
      assert output + [] == output && hunks + [] == hunks;
    } else {
      var c, rest := cells[0], cells[1..];
      var settled := SettleCell(c, aWins, output, hunks);
      if settled.Success? {
        SettleIsRule(c, aWins, output, hunks);
        FoldIsOutput(rest, aWins, settled.value.0, settled.value.1);
        Reassociate(output, Text(c, Out(aWins)), Whole(rest, Out(aWins)));
        HunksCons(cells);
        assert hunks + (Hunks([c]) + Hunks(rest)) == (hunks + Hunks([c])) + Hunks(rest);
      }
    }
  }

  lemma HunksCons(cells: seq<Cell>)
    requires cells != []
    ensures Hunks(cells) == Hunks([cells[0]]) + Hunks(cells[1..])
  {
    var one := [cells[0]];
    assert one[1..] == [] && Hunks(one[1..]) == [];
    if cells[0].Contested() {
      assert Hunks(one) == [HunkOf(cells[0])];
    } else {
      assert Hunks(one) == [];
    }
  }

  /** The whole fold, when there is room for both sides. */
  lemma FoldCorrect(cells: seq<Cell>, aWins: bool)
    requires AllGenuine(cells)
    requires |Whole(cells, Base)| <= MAX_OUTPUT_BYTES
    requires |Whole(cells, A)| + |Whole(cells, B)| <= MAX_OUTPUT_BYTES
    ensures ComposeCells(cells, aWins, [], [])
         == if |Hunks(cells)| > MAX_HUNKS then Failure(TooManyHunks)
            else Success(MergeResult(Whole(cells, Out(aWins)), Hunks(cells)))
  {
    FoldFailures(cells, aWins, [], []);
    FoldIsOutput(cells, aWins, [], []);
    assert [] + Whole(cells, Out(aWins)) == Whole(cells, Out(aWins));
    assert [] + Hunks(cells) == Hunks(cells);
  }

  /** With room for both sides, the fold fails exactly for its number of hunks. */
  lemma {:induction false} FoldFailures(cells: seq<Cell>, aWins: bool, output: seq<Byte>, hunks: seq<ConflictHunk>)
    requires AllGenuine(cells) && |hunks| <= MAX_HUNKS
    requires |Whole(cells, Base)| <= MAX_OUTPUT_BYTES
    requires |output| + |Whole(cells, A)| + |Whole(cells, B)| <= MAX_OUTPUT_BYTES
    ensures var r := ComposeCells(cells, aWins, output, hunks);
            && (r.Failure? <==> |hunks| + |Hunks(cells)| > MAX_HUNKS)
            && (r.Failure? ==> r.reason == TooManyHunks)
  {
    if cells != [] {
      var c, rest := cells[0], cells[1..];
      SettleFailures(c, aWins, output, hunks);
      SettleIsRule(c, aWins, output, hunks);
      HunksCons(cells);
      assert [c][1..] == [];
      var settled := SettleCell(c, aWins, output, hunks);
      if settled.Success? {
        FoldFailures(rest, aWins, settled.value.0, settled.value.1);
      }
    }
  }

  // ---------------------------------------------------------------- symmetry

  lemma GroupSwap(baseLines: nat, aLines: nat, bLines: nat, ae: seq<Edit>, be: seq<Edit>, ai: nat, bi: nat, cursor: nat)
    requires Ready(baseLines, aLines, bLines, ae, be, ai, bi, cursor) && Pending(ae, be, ai, bi)
    ensures var g := GroupAt(ae, be, ai, bi);
            GroupAt(be, ae, bi, ai) == Group(g.start, g.end, g.bEnd, g.aEnd)
  {
    GroupIsLeast(ae, be, ai, bi, baseLines);
    GroupIsLeast(be, ae, bi, ai, baseLines);
    var g, h := GroupAt(ae, be, ai, bi), GroupAt(be, ae, bi, ai);
    assert Closed(ae, be, g.start, ai, bi, h.bEnd, h.aEnd, h.end);
    assert Closed(be, ae, g.start, bi, ai, g.bEnd, g.aEnd, g.end);
  }

  function SwapHunks(hunks: seq<ConflictHunk>): (r: seq<ConflictHunk>)
    ensures |r| == |hunks|
  {
    seq(|hunks|, k requires 0 <= k < |hunks| => ConflictHunk(hunks[k].base, hunks[k].b, hunks[k].a))
  }

  function SwapSides(r: Outcome<MergeResult>): Outcome<MergeResult>
  {
    match r
    case Success(m) => Success(MergeResult(m.bytes, SwapHunks(m.hunks)))
    case Failure(reason) => Failure(reason)
  }

  function SwapCell(c: Cell): Cell
  {
    Cell(c.range, c.base, c.b, c.a, c.bEdits, c.aEdits)
  }

  function SwapCells(cells: seq<Cell>): (r: seq<Cell>)
    ensures |r| == |cells|
  {
    if cells == [] then [] else [SwapCell(cells[0])] + SwapCells(cells[1..])
  }

  lemma {:induction false} CellsSwap(base: seq<Line>, a: seq<Line>, b: seq<Line>, ae: seq<Edit>, be: seq<Edit>,
                                     ai: nat, bi: nat, cursor: nat)
    requires Ready(|base|, |a|, |b|, ae, be, ai, bi, cursor)
    ensures CellsFrom(base, b, a, be, ae, bi, ai, cursor) == SwapCells(CellsFrom(base, a, b, ae, be, ai, bi, cursor))
    decreases |ae| - ai + |be| - bi
  {
    if ai == |ae| && bi == |be| {
      assert [Gap(base, cursor, |base|)][1..] == [];
    } else {
      GroupBounds(|base|, |a|, |b|, ae, be, ai, bi, cursor);
      GroupSwap(|base|, |a|, |b|, ae, be, ai, bi, cursor);
      var g := GroupAt(ae, be, ai, bi);
      CellsSwap(base, a, b, ae, be, g.aEnd, g.bEnd, g.end);
      var gap := Gap(base, cursor, g.start);
      var group := GroupCell(base, a, b, ae[ai..g.aEnd], be[bi..g.bEnd], g.start, g.end);
      var rest := CellsFrom(base, a, b, ae, be, g.aEnd, g.bEnd, g.end);
      Cons2Swap(gap, group, rest);
    }
  }

  lemma Cons2Swap(x: Cell, y: Cell, rest: seq<Cell>)
    ensures SwapCells([x, y] + rest) == [SwapCell(x), SwapCell(y)] + SwapCells(rest)
  {
    var cells := [x, y] + rest;
    assert cells[1..] == [y] + rest && cells[1..][1..] == rest;
  }

  lemma SettleSwap(c: Cell, aWins: bool, output: seq<Byte>, hunks: seq<ConflictHunk>)
    requires Genuine(c)
    ensures SettleCell(SwapCell(c), !aWins, output, SwapHunks(hunks))
            == var settled := SettleCell(c, aWins, output, hunks);
               if settled.Failure? then settled else Success((settled.value.0, SwapHunks(settled.value.1)))
  {
    assert SwapHunks(hunks + [HunkOf(c)]) == SwapHunks(hunks) + [HunkOf(SwapCell(c))];
  }

  /** Swapping the sides and the winner changes nothing but the hunks' columns. */
  lemma {:induction false} FoldSwap(cells: seq<Cell>, aWins: bool, output: seq<Byte>, hunks: seq<ConflictHunk>)
    requires AllGenuine(cells)
    ensures ComposeCells(SwapCells(cells), !aWins, output, SwapHunks(hunks))
            == SwapSides(ComposeCells(cells, aWins, output, hunks))
  {
    if cells != [] {
      SettleSwap(cells[0], aWins, output, hunks);
      var settled := SettleCell(cells[0], aWins, output, hunks);
      if settled.Success? {
        FoldSwap(cells[1..], aWins, settled.value.0, settled.value.1);
      }
    }
  }

  // ---------------------------------------------------------------- one side unchanged, equal sides

  /** A column of cells in which two files agree everywhere. */
  predicate Agree(cells: seq<Cell>, x: Column, y: Column)
  {
    forall k :: 0 <= k < |cells| ==> Text(cells[k], x) == Text(cells[k], y)
  }

  lemma {:induction false} AgreeWhole(cells: seq<Cell>, x: Column, y: Column)
    requires Agree(cells, x, y)
    ensures Whole(cells, x) == Whole(cells, y)
  {
    if cells != [] {
      AgreeWhole(cells[1..], x, y);
    }
  }

  lemma {:induction false} AgreeNoHunks(cells: seq<Cell>)
    requires Agree(cells, A, B) || Agree(cells, A, Base) || Agree(cells, B, Base)
    ensures Hunks(cells) == []
  {
    if cells != [] {
      assert Text(cells[0], A) == cells[0].a && Text(cells[0], B) == cells[0].b && Text(cells[0], Base) == cells[0].base;
      AgreeNoHunks(cells[1..]);
    }
  }

  lemma Cons2Agree(x: Cell, y: Cell, rest: seq<Cell>, p: Column, q: Column)
    requires Text(x, p) == Text(x, q) && Text(y, p) == Text(y, q) && Agree(rest, p, q)
    ensures Agree([x, y] + rest, p, q)
  {
  }

  lemma {:induction false} UneditedSide(base: seq<Line>, a: seq<Line>, b: seq<Line>, ae: seq<Edit>, be: seq<Edit>,
                                        ai: nat, bi: nat, cursor: nat)
    requires Ready(|base|, |a|, |b|, ae, be, ai, bi, cursor) && be == []
    ensures Agree(CellsFrom(base, a, b, ae, be, ai, bi, cursor), B, Base)
    decreases |ae| - ai + |be| - bi
  {
    if ai < |ae| {
      GroupBounds(|base|, |a|, |b|, ae, be, ai, bi, cursor);
      var g := GroupAt(ae, be, ai, bi);
      UneditedSide(base, a, b, ae, be, g.aEnd, g.bEnd, g.end);
      assert be[bi..g.bEnd] == [];
      Cons2Agree(Gap(base, cursor, g.start), GroupCell(base, a, b, ae[ai..g.aEnd], [], g.start, g.end),
                 CellsFrom(base, a, b, ae, be, g.aEnd, g.bEnd, g.end), B, Base);
    }
  }

  lemma SwapAgree(cells: seq<Cell>)
    requires Agree(SwapCells(cells), B, Base)
    ensures Agree(cells, A, Base)
  {
    forall k | 0 <= k < |cells|
      ensures Text(cells[k], A) == Text(cells[k], Base)
    {
      SwapAt(cells, k);
      assert Text(SwapCells(cells)[k], B) == Text(SwapCells(cells)[k], Base);
    }
  }

  lemma {:induction false} SwapAt(cells: seq<Cell>, k: nat)
    requires k < |cells|
    ensures SwapCells(cells)[k] == SwapCell(cells[k])
  {
    if k > 0 {
      SwapAt(cells[1..], k - 1);
    }
  }

  /** With the same script on both sides every group takes the same edits of both. */
  lemma GroupTwin(baseLines: nat, aLines: nat, es: seq<Edit>, i: nat, cursor: nat)
    requires Ready(baseLines, aLines, aLines, es, es, i, i, cursor) && i < |es|
    ensures GroupAt(es, es, i, i).aEnd == GroupAt(es, es, i, i).bEnd
  {
    GroupSwap(baseLines, aLines, aLines, es, es, i, i, cursor);
  }

  lemma {:induction false} EqualSides(base: seq<Line>, a: seq<Line>, es: seq<Edit>, i: nat, cursor: nat)
    requires Ready(|base|, |a|, |a|, es, es, i, i, cursor)
    ensures Agree(CellsFrom(base, a, a, es, es, i, i, cursor), A, B)
    decreases |es| - i
  {
    if i < |es| {
      GroupBounds(|base|, |a|, |a|, es, es, i, i, cursor);
      GroupTwin(|base|, |a|, es, i, cursor);
      var g := GroupAt(es, es, i, i);
      EqualSides(base, a, es, g.aEnd, g.end);
      var run := es[i..g.aEnd];
      Cons2Agree(Gap(base, cursor, g.start), GroupCell(base, a, a, run, run, g.start, g.end),
                 CellsFrom(base, a, a, es, es, g.aEnd, g.aEnd, g.end), A, B);
    }
  }
}
