/** `compose` and what it computes. Both edit scripts are cut into groups of
    overlapping edits; the groups and the gaps between them partition the base
    into cells, and each cell is resolved by the three-way rule
    (src/merge.rs:139-296). */
module Compose {
  import opened Utils
  import opened Bytes
  import opened Merge

  // ---------------------------------------------------------------- output under the size limit

  function Limited(bytes: seq<Byte>): Outcome<seq<Byte>>
  {
    if |bytes| > MAX_OUTPUT_BYTES then Failure(OutputBytes) else Success(bytes)
  }

  function AppendBytes(output: seq<Byte>, bytes: seq<Byte>): Outcome<seq<Byte>>
  {
    Limited(output + bytes)
  }

  lemma Reassociate(x: seq<Byte>, y: seq<Byte>, z: seq<Byte>)
    ensures x + (y + z) == (x + y) + z
  {
  }

  method Append(output: seq<Byte>, lines: seq<Line>) returns (r: Outcome<seq<Byte>>)
    requires |output| <= MAX_OUTPUT_BYTES
    ensures r == AppendBytes(output, Flatten(lines))
  {
    var current := output;
    for k := 0 to |lines|
      invariant |current| <= MAX_OUTPUT_BYTES
      invariant output + Flatten(lines) == current + Flatten(lines[k..])
    {
      assert Flatten(lines[k..]) == lines[k] + Flatten(lines[k + 1..]);
      Reassociate(current, lines[k], Flatten(lines[k + 1..]));
      assert |output + Flatten(lines)| >= |current + lines[k]|;
      current :- AppendBytes(current, lines[k]);
    }
    assert current + [] == current;
    r := Success(current);
  }

  /** The edits lie, in order, between two base lines. */
  predicate Within(es: seq<Edit>, lo: nat, hi: nat, sideLines: nat)
  {
    lo <= hi && Ordered(es, hi, sideLines) && forall k :: 0 <= k < |es| ==> lo <= es[k].base.start
  }

  function Rendered(base: seq<Line>, side: seq<Line>, lo: nat, hi: nat, es: seq<Edit>): seq<Byte>
    requires Within(es, lo, hi, |side|) && hi <= |base|
    decreases |es|
  {
    if es == [] then Flatten(base[lo..hi])
    else
      var e := es[0];
      Flatten(base[lo..e.base.start]) + Flatten(side[e.side.start..e.side.end])
      + Rendered(base, side, e.base.end, hi, es[1..])
  }

  method FlattenLimited(lines: seq<Line>) returns (r: Outcome<seq<Byte>>)
    ensures r == Limited(Flatten(lines))
  {
    r := Append([], lines);
    assert [] + Flatten(lines) == Flatten(lines);
  }

  lemma WithinTail(es: seq<Edit>, lo: nat, hi: nat, sideLines: nat)
    requires Within(es, lo, hi, sideLines) && es != []
    ensures Within(es[1..], es[0].base.end, hi, sideLines)
  {
  }

  lemma RegroupRendered(output: seq<Byte>, gap: seq<Byte>, text: seq<Byte>, rest: seq<Byte>)
    ensures output + (gap + text + rest) == ((output + gap) + text) + rest
    ensures |output + (gap + text + rest)| == |output + gap| + |text| + |rest|
  {
  }

  method Render(base: seq<Line>, side: seq<Line>, lo: nat, hi: nat, es: seq<Edit>)
    returns (r: Outcome<seq<Byte>>)
    requires Within(es, lo, hi, |side|) && hi <= |base|
    ensures r == Limited(Rendered(base, side, lo, hi, es))
  {
    var output, cursor := [], lo;
    assert es[0..] == es;
    for k := 0 to |es|
      invariant Within(es[k..], cursor, hi, |side|)
      invariant |output| <= MAX_OUTPUT_BYTES
      invariant Rendered(base, side, lo, hi, es) == output + Rendered(base, side, cursor, hi, es[k..])
    {
      var e := es[k];
      assert es[k..][0] == e && es[k..][1..] == es[k + 1..];
      WithinTail(es[k..], cursor, hi, |side|);
      RegroupRendered(output, Flatten(base[cursor..e.base.start]), Flatten(side[e.side.start..e.side.end]),
                      Rendered(base, side, e.base.end, hi, es[k + 1..]));
      output :- Append(output, base[cursor..e.base.start]);
      output :- Append(output, side[e.side.start..e.side.end]);
      cursor := e.base.end;
    }
    assert es[|es|..] == [];
    r := Append(output, base[cursor..hi]);
  }

  function SideSpan(es: seq<Edit>): Range
  {
    if es == [] then Range(0, 0) else Range(es[0].side.start, es[|es| - 1].side.end)
  }

  function PushHunk(hunks: seq<ConflictHunk>, hunk: ConflictHunk): Outcome<seq<ConflictHunk>>
  {
    if |hunks| == MAX_HUNKS then Failure(TooManyHunks) else Success(hunks + [hunk])
  }

  // ---------------------------------------------------------------- groups

  predicate Joins(e: Edit, start: nat, end: nat)
  {
    if end == start then e.base.start == start else e.base.start < end
  }

  /** A group from `start` that took the edits [a0, a) and [b0, b) and reaches
      `end`: it covers its edits, and neither next edit joins it. */
  ghost predicate Closed(ae: seq<Edit>, be: seq<Edit>, start: nat, a0: nat, b0: nat, a: nat, b: nat, end: nat)
  {
    && a0 <= a <= |ae| && b0 <= b <= |be| && start <= end
    && (forall k :: a0 <= k < a ==> ae[k].base.end <= end)
    && (forall k :: b0 <= k < b ==> be[k].base.end <= end)
    && (a < |ae| ==> !Joins(ae[a], start, end))
    && (b < |be| ==> !Joins(be[b], start, end))
  }

  /** The state (a, b, end) is contained in every closed group. */
  ghost predicate Below(ae: seq<Edit>, be: seq<Edit>, start: nat, a0: nat, b0: nat, a: nat, b: nat, end: nat)
  {
    forall a2, b2, end2 ::
      Closed(ae, be, start, a0, b0, a2, b2, end2) ==> a <= a2 && b <= b2 && end <= end2
  }

  /** A group being collected. */
  ghost predicate Growing(ae: seq<Edit>, be: seq<Edit>, start: nat, a0: nat, b0: nat, a: nat, b: nat, end: nat, limit: nat)
  {
    && a0 <= a <= |ae| && b0 <= b <= |be| && start <= end <= limit
    && (forall k :: a0 <= k < a ==> ae[k].base.end <= end)
    && (forall k :: b0 <= k < b ==> be[k].base.end <= end)
    && Below(ae, be, start, a0, b0, a, b, end)
  }

  /** The group the algorithm must find: the least closed one. */
  ghost predicate LeastGroup(ae: seq<Edit>, be: seq<Edit>, start: nat, a0: nat, b0: nat, a: nat, b: nat, end: nat)
  {
    Closed(ae, be, start, a0, b0, a, b, end) && Below(ae, be, start, a0, b0, a, b, end)
  }

  lemma GrowA(ae: seq<Edit>, be: seq<Edit>, start: nat, a0: nat, b0: nat, a: nat, b: nat, end: nat, limit: nat)
    requires Growing(ae, be, start, a0, b0, a, b, end, limit)
    requires a < |ae| && Joins(ae[a], start, end) && ae[a].base.end <= limit
    ensures Growing(ae, be, start, a0, b0, a + 1, b, Max(end, ae[a].base.end), limit)
  {
    forall a2, b2, end2 | Closed(ae, be, start, a0, b0, a2, b2, end2)
      ensures a + 1 <= a2 && b <= b2 && Max(end, ae[a].base.end) <= end2
    {
      assert a != a2;
    }
  }

  lemma GrowB(ae: seq<Edit>, be: seq<Edit>, start: nat, a0: nat, b0: nat, a: nat, b: nat, end: nat, limit: nat)
    requires Growing(ae, be, start, a0, b0, a, b, end, limit)
    requires b < |be| && Joins(be[b], start, end) && be[b].base.end <= limit
    ensures Growing(ae, be, start, a0, b0, a, b + 1, Max(end, be[b].base.end), limit)
  {
    forall a2, b2, end2 | Closed(ae, be, start, a0, b0, a2, b2, end2)
      ensures a <= a2 && b + 1 <= b2 && Max(end, be[b].base.end) <= end2
    {
      assert b != b2;
    }
  }

  /** Takes one joining edit at a time. */
  function Grow(ae: seq<Edit>, be: seq<Edit>, start: nat, a: nat, b: nat, end: nat): (nat, nat, nat)
    requires a <= |ae| && b <= |be|
    decreases |ae| - a + |be| - b
  {
    if a < |ae| && Joins(ae[a], start, end) then Grow(ae, be, start, a + 1, b, Max(end, ae[a].base.end))
    else if b < |be| && Joins(be[b], start, end) then Grow(ae, be, start, a, b + 1, Max(end, be[b].base.end))
    else (a, b, end)
  }

  lemma {:induction false} GrowIsLeast(ae: seq<Edit>, be: seq<Edit>, start: nat, a0: nat, b0: nat, a: nat, b: nat,
                                       end: nat, limit: nat)
    requires Growing(ae, be, start, a0, b0, a, b, end, limit)
    requires forall k :: 0 <= k < |ae| ==> ae[k].base.end <= limit
    requires forall k :: 0 <= k < |be| ==> be[k].base.end <= limit
    ensures var (a1, b1, end1) := Grow(ae, be, start, a, b, end);
            LeastGroup(ae, be, start, a0, b0, a1, b1, end1) && end1 <= limit
    decreases |ae| - a + |be| - b
  {
    if a < |ae| && Joins(ae[a], start, end) {
      GrowA(ae, be, start, a0, b0, a, b, end, limit);
      GrowIsLeast(ae, be, start, a0, b0, a + 1, b, Max(end, ae[a].base.end), limit);
    } else if b < |be| && Joins(be[b], start, end) {
      GrowB(ae, be, start, a0, b0, a, b, end, limit);
      GrowIsLeast(ae, be, start, a0, b0, a, b + 1, Max(end, be[b].base.end), limit);
    }
  }

  datatype Group = Group(start: nat, end: nat, aEnd: nat, bEnd: nat)

  predicate Pending(ae: seq<Edit>, be: seq<Edit>, ai: nat, bi: nat)
  {
    ai <= |ae| && bi <= |be| && (ai < |ae| || bi < |be|)
  }

  function NextStart(ae: seq<Edit>, be: seq<Edit>, ai: nat, bi: nat): nat
    requires Pending(ae, be, ai, bi)
  {
    if ai == |ae| then be[bi].base.start
    else if bi == |be| then ae[ai].base.start
    else Min(ae[ai].base.start, be[bi].base.start)
  }

  function GroupAt(ae: seq<Edit>, be: seq<Edit>, ai: nat, bi: nat): Group
    requires Pending(ae, be, ai, bi)
  {
    var start := NextStart(ae, be, ai, bi);
    var (a, b, end) := Grow(ae, be, start, ai, bi, start);
    Group(start, end, a, b)
  }

  ghost predicate IsGroup(ae: seq<Edit>, be: seq<Edit>, ai: nat, bi: nat, g: Group)
    requires Pending(ae, be, ai, bi)
  {
    && g.start == NextStart(ae, be, ai, bi)
    && LeastGroup(ae, be, g.start, ai, bi, g.aEnd, g.bEnd, g.end)
  }

  /** Where `compose` stands between two groups. */
  predicate Ready(baseLines: nat, aLines: nat, bLines: nat, ae: seq<Edit>, be: seq<Edit>, ai: nat, bi: nat, cursor: nat)
  {
    && Ordered(ae, baseLines, aLines) && Ordered(be, baseLines, bLines)
    && ai <= |ae| && bi <= |be| && cursor <= baseLines
    && (forall k :: ai <= k < |ae| ==> cursor <= ae[k].base.start)
    && (forall k :: bi <= k < |be| ==> cursor <= be[k].base.start)
  }

  /** Every group takes an edit, stays in range, and leaves only later edits. */
  lemma GroupBounds(baseLines: nat, aLines: nat, bLines: nat, ae: seq<Edit>, be: seq<Edit>, ai: nat, bi: nat, cursor: nat)
    requires Ready(baseLines, aLines, bLines, ae, be, ai, bi, cursor)
    requires Pending(ae, be, ai, bi)
    ensures var g := GroupAt(ae, be, ai, bi);
            && cursor <= g.start <= g.end <= baseLines
            && ai <= g.aEnd <= |ae| && bi <= g.bEnd <= |be|
            && ai + bi < g.aEnd + g.bEnd
            && Within(ae[ai..g.aEnd], g.start, g.end, aLines)
            && Within(be[bi..g.bEnd], g.start, g.end, bLines)
            && Ready(baseLines, aLines, bLines, ae, be, g.aEnd, g.bEnd, g.end)
  {
    GroupIsLeast(ae, be, ai, bi, baseLines);
    var g := GroupAt(ae, be, ai, bi);
    var start := NextStart(ae, be, ai, bi);
    GrowIsLeast(ae, be, start, ai, bi, ai, bi, start, baseLines);
    OneSideBounds(ae, baseLines, aLines, ai, g.aEnd, g.start, g.end);
    OneSideBounds(be, baseLines, bLines, bi, g.bEnd, g.start, g.end);
  }

  lemma OneSideBounds(es: seq<Edit>, baseLines: nat, sideLines: nat, i: nat, j: nat, start: nat, end: nat)
    requires Ordered(es, baseLines, sideLines) && i <= j <= |es| && start <= end
    requires forall k :: i <= k < |es| ==> start <= es[k].base.start
    requires forall k :: i <= k < j ==> es[k].base.end <= end
    requires j < |es| ==> !Joins(es[j], start, end)
    ensures Within(es[i..j], start, end, sideLines)
    ensures forall k :: j <= k < |es| ==> end <= es[k].base.start
  {
  }

  /** The group found is the least closed one. */
  lemma GroupIsLeast(ae: seq<Edit>, be: seq<Edit>, ai: nat, bi: nat, limit: nat)
    requires Pending(ae, be, ai, bi) && NextStart(ae, be, ai, bi) <= limit
    requires forall k :: 0 <= k < |ae| ==> ae[k].base.end <= limit
    requires forall k :: 0 <= k < |be| ==> be[k].base.end <= limit
    ensures IsGroup(ae, be, ai, bi, GroupAt(ae, be, ai, bi))
  {
    var start := NextStart(ae, be, ai, bi);
    GrowIsLeast(ae, be, start, ai, bi, ai, bi, start, limit);
  }

  /** There is one group only at a given place, whatever order its edits are taken in. */
  lemma GroupUnique(ae: seq<Edit>, be: seq<Edit>, ai: nat, bi: nat, g: Group, h: Group)
    requires Pending(ae, be, ai, bi) && IsGroup(ae, be, ai, bi, g) && IsGroup(ae, be, ai, bi, h)
    ensures g == h
  {
  }

  // ---------------------------------------------------------------- resolving a group

  /** The text a group resolves to, in the order of the branches; `aIdle` and
      `bIdle` say that a side has no edit in it. */
  function Choice(aIdle: bool, bIdle: bool, baseText: seq<Byte>, aText: seq<Byte>, bText: seq<Byte>, aWins: bool)
    : seq<Byte>
  {
    if aIdle then bText
    else if bIdle || aText == bText then aText
    else if aText == baseText then bText
    else if bText == baseText || aWins then aText
    else bText
  }

  /** Whether a hunk is recorded. */
  predicate Overlaps(aIdle: bool, bIdle: bool, baseText: seq<Byte>, aText: seq<Byte>, bText: seq<Byte>)
  {
    !aIdle && !bIdle && aText != bText && aText != baseText && bText != baseText
  }

  function SettleTexts(aIdle: bool, bIdle: bool, baseText: seq<Byte>, aText: seq<Byte>, bText: seq<Byte>,
                       hunk: ConflictHunk, aWins: bool, output: seq<Byte>, hunks: seq<ConflictHunk>)
    : Outcome<(seq<Byte>, seq<ConflictHunk>)>
  {
    var text := Choice(aIdle, bIdle, baseText, aText, bText, aWins);
    var overlap := Overlaps(aIdle, bIdle, baseText, aText, bText);
    if !aIdle && !bIdle && Max(|baseText|, Max(|aText|, |bText|)) > MAX_OUTPUT_BYTES then Failure(OutputBytes)
    else if |output| + |text| > MAX_OUTPUT_BYTES then Failure(OutputBytes)
    else if overlap && |hunks| == MAX_HUNKS then Failure(TooManyHunks)
    else Success((output + text, if overlap then hunks + [hunk] else hunks))
  }

  function Settle(base: seq<Line>, a: seq<Line>, b: seq<Line>, ga: seq<Edit>, gb: seq<Edit>, lo: nat, hi: nat,
                  aWins: bool, output: seq<Byte>, hunks: seq<ConflictHunk>): Outcome<(seq<Byte>, seq<ConflictHunk>)>
    requires Within(ga, lo, hi, |a|) && Within(gb, lo, hi, |b|) && hi <= |base|
  {
    SettleTexts(ga == [], gb == [], Flatten(base[lo..hi]), Rendered(base, a, lo, hi, ga), Rendered(base, b, lo, hi, gb),
                ConflictHunk(Range(lo, hi), SideSpan(ga), SideSpan(gb)), aWins, output, hunks)
  }

  /** One outer pass: the gap before the next group, and the group. */
  function ComposeGroup(base: seq<Line>, a: seq<Line>, b: seq<Line>, ae: seq<Edit>, be: seq<Edit>, aWins: bool,
                        ai: nat, bi: nat, cursor: nat, output: seq<Byte>, hunks: seq<ConflictHunk>)
    : Outcome<(seq<Byte>, seq<ConflictHunk>)>
    requires Ready(|base|, |a|, |b|, ae, be, ai, bi, cursor) && Pending(ae, be, ai, bi)
  {
    GroupBounds(|base|, |a|, |b|, ae, be, ai, bi, cursor);
    var g := GroupAt(ae, be, ai, bi);
    var out :- AppendBytes(output, Flatten(base[cursor..g.start]));
    Settle(base, a, b, ae[ai..g.aEnd], be[bi..g.bEnd], g.start, g.end, aWins, out, hunks)
  }

  /** The rest of `compose` from a place between two groups. */
  function ComposeFrom(base: seq<Line>, a: seq<Line>, b: seq<Line>, ae: seq<Edit>, be: seq<Edit>, aWins: bool,
                       ai: nat, bi: nat, cursor: nat, output: seq<Byte>, hunks: seq<ConflictHunk>): Outcome<MergeResult>
    requires Ready(|base|, |a|, |b|, ae, be, ai, bi, cursor)
    decreases |ae| - ai + |be| - bi
  {
    if ai == |ae| && bi == |be| then
      var out :- AppendBytes(output, Flatten(base[cursor..]));
      Success(MergeResult(out, hunks))
    else
      var settled :- ComposeGroup(base, a, b, ae, be, aWins, ai, bi, cursor, output, hunks);
      GroupBounds(|base|, |a|, |b|, ae, be, ai, bi, cursor);
      var g := GroupAt(ae, be, ai, bi);
      ComposeFrom(base, a, b, ae, be, aWins, g.aEnd, g.bEnd, g.end, settled.0, settled.1)
  }

  method SettleGroup(base: seq<Line>, a: seq<Line>, b: seq<Line>, ga: seq<Edit>, gb: seq<Edit>, lo: nat, hi: nat,
                     aWins: bool, output: seq<Byte>, hunks: seq<ConflictHunk>)
    returns (r: Outcome<(seq<Byte>, seq<ConflictHunk>)>)
    requires Within(ga, lo, hi, |a|) && Within(gb, lo, hi, |b|) && hi <= |base|
    ensures r == Settle(base, a, b, ga, gb, lo, hi, aWins, output, hunks)
    ensures r.Success? ==> |r.value.0| <= MAX_OUTPUT_BYTES
  {
    var out, hs := output, hunks;
    if ga == [] {
      var text :- Render(base, b, lo, hi, gb);
      out :- AppendBytes(out, text);
    } else if gb == [] {
      var text :- Render(base, a, lo, hi, ga);
      out :- AppendBytes(out, text);
    } else {
      var baseText :- FlattenLimited(base[lo..hi]);
      var aText :- Render(base, a, lo, hi, ga);
      var bText :- Render(base, b, lo, hi, gb);
      var hunk := ConflictHunk(Range(lo, hi), SideSpan(ga), SideSpan(gb));
      if aText == bText {
        out :- AppendBytes(out, aText);
      } else if aText == baseText {
        out :- AppendBytes(out, bText);
      } else if bText == baseText || aWins {
        out :- AppendBytes(out, aText);
        if bText != baseText {
          hs :- PushHunk(hs, hunk);
        }
      } else {
        out :- AppendBytes(out, bText);
        hs :- PushHunk(hs, hunk);
      }
    }
    r := Success((out, hs));
  }

  /** Collects one group: edits of `a` while they join, then edits of `b`, and
      again until neither side extended the group. */
  method CollectGroup(ae: seq<Edit>, be: seq<Edit>, ai0: nat, bi0: nat, start: nat, ghost limit: nat)
    returns (ai: nat, bi: nat, end: nat)
    requires ai0 <= |ae| && bi0 <= |be| && start <= limit
    requires forall k :: 0 <= k < |ae| ==> ae[k].base.end <= limit
    requires forall k :: 0 <= k < |be| ==> be[k].base.end <= limit
    ensures LeastGroup(ae, be, start, ai0, bi0, ai, bi, end)
  {
    ai, bi, end := ai0, bi0, start;
    while true
      invariant Growing(ae, be, start, ai0, bi0, ai, bi, end, limit)
      decreases |ae| - ai + |be| - bi
    {
      var extended := false;
      ghost var before := ai + bi;
      while ai < |ae| && Joins(ae[ai], start, end)
        invariant Growing(ae, be, start, ai0, bi0, ai, bi, end, limit)
        invariant ai + bi >= before && (extended <==> ai + bi > before)
        decreases |ae| - ai
      {
        GrowA(ae, be, start, ai0, bi0, ai, bi, end, limit);
        end := Max(end, ae[ai].base.end);
        ai := ai + 1;
        extended := true;
      }
      ghost var fixedA, fixedEnd := !extended, end;
      while bi < |be| && Joins(be[bi], start, end)
        invariant Growing(ae, be, start, ai0, bi0, ai, bi, end, limit)
        invariant ai + bi >= before && (extended <==> ai + bi > before)
        invariant !extended ==> end == fixedEnd
        decreases |be| - bi
      {
        GrowB(ae, be, start, ai0, bi0, ai, bi, end, limit);
        end := Max(end, be[bi].base.end);
        bi := bi + 1;
        extended := true;
      }
      if !extended {
        break;
      }
    }
  }

  method NextGroup(ae: seq<Edit>, be: seq<Edit>, ai: nat, bi: nat, ghost limit: nat) returns (g: Group)
    requires Pending(ae, be, ai, bi)
    requires forall k :: 0 <= k < |ae| ==> ae[k].base.start <= ae[k].base.end <= limit
    requires forall k :: 0 <= k < |be| ==> be[k].base.start <= be[k].base.end <= limit
    ensures g == GroupAt(ae, be, ai, bi)
  {
    var start := NextStart(ae, be, ai, bi);
    var a, b, end := CollectGroup(ae, be, ai, bi, start, limit);
    g := Group(start, end, a, b);
    GroupIsLeast(ae, be, ai, bi, limit);
    GroupUnique(ae, be, ai, bi, g, GroupAt(ae, be, ai, bi));
  }

  /** The body of the outer loop. */
  method TakeGroup(base: seq<Line>, a: seq<Line>, b: seq<Line>, ae: seq<Edit>, be: seq<Edit>, aWins: bool,
                   ai: nat, bi: nat, cursor: nat, output: seq<Byte>, hunks: seq<ConflictHunk>)
    returns (g: Group, r: Outcome<(seq<Byte>, seq<ConflictHunk>)>)
    requires Ready(|base|, |a|, |b|, ae, be, ai, bi, cursor) && Pending(ae, be, ai, bi)
    requires |output| <= MAX_OUTPUT_BYTES
    ensures g == GroupAt(ae, be, ai, bi)
    ensures r == ComposeGroup(base, a, b, ae, be, aWins, ai, bi, cursor, output, hunks)
    ensures r.Success? ==> |r.value.0| <= MAX_OUTPUT_BYTES
  {
    g := NextGroup(ae, be, ai, bi, |base|);
    GroupBounds(|base|, |a|, |b|, ae, be, ai, bi, cursor);
    var gap := Append(output, base[cursor..g.start]);
    if gap.Failure? {
      r := Failure(gap.reason);
    } else {
      r := SettleGroup(base, a, b, ae[ai..g.aEnd], be[bi..g.bEnd], g.start, g.end, aWins, gap.value, hunks);
    }
  }

  method ComposeSides(base: seq<Line>, a: seq<Line>, b: seq<Line>, ae: seq<Edit>, be: seq<Edit>, aWins: bool)
    returns (r: Outcome<MergeResult>)
    requires Ready(|base|, |a|, |b|, ae, be, 0, 0, 0)
    ensures r == ComposeFrom(base, a, b, ae, be, aWins, 0, 0, 0, [], [])
  {
    var output, hunks := [], [];
    var ai: nat, bi: nat, cursor: nat := 0, 0, 0;
    while ai < |ae| || bi < |be|
      invariant Ready(|base|, |a|, |b|, ae, be, ai, bi, cursor)
      invariant |output| <= MAX_OUTPUT_BYTES
      invariant ComposeFrom(base, a, b, ae, be, aWins, 0, 0, 0, [], [])
             == ComposeFrom(base, a, b, ae, be, aWins, ai, bi, cursor, output, hunks)
      decreases |ae| - ai + |be| - bi
    {
      GroupBounds(|base|, |a|, |b|, ae, be, ai, bi, cursor);
      var g, settled := TakeGroup(base, a, b, ae, be, aWins, ai, bi, cursor, output, hunks);
      ai, bi, cursor := g.aEnd, g.bEnd, g.end;
      if settled.Failure? {
        return Failure(settled.reason);
      }
      output, hunks := settled.value.0, settled.value.1;
    }
    output :- Append(output, base[cursor..]);
    r := Success(MergeResult(output, hunks));
  }
}
