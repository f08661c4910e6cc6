/** `merge` from bytes to bytes, and its laws (src/merge.rs:48-93, 154-205). */
module ThreeWay {
  import opened Bytes
  import opened Merge
  import opened Compose
  import opened MergeLaws

  /** The UTF-8 check of the standard library. */
  type Utf8 = seq<Byte> -> bool

  function CheckInput(input: seq<Byte>, utf8: Utf8): Outcome<()>
  {
    if |input| > MAX_INPUT_BYTES then Failure(InputBytes)
    else if 0 in input then Failure(ContainsNul)
    else if !utf8(input) then Failure(InvalidUtf8)
    else Success(())
  }

  function Square(x: nat): nat
  {
    x * x
  }

  /** Squared line counts with checked machine arithmetic. */
  function WorkForLines(base: nat, a: nat, b: nat): Outcome<nat>
  {
    if base + a > USIZE_MAX || Square(base + a) > USIZE_MAX then Failure(ComparisonWork)
    else if base + b > USIZE_MAX || Square(base + b) > USIZE_MAX then Failure(ComparisonWork)
    else if Square(base + a) + Square(base + b) > USIZE_MAX then Failure(ComparisonWork)
    else Success(Square(base + a) + Square(base + b))
  }

  function WorkOf(base: seq<Byte>, a: seq<Byte>, b: seq<Byte>, utf8: Utf8): Outcome<nat>
  {
    var _ :- CheckInput(base, utf8);
    var _ :- CheckInput(a, utf8);
    var _ :- CheckInput(b, utf8);
    var n, m, k := |LinesOf(base)|, |LinesOf(a)|, |LinesOf(b)|;
    if n > MAX_INPUT_LINES || m > MAX_INPUT_LINES || k > MAX_INPUT_LINES then Failure(InputLines)
    else WorkForLines(n, m, k)
  }

  lemma SquareBound(x: nat, limit: nat)
    requires x <= limit
    ensures Square(x) <= Square(limit)
  {
  }

  /** Within the line limits the checked arithmetic cannot overflow. */
  lemma WorkFits(n: nat, m: nat, k: nat)
    requires n <= MAX_INPUT_LINES && m <= MAX_INPUT_LINES && k <= MAX_INPUT_LINES
    ensures WorkForLines(n, m, k) == Success(Square(n + m) + Square(n + k))
  {
    SquareBound(n + m, 2 * MAX_INPUT_LINES);
    SquareBound(n + k, 2 * MAX_INPUT_LINES);
  }

  /** The inputs pass every check before the diff. */
  function Admission(base: seq<Byte>, a: seq<Byte>, b: seq<Byte>, utf8: Utf8): Outcome<()>
  {
    var work :- WorkOf(base, a, b, utf8);
    if work > MAX_WORK then Failure(ComparisonWork) else Success(())
  }

  lemma EditsReady(base: seq<Line>, a: seq<Line>, b: seq<Line>, diff: Differ)
    requires GoodDiff(diff)
    ensures Rewrites(base, a, EditsOf(base, a, diff), 0, 0)
    ensures Rewrites(base, b, EditsOf(base, b, diff), 0, 0)
    ensures Ready(|base|, |a|, |b|, EditsOf(base, a, diff), EditsOf(base, b, diff), 0, 0, 0)
  {
    EditsRewrite(base, a, diff(base, a), 0, 0);
    EditsRewrite(base, b, diff(base, b), 0, 0);
    RewritesOrdered(base, a, EditsOf(base, a, diff), 0, 0);
    RewritesOrdered(base, b, EditsOf(base, b, diff), 0, 0);
  }

  /** The cells of three files. */
  function CellsOf(base: seq<Byte>, a: seq<Byte>, b: seq<Byte>, diff: Differ): seq<Cell>
    requires GoodDiff(diff)
  {
    var base', a', b' := LinesOf(base), LinesOf(a), LinesOf(b);
    EditsReady(base', a', b', diff);
    CellsFrom(base', a', b', EditsOf(base', a', diff), EditsOf(base', b', diff), 0, 0, 0)
  }

  function MergeOf(base: seq<Byte>, a: seq<Byte>, b: seq<Byte>, aWins: bool, diff: Differ, utf8: Utf8): Outcome<MergeResult>
    requires GoodDiff(diff)
  {
    var _ :- Admission(base, a, b, utf8);
    ComposeCells(CellsOf(base, a, b, diff), aWins, [], [])
  }

  method MergeFiles(base: seq<Byte>, a: seq<Byte>, b: seq<Byte>, aWins: bool, diff: Differ, utf8: Utf8)
    returns (r: Outcome<MergeResult>)
    requires GoodDiff(diff)
    ensures r == MergeOf(base, a, b, aWins, diff, utf8)
  {
    var work :- WorkOf(base, a, b, utf8);
    var baseLines := Lines(base);
    var aLines := Lines(a);
    var bLines := Lines(b);
    if work > MAX_WORK {
      return Failure(ComparisonWork);
    }
    EditsReady(baseLines, aLines, bLines, diff);
    var aEdits, bEdits := EditsOf(baseLines, aLines, diff), EditsOf(baseLines, bLines, diff);
    ComposeIsFold(baseLines, aLines, bLines, aEdits, bEdits, aWins, 0, 0, 0, [], []);
    r := ComposeSides(baseLines, aLines, bLines, aEdits, bEdits, aWins);
  }

  lemma CellsPartitionFiles(base: seq<Byte>, a: seq<Byte>, b: seq<Byte>, diff: Differ)
    requires GoodDiff(diff)
    ensures var cells := CellsOf(base, a, b, diff);
            && Whole(cells, Base) == base && Whole(cells, A) == a && Whole(cells, B) == b
            && Chained(cells, 0, |LinesOf(base)|) && AllGenuine(cells)
            && AllEdits(cells, A) == EditsOf(LinesOf(base), LinesOf(a), diff)
            && AllEdits(cells, B) == EditsOf(LinesOf(base), LinesOf(b), diff)
            && Increasing(Hunks(cells), 0)
  {
    var base', a', b' := LinesOf(base), LinesOf(a), LinesOf(b);
    var ae, be := EditsOf(base', a', diff), EditsOf(base', b', diff);
    EditsReady(base', a', b', diff);
    assert ae[0..] == ae && be[0..] == be;
    assert base'[0..] == base' && a'[0..] == a' && b'[0..] == b';
    BaseColumn(base', a', b', ae, be, 0, 0, 0);
    SideColumn(base', a', b', ae, be, 0, 0, 0, 0);
    SideColumn(base', b', a', be, ae, 0, 0, 0, 0);
    CellsSwap(base', a', b', ae, be, 0, 0, 0);
    SwapWhole(CellsOf(base, a, b, diff));
    CellsPartition(base', a', b', ae, be, 0, 0, 0);
    CellsGenuine(base', a', b', ae, be, 0, 0, 0);
    HunksIncrease(CellsOf(base, a, b, diff), 0, |base'|);
  }

  /** What `merge` returns on every input: the refusal of the admission checks, a
      refusal when more than MAX_HUNKS cells are contested, and otherwise the
      three-way choice in every cell with one hunk per contested cell. The output
      limit is never the reason. */
  lemma MergeCorrect(base: seq<Byte>, a: seq<Byte>, b: seq<Byte>, aWins: bool, diff: Differ, utf8: Utf8)
    requires GoodDiff(diff)
    ensures var cells := CellsOf(base, a, b, diff);
            var admission := Admission(base, a, b, utf8);
            MergeOf(base, a, b, aWins, diff, utf8)
            == if admission.Failure? then Failure(admission.reason)
               else if |Hunks(cells)| > MAX_HUNKS then Failure(TooManyHunks)
               else Success(MergeResult(Whole(cells, Out(aWins)), Hunks(cells)))
  {
    if Admission(base, a, b, utf8).Success? {
      AdmittedSizes(base, a, b, utf8);
      FoldOfFiles(base, a, b, aWins, diff);
    }
  }

  predicate Textual(input: seq<Byte>, utf8: Utf8)
  {
    |input| <= MAX_INPUT_BYTES && 0 !in input && utf8(input)
  }

  predicate FewLines(input: seq<Byte>)
  {
    |LinesOf(input)| <= MAX_INPUT_LINES
  }

  predicate Clean(input: seq<Byte>, utf8: Utf8)
  {
    Textual(input, utf8) && FewLines(input)
  }

  lemma NotTextual(base: seq<Byte>, a: seq<Byte>, b: seq<Byte>, utf8: Utf8)
    requires !Textual(base, utf8) || !Textual(a, utf8) || !Textual(b, utf8)
    ensures WorkOf(base, a, b, utf8).Failure?
  {
  }

  lemma TextualWork(base: seq<Byte>, a: seq<Byte>, b: seq<Byte>, utf8: Utf8)
    requires Textual(base, utf8) && Textual(a, utf8) && Textual(b, utf8)
    ensures WorkOf(base, a, b, utf8)
            == if !FewLines(base) || !FewLines(a) || !FewLines(b) then Failure(InputLines)
               else WorkForLines(|LinesOf(base)|, |LinesOf(a)|, |LinesOf(b)|)
  {
  }

  lemma AdmittedWork(work: Outcome<nat>, base: seq<Byte>, a: seq<Byte>, b: seq<Byte>)
    requires work == if !FewLines(base) || !FewLines(a) || !FewLines(b) then Failure(InputLines)
                     else WorkForLines(|LinesOf(base)|, |LinesOf(a)|, |LinesOf(b)|)
    ensures (work.Success? && work.value <= MAX_WORK)
            <==> FewLines(base) && FewLines(a) && FewLines(b) && WithinWork(|LinesOf(base)|, |LinesOf(a)|, |LinesOf(b)|)
  {
    if FewLines(base) && FewLines(a) && FewLines(b) {
      WorkFits(|LinesOf(base)|, |LinesOf(a)|, |LinesOf(b)|);
      SquaresAre(|LinesOf(base)|, |LinesOf(a)|, |LinesOf(b)|);
    }
  }

  lemma SquaresAre(n: nat, m: nat, k: nat)
    ensures WithinWork(n, m, k) <==> Square(n + m) + Square(n + k) <= MAX_WORK
  {
  }

  /** Exactly when three files are admitted: each is small, textual and has few lines,
      and the squares of the line counts to compare stay within the work limit. */
  lemma AdmittedIff(base: seq<Byte>, a: seq<Byte>, b: seq<Byte>, utf8: Utf8)
    ensures Admission(base, a, b, utf8).Success?
            <==> && Clean(base, utf8) && Clean(a, utf8) && Clean(b, utf8)
                 && WithinWork(|LinesOf(base)|, |LinesOf(a)|, |LinesOf(b)|)
  {
    if Textual(base, utf8) && Textual(a, utf8) && Textual(b, utf8) {
      TextualWork(base, a, b, utf8);
      AdmittedWork(WorkOf(base, a, b, utf8), base, a, b);
    } else {
      NotTextual(base, a, b, utf8);
    }
  }

  predicate WithinWork(n: nat, m: nat, k: nat)
  {
    (n + m) * (n + m) + (n + k) * (n + k) <= MAX_WORK
  }

  /** The reason of a refusal is true of one of the three files, and the work is blamed
      only when each of them is fine. */
  lemma RefusalIsTrue(base: seq<Byte>, a: seq<Byte>, b: seq<Byte>, utf8: Utf8)
    requires Admission(base, a, b, utf8).Failure?
    ensures match Admission(base, a, b, utf8).reason
            case InputBytes => |base| > MAX_INPUT_BYTES || |a| > MAX_INPUT_BYTES || |b| > MAX_INPUT_BYTES
            case ContainsNul => 0 in base || 0 in a || 0 in b
            case InvalidUtf8 => !utf8(base) || !utf8(a) || !utf8(b)
            case InputLines => !FewLines(base) || !FewLines(a) || !FewLines(b)
            case ComparisonWork => Clean(base, utf8) && Clean(a, utf8) && Clean(b, utf8)
            case _ => false
  {
    if Textual(base, utf8) && Textual(a, utf8) && Textual(b, utf8) {
      TextualWork(base, a, b, utf8);
    }
  }

  // ---------------------------------------------------------------- what each cell becomes

  /** The text a cell must come to: the side that changed it, what both agree on, or the
      winner's. */
  predicate ComesTo(c: Cell, text: seq<Byte>, aWins: bool)
  {
    && (c.a == c.b ==> text == c.a) && (c.a == c.base ==> text == c.b) && (c.b == c.base ==> text == c.a)
    && (c.a != c.b && c.a != c.base && c.b != c.base ==> text == if aWins then c.a else c.b)
  }

  function Joined(texts: seq<seq<Byte>>): seq<Byte>
  {
    if texts == [] then [] else texts[0] + Joined(texts[1..])
  }

  lemma {:induction false} OutIsJoined(cells: seq<Cell>, aWins: bool) returns (texts: seq<seq<Byte>>)
    ensures |texts| == |cells| && Joined(texts) == Whole(cells, Out(aWins))
    ensures forall k :: 0 <= k < |cells| ==> ComesTo(cells[k], texts[k], aWins)
  {
    if cells == [] {
      texts := [];
    } else {
      var rest := OutIsJoined(cells[1..], aWins);
      texts := [Text(cells[0], Out(aWins))] + rest;
      assert texts[1..] == rest;
    }
  }

  /** One hunk for each cell both sides changed differently, in order, with its base lines
      and the lines of either side. */
  predicate HunksMatch(cells: seq<Cell>, hunks: seq<ConflictHunk>)
  {
    if cells == [] then hunks == []
    else
      var c := cells[0];
      if c.a != c.b && c.a != c.base && c.b != c.base then
        && hunks != [] && hunks[0].base == c.range
        && (c.aEdits != [] ==> hunks[0].a == Range(c.aEdits[0].side.start, c.aEdits[|c.aEdits| - 1].side.end))
        && (c.bEdits != [] ==> hunks[0].b == Range(c.bEdits[0].side.start, c.bEdits[|c.bEdits| - 1].side.end))
        && HunksMatch(cells[1..], hunks[1..])
      else HunksMatch(cells[1..], hunks)
  }

  lemma {:induction false} HunksOfMatch(cells: seq<Cell>)
    ensures HunksMatch(cells, Hunks(cells))
  {
    if cells != [] {
      HunksOfMatch(cells[1..]);
      if cells[0].Contested() {
        assert Hunks(cells)[1..] == Hunks(cells[1..]);
      }
    }
  }

  /** Cell by cell: a successful merge is the texts its cells must come to, and its hunks
      are those of the cells both sides changed differently. */
  lemma MergeComesTo(base: seq<Byte>, a: seq<Byte>, b: seq<Byte>, aWins: bool, diff: Differ, utf8: Utf8)
    returns (texts: seq<seq<Byte>>)
    requires GoodDiff(diff) && MergeOf(base, a, b, aWins, diff, utf8).Success?
    ensures var cells := CellsOf(base, a, b, diff);
            var r := MergeOf(base, a, b, aWins, diff, utf8).value;
            && |texts| == |cells| && r.bytes == Joined(texts) && HunksMatch(cells, r.hunks)
            && forall k :: 0 <= k < |cells| ==> ComesTo(cells[k], texts[k], aWins)
  {
    MergeCorrect(base, a, b, aWins, diff, utf8);
    texts := OutIsJoined(CellsOf(base, a, b, diff), aWins);
    HunksOfMatch(CellsOf(base, a, b, diff));
  }

  lemma AdmittedSizes(base: seq<Byte>, a: seq<Byte>, b: seq<Byte>, utf8: Utf8)
    requires Admission(base, a, b, utf8).Success?
    ensures |base| <= MAX_INPUT_BYTES && |a| <= MAX_INPUT_BYTES && |b| <= MAX_INPUT_BYTES
  {
  }

  lemma FoldOfFiles(base: seq<Byte>, a: seq<Byte>, b: seq<Byte>, aWins: bool, diff: Differ)
    requires GoodDiff(diff)
    requires |base| <= MAX_INPUT_BYTES && |a| <= MAX_INPUT_BYTES && |b| <= MAX_INPUT_BYTES
    ensures var cells := CellsOf(base, a, b, diff);
            ComposeCells(cells, aWins, [], [])
            == if |Hunks(cells)| > MAX_HUNKS then Failure(TooManyHunks)
               else Success(MergeResult(Whole(cells, Out(aWins)), Hunks(cells)))
  {
    CellsPartitionFiles(base, a, b, diff);
    FoldCorrect(CellsOf(base, a, b, diff), aWins);
  }

  lemma {:induction false} OutputBound(cells: seq<Cell>, aWins: bool)
    ensures |Whole(cells, Out(aWins))| <= |Whole(cells, A)| + |Whole(cells, B)|
  {
    if cells != [] {
      OutputBound(cells[1..], aWins);
    }
  }

  /** A successful merge respects both published limits. */
  lemma MergeLimits(base: seq<Byte>, a: seq<Byte>, b: seq<Byte>, aWins: bool, diff: Differ, utf8: Utf8)
    requires GoodDiff(diff)
    ensures var r := MergeOf(base, a, b, aWins, diff, utf8);
            r.Success? ==> |r.value.bytes| <= MAX_OUTPUT_BYTES && |r.value.hunks| <= MAX_HUNKS
  {
    if Admission(base, a, b, utf8).Success? {
      AdmittedSizes(base, a, b, utf8);
      FoldOfFiles(base, a, b, aWins, diff);
      CellsPartitionFiles(base, a, b, diff);
      OutputBound(CellsOf(base, a, b, diff), aWins);
    }
  }

  /** The round budget is never a reason of the merge itself. */
  lemma MergeReasons(base: seq<Byte>, a: seq<Byte>, b: seq<Byte>, aWins: bool, diff: Differ, utf8: Utf8)
    requires GoodDiff(diff)
    ensures var r := MergeOf(base, a, b, aWins, diff, utf8);
            r.Failure? ==> r.reason in {InvalidUtf8, ContainsNul, InputBytes, InputLines, ComparisonWork, TooManyHunks}
    ensures var work := WorkOf(base, a, b, utf8);
            work.Failure? ==> work.reason in {InvalidUtf8, ContainsNul, InputBytes, InputLines, ComparisonWork}
  {
    MergeCorrect(base, a, b, aWins, diff, utf8);
  }

  lemma UnchangedHasNoEdits(base: seq<Byte>, diff: Differ)
    requires GoodDiff(diff)
    ensures EditsOf(LinesOf(base), LinesOf(base), diff) == []
  {
    var lines := LinesOf(base);
    NoChangeNoEdits(lines, lines, diff(lines, lines), 0, 0);
  }

  lemma AgreeOut(cells: seq<Cell>, aWins: bool)
    ensures Agree(cells, B, Base) ==> Agree(cells, Out(aWins), A)
    ensures Agree(cells, A, Base) ==> Agree(cells, Out(aWins), B)
    ensures Agree(cells, A, B) ==> Agree(cells, Out(aWins), A)
  {
    forall k | 0 <= k < |cells|
      ensures Text(cells[k], B) == Text(cells[k], Base) ==> Text(cells[k], Out(aWins)) == Text(cells[k], A)
      ensures Text(cells[k], A) == Text(cells[k], Base) ==> Text(cells[k], Out(aWins)) == Text(cells[k], B)
      ensures Text(cells[k], A) == Text(cells[k], B) ==> Text(cells[k], Out(aWins)) == Text(cells[k], A)
    {
      var c := cells[k];
      assert Text(c, A) == c.a && Text(c, B) == c.b && Text(c, Base) == c.base;
    }
  }

  function Plain(admission: Outcome<()>, bytes: seq<Byte>): Outcome<MergeResult>
  {
    if admission.Failure? then Failure(admission.reason) else Success(MergeResult(bytes, []))
  }

  /** A side that did not change never matters: merge(base, a, base) is a. */
  lemma MergeUnchangedB(base: seq<Byte>, a: seq<Byte>, aWins: bool, diff: Differ, utf8: Utf8)
    requires GoodDiff(diff)
    ensures MergeOf(base, a, base, aWins, diff, utf8) == Plain(Admission(base, a, base, utf8), a)
  {
    var base', a' := LinesOf(base), LinesOf(a);
    var cells := CellsOf(base, a, base, diff);
    UnchangedHasNoEdits(base, diff);
    EditsReady(base', a', base', diff);
    UneditedSide(base', a', base', EditsOf(base', a', diff), [], 0, 0, 0);
    AgreeOut(cells, aWins);
    AgreeWhole(cells, Out(aWins), A);
    AgreeNoHunks(cells);
    CellsPartitionFiles(base, a, base, diff);
    MergeCorrect(base, a, base, aWins, diff, utf8);
  }

  /** ... and merge(base, base, b) is b. */
  lemma MergeUnchangedA(base: seq<Byte>, b: seq<Byte>, aWins: bool, diff: Differ, utf8: Utf8)
    requires GoodDiff(diff)
    ensures MergeOf(base, base, b, aWins, diff, utf8) == Plain(Admission(base, base, b, utf8), b)
  {
    var base', b' := LinesOf(base), LinesOf(b);
    var cells := CellsOf(base, base, b, diff);
    UnchangedHasNoEdits(base, diff);
    EditsReady(base', base', b', diff);
    UneditedSide(base', b', base', EditsOf(base', b', diff), [], 0, 0, 0);
    CellsSwap(base', base', b', [], EditsOf(base', b', diff), 0, 0, 0);
    SwapAgree(cells);
    AgreeOut(cells, aWins);
    AgreeWhole(cells, Out(aWins), B);
    AgreeNoHunks(cells);
    CellsPartitionFiles(base, base, b, diff);
    MergeCorrect(base, base, b, aWins, diff, utf8);
  }

  /** Sides that agree merge to what they agree on. */
  lemma MergeAgreement(base: seq<Byte>, a: seq<Byte>, aWins: bool, diff: Differ, utf8: Utf8)
    requires GoodDiff(diff)
    ensures MergeOf(base, a, a, aWins, diff, utf8) == Plain(Admission(base, a, a, utf8), a)
  {
    var base', a' := LinesOf(base), LinesOf(a);
    var cells := CellsOf(base, a, a, diff);
    EditsReady(base', a', a', diff);
    EqualSides(base', a', EditsOf(base', a', diff), 0, 0);
    AgreeOut(cells, aWins);
    AgreeWhole(cells, Out(aWins), A);
    AgreeNoHunks(cells);
    CellsPartitionFiles(base, a, a, diff);
    MergeCorrect(base, a, a, aWins, diff, utf8);
  }

  /** Two inputs are refused for different reasons of their own. */
  predicate RefusedDifferently(base: seq<Byte>, a: seq<Byte>, b: seq<Byte>, utf8: Utf8)
  {
    && CheckInput(base, utf8).Success?
    && CheckInput(a, utf8).Failure? && CheckInput(b, utf8).Failure?
    && CheckInput(a, utf8).reason != CheckInput(b, utf8).reason
  }

  lemma AdmissionSwap(base: seq<Byte>, a: seq<Byte>, b: seq<Byte>, utf8: Utf8)
    ensures Admission(base, b, a, utf8) == Admission(base, a, b, utf8) <==> !RefusedDifferently(base, a, b, utf8)
  {
    var n, m, k := |LinesOf(base)|, |LinesOf(a)|, |LinesOf(b)|;
    if n <= MAX_INPUT_LINES && m <= MAX_INPUT_LINES && k <= MAX_INPUT_LINES {
      WorkFits(n, m, k);
      WorkFits(n, k, m);
    }
  }

  /** Swapping the sides and the winner gives the same bytes or refusal, with the
      hunks' sides swapped; only the order in which two bad inputs are refused shows
      which side came first. */
  lemma MergeSwap(base: seq<Byte>, a: seq<Byte>, b: seq<Byte>, aWins: bool, diff: Differ, utf8: Utf8)
    requires GoodDiff(diff)
    ensures MergeOf(base, b, a, !aWins, diff, utf8) == SwapSides(MergeOf(base, a, b, aWins, diff, utf8))
            <==> !RefusedDifferently(base, a, b, utf8)
  {
    AdmissionSwap(base, a, b, utf8);
    if Admission(base, a, b, utf8).Success? && Admission(base, b, a, utf8).Success? {
      var base', a', b' := LinesOf(base), LinesOf(a), LinesOf(b);
      var ae, be := EditsOf(base', a', diff), EditsOf(base', b', diff);
      EditsReady(base', a', b', diff);
      EditsReady(base', b', a', diff);
      var cells := CellsFrom(base', a', b', ae, be, 0, 0, 0);
      CellsSwap(base', a', b', ae, be, 0, 0, 0);
      CellsGenuine(base', a', b', ae, be, 0, 0, 0);
      FoldSwap(cells, aWins, [], []);
      assert SwapHunks([]) == [];
    }
  }
}
