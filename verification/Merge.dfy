/** Line-based three-way merge: two edit scripts over one base are grouped, each
    group is resolved to one text, and groups changed differently by both sides
    are recorded as hunks (src/merge.rs). */
module Merge {
  import opened Utils
  import opened Bytes

  type Line = seq<Byte>

  const NEWLINE: Byte := 10
  const MAX_INPUT_BYTES := 256 * 1024
  const MAX_INPUT_LINES := 4_096
  const MAX_WORK := 8_000_000
  const MAX_HUNKS := 1_024
  const MAX_OUTPUT_BYTES := 512 * 1024
  const USIZE_MAX := U64_MAX

  datatype FallbackReason =
    | AbsentBase
    | UnequalBase
    | IncompatibleKind
    | Legacy
    | InvalidUtf8
    | ContainsNul
    | InputBytes
    | InputLines
    | ComparisonWork
    | TooManyHunks
    | OutputBytes
    | RoundMergeBudget

  datatype Outcome<+T> = Success(value: T) | Failure(reason: FallbackReason) {
    predicate IsFailure() { Failure? }
    function PropagateFailure<U>(): Outcome<U> requires Failure? { Failure(reason) }
    function Extract(): T requires Success? { value }
  }

  datatype Range = Range(start: nat, end: nat)
  datatype Edit = Edit(base: Range, side: Range)
  datatype ConflictHunk = ConflictHunk(base: Range, a: Range, b: Range)
  datatype MergeResult = MergeResult(bytes: seq<Byte>, hunks: seq<ConflictHunk>)

  // ---------------------------------------------------------------- lines

  function Flatten(lines: seq<Line>): seq<Byte>
  {
    if lines == [] then [] else lines[0] + Flatten(lines[1..])
  }

  lemma {:induction false} FlattenConcat(x: seq<Line>, y: seq<Line>)
    ensures Flatten(x + y) == Flatten(x) + Flatten(y)
  {
    if x == [] {
      assert x + y == y;
    } else {
      FlattenConcat(x[1..], y);
      assert (x + y)[1..] == x[1..] + y;
      assert Flatten(x + y) == x[0] + (Flatten(x[1..]) + Flatten(y));
    }
  }

  lemma FlattenAppend(x: seq<Line>, line: Line)
    ensures Flatten(x + [line]) == Flatten(x) + line
  {
    FlattenConcat(x, [line]);
    assert line + [] == line;
  }

  lemma FlattenSplit(s: seq<Line>, i: nat, j: nat, k: nat)
    requires i <= j <= k <= |s|
    ensures Flatten(s[i..k]) == Flatten(s[i..j]) + Flatten(s[j..k])
  {
    assert s[i..k] == s[i..j] + s[j..k];
    FlattenConcat(s[i..j], s[j..k]);
  }

  /** What a list of lines looks like: no line is empty, a newline ends a line,
      and every line but the last is ended by one. */
  predicate IsLineList(lines: seq<Line>)
  {
    forall k :: 0 <= k < |lines| ==>
      && lines[k] != []
      && NEWLINE !in lines[k][..|lines[k]| - 1]
      && (k < |lines| - 1 ==> lines[k][|lines[k]| - 1] == NEWLINE)
  }

  /** The length of the first line, its newline included. */
  function FirstLine(bytes: seq<Byte>): (n: nat)
    requires bytes != []
    ensures 0 < n <= |bytes|
    ensures NEWLINE !in bytes[..n - 1]
    ensures n < |bytes| ==> bytes[n - 1] == NEWLINE
  {
    if bytes[0] == NEWLINE || |bytes| == 1 then 1
    else
      var n := 1 + FirstLine(bytes[1..]);
      assert bytes[..n - 1] == [bytes[0]] + bytes[1..][..n - 2];
      n
  }

  function LinesOf(bytes: seq<Byte>): (lines: seq<Line>)
    ensures Flatten(lines) == bytes
    ensures IsLineList(lines)
  {
    if bytes == [] then []
    else
      var n := FirstLine(bytes);
      assert bytes == bytes[..n] + bytes[n..];
      assert n == |bytes| ==> bytes[n..] == [];
      [bytes[..n]] + LinesOf(bytes[n..])
  }

  /** A byte string has one list of lines only. */
  lemma {:induction false} LinesUnique(x: seq<Line>, y: seq<Line>)
    requires IsLineList(x) && IsLineList(y) && Flatten(x) == Flatten(y)
    ensures x == y
  {
    if x == [] || y == [] {
    } else {
      FirstLinesAgree(x, y);
      FirstLinesAgree(y, x);
      var f := Flatten(x);
      assert x[0] == f[..|x[0]|] == y[0];
      assert Flatten(x[1..]) == f[|x[0]|..] == Flatten(y[1..]);
      LinesUnique(x[1..], y[1..]);
      assert x == [x[0]] + x[1..] && y == [y[0]] + y[1..];
    }
  }

  lemma FirstLinesAgree(x: seq<Line>, y: seq<Line>)
    requires IsLineList(x) && IsLineList(y) && Flatten(x) == Flatten(y)
    requires x != [] && y != []
    ensures |x[0]| <= |y[0]|
  {
    var f, n := Flatten(x), |y[0]|;
    assert f[n - 1] == y[0][n - 1];
  }

  method Lines(bytes: seq<Byte>) returns (result: seq<Line>)
    ensures result == LinesOf(bytes)
  {
    result := [];
    var start := 0;
    for index := 0 to |bytes|
      invariant 0 <= start <= index
      invariant Flatten(result) == bytes[..start]
      invariant IsLineList(result)
      invariant forall k :: 0 <= k < |result| ==> result[k][|result[k]| - 1] == NEWLINE
      invariant NEWLINE !in bytes[start..index]
    {
      if bytes[index] == NEWLINE {
        var line := bytes[start..index + 1];
        FlattenAppend(result, line);
        assert bytes[..index + 1] == bytes[..start] + line;
        assert line[..|line| - 1] == bytes[start..index];
        result := result + [line];
        start := index + 1;
      }
    }
    if start < |bytes| {
      var line := bytes[start..];
      FlattenAppend(result, line);
      assert bytes == bytes[..start] + line;
      assert forall k :: 0 <= k < |line| - 1 ==> line[k] == bytes[start..|bytes|][k];
      result := result + [line];
    } else {
      assert bytes[..start] == bytes;
    }
    LinesUnique(result, LinesOf(bytes));
  }

  // ---------------------------------------------------------------- diff and edits

  /** One operation of an edit script: the two ranges are equal line by line, or
      the old one is deleted, inserted before, or replaced. */
  datatype DiffOp = Equal(old_: Range, new_: Range) | Change(old_: Range, new_: Range)

  /** `ops` walks both files from (i, j) to their ends, without gap or overlap. */
  predicate Tiles(base: seq<Line>, side: seq<Line>, ops: seq<DiffOp>, i: nat, j: nat)
  {
    if ops == [] then i == |base| && j == |side|
    else
      var op := ops[0];
      && op.old_.start == i && op.new_.start == j
      && i <= op.old_.end <= |base| && j <= op.new_.end <= |side|
      && (op.Equal? ==> base[i..op.old_.end] == side[j..op.new_.end])
      && Tiles(base, side, ops[1..], op.old_.end, op.new_.end)
  }

  type Differ = (seq<Line>, seq<Line>) -> seq<DiffOp>

  /** All that is asked of the external diff: its script tiles both files, and a
      file compared with itself has no change. */
  ghost predicate GoodDiff(diff: Differ)
  {
    && (forall base, side :: Tiles(base, side, diff(base, side), 0, 0))
    && (forall base, k :: 0 <= k < |diff(base, base)| ==> diff(base, base)[k].Equal?)
  }

  /** The smallest diff that keeps the contract. */
  function TrivialDiff(base: seq<Line>, side: seq<Line>): seq<DiffOp>
  {
    if base == side then [Equal(Range(0, |base|), Range(0, |side|))]
    else [Change(Range(0, |base|), Range(0, |side|))]
  }

  lemma TrivialDiffIsGood()
    ensures GoodDiff(TrivialDiff)
  {
    forall base: seq<Line>, side: seq<Line>
      ensures Tiles(base, side, TrivialDiff(base, side), 0, 0)
    {
      var ops := TrivialDiff(base, side);
      assert ops[1..] == [];
      assert base[0..|base|] == base && side[0..|side|] == side;
    }
  }

  /** The edits of an equal-length replacement, one per line that differs, in front
      of the later edits. */
  function SplitEdits(base: seq<Line>, side: seq<Line>, i: nat, j: nat, n: nat, later: seq<Edit>): seq<Edit>
    requires i + n <= |base| && j + n <= |side|
    decreases n
  {
    if n == 0 then later
    else
      var rest := SplitEdits(base, side, i + 1, j + 1, n - 1, later);
      if base[i] != side[j] then [Edit(Range(i, i + 1), Range(j, j + 1))] + rest else rest
  }

  function EditsFrom(base: seq<Line>, side: seq<Line>, ops: seq<DiffOp>, ghost i: nat, ghost j: nat): seq<Edit>
    requires Tiles(base, side, ops, i, j)
    decreases |ops|
  {
    if ops == [] then []
    else
      var op := ops[0];
      var later := EditsFrom(base, side, ops[1..], op.old_.end, op.new_.end);
      match op
      case Equal(_, _) => later
      case Change(o, n) =>
        if o.end - o.start == n.end - n.start && o.start != o.end then
          SplitEdits(base, side, o.start, n.start, o.end - o.start, later)
        else [Edit(o, n)] + later
  }

  function EditsOf(base: seq<Line>, side: seq<Line>, diff: Differ): seq<Edit>
    requires GoodDiff(diff)
  {
    EditsFrom(base, side, diff(base, side), 0, 0)
  }

  /** From (i, j) on, `side` is `base` with the edits applied. */
  predicate Rewrites(base: seq<Line>, side: seq<Line>, es: seq<Edit>, i: nat, j: nat)
  {
    && i <= |base| && j <= |side|
    && if es == [] then base[i..] == side[j..]
       else
         var e := es[0];
         && i <= e.base.start <= e.base.end <= |base|
         && j <= e.side.start <= e.side.end <= |side|
         && base[i..e.base.start] == side[j..e.side.start]
         && Rewrites(base, side, es[1..], e.base.end, e.side.end)
  }

  /** Equal lines in front of an edit script may be prepended to its gap. */
  lemma RewritesEarlier(base: seq<Line>, side: seq<Line>, es: seq<Edit>, i0: nat, j0: nat, i: nat, j: nat)
    requires Rewrites(base, side, es, i, j)
    requires i0 <= i && j0 <= j && base[i0..i] == side[j0..j]
    ensures Rewrites(base, side, es, i0, j0)
  {
    if es == [] {
      assert base[i0..] == base[i0..i] + base[i..];
      assert side[j0..] == side[j0..j] + side[j..];
    } else {
      var e := es[0];
      assert base[i0..e.base.start] == base[i0..i] + base[i..e.base.start];
      assert side[j0..e.side.start] == side[j0..j] + side[j..e.side.start];
    }
  }

  lemma SubSlice(s: seq<Line>, i: nat, j: nat, a: nat, b: nat)
    requires i <= j <= |s| && a <= b <= j - i
    ensures s[i..j][a..b] == s[i + a..i + b]
  {
    var x, y := s[i..j][a..b], s[i + a..i + b];
    assert |x| == |y| && forall k :: 0 <= k < |x| ==> x[k] == y[k];
    assert x == y;
  }

  /** Equal runs of two files have equal parts. */
  lemma EqualParts(x: seq<Line>, y: seq<Line>, i: nat, iEnd: nat, j: nat, jEnd: nat, n: nat)
    requires i <= iEnd <= |x| && j <= jEnd <= |y| && x[i..iEnd] == y[j..jEnd] && n <= iEnd - i
    ensures iEnd - i == jEnd - j && x[i..i + n] == y[j..j + n] && x[i + n..iEnd] == y[j + n..jEnd]
  {
    var u, v := x[i..iEnd], y[j..jEnd];
    assert |u| == iEnd - i && |v| == jEnd - j;
    SubSlice(x, i, iEnd, 0, n);
    SubSlice(y, j, jEnd, 0, n);
    SubSlice(x, i, iEnd, n, iEnd - i);
    SubSlice(y, j, jEnd, n, jEnd - j);
    assert u[0..n] == v[0..n] && u[n..iEnd - i] == v[n..jEnd - j];
    assert i + (iEnd - i) == iEnd && j + (jEnd - j) == jEnd;
  }

  /** ... and a prefix of the gap may be dropped. */
  lemma RewritesLater(base: seq<Line>, side: seq<Line>, es: seq<Edit>, i: nat, j: nat, c: nat)
    requires Rewrites(base, side, es, i, j)
    requires i <= c <= if es == [] then |base| else es[0].base.start
    ensures j + (c - i) <= |side|
    ensures base[i..c] == side[j..j + (c - i)]
    ensures Rewrites(base, side, es, c, j + (c - i))
  {
    if es == [] {
      assert base[i..] == base[i..|base|] && side[j..] == side[j..|side|];
      EqualParts(base, side, i, |base|, j, |side|, c - i);
    } else {
      EqualParts(base, side, i, es[0].base.start, j, es[0].side.start, c - i);
    }
  }

  lemma RewritesCons(base: seq<Line>, side: seq<Line>, e: Edit, es: seq<Edit>)
    requires e.base.start <= e.base.end && e.side.start <= e.side.end
    requires Rewrites(base, side, es, e.base.end, e.side.end)
    ensures Rewrites(base, side, [e] + es, e.base.start, e.side.start)
  {
    var all := [e] + es;
    assert all[0] == e && all[1..] == es;
    assert base[e.base.start..e.base.start] == [] == side[e.side.start..e.side.start];
  }

  lemma RewritesEqualLine(base: seq<Line>, side: seq<Line>, i: nat, j: nat, es: seq<Edit>)
    requires i < |base| && j < |side| && base[i] == side[j]
    requires Rewrites(base, side, es, i + 1, j + 1)
    ensures Rewrites(base, side, es, i, j)
  {
    assert base[i..i + 1] == [base[i]] == side[j..j + 1];
    RewritesEarlier(base, side, es, i, j, i + 1, j + 1);
  }

  lemma {:induction false} SplitRewrites(base: seq<Line>, side: seq<Line>, i: nat, j: nat, n: nat, later: seq<Edit>)
    requires i + n <= |base| && j + n <= |side|
    requires Rewrites(base, side, later, i + n, j + n)
    ensures Rewrites(base, side, SplitEdits(base, side, i, j, n, later), i, j)
    decreases n
  {
    if n > 0 {
      SplitRewrites(base, side, i + 1, j + 1, n - 1, later);
      var rest := SplitEdits(base, side, i + 1, j + 1, n - 1, later);
      if base[i] != side[j] {
        RewritesCons(base, side, Edit(Range(i, i + 1), Range(j, j + 1)), rest);
      } else {
        RewritesEqualLine(base, side, i, j, rest);
      }
    }
  }

  /** Dropping the equal operations and splitting equal-length replacements line
      by line still turns the base into the side. */
  lemma {:induction false} EditsRewrite(base: seq<Line>, side: seq<Line>, ops: seq<DiffOp>, i: nat, j: nat)
    requires Tiles(base, side, ops, i, j)
    ensures Rewrites(base, side, EditsFrom(base, side, ops, i, j), i, j)
    decreases |ops|
  {
    if ops != [] {
      var op := ops[0];
      var rest := EditsFrom(base, side, ops[1..], op.old_.end, op.new_.end);
      EditsRewrite(base, side, ops[1..], op.old_.end, op.new_.end);
      var all := EditsFrom(base, side, ops, i, j);
      if op.Equal? {
        assert all == rest;
        RewritesEarlier(base, side, rest, i, j, op.old_.end, op.new_.end);
      } else {
        var n := op.old_.end - op.old_.start;
        if n == op.new_.end - op.new_.start && n != 0 {
          SplitRewrites(base, side, i, j, n, rest);
        } else {
          RewritesCons(base, side, Edit(op.old_, op.new_), rest);
        }
      }
    }
  }

  /** An edit that replaces as many lines as it brings is one line that differs. */
  predicate LineByLine(base: seq<Line>, side: seq<Line>, e: Edit)
  {
    e.base.start <= e.base.end <= |base| && e.side.start <= e.side.end <= |side|
    && (e.base.end - e.base.start == e.side.end - e.side.start > 0 ==>
          e.base.end == e.base.start + 1 && base[e.base.start] != side[e.side.start])
  }

  lemma {:induction false} SplitLineByLine(base: seq<Line>, side: seq<Line>, i: nat, j: nat, n: nat, later: seq<Edit>)
    requires i + n <= |base| && j + n <= |side|
    requires forall e :: e in later ==> LineByLine(base, side, e)
    ensures forall e :: e in SplitEdits(base, side, i, j, n, later) ==> LineByLine(base, side, e)
    decreases n
  {
    if n > 0 {
      SplitLineByLine(base, side, i + 1, j + 1, n - 1, later);
    }
  }

  /** Replacements of equal length are edited line by line, where lines differ, so that
      two sides that replace neighbouring lines do not collide. */
  lemma {:induction false} EditsLineByLine(base: seq<Line>, side: seq<Line>, ops: seq<DiffOp>, i: nat, j: nat)
    requires Tiles(base, side, ops, i, j)
    ensures forall e :: e in EditsFrom(base, side, ops, i, j) ==> LineByLine(base, side, e)
    decreases |ops|
  {
    if ops != [] {
      var op := ops[0];
      EditsLineByLine(base, side, ops[1..], op.old_.end, op.new_.end);
      if op.Change? && op.old_.end - i == op.new_.end - j && i != op.old_.end {
        SplitLineByLine(base, side, i, j, op.old_.end - i,
                        EditsFrom(base, side, ops[1..], op.old_.end, op.new_.end));
      }
    }
  }

  lemma {:induction false} NoChangeNoEdits(base: seq<Line>, side: seq<Line>, ops: seq<DiffOp>, i: nat, j: nat)
    requires Tiles(base, side, ops, i, j)
    requires forall k :: 0 <= k < |ops| ==> ops[k].Equal?
    ensures EditsFrom(base, side, ops, i, j) == []
    decreases |ops|
  {
    if ops != [] {
      NoChangeNoEdits(base, side, ops[1..], ops[0].old_.end, ops[0].new_.end);
    }
  }

  /** Edits in increasing order, inside their files. */
  predicate Ordered(es: seq<Edit>, baseLines: nat, sideLines: nat)
  {
    && (forall k :: 0 <= k < |es| ==>
          es[k].base.start <= es[k].base.end <= baseLines && es[k].side.start <= es[k].side.end <= sideLines)
    && (forall k, m :: 0 <= k < m < |es| ==> es[k].base.end <= es[m].base.start)
  }

  lemma {:induction false} RewritesOrdered(base: seq<Line>, side: seq<Line>, es: seq<Edit>, i: nat, j: nat)
    requires Rewrites(base, side, es, i, j)
    ensures Ordered(es, |base|, |side|)
    ensures forall k :: 0 <= k < |es| ==> i <= es[k].base.start
    decreases |es|
  {
    if es != [] {
      RewritesOrdered(base, side, es[1..], es[0].base.end, es[0].side.end);
      assert forall k :: 1 <= k < |es| ==> es[k] == es[1..][k - 1];
    }
  }
}
