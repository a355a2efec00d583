/**
  Block-level CIGAR rewriting (cigarmath.py): the reference spans of large
  deletions, `=`/`X` simplification, and merging adjacent runs of one op kind.
 */
module CigarMath {
  import opened Wrappers
  import opened Defn
  import opened Block

  // ---------------------------------------------------------------------------
  // reference_deletion_blocks

  /** A deletion or skip at least `minSize` long: the ops reference_deletion_blocks reports. */
  predicate IsLargeDeletion(t: (Op, nat), minSize: int) {
    (t.0 == D || t.0 == N) && t.1 >= minSize
  }

  /** Reference definition: the span of each large deletion, positioned by the reference
      length of everything before it. */
  function DeletionBlocks(c: CigarTuples, start: int, minSize: int): seq<Span> {
    if c == [] then []
    else
      (if IsLargeDeletion(c[0], minSize) then [(start, start + c[0].1)] else [])
      + DeletionBlocks(c[1..], start + (if ConsumesReference(c[0].0) then c[0].1 else 0), minSize)
  }

  /** reference_deletion_blocks: the loop that advances `reference_start` past every
      reference-consuming op and reports the large deletions on the way. */
  method ReferenceDeletionBlocks(c: CigarTuples, referenceStart: int, minSize: int)
    returns (blocks: seq<Span>)
    ensures blocks == DeletionBlocks(c, referenceStart, minSize)
  {
    blocks := [];
    var pos := referenceStart;
    for i := 0 to |c|
      invariant pos == referenceStart + ReferenceOffset(c[..i])
      invariant blocks + DeletionBlocks(c[i..], pos, minSize) == DeletionBlocks(c, referenceStart, minSize)
    {
      var op, sz := c[i].0, c[i].1;
      DeletionLoopStep(c, referenceStart, minSize, i, pos, blocks);
      if (op == D || op == N) && sz >= minSize {
        blocks := blocks + [(pos, pos + sz)];
      } else {
        assert blocks + [] == blocks;
      }
      pos := pos + (if ConsumesReference(op) then sz else 0);
    }
    assert c[|c|..] == [];
  }

  /** The loop invariant of reference_deletion_blocks carried past op `i`. */
  lemma DeletionLoopStep(c: CigarTuples, referenceStart: int, minSize: int, i: nat, pos: int, blocks: seq<Span>)
    requires i < |c| && pos == referenceStart + ReferenceOffset(c[..i])
    requires blocks + DeletionBlocks(c[i..], pos, minSize) == DeletionBlocks(c, referenceStart, minSize)
    ensures var next := pos + (if ConsumesReference(c[i].0) then c[i].1 else 0);
      var blocks' := blocks + (if IsLargeDeletion(c[i], minSize) then [(pos, pos + c[i].1)] else []);
      && next == referenceStart + ReferenceOffset(c[..i + 1])
      && blocks' + DeletionBlocks(c[i + 1..], next, minSize) == DeletionBlocks(c, referenceStart, minSize)
  {
    var next := pos + (if ConsumesReference(c[i].0) then c[i].1 else 0);
    var head := if IsLargeDeletion(c[i], minSize) then [(pos, pos + c[i].1)] else [];
    DeletionBlocksStep(c, i, pos, minSize);
    SpansAssoc(blocks, head, DeletionBlocks(c[i + 1..], next, minSize));
    SumWherePrefix(c, i, ConsumesReference);
  }

  /** Concatenation of span lists is associative. */
  lemma SpansAssoc(a: seq<Span>, b: seq<Span>, d: seq<Span>)
    ensures a + (b + d) == (a + b) + d
  {
  }

  /** One step of the loop: the op at `i` contributes its span, if any, in front of the rest. */
  lemma DeletionBlocksStep(c: CigarTuples, i: nat, pos: int, minSize: int)
    requires i < |c|
    ensures DeletionBlocks(c[i..], pos, minSize) ==
      (if IsLargeDeletion(c[i], minSize) then [(pos, pos + c[i].1)] else [])
      + DeletionBlocks(c[i + 1..], pos + (if ConsumesReference(c[i].0) then c[i].1 else 0), minSize)
  {
    assert c[i..][1..] == c[i + 1..];
  }

  /** The span reported for the op at `k`. */
  function DeletionSpanAt(c: CigarTuples, start: int, k: nat): Span
    requires k < |c|
  {
    (start + ReferenceOffset(c[..k]), start + ReferenceOffset(c[..k]) + c[k].1)
  }

  /** `span` is the span of the large deletion at `k`. */
  predicate ReportedAt(c: CigarTuples, start: int, minSize: int, k: int, span: Span) {
    0 <= k < |c| && IsLargeDeletion(c[k], minSize) && span == DeletionSpanAt(c, start, k)
  }

  /** Splitting the first op off a prefix. */
  lemma PrefixOffsetCons(c: CigarTuples, k: nat)
    requires 0 < k <= |c|
    ensures ReferenceOffset(c[..k]) ==
      (if ConsumesReference(c[0].0) then c[0].1 else 0) + ReferenceOffset(c[1..][..k - 1])
  {
    assert c[..k][1..] == c[1..][..k - 1];
  }

  /** Every reported span is the span of a large deletion of the CIGAR. */
  lemma DeletionBlocksSound(c: CigarTuples, start: int, minSize: int, i: nat)
    requires i < |DeletionBlocks(c, start, minSize)|
    ensures exists k :: ReportedAt(c, start, minSize, k, DeletionBlocks(c, start, minSize)[i])
  {
    var k := DeletionBlockSource(c, start, minSize, i);
  }

  /** The op that reported span `i`. */
  lemma {:induction false} DeletionBlockSource(c: CigarTuples, start: int, minSize: int, i: nat) returns (k: nat)
    requires i < |DeletionBlocks(c, start, minSize)|
    ensures ReportedAt(c, start, minSize, k, DeletionBlocks(c, start, minSize)[i])
    decreases |c|
  {
    var step := if ConsumesReference(c[0].0) then c[0].1 else 0;
    var head := if IsLargeDeletion(c[0], minSize) then [(start, start + c[0].1)] else [];
    var rest := DeletionBlocks(c[1..], start + step, minSize);
    assert DeletionBlocks(c, start, minSize) == head + rest;
    if i < |head| {
      assert c[..0] == [];
      k := 0;
    } else {
      var k' := DeletionBlockSource(c[1..], start + step, minSize, i - |head|);
      ReportedShift(c, start, minSize, k', rest[i - |head|]);
      k := k' + 1;
    }
  }

  /** A span the tail reports for its op `k` is the span of op `k + 1` of the whole. */
  lemma ReportedShift(c: CigarTuples, start: int, minSize: int, k: nat, span: Span)
    requires c != []
    requires ReportedAt(c[1..], start + (if ConsumesReference(c[0].0) then c[0].1 else 0), minSize, k, span)
    ensures ReportedAt(c, start, minSize, k + 1, span)
  {
    PrefixOffsetCons(c, k + 1);
  }

  /** Every large deletion of the CIGAR is reported, with its span. */
  lemma {:induction false} DeletionBlocksComplete(c: CigarTuples, start: int, minSize: int, k: nat)
    requires k < |c| && IsLargeDeletion(c[k], minSize)
    ensures DeletionSpanAt(c, start, k) in DeletionBlocks(c, start, minSize)
    decreases |c|
  {
    var step := if ConsumesReference(c[0].0) then c[0].1 else 0;
    if k == 0 {
      HeadReported(c, start, minSize);
    } else {
      SpanShift(c, start, k, step);
      DeletionBlocksComplete(c[1..], start + step, minSize, k - 1);
      TailReported(c, start, minSize, step, DeletionSpanAt(c, start, k));
    }
  }

  /** A large deletion at the head op is reported first. */
  lemma HeadReported(c: CigarTuples, start: int, minSize: int)
    requires c != [] && IsLargeDeletion(c[0], minSize)
    ensures DeletionSpanAt(c, start, 0) in DeletionBlocks(c, start, minSize)
  {
    assert c[..0] == [];
    var head := [(start, start + c[0].1)];
    DeletionBlocksUnfold(c, start, minSize, if ConsumesReference(c[0].0) then c[0].1 else 0, head);
  }

  /** A span reported for the tail is reported for the whole CIGAR. */
  lemma TailReported(c: CigarTuples, start: int, minSize: int, step: nat, x: Span)
    requires c != []
    requires step == if ConsumesReference(c[0].0) then c[0].1 else 0
    requires x in DeletionBlocks(c[1..], start + step, minSize)
    ensures x in DeletionBlocks(c, start, minSize)
  {
    var head := if IsLargeDeletion(c[0], minSize) then [(start, start + c[0].1)] else [];
    DeletionBlocksUnfold(c, start, minSize, step, head);
  }

  /** The span at `k` is the span at `k - 1` of the tail, moved past the head op. */
  lemma SpanShift(c: CigarTuples, start: int, k: nat, step: nat)
    requires 0 < k < |c|
    requires step == if ConsumesReference(c[0].0) then c[0].1 else 0
    ensures c[1..][k - 1] == c[k]
    ensures DeletionSpanAt(c, start, k) == DeletionSpanAt(c[1..], start + step, k - 1)
  {
    PrefixOffsetCons(c, k);
  }

  /** Every span is well formed and lies within `[lo, hi]`. */
  predicate SpansWithin(b: seq<Span>, lo: int, hi: int) {
    forall i :: 0 <= i < |b| ==> lo <= b[i].0 <= b[i].1 <= hi
  }

  /** Each span ends before the next one starts. */
  predicate SpansOrdered(b: seq<Span>) {
    forall i, j :: 0 <= i < j < |b| ==> b[i].1 <= b[j].0
  }

  /** The reported spans are in reference order, do not overlap, and lie within the
      alignment's reference span. */
  lemma {:induction false} DeletionBlocksOrdered(c: CigarTuples, start: int, minSize: int)
    ensures SpansWithin(DeletionBlocks(c, start, minSize), start, start + ReferenceOffset(c))
    ensures SpansOrdered(DeletionBlocks(c, start, minSize))
    decreases |c|
  {
    if c != [] {
      var step, head := DeletionHead(c, start, minSize);
      DeletionBlocksOrdered(c[1..], start + step, minSize);
      var hi := start + step + ReferenceOffset(c[1..]);
      SpansConcat(head, DeletionBlocks(c[1..], start + step, minSize), start, start + step, hi);
    }
  }

  /** The first op's span, if any, lies within the reference it consumes, in front of
      the spans of the rest. */
  lemma DeletionHead(c: CigarTuples, start: int, minSize: int) returns (step: nat, head: seq<Span>)
    requires c != []
    ensures step == if ConsumesReference(c[0].0) then c[0].1 else 0
    ensures head == if IsLargeDeletion(c[0], minSize) then [(start, start + c[0].1)] else []
    ensures ReferenceOffset(c) == step + ReferenceOffset(c[1..])
    ensures SpansWithin(head, start, start + step) && SpansOrdered(head)
    ensures DeletionBlocks(c, start, minSize) == head + DeletionBlocks(c[1..], start + step, minSize)
  {
    step := if ConsumesReference(c[0].0) then c[0].1 else 0;
    head := if IsLargeDeletion(c[0], minSize) then [(start, start + c[0].1)] else [];
    DeletionBlocksUnfold(c, start, minSize, step, head);
    ConsumptionByKind(c[0].0);
  }

  /** One unfolding of DeletionBlocks at the head op. */
  lemma DeletionBlocksUnfold(c: CigarTuples, start: int, minSize: int, step: nat, head: seq<Span>)
    requires c != []
    requires step == if ConsumesReference(c[0].0) then c[0].1 else 0
    requires head == if IsLargeDeletion(c[0], minSize) then [(start, start + c[0].1)] else []
    ensures DeletionBlocks(c, start, minSize) == head + DeletionBlocks(c[1..], start + step, minSize)
  {
  }

  /** Ordered spans within `[lo, mid]` followed by ordered spans within `[mid, hi]` are
      ordered spans within `[lo, hi]`. */
  lemma SpansConcat(a: seq<Span>, b: seq<Span>, lo: int, mid: int, hi: int)
    requires lo <= mid <= hi
    requires SpansWithin(a, lo, mid) && SpansOrdered(a)
    requires SpansWithin(b, mid, hi) && SpansOrdered(b)
    ensures SpansWithin(a + b, lo, hi) && SpansOrdered(a + b)
  {
    var t := a + b;
    forall i | 0 <= i < |t| ensures lo <= t[i].0 <= t[i].1 <= hi {
      if i >= |a| {
        assert t[i] == b[i - |a|];
      } else {
        assert t[i] == a[i];
        if b != [] {
          assert mid <= b[0].0 <= b[0].1 <= hi;
        }
      }
    }
    forall i, j | 0 <= i < j < |t| ensures t[i].1 <= t[j].0 {
      if i >= |a| {
        assert t[i] == b[i - |a|] && t[j] == b[j - |a|];
      } else if j >= |a| {
        assert t[i] == a[i] && t[j] == b[j - |a|];
      } else {
        assert t[i] == a[i] && t[j] == a[j];
      }
    }
  }

  /** 30M10D20S from any start: the deletion is reported when it is long enough. */
  lemma ShortExampleAt(c: CigarTuples, start: int, minSize: int)
    requires c == [(M, 30), (D, 10), (S, 20)]
    ensures DeletionBlocks(c, start, minSize) == if minSize <= 10 then [(start + 30, start + 40)] else []
  {
    ConsumptionByKind(M);
    ConsumptionByKind(D);
    ConsumptionByKind(S);
    DeletionBlocksStep(c, 0, start, minSize);
    DeletionBlocksStep(c, 1, start + 30, minSize);
    DeletionBlocksStep(c, 2, start + 40, minSize);
    assert c[0..] == c && c[3..] == [];
  }

  /** The examples of test_block.py on 30M10D20S, and on 300M, which has no deletion. */
  lemma DeletionBlocksExampleShort(c: CigarTuples, plain: CigarTuples)
    requires c == [(M, 30), (D, 10), (S, 20)]
    requires plain == [(M, 300)]
    ensures DeletionBlocks(c, 0, 1) == [(30, 40)]
    ensures DeletionBlocks(c, 10, 1) == [(40, 50)]
    ensures DeletionBlocks(c, 0, 20) == []
    ensures DeletionBlocks(plain, 0, 1) == []
  {
    ShortExampleAt(c, 0, 1);
    ShortExampleAt(c, 10, 1);
    ShortExampleAt(c, 0, 20);
    ConsumptionByKind(M);
    DeletionBlocksStep(plain, 0, 0, 1);
    assert plain[0..] == plain && plain[1..] == [];
  }

  /** The 30M10N30M100D10M10I10M50N10M example of test_block.py, with a minimum of 20. */
  function LongExample(): CigarTuples {
    [(M, 30), (N, 10), (M, 30), (D, 100), (M, 10), (I, 10), (M, 10), (N, 50), (M, 10)]
  }

  /** The last three ops of the long example: one large skip. */
  lemma LongExampleTail(c: CigarTuples, minSize: int)
    requires c == LongExample() && 1 <= minSize <= 50
    ensures DeletionBlocks(c[6..], 180, minSize) == [(190, 240)]
  {
    ConsumptionByKind(M);
    ConsumptionByKind(N);
    DeletionBlocksStep(c, 6, 180, minSize);
    DeletionBlocksStep(c, 7, 190, minSize);
    DeletionBlocksStep(c, 8, 240, minSize);
    assert c[9..] == [];
  }

  /** From the large deletion on. */
  lemma LongExampleMiddle(c: CigarTuples, minSize: int)
    requires c == LongExample() && 1 <= minSize <= 50
    ensures DeletionBlocks(c[3..], 70, minSize) == [(70, 170), (190, 240)]
  {
    ConsumptionByKind(M);
    ConsumptionByKind(D);
    ConsumptionByKind(I);
    LongExampleTail(c, minSize);
    DeletionBlocksStep(c, 3, 70, minSize);
    DeletionBlocksStep(c, 4, 170, minSize);
    DeletionBlocksStep(c, 5, 180, minSize);
  }

  /** The long example from its start: the short skip is reported only with a minimum
      of at most 10. */
  lemma LongExampleHead(c: CigarTuples, minSize: int)
    requires c == LongExample() && 1 <= minSize <= 50
    ensures DeletionBlocks(c, 0, minSize) ==
      (if minSize <= 10 then [(30, 40)] else []) + [(70, 170), (190, 240)]
  {
    ConsumptionByKind(M);
    ConsumptionByKind(N);
    LongExampleMiddle(c, minSize);
    DeletionBlocksStep(c, 0, 0, minSize);
    DeletionBlocksStep(c, 1, 30, minSize);
    DeletionBlocksStep(c, 2, 40, minSize);
    assert c[0..] == c;
  }

  /** The whole long example: every deletion and skip with a minimum of 1; with a minimum
      of 20 the short skip is left out. */
  lemma DeletionBlocksExampleLong(c: CigarTuples)
    requires c == LongExample()
    ensures DeletionBlocks(c, 0, 1) == [(30, 40), (70, 170), (190, 240)]
    ensures DeletionBlocks(c, 0, 20) == [(70, 170), (190, 240)]
  {
    LongExampleHead(c, 1);
    LongExampleHead(c, 20);
  }

  // ---------------------------------------------------------------------------
  // collapse_adjacent_blocks

  /** The per-unit op sequence a CIGAR stands for. */
  function Expand(c: CigarTuples): seq<Op> {
    if c == [] then [] else Expand(c[..|c| - 1]) + seq(c[|c| - 1].1, _ => c[|c| - 1].0)
  }

  /** No two neighbouring runs have the same op. */
  predicate NoAdjacentSame(c: CigarTuples) {
    forall i :: 0 <= i < |c| - 1 ==> c[i].0 != c[i + 1].0
  }

  /** Adding one run at the end: merged into the last run when the op is the same. */
  function PushRun(r: CigarTuples, x: (Op, nat)): CigarTuples {
    if r != [] && r[|r| - 1].0 == x.0 then r[..|r| - 1] + [(x.0, r[|r| - 1].1 + x.1)]
    else r + [x]
  }

  /** Reference definition of the merge, run by run from the left. */
  function Collapse(c: CigarTuples): CigarTuples {
    if c == [] then [] else PushRun(Collapse(c[..|c| - 1]), c[|c| - 1])
  }

  /** Runs seen as the source yields them, with `None` for the degenerate op. */
  function Lift(c: CigarTuples): (r: seq<(Option<Op>, nat)>)
    ensures |r| == |c|
    ensures forall i :: 0 <= i < |c| ==> r[i] == (Some(c[i].0), c[i].1)
  {
    seq(|c|, i requires 0 <= i < |c| => (Some(c[i].0), c[i].1))
  }

  /** What collapse_adjacent_blocks yields: the merged runs, or the single block
      `(None, 0)` for an empty input. */
  function Collapsed(c: CigarTuples): seq<(Option<Op>, nat)> {
    if c == [] then [(None, 0)] else Lift(Collapse(c))
  }

  /** collapse_adjacent_blocks: the loop with the running `last_op` and `last_sz`. */
  method CollapseAdjacentBlocks(c: CigarTuples) returns (r: seq<(Option<Op>, nat)>)
    ensures r == Collapsed(c)
  {
    var lastOp: Option<Op> := None;
    var lastSz: nat := 0;
    r := [];
    for i := 0 to |c|
      invariant i == 0 ==> lastOp == None && lastSz == 0 && r == []
      invariant i > 0 ==> lastOp.Some? && Lift(Collapse(c[..i])) == r + [(lastOp, lastSz)]
    {
      var (op, sz) := c[i];
      ghost var r0, lastOp0, lastSz0 := r, lastOp, lastSz;
      if lastOp == None {
        lastOp := Some(op);
        lastSz := sz;
      } else if lastOp.value == op {
        lastSz := lastSz + sz;
      } else {
        r := r + [(lastOp, lastSz)];
        lastOp, lastSz := Some(op), sz;
      }
      CollapseStep(c, i, r0, lastOp0, lastSz0, r, lastOp, lastSz);
    }
    if |c| > 0 {
      assert c[..|c|] == c;
    }
    r := r + [(lastOp, lastSz)];
  }

  /** One pass of the loop: the first run opens the pending block, a run of the
      pending op grows it, any other run closes it and opens a new one. */
  lemma CollapseStep(c: CigarTuples, i: nat, r0: seq<(Option<Op>, nat)>, lastOp0: Option<Op>, lastSz0: nat,
                     r: seq<(Option<Op>, nat)>, lastOp: Option<Op>, lastSz: nat)
    requires i < |c|
    requires i == 0 ==> lastOp0 == None && lastSz0 == 0 && r0 == []
    requires i > 0 ==> lastOp0.Some? && Lift(Collapse(c[..i])) == r0 + [(lastOp0, lastSz0)]
    requires lastOp0 == None ==> r == r0 && lastOp == Some(c[i].0) && lastSz == c[i].1
    requires lastOp0.Some? && lastOp0.value == c[i].0 ==> r == r0 && lastOp == lastOp0 && lastSz == lastSz0 + c[i].1
    requires lastOp0.Some? && lastOp0.value != c[i].0 ==>
      r == r0 + [(lastOp0, lastSz0)] && lastOp == Some(c[i].0) && lastSz == c[i].1
    ensures lastOp.Some? && Lift(Collapse(c[..i + 1])) == r + [(lastOp, lastSz)]
  {
    CollapseSnoc(c, i);
    if i == 0 {
      assert Collapse(c[..i]) == [];
    } else {
      LiftPush(Collapse(c[..i]), c[i], r0, lastOp0, lastSz0);
    }
  }

  /** The merge of one more run of the input. */
  lemma CollapseSnoc(c: CigarTuples, i: nat)
    requires i < |c|
    ensures Collapse(c[..i + 1]) == PushRun(Collapse(c[..i]), c[i])
  {
    PrefixSnoc(c, i);
  }

  lemma PrefixSnoc(c: CigarTuples, i: nat)
    requires i < |c|
    ensures c[..i + 1] != [] && c[..i + 1][..i] == c[..i] && c[..i + 1][i] == c[i]
  {
  }

  /** The loop's step, seen through `Lift`. */
  lemma LiftPush(x: CigarTuples, t: (Op, nat), r: seq<(Option<Op>, nat)>, lastOp: Option<Op>, lastSz: nat)
    requires lastOp.Some? && Lift(x) == r + [(lastOp, lastSz)]
    ensures lastOp.value == t.0 ==> Lift(PushRun(x, t)) == r + [(lastOp, lastSz + t.1)]
    ensures lastOp.value != t.0 ==> Lift(PushRun(x, t)) == r + [(lastOp, lastSz)] + [(Some(t.0), t.1)]
  {
    assert |x| == |r| + 1;
    assert x[|x| - 1] == (lastOp.value, lastSz) by {
      assert Lift(x)[|x| - 1] == (lastOp, lastSz);
    }
    if lastOp.value == t.0 {
      var p := PushRun(x, t);
      assert forall i :: 0 <= i < |r| ==> Lift(p)[i] == r[i] by {
        forall i | 0 <= i < |r| ensures Lift(p)[i] == r[i] {
          assert Lift(x)[i] == r[i];
        }
      }
    } else {
      var p := PushRun(x, t);
      assert forall i :: 0 <= i < |r| + 1 ==> Lift(p)[i] == (r + [(lastOp, lastSz)])[i] by {
        forall i | 0 <= i < |r| + 1 ensures Lift(p)[i] == (r + [(lastOp, lastSz)])[i] {
          assert Lift(x)[i] == (r + [(lastOp, lastSz)])[i];
        }
      }
    }
  }

  /** The merge is empty only for an empty input, and ends with the input's last op. */
  lemma {:induction false} CollapseShape(c: CigarTuples)
    ensures |Collapse(c)| <= |c|
    ensures c != [] ==> Collapse(c) != [] && Collapse(c)[|Collapse(c)| - 1].0 == c[|c| - 1].0
    ensures c != [] ==> Collapse(c)[0].0 == c[0].0
    decreases |c|
  {
    if c != [] {
      CollapseShape(c[..|c| - 1]);
      if |c| > 1 {
        assert c[..|c| - 1][0] == c[0];
      }
    }
  }

  /** collapse_adjacent_blocks never yields two neighbouring runs of one kind. */
  lemma {:induction false} CollapseNoAdjacentSame(c: CigarTuples)
    ensures NoAdjacentSame(Collapse(c))
    decreases |c|
  {
    if c != [] {
      var pre := Collapse(c[..|c| - 1]);
      CollapseNoAdjacentSame(c[..|c| - 1]);
      var x := c[|c| - 1];
      if pre != [] && pre[|pre| - 1].0 == x.0 {
        var p := PushRun(pre, x);
        assert forall i :: 0 <= i < |p| - 1 ==> p[i] == pre[i];
      }
    }
  }

  /** Expanding a concatenation concatenates the expansions. */
  lemma {:induction false} ExpandAppend(a: CigarTuples, b: CigarTuples)
    ensures Expand(a + b) == Expand(a) + Expand(b)
    decreases |b|
  {
    if b == [] {
      assert a + b == a;
    } else {
      var n := |b| - 1;
      assert (a + b)[..|a + b| - 1] == a + b[..n];
      ExpandAppend(a, b[..n]);
    }
  }

  /** Merging a run into the previous one of the same op keeps the unit sequence. */
  lemma PushRunExpand(r: CigarTuples, x: (Op, nat))
    ensures Expand(PushRun(r, x)) == Expand(r) + seq(x.1, _ => x.0)
  {
    if r != [] && r[|r| - 1].0 == x.0 {
      var last := r[|r| - 1];
      var pre := r[..|r| - 1];
      var merged := (x.0, last.1 + x.1);
      assert PushRun(r, x) == pre + [merged];
      ExpandAppend(pre, [merged]);
      assert [merged][..0] == [];
      assert Expand([merged]) == seq(last.1 + x.1, _ => x.0);
      ExpandAppend(pre, [last]);
      assert pre + [last] == r;
      assert [last][..0] == [];
      assert Expand([last]) == seq(last.1, _ => x.0);
      assert seq(last.1 + x.1, _ => x.0) == seq(last.1, _ => x.0) + seq(x.1, _ => x.0);
    } else {
      assert (r + [x])[..|r|] == r;
    }
  }

  /** Collapsing keeps the expanded per-unit op sequence, so every length is kept. */
  lemma {:induction false} CollapseExpand(c: CigarTuples)
    ensures Expand(Collapse(c)) == Expand(c)
    decreases |c|
  {
    if c != [] {
      CollapseExpand(c[..|c| - 1]);
      PushRunExpand(Collapse(c[..|c| - 1]), c[|c| - 1]);
    }
  }

  /** A CIGAR without neighbouring runs of one kind is its own collapse. */
  lemma {:induction false} CollapseOfCollapsed(c: CigarTuples)
    requires NoAdjacentSame(c)
    ensures Collapse(c) == c
    decreases |c|
  {
    if c != [] {
      var pre := c[..|c| - 1];
      assert NoAdjacentSame(pre);
      CollapseOfCollapsed(pre);
      if |pre| > 0 {
        assert pre[|pre| - 1].0 != c[|c| - 1].0;
      }
      assert pre + [c[|c| - 1]] == c;
    }
  }

  /** Collapse is idempotent. */
  lemma CollapseIdempotent(c: CigarTuples)
    ensures Collapse(Collapse(c)) == Collapse(c)
  {
    CollapseNoAdjacentSame(c);
    CollapseOfCollapsed(Collapse(c));
  }

  /** Pushing a run adds its share to every filtered sum. */
  lemma PushRunSum(r: CigarTuples, x: (Op, nat), sel: Op -> bool)
    ensures SumWhere(PushRun(r, x), sel) == SumWhere(r, sel) + (if sel(x.0) then x.1 else 0)
  {
    if r != [] && r[|r| - 1].0 == x.0 {
      var last := r[|r| - 1];
      SumWhereAppend(r[..|r| - 1], [(x.0, last.1 + x.1)], sel);
      SumWhereAppend(r[..|r| - 1], [last], sel);
      assert r[..|r| - 1] + [last] == r;
    } else {
      SumWhereAppend(r, [x], sel);
    }
  }

  /** Every filtered sum, and with it the reference and query offsets, is kept. */
  lemma {:induction false} CollapseSumWhere(c: CigarTuples, sel: Op -> bool)
    ensures SumWhere(Collapse(c), sel) == SumWhere(c, sel)
    decreases |c|
  {
    if c != [] {
      var x := c[|c| - 1];
      CollapseSumWhere(c[..|c| - 1], sel);
      PushRunSum(Collapse(c[..|c| - 1]), x, sel);
      SumWhereAppend(c[..|c| - 1], [x], sel);
      assert c[..|c| - 1] + [x] == c;
    }
  }

  /** Positive lengths stay positive. */
  lemma {:induction false} CollapsePositive(c: CigarTuples)
    requires PositiveLengths(c)
    ensures PositiveLengths(Collapse(c))
    decreases |c|
  {
    if c != [] {
      var pre := Collapse(c[..|c| - 1]);
      CollapsePositive(c[..|c| - 1]);
      var x := c[|c| - 1];
      assert x.1 > 0;
      if pre != [] && pre[|pre| - 1].0 == x.0 {
        var p := PushRun(pre, x);
        assert forall i :: 0 <= i < |p| - 1 ==> p[i] == pre[i];
      }
    }
  }

  /** The examples of test_cigarmath.py: 30M passes through, 15M20M15I merges. */
  lemma CollapseExamples()
    ensures Collapsed([(M, 30)]) == [(Some(M), 30)]
    ensures Collapsed([(M, 15), (M, 20), (I, 15)]) == [(Some(M), 35), (Some(I), 15)]
    ensures Collapsed([]) == [(None, 0)]
  {
    assert [(M, 15), (M, 20), (I, 15)][..2] == [(M, 15), (M, 20)];
    assert [(M, 15), (M, 20)][..1] == [(M, 15)];
    assert [(M, 15), (M, 20)] == [(M, 15)] + [(M, 20)];
    assert Collapse([(M, 15), (M, 20), (I, 15)]) == [(M, 35), (I, 15)];
  }

  // ---------------------------------------------------------------------------
  // simplify_blocks

  /** `=` and `X` become `M`; every other op stays. */
  function SimplifyOp(op: Op): Op {
    if op == Eq || op == X then M else op
  }

  /** simplify_blocks(collapse=False): the same runs with `=` and `X` replaced by `M`. */
  function Simplified(c: CigarTuples): (r: CigarTuples)
    ensures |r| == |c|
    ensures forall i :: 0 <= i < |c| ==> r[i] == (SimplifyOp(c[i].0), c[i].1)
  {
    seq(|c|, i requires 0 <= i < |c| => (SimplifyOp(c[i].0), c[i].1))
  }

  /** simplify_blocks: the replaced runs, merged when `collapse` holds. */
  method SimplifyBlocks(c: CigarTuples, collapse: bool) returns (r: seq<(Option<Op>, nat)>)
    ensures collapse ==> r == Collapsed(Simplified(c))
    ensures !collapse ==> r == Lift(Simplified(c))
  {
    if collapse {
      r := CollapseAdjacentBlocks(Simplified(c));
    } else {
      r := Lift(Simplified(c));
    }
  }

  /** Simplifying keeps both consumptions of every run, so all offsets and lengths, and
      leaves no `=` or `X`. */
  lemma {:induction false} SimplifiedConsumption(c: CigarTuples)
    ensures forall i :: 0 <= i < |c| ==>
      (ConsumesQuery(Simplified(c)[i].0) <==> ConsumesQuery(c[i].0))
      && (ConsumesReference(Simplified(c)[i].0) <==> ConsumesReference(c[i].0))
      && Simplified(c)[i].0 != Eq && Simplified(c)[i].0 != X
    ensures ReferenceOffset(Simplified(c)) == ReferenceOffset(c)
    ensures QueryOffset(Simplified(c)) == QueryOffset(c)
    ensures TotalLength(Simplified(c)) == TotalLength(c)
  {
    forall op ensures ConsumesQuery(SimplifyOp(op)) == ConsumesQuery(op)
      && ConsumesReference(SimplifyOp(op)) == ConsumesReference(op)
    {
      ConsumptionByKind(op);
      ConsumptionByKind(SimplifyOp(op));
    }
    SimplifiedSums(c, ConsumesReference);
    SimplifiedSums(c, CountsForQueryOffset);
    SimplifiedSums(c, AnyOp);
  }

  /** A selector that cannot tell `=` and `X` from `M` sums the same after simplifying. */
  lemma {:induction false} SimplifiedSums(c: CigarTuples, sel: Op -> bool)
    requires forall op :: sel(SimplifyOp(op)) == sel(op)
    ensures SumWhere(Simplified(c), sel) == SumWhere(c, sel)
    decreases |c|
  {
    if c != [] {
      assert Simplified(c)[1..] == Simplified(c[1..]);
      SimplifiedSums(c[1..], sel);
    }
  }

  /** The examples of test_cigarmath.py: 30M20I passes through; 15=20X15I gives 15M20M15I,
      or 35M15I collapsed. */
  lemma SimplifyExamples()
    ensures Collapsed(Simplified([(M, 30), (I, 20)])) == [(Some(M), 30), (Some(I), 20)]
    ensures Simplified([(Eq, 15), (X, 20), (I, 15)]) == [(M, 15), (M, 20), (I, 15)]
    ensures Collapsed(Simplified([(Eq, 15), (X, 20), (I, 15)])) == [(Some(M), 35), (Some(I), 15)]
  {
    var simple := [(M, 15), (M, 20), (I, 15)];
    assert Simplified([(Eq, 15), (X, 20), (I, 15)]) == simple by {
      var r := Simplified([(Eq, 15), (X, 20), (I, 15)]);
      assert r[0] == simple[0] && r[1] == simple[1] && r[2] == simple[2];
    }
    CollapseExamples();
    SimplifyPassThrough([(M, 30), (I, 20)]);
  }

  /** 30M20I has nothing to replace and nothing to merge. */
  lemma SimplifyPassThrough(plain: CigarTuples)
    requires plain == [(M, 30), (I, 20)]
    ensures Collapsed(Simplified(plain)) == [(Some(M), 30), (Some(I), 20)]
  {
    assert Simplified(plain) == plain by {
      var r := Simplified(plain);
      assert r[0] == plain[0] && r[1] == plain[1];
    }
    var one := plain[..1];
    assert one == [(M, 30)] && one[..0] == [];
    assert Collapse(one) == one;
    assert Collapse(plain) == PushRun(Collapse(one), plain[1]);
  }
}
