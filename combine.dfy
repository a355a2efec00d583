/**
  Trimming query bases off an alignment and stitching partial alignments of one
  read together (combine.py). An alignment is a `(reference_start, cigartuples)`
  pair.
 */
module Combine {
  import opened Wrappers
  import opened Defn
  import opened Clipping
  import opened Block
  import opened Inference
  import opened CigarMath

  /** The exceptions the combiner raises. */
  datatype CombineError =
    | BadClipping      // ValueError: add_clipping is not None, 'soft' or 'hard'
    | EmptyCigar       // IndexError: an empty CIGAR indexed at [0] or [-1]
    | NotAdjacent      // AssertionError: the first alignment does not start first
    | NoAlignments     // ValueError: nothing to combine
    | QueryOverlap     // ValueError: consecutive alignments overlap too much on the read
    | NotSequential    // ValueError: consecutive alignments overlap too much on the reference

  /** A `(reference_start, cigartuples)` pair. */
  type Alignment = (int, CigarTuples)

  // ---------------------------------------------------------------------------
  // _trim

  /** What the trimming loop does with one op when `toTrim` query units are still
      to go: the ops it keeps (none, the op, or the op shortened), the units then
      still to go, and the reference shift it adds. A query op no longer than what
      is left is dropped whole; a longer one is shortened and ends the trimming; an
      op that does not consume the query is dropped while trimming is under way;
      once nothing is left to trim the op is kept as it is. */
  function TrimStep(op: Op, length: nat, toTrim: int): (seq<(Op, nat)>, int, nat) {
    if toTrim <= 0 then ([(op, length)], toTrim, 0)
    else if ConsumesQuery(op) then
      if length <= toTrim then ([], toTrim - length, RefShare(op, length))
      else
        var shortened: nat := length - toTrim;
        ([(op, shortened)], 0, RefShare(op, toTrim))
    else ([], toTrim, RefShare(op, length))
  }

  /** The reference shift an op adds when `length` of its units are dropped. */
  function RefShare(op: Op, length: nat): nat {
    if ConsumesReference(op) then length else 0
  }

  /** The trimming walk over a list of ops: each op's step, in order. */
  function TrimWalk(c: CigarTuples, toTrim: int): (CigarTuples, nat) {
    if c == [] then ([], 0)
    else
      var step := TrimStep(c[0].0, c[0].1, toTrim);
      var rest := TrimWalk(c[1..], step.1);
      (step.0 + rest.0, step.2 + rest.1)
  }

  /** Reference definition of _trim: from the start the walk runs over the ops as
      given; from the end it runs over the reversed ops and the kept ops are put back
      in their original order. */
  function Trimmed(c: CigarTuples, trimAmount: int, fromStart: bool): (CigarTuples, nat) {
    if trimAmount == 0 then (c, 0)
    else if fromStart then TrimWalk(c, trimAmount)
    else
      var w := TrimWalk(Reversed(c), trimAmount);
      (Reversed(w.0), w.1)
  }

  /** Putting an op in front of a reversed list is reversing the list with the op
      added at its end. */
  lemma {:induction false} ReversedSnoc<T>(s: seq<T>, x: T)
    ensures Reversed(s + [x]) == [x] + Reversed(s)
  {
    assert forall i :: 0 <= i < |s| + 1 ==> Reversed(s + [x])[i] == ([x] + Reversed(s))[i];
  }

  /** _trim: the loop that counts down `to_trim`, adds up `ref_pos_delta`, and appends
      kept ops (from the start) or inserts them at the front (from the end). */
  method Trim(c: CigarTuples, trimAmount: int, fromStart: bool) returns (trimmed: CigarTuples, refPosDelta: nat)
    ensures (trimmed, refPosDelta) == Trimmed(c, trimAmount, fromStart)
  {
    if trimAmount == 0 {
      return c, 0;
    }
    var newTuples: CigarTuples := [];
    refPosDelta := 0;
    var toTrim := trimAmount;
    var tuples := if fromStart then c else Reversed(c);
    ghost var target := TrimWalk(tuples, trimAmount);
    ghost var kept: CigarTuples := [];
    for i := 0 to |tuples|
      invariant fromStart ==> newTuples == kept
      invariant !fromStart ==> newTuples == Reversed(kept)
      invariant kept + TrimWalk(tuples[i..], toTrim).0 == target.0
      invariant refPosDelta + TrimWalk(tuples[i..], toTrim).1 == target.1
    {
      ghost var toTrim0, delta0, new0 := toTrim, refPosDelta, newTuples;
      newTuples, toTrim, refPosDelta := TrimOp(tuples[i].0, tuples[i].1, fromStart, newTuples, toTrim, refPosDelta);
      ghost var step := TrimStep(tuples[i].0, tuples[i].1, toTrim0);
      TrimLoopStep(tuples, i, fromStart, target, kept, new0, toTrim0, delta0, newTuples, toTrim, refPosDelta);
      kept := kept + step.0;
    }
    assert tuples[|tuples|..] == [];
    assert kept + [] == kept;
    trimmed := newTuples;
  }

  /** The body of _trim's loop for one op: skip it, shorten it, or keep it. */
  method TrimOp(op: Op, length: nat, fromStart: bool, newTuples: CigarTuples, toTrim: int, refPosDelta: nat)
    returns (newTuples': CigarTuples, toTrim': int, refPosDelta': nat)
    ensures var step := TrimStep(op, length, toTrim);
      && toTrim' == step.1 && refPosDelta' == refPosDelta + step.2
      && newTuples' == if step.0 == [] then newTuples else Extend(newTuples, step.0[0], fromStart)
  {
    newTuples', toTrim', refPosDelta' := newTuples, toTrim, refPosDelta;
    if toTrim' > 0 {
      if ConsumesQuery(op) {
        if length <= toTrim' {
          toTrim' := toTrim' - length;
          if ConsumesReference(op) {
            refPosDelta' := refPosDelta' + length;
          }
        } else {
          var newLength: nat := length - toTrim';
          newTuples' := Extend(newTuples', (op, newLength), fromStart);
          if ConsumesReference(op) {
            refPosDelta' := refPosDelta' + toTrim';
          }
          toTrim' := 0;
        }
      } else {
        if ConsumesReference(op) {
          refPosDelta' := refPosDelta' + length;
        }
      }
    } else {
      newTuples' := Extend(newTuples', (op, length), fromStart);
    }
  }

  /** extend_func: append the op when trimming from the start, insert it in front
      when trimming from the end. */
  function Extend(ts: CigarTuples, x: (Op, nat), fromStart: bool): CigarTuples {
    if fromStart then ts + [x] else [x] + ts
  }

  /** One pass of _trim's loop: the kept op, if any, is added on the side the walk
      comes from, and the amount left and the shift follow the walk's step. */
  lemma TrimLoopStep(tuples: CigarTuples, i: nat, fromStart: bool, target: (CigarTuples, nat),
                     kept: CigarTuples, new0: CigarTuples, toTrim0: int, delta0: nat,
                     newTuples: CigarTuples, toTrim: int, refPosDelta: nat)
    requires i < |tuples|
    requires fromStart ==> new0 == kept
    requires !fromStart ==> new0 == Reversed(kept)
    requires kept + TrimWalk(tuples[i..], toTrim0).0 == target.0
    requires delta0 + TrimWalk(tuples[i..], toTrim0).1 == target.1
    requires var step := TrimStep(tuples[i].0, tuples[i].1, toTrim0);
      && toTrim == step.1 && refPosDelta == delta0 + step.2
      && newTuples == if step.0 == [] then new0 else Extend(new0, step.0[0], fromStart)
    ensures var kept' := kept + TrimStep(tuples[i].0, tuples[i].1, toTrim0).0;
      && (fromStart ==> newTuples == kept')
      && (!fromStart ==> newTuples == Reversed(kept'))
      && kept' + TrimWalk(tuples[i + 1..], toTrim).0 == target.0
      && refPosDelta + TrimWalk(tuples[i + 1..], toTrim).1 == target.1
  {
    var step := TrimStep(tuples[i].0, tuples[i].1, toTrim0);
    TrimWalkStep(tuples, i, toTrim0);
    assert kept + (step.0 + TrimWalk(tuples[i + 1..], step.1).0) == (kept + step.0) + TrimWalk(tuples[i + 1..], step.1).0;
    if step.0 == [] {
      assert kept + step.0 == kept;
    } else {
      assert step.0 == [step.0[0]];
      if !fromStart {
        ReversedSnoc(kept, step.0[0]);
      }
    }
  }

  /** One step of the walk, at op `i`. */
  lemma TrimWalkStep(c: CigarTuples, i: nat, toTrim: int)
    requires i < |c|
    ensures var step := TrimStep(c[i].0, c[i].1, toTrim);
      TrimWalk(c[i..], toTrim) == (step.0 + TrimWalk(c[i + 1..], step.1).0, step.2 + TrimWalk(c[i + 1..], step.1).1)
  {
    assert c[i..][1..] == c[i + 1..];
  }

  /** Once nothing is left to trim, the walk keeps every op and shifts nothing. */
  lemma {:induction false} TrimWalkDone(c: CigarTuples, toTrim: int)
    requires toTrim <= 0
    ensures TrimWalk(c, toTrim) == (c, 0)
  {
    if c != [] {
      TrimWalkDone(c[1..], toTrim);
      assert [c[0]] + c[1..] == c;
    }
  }

  /** Sums over a list that starts with a given run. */
  lemma SumWhereCons(x: (Op, nat), s: CigarTuples, sel: Op -> bool)
    ensures SumWhere([x] + s, sel) == (if sel(x.0) then x.1 else 0) + SumWhere(s, sel)
  {
    assert ([x] + s)[1..] == s;
  }

  /** The walk takes exactly `toTrim` query units off the front, or all of them when
      there are fewer. */
  lemma {:induction false} TrimWalkQuery(c: CigarTuples, toTrim: int)
    requires toTrim >= 0
    ensures var q := InferredQuerySequenceLength(c);
      InferredQuerySequenceLength(TrimWalk(c, toTrim).0) == if toTrim <= q then q - toTrim else 0
  {
    if c != [] && toTrim > 0 {
      var x := c[0];
      var step := TrimStep(x.0, x.1, toTrim);
      TrimWalkQuery(c[1..], step.1);
      SumWhereCons(x, c[1..], ConsumesQuery);
      assert [x] + c[1..] == c;
      SumWhereAppend(step.0, TrimWalk(c[1..], step.1).0, ConsumesQuery);
      if ConsumesQuery(x.0) && x.1 > toTrim {
        SumWhereCons(step.0[0], c[1..], ConsumesQuery);
        assert step.0 + c[1..] == [step.0[0]] + c[1..];
        TrimWalkDone(c[1..], 0);
      }
    } else if c != [] {
      TrimWalkDone(c, toTrim);
    }
  }

  /** The shift is the reference length the trimming removed. */
  lemma {:induction false} TrimWalkShift(c: CigarTuples, toTrim: int)
    ensures TrimWalk(c, toTrim).1 == ReferenceOffset(c) - ReferenceOffset(TrimWalk(c, toTrim).0)
  {
    if c != [] && toTrim > 0 {
      var x := c[0];
      var step := TrimStep(x.0, x.1, toTrim);
      TrimWalkShift(c[1..], step.1);
      SumWhereCons(x, c[1..], ConsumesReference);
      assert [x] + c[1..] == c;
      SumWhereAppend(step.0, TrimWalk(c[1..], step.1).0, ConsumesReference);
      if ConsumesQuery(x.0) && x.1 > toTrim {
        SumWhereCons(step.0[0], [], ConsumesReference);
        TrimWalkDone(c[1..], 0);
      }
    } else if c != [] {
      TrimWalkDone(c, toTrim);
    }
  }

  /** Asking for more query units than there are drops every op, and the shift is
      then the whole reference length. */
  lemma {:induction false} TrimWalkEverything(c: CigarTuples, toTrim: int)
    requires toTrim > InferredQuerySequenceLength(c)
    ensures TrimWalk(c, toTrim) == ([], ReferenceOffset(c))
  {
    if c != [] {
      var x := c[0];
      SumWhereCons(x, c[1..], ConsumesQuery);
      SumWhereCons(x, c[1..], ConsumesReference);
      assert [x] + c[1..] == c;
      var step := TrimStep(x.0, x.1, toTrim);
      assert step.0 == [] && step.2 == RefShare(x.0, x.1);
      TrimWalkEverything(c[1..], step.1);
      assert TrimWalk(c, toTrim) == (step.0 + TrimWalk(c[1..], step.1).0, step.2 + TrimWalk(c[1..], step.1).1);
      assert step.0 + TrimWalk(c[1..], step.1).0 == [];
      assert ReferenceOffset(c) == RefShare(x.0, x.1) + ReferenceOffset(c[1..]);
    }
  }

  /** What the walk keeps is a tail of the input whose first op may be shortened:
      every op before it is dropped, and at most one op is split. */
  predicate TailWithSplit(c: CigarTuples, r: CigarTuples) {
    exists k: nat :: k <= |c| && SplitTailAt(c, r, k)
  }

  /** `r` is the tail of `c` from `k`, or that tail with its first op shortened. */
  predicate SplitTailAt(c: CigarTuples, r: CigarTuples, k: nat) {
    k <= |c| && (r == c[k..] ||
      (k < |c| && r != [] && r[0].0 == c[k].0 && 0 < r[0].1 < c[k].1 && r[1..] == c[k + 1..]))
  }

  lemma {:induction false} TrimWalkShape(c: CigarTuples, toTrim: int)
    requires PositiveLengths(c)
    ensures TailWithSplit(c, TrimWalk(c, toTrim).0)
  {
    var k := TrimWalkTail(c, toTrim);
  }

  /** The walk's result as a tail of the input, with the position where it starts. */
  lemma {:induction false} TrimWalkTail(c: CigarTuples, toTrim: int) returns (k: nat)
    requires PositiveLengths(c)
    ensures SplitTailAt(c, TrimWalk(c, toTrim).0, k)
  {
    if c == [] {
      k := 0;
      assert c[0..] == c;
    } else if toTrim <= 0 {
      TrimWalkDone(c, toTrim);
      k := 0;
      assert c[0..] == c;
    } else {
      var x := c[0];
      var step := TrimStep(x.0, x.1, toTrim);
      if ConsumesQuery(x.0) && x.1 > toTrim {
        TrimWalkFirst(c, toTrim);
        k := 0;
        assert TrimWalk(c, toTrim).0[1..] == c[1..];
      } else {
        assert step.0 == [];
        PositiveTail(c);
        var j := TrimWalkTail(c[1..], step.1);
        assert TrimWalk(c, toTrim).0 == TrimWalk(c[1..], step.1).0;
        SplitTailShift(c, TrimWalk(c, toTrim).0, j);
        k := j + 1;
      }
    }
  }

  lemma PositiveTail(c: CigarTuples)
    requires c != [] && PositiveLengths(c)
    ensures PositiveLengths(c[1..])
  {
    assert forall i :: 0 <= i < |c| - 1 ==> c[1..][i] == c[i + 1];
  }

  /** A split tail of `c[1..]` from `j` is a split tail of `c` from `j + 1`. */
  lemma SplitTailShift(c: CigarTuples, r: CigarTuples, j: nat)
    requires c != [] && SplitTailAt(c[1..], r, j)
    ensures SplitTailAt(c, r, j + 1)
  {
    assert c[1..][j..] == c[j + 1..];
    if j < |c| - 1 {
      assert c[1..][j] == c[j + 1] && c[1..][j + 1..] == c[j + 2..];
    }
  }

  /** No op of length zero comes out of a CIGAR without one. */
  lemma {:induction false} TrimWalkPositive(c: CigarTuples, toTrim: int)
    requires PositiveLengths(c)
    ensures PositiveLengths(TrimWalk(c, toTrim).0)
  {
    if c != [] {
      var x := c[0];
      var step := TrimStep(x.0, x.1, toTrim);
      assert PositiveLengths(c[1..]) by {
        assert forall i :: 0 <= i < |c| - 1 ==> c[1..][i] == c[i + 1];
      }
      TrimWalkPositive(c[1..], step.1);
      var rest := TrimWalk(c[1..], step.1).0;
      assert forall i :: 0 <= i < |step.0 + rest| ==> (step.0 + rest)[i] == if i < |step.0| then step.0[i] else rest[i - |step.0|];
    }
  }

  /** Filtered sums do not depend on the order of the ops. */
  lemma {:induction false} SumWhereReversed(s: CigarTuples, sel: Op -> bool)
    ensures SumWhere(Reversed(s), sel) == SumWhere(s, sel)
  {
    if s != [] {
      SumWhereReversed(s[1..], sel);
      SumWhereAppend(Reversed(s[1..]), [s[0]], sel);
      SumWhereCons(s[0], s[1..], sel);
      assert [s[0]] + s[1..] == s;
    }
  }

  /** A tail of the reversed list, reversed back, is a head of the list. */
  lemma {:induction false} ReversedTail<T>(s: seq<T>, k: nat)
    requires k <= |s|
    ensures Reversed(Reversed(s)[k..]) == s[..|s| - k]
  {
    var r := Reversed(s);
    var t := r[k..];
    forall i | 0 <= i < |s| - k
      ensures Reversed(t)[i] == s[i]
    {
      assert Reversed(t)[i] == t[|t| - 1 - i];
      assert t[|t| - 1 - i] == r[k + |t| - 1 - i];
    }
  }

  /** Dropping the first element and reversing is reversing and dropping the last. */
  lemma {:induction false} ReversedRest<T>(w: seq<T>)
    requires w != []
    ensures Reversed(w[1..]) == Reversed(w)[..|w| - 1]
  {
    assert forall i :: 0 <= i < |w| - 1 ==> Reversed(w[1..])[i] == Reversed(w)[i];
  }

  /** What a trim from the end keeps: a head of the input whose last op may be
      shortened. */
  predicate HeadWithSplit(c: CigarTuples, r: CigarTuples) {
    exists k: nat :: k <= |c| && KeptHead(c, r, k)
  }

  /** `r` is the first `k` ops of `c`, the last of them possibly shortened. */
  predicate KeptHead(c: CigarTuples, r: CigarTuples, k: nat) {
    k <= |c| && (r == c[..k] ||
      (0 < k && r != [] && r[|r| - 1].0 == c[k - 1].0 && 0 < r[|r| - 1].1 < c[k - 1].1 && r[..|r| - 1] == c[..k - 1]))
  }

  /** Reversal keeps every length. */
  lemma {:induction false} ReversedPositive(c: CigarTuples)
    ensures PositiveLengths(c) <==> PositiveLengths(Reversed(c))
  {
    assert forall i :: 0 <= i < |c| ==> Reversed(c)[|c| - 1 - i] == c[i];
  }

  /** _trim with nothing (or less) to trim keeps the CIGAR and shifts nothing. */
  lemma TrimmedNothing(c: CigarTuples, trimAmount: int, fromStart: bool)
    requires trimAmount <= 0
    ensures Trimmed(c, trimAmount, fromStart) == (c, 0)
  {
    TrimWalkDone(c, trimAmount);
    TrimWalkDone(Reversed(c), trimAmount);
    ReversedTwice(c);
  }

  /** _trim takes exactly `trimAmount` query units off the chosen end, or all of them
      when there are fewer, and its shift is the reference length it removed. */
  lemma TrimmedCounts(c: CigarTuples, trimAmount: int, fromStart: bool)
    requires trimAmount >= 0
    ensures var q := InferredQuerySequenceLength(c);
      var t := Trimmed(c, trimAmount, fromStart);
      && InferredQuerySequenceLength(t.0) == (if trimAmount <= q then q - trimAmount else 0)
      && t.1 == ReferenceOffset(c) - ReferenceOffset(t.0)
  {
    if trimAmount > 0 {
      var r := Reversed(c);
      TrimWalkQuery(c, trimAmount);
      TrimWalkShift(c, trimAmount);
      TrimWalkQuery(r, trimAmount);
      TrimWalkShift(r, trimAmount);
      SumWhereReversed(c, ConsumesQuery);
      SumWhereReversed(c, ConsumesReference);
      SumWhereReversed(TrimWalk(r, trimAmount).0, ConsumesQuery);
      SumWhereReversed(TrimWalk(r, trimAmount).0, ConsumesReference);
    }
  }

  /** Asking for more query units than the CIGAR has drops every op. */
  lemma TrimmedEverything(c: CigarTuples, trimAmount: int, fromStart: bool)
    requires trimAmount > InferredQuerySequenceLength(c)
    ensures Trimmed(c, trimAmount, fromStart) == ([], ReferenceOffset(c))
  {
    TrimWalkEverything(c, trimAmount);
    SumWhereReversed(c, ConsumesQuery);
    SumWhereReversed(c, ConsumesReference);
    TrimWalkEverything(Reversed(c), trimAmount);
  }

  /** _trim splits at most one op, keeps the untouched ops in order, and makes no
      op of length zero. */
  lemma TrimmedShape(c: CigarTuples, trimAmount: int, fromStart: bool)
    requires PositiveLengths(c)
    ensures var t := Trimmed(c, trimAmount, fromStart).0;
      && PositiveLengths(t)
      && (fromStart ==> TailWithSplit(c, t))
      && (!fromStart ==> HeadWithSplit(c, t))
  {
    var t := Trimmed(c, trimAmount, fromStart).0;
    if trimAmount == 0 {
      assert c[0..] == c && KeptHead(c, c, |c|);
      assert SplitTailAt(c, c, 0);
    } else if fromStart {
      var k := TrimWalkTail(c, trimAmount);
      TrimWalkPositive(c, trimAmount);
    } else {
      var r := Reversed(c);
      ReversedPositive(c);
      var k := TrimWalkTail(r, trimAmount);
      TrimWalkPositive(r, trimAmount);
      var w := TrimWalk(r, trimAmount).0;
      ReversedPositive(w);
      assert t == Reversed(w);
      ReversedSplitTail(c, w, k);
    }
  }

  /** Reversing a split tail of the reversed ops gives a split head of the ops. */
  lemma ReversedSplitTail(c: CigarTuples, w: CigarTuples, k: nat)
    requires SplitTailAt(Reversed(c), w, k)
    ensures HeadWithSplit(c, Reversed(w))
  {
    var r, t := Reversed(c), Reversed(w);
    if w == r[k..] {
      ReversedTail(c, k);
      assert KeptHead(c, t, |c| - k);
    } else {
      ReversedRest(w);
      ReversedTail(c, k + 1);
      assert t[..|t| - 1] == c[..|c| - k - 1];
      assert t[|t| - 1] == w[0];
      assert r[k] == c[|c| - k - 1];
      assert KeptHead(c, t, |c| - k);
    }
  }

  // ---------------------------------------------------------------------------
  // trim_alignment

  /** The clipping modes trim_alignment accepts: none, 'soft' or 'hard'. */
  predicate ValidClipping(addClipping: Option<string>) {
    addClipping == None || addClipping == Some("soft") || addClipping == Some("hard")
  }

  /** Reference definition of trim_alignment: trim `left` query units off the start
      and then, when `right` is positive, `right` off the end; then, if a clipping
      mode is given, put back a clip of each positive trim length. The start moves by
      the left trim's shift. */
  function TrimmedAlignment(refStart: int, c: CigarTuples, left: int, right: int, addClipping: Option<string>)
    : Result<Alignment, CombineError>
  {
    if left == 0 && right == 0 then Ok((refStart, c))
    else if !ValidClipping(addClipping) then Err(BadClipping)
    else
      var leftTrim := Trimmed(c, left, true);
      var trimmed := if right > 0 then Trimmed(leftTrim.0, right, false).0 else leftTrim.0;
      var clipOp := if addClipping == Some("soft") then S else H;
      var clipped :=
        if addClipping.Some? then ClipRun(clipOp, left) + trimmed + ClipRun(clipOp, right)
        else trimmed;
      Ok((refStart + leftTrim.1, clipped))
  }

  /** The clip put back for a trim of `n` units: none unless `n` is positive. */
  function ClipRun(clipOp: Op, n: int): CigarTuples {
    if n > 0 then [(clipOp, n)] else []
  }

  /** trim_alignment. */
  method TrimAlignment(refStart: int, c: CigarTuples, left: int, right: int, addClipping: Option<string>)
    returns (r: Result<Alignment, CombineError>)
    ensures r == TrimmedAlignment(refStart, c, left, right, addClipping)
  {
    if left == 0 && right == 0 {
      return Ok((refStart, c));
    }
    if !ValidClipping(addClipping) {
      return Err(BadClipping);
    }
    var trimmedCigars, refDelta := Trim(c, left, true);
    if right > 0 {
      var rightDelta;
      trimmedCigars, rightDelta := Trim(trimmedCigars, right, false);
    }
    if addClipping.Some? {
      var clipOp := if addClipping == Some("soft") then S else H;
      var result: CigarTuples := [];
      if left > 0 {
        result := result + [(clipOp, left)];
      }
      assert result == ClipRun(clipOp, left);
      result := result + trimmedCigars;
      if right > 0 {
        result := result + [(clipOp, right)];
      } else {
        assert result + [] == result;
      }
      assert result == ClipRun(clipOp, left) + trimmedCigars + ClipRun(clipOp, right);
      trimmedCigars := result;
    }
    return Ok((refStart + refDelta, trimmedCigars));
  }

  /** trim_alignment fails exactly when there is something to trim and the clipping
      mode is unknown; with nothing to trim it returns its input, whatever the mode. */
  lemma TrimAlignmentOutcome(refStart: int, c: CigarTuples, left: int, right: int, addClipping: Option<string>)
    ensures var r := TrimmedAlignment(refStart, c, left, right, addClipping);
      && (r.Err? <==> (left != 0 || right != 0) && !ValidClipping(addClipping))
      && (r.Err? ==> r.error == BadClipping)
      && (left == 0 && right == 0 ==> r == Ok((refStart, c)))
  {
  }

  /** The new start is the old one moved by the reference length the left trim
      removed; a trim from the right alone never moves it. */
  lemma TrimAlignmentStart(refStart: int, c: CigarTuples, left: int, right: int, addClipping: Option<string>)
    requires TrimmedAlignment(refStart, c, left, right, addClipping).Ok?
    ensures var s := TrimmedAlignment(refStart, c, left, right, addClipping).value.0;
      && (left >= 0 ==> s == refStart + ReferenceOffset(c) - ReferenceOffset(Trimmed(c, left, true).0))
      && (left <= 0 ==> s == refStart)
  {
    if left >= 0 {
      TrimmedCounts(c, left, true);
    }
    if left <= 0 {
      TrimmedNothing(c, left, true);
    }
  }

  /** With both trims within the read, the trimmed alignment has `left + right` fewer
      query units, unless soft clips put them back. */
  lemma TrimAlignmentQueryLength(refStart: int, c: CigarTuples, left: int, right: int, addClipping: Option<string>)
    requires ValidClipping(addClipping)
    requires 0 <= left && 0 <= right && left + right <= InferredQuerySequenceLength(c)
    ensures var r := TrimmedAlignment(refStart, c, left, right, addClipping);
      && r.Ok?
      && InferredQuerySequenceLength(r.value.1) ==
        InferredQuerySequenceLength(c) - (if addClipping == Some("soft") then 0 else left + right)
  {
    var q := InferredQuerySequenceLength(c);
    if left != 0 || right != 0 {
      var leftTrim := Trimmed(c, left, true);
      TrimmedCounts(c, left, true);
      var trimmed := if right > 0 then Trimmed(leftTrim.0, right, false).0 else leftTrim.0;
      if right > 0 {
        TrimmedCounts(leftTrim.0, right, false);
      }
      assert InferredQuerySequenceLength(trimmed) == q - left - right;
      if addClipping.Some? {
        var clipOp := if addClipping == Some("soft") then S else H;
        InferredLengthsAdditive(ClipRun(clipOp, left), trimmed);
        InferredLengthsAdditive(ClipRun(clipOp, left) + trimmed, ClipRun(clipOp, right));
        ClipRunLengths(clipOp, left);
        ClipRunLengths(clipOp, right);
      }
    }
  }

  /** A clipping mode puts one clip of the trimmed length at each end that was trimmed,
      and nothing at an end that was not. */
  lemma TrimAlignmentClips(refStart: int, c: CigarTuples, left: int, right: int, mode: string)
    requires left != 0 || right != 0
    requires mode == "soft" || mode == "hard"
    ensures var r := TrimmedAlignment(refStart, c, left, right, Some(mode)).value.1;
      var clipOp := if mode == "soft" then S else H;
      var trimmed := TrimmedAlignment(refStart, c, left, right, None).value.1;
      && |r| == |trimmed| + (if left > 0 then 1 else 0) + (if right > 0 then 1 else 0)
      && (left > 0 ==> r[0] == (clipOp, left) && r[1..|trimmed| + 1] == trimmed)
      && (left <= 0 ==> r[..|trimmed|] == trimmed)
      && (right > 0 ==> r[|r| - 1] == (clipOp, right))
  {
  }

  /** A clip covers no reference; on the read only a soft clip counts. */
  lemma ClipRunLengths(clipOp: Op, n: int)
    requires IsClip(clipOp)
    ensures InferredQuerySequenceLength(ClipRun(clipOp, n)) == if clipOp == S && n > 0 then n else 0
    ensures ReferenceOffset(ClipRun(clipOp, n)) == 0
  {
    ConsumptionByKind(clipOp);
    if n > 0 {
      SumWhereCons((clipOp, n), [], ConsumesQuery);
      SumWhereCons((clipOp, n), [], ConsumesReference);
      assert [(clipOp, n)] + [] == [(clipOp, n)];
    }
  }

  /** A walk whose first step uses up the whole amount keeps the rest as it is. */
  lemma TrimWalkFirst(c: CigarTuples, toTrim: int)
    requires c != [] && TrimStep(c[0].0, c[0].1, toTrim).1 <= 0
    ensures var step := TrimStep(c[0].0, c[0].1, toTrim);
      TrimWalk(c, toTrim) == (step.0 + c[1..], step.2)
  {
    TrimWalkDone(c[1..], TrimStep(c[0].0, c[0].1, toTrim).1);
  }

  /** 5M1D3M less 2 units from the left is 3M1D3M, 2 reference positions on. */
  lemma TrimDeletionFromLeft(c: CigarTuples)
    requires c == [(M, 5), (D, 1), (M, 3)]
    ensures Trimmed(c, 2, true) == ([(M, 3), (D, 1), (M, 3)], 2)
  {
    ConsumptionByKind(M);
    assert TrimStep(M, 5, 2) == ([(M, 3)], 0, 2);
    TrimWalkFirst(c, 2);
    assert [(M, 3)] + c[1..] == [(M, 3), (D, 1), (M, 3)];
  }

  /** 5M1D3M less 2 units from the right is 5M1D1M. */
  lemma TrimDeletionFromRight(c: CigarTuples)
    requires c == [(M, 5), (D, 1), (M, 3)]
    ensures Trimmed(c, 2, false).0 == [(M, 5), (D, 1), (M, 1)]
  {
    ConsumptionByKind(M);
    var rc: CigarTuples := [(M, 3), (D, 1), (M, 5)];
    assert Reversed(c) == rc;
    assert TrimStep(M, 3, 2) == ([(M, 1)], 0, 2);
    TrimWalkFirst(rc, 2);
    assert [(M, 1)] + rc[1..] == [(M, 1), (D, 1), (M, 5)];
    assert Reversed([(M, 1), (D, 1), (M, 5)]) == [(M, 5), (D, 1), (M, 1)];
  }

  /** 3M1D3M less 2 or 1 units from the right is 3M1D1M or 3M1D2M. */
  lemma TrimDeletionKeptFromRight(c: CigarTuples)
    requires c == [(M, 3), (D, 1), (M, 3)]
    ensures Trimmed(c, 2, false).0 == [(M, 3), (D, 1), (M, 1)]
    ensures Trimmed(c, 1, false).0 == [(M, 3), (D, 1), (M, 2)]
  {
    ConsumptionByKind(M);
    assert Reversed(c) == c;
    assert TrimStep(M, 3, 2) == ([(M, 1)], 0, 2);
    assert TrimStep(M, 3, 1) == ([(M, 2)], 0, 1);
    TrimWalkFirst(c, 2);
    TrimWalkFirst(c, 1);
    assert [(M, 1)] + c[1..] == [(M, 1), (D, 1), (M, 3)];
    assert [(M, 2)] + c[1..] == [(M, 2), (D, 1), (M, 3)];
    assert Reversed([(M, 1), (D, 1), (M, 3)]) == [(M, 3), (D, 1), (M, 1)];
    assert Reversed([(M, 2), (D, 1), (M, 3)]) == [(M, 3), (D, 1), (M, 2)];
  }

  /** The worked examples of trim_alignment on 5M1D3M at 10 without clips: from the
      left, the right and both ends. */
  lemma TrimAlignmentExamplesDeletion(c: CigarTuples)
    requires c == [(M, 5), (D, 1), (M, 3)]
    ensures TrimmedAlignment(10, c, 2, 0, None) == Ok((12, [(M, 3), (D, 1), (M, 3)]))
    ensures TrimmedAlignment(10, c, 0, 2, None) == Ok((10, [(M, 5), (D, 1), (M, 1)]))
    ensures TrimmedAlignment(10, c, 2, 2, None) == Ok((12, [(M, 3), (D, 1), (M, 1)]))
  {
    TrimDeletionFromLeft(c);
    TrimDeletionFromRight(c);
    TrimDeletionKeptFromRight([(M, 3), (D, 1), (M, 3)]);
  }

  /** The same alignment trimmed at both ends with soft or hard clips, or with an
      unknown clipping mode. */
  lemma TrimAlignmentExamplesClipped(c: CigarTuples)
    requires c == [(M, 5), (D, 1), (M, 3)]
    ensures TrimmedAlignment(10, c, 2, 1, Some("soft")) == Ok((12, [(S, 2), (M, 3), (D, 1), (M, 2), (S, 1)]))
    ensures TrimmedAlignment(10, c, 2, 2, Some("soft")) == Ok((12, [(S, 2), (M, 3), (D, 1), (M, 1), (S, 2)]))
    ensures TrimmedAlignment(10, c, 2, 2, Some("hard")) == Ok((12, [(H, 2), (M, 3), (D, 1), (M, 1), (H, 2)]))
    ensures TrimmedAlignment(10, c, 2, 0, Some("invalid")) == Err(BadClipping)
  {
    TrimDeletionFromLeft(c);
    TrimDeletionKeptFromRight([(M, 3), (D, 1), (M, 3)]);
    assert ClipRun(S, 2) + [(M, 3), (D, 1), (M, 2)] + ClipRun(S, 1) == [(S, 2), (M, 3), (D, 1), (M, 2), (S, 1)];
    assert ClipRun(S, 2) + [(M, 3), (D, 1), (M, 1)] + ClipRun(S, 2) == [(S, 2), (M, 3), (D, 1), (M, 1), (S, 2)];
    assert ClipRun(H, 2) + [(M, 3), (D, 1), (M, 1)] + ClipRun(H, 2) == [(H, 2), (M, 3), (D, 1), (M, 1), (H, 2)];
  }

  /** Trimming 6 units off the left of 5M2I3M drops the match and one insertion;
      trimming nothing returns the alignment as given. */
  lemma TrimAlignmentExampleInsertion()
    ensures TrimmedAlignment(10, [(M, 5), (I, 2), (M, 3)], 6, 0, None) == Ok((15, [(I, 1), (M, 3)]))
    ensures TrimmedAlignment(10, [(M, 5), (I, 2), (M, 3)], 0, 0, None) == Ok((10, [(M, 5), (I, 2), (M, 3)]))
  {
    ConsumptionByKind(M);
    ConsumptionByKind(I);
    var c: CigarTuples := [(M, 5), (I, 2), (M, 3)];
    TrimWalkDone(c[2..], 0);
    assert c[2..] == [(M, 3)];
    assert c[1..][1..] == c[2..];
    assert TrimStep(I, 2, 1) == ([(I, 1)], 0, 0);
    assert [(I, 1)] + c[2..] == [(I, 1), (M, 3)];
    assert TrimWalk(c[1..], 1) == ([(I, 1), (M, 3)], 0);
    assert TrimStep(M, 5, 6) == ([], 1, 5);
    var none: CigarTuples := [];
    assert none + [(I, 1), (M, 3)] == [(I, 1), (M, 3)];
    assert TrimWalk(c, 6) == ([(I, 1), (M, 3)], 5);
  }

  /** The alignment 10M3I3M2D6M at 0 of the tests. */
  function SpanningExample(): CigarTuples {
    [(M, 10), (I, 3), (M, 3), (D, 2), (M, 6)]
  }

  /** Trimming 12, 15 and 18 units off the left of 10M3I3M2D6M at 0, across several ops. */
  lemma TrimAlignmentExamplesSpanning()
    ensures TrimmedAlignment(0, SpanningExample(), 12, 0, None) == Ok((10, [(I, 1), (M, 3), (D, 2), (M, 6)]))
    ensures TrimmedAlignment(0, SpanningExample(), 15, 0, None) == Ok((12, [(M, 1), (D, 2), (M, 6)]))
    ensures TrimmedAlignment(0, SpanningExample(), 18, 0, None) == Ok((17, [(M, 4)]))
  {
    ConsumptionByKind(M);
    ConsumptionByKind(I);
    ConsumptionByKind(D);
    var c := SpanningExample();
    var none: CigarTuples := [];
    assert c[1..][1..] == c[2..] && c[2..][1..] == c[3..] && c[3..][1..] == c[4..] && |c[4..]| == 1;
    assert c[2..] == [(M, 3), (D, 2), (M, 6)];
    assert c[3..] == [(D, 2), (M, 6)];
    assert c[4..] == [(M, 6)];
    // 12 units: 10M goes, 2 of the 3I go
    TrimWalkDone(c[2..], 0);
    assert TrimStep(I, 3, 2) == ([(I, 1)], 0, 0);
    assert [(I, 1)] + c[2..] == [(I, 1), (M, 3), (D, 2), (M, 6)];
    assert TrimWalk(c[1..], 2) == ([(I, 1), (M, 3), (D, 2), (M, 6)], 0);
    assert TrimStep(M, 10, 12) == ([], 2, 10);
    assert none + [(I, 1), (M, 3), (D, 2), (M, 6)] == [(I, 1), (M, 3), (D, 2), (M, 6)];
    assert TrimWalk(c, 12) == ([(I, 1), (M, 3), (D, 2), (M, 6)], 10);
    // 15 units: then 2 of the 3M
    TrimWalkDone(c[3..], 0);
    assert TrimStep(M, 3, 2) == ([(M, 1)], 0, 2);
    assert [(M, 1)] + c[3..] == [(M, 1), (D, 2), (M, 6)];
    assert TrimWalk(c[2..], 2) == ([(M, 1), (D, 2), (M, 6)], 2);
    assert TrimStep(I, 3, 5) == ([], 2, 0);
    assert none + [(M, 1), (D, 2), (M, 6)] == [(M, 1), (D, 2), (M, 6)];
    assert TrimWalk(c[1..], 5) == ([(M, 1), (D, 2), (M, 6)], 2);
    assert TrimWalk(c, 15) == ([(M, 1), (D, 2), (M, 6)], 12);
    // 18 units: all of 3M, the 2D, and 2 of the 6M
    TrimWalkDone([], 0);
    assert TrimStep(M, 6, 2) == ([(M, 4)], 0, 2);
    assert [(M, 4)] + [] == [(M, 4)];
    assert TrimWalk(c[4..], 2) == ([(M, 4)], 2);
    assert TrimStep(D, 2, 2) == ([], 2, 2);
    assert none + [(M, 4)] == [(M, 4)];
    assert TrimWalk(c[3..], 2) == ([(M, 4)], 4);
    assert TrimWalk(c[2..], 5) == ([(M, 4)], 7);
    assert TrimWalk(c[1..], 8) == ([(M, 4)], 7);
    assert TrimWalk(c, 18) == ([(M, 4)], 17);
  }

  // ---------------------------------------------------------------------------
  // combine_adjacent_alignments

  /** The ops of two declipped alignments joined as combine_adjacent_alignments joins
      them, before the merge of neighbouring runs: a deletion fills a reference gap
      between the first's end and the second's start; on an overlap the second loses
      as many query units off its start as the overlap is long. Both blocks are
      taken of each CIGAR on an overlap, so an empty one fails there. */
  function Joined(firstStart: int, firstCigars: CigarTuples, secondStart: int, secondCigars: CigarTuples)
    : Result<CigarTuples, CombineError>
  {
    var gapSize := secondStart - (firstStart + ReferenceOffset(firstCigars));
    if gapSize > 0 then Ok(firstCigars + [(D, gapSize)] + secondCigars)
    else if gapSize < 0 then
      if firstCigars == [] || secondCigars == [] then Err(EmptyCigar)
      else Ok(firstCigars + Trimmed(secondCigars, -gapSize, true).0)
    else Ok(firstCigars + secondCigars)
  }

  /** Reference definition of combine_adjacent_alignments: both CIGARs are declipped
      (an empty one cannot be), the first must start first, and the joined ops are
      merged into runs. The result keeps the first's start. */
  function CombinedAdjacent(first: Alignment, second: Alignment): Result<Alignment, CombineError> {
    if first.1 == [] || second.1 == [] then Err(EmptyCigar)
    else if !(first.0 < second.0) then Err(NotAdjacent)
    else
      match Joined(first.0, Declip(first.1), second.0, Declip(second.1))
      case Err(e) => Err(e)
      case Ok(j) => Ok((first.0, Collapse(j)))
  }

  /** The runs of a collapse_adjacent_blocks result that holds no degenerate block. */
  function Unlift(b: seq<(Option<Op>, nat)>): (c: CigarTuples)
    requires forall i :: 0 <= i < |b| ==> b[i].0.Some?
    ensures Lift(c) == b
  {
    seq(|b|, i requires 0 <= i < |b| => (b[i].0.value, b[i].1))
  }

  /** trim_alignment with a left trim only and no clipping mode is _trim from the start. */
  lemma TrimAlignmentLeftOnly(refStart: int, c: CigarTuples, left: int)
    requires left > 0
    ensures TrimmedAlignment(refStart, c, left, 0, None) ==
      Ok((refStart + Trimmed(c, left, true).1, Trimmed(c, left, true).0))
  {
  }

  /** With the first alignment starting first, the joined ops are never empty: a gap
      adds a deletion, an overlap needs a non-empty first CIGAR, and no gap means the
      first covers some reference. */
  lemma JoinedNotEmpty(firstStart: int, firstCigars: CigarTuples, secondStart: int, secondCigars: CigarTuples)
    requires firstStart < secondStart
    requires Joined(firstStart, firstCigars, secondStart, secondCigars).Ok?
    ensures Joined(firstStart, firstCigars, secondStart, secondCigars).value != []
  {
    if secondStart - (firstStart + ReferenceOffset(firstCigars)) == 0 {
      assert ReferenceOffset(firstCigars) > 0;
    }
  }

  /** combine_adjacent_alignments. */
  method CombineAdjacent(first: Alignment, second: Alignment) returns (r: Result<Alignment, CombineError>)
    ensures r == CombinedAdjacent(first, second)
  {
    if first.1 == [] || second.1 == [] {
      return Err(EmptyCigar);
    }
    var firstStart, firstCigars := first.0, Declip(first.1);
    var secondStart, secondCigars := second.0, Declip(second.1);
    if !(firstStart < secondStart) {
      return Err(NotAdjacent);
    }
    var firstRef := ReferenceBlock(firstCigars, firstStart);
    var gapSize := secondStart - firstRef.1;
    var combinedCigars: CigarTuples;
    if gapSize > 0 {
      combinedCigars := firstCigars + [(D, gapSize)] + secondCigars;
    } else if gapSize < 0 {
      if firstCigars == [] || secondCigars == [] {
        return Err(EmptyCigar);
      }
      var overlap := -gapSize;
      var trimmed := TrimAlignment(secondStart, secondCigars, overlap, 0, None);
      TrimAlignmentLeftOnly(secondStart, secondCigars, overlap);
      combinedCigars := firstCigars + trimmed.value.1;
    } else {
      combinedCigars := firstCigars + secondCigars;
    }
    assert Joined(firstStart, firstCigars, secondStart, secondCigars) == Ok(combinedCigars);
    JoinedNotEmpty(firstStart, firstCigars, secondStart, secondCigars);
    var blocks := CollapseAdjacentBlocks(combinedCigars);
    r := Ok((firstStart, Unlift(blocks)));
    assert Lift(Unlift(blocks)) == Lift(Collapse(combinedCigars));
    assert Unlift(blocks) == Collapse(combinedCigars);
  }

  /** combine_adjacent_alignments fails with IndexError exactly when a CIGAR is
      empty, or when the alignments overlap on the reference and one declips to
      nothing; with AssertionError exactly when the second does not start after the
      first; and otherwise succeeds. */
  lemma CombineAdjacentOutcome(first: Alignment, second: Alignment)
    ensures var r := CombinedAdjacent(first, second);
      && (r == Err(NotAdjacent) <==> first.1 != [] && second.1 != [] && first.0 >= second.0)
      && (r == Err(EmptyCigar) <==>
        first.1 == [] || second.1 == [] ||
        (first.0 < second.0 && second.0 < first.0 + ReferenceOffset(Declip(first.1)) &&
         (Declip(first.1) == [] || Declip(second.1) == [])))
      && (r.Err? ==> r.error == NotAdjacent || r.error == EmptyCigar)
  {
    if first.1 != [] && Declip(first.1) == [] {
      assert ReferenceOffset(Declip(first.1)) == 0;
    }
  }

  /** A combined alignment keeps the first's start, is never empty, has no two
      neighbouring runs of one kind, and is what collapse_adjacent_blocks yields for
      the joined ops, because those are never empty. */
  lemma CombineAdjacentShape(first: Alignment, second: Alignment)
    requires CombinedAdjacent(first, second).Ok?
    ensures var r := CombinedAdjacent(first, second).value;
      var j := Joined(first.0, Declip(first.1), second.0, Declip(second.1)).value;
      && r.0 == first.0
      && r.1 != []
      && NoAdjacentSame(r.1)
      && Collapsed(j) == Lift(r.1)
  {
    var j := Joined(first.0, Declip(first.1), second.0, Declip(second.1)).value;
    JoinedNotEmpty(first.0, Declip(first.1), second.0, Declip(second.1));
    CollapseShape(j);
    CollapseNoAdjacentSame(j);
  }

  /** Every filtered sum of the merged runs adds up over the joined parts. */
  lemma CollapsedSumOfJoin(a: CigarTuples, b: CigarTuples, sel: Op -> bool)
    ensures SumWhere(Collapse(a + b), sel) == SumWhere(a, sel) + SumWhere(b, sel)
  {
    CollapseSumWhere(a + b, sel);
    SumWhereAppend(a, b, sel);
  }

  /** With a gap (or none), the combined alignment is the first, then one deletion per
      gap position, then the second, unit by unit; it ends on the reference where the
      second ends, and holds the query units of both. */
  lemma CombineAdjacentGap(first: Alignment, second: Alignment)
    requires CombinedAdjacent(first, second).Ok?
    requires second.0 >= first.0 + ReferenceOffset(Declip(first.1))
    ensures var r := CombinedAdjacent(first, second).value.1;
      var d1, d2 := Declip(first.1), Declip(second.1);
      var gapSize := second.0 - (first.0 + ReferenceOffset(d1));
      && Expand(r) == Expand(d1) + seq(gapSize, _ => D) + Expand(d2)
      && first.0 + ReferenceOffset(r) == second.0 + ReferenceOffset(d2)
      && InferredQuerySequenceLength(r) == InferredQuerySequenceLength(d1) + InferredQuerySequenceLength(d2)
      && QueryOffset(r) == QueryOffset(d1) + QueryOffset(d2)
  {
    var d1, d2 := Declip(first.1), Declip(second.1);
    var gapSize := second.0 - (first.0 + ReferenceOffset(d1));
    CombinedAcrossGap(first, second);
    if gapSize > 0 {
      JoinWithGapExpand(d1, d2, gapSize);
      JoinWithGapSums(d1, d2, gapSize);
    } else {
      JoinWithoutGap(d1, d2);
      assert seq(gapSize, _ => D) == [];
      assert Expand(d1) + seq(gapSize, _ => D) == Expand(d1);
    }
  }

  /** With a gap (or none) the combined ops are the merge of both declipped CIGARs,
      with a deletion run for the gap between them. */
  lemma CombinedAcrossGap(first: Alignment, second: Alignment)
    requires CombinedAdjacent(first, second).Ok?
    requires second.0 >= first.0 + ReferenceOffset(Declip(first.1))
    ensures var d1, d2 := Declip(first.1), Declip(second.1);
      var gapSize := second.0 - (first.0 + ReferenceOffset(d1));
      CombinedAdjacent(first, second).value.1 ==
        if gapSize > 0 then Collapse(d1 + [(D, gapSize)] + d2) else Collapse(d1 + d2)
  {
    var d1, d2 := Declip(first.1), Declip(second.1);
    var gapSize := second.0 - (first.0 + ReferenceOffset(d1));
    JoinedAcrossGap(first.0, d1, second.0, d2);
    var j := if gapSize > 0 then d1 + [(D, gapSize)] + d2 else d1 + d2;
    assert CombinedAdjacent(first, second) == Ok((first.0, Collapse(j)));
  }

  lemma JoinedAcrossGap(firstStart: int, firstCigars: CigarTuples, secondStart: int, secondCigars: CigarTuples)
    requires secondStart >= firstStart + ReferenceOffset(firstCigars)
    ensures var gapSize := secondStart - (firstStart + ReferenceOffset(firstCigars));
      Joined(firstStart, firstCigars, secondStart, secondCigars) ==
        Ok(if gapSize > 0 then firstCigars + [(D, gapSize)] + secondCigars else firstCigars + secondCigars)
  {
  }

  /** The units of a join across a gap: the first's, one deletion per gap position, the second's. */
  lemma JoinWithGapExpand(d1: CigarTuples, d2: CigarTuples, gapSize: nat)
    requires gapSize > 0
    ensures Expand(Collapse(d1 + [(D, gapSize)] + d2)) == Expand(d1) + seq(gapSize, _ => D) + Expand(d2)
  {
    var g: CigarTuples := [(D, gapSize)];
    CollapseExpand(d1 + g + d2);
    ExpandAppend(d1 + g, d2);
    ExpandAppend(d1, g);
    ExpandSingle(D, gapSize);
  }

  lemma ExpandSingle(op: Op, n: nat)
    ensures Expand([(op, n)]) == seq(n, _ => op)
  {
    assert [(op, n)][..0] == [];
  }

  /** The lengths of a join across a gap: the gap adds to the reference only. */
  lemma JoinWithGapSums(d1: CigarTuples, d2: CigarTuples, gapSize: nat)
    requires gapSize > 0
    ensures var r := Collapse(d1 + [(D, gapSize)] + d2);
      && ReferenceOffset(r) == ReferenceOffset(d1) + gapSize + ReferenceOffset(d2)
      && InferredQuerySequenceLength(r) == InferredQuerySequenceLength(d1) + InferredQuerySequenceLength(d2)
      && QueryOffset(r) == QueryOffset(d1) + QueryOffset(d2)
  {
    var g: CigarTuples := [(D, gapSize)];
    GapRunSums(gapSize);
    CollapsedSumOfJoin(d1 + g, d2, ConsumesReference);
    CollapsedSumOfJoin(d1 + g, d2, ConsumesQuery);
    CollapsedSumOfJoin(d1 + g, d2, CountsForQueryOffset);
    SumWhereAppend(d1, g, ConsumesReference);
    SumWhereAppend(d1, g, ConsumesQuery);
    SumWhereAppend(d1, g, CountsForQueryOffset);
  }

  /** A deletion run covers its length of reference and no query. */
  lemma GapRunSums(gapSize: nat)
    ensures SumWhere([(D, gapSize)], ConsumesReference) == gapSize
    ensures SumWhere([(D, gapSize)], ConsumesQuery) == 0
    ensures SumWhere([(D, gapSize)], CountsForQueryOffset) == 0
  {
    ConsumptionByKind(D);
    assert [(D, gapSize)][1..] == [];
  }

  /** A join without a gap: the units and the lengths of both parts. */
  lemma JoinWithoutGap(d1: CigarTuples, d2: CigarTuples)
    ensures var r := Collapse(d1 + d2);
      && Expand(r) == Expand(d1) + Expand(d2)
      && ReferenceOffset(r) == ReferenceOffset(d1) + ReferenceOffset(d2)
      && InferredQuerySequenceLength(r) == InferredQuerySequenceLength(d1) + InferredQuerySequenceLength(d2)
      && QueryOffset(r) == QueryOffset(d1) + QueryOffset(d2)
  {
    CollapseExpand(d1 + d2);
    ExpandAppend(d1, d2);
    CollapsedSumOfJoin(d1, d2, ConsumesReference);
    CollapsedSumOfJoin(d1, d2, ConsumesQuery);
    CollapsedSumOfJoin(d1, d2, CountsForQueryOffset);
  }

  /** On an overlap the combined alignment is the first followed, unit by unit, by
      what _trim keeps of the second after dropping `overlap` query units
      (overlap = first's end - second's start); it holds the first's query units plus
      what is left of the second's, and it ends past the first's end by as much as
      the trimmed second ends past its new start. */
  lemma CombineAdjacentOverlap(first: Alignment, second: Alignment)
    requires CombinedAdjacent(first, second).Ok?
    requires second.0 < first.0 + ReferenceOffset(Declip(first.1))
    ensures var r := CombinedAdjacent(first, second).value.1;
      var d1, d2 := Declip(first.1), Declip(second.1);
      var firstEnd := first.0 + ReferenceOffset(d1);
      var overlap := firstEnd - second.0;
      var kept := Trimmed(d2, overlap, true).0;
      var q2 := InferredQuerySequenceLength(d2);
      var trimmedStart := TrimmedAlignment(second.0, d2, overlap, 0, None).value.0;
      && Expand(r) == Expand(d1) + Expand(kept)
      && InferredQuerySequenceLength(r) ==
        InferredQuerySequenceLength(d1) + (if overlap <= q2 then q2 - overlap else 0)
      && first.0 + ReferenceOffset(r) == firstEnd + (second.0 + ReferenceOffset(d2) - trimmedStart)
      && (PositiveLengths(d2) ==> TailWithSplit(d2, kept))
  {
    var d1, d2 := Declip(first.1), Declip(second.1);
    var overlap := first.0 + ReferenceOffset(d1) - second.0;
    var kept := Trimmed(d2, overlap, true).0;
    TrimAlignmentLeftOnly(second.0, d2, overlap);
    TrimmedCounts(d2, overlap, true);
    CollapseExpand(d1 + kept);
    ExpandAppend(d1, kept);
    CollapsedSumOfJoin(d1, kept, ConsumesReference);
    CollapsedSumOfJoin(d1, kept, ConsumesQuery);
    if PositiveLengths(d2) {
      TrimmedShape(d2, overlap, true);
    }
  }

  /** combine_adjacent_alignments on 5M3S at 5 and 5S3M at 15: the five-base gap
      becomes 5D. */
  lemma CombineAdjacentExampleGap()
    ensures CombinedAdjacent((5, [(M, 5), (S, 3)]), (15, [(S, 5), (M, 3)])) == Ok((5, [(M, 5), (D, 5), (M, 3)]))
  {
    ConsumptionByKind(M);
    var none: CigarTuples := [];
    var g: CigarTuples := [(M, 5), (D, 5), (M, 3)];
    assert Declip([(M, 5), (S, 3)]) == [(M, 5)];
    assert Declip([(S, 5), (M, 3)]) == [(M, 3)];
    SumWhereCons((M, 5), [], ConsumesReference);
    assert [(M, 5)] + none == [(M, 5)];
    assert Joined(5, [(M, 5)], 15, [(M, 3)]) == Ok([(M, 5)] + [(D, 5)] + [(M, 3)]);
    assert [(M, 5)] + [(D, 5)] + [(M, 3)] == g;
    assert NoAdjacentSame(g);
    CollapseOfCollapsed(g);
  }

  /** combine_adjacent_alignments on 12M17S at 5 and 12S3M2D8M2I4M at 10: the seven
      reference positions of overlap trim seven query units, 3M2D4M, off the second. */
  lemma CombineAdjacentExampleOverlap()
    ensures CombinedAdjacent((5, [(M, 12), (S, 17)]), (10, [(S, 12), (M, 3), (D, 2), (M, 8), (I, 2), (M, 4)]))
      == Ok((5, [(M, 16), (I, 2), (M, 4)]))
  {
    var d2: CigarTuples := [(M, 3), (D, 2), (M, 8), (I, 2), (M, 4)];
    var kept: CigarTuples := [(M, 4), (I, 2), (M, 4)];
    assert Declip([(M, 12), (S, 17)]) == [(M, 12)];
    assert Declip([(S, 12), (M, 3), (D, 2), (M, 8), (I, 2), (M, 4)]) == d2;
    ConsumptionByKind(M);
    SumWhereCons((M, 12), [], ConsumesReference);
    var none: CigarTuples := [];
    assert [(M, 12)] + none == [(M, 12)];
    OverlapExampleTrim();
    assert Joined(5, [(M, 12)], 10, d2) == Ok([(M, 12)] + kept);
    OverlapExampleCollapse();
  }

  /** The trim in the overlap example. */
  lemma OverlapExampleTrim()
    ensures Trimmed([(M, 3), (D, 2), (M, 8), (I, 2), (M, 4)], 7, true).0 == [(M, 4), (I, 2), (M, 4)]
  {
    ConsumptionByKind(M);
    ConsumptionByKind(D);
    var none: CigarTuples := [];
    var d2: CigarTuples := [(M, 3), (D, 2), (M, 8), (I, 2), (M, 4)];
    var tail: CigarTuples := [(I, 2), (M, 4)];
    assert d2[1..] == [(D, 2), (M, 8), (I, 2), (M, 4)] && d2[1..][1..] == [(M, 8), (I, 2), (M, 4)];
    assert d2[1..][1..][1..] == tail;
    TrimWalkDone(tail, 0);
    assert TrimStep(M, 8, 4) == ([(M, 4)], 0, 4);
    assert [(M, 4)] + tail == [(M, 4), (I, 2), (M, 4)];
    assert TrimWalk(d2[1..][1..], 4).0 == [(M, 4), (I, 2), (M, 4)];
    assert TrimStep(D, 2, 4) == ([], 4, 2);
    assert none + [(M, 4), (I, 2), (M, 4)] == [(M, 4), (I, 2), (M, 4)];
    assert TrimWalk(d2[1..], 4).0 == [(M, 4), (I, 2), (M, 4)];
    assert TrimStep(M, 3, 7) == ([], 4, 3);
  }

  /** The merge in the overlap example. */
  lemma OverlapExampleCollapse()
    ensures Collapse([(M, 12)] + [(M, 4), (I, 2), (M, 4)]) == [(M, 16), (I, 2), (M, 4)]
  {
    var j: CigarTuples := [(M, 12), (M, 4), (I, 2), (M, 4)];
    assert [(M, 12)] + [(M, 4), (I, 2), (M, 4)] == j;
    assert j[..3] == [(M, 12), (M, 4), (I, 2)] && j[..3][..2] == [(M, 12), (M, 4)];
    assert j[..3][..2][..1] == [(M, 12)] && j[..3][..2][..1][..0] == [];
    assert Collapse(j[..3][..2][..1]) == [(M, 12)];
    assert Collapse(j[..3][..2]) == [(M, 16)];
    assert Collapse(j[..3]) == [(M, 16), (I, 2)];
  }

  /** combine_adjacent_alignments on 5M at 10 and 3M at 15: touching alignments merge
      into one run. */
  lemma CombineAdjacentExampleTouching()
    ensures CombinedAdjacent((10, [(M, 5)]), (15, [(M, 3)])) == Ok((10, [(M, 8)]))
  {
    ConsumptionByKind(M);
    var none: CigarTuples := [];
    assert Declip([(M, 5)]) == [(M, 5)] && Declip([(M, 3)]) == [(M, 3)];
    SumWhereCons((M, 5), [], ConsumesReference);
    assert [(M, 5)] + none == [(M, 5)];
    var t: CigarTuples := [(M, 5), (M, 3)];
    assert Joined(10, [(M, 5)], 15, [(M, 3)]) == Ok([(M, 5)] + [(M, 3)]);
    assert [(M, 5)] + [(M, 3)] == t;
    assert t[..1] == [(M, 5)] && t[..1][..0] == [];
    assert Collapse(t[..1]) == [(M, 5)];
    assert Collapse(t) == PushRun([(M, 5)], (M, 3));
    assert [(M, 5)][..0] == [];
    assert Collapse(t) == [(M, 8)];
  }

  // ---------------------------------------------------------------------------
  // combine_multiple_alignments: the sort

  /** The sort key, query_block(cigars)[0]: the left clip length, hard clips
      included. An empty CIGAR, for which the source raises, gets 0. */
  function QueryStart(a: Alignment): nat {
    if a.1 == [] then 0 else LeftClipping(a.1, true)
  }

  /** Alignments in non-decreasing order of query start. */
  predicate SortedByQueryStart(s: seq<Alignment>) {
    forall i, j :: 0 <= i < j < |s| ==> QueryStart(s[i]) <= QueryStart(s[j])
  }

  /** Puts `x` after every alignment whose query start is not larger. */
  function InsertByQueryStart(r: seq<Alignment>, x: Alignment): (t: seq<Alignment>)
    ensures multiset(t) == multiset(r) + multiset{x}
    ensures |t| == |r| + 1
  {
    if r == [] || QueryStart(r[|r| - 1]) <= QueryStart(x) then r + [x]
    else
      var last := r[|r| - 1];
      assert r == r[..|r| - 1] + [last];
      InsertByQueryStart(r[..|r| - 1], x) + [last]
  }

  /** Python's `sorted` with the query start as key, which is stable: an insertion
      sort that inserts each alignment, in order, after its equals. */
  function SortByQueryStart(s: seq<Alignment>): (t: seq<Alignment>)
    ensures multiset(t) == multiset(s)
    ensures |t| == |s|
  {
    if s == [] then []
    else
      assert s == s[..|s| - 1] + [s[|s| - 1]];
      InsertByQueryStart(SortByQueryStart(s[..|s| - 1]), s[|s| - 1])
  }

  /** Inserting into a sorted list keeps it sorted. */
  lemma {:induction false} InsertSorted(r: seq<Alignment>, x: Alignment)
    requires SortedByQueryStart(r)
    ensures SortedByQueryStart(InsertByQueryStart(r, x))
    decreases |r|
  {
    if r == [] || QueryStart(r[|r| - 1]) <= QueryStart(x) {
      SortedAtMost(r, QueryStart(x));
      SortedSnoc(r, x);
    } else {
      var pre := r[..|r| - 1];
      var last := r[|r| - 1];
      SortedPrefix(r);
      InsertSorted(pre, x);
      InsertAtMost(pre, x, QueryStart(last));
      SortedSnoc(InsertByQueryStart(pre, x), last);
    }
  }

  /** No alignment in the list starts on the read after `b`. */
  predicate AtMost(s: seq<Alignment>, b: int) {
    forall i :: 0 <= i < |s| ==> QueryStart(s[i]) <= b
  }

  /** A sorted list ends on its largest key. */
  lemma SortedAtMost(r: seq<Alignment>, b: int)
    requires SortedByQueryStart(r) && (r == [] || QueryStart(r[|r| - 1]) <= b)
    ensures AtMost(r, b)
  {
  }

  /** Dropping the last element of a sorted list leaves it sorted, and bounded by that element. */
  lemma SortedPrefix(r: seq<Alignment>)
    requires SortedByQueryStart(r) && r != []
    ensures SortedByQueryStart(r[..|r| - 1]) && AtMost(r[..|r| - 1], QueryStart(r[|r| - 1]))
  {
  }

  /** Appending an element no smaller than the rest keeps a list sorted. */
  lemma SortedSnoc(p: seq<Alignment>, y: Alignment)
    requires SortedByQueryStart(p) && AtMost(p, QueryStart(y))
    ensures SortedByQueryStart(p + [y])
  {
    var t := p + [y];
    forall i, j | 0 <= i < j < |t| ensures QueryStart(t[i]) <= QueryStart(t[j]) {
      assert t[i] == p[i];
      if j < |p| {
        assert t[j] == p[j];
      }
    }
  }

  /** Appending an element within the bound keeps the list within it. */
  lemma AtMostSnoc(p: seq<Alignment>, y: Alignment, b: int)
    requires AtMost(p, b) && QueryStart(y) <= b
    ensures AtMost(p + [y], b)
  {
    var t := p + [y];
    forall i | 0 <= i < |t| ensures QueryStart(t[i]) <= b {
      if i < |p| {
        assert t[i] == p[i];
      }
    }
  }

  /** Inserting an element within the bound keeps the list within it. */
  lemma {:induction false} InsertAtMost(r: seq<Alignment>, x: Alignment, b: int)
    requires AtMost(r, b) && QueryStart(x) <= b
    ensures AtMost(InsertByQueryStart(r, x), b)
    decreases |r|
  {
    if r == [] || QueryStart(r[|r| - 1]) <= QueryStart(x) {
      AtMostSnoc(r, x, b);
    } else {
      var pre := r[..|r| - 1];
      assert AtMost(pre, b);
      InsertAtMost(pre, x, b);
      AtMostSnoc(InsertByQueryStart(pre, x), r[|r| - 1], b);
    }
  }

  /** The sort puts the alignments in order of query start, and only reorders them. */
  lemma {:induction false} SortSorted(s: seq<Alignment>)
    ensures SortedByQueryStart(SortByQueryStart(s))
    ensures multiset(SortByQueryStart(s)) == multiset(s)
    decreases |s|
  {
    if s != [] {
      SortSorted(s[..|s| - 1]);
      InsertSorted(SortByQueryStart(s[..|s| - 1]), s[|s| - 1]);
    }
  }

  /** The alignments with query start `k`, in their order. */
  function WithQueryStart(s: seq<Alignment>, k: nat): (t: seq<Alignment>)
    ensures forall i :: 0 <= i < |t| ==> QueryStart(t[i]) == k
  {
    if s == [] then []
    else WithQueryStart(s[..|s| - 1], k) + (if QueryStart(s[|s| - 1]) == k then [s[|s| - 1]] else [])
  }

  /** Selecting by query start distributes over a list with one more alignment. */
  lemma WithQueryStartSnoc(s: seq<Alignment>, x: Alignment, k: nat)
    ensures WithQueryStart(s + [x], k) == WithQueryStart(s, k) + (if QueryStart(x) == k then [x] else [])
  {
    assert (s + [x])[..|s|] == s;
  }

  /** Inserting an alignment adds it after every other one of its query start. */
  lemma {:induction false} InsertStable(r: seq<Alignment>, x: Alignment, k: nat)
    ensures WithQueryStart(InsertByQueryStart(r, x), k) == WithQueryStart(r, k) + (if QueryStart(x) == k then [x] else [])
    decreases |r|
  {
    if r == [] || QueryStart(r[|r| - 1]) <= QueryStart(x) {
      WithQueryStartSnoc(r, x, k);
    } else {
      var pre := r[..|r| - 1];
      var last := r[|r| - 1];
      InsertUnfold(r, x);
      InsertStable(pre, x, k);
      assert pre + [last] == r;
      InsertStableStep(pre, last, x, k);
    }
  }

  /** Inserting before the last alignment inserts into the rest. */
  lemma InsertUnfold(r: seq<Alignment>, x: Alignment)
    requires r != [] && QueryStart(r[|r| - 1]) > QueryStart(x)
    ensures InsertByQueryStart(r, x) == InsertByQueryStart(r[..|r| - 1], x) + [r[|r| - 1]]
  {
  }

  /** The selection after an insertion in front of `last`, which starts later on the read. */
  lemma InsertStableStep(pre: seq<Alignment>, last: Alignment, x: Alignment, k: nat)
    requires QueryStart(last) > QueryStart(x)
    requires WithQueryStart(InsertByQueryStart(pre, x), k) == WithQueryStart(pre, k) + (if QueryStart(x) == k then [x] else [])
    ensures WithQueryStart(InsertByQueryStart(pre, x) + [last], k) == WithQueryStart(pre + [last], k) + (if QueryStart(x) == k then [x] else [])
  {
    WithQueryStartSnoc(InsertByQueryStart(pre, x), last, k);
    WithQueryStartSnoc(pre, last, k);
    if QueryStart(x) == k {
      assert QueryStart(last) != k;
    }
  }

  /** The sort is stable: alignments with the same query start keep their order. */
  lemma {:induction false} SortStable(s: seq<Alignment>, k: nat)
    ensures WithQueryStart(SortByQueryStart(s), k) == WithQueryStart(s, k)
    decreases |s|
  {
    if s != [] {
      SortStable(s[..|s| - 1], k);
      InsertStable(SortByQueryStart(s[..|s| - 1]), s[|s| - 1], k);
    }
  }

  // ---------------------------------------------------------------------------
  // combine_multiple_alignments: validation, fold and the whole

  /** Every alignment has a non-empty CIGAR. */
  predicate AllNonEmpty(s: seq<Alignment>) {
    forall i :: 0 <= i < |s| ==> s[i].1 != []
  }

  /** The check of one alignment against the one before it: the read overlap first,
      then the reference overlap, each against `allowedOverlap`. */
  function PairViolation(prev: Alignment, next: Alignment, allowedOverlap: int): Option<CombineError>
    requires prev.1 != [] && next.1 != []
  {
    if QueryBlock(prev.1).1 - QueryBlock(next.1).0 > allowedOverlap then Some(QueryOverlap)
    else if ReferenceBlock(prev.1, prev.0).1 - ReferenceBlock(next.1, next.0).0 > allowedOverlap then Some(NotSequential)
    else None
  }

  /** The validation pass: the first failing check along the list, if any. */
  function Violation(s: seq<Alignment>, allowedOverlap: int): Option<CombineError>
    requires AllNonEmpty(s)
  {
    if |s| < 2 then None
    else if PairViolation(s[0], s[1], allowedOverlap).Some? then PairViolation(s[0], s[1], allowedOverlap)
    else Violation(s[1..], allowedOverlap)
  }

  /** The fold: each next alignment combined onto the result so far. */
  function FoldCombine(acc: Alignment, rest: seq<Alignment>): Result<Alignment, CombineError>
    decreases |rest|
  {
    if rest == [] then Ok(acc)
    else
      match CombinedAdjacent(acc, rest[0])
      case Err(e) => Err(e)
      case Ok(a) => FoldCombine(a, rest[1..])
  }

  /** Sorting only reorders, so no CIGAR becomes empty. */
  lemma SortNonEmpty(s: seq<Alignment>)
    requires AllNonEmpty(s)
    ensures AllNonEmpty(SortByQueryStart(s))
  {
    var t := SortByQueryStart(s);
    forall i | 0 <= i < |t| ensures t[i].1 != [] {
      assert t[i] in multiset(s);
      var j :| 0 <= j < |s| && s[j] == t[i];
    }
  }

  /** Reference definition of combine_multiple_alignments: nothing fails; one
      alignment comes back unchanged; otherwise the key of every alignment is taken
      (an empty CIGAR fails there), the alignments are sorted on it, validated pair
      by pair, and folded from the first. */
  function CombinedMultiple(alignments: seq<Alignment>, allowedOverlap: int): Result<Alignment, CombineError> {
    if |alignments| == 0 then Err(NoAlignments)
    else if |alignments| == 1 then Ok(alignments[0])
    else if !AllNonEmpty(alignments) then Err(EmptyCigar)
    else
      var sorted := SortByQueryStart(alignments);
      SortNonEmpty(alignments);
      match Violation(sorted, allowedOverlap)
      case Some(e) => Err(e)
      case None => FoldCombine(sorted[0], sorted[1..])
  }

  /** One step of the validation pass, at alignment `i`. */
  lemma ViolationStep(s: seq<Alignment>, i: nat, allowedOverlap: int)
    requires AllNonEmpty(s) && 1 <= i < |s|
    ensures Violation(s[i - 1..], allowedOverlap) ==
      if PairViolation(s[i - 1], s[i], allowedOverlap).Some? then PairViolation(s[i - 1], s[i], allowedOverlap)
      else Violation(s[i..], allowedOverlap)
  {
    assert s[i - 1..][1..] == s[i..];
  }

  /** One step of the fold, at alignment `i`. */
  lemma FoldStep(acc: Alignment, s: seq<Alignment>, i: nat)
    requires i < |s|
    ensures FoldCombine(acc, s[i..]) ==
      match CombinedAdjacent(acc, s[i])
      case Err(e) => Err(e)
      case Ok(a) => FoldCombine(a, s[i + 1..])
  {
    assert s[i..][1..] == s[i + 1..];
  }

  /** combine_multiple_alignments, with the validation loop and the combining loop. */
  method CombineMultiple(alignments: seq<Alignment>, allowedOverlap: int) returns (r: Result<Alignment, CombineError>)
    ensures r == CombinedMultiple(alignments, allowedOverlap)
  {
    if |alignments| == 0 {
      return Err(NoAlignments);
    }
    if |alignments| == 1 {
      return Ok(alignments[0]);
    }
    if exists i :: 0 <= i < |alignments| && alignments[i].1 == [] {
      return Err(EmptyCigar);
    }
    var sorted := SortByQueryStart(alignments);
    SortNonEmpty(alignments);

    var violation := Validate(sorted, allowedOverlap);
    if violation.Some? {
      return Err(violation.value);
    }
    r := FoldAll(sorted);
  }

  /** The validation loop of combine_multiple_alignments: the error it raises, if any. */
  method Validate(sorted: seq<Alignment>, allowedOverlap: int) returns (v: Option<CombineError>)
    requires AllNonEmpty(sorted)
    ensures v == Violation(sorted, allowedOverlap)
  {
    var prevQueryEnd: Option<int> := None;
    var prevRefEnd: Option<int> := None;
    for i := 0 to |sorted|
      invariant i == 0 ==> prevQueryEnd == None && prevRefEnd == None
      invariant i > 0 ==> prevQueryEnd == Some(QueryBlock(sorted[i - 1].1).1)
      invariant i > 0 ==> prevRefEnd == Some(ReferenceBlock(sorted[i - 1].1, sorted[i - 1].0).1)
      invariant i > 0 ==> Violation(sorted, allowedOverlap) == Violation(sorted[i - 1..], allowedOverlap)
    {
      var (refStart, cigars) := sorted[i];
      var queryBlock := QueryBlock(cigars);
      var refBlock := ReferenceBlock(cigars, refStart);
      if prevQueryEnd.Some? {
        ViolationStep(sorted, i, allowedOverlap);
        if prevQueryEnd.value - queryBlock.0 > allowedOverlap {
          return Some(QueryOverlap);
        }
        if prevRefEnd.value - refBlock.0 > allowedOverlap {
          return Some(NotSequential);
        }
      } else {
        assert sorted[0..] == sorted;
      }
      prevQueryEnd := Some(queryBlock.1);
      prevRefEnd := Some(refBlock.1);
    }
    if |sorted| > 0 {
      assert |sorted[|sorted| - 1..]| == 1;
    }
    return None;
  }

  /** The combining loop of combine_multiple_alignments: each alignment in turn
      combined onto the result so far. */
  method FoldAll(sorted: seq<Alignment>) returns (r: Result<Alignment, CombineError>)
    requires |sorted| > 0
    ensures r == FoldCombine(sorted[0], sorted[1..])
  {
    var result := sorted[0];
    for i := 1 to |sorted|
      invariant FoldCombine(sorted[0], sorted[1..]) == FoldCombine(result, sorted[i..])
    {
      FoldStep(result, sorted, i);
      var next := CombineAdjacent(result, sorted[i]);
      if next.Err? {
        return Err(next.error);
      }
      result := next.value;
    }
    assert sorted[|sorted|..] == [];
    return Ok(result);
  }

  // ---------------------------------------------------------------------------
  // combine_multiple_alignments: properties

  /** One alignment's check, at position `j` of the list. */
  function PairCheck(s: seq<Alignment>, j: nat, allowedOverlap: int): Option<CombineError>
    requires AllNonEmpty(s) && 1 <= j < |s|
  {
    PairViolation(s[j - 1], s[j], allowedOverlap)
  }

  /** The validation pass passes exactly when every alignment passes its check
      against the one before. */
  lemma {:induction false} ViolationMeans(s: seq<Alignment>, allowedOverlap: int)
    requires AllNonEmpty(s)
    ensures Violation(s, allowedOverlap) == None <==>
      forall j :: 1 <= j < |s| ==> PairCheck(s, j, allowedOverlap) == None
    decreases |s|
  {
    if |s| >= 2 {
      if PairCheck(s, 1, allowedOverlap).Some? {
        assert Violation(s, allowedOverlap) == PairCheck(s, 1, allowedOverlap);
      } else {
        var t := s[1..];
        ViolationMeans(t, allowedOverlap);
        assert Violation(s, allowedOverlap) == Violation(t, allowedOverlap);
        forall k | 1 <= k < |t| ensures PairCheck(t, k, allowedOverlap) == PairCheck(s, k + 1, allowedOverlap) {
          PairCheckShift(s, k, allowedOverlap);
        }
        if forall k :: 1 <= k < |t| ==> PairCheck(t, k, allowedOverlap) == None {
          forall j | 1 <= j < |s| ensures PairCheck(s, j, allowedOverlap) == None {
            if j > 1 {
              assert PairCheck(t, j - 1, allowedOverlap) == None;
            }
          }
        }
      }
    }
  }

  /** The check at `j` is the first that fails, and it is what the validation pass reports. */
  predicate FirstFailAt(s: seq<Alignment>, allowedOverlap: int, j: nat)
    requires AllNonEmpty(s)
  {
    && 1 <= j < |s|
    && PairCheck(s, j, allowedOverlap) == Violation(s, allowedOverlap)
    && forall i :: 1 <= i < j ==> PairCheck(s, i, allowedOverlap) == None
  }

  /** When the validation pass fails, it reports the first failing check. */
  lemma ViolationFirst(s: seq<Alignment>, allowedOverlap: int)
    requires AllNonEmpty(s) && Violation(s, allowedOverlap).Some?
    ensures exists j: nat :: FirstFailAt(s, allowedOverlap, j)
  {
    var j := FirstFail(s, allowedOverlap);
  }

  /** The position of the first failing check. */
  lemma {:induction false} FirstFail(s: seq<Alignment>, allowedOverlap: int) returns (j: nat)
    requires AllNonEmpty(s) && Violation(s, allowedOverlap).Some?
    ensures FirstFailAt(s, allowedOverlap, j)
    decreases |s|
  {
    if PairCheck(s, 1, allowedOverlap).Some? {
      j := 1;
    } else {
      var k := FirstFail(s[1..], allowedOverlap);
      FirstFailShift(s, allowedOverlap, k);
      j := k + 1;
    }
  }

  /** The first failing check of the tail, when the head's check passes, is the list's
      own, one further on. */
  lemma FirstFailShift(s: seq<Alignment>, allowedOverlap: int, k: nat)
    requires AllNonEmpty(s) && |s| >= 2 && PairCheck(s, 1, allowedOverlap).None?
    requires AllNonEmpty(s[1..]) && FirstFailAt(s[1..], allowedOverlap, k)
    ensures FirstFailAt(s, allowedOverlap, k + 1)
  {
    PairCheckShift(s, k, allowedOverlap);
    forall i | 1 < i < k + 1 ensures PairCheck(s, i, allowedOverlap) == None {
      PairCheckShift(s, i - 1, allowedOverlap);
    }
  }

  /** The checks along the tail of a list are the list's own checks, one further on. */
  lemma PairCheckShift(s: seq<Alignment>, j: nat, allowedOverlap: int)
    requires AllNonEmpty(s) && 1 <= j < |s| - 1
    ensures AllNonEmpty(s[1..]) && PairCheck(s[1..], j, allowedOverlap) == PairCheck(s, j + 1, allowedOverlap)
  {
    assert s[1..][j - 1] == s[j] && s[1..][j] == s[j + 1];
  }

  /** Declipping drops clips only, so the reference and aligned query lengths stay. */
  lemma DeclipOffsets(c: CigarTuples)
    requires |c| > 0
    ensures ReferenceOffset(Declip(c)) == ReferenceOffset(c)
    ensures QueryOffset(Declip(c)) == QueryOffset(c)
  {
    DeclipSlice(c);
    var front := if IsClip(c[0].0) then 1 else 0;
    var back := if IsClip(c[|c| - 1].0) && |c| - front >= 1 then 1 else 0;
    var a, m, b := c[..front], c[front..|c| - back], c[|c| - back..];
    assert c == a + m + b;
    SumWhereAppend(a + m, b, ConsumesReference);
    SumWhereAppend(a, m, ConsumesReference);
    SumWhereAppend(a + m, b, CountsForQueryOffset);
    SumWhereAppend(a, m, CountsForQueryOffset);
    ConsumptionByKind(c[0].0);
    ConsumptionByKind(c[|c| - 1].0);
    if front == 1 {
      SumWhereCons(c[0], [], ConsumesReference);
      SumWhereCons(c[0], [], CountsForQueryOffset);
      assert [c[0]] + [] == a;
    }
    if back == 1 {
      SumWhereCons(c[|c| - 1], [], ConsumesReference);
      SumWhereCons(c[|c| - 1], [], CountsForQueryOffset);
      assert [c[|c| - 1]] + [] == b;
    }
  }

  /** The combined alignment keeps the start of the one the fold started from, and
      once anything is combined it has no neighbouring runs of one kind. */
  lemma {:induction false} FoldAnchor(acc: Alignment, rest: seq<Alignment>)
    requires FoldCombine(acc, rest).Ok?
    ensures FoldCombine(acc, rest).value.0 == acc.0
    ensures rest != [] ==> NoAdjacentSame(FoldCombine(acc, rest).value.1)
    decreases |rest|
  {
    if rest != [] {
      var a := CombinedAdjacent(acc, rest[0]).value;
      CombineAdjacentShape(acc, rest[0]);
      FoldAnchor(a, rest[1..]);
    }
  }

  /** Each alignment ends on the reference no later than the next one starts. */
  predicate ReferenceOrdered(s: seq<Alignment>) {
    forall j :: 1 <= j < |s| ==> s[j - 1].0 + ReferenceOffset(s[j - 1].1) <= s[j].0
  }

  /** The aligned query bases of all alignments. */
  function QueryOffsets(s: seq<Alignment>): nat {
    if s == [] then 0 else QueryOffset(s[0].1) + QueryOffsets(s[1..])
  }

  /** The alignment that ends the list, or `acc` when there is none. */
  function LastOf(acc: Alignment, rest: seq<Alignment>): Alignment {
    if rest == [] then acc else rest[|rest| - 1]
  }

  /** Combining an alignment that covers some reference with one starting at or after
      its end succeeds, keeps the first's start, ends where the second ends, keeps the
      aligned query bases of both, and again covers some reference. */
  lemma CombineOrderedPair(acc: Alignment, next: Alignment)
    requires acc.1 != [] && next.1 != [] && ReferenceOffset(acc.1) > 0
    requires acc.0 + ReferenceOffset(acc.1) <= next.0
    ensures CombinedAdjacent(acc, next).Ok?
    ensures var a := CombinedAdjacent(acc, next).value;
      && a.0 == acc.0
      && a.0 + ReferenceOffset(a.1) == next.0 + ReferenceOffset(next.1)
      && QueryOffset(a.1) == QueryOffset(acc.1) + QueryOffset(next.1)
      && a.1 != [] && ReferenceOffset(a.1) > 0
  {
    DeclipOffsets(acc.1);
    DeclipOffsets(next.1);
    assert CombinedAdjacent(acc, next).Ok?;
    CombineAdjacentGap(acc, next);
    CombineAdjacentShape(acc, next);
  }

  /** Replacing the first two alignments of a reference-ordered list by one that ends
      where the second ends keeps the list reference-ordered. */
  lemma ReferenceOrderedMerge(acc: Alignment, rest: seq<Alignment>, a: Alignment)
    requires rest != [] && ReferenceOrdered([acc] + rest)
    requires a.0 + ReferenceOffset(a.1) == rest[0].0 + ReferenceOffset(rest[0].1)
    ensures ReferenceOrdered([a] + rest[1..])
  {
    var s, t := [acc] + rest, [a] + rest[1..];
    forall j | 1 <= j < |t| ensures t[j - 1].0 + ReferenceOffset(t[j - 1].1) <= t[j].0 {
      assert t[j] == s[j + 1];
      if j > 1 {
        assert t[j - 1] == s[j];
      } else {
        assert s[1] == rest[0];
      }
    }
  }

  /** Along reference-ordered alignments, starting from one that covers some reference,
      every step of the fold meets a gap or none: the fold succeeds, spans from the
      start it began with to the last alignment's end, and keeps every aligned query
      base of every part. */
  lemma {:induction false} FoldOrdered(acc: Alignment, rest: seq<Alignment>)
    requires acc.1 != [] && ReferenceOffset(acc.1) > 0 && AllNonEmpty(rest)
    requires ReferenceOrdered([acc] + rest)
    ensures FoldCombine(acc, rest).Ok?
    ensures var r := FoldCombine(acc, rest).value;
      var last := LastOf(acc, rest);
      && r.0 == acc.0
      && r.0 + ReferenceOffset(r.1) == last.0 + ReferenceOffset(last.1)
      && QueryOffset(r.1) == QueryOffset(acc.1) + QueryOffsets(rest)
    decreases |rest|
  {
    if rest != [] {
      OrderedHead(acc, rest);
      CombineOrderedPair(acc, rest[0]);
      var a := CombinedAdjacent(acc, rest[0]).value;
      ReferenceOrderedMerge(acc, rest, a);
      FoldOrdered(a, rest[1..]);
      FoldOrderedStep(acc, rest, a);
    }
  }

  /** The inductive step of FoldOrdered: the claim for the fold from the first combination
      gives the claim for the fold from `acc`. */
  lemma FoldOrderedStep(acc: Alignment, rest: seq<Alignment>, a: Alignment)
    requires rest != [] && CombinedAdjacent(acc, rest[0]) == Ok(a)
    requires a.0 == acc.0 && a.0 + ReferenceOffset(a.1) == rest[0].0 + ReferenceOffset(rest[0].1)
    requires QueryOffset(a.1) == QueryOffset(acc.1) + QueryOffset(rest[0].1)
    requires FoldCombine(a, rest[1..]).Ok?
    requires var r := FoldCombine(a, rest[1..]).value;
      var last := LastOf(a, rest[1..]);
      && r.0 == a.0
      && r.0 + ReferenceOffset(r.1) == last.0 + ReferenceOffset(last.1)
      && QueryOffset(r.1) == QueryOffset(a.1) + QueryOffsets(rest[1..])
    ensures FoldCombine(acc, rest).Ok?
    ensures var r := FoldCombine(acc, rest).value;
      var last := LastOf(acc, rest);
      && r.0 == acc.0
      && r.0 + ReferenceOffset(r.1) == last.0 + ReferenceOffset(last.1)
      && QueryOffset(r.1) == QueryOffset(acc.1) + QueryOffsets(rest)
  {
    FoldCons(acc, rest, a);
    assert QueryOffsets(rest) == QueryOffset(rest[0].1) + QueryOffsets(rest[1..]);
    if |rest| >= 2 {
      LastOfTail(acc, rest, a);
    } else {
      assert LastOf(a, rest[1..]) == a && LastOf(acc, rest) == rest[0];
    }
  }

  /** In a reference-ordered list the head ends before the next starts, and the
      rest holds non-empty CIGARs when the whole does. */
  lemma OrderedHead(acc: Alignment, rest: seq<Alignment>)
    requires rest != [] && ReferenceOrdered([acc] + rest) && AllNonEmpty(rest)
    ensures acc.0 + ReferenceOffset(acc.1) <= rest[0].0
    ensures rest[0].1 != [] && AllNonEmpty(rest[1..])
  {
    var s := [acc] + rest;
    assert s[0] == acc && s[1] == rest[0];
  }

  /** One successful step of the fold. */
  lemma FoldCons(acc: Alignment, rest: seq<Alignment>, a: Alignment)
    requires rest != [] && CombinedAdjacent(acc, rest[0]) == Ok(a)
    ensures FoldCombine(acc, rest) == FoldCombine(a, rest[1..])
  {
  }

  /** The last alignment stays the same when the head of a longer list is replaced. */
  lemma LastOfTail(acc: Alignment, rest: seq<Alignment>, a: Alignment)
    requires |rest| >= 2
    ensures LastOf(a, rest[1..]) == LastOf(acc, rest)
  {
  }

  /** The aligned query bases add up over concatenated lists. */
  lemma {:induction false} QueryOffsetsAppend(x: seq<Alignment>, y: seq<Alignment>)
    ensures QueryOffsets(x + y) == QueryOffsets(x) + QueryOffsets(y)
    decreases |x|
  {
    if x == [] {
      assert x + y == y;
    } else {
      assert (x + y)[1..] == x[1..] + y;
      QueryOffsetsAppend(x[1..], y);
    }
  }

  /** Taking one alignment out takes its aligned query bases out of the total. */
  lemma QueryOffsetsRemove(y: seq<Alignment>, k: nat)
    requires k < |y|
    ensures QueryOffsets(y) == QueryOffset(y[k].1) + QueryOffsets(y[..k] + y[k + 1..])
  {
    var a, b := y[..k], y[k + 1..];
    var tail := [y[k]] + b;
    SplitAround(y, k);
    QueryOffsetsAppend(a, tail);
    QueryOffsetsAppend(a, b);
    QueryOffsetsCons(y[k], b);
  }

  lemma SplitAround(y: seq<Alignment>, k: nat)
    requires k < |y|
    ensures y == y[..k] + ([y[k]] + y[k + 1..])
  {
  }

  lemma QueryOffsetsCons(x: Alignment, rest: seq<Alignment>)
    ensures QueryOffsets([x] + rest) == QueryOffset(x.1) + QueryOffsets(rest)
  {
    assert ([x] + rest)[1..] == rest;
  }

  /** Taking the same element out of two permutations of each other leaves two
      permutations of each other. */
  lemma RemovePermutation(x: seq<Alignment>, y: seq<Alignment>, k: nat)
    requires x != [] && k < |y| && y[k] == x[0] && multiset(x) == multiset(y)
    ensures multiset(x[1..]) == multiset(y[..k] + y[k + 1..])
  {
    assert x == [x[0]] + x[1..];
    assert y == y[..k] + [y[k]] + y[k + 1..];
    calc {
      multiset(x[1..]);
      multiset(x) - multiset{x[0]};
      multiset(y) - multiset{y[k]};
      multiset(y[..k]) + multiset(y[k + 1..]);
      multiset(y[..k] + y[k + 1..]);
    }
  }

  /** Reordering keeps the aligned query bases of the whole list. */
  lemma {:induction false} QueryOffsetsPermutation(x: seq<Alignment>, y: seq<Alignment>)
    requires multiset(x) == multiset(y)
    ensures QueryOffsets(x) == QueryOffsets(y)
    decreases |x|
  {
    if x != [] {
      assert x[0] in multiset(y);
      var k :| 0 <= k < |y| && y[k] == x[0];
      RemovePermutation(x, y, k);
      QueryOffsetsPermutation(x[1..], y[..k] + y[k + 1..]);
      QueryOffsetsRemove(y, k);
    } else {
      assert |y| == |multiset(y)| == 0;
    }
  }

  /** Every alignment overlaps the one before it by at most `allowedOverlap`, on the
      read and on the reference. */
  predicate ChecksPass(s: seq<Alignment>, allowedOverlap: int) {
    forall j :: 1 <= j < |s| ==> Within(s[j - 1], s[j], allowedOverlap)
  }

  /** `next` starts on the read and on the reference no more than `allowedOverlap`
      before `prev` ends. */
  predicate Within(prev: Alignment, next: Alignment, allowedOverlap: int) {
    && prev.1 != [] && next.1 != []
    && QueryBlock(prev.1).1 - QueryBlock(next.1).0 <= allowedOverlap
    && ReferenceBlock(prev.1, prev.0).1 - ReferenceBlock(next.1, next.0).0 <= allowedOverlap
  }

  /** For several non-empty alignments the result is the validation pass's error, or
      the fold over the sorted alignments. */
  lemma CombinedMultipleSeveral(alignments: seq<Alignment>, allowedOverlap: int)
    requires |alignments| >= 2 && AllNonEmpty(alignments)
    ensures AllNonEmpty(SortByQueryStart(alignments))
    ensures var sorted := SortByQueryStart(alignments);
      CombinedMultiple(alignments, allowedOverlap) ==
        if Violation(sorted, allowedOverlap).Some? then Err(Violation(sorted, allowedOverlap).value)
        else FoldCombine(sorted[0], sorted[1..])
  {
    SortNonEmpty(alignments);
  }

  /** The first alignment on the read is one of the alignments, and none precedes it. */
  lemma SortFirst(alignments: seq<Alignment>)
    requires |alignments| > 0
    ensures var sorted := SortByQueryStart(alignments);
      && sorted[0] in alignments
      && forall a :: a in alignments ==> QueryStart(sorted[0]) <= QueryStart(a)
  {
    var sorted := SortByQueryStart(alignments);
    SortSorted(alignments);
    assert sorted[0] in multiset(alignments);
    forall a | a in alignments ensures QueryStart(sorted[0]) <= QueryStart(a) {
      assert a in multiset(sorted);
      var k :| 0 <= k < |sorted| && sorted[k] == a;
    }
  }

  /** Whatever the allowed overlap, a combined alignment of several starts where the
      first alignment on the read starts, an alignment no other precedes on the read;
      it has no neighbouring runs of one kind, and every alignment, in read order,
      passed its check against the one before it. */
  lemma CombineMultipleAnchor(alignments: seq<Alignment>, allowedOverlap: int)
    requires |alignments| >= 2
    requires CombinedMultiple(alignments, allowedOverlap).Ok?
    ensures AllNonEmpty(alignments)
    ensures var r := CombinedMultiple(alignments, allowedOverlap).value;
      var sorted := SortByQueryStart(alignments);
      && r.0 == sorted[0].0
      && sorted[0] in alignments
      && (forall a :: a in alignments ==> QueryStart(sorted[0]) <= QueryStart(a))
      && NoAdjacentSame(r.1)
      && ChecksPass(sorted, allowedOverlap)
  {
    var sorted := SortByQueryStart(alignments);
    CombinedMultipleSeveral(alignments, allowedOverlap);
    assert Violation(sorted, allowedOverlap) == None;
    ViolationMeans(sorted, allowedOverlap);
    forall j | 1 <= j < |sorted| ensures Within(sorted[j - 1], sorted[j], allowedOverlap) {
      assert PairCheck(sorted, j, allowedOverlap) == None;
    }
    FoldAnchor(sorted[0], sorted[1..]);
    SortFirst(alignments);
  }

  /** With no overlap allowed, and every part covering some reference, only the
      validation pass can fail; when it passes, the combined alignment spans the
      reference from the first alignment on the read to the last, and holds every
      aligned query base of every part. */
  lemma CombineMultipleNoOverlap(alignments: seq<Alignment>, allowedOverlap: int)
    requires |alignments| >= 2 && allowedOverlap <= 0 && AllNonEmpty(alignments)
    requires forall i :: 0 <= i < |alignments| ==> ReferenceOffset(alignments[i].1) > 0
    ensures var r := CombinedMultiple(alignments, allowedOverlap);
      var sorted := SortByQueryStart(alignments);
      var last := sorted[|sorted| - 1];
      && (r.Ok? || r == Err(QueryOverlap) || r == Err(NotSequential))
      && (r.Ok? ==>
            && r.value.0 == sorted[0].0
            && r.value.0 + ReferenceOffset(r.value.1) == last.0 + ReferenceOffset(last.1)
            && QueryOffset(r.value.1) == QueryOffsets(alignments))
  {
    var sorted := SortByQueryStart(alignments);
    CombinedMultipleSeveral(alignments, allowedOverlap);
    if Violation(sorted, allowedOverlap) == None {
      SortedFold(alignments, allowedOverlap);
    } else {
      ViolationKinds(sorted, allowedOverlap);
    }
  }

  /** Past a passed validation with no overlap allowed, the fold of the sorted parts
      succeeds and spans them all. */
  lemma SortedFold(alignments: seq<Alignment>, allowedOverlap: int)
    requires |alignments| >= 2 && allowedOverlap <= 0 && AllNonEmpty(alignments)
    requires forall i :: 0 <= i < |alignments| ==> ReferenceOffset(alignments[i].1) > 0
    requires AllNonEmpty(SortByQueryStart(alignments))
    requires Violation(SortByQueryStart(alignments), allowedOverlap) == None
    ensures var sorted := SortByQueryStart(alignments);
      var r := FoldCombine(sorted[0], sorted[1..]);
      var last := sorted[|sorted| - 1];
      && r.Ok?
      && r.value.0 == sorted[0].0
      && r.value.0 + ReferenceOffset(r.value.1) == last.0 + ReferenceOffset(last.1)
      && QueryOffset(r.value.1) == QueryOffsets(alignments)
  {
    var sorted := SortByQueryStart(alignments);
    PassedOrdered(sorted, allowedOverlap);
    SortFirst(alignments);
    FoldOfOrdered(sorted);
    SortSorted(alignments);
    QueryOffsetsPermutation(sorted, alignments);
  }

  /** Folding a list in reference order, whose head covers some reference, succeeds and
      spans from the head's start to the last alignment's end. */
  lemma {:induction false} FoldOfOrdered(s: seq<Alignment>)
    requires |s| >= 2 && AllNonEmpty(s) && ReferenceOrdered(s) && ReferenceOffset(s[0].1) > 0
    ensures var r := FoldCombine(s[0], s[1..]);
      && r.Ok?
      && r.value.0 == s[0].0
      && r.value.0 + ReferenceOffset(r.value.1) == s[|s| - 1].0 + ReferenceOffset(s[|s| - 1].1)
      && QueryOffset(r.value.1) == QueryOffsets(s)
  {
    SplitHead(s);
    FoldOrdered(s[0], s[1..]);
  }

  /** A list split into its head and the rest. */
  lemma SplitHead(s: seq<Alignment>)
    requires |s| >= 2
    ensures [s[0]] + s[1..] == s && LastOf(s[0], s[1..]) == s[|s| - 1]
  {
  }

  /** With no overlap allowed, a passed validation means reference order. */
  lemma PassedOrdered(s: seq<Alignment>, allowedOverlap: int)
    requires allowedOverlap <= 0 && AllNonEmpty(s) && Violation(s, allowedOverlap) == None
    ensures ReferenceOrdered(s)
  {
    ViolationMeans(s, allowedOverlap);
    forall j | 1 <= j < |s| ensures s[j - 1].0 + ReferenceOffset(s[j - 1].1) <= s[j].0 {
      assert PairCheck(s, j, allowedOverlap) == None;
    }
  }

  /** The validation pass reports only the two overlap errors. */
  lemma {:induction false} ViolationKinds(s: seq<Alignment>, allowedOverlap: int)
    requires AllNonEmpty(s)
    ensures Violation(s, allowedOverlap) == None || Violation(s, allowedOverlap) == Some(QueryOverlap) ||
      Violation(s, allowedOverlap) == Some(NotSequential)
    decreases |s|
  {
    if |s| >= 2 {
      ViolationKinds(s[1..], allowedOverlap);
    }
  }

  /** The worked error and trivial cases of combine_multiple_alignments: nothing to
      combine; a single alignment comes back unchanged; 5M at 20 then 5M at 10 both
      start the read at 0, so the second overlaps the first by five read bases. */
  lemma CombineMultipleExamplesSmall()
    ensures CombinedMultiple([], 0) == Err(NoAlignments)
    ensures CombinedMultiple([(10, [(M, 5)])], 0) == Ok((10, [(M, 5)]))
    ensures CombinedMultiple([(20, [(M, 5)]), (10, [(M, 5)])], 0) == Err(QueryOverlap)
  {
    var a: Alignment := (20, [(M, 5)]);
    var b: Alignment := (10, [(M, 5)]);
    var s := [a, b];
    assert s[..1] == [a];
    assert [a][..0] == [];
    assert SortByQueryStart([a]) == [a];
    assert QueryStart(a) == 0 && QueryStart(b) == 0;
    assert SortByQueryStart(s) == s;
    ConsumptionByKind(M);
    assert CountsForQueryOffset(M);
    var none: CigarTuples := [];
    SumWhereCons((M, 5), [], CountsForQueryOffset);
    assert [(M, 5)] + none == [(M, 5)];
    assert QueryBlock(a.1) == (0, 5);
    assert PairViolation(a, b, 0) == Some(QueryOverlap);
  }

  /** The worked example of combine_multiple_alignments' docstring. None of the three
      alignments is clipped, so each starts the read at 0, and the first (eight aligned
      read bases) overlaps the second by eight where two are allowed: the call raises
      instead of returning the docstring's (10, 5M2D7M2I7M). */
  lemma CombineMultipleDocstringExample(s: seq<Alignment>)
    requires s == [(10, [(M, 5), (D, 2), (M, 3)]), (25, [(M, 4), (I, 2), (M, 2)]), (35, [(M, 5)])]
    ensures CombinedMultiple(s, 2) == Err(QueryOverlap)
  {
    var a, b, c := s[0], s[1], s[2];
    assert QueryStart(a) == 0 && QueryStart(b) == 0 && QueryStart(c) == 0;
    SortInOrderThree(a, b, c);
    assert s == [a, b, c];
    assert AllNonEmpty(s);
    DocstringOverlap(a, b);
    assert Violation(s, 2) == Some(QueryOverlap);
  }

  /** 5M2D3M ends on the read at 8, and 4M2I2M starts at 0. */
  lemma DocstringOverlap(a: Alignment, b: Alignment)
    requires a == (10, [(M, 5), (D, 2), (M, 3)]) && b == (25, [(M, 4), (I, 2), (M, 2)])
    ensures PairViolation(a, b, 2) == Some(QueryOverlap)
  {
    var none: CigarTuples := [];
    QueryOffsetAppend(none, M, 5);
    assert none + [(M, 5)] == [(M, 5)];
    QueryOffsetAppend([(M, 5)], D, 2);
    QueryOffsetAppend([(M, 5), (D, 2)], M, 3);
    assert [(M, 5)] + [(D, 2)] == [(M, 5), (D, 2)];
    assert [(M, 5), (D, 2)] + [(M, 3)] == a.1;
    assert QueryBlock(a.1) == (0, 8);
    assert QueryBlock(b.1).0 == 0;
  }

  /** Combining across a gap when the joined ops have no neighbouring runs of one kind:
      the result is those ops as they are. */
  lemma CombineAcrossGap(first: Alignment, second: Alignment, gapSize: int)
    requires first.1 != [] && second.1 != [] && first.0 < second.0
    requires gapSize == second.0 - (first.0 + ReferenceOffset(Declip(first.1))) > 0
    requires NoAdjacentSame(Declip(first.1) + [(D, gapSize)] + Declip(second.1))
    ensures CombinedAdjacent(first, second) == Ok((first.0, Declip(first.1) + [(D, gapSize)] + Declip(second.1)))
  {
    var j := Declip(first.1) + [(D, gapSize)] + Declip(second.1);
    JoinedAcrossGap(first.0, Declip(first.1), second.0, Declip(second.1));
    CombinedFromJoin(first, second, j);
    CollapseOfCollapsed(j);
  }

  /** Once the declipped CIGARs join, the combination is the collapse of the join. */
  lemma CombinedFromJoin(first: Alignment, second: Alignment, j: CigarTuples)
    requires first.1 != [] && second.1 != [] && first.0 < second.0
    requires Joined(first.0, Declip(first.1), second.0, Declip(second.1)) == Ok(j)
    ensures CombinedAdjacent(first, second) == Ok((first.0, Collapse(j)))
  {
  }

  /** The three alignments of the first combine_multiple_alignments example. */
  function ThreePartExample(): seq<Alignment> {
    [ (5, [(M, 5), (D, 2), (M, 3), (S, 18)]),
      (20, [(S, 8), (M, 4), (I, 2), (M, 2), (S, 5)]),
      (29, [(S, 16), (M, 5), (I, 2), (M, 3)]) ]
  }

  /** Where the example's alignments start on the read. */
  lemma ThreePartKeys()
    ensures var s := ThreePartExample();
      QueryStart(s[0]) == 0 && QueryStart(s[1]) == 8 && QueryStart(s[2]) == 16
  {
  }

  /** Sorting two alignments already in read order keeps them. */
  lemma SortInOrderPair(a: Alignment, b: Alignment)
    requires QueryStart(a) <= QueryStart(b)
    ensures SortByQueryStart([a, b]) == [a, b]
  {
    var none: seq<Alignment> := [];
    assert [a][..0] == none;
    assert SortByQueryStart([a]) == [a];
    assert [a, b][..1] == [a];
  }

  /** Sorting three alignments already in read order keeps them. */
  lemma SortInOrderThree(a: Alignment, b: Alignment, c: Alignment)
    requires QueryStart(a) <= QueryStart(b) <= QueryStart(c)
    ensures SortByQueryStart([a, b, c]) == [a, b, c]
  {
    SortInOrderPair(a, b);
    assert [a, b, c][..2] == [a, b];
    assert InsertByQueryStart([a, b], c) == [a, b, c];
  }

  /** The example's alignments are already in read order. */
  lemma ThreePartSorted()
    ensures SortByQueryStart(ThreePartExample()) == ThreePartExample()
  {
    var s := ThreePartExample();
    ThreePartKeys();
    SortInOrderThree(s[0], s[1], s[2]);
    assert s == [s[0], s[1], s[2]];
  }

  /** The sizes the example's checks and joins use. */
  lemma ThreePartSizes()
    ensures var s := ThreePartExample();
      && Declip(s[0].1) == [(M, 5), (D, 2), (M, 3)]
      && Declip(s[1].1) == [(M, 4), (I, 2), (M, 2)]
      && Declip(s[2].1) == [(M, 5), (I, 2), (M, 3)]
      && QueryBlock(s[0].1) == (0, 8) && ReferenceOffset(s[0].1) == 10
      && QueryBlock(s[1].1) == (8, 16) && ReferenceOffset(s[1].1) == 6
      && QueryBlock(s[2].1) == (16, 26)
  {
    ConsumptionByKind(M);
    ConsumptionByKind(D);
    ConsumptionByKind(I);
    ConsumptionByKind(S);
  }

  /** The example passes the validation pass with no overlap allowed. */
  lemma ThreePartChecks()
    ensures AllNonEmpty(ThreePartExample())
    ensures Violation(ThreePartExample(), 0) == None
  {
    var s := ThreePartExample();
    ThreePartSizes();
    assert PairViolation(s[0], s[1], 0) == None;
    assert PairViolation(s[1], s[2], 0) == None;
    assert s[1..][0] == s[1] && s[1..][1] == s[2];
    assert s[1..][1..] == [s[2]];
  }

  /** The first join of the example: a five-position gap. */
  lemma ThreePartFirstJoin()
    ensures var s := ThreePartExample();
      CombinedAdjacent(s[0], s[1]) == Ok((5, [(M, 5), (D, 2), (M, 3), (D, 5), (M, 4), (I, 2), (M, 2)]))
  {
    var s := ThreePartExample();
    ThreePartSizes();
    var j: CigarTuples := [(M, 5), (D, 2), (M, 3), (D, 5), (M, 4), (I, 2), (M, 2)];
    assert [(M, 5), (D, 2), (M, 3)] + [(D, 5)] + [(M, 4), (I, 2), (M, 2)] == j;
    DeclipOffsets(s[0].1);
    CombineAcrossGap(s[0], s[1], 5);
  }

  /** The second join of the example: a three-position gap. */
  lemma ThreePartSecondJoin()
    ensures var s := ThreePartExample();
      var first: Alignment := (5, [(M, 5), (D, 2), (M, 3), (D, 5), (M, 4), (I, 2), (M, 2)]);
      CombinedAdjacent(first, s[2]) ==
        Ok((5, [(M, 5), (D, 2), (M, 3), (D, 5), (M, 4), (I, 2), (M, 2), (D, 3), (M, 5), (I, 2), (M, 3)]))
  {
    var s := ThreePartExample();
    ThreePartSizes();
    var c: CigarTuples := [(M, 5), (D, 2), (M, 3), (D, 5), (M, 4), (I, 2), (M, 2)];
    DeclipUnclipped(c);
    ConsumptionByKind(M);
    ConsumptionByKind(D);
    ConsumptionByKind(I);
    assert ReferenceOffset(c) == 21;
    var j: CigarTuples := [(M, 5), (D, 2), (M, 3), (D, 5), (M, 4), (I, 2), (M, 2), (D, 3), (M, 5), (I, 2), (M, 3)];
    var d2: CigarTuples := [(M, 5), (I, 2), (M, 3)];
    assert Declip(s[2].1) == d2;
    ThreePartSecondPieces(c, d2, j);
    CombineAcrossGap((5, c), s[2], 3);
  }

  /** The second join's pieces fit together with no two neighbouring runs of one kind. */
  lemma ThreePartSecondPieces(c: CigarTuples, d2: CigarTuples, j: CigarTuples)
    requires c == [(M, 5), (D, 2), (M, 3), (D, 5), (M, 4), (I, 2), (M, 2)]
    requires d2 == [(M, 5), (I, 2), (M, 3)]
    requires j == [(M, 5), (D, 2), (M, 3), (D, 5), (M, 4), (I, 2), (M, 2), (D, 3), (M, 5), (I, 2), (M, 3)]
    ensures c + [(D, 3)] + d2 == j && NoAdjacentSame(j)
  {
  }

  /** combine_multiple_alignments on 5M2D3M18S at 5, 8S4M2I2M5S at 20 and 16S5M2I3M at
      29: the parts are in read order, pass their checks, and join across gaps of 5
      and 3 reference positions. */
  lemma CombineMultipleExampleThreeParts()
    ensures CombinedMultiple(ThreePartExample(), 0) ==
      Ok((5, [(M, 5), (D, 2), (M, 3), (D, 5), (M, 4), (I, 2), (M, 2), (D, 3), (M, 5), (I, 2), (M, 3)]))
  {
    var s := ThreePartExample();
    ThreePartSorted();
    ThreePartChecks();
    CombinedMultipleSeveral(s, 0);
    ThreePartFold(s);
  }

  /** The three-part example's fold: two joins across gaps. */
  lemma ThreePartFold(s: seq<Alignment>)
    requires s == ThreePartExample()
    ensures FoldCombine(s[0], s[1..]) ==
      Ok((5, [(M, 5), (D, 2), (M, 3), (D, 5), (M, 4), (I, 2), (M, 2), (D, 3), (M, 5), (I, 2), (M, 3)]))
  {
    var a1: Alignment := (5, [(M, 5), (D, 2), (M, 3), (D, 5), (M, 4), (I, 2), (M, 2)]);
    var a2: Alignment := (5, [(M, 5), (D, 2), (M, 3), (D, 5), (M, 4), (I, 2), (M, 2), (D, 3), (M, 5), (I, 2), (M, 3)]);
    ThreePartFirstJoin();
    ThreePartSecondJoin();
    var none: seq<Alignment> := [];
    assert s[1..][0] == s[1] && s[1..][1..] == [s[2]];
    FoldCons(s[0], s[1..], a1);
    FoldCons(a1, [s[2]], a2);
    assert [s[2]][1..] == none;
  }

  /** The second combine_multiple_alignments example: the middle alignment starts six
      reference positions before the first ends. */
  function OverlappingExample(): seq<Alignment> {
    [ (5, [(M, 5), (D, 2), (M, 3), (S, 18)]),
      (9, [(S, 8), (M, 4), (I, 2), (M, 2), (S, 10)]),
      (29, [(S, 16), (M, 5), (I, 2), (M, 3)]) ]
  }

  /** The sizes the overlapping example's checks and joins use. */
  lemma OverlappingSizes()
    ensures var s := OverlappingExample();
      && AllNonEmpty(s)
      && Declip(s[0].1) == [(M, 5), (D, 2), (M, 3)]
      && Declip(s[1].1) == [(M, 4), (I, 2), (M, 2)]
      && Declip(s[2].1) == [(M, 5), (I, 2), (M, 3)]
      && QueryBlock(s[0].1) == (0, 8) && ReferenceOffset(s[0].1) == 10
      && QueryBlock(s[1].1) == (8, 16) && ReferenceOffset(s[1].1) == 6
      && QueryBlock(s[2].1) == (16, 26)
  {
    ConsumptionByKind(M);
    ConsumptionByKind(D);
    ConsumptionByKind(I);
    ConsumptionByKind(S);
  }

  /** The overlapping example's alignments are already in read order. */
  lemma OverlappingSorted()
    ensures SortByQueryStart(OverlappingExample()) == OverlappingExample()
  {
    var s := OverlappingExample();
    OverlappingKeys(s);
    SortInOrderThree(s[0], s[1], s[2]);
    assert s == [s[0], s[1], s[2]];
  }

  /** Where the overlapping example's alignments start on the read. */
  lemma OverlappingKeys(s: seq<Alignment>)
    requires s == OverlappingExample()
    ensures QueryStart(s[0]) == 0 && QueryStart(s[1]) == 8 && QueryStart(s[2]) == 16
  {
  }

  /** Six read bases off the start of 4M2I2M leave 2M. */
  lemma OverlappingTrim()
    ensures Trimmed([(M, 4), (I, 2), (M, 2)], 6, true).0 == [(M, 2)]
  {
    ConsumptionByKind(M);
    ConsumptionByKind(I);
    var d2: CigarTuples := [(M, 4), (I, 2), (M, 2)];
    var none: CigarTuples := [];
    assert d2[1..] == [(I, 2), (M, 2)] && d2[1..][1..] == [(M, 2)];
    TrimWalkDone(d2[1..][1..], 0);
    assert TrimStep(I, 2, 2) == ([], 0, 0);
    assert none + [(M, 2)] == [(M, 2)];
    assert TrimWalk(d2[1..], 2).0 == [(M, 2)];
    assert TrimStep(M, 4, 6) == ([], 2, 4);
  }

  /** The first join of the overlapping example: six read bases, 4M2I, come off the
      second, and the rest merges into the first's last run. */
  lemma OverlappingFirstJoin()
    ensures var s := OverlappingExample();
      CombinedAdjacent(s[0], s[1]) == Ok((5, [(M, 5), (D, 2), (M, 5)]))
  {
    var s := OverlappingExample();
    OverlappingSizes();
    DeclipOffsets(s[0].1);
    OverlappingTrim();
    var j: CigarTuples := [(M, 5), (D, 2), (M, 3), (M, 2)];
    assert [(M, 5), (D, 2), (M, 3)] + [(M, 2)] == j;
    assert Joined(5, [(M, 5), (D, 2), (M, 3)], 9, [(M, 4), (I, 2), (M, 2)]) == Ok(j);
    assert j[..3] == [(M, 5), (D, 2), (M, 3)];
    assert NoAdjacentSame(j[..3]);
    CollapseOfCollapsed(j[..3]);
    assert Collapse(j) == PushRun(j[..3], (M, 2));
    assert j[..3][..2] == [(M, 5), (D, 2)];
    assert PushRun(j[..3], (M, 2)) == [(M, 5), (D, 2), (M, 5)];
    assert Declip(s[0].1) == [(M, 5), (D, 2), (M, 3)] && Declip(s[1].1) == [(M, 4), (I, 2), (M, 2)];
    assert Joined(s[0].0, Declip(s[0].1), s[1].0, Declip(s[1].1)) == Ok(j);
  }

  /** The second join of the overlapping example: a twelve-position gap. */
  lemma OverlappingSecondJoin()
    ensures var s := OverlappingExample();
      var first: Alignment := (5, [(M, 5), (D, 2), (M, 5)]);
      CombinedAdjacent(first, s[2]) == Ok((5, [(M, 5), (D, 2), (M, 5), (D, 12), (M, 5), (I, 2), (M, 3)]))
  {
    var s := OverlappingExample();
    OverlappingSizes();
    var c: CigarTuples := [(M, 5), (D, 2), (M, 5)];
    DeclipUnclipped(c);
    ConsumptionByKind(M);
    ConsumptionByKind(D);
    assert ReferenceOffset(c) == 12;
    var j: CigarTuples := [(M, 5), (D, 2), (M, 5), (D, 12), (M, 5), (I, 2), (M, 3)];
    assert c + [(D, 12)] + [(M, 5), (I, 2), (M, 3)] == j;
    CombineAcrossGap((5, c), s[2], 12);
  }

  /** combine_multiple_alignments on 5M2D3M18S at 5, 8S4M2I2M10S at 9 and 16S5M2I3M at
      29: with no overlap allowed the middle part is out of sequence on the reference;
      with ten allowed it is trimmed where it overlaps the first. */
  lemma CombineMultipleExampleOverlapping()
    ensures CombinedMultiple(OverlappingExample(), 0) == Err(NotSequential)
    ensures CombinedMultiple(OverlappingExample(), 10) ==
      Ok((5, [(M, 5), (D, 2), (M, 5), (D, 12), (M, 5), (I, 2), (M, 3)]))
  {
    var s := OverlappingExample();
    OverlappingSorted();
    OverlappingChecks(s);
    CombinedMultipleSeveral(s, 0);
    CombinedMultipleSeveral(s, 10);
    OverlappingFold(s);
  }

  /** The overlapping example's checks: the middle part starts before the first ends,
      which only an allowed overlap of at least six lets through. */
  lemma OverlappingChecks(s: seq<Alignment>)
    requires s == OverlappingExample()
    ensures AllNonEmpty(s)
    ensures Violation(s, 0) == Some(NotSequential)
    ensures Violation(s, 10) == None
  {
    OverlappingSizes();
    assert PairViolation(s[0], s[1], 0) == Some(NotSequential);
    assert PairViolation(s[0], s[1], 10) == None;
    assert PairViolation(s[1], s[2], 10) == None;
    assert s[1..][0] == s[1] && s[1..][1] == s[2];
    assert s[1..][1..] == [s[2]];
  }

  /** The overlapping example's fold: two joins. */
  lemma OverlappingFold(s: seq<Alignment>)
    requires s == OverlappingExample()
    ensures FoldCombine(s[0], s[1..]) == Ok((5, [(M, 5), (D, 2), (M, 5), (D, 12), (M, 5), (I, 2), (M, 3)]))
  {
    var a1: Alignment := (5, [(M, 5), (D, 2), (M, 5)]);
    var a2: Alignment := (5, [(M, 5), (D, 2), (M, 5), (D, 12), (M, 5), (I, 2), (M, 3)]);
    OverlappingFirstJoin();
    OverlappingSecondJoin();
    var none: seq<Alignment> := [];
    assert s[1..][0] == s[1] && s[1..][1..] == [s[2]];
    FoldCons(s[0], s[1..], a1);
    FoldCons(a1, [s[2]], a2);
    assert [s[2]][1..] == none;
  }
}
