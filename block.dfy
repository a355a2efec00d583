/**
  Reference and query spans of an alignment (block.py). A span is a half-open
  `(start, stop)` pair of positions.
 */
module Block {
  import opened Defn
  import opened Clipping

  /** The half-open interval of positions an aligned segment covers. */
  type Span = (int, int)

  /** reference_offset: the number of reference positions the CIGAR covers. */
  function ReferenceOffset(c: CigarTuples): nat {
    SumWhere(c, ConsumesReference)
  }

  /** reference_block: the reference span from `referenceStart`. */
  function ReferenceBlock(c: CigarTuples, referenceStart: int): (b: Span)
    ensures b.0 == referenceStart && b.1 - b.0 == ReferenceOffset(c)
  {
    (referenceStart, referenceStart + ReferenceOffset(c))
  }

  /** The ops `query_offest` counts: the query-consuming ones, except the clips. */
  predicate CountsForQueryOffset(op: Op) {
    ConsumesQuery(op) && !IsClip(op)
  }

  /** query_offest (sic): aligned query bases, clips excluded. */
  function QueryOffset(c: CigarTuples): nat {
    SumWhere(c, CountsForQueryOffset)
  }

  /** query_block: the query span of the aligned part, after the left clip. */
  function QueryBlock(c: CigarTuples): (b: Span)
    requires |c| > 0
    ensures b.0 == LeftClipping(c, true) && b.1 - b.0 == QueryOffset(c)
  {
    var queryStart := LeftClipping(c, true);
    (queryStart, queryStart + QueryOffset(c))
  }

  /** block_overlap_length: overlap of two spans, negative for the distance between them. */
  function BlockOverlapLength(a: Span, b: Span): int {
    (if a.1 <= b.1 then a.1 else b.1) - (if a.0 >= b.0 then a.0 else b.0)
  }

  /** One more op moves the reference end by its length exactly when it is M, D, N, = or X:
      clips and insertions leave it, deletions extend it. */
  lemma ReferenceOffsetAppend(c: CigarTuples, op: Op, n: nat)
    ensures ReferenceOffset(c + [(op, n)]) == ReferenceOffset(c) + (if op in {M, D, N, Eq, X} then n else 0)
  {
    SumWhereAppend(c, [(op, n)], ConsumesReference);
    ConsumptionByKind(op);
  }

  /** One more op moves the query end by its length exactly when it is M, I, = or X:
      deletions and both clips leave it. */
  lemma QueryOffsetAppend(c: CigarTuples, op: Op, n: nat)
    ensures QueryOffset(c + [(op, n)]) == QueryOffset(c) + (if op in {M, I, Eq, X} then n else 0)
  {
    SumWhereAppend(c, [(op, n)], CountsForQueryOffset);
    ConsumptionByKind(op);
  }

  /** Spans concatenate: the reference offset is additive. */
  lemma ReferenceOffsetConcat(a: CigarTuples, b: CigarTuples)
    ensures ReferenceOffset(a + b) == ReferenceOffset(a) + ReferenceOffset(b)
  {
    SumWhereAppend(a, b, ConsumesReference);
  }

  /** Overlap does not depend on the order of the two spans. */
  lemma OverlapSymmetric(a: Span, b: Span)
    ensures BlockOverlapLength(a, b) == BlockOverlapLength(b, a)
  {
  }

  /** Spans that touch (one ends where the other starts) overlap by 0. */
  lemma OverlapAdjacent(a: Span, b: Span)
    requires a.0 <= a.1 == b.0 <= b.1
    ensures BlockOverlapLength(a, b) == 0
  {
  }

  /** Disjoint spans give minus the gap between them. */
  lemma OverlapDisjoint(a: Span, b: Span)
    requires a.0 <= a.1 <= b.0 <= b.1
    ensures BlockOverlapLength(a, b) == -(b.0 - a.1)
  {
  }

  /** A span inside another overlaps it by its own length. */
  lemma OverlapEncased(outer: Span, inner: Span)
    requires outer.0 <= inner.0 <= inner.1 <= outer.1
    ensures BlockOverlapLength(outer, inner) == inner.1 - inner.0
  {
  }

  predicate InSpan(p: int, s: Span) {
    s.0 <= p < s.1
  }

  /** Spans overlap by a positive length exactly when some position lies in both. */
  lemma OverlapIsIntersection(a: Span, b: Span)
    ensures BlockOverlapLength(a, b) > 0 <==> exists p :: InSpan(p, a) && InSpan(p, b)
  {
    if BlockOverlapLength(a, b) > 0 {
      var p := if a.0 >= b.0 then a.0 else b.0;
      assert InSpan(p, a) && InSpan(p, b);
    }
  }

  /** The 3H4M1D3M2I3M4H example of the docstrings of block.py. The code gives a
      reference length of 11, the span (3, 14) from 3, an aligned query length of 12
      and the query span (3, 15); the docstrings print 10, (3, 13), 11 and (3, 12). */
  lemma DocstringSpans(c: CigarTuples)
    requires c == [(H, 3), (M, 4), (D, 1), (M, 3), (I, 2), (M, 3), (H, 4)]
    ensures ReferenceOffset(c) == 11 && ReferenceBlock(c, 3) == (3, 14)
    ensures QueryOffset(c) == 12 && QueryBlock(c) == (3, 15)
  {
    DocstringReferenceOffset(c);
    DocstringQueryOffset(c);
  }

  /** The reference half of DocstringSpans, the CIGAR built up one op at a time. */
  lemma DocstringReferenceOffset(c: CigarTuples)
    requires c == [(H, 3), (M, 4), (D, 1), (M, 3), (I, 2), (M, 3), (H, 4)]
    ensures ReferenceOffset(c) == 11
  {
    var u0: CigarTuples := [];
    var u1 := u0 + [(H, 3)];
    var u2 := u1 + [(M, 4)];
    var u3 := u2 + [(D, 1)];
    var u4 := u3 + [(M, 3)];
    var u5 := u4 + [(I, 2)];
    var u6 := u5 + [(M, 3)];
    ReferenceOffsetAppend(u0, H, 3);
    ReferenceOffsetAppend(u1, M, 4);
    ReferenceOffsetAppend(u2, D, 1);
    ReferenceOffsetAppend(u3, M, 3);
    ReferenceOffsetAppend(u4, I, 2);
    ReferenceOffsetAppend(u5, M, 3);
    ReferenceOffsetAppend(u6, H, 4);
    assert u6 + [(H, 4)] == c;
  }

  /** The query half of DocstringSpans. */
  lemma DocstringQueryOffset(c: CigarTuples)
    requires c == [(H, 3), (M, 4), (D, 1), (M, 3), (I, 2), (M, 3), (H, 4)]
    ensures QueryOffset(c) == 12
  {
    var u0: CigarTuples := [];
    var u1 := u0 + [(H, 3)];
    var u2 := u1 + [(M, 4)];
    var u3 := u2 + [(D, 1)];
    var u4 := u3 + [(M, 3)];
    var u5 := u4 + [(I, 2)];
    var u6 := u5 + [(M, 3)];
    QueryOffsetAppend(u0, H, 3);
    QueryOffsetAppend(u1, M, 4);
    QueryOffsetAppend(u2, D, 1);
    QueryOffsetAppend(u3, M, 3);
    QueryOffsetAppend(u4, I, 2);
    QueryOffsetAppend(u5, M, 3);
    QueryOffsetAppend(u6, H, 4);
    assert u6 + [(H, 4)] == c;
  }

  /** The two `>>>` examples of block_overlap_length's docstring. The code gives 3 and
      -8 where the docstring prints 4 and -7: the spans are half-open. */
  lemma DocstringOverlaps()
    ensures BlockOverlapLength((4, 13), (10, 19)) == 3
    ensures BlockOverlapLength((4, 8), (16, 25)) == -8
  {
  }
}
