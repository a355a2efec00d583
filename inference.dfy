/**
  The lengths a CIGAR implies for the query sequence and the reference (inference.py).
 */
module Inference {
  import opened Defn
  import opened Block

  /** inferred_query_sequence_length: the length SEQ must have, soft clips included. */
  function InferredQuerySequenceLength(c: CigarTuples): nat {
    SumWhere(c, ConsumesQuery)
  }

  /** inferred_reference_length: the reference positions covered. */
  function InferredReferenceLength(c: CigarTuples): nat {
    SumWhere(c, ConsumesReference)
  }

  /** The query length is the sum of the M, I, S, = and X lengths; H, D, N and P add nothing. */
  lemma QueryLengthByKind(c: CigarTuples)
    ensures InferredQuerySequenceLength(c) == SumWhere(c, op => op in {M, I, S, Eq, X})
    ensures SumWhere(c, op => op in {H, D, N, P}) > 0 ==>
      InferredQuerySequenceLength(c) < TotalLength(c)
  {
    forall op ensures ConsumesQuery(op) == (op in {M, I, S, Eq, X}) {
      ConsumptionByKind(op);
    }
    SumWhereSame(c, ConsumesQuery, op => op in {M, I, S, Eq, X});
    forall op ensures (AnyOp)(op) == (ConsumesQuery(op) || !ConsumesQuery(op)) {
    }
    SumWhereSplit(c, AnyOp, ConsumesQuery, op => !ConsumesQuery(op));
    forall op ensures (op in {H, D, N, P}) ==> !ConsumesQuery(op) {
      ConsumptionByKind(op);
    }
    SumWhereLe(c, op => op in {H, D, N, P}, op => !ConsumesQuery(op));
  }

  /** The reference length is the sum of the M, D, N, = and X lengths, and is the
      reference offset of block.py. */
  lemma ReferenceLengthByKind(c: CigarTuples)
    ensures InferredReferenceLength(c) == SumWhere(c, op => op in {M, D, N, Eq, X})
    ensures InferredReferenceLength(c) == ReferenceOffset(c)
  {
    forall op ensures ConsumesReference(op) == (op in {M, D, N, Eq, X}) {
      ConsumptionByKind(op);
    }
    SumWhereSame(c, ConsumesReference, op => op in {M, D, N, Eq, X});
  }

  /** Both lengths add up over concatenated CIGARs. */
  lemma InferredLengthsAdditive(a: CigarTuples, b: CigarTuples)
    ensures InferredQuerySequenceLength(a + b) == InferredQuerySequenceLength(a) + InferredQuerySequenceLength(b)
    ensures InferredReferenceLength(a + b) == InferredReferenceLength(a) + InferredReferenceLength(b)
  {
    SumWhereAppend(a, b, ConsumesQuery);
    SumWhereAppend(a, b, ConsumesReference);
  }

  /** The inferred query length is the aligned query length plus the soft clips (anywhere). */
  lemma QueryLengthIsOffsetPlusSoftClips(c: CigarTuples)
    ensures InferredQuerySequenceLength(c) == QueryOffset(c) + SumWhere(c, op => op == S)
  {
    forall op ensures ConsumesQuery(op) == (CountsForQueryOffset(op) || op == S) {
      ConsumptionByKind(op);
    }
    SumWhereSplit(c, ConsumesQuery, CountsForQueryOffset, op => op == S);
  }

  /** A selector implied by another sums to no more. */
  lemma {:induction false} SumWhereLe(c: CigarTuples, f: Op -> bool, g: Op -> bool)
    requires forall op :: f(op) ==> g(op)
    ensures SumWhere(c, f) <= SumWhere(c, g)
  {
    if c != [] {
      SumWhereLe(c[1..], f, g);
    }
  }

  /** The 3H4M1D3M2I3M4H example of the two docstrings. The code infers a query length
      of 12, the M, I and M lengths (hard clips are not in the query sequence); the
      docstring prints 19. The reference length 11 agrees with it. */
  lemma DocstringLengths(c: CigarTuples)
    requires c == [(H, 3), (M, 4), (D, 1), (M, 3), (I, 2), (M, 3), (H, 4)]
    ensures InferredQuerySequenceLength(c) == 12
    ensures InferredReferenceLength(c) == 11
  {
    DocstringSpans(c);
    ReferenceLengthByKind(c);
    var t6: CigarTuples := [(H, 4)];
    var t5: CigarTuples := [(M, 3)] + t6;
    var t4: CigarTuples := [(I, 2)] + t5;
    var t3: CigarTuples := [(M, 3)] + t4;
    var t2: CigarTuples := [(D, 1)] + t3;
    var t1: CigarTuples := [(M, 4)] + t2;
    assert c == [(H, 3)] + t1;
    assert t6[1..] == [] && t5[1..] == t6 && t4[1..] == t5 && t3[1..] == t4;
    assert t2[1..] == t3 && t1[1..] == t2 && c[1..] == t1;
    assert InferredQuerySequenceLength(t6) == 0 && InferredQuerySequenceLength(t5) == 3;
    assert InferredQuerySequenceLength(t4) == 5 && InferredQuerySequenceLength(t3) == 8;
    assert InferredQuerySequenceLength(t2) == 8 && InferredQuerySequenceLength(t1) == 12;
  }
}
