/**
  Position maps between read and reference (mapping.py). Each map is a pass over the
  walk of cigar_iterator, passing on one field of the records that have a reference
  position (reference2query) or a query position (query2reference, query2cigar).
  mapping.py carries its own copy of cigar_iterator and CigarIndex; the copy does the
  same as the one in iterators.py, so both are the walk of the Iterators module.
 */
module Mapping {
  import opened Wrappers
  import opened Defn
  import opened Block
  import opened Inference
  import opened Iterators

  /** The query position of each record, in order. */
  function QueriesOf(recs: seq<CigarIndex>): (r: seq<Option<nat>>)
    ensures |r| == |recs|
  {
    seq(|recs|, i requires 0 <= i < |recs| => recs[i].queryIndex)
  }

  /** The reference position of each record, in order. */
  function ReferencesOf(recs: seq<CigarIndex>): (r: seq<Option<int>>)
    ensures |r| == |recs|
  {
    seq(|recs|, i requires 0 <= i < |recs| => recs[i].referenceIndex)
  }

  /** The (op index, unit index) pair of each record, in order. */
  function CigarPositionsOf(recs: seq<CigarIndex>): (r: seq<(nat, nat)>)
    ensures |r| == |recs|
  {
    seq(|recs|, i requires 0 <= i < |recs| => (recs[i].cigarIndex, recs[i].cigarBlockIndex))
  }

  /** Reference definition of reference2query: for each reference position, the query
      position aligned to it, or None across a deletion or skip. */
  function R2Q(c: CigarTuples, rs: int): seq<Option<nat>> {
    QueriesOf(ReferenceRecords(c, rs))
  }

  /** Reference definition of query2reference: for each query position, the reference
      position aligned to it, or None for an insertion or clip. */
  function Q2R(c: CigarTuples, rs: int): seq<Option<int>> {
    ReferencesOf(QueryRecords(c, rs))
  }

  /** Reference definition of query2cigar: for each query position, its op and unit. */
  function Q2C(c: CigarTuples, rs: int): seq<(nat, nat)> {
    CigarPositionsOf(QueryRecords(c, rs))
  }

  /** Filtering one record further along. */
  lemma FilterPrefixStep(recs: seq<CigarIndex>, i: nat, keep: CigarIndex -> bool)
    requires i < |recs|
    ensures Filter(recs[..i + 1], keep) == Filter(recs[..i], keep) + (if keep(recs[i]) then [recs[i]] else [])
  {
    assert recs[..i + 1] == recs[..i] + [recs[i]];
    FilterAppend(recs[..i], [recs[i]], keep);
  }

  /** reference2query. The walk indexes the first op, so an empty CIGAR raises IndexError
      in the source. */
  method Reference2Query(c: CigarTuples, referenceStart: int) returns (r2q: seq<Option<nat>>)
    requires |c| > 0
    ensures r2q == R2Q(c, referenceStart)
  {
    var recs := CigarIterator(c, referenceStart);
    r2q := [];
    for i := 0 to |recs|
      invariant r2q == QueriesOf(Filter(recs[..i], HasReference))
    {
      FilterPrefixStep(recs, i, HasReference);
      if recs[i].referenceIndex.Some? {
        r2q := r2q + [recs[i].queryIndex];
      }
    }
    assert recs[..|recs|] == recs;
  }

  /** query2reference. */
  method Query2Reference(c: CigarTuples, referenceStart: int) returns (q2r: seq<Option<int>>)
    requires |c| > 0
    ensures q2r == Q2R(c, referenceStart)
  {
    var recs := CigarIterator(c, referenceStart);
    q2r := [];
    for i := 0 to |recs|
      invariant q2r == ReferencesOf(Filter(recs[..i], HasQuery))
    {
      FilterPrefixStep(recs, i, HasQuery);
      if recs[i].queryIndex.Some? {
        q2r := q2r + [recs[i].referenceIndex];
      }
    }
    assert recs[..|recs|] == recs;
  }

  /** query2cigar. */
  method Query2Cigar(c: CigarTuples, referenceStart: int) returns (q2c: seq<(nat, nat)>)
    requires |c| > 0
    ensures q2c == Q2C(c, referenceStart)
  {
    var recs := CigarIterator(c, referenceStart);
    q2c := [];
    for i := 0 to |recs|
      invariant q2c == CigarPositionsOf(Filter(recs[..i], HasQuery))
    {
      FilterPrefixStep(recs, i, HasQuery);
      if recs[i].queryIndex.Some? {
        q2c := q2c + [(recs[i].cigarIndex, recs[i].cigarBlockIndex)];
      }
    }
    assert recs[..|recs|] == recs;
  }

  /** reference2query has one entry per reference position the alignment covers. */
  lemma R2QLength(c: CigarTuples, rs: int)
    ensures |R2Q(c, rs)| == ReferenceOffset(c) == InferredReferenceLength(c)
  {
    ReferencePositionsDense(c, rs);
  }

  /** query2reference and query2cigar have one entry per query base, counting a leading hard
      clip as query bases (it goes through the leading-clip walk) but not a trailing one. */
  lemma QueryMapsLength(c: CigarTuples, rs: int)
    ensures |Q2R(c, rs)| == |Q2C(c, rs)|
    ensures |Q2R(c, rs)| == InferredQuerySequenceLength(c) + (if |c| > 0 && c[0].0 == H then c[0].1 else 0)
  {
    QueryPositionsDense(c, rs);
    assert c[..|c|] == c;
  }

  /** The maps are inverse where both are defined: if reference position `rs + i` maps to
      query position `q`, then `q` maps back to `rs + i`, and the other way round. */
  lemma MapsInverse(c: CigarTuples, rs: int)
    ensures forall i :: 0 <= i < |R2Q(c, rs)| && R2Q(c, rs)[i].Some? ==>
      R2Q(c, rs)[i].value < |Q2R(c, rs)| && Q2R(c, rs)[R2Q(c, rs)[i].value] == Some(rs + i)
    ensures forall j :: 0 <= j < |Q2R(c, rs)| && Q2R(c, rs)[j].Some? ==>
      rs <= Q2R(c, rs)[j].value < rs + |R2Q(c, rs)| && R2Q(c, rs)[Q2R(c, rs)[j].value - rs] == Some(j)
  {
    var recs := Records(c, rs);
    var rr, qr := ReferenceRecords(c, rs), QueryRecords(c, rs);
    ReferencePositionsDense(c, rs);
    QueryPositionsDense(c, rs);
    forall i | 0 <= i < |rr| && rr[i].queryIndex.Some?
      ensures rr[i].queryIndex.value < |qr| && qr[rr[i].queryIndex.value].referenceIndex == Some(rs + i)
    {
      SameRecord(recs, HasReference, HasQuery, rr[i]);
      var j :| 0 <= j < |qr| && qr[j] == rr[i];
    }
    forall j | 0 <= j < |qr| && qr[j].referenceIndex.Some?
      ensures rs <= qr[j].referenceIndex.value < rs + |rr| && rr[qr[j].referenceIndex.value - rs].queryIndex == Some(j)
    {
      SameRecord(recs, HasQuery, HasReference, qr[j]);
      var i :| 0 <= i < |rr| && rr[i] == qr[j];
    }
  }

  /** A record kept by one filter and passing another is kept by the other too. */
  lemma SameRecord(recs: seq<CigarIndex>, keep: CigarIndex -> bool, other: CigarIndex -> bool, x: CigarIndex)
    requires x in Filter(recs, keep) && other(x)
    ensures exists k :: 0 <= k < |Filter(recs, other)| && Filter(recs, other)[k] == x
  {
    FilterMember(recs, keep, x);
    FilterMember(recs, other, x);
  }

  /** reference2query is None exactly across deletions and skips; query2reference is None
      exactly on insertions and clips, read off through query2cigar. */
  lemma MapGaps(c: CigarTuples, rs: int)
    ensures forall i :: 0 <= i < |R2Q(c, rs)| ==>
      (R2Q(c, rs)[i].None? <==> ReferenceRecords(c, rs)[i].cigarOp in {D, N})
    ensures forall j :: 0 <= j < |Q2C(c, rs)| ==>
      Q2C(c, rs)[j].0 < |c| && Q2C(c, rs)[j].1 < c[Q2C(c, rs)[j].0].1 &&
      (Q2R(c, rs)[j].None? <==> c[Q2C(c, rs)[j].0].0 in {I, S, H})
  {
    var recs := Records(c, rs);
    var rr, qr := ReferenceRecords(c, rs), QueryRecords(c, rs);
    RecordsShape(c, rs);
    forall i | 0 <= i < |rr|
      ensures rr[i].queryIndex.None? <==> rr[i].cigarOp in {D, N}
    {
      FilterMember(recs, HasReference, rr[i]);
      var k :| 0 <= k < |recs| && recs[k] == rr[i];
      RecordIsUnit(c, rs, k);
      ConsumptionByKind(rr[i].cigarOp);
    }
    forall j | 0 <= j < |qr|
      ensures qr[j].cigarIndex < |c| && qr[j].cigarBlockIndex < c[qr[j].cigarIndex].1
      ensures qr[j].referenceIndex.None? <==> c[qr[j].cigarIndex].0 in {I, S, H}
    {
      FilterMember(recs, HasQuery, qr[j]);
      var k :| 0 <= k < |recs| && recs[k] == qr[j];
      assert Placed(c, recs[k], k);
      RecordIsUnit(c, rs, k);
      ConsumptionByKind(qr[j].cigarOp);
    }
  }

  /** Along the reference the aligned query positions strictly increase. */
  lemma R2QIncrease(c: CigarTuples, rs: int, i: nat, j: nat)
    requires i < j < |R2Q(c, rs)| && R2Q(c, rs)[i].Some? && R2Q(c, rs)[j].Some?
    ensures R2Q(c, rs)[i].value < R2Q(c, rs)[j].value
  {
    var recs := Records(c, rs);
    var rr := ReferenceRecords(c, rs);
    RecordsIncrease(c, rs);
    ReferencePositionsDense(c, rs);
    FilterMember(recs, HasReference, rr[i]);
    FilterMember(recs, HasReference, rr[j]);
    var k1 :| 0 <= k1 < |recs| && recs[k1] == rr[i];
    var k2 :| 0 <= k2 < |recs| && recs[k2] == rr[j];
    OrderedByReference(recs, k1, k2);
  }

  /** Along the query the aligned reference positions strictly increase. */
  lemma Q2RIncrease(c: CigarTuples, rs: int, i: nat, j: nat)
    requires i < j < |Q2R(c, rs)| && Q2R(c, rs)[i].Some? && Q2R(c, rs)[j].Some?
    ensures Q2R(c, rs)[i].value < Q2R(c, rs)[j].value
  {
    var recs := Records(c, rs);
    var qr := QueryRecords(c, rs);
    RecordsIncrease(c, rs);
    QueryPositionsDense(c, rs);
    FilterMember(recs, HasQuery, qr[i]);
    FilterMember(recs, HasQuery, qr[j]);
    var k1 :| 0 <= k1 < |recs| && recs[k1] == qr[i];
    var k2 :| 0 <= k2 < |recs| && recs[k2] == qr[j];
    OrderedByQuery(recs, k1, k2);
  }

  /** In a walk where both kinds of position increase, the record with the smaller
      reference position also has the smaller query position. */
  lemma OrderedByReference(recs: seq<CigarIndex>, k1: nat, k2: nat)
    requires k1 < |recs| && k2 < |recs| && ReferencesIncrease(recs) && QueriesIncrease(recs)
    requires HasReference(recs[k1]) && HasReference(recs[k2]) && HasQuery(recs[k1]) && HasQuery(recs[k2])
    requires recs[k1].referenceIndex.value < recs[k2].referenceIndex.value
    ensures recs[k1].queryIndex.value < recs[k2].queryIndex.value
  {
  }

  /** The same with the roles of the two positions swapped. */
  lemma OrderedByQuery(recs: seq<CigarIndex>, k1: nat, k2: nat)
    requires k1 < |recs| && k2 < |recs| && ReferencesIncrease(recs) && QueriesIncrease(recs)
    requires HasReference(recs[k1]) && HasReference(recs[k2]) && HasQuery(recs[k1]) && HasQuery(recs[k2])
    requires recs[k1].queryIndex.value < recs[k2].queryIndex.value
    ensures recs[k1].referenceIndex.value < recs[k2].referenceIndex.value
  {
  }

  /** The records of the running example with a reference position and with a query
      position, op by op. */
  lemma ExampleFilters(recs: seq<CigarIndex>)
    requires recs == ExampleOp(0) + ExampleOp(1) + ExampleOp(2) + ExampleOp(3) + ExampleOp(4) + ExampleOp(5) + ExampleOp(6)
    ensures Filter(recs, HasReference) == ExampleOp(1) + ExampleOp(3) + ExampleOp(4) + ExampleOp(5)
    ensures Filter(recs, HasQuery) == ExampleOp(0) + ExampleOp(1) + ExampleOp(2) + ExampleOp(3)
      + ExampleOp(5) + ExampleOp(6)
  {
    ExampleKinds();
    FilterPieces(recs, ExampleOp(0), ExampleOp(1), ExampleOp(2), ExampleOp(3),
      ExampleOp(4), ExampleOp(5), ExampleOp(6));
  }

  /** Which of the example's op runs carry reference and query positions. */
  lemma ExampleKinds()
    ensures NoneKept(ExampleOp(0), HasReference) && AllKept(ExampleOp(0), HasQuery)
    ensures AllKept(ExampleOp(1), HasReference) && AllKept(ExampleOp(1), HasQuery)
    ensures NoneKept(ExampleOp(2), HasReference) && AllKept(ExampleOp(2), HasQuery)
    ensures AllKept(ExampleOp(3), HasReference) && AllKept(ExampleOp(3), HasQuery)
    ensures AllKept(ExampleOp(4), HasReference) && NoneKept(ExampleOp(4), HasQuery)
    ensures AllKept(ExampleOp(5), HasReference) && AllKept(ExampleOp(5), HasQuery)
    ensures NoneKept(ExampleOp(6), HasReference) && AllKept(ExampleOp(6), HasQuery)
  {
  }

  /** Every record of `r` is kept. */
  predicate AllKept(r: seq<CigarIndex>, keep: CigarIndex -> bool) {
    forall i :: 0 <= i < |r| ==> keep(r[i])
  }

  /** No record of `r` is kept. */
  predicate NoneKept(r: seq<CigarIndex>, keep: CigarIndex -> bool) {
    forall i :: 0 <= i < |r| ==> !keep(r[i])
  }

  /** Filtering a prefix and then a piece kept whole. */
  lemma FilterKeepPiece(a: seq<CigarIndex>, b: seq<CigarIndex>, keep: CigarIndex -> bool)
    requires AllKept(b, keep)
    ensures Filter(a + b, keep) == Filter(a, keep) + b
  {
    FilterAppend(a, b, keep);
    FilterUniform(b, keep);
  }

  /** Filtering a prefix and then a piece dropped whole. */
  lemma FilterDropPiece(a: seq<CigarIndex>, b: seq<CigarIndex>, keep: CigarIndex -> bool)
    requires NoneKept(b, keep)
    ensures Filter(a + b, keep) == Filter(a, keep)
  {
    FilterAppend(a, b, keep);
    FilterUniform(b, keep);
    assert Filter(a, keep) + [] == Filter(a, keep);
  }

  /** Filtering a walk made of seven op runs of the example's kinds: clip, match,
      insertion, match, deletion, match, clip. */
  lemma FilterPieces(recs: seq<CigarIndex>, r0: seq<CigarIndex>, r1: seq<CigarIndex>, r2: seq<CigarIndex>,
                     r3: seq<CigarIndex>, r4: seq<CigarIndex>, r5: seq<CigarIndex>, r6: seq<CigarIndex>)
    requires recs == r0 + r1 + r2 + r3 + r4 + r5 + r6
    requires NoneKept(r0, HasReference) && AllKept(r0, HasQuery)
    requires AllKept(r1, HasReference) && AllKept(r1, HasQuery)
    requires NoneKept(r2, HasReference) && AllKept(r2, HasQuery)
    requires AllKept(r3, HasReference) && AllKept(r3, HasQuery)
    requires AllKept(r4, HasReference) && NoneKept(r4, HasQuery)
    requires AllKept(r5, HasReference) && AllKept(r5, HasQuery)
    requires NoneKept(r6, HasReference) && AllKept(r6, HasQuery)
    ensures Filter(recs, HasReference) == r1 + r3 + r4 + r5
    ensures Filter(recs, HasQuery) == r0 + r1 + r2 + r3 + r5 + r6
  {
    var p1, p2, p3, p4, p5 := r0 + r1, r0 + r1 + r2, r0 + r1 + r2 + r3, r0 + r1 + r2 + r3 + r4,
      r0 + r1 + r2 + r3 + r4 + r5;
    FilterUniform(r0, HasReference);
    FilterKeepPiece(r0, r1, HasReference);
    assert Filter(p1, HasReference) == r1 by { assert [] + r1 == r1; }
    FilterDropPiece(p1, r2, HasReference);
    FilterKeepPiece(p2, r3, HasReference);
    FilterKeepPiece(p3, r4, HasReference);
    FilterKeepPiece(p4, r5, HasReference);
    FilterDropPiece(p5, r6, HasReference);
    FilterUniform(r0, HasQuery);
    FilterKeepPiece(r0, r1, HasQuery);
    FilterKeepPiece(p1, r2, HasQuery);
    FilterKeepPiece(p2, r3, HasQuery);
    FilterDropPiece(p3, r4, HasQuery);
    FilterKeepPiece(p4, r5, HasQuery);
    FilterKeepPiece(p5, r6, HasQuery);
  }

  /** The three projections distribute over concatenation. */
  lemma ProjectionsAppend(a: seq<CigarIndex>, b: seq<CigarIndex>)
    ensures QueriesOf(a + b) == QueriesOf(a) + QueriesOf(b)
    ensures ReferencesOf(a + b) == ReferencesOf(a) + ReferencesOf(b)
    ensures CigarPositionsOf(a + b) == CigarPositionsOf(a) + CigarPositionsOf(b)
  {
  }

  /** The maps of the running example `1S2M2I1M2D1M2S` from reference position 2, as the
      documentation and the tests give them. */
  lemma MapExamples()
    ensures R2Q(ExampleCigar(), 2) == [Some(1), Some(2), Some(5), None, None, Some(6)]
    ensures Q2R(ExampleCigar(), 2) == [None, Some(2), Some(3), None, None, Some(4), Some(7), None, None]
    ensures Q2C(ExampleCigar(), 2) == [(0, 0), (1, 0), (1, 1), (2, 0), (2, 1), (3, 0), (5, 0), (6, 0), (6, 1)]
  {
    ExampleWalkByOp();
    ExampleFilters(Records(ExampleCigar(), 2));
    R2QExample(ReferenceRecords(ExampleCigar(), 2));
    Q2RExample(QueryRecords(ExampleCigar(), 2));
    Q2CExample(QueryRecords(ExampleCigar(), 2));
  }

  /** The query positions of the example's records with a reference position. */
  lemma R2QExample(rr: seq<CigarIndex>)
    requires rr == ExampleOp(1) + ExampleOp(3) + ExampleOp(4) + ExampleOp(5)
    ensures QueriesOf(rr) == [Some(1), Some(2), Some(5), None, None, Some(6)]
  {
    var e1, e3, e4, e5 := ExampleOp(1), ExampleOp(3), ExampleOp(4), ExampleOp(5);
    ProjectionsAppend(e1, e3);
    assert QueriesOf(e1 + e3) == [Some(1), Some(2), Some(5)];
    ProjectionsAppend(e1 + e3, e4);
    assert QueriesOf(e1 + e3 + e4) == [Some(1), Some(2), Some(5), None, None];
    ProjectionsAppend(e1 + e3 + e4, e5);
  }

  /** The reference positions of the example's records with a query position. */
  lemma Q2RExample(qr: seq<CigarIndex>)
    requires qr == ExampleOp(0) + ExampleOp(1) + ExampleOp(2) + ExampleOp(3) + ExampleOp(5) + ExampleOp(6)
    ensures ReferencesOf(qr) == [None, Some(2), Some(3), None, None, Some(4), Some(7), None, None]
  {
    var e0, e1, e2, e3, e5, e6 := ExampleOp(0), ExampleOp(1), ExampleOp(2), ExampleOp(3), ExampleOp(5), ExampleOp(6);
    ProjectionsAppend(e0, e1);
    assert ReferencesOf(e0 + e1) == [None, Some(2), Some(3)];
    ProjectionsAppend(e0 + e1, e2);
    assert ReferencesOf(e0 + e1 + e2) == [None, Some(2), Some(3), None, None];
    ProjectionsAppend(e0 + e1 + e2, e3);
    assert ReferencesOf(e0 + e1 + e2 + e3) == [None, Some(2), Some(3), None, None, Some(4)];
    ProjectionsAppend(e0 + e1 + e2 + e3, e5);
    assert ReferencesOf(e0 + e1 + e2 + e3 + e5) == [None, Some(2), Some(3), None, None, Some(4), Some(7)];
    ProjectionsAppend(e0 + e1 + e2 + e3 + e5, e6);
  }

  /** The op and unit of each of the example's records with a query position. */
  lemma Q2CExample(qr: seq<CigarIndex>)
    requires qr == ExampleOp(0) + ExampleOp(1) + ExampleOp(2) + ExampleOp(3) + ExampleOp(5) + ExampleOp(6)
    ensures CigarPositionsOf(qr) == [(0, 0), (1, 0), (1, 1), (2, 0), (2, 1), (3, 0), (5, 0), (6, 0), (6, 1)]
  {
    var e0, e1, e2, e3, e5, e6 := ExampleOp(0), ExampleOp(1), ExampleOp(2), ExampleOp(3), ExampleOp(5), ExampleOp(6);
    ProjectionsAppend(e0, e1);
    assert CigarPositionsOf(e0 + e1) == [(0, 0), (1, 0), (1, 1)];
    ProjectionsAppend(e0 + e1, e2);
    assert CigarPositionsOf(e0 + e1 + e2) == [(0, 0), (1, 0), (1, 1), (2, 0), (2, 1)];
    ProjectionsAppend(e0 + e1 + e2, e3);
    assert CigarPositionsOf(e0 + e1 + e2 + e3) == [(0, 0), (1, 0), (1, 1), (2, 0), (2, 1), (3, 0)];
    ProjectionsAppend(e0 + e1 + e2 + e3, e5);
    assert CigarPositionsOf(e0 + e1 + e2 + e3 + e5) == [(0, 0), (1, 0), (1, 1), (2, 0), (2, 1), (3, 0), (5, 0)];
    ProjectionsAppend(e0 + e1 + e2 + e3 + e5, e6);
  }
}
