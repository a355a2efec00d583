/**
  The per-position walk over an alignment (iterators.py, and its copy in
  mapping.py): one record per unit of every op, with running alignment,
  reference and query counters, a special case for a leading clip, and the
  reference-region slice of that walk.
 */
module Iterators {
  import opened Wrappers
  import opened Defn
  import opened Block
  import opened Inference

  /** CigarIndex: one position of the alignment. `None` is Python's None. */
  datatype CigarIndex = CigarIndex(
    alignmentIndex: nat,
    referenceIndex: Option<int>,
    queryIndex: Option<nat>,
    cigarIndex: nat,
    cigarBlockIndex: nat,
    cigarOp: Op)

  /** The query counter at the start of op `n`: the query-consuming units before it, plus a
      leading hard clip, whose units the leading-clip case numbers as query positions too. */
  function QueryPrefix(c: CigarTuples, n: nat): nat
    requires n <= |c|
  {
    InferredQuerySequenceLength(c[..n]) + (if n > 0 && c[0].0 == H then c[0].1 else 0)
  }

  /** Whether the records of op `n` carry a query index: query-consuming ops, and a leading clip. */
  predicate HasQueryIndex(c: CigarTuples, n: nat)
    requires n < |c|
  {
    ConsumesQuery(c[n].0) || (n == 0 && IsClip(c[n].0))
  }

  /** The record of unit `b` of op `n`. */
  function UnitRecord(c: CigarTuples, rs: int, n: nat, b: nat): CigarIndex
    requires n < |c|
  {
    var op := c[n].0;
    CigarIndex(
      TotalLength(c[..n]) + b,
      if ConsumesReference(op) then Some(rs + ReferenceOffset(c[..n]) + b) else None,
      if HasQueryIndex(c, n) then Some(QueryPrefix(c, n) + b) else None,
      n,
      b,
      op)
  }

  /** The records of op `n`, one per unit. */
  function OpRecords(c: CigarTuples, rs: int, n: nat): (r: seq<CigarIndex>)
    requires n < |c|
    ensures |r| == c[n].1
    ensures forall b :: 0 <= b < c[n].1 ==> r[b] == UnitRecord(c, rs, n, b)
  {
    seq(c[n].1, b requires 0 <= b < c[n].1 => UnitRecord(c, rs, n, b))
  }

  /** Reference definition of the walk over the first `n` ops. */
  function RecordsUpTo(c: CigarTuples, rs: int, n: nat): seq<CigarIndex>
    requires n <= |c|
  {
    if n == 0 then [] else RecordsUpTo(c, rs, n - 1) + OpRecords(c, rs, n - 1)
  }

  /** Reference definition of cigar_iterator. */
  function Records(c: CigarTuples, rs: int): seq<CigarIndex> {
    RecordsUpTo(c, rs, |c|)
  }

  /** cigar_iterator: the leading-clip walk (`_left_clip_iterator`) and then the nested loops
      that step the three counters, as the source does. The source indexes `cigartuples[0]`,
      so an empty CIGAR raises IndexError there. */
  method CigarIterator(c: CigarTuples, referenceStart: int) returns (recs: seq<CigarIndex>)
    requires |c| > 0
    ensures recs == Records(c, referenceStart)
  {
    var rs := referenceStart;
    var alignmentIndex, queryIndex, start;
    recs, alignmentIndex, queryIndex, start := LeadingWalk(c, rs);
    var referenceIndex := rs - 1;
    for ci := start to |c|
      invariant recs == RecordsUpTo(c, rs, ci)
      invariant alignmentIndex == TotalLength(c[..ci]) - 1
      invariant referenceIndex == rs + ReferenceOffset(c[..ci]) - 1
      invariant queryIndex == QueryPrefix(c, ci) - 1
    {
      var opRecs, a, r, q := OpIterator(c, rs, ci, alignmentIndex, referenceIndex, queryIndex);
      IteratorStep(c, rs, ci, recs, alignmentIndex, referenceIndex, queryIndex, opRecs, a, r, q);
      recs, alignmentIndex, referenceIndex, queryIndex := recs + opRecs, a, r, q;
    }
    assert c[..|c|] == c;
  }

  /** The loop invariant of cigar_iterator carried past op `n`. */
  lemma IteratorStep(c: CigarTuples, rs: int, n: nat, recs: seq<CigarIndex>, a: int, r: int, q: int,
                     opRecs: seq<CigarIndex>, a': int, r': int, q': int)
    requires n < |c| && (n == 0 ==> !IsClip(c[0].0))
    requires recs == RecordsUpTo(c, rs, n) && opRecs == OpRecords(c, rs, n)
    requires a == TotalLength(c[..n]) - 1 && a' == a + c[n].1
    requires r == rs + ReferenceOffset(c[..n]) - 1 && r' == r + (if ConsumesReference(c[n].0) then c[n].1 else 0)
    requires q == QueryPrefix(c, n) - 1 && q' == q + (if ConsumesQuery(c[n].0) then c[n].1 else 0)
    ensures recs + opRecs == RecordsUpTo(c, rs, n + 1)
    ensures a' == TotalLength(c[..n + 1]) - 1
    ensures r' == rs + ReferenceOffset(c[..n + 1]) - 1
    ensures q' == QueryPrefix(c, n + 1) - 1
  {
    RecordsStep(c, rs, n);
  }

  /** The start of cigar_iterator: the leading-clip walk when the first op is a clip, and
      nothing otherwise; the counters then stand after the ops walked. */
  method LeadingWalk(c: CigarTuples, rs: int) returns (recs: seq<CigarIndex>, alignmentIndex: int, queryIndex: int, start: nat)
    requires |c| > 0
    ensures start == if IsClip(c[0].0) then 1 else 0
    ensures recs == RecordsUpTo(c, rs, start)
    ensures alignmentIndex == TotalLength(c[..start]) - 1
    ensures ReferenceOffset(c[..start]) == 0
    ensures queryIndex == QueryPrefix(c, start) - 1
  {
    if IsClip(c[0].0) {
      recs := LeftClipIterator(c, rs);
      LeadingClipRecords(c, rs);
      alignmentIndex := c[0].1 as int - 1;
      queryIndex := c[0].1 as int - 1;
      start := 1;
    } else {
      recs := [];
      queryIndex := -1;
      alignmentIndex := -1;
      start := 0;
      assert c[..0] == [];
    }
  }

  /** _left_clip_iterator: one record per unit of the leading clip, numbered from 0 as both
      alignment and query position. */
  method LeftClipIterator(c: CigarTuples, rs: int) returns (recs: seq<CigarIndex>)
    requires |c| > 0 && IsClip(c[0].0)
    ensures recs == OpRecords(c, rs, 0)
  {
    var op, sz := c[0].0, c[0].1;
    ghost var clip := OpRecords(c, rs, 0);
    recs := [];
    for index := 0 to sz
      invariant recs == clip[..index]
    {
      ClipUnit(c, rs, index);
      TakeOneMore(clip, index);
      recs := recs + [CigarIndex(index, None, Some(index), 0, index, op)];
    }
    assert clip[..sz] == clip;
  }

  /** A prefix of records grows by the next record. */
  lemma TakeOneMore(s: seq<CigarIndex>, i: nat)
    requires i < |s|
    ensures s[..i] + [s[i]] == s[..i + 1]
  {
  }

  /** Unit `b` of a leading clip: numbered `b` on the alignment and the query, with no
      reference position. */
  lemma ClipUnit(c: CigarTuples, rs: int, b: nat)
    requires |c| > 0 && IsClip(c[0].0) && b < c[0].1
    ensures OpRecords(c, rs, 0)[b] == CigarIndex(b, None, Some(b), 0, b, c[0].0)
  {
    NoOpsBefore(c);
  }

  /** Before op 0 every counter is zero. */
  lemma NoOpsBefore(c: CigarTuples)
    requires |c| > 0
    ensures TotalLength(c[..0]) == 0 && ReferenceOffset(c[..0]) == 0 && QueryPrefix(c, 0) == 0
  {
    assert c[..0] == [];
  }

  /** The inner loop of cigar_iterator over the units of op `n`, stepping the counters it is
      given: the alignment counter always, the reference one for reference-consuming ops and
      the query one for query-consuming ops. */
  method OpIterator(c: CigarTuples, rs: int, n: nat, alignmentIndex: int, referenceIndex: int, queryIndex: int)
    returns (recs: seq<CigarIndex>, alignmentIndex': int, referenceIndex': int, queryIndex': int)
    requires n < |c| && (n == 0 ==> !IsClip(c[0].0))
    requires alignmentIndex == TotalLength(c[..n]) - 1
    requires referenceIndex == rs + ReferenceOffset(c[..n]) - 1
    requires queryIndex == QueryPrefix(c, n) - 1
    ensures recs == OpRecords(c, rs, n)
    ensures alignmentIndex' == alignmentIndex + c[n].1
    ensures referenceIndex' == referenceIndex + (if ConsumesReference(c[n].0) then c[n].1 else 0)
    ensures queryIndex' == queryIndex + (if ConsumesQuery(c[n].0) then c[n].1 else 0)
  {
    var op, size := c[n].0, c[n].1;
    var referenceDelta := if ConsumesReference(op) then 1 else 0;
    var queryDelta := if ConsumesQuery(op) then 1 else 0;
    ghost var ops := OpRecords(c, rs, n);
    alignmentIndex', referenceIndex', queryIndex' := alignmentIndex, referenceIndex, queryIndex;
    recs := [];
    for bi := 0 to size
      invariant recs == ops[..bi]
      invariant alignmentIndex' == alignmentIndex + bi
      invariant referenceIndex' == referenceIndex + referenceDelta * bi
      invariant queryIndex' == queryIndex + queryDelta * bi
    {
      alignmentIndex' := alignmentIndex' + 1;
      queryIndex' := queryIndex' + queryDelta;
      referenceIndex' := referenceIndex' + referenceDelta;
      var record := CigarIndex(
        alignmentIndex',
        if ConsumesReference(op) then Some(referenceIndex') else None,
        if ConsumesQuery(op) then Some(queryIndex') else None,
        n,
        bi,
        op);
      OpRecordAt(c, rs, n, bi);
      assert ops[..bi + 1] == ops[..bi] + [record];
      recs := recs + [record];
    }
    assert ops[..size] == ops;
  }

  /** The records of a leading clip number alignment and query positions from 0 alike and
      carry no reference position; after them all three counters stand at the clip length,
      the reference one at none. */
  lemma LeadingClipRecords(c: CigarTuples, rs: int)
    requires |c| > 0 && IsClip(c[0].0)
    ensures forall b :: 0 <= b < c[0].1 ==>
      OpRecords(c, rs, 0)[b] == CigarIndex(b, None, Some(b), 0, b, c[0].0)
    ensures RecordsUpTo(c, rs, 1) == OpRecords(c, rs, 0)
    ensures TotalLength(c[..1]) == c[0].1
    ensures ReferenceOffset(c[..1]) == 0
    ensures QueryPrefix(c, 1) == c[0].1
  {
    forall b | 0 <= b < c[0].1 ensures OpRecords(c, rs, 0)[b] == CigarIndex(b, None, Some(b), 0, b, c[0].0) {
      ClipUnit(c, rs, b);
    }
    LeadingClipCounters(c, rs);
  }

  /** After the leading clip the walk holds its records, and the counters its length. */
  lemma LeadingClipCounters(c: CigarTuples, rs: int)
    requires |c| > 0 && IsClip(c[0].0)
    ensures RecordsUpTo(c, rs, 1) == OpRecords(c, rs, 0)
    ensures TotalLength(c[..1]) == c[0].1
    ensures ReferenceOffset(c[..1]) == 0
    ensures QueryPrefix(c, 1) == c[0].1
  {
    NoOpsBefore(c);
    assert RecordsUpTo(c, rs, 0) == [];
    SumWherePrefix(c, 0, AnyOp);
    SumWherePrefix(c, 0, ConsumesReference);
    SumWherePrefix(c, 0, ConsumesQuery);
  }

  /** One op further: the walk gains that op's records, and the counters its lengths. */
  lemma RecordsStep(c: CigarTuples, rs: int, n: nat)
    requires n < |c| && (n == 0 ==> !IsClip(c[0].0))
    ensures RecordsUpTo(c, rs, n + 1) == RecordsUpTo(c, rs, n) + OpRecords(c, rs, n)
    ensures TotalLength(c[..n + 1]) == TotalLength(c[..n]) + c[n].1
    ensures ReferenceOffset(c[..n + 1]) == ReferenceOffset(c[..n]) + (if ConsumesReference(c[n].0) then c[n].1 else 0)
    ensures QueryPrefix(c, n + 1) == QueryPrefix(c, n) + (if ConsumesQuery(c[n].0) then c[n].1 else 0)
  {
    QueryPrefixStep(c, n);
    SumWherePrefix(c, n, AnyOp);
    SumWherePrefix(c, n, ConsumesReference);
  }

  /** Unit `b` of an op that is not a leading clip: a query index exactly when it consumes
      the query. */
  lemma OpRecordAt(c: CigarTuples, rs: int, n: nat, b: nat)
    requires n < |c| && (n == 0 ==> !IsClip(c[0].0)) && b < c[n].1
    ensures OpRecords(c, rs, n)[b] ==
      CigarIndex(TotalLength(c[..n]) + b,
        if ConsumesReference(c[n].0) then Some(rs + ReferenceOffset(c[..n]) + b) else None,
        if ConsumesQuery(c[n].0) then Some(QueryPrefix(c, n) + b) else None,
        n, b, c[n].0)
  {
  }

  /** The query counter moves by the length of each query-consuming op after the first. */
  lemma QueryPrefixStep(c: CigarTuples, n: nat)
    requires n < |c| && (n == 0 ==> !IsClip(c[0].0))
    ensures QueryPrefix(c, n + 1) == QueryPrefix(c, n) + (if ConsumesQuery(c[n].0) then c[n].1 else 0)
  {
    SumWherePrefix(c, n, ConsumesQuery);
    if n > 0 {
      assert c[..n + 1][0] == c[..n][0] == c[0];
    }
  }

  /** A record's generalized position in the CIGAR: its op and unit exist, and its alignment
      index `k` is the number of units before that op plus the unit. */
  predicate Placed(c: CigarTuples, r: CigarIndex, k: nat) {
    && r.cigarIndex < |c|
    && r.cigarBlockIndex < c[r.cigarIndex].1
    && r.cigarOp == c[r.cigarIndex].0
    && r.alignmentIndex == k == TotalLength(c[..r.cigarIndex]) + r.cigarBlockIndex
  }

  /** The walk over the first `n` ops has one record per unit, numbered 0, 1, 2, ... in
      alignment order, each naming one of those ops and a unit of it. */
  lemma {:induction false} RecordsUpToShape(c: CigarTuples, rs: int, n: nat)
    requires n <= |c|
    ensures |RecordsUpTo(c, rs, n)| == TotalLength(c[..n])
    ensures forall k :: 0 <= k < |RecordsUpTo(c, rs, n)| ==>
      Placed(c, RecordsUpTo(c, rs, n)[k], k) && RecordsUpTo(c, rs, n)[k].cigarIndex < n
  {
    if n == 0 {
      assert c[..0] == [];
    } else {
      RecordsUpToShape(c, rs, n - 1);
      SumWherePrefix(c, n - 1, AnyOp);
      var a, b := RecordsUpTo(c, rs, n - 1), OpRecords(c, rs, n - 1);
      assert RecordsUpTo(c, rs, n) == a + b;
      forall k | 0 <= k < |a| + |b|
        ensures Placed(c, (a + b)[k], k) && (a + b)[k].cigarIndex < n
      {
        if k >= |a| {
          assert (a + b)[k] == b[k - |a|] == UnitRecord(c, rs, n - 1, k - |a|);
        }
      }
    }
  }

  /** cigar_iterator yields one record per unit of the alignment, in order. */
  lemma RecordsShape(c: CigarTuples, rs: int)
    ensures |Records(c, rs)| == TotalLength(c)
    ensures forall k :: 0 <= k < |Records(c, rs)| ==> Placed(c, Records(c, rs)[k], k)
  {
    RecordsUpToShape(c, rs, |c|);
    assert c[..|c|] == c;
  }

  /** The records that satisfy `keep`, in walk order: what the `if ...: yield` loops over the
      walk pass on. */
  function Filter(recs: seq<CigarIndex>, keep: CigarIndex -> bool): seq<CigarIndex> {
    if recs == [] then [] else (if keep(recs[0]) then [recs[0]] else []) + Filter(recs[1..], keep)
  }

  /** Filtering distributes over concatenation. */
  lemma {:induction false} FilterAppend(a: seq<CigarIndex>, b: seq<CigarIndex>, keep: CigarIndex -> bool)
    ensures Filter(a + b, keep) == Filter(a, keep) + Filter(b, keep)
  {
    if a == [] {
      assert a + b == b;
    } else {
      var h := if keep(a[0]) then [a[0]] else [];
      assert (a + b)[0] == a[0] && (a + b)[1..] == a[1..] + b;
      assert Filter(a + b, keep) == h + Filter(a[1..] + b, keep);
      FilterAppend(a[1..], b, keep);
      assert Filter(a, keep) == h + Filter(a[1..], keep);
      RecordsAssoc(h, Filter(a[1..], keep), Filter(b, keep));
    }
  }

  /** Concatenation of record lists is associative. */
  lemma RecordsAssoc(x: seq<CigarIndex>, y: seq<CigarIndex>, z: seq<CigarIndex>)
    ensures x + (y + z) == (x + y) + z
  {
  }

  /** Filtering keeps everything when everything is kept, and nothing when nothing is. */
  lemma {:induction false} FilterUniform(s: seq<CigarIndex>, keep: CigarIndex -> bool)
    ensures (forall i :: 0 <= i < |s| ==> keep(s[i])) ==> Filter(s, keep) == s
    ensures (forall i :: 0 <= i < |s| ==> !keep(s[i])) ==> Filter(s, keep) == []
  {
    if s != [] {
      FilterUniform(s[1..], keep);
      assert forall i :: 0 <= i < |s| - 1 ==> s[1..][i] == s[i + 1];
    }
  }

  /** A record survives filtering exactly when it was there and is kept. */
  lemma {:induction false} FilterMember(s: seq<CigarIndex>, keep: CigarIndex -> bool, x: CigarIndex)
    ensures x in Filter(s, keep) <==> x in s && keep(x)
  {
    if s != [] {
      FilterMember(s[1..], keep, x);
      assert s == [s[0]] + s[1..];
    }
  }

  /** A record with a reference position. */
  predicate HasReference(r: CigarIndex) {
    r.referenceIndex.Some?
  }

  /** A record with a query position. */
  predicate HasQuery(r: CigarIndex) {
    r.queryIndex.Some?
  }

  /** The query counter moves by an op's length exactly when its records carry query indices:
      query-consuming ops and a leading hard or soft clip. */
  lemma QueryPrefixAdvance(c: CigarTuples, n: nat)
    requires n < |c|
    ensures QueryPrefix(c, n + 1) == QueryPrefix(c, n) + (if HasQueryIndex(c, n) then c[n].1 else 0)
  {
    SumWherePrefix(c, n, ConsumesQuery);
    if n > 0 {
      assert c[..n + 1][0] == c[..n][0] == c[0];
    } else {
      assert c[..0] == [];
    }
  }

  /** Over the first `n` ops the reference positions come out as `rs`, `rs + 1`, ... with no
      gap, one per reference-consuming unit. */
  lemma {:induction false} ReferencePositionsUpTo(c: CigarTuples, rs: int, n: nat)
    requires n <= |c|
    ensures |Filter(RecordsUpTo(c, rs, n), HasReference)| == ReferenceOffset(c[..n])
    ensures forall i :: 0 <= i < |Filter(RecordsUpTo(c, rs, n), HasReference)| ==>
      Filter(RecordsUpTo(c, rs, n), HasReference)[i].referenceIndex == Some(rs + i)
  {
    if n == 0 {
      assert c[..0] == [];
    } else {
      ReferencePositionsUpTo(c, rs, n - 1);
      ReferencePositionsStep(c, rs, n - 1);
    }
  }

  /** The records carry the reference positions `rs`, `rs + 1`, ... in order. */
  predicate ReferenceDense(f: seq<CigarIndex>, rs: int) {
    forall i :: 0 <= i < |f| ==> f[i].referenceIndex == Some(rs + i)
  }

  /** The records carry the query positions 0, 1, ... in order. */
  predicate QueryDense(f: seq<CigarIndex>) {
    forall j :: 0 <= j < |f| ==> f[j].queryIndex == Some(j)
  }

  /** The inductive step of ReferencePositionsUpTo, from `m` ops to `m + 1`. */
  lemma ReferencePositionsStep(c: CigarTuples, rs: int, m: nat)
    requires m < |c|
    requires |Filter(RecordsUpTo(c, rs, m), HasReference)| == ReferenceOffset(c[..m])
    requires ReferenceDense(Filter(RecordsUpTo(c, rs, m), HasReference), rs)
    ensures |Filter(RecordsUpTo(c, rs, m + 1), HasReference)| == ReferenceOffset(c[..m + 1])
    ensures ReferenceDense(Filter(RecordsUpTo(c, rs, m + 1), HasReference), rs)
  {
    SumWherePrefix(c, m, ConsumesReference);
    ReferenceFilterStep(c, rs, m + 1);
    var fa := Filter(RecordsUpTo(c, rs, m), HasReference);
    if ConsumesReference(c[m].0) {
      ReferenceDenseAppend(fa, OpRecords(c, rs, m), rs);
    } else {
      assert fa + [] == fa;
    }
  }

  /** One op further, the records with a reference position gain that op's records when
      it consumes the reference, and nothing otherwise. */
  lemma ReferenceFilterStep(c: CigarTuples, rs: int, n: nat)
    requires 0 < n <= |c|
    ensures Filter(RecordsUpTo(c, rs, n), HasReference) ==
      Filter(RecordsUpTo(c, rs, n - 1), HasReference) + (if ConsumesReference(c[n - 1].0) then OpRecords(c, rs, n - 1) else [])
  {
    var a, b := RecordsUpTo(c, rs, n - 1), OpRecords(c, rs, n - 1);
    FilterAppend(a, b, HasReference);
    FilterUniform(b, HasReference);
  }

  /** Reference positions numbered on from `rs` stay numbered on over an appended run
      that continues the numbering. */
  lemma ReferenceDenseAppend(fa: seq<CigarIndex>, b: seq<CigarIndex>, rs: int)
    requires forall i :: 0 <= i < |fa| ==> fa[i].referenceIndex == Some(rs + i)
    requires forall i :: 0 <= i < |b| ==> b[i].referenceIndex == Some(rs + |fa| + i)
    ensures forall i :: 0 <= i < |fa + b| ==> (fa + b)[i].referenceIndex == Some(rs + i)
  {
    forall i | 0 <= i < |fa + b| ensures (fa + b)[i].referenceIndex == Some(rs + i) {
      if i >= |fa| {
        assert (fa + b)[i] == b[i - |fa|];
      } else {
        assert (fa + b)[i] == fa[i];
      }
    }
  }

  /** Over the first `n` ops the query positions come out as 0, 1, 2, ... with no gap. */
  lemma {:induction false} QueryPositionsUpTo(c: CigarTuples, rs: int, n: nat)
    requires n <= |c|
    ensures |Filter(RecordsUpTo(c, rs, n), HasQuery)| == QueryPrefix(c, n)
    ensures forall j :: 0 <= j < |Filter(RecordsUpTo(c, rs, n), HasQuery)| ==>
      Filter(RecordsUpTo(c, rs, n), HasQuery)[j].queryIndex == Some(j)
  {
    if n == 0 {
      assert c[..0] == [];
    } else {
      QueryPositionsUpTo(c, rs, n - 1);
      QueryPositionsStep(c, rs, n - 1);
    }
  }

  /** The inductive step of QueryPositionsUpTo, from `m` ops to `m + 1`. */
  lemma QueryPositionsStep(c: CigarTuples, rs: int, m: nat)
    requires m < |c|
    requires |Filter(RecordsUpTo(c, rs, m), HasQuery)| == QueryPrefix(c, m)
    requires QueryDense(Filter(RecordsUpTo(c, rs, m), HasQuery))
    ensures |Filter(RecordsUpTo(c, rs, m + 1), HasQuery)| == QueryPrefix(c, m + 1)
    ensures QueryDense(Filter(RecordsUpTo(c, rs, m + 1), HasQuery))
  {
    QueryPrefixAdvance(c, m);
    QueryFilterStep(c, rs, m + 1);
    var fa := Filter(RecordsUpTo(c, rs, m), HasQuery);
    if HasQueryIndex(c, m) {
      QueryDenseAppend(fa, OpRecords(c, rs, m));
    } else {
      assert fa + [] == fa;
    }
  }

  /** One op further, the records with a query position gain that op's records when they
      carry query indices, and nothing otherwise. */
  lemma QueryFilterStep(c: CigarTuples, rs: int, n: nat)
    requires 0 < n <= |c|
    ensures Filter(RecordsUpTo(c, rs, n), HasQuery) ==
      Filter(RecordsUpTo(c, rs, n - 1), HasQuery) + (if HasQueryIndex(c, n - 1) then OpRecords(c, rs, n - 1) else [])
  {
    var a, b := RecordsUpTo(c, rs, n - 1), OpRecords(c, rs, n - 1);
    FilterAppend(a, b, HasQuery);
    FilterUniform(b, HasQuery);
  }

  /** Query positions numbered from 0 stay numbered on over an appended run that
      continues the numbering. */
  lemma QueryDenseAppend(fa: seq<CigarIndex>, b: seq<CigarIndex>)
    requires forall j :: 0 <= j < |fa| ==> fa[j].queryIndex == Some(j)
    requires forall j :: 0 <= j < |b| ==> b[j].queryIndex == Some(|fa| + j)
    ensures forall j :: 0 <= j < |fa + b| ==> (fa + b)[j].queryIndex == Some(j)
  {
    forall j | 0 <= j < |fa + b| ensures (fa + b)[j].queryIndex == Some(j) {
      if j >= |fa| {
        assert (fa + b)[j] == b[j - |fa|];
      } else {
        assert (fa + b)[j] == fa[j];
      }
    }
  }

  /** The records with a reference position, in walk order. */
  function ReferenceRecords(c: CigarTuples, rs: int): seq<CigarIndex> {
    Filter(Records(c, rs), HasReference)
  }

  /** The records with a query position, in walk order. */
  function QueryRecords(c: CigarTuples, rs: int): seq<CigarIndex> {
    Filter(Records(c, rs), HasQuery)
  }

  /** The walk visits every reference position from `rs` to `rs + reference_offset - 1`
      once, in increasing order. */
  lemma ReferencePositionsDense(c: CigarTuples, rs: int)
    ensures |ReferenceRecords(c, rs)| == ReferenceOffset(c)
    ensures forall i :: 0 <= i < |ReferenceRecords(c, rs)| ==>
      ReferenceRecords(c, rs)[i].referenceIndex == Some(rs + i)
  {
    ReferencePositionsUpTo(c, rs, |c|);
    assert c[..|c|] == c;
  }

  /** The walk numbers query positions 0, 1, 2, ... once each, in order: every
      query-consuming unit and every unit of a leading clip, hard clips included. */
  lemma QueryPositionsDense(c: CigarTuples, rs: int)
    ensures |QueryRecords(c, rs)| == QueryPrefix(c, |c|)
    ensures forall j :: 0 <= j < |QueryRecords(c, rs)| ==> QueryRecords(c, rs)[j].queryIndex == Some(j)
  {
    QueryPositionsUpTo(c, rs, |c|);
  }

  /** Which records carry which index: reference positions exactly on reference-consuming
      ops, query positions exactly on query-consuming ops and on a leading clip. */
  lemma RecordKinds(c: CigarTuples, rs: int, k: nat)
    requires k < |Records(c, rs)|
    ensures var r := Records(c, rs)[k];
      && (HasReference(r) <==> ConsumesReference(r.cigarOp))
      && (HasQuery(r) <==> ConsumesQuery(r.cigarOp) || (r.cigarIndex == 0 && IsClip(r.cigarOp)))
  {
    RecordIsUnit(c, rs, k);
  }

  /** Every record of the walk is the unit record its op and unit indices name. */
  lemma RecordIsUnit(c: CigarTuples, rs: int, k: nat)
    requires k < |Records(c, rs)|
    ensures var r := Records(c, rs)[k];
      r.cigarIndex < |c| && r == UnitRecord(c, rs, r.cigarIndex, r.cigarBlockIndex)
  {
    RecordIsUnitUpTo(c, rs, |c|, k);
  }

  lemma {:induction false} RecordIsUnitUpTo(c: CigarTuples, rs: int, n: nat, k: nat)
    requires n <= |c| && k < |RecordsUpTo(c, rs, n)|
    ensures var r := RecordsUpTo(c, rs, n)[k];
      r.cigarIndex < |c| && r == UnitRecord(c, rs, r.cigarIndex, r.cigarBlockIndex)
  {
    var a, b := RecordsUpTo(c, rs, n - 1), OpRecords(c, rs, n - 1);
    if k < |a| {
      assert RecordsUpTo(c, rs, n)[k] == a[k];
      RecordIsUnitUpTo(c, rs, n - 1, k);
    } else {
      assert RecordsUpTo(c, rs, n)[k] == b[k - |a|];
    }
  }

  /** Query prefixes grow with the prefix. */
  lemma {:induction false} QueryPrefixMonotone(c: CigarTuples, i: nat, j: nat)
    requires i <= j <= |c|
    ensures QueryPrefix(c, i) <= QueryPrefix(c, j)
    decreases j - i
  {
    if i < j {
      QueryPrefixAdvance(c, j - 1);
      QueryPrefixMonotone(c, i, j - 1);
    }
  }

  /** Reference positions of the walk strictly increase, and so do query positions. */
  predicate ReferencesIncrease(recs: seq<CigarIndex>) {
    forall k1, k2 :: 0 <= k1 < k2 < |recs| && HasReference(recs[k1]) && HasReference(recs[k2]) ==>
      recs[k1].referenceIndex.value < recs[k2].referenceIndex.value
  }

  predicate QueriesIncrease(recs: seq<CigarIndex>) {
    forall k1, k2 :: 0 <= k1 < k2 < |recs| && HasQuery(recs[k1]) && HasQuery(recs[k2]) ==>
      recs[k1].queryIndex.value < recs[k2].queryIndex.value
  }

  /** Two records of the walk, the first earlier: its reference and query positions, where both
      have one, are smaller. */
  lemma RecordsOrdered(c: CigarTuples, rs: int, k1: nat, k2: nat)
    requires k1 < k2 < |Records(c, rs)|
    ensures var r1, r2 := Records(c, rs)[k1], Records(c, rs)[k2];
      && (HasReference(r1) && HasReference(r2) ==> r1.referenceIndex.value < r2.referenceIndex.value)
      && (HasQuery(r1) && HasQuery(r2) ==> r1.queryIndex.value < r2.queryIndex.value)
  {
    var recs := Records(c, rs);
    var r1, r2 := recs[k1], recs[k2];
    RecordsShape(c, rs);
    assert Placed(c, r1, k1) && Placed(c, r2, k2);
    RecordIsUnit(c, rs, k1);
    RecordIsUnit(c, rs, k2);
    var ci1, ci2 := r1.cigarIndex, r2.cigarIndex;
    if ci2 < ci1 {
      SumWherePrefix(c, ci2, AnyOp);
      SumWhereMonotone(c, ci2 + 1, ci1, AnyOp);
      assert false;
    }
    if ci1 < ci2 {
      SumWherePrefix(c, ci1, ConsumesReference);
      SumWhereMonotone(c, ci1 + 1, ci2, ConsumesReference);
      QueryPrefixAdvance(c, ci1);
      QueryPrefixMonotone(c, ci1 + 1, ci2);
    }
  }

  /** The walk's reference positions and query positions both strictly increase. */
  lemma RecordsIncrease(c: CigarTuples, rs: int)
    ensures ReferencesIncrease(Records(c, rs))
    ensures QueriesIncrease(Records(c, rs))
  {
    forall k1, k2 | 0 <= k1 < k2 < |Records(c, rs)|
      ensures var r1, r2 := Records(c, rs)[k1], Records(c, rs)[k2];
        && (HasReference(r1) && HasReference(r2) ==> r1.referenceIndex.value < r2.referenceIndex.value)
        && (HasQuery(r1) && HasQuery(r2) ==> r1.queryIndex.value < r2.queryIndex.value)
    {
      RecordsOrdered(c, rs, k1, k2);
    }
  }

  /** A reference position inside the optional bounds `[lo, hi)`; a missing bound is no bound. */
  predicate InRegion(p: int, lo: Option<int>, hi: Option<int>) {
    (lo.None? || lo.value <= p) && (hi.None? || p < hi.value)
  }

  /** Reference definition of cigar_iterator_reference_slice on the records still to come:
      before the region starts, records without a reference position and those below `lo` are
      skipped; the first reference position at or past `hi` ends the slice; every other record,
      and every record without a reference position once started, is kept. */
  function SliceFrom(recs: seq<CigarIndex>, lo: Option<int>, hi: Option<int>, started: bool): seq<CigarIndex>
    decreases |recs|
  {
    if recs == [] then []
    else
      var r := recs[0];
      if r.referenceIndex.None? && !started then SliceFrom(recs[1..], lo, hi, started)
      else if r.referenceIndex.None? then [r] + SliceFrom(recs[1..], lo, hi, started)
      else if lo.Some? && r.referenceIndex.value < lo.value then SliceFrom(recs[1..], lo, hi, started)
      else if hi.Some? && r.referenceIndex.value >= hi.value then []
      else [r] + SliceFrom(recs[1..], lo, hi, true)
  }

  /** cigar_iterator_reference_slice: the walk, filtered by the region, stopping early. */
  method ReferenceSlice(c: CigarTuples, referenceStart: int, regionStart: Option<int>, regionEnd: Option<int>)
    returns (out: seq<CigarIndex>)
    requires |c| > 0
    ensures out == SliceFrom(Records(c, referenceStart), regionStart, regionEnd, false)
  {
    var recs := CigarIterator(c, referenceStart);
    var started := false;
    out := [];
    assert recs[0..] == recs;
    for i := 0 to |recs|
      invariant out + SliceFrom(recs[i..], regionStart, regionEnd, started) == SliceFrom(recs, regionStart, regionEnd, false)
    {
      var r := recs[i];
      SliceFromStep(recs, i, regionStart, regionEnd, started);
      if r.referenceIndex.None? && !started {
      } else if r.referenceIndex.None? && started {
        AppendOne(out, r, SliceFrom(recs[i + 1..], regionStart, regionEnd, started));
        out := out + [r];
      } else if regionStart.Some? && r.referenceIndex.value < regionStart.value {
      } else if regionEnd.Some? && r.referenceIndex.value >= regionEnd.value {
        assert out + [] == out;
        return;
      } else {
        AppendOne(out, r, SliceFrom(recs[i + 1..], regionStart, regionEnd, true));
        started := true;
        out := out + [r];
      }
    }
    assert out + [] == out;
  }

  /** One record further into the slice. */
  lemma SliceFromStep(recs: seq<CigarIndex>, i: nat, lo: Option<int>, hi: Option<int>, started: bool)
    requires i < |recs|
    ensures var r := recs[i];
      var rest := recs[i + 1..];
      SliceFrom(recs[i..], lo, hi, started) ==
        if r.referenceIndex.None? && !started then SliceFrom(rest, lo, hi, started)
        else if r.referenceIndex.None? then [r] + SliceFrom(rest, lo, hi, started)
        else if lo.Some? && r.referenceIndex.value < lo.value then SliceFrom(rest, lo, hi, started)
        else if hi.Some? && r.referenceIndex.value >= hi.value then []
        else [r] + SliceFrom(rest, lo, hi, true)
  {
    assert recs[i..][0] == recs[i] && recs[i..][1..] == recs[i + 1..];
  }

  /** Moving one record from the front of the rest to the end of the output. */
  lemma AppendOne(a: seq<CigarIndex>, r: CigarIndex, b: seq<CigarIndex>)
    ensures (a + [r]) + b == a + ([r] + b)
  {
  }

  /** The slice taken part-way: the records from `i` to `j`, where `j` is the end of the walk
      or the first record at or past `hi`, and exactly the in-region reference positions lie
      inside. */
  predicate SliceRun(recs: seq<CigarIndex>, lo: Option<int>, hi: Option<int>, out: seq<CigarIndex>, i: nat, j: nat) {
    && i <= j <= |recs|
    && out == recs[i..j]
    && (i < j ==> HasReference(recs[i]))
    && (j < |recs| ==> HasReference(recs[j]) && hi.Some? && recs[j].referenceIndex.value >= hi.value)
    && (forall k :: 0 <= k < |recs| && HasReference(recs[k]) ==>
          (i <= k < j <==> InRegion(recs[k].referenceIndex.value, lo, hi)))
  }

  /** Once started, with every reference position to come at or past `lo`: the slice runs
      from the start to the first reference position at or past `hi`. */
  lemma SliceStarted(recs: seq<CigarIndex>, lo: Option<int>, hi: Option<int>)
    requires ReferencesIncrease(recs)
    requires forall k :: 0 <= k < |recs| && HasReference(recs[k]) && lo.Some? ==> lo.value <= recs[k].referenceIndex.value
    ensures exists j: nat :: SliceRunFrom(recs, lo, hi, SliceFrom(recs, lo, hi, true), j)
  {
    var j := SliceStartedEnd(recs, lo, hi);
  }

  /** Where the started slice ends. */
  lemma {:induction false} SliceStartedEnd(recs: seq<CigarIndex>, lo: Option<int>, hi: Option<int>) returns (j: nat)
    requires ReferencesIncrease(recs)
    requires forall k :: 0 <= k < |recs| && HasReference(recs[k]) && lo.Some? ==> lo.value <= recs[k].referenceIndex.value
    ensures SliceRunFrom(recs, lo, hi, SliceFrom(recs, lo, hi, true), j)
    decreases |recs|
  {
    var out := SliceFrom(recs, lo, hi, true);
    if recs == [] {
      j := 0;
    } else {
      var r := recs[0];
      if HasReference(r) && hi.Some? && r.referenceIndex.value >= hi.value {
        j := 0;
      } else {
        var rest := recs[1..];
        IncreaseTail(recs);
        var j' := SliceStartedEnd(rest, lo, hi);
        SliceRunFromCons(recs, lo, hi, SliceFrom(rest, lo, hi, true), j');
        j := j' + 1;
      }
    }
  }

  /** Every record of the tail is the record one further on. */
  lemma IncreaseTail(recs: seq<CigarIndex>)
    requires recs != [] && ReferencesIncrease(recs)
    ensures ReferencesIncrease(recs[1..])
    ensures forall k :: 0 <= k < |recs| - 1 ==> recs[1..][k] == recs[k + 1]
  {
    var rest := recs[1..];
    forall k1, k2 | 0 <= k1 < k2 < |rest| && HasReference(rest[k1]) && HasReference(rest[k2])
      ensures rest[k1].referenceIndex.value < rest[k2].referenceIndex.value
    {
      assert rest[k1] == recs[k1 + 1] && rest[k2] == recs[k2 + 1];
    }
  }

  /** A kept first record extends the started run of the tail by one. */
  lemma SliceRunFromCons(recs: seq<CigarIndex>, lo: Option<int>, hi: Option<int>, out: seq<CigarIndex>, j: nat)
    requires recs != [] && SliceRunFrom(recs[1..], lo, hi, out, j)
    requires !(HasReference(recs[0]) && hi.Some? && recs[0].referenceIndex.value >= hi.value)
    requires HasReference(recs[0]) && lo.Some? ==> lo.value <= recs[0].referenceIndex.value
    ensures SliceRunFrom(recs, lo, hi, [recs[0]] + out, j + 1)
  {
    var rest := recs[1..];
    assert recs[..j + 1] == [recs[0]] + rest[..j];
    forall k | 0 <= k < |recs| && HasReference(recs[k])
      ensures k < j + 1 <==> InRegion(recs[k].referenceIndex.value, lo, hi)
    {
      if k > 0 {
        assert recs[k] == rest[k - 1];
      }
    }
  }

  /** The started phase of `SliceRun`: from the first record to `j`. */
  predicate SliceRunFrom(recs: seq<CigarIndex>, lo: Option<int>, hi: Option<int>, out: seq<CigarIndex>, j: nat) {
    && j <= |recs|
    && out == recs[..j]
    && (j < |recs| ==> HasReference(recs[j]) && hi.Some? && recs[j].referenceIndex.value >= hi.value)
    && (forall k :: 0 <= k < |recs| && HasReference(recs[k]) ==>
          (k < j <==> InRegion(recs[k].referenceIndex.value, lo, hi)))
  }

  /** Before starting: the slice is one contiguous run of the records, from the first
      in-region reference position to the first reference position at or past `hi`. */
  lemma SliceIsRun(recs: seq<CigarIndex>, lo: Option<int>, hi: Option<int>)
    requires ReferencesIncrease(recs)
    ensures exists i: nat, j: nat :: SliceRun(recs, lo, hi, SliceFrom(recs, lo, hi, false), i, j)
  {
    var i, j := SliceBounds(recs, lo, hi);
  }

  /** Where the slice starts and ends. */
  lemma {:induction false} SliceBounds(recs: seq<CigarIndex>, lo: Option<int>, hi: Option<int>) returns (i: nat, j: nat)
    requires ReferencesIncrease(recs)
    ensures SliceRun(recs, lo, hi, SliceFrom(recs, lo, hi, false), i, j)
    decreases |recs|
  {
    if recs == [] {
      i, j := 0, 0;
    } else {
      var r := recs[0];
      if !HasReference(r) || (lo.Some? && r.referenceIndex.value < lo.value) {
        var rest := recs[1..];
        IncreaseTail(recs);
        var i', j' := SliceBounds(rest, lo, hi);
        SliceRunSkip(recs, lo, hi, SliceFrom(rest, lo, hi, false), i', j');
        i, j := i' + 1, j' + 1;
      } else if hi.Some? && r.referenceIndex.value >= hi.value {
        SliceRunEmpty(recs, lo, hi);
        i, j := 0, 0;
      } else {
        SliceLowerStart(recs, lo);
        j := SliceStartedEnd(recs, lo, hi);
        assert recs[0..j] == recs[..j];
        i := 0;
      }
    }
  }

  /** A skipped first record moves the run of the tail one further on. */
  lemma SliceRunSkip(recs: seq<CigarIndex>, lo: Option<int>, hi: Option<int>, out: seq<CigarIndex>, i: nat, j: nat)
    requires recs != [] && SliceRun(recs[1..], lo, hi, out, i, j)
    requires !HasReference(recs[0]) || (lo.Some? && recs[0].referenceIndex.value < lo.value)
    ensures SliceRun(recs, lo, hi, out, i + 1, j + 1)
  {
    var rest := recs[1..];
    assert recs[i + 1..j + 1] == rest[i..j];
    forall k | 0 <= k < |recs| && HasReference(recs[k])
      ensures i + 1 <= k < j + 1 <==> InRegion(recs[k].referenceIndex.value, lo, hi)
    {
      if k > 0 {
        assert recs[k] == rest[k - 1];
      }
    }
  }

  /** A first reference position at or past `hi` leaves nothing in the slice. */
  lemma SliceRunEmpty(recs: seq<CigarIndex>, lo: Option<int>, hi: Option<int>)
    requires recs != [] && ReferencesIncrease(recs)
    requires HasReference(recs[0]) && hi.Some? && recs[0].referenceIndex.value >= hi.value
    ensures SliceRun(recs, lo, hi, [], 0, 0)
  {
    forall k | 0 <= k < |recs| && HasReference(recs[k])
      ensures !InRegion(recs[k].referenceIndex.value, lo, hi)
    {
      if k > 0 {
        assert recs[0].referenceIndex.value < recs[k].referenceIndex.value;
      }
    }
  }

  /** A first in-region reference position puts every later one at or past `lo`. */
  lemma SliceLowerStart(recs: seq<CigarIndex>, lo: Option<int>)
    requires recs != [] && ReferencesIncrease(recs) && HasReference(recs[0])
    requires lo.Some? ==> lo.value <= recs[0].referenceIndex.value
    ensures forall k :: 0 <= k < |recs| && HasReference(recs[k]) && lo.Some? ==> lo.value <= recs[k].referenceIndex.value
  {
    forall k | 0 <= k < |recs| && HasReference(recs[k]) && lo.Some?
      ensures lo.value <= recs[k].referenceIndex.value
    {
      if k > 0 {
        assert recs[0].referenceIndex.value < recs[k].referenceIndex.value;
      }
    }
  }

  /** cigar_iterator_reference_slice returns one contiguous run of the walk: it starts at the
      first reference position in the region, holds every in-region reference position and no
      other, with the insertions and clips between and after them, and stops at the first
      reference position at or past the region end. */
  lemma ReferenceSliceIsRun(c: CigarTuples, rs: int, lo: Option<int>, hi: Option<int>)
    ensures exists i: nat, j: nat :: SliceRun(Records(c, rs), lo, hi, SliceFrom(Records(c, rs), lo, hi, false), i, j)
  {
    RecordsIncrease(c, rs);
    SliceIsRun(Records(c, rs), lo, hi);
  }

  /** The alignment `1S2M2I1M2D1M2S`, the running example of iterators.py and mapping.py. */
  function ExampleCigar(): CigarTuples {
    [(S, 1), (M, 2), (I, 2), (M, 1), (D, 2), (M, 1), (S, 2)]
  }

  /** The walk of the running example from reference position 2, record by record. */
  function ExampleRecords(): seq<CigarIndex> {
    [ CigarIndex(0, None, Some(0), 0, 0, S),
      CigarIndex(1, Some(2), Some(1), 1, 0, M),
      CigarIndex(2, Some(3), Some(2), 1, 1, M),
      CigarIndex(3, None, Some(3), 2, 0, I),
      CigarIndex(4, None, Some(4), 2, 1, I),
      CigarIndex(5, Some(4), Some(5), 3, 0, M),
      CigarIndex(6, Some(5), None, 4, 0, D),
      CigarIndex(7, Some(6), None, 4, 1, D),
      CigarIndex(8, Some(7), Some(6), 5, 0, M),
      CigarIndex(9, None, Some(7), 6, 0, S),
      CigarIndex(10, None, Some(8), 6, 1, S) ]
  }

  /** The alignment, reference and query counters of the example at the start of op `n`. */
  function ExampleStarts(n: nat): (nat, nat, nat) {
    match n
    case 0 => (0, 0, 0)
    case 1 => (1, 0, 1)
    case 2 => (3, 2, 3)
    case 3 => (5, 2, 5)
    case 4 => (6, 3, 6)
    case 5 => (8, 5, 6)
    case _ => (9, 6, 7)
  }

  /** The running counters of the example at the start of each op. */
  lemma {:induction false} ExampleCounters(c: CigarTuples, n: nat)
    requires c == ExampleCigar() && n < 7
    ensures TotalLength(c[..n]) == ExampleStarts(n).0
    ensures ReferenceOffset(c[..n]) == ExampleStarts(n).1
    ensures QueryPrefix(c, n) == ExampleStarts(n).2
    decreases n
  {
    if n == 0 {
      assert c[..0] == [];
    } else {
      ExampleCounters(c, n - 1);
      ExampleCountersStep(c, n - 1);
    }
  }

  /** One op further along the example, from the counters before op `k` to those after it. */
  lemma ExampleCountersStep(c: CigarTuples, k: nat)
    requires c == ExampleCigar() && k < 6
    requires TotalLength(c[..k]) == ExampleStarts(k).0
    requires ReferenceOffset(c[..k]) == ExampleStarts(k).1
    requires QueryPrefix(c, k) == ExampleStarts(k).2
    ensures TotalLength(c[..k + 1]) == ExampleStarts(k + 1).0
    ensures ReferenceOffset(c[..k + 1]) == ExampleStarts(k + 1).1
    ensures QueryPrefix(c, k + 1) == ExampleStarts(k + 1).2
  {
    CountersStep(c, k);
    ConsumptionByKind(c[k].0);
  }

  /** The three counters one op further. */
  lemma CountersStep(c: CigarTuples, n: nat)
    requires n < |c|
    ensures TotalLength(c[..n + 1]) == TotalLength(c[..n]) + c[n].1
    ensures ReferenceOffset(c[..n + 1]) == ReferenceOffset(c[..n]) + (if ConsumesReference(c[n].0) then c[n].1 else 0)
    ensures QueryPrefix(c, n + 1) == QueryPrefix(c, n) + (if HasQueryIndex(c, n) then c[n].1 else 0)
  {
    QueryPrefixAdvance(c, n);
    SumWherePrefix(c, n, AnyOp);
    SumWherePrefix(c, n, ConsumesReference);
  }

  /** The records of op `n` of the running example. */
  function ExampleOp(n: nat): seq<CigarIndex> {
    match n
    case 0 => [CigarIndex(0, None, Some(0), 0, 0, S)]
    case 1 => [CigarIndex(1, Some(2), Some(1), 1, 0, M), CigarIndex(2, Some(3), Some(2), 1, 1, M)]
    case 2 => [CigarIndex(3, None, Some(3), 2, 0, I), CigarIndex(4, None, Some(4), 2, 1, I)]
    case 3 => [CigarIndex(5, Some(4), Some(5), 3, 0, M)]
    case 4 => [CigarIndex(6, Some(5), None, 4, 0, D), CigarIndex(7, Some(6), None, 4, 1, D)]
    case 5 => [CigarIndex(8, Some(7), Some(6), 5, 0, M)]
    case _ => [CigarIndex(9, None, Some(7), 6, 0, S), CigarIndex(10, None, Some(8), 6, 1, S)]
  }

  /** The records of each op of the example. */
  lemma ExampleOpRecords(c: CigarTuples, n: nat)
    requires c == ExampleCigar() && n < 7
    ensures OpRecords(c, 2, n) == ExampleOp(n)
  {
    var r := OpRecords(c, 2, n);
    assert |r| == |ExampleOp(n)|;
    forall b | 0 <= b < |r| ensures r[b] == ExampleOp(n)[b] {
      ExampleUnit(c, n, b);
    }
  }

  /** One unit's record in the example. */
  lemma ExampleUnit(c: CigarTuples, n: nat, b: nat)
    requires c == ExampleCigar() && n < 7 && b < c[n].1
    ensures b < |ExampleOp(n)| && UnitRecord(c, 2, n, b) == ExampleOp(n)[b]
  {
    ExampleCounters(c, n);
    ConsumptionByKind(c[n].0);
    var x := ExampleStarts(n);
    match n
    case 0 => assert x == (0, 0, 0);
    case 1 => assert x == (1, 0, 1);
    case 2 => assert x == (3, 2, 3);
    case 3 => assert x == (5, 2, 5);
    case 4 => assert x == (6, 3, 6);
    case 5 => assert x == (8, 5, 6);
    case 6 => assert x == (9, 6, 7);
  }

  /** The running example's walk, op by op. */
  lemma ExampleWalk()
    ensures var c := ExampleCigar();
      Records(c, 2) == OpRecords(c, 2, 0) + OpRecords(c, 2, 1) + OpRecords(c, 2, 2) + OpRecords(c, 2, 3)
        + OpRecords(c, 2, 4) + OpRecords(c, 2, 5) + OpRecords(c, 2, 6)
  {
    var c := ExampleCigar();
    assert RecordsUpTo(c, 2, 1) == OpRecords(c, 2, 0);
    assert RecordsUpTo(c, 2, 2) == RecordsUpTo(c, 2, 1) + OpRecords(c, 2, 1);
    assert RecordsUpTo(c, 2, 3) == RecordsUpTo(c, 2, 2) + OpRecords(c, 2, 2);
    assert RecordsUpTo(c, 2, 4) == RecordsUpTo(c, 2, 3) + OpRecords(c, 2, 3);
    assert RecordsUpTo(c, 2, 5) == RecordsUpTo(c, 2, 4) + OpRecords(c, 2, 4);
    assert RecordsUpTo(c, 2, 6) == RecordsUpTo(c, 2, 5) + OpRecords(c, 2, 5);
    assert RecordsUpTo(c, 2, 7) == RecordsUpTo(c, 2, 6) + OpRecords(c, 2, 6);
  }

  /** The example's records, op by op. */
  lemma ExampleRecordsByOp()
    ensures ExampleRecords() == ExampleOp(0) + ExampleOp(1) + ExampleOp(2) + ExampleOp(3)
      + ExampleOp(4) + ExampleOp(5) + ExampleOp(6)
  {
  }

  /** The walk of the running example, op by op. */
  lemma ExampleWalkByOp()
    ensures Records(ExampleCigar(), 2) == ExampleOp(0) + ExampleOp(1) + ExampleOp(2) + ExampleOp(3)
      + ExampleOp(4) + ExampleOp(5) + ExampleOp(6)
  {
    var c := ExampleCigar();
    ExampleWalk();
    ExampleOpRecords(c, 0);
    ExampleOpRecords(c, 1);
    ExampleOpRecords(c, 2);
    ExampleOpRecords(c, 3);
    ExampleOpRecords(c, 4);
    ExampleOpRecords(c, 5);
    ExampleOpRecords(c, 6);
  }

  /** The records the documentation and the tests list for the running example. */
  lemma IteratorExample()
    ensures Records(ExampleCigar(), 2) == ExampleRecords()
  {
    ExampleWalkByOp();
    ExampleRecordsByOp();
  }

  /** The four slices of the running example that the tests check, taken on its records:
      no bounds, a lower bound, an upper bound, and both. */
  lemma SliceExamples()
    ensures var e := ExampleRecords();
      && SliceFrom(e, None, None, false) == e[1..]
      && SliceFrom(e, Some(5), None, false) == e[6..]
      && SliceFrom(e, None, Some(5), false) == e[1..6]
      && SliceFrom(e, Some(4), Some(7), false) == e[5..8]
  {
    SliceUnbounded(ExampleRecords());
    SliceLowerBound();
    SliceUpperBound();
    SliceBothBounds();
  }

  /** A started slice without an upper bound keeps the rest of the walk. */
  lemma {:induction false} SliceUnboundedTail(recs: seq<CigarIndex>, lo: Option<int>)
    requires forall k :: 0 <= k < |recs| && HasReference(recs[k]) && lo.Some? ==> lo.value <= recs[k].referenceIndex.value
    ensures SliceFrom(recs, lo, None, true) == recs
    decreases |recs|
  {
    if recs != [] {
      assert forall k :: 0 <= k < |recs| - 1 ==> recs[1..][k] == recs[k + 1];
      SliceUnboundedTail(recs[1..], lo);
    }
  }

  /** No bounds: everything after the leading clip. */
  lemma SliceUnbounded(e: seq<CigarIndex>)
    requires e == ExampleRecords()
    ensures SliceFrom(e, None, None, false) == e[1..]
  {
    SliceUnboundedTail(e[2..], None);
    assert e[1..][1..] == e[2..];
    assert SliceFrom(e[1..], None, None, false) == [e[1]] + e[2..];
    assert [e[1]] + e[2..] == e[1..];
  }

  /** From reference position 5 on. */
  lemma SliceLowerBound()
    ensures SliceFrom(ExampleRecords(), Some(5), None, false) == ExampleRecords()[6..]
  {
    var e := ExampleRecords();
    SliceUnboundedTail(e[7..], Some(5));
    assert e[6..][1..] == e[7..];
    assert SliceFrom(e[6..], Some(5), None, false) == e[6..];
    assert SliceFrom(e[5..], Some(5), None, false) == e[6..];
    assert SliceFrom(e[4..], Some(5), None, false) == e[6..];
    assert SliceFrom(e[3..], Some(5), None, false) == e[6..];
    assert SliceFrom(e[2..], Some(5), None, false) == e[6..];
    assert SliceFrom(e[1..], Some(5), None, false) == e[6..];
  }

  /** Up to reference position 5: the first ends the slice. */
  lemma SliceUpperBound()
    ensures SliceFrom(ExampleRecords(), None, Some(5), false) == ExampleRecords()[1..6]
  {
    var e := ExampleRecords();
    assert SliceFrom(e[6..], None, Some(5), true) == [];
    assert SliceFrom(e[5..], None, Some(5), true) == e[5..6];
    assert SliceFrom(e[4..], None, Some(5), true) == e[4..6];
    assert SliceFrom(e[3..], None, Some(5), true) == e[3..6];
    assert SliceFrom(e[2..], None, Some(5), true) == e[2..6];
    assert SliceFrom(e[1..], None, Some(5), false) == e[1..6];
  }

  /** Reference positions 4 to 6, with the deletion inside. */
  lemma SliceBothBounds()
    ensures SliceFrom(ExampleRecords(), Some(4), Some(7), false) == ExampleRecords()[5..8]
  {
    var e := ExampleRecords();
    assert SliceFrom(e[8..], Some(4), Some(7), true) == [];
    assert SliceFrom(e[7..], Some(4), Some(7), true) == e[7..8];
    assert SliceFrom(e[6..], Some(4), Some(7), true) == e[6..8];
    assert SliceFrom(e[5..], Some(4), Some(7), false) == e[5..8];
    assert SliceFrom(e[4..], Some(4), Some(7), false) == e[5..8];
    assert SliceFrom(e[3..], Some(4), Some(7), false) == e[5..8];
    assert SliceFrom(e[2..], Some(4), Some(7), false) == e[5..8];
    assert SliceFrom(e[1..], Some(4), Some(7), false) == e[5..8];
  }
}
