/**
  Aligned (query, reference) coordinate pairs of a CIGAR: `cigartuples2pairs`
  of conversions.py, of which plotting/aligned_pairs.py holds a verbatim copy.

  The source builds two parallel lists step by step: `query` holds a query
  coordinate per alignment column and `reference` a reference coordinate
  (or the clipping fill) per column; the result zips them, so it is as long as
  the shorter list. A left clip of k puts k + 1 entries into `query` but k into
  `reference`; `zip` drops the extra one at the end.

  The walk below is the loop of the source, written once and run in two
  variants: `AsWritten` is the source; `Corrected` starts `query` with k
  entries and takes each op's reference start from a running count instead of
  from the truthiness of the last reference entry.
 */
module Conversions {
  import opened Wrappers
  import opened Defn
  import opened Clipping

  /** A reference-list entry: a coordinate, or the clipping fill (`None` by default). */
  type Entry = Option<int>

  /** One element of the result: query coordinate and reference entry. */
  type Pair = (int, Entry)

  /** The IndexError of the source: an empty CIGAR (`cigartuples[0]` in the clip
      helpers) or `query[-1]` on a still empty query list. */
  datatype PairsError = EmptyCigar | EmptyQuery

  /** The source as written, or with its two defects mended. */
  datatype Variant = AsWritten | Corrected

  /** The two lists the loop extends. */
  datatype Lists = Lists(query: seq<int>, reference: seq<Entry>)

  /** `list(range(lo, lo + n))`. */
  function Range(lo: int, n: nat): seq<int> {
    seq(n, i => lo + i)
  }

  /** `list(range(lo, lo + n))` stored in the reference list. */
  function Coordinates(lo: int, n: nat): seq<Entry> {
    seq(n, i => Some(lo + i))
  }

  /** `[x] * n`. */
  function Repeat<T>(x: T, n: nat): seq<T> {
    seq(n, _ => x)
  }

  /** Python truthiness of a reference entry: `None` and `0` are false. */
  predicate Truthy(e: Entry) {
    e.Some? && e.value != 0
  }

  /** The lists after the left clip of k: as written, `range(k + 1)` query entries. */
  function LeftStart(k: nat, fill: Entry, v: Variant): Lists {
    if k == 0 then Lists([], [])
    else Lists(Range(0, if v == AsWritten then k + 1 else k), Repeat(fill, k))
  }

  /** `qstart`: the last query entry, or -1 when there is none. */
  function QStart(st: Lists): int {
    if st.query == [] then -1 else st.query[|st.query| - 1]
  }

  /** `rstart` as written: the last reference entry when it is truthy, else reference_start - 1. */
  function RStart(st: Lists, referenceStart: int): int {
    if st.reference != [] && Truthy(st.reference[|st.reference| - 1]) then
      st.reference[|st.reference| - 1].value
    else
      referenceStart - 1
  }

  /** The query entries the op (op, sz) appends: fresh coordinates after
      `qstart`, or `query[-1]` repeated. */
  function QueryRun(st: Lists, op: Op, sz: nat): seq<int> {
    if ConsumesQuery(op) then Range(QStart(st) + 1, sz) else Repeat(QStart(st), sz)
  }

  /** The reference entries the op (op, sz) appends: fresh coordinates after
      `rstart`, or `rstart` repeated. */
  function RefRun(op: Op, sz: nat, rstart: int): seq<Entry> {
    if ConsumesReference(op) then Coordinates(rstart + 1, sz) else Repeat(Some(rstart), sz)
  }

  /** One pass of the loop body for the op (op, sz), given the reference start. */
  function Extend(st: Lists, op: Op, sz: nat, rstart: int): Result<Lists, PairsError> {
    if !ConsumesQuery(op) && st.query == [] then Err(EmptyQuery)
    else Ok(Lists(st.query + QueryRun(st, op, sz), st.reference + RefRun(op, sz, rstart)))
  }

  /** Query units consumed by the first i declipped ops. */
  function QueryBefore(d: CigarTuples, i: nat): nat
    requires i <= |d|
  {
    SumWhere(d[..i], ConsumesQuery)
  }

  /** Reference units consumed by the first i declipped ops. */
  function RefBefore(d: CigarTuples, i: nat): nat
    requires i <= |d|
  {
    SumWhere(d[..i], ConsumesReference)
  }

  /** The reference start of op n: as written, or from the running count. */
  function RefStartOf(st: Lists, d: CigarTuples, n: nat, referenceStart: int, v: Variant): int
    requires n <= |d|
  {
    if v == AsWritten then RStart(st, referenceStart) else referenceStart + RefBefore(d, n) - 1
  }

  /** The lists after the first n declipped ops. */
  function Walk(d: CigarTuples, n: nat, init: Lists, referenceStart: int, v: Variant): Result<Lists, PairsError>
    requires n <= |d|
  {
    if n == 0 then Ok(init)
    else match Walk(d, n - 1, init, referenceStart, v)
      case Err(e) => Err(e)
      case Ok(st) => Extend(st, d[n - 1].0, d[n - 1].1, RefStartOf(st, d, n - 1, referenceStart, v))
  }

  /** The right clip of k: `k` more query coordinates after the last one, and `k` fills. */
  function RightEnd(st: Lists, k: nat, fill: Entry): Result<Lists, PairsError> {
    if k == 0 then Ok(st)
    else if st.query == [] then Err(EmptyQuery)
    else Ok(Lists(st.query + Range(QStart(st) + 1, k), st.reference + Repeat(fill, k)))
  }

  function Shorter(a: nat, b: nat): nat {
    if a <= b then a else b
  }

  /** `zip`: pairs up to the end of the shorter list. */
  function Zip(q: seq<int>, r: seq<Entry>): seq<Pair> {
    seq(Shorter(|q|, |r|), i requires 0 <= i < Shorter(|q|, |r|) => (q[i], r[i]))
  }

  /** The whole function in either variant. */
  function Build(c: CigarTuples, referenceStart: int, fill: Entry, v: Variant): Result<seq<Pair>, PairsError> {
    if c == [] then Err(EmptyCigar)
    else
      var d := Declip(c);
      match Walk(d, |d|, LeftStart(LeftClipping(c, true), fill, v), referenceStart, v)
      case Err(e) => Err(e)
      case Ok(st) =>
        match RightEnd(st, RightClipping(c, true), fill)
        case Err(e) => Err(e)
        case Ok(fin) => Ok(Zip(fin.query, fin.reference))
  }

  /** cigartuples2pairs as written. */
  function Pairs(c: CigarTuples, referenceStart: int, fill: Entry): Result<seq<Pair>, PairsError> {
    Build(c, referenceStart, fill, AsWritten)
  }

  /** cigartuples2pairs with `range(left_clip)` and a counted reference start. */
  function CorrectedPairs(c: CigarTuples, referenceStart: int, fill: Entry): Result<seq<Pair>, PairsError> {
    Build(c, referenceStart, fill, Corrected)
  }

  /** cigartuples2pairs, extending the two lists in place as the source does. */
  method CigarTuplesToPairs(c: CigarTuples, referenceStart: int, clippingFill: Entry)
    returns (r: Result<seq<Pair>, PairsError>)
    ensures r == Pairs(c, referenceStart, clippingFill)
  {
    if c == [] {
      return Err(EmptyCigar);
    }
    var query, reference := AddLeftClip(c, clippingFill);
    var d := Declip(c);
    ghost var init := Lists(query, reference);
    var i := 0;
    while i < |d|
      invariant 0 <= i <= |d|
      invariant init == LeftStart(LeftClipping(c, true), clippingFill, AsWritten)
      invariant Walk(d, i, init, referenceStart, AsWritten) == Ok(Lists(query, reference))
    {
      ghost var st := Lists(query, reference);
      var pass := AddOp(query, reference, d[i].0, d[i].1, referenceStart);
      WalkNext(d, i, init, referenceStart, AsWritten, st);
      if pass.Err? {
        FailsInLoop(c, referenceStart, clippingFill, i, st);
        return Err(pass.error);
      }
      query, reference := pass.value.query, pass.value.reference;
      i := i + 1;
    }
    ghost var walked := Lists(query, reference);
    FinishesWith(c, referenceStart, clippingFill, walked);
    var fin := AddRightClip(c, query, reference, clippingFill);
    if fin.Err? {
      return Err(fin.error);
    }
    return Ok(Zip(fin.value.query, fin.value.reference));
  }

  /** Lines before the loop: the left clip's query indices and fills. */
  method AddLeftClip(c: CigarTuples, clippingFill: Entry) returns (query: seq<int>, reference: seq<Entry>)
    requires c != []
    ensures Lists(query, reference) == LeftStart(LeftClipping(c, true), clippingFill, AsWritten)
  {
    reference := [];
    query := [];
    var leftClip := LeftClipping(c, true);
    if leftClip > 0 {
      query := query + Range(0, leftClip + 1);
      reference := Repeat(clippingFill, leftClip);
    }
  }

  /** The loop body for one op (op, sz). */
  method AddOp(query: seq<int>, reference: seq<Entry>, op: Op, sz: nat, referenceStart: int)
    returns (r: Result<Lists, PairsError>)
    ensures r == Extend(Lists(query, reference), op, sz, RStart(Lists(query, reference), referenceStart))
  {
    ghost var st := Lists(query, reference);
    var qstart := if query != [] then query[|query| - 1] else -1;
    assert qstart == QStart(st);
    var added: seq<int>;
    if ConsumesQuery(op) {
      added := Range(qstart + 1, sz);
    } else {
      if query == [] {
        return Err(EmptyQuery);
      }
      added := Repeat(query[|query| - 1], sz);
    }
    var rstart := if reference != [] && Truthy(reference[|reference| - 1]) then reference[|reference| - 1].value
                  else referenceStart - 1;
    assert rstart == RStart(st, referenceStart);
    var addedReference: seq<Entry>;
    if ConsumesReference(op) {
      addedReference := Coordinates(rstart + 1, sz);
    } else {
      addedReference := Repeat(Some(rstart), sz);
    }
    ExtendIs(st, op, sz, rstart, added, addedReference);
    r := Ok(Lists(query + added, reference + addedReference));
  }

  /** Lines after the loop: the right clip's query indices and fills. */
  method AddRightClip(c: CigarTuples, query: seq<int>, reference: seq<Entry>, clippingFill: Entry)
    returns (r: Result<Lists, PairsError>)
    requires c != []
    ensures r == RightEnd(Lists(query, reference), RightClipping(c, true), clippingFill)
  {
    var rightClip := RightClipping(c, true);
    if rightClip > 0 {
      if query == [] {
        return Err(EmptyQuery);
      }
      var last := query[|query| - 1];
      return Ok(Lists(query + Range(last + 1, rightClip), reference + Repeat(clippingFill, rightClip)));
    }
    return Ok(Lists(query, reference));
  }

  /** One more op extends the walk by one loop pass. */
  lemma WalkNext(d: CigarTuples, i: nat, init: Lists, referenceStart: int, v: Variant, st: Lists)
    requires i < |d|
    requires Walk(d, i, init, referenceStart, v) == Ok(st)
    ensures Walk(d, i + 1, init, referenceStart, v) == Extend(st, d[i].0, d[i].1, RefStartOf(st, d, i, referenceStart, v))
  {
  }

  /** The loop pass for one op, given what it appends to each list. */
  lemma ExtendIs(st: Lists, op: Op, sz: nat, rstart: int, q: seq<int>, r: seq<Entry>)
    requires ConsumesQuery(op) || st.query != []
    requires q == if ConsumesQuery(op) then Range(QStart(st) + 1, sz) else Repeat(QStart(st), sz)
    requires r == if ConsumesReference(op) then Coordinates(rstart + 1, sz) else Repeat(Some(rstart), sz)
    ensures Extend(st, op, sz, rstart) == Ok(Lists(st.query + q, st.reference + r))
  {
  }

  /** The result once the walk over the declipped ops has succeeded. */
  lemma FinishesWith(c: CigarTuples, referenceStart: int, fill: Entry, st: Lists)
    requires c != []
    requires Walk(Declip(c), |Declip(c)|, LeftStart(LeftClipping(c, true), fill, AsWritten), referenceStart, AsWritten) == Ok(st)
    ensures Pairs(c, referenceStart, fill)
      == match RightEnd(st, RightClipping(c, true), fill)
         case Err(e) => Err(e)
         case Ok(fin) => Ok(Zip(fin.query, fin.reference))
  {
  }

  /** A gap op met with an empty query list makes the whole call fail. */
  lemma FailsInLoop(c: CigarTuples, referenceStart: int, fill: Entry, i: nat, st: Lists)
    requires c != [] && i < |Declip(c)|
    requires Walk(Declip(c), i, LeftStart(LeftClipping(c, true), fill, AsWritten), referenceStart, AsWritten) == Ok(st)
    requires st.query == [] && !ConsumesQuery(Declip(c)[i].0)
    ensures Pairs(c, referenceStart, fill) == Err(EmptyQuery)
  {
    WalkFailsAt(Declip(c), i, LeftStart(LeftClipping(c, true), fill, AsWritten), referenceStart, AsWritten, st);
    FailedWalk(c, referenceStart, fill, AsWritten);
  }

  /** A walk that meets a gap op with an empty query list fails there, and
      so fails as a whole. */
  lemma WalkFailsAt(d: CigarTuples, i: nat, init: Lists, referenceStart: int, v: Variant, st: Lists)
    requires i < |d| && Walk(d, i, init, referenceStart, v) == Ok(st)
    requires st.query == [] && !ConsumesQuery(d[i].0)
    ensures Walk(d, |d|, init, referenceStart, v) == Err(EmptyQuery)
  {
    WalkNext(d, i, init, referenceStart, v, st);
    WalkErrorPersists(d, i + 1, |d|, init, referenceStart, v);
  }

  /** A failed walk is the result. */
  lemma FailedWalk(c: CigarTuples, referenceStart: int, fill: Entry, v: Variant)
    requires c != []
    requires Walk(Declip(c), |Declip(c)|, LeftStart(LeftClipping(c, true), fill, v), referenceStart, v).Err?
    ensures Build(c, referenceStart, fill, v) == Err(Walk(Declip(c), |Declip(c)|, LeftStart(LeftClipping(c, true), fill, v), referenceStart, v).error)
  {
  }

  /** Once the walk has failed, every longer walk fails the same way. */
  lemma {:induction false} WalkErrorPersists(d: CigarTuples, i: nat, n: nat, init: Lists, referenceStart: int, v: Variant)
    requires i <= n <= |d|
    requires Walk(d, i, init, referenceStart, v).Err?
    ensures Walk(d, n, init, referenceStart, v) == Walk(d, i, init, referenceStart, v)
    decreases n - i
  {
    if i < n {
      WalkErrorPersists(d, i, n - 1, init, referenceStart, v);
    }
  }

  /** The walk only appends: the lists it starts from stay in front. */
  lemma {:induction false} WalkKeepsStart(d: CigarTuples, n: nat, init: Lists, referenceStart: int, v: Variant)
    requires n <= |d|
    ensures Walk(d, n, init, referenceStart, v).Ok? ==>
      init.query <= Walk(d, n, init, referenceStart, v).value.query &&
      init.reference <= Walk(d, n, init, referenceStart, v).value.reference
  {
    if n > 0 {
      WalkKeepsStart(d, n - 1, init, referenceStart, v);
      var w := Walk(d, n - 1, init, referenceStart, v);
      if w.Ok? {
        KeepsStartStep(d, n, init, referenceStart, v, w.value);
      }
    }
  }

  /** One step of the walk keeps the lists it starts from in front. */
  lemma KeepsStartStep(d: CigarTuples, n: nat, init: Lists, referenceStart: int, v: Variant, st: Lists)
    requires 0 < n <= |d| && Walk(d, n - 1, init, referenceStart, v) == Ok(st)
    requires init.query <= st.query && init.reference <= st.reference
    ensures Walk(d, n, init, referenceStart, v).Ok? ==>
      init.query <= Walk(d, n, init, referenceStart, v).value.query &&
      init.reference <= Walk(d, n, init, referenceStart, v).value.reference
  {
    var rstart := RefStartOf(st, d, n - 1, referenceStart, v);
    PrefixOfAppend(st.query, QueryRun(st, d[n - 1].0, d[n - 1].1), init.query);
    PrefixOfAppend(st.reference, RefRun(d[n - 1].0, d[n - 1].1, rstart), init.reference);
    WalkExtends(d, n, init, referenceStart, v, st, rstart);
  }

  /** A prefix of s is a prefix of s + t. */
  lemma PrefixOfAppend<T>(s: seq<T>, t: seq<T>, p: seq<T>)
    requires p <= s
    ensures p <= s + t
  {
    assert forall i :: 0 <= i < |p| ==> (s + t)[i] == s[i];
  }

  /** Extra(k, v): how many more query entries than reference entries the left clip leaves. */
  function Extra(k: nat, v: Variant): nat {
    if v == AsWritten && k > 0 then 1 else 0
  }

  /** WalkLengths: the reference list has one entry per clip unit and per
      declipped unit; the query list as many, plus the extra left-clip entry. */
  lemma {:induction false} WalkLengths(d: CigarTuples, n: nat, k: nat, fill: Entry, referenceStart: int, v: Variant)
    requires n <= |d|
    ensures Walk(d, n, LeftStart(k, fill, v), referenceStart, v).Ok? ==>
      var st := Walk(d, n, LeftStart(k, fill, v), referenceStart, v).value;
      |st.reference| == k + TotalLength(d[..n]) && |st.query| == |st.reference| + Extra(k, v)
  {
    if n > 0 {
      WalkLengths(d, n - 1, k, fill, referenceStart, v);
      SumWherePrefix(d, n - 1, AnyOp);
    }
  }

  /** The whole result has one pair per clip unit and per declipped unit. */
  lemma BuildLength(c: CigarTuples, referenceStart: int, fill: Entry, v: Variant)
    ensures Build(c, referenceStart, fill, v).Ok? ==>
      |Build(c, referenceStart, fill, v).value| == LeftClipping(c, true) + TotalLength(Declip(c)) + RightClipping(c, true)
  {
    if c != [] {
      var d := Declip(c);
      var k := LeftClipping(c, true);
      WalkLengths(d, |d|, k, fill, referenceStart, v);
      assert d[..|d|] == d;
    }
  }

  /** Starved(d, i): the first i declipped ops add nothing to an empty query list. */
  predicate Starved(d: CigarTuples, i: nat)
    requires i <= |d|
  {
    forall j :: 0 <= j < i ==> ConsumesQuery(d[j].0) && d[j].1 == 0
  }

  /** A gap op, which copies `query[-1]`, meets a still empty query list. */
  predicate StarvedGap(d: CigarTuples) {
    exists i :: 0 <= i < |d| && !ConsumesQuery(d[i].0) && Starved(d, i)
  }

  /** After a left clip the query list is never empty, so the walk cannot fail. */
  lemma {:induction false} WalkAfterClip(d: CigarTuples, n: nat, k: nat, fill: Entry, referenceStart: int, v: Variant)
    requires n <= |d| && k > 0
    ensures Walk(d, n, LeftStart(k, fill, v), referenceStart, v).Ok?
    ensures Walk(d, n, LeftStart(k, fill, v), referenceStart, v).value.query != []
  {
    if n > 0 {
      WalkAfterClip(d, n - 1, k, fill, referenceStart, v);
    }
  }

  /** Without a left clip the walk fails exactly at a starved gap op, and the
      query list stays empty exactly while the ops are starved. */
  lemma {:induction false} WalkStarves(d: CigarTuples, n: nat, fill: Entry, referenceStart: int, v: Variant)
    requires n <= |d|
    ensures Walk(d, n, LeftStart(0, fill, v), referenceStart, v).Err? <==>
      exists i :: 0 <= i < n && !ConsumesQuery(d[i].0) && Starved(d, i)
    ensures Walk(d, n, LeftStart(0, fill, v), referenceStart, v).Err? ==>
      Walk(d, n, LeftStart(0, fill, v), referenceStart, v).error == EmptyQuery
    ensures Walk(d, n, LeftStart(0, fill, v), referenceStart, v).Ok? ==>
      (Walk(d, n, LeftStart(0, fill, v), referenceStart, v).value.query == [] <==> Starved(d, n))
  {
    if n > 0 {
      WalkStarves(d, n - 1, fill, referenceStart, v);
      var init := LeftStart(0, fill, v);
      var w := Walk(d, n - 1, init, referenceStart, v);
      if w.Err? {
        StarvedGapWithin(d, n - 1, n);
      } else if !ConsumesQuery(d[n - 1].0) && w.value.query == [] {
        StarvedGapAt(d, n);
      } else {
        StarvedStep(d, n);
        WalkQueryStep(d, n, init, referenceStart, v, w.value);
        NoStarvedGapStep(d, n);
      }
    }
  }

  /** A starved gap among the first m ops is one among the first n >= m. */
  lemma StarvedGapWithin(d: CigarTuples, m: nat, n: nat)
    requires m <= n <= |d|
    requires exists i :: 0 <= i < m && !ConsumesQuery(d[i].0) && Starved(d, i)
    ensures exists i :: 0 <= i < n && !ConsumesQuery(d[i].0) && Starved(d, i)
  {
    var i :| 0 <= i < m && !ConsumesQuery(d[i].0) && Starved(d, i);
    assert 0 <= i < n && !ConsumesQuery(d[i].0) && Starved(d, i);
  }

  /** A gap op right after starved ops is a starved gap. */
  lemma StarvedGapAt(d: CigarTuples, n: nat)
    requires 0 < n <= |d|
    requires !ConsumesQuery(d[n - 1].0) && Starved(d, n - 1)
    ensures exists i :: 0 <= i < n && !ConsumesQuery(d[i].0) && Starved(d, i)
  {
  }

  /** No starved gap among the first n - 1 ops, and op n - 1 no starved gap:
      none among the first n. */
  lemma NoStarvedGapStep(d: CigarTuples, n: nat)
    requires 0 < n <= |d|
    requires !exists i :: 0 <= i < n - 1 && !ConsumesQuery(d[i].0) && Starved(d, i)
    requires !ConsumesQuery(d[n - 1].0) ==> !Starved(d, n - 1)
    ensures !exists i :: 0 <= i < n && !ConsumesQuery(d[i].0) && Starved(d, i)
  {
    forall i | 0 <= i < n && !ConsumesQuery(d[i].0)
      ensures !Starved(d, i)
    {
      if i < n - 1 {
        assert !(0 <= i < n - 1 && !ConsumesQuery(d[i].0) && Starved(d, i));
      }
    }
  }

  /** An op that the query list can take keeps the walk going, and leaves
      the list empty only when it was empty and the op has length 0. */
  lemma WalkQueryStep(d: CigarTuples, n: nat, init: Lists, referenceStart: int, v: Variant, st: Lists)
    requires 0 < n <= |d| && Walk(d, n - 1, init, referenceStart, v) == Ok(st)
    requires ConsumesQuery(d[n - 1].0) || st.query != []
    ensures Walk(d, n, init, referenceStart, v).Ok?
    ensures Walk(d, n, init, referenceStart, v).value.query == [] <==> st.query == [] && d[n - 1].1 == 0
  {
    var rstart := RefStartOf(st, d, n - 1, referenceStart, v);
    assert Walk(d, n, init, referenceStart, v) == Extend(st, d[n - 1].0, d[n - 1].1, rstart);
    ExtendQuery(st, d[n - 1].0, d[n - 1].1, rstart);
  }

  /** The pass for an op with a query to work from succeeds, and leaves the
      query empty only when it was empty and the op has size 0. */
  lemma ExtendQuery(st: Lists, op: Op, sz: nat, rstart: int)
    requires ConsumesQuery(op) || st.query != []
    ensures Extend(st, op, sz, rstart).Ok?
    ensures Extend(st, op, sz, rstart).value.query == [] <==> st.query == [] && sz == 0
  {
    assert |QueryRun(st, op, sz)| == sz;
  }

  /** Starvation over n ops is starvation over n - 1 and an empty query op n - 1. */
  lemma StarvedStep(d: CigarTuples, n: nat)
    requires 0 < n <= |d|
    ensures Starved(d, n) <==> Starved(d, n - 1) && ConsumesQuery(d[n - 1].0) && d[n - 1].1 == 0
  {
    if Starved(d, n - 1) && ConsumesQuery(d[n - 1].0) && d[n - 1].1 == 0 {
      forall j | 0 <= j < n
        ensures ConsumesQuery(d[j].0) && d[j].1 == 0
      {
        if j < n - 1 {
          assert ConsumesQuery(d[j].0) && d[j].1 == 0;
        }
      }
    }
  }

  /** The call fails exactly when the CIGAR is empty, or when, without a left
      clip, a gap op or a right clip meets an empty query list. */
  lemma BuildErrors(c: CigarTuples, referenceStart: int, fill: Entry, v: Variant)
    ensures Build(c, referenceStart, fill, v) == Err(EmptyCigar) <==> c == []
    ensures Build(c, referenceStart, fill, v) == Err(EmptyQuery) <==>
      c != [] && LeftClipping(c, true) == 0 &&
      (StarvedGap(Declip(c)) || (RightClipping(c, true) > 0 && Starved(Declip(c), |Declip(c)|)))
    ensures Build(c, referenceStart, fill, v).Err? ==>
      Build(c, referenceStart, fill, v) == Err(EmptyCigar) || Build(c, referenceStart, fill, v) == Err(EmptyQuery)
  {
    if c != [] {
      var d := Declip(c);
      var k := LeftClipping(c, true);
      if k > 0 {
        WalkAfterClip(d, |d|, k, fill, referenceStart, v);
      } else {
        WalkStarves(d, |d|, fill, referenceStart, v);
      }
    }
  }

  /** The left clip's pairs come first, as (i, fill) for i below the clip
      length, and the last pairs, one per right-clip unit, carry the fill. */
  lemma BuildClips(c: CigarTuples, referenceStart: int, fill: Entry, v: Variant)
    ensures c != [] && Build(c, referenceStart, fill, v).Ok? ==>
      var p := Build(c, referenceStart, fill, v).value;
      LeftClipping(c, true) + RightClipping(c, true) <= |p| &&
      (forall i :: 0 <= i < LeftClipping(c, true) ==> p[i] == (i, fill)) &&
      (forall i :: |p| - RightClipping(c, true) <= i < |p| ==> p[i].1 == fill)
  {
    if c != [] && Build(c, referenceStart, fill, v).Ok? {
      var d := Declip(c);
      var k := LeftClipping(c, true);
      var rc := RightClipping(c, true);
      var init := LeftStart(k, fill, v);
      var w := Walk(d, |d|, init, referenceStart, v);
      WalkKeepsStart(d, |d|, init, referenceStart, v);
      WalkLengths(d, |d|, k, fill, referenceStart, v);
      var st := w.value;
      var fin := RightEnd(st, rc, fill).value;
      ClipPrefix(st, fin, rc, fill, init, k);
      BuildLength(c, referenceStart, fill, v);
      var p := Build(c, referenceStart, fill, v).value;
      assert p == Zip(fin.query, fin.reference);
      forall i | 0 <= i < k
        ensures p[i] == (i, fill)
      {
        assert fin.query[i] == i && fin.reference[i] == fill;
      }
    }
  }

  /** The right clip keeps the walked lists in front and ends the reference list in fills. */
  lemma ClipPrefix(st: Lists, fin: Lists, rc: nat, fill: Entry, init: Lists, k: nat)
    requires RightEnd(st, rc, fill) == Ok(fin)
    requires |st.reference| <= |st.query|
    requires init.query <= st.query && init.reference <= st.reference
    requires init == LeftStart(k, fill, AsWritten) || init == LeftStart(k, fill, Corrected)
    ensures |fin.reference| <= |fin.query| && |fin.reference| == |st.reference| + rc
    ensures forall i :: 0 <= i < k ==> fin.query[i] == i && fin.reference[i] == fill
    ensures forall i :: |st.reference| <= i < |fin.reference| ==> fin.reference[i] == fill
  {
    forall i | 0 <= i < k
      ensures fin.query[i] == i && fin.reference[i] == fill
    {
      assert init.query[i] == i && init.reference[i] == fill;
    }
  }

  /** Shift(k, v): where a gap column's query coordinate sits relative to the
      next query base: -1 (the previous base) unless the source's extra
      left-clip entry shifts it onto the next base. */
  function Shift(k: nat, v: Variant): int {
    Extra(k, v) - 1
  }

  /** sz columns of one op: a query-consuming column gets its own query
      coordinate, counted from `base`, and any other column the coordinate
      `gap` away from `base`; a reference-consuming column gets its own
      reference coordinate after `rstart`, and any other column `rstart`
      itself, the last reference coordinate consumed before the op. */
  function Columns(base: int, rstart: int, cq: bool, cr: bool, sz: nat, gap: int): seq<Pair> {
    seq(sz, u => (base + (if cq then u else gap), Some(rstart + (if cr then u + 1 else 0))))
  }

  /** The pairs of declipped op i. */
  function OpPairs(d: CigarTuples, i: nat, k: nat, referenceStart: int, gap: int): seq<Pair>
    requires i < |d|
  {
    Columns(k + QueryBefore(d, i), referenceStart + RefBefore(d, i) - 1,
            ConsumesQuery(d[i].0), ConsumesReference(d[i].0), d[i].1, gap)
  }

  /** The pairs of the first n declipped ops, op by op. */
  function AlignedPairs(d: CigarTuples, n: nat, k: nat, referenceStart: int, gap: int): seq<Pair>
    requires n <= |d|
  {
    if n == 0 then [] else AlignedPairs(d, n - 1, k, referenceStart, gap) + OpPairs(d, n - 1, k, referenceStart, gap)
  }

  /** n clip columns: consecutive query coordinates from q0, each with the fill. */
  function ClipPairs(q0: int, n: nat, fill: Entry): seq<Pair> {
    seq(n, j => (q0 + j, fill))
  }

  /** The intended result: the left clip, the declipped ops, the right clip. */
  function ExpectedPairs(c: CigarTuples, referenceStart: int, fill: Entry, gap: int): seq<Pair>
    requires c != []
  {
    var d := Declip(c);
    var k := LeftClipping(c, true);
    ClipPairs(0, k, fill) + AlignedPairs(d, |d|, k, referenceStart, gap)
      + ClipPairs(k + QueryBefore(d, |d|), RightClipping(c, true), fill)
  }

  /** No falsy restart: whenever an op starts after some reference units were
      consumed, the last of them is not position 0. */
  predicate NoFalsyRestart(d: CigarTuples, referenceStart: int) {
    forall i :: 0 <= i < |d| ==> RefBefore(d, i) == 0 || referenceStart + RefBefore(d, i) != 1
  }

  /** When the variant takes its reference starts from the running count. */
  predicate CountsAgree(d: CigarTuples, k: nat, fill: Entry, referenceStart: int, v: Variant) {
    v == Corrected || (NoFalsyRestart(d, referenceStart) && (k == 0 || !Truthy(fill)))
  }

  /** The lists after n ops, described column by column. */
  predicate Described(d: CigarTuples, n: nat, k: nat, fill: Entry, referenceStart: int, v: Variant, st: Lists)
    requires n <= |d|
  {
    Shaped(d, n, k, fill, referenceStart, v, st) &&
    Zip(st.query, st.reference) == ClipPairs(0, k, fill) + AlignedPairs(d, n, k, referenceStart, Shift(k, v))
  }

  /** The lengths and the last entries of the lists after n ops. */
  predicate Shaped(d: CigarTuples, n: nat, k: nat, fill: Entry, referenceStart: int, v: Variant, st: Lists)
    requires n <= |d|
  {
    |st.reference| == k + TotalLength(d[..n]) &&
    |st.query| == |st.reference| + Extra(k, v) &&
    QStart(st) == k + QueryBefore(d, n) + Shift(k, v) &&
    (TotalLength(d[..n]) > 0 ==> st.reference[|st.reference| - 1] == Some(referenceStart + RefBefore(d, n) - 1)) &&
    (TotalLength(d[..n]) == 0 ==> RefBefore(d, n) == 0 && st.reference == Repeat(fill, k))
  }

  /** The left clip alone is described. */
  lemma DescribedStart(d: CigarTuples, k: nat, fill: Entry, referenceStart: int, v: Variant)
    ensures Described(d, 0, k, fill, referenceStart, v, LeftStart(k, fill, v))
  {
    var st := LeftStart(k, fill, v);
    assert d[..0] == [];
    assert Zip(st.query, st.reference) == ClipPairs(0, k, fill);
    assert ClipPairs(0, k, fill) + [] == ClipPairs(0, k, fill);
  }

  /** While the reference starts follow the count, the source's start is the count. */
  lemma {:induction false} StartFollowsCount(d: CigarTuples, n: nat, k: nat, fill: Entry, referenceStart: int, v: Variant, st: Lists)
    requires n < |d|
    requires CountsAgree(d, k, fill, referenceStart, v)
    requires Described(d, n, k, fill, referenceStart, v, st)
    ensures RefStartOf(st, d, n, referenceStart, v) == referenceStart + RefBefore(d, n) - 1
  {
    if v == AsWritten {
      assert RefBefore(d, n) == 0 || referenceStart + RefBefore(d, n) != 1;
      if TotalLength(d[..n]) == 0 && k > 0 {
        assert st.reference[|st.reference| - 1] == fill;
      }
    }
  }

  /** zip over two appended lists: the old pairs, then the new tail of the
      longer list against the new entries. */
  lemma ZipAppend(q: seq<int>, r: seq<Entry>, a: seq<int>, b: seq<Entry>)
    requires |q| >= |r| && |a| == |b|
    ensures Zip(q + a, r + b) == Zip(q, r) + Zip((q + a)[|r|..], b)
  {
    var lhs := Zip(q + a, r + b);
    var rhs := Zip(q, r) + Zip((q + a)[|r|..], b);
    assert |lhs| == |rhs|;
    forall i | 0 <= i < |lhs|
      ensures lhs[i] == rhs[i]
    {
      if i >= |r| {
        assert (r + b)[i] == b[i - |r|];
      }
    }
  }

  /** Pairs already described, extended by the pairs of the appended runs. */
  lemma ZipExtends(q: seq<int>, r: seq<Entry>, a: seq<int>, b: seq<Entry>, front: seq<Pair>, aligned: seq<Pair>, added: seq<Pair>)
    requires |q| >= |r| && |a| == |b|
    requires Zip(q, r) == front + aligned
    requires Zip((q + a)[|r|..], b) == added
    ensures Zip(q + a, r + b) == front + (aligned + added)
  {
    ZipAppend(q, r, a, b);
  }

  /** What one op appends: its query run `a` and its reference run `b`. */
  predicate Appended(st: Lists, op: Op, sz: nat, rstart: int, a: seq<int>, b: seq<Entry>) {
    a == QueryRun(st, op, sz) && b == RefRun(op, sz, rstart)
  }

  /** The appended runs, read against each other past the end of the
      reference list, are the op's columns. */
  lemma AppendedColumns(q: seq<int>, len: nat, a: seq<int>, b: seq<Entry>, qs: int, extra: nat, gap: int, base: int, rstart: int, cq: bool, cr: bool, sz: nat)
    requires extra <= 1 && |q| == len + extra && gap == extra - 1
    requires qs == (if q == [] then -1 else q[|q| - 1]) && qs == base + extra - 1
    requires a == if cq then Range(qs + 1, sz) else Repeat(qs, sz)
    requires b == if cr then Coordinates(rstart + 1, sz) else Repeat(Some(rstart), sz)
    ensures Zip((q + a)[len..], b) == Columns(base, rstart, cq, cr, sz, gap)
  {
    var tail := (q + a)[len..];
    var lhs := Zip(tail, b);
    var rhs := Columns(base, rstart, cq, cr, sz, gap);
    assert |lhs| == |rhs|;
    forall u | 0 <= u < |lhs|
      ensures lhs[u] == rhs[u]
    {
      TailQuery(q, len, a, extra, base, cq, sz, u);
    }
  }

  /** Column u of an op's appended query entries, read past the end of the
      reference list: the base coordinate plus u, or the gap coordinate. */
  lemma TailQuery(q: seq<int>, len: nat, a: seq<int>, extra: nat, base: int, cq: bool, sz: nat, u: nat)
    requires extra <= 1 && |q| == len + extra && u < sz
    requires (if q == [] then -1 else q[|q| - 1]) == base + extra - 1
    requires a == if cq then Range(base + extra, sz) else Repeat(base + extra - 1, sz)
    ensures len + u < |q + a|
    ensures (q + a)[len + u] == base + (if cq then u else extra - 1)
  {
    if extra == 1 && u > 0 {
      assert (q + a)[len + u] == a[u - 1];
    }
  }

  /** The runs of op n - 1 take lists described after n - 1 ops to lists
      described after n. */
  lemma OpStep(d: CigarTuples, n: nat, k: nat, fill: Entry, referenceStart: int, v: Variant, st: Lists, rstart: int, a: seq<int>, b: seq<Entry>)
    requires 0 < n <= |d|
    requires Described(d, n - 1, k, fill, referenceStart, v, st)
    requires rstart == referenceStart + RefBefore(d, n - 1) - 1
    requires Appended(st, d[n - 1].0, d[n - 1].1, rstart, a, b)
    ensures Described(d, n, k, fill, referenceStart, v, Lists(st.query + a, st.reference + b))
  {
    if d[n - 1].1 == 0 {
      EmptyAppend(st.query, a);
      EmptyAppend(st.reference, b);
      EmptyOpStep(d, n, k, fill, referenceStart, v, st);
    } else {
      ShapedStep(d, n, k, fill, referenceStart, v, st, rstart, a, b);
      StepPairs(d, n, k, fill, referenceStart, v, st, rstart, a, b);
    }
  }

  /** The lengths and last entries after an op of positive length. */
  lemma ShapedStep(d: CigarTuples, n: nat, k: nat, fill: Entry, referenceStart: int, v: Variant, st: Lists, rstart: int, a: seq<int>, b: seq<Entry>)
    requires 0 < n <= |d| && d[n - 1].1 > 0
    requires Shaped(d, n - 1, k, fill, referenceStart, v, st)
    requires rstart == referenceStart + RefBefore(d, n - 1) - 1
    requires Appended(st, d[n - 1].0, d[n - 1].1, rstart, a, b)
    ensures Shaped(d, n, k, fill, referenceStart, v, Lists(st.query + a, st.reference + b))
  {
    var sz := d[n - 1].1;
    var st' := Lists(st.query + a, st.reference + b);
    BeforeStep(d, n);
    QueryLast(st.query, a, QStart(st), ConsumesQuery(d[n - 1].0), sz);
    ReferenceLast(st.reference, b, rstart, ConsumesReference(d[n - 1].0), sz);
    assert QStart(st') == k + QueryBefore(d, n) + Shift(k, v);
    assert st'.reference[|st'.reference| - 1] == Some(referenceStart + RefBefore(d, n) - 1);
  }

  /** The running sums over one more op. */
  lemma BeforeStep(d: CigarTuples, n: nat)
    requires 0 < n <= |d|
    ensures TotalLength(d[..n]) == TotalLength(d[..n - 1]) + d[n - 1].1
    ensures QueryBefore(d, n) == QueryBefore(d, n - 1) + (if ConsumesQuery(d[n - 1].0) then d[n - 1].1 else 0)
    ensures RefBefore(d, n) == RefBefore(d, n - 1) + (if ConsumesReference(d[n - 1].0) then d[n - 1].1 else 0)
  {
    SumWherePrefix(d, n - 1, AnyOp);
    SumWherePrefix(d, n - 1, ConsumesQuery);
    SumWherePrefix(d, n - 1, ConsumesReference);
  }

  /** Appending an empty run leaves a list as it was. */
  lemma EmptyAppend<T>(s: seq<T>, b: seq<T>)
    requires |b| == 0
    ensures s + b == s
  {
  }

  /** An op of length 0 changes nothing. */
  lemma EmptyOpStep(d: CigarTuples, n: nat, k: nat, fill: Entry, referenceStart: int, v: Variant, st: Lists)
    requires 0 < n <= |d| && d[n - 1].1 == 0
    requires Described(d, n - 1, k, fill, referenceStart, v, st)
    ensures Described(d, n, k, fill, referenceStart, v, st)
  {
    BeforeStep(d, n);
    EmptyAppend(AlignedPairs(d, n - 1, k, referenceStart, Shift(k, v)), OpPairs(d, n - 1, k, referenceStart, Shift(k, v)));
  }

  /** The pairs after one more op: the old ones, then the op's own. */
  lemma StepPairs(d: CigarTuples, n: nat, k: nat, fill: Entry, referenceStart: int, v: Variant, st: Lists, rstart: int, a: seq<int>, b: seq<Entry>)
    requires 0 < n <= |d|
    requires |st.query| == |st.reference| + Extra(k, v)
    requires QStart(st) == k + QueryBefore(d, n - 1) + Shift(k, v)
    requires Zip(st.query, st.reference) == ClipPairs(0, k, fill) + AlignedPairs(d, n - 1, k, referenceStart, Shift(k, v))
    requires rstart == referenceStart + RefBefore(d, n - 1) - 1
    requires Appended(st, d[n - 1].0, d[n - 1].1, rstart, a, b)
    ensures Zip(st.query + a, st.reference + b) == ClipPairs(0, k, fill) + AlignedPairs(d, n, k, referenceStart, Shift(k, v))
  {
    AlignedStep(d, n, k, referenceStart, Shift(k, v));
    PairsExtend(st.query, st.reference, a, b, QStart(st), Extra(k, v), Shift(k, v), k + QueryBefore(d, n - 1), rstart,
                ConsumesQuery(d[n - 1].0), ConsumesReference(d[n - 1].0), d[n - 1].1,
                ClipPairs(0, k, fill), AlignedPairs(d, n - 1, k, referenceStart, Shift(k, v)), OpPairs(d, n - 1, k, referenceStart, Shift(k, v)));
  }

  /** Lists whose pairs are `front + aligned`, extended by the runs of an op
      whose columns are `added`, pair up into `front + (aligned + added)`. */
  lemma PairsExtend(q: seq<int>, r: seq<Entry>, a: seq<int>, b: seq<Entry>, qs: int, extra: nat, gap: int, base: int, rstart: int, cq: bool, cr: bool, sz: nat,
                    front: seq<Pair>, aligned: seq<Pair>, added: seq<Pair>)
    requires extra <= 1 && |q| == |r| + extra && gap == extra - 1
    requires qs == (if q == [] then -1 else q[|q| - 1]) && qs == base + extra - 1
    requires a == if cq then Range(qs + 1, sz) else Repeat(qs, sz)
    requires b == if cr then Coordinates(rstart + 1, sz) else Repeat(Some(rstart), sz)
    requires Zip(q, r) == front + aligned
    requires added == Columns(base, rstart, cq, cr, sz, gap)
    ensures Zip(q + a, r + b) == front + (aligned + added)
  {
    AppendedColumns(q, |r|, a, b, qs, extra, gap, base, rstart, cq, cr, sz);
    ZipExtends(q, r, a, b, front, aligned, added);
  }

  /** The aligned pairs of n ops: those of n - 1 ops, then op n - 1's. */
  lemma AlignedStep(d: CigarTuples, n: nat, k: nat, referenceStart: int, gap: int)
    requires 0 < n <= |d|
    ensures AlignedPairs(d, n, k, referenceStart, gap) == AlignedPairs(d, n - 1, k, referenceStart, gap) + OpPairs(d, n - 1, k, referenceStart, gap)
  {
  }

  /** The last query coordinate after appending an op's query entries. */
  lemma QueryLast(q: seq<int>, a: seq<int>, qs: int, cq: bool, sz: nat)
    requires qs == if q == [] then -1 else q[|q| - 1]
    requires a == if cq then Range(qs + 1, sz) else Repeat(qs, sz)
    ensures (if q + a == [] then -1 else (q + a)[|q + a| - 1]) == qs + (if cq then sz else 0)
  {
    if sz == 0 {
      assert q + a == q;
    } else {
      assert (q + a)[|q + a| - 1] == a[sz - 1];
    }
  }

  /** The last reference entry after appending a non-empty op's entries. */
  lemma ReferenceLast(r: seq<Entry>, b: seq<Entry>, rstart: int, cr: bool, sz: nat)
    requires sz > 0
    requires b == if cr then Coordinates(rstart + 1, sz) else Repeat(Some(rstart), sz)
    ensures (r + b)[|r + b| - 1] == Some(rstart + (if cr then sz else 0))
  {
    assert (r + b)[|r + b| - 1] == b[sz - 1];
  }

  /** A successful step of the walk appends the op's two runs. */
  lemma WalkExtends(d: CigarTuples, n: nat, init: Lists, referenceStart: int, v: Variant, st: Lists, rstart: int)
    requires 0 < n <= |d| && Walk(d, n - 1, init, referenceStart, v) == Ok(st)
    requires RefStartOf(st, d, n - 1, referenceStart, v) == rstart
    ensures Walk(d, n, init, referenceStart, v).Ok? ==>
      Walk(d, n, init, referenceStart, v).value
        == Lists(st.query + QueryRun(st, d[n - 1].0, d[n - 1].1), st.reference + RefRun(d[n - 1].0, d[n - 1].1, rstart))
  {
  }

  /** While the starts follow the count, the walk is described column by column. */
  lemma {:induction false} WalkDescribed(d: CigarTuples, n: nat, k: nat, fill: Entry, referenceStart: int, v: Variant)
    requires n <= |d|
    requires CountsAgree(d, k, fill, referenceStart, v)
    ensures Walk(d, n, LeftStart(k, fill, v), referenceStart, v).Ok? ==>
      Described(d, n, k, fill, referenceStart, v, Walk(d, n, LeftStart(k, fill, v), referenceStart, v).value)
  {
    var init := LeftStart(k, fill, v);
    if n == 0 {
      DescribedStart(d, k, fill, referenceStart, v);
    } else {
      WalkDescribed(d, n - 1, k, fill, referenceStart, v);
      var w := Walk(d, n - 1, init, referenceStart, v);
      if w.Ok? {
        var st := w.value;
        var op := d[n - 1].0;
        var sz := d[n - 1].1;
        var rstart := referenceStart + RefBefore(d, n - 1) - 1;
        StartFollowsCount(d, n - 1, k, fill, referenceStart, v, st);
        WalkExtends(d, n, init, referenceStart, v, st, rstart);
        if Walk(d, n, init, referenceStart, v).Ok? {
          OpStep(d, n, k, fill, referenceStart, v, st, rstart, QueryRun(st, op, sz), RefRun(op, sz, rstart));
        }
      }
    }
  }

  /** The right clip's runs, read past the end of the reference list, are
      its clip columns. */
  lemma RightClipColumns(q: seq<int>, len: nat, a: seq<int>, b: seq<Entry>, extra: nat, base: int, fill: Entry, rc: nat)
    requires extra <= 1 && |q| == len + extra
    requires (if q == [] then -1 else q[|q| - 1]) == base + extra - 1
    requires a == Range(base + extra, rc) && b == Repeat(fill, rc)
    ensures Zip((q + a)[len..], b) == ClipPairs(base, rc, fill)
  {
    var lhs := Zip((q + a)[len..], b);
    var rhs := ClipPairs(base, rc, fill);
    assert |lhs| == |rhs|;
    forall u | 0 <= u < |lhs|
      ensures lhs[u] == rhs[u]
    {
      TailQuery(q, len, a, extra, base, true, rc, u);
    }
  }

  /** The right clip appends its clip columns to the pairs of the walk. */
  lemma RightEndPairs(st: Lists, rc: nat, fill: Entry, extra: nat, base: int, front: seq<Pair>, aligned: seq<Pair>, fin: Lists)
    requires extra <= 1 && |st.query| == |st.reference| + extra
    requires QStart(st) == base + extra - 1
    requires Zip(st.query, st.reference) == front + aligned
    requires RightEnd(st, rc, fill) == Ok(fin)
    ensures Zip(fin.query, fin.reference) == front + aligned + ClipPairs(base, rc, fill)
  {
    var back := ClipPairs(base, rc, fill);
    if rc == 0 {
      assert back == [];
      assert front + aligned + back == front + aligned;
    } else {
      var a := Range(QStart(st) + 1, rc);
      var b := Repeat(fill, rc);
      RightClipColumns(st.query, |st.reference|, a, b, extra, base, fill, rc);
      ZipExtends(st.query, st.reference, a, b, front, aligned, back);
      assert front + aligned + back == front + (aligned + back);
    }
  }

  /** Whenever the source's reference starts follow the running count, a
      successful call returns the left clip columns, the columns of every
      declipped op in order, and the right clip columns. */
  lemma BuildSpec(c: CigarTuples, referenceStart: int, fill: Entry, v: Variant)
    requires c != []
    requires CountsAgree(Declip(c), LeftClipping(c, true), fill, referenceStart, v)
    ensures Build(c, referenceStart, fill, v).Ok? ==>
      Build(c, referenceStart, fill, v).value == ExpectedPairs(c, referenceStart, fill, Shift(LeftClipping(c, true), v))
  {
    var d := Declip(c);
    var k := LeftClipping(c, true);
    WalkDescribed(d, |d|, k, fill, referenceStart, v);
    var w := Walk(d, |d|, LeftStart(k, fill, v), referenceStart, v);
    if w.Ok? {
      RightEndExpected(c, referenceStart, fill, v, w.value, ClipPairs(0, k, fill), AlignedPairs(d, |d|, k, referenceStart, Shift(k, v)));
      BuildAfterWalk(c, referenceStart, fill, v, w.value);
    }
  }

  /** Lists that hold the intended columns of the left clip and the
      declipped ops end, after the right clip, in the intended pairs. */
  lemma RightEndExpected(c: CigarTuples, referenceStart: int, fill: Entry, v: Variant, st: Lists, front: seq<Pair>, aligned: seq<Pair>)
    requires c != []
    requires |st.query| == |st.reference| + Extra(LeftClipping(c, true), v)
    requires QStart(st) == LeftClipping(c, true) + QueryBefore(Declip(c), |Declip(c)|) + Shift(LeftClipping(c, true), v)
    requires front == ClipPairs(0, LeftClipping(c, true), fill)
    requires aligned == AlignedPairs(Declip(c), |Declip(c)|, LeftClipping(c, true), referenceStart, Shift(LeftClipping(c, true), v))
    requires Zip(st.query, st.reference) == front + aligned
    ensures RightEnd(st, RightClipping(c, true), fill).Ok? ==>
      Zip(RightEnd(st, RightClipping(c, true), fill).value.query, RightEnd(st, RightClipping(c, true), fill).value.reference)
        == ExpectedPairs(c, referenceStart, fill, Shift(LeftClipping(c, true), v))
  {
    var k := LeftClipping(c, true);
    var rc := RightClipping(c, true);
    ExpectedParts(c, referenceStart, fill, Shift(k, v));
    if RightEnd(st, rc, fill).Ok? {
      RightEndPairs(st, rc, fill, Extra(k, v), k + QueryBefore(Declip(c), |Declip(c)|), front, aligned, RightEnd(st, rc, fill).value);
    }
  }

  /** The three parts of the intended pairs. */
  lemma ExpectedParts(c: CigarTuples, referenceStart: int, fill: Entry, gap: int)
    requires c != []
    ensures ExpectedPairs(c, referenceStart, fill, gap) ==
      ClipPairs(0, LeftClipping(c, true), fill)
      + AlignedPairs(Declip(c), |Declip(c)|, LeftClipping(c, true), referenceStart, gap)
      + ClipPairs(LeftClipping(c, true) + QueryBefore(Declip(c), |Declip(c)|), RightClipping(c, true), fill)
  {
  }

  /** After a successful walk, the call ends with the right clip and zip. */
  lemma BuildAfterWalk(c: CigarTuples, referenceStart: int, fill: Entry, v: Variant, st: Lists)
    requires c != []
    requires Walk(Declip(c), |Declip(c)|, LeftStart(LeftClipping(c, true), fill, v), referenceStart, v) == Ok(st)
    ensures RightEnd(st, RightClipping(c, true), fill).Err? ==> Build(c, referenceStart, fill, v).Err?
    ensures RightEnd(st, RightClipping(c, true), fill).Ok? ==>
      Build(c, referenceStart, fill, v) == Ok(Zip(RightEnd(st, RightClipping(c, true), fill).value.query, RightEnd(st, RightClipping(c, true), fill).value.reference))
  {
  }

  /** The pairs as written are the intended columns, the gap columns sitting
      on the next query coordinate after a left clip, whenever no
      falsy reference start and no truthy left-clip fill misleads `rstart`. */
  lemma PairsClosedForm(c: CigarTuples, referenceStart: int, fill: Entry)
    requires c != []
    requires NoFalsyRestart(Declip(c), referenceStart)
    requires LeftClipping(c, true) == 0 || !Truthy(fill)
    ensures Pairs(c, referenceStart, fill).Ok? ==>
      Pairs(c, referenceStart, fill).value == ExpectedPairs(c, referenceStart, fill, if LeftClipping(c, true) > 0 then 0 else -1)
  {
    BuildSpec(c, referenceStart, fill, AsWritten);
  }

  /** The corrected pairs are always the intended columns, a gap column
      carrying the last query coordinate before it. */
  lemma CorrectedPairsClosedForm(c: CigarTuples, referenceStart: int, fill: Entry)
    requires c != []
    ensures CorrectedPairs(c, referenceStart, fill).Ok? ==>
      CorrectedPairs(c, referenceStart, fill).value == ExpectedPairs(c, referenceStart, fill, -1)
  {
    BuildSpec(c, referenceStart, fill, Corrected);
  }

  /** Every op is a match. */
  predicate AllMatch(c: CigarTuples) {
    forall i :: 0 <= i < |c| ==> c[i].0 == M
  }

  /** Query i paired with reference start + i, for i below n. */
  function Diagonal(n: nat, referenceStart: int): seq<Pair> {
    seq(n, i => (i, Some(referenceStart + i)))
  }

  /** The diagonal, given pair by pair. */
  lemma DiagonalIs(n: nat, referenceStart: int, z: seq<Pair>)
    requires |z| == n
    requires forall i | 0 <= i < n :: z[i] == (i, Some(referenceStart + i))
    ensures Diagonal(n, referenceStart) == z
  {
  }

  /** Over matches alone both counts are the alignment length, and query
      and reference coordinates advance together. */
  lemma {:induction false} AllMatchAligned(d: CigarTuples, n: nat, referenceStart: int, gap: int)
    requires n <= |d| && AllMatch(d)
    ensures QueryBefore(d, n) == TotalLength(d[..n]) && RefBefore(d, n) == TotalLength(d[..n])
    ensures AlignedPairs(d, n, 0, referenceStart, gap) == Diagonal(TotalLength(d[..n]), referenceStart)
  {
    if n == 0 {
      assert d[..0] == [];
    } else {
      AllMatchAligned(d, n - 1, referenceStart, gap);
      BeforeStep(d, n);
      ConsumptionByKind(d[n - 1].0);
      AlignedStep(d, n, 0, referenceStart, gap);
      var lhs := AlignedPairs(d, n, 0, referenceStart, gap);
      var rhs := Diagonal(TotalLength(d[..n]), referenceStart);
      var before := TotalLength(d[..n - 1]);
      assert |lhs| == |rhs|;
      forall i | 0 <= i < |lhs|
        ensures lhs[i] == rhs[i]
      {
        if i >= before {
          assert lhs[i] == OpPairs(d, n - 1, 0, referenceStart, gap)[i - before];
        }
      }
    }
  }

  /** Matches alone are not clipped. */
  lemma AllMatchUnclipped(c: CigarTuples)
    requires c != [] && AllMatch(c)
    ensures Declip(c) == c && LeftClipping(c, true) == 0 && RightClipping(c, true) == 0
  {
    assert c[0].0 == M && c[|c| - 1].0 == M;
  }

  /** Matches alone never starve the query list. */
  lemma AllMatchSucceeds(c: CigarTuples, referenceStart: int, fill: Entry, v: Variant)
    requires c != [] && AllMatch(c)
    ensures Build(c, referenceStart, fill, v).Ok?
  {
    AllMatchUnclipped(c);
    BuildErrors(c, referenceStart, fill, v);
  }

  /** A read of matches alone pairs query i with reference start + i, in
      both variants; as written this needs a positive reference start or a
      single op, so that no run starts after reference position 0. */
  lemma PairsAllMatch(c: CigarTuples, referenceStart: int, fill: Entry)
    requires c != [] && AllMatch(c)
    requires referenceStart > 0 || |c| == 1
    ensures Pairs(c, referenceStart, fill) == Ok(Diagonal(TotalLength(c), referenceStart))
    ensures CorrectedPairs(c, referenceStart, fill) == Ok(Diagonal(TotalLength(c), referenceStart))
  {
    AllMatchUnclipped(c);
    AllMatchAligned(c, |c|, referenceStart, -1);
    assert c[..|c|] == c;
    forall i | 0 <= i < |c|
      ensures RefBefore(c, i) == 0 || referenceStart + RefBefore(c, i) != 1
    {
      if referenceStart <= 0 {
        assert c[..0] == [];
      }
    }
    assert NoFalsyRestart(Declip(c), referenceStart);
    AllMatchSucceeds(c, referenceStart, fill, AsWritten);
    AllMatchSucceeds(c, referenceStart, fill, Corrected);
    CorrectedPairsClosedForm(c, referenceStart, fill);
    PairsClosedForm(c, referenceStart, fill);
    ExpectedParts(c, referenceStart, fill, -1);
    assert ClipPairs(0, 0, fill) == [] && ClipPairs(TotalLength(c), 0, fill) == [];
    var e := ExpectedPairs(c, referenceStart, fill, -1);
    assert e == [] + AlignedPairs(c, |c|, 0, referenceStart, -1) + [];
    assert e == Diagonal(TotalLength(c), referenceStart);
    assert Pairs(c, referenceStart, fill) == Ok(e);
  }

  /** Zip of two lists, given pair by pair. */
  lemma ZipIs(q: seq<int>, r: seq<Entry>, z: seq<Pair>)
    requires |z| == Shorter(|q|, |r|)
    requires forall i | 0 <= i < |z| :: z[i] == (q[i], r[i])
    ensures Zip(q, r) == z
  {
  }

  /** One op of a walk, given the reference start it sees and what it appends. */
  lemma WalkStepTo(d: CigarTuples, i: nat, init: Lists, referenceStart: int, v: Variant, st: Lists, rstart: int, q: seq<int>, r: seq<Entry>, st': Lists)
    requires i < |d| && Walk(d, i, init, referenceStart, v) == Ok(st)
    requires RefStartOf(st, d, i, referenceStart, v) == rstart
    requires ConsumesQuery(d[i].0) || st.query != []
    requires q == if ConsumesQuery(d[i].0) then Range(QStart(st) + 1, d[i].1) else Repeat(QStart(st), d[i].1)
    requires r == if ConsumesReference(d[i].0) then Coordinates(rstart + 1, d[i].1) else Repeat(Some(rstart), d[i].1)
    requires st' == Lists(st.query + q, st.reference + r)
    ensures Walk(d, i + 1, init, referenceStart, v) == Ok(st')
  {
    WalkNext(d, i, init, referenceStart, v, st);
    ExtendIs(st, d[i].0, d[i].1, rstart, q, r);
  }

  /** A single match at reference start 0 and at 5. */
  lemma PairsExampleMatch(c: CigarTuples)
    requires c == [(M, 5)]
    ensures Pairs(c, 0, None) == Ok([(0, Some(0)), (1, Some(1)), (2, Some(2)), (3, Some(3)), (4, Some(4))])
    ensures Pairs(c, 5, None) == Ok([(0, Some(5)), (1, Some(6)), (2, Some(7)), (3, Some(8)), (4, Some(9))])
  {
    PairsAllMatch(c, 0, None);
    PairsAllMatch(c, 5, None);
    assert c[1..] == [];
    assert SumWhere(c[1..], AnyOp) == 0;
    assert TotalLength(c) == 5;
    DiagonalIs(5, 0, [(0, Some(0)), (1, Some(1)), (2, Some(2)), (3, Some(3)), (4, Some(4))]);
    DiagonalIs(5, 5, [(0, Some(5)), (1, Some(6)), (2, Some(7)), (3, Some(8)), (4, Some(9))]);
  }

  /** An insertion pairs its query positions with the last reference position. */
  lemma PairsExampleInsertion(c: CigarTuples)
    requires c == [(M, 2), (I, 2), (M, 3)]
    ensures Pairs(c, 5, None) == Ok([(0, Some(5)), (1, Some(6)), (2, Some(6)), (3, Some(6)), (4, Some(7)), (5, Some(8)), (6, Some(9))])
  {
    assert Declip(c) == c;
    assert LeftStart(0, None, AsWritten) == Lists([], []);
    var s3 := Lists([0, 1, 2, 3, 4, 5, 6], [Some(5), Some(6), Some(6), Some(6), Some(7), Some(8), Some(9)]);
    InsertionWalk(c, Lists([], []), s3);
    BuildAfterWalk(c, 5, None, AsWritten, s3);
    ZipIs(s3.query, s3.reference, [(0, Some(5)), (1, Some(6)), (2, Some(6)), (3, Some(6)), (4, Some(7)), (5, Some(8)), (6, Some(9))]);
  }

  /** The walk behind the insertion example: its last op. */
  lemma InsertionWalk(c: CigarTuples, init: Lists, s3: Lists)
    requires c == [(M, 2), (I, 2), (M, 3)] && init == Lists([], [])
    requires s3 == Lists([0, 1, 2, 3, 4, 5, 6], [Some(5), Some(6), Some(6), Some(6), Some(7), Some(8), Some(9)])
    ensures Walk(c, 3, init, 5, AsWritten) == Ok(s3)
  {
    var s2 := Lists([0, 1, 2, 3], [Some(5), Some(6), Some(6), Some(6)]);
    InsertionWalkStart(c, init, s2);
    ConsumptionByKind(M);
    assert Range(4, 3) == [4, 5, 6] && Coordinates(7, 3) == [Some(7), Some(8), Some(9)];
    WalkStepTo(c, 2, init, 5, AsWritten, s2, 6, [4, 5, 6], [Some(7), Some(8), Some(9)], s3);
  }

  /** The walk behind the insertion example: its first two ops. */
  lemma InsertionWalkStart(c: CigarTuples, init: Lists, s2: Lists)
    requires c == [(M, 2), (I, 2), (M, 3)] && init == Lists([], [])
    requires s2 == Lists([0, 1, 2, 3], [Some(5), Some(6), Some(6), Some(6)])
    ensures Walk(c, 2, init, 5, AsWritten) == Ok(s2)
  {
    ConsumptionByKind(M);
    ConsumptionByKind(I);
    var s1 := Lists([0, 1], [Some(5), Some(6)]);
    assert Range(0, 2) == [0, 1] && Coordinates(5, 2) == [Some(5), Some(6)];
    WalkStepTo(c, 0, init, 5, AsWritten, init, 4, [0, 1], [Some(5), Some(6)], s1);
    assert Range(2, 2) == [2, 3] && Repeat(Some(6), 2) == [Some(6), Some(6)];
    WalkStepTo(c, 1, init, 5, AsWritten, s1, 6, [2, 3], [Some(6), Some(6)], s2);
  }

  /** A deletion pairs its reference positions with the last query position. */
  lemma PairsExampleDeletion(c: CigarTuples)
    requires c == [(M, 2), (D, 2), (M, 3)]
    ensures Pairs(c, 1, None) == Ok([(0, Some(1)), (1, Some(2)), (1, Some(3)), (1, Some(4)), (2, Some(5)), (3, Some(6)), (4, Some(7))])
  {
    assert Declip(c) == c;
    assert LeftStart(0, None, AsWritten) == Lists([], []);
    var s3 := Lists([0, 1, 1, 1, 2, 3, 4], [Some(1), Some(2), Some(3), Some(4), Some(5), Some(6), Some(7)]);
    DeletionWalk(c, Lists([], []), s3);
    BuildAfterWalk(c, 1, None, AsWritten, s3);
    ZipIs(s3.query, s3.reference, [(0, Some(1)), (1, Some(2)), (1, Some(3)), (1, Some(4)), (2, Some(5)), (3, Some(6)), (4, Some(7))]);
  }

  /** The walk behind the deletion example: its last op. */
  lemma DeletionWalk(c: CigarTuples, init: Lists, s3: Lists)
    requires c == [(M, 2), (D, 2), (M, 3)] && init == Lists([], [])
    requires s3 == Lists([0, 1, 1, 1, 2, 3, 4], [Some(1), Some(2), Some(3), Some(4), Some(5), Some(6), Some(7)])
    ensures Walk(c, 3, init, 1, AsWritten) == Ok(s3)
  {
    var s2 := Lists([0, 1, 1, 1], [Some(1), Some(2), Some(3), Some(4)]);
    DeletionWalkStart(c, init, s2);
    ConsumptionByKind(M);
    assert Range(2, 3) == [2, 3, 4] && Coordinates(5, 3) == [Some(5), Some(6), Some(7)];
    WalkStepTo(c, 2, init, 1, AsWritten, s2, 4, [2, 3, 4], [Some(5), Some(6), Some(7)], s3);
  }

  /** The walk behind the deletion example: its first two ops. */
  lemma DeletionWalkStart(c: CigarTuples, init: Lists, s2: Lists)
    requires c == [(M, 2), (D, 2), (M, 3)] && init == Lists([], [])
    requires s2 == Lists([0, 1, 1, 1], [Some(1), Some(2), Some(3), Some(4)])
    ensures Walk(c, 2, init, 1, AsWritten) == Ok(s2)
  {
    ConsumptionByKind(M);
    ConsumptionByKind(D);
    var s1 := Lists([0, 1], [Some(1), Some(2)]);
    assert Range(0, 2) == [0, 1] && Coordinates(1, 2) == [Some(1), Some(2)];
    WalkStepTo(c, 0, init, 1, AsWritten, init, 0, [0, 1], [Some(1), Some(2)], s1);
    assert Repeat(1, 2) == [1, 1] && Coordinates(3, 2) == [Some(3), Some(4)];
    WalkStepTo(c, 1, init, 1, AsWritten, s1, 2, [1, 1], [Some(3), Some(4)], s2);
  }

  /** Soft and hard clips take query positions and the fill. */
  lemma PairsExampleClipped(c: CigarTuples)
    requires c == [(S, 2), (M, 5), (H, 3)]
    ensures Pairs(c, 5, None) == Ok([(0, None), (1, None), (2, Some(5)), (3, Some(6)), (4, Some(7)), (5, Some(8)), (6, Some(9)), (7, None), (8, None), (9, None)])
  {
    var d := [(M, 5)];
    assert Declip(c) == d;
    var init := LeftStart(2, None, AsWritten);
    assert Range(0, 3) == [0, 1, 2] && Repeat<Entry>(None, 2) == [None, None];
    assert init == Lists([0, 1, 2], [None, None]);
    var s1 := Lists([0, 1, 2, 3, 4, 5, 6, 7], [None, None, Some(5), Some(6), Some(7), Some(8), Some(9)]);
    ClippedWalk(d, init, s1);
    var fin := Lists([0, 1, 2, 3, 4, 5, 6, 7, 8, 9, 10], [None, None, Some(5), Some(6), Some(7), Some(8), Some(9), None, None, None]);
    ClippedEnd(s1, fin);
    BuildAfterWalk(c, 5, None, AsWritten, s1);
    ZipIs(fin.query, fin.reference, [(0, None), (1, None), (2, Some(5)), (3, Some(6)), (4, Some(7)), (5, Some(8)), (6, Some(9)), (7, None), (8, None), (9, None)]);
  }

  /** The walk behind the clipped example. */
  lemma ClippedWalk(d: CigarTuples, init: Lists, s1: Lists)
    requires d == [(M, 5)] && init == Lists([0, 1, 2], [None, None])
    requires s1 == Lists([0, 1, 2, 3, 4, 5, 6, 7], [None, None, Some(5), Some(6), Some(7), Some(8), Some(9)])
    ensures Walk(d, 1, init, 5, AsWritten) == Ok(s1)
  {
    ConsumptionByKind(M);
    assert Range(3, 5) == [3, 4, 5, 6, 7] && Coordinates(5, 5) == [Some(5), Some(6), Some(7), Some(8), Some(9)];
    WalkStepTo(d, 0, init, 5, AsWritten, init, 4, [3, 4, 5, 6, 7], [Some(5), Some(6), Some(7), Some(8), Some(9)], s1);
  }

  /** The right clip behind the clipped example. */
  lemma ClippedEnd(s1: Lists, fin: Lists)
    requires s1 == Lists([0, 1, 2, 3, 4, 5, 6, 7], [None, None, Some(5), Some(6), Some(7), Some(8), Some(9)])
    requires fin == Lists([0, 1, 2, 3, 4, 5, 6, 7, 8, 9, 10], [None, None, Some(5), Some(6), Some(7), Some(8), Some(9), None, None, None])
    ensures RightEnd(s1, 3, None) == Ok(fin)
  {
    assert Range(8, 3) == [8, 9, 10] && Repeat<Entry>(None, 3) == [None, None, None];
    assert QStart(s1) == 7;
    assert s1.query + [8, 9, 10] == fin.query && s1.reference + [None, None, None] == fin.reference;
  }

  /** As written, a run ending on reference position 0 leaves a falsy last
      entry, so the next op restarts from reference start - 1. */
  lemma PairsFalsyRestart(c: CigarTuples)
    requires c == [(M, 1), (I, 1), (M, 1)]
    ensures Pairs(c, 0, None) == Ok([(0, Some(0)), (1, Some(-1)), (2, Some(0))])
  {
    assert Declip(c) == c;
    assert LeftStart(0, None, AsWritten) == Lists([], []);
    var s3 := Lists([0, 1, 2], [Some(0), Some(-1), Some(0)]);
    FalsyRestartWalk(c, Lists([], []), s3);
    BuildAfterWalk(c, 0, None, AsWritten, s3);
    ZipIs(s3.query, s3.reference, [(0, Some(0)), (1, Some(-1)), (2, Some(0))]);
  }

  /** The walk behind the falsy restart example: its last op. */
  lemma FalsyRestartWalk(c: CigarTuples, init: Lists, s3: Lists)
    requires c == [(M, 1), (I, 1), (M, 1)] && init == Lists([], [])
    requires s3 == Lists([0, 1, 2], [Some(0), Some(-1), Some(0)])
    ensures Walk(c, 3, init, 0, AsWritten) == Ok(s3)
  {
    var s2 := Lists([0, 1], [Some(0), Some(-1)]);
    FalsyRestartWalkStart(c, init, s2);
    ConsumptionByKind(M);
    assert Range(2, 1) == [2];
    WalkStepTo(c, 2, init, 0, AsWritten, s2, -1, [2], [Some(0)], s3);
  }

  /** The walk behind the falsy restart example: its first two ops. */
  lemma FalsyRestartWalkStart(c: CigarTuples, init: Lists, s2: Lists)
    requires c == [(M, 1), (I, 1), (M, 1)] && init == Lists([], [])
    requires s2 == Lists([0, 1], [Some(0), Some(-1)])
    ensures Walk(c, 2, init, 0, AsWritten) == Ok(s2)
  {
    ConsumptionByKind(M);
    ConsumptionByKind(I);
    var s1 := Lists([0], [Some(0)]);
    assert Range(0, 1) == [0] && Coordinates(0, 1) == [Some(0)];
    WalkStepTo(c, 0, init, 0, AsWritten, init, -1, [0], [Some(0)], s1);
    assert Range(1, 1) == [1] && Repeat(Some(-1), 1) == [Some(-1)];
    WalkStepTo(c, 1, init, 0, AsWritten, s1, -1, [1], [Some(-1)], s2);
  }

  /** With the counted reference start the insertion sits on position 0
      and the next match on position 1. */
  lemma CorrectedPairsFalsyRestart(c: CigarTuples)
    requires c == [(M, 1), (I, 1), (M, 1)]
    ensures CorrectedPairs(c, 0, None) == Ok([(0, Some(0)), (1, Some(0)), (2, Some(1))])
  {
    assert Declip(c) == c;
    assert LeftStart(0, None, Corrected) == Lists([], []);
    var s3 := Lists([0, 1, 2], [Some(0), Some(0), Some(1)]);
    CorrectedFalsyRestartWalk(c, Lists([], []), s3);
    BuildAfterWalk(c, 0, None, Corrected, s3);
    ZipIs(s3.query, s3.reference, [(0, Some(0)), (1, Some(0)), (2, Some(1))]);
  }

  /** The corrected walk behind the falsy restart example: its last op. */
  lemma CorrectedFalsyRestartWalk(c: CigarTuples, init: Lists, s3: Lists)
    requires c == [(M, 1), (I, 1), (M, 1)] && init == Lists([], [])
    requires s3 == Lists([0, 1, 2], [Some(0), Some(0), Some(1)])
    ensures Walk(c, 3, init, 0, Corrected) == Ok(s3)
  {
    var s2 := Lists([0, 1], [Some(0), Some(0)]);
    CorrectedFalsyRestartWalkStart(c, init, s2);
    ConsumptionByKind(M);
    ConsumptionByKind(I);
    assert c[..0] == [];
    BeforeStep(c, 1);
    BeforeStep(c, 2);
    assert Range(2, 1) == [2] && Coordinates(1, 1) == [Some(1)];
    WalkStepTo(c, 2, init, 0, Corrected, s2, 0, [2], [Some(1)], s3);
  }

  /** The corrected walk behind the falsy restart example: its first two ops. */
  lemma CorrectedFalsyRestartWalkStart(c: CigarTuples, init: Lists, s2: Lists)
    requires c == [(M, 1), (I, 1), (M, 1)] && init == Lists([], [])
    requires s2 == Lists([0, 1], [Some(0), Some(0)])
    ensures Walk(c, 2, init, 0, Corrected) == Ok(s2)
  {
    ConsumptionByKind(M);
    ConsumptionByKind(I);
    assert c[..0] == [];
    BeforeStep(c, 1);
    var s1 := Lists([0], [Some(0)]);
    assert Range(0, 1) == [0] && Coordinates(0, 1) == [Some(0)];
    WalkStepTo(c, 0, init, 0, Corrected, init, -1, [0], [Some(0)], s1);
    assert Range(1, 1) == [1] && Repeat(Some(0), 1) == [Some(0)];
    WalkStepTo(c, 1, init, 0, Corrected, s1, 0, [1], [Some(0)], s2);
  }

  /** As written, a truthy fill after a left clip is taken for the last
      reference position. */
  lemma PairsTruthyFill(c: CigarTuples)
    requires c == [(S, 2), (M, 5)]
    ensures Pairs(c, 5, Some(-1)) == Ok([(0, Some(-1)), (1, Some(-1)), (2, Some(0)), (3, Some(1)), (4, Some(2)), (5, Some(3)), (6, Some(4))])
  {
    var d := [(M, 5)];
    assert Declip(c) == d;
    var init := LeftStart(2, Some(-1), AsWritten);
    assert Range(0, 3) == [0, 1, 2] && Repeat(Some(-1), 2) == [Some(-1), Some(-1)];
    assert init == Lists([0, 1, 2], [Some(-1), Some(-1)]);
    var s1 := Lists([0, 1, 2, 3, 4, 5, 6, 7], [Some(-1), Some(-1), Some(0), Some(1), Some(2), Some(3), Some(4)]);
    TruthyFillWalk(d, init, s1);
    BuildAfterWalk(c, 5, Some(-1), AsWritten, s1);
    ZipIs(s1.query, s1.reference, [(0, Some(-1)), (1, Some(-1)), (2, Some(0)), (3, Some(1)), (4, Some(2)), (5, Some(3)), (6, Some(4))]);
  }

  /** The walk behind the truthy fill example. */
  lemma TruthyFillWalk(d: CigarTuples, init: Lists, s1: Lists)
    requires d == [(M, 5)] && init == Lists([0, 1, 2], [Some(-1), Some(-1)])
    requires s1 == Lists([0, 1, 2, 3, 4, 5, 6, 7], [Some(-1), Some(-1), Some(0), Some(1), Some(2), Some(3), Some(4)])
    ensures Walk(d, 1, init, 5, AsWritten) == Ok(s1)
  {
    ConsumptionByKind(M);
    assert Range(3, 5) == [3, 4, 5, 6, 7] && Coordinates(0, 5) == [Some(0), Some(1), Some(2), Some(3), Some(4)];
    WalkStepTo(d, 0, init, 5, AsWritten, init, -1, [3, 4, 5, 6, 7], [Some(0), Some(1), Some(2), Some(3), Some(4)], s1);
  }

  /** With the counted reference start the fill does not matter. */
  lemma CorrectedPairsTruthyFill(c: CigarTuples)
    requires c == [(S, 2), (M, 5)]
    ensures CorrectedPairs(c, 5, Some(-1)) == Ok([(0, Some(-1)), (1, Some(-1)), (2, Some(5)), (3, Some(6)), (4, Some(7)), (5, Some(8)), (6, Some(9))])
  {
    var d := [(M, 5)];
    assert Declip(c) == d;
    var init := LeftStart(2, Some(-1), Corrected);
    assert Range(0, 2) == [0, 1] && Repeat(Some(-1), 2) == [Some(-1), Some(-1)];
    assert init == Lists([0, 1], [Some(-1), Some(-1)]);
    var s1 := Lists([0, 1, 2, 3, 4, 5, 6], [Some(-1), Some(-1), Some(5), Some(6), Some(7), Some(8), Some(9)]);
    CorrectedTruthyFillWalk(d, init, s1);
    BuildAfterWalk(c, 5, Some(-1), Corrected, s1);
    ZipIs(s1.query, s1.reference, [(0, Some(-1)), (1, Some(-1)), (2, Some(5)), (3, Some(6)), (4, Some(7)), (5, Some(8)), (6, Some(9))]);
  }

  /** The corrected walk behind the truthy fill example. */
  lemma CorrectedTruthyFillWalk(d: CigarTuples, init: Lists, s1: Lists)
    requires d == [(M, 5)] && init == Lists([0, 1], [Some(-1), Some(-1)])
    requires s1 == Lists([0, 1, 2, 3, 4, 5, 6], [Some(-1), Some(-1), Some(5), Some(6), Some(7), Some(8), Some(9)])
    ensures Walk(d, 1, init, 5, Corrected) == Ok(s1)
  {
    ConsumptionByKind(M);
    assert d[..0] == [];
    assert Range(2, 5) == [2, 3, 4, 5, 6] && Coordinates(5, 5) == [Some(5), Some(6), Some(7), Some(8), Some(9)];
    WalkStepTo(d, 0, init, 5, Corrected, init, 4, [2, 3, 4, 5, 6], [Some(5), Some(6), Some(7), Some(8), Some(9)], s1);
  }

  /** As written, after a left clip a deletion column carries the query
      position after the gap rather than the one before it. */
  lemma PairsGapAfterClip(c: CigarTuples)
    requires c == [(S, 1), (M, 1), (D, 1), (M, 1)]
    ensures Pairs(c, 10, None) == Ok([(0, None), (1, Some(10)), (2, Some(11)), (2, Some(12))])
  {
    var d := [(M, 1), (D, 1), (M, 1)];
    assert Declip(c) == d;
    var init := LeftStart(1, None, AsWritten);
    assert Range(0, 2) == [0, 1] && Repeat<Entry>(None, 1) == [None];
    assert init == Lists([0, 1], [None]);
    var s3 := Lists([0, 1, 2, 2, 3], [None, Some(10), Some(11), Some(12)]);
    GapAfterClipWalk(d, init, s3);
    BuildAfterWalk(c, 10, None, AsWritten, s3);
    ZipIs(s3.query, s3.reference, [(0, None), (1, Some(10)), (2, Some(11)), (2, Some(12))]);
  }

  /** The walk behind the gap after clip example: its last op. */
  lemma GapAfterClipWalk(d: CigarTuples, init: Lists, s3: Lists)
    requires d == [(M, 1), (D, 1), (M, 1)] && init == Lists([0, 1], [None])
    requires s3 == Lists([0, 1, 2, 2, 3], [None, Some(10), Some(11), Some(12)])
    ensures Walk(d, 3, init, 10, AsWritten) == Ok(s3)
  {
    var s2 := Lists([0, 1, 2, 2], [None, Some(10), Some(11)]);
    GapAfterClipWalkStart(d, init, s2);
    ConsumptionByKind(M);
    assert Range(3, 1) == [3] && Coordinates(12, 1) == [Some(12)];
    WalkStepTo(d, 2, init, 10, AsWritten, s2, 11, [3], [Some(12)], s3);
  }

  /** The walk behind the gap after clip example: its first two ops. */
  lemma GapAfterClipWalkStart(d: CigarTuples, init: Lists, s2: Lists)
    requires d == [(M, 1), (D, 1), (M, 1)] && init == Lists([0, 1], [None])
    requires s2 == Lists([0, 1, 2, 2], [None, Some(10), Some(11)])
    ensures Walk(d, 2, init, 10, AsWritten) == Ok(s2)
  {
    ConsumptionByKind(M);
    ConsumptionByKind(D);
    var s1 := Lists([0, 1, 2], [None, Some(10)]);
    assert Range(2, 1) == [2] && Coordinates(10, 1) == [Some(10)];
    WalkStepTo(d, 0, init, 10, AsWritten, init, 9, [2], [Some(10)], s1);
    assert Repeat(2, 1) == [2] && Coordinates(11, 1) == [Some(11)];
    WalkStepTo(d, 1, init, 10, AsWritten, s1, 10, [2], [Some(11)], s2);
  }

  /** With range(left_clip) the deletion column carries the query position
      before the gap, as it does without a clip. */
  lemma CorrectedPairsGapAfterClip(c: CigarTuples)
    requires c == [(S, 1), (M, 1), (D, 1), (M, 1)]
    ensures CorrectedPairs(c, 10, None) == Ok([(0, None), (1, Some(10)), (1, Some(11)), (2, Some(12))])
  {
    var d := [(M, 1), (D, 1), (M, 1)];
    assert Declip(c) == d;
    var init := LeftStart(1, None, Corrected);
    assert Range(0, 1) == [0] && Repeat<Entry>(None, 1) == [None];
    assert init == Lists([0], [None]);
    var s3 := Lists([0, 1, 1, 2], [None, Some(10), Some(11), Some(12)]);
    CorrectedGapAfterClipWalk(d, init, s3);
    BuildAfterWalk(c, 10, None, Corrected, s3);
    ZipIs(s3.query, s3.reference, [(0, None), (1, Some(10)), (1, Some(11)), (2, Some(12))]);
  }

  /** The corrected walk behind the gap after clip example: its last op. */
  lemma CorrectedGapAfterClipWalk(d: CigarTuples, init: Lists, s3: Lists)
    requires d == [(M, 1), (D, 1), (M, 1)] && init == Lists([0], [None])
    requires s3 == Lists([0, 1, 1, 2], [None, Some(10), Some(11), Some(12)])
    ensures Walk(d, 3, init, 10, Corrected) == Ok(s3)
  {
    var s2 := Lists([0, 1, 1], [None, Some(10), Some(11)]);
    CorrectedGapAfterClipWalkStart(d, init, s2);
    ConsumptionByKind(M);
    ConsumptionByKind(D);
    assert d[..0] == [];
    BeforeStep(d, 1);
    BeforeStep(d, 2);
    assert Range(2, 1) == [2] && Coordinates(12, 1) == [Some(12)];
    WalkStepTo(d, 2, init, 10, Corrected, s2, 11, [2], [Some(12)], s3);
  }

  /** The corrected walk behind the gap after clip example: its first two ops. */
  lemma CorrectedGapAfterClipWalkStart(d: CigarTuples, init: Lists, s2: Lists)
    requires d == [(M, 1), (D, 1), (M, 1)] && init == Lists([0], [None])
    requires s2 == Lists([0, 1, 1], [None, Some(10), Some(11)])
    ensures Walk(d, 2, init, 10, Corrected) == Ok(s2)
  {
    ConsumptionByKind(M);
    ConsumptionByKind(D);
    assert d[..0] == [];
    BeforeStep(d, 1);
    var s1 := Lists([0, 1], [None, Some(10)]);
    assert Range(1, 1) == [1] && Coordinates(10, 1) == [Some(10)];
    WalkStepTo(d, 0, init, 10, Corrected, init, 9, [1], [Some(10)], s1);
    assert Repeat(1, 1) == [1] && Coordinates(11, 1) == [Some(11)];
    WalkStepTo(d, 1, init, 10, Corrected, s1, 10, [1], [Some(11)], s2);
  }
}
