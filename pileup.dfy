/**
  Per-position base counts of one alignment added onto earlier counts (pileup.py).

  A pileup maps each reference position to a counter from characters to counts:
  the base the query shows there, `'-'` for a deletion or a skipped region, or
  `'.'` when no query sequence is given or it is too short.
 */
module Pileup {
  import opened Wrappers
  import opened Defn
  import opened Block
  import opened Inference

  /** A `Counter`: character to count; a missing character counts 0. */
  type Counter = map<char, nat>

  /** The `Dict[int, Counter]` that `depth` returns. */
  type Counts = map<int, Counter>

  /** One count added by the walk: a reference position and the character recorded there. */
  type Event = (int, char)

  /** The counter at a position; a missing position reads as an empty counter, as a defaultdict does. */
  function Row(counts: Counts, pos: int): Counter {
    if pos in counts then counts[pos] else map[]
  }

  /** `counts[pos][ch]`, zero when absent. */
  function Count(counts: Counts, pos: int, ch: char): nat {
    if ch in Row(counts, pos) then Row(counts, pos)[ch] else 0
  }

  /** `counter[ch] += 1`. */
  function Increment(counter: Counter, ch: char): Counter {
    counter[ch := (if ch in counter then counter[ch] else 0) + 1]
  }

  /** `counts[pos][ch] += 1`, creating the counter at `pos` on first use. */
  function Bump(counts: Counts, pos: int, ch: char): Counts {
    counts[pos := Increment(Row(counts, pos), ch)]
  }

  /** Adding a run of events to the counts, one `+= 1` after another. */
  function Tally(counts: Counts, events: seq<Event>): Counts
    decreases |events|
  {
    if events == [] then counts else Tally(Bump(counts, events[0].0, events[0].1), events[1..])
  }

  /** The counts `depth` starts from: a copy of `previous_count`, or nothing. */
  function Previous(previousCount: Option<Counts>): Counts {
    match previousCount
    case None => map[]
    case Some(m) => m
  }

  /** The base shown at query position `q`, or `'.'` without a sequence or past its end. */
  function BaseAt(querySequence: Option<string>, q: nat): char {
    if querySequence.Some? && q < |querySequence.value| then querySequence.value[q] else '.'
  }

  /** How the walk treats an op: each reference unit records `'-'` (D, N) or a base
      (the other reference-consuming ops, moving along the query when they consume it),
      the query-only ops move along the query, and the rest are passed over. */
  datatype Kind = Gap | Aligned(consumesQuery: bool) | QueryOnly | Neither

  /** The branch of depth's loop that `op` takes (KindIsBranch states the three tests). */
  function KindOf(op: Op): Kind {
    match op
    case D | N => Gap
    case M | Eq | X => Aligned(true)
    case I | S => QueryOnly
    case H | P | B | T => Neither
  }

  /** KindOf is the outcome of the loop's tests: `op in CONSUMES_REFERENCE`, then
      `op == BAM_CDEL or op == BAM_CREF_SKIP` and `op in CONSUMES_QUERY`, else
      `op in CONSUMES_QUERY`. */
  lemma KindIsBranch(op: Op)
    ensures KindOf(op) ==
      if ConsumesReference(op) then
        (if op == D || op == N then Gap else Aligned(ConsumesQuery(op)))
      else if ConsumesQuery(op) then QueryOnly
      else Neither
  {
    ConsumptionByKind(op);
  }

  /** The character one reference unit of kind `k` records. */
  function UnitBase(k: Kind, q: nat, querySequence: Option<string>): char {
    if k.Gap? then '-' else BaseAt(querySequence, q)
  }

  /** The events `length` units of kind `k` record from reference position `r` and query
      position `q`, one reference unit after another as the inner loop does. */
  function RunEvents(k: Kind, length: nat, r: int, q: nat, querySequence: Option<string>): seq<Event>
    decreases length
  {
    if !(k.Gap? || k.Aligned?) || length == 0 then []
    else
      [(r, UnitBase(k, q, querySequence))]
      + RunEvents(k, length - 1, r + 1, q + (if k.Aligned? && k.consumesQuery then 1 else 0), querySequence)
  }

  /** How far `length` units of kind `k` move the query position. */
  function QueryAdvance(k: Kind, length: nat): nat {
    if (k.Aligned? && k.consumesQuery) || k.QueryOnly? then length else 0
  }

  /** How far `length` units of kind `k` move the reference position. */
  function ReferenceAdvance(k: Kind, length: nat): nat {
    if k.Gap? || k.Aligned? then length else 0
  }

  /** Every event the walk over `c` records, in order. */
  function Events(c: CigarTuples, r: int, q: nat, querySequence: Option<string>): seq<Event>
    decreases |c|
  {
    if c == [] then []
    else
      var k := KindOf(c[0].0);
      RunEvents(k, c[0].1, r, q, querySequence)
      + Events(c[1..], r + ReferenceAdvance(k, c[0].1), q + QueryAdvance(k, c[0].1), querySequence)
  }

  /** The counts `depth` returns. */
  function DepthOf(c: CigarTuples, referenceStart: int, querySequence: Option<string>,
                   previousCount: Option<Counts>): Counts
  {
    Tally(Previous(previousCount), Events(c, referenceStart, 0, querySequence))
  }

  /** depth: walk the CIGAR, adding one count per reference unit to a copy of the previous counts. */
  method Depth(c: CigarTuples, referenceStart: int, querySequence: Option<string>,
               previousCount: Option<Counts>) returns (counts: Counts)
    ensures counts == DepthOf(c, referenceStart, querySequence, previousCount)
  {
    counts := map[];
    if previousCount.Some? {
      counts := previousCount.value;
    }
    var refPos := referenceStart;
    var queryPos: nat := 0;
    ghost var goal := DepthOf(c, referenceStart, querySequence, previousCount);
    for j := 0 to |c|
      invariant goal == Tally(counts, Events(c[j..], refPos, queryPos, querySequence))
    {
      var (op, length) := c[j];
      ghost var counts0, r0, q0 := counts, refPos, queryPos;
      KindIsBranch(op);
      if ConsumesReference(op) {
        counts, refPos, queryPos := CountReferenceRun(counts, op, length, refPos, queryPos, querySequence);
      } else if ConsumesQuery(op) {
        queryPos := queryPos + length;
      }
      ConsumeEntry(c, j, KindOf(op), counts0, counts, r0, q0, refPos, queryPos, querySequence);
    }
    assert c[|c|..] == [];
  }

  /** What one pass of depth's outer loop achieves: having added the entry's events, the
      rest of the walk starts from the positions after the entry. */
  lemma ConsumeEntry(c: CigarTuples, j: nat, k: Kind, counts0: Counts, counts: Counts,
                     r0: int, q0: nat, r: int, q: nat, querySequence: Option<string>)
    requires j < |c| && k == KindOf(c[j].0)
    requires counts == Tally(counts0, RunEvents(k, c[j].1, r0, q0, querySequence))
    requires r == r0 + ReferenceAdvance(k, c[j].1) && q == q0 + QueryAdvance(k, c[j].1)
    ensures Tally(counts0, Events(c[j..], r0, q0, querySequence)) ==
      Tally(counts, Events(c[j + 1..], r, q, querySequence))
  {
    EventsStep(c, j, r0, q0, querySequence);
    TallyAppend(counts0, RunEvents(k, c[j].1, r0, q0, querySequence), Events(c[j + 1..], r, q, querySequence));
  }

  /** The inner loop of depth over one reference-consuming entry of kind `k`: a count per
      unit, the reference position moving along, the query position too for M, = and X. */
  method CountReferenceRun(counts: Counts, op: Op, length: nat, refPos: int, queryPos: nat,
                           querySequence: Option<string>)
    returns (counts': Counts, refPos': int, queryPos': nat)
    requires ConsumesReference(op)
    ensures counts' == Tally(counts, RunEvents(KindOf(op), length, refPos, queryPos, querySequence))
    ensures refPos' == refPos + ReferenceAdvance(KindOf(op), length)
    ensures queryPos' == queryPos + QueryAdvance(KindOf(op), length)
  {
    ghost var k := KindOf(op);
    KindIsBranch(op);
    counts', refPos', queryPos' := counts, refPos, queryPos;
    ghost var goal := Tally(counts, RunEvents(k, length, refPos, queryPos, querySequence));
    for i := 0 to length
      invariant refPos' == refPos + i
      invariant queryPos' == queryPos + (if k.Aligned? && k.consumesQuery then i else 0)
      invariant goal == Tally(counts', RunEvents(k, length - i, refPos', queryPos', querySequence))
    {
      ghost var before, r, q := counts', refPos', queryPos';
      var base: char;
      if op == D || op == N {
        base := '-';
        counts' := Bump(counts', refPos', base);
      } else {
        base := '.';
        if querySequence.Some? && queryPos' < |querySequence.value| {
          base := querySequence.value[queryPos'];
        }
        counts' := Bump(counts', refPos', base);
        if ConsumesQuery(op) {
          queryPos' := queryPos' + 1;
        }
      }
      refPos' := refPos' + 1;
      CountUnit(before, k, length - i, r, q, base, querySequence, counts', refPos', queryPos');
    }
  }

  /** One step of the inner loop: the unit's event, then the rest of the run. */
  lemma CountUnit(counts: Counts, k: Kind, n: nat, r: int, q: nat, base: char, querySequence: Option<string>,
                  counts': Counts, r': int, q': nat)
    requires (k.Gap? || k.Aligned?) && n > 0 && base == UnitBase(k, q, querySequence)
    requires counts' == Bump(counts, r, base) && r' == r + 1
    requires q' == q + (if k.Aligned? && k.consumesQuery then 1 else 0)
    ensures Tally(counts, RunEvents(k, n, r, q, querySequence)) == Tally(counts', RunEvents(k, n - 1, r', q', querySequence))
  {
    TallyCons(counts, (r, base), RunEvents(k, n - 1, r', q', querySequence));
  }

  /** One step of the walk: the entry's own events, then the rest of the walk. */
  lemma EventsStep(c: CigarTuples, j: nat, r: int, q: nat, querySequence: Option<string>)
    requires j < |c|
    ensures var k := KindOf(c[j].0);
      Events(c[j..], r, q, querySequence) ==
      RunEvents(k, c[j].1, r, q, querySequence)
      + Events(c[j + 1..], r + ReferenceAdvance(k, c[j].1), q + QueryAdvance(k, c[j].1), querySequence)
  {
    assert c[j..][0] == c[j];
    assert c[j..][1..] == c[j + 1..];
  }

  /** The walk over a non-empty CIGAR: the first entry's events, then the rest of the walk. */
  lemma EventsCons(c: CigarTuples, r: int, q: nat, querySequence: Option<string>)
    requires c != []
    ensures Events(c, r, q, querySequence) ==
      RunEvents(KindOf(c[0].0), c[0].1, r, q, querySequence)
      + Events(c[1..], r + ReferenceAdvance(KindOf(c[0].0), c[0].1), q + QueryAdvance(KindOf(c[0].0), c[0].1), querySequence)
  {
  }

  /** Tallying an event and then the rest. */
  lemma TallyCons(counts: Counts, e: Event, rest: seq<Event>)
    ensures Tally(counts, [e] + rest) == Tally(Bump(counts, e.0, e.1), rest)
  {
    assert ([e] + rest)[0] == e;
    assert ([e] + rest)[1..] == rest;
  }

  // ---------------------------------------------------------------------------
  // The fold of counts

  /** Tallying two runs of events is tallying one after the other. */
  lemma {:induction false} TallyAppend(counts: Counts, a: seq<Event>, b: seq<Event>)
    ensures Tally(counts, a + b) == Tally(Tally(counts, a), b)
    decreases |a|
  {
    if a == [] {
      assert a + b == b;
    } else {
      assert (a + b)[0] == a[0];
      assert (a + b)[1..] == a[1..] + b;
      TallyAppend(Bump(counts, a[0].0, a[0].1), a[1..], b);
    }
  }

  /** How many of the events record `ch` at `pos`. */
  function Occurrences(events: seq<Event>, pos: int, ch: char): nat
    decreases |events|
  {
    if events == [] then 0
    else (if events[0] == (pos, ch) then 1 else 0) + Occurrences(events[1..], pos, ch)
  }

  /** Whether some event records something at `pos`. */
  predicate Touches(events: seq<Event>, pos: int)
    decreases |events|
  {
    events != [] && (events[0].0 == pos || Touches(events[1..], pos))
  }

  /** A tally adds exactly the number of matching events to a count, and a character
      is in a counter afterwards exactly when it was before or an event records it. */
  lemma {:induction false} TallyCounts(counts: Counts, events: seq<Event>, pos: int, ch: char)
    ensures Count(Tally(counts, events), pos, ch) == Count(counts, pos, ch) + Occurrences(events, pos, ch)
    ensures ch in Row(Tally(counts, events), pos) <==> ch in Row(counts, pos) || Occurrences(events, pos, ch) > 0
    decreases |events|
  {
    if events != [] {
      TallyCounts(Bump(counts, events[0].0, events[0].1), events[1..], pos, ch);
    }
  }

  /** A tally creates a counter exactly at the positions its events touch, and leaves the
      counters elsewhere as they were. */
  lemma {:induction false} TallyPositions(counts: Counts, events: seq<Event>, pos: int)
    ensures pos in Tally(counts, events) <==> pos in counts || Touches(events, pos)
    ensures !Touches(events, pos) ==> Row(Tally(counts, events), pos) == Row(counts, pos)
    decreases |events|
  {
    if events != [] {
      TallyPositions(Bump(counts, events[0].0, events[0].1), events[1..], pos);
    }
  }

  /** A position recorded by exactly one event, of `ch`, ends up with its counter
      incremented at `ch` and nothing else changed in it. */
  lemma TallyOnce(counts: Counts, events: seq<Event>, pos: int, ch: char)
    requires forall x :: Occurrences(events, pos, x) == (if x == ch then 1 else 0)
    ensures pos in Tally(counts, events)
    ensures Tally(counts, events)[pos] == Increment(Row(counts, pos), ch)
  {
    var result := Tally(counts, events);
    TallyCounts(counts, events, pos, ch);
    assert ch in Row(result, pos);
    var expected := Increment(Row(counts, pos), ch);
    forall x ensures (x in result[pos] <==> x in expected) && (x in expected ==> result[pos][x] == expected[x]) {
      TallyCounts(counts, events, pos, x);
      assert x in expected ==> Count(result, pos, x) == result[pos][x];
    }
  }

  // ---------------------------------------------------------------------------
  // The events of a walk

  /** The branch each op takes, by kind: D and N record gaps; M, = and X record bases
      and move along the query; I and S only move along the query; H, P, B and T are
      passed over. No op records bases without moving along the query. */
  lemma KindByOp(op: Op)
    ensures KindOf(op) == Gap <==> op in {D, N}
    ensures KindOf(op) == Aligned(true) <==> op in {M, Eq, X}
    ensures KindOf(op) == QueryOnly <==> op in {I, S}
    ensures KindOf(op) == Neither <==> op in {H, P, B, T}
    ensures KindOf(op) != Aligned(false)
  {
    ConsumptionByKind(op);
  }

  /** The movements of an entry: on the reference by its length exactly when the op
      consumes the reference, on the query by its length exactly when it consumes
      the query (so one position per M, =, X unit and the whole length for I and S,
      nothing for H, D, N and P). */
  lemma AdvanceByKind(op: Op, length: nat)
    ensures QueryAdvance(KindOf(op), length) == (if ConsumesQuery(op) then length else 0)
    ensures QueryAdvance(KindOf(op), length) == (if op in {M, I, S, Eq, X} then length else 0)
    ensures ReferenceAdvance(KindOf(op), length) == (if ConsumesReference(op) then length else 0)
  {
    ConsumptionByKind(op);
  }

  /** The offsets of a non-empty CIGAR: the first entry's advance plus the rest's. */
  lemma OffsetsCons(c: CigarTuples)
    requires c != []
    ensures ReferenceOffset(c) == ReferenceAdvance(KindOf(c[0].0), c[0].1) + ReferenceOffset(c[1..])
    ensures InferredQuerySequenceLength(c) == QueryAdvance(KindOf(c[0].0), c[0].1) + InferredQuerySequenceLength(c[1..])
  {
    AdvanceByKind(c[0].0, c[0].1);
  }

  /** The events of one reference-consuming run: one per unit, at consecutive reference
      positions, each recording '-' for a gap or the base at the unit's query position. */
  lemma {:induction false} RunEventsAt(k: Kind, length: nat, r: int, q: nat, querySequence: Option<string>)
    ensures |RunEvents(k, length, r, q, querySequence)| == ReferenceAdvance(k, length)
    ensures forall i :: 0 <= i < |RunEvents(k, length, r, q, querySequence)| ==>
      RunEvents(k, length, r, q, querySequence)[i] ==
        (r + i, UnitBase(k, q + (if k.Aligned? && k.consumesQuery then i else 0), querySequence))
    decreases length
  {
    if (k.Gap? || k.Aligned?) && length > 0 {
      var step := if k.Aligned? && k.consumesQuery then 1 else 0;
      RunEventsAt(k, length - 1, r + 1, q + step, querySequence);
      var rest := RunEvents(k, length - 1, r + 1, q + step, querySequence);
      forall i | 1 <= i < length
        ensures RunEvents(k, length, r, q, querySequence)[i] ==
          (r + i, UnitBase(k, q + (if k.Aligned? && k.consumesQuery then i else 0), querySequence))
      {
        assert RunEvents(k, length, r, q, querySequence)[i] == rest[i - 1];
      }
    }
  }

  /** The walk records one event per reference position covered, at consecutive positions. */
  lemma {:induction false} EventsPositions(c: CigarTuples, r: int, q: nat, querySequence: Option<string>)
    ensures |Events(c, r, q, querySequence)| == ReferenceOffset(c)
    ensures forall i :: 0 <= i < |Events(c, r, q, querySequence)| ==> Events(c, r, q, querySequence)[i].0 == r + i
    decreases |c|
  {
    if c != [] {
      var k := KindOf(c[0].0);
      var r1, q1 := r + ReferenceAdvance(k, c[0].1), q + QueryAdvance(k, c[0].1);
      var run := RunEvents(k, c[0].1, r, q, querySequence);
      EventsPositions(c[1..], r1, q1, querySequence);
      RunEventsAt(k, c[0].1, r, q, querySequence);
      OffsetsCons(c);
      EventsCons(c, r, q, querySequence);
      var rest := Events(c[1..], r1, q1, querySequence);
      var all := run + rest;
      forall i: int | |run| <= i < |all| ensures all[i].0 == r + i {
        assert all[i] == rest[i - |run|];
      }
    }
  }

  /** The walk over two CIGARs one after the other: the second starts where the first
      ends on the reference, and after its inferred query length on the query. */
  lemma {:induction false} EventsConcat(a: CigarTuples, b: CigarTuples, r: int, q: nat, querySequence: Option<string>)
    ensures Events(a + b, r, q, querySequence) ==
      Events(a, r, q, querySequence)
      + Events(b, r + ReferenceOffset(a), q + InferredQuerySequenceLength(a), querySequence)
    decreases |a|
  {
    if a == [] {
      assert a + b == b;
    } else {
      var k := KindOf(a[0].0);
      var r1, q1 := r + ReferenceAdvance(k, a[0].1), q + QueryAdvance(k, a[0].1);
      EventsConcat(a[1..], b, r1, q1, querySequence);
      EventsConcatStep(a, b, r, q, querySequence, r1, q1);
    }
  }

  /** The inductive step of EventsConcat: the claim for the tail of `a`, past its first
      entry, gives the claim for `a`. */
  lemma EventsConcatStep(a: CigarTuples, b: CigarTuples, r: int, q: nat, querySequence: Option<string>, r1: int, q1: nat)
    requires a != []
    requires r1 == r + ReferenceAdvance(KindOf(a[0].0), a[0].1) && q1 == q + QueryAdvance(KindOf(a[0].0), a[0].1)
    requires Events(a[1..] + b, r1, q1, querySequence) ==
      Events(a[1..], r1, q1, querySequence)
      + Events(b, r1 + ReferenceOffset(a[1..]), q1 + InferredQuerySequenceLength(a[1..]), querySequence)
    ensures Events(a + b, r, q, querySequence) ==
      Events(a, r, q, querySequence)
      + Events(b, r + ReferenceOffset(a), q + InferredQuerySequenceLength(a), querySequence)
  {
    OffsetsCons(a);
    var run := RunEvents(KindOf(a[0].0), a[0].1, r, q, querySequence);
    var x := Events(a[1..], r1, q1, querySequence);
    var y := Events(b, r + ReferenceOffset(a), q + InferredQuerySequenceLength(a), querySequence);
    assert r1 + ReferenceOffset(a[1..]) == r + ReferenceOffset(a);
    assert q1 + InferredQuerySequenceLength(a[1..]) == q + InferredQuerySequenceLength(a);
    assert Events(a[1..] + b, r1, q1, querySequence) == x + y;
    EventsConsConcat(a, b, r, q, querySequence);
    EventsCons(a, r, q, querySequence);
    EventsJoin(Events(a + b, r, q, querySequence), Events(a, r, q, querySequence), run, x, y);
  }

  /** The walk over `a + b` starts with the run of `a`'s first entry. */
  lemma EventsConsConcat(a: CigarTuples, b: CigarTuples, r: int, q: nat, querySequence: Option<string>)
    requires a != []
    ensures Events(a + b, r, q, querySequence) ==
      RunEvents(KindOf(a[0].0), a[0].1, r, q, querySequence)
      + Events(a[1..] + b, r + ReferenceAdvance(KindOf(a[0].0), a[0].1), q + QueryAdvance(KindOf(a[0].0), a[0].1), querySequence)
  {
    var ab := a + b;
    assert ab[0] == a[0];
    assert ab[1..] == a[1..] + b;
    EventsCons(ab, r, q, querySequence);
  }

  /** A list that is `run` before `x + y`, beside one that is `run` before `x`. */
  lemma EventsJoin(whole: seq<Event>, front: seq<Event>, run: seq<Event>, x: seq<Event>, y: seq<Event>)
    requires whole == run + (x + y) && front == run + x
    ensures whole == front + y
  {
  }

  /** Where each event comes from: unit `u` of the reference-consuming entry `c[i]` is
      recorded at `referenceStart` plus the reference offset before it, as `'-'` for D
      and N and otherwise as the base at the query position after the query-consuming
      entries before it. */
  lemma EventsAt(c: CigarTuples, referenceStart: int, querySequence: Option<string>, i: nat, u: nat)
    requires i < |c| && ConsumesReference(c[i].0) && u < c[i].1
    ensures ReferenceOffset(c[..i]) + u < |Events(c, referenceStart, 0, querySequence)|
    ensures Events(c, referenceStart, 0, querySequence)[ReferenceOffset(c[..i]) + u] ==
      (referenceStart + ReferenceOffset(c[..i]) + u,
       if c[i].0 == D || c[i].0 == N then '-' else BaseAt(querySequence, InferredQuerySequenceLength(c[..i]) + u))
  {
    var head, tail := c[..i], c[i..];
    assert c == head + tail;
    var r := referenceStart + ReferenceOffset(head);
    var q := InferredQuerySequenceLength(head);
    var k := KindOf(c[i].0);
    var h := Events(head, referenceStart, 0, querySequence);
    var run := RunEvents(k, c[i].1, r, q, querySequence);
    EventsConcat(head, tail, referenceStart, 0, querySequence);
    EventsPositions(head, referenceStart, 0, querySequence);
    assert tail[0] == c[i];
    EventsCons(tail, r, q, querySequence);
    RunEventsAt(k, c[i].1, r, q, querySequence);
    KindByOp(c[i].0);
    UnitOf(c[i].0, q + u, querySequence);
    assert Events(tail, r, q, querySequence)[u] == run[u];
  }

  /** The character a reference unit of `op` records, by op. */
  lemma UnitOf(op: Op, q: nat, querySequence: Option<string>)
    requires ConsumesReference(op)
    ensures KindOf(op).Gap? || KindOf(op) == Aligned(true)
    ensures UnitBase(KindOf(op), q, querySequence) == if op == D || op == N then '-' else BaseAt(querySequence, q)
  {
    ConsumptionByKind(op);
  }

  /** In a run of events at consecutive positions from `r`, a (position, character)
      pair occurs once, as the event at that position, or not at all; and the touched
      positions are exactly the range. */
  lemma {:induction false} ConsecutiveEvents(events: seq<Event>, r: int, pos: int, ch: char)
    requires forall i :: 0 <= i < |events| ==> events[i].0 == r + i
    ensures Occurrences(events, pos, ch) ==
      (if r <= pos < r + |events| && events[pos - r].1 == ch then 1 else 0)
    ensures Touches(events, pos) <==> r <= pos < r + |events|
    decreases |events|
  {
    if events != [] {
      var tail := events[1..];
      ConsecutiveEvents(tail, r + 1, pos, ch);
      if r < pos < r + |events| {
        assert tail[pos - (r + 1)] == events[pos - r];
      }
    }
  }

  // ---------------------------------------------------------------------------
  // What depth adds

  /** Each reference position the alignment covers gets exactly one more count, of the
      character its event records; every other position keeps its previous counter and
      appears in the result only if it was there before. */
  lemma DepthCounts(c: CigarTuples, referenceStart: int, querySequence: Option<string>,
                    previousCount: Option<Counts>, pos: int, ch: char)
    ensures |Events(c, referenceStart, 0, querySequence)| == ReferenceOffset(c)
    ensures Count(DepthOf(c, referenceStart, querySequence, previousCount), pos, ch) ==
      Count(Previous(previousCount), pos, ch)
      + (if referenceStart <= pos < referenceStart + ReferenceOffset(c)
            && Events(c, referenceStart, 0, querySequence)[pos - referenceStart].1 == ch then 1 else 0)
    ensures pos in DepthOf(c, referenceStart, querySequence, previousCount) <==>
      pos in Previous(previousCount) || referenceStart <= pos < referenceStart + ReferenceOffset(c)
    ensures !(referenceStart <= pos < referenceStart + ReferenceOffset(c)) ==>
      Row(DepthOf(c, referenceStart, querySequence, previousCount), pos) == Row(Previous(previousCount), pos)
  {
    var ev := Events(c, referenceStart, 0, querySequence);
    EventsPositions(c, referenceStart, 0, querySequence);
    ConsecutiveEvents(ev, referenceStart, pos, ch);
    TallyCounts(Previous(previousCount), ev, pos, ch);
    TallyPositions(Previous(previousCount), ev, pos);
  }

  /** The counter at a covered position is the previous one with the recorded character
      incremented: a fresh position holds exactly that one character once. */
  lemma DepthCovered(c: CigarTuples, referenceStart: int, querySequence: Option<string>,
                     previousCount: Option<Counts>, pos: int)
    requires referenceStart <= pos < referenceStart + ReferenceOffset(c)
    ensures |Events(c, referenceStart, 0, querySequence)| == ReferenceOffset(c)
    ensures pos in DepthOf(c, referenceStart, querySequence, previousCount)
    ensures DepthOf(c, referenceStart, querySequence, previousCount)[pos] ==
      Increment(Row(Previous(previousCount), pos), Events(c, referenceStart, 0, querySequence)[pos - referenceStart].1)
  {
    var ev := Events(c, referenceStart, 0, querySequence);
    EventsPositions(c, referenceStart, 0, querySequence);
    forall x ensures Occurrences(ev, pos, x) == (if x == ev[pos - referenceStart].1 then 1 else 0) {
      ConsecutiveEvents(ev, referenceStart, pos, x);
    }
    TallyOnce(Previous(previousCount), ev, pos, ev[pos - referenceStart].1);
  }

  // ---------------------------------------------------------------------------
  // The documented examples

  /** A pileup without previous counts holds exactly one count at each covered position. */
  lemma FreshRows(c: CigarTuples, referenceStart: int, querySequence: Option<string>, expected: seq<Event>)
    requires Events(c, referenceStart, 0, querySequence) == expected
    ensures forall p :: referenceStart <= p < referenceStart + |expected| ==>
      p in DepthOf(c, referenceStart, querySequence, None)
      && DepthOf(c, referenceStart, querySequence, None)[p] == map[expected[p - referenceStart].1 := 1]
  {
    EventsPositions(c, referenceStart, 0, querySequence);
    forall p | referenceStart <= p < referenceStart + |expected|
      ensures p in DepthOf(c, referenceStart, querySequence, None)
      ensures DepthOf(c, referenceStart, querySequence, None)[p] == map[expected[p - referenceStart].1 := 1]
    {
      DepthCovered(c, referenceStart, querySequence, None, p);
    }
  }

  /** 4M2I2M2D3M against AAAAACCGGCC: the last three runs, from reference position 4
      and query position 6 (the two inserted bases already passed over). */
  lemma BasicEventsTail(c: CigarTuples, qs: Option<string>)
    requires c == [(M, 2), (D, 2), (M, 3)] && qs == Some("AAAAACCGGCC")
    ensures Events(c, 4, 6, qs) == [(4, 'C'), (5, 'G')] + ([(6, '-'), (7, '-')] + [(8, 'G'), (9, 'C'), (10, 'C')])
  {
    RunEventsAt(Aligned(true), 2, 4, 6, qs);
    RunEventsAt(Gap, 2, 6, 8, qs);
    RunEventsAt(Aligned(true), 3, 8, 8, qs);
    EventsCons(c, 4, 6, qs);
    EventsCons(c[1..], 6, 8, qs);
    assert c[1..][1..] == c[2..];
    EventsCons(c[2..], 8, 8, qs);
  }

  /** 4M2I2M2D3M against AAAAACCGGCC: A at 0-3, then C and G at 4-5, gaps at 6-7,
      then G, C, C. */
  lemma BasicEvents(c: CigarTuples, qs: Option<string>)
    requires c == [(M, 4), (I, 2), (M, 2), (D, 2), (M, 3)] && qs == Some("AAAAACCGGCC")
    ensures Events(c, 0, 0, qs) ==
      [(0, 'A'), (1, 'A'), (2, 'A'), (3, 'A')] + ([(4, 'C'), (5, 'G')] + ([(6, '-'), (7, '-')] + [(8, 'G'), (9, 'C'), (10, 'C')]))
  {
    RunEventsAt(Aligned(true), 4, 0, 0, qs);
    EventsCons(c, 0, 0, qs);
    EventsCons(c[1..], 4, 4, qs);
    assert c[1..][1..] == c[2..];
    BasicEventsTail(c[2..], qs);
  }

  /** The pileup of that read: one count at each of positions 0-10. */
  lemma BasicDepth(c: CigarTuples, qs: Option<string>)
    requires c == [(M, 4), (I, 2), (M, 2), (D, 2), (M, 3)] && qs == Some("AAAAACCGGCC")
    ensures var d := DepthOf(c, 0, qs, None);
      (forall p :: 0 <= p < 4 ==> p in d && d[p] == map['A' := 1])
      && 4 in d && d[4] == map['C' := 1] && 5 in d && d[5] == map['G' := 1]
      && 6 in d && d[6] == map['-' := 1] && 7 in d && d[7] == map['-' := 1]
      && 8 in d && d[8] == map['G' := 1] && 9 in d && d[9] == map['C' := 1] && 10 in d && d[10] == map['C' := 1]
  {
    BasicEvents(c, qs);
    FreshRows(c, 0, qs, Events(c, 0, 0, qs));
  }

  lemma ReferenceStartEventsTail(c: CigarTuples, qs: Option<string>)
    requires c == [(D, 2), (M, 2)] && qs == Some("AAATT")
    ensures Events(c, 13, 3, qs) == [(13, '-'), (14, '-')] + [(15, 'T'), (16, 'T')]
  {
    RunEventsAt(Gap, 2, 13, 3, qs);
    RunEventsAt(Aligned(true), 2, 15, 3, qs);
    EventsCons(c, 13, 3, qs);
    EventsCons(c[1..], 15, 3, qs);
  }

  /** 3M2D2M from reference position 10 against AAATT: the positions start at 10. */
  lemma ReferenceStartEvents(c: CigarTuples, qs: Option<string>)
    requires c == [(M, 3), (D, 2), (M, 2)] && qs == Some("AAATT")
    ensures Events(c, 10, 0, qs) == [(10, 'A'), (11, 'A'), (12, 'A')] + ([(13, '-'), (14, '-')] + [(15, 'T'), (16, 'T')])
  {
    RunEventsAt(Aligned(true), 3, 10, 0, qs);
    EventsCons(c, 10, 0, qs);
    ReferenceStartEventsTail(c[1..], qs);
  }

  lemma ReferenceStartDepth(c: CigarTuples, qs: Option<string>)
    requires c == [(M, 3), (D, 2), (M, 2)] && qs == Some("AAATT")
    ensures var d := DepthOf(c, 10, qs, None);
      (forall p :: 10 <= p < 13 ==> p in d && d[p] == map['A' := 1])
      && (forall p :: 13 <= p < 15 ==> p in d && d[p] == map['-' := 1])
      && (forall p :: 15 <= p < 17 ==> p in d && d[p] == map['T' := 1])
  {
    ReferenceStartEvents(c, qs);
    FreshRows(c, 10, qs, Events(c, 10, 0, qs));
  }

  lemma NoQuerySequenceEventsTail(c: CigarTuples, qs: Option<string>)
    requires c == [(D, 1), (M, 2)] && qs == None
    ensures Events(c, 3, 3, qs) == [(3, '-')] + [(4, '.'), (5, '.')]
  {
    RunEventsAt(Gap, 1, 3, 3, qs);
    RunEventsAt(Aligned(true), 2, 4, 3, qs);
    EventsCons(c, 3, 3, qs);
    EventsCons(c[1..], 4, 3, qs);
  }

  /** 3M1D2M without a query sequence: every aligned base is recorded as '.'. */
  lemma NoQuerySequenceEvents(c: CigarTuples, qs: Option<string>)
    requires c == [(M, 3), (D, 1), (M, 2)] && qs == None
    ensures Events(c, 0, 0, qs) == [(0, '.'), (1, '.'), (2, '.')] + ([(3, '-')] + [(4, '.'), (5, '.')])
  {
    RunEventsAt(Aligned(true), 3, 0, 0, qs);
    EventsCons(c, 0, 0, qs);
    NoQuerySequenceEventsTail(c[1..], qs);
  }

  lemma NoQuerySequenceDepth(c: CigarTuples, qs: Option<string>)
    requires c == [(M, 3), (D, 1), (M, 2)] && qs == None
    ensures var d := DepthOf(c, 0, qs, None);
      (forall p :: 0 <= p < 3 ==> p in d && d[p] == map['.' := 1])
      && 3 in d && d[3] == map['-' := 1]
      && (forall p :: 4 <= p < 6 ==> p in d && d[p] == map['.' := 1])
  {
    NoQuerySequenceEvents(c, qs);
    FreshRows(c, 0, qs, Events(c, 0, 0, qs));
  }

  lemma SkippedRegionEventsTail(c: CigarTuples, qs: Option<string>)
    requires c == [(N, 3), (M, 2)] && qs == Some("AATT")
    ensures Events(c, 2, 2, qs) == [(2, '-'), (3, '-'), (4, '-')] + [(5, 'T'), (6, 'T')]
  {
    RunEventsAt(Gap, 3, 2, 2, qs);
    RunEventsAt(Aligned(true), 2, 5, 2, qs);
    EventsCons(c, 2, 2, qs);
    EventsCons(c[1..], 5, 2, qs);
  }

  /** 2M3N2M against AATT: the skipped region counts as a gap. */
  lemma SkippedRegionEvents(c: CigarTuples, qs: Option<string>)
    requires c == [(M, 2), (N, 3), (M, 2)] && qs == Some("AATT")
    ensures Events(c, 0, 0, qs) == [(0, 'A'), (1, 'A')] + ([(2, '-'), (3, '-'), (4, '-')] + [(5, 'T'), (6, 'T')])
  {
    RunEventsAt(Aligned(true), 2, 0, 0, qs);
    EventsCons(c, 0, 0, qs);
    SkippedRegionEventsTail(c[1..], qs);
  }

  lemma SkippedRegionDepth(c: CigarTuples, qs: Option<string>)
    requires c == [(M, 2), (N, 3), (M, 2)] && qs == Some("AATT")
    ensures var d := DepthOf(c, 0, qs, None);
      (forall p :: 0 <= p < 2 ==> p in d && d[p] == map['A' := 1])
      && (forall p :: 2 <= p < 5 ==> p in d && d[p] == map['-' := 1])
      && (forall p :: 5 <= p < 7 ==> p in d && d[p] == map['T' := 1])
  {
    SkippedRegionEvents(c, qs);
    FreshRows(c, 0, qs, Events(c, 0, 0, qs));
  }

  /** The three match runs of the docstring's 4M1D3M2I3M against AAAAACCGGCCC. */
  lemma DocstringRuns(qs: Option<string>)
    requires qs == Some("AAAAACCGGCCC")
    ensures RunEvents(Aligned(true), 4, 0, 0, qs) == [(0, 'A'), (1, 'A'), (2, 'A'), (3, 'A')]
    ensures RunEvents(Aligned(true), 3, 5, 4, qs) == [(5, 'A'), (6, 'C'), (7, 'C')]
    ensures RunEvents(Aligned(true), 3, 8, 9, qs) == [(8, 'C'), (9, 'C'), (10, 'C')]
  {
    RunEventsAt(Aligned(true), 4, 0, 0, qs);
    RunEventsAt(Aligned(true), 3, 5, 4, qs);
    RunEventsAt(Aligned(true), 3, 8, 9, qs);
  }

  /** From reference position 5 and query position 4: A, C, C, then the inserted GG
      passed over, then C, C, C. */
  lemma DocstringEventsTail(c: CigarTuples, qs: Option<string>)
    requires c == [(M, 3), (I, 2), (M, 3)] && qs == Some("AAAAACCGGCCC")
    ensures Events(c, 5, 4, qs) == [(5, 'A'), (6, 'C'), (7, 'C')] + [(8, 'C'), (9, 'C'), (10, 'C')]
  {
    DocstringRuns(qs);
    RunEventsAt(QueryOnly, 2, 8, 7, qs);
    EventsCons(c, 5, 4, qs);
    EventsCons(c[1..], 8, 7, qs);
    assert c[1..][1..] == c[2..];
    EventsCons(c[2..], 8, 9, qs);
  }

  /** From reference position 4 and query position 4: the deleted base, then the tail. */
  lemma DocstringEventsMiddle(c: CigarTuples, qs: Option<string>)
    requires c == [(D, 1), (M, 3), (I, 2), (M, 3)] && qs == Some("AAAAACCGGCCC")
    ensures Events(c, 4, 4, qs) == [(4, '-')] + ([(5, 'A'), (6, 'C'), (7, 'C')] + [(8, 'C'), (9, 'C'), (10, 'C')])
  {
    RunEventsAt(Gap, 1, 4, 4, qs);
    EventsCons(c, 4, 4, qs);
    DocstringEventsTail(c[1..], qs);
  }

  lemma DocstringEvents(c: CigarTuples, qs: Option<string>)
    requires c == [(M, 4), (D, 1), (M, 3), (I, 2), (M, 3)] && qs == Some("AAAAACCGGCCC")
    ensures Events(c, 0, 0, qs) ==
      [(0, 'A'), (1, 'A'), (2, 'A'), (3, 'A')] + ([(4, '-')] + ([(5, 'A'), (6, 'C'), (7, 'C')] + [(8, 'C'), (9, 'C'), (10, 'C')]))
  {
    DocstringRuns(qs);
    EventsCons(c, 0, 0, qs);
    DocstringEventsMiddle(c[1..], qs);
  }

  /** The example of depth's docstring. The code counts eleven positions, 0-10: the
      docstring's ten rows and a last C at position 10, which the docstring leaves out. */
  lemma DocstringDepth(c: CigarTuples, qs: Option<string>)
    requires c == [(M, 4), (D, 1), (M, 3), (I, 2), (M, 3)] && qs == Some("AAAAACCGGCCC")
    ensures var d := DepthOf(c, 0, qs, None);
      (forall p :: p in d <==> 0 <= p < 11)
      && (forall p :: 0 <= p < 4 ==> d[p] == map['A' := 1])
      && d[4] == map['-' := 1] && d[5] == map['A' := 1]
      && (forall p :: 6 <= p < 11 ==> d[p] == map['C' := 1])
  {
    DocstringEvents(c, qs);
    FreshRows(c, 0, qs, Events(c, 0, 0, qs));
    forall p ensures p in DepthOf(c, 0, qs, None) <==> 0 <= p < 11 {
      DepthCounts(c, 0, qs, None, p, '.');
    }
  }

  /** A single 3M run against a three-base query. */
  lemma ThreeMatchEvents(c: CigarTuples, qs: Option<string>, b: char)
    requires c == [(M, 3)] && qs == Some([b, b, b])
    ensures Events(c, 0, 0, qs) == [(0, b), (1, b), (2, b)]
  {
    RunEventsAt(Aligned(true), 3, 0, 0, qs);
    EventsCons(c, 0, 0, qs);
  }

  /** Two 3M reads, AAA and then TTT, the second counted on top of the first: each of
      positions 0-2 holds one A and one T. */
  lemma PreviousCountDepth(c: CigarTuples, first: Option<string>, second: Option<string>)
    requires c == [(M, 3)] && first == Some("AAA") && second == Some("TTT")
    ensures var d := DepthOf(c, 0, second, Some(DepthOf(c, 0, first, None)));
      forall p :: 0 <= p < 3 ==> p in d && d[p] == map['A' := 1, 'T' := 1]
  {
    var d1 := DepthOf(c, 0, first, None);
    ThreeMatchEvents(c, first, 'A');
    ThreeMatchEvents(c, second, 'T');
    FreshRows(c, 0, first, Events(c, 0, 0, first));
    forall p | 0 <= p < 3
      ensures p in DepthOf(c, 0, second, Some(d1))
      ensures DepthOf(c, 0, second, Some(d1))[p] == map['A' := 1, 'T' := 1]
    {
      DepthCovered(c, 0, second, Some(d1), p);
      assert Row(d1, p) == map['A' := 1];
    }
  }
}
