/**
  The CIGAR operation table: the nine ops of section 1.4, field 6, of the SAMv1
  specification (codes 0-8), the proposed "backwards" skip `B` (code 9) and the
  local `T` row (code 10); the BAM op codes, and the `CigarTuples` type that the
  rest of the model works on.
 */
module Defn {
  import opened Wrappers

  /** The eleven operation kinds, declared in BAM code order. `Eq` is `=`. */
  datatype Op = M | I | D | N | S | H | P | Eq | X | B | T

  /** One row of the op table: its letter and the two spaces it consumes. */
  datatype OpInfo = OpInfo(op: Op, letter: char, consumesQuery: bool, consumesRef: bool)

  /** The op table, indexed by BAM code. */
  const Nts: seq<OpInfo> := [
    OpInfo(M, 'M', true, true),
    OpInfo(I, 'I', true, false),
    OpInfo(D, 'D', false, true),
    OpInfo(N, 'N', false, true),
    OpInfo(S, 'S', true, false),
    OpInfo(H, 'H', false, false),
    OpInfo(P, 'P', false, false),
    OpInfo(Eq, '=', true, true),
    OpInfo(X, 'X', true, true),
    OpInfo(B, 'B', false, false),
    OpInfo(T, 'T', false, false)
  ]

  /** A CIGAR as (operation, length) pairs, as pysam's `cigartuples`. */
  type CigarTuples = seq<(Op, nat)>

  /** The lengths the SAM format allows: every run is at least one unit long. */
  predicate PositiveLengths(c: CigarTuples) {
    forall i :: 0 <= i < |c| ==> c[i].1 > 0
  }

  /** The sum of the lengths of the ops that `sel` picks: the generator sums of the source. */
  function SumWhere(c: CigarTuples, sel: Op -> bool): nat {
    if c == [] then 0 else (if sel(c[0].0) then c[0].1 else 0) + SumWhere(c[1..], sel)
  }

  /** The selector that picks every op. */
  predicate AnyOp(op: Op) {
    true
  }

  /** The alignment length: every op counted. */
  function TotalLength(c: CigarTuples): nat {
    SumWhere(c, AnyOp)
  }

  /** Filtered sums add up over concatenation. */
  lemma {:induction false} SumWhereAppend(a: CigarTuples, b: CigarTuples, sel: Op -> bool)
    ensures SumWhere(a + b, sel) == SumWhere(a, sel) + SumWhere(b, sel)
  {
    if a == [] {
      assert a + b == b;
    } else {
      assert (a + b)[1..] == a[1..] + b;
      SumWhereAppend(a[1..], b, sel);
    }
  }

  /** A prefix one op longer adds that op's share. */
  lemma SumWherePrefix(c: CigarTuples, k: nat, sel: Op -> bool)
    requires k < |c|
    ensures SumWhere(c[..k + 1], sel) == SumWhere(c[..k], sel) + (if sel(c[k].0) then c[k].1 else 0)
  {
    assert c[..k + 1] == c[..k] + [c[k]];
    SumWhereAppend(c[..k], [c[k]], sel);
  }

  /** Filtered sums agree when the selectors agree on every op. */
  lemma {:induction false} SumWhereSame(c: CigarTuples, f: Op -> bool, g: Op -> bool)
    requires forall op :: f(op) == g(op)
    ensures SumWhere(c, f) == SumWhere(c, g)
  {
    if c != [] {
      SumWhereSame(c[1..], f, g);
    }
  }

  /** A selector that is the disjoint union of two others sums to the sum of both. */
  lemma {:induction false} SumWhereSplit(c: CigarTuples, f: Op -> bool, g: Op -> bool, h: Op -> bool)
    requires forall op :: f(op) == (g(op) || h(op))
    requires forall op :: !(g(op) && h(op))
    ensures SumWhere(c, f) == SumWhere(c, g) + SumWhere(c, h)
  {
    if c != [] {
      SumWhereSplit(c[1..], f, g, h);
    }
  }

  /** Filtered sums never exceed the total length, and grow with the prefix. */
  lemma {:induction false} SumWhereMonotone(c: CigarTuples, i: nat, j: nat, sel: Op -> bool)
    requires i <= j <= |c|
    ensures SumWhere(c[..i], sel) <= SumWhere(c[..j], sel)
    decreases j - i
  {
    if i < j {
      SumWherePrefix(c, j - 1, sel);
      SumWhereMonotone(c, i, j - 1, sel);
    }
  }

  /** A sequence backwards: `reversed(...)` and `[::-1]`. */
  function Reversed<T>(s: seq<T>): (r: seq<T>)
    ensures |r| == |s|
    ensures forall i :: 0 <= i < |s| ==> r[i] == s[|s| - 1 - i]
  {
    if s == [] then [] else Reversed(s[1..]) + [s[0]]
  }

  /** Reversing twice gives the sequence back. */
  lemma ReversedTwice<T>(s: seq<T>)
    ensures Reversed(Reversed(s)) == s
  {
    assert forall i :: 0 <= i < |s| ==> Reversed(Reversed(s))[i] == s[i];
  }

  const BamCMatch: nat := 0
  const BamCIns: nat := 1
  const BamCDel: nat := 2
  const BamCRefSkip: nat := 3
  const BamCSoftClip: nat := 4
  const BamCHardClip: nat := 5
  const BamCPad: nat := 6
  const BamCEqual: nat := 7
  const BamCDiff: nat := 8
  const BamCBack: nat := 9

  /** The BAM code of an op: its row in the table. */
  function Code(op: Op): (n: nat)
    ensures n < |Nts| && Nts[n].op == op
  {
    match op
    case M => 0
    case I => 1
    case D => 2
    case N => 3
    case S => 4
    case H => 5
    case P => 6
    case Eq => 7
    case X => 8
    case B => 9
    case T => 10
  }

  /** The op a BAM code stands for, if the code is a row of the table. */
  function OpOfCode(n: int): (r: Option<Op>)
    ensures r.Some? <==> 0 <= n < |Nts|
    ensures r.Some? ==> Code(r.value) == n
  {
    if 0 <= n < |Nts| then Some(Nts[n].op) else None
  }

  /** The letter of an op in a CIGAR string. */
  function Letter(op: Op): char {
    Nts[Code(op)].letter
  }

  /** CIGAR_HDRS: the letters in code order. */
  const CigarHdrs: seq<char> := seq(|Nts|, i requires 0 <= i < |Nts| => Nts[i].letter)

  /** CIGAR_SET: the letters that end an op in a CIGAR string (the set of CIGAR_HDRS). */
  const CigarSet: set<char> := {'M', 'I', 'D', 'N', 'S', 'H', 'P', '=', 'X', 'B', 'T'}

  /** CIGAR2BAM: letter to BAM code. */
  const Cigar2Bam: map<char, nat> :=
    map['M' := 0, 'I' := 1, 'D' := 2, 'N' := 3, 'S' := 4, 'H' := 5,
        'P' := 6, '=' := 7, 'X' := 8, 'B' := 9, 'T' := 10]

  /** The op a CIGAR letter stands for. */
  function OpOfLetter(c: char): (r: Option<Op>)
    ensures r.Some? <==> c in CigarSet
    ensures r.Some? ==> Letter(r.value) == c
  {
    if c in Cigar2Bam then OpOfCode(Cigar2Bam[c]) else None
  }

  /** Whether an op advances the reference coordinate. */
  predicate ConsumesReference(op: Op) {
    Nts[Code(op)].consumesRef
  }

  /** Whether an op advances the query coordinate (soft clips included). */
  predicate ConsumesQuery(op: Op) {
    Nts[Code(op)].consumesQuery
  }

  /** Soft or hard clip. */
  predicate IsClip(op: Op) {
    op == S || op == H
  }

  /** CONSUMES_REFERENCE: the codes of the reference-consuming rows. */
  const ConsumesReferenceCodes: set<nat> := set i | 0 <= i < |Nts| && Nts[i].consumesRef

  /** CONSUMES_QUERY: the codes of the query-consuming rows. */
  const ConsumesQueryCodes: set<nat> := set i | 0 <= i < |Nts| && Nts[i].consumesQuery

  /** A row of NTS_RQC: the letter with its reference and query flags. */
  datatype RqcRow = RqcRow(letter: char, consumesRef: bool, consumesQuery: bool)

  /** NTS_RQC: the table re-ordered as (letter, consumes_ref, consumes_query). */
  const NtsRqc: seq<RqcRow> :=
    seq(|Nts|, i requires 0 <= i < |Nts| => RqcRow(Nts[i].letter, Nts[i].consumesRef, Nts[i].consumesQuery))

  /** get_ntrqc_qty: replace each op by its NTS_RQC row, keeping the count. */
  function GetNtrqcQty(t: seq<(Op, int)>): (r: seq<(RqcRow, int)>)
    ensures |r| == |t|
    ensures forall i :: 0 <= i < |t| ==>
      r[i].1 == t[i].1 && r[i].0.letter == Letter(t[i].0)
      && (r[i].0.consumesRef <==> ConsumesReference(t[i].0))
      && (r[i].0.consumesQuery <==> ConsumesQuery(t[i].0))
  {
    seq(|t|, i requires 0 <= i < |t| => (NtsRqc[Code(t[i].0)], t[i].1))
  }

  /** Consumption is fixed per kind: M, =, X both; I, S query; D, N reference; the rest neither. */
  lemma ConsumptionByKind(op: Op)
    ensures ConsumesReference(op) && ConsumesQuery(op) <==> op in {M, Eq, X}
    ensures ConsumesQuery(op) && !ConsumesReference(op) <==> op in {I, S}
    ensures ConsumesReference(op) && !ConsumesQuery(op) <==> op in {D, N}
    ensures !ConsumesReference(op) && !ConsumesQuery(op) <==> op in {H, P, B, T}
  {
  }

  /** The two consumption sets as the source computes them from the table. */
  lemma ConsumptionCodeSets()
    ensures ConsumesReferenceCodes == {0, 2, 3, 7, 8}
    ensures ConsumesQueryCodes == {0, 1, 4, 7, 8}
    ensures forall op :: ConsumesReference(op) <==> Code(op) in ConsumesReferenceCodes
    ensures forall op :: ConsumesQuery(op) <==> Code(op) in ConsumesQueryCodes
  {
    assert forall i :: i in ConsumesReferenceCodes <==> i in {0, 2, 3, 7, 8} by {
      forall i ensures i in ConsumesReferenceCodes <==> i in {0, 2, 3, 7, 8} {
        if 0 <= i < |Nts| {
          assert Nts[i].consumesRef <==> i in {0, 2, 3, 7, 8};
        }
      }
    }
    assert forall i :: i in ConsumesQueryCodes <==> i in {0, 1, 4, 7, 8} by {
      forall i ensures i in ConsumesQueryCodes <==> i in {0, 1, 4, 7, 8} {
        if 0 <= i < |Nts| {
          assert Nts[i].consumesQuery <==> i in {0, 1, 4, 7, 8};
        }
      }
    }
  }

  /** CIGAR_SET is the set of the table's letters. */
  lemma CigarSetIsTableLetters()
    ensures CigarSet == set i | 0 <= i < |Nts| :: Nts[i].letter
  {
    var fromTable := set i | 0 <= i < |Nts| :: Nts[i].letter;
    forall c | c in CigarSet ensures c in fromTable {
      var k := Cigar2Bam[c];
      assert Nts[k].letter == c;
    }
  }

  /** CIGAR2BAM and CIGAR_HDRS are inverse: `CIGAR_HDRS[CIGAR2BAM[c]] == c`. */
  lemma LetterCodeBijection()
    ensures CigarSet == Cigar2Bam.Keys
    ensures forall c :: c in Cigar2Bam ==> Cigar2Bam[c] < |CigarHdrs| && CigarHdrs[Cigar2Bam[c]] == c
    ensures forall n :: 0 <= n < |CigarHdrs| ==> CigarHdrs[n] in Cigar2Bam && Cigar2Bam[CigarHdrs[n]] == n
  {
    assert Cigar2Bam.Keys == {'M', 'I', 'D', 'N', 'S', 'H', 'P', '=', 'X', 'B', 'T'};
    forall n | 0 <= n < |CigarHdrs|
      ensures CigarHdrs[n] in Cigar2Bam && Cigar2Bam[CigarHdrs[n]] == n
    {
      assert CigarHdrs[n] == Nts[n].letter;
    }
  }

  /** Each BAM_C* constant is its op's position in the table, and letters map back to codes. */
  lemma BamConstants()
    ensures Code(M) == BamCMatch && Code(I) == BamCIns && Code(D) == BamCDel
    ensures Code(N) == BamCRefSkip && Code(S) == BamCSoftClip && Code(H) == BamCHardClip
    ensures Code(P) == BamCPad && Code(Eq) == BamCEqual && Code(X) == BamCDiff && Code(B) == BamCBack
    ensures forall op :: Letter(op) in Cigar2Bam && Cigar2Bam[Letter(op)] == Code(op)
  {
  }
}
