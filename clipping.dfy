/**
  Clip lengths and declipping (clipping.py). Every function looks at the first
  or the last op, so each needs a non-empty CIGAR: the source indexes `[0]` and
  `[-1]` and raises IndexError on an empty list.
 */
module Clipping {
  import opened Defn

  /** left_clipping: the first op's length when it is a soft clip, or a hard clip
      when `withHard` holds; 0 otherwise. */
  function LeftClipping(c: CigarTuples, withHard: bool): (n: nat)
    requires |c| > 0
    ensures n > 0 ==> c[0].0 == S || (withHard && c[0].0 == H)
    ensures c[0].0 == S || (withHard && c[0].0 == H) ==> n == c[0].1
  {
    if c[0].0 == S || (withHard && c[0].0 == H) then c[0].1 else 0
  }

  /** right_clipping: the same test on the last op. */
  function RightClipping(c: CigarTuples, withHard: bool): (n: nat)
    requires |c| > 0
    ensures n > 0 ==> c[|c| - 1].0 == S || (withHard && c[|c| - 1].0 == H)
    ensures c[|c| - 1].0 == S || (withHard && c[|c| - 1].0 == H) ==> n == c[|c| - 1].1
  {
    var last := c[|c| - 1];
    if last.0 == S || (withHard && last.0 == H) then last.1 else 0
  }

  /** declip: drop the first op if it is a clip and the last op if it is a clip.
      A lone clip is both first and last, and `c[1:-1]` of it is empty. */
  function Declip(c: CigarTuples): (r: CigarTuples)
    requires |c| > 0
    ensures |r| <= |c|
  {
    var left := IsClip(c[0].0);
    var right := IsClip(c[|c| - 1].0);
    if left && right then (if |c| >= 2 then c[1..|c| - 1] else [])
    else if right then c[..|c| - 1]
    else if left then c[1..]
    else c
  }

  /** is_hard_clipped: the first or the last op is a hard clip. */
  predicate IsHardClipped(c: CigarTuples)
    requires |c| > 0
  {
    c[0].0 == H || c[|c| - 1].0 == H
  }

  /** The right clip is the left clip of the reversed CIGAR. */
  lemma ClippingMirror(c: CigarTuples, withHard: bool)
    requires |c| > 0
    ensures RightClipping(c, withHard) == LeftClipping(Reversed(c), withHard)
    ensures LeftClipping(c, withHard) == RightClipping(Reversed(c), withHard)
  {
  }

  /** Declipping takes exactly one op off each clipped end and keeps the rest as a
      contiguous slice: `c == front + declipped + back`, with `front` the first op
      exactly when it is a clip, and `back` the last op exactly when it is a clip
      and is not also the first. */
  lemma {:induction false} DeclipSlice(c: CigarTuples)
    requires |c| > 0
    ensures var front := if IsClip(c[0].0) then 1 else 0;
            var back := if IsClip(c[|c| - 1].0) && |c| - front >= 1 then 1 else 0;
            Declip(c) == c[front..|c| - back]
  {
  }

  /** Without a clip at either end declipping changes nothing. */
  lemma {:induction false} DeclipUnclipped(c: CigarTuples)
    requires |c| > 0 && !IsClip(c[0].0) && !IsClip(c[|c| - 1].0)
    ensures Declip(c) == c
  {
  }

  /** Declipping removes at most one op per side: in `3S2H10M` the inner `2H` stays. */
  lemma {:induction false} DeclipKeepsInnerClip(c: CigarTuples)
    requires |c| >= 3
    ensures |Declip(c)| >= |c| - 2
    ensures IsClip(c[0].0) && IsClip(c[1].0) ==> Declip(c)[0] == c[1]
  {
  }

  /** Declipping commutes with reversal. */
  lemma {:induction false} DeclipMirror(c: CigarTuples)
    requires |c| > 0
    ensures Declip(Reversed(c)) == Reversed(Declip(c))
  {
    var r := Reversed(c);
    DeclipSlice(c);
    DeclipSlice(r);
    assert Declip(r) == Reversed(Declip(c)) by {
      var d := Declip(c);
      var e := Declip(r);
      assert |e| == |d|;
      forall i | 0 <= i < |e| ensures e[i] == Reversed(d)[i] {
      }
    }
  }

  /** Hard clipping is what tells the two kinds of clip length apart: without a hard
      clip at either end soft and hard-or-soft clip lengths agree; with one they differ
      whenever that clip is not empty. */
  lemma {:induction false} HardClippedIffLengthsDiffer(c: CigarTuples)
    requires |c| > 0 && PositiveLengths(c)
    ensures IsHardClipped(c) <==>
      (LeftClipping(c, true) != LeftClipping(c, false) || RightClipping(c, true) != RightClipping(c, false))
  {
    assert c[0].1 > 0 && c[|c| - 1].1 > 0;
  }
}
