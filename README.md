# cigarmath in Dafny

A model of the arithmetic core of **cigarmath**, a small Python library for CIGAR
strings. A CIGAR is the run-length alignment encoding of the SAM format (section 1.4,
field 6, of the SAMv1 specification). The model covers:

- the op table and the string codec;
- clip, span and length helpers;
- the per-position walk of an alignment, and the position maps built on it;
- the trimming and stitching of partial alignments;
- the per-position base counts of a pileup;
- the aligned (query, reference) coordinate pairs.

A CIGAR is `seq<(Op, nat)>`. `Op` has the eleven op kinds in BAM code order: the nine of
the SAM table (`M I D N S H P = X`, codes 0-8), the proposed "backwards" skip `B` (code 9,
from a samtools mailing-list proposal that defn.py cites) and the library's own `T`
(code 10). Modules follow the source files:

| module | file | what it holds |
|---|---|---|
| `Wrappers` | — | `Option` (Python's `None`) and `Result` (a value or the exception raised instead) |
| `Defn` | defn.py | the op table, op codes and letters, what each op consumes |
| `Codec` | defn.py | `cigarstr2tup` and `cigartup2str`, with Python's `int()` written out |
| `Clipping` | clipping.py | clip lengths, `declip`, `is_hard_clipped` |
| `Block` | block.py | reference and query offsets and spans, span overlap |
| `Inference` | inference.py | the inferred query and reference lengths |
| `CigarMath` | cigarmath.py | deletion blocks, `=`/`X` simplification, merging neighbouring runs |
| `Iterators` | iterators.py | `cigar_iterator`, `_left_clip_iterator`, `cigar_iterator_reference_slice` |
| `Mapping` | mapping.py | `reference2query`, `query2reference`, `query2cigar` |
| `Combine` | combine.py | `_trim`, `trim_alignment`, `combine_adjacent_alignments`, `combine_multiple_alignments` |
| `Pileup` | pileup.py | `depth` |
| `Conversions` | conversions.py, plotting/aligned_pairs.py | `cigartuples2pairs` |

**Loops become methods.** Where the source loops and updates variables, the model has a
`method` with the same loop, and that method is proved equal to a reference function.
Examples are `cigarstr2tup`, `collapse_adjacent_blocks`, `reference_deletion_blocks`,
`cigar_iterator`, the reference slice, `_trim`, the two loops of
`combine_multiple_alignments`, `depth` and `cigartuples2pairs`. The properties the source
promises are then lemmas about those functions. Generators become methods that return the
whole sequence they would yield.

**Exceptions.** Except where "## Left out" says otherwise, an exception the source raises
on inputs it accepts is modelled as an explicit error value. Examples are the `IndexError`
of `query[-1]` in `cigartuples2pairs`, the `IndexError` of an empty CIGAR where the
combiner reaches it, the `AssertionError` of the combiner, and its `ValueError`s. The
validation order is the source's own. The exceptions that are not modelled as values are
listed under "## Left out": the `NameError` of `inferred_reference_length`, the
`IndexError` of `get_ntrqc_qty` on an unknown code, and the `IndexError` of an empty CIGAR
in clipping.py, `query_block`, iterators.py and mapping.py, which those members exclude
with a `requires`.

**Integers.** Python integers are unbounded, so `int` and `nat` need no wrap-around.

**Shared walk.** mapping.py carries its own copy of `cigar_iterator` and `CigarIndex`.
That copy does the same as the one in iterators.py, so both are modelled by the walk of
`Iterators`.

**Shared pairs.** plotting/aligned_pairs.py is a line-for-line copy of `cigartuples2pairs`
from conversions.py. The `Conversions` rows cite both files.

**The `CLIPPING` set.** iterators.py:10 and mapping.py:10 import `CLIPPING` from
defn.py, but defn.py does not define it, so as written neither module can be imported
(the import raises `ImportError`). The model takes `CLIPPING` to be the soft and hard
clip, {S, H}. `_left_clip_iterator` (iterators.py:77) names no set and defaults to
`BAM_CSOFT_CLIP`; that a leading `H` counts as a clip is an assumption of the model.

## Model

| member | source | states |
|---|---|---|
| Defn.Code | cigarmath/defn.py:16-40 | each op's BAM code is a row of the table, and that row names the op |
| Defn.OpOfCode | cigarmath/defn.py:16-40 | an integer names an op exactly when it is a table index 0-10, and the op's code is that integer |
| Defn.OpOfLetter | cigarmath/defn.py:57 | a character names an op exactly when it is in CIGAR_SET, and that op's letter is the character |
| Defn.ConsumptionByKind | cigarmath/defn.py:16-40 | M, = and X consume both spaces; I and S only the query; D and N only the reference; H, P, B and T neither |
| Defn.ConsumptionCodeSets | cigarmath/defn.py:59-64 | CONSUMES_REFERENCE is {0,2,3,7,8} and CONSUMES_QUERY is {0,1,4,7,8}; an op consumes a space exactly when its code is in the set |
| Defn.CigarSetIsTableLetters | cigarmath/defn.py:53-54 | CIGAR_SET is exactly the set of the table's letters |
| Defn.LetterCodeBijection | cigarmath/defn.py:53-57 | CIGAR2BAM and CIGAR_HDRS are inverse: `CIGAR_HDRS[CIGAR2BAM[c]] == c`, and the reverse, with the same key set as CIGAR_SET |
| Defn.BamConstants | cigarmath/defn.py:87-96 | each BAM_C* constant is its op's table position, and CIGAR2BAM maps every op's letter to its code |
| Defn.GetNtrqcQty | cigarmath/defn.py:42-50 | get_ntrqc_qty keeps length and order, keeps each count, and replaces each op by its (letter, consumes reference, consumes query) row |
| Codec.CigarStrToTup | cigarmath/defn.py:67-79 | None gives None; a string gives the parse of the reference definition |
| Codec.ParseString | cigarmath/defn.py:71-79 | the loop that moves `pta` past every op letter computes the reference parse: one tuple per letter, in order, its length `int()` of the text since the previous letter, or the ValueError of that `int()` |
| Codec.ScanIsParse | cigarmath/defn.py:74-78 | the loop state part-way through the string is the tuples so far followed by the parse of the text from `pta` |
| Codec.NatToStringValue | cigarmath/defn.py:84 | `str(n)` of a count is a valid decimal literal whose value is `n` |
| Codec.IntToStringValue | cigarmath/defn.py:84 | `int()` reads back `str(n)` for every integer `n`, also after leading whitespace |
| Codec.ParseFormatted | cigarmath/defn.py:67-84 | parsing the formatted tuples, after leading whitespace and with a whitespace separator, gives back the tuples |
| Codec.RoundTrip | cigarmath/defn.py:67-84 | `cigarstr2tup(cigartup2str(t, sep)) == t` for every list of tuples and every whitespace separator |
| Codec.FormatSpacedExample | cigarmath/defn.py:82-84 | the five tuples of 10M3I3M2D6M joined by a space are "10M 3I 3M 2D 6M" |
| Codec.ParseSpacedExample | tests/test_combine.py:50-52 | "10M 3I 3M 2D 6M" parses to its five tuples: the spaces are passed over |
| Codec.ParseTestExamples | tests/test_cigarmath.py:22-37 | "30M" parses to one match of 30, "30S30M20S" to soft clip 30, match 30, soft clip 20 |
| Codec.FormatTestExamples | tests/test_cigarmath.py:22-37 | the tuples of those tests print, with the default empty separator, as "30M" and "30S30M20S" |
| Clipping.LeftClipping | cigarmath/clipping.py:11-26 | the result is the first op's length when that op is S, or H with `with_hard`, and 0 otherwise |
| Clipping.RightClipping | cigarmath/clipping.py:29-45 | the same on the last op |
| Clipping.ClippingMirror | cigarmath/clipping.py:22-45 | right clipping is left clipping of the reversed CIGAR, and the other way round |
| Clipping.DeclipSlice | cigarmath/clipping.py:60-73 | declip is the contiguous slice without the first op if it is a clip and without the last op if it is a clip; a lone clip gives the empty list |
| Clipping.DeclipUnclipped | cigarmath/clipping.py:73 | a CIGAR with no clip at either end comes back unchanged |
| Clipping.DeclipKeepsInnerClip | cigarmath/clipping.py:60-72 | at most one op goes per side, so of two stacked clips the inner one stays |
| Clipping.DeclipMirror | cigarmath/clipping.py:60-73 | declipping commutes with reversal |
| Clipping.HardClippedIffLengthsDiffer | cigarmath/clipping.py:76-90 | with positive lengths, is_hard_clipped holds exactly when counting hard clips changes the left or the right clip length |
| Block.ReferenceBlock | cigarmath/block.py:35-49 | the reference block starts at `reference_start` and is `reference_offset` long |
| Block.QueryBlock | cigarmath/block.py:78-97 | the query block starts after the left clip, hard clips included, and is `query_offest` long |
| Block.ReferenceOffsetAppend | cigarmath/block.py:15-32 | one more op adds its length to reference_offset exactly when it is M, D, N, = or X: clips and insertions leave it, deletions extend it |
| Block.QueryOffsetAppend | cigarmath/block.py:52-75 | one more op adds its length to query_offest exactly when it is M, I, = or X: clips and deletions leave it |
| Block.ReferenceOffsetConcat | cigarmath/block.py:28-32 | reference_offset adds up over concatenation |
| Block.OverlapSymmetric | cigarmath/block.py:100-123 | the overlap length does not depend on the order of the blocks |
| Block.OverlapAdjacent | cigarmath/block.py:123 | blocks that touch overlap by 0 |
| Block.OverlapDisjoint | cigarmath/block.py:123 | disjoint blocks give minus the gap between them |
| Block.OverlapEncased | cigarmath/block.py:123 | a block inside another overlaps it by its own length |
| Block.OverlapIsIntersection | cigarmath/block.py:123 | the overlap length is positive exactly when some position lies in both blocks |
| Block.DocstringSpans | cigarmath/block.py:15-97 | for 3H4M1D3M2I3M4H the reference offset is 11, the reference block from 3 is (3, 14), the query offset 12 and the query block (3, 15); the docstrings print 10, (3, 13), 11 and (3, 12) |
| Block.DocstringOverlaps | cigarmath/block.py:100-123 | the docstring's two overlaps are 3 and -8, where it prints 4 and -7, because the spans are half-open |
| Inference.QueryLengthByKind | cigarmath/inference.py:12-25 | the inferred query length is the sum of the M, I, S, = and X lengths; any H, D, N or P length makes it less than the total |
| Inference.ReferenceLengthByKind | cigarmath/inference.py:28-41 | the inferred reference length is the sum of the M, D, N, = and X lengths, which is reference_offset |
| Inference.InferredLengthsAdditive | cigarmath/inference.py:25-41 | both inferred lengths add up over concatenation |
| Inference.QueryLengthIsOffsetPlusSoftClips | cigarmath/inference.py:25 | the inferred query length is query_offest plus the soft-clip lengths |
| Inference.DocstringLengths | cigarmath/inference.py:12-38 | for 3H4M1D3M2I3M4H the inferred query length is 12 (the docstring prints 19) and the inferred reference length is 11 |
| CigarMath.ReferenceDeletionBlocks | cigarmath/cigarmath.py:35-52 | the loop that advances `reference_start` yields the reference list of deletion spans |
| CigarMath.DeletionBlocksSound | cigarmath/cigarmath.py:48-52 | every reported span belongs to a D or N op at least `min_size` long, and starts at the start plus the reference length of the ops before it |
| CigarMath.DeletionBlockSource | cigarmath/cigarmath.py:48-52 | names the op index whose D or N op, at least `min_size` long, reported a given span at its reference position |
| CigarMath.DeletionBlocksComplete | cigarmath/cigarmath.py:48-52 | every D or N op at least `min_size` long is reported with its span |
| CigarMath.DeletionBlocksOrdered | cigarmath/cigarmath.py:48-52 | the spans are in reference order, do not overlap, and lie within the alignment's reference span |
| CigarMath.DeletionBlocksExampleShort | tests/test_block.py:90-122 | on 30M10D20S: (30, 40) from 0, (40, 50) from 10, nothing with a minimum of 20; 300M gives nothing |
| CigarMath.DeletionBlocksExampleLong | tests/test_block.py:107-115 | on 30M10N30M100D10M10I10M50N10M: three spans with the default minimum, two with a minimum of 20 |
| CigarMath.CollapseAdjacentBlocks | cigarmath/cigarmath.py:77-105 | the loop with `last_op` and `last_sz` yields the merge of neighbouring runs of one op, and the degenerate (None, 0) for an empty input |
| CigarMath.CollapseShape | cigarmath/cigarmath.py:83-105 | the merge is no longer than the input, empty only for an empty input, and starts and ends with the input's first and last ops |
| CigarMath.CollapseNoAdjacentSame | cigarmath/cigarmath.py:83-105 | no two neighbouring runs of the result have the same op |
| CigarMath.CollapseExpand | cigarmath/cigarmath.py:83-105 | the merge keeps the expanded per-unit op sequence |
| CigarMath.CollapseOfCollapsed | cigarmath/cigarmath.py:83-105 | a CIGAR without neighbouring runs of one op is its own merge |
| CigarMath.CollapseIdempotent | cigarmath/cigarmath.py:77-105 | merging twice is merging once |
| CigarMath.CollapseSumWhere | cigarmath/cigarmath.py:83-105 | every filtered length sum is kept, so the total, reference and query lengths are |
| CigarMath.CollapsePositive | cigarmath/cigarmath.py:83-105 | positive lengths stay positive |
| CigarMath.CollapseExamples | tests/test_cigarmath.py:76-94 | 30M passes through, 15M20M15I becomes 35M15I, and an empty input gives (None, 0) |
| CigarMath.SimplifyBlocks | cigarmath/cigarmath.py:55-74 | with `collapse` the result is the merge of the replaced runs; without, the replaced runs themselves |
| CigarMath.SimplifiedConsumption | cigarmath/cigarmath.py:71-74 | op by op, the replacement consumes the same spaces as the original and is never = or X; the reference, query and total lengths are kept |
| CigarMath.SimplifiedSums | cigarmath/cigarmath.py:71-74 | every length sum whose selector treats =, X and M alike is kept |
| CigarMath.SimplifyExamples | tests/test_cigarmath.py:43-73 | 30M20I passes through; 15=20X15I gives 15M20M15I, or 35M15I when merged |
| Iterators.CigarIterator | cigarmath/iterators.py:25-74 | the nested loops stepping the three counters yield the reference walk; cigarmath/mapping.py:13-62 carries a copy of the same walk |
| Iterators.LeadingWalk | cigarmath/iterators.py:42-55 | with a leading clip the walk starts with its records and the counters stand after it; otherwise it starts empty with the counters at -1 |
| Iterators.LeftClipIterator | cigarmath/iterators.py:77-88 | the leading clip yields one record per unit, numbered from 0 as both alignment and query position, without a reference position |
| Iterators.OpIterator | cigarmath/iterators.py:57-74 | the inner loop yields the op's records and moves each counter by the op's length exactly when the op consumes that space |
| Iterators.RecordsShape | cigarmath/iterators.py:42-74 | there is one record per unit of the CIGAR; record `k` has alignment index `k`, names an existing op and one of its units, in order |
| Iterators.RecordIsUnit | cigarmath/iterators.py:57-74 | each record is the record of its op index and unit index |
| Iterators.RecordKinds | cigarmath/iterators.py:66-85 | a record has a reference position exactly for reference-consuming ops, and a query position exactly for query-consuming ops and a leading clip |
| Iterators.ReferencePositionsDense | cigarmath/iterators.py:55-70 | the reference positions are `reference_start`, `reference_start + 1`, ... in order, one per reference-consuming unit |
| Iterators.QueryPositionsDense | cigarmath/iterators.py:42-71 | the query positions are 0, 1, 2, ... in order, for every query-consuming unit and every unit of a leading clip |
| Iterators.RecordsIncrease | cigarmath/iterators.py:57-71 | along the walk, reference positions strictly increase, and so do query positions |
| Iterators.ReferenceSlice | cigarmath/iterators.py:91-113 | the loop with the `started` flag and the `break` yields the reference slice of the walk |
| Iterators.ReferenceSliceIsRun | cigarmath/iterators.py:96-113 | the slice is one contiguous run of the walk: it starts at the first in-region reference position, holds every in-region reference position and no other, keeps the insertions and clips in between once started, and stops at the first position at or past the region end |
| Iterators.IteratorExample | tests/test_iterators.py:101-117 | 1S2M2I1M2D1M2S from reference position 2 yields exactly the 11 listed records |
| Iterators.SliceExamples | tests/test_iterators.py:120-147 | the four slices of that walk: no bounds, from 5, up to 5, and from 4 to 7 |
| Mapping.Reference2Query | cigarmath/mapping.py:87-107 | yields the query position of every record that has a reference position, in order |
| Mapping.Query2Reference | cigarmath/mapping.py:110-129 | yields the reference position of every record that has a query position, in order |
| Mapping.Query2Cigar | cigarmath/mapping.py:132-152 | yields the (op index, unit index) of every record that has a query position, in order |
| Mapping.R2QLength | cigarmath/mapping.py:105-107 | reference2query has one entry per reference position: reference_offset, which is the inferred reference length |
| Mapping.QueryMapsLength | cigarmath/mapping.py:127-152 | query2reference and query2cigar are equally long: the inferred query length plus a leading hard clip, while a trailing hard clip adds nothing |
| Mapping.MapsInverse | cigarmath/mapping.py:105-129 | where both are defined the maps are inverse: reference position `rs + i` maps to `q` exactly when `q` maps back to `rs + i` |
| Mapping.MapGaps | cigarmath/mapping.py:105-152 | reference2query is None exactly across D and N; query2reference is None exactly on I, S and H, read off through query2cigar |
| Mapping.R2QIncrease | cigarmath/mapping.py:105-107 | the query positions in reference2query strictly increase |
| Mapping.Q2RIncrease | cigarmath/mapping.py:127-129 | the reference positions in query2reference strictly increase |
| Mapping.MapExamples | tests/test_mapping.py:112-154 | the three maps of 1S2M2I1M2D1M2S from 2, as the tests and the docstrings list them |
| Combine.Trim | cigarmath/combine.py:84-137 | the loop counting down `to_trim`, adding up `ref_pos_delta` and appending, or inserting in front, computes the reference trim |
| Combine.TrimmedNothing | cigarmath/combine.py:99-100 | a trim of 0 or less returns the input and a shift of 0 |
| Combine.TrimmedCounts | cigarmath/combine.py:112-137 | exactly `trim_amount` query units go, or all of them when there are fewer; the shift is the reference length removed |
| Combine.TrimmedEverything | cigarmath/combine.py:112-132 | asking for more query units than there are drops every op, and the shift is the whole reference length |
| Combine.TrimmedShape | cigarmath/combine.py:107-135 | with positive lengths, the result is a tail of the input (from the start) or a head of it (from the end) in the original order, at most one op is shortened, and no op is empty |
| Combine.TrimWalkShift | cigarmath/combine.py:112-132 | the shift the walk reports is the reference length it removed: the input's reference length less that of what it kept |
| Combine.TrimAlignment | cigarmath/combine.py:140-194 | trim_alignment computes its reference definition |
| Combine.TrimAlignmentOutcome | cigarmath/combine.py:168-172 | nothing to trim returns the input unchanged before the mode is checked; otherwise it fails exactly for a mode other than None, 'soft' or 'hard', with that ValueError |
| Combine.TrimAlignmentStart | cigarmath/combine.py:175-194 | the new start is the old one plus the reference length the left trim removed; a right trim does not move it |
| Combine.TrimAlignmentQueryLength | cigarmath/combine.py:174-192 | trims within the read take `left + right` query units off, or none with soft clips put back |
| Combine.TrimAlignmentClips | cigarmath/combine.py:182-192 | a mode puts (clip, left) first only when left > 0 and (clip, right) last only when right > 0, around the unclipped trim |
| Combine.TrimAlignmentExamplesDeletion | tests/test_combine.py:10-30 | 5M1D3M at 10 trimmed by 2 on the left, on the right, and on both sides |
| Combine.TrimAlignmentExamplesClipped | tests/test_combine.py:82-102 | the same with soft and hard clips, and the ValueError for an unknown mode |
| Combine.TrimAlignmentExampleInsertion | tests/test_combine.py:31-43 | 5M2I3M less 6 on the left is 1I3M at 15; no trim returns the input |
| Combine.TrimAlignmentExamplesSpanning | tests/test_combine.py:45-79 | 10M3I3M2D6M less 12, 15 and 18 on the left, across several ops |
| Combine.CombineAdjacent | cigarmath/combine.py:10-82 | combine_adjacent_alignments computes its reference definition |
| Combine.CombineAdjacentOutcome | cigarmath/combine.py:36-58 | the exact failure conditions: the AssertionError when the first does not start first, the IndexError of an empty CIGAR, and no other error |
| Combine.CombineAdjacentShape | cigarmath/combine.py:36-82 | the result keeps the first's start, is never empty, has no neighbouring runs of one op, and is the merge of the joined ops |
| Combine.CombineAdjacentGap | cigarmath/combine.py:42-52 | with a gap or touching: the units are the first's, one D per gap position, then the second's; the result ends on the reference where the second ends; the query lengths add up |
| Combine.CombinedAcrossGap | cigarmath/combine.py:47-82 | with a gap the result is the merge of first + D(gap) + second, and without one the merge of first + second |
| Combine.CombineAcrossGap | cigarmath/combine.py:47-52 | with a gap and no neighbouring runs of one op in first + D(gap) + second, the result is exactly that list at the first's start |
| Combine.CombineAdjacentOverlap | cigarmath/combine.py:54-76 | with an overlap the second loses `overlap` query units off its start: the units are the first's then the trimmed second's, and the lengths follow |
| Combine.CombineAdjacentExampleGap | tests/test_combine.py:105-126 | 5M3S at 5 and 5S3M at 15 give 5M5D3M at 5 |
| Combine.CombineAdjacentExampleOverlap | tests/test_combine.py:129-148 | 12M17S at 5 and 12S3M2D8M2I4M at 10 give 16M2I4M at 5 |
| Combine.CombineAdjacentExampleTouching | tests/test_combine.py:150-156 | 5M at 10 and 3M at 15 give 8M |
| Combine.SortSorted | cigarmath/combine.py:227-231 | the sort orders the alignments by query start and is a permutation |
| Combine.SortStable | cigarmath/combine.py:227-231 | alignments with equal query starts keep their relative order |
| Combine.CombineMultiple | cigarmath/combine.py:196-266 | combine_multiple_alignments computes its reference definition |
| Combine.Validate | cigarmath/combine.py:233-259 | the loop with `prev_query_end` and `prev_ref_end` raises the first failing check's error |
| Combine.FoldAll | cigarmath/combine.py:261-266 | the loop folds combine_adjacent_alignments over the sorted list from its first element |
| Combine.ViolationMeans | cigarmath/combine.py:238-259 | the validation passes exactly when every consecutive pair passes its check |
| Combine.ViolationFirst | cigarmath/combine.py:238-259 | a failing validation reports the first failing pair |
| Combine.ViolationKinds | cigarmath/combine.py:242-256 | validation raises only the query-overlap or the not-sequential error |
| Combine.FoldAnchor | cigarmath/combine.py:261-266 | a successful fold keeps the start of the alignment it started from and leaves no neighbouring runs of one op |
| Combine.FoldOrdered | cigarmath/combine.py:261-266 | a fold along reference-ordered alignments succeeds, ends where the last one ends, and keeps every aligned query base |
| Combine.FoldOfOrdered | cigarmath/combine.py:262-266 | folding a reference-ordered list from its first element succeeds, keeps its start, ends where the last one ends, and keeps every aligned query base |
| Combine.QueryOffsetsPermutation | cigarmath/combine.py:227-231 | reordering keeps the total of aligned query bases |
| Combine.CombinedMultipleSeveral | cigarmath/combine.py:227-266 | with several non-empty alignments the result is the validation error, if any, or the fold of the sorted list |
| Combine.CombineMultipleAnchor | cigarmath/combine.py:222-266 | a successful combination of several starts where the first alignment on the read starts, and has no neighbouring runs of one op |
| Combine.CombineMultipleNoOverlap | cigarmath/combine.py:233-266 | with no overlap allowed and every part covering reference, only the two validation errors can happen; success spans from the first start to the last end and keeps every aligned query base |
| Combine.CombineMultipleExamplesSmall | tests/test_combine.py:240-262 | an empty list raises, a single alignment comes back unchanged, and two out of order on the reference raise (the query-overlap check fails first) |
| Combine.CombineMultipleExampleThreeParts | tests/test_combine.py:160-198 | the three-part example combines across two gaps |
| Combine.CombineMultipleExampleOverlapping | tests/test_combine.py:200-238 | the overlapping example raises the not-sequential error with no overlap allowed and combines with 10 allowed |
| Combine.CombineMultipleDocstringExample | cigarmath/combine.py:212-266 | the docstring's three alignments with two units of overlap allowed raise the query-overlap ValueError: none is clipped, so all start the read at 0 |
| Pileup.Depth | cigarmath/pileup.py:13-78 | the loop adding counts to a copy of `previous_count` computes the reference counts |
| Pileup.CountReferenceRun | cigarmath/pileup.py:60-73 | the inner loop adds one count per unit and moves the positions as the op's kind says |
| Pileup.KindIsBranch | cigarmath/pileup.py:58-76 | the kind of an op is the branch of the loop's tests it takes |
| Pileup.KindByOp | cigarmath/pileup.py:58-76 | D and N record gaps; M, = and X record bases; I and S only move the query; H, P, B and T do nothing |
| Pileup.AdvanceByKind | cigarmath/pileup.py:71-76 | `query_pos` rises by 1 per M, = or X unit and by the length for I and S, and never for H, D, N or P; `ref_pos` rises per reference unit |
| Pileup.TallyCounts | cigarmath/pileup.py:64-70 | the counts add exactly the matching events to each count |
| Pileup.TallyPositions | cigarmath/pileup.py:50-70 | a position gets a counter exactly when it had one or is touched, and untouched positions keep theirs |
| Pileup.EventsPositions | cigarmath/pileup.py:55-73 | the walk records one event per covered reference position, at consecutive positions |
| Pileup.EventsConcat | cigarmath/pileup.py:55-76 | the walk over a concatenation is the first part's walk, then the second's from where the first stops |
| Pileup.EventsAt | cigarmath/pileup.py:60-72 | unit `u` of a reference op records, at its reference position, '-' for D and N, and otherwise the query base at the query length of the ops before it plus `u`, or '.' when there is none |
| Pileup.DepthCounts | cigarmath/pileup.py:50-76 | each covered position gets exactly one more count, of its recorded character; the others keep their previous counts |
| Pileup.DepthCovered | cigarmath/pileup.py:50-73 | the counter at a covered position is the previous one with its character counted once more |
| Pileup.FreshRows | cigarmath/pileup.py:50-73 | without previous counts, each covered position holds one count of its character |
| Pileup.BasicDepth | tests/test_pileup.py:7-33 | 4M2I2M2D3M against AAAAACCGGCC |
| Pileup.ReferenceStartDepth | tests/test_pileup.py:35-48 | 3M2D2M from position 10 |
| Pileup.NoQuerySequenceDepth | tests/test_pileup.py:50-61 | without a query sequence every aligned base counts as '.' |
| Pileup.PreviousCountDepth | tests/test_pileup.py:63-79 | a second read counted on top of the first |
| Pileup.SkippedRegionDepth | tests/test_pileup.py:81-93 | a skipped region counts as '-' |
| Pileup.DocstringDepth | cigarmath/pileup.py:30-47 | for 4M1D3M2I3M over AAAAACCGGCCC the counts cover reference positions 0 to 10: A at 0-3, '-' at 4, A at 5 and C at 6-10, so position 10, which the docstring omits, is counted too |
| Conversions.CigarTuplesToPairs | cigarmath/conversions.py:50-90 | the method that extends `query` and `reference` step by step computes the as-written pairs, or the IndexError; the same holds for the copy in plotting/aligned_pairs.py |
| Conversions.AddLeftClip | cigarmath/conversions.py:55-60 | the left clip puts `range(left_clip + 1)` into `query` and `left_clip` fills into `reference` |
| Conversions.AddOp | cigarmath/conversions.py:62-79 | one pass of the loop is one step of the walk, `query[-1]` failing on an empty list |
| Conversions.AddRightClip | cigarmath/conversions.py:83-88 | the right clip continues `query` and adds fills to `reference` |
| Conversions.BuildErrors | cigarmath/conversions.py:55-86 | in both variants, the exact failure conditions: an empty CIGAR, or, without a left clip, a non-query op before any query op or a right clip with no query op before it; nothing else fails |
| Conversions.BuildLength | cigarmath/conversions.py:55-90 | the output is left clip + declipped lengths + right clip long: zip drops the extra query entry; the same holds for the copy in plotting/aligned_pairs.py |
| Conversions.BuildClips | cigarmath/conversions.py:55-88 | a left clip of k gives the pairs (0..k-1, fill) first; a right clip gives trailing pairs with the fill; the same holds for the copy in plotting/aligned_pairs.py |
| Conversions.WalkStarves | cigarmath/conversions.py:62-70 | without a left clip the walk fails exactly when a non-query op comes before any query op, and `query` stays empty exactly when nothing has added to it |
| Conversions.WalkLengths | cigarmath/conversions.py:58-79 | after the walk, `reference` holds the clip and one entry per unit, and `query` one more when clipped |
| Conversions.WalkKeepsStart | cigarmath/conversions.py:62-81 | the loop only appends: a successful walk extends both lists it started from |
| Conversions.WalkErrorPersists | cigarmath/conversions.py:63-70 | once `query[-1]` has failed, the later ops do not change the outcome |
| Conversions.PairsClosedForm | cigarmath/conversions.py:62-90 | when no reference entry before an op is 0 and the fill is not truthy, the pairs are the closed form: insertions repeat the reference coordinate, deletions the query coordinate; the same holds for the copy in plotting/aligned_pairs.py |
| Conversions.CorrectedPairsClosedForm | cigarmath/conversions.py:55-90 | the corrected variant is that closed form for every CIGAR |
| Conversions.PairsAllMatch | cigarmath/plotting/aligned_pairs.py:22-39 | an all-M CIGAR from a positive reference start, or of one op, gives (i, reference_start + i), both as written and corrected; the copy's loop is cigarmath/conversions.py:62-79 |
| Conversions.PairsExampleMatch | tests/test_aligned_pairs.py:5-21 | 5M from 0 and from 5 |
| Conversions.PairsExampleInsertion | tests/test_aligned_pairs.py:23-37 | 2M2I3M from 5: the insertion repeats reference position 6 |
| Conversions.PairsExampleDeletion | tests/test_aligned_pairs.py:38-51 | 2M2D3M from 1: the deletion repeats query position 1 |
| Conversions.PairsExampleClipped | tests/test_aligned_pairs.py:53-65 | 2S5M3H from 5: fills for both clips |
| Conversions.PairsFalsyRestart | cigarmath/conversions.py:72 | as written, 1M1I1M from 0 gives (1, -1) and (2, 0) |
| Conversions.CorrectedPairsFalsyRestart | cigarmath/conversions.py:72 | corrected, it gives (1, 0) and (2, 1) |
| Conversions.PairsTruthyFill | cigarmath/conversions.py:72 | as written, 2S5M from 5 with fill -1 numbers the reference from 0 |
| Conversions.CorrectedPairsTruthyFill | cigarmath/conversions.py:72 | corrected, from 5 |
| Conversions.PairsGapAfterClip | cigarmath/conversions.py:58 | as written, 1S1M1D1M from 10 puts the deletion at query position 2 |
| Conversions.CorrectedPairsGapAfterClip | cigarmath/conversions.py:58 | corrected, at query position 1 |

## Left out

- io.py: pysam file I/O and a progress bar, outside the arithmetic core.
- plotting.py and plotting/binary_map.py: numpy arrays and matplotlib drawing.
- `segments_to_binary` in conversions.py, plotting.py and binary_map.py: it calls `reference_mapping_blocks`, which block.py does not define.
- `liftover`, `msa2cigartuples`, `softclipify` and `_decide_softclip_end`: the tests exercise them, but their source is not part of this model.
- The `verbose` prints of `cigartuples2pairs` and the prints at combine.py:70-71: debug output with no effect on results.
- Inference.ReferenceLengthByKind: `inferred_reference_length` uses `CONSUMES_REFERENCE` without importing it (inference.py:8), so it raises NameError when called. The model gives the sum the function evidently means.
- `CigarTuples`, which combine.py and pileup.py import from defn.py, is not defined there: the model defines it as `seq<(Op, nat)>`. Positive lengths are a separate predicate, required only where a property needs it.
- Op codes as integers: the model's CIGAR holds `Op` values. An integer outside 0-10 in a CIGAR cannot be written down, so the `IndexError` of `get_ntrqc_qty` and the `KeyError`s of code lookups on such a code are not modelled. Defn.OpOfCode covers the conversion itself.
- Codec.ParseTuples: `int()` is modelled on ASCII text. Python also strips Unicode whitespace and accepts non-ASCII decimal digits; those inputs are not covered.
- Clipping.LeftClipping, Clipping.RightClipping, Clipping.Declip, Clipping.IsHardClipped and Block.QueryBlock require a non-empty CIGAR. The source indexes `[0]` or `[-1]` and raises IndexError on an empty one. Where callers can reach that case, the error is modelled as a value in the caller.
- Iterators.CigarIterator, Iterators.ReferenceSlice, Mapping.Reference2Query, Mapping.Query2Reference and Mapping.Query2Cigar require a non-empty CIGAR for the same reason (`cigartuples[0]` at iterators.py:42).
- Iterators.CigarIterator: the missing `CLIPPING` set is taken to be {S, H}. As written the import fails and iterators.py and mapping.py do not load; the membership of `H` in particular is an assumption, since no source line names the set's contents.
- Pileup.Depth: `counts.update(previous_count)` shares the previous Counters, so the source also changes the caller's `previous_count`. The model returns the result value only.
- Pileup.Depth: the counts are `map<int, map<char, nat>>`. A defaultdict's habit of creating an empty Counter on a read is not visible, because the model reads through `Row`, which gives an empty counter for a missing position.
- Conversions.CigarTuplesToPairs: `clipping_fill` is `None` or an integer. Python accepts any object, and the truthiness of other objects is not modelled.
- Combine.TrimAlignment: `add_clipping` is `None` or a string. Other Python objects are not modelled.
- Generators are modelled by the whole sequence they yield. Laziness, and a `break` seen by a consumer, are not modelled.
- setup.py and `__init__.py`: packaging and re-exports only.

## Docstring examples

Some docstring examples disagree with the code. The tests agree with the code, so the
code is taken as intended and these are not listed as findings: each lemma below states
what the code gives on the docstring's input.

- block.py:23-88: `reference_offset`, `reference_block`, `query_offest` and `query_block` of 3H4M1D3M2I3M4H give 11, (3, 14), 12 and (3, 15), not 10, (3, 13), 11 and (3, 12) (Block.DocstringSpans).
- block.py:110-120: `block_overlap_length` gives 3 and -8, not 4 and -7 (Block.DocstringOverlaps).
- inference.py:21-22: `inferred_query_sequence_length` of 3H4M1D3M2I3M4H is 12, not 19 (Inference.DocstringLengths).
- pileup.py:35-47: `depth` of 4M1D3M2I3M also counts reference position 10, which the printed result leaves out (Pileup.DocstringDepth).
- combine.py:212-221: the example raises the query-overlap `ValueError` instead of returning (10, 5M2D7M2I7M) (Combine.CombineMultipleDocstringExample).

## Findings

| source | as written | input that shows it | evidently intended | confidence | as-written member | corrected member |
|---|---|---|---|---|---|---|
| cigarmath/conversions.py:72 | each op's reference start is `reference[-1]` only when that entry is truthy, and so restarts at `reference_start - 1` after an entry of 0 | 1M1I1M from reference position 0 gives (0, 0), (1, -1), (2, 0) | the insertion repeats reference 0 and the next match is at 1: (0, 0), (1, 0), (2, 1) | not executed | Conversions.PairsFalsyRestart | Conversions.CorrectedPairsFalsyRestart |
| cigarmath/conversions.py:72 | after a left clip a truthy `clipping_fill` is taken as the last reference coordinate | 2S5M from 5 with fill -1 numbers the match 0..4 | the match is at 5..9 whatever the fill | not executed | Conversions.PairsTruthyFill | Conversions.CorrectedPairsTruthyFill |
| cigarmath/conversions.py:58 | a left clip of k puts k + 1 entries into `query`, so zip pairs each later reference entry with the query entry before its own | 1S1M1D1M from 10 gives (2, 11) for the deletion and (2, 12) for the last match | the deletion repeats query position 1: (1, 11), then (2, 12) | not executed | Conversions.PairsGapAfterClip | Conversions.CorrectedPairsGapAfterClip |
