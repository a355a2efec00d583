/**
  The CIGAR string codec of defn.py: `cigarstr2tup` cuts the text after every
  op letter and reads the text since the previous letter with Python's `int()`;
  `cigartup2str` writes `<length><letter>` per tuple, joined by a separator.
 */
module Codec {
  import opened Wrappers
  import opened Defn

  /** What `cigarstr2tup` returns for a string: the tuples, or the ValueError
      that `int()` raises on the text `text`. */
  datatype ParseResult = Parsed(tuples: seq<(Op, int)>) | InvalidLiteral(text: string)

  /** The characters Python's `int()` strips: ASCII whitespace as `str.isspace` sees it. */
  predicate IsSpace(c: char) {
    (9 <= c as int <= 13) || (28 <= c as int <= 32)
  }

  predicate AllSpace(s: string) {
    forall i :: 0 <= i < |s| ==> IsSpace(s[i])
  }

  predicate IsDigit(c: char) {
    '0' <= c <= '9'
  }

  function StripLeft(s: string): (r: string)
  {
    if s != [] && IsSpace(s[0]) then StripLeft(s[1..]) else s
  }

  function StripRight(s: string): (r: string)
  {
    if s != [] && IsSpace(s[|s| - 1]) then StripRight(s[..|s| - 1]) else s
  }

  /** A decimal literal as `int()` accepts it: digits, single underscores between them. */
  predicate ValidDigits(b: string) {
    && |b| > 0 && IsDigit(b[0]) && IsDigit(b[|b| - 1])
    && (forall i :: 0 <= i < |b| ==> IsDigit(b[i]) || b[i] == '_')
    && (forall i :: 0 <= i < |b| - 1 ==> !(b[i] == '_' && b[i + 1] == '_'))
  }

  /** The value of the digits of `b`, underscores skipped. */
  function DigitsValue(b: string): nat {
    if b == [] then 0
    else if IsDigit(b[|b| - 1]) then 10 * DigitsValue(b[..|b| - 1]) + (b[|b| - 1] as int - '0' as int)
    else DigitsValue(b[..|b| - 1])
  }

  /** Python's `int(text)` in base 10: None where it raises ValueError. */
  function PyInt(text: string): Option<int> {
    var s := StripRight(StripLeft(text));
    if s == [] then None
    else
      var negative := s[0] == '-';
      var body := if s[0] == '-' || s[0] == '+' then s[1..] else s;
      var value: int := if negative then -(DigitsValue(body) as int) else DigitsValue(body);
      if ValidDigits(body) then Some(value)
      else None
  }

  /** The position of the first op letter in `s`, or `|s|` when there is none. */
  function FirstLetter(s: string): (k: nat)
    ensures k <= |s|
    ensures forall j :: 0 <= j < k ==> s[j] !in CigarSet
    ensures k < |s| ==> s[k] in CigarSet
  {
    if s == [] then 0
    else if s[0] in CigarSet then 0
    else 1 + FirstLetter(s[1..])
  }

  function Prepend(front: seq<(Op, int)>, r: ParseResult): ParseResult {
    match r
    case Parsed(t) => Parsed(front + t)
    case InvalidLiteral(e) => r
  }

  /** One cut: the text before the letter read by `int()`, then the rest of the string. */
  function Cut(text: string, letter: char, rest: ParseResult): ParseResult
    requires letter in CigarSet
  {
    match PyInt(text)
    case None => InvalidLiteral(text)
    case Some(n) => Prepend([(OpOfLetter(letter).value, n)], rest)
  }

  /** Reference definition of `cigarstr2tup` on a string: one tuple per op letter,
      its length the text since the previous letter; text after the last letter is ignored. */
  function ParseTuples(s: string): ParseResult
    decreases |s|
  {
    var k := FirstLetter(s);
    if k == |s| then Parsed([]) else Cut(s[..k], s[k], ParseTuples(s[k + 1..]))
  }

  /** The first letter is at `k` when `s[k]` is a letter and none comes before it. */
  lemma {:induction false} FirstLetterAt(s: string, k: nat)
    requires k < |s| && s[k] in CigarSet
    requires forall j :: 0 <= j < k ==> s[j] !in CigarSet
    ensures FirstLetter(s) == k
  {
  }

  /** When the letter at `k` is the first one, parsing cuts there. */
  lemma {:induction false} ParseAtLetter(s: string, k: nat)
    requires k < |s| && s[k] in CigarSet
    requires forall j :: 0 <= j < k ==> s[j] !in CigarSet
    ensures ParseTuples(s) == Cut(s[..k], s[k], ParseTuples(s[k + 1..]))
  {
    FirstLetterAt(s, k);
  }

  /** cigarstr2tup: `None` for `None`; otherwise the loop that advances `pta` to the
      character after every op letter and appends one tuple per letter. */
  method CigarStrToTup(cigarString: Option<string>) returns (r: Option<ParseResult>)
    ensures cigarString.None? ==> r.None?
    ensures cigarString.Some? ==> r == Some(ParseTuples(cigarString.value))
  {
    if cigarString.None? {
      return None;
    }
    var parsed := ParseString(cigarString.value);
    return Some(parsed);
  }

  /** The loop of cigarstr2tup over one string. */
  method ParseString(s: string) returns (r: ParseResult)
    ensures r == ParseTuples(s)
  {
    var tuples: seq<(Op, int)> := [];
    var pta := 0;
    ScanFromStart(s);
    for idx := 0 to |s|
      invariant pta <= idx
      invariant Scan(s, idx, pta, tuples) == ParseTuples(s)
    {
      if s[idx] in CigarSet {
        var text := s[pta..idx];
        var n := PyInt(text);
        ScanLetter(s, idx, pta, tuples);
        if n.None? {
          return InvalidLiteral(text);
        }
        tuples := tuples + [(OpOfLetter(s[idx]).value, n.value)];
        pta := idx + 1;
      } else {
        ScanOther(s, idx, pta, tuples);
      }
    }
    return Parsed(tuples);
  }

  /** The scan from the start, with nothing collected, is the parse. */
  lemma ScanFromStart(s: string)
    ensures Scan(s, 0, 0, []) == ParseTuples(s)
  {
    ScanIsParse(s, 0, 0, []);
    assert s[0..] == s;
    match ParseTuples(s)
    case Parsed(t) => assert [] + t == t;
    case InvalidLiteral(e) =>
  }

  /** At an op letter the scan stops on an invalid literal, or collects the tuple and goes
      on past the letter. */
  lemma ScanLetter(s: string, idx: nat, pta: nat, tuples: seq<(Op, int)>)
    requires pta <= idx < |s| && s[idx] in CigarSet
    ensures PyInt(s[pta..idx]).None? ==> Scan(s, idx, pta, tuples) == InvalidLiteral(s[pta..idx])
    ensures PyInt(s[pta..idx]).Some? ==>
      Scan(s, idx, pta, tuples) == Scan(s, idx + 1, idx + 1, tuples + [(OpOfLetter(s[idx]).value, PyInt(s[pta..idx]).value)])
  {
  }

  /** Any other character is passed over. */
  lemma ScanOther(s: string, idx: nat, pta: nat, tuples: seq<(Op, int)>)
    requires pta <= idx < |s| && s[idx] !in CigarSet
    ensures Scan(s, idx, pta, tuples) == Scan(s, idx + 1, pta, tuples)
  {
  }

  /** The loop of cigarstr2tup from position `idx`, with the text since `pta` not yet
      read and `tuples` collected so far. */
  function Scan(s: string, idx: nat, pta: nat, tuples: seq<(Op, int)>): ParseResult
    requires pta <= idx <= |s|
    decreases |s| - idx
  {
    if idx == |s| then Parsed(tuples)
    else if s[idx] !in CigarSet then Scan(s, idx + 1, pta, tuples)
    else match PyInt(s[pta..idx])
      case None => InvalidLiteral(s[pta..idx])
      case Some(n) => Scan(s, idx + 1, idx + 1, tuples + [(OpOfLetter(s[idx]).value, n)])
  }

  /** The scan agrees with the reference definition on the text it has not read yet. */
  lemma {:induction false} ScanIsParse(s: string, idx: nat, pta: nat, tuples: seq<(Op, int)>)
    requires pta <= idx <= |s|
    requires forall j :: pta <= j < idx ==> s[j] !in CigarSet
    ensures Scan(s, idx, pta, tuples) == Prepend(tuples, ParseTuples(s[pta..]))
    decreases |s| - idx
  {
    if idx == |s| {
      NothingLeft(s[pta..]);
      assert tuples + [] == tuples;
    } else if s[idx] !in CigarSet {
      ScanIsParse(s, idx + 1, pta, tuples);
    } else {
      CutStep(s, tuples, pta, idx);
      if PyInt(s[pta..idx]).Some? {
        ScanIsParse(s, idx + 1, idx + 1, tuples + [(OpOfLetter(s[idx]).value, PyInt(s[pta..idx]).value)]);
      }
    }
  }

  /** The loop's step at a letter: an invalid literal ends the parse, a valid one adds
      its tuple to those already read. */
  lemma CutStep(s: string, tuples: seq<(Op, int)>, pta: nat, idx: nat)
    requires pta <= idx < |s| && s[idx] in CigarSet
    requires forall j :: pta <= j < idx ==> s[j] !in CigarSet
    ensures PyInt(s[pta..idx]).None? ==> Prepend(tuples, ParseTuples(s[pta..])) == InvalidLiteral(s[pta..idx])
    ensures PyInt(s[pta..idx]).Some? ==>
      Prepend(tuples, ParseTuples(s[pta..])) == Prepend(tuples + [(OpOfLetter(s[idx]).value, PyInt(s[pta..idx]).value)], ParseTuples(s[idx + 1..]))
  {
    CutAt(s, pta, idx);
    if PyInt(s[pta..idx]).Some? {
      PrependTwice(tuples, [(OpOfLetter(s[idx]).value, PyInt(s[pta..idx]).value)], ParseTuples(s[idx + 1..]));
    }
  }

  /** The loop's step: the text from `pta` up to the letter at `idx` is cut off. */
  lemma {:induction false} CutAt(s: string, pta: nat, idx: nat)
    requires pta <= idx < |s| && s[idx] in CigarSet
    requires forall j :: pta <= j < idx ==> s[j] !in CigarSet
    ensures ParseTuples(s[pta..]) == Cut(s[pta..idx], s[idx], ParseTuples(s[idx + 1..]))
  {
    SuffixLayout(s, pta, idx);
    ParseAtLetter(s[pta..], idx - pta);
  }

  /** The suffix from `pta` seen from its own start. */
  lemma SuffixLayout(s: string, pta: nat, idx: nat)
    requires pta <= idx < |s| && s[idx] in CigarSet
    requires forall j :: pta <= j < idx ==> s[j] !in CigarSet
    ensures var t := s[pta..];
      && idx - pta < |t| && t[idx - pta] == s[idx]
      && (forall j :: 0 <= j < idx - pta ==> t[j] !in CigarSet)
      && t[..idx - pta] == s[pta..idx] && t[idx - pta + 1..] == s[idx + 1..]
  {
  }

  /** Text without a letter parses to no tuples. */
  lemma {:induction false} NothingLeft(s: string)
    requires forall j :: 0 <= j < |s| ==> s[j] !in CigarSet
    ensures ParseTuples(s) == Parsed([])
  {
    assert FirstLetter(s) == |s|;
  }

  lemma PrependTwice(a: seq<(Op, int)>, b: seq<(Op, int)>, r: ParseResult)
    ensures Prepend(a, Prepend(b, r)) == Prepend(a + b, r)
  {
    if r.Parsed? {
      assert a + (b + r.tuples) == (a + b) + r.tuples;
    }
  }

  function DigitChar(d: nat): char
    requires d < 10
  {
    ('0' as int + d) as char
  }

  /** Python's `str(n)` for a natural number. */
  function NatToString(n: nat): (r: string)
    ensures |r| > 0
    ensures forall i :: 0 <= i < |r| ==> IsDigit(r[i])
    decreases n
  {
    if n < 10 then [DigitChar(n)] else NatToString(n / 10) + [DigitChar(n % 10)]
  }

  /** Python's `str(n)` for an integer. */
  function IntToString(n: int): string {
    if n < 0 then "-" + NatToString(-n) else NatToString(n)
  }

  /** One formatted tuple, `f"{cnt}{CIGAR_HDRS[op]}"`. */
  function FormatItem(t: (Op, int)): string {
    IntToString(t.1) + [Letter(t.0)]
  }

  /** cigartup2str: the formatted tuples joined by `sep`. */
  function CigarTupToStr(t: seq<(Op, int)>, sep: string): string {
    if |t| == 0 then ""
    else if |t| == 1 then FormatItem(t[0])
    else FormatItem(t[0]) + sep + CigarTupToStr(t[1..], sep)
  }

  lemma {:induction false} NatToStringValue(n: nat)
    ensures ValidDigits(NatToString(n)) && DigitsValue(NatToString(n)) == n
    decreases n
  {
    var r := NatToString(n);
    if n >= 10 {
      NatToStringValue(n / 10);
      assert r[..|r| - 1] == NatToString(n / 10);
    }
  }

  lemma {:induction false} IntToStringValue(pre: string, n: int)
    requires AllSpace(pre)
    ensures PyInt(pre + IntToString(n)) == Some(n)
  {
    var s := IntToString(n);
    var d := NatToString(if n < 0 then -n else n);
    NatToStringValue(if n < 0 then -n else n);
    assert !IsSpace(s[0]);
    StripAround(pre, s);
    if n < 0 {
      assert s[1..] == d;
    } else {
      assert s == d;
    }
  }

  /** Leading whitespace goes; a word that neither starts nor ends with a space stays. */
  lemma {:induction false} StripAround(pre: string, s: string)
    requires AllSpace(pre)
    requires s != [] && !IsSpace(s[0]) && !IsSpace(s[|s| - 1])
    ensures StripRight(StripLeft(pre + s)) == s
  {
    if pre == [] {
      assert pre + s == s;
    } else {
      assert (pre + s)[1..] == pre[1..] + s;
      StripAround(pre[1..], s);
    }
  }

  /** Letters never occur in an integer literal or in whitespace. */
  lemma {:induction false} NoLettersIn(pre: string, n: int)
    requires AllSpace(pre)
    ensures forall j :: 0 <= j < |pre + IntToString(n)| ==> (pre + IntToString(n))[j] !in CigarSet
  {
  }

  /** One formatted tuple after whitespace parses to that tuple, then parsing goes on after it. */
  lemma {:induction false} ParseItem(s: string, pre: string, item: (Op, int), rest: string)
    requires AllSpace(pre) && s == pre + FormatItem(item) + rest
    ensures ParseTuples(s) == Prepend([item], ParseTuples(rest))
  {
    var head := pre + IntToString(item.1);
    ItemLayout(s, pre, item, rest);
    ParseAtLetter(s, |head|);
    IntToStringValue(pre, item.1);
  }

  /** Where the letter of a formatted tuple sits: after the number, with no letter before it. */
  lemma ItemLayout(s: string, pre: string, item: (Op, int), rest: string)
    requires AllSpace(pre) && s == pre + FormatItem(item) + rest
    ensures var head := pre + IntToString(item.1);
      && |head| < |s| && s[|head|] in CigarSet && OpOfLetter(s[|head|]) == Some(item.0)
      && (forall j :: 0 <= j < |head| ==> s[j] !in CigarSet)
      && s[..|head|] == head && s[|head| + 1..] == rest
  {
    var head := pre + IntToString(item.1);
    assert s == head + [Letter(item.0)] + rest;
    NoLettersIn(pre, item.1);
    assert s[|head|] == Letter(item.0);
    Defn.BamConstants();
    assert s[..|head|] == head;
    assert s[|head| + 1..] == rest;
  }

  /** What follows the first formatted tuple: nothing, or the separator and the others. */
  function FormattedTail(t: seq<(Op, int)>, sep: string): string
    requires |t| > 0
  {
    if |t| == 1 then "" else sep + CigarTupToStr(t[1..], sep)
  }

  /** The first step of parsing a formatted CIGAR: its first tuple, then the tail. */
  lemma {:induction false} ParseFormattedStep(pre: string, t: seq<(Op, int)>, sep: string)
    requires AllSpace(pre) && |t| > 0
    requires ParseTuples(FormattedTail(t, sep)) == Parsed(t[1..])
    ensures ParseTuples(pre + CigarTupToStr(t, sep)) == Parsed(t)
  {
    var tail := FormattedTail(t, sep);
    var s := pre + CigarTupToStr(t, sep);
    FormatStep(t, sep);
    assert s == pre + FormatItem(t[0]) + tail;
    ParseItem(s, pre, t[0], tail);
    assert ParseTuples(s) == Parsed([t[0]] + t[1..]);
    assert [t[0]] + t[1..] == t;
  }

  /** The formatted tuples are the first one formatted, then the tail. */
  lemma FormatStep(t: seq<(Op, int)>, sep: string)
    requires |t| > 0
    ensures CigarTupToStr(t, sep) == FormatItem(t[0]) + FormattedTail(t, sep)
  {
  }

  lemma {:induction false} ParseFormatted(pre: string, t: seq<(Op, int)>, sep: string)
    requires AllSpace(pre) && AllSpace(sep)
    ensures ParseTuples(pre + CigarTupToStr(t, sep)) == Parsed(t)
    decreases |t|
  {
    if |t| == 0 {
      assert pre + CigarTupToStr(t, sep) == pre;
      NothingLeft(pre);
    } else {
      if |t| == 1 {
        NothingLeft("");
      } else {
        ParseFormatted(sep, t[1..], sep);
      }
      ParseFormattedStep(pre, t, sep);
    }
  }

  /** Round trip: parsing the formatted tuples gives them back, for any whitespace separator
      (the empty one, and the spaces that `"10M 3I 3M"` shows are tolerated). */
  lemma {:induction false} RoundTrip(t: seq<(Op, int)>, sep: string)
    requires AllSpace(sep)
    ensures ParseTuples(CigarTupToStr(t, sep)) == Parsed(t)
  {
    ParseFormatted("", t, sep);
    assert "" + CigarTupToStr(t, sep) == CigarTupToStr(t, sep);
  }

  /** A formatted CIGAR, with spaces between the blocks. */
  lemma FormatSpacedExample(t: seq<(Op, int)>)
    requires t == [(M, 10), (I, 3), (M, 3), (D, 2), (M, 6)]
    ensures CigarTupToStr(t, " ") == "10M 3I 3M 2D 6M"
  {
    assert NatToString(10) == NatToString(1) + [DigitChar(0)];
    assert FormatItem(t[0]) == "10M";
    assert FormatItem(t[1]) == "3I";
    FormatSpacedTail(t[1..][1..]);
    assert CigarTupToStr(t[1..], " ") == "3I" + " " + "3M 2D 6M";
  }

  /** The last three blocks of the spaced example. */
  lemma FormatSpacedTail(t: seq<(Op, int)>)
    requires t == [(M, 3), (D, 2), (M, 6)]
    ensures CigarTupToStr(t, " ") == "3M 2D 6M"
  {
    assert FormatItem(t[0]) == "3M" && FormatItem(t[1]) == "2D" && FormatItem(t[2]) == "6M";
    assert t[1..][1..] == [t[2]];
    assert CigarTupToStr(t[1..], " ") == "2D" + " " + "6M";
  }

  /** Spaces between blocks are passed over: the spaced CIGAR parses to its five tuples. */
  lemma ParseSpacedExample(s: string, t: seq<(Op, int)>)
    requires s == "10M 3I 3M 2D 6M"
    requires t == [(M, 10), (I, 3), (M, 3), (D, 2), (M, 6)]
    ensures ParseTuples(s) == Parsed(t)
  {
    FormatSpacedExample(t);
    assert AllSpace(" ");
    RoundTrip(t, " ");
  }

  /** The CIGARs of test_cigarmath.py written out without a separator. */
  lemma FormatTestExamples(t1: seq<(Op, int)>, t2: seq<(Op, int)>)
    requires t1 == [(M, 30)]
    requires t2 == [(S, 30), (M, 30), (S, 20)]
    ensures CigarTupToStr(t1, "") == "30M"
    ensures CigarTupToStr(t2, "") == "30S30M20S"
  {
    assert NatToString(30) == NatToString(3) + [DigitChar(0)];
    assert NatToString(20) == NatToString(2) + [DigitChar(0)];
    assert FormatItem(t1[0]) == "30M";
    assert FormatItem(t2[0]) == "30S" && FormatItem(t2[1]) == "30M" && FormatItem(t2[2]) == "20S";
    assert t2[1..][1..] == [t2[2]];
    assert CigarTupToStr(t2[1..], "") == "30M" + "" + "20S";
  }

  /** cigarstr2tup on the CIGARs of test_cigarmath.py: 30M, and 30S30M20S. */
  lemma ParseTestExamples(s1: string, t1: seq<(Op, int)>, s2: string, t2: seq<(Op, int)>)
    requires s1 == "30M" && t1 == [(M, 30)]
    requires s2 == "30S30M20S" && t2 == [(S, 30), (M, 30), (S, 20)]
    ensures ParseTuples(s1) == Parsed(t1)
    ensures ParseTuples(s2) == Parsed(t2)
  {
    FormatTestExamples(t1, t2);
    assert AllSpace("");
    RoundTrip(t1, "");
    RoundTrip(t2, "");
  }
}
