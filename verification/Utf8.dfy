/**
 * Decoding bytes as UTF-8 with replacement characters, and splitting text into lines, as the
 * readers of log files do.
 */
module Utf8 {

  newtype byte = x: int | 0 <= x < 256

  /** A Unicode code point. */
  type point = nat

  const REPLACEMENT: point := 0xFFFD
  const LF: byte := 10

  predicate Continues(b: byte) {
    0x80 <= b < 0xC0
  }

  /** How many bytes the sequence with this lead byte has; 0 for a byte that cannot lead. */
  function SequenceLength(lead: byte): nat {
    if lead < 0x80 then 1
    else if 0xC2 <= lead < 0xE0 then 2
    else if 0xE0 <= lead < 0xF0 then 3
    else if 0xF0 <= lead < 0xF5 then 4
    else 0
  }

  /** The second byte is restricted for some lead bytes (overlong forms, surrogates, the upper limit). */
  predicate SecondAllowed(lead: byte, b: byte) {
    && Continues(b)
    && (lead == 0xE0 ==> b >= 0xA0)
    && (lead == 0xED ==> b < 0xA0)
    && (lead == 0xF0 ==> b >= 0x90)
    && (lead == 0xF4 ==> b < 0x90)
  }

  /** The length of the longest prefix that could still become the sequence. */
  function GoodPrefix(s: seq<byte>): (n: nat)
    requires s != [] && SequenceLength(s[0]) > 0
    ensures 1 <= n <= SequenceLength(s[0]) && n <= |s|
  {
    var k := SequenceLength(s[0]);
    if k == 1 || |s| == 1 || !SecondAllowed(s[0], s[1]) then 1
    else if k == 2 || |s| == 2 || !Continues(s[2]) then 2
    else if k == 3 || |s| == 3 || !Continues(s[3]) then 3
    else 4
  }

  function CodePoint(s: seq<byte>): point
    requires |s| > 0 && SequenceLength(s[0]) == |s|
  {
    if |s| == 1 then s[0] as nat
    else if |s| == 2 then (s[0] as nat % 0x20) * 0x40 + s[1] as nat % 0x40
    else if |s| == 3 then
      ((s[0] as nat % 0x10) * 0x40 + s[1] as nat % 0x40) * 0x40 + s[2] as nat % 0x40
    else
      (((s[0] as nat % 8) * 0x40 + s[1] as nat % 0x40) * 0x40 + s[2] as nat % 0x40) * 0x40
      + s[3] as nat % 0x40
  }

  /** The first decoded point and how many bytes it consumed. */
  function First(s: seq<byte>): (r: (point, nat))
    requires s != []
    ensures 1 <= r.1 <= |s|
  {
    if SequenceLength(s[0]) == 0 then (REPLACEMENT, 1)
    else
      var n := GoodPrefix(s);
      if n == SequenceLength(s[0]) then (CodePoint(s[..n]), n) else (REPLACEMENT, n)
  }

  function Decode(s: seq<byte>): seq<point> {
    if s == [] then []
    else var (p, n) := First(s); [p] + Decode(s[n..])
  }

  // ---- Lines ----

  /** The line boundaries of splitlines. */
  predicate IsBreak(p: point) {
    (10 <= p <= 13) || (0x1C <= p <= 0x1E) || p == 0x85 || p == 0x2028 || p == 0x2029
  }

  /** The length of the line break at the start: CR LF is one break. */
  function BreakLength(text: seq<point>): (n: nat)
    requires text != [] && IsBreak(text[0])
    ensures 1 <= n <= |text|
  {
    if text[0] == 13 && |text| > 1 && text[1] == 10 then 2 else 1
  }

  /** The number of points before the first break. */
  function LineLength(text: seq<point>): (n: nat)
    ensures n <= |text| && (n < |text| ==> IsBreak(text[n]))
    ensures forall i | 0 <= i < n :: !IsBreak(text[i])
  {
    if text == [] || IsBreak(text[0]) then 0 else 1 + LineLength(text[1..])
  }

  /** Lines without their breaks; a break at the end opens no further line. */
  function SplitLines(text: seq<point>): seq<seq<point>>
    decreases |text|
  {
    if text == [] then []
    else
      var n := LineLength(text);
      if n == |text| then [text]
      else [text[..n]] + SplitLines(text[n + BreakLength(text[n..])..])
  }

  function Last<T>(s: seq<T>, n: nat): seq<T> {
    if |s| <= n then s else s[|s| - n..]
  }

  // ---- A line feed separates what is before it from what is after it ----

  /** A line feed never continues a sequence, so it ends whatever was being decoded. */
  lemma FirstStopsAtLineFeed(a: seq<byte>, b: seq<byte>)
    requires a != []
    ensures First(a + [LF] + b) == First(a)
  {
    var s := a + [LF] + b;
    assert s[0] == a[0];
    assert forall i | 0 <= i < |a| :: s[i] == a[i];
    assert s[|a|] == LF;
    if SequenceLength(a[0]) > 0 {
      assert GoodPrefix(s) == GoodPrefix(a);
      assert s[..GoodPrefix(a)] == a[..GoodPrefix(a)];
    }
  }

  lemma {:induction false} DecodeSplitsAtLineFeed(a: seq<byte>, b: seq<byte>)
    ensures Decode(a + [LF] + b) == Decode(a) + [10] + Decode(b)
    decreases |a|
  {
    if a == [] {
      assert a + [LF] + b == [LF] + b;
      assert ([LF] + b)[1..] == b && ([LF] + b)[..1] == [LF];
      assert First([LF] + b) == (10, 1);
    } else {
      FirstStopsAtLineFeed(a, b);
      var n := First(a).1;
      assert (a + [LF] + b)[n..] == a[n..] + [LF] + b;
      DecodeSplitsAtLineFeed(a[n..], b);
    }
  }

  // ---- Decoding undoes encoding ----

  /** The code points that UTF-8 encodes: all but the surrogates. */
  predicate IsScalar(p: point) {
    p < 0xD800 || 0xE000 <= p < 0x110000
  }

  /** A continuation byte that carries six bits. */
  function Tail(bits: nat): (b: byte)
    ensures Continues(b) && b as nat % 0x40 == bits % 0x40
  {
    (0x80 + bits % 0x40) as byte
  }

  /** The encoding of section 3 of RFC 3629. */
  function Encode(p: point): (s: seq<byte>)
    requires IsScalar(p)
    ensures s != []
  {
    if p < 0x80 then [p as byte]
    else if p < 0x800 then [(0xC0 + p / 0x40) as byte, Tail(p)]
    else if p < 0x10000 then [(0xE0 + p / 0x1000) as byte, Tail(p / 0x40), Tail(p)]
    else [(0xF0 + p / 0x40000) as byte, Tail(p / 0x1000), Tail(p / 0x40), Tail(p)]
  }

  function EncodeAll(points: seq<point>): seq<byte>
    requires forall p | p in points :: IsScalar(p)
  {
    if points == [] then [] else Encode(points[0]) + EncodeAll(points[1..])
  }

  lemma TwoBytes(p: point)
    requires 0x80 <= p < 0x800
    ensures var lead := (0xC0 + p / 0x40) as byte;
      SequenceLength(lead) == 2 && SecondAllowed(lead, Tail(p)) && CodePoint([lead, Tail(p)]) == p
  {}

  lemma ThreeBytes(p: point)
    requires 0x800 <= p < 0x10000 && IsScalar(p)
    ensures var lead := (0xE0 + p / 0x1000) as byte;
      && SequenceLength(lead) == 3 && SecondAllowed(lead, Tail(p / 0x40))
      && CodePoint([lead, Tail(p / 0x40), Tail(p)]) == p
  {}

  lemma FourDigits(p: nat)
    ensures p == ((p / 0x40000 * 0x40 + p / 0x1000 % 0x40) * 0x40 + p / 0x40 % 0x40) * 0x40 + p % 0x40
  {
    assert p / 0x1000 == p / 0x40 / 0x40 && p / 0x40000 == p / 0x1000 / 0x40;
  }

  lemma FourBytes(p: point)
    requires 0x10000 <= p && IsScalar(p)
    ensures var lead := (0xF0 + p / 0x40000) as byte;
      && SequenceLength(lead) == 4 && SecondAllowed(lead, Tail(p / 0x1000))
      && CodePoint([lead, Tail(p / 0x1000), Tail(p / 0x40), Tail(p)]) == p
  {
    FourDigits(p);
  }

  lemma FirstOfEncoded(p: point, rest: seq<byte>)
    requires IsScalar(p)
    ensures First(Encode(p) + rest) == (p, |Encode(p)|)
  {
    var s := Encode(p) + rest;
    assert s[..|Encode(p)|] == Encode(p);
    if p < 0x80 {
    } else if p < 0x800 {
      TwoBytes(p);
    } else if p < 0x10000 {
      ThreeBytes(p);
    } else {
      FourBytes(p);
    }
  }

  /** Text that was written as UTF-8 is read as it was written, without a replacement. */
  lemma {:induction false} DecodeUndoesEncode(points: seq<point>)
    requires forall p | p in points :: IsScalar(p)
    ensures Decode(EncodeAll(points)) == points
  {
    if points != [] {
      var rest := EncodeAll(points[1..]);
      FirstOfEncoded(points[0], rest);
      assert (Encode(points[0]) + rest)[|Encode(points[0])|..] == rest;
      DecodeUndoesEncode(points[1..]);
    }
  }

  // ---- Nothing else is accepted ----

  /** A sequence whose lead byte, second byte and other bytes fit together. */
  predicate WellFormed(w: seq<byte>) {
    && w != [] && SequenceLength(w[0]) == |w|
    && (|w| > 1 ==> SecondAllowed(w[0], w[1]))
    && forall i | 1 < i < |w| :: Continues(w[i])
  }

  lemma EncodedIsWellFormed(p: point)
    requires IsScalar(p)
    ensures WellFormed(Encode(p))
  {}

  lemma TwoBytesEncode(w: seq<byte>)
    requires WellFormed(w) && |w| == 2
    ensures IsScalar(CodePoint(w)) && Encode(CodePoint(w)) == w
  {
    var a, b := w[0] as nat - 0xC0, w[1] as nat - 0x80;
    assert CodePoint(w) == 0x40 * a + b;
  }

  lemma ThreeBytesEncode(w: seq<byte>)
    requires WellFormed(w) && |w| == 3
    ensures IsScalar(CodePoint(w)) && Encode(CodePoint(w)) == w
  {
    var a, b, c := w[0] as nat - 0xE0, w[1] as nat - 0x80, w[2] as nat - 0x80;
    var p := CodePoint(w);
    assert p == (a * 0x40 + b) * 0x40 + c;
    assert p / 0x40 == a * 0x40 + b && p / 0x1000 == a;
  }

  lemma DigitsOf(a: nat, b: nat, c: nat, d: nat)
    requires b < 0x40 && c < 0x40 && d < 0x40
    ensures var p := ((a * 0x40 + b) * 0x40 + c) * 0x40 + d;
      p / 0x40000 == a && p / 0x1000 % 0x40 == b && p / 0x40 % 0x40 == c && p % 0x40 == d
  {
    var p := ((a * 0x40 + b) * 0x40 + c) * 0x40 + d;
    assert p / 0x40 == (a * 0x40 + b) * 0x40 + c;
    assert p / 0x1000 == a * 0x40 + b;
  }

  lemma FourBytesEncode(w: seq<byte>)
    requires WellFormed(w) && |w| == 4
    ensures IsScalar(CodePoint(w)) && Encode(CodePoint(w)) == w
  {
    var a, b, c, d := w[0] as nat - 0xF0, w[1] as nat - 0x80, w[2] as nat - 0x80, w[3] as nat - 0x80;
    assert CodePoint(w) == ((a * 0x40 + b) * 0x40 + c) * 0x40 + d;
    DigitsOf(a, b, c, d);
  }

  lemma WellFormedIsEncoded(w: seq<byte>)
    requires WellFormed(w)
    ensures IsScalar(CodePoint(w)) && Encode(CodePoint(w)) == w
  {
    if |w| == 2 {
      TwoBytesEncode(w);
    } else if |w| == 3 {
      ThreeBytesEncode(w);
    } else if |w| == 4 {
      FourBytesEncode(w);
    }
  }

  /** The beginning of the encoding of some code point. */
  ghost predicate CouldGoOn(s: seq<byte>) {
    exists p :: IsScalar(p) && s <= Encode(p)
  }

  lemma PrefixOfWellFormed(s: seq<byte>, w: seq<byte>)
    requires WellFormed(w) && s <= w
    ensures CouldGoOn(s)
  {
    WellFormedIsEncoded(w);
    assert s <= Encode(CodePoint(w));
  }

  /** A lowest second byte that the lead byte allows. */
  function SecondFor(lead: byte): byte {
    if lead == 0xE0 then 0xA0 else if lead == 0xF0 then 0x90 else 0x80
  }

  lemma GoodPrefixGoesOn(s: seq<byte>)
    requires s != [] && SequenceLength(s[0]) > 0
    ensures CouldGoOn(s[..GoodPrefix(s)])
  {
    var n, k := GoodPrefix(s), SequenceLength(s[0]);
    var second := if n > 1 then s[1] else SecondFor(s[0]);
    var third := if n > 2 then s[2] else 0x80;
    var fourth := if n > 3 then s[3] else 0x80;
    var w := [s[0], second, third, fourth][..k];
    assert WellFormed(w);
    assert s[..n] == w[..n];
    PrefixOfWellFormed(s[..n], w);
  }

  lemma LongerDoesNotGoOn(s: seq<byte>, p: point)
    requires s != [] && IsScalar(p) && SequenceLength(s[0]) > 0 && GoodPrefix(s) < |s|
    ensures s[..GoodPrefix(s) + 1] <= Encode(p) ==> GoodPrefix(s) == SequenceLength(s[0])
  {
    EncodedIsWellFormed(p);
  }

  /**
   * Reading one code point: the whole encoding of it is consumed if there is one; otherwise one
   * replacement character stands for the longest beginning of an encoding, or for one byte.
   */
  lemma FirstIsExact(s: seq<byte>)
    requires s != []
    ensures var (p, n) := First(s);
      || (IsScalar(p) && s[..n] == Encode(p))
      || (p == REPLACEMENT
          && (forall q | IsScalar(q) :: !(Encode(q) <= s))
          && (n > 1 ==> CouldGoOn(s[..n])) && (n < |s| ==> !CouldGoOn(s[..n + 1])))
  {
    var (p, n) := First(s);
    if SequenceLength(s[0]) > 0 && n == SequenceLength(s[0]) {
      assert WellFormed(s[..n]);
      WellFormedIsEncoded(s[..n]);
    } else {
      NoEncodingStarts(s);
      if SequenceLength(s[0]) > 0 {
        GoodPrefixGoesOn(s);
        forall q | n < |s| && IsScalar(q) && s[..n + 1] <= Encode(q) ensures false {
          LongerDoesNotGoOn(s, q);
        }
      } else {
        forall q | n < |s| && IsScalar(q) && s[..n + 1] <= Encode(q) ensures false {
          EncodedIsWellFormed(q);
        }
      }
    }
  }

  lemma NoEncodingStarts(s: seq<byte>)
    requires s != [] && (SequenceLength(s[0]) == 0 || GoodPrefix(s) < SequenceLength(s[0]))
    ensures forall q | IsScalar(q) :: !(Encode(q) <= s)
  {
    forall q | IsScalar(q) && Encode(q) <= s ensures false {
      EncodedIsWellFormed(q);
    }
  }

  // ---- Lines are the text cut at its breaks ----

  /** LF, VT, FF, CR, FS, GS, RS, NEL, LS and PS. */
  predicate EndsLine(p: point) {
    || p == 10 || p == 11 || p == 12 || p == 13 || p == 28 || p == 29 || p == 30
    || p == 133 || p == 8232 || p == 8233
  }

  predicate IsLineBreak(b: seq<point>) {
    (|b| == 2 && b[0] == 13 && b[1] == 10) || (|b| == 1 && EndsLine(b[0]))
  }

  predicate LoneReturn(b: seq<point>) {
    |b| == 1 && b[0] == 13
  }

  predicate Unbroken(line: seq<point>) {
    forall i | 0 <= i < |line| :: !EndsLine(line[i])
  }

  /**
   * The text is these lines with these breaks between and after them: lines have no breaks, CR
   * LF is not cut, and only a line that is not empty goes without a break.
   */
  predicate CutsInto(text: seq<point>, lines: seq<seq<point>>, breaks: seq<seq<point>>)
    decreases |lines|
  {
    if lines == [] then text == [] && breaks == []
    else if breaks == [] then lines == [text] && text != [] && Unbroken(text)
    else
      var n, k := |lines[0]|, |lines[0]| + |breaks[0]|;
      && k <= |text| && text[..n] == lines[0] && text[n..k] == breaks[0]
      && Unbroken(lines[0]) && IsLineBreak(breaks[0])
      && (LoneReturn(breaks[0]) && k < |text| ==> text[k] != 10)
      && CutsInto(text[k..], lines[1..], breaks[1..])
  }

  lemma FirstLineIsUnbroken(text: seq<point>)
    ensures Unbroken(text[..LineLength(text)])
  {}

  lemma BreakOf(rest: seq<point>)
    requires rest != [] && IsBreak(rest[0])
    ensures var b := BreakLength(rest);
      && (b == 2 ==> rest[0] == 13 && rest[1] == 10) && (b == 1 ==> EndsLine(rest[0]))
      && (b == 1 && rest[0] == 13 && |rest| > 1 ==> rest[1] != 10)
  {}

  lemma FirstBreak(text: seq<point>, n: nat, k: nat)
    requires n == LineLength(text) < |text| && k == n + BreakLength(text[n..])
    ensures IsLineBreak(text[n..k]) && (LoneReturn(text[n..k]) && k < |text| ==> text[k] != 10)
  {
    BreakOf(text[n..]);
  }

  lemma CutOneLine(text: seq<point>, n: nat, k: nat, lines: seq<seq<point>>, breaks: seq<seq<point>>)
    requires n <= k <= |text| && CutsInto(text[k..], lines, breaks)
    requires Unbroken(text[..n]) && IsLineBreak(text[n..k]) && (LoneReturn(text[n..k]) && k < |text| ==> text[k] != 10)
    ensures CutsInto(text, [text[..n]] + lines, [text[n..k]] + breaks)
  {
    assert ([text[..n]] + lines)[1..] == lines && ([text[n..k]] + breaks)[1..] == breaks;
  }

  lemma {:induction false} LineLengthOf(text: seq<point>, n: nat)
    requires n <= |text| && Unbroken(text[..n]) && (n < |text| ==> EndsLine(text[n]))
    ensures LineLength(text) == n
  {
    if n > 0 {
      assert text[..n][0] == text[0];
      assert text[1..][..n - 1] == text[..n][1..];
      LineLengthOf(text[1..], n - 1);
    }
  }

  lemma BreakLengthOf(text: seq<point>, n: nat, k: nat)
    requires n < k <= |text| && IsLineBreak(text[n..k]) && (LoneReturn(text[n..k]) && k < |text| ==> text[k] != 10)
    ensures EndsLine(text[n]) && IsBreak(text[n..][0]) && BreakLength(text[n..]) == k - n
  {
    assert text[n..k][0] == text[n];
    assert k == n + 2 ==> text[n..k][1] == text[n + 1];
    BreakLengthAt(text, n);
  }

  lemma BreakLengthAt(text: seq<point>, n: nat)
    requires n < |text| && EndsLine(text[n])
    ensures IsBreak(text[n..][0])
    ensures BreakLength(text[n..]) == if text[n] == 13 && n + 1 < |text| && text[n + 1] == 10 then 2 else 1
  {}

  lemma OneLine(text: seq<point>)
    requires text != [] && Unbroken(text)
    ensures SplitLines(text) == [text]
  {
    assert text[..|text|] == text;
    LineLengthOf(text, |text|);
  }

  lemma SplitStep(text: seq<point>, n: nat, k: nat)
    requires n == LineLength(text) < |text| && k == n + BreakLength(text[n..])
    ensures SplitLines(text) == [text[..n]] + SplitLines(text[k..])
  {}

  lemma OneMoreLine(text: seq<point>, n: nat, k: nat)
    requires n < k <= |text| && Unbroken(text[..n]) && IsLineBreak(text[n..k])
    requires LoneReturn(text[n..k]) && k < |text| ==> text[k] != 10
    ensures SplitLines(text) == [text[..n]] + SplitLines(text[k..])
  {
    BreakLengthOf(text, n, k);
    LineLengthOf(text, n);
    SplitStep(text, n, k);
  }

  lemma HeadAndTail(lines: seq<seq<point>>)
    requires lines != []
    ensures [lines[0]] + lines[1..] == lines
  {}

  lemma {:induction false} LinesAreCut(text: seq<point>) returns (breaks: seq<seq<point>>)
    ensures CutsInto(text, SplitLines(text), breaks)
    decreases |text|
  {
    breaks := [];
    if text != [] {
      FirstLineIsUnbroken(text);
      var n := LineLength(text);
      if n == |text| {
        assert text[..n] == text;
        OneLine(text);
      } else {
        var k := n + BreakLength(text[n..]);
        FirstBreak(text, n, k);
        SplitStep(text, n, k);
        breaks := LinesAreCut(text[k..]);
        CutOneLine(text, n, k, SplitLines(text[k..]), breaks);
        breaks := [text[n..k]] + breaks;
      }
    }
  }

  /** There is one way to cut a text into lines. */
  lemma {:induction false} CutIsUnique(text: seq<point>, lines: seq<seq<point>>, breaks: seq<seq<point>>)
    requires CutsInto(text, lines, breaks)
    ensures SplitLines(text) == lines
    decreases |lines|
  {
    if lines != [] {
      if breaks == [] {
        OneLine(text);
      } else {
        var n, k := |lines[0]|, |lines[0]| + |breaks[0]|;
        OneMoreLine(text, n, k);
        CutIsUnique(text[k..], lines[1..], breaks[1..]);
        HeadAndTail(lines);
      }
    }
  }
}
