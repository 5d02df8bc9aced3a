/**
 * Reading the last lines of a file backwards, chunk by chunk, against splitting the whole file.
 */
module Tail {
  import opened Common
  import opened Utf8

  function CountFeeds(s: seq<byte>): nat {
    if s == [] then 0 else (if s[0] == LF then 1 else 0) + CountFeeds(s[1..])
  }

  /** All lines of the file, and the last ones of them: what the read has to return. */
  function Lines(file: seq<byte>): seq<seq<point>> {
    SplitLines(Decode(file))
  }

  /** The bytes max_bytes lets the reader see. */
  function Window(file: seq<byte>, maxBytes: Option<int>): (w: seq<byte>) {
    match maxBytes
    case None => file
    case Some(m) => if m <= 0 then [] else Last(file, m)
  }

  // ---- A suffix with enough line feeds has the last lines of the whole ----

  lemma {:induction false} CountAppends(a: seq<byte>, b: seq<byte>)
    ensures CountFeeds(a + b) == CountFeeds(a) + CountFeeds(b)
  {
    if a == [] {
      assert a + b == b;
    } else {
      assert (a + b)[1..] == a[1..] + b;
      CountAppends(a[1..], b);
    }
  }

  /** The position of the first line feed. */
  function FirstFeed(s: seq<byte>): (n: nat)
    requires CountFeeds(s) > 0
    ensures n < |s| && s[n] == LF && CountFeeds(s[n + 1..]) == CountFeeds(s) - 1
  {
    if s[0] == LF then 0 else 1 + FirstFeed(s[1..])
  }

  lemma AfterCut(x: seq<point>, y: seq<point>, k: nat)
    requires k <= |x| + 1
    ensures (x + [10] + y)[k..] == if k <= |x| then x[k..] + [10] + y else y
  {}

  lemma OneLineMore(line: seq<point>, before: seq<seq<point>>, after: seq<seq<point>>)
    ensures [line] + (before + after) == [line] + before + after
  {}

  /** The lines after a line feed are the last of all the lines. */
  lemma {:induction false} LinesAfterFeed(x: seq<point>, y: seq<point>) returns (before: seq<seq<point>>)
    ensures SplitLines(x + [10] + y) == before + SplitLines(y) && before != []
    decreases |x|
  {
    var text := x + [10] + y;
    LineLengthBefore(x, [10] + y);
    assert text == x + ([10] + y);
    var n := LineLength(text);
    var k := n + BreakLength(text[n..]);
    AfterCut(x, y, k);
    if k > |x| {
      before := [text[..n]];
    } else {
      before := LinesAfterFeed(x[k..], y);
      OneLineMore(text[..n], before, SplitLines(y));
      before := [text[..n]] + before;
    }
  }

  lemma {:induction false} LineLengthBefore(x: seq<point>, z: seq<point>)
    requires z != [] && IsBreak(z[0])
    ensures LineLength(x + z) <= |x|
  {
    if x == [] {
      assert x + z == z;
    } else {
      assert (x + z)[1..] == x[1..] + z;
      LineLengthBefore(x[1..], z);
    }
  }

  /** Every line feed ends a line. */
  lemma {:induction false} EnoughLines(s: seq<byte>)
    ensures |Lines(s)| >= CountFeeds(s)
    decreases |s|
  {
    if CountFeeds(s) > 0 {
      var n := FirstFeed(s);
      assert s == s[..n] + [LF] + s[n + 1..];
      DecodeSplitsAtLineFeed(s[..n], s[n + 1..]);
      var before := LinesAfterFeed(Decode(s[..n]), Decode(s[n + 1..]));
      EnoughLines(s[n + 1..]);
    }
  }

  lemma LastOfAppended<T>(a: seq<T>, b: seq<T>, n: nat)
    requires |b| >= n
    ensures Last(a + b, n) == Last(b, n)
  {}

  lemma LinesAfterFirstFeed(head: seq<byte>, rest: seq<byte>, n: nat)
    requires CountFeeds(rest) >= n
    ensures Last(Lines(head + [LF] + rest), n) == Last(Lines(rest), n)
  {
    DecodeSplitsAtLineFeed(head, rest);
    var before := LinesAfterFeed(Decode(head), Decode(rest));
    EnoughLines(rest);
    LastOfAppended(before, Lines(rest), n);
  }

  /**
   * Wherever a suffix starts, in the middle of a line, of a character or of a CR LF pair: if it
   * has more than n line feeds, its last n lines are those of the whole.
   */
  lemma SuffixSuffices(file: seq<byte>, start: nat, n: nat)
    requires start <= |file| && CountFeeds(file[start..]) > n
    ensures Last(Lines(file[start..]), n) == Last(Lines(file), n)
  {
    var s := file[start..];
    var k := FirstFeed(s);
    CutAt(s, k);
    CutAt(file, start + k);
    assert file[start + k + 1..] == s[k + 1..];
    LinesAfterFirstFeed(s[..k], s[k + 1..], n);
    LinesAfterFirstFeed(file[..start + k], s[k + 1..], n);
  }

  lemma CutAt(s: seq<byte>, k: nat)
    requires k < |s|
    ensures s == s[..k] + [s[k]] + s[k + 1..]
  {}

  // ---- The backwards read ----

  function JoinReversed(chunks: seq<seq<byte>>): seq<byte> {
    if chunks == [] then [] else chunks[|chunks| - 1] + JoinReversed(chunks[..|chunks| - 1])
  }

  /** What the loop keeps: the chunks, the last one first, are the file from here on. */
  predicate HasRead(file: seq<byte>, position: int, chunks: seq<seq<byte>>, newlines: int) {
    && 0 <= position <= |file|
    && JoinReversed(chunks) == file[position..] && newlines == CountFeeds(file[position..])
  }

  lemma NothingRead(file: seq<byte>)
    ensures HasRead(file, |file|, [], 0)
  {}

  lemma OneMoreChunk(file: seq<byte>, i: nat, j: nat, chunks: seq<seq<byte>>, newlines: int)
    requires HasRead(file, j, chunks, newlines) && i <= j
    ensures HasRead(file, i, chunks + [file[i..j]], newlines + CountFeeds(file[i..j]))
  {
    assert (chunks + [file[i..j]])[..|chunks|] == chunks;
    assert file[i..j] + file[j..] == file[i..];
    CountAppends(file[i..j], file[j..]);
  }

  lemma WindowSuffix(file: seq<byte>, maxBytes: Option<int>, position: nat)
    requires |file| - |Window(file, maxBytes)| <= position <= |file|
    ensures var w := Window(file, maxBytes); file[position..] == w[|w| - (|file| - position)..]
  {}

  /** The read stops where the window starts, or with enough line feeds to stop earlier. */
  lemma ReadEnough(file: seq<byte>, maxBytes: Option<int>, position: nat, lines: nat)
    requires |file| - |Window(file, maxBytes)| <= position <= |file|
    requires position == |file| - |Window(file, maxBytes)| || CountFeeds(file[position..]) > lines
    ensures Last(Lines(file[position..]), lines) == Last(Lines(Window(file, maxBytes)), lines)
  {
    var window := Window(file, maxBytes);
    WindowSuffix(file, maxBytes, position);
    if CountFeeds(file[position..]) > lines {
      SuffixSuffices(window, |window| - (|file| - position), lines);
    }
  }

  method TailLines(content: Option<seq<byte>>, lines: int, maxBytes: Option<int>, chunkSize: nat)
    returns (tail: seq<seq<point>>)
    requires chunkSize > 0
    ensures lines <= 0 || content.None? ==> tail == []
    ensures lines > 0 && content.Some? ==> tail == Last(Lines(Window(content.value, maxBytes)), lines)
  {
    if lines <= 0 || content.None? {
      return [];
    }
    var file := content.value;
    ghost var reach := |Window(file, maxBytes)|;
    var position := |file|;
    var chunks: seq<seq<byte>> := [];
    var newlines, consumed := 0, 0;
    NothingRead(file);
    while position > 0 && newlines <= lines
      invariant 0 <= position <= |file| && consumed == |file| - position <= reach
      invariant HasRead(file, position, chunks, newlines)
      decreases position
    {
      var size := if chunkSize < position then chunkSize else position;
      if maxBytes.Some? {
        var remaining := maxBytes.value - consumed;
        if remaining <= 0 {
          break;
        }
        size := if remaining < size then remaining else size;
      }
      var chunk := file[position - size..position];
      OneMoreChunk(file, position - size, position, chunks, newlines);
      chunks := chunks + [chunk];
      position := position - size;
      newlines := newlines + CountFeeds(chunk);
      consumed := consumed + |chunk|;
    }
    ReadEnough(file, maxBytes, position, lines);
    tail := Last(Lines(JoinReversed(chunks)), lines);
  }
}
