/** Placeholder substitution in the command and the standard input of a task. */
module Template {
  import opened Common
  import opened Text

  datatype Token =
    | Pair(brace: char)      // a doubled brace
    | Named(name: string)    // a name in braces
    | Single(c: char)        // any other character

  predicate IsBrace(c: char) {
    c == '{' || c == '}'
  }

  predicate WordStart(c: char) {
    'A' <= c <= 'Z' || 'a' <= c <= 'z' || c == '_'
  }

  predicate WordChar(c: char) {
    WordStart(c) || IsDigit(c)
  }

  /** The length of the longest prefix of word characters. */
  function WordRun(s: string): (n: nat)
    ensures n <= |s| && (forall i | 0 <= i < n :: WordChar(s[i])) && (n < |s| ==> !WordChar(s[n]))
  {
    if s == [] || !WordChar(s[0]) then 0 else 1 + WordRun(s[1..])
  }

  function Spelling(t: Token): string {
    match t
    case Pair(b) => [b, b]
    case Named(name) => "{" + name + "}"
    case Single(c) => [c]
  }

  /** The first token of a text: a doubled brace before a placeholder, a placeholder before a character. */
  function First(s: string): (t: Token)
    requires s != []
    ensures Spelling(t) <= s
  {
    if |s| > 1 && s[0] == s[1] && IsBrace(s[0]) then Pair(s[0])
    else if s[0] == '{' && |s| > 1 && WordStart(s[1]) then
      var n := WordRun(s[1..]);
      if n + 1 < |s| && s[n + 1] == '}' then
        assert s[..n + 2] == "{" + s[1..n + 1] + "}";
        Named(s[1..n + 1])
      else Single(s[0])
    else Single(s[0])
  }

  function Rest(s: string): (r: string)
    requires s != []
    ensures |r| < |s| && s == Spelling(First(s)) + r
  {
    s[|Spelling(First(s))|..]
  }

  /** One pass over the text: the replacement of each token, never looked at again. */
  function Substitute(text: string, values: map<string, string>, strict: bool): Result<string>
    decreases |text|
  {
    if text == [] then Ok("")
    else
      var t := First(text);
      if t.Named? && t.name !in values && strict then Err
      else
        var piece :=
          match t
          case Pair(b) => if strict then [b] else Spelling(t)
          case Named(name) => if name in values then values[name] else Spelling(t)
          case Single(c) => [c];
        match Substitute(Rest(text), values, strict)
        case Err => Err
        case Ok(rest) => Ok(piece + rest)
  }

  // ---- What a text means, without any values ----

  function Tokens(text: string): (ts: seq<Token>)
    decreases |text|
  {
    if text == [] then [] else [First(text)] + Tokens(Rest(text))
  }

  function Spellings(ts: seq<Token>): string {
    if ts == [] then "" else Spelling(ts[0]) + Spellings(ts[1..])
  }

  /** Text that is kept, and holes for the values of names. */
  datatype Part = Kept(text: string) | Hole(name: string)

  function Skeleton(ts: seq<Token>, known: set<string>, strict: bool): seq<Part> {
    if ts == [] then []
    else
      [if ts[0].Named? && ts[0].name in known then Hole(ts[0].name)
       else if ts[0].Pair? && strict then Kept([ts[0].brace])
       else Kept(Spelling(ts[0]))] + Skeleton(ts[1..], known, strict)
  }

  function Fill(parts: seq<Part>, values: map<string, string>): string
    requires forall p | p in parts :: p.Hole? ==> p.name in values
  {
    if parts == [] then ""
    else (match parts[0] case Kept(t) => t case Hole(n) => values[n]) + Fill(parts[1..], values)
  }

  lemma {:induction false} HolesAreKnown(ts: seq<Token>, known: set<string>, strict: bool)
    ensures forall p | p in Skeleton(ts, known, strict) :: p.Hole? ==> p.name in known
  {
    if ts != [] {
      HolesAreKnown(ts[1..], known, strict);
    }
  }

  predicate Unknown(t: Token, known: set<string>) {
    t.Named? && t.name !in known
  }

  /** Nothing of a text is lost or invented by cutting it into tokens. */
  lemma {:induction false} TokensSpellTheText(text: string)
    ensures Spellings(Tokens(text)) == text
    decreases |text|
  {
    if text != [] {
      TokensSpellTheText(Rest(text));
    }
  }

  /** Strict substitution fails exactly on a placeholder that has no value; lenient never fails. */
  lemma {:induction false} FailsOnUnknown(text: string, values: map<string, string>, strict: bool)
    ensures Substitute(text, values, strict).Err? <==> strict && exists t | t in Tokens(text) :: Unknown(t, values.Keys)
    decreases |text|
  {
    if text != [] {
      FailsOnUnknown(Rest(text), values, strict);
      UnknownAmong(First(text), Tokens(Rest(text)), values.Keys);
    }
  }

  lemma UnknownAmong(t: Token, ts: seq<Token>, known: set<string>)
    ensures (exists u | u in [t] + ts :: Unknown(u, known))
        <==> Unknown(t, known) || exists u | u in ts :: Unknown(u, known)
  {
    assert t in [t] + ts;
    assert forall u | u in ts :: u in [t] + ts;
  }

  /**
   * Values are never scanned: which parts are kept and where the holes are depends on the text
   * and the names that have values alone, and the values only fill the holes.
   */
  lemma {:induction false} ValuesOnlyFill(text: string, values: map<string, string>, strict: bool)
    requires Substitute(text, values, strict).Ok?
    ensures forall p | p in Skeleton(Tokens(text), values.Keys, strict) :: p.Hole? ==> p.name in values
    ensures Substitute(text, values, strict) == Ok(Fill(Skeleton(Tokens(text), values.Keys, strict), values))
    decreases |text|
  {
    HolesAreKnown(Tokens(text), values.Keys, strict);
    if text != [] {
      var ts := Tokens(text);
      assert ts[1..] == Tokens(Rest(text));
      ValuesOnlyFill(Rest(text), values, strict);
      var parts := Skeleton(ts, values.Keys, strict);
      assert parts[1..] == Skeleton(ts[1..], values.Keys, strict);
    }
  }

  /** A text whose placeholders all lack a value comes out of lenient substitution as it went in. */
  lemma {:induction false} LenientLeavesText(text: string, values: map<string, string>)
    requires forall t | t in Tokens(text) && t.Named? :: t.name !in values
    ensures Substitute(text, values, false) == Ok(text)
    decreases |text|
  {
    if text != [] {
      var ts := Tokens(text);
      assert First(text) in ts;
      forall t | t in Tokens(Rest(text)) ensures t in ts {}
      LenientLeavesText(Rest(text), values);
    }
  }

  // ---- Escaping ----

  function DoubleBraces(s: string): string {
    if s == [] then [] else (if IsBrace(s[0]) then [s[0], s[0]] else [s[0]]) + DoubleBraces(s[1..])
  }

  lemma FirstOfDoubled(c: char, rest: string)
    ensures var s := (if IsBrace(c) then [c, c] else [c]) + rest;
      First(s) == (if IsBrace(c) then Pair(c) else Single(c)) && Rest(s) == rest
  {}

  function Prefixed(s: string, r: Result<string>): Result<string> {
    match r
    case Err => Err
    case Ok(rest) => Ok(s + rest)
  }

  lemma DoubledHead(c: char, s: string, rest: string, values: map<string, string>)
    ensures Substitute(DoubleBraces([c] + s) + rest, values, true)
      == Prefixed([c], Substitute(DoubleBraces(s) + rest, values, true))
  {
    var tail := DoubleBraces(s) + rest;
    assert ([c] + s)[1..] == s;
    assert DoubleBraces([c] + s) + rest == (if IsBrace(c) then [c, c] else [c]) + tail;
    FirstOfDoubled(c, tail);
  }

  lemma PrefixedTwice(c: char, s: string, r: Result<string>)
    ensures Prefixed([c], Prefixed(s, r)) == Prefixed([c] + s, r)
  {
    if r.Ok? {
      assert [c] + (s + r.value) == [c] + s + r.value;
    }
  }

  /** Doubling every brace of a string protects it from strict substitution, wherever it stands first. */
  lemma {:induction false} DoubledPrefix(s: string, rest: string, values: map<string, string>)
    ensures Substitute(DoubleBraces(s) + rest, values, true) == Prefixed(s, Substitute(rest, values, true))
  {
    if s == [] {
      assert DoubleBraces(s) + rest == rest;
      var r := Substitute(rest, values, true);
      if r.Ok? {
        assert s + r.value == r.value;
      }
    } else {
      assert s == [s[0]] + s[1..];
      DoubledHead(s[0], s[1..], rest, values);
      DoubledPrefix(s[1..], rest, values);
      PrefixedTwice(s[0], s[1..], Substitute(rest, values, true));
    }
  }

  lemma DoubledBracesAreLiteral(s: string, values: map<string, string>)
    ensures Substitute(DoubleBraces(s), values, true) == Ok(s)
  {
    DoubledPrefix(s, "", values);
    assert DoubleBraces(s) + "" == DoubleBraces(s) && s + "" == s;
  }

  /** A value put after a text stays as it is, whatever braces it contains or joins up with. */
  lemma PlaceholderInContext(before: string, name: string, after: string, values: map<string, string>)
    requires name != "" && WordStart(name[0]) && (forall i | 0 <= i < |name| :: WordChar(name[i])) && name in values
    ensures Substitute(DoubleBraces(before) + ("{" + name + "}" + after), values, true)
      == Prefixed(before, Prefixed(values[name], Substitute(after, values, true)))
  {
    DoubledPrefix(before, "{" + name + "}" + after, values);
    FirstIsNamed(name, after);
  }

  lemma {:induction false} RunOf(w: string, rest: string)
    requires (forall i | 0 <= i < |w| :: WordChar(w[i])) && (rest == "" || !WordChar(rest[0]))
    ensures WordRun(w + rest) == |w|
  {
    if w == [] {
      assert w + rest == rest;
    } else {
      assert (w + rest)[1..] == w[1..] + rest;
      RunOf(w[1..], rest);
    }
  }

  lemma FirstIsNamed(name: string, after: string)
    requires name != "" && WordStart(name[0]) && forall i | 0 <= i < |name| :: WordChar(name[i])
    ensures var s := "{" + name + "}" + after; First(s) == Named(name) && Rest(s) == after
  {
    var s := "{" + name + "}" + after;
    RunOf(name, "}" + after);
    assert s[1..] == name + ("}" + after);
    assert s[1..|name| + 1] == name;
  }


  // ---- The tokens, by the text they stand for ----

  /** A letter or an underscore, then letters, digits and underscores. */
  predicate Identifier(name: string) {
    && name != "" && !('0' <= name[0] <= '9')
    && forall i | 0 <= i < |name| ::
         'a' <= name[i] <= 'z' || 'A' <= name[i] <= 'Z' || name[i] == '_' || '0' <= name[i] <= '9'
  }

  /**
   * A text starts with a placeholder exactly if it starts with an identifier in braces, and with a
   * pair exactly if it starts with two equal braces.
   */
  lemma FirstMeans(s: string, name: string)
    requires s != []
    ensures First(s) == Named(name) <==> Identifier(name) && "{" + name + "}" <= s
    ensures First(s).Pair? <==> |s| > 1 && s[0] == s[1] && (s[0] == '{' || s[0] == '}')
  {
    if Identifier(name) && "{" + name + "}" <= s {
      var after := s[|name| + 2..];
      assert s == "{" + name + "}" + after;
      FirstIsNamed(name, after);
    }
    if First(s) == Named(name) {
      assert Spelling(First(s)) == "{" + name + "}";
    }
  }
}
