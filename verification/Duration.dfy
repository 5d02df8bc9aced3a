/** Durations such as 30m or 1h30m: parsing, and the compact human form. */
module Duration {
  import opened Common
  import opened Text

  predicate IsUnit(c: char) {
    c == 's' || c == 'm' || c == 'h' || c == 'd'
  }

  function InSeconds(amount: nat, unit: char): nat
    requires IsUnit(unit)
  {
    if unit == 's' then amount
    else if unit == 'm' then 60 * amount
    else if unit == 'h' then 3600 * amount
    else 86400 * amount
  }

  /** The length of the longest prefix of digits. */
  function DigitRun(s: string): (n: nat)
    ensures n <= |s| && AllDigits(s[..n]) && (n < |s| ==> !IsDigit(s[n]))
  {
    if s == [] || !IsDigit(s[0]) then 0
    else
      var n := 1 + DigitRun(s[1..]);
      assert s[..n] == [s[0]] + s[1..][..n - 1];
      n
  }

  /** One or more groups of digits and a unit, added up. */
  function SumGroups(s: string): Option<nat>
    decreases |s|
  {
    var n := DigitRun(s);
    if n == 0 || n == |s| || !IsUnit(s[n]) then None
    else
      var first := InSeconds(ParseNat(s[..n]), s[n]);
      if n + 1 == |s| then Some(first)
      else
        match SumGroups(s[n + 1..])
        case None => None
        case Some(rest) => Some(first + rest)
  }

  function StripLeft(s: string): string {
    if s != [] && IsSpace(s[0]) then StripLeft(s[1..]) else s
  }

  function StripRight(s: string): string {
    if s != [] && IsSpace(s[|s| - 1]) then StripRight(s[..|s| - 1]) else s
  }

  function DropBlanks(s: string): string {
    if s == [] then [] else (if s[0] == ' ' then [] else [s[0]]) + DropBlanks(s[1..])
  }

  function Compact(text: string): string {
    DropBlanks(LowerAll(StripRight(StripLeft(text))))
  }

  function ParseDuration(text: string): Option<nat> {
    SumGroups(Compact(text))
  }

  // ---- The human form ----

  function Part(n: nat, unit: char): string {
    PrintNat(n) + [unit]
  }

  function Parts(seconds: nat): seq<string> {
    PartsOf(seconds / 3600, seconds % 3600 / 60, seconds % 3600 % 60)
  }

  function PartsOf(hours: nat, minutes: nat, secs: nat): seq<string> {
    Maybe(hours > 0, Part(hours, 'h'))
    + (Maybe(minutes > 0, Part(minutes, 'm')) + Maybe(secs > 0 && hours == 0, Part(secs, 's')))
  }

  function Maybe(present: bool, part: string): seq<string> {
    if present then [part] else []
  }

  function DurationText(seconds: int): string {
    if seconds < 60 then PrintInt(seconds) + "s" else Spaced(Parts(seconds))
  }

  method FormatDuration(seconds: int) returns (text: string)
    ensures text == DurationText(seconds)
  {
    if seconds < 60 {
      return PrintInt(seconds) + "s";
    }
    var parts: seq<string> := [];
    var hours, rest := seconds / 3600, seconds % 3600;
    var minutes, secs := rest / 60, rest % 60;
    if hours != 0 {
      parts := parts + [Part(hours, 'h')];
    }
    if minutes != 0 {
      parts := parts + [Part(minutes, 'm')];
    }
    if secs != 0 && hours == 0 {
      parts := parts + [Part(secs, 's')];
    }
    assert parts == Parts(seconds);
    return Spaced(parts);
  }

  // ---- Parsing the human form ----

  lemma {:induction false} RunEnds(d: string, rest: string)
    requires AllDigits(d) && rest != [] && !IsDigit(rest[0])
    ensures DigitRun(d + rest) == |d|
  {
    if d == [] {
      assert d + rest == rest;
    } else {
      assert (d + rest)[1..] == d[1..] + rest;
      RunEnds(d[1..], rest);
    }
  }

  lemma FirstGroup(n: nat, unit: char, rest: string)
    requires IsUnit(unit)
    ensures var s, k := Part(n, unit) + rest, |PrintNat(n)|;
      DigitRun(s) == k && s[..k] == PrintNat(n) && s[k] == unit && s[k + 1..] == rest
  {
    assert Part(n, unit) + rest == PrintNat(n) + ([unit] + rest);
    RunEnds(PrintNat(n), [unit] + rest);
  }

  function Seconds(o: Option<nat>): nat {
    match o
    case None => 0
    case Some(n) => n
  }

  predicate Sums(s: string) {
    s == "" || SumGroups(s).Some?
  }

  function SumOf(s: string): nat {
    if s == "" then 0 else Seconds(SumGroups(s))
  }

  lemma LeadingGroup(n: nat, unit: char, rest: string)
    requires IsUnit(unit) && Sums(rest)
    ensures var s := Part(n, unit) + rest;
      s != "" && Sums(s) && SumOf(s) == InSeconds(n, unit) + SumOf(rest)
  {
    FirstGroup(n, unit, rest);
  }

  function Concat(parts: seq<string>): string {
    if parts == [] then "" else parts[0] + Concat(parts[1..])
  }

  lemma {:induction false} DropBlanksAppends(a: string, b: string)
    ensures DropBlanks(a + b) == DropBlanks(a) + DropBlanks(b)
  {
    if a == [] {
      assert a + b == b;
    } else {
      assert (a + b)[1..] == a[1..] + b;
      DropBlanksAppends(a[1..], b);
    }
  }

  lemma {:induction false} WordsHaveNoBlanks(w: string)
    requires NoSpaces(w)
    ensures DropBlanks(w) == w
  {
    if w != [] {
      WordsHaveNoBlanks(w[1..]);
    }
  }

  predicate PartWord(w: string) {
    w != [] && NoSpaces(w) && LowerAll(w) == w
  }

  lemma PartIsWord(n: nat, unit: char)
    requires IsUnit(unit)
    ensures PartWord(Part(n, unit))
  {}

  lemma LowerAppends(a: string, b: string)
    ensures LowerAll(a + b) == LowerAll(a) + LowerAll(b)
  {}

  lemma SpacedEnds(parts: seq<string>)
    requires parts != [] && forall i | 0 <= i < |parts| :: PartWord(parts[i])
    ensures var s := Spaced(parts); s != [] && !IsSpace(s[0]) && !IsSpace(s[|s| - 1])
  {
    if |parts| > 1 {
      SpacedEnds(parts[1..]);
    }
  }

  lemma CompactsTo(word: string, rest: string)
    requires PartWord(word)
    ensures DropBlanks(LowerAll(word + " " + rest)) == word + DropBlanks(LowerAll(rest))
  {
    WordsHaveNoBlanks(word);
    LowerAppends(word + " ", rest);
    LowerAppends(word, " ");
    assert LowerAll(" ") == " " && DropBlanks(" ") == "";
    DropBlanksAppends(word + " ", LowerAll(rest));
    DropBlanksAppends(word, " ");
  }

  /** Lowering and dropping the blanks of spaced lower-case words leaves them concatenated. */
  lemma {:induction false} SpacedCompacts(parts: seq<string>)
    requires forall i | 0 <= i < |parts| :: PartWord(parts[i])
    ensures DropBlanks(LowerAll(Spaced(parts))) == Concat(parts)
  {
    if |parts| == 1 {
      WordsHaveNoBlanks(parts[0]);
      assert Concat(parts) == parts[0] + Concat(parts[1..]) == parts[0];
    } else if |parts| > 1 {
      CompactsTo(parts[0], Spaced(parts[1..]));
      SpacedCompacts(parts[1..]);
    }
  }

  lemma CompactParts(parts: seq<string>)
    requires parts != [] && forall i | 0 <= i < |parts| :: PartWord(parts[i])
    ensures Compact(Spaced(parts)) == Concat(parts)
  {
    SpacedCompacts(parts);
    SpacedEnds(parts);
  }

  lemma CompactOne(word: string)
    requires PartWord(word)
    ensures Compact(word) == word
  {
    CompactParts([word]);
    assert Concat([word]) == word + Concat([word][1..]) == word;
  }

  lemma ConcatMaybe(present: bool, part: string, rest: seq<string>)
    ensures Concat(Maybe(present, part) + rest) == if present then part + Concat(rest) else Concat(rest)
  {
    if present {
      assert ([part] + rest)[1..] == rest;
    } else {
      assert [] + rest == rest;
    }
  }

  lemma MaybeGroup(n: nat, unit: char, present: bool, rest: seq<string>)
    requires IsUnit(unit) && Sums(Concat(rest))
    ensures var s := Concat(Maybe(present, Part(n, unit)) + rest);
      Sums(s) && SumOf(s) == (if present then InSeconds(n, unit) else 0) + SumOf(Concat(rest))
  {
    ConcatMaybe(present, Part(n, unit), rest);
    LeadingGroup(n, unit, Concat(rest));
  }

  lemma PartsSum(h: nat, m: nat, c: nat)
    ensures Sums(Concat(PartsOf(h, m, c)))
    ensures SumOf(Concat(PartsOf(h, m, c))) == h * 3600 + m * 60 + if h == 0 then c else 0
  {
    var tail := Maybe(c > 0 && h == 0, Part(c, 's'));
    assert tail + [] == tail && Concat([]) == "";
    MaybeGroup(c, 's', c > 0 && h == 0, []);
    MaybeGroup(m, 'm', m > 0, tail);
    MaybeGroup(h, 'h', h > 0, Maybe(m > 0, Part(m, 'm')) + tail);
  }

  lemma PartsParse(h: nat, m: nat, c: nat)
    requires h > 0 || m > 0
    ensures ParseDuration(Spaced(PartsOf(h, m, c))) == Some(h * 3600 + m * 60 + if h == 0 then c else 0)
  {
    PartIsWord(h, 'h');
    PartIsWord(m, 'm');
    PartIsWord(c, 's');
    CompactParts(PartsOf(h, m, c));
    PartsSum(h, m, c);
  }

  predicate Divided(s: nat, h: nat, m: nat, c: nat) {
    h == s / 3600 && m == s % 3600 / 60 && c == s % 3600 % 60
  }

  lemma HoursAndMinutes(s: nat, h: nat, m: nat, c: nat)
    requires Divided(s, h, m, c)
    ensures s >= 60 ==> h > 0 || m > 0
    ensures h * 3600 + m * 60 + (if h == 0 then c else 0) == if s < 3600 then s else s - s % 60
  {
    assert s == 60 * (60 * h + m) + c && s % 60 == c;
  }

  lemma LongText(s: nat, h: nat, m: nat, c: nat)
    requires s >= 60 && Divided(s, h, m, c)
    ensures DurationText(s) == Spaced(PartsOf(h, m, c))
  {}

  lemma LongRoundTrip(s: nat)
    requires s >= 60
    ensures ParseDuration(DurationText(s)) == Some(if s < 3600 then s else s - s % 60)
  {
    var h, m, c := s / 3600, s % 3600 / 60, s % 3600 % 60;
    LongText(s, h, m, c);
    HoursAndMinutes(s, h, m, c);
    PartsParse(h, m, c);
  }

  lemma SumsOne(s: nat)
    ensures SumGroups(Part(s, 's')) == Some(s)
  {
    LeadingGroup(s, 's', "");
    assert Part(s, 's') + "" == Part(s, 's');
  }

  /** Whole seconds, as task definitions print them. */
  lemma SecondsRoundTrip(s: nat)
    ensures ParseDuration(PrintNat(s) + "s") == Some(s)
  {
    assert Part(s, 's') == PrintNat(s) + "s";
    PartIsWord(s, 's');
    CompactOne(Part(s, 's'));
    SumsOne(s);
  }

  /**
   * Parsing the human form of s seconds gives s below one hour, and s rounded down to whole
   * minutes from one hour on: never more than s, always more than s - 60.
   */
  lemma DurationRoundTrip(s: nat)
    ensures ParseDuration(DurationText(s)) == Some(if s < 3600 then s else s - s % 60)
  {
    if s < 60 {
      SecondsRoundTrip(s);
    } else {
      LongRoundTrip(s);
    }
  }

  // ---- The durations that are accepted ----

  datatype Group = Group(digits: string, unit: char)

  predicate ValidGroup(g: Group) {
    g.digits != "" && AllDigits(g.digits) && IsUnit(g.unit)
  }

  predicate ValidGroups(groups: seq<Group>) {
    groups != [] && forall i | 0 <= i < |groups| :: ValidGroup(groups[i])
  }

  function GroupsText(groups: seq<Group>): string {
    if groups == [] then "" else groups[0].digits + ([groups[0].unit] + GroupsText(groups[1..]))
  }

  function GroupSeconds(g: Group): nat
    requires ValidGroup(g)
  {
    InSeconds(ParseNat(g.digits), g.unit)
  }

  function Total(groups: seq<Group>): nat
    requires forall i | 0 <= i < |groups| :: ValidGroup(groups[i])
  {
    if groups == [] then 0
    else
      assert ValidGroup(groups[0]);
      GroupSeconds(groups[0]) + Total(groups[1..])
  }

  lemma GroupEnds(g: Group, rest: string)
    requires ValidGroup(g)
    ensures var s, n := g.digits + ([g.unit] + rest), |g.digits|;
      DigitRun(s) == n && s[..n] == g.digits && s[n] == g.unit && s[n + 1..] == rest
  {
    RunEnds(g.digits, [g.unit] + rest);
  }

  lemma SumFrom(s: string, g: Group, rest: string, total: nat)
    requires ValidGroup(g) && |s| > |g.digits| == DigitRun(s)
    requires s[..|g.digits|] == g.digits && s[|g.digits|] == g.unit && s[|g.digits| + 1..] == rest
    requires if rest == "" then total == 0 else SumGroups(rest) == Some(total)
    ensures SumGroups(s) == Some(GroupSeconds(g) + total)
  {}

  lemma {:induction false} GroupsAddUp(groups: seq<Group>)
    requires ValidGroups(groups)
    ensures SumGroups(GroupsText(groups)) == Some(Total(groups)) && GroupsText(groups) != ""
  {
    var g, rest := groups[0], GroupsText(groups[1..]);
    assert ValidGroup(g);
    GroupEnds(g, rest);
    if |groups| > 1 {
      GroupsAddUp(groups[1..]);
    }
    SumFrom(g.digits + ([g.unit] + rest), g, rest, Total(groups[1..]));
  }

  lemma {:induction false} AcceptedIsGroups(s: string) returns (groups: seq<Group>)
    requires SumGroups(s).Some?
    ensures ValidGroups(groups) && GroupsText(groups) == s
    decreases |s|
  {
    var n := DigitRun(s);
    var g := Group(s[..n], s[n]);
    assert s == g.digits + ([g.unit] + s[n + 1..]);
    if n + 1 == |s| {
      groups := [g];
      assert groups[1..] == [] && s[n + 1..] == "";
    } else {
      var rest := AcceptedIsGroups(s[n + 1..]);
      groups := [g] + rest;
      assert groups[1..] == rest;
    }
  }

  /** A duration of n seconds is one or more groups of digits and a unit that add up to n. */
  lemma ParsesWhatAddsUp(text: string, n: nat)
    ensures ParseDuration(text) == Some(n) <==>
      exists groups :: ValidGroups(groups) && GroupsText(groups) == Compact(text) && Total(groups) == n
  {
    forall groups | ValidGroups(groups) && GroupsText(groups) == Compact(text)
      ensures ParseDuration(text) == Some(Total(groups))
    {
      GroupsAddUp(groups);
    }
    if ParseDuration(text).Some? {
      var groups := AcceptedIsGroups(Compact(text));
      GroupsAddUp(groups);
    }
  }


  // ---- Units, space and letter case ----

  /** The units nest: a day is 24 hours, an hour 60 minutes, a minute 60 seconds. */
  lemma UnitsNest(n: nat)
    ensures InSeconds(n, 's') == n
    ensures InSeconds(n, 'm') == InSeconds(60 * n, 's')
    ensures InSeconds(n, 'h') == InSeconds(60 * n, 'm')
    ensures InSeconds(n, 'd') == InSeconds(24 * n, 'h')
  {}

  predicate AllSpace(s: string) {
    forall i | 0 <= i < |s| :: IsSpace(s[i])
  }

  lemma {:induction false} StripsLeft(a: string, text: string)
    requires AllSpace(a)
    ensures StripLeft(a + text) == StripLeft(text)
  {
    if a == [] {
      assert a + text == text;
    } else {
      assert (a + text)[1..] == a[1..] + text;
      StripsLeft(a[1..], text);
    }
  }

  lemma {:induction false} StripsRight(text: string, b: string)
    requires AllSpace(b)
    ensures StripRight(text + b) == StripRight(text)
  {
    if b == [] {
      assert text + b == text;
    } else {
      assert (text + b)[..|text + b| - 1] == text + b[..|b| - 1];
      StripsRight(text, b[..|b| - 1]);
    }
  }

  lemma {:induction false} StripLeftKeepsEnd(text: string, b: string)
    requires AllSpace(b)
    ensures exists c :: AllSpace(c) && StripLeft(text + b) == StripLeft(text) + c
    decreases |text| + |b|
  {
    if text == [] {
      assert text + b == b;
      StripsLeft(b, "");
      assert b + "" == b;
      assert AllSpace("") && StripLeft(b) == StripLeft(text) + "";
    } else if IsSpace(text[0]) {
      assert (text + b)[1..] == text[1..] + b;
      StripLeftKeepsEnd(text[1..], b);
    }
  }

  /** Space around a duration and the case of its letters do not matter. */
  lemma IgnoresSpaceAndCase(a: string, text: string, b: string, other: string)
    requires AllSpace(a) && AllSpace(b) && LowerAll(other) == LowerAll(text)
    ensures ParseDuration(a + text + b) == ParseDuration(text)
    ensures ParseDuration(other) == ParseDuration(text)
  {
    assert a + text + b == a + (text + b);
    StripsLeft(a, text + b);
    StripLeftKeepsEnd(text, b);
    var c :| AllSpace(c) && StripLeft(text + b) == StripLeft(text) + c;
    StripsRight(StripLeft(text), c);
    StripsAlike(other, text);
  }

  lemma LowerAt(x: string, y: string)
    requires LowerAll(x) == LowerAll(y)
    ensures |x| == |y| && forall i | 0 <= i < |x| :: Lower(x[i]) == Lower(y[i]) && (IsSpace(x[i]) <==> IsSpace(y[i]))
  {
    assert |LowerAll(x)| == |LowerAll(y)|;
    forall i | 0 <= i < |x| ensures Lower(x[i]) == Lower(y[i]) {
      assert LowerAll(x)[i] == LowerAll(y)[i];
    }
  }

  lemma {:induction false} LeftAlike(x: string, y: string)
    requires LowerAll(x) == LowerAll(y)
    ensures LowerAll(StripLeft(x)) == LowerAll(StripLeft(y))
  {
    LowerAt(x, y);
    if x != [] && IsSpace(x[0]) {
      assert LowerAll(x[1..]) == LowerAll(x)[1..] && LowerAll(y[1..]) == LowerAll(y)[1..];
      LeftAlike(x[1..], y[1..]);
    }
  }

  lemma {:induction false} RightAlike(x: string, y: string)
    requires LowerAll(x) == LowerAll(y)
    ensures LowerAll(StripRight(x)) == LowerAll(StripRight(y))
  {
    LowerAt(x, y);
    var n := |x| - 1;
    if x != [] && IsSpace(x[n]) {
      assert LowerAll(x[..n]) == LowerAll(x)[..n] && LowerAll(y[..n]) == LowerAll(y)[..n];
      RightAlike(x[..n], y[..n]);
    }
  }

  lemma StripsAlike(x: string, y: string)
    requires LowerAll(x) == LowerAll(y)
    ensures Compact(x) == Compact(y)
  {
    LeftAlike(x, y);
    RightAlike(StripLeft(x), StripLeft(y));
  }
}
