/**
 * Glob matching (internal/store/store.go, MatchGlob and matchBracket). The matcher interprets the
 * pattern as it goes; here the pattern is compiled once into tokens whose language is defined
 * without any matching procedure, and the matcher is proved to decide that language.
 */
module Glob {

  datatype Span = Span(lo: char, hi: char)

  datatype Token =
    | Literal(c: char)
    | AnyOne
    | AnyRun
    | Class(negate: bool, spans: seq<Span>)
    | Never

  // ----- compiling a pattern -----

  /** A parsed bracket body: the class and the pattern after the closing bracket. */
  datatype Bracket = Unclosed | Closed(negate: bool, spans: seq<Span>, rest: string)

  datatype Scan = NoEnd | End(spans: seq<Span>, at: nat)

  /** The spans from index `i` up to the closing bracket; a `]` at index 0 is an ordinary member. */
  function ScanClass(p: string, i: nat): (r: Scan)
    ensures r.End? ==> i <= r.at < |p|
    decreases |p| - i
  {
    if i >= |p| then NoEnd
    else if p[i] == ']' && i > 0 then End([], i)
    else if p[i] == '\\' && i + 1 < |p| then Prefix(Span(p[i + 1], p[i + 1]), ScanClass(p, i + 2))
    else if i + 2 < |p| && p[i + 1] == '-' then Prefix(Span(p[i], p[i + 2]), ScanClass(p, i + 3))
    else Prefix(Span(p[i], p[i]), ScanClass(p, i + 1))
  }

  function Prefix(s: Span, r: Scan): Scan {
    if r.NoEnd? then NoEnd else End([s] + r.spans, r.at)
  }

  predicate Negated(p: string) { |p| > 0 && (p[0] == '^' || p[0] == '!') }

  function ParseBracket(p: string): (r: Bracket)
    ensures r.Closed? ==> |r.rest| < |p|
  {
    var body := if Negated(p) then p[1..] else p;
    var scan := ScanClass(body, 0);
    if scan.NoEnd? then Unclosed else Closed(Negated(p), scan.spans, body[scan.at + 1..])
  }

  function Compile(p: string): seq<Token>
    decreases |p|
  {
    if p == [] then []
    else match p[0]
      case '*' => [AnyRun] + Compile(p[1..])
      case '?' => [AnyOne] + Compile(p[1..])
      case '[' =>
        var b := ParseBracket(p[1..]);
        if b.Unclosed? then [Never] else [Class(b.negate, b.spans)] + Compile(b.rest)
      case '\\' => if |p| == 1 then [Never] else [Literal(p[1])] + Compile(p[2..])
      case c => [Literal(c)] + Compile(p[1..])
  }

  // ----- the language of a token list -----

  predicate InSpans(spans: seq<Span>, c: char) {
    exists i :: 0 <= i < |spans| && spans[i].lo <= c <= spans[i].hi
  }

  predicate Accepts(t: Token, part: string) {
    match t
    case Literal(c) => part == [c]
    case AnyOne => |part| == 1
    case AnyRun => true
    case Class(negate, spans) => |part| == 1 && (InSpans(spans, part[0]) != negate)
    case Never => false
  }

  function Concat(parts: seq<string>): string {
    if parts == [] then [] else parts[0] + Concat(parts[1..])
  }

  ghost predicate Splits(parts: seq<string>, toks: seq<Token>, s: string) {
    |parts| == |toks| && Concat(parts) == s && forall i :: 0 <= i < |toks| ==> Accepts(toks[i], parts[i])
  }

  /** Some way of cutting `s` gives every token a piece it accepts. */
  ghost predicate InLanguage(toks: seq<Token>, s: string) {
    exists parts :: Splits(parts, toks, s)
  }

  // ----- the language, one token at a time -----

  lemma EmptyLanguage(s: string)
    ensures InLanguage([], s) <==> s == []
  {
    if s == [] { assert Splits([], [], s); }
  }

  lemma LanguageCons(t: Token, ts: seq<Token>, s: string, k: nat)
    requires k <= |s| && Accepts(t, s[..k]) && InLanguage(ts, s[k..])
    ensures InLanguage([t] + ts, s)
  {
    var parts :| Splits(parts, ts, s[k..]);
    var all := [s[..k]] + parts;
    assert all[1..] == parts && s == s[..k] + s[k..];
    assert Splits(all, [t] + ts, s);
  }

  lemma LanguageUncons(t: Token, ts: seq<Token>, s: string) returns (k: nat)
    requires InLanguage([t] + ts, s)
    ensures k <= |s| && Accepts(t, s[..k]) && InLanguage(ts, s[k..])
  {
    var all :| Splits(all, [t] + ts, s);
    k := |all[0]|;
    assert s == all[0] + Concat(all[1..]);
    assert ([t] + ts)[0] == t;
    forall i | 0 <= i < |ts| ensures Accepts(ts[i], all[1..][i]) { assert ([t] + ts)[i + 1] == ts[i]; }
    assert Splits(all[1..], ts, s[k..]);
  }

  /** A token that accepts only one-byte pieces consumes exactly the first byte. */
  lemma OneByteToken(t: Token, ts: seq<Token>, s: string)
    requires !t.AnyRun?
    ensures InLanguage([t] + ts, s) <==> |s| > 0 && Accepts(t, [s[0]]) && InLanguage(ts, s[1..])
  {
    if InLanguage([t] + ts, s) {
      var k := LanguageUncons(t, ts, s);
      assert s[..1] == [s[0]];
    }
    if |s| > 0 && Accepts(t, [s[0]]) && InLanguage(ts, s[1..]) {
      assert s[..1] == [s[0]];
      LanguageCons(t, ts, s, 1);
    }
  }

  ghost predicate SomeSuffix(ts: seq<Token>, s: string) {
    exists k :: 0 <= k <= |s| && InLanguage(ts, s[k..])
  }

  lemma RunToken(ts: seq<Token>, s: string)
    ensures InLanguage([AnyRun] + ts, s) <==> SomeSuffix(ts, s)
  {
    if InLanguage([AnyRun] + ts, s) { var k := LanguageUncons(AnyRun, ts, s); }
    if SomeSuffix(ts, s) {
      var k :| 0 <= k <= |s| && InLanguage(ts, s[k..]);
      LanguageCons(AnyRun, ts, s, k);
    }
  }

  /** Repeating a star changes nothing. */
  lemma DoubleRun(ts: seq<Token>, s: string)
    ensures InLanguage([AnyRun] + ([AnyRun] + ts), s) <==> InLanguage([AnyRun] + ts, s)
  {
    RunToken([AnyRun] + ts, s);
    RunToken(ts, s);
    if SomeSuffix([AnyRun] + ts, s) {
      var k :| 0 <= k <= |s| && InLanguage([AnyRun] + ts, s[k..]);
      RunToken(ts, s[k..]);
      var j :| 0 <= j <= |s[k..]| && InLanguage(ts, s[k..][j..]);
      assert s[k..][j..] == s[k + j..];
    }
    if SomeSuffix(ts, s) {
      assert s[0..] == s;
      assert InLanguage([AnyRun] + ts, s[0..]);
    }
  }

  lemma RunAcceptsAll(s: string)
    ensures InLanguage([AnyRun] + [], s)
  {
    EmptyLanguage(s[|s|..]);
    assert InLanguage([], s[|s|..]);
    RunToken([], s);
  }

  lemma NeverToken(ts: seq<Token>, s: string)
    ensures !InLanguage([Never] + ts, s)
  {
    OneByteToken(Never, ts, s);
  }

  // ----- what each pattern character means -----

  /** The pattern matches the string. */
  ghost predicate Matches(pattern: string, s: string) { InLanguage(Compile(pattern), s) }

  /** The empty pattern matches the empty string only. */
  lemma MatchesEmpty(s: string)
    ensures Matches("", s) <==> s == ""
  {
    EmptyLanguage(s);
  }

  /** A question mark stands for any one byte. */
  lemma MatchesAnyOne(p: string, s: string)
    ensures Matches("?" + p, s) <==> s != "" && Matches(p, s[1..])
  {
    assert ("?" + p)[1..] == p;
    OneByteToken(AnyOne, Compile(p), s);
  }

  /** A star stands for any run of bytes. */
  lemma MatchesRun(p: string, s: string)
    ensures Matches("*" + p, s) <==> exists k :: 0 <= k <= |s| && Matches(p, s[k..])
  {
    assert ("*" + p)[1..] == p;
    RunToken(Compile(p), s);
    if k :| 0 <= k <= |s| && InLanguage(Compile(p), s[k..]) { assert Matches(p, s[k..]); }
  }

  /** An ordinary byte, or any byte after a backslash, stands for itself. */
  lemma MatchesByte(c: char, p: string, s: string)
    ensures c !in "*?[\\" ==> (Matches([c] + p, s) <==> s != "" && s[0] == c && Matches(p, s[1..]))
    ensures Matches(['\\', c] + p, s) <==> s != "" && s[0] == c && Matches(p, s[1..])
  {
    assert ([c] + p)[1..] == p && (['\\', c] + p)[2..] == p;
    OneByteToken(Literal(c), Compile(p), s);
  }

  /** A backslash at the end, or a class that is never closed, matches nothing. */
  lemma MatchesNothing(body: string, s: string)
    ensures !Matches("\\", s)
    ensures ']' !in body ==> !Matches("[" + body, s)
  {
    NeverToken([], s);
    if ']' !in body {
      assert ("[" + body)[1..] == body;
      NoClosing(if Negated(body) then body[1..] else body, 0);
    }
  }

  lemma {:induction false} NoClosing(p: string, i: nat)
    requires ']' !in p
    ensures ScanClass(p, i).NoEnd?
    decreases |p| - i
  {
    if i < |p| {
      if p[i] == '\\' && i + 1 < |p| { NoClosing(p, i + 2); }
      else if i + 2 < |p| && p[i + 1] == '-' { NoClosing(p, i + 3); }
      else { NoClosing(p, i + 1); }
    }
  }

  /** How members of a class are written: a byte, a byte after a backslash, or two bytes with a dash between. */
  datatype Member = Lone(c: char) | Quoted(c: char) | Range(lo: char, hi: char)

  function Write(m: Member): string {
    match m
    case Lone(c) => [c]
    case Quoted(c) => ['\\', c]
    case Range(lo, hi) => [lo, '-', hi]
  }

  function WriteAll(ms: seq<Member>): string { if ms == [] then "" else Write(ms[0]) + WriteAll(ms[1..]) }

  /** Written as it stands, the member cannot be mistaken for another. */
  predicate Plain(m: Member) {
    match m
    case Lone(c) => c != ']' && c != '\\' && c != '-'
    case Quoted(_) => true
    case Range(lo, _) => lo != ']' && lo != '\\' && lo != '-'
  }

  predicate Has(m: Member, c: char) { if m.Range? then m.lo <= c <= m.hi else c == m.c }

  function SpanOf(m: Member): Span { if m.Range? then Span(m.lo, m.hi) else Span(m.c, m.c) }

  function SpansOf(ms: seq<Member>): (r: seq<Span>)
    ensures |r| == |ms| && forall i :: 0 <= i < |ms| ==> r[i] == SpanOf(ms[i])
  {
    seq(|ms|, i requires 0 <= i < |ms| => SpanOf(ms[i]))
  }

  /** One member is scanned as one span. */
  lemma ScanMember(p: string, i: nat, m: Member)
    requires Plain(m) && i + |Write(m)| < |p| && p[i..i + |Write(m)|] == Write(m) && p[i + |Write(m)|] != '-'
    ensures ScanClass(p, i) == Prefix(SpanOf(m), ScanClass(p, i + |Write(m)|))
  {
    var w := p[i..i + |Write(m)|];
    assert p[i] == w[0] && (|w| > 1 ==> p[i + 1] == w[1]) && (|w| > 2 ==> p[i + 2] == w[2]);
  }

  lemma {:induction false} ScanWritten(before: string, ms: seq<Member>, rest: string)
    requires forall i :: 0 <= i < |ms| ==> Plain(ms[i])
    requires before != "" || ms != []
    ensures ScanClass(before + WriteAll(ms) + "]" + rest, |before|) == End(SpansOf(ms), |before| + |WriteAll(ms)|)
    decreases |ms|
  {
    var p := before + WriteAll(ms) + "]" + rest;
    if ms == [] {
      assert p[|before|] == ']';
    } else {
      ScanFirst(before, ms, rest);
      ScanWritten(before + Write(ms[0]), ms[1..], rest);
      assert SpansOf(ms) == [SpanOf(ms[0])] + SpansOf(ms[1..]);
    }
  }

  lemma ScanFirst(before: string, ms: seq<Member>, rest: string)
    requires ms != [] && forall i :: 0 <= i < |ms| ==> Plain(ms[i])
    ensures var p := before + WriteAll(ms) + "]" + rest;
            && p == before + Write(ms[0]) + WriteAll(ms[1..]) + "]" + rest
            && ScanClass(p, |before|) == Prefix(SpanOf(ms[0]), ScanClass(p, |before + Write(ms[0])|))
  {
    hide ScanClass, Plain, SpanOf, Write;
    var p, w, after := before + WriteAll(ms) + "]" + rest, Write(ms[0]), WriteAll(ms[1..]) + "]" + rest;
    assert p == before + w + after;
    NextIsNoDash(ms[1..], rest);
    Middle(before, w, after);
    ScanMember(p, |before|, ms[0]);
  }

  lemma Middle(a: string, b: string, c: string)
    requires c != ""
    ensures var s := a + b + c; s[|a|..|a| + |b|] == b && s[|a| + |b|] == c[0]
  {}

  lemma NextIsNoDash(ms: seq<Member>, rest: string)
    requires forall i :: 0 <= i < |ms| ==> Plain(ms[i])
    ensures (WriteAll(ms) + "]" + rest)[0] != '-'
  {}

  lemma BracketWritten(mark: string, ms: seq<Member>, p: string)
    requires mark == "" || mark == "^" || mark == "!"
    requires ms != [] && forall i :: 0 <= i < |ms| ==> Plain(ms[i])
    requires mark == "" ==> (WriteAll(ms)[0] != '^' && WriteAll(ms)[0] != '!')
    ensures ParseBracket(mark + WriteAll(ms) + "]" + p) == Closed(mark != "", SpansOf(ms), p)
  {
    hide ScanClass, Plain, WriteAll, ParseBracket, SpansOf;
    var w := WriteAll(ms);
    var inner := w + "]" + p;
    SomethingWritten(ms);
    ScanWritten("", ms, p);
    Regroup(mark, w, p);
    ParseMarked(mark, inner, SpansOf(ms), |w|);
  }

  lemma Regroup(mark: string, w: string, p: string)
    requires w != ""
    ensures var inner := w + "]" + p;
            && "" + w + "]" + p == inner && mark + w + "]" + p == mark + inner
            && inner[|w| + 1..] == p && inner[0] == w[0]
  {}

  lemma ParseMarked(mark: string, inner: string, spans: seq<Span>, at: nat)
    requires mark == "" || mark == "^" || mark == "!"
    requires inner != "" && (mark == "" ==> inner[0] != '^' && inner[0] != '!')
    requires ScanClass(inner, 0) == End(spans, at)
    ensures ParseBracket(mark + inner) == Closed(mark != "", spans, inner[at + 1..])
  {
    hide ScanClass, Negated;
    MarkedBody(mark, inner);
  }

  lemma SomethingWritten(ms: seq<Member>)
    requires ms != []
    ensures WriteAll(ms) != ""
  {
    assert Write(ms[0]) != "";
  }

  lemma MarkedBody(mark: string, inner: string)
    requires mark == "" || mark == "^" || mark == "!"
    requires inner != "" && (mark == "" ==> inner[0] != '^' && inner[0] != '!')
    ensures Negated(mark + inner) == (mark != "")
    ensures (if Negated(mark + inner) then (mark + inner)[1..] else mark + inner) == inner
  {
    if mark == "" { assert mark + inner == inner; }
  }

  lemma CompileClass(body: string)
    ensures Compile("[" + body) ==
              var b := ParseBracket(body);
              if b.Unclosed? then [Never] else [Class(b.negate, b.spans)] + Compile(b.rest)
  {
    hide ParseBracket;
    assert ("[" + body)[1..] == body;
  }

  /** A class stands for one byte in one of its ranges, both ends included; after `^` or `!`, for one in none. */
  lemma MatchesClass(mark: string, ms: seq<Member>, p: string, s: string)
    requires mark == "" || mark == "^" || mark == "!"
    requires ms != [] && forall i :: 0 <= i < |ms| ==> Plain(ms[i])
    requires mark == "" ==> (WriteAll(ms)[0] != '^' && WriteAll(ms)[0] != '!')
    ensures Matches("[" + mark + WriteAll(ms) + "]" + p, s) <==>
              s != "" && Matches(p, s[1..]) &&
              ((exists i :: 0 <= i < |ms| && Has(ms[i], s[0])) <==> mark == "")
  {
    hide WriteAll, Plain, Has, Matches, ParseBracket;
    var body := mark + WriteAll(ms) + "]" + p;
    assert "[" + mark + WriteAll(ms) + "]" + p == "[" + body;
    BracketWritten(mark, ms, p);
    MatchesParsed(body, mark != "", ms, p, s);
  }

  lemma MatchesParsed(body: string, negate: bool, ms: seq<Member>, p: string, s: string)
    requires ParseBracket(body) == Closed(negate, SpansOf(ms), p)
    ensures Matches("[" + body, s) <==>
              s != "" && Matches(p, s[1..]) && ((exists i :: 0 <= i < |ms| && Has(ms[i], s[0])) <==> !negate)
  {
    hide Has, InLanguage, InSpans, Compile, ParseBracket;
    CompileClass(body);
    OneByteToken(Class(negate, SpansOf(ms)), Compile(p), s);
    if s != "" { SpansHave(ms, s[0]); }
  }

  lemma SpansHave(ms: seq<Member>, c: char)
    ensures InSpans(SpansOf(ms), c) <==> exists i :: 0 <= i < |ms| && Has(ms[i], c)
  {
    if i :| 0 <= i < |ms| && Has(ms[i], c) { assert SpansOf(ms)[i] == SpanOf(ms[i]); }
    if InSpans(SpansOf(ms), c) {
      var i :| 0 <= i < |ms| && SpansOf(ms)[i].lo <= c <= SpansOf(ms)[i].hi;
      assert Has(ms[i], c);
    }
  }

  /** Classes on the bytes themselves: a range, its complement, and a closing bracket in first place. */
  lemma MatchesRanges(lo: char, hi: char, p: string, s: string)
    requires lo !in "]\\-^!"
    ensures Matches(['[', lo, '-', hi, ']'] + p, s) <==> s != "" && lo <= s[0] <= hi && Matches(p, s[1..])
    ensures Matches(['[', '^', lo, '-', hi, ']'] + p, s) <==> s != "" && !(lo <= s[0] <= hi) && Matches(p, s[1..])
    ensures Matches(['[', '!', lo, '-', hi, ']'] + p, s) <==> s != "" && !(lo <= s[0] <= hi) && Matches(p, s[1..])
    ensures Matches("[]]" + p, s) <==> s != "" && s[0] == ']' && Matches(p, s[1..])
  {
    var ms := [Range(lo, hi)];
    assert WriteAll(ms) == [lo, '-', hi] by { assert ms[1..] == []; }
    MatchesClass("", ms, p, s);
    MatchesClass("^", ms, p, s);
    MatchesClass("!", ms, p, s);
    assert "[" + "" + WriteAll(ms) + "]" + p == ['[', lo, '-', hi, ']'] + p;
    assert "[" + "^" + WriteAll(ms) + "]" + p == ['[', '^', lo, '-', hi, ']'] + p;
    assert "[" + "!" + WriteAll(ms) + "]" + p == ['[', '!', lo, '-', hi, ']'] + p;
    assert forall c :: Has(ms[0], c) <==> lo <= c <= hi;
    FirstBracket(p, s);
  }

  /** A class of one byte, plain or after a backslash. */
  lemma MatchesSingleton(c: char, p: string, s: string)
    ensures c !in "]\\-^!" ==> (Matches(['[', c, ']'] + p, s) <==> s != "" && s[0] == c && Matches(p, s[1..]))
    ensures Matches(['[', '\\', c, ']'] + p, s) <==> s != "" && s[0] == c && Matches(p, s[1..])
  {
    hide Matches;
    var lone, quoted := [Lone(c)], [Quoted(c)];
    assert WriteAll(quoted) == ['\\', c] by { assert quoted[1..] == []; }
    assert WriteAll(lone) == [c] by { assert lone[1..] == []; }
    assert "[" + "" + WriteAll(quoted) + "]" + p == ['[', '\\', c, ']'] + p;
    assert "[" + "" + WriteAll(lone) + "]" + p == ['[', c, ']'] + p;
    assert (forall x :: Has(quoted[0], x) <==> x == c) && (forall x :: Has(lone[0], x) <==> x == c);
    MatchesClass("", quoted, p, s);
    if c !in "]\\-^!" { MatchesClass("", lone, p, s); }
  }

  lemma FirstBracket(p: string, s: string)
    ensures Matches("[]]" + p, s) <==> s != "" && s[0] == ']' && Matches(p, s[1..])
  {
    var pattern := "[]]" + p;
    var body := "]]" + p;
    assert pattern[1..] == body && body[2..] == p;
    var b := ParseBracket(body);
    assert ScanClass(body, 1) == End([], 1);
    assert ScanClass(body, 0) == End([Span(']', ']')], 1);
    assert b == Closed(false, [Span(']', ']')], p);
    OneByteToken(Class(b.negate, b.spans), Compile(p), s);
    if s != "" { assert InSpans(b.spans, s[0]) <==> b.spans[0].lo <= s[0] <= b.spans[0].hi; }
  }

  // ----- quoting -----

  /** A backslash before every byte. */
  function Quote(s: string): string {
    if s == [] then [] else ['\\', s[0]] + Quote(s[1..])
  }

  /** A quoted string, whatever bytes it holds, is a pattern for itself and nothing else. */
  lemma {:induction false} QuotedMatchesOnlyItself(s: string, t: string)
    ensures Matches(Quote(s), t) <==> s == t
  {
    if s == [] { EmptyLanguage(t); } else {
      var p := Quote(s);
      assert p[1] == s[0] && p[2..] == Quote(s[1..]);
      OneByteToken(Literal(s[0]), Compile(p[2..]), t);
      if |t| > 0 {
        QuotedMatchesOnlyItself(s[1..], t[1..]);
        assert s == [s[0]] + s[1..] && t == [t[0]] + t[1..];
      }
    }
  }

  // ----- the matcher -----

  /** Decides whether the pattern matches, and terminates, for every pattern and string. */
  method MatchGlob(pattern: string, str: string) returns (matched: bool)
    ensures matched <==> Matches(pattern, str)
    decreases |pattern|
  {
    var p, s := pattern, str;
    while |p| > 0
      invariant |p| <= |pattern|
      invariant InLanguage(Compile(p), s) <==> InLanguage(Compile(pattern), str)
      decreases |p|
    {
      match p[0]
      case '*' =>
        var rest := SkipStars(p, s);
        if |rest| == 0 {
          RunAcceptsAll(s);
          return true;
        }
        RunToken(Compile(rest), s);
        for i := 0 to |s| + 1
          invariant forall k :: 0 <= k < i ==> !InLanguage(Compile(rest), s[k..])
        {
          var found := MatchGlob(rest, s[i..]);
          if found { return true; }
        }
        return false;
      case '?' =>
        OneByteToken(AnyOne, Compile(p[1..]), s);
        if |s| == 0 { return false; }
        p, s := p[1..], s[1..];
      case '[' =>
        ghost var b := ParseBracket(p[1..]);
        if b.Closed? { OneByteToken(Class(b.negate, b.spans), Compile(b.rest), s); } else { NeverToken([], s); }
        if |s| == 0 { return false; }
        var rest, ok := MatchBracket(p[1..], s[0]);
        if !ok { return false; }
        p, s := rest, s[1..];
      case '\\' =>
        p := p[1..];
        if |p| == 0 {
          NeverToken([], s);
          return false;
        }
        OneByteToken(Literal(p[0]), Compile(p[1..]), s);
        if |s| == 0 || p[0] != s[0] { return false; }
        p, s := p[1..], s[1..];
      case _ =>
        OneByteToken(Literal(p[0]), Compile(p[1..]), s);
        if |s| == 0 || p[0] != s[0] { return false; }
        p, s := p[1..], s[1..];
    }
    EmptyLanguage(s);
    return |s| == 0;
  }

  method SkipStars(p: string, ghost s: string) returns (rest: string)
    requires |p| > 0 && p[0] == '*'
    ensures |rest| < |p|
    ensures InLanguage(Compile(p), s) <==> InLanguage([AnyRun] + Compile(rest), s)
  {
    rest := p[1..];
    while |rest| > 0 && rest[0] == '*'
      invariant |rest| < |p|
      invariant InLanguage(Compile(p), s) <==> InLanguage([AnyRun] + Compile(rest), s)
    {
      DoubleRun(Compile(rest[1..]), s);
      rest := rest[1..];
    }
  }

  /** Where the class ends does not depend on the byte tested, only whether it matches. */
  method MatchBracket(pattern: string, ch: char) returns (rest: string, ok: bool)
    ensures var b := ParseBracket(pattern);
            if b.Closed? && Accepts(Class(b.negate, b.spans), [ch]) then ok && rest == b.rest else !ok && rest == ""
  {
    var p := pattern;
    var negate := false;
    if |p| > 0 && (p[0] == '^' || p[0] == '!') {
      negate := true;
      p := p[1..];
    }
    var i, matched := FindClassEnd(p, ch);
    if i >= |p| { return "", false; }
    if negate { matched := !matched; }
    if !matched { return "", false; }
    return p[i + 1..], true;
  }

  method FindClassEnd(p: string, ch: char) returns (i: nat, matched: bool)
    ensures match ScanClass(p, 0)
            case NoEnd => i >= |p|
            case End(spans, at) => i == at && matched == InSpans(spans, ch)
  {
    matched := false;
    i := 0;
    ghost var seen: seq<Span> := [];
    assert ScanClass(p, 0).End? ==> [] + ScanClass(p, 0).spans == ScanClass(p, 0).spans;
    while i < |p|
      invariant ScanClass(p, 0) == Append(seen, ScanClass(p, i)) && matched == InSpans(seen, ch)
      decreases |p| - i
    {
      if p[i] == ']' && i > 0 {
        assert seen + [] == seen;
        return;
      }
      ghost var span;
      if p[i] == '\\' && i + 1 < |p| {
        i := i + 1;
        span := Span(p[i], p[i]);
        if p[i] == ch { matched := true; }
        i := i + 1;
      } else if i + 2 < |p| && p[i + 1] == '-' {
        var lo, hi := p[i], p[i + 2];
        span := Span(lo, hi);
        if ch >= lo && ch <= hi { matched := true; }
        i := i + 3;
      } else {
        span := Span(p[i], p[i]);
        if p[i] == ch { matched := true; }
        i := i + 1;
      }
      SpansSnoc(seen, span, ch);
      AppendPrefix(seen, span, ScanClass(p, i));
      seen := seen + [span];
    }
  }

  function Append(seen: seq<Span>, r: Scan): Scan {
    if r.NoEnd? then NoEnd else End(seen + r.spans, r.at)
  }

  lemma AppendPrefix(seen: seq<Span>, s: Span, r: Scan)
    ensures Append(seen, Prefix(s, r)) == Append(seen + [s], r)
  {
    if r.End? { assert seen + ([s] + r.spans) == seen + [s] + r.spans; }
  }

  lemma SpansSnoc(seen: seq<Span>, s: Span, c: char)
    ensures InSpans(seen + [s], c) <==> InSpans(seen, c) || s.lo <= c <= s.hi
  {
    var all := seen + [s];
    assert all[|seen|] == s;
    if InSpans(seen, c) {
      var i :| 0 <= i < |seen| && seen[i].lo <= c <= seen[i].hi;
      assert all[i] == seen[i];
    }
  }
}
