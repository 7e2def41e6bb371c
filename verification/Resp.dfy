/**
 * The RESP codec (internal/resp/resp.go) and the value printer of the scripting engine
 * (internal/server/scripting.go, writeValue). The reader's grammar is given as parsing functions
 * on the bytes still to come; the `Reader` and `Writer` objects are proved to follow the grammar
 * and the encoding, and the encoding is proved to be undone by the grammar.
 */
module Resp {
  import opened Common
  import opened Decimal
  import opened Utf8

  const CRLF := "\r\n"

  /** What a read yields: a value and the bytes left over, an error, or a Go run-time panic. */
  datatype Read<T> = Ok(value: T, rest: string) | Err | Panic

  datatype Value =
    | Simple(text: string)
    | Error(text: string)
    | Integer(n: int)
    | Bulk(text: string)
    | NullBulk
    | Array(items: seq<Value>)
    | NullArray

  // ----- the grammar -----

  /** The length of the first line including its line feed, or 0 if there is none. */
  function LineLength(s: string): (n: nat)
    ensures n <= |s| && (n > 0 ==> forall i :: 0 <= i < n - 1 ==> s[i] != '\n')
  {
    if s == "" then 0 else if s[0] == '\n' then 1 else
      var n := LineLength(s[1..]); if n == 0 then 0 else n + 1
  }

  /** A line ends with a line feed; one carriage return before it is dropped. */
  function ParseLine(s: string): (r: Read<string>)
    ensures !r.Panic? && (r.Ok? ==> |r.rest| < |s| && '\n' !in r.value)
  {
    var n := LineLength(s);
    if n == 0 then Err else
      var line := s[..n - 1];
      Ok(if line != "" && line[|line| - 1] == '\r' then line[..|line| - 1] else line, s[n..])
  }

  function ParseNumber(s: string): (r: Read<int>)
    ensures !r.Panic? && (r.Ok? ==> |r.rest| < |s|)
  {
    var line := ParseLine(s);
    if !line.Ok? then Err else
      var n := ParseInt(line.value);
      if n.Number? then Ok(n.n, line.rest) else Err
  }

  /** `l` bytes and a CRLF. A negative length makes Go slice or index out of bounds. */
  function ParseBody(s: string, l: int): (r: Read<string>)
    ensures r.Ok? ==> |r.rest| < |s|
  {
    if l < -1 then Panic
    else if |s| < l + 2 then Err
    else if l == -1 then Panic
    else if s[l..l + 2] != CRLF then Err
    else Ok(s[..l], s[l + 2..])
  }

  function ParseArgument(s: string): (r: Read<string>)
    ensures r.Ok? ==> |r.rest| < |s|
  {
    if s == "" || s[0] != '$' then Err else
      var l := ParseNumber(s[1..]);
      if !l.Ok? then Err else ParseBody(l.rest, l.value)
  }

  function ParseArguments(s: string, n: nat): Read<seq<string>>
    decreases n
  {
    if n == 0 then Ok([], s) else
      match ParseArgument(s)
      case Ok(arg, rest) => Prefix(arg, ParseArguments(rest, n - 1))
      case Err => Err
      case Panic => Panic
  }

  function Prefix<T>(x: T, r: Read<seq<T>>): Read<seq<T>> {
    if r.Ok? then Ok([x] + r.value, r.rest) else r
  }

  /** strings.Fields: the words between white space, `word` being what was read of the first one. */
  function Fields(s: string, word: string): seq<string>
    decreases |s|
  {
    var done := if word == "" then [] else [word];
    if s == "" then done else
      var r := FirstRune(s);
      if IsSpace(r) then done + Fields(s[|r|..], "") else Fields(s[|r|..], word + r)
  }

  /** A first byte other than `*` starts an inline command; the line read begins after that byte. */
  function ParseCommand(s: string): Read<seq<string>> {
    if s == "" then Err
    else if s[0] != '*' then
      var n := LineLength(s[1..]);
      if n == 0 then Err else Ok(Fields(s[..n + 1], ""), s[n + 1..])
    else
      var n := ParseNumber(s[1..]);
      if !n.Ok? then Err else if n.value < 0 then Panic else ParseArguments(n.rest, n.value)
  }

  /** The reader never produces a simple string or error text with a line feed in it. */
  function ParseValue(s: string): (r: Read<Value>)
    ensures r.Ok? ==> |r.rest| < |s| && Clean(r.value)
    decreases |s|, 0
  {
    if s == "" then Err else
      match s[0]
      case '+' => var line := ParseLine(s[1..]); if line.Ok? then Ok(Simple(line.value), line.rest) else Err
      case '-' => var line := ParseLine(s[1..]); if line.Ok? then Ok(Error(line.value), line.rest) else Err
      case ':' => var n := ParseNumber(s[1..]); if n.Ok? then Ok(Integer(n.value), n.rest) else Err
      case '$' =>
        var l := ParseNumber(s[1..]);
        if !l.Ok? then Err
        else if l.value == -1 then Ok(NullBulk, l.rest)
        else
          var body := ParseBody(l.rest, l.value);
          (match body case Ok(text, rest) => Ok(Bulk(text), rest) case Err => Err case Panic => Panic)
      case '*' =>
        var n := ParseNumber(s[1..]);
        if !n.Ok? then Err
        else if n.value == -1 then Ok(NullArray, n.rest)
        else if n.value < 0 then Panic
        else
          var items := ParseItems(n.rest, n.value);
          (match items case Ok(vs, rest) => Ok(Array(vs), rest) case Err => Err case Panic => Panic)
      case _ => Err
  }

  function ParseItems(s: string, n: nat): (r: Read<seq<Value>>)
    ensures r.Ok? ==> |r.rest| <= |s| && |r.value| == n && forall i :: 0 <= i < n ==> Clean(r.value[i])
    decreases |s|, n + 1
  {
    if n == 0 then Ok([], s) else
      match ParseValue(s)
      case Ok(v, rest) => Prefix(v, ParseItems(rest, n - 1))
      case Err => Err
      case Panic => Panic
  }

  // ----- the encoding -----

  function EncodeBulk(s: string): string { "$" + FormatInt(|s|) + CRLF + (s + CRLF) }

  function EncodeBulks(args: seq<string>): string {
    if args == [] then "" else EncodeBulk(args[0]) + EncodeBulks(args[1..])
  }

  function EncodeCommand(args: seq<string>): string {
    "*" + FormatInt(|args|) + CRLF + EncodeBulks(args)
  }

  function EncodeCommands(cmds: seq<seq<string>>): string {
    if cmds == [] then "" else EncodeCommand(cmds[0]) + EncodeCommands(cmds[1..])
  }

  function EncodeValue(v: Value): string {
    match v
    case Simple(text) => "+" + text + CRLF
    case Error(text) => "-" + text + CRLF
    case Integer(n) => ":" + FormatInt(n) + CRLF
    case Bulk(text) => EncodeBulk(text)
    case NullBulk => "$" + FormatInt(-1) + CRLF
    case Array(items) => "*" + FormatInt(|items|) + CRLF + EncodeItems(items)
    case NullArray => "*" + FormatInt(-1) + CRLF
  }

  function EncodeItems(items: seq<Value>): string {
    if items == [] then "" else EncodeValue(items[0]) + EncodeItems(items[1..])
  }

  /** What the source's types guarantee: lengths and integers are 64-bit. */
  predicate Fits(v: Value) {
    match v
    case Integer(n) => MinInt64 <= n <= MaxInt64
    case Bulk(text) => |text| <= MaxInt64
    case Array(items) => |items| <= MaxInt64 && forall i :: 0 <= i < |items| ==> Fits(items[i])
    case _ => true
  }

  predicate FitsCommand(args: seq<string>) {
    |args| <= MaxInt64 && forall i :: 0 <= i < |args| ==> |args[i]| <= MaxInt64
  }

  /** No simple string or error text, at any depth, holds a line feed. */
  predicate Clean(v: Value) {
    match v
    case Simple(text) => '\n' !in text
    case Error(text) => '\n' !in text
    case Array(items) => forall i :: 0 <= i < |items| ==> Clean(items[i])
    case _ => true
  }

  // ----- round trips -----

  lemma {:induction false} LineLengthOf(text: string, rest: string)
    requires '\n' !in text
    ensures LineLength(text + "\n" + rest) == |text| + 1
  {
    var s := text + "\n" + rest;
    if text == "" { assert s[0] == '\n'; } else {
      assert s[1..] == text[1..] + "\n" + rest;
      LineLengthOf(text[1..], rest);
    }
  }

  lemma LineRoundTrip(text: string, rest: string)
    requires '\n' !in text
    ensures ParseLine(text + CRLF + rest) == Ok(text, rest)
  {
    LineLengthOf(text + "\r", rest);
    var s := text + CRLF + rest;
    assert s == (text + "\r") + "\n" + rest;
    assert s[..|text| + 1] == text + "\r" && s[|text| + 2..] == rest;
    assert (text + "\r")[..|text|] == text;
  }

  lemma NumberRoundTrip(n: int, rest: string)
    requires MinInt64 <= n <= MaxInt64
    ensures ParseNumber(FormatInt(n) + CRLF + rest) == Ok(n, rest)
  {
    ParseFormat(n);
    LineRoundTrip(FormatInt(n), rest);
  }

  lemma BodyRoundTrip(text: string, rest: string)
    ensures ParseBody(text + CRLF + rest, |text|) == Ok(text, rest)
  {
    var s := text + CRLF + rest;
    assert s[|text|..|text| + 2] == CRLF && s[..|text|] == text && s[|text| + 2..] == rest;
  }

  lemma ArgumentRoundTrip(arg: string, rest: string)
    requires |arg| <= MaxInt64
    ensures ParseArgument(EncodeBulk(arg) + rest) == Ok(arg, rest)
  {
    TaggedBlock('$', FormatInt(|arg|), arg + CRLF, rest);
    NumberRoundTrip(|arg|, arg + CRLF + rest);
    BodyRoundTrip(arg, rest);
  }

  lemma {:induction false} ArgumentsRoundTrip(args: seq<string>, rest: string)
    requires forall i :: 0 <= i < |args| ==> |args[i]| <= MaxInt64
    ensures ParseArguments(EncodeBulks(args) + rest, |args|) == Ok(args, rest)
  {
    hide EncodeBulk, ParseArgument;
    if args != [] {
      ArgumentsRoundTrip(args[1..], rest);
      OneMoreArgument(args[0], EncodeBulks(args[1..]), args[1..], rest);
      assert args == [args[0]] + args[1..];
    }
  }

  lemma OneMoreArgument(arg: string, tail: string, args: seq<string>, rest: string)
    requires |arg| <= MaxInt64 && ParseArguments(tail + rest, |args|) == Ok(args, rest)
    ensures ParseArguments(EncodeBulk(arg) + tail + rest, |args| + 1) == Ok([arg] + args, rest)
  {
    hide EncodeBulk, ParseArgument;
    ArgumentRoundTrip(arg, tail + rest);
    assert EncodeBulk(arg) + tail + rest == EncodeBulk(arg) + (tail + rest);
  }

  /** Arbitrary bytes in the arguments, and exactly the command's own bytes are consumed. */
  lemma CommandRoundTrip(args: seq<string>, rest: string)
    requires FitsCommand(args)
    ensures ParseCommand(EncodeCommand(args) + rest) == Ok(args, rest)
  {
    TaggedBlock('*', FormatInt(|args|), EncodeBulks(args), rest);
    NumberRoundTrip(|args|, EncodeBulks(args) + rest);
    ArgumentsRoundTrip(args, rest);
  }

  function ParseCommands(s: string, n: nat): Read<seq<seq<string>>>
    decreases n
  {
    if n == 0 then Ok([], s) else
      match ParseCommand(s)
      case Ok(args, rest) => Prefix(args, ParseCommands(rest, n - 1))
      case Err => Err
      case Panic => Panic
  }

  // ----- inline commands -----

  /** Visible ASCII characters only. */
  predicate PlainWord(w: string) { w != "" && forall i :: 0 <= i < |w| ==> '!' <= w[i] <= '~' }

  /** Words with single spaces between them. */
  function Spaced(words: seq<string>): string {
    if words == [] then "" else if |words| == 1 then words[0] else words[0] + " " + Spaced(words[1..])
  }

  lemma OneCharacter(c: char, s: string, word: string)
    requires c < '\U{80}'
    ensures Fields([c] + s, word) ==
              if IsSpace([c]) then (if word == "" then [] else [word]) + Fields(s, "") else Fields(s, word + [c])
  {
    var all := [c] + s;
    assert RuneLen(all) == 1 && all[..1] == [c] && all[1..] == s;
  }

  lemma PlainIsNoSpace(c: char)
    requires '!' <= c <= '~'
    ensures !IsSpace([c])
  {}

  lemma {:induction false} WholeWord(w: string, s: string, word: string)
    requires forall i :: 0 <= i < |w| ==> '!' <= w[i] <= '~'
    ensures Fields(w + s, word) == Fields(s, word + w)
    decreases |w|
  {
    hide Fields, IsSpace;
    if w == "" { assert w + s == s && word + w == word; } else {
      PlainIsNoSpace(w[0]);
      OneCharacter(w[0], w[1..] + s, word);
      assert w + s == [w[0]] + (w[1..] + s);
      WholeWord(w[1..], s, word + [w[0]]);
      assert word + [w[0]] + w[1..] == word + w;
    }
  }

  lemma EndOfLine(word: string)
    ensures Fields("\r\n", word) == if word == "" then [] else [word]
  {
    OneCharacter('\n', "", "");
    OneCharacter('\r', "\n", word);
    assert "\r\n" == ['\r'] + "\n" && "\n" == ['\n'] + "";
  }

  lemma SpaceAfter(word: string, rest: string)
    requires word != ""
    ensures Fields(" " + rest, word) == [word] + Fields(rest, "")
  {
    OneCharacter(' ', rest, word);
    assert " " + rest == [' '] + rest;
  }

  lemma {:induction false} FieldsOfSpaced(words: seq<string>)
    requires forall i :: 0 <= i < |words| ==> PlainWord(words[i])
    ensures Fields(Spaced(words) + "\r\n", "") == words
    decreases |words|
  {
    hide Fields;
    if words == [] {
      EndOfLine("");
      assert Spaced(words) + "\r\n" == "\r\n";
    } else {
      var w := words[0];
      assert PlainWord(w) && "" + w == w;
      if |words| == 1 {
        WholeWord(w, "\r\n", "");
        EndOfLine(w);
      } else {
        var rest := Spaced(words[1..]) + "\r\n";
        FieldsOfSpaced(words[1..]);
        WholeWord(w, " " + rest, "");
        SpaceAfter(w, rest);
        assert Spaced(words) + "\r\n" == w + (" " + rest);
        assert words == [w] + words[1..];
      }
    }
  }

  lemma {:induction false} SpacedHasNoLineFeed(words: seq<string>)
    requires words != [] && forall i :: 0 <= i < |words| ==> PlainWord(words[i])
    ensures PlainWord(words[0]) && '\n' !in Spaced(words) && Spaced(words) != "" && Spaced(words)[0] == words[0][0]
    decreases |words|
  {
    assert PlainWord(words[0]);
    if |words| > 1 { SpacedHasNoLineFeed(words[1..]); }
  }

  /** Words typed on a line are read as a command, unless the first begins with the array marker. */
  lemma InlineRoundTrip(words: seq<string>, rest: string)
    requires words != [] && (forall i :: 0 <= i < |words| ==> PlainWord(words[i])) && !("*" <= words[0])
    ensures ParseCommand(Spaced(words) + "\r\n" + rest) == Ok(words, rest)
  {
    hide Fields, Spaced, PlainWord;
    SpacedHasNoLineFeed(words);
    InlineLine(Spaced(words), rest);
    FieldsOfSpaced(words);
  }

  lemma InlineLine(line: string, rest: string)
    requires line != "" && '\n' !in line && line[0] != '*'
    ensures ParseCommand(line + "\r\n" + rest) == Ok(Fields(line + "\r\n", ""), rest)
  {
    hide Fields;
    var s := line + "\r\n" + rest;
    assert s[0] == line[0] && s[1..] == (line[1..] + "\r") + "\n" + rest;
    LineLengthOf(line[1..] + "\r", rest);
    assert s[..|line| + 2] == line + "\r\n" && s[|line| + 2..] == rest;
  }

  /** A pipeline of commands is read back command by command. */
  lemma {:induction false} PipelineRoundTrip(cmds: seq<seq<string>>, rest: string)
    requires forall i :: 0 <= i < |cmds| ==> FitsCommand(cmds[i])
    ensures ParseCommands(EncodeCommands(cmds) + rest, |cmds|) == Ok(cmds, rest)
  {
    hide EncodeCommand, ParseCommand;
    if cmds != [] {
      PipelineRoundTrip(cmds[1..], rest);
      OneMoreCommand(cmds[0], EncodeCommands(cmds[1..]), cmds[1..], rest);
      assert cmds == [cmds[0]] + cmds[1..];
    }
  }

  lemma OneMoreCommand(cmd: seq<string>, tail: string, cmds: seq<seq<string>>, rest: string)
    requires FitsCommand(cmd) && ParseCommands(tail + rest, |cmds|) == Ok(cmds, rest)
    ensures ParseCommands(EncodeCommand(cmd) + tail + rest, |cmds| + 1) == Ok([cmd] + cmds, rest)
  {
    hide EncodeCommand, ParseCommand;
    CommandRoundTrip(cmd, tail + rest);
    assert EncodeCommand(cmd) + tail + rest == EncodeCommand(cmd) + (tail + rest);
  }

  lemma {:induction false} CleanRoundTrip(v: Value, rest: string)
    requires Fits(v) && Clean(v)
    ensures ParseValue(EncodeValue(v) + rest) == Ok(v, rest)
    decreases v
  {
    match v {
      case Simple(text) => TextRoundTrip(text, rest);
      case Error(text) => TextRoundTrip(text, rest);
      case Integer(n) => NumericRoundTrip(n, rest);
      case NullBulk => NumericRoundTrip(-1, rest);
      case NullArray => NumericRoundTrip(-1, rest);
      case Bulk(text) => BulkRoundTrip(text, rest);
      case Array(items) =>
        ItemsRoundTrip(items, rest);
        ArrayRoundTrip(|items|, EncodeItems(items), items, rest);
    }
  }

  /** A tagged line at the front of the input: the tag, then what the line parser sees. */
  lemma TaggedLine(tag: char, text: string, rest: string)
    ensures var s := [tag] + text + CRLF + rest; s != "" && s[0] == tag && s[1..] == text + CRLF + rest
  {}

  lemma TaggedBlock(tag: char, text: string, tail: string, rest: string)
    ensures var s := [tag] + text + CRLF + tail + rest; s != "" && s[0] == tag && s[1..] == text + CRLF + (tail + rest)
  {
    assert [tag] + text + CRLF + tail + rest == [tag] + text + CRLF + (tail + rest);
    TaggedLine(tag, text, tail + rest);
  }

  lemma TextRoundTrip(text: string, rest: string)
    requires '\n' !in text
    ensures ParseValue("+" + text + CRLF + rest) == Ok(Simple(text), rest)
    ensures ParseValue("-" + text + CRLF + rest) == Ok(Error(text), rest)
  {
    TaggedLine('+', text, rest);
    TaggedLine('-', text, rest);
    LineRoundTrip(text, rest);
  }

  lemma NumericRoundTrip(n: int, rest: string)
    requires MinInt64 <= n <= MaxInt64
    ensures ParseValue(":" + FormatInt(n) + CRLF + rest) == Ok(Integer(n), rest)
    ensures n == -1 ==> ParseValue("$" + FormatInt(n) + CRLF + rest) == Ok(NullBulk, rest)
    ensures n == -1 ==> ParseValue("*" + FormatInt(n) + CRLF + rest) == Ok(NullArray, rest)
  {
    TaggedLine(':', FormatInt(n), rest);
    TaggedLine('$', FormatInt(n), rest);
    TaggedLine('*', FormatInt(n), rest);
    NumberRoundTrip(n, rest);
  }

  lemma BulkRoundTrip(text: string, rest: string)
    requires |text| <= MaxInt64
    ensures ParseValue("$" + FormatInt(|text|) + CRLF + (text + CRLF) + rest) == Ok(Bulk(text), rest)
  {
    TaggedBlock('$', FormatInt(|text|), text + CRLF, rest);
    NumberRoundTrip(|text|, text + CRLF + rest);
    BodyRoundTrip(text, rest);
  }

  lemma ArrayRoundTrip(n: nat, body: string, items: seq<Value>, rest: string)
    requires n <= MaxInt64 && ParseItems(body + rest, n) == Ok(items, rest)
    ensures ParseValue("*" + FormatInt(n) + CRLF + body + rest) == Ok(Array(items), rest)
  {
    hide FormatInt, ParseNumber, ParseItems;
    TaggedBlock('*', FormatInt(n), body, rest);
    NumberRoundTrip(n, body + rest);
  }

  lemma {:induction false} ItemsRoundTrip(items: seq<Value>, rest: string)
    requires forall i :: 0 <= i < |items| ==> Fits(items[i]) && Clean(items[i])
    ensures ParseItems(EncodeItems(items) + rest, |items|) == Ok(items, rest)
    decreases items
  {
    hide EncodeValue, ParseValue;
    if items != [] {
      var tail := EncodeItems(items[1..]) + rest;
      assert EncodeItems(items) + rest == EncodeValue(items[0]) + tail;
      CleanRoundTrip(items[0], tail);
      ItemsRoundTrip(items[1..], rest);
      assert items == [items[0]] + items[1..];
    }
  }

  /** `ReadValue` undoes `writeValue` exactly on the values without a line feed in a line-based text. */
  lemma ValueRoundTrip(v: Value, rest: string)
    requires Fits(v)
    ensures ParseValue(EncodeValue(v) + rest) == Ok(v, rest) <==> Clean(v)
  {
    if Clean(v) { CleanRoundTrip(v, rest); }
  }

  // ----- the reader and the writer -----

  function Prepend<T>(done: seq<T>, r: Read<seq<T>>): Read<seq<T>> {
    if r.Ok? then Ok(done + r.value, r.rest) else r
  }

  lemma PrependOne<T>(done: seq<T>, x: T, r: Read<seq<T>>)
    ensures Prepend(done, Prefix(x, r)) == Prepend(done + [x], r)
  {
    if r.Ok? { assert done + ([x] + r.value) == done + [x] + r.value; }
  }

  /** `input` is what the connection has still to deliver before it ends. */
  class Reader {
    var input: string

    constructor (input: string)
      ensures this.input == input
    {
      this.input := input;
    }

    method ReadByte() returns (r: Read<char>)
      modifies this
      ensures r.Ok? <==> old(input) != ""
      ensures !r.Panic? && (r.Ok? ==> r.value == old(input)[0] && input == r.rest == old(input)[1..])
    {
      if input == "" { return Err; }
      r := Ok(input[0], input[1..]);
      input := input[1..];
    }

    method ReadLine() returns (r: Read<string>)
      modifies this
      ensures r == ParseLine(old(input)) && (r.Ok? ==> input == r.rest)
    {
      var n := LineLength(input);
      if n == 0 {
        input := "";
        return Err;
      }
      var line := input[..n - 1];
      input := input[n..];
      if line != "" && line[|line| - 1] == '\r' { line := line[..|line| - 1]; }
      return Ok(line, input);
    }

    method ReadLen() returns (r: Read<int>)
      modifies this
      ensures r == ParseNumber(old(input)) && (r.Ok? ==> input == r.rest)
    {
      var line := ReadLine();
      if !line.Ok? { return Err; }
      var n := ParseInt(line.value);
      if !n.Number? { return Err; }
      return Ok(n.n, input);
    }

    /** make([]byte, l+2), io.ReadFull, and the check of the two terminator bytes. */
    method ReadBody(l: int) returns (r: Read<string>)
      modifies this
      ensures r == ParseBody(old(input), l) && (r.Ok? ==> input == r.rest)
    {
      if l + 2 < 0 { return Panic; }
      if |input| < l + 2 {
        input := "";
        return if l < -1 then Panic else Err;
      }
      if l < 0 { return Panic; }
      var text, end, rest := input[..l], input[l..l + 2], input[l + 2..];
      input := rest;
      if end != CRLF { return Err; }
      return Ok(text, rest);
    }

    method ReadArgument() returns (r: Read<string>)
      modifies this
      ensures r == ParseArgument(old(input)) && (r.Ok? ==> input == r.rest)
    {
      var t := ReadByte();
      if !t.Ok? || t.value != '$' { return Err; }
      var l := ReadLen();
      if !l.Ok? { return Err; }
      r := ReadBody(l.value);
    }

    method ReadCommand() returns (r: Read<seq<string>>)
      modifies this
      ensures r == ParseCommand(old(input)) && (r.Ok? ==> input == r.rest)
    {
      if input != "" && input[0] != '*' {
        var n := LineLength(input[1..]);
        if n == 0 { return Err; }
        var line := input[..n + 1];
        input := input[n + 1..];
        return Ok(Fields(line, ""), input);
      }
      var b := ReadByte();
      if !b.Ok? { return Err; }
      var n := ReadLen();
      if !n.Ok? { return Err; }
      if n.value < 0 { return Panic; }
      r := ReadArguments(n.value);
    }

    method ReadArguments(n: nat) returns (r: Read<seq<string>>)
      modifies this
      ensures r == ParseArguments(old(input), n) && (r.Ok? ==> input == r.rest)
    {
      var parts: seq<string> := [];
      ghost var all := ParseArguments(input, n);
      assert all == Prepend([], all) by { assert all.Ok? ==> [] + all.value == all.value; }
      for i := 0 to n
        invariant all == Prepend(parts, ParseArguments(input, n - i))
      {
        var arg := ReadArgument();
        if !arg.Ok? { return if arg.Err? then Err else Panic; }
        PrependOne(parts, arg.value, ParseArguments(input, n - i - 1));
        parts := parts + [arg.value];
      }
      assert parts + [] == parts;
      return Ok(parts, input);
    }

    method ReadValue() returns (r: Read<Value>)
      modifies this
      ensures r == ParseValue(old(input)) && (r.Ok? ==> input == r.rest)
      decreases |input|, 0
    {
      var b := ReadByte();
      if !b.Ok? { return Err; }
      match b.value
      case '+' =>
        var line := ReadLine();
        return if line.Ok? then Ok(Simple(line.value), input) else Err;
      case '-' =>
        var line := ReadLine();
        return if line.Ok? then Ok(Error(line.value), input) else Err;
      case ':' =>
        var n := ReadLen();
        return if n.Ok? then Ok(Integer(n.value), input) else Err;
      case '$' =>
        var l := ReadLen();
        if !l.Ok? { return Err; }
        if l.value == -1 { return Ok(NullBulk, input); }
        var body := ReadBody(l.value);
        return match body case Ok(text, _) => Ok(Bulk(text), input) case Err => Err case Panic => Panic;
      case '*' =>
        var n := ReadLen();
        if !n.Ok? { return Err; }
        if n.value == -1 { return Ok(NullArray, input); }
        if n.value < 0 { return Panic; }
        var items := ReadItems(n.value);
        return match items case Ok(vs, _) => Ok(Array(vs), input) case Err => Err case Panic => Panic;
      case _ => return Err;
    }

    method ReadItems(n: nat) returns (r: Read<seq<Value>>)
      modifies this
      ensures r == ParseItems(old(input), n) && (r.Ok? ==> input == r.rest)
      decreases |input|, 1
    {
      var items: seq<Value> := [];
      ghost var all := ParseItems(input, n);
      assert all == Prepend([], all) by { assert all.Ok? ==> [] + all.value == all.value; }
      for i := 0 to n
        invariant |input| <= |old(input)|
        invariant all == Prepend(items, ParseItems(input, n - i))
      {
        var item := ReadValue();
        if !item.Ok? { return if item.Err? then Err else Panic; }
        PrependOne(items, item.value, ParseItems(input, n - i - 1));
        items := items + [item.value];
      }
      assert items + [] == items;
      return Ok(items, input);
    }
  }

  /** `out` is everything written so far. */
  class Writer {
    var out: string

    constructor ()
      ensures out == ""
    {
      out := "";
    }

    method Line(tag: string, text: string)
      modifies this
      ensures out == old(out) + (tag + text + CRLF)
    {
      out := out + tag;
      out := out + text;
      out := out + CRLF;
    }

    method Bulk(s: string)
      modifies this
      ensures out == old(out) + EncodeBulk(s)
    {
      Line("$", FormatInt(|s|));
      out := out + s;
      out := out + CRLF;
    }

    method Command(args: seq<string>)
      modifies this
      ensures out == old(out) + EncodeCommand(args)
    {
      hide FormatInt, EncodeBulk;
      Line("*", FormatInt(|args|));
      ghost var header := out;
      for i := 0 to |args|
        invariant out + EncodeBulks(args[i..]) == header + EncodeBulks(args)
      {
        assert args[i..][1..] == args[i + 1..];
        ghost var head, tail := EncodeBulk(args[i]), EncodeBulks(args[i + 1..]);
        assert out + (head + tail) == (out + head) + tail;
        Bulk(args[i]);
      }
      assert out == header + EncodeBulks(args) by { assert args[|args|..] == []; }
    }

    method WriteValue(v: Value)
      modifies this
      ensures out == old(out) + EncodeValue(v)
      decreases v
    {
      hide EncodeItems, EncodeBulk, FormatInt;
      match v
      case Simple(text) => Line("+", text);
      case Error(text) => Line("-", text);
      case Integer(n) => Line(":", FormatInt(n));
      case Bulk(text) => Bulk(text);
      case NullBulk => Line("$", FormatInt(-1));
      case NullArray => Line("*", FormatInt(-1));
      case Array(items) =>
        Line("*", FormatInt(|items|));
        WriteItems(items);
    }

    method WriteItems(items: seq<Value>)
      modifies this
      ensures out == old(out) + EncodeItems(items)
      decreases items
    {
      for i := 0 to |items|
        invariant out + EncodeItems(items[i..]) == old(out) + EncodeItems(items)
      {
        assert items[i..][1..] == items[i + 1..];
        ghost var head, tail := EncodeValue(items[i]), EncodeItems(items[i + 1..]);
        assert out + (head + tail) == (out + head) + tail;
        WriteValue(items[i]);
      }
    }
  }

  method SendAll(w: Writer, cmds: seq<seq<string>>)
    modifies w
    ensures w.out == old(w.out) + EncodeCommands(cmds)
  {
    hide EncodeCommand;
    for i := 0 to |cmds|
      invariant w.out + EncodeCommands(cmds[i..]) == old(w.out) + EncodeCommands(cmds)
    {
      assert cmds[i..][1..] == cmds[i + 1..];
      ghost var head, tail := EncodeCommand(cmds[i]), EncodeCommands(cmds[i + 1..]);
      assert w.out + (head + tail) == (w.out + head) + tail;
      w.Command(cmds[i]);
    }
  }

  method ReceiveAll(rd: Reader, n: nat) returns (r: Read<seq<seq<string>>>)
    modifies rd
    ensures r == ParseCommands(old(rd.input), n)
  {
    hide ParseCommand;
    var cmds: seq<seq<string>> := [];
    ghost var all := ParseCommands(rd.input, n);
    assert all == Prepend([], all) by { assert all.Ok? ==> [] + all.value == all.value; }
    for i := 0 to n
      invariant all == Prepend(cmds, ParseCommands(rd.input, n - i))
    {
      var cmd := rd.ReadCommand();
      if !cmd.Ok? { return if cmd.Err? then Err else Panic; }
      PrependOne(cmds, cmd.value, ParseCommands(rd.input, n - i - 1));
      cmds := cmds + [cmd.value];
    }
    assert cmds + [] == cmds;
    return Ok(cmds, rd.input);
  }

  /** Through the objects: whatever a writer printed, a reader gets back, with nothing left over. */
  method Exchange(cmds: seq<seq<string>>) returns (got: Read<seq<seq<string>>>)
    requires forall i :: 0 <= i < |cmds| ==> FitsCommand(cmds[i])
    ensures got == Ok(cmds, "")
  {
    hide *;
    var w := new Writer();
    SendAll(w, cmds);
    var rd := new Reader(w.out);
    PipelineRoundTrip(cmds, "");
    assert w.out == EncodeCommands(cmds) == EncodeCommands(cmds) + "";
    got := ReceiveAll(rd, |cmds|);
  }

  // ----- the protocol on bytes -----

  /** A header line: any numeral strconv accepts, not only the ones the writer prints. */
  lemma ReadsHeader(num: string, rest: string)
    requires '\n' !in num
    ensures ParseNumber(num + "\r\n" + rest) == if ParseInt(num).Number? then Ok(ParseInt(num).n, rest) else Err
  {
    hide ParseInt;
    LineRoundTrip(num, rest);
  }

  lemma NumeralHasNoLineFeed(num: string)
    requires ParseInt(num).Number?
    ensures '\n' !in num
  {
    var digits := if num[0] == '-' || num[0] == '+' then num[1..] else num;
    forall i | 0 <= i < |num| ensures num[i] != '\n' { if i > 0 { assert num[i] == digits[i - (|num| - |digits|)]; } }
  }

  /** A count of zero ends a command; a negative one crashes the reader, and no number is an error. */
  lemma ReadsCount(num: string, rest: string)
    requires '\n' !in num
    ensures !ParseInt(num).Number? ==> ParseCommand("*" + num + "\r\n" + rest) == Err
    ensures ParseInt(num) == Number(0) ==> ParseCommand("*" + num + "\r\n" + rest) == Ok([], rest)
    ensures ParseInt(num).Number? && ParseInt(num).n < 0 ==> ParseCommand("*" + num + "\r\n" + rest) == Panic
    ensures ParseCommand("") == Err
  {
    hide ParseInt, ParseNumber;
    ReadsHeader(num, rest);
    assert ("*" + num + "\r\n" + rest)[1..] == num + "\r\n" + rest;
  }

  /**
   * An argument is a `$`, its length in bytes, a line end, the bytes and a line end; the arguments
   * after it are read as those of a command with one argument less.
   */
  lemma ReadsArgument(count: string, fewer: string, len: string, body: string, s: string)
    requires ParseInt(fewer).Number? && ParseInt(fewer).n >= 0 && ParseInt(count) == Number(ParseInt(fewer).n + 1)
    requires ParseInt(len) == Number(|body|)
    ensures ParseCommand("*" + count + "\r\n$" + len + "\r\n" + body + "\r\n" + s) ==
              match ParseCommand("*" + fewer + "\r\n" + s)
              case Ok(args, rest) => Ok([body] + args, rest)
              case Err => Err
              case Panic => Panic
  {
    hide ParseInt, ParseNumber, ParseArgument;
    NumeralHasNoLineFeed(fewer);
    NumeralHasNoLineFeed(count);
    var tail := "$" + len + "\r\n" + body + "\r\n" + s;
    var all := "*" + count + "\r\n$" + len + "\r\n" + body + "\r\n" + s;
    assert all == "*" + (count + "\r\n" + tail) && all[1..] == count + "\r\n" + tail;
    ReadsHeader(count, tail);
    ReadsBody(len, body, s);
    assert ("*" + fewer + "\r\n" + s)[1..] == fewer + "\r\n" + s;
    ReadsHeader(fewer, s);
  }

  lemma ReadsBody(len: string, body: string, s: string)
    requires ParseInt(len) == Number(|body|)
    ensures ParseArgument("$" + len + "\r\n" + body + "\r\n" + s) == Ok(body, s)
  {
    hide ParseInt, ParseNumber, ParseBody;
    NumeralHasNoLineFeed(len);
    var rest := body + "\r\n" + s;
    var all := "$" + len + "\r\n" + body + "\r\n" + s;
    assert all == "$" + (len + "\r\n" + rest) && all[1..] == len + "\r\n" + rest;
    ReadsHeader(len, rest);
    BodyRoundTrip(body, s);
  }

  /** An argument that does not start with `$`, or whose bytes are not followed by a line end, is an error. */
  lemma ReadsNoArgument(count: string, len: string, body: string, s: string)
    requires ParseInt(count).Number? && ParseInt(count).n > 0 && ParseInt(len) == Number(|body|)
    ensures s == "" || s[0] != '$' ==> ParseCommand("*" + count + "\r\n" + s) == Err
    ensures |s| < 2 || s[..2] != "\r\n" ==> ParseCommand("*" + count + "\r\n$" + len + "\r\n" + body + s) == Err
  {
    hide ParseInt, ParseNumber;
    NumeralHasNoLineFeed(count);
    NumeralHasNoLineFeed(len);
    assert ("*" + count + "\r\n" + s)[1..] == count + "\r\n" + s;
    ReadsHeader(count, s);
    var tail := "$" + len + "\r\n" + (body + s);
    var all := "*" + count + "\r\n$" + len + "\r\n" + body + s;
    assert all[1..] == count + "\r\n" + tail && tail[1..] == len + "\r\n" + (body + s);
    ReadsHeader(count, tail);
    ReadsHeader(len, body + s);
    if |s| >= 2 && s[..2] != "\r\n" { assert (body + s)[|body|..|body| + 2] == s[..2]; }
  }

  /** A negative length crashes the reader, if there is anything left to read. */
  lemma ReadsNegativeLength(count: string, len: string, s: string)
    requires ParseInt(count).Number? && ParseInt(count).n > 0 && ParseInt(len).Number? && ParseInt(len).n < 0
    ensures ParseCommand("*" + count + "\r\n$" + len + "\r\n" + s) ==
              if ParseInt(len).n == -1 && s == "" then Err else Panic
  {
    hide ParseInt, ParseNumber;
    NumeralHasNoLineFeed(count);
    NumeralHasNoLineFeed(len);
    var tail := "$" + len + "\r\n" + s;
    var all := "*" + count + "\r\n$" + len + "\r\n" + s;
    assert all[1..] == count + "\r\n" + tail && tail[1..] == len + "\r\n" + s;
    ReadsHeader(count, tail);
    ReadsHeader(len, s);
  }

  /** A line that is no array is cut into words at white space, character by character. */
  lemma ReadsWords(line: string, r: string, s: string, word: string, rest: string)
    requires r != "" && RuneLen(r + s) == |r|
    ensures Fields("", word) == if word == "" then [] else [word]
    ensures Fields(r + s, word) ==
              if IsSpace(r) then (if word == "" then [] else [word]) + Fields(s, "") else Fields(s, word + r)
    ensures line != "" && line[0] != '*' && '\n' !in line ==>
              ParseCommand(line + "\n" + rest) == Ok(Fields(line + "\n", ""), rest)
  {
    assert (r + s)[..|r|] == r && (r + s)[|r|..] == s;
    if line != "" && line[0] != '*' && '\n' !in line {
      var all := line + "\n" + rest;
      LineLengthOf(line[1..], rest);
      assert all[1..] == line[1..] + "\n" + rest;
      assert all[..|line| + 1] == line + "\n" && all[|line| + 1..] == rest;
    }
  }

  /** The first byte says what kind of value follows. */
  lemma ReadsScalar(text: string, num: string, rest: string)
    requires '\n' !in text && ParseInt(num).Number?
    ensures ParseValue("+" + text + "\r\n" + rest) == Ok(Simple(text), rest)
    ensures ParseValue("-" + text + "\r\n" + rest) == Ok(Error(text), rest)
    ensures ParseValue(":" + num + "\r\n" + rest) == Ok(Integer(ParseInt(num).n), rest)
    ensures ParseInt(num).n == -1 ==> ParseValue("$" + num + "\r\n" + rest) == Ok(NullBulk, rest)
    ensures ParseInt(num).n == -1 ==> ParseValue("*" + num + "\r\n" + rest) == Ok(NullArray, rest)
    ensures ParseInt(num).n == |text| ==> ParseValue("$" + num + "\r\n" + text + "\r\n" + rest) == Ok(Bulk(text), rest)
    ensures ParseInt(num).n == 0 ==> ParseValue("*" + num + "\r\n" + rest) == Ok(Array([]), rest)
  {
    hide ParseInt, ParseNumber, ParseBody;
    NumeralHasNoLineFeed(num);
    TextRoundTrip(text, rest);
    ReadsHeader(num, rest);
    TaggedLine(':', num, rest);
    TaggedLine('$', num, rest);
    TaggedLine('*', num, rest);
    var body := text + "\r\n" + rest;
    TaggedLine('$', num, body);
    ReadsHeader(num, body);
    BodyRoundTrip(text, rest);
    assert "$" + num + "\r\n" + text + "\r\n" + rest == "$" + num + "\r\n" + body;
  }

  /** An array is its items one after the other. */
  lemma ReadsItem(count: string, fewer: string, s: string)
    requires ParseInt(fewer).Number? && ParseInt(fewer).n >= 0 && ParseInt(count) == Number(ParseInt(fewer).n + 1)
    requires ParseValue(s).Ok?
    ensures var all := ParseValue("*" + count + "\r\n" + s);
            var tail := ParseValue("*" + fewer + "\r\n" + ParseValue(s).rest);
            && (tail.Ok? ==> tail.value.Array? && all == Ok(Array([ParseValue(s).value] + tail.value.items), tail.rest))
            && (tail.Err? ==> all == Err) && (tail.Panic? ==> all == Panic)
  {
    hide ParseInt, ParseNumber, ParseBody;
    NumeralHasNoLineFeed(fewer);
    NumeralHasNoLineFeed(count);
    ReadsHeader(count, s);
    TaggedLine('*', count, s);
    ReadsHeader(fewer, ParseValue(s).rest);
    TaggedLine('*', fewer, ParseValue(s).rest);
  }

  /** What the writer sends, byte for byte. */
  lemma WritesBytes(text: string, n: int, v: Value, items: seq<Value>)
    ensures EncodeValue(Simple(text)) == "+" + text + "\r\n" && EncodeValue(Error(text)) == "-" + text + "\r\n"
    ensures EncodeValue(Integer(n)) == ":" + FormatInt(n) + "\r\n"
    ensures EncodeValue(Bulk(text)) == "$" + FormatInt(|text|) + "\r\n" + text + "\r\n"
    ensures EncodeValue(NullBulk) == "$-1\r\n" && EncodeValue(NullArray) == "*-1\r\n"
    ensures EncodeValue(Array([])) == "*0\r\n"
    ensures EncodeItems([v] + items) == EncodeValue(v) + EncodeItems(items)
    ensures EncodeValue(Array(items)) == "*" + FormatInt(|items|) + "\r\n" + EncodeItems(items)
  {
    hide FormatInt;
    SmallPrints();
    assert ([v] + items)[1..] == items;
  }

  lemma SmallPrints()
    ensures FormatInt(-1) == "-1" && FormatInt(0) == "0"
  {
    PrintsDecimal(1, 0);
    PrintsDecimal(0, 1);
  }

  lemma SmallNumerals()
    ensures ParseInt("0") == Number(0) && ParseInt("1") == Number(1) && ParseInt("2") == Number(2)
    ensures ParseInt("3") == Number(3) && ParseInt("10") == Number(10)
  {
    hide ParseInt;
    ReadsDecimal("", '0');
    ReadsDecimal("", '1');
    ReadsDecimal("", '2');
    ReadsDecimal("", '3');
    ReadsDecimal("1", '0');
    assert "1" + ['0'] == "10";
  }

  /** Bytes as a client sends them, read by the object. */
  method ReadKnownBytes() returns (r: Read<seq<string>>)
    ensures r == Ok(["GET", "0123456789"], "")
  {
    var bytes := "*2\r\n$3\r\nGET\r\n$10\r\n0123456789\r\n";
    var rd := new Reader(bytes);
    KnownBytes();
    r := rd.ReadCommand();
  }

  lemma KnownBytes()
    ensures ParseCommand("*2\r\n$3\r\nGET\r\n$10\r\n0123456789\r\n") == Ok(["GET", "0123456789"], "")
  {
    hide *;
    var second := "$" + "10" + "\r\n" + "0123456789" + "\r\n" + "";
    SmallNumerals();
    TwoArguments("2", "3", "GET", "10", "0123456789");
    assert "*" + "2" + "\r\n$" + "3" + "\r\n" + "GET" + "\r\n" + second ==
           "*2\r\n$3\r\nGET\r\n$10\r\n0123456789\r\n";
  }

  lemma TwoArguments(count: string, len: string, first: string, len': string, second: string)
    requires ParseInt(count) == Number(2) && ParseInt(len) == Number(|first|) && ParseInt(len') == Number(|second|)
    ensures var tail := "$" + len' + "\r\n" + second + "\r\n" + "";
            ParseCommand("*" + count + "\r\n$" + len + "\r\n" + first + "\r\n" + tail) == Ok([first, second], "")
  {
    hide ParseInt, ParseCommand;
    SmallNumerals();
    ReadsCount("0", "");
    ReadsArgument("1", "0", len', second, "");
    var tail := "$" + len' + "\r\n" + second + "\r\n" + "";
    assert "*" + "1" + "\r\n$" + len' + "\r\n" + second + "\r\n" + "" == "*" + "1" + "\r\n" + tail;
    ReadsArgument(count, "1", len, first, tail);
    assert [first] + ([second] + []) == [first, second];
  }
}
