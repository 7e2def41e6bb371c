/**
 * The append-only file's line format (internal/server/aof.go): arguments are escaped, joined by
 * tabs and followed by a checksum; replay splits, unescapes in three passes and verifies.
 * The CRC32 function is a parameter: nothing here depends on which checksum it is.
 */
module AofCodec {

  type Word = n: nat | n < 0x1_0000_0000

  const B := '\\'
  const TAB := '\t'
  const LF := '\n'

  // ----- strings.ReplaceAll and the two escaping functions -----

  /** Leftmost, non-overlapping replacement. */
  function ReplaceAll(s: string, old_: string, new_: string): string
    requires old_ != ""
    decreases |s|
  {
    if |s| < |old_| then s
    else if s[..|old_|] == old_ then new_ + ReplaceAll(s[|old_|..], old_, new_)
    else [s[0]] + ReplaceAll(s[1..], old_, new_)
  }

  function Escape(s: string): string {
    ReplaceAll(ReplaceAll(ReplaceAll(s, [B], [B, B]), [TAB], [B, 't']), [LF], [B, 'n'])
  }

  function Unescape(s: string): string {
    ReplaceAll(ReplaceAll(ReplaceAll(s, [B, 'n'], [LF]), [B, 't'], [TAB]), [B, B], [B])
  }

  /** What a round trip through the file turns a string into: `\n` and `\t` written out become real ones. */
  function Mangle(s: string): string {
    seq(|s|, i requires 0 <= i < |s| =>
      if i > 0 && s[i - 1] == B && s[i] == 'n' then LF
      else if i > 0 && s[i - 1] == B && s[i] == 't' then TAB
      else s[i])
  }

  /** No backslash is directly followed by `n` or `t`. */
  predicate Safe(s: string) {
    forall i :: 0 <= i < |s| - 1 ==> !(s[i] == B && (s[i + 1] == 'n' || s[i + 1] == 't'))
  }

  lemma MangleFixesSafe(s: string)
    ensures Mangle(s) == s <==> Safe(s)
  {
    if Mangle(s) == s {
      forall i | 0 <= i < |s| - 1 ensures !(s[i] == B && (s[i + 1] == 'n' || s[i + 1] == 't')) {
        assert Mangle(s)[i + 1] == s[i + 1];
      }
    }
    if Safe(s) {
      forall i | 0 <= i < |s| ensures Mangle(s)[i] == s[i] {
        if i > 0 { assert !(s[i - 1] == B && (s[i - 1 + 1] == 'n' || s[i - 1 + 1] == 't')); }
      }
    }
  }

  // ----- escaping in one pass -----

  function EscapeChar(c: char): string {
    if c == B then [B, B] else if c == TAB then [B, 't'] else if c == LF then [B, 'n'] else [c]
  }

  function Escaped(s: string): string {
    if s == "" then "" else EscapeChar(s[0]) + Escaped(s[1..])
  }

  lemma {:induction false} ReplaceCharAppend(s: string, t: string, c: char, w: string)
    ensures ReplaceAll(s + t, [c], w) == ReplaceAll(s, [c], w) + ReplaceAll(t, [c], w)
    decreases |s|
  {
    if s == "" { assert s + t == t; } else {
      var u := s + t;
      assert u[..1] == [s[0]] == s[..1] && u[1..] == s[1..] + t;
      ReplaceCharAppend(s[1..], t, c, w);
      if s[0] == c {
        assert w + (ReplaceAll(s[1..], [c], w) + ReplaceAll(t, [c], w))
            == w + ReplaceAll(s[1..], [c], w) + ReplaceAll(t, [c], w);
      } else {
        assert [s[0]] + (ReplaceAll(s[1..], [c], w) + ReplaceAll(t, [c], w))
            == [s[0]] + ReplaceAll(s[1..], [c], w) + ReplaceAll(t, [c], w);
      }
    }
  }

  lemma ReplaceInNothing(x: string, w: string)
    requires x != ""
    ensures ReplaceAll("", x, w) == ""
  {}

  lemma ReplaceOne(a: char, c: char, w: string)
    ensures ReplaceAll([a], [c], w) == if a == c then w else [a]
  {
    assert [a][..1] == [a] && [a][1..] == "";
    if a == c { assert w + "" == w; }
  }

  lemma ReplaceTwo(a: char, b: char, c: char, w: string)
    requires a != c && b != c
    ensures ReplaceAll([a, b], [c], w) == [a, b]
  {
    assert [a, b] == [a] + [b];
    ReplaceCharAppend([a], [b], c, w);
    ReplaceOne(a, c, w);
    ReplaceOne(b, c, w);
  }

  lemma EscapeOne(c: char)
    ensures Escape([c]) == EscapeChar(c)
  {
    ReplaceOne(c, B, [B, B]);
    if c == B {
      ReplaceTwo(B, B, TAB, [B, 't']);
      ReplaceTwo(B, B, LF, [B, 'n']);
    } else {
      ReplaceOne(c, TAB, [B, 't']);
      if c == TAB { ReplaceTwo(B, 't', LF, [B, 'n']); } else { ReplaceOne(c, LF, [B, 'n']); }
    }
  }

  lemma EscapeAppend(s: string, t: string)
    ensures Escape(s + t) == Escape(s) + Escape(t)
  {
    ReplaceCharAppend(s, t, B, [B, B]);
    var s1, t1 := ReplaceAll(s, [B], [B, B]), ReplaceAll(t, [B], [B, B]);
    ReplaceCharAppend(s1, t1, TAB, [B, 't']);
    var s2, t2 := ReplaceAll(s1, [TAB], [B, 't']), ReplaceAll(t1, [TAB], [B, 't']);
    ReplaceCharAppend(s2, t2, LF, [B, 'n']);
  }

  lemma {:induction false} EscapeIsEscaped(s: string)
    ensures Escape(s) == Escaped(s)
  {
    hide Escape, EscapeChar;
    if s == "" { EscapeEmpty(); } else {
      assert s == [s[0]] + s[1..];
      EscapeAppend([s[0]], s[1..]);
      EscapeOne(s[0]);
      EscapeIsEscaped(s[1..]);
    }
  }

  lemma EscapeEmpty()
    ensures Escape("") == ""
  {}

  // ----- the three decoding passes, one at a time -----

  /** After the first pass over an escaped string. */
  function Pass1(s: string): string {
    if s == "" then ""
    else if s[0] == B && |s| > 1 && s[1] == 'n' then [B, LF] + Pass1(s[2..])
    else (if s[0] == LF then [LF] else EscapeChar(s[0])) + Pass1(s[1..])
  }

  /** After the second. */
  function Pass2(s: string): string {
    if s == "" then ""
    else if s[0] == B && |s| > 1 && s[1] == 'n' then [B, LF] + Pass2(s[2..])
    else if s[0] == B && |s| > 1 && s[1] == 't' then [B, TAB] + Pass2(s[2..])
    else (if s[0] == B then [B, B] else [s[0]]) + Pass2(s[1..])
  }

  /** Two-byte patterns: what one step of the replacement does to the front of a string. */
  lemma ReplacePairHit(x: char, y: char, w: string, rest: string)
    ensures ReplaceAll([x, y] + rest, [x, y], w) == w + ReplaceAll(rest, [x, y], w)
  {
    var s := [x, y] + rest;
    assert s[..2] == [x, y] && s[2..] == rest;
  }

  lemma ReplacePairMiss(c: char, rest: string, x: char, y: char, w: string)
    requires c != x || rest == "" || rest[0] != y
    ensures ReplaceAll([c] + rest, [x, y], w) == [c] + ReplaceAll(rest, [x, y], w)
  {
    var s := [c] + rest;
    assert s[1..] == rest && s[0] == c;
    if rest == "" {
      assert s == [c] + "";
    } else {
      assert s[..2] == [c, rest[0]];
      assert s[..2][0] == c && s[..2][1] == rest[0];
    }
  }

  lemma EscapedHead(s: string)
    ensures (Escaped(s) != "" && Escaped(s)[0] == 'n') <==> (s != "" && s[0] == 'n')
    ensures (Pass1(s) != "" && Pass1(s)[0] == 't') <==> (s != "" && s[0] == 't')
  {}

  lemma {:induction false} FirstPass(s: string)
    ensures ReplaceAll(Escaped(s), [B, 'n'], [LF]) == Pass1(s)
    decreases |s|
  {
    hide ReplaceAll;
    if s == "" { ReplaceInNothing([B, 'n'], [LF]); } else {
      var rest := Escaped(s[1..]);
      EscapedHead(s[1..]);
      FirstPass(s[1..]);
      if s[0] == B {
        if |s| > 1 && s[1] == 'n' {
          FirstPass(s[2..]);
          assert rest == ['n'] + Escaped(s[2..]) by { assert s[1..][1..] == s[2..]; }
          BackslashThen('n', LF, Escaped(s[2..]));
        } else {
          BackslashPair(rest, 'n', [LF]);
        }
      } else if s[0] == LF {
        ReplacePairHit(B, 'n', [LF], rest);
      } else if s[0] == TAB {
        EscapedPairMiss('t', rest, 'n', [LF]);
      } else {
        ReplacePairMiss(s[0], rest, B, 'n', [LF]);
      }
    }
  }

  /** A doubled backslash stays unless what follows begins with the pattern's second byte. */
  lemma BackslashPair(rest: string, y: char, w: string)
    requires y != B && (rest == "" || rest[0] != y)
    ensures ReplaceAll([B, B] + rest, [B, y], w) == [B, B] + ReplaceAll(rest, [B, y], w)
  {
    hide ReplaceAll;
    assert [B, B] + rest == [B] + ([B] + rest);
    ReplacePairMiss(B, [B] + rest, B, y, w);
    ReplacePairMiss(B, rest, B, y, w);
    assert [B] + ([B] + ReplaceAll(rest, [B, y], w)) == [B, B] + ReplaceAll(rest, [B, y], w);
  }

  /** Otherwise its second half is taken for the start of an escape. */
  lemma BackslashThen(y: char, c: char, rest: string)
    requires y != B
    ensures ReplaceAll([B, B] + ([y] + rest), [B, y], [c]) == [B, c] + ReplaceAll(rest, [B, y], [c])
  {
    hide ReplaceAll;
    assert [B, B] + ([y] + rest) == [B] + ([B, y] + rest);
    ReplacePairMiss(B, [B, y] + rest, B, y, [c]);
    ReplacePairHit(B, y, [c], rest);
    assert [B] + ([c] + ReplaceAll(rest, [B, y], [c])) == [B, c] + ReplaceAll(rest, [B, y], [c]);
  }

  /** `\c` with an ordinary `c` passes unchanged when the pattern's second byte is another one. */
  lemma EscapedPairMiss(c: char, rest: string, y: char, w: string)
    requires c != B && c != y
    ensures ReplaceAll([B, c] + rest, [B, y], w) == [B, c] + ReplaceAll(rest, [B, y], w)
  {
    assert [B, c] + rest == [B] + ([c] + rest);
    ReplacePairMiss(B, [c] + rest, B, y, w);
    ReplacePairMiss(c, rest, B, y, w);
    assert [B] + ([c] + ReplaceAll(rest, [B, y], w)) == [B, c] + ReplaceAll(rest, [B, y], w);
  }

  lemma {:induction false} SecondPass(s: string)
    ensures ReplaceAll(Pass1(s), [B, 't'], [TAB]) == Pass2(s)
    decreases |s|
  {
    hide ReplaceAll;
    if s == "" { ReplaceInNothing([B, 't'], [TAB]); } else {
      var rest := Pass1(s[1..]);
      if s[0] == B && |s| > 1 && s[1] == 'n' {
        SecondPass(s[2..]);
        EscapedPairMiss(LF, Pass1(s[2..]), 't', [TAB]);
        return;
      }
      EscapedHead(s[1..]);
      SecondPass(s[1..]);
      if s[0] == B {
        if |s| > 1 && s[1] == 't' {
          SecondPass(s[2..]);
          assert rest == ['t'] + Pass1(s[2..]) by { assert s[1..][1..] == s[2..]; }
          BackslashThen('t', TAB, Pass1(s[2..]));
        } else {
          BackslashPair(rest, 't', [TAB]);
        }
      } else if s[0] == TAB {
        ReplacePairHit(B, 't', [TAB], rest);
      } else {
        ReplacePairMiss(s[0], rest, B, 't', [TAB]);
      }
    }
  }

  lemma MangleCons(s: string)
    requires s != ""
    ensures s[0] == B && |s| > 1 && s[1] == 'n' ==> Mangle(s) == [B, LF] + Mangle(s[2..])
    ensures s[0] == B && |s| > 1 && s[1] == 't' ==> Mangle(s) == [B, TAB] + Mangle(s[2..])
    ensures !(s[0] == B && |s| > 1 && (s[1] == 'n' || s[1] == 't')) ==> Mangle(s) == [s[0]] + Mangle(s[1..])
  {}

  lemma {:induction false} ThirdPass(s: string)
    ensures ReplaceAll(Pass2(s), [B, B], [B]) == Mangle(s)
    decreases |s|
  {
    hide Mangle, ReplaceAll;
    if s == "" { MangleEmpty(); ReplaceInNothing([B, B], [B]); } else {
      MangleCons(s);
      if s[0] == B && |s| > 1 && s[1] == 'n' {
        ThirdPass(s[2..]);
        LoneBackslash(LF, Pass2(s[2..]));
      } else if s[0] == B && |s| > 1 && s[1] == 't' {
        ThirdPass(s[2..]);
        LoneBackslash(TAB, Pass2(s[2..]));
      } else {
        ThirdPass(s[1..]);
        if s[0] == B {
          ReplacePairHit(B, B, [B], Pass2(s[1..]));
        } else {
          ReplacePairMiss(s[0], Pass2(s[1..]), B, B, [B]);
        }
      }
    }
  }

  lemma MangleEmpty()
    ensures Mangle("") == ""
  {}

  lemma LoneBackslash(c: char, rest: string)
    requires c != B
    ensures ReplaceAll([B, c] + rest, [B, B], [B]) == [B, c] + ReplaceAll(rest, [B, B], [B])
  {
    assert [B, c] + rest == [B] + ([c] + rest);
    ReplacePairMiss(B, [c] + rest, B, B, [B]);
    ReplacePairMiss(c, rest, B, B, [B]);
    assert [B] + ([c] + ReplaceAll(rest, [B, B], [B])) == [B, c] + ReplaceAll(rest, [B, B], [B]);
  }

  /** The exact effect of a round trip on every string. */
  lemma UnescapeEscape(s: string)
    ensures Unescape(Escape(s)) == Mangle(s)
  {
    EscapeIsEscaped(s);
    FirstPass(s);
    SecondPass(s);
    ThirdPass(s);
  }

  lemma {:induction false} EscapedIsPlain(s: string)
    ensures TAB !in Escaped(s) && LF !in Escaped(s)
  {
    if s != "" { EscapedIsPlain(s[1..]); }
  }

  // ----- lines -----

  function Join(fields: seq<string>): string
    requires fields != []
  {
    if |fields| == 1 then fields[0] else fields[0] + [TAB] + Join(fields[1..])
  }

  /** strings.Split at tabs. */
  function Split(line: string): (r: seq<string>)
    ensures r != []
  {
    if line == "" then [""]
    else if line[0] == TAB then [""] + Split(line[1..])
    else var r := Split(line[1..]); [[line[0]] + r[0]] + r[1..]
  }

  function Map(f: string -> string, xs: seq<string>): (r: seq<string>)
    ensures |r| == |xs| && forall i :: 0 <= i < |xs| ==> r[i] == f(xs[i])
  {
    seq(|xs|, i requires 0 <= i < |xs| => f(xs[i]))
  }

  predicate IsHex(c: char) { '0' <= c <= '9' || 'a' <= c <= 'f' || 'A' <= c <= 'F' }

  function HexValue(c: char): (v: nat)
    requires IsHex(c)
    ensures v < 16
  {
    if '0' <= c <= '9' then (c - '0') as nat
    else if 'a' <= c <= 'f' then (c - 'a') as nat + 10
    else (c - 'A') as nat + 10
  }

  function HexDigit(d: nat): (c: char)
    requires d < 16
    ensures IsHex(c) && HexValue(c) == d
  {
    if d < 10 then '0' + d as char else 'a' + (d - 10) as char
  }

  /** `%0kx` of a number below 16 to the k. */
  function Hex(n: nat, k: nat): (s: string)
    ensures |s| == k && forall i :: 0 <= i < k ==> IsHex(s[i])
    decreases k
  {
    if k == 0 then "" else Hex(n / 16, k - 1) + [HexDigit(n % 16)]
  }

  function HexNumber(s: string): nat
    requires forall i :: 0 <= i < |s| ==> IsHex(s[i])
  {
    if s == "" then 0 else 16 * HexNumber(s[..|s| - 1]) + HexValue(s[|s| - 1])
  }

  function Power16(k: nat): nat { if k == 0 then 1 else 16 * Power16(k - 1) }

  lemma {:induction false} HexRoundTrip(n: nat, k: nat)
    requires n < Power16(k)
    ensures HexNumber(Hex(n, k)) == n
    decreases k
  {
    if k > 0 {
      HexRoundTrip(n / 16, k - 1);
      var s := Hex(n, k);
      assert s[..|s| - 1] == Hex(n / 16, k - 1);
    }
  }

  /** The index of the last tab, or -1. */
  function LastTab(s: string): (i: int)
    ensures -1 <= i < |s|
  {
    if s == "" then -1 else if s[|s| - 1] == TAB then |s| - 1 else LastTab(s[..|s| - 1])
  }

  function Content(args: seq<string>): string
    requires args != []
  {
    Join(Map(Escape, args))
  }

  function Checksum(content: string, crc: string -> Word): string {
    "#" + Hex(crc(content), 8)
  }

  /** One record, without the line feed that ends it; an empty command has an empty content. */
  function EncodeLine(args: seq<string>, crc: string -> Word): string {
    var content := if args == [] then "" else Content(args);
    content + [TAB] + Checksum(content, crc)
  }

  datatype Line = Good(args: seq<string>) | Corrupt

  /** A line without a checksum field is accepted as it is: the format before checksums. */
  function DecodeLine(line: string, crc: string -> Word): Line {
    var args := Map(Unescape, Split(line));
    var last := args[|args| - 1];
    if |last| == 9 && last[0] == '#' then
      var end := LastTab(line);
      if end < 0 then Corrupt
      else if exists i :: 1 <= i < 9 && !IsHex(last[i]) then Corrupt
      else if HexNumber(last[1..]) != crc(line[..end]) then Corrupt
      else Good(args[..|args| - 1])
    else Good(args)
  }

  lemma {:induction false} SplitField(field: string, rest: string)
    requires TAB !in field
    ensures Split(field) == [field]
    ensures Split(field + [TAB] + rest) == [field] + Split(rest)
    decreases |field|
  {
    var s := field + [TAB] + rest;
    if field == "" {
      assert s[0] == TAB && s[1..] == rest;
    } else {
      SplitField(field[1..], rest);
      assert s[1..] == field[1..] + [TAB] + rest && s[0] == field[0];
      assert [field[0]] + field[1..] == field;
    }
  }

  lemma {:induction false} SplitJoin(fields: seq<string>, last: string)
    requires fields != [] && TAB !in last && forall i :: 0 <= i < |fields| ==> TAB !in fields[i]
    ensures Split(Join(fields) + [TAB] + last) == fields + [last]
    decreases |fields|
  {
    SplitField(last, "");
    if |fields| == 1 {
      SplitField(fields[0], last);
    } else {
      var rest := Join(fields[1..]) + [TAB] + last;
      assert Join(fields) + [TAB] + last == fields[0] + [TAB] + rest;
      SplitField(fields[0], rest);
      SplitJoin(fields[1..], last);
      assert fields == [fields[0]] + fields[1..];
    }
  }

  lemma {:induction false} LastTabOf(content: string, field: string)
    requires TAB !in field
    ensures LastTab(content + [TAB] + field) == |content|
    decreases |field|
  {
    var s := content + [TAB] + field;
    if field != "" {
      var front := field[..|field| - 1];
      assert s[..|s| - 1] == content + [TAB] + front;
      LastTabOf(content, front);
    }
  }

  lemma {:induction false} JoinPlain(fields: seq<string>, c: char)
    requires fields != [] && c != TAB && forall i :: 0 <= i < |fields| ==> c !in fields[i]
    ensures c !in Join(fields)
    decreases |fields|
  {
    if |fields| > 1 { JoinPlain(fields[1..], c); }
  }

  lemma {:induction false} NothingToUnescape(s: string, x: char, y: char, w: string)
    requires B !in s && x == B
    ensures ReplaceAll(s, [x, y], w) == s
  {
    if s != "" {
      NothingToUnescape(s[1..], x, y, w);
      assert s == [s[0]] + s[1..];
    }
  }

  lemma PlainUnescape(s: string)
    requires B !in s
    ensures Unescape(s) == s
  {
    NothingToUnescape(s, B, 'n', [LF]);
    NothingToUnescape(s, B, 't', [TAB]);
    NothingToUnescape(s, B, B, [B]);
  }

  lemma ChecksumPlain(content: string, crc: string -> Word)
    ensures var c := Checksum(content, crc);
            |c| == 9 && c[0] == '#' && TAB !in c && LF !in c && B !in c && c[1..] == Hex(crc(content), 8)
    ensures Unescape(Checksum(content, crc)) == Checksum(content, crc)
    ensures HexNumber(Hex(crc(content), 8)) == crc(content)
  {
    var c := Checksum(content, crc);
    forall i | 0 <= i < 9 ensures c[i] != TAB && c[i] != LF && c[i] != B {
      if i > 0 { assert IsHex(Hex(crc(content), 8)[i - 1]); }
    }
    PlainUnescape(c);
    assert Power16(8) == 0x1_0000_0000;
    HexRoundTrip(crc(content), 8);
  }

  lemma ContentPlain(args: seq<string>)
    requires args != []
    ensures LF !in Content(args)
    ensures forall i :: 0 <= i < |args| ==> TAB !in Escape(args[i])
  {
    hide Escape;
    forall i | 0 <= i < |args| ensures TAB !in Escape(args[i]) && LF !in Escape(args[i]) {
      EscapeIsEscaped(args[i]);
      EscapedIsPlain(args[i]);
    }
    JoinPlain(Map(Escape, args), LF);
  }

  /** A record is one line, and it does not end in a carriage return that the scanner would drop. */
  lemma RecordIsOneLine(args: seq<string>, crc: string -> Word)
    ensures var line := EncodeLine(args, crc); LF !in line && line != "" && line[|line| - 1] != '\r'
  {
    hide Content, Checksum, Unescape;
    if args != [] { ContentPlain(args); }
    var content := if args == [] then "" else Content(args);
    ChecksumPlain(content, crc);
    var c, line := Checksum(content, crc), EncodeLine(args, crc);
    assert line[|line| - 1] == c[8] == Hex(crc(content), 8)[7];
  }

  /** Every record passes its own checksum, keeps its argument count, and decodes to `Mangle` of each argument. */
  lemma LineRoundTrip(args: seq<string>, crc: string -> Word)
    requires args != []
    ensures DecodeLine(EncodeLine(args, crc), crc) == Good(Map(Mangle, args))
  {
    hide Escape, Unescape, Mangle, Checksum, Split, Join, HexNumber, Hex;
    var content := Content(args);
    var fields, check := Map(Escape, args), Checksum(content, crc);
    ContentPlain(args);
    ChecksumPlain(content, crc);
    SplitJoin(fields, check);
    LastTabOf(content, check);
    var line := EncodeLine(args, crc);
    assert Split(line) == fields + [check];
    assert line[..|content|] == content;
    var decoded := Map(Unescape, Split(line));
    forall i | 0 <= i < |args| ensures decoded[i] == Mangle(args[i]) {
      assert Split(line)[i] == fields[i] == Escape(args[i]);
      UnescapeEscape(args[i]);
    }
    assert decoded[|args|] == check;
    assert decoded[..|args|] == Map(Mangle, args);
    forall i | 1 <= i < 9 ensures IsHex(check[i]) { assert check[i] == check[1..][i - 1]; }
  }

  predicate SafeCommand(args: seq<string>) {
    forall i :: 0 <= i < |args| ==> Safe(args[i])
  }

  /** The original arguments come back exactly when none spells out `\n` or `\t`. */
  lemma LineRoundTripIffSafe(args: seq<string>, crc: string -> Word)
    requires args != []
    ensures DecodeLine(EncodeLine(args, crc), crc) == Good(args) <==> SafeCommand(args)
  {
    hide EncodeLine, DecodeLine, Mangle, Safe;
    LineRoundTrip(args, crc);
    forall i | 0 <= i < |args| ensures Mangle(args[i]) == args[i] <==> Safe(args[i]) { MangleFixesSafe(args[i]); }
    var back := Map(Mangle, args);
    if back == args {
      forall i | 0 <= i < |args| ensures Safe(args[i]) { assert back[i] == args[i]; }
    }
    if SafeCommand(args) {
      forall i | 0 <= i < |args| ensures back[i] == args[i] {}
    }
  }

  // ----- the file -----

  function LineFeedAt(s: string): (k: nat)
    ensures k <= |s|
  {
    if s == "" || s[0] == LF then 0 else 1 + LineFeedAt(s[1..])
  }

  function DropReturn(line: string): string {
    if line != "" && line[|line| - 1] == '\r' then line[..|line| - 1] else line
  }

  /** bufio.ScanLines: an unterminated last line still counts as a line. */
  function ScanLines(file: string): seq<string>
    decreases |file|
  {
    if file == "" then [] else
      var k := LineFeedAt(file);
      if k == |file| then [DropReturn(file)] else [DropReturn(file[..k])] + ScanLines(file[k + 1..])
  }

  /** What replay dispatches: corrupted lines are skipped. */
  function GoodRecords(lines: seq<string>, crc: string -> Word): seq<seq<string>> {
    if lines == [] then [] else
      match DecodeLine(lines[0], crc)
      case Good(args) => [args] + GoodRecords(lines[1..], crc)
      case Corrupt => GoodRecords(lines[1..], crc)
  }

  function Records(file: string, crc: string -> Word): seq<seq<string>> {
    GoodRecords(ScanLines(file), crc)
  }

  /** The file that a sequence of appends leaves behind. */
  function FileOf(log: seq<seq<string>>, crc: string -> Word): string {
    if log == [] then "" else EncodeLine(log[0], crc) + [LF] + FileOf(log[1..], crc)
  }

  lemma {:induction false} LineFeedAfter(line: string, rest: string)
    requires LF !in line
    ensures LineFeedAt(line + [LF] + rest) == |line|
  {
    var s := line + [LF] + rest;
    if line == "" { assert s[0] == LF; } else {
      assert s[1..] == line[1..] + [LF] + rest && s[0] == line[0];
      LineFeedAfter(line[1..], rest);
    }
  }

  lemma ScanOneLine(line: string, rest: string)
    requires LF !in line && line != "" && line[|line| - 1] != '\r'
    ensures ScanLines(line + [LF] + rest) == [line] + ScanLines(rest)
  {
    var s := line + [LF] + rest;
    LineFeedAfter(line, rest);
    assert s[..|line|] == line && s[|line| + 1..] == rest;
  }

  function MangleAll(log: seq<seq<string>>): seq<seq<string>> {
    if log == [] then [] else [Map(Mangle, log[0])] + MangleAll(log[1..])
  }

  /** Reading a log back yields its commands in order, each with its arguments mangled. */
  lemma {:induction false} FileRoundTrip(log: seq<seq<string>>, crc: string -> Word)
    requires forall i :: 0 <= i < |log| ==> log[i] != []
    ensures Records(FileOf(log, crc), crc) == MangleAll(log)
  {
    hide EncodeLine, DecodeLine, Mangle, ScanLines;
    if log == [] { NoLines(); } else {
      var line, rest := EncodeLine(log[0], crc), FileOf(log[1..], crc);
      RecordIsOneLine(log[0], crc);
      ScanOneLine(line, rest);
      LineRoundTrip(log[0], crc);
      FileRoundTrip(log[1..], crc);
      assert ([line] + ScanLines(rest))[1..] == ScanLines(rest);
    }
  }

  lemma NoLines()
    ensures ScanLines("") == []
  {}

  lemma {:induction false} MangleAllSafe(log: seq<seq<string>>)
    requires forall i :: 0 <= i < |log| ==> SafeCommand(log[i])
    ensures MangleAll(log) == log
  {
    hide Mangle, Safe;
    if log != [] {
      forall j | 0 <= j < |log[0]| ensures Mangle(log[0][j]) == log[0][j] { MangleFixesSafe(log[0][j]); }
      assert Map(Mangle, log[0]) == log[0];
      MangleAllSafe(log[1..]);
      assert log == [log[0]] + log[1..];
    }
  }

  lemma {:induction false} FileSnoc(log: seq<seq<string>>, args: seq<string>, crc: string -> Word)
    ensures FileOf(log + [args], crc) == FileOf(log, crc) + EncodeLine(args, crc) + [LF]
  {
    hide EncodeLine;
    if log == [] {
      assert log + [args] == [args] && [args][1..] == [];
      assert FileOf([], crc) == "";
    } else {
      assert (log + [args])[1..] == log[1..] + [args];
      FileSnoc(log[1..], args, crc);
      var head, tail, line := EncodeLine(log[0], crc), FileOf(log[1..], crc), EncodeLine(args, crc);
      assert head + [LF] + (tail + line + [LF]) == (head + [LF] + tail) + line + [LF];
    }
  }

  /** The open file; `log` is the list of commands appended since the last truncation. */
  class Aof {
    const crc: string -> Word
    var file: string
    ghost var log: seq<seq<string>>

    ghost predicate Valid() reads this {
      file == FileOf(log, crc)
    }

    constructor (crc: string -> Word)
      ensures Valid() && file == "" && log == [] && this.crc == crc
    {
      this.crc := crc;
      file := "";
      log := [];
    }

    method Append(args: seq<string>)
      requires Valid()
      modifies this
      ensures Valid() && log == old(log) + [args]
    {
      hide EncodeLine, Escape, Checksum;
      var content := BuildContent(args);
      LineIs(args, crc);
      FileSnoc(log, args, crc);
      file := file + (content + [TAB] + Checksum(content, crc)) + [LF];
      log := log + [args];
    }

    method Reset()
      requires Valid()
      modifies this
      ensures Valid() && log == []
    {
      file := "";
      log := [];
    }
  }

  lemma LineIs(args: seq<string>, crc: string -> Word)
    ensures var content := if args == [] then "" else Content(args);
            EncodeLine(args, crc) == content + [TAB] + Checksum(content, crc)
  {}

  lemma {:induction false} JoinSnoc(fields: seq<string>, x: string)
    requires fields != []
    ensures Join(fields + [x]) == Join(fields) + [TAB] + x
  {
    assert (fields + [x])[1..] == fields[1..] + [x];
    if |fields| == 1 { assert fields[1..] + [x] == [x]; } else {
      JoinSnoc(fields[1..], x);
      assert fields[0] + [TAB] + (Join(fields[1..]) + [TAB] + x) == fields[0] + [TAB] + Join(fields[1..]) + [TAB] + x;
    }
  }

  method BuildContent(args: seq<string>) returns (content: string)
    ensures content == if args == [] then "" else Content(args)
  {
    hide Escape;
    content := "";
    for i := 0 to |args|
      invariant content == if i == 0 then "" else Join(Map(Escape, args[..i]))
    {
      assert Map(Escape, args[..i + 1]) == Map(Escape, args[..i]) + [Escape(args[i])];
      if i > 0 {
        JoinSnoc(Map(Escape, args[..i]), Escape(args[i]));
        content := content + [TAB];
      }
      content := content + Escape(args[i]);
    }
    assert args[..|args|] == args;
  }

  /** verifyAndParseLine, with unescapeLine's loop. */
  method VerifyAndParseLine(line: string, crc: string -> Word) returns (r: Line)
    ensures r == DecodeLine(line, crc)
  {
    hide Unescape, Split, Hex;
    var raw := Split(line);
    var args := seq(|raw|, _ => "");
    for i := 0 to |raw|
      invariant |args| == |raw| && forall k :: 0 <= k < i ==> args[k] == Unescape(raw[k])
    {
      args := args[i := Unescape(raw[i])];
    }
    assert args == Map(Unescape, raw);
    var last := args[|args| - 1];
    if |last| == 9 && last[0] == '#' {
      var end := LastTab(line);
      if end < 0 { return Corrupt; }
      if exists i :: 1 <= i < 9 && !IsHex(last[i]) { return Corrupt; }
      if HexNumber(last[1..]) != crc(line[..end]) { return Corrupt; }
      return Good(args[..|args| - 1]);
    }
    return Good(args);
  }

  // ----- the file on bytes -----

  /** Escaping goes byte by byte; what it does to a whole string and back is known at every position. */
  lemma EscapesBytes(c: char, s: string)
    ensures Escape("") == ""
    ensures Escape([c] + s) ==
              (if c == '\\' then "\\\\" else if c == '\t' then "\\t" else if c == '\n' then "\\n" else [c]) + Escape(s)
    ensures |Unescape(Escape(s))| == |s| && forall i :: 0 <= i < |s| ==>
              Unescape(Escape(s))[i] ==
                if i > 0 && s[i - 1] == '\\' && s[i] == 'n' then '\n'
                else if i > 0 && s[i - 1] == '\\' && s[i] == 't' then '\t'
                else s[i]
  {
    hide Escape, Unescape;
    EscapeIsEscaped("");
    EscapeIsEscaped([c] + s);
    EscapeIsEscaped(s);
    UnescapeEscape(s);
    assert ([c] + s)[1..] == s;
  }

  /** Fields are what lies between tabs. */
  lemma SplitsAtTabs(field: string, rest: string)
    requires '\t' !in field
    ensures Split(field) == [field] && Split(field + "\t" + rest) == [field] + Split(rest)
  {
    SplitField(field, rest);
  }

  lemma {:induction false} SplitLast(content: string, field: string)
    requires TAB !in field
    ensures Split(content + [TAB] + field) == Split(content) + [field]
  {
    var s := content + [TAB] + field;
    SplitField(field, "");
    if content == "" {
      assert s[0] == TAB && s[1..] == field;
    } else {
      SplitLast(content[1..], field);
      assert s[1..] == content[1..] + [TAB] + field && s[0] == content[0];
    }
  }

  /** Hexadecimal digits, in either case. */
  lemma HexIs(s: string, c: char)
    requires forall i :: 0 <= i < |s| ==> IsHex(s[i])
    ensures IsHex(c) <==> '0' <= c <= '9' || 'a' <= c <= 'f' || 'A' <= c <= 'F'
    ensures IsHex(c) ==>
              HexNumber(s + [c]) == 16 * HexNumber(s) +
                if c <= '9' then (c - '0') as int else if c >= 'a' then (c - 'a') as int + 10 else (c - 'A') as int + 10
    ensures HexNumber("") == 0
  {
    assert (s + [c])[..|s|] == s;
  }

  /** A record: the escaped arguments between tabs, then a tab, a `#` and eight digits, the checksum of all before. */
  lemma RecordShape(args: seq<string>, crc: string -> Word) returns (content: string, h: string)
    requires args != []
    ensures EncodeLine(args, crc) == content + "\t#" + h && Split(content) == Map(Escape, args)
    ensures |h| == 8 && (forall i :: 0 <= i < 8 ==> IsHex(h[i])) && HexNumber(h) == crc(content)
  {
    hide Escape, Unescape, Checksum, Split, HexNumber;
    content, h := Content(args), Hex(crc(Content(args)), 8);
    ContentPlain(args);
    ChecksumPlain(content, crc);
    SplitJoin(Map(Escape, args), "");
    SplitLast(content, "");
    assert Split(content) + [""] == Map(Escape, args) + [""];
    assert Split(content) == (Split(content) + [""])[..|args|];
    assert Checksum(content, crc) == "#" + h;
    assert content + [TAB] + ("#" + h) == content + "\t#" + h;
  }

  /** A line with a checksum is taken exactly if the checksum is that of what precedes it. */
  lemma ChecksumDecides(content: string, h: string, crc: string -> Word)
    requires |h| == 8 && '\t' !in h && '\\' !in h
    ensures (forall i :: 0 <= i < 8 ==> IsHex(h[i])) && HexNumber(h) == crc(content) ==>
              DecodeLine(content + "\t#" + h, crc) == Good(Map(Unescape, Split(content)))
    ensures !((forall i :: 0 <= i < 8 ==> IsHex(h[i])) && HexNumber(h) == crc(content)) ==>
              DecodeLine(content + "\t#" + h, crc) == Corrupt
  {
    hide Unescape, Split, HexNumber, IsHex;
    var last, line := "#" + h, content + "\t#" + h;
    assert line == content + [TAB] + last;
    SplitLast(content, last);
    LastTabOf(content, last);
    PlainUnescape(last);
    var args := Map(Unescape, Split(line));
    assert args[..|args| - 1] == Map(Unescape, Split(content));
    assert last[1..] == h && line[..|content|] == content && forall i :: 1 <= i < 9 ==> last[i] == h[i - 1];
    forall i | 0 <= i < 8 ensures last[i + 1] == h[i] {}
  }

  /** A line without a checksum is taken as it is; a checksum of nothing is not. */
  lemma NoChecksum(line: string, last: string, crc: string -> Word)
    requires '\t' !in last && '\\' !in last
    ensures !(|last| == 9 && last[0] == '#') ==>
              && DecodeLine(last, crc) == Good([last])
              && DecodeLine(line + "\t" + last, crc) == Good(Map(Unescape, Split(line)) + [last])
    ensures |last| == 9 && last[0] == '#' ==> DecodeLine(last, crc) == Corrupt
  {
    hide Unescape, HexNumber, IsHex;
    SplitField(last, "");
    SplitLast(line, last);
    PlainUnescape(last);
    NoTab(last);
    assert Map(Unescape, [last]) == [last];
    assert Map(Unescape, Split(line) + [last]) == Map(Unescape, Split(line)) + [last];
  }

  lemma {:induction false} NoTab(s: string)
    requires TAB !in s
    ensures LastTab(s) == -1
  {
    if s != "" { NoTab(s[..|s| - 1]); }
  }

  /** Records are read line by line, without a carriage return at the end; corrupt ones are skipped. */
  lemma ReadsLine(line: string, rest: string, crc: string -> Word)
    requires '\n' !in line
    ensures var kept := if line != "" && line[|line| - 1] == '\r' then line[..|line| - 1] else line;
            Records(line + "\n" + rest, crc) ==
              (if DecodeLine(kept, crc).Good? then [DecodeLine(kept, crc).args] else []) + Records(rest, crc)
    ensures line != "" ==> Records(line, crc) == Records(line + "\n", crc)
    ensures Records("", crc) == []
  {
    hide DecodeLine;
    var file := line + "\n" + rest;
    LineFeedAfter(line, rest);
    assert file[..|line|] == line && file[|line| + 1..] == rest;
    var only := line + "\n";
    LineFeedAfter(line, "");
    assert line + [LF] + "" == only && only[|line| + 1..] == "" && only[..|line|] == line;
    NoLineFeed(line);
    if line != "" { assert ScanLines(only) == [DropReturn(line)] + ScanLines("") == ScanLines(line); }
  }

  lemma {:induction false} NoLineFeed(line: string)
    requires LF !in line
    ensures LineFeedAt(line) == |line|
  {
    if line != "" {
      assert line[0] in line;
      NoLineFeed(line[1..]);
    }
  }
}
