/** UTF-8 sequences, as Go's unicode/utf8 decodes them one at a time. */
module Utf8 {

  predicate Tail(c: char) { '\U{80}' <= c <= '\U{bf}' }

  predicate OpensThree(a: char, b: char) {
    || (a == '\U{e0}' && '\U{a0}' <= b <= '\U{bf}')
    || (a == '\U{ed}' && '\U{80}' <= b <= '\U{9f}')
    || ('\U{e1}' <= a <= '\U{ef}' && a != '\U{ed}' && Tail(b))
  }

  predicate OpensFour(a: char, b: char) {
    || (a == '\U{f0}' && '\U{90}' <= b <= '\U{bf}')
    || (a == '\U{f4}' && '\U{80}' <= b <= '\U{8f}')
    || ('\U{f1}' <= a <= '\U{f3}' && Tail(b))
  }

  /** The length of the UTF-8 sequence the string begins with (section 4 of RFC 3629), zero if there is none. */
  function RuneLen(s: string): (n: nat)
    ensures n <= |s|
  {
    if s == "" then 0
    else if s[0] < '\U{80}' then 1
    else if |s| >= 2 && '\U{c2}' <= s[0] <= '\U{df}' && Tail(s[1]) then 2
    else if |s| >= 3 && OpensThree(s[0], s[1]) && Tail(s[2]) then 3
    else if |s| >= 4 && OpensFour(s[0], s[1]) && Tail(s[2]) && Tail(s[3]) then 4
    else 0
  }

  /** The sequence is a white space character, in the sense of unicode.IsSpace. */
  predicate IsSpace(r: string) {
    || (|r| == 1 && r[0] in " \t\n\r\U{0b}\U{0c}")
    || r == "\U{c2}\U{85}" || r == "\U{c2}\U{a0}" || r == "\U{e1}\U{9a}\U{80}" || r == "\U{e3}\U{80}\U{80}"
    || (|r| == 3 && r[0] == '\U{e2}' && r[1] == '\U{80}' &&
        ('\U{80}' <= r[2] <= '\U{8a}' || r[2] in "\U{a8}\U{a9}\U{af}"))
    || r == "\U{e2}\U{81}\U{9f}"
  }

  /** The sequence a non-empty string begins with; a byte that belongs to none stands for itself. */
  function FirstRune(s: string): (r: string)
    requires s != ""
    ensures r != "" && r <= s
  {
    if RuneLen(s) == 0 then s[..1] else s[..RuneLen(s)]
  }

  // ----- UTF-8 by code points -----

  /** The encoding of every Unicode scalar value is one character. */
  lemma ScalarIsRune(cp: nat, rest: string)
    requires cp <= 0x10ffff && !(0xd800 <= cp <= 0xdfff)
    ensures cp < 0x80 ==> RuneLen([cp as char] + rest) == 1
    ensures 0x80 <= cp < 0x800 ==> RuneLen([(0xc0 + cp / 64) as char, (0x80 + cp % 64) as char] + rest) == 2
    ensures 0x800 <= cp < 0x10000 ==>
              RuneLen([(0xe0 + cp / 4096) as char, (0x80 + cp / 64 % 64) as char, (0x80 + cp % 64) as char] + rest) == 3
    ensures 0x10000 <= cp ==>
              RuneLen([(0xf0 + cp / 262144) as char, (0x80 + cp / 4096 % 64) as char, (0x80 + cp / 64 % 64) as char,
                       (0x80 + cp % 64) as char] + rest) == 4
  {
    if 0x800 <= cp < 0x10000 { ThreeBytes(cp); }
    if 0x10000 <= cp { FourBytes(cp); }
  }

  lemma ThreeBytes(cp: nat)
    requires 0x800 <= cp < 0x10000 && !(0xd800 <= cp <= 0xdfff)
    ensures OpensThree((0xe0 + cp / 4096) as char, (0x80 + cp / 64 % 64) as char)
  {}

  lemma FourBytes(cp: nat)
    requires 0x10000 <= cp <= 0x10ffff
    ensures OpensFour((0xf0 + cp / 262144) as char, (0x80 + cp / 4096 % 64) as char)
  {}

  /** And every character is the encoding of one: bytes that encode none are not recognised. */
  lemma RuneIsScalar(s: string) returns (cp: nat)
    requires RuneLen(s) > 0
    ensures cp <= 0x10ffff && !(0xd800 <= cp <= 0xdfff)
    ensures s[..RuneLen(s)] ==
              if cp < 0x80 then [cp as char]
              else if cp < 0x800 then [(0xc0 + cp / 64) as char, (0x80 + cp % 64) as char]
              else if cp < 0x10000 then
                [(0xe0 + cp / 4096) as char, (0x80 + cp / 64 % 64) as char, (0x80 + cp % 64) as char]
              else
                [(0xf0 + cp / 262144) as char, (0x80 + cp / 4096 % 64) as char, (0x80 + cp / 64 % 64) as char,
                 (0x80 + cp % 64) as char]
  {
    var n := RuneLen(s);
    if n == 1 { cp := s[0] as nat; }
    else if n == 2 { cp := (s[0] as nat - 0xc0) * 64 + (s[1] as nat - 0x80); }
    else if n == 3 { cp := FromThree(s[0], s[1], s[2]); }
    else { cp := FromFour(s[0], s[1], s[2], s[3]); }
  }

  lemma FromThree(a: char, b: char, c: char) returns (cp: nat)
    requires OpensThree(a, b) && Tail(c)
    ensures 0x800 <= cp < 0x10000 && !(0xd800 <= cp <= 0xdfff)
    ensures a == (0xe0 + cp / 4096) as char && b == (0x80 + cp / 64 % 64) as char && c == (0x80 + cp % 64) as char
  {
    var x, y, z := a as nat - 0xe0, b as nat - 0x80, c as nat - 0x80;
    cp := x * 4096 + y * 64 + z;
    assert cp / 64 == x * 64 + y && cp / 4096 == x;
  }

  lemma FromFour(a: char, b: char, c: char, d: char) returns (cp: nat)
    requires OpensFour(a, b) && Tail(c) && Tail(d)
    ensures 0x10000 <= cp <= 0x10ffff
    ensures a == (0xf0 + cp / 262144) as char && b == (0x80 + cp / 4096 % 64) as char
    ensures c == (0x80 + cp / 64 % 64) as char && d == (0x80 + cp % 64) as char
  {
    var x, y, z, w := a as nat - 0xf0, b as nat - 0x80, c as nat - 0x80, d as nat - 0x80;
    cp := x * 262144 + y * 4096 + z * 64 + w;
    assert cp / 64 == x * 4096 + y * 64 + z && cp / 4096 == x * 64 + y && cp / 262144 == x;
  }

  /** The white space of unicode.IsSpace. */
  lemma SpaceIs(cp: nat)
    requires cp < 0x10000 && !(0xd800 <= cp <= 0xdfff)
    ensures var r := if cp < 0x80 then [cp as char]
                     else if cp < 0x800 then [(0xc0 + cp / 64) as char, (0x80 + cp % 64) as char]
                     else [(0xe0 + cp / 4096) as char, (0x80 + cp / 64 % 64) as char, (0x80 + cp % 64) as char];
            IsSpace(r) <==>
              || 9 <= cp <= 13 || cp == 0x20 || cp == 0x85 || cp == 0xa0 || cp == 0x1680 || 0x2000 <= cp <= 0x200a
              || cp == 0x2028 || cp == 0x2029 || cp == 0x202f || cp == 0x205f || cp == 0x3000
  {
    if cp < 0x80 { OneByteSpace(cp); } else if cp < 0x800 { TwoByteSpace(cp); } else { ThreeByteSpace(cp); }
  }

  lemma OneByteSpace(cp: nat)
    requires cp < 0x80
    ensures IsSpace([cp as char]) <==> 9 <= cp <= 13 || cp == 0x20
  {
    assert " \t\n\r\U{0b}\U{0c}" == [' ', '\t', '\n', '\r', '\U{0b}', '\U{0c}'];
  }

  lemma TwoByteSpace(cp: nat)
    requires 0x80 <= cp < 0x800
    ensures IsSpace([(0xc0 + cp / 64) as char, (0x80 + cp % 64) as char]) <==> cp == 0x85 || cp == 0xa0
  {
    var a, b := (0xc0 + cp / 64) as char, (0x80 + cp % 64) as char;
    assert [a, b] == "\U{c2}\U{85}" <==> a == '\U{c2}' && b == '\U{85}';
    assert [a, b] == "\U{c2}\U{a0}" <==> a == '\U{c2}' && b == '\U{a0}';
  }

  lemma ThreeByteSpace(cp: nat)
    requires 0x800 <= cp < 0x10000
    ensures IsSpace([(0xe0 + cp / 4096) as char, (0x80 + cp / 64 % 64) as char, (0x80 + cp % 64) as char]) <==>
              || cp == 0x1680 || 0x2000 <= cp <= 0x200a || cp == 0x2028 || cp == 0x2029 || cp == 0x202f || cp == 0x205f
              || cp == 0x3000
  {
    var x, y, z := cp / 4096, cp / 64 % 64, cp % 64;
    assert cp == x * 4096 + y * 64 + z;
    var a, b, c := (0xe0 + x) as char, (0x80 + y) as char, (0x80 + z) as char;
    assert [a, b, c] == "\U{e1}\U{9a}\U{80}" <==> a == '\U{e1}' && b == '\U{9a}' && c == '\U{80}';
    assert [a, b, c] == "\U{e3}\U{80}\U{80}" <==> a == '\U{e3}' && b == '\U{80}' && c == '\U{80}';
    assert [a, b, c] == "\U{e2}\U{81}\U{9f}" <==> a == '\U{e2}' && b == '\U{81}' && c == '\U{9f}';
    assert "\U{a8}\U{a9}\U{af}" == ['\U{a8}', '\U{a9}', '\U{af}'];
  }
}
