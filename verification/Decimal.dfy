/** Numerals as Go's strconv prints and parses them. */
module Decimal {
  import opened Common

  predicate IsDigit(c: char) { '0' <= c <= '9' }

  function DigitValue(c: char): nat requires IsDigit(c) { (c - '0') as nat }

  function DigitOf(d: nat): char requires d < 10 { '0' + d as char }

  function FormatNat(n: nat): (s: string)
    ensures |s| > 0 && forall i :: 0 <= i < |s| ==> IsDigit(s[i])
  {
    if n < 10 then [DigitOf(n)] else FormatNat(n / 10) + [DigitOf(n % 10)]
  }

  /** strconv.FormatInt(n, 10). */
  function FormatInt(n: int): string {
    if n < 0 then "-" + FormatNat(-n) else FormatNat(n)
  }

  predicate AllDigits(s: string) { |s| > 0 && forall i :: 0 <= i < |s| ==> IsDigit(s[i]) }

  function Value(s: string): nat
    requires forall i :: 0 <= i < |s| ==> IsDigit(s[i])
  {
    if s == [] then 0 else 10 * Value(s[..|s| - 1]) + DigitValue(s[|s| - 1])
  }

  /** A range error still carries the nearest 64-bit value. */
  datatype Parsed = Number(n: int) | Syntax | OutOfRange(nearest: int)

  /** strconv.ParseInt(s, 10, 64): an optional sign, then one or more digits. */
  function ParseInt(s: string): (r: Parsed)
    ensures r.Number? ==> MinInt64 <= r.n <= MaxInt64
  {
    if s == "" then Syntax else
      var negative := s[0] == '-';
      var digits := if s[0] == '-' || s[0] == '+' then s[1..] else s;
      if !AllDigits(digits) then Syntax else
        var size: int := Value(digits);
        var v := if negative then -size else size;
        if v > MaxInt64 then OutOfRange(MaxInt64)
        else if v < MinInt64 then OutOfRange(MinInt64)
        else Number(v)
  }

  lemma {:induction false} ValueOfFormat(n: nat)
    ensures Value(FormatNat(n)) == n
  {
    var s := FormatNat(n);
    if n < 10 {
      assert s[..0] == "";
    } else {
      ValueOfFormat(n / 10);
      assert s[..|s| - 1] == FormatNat(n / 10);
    }
  }

  /** Printing and parsing are inverse on every 64-bit integer. */
  lemma ParseFormat(n: int)
    requires MinInt64 <= n <= MaxInt64
    ensures ParseInt(FormatInt(n)) == Number(n)
  {
    if n < 0 {
      ValueOfFormat(-n);
      assert FormatInt(n)[1..] == FormatNat(-n);
    } else {
      ValueOfFormat(n);
      assert IsDigit(FormatNat(n)[0]);
    }
  }

  // ----- numerals, character by character -----

  /** Printing writes the decimal digits, most significant first, after a minus sign if there is one. */
  lemma PrintsDecimal(n: nat, d: nat)
    requires d < 10
    ensures FormatInt(d) == ['0' + d as char]
    ensures n > 0 ==> FormatInt(10 * n + d) == FormatInt(n) + ['0' + d as char]
    ensures n > 0 ==> FormatInt(0 - n) == "-" + FormatInt(n)
  {
    if n > 0 { assert (10 * n + d) / 10 == n && (10 * n + d) % 10 == d; }
  }

  ghost predicate Digits(s: string) { forall i :: 0 <= i < |s| ==> '0' <= s[i] <= '9' }

  /** Another digit multiplies by ten and adds, until the number no longer fits; then it is too large for good. */
  lemma ReadsDecimal(s: string, c: char)
    requires Digits(s) && '0' <= c <= '9'
    ensures s == "" ==> ParseInt([c]) == Number((c - '0') as int)
    ensures s != "" ==>
              ParseInt(s + [c]) ==
                if ParseInt(s).Number? && 10 * ParseInt(s).n + (c - '0') as int <= 0x7fff_ffff_ffff_ffff
                then Number(10 * ParseInt(s).n + (c - '0') as int)
                else OutOfRange(0x7fff_ffff_ffff_ffff)
  {
    var t := s + [c];
    assert t[..|t| - 1] == s;
    assert s == "" ==> t == [c] && Value(t) == DigitValue(c);
  }

  /** A sign before the digits: plus changes nothing, minus negates, and the smallest number still fits. */
  lemma ReadsSign(s: string)
    requires Digits(s) && s != ""
    ensures ParseInt("+" + s) == ParseInt(s)
    ensures ParseInt(s).Number? ==> ParseInt("-" + s) == Number(-ParseInt(s).n)
    ensures !ParseInt(s).Number? ==>
              ParseInt("-" + s) == OutOfRange(-0x8000_0000_0000_0000) ||
              ParseInt("-" + s) == Number(-0x8000_0000_0000_0000)
  {
    assert ("+" + s)[1..] == s && ("-" + s)[1..] == s;
  }

  /** Nothing but an optional sign followed by digits is a number. */
  lemma ReadsNothingElse(s: string)
    ensures ParseInt(s).Syntax? <==>
              s == "" || s == "+" || s == "-" || !Digits(s[1..]) || !(s[0] in "+-" || '0' <= s[0] <= '9')
  {
    if s != "" { assert s == [s[0]] + s[1..]; }
  }

  /** Another digit multiplies by ten below zero too, down to the smallest 64-bit number. */
  lemma ReadsNegative(s: string, c: char)
    requires Digits(s) && '0' <= c <= '9' && ParseInt("-" + s).Number?
    ensures var m := 10 * ParseInt("-" + s).n - (c - '0') as int;
            ParseInt("-" + s + [c]) == if m >= -0x8000_0000_0000_0000 then Number(m)
              else OutOfRange(-0x8000_0000_0000_0000)
  {
    var t := s + [c];
    assert t[..|t| - 1] == s && ("-" + s + [c])[1..] == t && ("-" + s)[1..] == s;
  }
}
