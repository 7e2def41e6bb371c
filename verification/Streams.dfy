/**
 * Streams (internal/store/store.go, XAdd to XRead and the ID helpers): IDs are texts that denote
 * a pair of 64-bit numbers; entries are appended in ID order and searched by bisection.
 */
module Streams {
  import opened Common
  import opened Decimal
  import opened Search

  // ----- IDs -----

  datatype Key = Key(ms: int, seq_: int)

  predicate KeyLess(a: Key, b: Key) {
    a.ms < b.ms || (a.ms == b.ms && a.seq_ < b.seq_)
  }

  /** strconv.ParseInt with its error ignored: 0 for bad syntax, the nearest value when out of range. */
  function Lenient(s: string): (n: int)
    ensures MinInt64 <= n <= MaxInt64
  {
    match ParseInt(s)
    case Number(n) => n
    case Syntax => 0
    case OutOfRange(nearest) => if nearest < 0 then MinInt64 else MaxInt64
  }

  function DashAt(s: string): (k: nat)
    ensures k <= |s|
  {
    if s == "" || s[0] == '-' then 0 else 1 + DashAt(s[1..])
  }

  const Huge := 0x3fff_ffff_ffff_ffff

  function ParseID(id: string): (k: Key)
    ensures MinInt64 <= k.ms <= MaxInt64 && MinInt64 <= k.seq_ <= MaxInt64
  {
    if id == "-" then Key(0, 0)
    else if id == "+" || id == "$" then Key(Huge, Huge)
    else
      var k := DashAt(id);
      Key(Lenient(id[..k]), if k < |id| then Lenient(id[k + 1..]) else 0)
  }

  function FormatID(k: Key): string { FormatInt(k.ms) + "-" + FormatInt(k.seq_) }

  /** compareID: everything is greater than `$`. */
  function Compare(a: string, b: string): int {
    if b == "$" then 1
    else if KeyLess(ParseID(a), ParseID(b)) then -1
    else if ParseID(a) == ParseID(b) then 0
    else 1
  }

  lemma {:induction false} DashAfter(s: string, rest: string)
    requires '-' !in s
    ensures DashAt(s + "-" + rest) == |s|
  {
    var t := s + "-" + rest;
    if s == "" { assert t[0] == '-'; } else {
      assert t[1..] == s[1..] + "-" + rest && t[0] == s[0];
      DashAfter(s[1..], rest);
    }
  }

  /** A generated ID denotes the pair it was made from, even when the sequence number is negative. */
  lemma ParseFormatID(k: Key)
    requires 0 <= k.ms <= MaxInt64 && MinInt64 <= k.seq_ <= MaxInt64
    ensures ParseID(FormatID(k)) == k && FormatID(k) != "$"
  {
    var ms, sq := FormatInt(k.ms), FormatInt(k.seq_);
    var id := ms + "-" + sq;
    assert '-' !in ms && IsDigit(ms[0]) && id[0] == ms[0];
    DashAfter(ms, sq);
    assert id[..|ms|] == ms && id[|ms| + 1..] == sq;
    ParseFormat(k.ms);
    ParseFormat(k.seq_);
  }

  // ----- entries -----

  datatype Entry = Entry(id: string, fields: seq<string>)

  ghost predicate Increasing(es: seq<Entry>) {
    forall i, j :: 0 <= i < j < |es| ==> KeyLess(ParseID(es[i].id), ParseID(es[j].id))
  }

  function LastID(es: seq<Entry>): string {
    if es == [] then "0-0" else es[|es| - 1].id
  }

  lemma ZeroID()
    ensures ParseID("0-0") == Key(0, 0)
  {
    ParseFormatID(Key(0, 0));
    assert FormatInt(0) == "0";
    assert "0" + "-" + "0" == "0-0";
  }

  // ----- reference queries: linear filters -----

  predicate InRange(id: string, start: string, end: string) {
    !(start != "-" && Compare(id, start) < 0) && !(end != "+" && Compare(id, end) > 0)
  }

  function Ranged(es: seq<Entry>, start: string, end: string): seq<Entry> {
    if es == [] then []
    else if InRange(es[0].id, start, end) then [es[0]] + Ranged(es[1..], start, end)
    else Ranged(es[1..], start, end)
  }

  function Later(es: seq<Entry>, id: string): seq<Entry> {
    if es == [] then []
    else if Compare(es[0].id, id) > 0 then [es[0]] + Later(es[1..], id)
    else Later(es[1..], id)
  }

  // ----- adding -----

  datatype Result<T> = Ok(value: T) | WrongFields | NotGreater

  function Wrap(n: int): int { if n > MaxInt64 then n - 0x1_0000_0000_0000_0000 else n }

  /** The key `*` generates from the last key, the last sequence number and the clock. */
  function AutoKey(last: Key, lastSeq: int, nowMs: int): Key {
    if nowMs <= last.ms then Key(last.ms, Wrap(last.seq_ + 1)) else Key(nowMs, Wrap(lastSeq + 1))
  }

  predicate BadFields(fields: seq<string>) { |fields| == 0 || |fields| % 2 != 0 }

  function Chosen(es: seq<Entry>, lastSeq: int, id: string, nowMs: int): Result<string> {
    if id == "*" then Ok(FormatID(AutoKey(ParseID(LastID(es)), lastSeq, nowMs)))
    else if Compare(id, LastID(es)) <= 0 then NotGreater
    else Ok(id)
  }

  function SeqAfter(es: seq<Entry>, lastSeq: int, id: string, nowMs: int): int {
    if id == "*" then AutoKey(ParseID(LastID(es)), lastSeq, nowMs).seq_
    else if Chosen(es, lastSeq, id, nowMs).Ok? then ParseID(id).seq_
    else lastSeq
  }

  function Added(es: seq<Entry>, lastSeq: int, id: string, fields: seq<string>, nowMs: int): Result<string> {
    if BadFields(fields) then WrongFields else Chosen(es, lastSeq, id, nowMs)
  }

  /** The clock has not passed the last entry, whose sequence number is the largest there is. */
  predicate Exhausted(es: seq<Entry>, nowMs: int) {
    nowMs <= ParseID(LastID(es)).ms && ParseID(LastID(es)).seq_ == MaxInt64
  }

  lemma {:induction false} NoDashBefore(s: string)
    ensures '-' !in s[..DashAt(s)]
  {
    if s != "" && s[0] != '-' {
      NoDashBefore(s[1..]);
      assert s[..DashAt(s)] == [s[0]] + s[1..][..DashAt(s[1..])];
    }
  }

  lemma MillisNonNegative(id: string)
    ensures ParseID(id).ms >= 0
  {
    var part := id[..DashAt(id)];
    NoDashBefore(id);
    assert part != "" ==> part[0] in part;
  }

  /** Whatever the clock does, a generated key is greater than the last one unless the sequence is exhausted. */
  lemma AutoKeyIsGreater(es: seq<Entry>, lastSeq: int, nowMs: int)
    requires MinInt64 <= lastSeq <= MaxInt64 && MinInt64 <= nowMs <= MaxInt64
    ensures var last := ParseID(LastID(es)); var k := AutoKey(last, lastSeq, nowMs);
            && ParseID(FormatID(k)) == k && FormatID(k) != "$"
            && (KeyLess(last, k) <==> !Exhausted(es, nowMs))
  {
    hide ParseID, FormatID, LastID;
    MillisNonNegative(LastID(es));
    ParseFormatID(AutoKey(ParseID(LastID(es)), lastSeq, nowMs));
  }

  /** Adding an entry keeps the stream in order exactly under a condition known before the call. */
  lemma AddedInOrder(es: seq<Entry>, lastSeq: int, id: string, fields: seq<string>, nowMs: int)
    requires Increasing(es) && es != [] && Added(es, lastSeq, id, fields, nowMs).Ok?
    requires MinInt64 <= lastSeq <= MaxInt64 && MinInt64 <= nowMs <= MaxInt64
    ensures Increasing(es + [Entry(Added(es, lastSeq, id, fields, nowMs).value, fields)]) <==>
              if id == "*" then !Exhausted(es, nowMs)
              else LastID(es) != "$" || KeyLess(ParseID("$"), ParseID(id))
  {
    hide ParseID, FormatID, AutoKey, Exhausted;
    AutoKeyIsGreater(es, lastSeq, nowMs);
    OrderedSnoc(es, Entry(Added(es, lastSeq, id, fields, nowMs).value, fields));
  }

  lemma OrderedSnoc(es: seq<Entry>, e: Entry)
    requires Increasing(es) && es != []
    ensures Increasing(es + [e]) <==> KeyLess(ParseID(LastID(es)), ParseID(e.id))
  {
    hide ParseID;
    var all := es + [e];
    assert all[|es| - 1] == es[|es| - 1] && all[|es|] == e;
  }

  /** No entry is named `$`, to which every ID compares as greater. */
  ghost predicate Ordered(es: seq<Entry>) {
    Increasing(es) && forall i :: 0 <= i < |es| ==> es[i].id != "$"
  }

  lemma AddKeepsOrdered(es: seq<Entry>, lastSeq: int, id: string, fields: seq<string>, nowMs: int)
    requires Ordered(es) && id != "$" && !(id == "*" && Exhausted(es, nowMs))
    requires Added(es, lastSeq, id, fields, nowMs).Ok?
    requires MinInt64 <= lastSeq <= MaxInt64 && MinInt64 <= nowMs <= MaxInt64
    ensures Ordered(es + [Entry(Added(es, lastSeq, id, fields, nowMs).value, fields)])
  {
    hide ParseID, FormatID, AutoKey, Exhausted;
    AutoKeyIsGreater(es, lastSeq, nowMs);
    if es != [] { AddedInOrder(es, lastSeq, id, fields, nowMs); }
  }

  /** An entry named `$` lets a smaller ID in after it. */
  lemma DollarBreaksOrder()
    ensures var es := [Entry("$", ["f", "v"])];
            && Added([], 0, "$", ["f", "v"], 0) == Ok("$") && Increasing(es)
            && Added(es, Huge, "1-1", ["f", "v"], 0) == Ok("1-1")
            && !Increasing(es + [Entry("1-1", ["f", "v"])])
  {
    hide ParseID, AutoKey, FormatID;
    var es := [Entry("$", ["f", "v"])];
    ZeroID();
    OneOneID();
    DollarID();
    OrderedSnoc(es, Entry("1-1", ["f", "v"]));
  }

  lemma DollarID()
    ensures ParseID("$") == Key(Huge, Huge)
  {}

  lemma OneOneID()
    ensures ParseID("1-1") == Key(1, 1)
  {
    ParseFormatID(Key(1, 1));
    assert FormatInt(1) == "1" && "1" + "-" + "1" == "1-1";
  }

  class Stream {
    var entries: seq<Entry>
    var lastSeq: int

    ghost predicate Valid() reads this {
      MinInt64 <= lastSeq <= MaxInt64
    }

    constructor ()
      ensures Valid() && entries == [] && lastSeq == 0
    {
      entries, lastSeq := [], 0;
    }

    /** Chooses or checks the ID of the next entry; the sequence counter moves even if nothing is added later. */
    method PrepareID(id: string, nowMs: int) returns (r: Result<string>)
      requires Valid() && MinInt64 <= nowMs <= MaxInt64
      modifies this`lastSeq
      ensures Valid() && !r.WrongFields?
      ensures r == Chosen(entries, old(lastSeq), id, nowMs) && lastSeq == SeqAfter(entries, old(lastSeq), id, nowMs)
    {
      if id == "*" {
        var last := ParseID(LastID(entries));
        var ms := nowMs;
        if ms <= last.ms {
          ms := last.ms;
          lastSeq := last.seq_;
        }
        lastSeq := Wrap(lastSeq + 1);
        return Ok(FormatID(Key(ms, lastSeq)));
      }
      if Compare(id, LastID(entries)) <= 0 { return NotGreater; }
      lastSeq := ParseID(id).seq_;
      return Ok(id);
    }

    method XAdd(id: string, fields: seq<string>, nowMs: int) returns (r: Result<string>)
      requires Valid() && MinInt64 <= nowMs <= MaxInt64
      modifies this
      ensures Valid() && r == Added(old(entries), old(lastSeq), id, fields, nowMs)
      ensures entries == old(entries) + if r.Ok? then [Entry(r.value, fields)] else []
      ensures lastSeq == if BadFields(fields) then old(lastSeq) else SeqAfter(old(entries), old(lastSeq), id, nowMs)
      ensures old(Ordered(entries)) && id != "$" && !(id == "*" && Exhausted(old(entries), nowMs)) ==> Ordered(entries)
    {
      hide ParseID, FormatID, AutoKey, Exhausted, Compare, Increasing;
      if BadFields(fields) {
        assert entries + [] == entries;
        return WrongFields;
      }
      r := PrepareID(id, nowMs);
      if r.Ok? {
        if Ordered(entries) && id != "$" && !(id == "*" && Exhausted(entries, nowMs)) {
          AddKeepsOrdered(entries, old(lastSeq), id, fields, nowMs);
        }
        entries := entries + [Entry(r.value, fields)];
      } else { assert entries + [] == entries; }
    }

    method XAddPrepared(id: string, fields: seq<string>) returns (r: Result<string>)
      requires Valid()
      modifies this
      ensures Valid()
      ensures r == if BadFields(fields) then WrongFields else if Compare(id, LastID(old(entries))) <= 0 then NotGreater
                else Ok(id)
      ensures entries == old(entries) + if r.Ok? then [Entry(id, fields)] else []
      ensures lastSeq == if r.Ok? then ParseID(id).seq_ else old(lastSeq)
    {
      hide Compare, LastID;
      if BadFields(fields) { return WrongFields; }
      if Compare(id, LastID(entries)) <= 0 { return NotGreater; }
      lastSeq := ParseID(id).seq_;
      entries := entries + [Entry(id, fields)];
      return Ok(id);
    }

    /**
     * The server's path: choose the ID (NextStreamID), log it, then add it (XAddPrepared). With
     * well-formed fields it does what XAdd does, unless XAdd would break the order.
     */
    method AddInTwoSteps(id: string, fields: seq<string>, nowMs: int) returns (r: Result<string>)
      requires Valid() && MinInt64 <= nowMs <= MaxInt64
      modifies this
      ensures Valid()
      ensures !BadFields(fields) && !(id == "*" && Exhausted(old(entries), nowMs) && LastID(old(entries)) != "$") ==>
                && r == Added(old(entries), old(lastSeq), id, fields, nowMs)
                && entries == old(entries) + (if r.Ok? then [Entry(r.value, fields)] else [])
                && lastSeq == SeqAfter(old(entries), old(lastSeq), id, nowMs)
      ensures BadFields(fields) || (id == "*" && Exhausted(old(entries), nowMs) && LastID(old(entries)) != "$") ==>
                entries == old(entries) && !r.Ok?
    {
      hide ParseID, FormatID, AutoKey, Exhausted;
      AutoKeyIsGreater(entries, lastSeq, nowMs);
      r := PrepareID(id, nowMs);
      if r.Ok? { r := XAddPrepared(r.value, fields); }
    }

    /** Bisection for the start, then a scan that stops early: the linear filter, cut to `count`. */
    method XRange(start: string, end: string, count: int) returns (out: seq<Entry>)
      requires Increasing(entries)
      ensures out == Take(Ranged(entries, start, end), count)
    {
      hide Compare, ParseID;
      var begin := 0;
      if start != "-" {
        var es := entries;
        var f := (i: nat) => i < |es| && Compare(es[i].id, start) >= 0;
        forall i, j | 0 <= i <= j < |es| && f(i) ensures f(j) { CompareMonotone(es, i, j, start); }
        begin := FirstTrue(|es|, f);
        assert forall i :: 0 <= i < |es| ==> (f(i) <==> Compare(es[i].id, start) >= 0);
      }
      RangedSkips(entries, begin, start, end);
      out := ScanRange(entries[begin..], start, end, count);
    }

    /** XREAD: every entry after the given ID. */
    method XRead(after: string) returns (out: seq<Entry>)
      requires Increasing(entries)
      ensures out == Later(entries, after)
    {
      var start := SearchStart(entries, after);
      LaterIsSuffix(entries, start, after);
      out := entries[start..];
    }
  }

  lemma CompareMonotone(es: seq<Entry>, i: nat, j: nat, id: string)
    requires Increasing(es) && i <= j < |es|
    ensures Compare(es[i].id, id) <= Compare(es[j].id, id)
    ensures i < j && id != "$" && Compare(es[i].id, id) >= 0 ==> Compare(es[j].id, id) > 0
  {
    hide ParseID;
  }

  method SearchStart(es: seq<Entry>, after: string) returns (k: nat)
    requires Increasing(es)
    ensures k <= |es| && (forall i :: 0 <= i < k ==> Compare(es[i].id, after) <= 0)
    ensures forall i :: k <= i < |es| ==> Compare(es[i].id, after) > 0
  {
    hide Compare;
    var f := (i: nat) => i < |es| && Compare(es[i].id, after) > 0;
    forall i, j | 0 <= i <= j < |es| && f(i) ensures f(j) { CompareMonotone(es, i, j, after); }
    k := FirstTrue(|es|, f);
    assert forall i :: 0 <= i < |es| ==> (f(i) <==> Compare(es[i].id, after) > 0);
  }

  method ScanRange(es: seq<Entry>, start: string, end: string, count: int) returns (out: seq<Entry>)
    requires Increasing(es) && forall i :: 0 <= i < |es| ==> start == "-" || Compare(es[i].id, start) >= 0
    ensures out == Take(Ranged(es, start, end), count)
  {
    hide Compare, Increasing;
    out := [];
    var i := 0;
    ghost var all := Ranged(es, start, end);
    assert es[0..] == es;
    while i < |es|
      invariant 0 <= i <= |es| && |out| == i
      invariant all == out + Ranged(es[i..], start, end)
      invariant count > 0 ==> |out| < count
    {
      if end != "+" && Compare(es[i].id, end) > 0 {
        forall k | i <= k < |es| ensures Compare(es[k].id, end) > 0 { CompareMonotone(es, i, k, end); }
        NothingRanged(es[i..], start, end);
        break;
      }
      assert es[i..][1..] == es[i + 1..];
      out := out + [es[i]];
      if count > 0 && |out| >= count { return; }
      i := i + 1;
    }
  }

  lemma {:induction false} RangedSkips(es: seq<Entry>, k: nat, start: string, end: string)
    requires k <= |es| && (k > 0 ==> start != "-") && forall i :: 0 <= i < k ==> Compare(es[i].id, start) < 0
    ensures Ranged(es, start, end) == Ranged(es[k..], start, end)
    decreases k
  {
    hide Compare;
    if k > 0 {
      RangedSkips(es[1..], k - 1, start, end);
      assert es[1..][k - 1..] == es[k..];
    } else { assert es[0..] == es; }
  }

  lemma {:induction false} NothingRanged(es: seq<Entry>, start: string, end: string)
    requires end != "+" && forall i :: 0 <= i < |es| ==> Compare(es[i].id, end) > 0
    ensures Ranged(es, start, end) == []
  {
    hide Compare;
    if es != [] { NothingRanged(es[1..], start, end); }
  }

  lemma {:induction false} LaterIsSuffix(es: seq<Entry>, k: nat, id: string)
    requires k <= |es| && (forall i :: 0 <= i < k ==> Compare(es[i].id, id) <= 0)
    requires forall i :: k <= i < |es| ==> Compare(es[i].id, id) > 0
    ensures Later(es, id) == es[k..]
  {
    hide Compare;
    if es != [] {
      LaterIsSuffix(es[1..], if k > 0 then k - 1 else 0, id);
      if k > 0 { assert es[1..][k - 1..] == es[k..]; } else { assert es == [es[0]] + es[1..][0..]; }
    }
  }

  // ----- IDs as pairs of numbers -----

  /** A part of an ID that is no number counts as zero, and one too large as the nearest. */
  lemma IdParts(a: string, b: string)
    requires '-' !in a
    ensures ParseInt(a).Number? && ParseInt(b).Number? ==> ParseID(a + "-" + b) == Key(ParseInt(a).n, ParseInt(b).n)
    ensures ParseInt(a).Number? ==> ParseID(a) == Key(ParseInt(a).n, 0)
    ensures ParseInt(a).Syntax? && a != "+" && a != "$" ==> ParseID(a) == Key(0, 0)
    ensures ParseInt(a).Number? && ParseInt(b).Syntax? ==> ParseID(a + "-" + b) == Key(ParseInt(a).n, 0)
    ensures ParseInt(a).OutOfRange? ==> ParseID(a) == Key(0x7fff_ffff_ffff_ffff, 0)
    ensures ParseID("-") == Key(0, 0)
    ensures ParseID("+") == ParseID("$") == Key(0x3fff_ffff_ffff_ffff, 0x3fff_ffff_ffff_ffff)
  {
    hide ParseInt;
    var id := a + "-" + b;
    DashAfter(a, b);
    NoDash(a);
    assert id[..|a|] == a && id[|a| + 1..] == b && a[..|a|] == a;
    NoSign(a);
    if ParseInt(a).Number? { assert id != "-" && id != "+" && id != "$" by { NotANumber(); } }
  }

  lemma NotANumber()
    ensures ParseInt("").Syntax? && ParseInt("+").Syntax? && ParseInt("$").Syntax?
  {}

  lemma NoSign(a: string)
    requires '-' !in a
    ensures ParseInt(a).OutOfRange? ==> ParseInt(a).nearest == MaxInt64
    ensures ParseInt(a).OutOfRange? || ParseInt(a).Number? ==> a != "+" && a != "$"
  {
    if a != "" { assert a[0] in a; }
  }

  lemma {:induction false} NoDash(a: string)
    requires '-' !in a
    ensures DashAt(a) == |a|
  {
    if a != "" {
      assert a[0] in a && a == [a[0]] + a[1..];
      NoDash(a[1..]);
    }
  }

  /** IDs are compared number by number; everything is greater than `$`. */
  lemma CompareIs(a: string, b: string)
    ensures b == "$" ==> Compare(a, b) > 0
    ensures b != "$" ==> var k, l := ParseID(a), ParseID(b);
              && (Compare(a, b) < 0 <==> k.ms < l.ms || (k.ms == l.ms && k.seq_ < l.seq_))
              && (Compare(a, b) == 0 <==> k.ms == l.ms && k.seq_ == l.seq_)
  {
    hide ParseID;
  }

  /** XRANGE: the entries from `start` to `end`, both included, in stream order. */
  lemma {:induction false} RangedIs(es: seq<Entry>, start: string, end: string)
    requires Increasing(es)
    ensures Increasing(Ranged(es, start, end))
    ensures forall e :: e in Ranged(es, start, end) <==>
              && e in es
              && (start == "-" || start == "$" || !KeyLess(ParseID(e.id), ParseID(start)))
              && (end == "+" || (end != "$" && !KeyLess(ParseID(end), ParseID(e.id))))
  {
    hide ParseID;
    if es != [] {
      var rest := Ranged(es[1..], start, end);
      RangedIs(es[1..], start, end);
      assert es == [es[0]] + es[1..];
      forall e | e in rest ensures KeyLess(ParseID(es[0].id), ParseID(e.id)) {
        var i :| 0 <= i < |es[1..]| && es[1..][i] == e;
        assert es[i + 1] == e;
      }
    }
  }

  /** XREAD: the entries after the given ID, in stream order. */
  lemma {:induction false} LaterIs(es: seq<Entry>, id: string)
    requires Increasing(es)
    ensures Increasing(Later(es, id))
    ensures forall e :: e in Later(es, id) <==> e in es && (id == "$" || KeyLess(ParseID(id), ParseID(e.id)))
  {
    hide ParseID;
    if es != [] {
      var rest := Later(es[1..], id);
      LaterIs(es[1..], id);
      assert es == [es[0]] + es[1..];
      forall e | e in rest ensures KeyLess(ParseID(es[0].id), ParseID(e.id)) {
        var i :| 0 <= i < |es[1..]| && es[1..][i] == e;
        assert es[i + 1] == e;
      }
    }
  }

  /**
   * The ID of the next entry. Generated: the clock's millisecond with the counter after the last
   * used, or, if the clock has not passed the last entry, its millisecond with the number after it;
   * numbers wrap. Given: accepted as it is, exactly if it is greater than the last one.
   */
  lemma ChosenIs(es: seq<Entry>, lastSeq: int, id: string, nowMs: int)
    requires MinInt64 <= lastSeq <= MaxInt64 && MinInt64 <= nowMs <= MaxInt64
    ensures var last := if es == [] then Key(0, 0) else ParseID(es[|es| - 1].id);
            var r := Chosen(es, lastSeq, id, nowMs);
            if id == "*" then
              && r.Ok? && SeqAfter(es, lastSeq, id, nowMs) == ParseID(r.value).seq_
              && ParseID(r.value).ms == (if nowMs > last.ms then nowMs else last.ms)
              && var n := if nowMs > last.ms then lastSeq else last.seq_;
                 ParseID(r.value).seq_ == if n == 0x7fff_ffff_ffff_ffff then -0x8000_0000_0000_0000 else n + 1
            else if (es != [] && es[|es| - 1].id == "$") || KeyLess(last, ParseID(id))
            then r == Ok(id) && SeqAfter(es, lastSeq, id, nowMs) == ParseID(id).seq_
            else r == NotGreater && SeqAfter(es, lastSeq, id, nowMs) == lastSeq
  {
    hide ParseID, FormatID;
    ZeroID();
    AutoKeyIsGreater(es, lastSeq, nowMs);
  }
}
