/** The ring buffer behind lists (internal/store/deque.go), proved equal to a plain sequence. */
module Deques {
  import opened Common
  import opened Search

  const MinCapacity := 8

  lemma WrapOnce(x: nat, n: nat)
    requires x < 2 * n
    ensures x % n == if x < n then x else x - n
  {
    if n <= x { DivModUnique(x, n, 1, x - n); }
  }

  lemma DivModUnique(x: nat, n: nat, q: int, r: nat)
    requires x == n * q + r && r < n
    ensures x % n == r
  {
    var d := q - x / n;
    assert n * d == x % n - r;
    if d >= 1 { MulAtLeast(n, d); } else if d <= -1 { MulAtLeast(n, -d); }
  }

  lemma MulAtLeast(n: nat, d: int)
    requires d >= 1
    ensures n * d >= n
  {}

  lemma {:induction false} ReverseSnoc(s: seq<string>, x: string)
    ensures Reverse(s + [x]) == [x] + Reverse(s)
  {
    if s != [] {
      assert (s + [x])[1..] == s[1..] + [x];
      ReverseSnoc(s[1..], x);
    }
  }

  /** `after` is `before` with a stale cell opened at `i` and the last cell dropped. */
  ghost predicate Gap(before: seq<string>, after: seq<string>, i: nat) {
    && |after| == |before| && i < |before|
    && (forall k :: 0 <= k < i ==> after[k] == before[k])
    && (forall k :: i < k < |after| ==> after[k] == before[k - 1])
  }

  ghost predicate Blank(cells: seq<string>, from: nat) {
    forall i :: from <= i < |cells| ==> cells[i] == ""
  }

  lemma PushedInFront(before: seq<string>, v: string, n: nat)
    requires n < |before| && Blank(before, n)
    ensures var after := ([before[|before| - 1]] + before[..|before| - 1])[0 := v];
            after[..n + 1] == [v] + before[..n] && Blank(after, n + 1)
  {}

  lemma PoppedInFront(before: seq<string>, n: nat)
    requires 0 < n <= |before| && Blank(before, n)
    ensures var blanked := before[0 := ""];
            var after := blanked[1..] + [blanked[0]];
            after[..n - 1] == before[1..n] && Blank(after, n - 1)
  {}

  lemma ReversePrefix(vals: seq<string>, i: nat, rest: seq<string>)
    requires i < |vals|
    ensures Reverse(vals[..i + 1]) + rest == [vals[i]] + (Reverse(vals[..i]) + rest)
  {
    ReverseSnoc(vals[..i], vals[i]);
    assert vals[..i + 1] == vals[..i] + [vals[i]];
  }

  class Deque {
    var buf: array<string>
    var head: nat
    var count: nat

    /** All cells in logical order: index `i` is the cell `(head + i) % capacity`. */
    ghost var cells: seq<string>

    ghost predicate Linked()
      reads this, buf
    {
      && |cells| == buf.Length
      && (if buf.Length == 0 then head == 0 else head < buf.Length)
      && forall i :: 0 <= i < |cells| ==> cells[i] == buf[if head + i < |cells| then head + i else head + i - |cells|]
    }

    /** Every cell outside the live window is cleared, so popped strings are not retained. */
    ghost predicate Valid()
      reads this, buf
    {
      Linked() && count <= |cells| && Blank(cells, count)
    }

    ghost function Contents(): (s: seq<string>)
      reads this, buf
      requires Valid()
    {
      cells[..count]
    }

    constructor ()
      ensures Valid() && Contents() == [] && fresh(buf)
    {
      buf := new string[0];
      head, count, cells := 0, 0, [];
    }

    /** The cell at logical index `i`. */
    method At(i: nat) returns (v: string)
      requires Linked() && i < |cells|
      ensures v == cells[i]
    {
      WrapOnce(head + i, buf.Length);
      v := buf[(head + i) % buf.Length];
    }

    method Put(i: nat, v: string)
      requires Linked() && i < |cells|
      modifies this`cells, buf
      ensures Linked() && cells == old(cells)[i := v]
    {
      WrapOnce(head + i, buf.Length);
      buf[(head + i) % buf.Length] := v;
      cells := cells[i := v];
    }

    method StepBack()
      requires Linked() && |cells| > 0
      modifies this`head, this`cells
      ensures Linked() && cells == [old(cells)[|cells| - 1]] + old(cells)[..|cells| - 1]
    {
      WrapOnce(head - 1 + buf.Length, buf.Length);
      head := (head - 1 + buf.Length) % buf.Length;
      cells := [cells[|cells| - 1]] + cells[..|cells| - 1];
    }

    method StepForward()
      requires Linked() && |cells| > 0
      modifies this`head, this`cells
      ensures Linked() && cells == old(cells)[1..] + [old(cells)[0]]
    {
      WrapOnce(head + 1, buf.Length);
      head := (head + 1) % buf.Length;
      cells := cells[1..] + [cells[0]];
    }

    method Grow()
      requires Valid() && count == buf.Length
      modifies this
      ensures Valid() && fresh(buf) && count == old(count) < buf.Length
      ensures Contents() == old(Contents())
    {
      var newCap := buf.Length * 2;
      if newCap < MinCapacity { newCap := MinCapacity; }
      var newBuf := new string[newCap](_ => "");
      for i := 0 to count
        invariant unchanged(this) && Valid()
        invariant newBuf[..i] == cells[..i]
        invariant forall k :: i <= k < newCap ==> newBuf[k] == ""
      {
        newBuf[i] := At(i);
      }
      buf, head, cells := newBuf, 0, newBuf[..];
    }

    method EnsureRoom()
      requires Valid()
      modifies this
      ensures Valid() && (buf == old(buf) || fresh(buf))
      ensures count == old(count) < |cells| && Contents() == old(Contents())
    {
      if count == buf.Length { Grow(); }
    }

    /** LPUSH: the last value given ends up at the very front. */
    method PushFront(vals: seq<string>)
      requires Valid()
      modifies this, buf
      ensures Valid() && (buf == old(buf) || fresh(buf))
      ensures Contents() == Reverse(vals) + old(Contents())
    {
      for i := 0 to |vals|
        invariant Valid() && (buf == old(buf) || fresh(buf))
        invariant Contents() == Reverse(vals[..i]) + old(Contents())
      {
        ReversePrefix(vals, i, old(Contents()));
        PushFrontOne(vals[i]);
      }
      assert vals[..|vals|] == vals;
    }

    method PushFrontOne(v: string)
      requires Valid()
      modifies this, buf
      ensures Valid() && (buf == old(buf) || fresh(buf))
      ensures Contents() == [v] + old(Contents())
    {
      EnsureRoom();
      PutFront(v);
    }

    method PutFront(v: string)
      requires Valid() && count < |cells|
      modifies this, buf
      ensures Valid() && buf == old(buf) && Contents() == [v] + old(Contents())
    {
      PushedInFront(cells, v, count);
      StepBack();
      Put(0, v);
      count := count + 1;
    }

    method PushBack(vals: seq<string>)
      requires Valid()
      modifies this, buf
      ensures Valid() && (buf == old(buf) || fresh(buf))
      ensures Contents() == old(Contents()) + vals
    {
      for i := 0 to |vals|
        invariant Valid() && (buf == old(buf) || fresh(buf))
        invariant Contents() == old(Contents()) + vals[..i]
      {
        PushBackOne(vals[i]);
      }
    }

    method PushBackOne(v: string)
      requires Valid()
      modifies this, buf
      ensures Valid() && (buf == old(buf) || fresh(buf))
      ensures Contents() == old(Contents()) + [v]
    {
      EnsureRoom();
      Put(count, v);
      count := count + 1;
    }

    method PopFront() returns (val: string, ok: bool)
      requires Valid()
      modifies this, buf
      ensures Valid() && buf == old(buf)
      ensures ok == (old(Contents()) != [])
      ensures if ok then old(Contents()) == [val] + Contents() else val == "" && Contents() == []
    {
      if count == 0 { return "", false; }
      PoppedInFront(cells, count);
      val := At(0);
      Put(0, "");
      StepForward();
      count := count - 1;
      return val, true;
    }

    method PopBack() returns (val: string, ok: bool)
      requires Valid()
      modifies this, buf
      ensures Valid() && buf == old(buf)
      ensures ok == (old(Contents()) != [])
      ensures if ok then old(Contents()) == Contents() + [val] else val == "" && Contents() == []
    {
      if count == 0 { return "", false; }
      val := At(count - 1);
      Put(count - 1, "");
      count := count - 1;
      return val, true;
    }

    method Set(i: nat, v: string)
      requires Valid() && i < count
      modifies this`cells, buf
      ensures Valid() && Contents() == old(Contents())[i := v]
    {
      Put(i, v);
    }

    /** LRANGE: exactly the elements whose position the window names, negative indices included. */
    method Range(start: int, stop: int) returns (out: seq<string>)
      requires Valid()
      ensures out == Window(Contents(), start, stop)
    {
      WindowIsSlice(Contents(), start, stop);
      var b := NormalizeRange(start, stop, count);
      if b.Empty? { return []; }
      out := [];
      for i := b.lo to b.hi + 1
        invariant out == Contents()[b.lo..i]
      {
        var v := At(i);
        out := out + [v];
      }
    }

    /** Opens a gap at index `i` by moving the shorter side, then fills it. */
    method Insert(i: nat, val: string)
      requires Valid() && i <= count
      modifies this, buf
      ensures Valid() && (buf == old(buf) || fresh(buf))
      ensures Contents() == old(Contents())[..i] + [val] + old(Contents())[i..]
    {
      EnsureRoom();
      PutAt(i, val);
    }

    method PutAt(i: nat, val: string)
      requires Valid() && i <= count < |cells|
      modifies this, buf
      ensures Valid() && buf == old(buf)
      ensures Contents() == old(Contents())[..i] + [val] + old(Contents())[i..]
    {
      OpenGap(i);
      Put(i, val);
      count := count + 1;
    }

    method OpenGap(i: nat)
      requires Valid() && i <= count < |cells|
      modifies this`head, this`cells, buf
      ensures Linked() && |cells| == |old(cells)|
      ensures cells[..i] == old(Contents())[..i] && cells[i + 1..count + 1] == old(Contents())[i..]
      ensures Blank(cells, count + 1)
    {
      if i <= count / 2 { ShiftLeft(i); } else { ShiftRight(i); }
    }

    /** The front `i` elements move one cell to the left, leaving cell `i` stale. */
    method ShiftLeft(i: nat)
      requires Valid() && i <= count < buf.Length
      modifies this`head, this`cells, buf
      ensures Linked() && Gap(old(cells), cells, i)
    {
      StepBack();
      for j := 0 to i
        invariant Linked() && Gap(old(cells), cells, j)
      {
        var v := At(j + 1);
        Put(j, v);
      }
    }

    /** The elements from index `i` on move one cell to the right, leaving cell `i` stale. */
    method ShiftRight(i: nat)
      requires Valid() && i <= count < buf.Length
      modifies this`cells, buf
      ensures Linked() && Gap(old(cells), cells, i)
    {
      for j := count downto i
        invariant Linked() && Gap(old(cells), cells, j)
      {
        var v := At(j);
        Put(j + 1, v);
      }
    }

    /** Any sequence of operations, including growth of a wrapped buffer, acts as on a plain sequence. */
    method Run(ops: seq<Op>)
      requires Valid()
      modifies this, buf
      ensures Valid() && (buf == old(buf) || fresh(buf)) && Contents() == Fold(old(Contents()), ops)
    {
      hide Step, Valid;
      assert ops[0..] == ops;
      for i := 0 to |ops|
        invariant Valid() && (buf == old(buf) || fresh(buf))
        invariant Fold(Contents(), ops[i..]) == Fold(old(Contents()), ops)
      {
        assert ops[i..][1..] == ops[i + 1..];
        Do(ops[i]);
      }
    }

    method Do(op: Op)
      requires Valid()
      modifies this, buf
      ensures Valid() && (buf == old(buf) || fresh(buf)) && Contents() == Step(old(Contents()), op)
    {
      match op {
        case Front(vals) => PushFront(vals);
        case Back(vals) => PushBack(vals);
        case TakeFront => var _, _ := PopFront();
        case TakeBack => var _, _ := PopBack();
        case Replace(i, v) => if i < count { Set(i, v); }
        case InsertAt(i, v) => if i <= count { Insert(i, v); }
      }
    }
  }

  /** Positions outside the list are left alone, as the callers of Set and Insert do. */
  datatype Op =
    | Front(vals: seq<string>) | Back(vals: seq<string>) | TakeFront | TakeBack
    | Replace(i: nat, v: string) | InsertAt(i: nat, v: string)

  function Step(s: seq<string>, op: Op): seq<string> {
    match op
    case Front(vals) => Reverse(vals) + s
    case Back(vals) => s + vals
    case TakeFront => if s == [] then [] else s[1..]
    case TakeBack => if s == [] then [] else s[..|s| - 1]
    case Replace(i, v) => if i < |s| then s[i := v] else s
    case InsertAt(i, v) => if i <= |s| then s[..i] + [v] + s[i..] else s
  }

  function Fold(s: seq<string>, ops: seq<Op>): seq<string>
    decreases |ops|
  {
    if ops == [] then s else Fold(Step(s, ops[0]), ops[1..])
  }
}
