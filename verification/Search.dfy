/** Index searches shared by the ordered containers: `sort.Search` and `normalizeRange`. */
module Search {

  /** Go's `sort.Search`: the least index at which a monotone predicate becomes true. */
  method FirstTrue(n: nat, f: nat -> bool) returns (k: nat)
    requires forall i, j :: 0 <= i <= j < n && f(i) ==> f(j)
    ensures k <= n
    ensures forall i :: 0 <= i < k ==> !f(i)
    ensures forall i :: k <= i < n ==> f(i)
  {
    var lo, hi := 0, n;
    while lo < hi
      invariant 0 <= lo <= hi <= n
      invariant forall i :: 0 <= i < lo ==> !f(i)
      invariant forall i :: hi <= i < n ==> f(i)
    {
      var mid := (lo + hi) / 2;
      if !f(mid) { lo := mid + 1; } else { hi := mid; }
    }
    k := lo;
  }

  datatype Bounds = Empty | Span(lo: nat, hi: nat)

  /** A negative index counts from the end. */
  function Resolve(index: int, length: nat): int {
    if index < 0 then length + index else index
  }

  predicate InWindow(i: int, start: int, stop: int, length: nat) {
    Resolve(start, length) <= i <= Resolve(stop, length)
  }

  /** The bounds delimit exactly the valid positions that the caller's window names. */
  function NormalizeRange(start: int, stop: int, length: nat): (r: Bounds)
    ensures r.Span? ==> r.lo <= r.hi < length
    ensures forall i :: 0 <= i < length ==>
              (InWindow(i, start, stop, length) <==> r.Span? && r.lo <= i <= r.hi)
  {
    var a := Resolve(start, length);
    var b := Resolve(stop, length);
    var lo := if a < 0 then 0 else a;
    var hi := if b >= length then length - 1 else b;
    if lo > hi || lo >= length || hi < 0 then
      assert forall i :: 0 <= i < length ==> !InWindow(i, start, stop, length);
      Empty
    else Span(lo, hi)
  }

  /** The elements whose position lies in the window, kept one by one. */
  function Window<T>(s: seq<T>, start: int, stop: int, from: nat := 0): seq<T>
    decreases |s| - from
  {
    if from >= |s| then []
    else (if InWindow(from, start, stop, |s|) then [s[from]] else []) + Window(s, start, stop, from + 1)
  }

  function Slice<T>(s: seq<T>, b: Bounds): seq<T>
    requires b.Span? ==> b.lo <= b.hi < |s|
  {
    if b.Empty? then [] else s[b.lo..b.hi + 1]
  }

  lemma {:induction false} WindowFromIsSlice<T>(s: seq<T>, start: int, stop: int, from: nat)
    requires from <= |s|
    ensures var b := NormalizeRange(start, stop, |s|);
            Window(s, start, stop, from) ==
              if b.Empty? || b.hi < from then []
              else if b.lo < from then s[from..b.hi + 1] else s[b.lo..b.hi + 1]
    decreases |s| - from
  {
    if from < |s| { WindowFromIsSlice(s, start, stop, from + 1); }
  }

  /** Negative indices count from the end, -1 being the last; both ends of a window belong to it. */
  lemma IndicesFromTheEnd(i: nat, start: nat, stop: nat, length: nat)
    requires i < length
    ensures InWindow(i, start, stop, length) <==> start <= i <= stop
    ensures InWindow(i, start, -1, length) <==> start <= i
    ensures start > 0 ==> (InWindow(i, 0 - start, -1, length) <==> length - start <= i)
  {}

  /** The slice cut by `normalizeRange` holds exactly the elements in the window, in order. */
  lemma WindowIsSlice<T>(s: seq<T>, start: int, stop: int)
    ensures Slice(s, NormalizeRange(start, stop, |s|)) == Window(s, start, stop)
  {
    WindowFromIsSlice(s, start, stop, 0);
  }
}
