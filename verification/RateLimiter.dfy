/**
 * The sliding-window rate limiter of one key (internal/store/store.go, RateLimit and the sweep in
 * sampleExpired). It keeps only the timestamps still inside the window and may be dropped and
 * recreated; it is compared with a reference limiter that remembers every allowed request.
 * Times are in nanoseconds.
 */
module RateLimits {
  import opened Common

  /** The timestamps after a cutoff, in order. */
  function After(log: seq<int>, cutoff: int): seq<int> {
    if log == [] then []
    else if log[0] > cutoff then [log[0]] + After(log[1..], cutoff)
    else After(log[1..], cutoff)
  }

  /** How many timestamps fall in the half-open window `(lo, hi]`. */
  function Count(log: seq<int>, lo: int, hi: int): nat {
    if log == [] then 0 else (if lo < log[0] <= hi then 1 else 0) + Count(log[1..], lo, hi)
  }

  ghost predicate Ordered(log: seq<int>, upTo: int) {
    && (forall i, j :: 0 <= i < j < |log| ==> log[i] <= log[j])
    && (forall i :: 0 <= i < |log| ==> log[i] <= upTo)
  }

  // ----- the reference: full history, one count -----

  predicate Permits(log: seq<int>, max: int, window: int, now: int) {
    Count(log, now - window, now) < max
  }

  function Reference(log: seq<int>, max: int, window: int, times: seq<int>): (seq<bool>, seq<int>)
    decreases |times|
  {
    if times == [] then ([], log) else
      var ok := Permits(log, max, window, times[0]);
      var rest := Reference(if ok then log + [times[0]] else log, max, window, times[1..]);
      ([ok] + rest.0, rest.1)
  }

  /** No window of the given length holds more than `max` allowed requests. */
  ghost predicate Bounded(log: seq<int>, max: int, window: int) {
    forall lo, hi :: hi - lo <= window ==> Count(log, lo, hi) <= if max < 0 then 0 else max
  }

  lemma {:induction false} CountSnoc(log: seq<int>, t: int, lo: int, hi: int)
    ensures Count(log + [t], lo, hi) == Count(log, lo, hi) + if lo < t <= hi then 1 else 0
  {
    if log != [] {
      assert (log + [t])[1..] == log[1..] + [t];
      CountSnoc(log[1..], t, lo, hi);
    }
  }

  lemma {:induction false} CountWider(log: seq<int>, lo: int, hi: int, lo': int, hi': int)
    requires Ordered(log, hi') && lo' <= lo
    ensures Count(log, lo, hi) <= Count(log, lo', hi')
  {
    if log != [] { CountWider(log[1..], lo, hi, lo', hi'); }
  }

  lemma AllowKeepsBounded(log: seq<int>, max: int, window: int, now: int)
    requires Bounded(log, max, window) && Ordered(log, now) && Permits(log, max, window, now)
    ensures Bounded(log + [now], max, window)
  {
    forall lo, hi | hi - lo <= window ensures Count(log + [now], lo, hi) <= max {
      CountSnoc(log, now, lo, hi);
      if lo < now <= hi { CountWider(log, lo, hi, now - window, now); }
    }
  }

  /** Whatever the request times are, as long as the clock does not run backwards. */
  lemma {:induction false} ReferenceBounded(log: seq<int>, max: int, window: int, times: seq<int>)
    requires Bounded(log, max, window) && Ordered(times, if times == [] then 0 else times[|times| - 1])
    requires times != [] ==> Ordered(log, times[0])
    ensures Bounded(Reference(log, max, window, times).1, max, window)
    decreases |times|
  {
    if times != [] {
      var ok := Permits(log, max, window, times[0]);
      var log' := if ok then log + [times[0]] else log;
      if ok { AllowKeepsBounded(log, max, window, times[0]); }
      ReferenceBounded(log', max, window, times[1..]);
    }
  }

  // ----- the limiter -----

  datatype Outcome =
    | Panic
    | Verdict(allowed: bool, remaining: int, retryAfterMs: int, resetAtMs: int)

  const Milli := 1_000_000

  datatype Event = Request(at: int) | Sweep(at: int)

  function Requests(events: seq<Event>): seq<int> {
    if events == [] then []
    else if events[0].Request? then [events[0].at] + Requests(events[1..])
    else Requests(events[1..])
  }

  /** The oldest allowed request still in the window, or now if there is none. */
  function Oldest(log: seq<int>, cutoff: int, now: int): int {
    var live := After(log, cutoff);
    if live == [] then now else live[0]
  }

  /** The oldest allowed request of the window leaves it that many milliseconds from now, not sooner. */
  ghost predicate RetryAfterIs(log: seq<int>, cutoff: int, now: int, retryAfterMs: int) {
    var live := After(log, cutoff);
    live != [] && cutoff < live[0] && retryAfterMs == (live[0] - cutoff) / Milli
  }

  function Kept(stored: Option<seq<int>>): seq<int> {
    if stored.Some? then stored.value else []
  }

  ghost predicate SameAfter(kept: seq<int>, log: seq<int>, from: int) {
    forall c :: from <= c ==> After(kept, c) == After(log, c)
  }

  function Max(a: int, b: int): int { if a < b then b else a }

  lemma PruneKeeps(kept: seq<int>, log: seq<int>, from: int, cutoff: int, now: int)
    requires SameAfter(kept, log, from) && Ordered(kept, now)
    ensures from <= cutoff ==> After(kept, cutoff) == After(log, cutoff)
    ensures SameAfter(After(kept, cutoff), log, Max(from, cutoff)) && Ordered(After(kept, cutoff), now)
  {
    forall c | Max(from, cutoff) <= c ensures After(After(kept, cutoff), c) == After(log, c) {
      AfterTwice(kept, cutoff, c);
      assert After(kept, c) == After(log, c);
    }
    AfterOrdered(kept, cutoff, now);
  }

  lemma AppendKeepsSame(kept: seq<int>, log: seq<int>, from: int, now: int)
    requires SameAfter(kept, log, from) && Ordered(kept, now)
    ensures SameAfter(kept + [now], log + [now], from) && Ordered(kept + [now], now)
  {
    forall c | from <= c ensures After(kept + [now], c) == After(log + [now], c) {
      AfterSnoc(kept, now, c);
      AfterSnoc(log, now, c);
      assert After(kept, c) == After(log, c);
    }
  }

  /** Forgetting everything is forgetting what lies up to the newest timestamp. */
  lemma IdleIsEmpty(kept: seq<int>, log: seq<int>, from: int, now: int)
    requires SameAfter(kept, log, from) && Ordered(kept, now) && kept != []
    ensures SameAfter([], log, Max(from, kept[|kept| - 1]))
  {
    forall c | Max(from, kept[|kept| - 1]) <= c ensures [] == After(log, c) {
      AfterNone(kept, c);
      assert After(kept, c) == After(log, c);
    }
  }

  lemma {:induction false} AfterNone(log: seq<int>, c: int)
    requires forall i :: 0 <= i < |log| ==> log[i] <= c
    ensures After(log, c) == []
  {
    if log != [] { AfterNone(log[1..], c); }
  }

  lemma {:induction false} AfterOrdered(log: seq<int>, c: int, now: int)
    requires Ordered(log, now)
    ensures Ordered(After(log, c), now)
    ensures log != [] ==> forall i :: 0 <= i < |After(log, c)| ==> log[0] <= After(log, c)[i]
  {
    if log != [] { AfterOrdered(log[1..], c, now); }
  }

  /** Empty, or idle for more than two windows. */
  predicate SweptAway(kept: seq<int>, window: int, now: int) {
    kept == [] || now - kept[|kept| - 1] > window * 2
  }

  class Limiter {
    /** The stored timestamps; `None` when the store holds no limiter for the key. */
    var stored: Option<seq<int>>
    /** The window of the latest call. */
    var window: int
    /** Every request allowed so far, and the time of the latest call. */
    ghost var log: seq<int>
    ghost var clock: int
    /** Requests up to this time may have been forgotten. */
    ghost var floor: int

    /** Beyond what may have been forgotten, the stored timestamps and the full history agree. */
    ghost predicate Valid() reads this {
      Ordered(log, clock) && Ordered(Kept(stored), clock) && SameAfter(Kept(stored), log, floor)
    }

    constructor (start: int, floor: int)
      ensures Valid() && stored == None && log == [] && clock == start && this.floor == floor
    {
      stored, window := None, 0;
      log, clock, this.floor := [], start, floor;
    }

    /**
     * Limit and window come with each call. The request is denied exactly when `max` of the stored
     * timestamps fall in the window; these are all that were allowed in it, unless the window
     * reaches back to what an earlier call or a sweep has forgotten. A limit below one makes the
     * source index an empty slice when nothing is stored.
     */
    method RateLimit(max: int, window: int, now: int) returns (out: Outcome)
      requires Valid() && clock <= now
      modifies this
      ensures Valid() && clock == now && this.window == window && floor == Max(old(floor), now - window)
      ensures log == if out.Verdict? && out.allowed then old(log) + [now] else old(log)
      ensures var live := After(Kept(old(stored)), now - window);
              && (out.Panic? <==> max <= 0 && live == [])
              && (out.Verdict? ==> (out.allowed <==> |live| < max))
              && stored == Some(if out.Verdict? && out.allowed then live + [now] else live)
      ensures old(floor) <= now - window && out.Verdict? ==> Judged(old(log), max, window, now, out)
    {
      var cutoff := now - window;
      var valid := DropExpired(window, now);
      var resetAtMs := (if |valid| > 0 then valid[0] + window else now + window) / Milli;
      if |valid| >= max {
        if |valid| == 0 { return Panic; }
        AfterElements(log, cutoff);
        var retryAfter := valid[0] + window - now;
        if retryAfter < 0 { retryAfter := 0; }
        return Verdict(false, 0, retryAfter / Milli, resetAtMs);
      }
      AppendKeepsSame(valid, log, floor, now);
      stored := Some(valid + [now]);
      log := log + [now];
      return Verdict(true, max - |valid| - 1, 0, resetAtMs);
    }

    /**
     * What is left of the stored timestamps: all that was allowed in the preceding window, if none of it
     * was forgotten.
     */
    method DropExpired(window: int, now: int) returns (valid: seq<int>)
      requires Valid() && clock <= now
      modifies this
      ensures Valid() && clock == now && log == old(log) && stored == Some(valid) && this.window == window
      ensures floor == Max(old(floor), now - window) && valid == After(Kept(old(stored)), now - window)
      ensures old(floor) <= now - window ==>
                valid == After(log, now - window) && |valid| == Count(log, now - window, now)
    {
      var cutoff := now - window;
      this.window := window;
      valid := Prune(Kept(stored), cutoff);
      PruneKeeps(Kept(stored), log, floor, cutoff, now);
      AfterCount(log, cutoff, now);
      stored, floor := Some(valid), Max(floor, cutoff);
      clock := now;
    }

    /** The background sweep drops a limiter that is empty or idle for two windows of its latest call. */
    method Sweep(now: int)
      requires Valid() && clock <= now
      modifies this
      ensures Valid() && clock == now && log == old(log) && window == old(window)
      ensures stored == if SweptAway(old(Kept(stored)), window, now) then None else old(stored)
      ensures floor == old(floor) || (old(stored).Some? && floor <= now && floor < now - window * 2)
    {
      if stored.Some? {
        if |stored.value| == 0 {
          stored := None;
        } else {
          var newest := stored.value[|stored.value| - 1];
          if now - newest > window * 2 {
            IdleIsEmpty(stored.value, log, floor, now);
            floor := Max(floor, newest);
            stored := None;
          }
        }
      }
      clock := now;
    }

    /** A request of such a run. */
    method Ask(max: int, window: int, now: int) returns (ok: bool)
      requires Valid() && max >= 1 && Bounded(log, max, window) && clock <= now && floor <= now - window
      modifies this
      ensures Valid() && Bounded(log, max, window) && clock == now && this.window == window && floor == now - window
      ensures (ok <==> Permits(old(log), max, window, now)) && log == if ok then old(log) + [now] else old(log)
    {
      hide Bounded, SameAfter, After, Count, Oldest, RetryAfterIs, Permits;
      ghost var before := log;
      var out := RateLimit(max, window, now);
      ok := out.allowed;
      if ok { AllowKeepsBounded(before, max, window, now); }
    }

    /**
     * A whole run under one limit and window: the sweeps, wherever they fall, never change a
     * verdict, and no window of that length ever holds more than `max` allowed requests.
     */
    method Serve(max: int, window: int, events: seq<Event>) returns (verdicts: seq<bool>)
      requires Valid() && max >= 1 && Bounded(log, max, window) && (stored.Some? ==> this.window == window)
      requires forall i :: 0 <= i < |events| ==> clock <= events[i].at && floor <= events[i].at - window
      requires forall i, j :: 0 <= i < j < |events| ==> events[i].at <= events[j].at
      modifies this
      ensures Valid() && Bounded(log, max, window)
      ensures (verdicts, log) == Reference(old(log), max, window, Requests(events))
    {
      hide Bounded, SameAfter, Reference, Requests, After, Count, Oldest, RetryAfterIs, SweptAway;
      verdicts := [];
      var i := 0;
      assert events[0..] == events;
      ghost var all := Reference(log, max, window, Requests(events));
      assert [] + all.0 == all.0;
      while i < |events|
        invariant 0 <= i <= |events| && Valid() && Bounded(log, max, window) && (stored.Some? ==> this.window == window)
        invariant forall k :: i <= k < |events| ==> clock <= events[k].at && floor <= events[k].at - window
        invariant Reference(old(log), max, window, Requests(events))
                  == Prepend(verdicts, Reference(log, max, window, Requests(events[i..])))
      {
        ServeStep(verdicts, log, max, window, events, i);
        match events[i] {
          case Request(at) =>
            var ok := Ask(max, window, at);
            verdicts := verdicts + [ok];
          case Sweep(at) =>
            Sweep(at);
        }
        i := i + 1;
      }
      NoMoreRequests(log, max, window, events[i..]);
      assert verdicts + [] == verdicts;
    }
  }

  /** What a verdict says about the requests allowed so far. */
  ghost predicate Judged(log: seq<int>, max: int, window: int, now: int, out: Outcome)
    requires out.Verdict?
  {
    && (out.allowed <==> Permits(log, max, window, now))
    && out.resetAtMs == (Oldest(log, now - window, now) + window) / Milli
    && (out.allowed ==> out.remaining == max - 1 - Count(log, now - window, now))
    && (!out.allowed ==> out.remaining == 0 && RetryAfterIs(log, now - window, now, out.retryAfterMs))
  }

  method Prune(requests: seq<int>, cutoff: int) returns (valid: seq<int>)
    ensures valid == After(requests, cutoff)
  {
    valid := [];
    for i := 0 to |requests|
      invariant valid + After(requests[i..], cutoff) == After(requests, cutoff)
    {
      assert requests[i..][1..] == requests[i + 1..];
      if requests[i] > cutoff { valid := valid + [requests[i]]; }
    }
  }

  function Prepend(done: seq<bool>, rest: (seq<bool>, seq<int>)): (seq<bool>, seq<int>) {
    (done + rest.0, rest.1)
  }

  lemma NoMoreRequests(log: seq<int>, max: int, window: int, events: seq<Event>)
    requires events == []
    ensures Reference(log, max, window, Requests(events)) == ([], log)
  {}

  /** A request takes one step of the reference; a sweep takes none. */
  lemma ServeStep(done: seq<bool>, log: seq<int>, max: int, window: int, events: seq<Event>, i: nat)
    requires i < |events|
    ensures var now, rest := Reference(log, max, window, Requests(events[i..])), Requests(events[i + 1..]);
            if events[i].Request? then
              var ok := Permits(log, max, window, events[i].at);
              var log' := if ok then log + [events[i].at] else log;
              Prepend(done, now) == Prepend(done + [ok], Reference(log', max, window, rest))
            else
              now == Reference(log, max, window, rest)
  {
    assert events[i..][1..] == events[i + 1..];
    if events[i].Request? {
      var rest := Requests(events[i + 1..]);
      assert ([events[i].at] + rest)[1..] == rest;
      var ok := Permits(log, max, window, events[i].at);
      var tail := Reference(if ok then log + [events[i].at] else log, max, window, rest);
      assert done + ([ok] + tail.0) == done + [ok] + tail.0;
    }
  }

  lemma {:induction false} AfterTwice(log: seq<int>, c: int, d: int)
    requires c <= d
    ensures After(After(log, c), d) == After(log, d)
  {
    if log != [] {
      AfterTwice(log[1..], c, d);
      if log[0] > c { assert After(log, c)[1..] == After(log[1..], c); }
    }
  }

  lemma {:induction false} AfterCount(log: seq<int>, cutoff: int, now: int)
    requires Ordered(log, now)
    ensures |After(log, cutoff)| == Count(log, cutoff, now)
  {
    if log != [] { AfterCount(log[1..], cutoff, now); }
  }

  lemma {:induction false} AfterSnoc(log: seq<int>, t: int, cutoff: int)
    ensures After(log + [t], cutoff) == After(log, cutoff) + if t > cutoff then [t] else []
  {
    if log != [] {
      assert (log + [t])[1..] == log[1..] + [t];
      AfterSnoc(log[1..], t, cutoff);
    }
  }

  lemma {:induction false} AfterElements(log: seq<int>, cutoff: int)
    ensures forall i :: 0 <= i < |After(log, cutoff)| ==> After(log, cutoff)[i] > cutoff
  {
    if log != [] { AfterElements(log[1..], cutoff); }
  }

  /** Of an ordered log, exactly the requests after the cutoff are live: a final stretch of it. */
  lemma {:induction false} AfterIs(log: seq<int>, cutoff: int, k: nat)
    requires k <= |log| && (forall i :: 0 <= i < k ==> log[i] <= cutoff)
    requires forall i :: k <= i < |log| ==> log[i] > cutoff
    ensures After(log, cutoff) == log[k..]
  {
    if log != [] {
      AfterIs(log[1..], cutoff, if k > 0 then k - 1 else 0);
      if k > 0 { assert log[1..][k - 1..] == log[k..]; } else { assert log == [log[0]] + log[1..][0..]; }
    }
  }

  /**
   * A verdict in numbers. With the requests from position `k` on in the window: fewer than `max` of
   * them allow another, what remains is counted after it, and the oldest tells when the next place
   * is free, all times in milliseconds.
   */
  lemma VerdictIs(log: seq<int>, max: int, window: int, now: int, out: Outcome, k: nat)
    requires out.Verdict? && Judged(log, max, window, now, out) && Ordered(log, now)
    requires k <= |log| && (forall i :: 0 <= i < k ==> log[i] <= now - window)
    requires forall i :: k <= i < |log| ==> log[i] > now - window
    ensures out.allowed <==> |log| - k < max
    ensures out.allowed ==> out.remaining == max - (|log| - k) - 1
    ensures out.resetAtMs == ((if k < |log| then log[k] else now) + window) / 1_000_000
    ensures !out.allowed ==> out.remaining == 0 && k < |log| && out.retryAfterMs == (log[k] + window - now) / 1_000_000
  {
    AfterIs(log, now - window, k);
    AfterCount(log, now - window, now);
  }
}
