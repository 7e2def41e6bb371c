/**
 * The multi-master Lamport clock (internal/server/multimaster.go): `Tick` is one atomic add,
 * `Merge` is a load followed by a compare-and-swap that is retried when it loses a race.
 * Threads take these atomic steps in any order; the clock is a 64-bit signed integer.
 */
module LamportClock {
  import opened Common

  type Int64 = n: int | MinInt64 <= n <= MaxInt64

  function AddOne(n: Int64): Int64 {
    if n == MaxInt64 then MinInt64 else n + 1
  }

  /** Where a thread stands inside `Merge`; `first` is what its first load returned. */
  datatype Thread =
    | Idle
    | Loaded(remote: Int64, local: Int64, first: Int64, fails: nat)
    | Retry(remote: Int64, first: Int64, fails: nat)

  datatype Event = Ticked(value: Int64) | Merged(remote: Int64)

  /** `log` records, in real order, every value a `Tick` returned and every `Merge` that returned. */
  datatype State = State(clock: Int64, threads: map<nat, Thread>, log: seq<Event>)

  datatype Step = Tick(t: nat) | Load(t: nat, remote: Int64) | Cas(t: nat)

  function Of(s: State, t: nat): Thread {
    if t in s.threads then s.threads[t] else Idle
  }

  predicate Enabled(s: State, step: Step) {
    match step
    case Tick(t) => Of(s, t).Idle?
    case Load(t, remote) => Of(s, t).Idle? || (Of(s, t).Retry? && Of(s, t).remote == remote)
    case Cas(t) => Of(s, t).Loaded?
  }

  function Next(s: State, step: Step): State
    requires Enabled(s, step)
  {
    match step
    case Tick(_) =>
      var v := AddOne(s.clock);
      s.(clock := v, log := s.log + [Ticked(v)])
    case Load(t, remote) =>
      if remote <= s.clock then
        s.(threads := s.threads[t := Idle], log := s.log + [Merged(remote)])
      else
        var th := Of(s, t);
        var first, fails := if th.Retry? then th.first else s.clock, if th.Retry? then th.fails else 0;
        s.(threads := s.threads[t := Loaded(remote, s.clock, first, fails)])
    case Cas(t) =>
      var th := Of(s, t);
      if s.clock == th.local then
        State(th.remote, s.threads[t := Idle], s.log + [Merged(th.remote)])
      else
        s.(threads := s.threads[t := Retry(th.remote, th.first, th.fails + 1)])
  }

  ghost predicate IsRun(s: State, steps: seq<Step>)
    decreases |steps|
  {
    steps == [] || (Enabled(s, steps[0]) && IsRun(Next(s, steps[0]), steps[1..]))
  }

  function Exec(s: State, steps: seq<Step>): State
    requires IsRun(s, steps)
    decreases |steps|
  {
    if steps == [] then s else Exec(Next(s, steps[0]), steps[1..])
  }

  /** No `Tick` is taken while the clock stands at the largest 64-bit value. */
  ghost predicate NoOverflow(s: State, steps: seq<Step>)
    requires IsRun(s, steps)
    decreases |steps|
  {
    steps != [] ==> !(steps[0].Tick? && s.clock == MaxInt64) && NoOverflow(Next(s, steps[0]), steps[1..])
  }

  const Start := State(0, map[], [])

  function Stamp(e: Event): Int64 { if e.Ticked? then e.value else e.remote }

  ghost predicate LogOrdered(s: State) {
    && (forall i :: 0 <= i < |s.log| ==> Stamp(s.log[i]) <= s.clock)
    && (forall i, j :: 0 <= i < j < |s.log| && s.log[j].Ticked? ==> Stamp(s.log[i]) < s.log[j].value)
  }

  ghost predicate ThreadOk(th: Thread, clock: Int64) {
    match th
    case Idle => true
    case Loaded(remote, local, first, fails) => first + fails <= local <= clock && local < remote
    case Retry(remote, first, fails) => first + fails <= clock && first + fails <= remote
  }

  ghost predicate Inv(s: State) {
    LogOrdered(s) && forall t :: t in s.threads ==> ThreadOk(s.threads[t], s.clock)
  }

  lemma StepKeepsInv(s: State, step: Step)
    requires Inv(s) && Enabled(s, step) && !(step.Tick? && s.clock == MaxInt64)
    ensures Inv(Next(s, step)) && s.clock <= Next(s, step).clock
  {
    var s' := Next(s, step);
    forall i, j | 0 <= i < j < |s'.log| && s'.log[j].Ticked? ensures Stamp(s'.log[i]) < s'.log[j].value {
      assert s'.log[i] == s.log[i];
    }
  }

  lemma {:induction false} RunKeepsInv(s: State, steps: seq<Step>)
    requires Inv(s) && IsRun(s, steps) && NoOverflow(s, steps)
    ensures Inv(Exec(s, steps)) && s.clock <= Exec(s, steps).clock
    decreases |steps|
  {
    if steps != [] {
      StepKeepsInv(s, steps[0]);
      RunKeepsInv(Next(s, steps[0]), steps[1..]);
    }
  }

  /** One step lowers the clock exactly when it is a `Tick` at the largest 64-bit value. */
  lemma ClockDecreasesOnlyOnOverflow(s: State, step: Step)
    requires Inv(s) && Enabled(s, step)
    ensures Next(s, step).clock < s.clock <==> step.Tick? && s.clock == MaxInt64
  {
    if !(step.Tick? && s.clock == MaxInt64) { StepKeepsInv(s, step); }
  }

  /**
   * Over every interleaving: later `Tick`s return larger values than earlier ones (so no two
   * agree), and a `Tick` exceeds the argument of every `Merge` that had returned before it.
   */
  lemma TicksExceedEverythingBefore(steps: seq<Step>, i: nat, j: nat)
    requires IsRun(Start, steps) && NoOverflow(Start, steps)
    requires var log := Exec(Start, steps).log; i < j < |log| && log[j].Ticked?
    ensures var log := Exec(Start, steps).log; Stamp(log[i]) < log[j].value
  {
    RunKeepsInv(Start, steps);
  }

  /** A `Merge` loses its compare-and-swap at most `remote - first` times, however threads interleave. */
  lemma MergeRetriesBounded(steps: seq<Step>, t: nat)
    requires IsRun(Start, steps) && NoOverflow(Start, steps)
    ensures var th := Of(Exec(Start, steps), t);
            !th.Idle? ==> th.fails <= th.remote - th.first
  {
    RunKeepsInv(Start, steps);
    var s := Exec(Start, steps);
    if t in s.threads { assert ThreadOk(s.threads[t], s.clock); }
  }

  /** A merge of the largest value is legal, and the next `Tick` then returns a negative stamp. */
  lemma OverflowExample()
    ensures var steps := [Load(0, MaxInt64), Cas(0), Tick(0)];
            IsRun(Start, steps) && Exec(Start, steps).log == [Merged(MaxInt64), Ticked(MinInt64)]
  {
    var steps := [Load(0, MaxInt64), Cas(0), Tick(0)];
    var s1 := Next(Start, steps[0]);
    var s2 := Next(s1, steps[1]);
    var s3 := Next(s2, steps[2]);
    assert steps[1..] == [Cas(0), Tick(0)] && steps[1..][1..] == [Tick(0)] && [Tick(0)][1..] == [];
    assert IsRun(s3, []) && Exec(s3, []) == s3;
    assert IsRun(s2, [Tick(0)]) && Exec(s2, [Tick(0)]) == s3;
    assert IsRun(s1, steps[1..]) && Exec(s1, steps[1..]) == s3;
  }

  /** A `Tick` adds one, wrapping at the largest 64-bit value, and returns what it stored. */
  lemma TickAddsOne(s: State, t: nat)
    requires Enabled(s, Tick(t))
    ensures var next := Next(s, Tick(t));
            && (s.clock < 0x7fff_ffff_ffff_ffff ==> next.clock == s.clock + 1)
            && (s.clock == 0x7fff_ffff_ffff_ffff ==> next.clock == -0x8000_0000_0000_0000)
            && next.log == s.log + [Ticked(next.clock)] && next.threads == s.threads
  {}

  /** A `Merge` that nobody disturbs leaves the larger of the two clocks, and nothing else moves. */
  lemma MergeTakesLarger(s: State, t: nat, remote: Int64)
    requires Of(s, t).Idle?
    ensures var steps := if remote <= s.clock then [Load(t, remote)] else [Load(t, remote), Cas(t)];
            && IsRun(s, steps) && Exec(s, steps).clock == (if remote <= s.clock then s.clock else remote)
            && Exec(s, steps).log == s.log + [Merged(remote)] && Of(Exec(s, steps), t).Idle?
  {
    var s1 := Next(s, Load(t, remote));
    assert [Load(t, remote)][1..] == [];
    if remote > s.clock {
      var s2 := Next(s1, Cas(t));
      assert [Load(t, remote), Cas(t)][1..] == [Cas(t)] && [Cas(t)][1..] == [];
      assert IsRun(s1, [Cas(t)]) && Exec(s1, [Cas(t)]) == s2;
    }
  }

  /** One that is disturbed between its two steps changes nothing and starts over. */
  lemma DisturbedMergeRetries(s: State, t: nat)
    requires Enabled(s, Cas(t)) && s.clock != Of(s, t).local
    ensures var next := Next(s, Cas(t));
            && next.clock == s.clock && next.log == s.log
            && Enabled(next, Load(t, Of(s, t).remote)) && !Enabled(next, Cas(t))
  {}
}
