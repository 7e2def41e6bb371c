/**
 * Consumer groups on one stream (internal/store/store.go, XGroupCreate to XAutoClaim, and the
 * plan-then-deliver step of internal/server/server.go). Times are in milliseconds.
 */
module ConsumerGroups {
  import opened Common
  import opened Decimal
  import opened Streams

  datatype Pending = Pending(consumer: string, delivered: int)

  // ----- what a group has handed out -----

  /** The IDs after `start` and not after `last`, in stream order. */
  function Between(es: seq<Entry>, start: string, last: string): seq<string> {
    if es == [] then []
    else if Compare(es[0].id, start) > 0 && Compare(es[0].id, last) <= 0
    then [es[0].id] + Between(es[1..], start, last)
    else Between(es[1..], start, last)
  }

  function Ids(es: seq<Entry>): seq<string> {
    if es == [] then [] else [es[0].id] + Ids(es[1..])
  }

  lemma {:induction false} BetweenAppend(a: seq<Entry>, b: seq<Entry>, start: string, last: string)
    ensures Between(a + b, start, last) == Between(a, start, last) + Between(b, start, last)
  {
    hide Compare;
    if a == [] { assert a + b == b; } else {
      assert (a + b)[1..] == a[1..] + b;
      BetweenAppend(a[1..], b, start, last);
    }
  }

  lemma {:induction false} BetweenNone(es: seq<Entry>, start: string, last: string)
    requires forall i :: 0 <= i < |es| ==> Compare(es[i].id, start) <= 0 || Compare(es[i].id, last) > 0
    ensures Between(es, start, last) == []
  {
    hide Compare;
    if es != [] { BetweenNone(es[1..], start, last); }
  }

  lemma {:induction false} BetweenAll(es: seq<Entry>, start: string, last: string)
    requires forall i :: 0 <= i < |es| ==> Compare(es[i].id, start) > 0 && Compare(es[i].id, last) <= 0
    ensures Between(es, start, last) == Ids(es)
  {
    hide Compare;
    if es != [] { BetweenAll(es[1..], start, last); }
  }

  lemma {:induction false} BetweenSame(es: seq<Entry>, start: string, last: string, last': string)
    requires forall i :: 0 <= i < |es| ==> (Compare(es[i].id, last) <= 0 <==> Compare(es[i].id, last') <= 0)
    ensures Between(es, start, last) == Between(es, start, last')
  {
    hide Compare;
    if es != [] { BetweenSame(es[1..], start, last, last'); }
  }

  /** How comparisons chain, away from the special ID `$`. */
  lemma CompareChain(a: string, b: string, c: string)
    requires b != "$" && c != "$"
    ensures Compare(a, b) <= 0 && Compare(b, c) <= 0 ==> Compare(a, c) <= 0
    ensures Compare(a, b) > 0 && Compare(b, c) >= 0 ==> Compare(a, c) > 0
    ensures Compare(a, b) <= 0 && Compare(b, c) < 0 ==> Compare(a, c) < 0
  {
    hide ParseID;
  }

  lemma CompareFlip(a: string, b: string)
    requires a != "$" && b != "$"
    ensures Compare(a, b) > 0 <==> Compare(b, a) < 0
    ensures Compare(a, a) == 0
  {
    hide ParseID;
  }

  // ----- planning a read -----

  /** Appends until `out` holds `count` entries, but always at least one if there is any. */
  function AppendUpTo(out: seq<Entry>, es: seq<Entry>, count: nat): seq<Entry>
    decreases |es|
  {
    if es == [] then out
    else if |out| + 1 >= count then out + [es[0]]
    else AppendUpTo(out + [es[0]], es[1..], count)
  }

  /** The entries pending for a consumer after the given ID. */
  function Mine(es: seq<Entry>, pending: map<string, Pending>, consumer: string, after: string): seq<Entry> {
    if es == [] then []
    else if es[0].id in pending && pending[es[0].id].consumer == consumer && Compare(es[0].id, after) > 0
    then [es[0]] + Mine(es[1..], pending, consumer, after)
    else Mine(es[1..], pending, consumer, after)
  }

  function Candidates(es: seq<Entry>, lastID: string, pending: map<string, Pending>, consumer: string,
      id: string): seq<Entry> {
    if id == ">" then Later(es, lastID) else Mine(es, pending, consumer, id)
  }

  function Limit(count: int): nat { if count <= 0 then 10 else count }

  /** The reply for a stream that a command names once for each element of `ids`. */
  function Plan(out: seq<Entry>, es: seq<Entry>, lastID: string, pending: map<string, Pending>, consumer: string,
      ids: seq<string>, count: int): seq<Entry>
    decreases |ids|
  {
    if ids == [] then out
    else
      var cs := Candidates(es, lastID, pending, consumer, ids[0]);
      Plan(AppendUpTo(out, cs, Limit(count)), es, lastID, pending, consumer, ids[1..], count)
  }

  /** What is appended when `held` entries are there already. */
  function Portion(es: seq<Entry>, held: nat, count: nat): seq<Entry> {
    Take(es, if held < count then count - held else 1)
  }

  lemma {:induction false} AppendIsPortion(out: seq<Entry>, es: seq<Entry>, count: nat)
    ensures AppendUpTo(out, es, count) == out + Portion(es, |out|, count)
    decreases |es|
  {
    if es != [] {
      if |out| + 1 >= count {
        assert Take(es, 1) == [es[0]];
      } else {
        AppendIsPortion(out + [es[0]], es[1..], count);
        assert Take(es, count - |out|) == [es[0]] + Take(es[1..], count - |out| - 1);
      }
    }
  }

  /** Naming a stream once: the first `count` candidates. */
  lemma PlanOnce(es: seq<Entry>, lastID: string, pending: map<string, Pending>, consumer: string, id: string,
      count: int)
    ensures Plan([], es, lastID, pending, consumer, [id], count)
         == Take(Candidates(es, lastID, pending, consumer, id), Limit(count))
  {
    AppendIsPortion([], Candidates(es, lastID, pending, consumer, id), Limit(count));
    assert [id][1..] == [];
  }

  lemma {:induction false} MineIs(es: seq<Entry>, pending: map<string, Pending>, consumer: string, after: string)
    requires Increasing(es)
    ensures Increasing(Mine(es, pending, consumer, after))
    ensures forall e :: e in Mine(es, pending, consumer, after) <==>
              && e in es && e.id in pending && pending[e.id].consumer == consumer
              && (after == "$" || KeyLess(ParseID(after), ParseID(e.id)))
  {
    hide ParseID;
    if es != [] {
      var rest := Mine(es[1..], pending, consumer, after);
      MineIs(es[1..], pending, consumer, after);
      assert es == [es[0]] + es[1..];
      forall e | e in rest ensures KeyLess(ParseID(es[0].id), ParseID(e.id)) {
        var i :| 0 <= i < |es[1..]| && es[1..][i] == e;
        assert es[i + 1] == e;
      }
    }
  }

  lemma FirstFew(all: seq<Entry>, n: nat)
    requires Increasing(all) && n > 0
    ensures var r := Take(all, n);
            && Increasing(r) && |r| <= n
            && (forall e :: e in r ==> e in all)
            && (forall e :: e in all && e !in r ==>
                  |r| == n && forall x :: x in r ==> KeyLess(ParseID(x.id), ParseID(e.id)))
  {
    hide ParseID;
    var r := Take(all, n);
    if |r| < |all| {
      assert all == r + all[n..];
      forall e, x | e in all && e !in r && x in r ensures KeyLess(ParseID(x.id), ParseID(e.id)) {
        var i :| 0 <= i < |all| && all[i] == e;
        var j :| 0 <= j < |r| && r[j] == x;
        assert all[j] == x;
      }
    }
  }

  /**
   * A history read: the entries pending for this consumer whose IDs are greater than the one given,
   * in stream order and each once; of more than `count` (10 if that is not positive), the first.
   */
  lemma HistoryRead(es: seq<Entry>, lastID: string, pending: map<string, Pending>, consumer: string, id: string,
      count: int)
    requires Increasing(es) && id != ">"
    ensures var r := Plan([], es, lastID, pending, consumer, [id], count);
            var limit := if count <= 0 then 10 else count;
            && Increasing(r) && |r| <= limit
            && (forall e :: e in r ==>
                  && e in es && e.id in pending && pending[e.id].consumer == consumer
                  && (id == "$" || KeyLess(ParseID(id), ParseID(e.id))))
            && (forall e | e in es && e.id in pending && pending[e.id].consumer == consumer && e !in r ::
                  id == "$" || KeyLess(ParseID(id), ParseID(e.id)) ==>
                  |r| == limit && forall x :: x in r ==> KeyLess(ParseID(x.id), ParseID(e.id)))
  {
    hide ParseID, Increasing, Mine, Later, Plan, Take;
    PlanOnce(es, lastID, pending, consumer, id, count);
    MineIs(es, pending, consumer, id);
    FirstFew(Mine(es, pending, consumer, id), Limit(count));
  }

  /** A read with `>`: the entries after the last one handed out, in stream order, at most `count`. */
  lemma NewRead(es: seq<Entry>, lastID: string, pending: map<string, Pending>, consumer: string, count: int)
    requires Increasing(es)
    ensures var r := Plan([], es, lastID, pending, consumer, [">"], count);
            var limit := if count <= 0 then 10 else count;
            && Increasing(r) && |r| <= limit
            && (forall e :: e in r ==> e in es && (lastID == "$" || KeyLess(ParseID(lastID), ParseID(e.id))))
            && (forall e | e in es && e !in r ::
                  lastID == "$" || KeyLess(ParseID(lastID), ParseID(e.id)) ==>
                  |r| == limit && forall x :: x in r ==> KeyLess(ParseID(x.id), ParseID(e.id)))
  {
    hide ParseID, Increasing, Mine, Later, Plan, Take;
    PlanOnce(es, lastID, pending, consumer, ">", count);
    LaterIs(es, lastID);
    FirstFew(Later(es, lastID), Limit(count));
  }

  /** Named once more, the stream adds what is left of `count`, and always at least one entry if there is one. */
  lemma {:induction false} NamedOnceMore(out: seq<Entry>, es: seq<Entry>, lastID: string, pending: map<string, Pending>,
      consumer: string, ids: seq<string>, id: string, count: int)
    ensures var r := Plan(out, es, lastID, pending, consumer, ids, count);
            var all := Plan([], es, lastID, pending, consumer, [id], |es| + 1);
            var limit := if count <= 0 then 10 else count;
            var n := if |r| < limit then limit - |r| else 1;
            Plan(out, es, lastID, pending, consumer, ids + [id], count) == r + if |all| <= n then all else all[..n]
    decreases |ids|
  {
    hide ParseID, Mine, Later, AppendUpTo, Take;
    var cs := Candidates(es, lastID, pending, consumer, id);
    if ids == [] {
      AppendIsPortion(out, cs, Limit(count));
      PlanOnce(es, lastID, pending, consumer, id, |es| + 1);
      NoMoreThanAll(es, lastID, pending, consumer, id);
      TakeIs(cs, |es| + 1);
      TakeIs(cs, if |out| < Limit(count) then Limit(count) - |out| else 1);
      assert [] + [id] == [id] && [id][1..] == [];
    } else {
      var out' := AppendUpTo(out, Candidates(es, lastID, pending, consumer, ids[0]), Limit(count));
      assert (ids + [id])[0] == ids[0] && (ids + [id])[1..] == ids[1..] + [id];
      NamedOnceMore(out', es, lastID, pending, consumer, ids[1..], id, count);
    }
  }

  lemma TakeIs(s: seq<Entry>, n: nat)
    requires n > 0
    ensures Take(s, n) == if |s| <= n then s else s[..n]
  {}

  lemma {:induction false} NoMoreThanAll(es: seq<Entry>, lastID: string, pending: map<string, Pending>,
      consumer: string, id: string)
    ensures |Candidates(es, lastID, pending, consumer, id)| <= |es|
  {
    hide ParseID, Compare;
    if es != [] { NoMoreThanAll(es[1..], lastID, pending, consumer, id); }
  }

  /** How often a command names the stream with `>`. */
  function TimesNew(ids: seq<string>): nat {
    if ids == [] then 0 else (if ids[0] == ">" then 1 else 0) + TimesNew(ids[1..])
  }

  /** What the first `>` contributes; any later one repeats a part of it. */
  function NewIn(out: seq<Entry>, es: seq<Entry>, lastID: string, pending: map<string, Pending>, consumer: string,
      ids: seq<string>, count: int): seq<Entry>
    decreases |ids|
  {
    if ids == [] then []
    else if ids[0] == ">" then Portion(Later(es, lastID), |out|, Limit(count))
    else
      var own := Mine(es, pending, consumer, ids[0]);
      NewIn(AppendUpTo(out, own, Limit(count)), es, lastID, pending, consumer, ids[1..], count)
  }

  lemma PortionShrinks(es: seq<Entry>, held: nat, more: nat, count: nat)
    requires held <= more
    ensures Portion(es, more, count) <= Portion(es, held, count)
  {}

  lemma {:induction false} NewInShrinks(out: seq<Entry>, es: seq<Entry>, lastID: string, pending: map<string, Pending>,
      consumer: string, ids: seq<string>, count: int, held: nat)
    requires held <= |out|
    ensures NewIn(out, es, lastID, pending, consumer, ids, count) <= Portion(Later(es, lastID), held, Limit(count))
    decreases |ids|
  {
    hide Later, Mine, Portion, AppendUpTo;
    if ids != [] {
      if ids[0] == ">" {
        PortionShrinks(Later(es, lastID), held, |out|, Limit(count));
      } else {
        var own := Mine(es, pending, consumer, ids[0]);
        AppendIsPortion(out, own, Limit(count));
        NewInShrinks(AppendUpTo(out, own, Limit(count)), es, lastID, pending, consumer, ids[1..], count, held);
      }
    }
  }

  /** An entry of a history reply: pending for the consumer. */
  ghost predicate Owned(e: Entry, es: seq<Entry>, pending: map<string, Pending>, consumer: string) {
    e in es && e.id in pending && pending[e.id].consumer == consumer
  }

  /** Where the entries of a reply come from: what was there, what is new, and the consumer's own. */
  lemma {:induction false} PlanElements(out: seq<Entry>, es: seq<Entry>, lastID: string, pending: map<string, Pending>,
      consumer: string, ids: seq<string>, count: int)
    ensures forall e :: e in Plan(out, es, lastID, pending, consumer, ids, count) ==>
              e in out || e in NewIn(out, es, lastID, pending, consumer, ids, count) || Owned(e, es, pending, consumer)
    ensures forall e :: e in out || e in NewIn(out, es, lastID, pending, consumer, ids, count) ==>
              e in Plan(out, es, lastID, pending, consumer, ids, count)
    decreases |ids|
  {
    hide Later, Mine, Portion, AppendUpTo;
    if ids != [] {
      var cs := Candidates(es, lastID, pending, consumer, ids[0]);
      var out' := AppendUpTo(out, cs, Limit(count));
      AppendIsPortion(out, cs, Limit(count));
      PlanElements(out', es, lastID, pending, consumer, ids[1..], count);
      if ids[0] == ">" {
        NewInShrinks(out', es, lastID, pending, consumer, ids[1..], count, |out|);
        PrefixMembers(NewIn(out', es, lastID, pending, consumer, ids[1..], count), Portion(cs, |out|, Limit(count)));
      } else {
        PortionMembers(cs, |out|, Limit(count));
        MineBound(es, pending, consumer, ids[0]);
      }
    }
  }

  lemma PrefixMembers(a: seq<Entry>, b: seq<Entry>)
    requires a <= b
    ensures forall e :: e in a ==> e in b
  {
    assert b == a + b[|a|..];
  }

  lemma PortionMembers(es: seq<Entry>, held: nat, count: nat)
    ensures forall e :: e in Portion(es, held, count) ==> e in es
  {}

  ghost predicate AllDifferent(es: seq<Entry>) { forall i, j :: 0 <= i < j < |es| ==> es[i] != es[j] }

  lemma {:induction false} CountedOnce(es: seq<Entry>)
    requires AllDifferent(es)
    ensures forall e :: multiset(es)[e] <= 1
  {
    if es != [] {
      CountedOnce(es[1..]);
      assert es == [es[0]] + es[1..];
      assert es[0] !in es[1..];
    }
  }

  lemma PortionCounts(es: seq<Entry>, held: nat, count: nat)
    requires AllDifferent(es)
    ensures forall e :: multiset(Portion(es, held, count))[e] <= 1
    ensures es != [] ==> multiset(Portion(es, held, count))[es[0]] == 1
  {
    var p := Portion(es, held, count);
    CountedOnce(p);
    if es != [] { assert p[0] == es[0] && es[0] in p; }
  }

  /** Every `>` puts the first new entry in the reply once more, and any other one at most once more. */
  lemma {:induction false} PlanCounts(out: seq<Entry>, es: seq<Entry>, lastID: string, pending: map<string, Pending>,
      consumer: string, ids: seq<string>, count: int)
    requires AllDifferent(Later(es, lastID)) && forall e :: e in Later(es, lastID) ==> e.id !in pending
    ensures var new_, r := Later(es, lastID), Plan(out, es, lastID, pending, consumer, ids, count);
            && (forall e :: e in new_ ==> multiset(r)[e] <= multiset(out)[e] + TimesNew(ids))
            && (new_ != [] ==> multiset(r)[new_[0]] == multiset(out)[new_[0]] + TimesNew(ids))
    decreases |ids|
  {
    hide Later, Mine, Portion, AppendUpTo, AllDifferent;
    if ids != [] {
      var new_, cs := Later(es, lastID), Candidates(es, lastID, pending, consumer, ids[0]);
      var p := Portion(cs, |out|, Limit(count));
      var out' := AppendUpTo(out, cs, Limit(count));
      AppendIsPortion(out, cs, Limit(count));
      assert multiset(out') == multiset(out) + multiset(p);
      PlanCounts(out', es, lastID, pending, consumer, ids[1..], count);
      if ids[0] == ">" {
        PortionCounts(cs, |out|, Limit(count));
      } else {
        PortionMembers(cs, |out|, Limit(count));
        MineBound(es, pending, consumer, ids[0]);
        assert forall e :: e in new_ ==> e !in p;
      }
      if new_ != [] { assert new_[0] in new_; }
    }
  }

  /** No new entry is in the reply twice: exactly when `>` is given at most once, or nothing is new. */
  lemma NewAtMostOnceIff(es: seq<Entry>, lastID: string, pending: map<string, Pending>, consumer: string,
      ids: seq<string>, count: int)
    requires AllDifferent(Later(es, lastID)) && forall e :: e in Later(es, lastID) ==> e.id !in pending
    ensures NewAtMostOnce(es, lastID, Plan([], es, lastID, pending, consumer, ids, count)) <==>
              TimesNew(ids) <= 1 || Later(es, lastID) == []
  {
    hide Later, Plan;
    PlanCounts([], es, lastID, pending, consumer, ids, count);
    if Later(es, lastID) != [] { assert Later(es, lastID)[0] in Later(es, lastID); }
  }

  ghost predicate NewAtMostOnce(es: seq<Entry>, lastID: string, reply: seq<Entry>) {
    forall e :: e in Later(es, lastID) ==> multiset(reply)[e] <= 1
  }

  // ----- delivering -----

  /** The greatest of `last` and the given IDs, as the delivery loop computes it. */
  function Advance(last: string, ids: seq<string>): string
    decreases |ids|
  {
    if ids == [] then last else Advance(if Compare(ids[0], last) > 0 then ids[0] else last, ids[1..])
  }

  /** XGroupDeliver: every ID becomes pending for the consumer. */
  method Deliver(pending: map<string, Pending>, lastID: string, ids: seq<string>, consumer: string, now: int)
      returns (p: map<string, Pending>, last: string)
    ensures p.Keys == pending.Keys + SetOf(ids) && last == Advance(lastID, ids)
    ensures forall id :: id in p ==> p[id] == if id in ids then Pending(consumer, now) else pending[id]
  {
    hide Compare;
    p, last := pending, lastID;
    for i := 0 to |ids|
      invariant p.Keys == pending.Keys + SetOf(ids[..i])
      invariant forall id :: id in p ==> p[id] == if id in ids[..i] then Pending(consumer, now) else pending[id]
      invariant Advance(last, ids[i..]) == Advance(lastID, ids)
    {
      assert ids[..i + 1] == ids[..i] + [ids[i]];
      assert ids[i..][1..] == ids[i + 1..];
      p := p[ids[i] := Pending(consumer, now)];
      if Compare(ids[i], last) > 0 { last := ids[i]; }
    }
    assert ids[..|ids|] == ids;
  }

  lemma {:induction false} AdvanceStays(last: string, ids: seq<string>)
    requires forall i :: 0 <= i < |ids| ==> Compare(ids[i], last) <= 0
    ensures Advance(last, ids) == last
  {
    hide Compare;
    if ids != [] { AdvanceStays(last, ids[1..]); }
  }

  lemma {:induction false} AdvanceToEnd(last: string, es: seq<Entry>)
    requires es != [] && Ordered(es) && Compare(es[0].id, last) > 0
    ensures Advance(last, Ids(es)) == es[|es| - 1].id
    decreases |es|
  {
    hide Compare, ParseID;
    var rest := es[1..];
    assert Ids(es)[1..] == Ids(rest);
    if rest == [] { assert Ids(rest) == []; } else {
      NextIsGreater(es);
      AdvanceToEnd(es[0].id, rest);
    }
  }

  /** Over entries of a stream, in any order and with repetitions, the last ID advances to the greatest. */
  lemma {:induction false} AdvanceTo(cur: string, ids: seq<string>, es: seq<Entry>, k: nat)
    requires Ordered(es) && k < |es| && cur != "$"
    requires forall i :: 0 <= i < |ids| ==> exists j :: 0 <= j <= k && es[j].id == ids[i]
    requires cur == es[k].id || (Compare(cur, es[k].id) < 0 && es[k].id in ids)
    ensures Advance(cur, ids) == es[k].id
    decreases |ids|
  {
    hide Compare, Ordered;
    if ids != [] {
      var j :| 0 <= j <= k && es[j].id == ids[0];
      var top := es[k].id;
      EntryOrder(es, j, k);
      NotDollar(es, j);
      NotDollar(es, k);
      CompareFlip(cur, top);
      CompareFlip(top, top);
      if j == k { CompareFlip(top, cur); } else { CompareFlip(top, ids[0]); }
      AdvanceTo(if Compare(ids[0], cur) > 0 then ids[0] else cur, ids[1..], es, k);
    }
  }

  lemma NotDollar(es: seq<Entry>, i: nat)
    requires Ordered(es) && i < |es|
    ensures es[i].id != "$"
  {}

  lemma NextIsGreater(es: seq<Entry>)
    requires Ordered(es) && |es| > 1
    ensures Compare(es[1].id, es[0].id) > 0
  {
    hide ParseID;
  }

  /** `k` is where the entries after `last` begin. */
  ghost predicate CutAt(es: seq<Entry>, last: string, k: nat) {
    && k <= |es|
    && (forall i :: 0 <= i < k ==> Compare(es[i].id, last) <= 0)
    && (forall i :: k <= i < |es| ==> Compare(es[i].id, last) > 0)
  }

  lemma NewStretch(es: seq<Entry>, start: string, last: string, k: nat, n: nat)
    requires Ordered(es) && start != "$" && last != "$" && Compare(start, last) <= 0
    requires CutAt(es, last, k) && k + n <= |es| && n > 0
    ensures var b, last' := es[k..k + n], es[k + n - 1].id;
            Between(b, start, last) == [] && Between(b, start, last') == Ids(b)
  {
    hide Compare, ParseID, Increasing, Between, Ids;
    var b, last' := es[k..k + n], es[k + n - 1].id;
    CompareFlipOrEqual(start, last);
    forall i | 0 <= i < n
      ensures Compare(b[i].id, start) > 0 && Compare(b[i].id, last) > 0 && Compare(b[i].id, last') <= 0
    {
      CompareChain(es[k + i].id, last, start);
      EntryOrder(es, k + i, k + n - 1);
    }
    BetweenNone(b, start, last);
    BetweenAll(b, start, last');
  }

  lemma RestStretch(es: seq<Entry>, start: string, last: string, k: nat, n: nat)
    requires Ordered(es) && CutAt(es, last, k) && k + n <= |es| && n > 0
    ensures var c, last' := es[k + n..], es[k + n - 1].id;
            Between(c, start, last) == [] == Between(c, start, last')
  {
    hide Compare, ParseID, Increasing, Between;
    var c, last' := es[k + n..], es[k + n - 1].id;
    forall i | 0 <= i < |c| ensures Compare(c[i].id, last) > 0 && Compare(c[i].id, last') > 0 {
      EntryOrder(es, k + n - 1, k + n + i);
    }
    BetweenNone(c, start, last);
    BetweenNone(c, start, last');
  }

  lemma OldStretch(es: seq<Entry>, start: string, last: string, k: nat, n: nat)
    requires Ordered(es) && start != "$" && last != "$" && Compare(start, last) <= 0
    requires CutAt(es, last, k) && k + n <= |es| && n > 0
    ensures var a, last' := es[..k], es[k + n - 1].id;
            Between(a, start, last) == Between(a, start, last') && Compare(start, last') <= 0
  {
    hide Compare, ParseID, Increasing, Between;
    var a, last' := es[..k], es[k + n - 1].id;
    CompareFlip(last', last);
    CompareChain(start, last, last');
    forall i | 0 <= i < k ensures Compare(a[i].id, last) <= 0 && Compare(a[i].id, last') <= 0 {
      CompareChain(es[i].id, last, last');
    }
    BetweenSame(a, start, last, last');
  }

  /** Reading new entries extends what was handed out by exactly those entries, leaving no gap. */
  lemma HandingOutExtends(es: seq<Entry>, start: string, last: string, k: nat, n: nat)
    requires Ordered(es) && start != "$" && last != "$" && Compare(start, last) <= 0
    requires CutAt(es, last, k) && k + n <= |es| && n > 0
    ensures var last' := es[k + n - 1].id;
            Between(es, start, last') == Between(es, start, last) + Ids(es[k..k + n]) && Compare(start, last') <= 0
  {
    hide Compare, Ordered, CutAt, Between, Ids;
    OldStretch(es, start, last, k, n);
    NewStretch(es, start, last, k, n);
    RestStretch(es, start, last, k, n);
    assert es == es[..k] + (es[k..k + n] + es[k + n..]);
    SplitBetween(es[..k], es[k..k + n], es[k + n..], start, last);
    SplitBetween(es[..k], es[k..k + n], es[k + n..], start, es[k + n - 1].id);
  }

  lemma CompareFlipOrEqual(a: string, b: string)
    requires a != "$" && b != "$" && Compare(a, b) <= 0
    ensures Compare(b, a) >= 0
  {
    hide ParseID;
  }

  lemma EntryOrder(es: seq<Entry>, i: nat, j: nat)
    requires Ordered(es) && i <= j < |es|
    ensures Compare(es[i].id, es[j].id) <= 0 && (i < j ==> Compare(es[j].id, es[i].id) > 0)
  {
    hide ParseID;
  }

  lemma SplitBetween(a: seq<Entry>, b: seq<Entry>, c: seq<Entry>, start: string, last: string)
    ensures Between(a + (b + c), start, last)
         == Between(a, start, last) + (Between(b, start, last) + Between(c, start, last))
  {
    hide Compare;
    BetweenAppend(a, b + c, start, last);
    BetweenAppend(b, c, start, last);
  }

  ghost predicate InOrder(ids: seq<string>) {
    forall i, j :: 0 <= i < j < |ids| ==> KeyLess(ParseID(ids[i]), ParseID(ids[j]))
  }

  /** The handed-out IDs are strictly increasing, so none is handed out twice. */
  lemma {:induction false} HandedOutOnceInOrder(es: seq<Entry>, start: string, last: string)
    requires Ordered(es)
    ensures var h := Between(es, start, last);
            && InOrder(h)
            && (forall i :: 0 <= i < |h| ==> exists k :: 0 <= k < |es| && es[k].id == h[i])
            && (forall k :: 0 <= k < |es| && Compare(es[k].id, start) > 0 && Compare(es[k].id, last) <= 0 ==>
                  es[k].id in h)
  {
    hide Compare, ParseID;
    if es != [] {
      HandedOutOnceInOrder(es[1..], start, last);
      var h, t := Between(es, start, last), Between(es[1..], start, last);
      forall i | 0 <= i < |t| ensures exists k :: 0 <= k < |es| && es[k].id == t[i] {
        var k :| 0 <= k < |es| - 1 && es[1..][k].id == t[i];
        assert es[k + 1].id == t[i];
      }
      forall i | 0 <= i < |t| ensures KeyLess(ParseID(es[0].id), ParseID(t[i])) {
        var k :| 0 <= k < |es| - 1 && es[1..][k].id == t[i];
        assert es[k + 1].id == t[i];
      }
      forall k | 0 <= k < |es| && Compare(es[k].id, start) > 0 && Compare(es[k].id, last) <= 0 ensures es[k].id in h {
        if k > 0 { assert es[1..][k - 1] == es[k]; }
      }
    }
  }

  // ----- the group -----

  /** The entry with the given ID, as the claim loops look it up. */
  function Lookup(es: seq<Entry>, id: string): (r: Option<Entry>)
    ensures r.Some? ==> r.value in es && r.value.id == id
    ensures r.None? ==> forall e :: e in es ==> e.id != id
  {
    if es == [] then None else if es[0].id == id then Some(es[0]) else Lookup(es[1..], id)
  }

  predicate Idle(p: Pending, minIdle: int, now: int) { now - p.delivered >= minIdle || minIdle == 0 }

  ghost predicate Accounted(handed: seq<string>, pending: set<string>, acked: set<string>) {
    SetOf(handed) == pending + acked && pending !! acked
  }

  class Group {
    var entries: seq<Entry>
    var lastSeq: int
    var lastID: string
    var pending: map<string, Pending>
    /** Where the group started, every ID handed out by a `>` read so far, and every acknowledged one. */
    ghost const start: string
    ghost var handed: seq<string>
    ghost var acked: set<string>

    /**
     * What was handed out is exactly the entries after the start up to the last ID, in order; each
     * of them is either acknowledged or pending, for the one consumer its map entry names.
     */
    ghost predicate Valid() reads this {
      && Ordered(entries) && MinInt64 <= lastSeq <= MaxInt64
      && start != "$" && lastID != "$" && Compare(start, lastID) <= 0
      && (lastID == start || Compare(lastID, LastID(entries)) <= 0)
      && handed == Between(entries, start, lastID)
      && Accounted(handed, pending.Keys, acked)
    }

    /** XGROUP CREATE: `$` stands for the last ID in the stream. */
    constructor (entries: seq<Entry>, lastSeq: int, id: string)
      requires Ordered(entries) && MinInt64 <= lastSeq <= MaxInt64
      ensures Valid() && this.entries == entries && handed == [] && pending == map[] && acked == {}
      ensures start == lastID == if id == "$" then LastID(entries) else id
    {
      hide Compare, ParseID, Increasing;
      var first := if id == "$" then LastID(entries) else id;
      this.entries, this.lastSeq, this.lastID, this.pending := entries, lastSeq, first, map[];
      this.start, this.handed, this.acked := first, [], {};
      CompareFlip(first, first);
      NothingBetween(entries, first);
    }

    method XAdd(id: string, fields: seq<string>, nowMs: int) returns (r: Result<string>)
      requires Valid() && MinInt64 <= nowMs <= MaxInt64
      modifies this`entries, this`lastSeq
      ensures r == Added(old(entries), old(lastSeq), id, fields, nowMs)
      ensures entries == old(entries) + if r.Ok? then [Entry(r.value, fields)] else []
      ensures id != "$" && !(id == "*" && Exhausted(old(entries), nowMs)) ==> Valid()
    {
      hide Compare, ParseID, FormatID, AutoKey, Increasing, Between, Exhausted;
      r := Added(entries, lastSeq, id, fields, nowMs);
      if r.Ok? {
        if id != "$" && !(id == "*" && Exhausted(entries, nowMs)) {
          AddKeepsOrdered(entries, lastSeq, id, fields, nowMs);
          AddedIsGreater(entries, lastSeq, id, fields, nowMs);
          AddedIsBeyond(entries, Entry(r.value, fields), start, lastID);
        }
        SeqInRange(entries, lastSeq, id, nowMs);
        lastSeq := SeqAfter(entries, lastSeq, id, nowMs);
        entries := entries + [Entry(r.value, fields)];
      }
    }

    /** XReadGroupPlan for this stream, named once for each of `ids`. */
    method PlanRead(consumer: string, ids: seq<string>, count: int) returns (out: seq<Entry>)
      requires Valid()
      ensures out == Plan([], entries, lastID, pending, consumer, ids, count)
    {
      hide Compare, ParseID, Increasing, Between, Later, Mine, AppendUpTo;
      out := [];
      assert ids[0..] == ids;
      for i := 0 to |ids|
        invariant Plan(out, entries, lastID, pending, consumer, ids[i..], count)
               == Plan([], entries, lastID, pending, consumer, ids, count)
      {
        assert ids[i..][1..] == ids[i + 1..];
        if ids[i] == ">" {
          var from := SearchStart(entries, lastID);
          LaterIsSuffix(entries, from, lastID);
          out := AppendEntries(out, entries[from..], Limit(count));
        } else {
          out := AppendMine(out, entries, pending, consumer, ids[i], Limit(count));
        }
      }
    }

    /**
     * XREADGROUP naming this stream once for each of `ids`: plan, then deliver what was planned,
     * with no step in between.
     */
    method XReadGroup(consumer: string, ids: seq<string>, count: int, now: int) returns (out: seq<Entry>)
      requires Valid()
      modifies this`lastID, this`pending, this`handed
      ensures Valid() && out == Plan([], entries, old(lastID), old(pending), consumer, ids, count)
      ensures handed == old(handed) + Ids(NewIn([], entries, old(lastID), old(pending), consumer, ids, count))
      ensures pending.Keys == old(pending).Keys + SetOf(Ids(out))
      ensures forall x :: x in pending ==>
                pending[x] == if x in Ids(out) then Pending(consumer, now) else old(pending)[x]
      ensures TimesNew(ids) == 0 ==> lastID == old(lastID) && pending.Keys == old(pending).Keys && handed == old(handed)
      ensures NewAtMostOnce(entries, old(lastID), out) <==> TimesNew(ids) <= 1 || Later(entries, old(lastID)) == []
    {
      hide Compare, ParseID, Increasing, Between, Later, Mine, Ids, Advance, Plan, NewIn, NewAtMostOnce, Accounted,
        TimesNew;
      ghost var fresh_ := NewIn([], entries, lastID, pending, consumer, ids, count);
      out := PlanRead(consumer, ids, count);
      NewIsUnhanded(entries, start, lastID, handed, pending, acked);
      NewAtMostOnceIff(entries, lastID, pending, consumer, ids, count);
      ReadFacts(entries, start, lastID, handed, pending, acked, consumer, ids, count);
      if out == [] {
        NoIds();
        NothingFresh(fresh_, handed);
        return;
      }
      pending, lastID := Deliver(pending, lastID, IdList(out), consumer, now);
      handed := handed + Ids(fresh_);
    }

    method XAck(ids: seq<string>) returns (n: nat)
      requires Valid()
      modifies this`pending, this`acked
      ensures Valid() && Remaining(old(pending), pending, ids)
      ensures forall x :: x in pending <==> x in old(pending) && x !in ids
      ensures acked == old(acked) + (old(pending).Keys - pending.Keys) && n == |old(pending)| - |pending|
    {
      hide Compare, ParseID, Increasing, Between, Ordered, SetOf, Remaining, Accounted;
      var rest;
      rest, n := Acknowledge(pending, ids);
      Moved(handed, pending.Keys, acked, rest.Keys);
      acked, pending := acked + (pending.Keys - rest.Keys), rest;
    }

    /** Only entries already pending change hands, and they stay pending. */
    method XClaim(consumer: string, minIdle: int, ids: seq<string>, now: int) returns (claimed: seq<Entry>)
      requires Valid()
      modifies this`pending
      ensures Valid() && pending.Keys == old(pending).Keys
      ensures forall x :: x in pending && x !in ids ==> pending[x] == old(pending)[x]
      ensures forall x :: x in pending && x in ids ==>
                pending[x] == if minIdle == 0 || now - old(pending)[x].delivered >= minIdle then Pending(consumer, now)
                  else old(pending)[x]
      ensures forall e :: e in claimed ==>
                e in entries && e.id in ids && e.id in pending && pending[e.id] == Pending(consumer, now)
      ensures forall x | x in pending && x in ids :: Idle(old(pending)[x], minIdle, now) && Lookup(entries, x).Some? ==>
                Lookup(entries, x).value in claimed
    {
      hide Compare, ParseID, Increasing, Between, Ordered, Lookup;
      claimed := [];
      for i := 0 to |ids|
        invariant Reassigned(old(pending), pending, ids[..i], consumer, minIdle, now)
        invariant forall e :: e in claimed ==>
                    e in entries && e.id in ids[..i] && e.id in pending && pending[e.id] == Pending(consumer, now)
        invariant forall x | x in pending && x in ids[..i] ::
                    Idle(old(pending)[x], minIdle, now) && Lookup(entries, x).Some? ==>
                    Lookup(entries, x).value in claimed
      {
        var id := ids[i];
        assert ids[..i + 1] == ids[..i] + [id];
        if id in pending && Idle(pending[id], minIdle, now) {
          pending := pending[id := Pending(consumer, now)];
          var found := Lookup(entries, id);
          if found.Some? { claimed := claimed + [found.value]; }
        }
      }
      assert ids[..|ids|] == ids;
    }

    /**
     * The pending IDs from `startID` on are examined in order until `count` entries are claimed;
     * the returned cursor is the first one not examined. `cands` are all of them, `m` were examined.
     */
    method XAutoClaim(consumer: string, minIdle: int, startID: string, count: int, now: int)
        returns (nextID: string, claimed: seq<Entry>, ghost cands: seq<string>, ghost m: nat)
      requires Valid()
      modifies this`pending
      ensures Valid() && ByKey(cands) && forall x :: x in cands <==> x in old(pending) && Compare(x, startID) >= 0
      ensures m <= |cands| && nextID == if m < |cands| then cands[m] else "0-0"
      ensures Reassigned(old(pending), pending, cands[..m], consumer, minIdle, now)
      ensures pending.Keys == old(pending).Keys && forall x :: x in pending ==>
                pending[x] == if x in cands[..m] && (minIdle == 0 || now - old(pending)[x].delivered >= minIdle)
                  then Pending(consumer, now) else old(pending)[x]
      ensures claimed == ClaimedOf(entries, cands[..m], old(pending), minIdle, now)
      ensures var limit := if count <= 0 then 100 else count;
              |claimed| <= limit && (m < |cands| ==> |claimed| == limit)
    {
      hide Compare, ParseID, Increasing, Between, Ordered, Lookup, ByKey;
      var limit := if count <= 0 then 100 else count;
      var ids := SortedFrom(pending.Keys, startID);
      cands := ids;
      claimed, nextID := [], "0-0";
      for i := 0 to |ids|
        invariant Reassigned(old(pending), pending, ids[..i], consumer, minIdle, now)
        invariant claimed == ClaimedOf(entries, ids[..i], old(pending), minIdle, now) && |claimed| <= limit
      {
        if |claimed| >= limit {
          nextID, m := ids[i], i;
          return;
        }
        var id := ids[i];
        assert ids[..i + 1] == ids[..i] + [id];
        ExaminedOnce(ids, i, startID);
        if Idle(pending[id], minIdle, now) {
          pending := pending[id := Pending(consumer, now)];
          var found := Lookup(entries, id);
          if found.Some? { claimed := claimed + [found.value]; }
        }
      }
      m := |ids|;
      assert ids[..|ids|] == ids;
    }

    /**
     * A whole run: what was handed out only grows, never repeats an entry, and is in ID order.
     * Additions that would break the order of the stream are not made.
     */
    method Serve(acts: seq<Act>)
      requires Valid() && forall i :: 0 <= i < |acts| && acts[i].Add? ==> MinInt64 <= acts[i].nowMs <= MaxInt64
      modifies this`entries, this`lastSeq, this`lastID, this`pending, this`handed, this`acked
      ensures Valid() && old(handed) <= handed && InOrder(handed)
    {
      hide Compare, ParseID, Increasing, Between, Ids, Accounted, Later, Mine, Ordered, KeyLess, InOrder;
      for i := 0 to |acts|
        invariant Valid() && old(handed) <= handed
      {
        Do(acts[i]);
      }
      HandedOutOnceInOrder(entries, start, lastID);
    }

    method Do(act: Act)
      requires Valid() && (act.Add? ==> MinInt64 <= act.nowMs <= MaxInt64)
      modifies this`entries, this`lastSeq, this`lastID, this`pending, this`handed, this`acked
      ensures Valid() && old(handed) <= handed
    {
      hide Compare, ParseID, Increasing, Between, Ids, Accounted, Later, Mine, Ordered, KeyLess, Exhausted;
      match act {
        case Add(id, fields, nowMs) =>
          if id != "$" && !(id == "*" && Exhausted(entries, nowMs)) { var _ := XAdd(id, fields, nowMs); }
        case Read(consumer, ids, count, now) => var _ := XReadGroup(consumer, ids, count, now);
        case Ack(ids) => var _ := XAck(ids);
        case Claim(consumer, minIdle, ids, now) => var _ := XClaim(consumer, minIdle, ids, now);
        case AutoClaim(consumer, minIdle, startID, count, now) =>
          var _, _, _, _ := XAutoClaim(consumer, minIdle, startID, count, now);
      }
    }
  }

  datatype Creation = Created | WrongType | NoSuchStream | GroupExists

  /** XGROUP CREATE: `stream` is what the key holds as a stream, `taken` whether the group is there already. */
  method XGroupCreate(stream: Option<seq<Entry>>, otherType: bool, taken: bool, lastSeq: int, id: string,
      mkstream: bool)
      returns (why: Creation, g: Group?)
    requires stream.Some? ==> Ordered(stream.value)
    requires MinInt64 <= lastSeq <= MaxInt64
    ensures why == if otherType then WrongType else if stream.None? && !mkstream then NoSuchStream
                   else if taken then GroupExists else Created
    ensures why.Created? <==> g != null
    ensures g != null ==>
              fresh(g) && g.Valid() && g.entries == (if stream.Some? then stream.value else []) && g.handed == []
    ensures g != null ==> g.lastID == if id != "$" then id else if stream.Some? then LastID(stream.value) else "0-0"
  {
    hide Compare, ParseID, Increasing, Between, Ordered, Accounted;
    if otherType { return WrongType, null; }
    if stream.None? && !mkstream { return NoSuchStream, null; }
    if taken { return GroupExists, null; }
    OrderedNothing();
    why := Created;
    g := new Group(if stream.Some? then stream.value else [], lastSeq, id);
  }

  lemma OrderedNothing()
    ensures Ordered([])
  {}

  datatype Act =
    | Add(id: string, fields: seq<string>, nowMs: int)
    | Read(consumer: string, ids: seq<string>, count: int, now: int)
    | Ack(ids: seq<string>)
    | Claim(consumer: string, minIdle: int, ids: seq<string>, now: int)
    | AutoClaim(consumer: string, minIdle: int, startID: string, count: int, now: int)

  lemma ExaminedOnce(ids: seq<string>, i: nat, startID: string)
    requires ByKey(ids) && i < |ids|
    ensures ids[i] in ids && ids[i] !in ids[..i]
  {
    hide ParseID, KeyLess;
  }

  lemma OneLess(p: map<string, Pending>, id: string)
    requires id in p
    ensures |p - {id}| == |p| - 1
  {
    assert p.Keys == (p - {id}).Keys + {id};
    assert |p| == |p.Keys| && |p - {id}| == |(p - {id}).Keys|;
  }

  lemma Moved(handed: seq<string>, pending: set<string>, acked: set<string>, rest: set<string>)
    requires Accounted(handed, pending, acked) && rest <= pending
    ensures Accounted(handed, rest, acked + (pending - rest))
  {
    hide SetOf;
  }

  method Acknowledge(pending: map<string, Pending>, ids: seq<string>) returns (p: map<string, Pending>, n: nat)
    ensures Remaining(pending, p, ids) && p.Keys <= pending.Keys && n == |pending| - |p|
  {
    p, n := pending, 0;
    for i := 0 to |ids|
      invariant Remaining(pending, p, ids[..i]) && n == |pending| - |p|
    {
      assert ids[..i + 1] == ids[..i] + [ids[i]];
      if ids[i] in p {
        OneLess(p, ids[i]);
        p := p - {ids[i]};
        n := n + 1;
      }
    }
    assert ids[..|ids|] == ids;
  }

  /** What is left of a map when the given keys are taken out. */
  ghost predicate Remaining(before: map<string, Pending>, after: map<string, Pending>, ids: seq<string>) {
    && (forall x :: x in after <==> x in before && x !in ids)
    && (forall x :: x in after ==> after[x] == before[x])
  }

  ghost predicate ByKey(s: seq<string>) {
    forall i, j :: 0 <= i < j < |s| ==> s[i] != s[j] && !KeyLess(ParseID(s[j]), ParseID(s[i]))
  }

  /** The map keys from `startID` on, collected in any order and then sorted. */
  method SortedFrom(keys: set<string>, startID: string) returns (r: seq<string>)
    ensures ByKey(r) && forall x :: x in r <==> x in keys && Compare(x, startID) >= 0
  {
    hide Compare, ParseID;
    r := [];
    var todo := keys;
    while todo != {}
      invariant todo <= keys && ByKey(r)
      invariant forall x :: x in r <==> x in keys - todo && Compare(x, startID) >= 0
      decreases |todo|
    {
      var x :| x in todo;
      todo := todo - {x};
      if Compare(x, startID) >= 0 { r := InsertByKey(r, x); }
    }
  }

  method InsertByKey(s: seq<string>, x: string) returns (r: seq<string>)
    requires ByKey(s) && x !in s
    ensures ByKey(r) && forall y :: y in r <==> y == x || y in s
  {
    hide ParseID;
    var k := 0;
    while k < |s| && !KeyLess(ParseID(x), ParseID(s[k]))
      invariant 0 <= k <= |s| && forall j :: 0 <= j < k ==> !KeyLess(ParseID(x), ParseID(s[j]))
    {
      k := k + 1;
    }
    r := s[..k] + [x] + s[k..];
    InsertedByKey(s, k, x);
    assert s == s[..k] + s[k..];
  }

  lemma InsertedByKey(s: seq<string>, k: nat, x: string)
    requires ByKey(s) && x !in s && k <= |s|
    requires forall j :: 0 <= j < k ==> !KeyLess(ParseID(x), ParseID(s[j]))
    requires k < |s| ==> KeyLess(ParseID(x), ParseID(s[k]))
    ensures ByKey(s[..k] + [x] + s[k..])
  {
    hide ParseID;
    var r := s[..k] + [x] + s[k..];
    forall i, j | 0 <= i < j < |r| ensures r[i] != r[j] && !KeyLess(ParseID(r[j]), ParseID(r[i])) {
      var i', j' := if i < k then i else i - 1, if j < k then j else j - 1;
      if i != k { assert r[i] == s[i']; }
      if j != k { assert r[j] == s[j']; }
    }
  }

  /** The idle ones among the examined IDs, as stream entries. */
  function ClaimedOf(es: seq<Entry>, ids: seq<string>, pending: map<string, Pending>, minIdle: int,
      now: int): seq<Entry> {
    if ids == [] then [] else
      var front, id := ids[..|ids| - 1], ids[|ids| - 1];
      var rest := ClaimedOf(es, front, pending, minIdle, now);
      if id in pending && Idle(pending[id], minIdle, now) && Lookup(es, id).Some? then rest + [Lookup(es, id).value]
      else rest
  }

  lemma OneWay(es: seq<Entry>, i: nat, j: nat)
    requires Increasing(es) && i < |es| && j < |es| && es[i].id == es[j].id
    ensures i == j
  {
    hide ParseID;
    assert !KeyLess(ParseID(es[i].id), ParseID(es[j].id)) && !KeyLess(ParseID(es[j].id), ParseID(es[i].id));
  }

  lemma LookupFinds(es: seq<Entry>, e: Entry)
    requires Increasing(es)
    ensures Lookup(es, e.id) == Some(e) <==> e in es
  {
    hide ParseID;
    var r := Lookup(es, e.id);
    if e in es {
      assert r.Some? && r.value in es && r.value.id == e.id;
      var i :| 0 <= i < |es| && es[i] == e;
      var j :| 0 <= j < |es| && es[j] == r.value;
      OneWay(es, i, j);
    }
  }

  /** What a claim returns: the entries named whose pending record is old enough, in the order of the IDs. */
  lemma {:induction false} ClaimedIs(es: seq<Entry>, ids: seq<string>, pending: map<string, Pending>, minIdle: int,
      now: int)
    requires Increasing(es)
    ensures var r := ClaimedOf(es, ids, pending, minIdle, now);
            && (forall e :: e in r <==>
                  && e in es && e.id in ids && e.id in pending
                  && (minIdle == 0 || now - pending[e.id].delivered >= minIdle))
            && (ByKey(ids) ==> forall i, j :: 0 <= i < j < |r| ==> !KeyLess(ParseID(r[j].id), ParseID(r[i].id)))
  {
    hide ParseID, KeyLess, Increasing, Lookup;
    if ids != [] {
      var front, id := ids[..|ids| - 1], ids[|ids| - 1];
      ClaimedIs(es, front, pending, minIdle, now);
      forall e: Entry ensures e.id in ids <==> e.id in front || e.id == id { assert ids == front + [id]; }
      forall e: Entry ensures Lookup(es, e.id) == Some(e) <==> e in es { LookupFinds(es, e); }
    }
  }

  ghost predicate Reassigned(before: map<string, Pending>, after: map<string, Pending>, ids: seq<string>,
      consumer: string, minIdle: int, now: int) {
    && after.Keys == before.Keys
    && forall x :: x in before ==>
         after[x] == if x in ids && Idle(before[x], minIdle, now) then Pending(consumer, now) else before[x]
  }

  lemma NoIds()
    ensures Ids([]) == [] && SetOf([]) == {}
  {}

  function IdList(es: seq<Entry>): (r: seq<string>)
    ensures r == Ids(es)
  {
    if es == [] then [] else [es[0].id] + IdList(es[1..])
  }

  lemma NothingBetween(es: seq<Entry>, id: string)
    ensures Between(es, id, id) == []
  {
    hide Compare;
    BetweenNone(es, id, id);
  }

  lemma SeqInRange(es: seq<Entry>, lastSeq: int, id: string, nowMs: int)
    requires MinInt64 <= lastSeq <= MaxInt64
    ensures MinInt64 <= SeqAfter(es, lastSeq, id, nowMs) <= MaxInt64
  {
    hide ParseID, FormatID, Compare;
  }

  lemma AddedIsGreater(es: seq<Entry>, lastSeq: int, id: string, fields: seq<string>, nowMs: int)
    requires Ordered(es) && id != "$" && !(id == "*" && Exhausted(es, nowMs))
    requires Added(es, lastSeq, id, fields, nowMs).Ok?
    requires MinInt64 <= lastSeq <= MaxInt64 && MinInt64 <= nowMs <= MaxInt64
    ensures var x := Added(es, lastSeq, id, fields, nowMs).value;
            x != "$" && Compare(x, LastID(es)) > 0 && LastID(es) != "$"
  {
    hide ParseID, FormatID, AutoKey, Exhausted;
    AutoKeyIsGreater(es, lastSeq, nowMs);
  }

  /** A new entry is beyond everything handed out. */
  lemma AddedIsBeyond(es: seq<Entry>, e: Entry, start: string, lastID: string)
    requires Ordered(es) && start != "$" && lastID != "$" && e.id != "$" && Compare(e.id, LastID(es)) > 0
    requires LastID(es) != "$"
    requires lastID == start || Compare(lastID, LastID(es)) <= 0
    ensures Between(es + [e], start, lastID) == Between(es, start, lastID)
    ensures lastID == start || Compare(lastID, e.id) <= 0
  {
    hide Compare, ParseID, Increasing, LastID;
    BetweenAppend(es, [e], start, lastID);
    if lastID != start {
      CompareFlip(e.id, LastID(es));
      CompareChain(lastID, LastID(es), e.id);
      CompareFlip(e.id, lastID);
    }
    BetweenNone([e], start, lastID);
  }

  lemma {:induction false} HandedBound(es: seq<Entry>, start: string, last: string)
    ensures forall x :: x in Between(es, start, last) ==> Compare(x, last) <= 0
  {
    hide Compare;
    if es != [] { HandedBound(es[1..], start, last); }
  }

  lemma {:induction false} IdsOf(es: seq<Entry>)
    ensures |Ids(es)| == |es| && forall i :: 0 <= i < |es| ==> Ids(es)[i] == es[i].id
  {
    if es != [] { IdsOf(es[1..]); }
  }

  /** What a `>` read takes is a stretch right after the last ID. */
  lemma NewEntriesFacts(es: seq<Entry>, start: string, last: string, count: nat, out: seq<Entry>)
    requires Ordered(es) && start != "$" && last != "$" && Compare(start, last) <= 0
    requires count > 0 && out == Take(Later(es, last), count) && out != []
    ensures var last' := Advance(last, Ids(out));
            && Between(es, start, last') == Between(es, start, last) + Ids(out)
            && last' != "$" && Compare(start, last') <= 0 && Compare(last', LastID(es)) <= 0
  {
    hide Compare, ParseID, Between, Ids, Advance, Increasing, Later;
    var k := FindCut(es, last);
    LaterIsSuffix(es, k, last);
    var n := |out|;
    assert out == es[k..k + n];
    OrderedSlice(es, k, k + n);
    HandingOutExtends(es, start, last, k, n);
    AdvanceToEnd(last, out);
    EntryOrder(es, k + n - 1, |es| - 1);
  }

  lemma OrderedSlice(es: seq<Entry>, lo: nat, hi: nat)
    requires Ordered(es) && lo <= hi <= |es|
    ensures Ordered(es[lo..hi])
  {
    hide ParseID;
  }

  lemma {:induction false} FindCut(es: seq<Entry>, last: string) returns (k: nat)
    requires Ordered(es)
    ensures CutAt(es, last, k)
    decreases |es|
  {
    hide Compare, ParseID;
    if es == [] { return 0; }
    var front := es[..|es| - 1];
    k := FindCut(front, last);
    if k < |front| { CompareMonotone(es, k, |es| - 1, last); }
    else if Compare(es[|es| - 1].id, last) <= 0 { k := k + 1; }
    assert forall i :: 0 <= i < |front| ==> front[i] == es[i];
  }

  lemma NewIdsAreFresh(es: seq<Entry>, start: string, last: string, out: seq<Entry>)
    requires exists count: nat :: out == Take(Later(es, last), count)
    ensures SetOf(Ids(out)) !! SetOf(Between(es, start, last))
  {
    hide Compare, Between, Later, Ids;
    HandedBound(es, start, last);
    LaterBound(es, last);
    IdsOf(out);
    forall x | x in Ids(out) ensures Compare(x, last) > 0 {
      var i :| 0 <= i < |Ids(out)| && Ids(out)[i] == x;
      assert out[i] in Later(es, last);
    }
  }

  /** A group's new entries are all different, and none of them is pending. */
  lemma NewIsUnhanded(es: seq<Entry>, start: string, last: string, handed: seq<string>, pending: map<string, Pending>,
      acked: set<string>)
    requires Ordered(es) && handed == Between(es, start, last) && Accounted(handed, pending.Keys, acked)
    ensures AllDifferent(Later(es, last)) && forall e :: e in Later(es, last) ==> e.id !in pending
  {
    hide Compare, ParseID, Between, Later;
    var k := FindCut(es, last);
    LaterIsSuffix(es, k, last);
    HandedBound(es, start, last);
    LaterBound(es, last);
    assert forall x :: x in pending ==> x in handed;
  }

  ghost predicate ReadDone(es: seq<Entry>, start: string, last: string, handed: seq<string>, pending: set<string>,
      acked: set<string>) {
    && handed == Between(es, start, last) && Accounted(handed, pending, acked)
    && last != "$" && Compare(start, last) <= 0 && (last == start || Compare(last, LastID(es)) <= 0)
  }

  /** What delivering a planned reply does to the books. */
  lemma ReadFacts(es: seq<Entry>, start: string, last: string, handed: seq<string>, pending: map<string, Pending>,
      acked: set<string>, consumer: string, ids: seq<string>, count: int)
    requires Ordered(es) && handed == Between(es, start, last) && Accounted(handed, pending.Keys, acked)
    requires start != "$" && last != "$" && Compare(start, last) <= 0
    requires last == start || Compare(last, LastID(es)) <= 0
    ensures var out := Plan([], es, last, pending, consumer, ids, count);
            var fresh_ := NewIn([], es, last, pending, consumer, ids, count);
            && ReadDone(es, start, Advance(last, Ids(out)), handed + Ids(fresh_), pending.Keys + SetOf(Ids(out)), acked)
            && (out == [] ==> fresh_ == [])
            && (TimesNew(ids) == 0 ==>
                  fresh_ == [] && Advance(last, Ids(out)) == last && SetOf(Ids(out)) <= pending.Keys)
  {
    hide Compare, ParseID, Increasing, Between, Later, Mine, Ids, Advance, Plan, NewIn, Accounted, TimesNew;
    var out := Plan([], es, last, pending, consumer, ids, count);
    var fresh_ := NewIn([], es, last, pending, consumer, ids, count);
    PlanElements([], es, last, pending, consumer, ids, count);
    NewInIsTake([], es, last, pending, consumer, ids, count);
    if fresh_ != [] { assert fresh_[0] in fresh_; }
    if fresh_ == [] {
      OnlyOwned(es, start, last, handed, pending, acked, consumer, out);
      NoIds();
      assert handed + [] == handed;
    } else {
      SomeNew(es, start, last, handed, pending, acked, consumer, out, fresh_);
    }
  }

  lemma OnlyOwned(es: seq<Entry>, start: string, last: string, handed: seq<string>, pending: map<string, Pending>,
      acked: set<string>, consumer: string, out: seq<Entry>)
    requires handed == Between(es, start, last) && Accounted(handed, pending.Keys, acked)
    requires forall e :: e in out ==> Owned(e, es, pending, consumer)
    ensures Advance(last, Ids(out)) == last && pending.Keys + SetOf(Ids(out)) == pending.Keys
  {
    hide Compare, Between, Ids, Advance;
    IdsOf(out);
    HandedBound(es, start, last);
    var ids := Ids(out);
    forall i | 0 <= i < |ids| ensures ids[i] in pending && Compare(ids[i], last) <= 0 {
      assert out[i] in out;
      assert ids[i] in SetOf(handed);
    }
    AdvanceStays(last, ids);
  }

  lemma SomeNew(es: seq<Entry>, start: string, last: string, handed: seq<string>, pending: map<string, Pending>,
      acked: set<string>, consumer: string, out: seq<Entry>, fresh_: seq<Entry>)
    requires Ordered(es) && handed == Between(es, start, last) && Accounted(handed, pending.Keys, acked)
    requires start != "$" && last != "$" && Compare(start, last) <= 0
    requires fresh_ != [] && exists n: nat :: n > 0 && fresh_ == Take(Later(es, last), n)
    requires forall e :: e in out ==> e in fresh_ || Owned(e, es, pending, consumer)
    requires forall e :: e in fresh_ ==> e in out
    ensures ReadDone(es, start, Advance(last, Ids(out)), handed + Ids(fresh_), pending.Keys + SetOf(Ids(out)), acked)
  {
    hide Compare, ParseID, Increasing, Between, Later, Ids, Advance, Accounted, SetOf;
    var n: nat :| n > 0 && fresh_ == Take(Later(es, last), n);
    NewEntriesFacts(es, start, last, n, fresh_);
    NewIdsAreFresh(es, start, last, fresh_);
    SameAdvance(es, start, last, handed, pending, acked, consumer, out, fresh_, n);
    AccountedMore(handed, pending, acked, es, consumer, out, fresh_);
  }

  /** However often and in whatever order entries are repeated, the last ID moves to the last new one. */
  lemma SameAdvance(es: seq<Entry>, start: string, last: string, handed: seq<string>, pending: map<string, Pending>,
      acked: set<string>, consumer: string, out: seq<Entry>, fresh_: seq<Entry>, n: nat)
    requires Ordered(es) && handed == Between(es, start, last) && Accounted(handed, pending.Keys, acked) && last != "$"
    requires fresh_ != [] && n > 0 && fresh_ == Take(Later(es, last), n)
    requires forall e :: e in out ==> e in fresh_ || Owned(e, es, pending, consumer)
    requires forall e :: e in fresh_ ==> e in out
    ensures Advance(last, Ids(out)) == Advance(last, Ids(fresh_))
  {
    hide Compare, ParseID, Increasing, Between, Later, Ids, Advance;
    var k := FindCut(es, last);
    LaterIsSuffix(es, k, last);
    var m := k + |fresh_| - 1;
    assert fresh_ == es[k..m + 1];
    IdsOf(out);
    IdsOf(fresh_);
    HandedBound(es, start, last);
    forall i | 0 <= i < |out| ensures exists j :: 0 <= j <= m && es[j].id == Ids(out)[i] {
      var e := out[i];
      assert e in out;
      if e in fresh_ {
        var j :| 0 <= j < |fresh_| && fresh_[j] == e;
        assert es[k + j] == e;
      } else {
        var j :| 0 <= j < |es| && es[j] == e;
        assert e.id in SetOf(handed);
        assert j < k;
      }
    }
    forall i | 0 <= i < |fresh_|
      ensures exists j :: 0 <= j <= m && es[j].id == Ids(fresh_)[i]
    {
      assert es[k + i] == fresh_[i];
    }
    assert es[m] == fresh_[|fresh_| - 1] && es[m] in out;
    var i :| 0 <= i < |out| && out[i] == es[m];
    assert Ids(out)[i] == es[m].id && Ids(fresh_)[|fresh_| - 1] == es[m].id;
    NotDollar(es, m);
    CompareFlip(es[m].id, last);
    AdvanceTo(last, Ids(out), es, m);
    AdvanceTo(last, Ids(fresh_), es, m);
  }

  lemma AccountedMore(handed: seq<string>, pending: map<string, Pending>, acked: set<string>, es: seq<Entry>,
      consumer: string, out: seq<Entry>, fresh_: seq<Entry>)
    requires Accounted(handed, pending.Keys, acked) && SetOf(Ids(fresh_)) !! SetOf(handed)
    requires forall e :: e in out ==> e in fresh_ || Owned(e, es, pending, consumer)
    requires forall e :: e in fresh_ ==> e in out
    ensures Accounted(handed + Ids(fresh_), pending.Keys + SetOf(Ids(out)), acked)
  {
    hide Ids;
    IdsOf(out);
    IdsOf(fresh_);
    forall x | x in SetOf(Ids(out)) ensures x in pending.Keys || x in SetOf(Ids(fresh_)) {
      var i :| 0 <= i < |out| && Ids(out)[i] == x;
      assert out[i] in out;
      if out[i] in fresh_ {
        var j :| 0 <= j < |fresh_| && fresh_[j] == out[i];
        assert Ids(fresh_)[j] == x;
      }
    }
    forall x | x in SetOf(Ids(fresh_)) ensures x in SetOf(Ids(out)) {
      var i :| 0 <= i < |fresh_| && Ids(fresh_)[i] == x;
      assert fresh_[i] in fresh_ && fresh_[i] in out;
      var j :| 0 <= j < |out| && out[j] == fresh_[i];
      assert Ids(out)[j] == x;
    }
    assert SetOf(handed + Ids(fresh_)) == SetOf(handed) + SetOf(Ids(fresh_));
  }

  /** What is new in a reply is the first few of the new entries, at least one if there are any. */
  lemma {:induction false} NewInIsTake(out: seq<Entry>, es: seq<Entry>, lastID: string, pending: map<string, Pending>,
      consumer: string, ids: seq<string>, count: int)
    ensures var f := NewIn(out, es, lastID, pending, consumer, ids, count);
            && (f != [] ==> exists n: nat :: n > 0 && f == Take(Later(es, lastID), n))
            && (TimesNew(ids) == 0 ==> f == [])
    decreases |ids|
  {
    hide Later, Mine, AppendUpTo;
    if ids != [] && ids[0] != ">" {
      var own := Mine(es, pending, consumer, ids[0]);
      NewInIsTake(AppendUpTo(out, own, Limit(count)), es, lastID, pending, consumer, ids[1..], count);
    }
  }

  lemma NothingFresh(es: seq<Entry>, handed: seq<string>)
    ensures es == [] ==> handed + Ids(es) == handed
  {}

  lemma {:induction false} LaterBound(es: seq<Entry>, last: string)
    ensures forall e :: e in Later(es, last) ==> Compare(e.id, last) > 0
  {
    hide Compare;
    if es != [] { LaterBound(es[1..], last); }
  }

  /** A history read only returns entries that are pending already. */
  lemma {:induction false} MineBound(es: seq<Entry>, pending: map<string, Pending>, consumer: string, id: string)
    ensures forall e :: e in Mine(es, pending, consumer, id) ==> Owned(e, es, pending, consumer)
  {
    hide Compare;
    if es != [] { MineBound(es[1..], pending, consumer, id); }
  }

  method AppendEntries(out: seq<Entry>, es: seq<Entry>, count: nat) returns (r: seq<Entry>)
    ensures r == AppendUpTo(out, es, count)
  {
    r := out;
    assert es[0..] == es;
    for i := 0 to |es|
      invariant AppendUpTo(r, es[i..], count) == AppendUpTo(out, es, count)
    {
      assert es[i..][1..] == es[i + 1..];
      r := r + [es[i]];
      if |r| >= count { return; }
    }
  }

  method AppendMine(out: seq<Entry>, es: seq<Entry>, pending: map<string, Pending>, consumer: string, after: string,
      count: nat)
      returns (r: seq<Entry>)
    ensures r == AppendUpTo(out, Mine(es, pending, consumer, after), count)
  {
    hide Compare;
    r := out;
    assert es[0..] == es;
    for i := 0 to |es|
      invariant AppendUpTo(r, Mine(es[i..], pending, consumer, after), count)
             == AppendUpTo(out, Mine(es, pending, consumer, after), count)
    {
      assert es[i..][1..] == es[i + 1..];
      var e := es[i];
      if e.id in pending && pending[e.id].consumer == consumer && Compare(e.id, after) > 0 {
        assert Mine(es[i..], pending, consumer, after)[1..] == Mine(es[i + 1..], pending, consumer, after);
        r := r + [e];
        if |r| >= count { return; }
      }
    }
  }
}
