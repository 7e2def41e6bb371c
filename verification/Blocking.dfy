/**
 * Lists with blocking pops (internal/store/store.go, pushList, popList, LMove, BPop,
 * wakeListWaitersLocked, removeListWaiter): a push hands elements to clients that are waiting.
 */
module BlockingLists {
  import opened Common

  /** A blocked client: which end it pops. */
  datatype Waiter = Waiter(id: nat, left: bool)

  lemma EndAndRest(list: seq<string>, left: bool)
    requires list != []
    ensures multiset(list) == multiset{End(list, left)} + multiset(Shorter(list, left))
  {
    if left { assert list == [list[0]] + list[1..]; } else { assert list == list[..|list| - 1] + [list[|list| - 1]]; }
  }

  lemma {:induction false} ReverseKeeps(s: seq<string>)
    ensures multiset(Reverse(s)) == multiset(s)
  {
    if s != [] {
      ReverseKeeps(s[1..]);
      assert s == [s[0]] + s[1..];
    }
  }

  lemma PushedKeeps(list: seq<string>, left: bool, values: seq<string>)
    ensures multiset(Pushed(list, left, values)) == multiset(list) + multiset(values)
  {
    ReverseKeeps(values);
  }

  // ----- waking -----

  /** The outcome of waking the waiters of one key. `done` are the waiters whose channel was used. */
  datatype Wakeup = Wakeup(
    list: seq<string>, waiters: seq<Waiter>, done: set<nat>, given: seq<(nat, string)>, lost: seq<string>)

  /**
   * First come, first served. The element is popped before the waiter is checked: one that was
   * served through another key, or that has given up (`gone`), makes the element vanish.
   */
  function Wake(list: seq<string>, waiters: seq<Waiter>, done: set<nat>, gone: set<nat>): Wakeup
    decreases |waiters|
  {
    if list == [] || waiters == [] then Wakeup(list, waiters, done, [], [])
    else
      var w, val := waiters[0], End(list, waiters[0].left);
      var r := Wake(Shorter(list, w.left), waiters[1..], done + {w.id}, gone);
      if w.id in done || w.id in gone then r.(lost := [val] + r.lost) else r.(given := [(w.id, val)] + r.given)
  }

  function Values(given: seq<(nat, string)>): seq<string> {
    if given == [] then [] else [given[0].1] + Values(given[1..])
  }

  /** Every element is kept, given to one waiter, or lost. */
  lemma {:induction false} WakeConserves(list: seq<string>, waiters: seq<Waiter>, done: set<nat>, gone: set<nat>)
    ensures var r := Wake(list, waiters, done, gone);
            multiset(list) == multiset(r.list) + multiset(Values(r.given)) + multiset(r.lost)
    decreases |waiters|
  {
    hide End, Shorter;
    if list != [] && waiters != [] {
      var w := waiters[0];
      EndAndRest(list, w.left);
      WakeConserves(Shorter(list, w.left), waiters[1..], done + {w.id}, gone);
      var r, tail := Wake(list, waiters, done, gone), Wake(Shorter(list, w.left), waiters[1..], done + {w.id}, gone);
      if !(w.id in done || w.id in gone) {
        assert r.given[1..] == tail.given;
        assert Values(r.given) == [End(list, w.left)] + Values(tail.given);
      }
    }
  }

  lemma DropOneMore(waiters: seq<Waiter>, n: nat)
    requires n < |waiters|
    ensures waiters[1..][n..] == waiters[n + 1..]
  {}

  /** Afterwards nobody waits beside an element; those no longer waiting are the first in line. */
  lemma {:induction false} WakeEnds(list: seq<string>, waiters: seq<Waiter>, done: set<nat>, gone: set<nat>)
    ensures var r := Wake(list, waiters, done, gone);
            && (r.list == [] || r.waiters == [])
            && |r.waiters| <= |waiters| && r.waiters == waiters[|waiters| - |r.waiters|..]
    decreases |waiters|
  {
    hide End, Shorter;
    if list == [] || waiters == [] {
      assert waiters[0..] == waiters;
    } else {
      var w, rest := waiters[0], waiters[1..];
      WakeEnds(Shorter(list, w.left), rest, done + {w.id}, gone);
      var tail := Wake(Shorter(list, w.left), rest, done + {w.id}, gone);
      assert Wake(list, waiters, done, gone).waiters == tail.waiters;
      DropOneMore(waiters, |rest| - |tail.waiters|);
    }
  }

  /** The waiters of one key are distinct and none of them was served or has given up. */
  ghost predicate Fresh(waiters: seq<Waiter>, done: set<nat>, gone: set<nat>) {
    && (forall i :: 0 <= i < |waiters| ==> waiters[i].id !in done && waiters[i].id !in gone)
    && (forall i, j :: 0 <= i < j < |waiters| ==> waiters[i].id != waiters[j].id)
  }

  function FirstIds(waiters: seq<Waiter>, n: nat): set<nat>
    requires n <= |waiters|
  {
    if n == 0 then {} else {waiters[0].id} + FirstIds(waiters[1..], n - 1)
  }

  /** Fresh waiters lose nothing: the first in line get one element each, in order of registration. */
  lemma {:induction false} FreshWakeLosesNothing(list: seq<string>, waiters: seq<Waiter>, done: set<nat>,
      gone: set<nat>)
    requires Fresh(waiters, done, gone)
    ensures var r := Wake(list, waiters, done, gone);
            && r.lost == [] && |r.given| + |r.waiters| == |waiters|
            && (forall i :: 0 <= i < |r.given| ==> r.given[i].0 == waiters[i].id)
            && Fresh(r.waiters, r.done, gone)
            && r.done == done + FirstIds(waiters, |r.given|)
    decreases |waiters|
  {
    hide End, Shorter;
    if list != [] && waiters != [] {
      var w := waiters[0];
      FreshWakeLosesNothing(Shorter(list, w.left), waiters[1..], done + {w.id}, gone);
      var r, tail := Wake(list, waiters, done, gone), Wake(Shorter(list, w.left), waiters[1..], done + {w.id}, gone);
      forall i | 0 <= i < |r.given| ensures r.given[i].0 == waiters[i].id {
        if i > 0 { assert r.given[i] == tail.given[i - 1] && waiters[1..][i - 1] == waiters[i]; }
      }
    }
  }

  /** Waiters that pop the same end get the elements in the order in which they lie from that end. */
  lemma {:induction false} WakeInOrder(list: seq<string>, waiters: seq<Waiter>, done: set<nat>, gone: set<nat>,
      left: bool)
    requires Fresh(waiters, done, gone) && forall i :: 0 <= i < |waiters| ==> waiters[i].left == left
    ensures var r := Wake(list, waiters, done, gone);
            && |r.given| == (if |list| < |waiters| then |list| else |waiters|) && |r.list| == |list| - |r.given|
            && (forall i :: 0 <= i < |r.given| ==> r.given[i].1 == list[if left then i else |list| - 1 - i])
            && forall i :: 0 <= i < |r.list| ==> r.list[i] == list[if left then |r.given| + i else i]
    decreases |waiters|
  {
    hide Fresh, End, Shorter;
    if list != [] && waiters != [] {
      var w, ws := waiters[0], waiters[1..];
      PoppedAt(list, left);
      assert waiters == [w] + ws;
      FreshCons(w, ws, done, gone);
      WakeInOrder(Shorter(list, left), ws, done + {w.id}, gone, left);
      var tail := Wake(Shorter(list, left), ws, done + {w.id}, gone);
      assert Wake(list, waiters, done, gone).given == [(w.id, End(list, left))] + tail.given;
    }
  }

  lemma FreshCons(w: Waiter, ws: seq<Waiter>, done: set<nat>, gone: set<nat>)
    ensures Fresh([w] + ws, done, gone) <==> w.id !in done && w.id !in gone && Fresh(ws, done + {w.id}, gone)
  {
    var all := [w] + ws;
    assert all[0] == w;
    if Fresh(all, done, gone) {
      forall i | 0 <= i < |ws|
        ensures ws[i].id !in done + {w.id} && ws[i].id !in gone
      {
        assert all[i + 1] == ws[i] && all[0] == w;
      }
      forall i, j | 0 <= i < j < |ws|
        ensures ws[i].id != ws[j].id
      {
        assert all[i + 1] == ws[i] && all[j + 1] == ws[j];
      }
    }
    if w.id !in done && w.id !in gone && Fresh(ws, done + {w.id}, gone) {
      forall i | 0 <= i < |all|
        ensures all[i].id !in done && all[i].id !in gone
      {
        if i > 0 { assert all[i] == ws[i - 1]; }
      }
      forall i, j | 0 <= i < j < |all| ensures all[i].id != all[j].id {
        assert all[j] == ws[j - 1];
        if i > 0 { assert all[i] == ws[i - 1]; }
      }
    }
  }

  /** How many waiters are taken from the line: as many as there are elements for. */
  function Turns(list: seq<string>, waiters: seq<Waiter>): nat {
    if |list| < |waiters| then |list| else |waiters|
  }

  /**
   * An element vanishes exactly when one of the waiters whose turn comes, one per element, was
   * served before, gave up, or stands in line twice.
   */
  lemma {:induction false} LosesNothingIffFresh(list: seq<string>, waiters: seq<Waiter>, done: set<nat>, gone: set<nat>)
    ensures Wake(list, waiters, done, gone).lost == [] <==> Fresh(waiters[..Turns(list, waiters)], done, gone)
    decreases |waiters|
  {
    hide End, Fresh;
    if list == [] || waiters == [] {
      FreshNothing(done, gone);
      assert waiters[..0] == [];
    } else {
      var w, rest := waiters[0], waiters[1..];
      var fewer := Shorter(list, w.left);
      LosesNothingIffFresh(fewer, rest, done + {w.id}, gone);
      var n := Turns(fewer, rest);
      assert waiters[..n + 1] == [w] + rest[..n];
      FreshCons(w, rest[..n], done, gone);
    }
  }

  // ----- the store's lists -----

  ghost predicate Distinct(waits: map<string, seq<Waiter>>) {
    forall k, l, i, j :: k in waits && l in waits && 0 <= i < |waits[k]| && 0 <= j < |waits[l]| && k != l ==>
      waits[k][i].id != waits[l][j].id
  }

  /**
   * The books of a key: what happened to the elements that entered its list, who was handed which
   * of them, who joined its line, and who left it again without being served.
   */
  datatype Account = Account(
    entered: multiset<string>,
    popped: multiset<string>,
    handed: seq<(nat, string)>,
    lost: multiset<string>,
    joined: seq<nat>,
    withdrawn: set<nat>)

  function At<V>(m: map<string, seq<V>>, key: string): seq<V> {
    if key in m then m[key] else []
  }

  ghost predicate NoLostWakeup(lists: map<string, seq<string>>, waits: map<string, seq<Waiter>>) {
    forall key :: key in waits ==> key !in lists
  }

  ghost predicate Balanced(lists: map<string, seq<string>>, account: map<string, Account>) {
    lists.Keys <= account.Keys && forall key :: key in account ==> Balances(account[key], At(lists, key))
  }

  lemma BalancedUpdate(lists: map<string, seq<string>>, lists': map<string, seq<string>>,
      account: map<string, Account>, key: string, a: Account)
    requires Balanced(lists, account) && lists' - {key} == lists - {key} && Balances(a, At(lists', key))
    ensures Balanced(lists', account[key := a])
  {
    hide Balances;
    Elsewhere(lists, lists', key);
  }

  lemma QuietUpdate(lists: map<string, seq<string>>, waits: map<string, seq<Waiter>>,
      lists': map<string, seq<string>>, waits': map<string, seq<Waiter>>, key: string)
    requires NoLostWakeup(lists, waits) && lists' - {key} == lists - {key} && waits' - {key} == waits - {key}
    requires !(key in lists' && key in waits')
    ensures NoLostWakeup(lists', waits')
  {
    Elsewhere(lists, lists', key);
    Elsewhere(waits, waits', key);
  }

  lemma Elsewhere<V>(m: map<string, seq<V>>, m': map<string, seq<V>>, key: string)
    requires m' - {key} == m - {key}
    ensures forall k :: k != key ==> (k in m' <==> k in m) && (k in m ==> m'[k] == m[k])
  {
    forall k | k != key ensures (k in m' <==> k in m) && (k in m ==> m'[k] == m[k]) {
      assert k in m' - {key} <==> k in m - {key};
      if k in m { assert (m' - {key})[k] == (m - {key})[k]; }
    }
  }

  const Nothing := Account(multiset{}, multiset{}, [], multiset{}, [], {})

  function LedgerAt(account: map<string, Account>, key: string): Account {
    if key in account then account[key] else Nothing
  }

  /** The element comes from the named end of the first key, in the order given, that holds a list. */
  ghost predicate TookFirst(before: map<string, seq<string>>, after: map<string, seq<string>>, keys: seq<string>,
      left: bool, r: (string, string)) {
    exists i :: 0 <= i < |keys| && keys[i] == r.0 && At(before, r.0) != []
      && (forall j :: 0 <= j < i ==> keys[j] !in before)
      && r.1 == End(At(before, r.0), left) && At(after, r.0) == Shorter(At(before, r.0), left)
  }

  class Lists {
    var lists: map<string, seq<string>>
    var waits: map<string, seq<Waiter>>
    /** Waiters whose once-guard has fired, and waiters that stopped listening but are still registered. */
    var done: set<nat>
    ghost var gone: set<nat>
    ghost var account: map<string, Account>
    /** The identity the next waiter will have. */
    var next: nat

    function List(key: string): seq<string> reads this {
      At(lists, key)
    }

    function Waiting(key: string): seq<Waiter> reads this {
      At(waits, key)
    }

    ghost function Ledger(key: string): Account reads this {
      LedgerAt(account, key)
    }

    ghost predicate Shaped() reads this {
      (forall key :: key in lists ==> lists[key] != []) && (forall key :: key in waits ==> waits[key] != [])
    }

    /** Every element is accounted for, and nobody is handed two of them. */
    ghost predicate Sound() reads this {
      Shaped() && Balanced(lists, account) && Once(account, done) && Known(waits, done, gone, account, next)
    }

    /** Moreover no wakeup is lost: whoever waits on a key waits on an empty list. */
    ghost predicate Valid() reads this {
      Sound() && NoLostWakeup(lists, waits)
    }

    /** Every registered waiter is registered once, on one key, and is still listening. */
    ghost predicate Attentive() reads this {
      AllFresh(waits, done, gone) && Distinct(waits)
    }

    /**
     * Moreover nothing was ever lost, and on every key those who were handed an element, followed
     * by those who wait, are those who joined the line and did not leave it, in that order.
     */
    ghost predicate Fair() reads this {
      Attentive() && Orderly(waits, account)
    }

    constructor ()
      ensures Valid() && Fair() && lists == map[] && waits == map[] && account == map[]
    {
      lists, waits, done, next := map[], map[], {}, 0;
      gone, account := {}, map[];
    }

    method SetList(key: string, list: seq<string>)
      requires Shaped()
      modifies this`lists
      ensures Shaped() && List(key) == list && lists - {key} == old(lists) - {key}
      ensures lists == if list == [] then old(lists) - {key} else old(lists)[key := list]
    {
      if list == [] { lists := lists - {key}; } else { lists := lists[key := list]; }
    }

    method SetWaiters(key: string, waiters: seq<Waiter>)
      requires Shaped()
      modifies this`waits
      ensures Shaped() && Waiting(key) == waiters && waits - {key} == old(waits) - {key}
    {
      if waiters == [] { waits := waits - {key}; } else { waits := waits[key := waiters]; }
    }

    /** wakeListWaitersLocked: pop the first waiter, then an element, until one of them runs out. */
    method WakeWaiters(key: string) returns (ghost r: Wakeup)
      requires Shaped()
      modifies this`lists, this`waits, this`done
      ensures Shaped() && r == Wake(old(List(key)), old(Waiting(key)), old(done), gone)
      ensures List(key) == r.list && Waiting(key) == r.waiters && done == r.done
      ensures lists - {key} == old(lists) - {key} && waits - {key} == old(waits) - {key}
    {
      hide End, Shorter;
      ghost var given: seq<(nat, string)> := [];
      ghost var lost: seq<string> := [];
      r := Wake(List(key), Waiting(key), done, gone);
      assert [] + r.given == r.given && [] + r.lost == r.lost;
      while key in waits && key in lists
        invariant Shaped() && r == Added(given, lost, Wake(List(key), Waiting(key), done, gone))
        invariant lists - {key} == old(lists) - {key} && waits - {key} == old(waits) - {key}
        decreases |Waiting(key)|
      {
        var d, w := lists[key], waits[key][0];
        AddedStep(given, lost, d, waits[key], done, gone);
        SetWaiters(key, waits[key][1..]);
        var val := End(d, w.left);
        SetList(key, Shorter(d, w.left));
        if w.id in done || w.id in gone { lost := lost + [val]; } else { given := given + [(w.id, val)]; }
        done := done + {w.id};
      }
      assert given + [] == given && lost + [] == lost;
      assert r.given == given && r.lost == lost;
    }

    /** Settles the books after a wakeup. */
    ghost method Book(key: string, entered: seq<string>, popped: multiset<string>, r: Wakeup)
      modifies this`account
      ensures account == old(account)[key := Entered(old(Ledger(key)), entered, popped, r)]
    {
      account := account[key := Entered(Ledger(key), entered, popped, r)];
    }

    /** LPUSH and RPUSH; the length replied is what is left after the wakeup. */
    method Push(key: string, left: bool, values: seq<string>) returns (ok: bool, n: nat, ghost r: Wakeup)
      requires Valid()
      modifies this
      ensures Valid() && ok == (values != []) && gone == old(gone) && next == old(next)
      ensures !ok ==> unchanged(this)
      ensures ok ==>
                n == |List(key)| && r == Wake(Pushed(old(List(key)), left, values), old(Waiting(key)), old(done), gone)
      ensures ok ==> List(key) == r.list && Waiting(key) == r.waiters && done == r.done
      ensures lists - {key} == old(lists) - {key} && waits - {key} == old(waits) - {key}
      ensures ok ==> account == old(account)[key := Entered(old(Ledger(key)), values, multiset{}, r)]
      ensures Grown(old(account), account) && (old(Fair()) ==> Fair() && (ok ==> r.lost == []))
    {
      hide *;
      SameBooks(account);
      if values == [] { return false, 0, Wakeup([], [], {}, [], []); }
      r := PushSome(key, left, values);
      ok, n := true, |List(key)|;
    }

    method PushSome(key: string, left: bool, values: seq<string>) returns (ghost r: Wakeup)
      requires Valid()
      modifies this
      ensures Valid() && gone == old(gone) && next == old(next)
      ensures r == Wake(Pushed(old(List(key)), left, values), old(Waiting(key)), old(done), gone)
      ensures List(key) == r.list && Waiting(key) == r.waiters && done == r.done
      ensures lists - {key} == old(lists) - {key} && waits - {key} == old(waits) - {key}
      ensures account == old(account)[key := Entered(old(Ledger(key)), values, multiset{}, r)]
      ensures Grown(old(account), account) && (old(Fair()) ==> Fair() && r.lost == [])
    {
      hide Wake, Pushed, Balances, Fresh, Distinct, Values, NoLostWakeup, Balanced, Entered, AllFresh, Once, Known,
        Orderly, Grown;
      ghost var l0, w0, a0, d0 := lists, waits, Ledger(key), done;
      SetList(key, Pushed(List(key), left, values));
      ghost var l1 := lists;
      r := WakeWaiters(key);
      SameTwice(l0, l1, lists, key);
      Book(key, values, multiset{}, r);
      PushFacts(l0, w0, old(account), lists, waits, key, left, values, d0, gone);
      ghost var pushed := Pushed(At(l0, key), left, values);
      HandedOnce(old(account), key, values, pushed, At(w0, key), d0, gone);
      WokenKnown(w0, waits, old(account), key, values, pushed, d0, gone, next);
      if old(Fair()) { WokenOrderly(w0, waits, old(account), key, values, pushed, d0, gone); }
    }

    method Pop(key: string, left: bool) returns (r: Option<string>)
      requires Valid()
      modifies this`lists, this`account
      ensures Valid() && (r.None? <==> old(List(key)) == [])
      ensures r.None? ==> unchanged(this)
      ensures r.Some? ==> r.value == End(old(List(key)), left) && List(key) == Shorter(old(List(key)), left)
      ensures r.Some? ==> old(List(key)) == if left then [r.value] + List(key) else List(key) + [r.value]
      ensures lists - {key} == old(lists) - {key}
      ensures r.Some? ==> account == old(account)[key := Popped(old(Ledger(key)), r.value)]
      ensures Grown(old(account), account) && (old(Fair()) ==> Fair())
    {
      hide Balances, NoLostWakeup, Balanced, AllFresh, Distinct, End, Shorter, Popped, Once, Known, Orderly, Grown;
      SameBooks(account);
      if key !in lists { return None; }
      ghost var l0 := lists;
      var list := lists[key];
      SetList(key, Shorter(list, left));
      PopFacts(l0, waits, account, lists, key, left);
      PoppedBooks(waits, account, key, End(list, left), done, gone, next);
      account := account[key := Popped(Ledger(key), End(list, left))];
      PoppedAt(list, left);
      return Some(End(list, left));
    }

    /** LMOVE: the element popped from `src` is pushed to `dst`, where it may wake a waiter. */
    method LMove(src: string, dst: string, srcLeft: bool, dstLeft: bool) returns (r: Option<string>, ghost w: Wakeup)
      requires Valid()
      modifies this
      ensures Valid() && gone == old(gone) && next == old(next) && (r.None? <==> old(List(src)) == [])
      ensures r.None? ==> unchanged(this)
      ensures r.Some? ==> r.value == End(old(List(src)), srcLeft)
      ensures r.Some? && src != dst ==> List(src) == Shorter(old(List(src)), srcLeft)
      ensures r.Some? && src != dst ==>
                w == Wake(Pushed(old(List(dst)), dstLeft, [r.value]), old(Waiting(dst)), old(done), gone)
      ensures r.Some? && src != dst ==> List(dst) == w.list && Waiting(dst) == w.waiters && done == w.done
      ensures r.Some? && src == dst ==> List(src) == Pushed(Shorter(old(List(src)), srcLeft), dstLeft, [r.value])
      ensures forall k :: k != src && k != dst ==> List(k) == old(List(k))
      ensures waits - {dst} == old(waits) - {dst}
      ensures Grown(old(account), account) && (old(Fair()) ==> Fair() && (r.Some? ==> w.lost == []))
    {
      hide Balances, NoLostWakeup, Balanced, AllFresh, Distinct, End, Shorter, Popped, Pushed, Entered, Once, Known,
        Orderly, Grown;
      r := Pop(src, srcLeft);
      w := Wakeup([], [], {}, [], []);
      if r.None? { return; }
      ghost var l1, a1 := lists, account;
      assert src == dst ==> Waiting(dst) == [] by { NobodyWaits(old(lists), waits, src); }
      w := PushSome(dst, dstLeft, [r.value]);
      Elsewhere(old(lists), l1, src);
      Elsewhere(l1, lists, dst);
      GrownTwice(old(account), a1, account);
    }

    /** BLPOP/BRPOP: an element of the first non-empty list, else a new waiter joins every line. */
    method BPop(keys: seq<string>, left: bool) returns (r: Option<(string, string)>, ghost w: Waiter)
      requires Valid()
      modifies this
      ensures Valid() && done == old(done) && gone == old(gone) && w == Waiter(old(next), left)
      ensures next == if r.None? then old(next) + 1 else old(next)
      ensures r.None? ==>
                lists == old(lists) && (forall i :: 0 <= i < |keys| ==> keys[i] !in lists && w in Waiting(keys[i]))
      ensures r.Some? ==> waits == old(waits) && TookFirst(old(lists), lists, keys, left, r.value)
      ensures r.None? && |keys| == 1 ==> Waiting(keys[0]) == old(Waiting(keys[0])) + [w]
      ensures r.None? && |keys| == 1 ==> Ledger(keys[0]) == Joining(old(Ledger(keys[0])), w.id)
      ensures Grown(old(account), account) && (old(Fair()) && (r.Some? || |keys| == 1) ==> Fair())
    {
      hide Balances, NoLostWakeup, Balanced, AllFresh, Distinct, End, Shorter, Popped, Once, Known, Orderly, Grown,
        Joining;
      w := Waiter(next, left);
      for i := 0 to |keys|
        invariant unchanged(this) && forall j :: 0 <= j < i ==> keys[j] !in lists
      {
        if keys[i] in lists {
          ghost var l0 := lists;
          var v := Pop(keys[i], left);
          assert TookFirst(l0, lists, keys, left, (keys[i], v.value));
          return Some((keys[i], v.value)), w;
        }
      }
      var id := next;
      next := next + 1;
      Register(keys, Waiter(id, left));
      r := None;
    }

    method Register(keys: seq<string>, w: Waiter)
      requires next == w.id + 1 && Shaped() && NoLostWakeup(lists, waits) && Balanced(lists, account)
      requires Once(account, done) && Known(waits, done, gone, account, w.id)
      requires forall i :: 0 <= i < |keys| ==> keys[i] !in lists
      modifies this`waits, this`account
      ensures Valid() && forall i :: 0 <= i < |keys| ==> w in Waiting(keys[i])
      ensures |keys| == 1 ==> Waiting(keys[0]) == old(Waiting(keys[0])) + [w]
      ensures |keys| == 1 ==> Ledger(keys[0]) == Joining(old(Ledger(keys[0])), w.id)
      ensures Grown(old(account), account) && (old(Fair()) && |keys| == 1 ==> Fair())
    {
      hide Balances, Balanced, AllFresh, Distinct, NoLostWakeup, Once, Known, Orderly, Grown, Joining;
      SameBooks(account);
      KnownLater(waits, done, gone, account, w.id);
      for i := 0 to |keys|
        invariant Valid() && Grown(old(account), account) && forall j :: 0 <= j < i ==> w in Waiting(keys[j])
        invariant i == 0 ==> waits == old(waits) && account == old(account)
        invariant i == 1 ==>
                    waits - {keys[0]} == old(waits) - {keys[0]} && Waiting(keys[0]) == old(Waiting(keys[0])) + [w]
        invariant i == 1 ==> account == old(account)[keys[0] := Joining(LedgerAt(old(account), keys[0]), w.id)]
      {
        ghost var w0, a0 := waits, account;
        SetWaiters(keys[i], Waiting(keys[i]) + [w]);
        account := account[keys[i] := Joining(Ledger(keys[i]), w.id)];
        Elsewhere(w0, waits, keys[i]);
        QuietUpdate(lists, w0, lists, waits, keys[i]);
        JoinedBooks(lists, w0, waits, a0, keys[i], w, done, gone, next);
        GrownTwice(old(account), a0, account);
      }
      if old(Fair()) && |keys| == 1 { JoinFair(old(waits), waits, old(account), keys[0], w, done, gone); }
    }

    /** The client stops listening (timeout or shutdown); its registrations are still there. */
    ghost method GiveUp(id: nat)
      requires Valid() && id < next
      modifies this`gone
      ensures Valid() && gone == old(gone) + {id}
    {
      hide Once;
      gone := gone + {id};
    }

    /** removeListWaiter: the waiter leaves every line it joined. */
    method RemoveWaiter(keys: seq<string>, id: nat)
      requires Valid() && id < next
      modifies this`waits, this`account
      ensures Valid() && forall i :: 0 <= i < |keys| ==> Waiting(keys[i]) == Without(old(Waiting(keys[i])), id)
      ensures forall k :: k !in keys ==> Waiting(k) == old(Waiting(k))
      ensures Grown(old(account), account) && (old(Fair()) ==> Fair())
    {
      hide Balances, Balanced, NoLostWakeup, Distinct, AllFresh, Without, Once, Known, Orderly, Grown;
      SameBooks(account);
      for i := 0 to |keys|
        invariant Valid() && Grown(old(account), account) && (old(Fair()) ==> Fair())
        invariant forall k :: Waiting(k) == if k in keys[..i] then Without(old(Waiting(k)), id) else old(Waiting(k))
      {
        ghost var a0 := account;
        LeaveLine(keys[i], id);
        WithoutTwice(old(Waiting(keys[i])), id);
        GrownTwice(old(account), a0, account);
        assert keys[..i + 1] == keys[..i] + [keys[i]];
      }
      assert keys[..|keys|] == keys;
    }

    method LeaveLine(key: string, id: nat)
      requires Valid() && id < next
      modifies this`waits, this`account
      ensures Valid() && Waiting(key) == Without(old(Waiting(key)), id)
      ensures forall k :: k != key ==> Waiting(k) == old(Waiting(k))
      ensures Grown(old(account), account) && (old(Fair()) ==> Fair())
    {
      hide Balances, Balanced, NoLostWakeup, Distinct, AllFresh, Without, Once, Known, Orderly, Grown, Leaving;
      ghost var w0, a0 := waits, account;
      var kept := FilterOut(Waiting(key), id);
      SetWaiters(key, kept);
      Elsewhere(w0, waits, key);
      LeaveQuiet(lists, w0, waits, key, id);
      account := account[key := Leaving(LedgerAt(a0, key), At(w0, key), id)];
      LeavingBooks(lists, w0, waits, a0, key, id, done, gone, next);
      if old(Fair()) { LeaveFair(w0, waits, a0, key, id, done, gone); }
    }

    method Do(act: Act)
      requires Valid() && !Unheeding(act, lists, waits)
      modifies this
      ensures Valid() && Grown(old(account), account) && (old(Fair()) && Polite(act) ==> Fair())
    {
      hide *;
      SameBooks(account);
      match act {
        case PushTo(key, left, values) => var _, _, _ := Push(key, left, values);
        case PopFrom(key, left) => var _ := Pop(key, left);
        case Move(src, dst, srcLeft, dstLeft) => var _, _ := LMove(src, dst, srcLeft, dstLeft);
        case Block(keys, left) => BlockOn(keys, left);
        case Unblock(keys, id) => if id < next { RemoveWaiter(keys, id); }
        case StopListening(id) => if id < next { StopAt(id); }
        case Remove(_) => Relist(act);
        case Rename(_, _) => Relist(act);
        case Copy(_, _, _) => Relist(act);
      }
    }

    method Relist(act: Act)
      requires Valid() && (act.Remove? || act.Rename? || act.Copy?) && !Unheeding(act, lists, waits)
      modifies this
      ensures Valid() && Grown(old(account), account) && (old(Fair()) ==> Fair())
    {
      hide Balanced, AllFresh, Distinct, Once, Known, Orderly, Grown, NoLostWakeup;
      match act {
        case Remove(key) => RemoveList(key);
        case Rename(src, dst) => var _ := RenameList(src, dst);
        case Copy(src, dst, replace) => var _ := CopyList(src, dst, replace);
      }
    }

    method BlockOn(keys: seq<string>, left: bool)
      requires Valid()
      modifies this
      ensures Valid() && Grown(old(account), account) && (old(Fair()) && Polite(Block(keys, left)) ==> Fair())
    {
      hide Balances, NoLostWakeup, Balanced, AllFresh, Distinct, Once, Known, Orderly, Grown, TookFirst, Joining;
      var _, _ := BPop(keys, left);
    }

    ghost method StopAt(id: nat)
      requires Valid() && id < next
      modifies this`gone
      ensures Valid() && Grown(old(account), account) && !Polite(StopListening(id))
    {
      hide Balances, NoLostWakeup, Balanced, AllFresh, Distinct, Once, Known, Orderly;
      SameBooks(account);
      GiveUp(id);
    }

    /**
     * Any run, up to the first RENAME or COPY onto a name somebody waits on: no wakeup is lost, the
     * books balance, and nobody is ever handed two elements. If clients wait on one key at a time and
     * leave the line as they stop listening, nothing is lost either, and every line is served in the
     * order in which it was joined.
     */
    method Serve(acts: seq<Act>) returns (n: nat)
      requires Valid()
      modifies this
      ensures Valid() && Grown(old(account), account)
      ensures n <= |acts| && (n < |acts| ==> Unheeding(acts[n], lists, waits))
      ensures old(Fair()) && (forall i :: 0 <= i < n ==> Polite(acts[i])) ==> Fair()
    {
      hide *;
      SameBooks(account);
      n := 0;
      while n < |acts| && !Unheeding(acts[n], lists, waits)
        invariant n <= |acts| && Valid() && Grown(old(account), account)
        invariant old(Fair()) && (forall k :: 0 <= k < n ==> Polite(acts[k])) ==> Fair()
      {
        ghost var a0 := account;
        Do(acts[n]);
        GrownTwice(old(account), a0, account);
        n := n + 1;
      }
    }

    /** Puts a list, or none, in the place of another, and wakes nobody. */
    method Replace(key: string, list: seq<string>)
      requires Sound()
      modifies this`lists, this`account
      ensures Sound() && lists == if list == [] then old(lists) - {key} else old(lists)[key := list]
      ensures account == old(account)[key := Swapped(old(Ledger(key)), old(List(key)), list)]
      ensures Grown(old(account), account) && (old(Fair()) ==> Fair())
    {
      hide Balances, Balanced, AllFresh, Distinct, Swapped, Once, Known, Orderly, Grown;
      ghost var l0 := lists;
      SetList(key, list);
      SwapFacts(l0, account, lists, key);
      SwappedBooks(waits, account, key, At(l0, key), list, done, gone, next);
      account := account[key := Swapped(Ledger(key), At(l0, key), list)];
    }

    /** DEL, expiry, or a value of another type in the list's place. */
    method RemoveList(key: string)
      requires Valid()
      modifies this`lists, this`account
      ensures Valid() && lists == old(lists) - {key}
      ensures Grown(old(account), account) && (old(Fair()) ==> Fair())
    {
      hide Balanced, AllFresh, Distinct, Swapped, Once, Known, Orderly, Grown;
      Replace(key, []);
    }

    /**
     * RENAME moves a list without waking anyone: a wakeup is lost exactly when somebody waits on the
     * new name. Onto its own name, the list is deleted.
     */
    method RenameList(src: string, dst: string) returns (ok: bool)
      requires Valid()
      modifies this`lists, this`account
      ensures Sound() && ok == (src in old(lists))
      ensures !ok ==> unchanged(this)
      ensures ok ==>
                lists == if src == dst then old(lists) - {src} else (old(lists) - {src})[dst := old(lists)[src]]
      ensures Valid() <==> !Unheeding(Rename(src, dst), old(lists), waits)
      ensures Grown(old(account), account) && (old(Fair()) ==> Fair())
    {
      hide Balanced, AllFresh, Distinct, Swapped, Once, Known, Orderly, Grown;
      SameBooks(account);
      if src !in lists { return false; }
      ok := true;
      RemoveList(dst);
      if src in lists {
        ghost var a1 := account;
        Replace(dst, lists[src]);
        ghost var a2 := account;
        Replace(src, []);
        GrownTwice(old(account), a1, a2);
        GrownTwice(old(account), a2, account);
      }
    }

    /**
     * COPY puts a list without waking anyone: a wakeup is lost exactly when somebody waits on the new
     * name. Onto its own name, with REPLACE, the list is deleted.
     */
    method CopyList(src: string, dst: string, replace: bool) returns (ok: bool)
      requires Valid()
      modifies this`lists, this`account
      ensures Sound() && ok == (src in old(lists) && (dst in old(lists) ==> replace))
      ensures !ok ==> unchanged(this)
      ensures ok ==> lists == if src == dst then old(lists) - {src} else old(lists)[dst := old(lists)[src]]
      ensures Valid() <==> !Unheeding(Copy(src, dst, replace), old(lists), waits)
      ensures Grown(old(account), account) && (old(Fair()) ==> Fair())
    {
      hide Balanced, AllFresh, Distinct, Swapped, Once, Known, Orderly, Grown;
      SameBooks(account);
      if src !in lists || (dst in lists && !replace) { return false; }
      ok := true;
      RemoveList(dst);
      if src in lists {
        ghost var a1 := account;
        Replace(dst, lists[src]);
        GrownTwice(old(account), a1, account);
      }
    }
  }

  /** In other words: the first element of the first list, or the last one, and the list is that much shorter. */
  lemma TookFirstMeans(before: map<string, seq<string>>, after: map<string, seq<string>>, keys: seq<string>, left: bool,
      r: (string, string))
    requires TookFirst(before, after, keys, left, r)
    ensures r.0 in keys && At(before, r.0) == if left then [r.1] + At(after, r.0) else At(after, r.0) + [r.1]
    ensures exists i :: 0 <= i < |keys| && keys[i] == r.0 && forall j :: 0 <= j < i ==> keys[j] !in before
  {
    PoppedAt(At(before, r.0), left);
  }

  lemma SameTwice(a: map<string, seq<string>>, b: map<string, seq<string>>, c: map<string, seq<string>>, key: string)
    requires b - {key} == a - {key} && c - {key} == b - {key}
    ensures c - {key} == a - {key}
  {}

  ghost predicate AllFresh(waits: map<string, seq<Waiter>>, done: set<nat>, gone: set<nat>) {
    forall key :: key in waits ==> Fresh(waits[key], done, gone)
  }

  /** What a push of `values` followed by a wakeup does to the invariants, on the maps themselves. */
  lemma PushFacts(lists: map<string, seq<string>>, waits: map<string, seq<Waiter>>, account: map<string, Account>,
                  lists': map<string, seq<string>>, waits': map<string, seq<Waiter>>,
                  key: string, left: bool, values: seq<string>, done: set<nat>, gone: set<nat>)
    requires NoLostWakeup(lists, waits) && Balanced(lists, account)
    requires lists' - {key} == lists - {key} && waits' - {key} == waits - {key}
    requires (key in lists' ==> lists'[key] != []) && (key in waits' ==> waits'[key] != [])
    requires var r := Wake(Pushed(At(lists, key), left, values), At(waits, key), done, gone);
             At(lists', key) == r.list && At(waits', key) == r.waiters
    ensures var r := Wake(Pushed(At(lists, key), left, values), At(waits, key), done, gone);
            && NoLostWakeup(lists', waits')
            && Balanced(lists', account[key := Entered(LedgerAt(account, key), values, multiset{}, r)])
            && (Distinct(waits) && AllFresh(waits, done, gone) ==>
                  r.lost == [] && Distinct(waits') && AllFresh(waits', r.done, gone))
  {
    hide Wake, Pushed, Balances, Fresh, Distinct, Values, NoLostWakeup, Balanced, Entered, AllFresh;
    var a := LedgerAt(account, key);
    var pushed := Pushed(At(lists, key), left, values);
    var r := Wake(pushed, At(waits, key), done, gone);
    LedgerBalances(lists, account, key);
    PushBalances(a, At(lists, key), left, values, At(waits, key), done, gone);
    WakeEnds(pushed, At(waits, key), done, gone);
    BalancedUpdate(lists, lists', account, key, Entered(a, values, multiset{}, r));
    QuietUpdate(lists, waits, lists', waits', key);
    if Distinct(waits) && AllFresh(waits, done, gone) { StillAttentive(waits, waits', key, pushed, done, gone); }
  }

  function Added(given: seq<(nat, string)>, lost: seq<string>, r: Wakeup): Wakeup {
    r.(given := given + r.given, lost := lost + r.lost)
  }

  lemma LedgerBalances(lists: map<string, seq<string>>, account: map<string, Account>, key: string)
    requires Balanced(lists, account)
    ensures Balances(LedgerAt(account, key), At(lists, key))
  {}

  lemma AddedStep(given: seq<(nat, string)>, lost: seq<string>, list: seq<string>, waiters: seq<Waiter>,
      done: set<nat>, gone: set<nat>)
    requires list != [] && waiters != []
    ensures var w, val := waiters[0], End(list, waiters[0].left);
            var tail := Wake(Shorter(list, w.left), waiters[1..], done + {w.id}, gone);
            Added(given, lost, Wake(list, waiters, done, gone)) ==
              if w.id in done || w.id in gone then Added(given, lost + [val], tail)
              else Added(given + [(w.id, val)], lost, tail)
  {
    hide End, Shorter, Wake;
    var w, val := waiters[0], End(list, waiters[0].left);
    var tail := Wake(Shorter(list, w.left), waiters[1..], done + {w.id}, gone);
    WakeStep(list, waiters, done, gone);
    if w.id in done || w.id in gone {
      assert lost + ([val] + tail.lost) == lost + [val] + tail.lost;
    } else {
      assert given + ([(w.id, val)] + tail.given) == given + [(w.id, val)] + tail.given;
    }
  }

  lemma WakeStep(list: seq<string>, waiters: seq<Waiter>, done: set<nat>, gone: set<nat>)
    requires list != [] && waiters != []
    ensures var w, val := waiters[0], End(list, waiters[0].left);
            var tail := Wake(Shorter(list, w.left), waiters[1..], done + {w.id}, gone);
            Wake(list, waiters, done, gone) ==
              if w.id in done || w.id in gone then tail.(lost := [val] + tail.lost)
              else tail.(given := [(w.id, val)] + tail.given)
  {
    hide End, Shorter;
  }

  ghost predicate Balances(a: Account, list: seq<string>) {
    a.entered == multiset(list) + a.popped + multiset(Values(a.handed)) + a.lost
  }

  function Entered(a: Account, entered: seq<string>, popped: multiset<string>, r: Wakeup): Account {
    a.(
      entered := a.entered + multiset(entered), popped := a.popped + popped,
      handed := a.handed + r.given, lost := a.lost + multiset(r.lost))
  }

  lemma PushBalances(a: Account, list: seq<string>, left: bool, values: seq<string>, waiters: seq<Waiter>,
      done: set<nat>, gone: set<nat>)
    requires Balances(a, list)
    ensures var r := Wake(Pushed(list, left, values), waiters, done, gone);
            Balances(Entered(a, values, multiset{}, r), r.list)
  {
    hide Wake, Pushed, Values;
    PushedKeeps(list, left, values);
    WakeConserves(Pushed(list, left, values), waiters, done, gone);
    var r := Wake(Pushed(list, left, values), waiters, done, gone);
    ValuesAppend(a.handed, r.given);
    BalanceCarries(a, multiset(Values(a.handed)), multiset(list), multiset(values), multiset(r.list),
      multiset(Values(r.given)), multiset(r.lost));
  }

  lemma {:induction false} ValuesAppend(a: seq<(nat, string)>, b: seq<(nat, string)>)
    ensures multiset(Values(a + b)) == multiset(Values(a)) + multiset(Values(b))
  {
    if a == [] { assert a + b == b; } else {
      assert (a + b)[1..] == a[1..] + b;
      ValuesAppend(a[1..], b);
    }
  }

  lemma BalanceCarries(a: Account, before: multiset<string>, list: multiset<string>, values: multiset<string>,
      kept: multiset<string>, given: multiset<string>, lost: multiset<string>)
    requires a.entered == list + a.popped + before + a.lost && list + values == kept + given + lost
    ensures a.entered + values == kept + a.popped + (before + given) + (a.lost + lost)
  {
    forall x ensures (a.entered + values)[x] == (kept + a.popped + (before + given) + (a.lost + lost))[x] {
      assert (list + values)[x] == (kept + given + lost)[x];
    }
  }

  /** Waking one key's waiters keeps every waiter attentive, and loses nothing. */
  lemma StillAttentive(waits: map<string, seq<Waiter>>, waits': map<string, seq<Waiter>>, key: string,
      list: seq<string>, done: set<nat>, gone: set<nat>)
    requires Distinct(waits) && AllFresh(waits, done, gone) && waits' - {key} == waits - {key}
    requires At(waits', key) == Wake(list, At(waits, key), done, gone).waiters
    ensures var r := Wake(list, At(waits, key), done, gone);
            r.lost == [] && Distinct(waits') && AllFresh(waits', r.done, gone)
  {
    hide Wake;
    var before := At(waits, key);
    var r := Wake(list, before, done, gone);
    FreshWakeLosesNothing(list, before, done, gone);
    WakeEnds(list, before, done, gone);
    Elsewhere(waits, waits', key);
    forall k | k in waits' ensures Fresh(waits'[k], r.done, gone) {
      if k != key { FreshElsewhere(waits, key, k, done, gone, |r.given|); }
    }
    SuffixDistinct(waits, waits', key);
  }

  lemma {:induction false} FirstIdsAre(waiters: seq<Waiter>, n: nat)
    requires n <= |waiters|
    ensures forall x :: x in FirstIds(waiters, n) ==> exists i :: 0 <= i < |waiters| && waiters[i].id == x
  {
    if n > 0 {
      var rest := waiters[1..];
      FirstIdsAre(rest, n - 1);
      forall x | x in FirstIds(waiters, n) ensures exists i :: 0 <= i < |waiters| && waiters[i].id == x {
        if x != waiters[0].id {
          assert x in FirstIds(rest, n - 1);
          var i :| 0 <= i < |rest| && rest[i].id == x;
          assert waiters[i + 1].id == x;
        } else { assert waiters[0].id == x; }
      }
    }
  }

  lemma FreshElsewhere(waits: map<string, seq<Waiter>>, key: string, k: string, done: set<nat>, gone: set<nat>, n: nat)
    requires Distinct(waits) && k != key && k in waits && Fresh(waits[k], done, gone)
    requires n <= |At(waits, key)|
    ensures Fresh(waits[k], done + FirstIds(At(waits, key), n), gone)
  {
    var before := At(waits, key);
    FirstIdsAre(before, n);
  }

  lemma SuffixDistinct(waits: map<string, seq<Waiter>>, waits': map<string, seq<Waiter>>, key: string)
    requires Distinct(waits)
    requires forall k :: k != key ==> (k in waits' <==> k in waits) && (k in waits ==> waits'[k] == waits[k])
    requires |At(waits', key)| <= |At(waits, key)|
    requires At(waits', key) == At(waits, key)[|At(waits, key)| - |At(waits', key)|..]
    ensures Distinct(waits')
  {
    if key in waits' && waits'[key] != [] {
      forall j | 0 <= j < |waits'[key]| ensures waits'[key][j] == waits[key][|waits[key]| - |waits'[key]| + j] {}
    }
  }

  function Popped(a: Account, val: string): Account {
    a.(popped := a.popped + multiset{val})
  }

  lemma PopFacts(lists: map<string, seq<string>>, waits: map<string, seq<Waiter>>, account: map<string, Account>,
      lists': map<string, seq<string>>, key: string, left: bool)
    requires NoLostWakeup(lists, waits) && Balanced(lists, account) && key in lists && lists[key] != []
    requires lists' - {key} == lists - {key} && At(lists', key) == Shorter(lists[key], left)
    ensures NoLostWakeup(lists', waits)
    ensures Balanced(lists', account[key := Popped(LedgerAt(account, key), End(lists[key], left))])
  {
    hide End, Shorter;
    var a, list := LedgerAt(account, key), lists[key];
    LedgerBalances(lists, account, key);
    EndAndRest(list, left);
    PopBalances(a, list, Shorter(list, left), End(list, left));
    BalancedUpdate(lists, lists', account, key, Popped(a, End(list, left)));
    Elsewhere(lists, lists', key);
  }

  lemma PopBalances(a: Account, list: seq<string>, rest: seq<string>, val: string)
    requires Balances(a, list) && multiset(list) == multiset{val} + multiset(rest)
    ensures Balances(Popped(a, val), rest)
  {
    hide Values;
    var m, n, given := multiset(list), multiset(rest), multiset(Values(a.handed));
    forall x ensures a.entered[x] == (n + (a.popped + multiset{val}) + given + a.lost)[x] {
      assert m[x] == (multiset{val} + n)[x];
    }
  }

  function Swapped(a: Account, before: seq<string>, list: seq<string>): Account {
    a.(entered := a.entered + multiset(list), popped := a.popped + multiset(before))
  }

  lemma SwapFacts(lists: map<string, seq<string>>, account: map<string, Account>, lists': map<string, seq<string>>,
      key: string)
    requires Balanced(lists, account) && lists' - {key} == lists - {key}
    ensures Balanced(lists', account[key := Swapped(LedgerAt(account, key), At(lists, key), At(lists', key))])
  {
    var a := LedgerAt(account, key);
    LedgerBalances(lists, account, key);
    SwapBalances(a, At(lists, key), At(lists', key));
    BalancedUpdate(lists, lists', account, key, Swapped(a, At(lists, key), At(lists', key)));
  }

  lemma SwapBalances(a: Account, before: seq<string>, list: seq<string>)
    requires Balances(a, before)
    ensures Balances(Swapped(a, before, list), list)
  {
    hide Values;
    var given := multiset(Values(a.handed));
    assert a.entered + multiset(list) == multiset(list) + (a.popped + multiset(before)) + given + a.lost;
  }

  lemma NobodyWaits(lists: map<string, seq<string>>, waits: map<string, seq<Waiter>>, key: string)
    requires NoLostWakeup(lists, waits) && At(lists, key) != []
    ensures At(waits, key) == []
  {}

  ghost predicate Unknown(waits: map<string, seq<Waiter>>, id: nat) {
    forall k, i :: k in waits && 0 <= i < |waits[k]| ==> waits[k][i].id != id
  }

  lemma JoinAttentive(waits: map<string, seq<Waiter>>, waits': map<string, seq<Waiter>>, key: string, w: Waiter,
      done: set<nat>, gone: set<nat>)
    requires Distinct(waits) && AllFresh(waits, done, gone) && Unknown(waits, w.id) && w.id !in done && w.id !in gone
    requires waits' - {key} == waits - {key} && At(waits', key) == At(waits, key) + [w]
    ensures Distinct(waits') && AllFresh(waits', done, gone)
  {
    Elsewhere(waits, waits', key);
    var old_, new_ := At(waits, key), At(waits', key);
    assert forall i :: 0 <= i < |new_| ==> new_[i] == if i < |old_| then old_[i] else w;
    assert key in waits' && waits'[key] == new_;
    assert Fresh(new_, done, gone);
  }

  function Without(ws: seq<Waiter>, id: nat): seq<Waiter> {
    if ws == [] then [] else if ws[0].id == id then Without(ws[1..], id) else [ws[0]] + Without(ws[1..], id)
  }

  method FilterOut(ws: seq<Waiter>, id: nat) returns (kept: seq<Waiter>)
    ensures kept == Without(ws, id)
  {
    kept := [];
    assert ws[0..] == ws;
    for i := 0 to |ws|
      invariant kept + Without(ws[i..], id) == Without(ws, id)
    {
      assert ws[i..][1..] == ws[i + 1..];
      if ws[i].id != id { kept := kept + [ws[i]]; }
    }
  }

  lemma {:induction false} WithoutTwice(ws: seq<Waiter>, id: nat)
    ensures Without(Without(ws, id), id) == Without(ws, id)
  {
    if ws != [] {
      WithoutTwice(ws[1..], id);
      if ws[0].id != id { assert Without(ws, id)[1..] == Without(ws[1..], id); }
    }
  }

  /** Leaving a line keeps the others in it, in order. */
  lemma {:induction false} WithoutKeeps(ws: seq<Waiter>, id: nat, done: set<nat>, gone: set<nat>)
    ensures forall w :: w in Without(ws, id) ==> w in ws
    ensures Fresh(ws, done, gone) ==> Fresh(Without(ws, id), done, gone)
  {
    if ws != [] {
      WithoutKeeps(ws[1..], id, done, gone);
      if Fresh(ws, done, gone) {
        FreshTail(ws, done, gone);
        FreshHead(ws, Without(ws[1..], id), done, gone);
      }
    }
  }

  lemma FreshHead(ws: seq<Waiter>, tail: seq<Waiter>, done: set<nat>, gone: set<nat>)
    requires ws != [] && Fresh(ws, done, gone) && Fresh(tail, done, gone) && forall w :: w in tail ==> w in ws[1..]
    ensures Fresh([ws[0]] + tail, done, gone)
  {
    forall j | 0 <= j < |tail| ensures tail[j].id != ws[0].id {
      assert tail[j] in ws[1..];
      var k :| 0 <= k < |ws| - 1 && ws[1..][k] == tail[j];
      assert ws[k + 1] == tail[j];
    }
  }

  lemma FreshTail(ws: seq<Waiter>, done: set<nat>, gone: set<nat>)
    requires ws != [] && Fresh(ws, done, gone)
    ensures Fresh(ws[1..], done, gone)
  {}

  lemma LeaveQuiet(lists: map<string, seq<string>>, waits: map<string, seq<Waiter>>, waits': map<string, seq<Waiter>>,
      key: string, id: nat)
    requires NoLostWakeup(lists, waits) && waits' - {key} == waits - {key}
    requires At(waits', key) == Without(At(waits, key), id)
    requires key in waits' ==> waits'[key] != []
    ensures NoLostWakeup(lists, waits')
  {
    Elsewhere(waits, waits', key);
  }

  lemma LeaveAttentive(waits: map<string, seq<Waiter>>, waits': map<string, seq<Waiter>>, key: string, id: nat,
      done: set<nat>, gone: set<nat>)
    requires Distinct(waits) && AllFresh(waits, done, gone)
    requires waits' - {key} == waits - {key} && At(waits', key) == Without(At(waits, key), id)
    ensures Distinct(waits') && AllFresh(waits', done, gone)
  {
    hide Without, Fresh;
    Elsewhere(waits, waits', key);
    WithoutKeeps(At(waits, key), id, done, gone);
    if key in waits' && waits'[key] != [] {
      WithoutNothing(id);
      assert key in waits;
      forall j | 0 <= j < |waits'[key]| ensures exists i :: 0 <= i < |waits[key]| && waits[key][i] == waits'[key][j] {
        assert waits'[key][j] in waits[key];
      }
    }
    forall k | k in waits' ensures Fresh(waits'[k], done, gone) {
      if k == key && key !in waits { WithoutNothing(id); FreshNothing(done, gone); }
    }
    DistinctSubset(waits, waits', key);
  }

  lemma WithoutNothing(id: nat)
    ensures Without([], id) == []
  {}

  lemma FreshNothing(done: set<nat>, gone: set<nat>)
    ensures Fresh([], done, gone)
  {}

  lemma DistinctSubset(waits: map<string, seq<Waiter>>, waits': map<string, seq<Waiter>>, key: string)
    requires Distinct(waits)
    requires forall k :: k != key ==> (k in waits' <==> k in waits) && (k in waits ==> waits'[k] == waits[k])
    requires forall w :: w in At(waits', key) ==> w in At(waits, key)
    ensures Distinct(waits')
  {
    forall k, l, i, j | k in waits' && l in waits' && 0 <= i < |waits'[k]| && 0 <= j < |waits'[l]| && k != l
      ensures waits'[k][i].id != waits'[l][j].id
    {
      assert waits'[k][i] in At(waits, k) && waits'[l][j] in At(waits, l);
      var a :| 0 <= a < |At(waits, k)| && At(waits, k)[a] == waits'[k][i];
      var b :| 0 <= b < |At(waits, l)| && At(waits, l)[b] == waits'[l][j];
      assert waits[k][a].id != waits[l][b].id;
    }
  }

  // ----- the lines -----

  datatype Act =
    | PushTo(key: string, left: bool, values: seq<string>)
    | PopFrom(key: string, left: bool)
    | Move(src: string, dst: string, srcLeft: bool, dstLeft: bool)
    | Block(keys: seq<string>, left: bool)
    | Unblock(keys: seq<string>, id: nat)
    | StopListening(id: nat)
    | Remove(key: string)
    | Rename(src: string, dst: string)
    | Copy(src: string, dst: string, replace: bool)

  /** A list is put under another name, on which somebody waits. */
  predicate Unheeding(act: Act, lists: map<string, seq<string>>, waits: map<string, seq<Waiter>>) {
    (act.Rename? || act.Copy?) && act.src in lists && act.dst in waits
  }

  /** A client waits on one key at a time, and leaves the line as it stops listening. */
  predicate Polite(act: Act) { !act.StopListening? && (act.Block? ==> |act.keys| == 1) }

  function HandedIds(handed: seq<(nat, string)>): (r: seq<nat>)
    ensures |r| == |handed| && forall i :: 0 <= i < |r| ==> r[i] == handed[i].0
  {
    seq(|handed|, i requires 0 <= i < |handed| => handed[i].0)
  }

  function WaiterIds(ws: seq<Waiter>): (r: seq<nat>)
    ensures |r| == |ws| && forall i :: 0 <= i < |r| ==> r[i] == ws[i].id
  {
    seq(|ws|, i requires 0 <= i < |ws| => ws[i].id)
  }

  /** The sequence without some of its elements. */
  function Except(s: seq<nat>, out: set<nat>): seq<nat> {
    if s == [] then [] else if s[0] in out then Except(s[1..], out) else [s[0]] + Except(s[1..], out)
  }

  function Joining(a: Account, id: nat): Account { a.(joined := a.joined + [id]) }

  function Leaving(a: Account, waiters: seq<Waiter>, id: nat): Account {
    if id in WaiterIds(waiters) then a.(withdrawn := a.withdrawn + {id}) else a
  }

  /** Nobody was handed two elements, on whatever keys; whoever was handed one has been served. */
  ghost predicate Once(account: map<string, Account>, done: set<nat>) {
    && (forall k, i :: k in account && 0 <= i < |account[k].handed| ==> account[k].handed[i].0 in done)
    && (forall k, l, i, j | k in account && l in account && (k != l || i != j)
          :: 0 <= i < |account[k].handed| && 0 <= j < |account[l].handed| ==>
               account[k].handed[i].0 != account[l].handed[j].0)
  }

  /** Every waiter met so far has an identity below `next`. */
  ghost predicate Known(waits: map<string, seq<Waiter>>, done: set<nat>, gone: set<nat>, account: map<string, Account>,
      next: nat) {
    && (forall k, i :: k in waits && 0 <= i < |waits[k]| ==> waits[k][i].id < next)
    && (forall x :: x in done ==> x < next) && (forall x :: x in gone ==> x < next)
    && (forall k, x :: k in account && x in account[k].withdrawn ==> x < next)
  }

  /** Those handed an element, then those waiting: the line as it was joined, but for those who left it. */
  ghost predicate InLine(a: Account, waiters: seq<Waiter>) {
    HandedIds(a.handed) + WaiterIds(waiters) == Except(a.joined, a.withdrawn) && a.lost == multiset{}
  }

  ghost predicate Orderly(waits: map<string, seq<Waiter>>, account: map<string, Account>) {
    waits.Keys <= account.Keys && forall k :: k in account ==> InLine(account[k], At(waits, k))
  }

  /** Hand-outs and registrations are only ever added. */
  ghost predicate Grown(before: map<string, Account>, after: map<string, Account>) {
    forall k :: k in before ==> k in after && before[k].handed <= after[k].handed && before[k].joined <= after[k].joined
  }

  lemma SameBooks(account: map<string, Account>)
    ensures Grown(account, account)
  {}

  lemma GrownTwice(a: map<string, Account>, b: map<string, Account>, c: map<string, Account>)
    requires Grown(a, b) && Grown(b, c)
    ensures Grown(a, c)
  {}

  lemma {:induction false} ExceptAppend(s: seq<nat>, t: seq<nat>, out: set<nat>)
    ensures Except(s + t, out) == Except(s, out) + Except(t, out)
  {
    if s == [] { assert s + t == t; } else {
      assert (s + t)[1..] == s[1..] + t;
      ExceptAppend(s[1..], t, out);
    }
  }

  lemma {:induction false} ExceptOneMore(s: seq<nat>, out: set<nat>, id: nat)
    ensures Except(s, out + {id}) == Except(Except(s, out), {id})
  {
    if s != [] {
      ExceptOneMore(s[1..], out, id);
      if s[0] !in out { assert Except(s, out)[1..] == Except(s[1..], out); }
    }
  }

  lemma {:induction false} ExceptAbsent(s: seq<nat>, id: nat)
    requires id !in s
    ensures Except(s, {id}) == s
  {
    if s != [] { ExceptAbsent(s[1..], id); }
  }

  lemma {:induction false} WithoutIds(ws: seq<Waiter>, id: nat)
    ensures WaiterIds(Without(ws, id)) == Except(WaiterIds(ws), {id})
  {
    if ws != [] {
      WithoutIds(ws[1..], id);
      assert WaiterIds(ws)[1..] == WaiterIds(ws[1..]);
    }
  }

  /** Whoever is handed an element was not served before, is now, and is handed no other one. */
  lemma {:induction false} GivenFacts(list: seq<string>, waiters: seq<Waiter>, done: set<nat>, gone: set<nat>)
    ensures var r := Wake(list, waiters, done, gone);
            && done <= r.done && (forall x :: x in r.done ==> x in done || x in WaiterIds(waiters))
            && (forall i :: 0 <= i < |r.given| ==> r.given[i].0 !in done && r.given[i].0 in r.done)
            && (forall i, j :: 0 <= i < j < |r.given| ==> r.given[i].0 != r.given[j].0)
    decreases |waiters|
  {
    hide End, Shorter;
    if list != [] && waiters != [] {
      var w, rest := waiters[0], waiters[1..];
      GivenFacts(Shorter(list, w.left), rest, done + {w.id}, gone);
      var r, tail := Wake(list, waiters, done, gone), Wake(Shorter(list, w.left), rest, done + {w.id}, gone);
      assert WaiterIds(waiters) == [w.id] + WaiterIds(rest);
      if !(w.id in done || w.id in gone) {
        assert forall i :: 0 < i < |r.given| ==> r.given[i] == tail.given[i - 1];
      }
    }
  }

  lemma HandedOnce(account: map<string, Account>, key: string, values: seq<string>, list: seq<string>,
      waiters: seq<Waiter>, done: set<nat>, gone: set<nat>)
    requires Once(account, done)
    ensures var r := Wake(list, waiters, done, gone);
            var account' := account[key := Entered(LedgerAt(account, key), values, multiset{}, r)];
            Once(account', r.done) && Grown(account, account')
  {
    hide Wake;
    var r := Wake(list, waiters, done, gone);
    GivenFacts(list, waiters, done, gone);
    var a := LedgerAt(account, key);
    var account' := account[key := Entered(a, values, multiset{}, r)];
    var h := account'[key].handed;
    assert forall i :: 0 <= i < |h| ==> h[i] == if i < |a.handed| then a.handed[i] else r.given[i - |a.handed|];
    forall k, i | k in account' && 0 <= i < |account'[k].handed| ensures account'[k].handed[i].0 in r.done {
      if k == key && i >= |a.handed| { assert r.given[i - |a.handed|].0 in r.done; }
    }
  }

  lemma WokenKnown(waits: map<string, seq<Waiter>>, waits': map<string, seq<Waiter>>, account: map<string, Account>,
      key: string, values: seq<string>, list: seq<string>, done: set<nat>, gone: set<nat>, next: nat)
    requires Known(waits, done, gone, account, next) && waits' - {key} == waits - {key}
    requires At(waits', key) == Wake(list, At(waits, key), done, gone).waiters
    ensures var r := Wake(list, At(waits, key), done, gone);
            Known(waits', r.done, gone, account[key := Entered(LedgerAt(account, key), values, multiset{}, r)], next)
  {
    hide Wake, Known;
    var before, r := At(waits, key), Wake(list, At(waits, key), done, gone);
    KnownAt(waits, done, gone, account, next, key);
    GivenFacts(list, before, done, gone);
    WakeEnds(list, before, done, gone);
    KnownUpdate(waits, waits', account, key, Entered(LedgerAt(account, key), values, multiset{}, r), done, r.done, gone,
      next);
  }

  lemma KnownAt(waits: map<string, seq<Waiter>>, done: set<nat>, gone: set<nat>, account: map<string, Account>,
      next: nat, key: string)
    requires Known(waits, done, gone, account, next)
    ensures forall i :: 0 <= i < |At(waits, key)| ==> At(waits, key)[i].id < next
    ensures forall x :: x in done ==> x < next
  {}

  lemma KnownUpdate(waits: map<string, seq<Waiter>>, waits': map<string, seq<Waiter>>, account: map<string, Account>,
      key: string, a: Account, done: set<nat>, done': set<nat>, gone: set<nat>, next: nat)
    requires Known(waits, done, gone, account, next) && waits' - {key} == waits - {key}
    requires forall i :: 0 <= i < |At(waits', key)| ==> At(waits', key)[i].id < next
    requires (forall x :: x in done' ==> x < next) && a.withdrawn == LedgerAt(account, key).withdrawn
    ensures Known(waits', done', gone, account[key := a], next)
  {
    Elsewhere(waits, waits', key);
    forall k, i | k in waits' && 0 <= i < |waits'[k]| ensures waits'[k][i].id < next {
      if k == key { assert waits'[k][i] == At(waits', key)[i]; } else { assert waits'[k] == waits[k]; }
    }
    var account' := account[key := a];
    forall k, x | k in account' && x in account'[k].withdrawn ensures x < next {
      if k == key { assert x in LedgerAt(account, key).withdrawn && key in account; }
    }
  }

  lemma OrderlyUpdate(waits: map<string, seq<Waiter>>, waits': map<string, seq<Waiter>>, account: map<string, Account>,
      key: string, a: Account)
    requires Orderly(waits, account) && waits' - {key} == waits - {key} && InLine(a, At(waits', key))
    ensures Orderly(waits', account[key := a])
  {
    hide InLine;
    Elsewhere(waits, waits', key);
  }

  lemma LineOf(waits: map<string, seq<Waiter>>, account: map<string, Account>, key: string)
    requires Orderly(waits, account)
    ensures InLine(LedgerAt(account, key), At(waits, key))
  {}

  lemma FreshAt(waits: map<string, seq<Waiter>>, key: string, done: set<nat>, gone: set<nat>)
    requires AllFresh(waits, done, gone)
    ensures Fresh(At(waits, key), done, gone)
  {}

  lemma SameHanded(account: map<string, Account>, key: string, a: Account, done: set<nat>)
    requires Once(account, done) && a.handed == LedgerAt(account, key).handed
    ensures Once(account[key := a], done)
  {}

  /** The first in line are handed an element each. */
  lemma WokenInLine(a: Account, values: seq<string>, list: seq<string>, before: seq<Waiter>, done: set<nat>,
      gone: set<nat>)
    requires InLine(a, before) && Fresh(before, done, gone)
    ensures var r := Wake(list, before, done, gone);
            InLine(Entered(a, values, multiset{}, r), r.waiters)
  {
    hide Wake, Fresh, Except, HandedIds, WaiterIds;
    var r := Wake(list, before, done, gone);
    FreshWakeLosesNothing(list, before, done, gone);
    WakeEnds(list, before, done, gone);
    MovedUp(a.handed, r.given, before, r.waiters);
    assert multiset(r.lost) == multiset{};
  }

  lemma MovedUp(handed: seq<(nat, string)>, given: seq<(nat, string)>, before: seq<Waiter>, rest: seq<Waiter>)
    requires |given| + |rest| == |before| && rest == before[|given|..]
    requires forall i :: 0 <= i < |given| ==> given[i].0 == before[i].id
    ensures HandedIds(handed + given) + WaiterIds(rest) == HandedIds(handed) + WaiterIds(before)
  {
    hide HandedIds, WaiterIds;
    var a, b := HandedIds(handed + given) + WaiterIds(rest), HandedIds(handed) + WaiterIds(before);
    forall i | 0 <= i < |a| ensures a[i] == b[i] {
      if i >= |handed| + |given| { assert rest[i - |handed| - |given|] == before[i - |handed|]; }
    }
  }

  lemma WokenOrderly(waits: map<string, seq<Waiter>>, waits': map<string, seq<Waiter>>, account: map<string, Account>,
      key: string, values: seq<string>, list: seq<string>, done: set<nat>, gone: set<nat>)
    requires Orderly(waits, account) && AllFresh(waits, done, gone) && waits' - {key} == waits - {key}
    requires At(waits', key) == Wake(list, At(waits, key), done, gone).waiters
    ensures var r := Wake(list, At(waits, key), done, gone);
            Orderly(waits', account[key := Entered(LedgerAt(account, key), values, multiset{}, r)])
  {
    hide Wake, Fresh, InLine, Orderly, Entered, AllFresh;
    LineOf(waits, account, key);
    FreshAt(waits, key, done, gone);
    WokenInLine(LedgerAt(account, key), values, list, At(waits, key), done, gone);
    var r := Wake(list, At(waits, key), done, gone);
    OrderlyUpdate(waits, waits', account, key, Entered(LedgerAt(account, key), values, multiset{}, r));
  }

  lemma PoppedBooks(waits: map<string, seq<Waiter>>, account: map<string, Account>, key: string, val: string,
      done: set<nat>, gone: set<nat>, next: nat)
    requires Once(account, done) && Known(waits, done, gone, account, next)
    ensures var account' := account[key := Popped(LedgerAt(account, key), val)];
            && Once(account', done) && Known(waits, done, gone, account', next) && Grown(account, account')
            && (Orderly(waits, account) ==> Orderly(waits, account'))
  {
    hide Once, Orderly;
    var a := Popped(LedgerAt(account, key), val);
    SameHanded(account, key, a, done);
    if Orderly(waits, account) {
      LineOf(waits, account, key);
      OrderlyUpdate(waits, waits, account, key, a);
    }
  }

  lemma SwappedBooks(waits: map<string, seq<Waiter>>, account: map<string, Account>, key: string, before: seq<string>,
      list: seq<string>, done: set<nat>, gone: set<nat>, next: nat)
    requires Once(account, done) && Known(waits, done, gone, account, next)
    ensures var account' := account[key := Swapped(LedgerAt(account, key), before, list)];
            && Once(account', done) && Known(waits, done, gone, account', next) && Grown(account, account')
            && (Orderly(waits, account) ==> Orderly(waits, account'))
  {
    hide Once, Orderly;
    var a := Swapped(LedgerAt(account, key), before, list);
    SameHanded(account, key, a, done);
    if Orderly(waits, account) {
      LineOf(waits, account, key);
      OrderlyUpdate(waits, waits, account, key, a);
    }
  }

  lemma KnownLater(waits: map<string, seq<Waiter>>, done: set<nat>, gone: set<nat>, account: map<string, Account>,
      next: nat)
    requires Known(waits, done, gone, account, next)
    ensures Known(waits, done, gone, account, next + 1)
  {}

  lemma JoinedBooks(lists: map<string, seq<string>>, waits: map<string, seq<Waiter>>, waits': map<string, seq<Waiter>>,
      account: map<string, Account>, key: string, w: Waiter, done: set<nat>, gone: set<nat>, next: nat)
    requires Balanced(lists, account) && Once(account, done) && Known(waits, done, gone, account, next) && w.id < next
    requires waits' - {key} == waits - {key} && At(waits', key) == At(waits, key) + [w]
    ensures var account' := account[key := Joining(LedgerAt(account, key), w.id)];
            && Balanced(lists, account') && Once(account', done) && Known(waits', done, gone, account', next)
            && Grown(account, account')
  {
    hide Values, Once, Balanced;
    var a := Joining(LedgerAt(account, key), w.id);
    LedgerBalances(lists, account, key);
    BalancedUpdate(lists, lists, account, key, a);
    SameHanded(account, key, a, done);
    Elsewhere(waits, waits', key);
    var ws := At(waits', key);
    assert forall i :: 0 <= i < |ws| ==> ws[i] == if i < |ws| - 1 then At(waits, key)[i] else w;
  }

  lemma LeavingBooks(lists: map<string, seq<string>>, waits: map<string, seq<Waiter>>, waits': map<string, seq<Waiter>>,
      account: map<string, Account>, key: string, id: nat, done: set<nat>, gone: set<nat>, next: nat)
    requires Balanced(lists, account) && Once(account, done) && Known(waits, done, gone, account, next) && id < next
    requires waits' - {key} == waits - {key} && At(waits', key) == Without(At(waits, key), id)
    ensures var account' := account[key := Leaving(LedgerAt(account, key), At(waits, key), id)];
            && Balanced(lists, account') && Once(account', done) && Known(waits', done, gone, account', next)
            && Grown(account, account')
  {
    hide Values, Without, Once, Balanced, Known;
    var a := Leaving(LedgerAt(account, key), At(waits, key), id);
    LedgerBalances(lists, account, key);
    BalancedUpdate(lists, lists, account, key, a);
    SameHanded(account, key, a, done);
    LeftKnown(waits, waits', account, key, id, done, gone, next);
  }

  lemma LeftKnown(waits: map<string, seq<Waiter>>, waits': map<string, seq<Waiter>>, account: map<string, Account>,
      key: string, id: nat, done: set<nat>, gone: set<nat>, next: nat)
    requires Known(waits, done, gone, account, next) && id < next
    requires waits' - {key} == waits - {key} && At(waits', key) == Without(At(waits, key), id)
    ensures Known(waits', done, gone, account[key := Leaving(LedgerAt(account, key), At(waits, key), id)], next)
  {
    hide Without, Fresh;
    Elsewhere(waits, waits', key);
    WithoutKeeps(At(waits, key), id, done, gone);
    var ws := At(waits', key);
    forall i | 0 <= i < |ws| ensures ws[i].id < next { assert ws[i] in At(waits, key); }
  }

  lemma JoinInLine(a: Account, before: seq<Waiter>, w: Waiter)
    requires InLine(a, before) && w.id !in a.withdrawn
    ensures InLine(Joining(a, w.id), before + [w])
  {
    hide Except;
    ExceptAppend(a.joined, [w.id], a.withdrawn);
    ExceptOne(w.id, a.withdrawn);
    assert WaiterIds(before + [w]) == WaiterIds(before) + [w.id];
  }

  lemma ExceptOne(id: nat, out: set<nat>)
    requires id !in out
    ensures Except([id], out) == [id]
  {
    assert [id][1..] == [];
  }

  lemma NewIsUnknown(waits: map<string, seq<Waiter>>, done: set<nat>, gone: set<nat>, account: map<string, Account>,
      key: string, id: nat)
    requires Known(waits, done, gone, account, id)
    ensures Unknown(waits, id) && id !in done && id !in gone && id !in LedgerAt(account, key).withdrawn
  {}

  /** Joining one line with a new identity. */
  lemma JoinFair(waits: map<string, seq<Waiter>>, waits': map<string, seq<Waiter>>, account: map<string, Account>,
      key: string, w: Waiter, done: set<nat>, gone: set<nat>)
    requires Distinct(waits) && AllFresh(waits, done, gone) && Orderly(waits, account)
    requires Known(waits, done, gone, account, w.id)
    requires waits' - {key} == waits - {key} && At(waits', key) == At(waits, key) + [w]
    ensures Distinct(waits') && AllFresh(waits', done, gone)
    ensures Orderly(waits', account[key := Joining(LedgerAt(account, key), w.id)])
  {
    hide Distinct, AllFresh, Known, Unknown, InLine, Orderly, Joining;
    NewIsUnknown(waits, done, gone, account, key, w.id);
    JoinAttentive(waits, waits', key, w, done, gone);
    LineOf(waits, account, key);
    JoinInLine(LedgerAt(account, key), At(waits, key), w);
    OrderlyUpdate(waits, waits', account, key, Joining(LedgerAt(account, key), w.id));
  }

  lemma LeaveInLine(a: Account, before: seq<Waiter>, id: nat)
    requires InLine(a, before) && (id in WaiterIds(before) ==> id !in HandedIds(a.handed))
    ensures InLine(Leaving(a, before, id), Without(before, id))
  {
    hide Without, Except;
    WithoutIds(before, id);
    if id in WaiterIds(before) {
      ExceptOneMore(a.joined, a.withdrawn, id);
      ExceptAppend(HandedIds(a.handed), WaiterIds(before), {id});
      ExceptAbsent(HandedIds(a.handed), id);
    } else {
      ExceptAbsent(WaiterIds(before), id);
    }
  }

  lemma WaitingNotHanded(waits: map<string, seq<Waiter>>, account: map<string, Account>, key: string, id: nat,
      done: set<nat>, gone: set<nat>)
    requires AllFresh(waits, done, gone) && Once(account, done) && id in WaiterIds(At(waits, key))
    ensures id !in HandedIds(LedgerAt(account, key).handed)
  {
    FreshAt(waits, key, done, gone);
  }

  /** Leaving a line before one is served. */
  lemma LeaveFair(waits: map<string, seq<Waiter>>, waits': map<string, seq<Waiter>>, account: map<string, Account>,
      key: string, id: nat, done: set<nat>, gone: set<nat>)
    requires Distinct(waits) && AllFresh(waits, done, gone) && Orderly(waits, account) && Once(account, done)
    requires waits' - {key} == waits - {key} && At(waits', key) == Without(At(waits, key), id)
    ensures Distinct(waits') && AllFresh(waits', done, gone)
    ensures Orderly(waits', account[key := Leaving(LedgerAt(account, key), At(waits, key), id)])
  {
    hide Distinct, AllFresh, Once, InLine, Orderly, Leaving, Without;
    LeaveAttentive(waits, waits', key, id, done, gone);
    var a, before := LedgerAt(account, key), At(waits, key);
    LineOf(waits, account, key);
    if id in WaiterIds(before) { WaitingNotHanded(waits, account, key, id, done, gone); }
    LeaveInLine(a, before, id);
    OrderlyUpdate(waits, waits', account, key, Leaving(a, before, id));
  }
}
