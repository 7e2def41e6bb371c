/**
 * The reliable queue (internal/store/queue.go): messages wait, are handed out for processing,
 * and are acknowledged, retried or dead-lettered. Every call is shown to take steps of a small
 * per-message life cycle, and what the queue promises is proved about all runs of that cycle.
 */
module ReliableQueue {
  import opened Common
  import opened Sums

  /** Unique: the counter is incremented atomically for every message. */
  datatype Id = Id(ms: int, serial: nat)

  datatype Message = Message(id: Id, body: string, createdAt: int, retries: nat, maxRetry: int, ackDeadline: int)

  // ----- the life cycle of messages -----

  /** Where a message is, and how often it has failed so far. */
  datatype Place = Waiting(fails: nat) | Busy(fails: nat) | Dead(fails: nat) | Acked(fails: nat)

  datatype Event = Enqueued(id: Id) | Dequeued(id: Id) | Acknowledged(id: Id) | Failed(id: Id)

  type Places = map<Id, Place>

  predicate Allowed(p: Places, e: Event) {
    match e
    case Enqueued(id) => id !in p
    case Dequeued(id) => id in p && p[id].Waiting?
    case Acknowledged(id) => id in p && p[id].Busy?
    case Failed(id) => id in p && p[id].Busy?
  }

  function Step(p: Places, e: Event, max: nat): Places
    requires Allowed(p, e)
  {
    match e
    case Enqueued(id) => p[id := Waiting(0)]
    case Dequeued(id) => p[id := Busy(p[id].fails)]
    case Acknowledged(id) => p[id := Acked(p[id].fails)]
    case Failed(id) =>
      var fails := p[id].fails + 1;
      p[id := if fails >= max then Dead(fails) else Waiting(fails)]
  }

  /** A sequence of events, in order of time, that the life cycle allows. */
  ghost predicate IsHistory(h: seq<Event>, max: nat)
    decreases |h|, 0
  {
    h == [] || (IsHistory(Init(h), max) && Allowed(After(Init(h), max), Last(h)))
  }

  ghost function After(h: seq<Event>, max: nat): Places
    requires IsHistory(h, max)
    decreases |h|, 1
  {
    if h == [] then map[] else Step(After(Init(h), max), Last(h), max)
  }

  function Init(h: seq<Event>): seq<Event> requires h != [] { h[..|h| - 1] }
  function Last(h: seq<Event>): Event requires h != [] { h[|h| - 1] }

  function Times(h: seq<Event>, e: Event): nat {
    if h == [] then 0 else Times(Init(h), e) + if Last(h) == e then 1 else 0
  }

  function Dequeues(h: seq<Event>): nat {
    if h == [] then 0 else Dequeues(Init(h)) + if Last(h).Dequeued? then 1 else 0
  }

  function Enqueues(h: seq<Event>): nat {
    if h == [] then 0 else Enqueues(Init(h)) + if Last(h).Enqueued? then 1 else 0
  }

  /** How often a message in this place has been handed out. */
  function Handed(p: Place): nat {
    if p.Busy? || p.Acked? then p.fails + 1 else p.fails
  }

  ghost predicate Sound(p: Place, max: nat) {
    if p.Dead? then p.fails == max else p.fails < max
  }

  /**
   * Over every history: a message has been handed out as often as its place says, never more
   * than `max` times, and it is dead exactly when it has failed `max` times.
   */
  lemma {:induction false} HistoryOfMessage(h: seq<Event>, max: nat, id: Id)
    requires max >= 1 && IsHistory(h, max)
    ensures var p := After(h, max);
            if id in p then
              && Times(h, Dequeued(id)) == Handed(p[id]) <= max
              && Times(h, Failed(id)) == p[id].fails && Sound(p[id], max)
              && (p[id].Dead? <==> Times(h, Failed(id)) == max)
            else
              Times(h, Dequeued(id)) == 0 == Times(h, Failed(id))
  {
    if h != [] { HistoryOfMessage(Init(h), max, id); }
  }

  ghost function HandedMap(p: Places): map<Id, int> {
    map id | id in p :: Handed(p[id])
  }

  lemma {:induction false} HistoryTotals(h: seq<Event>, max: nat)
    requires IsHistory(h, max)
    ensures Dequeues(h) == Sum(HandedMap(After(h, max))) && Enqueues(h) == |After(h, max)|
  {
    if h != [] {
      HistoryTotals(Init(h), max);
      StepTotals(After(Init(h), max), Last(h), max);
    }
  }

  lemma StepTotals(p: Places, e: Event, max: nat)
    requires Allowed(p, e)
    ensures Sum(HandedMap(Step(p, e, max))) == Sum(HandedMap(p)) + if e.Dequeued? then 1 else 0
    ensures |Step(p, e, max)| == |p| + if e.Enqueued? then 1 else 0
  {
    hide Sum, HandedMap;
    var p' := Step(p, e, max);
    SumUpdate(HandedMap(p), e.id, Handed(p'[e.id]));
    HandedUpdate(p, e.id, p'[e.id]);
    KeyCount(p, e.id, p'[e.id]);
  }

  lemma HandedUpdate(p: Places, id: Id, place: Place)
    ensures HandedMap(p[id := place]) == HandedMap(p)[id := Handed(place)]
    ensures id in HandedMap(p) <==> id in p
    ensures id in p ==> HandedMap(p)[id] == Handed(p[id])
  {}

  lemma KeyCount(p: Places, id: Id, place: Place)
    ensures |p[id := place]| == |p| + if id in p then 0 else 1
  {
    var p' := p[id := place];
    if id in p { assert p'.Keys == p.Keys; } else { assert p'.Keys == p.Keys + {id}; }
    assert |p'| == |p'.Keys| && |p| == |p.Keys|;
  }

  /** There are at most `max` successful dequeues per message ever enqueued. */
  lemma DequeuesBounded(h: seq<Event>, max: nat)
    requires max >= 1 && IsHistory(h, max)
    ensures Dequeues(h) <= max * Enqueues(h)
  {
    HistoryTotals(h, max);
    var p := After(h, max);
    forall id | id in p ensures 0 <= Handed(p[id]) <= max { HistoryOfMessage(h, max, id); }
    SumAtMost(HandedMap(p), max);
    assert HandedMap(p).Keys == p.Keys;
    assert |HandedMap(p)| == |HandedMap(p).Keys| && |p| == |p.Keys|;
  }

  // ----- the queue -----

  ghost predicate NoDuplicates(s: seq<Message>) {
    forall i, j :: 0 <= i < j < |s| ==> s[i].id != s[j].id
  }

  /** A container holds exactly the messages in the given places, with their failure counts. */
  ghost predicate HoldsWaiting(s: seq<Message>, p: Places) {
    && NoDuplicates(s)
    && (forall i :: 0 <= i < |s| ==> s[i].id in p && p[s[i].id] == Waiting(s[i].retries))
    && (forall id :: id in p && p[id].Waiting? ==> exists i :: 0 <= i < |s| && s[i].id == id)
  }

  ghost predicate HoldsDead(s: seq<Message>, p: Places) {
    && NoDuplicates(s)
    && (forall i :: 0 <= i < |s| ==> s[i].id in p && p[s[i].id] == Dead(s[i].retries))
    && (forall id :: id in p && p[id].Dead? ==> exists i :: 0 <= i < |s| && s[i].id == id)
  }

  ghost predicate HoldsBusy(m: map<Id, Message>, p: Places) {
    && (forall id :: id in m ==> m[id].id == id && id in p && p[id] == Busy(m[id].retries))
    && (forall id :: id in p && p[id].Busy? ==> id in m)
  }

  lemma WaitingAdded(s: seq<Message>, p: Places, m: Message)
    requires HoldsWaiting(s, p) && (m.id in p ==> !p[m.id].Waiting?)
    ensures HoldsWaiting(s + [m], p[m.id := Waiting(m.retries)])
  {
    var t := s + [m];
    var p' := p[m.id := Waiting(m.retries)];
    assert t[|s|] == m;
    forall id | id in p' && p'[id].Waiting? ensures exists i :: 0 <= i < |t| && t[i].id == id {
      if id != m.id {
        var i :| 0 <= i < |s| && s[i].id == id;
        assert t[i] == s[i];
      }
    }
  }

  lemma WaitingTaken(s: seq<Message>, p: Places, k: nat, place: Place)
    requires HoldsWaiting(s, p) && k < |s| && !place.Waiting?
    ensures HoldsWaiting(s[..k] + s[k + 1..], p[s[k].id := place])
  {
    var t := s[..k] + s[k + 1..];
    var p' := p[s[k].id := place];
    assert forall i :: 0 <= i < |t| ==> t[i] == s[if i < k then i else i + 1];
    forall id | id in p' && p'[id].Waiting? ensures exists i :: 0 <= i < |t| && t[i].id == id {
      var i :| 0 <= i < |s| && s[i].id == id;
      assert t[if i < k then i else i - 1] == s[i];
    }
  }

  lemma WaitingKept(s: seq<Message>, p: Places, id: Id, place: Place)
    requires HoldsWaiting(s, p) && (id in p ==> !p[id].Waiting?) && !place.Waiting?
    ensures HoldsWaiting(s, p[id := place])
  {}

  lemma DeadAdded(s: seq<Message>, p: Places, m: Message)
    requires HoldsDead(s, p) && (m.id in p ==> !p[m.id].Dead?)
    ensures HoldsDead(s + [m], p[m.id := Dead(m.retries)])
  {
    var t := s + [m];
    var p' := p[m.id := Dead(m.retries)];
    assert t[|s|] == m;
    forall id | id in p' && p'[id].Dead? ensures exists i :: 0 <= i < |t| && t[i].id == id {
      if id != m.id {
        var i :| 0 <= i < |s| && s[i].id == id;
        assert t[i] == s[i];
      }
    }
  }

  lemma DeadKept(s: seq<Message>, p: Places, id: Id, place: Place)
    requires HoldsDead(s, p) && (id in p ==> !p[id].Dead?) && !place.Dead?
    ensures HoldsDead(s, p[id := place])
  {}

  lemma BusySet(m: map<Id, Message>, p: Places, x: Message)
    requires HoldsBusy(m, p)
    ensures HoldsBusy(m[x.id := x], p[x.id := Busy(x.retries)])
  {}

  lemma BusyGone(m: map<Id, Message>, p: Places, id: Id, place: Place)
    requires HoldsBusy(m, p) && !place.Busy?
    ensures HoldsBusy(m - {id}, p[id := place])
  {}

  /** One more failure: on the last permitted one the message is dead, otherwise it rejoins the line, due at once. */
  ghost predicate MovedOn(m: Message, now: int, max: nat, line: seq<Message>, line': seq<Message>, dead: seq<Message>,
      dead': seq<Message>) {
    var failed := m.(retries := m.retries + 1);
    if failed.retries >= max
    then dead' == dead + [failed] && line' == line
    else line' == line + [failed.(createdAt := now)] && dead' == dead
  }

  /**
   * Where the messages that failed, in the order visited, go: some rejoin the line, due at once, the
   * others are dead.
   */
  ghost function Rejoining(busy: map<Id, Message>, ids: seq<Id>, now: int, max: nat): seq<Message>
    requires forall i :: 0 <= i < |ids| ==> ids[i] in busy
  {
    if ids == [] then [] else
      var m := busy[ids[|ids| - 1]];
      Rejoining(busy, ids[..|ids| - 1], now, max) +
        if m.retries + 1 >= max then [] else [m.(retries := m.retries + 1, createdAt := now)]
  }

  ghost function Dying(busy: map<Id, Message>, ids: seq<Id>, max: nat): seq<Message>
    requires forall i :: 0 <= i < |ids| ==> ids[i] in busy
  {
    if ids == [] then [] else
      var m := busy[ids[|ids| - 1]];
      Dying(busy, ids[..|ids| - 1], max) + if m.retries + 1 >= max then [m.(retries := m.retries + 1)] else []
  }

  ghost function Failures(ids: seq<Id>): seq<Event> { seq(|ids|, i requires 0 <= i < |ids| => Failed(ids[i])) }

  /** The messages past their deadline, each once, in some order. */
  ghost predicate ListsExpired(ids: seq<Id>, busy: map<Id, Message>, now: int) {
    && (forall i, j :: 0 <= i < j < |ids| ==> ids[i] != ids[j])
    && (forall i :: 0 <= i < |ids| ==> ids[i] in busy)
    && (forall id :: id in busy ==> (id in ids <==> busy[id].ackDeadline < now))
  }

  function InTime(busy: map<Id, Message>, now: int): map<Id, Message> {
    map id | id in busy && now <= busy[id].ackDeadline :: busy[id]
  }

  lemma OneMoreFailed(busy: map<Id, Message>, ids: seq<Id>, id: Id, now: int, max: nat, line: seq<Message>,
      line': seq<Message>, dead: seq<Message>, dead': seq<Message>, line0: seq<Message>, dead0: seq<Message>)
    requires id in busy && forall i :: 0 <= i < |ids| ==> ids[i] in busy
    requires line == line0 + Rejoining(busy, ids, now, max) && dead == dead0 + Dying(busy, ids, max)
    requires MovedOn(busy[id], now, max, line, line', dead, dead')
    ensures forall i :: 0 <= i < |ids + [id]| ==> (ids + [id])[i] in busy
    ensures line' == line0 + Rejoining(busy, ids + [id], now, max) && dead' == dead0 + Dying(busy, ids + [id], max)
    ensures Failures(ids + [id]) == Failures(ids) + [Failed(id)]
  {
    assert (ids + [id])[..|ids|] == ids;
  }

  /** The sweep so far: `busy` is what is left of `all`, `failed` what left it, `todo` what is still to be visited. */
  ghost predicate Sweeping(all: map<Id, Message>, busy: map<Id, Message>, todo: set<Id>, failed: seq<Id>, now: int) {
    && todo <= busy.Keys && (forall id :: id in busy ==> id in all && busy[id] == all[id])
    && (forall id :: id in all ==> (id in busy <==> id !in failed))
    && (forall i, j :: 0 <= i < j < |failed| ==> failed[i] != failed[j])
    && (forall i :: 0 <= i < |failed| ==> failed[i] in all && all[failed[i]].ackDeadline < now)
    && (forall id :: id in busy && id !in todo ==> now <= busy[id].ackDeadline)
  }

  lemma SweepOne(all: map<Id, Message>, busy: map<Id, Message>, todo: set<Id>, failed: seq<Id>, now: int, id: Id)
    requires Sweeping(all, busy, todo, failed, now) && id in todo
    ensures id in busy && id in all && busy[id] == all[id] && forall i :: 0 <= i < |failed| ==> failed[i] in all
    ensures if busy[id].ackDeadline < now then Sweeping(all, busy - {id}, todo - {id}, failed + [id], now)
            else Sweeping(all, busy, todo - {id}, failed, now)
  {}

  lemma SweepStarts(all: map<Id, Message>, now: int, max: nat)
    ensures Sweeping(all, all, all.Keys, [], now)
    ensures Failures([]) == [] && Rejoining(all, [], now, max) == [] == Dying(all, [], max)
  {}

  lemma SweepOver(all: map<Id, Message>, busy: map<Id, Message>, failed: seq<Id>, now: int)
    requires Sweeping(all, busy, {}, failed, now)
    ensures ListsExpired(failed, all, now) && busy == InTime(all, now)
  {}

  class Queue {
    var pending: seq<Message>
    var processing: map<Id, Message>
    var deadLetter: seq<Message>
    const ackTimeout: int
    const maxRetries: nat
    /** Every enqueue, hand-out, acknowledgement and failure so far. */
    ghost var history: seq<Event>

    /** Every message ever enqueued is in exactly one place, and each container holds exactly its own. */
    ghost predicate Valid() reads this {
      && maxRetries >= 1 && IsHistory(history, maxRetries)
      && HoldsWaiting(pending, Where()) && HoldsBusy(processing, Where()) && HoldsDead(deadLetter, Where())
      && (forall i :: 0 <= i < |pending| ==> pending[i].maxRetry == maxRetries)
      && (forall id :: id in processing ==> processing[id].maxRetry == maxRetries)
    }

    ghost function Where(): Places
      reads this
    {
      if IsHistory(history, maxRetries) then After(history, maxRetries) else map[]
    }

    constructor ()
      ensures Valid() && history == [] && maxRetries == 3 && ackTimeout == 300_000_000_000
    {
      pending, processing, deadLetter := [], map[], [];
      ackTimeout, maxRetries := 300_000_000_000, 3;
      history := [];
    }

    ghost method Record(e: Event)
      requires IsHistory(history, maxRetries) && Allowed(Where(), e)
      modifies this`history
      ensures history == old(history) + [e] && IsHistory(history, maxRetries)
      ensures Where() == Step(old(Where()), e, maxRetries)
    {
      history := history + [e];
      assert Init(history) == old(history);
    }

    method Enqueue(id: Id, body: string, delay: int, now: int)
      requires Valid() && id !in Where()
      modifies this
      ensures Valid() && history == old(history) + [Enqueued(id)] && Where().Keys == old(Where()).Keys + {id}
      ensures pending == old(pending) + [Message(id, body, if delay > 0 then now + delay else now, 0, maxRetries, 0)]
      ensures processing == old(processing) && deadLetter == old(deadLetter)
    {
      hide IsHistory, After, HoldsWaiting, HoldsBusy, HoldsDead;
      var msg := Message(id, body, now, 0, maxRetries, 0);
      if delay > 0 { msg := msg.(createdAt := now + delay); }
      WaitingAdded(pending, Where(), msg);
      DeadKept(deadLetter, Where(), id, Waiting(0));
      BusyGone(processing, Where(), id, Waiting(0));
      assert processing - {id} == processing by { NotBusy(processing, Where(), id); }
      Record(Enqueued(id));
      pending := pending + [msg];
    }

    method QAck(id: Id) returns (ok: bool)
      requires Valid()
      modifies this
      ensures Valid() && ok == (id in old(processing)) && Where().Keys == old(Where()).Keys
      ensures history == old(history) + if ok then [Acknowledged(id)] else []
      ensures pending == old(pending) && deadLetter == old(deadLetter) && processing == old(processing) - {id}
    {
      hide IsHistory, After, HoldsWaiting, HoldsDead;
      if id !in processing { return false; }
      ghost var place := Acked(processing[id].retries);
      WaitingKept(pending, Where(), id, place);
      DeadKept(deadLetter, Where(), id, place);
      BusyGone(processing, Where(), id, place);
      Record(Acknowledged(id));
      processing := processing - {id};
      return true;
    }

    /** A failed message goes to the dead-letter list on its last permitted failure, else back in line. */
    method Fail(id: Id, now: int)
      requires Valid() && id in processing
      modifies this
      ensures Valid() && history == old(history) + [Failed(id)] && Where().Keys == old(Where()).Keys
      ensures processing == old(processing) - {id}
      ensures MovedOn(old(processing)[id], now, maxRetries, old(pending), pending, old(deadLetter), deadLetter)
    {
      hide IsHistory, After, HoldsWaiting, HoldsDead;
      var msg := processing[id];
      msg := msg.(retries := msg.retries + 1);
      if msg.retries >= msg.maxRetry {
        WaitingKept(pending, Where(), id, Dead(msg.retries));
        DeadAdded(deadLetter, Where(), msg);
        BusyGone(processing, Where(), id, Dead(msg.retries));
        deadLetter := deadLetter + [msg];
      } else {
        msg := msg.(createdAt := now);
        WaitingAdded(pending, Where(), msg);
        DeadKept(deadLetter, Where(), id, Waiting(msg.retries));
        BusyGone(processing, Where(), id, Waiting(msg.retries));
        pending := pending + [msg];
      }
      Record(Failed(id));
      processing := processing - {id};
    }

    method QNack(id: Id, now: int) returns (ok: bool)
      requires Valid()
      modifies this
      ensures Valid() && ok == (id in old(processing)) && Where().Keys == old(Where()).Keys
      ensures history == old(history) + if ok then [Failed(id)] else []
      ensures processing == old(processing) - {id}
      ensures ok ==> MovedOn(old(processing)[id], now, maxRetries, old(pending), pending, old(deadLetter), deadLetter)
      ensures ok ==>
                var m := old(processing)[id];
                if m.retries + 1 < maxRetries
                then pending == old(pending) + [m.(retries := m.retries + 1, createdAt := now)]
                else deadLetter == old(deadLetter) + [m.(retries := m.retries + 1)]
      ensures !ok ==> pending == old(pending) && deadLetter == old(deadLetter)
    {
      if id !in processing { return false; }
      Fail(id, now);
      return true;
    }

    /** Every message past its deadline fails once, in whatever order the map is visited. */
    method RequeueExpired(now: int) returns (ghost failed: seq<Id>)
      requires Valid()
      modifies this
      ensures Valid() && ListsExpired(failed, old(processing), now) && Where().Keys == old(Where()).Keys
      ensures processing == InTime(old(processing), now) && history == old(history) + Failures(failed)
      ensures pending == old(pending) + Rejoining(old(processing), failed, now, maxRetries)
      ensures deadLetter == old(deadLetter) + Dying(old(processing), failed, maxRetries)
    {
      hide IsHistory, After, HoldsWaiting, HoldsBusy, HoldsDead, MovedOn, Sweeping, ListsExpired, InTime, Failures,
        Rejoining, Dying;
      var todo := processing.Keys;
      failed := [];
      SweepStarts(processing, now, maxRetries);
      while todo != {}
        invariant Valid() && Sweeping(old(processing), processing, todo, failed, now)
        invariant Where().Keys == old(Where()).Keys
        invariant forall i :: 0 <= i < |failed| ==> failed[i] in old(processing)
        invariant history == old(history) + Failures(failed)
        invariant pending == old(pending) + Rejoining(old(processing), failed, now, maxRetries)
        invariant deadLetter == old(deadLetter) + Dying(old(processing), failed, maxRetries)
        decreases |todo|
      {
        var id :| id in todo;
        SweepOne(old(processing), processing, todo, failed, now, id);
        todo := todo - {id};
        if now > processing[id].ackDeadline {
          ghost var line, dead := pending, deadLetter;
          Fail(id, now);
          OneMoreFailed(old(processing), failed, id, now, maxRetries, line, pending, dead, deadLetter, old(pending),
            old(deadLetter));
          failed := failed + [id];
        }
      }
      SweepOver(old(processing), processing, failed, now);
    }

    /**
     * One attempt: expired messages fail first and rejoin the line at its end; then the first
     * message of the line that is due is handed out. `line` is the line at that moment.
     */
    method Dequeue(now: int) returns (r: Option<Message>, ghost line: seq<Message>, ghost failed: seq<Id>)
      requires Valid()
      modifies this
      ensures Valid() && ListsExpired(failed, old(processing), now) && Where().Keys == old(Where()).Keys
      ensures line == old(pending) + Rejoining(old(processing), failed, now, maxRetries)
      ensures deadLetter == old(deadLetter) + Dying(old(processing), failed, maxRetries)
      ensures r.None? ==> processing == InTime(old(processing), now)
      ensures r.Some? ==> processing == InTime(old(processing), now)[r.value.id := r.value]
      ensures history == old(history) + Failures(failed) + if r.Some? then [Dequeued(r.value.id)] else []
      ensures r.None? ==> pending == line && forall i :: 0 <= i < |line| ==> now < line[i].createdAt
      ensures r.Some? ==>
                exists k :: 0 <= k < |line| && TakenAt(line, k, now, r.value) && pending == line[..k] + line[k + 1..]
      ensures r.Some? ==> r.value.ackDeadline == now + ackTimeout && r.value.createdAt <= now
    {
      hide IsHistory, After, HoldsWaiting, HoldsBusy, HoldsDead, Rejoining, Dying, ListsExpired, InTime;
      failed := RequeueExpired(now);
      line := pending;
      var i := FirstDue(pending, now);
      if i == |pending| { return None, line, failed; }
      var m := HandOut(i, now);
      assert TakenAt(line, i, now, m);
      return Some(m), line, failed;
    }

    method Do(act: Act)
      requires Valid() && (act.Put? ==> act.id !in Where())
      modifies this
      ensures Valid() && Where().Keys == old(Where()).Keys + (if act.Put? then {act.id} else {})
      ensures old(history) <= history
    {
      hide IsHistory, After, HoldsWaiting, HoldsBusy, HoldsDead, MovedOn, ListsExpired, Rejoining, Dying, InTime,
        TakenAt;
      match act {
        case Put(id, body, delay, now) => Enqueue(id, body, delay, now);
        case Get(now) => var _, _, _ := Dequeue(now);
        case Ack(id) => var _ := QAck(id);
        case Nack(id, now) => var _ := QNack(id, now);
      }
    }

    /**
     * Any run: a message is handed out at most `maxRetries` times, so there are at most that many dequeues
     * for each.
     */
    method Serve(acts: seq<Act>)
      requires Valid() && NewNames(acts, Where().Keys)
      modifies this
      ensures Valid() && old(history) <= history && Dequeues(history) <= maxRetries * Enqueues(history)
    {
      hide IsHistory, After, HoldsWaiting, HoldsBusy, HoldsDead, Dequeues, Enqueues;
      for i := 0 to |acts|
        invariant Valid() && old(history) <= history
        invariant forall j :: i <= j < |acts| && acts[j].Put? ==> acts[j].id !in Where()
      {
        Do(acts[i]);
      }
      DequeuesBounded(history, maxRetries);
    }

    /**
     * Dequeue with a timeout: if the first attempt finds nothing due, the lock is released, others
     * do what they do, and there is a second attempt when the client is woken or its time is up.
     */
    method BlockingDequeue(timeout: int, now: int, others: seq<Act>, later: int) returns (r: Option<Message>)
      requires Valid() && NewNames(others, Where().Keys)
      modifies this
      ensures Valid() && old(history) <= history
      ensures r.Some? ==>
                r.value.id in processing && processing[r.value.id] == r.value && Last(history) == Dequeued(r.value.id)
      ensures r.None? && timeout <= 0 ==> forall i :: 0 <= i < |pending| ==> now < pending[i].createdAt
      ensures r.None? && timeout > 0 ==> forall i :: 0 <= i < |pending| ==> later < pending[i].createdAt
    {
      hide IsHistory, After, HoldsWaiting, HoldsBusy, HoldsDead, MovedOn, ListsExpired, Rejoining, Dying, InTime,
        Dequeues, Enqueues;
      ghost var line, failed;
      r, line, failed := Dequeue(now);
      if r.Some? || timeout <= 0 { return; }
      Serve(others);
      ghost var before := history;
      r, line, failed := Dequeue(later);
      assert old(history) <= before <= history;
    }

    method HandOut(i: nat, now: int) returns (m: Message)
      requires Valid() && i < |pending|
      modifies this
      ensures Valid() && history == old(history) + [Dequeued(m.id)] && Where().Keys == old(Where()).Keys
      ensures m == old(pending)[i].(ackDeadline := now + ackTimeout)
      ensures pending == old(pending)[..i] + old(pending)[i + 1..]
      ensures processing == old(processing)[m.id := m] && deadLetter == old(deadLetter)
    {
      hide IsHistory, After, HoldsDead, HoldsBusy;
      m := pending[i].(ackDeadline := now + ackTimeout);
      WaitingTaken(pending, Where(), i, Busy(m.retries));
      DeadKept(deadLetter, Where(), m.id, Busy(m.retries));
      BusySet(processing, Where(), m);
      Record(Dequeued(m.id));
      pending := pending[..i] + pending[i + 1..];
      processing := processing[m.id := m];
    }
  }

  datatype Act =
    | Put(id: Id, body: string, delay: int, now: int)
    | Get(now: int)
    | Ack(id: Id)
    | Nack(id: Id, now: int)

  /** Every message enqueued has a name of its own. */
  ghost predicate NewNames(acts: seq<Act>, used: set<Id>) {
    && (forall i :: 0 <= i < |acts| && acts[i].Put? ==> acts[i].id !in used)
    && (forall i, j :: 0 <= i < j < |acts| && acts[i].Put? && acts[j].Put? ==> acts[i].id != acts[j].id)
  }

  ghost predicate TakenAt(line: seq<Message>, k: nat, now: int, m: Message)
    requires k < |line|
  {
    && line[k].createdAt <= now && m == line[k].(ackDeadline := m.ackDeadline)
    && forall j :: 0 <= j < k ==> now < line[j].createdAt
  }

  method FirstDue(s: seq<Message>, now: int) returns (i: nat)
    ensures i <= |s| && (forall k :: 0 <= k < i ==> now < s[k].createdAt) && (i < |s| ==> s[i].createdAt <= now)
  {
    i := 0;
    while i < |s| && s[i].createdAt > now
      invariant i <= |s| && forall k :: 0 <= k < i ==> now < s[k].createdAt
    {
      i := i + 1;
    }
  }

  lemma NotBusy(m: map<Id, Message>, p: Places, id: Id)
    requires HoldsBusy(m, p) && id !in p
    ensures id !in m
  {}

  ghost predicate Rejoins(busy: map<Id, Message>, ids: seq<Id>, now: int, max: nat, x: Message) {
    exists id :: id in ids && id in busy && busy[id].retries + 1 < max
      && x == busy[id].(retries := busy[id].retries + 1, createdAt := now)
  }

  ghost predicate Dies(busy: map<Id, Message>, ids: seq<Id>, max: nat, x: Message) {
    exists id :: id in ids && id in busy && busy[id].retries + 1 >= max
      && x == busy[id].(retries := busy[id].retries + 1)
  }

  lemma {:induction false} FailedAre(busy: map<Id, Message>, ids: seq<Id>, now: int, max: nat, x: Message)
    requires forall i :: 0 <= i < |ids| ==> ids[i] in busy
    ensures x in Rejoining(busy, ids, now, max) <==> Rejoins(busy, ids, now, max, x)
    ensures x in Dying(busy, ids, max) <==> Dies(busy, ids, max, x)
  {
    if ids != [] {
      var front, last := ids[..|ids| - 1], ids[|ids| - 1];
      assert ids == front + [last];
      FailedAre(busy, front, now, max, x);
      if Rejoins(busy, front, now, max, x) {
        var id :| id in front && id in busy && busy[id].retries + 1 < max
          && x == busy[id].(retries := busy[id].retries + 1, createdAt := now);
        assert id in ids;
      }
      if Dies(busy, front, max, x) {
        var id :| id in front && id in busy && busy[id].retries + 1 >= max
          && x == busy[id].(retries := busy[id].retries + 1);
        assert id in ids;
      }
      assert last in ids;
    }
  }

  /** A sweep: the messages past their deadline fail, and are back in line or dead, one failure later. */
  lemma SweepIs(busy: map<Id, Message>, ids: seq<Id>, now: int, max: nat, id: Id)
    requires ListsExpired(ids, busy, now) && id in busy
    ensures id in InTime(busy, now) <==> now <= busy[id].ackDeadline
    ensures id in InTime(busy, now) ==> InTime(busy, now)[id] == busy[id]
    ensures busy[id].ackDeadline < now && busy[id].retries + 1 < max ==>
              busy[id].(retries := busy[id].retries + 1, createdAt := now) in Rejoining(busy, ids, now, max)
    ensures busy[id].ackDeadline < now && busy[id].retries + 1 >= max ==>
              busy[id].(retries := busy[id].retries + 1) in Dying(busy, ids, max)
  {
    var failed := busy[id].(retries := busy[id].retries + 1);
    FailedAre(busy, ids, now, max, failed.(createdAt := now));
    FailedAre(busy, ids, now, max, failed);
  }
}
