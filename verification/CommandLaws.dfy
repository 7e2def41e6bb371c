/**
 * What the mutators of the store mean to a client: what it sees of each key afterwards, and what it is
 * told, in terms of what it saw before (internal/store/store.go). An expired key looks like a missing
 * one, and no mutator touches other keys than those it names.
 */
module CommandLaws {
  import opened Common
  import opened Decimal
  import opened Keyspace
  import S = Streams
  import Z = SortedSets

  /** The value a client finds at the time. */
  ghost function Seen(db: Db, key: string, now: int): Option<Val> {
    if key in db.vals && !(key in db.expires && db.expires[key] <= now) then Some(db.vals[key]) else None
  }

  /** When what the client finds will expire, if ever. */
  ghost function Due(db: Db, key: string, now: int): Option<int> {
    if Seen(db, key, now).Some? && key in db.expires then Some(db.expires[key]) else None
  }

  /** Nothing but these keys has changed. */
  ghost predicate Only(keys: set<string>, before: Db, after: Db) {
    after.vals - keys == before.vals - keys && after.expires - keys == before.expires - keys
  }

  /** A key can be seen until its time of expiry, and not at it. */
  lemma SeenUntil(db: Db, key: string, v: Val, at: int, now: int)
    ensures Seen(db.(vals := db.vals[key := v], expires := db.expires[key := at]), key, now) ==
              if now < at then Some(v) else None
    ensures Seen(db.(vals := db.vals[key := v], expires := db.expires - {key}), key, now) == Some(v)
    ensures Seen(db.(vals := db.vals - {key}), key, now) == None
  {}

  /** What is seen of the keys that were not named stays as it was, at all times. */
  lemma OthersStay(keys: set<string>, before: Db, after: Db, key: string, now: int)
    requires Only(keys, before, after) && key !in keys
    ensures Seen(after, key, now) == Seen(before, key, now) && Due(after, key, now) == Due(before, key, now)
  {
    assert (key in after.vals <==> key in after.vals - keys) && (key in before.vals <==> key in before.vals - keys);
    assert key in after.vals ==> after.vals[key] == (after.vals - keys)[key] == (before.vals - keys)[key];
    assert (key in after.expires <==> key in after.expires - keys) &&
      (key in before.expires <==> key in before.expires - keys);
    assert key in after.expires ==> after.expires[key] == (after.expires - keys)[key] == (before.expires - keys)[key];
  }

  /** How the steps that mutators are made of look to a client. */
  lemma Steps(db: Db, key: string, now: int)
    requires WellFormed(db)
    ensures var d := Purge(db, key, now); var s := Seen(db, key, now);
            && Seen(d, key, now) == s && Due(d, key, now) == Due(db, key, now) && Only({key}, db, d)
            && (key in d.vals <==> s.Some?) && (s.Some? ==> d.vals[key] == s.value)
            && (!Expired(db, key, now) ==> d == db)
            && (Expired(db, key, now) ==> d == Remove(db, key) && s.None?) && Only({key}, db, db)
  {}

  /** What the mutators find at a key once an expired value is gone. */
  lemma Finds(db: Db, key: string, now: int)
    requires WellFormed(db)
    ensures var d := Purge(db, key, now); var s := Seen(db, key, now);
            && (Other(d, key, Hash(map[])) <==> s.Some? && !s.value.Hash?)
            && HashAt(d, key) == (if s.Some? && s.value.Hash? then s.value.h else map[])
            && (Other(d, key, List([])) <==> s.Some? && !s.value.List?)
            && ListAt(d, key) == (if s.Some? && s.value.List? then s.value.l else [])
            && (Other(d, key, Set({})) <==> s.Some? && !s.value.Set?)
            && SetAt(d, key) == (if s.Some? && s.value.Set? then s.value.m else {})
            && (Other(d, key, ZSet(map[])) <==> s.Some? && !s.value.ZSet?)
            && ZSetAt(d, key) == (if s.Some? && s.value.ZSet? then s.value.z else map[])
            && (Other(d, key, Stream([])) <==> s.Some? && !s.value.Stream?)
            && StreamAt(d, key) == (if s.Some? && s.value.Stream? then s.value.es else [])
  {
    hide Purge, WellFormed, Seen, Due, Only;
    Steps(db, key, now);
  }

  lemma Putting(db: Db, key: string, v: Val, now: int)
    requires WellFormed(db)
    ensures var e := Put(Purge(db, key, now), key, v);
            Seen(e, key, now) == Some(v) && Due(e, key, now) == Due(db, key, now) && Only({key}, db, e)
  {}

  lemma Dropping(db: Db, key: string, v: Val, now: int)
    requires WellFormed(db)
    ensures var d := Purge(db, key, now);
            && Seen(Drop(d, key), key, now) == Seen(Remove(d, key), key, now) == None
            && Only({key}, db, Drop(d, key)) && Only({key}, db, Remove(d, key))
            && PutOrDrop(d, key, v) == if IsEmpty(v) then Drop(d, key) else Put(d, key, v)
  {}

  lemma Replacing(db: Db, key: string, value: string, at: Option<int>, now: int)
    requires WellFormed(db)
    ensures var e, e' := Overwrite(db, key, value, at), Overwrite(Purge(db, key, now), key, value, at);
            && Only({key}, db, e) && Only({key}, db, e')
            && (at.None? || now < at.value ==> Seen(e, key, now) == Some(Str(value)) && Due(e, key, now) == at)
            && (at.None? || now < at.value ==> Seen(e', key, now) == Some(Str(value)) && Due(e', key, now) == at)
  {
    hide Purge, Only;
    Overwritten(db, key, value, at, now);
    Overwritten(Purge(db, key, now), key, value, at, now);
    Steps(db, key, now);
    OnlyTwice({key}, db, Purge(db, key, now), Overwrite(Purge(db, key, now), key, value, at));
  }

  lemma Overwritten(d: Db, key: string, value: string, at: Option<int>, now: int)
    ensures var e := Overwrite(d, key, value, at);
            && Only({key}, d, e)
            && (at.None? || now < at.value ==> Seen(e, key, now) == Some(Str(value)) && Due(e, key, now) == at)
  {}

  lemma OnlyTwice(keys: set<string>, a: Db, b: Db, c: Db)
    requires Only(keys, a, b) && Only(keys, b, c)
    ensures Only(keys, a, c)
  {}

  lemma IsHashOp(db: Db, op: Op, now: int)
    requires OnHash(op)
    ensures Apply(db, op, now) == HashOp(db, op, now)
  {}

  lemma IsListOp(db: Db, op: Op, now: int)
    requires OnList(op)
    ensures Apply(db, op, now) == ListOp(db, op, now)
  {}

  lemma IsSetOp(db: Db, op: Op, now: int)
    requires OnSet(op)
    ensures Apply(db, op, now) == SetOp(db, op, now)
  {}

  lemma IsZSetOp(db: Db, op: Op, now: int)
    requires OnZSet(op)
    ensures Apply(db, op, now) == ZSetOp(db, op, now)
  {}

  lemma IsKeyOp(db: Db, op: Op, now: int)
    requires OnKey(op)
    ensures Apply(db, op, now) == KeyOp(db, op, now)
  {}

  /** Two keys, in data where neither has expired. */
  lemma Storing(d: Db, key: string, v: Val, other: string, now: int)
    requires WellFormed(d) && !Expired(d, key, now) && !Expired(d, other, now)
    ensures var e := PutOrDrop(d, key, v);
            && WellFormed(e) && Only({key}, d, e) && Seen(e, key, now) == (if IsEmpty(v) then None else Some(v))
            && !Expired(e, key, now) && !Expired(e, other, now) && (key in e.vals <==> !IsEmpty(v))
            && (other != key ==>
                  (other in e.vals <==> other in d.vals) && (other in d.vals ==> e.vals[other] == d.vals[other]))
  {}

  lemma PurgingBoth(db: Db, a: string, b: string, now: int)
    requires WellFormed(db)
    ensures var d := Purge(Purge(db, a, now), b, now);
            && WellFormed(d) && Only({a, b}, db, d) && !Expired(d, a, now) && !Expired(d, b, now)
            && (forall k :: k == a || k == b ==>
                  && Seen(d, k, now) == Seen(db, k, now) && (k in d.vals <==> Seen(db, k, now).Some?)
                  && (k in d.vals ==> d.vals[k] == Seen(db, k, now).value))
            && (a == b ==> d == Purge(db, a, now))
  {}

  lemma LiveSeen(d: Db, key: string, now: int)
    requires !Expired(d, key, now)
    ensures Seen(d, key, now) == if key in d.vals then Some(d.vals[key]) else None
  {}

  lemma OnlyMore(keys: set<string>, more: set<string>, a: Db, b: Db)
    requires Only(keys, a, b) && keys <= more
    ensures Only(more, a, b)
  {
    assert a.vals - more == (a.vals - keys) - more && b.vals - more == (b.vals - keys) - more;
    assert a.expires - more == (a.expires - keys) - more && b.expires - more == (b.expires - keys) - more;
  }

  // ----- strings -----

  /** SET replaces anything, SETNX only a missing key, SETXX only one that is there. */
  lemma SetLaws(db: Db, key: string, value: string, at: Option<int>, ttl: int, now: int)
    requires WellFormed(db)
    ensures var r := Apply(db, DoSetAbsolute(key, value, at), now);
            && r.reply == Done && Only({key}, db, r.db)
            && (at.None? ==> Seen(r.db, key, now) == Some(Str(value)) && Due(r.db, key, now) == None)
            && (at.Some? && now < at.value ==> Seen(r.db, key, now) == Some(Str(value)) && Due(r.db, key, now) == at)
    ensures var r := Apply(db, DoSetNX(key, value, ttl), now);
            && Only({key}, db, r.db) && r.reply == Bool(Seen(db, key, now).None?)
            && (r.reply.b ==>
                  && Seen(r.db, key, now) == Some(Str(value))
                  && Due(r.db, key, now) == if ttl > 0 then Some(now + ttl) else None)
            && (!r.reply.b ==> Seen(r.db, key, now) == Seen(db, key, now) && Due(r.db, key, now) == Due(db, key, now))
    ensures var r := Apply(db, DoSetXX(key, value, ttl), now);
            && Only({key}, db, r.db) && r.reply == Bool(Seen(db, key, now).Some?)
            && (r.reply.b ==>
                  && Seen(r.db, key, now) == Some(Str(value))
                  && Due(r.db, key, now) == if ttl > 0 then Some(now + ttl) else None)
            && (!r.reply.b ==> Seen(r.db, key, now) == None)
  {
    hide Purge, Put, Overwrite, Seen, Due, Only, WellFormed;
    Steps(db, key, now);
    Replacing(db, key, value, at, now);
    Replacing(db, key, value, None, now);
    if ttl > 0 { Replacing(db, key, value, Some(now + ttl), now); }
    if Seen(db, key, now).None? { NewString(db, key, value, ttl, now); }
  }

  lemma NewString(db: Db, key: string, value: string, ttl: int, now: int)
    requires WellFormed(db) && Seen(db, key, now).None?
    ensures var d := Purge(db, key, now);
            var e := Put(d, key, Str(value)).(expires := if ttl > 0 then d.expires[key := now + ttl] else d.expires);
            && Only({key}, db, e) && Seen(e, key, now) == Some(Str(value))
            && Due(e, key, now) == if ttl > 0 then Some(now + ttl) else None
  {}

  /** INCRBY adds to the number the string spells, a missing key counting as zero, and wraps at 64 bits. */
  lemma IncrLaw(db: Db, key: string, delta: int, now: int)
    requires WellFormed(db) && MinInt64 <= delta <= MaxInt64
    ensures var r := Apply(db, DoIncrBy(key, delta), now); var s := Seen(db, key, now);
            var n := if s.Some? && s.value.Str? && ParseInt(s.value.s).Number? then ParseInt(s.value.s).n else 0;
            && Only({key}, db, r.db) && Due(r.db, key, now) == Due(db, key, now)
            && if s.None? || (s.value.Str? && ParseInt(s.value.s).Number?) then
                 && r.reply.Int? && -0x8000_0000_0000_0000 <= r.reply.n <= 0x7fff_ffff_ffff_ffff
                 && (r.reply.n == n + delta || r.reply.n == n + delta - 0x1_0000_0000_0000_0000
                     || r.reply.n == n + delta + 0x1_0000_0000_0000_0000)
                 && Seen(r.db, key, now) == Some(Str(FormatInt(r.reply.n)))
               else r.reply == (if s.value.Str? then NotInteger else WrongType) && Seen(r.db, key, now) == s
  {
    hide ParseInt, FormatInt, Purge, Put, Seen, Due, Only, WellFormed;
    Steps(db, key, now);
    var s := Seen(db, key, now);
    var n := if s.Some? && s.value.Str? && ParseInt(s.value.s).Number? then ParseInt(s.value.s).n else 0;
    Putting(db, key, Str(FormatInt(Add64(n, delta))), now);
  }

  /** APPEND adds at the end; GETSET and GETDEL return what was there; none of them takes another type. */
  lemma TextLaws(db: Db, key: string, value: string, now: int)
    requires WellFormed(db)
    ensures var r := Apply(db, DoAppend(key, value), now); var s := Seen(db, key, now);
            && Only({key}, db, r.db) && Due(r.db, key, now) == Due(db, key, now)
            && if s.Some? && !s.value.Str? then r.reply == WrongType && Seen(r.db, key, now) == s
               else var was := if s.Some? then s.value.s else "";
                    r.reply == Int(|was| + |value|) && Seen(r.db, key, now) == Some(Str(was + value))
    ensures var r := Apply(db, DoGetSet(key, value), now); var s := Seen(db, key, now);
            && Only({key}, db, r.db)
            && if s.Some? && !s.value.Str? then r.reply == WrongType && Seen(r.db, key, now) == s
               else && r.reply == (if s.Some? then Text(s.value.s) else Nil)
                    && Seen(r.db, key, now) == Some(Str(value)) && Due(r.db, key, now) == None
    ensures var r := Apply(db, DoGetDel(key), now); var s := Seen(db, key, now);
            && Only({key}, db, r.db)
            && if s.Some? && s.value.Str? then r.reply == Text(s.value.s) && Seen(r.db, key, now) == None
               else r.reply == Nil && Seen(r.db, key, now) == s
  {
    hide Purge, Put, Remove, Overwrite, Seen, Due, Only, WellFormed;
    Steps(db, key, now);
    var s := Seen(db, key, now);
    var was := if s.Some? && s.value.Str? then s.value.s else "";
    Putting(db, key, Str(was + value), now);
    assert "" + value == value;
    Replacing(db, key, value, None, now);
    Dropping(db, key, Str(""), now);
  }

  /** SETRANGE writes over the bytes from the offset on, after zero bytes if the string was shorter. */
  lemma SetRangeLaw(db: Db, key: string, offset: int, value: string, now: int)
    requires WellFormed(db)
    ensures var r := Apply(db, DoSetRange(key, offset, value), now); var s := Seen(db, key, now);
            && Only({key}, db, r.db) && Due(r.db, key, now) == Due(db, key, now)
            && if s.Some? && !s.value.Str? then r.reply == WrongType && Seen(r.db, key, now) == s
               else if offset < 0 then r.reply == Reply.OutOfRange && Seen(r.db, key, now) == s
               else var was := if s.Some? then s.value.s else ""; var is_ := Seen(r.db, key, now);
                 && is_.Some? && is_.value.Str? && r.reply == Int(|is_.value.s|)
                 && |is_.value.s| == (if offset + |value| < |was| then |was| else offset + |value|)
                 && forall i :: 0 <= i < |is_.value.s| ==>
                      is_.value.s[i] == if offset <= i < offset + |value| then value[i - offset]
                        else if i < |was| then was[i] else '\0'
  {
    hide WriteAt, Purge, Put, Seen, Due, Only, WellFormed;
    Steps(db, key, now);
    var s := Seen(db, key, now);
    var was := if s.Some? && s.value.Str? then s.value.s else "";
    if offset >= 0 { Putting(db, key, Str(WriteAt(was, offset, value)), now); }
  }

  lemma {:induction false} FirstTakenIs(db: Db, pairs: seq<(string, string)>, now: int)
    requires WellFormed(db)
    ensures var (d, taken) := FirstTaken(db, pairs, now);
            && WellFormed(d) && (taken <==> exists i :: 0 <= i < |pairs| && Seen(db, pairs[i].0, now).Some?)
            && forall k :: Seen(d, k, now) == Seen(db, k, now) && Due(d, k, now) == Due(db, k, now)
    decreases |pairs|
  {
    hide Purge, WellFormed, Seen, Due, Only;
    if pairs != [] {
      var d := Purge(db, pairs[0].0, now);
      Steps(db, pairs[0].0, now);
      PurgeWF(db, pairs[0].0, now);
      forall k ensures Seen(d, k, now) == Seen(db, k, now) && Due(d, k, now) == Due(db, k, now) {
        if k != pairs[0].0 { OthersStay({pairs[0].0}, db, d, k, now); }
      }
      if pairs[0].0 !in d.vals {
        FirstTakenIs(d, pairs[1..], now);
        SomePair(pairs, (k: string) => Seen(db, k, now).Some?);
      }
    }
  }

  lemma SomePair(pairs: seq<(string, string)>, p: string -> bool)
    requires pairs != [] && !p(pairs[0].0)
    ensures (exists i :: 0 <= i < |pairs| && p(pairs[i].0)) <==> exists i :: 0 <= i < |pairs[1..]| && p(pairs[1..][i].0)
  {
    if i :| 0 <= i < |pairs| && p(pairs[i].0) { assert pairs[1..][i - 1] == pairs[i]; }
    if i :| 0 <= i < |pairs[1..]| && p(pairs[1..][i].0) { assert pairs[i + 1] == pairs[1..][i]; }
  }

  /** The position of the last pair that names the key, or -1. */
  ghost predicate LastNamed(pairs: seq<(string, string)>, key: string, i: int) {
    -1 <= i < |pairs| && (i >= 0 ==> pairs[i].0 == key) && forall j :: i < j < |pairs| ==> pairs[j].0 != key
  }

  lemma LastNamedTail(pairs: seq<(string, string)>, key: string, i: int)
    requires LastNamed(pairs, key, i) && pairs != []
    ensures LastNamed(pairs[1..], key, if i < 0 then -1 else i - 1)
  {}

  lemma {:induction false} PutAllIs(db: Db, pairs: seq<(string, string)>, key: string, i: int, now: int)
    requires LastNamed(pairs, key, i)
    ensures var e := PutAll(db, pairs);
            if i < 0 then Seen(e, key, now) == Seen(db, key, now) && Due(e, key, now) == Due(db, key, now)
            else Seen(e, key, now) == Some(Str(pairs[i].1)) && Due(e, key, now) == None
    decreases |pairs|
  {
    hide Put, LastNamed;
    if pairs != [] {
      var d := Put(db, pairs[0].0, Str(pairs[0].1)).(expires := db.expires - {pairs[0].0});
      OnePut(db, pairs[0].0, pairs[0].1, key, now);
      LastNamedTail(pairs, key, i);
      PutAllIs(d, pairs[1..], key, if i < 0 then -1 else i - 1, now);
      FirstOrLater(pairs, key, i);
    } else { FirstOrLater(pairs, key, i); }
  }

  lemma FirstOrLater(pairs: seq<(string, string)>, key: string, i: int)
    requires LastNamed(pairs, key, i)
    ensures -1 <= i < |pairs| && (i < 0 && pairs != [] ==> pairs[0].0 != key)
    ensures i == 0 ==> pairs[0].0 == key
    ensures i > 0 ==> pairs[1..][i - 1] == pairs[i]
  {}

  lemma OnePut(db: Db, at: string, value: string, key: string, now: int)
    ensures var d := Put(db, at, Str(value)).(expires := db.expires - {at});
            if at == key then Seen(d, key, now) == Some(Str(value)) && Due(d, key, now) == None
            else Seen(d, key, now) == Seen(db, key, now) && Due(d, key, now) == Due(db, key, now)
  {}

  /** MSETNX sets all keys, one named twice to the later value, exactly if none of them can be seen. */
  lemma MSetNXLaw(db: Db, pairs: seq<(string, string)>, key: string, i: int, now: int)
    requires WellFormed(db) && LastNamed(pairs, key, i)
    ensures var r := Apply(db, DoMSetNX(pairs), now);
            && r.reply == Bool(forall j :: 0 <= j < |pairs| ==> Seen(db, pairs[j].0, now).None?)
            && if r.reply.b && i >= 0 then Seen(r.db, key, now) == Some(Str(pairs[i].1)) && Due(r.db, key, now) == None
               else Seen(r.db, key, now) == Seen(db, key, now) && Due(r.db, key, now) == Due(db, key, now)
  {
    hide FirstTaken, PutAll, Seen, Due, WellFormed;
    FirstTakenIs(db, pairs, now);
    PutAllIs(FirstTaken(db, pairs, now).0, pairs, key, i, now);
  }

  // ----- hashes -----

  lemma {:induction false} SetFieldsIs(h: map<string, string>, pairs: seq<(string, string)>, f: string, i: int)
    requires LastNamed(pairs, f, i)
    ensures var g := SetFields(h, pairs);
            if i < 0 then (f in g <==> f in h) && (f in h ==> g[f] == h[f]) else f in g && g[f] == pairs[i].1
    decreases |pairs|
  {
    hide LastNamed;
    FirstOrLater(pairs, f, i);
    if pairs != [] {
      LastNamedTail(pairs, f, i);
      SetFieldsIs(h[pairs[0].0 := pairs[0].1], pairs[1..], f, if i < 0 then -1 else i - 1);
    }
  }

  lemma {:induction false} SetFieldsKeeps(h: map<string, string>, pairs: seq<(string, string)>)
    ensures h.Keys <= SetFields(h, pairs).Keys
    decreases |pairs|
  {
    if pairs != [] { SetFieldsKeeps(h[pairs[0].0 := pairs[0].1], pairs[1..]); }
  }

  lemma NewKeys<V>(a: map<string, V>, b: map<string, V>)
    requires a.Keys <= b.Keys
    ensures |b| - |a| == |b.Keys - a.Keys|
  {
    assert b.Keys == a.Keys + (b.Keys - a.Keys);
    assert |a| == |a.Keys| && |b| == |b.Keys|;
  }

  lemma LostKeys<V>(a: map<string, V>, gone: set<string>)
    ensures |a| - |a - gone| == |a.Keys * gone|
  {
    assert a.Keys == (a - gone).Keys + a.Keys * gone;
    assert |a| == |a.Keys| && |a - gone| == |(a - gone).Keys|;
  }

  /** HSET sets each field, one named twice to the later value, keeps the others, and counts the new ones. */
  lemma HSetLaw(db: Db, key: string, pairs: seq<(string, string)>, f: string, i: int, now: int)
    requires WellFormed(db) && LastNamed(pairs, f, i)
    ensures var r := Apply(db, DoHSet(key, pairs), now); var s := Seen(db, key, now); var t := Seen(r.db, key, now);
            && Only({key}, db, r.db) && Due(r.db, key, now) == Due(db, key, now)
            && if pairs == [] then r.reply == WrongArgs && t == s
               else if s.Some? && !s.value.Hash? then r.reply == WrongType && t == s
               else
                 var h := if s.Some? then s.value.h else map[];
                 && t.Some? && t.value.Hash? && r.reply == Int(|t.value.h.Keys - h.Keys|) && h.Keys <= t.value.h.Keys
                 && if i < 0 then (f in t.value.h <==> f in h) && (f in h ==> t.value.h[f] == h[f])
                    else f in t.value.h && t.value.h[f] == pairs[i].1
  {
    hide Purge, Put, Seen, Due, Only, WellFormed, SetFields, LastNamed, Apply, Other, HashAt;
    IsHashOp(db, DoHSet(key, pairs), now);
    Steps(db, key, now);
    Finds(db, key, now);
    var s := Seen(db, key, now);
    var h := if s.Some? && s.value.Hash? then s.value.h else map[];
    SetFieldsIs(h, pairs, f, i);
    SetFieldsKeeps(h, pairs);
    NewKeys(h, SetFields(h, pairs));
    Putting(db, key, Hash(SetFields(h, pairs)), now);
  }

  lemma Without<V>(h: map<string, V>, gone: seq<string>)
    ensures h.Keys * SetOf(gone) == set f | f in h && f in gone
    ensures h - SetOf(gone) == map f | f in h && f !in gone :: h[f]
  {}

  /** HDEL removes the named fields, counts those that were there, and an empty hash is gone. */
  lemma HDelLaw(db: Db, key: string, fields: seq<string>, now: int)
    requires WellFormed(db)
    ensures var r := Apply(db, DoHDel(key, fields), now); var s := Seen(db, key, now); var t := Seen(r.db, key, now);
            && Only({key}, db, r.db)
            && if s.None? then r.reply == Int(0) && t == None
               else if !s.value.Hash? then r.reply == WrongType && t == s
               else
                 var h := map f | f in s.value.h && f !in fields :: s.value.h[f];
                 && r.reply == Int(|set f | f in s.value.h && f in fields|)
                 && t == (if h == map[] then None else Some(Hash(h)))
                 && (t.Some? ==> Due(r.db, key, now) == Due(db, key, now))
  {
    hide Purge, Put, Drop, PutOrDrop, Remove, Seen, Due, Only, WellFormed, SetOf, Apply, Other, HashAt;
    IsHashOp(db, DoHDel(key, fields), now);
    Steps(db, key, now);
    Finds(db, key, now);
    Dropping(db, key, Str(""), now);
    var s := Seen(db, key, now);
    if s.Some? && s.value.Hash? {
      var h := s.value.h - SetOf(fields);
      LostKeys(s.value.h, SetOf(fields));
      Without(s.value.h, fields);
      Putting(db, key, Hash(h), now);
      Dropping(db, key, Hash(h), now);
    }
  }

  /** HINCRBY adds to the number in a field, a missing one counting as zero; HSETNX sets a missing field. */
  lemma FieldLaws(db: Db, key: string, field: string, delta: int, value: string, now: int)
    requires WellFormed(db) && MinInt64 <= delta <= MaxInt64
    ensures var r := Apply(db, DoHIncrBy(key, field, delta), now);
            var s := Seen(db, key, now); var t := Seen(r.db, key, now);
            && Only({key}, db, r.db) && Due(r.db, key, now) == Due(db, key, now)
            && if s.Some? && !s.value.Hash? then r.reply == WrongType && t == s
               else
                 var h := if s.Some? then s.value.h else map[];
                 if field in h && !ParseInt(h[field]).Number? then r.reply == NotInteger && t == s
                 else
                   var n := if field in h then ParseInt(h[field]).n else 0;
                   && r.reply.Int? && -0x8000_0000_0000_0000 <= r.reply.n <= 0x7fff_ffff_ffff_ffff
                   && (r.reply.n == n + delta || r.reply.n == n + delta - 0x1_0000_0000_0000_0000
                       || r.reply.n == n + delta + 0x1_0000_0000_0000_0000)
                   && t == Some(Hash(h[field := FormatInt(r.reply.n)]))
    ensures var r := Apply(db, DoHSetNX(key, field, value), now);
            var s := Seen(db, key, now); var t := Seen(r.db, key, now);
            && Only({key}, db, r.db) && Due(r.db, key, now) == Due(db, key, now)
            && if s.Some? && !s.value.Hash? then r.reply == WrongType && t == s
               else
                 var h := if s.Some? then s.value.h else map[];
                 && r.reply == Bool(field !in h) && t == if field in h then s else Some(Hash(h[field := value]))
  {
    hide ParseInt, FormatInt, Purge, Put, Seen, Due, Only, WellFormed, Other, HashAt;
    Steps(db, key, now);
    Finds(db, key, now);
    var s := Seen(db, key, now);
    var h := if s.Some? && s.value.Hash? then s.value.h else map[];
    var n := if field in h && ParseInt(h[field]).Number? then ParseInt(h[field]).n else 0;
    Putting(db, key, Hash(h[field := FormatInt(Add64(n, delta))]), now);
    Putting(db, key, Hash(h[field := value]), now);
  }

  // ----- lists -----

  /** LPUSH puts the values before the list, the last one first; RPUSH puts them after it, in their order. */
  lemma PushLaw(db: Db, key: string, left: bool, values: seq<string>, now: int)
    requires WellFormed(db)
    ensures var r := Apply(db, DoPush(key, left, values), now);
            var s := Seen(db, key, now); var t := Seen(r.db, key, now);
            && Only({key}, db, r.db) && Due(r.db, key, now) == Due(db, key, now)
            && if values == [] then r.reply == WrongArgs && t == s
               else if s.Some? && !s.value.List? then r.reply == WrongType && t == s
               else
                 var l := if s.Some? then s.value.l else [];
                 && t.Some? && t.value.List? && r.reply == Int(|t.value.l|) && |t.value.l| == |l| + |values|
                 && (forall i :: 0 <= i < |l| ==> t.value.l[if left then |values| + i else i] == l[i])
                 && (forall i :: 0 <= i < |values| ==>
                       t.value.l[if left then |values| - 1 - i else |l| + i] == values[i])
  {
    hide Purge, Put, Seen, Due, Only, WellFormed, Pushed, Apply, Other, ListAt;
    IsListOp(db, DoPush(key, left, values), now);
    Steps(db, key, now);
    Finds(db, key, now);
    var s := Seen(db, key, now);
    var l := if s.Some? && s.value.List? then s.value.l else [];
    PushedAt(l, left, values);
    Putting(db, key, List(Pushed(l, left, values)), now);
  }

  /** LPOP takes the first element, RPOP the last; the rest stays in order, and an empty list is gone. */
  lemma PopLaw(db: Db, key: string, left: bool, now: int)
    requires WellFormed(db)
    ensures var r := Apply(db, DoPop(key, left), now); var s := Seen(db, key, now); var t := Seen(r.db, key, now);
            && Only({key}, db, r.db)
            && if s.None? then r.reply == Nil && t == None
               else if !s.value.List? then r.reply == WrongType && t == s
               else
                 var rest := if t.Some? && t.value.List? then t.value.l else [];
                 && r.reply.Text? && s.value.l == (if left then [r.reply.s] + rest else rest + [r.reply.s])
                 && t == (if rest == [] then None else Some(List(rest)))
                 && (rest != [] ==> Due(r.db, key, now) == Due(db, key, now))
  {
    hide Purge, Put, Drop, PutOrDrop, Remove, Seen, Due, Only, WellFormed, Apply, Other, ListAt;
    IsListOp(db, DoPop(key, left), now);
    Steps(db, key, now);
    Finds(db, key, now);
    SeenNonEmpty(db, key, now);
    Dropping(db, key, Str(""), now);
    var s := Seen(db, key, now);
    if s.Some? && s.value.List? {
      PoppedAt(s.value.l, left);
      Putting(db, key, List(Shorter(s.value.l, left)), now);
      Dropping(db, key, List(Shorter(s.value.l, left)), now);
    }
  }

  lemma SeenNonEmpty(db: Db, key: string, now: int)
    requires WellFormed(db)
    ensures Seen(db, key, now).Some? ==> !IsEmpty(Seen(db, key, now).value)
  {}

  /** LMOVE is LPOP or RPOP of one list and LPUSH or RPUSH of what came out on the other; they may be the same. */
  lemma LMoveLaw(db: Db, src: string, dst: string, srcLeft: bool, dstLeft: bool, now: int)
    requires WellFormed(db)
    ensures var r := Apply(db, DoLMove(src, dst, srcLeft, dstLeft), now);
            var s, d := Seen(db, src, now), Seen(db, dst, now);
            && Only({src, dst}, db, r.db)
            && if s.None? then r.reply == Nil && Seen(r.db, src, now) == s && Seen(r.db, dst, now) == d
               else if !s.value.List? || (d.Some? && !d.value.List?) then
                 r.reply == WrongType && Seen(r.db, src, now) == s && Seen(r.db, dst, now) == d
               else
                 && r.reply.Text?
                 && var rest := if srcLeft then s.value.l[1..] else s.value.l[..|s.value.l| - 1];
                    var m := if src == dst then rest else if d.Some? then d.value.l else [];
                    && r.reply.s == (if srcLeft then s.value.l[0] else s.value.l[|s.value.l| - 1])
                    && (src != dst ==> Seen(r.db, src, now) == if rest == [] then None else Some(List(rest)))
                    && Seen(r.db, dst, now) == Some(List(if dstLeft then [r.reply.s] + m else m + [r.reply.s]))
  {
    hide Purge, Put, PutOrDrop, Seen, Due, Only, WellFormed, Apply, Expired;
    IsListOp(db, DoLMove(src, dst, srcLeft, dstLeft), now);
    Steps(db, src, now);
    Steps(db, dst, now);
    SeenNonEmpty(db, src, now);
    PurgingBoth(db, src, dst, now);
    PurgingBoth(db, src, src, now);
    OnlyMore({src}, {src, dst}, db, Purge(db, src, now));
    FirstStays(db, src, dst, now);
    var s, e := Seen(db, src, now), Seen(db, dst, now);
    if s.Some? && s.value.List? && (e.None? || e.value.List?) {
      MoveStep(db, Purge(Purge(db, src, now), dst, now), src, dst, srcLeft, dstLeft, now);
    }
  }

  lemma FirstStays(db: Db, src: string, dst: string, now: int)
    requires WellFormed(db)
    ensures Seen(Purge(db, src, now), dst, now) == Seen(db, dst, now)
  {}

  lemma MoveStep(db: Db, d: Db, src: string, dst: string, srcLeft: bool, dstLeft: bool, now: int)
    requires WellFormed(d) && !Expired(d, src, now) && !Expired(d, dst, now) && Only({src, dst}, db, d)
    requires src in d.vals && d.vals[src].List? && d.vals[src].l != [] && (dst in d.vals ==> d.vals[dst].List?)
    ensures var l := d.vals[src].l; var val := End(l, srcLeft);
            var popped := PutOrDrop(d, src, List(Shorter(l, srcLeft)));
            var e := Put(popped, dst, List(Pushed(ListAt(popped, dst), dstLeft, [val])));
            var rest := if srcLeft then l[1..] else l[..|l| - 1];
            var m := if src == dst then rest else if dst in d.vals then d.vals[dst].l else [];
            && Only({src, dst}, db, e) && val == (if srcLeft then l[0] else l[|l| - 1])
            && (src != dst ==> Seen(e, src, now) == if rest == [] then None else Some(List(rest)))
            && Seen(e, dst, now) == Some(List(if dstLeft then [val] + m else m + [val]))
  {
    hide PutOrDrop, Put, Only, WellFormed, Expired, Seen;
    var l := d.vals[src].l;
    var val, rest := End(l, srcLeft), Shorter(l, srcLeft);
    var popped := PutOrDrop(d, src, List(rest));
    Storing(d, src, List(rest), dst, now);
    LiveSeen(popped, src, now);
    assert IsEmpty(List(rest)) <==> rest == [];
    var m := ListAt(popped, dst);
    var v := List(Pushed(m, dstLeft, [val]));
    PushedOne(m, dstLeft, val);
    Storing(popped, dst, v, src, now);
    NotDropped(popped, dst, v);
    OnlyMore({src}, {src, dst}, d, popped);
    OnlyMore({dst}, {src, dst}, popped, Put(popped, dst, v));
    OnlyTwice({src, dst}, d, popped, Put(popped, dst, v));
    OnlyTwice({src, dst}, db, d, Put(popped, dst, v));
    LiveSeen(Put(popped, dst, v), src, now);
  }

  lemma PushedOne(m: seq<string>, left: bool, x: string)
    ensures Pushed(m, left, [x]) == (if left then [x] + m else m + [x]) && Pushed(m, left, [x]) != []
  {
    assert Reverse([x]) == [x];
  }

  lemma NotDropped(d: Db, key: string, v: Val)
    requires !IsEmpty(v)
    ensures PutOrDrop(d, key, v) == Put(d, key, v)
  {}

  /** LSET replaces the element at an index, a negative one counted from the end. */
  lemma LSetLaw(db: Db, key: string, index: int, value: string, now: int)
    requires WellFormed(db)
    ensures var r := Apply(db, DoLSet(key, index, value), now);
            var s := Seen(db, key, now); var t := Seen(r.db, key, now);
            && Only({key}, db, r.db) && Due(r.db, key, now) == Due(db, key, now)
            && if s.None? then r.reply == NoSuchKey && t == None
               else if !s.value.List? then r.reply == WrongType && t == s
               else
                 var l := s.value.l;
                 if 0 <= index < |l| then r.reply == Done && t == Some(List(l[index := value]))
                 else if -|l| <= index < 0 then r.reply == Done && t == Some(List(l[|l| + index := value]))
                 else r.reply == Reply.OutOfRange && t == s
  {
    hide Purge, Put, Remove, Seen, Due, Only, WellFormed, Apply, Other, ListAt;
    IsListOp(db, DoLSet(key, index, value), now);
    Steps(db, key, now);
    Finds(db, key, now);
    SeenNonEmpty(db, key, now);
    var s := Seen(db, key, now);
    if s.Some? && s.value.List? && -|s.value.l| <= index < |s.value.l| {
      Putting(db, key, List(s.value.l[if index < 0 then |s.value.l| + index else index := value]), now);
    }
  }

  /** LINSERT puts the value next to the first element that equals the pivot, before it or after it. */
  lemma LInsertLaw(db: Db, key: string, before: bool, pivot: string, value: string, p: nat, now: int)
    requires WellFormed(db)
    ensures var r := Apply(db, DoLInsert(key, before, pivot, value), now);
            var s := Seen(db, key, now); var t := Seen(r.db, key, now);
            && Only({key}, db, r.db) && Due(r.db, key, now) == Due(db, key, now)
            && if s.None? then r.reply == Int(0) && t == None
               else if !s.value.List? then r.reply == WrongType && t == s
               else
                 var l := s.value.l;
                 && (pivot !in l ==> r.reply == Int(-1) && t == s)
                 && (p < |l| && l[p] == pivot && pivot !in l[..p] ==>
                       && r.reply == Int(|l| + 1)
                       && (before ==> t == Some(List(l[..p] + [value] + l[p..])))
                       && (!before ==> t == Some(List(l[..p + 1] + [value] + l[p + 1..]))))
  {
    hide Purge, Put, Remove, Seen, Due, Only, WellFormed, Apply, Other, ListAt;
    IsListOp(db, DoLInsert(key, before, pivot, value), now);
    Steps(db, key, now);
    Finds(db, key, now);
    SeenNonEmpty(db, key, now);
    var s := Seen(db, key, now);
    if s.Some? && s.value.List? {
      var l, q := s.value.l, FirstAt(s.value.l, pivot);
      var i := if before then q else q + 1;
      if q < |l| { Putting(db, key, List(l[..i] + [value] + l[i..]), now); }
      if p < |l| && l[p] == pivot && pivot !in l[..p] { SamePlace(l, pivot, p); }
    }
  }

  lemma SamePlace(l: seq<string>, x: string, p: nat)
    requires p < |l| && l[p] == x && x !in l[..p]
    ensures FirstAt(l, x) == p
  {}

  /** The list without any occurrence of the element. */
  ghost function Free(l: seq<string>, x: string): seq<string> {
    if l == [] then [] else (if l[0] == x then [] else [l[0]]) + Free(l[1..], x)
  }

  lemma {:induction false} FreeAppend(a: seq<string>, b: seq<string>, x: string)
    ensures Free(a + b, x) == Free(a, x) + Free(b, x)
  {
    if a == [] { assert a + b == b; } else {
      assert (a + b)[1..] == a[1..] + b;
      FreeAppend(a[1..], b, x);
    }
  }

  lemma {:induction false} FreeSize(l: seq<string>, x: string)
    ensures |l| - |Free(l, x)| == multiset(l)[x] && x !in Free(l, x)
  {
    if l != [] {
      FreeSize(l[1..], x);
      assert l == [l[0]] + l[1..];
    }
  }

  /** How often the element occurs. */
  ghost function Times(l: seq<string>, x: string): int { |l| - |Free(l, x)| }

  lemma FreeCons(c: string, l: seq<string>, x: string)
    ensures Free([c] + l, x) == (if c == x then [] else [c]) + Free(l, x)
    ensures Times([c] + l, x) == Times(l, x) + if c == x then 1 else 0
  {
    assert ([c] + l)[1..] == l;
  }

  lemma FreeSnoc(l: seq<string>, c: string, x: string)
    ensures Free(l + [c], x) == Free(l, x) + if c == x then [] else [c]
    ensures Times(l + [c], x) == Times(l, x) + if c == x then 1 else 0
  {
    FreeAppend(l, [c], x);
    assert Free([c], x) == if c == x then [] else [c];
  }

  lemma {:induction false} FirstOnes(l: seq<string>, n: nat, x: string) returns (k: nat)
    ensures k <= |l| && WithoutFirst(l, n, x) == Free(l[..k], x) + l[k..]
    ensures Times(l[..k], x) == if n < Times(l, x) then n else Times(l, x)
    decreases |l|
  {
    hide Free, Times;
    NoTimes(l, x);
    if l == [] || n == 0 { assert l[..0] == [] && l[0..] == l; return 0; }
    var rest := l[1..];
    assert l == [l[0]] + rest;
    k := FirstOnes(rest, if l[0] == x then n - 1 else n, x);
    assert l[..k + 1] == [l[0]] + rest[..k] && l[k + 1..] == rest[k..];
    FreeCons(l[0], rest[..k], x);
    FreeCons(l[0], rest, x);
    NoTimes(rest, x);
    k := k + 1;
  }

  lemma {:induction false} LastOnes(l: seq<string>, n: nat, x: string) returns (k: nat)
    ensures k <= |l| && WithoutLast(l, n, x) == l[..k] + Free(l[k..], x)
    ensures Times(l[k..], x) == if n < Times(l, x) then n else Times(l, x)
    decreases |l|
  {
    hide Free, Times;
    NoTimes(l, x);
    if l == [] || n == 0 { assert l[..|l|] == l && l[|l|..] == []; return |l|; }
    var front, last := l[..|l| - 1], l[|l| - 1];
    assert l == front + [last];
    k := LastOnes(front, if last == x then n - 1 else n, x);
    assert l[..k] == front[..k] && l[k..] == front[k..] + [last];
    FreeSnoc(front[k..], last, x);
    FreeSnoc(front, last, x);
    NoTimes(front, x);
  }

  lemma NoTimes(l: seq<string>, x: string)
    ensures Free([], x) == [] && Times([], x) == 0 && Times(l, x) >= 0
  {
    FreeSize(l, x);
  }

  /**
   * LREM removes that many occurrences, from the front if the count is positive, from the back if it
   * is negative, all if it is zero; `k` is where the part that loses them all ends or begins.
   */
  lemma RemovedIs(l: seq<string>, count: int, x: string) returns (k: nat)
    ensures k <= |l| && forall s :: Times(s, x) == multiset(s)[x] && x !in Free(s, x)
    ensures count == 0 ==> Removed(l, count, x) == Free(l, x)
    ensures count > 0 ==> Removed(l, count, x) == Free(l[..k], x) + l[k..]
    ensures count > 0 ==> Times(l[..k], x) == if count < Times(l, x) then count else Times(l, x)
    ensures count < 0 ==> Removed(l, count, x) == l[..k] + Free(l[k..], x)
    ensures count < 0 ==> Times(l[k..], x) == if -count < Times(l, x) then -count else Times(l, x)
  {
    hide WithoutFirst, WithoutLast, Free;
    forall s ensures Times(s, x) == multiset(s)[x] && x !in Free(s, x) { FreeSize(s, x); }
    k := 0;
    if count > 0 { k := FirstOnes(l, count, x); }
    else if count < 0 { k := LastOnes(l, -count, x); }
    else {
      k := FirstOnes(l, |l|, x);
      assert l == l[..k] + l[k..];
      FreeAppend(l[..k], l[k..], x);
      NoneLeft(l[k..], x);
    }
  }

  lemma {:induction false} NoneLeft(l: seq<string>, x: string)
    requires Times(l, x) == 0
    ensures Free(l, x) == l
  {
    hide Free, Times;
    if l != [] {
      assert l == [l[0]] + l[1..];
      FreeCons(l[0], l[1..], x);
      NoTimes(l[1..], x);
      NoneLeft(l[1..], x);
    } else { NoTimes(l, x); }
  }

  /** The reply is how many were removed, and a list that runs empty is gone. */
  lemma LRemLaw(db: Db, key: string, count: int, x: string, now: int)
    requires WellFormed(db)
    ensures var r := Apply(db, DoLRem(key, count, x), now); var s := Seen(db, key, now); var t := Seen(r.db, key, now);
            && Only({key}, db, r.db)
            && if s.None? then r.reply == Int(0) && t == None
               else if !s.value.List? then r.reply == WrongType && t == s
               else
                 var rest := Removed(s.value.l, count, x);
                 && r.reply == Int(|s.value.l| - |rest|) && t == (if rest == [] then None else Some(List(rest)))
                 && (t.Some? ==> Due(r.db, key, now) == Due(db, key, now))
  {
    hide Purge, Put, Drop, PutOrDrop, Remove, Seen, Due, Only, WellFormed, Apply, Removed, Other, ListAt;
    IsListOp(db, DoLRem(key, count, x), now);
    Steps(db, key, now);
    Finds(db, key, now);
    SeenNonEmpty(db, key, now);
    var s := Seen(db, key, now);
    if s.Some? && s.value.List? {
      Putting(db, key, List(Removed(s.value.l, count, x)), now);
      Dropping(db, key, List(Removed(s.value.l, count, x)), now);
    }
  }

  // ----- sets -----

  lemma MoreMembers(m: set<string>, add: set<string>)
    ensures |m + add| - |m| == |add - m| && |m| - |m - add| == |m * add|
  {
    assert m + add == m + (add - m) && m == (m - add) + m * add;
  }

  lemma NewMembers(m: set<string>, members: seq<string>)
    ensures forall x :: x in m + SetOf(members) <==> x in m || x in members
    ensures |m + SetOf(members)| - |m| == |set x | x in members && x !in m|
    ensures |m| - |m - SetOf(members)| == |set x | x in m && x in members|
    ensures m - SetOf(members) == set x | x in m && x !in members
  {
    MoreMembers(m, SetOf(members));
    assert SetOf(members) - m == set x | x in members && x !in m;
    assert m * SetOf(members) == set x | x in m && x in members;
  }

  /** SADD unites and counts the new members. */
  lemma SAddLaw(db: Db, key: string, members: seq<string>, now: int)
    requires WellFormed(db)
    ensures var r := Apply(db, DoSAdd(key, members), now); var s := Seen(db, key, now); var t := Seen(r.db, key, now);
            && Only({key}, db, r.db) && Due(r.db, key, now) == Due(db, key, now)
            && if members == [] then r.reply == WrongArgs && t == s
               else if s.Some? && !s.value.Set? then r.reply == WrongType && t == s
               else
                 var m := if s.Some? then s.value.m else {};
                 && t.Some? && t.value.Set? && (forall x :: x in t.value.m <==> x in m || x in members)
                 && r.reply == Int(|set x | x in members && x !in m|)
  {
    hide Purge, Put, Seen, Due, Only, WellFormed, Apply, Other, SetAt, SetOf;
    IsSetOp(db, DoSAdd(key, members), now);
    Steps(db, key, now);
    Finds(db, key, now);
    var s := Seen(db, key, now);
    var m := if s.Some? && s.value.Set? then s.value.m else {};
    NewMembers(m, members);
    Putting(db, key, Set(m + SetOf(members)), now);
  }

  /** SREM takes away and counts the members that were there. */
  lemma SRemLaw(db: Db, key: string, members: seq<string>, now: int)
    requires WellFormed(db)
    ensures var r := Apply(db, DoSRem(key, members), now); var s := Seen(db, key, now); var t := Seen(r.db, key, now);
            && Only({key}, db, r.db)
            && if s.None? then r.reply == Int(0) && t == None
               else if !s.value.Set? then r.reply == WrongType && t == s
               else
                 var rest := set x | x in s.value.m && x !in members;
                 && r.reply == Int(|set x | x in s.value.m && x in members|)
                 && t == (if rest == {} then None else Some(Set(rest)))
                 && (t.Some? ==> Due(r.db, key, now) == Due(db, key, now))
  {
    hide Purge, Put, Drop, PutOrDrop, Remove, Seen, Due, Only, WellFormed, Apply, Other, SetAt, SetOf;
    IsSetOp(db, DoSRem(key, members), now);
    Steps(db, key, now);
    Finds(db, key, now);
    SeenNonEmpty(db, key, now);
    var s := Seen(db, key, now);
    var m := if s.Some? && s.value.Set? then s.value.m else {};
    NewMembers(m, members);
    Putting(db, key, Set(m - SetOf(members)), now);
    Dropping(db, key, Set(m - SetOf(members)), now);
  }

  /** SMOVE takes the member out of one set and puts it into the other; within one set it changes nothing. */
  lemma SMoveLaw(db: Db, src: string, dst: string, member: string, now: int)
    requires WellFormed(db)
    ensures var r := Apply(db, DoSMove(src, dst, member), now);
            var s, d := Seen(db, src, now), Seen(db, dst, now);
            && Only({src, dst}, db, r.db)
            && if (s.Some? && !s.value.Set?) || (d.Some? && !d.value.Set?) then
                 r.reply == WrongType && Seen(r.db, src, now) == s && Seen(r.db, dst, now) == d
               else if s.None? || member !in s.value.m then
                 r.reply == Bool(false) && Seen(r.db, src, now) == s && Seen(r.db, dst, now) == d
               else
                 var m := if d.Some? then d.value.m else {};
                 && r.reply == Bool(true) && Seen(r.db, dst, now) == Some(Set(m + {member}))
                 && (src != dst ==>
                       Seen(r.db, src, now) == if s.value.m == {member} then None else Some(Set(s.value.m - {member})))
  {
    hide Purge, Put, PutOrDrop, Seen, Due, Only, WellFormed, Apply, Expired;
    IsSetOp(db, DoSMove(src, dst, member), now);
    PurgingBoth(db, src, dst, now);
    var s, e := Seen(db, src, now), Seen(db, dst, now);
    if s.Some? && s.value.Set? && (e.None? || e.value.Set?) && member in s.value.m {
      MemberStep(db, Purge(Purge(db, src, now), dst, now), src, dst, member, now);
      if src == dst { assert s.value.m + {member} == s.value.m; }
    }
  }

  lemma MemberStep(db: Db, d: Db, src: string, dst: string, member: string, now: int)
    requires WellFormed(d) && !Expired(d, src, now) && !Expired(d, dst, now) && Only({src, dst}, db, d)
    requires src in d.vals && d.vals[src].Set? && member in d.vals[src].m && (dst in d.vals ==> d.vals[dst].Set?)
    ensures var left := PutOrDrop(d, src, Set(d.vals[src].m - {member}));
            var e := Put(left, dst, Set(SetAt(left, dst) + {member}));
            && Only({src, dst}, db, e)
            && Seen(e, dst, now) == Some(Set((if dst in d.vals then d.vals[dst].m else {}) + {member}))
            && (src != dst ==>
                  Seen(e, src, now) ==
                    if d.vals[src].m == {member} then None else Some(Set(d.vals[src].m - {member})))
  {
    hide PutOrDrop, Put, Only, WellFormed, Expired, Seen;
    var m := d.vals[src].m;
    var rest := Set(m - {member});
    var left := PutOrDrop(d, src, rest);
    Storing(d, src, rest, dst, now);
    LiveSeen(left, src, now);
    assert IsEmpty(rest) <==> m == {member};
    var v := Set(SetAt(left, dst) + {member});
    assert member in v.m;
    if src == dst { assert v.m == m + {member}; }
    Storing(left, dst, v, src, now);
    NotDropped(left, dst, v);
    var e := Put(left, dst, v);
    OnlyMore({src}, {src, dst}, d, left);
    OnlyMore({dst}, {src, dst}, left, e);
    OnlyTwice({src, dst}, d, left, e);
    OnlyTwice({src, dst}, db, d, e);
    LiveSeen(e, src, now);
  }

  // ----- sorted sets -----

  /** The position of the last pair that scores the member, or -1. */
  ghost predicate LastScored(ms: seq<Z.ZMember>, x: string, i: int) {
    -1 <= i < |ms| && (i >= 0 ==> ms[i].member == x) && forall j :: i < j < |ms| ==> ms[j].member != x
  }

  lemma LastScoredTail(ms: seq<Z.ZMember>, x: string, i: int)
    requires LastScored(ms, x, i)
    ensures -1 <= i < |ms| && (ms == [] ==> i == -1)
    ensures ms != [] ==>
              && LastScored(ms[1..], x, if i < 0 then -1 else i - 1) && (i < 0 ==> ms[0].member != x)
              && (i == 0 ==> ms[0].member == x) && (i > 0 ==> ms[1..][i - 1] == ms[i])
  {}

  lemma {:induction false} AddScoresIs(z: map<string, real>, ms: seq<Z.ZMember>, x: string, i: int)
    requires LastScored(ms, x, i)
    ensures var g := AddScores(z, ms);
            if i < 0 then (x in g <==> x in z) && (x in z ==> g[x] == z[x]) else x in g && g[x] == ms[i].score
    decreases |ms|
  {
    hide LastScored;
    LastScoredTail(ms, x, i);
    if ms != [] { AddScoresIs(z[ms[0].member := ms[0].score], ms[1..], x, if i < 0 then -1 else i - 1); }
  }

  lemma {:induction false} AddScoresKeeps(z: map<string, real>, ms: seq<Z.ZMember>)
    ensures z.Keys <= AddScores(z, ms).Keys
    decreases |ms|
  {
    if ms != [] { AddScoresKeeps(z[ms[0].member := ms[0].score], ms[1..]); }
  }

  /** ZADD sets each score, of a member named twice the later one, keeps the others, and counts the new members. */
  lemma ZAddLaw(db: Db, key: string, ms: seq<Z.ZMember>, x: string, i: int, now: int)
    requires WellFormed(db) && LastScored(ms, x, i)
    ensures var r := Apply(db, DoZAdd(key, ms), now); var s := Seen(db, key, now); var t := Seen(r.db, key, now);
            && Only({key}, db, r.db) && Due(r.db, key, now) == Due(db, key, now)
            && if ms == [] then r.reply == WrongArgs && t == s
               else if s.Some? && !s.value.ZSet? then r.reply == WrongType && t == s
               else
                 var z := if s.Some? then s.value.z else map[];
                 && t.Some? && t.value.ZSet? && r.reply == Int(|t.value.z.Keys - z.Keys|) && z.Keys <= t.value.z.Keys
                 && if i < 0 then (x in t.value.z <==> x in z) && (x in z ==> t.value.z[x] == z[x])
                    else x in t.value.z && t.value.z[x] == ms[i].score
  {
    hide Purge, Put, Seen, Due, Only, WellFormed, AddScores, LastScored, Apply, Other, ZSetAt;
    IsZSetOp(db, DoZAdd(key, ms), now);
    Steps(db, key, now);
    Finds(db, key, now);
    var s := Seen(db, key, now);
    var z := if s.Some? && s.value.ZSet? then s.value.z else map[];
    AddScoresIs(z, ms, x, i);
    AddScoresKeeps(z, ms);
    NewKeys(z, AddScores(z, ms));
    Putting(db, key, ZSet(AddScores(z, ms)), now);
  }

  /** ZREM takes members away and counts those that were there. */
  lemma ZRemLaw(db: Db, key: string, members: seq<string>, now: int)
    requires WellFormed(db)
    ensures var r := Apply(db, DoZRem(key, members), now); var s := Seen(db, key, now); var t := Seen(r.db, key, now);
            && Only({key}, db, r.db)
            && if s.None? then r.reply == Int(0) && t == None
               else if !s.value.ZSet? then r.reply == WrongType && t == s
               else
                 var rest := map y | y in s.value.z && y !in members :: s.value.z[y];
                 && r.reply == Int(|set y | y in s.value.z && y in members|)
                 && t == (if rest == map[] then None else Some(ZSet(rest)))
                 && (t.Some? ==> Due(r.db, key, now) == Due(db, key, now))
  {
    hide Purge, Put, Drop, PutOrDrop, Remove, Seen, Due, Only, WellFormed, Apply, SetOf, Other, ZSetAt;
    IsZSetOp(db, DoZRem(key, members), now);
    Steps(db, key, now);
    Finds(db, key, now);
    SeenNonEmpty(db, key, now);
    var s := Seen(db, key, now);
    var z := if s.Some? && s.value.ZSet? then s.value.z else map[];
    LostKeys(z, SetOf(members));
    Without(z, members);
    Putting(db, key, ZSet(z - SetOf(members)), now);
    Dropping(db, key, ZSet(z - SetOf(members)), now);
  }

  /** ZINCRBY adds to a score, a missing member counting as zero, and rounds the sum. */
  lemma ZIncrByLaw(db: Db, key: string, incr: real, x: string, round: real -> real, now: int)
    requires WellFormed(db)
    ensures var r := Apply(db, DoZIncrBy(key, incr, x, round), now);
            var s := Seen(db, key, now); var t := Seen(r.db, key, now);
            && Only({key}, db, r.db) && Due(r.db, key, now) == Due(db, key, now)
            && if s.Some? && !s.value.ZSet? then r.reply == WrongType && t == s
               else
                 var z := if s.Some? then s.value.z else map[];
                 && r.reply == Score(round((if x in z then z[x] else 0.0) + incr))
                 && t == Some(ZSet(z[x := r.reply.x]))
  {
    hide Purge, Put, Seen, Due, Only, WellFormed, Apply, Other, ZSetAt;
    IsZSetOp(db, DoZIncrBy(key, incr, x, round), now);
    Steps(db, key, now);
    Finds(db, key, now);
    var s := Seen(db, key, now);
    var z := if s.Some? && s.value.ZSet? then s.value.z else map[];
    Putting(db, key, ZSet(z[x := round((if x in z then z[x] else 0.0) + incr)]), now);
  }

  /**
   * ZPOPMIN replies the lowest members, lowest first, and ZPOPMAX the highest, highest first: one if
   * the count is not positive, all if there are not so many. Exactly these are gone.
   */
  lemma ZPopLaw(db: Db, key: string, count: int, lowest: bool, now: int)
    requires WellFormed(db)
    ensures var r := Apply(db, DoZPop(key, count, lowest), now);
            var s := Seen(db, key, now); var t := Seen(r.db, key, now);
            && Only({key}, db, r.db)
            && if s.None? then r.reply == Ranked([]) && t == None
               else if !s.value.ZSet? then r.reply == WrongType && t == s
               else
                 var all := Z.Listing(s.value.z); var wanted := if count <= 0 then 1 else count;
                 && r.reply.Ranked? && |r.reply.members| == (if wanted < |all| then wanted else |all|)
                 && (forall i :: 0 <= i < |r.reply.members| ==>
                       r.reply.members[i] == all[if lowest then i else |all| - 1 - i])
                 && var rest := s.value.z - (set z | z in r.reply.members :: z.member);
                    && t == (if rest == map[] then None else Some(ZSet(rest)))
                    && (t.Some? ==> Due(r.db, key, now) == Due(db, key, now))
  {
    hide Purge, Put, Drop, PutOrDrop, Remove, Seen, Due, Only, WellFormed, Apply, Z.Listing, Extreme, Other, ZSetAt;
    IsZSetOp(db, DoZPop(key, count, lowest), now);
    Steps(db, key, now);
    Finds(db, key, now);
    SeenNonEmpty(db, key, now);
    var s := Seen(db, key, now);
    if s.Some? && s.value.ZSet? {
      var z := s.value.z;
      var n := Z.PopCount(count, |Z.Listing(z)|);
      var out := Extreme(z, n, lowest);
      ExtremeAt(z, n, lowest);
      Putting(db, key, ZSet(z - Z.Names(out)), now);
      Dropping(db, key, ZSet(z - Z.Names(out)), now);
    }
  }

  lemma ExtremeAt(z: map<string, real>, n: nat, lowest: bool)
    requires n <= |Z.Listing(z)|
    ensures var all, out := Z.Listing(z), Extreme(z, n, lowest);
            |out| == n && forall i :: 0 <= i < n ==> out[i] == all[if lowest then i else |all| - 1 - i]
  {
    hide Z.Listing;
  }

  // ----- streams -----

  /** XADD appends an entry under the ID chosen for it, and replies the ID. */
  lemma XAddLaw(db: Db, key: string, id: string, fields: seq<string>, nowMs: int, now: int)
    requires WellFormed(db)
    ensures var r := Apply(db, DoXAdd(key, id, fields, nowMs), now);
            var s := Seen(db, key, now); var t := Seen(r.db, key, now);
            && Only({key}, db, r.db) && Due(r.db, key, now) == Due(db, key, now)
            && if |fields| == 0 || |fields| % 2 == 1 then r.reply == WrongArgs && t == s
               else if s.Some? && !s.value.Stream? then r.reply == WrongType && t == s
               else
                 var es := if s.Some? then s.value.es else [];
                 var expired := key in db.expires && db.expires[key] <= now;
                 var last := if key in db.lastSeq && !expired then db.lastSeq[key] else 0;
                 var chosen := S.Chosen(es, last, id, nowMs);
                 if chosen.Ok? then
                   && r.reply == Text(chosen.value) && t == Some(Stream(es + [S.Entry(chosen.value, fields)]))
                   && key in r.db.lastSeq && r.db.lastSeq[key] == S.SeqAfter(es, last, id, nowMs)
                 else r.reply == Reply.NotGreater && t == s
  {
    hide Purge, Put, Seen, Due, Only, WellFormed, Apply, Other, StreamAt, S.Chosen, S.SeqAfter, SeqAt;
    IsKeyOp(db, DoXAdd(key, id, fields, nowMs), now);
    Steps(db, key, now);
    Finds(db, key, now);
    Counter(db, key, now);
    var s := Seen(db, key, now);
    var es := if s.Some? && s.value.Stream? then s.value.es else [];
    var last := SeqAt(Purge(db, key, now), key);
    var chosen := S.Chosen(es, last, id, nowMs);
    if chosen.Ok? {
      Putting(db, key, Stream(es + [S.Entry(chosen.value, fields)]), now);
      SameSight(Put(Purge(db, key, now), key, Stream(es + [S.Entry(chosen.value, fields)])),
        Purge(db, key, now).lastSeq[key := S.SeqAfter(es, last, id, nowMs)], db, key, now);
    }
  }

  lemma Counter(db: Db, key: string, now: int)
    ensures SeqAt(Purge(db, key, now), key) ==
              if key in db.lastSeq && !(key in db.expires && db.expires[key] <= now) then db.lastSeq[key] else 0
  {}

  lemma SameSight(e: Db, lastSeq: map<string, int>, db: Db, key: string, now: int)
    ensures Seen(e.(lastSeq := lastSeq), key, now) == Seen(e, key, now)
    ensures Due(e.(lastSeq := lastSeq), key, now) == Due(e, key, now)
    ensures Only({key}, db, e) ==> Only({key}, db, e.(lastSeq := lastSeq))
  {}

  // ----- any type -----

  /** DEL: none of the keys is seen any more, and those that were are counted once each. */
  lemma DelLaw(db: Db, keys: seq<string>, key: string, now: int)
    requires WellFormed(db)
    ensures var r := Apply(db, DoDel(keys), now);
            && r.reply == Int(|set k | k in keys && Seen(db, k, now).Some?|)
            && Seen(r.db, key, now) == (if key in keys then None else Seen(db, key, now))
            && (key !in keys ==> Due(r.db, key, now) == Due(db, key, now)) && Only(SetOf(keys), db, r.db)
  {
    hide WellFormed, Apply;
    IsKeyOp(db, DoDel(keys), now);
    assert LiveAmong(db, keys, now) == set k | k in keys && Seen(db, k, now).Some?;
    RemovedOnly(db, HeldAmong(db, keys, now), SetOf(keys));
  }

  lemma RemovedOnly(db: Db, gone: set<string>, keys: set<string>)
    requires gone <= keys
    ensures Only(keys, db, RemoveAll(db, gone))
  {
    assert (db.vals - gone) - keys == db.vals - keys && (db.expires - gone) - keys == db.expires - keys;
  }

  /** EXPIRE and PERSIST set and clear the time of a key that can be seen, and leave its value alone. */
  lemma ExpiryLaws(db: Db, key: string, at: Option<int>, now: int)
    requires WellFormed(db)
    ensures var r := Apply(db, DoExpire(key, at), now); var s := Seen(db, key, now);
            && Only({key}, db, r.db) && r.reply == Bool(s.Some?)
            && (at.None? || now < at.value ==> Seen(r.db, key, now) == s && (s.Some? ==> Due(r.db, key, now) == at))
            && (at.Some? && at.value <= now ==> Seen(r.db, key, now) == None)
    ensures var r := Apply(db, DoPersist(key), now); var s := Seen(db, key, now);
            && Only({key}, db, r.db) && Seen(r.db, key, now) == s && Due(r.db, key, now) == None
            && r.reply == Bool(Due(db, key, now).Some?)
  {
    hide Apply;
    IsKeyOp(db, DoExpire(key, at), now);
    IsKeyOp(db, DoPersist(key), now);
  }

  /** RENAME: the value and its time are found under the new name and the old one is gone; onto itself it deletes. */
  lemma RenameLaw(db: Db, key: string, newkey: string, now: int)
    requires WellFormed(db)
    ensures var r := Apply(db, DoRename(key, newkey), now); var s := Seen(db, key, now);
            && Only({key, newkey}, db, r.db)
            && if s.None? then r.reply == NoSuchKey && Seen(r.db, newkey, now) == Seen(db, newkey, now)
               else
                 && r.reply == Done && Seen(r.db, key, now) == None
                 && (key != newkey ==> Seen(r.db, newkey, now) == s && Due(r.db, newkey, now) == Due(db, key, now))
  {
    hide Apply, Purge, Seen, Due, Only, WellFormed, Expired, Remove, Moved;
    IsKeyOp(db, DoRename(key, newkey), now);
    Steps(db, key, now);
    PurgingBoth(db, key, key, now);
    FirstStays(db, key, newkey, now);
    OnlyMore({key}, {key, newkey}, db, Purge(db, key, now));
    if Seen(db, key, now).Some? { RenameStep(db, Purge(db, key, now), key, newkey, now); }
  }

  lemma RenameStep(db: Db, d: Db, key: string, newkey: string, now: int)
    requires WellFormed(d) && !Expired(d, key, now) && Only({key, newkey}, db, d) && key in d.vals
    ensures var e := Remove(d, newkey);
            && (key == newkey ==> Seen(e, key, now) == None && Only({key, newkey}, db, e))
            && (key != newkey ==>
                  var f := Db((e.vals - {key})[newkey := d.vals[key]], Moved(e.expires, key, newkey),
                              Moved(e.lastSeq, key, newkey));
                  && Only({key, newkey}, db, f) && Seen(f, key, now) == None
                  && Seen(f, newkey, now) == Seen(d, key, now) && Due(f, newkey, now) == Due(d, key, now))
  {}

  /** COPY: both names hold the value and its time; another value goes only on request; onto itself it deletes. */
  lemma CopyLaw(db: Db, src: string, dst: string, replace: bool, now: int)
    requires WellFormed(db)
    ensures var r := Apply(db, DoCopy(src, dst, replace), now); var s, d := Seen(db, src, now), Seen(db, dst, now);
            && Only({src, dst}, db, r.db) && r.reply == Bool(s.Some? && (d.None? || replace))
            && (!r.reply.b ==> Seen(r.db, src, now) == s && Seen(r.db, dst, now) == d)
            && (r.reply.b && src != dst ==>
                  && Seen(r.db, src, now) == Seen(r.db, dst, now) == s
                  && Due(r.db, src, now) == Due(r.db, dst, now) == Due(db, src, now))
            && (r.reply.b && src == dst ==> Seen(r.db, src, now) == None)
  {
    hide Apply, Purge, Seen, Due, Only, WellFormed, Expired, Remove, Also;
    IsKeyOp(db, DoCopy(src, dst, replace), now);
    Steps(db, src, now);
    Steps(db, dst, now);
    FirstStays(db, src, dst, now);
    PurgingBoth(db, src, dst, now);
    OnlyMore({src}, {src, dst}, db, Purge(db, src, now));
    var e := Purge(Purge(db, src, now), dst, now);
    DueStays(db, src, dst, now);
    if src in e.vals { CopyStep(db, e, src, dst, now); }
  }

  lemma DueStays(db: Db, src: string, dst: string, now: int)
    requires WellFormed(db)
    ensures Due(Purge(Purge(db, src, now), dst, now), src, now) == Due(db, src, now)
  {}

  lemma CopyStep(db: Db, e: Db, src: string, dst: string, now: int)
    requires WellFormed(e) && !Expired(e, src, now) && !Expired(e, dst, now) && Only({src, dst}, db, e) && src in e.vals
    ensures var f := if dst in e.vals then Remove(e, dst) else e;
            && (src == dst ==> src !in f.vals && Seen(f, src, now) == None && Only({src, dst}, db, f))
            && (src != dst ==>
                  && src in f.vals
                  && var g := Db(f.vals[dst := f.vals[src]], Also(f.expires, src, dst), Also(f.lastSeq, src, dst));
                     && Only({src, dst}, db, g) && Seen(g, src, now) == Seen(g, dst, now) == Seen(e, src, now)
                     && Due(g, src, now) == Due(g, dst, now) == Due(e, src, now))
  {}
}
