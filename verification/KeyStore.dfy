/**
 * The store's own representation (internal/store/store.go): six maps, one per type, plus expiry
 * times and stream counters. Every mutator is shown to keep each key in at most one map and to
 * act on the maps as module Keyspace says it acts on the single map that clients see.
 */
module KeyStore {
  import opened Common
  import opened Decimal
  import opened Streams
  import opened Keyspace
  import opened Strings
  import SA = SetAlgebra
  import Z = SortedSets

  datatype Maps = Maps(
    kv: map<string, string>,
    hashes: map<string, map<string, string>>,
    lists: map<string, seq<string>>,
    sets: map<string, set<string>>,
    zsets: map<string, map<string, real>>,
    streams: map<string, seq<Entry>>)

  /** No key is in two of the maps. */
  ghost predicate Disjoint(m: Maps) {
    && m.kv.Keys !! m.hashes.Keys && m.kv.Keys !! m.lists.Keys && m.kv.Keys !! m.sets.Keys
    && m.kv.Keys !! m.zsets.Keys && m.kv.Keys !! m.streams.Keys && m.hashes.Keys !! m.lists.Keys
    && m.hashes.Keys !! m.sets.Keys && m.hashes.Keys !! m.zsets.Keys && m.hashes.Keys !! m.streams.Keys
    && m.lists.Keys !! m.sets.Keys && m.lists.Keys !! m.zsets.Keys && m.lists.Keys !! m.streams.Keys
    && m.sets.Keys !! m.zsets.Keys && m.sets.Keys !! m.streams.Keys && m.zsets.Keys !! m.streams.Keys
  }

  /** The typed value a key holds in the maps, if any. */
  function Held(m: Maps, key: string): Option<Val> {
    if key in m.kv then Some(Str(m.kv[key]))
    else if key in m.hashes then Some(Hash(m.hashes[key]))
    else if key in m.lists then Some(List(m.lists[key]))
    else if key in m.sets then Some(Set(m.sets[key]))
    else if key in m.zsets then Some(ZSet(m.zsets[key]))
    else if key in m.streams then Some(Stream(m.streams[key]))
    else None
  }

  ghost function AllKeys(m: Maps): set<string> {
    m.kv.Keys + m.hashes.Keys + m.lists.Keys + m.sets.Keys + m.zsets.Keys + m.streams.Keys
  }

  /** The single map that clients see. */
  ghost function View(m: Maps): map<string, Val> {
    map k | k in AllKeys(m) :: Held(m, k).value
  }

  function Erase(m: Maps, key: string): Maps {
    Maps(m.kv - {key}, m.hashes - {key}, m.lists - {key}, m.sets - {key}, m.zsets - {key}, m.streams - {key})
  }

  /** Which of the maps a typed value belongs in. */
  function Insert(m: Maps, key: string, v: Val): Maps {
    match v
    case Str(s) => m.(kv := m.kv[key := s])
    case Hash(h) => m.(hashes := m.hashes[key := h])
    case List(l) => m.(lists := m.lists[key := l])
    case Set(s) => m.(sets := m.sets[key := s])
    case ZSet(z) => m.(zsets := m.zsets[key := z])
    case Stream(es) => m.(streams := m.streams[key := es])
  }

  lemma HeldErase(m: Maps, key: string, k: string)
    ensures Held(Erase(m, key), k) == if k == key then None else Held(m, k)
  {}

  lemma EraseView(m: Maps, key: string)
    requires Disjoint(m)
    ensures Disjoint(Erase(m, key)) && View(Erase(m, key)) == View(m) - {key}
  {
    hide Held, Erase;
    EraseDisjoint(m, key);
    forall k ensures Held(Erase(m, key), k) == if k == key then None else Held(m, k) { HeldErase(m, key, k); }
    HeldView(m);
    HeldView(Erase(m, key));
  }

  lemma EraseDisjoint(m: Maps, key: string)
    requires Disjoint(m)
    ensures Disjoint(Erase(m, key))
  {}

  lemma HeldView(m: Maps)
    ensures forall k :: (k in View(m) <==> Held(m, k).Some?) && (k in View(m) ==> View(m)[k] == Held(m, k).value)
  {}

  lemma HeldInsert(m: Maps, key: string, v: Val, k: string)
    requires Disjoint(m) && (Held(m, key).None? || SameType(Held(m, key).value, v))
    ensures Held(Insert(m, key, v), k) == if k == key then Some(v) else Held(m, k)
  {}

  lemma InsertDisjoint(m: Maps, key: string, v: Val)
    requires Disjoint(m) && (Held(m, key).None? || SameType(Held(m, key).value, v))
    ensures Disjoint(Insert(m, key, v))
  {}

  lemma InsertView(m: Maps, key: string, v: Val)
    requires Disjoint(m) && (Held(m, key).None? || SameType(Held(m, key).value, v))
    ensures Disjoint(Insert(m, key, v)) && View(Insert(m, key, v)) == View(m)[key := v]
  {
    hide Held, Insert, SameType;
    InsertDisjoint(m, key, v);
    forall k
      ensures Held(Insert(m, key, v), k) == if k == key then Some(v) else Held(m, k)
    {
      HeldInsert(m, key, v, k);
    }
    HeldView(m);
    HeldView(Insert(m, key, v));
  }

  /** Taking a key out of its own map is taking it out of all of them. */
  function Extract(m: Maps, key: string, v: Val): Maps {
    match v
    case Str(_) => m.(kv := m.kv - {key})
    case Hash(_) => m.(hashes := m.hashes - {key})
    case List(_) => m.(lists := m.lists - {key})
    case Set(_) => m.(sets := m.sets - {key})
    case ZSet(_) => m.(zsets := m.zsets - {key})
    case Stream(_) => m.(streams := m.streams - {key})
  }

  lemma HeldTake(m: Maps, key: string, v: Val, k: string)
    requires Disjoint(m) && (Held(m, key).None? || SameType(Held(m, key).value, v))
    ensures Held(Extract(m, key, v), k) == if k == key then None else Held(m, k)
  {}

  lemma TakeDisjoint(m: Maps, key: string, v: Val)
    requires Disjoint(m)
    ensures Disjoint(Extract(m, key, v))
  {}

  lemma ExtractView(m: Maps, key: string, v: Val)
    requires Disjoint(m) && (Held(m, key).None? || SameType(Held(m, key).value, v))
    ensures Disjoint(Extract(m, key, v)) && View(Extract(m, key, v)) == View(m) - {key}
  {
    hide Held, Extract, SameType;
    TakeDisjoint(m, key, v);
    forall k ensures Held(Extract(m, key, v), k) == if k == key then None else Held(m, k) { HeldTake(m, key, v, k); }
    HeldView(m);
    HeldView(Extract(m, key, v));
  }

  /** What membership in each map says about the view. */
  lemma Kinds(m: Maps, key: string)
    requires Disjoint(m)
    ensures key in View(m) <==> Held(m, key).Some?
    ensures key in View(m) ==> View(m)[key] == Held(m, key).value
    ensures key in m.kv <==> Held(m, key).Some? && Held(m, key).value.Str?
    ensures key in m.hashes <==> Held(m, key).Some? && Held(m, key).value.Hash?
    ensures key in m.lists <==> Held(m, key).Some? && Held(m, key).value.List?
    ensures key in m.sets <==> Held(m, key).Some? && Held(m, key).value.Set?
    ensures key in m.zsets <==> Held(m, key).Some? && Held(m, key).value.ZSet?
    ensures key in m.streams <==> Held(m, key).Some? && Held(m, key).value.Stream?
  {
    HeldView(m);
  }

  /** Go's copy into a slice that begins at `at`: as much of the text as there is room for. */
  method CopyInto(buf: array<char>, at: nat, s: string)
    requires at <= buf.Length
    modifies buf
    ensures forall i :: 0 <= i < buf.Length ==> buf[i] == if at <= i < at + |s| then s[i - at] else old(buf[i])
  {
    var i := 0;
    while i < |s| && at + i < buf.Length
      invariant 0 <= i <= |s| && at + i <= buf.Length
      invariant forall k :: 0 <= k < buf.Length ==> buf[k] == if at <= k < at + i then s[k - at] else old(buf[k])
    {
      buf[at + i] := s[i];
      i := i + 1;
    }
  }

  /** Either a zeroed buffer takes the old text and then the new one, or a copy of the old text takes the new one. */
  method Overlay(current: string, offset: nat, value: string) returns (r: string)
    ensures r == WriteAt(current, offset, value)
  {
    hide WriteAt;
    var needed := offset + |value|;
    var buf: array<char>;
    if needed > |current| {
      buf := new char[needed](_ => '\0');
      CopyInto(buf, 0, current);
    } else {
      buf := new char[|current|](i requires 0 <= i < |current| => current[i]);
    }
    CopyInto(buf, offset, value);
    r := buf[..];
  }

  /** What was written can be read back, nothing else of the old text changes, and writing it again changes nothing. */
  lemma WrittenReadsBack(s: string, offset: nat, value: string)
    ensures var r := WriteAt(s, offset, value);
            && r[offset..offset + |value|] == value && WriteAt(r, offset, value) == r
            && forall i :: 0 <= i < |s| && !(offset <= i < offset + |value|) ==> r[i] == s[i]
  {
    hide WriteAt;
  }

  class Store {
    var kv: map<string, string>
    var hashes: map<string, map<string, string>>
    var lists: map<string, seq<string>>
    var sets: map<string, set<string>>
    var zsets: map<string, map<string, real>>
    var streams: map<string, seq<Entry>>
    var expires: map<string, int>
    var lastSeq: map<string, int>

    function Typed(): Maps reads this { Maps(kv, hashes, lists, sets, zsets, streams) }

    /** What clients see. */
    ghost function Abs(): Db reads this { Db(View(Typed()), expires, lastSeq) }

    ghost predicate Separate() reads this { Disjoint(Typed()) }

    /** No key in two maps, no empty container, no expiry without its key. */
    ghost predicate Valid() reads this { Separate() && WellFormed(Abs()) }

    constructor ()
      ensures Valid() && Abs() == Db(map[], map[], map[])
    {
      kv, hashes, lists, sets, zsets, streams := map[], map[], map[], map[], map[], map[];
      expires, lastSeq := map[], map[];
      new;
      assert View(Typed()) == map[];
    }

    method Load(m: Maps)
      modifies this
      ensures Typed() == m && expires == old(expires) && lastSeq == old(lastSeq)
    {
      kv, hashes, lists, sets, zsets, streams := m.kv, m.hashes, m.lists, m.sets, m.zsets, m.streams;
    }

    /** FlushDB. */
    method Clear()
      modifies this
      ensures Valid() && Abs() == Db(map[], map[], map[])
    {
      kv, hashes, lists, sets, zsets, streams := map[], map[], map[], map[], map[], map[];
      expires, lastSeq := map[], map[];
      assert View(Typed()) == map[];
    }

    /** deleteKeyLocked. */
    method Delete(key: string)
      requires Separate()
      modifies this
      ensures Separate() && Abs() == Remove(old(Abs()), key)
    {
      hide View, Disjoint;
      EraseView(Typed(), key);
      kv, hashes, lists := kv - {key}, hashes - {key}, lists - {key};
      sets, zsets, streams := sets - {key}, zsets - {key}, streams - {key};
      expires, lastSeq := expires - {key}, lastSeq - {key};
    }

    /** expiredKeyLocked. */
    method PurgeKey(key: string, now: int) returns (expired: bool)
      requires Separate()
      modifies this
      ensures Separate() && Abs() == Purge(old(Abs()), key, now) && expired == Expired(old(Abs()), key, now)
    {
      hide View, Disjoint;
      if key !in expires || now < expires[key] { return false; }
      Delete(key);
      return true;
    }

    /** Puts a value into the map of its type. */
    method PutVal(key: string, v: Val)
      requires Separate() && !Other(Abs(), key, v)
      modifies this
      ensures Separate() && Abs() == Put(old(Abs()), key, v) && lastSeq == old(lastSeq) && expires == old(expires)
    {
      hide View, Disjoint, Insert;
      Kinds(Typed(), key);
      InsertView(Typed(), key, v);
      Load(Insert(Typed(), key, v));
    }

    /** Deletes a container that has run empty, together with its expiry time. */
    method DropVal(key: string, v: Val)
      requires Separate() && !Other(Abs(), key, v)
      modifies this
      ensures Separate() && Abs() == Drop(old(Abs()), key)
    {
      hide View, Disjoint, Extract;
      Kinds(Typed(), key);
      ExtractView(Typed(), key, v);
      Load(Extract(Typed(), key, v));
      expires := expires - {key};
    }

    method StoreVal(key: string, v: Val)
      requires Separate() && !Other(Abs(), key, v)
      modifies this
      ensures Separate() && Abs() == PutOrDrop(old(Abs()), key, v)
    {
      hide View, Disjoint;
      if IsEmpty(v) { DropVal(key, v); } else { PutVal(key, v); }
    }

    /** The assignments shared by Set, SetAbsolute, SetXX and GetSet. */
    method PutString(key: string, value: string, at: Option<int>)
      requires Separate()
      modifies this
      ensures Separate() && Abs() == Overwrite(old(Abs()), key, value, at)
    {
      hide View, Disjoint;
      OverwriteView(Typed(), key, value);
      kv := kv[key := value];
      hashes, lists, sets := hashes - {key}, lists - {key}, sets - {key};
      zsets, streams, lastSeq := zsets - {key}, streams - {key}, lastSeq - {key};
      if at.Some? { expires := expires[key := at.value]; } else { expires := expires - {key}; }
    }

    // ----- strings -----

    method SetAbsolute(key: string, value: string, at: Option<int>) returns (r: Reply)
      requires Valid()
      modifies this
      ensures Valid() && Outcome(Abs(), r) == Keyspace.SetAbsolute(old(Abs()), key, value, at)
    {
      hide View, Disjoint, WellFormed;
      OverwriteWF(Abs(), key, value, at);
      PutString(key, value, at);
      return Done;
    }

    method SetNX(key: string, value: string, ttl: int, now: int) returns (r: Reply)
      requires Valid()
      modifies this
      ensures Valid() && Outcome(Abs(), r) == Keyspace.SetNX(old(Abs()), key, value, ttl, now)
    {
      hide View, Disjoint, WellFormed, Purge;
      StringsWF(Abs(), key, value, ttl, now);
      var _ := PurgeKey(key, now);
      Kinds(Typed(), key);
      if Held(Typed(), key).Some? { return Bool(false); }
      PutVal(key, Str(value));
      if ttl > 0 { expires := expires[key := now + ttl]; }
      return Bool(true);
    }

    method SetXX(key: string, value: string, ttl: int, now: int) returns (r: Reply)
      requires Valid()
      modifies this
      ensures Valid() && Outcome(Abs(), r) == Keyspace.SetXX(old(Abs()), key, value, ttl, now)
    {
      hide View, Disjoint, WellFormed, Purge, Overwrite;
      StringsWF(Abs(), key, value, ttl, now);
      var _ := PurgeKey(key, now);
      Kinds(Typed(), key);
      if Held(Typed(), key).None? { return Bool(false); }
      PutString(key, value, if ttl > 0 then Some(now + ttl) else None);
      return Bool(true);
    }

    /** The or-chain of the string commands: the key is in one of the other maps. */
    predicate NotString(key: string) reads this {
      key in hashes || key in lists || key in sets || key in zsets || key in streams
    }

    method IncrBy(key: string, delta: int, now: int) returns (r: Reply)
      requires Valid()
      modifies this
      ensures Valid() && Outcome(Abs(), r) == Keyspace.IncrBy(old(Abs()), key, delta, now)
    {
      hide View, Disjoint, WellFormed, Purge, ParseInt, FormatInt, Add64;
      EditsWF(Abs(), key, "", 0, delta, now);
      var _ := PurgeKey(key, now);
      Kinds(Typed(), key);
      if NotString(key) { return WrongType; }
      var n := 0;
      if key in kv {
        var parsed := ParseInt(kv[key]);
        if !parsed.Number? { return NotInteger; }
        n := parsed.n;
      }
      n := Add64(n, delta);
      PutVal(key, Str(FormatInt(n)));
      return Int(n);
    }

    method Append(key: string, value: string, now: int) returns (r: Reply)
      requires Valid()
      modifies this
      ensures Valid() && Outcome(Abs(), r) == Keyspace.Append(old(Abs()), key, value, now)
    {
      hide View, Disjoint, WellFormed, Purge;
      EditsWF(Abs(), key, value, 0, 0, now);
      var _ := PurgeKey(key, now);
      Kinds(Typed(), key);
      if NotString(key) { return WrongType; }
      var data := if key in kv then kv[key] else "";
      assert "" + value == value;
      PutVal(key, Str(data + value));
      return Int(|data + value|);
    }

    method GetSet(key: string, value: string, now: int) returns (r: Reply)
      requires Valid()
      modifies this
      ensures Valid() && Outcome(Abs(), r) == Keyspace.GetSet(old(Abs()), key, value, now)
    {
      hide View, Disjoint, WellFormed, Purge, Overwrite;
      StringsWF(Abs(), key, value, 0, now);
      var _ := PurgeKey(key, now);
      Kinds(Typed(), key);
      if NotString(key) { return WrongType; }
      var was := if key in kv then Text(kv[key]) else Nil;
      PutString(key, value, None);
      return was;
    }

    method SetRange(key: string, offset: int, value: string, now: int) returns (r: Reply)
      requires Valid()
      modifies this
      ensures Valid() && Outcome(Abs(), r) == Keyspace.SetRange(old(Abs()), key, offset, value, now)
    {
      hide View, Disjoint, WellFormed, Purge, WriteAt;
      EditsWF(Abs(), key, value, offset, 0, now);
      var _ := PurgeKey(key, now);
      Kinds(Typed(), key);
      if NotString(key) { return WrongType; }
      if offset < 0 { return Reply.OutOfRange; }
      var data := Overlay(if key in kv then kv[key] else "", offset, value);
      PutVal(key, Str(data));
      return Int(|data|);
    }

    method GetDel(key: string, now: int) returns (r: Reply)
      requires Valid()
      modifies this
      ensures Valid() && Outcome(Abs(), r) == Keyspace.GetDel(old(Abs()), key, now)
    {
      hide View, Disjoint, WellFormed, Purge, Remove;
      StringsWF(Abs(), key, "", 0, now);
      var _ := PurgeKey(key, now);
      Kinds(Typed(), key);
      if key !in kv { return Nil; }
      r := Text(kv[key]);
      Delete(key);
    }

    method MSetNX(pairs: seq<(string, string)>, now: int) returns (r: Reply)
      requires Valid()
      modifies this
      ensures Valid() && Outcome(Abs(), r) == Keyspace.MSetNX(old(Abs()), pairs, now)
    {
      hide View, Disjoint, WellFormed, FirstTaken, PutAll, Purge;
      MSetNXWF(Abs(), pairs, now);
      var taken := AnyTaken(pairs, now);
      if taken { return Bool(false); }
      StoreAll(pairs);
      return Bool(true);
    }

    method AnyTaken(pairs: seq<(string, string)>, now: int) returns (taken: bool)
      requires Separate()
      modifies this
      ensures Separate() && (Abs(), taken) == FirstTaken(old(Abs()), pairs, now)
      ensures !taken ==> forall i :: 0 <= i < |pairs| ==> pairs[i].0 !in Abs().vals
    {
      hide View, Disjoint, Purge;
      assert pairs[0..] == pairs;
      for i := 0 to |pairs|
        invariant Separate() && FirstTaken(Abs(), pairs[i..], now) == FirstTaken(old(Abs()), pairs, now)
        invariant forall j :: 0 <= j < i ==> pairs[j].0 !in Abs().vals
      {
        assert pairs[i..][1..] == pairs[i + 1..];
        ghost var before := Abs();
        var _ := PurgeKey(pairs[i].0, now);
        PurgeShrinks(before, pairs[i].0, now);
        Kinds(Typed(), pairs[i].0);
        if Held(Typed(), pairs[i].0).Some? { return true; }
      }
      return false;
    }

    method StoreAll(pairs: seq<(string, string)>)
      requires Separate() && forall i :: 0 <= i < |pairs| ==> pairs[i].0 !in Abs().vals
      modifies this
      ensures Separate() && Abs() == PutAll(old(Abs()), pairs)
    {
      hide View, Disjoint;
      assert pairs[0..] == pairs;
      for i := 0 to |pairs|
        invariant Separate() && PutAll(Abs(), pairs[i..]) == PutAll(old(Abs()), pairs)
        invariant forall j :: i <= j < |pairs| && pairs[j].0 in Abs().vals ==> Abs().vals[pairs[j].0].Str?
      {
        assert pairs[i..][1..] == pairs[i + 1..];
        PutVal(pairs[i].0, Str(pairs[i].1));
        expires := expires - {pairs[i].0};
      }
    }

    // ----- hashes -----

    predicate NotHash(key: string) reads this {
      key in kv || key in lists || key in sets || key in zsets || key in streams
    }

    method HSet(key: string, pairs: seq<(string, string)>, now: int) returns (r: Reply)
      requires Valid()
      modifies this
      ensures Valid() && Outcome(Abs(), r) == Keyspace.HSet(old(Abs()), key, pairs, now)
    {
      hide View, Disjoint, WellFormed, Purge, SetFields;
      HSetWF(Abs(), key, pairs, now);
      if |pairs| == 0 { return WrongArgs; }
      var _ := PurgeKey(key, now);
      Kinds(Typed(), key);
      if NotHash(key) { return WrongType; }
      var h, added := AssignFields(if key in hashes then hashes[key] else map[], pairs);
      PutVal(key, Hash(h));
      return Int(added);
    }

    method HDel(key: string, fields: seq<string>, now: int) returns (r: Reply)
      requires Valid()
      modifies this
      ensures Valid() && Outcome(Abs(), r) == Keyspace.HDel(old(Abs()), key, fields, now)
    {
      hide View, Disjoint, WellFormed, PutOrDrop, Remove, SetOf;
      HDelWF(Abs(), key, fields, now);
      PurgeIs(Abs(), key, now);
      var expired := PurgeKey(key, now);
      if expired { return Int(0); }
      Kinds(Typed(), key);
      if NotHash(key) { return WrongType; }
      if key !in hashes { return Int(0); }
      var h, deleted := DeleteKeys(hashes[key], fields);
      StoreVal(key, Hash(h));
      return Int(deleted);
    }

    method HIncrBy(key: string, field: string, delta: int, now: int) returns (r: Reply)
      requires Valid()
      modifies this
      ensures Valid() && Outcome(Abs(), r) == Keyspace.HIncrBy(old(Abs()), key, field, delta, now)
    {
      hide View, Disjoint, WellFormed, Purge, ParseInt, FormatInt, Add64;
      HFieldWF(Abs(), key, field, "", delta, now);
      var _ := PurgeKey(key, now);
      Kinds(Typed(), key);
      if NotHash(key) { return WrongType; }
      var h := if key in hashes then hashes[key] else map[];
      var n := 0;
      if field in h {
        var parsed := ParseInt(h[field]);
        if !parsed.Number? { return NotInteger; }
        n := parsed.n;
      }
      n := Add64(n, delta);
      PutVal(key, Hash(h[field := FormatInt(n)]));
      return Int(n);
    }

    method HSetNX(key: string, field: string, value: string, now: int) returns (r: Reply)
      requires Valid()
      modifies this
      ensures Valid() && Outcome(Abs(), r) == Keyspace.HSetNX(old(Abs()), key, field, value, now)
    {
      hide View, Disjoint, WellFormed, Purge;
      HFieldWF(Abs(), key, field, value, 0, now);
      var _ := PurgeKey(key, now);
      Kinds(Typed(), key);
      if NotHash(key) { return WrongType; }
      var h := if key in hashes then hashes[key] else map[];
      if field in h { return Bool(false); }
      PutVal(key, Hash(h[field := value]));
      return Bool(true);
    }

    // ----- lists -----

    predicate NotList(key: string) reads this {
      key in kv || key in hashes || key in sets || key in zsets || key in streams
    }

    function Items(key: string): seq<string> reads this { if key in lists then lists[key] else [] }

    method PushList(key: string, left: bool, values: seq<string>, now: int) returns (r: Reply)
      requires Valid()
      modifies this
      ensures Valid() && Outcome(Abs(), r) == Keyspace.Push(old(Abs()), key, left, values, now)
    {
      hide View, Disjoint, WellFormed, Purge, Pushed;
      PushWF(Abs(), key, left, values, now);
      if |values| == 0 { return WrongArgs; }
      var _ := PurgeKey(key, now);
      Kinds(Typed(), key);
      if NotList(key) { return WrongType; }
      var l := Pushed(Items(key), left, values);
      PutVal(key, List(l));
      return Int(|l|);
    }

    method PopList(key: string, left: bool, now: int) returns (r: Reply)
      requires Valid()
      modifies this
      ensures Valid() && Outcome(Abs(), r) == Keyspace.Pop(old(Abs()), key, left, now)
    {
      hide View, Disjoint, WellFormed, PutOrDrop, Remove, End, Shorter;
      PopWF(Abs(), key, left, now);
      PurgeIs(Abs(), key, now);
      var expired := PurgeKey(key, now);
      if expired { return Nil; }
      Kinds(Typed(), key);
      if NotList(key) { return WrongType; }
      var l := Items(key);
      if l == [] { return Nil; }
      StoreVal(key, List(Shorter(l, left)));
      return Text(End(l, left));
    }

    method LMove(src: string, dst: string, srcLeft: bool, dstLeft: bool, now: int) returns (r: Reply)
      requires Valid()
      modifies this
      ensures Valid() && Outcome(Abs(), r) == Keyspace.LMove(old(Abs()), src, dst, srcLeft, dstLeft, now)
    {
      hide View, Disjoint, WellFormed, Purge, PutOrDrop, End, Shorter, Pushed;
      LMoveWF(Abs(), src, dst, srcLeft, dstLeft, now);
      var _ := PurgeKey(src, now);
      Kinds(Typed(), src);
      if NotList(src) { return WrongType; }
      if Items(src) == [] { return Nil; }
      if src != dst {
        PurgeElsewhere(Abs(), src, dst, now);
        var _ := PurgeKey(dst, now);
        Kinds(Typed(), dst);
        if NotList(dst) { return WrongType; }
        Kinds(Typed(), src);
      }
      var l := Items(src);
      var val := End(l, srcLeft);
      ghost var before := Abs();
      StoreVal(src, List(Shorter(l, srcLeft)));
      StoreKeepsType(before, src, dst, List(Shorter(l, srcLeft)));
      Kinds(Typed(), dst);
      PutVal(dst, List(Pushed(Items(dst), dstLeft, [val])));
      return Text(val);
    }

    method LSet(key: string, index: int, value: string, now: int) returns (r: Reply)
      requires Valid()
      modifies this
      ensures Valid() && Outcome(Abs(), r) == Keyspace.LSet(old(Abs()), key, index, value, now)
    {
      hide View, Disjoint, WellFormed, Remove;
      LSetWF(Abs(), key, index, value, now);
      PurgeIs(Abs(), key, now);
      var expired := PurgeKey(key, now);
      if expired { return NoSuchKey; }
      Kinds(Typed(), key);
      if NotList(key) { return WrongType; }
      var l := Items(key);
      if l == [] { return NoSuchKey; }
      var i := if index < 0 then |l| + index else index;
      if i < 0 || i >= |l| { return Reply.OutOfRange; }
      PutVal(key, List(l[i := value]));
      return Done;
    }

    method LInsert(key: string, before: bool, pivot: string, value: string, now: int) returns (r: Reply)
      requires Valid()
      modifies this
      ensures Valid() && Outcome(Abs(), r) == Keyspace.LInsert(old(Abs()), key, before, pivot, value, now)
    {
      hide View, Disjoint, WellFormed, Remove, FirstAt;
      LInsertWF(Abs(), key, before, pivot, value, now);
      PurgeIs(Abs(), key, now);
      var expired := PurgeKey(key, now);
      if expired { return Int(0); }
      Kinds(Typed(), key);
      if NotList(key) { return WrongType; }
      var l := Items(key);
      if l == [] { return Int(0); }
      var idx := FindPivot(l, pivot);
      if idx == |l| { return Int(-1); }
      if !before { idx := idx + 1; }
      PutVal(key, List(l[..idx] + [value] + l[idx..]));
      return Int(|l| + 1);
    }

    method LRem(key: string, count: int, value: string, now: int) returns (r: Reply)
      requires Valid()
      modifies this
      ensures Valid() && Outcome(Abs(), r) == Keyspace.LRem(old(Abs()), key, count, value, now)
    {
      hide View, Disjoint, WellFormed, Remove, PutOrDrop, Removed;
      LRemWF(Abs(), key, count, value, now);
      PurgeIs(Abs(), key, now);
      var expired := PurgeKey(key, now);
      if expired { return Int(0); }
      Kinds(Typed(), key);
      if NotList(key) { return WrongType; }
      var l := Items(key);
      if l == [] { return Int(0); }
      var kept := KeepOthers(l, count, value);
      StoreVal(key, List(kept));
      return Int(|l| - |kept|);
    }

    // ----- sets -----

    predicate NotSet(key: string) reads this {
      key in kv || key in hashes || key in lists || key in zsets || key in streams
    }

    function Members(key: string): set<string> reads this { if key in sets then sets[key] else {} }

    method SAdd(key: string, members: seq<string>, now: int) returns (r: Reply)
      requires Valid()
      modifies this
      ensures Valid() && Outcome(Abs(), r) == Keyspace.SAdd(old(Abs()), key, members, now)
    {
      hide View, Disjoint, WellFormed, Purge, SetOf;
      SAddWF(Abs(), key, members, now);
      if |members| == 0 { return WrongArgs; }
      var _ := PurgeKey(key, now);
      Kinds(Typed(), key);
      if NotSet(key) { return WrongType; }
      var m, added := AddMembers(Members(key), members);
      PutVal(key, Set(m));
      return Int(added);
    }

    method SRem(key: string, members: seq<string>, now: int) returns (r: Reply)
      requires Valid()
      modifies this
      ensures Valid() && Outcome(Abs(), r) == Keyspace.SRem(old(Abs()), key, members, now)
    {
      hide View, Disjoint, WellFormed, PutOrDrop, Remove, SetOf;
      SRemWF(Abs(), key, members, now);
      PurgeIs(Abs(), key, now);
      var expired := PurgeKey(key, now);
      if expired { return Int(0); }
      Kinds(Typed(), key);
      if NotSet(key) { return WrongType; }
      if Members(key) == {} { return Int(0); }
      var m, removed := RemoveMembers(Members(key), members);
      StoreVal(key, Set(m));
      return Int(removed);
    }

    method SMove(src: string, dst: string, member: string, now: int) returns (r: Reply)
      requires Valid()
      modifies this
      ensures Valid() && Outcome(Abs(), r) == Keyspace.SMove(old(Abs()), src, dst, member, now)
    {
      hide View, Disjoint, WellFormed, Purge, PutOrDrop;
      SMoveWF(Abs(), src, dst, member, now);
      var _ := PurgeKey(src, now);
      var _ := PurgeKey(dst, now);
      Kinds(Typed(), src);
      Kinds(Typed(), dst);
      if NotSet(src) { return WrongType; }
      if NotSet(dst) { return WrongType; }
      if member !in Members(src) { return Bool(false); }
      ghost var before := Abs();
      var rest := Set(Members(src) - {member});
      StoreVal(src, rest);
      StoreKeepsType(before, src, dst, rest);
      Kinds(Typed(), dst);
      PutVal(dst, Set(Members(dst) + {member}));
      return Bool(true);
    }

    /** SPOP picks members at random; whatever it picks, the effect is SREM of what it returns. */
    method SPop(key: string, count: int, now: int) returns (wrongType: bool, popped: seq<string>)
      requires Valid()
      modifies this
      ensures Valid() && wrongType == (!Expired(old(Abs()), key, now) && Other(old(Abs()), key, Set({})))
      ensures wrongType || popped == [] ==> Abs() == Purge(old(Abs()), key, now) && popped == []
      ensures popped != [] ==> Abs() == Keyspace.SRem(old(Abs()), key, popped, now).db
      ensures var live := if Expired(old(Abs()), key, now) then {} else SetAt(old(Abs()), key);
              var wanted := if count <= 0 then 1 else count;
              SetOf(popped) <= live && |SetOf(popped)| == |popped| == if wanted < |live| then wanted else |live|
    {
      hide View, Disjoint, WellFormed, PutOrDrop, Remove, SetOf;
      PurgeIs(Abs(), key, now);
      PurgeWF(Abs(), key, now);
      NothingIn();
      var expired := PurgeKey(key, now);
      if expired { return false, []; }
      Kinds(Typed(), key);
      if NotSet(key) { return true, []; }
      if Members(key) == {} { return false, []; }
      var rest, out := PickSome(Members(key), if count <= 0 then 1 else count);
      SRemWF(Abs(), key, out, now);
      StoreVal(key, Set(rest));
      return false, out;
    }

    /** isExpiredRLocked: the readers leave an expired key where it is. */
    predicate PastDeadline(key: string, now: int) reads this { key in expires && expires[key] <= now }

    method SInter(keys: seq<string>, now: int) returns (r: Option<seq<string>>)
      requires Separate()
      ensures r.None? <==> SA.Refused(Abs(), SA.Inter, keys, now)
      ensures r.Some? ==> r.value == SortSet(SA.Combined(SA.Inter, SA.Operands(Abs(), keys, now)))
    {
      hide View, Disjoint, SA.Combined;
      var found: seq<set<string>> := [];
      ghost var sets := SA.Operands(Abs(), keys, now);
      for i := 0 to |keys|
        invariant found == sets[..i]
        invariant forall j :: 0 <= j < i ==> !SA.NotASet(Abs(), keys[j], now) && sets[j] != {}
      {
        Kinds(Typed(), keys[i]);
        if PastDeadline(keys[i], now) { SA.NothingLeft(SA.Inter, sets, i); return Some([]); }
        if NotSet(keys[i]) { return None; }
        if Members(keys[i]) == {} { SA.NothingLeft(SA.Inter, sets, i); return Some([]); }
        found := found + [Members(keys[i])];
      }
      if found == [] { SA.NothingAtAll(SA.Inter, sets); return Some([]); }
      assert found == sets;
      var m := SA.Intersect(found);
      SA.IntersectIs(found, m);
      return Some(SortSet(m));
    }

    method SUnion(keys: seq<string>, now: int) returns (r: Option<seq<string>>)
      requires Separate()
      ensures r.None? <==> SA.Refused(Abs(), SA.Union, keys, now)
      ensures r.Some? ==> r.value == SortSet(SA.Combined(SA.Union, SA.Operands(Abs(), keys, now)))
    {
      hide View, Disjoint, SA.Combined;
      var union: set<string> := {};
      ghost var sets := SA.Operands(Abs(), keys, now);
      for i := 0 to |keys|
        invariant forall j :: 0 <= j < i ==> !SA.NotASet(Abs(), keys[j], now)
        invariant forall x :: x in union <==> SA.InSome(x, sets[..i])
      {
        Kinds(Typed(), keys[i]);
        SA.OneMoreSet(sets, i);
        if PastDeadline(keys[i], now) { continue; }
        if NotSet(keys[i]) { return None; }
        union := union + Members(keys[i]);
      }
      assert sets[..|keys|] == sets;
      SA.UnionIs(sets, union);
      return Some(SortSet(union));
    }

    method SDiff(keys: seq<string>, now: int) returns (r: Option<seq<string>>)
      requires Separate() && keys != []
      ensures r.None? <==> SA.Refused(Abs(), SA.Diff, keys, now)
      ensures r.Some? ==> r.value == SortSet(SA.Combined(SA.Diff, SA.Operands(Abs(), keys, now)))
    {
      hide View, Disjoint, SA.Combined;
      var found: seq<set<string>> := [];
      ghost var sets := SA.Operands(Abs(), keys, now);
      for i := 0 to |keys|
        invariant found == sets[..i]
        invariant forall j :: 0 <= j < i ==> !SA.NotASet(Abs(), keys[j], now)
      {
        Kinds(Typed(), keys[i]);
        if PastDeadline(keys[i], now) { found := found + [{}]; continue; }
        if NotSet(keys[i]) { return None; }
        found := found + [Members(keys[i])];
      }
      assert found == sets;
      if found[0] == {} { SA.NothingLeft(SA.Diff, found, 0); return Some([]); }
      var m := SA.Subtract(found[0], found[1..]);
      SA.DiffIs(found, m);
      return Some(SortSet(m));
    }

    // ----- sorted sets -----

    predicate NotZSet(key: string) reads this {
      key in kv || key in hashes || key in lists || key in sets || key in streams
    }

    function Scores(key: string): map<string, real> reads this { if key in zsets then zsets[key] else map[] }

    method ZAdd(key: string, scored: seq<Z.ZMember>, now: int) returns (r: Reply)
      requires Valid()
      modifies this
      ensures Valid() && Outcome(Abs(), r) == Keyspace.ZAdd(old(Abs()), key, scored, now)
    {
      hide View, Disjoint, WellFormed, Purge, AddScores;
      ZAddWF(Abs(), key, scored, now);
      if |scored| == 0 { return WrongArgs; }
      var _ := PurgeKey(key, now);
      Kinds(Typed(), key);
      if NotZSet(key) { return WrongType; }
      var z, added := AssignScores(Scores(key), scored);
      PutVal(key, ZSet(z));
      return Int(added);
    }

    method ZRem(key: string, members: seq<string>, now: int) returns (r: Reply)
      requires Valid()
      modifies this
      ensures Valid() && Outcome(Abs(), r) == Keyspace.ZRem(old(Abs()), key, members, now)
    {
      hide View, Disjoint, WellFormed, PutOrDrop, Remove, SetOf;
      ZRemWF(Abs(), key, members, now);
      PurgeIs(Abs(), key, now);
      var expired := PurgeKey(key, now);
      if expired { return Int(0); }
      Kinds(Typed(), key);
      if NotZSet(key) { return WrongType; }
      if Scores(key) == map[] { return Int(0); }
      var z, removed := DeleteKeys(Scores(key), members);
      StoreVal(key, ZSet(z));
      return Int(removed);
    }

    method ZIncrBy(key: string, incr: real, member: string, round: real -> real, now: int) returns (r: Reply)
      requires Valid()
      modifies this
      ensures Valid() && Outcome(Abs(), r) == Keyspace.ZIncrBy(old(Abs()), key, incr, member, round, now)
    {
      hide View, Disjoint, WellFormed, Purge;
      ZIncrByWF(Abs(), key, incr, member, round, now);
      var _ := PurgeKey(key, now);
      Kinds(Typed(), key);
      if NotZSet(key) { return WrongType; }
      var z := Scores(key);
      var score := round((if member in z then z[member] else 0.0) + incr);
      PutVal(key, ZSet(z[member := score]));
      return Score(score);
    }

    method ZPop(key: string, count: int, lowest: bool, now: int) returns (r: Reply)
      requires Valid()
      modifies this
      ensures Valid() && Outcome(Abs(), r) == Keyspace.ZPop(old(Abs()), key, count, lowest, now)
    {
      hide View, Disjoint, WellFormed, PutOrDrop, Remove, Extreme;
      ZPopWF(Abs(), key, count, lowest, now);
      PurgeIs(Abs(), key, now);
      var expired := PurgeKey(key, now);
      if expired { return Ranked([]); }
      Kinds(Typed(), key);
      if NotZSet(key) { return WrongType; }
      if Scores(key) == map[] { return Ranked([]); }
      var out, rest := PopExtreme(Scores(key), count, lowest);
      StoreVal(key, ZSet(rest));
      return Ranked(out);
    }

    // ----- streams -----

    method XAdd(key: string, id: string, fields: seq<string>, nowMs: int, now: int) returns (r: Reply)
      requires Valid()
      modifies this
      ensures Valid() && Outcome(Abs(), r) == Keyspace.XAdd(old(Abs()), key, id, fields, nowMs, now)
    {
      hide View, Disjoint, WellFormed, Purge, Chosen, SeqAfter;
      XAddWF(Abs(), key, id, fields, nowMs, now);
      if BadFields(fields) { return WrongArgs; }
      var _ := PurgeKey(key, now);
      Kinds(Typed(), key);
      if key in kv || key in hashes || key in lists || key in sets || key in zsets { return WrongType; }
      var es := if key in streams then streams[key] else [];
      var counter := if key in lastSeq then lastSeq[key] else 0;
      var chosen := Chosen(es, counter, id, nowMs);
      if !chosen.Ok? { return Reply.NotGreater; }
      PutVal(key, Stream(es + [Entry(chosen.value, fields)]));
      lastSeq := lastSeq[key := SeqAfter(es, counter, id, nowMs)];
      return Text(chosen.value);
    }

    // ----- any type -----

    method Del(keys: seq<string>, now: int) returns (r: Reply)
      requires Valid()
      modifies this
      ensures Valid() && Outcome(Abs(), r) == Keyspace.Del(old(Abs()), keys, now)
    {
      hide View, Disjoint, WellFormed, Remove, Purge, LiveAmong, HeldAmong;
      DelWF(Abs(), keys, now);
      var n := 0;
      NothingDeleted(Abs(), now);
      for i := 0 to |keys|
        invariant Separate() && Outcome(Abs(), Int(n)) == Keyspace.Del(old(Abs()), keys[..i], now)
      {
        assert keys[..i + 1] == keys[..i] + [keys[i]];
        DelOneMore(old(Abs()), keys[..i], keys[i], now);
        PurgeIs(Abs(), keys[i], now);
        var expired := PurgeKey(keys[i], now);
        if !expired {
          Kinds(Typed(), keys[i]);
          if Held(Typed(), keys[i]).Some? {
            Delete(keys[i]);
            n := n + 1;
          }
        }
      }
      assert keys[..|keys|] == keys;
      return Int(n);
    }

    method Expire(key: string, at: Option<int>, now: int) returns (r: Reply)
      requires Valid()
      modifies this
      ensures Valid() && Outcome(Abs(), r) == Keyspace.Expire(old(Abs()), key, at, now)
    {
      hide View, Disjoint, WellFormed, Purge;
      ExpiryWF(Abs(), key, at, now);
      var _ := PurgeKey(key, now);
      Kinds(Typed(), key);
      if Held(Typed(), key).None? { return Bool(false); }
      if at.Some? { expires := expires[key := at.value]; } else { expires := expires - {key}; }
      return Bool(true);
    }

    method Persist(key: string, now: int) returns (r: Reply)
      requires Valid()
      modifies this
      ensures Valid() && Outcome(Abs(), r) == Keyspace.Persist(old(Abs()), key, now)
    {
      hide View, Disjoint, WellFormed, Purge;
      ExpiryWF(Abs(), key, None, now);
      var _ := PurgeKey(key, now);
      Kinds(Typed(), key);
      if Held(Typed(), key).None? { return Bool(false); }
      var had := key in expires;
      expires := expires - {key};
      return Bool(had);
    }

    method Rename(key: string, newkey: string, now: int) returns (r: Reply)
      requires Valid()
      modifies this
      ensures Valid() && Outcome(Abs(), r) == Keyspace.Rename(old(Abs()), key, newkey, now)
    {
      hide View, Disjoint, WellFormed, Purge, Moved;
      RenameWF(Abs(), key, newkey, now);
      var _ := PurgeKey(key, now);
      Kinds(Typed(), key);
      var v := Held(Typed(), key);
      if v.None? { return NoSuchKey; }
      Delete(newkey);
      if key != newkey { Relocate(key, newkey); }
      return Done;
    }

    method Relocate(key: string, newkey: string)
      requires Separate() && key in Abs().vals && newkey !in Abs().vals
      modifies this
      ensures Separate()
      ensures Abs().vals == (old(Abs()).vals - {key})[newkey := old(Abs()).vals[key]]
      ensures expires == Moved(old(expires), key, newkey) && lastSeq == Moved(old(lastSeq), key, newkey)
    {
      hide View, Disjoint, Moved;
      Kinds(Typed(), key);
      var v := Held(Typed(), key).value;
      var e, q := expires, lastSeq;
      DropVal(key, v);
      PutVal(newkey, v);
      expires, lastSeq := Moved(e, key, newkey), Moved(q, key, newkey);
    }

    method Copy(src: string, dst: string, replace: bool, now: int) returns (r: Reply)
      requires Valid()
      modifies this
      ensures Valid() && Outcome(Abs(), r) == Keyspace.Copy(old(Abs()), src, dst, replace, now)
    {
      hide View, Disjoint, WellFormed, Purge;
      CopyWF(Abs(), src, dst, replace, now);
      var _ := PurgeKey(src, now);
      Kinds(Typed(), src);
      if Held(Typed(), src).None? { return Bool(false); }
      var _ := PurgeKey(dst, now);
      Kinds(Typed(), dst);
      if Held(Typed(), dst).Some? && !replace { return Bool(false); }
      if Held(Typed(), dst).Some? { Delete(dst); }
      Kinds(Typed(), src);
      Kinds(Typed(), dst);
      var v := Held(Typed(), src);
      if v.Some? {
        PutVal(dst, v.value);
        expires, lastSeq := Also(expires, src, dst), Also(lastSeq, src, dst);
      }
      return Bool(true);
    }

    // ----- dispatch -----

    method DoString(op: Op, now: int) returns (r: Reply)
      requires Valid() && OnString(op)
      modifies this
      ensures Valid() && Outcome(Abs(), r) == StringOp(old(Abs()), op, now)
    {
      hide View, Disjoint, WellFormed, Keyspace.SetAbsolute, Keyspace.SetNX, Keyspace.SetXX, Keyspace.IncrBy,
        Keyspace.Append, Keyspace.GetSet, Keyspace.SetRange, Keyspace.GetDel, Keyspace.MSetNX;
      match op {
        case DoSetAbsolute(key, value, at) => r := SetAbsolute(key, value, at);
        case DoSetNX(key, value, ttl) => r := SetNX(key, value, ttl, now);
        case DoSetXX(key, value, ttl) => r := SetXX(key, value, ttl, now);
        case DoIncrBy(key, delta) => r := IncrBy(key, delta, now);
        case DoAppend(key, value) => r := Append(key, value, now);
        case DoGetSet(key, value) => r := GetSet(key, value, now);
        case DoSetRange(key, offset, value) => r := SetRange(key, offset, value, now);
        case DoGetDel(key) => r := GetDel(key, now);
        case DoMSetNX(pairs) => r := MSetNX(pairs, now);
      }
    }

    method DoHash(op: Op, now: int) returns (r: Reply)
      requires Valid() && OnHash(op)
      modifies this
      ensures Valid() && Outcome(Abs(), r) == HashOp(old(Abs()), op, now)
    {
      hide View, Disjoint, WellFormed, Keyspace.HSet, Keyspace.HDel, Keyspace.HIncrBy, Keyspace.HSetNX;
      match op {
        case DoHSet(key, pairs) => r := HSet(key, pairs, now);
        case DoHDel(key, fields) => r := HDel(key, fields, now);
        case DoHIncrBy(key, field, delta) => r := HIncrBy(key, field, delta, now);
        case DoHSetNX(key, field, value) => r := HSetNX(key, field, value, now);
      }
    }

    method DoList(op: Op, now: int) returns (r: Reply)
      requires Valid() && OnList(op)
      modifies this
      ensures Valid() && Outcome(Abs(), r) == ListOp(old(Abs()), op, now)
    {
      hide View, Disjoint, WellFormed, Keyspace.Push, Keyspace.Pop, Keyspace.LMove, Keyspace.LSet,
        Keyspace.LInsert, Keyspace.LRem;
      match op {
        case DoPush(key, left, values) => r := PushList(key, left, values, now);
        case DoPop(key, left) => r := PopList(key, left, now);
        case DoLMove(src, dst, srcLeft, dstLeft) => r := LMove(src, dst, srcLeft, dstLeft, now);
        case DoLSet(key, index, value) => r := LSet(key, index, value, now);
        case DoLInsert(key, before, pivot, value) => r := LInsert(key, before, pivot, value, now);
        case DoLRem(key, count, value) => r := LRem(key, count, value, now);
      }
    }

    method DoSet(op: Op, now: int) returns (r: Reply)
      requires Valid() && OnSet(op)
      modifies this
      ensures Valid() && Outcome(Abs(), r) == SetOp(old(Abs()), op, now)
    {
      hide View, Disjoint, WellFormed, Keyspace.SAdd, Keyspace.SRem, Keyspace.SMove;
      match op {
        case DoSAdd(key, members) => r := SAdd(key, members, now);
        case DoSRem(key, members) => r := SRem(key, members, now);
        case DoSMove(src, dst, member) => r := SMove(src, dst, member, now);
      }
    }

    method DoZSet(op: Op, now: int) returns (r: Reply)
      requires Valid() && OnZSet(op)
      modifies this
      ensures Valid() && Outcome(Abs(), r) == ZSetOp(old(Abs()), op, now)
    {
      hide View, Disjoint, WellFormed, Keyspace.ZAdd, Keyspace.ZRem, Keyspace.ZIncrBy, Keyspace.ZPop;
      match op {
        case DoZAdd(key, scored) => r := ZAdd(key, scored, now);
        case DoZRem(key, members) => r := ZRem(key, members, now);
        case DoZIncrBy(key, incr, member, round) => r := ZIncrBy(key, incr, member, round, now);
        case DoZPop(key, count, lowest) => r := ZPop(key, count, lowest, now);
      }
    }

    method DoKey(op: Op, now: int) returns (r: Reply)
      requires Valid() && OnKey(op)
      modifies this
      ensures Valid() && Outcome(Abs(), r) == KeyOp(old(Abs()), op, now)
    {
      hide View, Disjoint, WellFormed, Keyspace.XAdd, Keyspace.Del, Keyspace.Expire, Keyspace.Persist,
        Keyspace.Rename, Keyspace.Copy;
      match op {
        case DoXAdd(key, id, fields, nowMs) => r := XAdd(key, id, fields, nowMs, now);
        case DoDel(keys) => r := Del(keys, now);
        case DoExpire(key, at) => r := Expire(key, at, now);
        case DoPersist(key) => r := Persist(key, now);
        case DoRename(key, newkey) => r := Rename(key, newkey, now);
        case DoCopy(src, dst, replace) => r := Copy(src, dst, replace, now);
      }
    }

    /** Any mutator: the six maps act as the single map does. */
    method Exec(op: Op, now: int) returns (r: Reply)
      requires Valid()
      modifies this
      ensures Valid() && Outcome(Abs(), r) == Apply(old(Abs()), op, now)
    {
      hide View, Disjoint, WellFormed, StringOp, HashOp, ListOp, SetOp, ZSetOp, KeyOp;
      if OnString(op) { r := DoString(op, now); }
      else if OnHash(op) { r := DoHash(op, now); }
      else if OnList(op) { r := DoList(op, now); }
      else if OnSet(op) { r := DoSet(op, now); }
      else if OnZSet(op) { r := DoZSet(op, now); }
      else { r := DoKey(op, now); }
    }

    /** A whole run keeps every key in one map, every container non-empty and every expiry attached. */
    method Run(steps: seq<Timed>)
      requires Valid()
      modifies this
      ensures Valid() && Abs() == Keyspace.Run(old(Abs()), steps)
    {
      hide View, Disjoint, WellFormed, Apply;
      assert steps[0..] == steps;
      for i := 0 to |steps|
        invariant Valid() && Keyspace.Run(Abs(), steps[i..]) == Keyspace.Run(old(Abs()), steps)
      {
        assert steps[i..][1..] == steps[i + 1..];
        var _ := Exec(steps[i].op, steps[i].now);
      }
    }
  }

  function StringOnly(m: Maps, key: string, value: string): Maps {
    Maps(m.kv[key := value], m.hashes - {key}, m.lists - {key}, m.sets - {key}, m.zsets - {key}, m.streams - {key})
  }

  lemma HeldStringOnly(m: Maps, key: string, value: string, k: string)
    ensures Held(StringOnly(m, key, value), k) == if k == key then Some(Str(value)) else Held(m, k)
  {}

  lemma StringOnlyDisjoint(m: Maps, key: string, value: string)
    requires Disjoint(m)
    ensures Disjoint(StringOnly(m, key, value))
  {}

  lemma OverwriteView(m: Maps, key: string, value: string)
    requires Disjoint(m)
    ensures Disjoint(StringOnly(m, key, value)) && View(StringOnly(m, key, value)) == View(m)[key := Str(value)]
  {
    hide Held, StringOnly;
    StringOnlyDisjoint(m, key, value);
    forall k ensures Held(StringOnly(m, key, value), k) == if k == key then Some(Str(value)) else Held(m, k) {
      HeldStringOnly(m, key, value, k);
    }
    HeldView(m);
    HeldView(StringOnly(m, key, value));
  }

  // ----- facts about the single map -----

  lemma PurgeIs(db: Db, key: string, now: int)
    ensures Purge(db, key, now) == if Expired(db, key, now) then Remove(db, key) else db
  {}

  lemma PurgeShrinks(db: Db, key: string, now: int)
    ensures forall k :: k in Purge(db, key, now).vals ==> k in db.vals
  {}

  lemma NothingDeleted(db: Db, now: int)
    ensures Del(db, [], now) == Outcome(db, Int(0))
  {
    assert LiveAmong(db, [], now) == {} && HeldAmong(db, [], now) == {};
  }

  lemma AmongSnoc(db: Db, keys: seq<string>, key: string, now: int)
    ensures LiveAmong(db, keys + [key], now) ==
              LiveAmong(db, keys, now) + if key in db.vals && !Expired(db, key, now) then {key} else {}
    ensures HeldAmong(db, keys + [key], now) ==
              HeldAmong(db, keys, now) + if key in db.vals || Expired(db, key, now) then {key} else {}
    ensures key in LiveAmong(db, keys, now) ==> key in HeldAmong(db, keys, now)
    ensures key in HeldAmong(db, keys, now) && !Expired(db, key, now) ==> key in LiveAmong(db, keys, now)
  {
    hide Expired;
  }

  lemma RemoveAllMore(db: Db, gone: set<string>, key: string)
    ensures RemoveAll(db, gone + {key}) == Remove(RemoveAll(db, gone), key)
    ensures key in gone ==> RemoveAll(db, gone + {key}) == RemoveAll(db, gone)
  {
    if key in gone { assert gone + {key} == gone; }
  }

  /** Deleting keys one at a time, a repeated key counting once. */
  lemma DelOneMore(db: Db, keys: seq<string>, key: string, now: int)
    ensures var d := Del(db, keys, now);
            Del(db, keys + [key], now) ==
              if Expired(d.db, key, now) then Outcome(Remove(d.db, key), d.reply)
              else if key in d.db.vals then Outcome(Remove(d.db, key), Int(d.reply.n + 1))
              else d
  {
    hide LiveAmong, HeldAmong, Remove;
    AmongSnoc(db, keys, key, now);
    var live, gone := LiveAmong(db, keys, now), HeldAmong(db, keys, now);
    RemoveAllMore(db, gone, key);
    var d := Del(db, keys, now).db;
    assert Expired(d, key, now) <==> Expired(db, key, now) && key !in gone;
    assert key in d.vals <==> key in db.vals && key !in gone;
    if key in live { assert live + {key} == live; }
  }

  /** Storing a container under one key keeps the other key a container of that type. */
  lemma StoreKeepsType(db: Db, src: string, dst: string, v: Val)
    requires !Other(db, src, v) && !Other(db, dst, v)
    ensures !Other(PutOrDrop(db, src, v), dst, v)
  {}

  lemma NothingIn()
    ensures SetOf([]) == {}
  {}

  // ----- the loops inside the mutators -----

  method AssignFields(h: map<string, string>, pairs: seq<(string, string)>) returns (r: map<string, string>, added: int)
    ensures r == SetFields(h, pairs) && added == |r| - |h|
  {
    r, added := h, 0;
    assert pairs[0..] == pairs;
    for i := 0 to |pairs|
      invariant SetFields(r, pairs[i..]) == SetFields(h, pairs) && added == |r| - |h|
    {
      assert pairs[i..][1..] == pairs[i + 1..];
      KeyAdded(r, pairs[i].0, pairs[i].1);
      if pairs[i].0 !in r { added := added + 1; }
      r := r[pairs[i].0 := pairs[i].1];
    }
  }

  lemma KeyAdded<V>(m: map<string, V>, key: string, v: V)
    ensures |m[key := v]| == |m| + if key in m then 0 else 1
  {
    var n := m[key := v];
    if key in m { assert n.Keys == m.Keys; } else { assert n.Keys == m.Keys + {key}; }
    assert |n| == |n.Keys| && |m| == |m.Keys|;
  }

  lemma KeyGone<V>(m: map<string, V>, key: string)
    requires key in m
    ensures |m - {key}| == |m| - 1
  {
    assert m.Keys == (m - {key}).Keys + {key};
    assert |m| == |m.Keys| && |m - {key}| == |(m - {key}).Keys|;
  }

  method DeleteKeys<V>(m: map<string, V>, keys: seq<string>) returns (r: map<string, V>, deleted: int)
    ensures r == m - SetOf(keys) && deleted == |m| - |r|
  {
    r, deleted := m, 0;
    for i := 0 to |keys|
      invariant (forall k :: k in r <==> k in m && k !in keys[..i]) && (forall k :: k in r ==> r[k] == m[k])
      invariant deleted == |m| - |r|
    {
      assert keys[..i + 1] == keys[..i] + [keys[i]];
      if keys[i] in r {
        KeyGone(r, keys[i]);
        r := r - {keys[i]};
        deleted := deleted + 1;
      }
    }
    assert keys[..|keys|] == keys;
  }

  method AddMembers(m: set<string>, members: seq<string>) returns (r: set<string>, added: int)
    ensures r == m + SetOf(members) && added == |r| - |m|
  {
    r, added := m, 0;
    for i := 0 to |members|
      invariant (forall x :: x in r <==> x in m || x in members[..i]) && added == |r| - |m|
    {
      assert members[..i + 1] == members[..i] + [members[i]];
      if members[i] !in r {
        r := r + {members[i]};
        added := added + 1;
      }
    }
    assert members[..|members|] == members;
  }

  method RemoveMembers(m: set<string>, members: seq<string>) returns (r: set<string>, removed: int)
    ensures r == m - SetOf(members) && removed == |m| - |r|
  {
    r, removed := m, 0;
    for i := 0 to |members|
      invariant (forall x :: x in r <==> x in m && x !in members[..i]) && removed == |m| - |r|
    {
      assert members[..i + 1] == members[..i] + [members[i]];
      if members[i] in r {
        r := r - {members[i]};
        removed := removed + 1;
      }
    }
    assert members[..|members|] == members;
  }

  method PickSome(m: set<string>, count: nat) returns (rest: set<string>, out: seq<string>)
    requires m != {} && count > 0
    ensures rest == m - SetOf(out) && SetOf(out) <= m && out != []
    ensures |SetOf(out)| == |out| == if count < |m| then count else |m|
  {
    rest, out := m, [];
    while rest != {} && |out| < count
      invariant rest == m - SetOf(out) && SetOf(out) <= m && |SetOf(out)| == |out| <= count && |rest| + |out| == |m|
      decreases |rest|
    {
      var x :| x in rest;
      assert SetOf(out + [x]) == SetOf(out) + {x};
      out := out + [x];
      rest := rest - {x};
    }
  }

  method AssignScores(z: map<string, real>, scored: seq<Z.ZMember>) returns (r: map<string, real>, added: int)
    ensures r == AddScores(z, scored) && added == |r| - |z|
  {
    r, added := z, 0;
    assert scored[0..] == scored;
    for i := 0 to |scored|
      invariant AddScores(r, scored[i..]) == AddScores(z, scored) && added == |r| - |z|
    {
      assert scored[i..][1..] == scored[i + 1..];
      KeyAdded(r, scored[i].member, scored[i].score);
      if scored[i].member !in r { added := added + 1; }
      r := r[scored[i].member := scored[i].score];
    }
  }

  /** The pops, through the sorted set object of the key. */
  method PopExtreme(z: map<string, real>, count: int, lowest: bool)
      returns (out: seq<Z.ZMember>, rest: map<string, real>)
    ensures out == Extreme(z, Z.PopCount(count, |Z.Listing(z)|), lowest) && rest == z - Z.Names(out)
  {
    hide Z.Listing, Z.Restrict, Z.AllBefore, Z.AllAfter, Z.Backwards;
    var zs := new Z.SortedSet.Of(z);
    Z.ListingSize(z);
    ghost var all := Z.Listing(z);
    if lowest {
      out := zs.PopMin(count);
      assert all[0..|out|] == all[..|out|];
    } else {
      out := zs.PopMax(count);
      assert all[|all| - |out|..|all|] == all[|all| - |out|..];
    }
    rest := zs.scores;
  }

  method FindPivot(l: seq<string>, pivot: string) returns (idx: nat)
    ensures idx == FirstAt(l, pivot)
  {
    idx := 0;
    while idx < |l| && l[idx] != pivot
      invariant idx <= |l| && forall k :: 0 <= k < idx ==> l[k] != pivot
    {
      idx := idx + 1;
    }
  }

  method KeepOthers(l: seq<string>, count: int, x: string) returns (kept: seq<string>)
    ensures kept == Removed(l, count, x)
  {
    if count > 0 {
      kept := KeepFromFront(l, count, x);
    } else if count < 0 {
      kept := KeepFromBack(l, -count, x);
    } else {
      kept := KeepFromFront(l, |l|, x);
    }
  }

  method KeepFromFront(l: seq<string>, n: nat, x: string) returns (kept: seq<string>)
    ensures kept == WithoutFirst(l, n, x)
  {
    kept := [];
    var removed := 0;
    assert l[0..] == l;
    for i := 0 to |l|
      invariant 0 <= removed <= n && kept + WithoutFirst(l[i..], n - removed, x) == WithoutFirst(l, n, x)
    {
      assert l[i..][1..] == l[i + 1..];
      if l[i] == x && removed < n {
        removed := removed + 1;
      } else {
        KeepOne(l[i..], n - removed, x);
        kept := kept + [l[i]];
      }
    }
  }

  lemma KeepOne(l: seq<string>, n: nat, x: string)
    requires l != [] && (l[0] != x || n == 0)
    ensures WithoutFirst(l, n, x) == [l[0]] + WithoutFirst(l[1..], n, x)
  {
    if n == 0 { assert l == [l[0]] + l[1..]; }
  }

  method KeepFromBack(l: seq<string>, n: nat, x: string) returns (kept: seq<string>)
    ensures kept == WithoutLast(l, n, x)
  {
    kept := [];
    var removed, i := 0, |l|;
    assert l[..|l|] == l;
    while i > 0
      invariant 0 <= i <= |l| && 0 <= removed <= n
      invariant WithoutLast(l[..i], n - removed, x) + kept == WithoutLast(l, n, x)
    {
      assert l[..i][..i - 1] == l[..i - 1];
      if l[i - 1] == x && removed < n {
        removed := removed + 1;
      } else {
        KeepLastOne(l[..i], n - removed, x);
        kept := [l[i - 1]] + kept;
      }
      i := i - 1;
    }
  }

  lemma KeepLastOne(l: seq<string>, n: nat, x: string)
    requires l != [] && (l[|l| - 1] != x || n == 0)
    ensures WithoutLast(l, n, x) == WithoutLast(l[..|l| - 1], n, x) + [l[|l| - 1]]
  {
    if n == 0 { assert l == l[..|l| - 1] + [l[|l| - 1]]; }
  }
}
