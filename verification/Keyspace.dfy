/**
 * The keyspace as its clients see it: one map from keys to typed values, with expiry times.
 * Each function below says what one mutator of internal/store/store.go does to that map and what
 * it replies. The store itself keeps six separate maps; module KeyStore shows that it behaves
 * like this one. `now` is the clock reading of the call.
 */
module Keyspace {
  import opened Common
  import opened Decimal
  import opened Streams
  import Z = SortedSets

  datatype Val =
    | Str(s: string)
    | Hash(h: map<string, string>)
    | List(l: seq<string>)
    | Set(m: set<string>)
    | ZSet(z: map<string, real>)
    | Stream(es: seq<Entry>)

  datatype Db = Db(vals: map<string, Val>, expires: map<string, int>, lastSeq: map<string, int>)

  datatype Reply =
    | Done
    | Int(n: int)
    | Bool(b: bool)
    | Text(s: string)
    | Nil
    | Ranked(members: seq<Z.ZMember>)
    | Score(x: real)
    | WrongType
    | WrongArgs
    | NotInteger
    | NoSuchKey
    | OutOfRange
    | NotGreater

  datatype Outcome = Outcome(db: Db, reply: Reply)

  // ----- expiry -----

  predicate Expired(db: Db, key: string, now: int) { key in db.expires && db.expires[key] <= now }

  function Remove(db: Db, key: string): Db {
    Db(db.vals - {key}, db.expires - {key}, db.lastSeq - {key})
  }

  /** A key past its expiry time is deleted by whoever touches it. */
  function Purge(db: Db, key: string, now: int): Db {
    if Expired(db, key, now) then Remove(db, key) else db
  }

  /** The value is gone, and with it its expiry time. */
  function Drop(db: Db, key: string): Db {
    db.(vals := db.vals - {key}, expires := db.expires - {key})
  }

  function Put(db: Db, key: string, v: Val): Db { db.(vals := db.vals[key := v]) }

  /** Containers that run empty are deleted. */
  function PutOrDrop(db: Db, key: string, v: Val): Db {
    if IsEmpty(v) then Drop(db, key) else Put(db, key, v)
  }

  predicate IsEmpty(v: Val) {
    v == Hash(map[]) || v == List([]) || v == Set({}) || v == ZSet(map[]) || v == Stream([])
  }

  // ----- strings -----

  /** A string replaces whatever the key held. */
  function Overwrite(db: Db, key: string, value: string, expireAt: Option<int>): Db {
    Db(db.vals[key := Str(value)],
       if expireAt.Some? then db.expires[key := expireAt.value] else db.expires - {key},
       db.lastSeq - {key})
  }

  function Deadline(ttl: int, now: int): Option<int> { if ttl > 0 then Some(now + ttl) else None }

  function SetAbsolute(db: Db, key: string, value: string, expireAt: Option<int>): Outcome {
    Outcome(Overwrite(db, key, value, expireAt), Done)
  }

  function SetNX(db: Db, key: string, value: string, ttl: int, now: int): Outcome {
    var d := Purge(db, key, now);
    if key in d.vals then Outcome(d, Bool(false))
    else
      var expires := if ttl > 0 then d.expires[key := now + ttl] else d.expires;
      Outcome(Put(d, key, Str(value)).(expires := expires), Bool(true))
  }

  function SetXX(db: Db, key: string, value: string, ttl: int, now: int): Outcome {
    var d := Purge(db, key, now);
    if key !in d.vals then Outcome(d, Bool(false))
    else Outcome(Overwrite(d, key, value, Deadline(ttl, now)), Bool(true))
  }

  /** Two's complement addition. */
  function Add64(a: int, b: int): int {
    var n := a + b;
    if n > MaxInt64 then n - 0x1_0000_0000_0000_0000
    else if n < MinInt64 then n + 0x1_0000_0000_0000_0000
    else n
  }

  function IncrBy(db: Db, key: string, delta: int, now: int): Outcome {
    var d := Purge(db, key, now);
    if key !in d.vals then Outcome(Put(d, key, Str(FormatInt(Add64(0, delta)))), Int(Add64(0, delta)))
    else match d.vals[key]
      case Str(s) =>
        var n := ParseInt(s);
        if !n.Number? then Outcome(d, NotInteger)
        else Outcome(Put(d, key, Str(FormatInt(Add64(n.n, delta)))), Int(Add64(n.n, delta)))
      case _ => Outcome(d, WrongType)
  }

  function Append(db: Db, key: string, value: string, now: int): Outcome {
    var d := Purge(db, key, now);
    if key !in d.vals then Outcome(Put(d, key, Str(value)), Int(|value|))
    else match d.vals[key]
      case Str(s) => Outcome(Put(d, key, Str(s + value)), Int(|s + value|))
      case _ => Outcome(d, WrongType)
  }

  function GetSet(db: Db, key: string, value: string, now: int): Outcome {
    var d := Purge(db, key, now);
    if key !in d.vals then Outcome(Overwrite(d, key, value, None), Nil)
    else match d.vals[key]
      case Str(s) => Outcome(Overwrite(d, key, value, None), Text(s))
      case _ => Outcome(d, WrongType)
  }

  /** `s` with `value` written over it at `offset`, padded with zero bytes. */
  function WriteAt(s: string, offset: nat, value: string): (r: string)
    ensures |r| == (if offset + |value| > |s| then offset + |value| else |s|)
    ensures forall i :: 0 <= i < |r| ==>
              r[i] == if offset <= i < offset + |value| then value[i - offset] else if i < |s| then s[i] else '\0'
  {
    var end := offset + |value|;
    var before := if offset <= |s| then s[..offset] else s + seq(offset - |s|, _ => '\0');
    before + value + if end < |s| then s[end..] else ""
  }

  function SetRange(db: Db, key: string, offset: int, value: string, now: int): Outcome {
    var d := Purge(db, key, now);
    if key in d.vals && !d.vals[key].Str? then Outcome(d, WrongType)
    else if offset < 0 then Outcome(d, Reply.OutOfRange)
    else
      var r := WriteAt(if key in d.vals then d.vals[key].s else "", offset, value);
      Outcome(Put(d, key, Str(r)), Int(|r|))
  }

  function GetDel(db: Db, key: string, now: int): Outcome {
    var d := Purge(db, key, now);
    if key in d.vals && d.vals[key].Str? then Outcome(Remove(d, key), Text(d.vals[key].s)) else Outcome(d, Nil)
  }

  /** MSETNX checks the keys in order, purging as it goes, and stops at the first that exists. */
  function FirstTaken(db: Db, pairs: seq<(string, string)>, now: int): (Db, bool)
    decreases |pairs|
  {
    if pairs == [] then (db, false) else
      var d := Purge(db, pairs[0].0, now);
      if pairs[0].0 in d.vals then (d, true) else FirstTaken(d, pairs[1..], now)
  }

  function PutAll(db: Db, pairs: seq<(string, string)>): Db
    decreases |pairs|
  {
    if pairs == [] then db else
      PutAll(Put(db, pairs[0].0, Str(pairs[0].1)).(expires := db.expires - {pairs[0].0}), pairs[1..])
  }

  function MSetNX(db: Db, pairs: seq<(string, string)>, now: int): Outcome {
    var (d, taken) := FirstTaken(db, pairs, now);
    if taken then Outcome(d, Bool(false)) else Outcome(PutAll(d, pairs), Bool(true))
  }

  // ----- hashes -----

  function SetFields(h: map<string, string>, pairs: seq<(string, string)>): map<string, string>
    decreases |pairs|
  {
    if pairs == [] then h else SetFields(h[pairs[0].0 := pairs[0].1], pairs[1..])
  }

  function HashAt(db: Db, key: string): map<string, string> {
    if key in db.vals && db.vals[key].Hash? then db.vals[key].h else map[]
  }

  predicate Other(db: Db, key: string, v: Val) { key in db.vals && !SameType(db.vals[key], v) }

  predicate SameType(a: Val, b: Val) {
    || (a.Str? && b.Str?) || (a.Hash? && b.Hash?) || (a.List? && b.List?)
    || (a.Set? && b.Set?) || (a.ZSet? && b.ZSet?) || (a.Stream? && b.Stream?)
  }

  function HSet(db: Db, key: string, pairs: seq<(string, string)>, now: int): Outcome {
    if pairs == [] then Outcome(db, WrongArgs) else
      var d := Purge(db, key, now);
      if Other(d, key, Hash(map[])) then Outcome(d, WrongType) else
        var h := SetFields(HashAt(d, key), pairs);
        Outcome(Put(d, key, Hash(h)), Int(|h| - |HashAt(d, key)|))
  }

  ghost function HDel(db: Db, key: string, fields: seq<string>, now: int): Outcome {
    if Expired(db, key, now) then Outcome(Remove(db, key), Int(0))
    else if Other(db, key, Hash(map[])) then Outcome(db, WrongType)
    else if key !in db.vals then Outcome(db, Int(0))
    else
      var h := HashAt(db, key) - SetOf(fields);
      Outcome(PutOrDrop(db, key, Hash(h)), Int(|HashAt(db, key)| - |h|))
  }

  function HIncrBy(db: Db, key: string, field: string, delta: int, now: int): Outcome {
    var d := Purge(db, key, now);
    if Other(d, key, Hash(map[])) then Outcome(d, WrongType) else
      var h := HashAt(d, key);
      if field !in h then Outcome(Put(d, key, Hash(h[field := FormatInt(Add64(0, delta))])), Int(Add64(0, delta)))
      else
        var n := ParseInt(h[field]);
        if !n.Number? then Outcome(d, NotInteger)
        else Outcome(Put(d, key, Hash(h[field := FormatInt(Add64(n.n, delta))])), Int(Add64(n.n, delta)))
  }

  function HSetNX(db: Db, key: string, field: string, value: string, now: int): Outcome {
    var d := Purge(db, key, now);
    if Other(d, key, Hash(map[])) then Outcome(d, WrongType)
    else if field in HashAt(d, key) then Outcome(d, Bool(false))
    else Outcome(Put(d, key, Hash(HashAt(d, key)[field := value])), Bool(true))
  }

  // ----- lists -----

  function ListAt(db: Db, key: string): seq<string> {
    if key in db.vals && db.vals[key].List? then db.vals[key].l else []
  }

  function Push(db: Db, key: string, left: bool, values: seq<string>, now: int): Outcome {
    if values == [] then Outcome(db, WrongArgs) else
      var d := Purge(db, key, now);
      if Other(d, key, List([])) then Outcome(d, WrongType) else
        var l := Pushed(ListAt(d, key), left, values);
        Outcome(Put(d, key, List(l)), Int(|l|))
  }

  function Pop(db: Db, key: string, left: bool, now: int): Outcome {
    if Expired(db, key, now) then Outcome(Remove(db, key), Nil)
    else if Other(db, key, List([])) then Outcome(db, WrongType)
    else if ListAt(db, key) == [] then Outcome(db, Nil)
    else Outcome(PutOrDrop(db, key, List(Shorter(ListAt(db, key), left))), Text(End(ListAt(db, key), left)))
  }

  function LMove(db: Db, src: string, dst: string, srcLeft: bool, dstLeft: bool, now: int): Outcome {
    var d := Purge(db, src, now);
    if Other(d, src, List([])) then Outcome(d, WrongType)
    else if ListAt(d, src) == [] then Outcome(d, Nil)
    else
      var d' := if src == dst then d else Purge(d, dst, now);
      if src != dst && Other(d', dst, List([])) then Outcome(d', WrongType) else
        var val := End(ListAt(d', src), srcLeft);
        var popped := PutOrDrop(d', src, List(Shorter(ListAt(d', src), srcLeft)));
        Outcome(Put(popped, dst, List(Pushed(ListAt(popped, dst), dstLeft, [val]))), Text(val))
  }

  function Index(index: int, n: nat): int { if index < 0 then n + index else index }

  function LSet(db: Db, key: string, index: int, value: string, now: int): Outcome {
    if Expired(db, key, now) then Outcome(Remove(db, key), NoSuchKey)
    else if Other(db, key, List([])) then Outcome(db, WrongType)
    else
      var l := ListAt(db, key);
      var i := Index(index, |l|);
      if l == [] then Outcome(db, NoSuchKey)
      else if i < 0 || i >= |l| then Outcome(db, Reply.OutOfRange)
      else Outcome(Put(db, key, List(l[i := value])), Done)
  }

  function FirstAt(l: seq<string>, x: string): (i: nat)
    ensures i <= |l| && (i < |l| ==> l[i] == x) && forall k :: 0 <= k < i ==> l[k] != x
  {
    if l == [] || l[0] == x then 0 else 1 + FirstAt(l[1..], x)
  }

  function LInsert(db: Db, key: string, before: bool, pivot: string, value: string, now: int): Outcome {
    if Expired(db, key, now) then Outcome(Remove(db, key), Int(0))
    else if Other(db, key, List([])) then Outcome(db, WrongType)
    else
      var l := ListAt(db, key);
      var p := FirstAt(l, pivot);
      if l == [] then Outcome(db, Int(0))
      else if p == |l| then Outcome(db, Int(-1))
      else
        var i := if before then p else p + 1;
        Outcome(Put(db, key, List(l[..i] + [value] + l[i..])), Int(|l| + 1))
  }

  /** The list without its first `n` occurrences of `x`. */
  function WithoutFirst(l: seq<string>, n: nat, x: string): seq<string> {
    if l == [] || n == 0 then l
    else if l[0] == x then WithoutFirst(l[1..], n - 1, x)
    else [l[0]] + WithoutFirst(l[1..], n, x)
  }

  /** The list without its last `n` occurrences of `x`. */
  function WithoutLast(l: seq<string>, n: nat, x: string): seq<string> {
    if l == [] || n == 0 then l
    else if l[|l| - 1] == x then WithoutLast(l[..|l| - 1], n - 1, x)
    else WithoutLast(l[..|l| - 1], n, x) + [l[|l| - 1]]
  }

  function Removed(l: seq<string>, count: int, x: string): seq<string> {
    if count > 0 then WithoutFirst(l, count, x)
    else if count < 0 then WithoutLast(l, -count, x)
    else WithoutFirst(l, |l|, x)
  }

  function LRem(db: Db, key: string, count: int, x: string, now: int): Outcome {
    if Expired(db, key, now) then Outcome(Remove(db, key), Int(0))
    else if Other(db, key, List([])) then Outcome(db, WrongType)
    else
      var l := ListAt(db, key);
      if l == [] then Outcome(db, Int(0))
      else Outcome(PutOrDrop(db, key, List(Removed(l, count, x))), Int(|l| - |Removed(l, count, x)|))
  }

  // ----- sets -----

  function SetAt(db: Db, key: string): set<string> {
    if key in db.vals && db.vals[key].Set? then db.vals[key].m else {}
  }

  ghost function SAdd(db: Db, key: string, members: seq<string>, now: int): Outcome {
    if members == [] then Outcome(db, WrongArgs) else
      var d := Purge(db, key, now);
      if Other(d, key, Set({})) then Outcome(d, WrongType) else
        var m := SetAt(d, key) + SetOf(members);
        Outcome(Put(d, key, Set(m)), Int(|m| - |SetAt(d, key)|))
  }

  ghost function SRem(db: Db, key: string, members: seq<string>, now: int): Outcome {
    if Expired(db, key, now) then Outcome(Remove(db, key), Int(0))
    else if Other(db, key, Set({})) then Outcome(db, WrongType)
    else if SetAt(db, key) == {} then Outcome(db, Int(0))
    else
      var m := SetAt(db, key) - SetOf(members);
      Outcome(PutOrDrop(db, key, Set(m)), Int(|SetAt(db, key)| - |m|))
  }

  function SMove(db: Db, src: string, dst: string, member: string, now: int): Outcome {
    var d := Purge(Purge(db, src, now), dst, now);
    if Other(d, src, Set({})) || Other(d, dst, Set({})) then Outcome(d, WrongType)
    else if member !in SetAt(d, src) then Outcome(d, Bool(false))
    else
      var left := PutOrDrop(d, src, Set(SetAt(d, src) - {member}));
      Outcome(Put(left, dst, Set(SetAt(left, dst) + {member})), Bool(true))
  }

  // ----- sorted sets -----

  function ZSetAt(db: Db, key: string): map<string, real> {
    if key in db.vals && db.vals[key].ZSet? then db.vals[key].z else map[]
  }

  function AddScores(z: map<string, real>, members: seq<Z.ZMember>): map<string, real>
    decreases |members|
  {
    if members == [] then z else AddScores(z[members[0].member := members[0].score], members[1..])
  }

  function ZAdd(db: Db, key: string, members: seq<Z.ZMember>, now: int): Outcome {
    if members == [] then Outcome(db, WrongArgs) else
      var d := Purge(db, key, now);
      if Other(d, key, ZSet(map[])) then Outcome(d, WrongType) else
        var z := AddScores(ZSetAt(d, key), members);
        Outcome(Put(d, key, ZSet(z)), Int(|z| - |ZSetAt(d, key)|))
  }

  ghost function ZRem(db: Db, key: string, members: seq<string>, now: int): Outcome {
    if Expired(db, key, now) then Outcome(Remove(db, key), Int(0))
    else if Other(db, key, ZSet(map[])) then Outcome(db, WrongType)
    else if ZSetAt(db, key) == map[] then Outcome(db, Int(0))
    else
      var z := ZSetAt(db, key) - SetOf(members);
      Outcome(PutOrDrop(db, key, ZSet(z)), Int(|ZSetAt(db, key)| - |z|))
  }

  /** The sum is rounded to a score the hardware can hold. */
  function ZIncrBy(db: Db, key: string, incr: real, member: string, round: real -> real, now: int): Outcome {
    var d := Purge(db, key, now);
    if Other(d, key, ZSet(map[])) then Outcome(d, WrongType) else
      var z := ZSetAt(d, key);
      var score := round((if member in z then z[member] else 0.0) + incr);
      Outcome(Put(d, key, ZSet(z[member := score])), Score(score))
  }

  /** The `n` lowest (or highest, highest first) members. */
  ghost function Extreme(z: map<string, real>, n: nat, lowest: bool): seq<Z.ZMember>
    requires n <= |Z.Listing(z)|
  {
    var all := Z.Listing(z);
    if lowest then all[..n] else Z.Backwards(all[|all| - n..])
  }

  ghost function ZPop(db: Db, key: string, count: int, lowest: bool, now: int): Outcome {
    if Expired(db, key, now) then Outcome(Remove(db, key), Ranked([]))
    else if Other(db, key, ZSet(map[])) then Outcome(db, WrongType)
    else if ZSetAt(db, key) == map[] then Outcome(db, Ranked([]))
    else
      var z := ZSetAt(db, key);
      var out := Extreme(z, Z.PopCount(count, |Z.Listing(z)|), lowest);
      Outcome(PutOrDrop(db, key, ZSet(z - Z.Names(out))), Ranked(out))
  }

  // ----- streams -----

  function StreamAt(db: Db, key: string): seq<Entry> {
    if key in db.vals && db.vals[key].Stream? then db.vals[key].es else []
  }

  function SeqAt(db: Db, key: string): int { if key in db.lastSeq then db.lastSeq[key] else 0 }

  function XAdd(db: Db, key: string, id: string, fields: seq<string>, nowMs: int, now: int): Outcome {
    if BadFields(fields) then Outcome(db, WrongArgs) else
      var d := Purge(db, key, now);
      if Other(d, key, Stream([])) then Outcome(d, WrongType) else
        var es := StreamAt(d, key);
        var chosen := Chosen(es, SeqAt(d, key), id, nowMs);
        if !chosen.Ok? then Outcome(d, Reply.NotGreater)
        else Outcome(Put(d, key, Stream(es + [Entry(chosen.value, fields)]))
                       .(lastSeq := d.lastSeq[key := SeqAfter(es, SeqAt(d, key), id, nowMs)]), Text(chosen.value))
  }

  // ----- any type -----

  ghost function LiveAmong(db: Db, keys: seq<string>, now: int): set<string> {
    set k | k in keys && k in db.vals && !Expired(db, k, now)
  }

  ghost function HeldAmong(db: Db, keys: seq<string>, now: int): set<string> {
    set k | k in keys && (k in db.vals || Expired(db, k, now))
  }

  function RemoveAll(db: Db, gone: set<string>): Db {
    Db(db.vals - gone, db.expires - gone, db.lastSeq - gone)
  }

  /** A key named twice, or already expired, does not count. */
  ghost function Del(db: Db, keys: seq<string>, now: int): Outcome {
    Outcome(RemoveAll(db, HeldAmong(db, keys, now)), Int(|LiveAmong(db, keys, now)|))
  }

  function Expire(db: Db, key: string, at: Option<int>, now: int): Outcome {
    var d := Purge(db, key, now);
    if key !in d.vals then Outcome(d, Bool(false))
    else Outcome(d.(expires := if at.Some? then d.expires[key := at.value] else d.expires - {key}), Bool(true))
  }

  function Persist(db: Db, key: string, now: int): Outcome {
    var d := Purge(db, key, now);
    if key !in d.vals then Outcome(d, Bool(false))
    else Outcome(d.(expires := d.expires - {key}), Bool(key in d.expires))
  }

  /** Moves a key; onto itself, it deletes it. */
  function Rename(db: Db, key: string, newkey: string, now: int): Outcome {
    var d := Purge(db, key, now);
    if key !in d.vals then Outcome(d, NoSuchKey) else
      var e := Remove(d, newkey);
      if key == newkey then Outcome(e, Done)
      else
        var vals := (e.vals - {key})[newkey := d.vals[key]];
        Outcome(Db(vals, Moved(e.expires, key, newkey), Moved(e.lastSeq, key, newkey)), Done)
  }

  function Moved(m: map<string, int>, key: string, newkey: string): map<string, int> {
    if key in m then (m - {key})[newkey := m[key]] else m
  }

  function Also(m: map<string, int>, key: string, newkey: string): map<string, int> {
    if key in m then m[newkey := m[key]] else m
  }

  /** Copies a key; with REPLACE onto itself, it deletes it. */
  function Copy(db: Db, src: string, dst: string, replace: bool, now: int): Outcome {
    var d := Purge(db, src, now);
    if src !in d.vals then Outcome(d, Bool(false)) else
      var e := Purge(d, dst, now);
      if dst in e.vals && !replace then Outcome(e, Bool(false)) else
        var f := if dst in e.vals then Remove(e, dst) else e;
        if src !in f.vals then Outcome(f, Bool(true))
        else Outcome(Db(f.vals[dst := f.vals[src]], Also(f.expires, src, dst), Also(f.lastSeq, src, dst)), Bool(true))
  }

  // ----- all mutators together -----

  datatype Op =
    | DoSetAbsolute(key: string, value: string, at: Option<int>)
    | DoSetNX(key: string, value: string, ttl: int)
    | DoSetXX(key: string, value: string, ttl: int)
    | DoIncrBy(key: string, delta: int)
    | DoAppend(key: string, value: string)
    | DoGetSet(key: string, value: string)
    | DoSetRange(key: string, offset: int, value: string)
    | DoGetDel(key: string)
    | DoMSetNX(pairs: seq<(string, string)>)
    | DoHSet(key: string, pairs: seq<(string, string)>)
    | DoHDel(key: string, fields: seq<string>)
    | DoHIncrBy(key: string, field: string, delta: int)
    | DoHSetNX(key: string, field: string, value: string)
    | DoPush(key: string, left: bool, values: seq<string>)
    | DoPop(key: string, left: bool)
    | DoLMove(src: string, dst: string, srcLeft: bool, dstLeft: bool)
    | DoLSet(key: string, index: int, value: string)
    | DoLInsert(key: string, before: bool, pivot: string, value: string)
    | DoLRem(key: string, count: int, value: string)
    | DoSAdd(key: string, members: seq<string>)
    | DoSRem(key: string, members: seq<string>)
    | DoSMove(src: string, dst: string, member: string)
    | DoZAdd(key: string, scored: seq<Z.ZMember>)
    | DoZRem(key: string, members: seq<string>)
    | DoZIncrBy(key: string, incr: real, member: string, round: real -> real)
    | DoZPop(key: string, count: int, lowest: bool)
    | DoXAdd(key: string, id: string, fields: seq<string>, nowMs: int)
    | DoDel(keys: seq<string>)
    | DoExpire(key: string, at: Option<int>)
    | DoPersist(key: string)
    | DoRename(key: string, newkey: string)
    | DoCopy(src: string, dst: string, replace: bool)

  predicate OnString(op: Op) {
    op.DoSetAbsolute? || op.DoSetNX? || op.DoSetXX? || op.DoIncrBy? || op.DoAppend? || op.DoGetSet? ||
      op.DoSetRange? || op.DoGetDel? || op.DoMSetNX?
  }

  predicate OnHash(op: Op) {
    op.DoHSet? || op.DoHDel? || op.DoHIncrBy? || op.DoHSetNX?
  }

  predicate OnList(op: Op) {
    op.DoPush? || op.DoPop? || op.DoLMove? || op.DoLSet? || op.DoLInsert? || op.DoLRem?
  }

  predicate OnSet(op: Op) {
    op.DoSAdd? || op.DoSRem? || op.DoSMove?
  }

  predicate OnZSet(op: Op) {
    op.DoZAdd? || op.DoZRem? || op.DoZIncrBy? || op.DoZPop?
  }

  predicate OnKey(op: Op) {
    op.DoXAdd? || op.DoDel? || op.DoExpire? || op.DoPersist? || op.DoRename? || op.DoCopy?
  }

  ghost function StringOp(db: Db, op: Op, now: int): Outcome
    requires OnString(op)
  {
    match op
    case DoSetAbsolute(key, value, at) => SetAbsolute(db, key, value, at)
    case DoSetNX(key, value, ttl) => SetNX(db, key, value, ttl, now)
    case DoSetXX(key, value, ttl) => SetXX(db, key, value, ttl, now)
    case DoIncrBy(key, delta) => IncrBy(db, key, delta, now)
    case DoAppend(key, value) => Append(db, key, value, now)
    case DoGetSet(key, value) => GetSet(db, key, value, now)
    case DoSetRange(key, offset, value) => SetRange(db, key, offset, value, now)
    case DoGetDel(key) => GetDel(db, key, now)
    case DoMSetNX(pairs) => MSetNX(db, pairs, now)
  }

  ghost function HashOp(db: Db, op: Op, now: int): Outcome
    requires OnHash(op)
  {
    match op
    case DoHSet(key, pairs) => HSet(db, key, pairs, now)
    case DoHDel(key, fields) => HDel(db, key, fields, now)
    case DoHIncrBy(key, field, delta) => HIncrBy(db, key, field, delta, now)
    case DoHSetNX(key, field, value) => HSetNX(db, key, field, value, now)
  }

  ghost function ListOp(db: Db, op: Op, now: int): Outcome
    requires OnList(op)
  {
    match op
    case DoPush(key, left, values) => Push(db, key, left, values, now)
    case DoPop(key, left) => Pop(db, key, left, now)
    case DoLMove(src, dst, srcLeft, dstLeft) => LMove(db, src, dst, srcLeft, dstLeft, now)
    case DoLSet(key, index, value) => LSet(db, key, index, value, now)
    case DoLInsert(key, before, pivot, value) => LInsert(db, key, before, pivot, value, now)
    case DoLRem(key, count, value) => LRem(db, key, count, value, now)
  }

  ghost function SetOp(db: Db, op: Op, now: int): Outcome
    requires OnSet(op)
  {
    match op
    case DoSAdd(key, members) => SAdd(db, key, members, now)
    case DoSRem(key, members) => SRem(db, key, members, now)
    case DoSMove(src, dst, member) => SMove(db, src, dst, member, now)
  }

  ghost function ZSetOp(db: Db, op: Op, now: int): Outcome
    requires OnZSet(op)
  {
    match op
    case DoZAdd(key, scored) => ZAdd(db, key, scored, now)
    case DoZRem(key, members) => ZRem(db, key, members, now)
    case DoZIncrBy(key, incr, member, round) => ZIncrBy(db, key, incr, member, round, now)
    case DoZPop(key, count, lowest) => ZPop(db, key, count, lowest, now)
  }

  ghost function KeyOp(db: Db, op: Op, now: int): Outcome
    requires OnKey(op)
  {
    match op
    case DoXAdd(key, id, fields, nowMs) => XAdd(db, key, id, fields, nowMs, now)
    case DoDel(keys) => Del(db, keys, now)
    case DoExpire(key, at) => Expire(db, key, at, now)
    case DoPersist(key) => Persist(db, key, now)
    case DoRename(key, newkey) => Rename(db, key, newkey, now)
    case DoCopy(src, dst, replace) => Copy(db, src, dst, replace, now)
  }

  /** What any mutator does, and what it replies. */
  ghost function Apply(db: Db, op: Op, now: int): Outcome {
    if OnString(op) then StringOp(db, op, now)
    else if OnHash(op) then HashOp(db, op, now)
    else if OnList(op) then ListOp(db, op, now)
    else if OnSet(op) then SetOp(db, op, now)
    else if OnZSet(op) then ZSetOp(db, op, now)
    else KeyOp(db, op, now)
  }

  /** No container is left empty, and no expiry time exists without its key. */
  ghost predicate WellFormed(db: Db) {
    db.expires.Keys <= db.vals.Keys && forall k :: k in db.vals ==> !IsEmpty(db.vals[k])
  }

  lemma PurgeWF(db: Db, key: string, now: int)
    requires WellFormed(db)
    ensures WellFormed(Purge(db, key, now))
  {}

  lemma PutWF(db: Db, key: string, v: Val)
    requires WellFormed(db)
    ensures !IsEmpty(v) ==> WellFormed(Put(db, key, v))
    ensures WellFormed(PutOrDrop(db, key, v))
  {}

  lemma OverwriteWF(db: Db, key: string, value: string, at: Option<int>)
    requires WellFormed(db)
    ensures WellFormed(Overwrite(db, key, value, at))
  {}

  lemma {:induction false} SetFieldsNonEmpty(h: map<string, string>, pairs: seq<(string, string)>)
    requires pairs != [] || h != map[]
    ensures SetFields(h, pairs) != map[]
    decreases |pairs|
  {
    if pairs != [] {
      assert pairs[0].0 in h[pairs[0].0 := pairs[0].1];
      SetFieldsNonEmpty(h[pairs[0].0 := pairs[0].1], pairs[1..]);
    }
  }

  lemma {:induction false} AddScoresNonEmpty(z: map<string, real>, members: seq<Z.ZMember>)
    requires members != [] || z != map[]
    ensures AddScores(z, members) != map[]
    decreases |members|
  {
    if members != [] {
      assert members[0].member in z[members[0].member := members[0].score];
      AddScoresNonEmpty(z[members[0].member := members[0].score], members[1..]);
    }
  }

  lemma PushedNonEmpty(l: seq<string>, left: bool, values: seq<string>)
    requires values != []
    ensures Pushed(l, left, values) != []
  {}

  lemma {:induction false} FirstTakenWF(db: Db, pairs: seq<(string, string)>, now: int)
    requires WellFormed(db)
    ensures WellFormed(FirstTaken(db, pairs, now).0)
    decreases |pairs|
  {
    hide WellFormed, Purge;
    if pairs != [] {
      PurgeWF(db, pairs[0].0, now);
      var d := Purge(db, pairs[0].0, now);
      if pairs[0].0 !in d.vals { FirstTakenWF(d, pairs[1..], now); }
    }
  }

  lemma {:induction false} PutAllWF(db: Db, pairs: seq<(string, string)>)
    requires WellFormed(db)
    ensures WellFormed(PutAll(db, pairs))
    decreases |pairs|
  {
    if pairs != [] {
      PutAllWF(Put(db, pairs[0].0, Str(pairs[0].1)).(expires := db.expires - {pairs[0].0}), pairs[1..]);
    }
  }

  lemma StringsWF(db: Db, key: string, value: string, ttl: int, now: int)
    requires WellFormed(db)
    ensures WellFormed(SetNX(db, key, value, ttl, now).db) && WellFormed(SetXX(db, key, value, ttl, now).db)
    ensures WellFormed(GetSet(db, key, value, now).db) && WellFormed(GetDel(db, key, now).db)
  {
    hide Purge;
    PurgeWF(db, key, now);
  }

  lemma EditsWF(db: Db, key: string, value: string, offset: int, delta: int, now: int)
    requires WellFormed(db)
    ensures WellFormed(IncrBy(db, key, delta, now).db) && WellFormed(Append(db, key, value, now).db)
    ensures WellFormed(SetRange(db, key, offset, value, now).db)
  {
    hide Purge, WriteAt, FormatInt, ParseInt, Add64;
    PurgeWF(db, key, now);
  }

  lemma MSetNXWF(db: Db, pairs: seq<(string, string)>, now: int)
    requires WellFormed(db)
    ensures WellFormed(MSetNX(db, pairs, now).db)
  {
    hide WellFormed, FirstTaken, PutAll;
    FirstTakenWF(db, pairs, now);
    PutAllWF(FirstTaken(db, pairs, now).0, pairs);
  }

  lemma HSetWF(db: Db, key: string, pairs: seq<(string, string)>, now: int)
    requires WellFormed(db)
    ensures WellFormed(HSet(db, key, pairs, now).db)
  {
    hide Purge, SetFields, WellFormed, Put;
    PurgeWF(db, key, now);
    var d := Purge(db, key, now);
    if pairs != [] {
      SetFieldsNonEmpty(HashAt(d, key), pairs);
      PutWF(d, key, Hash(SetFields(HashAt(d, key), pairs)));
    }
  }

  lemma HDelWF(db: Db, key: string, fields: seq<string>, now: int)
    requires WellFormed(db)
    ensures WellFormed(HDel(db, key, fields, now).db)
  {
    hide WellFormed, PutOrDrop, Remove;
    RemoveWF(db, key);
    PutWF(db, key, Hash(HashAt(db, key) - SetOf(fields)));
  }

  lemma HFieldWF(db: Db, key: string, field: string, value: string, delta: int, now: int)
    requires WellFormed(db)
    ensures WellFormed(HIncrBy(db, key, field, delta, now).db) && WellFormed(HSetNX(db, key, field, value, now).db)
  {
    hide Purge, FormatInt, ParseInt, WellFormed, Put;
    PurgeWF(db, key, now);
    var d := Purge(db, key, now);
    var h := HashAt(d, key);
    var n := if field in h && ParseInt(h[field]).Number? then ParseInt(h[field]).n else 0;
    assert field in h[field := value] && field in h[field := FormatInt(Add64(n, delta))];
    PutWF(d, key, Hash(h[field := value]));
    PutWF(d, key, Hash(h[field := FormatInt(Add64(n, delta))]));
  }

  lemma PushWF(db: Db, key: string, left: bool, values: seq<string>, now: int)
    requires WellFormed(db)
    ensures WellFormed(Push(db, key, left, values, now).db)
  {
    hide Purge, Pushed, WellFormed, Put;
    PurgeWF(db, key, now);
    if values != [] {
      var d := Purge(db, key, now);
      PushedNonEmpty(ListAt(d, key), left, values);
      PutWF(d, key, List(Pushed(ListAt(d, key), left, values)));
    }
  }

  lemma PopWF(db: Db, key: string, left: bool, now: int)
    requires WellFormed(db)
    ensures WellFormed(Pop(db, key, left, now).db)
  {
    hide Shorter, End, WellFormed, PutOrDrop, Remove;
    RemoveWF(db, key);
    if ListAt(db, key) != [] { PutWF(db, key, List(Shorter(ListAt(db, key), left))); }
  }

  lemma LSetWF(db: Db, key: string, index: int, value: string, now: int)
    requires WellFormed(db)
    ensures WellFormed(LSet(db, key, index, value, now).db)
  {
    hide WellFormed, Put, Remove;
    RemoveWF(db, key);
    var l := ListAt(db, key);
    var i := Index(index, |l|);
    if 0 <= i < |l| { PutWF(db, key, List(l[i := value])); }
  }

  lemma LInsertWF(db: Db, key: string, before: bool, pivot: string, value: string, now: int)
    requires WellFormed(db)
    ensures WellFormed(LInsert(db, key, before, pivot, value, now).db)
  {
    hide WellFormed, Put, Remove, FirstAt;
    RemoveWF(db, key);
    var l := ListAt(db, key);
    var p := FirstAt(l, pivot);
    var i := if before then p else p + 1;
    if p < |l| { PutWF(db, key, List(l[..i] + [value] + l[i..])); }
  }

  lemma LRemWF(db: Db, key: string, count: int, value: string, now: int)
    requires WellFormed(db)
    ensures WellFormed(LRem(db, key, count, value, now).db)
  {
    hide WellFormed, PutOrDrop, Remove, Removed;
    RemoveWF(db, key);
    PutWF(db, key, List(Removed(ListAt(db, key), count, value)));
  }

  lemma RemoveWF(db: Db, key: string)
    requires WellFormed(db)
    ensures WellFormed(Remove(db, key))
  {}

  lemma LMoveWF(db: Db, src: string, dst: string, srcLeft: bool, dstLeft: bool, now: int)
    requires WellFormed(db)
    ensures WellFormed(LMove(db, src, dst, srcLeft, dstLeft, now).db)
  {
    hide Purge, Pushed, Shorter, End, WellFormed, PutOrDrop, Put;
    PurgeWF(db, src, now);
    var d := Purge(db, src, now);
    PurgeWF(d, dst, now);
    var d' := if src == dst then d else Purge(d, dst, now);
    if src != dst { PurgeElsewhere(d, src, dst, now); }
    if ListAt(d', src) != [] {
      var rest := List(Shorter(ListAt(d', src), srcLeft));
      PutWF(d', src, rest);
      var popped := PutOrDrop(d', src, rest);
      var val := End(ListAt(d', src), srcLeft);
      PushedNonEmpty(ListAt(popped, dst), dstLeft, [val]);
      PutWF(popped, dst, List(Pushed(ListAt(popped, dst), dstLeft, [val])));
    }
  }

  lemma PurgeElsewhere(db: Db, a: string, b: string, now: int)
    requires a != b
    ensures a in Purge(db, b, now).vals <==> a in db.vals
    ensures a in db.vals ==> Purge(db, b, now).vals[a] == db.vals[a]
  {}

  lemma SAddWF(db: Db, key: string, members: seq<string>, now: int)
    requires WellFormed(db)
    ensures WellFormed(SAdd(db, key, members, now).db)
  {
    hide Purge, WellFormed, Put;
    PurgeWF(db, key, now);
    if members != [] {
      var d := Purge(db, key, now);
      assert members[0] in SetAt(d, key) + SetOf(members);
      PutWF(d, key, Set(SetAt(d, key) + SetOf(members)));
    }
  }

  lemma SRemWF(db: Db, key: string, members: seq<string>, now: int)
    requires WellFormed(db)
    ensures WellFormed(SRem(db, key, members, now).db)
  {
    hide WellFormed, PutOrDrop, Remove;
    RemoveWF(db, key);
    PutWF(db, key, Set(SetAt(db, key) - SetOf(members)));
  }

  lemma SMoveWF(db: Db, src: string, dst: string, member: string, now: int)
    requires WellFormed(db)
    ensures WellFormed(SMove(db, src, dst, member, now).db)
  {
    hide Purge, WellFormed, Put, PutOrDrop;
    PurgeWF(db, src, now);
    PurgeWF(Purge(db, src, now), dst, now);
    var d := Purge(Purge(db, src, now), dst, now);
    PutWF(d, src, Set(SetAt(d, src) - {member}));
    var left := PutOrDrop(d, src, Set(SetAt(d, src) - {member}));
    assert member in SetAt(left, dst) + {member};
    PutWF(left, dst, Set(SetAt(left, dst) + {member}));
  }

  lemma ZAddWF(db: Db, key: string, scored: seq<Z.ZMember>, now: int)
    requires WellFormed(db)
    ensures WellFormed(ZAdd(db, key, scored, now).db)
  {
    hide Purge, WellFormed, Put, AddScores;
    PurgeWF(db, key, now);
    if scored != [] {
      var d := Purge(db, key, now);
      AddScoresNonEmpty(ZSetAt(d, key), scored);
      PutWF(d, key, ZSet(AddScores(ZSetAt(d, key), scored)));
    }
  }

  lemma ZRemWF(db: Db, key: string, members: seq<string>, now: int)
    requires WellFormed(db)
    ensures WellFormed(ZRem(db, key, members, now).db)
  {
    hide WellFormed, PutOrDrop, Remove;
    RemoveWF(db, key);
    PutWF(db, key, ZSet(ZSetAt(db, key) - SetOf(members)));
  }

  lemma ZIncrByWF(db: Db, key: string, incr: real, member: string, round: real -> real, now: int)
    requires WellFormed(db)
    ensures WellFormed(ZIncrBy(db, key, incr, member, round, now).db)
  {
    hide Purge, WellFormed, Put;
    PurgeWF(db, key, now);
    var z := ZSetAt(Purge(db, key, now), key);
    var score := round((if member in z then z[member] else 0.0) + incr);
    assert member in z[member := score];
    PutWF(Purge(db, key, now), key, ZSet(z[member := score]));
  }

  lemma ZPopWF(db: Db, key: string, count: int, lowest: bool, now: int)
    requires WellFormed(db)
    ensures WellFormed(ZPop(db, key, count, lowest, now).db)
  {
    hide WellFormed, PutOrDrop, Remove, Extreme;
    RemoveWF(db, key);
    var z := ZSetAt(db, key);
    var n := Z.PopCount(count, |Z.Listing(z)|);
    PutWF(db, key, ZSet(z - Z.Names(Extreme(z, n, lowest))));
  }

  lemma XAddWF(db: Db, key: string, id: string, fields: seq<string>, nowMs: int, now: int)
    requires WellFormed(db)
    ensures WellFormed(XAdd(db, key, id, fields, nowMs, now).db)
  {
    hide Purge, Chosen, SeqAfter;
    PurgeWF(db, key, now);
  }

  lemma ExpiryWF(db: Db, key: string, at: Option<int>, now: int)
    requires WellFormed(db)
    ensures WellFormed(Expire(db, key, at, now).db) && WellFormed(Persist(db, key, now).db)
  {
    hide Purge;
    PurgeWF(db, key, now);
  }

  lemma DelWF(db: Db, keys: seq<string>, now: int)
    requires WellFormed(db)
    ensures WellFormed(Del(db, keys, now).db)
  {}

  lemma RenameWF(db: Db, key: string, newkey: string, now: int)
    requires WellFormed(db)
    ensures WellFormed(Rename(db, key, newkey, now).db)
  {
    hide Purge;
    PurgeWF(db, key, now);
  }

  lemma CopyWF(db: Db, src: string, dst: string, replace: bool, now: int)
    requires WellFormed(db)
    ensures WellFormed(Copy(db, src, dst, replace, now).db)
  {
    hide Purge;
    PurgeWF(db, src, now);
    PurgeWF(Purge(db, src, now), dst, now);
  }

  lemma StringOpWF(db: Db, op: Op, now: int)
    requires WellFormed(db) && OnString(op)
    ensures WellFormed(StringOp(db, op, now).db)
  {
    hide WellFormed, SetNX, SetXX, IncrBy, Append, GetSet, SetRange, GetDel, MSetNX;
    match op {
      case DoSetAbsolute(key, value, at) => OverwriteWF(db, key, value, at);
      case DoSetNX(key, value, ttl) => StringsWF(db, key, value, ttl, now);
      case DoSetXX(key, value, ttl) => StringsWF(db, key, value, ttl, now);
      case DoIncrBy(key, delta) => EditsWF(db, key, "", 0, delta, now);
      case DoAppend(key, value) => EditsWF(db, key, value, 0, 0, now);
      case DoGetSet(key, value) => StringsWF(db, key, value, 0, now);
      case DoSetRange(key, offset, value) => EditsWF(db, key, value, offset, 0, now);
      case DoGetDel(key) => StringsWF(db, key, "", 0, now);
      case DoMSetNX(pairs) => MSetNXWF(db, pairs, now);
    }
  }

  lemma HashOpWF(db: Db, op: Op, now: int)
    requires WellFormed(db) && OnHash(op)
    ensures WellFormed(HashOp(db, op, now).db)
  {
    hide WellFormed, HSet, HDel, HIncrBy, HSetNX;
    match op {
      case DoHSet(key, pairs) => HSetWF(db, key, pairs, now);
      case DoHDel(key, fields) => HDelWF(db, key, fields, now);
      case DoHIncrBy(key, field, delta) => HFieldWF(db, key, field, "", delta, now);
      case DoHSetNX(key, field, value) => HFieldWF(db, key, field, value, 0, now);
    }
  }

  lemma ListOpWF(db: Db, op: Op, now: int)
    requires WellFormed(db) && OnList(op)
    ensures WellFormed(ListOp(db, op, now).db)
  {
    hide WellFormed, Push, Pop, LMove, LSet, LInsert, LRem;
    match op {
      case DoPush(key, left, values) => PushWF(db, key, left, values, now);
      case DoPop(key, left) => PopWF(db, key, left, now);
      case DoLMove(src, dst, srcLeft, dstLeft) => LMoveWF(db, src, dst, srcLeft, dstLeft, now);
      case DoLSet(key, index, value) => LSetWF(db, key, index, value, now);
      case DoLInsert(key, before, pivot, value) => LInsertWF(db, key, before, pivot, value, now);
      case DoLRem(key, count, value) => LRemWF(db, key, count, value, now);
    }
  }

  lemma SetOpWF(db: Db, op: Op, now: int)
    requires WellFormed(db) && OnSet(op)
    ensures WellFormed(SetOp(db, op, now).db)
  {
    hide WellFormed, SAdd, SRem, SMove;
    match op {
      case DoSAdd(key, members) => SAddWF(db, key, members, now);
      case DoSRem(key, members) => SRemWF(db, key, members, now);
      case DoSMove(src, dst, member) => SMoveWF(db, src, dst, member, now);
    }
  }

  lemma ZSetOpWF(db: Db, op: Op, now: int)
    requires WellFormed(db) && OnZSet(op)
    ensures WellFormed(ZSetOp(db, op, now).db)
  {
    hide WellFormed, ZAdd, ZRem, ZIncrBy, ZPop;
    match op {
      case DoZAdd(key, scored) => ZAddWF(db, key, scored, now);
      case DoZRem(key, members) => ZRemWF(db, key, members, now);
      case DoZIncrBy(key, incr, member, round) => ZIncrByWF(db, key, incr, member, round, now);
      case DoZPop(key, count, lowest) => ZPopWF(db, key, count, lowest, now);
    }
  }

  lemma KeyOpWF(db: Db, op: Op, now: int)
    requires WellFormed(db) && OnKey(op)
    ensures WellFormed(KeyOp(db, op, now).db)
  {
    hide WellFormed, XAdd, Del, Expire, Persist, Rename, Copy;
    match op {
      case DoXAdd(key, id, fields, nowMs) => XAddWF(db, key, id, fields, nowMs, now);
      case DoDel(keys) => DelWF(db, keys, now);
      case DoExpire(key, at) => ExpiryWF(db, key, at, now);
      case DoPersist(key) => ExpiryWF(db, key, None, now);
      case DoRename(key, newkey) => RenameWF(db, key, newkey, now);
      case DoCopy(src, dst, replace) => CopyWF(db, src, dst, replace, now);
    }
  }

  /** Every mutator keeps the keyspace well-formed, whatever its arguments and the clock. */
  lemma ApplyKeepsWellFormed(db: Db, op: Op, now: int)
    requires WellFormed(db)
    ensures WellFormed(Apply(db, op, now).db)
  {
    hide WellFormed, StringOp, HashOp, ListOp, SetOp, ZSetOp, KeyOp;
    if OnString(op) { StringOpWF(db, op, now); }
    else if OnHash(op) { HashOpWF(db, op, now); }
    else if OnList(op) { ListOpWF(db, op, now); }
    else if OnSet(op) { SetOpWF(db, op, now); }
    else if OnZSet(op) { ZSetOpWF(db, op, now); }
    else { KeyOpWF(db, op, now); }
  }

  /** RENAME carries the value over, and keeps it anywhere, exactly when the two names differ. */
  lemma RenameKeepsValue(db: Db, key: string, newkey: string, now: int)
    requires key in db.vals && !Expired(db, key, now)
    ensures var r := Rename(db, key, newkey, now);
            && r.reply == Done && key !in r.db.vals
            && (newkey in r.db.vals <==> key != newkey)
            && (key != newkey ==> r.db.vals[newkey] == db.vals[key])
            && (forall k :: k != key && k != newkey ==>
                  (k in r.db.vals <==> k in db.vals) && (k in db.vals ==> r.db.vals[k] == db.vals[k]))
  {}

  /** A timed step: what is done and when. */
  datatype Timed = Timed(op: Op, now: int)

  ghost function Run(db: Db, steps: seq<Timed>): Db
    decreases |steps|
  {
    if steps == [] then db else Run(Apply(db, steps[0].op, steps[0].now).db, steps[1..])
  }

  /** Over every run, whatever the clock readings. */
  lemma {:induction false} RunKeepsWellFormed(db: Db, steps: seq<Timed>)
    requires WellFormed(db)
    ensures WellFormed(Run(db, steps))
    decreases |steps|
  {
    hide WellFormed, Apply;
    if steps != [] {
      ApplyKeepsWellFormed(db, steps[0].op, steps[0].now);
      RunKeepsWellFormed(Apply(db, steps[0].op, steps[0].now).db, steps[1..]);
    }
  }
}