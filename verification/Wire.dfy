/**
 * Commands as a client sends them (internal/server/server.go): for each command that is logged as
 * sent, what its arguments do to the data, what the client is told, and what goes to the log. The
 * data has no expiry times.
 */
module Wire {
  import opened Common
  import opened Decimal
  import opened Keyspace
  import opened Recovery
  import L = CommandLaws
  import Z = SortedSets

  type Vals = map<string, Val>

  /** The value is put under the key, or the key removed if a container would be empty; nothing else changes. */
  ghost function Stored(b: Vals, key: string, v: Val): Vals { if IsEmpty(v) then b - {key} else b[key := v] }

  lemma NoExpiry(db: Db, key: string, v: Val, now: int)
    requires Plain(db) && WellFormed(db)
    ensures Purge(db, key, now) == db && !Expired(db, key, now) && PutOrDrop(db, key, v).vals == Stored(db.vals, key, v)
    ensures key in db.vals ==> !IsEmpty(db.vals[key])
  {}

  lemma DataOf(srv: Server)
    requires srv.Valid()
    ensures Plain(srv.store.Abs()) && WellFormed(srv.store.Abs()) && Faithful(srv.t)
  {}

  // ----- numbers -----

  /** The number under the key, zero if there is none, is replaced by its sum with `delta`, which wraps at 64 bits. */
  ghost predicate Added(b: Vals, a: Vals, key: string, delta: int, r: Reply) {
    if key in b && !b[key].Str? then r == WrongType && a == b
    else if key in b && !ParseInt(b[key].s).Number? then r == NotInteger && a == b
    else
      var sum := (if key in b then ParseInt(b[key].s).n else 0) + delta;
      && r.Int? && -0x8000_0000_0000_0000 <= r.n <= 0x7fff_ffff_ffff_ffff
      && (r.n == sum || r.n == sum - 0x1_0000_0000_0000_0000 || r.n == sum + 0x1_0000_0000_0000_0000)
      && a == b[key := Str(FormatInt(r.n))]
  }

  lemma Adds(db: Db, key: string, delta: int, now: int)
    requires Plain(db) && WellFormed(db) && MinInt64 <= delta <= MaxInt64
    ensures var o := IncrBy(db, key, delta, now); Added(db.vals, o.db.vals, key, delta, o.reply)
    ensures var o := IncrBy(db, key, Neg64(delta), now); Added(db.vals, o.db.vals, key, -delta, o.reply)
  {
    hide ParseInt, FormatInt, Purge;
    NoExpiry(db, key, Str(""), now);
  }

  lemma IncrSent(db: Db, key: string, t: Texts, now: int)
    requires Plain(db) && WellFormed(db)
    ensures var v := VIncr(key);
            && WellFormedVerb(v, t) && NameOf(VerbCmd(v)) == "INCR"
            && VerbArgs(v, t) == [key]
            && (Admitted(HeldIn(db, VerbKey(v)), v) <==>
                  !(key in db.vals && db.vals[key].Str? && !ParseInt(db.vals[key].s).Number?))
    ensures var o := Apply(db, VerbOp(VIncr(key)), now); Added(db.vals, o.db.vals, key, 1, o.reply)
  {
    hide IncrBy, Added, ParseInt, FormatInt, Plain, WellFormed;
    Adds(db, key, 1, now);
  }

  /** INCR adds one; it is not logged if the string is no number. */
  method Incr(srv: Server, name: string, key: string, now: int) returns (logged: bool, r: Reply)
    requires srv.Valid() && Upper(name) == "INCR"
    modifies srv.store, srv.aof
    ensures srv.Valid() && srv.aof.log == old(srv.aof.log) + if logged then [[name] + [key]] else []
    ensures var b := old(srv.store.Abs()).vals; logged <==> !(key in b && b[key].Str? && !ParseInt(b[key].s).Number?)
    ensures Added(old(srv.store.Abs()).vals, srv.store.Abs().vals, key, 1, r)
  {
    hide *;
    DataOf(srv);
    IncrSent(srv.store.Abs(), key, srv.t, now);
    logged, r := srv.Sent(name, VIncr(key), now);
  }

  lemma DecrSent(db: Db, key: string, t: Texts, now: int)
    requires Plain(db) && WellFormed(db)
    ensures var v := VDecr(key);
            && WellFormedVerb(v, t) && NameOf(VerbCmd(v)) == "DECR"
            && VerbArgs(v, t) == [key]
            && (Admitted(HeldIn(db, VerbKey(v)), v) <==> true)
    ensures var o := Apply(db, VerbOp(VDecr(key)), now); Added(db.vals, o.db.vals, key, -1, o.reply)
  {
    hide IncrBy, Added, ParseInt, FormatInt, Plain, WellFormed;
    Adds(db, key, -1, now);
  }

  /** DECR subtracts one. */
  method Decr(srv: Server, name: string, key: string, now: int) returns (logged: bool, r: Reply)
    requires srv.Valid() && Upper(name) == "DECR"
    modifies srv.store, srv.aof
    ensures srv.Valid() && srv.aof.log == old(srv.aof.log) + if logged then [[name] + [key]] else []
    ensures var b := old(srv.store.Abs()).vals; logged <==> true
    ensures Added(old(srv.store.Abs()).vals, srv.store.Abs().vals, key, -1, r)
  {
    hide *;
    DataOf(srv);
    DecrSent(srv.store.Abs(), key, srv.t, now);
    logged, r := srv.Sent(name, VDecr(key), now);
  }

  lemma IncrementBySent(db: Db, key: string, delta: int, t: Texts, now: int)
    requires Plain(db) && WellFormed(db) && MinInt64 <= delta <= MaxInt64
    ensures var v := VIncrBy(key, delta);
            && WellFormedVerb(v, t) && NameOf(VerbCmd(v)) == "INCRBY"
            && VerbArgs(v, t) == [key, FormatInt(delta)]
            && (Admitted(HeldIn(db, VerbKey(v)), v) <==> true)
    ensures var o := Apply(db, VerbOp(VIncrBy(key, delta)), now); Added(db.vals, o.db.vals, key, delta, o.reply)
  {
    hide IncrBy, Added, ParseInt, FormatInt, Plain, WellFormed;
    Adds(db, key, delta, now);
  }

  /** INCRBY adds the number given. */
  method IncrementBy(srv: Server, name: string, key: string, delta: int, now: int) returns (logged: bool, r: Reply)
    requires srv.Valid() && Upper(name) == "INCRBY" && MinInt64 <= delta <= MaxInt64
    modifies srv.store, srv.aof
    ensures srv.Valid() && srv.aof.log == old(srv.aof.log) + if logged then [[name] + [key, FormatInt(delta)]] else []
    ensures var b := old(srv.store.Abs()).vals; logged <==> true
    ensures Added(old(srv.store.Abs()).vals, srv.store.Abs().vals, key, delta, r)
  {
    hide *;
    DataOf(srv);
    IncrementBySent(srv.store.Abs(), key, delta, srv.t, now);
    logged, r := srv.Sent(name, VIncrBy(key, delta), now);
  }

  lemma DecrementBySent(db: Db, key: string, delta: int, t: Texts, now: int)
    requires Plain(db) && WellFormed(db) && MinInt64 <= delta <= MaxInt64
    ensures var v := VDecrBy(key, delta);
            && WellFormedVerb(v, t) && NameOf(VerbCmd(v)) == "DECRBY"
            && VerbArgs(v, t) == [key, FormatInt(delta)]
            && (Admitted(HeldIn(db, VerbKey(v)), v) <==> true)
    ensures var o := Apply(db, VerbOp(VDecrBy(key, delta)), now); Added(db.vals, o.db.vals, key, -delta, o.reply)
  {
    hide IncrBy, Added, ParseInt, FormatInt, Plain, WellFormed;
    Adds(db, key, delta, now);
  }

  /** DECRBY subtracts the number given. */
  method DecrementBy(srv: Server, name: string, key: string, delta: int, now: int) returns (logged: bool, r: Reply)
    requires srv.Valid() && Upper(name) == "DECRBY" && MinInt64 <= delta <= MaxInt64
    modifies srv.store, srv.aof
    ensures srv.Valid() && srv.aof.log == old(srv.aof.log) + if logged then [[name] + [key, FormatInt(delta)]] else []
    ensures var b := old(srv.store.Abs()).vals; logged <==> true
    ensures Added(old(srv.store.Abs()).vals, srv.store.Abs().vals, key, -delta, r)
  {
    hide *;
    DataOf(srv);
    DecrementBySent(srv.store.Abs(), key, delta, srv.t, now);
    logged, r := srv.Sent(name, VDecrBy(key, delta), now);
  }

  // ----- hashes -----

  /** The named fields are gone, and counted if they were there. */
  ghost predicate FieldsGone(b: Vals, a: Vals, key: string, fields: seq<string>, r: Reply) {
    if key !in b then r == Int(0) && a == b
    else if !b[key].Hash? then r == WrongType && a == b
    else
      && r == Int(|set f | f in b[key].h && f in fields|)
      && a == Stored(b, key, Hash(map f | f in b[key].h && f !in fields :: b[key].h[f]))
  }

  lemma FieldsGoneMeans(db: Db, key: string, fields: seq<string>, now: int)
    requires Plain(db) && WellFormed(db) && fields != []
    ensures var o := HDel(db, key, fields, now); FieldsGone(db.vals, o.db.vals, key, fields, o.reply)
  {
    hide Purge, PutOrDrop, Plain, WellFormed;
    NoExpiry(db, key, Hash(HashAt(db, key) - SetOf(fields)), now);
    L.LostKeys(HashAt(db, key), SetOf(fields));
    L.Without(HashAt(db, key), fields);
  }

  lemma HDeleteSent(db: Db, key: string, fields: seq<string>, t: Texts, now: int)
    requires Plain(db) && WellFormed(db) && fields != []
    ensures var v := VHDel(key, fields);
            && WellFormedVerb(v, t) && NameOf(VerbCmd(v)) == "HDEL"
            && VerbArgs(v, t) == [key] + fields
            && (Admitted(HeldIn(db, VerbKey(v)), v) <==> key in db.vals && db.vals[key].Hash?)
    ensures var o := Apply(db, VerbOp(VHDel(key, fields)), now); FieldsGone(db.vals, o.db.vals, key, fields, o.reply)
  {
    hide HDel, FieldsGone, Plain, WellFormed, Apply;
    L.IsHashOp(db, VerbOp(VHDel(key, fields)), now);
    FieldsGoneMeans(db, key, fields, now);
  }

  /** HDEL is logged only if the key holds a hash. */
  method HDelete(srv: Server, name: string, key: string, fields: seq<string>, now: int) returns (logged: bool, r: Reply)
    requires srv.Valid() && Upper(name) == "HDEL" && fields != []
    modifies srv.store, srv.aof
    ensures srv.Valid() && srv.aof.log == old(srv.aof.log) + if logged then [[name] + ([key] + fields)] else []
    ensures var b := old(srv.store.Abs()).vals; logged <==> key in b && b[key].Hash?
    ensures FieldsGone(old(srv.store.Abs()).vals, srv.store.Abs().vals, key, fields, r)
  {
    hide *;
    DataOf(srv);
    HDeleteSent(srv.store.Abs(), key, fields, srv.t, now);
    logged, r := srv.Sent(name, VHDel(key, fields), now);
  }

  /** The number in the field, zero if there is none, is replaced by its sum with `delta`. */
  ghost predicate FieldAdded(b: Vals, a: Vals, key: string, field: string, delta: int, r: Reply) {
    if key in b && !b[key].Hash? then r == WrongType && a == b
    else
      var h := if key in b then b[key].h else map[];
      if field in h && !ParseInt(h[field]).Number? then r == NotInteger && a == b
      else
        var sum := (if field in h then ParseInt(h[field]).n else 0) + delta;
        && r.Int? && -0x8000_0000_0000_0000 <= r.n <= 0x7fff_ffff_ffff_ffff
        && (r.n == sum || r.n == sum - 0x1_0000_0000_0000_0000 || r.n == sum + 0x1_0000_0000_0000_0000)
        && a == b[key := Hash(h[field := FormatInt(r.n)])]
  }

  lemma FieldAddedMeans(db: Db, key: string, field: string, delta: int, now: int)
    requires Plain(db) && WellFormed(db) && MinInt64 <= delta <= MaxInt64
    ensures var o := HIncrBy(db, key, field, delta, now); FieldAdded(db.vals, o.db.vals, key, field, delta, o.reply)
  {
    hide Purge, ParseInt, FormatInt, Plain, WellFormed;
    NoExpiry(db, key, Str(""), now);
  }

  lemma HIncrementSent(db: Db, key: string, field: string, delta: int, t: Texts, now: int)
    requires Plain(db) && WellFormed(db) && MinInt64 <= delta <= MaxInt64
    ensures var v := VHIncrBy(key, field, delta);
            && WellFormedVerb(v, t) && NameOf(VerbCmd(v)) == "HINCRBY"
            && VerbArgs(v, t) == [key, field, FormatInt(delta)]
            && (Admitted(HeldIn(db, VerbKey(v)), v) <==> true)
    ensures var o := Apply(db, VerbOp(VHIncrBy(key, field, delta)), now);
            FieldAdded(db.vals, o.db.vals, key, field, delta, o.reply)
  {
    hide HIncrBy, FieldAdded, Plain, WellFormed, Apply, FormatInt;
    L.IsHashOp(db, VerbOp(VHIncrBy(key, field, delta)), now);
    FieldAddedMeans(db, key, field, delta, now);
  }

  /** HINCRBY adds to the number in a field. */
  method HIncrement(srv: Server, name: string, key: string, field: string, delta: int, now: int)
      returns (logged: bool, r: Reply)
    requires srv.Valid() && Upper(name) == "HINCRBY" && MinInt64 <= delta <= MaxInt64
    modifies srv.store, srv.aof
    ensures srv.Valid()
    ensures srv.aof.log == old(srv.aof.log) + if logged then [[name] + [key, field, FormatInt(delta)]] else []
    ensures var b := old(srv.store.Abs()).vals; logged <==> true
    ensures FieldAdded(old(srv.store.Abs()).vals, srv.store.Abs().vals, key, field, delta, r)
  {
    hide *;
    DataOf(srv);
    HIncrementSent(srv.store.Abs(), key, field, delta, srv.t, now);
    logged, r := srv.Sent(name, VHIncrBy(key, field, delta), now);
  }

  // ----- lists -----

  /** On the left the values come before the list, the last one first; on the right after it, in their order. */
  ghost predicate ValuesPushed(b: Vals, a: Vals, key: string, left: bool, values: seq<string>, r: Reply) {
    if key in b && !b[key].List? then r == WrongType && a == b
    else
      var l := if key in b then b[key].l else [];
      var backwards := seq(|values|, i requires 0 <= i < |values| => values[|values| - 1 - i]);
      a == b[key := List(if left then backwards + l else l + values)] && r == Int(|l| + |values|)
  }

  lemma Pushes(l: seq<string>, left: bool, values: seq<string>)
    ensures Pushed(l, left, values) ==
              if left then seq(|values|, i requires 0 <= i < |values| => values[|values| - 1 - i]) + l else l + values
  {
    ReverseAt(values);
  }

  lemma ValuesPushedMeans(db: Db, key: string, left: bool, values: seq<string>, now: int)
    requires Plain(db) && WellFormed(db) && values != []
    ensures var o := Push(db, key, left, values, now); ValuesPushed(db.vals, o.db.vals, key, left, values, o.reply)
  {
    hide Purge, Pushed, Plain, WellFormed;
    NoExpiry(db, key, Str(""), now);
    Pushes(ListAt(db, key), left, values);
  }

  lemma PushOnSent(db: Db, key: string, left: bool, values: seq<string>, t: Texts, now: int)
    requires Plain(db) && WellFormed(db) && values != []
    ensures var v := VPush(key, left, values);
            && WellFormedVerb(v, t) && NameOf(VerbCmd(v)) == (if left then "LPUSH" else "RPUSH")
            && VerbArgs(v, t) == [key] + values
            && (Admitted(HeldIn(db, VerbKey(v)), v) <==> (key in db.vals ==> db.vals[key].List?))
    ensures var o := Apply(db, VerbOp(VPush(key, left, values)), now);
            ValuesPushed(db.vals, o.db.vals, key, left, values, o.reply)
  {
    hide Push, ValuesPushed, Plain, WellFormed, Apply;
    L.IsListOp(db, VerbOp(VPush(key, left, values)), now);
    ValuesPushedMeans(db, key, left, values, now);
  }

  /** LPUSH and RPUSH are logged only if the key holds a list or nothing. */
  method PushOn(srv: Server, name: string, key: string, left: bool, values: seq<string>, now: int)
      returns (logged: bool, r: Reply)
    requires srv.Valid() && Upper(name) == (if left then "LPUSH" else "RPUSH") && values != []
    modifies srv.store, srv.aof
    ensures srv.Valid() && srv.aof.log == old(srv.aof.log) + if logged then [[name] + ([key] + values)] else []
    ensures var b := old(srv.store.Abs()).vals; logged <==> (key in b ==> b[key].List?)
    ensures ValuesPushed(old(srv.store.Abs()).vals, srv.store.Abs().vals, key, left, values, r)
  {
    hide *;
    DataOf(srv);
    PushOnSent(srv.store.Abs(), key, left, values, srv.t, now);
    logged, r := srv.Sent(name, VPush(key, left, values), now);
  }

  /** On the left the first element comes out, on the right the last. */
  ghost predicate ElementPopped(b: Vals, a: Vals, key: string, left: bool, r: Reply) {
    if key !in b then r == Nil && a == b
    else if !b[key].List? then r == WrongType && a == b
    else
      var l := b[key].l;
      && l != [] && r == Text(l[if left then 0 else |l| - 1])
      && a == Stored(b, key, List(if left then l[1..] else l[..|l| - 1]))
  }

  lemma ElementPoppedMeans(db: Db, key: string, left: bool, now: int)
    requires Plain(db) && WellFormed(db)
    ensures var o := Pop(db, key, left, now); ElementPopped(db.vals, o.db.vals, key, left, o.reply)
  {
    hide Purge, PutOrDrop, Plain, WellFormed;
    NoExpiry(db, key, Str(""), now);
    if ListAt(db, key) != [] { NoExpiry(db, key, List(Shorter(ListAt(db, key), left)), now); }
  }

  lemma PopFromSent(db: Db, key: string, left: bool, t: Texts, now: int)
    requires Plain(db) && WellFormed(db)
    ensures var v := VPop(key, left);
            && WellFormedVerb(v, t) && NameOf(VerbCmd(v)) == (if left then "LPOP" else "RPOP")
            && VerbArgs(v, t) == [key]
            && (Admitted(HeldIn(db, VerbKey(v)), v) <==> key in db.vals && db.vals[key].List?)
    ensures var o := Apply(db, VerbOp(VPop(key, left)), now); ElementPopped(db.vals, o.db.vals, key, left, o.reply)
  {
    hide Pop, ElementPopped, Plain, WellFormed, Apply;
    L.IsListOp(db, VerbOp(VPop(key, left)), now);
    ElementPoppedMeans(db, key, left, now);
  }

  /** LPOP and RPOP are logged only if there is something to pop. */
  method PopFrom(srv: Server, name: string, key: string, left: bool, now: int) returns (logged: bool, r: Reply)
    requires srv.Valid() && Upper(name) == (if left then "LPOP" else "RPOP")
    modifies srv.store, srv.aof
    ensures srv.Valid() && srv.aof.log == old(srv.aof.log) + if logged then [[name] + [key]] else []
    ensures var b := old(srv.store.Abs()).vals; logged <==> key in b && b[key].List?
    ensures ElementPopped(old(srv.store.Abs()).vals, srv.store.Abs().vals, key, left, r)
  {
    hide *;
    DataOf(srv);
    PopFromSent(srv.store.Abs(), key, left, srv.t, now);
    logged, r := srv.Sent(name, VPop(key, left), now);
  }

  /** A negative index counts from the end. */
  ghost predicate ElementSet(b: Vals, a: Vals, key: string, index: int, value: string, r: Reply) {
    if key !in b then r == NoSuchKey && a == b
    else if !b[key].List? then r == WrongType && a == b
    else
      var l := b[key].l;
      var i := if index < 0 then |l| + index else index;
      if 0 <= i < |l| then r == Done && a == b[key := List(l[i := value])] else r == Reply.OutOfRange && a == b
  }

  lemma ElementSetMeans(db: Db, key: string, index: int, value: string, now: int)
    requires Plain(db) && WellFormed(db) && MinInt64 <= index <= MaxInt64
    ensures var o := LSet(db, key, index, value, now); ElementSet(db.vals, o.db.vals, key, index, value, o.reply)
  {
    hide Purge, FormatInt, Plain, WellFormed;
    NoExpiry(db, key, Str(""), now);
  }

  lemma SetElementSent(db: Db, key: string, index: int, value: string, t: Texts, now: int)
    requires Plain(db) && WellFormed(db) && MinInt64 <= index <= MaxInt64
    ensures var v := VLSet(key, index, value);
            && WellFormedVerb(v, t) && NameOf(VerbCmd(v)) == "LSET"
            && VerbArgs(v, t) == [key, FormatInt(index), value]
            && (Admitted(HeldIn(db, VerbKey(v)), v) <==> true)
    ensures var o := Apply(db, VerbOp(VLSet(key, index, value)), now);
            ElementSet(db.vals, o.db.vals, key, index, value, o.reply)
  {
    hide LSet, ElementSet, Plain, WellFormed, Apply, FormatInt;
    L.IsListOp(db, VerbOp(VLSet(key, index, value)), now);
    ElementSetMeans(db, key, index, value, now);
  }

  /** LSET is logged whatever comes of it. */
  method SetElement(srv: Server, name: string, key: string, index: int, value: string, now: int)
      returns (logged: bool, r: Reply)
    requires srv.Valid() && Upper(name) == "LSET" && MinInt64 <= index <= MaxInt64
    modifies srv.store, srv.aof
    ensures srv.Valid()
    ensures srv.aof.log == old(srv.aof.log) + if logged then [[name] + [key, FormatInt(index), value]] else []
    ensures var b := old(srv.store.Abs()).vals; logged <==> true
    ensures ElementSet(old(srv.store.Abs()).vals, srv.store.Abs().vals, key, index, value, r)
  {
    hide *;
    DataOf(srv);
    SetElementSent(srv.store.Abs(), key, index, value, srv.t, now);
    logged, r := srv.Sent(name, VLSet(key, index, value), now);
  }

  /** The value is put before or after the first element that equals the pivot. */
  ghost predicate ElementInserted(b: Vals, a: Vals, key: string, before: bool, pivot: string, value: string, r: Reply) {
    if key !in b then r == Int(0) && a == b
    else if !b[key].List? then r == WrongType && a == b
    else
      var l, p := b[key].l, FirstAt(b[key].l, pivot);
      if p == |l| then r == Int(-1) && a == b
      else
        && r == Int(|l| + 1)
        && a == b[key := List(if before then l[..p] + [value] + l[p..] else l[..p + 1] + [value] + l[p + 1..])]
  }

  lemma ElementInsertedMeans(db: Db, key: string, before: bool, pivot: string, value: string, now: int)
    requires Plain(db) && WellFormed(db)
    ensures var o := LInsert(db, key, before, pivot, value, now);
            ElementInserted(db.vals, o.db.vals, key, before, pivot, value, o.reply)
  {
    hide Purge, FirstAt, Plain, WellFormed;
    NoExpiry(db, key, Str(""), now);
  }

  lemma InsertNextToSent(db: Db, key: string, where_: string, pivot: string, value: string, t: Texts, now: int)
    requires Plain(db) && WellFormed(db) && (Upper(where_) == "BEFORE" || Upper(where_) == "AFTER")
    ensures var v := VLInsert(key, where_, pivot, value);
            && WellFormedVerb(v, t) && NameOf(VerbCmd(v)) == "LINSERT"
            && VerbArgs(v, t) == [key, where_, pivot, value]
            && (Admitted(HeldIn(db, VerbKey(v)), v) <==> true)
    ensures var o := Apply(db, VerbOp(VLInsert(key, where_, pivot, value)), now);
            ElementInserted(db.vals, o.db.vals, key, Upper(where_) == "BEFORE", pivot, value, o.reply)
  {
    hide LInsert, ElementInserted, Plain, WellFormed, Apply, Upper;
    L.IsListOp(db, VerbOp(VLInsert(key, where_, pivot, value)), now);
    ElementInsertedMeans(db, key, Upper(where_) == "BEFORE", pivot, value, now);
  }

  /** LINSERT takes BEFORE or AFTER, in any case. */
  method InsertNextTo(srv: Server, name: string, key: string, where_: string, pivot: string, value: string, now: int)
      returns (logged: bool, r: Reply)
    requires srv.Valid() && Upper(name) == "LINSERT" && (Upper(where_) == "BEFORE" || Upper(where_) == "AFTER")
    modifies srv.store, srv.aof
    ensures srv.Valid()
    ensures srv.aof.log == old(srv.aof.log) + if logged then [[name] + [key, where_, pivot, value]] else []
    ensures var b := old(srv.store.Abs()).vals; logged <==> true
    ensures ElementInserted(old(srv.store.Abs()).vals, srv.store.Abs().vals,
              key, Upper(where_) == "BEFORE", pivot, value, r)
  {
    hide *;
    DataOf(srv);
    InsertNextToSent(srv.store.Abs(), key, where_, pivot, value, srv.t, now);
    logged, r := srv.Sent(name, VLInsert(key, where_, pivot, value), now);
  }

  /** Occurrences of the value are gone: from the front, from the back, or all of them (see CommandLaws.RemovedIs). */
  ghost predicate ElementsRemoved(b: Vals, a: Vals, key: string, count: int, value: string, r: Reply) {
    if key !in b then r == Int(0) && a == b
    else if !b[key].List? then r == WrongType && a == b
    else
      var rest := Removed(b[key].l, count, value);
      r == Int(|b[key].l| - |rest|) && a == Stored(b, key, List(rest))
  }

  lemma ElementsRemovedMeans(db: Db, key: string, count: int, value: string, now: int)
    requires Plain(db) && WellFormed(db) && MinInt64 <= count <= MaxInt64
    ensures var o := LRem(db, key, count, value, now); ElementsRemoved(db.vals, o.db.vals, key, count, value, o.reply)
  {
    hide Purge, PutOrDrop, FormatInt, Removed, Plain, WellFormed;
    NoExpiry(db, key, List(Removed(ListAt(db, key), count, value)), now);
  }

  lemma RemoveSomeSent(db: Db, key: string, count: int, value: string, t: Texts, now: int)
    requires Plain(db) && WellFormed(db) && MinInt64 <= count <= MaxInt64
    ensures var v := VLRem(key, count, value);
            && WellFormedVerb(v, t) && NameOf(VerbCmd(v)) == "LREM"
            && VerbArgs(v, t) == [key, FormatInt(count), value]
            && (Admitted(HeldIn(db, VerbKey(v)), v) <==> true)
    ensures var o := Apply(db, VerbOp(VLRem(key, count, value)), now);
            ElementsRemoved(db.vals, o.db.vals, key, count, value, o.reply)
  {
    hide LRem, ElementsRemoved, Plain, WellFormed, Apply, FormatInt;
    L.IsListOp(db, VerbOp(VLRem(key, count, value)), now);
    ElementsRemovedMeans(db, key, count, value, now);
  }

  /** LREM is logged whatever comes of it. */
  method RemoveSome(srv: Server, name: string, key: string, count: int, value: string, now: int)
      returns (logged: bool, r: Reply)
    requires srv.Valid() && Upper(name) == "LREM" && MinInt64 <= count <= MaxInt64
    modifies srv.store, srv.aof
    ensures srv.Valid()
    ensures srv.aof.log == old(srv.aof.log) + if logged then [[name] + [key, FormatInt(count), value]] else []
    ensures var b := old(srv.store.Abs()).vals; logged <==> true
    ensures ElementsRemoved(old(srv.store.Abs()).vals, srv.store.Abs().vals, key, count, value, r)
  {
    hide *;
    DataOf(srv);
    RemoveSomeSent(srv.store.Abs(), key, count, value, srv.t, now);
    logged, r := srv.Sent(name, VLRem(key, count, value), now);
  }

  // ----- sets -----

  /** The members join the set, and the new ones are counted. */
  ghost predicate MembersAdded(b: Vals, a: Vals, key: string, members: seq<string>, r: Reply) {
    if key in b && !b[key].Set? then r == WrongType && a == b
    else
      var m := if key in b then b[key].m else {};
      a == b[key := Set(m + set x | x in members)] && r == Int(|set x | x in members && x !in m|)
  }

  lemma MembersAddedMeans(db: Db, key: string, members: seq<string>, now: int)
    requires Plain(db) && WellFormed(db) && members != []
    ensures var o := SAdd(db, key, members, now); MembersAdded(db.vals, o.db.vals, key, members, o.reply)
  {
    hide Purge, Plain, WellFormed;
    NoExpiry(db, key, Str(""), now);
    L.NewMembers(SetAt(db, key), members);
  }

  lemma AddMembersSent(db: Db, key: string, members: seq<string>, t: Texts, now: int)
    requires Plain(db) && WellFormed(db) && members != []
    ensures var v := VSAdd(key, members);
            && WellFormedVerb(v, t) && NameOf(VerbCmd(v)) == "SADD"
            && VerbArgs(v, t) == [key] + members
            && (Admitted(HeldIn(db, VerbKey(v)), v) <==> (key in db.vals ==> db.vals[key].Set?))
    ensures var o := Apply(db, VerbOp(VSAdd(key, members)), now);
            MembersAdded(db.vals, o.db.vals, key, members, o.reply)
  {
    hide SAdd, MembersAdded, Plain, WellFormed, Apply;
    L.IsSetOp(db, VerbOp(VSAdd(key, members)), now);
    MembersAddedMeans(db, key, members, now);
  }

  /** SADD is logged only if the key holds a set or nothing. */
  method AddMembers(srv: Server, name: string, key: string, members: seq<string>, now: int)
      returns (logged: bool, r: Reply)
    requires srv.Valid() && Upper(name) == "SADD" && members != []
    modifies srv.store, srv.aof
    ensures srv.Valid() && srv.aof.log == old(srv.aof.log) + if logged then [[name] + ([key] + members)] else []
    ensures var b := old(srv.store.Abs()).vals; logged <==> (key in b ==> b[key].Set?)
    ensures MembersAdded(old(srv.store.Abs()).vals, srv.store.Abs().vals, key, members, r)
  {
    hide *;
    DataOf(srv);
    AddMembersSent(srv.store.Abs(), key, members, srv.t, now);
    logged, r := srv.Sent(name, VSAdd(key, members), now);
  }

  /** The members leave the set, and those that were in it are counted. */
  ghost predicate MembersGone(b: Vals, a: Vals, key: string, members: seq<string>, r: Reply) {
    if key !in b then r == Int(0) && a == b
    else if !b[key].Set? then r == WrongType && a == b
    else
      && r == Int(|set x | x in b[key].m && x in members|)
      && a == Stored(b, key, Set(set x | x in b[key].m && x !in members))
  }

  lemma MembersGoneMeans(db: Db, key: string, members: seq<string>, now: int)
    requires Plain(db) && WellFormed(db) && members != []
    ensures var o := SRem(db, key, members, now); MembersGone(db.vals, o.db.vals, key, members, o.reply)
  {
    hide Purge, PutOrDrop, Plain, WellFormed;
    NoExpiry(db, key, Set(SetAt(db, key) - SetOf(members)), now);
    L.NewMembers(SetAt(db, key), members);
  }

  lemma RemoveMembersSent(db: Db, key: string, members: seq<string>, t: Texts, now: int)
    requires Plain(db) && WellFormed(db) && members != []
    ensures var v := VSRem(key, members);
            && WellFormedVerb(v, t) && NameOf(VerbCmd(v)) == "SREM"
            && VerbArgs(v, t) == [key] + members
            && (Admitted(HeldIn(db, VerbKey(v)), v) <==> key in db.vals && db.vals[key].Set?)
    ensures var o := Apply(db, VerbOp(VSRem(key, members)), now); MembersGone(db.vals, o.db.vals, key, members, o.reply)
  {
    hide SRem, MembersGone, Plain, WellFormed, Apply;
    L.IsSetOp(db, VerbOp(VSRem(key, members)), now);
    MembersGoneMeans(db, key, members, now);
  }

  /** SREM is logged only if the key holds a set. */
  method RemoveMembers(srv: Server, name: string, key: string, members: seq<string>, now: int)
      returns (logged: bool, r: Reply)
    requires srv.Valid() && Upper(name) == "SREM" && members != []
    modifies srv.store, srv.aof
    ensures srv.Valid() && srv.aof.log == old(srv.aof.log) + if logged then [[name] + ([key] + members)] else []
    ensures var b := old(srv.store.Abs()).vals; logged <==> key in b && b[key].Set?
    ensures MembersGone(old(srv.store.Abs()).vals, srv.store.Abs().vals, key, members, r)
  {
    hide *;
    DataOf(srv);
    RemoveMembersSent(srv.store.Abs(), key, members, srv.t, now);
    logged, r := srv.Sent(name, VSRem(key, members), now);
  }

  /** The member leaves the one set for the other, if it was there. */
  ghost predicate MemberMoved(b: Vals, a: Vals, src: string, dst: string, member: string, r: Reply) {
    if (src in b && !b[src].Set?) || (dst in b && !b[dst].Set?) then r == WrongType && a == b
    else if src !in b || member !in b[src].m then r == Bool(false) && a == b
    else if src == dst then r == Bool(true) && a == b
    else
      var m := if dst in b then b[dst].m else {};
      r == Bool(true) && a == Stored(b, src, Set(b[src].m - {member}))[dst := Set(m + {member})]
  }

  lemma MemberMovedMeans(db: Db, src: string, dst: string, member: string, now: int)
    requires Plain(db) && WellFormed(db)
    ensures var o := SMove(db, src, dst, member, now); MemberMoved(db.vals, o.db.vals, src, dst, member, o.reply)
  {
    hide Purge, PutOrDrop, Plain, WellFormed;
    NoExpiry(db, dst, Str(""), now);
    NoExpiry(db, src, Set(SetAt(db, src) - {member}), now);
    if src == dst && member in SetAt(db, src) { SameSet(db, src, member, now); }
  }

  lemma MoveMemberSent(db: Db, src: string, dst: string, member: string, t: Texts, now: int)
    requires Plain(db) && WellFormed(db)
    ensures var v := VSMove(src, dst, member);
            && WellFormedVerb(v, t) && NameOf(VerbCmd(v)) == "SMOVE"
            && VerbArgs(v, t) == [src, dst, member]
            && (Admitted(HeldIn(db, VerbKey(v)), v) <==> true)
    ensures var o := Apply(db, VerbOp(VSMove(src, dst, member)), now);
            MemberMoved(db.vals, o.db.vals, src, dst, member, o.reply)
  {
    hide SMove, MemberMoved, Plain, WellFormed, Apply;
    L.IsSetOp(db, VerbOp(VSMove(src, dst, member)), now);
    MemberMovedMeans(db, src, dst, member, now);
  }

  /** SMOVE is logged whatever comes of it. */
  method MoveMember(srv: Server, name: string, src: string, dst: string, member: string, now: int)
      returns (logged: bool, r: Reply)
    requires srv.Valid() && Upper(name) == "SMOVE"
    modifies srv.store, srv.aof
    ensures srv.Valid() && srv.aof.log == old(srv.aof.log) + if logged then [[name] + [src, dst, member]] else []
    ensures var b := old(srv.store.Abs()).vals; logged <==> true
    ensures MemberMoved(old(srv.store.Abs()).vals, srv.store.Abs().vals, src, dst, member, r)
  {
    hide *;
    DataOf(srv);
    MoveMemberSent(srv.store.Abs(), src, dst, member, srv.t, now);
    logged, r := srv.Sent(name, VSMove(src, dst, member), now);
  }

  // ----- sorted sets -----

  /** Each member named gets its score, one named twice the later one; the others keep theirs. */
  ghost predicate Rescored(z: map<string, real>, g: map<string, real>, ms: seq<Z.ZMember>) {
    && (forall x :: x in g && (forall i :: 0 <= i < |ms| ==> ms[i].member != x) ==> x in z && g[x] == z[x])
    && (forall i :: 0 <= i < |ms| && (forall j :: i < j < |ms| ==> ms[j].member != ms[i].member) ==>
          ms[i].member in g && g[ms[i].member] == ms[i].score)
  }

  /** The members get their scores, and the new ones are counted. */
  ghost predicate ScoresSet(b: Vals, a: Vals, key: string, ms: seq<Z.ZMember>, r: Reply) {
    if key in b && !b[key].ZSet? then r == WrongType && a == b
    else
      var z := if key in b then b[key].z else map[];
      && key in a && a[key].ZSet? && a == b[key := a[key]] && z.Keys <= a[key].z.Keys
      && r == Int(|a[key].z.Keys - z.Keys|) && Rescored(z, a[key].z, ms)
  }

  lemma Scores(z: map<string, real>, ms: seq<Z.ZMember>)
    ensures Rescored(z, AddScores(z, ms), ms)
  {
    hide AddScores;
    var g := AddScores(z, ms);
    forall x | x in g && (forall i :: 0 <= i < |ms| ==> ms[i].member != x) ensures x in z && g[x] == z[x] {
      L.AddScoresIs(z, ms, x, -1);
    }
    forall i | 0 <= i < |ms| && (forall j :: i < j < |ms| ==> ms[j].member != ms[i].member)
      ensures ms[i].member in g && g[ms[i].member] == ms[i].score
    {
      L.AddScoresIs(z, ms, ms[i].member, i);
    }
  }

  lemma ScoresSetMeans(db: Db, key: string, ms: seq<Z.ZMember>, now: int)
    requires Plain(db) && WellFormed(db) && ms != []
    ensures var o := ZAdd(db, key, ms, now); ScoresSet(db.vals, o.db.vals, key, ms, o.reply)
  {
    hide Purge, AddScores, Plain, WellFormed, FlatScored, Rescored;
    NoExpiry(db, key, Str(""), now);
    Scores(ZSetAt(db, key), ms);
    L.AddScoresKeeps(ZSetAt(db, key), ms);
    L.NewKeys(ZSetAt(db, key), AddScores(ZSetAt(db, key), ms));
  }

  lemma SetScoresSent(db: Db, key: string, ms: seq<Z.ZMember>, t: Texts, now: int)
    requires Plain(db) && WellFormed(db) && ms != [] && AllFloats(ms, t)
    ensures var v := VZAdd(key, ms);
            && WellFormedVerb(v, t) && NameOf(VerbCmd(v)) == "ZADD"
            && VerbArgs(v, t) == [key] + FlatScored(ms, t)
            && (Admitted(HeldIn(db, VerbKey(v)), v) <==> (key in db.vals ==> db.vals[key].ZSet?))
    ensures var o := Apply(db, VerbOp(VZAdd(key, ms)), now); ScoresSet(db.vals, o.db.vals, key, ms, o.reply)
  {
    hide ZAdd, ScoresSet, Plain, WellFormed, Apply, FlatScored;
    L.IsZSetOp(db, VerbOp(VZAdd(key, ms)), now);
    ScoresSetMeans(db, key, ms, now);
  }

  /** ZADD is logged only if the key holds a sorted set or nothing. */
  method SetScores(srv: Server, name: string, key: string, ms: seq<Z.ZMember>, now: int)
      returns (logged: bool, r: Reply)
    requires srv.Valid() && Upper(name) == "ZADD" && ms != [] && AllFloats(ms, srv.t)
    modifies srv.store, srv.aof
    ensures srv.Valid()
    ensures srv.aof.log == old(srv.aof.log) + if logged then [[name] + ([key] + FlatScored(ms, srv.t))] else []
    ensures var b := old(srv.store.Abs()).vals; logged <==> (key in b ==> b[key].ZSet?)
    ensures ScoresSet(old(srv.store.Abs()).vals, srv.store.Abs().vals, key, ms, r)
  {
    hide *;
    DataOf(srv);
    SetScoresSent(srv.store.Abs(), key, ms, srv.t, now);
    logged, r := srv.Sent(name, VZAdd(key, ms), now);
  }

  /** The members leave the sorted set, and those that were in it are counted. */
  ghost predicate ScoresGone(b: Vals, a: Vals, key: string, members: seq<string>, r: Reply) {
    if key !in b then r == Int(0) && a == b
    else if !b[key].ZSet? then r == WrongType && a == b
    else
      && r == Int(|set x | x in b[key].z && x in members|)
      && a == Stored(b, key, ZSet(map x | x in b[key].z && x !in members :: b[key].z[x]))
  }

  lemma ScoresGoneMeans(db: Db, key: string, members: seq<string>, now: int)
    requires Plain(db) && WellFormed(db) && members != []
    ensures var o := ZRem(db, key, members, now); ScoresGone(db.vals, o.db.vals, key, members, o.reply)
  {
    hide Purge, PutOrDrop, Plain, WellFormed;
    NoExpiry(db, key, ZSet(ZSetAt(db, key) - SetOf(members)), now);
    L.LostKeys(ZSetAt(db, key), SetOf(members));
    L.Without(ZSetAt(db, key), members);
  }

  lemma RemoveScoresSent(db: Db, key: string, members: seq<string>, t: Texts, now: int)
    requires Plain(db) && WellFormed(db) && members != []
    ensures var v := VZRem(key, members);
            && WellFormedVerb(v, t) && NameOf(VerbCmd(v)) == "ZREM"
            && VerbArgs(v, t) == [key] + members
            && (Admitted(HeldIn(db, VerbKey(v)), v) <==> key in db.vals && db.vals[key].ZSet?)
    ensures var o := Apply(db, VerbOp(VZRem(key, members)), now); ScoresGone(db.vals, o.db.vals, key, members, o.reply)
  {
    hide ZRem, ScoresGone, Plain, WellFormed, Apply;
    L.IsZSetOp(db, VerbOp(VZRem(key, members)), now);
    ScoresGoneMeans(db, key, members, now);
  }

  /** ZREM is logged only if the key holds a sorted set. */
  method RemoveScores(srv: Server, name: string, key: string, members: seq<string>, now: int)
      returns (logged: bool, r: Reply)
    requires srv.Valid() && Upper(name) == "ZREM" && members != []
    modifies srv.store, srv.aof
    ensures srv.Valid() && srv.aof.log == old(srv.aof.log) + if logged then [[name] + ([key] + members)] else []
    ensures var b := old(srv.store.Abs()).vals; logged <==> key in b && b[key].ZSet?
    ensures ScoresGone(old(srv.store.Abs()).vals, srv.store.Abs().vals, key, members, r)
  {
    hide *;
    DataOf(srv);
    RemoveScoresSent(srv.store.Abs(), key, members, srv.t, now);
    logged, r := srv.Sent(name, VZRem(key, members), now);
  }

  // ----- any key -----

  /** The keys are gone, and those that were there are counted. */
  ghost predicate KeysGone(b: Vals, a: Vals, keys: seq<string>, r: Reply) {
    a == (map k | k in b && k !in keys :: b[k]) && r == Int(|set k | k in b && k in keys|)
  }

  lemma KeysGoneMeans(db: Db, keys: seq<string>, now: int)
    requires Plain(db) && WellFormed(db) && keys != []
    ensures var o := Del(db, keys, now); KeysGone(db.vals, o.db.vals, keys, o.reply)
  {
    hide WellFormed;
    assert LiveAmong(db, keys, now) == set k | k in db.vals && k in keys;
    assert db.vals - HeldAmong(db, keys, now) == map k | k in db.vals && k !in keys :: db.vals[k];
  }

  lemma DeleteKeysSent(db: Db, keys: seq<string>, t: Texts, now: int)
    requires Plain(db) && WellFormed(db) && keys != []
    ensures var v := VDel(keys);
            && WellFormedVerb(v, t) && NameOf(VerbCmd(v)) == "DEL"
            && VerbArgs(v, t) == keys
            && (Admitted(HeldIn(db, VerbKey(v)), v) <==> true)
    ensures var o := Apply(db, VerbOp(VDel(keys)), now); KeysGone(db.vals, o.db.vals, keys, o.reply)
  {
    hide Del, KeysGone, Plain, WellFormed, Apply;
    L.IsKeyOp(db, VerbOp(VDel(keys)), now);
    KeysGoneMeans(db, keys, now);
  }

  /** DEL is logged whatever comes of it. */
  method DeleteKeys(srv: Server, name: string, keys: seq<string>, now: int) returns (logged: bool, r: Reply)
    requires srv.Valid() && Upper(name) == "DEL" && keys != []
    modifies srv.store, srv.aof
    ensures srv.Valid() && srv.aof.log == old(srv.aof.log) + if logged then [[name] + keys] else []
    ensures var b := old(srv.store.Abs()).vals; logged <==> true
    ensures KeysGone(old(srv.store.Abs()).vals, srv.store.Abs().vals, keys, r)
  {
    hide *;
    DataOf(srv);
    DeleteKeysSent(srv.store.Abs(), keys, srv.t, now);
    logged, r := srv.Sent(name, VDel(keys), now);
  }

  /** The value moves to the new name, over whatever was there; onto its own name it is deleted. */
  ghost predicate KeyRenamed(b: Vals, a: Vals, key: string, newkey: string, r: Reply) {
    if key !in b then r == NoSuchKey && a == b
    else r == Done && a == if key == newkey then b - {key} else (b - {key})[newkey := b[key]]
  }

  lemma KeyRenamedMeans(db: Db, key: string, newkey: string, now: int)
    requires Plain(db) && WellFormed(db)
    ensures var o := Rename(db, key, newkey, now); KeyRenamed(db.vals, o.db.vals, key, newkey, o.reply)
  {
    hide Purge, WellFormed;
    NoExpiry(db, key, Str(""), now);
    assert (db.vals - {newkey} - {key})[newkey := Str("")] == (db.vals - {key})[newkey := Str("")];
  }

  lemma RenameKeySent(db: Db, key: string, newkey: string, t: Texts, now: int)
    requires Plain(db) && WellFormed(db)
    ensures var v := VRename(key, newkey);
            && WellFormedVerb(v, t) && NameOf(VerbCmd(v)) == "RENAME"
            && VerbArgs(v, t) == [key, newkey]
            && (Admitted(HeldIn(db, VerbKey(v)), v) <==> true)
    ensures var o := Apply(db, VerbOp(VRename(key, newkey)), now); KeyRenamed(db.vals, o.db.vals, key, newkey, o.reply)
  {
    hide Rename, KeyRenamed, Plain, WellFormed, Apply;
    L.IsKeyOp(db, VerbOp(VRename(key, newkey)), now);
    KeyRenamedMeans(db, key, newkey, now);
  }

  /** RENAME is logged whatever comes of it. */
  method RenameKey(srv: Server, name: string, key: string, newkey: string, now: int) returns (logged: bool, r: Reply)
    requires srv.Valid() && Upper(name) == "RENAME"
    modifies srv.store, srv.aof
    ensures srv.Valid() && srv.aof.log == old(srv.aof.log) + if logged then [[name] + [key, newkey]] else []
    ensures var b := old(srv.store.Abs()).vals; logged <==> true
    ensures KeyRenamed(old(srv.store.Abs()).vals, srv.store.Abs().vals, key, newkey, r)
  {
    hide *;
    DataOf(srv);
    RenameKeySent(srv.store.Abs(), key, newkey, srv.t, now);
    logged, r := srv.Sent(name, VRename(key, newkey), now);
  }

  // ----- names and records -----

  /** Names are compared letter by letter, small letters as capitals. */
  lemma {:induction false} UpperIs(s: string)
    ensures |Upper(s)| == |s|
    ensures forall i :: 0 <= i < |s| ==> Upper(s)[i] == if 'a' <= s[i] <= 'z' then s[i] - 'a' + 'A' else s[i]
  {
    if s != "" { UpperIs(s[1..]); }
  }

  /** The records of the commands that are not logged as sent. */
  lemma RecordForms(key: string, value: string, pairs: seq<(string, string)>)
    ensures SetRecord(key, value) == ["SETABS", key, value, "0"]
    ensures MSetRecord([]) == ["MSETABS"] && HSetRecord(key, []) == ["HSET", key]
    ensures MSetRecord(pairs + [(key, value)]) == MSetRecord(pairs) + [key, value, "0"]
    ensures HSetRecord(key, pairs + [(key, value)]) == HSetRecord(key, pairs) + [key, value]
  {
    FlatSnoc(pairs, key, value);
  }

  lemma {:induction false} FlatSnoc(pairs: seq<(string, string)>, key: string, value: string)
    ensures FlatTriples(pairs + [(key, value)]) == FlatTriples(pairs) + [key, value, "0"]
    ensures Flat(pairs + [(key, value)]) == Flat(pairs) + [key, value]
    decreases |pairs|
  {
    var all := pairs + [(key, value)];
    if pairs == [] {
      assert all[1..] == [];
    } else {
      assert all[1..] == pairs[1..] + [(key, value)] && all[0] == pairs[0];
      FlatSnoc(pairs[1..], key, value);
    }
  }

  /** MSET sets every key, one named twice to the later value, and touches no other. */
  lemma {:induction false} MSetIs(db: Db, pairs: seq<(string, string)>, key: string, i: int, now: int)
    requires L.LastNamed(pairs, key, i)
    ensures var vals := ApplyAll(db, SetOps(pairs), now).vals;
            if i < 0 then (key in vals <==> key in db.vals) && (key in vals ==> vals[key] == db.vals[key])
            else key in vals && vals[key] == Str(pairs[i].1)
    decreases |pairs|
  {
    hide L.LastNamed, Apply;
    L.FirstOrLater(pairs, key, i);
    if pairs != [] {
      var op := DoSetAbsolute(pairs[0].0, pairs[0].1, None);
      assert SetOps(pairs)[0] == op && SetOps(pairs)[1..] == SetOps(pairs[1..]);
      SetsOne(db, pairs[0].0, pairs[0].1, now);
      L.LastNamedTail(pairs, key, i);
      MSetIs(Apply(db, op, now).db, pairs[1..], key, if i < 0 then -1 else i - 1, now);
    }
  }

  lemma SetsOne(db: Db, key: string, value: string, now: int)
    ensures Apply(db, DoSetAbsolute(key, value, None), now).db.vals == db.vals[key := Str(value)]
  {}

  lemma SameSet(db: Db, key: string, member: string, now: int)
    requires Plain(db) && WellFormed(db) && key in db.vals && db.vals[key].Set? && member in db.vals[key].m
    ensures SMove(db, key, key, member, now).db.vals == db.vals
  {
    var m := db.vals[key].m;
    assert (m - {member}) + {member} == m;
    assert {} + {member} == {member};
  }
}
