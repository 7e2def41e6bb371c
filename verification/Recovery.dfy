/**
 * Durability (internal/server/server.go, internal/server/aof.go): which records each command
 * appends to the log, what replay makes of them, and what a snapshot keeps. The theorem is that
 * restarting from the last snapshot and the log rebuilds the live data, for commands that give
 * no key an expiry time.
 */
module Recovery {
  import opened Common
  import opened Decimal
  import opened Keyspace
  import opened KeyStore
  import opened Strings
  import opened TextualData
  import A = AofCodec
  import J = Json
  import SA = SetAlgebra
  import U = Utf8
  import S = Streams
  import Z = SortedSets

  // ----- texts -----

  /**
   * Numbers of the platform that the model does not spell out: which reals a float64 can hold, how
   * a sum is rounded to one, and how integers and scores are printed and read.
   */
  datatype Texts = Texts(
    isFloat: real -> bool,
    round: real -> real,
    scan: string -> int,
    scanScore: string -> real,
    formatScore: real -> string)

  /** Sums are rounded to floats, and fmt.Sscan reads back what strconv prints. */
  ghost predicate Faithful(t: Texts) {
    && (forall n :: MinInt64 <= n <= MaxInt64 ==> t.scan(FormatInt(n)) == n)
    && (forall x :: t.isFloat(x) ==> t.scanScore(t.formatScore(x)) == x)
    && (forall x :: t.isFloat(t.round(x)))
  }

  /** The whole numbers of 64 bits with their decimal numerals are one such number format. */
  const Whole := Texts(IsWhole, RoundWhole, ScanWhole, ScanWholeScore, FormatWhole)

  predicate IsWhole(x: real) { x == x.Floor as real && MinInt64 <= x.Floor <= MaxInt64 }
  function RoundWhole(x: real): real { if IsWhole(x) then x else 0.0 }
  function ScanWhole(s: string): int { if ParseInt(s).Number? then ParseInt(s).n else 0 }
  function ScanWholeScore(s: string): real { ScanWhole(s) as real }
  function FormatWhole(x: real): string { FormatInt(x.Floor) }

  lemma WholeIsFaithful()
    ensures Faithful(Whole)
  {
    forall n | MinInt64 <= n <= MaxInt64 ensures ScanWhole(FormatInt(n)) == n { ParseFormat(n); }
  }

  function UpperChar(c: char): char { if 'a' <= c <= 'z' then c - 'a' + 'A' else c }

  function Upper(s: string): string {
    if s == "" then "" else [UpperChar(s[0])] + Upper(s[1..])
  }

  // ----- replay -----

  datatype Cmd =
    | SETABS | MSETABS | DEL | HSET | HDEL | LPUSH | RPUSH | LPOP | RPOP | LSET | LINSERT | LREM
    | SADD | SREM | SMOVE | ZADD | ZREM | INCR | INCRBY | DECR | DECRBY | HINCRBY | APPEND | RENAME | COPY
    | OTHER

  function CmdOf(name: string): Cmd {
    match name
    case "SETABS" => SETABS case "MSETABS" => MSETABS case "DEL" => DEL case "HSET" => HSET case "HDEL" => HDEL
    case "LPUSH" => LPUSH case "RPUSH" => RPUSH case "LPOP" => LPOP case "RPOP" => RPOP case "LSET" => LSET
    case "LINSERT" => LINSERT case "LREM" => LREM case "SADD" => SADD case "SREM" => SREM case "SMOVE" => SMOVE
    case "ZADD" => ZADD case "ZREM" => ZREM case "INCR" => INCR case "INCRBY" => INCRBY case "DECR" => DECR
    case "DECRBY" => DECRBY case "HINCRBY" => HINCRBY case "APPEND" => APPEND case "RENAME" => RENAME
    case "COPY" => COPY
    case _ => OTHER
  }

  function NameOf(c: Cmd): string {
    match c
    case SETABS => "SETABS" case MSETABS => "MSETABS" case DEL => "DEL" case HSET => "HSET" case HDEL => "HDEL"
    case LPUSH => "LPUSH" case RPUSH => "RPUSH" case LPOP => "LPOP" case RPOP => "RPOP" case LSET => "LSET"
    case LINSERT => "LINSERT" case LREM => "LREM" case SADD => "SADD" case SREM => "SREM" case SMOVE => "SMOVE"
    case ZADD => "ZADD" case ZREM => "ZREM" case INCR => "INCR" case INCRBY => "INCRBY" case DECR => "DECR"
    case DECRBY => "DECRBY" case HINCRBY => "HINCRBY" case APPEND => "APPEND" case RENAME => "RENAME"
    case COPY => "COPY" case OTHER => ""
  }

  lemma CmdOfName(c: Cmd)
    ensures c != OTHER ==> CmdOf(NameOf(c)) == c
  {}

  lemma NamesAreCaps(c: Cmd)
    ensures AllCaps(NameOf(c))
  {}

  predicate AllCaps(s: string) { forall i :: 0 <= i < |s| ==> UpperChar(s[i]) == s[i] }

  lemma {:induction false} UpperOfCaps(s: string)
    requires AllCaps(s)
    ensures Upper(s) == s
  {
    if s != "" {
      UpperOfCaps(s[1..]);
      assert s == [s[0]] + s[1..];
    }
  }

  /** Names are recognised in any mixture of cases. */
  lemma Recognised(c: Cmd, spelling: string)
    requires c != OTHER && Upper(spelling) == NameOf(c)
    ensures CmdOf(Upper(spelling)) == c
    ensures Upper(NameOf(c)) == NameOf(c)
  {
    hide CmdOf, Upper;
    CmdOfName(c);
    NamesAreCaps(c);
    UpperOfCaps(NameOf(c));
  }

  function Pairs(s: seq<string>): seq<(string, string)> {
    if |s| < 2 then [] else [(s[0], s[1])] + Pairs(s[2..])
  }

  function Flat(pairs: seq<(string, string)>): (r: seq<string>)
    ensures |r| == 2 * |pairs|
  {
    if pairs == [] then [] else [pairs[0].0, pairs[0].1] + Flat(pairs[1..])
  }

  function Scored(s: seq<string>, t: Texts): seq<Z.ZMember> {
    if |s| < 2 then [] else [Z.ZMember(s[1], t.scanScore(s[0]))] + Scored(s[2..], t)
  }

  function FlatScored(ms: seq<Z.ZMember>, t: Texts): (r: seq<string>)
    ensures |r| == 2 * |ms|
  {
    if ms == [] then [] else [t.formatScore(ms[0].score), ms[0].member] + FlatScored(ms[1..], t)
  }

  /** A zero or negative time stamp stands for no expiry. */
  function SetAbsOp(key: string, value: string, ns: int): Op {
    DoSetAbsolute(key, value, if ns > 0 then Some(ns) else None)
  }

  function Triples(s: seq<string>, t: Texts): seq<Op> {
    if |s| < 3 then [] else [SetAbsOp(s[0], s[1], t.scan(s[2]))] + Triples(s[3..], t)
  }

  function FlatTriples(pairs: seq<(string, string)>): (r: seq<string>)
    ensures |r| == 3 * |pairs|
  {
    if pairs == [] then [] else [pairs[0].0, pairs[0].1, "0"] + FlatTriples(pairs[1..])
  }

  function Neg64(n: int): int { if n == MinInt64 then MinInt64 else -n }

  predicate Asks(options: seq<string>) { exists i :: 0 <= i < |options| && Upper(options[i]) == "REPLACE" }

  /** The replay switch: the store calls that one record stands for. */
  function Decode(args: seq<string>, t: Texts): seq<Op> {
    if args == [] then [] else
      var n := |args|;
      match CmdOf(Upper(args[0]))
      case SETABS => if n == 4 then [SetAbsOp(args[1], args[2], t.scan(args[3]))] else []
      case MSETABS => if n >= 4 && (n - 1) % 3 == 0 then Triples(args[1..], t) else []
      case DEL => if n > 1 then [DoDel(args[1..])] else []
      case HSET => if n >= 4 && n % 2 == 0 then [DoHSet(args[1], Pairs(args[2..]))] else []
      case HDEL => if n > 2 then [DoHDel(args[1], args[2..])] else []
      case LPUSH => if n > 2 then [DoPush(args[1], true, args[2..])] else []
      case RPUSH => if n > 2 then [DoPush(args[1], false, args[2..])] else []
      case LPOP => if n == 2 then [DoPop(args[1], true)] else []
      case RPOP => if n == 2 then [DoPop(args[1], false)] else []
      case LSET => if n == 4 then [DoLSet(args[1], S.Lenient(args[2]), args[3])] else []
      case LINSERT => if n == 5 then [DoLInsert(args[1], Upper(args[2]) == "BEFORE", args[3], args[4])] else []
      case LREM => if n == 4 then [DoLRem(args[1], S.Lenient(args[2]), args[3])] else []
      case SADD => if n > 2 then [DoSAdd(args[1], args[2..])] else []
      case SREM => if n > 2 then [DoSRem(args[1], args[2..])] else []
      case SMOVE => if n == 4 then [DoSMove(args[1], args[2], args[3])] else []
      case ZADD => if n >= 4 && n % 2 == 0 then [DoZAdd(args[1], Scored(args[2..], t))] else []
      case ZREM => if n > 2 then [DoZRem(args[1], args[2..])] else []
      case INCR => if n == 2 then [DoIncrBy(args[1], 1)] else []
      case INCRBY => if n == 3 then [DoIncrBy(args[1], t.scan(args[2]))] else []
      case DECR => if n == 2 then [DoIncrBy(args[1], -1)] else []
      case DECRBY => if n == 3 then [DoIncrBy(args[1], Neg64(t.scan(args[2])))] else []
      case HINCRBY => if n == 4 then [DoHIncrBy(args[1], args[2], t.scan(args[3]))] else []
      case APPEND => if n == 3 then [DoAppend(args[1], args[2])] else []
      case RENAME => if n == 3 then [DoRename(args[1], args[2])] else []
      case COPY => if n >= 3 then [DoCopy(args[1], args[2], Asks(args[3..]))] else []
      case OTHER => []
  }

  ghost function ApplyAll(db: Db, ops: seq<Op>, now: int): Db
    decreases |ops|
  {
    if ops == [] then db else ApplyAll(Apply(db, ops[0], now).db, ops[1..], now)
  }

  ghost function Replay(db: Db, log: seq<seq<string>>, t: Texts, now: int): Db
    decreases |log|
  {
    if log == [] then db else Replay(ApplyAll(db, Decode(log[0], t), now), log[1..], t, now)
  }

  lemma {:induction false} ReplayAppend(db: Db, log: seq<seq<string>>, more: seq<seq<string>>, t: Texts, now: int)
    ensures Replay(db, log + more, t, now) == Replay(Replay(db, log, t, now), more, t, now)
    decreases |log|
  {
    hide ApplyAll, Decode;
    if log == [] { assert log + more == more; } else {
      assert (log + more)[1..] == log[1..] + more;
      ReplayAppend(ApplyAll(db, Decode(log[0], t), now), log[1..], more, t, now);
    }
  }

  lemma ReplayOne(db: Db, record: seq<string>, t: Texts, now: int)
    ensures Replay(db, [record], t, now) == ApplyAll(db, Decode(record, t), now)
  {
    hide ApplyAll, Decode;
    assert [record][1..] == [];
  }

  lemma ApplyOne(db: Db, op: Op, now: int)
    ensures ApplyAll(db, [op], now) == Apply(db, op, now).db
  {
    hide Apply;
    assert [op][1..] == [];
  }

  // ----- data without expiry times -----

  const NoData := Db(map[], map[], map[])

  ghost predicate Plain(db: Db) { db.expires == map[] && db.lastSeq == map[] }

  predicate Timeless(op: Op) {
    match op
    case DoSetAbsolute(_, _, at) => at.None?
    case DoSetNX(_, _, ttl) => ttl <= 0
    case DoSetXX(_, _, ttl) => ttl <= 0
    case DoXAdd(_, _, _, _) => false
    case DoExpire(_, _) => false
    case DoPersist(_) => false
    case _ => true
  }

  lemma PurgePlain(db: Db, key: string, now: int)
    requires Plain(db)
    ensures Purge(db, key, now) == db && !Expired(db, key, now)
  {}

  ghost predicate Agree(a: Outcome, b: Outcome) { a == b && Plain(a.db) }

  lemma StringsUntimed(db: Db, key: string, value: string, ttl: int, now: int, later: int)
    requires Plain(db) && ttl <= 0
    ensures Agree(SetAbsolute(db, key, value, None), SetAbsolute(db, key, value, None))
    ensures Agree(SetNX(db, key, value, ttl, now), SetNX(db, key, value, ttl, later))
    ensures Agree(SetXX(db, key, value, ttl, now), SetXX(db, key, value, ttl, later))
    ensures Agree(GetSet(db, key, value, now), GetSet(db, key, value, later))
    ensures Agree(GetDel(db, key, now), GetDel(db, key, later))
  {
    hide Purge;
    PurgePlain(db, key, now);
    PurgePlain(db, key, later);
  }

  lemma EditsUntimed(db: Db, key: string, value: string, offset: int, delta: int, now: int, later: int)
    requires Plain(db)
    ensures Agree(IncrBy(db, key, delta, now), IncrBy(db, key, delta, later))
    ensures Agree(Append(db, key, value, now), Append(db, key, value, later))
    ensures Agree(SetRange(db, key, offset, value, now), SetRange(db, key, offset, value, later))
  {
    hide Purge, FormatInt, ParseInt, Add64, WriteAt;
    PurgePlain(db, key, now);
    PurgePlain(db, key, later);
  }

  /** With no expiry times, MSETNX only looks whether some key exists. */
  lemma {:induction false} FirstTakenPlain(db: Db, pairs: seq<(string, string)>, now: int)
    requires Plain(db)
    ensures FirstTaken(db, pairs, now) == (db, exists i :: 0 <= i < |pairs| && pairs[i].0 in db.vals)
    decreases |pairs|
  {
    hide Purge;
    if pairs != [] {
      PurgePlain(db, pairs[0].0, now);
      FirstTakenPlain(db, pairs[1..], now);
      if i :| 0 <= i < |pairs[1..]| && pairs[1..][i].0 in db.vals { assert pairs[i + 1].0 in db.vals; }
      if i :| 0 <= i < |pairs| && pairs[i].0 in db.vals { if i > 0 { assert pairs[1..][i - 1].0 in db.vals; } }
    }
  }

  lemma {:induction false} PutAllPlain(db: Db, pairs: seq<(string, string)>)
    requires Plain(db)
    ensures Plain(PutAll(db, pairs))
    decreases |pairs|
  {
    if pairs != [] {
      PutAllPlain(Put(db, pairs[0].0, Str(pairs[0].1)).(expires := db.expires - {pairs[0].0}), pairs[1..]);
    }
  }

  lemma MSetNXUntimed(db: Db, pairs: seq<(string, string)>, now: int, later: int)
    requires Plain(db)
    ensures Agree(MSetNX(db, pairs, now), MSetNX(db, pairs, later))
  {
    hide FirstTaken, PutAll;
    FirstTakenPlain(db, pairs, now);
    FirstTakenPlain(db, pairs, later);
    PutAllPlain(db, pairs);
  }

  lemma HashesUntimed(db: Db, key: string, field: string, value: string, pairs: seq<(string, string)>,
      fields: seq<string>, delta: int, now: int, later: int)
    requires Plain(db)
    ensures Agree(HSet(db, key, pairs, now), HSet(db, key, pairs, later))
    ensures Agree(HDel(db, key, fields, now), HDel(db, key, fields, later))
    ensures Agree(HIncrBy(db, key, field, delta, now), HIncrBy(db, key, field, delta, later))
    ensures Agree(HSetNX(db, key, field, value, now), HSetNX(db, key, field, value, later))
  {
    hide Purge, SetFields, FormatInt, ParseInt, Add64, Other, HashAt;
    PurgePlain(db, key, now);
    PurgePlain(db, key, later);
  }

  lemma ListsUntimed(db: Db, key: string, left: bool, values: seq<string>, index: int, value: string, now: int,
      later: int)
    requires Plain(db)
    ensures Agree(Push(db, key, left, values, now), Push(db, key, left, values, later))
    ensures Agree(Pop(db, key, left, now), Pop(db, key, left, later))
    ensures Agree(LSet(db, key, index, value, now), LSet(db, key, index, value, later))
  {
    hide Purge, Pushed, End, Shorter, Other, ListAt;
    PurgePlain(db, key, now);
    PurgePlain(db, key, later);
  }

  lemma ListEditsUntimed(db: Db, key: string, before: bool, pivot: string, value: string, count: int, now: int,
      later: int)
    requires Plain(db)
    ensures Agree(LInsert(db, key, before, pivot, value, now), LInsert(db, key, before, pivot, value, later))
    ensures Agree(LRem(db, key, count, value, now), LRem(db, key, count, value, later))
  {
    hide Purge, Removed, FirstAt, Other, ListAt;
    PurgePlain(db, key, now);
    PurgePlain(db, key, later);
  }

  lemma LMoveUntimed(db: Db, src: string, dst: string, srcLeft: bool, dstLeft: bool, now: int, later: int)
    requires Plain(db)
    ensures Agree(LMove(db, src, dst, srcLeft, dstLeft, now), LMove(db, src, dst, srcLeft, dstLeft, later))
  {
    hide Purge, Pushed, End, Shorter, Other, ListAt;
    PurgePlain(db, src, now); PurgePlain(db, dst, now);
    PurgePlain(db, src, later); PurgePlain(db, dst, later);
  }

  lemma SetsUntimed(db: Db, key: string, dst: string, member: string, members: seq<string>, now: int, later: int)
    requires Plain(db)
    ensures Agree(SAdd(db, key, members, now), SAdd(db, key, members, later))
    ensures Agree(SRem(db, key, members, now), SRem(db, key, members, later))
    ensures Agree(SMove(db, key, dst, member, now), SMove(db, key, dst, member, later))
  {
    hide Purge, Other, SetAt;
    PurgePlain(db, key, now); PurgePlain(db, dst, now);
    PurgePlain(db, key, later); PurgePlain(db, dst, later);
  }

  lemma ZSetsUntimed(db: Db, key: string, scored: seq<Z.ZMember>, members: seq<string>, incr: real, member: string,
      round: real -> real, count: int, lowest: bool, now: int, later: int)
    requires Plain(db)
    ensures Agree(ZAdd(db, key, scored, now), ZAdd(db, key, scored, later))
    ensures Agree(ZRem(db, key, members, now), ZRem(db, key, members, later))
    ensures Agree(ZIncrBy(db, key, incr, member, round, now), ZIncrBy(db, key, incr, member, round, later))
    ensures Agree(ZPop(db, key, count, lowest, now), ZPop(db, key, count, lowest, later))
  {
    hide Purge, AddScores, Extreme, Other, ZSetAt, Z.Listing, Z.Names;
    PurgePlain(db, key, now);
    PurgePlain(db, key, later);
  }

  lemma KeysUntimed(db: Db, key: string, newkey: string, replace: bool, keys: seq<string>, now: int, later: int)
    requires Plain(db)
    ensures Agree(Del(db, keys, now), Del(db, keys, later))
    ensures Agree(Rename(db, key, newkey, now), Rename(db, key, newkey, later))
    ensures Agree(Copy(db, key, newkey, replace, now), Copy(db, key, newkey, replace, later))
  {
    hide Purge;
    PurgePlain(db, key, now); PurgePlain(db, newkey, now);
    PurgePlain(db, key, later); PurgePlain(db, newkey, later);
    assert LiveAmong(db, keys, now) == LiveAmong(db, keys, later);
    assert HeldAmong(db, keys, now) == HeldAmong(db, keys, later);
  }

  lemma StringOpUntimed(db: Db, op: Op, now: int, later: int)
    requires Plain(db) && Timeless(op) && OnString(op)
    ensures Agree(StringOp(db, op, now), StringOp(db, op, later))
  {
    hide Plain, SetAbsolute, SetNX, SetXX, IncrBy, Append, GetSet, SetRange, GetDel, MSetNX;
    match op {
      case DoSetAbsolute(key, value, at) => StringsUntimed(db, key, value, 0, now, later);
      case DoSetNX(key, value, ttl) => StringsUntimed(db, key, value, ttl, now, later);
      case DoSetXX(key, value, ttl) => StringsUntimed(db, key, value, ttl, now, later);
      case DoIncrBy(key, delta) => EditsUntimed(db, key, "", 0, delta, now, later);
      case DoAppend(key, value) => EditsUntimed(db, key, value, 0, 0, now, later);
      case DoGetSet(key, value) => StringsUntimed(db, key, value, 0, now, later);
      case DoSetRange(key, offset, value) => EditsUntimed(db, key, value, offset, 0, now, later);
      case DoGetDel(key) => StringsUntimed(db, key, "", 0, now, later);
      case DoMSetNX(pairs) => MSetNXUntimed(db, pairs, now, later);
    }
  }

  lemma HashOpUntimed(db: Db, op: Op, now: int, later: int)
    requires Plain(db) && Timeless(op) && OnHash(op)
    ensures Agree(HashOp(db, op, now), HashOp(db, op, later))
  {
    hide Plain, HSet, HDel, HIncrBy, HSetNX;
    match op {
      case DoHSet(key, pairs) => HashesUntimed(db, key, "", "", pairs, [], 0, now, later);
      case DoHDel(key, fields) => HashesUntimed(db, key, "", "", [], fields, 0, now, later);
      case DoHIncrBy(key, field, delta) => HashesUntimed(db, key, field, "", [], [], delta, now, later);
      case DoHSetNX(key, field, value) => HashesUntimed(db, key, field, value, [], [], 0, now, later);
    }
  }

  lemma ListOpUntimed(db: Db, op: Op, now: int, later: int)
    requires Plain(db) && Timeless(op) && OnList(op)
    ensures Agree(ListOp(db, op, now), ListOp(db, op, later))
  {
    hide Plain, Push, Pop, LMove, LSet, LInsert, LRem;
    match op {
      case DoPush(key, left, values) => ListsUntimed(db, key, left, values, 0, "", now, later);
      case DoPop(key, left) => ListsUntimed(db, key, left, [], 0, "", now, later);
      case DoLMove(src, dst, srcLeft, dstLeft) => LMoveUntimed(db, src, dst, srcLeft, dstLeft, now, later);
      case DoLSet(key, index, value) => ListsUntimed(db, key, true, [], index, value, now, later);
      case DoLInsert(key, before, pivot, value) => ListEditsUntimed(db, key, before, pivot, value, 0, now, later);
      case DoLRem(key, count, value) => ListEditsUntimed(db, key, true, "", value, count, now, later);
    }
  }

  lemma SetOpUntimed(db: Db, op: Op, now: int, later: int)
    requires Plain(db) && Timeless(op) && OnSet(op)
    ensures Agree(SetOp(db, op, now), SetOp(db, op, later))
  {
    hide Plain, SAdd, SRem, SMove;
    match op {
      case DoSAdd(key, members) => SetsUntimed(db, key, key, "", members, now, later);
      case DoSRem(key, members) => SetsUntimed(db, key, key, "", members, now, later);
      case DoSMove(src, dst, member) => SetsUntimed(db, src, dst, member, [], now, later);
    }
  }

  lemma ZSetOpUntimed(db: Db, op: Op, now: int, later: int)
    requires Plain(db) && Timeless(op) && OnZSet(op)
    ensures Agree(ZSetOp(db, op, now), ZSetOp(db, op, later))
  {
    hide Plain, ZAdd, ZRem, ZIncrBy, ZPop;
    match op {
      case DoZAdd(key, scored) => ZSetsUntimed(db, key, scored, [], 0.0, "", x => x, 0, true, now, later);
      case DoZRem(key, members) => ZSetsUntimed(db, key, [], members, 0.0, "", x => x, 0, true, now, later);
      case DoZIncrBy(key, incr, member, round) =>
        ZSetsUntimed(db, key, [], [], incr, member, round, 0, true, now, later);
      case DoZPop(key, count, lowest) => ZSetsUntimed(db, key, [], [], 0.0, "", x => x, count, lowest, now, later);
    }
  }

  lemma KeyOpUntimed(db: Db, op: Op, now: int, later: int)
    requires Plain(db) && Timeless(op) && OnKey(op)
    ensures Agree(KeyOp(db, op, now), KeyOp(db, op, later))
  {
    hide Plain, XAdd, Del, Expire, Persist, Rename, Copy;
    match op {
      case DoDel(keys) => KeysUntimed(db, "", "", false, keys, now, later);
      case DoRename(key, newkey) => KeysUntimed(db, key, newkey, false, [], now, later);
      case DoCopy(src, dst, replace) => KeysUntimed(db, src, dst, replace, [], now, later);
    }
  }

  /** Without expiry times the clock does not matter, and none appear. */
  lemma Untimed(db: Db, op: Op, now: int, later: int)
    requires Plain(db) && Timeless(op)
    ensures Agree(Apply(db, op, now), Apply(db, op, later))
  {
    hide Plain, Timeless, Agree, StringOp, HashOp, ListOp, SetOp, ZSetOp, KeyOp;
    if OnString(op) { StringOpUntimed(db, op, now, later); }
    else if OnHash(op) { HashOpUntimed(db, op, now, later); }
    else if OnList(op) { ListOpUntimed(db, op, now, later); }
    else if OnSet(op) { SetOpUntimed(db, op, now, later); }
    else if OnZSet(op) { ZSetOpUntimed(db, op, now, later); }
    else { KeyOpUntimed(db, op, now, later); }
  }

  // ----- commands that are logged as sent, before they are executed -----

  datatype Verb =
    | VDel(keys: seq<string>)
    | VIncr(key: string)
    | VIncrBy(key: string, delta: int)
    | VDecr(key: string)
    | VDecrBy(key: string, delta: int)
    | VHDel(key: string, fields: seq<string>)
    | VHIncrBy(key: string, field: string, delta: int)
    | VPush(key: string, left: bool, values: seq<string>)
    | VPop(key: string, left: bool)
    | VLSet(key: string, index: int, value: string)
    | VLInsert(key: string, where_: string, pivot: string, value: string)
    | VLRem(key: string, count: int, value: string)
    | VSAdd(key: string, members: seq<string>)
    | VSRem(key: string, members: seq<string>)
    | VSMove(src: string, dst: string, member: string)
    | VZAdd(key: string, scored: seq<Z.ZMember>)
    | VZRem(key: string, members: seq<string>)
    | VRename(key: string, newkey: string)

  predicate Int64(n: int) { MinInt64 <= n <= MaxInt64 }

  predicate AllFloats(scored: seq<Z.ZMember>, t: Texts) {
    forall i :: 0 <= i < |scored| ==> t.isFloat(scored[i].score)
  }

  /** What the argument checks before the log require; numbers come from strconv. */
  predicate WellFormedVerb(v: Verb, t: Texts) {
    match v
    case VDel(keys) => keys != []
    case VIncrBy(_, delta) => Int64(delta)
    case VDecrBy(_, delta) => Int64(delta)
    case VHDel(_, fields) => fields != []
    case VHIncrBy(_, _, delta) => Int64(delta)
    case VPush(_, _, values) => values != []
    case VLSet(_, index, _) => Int64(index)
    case VLInsert(_, w, _, _) => Upper(w) == "BEFORE" || Upper(w) == "AFTER"
    case VLRem(_, count, _) => Int64(count)
    case VSAdd(_, members) => members != []
    case VSRem(_, members) => members != []
    case VZAdd(_, scored) => scored != [] && AllFloats(scored, t)
    case VZRem(_, members) => members != []
    case _ => true
  }

  function VerbCmd(v: Verb): Cmd {
    match v
    case VDel(_) => DEL
    case VIncr(_) => INCR
    case VIncrBy(_, _) => INCRBY
    case VDecr(_) => DECR
    case VDecrBy(_, _) => DECRBY
    case VHDel(_, _) => HDEL
    case VHIncrBy(_, _, _) => HINCRBY
    case VPush(_, left, _) => if left then LPUSH else RPUSH
    case VPop(_, left) => if left then LPOP else RPOP
    case VLSet(_, _, _) => LSET
    case VLInsert(_, _, _, _) => LINSERT
    case VLRem(_, _, _) => LREM
    case VSAdd(_, _) => SADD
    case VSRem(_, _) => SREM
    case VSMove(_, _, _) => SMOVE
    case VZAdd(_, _) => ZADD
    case VZRem(_, _) => ZREM
    case VRename(_, _) => RENAME
  }

  /** The arguments after the command name, numbers in canonical form. */
  function VerbArgs(v: Verb, t: Texts): seq<string> {
    match v
    case VDel(keys) => keys
    case VIncr(key) => [key]
    case VIncrBy(key, delta) => [key, FormatInt(delta)]
    case VDecr(key) => [key]
    case VDecrBy(key, delta) => [key, FormatInt(delta)]
    case VHDel(key, fields) => [key] + fields
    case VHIncrBy(key, field, delta) => [key, field, FormatInt(delta)]
    case VPush(key, _, values) => [key] + values
    case VPop(key, _) => [key]
    case VLSet(key, index, value) => [key, FormatInt(index), value]
    case VLInsert(key, w, pivot, value) => [key, w, pivot, value]
    case VLRem(key, count, value) => [key, FormatInt(count), value]
    case VSAdd(key, members) => [key] + members
    case VSRem(key, members) => [key] + members
    case VSMove(src, dst, member) => [src, dst, member]
    case VZAdd(key, scored) => [key] + FlatScored(scored, t)
    case VZRem(key, members) => [key] + members
    case VRename(key, newkey) => [key, newkey]
  }

  function VerbOp(v: Verb): Op {
    match v
    case VDel(keys) => DoDel(keys)
    case VIncr(key) => DoIncrBy(key, 1)
    case VIncrBy(key, delta) => DoIncrBy(key, delta)
    case VDecr(key) => DoIncrBy(key, -1)
    case VDecrBy(key, delta) => DoIncrBy(key, Neg64(delta))
    case VHDel(key, fields) => DoHDel(key, fields)
    case VHIncrBy(key, field, delta) => DoHIncrBy(key, field, delta)
    case VPush(key, left, values) => DoPush(key, left, values)
    case VPop(key, left) => DoPop(key, left)
    case VLSet(key, index, value) => DoLSet(key, index, value)
    case VLInsert(key, w, pivot, value) => DoLInsert(key, Upper(w) == "BEFORE", pivot, value)
    case VLRem(key, count, value) => DoLRem(key, count, value)
    case VSAdd(key, members) => DoSAdd(key, members)
    case VSRem(key, members) => DoSRem(key, members)
    case VSMove(src, dst, member) => DoSMove(src, dst, member)
    case VZAdd(key, scored) => DoZAdd(key, scored)
    case VZRem(key, members) => DoZRem(key, members)
    case VRename(key, newkey) => DoRename(key, newkey)
  }

  /** The checks some commands make before they log: the type of the key, or its being a number. */
  predicate Admitted(held: Option<Val>, v: Verb) {
    match v
    case VIncr(_) => held.Some? && held.value.Str? ==> ParseInt(held.value.s).Number?
    case VHDel(_, _) => held.Some? && held.value.Hash?
    case VPush(_, _, _) => held.Some? ==> held.value.List?
    case VPop(_, _) => held.Some? && held.value.List?
    case VSAdd(_, _) => held.Some? ==> held.value.Set?
    case VSRem(_, _) => held.Some? && held.value.Set?
    case VZAdd(_, _) => held.Some? ==> held.value.ZSet?
    case VZRem(_, _) => held.Some? && held.value.ZSet?
    case _ => true
  }

  /** The reply of a command that is refused before it is logged. */
  function Refusal(held: Option<Val>, v: Verb): Reply {
    if v.VIncr? then NotInteger else if held.Some? then WrongType else if v.VPop? then Nil else Int(0)
  }

  /** The check before the log refuses only what the store would refuse, or would find nothing to do for. */
  lemma RefusedAnyway(db: Db, v: Verb, t: Texts, now: int)
    requires Plain(db) && WellFormedVerb(v, t) && !Admitted(HeldIn(db, VerbKey(v)), v)
    ensures Apply(db, VerbOp(v), now) == Outcome(db, Refusal(HeldIn(db, VerbKey(v)), v))
  {
    hide Plain, Push, Pop, HDel, SAdd, SRem, ZAdd, ZRem, IncrBy, ParseInt;
    match v {
      case VIncr(key) => NoNumber(db, key, 1, now);
      case VHDel(key, fields) => NoHash(db, key, fields, now);
      case VPush(key, left, values) => NoList(db, key, left, values, now);
      case VPop(key, left) => NoList(db, key, left, [], now);
      case VSAdd(key, members) => NoSet(db, key, members, now);
      case VSRem(key, members) => NoSet(db, key, members, now);
      case VZAdd(key, scored) => NoZSet(db, key, scored, [], now);
      case VZRem(key, members) => NoZSet(db, key, [], members, now);
    }
  }

  lemma NoNumber(db: Db, key: string, delta: int, now: int)
    requires Plain(db) && key in db.vals && db.vals[key].Str? && !ParseInt(db.vals[key].s).Number?
    ensures IncrBy(db, key, delta, now) == Outcome(db, NotInteger)
  {
    PurgePlain(db, key, now);
  }

  lemma NoHash(db: Db, key: string, fields: seq<string>, now: int)
    requires Plain(db) && !(key in db.vals && db.vals[key].Hash?)
    ensures HDel(db, key, fields, now) == Outcome(db, if key in db.vals then WrongType else Int(0))
  {}

  lemma NoList(db: Db, key: string, left: bool, values: seq<string>, now: int)
    requires Plain(db) && !(key in db.vals && db.vals[key].List?)
    ensures values != [] && key in db.vals ==> Push(db, key, left, values, now) == Outcome(db, WrongType)
    ensures Pop(db, key, left, now) == Outcome(db, if key in db.vals then WrongType else Nil)
  {
    PurgePlain(db, key, now);
  }

  lemma NoSet(db: Db, key: string, members: seq<string>, now: int)
    requires Plain(db) && !(key in db.vals && db.vals[key].Set?)
    ensures members != [] && key in db.vals ==> SAdd(db, key, members, now) == Outcome(db, WrongType)
    ensures SRem(db, key, members, now) == Outcome(db, if key in db.vals then WrongType else Int(0))
  {
    PurgePlain(db, key, now);
  }

  lemma NoZSet(db: Db, key: string, scored: seq<Z.ZMember>, members: seq<string>, now: int)
    requires Plain(db) && !(key in db.vals && db.vals[key].ZSet?)
    ensures scored != [] && key in db.vals ==> ZAdd(db, key, scored, now) == Outcome(db, WrongType)
    ensures ZRem(db, key, members, now) == Outcome(db, if key in db.vals then WrongType else Int(0))
  {
    PurgePlain(db, key, now);
  }

  function VerbKey(v: Verb): string {
    if v.VDel? || v.VSMove? then "" else v.key
  }

  lemma {:induction false} ScoredFlat(ms: seq<Z.ZMember>, t: Texts)
    requires Faithful(t) && AllFloats(ms, t)
    ensures Scored(FlatScored(ms, t), t) == ms
  {
    if ms != [] {
      var s := FlatScored(ms, t);
      assert s[2..] == FlatScored(ms[1..], t);
      ScoredFlat(ms[1..], t);
      assert ms == [ms[0]] + ms[1..];
    }
  }

  lemma {:induction false} PairsFlat(pairs: seq<(string, string)>)
    ensures Pairs(Flat(pairs)) == pairs
  {
    if pairs != [] {
      assert Flat(pairs)[2..] == Flat(pairs[1..]);
      PairsFlat(pairs[1..]);
      assert pairs == [pairs[0]] + pairs[1..];
    }
  }

  lemma LenientFormat(n: int)
    requires Int64(n)
    ensures S.Lenient(FormatInt(n)) == n
  {
    ParseFormat(n);
  }

  lemma DropTwo(name: string, key: string, rest: seq<string>)
    ensures ([name] + ([key] + rest))[1..] == [key] + rest && ([name] + ([key] + rest))[2..] == rest
    ensures ([name] + ([key] + rest))[1] == key && |[name] + ([key] + rest)| == |rest| + 2
  {}

  lemma DecodeListVerb(spelling: string, v: Verb, t: Texts)
    requires WellFormedVerb(v, t) && Upper(spelling) == NameOf(VerbCmd(v)) && (v.VDel? || v.VHDel? || v.VPush?)
    ensures Decode([spelling] + VerbArgs(v, t), t) == [VerbOp(v)]
  {
    hide CmdOf, NameOf, Upper, Scored, Pairs, Triples, Asks, S.Lenient;
    Recognised(VerbCmd(v), spelling);
    match v {
      case VDel(keys) => assert ([spelling] + keys)[1..] == keys;
      case VHDel(key, fields) => DropTwo(spelling, key, fields);
      case VPush(key, _, values) => DropTwo(spelling, key, values);
    }
  }

  lemma DecodeMemberVerb(spelling: string, v: Verb, t: Texts)
    requires Faithful(t) && WellFormedVerb(v, t) && Upper(spelling) == NameOf(VerbCmd(v))
    requires v.VSAdd? || v.VSRem? || v.VZRem?
    ensures Decode([spelling] + VerbArgs(v, t), t) == [VerbOp(v)]
  {
    hide CmdOf, NameOf, Upper, Scored, FlatScored, Faithful, Pairs, Triples, Asks, S.Lenient;
    Recognised(VerbCmd(v), spelling);
    DropTwo(spelling, v.key, v.members);
  }

  lemma DecodeScores(spelling: string, v: Verb, t: Texts)
    requires Faithful(t) && WellFormedVerb(v, t) && Upper(spelling) == NameOf(VerbCmd(v)) && v.VZAdd?
    ensures Decode([spelling] + VerbArgs(v, t), t) == [VerbOp(v)]
  {
    hide CmdOf, NameOf, Upper, Scored, FlatScored, Faithful, Pairs, Triples, Asks, S.Lenient;
    Recognised(ZADD, spelling);
    DropTwo(spelling, v.key, FlatScored(v.scored, t));
    ScoredFlat(v.scored, t);
  }

  lemma DecodeCounter(spelling: string, v: Verb, t: Texts)
    requires Faithful(t) && WellFormedVerb(v, t) && Upper(spelling) == NameOf(VerbCmd(v))
    requires v.VIncr? || v.VIncrBy? || v.VDecr? || v.VDecrBy? || v.VHIncrBy? || v.VLSet? || v.VLRem?
    ensures Decode([spelling] + VerbArgs(v, t), t) == [VerbOp(v)]
  {
    hide CmdOf, NameOf, Upper, FormatInt, S.Lenient;
    Recognised(VerbCmd(v), spelling);
    if v.VLSet? { LenientFormat(v.index); }
    if v.VLRem? { LenientFormat(v.count); }
  }

  lemma DecodeFixedVerb(spelling: string, v: Verb, t: Texts)
    requires WellFormedVerb(v, t) && Upper(spelling) == NameOf(VerbCmd(v))
    requires v.VPop? || v.VLInsert? || v.VSMove? || v.VRename?
    ensures Decode([spelling] + VerbArgs(v, t), t) == [VerbOp(v)]
  {
    hide CmdOf, NameOf, Upper;
    Recognised(VerbCmd(v), spelling);
  }

  /** Replay reads a record as the store call that was made when it was logged. */
  lemma DecodeVerb(spelling: string, v: Verb, t: Texts)
    requires Faithful(t) && WellFormedVerb(v, t) && Upper(spelling) == NameOf(VerbCmd(v))
    ensures Decode([spelling] + VerbArgs(v, t), t) == [VerbOp(v)]
  {
    hide Decode, VerbArgs, VerbOp, VerbCmd, NameOf, Upper, Faithful, WellFormedVerb;
    if v.VDel? || v.VHDel? || v.VPush? {
      DecodeListVerb(spelling, v, t);
    } else if v.VSAdd? || v.VSRem? || v.VZRem? {
      DecodeMemberVerb(spelling, v, t);
    } else if v.VZAdd? {
      DecodeScores(spelling, v, t);
    } else if v.VPop? || v.VLInsert? || v.VSMove? || v.VRename? {
      DecodeFixedVerb(spelling, v, t);
    } else {
      DecodeCounter(spelling, v, t);
    }
  }

  // ----- commands that are logged in another form, or only when they succeed -----

  function VerbRecord(v: Verb, t: Texts): seq<string> { [NameOf(VerbCmd(v))] + VerbArgs(v, t) }

  function SetRecord(key: string, value: string): seq<string> { ["SETABS", key, value, "0"] }

  function MSetRecord(pairs: seq<(string, string)>): seq<string> { ["MSETABS"] + FlatTriples(pairs) }

  function HSetRecord(key: string, pairs: seq<(string, string)>): seq<string> { ["HSET"] + ([key] + Flat(pairs)) }

  function SetOps(pairs: seq<(string, string)>): seq<Op> {
    if pairs == [] then [] else [DoSetAbsolute(pairs[0].0, pairs[0].1, None)] + SetOps(pairs[1..])
  }

  lemma DecodeVerbRecord(v: Verb, t: Texts)
    requires Faithful(t) && WellFormedVerb(v, t)
    ensures Decode(VerbRecord(v, t), t) == [VerbOp(v)]
  {
    hide Decode, VerbArgs, VerbOp, NameOf, Upper, Faithful, WellFormedVerb;
    UpperOfName(VerbCmd(v));
    DecodeVerb(NameOf(VerbCmd(v)), v, t);
  }

  lemma UpperOfName(c: Cmd)
    ensures Upper(NameOf(c)) == NameOf(c)
  {
    hide Upper;
    NamesAreCaps(c);
    UpperOfCaps(NameOf(c));
  }

  lemma ZeroScans(t: Texts)
    requires Faithful(t)
    ensures t.scan("0") == 0
  {
    assert FormatInt(0) == "0";
  }

  lemma DecodeSetRecord(key: string, value: string, t: Texts)
    requires Faithful(t)
    ensures Decode(SetRecord(key, value), t) == [DoSetAbsolute(key, value, None)]
  {
    hide CmdOf, Upper, Faithful;
    ZeroScans(t);
    Recognised(SETABS, "SETABS") by { UpperOfName(SETABS); }
  }

  lemma {:induction false} TriplesFlat(pairs: seq<(string, string)>, t: Texts)
    requires Faithful(t)
    ensures Triples(FlatTriples(pairs), t) == SetOps(pairs)
  {
    hide Faithful;
    if pairs != [] {
      ZeroScans(t);
      assert FlatTriples(pairs)[3..] == FlatTriples(pairs[1..]);
      TriplesFlat(pairs[1..], t);
    }
  }

  lemma DecodeMSetRecord(pairs: seq<(string, string)>, t: Texts)
    requires Faithful(t) && pairs != []
    ensures Decode(MSetRecord(pairs), t) == SetOps(pairs)
  {
    hide CmdOf, Upper, Faithful, Triples, FlatTriples, SetOps;
    Recognised(MSETABS, "MSETABS") by { UpperOfName(MSETABS); }
    assert MSetRecord(pairs)[1..] == FlatTriples(pairs);
    TriplesFlat(pairs, t);
  }

  lemma DecodeHSetRecord(key: string, pairs: seq<(string, string)>, t: Texts)
    requires pairs != []
    ensures Decode(HSetRecord(key, pairs), t) == [DoHSet(key, pairs)]
  {
    hide CmdOf, Upper, Pairs, Flat;
    Recognised(HSET, "HSET") by { UpperOfName(HSET); }
    DropTwo("HSET", key, Flat(pairs));
    PairsFlat(pairs);
  }

  lemma DecodeAppendRecord(key: string, value: string, t: Texts)
    ensures Decode(["APPEND", key, value], t) == [DoAppend(key, value)]
  {
    hide CmdOf, Upper;
    Recognised(APPEND, "APPEND") by { UpperOfName(APPEND); }
  }

  lemma DecodeCopyRecord(spelling: string, src: string, dst: string, options: seq<string>, t: Texts)
    requires Upper(spelling) == "COPY"
    ensures Decode([spelling, src, dst] + options, t) == [DoCopy(src, dst, Asks(options))]
  {
    hide CmdOf, Upper, Asks;
    Recognised(COPY, spelling);
    assert ([spelling, src, dst] + options)[3..] == options;
  }

  // ----- what the rewritten records amount to -----

  lemma OverwritePlain(db: Db, key: string, value: string)
    requires Plain(db)
    ensures Overwrite(db, key, value, None) == Put(db, key, Str(value))
  {}

  /** SETNX, SET XX, GETSET and SETRANGE, when they succeed, leave what SETABS of the new value leaves. */
  lemma SetsAsSetAbs(db: Db, key: string, value: string, offset: int, now: int)
    requires Plain(db)
    ensures SetNX(db, key, value, 0, now) == if key in db.vals then Outcome(db, Bool(false))
              else Outcome(Overwrite(db, key, value, None), Bool(true))
    ensures SetXX(db, key, value, 0, now) == if key in db.vals then Outcome(Overwrite(db, key, value, None), Bool(true))
              else Outcome(db, Bool(false))
    ensures GetSet(db, key, value, now).db == if GetSet(db, key, value, now).reply == WrongType then db
              else Overwrite(db, key, value, None)
    ensures var r := SetRange(db, key, offset, value, now);
            if r.reply.Int?
            then key in r.db.vals && r.db.vals[key].Str? && r.db == Overwrite(db, key, r.db.vals[key].s, None)
            else r.db == db
  {
    hide Purge, Overwrite, WriteAt;
    PurgePlain(db, key, now);
    OverwritePlain(db, key, value);
    var s := if key in db.vals && db.vals[key].Str? then db.vals[key].s else "";
    if offset >= 0 { OverwritePlain(db, key, WriteAt(s, offset, value)); }
  }

  lemma {:induction false} PutAllAsSets(db: Db, pairs: seq<(string, string)>, now: int)
    requires Plain(db)
    ensures PutAll(db, pairs) == ApplyAll(db, SetOps(pairs), now)
    decreases |pairs|
  {
    if pairs != [] {
      var next := Put(db, pairs[0].0, Str(pairs[0].1)).(expires := db.expires - {pairs[0].0});
      OverwritePlain(db, pairs[0].0, pairs[0].1);
      assert next == Apply(db, SetOps(pairs)[0], now).db;
      assert SetOps(pairs)[1..] == SetOps(pairs[1..]);
      PutAllAsSets(next, pairs[1..], now);
    }
  }

  lemma GetDelAsDel(db: Db, key: string, now: int)
    requires Plain(db)
    ensures GetDel(db, key, now).db == if GetDel(db, key, now).reply.Text? then Del(db, [key], now).db else db
  {
    hide Purge;
    PurgePlain(db, key, now);
    if key in db.vals { assert HeldAmong(db, [key], now) == {key}; }
  }

  lemma HSetNXAsHSet(db: Db, key: string, field: string, value: string, now: int)
    requires Plain(db)
    ensures var r := HSetNX(db, key, field, value, now);
            r.db == if r.reply == Bool(true) then HSet(db, key, [(field, value)], now).db else db
  {
    hide Purge;
    PurgePlain(db, key, now);
    var pairs := [(field, value)];
    assert pairs[1..] == [];
    assert SetFields(HashAt(db, key), pairs) == HashAt(db, key)[field := value];
  }

  lemma ZIncrByAsZAdd(db: Db, key: string, incr: real, member: string, round: real -> real, now: int)
    requires Plain(db)
    ensures var r := ZIncrBy(db, key, incr, member, round, now);
            r.db == if r.reply.Score? then ZAdd(db, key, [Z.ZMember(member, r.reply.x)], now).db else db
  {
    hide Purge;
    PurgePlain(db, key, now);
    var z := ZSetAt(db, key);
    var x := round((if member in z then z[member] else 0.0) + incr);
    var one := [Z.ZMember(member, x)];
    assert one[1..] == [];
    assert AddScores(z, one) == z[member := x];
  }

  function MemberNames(ms: seq<Z.ZMember>): (r: seq<string>)
    ensures |r| == |ms| && forall i :: 0 <= i < |ms| ==> r[i] == ms[i].member
  {
    seq(|ms|, i requires 0 <= i < |ms| => ms[i].member)
  }

  lemma MemberNamesSet(ms: seq<Z.ZMember>)
    ensures SetOf(MemberNames(ms)) == Z.Names(ms)
  {
    var names := MemberNames(ms);
    forall x | x in Z.Names(ms) ensures x in SetOf(names) {
      var m :| m in ms && m.member == x;
      var i :| 0 <= i < |ms| && ms[i] == m;
      assert names[i] == x;
    }
    forall x | x in SetOf(names) ensures x in Z.Names(ms) {
      var i :| 0 <= i < |names| && names[i] == x;
      assert ms[i] in ms;
    }
  }

  lemma ZPopAsZRem(db: Db, key: string, count: int, lowest: bool, now: int)
    requires Plain(db)
    ensures var r := ZPop(db, key, count, lowest, now);
            r.db == if r.reply.Ranked? && r.reply.members != []
                    then ZRem(db, key, MemberNames(r.reply.members), now).db
                    else db
  {
    hide Extreme, Z.Listing, Z.Names, SetOf, PutOrDrop, MemberNames;
    PurgePlain(db, key, now);
    var z := ZSetAt(db, key);
    if !Other(db, key, ZSet(map[])) && z != map[] {
      Z.ListingSize(z);
      var n := Z.PopCount(count, |Z.Listing(z)|);
      MemberNamesSet(Extreme(z, n, lowest));
      SomethingPopped(z, n, lowest);
    }
  }

  lemma SomethingPopped(z: map<string, real>, n: nat, lowest: bool)
    requires n <= |Z.Listing(z)| && n > 0
    ensures Extreme(z, n, lowest) != []
  {
    hide Z.Listing;
  }

  /** LMOVE is a pop followed by a push of what it returned. */
  lemma LMoveAsPopPush(db: Db, src: string, dst: string, srcLeft: bool, dstLeft: bool, now: int)
    requires Plain(db)
    ensures var r := LMove(db, src, dst, srcLeft, dstLeft, now);
            r.db == if r.reply.Text? then Push(Pop(db, src, srcLeft, now).db, dst, dstLeft, [r.reply.s], now).db else db
  {
    hide Purge, Pushed, End, Shorter;
    PurgePlain(db, src, now);
    PurgePlain(db, dst, now);
    if !Other(db, src, List([])) && ListAt(db, src) != [] {
      var rest := List(Shorter(ListAt(db, src), srcLeft));
      var popped := PutOrDrop(db, src, rest);
      assert Plain(popped);
      PurgePlain(popped, dst, now);
      if src != dst && !Other(db, dst, List([])) { StoreKeepsType(db, src, dst, rest); }
      if src == dst { StoreKeepsType(db, src, src, rest); }
    }
  }

  // ----- snapshots -----

  /** The snapshot file holds sets as sorted lists and sorted sets as their members in order. */
  datatype Snapshot = Snapshot(
    kv: map<string, string>,
    hashes: map<string, map<string, string>>,
    lists: map<string, seq<string>>,
    sets: map<string, seq<string>>,
    zsets: map<string, seq<Z.ZMember>>,
    streams: map<string, seq<S.Entry>>)

  /** Load: each list of members is added one by one to a new container. */
  ghost function Loaded(s: Snapshot): Maps {
    Maps(s.kv, s.hashes, s.lists,
         map k | k in s.sets :: SetOf(s.sets[k]),
         map k | k in s.zsets :: AddScores(map[], s.zsets[k]),
         s.streams)
  }

  ghost predicate Dumps(m: Maps, s: Snapshot) {
    && s.kv == m.kv && s.hashes == m.hashes && s.lists == m.lists && s.streams == m.streams
    && s.sets.Keys == m.sets.Keys && (forall k :: k in m.sets ==> SetOf(s.sets[k]) == m.sets[k])
    && s.zsets.Keys == m.zsets.Keys && (forall k :: k in m.zsets ==> s.zsets[k] == Z.Listing(m.zsets[k]))
  }

  lemma {:induction false} AddScoresOf(z: map<string, real>, s: seq<Z.ZMember>, m: map<string, real>)
    requires Z.Lists(s, m) && z.Keys !! m.Keys
    ensures AddScores(z, s) == z + m
    decreases |s|
  {
    hide Z.Before, Z.Sorted;
    if s == [] {
      assert m == map[] by { if x :| x in m { assert Z.ZMember(x, m[x]) in s; } }
    } else {
      var x, m' := s[0].member, m - {s[0].member};
      assert x in m && m[x] == s[0].score;
      Z.DropHead(s, m);
      AddScoresOf(z[x := s[0].score], s[1..], m');
      Regroup(z, m, x);
    }
  }

  lemma Regroup(z: map<string, real>, m: map<string, real>, x: string)
    requires x in m && x !in z
    ensures z[x := m[x]] + (m - {x}) == z + m
  {}

  /** A snapshot holds everything the maps hold. */
  lemma LoadUndoesDump(m: Maps, s: Snapshot)
    requires Dumps(m, s)
    ensures Loaded(s) == m
  {
    hide Z.Listing, AddScores, SetOf;
    forall k | k in m.zsets ensures AddScores(map[], s.zsets[k]) == m.zsets[k] {
      Z.ListingLists(m.zsets[k]);
      AddScoresOf(map[], s.zsets[k], m.zsets[k]);
      assert map[] + m.zsets[k] == m.zsets[k];
    }
    assert (map k | k in s.sets :: SetOf(s.sets[k])) == m.sets;
    assert (map k | k in s.zsets :: AddScores(map[], s.zsets[k])) == m.zsets;
  }

  ghost function Restored(s: Snapshot): Db { Db(View(Loaded(s)), map[], map[]) }

  // ----- the text of the snapshot -----

  function CoerceHash(h: map<string, string>): map<string, string> { J.Object(h, J.Coerce) }

  function CoerceMembers(ms: seq<Z.ZMember>): (r: seq<Z.ZMember>)
    ensures |r| == |ms| && forall i :: 0 <= i < |ms| ==> r[i] == Z.ZMember(J.Coerce(ms[i].member), ms[i].score)
  {
    seq(|ms|, i requires 0 <= i < |ms| => Z.ZMember(J.Coerce(ms[i].member), ms[i].score))
  }

  function CoerceEntries(es: seq<S.Entry>): (r: seq<S.Entry>)
    ensures |r| == |es|
    ensures forall i :: 0 <= i < |es| ==> r[i] == S.Entry(J.Coerce(es[i].id), J.CoerceAll(es[i].fields))
  {
    seq(|es|, i requires 0 <= i < |es| => S.Entry(J.Coerce(es[i].id), J.CoerceAll(es[i].fields)))
  }

  /** What the decoder reads from the file the encoder wrote. */
  function Written(s: Snapshot): Snapshot {
    Snapshot(
      J.Object(s.kv, J.Coerce), J.Object(s.hashes, CoerceHash), J.Object(s.lists, J.CoerceAll),
      J.Object(s.sets, J.CoerceAll), J.Object(s.zsets, CoerceMembers), J.Object(s.streams, CoerceEntries))
  }

  ghost predicate TextMaps(m: Maps) {
    && (forall k :: k in m.kv ==> J.IsText(k) && TextVal(Str(m.kv[k])))
    && (forall k :: k in m.hashes ==> J.IsText(k) && TextVal(Hash(m.hashes[k])))
    && (forall k :: k in m.lists ==> J.IsText(k) && TextVal(List(m.lists[k])))
    && (forall k :: k in m.sets ==> J.IsText(k) && TextVal(Set(m.sets[k])))
    && (forall k :: k in m.zsets ==> J.IsText(k) && TextVal(ZSet(m.zsets[k])))
    && (forall k :: k in m.streams ==> J.IsText(k) && TextVal(Stream(m.streams[k])))
  }

  lemma ViewAt(m: Maps, k: string)
    requires k in AllKeys(m)
    ensures k in View(m) && Held(m, k).Some? && View(m)[k] == Held(m, k).value
  {}

  lemma HeldIs(m: Maps, k: string)
    requires Disjoint(m)
    ensures HeldFits(m, k)
  {}

  lemma HeldIsText(m: Maps, k: string)
    requires TextMaps(m) && Held(m, k).Some?
    ensures J.IsText(k) && TextVal(Held(m, k).value)
  {
    hide J.IsText, TextVal;
  }

  lemma ViewIsText(m: Maps)
    requires TextMaps(m)
    ensures TextData(View(m))
  {
    hide J.IsText, TextVal, TextMaps, Held, View;
    forall k | k in View(m) ensures J.IsText(k) && TextVal(View(m)[k]) {
      assert k in AllKeys(m) by { ViewKeys(m); }
      ViewAt(m, k);
      HeldIsText(m, k);
    }
  }

  lemma ViewKeys(m: Maps)
    ensures View(m).Keys == AllKeys(m)
  {
    hide Held;
  }

  lemma MapsAreText(m: Maps)
    requires Disjoint(m) && TextData(View(m))
    ensures TextMaps(m)
  {
    hide J.IsText, TextVal, View, Disjoint, HeldFits;
    forall k | k in m.kv ensures J.IsText(k) && TextVal(Str(m.kv[k])) { KeyIsText(m, k); }
    forall k | k in m.hashes ensures J.IsText(k) && TextVal(Hash(m.hashes[k])) { KeyIsText(m, k); }
    forall k | k in m.lists ensures J.IsText(k) && TextVal(List(m.lists[k])) { KeyIsText(m, k); }
    forall k | k in m.sets ensures J.IsText(k) && TextVal(Set(m.sets[k])) { KeyIsText(m, k); }
    forall k | k in m.zsets ensures J.IsText(k) && TextVal(ZSet(m.zsets[k])) { KeyIsText(m, k); }
    forall k | k in m.streams ensures J.IsText(k) && TextVal(Stream(m.streams[k])) { KeyIsText(m, k); }
  }

  lemma KeyIsText(m: Maps, k: string)
    requires Disjoint(m) && TextData(View(m)) && k in AllKeys(m)
    ensures J.IsText(k)
    ensures k in m.kv ==> TextVal(Str(m.kv[k]))
    ensures k in m.hashes ==> TextVal(Hash(m.hashes[k]))
    ensures k in m.lists ==> TextVal(List(m.lists[k]))
    ensures k in m.sets ==> TextVal(Set(m.sets[k]))
    ensures k in m.zsets ==> TextVal(ZSet(m.zsets[k]))
    ensures k in m.streams ==> TextVal(Stream(m.streams[k]))
  {
    hide J.IsText, TextVal, View, Disjoint, Held;
    ViewAt(m, k);
    HeldIs(m, k);
  }

  ghost predicate HeldFits(m: Maps, k: string) {
    && (k in m.kv ==> Held(m, k) == Some(Str(m.kv[k])))
    && (k in m.hashes ==> Held(m, k) == Some(Hash(m.hashes[k])))
    && (k in m.lists ==> Held(m, k) == Some(List(m.lists[k])))
    && (k in m.sets ==> Held(m, k) == Some(Set(m.sets[k])))
    && (k in m.zsets ==> Held(m, k) == Some(ZSet(m.zsets[k])))
    && (k in m.streams ==> Held(m, k) == Some(Stream(m.streams[k])))
  }

  lemma CoercedHash(h: map<string, string>)
    ensures TextVal(Hash(CoerceHash(h))) && (TextVal(Hash(h)) ==> CoerceHash(h) == h)
  {
    hide J.Coerce, J.IsText, J.Object;
    J.ObjectIsText(h, J.Coerce);
    forall s: string ensures J.IsText(J.Coerce(s)) && (J.IsText(s) ==> J.Coerce(s) == s) {
      J.CoerceIsText(s);
      J.CoerceFixesText(s);
    }
    if TextVal(Hash(h)) { J.ObjectFixed(h, J.Coerce); }
  }

  lemma {:induction false} ScoredAmong(z: map<string, real>, ms: seq<Z.ZMember>)
    ensures forall x :: x in AddScores(z, ms) ==> x in z || exists i :: 0 <= i < |ms| && ms[i].member == x
    decreases |ms|
  {
    if ms != [] {
      var z' := z[ms[0].member := ms[0].score];
      ScoredAmong(z', ms[1..]);
      forall x | x in AddScores(z, ms) ensures x in z || exists i :: 0 <= i < |ms| && ms[i].member == x {
        if x !in z && x != ms[0].member {
          assert x in AddScores(z', ms[1..]) && x !in z';
          var i :| 0 <= i < |ms[1..]| && ms[1..][i].member == x;
          assert ms[i + 1].member == x;
        }
      }
    }
  }

  lemma CoercedMembers(ms: seq<Z.ZMember>, l: seq<string>)
    ensures TextVal(ZSet(AddScores(map[], CoerceMembers(ms)))) && TextVal(Set(SetOf(J.CoerceAll(l))))
  {
    hide J.Coerce, J.IsText, AddScores;
    forall s: string ensures J.IsText(J.Coerce(s)) { J.CoerceIsText(s); }
    ScoredAmong(map[], CoerceMembers(ms));
  }

  lemma CoercedEntries(es: seq<S.Entry>)
    ensures TextVal(Stream(CoerceEntries(es))) && (TextVal(Stream(es)) ==> CoerceEntries(es) == es)
  {
    hide J.Coerce, J.IsText, J.CoerceAll, J.AllText;
    forall i | 0 <= i < |es|
      ensures J.IsText(J.Coerce(es[i].id)) && J.AllText(J.CoerceAll(es[i].fields))
      ensures J.IsText(es[i].id) && J.AllText(es[i].fields) ==> CoerceEntries(es)[i] == es[i]
    {
      J.CoerceIsText(es[i].id);
      J.CoerceFixesText(es[i].id);
      J.CoerceAllFixesText(es[i].fields);
    }
  }

  /** Whatever was written, what comes back is valid UTF-8. */
  lemma WrittenIsText(s: Snapshot)
    ensures TextMaps(Loaded(Written(s)))
  {
    hide J.Coerce, J.IsText, J.CoerceAll, J.AllText, J.Object, CoerceHash, CoerceMembers, CoerceEntries, TextVal, SetOf,
      AddScores;
    J.ObjectIsText(s.kv, J.Coerce);
    J.ObjectIsText(s.hashes, CoerceHash);
    J.ObjectIsText(s.lists, J.CoerceAll);
    J.ObjectIsText(s.sets, J.CoerceAll);
    J.ObjectIsText(s.zsets, CoerceMembers);
    J.ObjectIsText(s.streams, CoerceEntries);
    forall x: string ensures TextVal(Str(J.Coerce(x))) { CoercedStr(x); }
    forall h: map<string, string> ensures TextVal(Hash(CoerceHash(h))) { CoercedHash(h); }
    forall l: seq<string> ensures TextVal(List(J.CoerceAll(l))) && TextVal(Set(SetOf(J.CoerceAll(l)))) {
      CoercedList(l);
      CoercedMembers([], l);
    }
    forall ms: seq<Z.ZMember> ensures TextVal(ZSet(AddScores(map[], CoerceMembers(ms)))) { CoercedMembers(ms, []); }
    forall es: seq<S.Entry> ensures TextVal(Stream(CoerceEntries(es))) { CoercedEntries(es); }
  }

  lemma CoercedStr(x: string)
    ensures TextVal(Str(J.Coerce(x)))
  {
    J.CoerceIsText(x);
  }

  lemma CoercedList(l: seq<string>)
    ensures TextVal(List(J.CoerceAll(l)))
  {
    J.CoerceAllFixesText(l);
  }

  lemma ListedText(m: set<string>, l: seq<string>)
    requires SetOf(l) == m && TextVal(Set(m))
    ensures J.CoerceAll(l) == l
  {
    hide J.IsText, J.Coerce;
    forall i | 0 <= i < |l| ensures J.IsText(l[i]) { assert l[i] in SetOf(l); }
    J.CoerceAllFixesText(l);
  }

  lemma ListedMembers(z: map<string, real>)
    requires TextVal(ZSet(z))
    ensures CoerceMembers(Z.Listing(z)) == Z.Listing(z)
  {
    hide J.IsText, J.Coerce, Z.Listing;
    Z.ListingLists(z);
    var ms := Z.Listing(z);
    forall i | 0 <= i < |ms| ensures CoerceMembers(ms)[i] == ms[i] {
      assert ms[i] in ms;
      J.CoerceFixesText(ms[i].member);
    }
  }

  /** Valid UTF-8 is written as it is. */
  lemma TextIsWritten(m: Maps, s: Snapshot)
    requires Dumps(m, s) && TextMaps(m)
    ensures Written(s) == s
  {
    hide J.Coerce, J.IsText, J.CoerceAll, J.AllText, J.Object, CoerceHash, CoerceMembers, CoerceEntries, TextVal, SetOf,
      Z.Listing;
    forall k | k in m.kv ensures J.Coerce(m.kv[k]) == m.kv[k] { TextStr(m.kv[k]); }
    forall k | k in m.hashes ensures CoerceHash(m.hashes[k]) == m.hashes[k] { CoercedHash(m.hashes[k]); }
    forall k | k in m.lists ensures J.CoerceAll(m.lists[k]) == m.lists[k] { TextList(m.lists[k]); }
    forall k | k in m.sets ensures J.CoerceAll(s.sets[k]) == s.sets[k] { ListedText(m.sets[k], s.sets[k]); }
    forall k | k in m.zsets ensures CoerceMembers(s.zsets[k]) == s.zsets[k] { ListedMembers(m.zsets[k]); }
    forall k | k in m.streams ensures CoerceEntries(m.streams[k]) == m.streams[k] { CoercedEntries(m.streams[k]); }
    J.ObjectFixed(s.kv, J.Coerce);
    J.ObjectFixed(s.hashes, CoerceHash);
    J.ObjectFixed(s.lists, J.CoerceAll);
    J.ObjectFixed(s.sets, J.CoerceAll);
    J.ObjectFixed(s.zsets, CoerceMembers);
    J.ObjectFixed(s.streams, CoerceEntries);
  }

  /** A snapshot is read back empty exactly when there was nothing to save. */
  lemma WrittenEmpty(m: Maps, d: Snapshot)
    requires Dumps(m, d)
    ensures Restored(Written(d)).vals == map[] <==> View(m) == map[]
  {
    hide View, J.Object, J.Coerce, J.CoerceAll, CoerceHash, CoerceMembers, CoerceEntries, SetOf, AddScores, Z.Listing;
    J.ObjectEmpty(d.kv, J.Coerce);
    J.ObjectEmpty(d.hashes, CoerceHash);
    J.ObjectEmpty(d.lists, J.CoerceAll);
    J.ObjectEmpty(d.sets, J.CoerceAll);
    J.ObjectEmpty(d.zsets, CoerceMembers);
    J.ObjectEmpty(d.streams, CoerceEntries);
    var w := Written(d);
    assert Loaded(w).sets.Keys == w.sets.Keys && Loaded(w).zsets.Keys == w.zsets.Keys;
    NothingHeld(Loaded(w));
    NothingHeld(m);
    NoKeys(d.sets, m.sets);
    NoKeys(d.zsets, m.zsets);
    NoKeys(w.sets, Loaded(w).sets);
    NoKeys(w.zsets, Loaded(w).zsets);
  }

  lemma NoKeys<A, B>(a: map<string, A>, b: map<string, B>)
    requires a.Keys == b.Keys
    ensures a == map[] <==> b == map[]
  {
    assert a == map[] <==> a.Keys == {};
    assert b == map[] <==> b.Keys == {};
  }

  lemma NothingHeld(m: Maps)
    ensures View(m) == map[] <==>
              && m.kv == map[] && m.hashes == map[] && m.lists == map[]
              && m.sets == map[] && m.zsets == map[] && m.streams == map[]
  {
    hide View;
    ViewKeys(m);
    assert View(m) == map[] <==> View(m).Keys == {};
  }

  lemma TextStr(x: string)
    requires TextVal(Str(x))
    ensures J.Coerce(x) == x
  {
    J.CoerceFixesText(x);
  }

  lemma TextList(l: seq<string>)
    requires TextVal(List(l))
    ensures J.CoerceAll(l) == l
  {
    J.CoerceAllFixesText(l);
  }

  // ----- recoverability -----

  /** Replaying the records takes one state to the other, at whatever time it happens. */
  ghost predicate Replays(before: Db, records: seq<seq<string>>, t: Texts, after: Db) {
    forall later :: Replay(before, records, t, later) == after
  }

  /** Loading the snapshot and replaying the log yields the given state, whenever it is done. */
  ghost predicate Recoverable(s: Snapshot, log: seq<seq<string>>, t: Texts, db: Db) {
    Replays(Restored(s), log, t, db)
  }

  /** An intact snapshot can be loaded, and with the log it determines the state. */
  ghost predicate Backed(intact: bool, s: Snapshot, log: seq<seq<string>>, t: Texts, db: Db) {
    intact ==> Disjoint(Loaded(s)) && WellFormed(Restored(s)) && Recoverable(s, log, t, db)
  }

  lemma Extend(
      intact: bool, s: Snapshot, log: seq<seq<string>>, records: seq<seq<string>>, t: Texts, before: Db, after: Db)
    requires Backed(intact, s, log, t, before) && Replays(before, records, t, after)
    ensures Backed(intact, s, log + records, t, after)
  {
    hide Replay, Restored, Loaded, Disjoint, WellFormed;
    if intact {
      forall later ensures Replay(Restored(s), log + records, t, later) == after {
        ReplayAppend(Restored(s), log, records, t, later);
      }
    }
  }

  lemma NothingToReplay(db: Db, t: Texts)
    ensures Replays(db, [], t, db)
  {}

  lemma ReplaysTwice(a: Db, r1: seq<string>, b: Db, r2: seq<string>, c: Db, t: Texts)
    requires Replays(a, [r1], t, b) && Replays(b, [r2], t, c)
    ensures Replays(a, [r1, r2], t, c)
  {
    hide Replay;
    forall later ensures Replay(a, [r1, r2], t, later) == c {
      assert [r1, r2] == [r1] + [r2];
      ReplayAppend(a, [r1], [r2], t, later);
    }
  }

  /** A record that decodes to one call replays to what that call did when it was made. */
  lemma OpReplays(db: Db, record: seq<string>, op: Op, t: Texts, now: int)
    requires Plain(db) && Timeless(op) && Decode(record, t) == [op]
    ensures Replays(db, [record], t, Apply(db, op, now).db) && Plain(Apply(db, op, now).db)
  {
    hide Plain, Timeless, Decode, Apply, ApplyAll, Replay;
    forall later ensures Replay(db, [record], t, later) == Apply(db, op, now).db {
      ReplayOne(db, record, t, later);
      ApplyOne(db, op, later);
      Untimed(db, op, now, later);
    }
    Untimed(db, op, now, now);
  }

  lemma {:induction false} SetOpsUntimed(db: Db, pairs: seq<(string, string)>, now: int, later: int)
    ensures ApplyAll(db, SetOps(pairs), now) == ApplyAll(db, SetOps(pairs), later)
    decreases |pairs|
  {
    if pairs != [] {
      assert SetOps(pairs)[1..] == SetOps(pairs[1..]);
      SetOpsUntimed(Overwrite(db, pairs[0].0, pairs[0].1, None), pairs[1..], now, later);
    }
  }

  lemma {:induction false} SetOpsPlain(db: Db, pairs: seq<(string, string)>, now: int)
    requires Plain(db)
    ensures Plain(ApplyAll(db, SetOps(pairs), now))
    decreases |pairs|
  {
    if pairs != [] {
      assert SetOps(pairs)[1..] == SetOps(pairs[1..]);
      SetOpsPlain(Overwrite(db, pairs[0].0, pairs[0].1, None), pairs[1..], now);
    }
  }

  lemma MSetReplays(db: Db, pairs: seq<(string, string)>, t: Texts, now: int)
    requires Plain(db) && Faithful(t) && pairs != []
    ensures Replays(db, [MSetRecord(pairs)], t, ApplyAll(db, SetOps(pairs), now))
    ensures Plain(ApplyAll(db, SetOps(pairs), now))
  {
    hide Plain, Faithful, Decode, ApplyAll, Replay, SetOps, MSetRecord;
    DecodeMSetRecord(pairs, t);
    forall later ensures Replay(db, [MSetRecord(pairs)], t, later) == ApplyAll(db, SetOps(pairs), now) {
      ReplayOne(db, MSetRecord(pairs), t, later);
      SetOpsUntimed(db, pairs, now, later);
    }
    SetOpsPlain(db, pairs, now);
  }

  /** The record of a verb, under its canonical name. */
  lemma VerbReplays(db: Db, v: Verb, t: Texts, now: int)
    requires Plain(db) && Faithful(t) && WellFormedVerb(v, t)
    ensures Replays(db, [VerbRecord(v, t)], t, Apply(db, VerbOp(v), now).db) && Plain(Apply(db, VerbOp(v), now).db)
  {
    hide Plain, Faithful, WellFormedVerb, Apply, VerbRecord, Replays;
    DecodeVerbRecord(v, t);
    OpReplays(db, VerbRecord(v, t), VerbOp(v), t, now);
  }

  ghost predicate NonEmpty(log: seq<seq<string>>) { forall i :: 0 <= i < |log| ==> log[i] != [] }

  lemma NonEmptyPlus(log: seq<seq<string>>, first: seq<string>, second: seq<string>)
    requires NonEmpty(log) && first != [] && second != []
    ensures NonEmpty(log + [first, second]) && log + [first] + [second] == log + [first, second]
  {}

  function HeldIn(db: Db, key: string): Option<Val> { if key in db.vals then Some(db.vals[key]) else None }

  class Server {
    const store: Store
    const aof: A.Aof
    const t: Texts
    /** What a decoder reads from the snapshot file. */
    var snapshot: Snapshot
    /** Whether that file held all the data when the log was last truncated. */
    ghost var intact: bool

    /** At every moment between commands: an intact snapshot plus the log determine the live data. */
    ghost predicate Valid() reads this, store, aof {
      && store.Valid() && aof.Valid() && Faithful(t) && Plain(store.Abs()) && NonEmpty(aof.log)
      && Backed(intact, snapshot, aof.log, t, store.Abs())
    }

    constructor (t: Texts, crc: string -> A.Word)
      requires Faithful(t)
      ensures Valid() && intact && fresh(store) && fresh(aof) && this.t == t
      ensures store.Abs() == NoData && aof.log == []
    {
      this.t := t;
      store := new Store();
      aof := new A.Aof(crc);
      snapshot := Snapshot(map[], map[], map[], map[], map[], map[]);
      intact := true;
      new;
      EmptySnapshot();
      NothingToReplay(store.Abs(), t);
    }

    /**
     * Commands whose arguments go to the log before the store is called, even if that call then
     * fails. Those that are refused before have the effect and the reply that the call would have.
     */
    method Sent(spelling: string, v: Verb, now: int) returns (logged: bool, r: Reply)
      requires Valid() && WellFormedVerb(v, t) && Upper(spelling) == NameOf(VerbCmd(v))
      modifies store, aof
      ensures Valid() && logged == Admitted(HeldIn(old(store.Abs()), VerbKey(v)), v)
      ensures Outcome(store.Abs(), r) == Apply(old(store.Abs()), VerbOp(v), now)
      ensures aof.log == old(aof.log) + if logged then [[spelling] + VerbArgs(v, t)] else []
    {
      hide Plain, Faithful, Apply, Backed, VerbArgs, VerbOp, VerbCmd, Admitted, WellFormedVerb, Upper, View, Refusal,
        Disjoint, WellFormed, Held, NameOf, NonEmpty, A.FileOf;
      Kinds(store.Typed(), VerbKey(v));
      var held := Held(store.Typed(), VerbKey(v));
      if !Admitted(held, v) {
        assert aof.log + [] == aof.log;
        RefusedAnyway(store.Abs(), v, t, now);
        return false, Refusal(held, v);
      }
      r := LogAndRun(spelling, v, now);
      return true, r;
    }

    method LogAndRun(spelling: string, v: Verb, now: int) returns (r: Reply)
      requires Valid() && WellFormedVerb(v, t) && Upper(spelling) == NameOf(VerbCmd(v))
      modifies store, aof
      ensures Valid() && Outcome(store.Abs(), r) == Apply(old(store.Abs()), VerbOp(v), now)
      ensures aof.log == old(aof.log) + [[spelling] + VerbArgs(v, t)]
    {
      hide Plain, Faithful, Apply, Backed, VerbArgs, VerbOp, VerbCmd, WellFormedVerb, Upper, View, Disjoint, WellFormed,
        Decode, Loaded, Restored;
      ghost var before, log := store.Abs(), aof.log;
      var record := [spelling] + VerbArgs(v, t);
      DecodeVerb(spelling, v, t);
      VerbIsTimeless(v);
      OpReplays(before, record, VerbOp(v), t, now);
      aof.Append(record);
      r := store.Exec(VerbOp(v), now);
      Extend(intact, snapshot, log, [record], t, before, store.Abs());
    }

    /** Everything but the log being up to date. */
    ghost predicate Ready() reads this, store, aof {
      store.Valid() && aof.Valid() && Faithful(t) && Plain(store.Abs()) && NonEmpty(aof.log)
    }

    /** Appends the record of what the store has just done. */
    method Follow(record: seq<string>, ghost before: Db)
      requires Ready() && record != []
      requires Backed(intact, snapshot, aof.log, t, before) && Replays(before, [record], t, store.Abs())
      modifies aof
      ensures Valid() && aof.log == old(aof.log) + [record]
    {
      hide Plain, Faithful, Backed, Replays, View, Disjoint, WellFormed, Loaded, Restored, Decode, Dumps;
      Extend(intact, snapshot, aof.log, [record], t, before, store.Abs());
      aof.Append(record);
    }

    /** Appends two records for what the store has just done in one call. */
    method FollowTwice(first: seq<string>, second: seq<string>, ghost before: Db, ghost between: Db)
      requires Ready() && first != [] && second != [] && Backed(intact, snapshot, aof.log, t, before)
      requires Replays(before, [first], t, between) && Replays(between, [second], t, store.Abs())
      modifies aof
      ensures Valid() && aof.log == old(aof.log) + [first, second]
    {
      hide Plain, Faithful, Backed, Replays, View, Disjoint, WellFormed, Loaded, Restored, Decode, Dumps, NonEmpty,
        A.FileOf;
      NonEmptyPlus(aof.log, first, second);
      ReplaysTwice(before, first, between, second, store.Abs(), t);
      Extend(intact, snapshot, aof.log, [first, second], t, before, store.Abs());
      aof.Append(first);
      aof.Append(second);
      assert aof.log == old(aof.log) + [first, second];
    }

    /** SET without options. */
    method SetPlain(key: string, value: string, now: int)
      requires Valid()
      modifies store, aof
      ensures Valid() && store.Abs() == Overwrite(old(store.Abs()), key, value, None)
      ensures aof.log == old(aof.log) + [SetRecord(key, value)]
    {
      hide Plain, Faithful, Backed, Replays, View, Disjoint, WellFormed, Loaded, Restored, Decode, Dumps,
        Overwrite, SetRecord;
      ghost var before, log := store.Abs(), aof.log;
      SetReplays(before, key, value, t, now);
      RecordsNonEmpty(key, value);
      aof.Append(SetRecord(key, value));
      var _ := store.SetAbsolute(key, value, None);
      Extend(intact, snapshot, log, [SetRecord(key, value)], t, before, store.Abs());
    }

    /** SETNX and SET with NX or XX. */
    method SetIf(key: string, value: string, mustExist: bool, now: int) returns (done: bool)
      requires Valid()
      modifies store, aof
      ensures Valid() && done == ((key in old(store.Abs()).vals) == mustExist)
      ensures store.Abs() == if done then Overwrite(old(store.Abs()), key, value, None) else old(store.Abs())
      ensures aof.log == old(aof.log) + if done then [SetRecord(key, value)] else []
    {
      hide Plain, Faithful, Backed, Replays, View, Disjoint, WellFormed, Loaded, Restored, Decode, Dumps,
        Overwrite, SetRecord, Keyspace.SetNX, Keyspace.SetXX;
      ghost var before := store.Abs();
      SetsAsSetAbs(before, key, value, 0, now);
      SetReplays(before, key, value, t, now);
      RecordsNonEmpty(key, value);
      var r;
      if mustExist { r := store.SetXX(key, value, 0, now); } else { r := store.SetNX(key, value, 0, now); }
      done := r == Bool(true);
      if done { Follow(SetRecord(key, value), before); }
    }

    method MSet(pairs: seq<(string, string)>, now: int)
      requires Valid() && pairs != []
      modifies store, aof
      ensures Valid() && store.Abs() == ApplyAll(old(store.Abs()), SetOps(pairs), now)
      ensures aof.log == old(aof.log) + [MSetRecord(pairs)]
    {
      hide Plain, Faithful, Backed, Replays, View, Disjoint, WellFormed, Loaded, Restored, Decode, Dumps,
        Overwrite, MSetRecord;
      ghost var before, log := store.Abs(), aof.log;
      MSetReplays(before, pairs, t, now);
      MSetRecordNonEmpty(pairs);
      aof.Append(MSetRecord(pairs));
      assert pairs[0..] == pairs;
      for i := 0 to |pairs|
        invariant store.Valid()
        invariant ApplyAll(store.Abs(), SetOps(pairs[i..]), now) == ApplyAll(before, SetOps(pairs), now)
        invariant aof.Valid() && aof.log == log + [MSetRecord(pairs)]
      {
        assert pairs[i..][1..] == pairs[i + 1..];
        assert SetOps(pairs[i..])[1..] == SetOps(pairs[i + 1..]);
        var _ := store.SetAbsolute(pairs[i].0, pairs[i].1, None);
      }
      Extend(intact, snapshot, log, [MSetRecord(pairs)], t, before, store.Abs());
    }

    method MSetNX(pairs: seq<(string, string)>, now: int) returns (done: bool)
      requires Valid() && pairs != []
      modifies store, aof
      ensures Valid() && done == (forall i :: 0 <= i < |pairs| ==> pairs[i].0 !in old(store.Abs()).vals)
      ensures store.Abs() == if done then PutAll(old(store.Abs()), pairs) else old(store.Abs())
      ensures aof.log == old(aof.log) + if done then [MSetRecord(pairs)] else []
    {
      hide Plain, Faithful, Backed, Replays, View, Disjoint, WellFormed, Loaded, Restored, Decode, Dumps,
        MSetRecord, PutAll, FirstTaken, ApplyAll, SetOps;
      ghost var before := store.Abs();
      FirstTakenPlain(before, pairs, now);
      PutAllAsSets(before, pairs, now);
      MSetReplays(before, pairs, t, now);
      MSetRecordNonEmpty(pairs);
      var r := store.MSetNX(pairs, now);
      done := r == Bool(true);
      if done { Follow(MSetRecord(pairs), before); }
    }

    method GetSet(key: string, value: string, now: int) returns (r: Reply)
      requires Valid()
      modifies store, aof
      ensures Valid() && Outcome(store.Abs(), r) == Keyspace.GetSet(old(store.Abs()), key, value, now)
      ensures aof.log == old(aof.log) + if r == WrongType then [] else [SetRecord(key, value)]
    {
      hide Plain, Faithful, Backed, Replays, View, Disjoint, WellFormed, Loaded, Restored, Decode, Dumps,
        Overwrite, SetRecord, Keyspace.GetSet;
      ghost var before := store.Abs();
      SetsAsSetAbs(before, key, value, 0, now);
      SetReplays(before, key, value, t, now);
      RecordsNonEmpty(key, value);
      r := store.GetSet(key, value, now);
      if r != WrongType { Follow(SetRecord(key, value), before); }
    }

    /** SETRANGE logs the whole resulting string. */
    method SetRange(key: string, offset: int, value: string, now: int) returns (r: Reply)
      requires Valid()
      modifies store, aof
      ensures Valid() && Outcome(store.Abs(), r) == Keyspace.SetRange(old(store.Abs()), key, offset, value, now)
      ensures r.Int? ==> key in store.Abs().vals && store.Abs().vals[key].Str?
      ensures aof.log == old(aof.log) + if r.Int? then [SetRecord(key, store.Abs().vals[key].s)] else []
    {
      hide Plain, Faithful, Backed, Replays, View, Disjoint, WellFormed, Loaded, Restored, Decode, Dumps,
        Overwrite, SetRecord, Keyspace.SetRange;
      ghost var before := store.Abs();
      SetsAsSetAbs(before, key, value, offset, now);
      r := store.SetRange(key, offset, value, now);
      if r.Int? {
        Kinds(store.Typed(), key);
        var whole := store.kv[key];
        SetReplays(before, key, whole, t, now);
        RecordsNonEmpty(key, whole);
        Follow(SetRecord(key, whole), before);
      }
    }

    method AppendTo(key: string, value: string, now: int) returns (r: Reply)
      requires Valid()
      modifies store, aof
      ensures Valid() && Outcome(store.Abs(), r) == Keyspace.Append(old(store.Abs()), key, value, now)
      ensures aof.log == old(aof.log) + if r.Int? then [["APPEND", key, value]] else []
    {
      hide Plain, Faithful, Backed, Replays, View, Disjoint, WellFormed, Loaded, Restored, Decode, Dumps,
        Keyspace.Append;
      ghost var before := store.Abs();
      AppendReplays(before, key, value, t, now);
      r := store.Append(key, value, now);
      if r.Int? { Follow(["APPEND", key, value], before); }
    }

    /** GETDEL logs a plain deletion. */
    method GetDel(key: string, now: int) returns (r: Reply)
      requires Valid()
      modifies store, aof
      ensures Valid() && Outcome(store.Abs(), r) == Keyspace.GetDel(old(store.Abs()), key, now)
      ensures aof.log == old(aof.log) + if r.Text? then [VerbRecord(VDel([key]), t)] else []
    {
      hide Plain, Faithful, Backed, Replays, View, Disjoint, WellFormed, Loaded, Restored, Decode, Dumps,
        Keyspace.GetDel, VerbRecord, Keyspace.Del;
      ghost var before := store.Abs();
      GetDelAsDel(before, key, now);
      GetDelReply(before, key, now);
      DelReplays(before, [key], t, now);
      r := store.GetDel(key, now);
      if r.Text? { Follow(VerbRecord(VDel([key]), t), before); }
    }

    method HSet(key: string, pairs: seq<(string, string)>, now: int) returns (r: Reply)
      requires Valid() && pairs != []
      modifies store, aof
      ensures Valid() && Outcome(store.Abs(), r) == Keyspace.HSet(old(store.Abs()), key, pairs, now)
      ensures aof.log == old(aof.log) + if Other(old(store.Abs()), key, Hash(map[])) then []
                else [HSetRecord(key, pairs)]
    {
      hide Plain, Faithful, Backed, Replays, View, Disjoint, WellFormed, Loaded, Restored, Decode, Dumps,
        Keyspace.HSet, HSetRecord, Held;
      ghost var before, log := store.Abs(), aof.log;
      HSetReplays(before, key, pairs, t, now);
      Kinds(store.Typed(), key);
      var held := Held(store.Typed(), key);
      if held.Some? && !held.value.Hash? { return WrongType; }
      aof.Append(HSetRecord(key, pairs));
      r := store.HSet(key, pairs, now);
      Extend(intact, snapshot, log, [HSetRecord(key, pairs)], t, before, store.Abs());
    }

    method HSetNX(key: string, field: string, value: string, now: int) returns (r: Reply)
      requires Valid()
      modifies store, aof
      ensures Valid() && Outcome(store.Abs(), r) == Keyspace.HSetNX(old(store.Abs()), key, field, value, now)
      ensures aof.log == old(aof.log) + if r == Bool(true) then [HSetRecord(key, [(field, value)])] else []
    {
      hide Plain, Faithful, Backed, Replays, View, Disjoint, WellFormed, Loaded, Restored, Decode, Dumps,
        Keyspace.HSet, Keyspace.HSetNX, HSetRecord;
      ghost var before := store.Abs();
      HSetReplays(before, key, [(field, value)], t, now);
      HSetNXAsHSet(before, key, field, value, now);
      r := store.HSetNX(key, field, value, now);
      if r == Bool(true) { Follow(HSetRecord(key, [(field, value)]), before); }
    }

    method CopyKey(spelling: string, src: string, dst: string, options: seq<string>, now: int) returns (r: Reply)
      requires Valid() && Upper(spelling) == "COPY"
      modifies store, aof
      ensures Valid() && Outcome(store.Abs(), r) == Keyspace.Copy(old(store.Abs()), src, dst, Asks(options), now)
      ensures aof.log == old(aof.log) + if r == Bool(true) then [[spelling, src, dst] + options] else []
    {
      hide Plain, Faithful, Backed, Replays, View, Disjoint, WellFormed, Loaded, Restored, Decode, Dumps,
        Keyspace.Copy, Asks, Upper;
      ghost var before := store.Abs();
      CopyReplays(before, spelling, src, dst, options, t, now);
      r := store.Copy(src, dst, Asks(options), now);
      if r == Bool(true) { Follow([spelling, src, dst] + options, before); }
    }

    /** SPOP picks at random; the log names the members it picked. */
    method SPop(key: string, count: int, now: int) returns (wrongType: bool, popped: seq<string>)
      requires Valid()
      modifies store, aof
      ensures Valid()
      ensures store.Abs() == if popped == [] then old(store.Abs())
                else Keyspace.SRem(old(store.Abs()), key, popped, now).db
      ensures wrongType == Other(old(store.Abs()), key, Set({})) && SetOf(popped) <= SetAt(old(store.Abs()), key)
      ensures aof.log == old(aof.log) + if popped == [] then [] else [VerbRecord(VSRem(key, popped), t)]
    {
      hide Plain, Faithful, Backed, Replays, View, Disjoint, WellFormed, Loaded, Restored, Decode, Dumps,
        Keyspace.SRem, VerbRecord, Other, SetOf, SetAt, Purge;
      ghost var before := store.Abs();
      PurgePlain(before, key, now);
      wrongType, popped := store.SPop(key, count, now);
      if popped != [] {
        SRemReplays(before, key, popped, t, now);
        Follow(VerbRecord(VSRem(key, popped), t), before);
      }
    }

    /** ZINCRBY logs the score it arrived at. */
    method ZIncrBy(key: string, incr: real, member: string, now: int) returns (r: Reply)
      requires Valid()
      modifies store, aof
      ensures Valid() && Outcome(store.Abs(), r) == Keyspace.ZIncrBy(old(store.Abs()), key, incr, member, t.round, now)
      ensures aof.log == old(aof.log) + if r.Score? then [VerbRecord(VZAdd(key, [Z.ZMember(member, r.x)]), t)] else []
    {
      hide Plain, Faithful, Backed, Replays, View, Disjoint, WellFormed, Loaded, Restored, Decode, Dumps,
        Keyspace.ZIncrBy, Keyspace.ZAdd, VerbRecord;
      ghost var before := store.Abs();
      ZIncrByAsZAdd(before, key, incr, member, t.round, now);
      r := store.ZIncrBy(key, incr, member, t.round, now);
      if r.Score? {
        var scored := [Z.ZMember(member, r.x)];
        SumsAreFloats(before, key, incr, member, t, now);
        ZAddReplays(before, key, scored, t, now);
        Follow(VerbRecord(VZAdd(key, scored), t), before);
      }
    }

    /** ZPOPMIN and ZPOPMAX log the removal of what they returned. */
    method ZPop(key: string, count: int, lowest: bool, now: int) returns (r: Reply)
      requires Valid()
      modifies store, aof
      ensures Valid() && Outcome(store.Abs(), r) == Keyspace.ZPop(old(store.Abs()), key, count, lowest, now)
      ensures aof.log == old(aof.log) + if r.Ranked? && r.members != []
                                        then [VerbRecord(VZRem(key, MemberNames(r.members)), t)]
                                        else []
    {
      hide Plain, Faithful, Backed, Replays, View, Disjoint, WellFormed, Loaded, Restored, Decode, Dumps,
        Keyspace.ZPop, Keyspace.ZRem, VerbRecord;
      ghost var before := store.Abs();
      ZPopAsZRem(before, key, count, lowest, now);
      r := store.ZPop(key, count, lowest, now);
      if r.Ranked? && r.members != [] {
        var names := MemberNames(r.members);
        ZRemReplays(before, key, names, t, now);
        Follow(VerbRecord(VZRem(key, names), t), before);
      }
    }

    /** LMOVE and RPOPLPUSH log a pop and a push. */
    method LMove(src: string, dst: string, srcLeft: bool, dstLeft: bool, now: int) returns (r: Reply)
      requires Valid()
      modifies store, aof
      ensures Valid() && Outcome(store.Abs(), r) == Keyspace.LMove(old(store.Abs()), src, dst, srcLeft, dstLeft, now)
      ensures aof.log == old(aof.log) +
                if r.Text? then [VerbRecord(VPop(src, srcLeft), t), VerbRecord(VPush(dst, dstLeft, [r.s]), t)] else []
    {
      hide Plain, Faithful, Backed, Replays, View, Disjoint, WellFormed, Loaded, Restored, Decode, Dumps,
        Keyspace.LMove, Keyspace.Pop, Keyspace.Push, VerbRecord;
      ghost var before := store.Abs();
      LMoveAsPopPush(before, src, dst, srcLeft, dstLeft, now);
      r := store.LMove(src, dst, srcLeft, dstLeft, now);
      if r.Text? {
        ghost var between := Keyspace.Pop(before, src, srcLeft, now).db;
        LMoveReplays(before, between, src, dst, srcLeft, dstLeft, r.s, t, now);
        FollowTwice(VerbRecord(VPop(src, srcLeft), t), VerbRecord(VPush(dst, dstLeft, [r.s]), t), before, between);
      }
    }

    /**
     * SINTERSTORE, SUNIONSTORE and SDIFFSTORE: the log holds the result, not the operation. A key of
     * the wrong type leaves the destination alone, unless the intersection is known to be empty.
     */
    method CombineSets(how: SA.Algebra, dest: string, keys: seq<string>, now: int) returns (r: Reply)
      requires Valid()
      modifies store, aof
      ensures Valid() && (r == WrongArgs <==> keys == [])
      ensures r == WrongType <==> keys != [] && SA.Refused(old(store.Abs()), how, keys, now)
      ensures var m := SA.Combined(how, SA.Operands(old(store.Abs()), keys, now));
              if r == WrongArgs || r == WrongType then unchanged(store) && unchanged(aof)
              else
                && r == Int(|m|) && store.Abs() == SA.StoredSet(old(store.Abs()), dest, m, now)
                && aof.log == old(aof.log) + [VerbRecord(VDel([dest]), t)] + if m == {} then []
                     else [VerbRecord(VSAdd(dest, SortSet(m)), t)]
    {
      hide Plain, Faithful, Backed, Replays, View, Disjoint, WellFormed, Loaded, Restored, Decode, Dumps,
        Keyspace.Del, Keyspace.SAdd, VerbRecord, SA.Combined, SA.Refused, SA.StoredSet;
      if keys == [] { return WrongArgs; }
      var members := Combination(how, keys, now);
      if members.None? { return WrongType; }
      AscendingSize(members.value);
      SA.AddedIsStored(store.Abs(), dest, members.value, now);
      StoreSet(dest, members.value, now);
      return Int(|members.value|);
    }

    method Combination(how: SA.Algebra, keys: seq<string>, now: int) returns (members: Option<seq<string>>)
      requires Valid() && keys != []
      ensures members.None? <==> SA.Refused(store.Abs(), how, keys, now)
      ensures members.Some? ==> members.value == SortSet(SA.Combined(how, SA.Operands(store.Abs(), keys, now)))
    {
      hide Plain, Faithful, Backed, View, Disjoint, WellFormed, Loaded, Restored, SA.Combined, SA.Refused;
      match how {
        case Inter => members := store.SInter(keys, now);
        case Union => members := store.SUnion(keys, now);
        case Diff => members := store.SDiff(keys, now);
      }
    }

    /** The second half of the three commands, for any result computed before. */
    method StoreSet(dest: string, members: seq<string>, now: int)
      requires Valid()
      modifies store, aof
      ensures Valid()
      ensures var gone := Keyspace.Del(old(store.Abs()), [dest], now).db;
              store.Abs() == if members == [] then gone else Keyspace.SAdd(gone, dest, members, now).db
      ensures aof.log == old(aof.log) + [VerbRecord(VDel([dest]), t)] + if members == [] then []
                else [VerbRecord(VSAdd(dest, members), t)]
    {
      hide Plain, Faithful, Backed, Replays, View, Disjoint, WellFormed, Loaded, Restored, Decode, Dumps,
        Keyspace.Del, Keyspace.SAdd, VerbRecord;
      ghost var before := store.Abs();
      DelReplays(before, [dest], t, now);
      var _ := store.Del([dest], now);
      Follow(VerbRecord(VDel([dest]), t), before);
      if members != [] { AddStored(dest, members, now); }
    }

    method AddStored(dest: string, members: seq<string>, now: int)
      requires Valid() && members != []
      modifies store, aof
      ensures Valid() && store.Abs() == Keyspace.SAdd(old(store.Abs()), dest, members, now).db
      ensures aof.log == old(aof.log) + [VerbRecord(VSAdd(dest, members), t)]
    {
      hide Plain, Faithful, Backed, Replays, View, Disjoint, WellFormed, Loaded, Restored, Decode, Dumps,
        Keyspace.SAdd, VerbRecord;
      ghost var before := store.Abs();
      SAddReplays(before, dest, members, t, now);
      var _ := store.SAdd(dest, members, now);
      Follow(VerbRecord(VSAdd(dest, members), t), before);
    }

    /**
     * SAVE: the snapshot takes over from the log, which is truncated. The file is JSON, so nothing
     * is lost exactly when every key and every string stored is valid UTF-8.
     */
    method Save() returns (ghost dumped: Snapshot)
      requires Valid()
      modifies this, aof
      ensures Valid() && aof.log == [] && store.Abs() == old(store.Abs())
      ensures Dumps(store.Typed(), dumped) && snapshot == Written(dumped)
      ensures Recoverable(snapshot, aof.log, t, store.Abs()) <==> TextData(store.Abs().vals)
      ensures intact <==> TextData(store.Abs().vals)
      ensures Restored(snapshot).vals == map[] <==> store.Abs().vals == map[]
    {
      hide Faithful, Backed, Recoverable, View, Disjoint, WellFormed, Loaded, Restored, Decode, Dumps, Written,
        TextData;
      var s := Dump(store.Typed());
      SavedIffText(store.Typed(), s, store.Abs(), t);
      WrittenEmpty(store.Typed(), s);
      snapshot, intact, dumped := Written(s), TextData(store.Abs().vals), s;
      aof.Reset();
    }

    /** FLUSHDB truncates the log but leaves the snapshot: recovery stays right exactly when that is empty. */
    method FlushAll()
      requires Valid()
      modifies this, store, aof
      ensures Valid() && store.Abs() == NoData && aof.log == [] && snapshot == old(snapshot)
      ensures Recoverable(snapshot, aof.log, t, store.Abs()) <==> Restored(snapshot).vals == map[]
      ensures intact <==> Restored(snapshot).vals == map[]
    {
      hide View, Disjoint, WellFormed, Loaded, Faithful, Restored, Decode, Backed, Recoverable, Replay;
      store.Clear();
      aof.Reset();
      AfterFlush(snapshot, t);
      intact := Restored(snapshot).vals == map[];
    }

    method Execute(cmd: Command, now: int)
      requires Valid() && Dispatched(cmd, t)
      modifies this, store, aof
      ensures Valid() && Effect(cmd, old(store.Abs()), store.Abs(), t.round, now)
      ensures cmd.SaveNow? ==> (intact <==> TextData(store.Abs().vals))
      ensures cmd.SaveNow? ==> (Restored(snapshot).vals == map[] <==> store.Abs().vals == map[])
      ensures cmd.FlushNow? ==> (intact <==> Restored(snapshot).vals == map[])
      ensures !cmd.SaveNow? && !cmd.FlushNow? ==> intact == old(intact)
      ensures !cmd.SaveNow? ==> snapshot == old(snapshot)
    {
      hide Plain, Faithful, Backed, Recoverable, View, Disjoint, WellFormed, Loaded, Restored, TextData, Dispatched;
      if OnText(cmd) { ExecuteText(cmd, now); return; }
      if OnContainer(cmd) { ExecuteContainer(cmd, now); return; }
      if OnMembers(cmd) { ExecuteMembers(cmd, now); return; }
      match cmd {
        case SaveNow => ghost var _ := Save();
        case FlushNow => FlushAll();
      }
    }

    method ExecuteText(cmd: Command, now: int)
      requires Valid() && Dispatched(cmd, t) && OnText(cmd)
      modifies store, aof
      ensures Valid() && Effect(cmd, old(store.Abs()), store.Abs(), t.round, now)
    {
      hide Plain, Faithful, Backed, View, Disjoint, WellFormed, Loaded, Restored, Upper, NameOf, VerbCmd, Overwrite,
        PutAll, ApplyAll, Keyspace.GetSet, Keyspace.SetRange, Keyspace.Append, Keyspace.GetDel, SetRecord, MSetRecord,
        VerbRecord, NonEmpty, A.FileOf;
      match cmd {
        case SetText(key, value) => SetPlain(key, value, now);
        case SetConditionally(key, value, mustExist) => var _ := SetIf(key, value, mustExist, now);
        case SetMany(pairs) => MSet(pairs, now);
        case SetManyNX(pairs) => var _ := MSetNX(pairs, now);
        case Exchange(key, value) => var _ := GetSet(key, value, now);
        case WriteRange(key, offset, value) => var _ := SetRange(key, offset, value, now);
        case AppendText(key, value) => var _ := AppendTo(key, value, now);
        case TakeText(key) => var _ := GetDel(key, now);
      }
    }

    method ExecuteContainer(cmd: Command, now: int)
      requires Valid() && Dispatched(cmd, t) && OnContainer(cmd)
      modifies store, aof
      ensures Valid() && Effect(cmd, old(store.Abs()), store.Abs(), t.round, now)
    {
      hide Plain, Faithful, Backed, View, Disjoint, WellFormed, Loaded, Restored, Apply, Upper, NameOf, VerbCmd, Asks,
        WellFormedVerb, Admitted, VerbOp, VerbArgs, VerbKey, HeldIn, Keyspace.HSet, Keyspace.HSetNX, Keyspace.Copy,
        Keyspace.LMove;
      match cmd {
        case Logged(spelling, v) => var _, _ := Sent(spelling, v, now);
        case SetHash(key, pairs) => var _ := HSet(key, pairs, now);
        case SetHashNX(key, field, value) => var _ := HSetNX(key, field, value, now);
        case CopyTo(spelling, src, dst, options) => var _ := CopyKey(spelling, src, dst, options, now);
        case MoveItem(src, dst, srcLeft, dstLeft) => var _ := LMove(src, dst, srcLeft, dstLeft, now);
      }
    }

    method ExecuteMembers(cmd: Command, now: int)
      requires Valid() && OnMembers(cmd)
      modifies store, aof
      ensures Valid() && Effect(cmd, old(store.Abs()), store.Abs(), t.round, now)
    {
      hide Plain, Faithful, Backed, View, Disjoint, WellFormed, Loaded, Restored, Keyspace.SRem, Keyspace.ZIncrBy,
        Keyspace.ZPop, VerbRecord, Other, SetAt, SetOf, NonEmpty, A.FileOf, SA.Refused, SA.Combined, SA.StoredSet;
      match cmd {
        case PopMembers(key, count) => var _, _ := SPop(key, count, now);
        case AddToScore(key, incr, member) => var _ := ZIncrBy(key, incr, member, now);
        case PopRanked(key, count, lowest) => var _ := ZPop(key, count, lowest, now);
        case StoreResult(how, dest, keys) => var _ := CombineSets(how, dest, keys, now);
      }
    }

    /**
     * Any run of commands, snapshots and flushes, at any times: the data is recoverable if the last
     * snapshot or flush was harmless, which depends on the data at that moment as IntactAfter says.
     * With valid UTF-8 in the arguments, and neither SETRANGE nor FLUSHDB among the commands, it
     * always is.
     */
    method Serve(cmds: seq<Command>, times: seq<int>) returns (ghost states: seq<Db>)
      requires Valid() && |times| == |cmds| && forall i :: 0 <= i < |cmds| ==> Dispatched(cmds[i], t)
      modifies this, store, aof
      ensures Valid() && IsRun(cmds, times, t.round, states) && states[0] == old(store.Abs())
      ensures states[|cmds|] == store.Abs()
      ensures intact <==> IntactAfter(old(intact), Restored(old(snapshot)).vals == map[], cmds, states)
      ensures intact ==> Recoverable(snapshot, aof.log, t, store.Abs())
      ensures old(intact) && TextData(old(store.Abs()).vals) && AllTextual(cmds) ==>
                intact && TextData(store.Abs().vals)
    {
      hide Plain, Faithful, Backed, View, Disjoint, WellFormed, Loaded, Restored, Dispatched, TextData, TextCommand,
        Effect, Recoverable, IsRun, IntactAfter, EmptyAfter, AllTextual, Traced;
      states := [store.Abs()];
      ghost var was, empty := intact, Restored(snapshot).vals == map[];
      NothingTraced(was, empty, t.round, store.Abs());
      for i := 0 to |cmds|
        invariant Valid() && |states| == i + 1 && states[0] == old(store.Abs()) && states[i] == store.Abs()
        invariant Traced(was, empty, cmds[..i], times[..i], t.round, states, intact, Restored(snapshot).vals == map[])
      {
        ghost var before := Restored(snapshot).vals == map[];
        ghost var harmless := intact;
        Execute(cmds[i], times[i]);
        TracedMore(
          was, empty, cmds[..i], cmds[i], times[..i], times[i], t.round, states, store.Abs(), harmless, before, intact,
          Restored(snapshot).vals == map[]);
        assert cmds[..i + 1] == cmds[..i] + [cmds[i]] && times[..i + 1] == times[..i] + [times[i]];
        states := states + [store.Abs()];
      }
      assert cmds[..|cmds|] == cmds && times[..|times|] == times;
      TracedMeans(was, empty, cmds, times, t.round, states, intact, Restored(snapshot).vals == map[]);
      BackedMeans(intact, snapshot, aof.log, t, store.Abs());
    }
  }

  predicate OnText(cmd: Command) {
    cmd.SetText? || cmd.SetConditionally? || cmd.SetMany? || cmd.SetManyNX? || cmd.Exchange? || cmd.WriteRange? ||
      cmd.AppendText? || cmd.TakeText?
  }

  predicate OnContainer(cmd: Command) {
    cmd.Logged? || cmd.SetHash? || cmd.SetHashNX? || cmd.CopyTo? || cmd.MoveItem?
  }

  predicate OnMembers(cmd: Command) { cmd.PopMembers? || cmd.AddToScore? || cmd.PopRanked? || cmd.StoreResult? }

  /** What a command does to the data, whatever it logs. */
  ghost predicate Effect(cmd: Command, before: Db, after: Db, round: real -> real, now: int) {
    match cmd
    case Logged(_, v) => after == Apply(before, VerbOp(v), now).db
    case SetText(key, value) => after == Overwrite(before, key, value, None)
    case SetConditionally(key, value, mustExist) =>
      after == if (key in before.vals) == mustExist then Overwrite(before, key, value, None) else before
    case SetMany(pairs) => after == ApplyAll(before, SetOps(pairs), now)
    case SetManyNX(pairs) =>
      after == if forall i :: 0 <= i < |pairs| ==> pairs[i].0 !in before.vals then PutAll(before, pairs) else before
    case Exchange(key, value) => after == GetSet(before, key, value, now).db
    case WriteRange(key, offset, value) => after == SetRange(before, key, offset, value, now).db
    case AppendText(key, value) => after == Append(before, key, value, now).db
    case TakeText(key) => after == GetDel(before, key, now).db
    case SetHash(key, pairs) => after == HSet(before, key, pairs, now).db
    case SetHashNX(key, field, value) => after == HSetNX(before, key, field, value, now).db
    case CopyTo(_, src, dst, options) => after == Copy(before, src, dst, Asks(options), now).db
    case PopMembers(key, _) => after == before || exists popped :: after == SRem(before, key, popped, now).db
    case AddToScore(key, incr, member) => after == ZIncrBy(before, key, incr, member, round, now).db
    case PopRanked(key, count, lowest) => after == ZPop(before, key, count, lowest, now).db
    case MoveItem(src, dst, srcLeft, dstLeft) => after == LMove(before, src, dst, srcLeft, dstLeft, now).db
    case StoreResult(how, dest, keys) =>
      after == if keys == [] || SA.Refused(before, how, keys, now) then before
        else SA.StoredSet(before, dest, SA.Combined(how, SA.Operands(before, keys, now)), now)
    case SaveNow => after == before
    case FlushNow => after == NoData
  }

  /** The snapshot is empty: there was nothing in the data at the last SAVE, or there was none and it was before. */
  ghost predicate EmptyAfter(was: bool, cmds: seq<Command>, states: seq<Db>)
    requires |states| == |cmds| + 1
  {
    if cmds == [] then was
    else if cmds[|cmds| - 1].SaveNow? then states[|cmds|].vals == map[]
    else EmptyAfter(was, cmds[..|cmds| - 1], states[..|cmds|])
  }

  /**
   * The last SAVE or FLUSHDB was harmless: all data was valid UTF-8 at the SAVE, or the snapshot was
   * empty at the FLUSHDB.
   */
  ghost predicate IntactAfter(was: bool, empty: bool, cmds: seq<Command>, states: seq<Db>)
    requires |states| == |cmds| + 1
  {
    if cmds == [] then was
    else
      var n := |cmds|;
      if cmds[n - 1].SaveNow? then TextData(states[n].vals)
      else if cmds[n - 1].FlushNow? then EmptyAfter(empty, cmds[..n - 1], states[..n])
      else IntactAfter(was, empty, cmds[..n - 1], states[..n])
  }

  /** The last SAVE or FLUSHDB of a run decides; the run's own start does if it has neither. */
  lemma {:induction false} LastDecides(was: bool, empty: bool, cmds: seq<Command>, states: seq<Db>, i: int)
    requires |states| == |cmds| + 1 && -1 <= i < |cmds|
    requires i >= 0 ==> cmds[i].SaveNow? || cmds[i].FlushNow?
    requires forall j :: i < j < |cmds| ==> !cmds[j].SaveNow? && !cmds[j].FlushNow?
    ensures IntactAfter(was, empty, cmds, states) <==>
              if i < 0 then was
              else if cmds[i].SaveNow? then TextData(states[i + 1].vals)
              else EmptyAfter(empty, cmds[..i], states[..i + 1])
    decreases |cmds|
  {
    hide TextData;
    if i < |cmds| - 1 {
      var n := |cmds| - 1;
      LastDecides(was, empty, cmds[..n], states[..n + 1], i);
      if i >= 0 { assert cmds[..n][..i] == cmds[..i] && states[..n + 1][..i + 1] == states[..i + 1]; }
    }
  }

  /** The last SAVE of a run decides what the snapshot holds. */
  lemma {:induction false} LastSaved(empty: bool, cmds: seq<Command>, states: seq<Db>, i: int)
    requires |states| == |cmds| + 1 && -1 <= i < |cmds|
    requires i >= 0 ==> cmds[i].SaveNow?
    requires forall j :: i < j < |cmds| ==> !cmds[j].SaveNow?
    ensures EmptyAfter(empty, cmds, states) <==> if i < 0 then empty else states[i + 1].vals == map[]
    decreases |cmds|
  {
    if i < |cmds| - 1 {
      var n := |cmds| - 1;
      LastSaved(empty, cmds[..n], states[..n + 1], i);
    }
  }

  /** A run so far, with the condition of the snapshot and whether it is empty. */
  ghost predicate Traced(
      was: bool, empty: bool, cmds: seq<Command>, times: seq<int>, round: real -> real, states: seq<Db>, intact: bool,
      isEmpty: bool)
  {
    && IsRun(cmds, times, round, states)
    && (intact <==> IntactAfter(was, empty, cmds, states)) && (isEmpty <==> EmptyAfter(empty, cmds, states))
  }

  lemma NothingTraced(was: bool, empty: bool, round: real -> real, db: Db)
    ensures Traced(was, empty, [], [], round, [db], was, empty)
  {}

  lemma TracedMore(
      was: bool, empty: bool, cmds: seq<Command>, cmd: Command, times: seq<int>, now: int, round: real -> real,
      states: seq<Db>, after: Db, intact: bool, isEmpty: bool, intact': bool, isEmpty': bool)
    requires Traced(was, empty, cmds, times, round, states, intact, isEmpty)
    requires Effect(cmd, states[|cmds|], after, round, now)
    requires intact' <==>
               if cmd.SaveNow? then TextData(after.vals) else if cmd.FlushNow? then isEmpty else intact
    requires isEmpty' <==> if cmd.SaveNow? then after.vals == map[] else isEmpty
    ensures Traced(was, empty, cmds + [cmd], times + [now], round, states + [after], intact', isEmpty')
  {
    hide TextData, Effect;
    assert (cmds + [cmd])[..|cmds|] == cmds && (states + [after])[..|states|] == states;
  }

  lemma TracedMeans(
      was: bool, empty: bool, cmds: seq<Command>, times: seq<int>, round: real -> real, states: seq<Db>, intact: bool,
      isEmpty: bool)
    requires Traced(was, empty, cmds, times, round, states, intact, isEmpty)
    ensures IsRun(cmds, times, round, states) && (intact <==> IntactAfter(was, empty, cmds, states))
    ensures was && TextData(states[0].vals) && AllTextual(cmds) ==> intact && TextData(states[|cmds|].vals)
  {
    hide TextData, Effect, TextCommand;
    if was && TextData(states[0].vals) && AllTextual(cmds) { TextRun(empty, cmds, times, round, states); }
  }

  /** Valid UTF-8, without SETRANGE and FLUSHDB, keeps the data and the snapshot harmless throughout. */
  lemma {:induction false} TextRun(
      empty: bool, cmds: seq<Command>, times: seq<int>, round: real -> real, states: seq<Db>)
    requires IsRun(cmds, times, round, states) && TextData(states[0].vals) && AllTextual(cmds)
    ensures IntactAfter(true, empty, cmds, states) && TextData(states[|cmds|].vals)
    decreases |cmds|
  {
    hide Effect, TextData, TextCommand;
    if cmds != [] {
      var n := |cmds| - 1;
      TextRun(empty, cmds[..n], times[..n], round, states[..n + 1]);
      EffectIsText(cmds[n], states[n], states[n + 1], round, times[n]);
      NoFlush(cmds[n]);
    }
  }

  lemma BackedMeans(intact: bool, s: Snapshot, log: seq<seq<string>>, t: Texts, db: Db)
    requires Backed(intact, s, log, t, db)
    ensures intact ==> Recoverable(s, log, t, db)
  {}

  ghost predicate IsRun(cmds: seq<Command>, times: seq<int>, round: real -> real, states: seq<Db>) {
    && |times| == |cmds| && |states| == |cmds| + 1
    && forall i :: 0 <= i < |cmds| ==> Effect(cmds[i], states[i], states[i + 1], round, times[i])
  }

  /** What the command may store is valid UTF-8, and it is neither SETRANGE nor FLUSHDB. */
  predicate TextCommand(cmd: Command) {
    match cmd
    case Logged(_, v) => TextOp(VerbOp(v))
    case SetText(key, value) => J.IsText(key) && J.IsText(value)
    case SetConditionally(key, value, _) => J.IsText(key) && J.IsText(value)
    case SetMany(pairs) => TextPairs(pairs)
    case SetManyNX(pairs) => TextPairs(pairs)
    case Exchange(key, value) => J.IsText(key) && J.IsText(value)
    case WriteRange(_, _, _) => false
    case AppendText(key, value) => J.IsText(key) && J.IsText(value)
    case SetHash(key, pairs) => J.IsText(key) && TextPairs(pairs)
    case SetHashNX(key, field, value) => J.IsText(key) && J.IsText(field) && J.IsText(value)
    case CopyTo(_, _, dst, _) => J.IsText(dst)
    case AddToScore(key, _, member) => J.IsText(key) && J.IsText(member)
    case MoveItem(_, dst, _, _) => J.IsText(dst)
    case StoreResult(_, dest, _) => J.IsText(dest)
    case FlushNow => false
    case _ => true
  }

  ghost predicate AllTextual(cmds: seq<Command>) { forall i :: 0 <= i < |cmds| ==> TextCommand(cmds[i]) }

  lemma NoFlush(cmd: Command)
    ensures TextCommand(cmd) ==> !cmd.FlushNow?
  {}

  lemma {:induction false} SetOpsText(db: Db, pairs: seq<(string, string)>, now: int)
    requires TextData(db.vals) && TextPairs(pairs)
    ensures TextData(ApplyAll(db, SetOps(pairs), now).vals)
    decreases |pairs|
  {
    hide TextData, J.IsText, Overwrite;
    if pairs != [] {
      assert SetOps(pairs)[1..] == SetOps(pairs[1..]);
      OverwriteText(db, pairs[0].0, pairs[0].1, None);
      SetOpsText(Overwrite(db, pairs[0].0, pairs[0].1, None), pairs[1..], now);
    }
  }

  /** A command of valid UTF-8 keeps the data valid UTF-8. */
  lemma EffectIsText(cmd: Command, before: Db, after: Db, round: real -> real, now: int)
    requires Effect(cmd, before, after, round, now) && TextData(before.vals) && TextCommand(cmd)
    ensures TextData(after.vals)
  {
    hide TextData, J.IsText, J.AllText, TextPairs, TextOp, Apply, Overwrite, PutAll, ApplyAll, SetOps, GetSet,
      SetRange, Append, GetDel, HSet, HSetNX, Copy, SRem, ZIncrBy, ZPop, LMove, SAdd, Del, Admitted, VerbOp, VerbKey,
      HeldIn, Asks, SA.Refused, SA.Combined, SA.StoredSet;
    match cmd {
      case Logged(_, v) => TextStays(before, VerbOp(v), now);
      case SetText(key, value) => OverwriteText(before, key, value, None);
      case SetConditionally(key, value, _) => OverwriteText(before, key, value, None);
      case SetMany(pairs) => SetOpsText(before, pairs, now);
      case SetManyNX(pairs) => PutAllText(before, pairs);
      case Exchange(key, value) => StringsText(before, key, value, 0, None, now);
      case AppendText(key, value) => TextualData.AppendText(before, key, value, now);
      case TakeText(key) => GetDelText(before, key, now);
      case SetHash(key, pairs) => HSetText(before, key, pairs, now);
      case SetHashNX(key, field, value) => HashesText(before, key, field, value, 0, now);
      case CopyTo(_, src, dst, options) => KeysText(before, src, dst, Asks(options), [], None, now);
      case PopMembers(key, _) =>
        if after != before {
          var popped :| after == SRem(before, key, popped, now).db;
          SetsText(before, key, popped, now);
        }
      case AddToScore(key, incr, member) => ZIncrByText(before, key, incr, member, round, now);
      case PopRanked(key, count, lowest) => ZPopsText(before, key, [], count, lowest, now);
      case MoveItem(src, dst, srcLeft, dstLeft) => LMoveText(before, src, dst, srcLeft, dstLeft, now);
      case StoreResult(how, dest, keys) => CombinedText(before, how, dest, keys, now);
      case _ =>
    }
  }

  datatype Command =
    | Logged(spelling: string, verb: Verb)
    | SetText(key: string, value: string)
    | SetConditionally(key: string, value: string, mustExist: bool)
    | SetMany(pairs: seq<(string, string)>)
    | SetManyNX(pairs: seq<(string, string)>)
    | Exchange(key: string, value: string)
    | WriteRange(key: string, offset: int, value: string)
    | AppendText(key: string, value: string)
    | TakeText(key: string)
    | SetHash(key: string, pairs: seq<(string, string)>)
    | SetHashNX(key: string, field: string, value: string)
    | CopyTo(spelling: string, src: string, dst: string, options: seq<string>)
    | PopMembers(key: string, count: int)
    | AddToScore(key: string, incr: real, member: string)
    | PopRanked(key: string, count: int, lowest: bool)
    | MoveItem(src: string, dst: string, srcLeft: bool, dstLeft: bool)
    | StoreResult(how: SA.Algebra, dest: string, keys: seq<string>)
    | SaveNow
    | FlushNow

  /** The command reached its handler: its name matches and its argument count is right. */
  predicate Dispatched(cmd: Command, t: Texts) {
    match cmd
    case Logged(spelling, v) => WellFormedVerb(v, t) && Upper(spelling) == NameOf(VerbCmd(v))
    case SetMany(pairs) => pairs != []
    case SetManyNX(pairs) => pairs != []
    case SetHash(_, pairs) => pairs != []
    case CopyTo(spelling, _, _, _) => Upper(spelling) == "COPY"
    case _ => true
  }

  lemma AfterFlush(s: Snapshot, t: Texts)
    ensures Recoverable(s, [], t, NoData) <==> Restored(s).vals == map[]
    ensures Backed(Restored(s).vals == map[], s, [], t, NoData)
  {
    hide Loaded, View;
    assert Replay(Restored(s), [], t, 0) == Restored(s);
    ViewKeys(Loaded(s));
  }

  lemma SetReplays(db: Db, key: string, value: string, t: Texts, now: int)
    requires Plain(db) && Faithful(t)
    ensures Replays(db, [SetRecord(key, value)], t, Overwrite(db, key, value, None))
    ensures Plain(Overwrite(db, key, value, None))
  {
    hide Plain, Faithful, Replays, SetRecord, Decode, Overwrite;
    DecodeSetRecord(key, value, t);
    OpReplays(db, SetRecord(key, value), DoSetAbsolute(key, value, None), t, now);
  }

  lemma HSetReplays(db: Db, key: string, pairs: seq<(string, string)>, t: Texts, now: int)
    requires Plain(db) && pairs != []
    ensures Replays(db, [HSetRecord(key, pairs)], t, HSet(db, key, pairs, now).db)
    ensures Plain(HSet(db, key, pairs, now).db)
    ensures HSetRecord(key, pairs) != []
    ensures Other(db, key, Hash(map[])) ==> HSet(db, key, pairs, now) == Outcome(db, WrongType)
  {
    hide Replays, Decode, SetFields;
    DecodeHSetRecord(key, pairs, t);
    OpReplays(db, HSetRecord(key, pairs), DoHSet(key, pairs), t, now);
    PurgePlain(db, key, now);
  }

  lemma AppendReplays(db: Db, key: string, value: string, t: Texts, now: int)
    requires Plain(db)
    ensures Replays(db, [["APPEND", key, value]], t, Append(db, key, value, now).db)
    ensures Plain(Append(db, key, value, now).db)
    ensures !Append(db, key, value, now).reply.Int? ==> Append(db, key, value, now).db == db
  {
    hide Replays, Decode;
    DecodeAppendRecord(key, value, t);
    OpReplays(db, ["APPEND", key, value], DoAppend(key, value), t, now);
    PurgePlain(db, key, now);
  }

  lemma GetDelReply(db: Db, key: string, now: int)
    requires Plain(db)
    ensures Plain(GetDel(db, key, now).db)
  {}

  lemma CopyReplays(db: Db, spelling: string, src: string, dst: string, options: seq<string>, t: Texts, now: int)
    requires Plain(db) && Upper(spelling) == "COPY"
    ensures Replays(db, [[spelling, src, dst] + options], t, Copy(db, src, dst, Asks(options), now).db)
    ensures Plain(Copy(db, src, dst, Asks(options), now).db)
    ensures Copy(db, src, dst, Asks(options), now).reply != Bool(true) ==>
              Copy(db, src, dst, Asks(options), now).db == db
  {
    hide Replays, Decode, Asks, Upper;
    DecodeCopyRecord(spelling, src, dst, options, t);
    OpReplays(db, [spelling, src, dst] + options, DoCopy(src, dst, Asks(options)), t, now);
    PurgePlain(db, src, now);
    PurgePlain(db, dst, now);
  }

  lemma DelReplays(db: Db, keys: seq<string>, t: Texts, now: int)
    requires Plain(db) && Faithful(t) && keys != []
    ensures Replays(db, [VerbRecord(VDel(keys), t)], t, Del(db, keys, now).db) && Plain(Del(db, keys, now).db)
    ensures VerbRecord(VDel(keys), t) != []
  {
    hide Plain, Faithful, Replays, Del, VerbArgs;
    VerbReplays(db, VDel(keys), t, now);
  }

  lemma SAddReplays(db: Db, key: string, members: seq<string>, t: Texts, now: int)
    requires Plain(db) && Faithful(t) && members != []
    ensures Replays(db, [VerbRecord(VSAdd(key, members), t)], t, SAdd(db, key, members, now).db)
    ensures Plain(SAdd(db, key, members, now).db) && VerbRecord(VSAdd(key, members), t) != []
  {
    hide Plain, Faithful, Replays, SAdd, VerbArgs;
    VerbReplays(db, VSAdd(key, members), t, now);
  }

  lemma SRemReplays(db: Db, key: string, members: seq<string>, t: Texts, now: int)
    requires Plain(db) && Faithful(t) && members != []
    ensures Replays(db, [VerbRecord(VSRem(key, members), t)], t, SRem(db, key, members, now).db)
    ensures Plain(SRem(db, key, members, now).db) && VerbRecord(VSRem(key, members), t) != []
  {
    hide Plain, Faithful, Replays, SRem, VerbArgs;
    VerbReplays(db, VSRem(key, members), t, now);
  }

  lemma ZAddReplays(db: Db, key: string, scored: seq<Z.ZMember>, t: Texts, now: int)
    requires Plain(db) && Faithful(t) && scored != [] && AllFloats(scored, t)
    ensures Replays(db, [VerbRecord(VZAdd(key, scored), t)], t, ZAdd(db, key, scored, now).db)
    ensures Plain(ZAdd(db, key, scored, now).db) && VerbRecord(VZAdd(key, scored), t) != []
  {
    hide Plain, Faithful, Replays, ZAdd, VerbArgs;
    VerbReplays(db, VZAdd(key, scored), t, now);
  }

  lemma SumsAreFloats(db: Db, key: string, incr: real, member: string, t: Texts, now: int)
    requires Faithful(t)
    ensures var r := ZIncrBy(db, key, incr, member, t.round, now).reply;
            r.Score? ==> AllFloats([Z.ZMember(member, r.x)], t)
  {}

  lemma ZRemReplays(db: Db, key: string, members: seq<string>, t: Texts, now: int)
    requires Plain(db) && Faithful(t) && members != []
    ensures Replays(db, [VerbRecord(VZRem(key, members), t)], t, ZRem(db, key, members, now).db)
    ensures Plain(ZRem(db, key, members, now).db) && VerbRecord(VZRem(key, members), t) != []
  {
    hide Plain, Faithful, Replays, ZRem, VerbArgs;
    VerbReplays(db, VZRem(key, members), t, now);
  }

  lemma LMoveReplays(before: Db, between: Db, src: string, dst: string, srcLeft: bool, dstLeft: bool, val: string,
      t: Texts, now: int)
    requires Plain(before) && Faithful(t) && between == Pop(before, src, srcLeft, now).db
    ensures Replays(before, [VerbRecord(VPop(src, srcLeft), t)], t, between)
    ensures Replays(between, [VerbRecord(VPush(dst, dstLeft, [val]), t)], t, Push(between, dst, dstLeft, [val], now).db)
    ensures Plain(Push(between, dst, dstLeft, [val], now).db)
    ensures VerbRecord(VPop(src, srcLeft), t) != [] && VerbRecord(VPush(dst, dstLeft, [val]), t) != []
  {
    hide Plain, Faithful, Replays, VerbRecord, Pop, Push;
    VerbReplays(before, VPop(src, srcLeft), t, now);
    VerbReplays(between, VPush(dst, dstLeft, [val]), t, now);
    VerbRecordNonEmpty(VPop(src, srcLeft), t);
    VerbRecordNonEmpty(VPush(dst, dstLeft, [val]), t);
  }

  lemma RecordsNonEmpty(key: string, value: string)
    ensures SetRecord(key, value) != []
  {}

  lemma MSetRecordNonEmpty(pairs: seq<(string, string)>)
    ensures MSetRecord(pairs) != []
  {}

  lemma VerbRecordNonEmpty(v: Verb, t: Texts)
    ensures VerbRecord(v, t) != []
  {}

  /** The snapshot brings the data back exactly when all of it is valid UTF-8. */
  lemma SavedIffText(m: Maps, d: Snapshot, db: Db, t: Texts)
    requires Dumps(m, d) && Disjoint(m) && db == Db(View(m), map[], map[]) && WellFormed(db)
    ensures Recoverable(Written(d), [], t, db) <==> TextData(db.vals)
    ensures Backed(TextData(db.vals), Written(d), [], t, db)
  {
    hide Dumps, Loaded, View, Disjoint, Written, TextData, TextMaps, WellFormed;
    var s := Written(d);
    assert Replay(Restored(s), [], t, 0) == Restored(s);
    WrittenIsText(d);
    ViewIsText(Loaded(s));
    if TextData(db.vals) {
      MapsAreText(m);
      TextIsWritten(m, d);
      LoadUndoesDump(m, d);
      NothingToReplay(db, t);
    }
  }

  method Dump(m: Maps) returns (s: Snapshot)
    ensures Dumps(m, s)
  {
    var sets := DumpSets(m.sets);
    var zsets := DumpZSets(m.zsets);
    s := Snapshot(m.kv, m.hashes, m.lists, sets, zsets, m.streams);
  }

  method DumpSets(sets: map<string, set<string>>) returns (r: map<string, seq<string>>)
    ensures r.Keys == sets.Keys && forall k :: k in sets ==> SetOf(r[k]) == sets[k]
  {
    hide SetOf;
    r := map[];
    var todo := sets.Keys;
    while todo != {}
      invariant todo <= sets.Keys && r.Keys == sets.Keys - todo && forall k :: k in r ==> SetOf(r[k]) == sets[k]
      decreases |todo|
    {
      var k :| k in todo;
      todo := todo - {k};
      var list := ListOf(sets[k]);
      r := r[k := list];
    }
  }

  method ListOf(m: set<string>) returns (list: seq<string>)
    ensures SetOf(list) == m
  {
    list := [];
    var todo := m;
    while todo != {}
      invariant todo <= m && SetOf(list) == m - todo
      decreases |todo|
    {
      var x :| x in todo;
      assert SetOf(list + [x]) == SetOf(list) + {x};
      todo, list := todo - {x}, list + [x];
    }
  }

  method DumpZSets(zsets: map<string, map<string, real>>) returns (r: map<string, seq<Z.ZMember>>)
    ensures r.Keys == zsets.Keys && forall k :: k in zsets ==> r[k] == Z.Listing(zsets[k])
  {
    hide Z.Listing;
    r := map[];
    var todo := zsets.Keys;
    while todo != {}
      invariant todo <= zsets.Keys && r.Keys == zsets.Keys - todo && forall k :: k in r ==> r[k] == Z.Listing(zsets[k])
      decreases |todo|
    {
      var k :| k in todo;
      todo := todo - {k};
      var zs := new Z.SortedSet.Of(zsets[k]);
      r := r[k := zs.ordered];
    }
  }

  lemma EmptySnapshot()
    ensures var s := Snapshot(map[], map[], map[], map[], map[], map[]);
            Loaded(s) == Maps(map[], map[], map[], map[], map[], map[]) && Disjoint(Loaded(s))
            && Restored(s) == Db(map[], map[], map[]) && WellFormed(Restored(s))
  {
    var s := Snapshot(map[], map[], map[], map[], map[], map[]);
    assert Loaded(s) == Maps(map[], map[], map[], map[], map[], map[]);
    assert View(Loaded(s)) == map[];
  }

  lemma VerbIsTimeless(v: Verb)
    ensures Timeless(VerbOp(v))
  {}

  // ----- restarting -----

  method LoadMaps(s: Snapshot) returns (m: Maps)
    ensures m == Loaded(s)
  {
    var sets := LoadSets(s.sets);
    var zsets := LoadZSets(s.zsets);
    m := Maps(s.kv, s.hashes, s.lists, sets, zsets, s.streams);
    assert sets == map k | k in s.sets :: SetOf(s.sets[k]);
    assert zsets == map k | k in s.zsets :: AddScores(map[], s.zsets[k]);
  }

  method LoadSets(sets: map<string, seq<string>>) returns (r: map<string, set<string>>)
    ensures r.Keys == sets.Keys && forall k :: k in sets ==> r[k] == SetOf(sets[k])
  {
    hide SetOf;
    r := map[];
    var todo := sets.Keys;
    while todo != {}
      invariant todo <= sets.Keys && r.Keys == sets.Keys - todo && forall k :: k in r ==> r[k] == SetOf(sets[k])
      decreases |todo|
    {
      var k :| k in todo;
      todo := todo - {k};
      var m, _ := AddMembers({}, sets[k]);
      assert {} + SetOf(sets[k]) == SetOf(sets[k]);
      r := r[k := m];
    }
  }

  method LoadZSets(zsets: map<string, seq<Z.ZMember>>) returns (r: map<string, map<string, real>>)
    ensures r.Keys == zsets.Keys && forall k :: k in zsets ==> r[k] == AddScores(map[], zsets[k])
  {
    hide AddScores;
    r := map[];
    var todo := zsets.Keys;
    while todo != {}
      invariant todo <= zsets.Keys && r.Keys == zsets.Keys - todo
      invariant forall k :: k in r ==> r[k] == AddScores(map[], zsets[k])
      decreases |todo|
    {
      var k :| k in todo;
      todo := todo - {k};
      var z, _ := AssignScores(map[], zsets[k]);
      r := r[k := z];
    }
  }

  /** LoadSnapshot, then ReplayAOF over the lines of the file. */
  method Restart(s: Snapshot, file: string, crc: string -> A.Word, t: Texts, now: int) returns (st: Store)
    requires Disjoint(Loaded(s)) && WellFormed(Restored(s))
    ensures fresh(st) && st.Valid() && st.Abs() == Replay(Restored(s), A.Records(file, crc), t, now)
  {
    hide Loaded, View, Disjoint, WellFormed, Decode, ApplyAll, A.ScanLines, A.DecodeLine;
    st := new Store();
    var m := LoadMaps(s);
    st.Load(m);
    var lines := A.ScanLines(file);
    assert lines[0..] == lines;
    for i := 0 to |lines|
      invariant fresh(st) && st.Valid()
      invariant Replay(st.Abs(), A.GoodRecords(lines[i..], crc), t, now) ==
                  Replay(Restored(s), A.Records(file, crc), t, now)
    {
      assert lines[i..][1..] == lines[i + 1..];
      var parsed := A.VerifyAndParseLine(lines[i], crc);
      if parsed.Good? {
        ghost var rest := A.GoodRecords(lines[i + 1..], crc);
        assert ([parsed.args] + rest)[1..] == rest;
        ExecAll(st, Decode(parsed.args, t), now);
      }
    }
  }

  method ExecAll(st: Store, ops: seq<Op>, now: int)
    requires st.Valid()
    modifies st
    ensures st.Valid() && st.Abs() == ApplyAll(old(st.Abs()), ops, now)
  {
    hide Apply, View, Disjoint, WellFormed;
    assert ops[0..] == ops;
    for i := 0 to |ops|
      invariant st.Valid() && ApplyAll(st.Abs(), ops[i..], now) == ApplyAll(old(st.Abs()), ops, now)
    {
      assert ops[i..][1..] == ops[i + 1..];
      var _ := st.Exec(ops[i], now);
    }
  }

  /**
   * Recovery: between any two commands, at any later time, a restart from the snapshot and the
   * bytes of the log file rebuilds the live data, if the last snapshot or flush was harmless and no
   * argument logged since spells out `\n` or `\t`.
   */
  method CrashAndRestart(srv: Server, now: int) returns (st: Store)
    requires srv.Valid() && srv.intact && forall i :: 0 <= i < |srv.aof.log| ==> A.SafeCommand(srv.aof.log[i])
    ensures fresh(st) && st.Valid() && st.Abs() == srv.store.Abs()
    ensures st.Abs() == Replay(Restored(srv.snapshot), A.Records(srv.aof.file, srv.aof.crc), srv.t, now)
  {
    hide Loaded, View, Disjoint, WellFormed, Replay, Restored, A.Records, A.FileOf, A.SafeCommand, Faithful, Plain;
    A.FileRoundTrip(srv.aof.log, srv.aof.crc);
    A.MangleAllSafe(srv.aof.log);
    st := Restart(srv.snapshot, srv.aof.file, srv.aof.crc, srv.t, now);
  }

  /** SET k 0xff, then SAVE: a restart would find the three bytes of U+FFFD. */
  method SaveLosesBytes(t: Texts, crc: string -> A.Word) returns (srv: Server)
    requires Faithful(t)
    ensures srv.Valid() && srv.store.Abs() == Overwrite(NoData, "k", "\U{ff}", None)
    ensures Restored(srv.snapshot) == Overwrite(NoData, "k", J.Replacement, None)
    ensures !Recoverable(srv.snapshot, srv.aof.log, t, srv.store.Abs())
  {
    hide Recoverable, View, Disjoint, WellFormed, Loaded, Restored, Dumps, Written, TextData, Faithful, Backed,
      Overwrite, NonEmpty, A.FileOf, SetRecord;
    srv := new Server(t, crc);
    srv.SetPlain("k", "\U{ff}", 0);
    ghost var dumped := srv.Save();
    ByteIsLost(srv.store.Typed(), dumped);
  }

  lemma ByteIsLost(m: Maps, d: Snapshot)
    requires Dumps(m, d) && Disjoint(m) && View(m) == Overwrite(NoData, "k", "\U{ff}", None).vals
    ensures !TextData(View(m)) && Restored(Written(d)) == Overwrite(NoData, "k", J.Replacement, None)
  {
    hide J.Object, J.Coerce, Disjoint, View, Written, Restored;
    var v := "\U{ff}";
    OnlyString(m, "k", v);
    assert d == Snapshot(map["k" := v], map[], map[], map[], map[], map[]);
    CoerceByte();
    WrittenOne("k", v);
    assert View(m)["k"] == Str(v);
    J.CoerceFixesText(v);
    RestoredOne("k", J.Replacement);
  }

  lemma CoerceByte()
    ensures J.Coerce("\U{ff}") == J.Replacement && J.Coerce("k") == "k"
  {
    var v := "\U{ff}";
    assert U.RuneLen(v) == 0 && v[1..] == "";
    assert U.RuneLen("k") == 1 && "k"[..1] == "k" && "k"[1..] == "";
  }

  lemma OnlyString(m: Maps, k: string, v: string)
    requires Disjoint(m) && View(m) == map[k := Str(v)]
    ensures m == Maps(map[k := v], map[], map[], map[], map[], map[])
  {
    hide View, Disjoint;
    ViewKeys(m);
    ViewAt(m, k);
    HeldIs(m, k);
  }

  lemma WrittenOne(k: string, v: string)
    ensures Written(Snapshot(map[k := v], map[], map[], map[], map[], map[]))
         == Snapshot(map[J.Coerce(k) := J.Coerce(v)], map[], map[], map[], map[], map[])
  {
    hide J.Coerce;
    J.ObjectOne(k, v, J.Coerce);
  }

  lemma RestoredOne(k: string, v: string)
    ensures Restored(Snapshot(map[k := v], map[], map[], map[], map[], map[])) == Db(map[k := Str(v)], map[], map[])
  {
    hide View;
    var m := Loaded(Snapshot(map[k := v], map[], map[], map[], map[], map[]));
    ViewKeys(m);
    ViewAt(m, k);
  }

  /** For a single SET the condition is exact: key and value must be free of the two sequences. */
  lemma SetRecoversIffSafe(key: string, value: string, crc: string -> A.Word, t: Texts, now: int)
    requires Faithful(t)
    ensures Replay(NoData, A.Records(A.FileOf([SetRecord(key, value)], crc), crc), t, now) ==
              Overwrite(NoData, key, value, None)
       <==> A.Safe(key) && A.Safe(value)
  {
    hide A.Records, A.FileOf, A.Mangle, A.Safe, Faithful, Decode, Replay;
    var empty := NoData;
    var k, v := A.Mangle(key), A.Mangle(value);
    A.FileRoundTrip([SetRecord(key, value)], crc);
    MangledSet(key, value);
    A.MangleFixesSafe(key);
    A.MangleFixesSafe(value);
    SetReplays(empty, k, v, t, now);
    assert Replay(empty, [SetRecord(k, v)], t, now) == Overwrite(empty, k, v, None);
    assert Overwrite(empty, k, v, None).vals == map[k := Str(v)];
    assert Overwrite(empty, key, value, None).vals == map[key := Str(value)];
    if map[k := Str(v)] == map[key := Str(value)] { assert key in map[k := Str(v)]; }
  }

  lemma MangledSet(key: string, value: string)
    ensures A.MangleAll([SetRecord(key, value)]) == [SetRecord(A.Mangle(key), A.Mangle(value))]
  {
    var r := SetRecord(key, value);
    assert [r][1..] == [];
    assert A.Mangle("SETABS") == "SETABS" && A.Mangle("0") == "0";
    assert A.Map(A.Mangle, r) == SetRecord(A.Mangle(key), A.Mangle(value));
  }
}
