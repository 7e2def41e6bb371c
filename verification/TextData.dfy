/**
 * Data that is valid UTF-8 throughout (the strings that the snapshot's JSON text keeps, see the
 * module Json), and why it stays so when all arguments of the store calls are: only SETRANGE can
 * cut a character in two.
 */
module TextualData {
  import opened Common
  import opened Decimal
  import opened Json
  import opened Keyspace
  import opened Utf8
  import S = Streams
  import SA = SetAlgebra
  import Z = SortedSets

  /** Every string inside the value is valid UTF-8. */
  ghost predicate TextVal(v: Val) {
    match v
    case Str(s) => IsText(s)
    case Hash(h) => forall x :: x in h ==> IsText(x) && IsText(h[x])
    case List(l) => AllText(l)
    case Set(m) => forall x :: x in m ==> IsText(x)
    case ZSet(z) => forall x :: x in z ==> IsText(x)
    case Stream(es) => forall i :: 0 <= i < |es| ==> IsText(es[i].id) && AllText(es[i].fields)
  }

  /** Every key and every string stored is valid UTF-8. */
  ghost predicate TextData(vals: map<string, Val>) { forall k :: k in vals ==> IsText(k) && TextVal(vals[k]) }

  predicate TextPairs(pairs: seq<(string, string)>) {
    forall i :: 0 <= i < |pairs| ==> IsText(pairs[i].0) && IsText(pairs[i].1)
  }

  predicate TextMembers(ms: seq<Z.ZMember>) { forall i :: 0 <= i < |ms| ==> IsText(ms[i].member) }

  /** What the call may store is valid UTF-8. */
  predicate TextOp(op: Op) {
    match op
    case DoSetAbsolute(key, value, _) => IsText(key) && IsText(value)
    case DoSetNX(key, value, _) => IsText(key) && IsText(value)
    case DoSetXX(key, value, _) => IsText(key) && IsText(value)
    case DoIncrBy(key, _) => IsText(key)
    case DoAppend(key, value) => IsText(key) && IsText(value)
    case DoGetSet(key, value) => IsText(key) && IsText(value)
    case DoSetRange(_, _, _) => false
    case DoMSetNX(pairs) => TextPairs(pairs)
    case DoHSet(key, pairs) => IsText(key) && TextPairs(pairs)
    case DoHIncrBy(key, field, _) => IsText(key) && IsText(field)
    case DoHSetNX(key, field, value) => IsText(key) && IsText(field) && IsText(value)
    case DoPush(key, _, values) => IsText(key) && AllText(values)
    case DoLMove(_, dst, _, _) => IsText(dst)
    case DoLSet(_, _, value) => IsText(value)
    case DoLInsert(_, _, _, value) => IsText(value)
    case DoSAdd(key, members) => IsText(key) && AllText(members)
    case DoSMove(_, dst, _) => IsText(dst)
    case DoZAdd(key, scored) => IsText(key) && TextMembers(scored)
    case DoZIncrBy(key, _, member, _) => IsText(key) && IsText(member)
    case DoXAdd(key, id, fields, _) => IsText(key) && IsText(id) && AllText(fields)
    case DoRename(_, newkey) => IsText(newkey)
    case DoCopy(_, dst, _) => IsText(dst)
    case _ => true
  }

  // ----- strings -----

  lemma {:induction false} AsciiIsText(s: string)
    requires forall i :: 0 <= i < |s| ==> s[i] < '\U{80}'
    ensures IsText(s)
    decreases |s|
  {
    if s != "" { AsciiIsText(s[1..]); }
  }

  lemma NumeralIsText(n: int)
    ensures IsText(FormatInt(n))
  {
    AsciiIsText(FormatInt(n));
  }

  lemma {:induction false} JoinedIsText(a: string, b: string)
    requires IsText(a) && IsText(b)
    ensures IsText(a + b)
    decreases |a|
  {
    if a == "" { assert a + b == b; } else {
      var n := RuneLen(a);
      var rest := a[n..] + b;
      RuneStays(a, rest);
      assert a + b == a[..n] + rest && (a + b)[n..] == rest;
      JoinedIsText(a[n..], b);
    }
  }

  lemma GeneratedIsText(k: S.Key)
    ensures IsText(S.FormatID(k))
  {
    AsciiIsText(S.FormatID(k));
  }

  // ----- containers -----

  lemma {:induction false} FieldsText(h: map<string, string>, pairs: seq<(string, string)>)
    requires TextVal(Hash(h)) && TextPairs(pairs)
    ensures TextVal(Hash(SetFields(h, pairs)))
    decreases |pairs|
  {
    hide IsText;
    if pairs != [] { FieldsText(h[pairs[0].0 := pairs[0].1], pairs[1..]); }
  }

  lemma {:induction false} ReverseText(s: seq<string>)
    requires AllText(s)
    ensures AllText(Reverse(s))
    decreases |s|
  {
    hide IsText;
    if s != [] { ReverseText(s[1..]); }
  }

  lemma PushedText(l: seq<string>, left: bool, values: seq<string>)
    requires AllText(l) && AllText(values)
    ensures AllText(Pushed(l, left, values))
  {
    hide IsText;
    ReverseText(values);
  }

  lemma {:induction false} WithoutFirstText(l: seq<string>, n: nat, x: string)
    requires AllText(l)
    ensures AllText(WithoutFirst(l, n, x))
    decreases |l|
  {
    hide IsText;
    if l != [] && n > 0 { WithoutFirstText(l[1..], if l[0] == x then n - 1 else n, x); }
  }

  lemma {:induction false} WithoutLastText(l: seq<string>, n: nat, x: string)
    requires AllText(l)
    ensures AllText(WithoutLast(l, n, x))
    decreases |l|
  {
    hide IsText;
    if l != [] && n > 0 { WithoutLastText(l[..|l| - 1], if l[|l| - 1] == x then n - 1 else n, x); }
  }

  lemma RemovedText(l: seq<string>, count: int, x: string)
    requires AllText(l)
    ensures AllText(Removed(l, count, x))
  {
    hide AllText;
    if count > 0 { WithoutFirstText(l, count, x); }
    else if count < 0 { WithoutLastText(l, -count, x); }
    else { WithoutFirstText(l, |l|, x); }
  }

  lemma {:induction false} ScoresText(z: map<string, real>, ms: seq<Z.ZMember>)
    requires TextVal(ZSet(z)) && TextMembers(ms)
    ensures TextVal(ZSet(AddScores(z, ms)))
    decreases |ms|
  {
    hide IsText;
    if ms != [] { ScoresText(z[ms[0].member := ms[0].score], ms[1..]); }
  }

  // ----- the data -----

  lemma PutText(db: Db, key: string, v: Val)
    requires TextData(db.vals) && IsText(key) && TextVal(v)
    ensures TextData(Put(db, key, v).vals) && TextData(PutOrDrop(db, key, v).vals)
  {
    hide IsText, TextVal;
  }

  lemma FewerText(vals: map<string, Val>, gone: set<string>)
    requires TextData(vals)
    ensures TextData(vals - gone)
  {
    hide IsText, TextVal;
  }

  lemma PurgeText(db: Db, key: string, now: int)
    requires TextData(db.vals)
    ensures TextData(Purge(db, key, now).vals) && TextData(Remove(db, key).vals)
  {
    FewerText(db.vals, {key});
  }

  /** What a key holds is valid UTF-8, or the key holds nothing. */
  lemma HeldText(db: Db, key: string)
    requires TextData(db.vals)
    ensures key in db.vals ==> IsText(key) && TextVal(db.vals[key])
    ensures TextVal(Hash(HashAt(db, key))) && AllText(ListAt(db, key)) && TextVal(Set(SetAt(db, key)))
    ensures TextVal(ZSet(ZSetAt(db, key))) && TextVal(Stream(StreamAt(db, key)))
  {
    hide IsText;
  }

  lemma {:induction false} PutAllText(db: Db, pairs: seq<(string, string)>)
    requires TextData(db.vals) && TextPairs(pairs)
    ensures TextData(PutAll(db, pairs).vals)
    decreases |pairs|
  {
    hide IsText;
    if pairs != [] {
      PutText(db, pairs[0].0, Str(pairs[0].1));
      PutAllText(Put(db, pairs[0].0, Str(pairs[0].1)).(expires := db.expires - {pairs[0].0}), pairs[1..]);
    }
  }

  lemma {:induction false} FirstTakenText(db: Db, pairs: seq<(string, string)>, now: int)
    requires TextData(db.vals)
    ensures TextData(FirstTaken(db, pairs, now).0.vals)
    decreases |pairs|
  {
    hide IsText, Purge, TextData;
    if pairs != [] {
      PurgeText(db, pairs[0].0, now);
      FirstTakenText(Purge(db, pairs[0].0, now), pairs[1..], now);
    }
  }

  lemma OverwriteText(db: Db, key: string, value: string, at: Option<int>)
    requires TextData(db.vals) && IsText(key) && IsText(value)
    ensures TextData(Overwrite(db, key, value, at).vals)
  {
    hide IsText;
  }

  lemma StringsText(db: Db, key: string, value: string, ttl: int, at: Option<int>, now: int)
    requires TextData(db.vals) && IsText(key) && IsText(value)
    ensures TextData(SetAbsolute(db, key, value, at).db.vals)
    ensures TextData(SetNX(db, key, value, ttl, now).db.vals)
    ensures TextData(SetXX(db, key, value, ttl, now).db.vals)
    ensures TextData(GetSet(db, key, value, now).db.vals)
  {
    hide IsText, TextData, Purge, Overwrite;
    var d := Purge(db, key, now);
    PurgeText(db, key, now);
    PutText(d, key, Str(value));
    OverwriteText(db, key, value, at);
    OverwriteText(d, key, value, Deadline(ttl, now));
    OverwriteText(d, key, value, None);
  }

  lemma CountersText(db: Db, key: string, delta: int, now: int)
    requires TextData(db.vals) && IsText(key)
    ensures TextData(IncrBy(db, key, delta, now).db.vals)
  {
    hide IsText, TextData, Purge, Put, FormatInt, ParseInt;
    var d := Purge(db, key, now);
    PurgeText(db, key, now);
    forall n ensures TextData(Put(d, key, Str(FormatInt(n))).vals) {
      NumeralIsText(n);
      PutText(d, key, Str(FormatInt(n)));
    }
  }

  lemma AppendText(db: Db, key: string, value: string, now: int)
    requires TextData(db.vals) && IsText(key) && IsText(value)
    ensures TextData(Append(db, key, value, now).db.vals)
  {
    hide IsText, TextData, Purge, Put;
    var d := Purge(db, key, now);
    PurgeText(db, key, now);
    HeldText(d, key);
    PutText(d, key, Str(value));
    if key in d.vals && d.vals[key].Str? {
      JoinedIsText(d.vals[key].s, value);
      PutText(d, key, Str(d.vals[key].s + value));
    }
  }

  lemma GetDelText(db: Db, key: string, now: int)
    requires TextData(db.vals)
    ensures TextData(GetDel(db, key, now).db.vals)
  {
    hide IsText, TextData, Purge, Remove;
    PurgeText(db, key, now);
    PurgeText(Purge(db, key, now), key, now);
  }

  lemma MSetNXText(db: Db, pairs: seq<(string, string)>, now: int)
    requires TextData(db.vals) && TextPairs(pairs)
    ensures TextData(MSetNX(db, pairs, now).db.vals)
  {
    hide TextData, FirstTaken, PutAll, TextPairs;
    FirstTakenText(db, pairs, now);
    PutAllText(FirstTaken(db, pairs, now).0, pairs);
  }

  lemma StringOpText(db: Db, op: Op, now: int)
    requires TextData(db.vals) && OnString(op) && TextOp(op)
    ensures TextData(StringOp(db, op, now).db.vals)
  {
    hide IsText, TextData, TextPairs, SetAbsolute, SetNX, SetXX, IncrBy, Append, GetSet, GetDel, MSetNX;
    match op {
      case DoSetAbsolute(key, value, at) => StringsText(db, key, value, 0, at, now);
      case DoSetNX(key, value, ttl) => StringsText(db, key, value, ttl, None, now);
      case DoSetXX(key, value, ttl) => StringsText(db, key, value, ttl, None, now);
      case DoIncrBy(key, delta) => CountersText(db, key, delta, now);
      case DoAppend(key, value) => AppendText(db, key, value, now);
      case DoGetSet(key, value) => StringsText(db, key, value, 0, None, now);
      case DoGetDel(key) => GetDelText(db, key, now);
      case DoMSetNX(pairs) => MSetNXText(db, pairs, now);
    }
  }

  lemma HSetText(db: Db, key: string, pairs: seq<(string, string)>, now: int)
    requires TextData(db.vals) && IsText(key) && TextPairs(pairs)
    ensures TextData(HSet(db, key, pairs, now).db.vals)
  {
    hide IsText, TextData, TextVal, Purge, Put, SetFields, HashAt, TextPairs;
    var d := Purge(db, key, now);
    PurgeText(db, key, now);
    HeldText(d, key);
    FieldsText(HashAt(d, key), pairs);
    PutText(d, key, Hash(SetFields(HashAt(d, key), pairs)));
  }

  lemma HDelText(db: Db, key: string, fields: seq<string>, now: int)
    requires TextData(db.vals)
    ensures TextData(HDel(db, key, fields, now).db.vals)
  {
    hide IsText, TextData, Remove, PutOrDrop, HashAt;
    PurgeText(db, key, now);
    HeldText(db, key);
    if key in db.vals { PutText(db, key, Hash(HashAt(db, key) - SetOf(fields))); }
  }

  lemma FieldText(db: Db, key: string, field: string, value: string)
    requires TextData(db.vals) && IsText(key) && IsText(field) && IsText(value)
    ensures TextData(Put(db, key, Hash(HashAt(db, key)[field := value])).vals)
  {
    hide IsText, TextData, HashAt, Put;
    HeldText(db, key);
    PutText(db, key, Hash(HashAt(db, key)[field := value]));
  }

  lemma HashesText(db: Db, key: string, field: string, value: string, delta: int, now: int)
    requires TextData(db.vals) && IsText(key) && IsText(field) && IsText(value)
    ensures TextData(HSetNX(db, key, field, value, now).db.vals)
    ensures TextData(HIncrBy(db, key, field, delta, now).db.vals)
  {
    hide IsText, TextData, Purge, Put, HashAt, FormatInt, ParseInt;
    var d := Purge(db, key, now);
    PurgeText(db, key, now);
    FieldText(d, key, field, value);
    forall n ensures TextData(Put(d, key, Hash(HashAt(d, key)[field := FormatInt(n)])).vals) {
      NumeralIsText(n);
      FieldText(d, key, field, FormatInt(n));
    }
  }

  lemma HashOpText(db: Db, op: Op, now: int)
    requires TextData(db.vals) && OnHash(op) && TextOp(op)
    ensures TextData(HashOp(db, op, now).db.vals)
  {
    hide IsText, TextData, TextPairs, HSet, HDel, HIncrBy, HSetNX;
    match op {
      case DoHSet(key, pairs) => HSetText(db, key, pairs, now);
      case DoHDel(key, fields) => HDelText(db, key, fields, now);
      case DoHIncrBy(key, field, delta) => HashesText(db, key, field, field, delta, now);
      case DoHSetNX(key, field, value) => HashesText(db, key, field, value, 0, now);
    }
  }

  lemma PushText(db: Db, key: string, left: bool, values: seq<string>, now: int)
    requires TextData(db.vals) && IsText(key) && AllText(values)
    ensures TextData(Push(db, key, left, values, now).db.vals)
  {
    hide IsText, TextData, Purge, Put, Pushed, ListAt, AllText;
    var d := Purge(db, key, now);
    PurgeText(db, key, now);
    HeldText(d, key);
    PushedText(ListAt(d, key), left, values);
    PutText(d, key, List(Pushed(ListAt(d, key), left, values)));
  }

  lemma EndsText(l: seq<string>, left: bool)
    requires AllText(l) && l != []
    ensures IsText(End(l, left)) && AllText(Shorter(l, left)) && AllText([End(l, left)])
  {
    hide IsText;
  }

  lemma PopText(db: Db, key: string, left: bool, now: int)
    requires TextData(db.vals)
    ensures TextData(Pop(db, key, left, now).db.vals)
  {
    hide IsText, TextData, Remove, PutOrDrop, ListAt, AllText, Shorter, End;
    PurgeText(db, key, now);
    HeldText(db, key);
    if ListAt(db, key) != [] {
      EndsText(ListAt(db, key), left);
      NotEmptyList(db, key);
      PutText(db, key, List(Shorter(ListAt(db, key), left)));
    }
  }

  lemma NotEmptyList(db: Db, key: string)
    ensures ListAt(db, key) != [] ==> key in db.vals
  {}

  lemma LMoveText(db: Db, src: string, dst: string, srcLeft: bool, dstLeft: bool, now: int)
    requires TextData(db.vals) && IsText(dst)
    ensures TextData(LMove(db, src, dst, srcLeft, dstLeft, now).db.vals)
  {
    hide IsText, TextData, Purge, PutOrDrop, ListAt, AllText, Shorter, End, Pushed, Put, Other;
    var d := Purge(db, src, now);
    PurgeText(db, src, now);
    PurgeText(d, dst, now);
    var d' := if src == dst then d else Purge(d, dst, now);
    HeldText(d', src);
    NotEmptyList(d', src);
    if ListAt(d', src) != [] {
      var l := ListAt(d', src);
      EndsText(l, srcLeft);
      PutText(d', src, List(Shorter(l, srcLeft)));
      var popped := PutOrDrop(d', src, List(Shorter(l, srcLeft)));
      HeldText(popped, dst);
      PushedText(ListAt(popped, dst), dstLeft, [End(l, srcLeft)]);
      PutText(popped, dst, List(Pushed(ListAt(popped, dst), dstLeft, [End(l, srcLeft)])));
    }
    SameListElsewhere(d, src, dst, now);
  }

  /** Looking at one key does not change what another one holds. */
  lemma SameListElsewhere(db: Db, src: string, dst: string, now: int)
    ensures src != dst ==> ListAt(Purge(db, dst, now), src) == ListAt(db, src)
  {}

  lemma ListEditsText(db: Db, key: string, index: int, before: bool, pivot: string, value: string, now: int)
    requires TextData(db.vals) && IsText(value)
    ensures TextData(LSet(db, key, index, value, now).db.vals)
    ensures TextData(LInsert(db, key, before, pivot, value, now).db.vals)
  {
    hide IsText, TextData, Remove, Put, ListAt;
    PurgeText(db, key, now);
    HeldText(db, key);
    NotEmptyList(db, key);
    var l := ListAt(db, key);
    if l != [] {
      var j := Index(index, |l|);
      if 0 <= j < |l| { PutText(db, key, List(l[j := value])); }
      forall i | 0 <= i <= |l| ensures TextData(Put(db, key, List(l[..i] + [value] + l[i..])).vals) {
        PutText(db, key, List(l[..i] + [value] + l[i..]));
      }
    }
  }

  lemma LRemText(db: Db, key: string, count: int, x: string, now: int)
    requires TextData(db.vals)
    ensures TextData(LRem(db, key, count, x, now).db.vals)
  {
    hide IsText, TextData, Remove, PutOrDrop, ListAt, AllText, Removed;
    PurgeText(db, key, now);
    HeldText(db, key);
    NotEmptyList(db, key);
    if ListAt(db, key) != [] {
      RemovedText(ListAt(db, key), count, x);
      PutText(db, key, List(Removed(ListAt(db, key), count, x)));
    }
  }

  lemma ListOpText(db: Db, op: Op, now: int)
    requires TextData(db.vals) && OnList(op) && TextOp(op)
    ensures TextData(ListOp(db, op, now).db.vals)
  {
    hide IsText, TextData, AllText, Push, Pop, LMove, LSet, LInsert, LRem;
    match op {
      case DoPush(key, left, values) => PushText(db, key, left, values, now);
      case DoPop(key, left) => PopText(db, key, left, now);
      case DoLMove(src, dst, srcLeft, dstLeft) => LMoveText(db, src, dst, srcLeft, dstLeft, now);
      case DoLSet(key, index, value) => ListEditsText(db, key, index, true, "", value, now);
      case DoLInsert(key, before, pivot, value) => ListEditsText(db, key, 0, before, pivot, value, now);
      case DoLRem(key, count, value) => LRemText(db, key, count, value, now);
    }
  }

  lemma SetsText(db: Db, key: string, members: seq<string>, now: int)
    requires TextData(db.vals)
    ensures IsText(key) && AllText(members) ==> TextData(SAdd(db, key, members, now).db.vals)
    ensures TextData(SRem(db, key, members, now).db.vals)
  {
    hide IsText, TextData, Purge, Remove, Put, PutOrDrop;
    var d := Purge(db, key, now);
    PurgeText(db, key, now);
    HeldText(d, key);
    HeldText(db, key);
    if IsText(key) && AllText(members) { PutText(d, key, Set(SetAt(d, key) + SetOf(members))); }
    if key in db.vals { PutText(db, key, Set(SetAt(db, key) - SetOf(members))); }
  }

  lemma CombinedText(db: Db, how: SA.Algebra, dest: string, keys: seq<string>, now: int)
    requires TextData(db.vals) && IsText(dest)
    ensures TextData(SA.StoredSet(db, dest, SA.Combined(how, SA.Operands(db, keys, now)), now).vals)
  {
    hide IsText, TextData, Del, Put, SA.Belongs;
    KeysText(db, dest, dest, false, [dest], None, now);
    forall i | 0 <= i < |keys| ensures TextVal(Set(SA.LiveMembers(db, keys[i], now))) { HeldText(db, keys[i]); }
    PutText(Del(db, [dest], now).db, dest, Set(SA.Combined(how, SA.Operands(db, keys, now))));
  }

  lemma SMoveText(db: Db, src: string, dst: string, member: string, now: int)
    requires TextData(db.vals) && IsText(dst)
    ensures TextData(SMove(db, src, dst, member, now).db.vals)
  {
    hide IsText, TextData, Purge, Put, PutOrDrop;
    PurgeText(db, src, now);
    PurgeText(Purge(db, src, now), dst, now);
    var d := Purge(Purge(db, src, now), dst, now);
    HeldText(d, src);
    if member in SetAt(d, src) {
      PutText(d, src, Set(SetAt(d, src) - {member}));
      var left := PutOrDrop(d, src, Set(SetAt(d, src) - {member}));
      HeldText(left, dst);
      PutText(left, dst, Set(SetAt(left, dst) + {member}));
    }
  }

  lemma SetOpText(db: Db, op: Op, now: int)
    requires TextData(db.vals) && OnSet(op) && TextOp(op)
    ensures TextData(SetOp(db, op, now).db.vals)
  {
    hide IsText, TextData, AllText, SAdd, SRem, SMove;
    match op {
      case DoSAdd(key, members) => SetsText(db, key, members, now);
      case DoSRem(key, members) => SetsText(db, key, members, now);
      case DoSMove(src, dst, member) => SMoveText(db, src, dst, member, now);
    }
  }

  lemma ZAddText(db: Db, key: string, scored: seq<Z.ZMember>, now: int)
    requires TextData(db.vals) && IsText(key) && TextMembers(scored)
    ensures TextData(ZAdd(db, key, scored, now).db.vals)
  {
    hide IsText, TextData, Purge, Put, AddScores, ZSetAt, TextMembers;
    var d := Purge(db, key, now);
    PurgeText(db, key, now);
    HeldText(d, key);
    ScoresText(ZSetAt(d, key), scored);
    PutText(d, key, ZSet(AddScores(ZSetAt(d, key), scored)));
  }

  lemma ScoredText(z: map<string, real>, member: string, score: real)
    requires TextVal(ZSet(z)) && IsText(member)
    ensures TextVal(ZSet(z[member := score]))
  {
    hide IsText;
  }

  lemma ZIncrByText(db: Db, key: string, incr: real, member: string, round: real -> real, now: int)
    requires TextData(db.vals) && IsText(key) && IsText(member)
    ensures TextData(ZIncrBy(db, key, incr, member, round, now).db.vals)
  {
    hide IsText, TextData, TextVal, Purge, Put, ZSetAt;
    var d := Purge(db, key, now);
    PurgeText(db, key, now);
    HeldText(d, key);
    var z := ZSetAt(d, key);
    var score := round((if member in z then z[member] else 0.0) + incr);
    ScoredText(z, member, score);
    PutText(d, key, ZSet(z[member := score]));
  }

  lemma ZRemText(db: Db, key: string, gone: set<string>)
    requires TextData(db.vals) && key in db.vals
    ensures TextData(PutOrDrop(db, key, ZSet(ZSetAt(db, key) - gone)).vals)
  {
    hide IsText, TextData, PutOrDrop, ZSetAt;
    HeldText(db, key);
    PutText(db, key, ZSet(ZSetAt(db, key) - gone));
  }

  lemma ZPopsText(db: Db, key: string, members: seq<string>, count: int, lowest: bool, now: int)
    requires TextData(db.vals)
    ensures TextData(ZRem(db, key, members, now).db.vals)
    ensures TextData(ZPop(db, key, count, lowest, now).db.vals)
  {
    hide IsText, TextData, Remove, PutOrDrop, Extreme, Z.Listing, Z.Names;
    PurgeText(db, key, now);
    if key in db.vals {
      forall gone: set<string> ensures TextData(PutOrDrop(db, key, ZSet(ZSetAt(db, key) - gone)).vals) {
        ZRemText(db, key, gone);
      }
    }
  }

  lemma ZSetOpText(db: Db, op: Op, now: int)
    requires TextData(db.vals) && OnZSet(op) && TextOp(op)
    ensures TextData(ZSetOp(db, op, now).db.vals)
  {
    hide IsText, TextData, TextMembers, ZAdd, ZRem, ZIncrBy, ZPop;
    match op {
      case DoZAdd(key, scored) => ZAddText(db, key, scored, now);
      case DoZRem(key, members) => ZPopsText(db, key, members, 0, true, now);
      case DoZIncrBy(key, incr, member, round) => ZIncrByText(db, key, incr, member, round, now);
      case DoZPop(key, count, lowest) => ZPopsText(db, key, [], count, lowest, now);
    }
  }

  lemma XAddText(db: Db, key: string, id: string, fields: seq<string>, nowMs: int, now: int)
    requires TextData(db.vals) && IsText(key) && IsText(id) && AllText(fields)
    ensures TextData(XAdd(db, key, id, fields, nowMs, now).db.vals)
  {
    hide IsText, TextData, Purge, Put, StreamAt, S.FormatID, S.AutoKey, S.ParseID, S.Compare, S.SeqAfter, AllText;
    var d := Purge(db, key, now);
    PurgeText(db, key, now);
    HeldText(d, key);
    var es := StreamAt(d, key);
    var chosen := S.Chosen(es, SeqAt(d, key), id, nowMs);
    if chosen.Ok? {
      if id == "*" { GeneratedIsText(S.AutoKey(S.ParseID(S.LastID(es)), SeqAt(d, key), nowMs)); }
      PutText(d, key, Stream(es + [S.Entry(chosen.value, fields)]));
    }
  }

  lemma KeysText(db: Db, key: string, newkey: string, replace: bool, keys: seq<string>, at: Option<int>, now: int)
    requires TextData(db.vals)
    ensures TextData(Del(db, keys, now).db.vals)
    ensures TextData(Expire(db, key, at, now).db.vals) && TextData(Persist(db, key, now).db.vals)
    ensures IsText(newkey) ==> TextData(Rename(db, key, newkey, now).db.vals)
    ensures IsText(newkey) ==> TextData(Copy(db, key, newkey, replace, now).db.vals)
  {
    hide IsText, TextVal, Purge;
    PurgeText(db, key, now);
    PurgeText(Purge(db, key, now), newkey, now);
    FewerText(db.vals, HeldAmong(db, keys, now));
  }

  lemma KeyOpText(db: Db, op: Op, now: int)
    requires TextData(db.vals) && OnKey(op) && TextOp(op)
    ensures TextData(KeyOp(db, op, now).db.vals)
  {
    hide IsText, TextData, AllText, XAdd, Del, Expire, Persist, Rename, Copy;
    match op {
      case DoXAdd(key, id, fields, nowMs) => XAddText(db, key, id, fields, nowMs, now);
      case DoDel(keys) => KeysText(db, "", "", false, keys, None, now);
      case DoExpire(key, at) => KeysText(db, key, "", false, [], at, now);
      case DoPersist(key) => KeysText(db, key, "", false, [], None, now);
      case DoRename(key, newkey) => KeysText(db, key, newkey, false, [], None, now);
      case DoCopy(src, dst, replace) => KeysText(db, src, dst, replace, [], None, now);
    }
  }

  /** With valid UTF-8 in the arguments, every store call but SETRANGE keeps the data valid UTF-8. */
  lemma TextStays(db: Db, op: Op, now: int)
    requires TextData(db.vals) && TextOp(op)
    ensures TextData(Apply(db, op, now).db.vals)
  {
    hide TextData, TextOp, StringOp, HashOp, ListOp, SetOp, ZSetOp, KeyOp;
    if OnString(op) { StringOpText(db, op, now); }
    else if OnHash(op) { HashOpText(db, op, now); }
    else if OnList(op) { ListOpText(db, op, now); }
    else if OnSet(op) { SetOpText(db, op, now); }
    else if OnZSet(op) { ZSetOpText(db, op, now); }
    else { KeyOpText(db, op, now); }
  }

  /** SETRANGE k 1 a, where k holds the two bytes of U+00E9, leaves half a character. */
  lemma SetRangeCutsCharacters()
    ensures var e := "\U{c3}\U{a9}";
            IsText(e) && IsText("a") && !IsText(WriteAt(e, 1, "a"))
  {
    var e := "\U{c3}\U{a9}";
    assert RuneLen(e) == 2 && e[2..] == "";
    assert "a"[1..] == "" && RuneLen("a") == 1;
    var r := WriteAt(e, 1, "a");
    assert r[0] == '\U{c3}' && r[1] == 'a';
    assert RuneLen(r) == 0;
  }
}
