/**
 * Eviction (internal/store/store.go, EvictIfNeeded and what it calls). The loop is driven by a
 * cached estimate; Go's map iteration order is left open throughout.
 */
module Eviction {
  import opened Common
  import opened Sums
  import opened Streams

  const HllRegisters := 16384

  /** The seven typed maps that eviction looks at, and the expiry times. */
  datatype Data = Data(
    kv: map<string, string>,
    hashes: map<string, map<string, string>>,
    lists: map<string, seq<string>>,
    sets: map<string, set<string>>,
    zsets: map<string, map<string, real>>,
    streams: map<string, seq<Entry>>,
    hlls: set<string>,
    expires: map<string, int>)

  ghost function Keys(d: Data): set<string> {
    d.kv.Keys + d.hashes.Keys + d.lists.Keys + d.sets.Keys + d.zsets.Keys + d.streams.Keys + d.hlls
  }

  /** Whole keys disappear, from every map at once. */
  function Without(d: Data, gone: set<string>): Data {
    Data(d.kv - gone, d.hashes - gone, d.lists - gone, d.sets - gone, d.zsets - gone, d.streams - gone, d.hlls - gone,
      d.expires - gone)
  }

  // ----- the footprint -----

  ghost function HashWeights(h: map<string, string>): map<string, int> {
    map f | f in h :: |f| + |h[f]| + 32
  }

  function FieldWeight(fields: seq<string>): int {
    if fields == [] then 0 else |fields[0]| + 16 + FieldWeight(fields[1..])
  }

  function EntryWeight(es: seq<Entry>): int {
    if es == [] then 0 else |es[0].id| + 48 + FieldWeight(es[0].fields) + EntryWeight(es[1..])
  }

  ghost function KvWeights(d: Data): map<string, int> { map k | k in d.kv :: |k| + |d.kv[k]| + 64 }
  ghost function HashesWeights(d: Data): map<string, int> {
    map k | k in d.hashes :: |k| + 64 + Sum(HashWeights(d.hashes[k]))
  }
  ghost function ListWeights(d: Data): map<string, int> { map k | k in d.lists :: |k| + 64 + |d.lists[k]| * 48 }
  ghost function SetWeights(d: Data): map<string, int> { map k | k in d.sets :: |k| + 64 + |d.sets[k]| * 48 }
  ghost function ZSetWeights(d: Data): map<string, int> { map k | k in d.zsets :: |k| + 64 + |d.zsets[k]| * 64 }
  ghost function StreamWeights(d: Data): map<string, int> {
    map k | k in d.streams :: |k| + 64 + EntryWeight(d.streams[k])
  }
  ghost function HllWeights(d: Data): map<string, int> { map k | k in d.hlls :: |k| + HllRegisters + 64 }

  /** What a fresh computation of the estimate yields. */
  ghost function Footprint(d: Data): int {
    Sum(KvWeights(d)) + Sum(HashesWeights(d)) + Sum(ListWeights(d)) + Sum(SetWeights(d))
      + Sum(ZSetWeights(d)) + Sum(StreamWeights(d)) + Sum(HllWeights(d))
  }

  lemma EmptyFootprint(d: Data)
    requires Keys(d) == {}
    ensures Footprint(d) == 0
  {
    assert KvWeights(d) == map[] by { assert d.kv.Keys <= Keys(d); }
    assert HashesWeights(d) == map[] by { assert d.hashes.Keys <= Keys(d); }
    assert ListWeights(d) == map[] by { assert d.lists.Keys <= Keys(d); }
    assert SetWeights(d) == map[] by { assert d.sets.Keys <= Keys(d); }
    assert ZSetWeights(d) == map[] by { assert d.zsets.Keys <= Keys(d); }
    assert StreamWeights(d) == map[] by { assert d.streams.Keys <= Keys(d); }
    assert HllWeights(d) == map[] by { assert d.hlls <= Keys(d); }
  }

  lemma WithoutKeys(d: Data, gone: set<string>)
    ensures Keys(Without(d, gone)) == Keys(d) - gone
  {}

  lemma WithoutTwice(d: Data, a: set<string>, b: set<string>)
    ensures Without(Without(d, a), b) == Without(d, a + b)
  {}

  lemma WithoutNone(d: Data)
    ensures Without(d, {}) == d
  {}

  // ----- loops over maps in any order -----

  method HashTotal(h: map<string, string>) returns (total: int)
    ensures total == Sum(HashWeights(h))
  {
    total := 0;
    var todo := h.Keys;
    ghost var rest := HashWeights(h);
    while todo != {}
      invariant todo <= h.Keys && rest.Keys == todo && (forall f :: f in todo ==> rest[f] == |f| + |h[f]| + 32)
      invariant total + Sum(rest) == Sum(HashWeights(h))
      decreases |todo|
    {
      var f :| f in todo;
      SumWithout(rest, f);
      total := total + |f| + |h[f]| + 32;
      todo, rest := todo - {f}, rest - {f};
    }
  }

  method HashesTotal(hashes: map<string, map<string, string>>, ghost w: map<string, int>) returns (total: int)
    requires w.Keys == hashes.Keys && forall k :: k in hashes ==> w[k] == |k| + 64 + Sum(HashWeights(hashes[k]))
    ensures total == Sum(w)
  {
    hide HashWeights, Sum;
    total := 0;
    var todo := hashes.Keys;
    ghost var rest := w;
    while todo != {}
      invariant todo <= hashes.Keys && rest.Keys == todo && (forall k :: k in todo ==> rest[k] == w[k])
      invariant total + Sum(rest) == Sum(w)
      decreases |todo|
    {
      var k :| k in todo;
      SumWithout(rest, k);
      var inner := HashTotal(hashes[k]);
      total := total + |k| + 64 + inner;
      todo, rest := todo - {k}, rest - {k};
    }
    assert rest == map[];
    EmptySum();
  }

  lemma EmptySum()
    ensures Sum<string>(map[]) == 0
  {}

  method WeighAll(keys: set<string>, weight: string -> int, ghost w: map<string, int>) returns (total: int)
    requires w.Keys == keys && forall k :: k in keys ==> w[k] == weight(k)
    ensures total == Sum(w)
  {
    hide Sum;
    total := 0;
    var todo := keys;
    ghost var rest := w;
    while todo != {}
      invariant todo <= keys && rest.Keys == todo && (forall k :: k in todo ==> rest[k] == w[k])
      invariant total + Sum(rest) == Sum(w)
      decreases |todo|
    {
      var k :| k in todo;
      SumWithout(rest, k);
      total := total + weight(k);
      todo, rest := todo - {k}, rest - {k};
    }
    assert rest == map[];
    EmptySum();
  }

  method Compute(d: Data) returns (mem: int)
    ensures mem == Footprint(d)
  {
    hide Sum, HashWeights;
    var a := WeighAll(d.kv.Keys, k => if k in d.kv then |k| + |d.kv[k]| + 64 else 0, KvWeights(d));
    var b := HashesTotal(d.hashes, HashesWeights(d));
    var c := WeighAll(d.lists.Keys, k => if k in d.lists then |k| + 64 + |d.lists[k]| * 48 else 0, ListWeights(d));
    var e := WeighAll(d.sets.Keys, k => if k in d.sets then |k| + 64 + |d.sets[k]| * 48 else 0, SetWeights(d));
    var f := WeighAll(d.zsets.Keys, k => if k in d.zsets then |k| + 64 + |d.zsets[k]| * 64 else 0, ZSetWeights(d));
    var g := WeighAll(d.streams.Keys, k => if k in d.streams then |k| + 64 + EntryWeight(d.streams[k]) else 0,
      StreamWeights(d));
    var h := WeighAll(d.hlls, k => |k| + HllRegisters + 64, HllWeights(d));
    mem := a + b + c + e + f + g + h;
  }

  // ----- the store -----

  datatype Outcome = Fits | OutOfMemory

  class Store {
    var d: Data
    var accessTime: map<string, int>
    var memEstimate: int
    var opsSinceEstimate: int
    const maxMemory: int
    const policy: string

    constructor (d: Data, accessTime: map<string, int>, maxMemory: int, policy: string)
      ensures this.d == d && this.accessTime == accessTime && this.maxMemory == maxMemory && this.policy == policy
      ensures memEstimate == 0 && opsSinceEstimate == 0
    {
      this.d, this.accessTime, this.maxMemory, this.policy := d, accessTime, maxMemory, policy;
      memEstimate, opsSinceEstimate := 0, 0;
    }

    /** The next estimate will be the cached one, however much the data has changed. */
    ghost predicate Cached() reads this { opsSinceEstimate + 1 < 1000 && memEstimate > 0 }

    /** The estimate was computed just now. */
    ghost predicate Estimated() reads this { memEstimate == Footprint(d) && opsSinceEstimate == 0 }

    /** The cached estimate serves for up to a thousand calls, unless it is zero. */
    method Estimate() returns (mem: int)
      modifies this`memEstimate, this`opsSinceEstimate
      ensures mem == if old(Cached()) then old(memEstimate) else Footprint(d)
      ensures memEstimate == mem && opsSinceEstimate == if old(Cached()) then old(opsSinceEstimate) + 1 else 0
      ensures old(opsSinceEstimate) < 999 && old(memEstimate) > 0 <==> old(Cached())
    {
      hide Footprint;
      opsSinceEstimate := opsSinceEstimate + 1;
      if opsSinceEstimate < 1000 && memEstimate > 0 { return memEstimate; }
      opsSinceEstimate := 0;
      mem := Compute(d);
      memEstimate := mem;
    }

    /** deleteKeyLocked: the key leaves every map, and is recorded as just accessed. */
    method Delete(key: string, now: int)
      modifies this`d, this`accessTime
      ensures d == Without(old(d), {key})
      ensures accessTime == if maxMemory > 0 then old(accessTime)[key := now] else old(accessTime) - {key}
    {
      d := Without(d, {key});
      accessTime := accessTime - {key};
      if maxMemory > 0 { accessTime := accessTime[key := now]; }
    }

    /** Some key of the first map that is not empty, or of the expiry map. */
    method EvictRandom(onlyVolatile: bool, now: int) returns (ok: bool, ghost key: string)
      modifies this`d, this`accessTime, this`memEstimate
      ensures ok <==> if onlyVolatile then old(d.expires) != map[] else Keys(old(d)) != {}
      ensures ok ==> key in (if onlyVolatile then old(d.expires).Keys else Keys(old(d)))
      ensures ok ==> d == Without(old(d), {key}) && memEstimate == 0
      ensures ok ==> accessTime == if maxMemory > 0 then old(accessTime)[key := now] else old(accessTime) - {key}
      ensures !ok ==> d == old(d) && memEstimate == old(memEstimate) && accessTime == old(accessTime)
    {
      hide Without;
      var pool := if onlyVolatile then d.expires.Keys else FirstPool(d);
      if pool == {} {
        assert onlyVolatile ==> d.expires == map[];
        return false, "";
      }
      var k :| k in pool;
      assert onlyVolatile ==> k in d.expires;
      Delete(k, now);
      memEstimate := 0;
      return true, k;
    }

    /** The least recently used of up to five sampled keys; a blank winner counts as none. */
    method EvictLRU(now: int) returns (ok: bool, ghost key: string, ghost sample: set<string>)
      requires maxMemory > 0
      modifies this`d, this`accessTime, this`memEstimate
      ensures ok ==> d == Without(old(d), {key}) && memEstimate == 0
      ensures sample <= old(accessTime).Keys && |sample| == if |old(accessTime)| < 5 then |old(accessTime)| else 5
      ensures ok ==> || (OldestOf(key, sample, old(accessTime)) && accessTime == old(accessTime) - {key})
                     || (Inconclusive(sample, old(accessTime)) && key in Keys(old(d)))
      ensures !ok ==>
                Inconclusive(sample, old(accessTime)) && d == old(d) && memEstimate == old(memEstimate) && Keys(d) == {}
    {
      hide Without, Keys;
      var oldest;
      oldest, sample := SampleOldest(accessTime);
      if oldest == "" {
        ok, key := EvictRandom(false, now);
        return;
      }
      Delete(oldest, now);
      accessTime := accessTime - {oldest};
      memEstimate := 0;
      assert accessTime == old(accessTime) - {oldest};
      return true, oldest, sample;
    }

    /** How far the loop is from its end: evictable keys first, then access times. */
    ghost function Evictable(): nat reads this { |Keys(d)| + |d.expires| }

    /** One round of the loop's policy switch. */
    method EvictOne(now: int) returns (step: Step, ghost key: string)
      requires maxMemory > 0
      modifies this`d, this`accessTime, this`memEstimate
      ensures step == Evicted ==> d == Without(old(d), {key}) && memEstimate == 0
      ensures step == Evicted ==> Nearer(old(d), key, old(accessTime), accessTime)
      ensures step == Evicted ==> Evicts(policy) && (OnlyVolatile(policy) ==> key in old(d.expires))
      ensures step != Evicted ==> d == old(d)
      ensures step == NothingLeft ==> Keys(d) == {}
      ensures step == Unsupported ==> !Evicts(policy)
      ensures step == Refused ==> !Evicts(policy) || (OnlyVolatile(policy) && d.expires == map[])
    {
      hide Keys, Without;
      match policy {
        case "noeviction" => return Refused, "";
        case "" => return Refused, "";
        case "allkeys-random" =>
          var ok;
          ok, key := EvictRandom(false, now);
          step := if ok then Evicted else NothingLeft;
        case "volatile-random" =>
          var ok;
          ok, key := EvictRandom(true, now);
          step := if ok then Evicted else Refused;
        case "allkeys-lru" =>
          var ok;
          ghost var sample;
          ok, key, sample := EvictLRU(now);
          step := if ok then Evicted else NothingLeft;
        case _ => return Unsupported, "";
      }
    }

    /**
     * Terminates under every policy and every iteration order. Only whole keys go. If any key was
     * evicted and the call succeeds, a freshly computed footprint is within the limit.
     */
    method EvictIfNeeded(now: int) returns (r: Outcome, ghost evicted: set<string>)
      modifies this`d, this`accessTime, this`memEstimate, this`opsSinceEstimate
      ensures d == Without(old(d), evicted)
      ensures evicted != {} && r.Fits? ==> Footprint(d) <= maxMemory
      ensures r.Fits? && Evicts(policy) && maxMemory > 0 ==>
                (Footprint(d) <= maxMemory <==> !(old(Cached()) && old(memEstimate) <= maxMemory < Footprint(old(d))))
      ensures !Evicts(policy) ==> evicted == {}
      ensures OnlyVolatile(policy) ==> evicted <= old(d.expires).Keys
      ensures r.OutOfMemory? ==> !Evicts(policy) || (OnlyVolatile(policy) && d.expires == map[])
      ensures r.OutOfMemory? && (evicted != {} || !old(Cached())) ==> Footprint(d) > maxMemory
      ensures old(Cached()) && old(memEstimate) <= maxMemory ==> r.Fits? && evicted == {}
      ensures !old(Cached()) && Footprint(old(d)) <= maxMemory ==>
                r.Fits? && evicted == {} && (maxMemory > 0 ==> Estimated())
    {
      hide Footprint, Keys, Without, Nearer, Evicts, OnlyVolatile;
      WithoutNone(d);
      evicted := {};
      r := Fits;
      if maxMemory <= 0 { return; }
      var mem := Estimate();
      while mem > maxMemory
        invariant d == Without(old(d), evicted)
        invariant evicted != {} || !old(Cached()) ==> mem == Footprint(d)
        invariant old(Cached()) && old(memEstimate) <= maxMemory ==> evicted == {} && mem <= maxMemory
        invariant evicted == {} && old(Cached()) ==> mem == old(memEstimate)
        invariant !old(Cached()) && Footprint(old(d)) <= maxMemory ==> evicted == {} && mem <= maxMemory && Estimated()
        invariant !Evicts(policy) ==> evicted == {}
        invariant OnlyVolatile(policy) ==> evicted <= old(d.expires).Keys
        decreases Evictable(), |accessTime|
      {
        ghost var before, access := d, accessTime;
        var step;
        ghost var key;
        step, key := EvictOne(now);
        match step {
          case Refused => return OutOfMemory, evicted;
          case NothingLeft => EmptyFootprint(d); return;
          case Unsupported => return;
          case Evicted =>
        }
        Progress(before, key, access, accessTime);
        WithoutTwice(old(d), evicted, {key});
        FewerExpiries(old(d), evicted);
        evicted := evicted + {key};
        mem := Estimate();
      }
    }
  }

  /**
   * A stale estimate: after one call has cached it, data written since is not seen by the next one,
   * which succeeds above the limit without evicting anything.
   */
  method StaleEstimate() returns (s: Store, r: Outcome)
    ensures r.Fits? && Evicts(s.policy) && Footprint(s.d) > s.maxMemory > 0
  {
    hide Footprint, Without, Keys;
    var small := Data(map["a" := ""], map[], map[], map[], map[], map[], {}, map[]);
    var large := small.(kv := map["a" := "", "b" := ""]);
    OneKeyMore(small, large);
    var limit := Compute(small);
    s := new Store(small, map[], limit, "allkeys-random");
    ghost var evicted;
    r, evicted := s.EvictIfNeeded(0);
    WithoutNone(small);
    s.d := large;
    r, evicted := s.EvictIfNeeded(1);
    WithoutNone(large);
  }

  lemma OneKeyMore(small: Data, large: Data)
    requires small == Data(map["a" := ""], map[], map[], map[], map[], map[], {}, map[])
    requires large == small.(kv := map["a" := "", "b" := ""])
    ensures 0 < Footprint(small) < Footprint(large)
  {
    hide Sum, Footprint;
    OnlyStrings(small);
    OnlyStrings(large);
    var w := KvWeights(small);
    assert w == map[]["a" := 65] && KvWeights(large) == w["b" := 65];
    SumUpdate(w, "b", 65);
    SumUpdate(map[], "a", 65);
    EmptySum();
  }

  lemma OnlyStrings(d: Data)
    requires d == Data(d.kv, map[], map[], map[], map[], map[], {}, map[])
    ensures Footprint(d) == Sum(KvWeights(d))
  {
    hide Sum, KvWeights;
    EmptySum();
    assert HashesWeights(d) == map[] && ListWeights(d) == map[] && SetWeights(d) == map[];
    assert ZSetWeights(d) == map[] && StreamWeights(d) == map[] && HllWeights(d) == map[];
  }

  /** Any other name evicts nothing; `noeviction` and the empty name refuse instead. */
  predicate Evicts(policy: string) {
    policy == "allkeys-random" || policy == "volatile-random" || policy == "allkeys-lru"
  }

  predicate OnlyVolatile(policy: string) { policy == "volatile-random" }

  datatype Step = Evicted | NothingLeft | Refused | Unsupported

  /** An eviction takes a key away, or at least one access time. */
  ghost predicate Nearer(d: Data, key: string, access: map<string, int>, access': map<string, int>) {
    key in Keys(d) || key in d.expires || (key in access && access' == access - {key})
  }

  lemma FewerExpiries(d: Data, gone: set<string>)
    ensures Without(d, gone).expires.Keys <= d.expires.Keys
  {}

  /** The key set of the first non-empty map, in the order the source tries them. */
  function FirstPool(d: Data): (pool: set<string>)
    ensures pool <= Keys(d) && (pool == {} ==> Keys(d) == {})
  {
    if d.kv != map[] then d.kv.Keys
    else if d.hashes != map[] then d.hashes.Keys
    else if d.lists != map[] then d.lists.Keys
    else if d.sets != map[] then d.sets.Keys
    else if d.zsets != map[] then d.zsets.Keys
    else if d.streams != map[] then d.streams.Keys
    else d.hlls
  }

  ghost predicate OldestOf(key: string, sample: set<string>, accessTime: map<string, int>)
    requires sample <= accessTime.Keys
  {
    key in sample && forall k :: k in sample ==> accessTime[key] <= accessTime[k]
  }

  /** The sample names no winner: it is empty, has no time below the largest one, or the blank key comes first. */
  ghost predicate Inconclusive(sample: set<string>, accessTime: map<string, int>)
    requires sample <= accessTime.Keys
  {
    OldestOf("", sample, accessTime) || forall k :: k in sample ==> MaxInt64 <= accessTime[k]
  }

  method SampleOldest(accessTime: map<string, int>) returns (oldest: string, ghost sample: set<string>)
    ensures sample <= accessTime.Keys && |sample| == if |accessTime| < 5 then |accessTime| else 5
    ensures if oldest != "" then OldestOf(oldest, sample, accessTime) else Inconclusive(sample, accessTime)
    ensures oldest != "" ==> oldest in sample && forall k :: k in sample ==> accessTime[oldest] <= accessTime[k]
  {
    oldest, sample := "", {};
    var oldestTime, sampled, todo := MaxInt64, 0, accessTime.Keys;
    while todo != {} && sampled < 5
      invariant todo <= accessTime.Keys && sample == accessTime.Keys - todo && sampled == |sample| <= 5
      invariant (oldest == "" && oldestTime == MaxInt64) || (oldest in sample && accessTime[oldest] == oldestTime)
      invariant forall k :: k in sample ==> oldestTime <= accessTime[k]
      decreases |todo|
    {
      var key :| key in todo;
      todo, sample := todo - {key}, sample + {key};
      if accessTime[key] < oldestTime { oldest, oldestTime := key, accessTime[key]; }
      sampled := sampled + 1;
    }
    SampleSize(accessTime, sample, todo);
  }

  lemma SampleSize(accessTime: map<string, int>, sample: set<string>, todo: set<string>)
    requires todo <= accessTime.Keys && sample == accessTime.Keys - todo
    ensures |accessTime| == |sample| + |todo|
  {
    assert accessTime.Keys == sample + todo;
    assert |accessTime| == |accessTime.Keys|;
  }

  lemma Progress(d: Data, key: string, access: map<string, int>, access': map<string, int>)
    requires Nearer(d, key, access, access')
    ensures var d' := Without(d, {key});
            var before, after := |Keys(d)| + |d.expires|, |Keys(d')| + |d'.expires|;
            after < before || (after == before && |access'| < |access|)
  {
    hide Keys;
    WithoutKeys(d, {key});
    var d' := Without(d, {key});
    FewerKeys(Keys(d), key);
    FewerKeys(d.expires.Keys, key);
    assert d'.expires.Keys == d.expires.Keys - {key};
    assert |d.expires| == |d.expires.Keys| && |d'.expires| == |d'.expires.Keys|;
    if key in access && access' == access - {key} {
      FewerKeys(access.Keys, key);
      assert access'.Keys == access.Keys - {key};
      assert |access| == |access.Keys| && |access'| == |access'.Keys|;
    }
  }

  lemma FewerKeys(s: set<string>, key: string)
    ensures |s - {key}| == |s| - if key in s then 1 else 0
  {
    if key in s { assert s == (s - {key}) + {key}; } else { assert s == s - {key}; }
  }

  // ----- what each kind of key adds -----

  lemma EmptyStore()
    ensures Footprint(Data(map[], map[], map[], map[], map[], map[], {}, map[])) == 0
  {
    EmptyFootprint(Data(map[], map[], map[], map[], map[], map[], {}, map[]));
  }

  /** A string adds the lengths of its key and its value, and 64. */
  lemma StringAdds(d: Data, k: string, s: string)
    requires k !in d.kv
    ensures Footprint(d.(kv := d.kv[k := s])) == Footprint(d) + |k| + |s| + 64
  {
    hide Sum, HashWeights, EntryWeight;
    var d' := d.(kv := d.kv[k := s]);
    SumUpdate(KvWeights(d), k, |k| + |s| + 64);
    assert KvWeights(d') == KvWeights(d)[k := |k| + |s| + 64];
    assert HashesWeights(d') == HashesWeights(d) && ListWeights(d') == ListWeights(d);
    assert SetWeights(d') == SetWeights(d);
    assert ZSetWeights(d') == ZSetWeights(d) && StreamWeights(d') == StreamWeights(d);
    assert HllWeights(d') == HllWeights(d);
  }

  /** A list adds the length of its key, 64, and 48 for every element, however long. */
  lemma ListAdds(d: Data, k: string, l: seq<string>)
    requires k !in d.lists
    ensures Footprint(d.(lists := d.lists[k := l])) == Footprint(d) + |k| + 64 + 48 * |l|
  {
    hide Sum, HashWeights, EntryWeight;
    var d' := d.(lists := d.lists[k := l]);
    SumUpdate(ListWeights(d), k, |k| + 64 + |l| * 48);
    assert ListWeights(d') == ListWeights(d)[k := |k| + 64 + |l| * 48];
    assert KvWeights(d') == KvWeights(d) && HashesWeights(d') == HashesWeights(d) && SetWeights(d') == SetWeights(d);
    assert ZSetWeights(d') == ZSetWeights(d) && StreamWeights(d') == StreamWeights(d);
    assert HllWeights(d') == HllWeights(d);
  }

  /** So does a set. */
  lemma SetAdds(d: Data, k: string, m: set<string>)
    requires k !in d.sets
    ensures Footprint(d.(sets := d.sets[k := m])) == Footprint(d) + |k| + 64 + 48 * |m|
  {
    hide Sum, HashWeights, EntryWeight;
    var d' := d.(sets := d.sets[k := m]);
    SumUpdate(SetWeights(d), k, |k| + 64 + |m| * 48);
    assert SetWeights(d') == SetWeights(d)[k := |k| + 64 + |m| * 48];
    assert KvWeights(d') == KvWeights(d) && HashesWeights(d') == HashesWeights(d) && ListWeights(d') == ListWeights(d);
    assert ZSetWeights(d') == ZSetWeights(d) && StreamWeights(d') == StreamWeights(d);
    assert HllWeights(d') == HllWeights(d);
  }

  /** A sorted set adds 64 for every member. */
  lemma ZSetAdds(d: Data, k: string, z: map<string, real>)
    requires k !in d.zsets
    ensures Footprint(d.(zsets := d.zsets[k := z])) == Footprint(d) + |k| + 64 + 64 * |z|
  {
    hide Sum, HashWeights, EntryWeight;
    var d' := d.(zsets := d.zsets[k := z]);
    SumUpdate(ZSetWeights(d), k, |k| + 64 + |z| * 64);
    assert ZSetWeights(d') == ZSetWeights(d)[k := |k| + 64 + |z| * 64];
    assert KvWeights(d') == KvWeights(d) && HashesWeights(d') == HashesWeights(d) && ListWeights(d') == ListWeights(d);
    assert SetWeights(d') == SetWeights(d) && StreamWeights(d') == StreamWeights(d) && HllWeights(d') == HllWeights(d);
  }

  /** A HyperLogLog adds its registers. */
  lemma HllAdds(d: Data, k: string)
    requires k !in d.hlls
    ensures Footprint(d.(hlls := d.hlls + {k})) == Footprint(d) + |k| + 16384 + 64
  {
    hide Sum, HashWeights, EntryWeight;
    var d' := d.(hlls := d.hlls + {k});
    SumUpdate(HllWeights(d), k, |k| + HllRegisters + 64);
    assert HllWeights(d') == HllWeights(d)[k := |k| + HllRegisters + 64];
    assert KvWeights(d') == KvWeights(d) && HashesWeights(d') == HashesWeights(d) && ListWeights(d') == ListWeights(d);
    assert SetWeights(d') == SetWeights(d) && ZSetWeights(d') == ZSetWeights(d);
    assert StreamWeights(d') == StreamWeights(d);
  }

  /** A hash adds the length of its key, 64, and for every field the lengths of name and value and 32. */
  lemma HashAdds(d: Data, k: string, h: map<string, string>, f: string, v: string)
    requires k !in d.hashes && f !in h
    ensures Footprint(d.(hashes := d.hashes[k := map[]])) == Footprint(d) + |k| + 64
    ensures Footprint(d.(hashes := d.hashes[k := h[f := v]])) ==
              Footprint(d.(hashes := d.hashes[k := h])) + |f| + |v| + 32
  {
    hide Sum, Footprint;
    WholeHashAdds(d, k, map[]);
    WholeHashAdds(d, k, h);
    WholeHashAdds(d, k, h[f := v]);
    EmptySum();
    assert HashWeights(map[]) == map[];
    SumUpdate(HashWeights(h), f, |f| + |v| + 32);
    assert HashWeights(h[f := v]) == HashWeights(h)[f := |f| + |v| + 32];
  }

  lemma WholeHashAdds(d: Data, k: string, h: map<string, string>)
    requires k !in d.hashes
    ensures Footprint(d.(hashes := d.hashes[k := h])) == Footprint(d) + |k| + 64 + Sum(HashWeights(h))
  {
    hide Sum, HashWeights, EntryWeight;
    var d' := d.(hashes := d.hashes[k := h]);
    SumUpdate(HashesWeights(d), k, |k| + 64 + Sum(HashWeights(h)));
    assert HashesWeights(d') == HashesWeights(d)[k := |k| + 64 + Sum(HashWeights(h))];
    assert KvWeights(d') == KvWeights(d) && ListWeights(d') == ListWeights(d) && SetWeights(d') == SetWeights(d);
    assert ZSetWeights(d') == ZSetWeights(d) && StreamWeights(d') == StreamWeights(d);
    assert HllWeights(d') == HllWeights(d);
  }

  /** A stream adds 64, for every entry the length of its ID and 48, and for every field its length and 16. */
  lemma StreamAdds(d: Data, k: string, es: seq<Entry>, id: string, fields: seq<string>, f: string)
    requires k !in d.streams
    ensures Footprint(d.(streams := d.streams[k := []])) == Footprint(d) + |k| + 64
    ensures Footprint(d.(streams := d.streams[k := [Entry(id, [])] + es])) ==
              Footprint(d.(streams := d.streams[k := es])) + |id| + 48
    ensures Footprint(d.(streams := d.streams[k := [Entry(id, [f] + fields)] + es])) ==
              Footprint(d.(streams := d.streams[k := [Entry(id, fields)] + es])) + |f| + 16
  {
    hide Sum, Footprint;
    WholeStreamAdds(d, k, []);
    WholeStreamAdds(d, k, es);
    WholeStreamAdds(d, k, [Entry(id, [])] + es);
    WholeStreamAdds(d, k, [Entry(id, fields)] + es);
    WholeStreamAdds(d, k, [Entry(id, [f] + fields)] + es);
    assert forall e :: ([e] + es)[1..] == es;
    assert ([f] + fields)[1..] == fields;
  }

  lemma WholeStreamAdds(d: Data, k: string, es: seq<Entry>)
    requires k !in d.streams
    ensures Footprint(d.(streams := d.streams[k := es])) == Footprint(d) + |k| + 64 + EntryWeight(es)
  {
    hide Sum, HashWeights, EntryWeight;
    var d' := d.(streams := d.streams[k := es]);
    SumUpdate(StreamWeights(d), k, |k| + 64 + EntryWeight(es));
    assert StreamWeights(d') == StreamWeights(d)[k := |k| + 64 + EntryWeight(es)];
    assert KvWeights(d') == KvWeights(d) && HashesWeights(d') == HashesWeights(d) && ListWeights(d') == ListWeights(d);
    assert SetWeights(d') == SetWeights(d) && ZSetWeights(d') == ZSetWeights(d) && HllWeights(d') == HllWeights(d);
  }

  /** The policies that evict, and the one that looks at keys with an expiry time only. */
  lemma PolicyNames(policy: string)
    ensures Evicts(policy) <==> policy in ["allkeys-random", "volatile-random", "allkeys-lru"]
    ensures OnlyVolatile(policy) <==> policy == "volatile-random"
  {}
}
