/**
 * Sorted sets (internal/store/sortedset.go): a score map and a slice ordered by (score, member).
 * The slice is shown to be the one strictly ordered listing of the map, so the fast queries on
 * the slice equal definitions that mention the map alone.
 */
module SortedSets {
  import opened Strings
  import opened Search

  datatype ZMember = ZMember(member: string, score: real)

  predicate Before(a: ZMember, b: ZMember) {
    a.score < b.score || (a.score == b.score && Less(a.member, b.member))
  }

  lemma BeforeTransitive(a: ZMember, b: ZMember, c: ZMember)
    requires Before(a, b) && Before(b, c)
    ensures Before(a, c)
  {
    if a.score == b.score == c.score { LessTransitive(a.member, b.member, c.member); }
  }

  lemma BeforeAsymmetric(a: ZMember, b: ZMember)
    requires Before(a, b)
    ensures !Before(b, a) && a != b
  {
    if Less(a.member, b.member) { LessAsymmetric(a.member, b.member); }
    LessIrreflexive(a.member);
  }

  lemma BeforeTotal(a: ZMember, b: ZMember)
    ensures Before(a, b) || a == b || Before(b, a)
  {
    LessTotal(a.member, b.member);
  }

  ghost predicate Sorted(s: seq<ZMember>) {
    forall i, j :: 0 <= i < j < |s| ==> Before(s[i], s[j])
  }

  lemma SortedAt(s: seq<ZMember>, i: nat, j: nat)
    requires Sorted(s) && i < j < |s|
    ensures Before(s[i], s[j])
  {}

  /** The strictly ordered listing of a score map. */
  ghost predicate Lists(s: seq<ZMember>, m: map<string, real>) {
    && Sorted(s)
    && (forall i :: 0 <= i < |s| ==> s[i].member in m && m[s[i].member] == s[i].score)
    && (forall x :: x in m ==> ZMember(x, m[x]) in s)
  }

  /** A map has only one listing: the slice holds no information beyond the map. */
  lemma {:induction false} ListingUnique(s: seq<ZMember>, t: seq<ZMember>, m: map<string, real>)
    requires Lists(s, m) && Lists(t, m)
    ensures s == t
    decreases |s|
  {
    if t != [] { ListedInBoth(t, s, m, 0); }
    if s != [] {
      ListedInBoth(s, t, m, 0);
      SameHead(s, t);
      DropHead(s, m); DropHead(t, m);
      ListingUnique(s[1..], t[1..], m - {s[0].member});
      assert s == [s[0]] + s[1..] && t == [t[0]] + t[1..];
    }
  }

  lemma ListedInBoth(s: seq<ZMember>, t: seq<ZMember>, m: map<string, real>, i: nat)
    requires Lists(s, m) && Lists(t, m) && i < |s|
    ensures s[i] in t
  {
    assert s[i] == ZMember(s[i].member, m[s[i].member]);
  }

  lemma SameHead(s: seq<ZMember>, t: seq<ZMember>)
    requires Sorted(s) && Sorted(t) && s != [] && t != [] && s[0] in t && t[0] in s
    ensures s[0] == t[0]
  {
    if s[0] != t[0] { BeforeAsymmetric(s[0], t[0]); }
  }

  lemma DropHead(s: seq<ZMember>, m: map<string, real>)
    requires Lists(s, m) && s != []
    ensures Lists(s[1..], m - {s[0].member})
  {
    forall i | 0 <= i < |s[1..]| ensures s[1..][i].member != s[0].member {
      if s[i + 1].member == s[0].member { BeforeAsymmetric(s[0], s[i + 1]); }
    }
  }

  // ----- definitions over the map alone -----

  /** The listing of a map, by inserting its members one by one in any order. */
  ghost function Listing(m: map<string, real>): seq<ZMember> {
    if m == map[] then [] else
      var x :| x in m;
      Inserted(Listing(m - {x}), ZMember(x, m[x]))
  }

  function Inserted(s: seq<ZMember>, z: ZMember): seq<ZMember> {
    var k := Place(s, z);
    s[..k] + [z] + s[k..]
  }

  function Place(s: seq<ZMember>, z: ZMember): (k: nat)
    ensures k <= |s| && (forall i :: 0 <= i < k ==> Before(s[i], z)) && (k < |s| ==> !Before(s[k], z))
  {
    if s == [] || !Before(s[0], z) then 0 else 1 + Place(s[1..], z)
  }

  lemma {:induction false} ListingLists(m: map<string, real>)
    ensures Lists(Listing(m), m)
  {
    hide Inserted, Before;
    if m != map[] {
      var x :| x in m && Listing(m) == Inserted(Listing(m - {x}), ZMember(x, m[x]));
      ListingLists(m - {x});
      InsertedLists(Listing(m - {x}), m - {x}, ZMember(x, m[x]));
      assert m == (m - {x})[x := m[x]];
    }
  }

  lemma InsertedLists(rest: seq<ZMember>, m: map<string, real>, z: ZMember)
    requires Lists(rest, m) && z.member !in m
    ensures Lists(Inserted(rest, z), m[z.member := z.score])
  {
    var k := Place(rest, z);
    forall i | k <= i < |rest| ensures Before(z, rest[i]) {
      BeforeTotal(z, rest[k]);
      if k < i { BeforeTransitive(z, rest[k], rest[i]); }
    }
    InsertLists(rest, m, k, z);
  }

  lemma EmptyListing()
    ensures Listing(map[]) == []
  {}

  /** Being a listing of the map and being THE listing of the map are the same. */
  lemma ListingIs(s: seq<ZMember>, m: map<string, real>)
    ensures Lists(s, m) <==> s == Listing(m)
  {
    ListingLists(m);
    if Lists(s, m) { ListingUnique(s, Listing(m), m); }
  }

  ghost function Smaller(m: map<string, real>, z: ZMember): set<string> {
    set x | x in m && Before(ZMember(x, m[x]), z)
  }

  ghost function Scored(m: map<string, real>, min: real, max: real): set<string> {
    set x | x in m && min <= m[x] <= max
  }

  ghost function Restrict(m: map<string, real>, keep: set<string>): map<string, real> {
    map x | x in m && x in keep :: m[x]
  }

  ghost predicate AllBefore(s: seq<ZMember>, m: map<string, real>) {
    forall z, x :: z in s && x in m ==> Before(z, ZMember(x, m[x]))
  }

  ghost predicate AllAfter(s: seq<ZMember>, m: map<string, real>) {
    forall z, x :: z in s && x in m ==> Before(ZMember(x, m[x]), z)
  }

  // ----- facts about listings -----

  function Names(s: seq<ZMember>): set<string> {
    set z | z in s :: z.member
  }

  lemma {:induction false} NamesCount(s: seq<ZMember>, m: map<string, real>)
    requires Lists(s, m)
    ensures Names(s) == m.Keys && |Names(s)| == |s|
    decreases |s|
  {
    hide Before;
    forall x | x in m ensures x in Names(s) { assert ZMember(x, m[x]) in s; }
    if s != [] {
      DropHead(s, m);
      NamesCount(s[1..], m - {s[0].member});
      assert Names(s) == {s[0].member} + Names(s[1..]);
    }
  }

  lemma ListingSize(m: map<string, real>)
    ensures |Listing(m)| == |m|
  {
    ListingLists(m);
    NamesCount(Listing(m), m);
    assert |m.Keys| == |m|;
  }

  /** A contiguous piece of a listing lists the restriction of the map to its members. */
  lemma PieceLists(s: seq<ZMember>, m: map<string, real>, lo: nat, hi: nat)
    requires Lists(s, m) && lo <= hi <= |s|
    ensures Lists(s[lo..hi], Restrict(m, Names(s[lo..hi])))
  {}

  /** The position of a member in a listing is the number of members before it. */
  lemma RankIsSmaller(s: seq<ZMember>, m: map<string, real>, k: nat)
    requires Lists(s, m) && k < |s|
    ensures |Smaller(m, s[k])| == k
  {
    var p := s[..k];
    PieceLists(s, m, 0, k);
    assert s[0..k] == p;
    NamesCount(p, Restrict(m, Names(p)));
    assert Smaller(m, s[k]) == Names(p) by {
      forall x | x in Smaller(m, s[k]) ensures x in Names(p) {
        var j :| 0 <= j < |s| && s[j] == ZMember(x, m[x]);
        if j >= k { if j > k { BeforeAsymmetric(s[k], s[j]); } else { BeforeAsymmetric(s[j], s[k]); } }
        assert s[j] == p[j];
      }
    }
  }

  lemma RemoveLists(s: seq<ZMember>, m: map<string, real>, k: nat)
    requires Lists(s, m) && k < |s|
    ensures Lists(s[..k] + s[k + 1..], m - {s[k].member})
  {
    hide Before;
    var t := s[..k] + s[k + 1..];
    assert forall i :: 0 <= i < |t| ==> t[i] == s[if i < k then i else i + 1];
    forall i | 0 <= i < |s| && i != k ensures s[i].member != s[k].member {
      if s[i].member == s[k].member { SameMember(s, m, i, k); }
    }
    forall x | x in m - {s[k].member} ensures ZMember(x, m[x]) in t {
      var j := IndexOf(s, m, x);
      assert t[if j < k then j else j - 1] == s[j];
    }
  }

  lemma InsertLists(s: seq<ZMember>, m: map<string, real>, k: nat, z: ZMember)
    requires Lists(s, m) && k <= |s| && z.member !in m
    requires forall i :: 0 <= i < k ==> Before(s[i], z)
    requires forall i :: k <= i < |s| ==> Before(z, s[i])
    ensures Lists(s[..k] + [z] + s[k..], m[z.member := z.score])
  {
    var t := s[..k] + [z] + s[k..];
    assert forall i :: 0 <= i < |t| && i != k ==> t[i] == s[if i < k then i else i - 1];
    var m' := m[z.member := z.score];
    forall x | x in m' ensures ZMember(x, m'[x]) in t {
      if x == z.member { assert t[k] == z; } else {
        var j :| 0 <= j < |s| && s[j] == ZMember(x, m[x]);
        assert t[if j < k then j else j + 1] == s[j];
      }
    }
  }

  class SortedSet {
    var scores: map<string, real>
    var ordered: seq<ZMember>

    ghost predicate Valid() reads this { ordered == Listing(scores) }

    constructor ()
      ensures Valid() && scores == map[]
    {
      scores, ordered := map[], [];
    }

    /** A sorted set built by adding the members of a map in any order. */
    constructor Of(m: map<string, real>)
      ensures Valid() && scores == m
    {
      scores, ordered := map[], [];
      new;
      EmptyListing();
      var todo := m.Keys;
      while todo != {}
        invariant Valid() && todo <= m.Keys && scores.Keys == m.Keys - todo
        invariant forall x :: x in scores ==> scores[x] == m[x]
        decreases |todo|
      {
        var x :| x in todo;
        todo := todo - {x};
        var _ := Add(x, m[x]);
      }
    }

    /** Binary search for the place of (score, member) among the strictly ordered entries. */
    method FindPos(score: real, member: string) returns (pos: nat)
      requires Sorted(ordered)
      ensures pos <= |ordered|
      ensures forall i :: 0 <= i < pos ==> Before(ordered[i], ZMember(member, score))
      ensures forall i :: pos <= i < |ordered| ==> !Before(ordered[i], ZMember(member, score))
    {
      var o, z := ordered, ZMember(member, score);
      var f := (i: nat) => i < |o| &&
        if o[i].score != score then o[i].score > score else o[i].member == member || Less(member, o[i].member);
      forall i | 0 <= i < |o| ensures f(i) <==> !Before(o[i], z) { NotBefore(o[i], z); }
      forall i, j | 0 <= i <= j < |o| && f(i) ensures f(j) {
        if i < j && Before(o[j], z) { BeforeTransitive(o[i], o[j], z); }
      }
      pos := FirstTrue(|o|, f);
    }

    /** Where the entry of a present member is found. */
    method Locate(member: string, score: real) returns (pos: nat)
      requires Valid() && member in scores && scores[member] == score
      ensures pos < |ordered| && ordered[pos] == ZMember(member, score)
    {
      ListingLists(scores);
      pos := FindPos(score, member);
      var z := ZMember(member, score);
      assert ZMember(member, scores[member]) in ordered;
      var j :| 0 <= j < |ordered| && ordered[j] == z;
      if j < pos { BeforeAsymmetric(ordered[j], z); }
      if pos < j { SortedAt(ordered, pos, j); }
    }

    method InsertOrdered(member: string, score: real)
      requires Valid() && member !in scores
      modifies this`ordered
      ensures ordered == Listing(scores[member := score])
    {
      ListingLists(scores);
      var pos := FindPos(score, member);
      var z := ZMember(member, score);
      forall i | pos <= i < |ordered| ensures Before(z, ordered[i]) { BeforeTotal(z, ordered[i]); }
      InsertLists(ordered, scores, pos, z);
      ListingIs(ordered[..pos] + [z] + ordered[pos..], scores[member := score]);
      ordered := ordered[..pos] + [z] + ordered[pos..];
    }

    method RemoveOrdered(member: string, score: real)
      requires Valid() && member in scores && scores[member] == score
      modifies this`ordered
      ensures ordered == Listing(scores - {member})
    {
      ListingLists(scores);
      var pos := Locate(member, score);
      if pos < |ordered| && ordered[pos].member == member {
        RemoveLists(ordered, scores, pos);
        ListingIs(ordered[..pos] + ordered[pos + 1..], scores - {member});
        ordered := ordered[..pos] + ordered[pos + 1..];
      }
    }

    /** The map is updated at the member, and the slice stays the listing of the map. */
    method Add(member: string, score: real) returns (isNew: bool)
      requires Valid()
      modifies this
      ensures Valid() && scores == old(scores)[member := score]
      ensures isNew == (member !in old(scores))
    {
      if member in scores {
        var oldScore := scores[member];
        if oldScore == score { return false; }
        RemoveOrdered(member, oldScore);
        scores := scores - {member};
        InsertOrdered(member, score);
        scores := scores[member := score];
        return false;
      }
      InsertOrdered(member, score);
      scores := scores[member := score];
      return true;
    }

    method Remove(member: string) returns (existed: bool)
      requires Valid()
      modifies this
      ensures Valid() && scores == old(scores) - {member}
      ensures existed == (member in old(scores))
    {
      if member !in scores { return false; }
      RemoveOrdered(member, scores[member]);
      scores := scores - {member};
      return true;
    }

    /** The rank is the number of members that precede, counted on the map. */
    method Rank(member: string) returns (rank: nat, ok: bool)
      requires Valid()
      ensures ok == (member in scores)
      ensures ok ==> rank == |Smaller(scores, ZMember(member, scores[member]))|
    {
      if member !in scores { return 0, false; }
      rank := Locate(member, scores[member]);
      ListingLists(scores);
      RankIsSmaller(ordered, scores, rank);
      return rank, true;
    }

    method Range(start: int, stop: int) returns (out: seq<ZMember>)
      requires Valid()
      ensures out == Window(Listing(scores), start, stop)
    {
      WindowIsSlice(ordered, start, stop);
      var b := NormalizeRange(start, stop, |ordered|);
      out := if b.Empty? then [] else ordered[b.lo..b.hi + 1];
    }

    /** The same window over the listing read backwards. */
    method RevRange(start: int, stop: int) returns (out: seq<ZMember>)
      requires Valid()
      ensures out == Window(Backwards(Listing(scores)), start, stop)
    {
      var n := |ordered|;
      WindowIsSlice(Backwards(ordered), start, stop);
      var b := NormalizeRange(start, stop, n);
      if b.Empty? { return []; }
      out := [];
      for i := 0 to b.hi - b.lo + 1
        invariant out == Backwards(ordered)[b.lo..b.lo + i]
      {
        out := out + [ordered[n - 1 - b.lo - i]];
      }
    }

    /** The first position whose score reaches `min`. */
    method LowerBound(min: real) returns (start: nat)
      requires Valid()
      ensures start <= |ordered|
      ensures forall i :: 0 <= i < start ==> ordered[i].score < min
      ensures forall i :: start <= i < |ordered| ==> min <= ordered[i].score
    {
      hide Listing;
      ScoresAscend(scores);
      var o := ordered;
      var f := (i: nat) => i < |o| && o[i].score >= min;
      forall i, j | 0 <= i <= j < |o| && f(i) ensures f(j) { assert o[i].score <= o[j].score; }
      start := FirstTrue(|o|, f);
      assert forall i :: 0 <= i < |o| ==> (f(i) <==> o[i].score >= min);
    }

    /** ZRANGEBYSCORE with LIMIT: list the members in the score band, skip, then take. */
    method RangeByScore(min: real, max: real, offset: int, count: int) returns (result: seq<ZMember>)
      requires Valid()
      ensures result == Limit(Listing(Restrict(scores, Scored(scores, min, max))), offset, count)
    {
      hide Listing, BandEnd, Limit, Restrict, Scored;
      var start := LowerBound(min);
      ghost var a, b;
      result, a, b := ScanBand(ordered, start, max, offset, count);
      LimitOfSlice(ordered, start, BandEnd(ordered, max, start), offset, count);
      BandListing(scores, min, max, start);
    }

    method CountByScore(min: real, max: real) returns (n: nat)
      requires Valid()
      ensures n == |Scored(scores, min, max)|
    {
      var start := LowerBound(min);
      n := 0;
      var i := start;
      while i < |ordered|
        invariant start <= i <= |ordered| && n == i - start
        invariant BandEnd(ordered, max, start) == BandEnd(ordered, max, i)
      {
        if ordered[i].score > max { break; }
        n := n + 1;
        i := i + 1;
      }
      BandListing(scores, min, max, start);
      ghost var band := Restrict(scores, Scored(scores, min, max));
      ListingSize(band);
      assert band.Keys == Scored(scores, min, max);
    }

    /** The popped members are the listing's first ones; the map loses exactly those. */
    method PopMin(count: int) returns (result: seq<ZMember>)
      requires Valid()
      modifies this
      ensures Valid()
      ensures |result| == PopCount(count, |old(scores)|) <= |Listing(old(scores))|
      ensures result == Listing(old(scores))[0..|result|]
      ensures scores == old(scores) - Names(result) && AllBefore(result, scores)
    {
      hide Listing, AllBefore, Names;
      ListingSize(scores);
      NoneTaken(scores);
      var n := PopCount(count, |ordered|);
      if n == 0 { return []; }
      result := ordered[0..n];
      CutListing(scores, n);
      DeleteScores(result);
      ordered := ordered[n..];
    }

    method PopMax(count: int) returns (result: seq<ZMember>)
      requires Valid()
      modifies this
      ensures Valid()
      ensures |result| == PopCount(count, |old(scores)|) <= |Listing(old(scores))|
      ensures var all := Listing(old(scores)); result == Backwards(all[|all| - |result|..|all|])
      ensures scores == old(scores) - Names(result) && AllAfter(result, scores)
    {
      hide Listing, AllAfter, Names, Backwards;
      ListingSize(scores);
      NoneTaken(scores);
      var n := PopCount(count, |ordered|);
      if n == 0 {
        assert ordered[|ordered|..|ordered|] == [];
        return [];
      }
      var start := |ordered| - n;
      var top := ordered[start..|ordered|];
      CutListing(scores, start);
      BackwardsNames(top);
      BackwardsAfter(top, scores - Names(top));
      result := ReverseInPlace(top);
      DeleteScores(result);
      ordered := ordered[..start];
    }

    /** Any run of additions, removals and pops acts on the map alone; the slice follows. */
    method Run(ops: seq<Op>)
      requires Valid()
      modifies this
      ensures Valid() && scores == Fold(old(scores), ops)
    {
      hide Listing, Step;
      assert ops[0..] == ops;
      for i := 0 to |ops|
        invariant Valid() && Fold(scores, ops[i..]) == Fold(old(scores), ops)
      {
        assert ops[i..][1..] == ops[i + 1..];
        Do(ops[i]);
      }
    }

    method Do(op: Op)
      requires Valid()
      modifies this
      ensures Valid() && scores == Step(old(scores), op)
    {
      hide Listing, Names, Backwards, AllBefore, AllAfter;
      ListingSize(scores);
      match op {
        case Put(member, score) => var _ := Add(member, score);
        case Drop(member) => var _ := Remove(member);
        case TakeMin(count) => var _ := PopMin(count);
        case TakeMax(count) =>
          BackwardsNames(Listing(scores)[|ordered| - PopCount(count, |ordered|)..|ordered|]);
          var _ := PopMax(count);
      }
    }

    method DeleteScores(gone: seq<ZMember>)
      modifies this`scores
      ensures scores == old(scores) - Names(gone)
    {
      for i := 0 to |gone|
        invariant scores == old(scores) - Names(gone[..i])
      {
        scores := scores - {gone[i].member};
        assert Names(gone[..i + 1]) == Names(gone[..i]) + {gone[i].member};
      }
      assert gone[..|gone|] == gone;
    }
  }

  /** The first position from `i` on whose score exceeds `max`. */
  function BandEnd(s: seq<ZMember>, max: real, i: nat): (k: nat)
    requires i <= |s|
    ensures i <= k <= |s|
    decreases |s| - i
  {
    if i == |s| || s[i].score > max then i else BandEnd(s, max, i + 1)
  }

  lemma {:induction false} BandEndIs(s: seq<ZMember>, max: real, i: nat)
    requires i <= |s|
    ensures var k := BandEnd(s, max, i);
            (forall j :: i <= j < k ==> s[j].score <= max) && (k < |s| ==> s[k].score > max)
    decreases |s| - i
  {
    if i < |s| && s[i].score <= max { BandEndIs(s, max, i + 1); }
  }

  /** The scan collects one contiguous piece of the slice. */
  method ScanBand(s: seq<ZMember>, start: nat, max: real, offset: int, count: int)
      returns (result: seq<ZMember>, ghost a: nat, ghost b: nat)
    requires start <= |s|
    ensures var stop := BandEnd(s, max, start);
            && a == start + Clip(offset, stop - start) && b == TakeEnd(a, count, stop)
            && result == s[a..b]
  {
    result := [];
    var skipped, i := 0, start;
    while i < |s|
      invariant start <= i <= |s| && BandEnd(s, max, start) == BandEnd(s, max, i)
      invariant skipped == Clip(offset, i - start)
      invariant result == s[start + skipped..i] && |result| == i - start - skipped
      invariant count > 0 ==> |result| < count
    {
      if s[i].score > max { break; }
      if offset > 0 && skipped < offset {
        skipped := skipped + 1;
        assert s[start + skipped..i + 1] == [];
      } else {
        SnocSlice(s, start + skipped, i);
        result := result + [s[i]];
        if count > 0 && |result| >= count { return result, start + skipped, i + 1; }
      }
      i := i + 1;
    }
    return result, start + skipped, i;
  }

  /** Where taking `count` elements from `a` on stops. */
  function TakeEnd(a: nat, count: int, stop: nat): nat
    requires a <= stop
  {
    if count <= 0 || a + count >= stop then stop else a + count
  }

  lemma SnocSlice(s: seq<ZMember>, lo: nat, i: nat)
    requires lo <= i < |s|
    ensures s[lo..i] + [s[i]] == s[lo..i + 1] && |s[lo..i + 1]| == i + 1 - lo
  {}

  /** How many of `n` elements a LIMIT offset skips. */
  function Clip(offset: int, n: nat): nat {
    if offset <= 0 then 0 else if offset <= n then offset else n
  }

  lemma BandLists(s: seq<ZMember>, m: map<string, real>, min: real, max: real, start: nat)
    requires Lists(s, m) && start <= |s|
    requires forall k :: 0 <= k < start ==> s[k].score < min
    requires forall k :: start <= k < |s| ==> min <= s[k].score
    ensures Lists(s[start..BandEnd(s, max, start)], Restrict(m, Scored(m, min, max)))
  {
    hide BandEnd, Less;
    var stop := BandEnd(s, max, start);
    BandEndIs(s, max, start);
    var band := s[start..stop];
    forall x | x in Scored(m, min, max) ensures ZMember(x, m[x]) in band {
      var j := IndexOf(s, m, x);
      if stop <= j { assert false; }
      assert band[j - start] == s[j];
    }
  }

  lemma BandListing(m: map<string, real>, min: real, max: real, start: nat)
    requires start <= |Listing(m)|
    requires forall k :: 0 <= k < start ==> Listing(m)[k].score < min
    requires forall k :: start <= k < |Listing(m)| ==> min <= Listing(m)[k].score
    ensures Listing(m)[start..BandEnd(Listing(m), max, start)] == Listing(Restrict(m, Scored(m, min, max)))
  {
    ListingLists(m);
    BandLists(Listing(m), m, min, max, start);
    ListingIs(Listing(m)[start..BandEnd(Listing(m), max, start)], Restrict(m, Scored(m, min, max)));
  }

  datatype Op = Put(member: string, score: real) | Drop(member: string) | TakeMin(count: int) | TakeMax(count: int)

  ghost function Step(m: map<string, real>, op: Op): map<string, real> {
    var all := Listing(m);
    match op
    case Put(member, score) => m[member := score]
    case Drop(member) => m - {member}
    case TakeMin(count) => m - Names(all[0..PopCount(count, |all|)])
    case TakeMax(count) => m - Names(all[|all| - PopCount(count, |all|)..|all|])
  }

  ghost function Fold(m: map<string, real>, ops: seq<Op>): map<string, real>
    decreases |ops|
  {
    if ops == [] then m else Fold(Step(m, ops[0]), ops[1..])
  }

  function PopCount(count: int, size: nat): (n: nat)
    ensures n <= size
  {
    var wanted := if count <= 0 then 1 else count;
    if wanted > size then size else wanted
  }

  lemma NotBefore(a: ZMember, z: ZMember)
    ensures !Before(a, z) <==>
            if a.score != z.score then a.score > z.score else a.member == z.member || Less(z.member, a.member)
  {
    LessTotal(a.member, z.member);
    LessIrreflexive(a.member);
    if Less(a.member, z.member) { LessAsymmetric(a.member, z.member); }
  }

  function Backwards(s: seq<ZMember>): seq<ZMember> {
    seq(|s|, i requires 0 <= i < |s| => s[|s| - 1 - i])
  }

  method ReverseInPlace(s: seq<ZMember>) returns (r: seq<ZMember>)
    ensures r == Backwards(s)
  {
    r := s;
    var i, j := 0, |s| - 1;
    while i < j
      invariant |r| == |s| && 0 <= i && i + j == |s| - 1 && i <= j + 1
      invariant forall k :: 0 <= k < i || j < k < |s| ==> r[k] == s[|s| - 1 - k]
      invariant forall k :: i <= k <= j ==> r[k] == s[k]
    {
      var x, y := r[i], r[j];
      r := r[i := y];
      r := r[j := x];
      i, j := i + 1, j - 1;
    }
  }

  lemma NoneTaken(m: map<string, real>)
    ensures m - Names([]) == m && AllBefore([], m) && AllAfter([], m) && Backwards([]) == []
  {
    assert Names([]) == {};
  }

  lemma BackwardsAfter(s: seq<ZMember>, m: map<string, real>)
    requires AllAfter(s, m)
    ensures AllAfter(Backwards(s), m)
  {
    hide Before, Backwards;
    BackwardsNames(s);
  }

  lemma BackwardsNames(s: seq<ZMember>)
    ensures |Backwards(s)| == |s|
    ensures Backwards(Backwards(s)) == s && Names(Backwards(s)) == Names(s)
    ensures forall z :: z in Backwards(s) ==> z in s
  {
    forall z | z in s ensures z in Backwards(s) {
      var i :| 0 <= i < |s| && s[i] == z;
      assert Backwards(s)[|s| - 1 - i] == z;
    }
  }

  /** LIMIT offset count, where a non-positive offset skips nothing and a non-positive count takes all. */
  function Limit(s: seq<ZMember>, offset: int, count: int): seq<ZMember> {
    var rest := if offset <= 0 then s else if offset >= |s| then [] else s[offset..];
    if count <= 0 || count >= |rest| then rest else rest[..count]
  }

  lemma SliceOfSlice(s: seq<ZMember>, a: nat, b: nat, n: nat)
    requires a + n <= b <= |s|
    ensures s[a..b][..n] == s[a..a + n]
  {}

  lemma LimitOfSlice(s: seq<ZMember>, start: nat, stop: nat, offset: int, count: int)
    requires start <= stop <= |s|
    ensures var a := start + Clip(offset, stop - start);
            Limit(s[start..stop], offset, count) == s[a..TakeEnd(a, count, stop)]
  {
    var o := Clip(offset, stop - start);
    assert s[start..stop][o..] == s[start + o..stop];
    var rest := s[start + o..stop];
    if 0 < count < |rest| { SliceOfSlice(s, start + o, stop, count); }
  }

  /** Equal members sit at equal positions, so the two halves of a listing share no member. */
  lemma SameMember(s: seq<ZMember>, m: map<string, real>, i: nat, j: nat)
    requires Lists(s, m) && i < |s| && j < |s| && s[i].member == s[j].member
    ensures i == j
  {
    assert s[i] == s[j];
    if i < j { SortedAt(s, i, j); BeforeAsymmetric(s[i], s[j]); }
    else if j < i { SortedAt(s, j, i); BeforeAsymmetric(s[j], s[i]); }
  }

  lemma IndexOf(s: seq<ZMember>, m: map<string, real>, x: string) returns (j: nat)
    requires Lists(s, m) && x in m
    ensures j < |s| && s[j] == ZMember(x, m[x])
  {
    j :| j < |s| && s[j] == ZMember(x, m[x]);
  }

  /** What is left after cutting off positions `[lo, hi)` of a listing is still ordered against it. */
  lemma CutOff(s: seq<ZMember>, m: map<string, real>, lo: nat, hi: nat, x: string) returns (j: nat)
    requires Lists(s, m) && lo <= hi <= |s| && x in m && x !in Names(s[lo..hi])
    ensures j < |s| && (j < lo || hi <= j) && s[j] == ZMember(x, m[x])
  {
    j := IndexOf(s, m, x);
    if lo <= j < hi { assert false; }
  }

  lemma SuffixLists(s: seq<ZMember>, m: map<string, real>, k: nat)
    requires Lists(s, m) && k <= |s|
    ensures Lists(s[k..], m - Names(s[0..k]))
  {
    var rest := m - Names(s[0..k]);
    forall i | k <= i < |s| ensures s[i].member in rest { NotAmong(s, m, 0, k, i); }
    forall x | x in rest ensures ZMember(x, rest[x]) in s[k..] {
      var j := CutOff(s, m, 0, k, x);
      assert s[k..][j - k] == s[j];
    }
  }

  lemma PrefixLists(s: seq<ZMember>, m: map<string, real>, k: nat)
    requires Lists(s, m) && k <= |s|
    ensures Lists(s[..k], m - Names(s[k..|s|]))
  {
    var rest := m - Names(s[k..|s|]);
    forall i | 0 <= i < k ensures s[i].member in rest { NotAmong(s, m, k, |s|, i); }
    forall x | x in rest ensures ZMember(x, rest[x]) in s[..k] {
      var j := CutOff(s, m, k, |s|, x);
      assert s[..k][j] == s[j];
    }
  }

  lemma NotAmong(s: seq<ZMember>, m: map<string, real>, lo: nat, hi: nat, i: nat)
    requires Lists(s, m) && lo <= hi <= |s| && i < |s| && !(lo <= i < hi)
    ensures s[i].member !in Names(s[lo..hi])
  {
    if z :| z in s[lo..hi] && z.member == s[i].member {
      var j :| 0 <= j < hi - lo && s[lo..hi][j] == z;
      SameMember(s, m, i, lo + j);
    }
  }

  lemma CutOrder(s: seq<ZMember>, m: map<string, real>, k: nat)
    requires Lists(s, m) && k <= |s|
    ensures AllBefore(s[0..k], m - Names(s[0..k])) && AllAfter(s[k..|s|], m - Names(s[k..|s|]))
  {
    forall z, x | z in s[0..k] && x in m - Names(s[0..k]) ensures Before(z, ZMember(x, m[x])) {
      var i :| 0 <= i < k && s[0..k][i] == z;
      var j := CutOff(s, m, 0, k, x);
      SortedAt(s, i, j);
    }
    forall z, x | z in s[k..|s|] && x in m - Names(s[k..|s|]) ensures Before(ZMember(x, m[x]), z) {
      var i :| 0 <= i < |s| - k && s[k..|s|][i] == z;
      var j := CutOff(s, m, k, |s|, x);
      SortedAt(s, j, k + i);
    }
  }

  lemma CutListing(m: map<string, real>, k: nat)
    requires k <= |Listing(m)|
    ensures var s := Listing(m);
            var low, high := s[0..k], s[k..|s|];
            && low == Listing(Restrict(m, Names(low))) && high == Listing(Restrict(m, Names(high)))
            && s[k..] == Listing(m - Names(low)) && s[..k] == Listing(m - Names(high))
            && AllBefore(low, m - Names(low)) && AllAfter(high, m - Names(high))
  {
    var s := Listing(m);
    ListingLists(m);
    PieceLists(s, m, 0, k);
    PieceLists(s, m, k, |s|);
    SuffixLists(s, m, k);
    PrefixLists(s, m, k);
    CutOrder(s, m, k);
    ListingIs(s[0..k], Restrict(m, Names(s[0..k])));
    ListingIs(s[k..|s|], Restrict(m, Names(s[k..|s|])));
    ListingIs(s[k..], m - Names(s[0..k]));
    ListingIs(s[..k], m - Names(s[k..|s|]));
  }

  // ----- what is listed, in other words -----

  /** Every member once with its score, by score and then by name. */
  lemma ListedIs(m: map<string, real>)
    ensures var l := Listing(m);
            && (forall z :: z in l <==> z.member in m && m[z.member] == z.score)
            && forall i, j :: 0 <= i < j < |l| ==>
                 l[i].score < l[j].score || (l[i].score == l[j].score && Less(l[i].member, l[j].member))
  {
    hide Listing, Less;
    ListingLists(m);
    var l := Listing(m);
    forall z | z in l ensures z.member in m && m[z.member] == z.score { var i :| 0 <= i < |l| && l[i] == z; }
  }

  lemma ScoresAscend(m: map<string, real>)
    ensures forall i, j :: 0 <= i <= j < |Listing(m)| ==> Listing(m)[i].score <= Listing(m)[j].score
  {
    hide Listing, Less;
    ListedIs(m);
  }

  /** ZRANGEBYSCORE: the listing of the members whose score lies between the two bounds, both included. */
  lemma BandIs(m: map<string, real>, min: real, max: real)
    ensures var l := Listing(Restrict(m, Scored(m, min, max)));
            && (forall z :: z in l <==> z.member in m && m[z.member] == z.score && min <= z.score <= max)
            && forall i, j :: 0 <= i < j < |l| ==>
                 l[i].score < l[j].score || (l[i].score == l[j].score && Less(l[i].member, l[j].member))
    ensures forall x :: x in Scored(m, min, max) <==> x in m && min <= m[x] <= max
  {
    hide Listing, Less;
    ListedIs(Restrict(m, Scored(m, min, max)));
  }

  /** LIMIT skips `offset` elements and keeps `count`, or all if that is not positive. */
  lemma LimitIs(s: seq<ZMember>, offset: int, count: int, i: nat)
    ensures var r := Limit(s, offset, count); var from := if offset <= 0 then 0 else offset;
            && (i < |r| <==> from + i < |s| && (count <= 0 || i < count))
            && (i < |r| ==> r[i] == s[from + i])
  {}

  /** A pop takes one if the count is not positive, and never more than there are; backwards, the last comes first. */
  lemma PopsAre(s: seq<ZMember>, count: int)
    ensures PopCount(count, |s|) ==
              if |s| == 0 then 0 else if count <= 1 then 1 else if count < |s| then count else |s|
    ensures |Backwards(s)| == |s| && forall i :: 0 <= i < |s| ==> Backwards(s)[i] == s[|s| - 1 - i]
  {}
}
