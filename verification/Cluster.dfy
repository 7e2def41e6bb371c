/**
 * Cluster membership and slot ownership (internal/server/cluster.go). After every change of
 * membership the 16384 slots are shared out again by node ID; ownership is compared with a
 * definition that knows only the set of active IDs.
 */
module Clusters {
  import opened Common
  import opened Strings

  const SlotCount := 16384

  datatype State = Online | Failing | Offline | Unset

  datatype Node = Node(id: string, addr: string, start: int, end: int, isSelf: bool, state: State)

  predicate Active(n: Node) { n.isSelf || n.state == Online || n.state == Unset }

  predicate Covers(n: Node, slot: int) { n.start <= slot <= n.end }

  predicate IsSlot(slot: int) { 0 <= slot < SlotCount }

  /** No slot has two nodes. */
  ghost predicate Separate(nodes: seq<Node>) {
    forall slot, i, j :: IsSlot(slot) && 0 <= i < j < |nodes| ==> !(Covers(nodes[i], slot) && Covers(nodes[j], slot))
  }

  ghost predicate Covered(nodes: seq<Node>, slot: int) { exists i :: 0 <= i < |nodes| && Covers(nodes[i], slot) }

  /** Every slot has exactly one node. */
  ghost predicate Partitioned(nodes: seq<Node>) {
    Separate(nodes) && forall slot :: IsSlot(slot) ==> Covered(nodes, slot)
  }

  // ----- the ranges -----

  function StartOf(j: nat, n: nat): int requires n > 0 { j * (SlotCount / n) }

  function EndOf(j: nat, n: nat): int requires n > 0 {
    if j == n - 1 then SlotCount - 1 else (j + 1) * (SlotCount / n) - 1
  }

  /** Which of `n` ranges a slot falls in; with more nodes than slots the last node has them all. */
  function RangeIndex(slot: int, n: nat): (j: nat)
    requires n > 0 && IsSlot(slot)
    ensures j < n
  {
    var width := SlotCount / n;
    if width == 0 then n - 1 else
      var j := slot / width;
      if j < n then j else n - 1
  }

  lemma RangesCover(j: nat, n: nat, slot: int)
    requires j < n && IsSlot(slot)
    ensures StartOf(j, n) <= slot <= EndOf(j, n) <==> j == RangeIndex(slot, n)
  {
    var w := SlotCount / n;
    if w > 0 {
      var q := slot / w;
      QuotientBounds(slot, w);
      if j < q { MulGrows(j + 1, q, w); }
      if j > q { MulGrows(q + 1, j, w); }
    }
  }

  lemma QuotientBounds(x: nat, w: nat)
    requires w > 0
    ensures (x / w) * w <= x < (x / w + 1) * w
  {
    assert x == (x / w) * w + x % w;
  }

  lemma MulGrows(a: nat, b: nat, w: nat)
    requires a <= b
    ensures a * w <= b * w
  {
    assert b * w == a * w + (b - a) * w;
    assert (b - a) * w >= 0;
  }

  // ----- an assignment of slots -----

  /** The indices of the active nodes, each once, in order of node ID. */
  ghost predicate IsOrder(nodes: seq<Node>, order: seq<nat>) {
    && (forall j :: 0 <= j < |order| ==> order[j] < |nodes| && Active(nodes[order[j]]))
    && (forall i :: 0 <= i < |nodes| && Active(nodes[i]) ==> i in order)
    && (forall j, k :: 0 <= j < k < |order| ==> order[j] != order[k])
    && (forall j, k :: 0 <= j < k < |order| ==> !Less(nodes[order[k]].id, nodes[order[j]].id))
  }

  ghost predicate SameExceptRange(a: Node, b: Node) {
    b == a.(start := b.start, end := b.end)
  }

  /** Node `order[j]` gets range `j`, every other node gets none. */
  ghost predicate Assigned(before: seq<Node>, after: seq<Node>, order: seq<nat>)
    requires IsOrder(before, order)
  {
    && |after| == |before|
    && (forall i :: 0 <= i < |before| ==> SameExceptRange(before[i], after[i]))
    && (forall j :: 0 <= j < |order| ==>
          after[order[j]].start == StartOf(j, |order|) && after[order[j]].end == EndOf(j, |order|))
    && (forall i :: 0 <= i < |before| && i !in order ==> after[i].start == -1 == after[i].end)
  }

  /** For any number of nodes, and whatever order nodes with equal IDs end up in. */
  lemma AssignmentPartitions(before: seq<Node>, after: seq<Node>, order: seq<nat>)
    requires IsOrder(before, order) && order != [] && Assigned(before, after, order)
    ensures Partitioned(after)
  {
    hide StartOf, EndOf, RangeIndex;
    var n := |order|;
    forall slot | IsSlot(slot) ensures Covered(after, slot) {
      var j := RangeIndex(slot, n);
      RangesCover(j, n, slot);
      assert Covers(after[order[j]], slot);
    }
    forall slot, i, k | IsSlot(slot) && 0 <= i < k < |after|
      ensures !(Covers(after[i], slot) && Covers(after[k], slot))
    {
      if Covers(after[i], slot) && Covers(after[k], slot) {
        CoveringIndex(before, after, order, slot, i);
        CoveringIndex(before, after, order, slot, k);
      }
    }
  }

  lemma CoveringIndex(before: seq<Node>, after: seq<Node>, order: seq<nat>, slot: int, i: nat)
    requires IsOrder(before, order) && order != [] && Assigned(before, after, order)
    requires IsSlot(slot) && i < |after|
    ensures Covers(after[i], slot) <==> i == order[RangeIndex(slot, |order|)]
  {
    hide StartOf, EndOf, RangeIndex;
    var n := |order|;
    if i in order {
      var j :| 0 <= j < n && order[j] == i;
      RangesCover(j, n, slot);
    }
    RangesCover(RangeIndex(slot, n), n, slot);
  }

  // ----- ownership from the set of IDs alone -----

  function Smaller(ids: set<string>, x: string): set<string> {
    set y | y in ids && Less(y, x)
  }

  /** The owner of a slot is the ID whose rank among the active IDs is the index of the slot's range. */
  ghost predicate Owns(ids: set<string>, slot: int, x: string)
    requires IsSlot(slot)
  {
    x in ids && |Smaller(ids, x)| == RangeIndex(slot, |ids|)
  }

  ghost function ActiveIds(nodes: seq<Node>): set<string> {
    set i | 0 <= i < |nodes| && Active(nodes[i]) :: nodes[i].id
  }

  ghost predicate DistinctActive(nodes: seq<Node>) {
    forall i, j :: 0 <= i < j < |nodes| && Active(nodes[i]) && Active(nodes[j]) ==> nodes[i].id != nodes[j].id
  }

  /** The IDs in assignment order. */
  ghost function Listed(nodes: seq<Node>, order: seq<nat>): (s: seq<string>)
    requires forall j :: 0 <= j < |order| ==> order[j] < |nodes|
  {
    seq(|order|, j requires 0 <= j < |order| => nodes[order[j]].id)
  }

  /** In an ascending list, the element at position `j` has exactly `j` smaller ones. */
  lemma RankIsPosition(s: seq<string>, j: nat)
    requires Ascending(s) && j < |s|
    ensures |Smaller(SetOf(s), s[j])| == j
  {
    AscendingSize(s[..j]);
    forall x | x in Smaller(SetOf(s), s[j]) ensures x in SetOf(s[..j]) {
      var i :| 0 <= i < |s| && s[i] == x;
      if i >= j { NotAbove(s, j, i); }
      assert s[..j][i] == x;
    }
    assert Smaller(SetOf(s), s[j]) == SetOf(s[..j]);
  }

  lemma NotAbove(s: seq<string>, j: nat, i: nat)
    requires Ascending(s) && j <= i < |s|
    ensures !Less(s[i], s[j])
  {
    if i == j { LessIrreflexive(s[j]); } else { LessAsymmetric(s[j], s[i]); }
  }

  lemma ListedAscends(nodes: seq<Node>, order: seq<nat>)
    requires IsOrder(nodes, order) && DistinctActive(nodes)
    ensures Ascending(Listed(nodes, order)) && SetOf(Listed(nodes, order)) == ActiveIds(nodes)
  {
    var s := Listed(nodes, order);
    forall j, k | 0 <= j < k < |s| ensures Less(s[j], s[k]) {
      LessTotal(s[j], s[k]);
      assert order[j] != order[k];
    }
    forall x | x in ActiveIds(nodes) ensures x in SetOf(s) {
      var i :| 0 <= i < |nodes| && Active(nodes[i]) && nodes[i].id == x;
      var j :| 0 <= j < |order| && order[j] == i;
      assert s[j] == x;
    }
  }

  /** With distinct active IDs, what a node covers depends on the set of active IDs and nothing else. */
  lemma AssignmentIsCanonical(before: seq<Node>, after: seq<Node>, order: seq<nat>, slot: int, i: nat)
    requires IsOrder(before, order) && order != [] && Assigned(before, after, order) && DistinctActive(before)
    requires IsSlot(slot) && i < |after|
    ensures Covers(after[i], slot) <==> Active(before[i]) && Owns(ActiveIds(before), slot, after[i].id)
  {
    hide RangeIndex, StartOf, EndOf;
    var s, ids, n := Listed(before, order), ActiveIds(before), |order|;
    ListedAscends(before, order);
    AscendingSize(s);
    CoveringIndex(before, after, order, slot, i);
    if Active(before[i]) {
      var j :| 0 <= j < n && order[j] == i;
      RankIsPosition(s, j);
      assert s[j] == before[i].id == after[i].id;
      assert after[i].id in ids;
    }
  }

  /** Among the active IDs there is exactly one owner of each slot. */
  lemma ExactlyOneOwner(ids: set<string>, slot: int)
    requires IsSlot(slot) && ids != {}
    ensures exists x :: Owns(ids, slot, x)
    ensures forall x, y :: Owns(ids, slot, x) && Owns(ids, slot, y) ==> x == y
  {
    hide RangeIndex;
    var s := SortSet(ids);
    AscendingSize(s);
    var j := RangeIndex(slot, |ids|);
    RankIsPosition(s, j);
    assert Owns(ids, slot, s[j]);
    forall x | Owns(ids, slot, x) ensures x == s[j] {
      var i :| 0 <= i < |s| && s[i] == x;
      RankIsPosition(s, i);
    }
  }

  // ----- hash tags -----

  function IndexOf(s: string, c: char): (i: int)
    ensures -1 <= i < |s| && (i >= 0 ==> s[i] == c)
  {
    if s == "" then -1 else if s[0] == c then 0 else
      var i := IndexOf(s[1..], c); if i < 0 then -1 else i + 1
  }

  /** The part of a key that is hashed: a non-empty `{tag}`, or the whole key. */
  function HashTag(key: string): string {
    var start := IndexOf(key, '{');
    if start < 0 then key else
      var end := IndexOf(key[start + 1..], '}');
      if end > 0 then key[start + 1..start + 1 + end] else key
  }

  function Slot(key: string, crc: string -> nat): (slot: int)
    ensures IsSlot(slot)
  {
    crc(HashTag(key)) % SlotCount
  }

  lemma {:induction false} IndexAfter(pre: string, c: char, post: string)
    requires c !in pre
    ensures IndexOf(pre + [c] + post, c) == |pre|
  {
    var s := pre + [c] + post;
    if pre != "" {
      assert s[1..] == pre[1..] + [c] + post && s[0] == pre[0];
      IndexAfter(pre[1..], c, post);
    }
  }

  /** Keys that share a hash tag share a slot. */
  lemma TagDecidesSlot(pre: string, tag: string, post: string, crc: string -> nat)
    requires '{' !in pre && tag != "" && '}' !in tag
    ensures Slot(pre + "{" + tag + "}" + post, crc) == crc(tag) % SlotCount
  {
    var key := pre + "{" + tag + "}" + post;
    assert key == pre + ['{'] + (tag + ['}'] + post);
    IndexAfter(pre, '{', tag + ['}'] + post);
    assert key[|pre| + 1..] == tag + ['}'] + post;
    IndexAfter(tag, '}', post);
    assert key[|pre| + 1..|pre| + 1 + |tag|] == tag;
  }

  lemma {:induction false} IndexNone(s: string, c: char)
    ensures IndexOf(s, c) == -1 <==> c !in s
  {
    if s != "" {
      IndexNone(s[1..], c);
      assert s == [s[0]] + s[1..];
    }
  }

  /** The whole key is hashed if it has no tag: no opening brace, or none closed after the first, or nothing between. */
  lemma NoTagHashesAll(pre: string, post: string, crc: string -> nat)
    requires '{' !in pre
    ensures Slot(pre, crc) == crc(pre) % 16384
    ensures '}' !in post ==> Slot(pre + "{" + post, crc) == crc(pre + "{" + post) % 16384
    ensures Slot(pre + "{}" + post, crc) == crc(pre + "{}" + post) % 16384
  {
    IndexNone(pre, '{');
    var key := pre + "{" + post;
    assert key == pre + ['{'] + post;
    IndexAfter(pre, '{', post);
    assert key[|pre| + 1..] == post;
    IndexNone(post, '}');
    var empty := pre + "{}" + post;
    assert empty == pre + ['{'] + ("}" + post);
    IndexAfter(pre, '{', "}" + post);
    assert empty[|pre| + 1..] == "" + ['}'] + post;
    IndexAfter("", '}', post);
  }

  /** A range begins where that many equal shares of the 16384 slots end; the last goes on to the last slot. */
  lemma ShareOf(slot: int, n: nat, j: nat)
    requires 0 <= slot < 16384 && 0 < n <= 16384 && j < n
    ensures RangeIndex(slot, n) == j <==>
              j * (16384 / n) <= slot && (j < n - 1 ==> slot < (j + 1) * (16384 / n))
  {
    RangesCover(j, n, slot);
  }

  /** Active are the local node and those that were online, or not yet checked, at the last check. */
  lemma ChecksDecide(n: Node, reached: bool, longSilent: bool)
    ensures Active(n.(state := if reached then Online else if longSilent then Offline else Failing)) <==>
              n.isSelf || reached
    ensures n.state == Unset ==> Active(n)
  {}

  // ----- sorting and assigning -----

  ghost predicate SortedById(nodes: seq<Node>, order: seq<nat>) {
    && (forall j :: 0 <= j < |order| ==> order[j] < |nodes|)
    && (forall j, k :: 0 <= j < k < |order| ==> order[j] != order[k] && !Less(nodes[order[k]].id, nodes[order[j]].id))
  }

  method InsertById(nodes: seq<Node>, order: seq<nat>, x: nat) returns (r: seq<nat>)
    requires SortedById(nodes, order) && x < |nodes| && x !in order
    ensures SortedById(nodes, r) && |r| == |order| + 1 && forall i :: i in r <==> i == x || i in order
  {
    var k := 0;
    while k < |order| && !Less(nodes[x].id, nodes[order[k]].id)
      invariant 0 <= k <= |order|
      invariant forall j :: 0 <= j < k ==> !Less(nodes[x].id, nodes[order[j]].id)
    {
      k := k + 1;
    }
    r := order[..k] + [x] + order[k..];
    InsertedSorted(nodes, order, k, x);
    InsertedMembers(order, k, x);
  }

  lemma InsertedSorted(nodes: seq<Node>, order: seq<nat>, k: nat, x: nat)
    requires SortedById(nodes, order) && x < |nodes| && x !in order && k <= |order|
    requires forall j :: 0 <= j < k ==> !Less(nodes[x].id, nodes[order[j]].id)
    requires k < |order| ==> Less(nodes[x].id, nodes[order[k]].id)
    ensures SortedById(nodes, order[..k] + [x] + order[k..])
  {
    hide Less;
    var r := order[..k] + [x] + order[k..];
    forall i, j | 0 <= i < j < |r| ensures r[i] != r[j] && !Less(nodes[r[j]].id, nodes[r[i]].id) {
      var i', j' := if i < k then i else i - 1, if j < k then j else j - 1;
      if i == k {
        AfterPlace(nodes, order, k, x, j');
      } else if j != k {
        assert r[i] == order[i'] && r[j] == order[j'];
      }
    }
  }

  lemma InsertedMembers(order: seq<nat>, k: nat, x: nat)
    requires k <= |order|
    ensures forall i :: i in order[..k] + [x] + order[k..] <==> i == x || i in order
  {
    assert order == order[..k] + order[k..];
  }

  lemma AfterPlace(nodes: seq<Node>, order: seq<nat>, k: nat, x: nat, j: nat)
    requires SortedById(nodes, order) && x < |nodes| && k <= j < |order|
    requires Less(nodes[x].id, nodes[order[k]].id)
    ensures !Less(nodes[order[j]].id, nodes[x].id)
  {
    if Less(nodes[order[j]].id, nodes[x].id) {
      LessTransitive(nodes[order[j]].id, nodes[x].id, nodes[order[k]].id);
      LessIrreflexive(nodes[order[k]].id);
    }
  }

  /** The active indices, sorted by ID. */
  method ActiveOrder(nodes: seq<Node>) returns (order: seq<nat>)
    ensures IsOrder(nodes, order) && ((forall i :: 0 <= i < |nodes| ==> Active(nodes[i])) ==> |order| == |nodes|)
  {
    order := [];
    for i := 0 to |nodes|
      invariant SortedById(nodes, order)
      invariant forall k :: k in order <==> 0 <= k < i && Active(nodes[k])
      invariant (forall k :: 0 <= k < i ==> Active(nodes[k])) ==> |order| == i
    {
      if Active(nodes[i]) { order := InsertById(nodes, order, i); }
    }
    assert forall j :: 0 <= j < |order| ==> order[j] in order;
  }

  method AssignRanges(nodes: seq<Node>, order: seq<nat>) returns (r: seq<Node>)
    requires IsOrder(nodes, order) && order != []
    ensures Assigned(nodes, r, order)
  {
    hide StartOf, EndOf;
    r := nodes;
    for i := 0 to |r|
      invariant |r| == |nodes|
      invariant forall k :: 0 <= k < |r| ==> SameExceptRange(nodes[k], r[k])
      invariant forall k :: 0 <= k < i ==> r[k].start == -1 == r[k].end
    {
      r := r[i := r[i].(start := -1, end := -1)];
    }
    for j := 0 to |order|
      invariant |r| == |nodes|
      invariant forall k :: 0 <= k < |r| ==> SameExceptRange(nodes[k], r[k])
      invariant forall k :: 0 <= k < j ==>
                  r[order[k]].start == StartOf(k, |order|) && r[order[k]].end == EndOf(k, |order|)
      invariant forall k :: 0 <= k < |r| && k !in order ==> r[k].start == -1 == r[k].end
    {
      var idx := order[j];
      r := r[idx := r[idx].(start := StartOf(j, |order|), end := EndOf(j, |order|))];
    }
  }

  /** Where ownership follows from the IDs alone, every covering node is the canonical owner. */
  ghost predicate Canonical(nodes: seq<Node>, members: set<string>) {
    forall slot, i :: IsSlot(slot) && 0 <= i < |nodes| && Covers(nodes[i], slot) ==> Owns(members, slot, nodes[i].id)
  }

  lemma AssignmentFacts(before: seq<Node>, after: seq<Node>, order: seq<nat>)
    requires IsOrder(before, order) && order != [] && Assigned(before, after, order)
    ensures Partitioned(after) && (DistinctActive(before) ==> Canonical(after, ActiveIds(before)))
  {
    hide Partitioned, Owns, ActiveIds, DistinctActive, IsOrder;
    AssignmentPartitions(before, after, order);
    if DistinctActive(before) {
      forall slot, i | IsSlot(slot) && 0 <= i < |after| && Covers(after[i], slot)
        ensures Owns(ActiveIds(before), slot, after[i].id)
      {
        AssignmentIsCanonical(before, after, order, slot, i);
      }
    }
  }

  // ----- the cluster object -----

  ghost predicate SomeActive(nodes: seq<Node>) { exists i :: 0 <= i < |nodes| && Active(nodes[i]) }

  /** A node of the initial list: the local one, marked, or a peer, and as yet online. */
  ghost predicate Initial(n: Node, selfId: string, addr: string, peers: seq<(string, string)>) {
    && n.isSelf == (n.id == selfId) && n.state == Online
    && ((n.id == selfId && n.addr == addr) || (n.id, n.addr) in peers)
  }

  ghost predicate LastWith(nodes: seq<Node>, id: string, i: int) {
    0 <= i < |nodes| && nodes[i].id == id && forall k :: i < k < |nodes| ==> nodes[k].id != id
  }

  ghost predicate FirstWith(nodes: seq<Node>, id: string, i: int) {
    0 <= i < |nodes| && nodes[i].id == id && forall k :: 0 <= k < i ==> nodes[k].id != id
  }

  class Cluster {
    var nodes: seq<Node>
    var self: Node
    /** The active IDs at the latest assignment, and whether they were distinct. */
    ghost var members: set<string>
    ghost var distinct: bool

    /** What holds at all times: no slot has two nodes, and with distinct IDs only its owner has it. */
    ghost predicate Valid() reads this {
      Separate(nodes) && (distinct ==> Canonical(nodes, members))
    }

    /** The local node is listed, and every entry under its ID carries the `Self` flag. */
    ghost predicate SelfMarked() reads this { Marked(nodes, self) }

    constructor (selfId: string, addr: string, peers: seq<(string, string)>)
      ensures Valid() && Partitioned(nodes) && SelfMarked() && self.id == selfId
      ensures |nodes| == |peers| + 1 && forall i :: 0 <= i < |nodes| ==> Initial(nodes[i], selfId, addr, peers)
      ensures distinct == DistinctActive(nodes) && members == ActiveIds(nodes)
      ensures members == {selfId} + set i | 0 <= i < |peers| :: peers[i].0
    {
      hide Separate, Partitioned, Canonical, Initial, DistinctActive, ActiveIds, Marked;
      var all, mine := InitialList(selfId, addr, peers);
      nodes, self := all, mine;
      members, distinct := ActiveIds(all), DistinctActive(all);
    }

    /** Clears all ranges and shares the slots out again among the active nodes, if there are any. */
    method Rebalance()
      modifies this
      ensures |nodes| == |old(nodes)| && forall i :: 0 <= i < |nodes| ==> SameExceptRange(old(nodes)[i], nodes[i])
      ensures SomeActive(old(nodes)) ==>
                && Valid() && Partitioned(nodes)
                && members == ActiveIds(old(nodes)) && distinct == DistinctActive(old(nodes))
                && (forall i :: 0 <= i < |nodes| && !Active(nodes[i]) ==> nodes[i].start == -1 == nodes[i].end)
                && (forall i :: LastWith(nodes, self.id, i) ==> self == nodes[i])
      ensures !SomeActive(old(nodes)) ==> unchanged(this)
      ensures self.id == old(self).id && (self == old(self) || self in nodes)
      ensures old(SelfMarked()) ==> SelfMarked()
    {
      hide Separate, Covered, Canonical, IsOrder, DistinctActive, ActiveIds, StartOf, EndOf;
      var order := ActiveOrder(nodes);
      OrderEmpty(nodes, order);
      if order == [] { return; }
      var ranged := AssignRanges(nodes, order);
      AssignmentFacts(nodes, ranged, order);
      InactiveHaveNone(nodes, ranged, order);
      members, distinct := ActiveIds(nodes), DistinctActive(nodes);
      nodes := ranged;
      var mine := Refreshed(nodes, self);
      assert old(SelfMarked()) ==> mine.isSelf by {
        assert forall i :: 0 <= i < |nodes| ==> nodes[i].isSelf == old(nodes)[i].isSelf;
      }
      self := mine;
      if old(SelfMarked()) { MarkedByRange(old(nodes), old(self), nodes, self); }
    }

    /**
     * Joins a node. `fetched` is what the remote node answered to CLUSTER MYID, empty if it could
     * not be reached. A node that answers with the local ID costs the local entry its mark.
     */
    method Meet(addr: string, fetched: string) returns (ok: bool)
      requires Valid()
      modifies this
      ensures Valid() && self.id == old(self).id
      ensures ok <==> fetched != "" || exists i :: 0 <= i < |old(nodes)| && old(nodes)[i].addr == addr
      ensures old(SelfMarked()) && fetched != self.id ==> SelfMarked()
      ensures if Joins(old(nodes), addr, fetched)
              then Joined(old(nodes), nodes, Node(fetched, addr, 0, 0, false, Online), self, members)
              else unchanged(this)
    {
      for i := 0 to |nodes|
        invariant forall k :: 0 <= k < i ==> nodes[k].addr != addr
        invariant unchanged(this)
      {
        if nodes[i].addr == addr { return true; }
      }
      if fetched == "" { return false; }
      Join(Node(fetched, addr, 0, 0, false, Online));
      return true;
    }

    method Join(n: Node)
      requires n.state == Online && !n.isSelf
      modifies this
      ensures Valid() && self.id == old(self).id && (old(SelfMarked()) && n.id != self.id ==> SelfMarked())
      ensures Joined(old(nodes), nodes, n, self, members)
    {
      hide Separate, Covered, Canonical, DistinctActive, ActiveIds;
      ghost var before := nodes;
      ActiveIdsJoin(nodes, n);
      nodes := nodes + [n];
      assert nodes[|before|] == n && Active(n);
      if old(SelfMarked()) && n.id != self.id {
        ghost var i :| 0 <= i < |before| && before[i].id == self.id;
        assert nodes[i] == before[i];
        assert SelfMarked();
      }
      Rebalance();
    }

    /**
     * Removes every entry under an ID. The slots stay shared out exactly when some other node is
     * active, or none of the removed entries had any.
     */
    method Forget(id: string) returns (ok: bool)
      requires Valid()
      modifies this
      ensures Valid() && self.id == old(self).id && (old(SelfMarked()) ==> SelfMarked())
      ensures ok <==> Leaves(old(nodes), self.id, id)
      ensures !ok ==> unchanged(this)
      ensures ok ==> Left(old(nodes), nodes, id)
      ensures ok && SomeOtherActive(old(nodes), id) ==> members == ActiveIds(old(nodes)) - {id}
      ensures ok ==> (Partitioned(nodes) <==>
                SomeOtherActive(old(nodes), id) || (Partitioned(old(nodes)) && HoldsNothing(old(nodes), id)))
    {
      hide Separate, Covered, Canonical, DistinctActive, ActiveIds, Covers, Left;
      if id == self.id { return false; }
      var kept, found;
      ghost var from;
      kept, found, from := Without(nodes, id);
      if !found { return false; }
      ActiveIdsForget(nodes, kept, id);
      FewerFacts(nodes, kept, from, id, members);
      if SelfMarked() { StillMarked(nodes, kept, id, self); }
      nodes := kept;
      assert old(SelfMarked()) ==> SelfMarked();
      Rebalance();
      LeftOver(old(nodes), kept, from, nodes, id);
      return true;
    }

    method Reset()
      modifies this
      ensures Valid() && Partitioned(nodes) && (old(self).isSelf ==> SelfMarked()) && members == {self.id} && distinct
      ensures nodes == [self] && self == old(self).(start := 0, end := SlotCount - 1, state := Online)
    {
      self := self.(start := 0, end := SlotCount - 1, state := Online);
      nodes := [self];
      members, distinct := {self.id}, true;
      OneNode(self);
      assert SelfMarked() <==> self.isSelf by { assert nodes[0] == self; }
    }

    /** One heartbeat result: only the health of the first node with that ID changes. */
    method Heartbeat(id: string, reached: bool, longSilent: bool)
      requires Valid()
      modifies this
      ensures Valid() && self == old(self) && members == old(members) && distinct == old(distinct)
      ensures (old(SelfMarked()) ==> SelfMarked()) && (Partitioned(nodes) <==> Partitioned(old(nodes)))
      ensures (forall i :: 0 <= i < |old(nodes)| ==> old(nodes)[i].id != id) ==> nodes == old(nodes)
      ensures forall i :: FirstWith(old(nodes), id, i) ==>
                nodes == old(nodes)[i := old(nodes)[i].(
                  state := if reached then Online else if longSilent then Offline else Failing)]
    {
      hide Partitioned, Separate, Canonical;
      for i := 0 to |nodes|
        invariant unchanged(this) && forall k :: 0 <= k < i ==> nodes[k].id != id
      {
        if nodes[i].id == id {
          ghost var before := nodes;
          nodes := nodes[i := nodes[i].(state := Health(reached, longSilent))];
          SameRangesSameFacts(before, nodes, members);
          SameRangesSameFacts(nodes, before, members);
          if old(SelfMarked()) {
            var k :| 0 <= k < |before| && before[k].id == self.id;
            assert nodes[k].id == self.id;
          }
          return;
        }
      }
    }

    /** The node that covers the key's slot, or else the local one; with distinct IDs, the canonical owner. */
    method Owner(key: string, crc: string -> nat) returns (n: Node)
      requires Valid()
      ensures if Covered(nodes, Slot(key, crc)) then n in nodes && Covers(n, Slot(key, crc)) else n == self
      ensures distinct && Covered(nodes, Slot(key, crc)) ==> Owns(members, Slot(key, crc), n.id)
    {
      hide Owns, Slot;
      var slot := Slot(key, crc);
      for i := 0 to |nodes|
        invariant forall k :: 0 <= k < i ==> !Covers(nodes[k], slot)
      {
        if slot >= nodes[i].start && slot <= nodes[i].end { return nodes[i]; }
      }
      n := self;
    }

    method SelfOwns(key: string, crc: string -> nat) returns (mine: bool)
      requires Valid()
      ensures if Covered(nodes, Slot(key, crc))
              then distinct ==> (mine <==> Owns(members, Slot(key, crc), self.id))
              else mine
    {
      hide Owns, Slot, Separate, Canonical, Covers, Covered;
      var owner := Owner(key, crc);
      if distinct && Covered(nodes, Slot(key, crc)) {
        Owners(members, Slot(key, crc), owner.id);
        ExactlyOneOwner(members, Slot(key, crc));
      }
      mine := owner.id == self.id;
    }

    /** One change: whether the slots are shared out afterwards can be told before it is made. */
    method Do(change: Change)
      requires Valid()
      modifies this
      ensures Valid() && self.id == old(self).id
      ensures Partitioned(nodes) <==> KeepsSlots(old(nodes), old(self).id, change)
      ensures old(SelfMarked()) && !Impersonates(change, self.id) ==> SelfMarked()
    {
      hide Partitioned, Separate, Canonical, Joins, Leaves, SomeOtherActive, HoldsNothing;
      match change {
        case Join(addr, fetched) => var _ := Meet(addr, fetched);
        case Leave(id) => var _ := Forget(id);
        case ResetAll => Reset();
        case Beat(id, reached, longSilent) => Heartbeat(id, reached, longSilent);
      }
    }

    /**
     * Any run of joins, removals, resets and heartbeats: no slot ever has two nodes, and as long as
     * no other node answers with the local ID every slot has one.
     */
    method Serve(changes: seq<Change>)
      requires Valid()
      modifies this
      ensures Valid() && self.id == old(self).id
      ensures old(SelfMarked()) && Partitioned(old(nodes)) && Honest(changes, self.id) ==>
                SelfMarked() && Partitioned(nodes)
    {
      hide Partitioned, Separate, Canonical, KeepsSlots, Impersonates;
      for i := 0 to |changes|
        invariant Valid() && self.id == old(self).id
        invariant old(SelfMarked()) && Partitioned(old(nodes)) && Honest(changes, self.id) ==>
                    SelfMarked() && Partitioned(nodes)
      {
        if SelfMarked() && Partitioned(nodes) { MarkedKeepsSlots(nodes, self, changes[i]); }
        Do(changes[i]);
      }
    }
  }

  datatype Change =
    | Join(addr: string, fetched: string)
    | Leave(id: string)
    | ResetAll
    | Beat(id: string, reached: bool, longSilent: bool)

  /** Another node answers with the local ID. */
  predicate Impersonates(change: Change, selfId: string) { change.Join? && change.fetched == selfId }

  /** The local descriptor is refreshed from the last entry under its ID. */
  method Refreshed(nodes: seq<Node>, self: Node) returns (r: Node)
    ensures r.id == self.id && (r == self || r in nodes)
    ensures forall k :: LastWith(nodes, self.id, k) ==> r == nodes[k]
    ensures (forall i :: 0 <= i < |nodes| && nodes[i].id == self.id ==> nodes[i].isSelf) && self.isSelf ==> r.isSelf
  {
    r := self;
    for i := 0 to |nodes|
      invariant r.id == self.id && (r == self || r in nodes)
      invariant forall k :: LastWith(nodes[..i], self.id, k) ==> r == nodes[k]
      invariant (forall i :: 0 <= i < |nodes| && nodes[i].id == self.id ==> nodes[i].isSelf) && self.isSelf ==> r.isSelf
    {
      assert nodes[..i + 1] == nodes[..i] + [nodes[i]];
      if nodes[i].id == self.id { r := nodes[i]; }
    }
    assert nodes[..|nodes|] == nodes;
  }

  lemma MarkedByRange(before: seq<Node>, was: Node, after: seq<Node>, self: Node)
    requires Marked(before, was) && |after| == |before| && self.id == was.id && self.isSelf
    requires forall i :: 0 <= i < |before| ==> SameExceptRange(before[i], after[i])
    ensures Marked(after, self)
  {
    var i :| 0 <= i < |before| && before[i].id == was.id;
    assert after[i].id == self.id;
  }

  ghost predicate Honest(changes: seq<Change>, selfId: string) {
    forall i :: 0 <= i < |changes| ==> !Impersonates(changes[i], selfId)
  }

  function Health(reached: bool, longSilent: bool): State {
    if reached then Online else if longSilent then Offline else Failing
  }

  ghost predicate Joins(nodes: seq<Node>, addr: string, fetched: string) {
    fetched != "" && forall i :: 0 <= i < |nodes| ==> nodes[i].addr != addr
  }

  /** The new node is at the end, only ranges changed otherwise, and every slot has one node. */
  ghost predicate Joined(before: seq<Node>, after: seq<Node>, n: Node, self: Node, members: set<string>) {
    && Partitioned(after) && members == ActiveIds(before) + {n.id} && |after| == |before| + 1
    && (forall i :: 0 <= i < |after| ==> SameExceptRange((before + [n])[i], after[i]))
    && (forall i :: 0 <= i < |after| && !Active(after[i]) ==> after[i].start == -1 == after[i].end)
    && (forall i :: LastWith(after, self.id, i) ==> self == after[i])
  }

  ghost predicate Leaves(nodes: seq<Node>, selfId: string, id: string) {
    id != selfId && exists i :: 0 <= i < |nodes| && nodes[i].id == id
  }

  /** Every entry under the ID is gone; if that left nobody active, the others are as they were. */
  ghost predicate Left(before: seq<Node>, after: seq<Node>, id: string) {
    && (forall i :: 0 <= i < |after| ==> after[i].id != id && exists x :: x in before && SameExceptRange(x, after[i]))
    && (!SomeOtherActive(before, id) ==> forall x :: x in after <==> x in before && x.id != id)
  }

  lemma LeftOver(before: seq<Node>, kept: seq<Node>, from: seq<nat>, after: seq<Node>, id: string)
    requires IsRest(before, kept, from, id) && |after| == |kept|
    requires forall i :: 0 <= i < |kept| ==> SameExceptRange(kept[i], after[i])
    requires !SomeOtherActive(before, id) ==> after == kept
    ensures Left(before, after, id)
  {
    forall i | 0 <= i < |after| ensures after[i].id != id && exists x :: x in before && SameExceptRange(x, after[i]) {
      assert SameExceptRange(before[from[i]], after[i]);
    }
  }

  ghost predicate SomeOtherActive(nodes: seq<Node>, id: string) {
    exists i :: 0 <= i < |nodes| && nodes[i].id != id && Active(nodes[i])
  }

  ghost predicate HoldsNothing(nodes: seq<Node>, id: string) {
    forall i, slot :: 0 <= i < |nodes| && nodes[i].id == id && IsSlot(slot) ==> !Covers(nodes[i], slot)
  }

  /** Exactly when a change leaves every slot with one node. */
  ghost predicate KeepsSlots(nodes: seq<Node>, selfId: string, change: Change) {
    match change
    case Join(addr, fetched) => Joins(nodes, addr, fetched) || Partitioned(nodes)
    case Leave(id) =>
      if Leaves(nodes, selfId, id) then SomeOtherActive(nodes, id) || (Partitioned(nodes) && HoldsNothing(nodes, id))
      else Partitioned(nodes)
    case ResetAll => true
    case Beat(_, _, _) => Partitioned(nodes)
  }

  ghost predicate Marked(nodes: seq<Node>, self: Node) {
    && self.isSelf
    && (exists i :: 0 <= i < |nodes| && nodes[i].id == self.id)
    && (forall i :: 0 <= i < |nodes| && nodes[i].id == self.id ==> nodes[i].isSelf)
  }

  lemma MarkedKeepsSlots(nodes: seq<Node>, self: Node, change: Change)
    requires Marked(nodes, self) && Partitioned(nodes)
    ensures KeepsSlots(nodes, self.id, change)
  {
    hide Partitioned, HoldsNothing;
    var i :| 0 <= i < |nodes| && nodes[i].id == self.id;
    if change.Leave? && change.id != self.id { assert Active(nodes[i]) && SomeOtherActive(nodes, change.id); }
  }

  lemma StillMarked(nodes: seq<Node>, kept: seq<Node>, id: string, self: Node)
    requires Marked(nodes, self) && id != self.id && forall x :: x in kept <==> x in nodes && x.id != id
    ensures Marked(kept, self)
  {
    var i :| 0 <= i < |nodes| && nodes[i].id == self.id;
    assert nodes[i] in kept;
    forall k | 0 <= k < |kept| && kept[k].id == self.id ensures kept[k].isSelf { assert kept[k] in nodes; }
  }

  /** The same set of distinct active IDs at the latest assignment gives the same owner for every key. */
  method OwnersAgree(c: Cluster, d: Cluster, key: string, crc: string -> nat) returns (m: Node, n: Node)
    requires c.Valid() && Partitioned(c.nodes) && c.distinct && ActiveIds(c.nodes) == c.members
    requires d.Valid() && Partitioned(d.nodes) && d.distinct && ActiveIds(d.nodes) == d.members
    requires ActiveIds(c.nodes) == ActiveIds(d.nodes)
    ensures m in c.nodes && Covers(m, Slot(key, crc)) && n in d.nodes && Covers(n, Slot(key, crc)) && m.id == n.id
  {
    hide Owns, Slot, Separate, Canonical, Covers, ActiveIds;
    m := c.Owner(key, crc);
    n := d.Owner(key, crc);
    ExactlyOneOwner(c.members, Slot(key, crc)) by { Owners(c.members, Slot(key, crc), m.id); }
  }

  /**
   * A failed health check moves no slots: the two nodes here have the same active IDs, a and b, but
   * one of them shared the slots out among a, b and c before c failed.
   */
  method SameActiveIdsDisagree(crc: string -> nat) returns (c: Cluster, d: Cluster, m: Node, n: Node)
    requires crc("k") == 16000
    ensures c.Valid() && Partitioned(c.nodes) && c.distinct && d.Valid() && Partitioned(d.nodes) && d.distinct
    ensures ActiveIds(c.nodes) == {"a", "b"} == ActiveIds(d.nodes) && m.id == "c" && n.id == "b"
    ensures m in c.nodes && Covers(m, Slot("k", crc)) && n in d.nodes && Covers(n, Slot("k", crc))
  {
    hide Owns, Slot, Separate, Canonical, Covers;
    c := new Cluster("a", "a:1", Abc);
    assert c.members == {"a", "b", "c"} by { assert Abc[0].0 == "b" && Abc[1].0 == "c"; }
    ThreeNames(c.nodes);
    ghost var before := c.nodes;
    c.Heartbeat("c", false, false);
    OneFailed(before, c.nodes);
    d := new Cluster("b", "b:1", [("a", "a:1")]);
    assert d.members == {"a", "b"} by { assert [("a", "a:1")][0].0 == "a"; }
    TwoNames(d.nodes);
    SlotOfK(crc);
    m := c.Owner("k", crc);
    n := d.Owner("k", crc);
    OwnersOf16000(m.id, n.id);
  }

  /** Nodes that list each other under distinct IDs: exactly one of them takes a key for its own. */
  method ExactlyOneSelf(cs: seq<Cluster>, key: string, crc: string -> nat) returns (mine: seq<bool>)
    requires cs != [] && forall i :: 0 <= i < |cs| ==> cs[i].Valid() && Partitioned(cs[i].nodes) && cs[i].distinct
    requires forall i :: 0 <= i < |cs| ==> cs[i].members == set j | 0 <= j < |cs| :: cs[j].self.id
    requires forall i, j :: 0 <= i < j < |cs| ==> cs[i].self.id != cs[j].self.id
    ensures |mine| == |cs|
    ensures forall i :: 0 <= i < |cs| ==> mine[i] == Owns(cs[i].members, Slot(key, crc), cs[i].self.id)
    ensures exists i :: 0 <= i < |mine| && mine[i] && forall j :: 0 <= j < |mine| && mine[j] ==> j == i
  {
    hide Owns, Slot, Separate, Canonical, Covers;
    mine := [];
    for i := 0 to |cs|
      invariant |mine| == i && forall k :: 0 <= k < i ==> mine[k] == Owns(cs[k].members, Slot(key, crc), cs[k].self.id)
    {
      var own := cs[i].SelfOwns(key, crc);
      mine := mine + [own];
    }
    ghost var ids, slot := cs[0].members, Slot(key, crc);
    assert cs[0].self.id in ids;
    ExactlyOneOwner(ids, slot);
    ghost var x :| Owns(ids, slot, x);
    OwnerAmong(ids, slot, x);
    ghost var i :| 0 <= i < |cs| && cs[i].self.id == x;
    assert mine[i];
  }

  lemma OwnerAmong(ids: set<string>, slot: int, x: string)
    requires IsSlot(slot) && Owns(ids, slot, x)
    ensures x in ids
  {}

  /** Up to 16384 IDs: two sets of them give every slot the same owner only if they are the same. */
  lemma SameOwnersIffSameIds(a: set<string>, b: set<string>)
    requires 0 < |a| <= SlotCount && 0 < |b| <= SlotCount
    ensures (forall slot, x :: IsSlot(slot) ==> (Owns(a, slot, x) <==> Owns(b, slot, x))) <==> a == b
  {
    hide Owns;
    if forall slot, x :: IsSlot(slot) ==> (Owns(a, slot, x) <==> Owns(b, slot, x)) {
      forall x | x in a ensures x in b {
        var slot := SomeSlotOf(a, x);
        OwnerAmong(b, slot, x);
      }
      forall x | x in b ensures x in a {
        var slot := SomeSlotOf(b, x);
        OwnerAmong(a, slot, x);
      }
    }
  }

  lemma SomeSlotOf(ids: set<string>, x: string) returns (slot: int)
    requires x in ids && |ids| <= SlotCount
    ensures IsSlot(slot) && Owns(ids, slot, x)
  {
    var j, n := |Smaller(ids, x)|, |ids|;
    LessIrreflexive(x);
    assert Smaller(ids, x) <= ids - {x};
    SubsetSize(Smaller(ids, x), ids - {x});
    slot := j * (SlotCount / n);
    FirstOfRange(j, n);
    RangesCover(j, n, slot);
  }

  lemma SubsetSize(a: set<string>, b: set<string>)
    requires a <= b
    ensures |a| <= |b|
  {
    assert b == a + (b - a);
  }

  lemma FirstOfRange(j: nat, n: nat)
    requires j < n <= SlotCount
    ensures IsSlot(j * (SlotCount / n)) && StartOf(j, n) <= j * (SlotCount / n) <= EndOf(j, n)
  {
    var w := SlotCount / n;
    QuotientBounds(SlotCount, n);
    assert w >= 1;
    assert n * w <= SlotCount;
    MulGrows(j + 1, n, w);
    assert (j + 1) * w == j * w + w;
  }

  lemma ActiveIdsJoin(nodes: seq<Node>, n: Node)
    requires Active(n)
    ensures ActiveIds(nodes + [n]) == ActiveIds(nodes) + {n.id}
  {
    var all := nodes + [n];
    assert all[|nodes|] == n;
    forall x | x in ActiveIds(nodes) ensures x in ActiveIds(all) {
      var i :| 0 <= i < |nodes| && Active(nodes[i]) && nodes[i].id == x;
      assert all[i] == nodes[i];
    }
  }

  lemma ActiveIdsForget(nodes: seq<Node>, kept: seq<Node>, id: string)
    requires forall x :: x in kept <==> x in nodes && x.id != id
    ensures ActiveIds(kept) == ActiveIds(nodes) - {id}
  {
    forall x | x in ActiveIds(nodes) - {id} ensures x in ActiveIds(kept) {
      var i :| 0 <= i < |nodes| && Active(nodes[i]) && nodes[i].id == x;
      assert nodes[i] in kept;
    }
    forall x | x in ActiveIds(kept) ensures x in ActiveIds(nodes) - {id} {
      var i :| 0 <= i < |kept| && Active(kept[i]) && kept[i].id == x;
      assert kept[i] in nodes;
    }
  }

  /**
   * How the slots get lost: a node that answers with the local ID takes the place of the local
   * entry, without its mark; once its health check fails, forgetting the only other node finds
   * nobody active.
   */
  method UnmarkedForgetLosesSlots() returns (c: Cluster)
    ensures c.Valid() && c.nodes != [] && forall slot :: IsSlot(slot) ==> !Covered(c.nodes, slot)
  {
    hide Separate, Covered, Canonical, Covers, ActiveIds, DistinctActive, Partitioned;
    c := new Cluster("a", "a:1", []);
    assert c.nodes[0].id == "a" && c.nodes[0].addr == "a:1";
    var _ := c.Meet("b:1", "a");
    assert c.nodes[1].id == "a" && LastWith(c.nodes, "a", 1) && c.self == c.nodes[1];
    c.Reset();
    assert FirstWith(c.nodes, "a", 0);
    c.Heartbeat("a", false, false);
    ghost var alone := c.nodes;
    assert |alone| == 1 && alone[0].id == "a" && alone[0].addr == "b:1" && !Active(alone[0]);
    var _ := c.Meet("c:1", "c");
    ghost var two := c.nodes;
    assert SameExceptRange((alone + [Node("c", "c:1", 0, 0, false, Online)])[0], two[0]);
    assert SameExceptRange((alone + [Node("c", "c:1", 0, 0, false, Online)])[1], two[1]);
    var _ := c.Forget("c");
    assert !SomeOtherActive(two, "c");
    assert forall x :: x in c.nodes ==> x == two[0];
    assert two[0] in c.nodes;
    UnassignedCoversNothing(c.nodes);
  }

  lemma UnassignedCoversNothing(nodes: seq<Node>)
    requires forall x :: x in nodes ==> x.start == -1 == x.end
    ensures forall slot :: IsSlot(slot) ==> !Covered(nodes, slot)
  {}

  lemma InactiveHaveNone(before: seq<Node>, after: seq<Node>, order: seq<nat>)
    requires IsOrder(before, order) && Assigned(before, after, order)
    ensures forall i :: 0 <= i < |after| && !Active(after[i]) ==> after[i].start == -1 == after[i].end
  {
    hide StartOf, EndOf;
    forall i | 0 <= i < |after| && !Active(after[i]) ensures after[i].start == -1 == after[i].end {
      assert SameExceptRange(before[i], after[i]) && i !in order;
    }
  }

  /** Without some of the nodes: still no slot with two nodes, and none at all for those that only they had. */
  lemma FewerFacts(nodes: seq<Node>, kept: seq<Node>, from: seq<nat>, id: string, members: set<string>)
    requires IsRest(nodes, kept, from, id) && Separate(nodes)
    ensures Separate(kept) && (Canonical(nodes, members) ==> Canonical(kept, members))
    ensures SomeActive(kept) <==> SomeOtherActive(nodes, id)
    ensures Partitioned(kept) <==> Partitioned(nodes) && HoldsNothing(nodes, id)
  {
    hide Owns, Covers, Active;
    if Partitioned(kept) { KeptSlots(nodes, kept, from, id); }
    if Partitioned(nodes) && HoldsNothing(nodes, id) {
      forall slot | IsSlot(slot) ensures Covered(kept, slot) {
        var i :| 0 <= i < |nodes| && Covers(nodes[i], slot);
        assert nodes[i] in kept;
      }
    }
    if SomeOtherActive(nodes, id) {
      var i :| 0 <= i < |nodes| && nodes[i].id != id && Active(nodes[i]);
      assert nodes[i] in kept;
    }
    if SomeActive(kept) {
      var k :| 0 <= k < |kept| && Active(kept[k]);
      assert nodes[from[k]].id != id;
    }
  }

  lemma KeptSlots(nodes: seq<Node>, kept: seq<Node>, from: seq<nat>, id: string)
    requires IsRest(nodes, kept, from, id) && Separate(nodes) && Partitioned(kept)
    ensures Partitioned(nodes) && HoldsNothing(nodes, id)
  {
    hide Covers;
    forall slot | IsSlot(slot)
      ensures Covered(nodes, slot) && forall i :: 0 <= i < |nodes| && nodes[i].id == id ==> !Covers(nodes[i], slot)
    {
      assert Covered(kept, slot);
      var k :| 0 <= k < |kept| && Covers(kept[k], slot);
      assert Covers(nodes[from[k]], slot) && nodes[from[k]].id != id;
    }
  }

  /** The nodes under other IDs, in the same order; `from` says where each of them was. */
  ghost predicate IsRest(nodes: seq<Node>, kept: seq<Node>, from: seq<nat>, id: string) {
    && |from| == |kept|
    && (forall i :: 0 <= i < |from| ==> from[i] < |nodes| && kept[i] == nodes[from[i]] && kept[i].id != id)
    && (forall i, j :: 0 <= i < j < |from| ==> from[i] < from[j])
    && (forall x :: x in kept <==> x in nodes && x.id != id)
  }

  lemma Owners(ids: set<string>, slot: int, x: string)
    requires IsSlot(slot) && Owns(ids, slot, x)
    ensures ids != {}
  {}

  lemma OrderEmpty(nodes: seq<Node>, order: seq<nat>)
    requires IsOrder(nodes, order)
    ensures order == [] <==> forall i :: 0 <= i < |nodes| ==> !Active(nodes[i])
  {
    if order != [] { assert Active(nodes[order[0]]); }
  }

  lemma OneNode(n: Node)
    requires n.start == 0 && n.end == SlotCount - 1
    ensures Partitioned([n]) && Canonical([n], {n.id})
  {
    forall slot | IsSlot(slot) ensures Covers([n][0], slot) && Owns({n.id}, slot, n.id) {
      LessIrreflexive(n.id);
      assert Smaller({n.id}, n.id) == {};
      assert |{n.id}| == 1;
    }
  }

  method Without(nodes: seq<Node>, id: string) returns (kept: seq<Node>, found: bool, ghost from: seq<nat>)
    ensures IsRest(nodes, kept, from, id)
    ensures found <==> exists i :: 0 <= i < |nodes| && nodes[i].id == id
  {
    kept, found, from := [], false, [];
    for i := 0 to |nodes|
      invariant IsRest(nodes[..i], kept, from, id)
      invariant found <==> exists k :: 0 <= k < i && nodes[k].id == id
    {
      assert nodes[..i + 1] == nodes[..i] + [nodes[i]];
      if nodes[i].id == id { found := true; } else { kept, from := kept + [nodes[i]], from + [i]; }
    }
    assert nodes[..|nodes|] == nodes;
  }

  lemma SameNames(before: seq<Node>, after: seq<Node>, order: seq<nat>, id: string)
    requires IsOrder(before, order) && Assigned(before, after, order)
    requires exists x :: x in before && x.id == id
    ensures exists i :: 0 <= i < |after| && after[i].id == id
  {
    var x :| x in before && x.id == id;
    var i :| 0 <= i < |before| && before[i] == x;
    assert after[i].id == id;
  }

  lemma NamesOf(selfId: string, addr: string, peers: seq<(string, string)>, all: seq<Node>, sorted: seq<Node>)
    requires |all| == |peers| + 1 && all[0].id == selfId
    requires (forall i :: 0 <= i < |peers| ==> all[i + 1].id == peers[i].0)
    requires forall i :: 0 <= i < |all| ==> Active(all[i])
    requires forall x :: x in sorted <==> x in all
    ensures ActiveIds(sorted) == {selfId} + set i | 0 <= i < |peers| :: peers[i].0
  {
    var names := {selfId} + set i | 0 <= i < |peers| :: peers[i].0;
    forall x | x in names ensures x in ActiveIds(sorted) {
      var i :| 0 <= i < |all| && all[i].id == x;
      assert all[i] in sorted;
    }
    forall x | x in ActiveIds(sorted) ensures x in names {
      var j :| 0 <= j < |sorted| && sorted[j].id == x;
      assert sorted[j] in all;
      var i :| 0 <= i < |all| && all[i] == sorted[j];
      if i > 0 { assert peers[i - 1].0 == x; }
    }
  }

  lemma SameRangesSameFacts(a: seq<Node>, b: seq<Node>, members: set<string>)
    requires |a| == |b|
    requires forall i :: 0 <= i < |a| ==> a[i].id == b[i].id && a[i].start == b[i].start && a[i].end == b[i].end
    ensures (Separate(a) ==> Separate(b)) && (Partitioned(a) ==> Partitioned(b))
    ensures Canonical(a, members) ==> Canonical(b, members)
  {
    hide Owns;
    assert forall i, slot :: 0 <= i < |a| ==> (Covers(a[i], slot) <==> Covers(b[i], slot));
    if Partitioned(a) {
      forall slot | IsSlot(slot) ensures Covered(b, slot) {
        assert Covered(a, slot);
        var i :| 0 <= i < |a| && Covers(a[i], slot);
        assert Covers(b[i], slot);
      }
    }
  }

  method InitialList(selfId: string, addr: string, peers: seq<(string, string)>) returns (nodes: seq<Node>, self: Node)
    ensures Partitioned(nodes) && Separate(nodes) && (DistinctActive(nodes) ==> Canonical(nodes, ActiveIds(nodes)))
    ensures Marked(nodes, self) && self.id == selfId
    ensures |nodes| == |peers| + 1 && forall i :: 0 <= i < |nodes| ==> Initial(nodes[i], selfId, addr, peers)
    ensures ActiveIds(nodes) == {selfId} + set i | 0 <= i < |peers| :: peers[i].0
  {
    hide Separate, Covered, Canonical, Assigned, IsOrder, Covers, Initial, DistinctActive, ActiveIds;
    var me := Node(selfId, addr, 0, SlotCount - 1, true, Online);
    var all := [me] + seq(|peers|, i requires 0 <= i < |peers| => Node(peers[i].0, peers[i].1, 0, 0, false, Online));
    assert all[0] == me;
    var sorted := SortNodes(all);
    var ranged := AssignRanges(sorted, Positions(|sorted|));
    AssignmentFacts(sorted, ranged, Positions(|sorted|));
    assert me in sorted;
    SameNames(sorted, ranged, Positions(|sorted|), selfId);
    nodes, self := MarkSelf(ranged, selfId);
    SameRangesSameFacts(ranged, nodes, ActiveIds(sorted));
    NamesOf(selfId, addr, peers, all, sorted);
    InitialNodes(selfId, addr, peers, all, sorted, Positions(|sorted|), ranged, nodes);
  }

  lemma InitialNodes(selfId: string, addr: string, peers: seq<(string, string)>, all: seq<Node>, sorted: seq<Node>,
      order: seq<nat>, ranged: seq<Node>, marked: seq<Node>)
    requires |all| == |peers| + 1 && all[0] == Node(selfId, addr, 0, SlotCount - 1, true, Online)
    requires forall i :: 0 <= i < |peers| ==> all[i + 1] == Node(peers[i].0, peers[i].1, 0, 0, false, Online)
    requires (forall x :: x in sorted <==> x in all) && |ranged| == |marked|
    requires IsOrder(sorted, order) && Assigned(sorted, ranged, order)
    requires forall i :: 0 <= i < |ranged| ==>
               marked[i] == if ranged[i].id == selfId then ranged[i].(isSelf := true) else ranged[i]
    ensures forall i :: 0 <= i < |marked| ==> Initial(marked[i], selfId, addr, peers)
    ensures DistinctActive(marked) == DistinctActive(sorted) && ActiveIds(marked) == ActiveIds(sorted)
    ensures |marked| == |sorted|
  {
    hide StartOf, EndOf, Less;
    forall i | 0 <= i < |marked|
      ensures Initial(marked[i], selfId, addr, peers) && Active(sorted[i]) && Active(marked[i])
    {
      assert sorted[i] in sorted && sorted[i] in all;
      var k :| 0 <= k < |all| && all[k] == sorted[i];
      if k > 0 { assert peers[k - 1] in peers; }
    }
    assert forall i :: 0 <= i < |marked| ==> marked[i].id == sorted[i].id;
    forall x | x in ActiveIds(sorted) ensures x in ActiveIds(marked) {
      var i :| 0 <= i < |sorted| && sorted[i].id == x;
      assert marked[i].id == x;
    }
  }

  // ----- the disagreement -----

  const Abc: seq<(string, string)> := [("b", "b:1"), ("c", "c:1")]

  lemma ThreeNames(nodes: seq<Node>)
    requires |nodes| == 3 && ActiveIds(nodes) == {"a", "b", "c"}
    requires forall i :: 0 <= i < |nodes| ==> Initial(nodes[i], "a", "a:1", Abc)
    ensures DistinctActive(nodes)
  {
    assert forall i :: 0 <= i < 3 ==> Active(nodes[i]);
    assert ActiveIds(nodes) == {nodes[0].id, nodes[1].id, nodes[2].id};
  }

  lemma OneFailed(before: seq<Node>, after: seq<Node>)
    requires |before| == 3 && ActiveIds(before) == {"a", "b", "c"} && DistinctActive(before)
    requires forall i :: 0 <= i < |before| ==> Initial(before[i], "a", "a:1", Abc)
    requires forall i :: FirstWith(before, "c", i) ==> after == before[i := before[i].(state := Failing)]
    ensures ActiveIds(after) == {"a", "b"}
  {
    assert forall i :: 0 <= i < 3 ==> Active(before[i]);
    assert "c" in ActiveIds(before);
    var i :| 0 <= i < 3 && before[i].id == "c";
    assert FirstWith(before, "c", i);
    assert !Active(after[i]);
    forall x | x in ActiveIds(after) ensures x in {"a", "b"} {
      var k :| 0 <= k < 3 && Active(after[k]) && after[k].id == x;
      assert k != i && before[k] == after[k] && x in ActiveIds(before);
    }
    forall x | x in {"a", "b"} ensures x in ActiveIds(after) {
      assert x in ActiveIds(before);
      var k :| 0 <= k < 3 && before[k].id == x;
      assert k != i && after[k] == before[k];
    }
  }

  lemma TwoNames(nodes: seq<Node>)
    requires |nodes| == 2 && ActiveIds(nodes) == {"a", "b"}
    requires forall i :: 0 <= i < |nodes| ==> Initial(nodes[i], "b", "b:1", [("a", "a:1")])
    ensures DistinctActive(nodes)
  {
    assert forall i :: 0 <= i < 2 ==> Active(nodes[i]);
    assert ActiveIds(nodes) == {nodes[0].id, nodes[1].id};
  }

  lemma SlotOfK(crc: string -> nat)
    requires crc("k") == 16000
    ensures Slot("k", crc) == 16000
  {
    assert "k"[1..] == "";
    assert IndexOf("k"[1..], '{') == -1;
  }

  lemma OwnersOf16000(x: string, y: string)
    requires Owns({"a", "b", "c"}, 16000, x) && Owns({"a", "b"}, 16000, y)
    ensures x == "c" && y == "b"
  {
    var three, two := ["a", "b", "c"], ["a", "b"];
    assert SetOf(three) == {"a", "b", "c"} && SetOf(two) == {"a", "b"};
    assert Less("a", "b") && Less("b", "c") && Less("a", "c");
    AscendingSize(three);
    AscendingSize(two);
    assert RangeIndex(16000, 3) == 2 && RangeIndex(16000, 2) == 1;
    RankIsPosition(three, 0);
    RankIsPosition(three, 1);
    RankIsPosition(two, 0);
  }

  /** All nodes are active, so the order is a permutation of them. */
  method SortNodes(all: seq<Node>) returns (sorted: seq<Node>)
    requires all != [] && forall i :: 0 <= i < |all| ==> Active(all[i])
    ensures |sorted| == |all| && (forall x :: x in sorted <==> x in all)
    ensures IsOrder(sorted, Positions(|sorted|))
  {
    hide Less;
    var order := ActiveOrder(all);
    sorted := seq(|order|, j requires 0 <= j < |order| => all[order[j]]);
    forall x | x in all ensures x in sorted {
      var i :| 0 <= i < |all| && all[i] == x;
      var j :| 0 <= j < |order| && order[j] == i;
      assert sorted[j] == x;
    }
    assert all[0] in sorted;
    PositionsOrder(sorted);
  }

  lemma PositionsOrder(sorted: seq<Node>)
    requires forall i :: 0 <= i < |sorted| ==> Active(sorted[i])
    requires forall i, j :: 0 <= i < j < |sorted| ==> !Less(sorted[j].id, sorted[i].id)
    ensures IsOrder(sorted, Positions(|sorted|))
  {
    hide Less;
    forall i | 0 <= i < |sorted| ensures i in Positions(|sorted|) { assert Positions(|sorted|)[i] == i; }
  }

  function Positions(n: nat): (r: seq<nat>)
    ensures |r| == n && forall i :: 0 <= i < n ==> r[i] == i
  {
    seq(n, i => i)
  }

  /** Flags every entry under the local ID; the last of them becomes the local descriptor. */
  method MarkSelf(nodes: seq<Node>, selfId: string) returns (r: seq<Node>, self: Node)
    requires exists i :: 0 <= i < |nodes| && nodes[i].id == selfId
    ensures |r| == |nodes|
    ensures forall i :: 0 <= i < |nodes| ==>
              r[i] == if nodes[i].id == selfId then nodes[i].(isSelf := true) else nodes[i]
    ensures self in r && self.id == selfId && self.isSelf
  {
    r := nodes;
    self := nodes[0];
    ghost var found := false;
    for i := 0 to |nodes|
      invariant |r| == |nodes|
      invariant forall k :: 0 <= k < |nodes| ==>
                  r[k] == if k < i && nodes[k].id == selfId then nodes[k].(isSelf := true) else nodes[k]
      invariant found <==> exists k :: 0 <= k < i && nodes[k].id == selfId
      invariant found ==> exists k :: 0 <= k < i && r[k] == self && self.id == selfId && self.isSelf
    {
      if r[i].id == selfId {
        r := r[i := r[i].(isSelf := true)];
        self := r[i];
        found := true;
      }
    }
  }
}
