/**
 * Lists of the store beside the ring buffer that holds them (internal/store/store.go, pushList and
 * popList; internal/store/deque.go): the same pushes and pops on both give the same answers.
 */
module RingLists {
  import opened Common
  import opened Keyspace
  import opened KeyStore
  import D = Deques

  /** The key holds this list, or nothing if it is empty, and does not expire yet. */
  ghost predicate Holds(db: Db, key: string, now: int, list: seq<string>) {
    && (key in db.expires ==> now < db.expires[key])
    && (key in db.vals <==> list != []) && (list != [] ==> db.vals[key] == List(list))
  }

  lemma PushHolds(db: Db, key: string, list: seq<string>, left: bool, values: seq<string>, now: int)
    requires Holds(db, key, now, list) && values != []
    ensures var r := Push(db, key, left, values, now);
            Holds(r.db, key, now, Pushed(list, left, values)) && r.reply == Int(|Pushed(list, left, values)|)
  {
    PushedAt(list, left, values);
  }

  lemma PopHolds(db: Db, key: string, list: seq<string>, left: bool, now: int)
    requires Holds(db, key, now, list)
    ensures var r := Pop(db, key, left, now);
            && Holds(r.db, key, now, if list == [] then [] else Shorter(list, left))
            && r.reply == if list == [] then Nil else Text(End(list, left))
  {
    if list != [] { PoppedAt(list, left); }
  }

  /** LPUSH is PushFront and RPUSH is PushBack. */
  method PushBoth(st: Store, d: D.Deque, key: string, left: bool, values: seq<string>, now: int) returns (r: Reply)
    requires st.Valid() && d.Valid() && Holds(st.Abs(), key, now, d.Contents()) && values != []
    modifies st, d, d.buf
    ensures st.Valid() && d.Valid() && Holds(st.Abs(), key, now, d.Contents()) && (d.buf == old(d.buf) || fresh(d.buf))
    ensures r == Int(|d.Contents()|)
    ensures d.Contents() == if left then Reverse(values) + old(d.Contents()) else old(d.Contents()) + values
  {
    hide Holds, Push;
    PushHolds(st.Abs(), key, d.Contents(), left, values, now);
    r := st.PushList(key, left, values, now);
    if left { d.PushFront(values); } else { d.PushBack(values); }
  }

  /** LPOP is PopFront and RPOP is PopBack: the same element comes out, and the same list stays. */
  method PopBoth(st: Store, d: D.Deque, key: string, left: bool, now: int) returns (r: Reply, val: string, ok: bool)
    requires st.Valid() && d.Valid() && Holds(st.Abs(), key, now, d.Contents())
    modifies st, d, d.buf
    ensures st.Valid() && d.Valid() && Holds(st.Abs(), key, now, d.Contents()) && d.buf == old(d.buf)
    ensures ok == (old(d.Contents()) != []) && r == if ok then Text(val) else Nil
    ensures ok ==> old(d.Contents()) == if left then [val] + d.Contents() else d.Contents() + [val]
  {
    hide Holds, Pop;
    PopHolds(st.Abs(), key, d.Contents(), left, now);
    r := st.PopList(key, left, now);
    if left { val, ok := d.PopFront(); } else { val, ok := d.PopBack(); }
  }

  /**
   * What is pushed on one end comes out of the other in the same order, and out of the same end in
   * the reverse order.
   */
  method PushThenPopAll(st: Store, key: string, vs: seq<string>, pushLeft: bool, popLeft: bool, now: int)
      returns (out: seq<Reply>)
    requires st.Valid() && key !in st.Abs().vals && vs != []
    modifies st
    ensures st.Valid() && key !in st.Abs().vals && |out| == |vs|
    ensures forall i :: 0 <= i < |vs| ==> out[i] == Text(vs[if pushLeft == popLeft then |vs| - 1 - i else i])
  {
    hide Holds, Push, WellFormed;
    ghost var all := Pushed([], pushLeft, vs);
    Missing(st.Abs(), key, now);
    PushHolds(st.Abs(), key, [], pushLeft, vs, now);
    PushedAt([], pushLeft, vs);
    var _ := st.PushList(key, pushLeft, vs, now);
    out := PopAll(st, key, all, |vs|, popLeft, now);
  }

  method PopAll(st: Store, key: string, ghost all: seq<string>, n: nat, left: bool, now: int) returns (out: seq<Reply>)
    requires st.Valid() && Holds(st.Abs(), key, now, all) && n == |all|
    modifies st
    ensures st.Valid() && key !in st.Abs().vals && |out| == n
    ensures forall i :: 0 <= i < n ==> out[i] == Text(all[if left then i else n - 1 - i])
  {
    hide Holds, Pop, WellFormed;
    out := [];
    ghost var rest := all;
    for i := 0 to n
      invariant st.Valid() && |out| == i && rest == (if left then all[i..] else all[..n - i])
      invariant Holds(st.Abs(), key, now, rest)
      invariant forall k :: 0 <= k < i ==> out[k] == Text(all[if left then k else n - 1 - k])
    {
      PopHolds(st.Abs(), key, rest, left, now);
      PoppedAt(rest, left);
      rest := Shorter(rest, left);
      var r := st.PopList(key, left, now);
      out := out + [r];
    }
    Nothing(st.Abs(), key, now);
  }

  lemma Missing(db: Db, key: string, now: int)
    requires WellFormed(db) && key !in db.vals
    ensures Holds(db, key, now, [])
  {}

  lemma Nothing(db: Db, key: string, now: int)
    requires Holds(db, key, now, [])
    ensures key !in db.vals
  {}
}
