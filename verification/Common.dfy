/** Small notions that several components share. */
module Common {
  const MaxInt64 := 0x7fff_ffff_ffff_ffff
  const MinInt64 := -0x8000_0000_0000_0000

  datatype Option<T> = None | Some(value: T)

  ghost function SetOf(s: seq<string>): set<string> { set x | x in s }

  /** The first `count` elements; all of them if that is not positive. */
  function Take<T>(s: seq<T>, count: int): seq<T> {
    if count <= 0 || count >= |s| then s else s[..count]
  }

  // ----- lists with two ends -----

  function Reverse(s: seq<string>): seq<string> {
    if s == [] then [] else Reverse(s[1..]) + [s[0]]
  }

  /** Values pushed one by one on the named end. */
  function Pushed(list: seq<string>, left: bool, values: seq<string>): seq<string> {
    if left then Reverse(values) + list else list + values
  }

  function End(list: seq<string>, left: bool): string
    requires list != []
  {
    if left then list[0] else list[|list| - 1]
  }

  function Shorter(list: seq<string>, left: bool): seq<string>
    requires list != []
  {
    if left then list[1..] else list[..|list| - 1]
  }

  // ----- the two ends, by position -----

  lemma {:induction false} ReverseAt(s: seq<string>)
    ensures |Reverse(s)| == |s| && forall i :: 0 <= i < |s| ==> Reverse(s)[i] == s[|s| - 1 - i]
  {
    if s != [] { ReverseAt(s[1..]); }
  }

  /** The left end is position 0; what is left keeps its order. */
  lemma PoppedAt(list: seq<string>, left: bool)
    requires list != []
    ensures End(list, left) == list[if left then 0 else |list| - 1] && |Shorter(list, left)| == |list| - 1
    ensures forall i :: 0 <= i < |list| - 1 ==> Shorter(list, left)[i] == list[if left then i + 1 else i]
  {}

  /** Pushed on the left, the last value comes first; pushed on the right, the values follow in their order. */
  lemma PushedAt(list: seq<string>, left: bool, values: seq<string>)
    ensures var r := Pushed(list, left, values);
            && |r| == |list| + |values|
            && (forall i :: 0 <= i < |list| ==> r[if left then |values| + i else i] == list[i])
            && (forall i :: 0 <= i < |values| ==> r[if left then |values| - 1 - i else |list| + i] == values[i])
  {
    ReverseAt(values);
  }
}
