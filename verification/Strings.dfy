/** Byte strings. A `char` stands for one byte of a Go string; `Less` is Go's `<` on strings. */
module Strings {
  import opened Common

  predicate Less(a: string, b: string) {
    |b| > 0 && (|a| == 0 || a[0] < b[0] || (a[0] == b[0] && Less(a[1..], b[1..])))
  }

  lemma {:induction false} LessIrreflexive(a: string)
    ensures !Less(a, a)
  {
    if |a| > 0 { LessIrreflexive(a[1..]); }
  }

  lemma {:induction false} LessTransitive(a: string, b: string, c: string)
    requires Less(a, b) && Less(b, c)
    ensures Less(a, c)
  {
    if |a| > 0 && a[0] == b[0] == c[0] { LessTransitive(a[1..], b[1..], c[1..]); }
  }

  lemma {:induction false} LessTotal(a: string, b: string)
    ensures Less(a, b) || a == b || Less(b, a)
  {
    if |a| > 0 && |b| > 0 && a[0] == b[0] {
      LessTotal(a[1..], b[1..]);
      assert a == [a[0]] + a[1..] && b == [b[0]] + b[1..];
    }
  }

  lemma LessAsymmetric(a: string, b: string)
    requires Less(a, b)
    ensures !Less(b, a)
  {
    if Less(b, a) { LessTransitive(a, b, a); LessIrreflexive(a); }
  }

  predicate IsGreatest(s: set<string>, k: string) { k in s && forall j :: j in s ==> j == k || Less(j, k) }

  lemma {:induction false} GreatestExists(s: set<string>)
    requires s != {}
    ensures exists k :: IsGreatest(s, k)
    decreases |s|
  {
    var x :| x in s;
    if s == {x} {
      assert IsGreatest(s, x);
    } else {
      GreatestExists(s - {x});
      var g :| IsGreatest(s - {x}, g);
      LessTotal(x, g);
      if Less(x, g) {
        assert IsGreatest(s, g);
      } else {
        forall j | j in s ensures j == x || Less(j, x) { if j != x && j != g { LessTransitive(j, g, x); } }
        assert IsGreatest(s, x);
      }
    }
  }

  lemma GreatestUnique(s: set<string>)
    ensures forall k, l :: IsGreatest(s, k) && IsGreatest(s, l) ==> k == l
  {
    forall k, l | IsGreatest(s, k) && IsGreatest(s, l) ensures k == l { if k != l { LessAsymmetric(k, l); } }
  }

  function Greatest(s: set<string>): (k: string)
    requires s != {}
    ensures k in s && IsGreatest(s, k)
  {
    GreatestExists(s);
    GreatestUnique(s);
    var k :| IsGreatest(s, k);
    k
  }

  ghost predicate Ascending(s: seq<string>) {
    forall i, j :: 0 <= i < j < |s| ==> Less(s[i], s[j])
  }

  /** The members in ascending order. */
  function SortSet(s: set<string>): (r: seq<string>)
    ensures Ascending(r) && SetOf(r) == s
    decreases |s|
  {
    if s == {} then [] else
      var x := Greatest(s);
      var front := SortSet(s - {x});
      assert forall i :: 0 <= i < |front| ==> front[i] in SetOf(front);
      assert forall i :: 0 <= i < |front| ==> Less(front[i], x);
      assert SetOf(front + [x]) == SetOf(front) + {x};
      front + [x]
  }

  lemma {:induction false} AscendingSize(s: seq<string>)
    requires Ascending(s)
    ensures |SetOf(s)| == |s|
  {
    hide Less;
    if s != [] {
      var front, last := s[..|s| - 1], s[|s| - 1];
      AscendingSize(front);
      assert SetOf(s) == SetOf(front) + {last};
      if last in front {
        var i :| 0 <= i < |front| && front[i] == last;
        LessIrreflexive(last);
      }
    }
  }

  /** One string comes before another if it is cut short, or has the smaller byte where they first differ. */
  lemma {:induction false} LessIs(a: string, b: string)
    ensures Less(a, b) <==>
              (|a| < |b| && a == b[..|a|]) || exists k :: 0 <= k < |a| && k < |b| && a[..k] == b[..k] && a[k] < b[k]
  {
    if a != "" && b != "" && a[0] == b[0] {
      LessIs(a[1..], b[1..]);
      assert a == [a[0]] + a[1..] && b == [b[0]] + b[1..];
      if k :| 0 <= k < |a[1..]| && k < |b[1..]| && a[1..][..k] == b[1..][..k] && a[1..][k] < b[1..][k] {
        assert a[..k + 1] == [a[0]] + a[1..][..k] && b[..k + 1] == [b[0]] + b[1..][..k];
        assert a[k + 1] < b[k + 1];
      }
      if k :| 0 <= k < |a| && k < |b| && a[..k] == b[..k] && a[k] < b[k] {
        assert a[1..][..k - 1] == a[..k][1..] && b[1..][..k - 1] == b[..k][1..];
        assert a[1..][k - 1] < b[1..][k - 1];
      }
      if |a| < |b| && a == b[..|a|] { assert a[1..] == b[..|a|][1..]; }
    } else if a != "" && b != "" && a[0] < b[0] {
      assert a[..0] == b[..0];
    }
  }
}
