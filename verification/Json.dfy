/**
 * What survives the JSON text of the snapshot file (internal/server/snapshot.go). Go's encoder
 * replaces every byte of a string that is not part of a UTF-8 sequence by U+FFFD, and writes the
 * names of an object in byte order; on reading, a later value replaces an earlier one of the same
 * name.
 */
module Json {
  import opened Strings
  import opened Utf8

  const Replacement: string := "\U{ef}\U{bf}\U{bd}"

  /** A sequence of whole UTF-8 sequences. */
  predicate IsText(s: string)
    decreases |s|
  {
    s == "" || (RuneLen(s) > 0 && IsText(s[RuneLen(s)..]))
  }

  /** A string as it comes back from JSON. */
  function Coerce(s: string): string
    decreases |s|
  {
    if s == "" then ""
    else if RuneLen(s) == 0 then Replacement + Coerce(s[1..])
    else s[..RuneLen(s)] + Coerce(s[RuneLen(s)..])
  }

  lemma {:induction false} CoerceNeverShortens(s: string)
    ensures |Coerce(s)| >= |s|
    decreases |s|
  {
    hide RuneLen;
    if s != "" { CoerceNeverShortens(s[if RuneLen(s) == 0 then 1 else RuneLen(s)..]); }
  }

  /** A string comes back unchanged exactly when it is valid UTF-8. */
  lemma {:induction false} CoerceFixesText(s: string)
    ensures Coerce(s) == s <==> IsText(s)
    decreases |s|
  {
    hide RuneLen;
    if s != "" {
      var n := RuneLen(s);
      if n == 0 {
        CoerceNeverShortens(s[1..]);
      } else {
        CoerceFixesText(s[n..]);
        assert s == s[..n] + s[n..];
        assert Coerce(s)[n..] == Coerce(s[n..]);
      }
    }
  }

  lemma RuneStays(s: string, rest: string)
    requires RuneLen(s) > 0
    ensures RuneLen(s[..RuneLen(s)] + rest) == RuneLen(s)
  {
    var t := s[..RuneLen(s)] + rest;
    assert forall i :: 0 <= i < RuneLen(s) ==> t[i] == s[i];
  }

  /** What comes back is valid UTF-8, so a second trip changes nothing. */
  lemma {:induction false} CoerceIsText(s: string)
    ensures IsText(Coerce(s)) && Coerce(Coerce(s)) == Coerce(s)
    decreases |s|
  {
    CoerceFixesText(Coerce(s));
    if s != "" {
      var n := RuneLen(s);
      if n == 0 {
        var rest := Coerce(s[1..]);
        CoerceIsText(s[1..]);
        RuneStays(Replacement, rest);
        assert Replacement[..3] == Replacement;
        assert (Replacement + rest)[3..] == rest;
      } else {
        var rest := Coerce(s[n..]);
        CoerceIsText(s[n..]);
        RuneStays(s, rest);
        assert (s[..n] + rest)[n..] == rest;
      }
    }
  }

  /** Characters are kept; a byte that starts none becomes U+FFFD, and the next byte is looked at. */
  lemma CoerceByRune(s: string)
    requires s != ""
    ensures RuneLen(s) > 0 ==>
              && Coerce(s) == s[..RuneLen(s)] + Coerce(s[RuneLen(s)..])
              && (IsText(s) <==> IsText(s[RuneLen(s)..]))
    ensures RuneLen(s) == 0 ==> Coerce(s) == "\U{ef}\U{bf}\U{bd}" + Coerce(s[1..]) && !IsText(s)
  {}

  // ----- objects -----

  /** An object written in the order of its names and read back: names that become equal keep the last value. */
  function Object<V, W>(m: map<string, V>, f: V -> W): map<string, W>
    decreases |m|
  {
    if m == map[] then map[] else
      assert |m.Keys| == |m|;
      var k := Greatest(m.Keys);
      Fewer(m, k);
      Object(m - {k}, f)[Coerce(k) := f(m[k])]
  }

  lemma Fewer<V>(m: map<string, V>, k: string)
    requires k in m
    ensures |m - {k}| < |m|
  {
    assert (m - {k}).Keys == m.Keys - {k};
    assert |m - {k}| == |(m - {k}).Keys| && |m| == |m.Keys|;
  }

  /** Every name read back is valid UTF-8, and every value is one that was written. */
  lemma {:induction false} ObjectIsText<V, W>(m: map<string, V>, f: V -> W)
    ensures forall name :: name in Object(m, f) ==> IsText(name) && exists k :: k in m && Object(m, f)[name] == f(m[k])
    decreases |m|
  {
    if m != map[] {
      var k := Greatest(m.Keys);
      Fewer(m, k);
      ObjectIsText(m - {k}, f);
      CoerceIsText(k);
      forall name | name in Object(m, f) ensures IsText(name) && exists j :: j in m && Object(m, f)[name] == f(m[j]) {
        if name != Coerce(k) {
          var j :| j in m - {k} && Object(m - {k}, f)[name] == f((m - {k})[j]);
          assert j in m;
        }
      }
    }
  }

  /** If every name is valid UTF-8 and every value comes back unchanged, so does the object. */
  lemma {:induction false} ObjectFixed<V>(m: map<string, V>, f: V -> V)
    requires forall k :: k in m ==> IsText(k) && f(m[k]) == m[k]
    ensures Object(m, f) == m
    decreases |m|
  {
    hide Coerce, IsText, IsGreatest;
    if m != map[] {
      var k := Greatest(m.Keys);
      Fewer(m, k);
      CoerceFixesText(k);
      ObjectFixed(m - {k}, f);
      assert m == (m - {k})[k := m[k]];
    }
  }

  /** A name read back was written under some name; of several that became equal, the greatest decides. */
  lemma {:induction false} ObjectIs<V, W>(m: map<string, V>, f: V -> W, k: string)
    ensures k in m ==> Coerce(k) in Object(m, f)
    ensures k in m && (forall j :: j in m && Coerce(j) == Coerce(k) ==> j == k || Less(j, k)) ==>
              Object(m, f)[Coerce(k)] == f(m[k])
    ensures forall name :: name in Object(m, f) ==> exists j :: j in m && Coerce(j) == name
    decreases |m|
  {
    hide Coerce;
    if m != map[] {
      var g := Greatest(m.Keys);
      Fewer(m, g);
      ObjectIs(m - {g}, f, k);
      if k in m && k != g { LessOnce(k, g); }
      forall name | name in Object(m, f) ensures exists j :: j in m && Coerce(j) == name {
        if name != Coerce(g) {
          var j :| j in m - {g} && Coerce(j) == name;
          assert j in m;
        }
      }
    }
  }

  lemma LessOnce(a: string, b: string)
    ensures Less(a, b) ==> !Less(b, a)
  {
    if Less(a, b) { LessAsymmetric(a, b); }
  }

  lemma ObjectEmpty<V, W>(m: map<string, V>, f: V -> W)
    ensures Object(m, f) == map[] <==> m == map[]
  {
    if m != map[] {
      var k := Greatest(m.Keys);
      assert Coerce(k) in Object(m, f);
    }
  }

  lemma ObjectOne<V, W>(k: string, v: V, f: V -> W)
    ensures Object(map[k := v], f) == map[Coerce(k) := f(v)]
  {
    hide Coerce;
    var m := map[k := v];
    assert m.Keys == {k};
    assert m - {k} == map[];
  }

  function CoerceAll(s: seq<string>): (r: seq<string>)
    ensures |r| == |s| && forall i :: 0 <= i < |s| ==> r[i] == Coerce(s[i])
  {
    seq(|s|, i requires 0 <= i < |s| => Coerce(s[i]))
  }

  predicate AllText(s: seq<string>) { forall i :: 0 <= i < |s| ==> IsText(s[i]) }

  lemma CoerceAllFixesText(s: seq<string>)
    ensures CoerceAll(s) == s <==> AllText(s)
    ensures AllText(CoerceAll(s))
  {
    forall i | 0 <= i < |s| ensures (Coerce(s[i]) == s[i] <==> IsText(s[i])) && IsText(Coerce(s[i])) {
      CoerceFixesText(s[i]);
      CoerceIsText(s[i]);
    }
    if CoerceAll(s) == s { forall i | 0 <= i < |s| ensures IsText(s[i]) { assert Coerce(s[i]) == s[i]; } }
  }
}
