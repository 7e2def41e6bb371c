/**
 * Intersection, union and difference of sets (internal/store/store.go, SInter, SUnion, SDiff): what
 * they compute from the data, and the loops that compute it.
 */
module SetAlgebra {
  import opened Common
  import opened Strings
  import opened Keyspace

  datatype Algebra = Inter | Union | Diff

  /** A key that is missing or past its expiry time counts as an empty set. */
  function LiveMembers(db: Db, key: string, now: int): set<string> {
    if Expired(db, key, now) then {} else SetAt(db, key)
  }

  predicate NotASet(db: Db, key: string, now: int) { !Expired(db, key, now) && Other(db, key, Set({})) }

  /** A key of another type is an error; an intersection does not look past the first empty set. */
  predicate Refused(db: Db, how: Algebra, keys: seq<string>, now: int) {
    exists i :: 0 <= i < |keys| && NotASet(db, keys[i], now)
      && (how.Inter? ==> forall j :: 0 <= j < i ==> LiveMembers(db, keys[j], now) != {})
  }

  ghost predicate InAll(x: string, sets: seq<set<string>>) { forall i :: 0 <= i < |sets| ==> x in sets[i] }

  ghost predicate InSome(x: string, sets: seq<set<string>>) { exists i :: 0 <= i < |sets| && x in sets[i] }

  function Operands(db: Db, keys: seq<string>, now: int): (r: seq<set<string>>)
    ensures |r| == |keys| && forall i :: 0 <= i < |keys| ==> r[i] == LiveMembers(db, keys[i], now)
  {
    seq(|keys|, i requires 0 <= i < |keys| => LiveMembers(db, keys[i], now))
  }

  /** The member is in the result. */
  ghost predicate Belongs(how: Algebra, sets: seq<set<string>>, x: string)
    requires sets != []
  {
    match how
    case Inter => InAll(x, sets)
    case Union => InSome(x, sets)
    case Diff => x in sets[0] && !InSome(x, sets[1..])
  }

  /** The result of an operation on the sets the keys hold. */
  ghost function Combined(how: Algebra, sets: seq<set<string>>): set<string> {
    set i, x | 0 <= i < |sets| && x in sets[i] && Belongs(how, sets, x) :: x
  }

  /** The members that every set has, that some set has, or that the first has and no other. */
  lemma CombinedHas(sets: seq<set<string>>, x: string)
    ensures x in Combined(Inter, sets) <==> sets != [] && forall i :: 0 <= i < |sets| ==> x in sets[i]
    ensures x in Combined(Union, sets) <==> exists i :: 0 <= i < |sets| && x in sets[i]
    ensures x in Combined(Diff, sets) <==> sets != [] && x in sets[0] && forall i :: 1 <= i < |sets| ==> x !in sets[i]
  {
    hide Combined;
    if sets == [] {
      NothingAtAll(Inter, sets);
      NothingAtAll(Union, sets);
      NothingAtAll(Diff, sets);
    } else {
      InCombined(Inter, sets, x);
      InCombined(Union, sets, x);
      InCombined(Diff, sets, x);
      if i :| 1 <= i < |sets| && x in sets[i] { assert sets[1..][i - 1] == sets[i]; }
    }
  }

  lemma InCombined(how: Algebra, sets: seq<set<string>>, x: string)
    requires sets != []
    ensures x in Combined(how, sets) <==> Belongs(how, sets, x)
  {
    if Belongs(how, sets, x) {
      var i :| 0 <= i < |sets| && (how.Union? || i == 0) && x in sets[i];
      assert x in sets[i] && Belongs(how, sets, x);
    }
  }

  /** The operands and errors in terms of the data: an expired key is no key. */
  lemma OperandIs(db: Db, key: string, now: int)
    ensures var there := key in db.vals && !(key in db.expires && db.expires[key] <= now);
            && LiveMembers(db, key, now) == (if there && db.vals[key].Set? then db.vals[key].m else {})
            && (NotASet(db, key, now) <==> there && !db.vals[key].Set?)
  {}

  lemma NothingAtAll(how: Algebra, sets: seq<set<string>>)
    requires sets == []
    ensures Combined(how, sets) == {}
  {}

  lemma CombinedIs(how: Algebra, sets: seq<set<string>>, m: set<string>)
    requires sets != [] && forall x :: x in m <==> Belongs(how, sets, x)
    ensures m == Combined(how, sets)
  {
    forall x | Belongs(how, sets, x) ensures InSome(x, sets) { assert how.Inter? ==> x in sets[0]; }
  }

  /** The difference and the intersection with the union of the others make up the first set. */
  lemma DiffComplements(sets: seq<set<string>>, union: set<string>, x: string)
    requires |sets| > 1 && forall y :: y in union <==> Belongs(Union, sets[1..], y)
    ensures x in sets[0] <==> Belongs(Diff, sets, x) || Belongs(Inter, [sets[0], union], x)
    ensures !(Belongs(Diff, sets, x) && Belongs(Inter, [sets[0], union], x))
  {
    var two := [sets[0], union];
    assert InAll(x, two) <==> x in two[0] && x in two[1];
  }

  function Interchangeable(how: Algebra, sets: seq<set<string>>): seq<set<string>>
    requires sets != []
  {
    if how.Diff? then sets[1..] else sets
  }

  /** The order of the operands matters to the difference only, and there only for the first. */
  lemma OrderIsFree(how: Algebra, sets: seq<set<string>>, sets': seq<set<string>>, x: string)
    requires sets != [] && sets' != [] && (how.Diff? ==> sets[0] == sets'[0])
    requires forall s :: s in Interchangeable(how, sets) <==> s in Interchangeable(how, sets')
    ensures Belongs(how, sets, x) <==> Belongs(how, sets', x)
  {
    var a, b := Interchangeable(how, sets), Interchangeable(how, sets');
    assert InAll(x, a) <==> forall s :: s in a ==> x in s;
    assert InAll(x, b) <==> forall s :: s in b ==> x in s;
    assert InSome(x, a) <==> exists s :: s in a && x in s;
    assert InSome(x, b) <==> exists s :: s in b && x in s;
  }

  /** The result takes the place of whatever the destination held; an empty one leaves nothing there. */
  ghost function StoredSet(db: Db, dest: string, m: set<string>, now: int): Db {
    var gone := Del(db, [dest], now).db;
    if m == {} then gone else Put(gone, dest, Set(m))
  }

  lemma AddedIsStored(db: Db, dest: string, members: seq<string>, now: int)
    requires WellFormed(db)
    ensures var gone := Del(db, [dest], now).db;
            StoredSet(db, dest, SetOf(members), now) ==
              if members == [] then gone else SAdd(gone, dest, members, now).db
  {
    var gone := Del(db, [dest], now).db;
    assert dest in [dest] && dest !in gone.vals && dest !in gone.expires;
    if members != [] { assert members[0] in SetOf(members); }
  }

  // ----- the loops -----

  method Smallest(sets: seq<set<string>>) returns (k: nat)
    requires sets != []
    ensures k < |sets| && forall i :: 0 <= i < |sets| ==> |sets[k]| <= |sets[i]|
  {
    k := 0;
    for i := 1 to |sets|
      invariant k < |sets| && forall j :: 0 <= j < i ==> |sets[k]| <= |sets[j]|
    {
      if |sets[i]| < |sets[k]| { k := i; }
    }
  }

  method InOthers(x: string, sets: seq<set<string>>, k: nat) returns (all: bool)
    requires k < |sets| && x in sets[k]
    ensures all <==> InAll(x, sets)
  {
    for i := 0 to |sets|
      invariant forall j :: 0 <= j < i ==> x in sets[j]
    {
      if i != k && x !in sets[i] { return false; }
    }
    return true;
  }

  /** Only the members of the smallest set are looked up in the others. */
  method Intersect(sets: seq<set<string>>) returns (r: set<string>)
    requires sets != []
    ensures forall x :: x in r <==> InAll(x, sets)
  {
    hide InAll;
    var k := Smallest(sets);
    r := {};
    var rest := sets[k];
    while rest != {}
      invariant rest <= sets[k] && forall x :: x in r <==> x in sets[k] - rest && InAll(x, sets)
      decreases rest
    {
      var x :| x in rest;
      var all := InOthers(x, sets, k);
      if all { r := r + {x}; }
      rest := rest - {x};
    }
    forall x | InAll(x, sets) ensures x in sets[k] { AllIn(x, sets, k); }
  }

  lemma AllIn(x: string, sets: seq<set<string>>, k: nat)
    requires InAll(x, sets) && k < |sets|
    ensures x in sets[k]
  {}

  method Occurs(x: string, sets: seq<set<string>>) returns (some: bool)
    ensures some <==> InSome(x, sets)
  {
    for i := 0 to |sets|
      invariant forall j :: 0 <= j < i ==> x !in sets[j]
    {
      if x in sets[i] { return true; }
    }
    return false;
  }

  method Subtract(s: set<string>, others: seq<set<string>>) returns (r: set<string>)
    ensures forall x :: x in r <==> x in s && !InSome(x, others)
  {
    hide InSome;
    r := {};
    var rest := s;
    while rest != {}
      invariant rest <= s && forall x :: x in r <==> x in s - rest && !InSome(x, others)
      decreases rest
    {
      var x :| x in rest;
      var some := Occurs(x, others);
      if !some { r := r + {x}; }
      rest := rest - {x};
    }
  }

  lemma IntersectIs(sets: seq<set<string>>, m: set<string>)
    requires sets != [] && forall x :: x in m <==> InAll(x, sets)
    ensures m == Combined(Inter, sets)
  {
    hide Combined;
    CombinedIs(Inter, sets, m);
  }

  lemma UnionIs(sets: seq<set<string>>, m: set<string>)
    requires forall x :: x in m <==> InSome(x, sets)
    ensures m == Combined(Union, sets)
  {
    if sets != [] { CombinedIs(Union, sets, m); }
  }

  lemma DiffIs(sets: seq<set<string>>, m: set<string>)
    requires sets != [] && forall x :: x in m <==> x in sets[0] && !InSome(x, sets[1..])
    ensures m == Combined(Diff, sets)
  {
    hide Combined;
    CombinedIs(Diff, sets, m);
  }

  lemma OneMoreSet(sets: seq<set<string>>, i: nat)
    requires i < |sets|
    ensures forall x :: InSome(x, sets[..i + 1]) <==> InSome(x, sets[..i]) || x in sets[i]
  {
    forall x ensures InSome(x, sets[..i + 1]) <==> InSome(x, sets[..i]) || x in sets[i] {
      var a, b := sets[..i + 1], sets[..i];
      assert a[i] == sets[i] && forall j :: 0 <= j < i ==> a[j] == b[j];
    }
  }

  /** An intersection with an empty set is empty, and so is what is taken from one. */
  lemma NothingLeft(how: Algebra, sets: seq<set<string>>, k: nat)
    requires k < |sets| && sets[k] == {} && (how.Inter? || (how.Diff? && k == 0))
    ensures Combined(how, sets) == {}
  {
    forall x ensures !Belongs(how, sets, x) { assert x !in sets[k]; }
  }
}
