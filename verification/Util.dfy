/** Small shared vocabulary: optional values, flattening of chunk lists, first occurrences. */
module Util {

  datatype Option<+T> = None | Some(value: T)

  type byte = x: int | 0 <= x < 256

  /** The pieces of `ss` joined in order. */
  function Flat<T>(ss: seq<seq<T>>): seq<T> {
    if ss == [] then [] else ss[0] + Flat(ss[1..])
  }

  lemma {:induction false} FlatConcat<T>(a: seq<seq<T>>, b: seq<seq<T>>)
    ensures Flat(a + b) == Flat(a) + Flat(b)
  {
    if a == [] {
      assert a + b == b;
    } else {
      assert (a + b)[1..] == a[1..] + b;
      FlatConcat(a[1..], b);
    }
  }

  lemma FlatSnoc<T>(a: seq<seq<T>>, x: seq<T>)
    ensures Flat(a + [x]) == Flat(a) + x
  {
    FlatConcat(a, [x]);
    assert Flat([x]) == x + Flat([x][1..]);
  }

  /** The distinct elements of `s`, each kept at its first occurrence. */
  function Unique<T(==)>(s: seq<T>): seq<T> {
    if s == [] then []
    else
      var u := Unique(s[..|s| - 1]);
      if s[|s| - 1] in u then u else u + [s[|s| - 1]]
  }

  ghost predicate Distinct<T>(s: seq<T>) {
    forall i, j :: 0 <= i < j < |s| ==> s[i] != s[j]
  }

  lemma {:induction false} UniqueMeaning<T>(s: seq<T>)
    ensures Distinct(Unique(s))
    ensures forall x :: x in Unique(s) <==> x in s
  {
    if s != [] {
      UniqueMeaning(s[..|s| - 1]);
      assert s == s[..|s| - 1] + [s[|s| - 1]];
    }
  }

  lemma {:induction false} UniqueOfDistinct<T>(s: seq<T>)
    requires Distinct(s)
    ensures Unique(s) == s
  {
    if s != [] {
      UniqueOfDistinct(s[..|s| - 1]);
      assert s == s[..|s| - 1] + [s[|s| - 1]];
    }
  }

  /** `u` lists what `s` lists, each once, in the order of first occurrence. */
  ghost predicate FirstSeen<T>(u: seq<T>, s: seq<T>) {
    && Distinct(u) && (forall x :: x in u ==> x in s) && (forall x :: x in s ==> x in u)
    && forall i, j :: 0 <= i < j < |u| ==> SeenBefore(u[i], u[j], s)
  }

  /** Some `x` in `s` has no `y` before it. */
  ghost predicate SeenBefore<T>(x: T, y: T, s: seq<T>) {
    exists k :: 0 <= k < |s| && s[k] == x && y !in s[..k]
  }

  lemma SeenStays<T>(x: T, y: T, s: seq<T>, z: T)
    requires SeenBefore(x, y, s)
    ensures SeenBefore(x, y, s + [z])
  {
    var k :| 0 <= k < |s| && s[k] == x && y !in s[..k];
    assert (s + [z])[k] == x && (s + [z])[..k] == s[..k];
  }

  lemma SeenNew<T>(x: T, y: T, s: seq<T>)
    requires x in s && y !in s
    ensures SeenBefore(x, y, s + [y])
  {
    var k :| 0 <= k < |s| && s[k] == x;
    assert (s + [y])[k] == x && (s + [y])[..k] == s[..k];
    assert forall z :: z in s[..k] ==> z in s;
  }

  lemma {:induction false} UniqueFirstSeen<T>(s: seq<T>)
    ensures FirstSeen(Unique(s), s)
  {
    UniqueMeaning(s);
    if s != [] {
      var init, last := s[..|s| - 1], s[|s| - 1];
      UniqueFirstSeen(init);
      UniqueMeaning(init);
      assert s == init + [last];
      var u := Unique(init);
      forall i, j | 0 <= i < j < |Unique(s)| ensures SeenBefore(Unique(s)[i], Unique(s)[j], s) {
        if j < |u| {
          SeenStays(u[i], u[j], init, last);
        } else {
          assert u[i] in u;
          SeenNew(u[i], last, init);
        }
      }
    }
  }

  /** How often `x` occurs in `s`. */
  ghost function Count<T>(s: seq<T>, x: T): nat {
    if s == [] then 0 else (if s[0] == x then 1 else 0) + Count(s[1..], x)
  }

  lemma {:induction false} CountConcat<T>(a: seq<T>, b: seq<T>, x: T)
    ensures Count(a + b, x) == Count(a, x) + Count(b, x)
  {
    if a == [] {
      assert a + b == b;
    } else {
      assert (a + b)[1..] == a[1..] + b;
      CountConcat(a[1..], b, x);
    }
  }

  lemma CountSnoc<T>(a: seq<T>, y: T, x: T)
    ensures Count(a + [y], x) == Count(a, x) + (if x == y then 1 else 0)
  {
    CountConcat(a, [y], x);
  }

  lemma CountWithout<T>(a: seq<T>, k: nat, x: T)
    requires k < |a|
    ensures Count(a, x) == Count(a[..k] + a[k + 1..], x) + (if x == a[k] then 1 else 0)
  {
    CountAround(a[..k], a[k], a[k + 1..], x);
    AroundAt(a, k);
  }

  lemma AroundAt<T>(a: seq<T>, k: nat)
    requires k < |a|
    ensures a == (a[..k] + [a[k]]) + a[k + 1..]
  {
  }

  lemma CountAround<T>(a: seq<T>, y: T, b: seq<T>, x: T)
    ensures Count((a + [y]) + b, x) == Count(a + b, x) + (if x == y then 1 else 0)
  {
    CountConcat(a, b, x);
    CountSnoc(a, y, x);
    CountConcat(a + [y], b, x);
  }

  lemma ConcatAssoc<T>(a: seq<T>, b: seq<T>, c: seq<T>)
    ensures a + (b + c) == (a + b) + c
  {
  }

  lemma ConcatNil<T>(a: seq<T>)
    ensures [] + a == a == a + []
  {
  }

  lemma AfterPrefix<T>(a: seq<T>, b: seq<T>)
    ensures (a + b)[|a|..] == b
  {
  }
}
