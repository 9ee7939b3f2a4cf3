/** Most-recently-used lists, as the stores keep them: `[x, ...list.filter(y
    => key(y) !== key(x))].slice(0, cap)`, and the filter that drops every
    entry with a given key. */
module Recency {

  /** The identity, used as the key of lists whose entries are their own key. */
  function Self<T>(x: T): T { x }

  /** `list.filter(y => key(y) !== k)`. */
  function Without<T(!new), K(==)>(s: seq<T>, key: T -> K, k: K): (r: seq<T>)
    ensures |r| <= |s|
    ensures forall x :: x in r <==> x in s && key(x) != k
    decreases |s|
  {
    if s == [] then []
    else (if key(s[0]) != k then [s[0]] else []) + Without(s[1..], key, k)
  }

  /** No two entries share a key. */
  predicate UniqueKeys<T(!new), K(==)>(s: seq<T>, key: T -> K) {
    forall i, j :: 0 <= i < j < |s| ==> key(s[i]) != key(s[j])
  }

  /** `[x, ...s.filter(...)].slice(0, cap)`: x moved (or added) to the front,
      the list cut to cap entries. */
  function Touch<T(!new), K(==)>(s: seq<T>, key: T -> K, x: T, cap: nat): (r: seq<T>)
    requires 1 <= cap
    ensures 1 <= |r| <= cap && r[0] == x
  {
    var front := [x] + Without(s, key, key(x));
    if |front| <= cap then front else front[..cap]
  }

  /** After a touch x's key occurs once, at the front, and the other entries
      are the old ones without that key, in their old order, cut to cap - 1. */
  lemma TouchShape<T(!new), K>(s: seq<T>, key: T -> K, x: T, cap: nat)
    requires 1 <= cap
    ensures var r := Touch(s, key, x, cap);
            var rest := Without(s, key, key(x));
            && r[1..] == (if |rest| < cap then rest else rest[..cap - 1])
            && (forall i :: 1 <= i < |r| ==> key(r[i]) != key(x))
  {
    var r := Touch(s, key, x, cap);
    var rest := Without(s, key, key(x));
    assert r[1..] == (if |rest| < cap then rest else rest[..cap - 1]);
    forall i | 1 <= i < |r|
      ensures key(r[i]) != key(x)
    {
      assert r[i] in rest;
    }
  }

  /** Dropping entries keeps keys unique. */
  lemma {:induction false} WithoutUnique<T(!new), K>(s: seq<T>, key: T -> K, k: K)
    requires UniqueKeys(s, key)
    ensures UniqueKeys(Without(s, key, k), key)
    decreases |s|
  {
    if s != [] {
      var tail := Without(s[1..], key, k);
      assert UniqueKeys(s[1..], key) by {
        forall i, j | 0 <= i < j < |s[1..]|
          ensures key(s[1..][i]) != key(s[1..][j])
        {
          assert s[1..][i] == s[i + 1] && s[1..][j] == s[j + 1];
        }
      }
      WithoutUnique(s[1..], key, k);
      if key(s[0]) != k {
        forall y | y in tail
          ensures key(y) != key(s[0])
        {
          var j :| 0 <= j < |s[1..]| && s[1..][j] == y;
          assert s[1..][j] == s[j + 1];
        }
        ConsUnique(s[0], tail, key);
      }
    }
  }

  /** Putting an entry in front of a list with unique keys, none of them its
      own, keeps keys unique. */
  lemma ConsUnique<T(!new), K>(x: T, s: seq<T>, key: T -> K)
    requires UniqueKeys(s, key)
    requires forall y :: y in s ==> key(y) != key(x)
    ensures UniqueKeys([x] + s, key)
  {
    var r := [x] + s;
    forall i, j | 0 <= i < j < |r|
      ensures key(r[i]) != key(r[j])
    {
      assert r[j] == s[j - 1];
      if 0 < i {
        assert r[i] == s[i - 1];
      }
    }
  }

  /** A touch keeps keys unique. */
  lemma TouchUnique<T(!new), K>(s: seq<T>, key: T -> K, x: T, cap: nat)
    requires 1 <= cap && UniqueKeys(s, key)
    ensures UniqueKeys(Touch(s, key, x, cap), key)
  {
    var rest := Without(s, key, key(x));
    WithoutUnique(s, key, key(x));
    ConsUnique(x, rest, key);
  }

  /** A list none of whose entries has key k is its own filter. */
  lemma {:induction false} WithoutAbsent<T(!new), K>(s: seq<T>, key: T -> K, k: K)
    requires forall y :: y in s ==> key(y) != k
    ensures Without(s, key, k) == s
    decreases |s|
  {
    if s != [] {
      assert s[0] in s;
      forall y | y in s[1..]
        ensures key(y) != k
      {
        assert y in s;
      }
      WithoutAbsent(s[1..], key, k);
    }
  }

  /** Touching the same entry twice in a row is touching it once. */
  lemma TouchTwice<T(!new), K>(s: seq<T>, key: T -> K, x: T, cap: nat)
    requires 1 <= cap
    ensures Touch(Touch(s, key, x, cap), key, x, cap) == Touch(s, key, x, cap)
  {
    var r := Touch(s, key, x, cap);
    TouchShape(s, key, x, cap);
    forall y | y in r[1..]
      ensures key(y) != key(x)
    {
      var i :| 0 <= i < |r[1..]| && r[1..][i] == y;
      assert r[1..][i] == r[i + 1];
    }
    WithoutAbsent(r[1..], key, key(x));
    assert Without(r, key, key(x)) == Without(r[1..], key, key(x)) by {
      assert r == [r[0]] + r[1..];
      assert r[1..] == r[1..][..];
    }
    assert [x] + r[1..] == r;
  }

  /** The filter works piece by piece, so it keeps the order of what stays. */
  lemma {:induction false} WithoutConcat<T(!new), K>(a: seq<T>, b: seq<T>, key: T -> K, k: K)
    ensures Without(a + b, key, k) == Without(a, key, k) + Without(b, key, k)
    decreases |a|
  {
    if a == [] {
      assert a + b == b;
    } else {
      assert (a + b)[1..] == a[1..] + b;
      WithoutConcat(a[1..], b, key, k);
    }
  }
}
