/** Totals over sequences and over finite sets, independent of the order of the terms. */
module Sums {
  import opened Sequences

  function Sum<T>(s: seq<T>, f: T -> int): int {
    if s == [] then 0 else Sum(s[..|s| - 1], f) + f(s[|s| - 1])
  }

  lemma {:induction false} SumConcat<T>(s: seq<T>, t: seq<T>, f: T -> int)
    ensures Sum(s + t, f) == Sum(s, f) + Sum(t, f)
  {
    if t == [] {
      assert s + t == s;
    } else {
      SumConcat(s, t[..|t| - 1], f);
      assert (s + t)[..|s + t| - 1] == s + t[..|t| - 1];
    }
  }

  lemma SumOne<T>(x: T, f: T -> int)
    ensures Sum([x], f) == f(x)
  {
    assert [x][..0] == [];
  }

  lemma SumPullOut<T>(front: seq<T>, x: T, back: seq<T>, f: T -> int)
    ensures Sum(front + ([x] + back), f) == Sum(front + back, f) + f(x)
  {
    SumConcat(front, [x] + back, f);
    SumConcat([x], back, f);
    SumConcat(front, back, f);
    SumOne(x, f);
  }

  lemma {:induction false} SumPermutation<T>(s: seq<T>, t: seq<T>, f: T -> int)
    requires multiset(s) == multiset(t)
    ensures Sum(s, f) == Sum(t, f)
    decreases |s|
  {
    if s == [] {
      assert |multiset(t)| == 0;
    } else {
      var front, back := FindLast(s, t);
      SumPermutation(s[..|s| - 1], front + back, f);
      SumPullOut(front, s[|s| - 1], back, f);
    }
  }

  ghost function SumOver<K>(keys: set<K>, f: K -> int): int {
    if keys == {} then 0 else
      var k :| k in keys;
      f(k) + SumOver(keys - {k}, f)
  }

  lemma {:induction false} SumOverRemove<K>(keys: set<K>, k: K, f: K -> int)
    requires k in keys
    ensures SumOver(keys, f) == f(k) + SumOver(keys - {k}, f)
    decreases keys
  {
    var j :| j in keys && SumOver(keys, f) == f(j) + SumOver(keys - {j}, f);
    if j != k {
      SumOverRemove(keys - {j}, k, f);
      SumOverRemove(keys - {k}, j, f);
      assert keys - {j} - {k} == keys - {k} - {j};
    }
  }

  lemma {:induction false} SumOverSame<K>(keys: set<K>, f: K -> int, g: K -> int)
    requires forall k :: k in keys ==> f(k) == g(k)
    ensures SumOver(keys, f) == SumOver(keys, g)
    decreases keys
  {
    if keys != {} {
      var k :| k in keys;
      SumOverRemove(keys, k, f);
      SumOverRemove(keys, k, g);
      SumOverSame(keys - {k}, f, g);
    }
  }

  lemma {:induction false} SumOverZero<K>(keys: set<K>, f: K -> int)
    requires forall k :: k in keys ==> f(k) == 0
    ensures SumOver(keys, f) == 0
    decreases keys
  {
    if keys != {} {
      var k :| k in keys;
      SumOverRemove(keys, k, f);
      SumOverZero(keys - {k}, f);
    }
  }

  /** Changing the summand at one key changes the total by that change. */
  lemma SumOverChange<K>(keys: set<K>, k: K, f: K -> int, g: K -> int)
    requires k in keys && forall j :: j in keys && j != k ==> f(j) == g(j)
    ensures SumOver(keys, g) == SumOver(keys, f) + g(k) - f(k)
  {
    SumOverRemove(keys, k, f);
    SumOverRemove(keys, k, g);
    SumOverSame(keys - {k}, f, g);
  }

  /** A summand that one key at most adds to changes the total by that key's part. */
  lemma SumOverPart<K>(keys: set<K>, part: K, amount: int, f: K -> int, g: K -> int)
    requires forall k :: k in keys ==> g(k) == f(k) + if k == part then amount else 0
    ensures SumOver(keys, g) == SumOver(keys, f) + if part in keys then amount else 0
  {
    if part in keys {
      SumOverChange(keys, part, f, g);
    } else {
      SumOverSame(keys, f, g);
    }
  }

  lemma SubsetCount<T>(s: set<T>, t: set<T>)
    requires s <= t
    ensures |s| <= |t|
  {
    assert t == s + (t - s);
  }

  /** A set covered by a family is no larger than the family's sizes together. */
  lemma {:induction false} UnionBound<K, T>(keys: set<K>, part: K -> set<T>, size: K -> int, whole: set<T>)
    requires forall k :: k in keys ==> size(k) == |part(k)|
    requires forall x :: x in whole ==> exists k :: k in keys && x in part(k)
    ensures |whole| <= SumOver(keys, size)
    decreases keys
  {
    if keys == {} {
      assert whole == {};
    } else {
      var k :| k in keys;
      SumOverRemove(keys, k, size);
      UnionBound(keys - {k}, part, size, whole - part(k));
      SubsetCount(whole, (whole - part(k)) + part(k));
    }
  }

  /** Renaming the keys one to one keeps the total. */
  lemma {:induction false} SumOverRenamed<A, B>(s: set<A>, t: set<B>, rename: A -> B, f: A -> int, g: B -> int)
    requires forall a :: a in s ==> rename(a) in t && f(a) == g(rename(a))
    requires forall a, b :: a in s && b in s && rename(a) == rename(b) ==> a == b
    requires forall b :: b in t ==> exists a :: a in s && rename(a) == b
    ensures SumOver(s, f) == SumOver(t, g)
    decreases s
  {
    if s == {} {
      assert t == {};
    } else {
      var a :| a in s;
      SumOverRemove(s, a, f);
      SumOverRemove(t, rename(a), g);
      SumOverRenamed(s - {a}, t - {rename(a)}, rename, f, g);
    }
  }
}
