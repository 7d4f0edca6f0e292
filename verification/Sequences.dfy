/** Concatenation and flattened maps over sequences. */
module Sequences {

  function FlatMap<T, U>(s: seq<T>, f: T -> seq<U>): seq<U> {
    if s == [] then [] else FlatMap(s[..|s| - 1], f) + f(s[|s| - 1])
  }

  lemma ConcatAssociates<T>(a: seq<T>, b: seq<T>, c: seq<T>)
    ensures a + (b + c) == (a + b) + c
  {
  }

  lemma HeadOfConcat<T>(s: seq<T>, t: seq<T>)
    requires s != []
    ensures s + t != [] && (s + t)[0] == s[0] && (s + t)[1..] == s[1..] + t
  {
  }

  lemma FlatMapSnoc<T, U>(s: seq<T>, x: T, f: T -> seq<U>)
    ensures FlatMap(s + [x], f) == FlatMap(s, f) + f(x)
  {
    assert (s + [x])[..|s|] == s;
  }

  lemma {:induction false} FlatMapConcat<T, U>(s: seq<T>, t: seq<T>, f: T -> seq<U>)
    ensures FlatMap(s + t, f) == FlatMap(s, f) + FlatMap(t, f)
  {
    if t == [] {
      assert s + t == s;
    } else {
      var init, x := t[..|t| - 1], t[|t| - 1];
      FlatMapConcat(s, init, f);
      assert t == init + [x];
      assert s + t == (s + init) + [x];
      FlatMapSnoc(s + init, x, f);
      FlatMapSnoc(init, x, f);
      ConcatAssociates(FlatMap(s, f), FlatMap(init, f), f(x));
    }
  }

  lemma PullOut<T, U>(front: seq<T>, x: T, back: seq<T>, f: T -> seq<U>)
    ensures multiset(FlatMap(front + ([x] + back), f)) == multiset(FlatMap(front + back, f)) + multiset(f(x))
  {
    FlatMapConcat(front, [x] + back, f);
    FlatMapConcat([x], back, f);
    FlatMapConcat(front, back, f);
    assert [x] == [] + [x];
    FlatMapSnoc([], x, f);
  }

  lemma RemoveOne<T>(front: seq<T>, x: T, back: seq<T>)
    ensures multiset(front + ([x] + back)) == multiset(front + back) + multiset{x}
  {
    assert multiset([x] + back) == multiset{x} + multiset(back);
  }

  /** The last element of one sequence, found in a permutation of it: the rests are permutations too. */
  lemma FindLast<T>(s: seq<T>, t: seq<T>) returns (front: seq<T>, back: seq<T>)
    requires s != [] && multiset(s) == multiset(t)
    ensures t == front + ([s[|s| - 1]] + back)
    ensures multiset(s[..|s| - 1]) == multiset(front + back)
  {
    var x, init := s[|s| - 1], s[..|s| - 1];
    assert s == init + [x];
    assert x in multiset(t);
    var i :| 0 <= i < |t| && t[i] == x;
    front, back := t[..i], t[i + 1..];
    assert t == front + ([x] + back);
    RemoveOne(front, x, back);
    assert multiset(init) == multiset(s) - multiset{x};
  }

  /** Permuting the arguments permutes the results. */
  lemma {:induction false} FlatMapPermutation<T, U>(s: seq<T>, t: seq<T>, f: T -> seq<U>)
    requires multiset(s) == multiset(t)
    ensures multiset(FlatMap(s, f)) == multiset(FlatMap(t, f))
    decreases |s|
  {
    if s == [] {
      assert |multiset(t)| == 0;
    } else {
      var front, back := FindLast(s, t);
      FlatMapPermutation(s[..|s| - 1], front + back, f);
      PullOut(front, s[|s| - 1], back, f);
    }
  }
}
