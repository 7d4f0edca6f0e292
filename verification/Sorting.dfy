/** The stable array sort that the indexer calls with a comparator.  `le(x, y)` is "the comparator
    returns at most zero". */
module Sorting {
  import opened Sequences

  ghost predicate TotalPreorder<T(!new)>(le: (T, T) -> bool) {
    && (forall x, y :: le(x, y) || le(y, x))
    && (forall x, y, z :: le(x, y) && le(y, z) ==> le(x, z))
  }

  ghost predicate SortedBy<T>(s: seq<T>, le: (T, T) -> bool) {
    forall i, j :: 0 <= i < j < |s| ==> le(s[i], s[j])
  }

  /** Elements that tie under `le` are the same element. */
  ghost predicate KeysIdentify<T>(s: seq<T>, le: (T, T) -> bool) {
    forall i, j :: 0 <= i < |s| && 0 <= j < |s| && le(s[i], s[j]) && le(s[j], s[i]) ==> s[i] == s[j]
  }

  function Insert<T>(x: T, s: seq<T>, le: (T, T) -> bool): (r: seq<T>)
    ensures multiset(r) == multiset(s) + multiset{x}
  {
    if s == [] || (s != [] && le(x, s[0])) then
      assert multiset([x] + s) == multiset(s) + multiset{x};
      [x] + s
    else
      assert s == [s[0]] + s[1..];
      [s[0]] + Insert(x, s[1..], le)
  }

  function StableSort<T>(s: seq<T>, le: (T, T) -> bool): (r: seq<T>)
    ensures multiset(r) == multiset(s)
    ensures |r| == |s|
  {
    if s == [] then [] else
      assert s == [s[0]] + s[1..];
      var r := Insert(s[0], StableSort(s[1..], le), le);
      assert |r| == |multiset(r)|;
      r
  }

  lemma SameElements<T>(s: seq<T>, t: seq<T>)
    requires multiset(s) == multiset(t)
    ensures forall x :: x in s <==> x in t
  {
    forall x ensures x in s <==> x in t {
      assert x in s <==> x in multiset(s);
      assert x in t <==> x in multiset(t);
    }
  }

  lemma InsertBehind<T>(x: T, s: seq<T>, le: (T, T) -> bool)
    requires s != [] && !le(x, s[0])
    ensures Insert(x, s, le) == [s[0]] + Insert(x, s[1..], le)
  {
  }

  lemma InsertMembers<T>(x: T, s: seq<T>, le: (T, T) -> bool, y: T)
    requires y in Insert(x, s, le)
    ensures y == x || y in s
  {
    assert y in multiset(Insert(x, s, le));
    assert y in multiset(s) + multiset{x};
  }

  lemma PrependSorted<T>(x: T, s: seq<T>, le: (T, T) -> bool)
    requires SortedBy(s, le) && forall y :: y in s ==> le(x, y)
    ensures SortedBy([x] + s, le)
  {
  }

  lemma {:induction false} InsertSorts<T(!new)>(x: T, s: seq<T>, le: (T, T) -> bool)
    requires TotalPreorder(le) && SortedBy(s, le)
    ensures SortedBy(Insert(x, s, le), le)
  {
    if s == [] {
    } else if le(x, s[0]) {
      PrependSorted(x, s, le);
    } else {
      var head, tail := s[0], s[1..];
      InsertSorts(x, tail, le);
      forall y | y in Insert(x, tail, le) ensures le(head, y) {
        InsertMembers(x, tail, le, y);
      }
      PrependSorted(head, Insert(x, tail, le), le);
      InsertBehind(x, s, le);
    }
  }

  lemma {:induction false} StableSortSorts<T(!new)>(s: seq<T>, le: (T, T) -> bool)
    requires TotalPreorder(le)
    ensures SortedBy(StableSort(s, le), le)
  {
    if s != [] {
      StableSortSorts(s[1..], le);
      InsertSorts(s[0], StableSort(s[1..], le), le);
    }
  }

  lemma FirstsAgree<T>(s: seq<T>, t: seq<T>, le: (T, T) -> bool)
    requires s != [] && t != [] && (forall x :: x in s <==> x in t)
    requires SortedBy(s, le) && SortedBy(t, le) && KeysIdentify(s, le)
    ensures s[0] == t[0]
  {
    assert s[0] in t && t[0] in s;
    var i :| 0 <= i < |t| && t[i] == s[0];
    var j :| 0 <= j < |s| && s[j] == t[0];
    assert i == 0 || le(t[0], t[i]);
    assert j == 0 || le(s[0], s[j]);
  }

  lemma DropFirst<T>(s: seq<T>)
    requires s != []
    ensures multiset(s[1..]) == multiset(s) - multiset{s[0]}
  {
    assert s == [s[0]] + s[1..];
  }

  lemma {:induction false} SortedIsUnique<T>(s: seq<T>, t: seq<T>, le: (T, T) -> bool)
    requires multiset(s) == multiset(t)
    requires SortedBy(s, le) && SortedBy(t, le) && KeysIdentify(s, le)
    ensures s == t
  {
    assert |s| == |multiset(s)| == |multiset(t)| == |t|;
    if s != [] {
      SameElements(s, t);
      FirstsAgree(s, t, le);
      DropFirst(s);
      DropFirst(t);
      SortedIsUnique(s[1..], t[1..], le);
      assert s == [s[0]] + s[1..] && t == [t[0]] + t[1..];
    }
  }

  /** When ties identify elements, sorting forgets the order of its input. */
  lemma SortForgetsOrder<T(!new)>(s: seq<T>, t: seq<T>, le: (T, T) -> bool)
    requires TotalPreorder(le) && multiset(s) == multiset(t) && KeysIdentify(s, le)
    ensures StableSort(s, le) == StableSort(t, le)
  {
    StableSortSorts(s, le);
    StableSortSorts(t, le);
    var u := StableSort(s, le);
    SameElements(u, s);
    forall i, j | 0 <= i < |u| && 0 <= j < |u| && le(u[i], u[j]) && le(u[j], u[i]) ensures u[i] == u[j] {
      assert u[i] in s && u[j] in s;
    }
    SortedIsUnique(u, StableSort(t, le), le);
  }

  lemma {:induction false} InsertBeforeBlock<T(!new)>(x: T, s: seq<T>, t: seq<T>, le: (T, T) -> bool)
    requires forall y :: y in t ==> le(x, y)
    ensures Insert(x, s + t, le) == Insert(x, s, le) + t
  {
    if s == [] {
      assert s + t == t;
      InsertInFront(x, t, le);
      InsertInFront(x, s, le);
    } else {
      HeadOfConcat(s, t);
      if le(x, s[0]) {
        InsertInFront(x, s + t, le);
        InsertInFront(x, s, le);
        ConcatAssociates([x], s, t);
      } else {
        InsertBeforeBlock(x, s[1..], t, le);
        InsertBehind(x, s, le);
        InsertBehind(x, s + t, le);
        ConcatAssociates([s[0]], Insert(x, s[1..], le), t);
      }
    }
  }

  lemma InsertInFront<T>(x: T, s: seq<T>, le: (T, T) -> bool)
    requires s == [] || le(x, s[0])
    ensures Insert(x, s, le) == [x] + s
  {
  }

  lemma SortOfConcat<T>(s: seq<T>, t: seq<T>, le: (T, T) -> bool)
    requires s != []
    ensures StableSort(s + t, le) == Insert(s[0], StableSort(s[1..] + t, le), le)
  {
    HeadOfConcat(s, t);
  }

  /** Sorting a concatenation whose first part is nowhere above the second sorts the parts. */
  lemma {:induction false} SortConcat<T(!new)>(s: seq<T>, t: seq<T>, le: (T, T) -> bool)
    requires forall x, y :: x in s && y in t ==> le(x, y)
    ensures StableSort(s + t, le) == StableSort(s, le) + StableSort(t, le)
  {
    if s == [] {
      assert s + t == t;
    } else {
      var head, tail, back := s[0], s[1..], StableSort(t, le);
      assert forall x :: x in tail ==> x in s;
      SortConcat(tail, t, le);
      assert forall y :: y in back ==> le(head, y) by {
        SameElements(back, t);
        assert head in s;
      }
      InsertBeforeBlock(head, StableSort(tail, le), back, le);
      SortOfConcat(s, t, le);
    }
  }

  lemma {:induction false} SortOfSorted<T(!new)>(s: seq<T>, le: (T, T) -> bool)
    requires SortedBy(s, le)
    ensures StableSort(s, le) == s
  {
    if s != [] {
      SortOfSorted(s[1..], le);
      if s[1..] != [] {
        assert le(s[0], s[1]);
      }
    }
  }

  function Swapped<T>(s: seq<T>, i: nat, j: nat): seq<T>
    requires i < |s| && j < |s|
  {
    s[i := s[j]][j := s[i]]
  }

  lemma SwapOfTies<T(!new)>(s: seq<T>, i: nat, j: nat, le: (T, T) -> bool)
    requires TotalPreorder(le) && SortedBy(s, le) && i < j < |s| && le(s[j], s[i])
    ensures SortedBy(Swapped(s, i, j), le)
  {
    var t := Swapped(s, i, j);
    forall a, b | 0 <= a < b < |t| ensures le(t[a], t[b]) {
      assert le(s[i], s[j]);
      assert a != i && a != j ==> t[a] == s[a];
      assert b != i && b != j ==> t[b] == s[b];
      assert a < i ==> le(s[a], s[i]);
      assert a < j ==> le(s[a], s[j]);
      assert b > i ==> le(s[i], s[b]);
      assert b > j ==> le(s[j], s[b]);
    }
  }

  lemma SwapPermutes<T>(s: seq<T>, i: nat, j: nat)
    requires i < |s| && j < |s|
    ensures multiset(Swapped(s, i, j)) == multiset(s)
  {
  }

  lemma PlacesOf<T>(s: seq<T>, x: T, y: T) returns (i: nat, j: nat)
    requires x in s && y in s && x != y
    ensures i < j < |s| && ((s[i] == x && s[j] == y) || (s[i] == y && s[j] == x))
  {
    var k: nat :| k < |s| && s[k] == x;
    var l: nat :| l < |s| && s[l] == y;
    i, j := if k < l then k else l, if k < l then l else k;
  }

  /** A permutation that sorts differently: the sorted elements with two different ties exchanged. */
  lemma DifferentlySorted<T(!new)>(s: seq<T>, le: (T, T) -> bool) returns (t: seq<T>)
    requires TotalPreorder(le) && !KeysIdentify(s, le)
    ensures multiset(t) == multiset(s) && StableSort(t, le) != StableSort(s, le)
  {
    var u := StableSort(s, le);
    StableSortSorts(s, le);
    var a, b :| 0 <= a < |s| && 0 <= b < |s| && le(s[a], s[b]) && le(s[b], s[a]) && s[a] != s[b];
    SameElements(u, s);
    var i, j := PlacesOf(u, s[a], s[b]);
    t := Swapped(u, i, j);
    SwapPermutes(u, i, j);
    SwapOfTies(u, i, j, le);
    SortOfSorted(t, le);
  }
}
