/** A stable sort into descending order of an integer key, the ordering
    produced by sorting on a key with `reverse=True`: larger keys first,
    and elements with equal keys in their input order. */
module StableSort {

  /** Keys never increase from left to right. */
  ghost predicate NonIncreasing<T>(s: seq<T>, key: T -> int) {
    forall i, j :: 0 <= i < j < |s| ==> key(s[i]) >= key(s[j])
  }

  /** The subsequence of `s` whose elements have key `k`, in the order
      they occur in `s`. */
  function KeyClass<T>(s: seq<T>, key: T -> int, k: int): (r: seq<T>)
    ensures |r| <= |s|
    ensures forall i :: 0 <= i < |r| ==> key(r[i]) == k
  {
    if |s| == 0 then []
    else (if key(s[0]) == k then [s[0]] else []) + KeyClass(s[1..], key, k)
  }

  /** `r` lists the elements of `s` in a stable order: every class of
      equal keys appears in `r` in exactly its order in `s`. */
  ghost predicate SameKeyClasses<T>(r: seq<T>, s: seq<T>, key: T -> int) {
    forall k :: KeyClass(r, key, k) == KeyClass(s, key, k)
  }

  /** Unfolds `KeyClass` on a sequence with a known first element. */
  lemma KeyClassCons<T>(x: T, s: seq<T>, key: T -> int, k: int)
    ensures KeyClass([x] + s, key, k) == (if key(x) == k then [x] else []) + KeyClass(s, key, k)
  {
    assert ([x] + s)[1..] == s;
  }

  /** Putting an element whose key bounds all of `s` in front of `s`
      keeps the order non-increasing. */
  lemma PrependKeepsNonIncreasing<T>(h: T, s: seq<T>, key: T -> int)
    requires NonIncreasing(s, key)
    requires forall y :: y in multiset(s) ==> key(y) <= key(h)
    ensures NonIncreasing([h] + s, key)
  {
    forall j | 0 <= j < |s|
      ensures key(s[j]) <= key(h)
    {
      assert s[j] in multiset(s);
    }
  }

  /** Every element of a non-increasing sequence has a key bounded by
      the key of its first element. */
  lemma HeadBoundsTail<T>(s: seq<T>, key: T -> int)
    requires |s| > 0 && NonIncreasing(s, key)
    ensures forall y :: y in multiset(s[1..]) ==> key(y) <= key(s[0])
  {
    forall y | y in multiset(s[1..])
      ensures key(y) <= key(s[0])
    {
      var j :| 0 <= j < |s[1..]| && s[1..][j] == y;
      assert s[j + 1] == y;
    }
  }

  /** Moving `x` behind an element with a strictly larger key changes no
      class of equal keys. */
  lemma SwapPastLarger<T>(x: T, h: T, rest: seq<T>, t: seq<T>, key: T -> int)
    requires key(x) < key(h)
    requires SameKeyClasses(rest, [x] + t, key)
    ensures SameKeyClasses([h] + rest, [x] + ([h] + t), key)
  {
    forall k
      ensures KeyClass([h] + rest, key, k) == KeyClass([x] + ([h] + t), key, k)
    {
      KeyClassCons(h, rest, key, k);
      KeyClassCons(x, [h] + t, key, k);
      KeyClassCons(h, t, key, k);
      KeyClassCons(x, t, key, k);
      var tail := KeyClass(t, key, k);
      assert KeyClass(rest, key, k) == KeyClass([x] + t, key, k);
      if key(x) == k {
        assert KeyClass([h] + rest, key, k) == [x] + tail;
        assert KeyClass([x] + ([h] + t), key, k) == [x] + tail;
      } else if key(h) == k {
        assert KeyClass([h] + rest, key, k) == [h] + tail;
        assert KeyClass([x] + ([h] + t), key, k) == [h] + tail;
      } else {
        assert KeyClass([h] + rest, key, k) == tail;
      }
    }
  }

  /** Inserts `x` in front of the first element whose key is not larger
      than its own, so `x` precedes every element with an equal key. */
  function Insert<T>(x: T, s: seq<T>, key: T -> int): (r: seq<T>)
    requires NonIncreasing(s, key)
    ensures NonIncreasing(r, key)
    ensures multiset(r) == multiset(s) + multiset{x}
    ensures SameKeyClasses(r, [x] + s, key)
  {
    if |s| == 0 || key(x) >= key(s[0]) then
      [x] + s
    else
      var rest := Insert(x, s[1..], key);
      HeadBoundsTail(s, key);
      PrependKeepsNonIncreasing(s[0], rest, key);
      assert s == [s[0]] + s[1..];
      SwapPastLarger(x, s[0], rest, s[1..], key);
      [s[0]] + rest
  }

  /** Sorts `s` into non-increasing key order, stably. */
  function SortDescending<T>(s: seq<T>, key: T -> int): (r: seq<T>)
    ensures NonIncreasing(r, key)
    ensures multiset(r) == multiset(s)
    ensures SameKeyClasses(r, s, key)
  {
    if |s| == 0 then []
    else
      var sorted := SortDescending(s[1..], key);
      var r := Insert(s[0], sorted, key);
      forall k
        ensures KeyClass(r, key, k) == KeyClass(s, key, k)
      {
        KeyClassCons(s[0], sorted, key, k);
        KeyClassCons(s[0], s[1..], key, k);
      }
      assert s == [s[0]] + s[1..];
      r
  }

  /** A non-empty key class has a witness in the sequence. */
  lemma {:induction false} KeyClassWitness<T>(s: seq<T>, key: T -> int, k: int)
    requires |KeyClass(s, key, k)| > 0
    ensures exists i :: 0 <= i < |s| && key(s[i]) == k
  {
    if key(s[0]) != k {
      KeyClassWitness(s[1..], key, k);
      var i :| 0 <= i < |s[1..]| && key(s[1..][i]) == k;
      assert key(s[i + 1]) == k;
    }
  }

  /** The class of the first element's key starts with that element. */
  lemma KeyClassOfHead<T>(s: seq<T>, key: T -> int)
    requires |s| > 0
    ensures |KeyClass(s, key, key(s[0]))| > 0
    ensures KeyClass(s, key, key(s[0]))[0] == s[0]
  {
  }

  /** Dropping the first element keeps the order non-increasing. */
  lemma TailNonIncreasing<T>(s: seq<T>, key: T -> int)
    requires |s| > 0 && NonIncreasing(s, key)
    ensures NonIncreasing(s[1..], key)
  {
    forall i, j | 0 <= i < j < |s[1..]|
      ensures key(s[1..][i]) >= key(s[1..][j])
    {
      assert s[1..][i] == s[i + 1] && s[1..][j] == s[j + 1];
    }
  }

  /** Stable descending order is unique: two non-increasing sequences
      with the same classes of equal keys are equal. Hence any stable
      sort into descending key order yields `SortDescending`. */
  lemma {:induction false} StableDescendingOrderIsUnique<T>(r1: seq<T>, r2: seq<T>, key: T -> int)
    requires NonIncreasing(r1, key) && NonIncreasing(r2, key)
    requires SameKeyClasses(r1, r2, key)
    ensures r1 == r2
  {
    if |r1| == 0 && |r2| == 0 {
      return;
    }
    if |r1| == 0 {
      KeyClassOfHead(r2, key);
      assert false;
    }
    if |r2| == 0 {
      KeyClassOfHead(r1, key);
      assert false;
    }
    var m1, m2 := key(r1[0]), key(r2[0]);
    KeyClassOfHead(r1, key);
    KeyClassOfHead(r2, key);
    assert KeyClass(r2, key, m1) == KeyClass(r1, key, m1);
    assert KeyClass(r1, key, m2) == KeyClass(r2, key, m2);
    KeyClassWitness(r2, key, m1);
    KeyClassWitness(r1, key, m2);
    var i :| 0 <= i < |r2| && key(r2[i]) == m1;
    var j :| 0 <= j < |r1| && key(r1[j]) == m2;
    assert m1 == m2;
    assert r1[0] == r2[0];
    assert r1 == [r1[0]] + r1[1..];
    assert r2 == [r2[0]] + r2[1..];
    forall k
      ensures KeyClass(r1[1..], key, k) == KeyClass(r2[1..], key, k)
    {
      assert KeyClass(r1, key, k) == KeyClass(r2, key, k);
      KeyClassCons(r1[0], r1[1..], key, k);
      KeyClassCons(r2[0], r2[1..], key, k);
      var h: seq<T> := if key(r1[0]) == k then [r1[0]] else [];
      assert KeyClass(r1[1..], key, k) == (h + KeyClass(r1[1..], key, k))[|h|..];
      assert KeyClass(r2[1..], key, k) == (h + KeyClass(r2[1..], key, k))[|h|..];
    }
    TailNonIncreasing(r1, key);
    TailNonIncreasing(r2, key);
    StableDescendingOrderIsUnique(r1[1..], r2[1..], key);
  }

  /** In a non-increasing sequence, every element left out of a prefix
      has a key no larger than any element of the prefix. */
  lemma PrefixDominatesRest<T>(s: seq<T>, n: nat, key: T -> int)
    requires n <= |s| && NonIncreasing(s, key)
    ensures multiset(s[..n]) <= multiset(s)
    ensures forall i, t :: 0 <= i < n && t in multiset(s) - multiset(s[..n]) ==>
              key(t) <= key(s[..n][i])
  {
    var top, rest := s[..n], s[n..];
    assert s == top + rest;
    assert multiset(s) == multiset(top) + multiset(rest);
    forall i, t | 0 <= i < n && t in multiset(s) - multiset(top)
      ensures key(t) <= key(top[i])
    {
      assert t in multiset(rest);
      var j :| 0 <= j < |rest| && rest[j] == t;
      assert s[n + j] == t;
    }
  }
}
