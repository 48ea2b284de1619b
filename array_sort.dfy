/** `Array.prototype.sort(cmp)`. The engine's sort is stable: an element
    ends up after every earlier element that does not compare greater than
    it. The model inserts the elements left to right, each one in front of
    the first placed element that compares greater. For a comparator that
    is a difference of integer keys this is the unique stable sorted order;
    for an inconsistent comparator the engine's order is
    implementation-defined and this is one admissible outcome. */
module ArraySort {

  /** Put `x` in front of the first element `e` of `s` with `cmp(e, x) > 0`. */
  function Insert<T>(x: T, s: seq<T>, cmp: (T, T) -> int): (r: seq<T>)
    ensures |r| == |s| + 1
    ensures multiset(r) == multiset(s) + multiset{x}
  {
    if s == [] then [x]
    else if cmp(s[0], x) > 0 then [x] + s
    else
      assert s == [s[0]] + s[1..];
      [s[0]] + Insert(x, s[1..], cmp)
  }

  /** The array `s` after `s.sort(cmp)`: a permutation of `s`. */
  function Sort<T>(s: seq<T>, cmp: (T, T) -> int): (r: seq<T>)
    ensures |r| == |s|
    ensures multiset(r) == multiset(s)
  {
    if s == [] then []
    else
      assert s == s[..|s| - 1] + [s[|s| - 1]];
      Insert(s[|s| - 1], Sort(s[..|s| - 1], cmp), cmp)
  }

  /** Sorting a longer prefix inserts its last element into the sorted
      shorter one. */
  lemma SortPrefix<T>(s: seq<T>, i: nat, cmp: (T, T) -> int)
    requires i < |s|
    ensures Sort(s[..i + 1], cmp) == Insert(s[i], Sort(s[..i], cmp), cmp)
  {
    assert s[..i + 1][..i] == s[..i];
  }

  /** The comparator `(a, b) => key(a) - key(b)`. */
  function ByKey<T>(key: T -> int): (T, T) -> int
  {
    (a: T, b: T) => key(a) - key(b)
  }

  ghost predicate SortedByKey<T>(s: seq<T>, key: T -> int)
  {
    forall i, j :: 0 <= i < j < |s| ==> key(s[i]) <= key(s[j])
  }

  /** The elements of `s` whose key is `k`, in their order in `s`. */
  function WithKey<T>(s: seq<T>, key: T -> int, k: int): seq<T>
  {
    if s == [] then [] else (if key(s[0]) == k then [s[0]] else []) + WithKey(s[1..], key, k)
  }

  lemma {:induction false} WithKeyAppend<T>(s: seq<T>, t: seq<T>, key: T -> int, k: int)
    ensures WithKey(s + t, key, k) == WithKey(s, key, k) + WithKey(t, key, k)
  {
    if s == [] {
      assert s + t == t;
    } else {
      var head: seq<T> := if key(s[0]) == k then [s[0]] else [];
      assert (s + t)[0] == s[0];
      assert (s + t)[1..] == s[1..] + t;
      assert WithKey(s + t, key, k) == head + WithKey(s[1..] + t, key, k);
      WithKeyAppend(s[1..], t, key, k);
      assert WithKey(s, key, k) == head + WithKey(s[1..], key, k);
    }
  }

  lemma {:induction false} WithKeyNone<T>(s: seq<T>, key: T -> int, k: int)
    requires forall i :: 0 <= i < |s| ==> key(s[i]) != k
    ensures WithKey(s, key, k) == []
  {
    if s != [] {
      WithKeyNone(s[1..], key, k);
    }
  }

  /** Every key in `s` is at least `b`. */
  ghost predicate KeysAtLeast<T>(s: seq<T>, key: T -> int, b: int)
  {
    forall i :: 0 <= i < |s| ==> b <= key(s[i])
  }

  lemma {:induction false} InsertKeysAtLeast<T>(x: T, s: seq<T>, key: T -> int, b: int)
    requires b <= key(x) && KeysAtLeast(s, key, b)
    ensures KeysAtLeast(Insert(x, s, ByKey(key)), key, b)
  {
    if s != [] && ByKey(key)(s[0], x) <= 0 {
      assert KeysAtLeast(s[1..], key, b) by {
        forall i | 0 <= i < |s[1..]|
          ensures b <= key(s[1..][i])
        {
          assert s[1..][i] == s[i + 1];
        }
      }
      InsertKeysAtLeast(x, s[1..], key, b);
      var rest := Insert(x, s[1..], ByKey(key));
      var r := [s[0]] + rest;
      forall i | 0 <= i < |r|
        ensures b <= key(r[i])
      {
        if i > 0 {
          assert r[i] == rest[i - 1];
        }
      }
    }
  }

  /** Inserting into a sorted sequence keeps it sorted. */
  lemma {:induction false} InsertSorted<T>(x: T, s: seq<T>, key: T -> int)
    requires SortedByKey(s, key)
    ensures SortedByKey(Insert(x, s, ByKey(key)), key)
  {
    if s == [] {
      assert Insert(x, s, ByKey(key)) == [x];
    } else if ByKey(key)(s[0], x) > 0 {
      var r := [x] + s;
      assert Insert(x, s, ByKey(key)) == r;
      forall i, j | 0 <= i < j < |r|
        ensures key(r[i]) <= key(r[j])
      {
        assert r[j] == s[j - 1];
        if i == 0 {
          assert key(s[0]) <= key(s[j - 1]);
        } else {
          assert r[i] == s[i - 1];
        }
      }
    } else {
      var tail := s[1..];
      SortedTail(s, key);
      assert KeysAtLeast(tail, key, key(s[0])) by {
        forall i | 0 <= i < |tail|
          ensures key(s[0]) <= key(tail[i])
        {
          assert tail[i] == s[i + 1];
        }
      }
      InsertSorted(x, tail, key);
      InsertKeysAtLeast(x, tail, key, key(s[0]));
      var rest := Insert(x, tail, ByKey(key));
      var r := [s[0]] + rest;
      assert Insert(x, s, ByKey(key)) == r;
      forall i, j | 0 <= i < j < |r|
        ensures key(r[i]) <= key(r[j])
      {
        assert r[j] == rest[j - 1];
        if i > 0 {
          assert r[i] == rest[i - 1];
        }
      }
    }
  }

  /** Inserting into a sorted sequence appends `x` to the elements that
      share its key, and leaves the other keys' elements as they were. */
  lemma {:induction false} InsertWithKey<T>(x: T, s: seq<T>, key: T -> int, k: int)
    requires SortedByKey(s, key)
    ensures WithKey(Insert(x, s, ByKey(key)), key, k)
         == WithKey(s, key, k) + (if key(x) == k then [x] else [])
  {
    var tail: seq<T> := if key(x) == k then [x] else [];
    if s == [] {
      assert Insert(x, s, ByKey(key)) == [x] + [];
      WithKeyCons(x, [], key, k);
      assert WithKey([], key, k) == [];
      assert tail + [] == [] + tail;
    } else if key(s[0]) > key(x) {
      assert Insert(x, s, ByKey(key)) == [x] + s;
      WithKeyCons(x, s, key, k);
      if key(x) == k {
        forall i | 0 <= i < |s|
          ensures key(s[i]) != k
        {
          assert key(s[0]) <= key(s[i]);
        }
        WithKeyNone(s, key, k);
        assert [x] + [] == [] + [x];
      } else {
        assert [] + WithKey(s, key, k) == WithKey(s, key, k) + [];
      }
    } else {
      assert [s[0]] + s[1..] == s;
      var rest := Insert(x, s[1..], ByKey(key));
      var head: seq<T> := if key(s[0]) == k then [s[0]] else [];
      assert Insert(x, s, ByKey(key)) == [s[0]] + rest;
      SortedTail(s, key);
      InsertWithKey(x, s[1..], key, k);
      WithKeyCons(s[0], rest, key, k);
      WithKeyCons(s[0], s[1..], key, k);
      calc {
        WithKey(Insert(x, s, ByKey(key)), key, k);
        head + WithKey(rest, key, k);
        head + (WithKey(s[1..], key, k) + tail);
        { SeqAssociative(head, WithKey(s[1..], key, k), tail); }
        (head + WithKey(s[1..], key, k)) + tail;
        WithKey(s, key, k) + tail;
      }
    }
  }

  /** The elements with key `k` of `[h] + t`. */
  lemma WithKeyCons<T>(h: T, t: seq<T>, key: T -> int, k: int)
    ensures WithKey([h] + t, key, k) == (if key(h) == k then [h] else []) + WithKey(t, key, k)
  {
    assert ([h] + t)[1..] == t;
  }

  /** The tail of a sorted sequence is sorted. */
  lemma SortedTail<T>(s: seq<T>, key: T -> int)
    requires s != [] && SortedByKey(s, key)
    ensures SortedByKey(s[1..], key)
  {
    forall i, j | 0 <= i < j < |s[1..]|
      ensures key(s[1..][i]) <= key(s[1..][j])
    {
      assert s[1..][i] == s[i + 1] && s[1..][j] == s[j + 1];
    }
  }

  /** The key comparator sorts. */
  lemma {:induction false} SortByKeySorted<T>(s: seq<T>, key: T -> int)
    ensures SortedByKey(Sort(s, ByKey(key)), key)
  {
    if s != [] {
      SortByKeySorted(s[..|s| - 1], key);
      InsertSorted(s[|s| - 1], Sort(s[..|s| - 1], ByKey(key)), key);
    }
  }

  /** The key comparator is stable: the elements sharing any one key keep
      their relative order. */
  lemma {:induction false} SortByKeyStable<T>(s: seq<T>, key: T -> int, k: int)
    ensures WithKey(Sort(s, ByKey(key)), key, k) == WithKey(s, key, k)
  {
    if s != [] {
      var init, last := s[..|s| - 1], s[|s| - 1];
      var sortedInit := Sort(init, ByKey(key));
      var tail: seq<T> := if key(last) == k then [last] else [];
      calc {
        WithKey(Sort(s, ByKey(key)), key, k);
        WithKey(Insert(last, sortedInit, ByKey(key)), key, k);
        { SortByKeySorted(init, key); InsertWithKey(last, sortedInit, key, k); }
        WithKey(sortedInit, key, k) + tail;
        { SortByKeyStable(init, key, k); }
        WithKey(init, key, k) + tail;
        { WithKeySingle(last, key, k); }
        WithKey(init, key, k) + WithKey([last], key, k);
        { WithKeyAppend(init, [last], key, k); }
        WithKey(init + [last], key, k);
        { assert init + [last] == s; }
        WithKey(s, key, k);
      }
    }
  }

  lemma WithKeySingle<T>(x: T, key: T -> int, k: int)
    ensures WithKey([x], key, k) == if key(x) == k then [x] else []
  {
    assert [x][1..] == [];
  }

  lemma SeqAssociative<T>(a: seq<T>, b: seq<T>, c: seq<T>)
    ensures (a + b) + c == a + (b + c)
  {
  }

  /** Where `Insert` puts `x`: after the elements whose key is at most its
      own, in front of those whose key is greater. */
  lemma {:induction false} InsertAt<T>(x: T, s: seq<T>, key: T -> int, j: nat)
    requires j <= |s|
    requires forall i :: 0 <= i < j ==> key(s[i]) <= key(x)
    requires forall i :: j <= i < |s| ==> key(s[i]) > key(x)
    ensures Insert(x, s, ByKey(key)) == s[..j] + [x] + s[j..]
  {
    if j == 0 {
      assert s[j..] == s;
      if s != [] {
        assert ByKey(key)(s[0], x) > 0;
      }
    } else {
      assert ByKey(key)(s[0], x) <= 0;
      var tail := s[1..];
      forall i | 0 <= i < j - 1
        ensures key(tail[i]) <= key(x)
      {
        assert tail[i] == s[i + 1];
      }
      forall i | j - 1 <= i < |tail|
        ensures key(tail[i]) > key(x)
      {
        assert tail[i] == s[i + 1];
      }
      InsertAt(x, tail, key, j - 1);
      assert Insert(x, s, ByKey(key)) == [s[0]] + Insert(x, tail, ByKey(key));
      assert s == [s[0]] + tail;
      SplitAfterHead(s[0], tail, x, j);
    }
  }

  /** Splitting `[h] + t` at `j > 0` and putting `x` in the gap is putting
      `x` in the gap of `t` at `j - 1`, after `h`. */
  lemma SplitAfterHead<T>(h: T, t: seq<T>, x: T, j: nat)
    requires 0 < j <= |t| + 1
    ensures ([h] + t)[..j] + [x] + ([h] + t)[j..] == [h] + (t[..j - 1] + [x] + t[j - 1..])
  {
    var s := [h] + t;
    assert s[..j] == [h] + t[..j - 1];
    assert s[j..] == t[j - 1..];
    calc {
      s[..j] + [x] + s[j..];
      ([h] + t[..j - 1]) + [x] + t[j - 1..];
      { SeqAssociative([h], t[..j - 1], [x]); }
      ([h] + (t[..j - 1] + [x])) + t[j - 1..];
      { SeqAssociative([h], t[..j - 1] + [x], t[j - 1..]); }
      [h] + (t[..j - 1] + [x] + t[j - 1..]);
    }
  }
}
