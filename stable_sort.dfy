/**
 * Sorting a copy of a list ascending by an integer key, keeping entries with
 * equal keys in their original order: what JavaScript's Array.prototype.sort
 * (stable since ES2019) does with the comparator `(a, b) => key(a) - key(b)`.
 * The result is specified by two properties, sorted and stable, which are
 * shown to determine it completely, so any stable sort gives the same list.
 */
module StableSort {
  import SeqLemmas

  ghost predicate SortedBy<T>(s: seq<T>, key: T -> int) {
    forall i, j :: 0 <= i < j < |s| ==> key(s[i]) <= key(s[j])
  }

  /** The entries of s whose key is k, in their order in s. */
  function WithKey<T>(s: seq<T>, key: T -> int, k: int): (r: seq<T>)
    ensures |r| <= |s|
  {
    if s == [] then []
    else (if key(s[0]) == k then [s[0]] else []) + WithKey(s[1..], key, k)
  }

  /** Every entry of WithKey(s, key, k) comes from s and has key k; `j` is where it sits in s. */
  lemma {:induction false} WithKeySource<T>(s: seq<T>, key: T -> int, k: int, i: nat) returns (j: nat)
    requires i < |WithKey(s, key, k)|
    ensures j < |s| && s[j] == WithKey(s, key, k)[i] && key(s[j]) == k
  {
    var head := if key(s[0]) == k then [s[0]] else [];
    assert WithKey(s, key, k) == head + WithKey(s[1..], key, k);
    if i < |head| {
      j := 0;
    } else {
      var j' := WithKeySource(s[1..], key, k, i - |head|);
      j := j' + 1;
    }
  }

  /** Stability: for every key, the entries with that key appear in the same order. */
  ghost predicate SameKeyGroups<T>(a: seq<T>, b: seq<T>, key: T -> int) {
    forall k :: WithKey(a, key, k) == WithKey(b, key, k)
  }

  /** Inserts x after every entry whose key is not greater than x's. */
  function Insert<T>(x: T, s: seq<T>, key: T -> int): (r: seq<T>)
    ensures |r| == |s| + 1
    ensures multiset(r) == multiset(s) + multiset{x}
    ensures r[0] == if s == [] || key(x) < key(s[0]) then x else s[0]
  {
    if s == [] then [x]
    else if key(x) < key(s[0]) then [x] + s
    else
      assert s == [s[0]] + s[1..];
      [s[0]] + Insert(x, s[1..], key)
  }

  /** The rest of a sorted list is sorted. */
  lemma SortedTail<T>(s: seq<T>, key: T -> int)
    requires SortedBy(s, key) && s != []
    ensures SortedBy(s[1..], key)
  {
    forall i, j | 0 <= i < j < |s| - 1
      ensures key(s[1..][i]) <= key(s[1..][j])
    {
      assert s[1..][i] == s[i + 1] && s[1..][j] == s[j + 1];
    }
  }

  /** Inserting into a sorted list keeps it sorted. */
  lemma {:induction false} InsertKeepsSorted<T>(x: T, s: seq<T>, key: T -> int)
    requires SortedBy(s, key)
    ensures SortedBy(Insert(x, s, key), key)
  {
    if s != [] && key(s[0]) <= key(x) {
      var rest := Insert(x, s[1..], key);
      var r := [s[0]] + rest;
      assert Insert(x, s, key) == r;
      SortedTail(s, key);
      InsertKeepsSorted(x, s[1..], key);
      assert key(s[0]) <= key(rest[0]) by {
        if |s| > 1 {
          assert key(s[0]) <= key(s[1]);
        }
      }
      forall i, j | 0 <= i < j < |r|
        ensures key(r[i]) <= key(r[j])
      {
        assert r[j] == rest[j - 1];
        if i > 0 {
          assert r[i] == rest[i - 1];
        }
      }
    }
  }

  /** Insertion sort: each entry, from first to last, goes after the equal keys already placed. */
  function SortBy<T>(s: seq<T>, key: T -> int): (r: seq<T>)
    ensures |r| == |s|
    ensures multiset(r) == multiset(s)
    ensures SortedBy(r, key)
  {
    if s == [] then []
    else
      var sorted := SortBy(s[..|s| - 1], key);
      assert s == s[..|s| - 1] + [s[|s| - 1]];
      InsertKeepsSorted(s[|s| - 1], sorted, key);
      Insert(s[|s| - 1], sorted, key)
  }

  lemma {:induction false} WithKeyAppend<T>(a: seq<T>, b: seq<T>, key: T -> int, k: int)
    ensures WithKey(a + b, key, k) == WithKey(a, key, k) + WithKey(b, key, k)
  {
    if a != [] {
      var head := if key(a[0]) == k then [a[0]] else [];
      assert (a + b)[0] == a[0] && (a + b)[1..] == a[1..] + b;
      assert WithKey(a + b, key, k) == head + WithKey(a[1..] + b, key, k);
      assert WithKey(a, key, k) == head + WithKey(a[1..], key, k);
      WithKeyAppend(a[1..], b, key, k);
      SeqLemmas.ConcatAssociative(head, WithKey(a[1..], key, k), WithKey(b, key, k));
    } else {
      assert a + b == b;
    }
  }

  /** A sorted list has no entry with a key below its first one. */
  lemma {:induction false} WithKeyBelowFirst<T>(s: seq<T>, key: T -> int, k: int)
    requires SortedBy(s, key) && s != [] && k < key(s[0])
    ensures WithKey(s, key, k) == []
  {
    if |s| > 1 {
      assert key(s[0]) <= key(s[1]);
      WithKeyBelowFirst(s[1..], key, k);
    }
  }

  /** WithKey of a list with one entry in front. */
  lemma WithKeyCons<T>(y: T, t: seq<T>, key: T -> int, k: int)
    ensures WithKey([y] + t, key, k) == (if key(y) == k then [y] else []) + WithKey(t, key, k)
  {
    assert ([y] + t)[0] == y && ([y] + t)[1..] == t;
  }

  /** Insertion in front of a sorted list with larger keys: no entry of the list has x's key. */
  lemma InsertWithKeyInFront<T>(x: T, s: seq<T>, key: T -> int, k: int)
    requires SortedBy(s, key) && s != [] && key(x) < key(s[0])
    ensures WithKey(Insert(x, s, key), key, k) == WithKey(s, key, k) + (if key(x) == k then [x] else [])
  {
    var single := if key(x) == k then [x] else [];
    calc {
      WithKey(Insert(x, s, key), key, k);
      { assert Insert(x, s, key) == [x] + s; }
      WithKey([x] + s, key, k);
      { WithKeyCons(x, s, key, k); }
      single + WithKey(s, key, k);
      { if key(x) == k { WithKeyBelowFirst(s, key, k); } }
      WithKey(s, key, k) + single;
    }
  }

  /** Insertion past the first entry, given the result for the rest of the list. */
  lemma InsertWithKeyPastFirst<T>(x: T, s: seq<T>, key: T -> int, k: int)
    requires s != [] && key(s[0]) <= key(x)
    requires WithKey(Insert(x, s[1..], key), key, k) == WithKey(s[1..], key, k) + (if key(x) == k then [x] else [])
    ensures WithKey(Insert(x, s, key), key, k) == WithKey(s, key, k) + (if key(x) == k then [x] else [])
  {
    var single := if key(x) == k then [x] else [];
    var head := if key(s[0]) == k then [s[0]] else [];
    var rest := Insert(x, s[1..], key);
    calc {
      WithKey(Insert(x, s, key), key, k);
      { assert Insert(x, s, key) == [s[0]] + rest; }
      WithKey([s[0]] + rest, key, k);
      { WithKeyCons(s[0], rest, key, k); }
      head + WithKey(rest, key, k);
      head + (WithKey(s[1..], key, k) + single);
      { SeqLemmas.ConcatAssociative(head, WithKey(s[1..], key, k), single); }
      (head + WithKey(s[1..], key, k)) + single;
      WithKey(s, key, k) + single;
    }
  }

  /** In a sorted list, x is placed after every entry with x's key. */
  lemma {:induction false} InsertWithKey<T>(x: T, s: seq<T>, key: T -> int, k: int)
    requires SortedBy(s, key)
    ensures WithKey(Insert(x, s, key), key, k) == WithKey(s, key, k) + (if key(x) == k then [x] else [])
  {
    if s == [] {
      WithKeySingle(x, key, k);
    } else if key(x) < key(s[0]) {
      InsertWithKeyInFront(x, s, key, k);
    } else {
      SortedTail(s, key);
      InsertWithKey(x, s[1..], key, k);
      InsertWithKeyPastFirst(x, s, key, k);
    }
  }

  /** Sorting keeps, for every key, the entries with that key in their original order. */
  lemma {:induction false} SortByStable<T>(s: seq<T>, key: T -> int, k: int)
    ensures WithKey(SortBy(s, key), key, k) == WithKey(s, key, k)
  {
    if s != [] {
      var init, last := s[..|s| - 1], s[|s| - 1];
      var sorted := SortBy(init, key);
      calc {
        WithKey(SortBy(s, key), key, k);
        WithKey(Insert(last, sorted, key), key, k);
        { InsertWithKey(last, sorted, key, k); }
        WithKey(sorted, key, k) + (if key(last) == k then [last] else []);
        { SortByStable(init, key, k); WithKeySingle(last, key, k); }
        WithKey(init, key, k) + WithKey([last], key, k);
        { WithKeyAppend(init, [last], key, k); }
        WithKey(init + [last], key, k);
        { assert s == init + [last]; }
        WithKey(s, key, k);
      }
    }
  }

  lemma WithKeySingle<T>(x: T, key: T -> int, k: int)
    ensures WithKey([x], key, k) == if key(x) == k then [x] else []
  {
    assert [x][1..] == [];
  }

  /** The sorted list is a permutation of the input, ascending, and stable. */
  lemma SortByCorrect<T>(s: seq<T>, key: T -> int)
    ensures multiset(SortBy(s, key)) == multiset(s)
    ensures SortedBy(SortBy(s, key), key)
    ensures SameKeyGroups(SortBy(s, key), s, key)
  {
    forall k ensures WithKey(SortBy(s, key), key, k) == WithKey(s, key, k) {
      SortByStable(s, key, k);
    }
  }

  lemma WithKeyHead<T>(s: seq<T>, key: T -> int)
    requires s != []
    ensures WithKey(s, key, key(s[0])) == [s[0]] + WithKey(s[1..], key, key(s[0]))
  {
  }

  lemma WithKeyOther<T>(s: seq<T>, key: T -> int, k: int)
    requires s != [] && key(s[0]) != k
    ensures WithKey(s, key, k) == WithKey(s[1..], key, k)
  {
  }

  /**
   * Two sorted lists with the same entries per key, in the same order, are
   * equal: sortedness and stability pin the result down, whatever stable
   * algorithm computes it.
   */
  lemma {:induction false} SortedAndStableIsUnique<T>(a: seq<T>, b: seq<T>, key: T -> int)
    requires SortedBy(a, key) && SortedBy(b, key)
    requires SameKeyGroups(a, b, key)
    ensures a == b
  {
    if a == [] && b == [] {
      return;
    } else if a == [] {
      // b's first entry has no partner in a.
      WithKeyHead(b, key);
      assert false;
    } else if b == [] {
      WithKeyHead(a, key);
      assert false;
    }
    var ka, kb := key(a[0]), key(b[0]);
    // b holds an entry with key ka, so kb <= ka; and symmetrically.
    WithKeyHead(a, key);
    WithKeyHead(b, key);
    assert WithKey(a, key, ka) == WithKey(b, key, ka);
    assert WithKey(a, key, kb) == WithKey(b, key, kb);
    var j := WithKeySource(b, key, ka, 0);
    assert kb <= key(b[j]) == ka;
    var i := WithKeySource(a, key, kb, 0);
    assert ka <= key(a[i]) == kb;
    assert a[0] == b[0];
    forall k
      ensures WithKey(a[1..], key, k) == WithKey(b[1..], key, k)
    {
      assert WithKey(a, key, k) == WithKey(b, key, k);
      if k == ka {
        assert WithKey(a[1..], key, k) == WithKey(a, key, k)[1..];
        assert WithKey(b[1..], key, k) == WithKey(b, key, k)[1..];
      } else {
        WithKeyOther(a, key, k);
        WithKeyOther(b, key, k);
      }
    }
    assert SortedBy(a[1..], key) && SortedBy(b[1..], key);
    SortedAndStableIsUnique(a[1..], b[1..], key);
    assert a == [a[0]] + a[1..] && b == [b[0]] + b[1..];
  }

  /** No two entries share an id. */
  ghost predicate DistinctKeys<T>(s: seq<T>, id: T -> int) {
    forall i, j :: 0 <= i < j < |s| ==> id(s[i]) != id(s[j])
  }

  /** s with the entry at index k taken out. */
  function Without<T>(s: seq<T>, k: nat): (r: seq<T>)
    requires k < |s|
    ensures |r| == |s| - 1
    ensures forall m :: 0 <= m < |r| ==> r[m] == s[if m < k then m else m + 1]
  {
    s[..k] + s[k + 1..]
  }

  lemma WithoutMultiset<T>(s: seq<T>, k: nat)
    requires k < |s|
    ensures multiset(Without(s, k)) == multiset(s) - multiset{s[k]}
  {
    assert s == s[..k] + [s[k]] + s[k + 1..];
  }

  lemma WithoutDistinct<T>(s: seq<T>, k: nat, id: T -> int)
    requires k < |s| && DistinctKeys(s, id)
    ensures DistinctKeys(Without(s, k), id)
    ensures forall m :: 0 <= m < |s| - 1 ==> id(Without(s, k)[m]) != id(s[k])
  {
  }

  /** Putting an entry whose id occurs nowhere else in front keeps the ids distinct. */
  lemma DistinctCons<T>(x: T, t: seq<T>, id: T -> int)
    requires DistinctKeys(t, id)
    requires forall j :: 0 <= j < |t| ==> id(t[j]) != id(x)
    ensures DistinctKeys([x] + t, id)
  {
    var r := [x] + t;
    forall i, j | 0 <= i < j < |r|
      ensures id(r[i]) != id(r[j])
    {
      assert r[j] == t[j - 1];
      if i > 0 {
        assert r[i] == t[i - 1];
      }
    }
  }

  /** An id missing from a list is missing from every rearrangement of it. */
  lemma IdMissingFromPermutation<T>(t: seq<T>, u: seq<T>, x: T, id: T -> int)
    requires multiset(t) == multiset(u)
    requires forall m :: 0 <= m < |u| ==> id(u[m]) != id(x)
    ensures forall j :: 0 <= j < |t| ==> id(t[j]) != id(x)
  {
    forall j | 0 <= j < |t|
      ensures id(t[j]) != id(x)
    {
      assert t[j] in multiset(u);
      var m :| 0 <= m < |u| && u[m] == t[j];
    }
  }

  /** Rearranging a list whose ids are distinct keeps them distinct. */
  lemma {:induction false} PermutationKeepsDistinctKeys<T>(r: seq<T>, s: seq<T>, id: T -> int)
    requires multiset(r) == multiset(s) && DistinctKeys(s, id)
    ensures DistinctKeys(r, id)
  {
    if r != [] {
      assert r[0] in multiset(s);
      var k :| 0 <= k < |s| && s[k] == r[0];
      var rest := Without(s, k);
      WithoutMultiset(s, k);
      WithoutDistinct(s, k, id);
      assert r == [r[0]] + r[1..];
      assert multiset(r[1..]) == multiset(rest);
      PermutationKeepsDistinctKeys(r[1..], rest, id);
      IdMissingFromPermutation(r[1..], rest, r[0], id);
      DistinctCons(r[0], r[1..], id);
    }
  }
}
