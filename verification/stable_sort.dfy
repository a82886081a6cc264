/**
 * `list.sort(key=..., reverse=True)` on records paired with their keys.
 *
 * Python's sort is stable, and with `reverse=True` it keeps records with
 * equal keys in their original order. A descending order that keeps, for
 * every key, the original order of the records with that key is unique
 * (StableDescendingIsUnique), so the insertion sort below computes exactly
 * what Python's sort computes.
 */
module StableSort {

  predicate SortedDescending<T>(s: seq<(int, T)>) {
    forall i, j :: 0 <= i < j < |s| ==> s[i].0 >= s[j].0
  }

  /** The records of `s` with key `k`, in the order they occur in `s`. */
  function WithKey<T>(s: seq<(int, T)>, k: int): seq<(int, T)> {
    if |s| == 0 then []
    else if s[0].0 == k then [s[0]] + WithKey(s[1..], k)
    else WithKey(s[1..], k)
  }

  /** `r` keeps the relative order of every group of equal-keyed records of `s`. */
  ghost predicate KeepsTies<T>(s: seq<(int, T)>, r: seq<(int, T)>) {
    forall k :: WithKey(r, k) == WithKey(s, k)
  }

  /** Insertion into a descending sequence, before the first record whose key is not larger. */
  function Insert<T>(x: (int, T), s: seq<(int, T)>): (r: seq<(int, T)>)
    ensures |r| == |s| + 1
    ensures multiset(r) == multiset(s) + multiset{x}
  {
    if |s| == 0 || x.0 >= s[0].0 then [x] + s
    else
      assert s == [s[0]] + s[1..];
      [s[0]] + Insert(x, s[1..])
  }

  /** Insertion keeps a descending sequence descending. */
  lemma {:induction false} InsertSorted<T>(x: (int, T), s: seq<(int, T)>)
    requires SortedDescending(s)
    ensures SortedDescending(Insert(x, s))
    ensures Insert(x, s)[0] == x || Insert(x, s)[0] == s[0]
  {
    if |s| > 0 && x.0 < s[0].0 {
      var rest := Insert(x, s[1..]);
      InsertSorted(x, s[1..]);
      var r := [s[0]] + rest;
      assert rest[0].0 <= s[0].0;
      assert forall j :: 1 <= j < |r| ==> r[j] == rest[j - 1];
    }
  }

  /** The records of `s` ordered by descending key, ties in their original order. */
  function SortDescending<T>(s: seq<(int, T)>): (r: seq<(int, T)>)
    ensures |r| == |s|
    ensures multiset(r) == multiset(s)
    ensures SortedDescending(r)
  {
    if |s| == 0 then []
    else
      assert s == [s[0]] + s[1..];
      InsertSorted(s[0], SortDescending(s[1..]));
      Insert(s[0], SortDescending(s[1..]))
  }

  lemma {:induction false} InsertKeepsTies<T>(x: (int, T), s: seq<(int, T)>, k: int)
    ensures WithKey(Insert(x, s), k) == (if x.0 == k then [x] else []) + WithKey(s, k)
  {
    if |s| == 0 || x.0 >= s[0].0 {
      assert ([x] + s)[1..] == s;
    } else {
      InsertKeepsTies(x, s[1..], k);
      assert ([s[0]] + Insert(x, s[1..]))[1..] == Insert(x, s[1..]);
    }
  }

  /** The sort is stable. */
  lemma {:induction false} SortKeepsTies<T>(s: seq<(int, T)>)
    ensures KeepsTies(s, SortDescending(s))
  {
    if |s| > 0 {
      SortKeepsTies(s[1..]);
      forall k {
        InsertKeepsTies(s[0], SortDescending(s[1..]), k);
      }
    }
  }

  lemma {:induction false} WithKeyNonEmpty<T>(s: seq<(int, T)>, k: int)
    requires |WithKey(s, k)| > 0
    ensures exists j :: 0 <= j < |s| && s[j].0 == k
  {
    if s[0].0 != k {
      WithKeyNonEmpty(s[1..], k);
      var j :| 0 <= j < |s[1..]| && s[1..][j].0 == k;
      assert s[j + 1].0 == k;
    }
  }

  /** Two descending sequences that keep the same groups of ties are equal. */
  lemma {:induction false} StableDescendingIsUnique<T>(r1: seq<(int, T)>, r2: seq<(int, T)>)
    requires SortedDescending(r1) && SortedDescending(r2)
    requires KeepsTies(r1, r2)
    ensures r1 == r2
    decreases |r1|
  {
    // a record on one side has a counterpart with the same key on the other
    if |r1| > 0 {
      assert WithKey(r2, r1[0].0) == WithKey(r1, r1[0].0);
      WithKeyNonEmpty(r2, r1[0].0);
    }
    if |r2| > 0 {
      assert WithKey(r2, r2[0].0) == WithKey(r1, r2[0].0);
      WithKeyNonEmpty(r1, r2[0].0);
    }
    if |r1| > 0 && |r2| > 0 {
      var k1, k2 := r1[0].0, r2[0].0;
      assert k1 == k2;
      assert WithKey(r1, k1) == [r1[0]] + WithKey(r1[1..], k1);
      assert WithKey(r2, k1) == [r2[0]] + WithKey(r2[1..], k1);
      assert WithKey(r1, k1)[0] == r1[0];
      assert WithKey(r2, k1)[0] == r2[0];
      forall k
        ensures WithKey(r2[1..], k) == WithKey(r1[1..], k)
      {
        assert WithKey(r2, k) == WithKey(r1, k);
        if k == k1 {
          assert WithKey(r1, k) == [r1[0]] + WithKey(r1[1..], k);
          assert WithKey(r2, k) == [r2[0]] + WithKey(r2[1..], k);
          assert WithKey(r1[1..], k) == WithKey(r1, k)[1..];
          assert WithKey(r2[1..], k) == WithKey(r2, k)[1..];
        } else {
          assert WithKey(r1, k) == WithKey(r1[1..], k);
          assert WithKey(r2, k) == WithKey(r2[1..], k);
        }
      }
      StableDescendingIsUnique(r1[1..], r2[1..]);
      assert r1 == [r1[0]] + r1[1..];
      assert r2 == [r2[0]] + r2[1..];
    }
  }

  /** Any stable descending rearrangement of `s` is the one this sort computes. */
  lemma StableSortIsCanonical<T>(s: seq<(int, T)>, r: seq<(int, T)>)
    requires SortedDescending(r) && KeepsTies(s, r)
    ensures r == SortDescending(s)
  {
    SortKeepsTies(s);
    StableDescendingIsUnique(r, SortDescending(s));
  }

  // ---------------------------------------------------------------------
  // The independent description of the first element after sorting
  // ---------------------------------------------------------------------

  /** Index `i` holds a largest key, and every earlier record has a strictly smaller one. */
  predicate IsFirstMax<T>(s: seq<(int, T)>, i: int) {
    && 0 <= i < |s|
    && (forall j :: 0 <= j < |s| ==> s[j].0 <= s[i].0)
    && (forall j :: 0 <= j < i ==> s[j].0 < s[i].0)
  }

  /** A left-to-right scan that only moves to a strictly larger key. */
  function FirstMaxIndex<T>(s: seq<(int, T)>): (i: nat)
    requires |s| > 0
    ensures IsFirstMax(s, i)
  {
    if |s| == 1 then 0
    else
      var j := FirstMaxIndex(s[..|s| - 1]);
      if s[|s| - 1].0 > s[j].0 then |s| - 1 else j
  }

  /** Insertion puts the new record first exactly when its key is not smaller than the old head's. */
  lemma InsertHead<T>(x: (int, T), s: seq<(int, T)>)
    ensures |s| == 0 || x.0 >= s[0].0 ==> Insert(x, s)[0] == x
    ensures |s| > 0 && x.0 < s[0].0 ==> Insert(x, s)[0] == s[0]
  {
  }

  lemma SortUnfold<T>(s: seq<(int, T)>)
    requires |s| > 0
    ensures SortDescending(s) == Insert(s[0], SortDescending(s[1..]))
  {
  }

  /** When the first record's key bounds every key, it bounds the key of the sorted tail's head. */
  lemma TailHeadBounded<T>(s: seq<(int, T)>)
    requires |s| > 1
    requires forall j :: 0 <= j < |s| ==> s[j].0 <= s[0].0
    ensures SortDescending(s[1..])[0].0 <= s[0].0
  {
    var r := SortDescending(s[1..]);
    assert r[0] in multiset(s[1..]);
    var j :| 0 <= j < |s[1..]| && s[1..][j] == r[0];
    assert s[j + 1] == r[0];
  }

  /** A record whose key bounds every key ends up first. */
  lemma MaxFirstStaysFirst<T>(s: seq<(int, T)>)
    requires |s| > 0
    requires forall j :: 0 <= j < |s| ==> s[j].0 <= s[0].0
    ensures SortDescending(s)[0] == s[0]
  {
    SortUnfold(s);
    if |s| > 1 {
      TailHeadBounded(s);
    }
    InsertHead(s[0], SortDescending(s[1..]));
  }

  /** A first record with a smaller key than the tail's head does not displace it. */
  lemma SmallerFirstStaysBehind<T>(s: seq<(int, T)>, i: int)
    requires 0 < i < |s| && s[0].0 < s[i].0
    requires SortDescending(s[1..])[0] == s[i]
    ensures SortDescending(s)[0] == s[i]
  {
    SortUnfold(s);
    InsertHead(s[0], SortDescending(s[1..]));
  }

  /** After the stable descending sort, the first record is the earliest one with the largest key. */
  lemma {:induction false} SortHeadIsFirstMax<T>(s: seq<(int, T)>, i: int)
    requires IsFirstMax(s, i)
    ensures SortDescending(s)[0] == s[i]
  {
    if i == 0 {
      MaxFirstStaysFirst(s);
    } else {
      var tail := s[1..];
      assert forall j :: 0 <= j < |tail| ==> tail[j] == s[j + 1];
      assert IsFirstMax(tail, i - 1);
      SortHeadIsFirstMax(tail, i - 1);
      SmallerFirstStaysBehind(s, i);
    }
  }
}
