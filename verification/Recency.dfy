/**
 Time-stamped records ranked newest first, equal times broken by the larger key. The push store's
 "ORDER BY observed_at DESC, id DESC" and the service worker's "expires" index (walked from its
 oldest end) use this one order. Keys are the SHA-256 event keys read as numbers: all have 64
 lower-case hexadecimal digits, so their text order is the numeric order.
 */
module Recency {
  type Key = nat
  type Time = real

  predicate Newer(a: Key, aTime: Time, b: Key, bTime: Time) {
    aTime > bTime || (aTime == bTime && a > b)
  }

  function NewerThan(m: map<Key, Time>, k: Key): set<Key>
    requires k in m
  {
    set x | x in m && Newer(x, m[x], k, m[k])
  }

  /** What is left when all but the newest `n` records are deleted. */
  function KeepNewest(m: map<Key, Time>, n: nat): map<Key, Time> {
    map k | k in m && |NewerThan(m, k)| < n :: m[k]
  }

  ghost predicate IsOldest(m: map<Key, Time>, k: Key) {
    k in m && forall x :: x in m && x != k ==> Newer(x, m[x], k, m[k])
  }

  lemma {:induction false} OldestExists(m: map<Key, Time>) returns (k: Key)
    requires |m| > 0
    ensures IsOldest(m, k)
    decreases |m|
  {
    k :| k in m;
    var rest := m - {k};
    assert m.Keys == rest.Keys + {k};
    if |rest| > 0 {
      var o := OldestExists(rest);
      if Newer(k, m[k], o, m[o]) {
        k := o;
      }
    } else {
      assert forall x :: x in m && x != k ==> x in rest;
    }
  }

  lemma OldestRank(m: map<Key, Time>, k: Key)
    requires IsOldest(m, k)
    ensures |NewerThan(m, k)| == |m| - 1
  {
    assert NewerThan(m, k) == m.Keys - {k};
  }

  lemma RankBound(m: map<Key, Time>, k: Key)
    requires k in m
    ensures |NewerThan(m, k)| < |m|
  {
    Subset(NewerThan(m, k), m.Keys - {k});
  }

  lemma {:induction false} Subset<T>(a: set<T>, b: set<T>)
    requires a <= b
    ensures |a| <= |b|
    decreases |a|
  {
    if a != {} {
      var x :| x in a;
      Subset(a - {x}, b - {x});
    }
  }

  /** Deleting the oldest of more than `n` records is one step of keeping the newest `n`. */
  lemma DropOldest(m: map<Key, Time>, k: Key, n: nat)
    requires IsOldest(m, k) && |m| > n
    ensures KeepNewest(m - {k}, n) == KeepNewest(m, n)
  {
    OldestRank(m, k);
    var rest := m - {k};
    forall x | x in rest
      ensures NewerThan(rest, x) == NewerThan(m, x)
    {
    }
  }

  /** Pruning keeps all records while they fit and otherwise exactly the newest `n`. */
  lemma {:induction false} KeepNewestSize(m: map<Key, Time>, n: nat)
    ensures |m| <= n ==> KeepNewest(m, n) == m
    ensures |m| > n ==> |KeepNewest(m, n)| == n
    decreases |m|
  {
    if |m| <= n {
      forall k | k in m
        ensures |NewerThan(m, k)| < n
      {
        RankBound(m, k);
      }
    } else {
      var k := OldestExists(m);
      DropOldest(m, k, n);
      assert (m - {k}).Keys == m.Keys - {k};
      KeepNewestSize(m - {k}, n);
    }
  }
}
