/** First-match searches and order-preserving selections over sequences:
    the shapes of the search loops the client runs over its item and pet
    tables. */
module Seqs {
  import opened Wrappers

  /** The index of the first element satisfying p, as a range loop with an
      early return finds it. */
  function FirstIndex<T>(s: seq<T>, p: T -> bool): (r: Option<nat>)
    ensures r.Some? ==> r.value < |s| && p(s[r.value])
    ensures r.Some? ==> forall j :: 0 <= j < r.value ==> !p(s[j])
    ensures r.None? ==> forall j :: 0 <= j < |s| ==> !p(s[j])
  {
    if s == [] then None
    else if p(s[0]) then Some(0)
    else match FirstIndex(s[1..], p)
      case None => None
      case Some(k) => Some(k + 1)
  }

  /** The elements x of s with f(x) == k, in their order in s. */
  function Having<T, K(==)>(s: seq<T>, f: T -> K, k: K): (r: seq<T>)
    ensures |r| <= |s|
    ensures forall i :: 0 <= i < |r| ==> r[i] in s && f(r[i]) == k
    ensures forall i :: 0 <= i < |s| && f(s[i]) == k ==> s[i] in r
  {
    if s == [] then []
    else (if f(s[0]) == k then [s[0]] else []) + Having(s[1..], f, k)
  }

  /** Selection distributes over concatenation, so it keeps the relative
      order of what it selects. */
  lemma {:induction false} HavingAppend<T, K>(a: seq<T>, b: seq<T>, f: T -> K, k: K)
    ensures Having(a + b, f, k) == Having(a, f, k) + Having(b, f, k)
  {
    if a == [] {
      assert a + b == b;
    } else {
      assert (a + b)[1..] == a[1..] + b;
      HavingAppend(a[1..], b, f, k);
    }
  }

  /** Selection counts each element as often as the input holds it, when
      the element is selected at all. */
  lemma {:induction false} HavingMultiset<T, K>(s: seq<T>, f: T -> K, k: K)
    ensures forall x :: multiset(Having(s, f, k))[x] == if f(x) == k then multiset(s)[x] else 0
  {
    if s != [] {
      HavingMultiset(s[1..], f, k);
      assert s == [s[0]] + s[1..];
    }
  }

  /** Every element of s is selected under exactly one key: summing the
      selection sizes over distinct keys that cover f's values gives |s|. */
  function SumOfSizes<T, K(==)>(s: seq<T>, f: T -> K, keys: seq<K>): nat
  {
    if keys == [] then 0 else |Having(s, f, keys[0])| + SumOfSizes(s, f, keys[1..])
  }

  predicate Distinct<K(==)>(keys: seq<K>) {
    forall i, j :: 0 <= i < j < |keys| ==> keys[i] != keys[j]
  }

  /** How many of the keys equal k. */
  function Occurrences<K(==)>(keys: seq<K>, k: K): nat
  {
    if keys == [] then 0 else (if keys[0] == k then 1 else 0) + Occurrences(keys[1..], k)
  }

  lemma {:induction false} OccurrencesDistinct<K>(keys: seq<K>, k: K)
    requires Distinct(keys)
    ensures Occurrences(keys, k) == if k in keys then 1 else 0
  {
    if keys != [] {
      OccurrencesDistinct(keys[1..], k);
      if keys[0] == k {
        assert k !in keys[1..] by {
          forall j | 0 <= j < |keys[1..]| ensures keys[1..][j] != k {
            assert keys[1..][j] == keys[j + 1];
          }
        }
      }
    }
  }

  lemma {:induction false} SumOfSizesStep<T, K>(s: seq<T>, f: T -> K, keys: seq<K>)
    requires s != []
    ensures SumOfSizes(s, f, keys) == Occurrences(keys, f(s[0])) + SumOfSizes(s[1..], f, keys)
  {
    if keys != [] {
      SumOfSizesStep(s, f, keys[1..]);
    }
  }

  lemma {:induction false} SumOfSizesPartition<T, K>(s: seq<T>, f: T -> K, keys: seq<K>)
    requires Distinct(keys)
    requires forall i :: 0 <= i < |s| ==> f(s[i]) in keys
    ensures SumOfSizes(s, f, keys) == |s|
  {
    if s == [] {
      SumOfSizesEmpty(f, keys);
    } else {
      SumOfSizesStep(s, f, keys);
      OccurrencesDistinct(keys, f(s[0]));
      assert forall i :: 0 <= i < |s[1..]| ==> s[1..][i] == s[i + 1];
      SumOfSizesPartition(s[1..], f, keys);
    }
  }

  lemma {:induction false} SumOfSizesEmpty<T, K>(f: T -> K, keys: seq<K>)
    ensures SumOfSizes([], f, keys) == 0
  {
    if keys != [] {
      SumOfSizesEmpty(f, keys[1..]);
    }
  }
  /** A distinct sequence holds each element at most once. */
  lemma {:induction false} DistinctOnce<K>(s: seq<K>, x: K)
    requires Distinct(s)
    ensures multiset(s)[x] <= 1
  {
    if s != [] {
      assert s == [s[0]] + s[1..];
      assert Distinct(s[1..]) by {
        forall i, j | 0 <= i < j < |s[1..]| ensures s[1..][i] != s[1..][j] {
          assert s[1..][i] == s[i + 1] && s[1..][j] == s[j + 1];
        }
      }
      DistinctOnce(s[1..], x);
      if s[0] == x {
        assert x !in s[1..] by {
          forall j | 0 <= j < |s[1..]| ensures s[1..][j] != x {
            assert s[1..][j] == s[j + 1];
          }
        }
      }
    }
  }

  /** An element at two positions is held at least twice. */
  lemma HeldTwice<K>(s: seq<K>, i: nat, j: nat)
    requires i < j < |s| && s[i] == s[j]
    ensures multiset(s)[s[i]] >= 2
  {
    assert s == s[..i] + [s[i]] + s[i + 1..j] + [s[j]] + s[j + 1..];
  }

  /** Distinctness survives any permutation. */
  lemma DistinctPermutation<K>(a: seq<K>, b: seq<K>)
    requires Distinct(a) && multiset(a) == multiset(b)
    ensures Distinct(b)
  {
    forall i, j | 0 <= i < j < |b| ensures b[i] != b[j] {
      if b[i] == b[j] {
        HeldTwice(b, i, j);
        DistinctOnce(a, b[i]);
      }
    }
  }
}
