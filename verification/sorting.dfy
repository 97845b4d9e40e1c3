/**
 * Sorting by a key, as the client does with sort.Slice, sort.SliceStable
 * and sort.Strings. A key is an integer (Go's `<` on int and int64) or a
 * string (Go's `<` on strings: lexicographic, a proper prefix first).
 * Every sort site is modelled by one stable insertion sort over an array,
 * proved equal to the specification function SortBy, whose ordering,
 * permutation and stability properties are proved below.
 */
module Sorting {
  import opened Seqs

  datatype Key = IntKey(i: int) | StrKey(s: string)

  /** Go's `a < b` on strings: the first differing character decides, and a
      proper prefix comes first. (Comparing code points gives the same order
      as Go's comparison of the UTF-8 bytes.) */
  predicate StrLess(a: string, b: string)
  {
    if a == [] then b != []
    else if b == [] then false
    else if a[0] != b[0] then a[0] < b[0]
    else StrLess(a[1..], b[1..])
  }

  predicate KeyLess(x: Key, y: Key)
  {
    match (x, y)
    case (IntKey(a), IntKey(b)) => a < b
    case (StrKey(a), StrKey(b)) => StrLess(a, b)
    case (IntKey(_), StrKey(_)) => true
    case (StrKey(_), IntKey(_)) => false
  }

  lemma {:induction false} StrLessIrreflexive(a: string)
    ensures !StrLess(a, a)
  {
    if a != [] { StrLessIrreflexive(a[1..]); }
  }

  lemma {:induction false} StrLessTransitive(a: string, b: string, c: string)
    requires StrLess(a, b) && StrLess(b, c)
    ensures StrLess(a, c)
  {
    if a != [] && b != [] && c != [] && a[0] == b[0] && b[0] == c[0] {
      StrLessTransitive(a[1..], b[1..], c[1..]);
    }
  }

  lemma {:induction false} StrLessTotal(a: string, b: string)
    requires a != b
    ensures StrLess(a, b) || StrLess(b, a)
  {
    if a != [] && b != [] && a[0] == b[0] {
      assert a == [a[0]] + a[1..] && b == [b[0]] + b[1..];
      StrLessTotal(a[1..], b[1..]);
    }
  }

  /** KeyLess is a strict total order. */
  lemma KeyLessOrder(x: Key, y: Key, z: Key)
    ensures !KeyLess(x, x)
    ensures KeyLess(x, y) && KeyLess(y, z) ==> KeyLess(x, z)
    ensures x != y ==> KeyLess(x, y) || KeyLess(y, x)
  {
    if x.StrKey? {
      StrLessIrreflexive(x.s);
      if y.StrKey? && z.StrKey? && StrLess(x.s, y.s) && StrLess(y.s, z.s) {
        StrLessTransitive(x.s, y.s, z.s);
      }
      if y.StrKey? && x != y {
        StrLessTotal(x.s, y.s);
      }
    }
  }

  /** "not greater": the order the result of a sort is in. */
  predicate KeyLe(x: Key, y: Key) { !KeyLess(y, x) }

  lemma KeyLeTransitive(x: Key, y: Key, z: Key)
    requires KeyLe(x, y) && KeyLe(y, z)
    ensures KeyLe(x, z)
  {
    KeyLessOrder(x, y, z);
    KeyLessOrder(z, x, y);
    KeyLessOrder(y, z, x);
    KeyLessOrder(x, z, y);
  }

  ghost predicate SortedBy<T>(s: seq<T>, key: T -> Key)
  {
    forall i, j :: 0 <= i < j < |s| ==> KeyLe(key(s[i]), key(s[j]))
  }

  /** Insert x into s after every element whose key is not greater than
      x's: the step of a stable insertion sort, scanning from the end. */
  function Insert<T>(s: seq<T>, x: T, key: T -> Key): seq<T>
  {
    if s == [] then [x]
    else if KeyLess(key(x), key(s[|s| - 1])) then Insert(s[..|s| - 1], x, key) + [s[|s| - 1]]
    else s + [x]
  }

  /** Stable sort by key: the specification of every sort in the client. */
  function SortBy<T>(s: seq<T>, key: T -> Key): seq<T>
  {
    if s == [] then [] else Insert(SortBy(s[..|s| - 1], key), s[|s| - 1], key)
  }

  lemma {:induction false} InsertPermutation<T>(s: seq<T>, x: T, key: T -> Key)
    ensures multiset(Insert(s, x, key)) == multiset(s) + multiset{x}
  {
    if s != [] {
      assert s == s[..|s| - 1] + [s[|s| - 1]];
      InsertPermutation(s[..|s| - 1], x, key);
    }
  }

  /** The result of SortBy is a permutation of its input. */
  lemma {:induction false} SortByPermutation<T>(s: seq<T>, key: T -> Key)
    ensures multiset(SortBy(s, key)) == multiset(s)
  {
    if s != [] {
      assert s == s[..|s| - 1] + [s[|s| - 1]];
      SortByPermutation(s[..|s| - 1], key);
      InsertPermutation(SortBy(s[..|s| - 1], key), s[|s| - 1], key);
    }
  }

  lemma {:induction false} InsertSorted<T>(s: seq<T>, x: T, key: T -> Key)
    requires SortedBy(s, key)
    ensures SortedBy(Insert(s, x, key), key)
  {
    if s != [] {
      var init, last := s[..|s| - 1], s[|s| - 1];
      if KeyLess(key(x), key(last)) {
        InsertSorted(init, x, key);
        InsertedBelow(init, x, last, key);
        SortedAppend(Insert(init, x, key), last, key);
      } else {
        forall i | 0 <= i < |s| ensures KeyLe(key(s[i]), key(x)) {
          if i < |s| - 1 {
            KeyLeTransitive(key(s[i]), key(last), key(x));
          }
        }
        SortedAppend(s, x, key);
      }
    }
  }

  /** A sorted sequence stays sorted when an element no smaller than all of
      it is appended. */
  lemma SortedAppend<T>(a: seq<T>, y: T, key: T -> Key)
    requires SortedBy(a, key)
    requires forall i :: 0 <= i < |a| ==> KeyLe(key(a[i]), key(y))
    ensures SortedBy(a + [y], key)
  {
    var t := a + [y];
    forall i, j | 0 <= i < j < |t| ensures KeyLe(key(t[i]), key(t[j])) {
      assert t[i] == a[i];
    }
  }

  /** Inserting an element smaller than `last` into elements no greater
      than `last` gives elements no greater than `last`. */
  lemma InsertedBelow<T>(init: seq<T>, x: T, last: T, key: T -> Key)
    requires SortedBy(init + [last], key) && KeyLess(key(x), key(last))
    ensures forall i :: 0 <= i < |Insert(init, x, key)| ==> KeyLe(key(Insert(init, x, key)[i]), key(last))
  {
    var a := Insert(init, x, key);
    InsertPermutation(init, x, key);
    forall i | 0 <= i < |a| ensures KeyLe(key(a[i]), key(last)) {
      assert a[i] in multiset(a);
      if a[i] != x {
        assert a[i] in multiset(init);
        var k :| 0 <= k < |init| && init[k] == a[i];
        assert (init + [last])[k] == a[i] && (init + [last])[|init|] == last;
      } else {
        KeyLessOrder(key(x), key(last), key(x));
      }
    }
  }

  /** The result of SortBy is in ascending key order. */
  lemma {:induction false} SortBySorted<T>(s: seq<T>, key: T -> Key)
    ensures SortedBy(SortBy(s, key), key)
  {
    if s != [] {
      SortBySorted(s[..|s| - 1], key);
      InsertSorted(SortBy(s[..|s| - 1], key), s[|s| - 1], key);
    }
  }

  /** The elements of any one key keep their input order through Insert. */
  lemma {:induction false} InsertStable<T>(s: seq<T>, x: T, key: T -> Key, k: Key)
    ensures Having(Insert(s, x, key), key, k) == Having(s, key, k) + Having([x], key, k)
  {
    if s == [] {
      HavingOne(x, key, k);
    } else {
      var init, last := s[..|s| - 1], s[|s| - 1];
      assert s == init + [last];
      if KeyLess(key(x), key(last)) {
        InsertStable(init, x, key, k);
        StableBelow(init, x, last, key, k);
      } else {
        HavingAppend(s, [x], key, k);
      }
    }
  }

  /** The inductive step of InsertStable when x goes before last: x and
      last have different keys, so at most one of them is selected. */
  lemma StableBelow<T>(init: seq<T>, x: T, last: T, key: T -> Key, k: Key)
    requires KeyLess(key(x), key(last))
    requires Having(Insert(init, x, key), key, k) == Having(init, key, k) + Having([x], key, k)
    ensures Having(Insert(init, x, key) + [last], key, k) == Having(init + [last], key, k) + Having([x], key, k)
  {
    HavingAppend(Insert(init, x, key), [last], key, k);
    HavingAppend(init, [last], key, k);
    KeyLessOrder(key(x), key(last), key(last));
    HavingOne(x, key, k);
    HavingOne(last, key, k);
  }

  /** Selecting from one element. */
  lemma HavingOne<T>(x: T, key: T -> Key, k: Key)
    ensures Having([x], key, k) == (if key(x) == k then [x] else [])
  {
    assert [x][1..] == [];
  }

  /** SortBy is stable: for every key, the elements with that key appear in
      the same relative order as in the input. */
  lemma {:induction false} SortByStable<T>(s: seq<T>, key: T -> Key, k: Key)
    ensures Having(SortBy(s, key), key, k) == Having(s, key, k)
  {
    if s != [] {
      var init, last := s[..|s| - 1], s[|s| - 1];
      assert s == init + [last];
      SortByStable(init, key, k);
      InsertStable(SortBy(init, key), last, key, k);
      HavingAppend(init, [last], key, k);
    }
  }

  /** One step of the backwards scan: x goes before sorted[j - 1]. */
  lemma InsertShift<T>(sorted: seq<T>, x: T, key: T -> Key, j: nat)
    requires 0 < j <= |sorted| && KeyLess(key(x), key(sorted[j - 1]))
    ensures Insert(sorted[..j], x, key) + sorted[j..] == Insert(sorted[..j - 1], x, key) + sorted[j - 1..]
  {
    var prefix, last := sorted[..j], sorted[j - 1];
    var a := Insert(sorted[..j - 1], x, key);
    assert Insert(prefix, x, key) == a + [last] by {
      assert prefix[..j - 1] == sorted[..j - 1] && prefix[j - 1] == last;
    }
    assert sorted[j - 1..] == [last] + sorted[j..];
  }

  /** The scan stops: x goes right after sorted[..j]. */
  lemma InsertStop<T>(sorted: seq<T>, x: T, key: T -> Key, j: nat)
    requires j <= |sorted| && (j == 0 || !KeyLess(key(x), key(sorted[j - 1])))
    ensures Insert(sorted[..j], x, key) == sorted[..j] + [x]
  {
  }

  /** Moves a[i] backwards past every element of the sorted prefix a[..i]
      whose key is greater, shifting those one place right. */
  method InsertInPlace<T>(a: array<T>, i: nat, key: T -> Key)
    requires i < a.Length
    modifies a
    ensures a[..i + 1] == Insert(old(a[..i]), old(a[i]), key)
    ensures forall k :: i < k < a.Length ==> a[k] == old(a[k])
  {
    var x := a[i];
    ghost var sorted := a[..i];
    var j := i;
    assert sorted[..j] == sorted && sorted[j..] == [];
    while j > 0 && KeyLess(key(x), key(a[j - 1]))
      invariant 0 <= j <= i
      invariant forall k :: 0 <= k < j ==> a[k] == sorted[k]
      invariant forall k :: j < k <= i ==> a[k] == sorted[k - 1]
      invariant forall k :: i < k < a.Length ==> a[k] == old(a[k])
      invariant Insert(sorted, x, key) == Insert(sorted[..j], x, key) + sorted[j..]
    {
      InsertShift(sorted, x, key, j);
      a[j] := a[j - 1];
      j := j - 1;
    }
    a[j] := x;
    ShiftedPrefix(a[..], sorted, x, j);
    InsertStop(sorted, x, key, j);
  }

  /** The array contents after the scan: sorted with x placed at j. */
  lemma ShiftedPrefix<T>(arr: seq<T>, sorted: seq<T>, x: T, j: nat)
    requires j <= |sorted| < |arr|
    requires forall k :: 0 <= k < j ==> arr[k] == sorted[k]
    requires arr[j] == x
    requires forall k :: j < k <= |sorted| ==> arr[k] == sorted[k - 1]
    ensures arr[..|sorted| + 1] == sorted[..j] + [x] + sorted[j..]
  {
    var left := sorted[..j] + [x];
    var result := left + sorted[j..];
    forall k | 0 <= k <= |sorted| ensures arr[k] == result[k] {
      if k <= j {
        assert result[k] == left[k];
      } else {
        assert result[k] == sorted[j..][k - (j + 1)];
      }
    }
  }

  /** The in-place stable insertion sort that models each sort call. */
  method SortInPlace<T>(a: array<T>, key: T -> Key)
    modifies a
    ensures a[..] == SortBy(old(a[..]), key)
  {
    ghost var orig := a[..];
    var i := 0;
    while i < a.Length
      invariant 0 <= i <= a.Length
      invariant a[..i] == SortBy(orig[..i], key)
      invariant forall k :: i <= k < a.Length ==> a[k] == orig[k]
    {
      assert orig[..i + 1] == orig[..i] + [orig[i]];
      InsertInPlace(a, i, key);
      i := i + 1;
    }
    assert a[..] == a[..a.Length] && orig == orig[..a.Length];
  }

  /** Sorts a copy of s; the caller's sequence is a value and is unaffected. */
  method SortSeq<T>(s: seq<T>, key: T -> Key) returns (r: seq<T>)
    ensures r == SortBy(s, key)
  {
    if |s| == 0 {
      return [];
    }
    var a := new T[|s|](i requires 0 <= i < |s| => s[i]);
    assert a[..] == s;
    SortInPlace(a, key);
    r := a[..];
  }
}
