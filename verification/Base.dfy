/** Notions shared by every part of the model: optional values, byte strings and their
    order, and sorting by a comparison. */
module Base {

  datatype Option<+T> = None | Some(value: T)

  /** A Go string or byte slice. Every statement about all `Bytes` covers in particular the
      sequences whose characters are below 256. */
  type Bytes = string

  predicate StartsWith(s: Bytes, c: char) {
    s != "" && s[0] == c
  }

  // ----- the order of byte strings -----

  predicate LexLess(a: Bytes, b: Bytes) {
    b != "" && (a == "" || a[0] < b[0] || (a[0] == b[0] && LexLess(a[1..], b[1..])))
  }

  /** The first position at which two strings differ. */
  ghost predicate DifferFirstAt(a: Bytes, b: Bytes, n: nat) {
    n < |a| && n < |b| && a[..n] == b[..n] && a[n] != b[n]
  }

  /** A string comes before another one if it is a proper prefix of it, or has the smaller byte where they
      first differ. */
  lemma {:induction false} LexLessExactly(a: Bytes, b: Bytes)
    ensures LexLess(a, b) <==> a < b || exists n: nat :: DifferFirstAt(a, b, n) && a[n] < b[n]
  {
    if a != "" && b != "" {
      if a[0] != b[0] {
        assert DifferFirstAt(a, b, 0);
        forall n: nat ensures n > 0 ==> !DifferFirstAt(a, b, n) {
          assert n > 0 && n < |a| && n < |b| ==> a[..n][0] != b[..n][0];
        }
      } else {
        LexLessExactly(a[1..], b[1..]);
        assert a == [a[0]] + a[1..] && b == [b[0]] + b[1..];
        forall n: nat ensures n > 0 ==> (DifferFirstAt(a, b, n) <==> DifferFirstAt(a[1..], b[1..], n - 1)) {
          if 0 < n < |a| && n < |b| {
            assert a[..n] == [a[0]] + a[1..][..n-1] && b[..n] == [b[0]] + b[1..][..n-1];
          }
        }
        forall n: nat ensures DifferFirstAt(a[1..], b[1..], n) ==> DifferFirstAt(a, b, n + 1) {
        }
        assert a < b <==> a[1..] < b[1..];
      }
    }
  }

  lemma {:induction false} LexTotal(a: Bytes, b: Bytes)
    ensures LexLess(a, b) || LexLess(b, a) || a == b
    ensures !(LexLess(a, b) && LexLess(b, a))
    ensures !LexLess(a, a)
  {
    if a != "" {
      LexTotal(a[1..], a[1..]);
    }
    if a != "" && b != "" && a[0] == b[0] {
      LexTotal(a[1..], b[1..]);
      assert a == [a[0]] + a[1..] && b == [b[0]] + b[1..];
    }
  }

  lemma {:induction false} LexTransitive(a: Bytes, b: Bytes, c: Bytes)
    requires LexLess(a, b) && LexLess(b, c)
    ensures LexLess(a, c)
  {
    if a != "" && a[0] == b[0] == c[0] {
      LexTransitive(a[1..], b[1..], c[1..]);
    }
  }

  // ----- sorting -----

  /** `less` orders the elements up to ties, as a comparison passed to Go's sort must. */
  ghost predicate StrictWeakOrder<T(!new)>(less: (T, T) -> bool) {
    && (forall x :: !less(x, x))
    && (forall x, y, z :: less(x, y) && less(y, z) ==> less(x, z))
    && (forall x, y, z :: less(x, z) ==> less(x, y) || less(y, z))
  }

  ghost predicate Sorted<T>(less: (T, T) -> bool, s: seq<T>) {
    forall i, j :: 0 <= i < j < |s| ==> !less(s[j], s[i])
  }

  function Insert<T>(less: (T, T) -> bool, x: T, s: seq<T>): (r: seq<T>)
    ensures |r| == |s| + 1
  {
    if s == [] then [x]
    else if less(s[0], x) then [s[0]] + Insert(less, x, s[1..])
    else [x] + s
  }

  /** What sort.Slice and slices.SortFunc return, for one choice among the orders of ties. */
  function SortBy<T>(less: (T, T) -> bool, s: seq<T>): (r: seq<T>)
    ensures |r| == |s|
  {
    if s == [] then [] else Insert(less, s[0], SortBy(less, s[1..]))
  }

  lemma NotLessTransitive<T(!new)>(less: (T, T) -> bool, x: T, y: T, z: T)
    requires StrictWeakOrder(less) && !less(x, y) && !less(y, z)
    ensures !less(x, z)
  {
  }

  lemma {:induction false} InsertKeeps<T>(less: (T, T) -> bool, x: T, s: seq<T>)
    ensures multiset(Insert(less, x, s)) == multiset([x]) + multiset(s)
    ensures forall y :: y in Insert(less, x, s) ==> y == x || y in s
  {
    if s != [] {
      assert s == [s[0]] + s[1..];
      InsertKeeps(less, x, s[1..]);
    }
  }

  lemma {:induction false} InsertSorts<T(!new)>(less: (T, T) -> bool, x: T, s: seq<T>)
    requires StrictWeakOrder(less) && Sorted(less, s)
    ensures Sorted(less, Insert(less, x, s))
  {
    if s != [] {
      if less(s[0], x) {
        InsertSorts(less, x, s[1..]);
        InsertKeeps(less, x, s[1..]);
        var r := Insert(less, x, s[1..]);
        forall j | 0 <= j < |r| ensures !less(r[j], s[0]) {
          assert r[j] in r;
        }
      } else {
        forall j | 0 <= j < |s| ensures !less(s[j], x) {
          NotLessTransitive(less, s[j], s[0], x);
        }
      }
    }
  }

  lemma {:induction false} SortBySorts<T(!new)>(less: (T, T) -> bool, s: seq<T>)
    requires StrictWeakOrder(less)
    ensures Sorted(less, SortBy(less, s))
    ensures multiset(SortBy(less, s)) == multiset(s)
  {
    if s != [] {
      SortBySorts(less, s[1..]);
      InsertSorts(less, s[0], SortBy(less, s[1..]));
      InsertKeeps(less, s[0], SortBy(less, s[1..]));
      assert s == [s[0]] + s[1..];
    }
  }

  function MapSeq<T, U>(f: T -> U, s: seq<T>): (r: seq<U>)
    ensures |r| == |s| && forall i :: 0 <= i < |s| ==> r[i] == f(s[i])
  {
    if s == [] then [] else [f(s[0])] + MapSeq(f, s[1..])
  }

  lemma RemoveFromBoth<T>(a: seq<T>, b: seq<T>, k: nat)
    requires a != [] && k < |b| && b[k] == a[0] && multiset(a) == multiset(b)
    ensures multiset(a[1..]) == multiset(b[..k] + b[k+1..])
  {
    assert b == b[..k] + [b[k]] + b[k+1..];
    assert a == [a[0]] + a[1..];
    assert multiset(a[1..]) == multiset(a) - multiset([a[0]]);
    assert multiset(b[..k] + b[k+1..]) == multiset(b) - multiset([b[k]]);
  }

  lemma IndexOf<T>(x: T, b: seq<T>) returns (k: nat)
    requires x in multiset(b)
    ensures k < |b| && b[k] == x
  {
    k :| 0 <= k < |b| && b[k] == x;
  }

  lemma MapSeqConcat<T, U>(f: T -> U, a: seq<T>, b: seq<T>)
    ensures MapSeq(f, a + b) == MapSeq(f, a) + MapSeq(f, b)
  {
  }

  /** Rearranging the elements rearranges their images. */
  lemma {:induction false} MapMultiset<T, U>(f: T -> U, a: seq<T>, b: seq<T>)
    requires multiset(a) == multiset(b)
    ensures multiset(MapSeq(f, a)) == multiset(MapSeq(f, b))
    decreases |a|
  {
    if a == [] {
      assert |multiset(b)| == 0;
    } else {
      assert a[0] in multiset(a);
      var k := IndexOf(a[0], b);
      RemoveFromBoth(a, b, k);
      MapMultiset(f, a[1..], b[..k] + b[k+1..]);
      assert b == b[..k] + ([b[k]] + b[k+1..]);
      MapSeqConcat(f, b[..k], [b[k]] + b[k+1..]);
      MapSeqConcat(f, [b[k]], b[k+1..]);
      MapSeqConcat(f, b[..k], b[k+1..]);
    }
  }

  /** Taking an element to the front does not change the keys when it passes only equal ones. */
  lemma {:induction false} MoveToFront<T, K>(key: T -> K, b: seq<T>, k: nat)
    requires k < |b| && forall i :: 0 <= i <= k ==> key(b[i]) == key(b[k])
    ensures MapSeq(key, b) == [key(b[k])] + MapSeq(key, b[..k] + b[k+1..])
  {
    if k == 0 {
      assert b[..0] + b[1..] == b[1..];
    } else {
      MoveToFront(key, b[1..], k - 1);
      assert (b[..k] + b[k+1..])[1..] == b[1..][..k-1] + b[1..][k..];
    }
  }

  /** Two sorted arrangements of the same elements show the same keys, whatever the sorting
      algorithm does with ties, as long as tied elements have the same key. */
  lemma {:induction false} SortedUnique<T(!new), K>(less: (T, T) -> bool, key: T -> K, a: seq<T>, b: seq<T>)
    requires StrictWeakOrder(less) && Sorted(less, a) && Sorted(less, b)
    requires multiset(a) == multiset(b)
    requires forall x, y :: x in b && y in b && !less(x, y) && !less(y, x) ==> key(x) == key(y)
    ensures MapSeq(key, a) == MapSeq(key, b)
  {
    if a == [] {
      assert |multiset(b)| == 0;
    } else {
      assert a[0] in multiset(a);
      var k := IndexOf(a[0], b);
      assert b[0] in multiset(a);
      var j := IndexOf(b[0], a);
      assert !less(b[0], b[k]) by { assert a[j] == b[0]; }
      RemoveFromBoth(a, b, k);
      SortedUnique(less, key, a[1..], b[..k] + b[k+1..]);
      TiedPrefix(less, b, k);
      forall i | 0 <= i <= k ensures key(b[i]) == key(b[k]) {
        assert !less(b[i], b[k]) && !less(b[k], b[i]);
      }
      MoveToFront(key, b, k);
    }
  }

  /** In a sorted sequence, everything before an element tied with the head is tied with it. */
  lemma TiedPrefix<T(!new)>(less: (T, T) -> bool, b: seq<T>, k: nat)
    requires StrictWeakOrder(less) && Sorted(less, b) && k < |b| && !less(b[0], b[k])
    ensures forall i, j :: 0 <= i <= k && 0 <= j <= k ==> !less(b[i], b[j])
  {
    forall i, j | 0 <= i <= k && 0 <= j <= k ensures !less(b[i], b[j]) {
      NotLessTransitive(less, b[0], b[k], b[j]);
      NotLessTransitive(less, b[i], b[0], b[j]);
    }
  }
}
