/**
 A stable descending sort by a key. The standard library's `sort_by` is known
 only as stable and sorted, which is shown to determine its result.
 */
module StableSort {

  function WithKey<T>(xs: seq<T>, key: T -> nat, k: nat): seq<T> {
    if xs == [] then []
    else WithKey(xs[..|xs| - 1], key, k) + (if key(xs[|xs| - 1]) == k then [xs[|xs| - 1]] else [])
  }

  ghost predicate Descending<T>(xs: seq<T>, key: T -> nat) {
    forall i, j :: 0 <= i < j < |xs| ==> key(xs[i]) >= key(xs[j])
  }

  /** For every key the two lists hold the same elements with it, in the same order. */
  ghost predicate SamePerKey<T>(xs: seq<T>, ys: seq<T>, key: T -> nat) {
    forall k :: WithKey(xs, key, k) == WithKey(ys, key, k)
  }

  /** `sorted` is a permutation of `xs` in descending order that keeps equal keys in order. */
  ghost predicate IsStableSort<T>(xs: seq<T>, sorted: seq<T>, key: T -> nat) {
    Descending(sorted, key) && SamePerKey(sorted, xs, key)
  }

  /** How many leading elements have a key at least as large. */
  function InsertAt<T>(xs: seq<T>, key: T -> nat, k: nat): (n: nat)
    ensures n <= |xs|
    ensures forall i :: 0 <= i < n ==> key(xs[i]) >= k
    ensures n < |xs| ==> key(xs[n]) < k
  {
    if xs != [] && key(xs[0]) >= k then 1 + InsertAt(xs[1..], key, k) else 0
  }

  function SortDescending<T>(xs: seq<T>, key: T -> nat): seq<T> {
    if xs == [] then []
    else
      var front, x := SortDescending(xs[..|xs| - 1], key), xs[|xs| - 1];
      var n := InsertAt(front, key, key(x));
      front[..n] + [x] + front[n..]
  }

  lemma {:induction false} WithKeyConcat<T>(xs: seq<T>, ys: seq<T>, key: T -> nat, k: nat)
    ensures WithKey(xs + ys, key, k) == WithKey(xs, key, k) + WithKey(ys, key, k)
  {
    if ys == [] {
      assert xs + ys == xs;
    } else {
      assert (xs + ys)[..|xs + ys| - 1] == xs + ys[..|ys| - 1];
      WithKeyConcat(xs, ys[..|ys| - 1], key, k);
    }
  }

  lemma {:induction false} WithKeyNone<T>(xs: seq<T>, key: T -> nat, k: nat)
    requires forall i :: 0 <= i < |xs| ==> key(xs[i]) != k
    ensures WithKey(xs, key, k) == []
  {
    if xs != [] { WithKeyNone(xs[..|xs| - 1], key, k); }
  }

  /** Inserting after every larger or equal key puts the element after its equals. */
  lemma InsertKeepsOrder<T>(a: seq<T>, x: T, b: seq<T>, key: T -> nat)
    requires forall i :: 0 <= i < |b| ==> key(b[i]) < key(x)
    ensures SamePerKey(a + [x] + b, a + b + [x], key)
  {
    hide WithKey;
    forall k ensures WithKey(a + [x] + b, key, k) == WithKey(a + b + [x], key, k) {
      WithKeyConcat(a + [x], b, key, k);
      WithKeyConcat(a, [x], key, k);
      WithKeyConcat(a + b, [x], key, k);
      WithKeyConcat(a, b, key, k);
      if k == key(x) {
        WithKeyNone(b, key, k);
      } else {
        WithKeyNone([x], key, k);
      }
    }
  }

  lemma InsertDescends<T>(a: seq<T>, x: T, b: seq<T>, key: T -> nat)
    requires Descending(a + b, key)
    requires forall i :: 0 <= i < |a| ==> key(a[i]) >= key(x)
    requires b != [] ==> key(b[0]) < key(x)
    ensures Descending(a + [x] + b, key)
    ensures forall i :: 0 <= i < |b| ==> key(b[i]) < key(x)
  {
    var xs, ys := a + b, a + [x] + b;
    forall i | 0 <= i < |b| ensures key(b[i]) < key(x) {
      assert xs[|a|] == b[0] && xs[|a| + i] == b[i];
    }
    forall i, j | 0 <= i < j < |ys| ensures key(ys[i]) >= key(ys[j]) {
      assert i < |a| ==> ys[i] == xs[i];
      assert i > |a| ==> ys[i] == xs[i - 1];
      assert j < |a| ==> ys[j] == xs[j];
      assert j > |a| ==> ys[j] == xs[j - 1] == b[j - 1 - |a|];
    }
  }

  lemma SamePerKeyAppend<T>(xs: seq<T>, ys: seq<T>, x: T, key: T -> nat)
    requires SamePerKey(xs, ys, key)
    ensures SamePerKey(xs + [x], ys + [x], key)
  {
    hide WithKey;
    forall k ensures WithKey(xs + [x], key, k) == WithKey(ys + [x], key, k) {
      WithKeyConcat(xs, [x], key, k);
      WithKeyConcat(ys, [x], key, k);
    }
  }

  lemma InsertOne<T>(init: seq<T>, front: seq<T>, x: T, key: T -> nat)
    requires IsStableSort(init, front, key)
    ensures var n := InsertAt(front, key, key(x));
            IsStableSort(init + [x], front[..n] + [x] + front[n..], key)
  {
    hide SamePerKey, Descending;
    var n := InsertAt(front, key, key(x));
    assert front == front[..n] + front[n..];
    InsertDescends(front[..n], x, front[n..], key);
    InsertKeepsOrder(front[..n], x, front[n..], key);
    SamePerKeyAppend(front, init, x, key);
    SamePerKeyTrans(front[..n] + [x] + front[n..], front + [x], init + [x], key);
  }

  lemma {:induction false} SortIsStable<T>(xs: seq<T>, key: T -> nat)
    ensures IsStableSort(xs, SortDescending(xs, key), key)
  {
    if xs != [] {
      hide IsStableSort, InsertAt;
      var init, x := xs[..|xs| - 1], xs[|xs| - 1];
      SortIsStable(init, key);
      InsertOne(init, SortDescending(init, key), x, key);
      assert xs == init + [x];
    }
  }

  lemma SamePerKeyTrans<T>(xs: seq<T>, ys: seq<T>, zs: seq<T>, key: T -> nat)
    requires SamePerKey(xs, ys, key) && SamePerKey(ys, zs, key)
    ensures SamePerKey(xs, zs, key)
  {
    hide WithKey;
    forall k ensures WithKey(xs, key, k) == WithKey(zs, key, k) {
      assert WithKey(xs, key, k) == WithKey(ys, key, k);
    }
  }

  lemma LastWithKey<T>(xs: seq<T>, key: T -> nat)
    requires xs != []
    ensures var w := WithKey(xs, key, key(xs[|xs| - 1]));
            w != [] && w[|w| - 1] == xs[|xs| - 1]
            && w[..|w| - 1] == WithKey(xs[..|xs| - 1], key, key(xs[|xs| - 1]))
  {
  }

  lemma {:induction false} KeyIsPresent<T>(xs: seq<T>, key: T -> nat, k: nat)
    requires WithKey(xs, key, k) != []
    ensures exists i :: 0 <= i < |xs| && key(xs[i]) == k
  {
    if !exists i :: 0 <= i < |xs| && key(xs[i]) == k { WithKeyNone(xs, key, k); }
  }

  lemma HasKeyOfLast<T>(xs: seq<T>, ys: seq<T>, key: T -> nat)
    requires SamePerKey(xs, ys, key) && xs != []
    ensures exists i :: 0 <= i < |ys| && key(ys[i]) == key(xs[|xs| - 1])
  {
    hide WithKey;
    var k := key(xs[|xs| - 1]);
    LastWithKey(xs, key);
    assert WithKey(xs, key, k) == WithKey(ys, key, k);
    KeyIsPresent(ys, key, k);
  }

  lemma SameLast<T>(xs: seq<T>, ys: seq<T>, key: T -> nat)
    requires Descending(xs, key) && Descending(ys, key) && SamePerKey(xs, ys, key) && xs != []
    ensures ys != [] && xs[|xs| - 1] == ys[|ys| - 1]
  {
    hide WithKey, SamePerKey;
    HasKeyOfLast(xs, ys, key);
    SamePerKeySym(xs, ys, key);
    HasKeyOfLast(ys, xs, key);
    LastWithKey(xs, key);
    LastWithKey(ys, key);
    SameAt(xs, ys, key, key(xs[|xs| - 1]));
  }

  lemma SamePerKeySym<T>(xs: seq<T>, ys: seq<T>, key: T -> nat)
    requires SamePerKey(xs, ys, key)
    ensures SamePerKey(ys, xs, key)
  {
    hide WithKey;
    forall k ensures WithKey(ys, key, k) == WithKey(xs, key, k) {
      SameAt(xs, ys, key, k);
    }
  }

  lemma SameAt<T>(xs: seq<T>, ys: seq<T>, key: T -> nat, k: nat)
    requires SamePerKey(xs, ys, key)
    ensures WithKey(xs, key, k) == WithKey(ys, key, k)
  {
  }

  lemma SameFronts<T>(a: seq<T>, b: seq<T>, x: T, key: T -> nat)
    requires SamePerKey(a + [x], b + [x], key)
    ensures SamePerKey(a, b, key)
  {
    hide WithKey;
    forall k ensures WithKey(a, key, k) == WithKey(b, key, k) {
      WithKeyConcat(a, [x], key, k);
      WithKeyConcat(b, [x], key, k);
      SameAt(a + [x], b + [x], key, k);
      DropCommonTail(WithKey(a, key, k), WithKey(b, key, k), WithKey([x], key, k));
    }
  }

  /** A list has one stable sort, so any stable algorithm computes `SortDescending`. */
  lemma {:induction false} StableSortIsUnique<T>(xs: seq<T>, ys: seq<T>, key: T -> nat)
    requires Descending(xs, key) && Descending(ys, key) && SamePerKey(xs, ys, key)
    ensures xs == ys
    decreases |xs|
  {
    hide SamePerKey;
    if xs != [] {
      SameLast(xs, ys, key);
      var x, a, b := xs[|xs| - 1], xs[..|xs| - 1], ys[..|ys| - 1];
      assert xs == a + [x] && ys == b + [x];
      SameFronts(a, b, x, key);
      StableSortIsUnique(a, b, key);
    } else if ys != [] {
      SamePerKeySym(xs, ys, key);
      SameLast(ys, xs, key);
    }
  }

  lemma DropCommonTail<T>(a: seq<T>, b: seq<T>, t: seq<T>)
    requires a + t == b + t
    ensures a == b
  {
    assert |a| == |b|;
    assert (a + t)[..|a|] == a && (b + t)[..|b|] == b;
  }
}
