/**
 * Sorting a list of records by a string key, ascending, as the client does
 * with `sorted { $0.name < $1.name }`. What Swift's `sorted(by:)` promises is
 * that the result is ordered by the key and is a permutation of the input; it
 * does not promise stability, so neither does this model.
 */
module NameSort {
  import opened Text

  /** No later element's key comes strictly before an earlier one's. */
  ghost predicate SortedBy<T>(xs: seq<T>, key: T -> string)
  {
    forall i, j | 0 <= i < j < |xs| :: NotAfter(key(xs[i]), key(xs[j]))
  }

  /** Places `x` into an already sorted list, before the first larger key. */
  function Insert<T>(x: T, xs: seq<T>, key: T -> string): (r: seq<T>)
    requires SortedBy(xs, key)
    ensures SortedBy(r, key)
    ensures multiset(r) == multiset(xs) + multiset{x}
    decreases |xs|
  {
    if xs == [] then [x]
    else if Below(key(x), key(xs[0])) then
      PrependSmaller(x, xs, key);
      [x] + xs
    else
      var rest := Insert(x, xs[1..], key);
      assert xs == [xs[0]] + xs[1..];
      PrependSmallest(xs[0], rest, x, xs[1..], key);
      [xs[0]] + rest
  }

  /** Putting a key strictly below the head of a sorted list in front keeps it sorted. */
  lemma PrependSmaller<T>(x: T, xs: seq<T>, key: T -> string)
    requires xs != [] && SortedBy(xs, key) && Below(key(x), key(xs[0]))
    ensures SortedBy([x] + xs, key)
  {
    var r := [x] + xs;
    forall i, j | 0 <= i < j < |r| ensures NotAfter(key(r[i]), key(r[j])) {
      if i == 0 {
        BelowAsymmetric(key(x), key(xs[0]));
        if j > 1 {
          NotAfterTransitive(key(x), key(xs[0]), key(xs[j - 1]));
        }
      }
    }
  }

  /**
   * Putting `y` in front of a sorted list made of `x` and the elements of
   * `ys` keeps it sorted when `y` is not after any of them.
   */
  lemma PrependSmallest<T>(y: T, rest: seq<T>, x: T, ys: seq<T>, key: T -> string)
    requires SortedBy(rest, key) && SortedBy([y] + ys, key)
    requires multiset(rest) == multiset(ys) + multiset{x}
    requires NotAfter(key(y), key(x))
    ensures SortedBy([y] + rest, key)
  {
    var r := [y] + rest;
    forall i, j | 0 <= i < j < |r| ensures NotAfter(key(r[i]), key(r[j])) {
      if i == 0 {
        var e := rest[j - 1];
        assert r[j] == e;
        assert e in multiset(rest);
        if e != x {
          assert e in multiset(ys);
          var k :| 0 <= k < |ys| && ys[k] == e;
          assert ([y] + ys)[0] == y && ([y] + ys)[k + 1] == e;
          assert NotAfter(key(y), key(e));
        }
      } else {
        assert r[i] == rest[i - 1] && r[j] == rest[j - 1];
      }
    }
  }

  /** The list sorted ascending by `key`: ordered, and a permutation of `xs`. */
  function SortBy<T>(xs: seq<T>, key: T -> string): (r: seq<T>)
    ensures SortedBy(r, key)
    ensures multiset(r) == multiset(xs)
    ensures |r| == |xs|
  {
    if xs == [] then []
    else
      assert xs == [xs[0]] + xs[1..];
      Insert(xs[0], SortBy(xs[1..], key), key)
  }

  /** Removing one element keeps a list sorted. */
  lemma RemoveAtSorted<T>(ys: seq<T>, i: nat, key: T -> string)
    requires i < |ys| && SortedBy(ys, key)
    ensures SortedBy(ys[..i] + ys[i + 1..], key)
    ensures multiset(ys[..i] + ys[i + 1..]) == multiset(ys) - multiset{ys[i]}
  {
    var zs := ys[..i] + ys[i + 1..];
    forall p, q | 0 <= p < q < |zs| ensures NotAfter(key(zs[p]), key(zs[q])) {
      var p0 := if p < i then p else p + 1;
      var q0 := if q < i then q else q + 1;
      assert zs[p] == ys[p0] && zs[q] == ys[q0];
    }
    assert ys == ys[..i] + [ys[i]] + ys[i + 1..];
  }

  /** In a sorted list, everything up to a position carrying the first key carries that key too. */
  lemma SqueezedKey<T>(ys: seq<T>, m: nat, hi: nat, key: T -> string)
    requires m <= hi < |ys| && SortedBy(ys, key) && key(ys[hi]) == key(ys[0])
    ensures key(ys[m]) == key(ys[0])
  {
    if 0 < m < hi {
      NotAfterAntisymmetric(key(ys[m]), key(ys[0]));
    }
  }

  /**
   * Removing an element that carries the smallest key shifts the positions
   * after it by one without changing the key found at position `k`.
   */
  lemma KeyAfterRemoval<T>(ys: seq<T>, ia: nat, k: nat, key: T -> string)
    requires ia < |ys| && 0 < k < |ys| && SortedBy(ys, key) && key(ys[ia]) == key(ys[0])
    ensures key((ys[..ia] + ys[ia + 1..])[k - 1]) == key(ys[k])
  {
    var ys' := ys[..ia] + ys[ia + 1..];
    if k <= ia {
      SqueezedKey(ys, k - 1, ia, key);
      SqueezedKey(ys, k, ia, key);
      assert ys'[k - 1] == ys[k - 1];
    } else {
      assert ys'[k - 1] == ys[k];
    }
  }

  /** Two sorted permutations of the same records start with the same key. */
  lemma SortedHeadsSameKey<T>(xs: seq<T>, ys: seq<T>, key: T -> string)
    requires SortedBy(xs, key) && SortedBy(ys, key) && multiset(xs) == multiset(ys)
    requires xs != [] && ys != []
    ensures key(xs[0]) == key(ys[0])
  {
    var a, b := xs[0], ys[0];
    assert b in multiset(xs);
    var ib :| 0 <= ib < |xs| && xs[ib] == b;
    assert a in multiset(ys);
    var ia :| 0 <= ia < |ys| && ys[ia] == a;
    assert NotAfter(key(a), key(b)) by {
      if ib > 0 { assert NotAfter(key(xs[0]), key(xs[ib])); } else { BelowIrreflexive(key(a)); }
    }
    assert NotAfter(key(b), key(a)) by {
      if ia > 0 { assert NotAfter(key(ys[0]), key(ys[ia])); } else { BelowIrreflexive(key(b)); }
    }
    NotAfterAntisymmetric(key(a), key(b));
  }

  /**
   * Two sorted permutations of the same records agree on the key at every
   * position: whichever order an unstable sort picks among equal names, the
   * names appear in the same sequence.
   */
  lemma {:induction false} SortedKeysUnique<T>(xs: seq<T>, ys: seq<T>, key: T -> string, k: nat)
    requires SortedBy(xs, key) && SortedBy(ys, key) && multiset(xs) == multiset(ys)
    requires k < |xs|
    ensures |ys| == |xs| && key(xs[k]) == key(ys[k])
    decreases |xs|
  {
    assert |ys| == |multiset(ys)| == |multiset(xs)| == |xs|;
    if k > 0 {
      var ys' := RemoveFirstOf(xs, ys, key, k);
      SortedKeysUnique(xs[1..], ys', key, k - 1);
    } else {
      SortedHeadsSameKey(xs, ys, key);
    }
  }

  /**
   * The induction step of SortedKeysUnique: taking the head of `xs` out of
   * `ys` leaves a sorted permutation of the tail of `xs` whose key at `k - 1`
   * is the key of `ys` at `k`.
   */
  lemma RemoveFirstOf<T>(xs: seq<T>, ys: seq<T>, key: T -> string, k: nat) returns (ys': seq<T>)
    requires SortedBy(xs, key) && SortedBy(ys, key) && multiset(xs) == multiset(ys)
    requires 0 < k < |xs| == |ys|
    ensures SortedBy(xs[1..], key) && SortedBy(ys', key) && multiset(xs[1..]) == multiset(ys')
    ensures k - 1 < |ys'| && key(ys'[k - 1]) == key(ys[k]) && xs[1..][k - 1] == xs[k]
  {
    assert xs[0] in multiset(ys);
    var ia :| 0 <= ia < |ys| && ys[ia] == xs[0];
    ys' := ys[..ia] + ys[ia + 1..];
    RemoveAtSorted(ys, ia, key);
    assert multiset(ys') == multiset(ys) - multiset{xs[0]};
    assert xs == [xs[0]] + xs[1..];
    assert multiset(xs[1..]) == multiset(xs) - multiset{xs[0]};
    SortedHeadsSameKey(xs, ys, key);
    KeyAfterRemoval(ys, ia, k, key);
  }
}
