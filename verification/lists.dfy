/** The two list transformations the components apply to their state:
    `array.filter(pred)` and `array.map(x => sel(x) ? upd(x) : x)`. */
module Lists {

  /** `s.filter(keep)`: the elements of `s` that satisfy `keep`, in order. */
  function Filter<T>(s: seq<T>, keep: T -> bool): (r: seq<T>)
    ensures |r| <= |s|
    ensures forall i :: 0 <= i < |r| ==> r[i] in s && keep(r[i])
    ensures forall i :: 0 <= i < |s| && keep(s[i]) ==> s[i] in r
  {
    if s == [] then []
    else (if keep(s[0]) then [s[0]] else []) + Filter(s[1..], keep)
  }

  /** The positions of `s` whose element satisfies `keep`. */
  function IndicesWhere<T>(s: seq<T>, keep: T -> bool): set<int>
  {
    set i | 0 <= i < |s| && keep(s[i])
  }

  /** `s.filter(keep).length` is the number of positions whose element
      satisfies `keep`. */
  lemma {:induction false} FilterLength<T>(s: seq<T>, keep: T -> bool)
    ensures |Filter(s, keep)| == |IndicesWhere(s, keep)|
  {
    if s != [] {
      var init, x := s[..|s| - 1], s[|s| - 1];
      assert s == init + [x];
      FilterAppend(init, [x], keep);
      FilterLength(init, keep);
      var a := IndicesWhere(init, keep);
      if keep(x) {
        assert IndicesWhere(s, keep) == a + {|init|};
        assert |init| !in a;
      } else {
        assert IndicesWhere(s, keep) == a;
      }
    }
  }

  /** Filtering distributes over concatenation, so the kept elements keep
      their relative order. */
  lemma {:induction false} FilterAppend<T>(a: seq<T>, b: seq<T>, keep: T -> bool)
    ensures Filter(a + b, keep) == Filter(a, keep) + Filter(b, keep)
  {
    if a != [] {
      assert (a + b)[1..] == a[1..] + b;
      FilterAppend(a[1..], b, keep);
    } else {
      assert a + b == b;
    }
  }

  /** Nothing is dropped when every element satisfies the predicate. */
  lemma {:induction false} FilterKeepsAll<T>(s: seq<T>, keep: T -> bool)
    requires forall i :: 0 <= i < |s| ==> keep(s[i])
    ensures Filter(s, keep) == s
  {
    if s != [] {
      FilterKeepsAll(s[1..], keep);
    }
  }

  /** Filtering twice with the same predicate is the same as filtering once. */
  lemma FilterIdempotent<T>(s: seq<T>, keep: T -> bool)
    ensures Filter(Filter(s, keep), keep) == Filter(s, keep)
  {
    FilterKeepsAll(Filter(s, keep), keep);
  }

  /** Exactly the lists whose every element is kept come through whole. */
  lemma {:induction false} FilterFull<T>(s: seq<T>, keep: T -> bool)
    ensures |Filter(s, keep)| == |s| <==> forall i :: 0 <= i < |s| ==> keep(s[i])
  {
    if s != [] {
      FilterFull(s[1..], keep);
      assert forall i :: 1 <= i < |s| ==> s[1..][i - 1] == s[i];
    }
  }

  /** Nothing is kept exactly when no element satisfies the predicate. */
  lemma FilterEmpty<T>(s: seq<T>, keep: T -> bool)
    ensures Filter(s, keep) == [] <==> forall i :: 0 <= i < |s| ==> !keep(s[i])
  {
    var r := Filter(s, keep);
    if r != [] {
      assert r[0] in s;
    }
  }

  /** The predicate `x => key(x) !== k`. */
  function KeyOtherThan<T, K(==)>(key: T -> K, k: K): T -> bool
  {
    x => key(x) != k
  }

  /** `s.filter(x => key(x) !== k)`: removal by key. No element with key
      `k` is left, and every other element is. */
  function RemoveKey<T, K(==)>(s: seq<T>, key: T -> K, k: K): (r: seq<T>)
    ensures |r| <= |s|
    ensures forall i :: 0 <= i < |r| ==> key(r[i]) != k && r[i] in s
    ensures forall i :: 0 <= i < |s| && key(s[i]) != k ==> s[i] in r
  {
    Filter(s, KeyOtherThan(key, k))
  }

  /** Removal splits over concatenation, so the remaining elements keep
      their relative order. */
  lemma RemoveKeyAppend<T, K>(a: seq<T>, b: seq<T>, key: T -> K, k: K)
    ensures RemoveKey(a + b, key, k) == RemoveKey(a, key, k) + RemoveKey(b, key, k)
  {
    FilterAppend(a, b, KeyOtherThan(key, k));
  }

  /** Removing the same key twice is the same as removing it once. */
  lemma RemoveKeyIdempotent<T, K>(s: seq<T>, key: T -> K, k: K)
    ensures RemoveKey(RemoveKey(s, key, k), key, k) == RemoveKey(s, key, k)
  {
    FilterIdempotent(s, KeyOtherThan(key, k));
  }

  /** The sequence is left as it was exactly when no element has the key. */
  lemma RemoveKeyUnchanged<T, K>(s: seq<T>, key: T -> K, k: K)
    ensures RemoveKey(s, key, k) == s <==> forall i :: 0 <= i < |s| ==> key(s[i]) != k
  {
    var keep := KeyOtherThan(key, k);
    FilterFull(s, keep);
    if forall i :: 0 <= i < |s| ==> key(s[i]) != k {
      FilterKeepsAll(s, keep);
    }
  }

  /** Removing the key of an element just put in front of, or behind, a
      sequence that did not hold that key gives the sequence back. */
  lemma RemoveKeyFresh<T, K>(s: seq<T>, x: T, key: T -> K)
    requires forall i :: 0 <= i < |s| ==> key(s[i]) != key(x)
    ensures RemoveKey([x] + s, key, key(x)) == s
    ensures RemoveKey(s + [x], key, key(x)) == s
  {
    RemoveKeyAppend([x], s, key, key(x));
    RemoveKeyAppend(s, [x], key, key(x));
    RemoveKeyUnchanged(s, key, key(x));
    assert RemoveKey([x], key, key(x)) == [];
  }

  /** `s.map(x => sel(x) ? upd(x) : x)`: the selected elements are replaced
      by their update, every other element is kept where it was. */
  function MapWhere<T>(s: seq<T>, sel: T -> bool, upd: T -> T): (r: seq<T>)
    ensures |r| == |s|
    ensures forall i :: 0 <= i < |s| ==> r[i] == if sel(s[i]) then upd(s[i]) else s[i]
  {
    if s == [] then []
    else [if sel(s[0]) then upd(s[0]) else s[0]] + MapWhere(s[1..], sel, upd)
  }

  /** When no element is selected the list is returned unchanged. */
  lemma MapWhereNoneSelected<T>(s: seq<T>, sel: T -> bool, upd: T -> T)
    requires forall i :: 0 <= i < |s| ==> !sel(s[i])
    ensures MapWhere(s, sel, upd) == s
  {
  }
}
