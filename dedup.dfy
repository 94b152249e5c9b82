/**
 * The `seen = set(); out = []; for x in xs: if key(x) not in seen: seen.add(key(x)); out.append(x)`
 * idiom, which the source uses for relationship triples, annotation tuples, graph nodes and
 * entity lists. `DedupBy` is its reference definition, written over prefixes so that a loop
 * that has handled `xs[..i]` holds exactly `DedupBy(xs[..i], key)`.
 */
module Dedup {
  import opened Wrappers

  /** The keys of the elements of `s`. */
  function KeysOf<T(==), K(==)>(s: seq<T>, key: T -> K): set<K> {
    set x | x in s :: key(x)
  }

  /** The key of `s[j]` does not occur earlier in `s`. */
  ghost predicate IsFirstOfKey<T, K>(s: seq<T>, key: T -> K, j: int)
    requires 0 <= j < |s|
  {
    forall k :: 0 <= k < j ==> key(s[k]) != key(s[j])
  }

  /** No two elements of `s` share a key. */
  ghost predicate DistinctKeys<T, K>(s: seq<T>, key: T -> K) {
    forall i, j :: 0 <= i < j < |s| ==> key(s[i]) != key(s[j])
  }

  ghost predicate Distinct<T>(s: seq<T>) {
    forall i, j :: 0 <= i < j < |s| ==> s[i] != s[j]
  }

  lemma KeysOfSnoc<T, K>(s: seq<T>, x: T, key: T -> K)
    ensures KeysOf(s + [x], key) == KeysOf(s, key) + {key(x)}
  {
    assert forall y :: y in s + [x] <==> y in s || y == x;
  }

  /** Keeps the first element of every key, in input order. */
  function DedupBy<T(==), K(==)>(s: seq<T>, key: T -> K): (r: seq<T>)
    ensures KeysOf(r, key) == KeysOf(s, key)
    ensures DistinctKeys(r, key)
    ensures |r| <= |s|
    ensures forall x :: x in r ==> x in s
    decreases |s|
  {
    if s == [] then []
    else
      var init := s[..|s| - 1];
      var x := s[|s| - 1];
      assert s == init + [x];
      KeysOfSnoc(init, x, key);
      var p := DedupBy(init, key);
      if key(x) in KeysOf(p, key) then p
      else
        KeysOfSnoc(p, x, key);
        assert forall i :: 0 <= i < |p| ==> key(p[i]) in KeysOf(p, key);
        p + [x]
  }

  /** The positions in `s` of the elements `DedupBy` keeps. */
  ghost function KeptIndices<T, K>(s: seq<T>, key: T -> K): (idx: seq<nat>)
    decreases |s|
  {
    if s == [] then []
    else
      var init := s[..|s| - 1];
      var pi := KeptIndices(init, key);
      if key(s[|s| - 1]) in KeysOf(DedupBy(init, key), key) then pi else pi + [|s| - 1]
  }

  /**
   * The kept positions are increasing, each is the first occurrence of its key and holds
   * the element `DedupBy` keeps there, and every first occurrence is among them.
   */
  lemma KeptIndicesSpec<T, K>(s: seq<T>, key: T -> K)
    ensures var idx := KeptIndices(s, key);
      && |idx| == |DedupBy(s, key)|
      && (forall i :: 0 <= i < |idx| ==>
            idx[i] < |s| && DedupBy(s, key)[i] == s[idx[i]] && IsFirstOfKey(s, key, idx[i]))
      && (forall i, j :: 0 <= i < j < |idx| ==> idx[i] < idx[j])
      && (forall j :: 0 <= j < |s| && IsFirstOfKey(s, key, j) ==> j in idx)
  {
    KeptIndicesAt(s, key);
    KeptIndicesOrder(s, key);
  }

  /** `DedupBy` keeps exactly the first element of every key, in input order. */
  lemma DedupByFirsts<T, K>(s: seq<T>, key: T -> K)
    ensures exists idx: seq<nat> ::
      && |idx| == |DedupBy(s, key)|
      && (forall i, j :: 0 <= i < j < |idx| ==> idx[i] < idx[j])
      && (forall i :: 0 <= i < |idx| ==> idx[i] < |s| && DedupBy(s, key)[i] == s[idx[i]] && IsFirstOfKey(s, key, idx[i]))
      && (forall j :: 0 <= j < |s| && IsFirstOfKey(s, key, j) ==> j in idx)
  {
    var idx := KeptIndices(s, key);
    KeptIndicesSpec(s, key);
  }

  /** Each kept position holds the element `DedupBy` keeps there and is the first of its key. */
  lemma {:induction false} KeptIndicesAt<T, K>(s: seq<T>, key: T -> K)
    ensures var idx := KeptIndices(s, key);
      && |idx| == |DedupBy(s, key)|
      && (forall i :: 0 <= i < |idx| ==>
            idx[i] < |s| && DedupBy(s, key)[i] == s[idx[i]] && IsFirstOfKey(s, key, idx[i]))
    decreases |s|
  {
    if s != [] {
      var init := s[..|s| - 1];
      var x := s[|s| - 1];
      assert s == init + [x];
      KeptIndicesAt(init, key);
      var p := DedupBy(init, key);
      var pi := KeptIndices(init, key);
      assert forall j :: 0 <= j < |init| ==> (IsFirstOfKey(s, key, j) <==> IsFirstOfKey(init, key, j));
      if key(x) in KeysOf(p, key) {
        assert DedupBy(s, key) == p;
      } else {
        assert DedupBy(s, key) == p + [x];
        assert IsFirstOfKey(s, key, |s| - 1) by {
          forall k | 0 <= k < |s| - 1 ensures key(s[k]) != key(x) {
            assert s[k] in init;
          }
        }
      }
    }
  }

  /** The kept positions are increasing and include every first occurrence of a key. */
  lemma {:induction false} KeptIndicesOrder<T, K>(s: seq<T>, key: T -> K)
    ensures var idx := KeptIndices(s, key);
      && (forall i :: 0 <= i < |idx| ==> idx[i] < |s|)
      && (forall i, j :: 0 <= i < j < |idx| ==> idx[i] < idx[j])
      && (forall j :: 0 <= j < |s| && IsFirstOfKey(s, key, j) ==> j in idx)
    decreases |s|
  {
    if s != [] {
      var init := s[..|s| - 1];
      var x := s[|s| - 1];
      assert s == init + [x];
      KeptIndicesOrder(init, key);
      var p := DedupBy(init, key);
      assert forall j :: 0 <= j < |init| ==> (IsFirstOfKey(s, key, j) <==> IsFirstOfKey(init, key, j));
      if key(x) in KeysOf(p, key) {
        assert key(x) in KeysOf(init, key);
        var y :| y in init && key(y) == key(x);
        var k :| 0 <= k < |init| && init[k] == y;
        assert !IsFirstOfKey(s, key, |s| - 1);
      }
    }
  }

  function Identity<T>(x: T): T { x }

  /** With the identity as key, `Unique` keeps the first copy of every element. */
  function Unique<T(==,!new)>(s: seq<T>): (r: seq<T>)
    ensures Distinct(r)
    ensures forall x :: x in r <==> x in s
  {
    var r := DedupBy(s, Identity);
    assert forall x :: x in r <==> x in KeysOf(r, Identity);
    assert forall x :: x in s <==> x in KeysOf(s, Identity);
    r
  }

  /** One more element extends the de-duplicated list exactly when its key is new. */
  lemma DedupBySnoc<T, K>(s: seq<T>, x: T, key: T -> K)
    ensures DedupBy(s + [x], key) ==
      if key(x) in KeysOf(DedupBy(s, key), key) then DedupBy(s, key) else DedupBy(s, key) + [x]
  {
    assert (s + [x])[..|s|] == s;
  }

  /**
   * One step of the loop that keeps a `seen` set beside the list it builds: `s[i]` is kept
   * when its key has not been seen, so the list stays the de-duplication of the prefix and
   * `seen` its set of keys.
   */
  method KeepIfNew<T(==), K(==)>(s: seq<T>, i: nat, key: T -> K, seen: set<K>, kept: seq<T>)
    returns (seen': set<K>, kept': seq<T>)
    requires i < |s| && kept == DedupBy(s[..i], key) && seen == KeysOf(kept, key)
    ensures kept' == DedupBy(s[..i + 1], key) && seen' == KeysOf(kept', key)
  {
    assert s[..i + 1] == s[..i] + [s[i]];
    DedupBySnoc(s[..i], s[i], key);
    if key(s[i]) !in seen {
      KeysOfSnoc(kept, s[i], key);
      seen' := seen + {key(s[i])};
      kept' := kept + [s[i]];
    } else {
      seen', kept' := seen, kept;
    }
  }

  /**
   * The loop for a key Python may refuse to hash: `None` (the `TypeError`) as soon as an
   * element's key cannot go in `seen`, otherwise the de-duplicated list.
   */
  method DedupHashable<T(==), K(==)>(s: seq<T>, key: T -> K, hashable: T -> bool) returns (r: Option<seq<T>>)
    ensures r.None? <==> exists i | 0 <= i < |s| :: !hashable(s[i])
    ensures r.Some? ==> r.value == DedupBy(s, key)
  {
    var seen: set<K> := {};
    var kept: seq<T> := [];
    var i := 0;
    while i < |s|
      invariant 0 <= i <= |s|
      invariant forall k {:trigger hashable(s[k])} | 0 <= k < i :: hashable(s[k])
      invariant kept == DedupBy(s[..i], key)
      invariant seen == KeysOf(kept, key)
    {
      if !hashable(s[i]) {
        return None;
      }
      seen, kept := KeepIfNew(s, i, key, seen, kept);
      i := i + 1;
    }
    assert s[..|s|] == s;
    return Some(kept);
  }

  /** One more element extends `Unique` exactly when it is new. */
  lemma UniqueSnoc<T(!new)>(s: seq<T>, x: T)
    ensures Unique(s + [x]) == if x in Unique(s) then Unique(s) else Unique(s) + [x]
  {
    DedupBySnoc(s, x, Identity);
    assert x in Unique(s) <==> x in KeysOf(Unique(s), Identity);
  }
}
