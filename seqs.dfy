/**
 * List comprehensions the source writes as loops that append: `[x for x in s if keep(x)]` and
 * `[f(x) for x in s if keep(x)]`, defined over prefixes so that a loop that has handled
 * `s[..i]` holds exactly the comprehension of `s[..i]`.
 */
module Seqs {
  import opened Wrappers


  /** `d.get(k, default)`: the entry of `k`, or `default` when `d` has none. */
  function GetOr<K, V>(d: map<K, V>, k: K, default: V): (v: V)
    ensures k in d ==> v == d[k]
    ensures k !in d ==> v == default
  {
    if k in d then d[k] else default
  }

  /** `[x for x in s if keep(x)]`. */
  function Filter<T>(s: seq<T>, keep: T -> bool): (r: seq<T>)
    ensures |r| <= |s|
    ensures forall i :: 0 <= i < |r| ==> keep(r[i]) && r[i] in s
    ensures forall j :: 0 <= j < |s| && keep(s[j]) ==> s[j] in r
    decreases |s|
  {
    if s == [] then []
    else
      var n := |s| - 1;
      var p := Filter(s[..n], keep);
      assert forall j :: 0 <= j < n ==> s[..n][j] == s[j];
      if keep(s[n]) then p + [s[n]] else p
  }

  lemma ConcatAssoc<T>(a: seq<T>, b: seq<T>, c: seq<T>, d: seq<T>)
    ensures a + b + c + d == a + (b + c + d)
  {
  }

  lemma DropSingle<T>(a: seq<T>, b: seq<T>, c: seq<T>)
    requires |a| == 1
    ensures (a + b + c)[1..] == b + c
  {
  }

  /**
   * Filtering the images of a sequence under a partial `f`: nothing when `f` fails somewhere,
   * otherwise exactly the images that pass `keep`.
   */
  lemma FilterAllSome<A, B>(s: seq<A>, f: A -> Option<B>, keep: B -> bool)
    ensures (exists j :: 0 <= j < |s| && f(s[j]).None?) ==> AllSome(s, f).None?
    ensures AllSome(s, f).Some? ==>
      var r := Filter(AllSome(s, f).value, keep);
      forall i :: 0 <= i < |r| ==> keep(r[i]) && exists j :: 0 <= j < |s| && f(s[j]) == Some(r[i])
    ensures AllSome(s, f).Some? ==>
      forall j :: 0 <= j < |s| && keep(f(s[j]).value) ==> f(s[j]).value in Filter(AllSome(s, f).value, keep)
  {
    var all := AllSome(s, f);
    if all.Some? {
      var r := Filter(all.value, keep);
      forall i | 0 <= i < |r| ensures exists j :: 0 <= j < |s| && f(s[j]) == Some(r[i]) {
        assert r[i] in all.value;
        var j :| 0 <= j < |all.value| && all.value[j] == r[i];
      }
      forall j | 0 <= j < |s| && keep(f(s[j]).value) ensures f(s[j]).value in r {
        assert all.value[j] == f(s[j]).value;
      }
    }
  }

  /** Membership form of `Filter`'s guarantee: what it keeps passes the test and comes from `s`. */
  lemma FilterMembers<T>(s: seq<T>, keep: T -> bool)
    ensures forall x :: x in Filter(s, keep) ==> keep(x) && x in s
  {
    var r := Filter(s, keep);
    forall x | x in r ensures keep(x) && x in s {
      var i :| 0 <= i < |r| && r[i] == x;
    }
  }

  /** Extending the filtered prefix by one element. */
  lemma FilterStep<T>(s: seq<T>, keep: T -> bool, i: nat)
    requires i < |s|
    ensures Filter(s[..i + 1], keep) == Filter(s[..i], keep) + (if keep(s[i]) then [s[i]] else [])
  {
    assert s[..i + 1][..i] == s[..i];
  }

  lemma {:induction false} FilterConcat<T>(a: seq<T>, b: seq<T>, keep: T -> bool)
    ensures Filter(a + b, keep) == Filter(a, keep) + Filter(b, keep)
    decreases |b|
  {
    if b != [] {
      var n := |b| - 1;
      assert (a + b)[..|a| + n] == a + b[..n];
      FilterConcat(a, b[..n], keep);
    } else {
      assert a + b == a;
    }
  }

  /** A filter keeps, with their multiplicities, exactly the elements that pass. */
  lemma {:induction false} FilterMultiset<T>(s: seq<T>, keep: T -> bool, x: T)
    ensures multiset(Filter(s, keep))[x] == if keep(x) then multiset(s)[x] else 0
    decreases |s|
  {
    if s != [] {
      var n := |s| - 1;
      FilterMultiset(s[..n], keep, x);
      assert s == s[..n] + [s[n]];
    }
  }

  /** Filtering twice by predicates that exclude each other keeps nothing; by the same one, changes nothing. */
  lemma {:induction false} FilterFilter<T>(s: seq<T>, p: T -> bool, q: T -> bool)
    requires forall x :: p(x) ==> q(x)
    ensures Filter(Filter(s, p), q) == Filter(s, p)
    decreases |s|
  {
    if s != [] {
      var n := |s| - 1;
      FilterFilter(s[..n], p, q);
      if p(s[n]) {
        FilterConcat(Filter(s[..n], p), [s[n]], q);
      }
    }
  }

  lemma {:induction false} FilterNone<T>(s: seq<T>, keep: T -> bool)
    requires forall i :: 0 <= i < |s| ==> !keep(s[i])
    ensures Filter(s, keep) == []
    decreases |s|
  {
    if s != [] {
      FilterNone(s[..|s| - 1], keep);
    }
  }

  lemma {:induction false} FilterAll<T>(s: seq<T>, keep: T -> bool)
    requires forall i :: 0 <= i < |s| ==> keep(s[i])
    ensures Filter(s, keep) == s
    decreases |s|
  {
    if s != [] {
      FilterAll(s[..|s| - 1], keep);
    }
  }

  /** `[f(x) for x in s if keep(x)]`. */
  function FilterMap<A, B>(s: seq<A>, keep: A -> bool, f: A -> B): (r: seq<B>)
    ensures |r| <= |s|
    decreases |s|
  {
    if s == [] then []
    else
      var n := |s| - 1;
      var p := FilterMap(s[..n], keep, f);
      if keep(s[n]) then p + [f(s[n])] else p
  }

  /** Every element of the comprehension is the image of a kept element, and every kept element's image is in it. */
  lemma {:induction false} FilterMapHas<A, B>(s: seq<A>, keep: A -> bool, f: A -> B)
    ensures forall i :: 0 <= i < |FilterMap(s, keep, f)| ==>
      exists j :: 0 <= j < |s| && keep(s[j]) && FilterMap(s, keep, f)[i] == f(s[j])
    ensures forall j :: 0 <= j < |s| && keep(s[j]) ==> f(s[j]) in FilterMap(s, keep, f)
    decreases |s|
  {
    if s != [] {
      var n := |s| - 1;
      var init := s[..n];
      FilterMapHas(init, keep, f);
      var p := FilterMap(init, keep, f);
      var r := FilterMap(s, keep, f);
      assert r == if keep(s[n]) then p + [f(s[n])] else p;
      assert forall j :: 0 <= j < n ==> init[j] == s[j];
      assert forall i :: 0 <= i < |p| ==> r[i] == p[i];
      forall i | 0 <= i < |r|
        ensures exists j :: 0 <= j < |s| && keep(s[j]) && r[i] == f(s[j])
      {
        if i < |p| {
          assert p[i] == FilterMap(init, keep, f)[i];
          var j :| 0 <= j < |init| && keep(init[j]) && p[i] == f(init[j]);
          assert init[j] == s[j];
        } else {
          assert keep(s[n]) && r[i] == f(s[n]);
        }
      }
      forall j | 0 <= j < |s| && keep(s[j]) ensures f(s[j]) in r {
        if j < n {
          assert init[j] == s[j];
          assert f(init[j]) in p;
        }
      }
    } else {
      assert FilterMap(s, keep, f) == [];
    }
  }

  /** The comprehension of a prefix is a prefix of the comprehension. */
  lemma {:induction false} FilterMapPrefix<A, B>(s: seq<A>, i: nat, keep: A -> bool, f: A -> B)
    requires i <= |s|
    ensures FilterMap(s[..i], keep, f) <= FilterMap(s, keep, f)
    decreases |s| - i
  {
    if i < |s| {
      FilterMapPrefix(s, i + 1, keep, f);
      assert s[..i + 1][..i] == s[..i];
    } else {
      assert s[..i] == s;
    }
  }

  /** The positions of the elements of `s` that pass `keep`, in increasing order. */
  ghost function KeptPositions<A>(s: seq<A>, keep: A -> bool): (idx: seq<nat>)
    ensures forall i :: 0 <= i < |idx| ==> idx[i] < |s| && keep(s[idx[i]])
    ensures forall i, j :: 0 <= i < j < |idx| ==> idx[i] < idx[j]
    ensures forall j :: 0 <= j < |s| && keep(s[j]) ==> j in idx
    decreases |s|
  {
    if s == [] then []
    else
      var n := |s| - 1;
      var p := KeptPositions(s[..n], keep);
      assert forall j :: 0 <= j < n ==> s[..n][j] == s[j];
      if keep(s[n]) then p + [n] else p
  }

  /** `[f(x) for x in s if keep(x)]` is `f` applied to `s` at the kept positions, in order. */
  lemma {:induction false} FilterMapAt<A, B>(s: seq<A>, keep: A -> bool, f: A -> B)
    ensures |FilterMap(s, keep, f)| == |KeptPositions(s, keep)|
    ensures forall i :: 0 <= i < |FilterMap(s, keep, f)| ==>
      FilterMap(s, keep, f)[i] == f(s[KeptPositions(s, keep)[i]])
    decreases |s|
  {
    if s != [] {
      var n := |s| - 1;
      var init := s[..n];
      FilterMapAt(init, keep, f);
      var p := FilterMap(init, keep, f);
      var pi := KeptPositions(init, keep);
      forall i | 0 <= i < |p| ensures p[i] == f(s[pi[i]]) {
        assert init[pi[i]] == s[pi[i]];
      }
      if keep(s[n]) {
        var r, ri := p + [f(s[n])], pi + [n];
        assert FilterMap(s, keep, f) == r && KeptPositions(s, keep) == ri;
        forall i | 0 <= i < |r| ensures r[i] == f(s[ri[i]]) {
          if i < |p| {
            assert r[i] == p[i] && ri[i] == pi[i];
          }
        }
      } else {
        assert FilterMap(s, keep, f) == p && KeptPositions(s, keep) == pi;
      }
    }
  }

  /** `[f(x) for x in s]` when `f` raises on a `None`: the first raise ends the whole list. */
  function AllSome<A, B>(s: seq<A>, f: A -> Option<B>): (r: Option<seq<B>>)
    ensures r.Some? <==> forall j :: 0 <= j < |s| ==> f(s[j]).Some?
    ensures r.Some? ==> |r.value| == |s| && forall j :: 0 <= j < |s| ==> r.value[j] == f(s[j]).value
    decreases |s|
  {
    if s == [] then Some([])
    else
      var n := |s| - 1;
      var p := AllSome(s[..n], f);
      assert forall j :: 0 <= j < n ==> s[..n][j] == s[j];
      var x := f(s[n]);
      if p.None? || x.None? then None
      else
        var r := p.value + [x.value];
        assert forall j :: 0 <= j < n ==> r[j] == p.value[j];
        Some(r)
  }

  /** One more successful call extends `AllSome`, and the filter of it, by its value. */
  lemma AllSomeFilterStep<A, B>(s: seq<A>, f: A -> Option<B>, keep: B -> bool, i: nat, y: B)
    requires i < |s| && AllSome(s[..i], f).Some? && f(s[i]) == Some(y)
    ensures AllSome(s[..i + 1], f) == Some(AllSome(s[..i], f).value + [y])
    ensures Filter(AllSome(s[..i + 1], f).value, keep) ==
      Filter(AllSome(s[..i], f).value, keep) + (if keep(y) then [y] else [])
  {
    assert s[..i + 1][..i] == s[..i];
    var p := AllSome(s[..i], f).value;
    assert (p + [y])[..|p|] == p;
  }

  /** The values of the calls of `f` that succeed, in order: `[y for x in s if (y := f(x))]`. */
  function Somes<A, B>(s: seq<A>, f: A -> Option<B>): (r: seq<B>)
    ensures |r| <= |s|
    decreases |s|
  {
    if s == [] then []
    else
      var n := |s| - 1;
      match f(s[n])
      case None => Somes(s[..n], f)
      case Some(y) => Somes(s[..n], f) + [y]
  }

  /** How many calls of `f` fail. */
  function CountNone<A, B>(s: seq<A>, f: A -> Option<B>): (c: nat)
    ensures c <= |s|
    decreases |s|
  {
    if s == [] then 0
    else
      var n := |s| - 1;
      CountNone(s[..n], f) + (if f(s[n]).None? then 1 else 0)
  }

  /** One more element, whose call gives `y`, extends `Somes` and `CountNone` by that outcome. */
  lemma SomesStep<A, B>(s: seq<A>, f: A -> Option<B>, i: nat, y: Option<B>)
    requires i < |s| && f(s[i]) == y
    ensures Somes(s[..i + 1], f) == Somes(s[..i], f) + (if y.Some? then [y.value] else [])
    ensures CountNone(s[..i + 1], f) == CountNone(s[..i], f) + (if y.None? then 1 else 0)
  {
    assert s[..i + 1][..i] == s[..i];
  }

  /** One step of a loop that keeps the successful outcomes of `f` and counts the failures. */
  method PushOutcome<A, B>(s: seq<A>, f: A -> Option<B>, i: nat, y: Option<B>, got: seq<B>, failed: nat)
    returns (got': seq<B>, failed': nat)
    requires i < |s| && f(s[i]) == y
    requires got == Somes(s[..i], f) && failed == CountNone(s[..i], f)
    ensures got' == Somes(s[..i + 1], f) && failed' == CountNone(s[..i + 1], f)
  {
    SomesStep(s, f, i, y);
    if y.Some? {
      got', failed' := got + [y.value], failed;
    } else {
      got', failed' := got, failed + 1;
    }
  }

  /**
   * `Somes` keeps exactly the successful values: each of them comes from some call, every
   * successful call contributes its value, nothing fails exactly when `CountNone` is zero,
   * and every call either succeeds or is counted as a failure.
   */
  lemma SomesSpec<A, B>(s: seq<A>, f: A -> Option<B>)
    ensures forall i :: 0 <= i < |Somes(s, f)| ==> exists j :: 0 <= j < |s| && f(s[j]) == Some(Somes(s, f)[i])
    ensures forall j :: 0 <= j < |s| && f(s[j]).Some? ==> f(s[j]).value in Somes(s, f)
    ensures CountNone(s, f) == 0 <==> forall j :: 0 <= j < |s| ==> f(s[j]).Some?
    ensures |Somes(s, f)| + CountNone(s, f) == |s|
  {
    SomesHas(s, f);
    SomesCount(s, f);
  }

  /** A single element that `f` maps to a value puts that value among the results. */
  lemma SomesHasAt<A, B>(s: seq<A>, f: A -> Option<B>, j: nat)
    requires j < |s| && f(s[j]).Some?
    ensures f(s[j]).value in Somes(s, f)
  {
    SomesHas(s, f);
  }

  lemma {:induction false} SomesHas<A, B>(s: seq<A>, f: A -> Option<B>)
    ensures forall i :: 0 <= i < |Somes(s, f)| ==> exists j :: 0 <= j < |s| && f(s[j]) == Some(Somes(s, f)[i])
    ensures forall j :: 0 <= j < |s| && f(s[j]).Some? ==> f(s[j]).value in Somes(s, f)
    decreases |s|
  {
    if s != [] {
      var n := |s| - 1;
      var init := s[..n];
      SomesHas(init, f);
      var p := Somes(init, f);
      var r := Somes(s, f);
      assert forall j :: 0 <= j < n ==> init[j] == s[j];
      assert r == p + (if f(s[n]).Some? then [f(s[n]).value] else []);
      assert forall i :: 0 <= i < |p| ==> r[i] == p[i];
      forall i | 0 <= i < |r|
        ensures exists j :: 0 <= j < |s| && f(s[j]) == Some(r[i])
      {
        if i < |p| {
          assert p[i] == Somes(init, f)[i];
          var j :| 0 <= j < |init| && f(init[j]) == Some(p[i]);
          assert init[j] == s[j];
        } else {
          assert f(s[n]) == Some(r[i]);
        }
      }
      forall j | 0 <= j < |s| && f(s[j]).Some? ensures f(s[j]).value in r {
        if j < n {
          assert init[j] == s[j];
          assert f(init[j]).value in p;
        }
      }
    } else {
      assert Somes(s, f) == [];
    }
  }

  lemma {:induction false} SomesCount<A, B>(s: seq<A>, f: A -> Option<B>)
    ensures CountNone(s, f) == 0 <==> forall j :: 0 <= j < |s| ==> f(s[j]).Some?
    ensures |Somes(s, f)| + CountNone(s, f) == |s|
    decreases |s|
  {
    if s != [] {
      var n := |s| - 1;
      var init := s[..n];
      SomesCount(init, f);
      assert forall j :: 0 <= j < n ==> init[j] == s[j];
      assert |Somes(s, f)| == |Somes(init, f)| + (if f(s[n]).Some? then 1 else 0);
      if CountNone(s, f) != 0 && CountNone(init, f) != 0 {
        var j :| 0 <= j < n && f(init[j]).None?;
        assert f(s[j]).None?;
      }
    }
  }

}
