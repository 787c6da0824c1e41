/** First-wins removal of records whose key was already seen, the shape of
    pandas' `drop_duplicates(key)` (keep='first') and of the hand-written
    `remove_duplicates` loop: walk the records in order, keep a record when
    its key is new, remember the key. */
module KeyedDedup {
  import opened Strings

  /** No two records of `xs` share a key. */
  predicate DistinctKeys<T, K(==)>(xs: seq<T>, key: T -> K) {
    forall i, j :: 0 <= i < j < |xs| ==> key(xs[i]) != key(xs[j])
  }

  /** The keys of the records of `xs`. */
  function Keys<T, K(==)>(xs: seq<T>, key: T -> K): set<K> {
    set i | 0 <= i < |xs| :: key(xs[i])
  }

  /** `xs[i]` is the first record of `xs` with its key. */
  predicate FirstOfKey<T, K(==)>(xs: seq<T>, key: T -> K, i: int)
    requires 0 <= i < |xs|
  {
    forall j :: 0 <= j < i ==> key(xs[j]) != key(xs[i])
  }

  /** The records of `xs` whose key is not in `seen` and was not met earlier in `xs`. */
  function KeepFirstFrom<T, K(==)>(xs: seq<T>, key: T -> K, seen: set<K>): (r: seq<T>)
    ensures |r| <= |xs|
  {
    if |xs| == 0 then []
    else if key(xs[0]) in seen then KeepFirstFrom(xs[1..], key, seen)
    else [xs[0]] + KeepFirstFrom(xs[1..], key, seen + {key(xs[0])})
  }

  /** `drop_duplicates` keeping the first record of every key. */
  function KeepFirstBy<T, K(==)>(xs: seq<T>, key: T -> K): (r: seq<T>)
    ensures |r| <= |xs|
    ensures forall y :: y in r ==> y in xs
    ensures IsSubsequence(r, xs)
    ensures DistinctKeys(r, key)
    ensures Keys(r, key) == Keys(xs, key)
  {
    KeepFirstFromSpec(xs, key, {});
    KeepFirstFrom(xs, key, {})
  }

  lemma KeysCons<T, K>(x: T, xs: seq<T>, key: T -> K)
    ensures Keys([x] + xs, key) == {key(x)} + Keys(xs, key)
  {
    var ys := [x] + xs;
    forall k | k in Keys(ys, key)
      ensures k in {key(x)} + Keys(xs, key)
    {
      var i :| 0 <= i < |ys| && key(ys[i]) == k;
      if i > 0 {
        assert ys[i] == xs[i - 1];
      }
    }
    forall k | k in Keys(xs, key)
      ensures k in Keys(ys, key)
    {
      var i :| 0 <= i < |xs| && key(xs[i]) == k;
      assert ys[i + 1] == xs[i];
    }
    assert ys[0] == x;
  }

  /** What the first-wins walk keeps: records of `xs` only, in their order,
      no key twice, no key of `seen`, and every other key of `xs` once. */
  lemma {:induction false} KeepFirstFromSpec<T, K>(xs: seq<T>, key: T -> K, seen: set<K>)
    ensures forall y :: y in KeepFirstFrom(xs, key, seen) ==> y in xs
    ensures IsSubsequence(KeepFirstFrom(xs, key, seen), xs)
    ensures DistinctKeys(KeepFirstFrom(xs, key, seen), key)
    ensures Keys(KeepFirstFrom(xs, key, seen), key) == Keys(xs, key) - seen
  {
    if |xs| > 0 {
      KeysCons(xs[0], xs[1..], key);
      assert xs == [xs[0]] + xs[1..];
      if key(xs[0]) in seen {
        KeepFirstFromSpec(xs[1..], key, seen);
        SubsequenceOfTail(KeepFirstFrom(xs[1..], key, seen), xs);
      } else {
        var seen' := seen + {key(xs[0])};
        var rest := KeepFirstFrom(xs[1..], key, seen');
        KeepFirstFromSpec(xs[1..], key, seen');
        KeysCons(xs[0], rest, key);
        var r := [xs[0]] + rest;
        assert r[0] == xs[0] && r[1..] == rest;
        forall i, j | 0 <= i < j < |r|
          ensures key(r[i]) != key(r[j])
        {
          if i == 0 {
            assert key(r[j]) in Keys(rest, key);
          } else {
            assert r[i] == rest[i - 1] && r[j] == rest[j - 1];
          }
        }
      }
    }
  }

  /** A subsequence of the tail of `ys` is a subsequence of `ys`. */
  lemma SubsequenceOfTail<T>(xs: seq<T>, ys: seq<T>)
    requires |ys| > 0 && IsSubsequence(xs, ys[1..])
    ensures IsSubsequence(xs, ys)
  {
  }

  /** The first record of every key survives, unless its key was seen before. */
  lemma {:induction false} FirstOfKeySurvives<T, K>(xs: seq<T>, key: T -> K, seen: set<K>, i: int)
    requires 0 <= i < |xs| && FirstOfKey(xs, key, i) && key(xs[i]) !in seen
    ensures xs[i] in KeepFirstFrom(xs, key, seen)
  {
    if i > 0 {
      assert xs[1..][i - 1] == xs[i];
      var seen' := if key(xs[0]) in seen then seen else seen + {key(xs[0])};
      assert key(xs[0]) != key(xs[i]);
      FirstOfKeySurvives(xs[1..], key, seen', i - 1);
    }
  }

  /** `KeepFirstBy` keeps exactly the first record of each key. */
  lemma FirstOfKeyKept<T, K>(xs: seq<T>, key: T -> K, i: int)
    requires 0 <= i < |xs| && FirstOfKey(xs, key, i)
    ensures xs[i] in KeepFirstBy(xs, key)
  {
    FirstOfKeySurvives(xs, key, {}, i);
  }

  /** Records whose keys are already distinct (and unseen) all survive, in order. */
  lemma {:induction false} KeepFirstFromDistinct<T, K>(xs: seq<T>, key: T -> K, seen: set<K>)
    requires DistinctKeys(xs, key)
    requires forall i :: 0 <= i < |xs| ==> key(xs[i]) !in seen
    ensures KeepFirstFrom(xs, key, seen) == xs
  {
    if |xs| > 0 {
      assert forall i :: 1 <= i < |xs| ==> key(xs[i]) != key(xs[0]);
      KeepFirstFromDistinct(xs[1..], key, seen + {key(xs[0])});
    }
  }

  /** Deduplicating twice is deduplicating once. */
  lemma KeepFirstByIdempotent<T, K>(xs: seq<T>, key: T -> K)
    ensures KeepFirstBy(KeepFirstBy(xs, key), key) == KeepFirstBy(xs, key)
  {
    KeepFirstFromDistinct(KeepFirstBy(xs, key), key, {});
  }

  /** Rearranging the records does not change their keys. */
  lemma KeysOfRearrangement<T, K>(xs: seq<T>, ys: seq<T>, key: T -> K)
    requires multiset(xs) == multiset(ys)
    ensures Keys(xs, key) == Keys(ys, key)
  {
    forall k | k in Keys(xs, key)
      ensures k in Keys(ys, key)
    {
      var i :| 0 <= i < |xs| && key(xs[i]) == k;
      assert xs[i] in multiset(ys);
      var j :| 0 <= j < |ys| && ys[j] == xs[i];
    }
    forall k | k in Keys(ys, key)
      ensures k in Keys(xs, key)
    {
      var j :| 0 <= j < |ys| && key(ys[j]) == k;
      assert ys[j] in multiset(xs);
      var i :| 0 <= i < |xs| && xs[i] == ys[j];
    }
  }

  // ---------------------------------------------------------------------------
  // keep='last'
  // ---------------------------------------------------------------------------

  function Reverse<T>(xs: seq<T>): (r: seq<T>)
    ensures |r| == |xs|
    ensures forall k :: 0 <= k < |xs| ==> r[k] == xs[|xs| - 1 - k]
  {
    if |xs| == 0 then [] else Reverse(xs[1..]) + [xs[0]]
  }

  /** `xs[i]` is the last record of `xs` with its key. */
  predicate LastOfKey<T, K(==)>(xs: seq<T>, key: T -> K, i: int)
    requires 0 <= i < |xs|
  {
    forall j :: i < j < |xs| ==> key(xs[j]) != key(xs[i])
  }

  /** `drop_duplicates(keep='last')`: the last record of every key, in the original order. */
  function KeepLastBy<T, K(==)>(xs: seq<T>, key: T -> K): (r: seq<T>)
    ensures |r| <= |xs|
    ensures forall y :: y in r ==> y in xs
    ensures IsSubsequence(r, xs)
    ensures DistinctKeys(r, key)
    ensures Keys(r, key) == Keys(xs, key)
  {
    var kept := KeepFirstBy(Reverse(xs), key);
    ReverseSubsequence(kept, Reverse(xs));
    ReverseReverse(xs);
    ReverseMembers(kept);
    ReverseMembers(xs);
    ReverseDistinctKeys(kept, key);
    ReverseKeys(kept, key);
    ReverseKeys(xs, key);
    Reverse(kept)
  }

  lemma ReverseReverse<T>(xs: seq<T>)
    ensures Reverse(Reverse(xs)) == xs
  {
  }

  /** Dropping elements commutes with reversing. */
  lemma {:induction false} ReverseSubsequence<T>(xs: seq<T>, ys: seq<T>)
    requires IsSubsequence(xs, ys)
    ensures IsSubsequence(Reverse(xs), Reverse(ys))
    decreases |ys|
  {
    if |xs| > 0 {
      assert Reverse(ys) == Reverse(ys[1..]) + [ys[0]];
      if xs[0] == ys[0] && IsSubsequence(xs[1..], ys[1..]) {
        ReverseSubsequence(xs[1..], ys[1..]);
        assert Reverse(xs) == Reverse(xs[1..]) + [xs[0]];
        SubsequenceSnoc(Reverse(xs[1..]), Reverse(ys[1..]), xs[0]);
      } else {
        ReverseSubsequence(xs, ys[1..]);
        SubsequenceExtend(Reverse(xs), Reverse(ys[1..]), ys[0]);
      }
    }
  }

  /** A subsequence of `ys` is one of `ys + [z]`. */
  lemma {:induction false} SubsequenceExtend<T>(xs: seq<T>, ys: seq<T>, z: T)
    requires IsSubsequence(xs, ys)
    ensures IsSubsequence(xs, ys + [z])
    decreases |ys|
  {
    if |xs| > 0 {
      var yz := ys + [z];
      assert yz[0] == ys[0] && yz[1..] == ys[1..] + [z];
      if xs[0] == ys[0] && IsSubsequence(xs[1..], ys[1..]) {
        SubsequenceExtend(xs[1..], ys[1..], z);
      } else {
        SubsequenceExtend(xs, ys[1..], z);
      }
    }
  }

  /** Appending the same element to both keeps a subsequence. */
  lemma {:induction false} SubsequenceSnoc<T>(xs: seq<T>, ys: seq<T>, z: T)
    requires IsSubsequence(xs, ys)
    ensures IsSubsequence(xs + [z], ys + [z])
    decreases |ys|
  {
    var xz, yz := xs + [z], ys + [z];
    if |ys| == 0 {
      assert xs == [] && xz == yz && xz[1..] == [];
    } else {
      assert yz[0] == ys[0] && yz[1..] == ys[1..] + [z];
      if |xs| > 0 && xs[0] == ys[0] && IsSubsequence(xs[1..], ys[1..]) {
        SubsequenceSnoc(xs[1..], ys[1..], z);
        assert xz[0] == xs[0] && xz[1..] == xs[1..] + [z];
      } else if |xs| > 0 {
        SubsequenceSnoc(xs, ys[1..], z);
      } else {
        SubsequenceSnoc(xs, ys[1..], z);
      }
    }
  }

  lemma ReverseMembers<T>(xs: seq<T>)
    ensures forall y :: y in Reverse(xs) <==> y in xs
  {
    var r := Reverse(xs);
    forall y | y in r
      ensures y in xs
    {
      var k :| 0 <= k < |r| && r[k] == y;
    }
    forall y | y in xs
      ensures y in r
    {
      var k :| 0 <= k < |xs| && xs[k] == y;
      assert r[|xs| - 1 - k] == y;
    }
  }

  lemma ReverseDistinctKeys<T, K>(xs: seq<T>, key: T -> K)
    requires DistinctKeys(xs, key)
    ensures DistinctKeys(Reverse(xs), key)
  {
    var r := Reverse(xs);
    forall i, j | 0 <= i < j < |r|
      ensures key(r[i]) != key(r[j])
    {
      assert r[i] == xs[|xs| - 1 - i] && r[j] == xs[|xs| - 1 - j];
    }
  }

  lemma ReverseKeys<T, K>(xs: seq<T>, key: T -> K)
    ensures Keys(Reverse(xs), key) == Keys(xs, key)
  {
    var r := Reverse(xs);
    forall k | k in Keys(xs, key)
      ensures k in Keys(r, key)
    {
      var i :| 0 <= i < |xs| && key(xs[i]) == k;
      assert r[|xs| - 1 - i] == xs[i];
    }
  }

  /** The last record of every key survives `KeepLastBy`. */
  lemma LastOfKeyKept<T, K>(xs: seq<T>, key: T -> K, i: int)
    requires 0 <= i < |xs| && LastOfKey(xs, key, i)
    ensures xs[i] in KeepLastBy(xs, key)
  {
    var rev := Reverse(xs);
    var m := |xs| - 1 - i;
    assert rev[m] == xs[i];
    assert forall j :: 0 <= j < m ==> rev[j] == xs[|xs| - 1 - j];
    assert FirstOfKey(rev, key, m);
    FirstOfKeyKept(rev, key, m);
    var kept := KeepFirstBy(rev, key);
    var k :| 0 <= k < |kept| && kept[k] == xs[i];
    assert Reverse(kept)[|kept| - 1 - k] == xs[i];
  }

  /** A rearrangement of records with distinct keys still has distinct keys. */
  lemma PermutationKeepsDistinctKeys<T, K>(xs: seq<T>, ys: seq<T>, key: T -> K)
    requires DistinctKeys(xs, key) && multiset(xs) == multiset(ys)
    ensures DistinctKeys(ys, key)
    ensures forall y :: y in ys ==> y in xs
  {
    forall y | y in ys
      ensures y in xs
    {
      assert y in multiset(ys);
    }
    forall i, j | 0 <= i < j < |ys|
      ensures key(ys[i]) != key(ys[j])
    {
      if key(ys[i]) == key(ys[j]) {
        assert ys[i] in multiset(xs) && ys[j] in multiset(xs);
        var a :| 0 <= a < |xs| && xs[a] == ys[i];
        var b :| 0 <= b < |xs| && xs[b] == ys[j];
        if ys[i] == ys[j] {
          MultisetCountTwo(ys, i, j);
          DistinctKeysCountOne(xs, key, a);
        }
      }
    }
  }

  lemma {:induction false} MultisetCountTwo<T>(s: seq<T>, i: int, j: int)
    requires 0 <= i < j < |s| && s[i] == s[j]
    ensures multiset(s)[s[i]] >= 2
  {
    assert s == s[..i] + [s[i]] + s[i + 1..j] + [s[j]] + s[j + 1..];
  }

  lemma {:induction false} DistinctKeysCountOne<T, K>(xs: seq<T>, key: T -> K, a: int)
    requires DistinctKeys(xs, key) && 0 <= a < |xs|
    ensures multiset(xs)[xs[a]] <= 1
    decreases |xs|
  {
    if |xs| > 1 {
      var last := |xs| - 1;
      var init := xs[..last];
      assert xs == init + [xs[last]];
      assert DistinctKeys(init, key) by {
        forall p, q | 0 <= p < q < |init|
          ensures key(init[p]) != key(init[q])
        {
          assert init[p] == xs[p] && init[q] == xs[q];
        }
      }
      if a < last {
        DistinctKeysCountOne(init, key, a);
        assert init[a] == xs[a];
        assert key(xs[a]) != key(xs[last]);
      } else {
        assert xs[a] !in init by {
          forall p | 0 <= p < |init|
            ensures init[p] != xs[a]
          {
            assert init[p] == xs[p];
          }
        }
      }
    }
  }
}
