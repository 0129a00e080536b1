/** Sums over append-only tables, grouped sums, and the regrouping law that lets a total
    be read either row by row or key by key. */
module Sums {

  function Sum<T>(s: seq<T>, val: T -> int): int {
    if s == [] then 0 else Sum(s[..|s| - 1], val) + val(s[|s| - 1])
  }

  /** The sum of `val` over the rows of `s` whose key is `k`: a filtered SQL `sum`. */
  function SumAt<T, K(==)>(s: seq<T>, key: T -> K, val: T -> int, k: K): int {
    if s == [] then 0
    else SumAt(s[..|s| - 1], key, val, k) + if key(s[|s| - 1]) == k then val(s[|s| - 1]) else 0
  }

  /** The grouped sums of `s`, added up over the keys `ks`. */
  function SumGroups<T, K(==)>(s: seq<T>, key: T -> K, val: T -> int, ks: seq<K>): int {
    if ks == [] then 0
    else SumGroups(s, key, val, ks[..|ks| - 1]) + SumAt(s, key, val, ks[|ks| - 1])
  }

  ghost predicate Distinct<K>(ks: seq<K>) {
    forall i, j :: 0 <= i < j < |ks| ==> ks[i] != ks[j]
  }

  lemma SumSnoc<T>(s: seq<T>, x: T, val: T -> int)
    ensures Sum(s + [x], val) == Sum(s, val) + val(x)
  {
    assert (s + [x])[..|s|] == s;
  }

  lemma SumAtSnoc<T, K>(s: seq<T>, x: T, key: T -> K, val: T -> int, k: K)
    ensures SumAt(s + [x], key, val, k) == SumAt(s, key, val, k) + if key(x) == k then val(x) else 0
  {
    assert (s + [x])[..|s|] == s;
  }

  lemma {:induction false} SumConcat<T>(s: seq<T>, t: seq<T>, val: T -> int)
    ensures Sum(s + t, val) == Sum(s, val) + Sum(t, val)
  {
    if t == [] {
      assert s + t == s;
    } else {
      var t', x := t[..|t| - 1], t[|t| - 1];
      assert s + t == (s + t') + [x];
      SumConcat(s, t', val);
      SumSnoc(s + t', x, val);
    }
  }

  lemma {:induction false} SumAtConcat<T, K>(s: seq<T>, t: seq<T>, key: T -> K, val: T -> int, k: K)
    ensures SumAt(s + t, key, val, k) == SumAt(s, key, val, k) + SumAt(t, key, val, k)
  {
    if t == [] {
      assert s + t == s;
    } else {
      var t', x := t[..|t| - 1], t[|t| - 1];
      assert s + t == (s + t') + [x];
      SumAtConcat(s, t', key, val, k);
      SumAtSnoc(s + t', x, key, val, k);
    }
  }

  /** One more row changes the grouped total by its value exactly when its key is listed. */
  lemma {:induction false} SumGroupsSnoc<T, K>(s: seq<T>, x: T, key: T -> K, val: T -> int, ks: seq<K>)
    requires Distinct(ks)
    ensures SumGroups(s + [x], key, val, ks)
         == SumGroups(s, key, val, ks) + if key(x) in ks then val(x) else 0
  {
    if ks != [] {
      var ks', k := ks[..|ks| - 1], ks[|ks| - 1];
      assert ks == ks' + [k];
      SumGroupsSnoc(s, x, key, val, ks');
      SumAtSnoc(s, x, key, val, k);
      assert k !in ks';
    }
  }

  lemma {:induction false} SumGroupsEmpty<T, K>(key: T -> K, val: T -> int, ks: seq<K>)
    ensures SumGroups([], key, val, ks) == 0
  {
    if ks != [] {
      SumGroupsEmpty(key, val, ks[..|ks| - 1]);
    }
  }

  /** Regrouping: over any duplicate-free list of keys that covers every row with a non-zero
      value, the grouped sums add up to the plain total. */
  lemma {:induction false} Regroup<T, K>(s: seq<T>, key: T -> K, val: T -> int, ks: seq<K>)
    requires Distinct(ks)
    requires forall x :: x in s && val(x) != 0 ==> key(x) in ks
    ensures SumGroups(s, key, val, ks) == Sum(s, val)
  {
    if s == [] {
      SumGroupsEmpty(key, val, ks);
    } else {
      var s', x := s[..|s| - 1], s[|s| - 1];
      assert s == s' + [x];
      Regroup(s', key, val, ks);
      SumGroupsSnoc(s', x, key, val, ks);
    }
  }

  lemma {:induction false} SumAtAbsent<T, K>(s: seq<T>, key: T -> K, val: T -> int, k: K)
    requires forall x :: x in s ==> key(x) != k
    ensures SumAt(s, key, val, k) == 0
  {
    if s != [] {
      SumAtAbsent(s[..|s| - 1], key, val, k);
    }
  }

  lemma {:induction false} SumAtNonNegative<T, K>(s: seq<T>, key: T -> K, val: T -> int, k: K)
    requires forall x :: x in s ==> val(x) >= 0
    ensures SumAt(s, key, val, k) >= 0
  {
    if s != [] {
      SumAtNonNegative(s[..|s| - 1], key, val, k);
    }
  }
}
