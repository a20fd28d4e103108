/**
 * The stable descending sort behind `Array.prototype.sort` with a comparator
 * that orders by a two-part key, largest first.  JavaScript's sort is stable,
 * so elements with equal keys keep their input order; the insertion sort
 * below is the reference definition of that result.
 */
module Sorting {

  /** A sort key compared lexicographically: `major` first, then `minor`. */
  datatype Key = Key(major: int, minor: int)

  /** `a` may come before `b` in a descending order. */
  predicate AtLeast(a: Key, b: Key) {
    a.major > b.major || (a.major == b.major && a.minor >= b.minor)
  }

  predicate SortedDesc<T>(s: seq<T>, key: T -> Key) {
    forall i, j :: 0 <= i < j < |s| ==> AtLeast(key(s[i]), key(s[j]))
  }

  /** The elements of `s` whose key is `k`, in their order in `s`. */
  function WithKey<T>(s: seq<T>, key: T -> Key, k: Key): (r: seq<T>)
    ensures |r| <= |s|
    ensures forall i :: 0 <= i < |r| ==> key(r[i]) == k
    decreases |s|
  {
    if |s| == 0 then []
    else if key(s[|s| - 1]) == k then WithKey(s[..|s| - 1], key, k) + [s[|s| - 1]]
    else WithKey(s[..|s| - 1], key, k)
  }

  /** Inserts `x` after every element whose key is at least `x`'s. */
  function Insert<T>(x: T, t: seq<T>, key: T -> Key): (r: seq<T>)
    ensures |r| == |t| + 1
    decreases |t|
  {
    if |t| == 0 then [x]
    else if AtLeast(key(t[0]), key(x)) then [t[0]] + Insert(x, t[1..], key)
    else [x] + t
  }

  /** The stable descending sort of `s` by `key`. */
  function SortDesc<T>(s: seq<T>, key: T -> Key): (r: seq<T>)
    ensures |r| == |s|
    decreases |s|
  {
    if |s| == 0 then [] else Insert(s[|s| - 1], SortDesc(s[..|s| - 1], key), key)
  }

  lemma {:induction false} InsertPerm<T>(x: T, t: seq<T>, key: T -> Key)
    ensures multiset(Insert(x, t, key)) == multiset(t) + multiset{x}
    decreases |t|
  {
    if |t| > 0 && AtLeast(key(t[0]), key(x)) {
      InsertPerm(x, t[1..], key);
      assert t == [t[0]] + t[1..];
    }
  }

  lemma {:induction false} InsertSorted<T>(x: T, t: seq<T>, key: T -> Key)
    requires SortedDesc(t, key)
    ensures SortedDesc(Insert(x, t, key), key)
    decreases |t|
  {
    if |t| > 0 && AtLeast(key(t[0]), key(x)) {
      InsertSorted(x, t[1..], key);
      InsertPerm(x, t[1..], key);
      var r := Insert(x, t, key);
      var rest := Insert(x, t[1..], key);
      assert r == [t[0]] + rest;
      forall j | 1 <= j < |r|
        ensures AtLeast(key(r[0]), key(r[j]))
      {
        assert r[j] in multiset(rest);
        assert r[j] in multiset(t[1..]) + multiset{x};
        if r[j] in multiset(t[1..]) {
          var k :| 0 <= k < |t[1..]| && t[1..][k] == r[j];
          assert t[k + 1] == r[j];
        }
      }
    }
  }

  /** The result is ordered by key, largest first. */
  lemma {:induction false} SortDescSorted<T>(s: seq<T>, key: T -> Key)
    ensures SortedDesc(SortDesc(s, key), key)
    decreases |s|
  {
    if |s| > 0 {
      SortDescSorted(s[..|s| - 1], key);
      InsertSorted(s[|s| - 1], SortDesc(s[..|s| - 1], key), key);
    }
  }

  /** The result is a rearrangement of the input. */
  lemma {:induction false} SortDescPerm<T>(s: seq<T>, key: T -> Key)
    ensures multiset(SortDesc(s, key)) == multiset(s)
    decreases |s|
  {
    if |s| > 0 {
      SortDescPerm(s[..|s| - 1], key);
      InsertPerm(s[|s| - 1], SortDesc(s[..|s| - 1], key), key);
      assert s == s[..|s| - 1] + [s[|s| - 1]];
    }
  }

  lemma {:induction false} WithKeyAppend<T>(a: seq<T>, b: seq<T>, key: T -> Key, k: Key)
    ensures WithKey(a + b, key, k) == WithKey(a, key, k) + WithKey(b, key, k)
    decreases |b|
  {
    if |b| > 0 {
      assert (a + b)[..|a + b| - 1] == a + b[..|b| - 1];
      WithKeyAppend(a, b[..|b| - 1], key, k);
    } else {
      assert a + b == a;
    }
  }

  lemma WithKeySingle<T>(x: T, key: T -> Key, k: Key)
    ensures WithKey([x], key, k) == if key(x) == k then [x] else []
  {
    assert [x][..0] == [];
  }

  /** Every element with key `k` in a descending `t` sits before any element
    * whose key is below `key(x)`, so inserting `x` appends it to the run of
    * its own key. */
  lemma {:induction false} InsertStable<T>(x: T, t: seq<T>, key: T -> Key, k: Key)
    requires SortedDesc(t, key)
    ensures WithKey(Insert(x, t, key), key, k) == WithKey(t + [x], key, k)
    decreases |t|
  {
    if |t| == 0 {
    } else if AtLeast(key(t[0]), key(x)) {
      var rest := t[1..];
      InsertStable(x, rest, key, k);
      assert t == [t[0]] + rest;
      WithKeyAppend([t[0]], Insert(x, rest, key), key, k);
      WithKeyAppend([t[0]], rest + [x], key, k);
      assert t + [x] == [t[0]] + (rest + [x]);
    } else {
      // x's key is above t[0]'s, so above every key in t: no element of t has x's key
      assert forall i :: 0 <= i < |t| ==> key(t[i]) != key(x) by {
        forall i | 0 <= i < |t| ensures key(t[i]) != key(x) {
          if i > 0 {
            assert AtLeast(key(t[0]), key(t[i]));
          }
        }
      }
      WithKeyAppend([x], t, key, k);
      WithKeyAppend(t, [x], key, k);
      WithKeySingle(x, key, k);
      if key(x) == k {
        WithKeyNone(t, key, k);
      }
    }
  }

  lemma {:induction false} WithKeyNone<T>(s: seq<T>, key: T -> Key, k: Key)
    requires forall i :: 0 <= i < |s| ==> key(s[i]) != k
    ensures WithKey(s, key, k) == []
    decreases |s|
  {
    if |s| > 0 {
      WithKeyNone(s[..|s| - 1], key, k);
    }
  }

  /** Stability: for every key, the elements with that key appear in the
    * output in the same order as in the input. */
  lemma {:induction false} SortDescStable<T>(s: seq<T>, key: T -> Key, k: Key)
    ensures WithKey(SortDesc(s, key), key, k) == WithKey(s, key, k)
    decreases |s|
  {
    if |s| > 0 {
      var p := s[..|s| - 1];
      var x := s[|s| - 1];
      SortDescStable(p, key, k);
      SortDescSorted(p, key);
      InsertStable(x, SortDesc(p, key), key, k);
      WithKeyAppend(SortDesc(p, key), [x], key, k);
      WithKeyAppend(p, [x], key, k);
      assert s == p + [x];
    }
  }

  predicate NoDup<T(==)>(s: seq<T>) {
    forall i, j :: 0 <= i < j < |s| ==> s[i] != s[j]
  }

  /** The result holds the same elements as the input. */
  lemma SortDescMembers<T>(s: seq<T>, key: T -> Key)
    ensures forall y :: y in SortDesc(s, key) <==> y in s
  {
    SortDescPerm(s, key);
    forall y ensures y in SortDesc(s, key) <==> y in s {
      assert y in SortDesc(s, key) <==> y in multiset(SortDesc(s, key));
      assert y in s <==> y in multiset(s);
    }
  }

  lemma {:induction false} InsertNoDup<T>(x: T, t: seq<T>, key: T -> Key)
    requires NoDup(t) && x !in t
    ensures NoDup(Insert(x, t, key))
    decreases |t|
  {
    if |t| > 0 && AtLeast(key(t[0]), key(x)) {
      var rest := t[1..];
      assert forall i, j :: 0 <= i < j < |rest| ==> rest[i] == t[i + 1] && rest[j] == t[j + 1];
      assert t[0] !in rest;
      InsertNoDup(x, rest, key);
      InsertPerm(x, rest, key);
      var ins := Insert(x, rest, key);
      assert t[0] !in ins by {
        assert t[0] !in multiset(rest) + multiset{x};
      }
      var r := [t[0]] + ins;
      forall i, j | 0 <= i < j < |r| ensures r[i] != r[j] {
        if i == 0 {
          assert r[j] == ins[j - 1];
        } else {
          assert r[i] == ins[i - 1] && r[j] == ins[j - 1];
        }
      }
    }
  }

  /** Sorting a list without repeated elements repeats none. */
  lemma {:induction false} SortDescNoDup<T>(s: seq<T>, key: T -> Key)
    requires NoDup(s)
    ensures NoDup(SortDesc(s, key))
    decreases |s|
  {
    if |s| > 0 {
      var p := s[..|s| - 1];
      assert forall i, j :: 0 <= i < j < |p| ==> p[i] == s[i] && p[j] == s[j];
      SortDescNoDup(p, key);
      SortDescMembers(p, key);
      assert s[|s| - 1] !in p;
      InsertNoDup(s[|s| - 1], SortDesc(p, key), key);
    }
  }

  /** `f` applied to every element of `s`. */
  function MapSeq<T>(s: seq<T>, f: T -> T): (r: seq<T>)
    ensures |r| == |s| && forall i :: 0 <= i < |s| ==> r[i] == f(s[i])
    decreases |s|
  {
    if |s| == 0 then [] else MapSeq(s[..|s| - 1], f) + [f(s[|s| - 1])]
  }

  /** Inserting commutes with a map that keeps every key. */
  lemma {:induction false} InsertMap<T>(x: T, t: seq<T>, key: T -> Key, f: T -> T)
    requires forall y :: key(f(y)) == key(y)
    ensures Insert(f(x), MapSeq(t, f), key) == MapSeq(Insert(x, t, key), f)
    decreases |t|
  {
    if |t| > 0 {
      assert MapSeq(t, f)[1..] == MapSeq(t[1..], f);
      if AtLeast(key(t[0]), key(x)) {
        InsertMap(x, t[1..], key, f);
        assert MapSeq([t[0]] + Insert(x, t[1..], key), f) == [f(t[0])] + MapSeq(Insert(x, t[1..], key), f);
      } else {
        assert MapSeq([x] + t, f) == [f(x)] + MapSeq(t, f);
      }
    }
  }

  /** Sorting commutes with a map that keeps every key: the order depends
    * on the keys alone. */
  lemma {:induction false} SortDescMap<T>(s: seq<T>, key: T -> Key, f: T -> T)
    requires forall y :: key(f(y)) == key(y)
    ensures SortDesc(MapSeq(s, f), key) == MapSeq(SortDesc(s, key), f)
    decreases |s|
  {
    if |s| > 0 {
      var init := s[..|s| - 1];
      assert MapSeq(s, f)[..|s| - 1] == MapSeq(init, f);
      SortDescMap(init, key, f);
      InsertMap(s[|s| - 1], SortDesc(init, key), key, f);
    }
  }
}
