// Finite sums over sequences and maps.

module Sums {

  function Sum(s: seq<int>): int {
    if s == [] then 0 else s[0] + Sum(s[1..])
  }

  function SumR(s: seq<real>): real {
    if s == [] then 0.0 else s[0] + SumR(s[1..])
  }

  lemma {:induction false} SumAppend(a: seq<int>, b: seq<int>)
    ensures Sum(a + b) == Sum(a) + Sum(b)
  {
    if a == [] {
      assert a + b == b;
    } else {
      SumAppend(a[1..], b);
      assert (a + b)[1..] == a[1..] + b;
    }
  }

  lemma {:induction false} SumUpdate(s: seq<int>, i: nat, v: int)
    requires i < |s|
    ensures Sum(s[i := v]) == Sum(s) - s[i] + v
  {
    if i > 0 {
      SumUpdate(s[1..], i - 1, v);
      assert s[i := v][1..] == s[1..][i - 1 := v];
    } else {
      assert s[i := v][1..] == s[1..];
    }
  }

  lemma {:induction false} SumDiff(a: seq<int>, b: seq<int>, d: seq<int>)
    requires |a| == |b| == |d|
    requires forall i :: 0 <= i < |a| ==> d[i] == a[i] - b[i]
    ensures Sum(d) == Sum(a) - Sum(b)
  {
    if a != [] {
      SumDiff(a[1..], b[1..], d[1..]);
    }
  }

  lemma {:induction false} SumZero(s: seq<int>)
    requires forall i :: 0 <= i < |s| ==> s[i] == 0
    ensures Sum(s) == 0
  {
    if s != [] {
      SumZero(s[1..]);
    }
  }

  // Two sequences ordered pointwise with equal sums are equal.
  lemma {:induction false} SumSqueeze(a: seq<nat>, b: seq<nat>)
    requires |a| == |b|
    requires forall i :: 0 <= i < |a| ==> a[i] <= b[i]
    ensures Sum(a) <= Sum(b)
    ensures Sum(a) == Sum(b) ==> a == b
  {
    if a != [] {
      SumSqueeze(a[1..], b[1..]);
      assert Sum(a) == Sum(b) ==> a == [a[0]] + a[1..] && b == [b[0]] + b[1..];
    }
  }

  lemma {:induction false} SumRAppend(a: seq<real>, b: seq<real>)
    ensures SumR(a + b) == SumR(a) + SumR(b)
  {
    if a == [] {
      assert a + b == b;
    } else {
      SumRAppend(a[1..], b);
      assert (a + b)[1..] == a[1..] + b;
    }
  }

  lemma {:induction false} SumRUpdate(s: seq<real>, i: nat, v: real)
    requires i < |s|
    ensures SumR(s[i := v]) == SumR(s) - s[i] + v
  {
    if i > 0 {
      SumRUpdate(s[1..], i - 1, v);
      assert s[i := v][1..] == s[1..][i - 1 := v];
    } else {
      assert s[i := v][1..] == s[1..];
    }
  }

  /** The sum of `f(k, v)` over the entries of a finite map. */
  ghost function SumMap<K, V>(m: map<K, V>, f: (K, V) -> real): real
    decreases |m|
  {
    if m == map[] then 0.0 else
      var k := Pick(m);
      f(k, m[k]) + SumMap(m - {k}, f)
  }

  ghost function Pick<K, V>(m: map<K, V>): (k: K)
    requires m != map[]
    ensures k in m
  {
    assert m.Keys != {};
    var k :| k in m.Keys;
    k
  }

  // Any key may be peeled off first.
  lemma {:induction false} SumMapRemove<K, V>(m: map<K, V>, f: (K, V) -> real, k: K)
    requires k in m
    ensures SumMap(m, f) == f(k, m[k]) + SumMap(m - {k}, f)
    decreases |m|
  {
    var p := Pick(m);
    if p != k {
      var both := m - {p, k};
      assert (m - {p}) - {k} == both && (m - {k}) - {p} == both;
      assert |m - {p}| < |m| && |m - {k}| < |m| by {
        assert m.Keys == (m - {p}).Keys + {p};
        assert m.Keys == (m - {k}).Keys + {k};
      }
      SumMapRemove(m - {p}, f, k);
      SumMapRemove(m - {k}, f, p);
    }
  }

  lemma SumMapUpdate<K, V>(m: map<K, V>, f: (K, V) -> real, k: K, v: V)
    ensures SumMap(m[k := v], f)
         == SumMap(m, f) + f(k, v) - if k in m then f(k, m[k]) else 0.0
  {
    SumMapRemove(m[k := v], f, k);
    assert m[k := v] - {k} == m - {k};
    if k in m {
      SumMapRemove(m, f, k);
    } else {
      assert m - {k} == m;
    }
  }

  function ReadAt<K, V>(m: map<K, V>, f: (K, V) -> real, keys: seq<K>): (r: seq<real>)
    requires forall i :: 0 <= i < |keys| ==> keys[i] in m
    ensures |r| == |keys| && forall i :: 0 <= i < |r| ==> r[i] == f(keys[i], m[keys[i]])
  {
    seq(|keys|, i requires 0 <= i < |keys| => f(keys[i], m[keys[i]]))
  }

  // Distinct keys that leave out only zeros carry the whole sum.
  lemma {:induction false} SumMapKeys<K, V>(m: map<K, V>, f: (K, V) -> real, keys: seq<K>)
    requires forall i, j :: 0 <= i < j < |keys| ==> keys[i] != keys[j]
    requires forall i :: 0 <= i < |keys| ==> keys[i] in m
    requires forall k :: k in m && k !in keys ==> f(k, m[k]) == 0.0
    ensures SumR(ReadAt(m, f, keys)) == SumMap(m, f)
    decreases keys
  {
    hide SumMap;
    if keys == [] {
      SumMapZero(m, f);
    } else {
      var k, rest := keys[0], keys[1..];
      assert keys == [k] + rest;
      SumMapRemove(m, f, k);
      SumMapKeys(m - {k}, f, rest);
      assert ReadAt(m, f, keys)[1..] == ReadAt(m - {k}, f, rest);
    }
  }

  // Two functions that agree on every entry have the same sum.
  lemma {:induction false} SumMapCong<K, V, W>(m: map<K, V>, f: (K, V) -> real, n: map<K, W>, g: (K, W) -> real)
    requires m.Keys == n.Keys
    requires forall k :: k in m ==> f(k, m[k]) == g(k, n[k])
    ensures SumMap(m, f) == SumMap(n, g)
    decreases |m|
  {
    if m == map[] {
      assert n.Keys == {};
      assert n == map[];
    } else {
      var k := Pick(m);
      SumMapRemove(n, g, k);
      assert m.Keys == (m - {k}).Keys + {k};
      SumMapCong(m - {k}, f, n - {k}, g);
    }
  }

  // The sum of a pointwise sum is the sum of the sums.
  lemma {:induction false} SumMapAdd<K, V>(m: map<K, V>, f: (K, V) -> real, g: (K, V) -> real, h: (K, V) -> real)
    requires forall k :: k in m ==> h(k, m[k]) == f(k, m[k]) + g(k, m[k])
    ensures SumMap(m, h) == SumMap(m, f) + SumMap(m, g)
    decreases |m|
  {
    if m != map[] {
      var k := Pick(m);
      assert m.Keys == (m - {k}).Keys + {k};
      SumMapAdd(m - {k}, f, g, h);
    }
  }

  lemma {:induction false} SumMapZero<K, V>(m: map<K, V>, f: (K, V) -> real)
    requires forall k :: k in m ==> f(k, m[k]) == 0.0
    ensures SumMap(m, f) == 0.0
    decreases |m|
  {
    if m != map[] {
      var k := Pick(m);
      assert m.Keys == (m - {k}).Keys + {k};
      SumMapZero(m - {k}, f);
    }
  }

  function Times(a: real, b: real): real {
    a * b
  }

  lemma TimesAdds(a: real, b: real, c: real)
    ensures Times(a + b, c) == Times(a, c) + Times(b, c)
    ensures Times(0.0, c) == 0.0
  {}

  lemma {:induction false} SumMapScale<K, V>(m: map<K, V>, f: (K, V) -> real, g: (K, V) -> real, c: real)
    requires forall k :: k in m ==> g(k, m[k]) == Times(f(k, m[k]), c)
    ensures SumMap(m, g) == Times(SumMap(m, f), c)
    decreases |m|
  {
    hide Times;
    TimesAdds(0.0, 0.0, c);
    if m != map[] {
      var k := Pick(m);
      assert m.Keys == (m - {k}).Keys + {k};
      SumMapScale(m - {k}, f, g, c);
      TimesAdds(f(k, m[k]), SumMap(m - {k}, f), c);
    }
  }
}
