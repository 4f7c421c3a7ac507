/** Vocabulary shared by the modules: options, real extrema, counter maps and their totals. */
module Common {

  datatype Option<+T> = None | Some(value: T)

  function MinR(a: real, b: real): real { if a <= b then a else b }

  function MaxR(a: real, b: real): real { if a >= b then a else b }

  /** `int(x) or 1`. */
  function OrOne(x: int): int { if x == 0 then 1 else x }

  /** `s or None`. */
  function NonEmpty(s: string): Option<string> { if s == "" then None else Some(s) }

  /** The first colon cuts a string in one way only. */
  lemma {:induction false} CutAtColon(a: string, b: string, x: string, y: string)
    requires a + ":" + x == b + ":" + y && ':' !in a && ':' !in b
    ensures a == b && x == y
    decreases |a|
  {
    var whole := a + ":" + x;
    assert whole[0] == if a == "" then ':' else a[0];
    assert whole[0] == if b == "" then ':' else b[0];
    if a == "" {
      assert x == whole[1..] && y == whole[1..];
    } else {
      assert whole[1..] == a[1..] + ":" + x && whole[1..] == b[1..] + ":" + y;
      CutAtColon(a[1..], b[1..], x, y);
    }
  }

  /** The `n`-th of a supply of names, told apart by their length. */
  function Unary(n: nat): (name: string)
    ensures |name| == n + 1
  {
    if n == 0 then "m" else Unary(n - 1) + "m"
  }

  /** Python's `d.get(k, 0)` on a dictionary of counters. */
  function Count<K>(m: map<K, nat>, k: K): nat { if k in m then m[k] else 0 }

  /** Python's `d[k] = d.get(k, 0) + 1`. */
  function Bump<K>(m: map<K, nat>, k: K): map<K, nat> { m[k := Count(m, k) + 1] }

  lemma BumpCounts<K>(m: map<K, nat>, k: K, q: K)
    ensures Count(Bump(m, k), q) == Count(m, q) + (if q == k then 1 else 0)
  {}

  /** The sum of all counters, whatever order they are visited in (see TotalUpdate). */
  ghost function Total<K(!new)>(m: map<K, nat>): nat
    decreases |m|
  {
    if m == map[] then 0
    else
      var k :| k in m;
      m[k] + Total(m - {k})
  }

  lemma {:induction false} TotalWithout<K(!new)>(m: map<K, nat>, k: K)
    requires k in m
    ensures Total(m) == m[k] + Total(m - {k})
    decreases |m|
  {
    var c :| c in m && Total(m) == m[c] + Total(m - {c});
    if c != k {
      TotalWithout(m - {c}, k);
      TotalWithout(m - {k}, c);
      assert (m - {c}) - {k} == (m - {k}) - {c};
    }
  }

  lemma TotalBump<K(!new)>(m: map<K, nat>, k: K)
    ensures Total(Bump(m, k)) == Total(m) + 1
  {
    var b := Bump(m, k);
    TotalWithout(b, k);
    assert b - {k} == m - {k};
    if k in m {
      TotalWithout(m, k);
    } else {
      assert m - {k} == m;
    }
  }

  /** The sum of the values of a map into the reals. */
  ghost function Sum<K(!new)>(m: map<K, real>): real
    decreases |m|
  {
    if m == map[] then 0.0
    else
      var k :| k in m;
      m[k] + Sum(m - {k})
  }

  lemma {:induction false} SumWithout<K(!new)>(m: map<K, real>, k: K)
    requires k in m
    ensures Sum(m) == m[k] + Sum(m - {k})
    decreases |m|
  {
    var c :| c in m && Sum(m) == m[c] + Sum(m - {c});
    if c != k {
      SumWithout(m - {c}, k);
      SumWithout(m - {k}, c);
      assert (m - {c}) - {k} == (m - {k}) - {c};
    }
  }

  lemma SumAdd<K(!new)>(m: map<K, real>, k: K, v: real)
    requires k !in m
    ensures Sum(m[k := v]) == Sum(m) + v
  {
    SumWithout(m[k := v], k);
    assert m[k := v] - {k} == m;
  }

  /** A sum of at most `n` values, each in [0, top], lies in [0, n * top]. */
  lemma {:induction false} SumBounds<K(!new)>(m: map<K, real>, top: real, n: nat)
    requires forall k | k in m :: 0.0 <= m[k] <= top
    requires |m| <= n && 0.0 <= top
    ensures 0.0 <= Sum(m) <= Times(n, top)
    decreases |m|
  {
    hide Times;
    TimesGrows(n, top);
    if m != map[] {
      var k :| k in m && Sum(m) == m[k] + Sum(m - {k});
      assert |m - {k}| == |m| - 1 by { SizeWithout(m, k); }
      SumBounds(m - {k}, top, n - 1);
    }
  }

  function Times(n: nat, x: real): real { n as real * x }

  lemma TimesGrows(n: nat, x: real)
    requires 0.0 <= x
    ensures 0.0 <= Times(n, x)
    ensures n > 0 ==> Times(n, x) == Times(n - 1, x) + x
  {}

  lemma SizeWithout<K, V>(m: map<K, V>, k: K)
    requires k in m
    ensures |m - {k}| == |m| - 1
  {
    assert (m - {k}).Keys == m.Keys - {k};
  }
}
