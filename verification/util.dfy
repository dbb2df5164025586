/** Shared vocabulary of the model: an Option type, real-number helpers that
    stand in for Python's `abs`, `min`, `**` and `round`, and the constants the
    trading bot uses in several places. */
module Util {

  datatype Option<+T> = None | Some(value: T) {
    function GetOr(default: T): T {
      match this
      case Some(v) => v
      case None => default
    }
  }

  /** The core (long) symbol. */
  const Core: string := "BTC"

  /** A size whose absolute value does not exceed this is treated as "no position". */
  const Dust: real := 0.00000001

  /** A position whose size is more than dust. */
  predicate IsOpen(size: real) { Abs(size) > Dust }

  function Abs(x: real): (r: real)
    ensures r >= 0.0
    ensures r == x || r == -x
  {
    if x < 0.0 then -x else x
  }

  function Min(a: real, b: real): (r: real)
    ensures r <= a && r <= b
    ensures r == a || r == b
  {
    if a <= b then a else b
  }

  function Max(a: real, b: real): (r: real)
    ensures r >= a && r >= b
    ensures r == a || r == b
  {
    if a >= b then a else b
  }

  /** `base ** n` for a natural exponent. */
  function Pow(base: real, n: nat): real
  {
    if n == 0 then 1.0 else base * Pow(base, n - 1)
  }

  lemma {:induction false} PowPositive(base: real, n: nat)
    requires base > 0.0
    ensures Pow(base, n) > 0.0
  {
    if n > 0 {
      PowPositive(base, n - 1);
    }
  }

  /** `10 ** e` for any integer exponent, as Python evaluates it on floats. */
  function Pow10(e: int): (r: real)
    ensures r > 0.0
  {
    PowPositive(10.0, if e >= 0 then e else -e);
    if e >= 0 then Pow(10.0, e) else 1.0 / Pow(10.0, -e)
  }

  lemma Pow10Inverse(e: int)
    ensures Pow10(e) * Pow10(-e) == 1.0
  {
    PowPositive(10.0, if e >= 0 then e else -e);
  }

  /** Python's `round(x)` on an exact real: nearest integer, ties to even. */
  function RoundHalfEven(x: real): (n: int)
    ensures n as real - 0.5 <= x <= n as real + 0.5
    ensures x == n as real - 0.5 || x == n as real + 0.5 ==> n % 2 == 0
  {
    var f := x.Floor;
    var frac := x - f as real;
    if frac < 0.5 then f
    else if frac > 0.5 then f + 1
    else if f % 2 == 0 then f
    else f + 1
  }

  /** Any integer strictly closer than one half to `x` is the rounding of `x`. */
  lemma RoundUnique(x: real, m: int)
    requires Abs(x - m as real) < 0.5
    ensures RoundHalfEven(x) == m
  {
  }

  /** Python's `int(x)` on a float: truncation toward zero. */
  function Trunc(x: real): (n: int)
    ensures Abs(n as real) <= Abs(x) < Abs(n as real) + 1.0
    ensures n >= 0 <==> x > -1.0
  {
    if x >= 0.0 then x.Floor else -((-x).Floor)
  }

  /** The elements of `s` with later duplicates removed, first occurrence order kept
      (the key order of a Python dict built from `s`). */
  function Distinct<T(==,!new)>(s: seq<T>): (r: seq<T>)
    ensures forall x :: x in r <==> x in s
    ensures forall i, j :: 0 <= i < j < |r| ==> r[i] != r[j]
    ensures |r| <= |s|
  {
    if |s| == 0 then []
    else
      var rest := Distinct(s[..|s| - 1]);
      if s[|s| - 1] in rest then rest else rest + [s[|s| - 1]]
  }

  /** A list without repeats is its own de-duplication. */
  lemma {:induction false} DistinctOfDistinct<T(!new)>(s: seq<T>)
    requires forall i, j :: 0 <= i < j < |s| ==> s[i] != s[j]
    ensures Distinct(s) == s
  {
    if |s| > 0 {
      var p := s[..|s| - 1];
      DistinctOfDistinct(p);
      assert s[|s| - 1] !in p by {
        forall i | 0 <= i < |p| ensures p[i] != s[|s| - 1] {
          assert p[i] == s[i];
        }
      }
      assert p + [s[|s| - 1]] == s;
    }
  }

  /** One step of a loop that builds a dict: the element makes the loop raise
      (None), is skipped (Some(None)), or stores `v` under `k` (Some(Some((k, v)))). */
  predicate Stores<T, K(==), V>(f: T -> Option<Option<(K, V)>>, x: T, k: K)
  {
    f(x).Some? && f(x).value.Some? && f(x).value.value.0 == k
  }

  /** Some element of `xs` stores under `k`. */
  predicate StoredBySome<T, K(==), V>(f: T -> Option<Option<(K, V)>>, xs: seq<T>, k: K)
  {
    exists i :: 0 <= i < |xs| && Stores(f, xs[i], k)
  }

  /** The dict built by running the step `f` over `xs` from left to right; a
      later store under a key replaces an earlier one. None when any step raises. */
  function Collect<T, K(==), V>(f: T -> Option<Option<(K, V)>>, xs: seq<T>): (r: Option<map<K, V>>)
    ensures r.Some? <==> forall i :: 0 <= i < |xs| ==> f(xs[i]).Some?
  {
    if |xs| == 0 then Some(map[])
    else
      var last := xs[|xs| - 1];
      match Collect(f, xs[..|xs| - 1])
      case None => None
      case Some(m) =>
        match f(last)
        case None => None
        case Some(None) => Some(m)
        case Some(Some(kv)) => Some(m[kv.0 := kv.1])
  }

  /** The keys of the built dict are exactly the keys some element stores under. */
  lemma {:induction false} CollectKeys<T, K, V>(f: T -> Option<Option<(K, V)>>, xs: seq<T>)
    requires Collect(f, xs).Some?
    ensures forall k :: k in Collect(f, xs).value <==> StoredBySome(f, xs, k)
  {
    if |xs| > 0 {
      var p := xs[..|xs| - 1];
      CollectKeys(f, p);
      forall k | StoredBySome(f, xs, k)
        ensures k in Collect(f, xs).value
      {
        var i :| 0 <= i < |xs| && Stores(f, xs[i], k);
        if i < |xs| - 1 {
          assert xs[i] == p[i];
        }
      }
      forall k | k in Collect(f, xs).value
        ensures StoredBySome(f, xs, k)
      {
        if k in Collect(f, p).value {
          assert StoredBySome(f, p, k);
          var i :| 0 <= i < |p| && Stores(f, p[i], k);
          assert xs[i] == p[i];
        } else {
          assert Stores(f, xs[|xs| - 1], k);
        }
      }
    }
  }

  /** The value stored under a key is the one its last storing element gave. */
  lemma {:induction false} CollectLastWins<T, K, V>(f: T -> Option<Option<(K, V)>>, xs: seq<T>, i: int)
    requires Collect(f, xs).Some?
    requires 0 <= i < |xs| && f(xs[i]).Some? && f(xs[i]).value.Some?
    requires forall j :: i < j < |xs| ==> !Stores(f, xs[j], f(xs[i]).value.value.0)
    ensures f(xs[i]).value.value.0 in Collect(f, xs).value
    ensures Collect(f, xs).value[f(xs[i]).value.value.0] == f(xs[i]).value.value.1
  {
    var p := xs[..|xs| - 1];
    if i < |xs| - 1 {
      assert xs[i] == p[i];
      forall j | i < j < |p| ensures !Stores(f, p[j], f(p[i]).value.value.0) {
        assert p[j] == xs[j];
      }
      CollectLastWins(f, p, i);
      assert !Stores(f, xs[|xs| - 1], f(xs[i]).value.value.0);
    }
  }

  /** Some element of `xs` stores exactly `v` under `k`. */
  ghost predicate StoredValue<T, K, V>(f: T -> Option<Option<(K, V)>>, xs: seq<T>, k: K, v: V)
  {
    exists i :: 0 <= i < |xs| && f(xs[i]) == Some(Some((k, v)))
  }

  /** Every entry of the built dict is a store made by some element. */
  lemma {:induction false} CollectValues<T, K, V>(f: T -> Option<Option<(K, V)>>, xs: seq<T>)
    requires Collect(f, xs).Some?
    ensures forall k :: k in Collect(f, xs).value ==> StoredValue(f, xs, k, Collect(f, xs).value[k])
  {
    if |xs| > 0 {
      var p := xs[..|xs| - 1];
      CollectValues(f, p);
      forall k | k in Collect(f, xs).value
        ensures StoredValue(f, xs, k, Collect(f, xs).value[k])
      {
        var last := xs[|xs| - 1];
        if f(last).value.Some? && f(last).value.value.0 == k {
          assert f(xs[|xs| - 1]) == Some(Some((k, Collect(f, xs).value[k])));
        } else {
          assert StoredValue(f, p, k, Collect(f, p).value[k]);
          var i :| 0 <= i < |p| && f(p[i]) == Some(Some((k, Collect(f, p).value[k])));
          assert xs[i] == p[i];
        }
      }
    }
  }

  /** The list built by running the step `f` over `xs` from left to right,
      appending on Some(Some(v)) and skipping on Some(None); None when any
      step raises. */
  function CollectSeq<T, V(!new)>(f: T -> Option<Option<V>>, xs: seq<T>): (r: Option<seq<V>>)
    ensures r.Some? <==> forall i :: 0 <= i < |xs| ==> f(xs[i]).Some?
    ensures r.Some? ==> |r.value| <= |xs|
    ensures r.Some? ==> forall v :: v in r.value <==> exists i :: 0 <= i < |xs| && f(xs[i]) == Some(Some(v))
  {
    if |xs| == 0 then Some([])
    else
      var p := xs[..|xs| - 1];
      var last := xs[|xs| - 1];
      match CollectSeq(f, p)
      case None => None
      case Some(l) =>
        match f(last)
        case None => None
        case Some(None) => Some(l)
        case Some(Some(v)) => Some(l + [v])
  }

  /** The list keeps the order of the elements: running the loop over `a + b`
      lists what `a` lists, then what `b` lists. */
  lemma {:induction false} CollectSeqConcat<T, V(!new)>(f: T -> Option<Option<V>>, a: seq<T>, b: seq<T>)
    requires CollectSeq(f, a).Some? && CollectSeq(f, b).Some?
    ensures CollectSeq(f, a + b) == Some(CollectSeq(f, a).value + CollectSeq(f, b).value)
  {
    if |b| > 0 {
      var b' := b[..|b| - 1];
      assert (a + b)[..|a + b| - 1] == a + b';
      assert (a + b)[|a + b| - 1] == b[|b| - 1];
      CollectSeqConcat(f, a, b');
      match f(b[|b| - 1])
      case Some(None) =>
      case Some(Some(v)) =>
        assert CollectSeq(f, a).value + CollectSeq(f, b').value + [v]
               == CollectSeq(f, a).value + (CollectSeq(f, b').value + [v]);
    } else {
      assert a + b == a && CollectSeq(f, b).value == [];
      assert CollectSeq(f, a).value + [] == CollectSeq(f, a).value;
    }
  }

  /** The values `f` gives, in the order of `xs`, skipping each element it
      gives None for: the list a loop builds with a `continue` per skip. */
  function Chosen<T, U>(f: T -> Option<U>, xs: seq<T>): (r: seq<U>)
    ensures |r| <= |xs|
    ensures forall u :: u in r ==> exists i :: 0 <= i < |xs| && f(xs[i]) == Some(u)
    ensures forall i :: 0 <= i < |xs| && f(xs[i]).Some? ==> f(xs[i]).value in r
    ensures (forall i :: 0 <= i < |xs| ==> f(xs[i]).Some?) ==>
              |r| == |xs| && forall i :: 0 <= i < |xs| ==> Some(r[i]) == f(xs[i])
  {
    if |xs| == 0 then []
    else
      var rest := Chosen(f, xs[..|xs| - 1]);
      assert forall i :: 0 <= i < |xs| - 1 ==> xs[..|xs| - 1][i] == xs[i];
      match f(xs[|xs| - 1])
      case None => rest
      case Some(u) => rest + [u]
  }

  /** The choice over `a + b` is the choice over `a` followed by the choice
      over `b`. */
  lemma {:induction false} ChosenConcat<T, U>(f: T -> Option<U>, a: seq<T>, b: seq<T>)
    ensures Chosen(f, a + b) == Chosen(f, a) + Chosen(f, b)
  {
    if |b| == 0 {
      assert a + b == a;
    } else {
      var b' := b[..|b| - 1];
      assert (a + b)[..|a + b| - 1] == a + b';
      assert (a + b)[|a + b| - 1] == b[|b| - 1];
      ChosenConcat(f, a, b');
      match f(b[|b| - 1])
      case None =>
      case Some(u) => assert Chosen(f, a) + Chosen(f, b') + [u] == Chosen(f, a) + (Chosen(f, b') + [u]);
    }
  }

  /** Two choosers that agree on every element choose the same list. */
  lemma {:induction false} ChosenAgree<T, U>(f: T -> Option<U>, g: T -> Option<U>, xs: seq<T>)
    requires forall i :: 0 <= i < |xs| ==> f(xs[i]) == g(xs[i])
    ensures Chosen(f, xs) == Chosen(g, xs)
  {
    if |xs| > 0 {
      var p := xs[..|xs| - 1];
      assert forall i :: 0 <= i < |p| ==> p[i] == xs[i];
      ChosenAgree(f, g, p);
    }
  }

  // ---------------------------------------------------------------------
  // Prices, sizes and quotients.

  /** `d.get(k, default)` on a map of reals. */
  function GetReal(m: map<string, real>, k: string, default: real): (v: real)
    ensures k in m ==> v == m[k]
    ensures k !in m ==> v == default
  {
    if k in m then m[k] else default
  }

  /** The USD value of `size` units at `price`. */
  function Notional(size: real, price: real): real
  {
    size * price
  }

  lemma MulNonNegative(a: real, b: real)
    requires a >= 0.0 && b >= 0.0
    ensures a * b >= 0.0
  {
  }

  lemma DivMul(a: real, b: real)
    requires b != 0.0
    ensures a / b * b == a
  {
  }

  lemma Percent(m: real, n: real)
    requires n != 0.0
    ensures m / n * 100.0 * n == m * 100.0
  {
    DivMul(m, n);
    assert m / n * 100.0 * n == (m / n * n) * 100.0;
  }

  lemma DivUnique(x: real, y: real, k: real)
    requires k != 0.0 && x * k == y * k
    ensures x == y
  {
    assert (x - y) * k == 0.0;
  }

  lemma DivNonNegative(a: real, b: real)
    requires a >= 0.0 && b > 0.0
    ensures a / b >= 0.0
  {
  }

  /** `usd / price`: the size whose value at `price` is `usd`. */
  function Units(usd: real, price: real): (size: real)
    requires price != 0.0
    ensures Notional(size, price) == usd
    ensures price > 0.0 ==> (size > 0.0 <==> usd > 0.0) && Notional(Abs(size), price) == Abs(usd)
  {
    DivMul(usd, price);
    usd / price
  }
}
