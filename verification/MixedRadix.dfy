/**
 Mixed-radix numbers: the digits of n over a sequence of radices, least significant first.
 */
module MixedRadix {

  ghost predicate Positive(vs: seq<nat>) {
    forall i :: 0 <= i < |vs| ==> 0 < vs[i]
  }

  function Product(vs: seq<nat>): nat {
    if |vs| == 0 then 1 else vs[0] * Product(vs[1..])
  }

  function Digits(vs: seq<nat>, n: nat): (xs: seq<nat>)
    requires Positive(vs)
    ensures |xs| == |vs|
  {
    if |vs| == 0 then [] else [n % vs[0]] + Digits(vs[1..], n / vs[0])
  }

  /** What is left of n after its digits are taken. */
  function Rest(vs: seq<nat>, n: nat): nat
    requires Positive(vs)
  {
    if |vs| == 0 then n else Rest(vs[1..], n / vs[0])
  }

  function Compose(vs: seq<nat>, xs: seq<nat>, q: nat): nat
    requires |xs| == |vs|
  {
    if |vs| == 0 then q else xs[0] + vs[0] * Compose(vs[1..], xs[1..], q)
  }

  ghost predicate Below(xs: seq<nat>, vs: seq<nat>) {
    |xs| == |vs| && forall i :: 0 <= i < |vs| ==> xs[i] < vs[i]
  }

  lemma DivMod(n: nat, v: nat, x: nat, m: nat)
    requires 0 < v && x < v && n == x + v * m
    ensures n % v == x && n / v == m
  {
    var q, r := n / v, n % v;
    var d := q - m;
    assert v * d == x - r by {
      assert n == v * q + r;
      Times(v, m, d);
    }
    if d >= 1 {
      Times(v, 1, d - 1);
    } else if d <= -1 {
      Times(v, -1, d + 1);
      TimesNegative(v, -(d + 1));
    }
  }

  lemma Times(v: nat, a: int, b: int)
    ensures v * (a + b) == v * a + v * b
    ensures 0 <= b ==> 0 <= v * b
  {
  }

  lemma TimesNegative(v: nat, a: nat)
    ensures v * (0 - a as int) <= 0
  {
  }

  lemma DivModBack(n: nat, v: nat)
    requires 0 < v
    ensures n == n % v + v * (n / v) && n % v < v
  {
  }

  /** Composing and taking apart again gives the digits and the rest back. */
  lemma {:induction false} DigitsOfCompose(vs: seq<nat>, xs: seq<nat>, q: nat)
    requires Positive(vs) && Below(xs, vs)
    ensures Digits(vs, Compose(vs, xs, q)) == xs && Rest(vs, Compose(vs, xs, q)) == q
  {
    if |vs| > 0 {
      DivMod(Compose(vs, xs, q), vs[0], xs[0], Compose(vs[1..], xs[1..], q));
      DigitsOfCompose(vs[1..], xs[1..], q);
    }
  }

  lemma {:induction false} ComposeOfDigits(vs: seq<nat>, n: nat)
    requires Positive(vs)
    ensures Below(Digits(vs, n), vs) && Compose(vs, Digits(vs, n), Rest(vs, n)) == n
  {
    if |vs| > 0 {
      DivModBack(n, vs[0]);
      ComposeOfDigits(vs[1..], n / vs[0]);
      assert Digits(vs, n)[1..] == Digits(vs[1..], n / vs[0]);
    }
  }

  lemma {:induction false} ComposeSplits(vs: seq<nat>, xs: seq<nat>, q: nat)
    requires Positive(vs) && Below(xs, vs)
    ensures Compose(vs, xs, q) == Compose(vs, xs, 0) + Product(vs) * q
    ensures Compose(vs, xs, 0) < Product(vs)
  {
    if |vs| > 0 {
      ComposeSplits(vs[1..], xs[1..], q);
      var v, p, inner := vs[0], Product(vs[1..]), Compose(vs[1..], xs[1..], 0);
      Distribute(v, inner, p * q);
      assert v * (p * q) == (v * p) * q;
      Carry(xs[0], v, inner, p);
    }
  }

  lemma Distribute(v: nat, a: nat, b: nat)
    ensures v * (a + b) == v * a + v * b
  {
  }

  lemma Carry(x: nat, v: nat, a: nat, p: nat)
    requires x < v && a < p
    ensures x + v * a < v * p
  {
    Distribute(v, a, p - a);
    Distribute(v, 1, p - a - 1);
  }

  lemma {:induction false} ProductPositive(vs: seq<nat>)
    requires Positive(vs)
    ensures 0 < Product(vs)
  {
    if |vs| > 0 {
      ProductPositive(vs[1..]);
      Carry(0, vs[0], 0, Product(vs[1..]));
    }
  }

  /** Rest and composed digits are quotient and remainder by the product of the radices. */
  lemma RestIsQuotient(vs: seq<nat>, n: nat)
    requires Positive(vs)
    ensures 0 < Product(vs)
    ensures Rest(vs, n) == n / Product(vs) && Compose(vs, Digits(vs, n), 0) == n % Product(vs)
  {
    ProductPositive(vs);
    ComposeOfDigits(vs, n);
    ComposeSplits(vs, Digits(vs, n), Rest(vs, n));
    DivMod(n, Product(vs), Compose(vs, Digits(vs, n), 0), Rest(vs, n));
  }

  /** Two numbers have the same digits exactly when they agree modulo the product of the radices. */
  lemma SameDigitsIff(vs: seq<nat>, a: nat, b: nat)
    requires Positive(vs)
    ensures 0 < Product(vs)
    ensures Digits(vs, a) == Digits(vs, b) <==> a % Product(vs) == b % Product(vs)
  {
    RestIsQuotient(vs, a);
    RestIsQuotient(vs, b);
    ComposeOfDigits(vs, a);
    ComposeOfDigits(vs, b);
    DigitsOfCompose(vs, Digits(vs, a), 0);
    DigitsOfCompose(vs, Digits(vs, b), 0);
  }

  lemma RestBelow(vs: seq<nat>, n: nat, m: nat)
    requires Positive(vs)
    ensures Rest(vs, n) < m <==> n < Product(vs) * m
  {
    hide Rest, Product, Compose, Digits, Positive;
    RestIsQuotient(vs, n);
    var p := Product(vs);
    DivModBack(n, p);
    var q, r := n / p, n % p;
    if q < m {
      Carry(r, p, q, m);
    } else {
      Distribute(p, m, q - m);
    }
  }

  lemma {:induction false} DigitsOfConcat(a: seq<nat>, b: seq<nat>, n: nat)
    requires Positive(a) && Positive(b)
    ensures Positive(a + b)
    ensures Digits(a + b, n) == Digits(a, n) + Digits(b, Rest(a, n)) && Rest(a + b, n) == Rest(b, Rest(a, n))
  {
    if |a| == 0 {
      assert a + b == b;
    } else {
      assert (a + b)[0] == a[0] && (a + b)[1..] == a[1..] + b;
      DigitsOfConcat(a[1..], b, n / a[0]);
    }
  }

  lemma DigitsAppend(vs: seq<nat>, v: nat, n: nat)
    requires Positive(vs) && 0 < v
    ensures Positive(vs + [v])
    ensures Digits(vs + [v], n) == Digits(vs, n) + [Rest(vs, n) % v] && Rest(vs + [v], n) == Rest(vs, n) / v
  {
    DigitsOfConcat(vs, [v], n);
    var m := Rest(vs, n);
    assert Digits([v], m) == [m % v] + Digits([v][1..], m / v);
  }

  /** One digit, by division. */
  lemma DigitAt(vs: seq<nat>, n: nat, k: nat)
    requires Positive(vs) && k < |vs|
    ensures 0 < Product(vs[..k]) && Digits(vs, n)[k] == n / Product(vs[..k]) % vs[k]
  {
    assert vs == vs[..k] + vs[k..];
    RestIsQuotient(vs[..k], n);
    DigitsOfConcat(vs[..k], vs[k..], n);
  }

  // ---------------------------------------------------------------- products

  lemma {:induction false} ProductAppend(vs: seq<nat>, v: nat)
    ensures Product(vs + [v]) == Product(vs) * v
  {
    if |vs| == 0 {
      assert vs + [v] == [v];
      assert Product([v]) == v * Product([v][1..]);
    } else {
      assert (vs + [v])[0] == vs[0] && (vs + [v])[1..] == vs[1..] + [v];
      ProductAppend(vs[1..], v);
      Associate(vs[0], Product(vs[1..]), v);
    }
  }

  lemma Associate(a: nat, b: nat, c: nat)
    ensures a * (b * c) == (a * b) * c
  {
  }

  /** Four factors multiply to the same number in any order. */
  lemma FourFactors(f: seq<nat>, a: nat, b: nat, c: nat, d: nat)
    requires |f| == 4 && a < 4 && b < 4 && c < 4 && d < 4
    requires a != b && a != c && a != d && b != c && b != d && c != d
    ensures f[a] * f[b] * f[c] * f[d] == f[0] * f[1] * f[2] * f[3]
  {
    Bring(f[a], f[b], f[c], f[d]);
    Bring(f[0], f[1], f[2], f[3]);
    if a == 0 { ThreeFactors(f, b, c, d, 1, 2, 3); }
    else if a == 1 { ThreeFactors(f, b, c, d, 0, 2, 3); Swap(f[1], f[0], f[2], f[3]); }
    else if a == 2 { ThreeFactors(f, b, c, d, 0, 1, 3); Swap(f[2], f[0], f[1], f[3]); Swap(f[2], f[1], f[0], f[3]); Commute3(f[0], f[1], f[2] * f[3]); }
    else { ThreeFactors(f, b, c, d, 0, 1, 2); Rotate(f[3], f[0], f[1], f[2]); }
  }

  lemma Bring(a: nat, b: nat, c: nat, d: nat)
    ensures a * b * c * d == a * (b * c * d)
  {
    Associate(a, b, c);
    Associate(a, b * c, d);
  }

  lemma Swap(a: nat, b: nat, c: nat, d: nat)
    ensures a * (b * c * d) == b * (a * c * d)
  {
  }

  lemma Commute3(a: nat, b: nat, c: nat)
    ensures a * (b * c) == b * (a * c)
  {
  }

  lemma Rotate(a: nat, b: nat, c: nat, d: nat)
    ensures a * (b * c * d) == b * (c * d * a)
  {
  }

  lemma ThreeFactors(f: seq<nat>, b: nat, c: nat, d: nat, x: nat, y: nat, z: nat)
    requires |f| == 4 && x < y < z < 4 && b in {x, y, z} && c in {x, y, z} && d in {x, y, z} && b != c && b != d && c != d
    ensures f[b] * f[c] * f[d] == f[x] * f[y] * f[z]
  {
  }
}
