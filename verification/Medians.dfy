/** The even-sample median of benches/m1/d10_observations.rs: an in-place sort,
    the two middle values, and a fraction in lowest terms. */
module Medians {
  import opened Numbers

  datatype Rational = Rational(numerator: nat, denominator: nat)

  predicate Divides(d: nat, n: nat) {
    0 < d && n % d == 0
  }

  /** `p` is at most `q`, by cross multiplication. */
  predicate AtMost(p: Rational, q: Rational) {
    p.numerator * q.denominator <= q.numerator * p.denominator
  }

  // ---- greatest common divisor

  function Gcd(left: nat, right: nat): nat
    decreases right
  {
    if right == 0 then left else Gcd(right, left % right)
  }

  method GcdLoop(left: nat, right: nat) returns (divisor: nat)
    ensures divisor == Gcd(left, right)
  {
    var l, r := left, right;
    while r != 0
      invariant Gcd(l, r) == Gcd(left, right)
      decreases r
    {
      var remainder := l % r;
      l := r;
      r := remainder;
    }
    divisor := l;
  }

  lemma DividesMultiple(d: nat, k: nat, n: nat)
    requires 0 < d && n == k * d
    ensures Divides(d, n)
  {
    var q, r := n / d, n % d;
    assert (k - q) * d == r;
    if q < k { MulMono(1, k - q, d, d); }
    if k < q { assert (q - k) * d == -r; MulMono(1, q - k, d, d); }
  }

  lemma DivideCancels(d: nat, n: nat)
    requires Divides(d, n)
    ensures n == (n / d) * d
  {
  }

  /** Divisibility passes between `left` and `left % right`. */
  lemma DividesRemainder(d: nat, left: nat, right: nat)
    requires 0 < right && Divides(d, right)
    ensures Divides(d, left) <==> Divides(d, left % right)
  {
    var q, r, k := left / right, left % right, right / d;
    DivideCancels(d, right);
    assert left == q * (k * d) + r == (q * k) * d + r;
    if Divides(d, left) {
      DivideCancels(d, left);
      assert r == (left / d - q * k) * d;
      if left / d < q * k { MulMono(1, q * k - left / d, d, d); assert false; }
      DividesMultiple(d, left / d - q * k, r);
    }
    if Divides(d, r) {
      DivideCancels(d, r);
      assert left == (q * k + r / d) * d;
      DividesMultiple(d, q * k + r / d, left);
    }
  }

  /** `Gcd` divides both numbers, and every common divisor divides it. */
  lemma {:induction false} GcdIsGreatest(left: nat, right: nat, d: nat)
    requires 0 < left || 0 < right
    ensures 0 < Gcd(left, right)
    ensures Divides(Gcd(left, right), left) && Divides(Gcd(left, right), right)
    ensures Divides(d, left) && Divides(d, right) ==> Divides(d, Gcd(left, right))
    decreases right
  {
    if right != 0 {
      GcdIsGreatest(right, left % right, d);
      DividesRemainder(Gcd(left, right), left, right);
      if Divides(d, right) { DividesRemainder(d, left, right); }
    }
  }

  // ---- reduced fractions

  function Reduce(numerator: nat, denominator: pos): Rational {
    GcdIsGreatest(numerator, denominator, 1);
    Rational(numerator / Gcd(numerator, denominator), denominator / Gcd(numerator, denominator))
  }

  /** `Rational::new`. */
  method NewRational(numerator: nat, denominator: pos) returns (r: Rational)
    ensures r == Reduce(numerator, denominator)
  {
    var divisor := GcdLoop(numerator, denominator);
    GcdIsGreatest(numerator, denominator, 1);
    r := Rational(numerator / divisor, denominator / divisor);
  }

  /** The reduced fraction has the same value and no common divisor is left. */
  lemma ReduceIsLowestTerms(numerator: nat, denominator: pos, d: nat)
    ensures var r := Reduce(numerator, denominator);
            && r.numerator * denominator == numerator * r.denominator
            && 0 < r.denominator
            && (Divides(d, r.numerator) && Divides(d, r.denominator) ==> d == 1)
  {
    var g, r := Gcd(numerator, denominator), Reduce(numerator, denominator);
    GcdIsGreatest(numerator, denominator, 1);
    DivideCancels(g, numerator);
    DivideCancels(g, denominator);
    calc {
      r.numerator * denominator;
      r.numerator * (r.denominator * g);
      (r.numerator * g) * r.denominator;
      numerator * r.denominator;
    }
    assert r.denominator != 0;
    if Divides(d, r.numerator) && Divides(d, r.denominator) {
      CommonFactorLifts(d, r.numerator, g, numerator);
      CommonFactorLifts(d, r.denominator, g, denominator);
      GcdIsGreatest(numerator, denominator, d * g);
      DivideCancels(d * g, g);
      var k := g / (d * g);
      assert k != 0;
      if 1 < d {
        MulMono(1, k, d * g, d * g);
        MulStrict(1, d, g, g);
        assert false;
      }
    }
  }

  lemma CommonFactorLifts(d: nat, n: nat, g: nat, lifted: nat)
    requires Divides(d, n) && 0 < g && lifted == n * g
    ensures 0 < d * g && Divides(d * g, lifted)
  {
    DivideCancels(d, n);
    assert lifted == (n / d) * (d * g);
    MulMono(1, d, 1, g);
    DividesMultiple(d * g, n / d, lifted);
  }

  // ---- sorting

  predicate IsSorted(s: seq<nat>) {
    forall i, j :: 0 <= i < j < |s| ==> s[i] <= s[j]
  }

  function Insert(x: nat, s: seq<nat>): seq<nat> {
    if s == [] then [x]
    else if x <= s[0] then [x] + s
    else [s[0]] + Insert(x, s[1..])
  }

  function Sort(s: seq<nat>): seq<nat> {
    if s == [] then [] else Insert(s[0], Sort(s[1..]))
  }

  lemma {:induction false} InsertMembers(x: nat, s: seq<nat>)
    ensures multiset(Insert(x, s)) == multiset(s) + multiset{x}
  {
    if s != [] && s[0] < x {
      InsertMembers(x, s[1..]);
      assert s == [s[0]] + s[1..];
    }
  }

  lemma SortedCons(x: nat, s: seq<nat>)
    requires IsSorted(s) && forall y :: y in multiset(s) ==> x <= y
    ensures IsSorted([x] + s)
  {
    forall i, j | 0 <= i < j < |[x] + s|
      ensures ([x] + s)[i] <= ([x] + s)[j]
    {
      assert s[j - 1] in multiset(s);
    }
  }

  lemma {:induction false} InsertSorts(x: nat, s: seq<nat>)
    requires IsSorted(s)
    ensures IsSorted(Insert(x, s))
  {
    if s == [] {
    } else if x <= s[0] {
      forall y | y in multiset(s) ensures x <= y { assert y in s; }
      SortedCons(x, s);
    } else {
      InsertSorts(x, s[1..]);
      InsertMembers(x, s[1..]);
      forall y | y in multiset(Insert(x, s[1..])) ensures s[0] <= y {
        if y != x { assert y in s[1..]; }
      }
      SortedCons(s[0], Insert(x, s[1..]));
    }
  }

  lemma {:induction false} SortSorts(s: seq<nat>)
    ensures IsSorted(Sort(s)) && multiset(Sort(s)) == multiset(s) && |Sort(s)| == |s|
  {
    if s != [] {
      SortSorts(s[1..]);
      InsertSorts(s[0], Sort(s[1..]));
      InsertMembers(s[0], Sort(s[1..]));
      assert s == [s[0]] + s[1..];
    }
    SameMultisetSameLength(Sort(s), s);
  }

  lemma SameMultisetSameLength(s: seq<nat>, t: seq<nat>)
    requires multiset(s) == multiset(t)
    ensures |s| == |t|
  {
    assert |multiset(s)| == |s| && |multiset(t)| == |t|;
  }

  /** How many values are at most `v`. */
  function CountAtMost(s: seq<nat>, v: nat): nat {
    if s == [] then 0 else (if s[0] <= v then 1 else 0) + CountAtMost(s[1..], v)
  }

  lemma {:induction false} InsertCounts(x: nat, s: seq<nat>, v: nat)
    ensures CountAtMost(Insert(x, s), v) == CountAtMost(s, v) + if x <= v then 1 else 0
  {
    if s == [] {
    } else if x <= s[0] {
      assert ([x] + s)[1..] == s;
    } else {
      InsertCounts(x, s[1..], v);
      assert ([s[0]] + Insert(x, s[1..]))[1..] == Insert(x, s[1..]);
    }
  }

  lemma {:induction false} SortCounts(s: seq<nat>, v: nat)
    ensures CountAtMost(Sort(s), v) == CountAtMost(s, v)
  {
    if s != [] {
      SortCounts(s[1..], v);
      InsertCounts(s[0], Sort(s[1..]), v);
    }
  }

  /** In a sorted sequence, the k-th value is at most `v` exactly when more than
      k values are. */
  lemma {:induction false} SortedRank(s: seq<nat>, k: nat, v: nat)
    requires IsSorted(s) && k < |s|
    ensures s[k] <= v <==> k < CountAtMost(s, v)
  {
    if k != 0 {
      SortedRank(s[1..], k - 1, v);
      assert s[0] <= s[k];
      if v < s[0] { NoneAtMost(s, v); }
    } else if v < s[0] {
      NoneAtMost(s, v);
    }
  }

  lemma {:induction false} NoneAtMost(s: seq<nat>, v: nat)
    requires forall i :: 0 <= i < |s| ==> v < s[i]
    ensures CountAtMost(s, v) == 0
  {
    if s != [] { NoneAtMost(s[1..], v); }
  }

  /** `t` is at least `s`, value by value. */
  predicate Dominates(t: seq<nat>, s: seq<nat>) {
    |t| == |s| && forall i :: 0 <= i < |s| ==> s[i] <= t[i]
  }

  lemma {:induction false} DominatedCounts(s: seq<nat>, t: seq<nat>, v: nat)
    requires Dominates(t, s)
    ensures CountAtMost(t, v) <= CountAtMost(s, v)
  {
    if s != [] { DominatedCounts(s[1..], t[1..], v); }
  }

  /** Raising values pointwise raises every order statistic. */
  lemma SortKeepsDominance(s: seq<nat>, t: seq<nat>)
    requires Dominates(t, s)
    ensures Dominates(Sort(t), Sort(s))
  {
    SortSorts(s);
    SortSorts(t);
    forall k | 0 <= k < |s|
      ensures Sort(s)[k] <= Sort(t)[k]
    {
      var v := Sort(t)[k];
      SortedRank(Sort(t), k, v);
      SortCounts(s, v);
      SortCounts(t, v);
      DominatedCounts(s, t, v);
      SortedRank(Sort(s), k, v);
    }
  }

  lemma {:induction false} SortedIsUnique(s: seq<nat>, t: seq<nat>)
    requires IsSorted(s) && IsSorted(t) && multiset(s) == multiset(t)
    ensures s == t
  {
    SameMultisetSameLength(s, t);
    if s != [] {
      SmallestFirst(s, t);
      SmallestFirst(t, s);
      DropFirst(s);
      DropFirst(t);
      SortedIsUnique(s[1..], t[1..]);
    }
  }

  lemma SmallestFirst(s: seq<nat>, t: seq<nat>)
    requires s != [] && t != [] && IsSorted(t) && multiset(s) == multiset(t)
    ensures t[0] <= s[0]
  {
    assert s[0] in multiset(t);
    var i :| 0 <= i < |t| && t[i] == s[0];
  }

  lemma DropFirst(s: seq<nat>)
    requires s != []
    ensures multiset(s[1..]) == multiset(s) - multiset{s[0]} && s == [s[0]] + s[1..]
  {
    assert s == [s[0]] + s[1..];
  }

  // ---- the median

  function MedianOf(values: seq<nat>): Rational
    requires 2 <= |values|
  {
    SortSorts(values);
    var upper := Sort(values)[|values| / 2];
    var lower := Sort(values)[|values| / 2 - 1];
    Reduce(lower + upper, 2)
  }

  /** `sort_unstable`, in place.  Only its effect is modelled. */
  method SortUnstable(values: array<nat>)
    modifies values
    ensures values[..] == Sort(old(values[..]))
  {
    var sorted := Sort(values[..]);
    SortSorts(values[..]);
    forall i | 0 <= i < values.Length {
      values[i] := sorted[i];
    }
  }

  method MedianInPlace(values: array<nat>) returns (m: Rational)
    requires 2 <= values.Length
    modifies values
    ensures values[..] == Sort(old(values[..]))
    ensures m == MedianOf(old(values[..]))
  {
    SortUnstable(values);
    var upper := values[values.Length / 2];
    var lower := values[values.Length / 2 - 1];
    m := NewRational(lower + upper, 2);
  }

  /** The median depends only on which values occur how often, and it is a
      fraction in lowest terms with denominator 1 or 2 whose value is the mean
      of the two middle values of any sorted arrangement. */
  lemma MedianIsCanonical(s: seq<nat>, t: seq<nat>, d: nat)
    requires 2 <= |s| && multiset(s) == multiset(t)
    ensures |t| == |s| && MedianOf(t) == MedianOf(s)
    ensures IsSorted(t) ==> MedianOf(s).numerator * 2 == (t[|t| / 2 - 1] + t[|t| / 2]) * MedianOf(s).denominator
    ensures MedianOf(s).denominator in {1, 2}
    ensures Divides(d, MedianOf(s).numerator) && Divides(d, MedianOf(s).denominator) ==> d == 1
  {
    hide Sort, Gcd, Divides;
    SameMultisetSameLength(s, t);
    SortSorts(s);
    SortSorts(t);
    SortedIsUnique(Sort(s), Sort(t));
    if IsSorted(t) { SortedIsUnique(t, Sort(s)); }
    MedianBounds(s, U64_MAX);
    ReduceIsLowestTerms(Sort(s)[|s| / 2 - 1] + Sort(s)[|s| / 2], 2, d);
  }

  /** A median of positive values up to `limit` is positive, and its numerator
      is at most twice the limit. */
  lemma MedianBounds(s: seq<nat>, limit: nat)
    requires 2 <= |s|
    ensures MedianOf(s).denominator in {1, 2}
    ensures (forall x :: x in s ==> x <= limit) ==> MedianOf(s).numerator <= 2 * limit
    ensures (forall x :: x in s ==> 0 < x) ==> 0 < MedianOf(s).numerator
  {
    SortSorts(s);
    var lower, upper := Sort(s)[|s| / 2 - 1], Sort(s)[|s| / 2];
    assert lower in multiset(Sort(s)) && upper in multiset(Sort(s));
    assert lower in s && upper in s;
    var sum, m := lower + upper, MedianOf(s);
    GcdIsGreatest(sum, 2, 1);
    ReduceIsLowestTerms(sum, 2, 1);
    assert m.denominator == 2 / Gcd(sum, 2);
    assert Gcd(sum, 2) == 1 || Gcd(sum, 2) == 2;
  }

  /** Raising values pointwise never lowers the median. */
  lemma MedianMonotone(s: seq<nat>, t: seq<nat>)
    requires 2 <= |s| && Dominates(t, s)
    ensures AtMost(MedianOf(s), MedianOf(t))
  {
    SortSorts(s);
    SortSorts(t);
    SortKeepsDominance(s, t);
    var k := |s| / 2;
    var x, y := Sort(s)[k - 1] + Sort(s)[k], Sort(t)[k - 1] + Sort(t)[k];
    assert x <= y;
    ReduceIsLowestTerms(x, 2, 1);
    ReduceIsLowestTerms(y, 2, 1);
    HalvesCompare(Reduce(x, 2), x, Reduce(y, 2), y);
  }

  lemma HalvesCompare(p: Rational, x: nat, q: Rational, y: nat)
    requires p.numerator * 2 == x * p.denominator && q.numerator * 2 == y * q.denominator
    requires x <= y
    ensures AtMost(p, q)
  {
    var d := p.denominator * q.denominator;
    MulMono(x, y, d, d);
    assert 2 * (p.numerator * q.denominator) == x * d;
    assert 2 * (q.numerator * p.denominator) == y * d;
  }
}
