/** Integers read by encoding/json into an untyped value: every number becomes
    a float64 (internal/status/digests.go). */
module JsonNumbers {
  import opened Options
  import opened Text

  /** A float64 has 53 significant bits. */
  const MANTISSA := 0x20_0000_0000_0000

  function Pow2(k: nat): (p: nat)
    ensures p > 0
  {
    if k == 0 then 1 else 2 * Pow2(k - 1)
  }

  /** The whole numbers that are floats. */
  ghost predicate IsFloat(x: nat) {
    exists m: nat, e: nat :: Scaled(x, m, e)
  }

  ghost predicate Scaled(x: nat, m: nat, e: nat) {
    m < MANTISSA && x == m * Pow2(e)
  }

  /** The exponent of the last significant bit of n. */
  function Exponent(n: nat): (k: nat)
    ensures n < MANTISSA * Pow2(k)
    ensures if n < MANTISSA then k == 0 else k > 0 && MANTISSA / 2 * Pow2(k) <= n
  {
    if n < MANTISSA then 0 else Exponent(n / 2) + 1
  }

  /** Rounding to the nearest float, half to even. */
  function Nearest(n: nat): nat {
    var unit := Pow2(Exponent(n));
    var q, r := n / unit, n % unit;
    if 2 * r < unit || (2 * r == unit && q % 2 == 0) then q * unit else (q + 1) * unit
  }

  function Distance(a: nat, b: nat): nat {
    if a <= b then b - a else a - b
  }

  lemma {:induction false} Pow2Adds(a: nat, b: nat)
    ensures Pow2(a + b) == Pow2(a) * Pow2(b)
  {
    if a > 0 {
      Pow2Adds(a - 1, b);
      assert Pow2(a + b) == 2 * Pow2(a - 1 + b);
      assert Pow2(a) * Pow2(b) == 2 * (Pow2(a - 1) * Pow2(b));
    }
  }

  lemma Scales(a: nat, b: nat, unit: nat)
    requires a <= b
    ensures a * unit <= b * unit
  {
  }

  /** n between the multiples of unit around it. */
  lemma Around(n: nat, unit: nat)
    requires unit > 0
    ensures n / unit * unit + n % unit == n && (n / unit + 1) * unit == n / unit * unit + unit
  {
  }

  lemma Halve(h: nat, unit: nat)
    ensures (2 * h) * unit == h * (2 * unit)
  {
  }

  lemma FloatOf(q: nat, k: nat)
    requires q <= MANTISSA
    ensures IsFloat(q * Pow2(k))
  {
    var unit := Pow2(k);
    if q < MANTISSA {
      assert Scaled(q * unit, q, k);
    } else {
      Halve(MANTISSA / 2, unit);
      assert Pow2(k + 1) == 2 * unit;
      assert Scaled(q * unit, MANTISSA / 2, k + 1);
    }
  }

  lemma QuotientBelow(n: nat, unit: nat, limit: nat)
    requires unit > 0 && n < limit * unit
    ensures n / unit < limit
  {
    Around(n, unit);
    if n / unit >= limit { Scales(limit, n / unit, unit); }
  }

  lemma NearestIsFloat(n: nat)
    ensures IsFloat(Nearest(n))
  {
    hide Exponent;
    hide Pow2;
    var k := Exponent(n);
    QuotientBelow(n, Pow2(k), MANTISSA);
    FloatOf(n / Pow2(k), k);
    FloatOf(n / Pow2(k) + 1, k);
  }

  /** Nearest deserves its name: it is a float, and none is closer. */
  lemma NearestIsClosest(n: nat, f: nat)
    ensures IsFloat(Nearest(n))
    ensures IsFloat(f) ==> Distance(n, Nearest(n)) <= Distance(n, f)
  {
    NearestIsFloat(n);
    var unit := Pow2(Exponent(n));
    Around(n, unit);
    if IsFloat(f) {
      var m: nat, e: nat :| Scaled(f, m, e);
      FloatsKeepAway(n, f, m, e);
    }
  }

  /** Halfway between two floats the even one is taken. */
  lemma TiesGoToEven(n: nat)
    requires 2 * (n % Pow2(Exponent(n))) == Pow2(Exponent(n))
    ensures exists m: nat :: Nearest(n) == 2 * m * Pow2(Exponent(n))
  {
    var unit := Pow2(Exponent(n));
    var q := n / unit;
    var even := if q % 2 == 0 then q else q + 1;
    assert Nearest(n) == even * unit == 2 * (even / 2) * unit;
  }

  lemma MultiplesKeepAway(n: nat, unit: nat, t: nat)
    requires unit > 0
    ensures Distance(n, t * unit) >= n % unit || Distance(n, t * unit) >= unit - n % unit
  {
    Around(n, unit);
    var q := n / unit;
    if t <= q {
      Scales(t, q, unit);
    } else {
      Scales(q + 1, t, unit);
    }
  }

  lemma MultipleOf(m: nat, e: nat, k: nat) returns (t: nat)
    requires e >= k
    ensures m * Pow2(e) == t * Pow2(k)
  {
    Pow2Adds(e - k, k);
    hide Pow2;
    t := m * Pow2(e - k);
    Assoc(m, Pow2(e - k), Pow2(k));
  }

  lemma Assoc(a: nat, b: nat, c: nat)
    ensures a * (b * c) == a * b * c
  {
  }

  /** A float is no closer to n than the multiples of n's unit around it. */
  lemma FloatsKeepAway(n: nat, f: nat, m: nat, e: nat)
    requires Scaled(f, m, e)
    ensures var unit := Pow2(Exponent(n));
            Distance(n, f) >= n % unit || Distance(n, f) >= unit - n % unit
  {
    var k := Exponent(n);
    if e >= k {
      var t := MultipleOf(m, e, k);
      hide *;
      MultiplesKeepAway(n, Pow2(k), t);
    } else {
      assert MANTISSA / 2 * Pow2(k) <= n;
      SmallerFloats(m, e, k);
      hide *;
      BelowKeepsAway(n, Pow2(k), MANTISSA / 2, m * Pow2(e));
    }
  }

  lemma SmallerFloats(m: nat, e: nat, k: nat)
    requires m < MANTISSA && e < k
    ensures m * Pow2(e) <= MANTISSA / 2 * Pow2(k)
  {
    Pow2Adds(k - 1 - e, e);
    assert Pow2(k) == 2 * Pow2(k - 1);
    hide Pow2;
    Scales(1, Pow2(k - 1 - e), Pow2(e));
    Scales(m, MANTISSA, Pow2(e));
    Halve(MANTISSA / 2, Pow2(k - 1));
  }

  lemma BelowKeepsAway(n: nat, unit: nat, low: nat, f: nat)
    requires unit > 0 && f <= low * unit <= n
    ensures Distance(n, f) >= n % unit
  {
    Around(n, unit);
    var q := n / unit;
    if q < low { Scales(q + 1, low, unit); }
    Scales(low, q, unit);
  }

  // ---- signed integers in a document --------------------------------------

  /** What the API server keeps as an integer. */
  predicate IsInt64(n: int) {
    -0x8000_0000_0000_0000 <= n <= MAX_INT
  }

  function Size(n: int): nat {
    if n < 0 then -n else n
  }

  function NearestInt(n: int): int {
    var x: int := Nearest(Size(n));
    if n < 0 then -x else x
  }

  function Literal(n: int): string {
    if n < 0 then "-" + Itoa(-n) else Itoa(n)
  }

  function Document(n: int): string {
    "{\"x\":" + Literal(n) + "}"
  }

  /** What a json library that reads numbers as floats does: two integers are
      written alike exactly when they are read as one float. */
  ghost predicate RoundsNumbers(json: string -> Option<string>) {
    forall m, n | IsInt64(m) && IsInt64(n) ::
      json(Document(m)).Some? && (json(Document(m)) == json(Document(n)) <==> NearestInt(m) == NearestInt(n))
  }

  lemma SmallIsKept(n: nat)
    requires n <= MANTISSA
    ensures Nearest(n) == n
  {
    assert Pow2(0) == 1;
    if n == MANTISSA {
      assert Exponent(n) == Exponent(n / 2) + 1 == 1 && Pow2(1) == 2;
    } else {
      assert n % 1 == 0;
    }
  }

  lemma FirstLost()
    ensures NearestInt(MANTISSA + 1) == NearestInt(MANTISSA)
  {
    var n := MANTISSA + 1;
    assert Exponent(n) == Exponent(n / 2) + 1 == 1 && Pow2(0) == 1 && Pow2(1) == 2;
    SmallIsKept(MANTISSA);
  }

  lemma SmallIntIsKept(n: int)
    requires Size(n) <= MANTISSA
    ensures NearestInt(n) == n
  {
    SmallIsKept(Size(n));
    hide Nearest;
  }

  /** An integer is written back unchanged exactly when it is a float. */
  lemma KeptIffFloat(n: nat)
    ensures Nearest(n) == n <==> IsFloat(n)
  {
    NearestIsClosest(n, n);
    hide IsFloat;
    hide Nearest;
  }

  /** Up to a bound every two integers are told apart exactly when the bound
      is at most 2^53. */
  lemma IntegersToldApartIff(json: string -> Option<string>, bound: nat)
    requires RoundsNumbers(json)
    ensures (forall m, n | IsInt64(m) && IsInt64(n) && Size(m) <= bound && Size(n) <= bound
               && json(Document(m)) == json(Document(n)) :: m == n) <==> bound <= MANTISSA
  {
    hide Document;
    hide NearestInt;
    if bound <= MANTISSA {
      forall m, n | IsInt64(m) && IsInt64(n) && Size(m) <= bound && Size(n) <= bound
                      && json(Document(m)) == json(Document(n))
        ensures m == n
      {
        SmallIntIsKept(m);
        SmallIntIsKept(n);
      }
    } else {
      FirstLost();
      assert json(Document(MANTISSA)) == json(Document(MANTISSA + 1));
    }
  }

  lemma DocumentsDiffer(m: int, n: int)
    requires Document(m) == Document(n)
    ensures m == n
  {
    var a, b := Literal(m), Literal(n);
    assert a == Document(m)[5..|Document(m)| - 1] && b == Document(n)[5..|Document(n)| - 1];
    assert (m < 0 <==> a[0] == '-') && (n < 0 <==> b[0] == '-');
    assert Itoa(Size(m)) == (if m < 0 then a[1..] else a) && Itoa(Size(n)) == if n < 0 then b[1..] else b;
    ValueOfItoa(Size(m));
    ValueOfItoa(Size(n));
  }

  ghost predicate Documents(s: string, n: int) {
    s == Document(n)
  }

  /** Such a library: it reads documents of one integer. */
  ghost function SampleJson(): string -> Option<string> {
    s => if exists n :: Documents(s, n) then
        var n :| Documents(s, n);
        Some(Document(NearestInt(n)))
      else None
  }

  lemma SampleReads(n: int)
    ensures SampleJson()(Document(n)) == Some(Document(NearestInt(n)))
  {
    assert Documents(Document(n), n);
    forall k | Documents(Document(n), k)
      ensures k == n
    {
      DocumentsDiffer(n, k);
    }
  }

  lemma SamplePair(m: int, n: int)
    ensures SampleJson()(Document(m)).Some?
    ensures SampleJson()(Document(m)) == SampleJson()(Document(n)) <==> NearestInt(m) == NearestInt(n)
  {
    SampleReads(m);
    SampleReads(n);
    hide *;
    if Document(NearestInt(m)) == Document(NearestInt(n)) {
      DocumentsDiffer(NearestInt(m), NearestInt(n));
    }
  }

  lemma SampleRounds()
    ensures RoundsNumbers(SampleJson())
  {
    hide SampleJson;
    hide Document;
    hide NearestInt;
    forall m, n | IsInt64(m) && IsInt64(n)
      ensures SampleJson()(Document(m)).Some?
      ensures SampleJson()(Document(m)) == SampleJson()(Document(n)) <==> NearestInt(m) == NearestInt(n)
    {
      SamplePair(m, n);
    }
  }
}
