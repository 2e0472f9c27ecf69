/** Byte strings and decimal numbers. A string of the model is a Go string:
    one char per byte, so `|s|` is Go's `len(s)`. */
module Text {

  /** The largest value of Go's int on the 64-bit platforms the controller runs on. */
  const MAX_INT := 0x7FFF_FFFF_FFFF_FFFF

  predicate IsDigit(c: char) {
    '0' <= c <= '9'
  }

  predicate AllDigits(s: string) {
    forall i | 0 <= i < |s| :: IsDigit(s[i])
  }

  function DigitChar(d: nat): (c: char)
    requires d < 10
  {
    '0' + d as char
  }

  /** fmt's %d and strconv.Itoa of a number that is not negative. */
  function Itoa(n: nat): (s: string)
    ensures |s| > 0 && AllDigits(s)
  {
    if n < 10 then [DigitChar(n)] else Itoa(n / 10) + [DigitChar(n % 10)]
  }

  /** The value a run of decimal digits stands for. */
  function Value(s: string): nat
    requires AllDigits(s)
  {
    if s == [] then 0 else Value(s[..|s| - 1]) * 10 + (s[|s| - 1] as int - '0' as int)
  }

  lemma {:induction false} ValueOfItoa(n: nat)
    ensures Value(Itoa(n)) == n
  {
    if n >= 10 {
      ValueOfItoa(n / 10);
      assert Itoa(n)[..|Itoa(n)| - 1] == Itoa(n / 10);
    }
  }

  lemma {:induction false} ItoaMonotone(m: nat, n: nat)
    requires m <= n
    ensures |Itoa(m)| <= |Itoa(n)|
  {
    if m >= 10 {
      ItoaMonotone(m / 10, n / 10);
    }
  }

  function Pow10(k: nat): nat {
    if k == 0 then 1 else 10 * Pow10(k - 1)
  }

  lemma {:induction false} ItoaBounded(n: nat, k: nat)
    requires k > 0 && n < Pow10(k)
    ensures |Itoa(n)| <= k
  {
    if n >= 10 {
      assert Pow10(1) == 10 * Pow10(0) == 10;
      ItoaBounded(n / 10, k - 1);
    }
  }

  /** A Go int has at most 19 digits. */
  lemma ItoaOfInt(n: nat)
    requires n <= MAX_INT
    ensures |Itoa(n)| <= 19
  {
    assert Pow10(5) == 100000;
    assert Pow10(10) == 10000000000 by { assert Pow10(8) == 100000000; }
    assert Pow10(15) == 1000000000000000 by { assert Pow10(13) == 10000000000000; }
    assert Pow10(19) == 10000000000000000000 by { assert Pow10(17) == 100000000000000000; }
    ItoaBounded(n, 19);
  }

  /** strings.Join. */
  function Join(items: seq<string>, sep: string): string {
    if items == [] then ""
    else if |items| == 1 then items[0]
    else Join(items[..|items| - 1], sep) + sep + items[|items| - 1]
  }

  lemma JoinStep(items: seq<string>, i: nat, sep: string)
    requires i < |items|
    ensures Join(items[..i + 1], sep) == Join(items[..i], sep) + (if i == 0 then "" else sep) + items[i]
  {
    assert items[..i + 1][..i] == items[..i];
  }

  lemma NoMarkAfter(a: string, mark: char, b: string)
    requires mark !in b
    ensures var s := a + [mark] + b; s[|a|] == mark && forall k | |a| < k < |s| :: s[k] != mark
  {
    var s := a + [mark] + b;
    assert forall k | |a| < k < |s| :: s[k] == b[k - |a| - 1];
  }

  /** A string splits in one way at the last occurrence of a mark. */
  lemma SplitsAtLast(a: string, mark: char, b: string, c: string, d: string)
    requires mark !in b && mark !in d && a + [mark] + b == c + [mark] + d
    ensures a == c && b == d
  {
    var s := a + [mark] + b;
    NoMarkAfter(a, mark, b);
    NoMarkAfter(c, mark, d);
    assert |a| == |c|;
    assert a == s[..|a|] && b == s[|a| + 1..] && c == s[..|c|] && d == s[|c| + 1..];
  }

  lemma DigitsThenNone(a: string, x: string)
    requires AllDigits(a) && (x == "" || !IsDigit(x[0]))
    ensures forall k | 0 <= k < |a| :: IsDigit((a + x)[k])
    ensures |a| < |a + x| ==> !IsDigit((a + x)[|a|])
  {
    assert x != "" ==> (a + x)[|a|] == x[0];
  }

  lemma DigitsEndOnce(a: string, x: string, b: string, y: string)
    requires AllDigits(a) && AllDigits(b) && a + x == b + y
    requires (x == "" || !IsDigit(x[0])) && (y == "" || !IsDigit(y[0]))
    ensures a == b && x == y
  {
    var s := a + x;
    DigitsThenNone(a, x);
    DigitsThenNone(b, y);
    assert |a| == |b|;
    assert a == s[..|a|] && b == s[..|b|] && x == s[|a|..] && y == s[|b|..];
  }

  function Marked(a: string, mark: char, b: string): string {
    a + [mark] + b
  }

  /** A string that holds a mark splits at its last one. */
  lemma {:induction false} LastMark(s: string, mark: char) returns (a: string, b: string)
    requires mark in s
    ensures s == Marked(a, mark, b) && mark !in b
  {
    var n := |s| - 1;
    if s[n] == mark {
      a, b := s[..n], "";
    } else {
      a, b := LastMark(s[..n], mark);
      b := b + [s[n]];
    }
  }

  /** Whatever stands before v and a mark, no other split of the same string
      ends in a text without the mark. */
  ghost predicate SplitsAlone(mark: char, v: string) {
    forall p, q, u | mark !in u && Marked(p, mark, v) == Marked(q, mark, u) :: p == q && v == u
  }

  /** Every v that holds the mark has, behind every p, another split. */
  lemma AnotherSplit(p: string, mark: char, v: string) returns (q: string, u: string)
    requires mark in v
    ensures Marked(p, mark, v) == Marked(q, mark, u) && mark !in u && q != p && u != v
  {
    var x;
    x, u := LastMark(v, mark);
    q := Marked(p, mark, x);
  }

  lemma SplitsAloneIff(mark: char, v: string)
    ensures SplitsAlone(mark, v) <==> mark !in v
  {
    if mark !in v {
      forall p, q, u | mark !in u && Marked(p, mark, v) == Marked(q, mark, u)
        ensures p == q && v == u
      {
        SplitsAtLast(p, mark, v, q, u);
      }
    } else {
      var q, u := AnotherSplit("", mark, v);
    }
  }
}
