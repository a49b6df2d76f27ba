/** Version tuples as text: sixteen hex digits per number, so that text order is the policy's order. */
module Sortable {
  import opened Powers

  /** A finite float64: its fields as the format lays them out. */
  datatype Float64 = Float64(negative: bool, exponent: nat, mantissa: nat)

  const TWO_52: nat := 0x10_0000_0000_0000
  const TWO_63: nat := 0x8000_0000_0000_0000
  const TWO_64: nat := 0x1_0000_0000_0000_0000
  const TWO_32: nat := 0x1_0000_0000

  predicate Finite(f: Float64) {
    f.exponent < 2047 && f.mantissa < TWO_52
  }

  /** The magnitude in units of the least subnormal, 2^-1074: every finite float64 is a whole number of them. */
  function Magnitude(f: Float64): nat {
    if f.exponent == 0 then f.mantissa else (TWO_52 + f.mantissa) * Pow2(f.exponent - 1)
  }

  function Value(f: Float64): int {
    if f.negative then -(Magnitude(f) as int) else Magnitude(f)
  }

  /** Which of two tuples is the greater, by sign: the first place they differ decides, else their lengths do. */
  function CompareTuples(left: seq<Float64>, right: seq<Float64>): int {
    if left == [] || right == [] then |left| - |right|
    else if Value(left[0]) != Value(right[0]) then Value(left[0]) - Value(right[0])
    else CompareTuples(left[1..], right[1..])
  }

  /** The same comparison as the index scan it is written as. */
  method CompareTuplesByScan(left: seq<Float64>, right: seq<Float64>) returns (r: int)
    ensures r == CompareTuples(left, right)
  {
    var length := if |left| < |right| then |left| else |right|;
    assert left[0..] == left && right[0..] == right;
    for i := 0 to length
      invariant CompareTuples(left[i..], right[i..]) == CompareTuples(left, right)
    {
      var difference := Value(left[i]) - Value(right[i]);
      if difference != 0 {
        return difference;
      }
      assert left[i..][1..] == left[i + 1..] && right[i..][1..] == right[i + 1..];
    }
    r := |left| - |right|;
  }

  // ---------------------------------------------------------------- the encoding

  function Bits(f: Float64): nat {
    (if f.negative then TWO_63 else 0) + f.exponent * TWO_52 + f.mantissa
  }

  function Zero(): Float64 {
    Float64(false, 0, 0)
  }

  function HexDigit(d: nat): char
    requires d < 16
  {
    if d < 10 then '0' + d as char else 'a' + (d - 10) as char
  }

  function Pow16(n: nat): (p: nat)
    ensures p > 0
  {
    if n == 0 then 1 else 16 * Pow16(n - 1)
  }

  /** The last `width` hex digits of a number, padded with zeros. */
  function Hex(n: nat, width: nat): (s: string)
    ensures |s| == width
  {
    if width == 0 then "" else Hex(n / 16, width - 1) + [HexDigit(n % 16)]
  }

  /** Flip the sign bit of a positive number and every bit of a negative one, word by word. */
  function SortableNumber(f: Float64): string {
    var bits := Bits(if Value(f) == 0 then Zero() else f);
    var high, low := bits / TWO_32, bits % TWO_32;
    if high % TWO_32 >= TWO_32 / 2
    then Hex(TWO_32 - 1 - high % TWO_32, 8) + Hex(TWO_32 - 1 - low, 8)
    else Hex(high + TWO_32 / 2, 8) + Hex(low, 8)
  }

  function SortableTuple(version: seq<Float64>): string {
    if version == [] then "" else SortableNumber(version[0]) + SortableTuple(version[1..])
  }

  /** The order of text, by code unit: the sign says which comes first. */
  function CompareText(a: string, b: string): int {
    if a == [] || b == [] then |a| - |b|
    else if a[0] != b[0] then (if a[0] < b[0] then -1 else 1)
    else CompareText(a[1..], b[1..])
  }

  function Sign(n: int): int {
    if n < 0 then -1 else if n == 0 then 0 else 1
  }

  // ---------------------------------------------------------------- text order

  lemma {:induction false} TextTotal(a: string, b: string)
    ensures Sign(CompareText(a, b)) == -Sign(CompareText(b, a))
    ensures CompareText(a, b) == 0 <==> a == b
  {
    if a != [] && b != [] {
      TextTotal(a[1..], b[1..]);
      assert a == [a[0]] + a[1..] && b == [b[0]] + b[1..];
    }
  }

  lemma {:induction false} TextTransitive(a: string, b: string, c: string)
    requires CompareText(a, b) >= 0 && CompareText(b, c) >= 0
    ensures CompareText(a, c) >= 0
    ensures CompareText(a, b) > 0 || CompareText(b, c) > 0 ==> CompareText(a, c) > 0
  {
    if a != [] && b != [] && c != [] && a[0] == b[0] == c[0] {
      TextTransitive(a[1..], b[1..], c[1..]);
    }
  }

  lemma {:induction false} TextAppend(a: string, b: string, x: string, y: string)
    requires |a| == |b|
    ensures CompareText(a + x, b + y) == if CompareText(a, b) != 0 then CompareText(a, b) else CompareText(x, y)
  {
    if a == [] {
      assert a + x == x && b + y == y;
    } else {
      assert (a + x)[1..] == a[1..] + x && (b + y)[1..] == b[1..] + y;
      TextAppend(a[1..], b[1..], x, y);
    }
  }

  /** Padded hex digits sort as the numbers do. */
  lemma {:induction false} HexOrder(m: nat, n: nat, width: nat)
    requires m < Pow16(width) && n < Pow16(width)
    ensures CompareText(Hex(m, width), Hex(n, width)) == Sign(m - n)
  {
    if width > 0 {
      HexOrder(m / 16, n / 16, width - 1);
      var x, y := [HexDigit(m % 16)], [HexDigit(n % 16)];
      TextAppend(Hex(m / 16, width - 1), Hex(n / 16, width - 1), x, y);
      assert x[1..] == [] && y[1..] == [];
    }
  }

  // ---------------------------------------------------------------- numeric order

  lemma Scaled(a: nat, b: nat, p: nat)
    requires a < b && p > 0
    ensures a * p < b * p
  {
  }

  /** Read without their sign, the bits of a float64 sort as its magnitude. */
  lemma MagnitudeOrder(f: Float64, g: Float64)
    requires Finite(f) && Finite(g)
    ensures Sign(Magnitude(f) - Magnitude(g)) == Sign((f.exponent * TWO_52 + f.mantissa) - (g.exponent * TWO_52 + g.mantissa))
  {
    if f.exponent < g.exponent {
      SmallerExponent(f, g);
    } else if g.exponent < f.exponent {
      SmallerExponent(g, f);
    } else if f.exponent > 0 {
      if f.mantissa < g.mantissa {
        Scaled(TWO_52 + f.mantissa, TWO_52 + g.mantissa, Pow2(f.exponent - 1));
      } else if g.mantissa < f.mantissa {
        Scaled(TWO_52 + g.mantissa, TWO_52 + f.mantissa, Pow2(f.exponent - 1));
      }
    }
  }

  lemma SmallerExponent(f: Float64, g: Float64)
    requires Finite(f) && Finite(g) && f.exponent < g.exponent
    ensures Magnitude(f) < Magnitude(g)
  {
    var q := Pow2(g.exponent - 1);
    assert Magnitude(g) >= TWO_52 * q by {
      Distribute(TWO_52, g.mantissa, q);
    }
    if f.exponent == 0 {
      assert TWO_52 <= TWO_52 * q;
    } else {
      var p := Pow2(f.exponent - 1);
      Pow2Grows(f.exponent, g.exponent - 1);
      Scaled(TWO_52 + f.mantissa, 2 * TWO_52, p);
      assert 2 * TWO_52 * p == TWO_52 * Pow2(f.exponent);
    }
  }

  lemma Distribute(a: nat, b: nat, q: nat)
    ensures (a + b) * q == a * q + b * q && b * q >= 0
  {
  }

  /** The number the sixteen digits spell. */
  function Code(f: Float64): int {
    var bits := Bits(if Value(f) == 0 then Zero() else f);
    if bits >= TWO_63 then TWO_64 - 1 - bits else bits + TWO_63
  }

  lemma CodeOrder(f: Float64, g: Float64)
    requires Finite(f) && Finite(g)
    ensures Sign(Code(f) - Code(g)) == Sign(Value(f) - Value(g))
  {
    ZeroMagnitude(f);
    ZeroMagnitude(g);
    MagnitudeOrder(f, g);
    MagnitudeOrder(f, Zero());
    MagnitudeOrder(g, Zero());
  }

  lemma ZeroMagnitude(f: Float64)
    requires Finite(f)
    ensures Magnitude(f) == 0 <==> f.exponent == 0 && f.mantissa == 0
  {
    if f.exponent > 0 {
      Scaled(0, TWO_52 + f.mantissa, Pow2(f.exponent - 1));
    }
  }

  lemma EightDigits()
    ensures Pow16(8) == TWO_32
  {
    assert Pow16(4) == 0x1_0000;
    assert Pow16(8) == 16 * (16 * (16 * (16 * Pow16(4))));
  }

  /** Two words of eight digits sort as the number they make. */
  lemma WordsOrder(a: nat, b: nat, x: nat, y: nat)
    requires a < TWO_32 && b < TWO_32 && x < TWO_32 && y < TWO_32
    ensures CompareText(Hex(a, 8) + Hex(b, 8), Hex(x, 8) + Hex(y, 8)) == Sign((a * TWO_32 + b) - (x * TWO_32 + y))
  {
    hide Hex, Pow16;
    EightDigits();
    HexOrder(a, x, 8);
    HexOrder(b, y, 8);
    TextAppend(Hex(a, 8), Hex(x, 8), Hex(b, 8), Hex(y, 8));
  }

  /** The words a float64 is spelled with make its code. */
  lemma SpelledAs(f: Float64) returns (high: nat, low: nat)
    requires Finite(f)
    ensures high < TWO_32 && low < TWO_32
    ensures SortableNumber(f) == Hex(high, 8) + Hex(low, 8) && Code(f) == high * TWO_32 + low
  {
    hide Hex, Magnitude;
    var bits := Bits(if Value(f) == 0 then Zero() else f);
    assert bits < TWO_64;
    if bits / TWO_32 >= TWO_32 / 2 {
      high, low := TWO_32 - 1 - bits / TWO_32, TWO_32 - 1 - bits % TWO_32;
    } else {
      high, low := bits / TWO_32 + TWO_32 / 2, bits % TWO_32;
    }
  }

  /** A number's text: two words of hex digits, of the code that stands as far from 2^63 as the number's bits from 0. */
  lemma NumberText(f: Float64)
    requires Finite(f)
    ensures var bits := f.exponent * TWO_52 + f.mantissa;
      var code := if f.negative && bits != 0 then TWO_63 - 1 - bits else TWO_63 + bits;
      SortableNumber(f) == Hex(code / TWO_32, 8) + Hex(code % TWO_32, 8)
  {
    hide Hex, SortableNumber, Magnitude;
    var high, low := SpelledAs(f);
    ZeroMagnitude(f);
    assert Code(f) / TWO_32 == high && Code(f) % TWO_32 == low;
  }

  lemma {:induction false} HexAt(n: nat, width: nat, i: nat)
    requires i < width
    ensures Hex(n, width)[i] == "0123456789abcdef"[n / Pow16(width - 1 - i) % 16]
  {
    if i < width - 1 {
      HexAt(n / 16, width - 1, i);
      Shift(n, Pow16(width - 2 - i));
    }
  }

  lemma Shift(n: nat, p: nat)
    requires p > 0
    ensures n / 16 / p == n / (16 * p)
  {
    var q, r := n / 16 / p, n / 16 % p;
    assert n / 16 == q * p + r;
    var low := n % 16;
    assert n == q * (16 * p) + (16 * r + low);
    assert 0 <= 16 * r + low < 16 * p;
    Quotient(n, 16 * p, q, 16 * r + low);
  }

  lemma Quotient(n: nat, d: nat, q: nat, r: nat)
    requires d > 0 && n == q * d + r && r < d
    ensures n / d == q
  {
    var e := n / d;
    if e > q {
      AtLeastTimes(q + 1, e, d);
    } else if e < q {
      AtLeastTimes(e + 1, q, d);
    }
  }

  lemma AtLeastTimes(a: nat, b: nat, d: nat)
    requires a <= b
    ensures a * d <= b * d
  {
  }

  /** The text of two finite numbers sorts as the numbers do: the sign included, and -0 as 0. */
  lemma NumberOrder(f: Float64, g: Float64)
    requires Finite(f) && Finite(g)
    ensures |SortableNumber(f)| == |SortableNumber(g)| == 16
    ensures CompareText(SortableNumber(f), SortableNumber(g)) == Sign(Value(f) - Value(g))
  {
    hide Hex, Magnitude, Code, SortableNumber;
    var a, b := SpelledAs(f);
    var x, y := SpelledAs(g);
    WordsOrder(a, b, x, y);
    CodeOrder(f, g);
  }

  /** The text of version tuples sorts as the policy compares them, for every pair of finite tuples. */
  lemma {:induction false} TupleOrder(left: seq<Float64>, right: seq<Float64>)
    requires forall f :: f in left ==> Finite(f)
    requires forall f :: f in right ==> Finite(f)
    ensures Sign(CompareText(SortableTuple(left), SortableTuple(right))) == Sign(CompareTuples(left, right))
  {
    hide SortableNumber, Value;
    if left == [] || right == [] {
      TupleLength(left);
      TupleLength(right);
    } else {
      NumberOrder(left[0], right[0]);
      TextAppend(SortableNumber(left[0]), SortableNumber(right[0]), SortableTuple(left[1..]), SortableTuple(right[1..]));
      TupleOrder(left[1..], right[1..]);
    }
  }

  lemma {:induction false} TupleLength(version: seq<Float64>)
    requires forall f :: f in version ==> Finite(f)
    ensures |SortableTuple(version)| == 16 * |version|
  {
    if version != [] {
      NumberOrder(version[0], version[0]);
      TupleLength(version[1..]);
    }
  }
}
