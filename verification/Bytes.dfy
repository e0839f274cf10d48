/** Byte strings, fixed-width integers and readers. */
module Bytes {

  type Byte = x: int | 0 <= x < 256
  type Data = seq<Byte>

  function Zeros(n: nat): (r: Data)
    ensures |r| == n
  {
    if n == 0 then [] else [0] + Zeros(n - 1)
  }

  function Pow256(width: nat): (r: nat)
    ensures r > 0
  {
    if width == 0 then 1 else 256 * Pow256(width - 1)
  }

  /** `to_le_bytes` of an unsigned integer of the given width; the cast to that width truncates. */
  function LittleEndian(n: nat, width: nat): (r: Data)
    ensures |r| == width
    decreases width
  {
    if width == 0 then [] else [n % 256] + LittleEndian(n / 256, width - 1)
  }

  function FromLittleEndian(d: Data): nat {
    if d == [] then 0 else d[0] + 256 * FromLittleEndian(d[1..])
  }

  function BigEndian(n: nat, width: nat): (r: Data)
    ensures |r| == width
    decreases width
  {
    if width == 0 then [] else BigEndian(n / 256, width - 1) + [n % 256]
  }

  /** Reading back gives the integer reduced to its width. */
  lemma {:induction false} LittleEndianTruncates(n: nat, width: nat)
    ensures FromLittleEndian(LittleEndian(n, width)) == n % Pow256(width)
    decreases width
  {
    if width == 0 {
    } else {
      LittleEndianTruncates(n / 256, width - 1);
      ModSplit(n, Pow256(width - 1));
    }
  }

  lemma ModSplit(n: nat, p: nat)
    requires p > 0
    ensures n % (256 * p) == n % 256 + 256 * (n / 256 % p)
  {
    var q, r := n / 256, n % 256;
    var a, b := q / p, q % p;
    assert n == 256 * q + r && q == p * a + b;
    assert n == (256 * p) * a + (256 * b + r);
    assert 0 <= 256 * b + r < 256 * p;
    DivIsUnique(n, 256 * p, a, 256 * b + r);
  }

  lemma DivIsUnique(n: nat, d: nat, q: nat, r: nat)
    requires d > 0 && n == d * q + r && r < d
    ensures n % d == r
  {
    var q', r' := n / d, n % d;
    assert n == d * q' + r';
    assert q' < q ==> d * (q' + 1) <= d * q;
    assert q < q' ==> d * (q + 1) <= d * q';
  }

  lemma QuotientIs(n: nat, d: nat, b: nat)
    requires d > 0 && d * b <= n < d * (b + 1)
    ensures n / d == b
  {
    var a := n / d;
    assert d * a <= n < d * (a + 1);
    assert a < b ==> d * (a + 1) <= d * b;
    assert b < a ==> d * (b + 1) <= d * a;
  }

  lemma DivideByte(n: nat, q: nat)
    requires q > 0
    ensures n / (256 * q) == n / 256 / q
  {
    var a := n / 256;
    var b, t := a / q, a % q;
    var w := q * b;
    assert a == w + t && (256 * q) * b == 256 * w && (256 * q) * (b + 1) == 256 * w + 256 * q;
    QuotientIs(n, 256 * q, b);
  }

  /** A successful read gives a value and leaves the rest. */
  datatype Read<+T> = Eof | Got(value: T, rest: Data)

  function ReadExact(d: Data, n: nat): Read<Data> {
    if |d| < n then Eof else Got(d[..n], d[n..])
  }

  function ReadInt(d: Data, width: nat): Read<nat> {
    if |d| < width then Eof else Got(FromLittleEndian(d[..width]), d[width..])
  }

  lemma ReadIntBack(n: nat, width: nat, rest: Data)
    ensures ReadInt(LittleEndian(n, width) + rest, width) == Got(n % Pow256(width), rest)
  {
    LittleEndianTruncates(n, width);
    assert (LittleEndian(n, width) + rest)[..width] == LittleEndian(n, width);
  }

  lemma ReadExactBack(d: Data, rest: Data)
    ensures ReadExact(d + rest, |d|) == Got(d, rest)
  {
  }

  // ---- hexadecimal names ----

  const LOWER_HEX: string := "0123456789abcdef"
  const UPPER_HEX: string := "0123456789ABCDEF"

  lemma HexDigitsDiffer(i: nat, j: nat)
    requires i < 16 && j < 16
    ensures |LOWER_HEX| == |UPPER_HEX| == 16
    ensures LOWER_HEX[i] == LOWER_HEX[j] ==> i == j
    ensures UPPER_HEX[i] == UPPER_HEX[j] ==> i == j
  {
  }

  function HexString(d: Data): (r: string)
    ensures |r| == 2 * |d|
  {
    if d == [] then "" else [LOWER_HEX[d[0] / 16], LOWER_HEX[d[0] % 16]] + HexString(d[1..])
  }

  lemma {:induction false} HexIsInjective(a: Data, b: Data)
    requires HexString(a) == HexString(b)
    ensures a == b
  {
    assert |a| == |b|;
    if a == [] {
    } else {
      var x, y := HexString(a), HexString(b);
      assert x[0] == y[0] && x[1] == y[1] && x[2..] == HexString(a[1..]) && y[2..] == HexString(b[1..]);
      HexDigitsDiffer(a[0] / 16, b[0] / 16);
      HexDigitsDiffer(a[0] % 16, b[0] % 16);
      HexIsInjective(a[1..], b[1..]);
    }
  }

  /** `{:0nX}`: exactly `digits` upper-case digits when the number fits. */
  function UpperHex(n: nat, digits: nat): (r: string)
    ensures |r| == digits
    decreases digits
  {
    if digits == 0 then "" else UpperHex(n / 16, digits - 1) + [UPPER_HEX[n % 16]]
  }

  function Pow16(digits: nat): (r: nat)
    ensures r > 0
  {
    if digits == 0 then 1 else 16 * Pow16(digits - 1)
  }

  lemma {:induction false} UpperHexIsInjective(m: nat, n: nat, digits: nat)
    requires m < Pow16(digits) && n < Pow16(digits) && UpperHex(m, digits) == UpperHex(n, digits)
    ensures m == n
    decreases digits
  {
    if digits == 0 {
    } else {
      var x, y := UpperHex(m, digits), UpperHex(n, digits);
      assert x[digits - 1] == y[digits - 1] && x[..digits - 1] == y[..digits - 1];
      HexDigitsDiffer(m % 16, n % 16);
      UpperHexIsInjective(m / 16, n / 16, digits - 1);
    }
  }
}
