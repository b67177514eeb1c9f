/**
 The fixed-width S7 codec: big-endian integers, two's complement, raw float bit patterns.
 */
module S7Codec {

  datatype DataType =
    | TypeBool | TypeInt8 | TypeInt16 | TypeInt32 | TypeInt64 | TypeUint8 | TypeUint16 | TypeUint32 | TypeUint64
    | TypeFloat32 | TypeFloat64 | TypeString | TypeBytes

  type Byte = b: nat | b < 256

  /** A decoded value; floats by bit pattern, strings by the bytes the string helper is given. */
  datatype Value = Bool(b: bool) | Int(n: int) | Float(bits: nat) | Text(bytes: seq<Byte>)

  datatype Decoded = Ok(v: Value) | Err

  function Pow2(n: nat): (p: nat)
    ensures p > 0
  {
    if n == 0 then 1 else 2 * Pow2(n - 1)
  }

  /** The smallest buffer a type can be decoded from, 0 when there is no fixed size. */
  function RequiredSize(dt: DataType): nat {
    match dt
    case TypeBool | TypeUint8 | TypeInt8 | TypeString => 1
    case TypeUint16 | TypeInt16 => 2
    case TypeUint32 | TypeInt32 | TypeFloat32 => 4
    case TypeUint64 | TypeInt64 | TypeFloat64 => 8
    case TypeBytes => 0
  }

  predicate BitAt(b: Byte, bit: nat) {
    (b / Pow2(bit)) % 2 == 1
  }

  /** The unsigned big-endian number in the first `n` bytes. */
  function BigEndian(buf: seq<Byte>, n: nat): nat
    requires n <= |buf|
  {
    if n == 0 then 0 else BigEndian(buf, n - 1) * 256 + buf[n - 1]
  }

  /** Two's complement modulo `m`. */
  function Signed(u: nat, m: nat): int {
    if u < m / 2 then u else u - m
  }

  /** A bit tag reads a bit of its byte; any other tag needs a buffer large enough for its type. */
  function DecodeBuffer(buf: seq<Byte>, isBit: bool, bit: nat, dt: DataType): Decoded {
    if isBit && |buf| > 0 then Ok(Bool(BitAt(buf[0], bit)))
    else if |buf| < RequiredSize(dt) then Err
    else DecodeTyped(buf, bit, dt)
  }

  function DecodeTyped(buf: seq<Byte>, bit: nat, dt: DataType): Decoded
    requires |buf| >= RequiredSize(dt)
  {
    match dt
    case TypeBool => Ok(Bool(BitAt(buf[0], bit)))
    case TypeUint8 => Ok(Int(buf[0]))
    case TypeInt8 => Ok(Int(Signed(buf[0], 0x100)))
    case TypeUint16 => Ok(Int(BigEndian(buf, 2)))
    case TypeInt16 => Ok(Int(Signed(BigEndian(buf, 2), 0x1_0000)))
    case TypeUint32 => Ok(Int(BigEndian(buf, 4)))
    case TypeInt32 => Ok(Int(Signed(BigEndian(buf, 4), 0x1_0000_0000)))
    case TypeFloat32 => Ok(Float(BigEndian(buf, 4)))
    case TypeFloat64 => Ok(Float(BigEndian(buf, 8)))
    case TypeString => Ok(Text(buf))
    case _ => Err
  }

  // ---------------------------------------------------------------------------
  // Bytes
  // ---------------------------------------------------------------------------

  /** The low `k` bytes of `n`, most significant first. */
  function ToBytes(n: nat, k: nat): (b: seq<Byte>)
    ensures |b| == k
  {
    if k == 0 then [] else ToBytes(n / 256, k - 1) + [n % 256]
  }

  function Base(k: nat): nat {
    if k == 0 then 1 else 256 * Base(k - 1)
  }

  /** Big-endian bytes of any width read back as the number. */
  lemma {:induction false} BytesRoundTrip(n: nat, k: nat, rest: seq<Byte>)
    requires n < Base(k)
    ensures BigEndian(ToBytes(n, k) + rest, k) == n
    decreases k
  {
    if k > 0 {
      var last: Byte := n % 256;
      BytesRoundTrip(n / 256, k - 1, [last] + rest);
      assert ToBytes(n, k) + rest == ToBytes(n / 256, k - 1) + ([last] + rest);
    }
  }

  // ---------------------------------------------------------------------------
  // What the bytes mean
  // ---------------------------------------------------------------------------

  function TwoBytes(b0: nat, b1: nat): nat { 0x100 * b0 + b1 }

  function FourBytes(b0: nat, b1: nat, b2: nat, b3: nat): nat { 0x100_0000 * b0 + 0x1_0000 * b1 + 0x100 * b2 + b3 }

  /** Byte by byte, the first weighing most: every width the decoder reads. */
  lemma {:induction false} BytesWeigh(buf: seq<Byte>)
    ensures |buf| >= 2 ==> BigEndian(buf, 2) == TwoBytes(buf[0], buf[1])
    ensures |buf| >= 4 ==> BigEndian(buf, 4) == FourBytes(buf[0], buf[1], buf[2], buf[3])
    ensures |buf| >= 8 ==>
              BigEndian(buf, 8) == 0x1_0000_0000 * FourBytes(buf[0], buf[1], buf[2], buf[3]) + FourBytes(buf[4], buf[5], buf[6], buf[7])
  {
    if |buf| >= 2 {
      assert BigEndian(buf, 1) == BigEndian(buf, 0) * 256 + buf[0] == buf[0];
      assert BigEndian(buf, 2) == BigEndian(buf, 1) * 256 + buf[1];
    }
    if |buf| >= 4 {
      assert BigEndian(buf, 3) == BigEndian(buf, 2) * 256 + buf[2];
      assert BigEndian(buf, 4) == BigEndian(buf, 3) * 256 + buf[3];
    }
    if |buf| >= 8 {
      assert BigEndian(buf, 5) == BigEndian(buf, 4) * 256 + buf[4];
      assert BigEndian(buf, 6) == BigEndian(buf, 5) * 256 + buf[5];
      assert BigEndian(buf, 7) == BigEndian(buf, 6) * 256 + buf[6];
      assert BigEndian(buf, 8) == BigEndian(buf, 7) * 256 + buf[7];
    }
  }

  /** The number a decoder makes of `n` in `m` values whose first byte is `top`: its top bit is the sign. */
  function TopSigned(n: nat, top: nat, m: nat): int {
    if top >= 0x80 then n - m else n
  }

  /** An 8- and a 16-bit tag from their bytes. */
  lemma {:induction false} DecodesWord(buf: seq<Byte>, bit: nat)
    requires |buf| >= 2
    ensures DecodeBuffer(buf, false, bit, TypeUint8) == Ok(Int(buf[0]))
    ensures DecodeBuffer(buf, false, bit, TypeInt8) == Ok(Int(TopSigned(buf[0], buf[0], 0x100)))
    ensures var n := TwoBytes(buf[0], buf[1]);
            && DecodeBuffer(buf, false, bit, TypeUint16) == Ok(Int(n))
            && DecodeBuffer(buf, false, bit, TypeInt16) == Ok(Int(TopSigned(n, buf[0], 0x1_0000)))
  {
    BytesWeigh(buf);
  }

  /** A 32-bit tag from its four bytes. */
  lemma {:induction false} DecodesDoubleWord(buf: seq<Byte>, bit: nat)
    requires |buf| >= 4
    ensures var n := FourBytes(buf[0], buf[1], buf[2], buf[3]);
            && DecodeBuffer(buf, false, bit, TypeUint32) == Ok(Int(n)) && DecodeBuffer(buf, false, bit, TypeFloat32) == Ok(Float(n))
            && DecodeBuffer(buf, false, bit, TypeInt32) == Ok(Int(TopSigned(n, buf[0], 0x1_0000_0000)))
  {
    BytesWeigh(buf);
  }

  /** The bit pattern of a 64-bit float from its eight bytes. */
  lemma {:induction false} DecodesLong(buf: seq<Byte>, bit: nat)
    requires |buf| >= 8
    ensures DecodeBuffer(buf, false, bit, TypeFloat64) ==
            Ok(Float(0x1_0000_0000 * FourBytes(buf[0], buf[1], buf[2], buf[3]) + FourBytes(buf[4], buf[5], buf[6], buf[7])))
  {
    BytesWeigh(buf);
  }

  /** `a` comes before `b` by the first of the `n` bytes in which they differ. */
  predicate Before(a: seq<Byte>, b: seq<Byte>, n: nat)
    requires n <= |a| && n <= |b|
  {
    exists k :: 0 <= k < n && a[k] < b[k] && a[..k] == b[..k]
  }

  lemma {:induction false} SameBytesSameNumber(a: seq<Byte>, b: seq<Byte>, n: nat)
    requires n <= |a| && n <= |b| && a[..n] == b[..n]
    ensures BigEndian(a, n) == BigEndian(b, n)
  {
    if n > 0 {
      assert a[..n - 1] == a[..n][..n - 1] && b[..n - 1] == b[..n][..n - 1];
      assert a[n - 1] == a[..n][n - 1] && b[n - 1] == b[..n][n - 1];
      SameBytesSameNumber(a, b, n - 1);
    }
  }

  lemma {:induction false} BeforeIsLess(a: seq<Byte>, b: seq<Byte>, n: nat, k: nat)
    requires n <= |a| && n <= |b| && k < n && a[k] < b[k] && a[..k] == b[..k]
    ensures BigEndian(a, n) < BigEndian(b, n)
  {
    if k == n - 1 {
      SameBytesSameNumber(a, b, n - 1);
    } else {
      BeforeIsLess(a, b, n - 1, k);
    }
  }

  /** The first of `n` bytes in which two buffers differ. */
  lemma {:induction false} FirstDifference(a: seq<Byte>, b: seq<Byte>, n: nat) returns (k: nat)
    requires n <= |a| && n <= |b| && a[..n] != b[..n]
    ensures k < n && a[k] != b[k] && a[..k] == b[..k]
  {
    if a[..n - 1] == b[..n - 1] {
      k := n - 1;
      assert a[..n] == a[..n - 1] + [a[n - 1]] && b[..n] == b[..n - 1] + [b[n - 1]];
    } else {
      k := FirstDifference(a, b, n - 1);
    }
  }

  /** Comparing numbers of any width is comparing their bytes from the first on. */
  lemma {:induction false} ComparesFromTheFirst(a: seq<Byte>, b: seq<Byte>, n: nat)
    requires n <= |a| && n <= |b|
    ensures BigEndian(a, n) < BigEndian(b, n) <==> Before(a, b, n)
  {
    if a[..n] == b[..n] {
      SameBytesSameNumber(a, b, n);
      forall k | 0 <= k < n ensures a[k] == b[k] {
        assert a[..n][k] == b[..n][k];
      }
    } else {
      var k := FirstDifference(a, b, n);
      if a[k] < b[k] {
        BeforeIsLess(a, b, n, k);
      } else {
        BeforeIsLess(b, a, n, k);
        NotBefore(a, b, n, k);
      }
    }
  }

  lemma {:induction false} NotBefore(a: seq<Byte>, b: seq<Byte>, n: nat, k: nat)
    requires n <= |a| && n <= |b| && k < n && b[k] < a[k] && a[..k] == b[..k]
    ensures !Before(a, b, n)
  {
    forall j | 0 <= j < n ensures !(a[j] < b[j] && a[..j] == b[..j]) {
      if j < k {
        assert a[j] == a[..k][j] == b[..k][j] == b[j];
      } else if j > k {
        assert a[..j][k] == a[k] && b[..j][k] == b[k];
      }
    }
  }

  /** The bits below `n` that are set, by their weights. */
  function BitSum(b: Byte, n: nat): nat {
    if n == 0 then 0 else BitSum(b, n - 1) + (if BitAt(b, n - 1) then Pow2(n - 1) else 0)
  }

  lemma {:induction false} Multiples(m: int, d: int)
    requires m >= 0
    ensures d >= 1 ==> m * d >= m
    ensures d <= -1 ==> m * d <= -m
  {
    if d >= 1 {
      assert m * d == m + m * (d - 1);
    } else if d <= -1 {
      assert m * d == -m + m * (d + 1);
    }
  }

  /** Quotient and remainder are unique. */
  lemma {:induction false} DivisionIs(n: nat, m: nat, q: nat, r: nat)
    requires r < m && n == m * q + r
    ensures n / m == q && n % m == r
  {
    var q', r' := n / m, n % m;
    assert n == m * q' + r';
    assert m * (q' - q) == m * q' - m * q;
    Multiples(m, q' - q);
  }

  lemma {:induction false} Doubled(p: nat, h: nat, s: nat)
    ensures p * (2 * h + s) == (2 * p) * h + p * s
  {
  }

  lemma {:induction false} OneMoreBitOf(n: nat, p: nat, q: nat, r: nat, h: nat, s: nat)
    requires r < p && n == p * q + r && q == 2 * h + s && s < 2
    ensures n % (2 * p) == r + if s == 1 then p else 0
  {
    Doubled(p, h, s);
    assert p * s == if s == 1 then p else 0;
    DivisionIs(n, 2 * p, h, p * s + r);
  }

  /** The low bits of a number, one more of them. */
  lemma {:induction false} OneMoreBit(n: nat, p: nat)
    requires p > 0
    ensures n % (2 * p) == n % p + (if (n / p) % 2 == 1 then p else 0)
  {
    var q := n / p;
    OneMoreBitOf(n, p, q, n % p, q / 2, q % 2);
  }

  lemma {:induction false} LowBitsSum(b: Byte, n: nat)
    ensures BitSum(b, n) == b % Pow2(n)
  {
    if n > 0 {
      LowBitsSum(b, n - 1);
      OneMoreBit(b, Pow2(n - 1));
    }
  }

  lemma {:induction false} EightBits()
    ensures Pow2(8) == 256
  {
    assert Pow2(2) == 4;
    assert Pow2(3) == 2 * Pow2(2) && Pow2(4) == 2 * Pow2(3) && Pow2(5) == 2 * Pow2(4);
    assert Pow2(6) == 2 * Pow2(5) && Pow2(7) == 2 * Pow2(6) && Pow2(8) == 2 * Pow2(7);
  }

  /** A byte is the sum of the weights of its set bits. */
  lemma {:induction false} BitsMakeTheByte(b: Byte)
    ensures BitSum(b, 8) == b
  {
    LowBitsSum(b, 8);
    EightBits();
  }

  /** There is no bit beyond the eighth. */
  lemma {:induction false} NoNinthBit(b: Byte, bit: nat)
    requires bit >= 8
    ensures !BitAt(b, bit)
  {
    EightBits();
    PowersGrow(8, bit);
  }

  lemma {:induction false} PowersGrow(m: nat, n: nat)
    ensures m <= n ==> Pow2(m) <= Pow2(n)
  {
    if m < n {
      PowersGrow(m, n - 1);
    }
  }
}
