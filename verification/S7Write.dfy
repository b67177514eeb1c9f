/**
 Writing S7 values. A write command carries a value of any Go kind; helpers convert it to the width
 of the tag, and a kind a helper does not list becomes zero. What survives a write and a read is
 stated exactly, for every kind, value, type and address.
 */
module S7Write {
  import opened Common
  import opened S7Codec

  /** The Go integer kinds; `int` and `uint` have 64 bits. */
  datatype Kind = U8 | I8 | U16 | I16 | U32 | I32 | U64 | I64 | UInt | SInt

  /** The value of a command: an integer, a float by its bits, a flag, bytes, or something else. */
  datatype Written = Whole(kind: Kind, n: int) | Single(bits: nat) | Double(bits: nat) | Flag(b: bool) | Raw(bytes: seq<Byte>) | Opaque

  /** Floating point: whole parts (none for infinities and not-a-number) and conversions, on bit patterns. */
  datatype Floats = Floats(
    whole32: nat -> Option<int>, whole64: nat -> Option<int>,
    narrow: nat -> nat, widen: nat -> nat, of32: int -> nat, of64: int -> nat)

  const W8: nat := 0x100
  const W16: nat := 0x1_0000
  const W32: nat := 0x1_0000_0000
  const W64: nat := 0x1_0000_0000_0000_0000

  /** Conversions stay within their width, and only zero converts to the zero pattern. */
  ghost predicate Proper(f: Floats) {
    && (forall b :: f.narrow(b) < W32) && (forall b :: f.widen(b) < W64)
    && (forall n :: f.of32(n) < W32 && (f.of32(n) == 0 <==> n == 0))
    && (forall n :: f.of64(n) < W64 && (f.of64(n) == 0 <==> n == 0))
  }

  /** A float has the bits of its width. */
  predicate Sized(v: Written) {
    match v
    case Single(b) => b < W32
    case Double(b) => b < W64
    case _ => true
  }

  // ---------------------------------------------------------------------------
  // The conversion helpers
  // ---------------------------------------------------------------------------

  /**
   A float converted to an unsigned type of `m` values. A whole part that does not fit has no defined
   result: `stray` stands for what the machine makes of those bits.
   */
  function Truncate(whole: Option<int>, bits: nat, m: nat, stray: nat -> nat): nat
    requires m > 0
  {
    if whole.Some? && 0 <= whole.value < m then whole.value else stray(bits) % m
  }

  predicate Known16(k: Kind) { k in {SInt, I16, U16, I32, U32} }

  function ToUint16(f: Floats, stray: nat -> nat, v: Written): nat {
    match v
    case Whole(k, n) => if Known16(k) then n % W16 else 0
    case Single(b) => Truncate(f.whole32(b), b, W16, stray)
    case Double(b) => Truncate(f.whole64(b), b, W16, stray)
    case _ => 0
  }

  predicate Known32(k: Kind) { k in {SInt, I32, U32, I64, U64} }

  function ToUint32(f: Floats, stray: nat -> nat, v: Written): nat {
    match v
    case Whole(k, n) => if Known32(k) then n % W32 else 0
    case Double(b) => Truncate(f.whole64(b), b, W32, stray)
    case _ => 0
  }

  predicate Known64(k: Kind) { k in {SInt, I64, U64, I32, U32, I16, U16} }

  function ToUint64(f: Floats, stray: nat -> nat, v: Written): nat {
    match v
    case Whole(k, n) => if Known64(k) then n % W64 else 0
    case Single(b) => Truncate(f.whole32(b), b, W64, stray)
    case Double(b) => Truncate(f.whole64(b), b, W64, stray)
    case _ => 0
  }

  predicate KnownFloat32(k: Kind) { k in {SInt, I32, U32} }

  function ToFloat32(f: Floats, v: Written): nat {
    match v
    case Whole(k, n) => if KnownFloat32(k) then f.of32(n) else 0
    case Single(b) => b
    case Double(b) => f.narrow(b)
    case _ => 0
  }

  function ToFloat64(f: Floats, v: Written): nat {
    match v
    case Whole(_, n) => f.of64(n)
    case Single(b) => f.widen(b)
    case Double(b) => b
    case Flag(b) => f.of64(if b then 1 else 0)
    case _ => 0
  }

  // ---------------------------------------------------------------------------
  // Encoding
  // ---------------------------------------------------------------------------

  datatype Encoded = Bytes(buf: seq<Byte>) | Refused

  predicate Numeric(dt: DataType) {
    !(dt == TypeBool || dt == TypeString || dt == TypeBytes)
  }

  /** The number a numeric write puts at the start of the buffer. */
  function Number(f: Floats, stray: nat -> nat, v: Written, dt: DataType): nat {
    match dt
    case TypeUint8 | TypeInt8 => ToUint16(f, stray, v) % W8
    case TypeUint16 | TypeInt16 => ToUint16(f, stray, v)
    case TypeUint32 | TypeInt32 => ToUint32(f, stray, v)
    case TypeUint64 | TypeInt64 => ToUint64(f, stray, v)
    case TypeFloat32 => ToFloat32(f, v)
    case TypeFloat64 => ToFloat64(f, v)
    case _ => 0
  }

  function Zeros(n: nat): (z: seq<Byte>)
    ensures |z| == n
  {
    seq<Byte>(n, i => 0)
  }

  /** Encodes a value into the buffer of an address of `size` bytes. */
  function EncodeS7Value(f: Floats, stray: nat -> nat, v: Written, size: nat, dt: DataType): Encoded {
    var k := RequiredSize(dt);
    if size < k || dt == TypeString then Refused
    else if dt == TypeBool then Bytes([if v.Flag? && v.b then 1 else 0] + Zeros(size - 1))
    else if dt == TypeBytes then
      (if !v.Raw? then Refused
       else if |v.bytes| <= size then Bytes(v.bytes + Zeros(size - |v.bytes|)) else Bytes(v.bytes[..size]))
    else Bytes(ToBytes(Number(f, stray, v, dt), k) + Zeros(size - k))
  }

  // ---------------------------------------------------------------------------
  // What a write and a read should give back
  // ---------------------------------------------------------------------------

  /** The reading that says what the command said, a float given to an integer tag by its whole part. */
  function Meaning(f: Floats, v: Written, dt: DataType): Option<Value> {
    match dt
    case TypeBool => if v.Flag? then Some(Bool(v.b)) else None
    case TypeString | TypeBytes => None
    case TypeFloat32 =>
      (match v case Whole(_, n) => Some(Float(f.of32(n))) case Single(b) => Some(Float(b)) case Double(b) => Some(Float(f.narrow(b))) case _ => None)
    case TypeFloat64 =>
      (match v case Whole(_, n) => Some(Float(f.of64(n))) case Single(b) => Some(Float(f.widen(b))) case Double(b) => Some(Float(b)) case _ => None)
    case _ => (var w := WholeOf(f, v); if w.Some? then Some(Int(w.value)) else None)
  }

  function WholeOf(f: Floats, v: Written): Option<int> {
    match v
    case Whole(_, n) => Some(n)
    case Single(b) => f.whole32(b)
    case Double(b) => f.whole64(b)
    case _ => None
  }

  predicate SameRead(f: Floats, stray: nat -> nat, v: Written, size: nat, bit: nat, dt: DataType) {
    var e := EncodeS7Value(f, stray, v, size, dt);
    e.Bytes? && Meaning(f, v, dt).Some? && DecodeBuffer(e.buf, false, bit, dt) == Ok(Meaning(f, v, dt).value)
  }

  /** Whatever the machine makes of floats that do not fit. */
  ghost predicate AlwaysSameRead(f: Floats, v: Written, size: nat, bit: nat, dt: DataType) {
    forall stray: nat -> nat :: SameRead(f, stray, v, size, bit, dt)
  }

  /** The integers a readable integer type holds. */
  predicate InRange(n: int, dt: DataType) {
    match dt
    case TypeUint8 => 0 <= n < W8
    case TypeInt8 => -128 <= n < 128
    case TypeUint16 => 0 <= n < W16
    case TypeInt16 => -0x8000 <= n < 0x8000
    case TypeUint32 => 0 <= n < W32
    case TypeInt32 => -0x8000_0000 <= n < 0x8000_0000
    case _ => false
  }

  predicate Narrow(dt: DataType) { dt in {TypeUint8, TypeInt8, TypeUint16, TypeInt16} }

  predicate Middle(dt: DataType) { dt in {TypeUint32, TypeInt32} }

  /** The helper for the type takes this kind of integer. */
  predicate KnownKind(k: Kind, dt: DataType) {
    if Narrow(dt) then Known16(k) else if Middle(dt) then Known32(k)
    else if dt == TypeFloat32 then KnownFloat32(k) else true
  }

  /**
   What a caller can check before writing: the type can be read back; an integer is of a kind its
   helper takes, or zero; it fits the type; and a float given to an integer tag is not negative and
   its helper takes that width.
   */
  predicate Survives(f: Floats, v: Written, bit: nat, dt: DataType) {
    match v
    case Whole(k, n) =>
      if Narrow(dt) || Middle(dt) then InRange(n, dt) && (KnownKind(k, dt) || n == 0)
      else (dt == TypeFloat32 && (KnownKind(k, dt) || n == 0)) || dt == TypeFloat64
    case Single(b) =>
      if Narrow(dt) then f.whole32(b).Some? && 0 <= f.whole32(b).value && InRange(f.whole32(b).value, dt)
      else if Middle(dt) then f.whole32(b) == Some(0)
      else dt == TypeFloat32 || dt == TypeFloat64
    case Double(b) =>
      if Narrow(dt) || Middle(dt) then f.whole64(b).Some? && 0 <= f.whole64(b).value && InRange(f.whole64(b).value, dt)
      else dt == TypeFloat32 || dt == TypeFloat64
    case Flag(b) => dt == TypeBool && (b ==> bit == 0)
    case _ => false
  }

  /** The reading of a number by type. */
  function ReadNumber(u: nat, dt: DataType): Option<Value> {
    match dt
    case TypeUint8 | TypeUint16 | TypeUint32 => Some(Int(u))
    case TypeInt8 => Some(Int(Signed(u, W8)))
    case TypeInt16 => Some(Int(Signed(u, W16)))
    case TypeInt32 => Some(Int(Signed(u, W32)))
    case TypeFloat32 | TypeFloat64 => Some(Float(u))
    case _ => None
  }

  lemma {:induction false} NumberFits(f: Floats, stray: nat -> nat, v: Written, dt: DataType)
    requires Proper(f) && Sized(v) && Numeric(dt)
    ensures Number(f, stray, v, dt) < Base(RequiredSize(dt))
  {
    assert Base(0) == 1 && Base(1) == W8 && Base(2) == W16 && Base(3) == 0x100_0000 && Base(4) == W32;
    assert Base(5) == 0x100_0000_0000 && Base(6) == 0x1_0000_0000_0000 && Base(7) == 0x100_0000_0000_0000 && Base(8) == W64;
  }

  lemma {:induction false} DecodeNumber(u: nat, rest: seq<Byte>, bit: nat, dt: DataType)
    requires Numeric(dt) && u < Base(RequiredSize(dt))
    ensures var buf, r := ToBytes(u, RequiredSize(dt)) + rest, ReadNumber(u, dt);
            DecodeBuffer(buf, false, bit, dt) == if r.Some? then Ok(r.value) else Err
  {
    var k := RequiredSize(dt);
    var buf := ToBytes(u, k) + rest;
    BytesRoundTrip(u, k, rest);
    if k == 1 {
      assert BigEndian(buf, 0) == 0 && BigEndian(buf, 1) == buf[0];
    }
  }

  /** The buffer of a numeric write. */
  function NumberBuffer(u: nat, size: nat, dt: DataType): seq<Byte>
    requires size >= RequiredSize(dt)
  {
    ToBytes(u, RequiredSize(dt)) + Zeros(size - RequiredSize(dt))
  }

  lemma {:induction false} EncodesNumber(f: Floats, stray: nat -> nat, v: Written, size: nat, dt: DataType, u: nat)
    requires Numeric(dt) && u == Number(f, stray, v, dt)
    ensures EncodeS7Value(f, stray, v, size, dt) == if size < RequiredSize(dt) then Refused else Bytes(NumberBuffer(u, size, dt))
  {
  }

  /** What the reading of a number means for the whole write and read. */
  lemma {:induction false} ReadsNumber(e: Encoded, u: nat, m: Option<Value>, size: nat, bit: nat, dt: DataType)
    requires Numeric(dt) && u < Base(RequiredSize(dt))
    requires e == if size < RequiredSize(dt) then Refused else Bytes(NumberBuffer(u, size, dt))
    ensures (e.Bytes? && m.Some? && DecodeBuffer(e.buf, false, bit, dt) == Ok(m.value)) <==>
            (size >= RequiredSize(dt) && m.Some? && ReadNumber(u, dt) == m)
  {
    if size >= RequiredSize(dt) {
      DecodeNumber(u, Zeros(size - RequiredSize(dt)), bit, dt);
    }
  }

  /** A numeric write reads back as meant exactly when the converted number reads so. */
  lemma {:induction false} NumericRead(f: Floats, stray: nat -> nat, v: Written, size: nat, bit: nat, dt: DataType, u: nat, m: Option<Value>)
    requires Proper(f) && Sized(v) && Numeric(dt) && u == Number(f, stray, v, dt) && m == Meaning(f, v, dt)
    ensures SameRead(f, stray, v, size, bit, dt) <==> size >= RequiredSize(dt) && m.Some? && ReadNumber(u, dt) == m
  {
    NumberFits(f, stray, v, dt);
    EncodesNumber(f, stray, v, size, dt, u);
    ReadsNumber(EncodeS7Value(f, stray, v, size, dt), u, m, size, bit, dt);
  }

  // ---------------------------------------------------------------------------
  // The exact condition
  // ---------------------------------------------------------------------------

  function Width(dt: DataType): nat {
    if dt == TypeUint8 || dt == TypeInt8 then W8 else if Narrow(dt) then W16 else W32
  }

  /** An integer cut to the width of a type reads as itself exactly when it is in the type's range. */
  lemma {:induction false} CutReads(n: int, u: nat, dt: DataType)
    requires (Narrow(dt) || Middle(dt)) && u == n % Width(dt)
    ensures ReadNumber(u, dt) == Some(Int(n)) <==> InRange(n, dt)
  {
    if InRange(n, dt) && n < 0 {
      assert (n + Width(dt)) % Width(dt) == n % Width(dt);
    }
  }

  lemma {:induction false} Remainder(n: int, q: int, r: int)
    requires n == 256 * q + r && 0 <= r < 256
    ensures n % 256 == r
  {
  }

  lemma {:induction false} CutTwice(n: int)
    ensures n % W16 % W8 == n % W8
  {
    var q, r := n / W16, n % W16;
    Remainder(n, 256 * q + r / W8, r % W8);
  }

  /** The number written for an integer of a known kind is the integer cut to the type's width. */
  lemma {:induction false} WholeNumber(f: Floats, stray: nat -> nat, k: Kind, n: int, dt: DataType)
    requires Narrow(dt) || Middle(dt)
    ensures Number(f, stray, Whole(k, n), dt) == if KnownKind(k, dt) then n % Width(dt) else 0
  {
    CutTwice(n);
  }

  lemma {:induction false} WholeIff(f: Floats, stray: nat -> nat, k: Kind, n: int, dt: DataType)
    requires Proper(f) && Numeric(dt)
    ensures (Meaning(f, Whole(k, n), dt).Some? && ReadNumber(Number(f, stray, Whole(k, n), dt), dt) == Meaning(f, Whole(k, n), dt)) <==>
            Survives(f, Whole(k, n), 0, dt)
  {
    if Narrow(dt) || Middle(dt) {
      WholeNumber(f, stray, k, n, dt);
      CutReads(n, n % Width(dt), dt);
    }
  }

  function WholePart(f: Floats, v: Written): Option<int>
    requires v.Single? || v.Double?
  {
    if v.Single? then f.whole32(v.bits) else f.whole64(v.bits)
  }

  lemma {:induction false} Uncut(x: nat, m: nat)
    requires x < m
    ensures x % m == x
  {
  }

  /** What the helper makes of a float: a whole part that fits, or whatever the machine does. */
  function Helped(f: Floats, stray: nat -> nat, v: Written, m: nat): nat
    requires (v.Single? || v.Double?) && m > 0
  {
    Truncate(WholePart(f, v), v.bits, m, stray)
  }

  /** The number written for a float is what the helper makes of it, cut to the type's width. */
  lemma {:induction false} FloatNumber(f: Floats, stray: nat -> nat, v: Written, dt: DataType)
    requires (v.Single? || v.Double?) && (Narrow(dt) || (Middle(dt) && v.Double?))
    ensures Number(f, stray, v, dt) == Helped(f, stray, v, if Narrow(dt) then W16 else W32) % Width(dt)
  {
    var m := if Narrow(dt) then W16 else W32;
    var h := Helped(f, stray, v, m);
    assert h < m;
    Uncut(h, m);
  }

  lemma {:induction false} FloatSurvives(f: Floats, stray: nat -> nat, v: Written, dt: DataType)
    requires (v.Single? || v.Double?) && (Narrow(dt) || Middle(dt)) && Survives(f, v, 0, dt)
    ensures Meaning(f, v, dt).Some? && ReadNumber(Number(f, stray, v, dt), dt) == Meaning(f, v, dt)
  {
    var n := WholePart(f, v).value;
    if Narrow(dt) || v.Double? {
      FloatNumber(f, stray, v, dt);
      CutReads(n, n % Width(dt), dt);
    }
  }

  /** A whole part that is negative or does not fit does not come back on a machine that makes zero of it. */
  lemma {:induction false} PartLost(n: int, m: nat, u: nat, dt: DataType)
    requires Narrow(dt) || Middle(dt)
    requires m == (if Narrow(dt) then W16 else W32) && u == (if 0 <= n < m then n else 0) % Width(dt)
    requires n < 0 || !InRange(n, dt)
    ensures ReadNumber(u, dt) != Some(Int(n))
  {
    if 0 <= n < m {
      CutReads(n, u, dt);
    } else {
      CutReads(0, u, dt);
    }
  }

  /** On a machine that makes zero of what does not fit, nothing else survives. */
  lemma {:induction false} FloatLost(f: Floats, v: Written, dt: DataType)
    requires (v.Single? || v.Double?) && (Narrow(dt) || Middle(dt)) && !Survives(f, v, 0, dt)
    ensures !(Meaning(f, v, dt).Some? && ReadNumber(Number(f, b => 0, v, dt), dt) == Meaning(f, v, dt))
  {
    var w := WholePart(f, v);
    if w.Some? && (Narrow(dt) || v.Double?) {
      FloatNumber(f, b => 0, v, dt);
      PartLost(w.value, if Narrow(dt) then W16 else W32, Number(f, b => 0, v, dt), dt);
    }
  }

  lemma {:induction false} BoolRead(f: Floats, stray: nat -> nat, v: Written, size: nat, bit: nat)
    ensures SameRead(f, stray, v, size, bit, TypeBool) <==> size >= 1 && v.Flag? && (v.b ==> bit == 0)
  {
    var e := EncodeS7Value(f, stray, v, size, TypeBool);
    if size >= 1 && v.Flag? {
      OneBit(bit);
      assert e.buf[0] == if v.b then 1 else 0;
    }
  }

  lemma {:induction false} BelowDivisor(n: nat, p: nat)
    requires n < p
    ensures n / p == 0
  {
  }

  /** Of the byte 1 only bit 0 is set, of the byte 0 none. */
  lemma {:induction false} OneBit(bit: nat)
    ensures (BitAt(1, bit) <==> bit == 0) && !BitAt(0, bit)
  {
    var p := Pow2(bit);
    BelowDivisor(0, p);
    if bit > 0 {
      assert p == 2 * Pow2(bit - 1);
      BelowDivisor(1, p);
    } else {
      assert p == 1;
    }
  }

  lemma {:induction false} SurvivesReads(f: Floats, v: Written, size: nat, bit: nat, dt: DataType, stray: nat -> nat)
    requires Proper(f) && Sized(v) && Numeric(dt) && Survives(f, v, bit, dt) && size >= RequiredSize(dt)
    ensures SameRead(f, stray, v, size, bit, dt)
  {
    NumericRead(f, stray, v, size, bit, dt, Number(f, stray, v, dt), Meaning(f, v, dt));
    if v.Whole? {
      WholeIff(f, stray, v.kind, v.n, dt);
    } else if Narrow(dt) || Middle(dt) {
      FloatSurvives(f, stray, v, dt);
    }
  }

  lemma {:induction false} LostReads(f: Floats, v: Written, size: nat, bit: nat, dt: DataType)
    requires Proper(f) && Sized(v) && Numeric(dt) && !(Survives(f, v, bit, dt) && size >= RequiredSize(dt))
    ensures !SameRead(f, b => 0, v, size, bit, dt)
  {
    NumericRead(f, b => 0, v, size, bit, dt, Number(f, b => 0, v, dt), Meaning(f, v, dt));
    if v.Whole? {
      WholeIff(f, b => 0, v.kind, v.n, dt);
    } else if (v.Single? || v.Double?) && (Narrow(dt) || Middle(dt)) && size >= RequiredSize(dt) {
      FloatLost(f, v, dt);
    }
  }

  /**
   Writing and reading gives back what the command said, on every machine, if and only if the address
   is large enough, the type can be read, and the value is of a kind and range its helper keeps.
   */
  lemma {:induction false} WriteThenReadIff(f: Floats, v: Written, size: nat, bit: nat, dt: DataType)
    requires Proper(f) && Sized(v)
    ensures AlwaysSameRead(f, v, size, bit, dt) <==> size >= RequiredSize(dt) && Survives(f, v, bit, dt)
  {
    if !Numeric(dt) {
      forall stray: nat -> nat {
        BoolRead(f, stray, v, size, bit);
      }
      assert SameRead(f, b => 0, v, size, bit, dt) <==> dt == TypeBool && SameRead(f, b => 0, v, size, bit, TypeBool);
    } else if size >= RequiredSize(dt) && Survives(f, v, bit, dt) {
      forall stray: nat -> nat ensures SameRead(f, stray, v, size, bit, dt) {
        SurvivesReads(f, v, size, bit, dt, stray);
      }
    } else {
      LostReads(f, v, size, bit, dt);
    }
  }

  // ---------------------------------------------------------------------------
  // Writing back what was read
  // ---------------------------------------------------------------------------

  /** What the decoder hands out for a number of a readable type, with its Go kind. */
  function ReadKind(u: nat, dt: DataType): Option<Written> {
    match dt
    case TypeUint8 => Some(Whole(U8, u))
    case TypeInt8 => Some(Whole(I8, Signed(u, W8)))
    case TypeUint16 => Some(Whole(U16, u))
    case TypeInt16 => Some(Whole(I16, Signed(u, W16)))
    case TypeUint32 => Some(Whole(U32, u))
    case TypeInt32 => Some(Whole(I32, Signed(u, W32)))
    case TypeFloat32 => Some(Single(u))
    case TypeFloat64 => Some(Double(u))
    case _ => None
  }

  /** Writing a tag's own reading back leaves its bytes as they were unless the tag has 8 bits and is not zero. */
  lemma {:induction false} WriteBackIff(f: Floats, stray: nat -> nat, u: nat, dt: DataType)
    requires u < Base(RequiredSize(dt)) && ReadKind(u, dt).Some?
    ensures Number(f, stray, ReadKind(u, dt).value, dt) == u <==> RequiredSize(dt) > 1 || u == 0
  {
    assert Base(0) == 1 && Base(1) == W8 && Base(2) == W16 && Base(3) == 0x100_0000 && Base(4) == W32;
  }

  /** An 8-bit tag that reads 5 and is written back holds 0. */
  lemma {:induction false} EightBitExample(f: Floats, stray: nat -> nat)
    ensures DecodeBuffer([5], false, 0, TypeUint8) == Ok(Int(5)) && ReadKind(5, TypeUint8) == Some(Whole(U8, 5))
    ensures EncodeS7Value(f, stray, Whole(U8, 5), 1, TypeUint8) == Bytes([0])
    ensures DecodeBuffer([0], false, 0, TypeUint8) == Ok(Int(0))
  {
    assert ToBytes(0, 0) == [] && ToBytes(0, 1) == [0];
  }
}
