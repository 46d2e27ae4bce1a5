/**
 Structure lists: tuples of Python values packed into the bytes of a plain structure, driven by a
 definition that gives each member a data type, a component count and an offset.

 Bytes are little endian. What the platform decides is a parameter: the range of its `long`, how
 integers become doubles, and how doubles are narrowed to single precision bits and widened again.
 */
module Structures {

  import opened Basics
  import HF = HalfFloat

  datatype Result<+T> = Ok(value: T) | Err(error: Error)

  datatype Error = NotConvertible | OutOfRange

  type byte = x: int | 0 <= x < 0x100

  type Word = x: int | 0 <= x < 0x1_0000_0000

  type PyFloat = f: HF.Float | f.Finite? ==> f.magnitude >= 0.0 witness HF.Finite(false, 0.0)

  datatype Value = Int(n: int) | Bool(b: bool) | Float(f: PyFloat) | Tuple(items: seq<Value>) | Other

  datatype Platform = Platform(
    longMax: nat, ofInt: int -> Option<PyFloat>, narrow: PyFloat -> Word, widen: Word -> PyFloat)

  datatype Member = Member(dataType: nat, offset: nat)

  const INT8 := 0
  const INT16 := 1
  const INT32 := 2
  const FLOAT16 := 3
  const FLOAT32 := 4
  const SHAREDSTRING := 5
  const FLOAT32X4 := 6
  const BOOL8 := 7

  /** The largest finite single precision value: (2 - 2^-23) * 2^127. */
  const FLT_MAX := 340282346638528859811704183484516925440.0

  function Type(d: nat): nat { d % 8 }

  function Unsigned(d: nat): bool { d / 8 % 2 == 1 }

  function Size(d: nat): (n: nat)
    ensures 1 <= n <= 16
  {
    d / 32 % 16 + 1
  }

  function Width(t: nat): (w: nat)
    ensures w > 0
  {
    if t == INT8 || t == BOOL8 then 1 else if t == INT16 || t == FLOAT16 then 2 else if t == FLOAT32X4 then 16 else 4
  }

  function Length(m: Member): nat { Size(m.dataType) * Width(Type(m.dataType)) }

  // ---------- bytes ----------

  function Power(k: nat): (p: int)
    ensures p > 0
  {
    if k == 0 then 1 else 0x100 * Power(k - 1)
  }

  function Bytes(w: nat, k: nat): (s: seq<byte>)
    ensures |s| == k
  {
    if k == 0 then [] else [w % 0x100] + Bytes(w / 0x100, k - 1)
  }

  function Unbytes(s: seq<byte>): nat {
    if s == [] then 0 else s[0] + 0x100 * Unbytes(s[1..])
  }

  lemma {:induction false} BytesInverse(w: nat, k: nat)
    requires w < Power(k)
    ensures Unbytes(Bytes(w, k)) == w
  {
    if k > 0 {
      BytesInverse(w / 0x100, k - 1);
      assert Bytes(w, k)[1..] == Bytes(w / 0x100, k - 1);
    }
  }

  lemma {:induction false} UnbytesBound(s: seq<byte>)
    ensures Unbytes(s) < Power(|s|)
  {
    if s != [] { UnbytesBound(s[1..]); }
  }

  lemma Powers()
    ensures Power(1) == 0x100 && Power(2) == 0x1_0000 && Power(4) == 0x1_0000_0000
  {
    assert Power(0) == 1;
    assert Power(3) == 0x100 * Power(2);
  }

  // ---------- one component ----------

  function Lowest(d: nat): int {
    if Unsigned(d) then 0 else -(Power(Width(Type(d))) / 2)
  }

  function Highest(d: nat): int {
    if Unsigned(d) then Power(Width(Type(d))) - 1 else Power(Width(Type(d))) / 2 - 1
  }

  predicate IsInteger(t: nat) { t == INT8 || t == INT16 || t == INT32 }

  /** PyLong_AsUnsignedLong or PyLong_AsLong, and the range of the member's type. */
  function ToInteger(p: Platform, d: nat, v: Value): Result<int> {
    var n: int := if v.Int? then v.n else if v.Bool? && v.b then 1 else 0;
    if !v.Int? && !v.Bool? then Err(NotConvertible)
    else if Unsigned(d) && !(0 <= n <= 2 * p.longMax + 1) then Err(NotConvertible)
    else if !Unsigned(d) && !(-1 - p.longMax <= n <= p.longMax) then Err(NotConvertible)
    else if n < Lowest(d) || n > Highest(d) then Err(OutOfRange)
    else Ok(n)
  }

  /** PyFloat_AsDouble. */
  function ToDouble(p: Platform, v: Value): Result<PyFloat> {
    match v
    case Float(f) => Ok(f)
    case Int(n) => if p.ofInt(n).Some? then Ok(p.ofInt(n).value) else Err(NotConvertible)
    case Bool(b) => Ok(HF.Finite(false, if b then 1.0 else 0.0))
    case _ => Err(NotConvertible)
  }

  function Words(ws: seq<Word>): (s: seq<byte>)
    ensures |s| == 4 * |ws|
  {
    if ws == [] then [] else Bytes(ws[0], 4) + Words(ws[1..])
  }

  predicate AreDoubles(p: Platform, vs: seq<Value>) {
    forall i | 0 <= i < |vs| :: ToDouble(p, vs[i]).Ok?
  }

  function Narrowed(p: Platform, vs: seq<Value>): (ws: seq<Word>)
    requires AreDoubles(p, vs)
    ensures |ws| == |vs|
  {
    seq<Word>(|vs|, i requires 0 <= i < |vs| => p.narrow(ToDouble(p, vs[i]).value))
  }

  /** The bytes that a value becomes as a component of data type `d`. */
  function Convert(p: Platform, d: nat, v: Value): (r: Result<seq<byte>>)
    requires Type(d) != SHAREDSTRING
    ensures r.Ok? ==> |r.value| == Width(Type(d))
  {
    var t := Type(d);
    if IsInteger(t) then
      var n := ToInteger(p, d, v);
      if n.Err? then Err(n.error)
      else if n.value < 0 then Powers(); Ok(Bytes(n.value + Power(Width(t)), Width(t)))
      else Ok(Bytes(n.value, Width(t)))
    else if t == FLOAT16 then
      var f := ToDouble(p, v);
      if f.Err? then Err(f.error) else Ok(Bytes(HF.Encode(Rounded(p, f.value)), 2))
    else if t == FLOAT32 then
      var f := ToDouble(p, v);
      if f.Err? then Err(f.error)
      else if f.value.Infinite? || (f.value.Finite? && f.value.magnitude > FLT_MAX) then Err(OutOfRange)
      else Ok(Bytes(p.narrow(f.value), 4))
    else if t == FLOAT32X4 then
      if !v.Tuple? || |v.items| < 4 || !AreDoubles(p, v.items[..4]) then Err(NotConvertible)
      else Ok(Words(Narrowed(p, v.items[..4])))
    else
      if !v.Bool? then Err(NotConvertible) else Ok([if v.b then 1 else 0])
  }

  /** The Python value of the bytes of a component of data type `d`. */
  function Extract(p: Platform, d: nat, s: seq<byte>): (v: Value)
    requires Type(d) != SHAREDSTRING && |s| == Width(Type(d))
  {
    var t := Type(d);
    if IsInteger(t) then
      var w := Unbytes(s);
      Int(if !Unsigned(d) && w >= Power(|s|) / 2 then w - Power(|s|) else w)
    else if t == FLOAT16 then UnbytesBound(s); Powers(); Half(Unbytes(s))
    else if t == FLOAT32 then Float(Single(p, s))
    else if t == FLOAT32X4 then
      var lower := [Float(Single(p, s[..4])), Float(Single(p, s[4..8]))];
      Tuple(lower + [Float(Single(p, s[8..12])), Float(Single(p, s[12..]))])
    else Bool(s[0] != 0)
  }

  function Half(code: nat): Value
    requires code < 0x10000
  {
    Magnitudes(code);
    Float(HF.Float16To32(code))
  }

  lemma Magnitudes(code: nat)
    requires code < 0x10000
    ensures HF.Float16To32(code).Finite? ==> HF.Float16To32(code).magnitude >= 0.0
  {
    if code % HF.SIGN != HF.SPECIAL { HF.DecodeEncode(code); }
  }

  function Single(p: Platform, s: seq<byte>): PyFloat
    requires |s| == 4
  {
    UnbytesBound(s);
    Powers();
    p.widen(Unbytes(s))
  }

  // ---------- what is stored ----------

  function Rounded(p: Platform, f: PyFloat): PyFloat { p.widen(p.narrow(f)) }

  /** What reading a component back should give: the value, with floats rounded to the member's format. */
  function Stored(p: Platform, d: nat, v: Value): Value
    requires Type(d) != SHAREDSTRING && Convert(p, d, v).Ok?
  {
    var t := Type(d);
    if IsInteger(t) then Int(ToInteger(p, d, v).value)
    else if t == FLOAT16 then Half(HF.Encode(Rounded(p, ToDouble(p, v).value)))
    else if t == FLOAT32 then Float(Rounded(p, ToDouble(p, v).value))
    else if t == FLOAT32X4 then
      Tuple(seq(4, i requires 0 <= i < 4 =>
        assert v.items[..4][i] == v.items[i];
        Float(Rounded(p, ToDouble(p, v.items[i]).value))))
    else v
  }

  lemma IntegerRoundTrip(p: Platform, d: nat, v: Value)
    requires IsInteger(Type(d)) && Convert(p, d, v).Ok?
    ensures Extract(p, d, Convert(p, d, v).value) == Stored(p, d, v)
  {
    Powers();
    var k := Width(Type(d));
    var n := ToInteger(p, d, v).value;
    BytesInverse(if n < 0 then n + Power(k) else n, k);
  }

  lemma WordsInverse(p: Platform, ws: seq<Word>, i: nat)
    requires i < |ws|
    ensures Words(ws)[4 * i..4 * i + 4] == Bytes(ws[i], 4)
    ensures Single(p, Words(ws)[4 * i..4 * i + 4]) == p.widen(ws[i])
  {
    WordAt(ws, i);
    Powers();
    BytesInverse(ws[i], 4);
  }

  lemma {:induction false} WordAt(ws: seq<Word>, i: nat)
    requires i < |ws|
    ensures Words(ws)[4 * i..4 * i + 4] == Bytes(ws[i], 4)
  {
    hide Bytes;
    var s, first, rest := Words(ws), Bytes(ws[0], 4), Words(ws[1..]);
    assert s == first + rest && |first| == 4;
    if i > 0 {
      WordAt(ws[1..], i - 1);
      SliceBehind(first, rest, 4 * (i - 1), 4 * (i - 1) + 4);
    }
  }

  lemma SliceBehind(a: seq<byte>, b: seq<byte>, i: nat, j: nat)
    requires i <= j <= |b|
    ensures (a + b)[|a| + i..|a| + j] == b[i..j]
  {
  }

  lemma VectorRoundTrip(p: Platform, d: nat, v: Value)
    requires Type(d) == FLOAT32X4 && Convert(p, d, v).Ok?
    ensures Extract(p, d, Convert(p, d, v).value) == Stored(p, d, v)
  {
    hide Words, Bytes, Single, Unbytes, Power, ToDouble;
    var ws := Narrowed(p, v.items[..4]);
    var s := Words(ws);
    WordsInverse(p, ws, 0);
    WordsInverse(p, ws, 1);
    WordsInverse(p, ws, 2);
    WordsInverse(p, ws, 3);
    assert s[12..16] == s[12..] && s[0..4] == s[..4];
  }

  /** Reading back a component gives what was stored. */
  lemma ComponentRoundTrip(p: Platform, d: nat, v: Value)
    requires Type(d) != SHAREDSTRING && Convert(p, d, v).Ok?
    ensures Extract(p, d, Convert(p, d, v).value) == Stored(p, d, v)
  {
    var t := Type(d);
    if IsInteger(t) {
      IntegerRoundTrip(p, d, v);
    } else if t == FLOAT16 {
      Powers();
      BytesInverse(HF.Encode(Rounded(p, ToDouble(p, v).value)), 2);
    } else if t == FLOAT32 {
      Powers();
      BytesInverse(p.narrow(ToDouble(p, v).value), 4);
    } else if t == FLOAT32X4 {
      VectorRoundTrip(p, d, v);
    }
  }

  // ---------- the formats, in numbers ----------

  /** A data type is its type, eight times one for unsigned, and thirty-two times its size less one. */
  lemma DataTypeParts(t: nat, unsigned: bool, size: nat, d: nat)
    requires t < 8 && 1 <= size <= 16 && d == t + (if unsigned then 8 else 0) + 32 * (size - 1)
    ensures Type(d) == t && Unsigned(d) == unsigned && Size(d) == size
  {
  }

  /** Integers are 0, 1 and 2, floats 3 and 4, vectors 6 and booleans 7. */
  lemma Widths()
    ensures Width(0) == 1 && Width(1) == 2 && Width(2) == 4 && Width(3) == 2 && Width(4) == 4 && Width(6) == 16
    ensures Width(7) == 1
    ensures forall t: nat :: IsInteger(t) <==> t < 3
    ensures FLOAT16 == 3 && FLOAT32 == 4 && SHAREDSTRING == 5 && FLOAT32X4 == 6 && BOOL8 == 7
  {
  }

  /** The number that little endian bytes denote. */
  ghost predicate Denotes(s: seq<byte>, n: int) {
    var b: seq<int> := seq(|s|, i requires 0 <= i < |s| => s[i]);
    || (|s| == 1 && n == b[0])
    || (|s| == 2 && n == b[0] + 256 * b[1])
    || (|s| == 4 && n == b[0] + 256 * b[1] + 65536 * b[2] + 16777216 * b[3])
  }

  lemma BytesDenote(w: nat, k: nat)
    requires (k == 1 && w < 256) || (k == 2 && w < 65536) || (k == 4 && w < 4294967296)
    ensures Denotes(Bytes(w, k), w)
  {
    assert Bytes(w, k)[1..] == Bytes(w / 0x100, k - 1);
    if k == 2 {
      assert Bytes(w / 0x100, 1)[1..] == Bytes(w / 0x100 / 0x100, 0);
    } else if k == 4 {
      var a, b, c := w / 0x100, w / 0x100 / 0x100, w / 0x100 / 0x100 / 0x100;
      assert Bytes(w, 4) == [w % 0x100] + ([a % 0x100] + ([b % 0x100] + ([c % 0x100] + Bytes(c / 0x100, 0))));
    }
  }

  lemma UnbytesDenotes(s: seq<byte>)
    requires |s| == 1 || |s| == 2 || |s| == 4
    ensures Denotes(s, Unbytes(s))
  {
    if |s| == 1 {
      assert s[1..] == [];
    } else if |s| == 2 {
      assert s[1..][1..] == [] && s[1..][0] == s[1];
    } else {
      assert s[1..][0] == s[1] && s[1..][1..] == s[2..] && s[2..][0] == s[2] && s[2..][1..] == s[3..];
      assert s[3..][0] == s[3] && s[3..][1..] == [];
    }
  }

  /** The numbers that fit an integer of a type. */
  ghost predicate Fits(t: nat, unsigned: bool, n: int) {
    match t
    case 0 => if unsigned then 0 <= n <= 255 else -128 <= n <= 127
    case 1 => if unsigned then 0 <= n <= 65535 else -32768 <= n <= 32767
    case _ => if unsigned then 0 <= n <= 4294967295 else -2147483648 <= n <= 2147483647
  }

  lemma FitsExactly(d: nat, n: int)
    requires Type(d) < 3
    ensures Lowest(d) <= n <= Highest(d) <==> Fits(Type(d), Unsigned(d), n)
  {
    Powers();
  }

  /** What Python's conversions to long and to unsigned long accept. */
  ghost predicate InLong(p: Platform, unsigned: bool, n: int) {
    if unsigned then 0 <= n <= 2 * p.longMax + 1 else -1 - p.longMax <= n <= p.longMax
  }

  /** An integer is stored exactly if it fits; negative ones as their two's complement. */
  lemma IntegerStored(p: Platform, d: nat, v: Value)
    requires Type(d) < 3
    ensures var r := Convert(p, d, v); var unsigned := d / 8 % 2 == 1;
            match v
            case Int(n) =>
              && (r.Ok? <==> InLong(p, unsigned, n) && Fits(Type(d), unsigned, n))
              && (r.Err? ==> r.error == if InLong(p, unsigned, n) then OutOfRange else NotConvertible)
              && (r.Ok? ==> Denotes(r.value, if n >= 0 then n else if Type(d) == 0 then n + 256
                                             else if Type(d) == 1 then n + 65536 else n + 4294967296))
            case Bool(b) => p.longMax >= 1 ==> r.Ok? && Denotes(r.value, if b then 1 else 0)
            case _ => r == Err(NotConvertible)
  {
    hide Bytes, Denotes;
    Powers();
    var n := ToInteger(p, d, v);
    FitsExactly(d, if v.Int? then v.n else if v.Bool? && v.b then 1 else 0);
    if n.Ok? {
      var k := Width(Type(d));
      BytesDenote(if n.value < 0 then n.value + Power(k) else n.value, k);
    }
  }

  /** Reading undoes the two's complement. */
  lemma IntegerRead(p: Platform, d: nat, s: seq<byte>, n: int)
    requires Type(d) < 3 && |s| == Width(Type(d)) && Denotes(s, n)
    ensures Extract(p, d, s) == Int(
              if d / 8 % 2 == 1 then n
              else if Type(d) == 0 then (if n < 128 then n else n - 256)
              else if Type(d) == 1 then (if n < 32768 then n else n - 65536)
              else if n < 2147483648 then n else n - 4294967296)
  {
    Powers();
    UnbytesDenotes(s);
  }

  /** The double of a Python value: a float itself, an integer as the platform converts it, a boolean as 0 or 1. */
  ghost predicate IsDouble(p: Platform, v: Value, f: PyFloat) {
    v == Float(f) || (v.Int? && p.ofInt(v.n) == Some(f)) || (v.Bool? && f == HF.Finite(false, if v.b then 1.0 else 0.0))
  }

  lemma DoubleExactly(p: Platform, v: Value, f: PyFloat)
    ensures ToDouble(p, v) == Ok(f) <==> IsDouble(p, v, f)
    ensures ToDouble(p, v).Err? ==> ToDouble(p, v).error == NotConvertible
  {
  }

  /** Half floats and floats are the bytes of their codes; floats above the largest single are refused. */
  lemma FloatStored(p: Platform, d: nat, v: Value, f: PyFloat)
    requires (Type(d) == 3 || Type(d) == 4) && IsDouble(p, v, f)
    ensures var r := Convert(p, d, v); var single := p.narrow(f);
            if Type(d) == 3 then r.Ok? && Denotes(r.value, HF.Encode(p.widen(single)))
            else if f.Infinite? || (f.Finite? && f.magnitude > HF.Pow2(128) - HF.Pow2(104)) then r == Err(OutOfRange)
            else r.Ok? && Denotes(r.value, single)
  {
    hide Bytes, Denotes, HF.Pow2, HF.Encode;
    DoubleExactly(p, v, f);
    LargestSingle();
    if Type(d) == 3 {
      BytesDenote(HF.Encode(Rounded(p, f)), 2);
    } else {
      BytesDenote(p.narrow(f), 4);
    }
  }

  lemma HalfRead(p: Platform, d: nat, s: seq<byte>, n: nat)
    requires Type(d) == 3 && |s| == 2 && Denotes(s, n) && n < 65536
    ensures HF.Float16To32(n).Finite? ==> HF.Float16To32(n).magnitude >= 0.0
    ensures Extract(p, d, s) == Float(HF.Float16To32(n))
  {
    hide HF.Float16To32;
    UnbytesDenotes(s);
    Magnitudes(n);
  }

  lemma SingleRead(p: Platform, d: nat, s: seq<byte>, n: Word)
    requires Type(d) == 4 && |s| == 4 && Denotes(s, n)
    ensures Extract(p, d, s) == Float(p.widen(n))
  {
    UnbytesDenotes(s);
  }

  lemma {:induction false} Power2Plus(a: nat, b: nat)
    ensures HF.Pow2(a + b) == HF.Pow2(a) * HF.Pow2(b)
  {
    if b > 0 {
      Power2Plus(a, b - 1);
      HF.Pow2Next(a + b - 1);
      HF.Pow2Next(b - 1);
      hide HF.Pow2;
      HF.Twice(HF.Pow2(a), HF.Pow2(b - 1));
    }
  }

  lemma SmallPowers()
    ensures HF.Pow2(8) == 256.0 && HF.Pow2(32) == 4294967296.0
  {
    assert HF.Pow2(8) == 256.0;
    Power2Plus(8, 8);
    hide HF.Pow2;
    Power2Plus(16, 16);
  }

  lemma LargePowers()
    ensures HF.Pow2(64) == 18446744073709551616.0 && HF.Pow2(40) == 1099511627776.0
  {
    SmallPowers();
    hide HF.Pow2;
    Power2Plus(32, 32);
    Power2Plus(32, 8);
  }

  /** The largest finite single precision value is 2^128 - 2^104. */
  lemma LargestSingle()
    ensures FLT_MAX == HF.Pow2(128) - HF.Pow2(104)
  {
    LargePowers();
    hide HF.Pow2;
    Power2Plus(64, 64);
    Power2Plus(64, 40);
  }

  lemma BoolStored(p: Platform, d: nat, v: Value)
    requires Type(d) == 7
    ensures Convert(p, d, v) == if v.Bool? then Ok([if v.b then 1 else 0]) else Err(NotConvertible)
    ensures forall x: byte :: Extract(p, d, [x]) == Bool(x != 0)
  {
  }

  /** Four floats are the bytes of their codes, one after the other, without a check of their range. */
  lemma VectorStored(p: Platform, d: nat, v: Value, fs: seq<PyFloat>)
    requires Type(d) == 6 && |fs| == 4 && v.Tuple? && |v.items| >= 4
    requires forall i | 0 <= i < 4 :: IsDouble(p, v.items[i], fs[i])
    ensures var r := Convert(p, d, v);
            r.Ok? && |r.value| == 16
            && forall i | 0 <= i < 4 :: Denotes(r.value[4 * i..4 * i + 4], p.narrow(fs[i]))
  {
    hide Bytes, Denotes, Words;
    forall i | 0 <= i < 4 ensures ToDouble(p, v.items[..4][i]) == Ok(fs[i]) {
      DoubleExactly(p, v.items[i], fs[i]);
    }
    var ws := Narrowed(p, v.items[..4]);
    forall i | 0 <= i < 4 ensures Denotes(Words(ws)[4 * i..4 * i + 4], p.narrow(fs[i])) {
      WordAt(ws, i);
      BytesDenote(ws[i], 4);
    }
  }

  // ---------- a whole structure ----------

  predicate MemberOk(m: Member, size: nat) {
    Type(m.dataType) != SHAREDSTRING && m.offset + Length(m) <= size
  }

  predicate DefinitionOk(defs: seq<Member>, size: nat) {
    forall i | 0 <= i < |defs| :: MemberOk(defs[i], size)
  }

  predicate Apart(a: Member, b: Member) {
    a.offset + Length(a) <= b.offset || b.offset + Length(b) <= a.offset
  }

  predicate NonOverlapping(defs: seq<Member>) {
    forall i, j | 0 <= i < j < |defs| :: Apart(defs[i], defs[j])
  }

  /** What is left in the buffer, also after a failure half way. */
  datatype Outcome = Done(item: seq<byte>) | Failed(item: seq<byte>, error: Error)

  function Put(s: seq<byte>, at: nat, bs: seq<byte>): (r: seq<byte>)
    requires at + |bs| <= |s|
    ensures |r| == |s|
  {
    s[..at] + bs + s[at + |bs|..]
  }

  function WriteComponents(p: Platform, d: nat, vs: seq<Value>, s: seq<byte>, at: nat): (r: Outcome)
    requires Type(d) != SHAREDSTRING && at + |vs| * Width(Type(d)) <= |s|
    ensures |r.item| == |s|
    decreases |vs|
  {
    if vs == [] then Done(s)
    else
      var c := Convert(p, d, vs[0]);
      if c.Err? then Failed(s, c.error)
      else
        assert |vs| * Width(Type(d)) == Width(Type(d)) + (|vs| - 1) * Width(Type(d));
        WriteComponents(p, d, vs[1..], Put(s, at, c.value), at + Width(Type(d)))
  }

  /** A member of several components takes a tuple of exactly that many values. */
  function Components(m: Member, v: Value): (r: Result<seq<Value>>)
    ensures r.Ok? ==> |r.value| == Size(m.dataType)
  {
    if Size(m.dataType) == 1 then Ok([v])
    else if v.Tuple? && |v.items| == Size(m.dataType) then Ok(v.items)
    else Err(NotConvertible)
  }

  /** A definition of several members takes a tuple of exactly that many values. */
  function Values(defs: seq<Member>, value: Value): (r: Result<seq<Value>>)
    ensures r.Ok? ==> |r.value| == |defs|
  {
    if |defs| == 0 then Ok([])
    else if |defs| == 1 then Ok([value])
    else if value.Tuple? && |value.items| == |defs| then Ok(value.items)
    else Err(NotConvertible)
  }

  function WriteMember(p: Platform, m: Member, v: Value, s: seq<byte>): (r: Outcome)
    requires MemberOk(m, |s|)
    ensures |r.item| == |s|
  {
    var c := Components(m, v);
    if c.Err? then Failed(s, c.error) else WriteComponents(p, m.dataType, c.value, s, m.offset)
  }

  function WriteMembers(p: Platform, defs: seq<Member>, vs: seq<Value>, s: seq<byte>): (r: Outcome)
    requires DefinitionOk(defs, |s|) && |vs| == |defs|
    ensures |r.item| == |s|
    decreases |defs|
  {
    if defs == [] then Done(s)
    else
      var w := WriteMember(p, defs[0], vs[0], s);
      if w.Failed? then w else WriteMembers(p, defs[1..], vs[1..], w.item)
  }

  function WriteStructure(p: Platform, defs: seq<Member>, value: Value, s: seq<byte>): (r: Outcome)
    requires DefinitionOk(defs, |s|)
    ensures |r.item| == |s|
  {
    var vs := Values(defs, value);
    if vs.Err? then Failed(s, vs.error) else WriteMembers(p, defs, vs.value, s)
  }

  function ReadComponents(p: Platform, d: nat, n: nat, s: seq<byte>): (vs: seq<Value>)
    requires Type(d) != SHAREDSTRING && |s| == n * Width(Type(d))
    ensures |vs| == n
    decreases n
  {
    if n == 0 then []
    else
      var w := Width(Type(d));
      assert n * w == w + (n - 1) * w;
      [Extract(p, d, s[..w])] + ReadComponents(p, d, n - 1, s[w..])
  }

  function Region(m: Member, s: seq<byte>): (r: seq<byte>)
    requires m.offset + Length(m) <= |s|
    ensures |r| == Length(m)
  {
    s[m.offset..m.offset + Length(m)]
  }

  function ReadMember(p: Platform, m: Member, s: seq<byte>): Value
    requires MemberOk(m, |s|)
  {
    var vs := ReadComponents(p, m.dataType, Size(m.dataType), Region(m, s));
    if |vs| > 1 then Tuple(vs) else vs[0]
  }

  function ReadMembers(p: Platform, defs: seq<Member>, s: seq<byte>): (vs: seq<Value>)
    requires DefinitionOk(defs, |s|)
    ensures |vs| == |defs|
    decreases |defs|
  {
    if defs == [] then [] else [ReadMember(p, defs[0], s)] + ReadMembers(p, defs[1..], s)
  }

  /** Nothing is read of a definition without members. */
  function ReadStructure(p: Platform, defs: seq<Member>, s: seq<byte>): Option<Value>
    requires DefinitionOk(defs, |s|)
  {
    var vs := ReadMembers(p, defs, s);
    if |vs| > 1 then Some(Tuple(vs)) else if |vs| == 1 then Some(vs[0]) else None
  }

  // ---------- properties ----------

  predicate AllConvert(p: Platform, d: nat, vs: seq<Value>)
    requires Type(d) != SHAREDSTRING
  {
    forall i | 0 <= i < |vs| :: Convert(p, d, vs[i]).Ok?
  }

  predicate MemberConverts(p: Platform, m: Member, v: Value)
    requires Type(m.dataType) != SHAREDSTRING
  {
    Components(m, v).Ok? && AllConvert(p, m.dataType, Components(m, v).value)
  }

  lemma FirstComponent(p: Platform, d: nat, n: nat, s: seq<byte>)
    requires Type(d) != SHAREDSTRING && |s| == n * Width(Type(d)) && n > 0
    ensures var w := Width(Type(d));
            |s| == w + (n - 1) * w && w <= |s| && |s[w..]| == (n - 1) * w
            && ReadComponents(p, d, n, s) == [Extract(p, d, s[..w])] + ReadComponents(p, d, n - 1, s[w..])
  {
    hide Extract;
  }

  lemma NoComponent(p: Platform, d: nat, s: seq<byte>)
    requires Type(d) != SHAREDSTRING && |s| == 0
    ensures ReadComponents(p, d, 0, s) == []
  {
  }

  lemma NextComponent(s: seq<byte>, member: nat, w: nat, end: nat)
    requires member + w <= end <= |s|
    ensures s[member..end][..w] == s[member..member + w] && s[member..end][w..] == s[member + w..end]
  {
  }

  lemma ComponentAt(p: Platform, d: nat, n: nat, s: seq<byte>, member: nat, w: nat, end: nat)
    requires Type(d) != SHAREDSTRING && w == Width(Type(d)) && n > 0
    requires member <= end <= |s| && end - member == n * w
    ensures member + w <= end && end - (member + w) == (n - 1) * w
    ensures ReadComponents(p, d, n, s[member..end])
         == [Extract(p, d, s[member..member + w])] + ReadComponents(p, d, n - 1, s[member + w..end])
  {
    hide Extract, ReadComponents, Width, Type;
    FirstComponent(p, d, n, s[member..end]);
    NextComponent(s, member, w, end);
  }

  lemma Extent(m: Member)
    ensures Length(m) == Size(m.dataType) * Width(Type(m.dataType))
  {
  }

  /** What can be stored: tuples of the right shape, every value of its member's type and range. */
  predicate Converts(p: Platform, defs: seq<Member>, value: Value)
    requires forall i | 0 <= i < |defs| :: Type(defs[i].dataType) != SHAREDSTRING
  {
    Values(defs, value).Ok? && forall i | 0 <= i < |defs| :: MemberConverts(p, defs[i], Values(defs, value).value[i])
  }

  /** The bytes of all components. */
  function AllBytes(p: Platform, d: nat, vs: seq<Value>): (s: seq<byte>)
    requires Type(d) != SHAREDSTRING && AllConvert(p, d, vs)
    ensures |s| == |vs| * Width(Type(d))
  {
    if vs == [] then []
    else
      assert |vs| * Width(Type(d)) == Width(Type(d)) + (|vs| - 1) * Width(Type(d));
      assert forall i | 0 <= i < |vs| - 1 :: vs[1..][i] == vs[i + 1];
      Convert(p, d, vs[0]).value + AllBytes(p, d, vs[1..])
  }

  lemma PutPut(s: seq<byte>, at: nat, a: seq<byte>, b: seq<byte>)
    requires at + |a| + |b| <= |s|
    ensures Put(Put(s, at, a), at + |a|, b) == Put(s, at, a + b)
  {
  }

  /** A member is written completely exactly when all its components convert. */
  lemma {:induction false} ComponentsWritten(p: Platform, d: nat, vs: seq<Value>, s: seq<byte>, at: nat)
    requires Type(d) != SHAREDSTRING && at + |vs| * Width(Type(d)) <= |s|
    ensures WriteComponents(p, d, vs, s, at).Done? <==> AllConvert(p, d, vs)
    ensures AllConvert(p, d, vs) ==> WriteComponents(p, d, vs, s, at).item == Put(s, at, AllBytes(p, d, vs))
    decreases |vs|
  {
    hide Convert;
    if vs == [] {
      assert Put(s, at, []) == s;
    } else {
      var w := Width(Type(d));
      var c := Convert(p, d, vs[0]);
      assert forall i | 0 <= i < |vs| - 1 :: vs[1..][i] == vs[i + 1];
      if c.Ok? {
        assert |vs| * w == w + (|vs| - 1) * w;
        ComponentsWritten(p, d, vs[1..], Put(s, at, c.value), at + w);
        assert AllConvert(p, d, vs) <==> AllConvert(p, d, vs[1..]);
        if AllConvert(p, d, vs) {
          PutPut(s, at, c.value, AllBytes(p, d, vs[1..]));
        }
      }
    }
  }

  /** Nothing outside the member's bytes is touched, whether or not the write fails. */
  lemma {:induction false} ComponentsFrame(p: Platform, d: nat, vs: seq<Value>, s: seq<byte>, at: nat, k: nat)
    requires Type(d) != SHAREDSTRING && at + |vs| * Width(Type(d)) <= |s|
    requires k < |s| && !(at <= k < at + |vs| * Width(Type(d)))
    ensures WriteComponents(p, d, vs, s, at).item[k] == s[k]
    decreases |vs|
  {
    hide Convert;
    if vs != [] {
      var w := Width(Type(d));
      var c := Convert(p, d, vs[0]);
      if c.Ok? {
        assert |vs| * w == w + (|vs| - 1) * w;
        ComponentsFrame(p, d, vs[1..], Put(s, at, c.value), at + w, k);
      }
    }
  }

  predicate Inside(m: Member, k: nat) {
    m.offset <= k < m.offset + Length(m)
  }

  /** Writing a structure leaves every byte outside its members alone, also when it fails. */
  lemma {:induction false} MembersFrame(p: Platform, defs: seq<Member>, vs: seq<Value>, s: seq<byte>, k: nat)
    requires DefinitionOk(defs, |s|) && |vs| == |defs| && k < |s|
    requires forall i | 0 <= i < |defs| :: !Inside(defs[i], k)
    ensures WriteMembers(p, defs, vs, s).item[k] == s[k]
    decreases |defs|
  {
    hide WriteComponents;
    if defs != [] {
      var c := Components(defs[0], vs[0]);
      assert !Inside(defs[0], k);
      if c.Ok? { ComponentsFrame(p, defs[0].dataType, c.value, s, defs[0].offset, k); }
      var w := WriteMember(p, defs[0], vs[0], s);
      if w.Done? { MembersFrame(p, defs[1..], vs[1..], w.item, k); }
    }
  }

  lemma WriteFrame(p: Platform, defs: seq<Member>, value: Value, s: seq<byte>, k: nat)
    requires DefinitionOk(defs, |s|) && k < |s|
    requires forall i | 0 <= i < |defs| :: !Inside(defs[i], k)
    ensures WriteStructure(p, defs, value, s).item[k] == s[k]
  {
    var vs := Values(defs, value);
    if vs.Ok? { MembersFrame(p, defs, vs.value, s, k); }
  }

  lemma {:induction false} MembersSucceed(p: Platform, defs: seq<Member>, vs: seq<Value>, s: seq<byte>)
    requires DefinitionOk(defs, |s|) && |vs| == |defs|
    ensures WriteMembers(p, defs, vs, s).Done? <==> forall i | 0 <= i < |defs| :: MemberConverts(p, defs[i], vs[i])
    decreases |defs|
  {
    hide WriteComponents, Components;
    if defs != [] {
      var c := Components(defs[0], vs[0]);
      if c.Ok? { ComponentsWritten(p, defs[0].dataType, c.value, s, defs[0].offset); }
      var w := WriteMember(p, defs[0], vs[0], s);
      assert w.Done? <==> MemberConverts(p, defs[0], vs[0]);
      if w.Done? {
        MembersSucceed(p, defs[1..], vs[1..], w.item);
        assert forall i | 0 <= i < |defs| - 1 :: defs[1..][i] == defs[i + 1] && vs[1..][i] == vs[i + 1];
        assert forall i | 1 <= i < |defs| :: defs[i] == defs[1..][i - 1] && vs[i] == vs[1..][i - 1];
      }
    }
  }

  /** A write succeeds exactly on what can be stored. */
  lemma WriteSucceeds(p: Platform, defs: seq<Member>, value: Value, s: seq<byte>)
    requires DefinitionOk(defs, |s|)
    ensures WriteStructure(p, defs, value, s).Done? <==> Converts(p, defs, value)
  {
    hide WriteMembers, MemberConverts;
    var vs := Values(defs, value);
    if vs.Ok? { MembersSucceed(p, defs, vs.value, s); }
  }

  function StoredMember(p: Platform, m: Member, v: Value): Value
    requires Type(m.dataType) != SHAREDSTRING && MemberConverts(p, m, v)
  {
    var vs := Components(m, v).value;
    if |vs| == 1 then Stored(p, m.dataType, vs[0])
    else Tuple(seq(|vs|, i requires 0 <= i < |vs| => Stored(p, m.dataType, vs[i])))
  }

  /** What reading a structure back should give: the value written, rounded to the members' formats. */
  function StoredStructure(p: Platform, defs: seq<Member>, value: Value): Option<Value>
    requires forall i | 0 <= i < |defs| :: Type(defs[i].dataType) != SHAREDSTRING
    requires Converts(p, defs, value)
  {
    var vs := Values(defs, value).value;
    if |defs| == 0 then None
    else if |defs| == 1 then Some(StoredMember(p, defs[0], vs[0]))
    else Some(Tuple(seq(|defs|, i requires 0 <= i < |defs| => StoredMember(p, defs[i], vs[i]))))
  }

  lemma {:induction false} ComponentsRead(p: Platform, d: nat, vs: seq<Value>)
    requires Type(d) != SHAREDSTRING && AllConvert(p, d, vs)
    ensures ReadComponents(p, d, |vs|, AllBytes(p, d, vs))
         == seq(|vs|, i requires 0 <= i < |vs| => Stored(p, d, vs[i]))
    decreases |vs|
  {
    hide Convert, Extract, Stored;
    if vs != [] {
      var w := Width(Type(d));
      assert forall i | 0 <= i < |vs| - 1 :: vs[1..][i] == vs[i + 1];
      var s := AllBytes(p, d, vs);
      assert |vs| * w == w + (|vs| - 1) * w;
      assert s[..w] == Convert(p, d, vs[0]).value && s[w..] == AllBytes(p, d, vs[1..]);
      ComponentRoundTrip(p, d, vs[0]);
      ComponentsRead(p, d, vs[1..]);
    }
  }

  /** A written member reads back as stored. */
  lemma MemberRoundTrip(p: Platform, m: Member, v: Value, s: seq<byte>)
    requires MemberOk(m, |s|) && MemberConverts(p, m, v)
    ensures WriteMember(p, m, v, s).Done?
    ensures ReadMember(p, m, WriteMember(p, m, v, s).item) == StoredMember(p, m, v)
  {
    hide WriteComponents, ReadComponents, AllBytes, AllConvert, Stored;
    var vs := Components(m, v).value;
    ComponentsWritten(p, m.dataType, vs, s, m.offset);
    ComponentsRead(p, m.dataType, vs);
    assert Region(m, Put(s, m.offset, AllBytes(p, m.dataType, vs))) == AllBytes(p, m.dataType, vs);
  }

  lemma SameRegion(p: Platform, m: Member, s: seq<byte>, t: seq<byte>)
    requires MemberOk(m, |s|) && |t| == |s| && forall k | 0 <= k < |s| && Inside(m, k) :: t[k] == s[k]
    ensures ReadMember(p, m, t) == ReadMember(p, m, s)
  {
    hide ReadComponents;
    assert forall k | m.offset <= k < m.offset + Length(m) :: Inside(m, k);
    assert Region(m, t) == Region(m, s);
  }

  lemma {:induction false} MembersRoundTrip(p: Platform, defs: seq<Member>, vs: seq<Value>, s: seq<byte>, i: nat)
    requires DefinitionOk(defs, |s|) && NonOverlapping(defs) && |vs| == |defs| && i < |defs|
    requires forall j | 0 <= j < |defs| :: MemberConverts(p, defs[j], vs[j])
    ensures ReadMember(p, defs[i], WriteMembers(p, defs, vs, s).item) == StoredMember(p, defs[i], vs[i])
    decreases |defs|
  {
    hide MemberConverts, WriteMember, ReadMember, StoredMember;
    MemberRoundTrip(p, defs[0], vs[0], s);
    var w := WriteMember(p, defs[0], vs[0], s);
    var t := WriteMembers(p, defs, vs, s).item;
    if i > 0 {
      MembersRoundTrip(p, defs[1..], vs[1..], w.item, i - 1);
    } else {
      forall k | 0 <= k < |s| && Inside(defs[0], k) ensures t[k] == w.item[k] {
        assert forall j | 1 <= j < |defs| :: Apart(defs[0], defs[j]);
        MembersFrame(p, defs[1..], vs[1..], w.item, k);
      }
      SameRegion(p, defs[0], w.item, t);
    }
  }

  lemma {:induction false} MembersReadAt(p: Platform, defs: seq<Member>, s: seq<byte>, i: nat)
    requires DefinitionOk(defs, |s|) && i < |defs|
    ensures ReadMembers(p, defs, s)[i] == ReadMember(p, defs[i], s)
    decreases |defs|
  {
    if i > 0 { MembersReadAt(p, defs[1..], s, i - 1); }
  }

  /** Writing a tuple and reading it back gives the same tuple, rounded to the members' formats. */
  lemma RoundTrip(p: Platform, defs: seq<Member>, value: Value, s: seq<byte>)
    requires DefinitionOk(defs, |s|) && NonOverlapping(defs) && Converts(p, defs, value)
    ensures WriteStructure(p, defs, value, s).Done?
    ensures ReadStructure(p, defs, WriteStructure(p, defs, value, s).item) == StoredStructure(p, defs, value)
  {
    hide MemberConverts, WriteMembers, ReadMembers, ReadMember, StoredMember, NonOverlapping;
    WriteSucceeds(p, defs, value, s);
    var t := WriteStructure(p, defs, value, s).item;
    var vs := Values(defs, value).value;
    forall i | 0 <= i < |defs| ensures ReadMembers(p, defs, t)[i] == StoredMember(p, defs[i], vs[i]) {
      MembersReadAt(p, defs, t, i);
      MembersRoundTrip(p, defs, vs, s, i);
    }
    assert |defs| > 1 ==> ReadMembers(p, defs, t) == StoredStructure(p, defs, value).value.items;
  }

  // ---------- where the bytes go ----------

  lemma {:induction false} AllBytesAt(p: Platform, d: nat, vs: seq<Value>, j: nat)
    requires Type(d) != SHAREDSTRING && AllConvert(p, d, vs) && j < |vs|
    ensures var w := Width(Type(d));
            j * w + w <= |vs| * w && AllBytes(p, d, vs)[j * w..j * w + w] == Convert(p, d, vs[j]).value
    decreases |vs|
  {
    hide Convert, Width, Type;
    var w := Width(Type(d));
    var first := Convert(p, d, vs[0]).value;
    assert forall i | 0 <= i < |vs| - 1 :: vs[1..][i] == vs[i + 1];
    var rest := AllBytes(p, d, vs[1..]);
    assert AllBytes(p, d, vs) == first + rest;
    Placed(j, |vs|, w);
    if j > 0 {
      AllBytesAt(p, d, vs[1..], j - 1);
      Placed(j - 1, |vs| - 1, w);
      SliceBehind(first, rest, (j - 1) * w, (j - 1) * w + w);
    }
  }

  lemma Placed(j: nat, n: nat, w: nat)
    requires j < n
    ensures j * w + w <= n * w && (j > 0 ==> w + (j - 1) * w == j * w)
  {
    assert (j + 1) * w <= n * w;
  }

  /** After a write the bytes of each member are those of its components. */
  lemma {:induction false} MembersBytes(p: Platform, defs: seq<Member>, vs: seq<Value>, s: seq<byte>, i: nat)
    requires DefinitionOk(defs, |s|) && NonOverlapping(defs) && |vs| == |defs| && i < |defs|
    requires MemberConverts(p, defs[i], vs[i]) && forall j | 0 <= j < |defs| :: MemberConverts(p, defs[j], vs[j])
    ensures Region(defs[i], WriteMembers(p, defs, vs, s).item)
         == AllBytes(p, defs[i].dataType, Components(defs[i], vs[i]).value)
    decreases |defs|
  {
    hide WriteMember, AllBytes;
    var w := WriteMember(p, defs[0], vs[0], s);
    var t := WriteMembers(p, defs, vs, s).item;
    MemberBytes(p, defs[0], vs[0], s);
    if i > 0 {
      hide MemberConverts;
      MembersBytes(p, defs[1..], vs[1..], w.item, i - 1);
    } else {
      forall k | 0 <= k < |s| && Inside(defs[0], k) ensures t[k] == w.item[k] {
        assert forall j | 1 <= j < |defs| :: Apart(defs[0], defs[j]);
        MembersFrame(p, defs[1..], vs[1..], w.item, k);
      }
      assert Region(defs[0], t) == Region(defs[0], w.item) by {
        assert forall k | defs[0].offset <= k < defs[0].offset + Length(defs[0]) :: Inside(defs[0], k);
      }
    }
  }

  lemma MemberBytes(p: Platform, m: Member, v: Value, s: seq<byte>)
    requires MemberOk(m, |s|) && MemberConverts(p, m, v)
    ensures WriteMember(p, m, v, s).Done?
    ensures Region(m, WriteMember(p, m, v, s).item) == AllBytes(p, m.dataType, Components(m, v).value)
  {
    hide WriteComponents, AllBytes, AllConvert;
    var vs := Components(m, v).value;
    ComponentsWritten(p, m.dataType, vs, s, m.offset);
    assert Region(m, Put(s, m.offset, AllBytes(p, m.dataType, vs))) == AllBytes(p, m.dataType, vs);
  }

  /** Component `j` of member `i` of a value: both are picked from tuples, unless there is one only. */
  ghost predicate IsComponent(defs: seq<Member>, value: Value, i: nat, j: nat, v: Value)
    requires i < |defs|
  {
    exists member ::
      && (if |defs| == 1 then member == value else value.Tuple? && |value.items| == |defs| && member == value.items[i])
      && if Size(defs[i].dataType) == 1 then j == 0 && v == member
         else member.Tuple? && |member.items| == Size(defs[i].dataType) && j < |member.items| && v == member.items[j]
  }

  /** Each component is at its member's offset, behind the components before it. */
  lemma WrittenBytes(p: Platform, defs: seq<Member>, value: Value, s: seq<byte>, i: nat, j: nat, v: Value)
    requires DefinitionOk(defs, |s|) && NonOverlapping(defs) && Converts(p, defs, value)
    requires i < |defs| && IsComponent(defs, value, i, j, v)
    ensures WriteStructure(p, defs, value, s).Done?
    ensures var t := WriteStructure(p, defs, value, s).item;
            var w := Width(Type(defs[i].dataType)); var at := defs[i].offset + j * w;
            at + w <= |t| && Convert(p, defs[i].dataType, v).Ok?
            && t[at..at + w] == Convert(p, defs[i].dataType, v).value
  {
    hide WriteMembers, AllBytes, Convert, Width, Type, Size, NonOverlapping, Apart;
    WriteSucceeds(p, defs, value, s);
    var vs := Values(defs, value).value;
    var t := WriteStructure(p, defs, value, s).item;
    assert forall k | 0 <= k < |defs| :: MemberConverts(p, defs[k], vs[k]);
    MembersBytes(p, defs, vs, s, i);
    var m, cs := defs[i], Components(defs[i], vs[i]).value;
    assert j < |cs| && cs[j] == v;
    AllBytesAt(p, m.dataType, cs, j);
    var w := Width(Type(m.dataType));
    assert MemberOk(m, |s|);
    InRegion(t, m, j * w, j * w + w);
  }

  lemma InRegion(t: seq<byte>, m: Member, a: nat, b: nat)
    requires a <= b <= Length(m) && m.offset + Length(m) <= |t|
    ensures Region(m, t)[a..b] == t[m.offset + a..m.offset + b]
  {
    hide Length;
  }

  /** Integers and booleans are stored exactly, and so are floats that the format represents. */
  lemma StoredExactly(p: Platform, d: nat, v: Value)
    requires Type(d) != SHAREDSTRING && Convert(p, d, v).Ok?
    ensures IsInteger(Type(d)) && v.Int? ==> Stored(p, d, v) == v && Lowest(d) <= v.n <= Highest(d)
    ensures Type(d) == BOOL8 ==> Stored(p, d, v) == v && v.Bool?
    ensures Type(d) == FLOAT32 && v.Float? && Rounded(p, v.f) == v.f ==> Stored(p, d, v) == v
    ensures Type(d) == FLOAT16 && v.Float? && Rounded(p, v.f) == v.f ==>
              forall c | 0 <= c < 0x10000 && c % HF.SIGN != HF.SPECIAL && v.f == HF.Float16To32(c) ::
                  Stored(p, d, v) == v
  {
    if Type(d) == FLOAT16 && v.Float? && Rounded(p, v.f) == v.f {
      forall c | 0 <= c < 0x10000 && c % HF.SIGN != HF.SPECIAL
          && v.f == HF.Float16To32(c) ensures Stored(p, d, v) == v {
        HF.DecodeEncode(c);
      }
    }
  }

  // ---------- the reader and the writer ----------

  method Copy(bs: seq<byte>, item: array<byte>, at: nat)
    requires at + |bs| <= item.Length
    modifies item
    ensures item[..] == Put(old(item[..]), at, bs)
  {
    ghost var s := item[..];
    for i := 0 to |bs|
      invariant item[..] == Put(s, at, bs[..i])
    {
      item[at + i] := bs[i];
      assert bs[..i + 1] == bs[..i] + [bs[i]];
    }
    assert bs[..|bs|] == bs;
  }

  /** Writes the components one after the other; a failure leaves those before it written. */
  method ExtractItem(p: Platform, d: nat, vs: seq<Value>, item: array<byte>, member: nat) returns (error: Option<Error>)
    requires Type(d) != SHAREDSTRING && member + |vs| * Width(Type(d)) <= item.Length
    modifies item
    ensures WriteComponents(p, d, vs, old(item[..]), member)
         == if error.None? then Done(item[..]) else Failed(item[..], error.value)
  {
    hide Convert;
    var w := Width(Type(d));
    var at := member;
    ghost var s := item[..];
    for i := 0 to |vs|
      invariant at == member + i * w && at + (|vs| - i) * w <= item.Length
      invariant WriteComponents(p, d, vs, s, member) == WriteComponents(p, d, vs[i..], item[..], at)
    {
      var c := Convert(p, d, vs[i]);
      assert vs[i..][0] == vs[i] && vs[i..][1..] == vs[i + 1..];
      assert (|vs| - i) * w == w + (|vs| - i - 1) * w;
      if c.Err? {
        return Some(c.error);
      }
      Copy(c.value, item, at);
      at := at + w;
    }
    return None;
  }

  method PyObjectToStructure(p: Platform, defs: seq<Member>, value: Value, item: array<byte>)
    returns (error: Option<Error>)
    requires DefinitionOk(defs, item.Length)
    modifies item
    ensures WriteStructure(p, defs, value, old(item[..]))
         == if error.None? then Done(item[..]) else Failed(item[..], error.value)
  {
    hide WriteComponents, MemberOk, WriteMember;
    ghost var s := item[..];
    if |defs| > 1 {
      if !value.Tuple? {
        return Some(NotConvertible);
      }
      if |value.items| != |defs| {
        return Some(NotConvertible);
      }
    }
    ghost var vs := Values(defs, value).value;
    for ix := 0 to |defs|
      invariant WriteMembers(p, defs, vs, s) == WriteMembers(p, defs[ix..], vs[ix..], item[..])
    {
      var memberObject := if |defs| > 1 then value.items[ix] else value;
      assert vs[ix..][0] == memberObject && defs[ix..][0] == defs[ix];
      assert vs[ix..][1..] == vs[ix + 1..] && defs[ix..][1..] == defs[ix + 1..];
      error := WriteOneMember(p, defs[ix], memberObject, item);
      if error.Some? {
        return;
      }
    }
    return None;
  }

  method WriteOneMember(p: Platform, m: Member, memberObject: Value, item: array<byte>) returns (error: Option<Error>)
    requires MemberOk(m, item.Length)
    modifies item
    ensures WriteMember(p, m, memberObject, old(item[..]))
         == if error.None? then Done(item[..]) else Failed(item[..], error.value)
  {
    hide WriteComponents;
    if Size(m.dataType) > 1 {
      if !memberObject.Tuple? {
        return Some(NotConvertible);
      }
      if |memberObject.items| != Size(m.dataType) {
        return Some(NotConvertible);
      }
      error := ExtractItem(p, m.dataType, memberObject.items, item, m.offset);
    } else {
      error := ExtractItem(p, m.dataType, [memberObject], item, m.offset);
    }
  }

  method GetStructureElement(p: Platform, m: Member, item: array<byte>) returns (v: Value)
    requires MemberOk(m, item.Length)
    ensures v == ReadMember(p, m, item[..])
  {
    hide Extract, ReadComponents, Length, Size, Width;
    var d := m.dataType;
    var size, w := Size(d), Width(Type(d));
    var vs: seq<Value>, member := [], m.offset;
    ghost var s := item[..];
    ghost var end := m.offset + Length(m);
    Extent(m);
    ghost var read := ReadComponents(p, d, size, Region(m, s));
    ghost var left := size;
    for i := 0 to size
      invariant m.offset <= member <= end && |vs| == i && left == size - i && end - member == left * w
      invariant read == vs + ReadComponents(p, d, left, s[member..end])
    {
      ComponentAt(p, d, left, s, member, w, end);
      assert item[member..member + w] == s[member..member + w];
      vs := vs + [Extract(p, d, item[member..member + w])];
      member := member + w;
      left := left - 1;
    }
    NoComponent(p, d, s[member..end]);
    assert vs == read;
    v := if size > 1 then Tuple(vs) else vs[0];
  }

  method StructurePyObject(p: Platform, defs: seq<Member>, item: array<byte>) returns (v: Option<Value>)
    requires DefinitionOk(defs, item.Length)
    ensures v == ReadStructure(p, defs, item[..])
  {
    hide ReadMember, ReadMembers;
    var vs := [];
    ghost var read := ReadMembers(p, defs, item[..]);
    for ix := 0 to |defs|
      invariant vs == read[..ix]
    {
      MembersReadAt(p, defs, item[..], ix);
      var element := GetStructureElement(p, defs[ix], item);
      vs := vs + [element];
    }
    assert vs == read;
    v := if |defs| > 1 then Some(Tuple(vs)) else if |defs| == 1 then Some(vs[0]) else None;
  }

  // ---------- the list ----------

  datatype Event = Inserted(item: seq<byte>, index: nat) | Removed(item: seq<byte>, index: nat) | Cleared

  /** What an observer does with an event. */
  function Mirror(items: seq<seq<byte>>, e: Event): seq<seq<byte>> {
    match e
    case Inserted(item, i) => if i <= |items| then items[..i] + [item] + items[i..] else items
    case Removed(_, i) => if i < |items| then items[..i] + items[i + 1..] else items
    case Cleared => []
  }

  /** One more than the largest unsigned size. */
  const SIZE_T := 0x1_0000_0000_0000_0000

  class StructureList {
    const platform: Platform
    const definition: seq<Member>
    const structureSize: nat
    var items: seq<seq<byte>>
    var events: seq<Event>

    ghost predicate Valid()
      reads this
    {
      DefinitionOk(definition, structureSize) && forall s | s in items :: |s| == structureSize
    }

    /** An observer that starts with the old items follows the list, event by event. */
    ghost predicate Follows(before: seq<seq<byte>>, seen: seq<Event>)
      reads this
    {
      || (events == seen && items == before)
      || (|events| == |seen| + 1 && events[..|seen|] == seen && items == Mirror(before, events[|seen|]))
    }

    constructor (platform: Platform, definition: seq<Member>, structureSize: nat)
      requires DefinitionOk(definition, structureSize)
      ensures Valid() && items == [] && events == []
    {
      this.platform := platform;
      this.definition := definition;
      this.structureSize := structureSize;
      items, events := [], [];
    }

    method Append(val: seq<byte>)
      requires Valid() && |val| == structureSize
      modifies this
      ensures Valid() && items == old(items) + [val]
      ensures Follows(old(items), old(events))
    {
      items := items + [val];
      events := events + [Inserted(val, |items| - 1)];
    }

    method Insert(ix: nat, val: seq<byte>)
      requires Valid() && |val| == structureSize && ix <= |items|
      modifies this
      ensures Valid() && items == old(items[..ix]) + [val] + old(items[ix..])
      ensures Follows(old(items), old(events))
    {
      items := items[..ix] + [val] + items[ix..];
      events := events + [Inserted(val, ix)];
    }

    method Remove(ix: nat)
      requires Valid() && ix < |items|
      modifies this
      ensures Valid() && items == old(items[..ix]) + old(items[ix + 1..])
      ensures Follows(old(items), old(events))
    {
      var item := items[ix];
      items := items[..ix] + items[ix + 1..];
      events := events + [Removed(item, ix)];
    }

    method Clear()
      modifies this
      requires Valid()
      ensures Valid() && items == []
      ensures Follows(old(items), old(events))
    {
      items := [];
      events := events + [Cleared];
    }

    /** The list changes only after the whole value was converted; the new item reads back as it. */
    method PyAppend(value: Value) returns (error: Option<Error>)
      requires Valid()
      modifies this
      ensures Valid()
      ensures error.None? <==> Converts(platform, definition, value)
      ensures error.Some? ==> items == old(items) && events == old(events)
      ensures error.None? ==> |items| == |old(items)| + 1 && items[..|old(items)|] == old(items)
      ensures error.None? && NonOverlapping(definition) ==>
                ReadStructure(platform, definition, items[|old(items)|]) == StoredStructure(platform, definition, value)
      ensures Follows(old(items), old(events))
    {
      hide Converts, WriteStructure, ReadStructure, StoredStructure;
      var item := new byte[structureSize];
      ghost var s := item[..];
      error := PyObjectToStructure(platform, definition, value, item);
      WriteSucceeds(platform, definition, value, s);
      if error.Some? {
        return;
      }
      if NonOverlapping(definition) { RoundTrip(platform, definition, value, s); }
      Append(item[..]);
    }

    /**
     An index past the end means the end. A negative index is added to the length as an unsigned
     number: there is no such number for an empty list, and for others it means the end or, unless the
     length divides it, a place behind the end, where nothing can be inserted.
     */
    method PyInsert(index: int, value: Value) returns (error: Option<Error>, defined: bool)
      requires Valid() && -SIZE_T < index
      modifies this
      ensures Valid()
      ensures index >= 0 ==> defined
      ensures index < 0 ==>
                (defined <==>
                  |old(items)| > 0
                  && (!Converts(platform, definition, value) || (SIZE_T + index) % |old(items)| == 0))
      ensures defined ==> (error.None? <==> Converts(platform, definition, value))
      ensures !defined || error.Some? ==> items == old(items) && events == old(events)
      ensures var i := if 0 <= index < |old(items)| then index else |old(items)|;
              defined && error.None? ==>
                && |items| == |old(items)| + 1 && items[..i] == old(items)[..i] && items[i + 1..] == old(items)[i..]
                && (NonOverlapping(definition) ==>
                      ReadStructure(platform, definition, items[i]) == StoredStructure(platform, definition, value))
      ensures Follows(old(items), old(events))
    {
      hide Converts, WriteStructure, ReadStructure, StoredStructure;
      var length := |items|;
      var i := if index > length then length else index;
      if i < 0 {
        if length == 0 {
          return None, false;
        }
        i := length + (SIZE_T + i) % length;
      }
      var item := new byte[structureSize];
      ghost var s := item[..];
      error := PyObjectToStructure(platform, definition, value, item);
      WriteSucceeds(platform, definition, value, s);
      defined := true;
      if error.Some? {
        return;
      }
      if NonOverlapping(definition) { RoundTrip(platform, definition, value, s); }
      if i > length {
        return None, false;
      }
      Insert(i, item[..]);
    }

    method PyRemoveAt(index: int) returns (ok: bool)
      requires Valid()
      modifies this
      ensures Valid() && (ok <==> 0 <= index < |old(items)|)
      ensures items == if ok then old(items)[..index] + old(items)[index + 1..] else old(items)
      ensures Follows(old(items), old(events))
    {
      if index < 0 || index >= |items| {
        return false;
      }
      Remove(index);
      return true;
    }
  }
}
