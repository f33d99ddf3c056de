/**
 `base32_encode` (`src/3rdparty/base32/base32.h`): a loop over a machine `int` that is
 shifted and never masked, proved to write a prefix of the encoding of section 6 of
 RFC 4648, without the '=' padding.
 */
module Base32 {
  import opened Arithmetic

  const MAX_LENGTH: int := 0x1000_0000

  // ---- The encoding as the standard describes it: a stream of bits cut in fives ----

  /** Bit `i` of the data, most significant bits first; zero bits follow the last byte. */
  function BitAt(data: seq<Byte>, i: nat): (b: nat)
    ensures b < 2
  {
    if i / 8 < |data| then data[i / 8] / Pow2(7 - i % 8) % 2 else 0
  }

  /** The number formed by `len` bits from `start` on. */
  function BitsValue(data: seq<Byte>, start: nat, len: nat): (v: nat)
    ensures v < Pow2(len)
  {
    if len == 0 then 0 else 2 * BitsValue(data, start, len - 1) + BitAt(data, start + len - 1)
  }

  const ALPHABET := "ABCDEFGHIJKLMNOPQRSTUVWXYZ234567"

  function Letter(v: nat): (b: Byte)
    requires v < 32
    ensures 'A' as int <= b <= 'Z' as int || '2' as int <= b <= '7' as int
  {
    ALPHABET[v] as int
  }

  /** Five-bit groups needed for `n` bytes. */
  function EncodedLength(n: nat): nat {
    (8 * n + 4) / 5
  }

  function Encode(data: seq<Byte>): (r: seq<Byte>)
    ensures |r| == EncodedLength(|data|)
  {
    seq(EncodedLength(|data|), k requires 0 <= k => (assert Pow2(5) == 32; Letter(BitsValue(data, 5 * k, 5))))
  }

  // ---- Decoding ----

  function LetterValue(b: Byte): (v: nat)
    ensures v < 32
  {
    if 'A' as int <= b <= 'Z' as int then b - 'A' as int
    else if '2' as int <= b <= '7' as int then b - '2' as int + 26
    else 0
  }

  /** Bit `i` of a stream of letters, five bits a letter. */
  function LetterBit(text: seq<Byte>, i: nat): (b: nat)
    requires i < 5 * |text|
    ensures b < 2
  {
    LetterValue(text[i / 5]) / Pow2(4 - i % 5) % 2
  }

  function LetterBits(text: seq<Byte>, start: nat, len: nat): (v: nat)
    requires start + len <= 5 * |text|
    ensures v < Pow2(len)
  {
    if len == 0 then 0 else 2 * LetterBits(text, start, len - 1) + LetterBit(text, start + len - 1)
  }

  /** Whole bytes in a stream of letters. */
  function Decode(text: seq<Byte>): seq<Byte> {
    seq(5 * |text| / 8, k requires 0 <= k < 5 * |text| / 8 =>
      (assert Pow2(8) == 256; LetterBits(text, 8 * k, 8)))
  }

  lemma {:induction false} LetterRoundTrip(v: nat)
    requires v < 32
    ensures LetterValue(Letter(v)) == v
  {
  }

  /** Bit `j` from the top of a group of `len` bits. */
  lemma {:induction false} BitOfGroup(data: seq<Byte>, start: nat, len: nat, j: nat)
    requires j < len
    ensures BitsValue(data, start, len) / Pow2(len - 1 - j) % 2 == BitAt(data, start + j)
  {
    if j < len - 1 {
      BitOfGroup(data, start, len - 1, j);
      var v := BitsValue(data, start, len);
      var p := Pow2(len - 2 - j);
      assert v / 2 == BitsValue(data, start, len - 1);
      assert Pow2(len - 1 - j) == 2 * p;
      DivideTwice(v, p, 2);
      DivideSwap(v, p);
    } else {
      assert Pow2(0) == 1;
    }
  }

  lemma {:induction false} DivideSwap(x: nat, p: nat)
    requires p > 0
    ensures x / p / 2 == x / 2 / p
  {
    DivideTwice(x, p, 2);
    DivideTwice(x, 2, p);
  }

  lemma {:induction false} BitOfByte(data: seq<Byte>, k: nat, j: nat)
    requires k < |data| && j < 8
    ensures BitAt(data, 8 * k + j) == data[k] / Pow2(7 - j) % 2
  {
  }

  /** The leading bits of a byte. */
  lemma {:induction false} ByteBits(data: seq<Byte>, k: nat, len: nat)
    requires k < |data| && len <= 8
    ensures BitsValue(data, 8 * k, len) == data[k] / Pow2(8 - len)
  {
    if len == 0 {
      assert Pow2(8) == 256;
    } else {
      hide BitAt;
      var p := Pow2(8 - len);
      assert Pow2(8 - (len - 1)) == p * 2;
      ByteBits(data, k, len - 1);
      BitOfByte(data, k, len - 1);
      hide Pow2;
      DivideTwice(data[k], p, 2);
    }
  }

  lemma {:induction false} SameBit(data: seq<Byte>, i: nat)
    requires i < 5 * EncodedLength(|data|)
    ensures LetterBit(Encode(data), i) == BitAt(data, i)
  {
    assert Pow2(5) == 32;
    var v := BitsValue(data, 5 * (i / 5), 5);
    assert Encode(data)[i / 5] == Letter(v);
    LetterRoundTrip(v);
    BitOfGroup(data, 5 * (i / 5), 5, i % 5);
  }

  lemma {:induction false} SameBits(data: seq<Byte>, start: nat, len: nat)
    requires start + len <= 5 * EncodedLength(|data|)
    ensures LetterBits(Encode(data), start, len) == BitsValue(data, start, len)
  {
    hide EncodedLength, LetterBit, BitAt;
    if len > 0 {
      SameBits(data, start, len - 1);
      SameBit(data, start + len - 1);
    }
  }

  /** Decoding the whole encoding gives back the data. */
  lemma {:induction false} DecodeEncode(data: seq<Byte>)
    ensures Decode(Encode(data)) == data
  {
    assert 5 * EncodedLength(|data|) / 8 == |data|;
    forall k | 0 <= k < |data|
      ensures LetterBits(Encode(data), 8 * k, 8) == data[k]
    {
      DecodedByte(data, k);
    }
    hide Encode, LetterBits;
  }

  lemma {:induction false} DecodedByte(data: seq<Byte>, k: nat)
    requires k < |data|
    ensures LetterBits(Encode(data), 8 * k, 8) == data[k]
  {
    hide Encode, LetterBits, BitsValue;
    SameBits(data, 8 * k, 8);
    ByteBits(data, k, 8);
    assert Pow2(0) == 1;
  }

  // ---- The machine integer ----

  const INT_RANGE: int := 0x1_0000_0000

  /** A 32-bit two's complement `int`. */
  type Int32 = x: int | -0x8000_0000 <= x < 0x8000_0000

  /** What is left of `x` in an `int`. */
  function Wrap(x: int): (r: Int32)
    ensures (r - x) % INT_RANGE == 0
  {
    (x + 0x8000_0000) % INT_RANGE - 0x8000_0000
  }

  lemma {:induction false} BitsConcat(data: seq<Byte>, start: nat, a: nat, b: nat)
    ensures BitsValue(data, start, a + b) == BitsValue(data, start, a) * Pow2(b) + BitsValue(data, start + a, b)
  {
    hide BitAt;
    if b > 0 {
      BitsConcat(data, start, a, b - 1);
      AppendBit(BitsValue(data, start, a), Pow2(b - 1), BitsValue(data, start + a, b - 1),
                BitAt(data, start + a + b - 1));
    } else {
      assert Pow2(0) == 1;
    }
  }

  lemma {:induction false} AppendBit(a: int, p: int, v: int, bit: int)
    ensures 2 * (a * p + v) + bit == a * (2 * p) + (2 * v + bit)
  {
  }

  /** Past the end of the data there are only zero bits. */
  lemma {:induction false} ZeroTail(data: seq<Byte>, start: nat, len: nat)
    requires start >= 8 * |data|
    ensures BitsValue(data, start, len) == 0
  {
    if len > 0 {
      ZeroTail(data, start, len - 1);
    }
  }

  /**
   The bits above the low ones never matter: shifting a wrapped integer left and putting
   bits below it does to its low `m` bits what it would do to the unbounded number.
   */
  lemma {:induction false} ShiftIn(buffer: Int32, m: nat, k: nat, low: nat)
    requires m + k <= 32 && low < Pow2(k)
    ensures (Wrap(buffer * Pow2(k)) + low) % Pow2(m + k) == buffer % Pow2(m) * Pow2(k) + low
  {
    hide Pow2, Wrap;
    Pow2Adds(m, k);
    Pow2Adds(m + k, 32 - m - k);
    Pow2Of32();
    var s := Pow2(k);
    WrapIs(buffer * s);
    ShiftModulo(buffer, Pow2(m), s, Pow2(32 - m - k), low, -((buffer * s + 0x8000_0000) / INT_RANGE));
  }

  lemma {:induction false} ShiftModulo(x: int, p: nat, s: nat, q: nat, low: nat, t: int)
    requires p > 0 && low < s
    ensures (x * s + p * s * q * t + low) % (p * s) == x % p * s + low
  {
    var u, r := x / p, x % p;
    DivMod(x, p);
    Expand(p, u, r, s);
    Regroup(p * s, q, t);
    Distribute(p * s, u, q * t);
    Distribute(s, r, 1);
    MulMono(s, r + 1, p);
    ModUnique(x * s + p * s * q * t + low, p * s, u + q * t, r * s + low);
  }

  lemma {:induction false} WrapIs(x: int)
    ensures Wrap(x) == x - INT_RANGE * ((x + 0x8000_0000) / INT_RANGE)
  {
  }

  /** Taking the top five of `5 + k` low bits and leaving the other `k`. */
  lemma {:induction false} TakeFive(buffer: Int32, k: nat, hi: nat, low: nat)
    requires hi < 32 && low < Pow2(k)
    requires buffer % Pow2(5 + k) == hi * Pow2(k) + low
    ensures buffer / Pow2(k) % 32 == hi
    ensures buffer % Pow2(k) == low
  {
    var r := Pow2(k);
    Pow2Adds(5, k);
    assert Pow2(5) == 32;
    TopFive(buffer, r, 32 * r, hi, low);
  }

  lemma {:induction false} TopFive(x: int, r: nat, m: nat, hi: nat, low: nat)
    requires m == 32 * r && hi < 32 && low < r && x % m == hi * r + low
    ensures x / r % 32 == hi && x % r == low
  {
    DivMod(x, m);
    var u := x / m;
    Regroup(32, r, u);
    Blocks(r, u, hi);
    ModUnique(x, r, 32 * u + hi, low);
  }

  lemma {:induction false} Blocks(r: int, u: int, hi: int)
    ensures 32 * (r * u) + hi * r == r * (32 * u + hi)
  {
  }

  /** As much of `n` bytes as fits in a buffer of `size`, which may be negative. */
  function Clamp(n: nat, size: int): (r: nat)
    ensures r <= n
  {
    if size < 0 then 0 else if size < n then size else n
  }

  /**
   `base32_encode` (base32.h:35-65). `buffer` is shifted left over and over, so that its
   high bits run off the end of the `int`.
   */
  method Base32Encode(data: seq<Byte>, length: int, result: array<Byte>, bufSize: int) returns (count: int)
    requires 0 <= length <= MAX_LENGTH ==> length <= |data|
    requires bufSize <= result.Length
    modifies result
    ensures length < 0 || length > MAX_LENGTH ==> count == -1 && result[..] == old(result[..])
    ensures 0 <= length <= MAX_LENGTH ==>
      && count == Clamp(EncodedLength(length), bufSize)
      && (forall k :: 0 <= k < count ==> result[k] == Encode(data[..length])[k])
      && (count < bufSize ==> result[count] == 0)
      && (forall k :: 0 <= k < result.Length && k > count ==> result[k] == old(result[k]))
      && (bufSize <= count < result.Length ==> result[count] == old(result[count]))
  {
    hide *;
    if length < 0 || length > MAX_LENGTH {
      return -1;
    }
    count := 0;
    if length > 0 {
      count := EncodeLoop(data[..length], result, bufSize);
    } else {
      EmptyLength();
    }
    ClampIs(length, bufSize, count);
    if count < bufSize {
      result[count] := 0;
    }
  }

  /** The loop of `base32_encode` (base32.h:40-59). */
  method EncodeLoop(d: seq<Byte>, result: array<Byte>, bufSize: int) returns (count: nat)
    requires |d| > 0 && bufSize <= result.Length
    modifies result
    ensures count <= EncodedLength(|d|) && (count <= bufSize || count == 0)
    ensures count < bufSize ==> count == EncodedLength(|d|)
    ensures forall k :: 0 <= k < count ==> result[k] == Encode(d)[k]
    ensures forall k :: count <= k < result.Length ==> result[k] == old(result[k])
  {
    hide *;
    count := 0;
    var buffer: Int32, next: nat, bitsLeft: nat := d[0], 1, 8;
    FirstByte(d);
    while count < bufSize && (bitsLeft > 0 || next < |d|)
      invariant count <= EncodedLength(|d|) && (count <= bufSize || count == 0)
      invariant InStep(d, buffer, next, bitsLeft, count) || Done(d, next, bitsLeft, count)
      invariant forall k :: 0 <= k < count ==> result[k] == Encode(d)[k]
      invariant forall k :: count <= k < result.Length ==> result[k] == old(result[k])
      decreases EncodedLength(|d|) - count
    {
      var index;
      index, buffer, next, bitsLeft := NextGroup(d, buffer, next, bitsLeft, count);
      EncodeAt(d, count);
      result[count] := Letter(index);
      count := count + 1;
    }
    if count < bufSize {
      LengthIs(d, buffer, next, bitsLeft, count);
    }
  }

  lemma {:induction false} ClampIs(n: nat, size: int, count: nat)
    requires count <= EncodedLength(n) && (count <= size || count == 0)
    requires count < size ==> count == EncodedLength(n)
    ensures count == Clamp(EncodedLength(n), size)
  {
  }

  lemma {:induction false} EncodeAt(d: seq<Byte>, k: nat)
    requires k < EncodedLength(|d|) && BitsValue(d, 5 * k, 5) < 32
    ensures Encode(d)[k] == Letter(BitsValue(d, 5 * k, 5))
  {
  }

  lemma {:induction false} EmptyLength()
    ensures EncodedLength(0) == 0
  {
  }

  /** The low `bitsLeft` bits of the buffer are the next ones of the stream. */
  ghost predicate InStep(d: seq<Byte>, buffer: Int32, next: nat, bitsLeft: nat, count: nat) {
    && next <= |d| && bitsLeft <= 8 && 5 * count + bitsLeft == 8 * next
    && buffer % Pow2(bitsLeft) == BitsValue(d, 5 * count, bitsLeft)
  }

  /** The last group has been written, with zero bits added to fill it. */
  ghost predicate Done(d: seq<Byte>, next: nat, bitsLeft: nat, count: nat) {
    next == |d| && bitsLeft == 0 && 8 * |d| <= 5 * count < 8 * |d| + 5
  }

  lemma {:induction false} LengthIs(d: seq<Byte>, buffer: Int32, next: nat, bitsLeft: nat, count: nat)
    requires InStep(d, buffer, next, bitsLeft, count) || Done(d, next, bitsLeft, count)
    requires bitsLeft == 0 && next >= |d|
    ensures count == EncodedLength(|d|)
  {
  }

  /** The loop body up to the store (base32.h:45-57): the next five bits of the stream. */
  method NextGroup(d: seq<Byte>, buffer: Int32, next: nat, bitsLeft: nat, count: nat)
    returns (index: nat, buffer': Int32, next': nat, bitsLeft': nat)
    requires InStep(d, buffer, next, bitsLeft, count) || Done(d, next, bitsLeft, count)
    requires bitsLeft > 0 || next < |d|
    ensures index < 32 && index == BitsValue(d, 5 * count, 5)
    ensures InStep(d, buffer', next', bitsLeft', count + 1) || Done(d, next', bitsLeft', count + 1)
    ensures count < EncodedLength(|d|)
  {
    hide Pow2, BitsValue, BitAt;
    buffer', next', bitsLeft' := Refill(d, buffer, next, bitsLeft, 5 * count);
    EightBits();
    BitsConcat(d, 5 * count, 5, bitsLeft' - 5);
    TakeFive(buffer', bitsLeft' - 5, BitsValue(d, 5 * count, 5), BitsValue(d, 5 * count + 5, bitsLeft' - 5));
    index := buffer' / Pow2(bitsLeft' - 5) % 32;
    bitsLeft' := bitsLeft' - 5;
  }

  /**
   The start of the loop body (base32.h:45-55): at least five bits in the buffer, with
   zero bits added after the last byte. `start` is where in the stream they begin.
   */
  method Refill(data: seq<Byte>, buffer: Int32, next: nat, bitsLeft: nat, ghost start: nat)
    returns (buffer': Int32, next': nat, bitsLeft': nat)
    requires next <= |data| && bitsLeft <= 8 && start + bitsLeft == 8 * next
    requires buffer % Pow2(bitsLeft) == BitsValue(data, start, bitsLeft)
    ensures next <= next' <= |data| && 5 <= bitsLeft' <= 12
    ensures buffer' % Pow2(bitsLeft') == BitsValue(data, start, bitsLeft')
    ensures || start + bitsLeft' == 8 * next'
            || (next' == |data| && bitsLeft' == 5 && 8 * |data| < start + 5)
  {
    hide Pow2, Wrap, BitsValue, BitAt;
    EightBits();
    buffer', next', bitsLeft' := buffer, next, bitsLeft;
    if bitsLeft < 5 {
      if next < |data| {
        ReadByte(data, buffer, start, bitsLeft, next);
        buffer' := Wrap(buffer * 256);
        buffer' := buffer' + data[next];
        next' := next + 1;
        bitsLeft' := bitsLeft + 8;
      } else {
        var pad := 5 - bitsLeft;
        PadOut(data, buffer, start, bitsLeft);
        buffer' := Wrap(buffer * Pow2(pad));
        bitsLeft' := bitsLeft + pad;
      }
    }
  }

  lemma {:induction false} FirstByte(d: seq<Byte>)
    requires |d| > 0
    ensures InStep(d, d[0], 1, 8, 0)
  {
    ByteBits(d, 0, 8);
    assert Pow2(0) == 1 && Pow2(8) == 256;
  }

  lemma {:induction false} ReadByte(d: seq<Byte>, buffer: Int32, start: nat, bitsLeft: nat, next: nat)
    requires next < |d| && bitsLeft < 5 && start + bitsLeft == 8 * next
    requires buffer % Pow2(bitsLeft) == BitsValue(d, start, bitsLeft)
    ensures -0x8000_0000 <= Wrap(buffer * 256) + d[next] < 0x8000_0000
    ensures (Wrap(buffer * 256) + d[next]) % Pow2(bitsLeft + 8) == BitsValue(d, start, bitsLeft + 8)
  {
    EightBits();
    hide Pow2, Wrap, BitsValue, BitAt;
    ByteBits(d, next, 8);
    BitsConcat(d, start, bitsLeft, 8);
    ShiftIn(buffer, bitsLeft, 8, d[next]);
    RoomForByte(buffer, d[next]);
  }

  lemma {:induction false} EightBits()
    ensures Pow2(0) == 1 && Pow2(5) == 32 && Pow2(8) == 256
  {
  }

  lemma {:induction false} RoomForByte(buffer: Int32, b: Byte)
    ensures -0x8000_0000 <= Wrap(buffer * 256) + b < 0x8000_0000
  {
  }

  lemma {:induction false} PadOut(d: seq<Byte>, buffer: Int32, start: nat, bitsLeft: nat)
    requires bitsLeft < 5 && start + bitsLeft == 8 * |d|
    requires buffer % Pow2(bitsLeft) == BitsValue(d, start, bitsLeft)
    ensures Wrap(buffer * Pow2(5 - bitsLeft)) % Pow2(5) == BitsValue(d, start, 5)
  {
    ZeroTail(d, start + bitsLeft, 5 - bitsLeft);
    BitsConcat(d, start, bitsLeft, 5 - bitsLeft);
    ShiftIn(buffer, bitsLeft, 5 - bitsLeft, 0);
  }
}
