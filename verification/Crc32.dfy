/** CRC-32 as the PNG encoder of the Teams manifest computes it (a lookup table
    and 32-bit words), proved equal to the bit-serial shift register of section
    3.4 of RFC 2083, and its error-detection guarantee. */
module Crc32 {
  import opened Bytes

  // ---------- The bit-serial reference ----------

  /** The shift register: bit i of the word at index i. */
  type Register = r: seq<bool> | |r| == 32 witness Repeat(false, 32)

  function Repeat(b: bool, n: nat): (s: seq<bool>)
    ensures |s| == n && forall i :: 0 <= i < n ==> s[i] == b
  {
    seq(n, i => b)
  }

  /** The generator polynomial x^32+x^26+...+1, reflected: bit i is the
      coefficient of x^(31-i). */
  const POLYNOMIAL: Register := [
    false, false, false, false, false, true, false, false,
    true, true, false, false, false, false, false, true,
    false, false, false, true, true, true, false, true,
    true, false, true, true, false, true, true, true]

  const ALL_ONES: Register := Repeat(true, 32)

  function XorBits(a: seq<bool>, b: seq<bool>): (c: seq<bool>)
    requires |a| == |b|
    ensures |c| == |a| && forall i :: 0 <= i < |a| ==> c[i] == (a[i] != b[i])
  {
    seq(|a|, i requires 0 <= i < |a| => a[i] != b[i])
  }

  function Xor(a: Register, b: Register): Register {
    XorBits(a, b)
  }

  /** One clock with no input: move down one place and, if a one drops out, add
      the polynomial. */
  function Shift(r: Register): Register {
    seq(32, i requires 0 <= i < 32 => (i < 31 && r[i + 1]) != (r[0] && POLYNOMIAL[i]))
  }

  /** The register after a bit stream has been clocked in, first bit first. */
  function Feed(r: Register, bits: seq<bool>): Register
    decreases |bits|
  {
    if bits == [] then r else Feed(Shift(r[0 := r[0] != bits[0]]), bits[1..])
  }

  function Widen(v: Byte): bv32 { v as bv32 }

  /** The word with only bit i set. */
  function Mask(i: nat): bv32
    requires i < 32
  {
    match i
    case 0 => 0x1 case 1 => 0x2 case 2 => 0x4 case 3 => 0x8
    case 4 => 0x10 case 5 => 0x20 case 6 => 0x40 case 7 => 0x80
    case 8 => 0x100 case 9 => 0x200 case 10 => 0x400 case 11 => 0x800
    case 12 => 0x1000 case 13 => 0x2000 case 14 => 0x4000 case 15 => 0x8000
    case 16 => 0x10000 case 17 => 0x20000 case 18 => 0x40000 case 19 => 0x80000
    case 20 => 0x100000 case 21 => 0x200000 case 22 => 0x400000 case 23 => 0x800000
    case 24 => 0x1000000 case 25 => 0x2000000 case 26 => 0x4000000 case 27 => 0x8000000
    case 28 => 0x10000000 case 29 => 0x20000000 case 30 => 0x40000000 case _ => 0x80000000
  }

  predicate Bit(c: bv32, i: nat)
    requires i < 32
  {
    c & Mask(i) != 0
  }

  /** The bits of one byte, least significant first (the order of transmission). */
  function BitsOf(v: Byte): (bits: seq<bool>)
    ensures |bits| == 8 && forall i :: 0 <= i < 8 ==> bits[i] == Bit(Widen(v), i)
  {
    seq(8, i requires 0 <= i < 8 => Bit(Widen(v), i))
  }

  function Bits(buf: seq<Byte>): (bits: seq<bool>)
    ensures |bits| == 8 * |buf|
  {
    if buf == [] then [] else BitsOf(buf[0]) + Bits(buf[1..])
  }

  /** The CRC of RFC 2083: register preset to ones, result complemented. */
  function SerialCrc(buf: seq<Byte>): Register {
    Xor(Feed(ALL_ONES, Bits(buf)), ALL_ONES)
  }

  // ---------- The register is linear and invertible ----------

  function ShiftN(k: nat, r: Register): Register {
    if k == 0 then r else ShiftN(k - 1, Shift(r))
  }

  lemma ShiftLinear(x: Register, y: Register)
    ensures Shift(Xor(x, y)) == Xor(Shift(x), Shift(y))
  {
  }

  lemma {:induction false} ShiftNLinear(k: nat, x: Register, y: Register)
    ensures ShiftN(k, Xor(x, y)) == Xor(ShiftN(k, x), ShiftN(k, y))
  {
    if k > 0 {
      ShiftLinear(x, y);
      ShiftNLinear(k - 1, Shift(x), Shift(y));
    }
  }

  /** The bit that dropped out can be read back from the top, because the
      polynomial has a one there. */
  lemma ShiftInjective(x: Register, y: Register)
    requires Shift(x) == Shift(y)
    ensures x == y
  {
    assert Shift(x)[31] == x[0] && Shift(y)[31] == y[0];
    forall j | 1 <= j < 32 ensures x[j] == y[j] {
      assert Shift(x)[j - 1] == Shift(y)[j - 1];
    }
  }

  lemma {:induction false} ShiftNInjective(k: nat, x: Register, y: Register)
    requires ShiftN(k, x) == ShiftN(k, y)
    ensures x == y
  {
    if k > 0 {
      ShiftNInjective(k - 1, Shift(x), Shift(y));
      ShiftInjective(x, y);
    }
  }

  /** At most 32 bits as one word: the first bit lowest, zeros above. */
  function Pad(bits: seq<bool>): Register
    requires |bits| <= 32
  {
    bits + Repeat(false, 32 - |bits|)
  }

  /** Feeding at most 32 bits one by one is adding them to the register as one
      word and then clocking it once for each. */
  lemma {:induction false} FeedIsWord(r: Register, bits: seq<bool>)
    requires |bits| <= 32
    ensures Feed(r, bits) == ShiftN(|bits|, Xor(r, Pad(bits)))
    decreases |bits|
  {
    if bits == [] {
      assert Xor(r, Pad(bits)) == r;
    } else {
      var fed: Register, rest := r[0 := r[0] != bits[0]], bits[1..];
      FeedIsWord(Shift(fed), rest);
      var low: Register := Pad(bits)[0 := false];
      assert Xor(r, Pad(bits)) == Xor(fed, low);
      ShiftLinear(fed, low);
      assert Shift(low) == Pad(rest);
    }
  }

  // ---------- Error detection ----------

  lemma {:induction false} FeedConcat(r: Register, s: seq<bool>, t: seq<bool>)
    ensures Feed(r, s + t) == Feed(Feed(r, s), t)
    decreases |s|
  {
    if s == [] {
      assert s + t == t;
    } else {
      assert (s + t)[1..] == s[1..] + t;
      FeedConcat(Shift(r[0 := r[0] != s[0]]), s[1..], t);
    }
  }

  /** Different registers stay different under the same input. */
  lemma {:induction false} FeedKeepsApart(x: Register, y: Register, bits: seq<bool>)
    requires x != y
    ensures Feed(x, bits) != Feed(y, bits)
    decreases |bits|
  {
    if bits != [] {
      var x', y' := x[0 := x[0] != bits[0]], y[0 := y[0] != bits[0]];
      if Shift(x') == Shift(y') {
        ShiftInjective(x', y');
      }
      assert x == x'[0 := x'[0] != bits[0]] && y == y'[0 := y'[0] != bits[0]];
      FeedKeepsApart(Shift(x'), Shift(y'), bits[1..]);
    }
  }

  /** Two different windows of at most 32 bits drive one register apart. */
  lemma WindowDrivesApart(r: Register, s: seq<bool>, t: seq<bool>)
    requires |s| == |t| <= 32 && s != t
    ensures Feed(r, s) != Feed(r, t)
  {
    FeedIsWord(r, s);
    FeedIsWord(r, t);
    if Feed(r, s) == Feed(r, t) {
      var x, y := Xor(r, Pad(s)), Xor(r, Pad(t));
      ShiftNInjective(|s|, x, y);
      forall i | 0 <= i < |s| ensures s[i] == t[i] {
        assert x[i] == y[i] && Pad(s)[i] == s[i] && Pad(t)[i] == t[i];
      }
    }
  }

  /** The two bit streams are the same outside the window of `width` bits at `at`. */
  predicate SameOutside(s: seq<bool>, t: seq<bool>, at: nat, width: nat) {
    && |s| == |t|
    && at + width <= |s|
    && s[..at] == t[..at]
    && s[at + width..] == t[at + width..]
  }

  lemma BitsOfInjective(v: Byte, w: Byte)
    requires BitsOf(v) == BitsOf(w)
    ensures v == w
  {
    var p, q := BitsOf(v), BitsOf(w);
    assert p[0] == q[0] && p[1] == q[1] && p[2] == q[2] && p[3] == q[3];
    assert p[4] == q[4] && p[5] == q[5] && p[6] == q[6] && p[7] == q[7];
  }

  lemma {:induction false} BitsInjective(x: seq<Byte>, y: seq<Byte>)
    requires Bits(x) == Bits(y)
    ensures x == y
  {
    if x == [] {
      assert |Bits(y)| == 0;
    } else {
      var v, w := x[0], y[0];
      assert BitsOf(v) == Bits(x)[..8] == Bits(y)[..8] == BitsOf(w);
      assert Bits(x[1..]) == Bits(x)[8..] == Bits(y)[8..] == Bits(y[1..]);
      BitsOfInjective(v, w);
      BitsInjective(x[1..], y[1..]);
      assert x == [x[0]] + x[1..] && y == [y[0]] + y[1..];
    }
  }

  lemma StreamBurstDetected(s: seq<bool>, t: seq<bool>, at: nat, width: nat)
    requires s != t && width <= 32 && SameOutside(s, t, at, width)
    ensures Feed(ALL_ONES, s) != Feed(ALL_ONES, t)
  {
    var end := at + width;
    var head, p, q, tail := s[..at], s[at..end], t[at..end], s[end..];
    assert s == head + p + tail && t == head + q + tail;
    FeedConcat(ALL_ONES, head + p, tail);
    FeedConcat(ALL_ONES, head, p);
    FeedConcat(ALL_ONES, head + q, tail);
    FeedConcat(ALL_ONES, head, q);
    var r := Feed(ALL_ONES, head);
    WindowDrivesApart(r, p, q);
    FeedKeepsApart(Feed(r, p), Feed(r, q), tail);
  }

  /** Two different buffers of one length whose bits differ only inside a window
      of 32 consecutive bits never have the same CRC. */
  lemma BurstDetected(x: seq<Byte>, y: seq<Byte>, at: nat, width: nat)
    requires x != y && width <= 32
    requires SameOutside(Bits(x), Bits(y), at, width)
    ensures SerialCrc(x) != SerialCrc(y)
  {
    if Bits(x) == Bits(y) {
      BitsInjective(x, y);
    }
    StreamBurstDetected(Bits(x), Bits(y), at, width);
    ComplementInjective(Feed(ALL_ONES, Bits(x)), Feed(ALL_ONES, Bits(y)));
  }

  lemma ComplementInjective(x: Register, y: Register)
    requires x != y
    ensures Xor(x, ALL_ONES) != Xor(y, ALL_ONES)
  {
    var i :| 0 <= i < 32 && x[i] != y[i];
    assert Xor(x, ALL_ONES)[i] != Xor(y, ALL_ONES)[i];
  }

  lemma {:induction false} BitsConcat(x: seq<Byte>, y: seq<Byte>)
    ensures Bits(x + y) == Bits(x) + Bits(y)
  {
    if x == [] {
      assert x + y == y;
    } else {
      assert (x + y)[1..] == x[1..] + y;
      BitsConcat(x[1..], y);
    }
  }

  lemma FramedApart(head: seq<Byte>, p: seq<Byte>, q: seq<Byte>, tail: seq<Byte>)
    requires |p| == |q| && p != q
    ensures head + p + tail != head + q + tail
  {
    var i :| 0 <= i < |p| && p[i] != q[i];
    assert (head + p + tail)[|head| + i] == p[i];
    assert (head + q + tail)[|head| + i] == q[i];
  }

  /** The byte form: a difference inside four consecutive bytes always changes the CRC. */
  lemma FourByteErrorDetected(head: seq<Byte>, p: seq<Byte>, q: seq<Byte>, tail: seq<Byte>)
    requires |p| == |q| <= 4 && p != q
    ensures SerialCrc(head + p + tail) != SerialCrc(head + q + tail)
  {
    var x, y := head + p + tail, head + q + tail;
    BitsConcat(head + p, tail);
    BitsConcat(head, p);
    BitsConcat(head + q, tail);
    BitsConcat(head, q);
    FramedApart(head, p, q, tail);
    var s, t := Bits(x), Bits(y);
    var at, width := |Bits(head)|, |Bits(p)|;
    assert s[..at] == Bits(head) == t[..at];
    assert s[at + width..] == Bits(tail) == t[at + width..];
    BurstDetected(x, y, at, width);
  }

  // ---------- 32-bit words as registers ----------

  function Unpack(c: bv32): Register {
    seq(32, i requires 0 <= i < 32 => Bit(c, i))
  }

  lemma MaskFacts(i: nat)
    requires i < 32
    ensures Mask(i) != 0 && Mask(i) & (Mask(i) - 1) == 0
    ensures i < 31 ==> Mask(i) < 0x80000000 && Mask(i + 1) == Mask(i) << 1
    ensures if i < 8 then Mask(i) & 0xff == Mask(i) else Mask(i) & 0xff == 0
  {
  }

  lemma MaskXor(x: bv32, y: bv32, m: bv32)
    requires m != 0 && m & (m - 1) == 0
    ensures ((x ^ y) & m != 0) == ((x & m != 0) != (y & m != 0))
  {
  }

  lemma UnpackXor(x: bv32, y: bv32)
    ensures Unpack(x ^ y) == Xor(Unpack(x), Unpack(y))
  {
    forall i | 0 <= i < 32 ensures Bit(x ^ y, i) == (Bit(x, i) != Bit(y, i)) {
      MaskFacts(i);
      MaskXor(x, y, Mask(i));
    }
  }

  lemma MaskHalf(c: bv32, m: bv32)
    ensures m < 0x80000000 ==> ((c >> 1) & m != 0) == (c & (m << 1) != 0)
    ensures (c >> 1) & 0x80000000 == 0
  {
  }

  lemma UnpackHalf(c: bv32)
    ensures Unpack(c >> 1) == Unpack(c)[1..] + [false]
  {
    var half := c >> 1;
    forall i | 0 <= i < 31 ensures Bit(half, i) == Bit(c, i + 1) {
      MaskFacts(i);
      MaskHalf(c, Mask(i));
    }
    MaskHalf(c, 0);
    assert !Bit(half, 31);
  }

  lemma FourHalves(c: bv32, c1: bv32, c2: bv32, c3: bv32, c4: bv32)
    requires c1 == c >> 1 && c2 == c1 >> 1 && c3 == c2 >> 1 && c4 == c3 >> 1
    ensures c4 == c >> 4
  {
  }

  lemma TwoNibbles(c: bv32, c4: bv32, c8: bv32, high: bv32)
    requires c4 == c >> 4 && c8 == c4 >> 4 && high == c >> 8
    ensures c8 == high
  {
  }

  lemma HalfAgain(a: Register, c: bv32, half: bv32, k: nat)
    requires k < 32 && half == c >> 1 && Unpack(c) == a[k..] + Repeat(false, k)
    ensures Unpack(half) == a[k + 1..] + Repeat(false, k + 1)
  {
    UnpackHalf(c);
  }

  /** Shifting a word right by eight drops its low byte. */
  lemma UnpackHigh(c: bv32, high: bv32)
    requires high == c >> 8
    ensures Unpack(high) == Unpack(c)[8..] + Repeat(false, 8)
  {
    var a := Unpack(c);
    assert a == a[0..] + Repeat(false, 0);
    var c4 := Nibble(a, c, 0);
    var c8 := Nibble(a, c4, 4);
    TwoNibbles(c, c4, c8, high);
  }

  lemma Nibble(a: Register, c: bv32, k: nat) returns (c4: bv32)
    requires k < 29 && Unpack(c) == a[k..] + Repeat(false, k)
    ensures c4 == c >> 4 && Unpack(c4) == a[k + 4..] + Repeat(false, k + 4)
  {
    var c1 := c >> 1;
    HalfAgain(a, c, c1, k);
    var c2 := c1 >> 1;
    HalfAgain(a, c1, c2, k + 1);
    var c3 := c2 >> 1;
    HalfAgain(a, c2, c3, k + 2);
    c4 := c3 >> 1;
    HalfAgain(a, c3, c4, k + 3);
    FourHalves(c, c1, c2, c3, c4);
  }

  lemma UnpackPolynomial()
    ensures Unpack(0xedb88320) == POLYNOMIAL
  {
    forall i | 0 <= i < 32 ensures Bit(0xedb88320, i) == POLYNOMIAL[i] {
    }
  }

  /** What the inner loop of the table construction does to a word. */
  function ShiftWord(c: bv32): bv32 {
    if c & 1 != 0 then 0xedb88320 ^ (c >> 1) else c >> 1
  }

  lemma ShiftByDrop(r: Register, dropped: Register)
    requires dropped == r[1..] + [false]
    ensures Shift(r) == if r[0] then Xor(POLYNOMIAL, dropped) else dropped
  {
  }

  lemma UnpackShift(c: bv32)
    ensures Unpack(ShiftWord(c)) == Shift(Unpack(c))
  {
    UnpackHalf(c);
    UnpackPolynomial();
    UnpackXor(0xedb88320, c >> 1);
    ShiftByDrop(Unpack(c), Unpack(c >> 1));
    assert Unpack(c)[0] == Bit(c, 0);
  }

  lemma MaskWithinByte(v: Byte, m: bv32)
    requires m & 0xff == 0
    ensures Widen(v) & m == 0
  {
  }

  lemma UnpackByte(v: Byte)
    ensures Unpack(Widen(v)) == Pad(BitsOf(v))
  {
    forall i | 8 <= i < 32 ensures !Bit(Widen(v), i) {
      MaskFacts(i);
      MaskWithinByte(v, Mask(i));
    }
  }

  lemma UnpackOnes()
    ensures Unpack(0xffffffff) == ALL_ONES
  {
    forall i | 0 <= i < 32 ensures Bit(0xffffffff, i) {
    }
  }

  // ---------- The table-driven computation ----------

  /** Eight clocks merely drop the low byte when it is zero. */
  lemma {:induction false} ShiftZeros(k: nat, r: Register)
    requires k <= 8 && forall i :: 0 <= i < k ==> !r[i]
    ensures ShiftN(k, r) == r[k..] + Repeat(false, k)
  {
    if k > 0 {
      assert Shift(r) == r[1..] + [false];
      ShiftZeros(k - 1, Shift(r));
    }
  }

  /** Eight clocks with a byte of input: the low byte of the sum goes through
      the register, the rest moves down. */
  lemma ByteThroughRegister(r: Register, bits: seq<bool>)
    requires |bits| == 8
    ensures Feed(r, bits) == Xor(ShiftN(8, Pad(XorBits(r[..8], bits))), r[8..] + Repeat(false, 8))
  {
    FeedIsWord(r, bits);
    var low: Register := Pad(XorBits(r[..8], bits));
    var high: Register := Repeat(false, 8) + r[8..];
    assert Xor(r, Pad(bits)) == Xor(low, high);
    ShiftNLinear(8, low, high);
    ShiftZeros(8, high);
    assert high[8..] == r[8..];
  }

  /** The low byte of the sum of a register and an input byte. */
  function Index(c: bv32, v: Byte): Byte {
    ((c ^ Widen(v)) & 0xff) as bv8
  }

  lemma LowMask(x: bv32, m: bv32)
    requires m & 0xff == m
    ensures Widen((x & 0xff) as bv8) & m == x & m
  {
  }

  lemma BitsOfIndex(c: bv32, v: Byte)
    ensures BitsOf(Index(c, v)) == XorBits(Unpack(c)[..8], BitsOf(v))
  {
    forall i | 0 <= i < 8 ensures Bit(Widen(Index(c, v)), i) == (Bit(c, i) != Bit(Widen(v), i)) {
      MaskFacts(i);
      LowMask(c ^ Widen(v), Mask(i));
      MaskXor(c, Widen(v), Mask(i));
    }
  }

  /** One byte of input: eight serial clocks are one table lookup and one shift. */
  lemma ByteStep(c: bv32, v: Byte, entry: bv32, high: bv32)
    requires IsEntry(entry, Index(c, v)) && high == c >> 8
    ensures Feed(Unpack(c), BitsOf(v)) == Xor(Unpack(entry), Unpack(high))
  {
    ByteThroughRegister(Unpack(c), BitsOf(v));
    BitsOfIndex(c, v);
    UnpackHigh(c, high);
  }

  /** What the lookup table holds at n: the register after n has been clocked through it. */
  predicate IsEntry(entry: bv32, n: Byte) {
    Unpack(entry) == ShiftN(8, Pad(BitsOf(n)))
  }

  predicate IsCrcTable(table: seq<bv32>) {
    && |table| == 256
    && forall n :: 0 <= n < 256 ==> IsEntry(table[n], ByteOf(n))
  }

  /** The word will be the table entry of v after k more clocks. */
  ghost predicate BecomesEntry(k: nat, c: bv32, v: Byte) {
    ShiftN(k, Unpack(c)) == ShiftN(8, Pad(BitsOf(v)))
  }

  lemma ClockWord(k: nat, c: bv32, v: Byte)
    requires BecomesEntry(k + 1, c, v)
    ensures BecomesEntry(k, ShiftWord(c), v)
  {
    UnpackShift(c);
  }

  lemma StartEntry(v: Byte)
    ensures BecomesEntry(8, Widen(v), v)
  {
    UnpackByte(v);
  }

  lemma EntryDone(c: bv32, v: Byte)
    requires BecomesEntry(0, c, v)
    ensures IsEntry(c, v)
  {
  }

  method BuildTable() returns (table: array<bv32>)
    ensures fresh(table) && IsCrcTable(table[..])
  {
    table := new bv32[256];
    for n := 0 to 256
      invariant forall m :: 0 <= m < n ==> IsEntry(table[m], ByteOf(m))
    {
      var v := ByteOf(n);
      var c := Widen(v);
      StartEntry(v);
      for k := 0 to 8
        invariant forall m :: 0 <= m < n ==> IsEntry(table[m], ByteOf(m))
        invariant BecomesEntry(8 - k, c, v)
      {
        ClockWord(7 - k, c, v);
        c := ShiftWord(c);
      }
      EntryDone(c, v);
      table[n] := c;
    }
  }

  lemma FeedNextByte(buf: seq<Byte>, i: nat)
    requires i < |buf|
    ensures Feed(ALL_ONES, Bits(buf[..i + 1])) == Feed(Feed(ALL_ONES, Bits(buf[..i])), BitsOf(buf[i]))
  {
    assert buf[..i + 1] == buf[..i] + [buf[i]];
    BitsConcat(buf[..i], [buf[i]]);
    assert Bits([buf[i]]) == BitsOf(buf[i]);
    FeedConcat(ALL_ONES, Bits(buf[..i]), BitsOf(buf[i]));
  }

  lemma TableHolds(table: seq<bv32>, v: Byte)
    requires IsCrcTable(table)
    ensures IsEntry(table[v as int], v)
  {
    ByteOfValue(v);
    assert IsEntry(table[v as int], ByteOf(v as int));
  }

  lemma LookupStep(buf: seq<Byte>, i: nat, c: bv32, entry: bv32, high: bv32)
    requires i < |buf| && IsEntry(entry, Index(c, buf[i])) && high == c >> 8
    requires Unpack(c) == Feed(ALL_ONES, Bits(buf[..i]))
    ensures Unpack(entry ^ high) == Feed(ALL_ONES, Bits(buf[..i + 1]))
  {
    EntryStep(c, buf[i], entry, high);
    FeedNextByte(buf, i);
  }

  lemma EntryStep(c: bv32, v: Byte, entry: bv32, high: bv32)
    requires IsEntry(entry, Index(c, v)) && high == c >> 8
    ensures Unpack(entry ^ high) == Feed(Unpack(c), BitsOf(v))
  {
    ByteStep(c, v, entry, high);
    UnpackXor(entry, high);
  }

  lemma Complement(c: bv32)
    ensures Unpack(c ^ 0xffffffff) == Xor(Unpack(c), ALL_ONES)
  {
    UnpackOnes();
    UnpackXor(c, 0xffffffff);
  }

  method Compute(table: array<bv32>, buf: seq<Byte>) returns (crc: bv32)
    requires IsCrcTable(table[..])
    ensures Unpack(crc) == SerialCrc(buf)
  {
    var c: bv32 := 0xffffffff;
    UnpackOnes();
    for i := 0 to |buf|
      invariant Unpack(c) == Feed(ALL_ONES, Bits(buf[..i]))
    {
      var index := Index(c, buf[i]);
      var entry, high := table[index as int], c >> 8;
      TableHolds(table[..], index);
      LookupStep(buf, i, c, entry, high);
      c := entry ^ high;
    }
    assert buf[..|buf|] == buf;
    Complement(c);
    crc := c ^ 0xffffffff;
  }

  // ---------- A known answer ----------

  /** Eight clocks of a word, one after the other. */
  lemma EntryByClocks(v: Byte, x0: bv32, x1: bv32, x2: bv32, x3: bv32, x4: bv32, x5: bv32, x6: bv32, x7: bv32, x8: bv32)
    requires x0 == Widen(v)
    requires x1 == ShiftWord(x0) && x2 == ShiftWord(x1) && x3 == ShiftWord(x2) && x4 == ShiftWord(x3)
    requires x5 == ShiftWord(x4) && x6 == ShiftWord(x5) && x7 == ShiftWord(x6) && x8 == ShiftWord(x7)
    ensures IsEntry(x8, v)
  {
    StartEntry(v);
    ClockWord(7, x0, v);
    ClockWord(6, x1, v);
    ClockWord(5, x2, v);
    ClockWord(4, x3, v);
    ClockWord(3, x4, v);
    ClockWord(2, x5, v);
    ClockWord(1, x6, v);
    ClockWord(0, x7, v);
    EntryDone(x8, v);
  }

  lemma FeedByEntry(c: bv32, v: Byte, index: Byte, entry: bv32, high: bv32, next: bv32)
    requires high == c >> 8 && next == entry ^ high && index == Index(c, v) && IsEntry(entry, index)
    ensures Unpack(next) == Feed(Unpack(c), BitsOf(v))
  {
    ByteStep(c, v, entry, high);
    UnpackXor(entry, high);
  }

  lemma FirstEndByte(c: bv32, v: Byte)
    requires c == 0xffffffff && v == 0x49
    ensures Unpack(0x22fde946) == Feed(Unpack(c), BitsOf(v))
  {
    EntryByClocks(0xb6, 0xb6, 0x5b, 0xedb8830d, 0x9b64c2a6, 0x4db26153, 0xcb61b389, 0x88085ae4, 0x44042d72, 0x220216b9);
    FeedByEntry(c, v, 0xb6, 0x220216b9, 0xffffff, 0x22fde946);
  }

  lemma SecondEndByte(c: bv32, v: Byte)
    requires c == 0x22fde946 && v == 0x45
    ensures Unpack(0x992bac53) == Feed(Unpack(c), BitsOf(v))
  {
    EntryByClocks(0x3, 0x3, 0xedb88321, 0x9b64c2b0, 0x4db26158, 0x26d930ac, 0x136c9856, 0x9b64c2b, 0xe963a535, 0x990951ba);
    FeedByEntry(c, v, 0x3, 0x990951ba, 0x22fde9, 0x992bac53);
  }

  lemma ThirdEndByte(c: bv32, v: Byte)
    requires c == 0x992bac53 && v == 0x4e
    ensures Unpack(0x639f4775) == Feed(Unpack(c), BitsOf(v))
  {
    EntryByClocks(0x1d, 0x1d, 0xedb8832e, 0x76dc4197, 0xd6d6a3eb, 0x86d3d2d5, 0xaed16a4a, 0x5768b525, 0xc60cd9b2, 0x63066cd9);
    FeedByEntry(c, v, 0x1d, 0x63066cd9, 0x992bac, 0x639f4775);
  }

  lemma FourthEndByte(c: bv32, v: Byte)
    requires c == 0x639f4775 && v == 0x44
    ensures Unpack(0x51bd9f7d) == Feed(Unpack(c), BitsOf(v))
  {
    EntryByClocks(0x31, 0x31, 0xedb88338, 0x76dc419c, 0x3b6e20ce, 0x1db71067, 0xe3630b13, 0x9c0906a9, 0xa3bc0074, 0x51de003a);
    FeedByEntry(c, v, 0x31, 0x51de003a, 0x639f47, 0x51bd9f7d);
  }

  lemma FeedFour(a: Byte, b: Byte, c: Byte, d: Byte)
    ensures Feed(ALL_ONES, Bits([a, b, c, d])) == Feed(Feed(Feed(Feed(ALL_ONES, BitsOf(a)), BitsOf(b)), BitsOf(c)), BitsOf(d))
  {
    var buf := [a, b, c, d];
    FeedNextByte(buf, 0);
    FeedNextByte(buf, 1);
    FeedNextByte(buf, 2);
    FeedNextByte(buf, 3);
    assert buf[..4] == buf && buf[..0] == [];
    assert Feed(ALL_ONES, Bits([])) == ALL_ONES;
  }

  /** The CRC of the four letters IEND, with which every PNG file ends. */
  lemma CrcOfEnd(a: Byte, b: Byte, c: Byte, d: Byte)
    requires a == 0x49 && b == 0x45 && c == 0x4e && d == 0x44
    ensures SerialCrc([a, b, c, d]) == Unpack(0xae426082)
  {
    FeedFour(a, b, c, d);
    UnpackOnes();
    FirstEndByte(0xffffffff, a);
    SecondEndByte(0x22fde946, b);
    ThirdEndByte(0x992bac53, c);
    FourthEndByte(0x639f4775, d);
    Complement(0x51bd9f7d);
  }

  /** The generator: x^32 + x^26 + x^23 + x^22 + x^16 + x^12 + x^11 + x^10 + x^8 + x^7 +
      x^5 + x^4 + x^2 + x + 1, its lowest powers at the top of the register. */
  lemma PolynomialPowers(k: nat)
    requires k < 32
    ensures POLYNOMIAL[31 - k] <==> k in {26, 23, 22, 16, 12, 11, 10, 8, 7, 5, 4, 2, 1, 0}
  {
  }
}
