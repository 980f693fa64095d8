/** CRC-16/XMODEM, the checksum of a Stellar address: the linear register whose step shifts a
    16-bit vector left and folds in the polynomial x^16 + x^12 + x^5 + 1. */
module Crc16 {
  import opened LinearRegister

  /** The bit shifted out is added back at the taps 0, 5 and 12 of the polynomial. */
  function BitStep(crc: bv16): bv16 {
    var out := crc >> 15;
    (crc << 1) ^ out ^ (out << 5) ^ (out << 12)
  }

  function Add(x: bv16, y: bv16): bv16 { x ^ y }

  /** A byte as it is folded into the register, and as the register's low half. */
  function High(byte: bv8): bv16 { (byte as bv16) << 8 }

  function Low(byte: bv8): bv16 { byte as bv16 }

  function HighByte(r: bv16): bv8 { (r >> 8) as bv8 }

  function LowByte(r: bv16): bv8 { (r & 0xFF) as bv8 }

  const XMODEM: Machine<bv16, bv8> := Machine(BitStep, Add, 0, High, 0)

  function Crc(data: seq<bv8>): bv16 { Checksum(XMODEM, data) }

  /** One turn of the inner loop, written with the polynomial as the constant 0x1021. */
  method ShiftRegister(crc: bv16) returns (next: bv16)
    ensures next == BitStep(crc)
  {
    if crc & 0x8000 != 0 {
      next := (crc << 1) ^ 0x1021;
    } else {
      next := crc << 1;
    }
  }

  method Crc16Xmodem(data: seq<bv8>) returns (crc: bv16)
    ensures crc == Crc(data)
  {
    crc := XMODEM.zero;
    for i := 0 to |data|
      invariant crc == Crc(data[..i])
    {
      assert data[..i + 1][..i] == data[..i];
      crc := XMODEM.add(crc, High(data[i]));
      ghost var folded := crc;
      for bit := 0 to 8
        invariant crc == Shifted(XMODEM, bit, folded)
      {
        crc := ShiftRegister(crc);
      }
    }
    assert data[..|data|] == data;
  }

  // ----- Bits -----

  lemma BitStepLinear(x: bv16, y: bv16)
    ensures BitStep(x ^ y) == BitStep(x) ^ BitStep(y)
  {}

  lemma BitStepKernel(x: bv16)
    ensures BitStep(x) == 0 <==> x == 0
  {}

  lemma XorLaws(x: bv16, y: bv16)
    ensures x ^ y == 0 <==> x == y
    ensures x ^ 0 == x && 0 ^ x == x
  {}

  lemma HighKernel(b: bv8)
    ensures High(b) == 0 <==> b == 0
  {}

  lemma HighLinear(x: bv16, y: bv16, b: bv8, c: bv8)
    ensures (x ^ y) ^ High(b ^ c) == (x ^ High(b)) ^ (y ^ High(c))
  {}

  lemma ByteXorZero(b: bv8, c: bv8)
    ensures b ^ c == 0 <==> b == c
  {}

  lemma HighVersusLow(b: bv8, c: bv8)
    ensures High(b) ^ Low(c) == 0 <==> b == 0 && c == 0
  {}

  lemma EightBitSteps(b: bv8)
    ensures BitStep(BitStep(BitStep(BitStep(BitStep(BitStep(BitStep(BitStep(Low(b))))))))) == High(b)
  {}

  lemma StepIsAdditive(x: bv16, y: bv16)
    ensures XMODEM.step(XMODEM.add(x, y)) == XMODEM.add(XMODEM.step(x), XMODEM.step(y))
  {
    BitStepLinear(x, y);
  }

  lemma StepKernelIsZero(x: bv16)
    ensures XMODEM.step(x) == XMODEM.zero <==> x == XMODEM.zero
  {
    BitStepKernel(x);
  }

  lemma AddIsExclusiveOr(x: bv16, y: bv16)
    ensures XMODEM.add(x, y) == XMODEM.zero <==> x == y
    ensures XMODEM.add(x, XMODEM.zero) == x && XMODEM.add(XMODEM.zero, x) == x
  {
    XorLaws(x, y);
  }

  lemma XmodemIsLinear()
    ensures Linear(XMODEM)
  {
    forall x, y { StepIsAdditive(x, y); }
    forall x { StepKernelIsZero(x); }
    forall x, y { AddIsExclusiveOr(x, y); }
    forall b ensures XMODEM.place(b) == XMODEM.zero <==> b == XMODEM.blank { HighKernel(b); }
  }

  lemma EightShifts(r: bv16)
    ensures Shifted(XMODEM, 8, r) == BitStep(BitStep(BitStep(BitStep(BitStep(BitStep(BitStep(BitStep(r))))))))
  {
    var s := XMODEM.step(XMODEM.step(r));
    assert Shifted(XMODEM, 2, r) == s by { assert Shifted(XMODEM, 1, r) == XMODEM.step(r); }
    var t := XMODEM.step(XMODEM.step(s));
    assert Shifted(XMODEM, 4, r) == t by { assert Shifted(XMODEM, 3, r) == XMODEM.step(s); }
    var u := XMODEM.step(XMODEM.step(t));
    assert Shifted(XMODEM, 6, r) == u by { assert Shifted(XMODEM, 5, r) == XMODEM.step(t); }
    assert Shifted(XMODEM, 7, r) == XMODEM.step(u);
  }

  lemma LowBytesEnter()
    ensures EntersFrom(XMODEM, Low)
  {
    forall b ensures Shifted(XMODEM, 8, Low(b)) == XMODEM.place(b) {
      EightShifts(Low(b));
      EightBitSteps(b);
    }
    forall b, c ensures XMODEM.add(XMODEM.place(b), Low(c)) == XMODEM.zero <==> b == 0 && c == 0 {
      HighVersusLow(b, c);
    }
  }

  // ----- What the checksum promises -----

  function Xor(a: seq<bv8>, b: seq<bv8>): (c: seq<bv8>)
    requires |a| == |b|
    ensures |c| == |a| && forall i | 0 <= i < |a| :: c[i] == a[i] ^ b[i]
  {
    seq(|a|, i requires 0 <= i < |a| && |a| == |b| => a[i] ^ b[i])
  }

  lemma PlaceIsAdditive(x: bv16, y: bv16, b: bv8, c: bv8, d: bv8)
    requires d == b ^ c
    ensures XMODEM.add(XMODEM.add(x, y), XMODEM.place(d)) ==
            XMODEM.add(XMODEM.add(x, XMODEM.place(b)), XMODEM.add(y, XMODEM.place(c)))
  {
    HighLinear(x, y, b, c);
  }

  /** The checksum is linear over exclusive-or on inputs of one length. */
  lemma CrcXorLinear(a: seq<bv8>, b: seq<bv8>)
    requires |a| == |b|
    ensures Crc(Xor(a, b)) == Crc(a) ^ Crc(b)
  {
    XmodemIsLinear();
    var c := Xor(a, b);
    forall i, x, y | 0 <= i < |a|
      ensures XMODEM.add(XMODEM.add(x, y), XMODEM.place(c[i])) ==
              XMODEM.add(XMODEM.add(x, XMODEM.place(a[i])), XMODEM.add(y, XMODEM.place(b[i])))
    {
      PlaceIsAdditive(x, y, a[i], b[i], c[i]);
    }
    ChecksumAdditive(XMODEM, a, b, c);
  }

  /** Any change confined to one byte, or to two adjacent bytes, changes the checksum. */
  lemma BurstDetected(a: seq<bv8>, b: seq<bv8>, at: nat)
    requires |a| == |b| && at < |a| && a != b
    requires forall i | 0 <= i < |a| && i != at && i != at + 1 :: a[i] == b[i]
    ensures Crc(a) != Crc(b)
  {
    var d := Xor(a, b);
    forall i | 0 <= i < |a|
      ensures d[i] == 0 <==> a[i] == b[i]
    {
      ByteXorZero(a[i], b[i]);
    }
    var i :| 0 <= i < |a| && a[i] != b[i];
    assert d[i] != XMODEM.blank;
    XmodemIsLinear();
    LowBytesEnter();
    BurstNonZero(XMODEM, Low, d, at);
    CrcXorLinear(a, b);
    XorLaws(Crc(a), Crc(b));
  }

  lemma RegisterOfBytes(r: bv16)
    ensures r == High(HighByte(r)) ^ Low(LowByte(r))
  {}

  lemma BytesOfRegister(x: bv8, y: bv8)
    ensures HighByte(High(x) ^ Low(y)) == x && LowByte(High(x) ^ Low(y)) == y
  {}

  lemma HighAndLow(r: bv16, x: bv8, y: bv8)
    ensures r == High(x) ^ Low(y) <==> x == HighByte(r) && y == LowByte(r)
  {
    hide High, Low, HighByte, LowByte;
    RegisterOfBytes(r);
    BytesOfRegister(x, y);
  }

  lemma XorRegroups(a: bv16, b: bv16, c: bv16)
    ensures (a ^ b) ^ c == 0 <==> a == b ^ c
  {}

  lemma Entered(r: bv16, x: bv8, y: bv8)
    ensures XMODEM.add(XMODEM.add(r, XMODEM.place(x)), Low(y)) == (r ^ High(x)) ^ Low(y)
  {}

  lemma XmodemTail(r: bv16, x: bv8, y: bv8)
    ensures Fed(XMODEM, Fed(XMODEM, r, x), y) == XMODEM.zero <==> (r ^ High(x)) ^ Low(y) == XMODEM.zero
  {
    hide Linear, EntersFrom, Fed, High, Low, BitStep;
    XmodemIsLinear();
    LowBytesEnter();
    Entered(r, x, y);
    TailKernel(XMODEM, Low, r, x, y);
  }

  /** A text followed by its checksum, high byte first, has checksum zero, and followed by no other
      two bytes. */
  lemma CrcZeroExactly(data: seq<bv8>, x: bv8, y: bv8)
    ensures Crc(data + [x, y]) == 0 <==> x == HighByte(Crc(data)) && y == LowByte(Crc(data))
  {
    hide High, Low, HighByte, LowByte, Fed;
    var r, one := Crc(data), data + [x];
    assert (data + [x, y])[..|data| + 1] == one && one[..|data|] == data;
    assert Crc(one) == Fed(XMODEM, r, x);
    assert Crc(data + [x, y]) == Fed(XMODEM, Crc(one), y);
    XmodemTail(r, x, y);
    XorRegroups(r, High(x), Low(y));
    HighAndLow(r, x, y);
  }
}
