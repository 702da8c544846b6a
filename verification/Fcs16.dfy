// The frame check sequence of programmator/crc.c: the table-driven FCS-16 of
// Appendix C of RFC 1662, proved against the bit-serial shift register it stands for.
module Fcs16 {

  type Fcs = bv16
  type Byte = b: bv16 | b <= 0xff

  const PPPINITFCS16: Fcs := 0xffff
  const PPPGOODFCS16: Fcs := 0xf0b8

  function Pick(k: Fcs, a: Fcs, b: Fcs, c: Fcs, d: Fcs, e: Fcs, f: Fcs, g: Fcs, h: Fcs): Fcs {
    if k == 0 then a else if k == 1 then b else if k == 2 then c else if k == 3 then d
    else if k == 4 then e else if k == 5 then f else if k == 6 then g else h
  }

  // fcstab, eight entries a row.
  function Fcstab(i: Fcs): Fcs
    requires i <= 0xff
  {
    match i >> 3
    case 0 => Pick(i & 7, 0x0000, 0x1189, 0x2312, 0x329b, 0x4624, 0x57ad, 0x6536, 0x74bf)
    case 1 => Pick(i & 7, 0x8c48, 0x9dc1, 0xaf5a, 0xbed3, 0xca6c, 0xdbe5, 0xe97e, 0xf8f7)
    case 2 => Pick(i & 7, 0x1081, 0x0108, 0x3393, 0x221a, 0x56a5, 0x472c, 0x75b7, 0x643e)
    case 3 => Pick(i & 7, 0x9cc9, 0x8d40, 0xbfdb, 0xae52, 0xdaed, 0xcb64, 0xf9ff, 0xe876)
    case 4 => Pick(i & 7, 0x2102, 0x308b, 0x0210, 0x1399, 0x6726, 0x76af, 0x4434, 0x55bd)
    case 5 => Pick(i & 7, 0xad4a, 0xbcc3, 0x8e58, 0x9fd1, 0xeb6e, 0xfae7, 0xc87c, 0xd9f5)
    case 6 => Pick(i & 7, 0x3183, 0x200a, 0x1291, 0x0318, 0x77a7, 0x662e, 0x54b5, 0x453c)
    case 7 => Pick(i & 7, 0xbdcb, 0xac42, 0x9ed9, 0x8f50, 0xfbef, 0xea66, 0xd8fd, 0xc974)
    case 8 => Pick(i & 7, 0x4204, 0x538d, 0x6116, 0x709f, 0x0420, 0x15a9, 0x2732, 0x36bb)
    case 9 => Pick(i & 7, 0xce4c, 0xdfc5, 0xed5e, 0xfcd7, 0x8868, 0x99e1, 0xab7a, 0xbaf3)
    case 10 => Pick(i & 7, 0x5285, 0x430c, 0x7197, 0x601e, 0x14a1, 0x0528, 0x37b3, 0x263a)
    case 11 => Pick(i & 7, 0xdecd, 0xcf44, 0xfddf, 0xec56, 0x98e9, 0x8960, 0xbbfb, 0xaa72)
    case 12 => Pick(i & 7, 0x6306, 0x728f, 0x4014, 0x519d, 0x2522, 0x34ab, 0x0630, 0x17b9)
    case 13 => Pick(i & 7, 0xef4e, 0xfec7, 0xcc5c, 0xddd5, 0xa96a, 0xb8e3, 0x8a78, 0x9bf1)
    case 14 => Pick(i & 7, 0x7387, 0x620e, 0x5095, 0x411c, 0x35a3, 0x242a, 0x16b1, 0x0738)
    case 15 => Pick(i & 7, 0xffcf, 0xee46, 0xdcdd, 0xcd54, 0xb9eb, 0xa862, 0x9af9, 0x8b70)
    case 16 => Pick(i & 7, 0x8408, 0x9581, 0xa71a, 0xb693, 0xc22c, 0xd3a5, 0xe13e, 0xf0b7)
    case 17 => Pick(i & 7, 0x0840, 0x19c9, 0x2b52, 0x3adb, 0x4e64, 0x5fed, 0x6d76, 0x7cff)
    case 18 => Pick(i & 7, 0x9489, 0x8500, 0xb79b, 0xa612, 0xd2ad, 0xc324, 0xf1bf, 0xe036)
    case 19 => Pick(i & 7, 0x18c1, 0x0948, 0x3bd3, 0x2a5a, 0x5ee5, 0x4f6c, 0x7df7, 0x6c7e)
    case 20 => Pick(i & 7, 0xa50a, 0xb483, 0x8618, 0x9791, 0xe32e, 0xf2a7, 0xc03c, 0xd1b5)
    case 21 => Pick(i & 7, 0x2942, 0x38cb, 0x0a50, 0x1bd9, 0x6f66, 0x7eef, 0x4c74, 0x5dfd)
    case 22 => Pick(i & 7, 0xb58b, 0xa402, 0x9699, 0x8710, 0xf3af, 0xe226, 0xd0bd, 0xc134)
    case 23 => Pick(i & 7, 0x39c3, 0x284a, 0x1ad1, 0x0b58, 0x7fe7, 0x6e6e, 0x5cf5, 0x4d7c)
    case 24 => Pick(i & 7, 0xc60c, 0xd785, 0xe51e, 0xf497, 0x8028, 0x91a1, 0xa33a, 0xb2b3)
    case 25 => Pick(i & 7, 0x4a44, 0x5bcd, 0x6956, 0x78df, 0x0c60, 0x1de9, 0x2f72, 0x3efb)
    case 26 => Pick(i & 7, 0xd68d, 0xc704, 0xf59f, 0xe416, 0x90a9, 0x8120, 0xb3bb, 0xa232)
    case 27 => Pick(i & 7, 0x5ac5, 0x4b4c, 0x79d7, 0x685e, 0x1ce1, 0x0d68, 0x3ff3, 0x2e7a)
    case 28 => Pick(i & 7, 0xe70e, 0xf687, 0xc41c, 0xd595, 0xa12a, 0xb0a3, 0x8238, 0x93b1)
    case 29 => Pick(i & 7, 0x6b46, 0x7acf, 0x4854, 0x59dd, 0x2d62, 0x3ceb, 0x0e70, 0x1ff9)
    case 30 => Pick(i & 7, 0xf78f, 0xe606, 0xd49d, 0xc514, 0xb1ab, 0xa022, 0x92b9, 0x8330)
    case 31 => Pick(i & 7, 0x7bc7, 0x6a4e, 0x58d5, 0x495c, 0x3de3, 0x2c6a, 0x1ef1, 0x0f78)
  }

  // ------------------------------------------------------------------
  // The definition: a register of sixteen cells, cell 0 leaving first,
  // with feedback into cells 3, 10 and 15 (the polynomial 0x8408).
  // ------------------------------------------------------------------

  type Register = s: seq<bool> | |s| == 16 witness seq(16, _ => false)

  predicate Tap(i: nat) {
    i == 3 || i == 10 || i == 15
  }

  function Clock(s: Register): Register {
    seq(16, i requires 0 <= i < 16 => (i < 15 && s[i + 1]) != (s[0] && Tap(i)))
  }

  function Clocks(s: Register, n: nat): Register
    decreases n
  {
    if n == 0 then s else Clocks(Clock(s), n - 1)
  }

  // The register after the given bits went in, first bit first.
  function Feed(s: Register, bits: seq<bool>): Register
    decreases bits
  {
    if bits == [] then s else Feed(Clock(s[0 := s[0] != bits[0]]), bits[1..])
  }

  // The low k bits of a machine word, least significant first: the order in
  // which a byte goes over the line and in which a word fills the cells.
  function LowBits(w: Fcs, k: nat): (bits: seq<bool>)
    ensures |bits| == k
    decreases k
  {
    if k == 0 then [] else [w & 1 != 0] + LowBits(w >> 1, k - 1)
  }

  function Cells(w: Fcs): Register {
    LowBits(w, 16)
  }

  function Bits(message: seq<Byte>): (bits: seq<bool>)
    ensures |bits| == 8 * |message|
  {
    if message == [] then [] else LowBits(message[0], 8) + Bits(message[1..])
  }

  // ------------------------------------------------------------------
  // The register is linear and reversible.
  // ------------------------------------------------------------------

  function Xor(a: Register, b: Register): Register {
    seq(16, i requires 0 <= i < 16 => a[i] != b[i])
  }

  lemma {:induction false} ClocksXor(a: Register, b: Register, n: nat)
    ensures Clocks(Xor(a, b), n) == Xor(Clocks(a, n), Clocks(b, n))
    decreases n
  {
    if n > 0 {
      assert Clock(Xor(a, b)) == Xor(Clock(a), Clock(b));
      ClocksXor(Clock(a), Clock(b), n - 1);
    }
  }

  lemma ClockInjective(a: Register, b: Register)
    requires Clock(a) == Clock(b)
    ensures a == b
  {
    assert Clock(a)[15] == a[0] && Clock(b)[15] == b[0];
    forall i | 0 < i < 16
      ensures a[i] == b[i]
    {
      assert Clock(a)[i - 1] == (a[i] != (a[0] && Tap(i - 1)));
      assert Clock(b)[i - 1] == (b[i] != (b[0] && Tap(i - 1)));
    }
  }

  lemma {:induction false} ClocksInjective(a: Register, b: Register, n: nat)
    requires Clocks(a, n) == Clocks(b, n)
    ensures a == b
    decreases n
  {
    if n > 0 {
      ClocksInjective(Clock(a), Clock(b), n - 1);
      ClockInjective(a, b);
    }
  }

  lemma {:induction false} FeedConcat(s: Register, x: seq<bool>, y: seq<bool>)
    ensures Feed(s, x + y) == Feed(Feed(s, x), y)
    decreases x
  {
    if x == [] {
      assert x + y == y;
    } else {
      assert (x + y)[1..] == x[1..] + y;
      FeedConcat(Clock(s[0 := s[0] != x[0]]), x[1..], y);
    }
  }

  lemma {:induction false} FeedInjective(s: Register, t: Register, bits: seq<bool>)
    requires Feed(s, bits) == Feed(t, bits)
    ensures s == t
    decreases bits
  {
    if bits != [] {
      var s', t' := s[0 := s[0] != bits[0]], t[0 := t[0] != bits[0]];
      FeedInjective(Clock(s'), Clock(t'), bits[1..]);
      ClockInjective(s', t');
      assert s == s'[0 := s'[0] != bits[0]] && t == t'[0 := t'[0] != bits[0]];
    }
  }

  // ------------------------------------------------------------------
  // Up to sixteen bits enter the register as one word.
  // ------------------------------------------------------------------

  function Absorb(s: Register, bits: seq<bool>): Register
    requires |bits| <= 16
  {
    seq(16, i requires 0 <= i < 16 => s[i] != (i < |bits| && bits[i]))
  }

  lemma {:induction false} FeedAbsorbs(s: Register, bits: seq<bool>)
    requires |bits| <= 16
    ensures Feed(s, bits) == Clocks(Absorb(s, bits), |bits|)
    decreases bits
  {
    if bits == [] {
      assert Absorb(s, bits) == s;
    } else {
      var s' := Clock(s[0 := s[0] != bits[0]]);
      assert Clock(Absorb(s, bits)) == Absorb(s', bits[1..]);
      FeedAbsorbs(s', bits[1..]);
    }
  }

  // ------------------------------------------------------------------
  // Error detection.
  // ------------------------------------------------------------------

  // Two bit streams that agree outside a window of at most sixteen consecutive
  // bits, and differ in it, never leave the same register.
  lemma BurstDetected(s: Register, before: seq<bool>, x: seq<bool>, y: seq<bool>, after: seq<bool>)
    requires |x| == |y| <= 16 && x != y
    ensures Feed(s, before + x + after) != Feed(s, before + y + after)
  {
    var t := Feed(s, before);
    FeedConcat(s, before + x, after);
    FeedConcat(s, before + y, after);
    FeedConcat(s, before, x);
    FeedConcat(s, before, y);
    if Feed(Feed(t, x), after) == Feed(Feed(t, y), after) {
      FeedInjective(Feed(t, x), Feed(t, y), after);
      FeedAbsorbs(t, x);
      FeedAbsorbs(t, y);
      ClocksInjective(Absorb(t, x), Absorb(t, y), |x|);
      forall i | 0 <= i < |x|
        ensures x[i] == y[i]
      {
        assert Absorb(t, x)[i] == (t[i] != x[i]) && Absorb(t, y)[i] == (t[i] != y[i]);
      }
      assert false;
    }
  }

  // Sixteen is the exact bound: seventeen consecutive flips can go unseen.
  lemma BurstOfSeventeenCanHide(s: Register)
    ensures exists x: seq<bool>, y: seq<bool> :: |x| == |y| == 17 && x != y && Feed(s, x) == Feed(s, y)
  {
    var zero: Register := seq(16, _ => false);
    var a := Clock(s[0 := s[0] != true]);
    var b := Clock(s[0 := s[0] != false]);
    FeedAbsorbs(a, a);
    FeedAbsorbs(b, b);
    assert Absorb(a, a) == zero == Absorb(b, b);
    var p, q := [true] + a, [false] + b;
    assert p[1..] == a && q[1..] == b;
    assert p[0] != q[0];
    assert |p| == |q| == 17 && p != q && Feed(s, p) == Feed(s, q);
  }

  function Residue(): Register {
    Clocks(seq(16, _ => true), 16)
  }

  function Complement(s: Register): Register {
    seq(16, i requires 0 <= i < 16 => !s[i])
  }

  // Any register followed by its own complement reaches one fixed state.
  lemma ComplementLeavesResidue(s: Register)
    ensures Feed(s, Complement(s)) == Residue()
  {
    FeedAbsorbs(s, Complement(s));
    assert Absorb(s, Complement(s)) == seq(16, _ => true);
  }

  // ------------------------------------------------------------------
  // Machine words as cells.
  // ------------------------------------------------------------------

  lemma LowBitOfXor(v: Fcs, w: Fcs)
    ensures ((v ^ w) & 1 != 0) == ((v & 1 != 0) != (w & 1 != 0))
    ensures (v ^ w) >> 1 == (v >> 1) ^ (w >> 1)
  {
  }

  predicate XorsTo(v: Fcs, w: Fcs, x: Fcs, k: nat)
    decreases k
  {
    k > 0 ==> (x & 1 != 0) == ((v & 1 != 0) != (w & 1 != 0)) && XorsTo(v >> 1, w >> 1, x >> 1, k - 1)
  }

  lemma {:induction false} XorXorsTo(v: Fcs, w: Fcs, k: nat)
    ensures XorsTo(v, w, v ^ w, k)
    decreases k
  {
    if k > 0 {
      XorXorsTo(v >> 1, w >> 1, k - 1);
      LowBitOfXor(v, w);
    }
  }

  lemma {:induction false} LowBitsXorsTo(v: Fcs, w: Fcs, x: Fcs, k: nat, i: nat)
    requires i < k && XorsTo(v, w, x, k)
    ensures LowBits(x, k)[i] == (LowBits(v, k)[i] != LowBits(w, k)[i])
    decreases k
  {
    if i > 0 {
      LowBitsXorsTo(v >> 1, w >> 1, x >> 1, k - 1, i - 1);
    }
  }

  lemma CellsXorTo(v: Fcs, w: Fcs, x: Fcs)
    requires XorsTo(v, w, x, 16)
    ensures Cells(x) == Xor(Cells(v), Cells(w))
  {
    forall i: nat | i < 16
      ensures Cells(x)[i] == Xor(Cells(v), Cells(w))[i]
    {
      LowBitsXorsTo(v, w, x, 16, i);
    }
  }

  lemma CellsOfXor(v: Fcs, w: Fcs)
    ensures Cells(v ^ w) == Xor(Cells(v), Cells(w))
  {
    XorXorsTo(v, w, 16);
    CellsXorTo(v, w, v ^ w);
  }

  // w has no bit at position k or above.
  predicate Fits(w: Fcs, k: nat)
    decreases k
  {
    if k == 0 then w == 0 else Fits(w >> 1, k - 1)
  }

  lemma {:induction false} LowBitsBeyond(w: Fcs, j: nat, k: nat)
    requires j <= k && Fits(w, j)
    ensures LowBits(w, k) == LowBits(w, j) + seq(k - j, _ => false)
    decreases k
  {
    if j > 0 {
      LowBitsBeyond(w >> 1, j - 1, k - 1);
    } else if k > 0 {
      assert w >> 1 == 0 && w & 1 == 0;
      LowBitsBeyond(w >> 1, 0, k - 1);
    }
  }

  lemma NoBits(w: Fcs)
    requires w >> 1 == 0 && w & 1 == 0
    ensures w == 0
  {
  }

  lemma {:induction false} NoLowBits(w: Fcs, k: nat)
    requires Fits(w, k) && forall i :: 0 <= i < k ==> !LowBits(w, k)[i]
    ensures w == 0
    decreases k
  {
    if k > 0 {
      assert !LowBits(w, k)[0];
      var rest := LowBits(w >> 1, k - 1);
      assert LowBits(w, k)[1..] == rest;
      assert forall i :: 0 <= i < k - 1 ==> rest[i] == LowBits(w, k)[i + 1];
      NoLowBits(w >> 1, k - 1);
      NoBits(w);
    }
  }

  lemma XorZero(v: Fcs, w: Fcs)
    requires v ^ w == 0
    ensures v == w
  {
  }

  lemma AllFit(w: Fcs)
    ensures Fits(w, 16)
    ensures w <= 0xff ==> Fits(w, 8)
  {
    EightShifts(w);
    var u := w >> 1 >> 1 >> 1 >> 1 >> 1 >> 1 >> 1 >> 1;
    EightShifts(u);
    assert Fits(u, 8);
    assert Fits(w, 16);
  }

  lemma EightShifts(w: Fcs)
    ensures w >> 1 >> 1 >> 1 >> 1 >> 1 >> 1 >> 1 >> 1 == w >> 8
    ensures w <= 0xff ==> w >> 8 == 0
    ensures (w >> 8) <= 0xff
  {
  }

  lemma CellsInjective(v: Fcs, w: Fcs)
    requires Cells(v) == Cells(w)
    ensures v == w
  {
    var x := v ^ w;
    CellsOfXor(v, w);
    AllFit(x);
    NoLowBits(x, 16);
    XorZero(v, w);
  }

  // ------------------------------------------------------------------
  // One clock, and one byte, on machine words.
  // ------------------------------------------------------------------

  function BitStep(w: Fcs): Fcs {
    if w & 1 == 1 then (w >> 1) ^ 0x8408 else w >> 1
  }

  function ByteStep(w: Fcs): Fcs {
    BitStep(BitStep(BitStep(BitStep(BitStep(BitStep(BitStep(BitStep(w))))))))
  }

  lemma ShiftedCells(w: Fcs)
    ensures Cells(w >> 1) == Cells(w)[1..] + [false]
  {
    AllFit(w);
    LowBitsBeyond(w >> 1, 15, 16);
  }

  lemma TapCells()
    ensures Cells(0x8408) == seq(16, i requires 0 <= i < 16 => Tap(i))
  {
    assert LowBits(0x8, 4) == [false, false, false, true];
    assert LowBits(0x84, 8) == [false, false, true, false] + LowBits(0x8, 4);
    assert LowBits(0x840, 12) == [false, false, false, false] + LowBits(0x84, 8);
    assert LowBits(0x8408, 16) == [false, false, false, true] + LowBits(0x840, 12);
  }

  lemma LowBit(w: Fcs)
    ensures (w & 1 == 1) == (w & 1 != 0)
  {
  }

  lemma ClockIsShift(s: Register, shifted: Register)
    requires shifted == s[1..] + [false]
    ensures !s[0] ==> Clock(s) == shifted
    ensures s[0] ==> Clock(s) == Xor(shifted, seq(16, i requires 0 <= i < 16 => Tap(i)))
  {
  }

  lemma BitStepClocks(w: Fcs)
    ensures Cells(BitStep(w)) == Clock(Cells(w))
  {
    assert Cells(w)[0] == (w & 1 != 0);
    LowBit(w);
    ShiftedCells(w);
    ClockIsShift(Cells(w), Cells(w >> 1));
    TapCells();
    CellsOfXor(w >> 1, 0x8408);
  }

  lemma ByteStepClocks(w: Fcs)
    ensures Cells(ByteStep(w)) == Clocks(Cells(w), 8)
  {
    var w1 := BitStep(w);
    var w2 := BitStep(w1);
    var w3 := BitStep(w2);
    var w4 := BitStep(w3);
    var w5 := BitStep(w4);
    var w6 := BitStep(w5);
    var w7 := BitStep(w6);
    BitStepClocks(w);
    BitStepClocks(w1);
    BitStepClocks(w2);
    BitStepClocks(w3);
    BitStepClocks(w4);
    BitStepClocks(w5);
    BitStepClocks(w6);
    BitStepClocks(w7);
    assert Clocks(Cells(w4), 4) == Cells(ByteStep(w));
  }

  lemma SplitWord(w: Fcs)
    ensures w == (w & 0xff00) ^ (w & 0xff)
  {
  }

  lemma HighByteStep(w: Fcs)
    ensures ByteStep(w & 0xff00) == w >> 8
  {
  }

  lemma HighByteClocks(w: Fcs)
    ensures Cells(w >> 8) == Clocks(Cells(w & 0xff00), 8)
  {
    HighByteStep(w);
    ByteStepClocks(w & 0xff00);
  }

  lemma ClocksOfXor(w: Fcs, high: Fcs, low: Fcs, h: Fcs, l: Fcs)
    requires w == high ^ low
    requires Cells(h) == Clocks(Cells(high), 8) && Cells(l) == Clocks(Cells(low), 8)
    ensures Cells(h ^ l) == Clocks(Cells(w), 8)
  {
    CellsOfXor(high, low);
    ClocksXor(Cells(high), Cells(low), 8);
    CellsOfXor(h, l);
  }

  // ------------------------------------------------------------------
  // The table.
  // ------------------------------------------------------------------

  function Folded(i: Fcs): Fcs {
    (i ^ (i << 4)) & 0xff
  }

  // The feedback of one byte in closed form.
  function Feedback(i: Fcs): Fcs {
    (Folded(i) << 8) ^ (Folded(i) << 3) ^ (Folded(i) >> 4)
  }

  lemma FeedbackIsByteStep(i: Fcs)
    requires i <= 0xff
    ensures ByteStep(i) == Feedback(i)
  {
  }

  lemma TableRows0To7(i: Fcs)
    requires i <= 0xff && i >> 3 < 8
    ensures Fcstab(i) == Feedback(i)
  {
  }

  lemma TableRows8To15(i: Fcs)
    requires i <= 0xff && 8 <= i >> 3 < 16
    ensures Fcstab(i) == Feedback(i)
  {
  }

  lemma TableRows16To23(i: Fcs)
    requires i <= 0xff && 16 <= i >> 3 < 24
    ensures Fcstab(i) == Feedback(i)
  {
  }

  lemma TableRows24To31(i: Fcs)
    requires i <= 0xff && 24 <= i >> 3
    ensures Fcstab(i) == Feedback(i)
  {
  }

  // Entry i of the table is the byte i clocked eight times through the register.
  lemma TableIsBitwise(i: Fcs)
    requires i <= 0xff
    ensures Cells(Fcstab(i)) == Clocks(Cells(i), 8)
  {
    if i >> 3 < 8 {
      TableRows0To7(i);
    } else if i >> 3 < 16 {
      TableRows8To15(i);
    } else if i >> 3 < 24 {
      TableRows16To23(i);
    } else {
      TableRows24To31(i);
    }
    FeedbackIsByteStep(i);
    ByteStepClocks(i);
  }

  // ------------------------------------------------------------------
  // The program.
  // ------------------------------------------------------------------

  lemma LowByteRange(w: Fcs)
    ensures w & 0xff <= 0xff
  {
  }

  lemma HighByteUnchanged(fcs: Fcs, b: Byte)
    ensures (fcs ^ b) >> 8 == fcs >> 8
  {
  }

  lemma ByteCells(b: Byte)
    ensures Cells(b) == LowBits(b, 8) + seq(8, _ => false)
  {
    AllFit(b);
    LowBitsBeyond(b, 8, 16);
  }

  lemma AbsorbIsXor(s: Register, bits: seq<bool>, t: Register)
    requires |bits| <= 16 && t == bits + seq(16 - |bits|, _ => false)
    ensures Absorb(s, bits) == Xor(s, t)
  {
  }

  // Eight clocks of a word: its high byte moves down, its low byte feeds back.
  lemma WordClocks(x: Fcs, high: Fcs, t: Fcs)
    requires Cells(t) == Clocks(Cells(x & 0xff), 8) && high == x >> 8
    ensures Cells(high ^ t) == Clocks(Cells(x), 8)
  {
    SplitWord(x);
    HighByteClocks(x);
    ClocksOfXor(x, x & 0xff00, x & 0xff, high, t);
  }

  // One turn of the loop in pppfcs16: x is the word with the byte added, high
  // its upper half moved down, t the table entry looked up for its lower half.
  lemma TableStepFeeds(fcs: Fcs, b: Byte, x: Fcs, high: Fcs, t: Fcs)
    requires Cells(x) == Xor(Cells(fcs), Cells(b)) && high == x >> 8
    requires Cells(t) == Clocks(Cells(x & 0xff), 8)
    ensures Cells(high ^ t) == Feed(Cells(fcs), LowBits(b, 8))
  {
    WordClocks(x, high, t);
    ByteCells(b);
    AbsorbIsXor(Cells(fcs), LowBits(b, 8), Cells(b));
    FeedAbsorbs(Cells(fcs), LowBits(b, 8));
  }

  lemma {:induction false} BitsConcat(x: seq<Byte>, y: seq<Byte>)
    ensures Bits(x + y) == Bits(x) + Bits(y)
  {
    if x == [] {
      assert x + y == y;
    } else {
      assert (x + y)[1..] == x[1..] + y;
      BitsConcat(x[1..], y);
    }
  }

  lemma FeedNext(s: Register, message: seq<Byte>, b: Byte)
    ensures Feed(s, Bits(message + [b])) == Feed(Feed(s, Bits(message)), LowBits(b, 8))
  {
    BitsConcat(message, [b]);
    assert Bits([b]) == LowBits(b, 8) + [] == LowBits(b, 8);
    FeedConcat(s, Bits(message), LowBits(b, 8));
  }

  method TableLookup(i: Fcs) returns (t: Fcs)
    requires i <= 0xff
    ensures Cells(t) == Clocks(Cells(i), 8)
  {
    t := Fcstab(i);
    TableIsBitwise(i);
  }

  lemma StepWords(fcs: Fcs, b: Byte, x: Fcs, high: Fcs)
    requires x == fcs ^ b && high == fcs >> 8
    ensures Cells(x) == Xor(Cells(fcs), Cells(b)) && high == x >> 8
  {
    CellsOfXor(fcs, b);
    HighByteUnchanged(fcs, b);
  }

  // The assignment in the loop of pppfcs16.
  method TableStep(fcs: Fcs, b: Byte) returns (r: Fcs)
    ensures Cells(r) == Feed(Cells(fcs), LowBits(b, 8))
  {
    var x, high := fcs ^ b, fcs >> 8;
    StepWords(fcs, b, x, high);
    LowByteRange(x);
    var t := TableLookup(x & 0xff);
    TableStepFeeds(fcs, b, x, high, t);
    r := high ^ t;
  }

  method Pppfcs16(fcs: Fcs, cp: array<Byte>, len: nat) returns (r: Fcs)
    requires len <= cp.Length
    ensures Cells(r) == Feed(Cells(fcs), Bits(cp[..len]))
  {
    r := fcs;
    var n := 0;
    while n < len
      invariant n <= len
      invariant Cells(r) == Feed(Cells(fcs), Bits(cp[..n]))
    {
      FeedNext(Cells(fcs), cp[..n], cp[n]);
      assert cp[..n + 1] == cp[..n] + [cp[n]];
      r := TableStep(r, cp[n]);
      n := n + 1;
    }
  }

  lemma ByteDetermined(b: Byte, c: Byte)
    requires LowBits(b, 8) == LowBits(c, 8)
    ensures b == c
  {
    ByteCells(b);
    ByteCells(c);
    CellsInjective(b, c);
  }

  lemma {:induction false} BitsDetermine(x: seq<Byte>, y: seq<Byte>)
    requires |x| == |y| && Bits(x) == Bits(y)
    ensures x == y
  {
    if x != [] {
      var a, b := LowBits(x[0], 8), LowBits(y[0], 8);
      var c, d := Bits(x[1..]), Bits(y[1..]);
      assert a + c == b + d;
      assert a == (a + c)[..8] && b == (b + d)[..8];
      assert c == (a + c)[8..] && d == (b + d)[8..];
      ByteDetermined(x[0], y[0]);
      BitsDetermine(x[1..], y[1..]);
      assert x == [x[0]] + x[1..] && y == [y[0]] + y[1..];
    }
  }

  // Messages of one length that differ only in at most two adjacent bytes have
  // different check sequences.
  lemma AdjacentBytesDetected(fcs: Fcs, before: seq<Byte>, x: seq<Byte>, y: seq<Byte>, after: seq<Byte>)
    requires |x| == |y| <= 2 && x != y
    ensures Feed(Cells(fcs), Bits(before + x + after)) != Feed(Cells(fcs), Bits(before + y + after))
  {
    BitsConcat(before + x, after);
    BitsConcat(before, x);
    BitsConcat(before + y, after);
    BitsConcat(before, y);
    if Bits(x) == Bits(y) {
      BitsDetermine(x, y);
      assert false;
    }
    BurstDetected(Cells(fcs), Bits(before), Bits(x), Bits(y), Bits(after));
  }

  lemma {:induction false} ClocksAdd(s: Register, m: nat, n: nat)
    ensures Clocks(s, m + n) == Clocks(Clocks(s, m), n)
    decreases m
  {
    if m > 0 {
      ClocksAdd(Clock(s), m - 1, n);
    }
  }

  lemma TwoByteSteps()
    ensures ByteStep(0xffff) == 0x0f87 && ByteStep(0x0f87) == PPPGOODFCS16
  {
  }

  lemma AllOnes()
    ensures Cells(0xffff) == seq(16, _ => true)
  {
    assert LowBits(0xf, 4) == [true, true, true, true];
    assert LowBits(0xff, 8) == [true, true, true, true] + LowBits(0xf, 4);
    assert LowBits(0xfff, 12) == [true, true, true, true] + LowBits(0xff, 8);
    assert LowBits(0xffff, 16) == [true, true, true, true] + LowBits(0xfff, 12);
  }

  // The fixed state is the constant the receiver compares with.
  lemma ResidueIsGood()
    ensures Residue() == Cells(PPPGOODFCS16)
  {
    AllOnes();
    ByteStepClocks(0xffff);
    TwoByteSteps();
    ByteStepClocks(0x0f87);
    ClocksAdd(Cells(0xffff), 8, 8);
  }

  // ------------------------------------------------------------------
  // The trailer: the complement of the check sequence, low byte first.
  // ------------------------------------------------------------------

  function LowByte(w: Fcs): Byte {
    LowByteRange(w);
    w & 0xff
  }

  function HighByte(w: Fcs): Byte {
    LowByteRange(w >> 8);
    (w >> 8) & 0xff
  }

  function Shr(w: Fcs, j: nat): Fcs
    decreases j
  {
    if j == 0 then w else Shr(w >> 1, j - 1)
  }

  lemma {:induction false} LowBitsSplit(w: Fcs, j: nat, k: nat)
    ensures LowBits(w, j + k) == LowBits(w, j) + LowBits(Shr(w, j), k)
    decreases j
  {
    if j > 0 {
      LowBitsSplit(w >> 1, j - 1, k);
    }
  }

  predicate AgreeBelow(v: Fcs, w: Fcs, k: nat)
    decreases k
  {
    k > 0 ==> (v & 1 != 0) == (w & 1 != 0) && AgreeBelow(v >> 1, w >> 1, k - 1)
  }

  lemma {:induction false} LowBitsAgree(v: Fcs, w: Fcs, k: nat)
    requires AgreeBelow(v, w, k)
    ensures LowBits(v, k) == LowBits(w, k)
    decreases k
  {
    if k > 0 {
      LowBitsAgree(v >> 1, w >> 1, k - 1);
    }
  }

  lemma MaskedByteAgrees(w: Fcs)
    ensures AgreeBelow(w & 0xff, w, 8)
  {
  }

  lemma EightShr(w: Fcs)
    ensures Shr(w, 8) == w >> 8
  {
    EightShifts(w);
  }

  lemma BytesOfWord(w: Fcs)
    ensures Bits([LowByte(w), HighByte(w)]) == Cells(w)
  {
    MaskedByteAgrees(w);
    LowBitsAgree(w & 0xff, w, 8);
    MaskedByteAgrees(w >> 8);
    LowBitsAgree((w >> 8) & 0xff, w >> 8, 8);
    EightShr(w);
    LowBitsSplit(w, 8, 8);
    BitsOfTwo(LowByte(w), HighByte(w));
  }

  lemma BitsOfTwo(a: Byte, b: Byte)
    ensures Bits([a, b]) == LowBits(a, 8) + LowBits(b, 8)
  {
    assert [a, b][1..] == [b] && [b][1..] == [];
    assert Bits([b]) == LowBits(b, 8) + Bits([]);
  }

  lemma ComplementCells(w: Fcs)
    ensures Cells(w ^ 0xffff) == Complement(Cells(w))
  {
    AllOnes();
    CellsOfXor(w, 0xffff);
  }

  // A trailer of sixteen bits leaves the good state exactly when it is the
  // complement of the register it meets.
  lemma ResidueExactly(s: Register, trailer: seq<bool>)
    requires |trailer| == 16
    ensures Feed(s, trailer) == Residue() <==> trailer == Complement(s)
  {
    ComplementLeavesResidue(s);
    if Feed(s, trailer) == Residue() {
      FeedAbsorbs(s, trailer);
      var ones: Register := seq(16, _ => true);
      ClocksInjective(Absorb(s, trailer), ones, 16);
      forall i | 0 <= i < 16
        ensures trailer[i] == Complement(s)[i]
      {
        assert Absorb(s, trailer)[i] == ones[i];
      }
    }
  }

  // What the receiver accepts: a message and two more bytes leave 0xf0b8
  // exactly when those bytes are the complemented FCS, low byte first.
  lemma ReceiverAccepts(message: seq<Byte>, a: Byte, b: Byte, fcs: Fcs)
    requires Cells(fcs) == Feed(Cells(PPPINITFCS16), Bits(message))
    ensures Feed(Cells(PPPINITFCS16), Bits(message + [a, b])) == Cells(PPPGOODFCS16)
       <==> a == LowByte(fcs ^ 0xffff) && b == HighByte(fcs ^ 0xffff)
  {
    var t := fcs ^ 0xffff;
    BitsConcat(message, [a, b]);
    FeedConcat(Cells(PPPINITFCS16), Bits(message), Bits([a, b]));
    ResidueExactly(Cells(fcs), Bits([a, b]));
    ResidueIsGood();
    ComplementCells(fcs);
    BytesOfWord(t);
    if Bits([a, b]) == Cells(t) {
      BitsDetermine([a, b], [LowByte(t), HighByte(t)]);
      assert [a, b][0] == LowByte(t) && [a, b][1] == HighByte(t);
    }
  }

  // Complement the sequence and take it apart, low byte first.
  method Trailer(fcs: Fcs, ghost message: seq<Byte>) returns (low: Byte, high: Byte)
    requires Cells(fcs) == Feed(Cells(PPPINITFCS16), Bits(message))
    ensures Feed(Cells(PPPINITFCS16), Bits(message + [low, high])) == Cells(PPPGOODFCS16)
  {
    var crc := fcs ^ 0xffff;
    low, high := LowByte(crc), HighByte(crc);
    ReceiverAccepts(message, low, high, fcs);
  }

  // The result tells whether the "Good FCS" line was reached.
  method TryFcs16(cp: array<Byte>, len: nat) returns (good: bool)
    requires len + 2 <= cp.Length
    modifies cp
    ensures cp[..len] == old(cp[..len]) && cp[len + 2..] == old(cp[len + 2..])
    ensures Feed(Cells(PPPINITFCS16), Bits(cp[..len + 2])) == Cells(PPPGOODFCS16)
    ensures good
  {
    var trialfcs := Pppfcs16(PPPINITFCS16, cp, len);
    var low, high := Trailer(trialfcs, cp[..len]);
    cp[len], cp[len + 1] := low, high;
    assert cp[..len + 2] == old(cp[..len]) + [low, high];
    trialfcs := Pppfcs16(PPPINITFCS16, cp, len + 2);
    CellsInjective(trialfcs, PPPGOODFCS16);
    good := trialfcs == PPPGOODFCS16;
  }

  method Crcdat(buf: array<Byte>, len: nat, res: array<Byte>)
    requires len <= buf.Length && 2 <= res.Length && buf != res
    modifies res
    ensures Feed(Cells(PPPINITFCS16), Bits(buf[..len] + res[..2])) == Cells(PPPGOODFCS16)
    ensures res[2..] == old(res[2..])
  {
    var crc := Pppfcs16(PPPINITFCS16, buf, len);
    var low, high := Trailer(crc, buf[..len]);
    res[0], res[1] := low, high;
    assert res[..2] == [low, high];
  }

  // ------------------------------------------------------------------
  // The start value.
  // ------------------------------------------------------------------

  lemma ByteFed(w: Fcs, b: Byte, x: Fcs, r: Fcs)
    requires x == w ^ b && ByteStep(x) == r
    ensures Feed(Cells(w), LowBits(b, 8)) == Cells(r)
  {
    CellsOfXor(w, b);
    ByteCells(b);
    AbsorbIsXor(Cells(w), LowBits(b, 8), Cells(b));
    FeedAbsorbs(Cells(w), LowBits(b, 8));
    ByteStepClocks(x);
  }

  // A zero byte in front of a message changes its sequence: the register starts with ones.
  lemma LeadingZeroDetected(message: seq<Byte>)
    ensures Feed(Cells(PPPINITFCS16), Bits([0] + message)) != Feed(Cells(PPPINITFCS16), Bits(message))
  {
    hide Feed, LowBits, Bits;
    ZeroFed();
    BitsConcat([0], message);
    FeedConcat(Cells(PPPINITFCS16), Bits([0]), Bits(message));
    if Feed(Cells(PPPINITFCS16), Bits([0] + message)) == Feed(Cells(PPPINITFCS16), Bits(message)) {
      FeedInjective(Cells(0x0f87), Cells(PPPINITFCS16), Bits(message));
      CellsInjective(PPPINITFCS16, 0x0f87);
      assert false;
    }
  }

  lemma ZeroFed()
    ensures Feed(Cells(PPPINITFCS16), Bits([0])) == Cells(0x0f87)
  {
    TwoByteSteps();
    hide ByteStep, LowBits;
    ByteFed(PPPINITFCS16, 0, 0xffff, 0x0f87);
    var zero: seq<Byte> := [0];
    assert zero[1..] == [];
    assert Bits(zero) == LowBits(0, 8) + Bits(zero[1..]) == LowBits(0, 8);
  }

  lemma CheckSteps1()
    ensures ByteStep(0xffce) == 0x2f8d && ByteStep(0x2fbf) == 0x4d53 && ByteStep(0x4d60) == 0x634b
  {
  }

  lemma CheckSteps2()
    ensures ByteStep(0x637f) == 0x8b13 && ByteStep(0x8b26) == 0x44bf && ByteStep(0x4489) == 0x198d
  {
  }

  lemma CheckSteps3()
    ensures ByteStep(0x19ba) == 0x1ac8 && ByteStep(0x1af0) == 0xf795 && ByteStep(0xf7ac) == 0x6f91
  {
  }

  // One more byte of a message, in words.
  lemma FedOn(message: seq<Byte>, w: Fcs, b: Byte, r: Fcs, next: seq<Byte>)
    requires Feed(Cells(PPPINITFCS16), Bits(message)) == Cells(w) && ByteStep(w ^ b) == r && next == message + [b]
    ensures Feed(Cells(PPPINITFCS16), Bits(next)) == Cells(r)
  {
    FeedNext(Cells(PPPINITFCS16), message, b);
    ByteFed(w, b, w ^ b, r);
  }

  // The check value of the sequence: that of the nine digits is 0x906e.
  lemma CheckValue()
    ensures var digits: seq<Byte> := [0x31, 0x32, 0x33, 0x34, 0x35, 0x36, 0x37, 0x38, 0x39];
      Feed(Cells(PPPINITFCS16), Bits(digits)) == Cells(0x906e ^ 0xffff)
  {
    hide ByteStep, Feed, Bits, LowBits;
    CheckSteps1();
    CheckSteps2();
    CheckSteps3();
    NothingFed();
    var m1: seq<Byte> := [0x31];
    FedOn([], 0xffff, 0x31, 0x2f8d, m1);
    var m2: seq<Byte> := [0x31, 0x32];
    FedOn(m1, 0x2f8d, 0x32, 0x4d53, m2);
    var m3: seq<Byte> := [0x31, 0x32, 0x33];
    FedOn(m2, 0x4d53, 0x33, 0x634b, m3);
    var m4: seq<Byte> := [0x31, 0x32, 0x33, 0x34];
    FedOn(m3, 0x634b, 0x34, 0x8b13, m4);
    var m5: seq<Byte> := [0x31, 0x32, 0x33, 0x34, 0x35];
    FedOn(m4, 0x8b13, 0x35, 0x44bf, m5);
    var m6: seq<Byte> := [0x31, 0x32, 0x33, 0x34, 0x35, 0x36];
    FedOn(m5, 0x44bf, 0x36, 0x198d, m6);
    var m7: seq<Byte> := [0x31, 0x32, 0x33, 0x34, 0x35, 0x36, 0x37];
    FedOn(m6, 0x198d, 0x37, 0x1ac8, m7);
    var m8: seq<Byte> := [0x31, 0x32, 0x33, 0x34, 0x35, 0x36, 0x37, 0x38];
    FedOn(m7, 0x1ac8, 0x38, 0xf795, m8);
    var m9: seq<Byte> := [0x31, 0x32, 0x33, 0x34, 0x35, 0x36, 0x37, 0x38, 0x39];
    FedOn(m8, 0xf795, 0x39, 0x6f91, m9);
  }

  lemma NothingFed()
    ensures Feed(Cells(PPPINITFCS16), Bits([])) == Cells(0xffff)
  {
  }
}
