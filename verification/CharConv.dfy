// Recoding between text and the hexadecimal form messages have on the line
// (char_conv.c). Characters are bytes: codes 0 to 255.
module CharConv {
  import opened Wrappers
  import opened Arith

  type Byte = n: nat | n < 256
  type Septet = n: nat | n < 128

  function Pow2(k: nat): (p: nat)
    requires k <= 8
    ensures p > 0
  {
    if k == 0 then 1 else if k == 1 then 2 else if k == 2 then 4 else if k == 3 then 8 else if k == 4 then 16
    else if k == 5 then 32 else if k == 6 then 64 else if k == 7 then 128 else 256
  }

  // ------------------------------------------------------------------
  // Septets in octets (section 6.1.2.1.1 of 3GPP TS 23.038).
  // ------------------------------------------------------------------

  function SeptetAt(m: seq<Septet>, i: nat): Septet {
    if i < |m| then m[i] else 0
  }

  function OctetAt(o: seq<Byte>, j: nat): Byte {
    if j < |o| then o[j] else 0
  }

  // What is left of a from bit s on, and the beginning of b. The two share no bit, so
  // that the sum is their or.
  function Pack(a: Septet, b: Septet, s: nat): (r: Byte)
    requires s <= 6
  {
    PackIsWindow(a, b, s);
    a / Pow2(s) + b * Pow2(7 - s) % 256
  }

  // A packed octet is the 8 bits from bit s on of the two septets written one after
  // the other.
  lemma PackIsWindow(a: Septet, b: Septet, s: nat)
    requires s <= 6
    ensures a / Pow2(s) + b * Pow2(7 - s) % 256 == (a + 128 * b) / Pow2(s) % 256
    ensures a / Pow2(s) < Pow2(7 - s) && b * Pow2(7 - s) % 256 == b % Pow2(s + 1) * Pow2(7 - s)
    ensures a / Pow2(s) + b * Pow2(7 - s) % 256 < 256
  {
    var p, q := Pow2(s), Pow2(7 - s);
    assert p * q == 128 && Pow2(s + 1) == 2 * p;
    hide Pow2;
    Less(a, p, q);
    MulMod(b, 2 * p, q);
    Assoc(p, q, b);
    var v := b * q;
    DivMore(a, p, v);
    assert (a + 128 * b) / p == a / p + v;
    ModAdd(a / p, v);
  }

  // Octet j begins in septet 8 j / 7 at bit 8 j % 7.
  function PackedAt(m: seq<Septet>, j: nat): Byte {
    Pack(SeptetAt(m, 8 * j / 7), SeptetAt(m, 8 * j / 7 + 1), 8 * j % 7)
  }

  // As many octets as the bits need, and one more after a whole number of 8 septets.
  function PackedCount(n: nat): nat {
    (n + 1) * 7 / 8 + if n > 0 && n % 8 == 0 then 1 else 0
  }

  function Packed(m: seq<Septet>): (r: seq<Byte>)
    ensures |r| == PackedCount(|m|)
  {
    seq(PackedCount(|m|), j requires j >= 0 => PackedAt(m, j))
  }

  // The 7 bits from bit r on of the two octets written one after the other.
  function Unpack(a: Byte, b: Byte, r: nat): (v: Septet)
    requires r <= 7
  {
    (a / Pow2(r) + b * Pow2(8 - r)) % 128
  }

  // Septet x begins in octet 7 x / 8 at bit 7 x % 8.
  function UnpackedAt(o: seq<Byte>, x: nat): Septet {
    Unpack(OctetAt(o, 7 * x / 8), OctetAt(o, 7 * x / 8 + 1), 7 * x % 8)
  }

  function Unpacked(o: seq<Byte>): (r: seq<Septet>)
    ensures |r| == |o| + |o| / 7
  {
    seq(|o| + |o| / 7, x requires x >= 0 => UnpackedAt(o, x))
  }

  // ------------------------------------------------------------------
  // Round trip.
  // ------------------------------------------------------------------

  lemma UnpackCore(p: nat, a: nat, n: nat, h: nat, d: nat, c: nat)
    requires a < 128 && d > 0 && c > 0 && d * c == 256 && p < c && h * d == 128 * n
    ensures ((p + a % d * c) / c + (a / d + h) * d) % 128 == a
  {
    DivSmall(p, a % d, c);
    Distr(d, a / d, h);
    Whole(a, d);
    Mod128(a, n);
    var lo, hi := a % d, a / d * d;
    assert lo + (a / d + h) * d == a + 128 * n;
  }

  lemma PackIs(a: Septet, b: Septet, s: nat, p: nat, q: nat)
    requires s <= 6 && p == Pow2(s) && q == Pow2(7 - s)
    ensures Pack(a, b, s) == a / p + b % (2 * p) * q && a / p < q
  {
    assert Pow2(s + 1) == 2 * p;
    PackIsWindow(a, b, s);
  }

  lemma UnpackIs(a: Byte, b: Byte, r: nat, p: nat, q: nat)
    requires r <= 7 && p == Pow2(r) && q == Pow2(8 - r)
    ensures Unpack(a, b, r) == (a / p + b * q) % 128
  {
  }

  lemma Powers(e: nat)
    requires 1 <= e <= 6
    ensures Pow2(e) == 2 * Pow2(e - 1) && Pow2(e) * Pow2(8 - e) == 256 && Pow2(e) * Pow2(7 - e) == 128
  {
  }

  // A septet that crosses from one octet into the next.
  lemma UnpackCrossing(before: Septet, a: Septet, after: Septet, e: nat)
    requires 1 <= e <= 6
    ensures Unpack(Pack(before, a, e - 1), Pack(a, after, e), 8 - e) == a
  {
    hide Pow2, Pack, Unpack;
    var b, d, c, q := Pow2(e - 1), Pow2(e), Pow2(8 - e), Pow2(7 - e);
    Powers(e);
    PackIs(before, a, e - 1, b, c);
    PackIs(a, after, e, d, q);
    CrossingCore(before / b, a, after % (2 * d), d, c, q);
    UnpackIs(Pack(before, a, e - 1), Pack(a, after, e), 8 - e, c, d);
  }

  lemma CrossingCore(p: nat, a: nat, n: nat, d: nat, c: nat, q: nat)
    requires a < 128 && d > 0 && c > 0 && d * c == 256 && d * q == 128 && p < c
    ensures ((p + a % d * c) / c + (a / d + n * q) * d) % 128 == a
  {
    Assoc(n, q, d);
    UnpackCore(p, a, n, n * q, d, c);
  }

  // The last septet of an octet, and the first.
  lemma UnpackLast(before: Septet, a: Septet, o: Byte)
    ensures Unpack(Pack(before, a, 6), o, 1) == a
  {
    PackIs(before, a, 6, 64, 2);
    UnpackIs(Pack(before, a, 6), o, 1, 2, 128);
    hide Pow2, Pack, Unpack;
    assert a % 128 == a;
    DivSmall(before / 64, a, 2);
    Mod128(a, o);
  }

  lemma UnpackFirst(a: Septet, after: Septet, o: Byte)
    ensures Unpack(Pack(a, after, 0), o, 0) == a
  {
    PackIs(a, after, 0, 1, 128);
    UnpackIs(Pack(a, after, 0), o, 0, 1, 256);
    hide Pow2, Pack, Unpack;
    var n := after % 2 + 2 * o;
    Mod128(a, n);
    assert a + after % 2 * 128 + o * 256 == a + 128 * n;
  }

  lemma Places(x: nat)
    ensures var e := x % 8;
      if e == 0 then 7 * x % 8 == 0 && 8 * (7 * x / 8) / 7 == x && 8 * (7 * x / 8) % 7 == 0
      else
        && 7 * x % 8 == 8 - e
        && 8 * (7 * x / 8) / 7 == x - 1 && 8 * (7 * x / 8) % 7 == e - 1
        && (e < 7 ==> 8 * (7 * x / 8 + 1) / 7 == x && 8 * (7 * x / 8 + 1) % 7 == e)
  {
    var h, e := x / 8, x % 8;
    assert 7 * x == 8 * (7 * h) + 7 * e;
    assert e > 0 ==> 7 * x == 8 * (7 * h + e - 1) + (8 - e);
    assert e > 0 ==> 8 * (7 * h + e - 1) == 7 * (x - 1) + e - 1;
    assert e > 0 ==> 8 * (7 * h + e) == 7 * x + e;
  }

  // Unpacking the octets gives back each septet, and 0 after the last.
  lemma UnpackedPacked(m: seq<Septet>, x: nat)
    requires x <= |m|
    ensures UnpackedAt(Packed(m), x) == SeptetAt(m, x)
  {
    Places(x);
    hide Pack, Unpack;
    var o, q, e := Packed(m), 7 * x / 8, x % 8;
    var a, next := SeptetAt(m, x), SeptetAt(m, x + 1);
    if e == 0 {
      UnpackFirst(a, next, OctetAt(o, q + 1));
      Beyond(m, q);
    } else {
      var before := SeptetAt(m, x - 1);
      Beyond(m, q);
      Beyond(m, q + 1);
      if e == 7 {
        UnpackLast(before, a, OctetAt(o, q + 1));
      } else {
        UnpackCrossing(before, a, next, e);
      }
    }
  }

  // Octets past the last are 0 either way.
  lemma Beyond(m: seq<Septet>, j: nat)
    ensures OctetAt(Packed(m), j) == PackedAt(m, j)
  {
  }

  // Decoding an encoded text gives the text, and one NUL more exactly when its length is
  // a positive number that leaves 0 or 7 over 8.
  lemma SeptetRoundTrip(m: seq<Septet>)
    ensures Unpacked(Packed(m)) == m + if |m| > 0 && (|m| % 8 == 0 || |m| % 8 == 7) then [0] else []
  {
    hide UnpackedAt, Packed;
    var n := |m|;
    var r := Unpacked(Packed(m));
    CountRoundTrip(n);
    forall x | 0 <= x < |r|
      ensures r[x] == SeptetAt(m, x)
    {
      UnpackedPacked(m, x);
    }
  }

  lemma CountRoundTrip(n: nat)
    ensures var l := PackedCount(n);
      l + l / 7 == n + if n > 0 && (n % 8 == 0 || n % 8 == 7) then 1 else 0
    ensures PackedCount(n) == (n + 1) * 7 / 8 <==> n == 0 || n % 8 != 0
  {
    var h, e := n / 8, n % 8;
    assert (n + 1) * 7 == 8 * (7 * h) + 7 * e + 7;
  }

  // ------------------------------------------------------------------
  // Hexadecimal digits.
  // ------------------------------------------------------------------

  // parse_hexdigit
  function HexValue(c: char): (v: int)
    ensures -1 <= v < 16
  {
    if '0' <= c <= '9' then c as int - '0' as int
    else if 'a' <= c <= 'f' then c as int - 'a' as int + 10
    else if 'A' <= c <= 'F' then c as int - 'A' as int + 10
    else -1
  }

  function HexDigit(d: nat): char
    requires d < 16
  {
    if d < 10 then ('0' as int + d) as char else ('A' as int + d - 10) as char
  }

  lemma HexDigitValue(d: nat)
    requires d < 16
    ensures HexValue(HexDigit(d)) == d
  {
  }

  // The digits, written in upper case and read in either.
  lemma HexDigitsAre(d: nat, c: char)
    requires d < 16
    ensures HexDigit(d) == "0123456789ABCDEF"[d]
    ensures HexValue(c) == d <==> c == "0123456789ABCDEF"[d] || c == "0123456789abcdef"[d]
  {
  }

  // Two digits for each octet.
  function HexText(o: seq<Byte>): (r: string)
    ensures |r| == 2 * |o|
  {
    seq(2 * |o|, k requires 0 <= k < 2 * |o| => HexDigit(if k % 2 == 0 then o[k / 2] / 16 else o[k / 2] % 16))
  }

  lemma HexTextAt(o: seq<Byte>, j: nat)
    requires j < |o|
    ensures HexText(o)[2 * j] == HexDigit(o[j] / 16) && HexText(o)[2 * j + 1] == HexDigit(o[j] % 16)
  {
  }

  predicate AllHex(t: string) {
    forall k :: 0 <= k < |t| ==> HexValue(t[k]) >= 0
  }

  // The octets a text of digit pairs stands for.
  function Octets(t: string): (r: seq<Byte>)
    requires AllHex(t)
    ensures |r| == |t| / 2
  {
    seq(|t| / 2, j requires 0 <= j < |t| / 2 => HexValue(t[2 * j]) * 16 + HexValue(t[2 * j + 1]))
  }

  lemma OctetsOfHexText(o: seq<Byte>)
    ensures AllHex(HexText(o)) && Octets(HexText(o)) == o
  {
    hide HexValue, HexDigit;
    forall k | 0 <= k < 2 * |o|
      ensures HexValue(HexText(o)[k]) == if k % 2 == 0 then o[k / 2] / 16 else o[k / 2] % 16
    {
      HexDigitValue(if k % 2 == 0 then o[k / 2] / 16 else o[k / 2] % 16);
    }
    forall j | 0 <= j < |o|
      ensures Octets(HexText(o))[j] == o[j]
    {
      assert HexValue(HexText(o)[2 * j]) == o[j] / 16 && HexValue(HexText(o)[2 * j + 1]) == o[j] % 16;
    }
  }

  // ------------------------------------------------------------------
  // Characters as numbers.
  // ------------------------------------------------------------------

  predicate AllBelow(t: string, n: nat) {
    forall k :: 0 <= k < |t| ==> t[k] as nat < n
  }

  function Septets(t: string): (r: seq<Septet>)
    requires AllBelow(t, 128)
    ensures |r| == |t| && forall k :: 0 <= k < |t| ==> r[k] == t[k] as nat
  {
    seq(|t|, k requires 0 <= k < |t| => t[k] as nat)
  }

  function Bytes(t: string): (r: seq<Byte>)
    requires AllBelow(t, 256)
    ensures |r| == |t| && forall k :: 0 <= k < |t| ==> r[k] == t[k] as nat
  {
    seq(|t|, k requires 0 <= k < |t| => t[k] as nat)
  }

  function Chars(o: seq<Byte>): (r: string)
    ensures |r| == |o| && forall k :: 0 <= k < |o| ==> r[k] == o[k] as char
  {
    seq(|o|, k requires 0 <= k < |o| => o[k] as char)
  }

  // ------------------------------------------------------------------
  // The recoders, on a buffer from position at on.
  // ------------------------------------------------------------------

  // What a recoder may have done: the text and its NUL are in place, nothing else moved.
  ghost predicate Holds(now: string, before: string, at: nat, text: string) {
    && |now| == |before| && at + |text| < |now|
    && now[at..at + |text|] == text && now[at + |text|] == '\0'
    && now[..at] == before[..at] && now[at + |text| + 1..] == before[at + |text| + 1..]
  }

  // out_size - 1 is computed unsigned: 0 stands for a very large size.
  predicate TooSmall(outSize: nat, need: nat) {
    outSize > 0 && outSize - 1 < need
  }

  // Otherwise what is needed fits with a NUL behind it.
  lemma RoomForNul(outSize: nat, need: nat)
    ensures !TooSmall(outSize, need) <==> outSize == 0 || need + 1 <= outSize
  {
  }

  method PutHex(out: array<char>, at: nat, v: Byte)
    requires at + 2 <= out.Length
    modifies out
    ensures out[..] == old(out[..])[at := HexDigit(v / 16)][at + 1 := HexDigit(v % 16)]
  {
    out[at] := HexDigit(v / 16);
    out[at + 1] := HexDigit(v % 16);
  }

  // char_to_hexstr_7bit. The room asked for covers the octet more that the size check
  // leaves out.
  method CharToHexstr7bit(text: string, out: array<char>, at: nat, outSize: nat) returns (res: int)
    requires AllBelow(text, 128) && at + 2 * PackedCount(|text|) < out.Length
    modifies out
    ensures TooSmall(outSize, (|text| - |text| / 8) * 2) ==> res == -1 && out[..] == old(out[..])
    ensures !TooSmall(outSize, (|text| - |text| / 8) * 2) ==>
              && res == 2 * PackedCount(|text|)
              && Holds(out[..], old(out[..]), at, HexText(Packed(Septets(text))))
  {
    hide PackedAt, HexDigit, Holds, Printed, PackedCount, HexText;
    ghost var m := Septets(text);
    PrintedNone(out[..], at, m);
    var length := |text|;
    var x := (length - length / 8) * 2;
    if outSize > 0 && outSize - 1 < x {
      return -1;
    }
    x := 0;
    if length > 0 {
      length := length - 1;
      var i, s := 0, 0;
      ghost var j := 0;
      while i < length
        invariant 0 <= i <= length && 0 <= s <= 7 && x == 2 * j && 8 * j == 7 * i + s && j < PackedCount(|m|)
        invariant Printed(out[..], old(out[..]), at, m, j)
      {
        if s == 7 {
          s := 0;
        } else {
          var c := text[i] as nat / Pow2(s) + text[i + 1] as nat * Pow2(7 - s) % 256;
          NextOctet(m, i, s, j);
          PrintedOne(out[..], old(out[..]), at, m, j);
          PutHex(out, at + x, c);
          s := s + 1;
          x := x + 2;
          j := j + 1;
        }
        i := i + 1;
      }
      LastOctet(m, i, s, j);
      var c := text[i] as nat / Pow2(s);
      PrintedOne(out[..], old(out[..]), at, m, j);
      PutHex(out, at + x, c);
      x := x + 2;
      j := j + 1;
    }
    PrintedAll(out[..], old(out[..]), at, m);
    out[at + x] := '\0';
    res := x;
  }

  // The first j octets are printed.
  ghost predicate Printed(now: string, before: string, at: nat, m: seq<Septet>, j: nat) {
    && |now| == |before| && at + 2 * j <= |now|
    && (forall k :: 0 <= k < j ==>
          now[at + 2 * k] == HexDigit(PackedAt(m, k) / 16) && now[at + 2 * k + 1] == HexDigit(PackedAt(m, k) % 16))
    && (forall k :: 0 <= k < |now| && !(at <= k < at + 2 * j) ==> now[k] == before[k])
  }

  lemma OctetPlace(i: nat, s: nat, j: nat)
    requires s <= 6 && 8 * j == 7 * i + s
    ensures 8 * j / 7 == i && 8 * j % 7 == s
  {
  }

  lemma NextOctet(m: seq<Septet>, i: nat, s: nat, j: nat)
    requires i + 1 < |m| && s <= 6 && 8 * j == 7 * i + s
    ensures PackedAt(m, j) == m[i] / Pow2(s) + m[i + 1] * Pow2(7 - s) % 256
    ensures j + 1 < PackedCount(|m|)
  {
    hide Pow2;
    OctetPlace(i, s, j);
    MoreOctets(|m|, i, s, j);
    hide PackedCount;
  }

  lemma MoreOctets(n: nat, i: nat, s: nat, j: nat)
    requires i + 1 < n && s <= 6 && 8 * j == 7 * i + s
    ensures j + 1 < PackedCount(n)
  {
  }

  lemma LastOctet(m: seq<Septet>, i: nat, s: nat, j: nat)
    requires i + 1 == |m| && s <= 7 && 8 * j == 7 * i + s
    ensures PackedAt(m, j) == m[i] / Pow2(s)
    ensures j + 1 == PackedCount(|m|)
  {
    if s == 7 {
      assert 8 * j / 7 == i + 1 && 8 * j % 7 == 0;
    } else {
      assert 8 * j / 7 == i && 8 * j % 7 == s;
    }
    hide PackedCount;
    LastCount(i, s, j);
    if s < 7 {
      NothingAfter(m[i], s);
    }
  }

  lemma NothingAfter(a: Septet, s: nat)
    requires s <= 6
    ensures Pack(a, 0, s) == a / Pow2(s)
  {
    hide Pow2;
    assert 0 * Pow2(7 - s) == 0;
  }

  lemma LastCount(i: nat, s: nat, j: nat)
    requires s <= 7 && 8 * j == 7 * i + s
    ensures j + 1 == PackedCount(i + 1)
  {
    assert i % 8 == s;
  }

  lemma PrintedNone(now: string, at: nat, m: seq<Septet>)
    requires at <= |now|
    ensures Printed(now, now, at, m, 0)
    ensures PackedCount(|m|) == 0 <==> m == []
  {
  }

  lemma PrintedOne(now: string, before: string, at: nat, m: seq<Septet>, j: nat)
    requires Printed(now, before, at, m, j) && at + 2 * j + 2 <= |now|
    ensures var v := PackedAt(m, j);
      Printed(now[at + 2 * j := HexDigit(v / 16)][at + 2 * j + 1 := HexDigit(v % 16)], before, at, m, j + 1)
  {
    hide HexDigit, PackedAt;
  }

  lemma PrintedAll(now: string, before: string, at: nat, m: seq<Septet>)
    requires Printed(now, before, at, m, PackedCount(|m|)) && at + 2 * PackedCount(|m|) < |now|
    ensures Holds(now[at + 2 * PackedCount(|m|) := '\0'], before, at, HexText(Packed(m)))
  {
    hide HexDigit, PackedAt, PackedCount;
  }

  // What sscanf with %x makes of two characters, cut to a byte.
  type Scan = (char, char) -> Option<Byte>

  ghost predicate ReadsHex(scan: Scan) {
    forall a, b :: HexValue(a) >= 0 && HexValue(b) >= 0 ==> scan(a, b) == Some(HexValue(a) * 16 + HexValue(b))
  }

  predicate Scans(text: string, scan: Scan) {
    forall j :: 0 <= j < |text| / 2 ==> scan(text[2 * j], text[2 * j + 1]).Some?
  }

  function Scanned(text: string, scan: Scan): (r: seq<Byte>)
    requires Scans(text, scan)
    ensures |r| == |text| / 2
  {
    seq(|text| / 2, j requires 0 <= j < |text| / 2 => scan(text[2 * j], text[2 * j + 1]).value)
  }

  // hexstr_7bit_to_char
  method Hexstr7bitToChar(text: string, out: array<char>, at: nat, outSize: nat, scan: Scan) returns (res: int)
    requires at + |text| / 2 + |text| / 2 / 7 < out.Length
    modifies out
    ensures TooSmall(outSize, |text| / 2 + |text| / 2 / 7) || !Scans(text, scan) ==> res == -1
    ensures !TooSmall(outSize, |text| / 2 + |text| / 2 / 7) && Scans(text, scan) ==>
              && res == |text| / 2 + |text| / 2 / 7
              && Holds(out[..], old(out[..]), at, Chars(Unpacked(Scanned(text, scan))))
  {
    hide UnpackedAt, Unpacked, Decoded, Holds, Pow2;
    var length := |text| / 2;
    var x := length + length / 7;
    if outSize > 0 && outSize - 1 < x {
      return -1;
    }
    var i, s, b := 0, 1, 0;
    x := 0;
    ghost var o: seq<Byte> := [];
    DecodedNone(out[..], at);
    while i < length
      invariant 0 <= i <= length && 1 <= s <= 7 && s == i % 7 + 1 && x == i + i / 7
      invariant |o| == i && forall j :: 0 <= j < i ==> scan(text[2 * j], text[2 * j + 1]) == Some(o[j])
      invariant b == (if s == 1 then 0 else o[i - 1] / Pow2(9 - s))
      invariant Decoded(out[..], old(out[..]), at, o, x)
    {
      var hexval := scan(text[2 * i], text[2 * i + 1]);
      if hexval == None {
        return -1;
      }
      var c := hexval.value * Pow2(s) % 256;
      c := c / 2 + b;
      NextSeptet(o + [hexval.value], i, s);
      Sevens(i);
      DecodedMore(out[..], old(out[..]), at, o, hexval.value, x);
      b := hexval.value / Pow2(8 - s);
      o := o + [hexval.value];
      DecodedOne(out[..], old(out[..]), at, o, x, c);
      out[at + x] := c as char;
      x := x + 1;
      s := s + 1;
      if s == 8 {
        DecodedOne(out[..], old(out[..]), at, o, x, b);
        out[at + x] := b as char;
        s := 1;
        b := 0;
        x := x + 1;
      }
      i := i + 1;
    }
    assert o == Scanned(text, scan);
    DecodedAll(out[..], old(out[..]), at, o);
    out[at + x] := '\0';
    res := x;
  }

  ghost predicate Decoded(now: string, before: string, at: nat, o: seq<Byte>, x: nat) {
    && |now| == |before| && at + x <= |now|
    && (forall k :: 0 <= k < x ==> now[at + k] == UnpackedAt(o, k) as char)
    && (forall k :: 0 <= k < |now| && !(at <= k < at + x) ==> now[k] == before[k])
  }

  // The octet at i completes a septet, and every seventh one holds another.
  lemma NextSeptet(o: seq<Byte>, i: nat, s: nat)
    requires i + 1 == |o| && s == i % 7 + 1
    ensures var x := i + i / 7;
      UnpackedAt(o, x) == o[i] * Pow2(s) % 256 / 2 + (if s == 1 then 0 else o[i - 1] / Pow2(9 - s))
    ensures s == 7 ==> UnpackedAt(o, i + i / 7 + 1) == o[i] / Pow2(1)
  {
    hide Unpack, Pow2;
    DecodePlaces(i);
    if s == 1 {
      UnpackLow(o[i], 0, 0);
      HighBitLost(o[i]);
    } else {
      UnpackJoins(o[i - 1], o[i], s - 1);
    }
    if s == 7 {
      UnpackLow(o[i], 0, 1);
      HighBitLost(o[i]);
    }
  }

  lemma DecodePlaces(i: nat)
    ensures var x, e := i + i / 7, i % 7;
      && (e == 0 ==> 7 * x / 8 == i && 7 * x % 8 == 0)
      && (e > 0 ==> 7 * x / 8 == i - 1 && 7 * x % 8 == 8 - e)
      && (e == 6 ==> 7 * (x + 1) / 8 == i && 7 * (x + 1) % 8 == 1)
  {
    var h, e := i / 7, i % 7;
    assert 7 * (i + i / 7) == 8 * (7 * h) + 7 * e;
    assert e > 0 ==> 7 * (i + i / 7) == 8 * (i - 1) + 8 - e;
  }

  // What the next octet holds does not count for a septet that ends in this one.
  lemma UnpackLow(a: Byte, b: Byte, r: nat)
    requires r <= 1
    ensures Unpack(a, b, r) == a / Pow2(r) % 128
  {
    UnpackIs(a, b, r, Pow2(r), Pow2(8 - r));
    assert Pow2(8 - r) == 128 * (2 - r);
    var k := b * (2 - r);
    assert b * Pow2(8 - r) == 128 * k;
    var u := a / Pow2(r);
    hide Pow2, Unpack;
    MoreOf128(u, k);
  }

  lemma MoreOf128(u: nat, k: nat)
    ensures (u + 128 * k) % 128 == u % 128
  {
  }

  lemma HighBitLost(v: Byte)
    ensures v * Pow2(1) % 256 / 2 == v / Pow2(0) % 128 && v / Pow2(1) % 128 == v / Pow2(1)
  {
  }

  // The decoder's two parts, e bits from the octet before and the rest from this one.
  lemma UnpackJoins(a: Byte, v: Byte, e: nat)
    requires 1 <= e <= 6
    ensures Unpack(a, v, 8 - e) == v * Pow2(e + 1) % 256 / 2 + a / Pow2(8 - e)
  {
    hide Pow2, Unpack;
    var d, w, c := Pow2(e), Pow2(7 - e), Pow2(8 - e);
    Powers(e);
    PowerAfter(e);
    UnpackIs(a, v, 8 - e, c, d);
    ByteLess(a, c, d);
    JoinCore(a / c, v, d, w, Pow2(e + 1));
  }

  lemma PowerAfter(e: nat)
    requires 1 <= e <= 6
    ensures Pow2(e + 1) == 2 * Pow2(e)
  {
  }

  lemma ByteLess(a: Byte, c: nat, d: nat)
    requires c > 0 && d * c == 256
    ensures a / c < d
  {
    if a / c >= d {
      Mono(d, a / c, c);
    }
  }

  lemma LowBits(v: nat, d: nat, w: nat)
    requires d > 0 && w > 0 && d * w == 128
    ensures v * d == 128 * (v / w) + v % w * d && v % w * d <= 128 - d
  {
    var k, r := v / w, v % w;
    assert v == w * k + r;
    assert v * d == d * (w * k) + d * r by { Distr(d, w * k, r); }
    assert d * (w * k) == 128 * k by { Assoc(d, w, k); }
    assert r * d <= (w - 1) * d by { Mono(r, w - 1, d); }
    assert (w - 1) * d == 128 - d by { Distr(d, w, -1); }
  }

  lemma JoinLow(p: nat, y: nat, k: nat, t: nat)
    requires y == 128 * k + t && p + t < 128
    ensures (p + y) % 128 == p + t && 2 * y % 256 / 2 == t
  {
    DivMod(p + y, 128, k, p + t);
    DivMod(2 * y, 256, k, 2 * t);
  }

  lemma Twice(v: nat, d: nat, d2: nat)
    requires d2 == 2 * d
    ensures v * d2 == 2 * (v * d)
  {
  }

  lemma JoinCore(p: nat, v: nat, d: nat, w: nat, d2: nat)
    requires d > 0 && w > 0 && d * w == 128 && d2 == 2 * d && p < d
    ensures (p + v * d) % 128 == v * d2 % 256 / 2 + p
  {
    LowBits(v, d, w);
    Twice(v, d, d2);
    JoinLow(p, v * d, v / w, v % w * d);
  }

  // One more octet changes none of the septets complete before.
  lemma DecodedMore(now: string, before: string, at: nat, o: seq<Byte>, v: Byte, x: nat)
    requires Decoded(now, before, at, o, x) && x == |o| + |o| / 7
    ensures Decoded(now, before, at, o + [v], x)
  {
    forall k | 0 <= k < x
      ensures UnpackedAt(o + [v], k) == UnpackedAt(o, k)
    {
      CompleteStays(o, v, k);
    }
    hide UnpackedAt;
  }

  lemma CompleteStays(o: seq<Byte>, v: Byte, k: nat)
    requires k < |o| + |o| / 7
    ensures UnpackedAt(o + [v], k) == UnpackedAt(o, k)
  {
    hide Unpack;
    var q, r := 7 * k / 8, 7 * k % 8;
    assert 7 * k + 7 <= 8 * |o|;
    assert q < |o|;
    if q + 1 == |o| {
      assert r <= 1;
      UnpackLow(o[q], v, r);
      UnpackLow(o[q], 0, r);
    }
  }

  lemma Sevens(i: nat)
    ensures if i % 7 == 6 then (i + 1) % 7 == 0 && (i + 1) / 7 == i / 7 + 1
            else (i + 1) % 7 == i % 7 + 1 && (i + 1) / 7 == i / 7
  {
  }

  lemma DecodedNone(now: string, at: nat)
    requires at <= |now|
    ensures Decoded(now, now, at, [], 0)
  {
  }

  lemma DecodedOne(now: string, before: string, at: nat, o: seq<Byte>, x: nat, c: nat)
    requires Decoded(now, before, at, o, x) && at + x < |now| && c == UnpackedAt(o, x)
    ensures c < 128 && Decoded(now[at + x := c as char], before, at, o, x + 1)
  {
    hide UnpackedAt;
  }

  lemma DecodedAll(now: string, before: string, at: nat, o: seq<Byte>)
    requires Decoded(now, before, at, o, |o| + |o| / 7) && at + |o| + |o| / 7 < |now|
    ensures Holds(now[at + |o| + |o| / 7 := '\0'], before, at, Chars(Unpacked(o)))
  {
    hide UnpackedAt;
  }

  // Decoding what was encoded gives the text back, with the NUL in the two lengths.
  lemma EncodedScans(text: string, scan: Scan)
    requires AllBelow(text, 128) && ReadsHex(scan)
    ensures var t := HexText(Packed(Septets(text)));
      && Scans(t, scan)
      && Chars(Unpacked(Scanned(t, scan)))
         == text + if |text| > 0 && (|text| % 8 == 0 || |text| % 8 == 7) then ['\0'] else []
  {
    hide Packed, Unpacked, HexText, HexValue;
    var m := Septets(text);
    var o := Packed(m);
    var t := HexText(o);
    OctetsOfHexText(o);
    assert Scanned(t, scan) == Octets(t);
    SeptetRoundTrip(m);
  }

  // ------------------------------------------------------------------
  // Bytes and digit pairs.
  // ------------------------------------------------------------------

  const EINVAL := 22
  const ENOMEM := 12

  // chars8bit_to_hexstr
  method Chars8bitToHexstr(text: string, out: array<char>, at: nat, outSize: nat) returns (res: int)
    requires AllBelow(text, 256) && at + 2 * |text| < out.Length
    modifies out
    ensures TooSmall(outSize, |text| * 2) ==> res == -1 && out[..] == old(out[..])
    ensures !TooSmall(outSize, |text| * 2) ==>
              res == 2 * |text| && Holds(out[..], old(out[..]), at, HexText(Bytes(text)))
  {
    hide HexDigit;
    if outSize > 0 && outSize - 1 < |text| * 2 {
      return -1;
    }
    var i := 0;
    while i < |text|
      invariant i <= |text|
      invariant forall k :: 0 <= k < i ==>
        out[at + 2 * k] == HexDigit(text[k] as nat / 16) && out[at + 2 * k + 1] == HexDigit(text[k] as nat % 16)
      invariant forall k :: 0 <= k < out.Length && !(at <= k < at + 2 * i) ==> out[k] == old(out[k])
    {
      PutHex(out, at + 2 * i, text[i] as nat);
      i := i + 1;
    }
    out[at + 2 * i] := '\0';
    assert out[at..at + 2 * |text|] == HexText(Bytes(text));
    res := 2 * |text|;
  }

  // hexstr_to_8bitchars; an error in the digits is found only on the way.
  method HexstrTo8bitChars(text: string, out: array<char>, at: nat, outSize: nat) returns (res: int)
    requires at + |text| / 2 < out.Length
    modifies out
    ensures |text| % 2 == 1 ==> res == -EINVAL
    ensures |text| % 2 == 0 && TooSmall(outSize, |text| / 2) ==> res == -ENOMEM
    ensures |text| % 2 == 0 && !TooSmall(outSize, |text| / 2) ==>
              if AllHex(text) then res == |text| / 2 && Holds(out[..], old(out[..]), at, Chars(Octets(text)))
              else res == -EINVAL
  {
    if |text| % 2 == 1 {
      return -EINVAL;
    }
    var length := |text| / 2;
    if outSize > 0 && outSize - 1 < length {
      return -ENOMEM;
    }
    hide HexValue;
    var i := 0;
    while i < length
      invariant i <= length
      invariant forall k :: 0 <= k < 2 * i ==> HexValue(text[k]) >= 0
      invariant forall k :: 0 <= k < i ==> out[at + k] as nat == HexValue(text[2 * k]) * 16 + HexValue(text[2 * k + 1])
      invariant forall k :: 0 <= k < out.Length && !(at <= k < at + i) ==> out[k] == old(out[k])
    {
      var d1 := HexValue(text[2 * i]);
      if d1 < 0 {
        return -EINVAL;
      }
      var d2 := HexValue(text[2 * i + 1]);
      if d2 < 0 {
        return -EINVAL;
      }
      out[at + i] := (d1 * 16 + d2) as char;
      i := i + 1;
    }
    out[at + i] := '\0';
    assert out[at..at + length] == Chars(Octets(text));
    res := length;
  }
}
