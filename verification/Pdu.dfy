// Messages in PDU form (pdu.c): numbers in semi-octets, the SMS-SUBMIT layout of
// section 9.2.2.2 of 3GPP TS 23.040, and the parsing of its fields.
module Pdu {
  import opened CharConv

  const E2BIG := 7

  const INTERNATIONAL := 0x91
  const NETWORKSHORT := 0xB1
  const UNKNOWN := 0x81

  // SMS-SUBMIT, relative validity, status report requested
  const PDUTYPE := 0x31
  const PID_SMS := 0x00
  const DCS_7BIT := 0x00

  function RoundUp2(n: nat): nat {
    (n + 1) / 2 * 2
  }

  // ------------------------------------------------------------------
  // Numbers.
  // ------------------------------------------------------------------

  // pdu_digit2code
  function DigitCode(digit: char): char {
    if '0' <= digit <= '9' then digit
    else if digit == '*' then 'A'
    else if digit == '#' then 'B'
    else if digit == 'a' || digit == 'A' then 'C'
    else if digit == 'b' || digit == 'B' then 'D'
    else if digit == 'c' || digit == 'C' then 'E'
    else '\0'
  }

  // pdu_code2digit
  function CodeDigit(code: char): int {
    if '0' <= code <= '9' then code as int
    else if code == 'a' || code == 'A' then '*' as int
    else if code == 'b' || code == 'B' then '#' as int
    else if code == 'c' || code == 'C' then 'A' as int
    else if code == 'd' || code == 'D' then 'B' as int
    else if code == 'e' || code == 'E' then 'C' as int
    else if code == 'F' then 0
    else -1
  }

  // The digits a number may have.
  predicate Dialable(digit: char) {
    '0' <= digit <= '9' || digit in "*#abcABC"
  }

  function Upper(digit: char): char {
    if digit == 'a' then 'A' else if digit == 'b' then 'B' else if digit == 'c' then 'C' else digit
  }

  function Uppers(number: string): (r: string)
    ensures |r| == |number| && forall k :: 0 <= k < |number| ==> r[k] == Upper(number[k])
  {
    seq(|number|, k requires 0 <= k < |number| => Upper(number[k]))
  }

  // A digit survives coding exactly if it may be dialled; letters come back upper-case.
  lemma CodeRoundTrip(digit: char)
    ensures Dialable(digit) <==> CodeDigit(DigitCode(digit)) == Upper(digit) as int && digit != '\0'
    ensures !Dialable(digit) ==> DigitCode(digit) == '\0'
  {
  }

  // The pairs of digits exchanged, an odd number filled up with F.
  function Stored(number: string): (r: string)
    ensures |r| == RoundUp2(|number|)
  {
    seq(RoundUp2(|number|), k requires 0 <= k < RoundUp2(|number|) =>
      if k % 2 == 1 then DigitCode(number[k - 1])
      else if k + 1 < |number| then DigitCode(number[k + 1])
      else 'F')
  }

  // pdu_store_number
  method StoreNumber(buffer: array<char>, at: nat, number: string) returns (i: nat)
    requires at + RoundUp2(|number|) <= buffer.Length
    modifies buffer
    ensures i == RoundUp2(|number|)
    ensures buffer[..] == Placed(old(buffer[..]), at, Stored(number))
  {
    hide DigitCode, Stored, Placed;
    i := 0;
    var length := |number|;
    PlacedNone(buffer[..], at, Stored(number));
    while length > 1
      invariant i + length == |number| && i % 2 == 0 && length >= 0
      invariant buffer[..] == Placed(old(buffer[..]), at, Stored(number)[..i])
    {
      StoredPair(number, i);
      PlacedTwo(old(buffer[..]), at, Stored(number), i);
      buffer[at + i] := DigitCode(number[i + 1]);
      buffer[at + i + 1] := DigitCode(number[i]);
      length := length - 2;
      i := i + 2;
    }
    if length > 0 {
      StoredPair(number, i);
      PlacedTwo(old(buffer[..]), at, Stored(number), i);
      buffer[at + i] := 'F';
      buffer[at + i + 1] := DigitCode(number[i]);
      i := i + 2;
    }
    assert Stored(number)[..i] == Stored(number);
  }

  lemma StoredPair(number: string, i: nat)
    requires i < |number| && i % 2 == 0
    ensures Stored(number)[i + 1] == DigitCode(number[i])
    ensures Stored(number)[i] == if i + 1 < |number| then DigitCode(number[i + 1]) else 'F'
  {
    hide DigitCode;
  }

  // A buffer with a text put in place.
  function Placed(b: string, at: nat, text: string): (r: string)
    requires at + |text| <= |b|
    ensures |r| == |b|
  {
    b[..at] + text + b[at + |text|..]
  }

  lemma PlacedNone(b: string, at: nat, text: string)
    requires at + |text| <= |b|
    ensures Placed(b, at, text[..0]) == b
  {
  }

  lemma PlacedTwo(b: string, at: nat, text: string, i: nat)
    requires at + |text| <= |b| && i + 2 <= |text|
    ensures Placed(b, at, text[..i + 2]) == Placed(b, at, text[..i])[at + i := text[i]][at + i + 1 := text[i + 1]]
  {
  }

  // ------------------------------------------------------------------
  // Parsing. A cursor is a position and the number of characters left.
  // ------------------------------------------------------------------

  datatype Cursor = Cursor(pos: nat, left: nat)

  predicate Within(text: string, c: Cursor) {
    c.pos + c.left <= |text|
  }

  function Moved(c: Cursor, n: nat): Cursor
    requires n <= c.left
  {
    Cursor(c.pos + n, c.left - n)
  }

  // pdu_parse_byte. With a second character that is no digit the result is the value of
  // the first, and only that one is taken.
  function ParseByte(text: string, c: Cursor): (r: (int, Cursor))
    requires Within(text, c)
    ensures Within(text, r.1) && c.pos <= r.1.pos
  {
    if c.left < 2 then (-1, c)
    else
      var d1 := HexValue(text[c.pos]);
      if d1 < 0 then (d1, c)
      else
        var d2 := HexValue(text[c.pos + 1]);
        if d2 >= 0 then (d1 * 16 + d2, Moved(c, 2)) else (d1, Moved(c, 1))
  }

  // An error is reported exactly when there are not two characters or the first is no
  // digit; a bad second digit goes unnoticed. The byte is read exactly when both are.
  lemma ParseByteError(text: string, c: Cursor)
    requires Within(text, c)
    ensures ParseByte(text, c).0 < 0 <==> c.left < 2 || HexValue(text[c.pos]) < 0
    ensures ParseByte(text, c).1.pos == c.pos + 2 <==> c.left >= 2 && AllHex(text[c.pos..c.pos + 2])
  {
    hide HexValue;
    if c.left >= 2 {
      var two := text[c.pos..c.pos + 2];
      assert two[0] == text[c.pos] && two[1] == text[c.pos + 1];
    }
  }

  // A byte printed as two digits is read back.
  lemma ParsePrinted(text: string, c: Cursor, v: Byte)
    requires Within(text, c) && c.left >= 2 && text[c.pos..c.pos + 2] == HexText([v])
    ensures ParseByte(text, c) == (v, Moved(c, 2))
  {
    HexTextAt([v], 0);
    HexDigitValue(v / 16);
    HexDigitValue(v % 16);
    hide HexValue, HexDigit;
    assert text[c.pos] == text[c.pos..c.pos + 2][0] && text[c.pos + 1] == text[c.pos..c.pos + 2][1];
  }

  // pdu_parse_sca
  function ParseSca(text: string, c: Cursor): (r: (int, Cursor))
    requires Within(text, c)
    ensures Within(text, r.1)
  {
    var b := ParseByte(text, c);
    if b.0 >= 0 && b.0 * 2 <= b.1.left then (b.0 * 2 + 2, Moved(b.1, b.0 * 2)) else (-EINVAL, b.1)
  }

  // The digit for a code, 0 for the filler and for what is no code.
  function DigitChar(code: char): char {
    if CodeDigit(code) <= 0 then '\0' else CodeDigit(code) as char
  }

  // The characters written for a number: its pairs exchanged again, then a NUL if the
  // filler has not been one.
  function Digits(text: string, pos: nat, digits: nat): (r: string)
    requires pos + RoundUp2(digits) <= |text|
    ensures |r| == RoundUp2(digits)
  {
    seq(RoundUp2(digits), k requires 0 <= k < RoundUp2(digits) =>
      DigitChar(text[if k % 2 == 0 then pos + k + 1 else pos + k - 1]))
  }

  datatype NumberParse = NumberParse(res: int, toa: int, number: string, c: Cursor)

  function ParsedNumber(text: string, c: Cursor, digits: nat): NumberParse
    requires Within(text, c)
  {
    var b := ParseByte(text, c);
    if b.0 >= 0 && RoundUp2(digits) <= b.1.left then
      var n := RoundUp2(digits);
      NumberParse(b.1.pos + n - c.pos, b.0,
                  (if b.0 == INTERNATIONAL then "+" else "") + Digits(text, b.1.pos, digits)
                      + (if digits % 2 == 0 then "\0" else ""),
                  Moved(b.1, n))
    else NumberParse(-EINVAL, b.0, "", b.1)
  }

  // Nothing is read exactly if the type of address cannot be, or digits are lacking.
  lemma NumberErrors(text: string, c: Cursor, digits: nat)
    requires Within(text, c)
    ensures var b := ParseByte(text, c);
      ParsedNumber(text, c, digits).res < 0 <==> b.0 < 0 || b.1.left < RoundUp2(digits)
    ensures ParsedNumber(text, c, digits).res >= 0 ==>
              ParsedNumber(text, c, digits).c.pos == c.pos + ParsedNumber(text, c, digits).res
  {
    hide HexValue;
  }

  // Codes are read in lower case too, but for the filler.
  lemma CodesRead(code: char)
    requires 'A' <= code <= 'E'
    ensures CodeDigit((code as int + 32) as char) == CodeDigit(code) > 0
    ensures CodeDigit('F') == 0 && CodeDigit('f') == -1
  {
  }

  // pdu_parse_number; number is what it writes, and c the cursor it leaves.
  method ParseNumber(text: string, c: Cursor, digits: nat, numLen: nat) returns (p: NumberParse)
    requires Within(text, c)
    ensures numLen < digits + 1 ==> p.res == -ENOMEM && p.number == "" && p.c == c
    ensures numLen >= digits + 1 ==> p == ParsedNumber(text, c, digits)
  {
    hide CodeDigit, Digits, HexValue;
    if numLen < digits + 1 {
      return NumberParse(-ENOMEM, -1, "", c);
    }
    var b := ParseByte(text, c);
    var cur := b.1;
    if b.0 >= 0 {
      var syms := RoundUp2(digits);
      if syms <= cur.left {
        var number := if b.0 == INTERNATIONAL then "+" else "";
        var some;
        some, cur := ParseDigits(text, cur, digits);
        number := number + some;
        if digits % 2 == 0 {
          number := number + ['\0'];
        }
        return NumberParse(cur.pos - c.pos, b.0, number, cur);
      }
    }
    p := NumberParse(-EINVAL, b.0, "", cur);
  }

  // Its loop over the pairs.
  method ParseDigits(text: string, c: Cursor, digits: nat) returns (number: string, cur: Cursor)
    requires Within(text, c) && RoundUp2(digits) <= c.left
    ensures number == Digits(text, c.pos, digits) && cur == Moved(c, RoundUp2(digits))
  {
    hide CodeDigit, Digits;
    number, cur := "", c;
    ghost var n, k := RoundUp2(digits), 0;
    var syms := RoundUp2(digits);
    while syms > 0
      invariant 0 <= syms && syms % 2 == 0 && k == n - syms && cur == Cursor(c.pos + k, c.left - k)
      invariant number == Digits(text, c.pos, digits)[..k]
    {
      DigitsPair(text, c.pos, digits, k);
      var digit := CodeDigit(text[cur.pos + 1]);
      if digit <= 0 {
        digit := 0;
      }
      number := number + [AsChar(digit)];
      digit := CodeDigit(text[cur.pos]);
      if digit < 0 || (digit == 0 && (syms != 2 || digits % 2 == 0)) {
        digit := 0;
      }
      number := number + [AsChar(digit)];
      syms, cur, k := syms - 2, Moved(cur, 2), k + 2;
    }
    assert Digits(text, c.pos, digits)[..n] == Digits(text, c.pos, digits);
  }

  function AsChar(digit: int): char {
    if 0 <= digit < 256 then digit as char else '\0'
  }

  lemma DigitsPair(text: string, pos: nat, digits: nat, k: nat)
    requires pos + RoundUp2(digits) <= |text| && k % 2 == 0 && k < RoundUp2(digits)
    ensures Digits(text, pos, digits)[..k + 2]
         == Digits(text, pos, digits)[..k] + [DigitChar(text[pos + k + 1])] + [DigitChar(text[pos + k])]
    ensures forall code :: DigitChar(code) == AsChar(if CodeDigit(code) <= 0 then 0 else CodeDigit(code))
  {
    var d := Digits(text, pos, digits);
    assert d[k] == DigitChar(text[pos + k + 1]) && d[k + 1] == DigitChar(text[pos + k]);
    hide Digits, DigitChar;
    assert d[..k + 2] == d[..k] + [d[k]] + [d[k + 1]];
  }

  // ------------------------------------------------------------------
  // SMS-SUBMIT.
  // ------------------------------------------------------------------

  predicate HasPlus(number: string) {
    number != "" && number[0] == '+'
  }

  function Bare(number: string): string {
    if HasPlus(number) then number[1..] else number
  }

  // The type of address of the destination.
  function Toa(dst: string): Byte {
    if HasPlus(dst) then INTERNATIONAL else if |dst| < 6 then NETWORKSHORT else UNKNOWN
  }

  // The service center's part, for a number without its +.
  function ScaPart(sca: string): string
    requires |sca| <= 508
  {
    if sca == "" then "00" else HexText([1 + (|sca| + 1) / 2, INTERNATIONAL]) + Stored(sca)
  }

  function Head(dst: string): string
    requires |Bare(dst)| < 256
  {
    HexText([PDUTYPE, 0, |Bare(dst)|, Toa(dst)]) + Stored(Bare(dst))
  }

  function UserHead(msg: string): string
    requires |msg| < 256
  {
    HexText([PID_SMS, DCS_7BIT, 0xFF, |msg|])
  }

  function UserData(msg: string): string
    requires AllBelow(msg, 128)
  {
    HexText(Packed(Septets(msg)))
  }

  // The whole text.
  function Submit(sca: string, dst: string, msg: string): string
    requires |Bare(sca)| <= 508 && |Bare(dst)| < 256 && |msg| < 256 && AllBelow(msg, 128)
  {
    ScaPart(Bare(sca)) + Head(dst) + UserHead(msg) + UserData(msg)
  }

  // The room pdu_build asks for.
  function Need(sca: string, dst: string, msg: string): nat {
    (if sca == "" then 2 else 4 + RoundUp2(|sca|)) + 8 + RoundUp2(|dst|) + 8 + |msg| * 4 + 4
  }

  // More than 160 octets of data, or more than 178 octets after the center's part.
  predicate TooBig(dst: string, msg: string) {
    2 * PackedCount(|msg|) > 320 || 16 + RoundUp2(|Bare(dst)|) + 2 * PackedCount(|msg|) > 356
  }

  // The user data are too long exactly from 183 characters on; with a number of 20 digits
  // nothing else is.
  lemma TooBigExactly(dst: string, msg: string)
    requires |Bare(dst)| <= 20
    ensures TooBig(dst, msg) <==> |msg| >= 183
  {
  }

  // snprintf with %02X for each of the bytes: the digits and a NUL.
  method PrintBytes(buffer: array<char>, at: nat, bytes: seq<Byte>) returns (n: nat)
    requires at + 2 * |bytes| < buffer.Length
    modifies buffer
    ensures n == 2 * |bytes| && buffer[..] == Placed(old(buffer[..]), at, HexText(bytes) + "\0")
  {
    hide Placed, HexDigit, HexText;
    n := 0;
    ghost var text := HexText(bytes) + "\0";
    PlacedNone(buffer[..], at, text);
    while n < 2 * |bytes|
      invariant n <= 2 * |bytes| && n % 2 == 0 && buffer[..] == Placed(old(buffer[..]), at, text[..n])
    {
      HexTextAt(bytes, n / 2);
      PlacedTwo(old(buffer[..]), at, text, n);
      PutHex(buffer, at + n, bytes[n / 2]);
      n := n + 2;
    }
    PlacedOne(old(buffer[..]), at, text, n);
    buffer[at + n] := '\0';
    assert text[..n + 1] == text;
  }

  lemma PlacedOne(b: string, at: nat, text: string, i: nat)
    requires at + |text| <= |b| && i + 1 <= |text|
    ensures Placed(b, at, text[..i + 1]) == Placed(b, at, text[..i])[at + i := text[i]]
  {
  }

  // What is in front, then a text put after it.
  lemma PlacedPrefix(b: string, at: nat, text: string, n: nat)
    requires at + |text| <= |b| && n <= |text|
    ensures Placed(b, at, text)[..at + n] == b[..at] + text[..n]
  {
  }

  // The two writers, seen from what is in front.
  method AppendBytes(buffer: array<char>, at: nat, bytes: seq<Byte>) returns (len: nat)
    requires at + 2 * |bytes| < buffer.Length
    modifies buffer
    ensures len == at + 2 * |bytes| && buffer[..len] == old(buffer[..at]) + HexText(bytes)
  {
    hide HexText, Placed;
    ghost var b := buffer[..];
    var n := PrintBytes(buffer, at, bytes);
    PlacedPrefix(b, at, HexText(bytes) + "\0", n);
    len := at + n;
  }

  method AppendNumber(buffer: array<char>, at: nat, number: string) returns (len: nat)
    requires at + RoundUp2(|number|) <= buffer.Length
    modifies buffer
    ensures len == at + RoundUp2(|number|) && buffer[..len] == old(buffer[..at]) + Stored(number)
  {
    hide Stored, Placed;
    ghost var b := buffer[..];
    var n := StoreNumber(buffer, at, number);
    PlacedPrefix(b, at, Stored(number), n);
    len := at + n;
  }

  method BuildSca(buffer: array<char>, sca: string) returns (len: nat)
    requires |sca| <= 508 && 5 + RoundUp2(|sca|) <= buffer.Length
    modifies buffer
    ensures len == |ScaPart(sca)| && buffer[..len] == ScaPart(sca)
  {
    hide HexText, Stored;
    if |sca| > 0 {
      len := AppendBytes(buffer, 0, [1 + (|sca| + 1) / 2, INTERNATIONAL]);
      len := AppendNumber(buffer, len, sca);
    } else {
      buffer[0] := '0';
      buffer[1] := '0';
      len := 2;
    }
  }

  // pdu_build, for a message of 7-bit characters.
  method BuildPdu(buffer: array<char>, length: nat, sca: string, dst: string, msg: string) returns (res: int)
    requires length <= buffer.Length
    requires |Bare(sca)| <= 508 && |Bare(dst)| < 256 && AllBelow(msg, 128)
    modifies buffer
    ensures length < Need(Bare(sca), Bare(dst), msg) ==> res == -ENOMEM && buffer[..] == old(buffer[..])
    ensures length >= Need(Bare(sca), Bare(dst), msg) && TooBig(dst, msg) ==> res == -E2BIG
    ensures length >= Need(Bare(sca), Bare(dst), msg) && !TooBig(dst, msg) ==>
              && |msg| < 256 && res == |Submit(sca, dst, msg)| && res < length
              && buffer[..res] == Submit(sca, dst, msg)
  {
    hide HexText, Stored, Packed, PackedCount, Holds, AllBelow;
    var s, d := Bare(sca), Bare(dst);
    if length < Need(s, d, msg) {
      return -ENOMEM;
    }
    CountBounds(|msg|);
    var len := BuildSca(buffer, s);
    var scaLen := len;
    len := AppendBytes(buffer, len, [PDUTYPE, 0, |d|, Toa(dst)]);
    len := AppendNumber(buffer, len, d);
    assert buffer[..len] == ScaPart(s) + Head(dst);
    var dataLen := BuildData(buffer, len, length, msg, ScaPart(s) + Head(dst));
    if dataLen > 160 * 2 {
      return -E2BIG;
    }
    len := len + 8 + dataLen;
    if len - scaLen > 178 * 2 {
      return -E2BIG;
    }
    res := len;
  }

  // The user data first, then the fields in front of it, whose NUL goes where the data
  // begins: that character is kept and put back.
  method BuildData(buffer: array<char>, at: nat, length: nat, msg: string, ghost front: string) returns (dataLen: int)
    requires AllBelow(msg, 128) && length <= buffer.Length && at + 12 + 4 * |msg| <= length && buffer[..at] == front
    modifies buffer
    ensures dataLen == 2 * PackedCount(|msg|)
    ensures dataLen <= 320 ==>
              && |msg| < 256 && at + 8 + dataLen < length
              && buffer[..at + 8 + dataLen] == front + UserHead(msg) + UserData(msg)
  {
    hide HexText, Packed, PackedCount, Placed, AllBelow;
    CountBounds(|msg|);
    ghost var b0 := buffer[..];
    dataLen := CharToHexstr7bit(msg, buffer, at + 8, length - at - 11);
    ghost var b1 := buffer[..];
    assert b1[at + 8..at + 8 + dataLen] == UserData(msg) && b1[..at] == front by {
      assert b1[..at] == b1[..at + 8][..at];
    }
    if dataLen <= 320 {
      var tmp := buffer[at + 8];
      var n := PrintBytes(buffer, at, [PID_SMS, DCS_7BIT, 0xFF, |msg|]);
      buffer[at + 8] := tmp;
      Restored(b1, buffer[..], at, UserHead(msg), dataLen);
    }
  }

  // Placing a text with its NUL, and then the character the NUL replaced.
  lemma Restored(b: string, now: string, at: nat, text: string, more: nat)
    requires at + |text| + 1 <= |b| && at + |text| + more <= |b|
    requires now == Placed(b, at, text + "\0")[at + |text| := b[at + |text|]]
    ensures now[..at + |text| + more] == b[..at] + text + b[at + |text|..at + |text| + more]
  {
  }

  lemma CountBounds(n: nat)
    ensures (n - n / 8) * 2 <= 4 * n && 2 * PackedCount(n) <= 4 * n
    ensures 2 * PackedCount(n) <= 320 ==> n < 256
  {
  }

  // ------------------------------------------------------------------
  // Reading a message back.
  // ------------------------------------------------------------------

  // The cursor behind a part of the text.
  function After(text: string, front: string): Cursor
    requires |front| <= |text|
  {
    Cursor(|front|, |text| - |front|)
  }

  lemma ReadByte(text: string, front: string, v: Byte, rest: string)
    requires text == front + HexText([v]) + rest
    ensures ParseByte(text, After(text, front)) == (v, After(text, front + HexText([v])))
  {
    hide HexText;
    assert text[|front|..|front| + 2] == HexText([v]);
    ParsePrinted(text, After(text, front), v);
  }

  lemma HexTextFour(a: Byte, b: Byte, c: Byte, d: Byte)
    ensures HexText([a, b, c, d]) == HexText([a]) + HexText([b]) + HexText([c]) + HexText([d])
  {
    hide HexDigit;
  }

  lemma HexTextTwo(a: Byte, b: Byte)
    ensures HexText([a, b]) == HexText([a]) + HexText([b])
  {
    hide HexDigit;
  }

  lemma ReadFour(text: string, front: string, a: Byte, b: Byte, c: Byte, d: Byte, rest: string)
    returns (c1: Cursor, c2: Cursor, c3: Cursor)
    requires text == front + HexText([a, b, c, d]) + rest
    ensures Within(text, c1) && Within(text, c2) && Within(text, c3)
    ensures ParseByte(text, After(text, front)) == (a, c1) && ParseByte(text, c1) == (b, c2)
    ensures ParseByte(text, c2) == (c, c3) && ParseByte(text, c3) == (d, After(text, front + HexText([a, b, c, d])))
  {
    hide HexText, ParseByte;
    HexTextFour(a, b, c, d);
    var f1 := front + HexText([a]);
    var f2 := f1 + HexText([b]);
    var f3 := f2 + HexText([c]);
    assert text == front + HexText([a]) + (HexText([b]) + HexText([c]) + HexText([d]) + rest);
    assert text == f1 + HexText([b]) + (HexText([c]) + HexText([d]) + rest);
    assert text == f2 + HexText([c]) + (HexText([d]) + rest);
    assert text == f3 + HexText([d]) + rest;
    ReadByte(text, front, a, HexText([b]) + HexText([c]) + HexText([d]) + rest);
    ReadByte(text, f1, b, HexText([c]) + HexText([d]) + rest);
    ReadByte(text, f2, c, HexText([d]) + rest);
    ReadByte(text, f3, d, rest);
    c1, c2, c3 := After(text, f1), After(text, f2), After(text, f3);
    assert f3 + HexText([d]) == front + HexText([a, b, c, d]);
  }

  predicate AllDialable(number: string) {
    forall k :: 0 <= k < |number| ==> Dialable(number[k])
  }

  // What a digit comes back as.
  function ReadDigit(digit: char): char {
    if Dialable(digit) then Upper(digit) else '\0'
  }

  function ReadNumber(number: string): (r: string)
    ensures |r| == |number| && forall k :: 0 <= k < |number| ==> r[k] == ReadDigit(number[k])
  {
    seq(|number|, k requires 0 <= k < |number| => ReadDigit(number[k]))
  }

  // A stored number comes back digit by digit, letters in upper case, and a NUL for each
  // digit that cannot be dialled.
  lemma ReadDigits(text: string, pos: nat, number: string)
    requires pos + RoundUp2(|number|) <= |text| && text[pos..pos + RoundUp2(|number|)] == Stored(number)
    ensures Digits(text, pos, |number|) + (if |number| % 2 == 0 then "\0" else "") == ReadNumber(number) + "\0"
  {
    hide DigitCode, DigitChar, ReadDigit, Stored, Digits;
    var d := Digits(text, pos, |number|);
    forall k | 0 <= k < |d|
      ensures d[k] == if k < |number| then ReadDigit(number[k]) else '\0'
    {
      ReadDigitAt(text, pos, number, k);
    }
  }

  lemma ReadDigitAt(text: string, pos: nat, number: string, k: nat)
    requires pos + RoundUp2(|number|) <= |text| && k < RoundUp2(|number|)
    requires text[pos..pos + RoundUp2(|number|)] == Stored(number)
    ensures Digits(text, pos, |number|)[k] == if k < |number| then ReadDigit(number[k]) else '\0'
  {
    hide DigitCode, DigitChar, ReadDigit;
    var from := if k % 2 == 0 then k + 1 else k - 1;
    assert text[pos + from] == text[pos..pos + RoundUp2(|number|)][from];
    if k < |number| {
      DigitComesBack(number[k]);
    } else {
      FillerIsNul();
    }
  }

  lemma DigitComesBack(digit: char)
    ensures DigitChar(DigitCode(digit)) == ReadDigit(digit)
  {
  }

  // A number comes back, in upper case, if and only if all its digits can be dialled.
  lemma ReadNumberExactly(number: string)
    requires '\0' !in number
    ensures ReadNumber(number) == Uppers(number) <==> AllDialable(number)
  {
    hide Dialable;
    if ReadNumber(number) == Uppers(number) {
      forall k | 0 <= k < |number|
        ensures Dialable(number[k])
      {
        assert ReadNumber(number)[k] == Uppers(number)[k];
        assert number[k] in number;
        NotNul(number[k]);
      }
    }
  }

  lemma NotNul(digit: char)
    requires digit != '\0'
    ensures Upper(digit) != '\0'
  {
  }

  lemma FillerIsNul()
    ensures DigitChar('F') == '\0'
  {
  }

  // The service center's part is skipped.
  lemma ReadSca(text: string, sca: string, rest: string)
    requires |sca| <= 508 && text == ScaPart(sca) + rest
    ensures ParseSca(text, After(text, "")) == (|ScaPart(sca)|, After(text, ScaPart(sca)))
  {
    hide HexText, Stored, ParseByte;
    if sca == "" {
      ZeroPrinted();
      assert text == "" + HexText([0]) + rest;
      ReadByte(text, "", 0, rest);
    } else {
      var n := 1 + (|sca| + 1) / 2;
      HexTextTwo(n, INTERNATIONAL);
      var more := HexText([INTERNATIONAL]) + Stored(sca) + rest;
      assert text == "" + HexText([n]) + more;
      ReadByte(text, "", n, more);
    }
  }

  lemma ZeroPrinted()
    ensures HexText([0]) == "00"
  {
    HexTextAt([0], 0);
  }

  // What the parser makes of the text, field after field.
  datatype Front = Front(scaLen: int, pduType: int, reference: int, number: NumberParse)
  datatype User = User(pid: int, dcs: int, validity: int, udl: int, data: string)

  function ReadFront(text: string): (f: Front)
    ensures Within(text, f.number.c)
  {
    var (sca, c1) := ParseSca(text, Cursor(0, |text|));
    var (pduType, c2) := ParseByte(text, c1);
    var (reference, c3) := ParseByte(text, c2);
    var (digits, c4) := ParseByte(text, c3);
    Front(sca, pduType, reference, ParsedNumber(text, c4, if digits < 0 then 0 else digits))
  }

  function ReadUser(text: string, c: Cursor): User
    requires Within(text, c)
  {
    var (pid, c5) := ParseByte(text, c);
    var (dcs, c6) := ParseByte(text, c5);
    var (validity, c7) := ParseByte(text, c6);
    var (udl, c8) := ParseByte(text, c7);
    User(pid, dcs, validity, udl, text[c8.pos..c8.pos + c8.left])
  }

  // The fields up to the number of the destination.
  lemma FrontReadBack(text: string, sca: string, dst: string, rest: string)
    requires |sca| <= 508 && Bare(dst) != "" && |Bare(dst)| < 256
    requires text == ScaPart(sca) + Head(dst) + rest
    ensures var f := ReadFront(text);
      && f.scaLen == |ScaPart(sca)| && f.pduType == PDUTYPE && f.reference == 0 && f.number.res > 0
          && f.number.toa == Toa(dst)
      && f.number.number == (if HasPlus(dst) then "+" else "") + (ReadNumber(Bare(dst)) + "\0")
      && f.number.c == After(text, ScaPart(sca) + Head(dst))
  {
    hide HexText, Stored, ParseByte, ParseSca, ReadNumber, Digits, ScaPart;
    var d := Bare(dst);
    var f0, h1, h2 := ScaPart(sca), HexText([PDUTYPE, 0, |d|, Toa(dst)]), Stored(d);
    assert text == f0 + (h1 + h2 + rest);
    ReadSca(text, sca, h1 + h2 + rest);
    assert text == f0 + h1 + (h2 + rest);
    var c1, c2, c3 := ReadFour(text, f0, PDUTYPE, 0, |d|, Toa(dst), h2 + rest);
    var f1 := f0 + h1;
    assert text[|f1|..|f1| + |h2|] == h2;
    ReadDigits(text, |f1|, d);
    assert f0 + Head(dst) == f1 + h2;
    NumberAt(text, c3, |d|, Toa(dst), After(text, f1));
  }

  lemma NumberAt(text: string, c: Cursor, digits: nat, toa: Byte, at: Cursor)
    requires Within(text, c) && Within(text, at) && ParseByte(text, c) == (toa, at) && 0 < digits
        && RoundUp2(digits) <= at.left
    ensures var p := ParsedNumber(text, c, digits);
      && p.res > 0 && p.toa == toa && p.c == Moved(at, RoundUp2(digits))
      && p.number == (if toa == INTERNATIONAL then "+" else "")
          + (Digits(text, at.pos, digits) + (if digits % 2 == 0 then "\0" else ""))
  {
    hide ParseByte, Digits;
  }

  lemma UserReadBack(text: string, front: string, msg: string)
    requires |msg| < 256 && AllBelow(msg, 128) && text == front + UserHead(msg) + UserData(msg)
    ensures ReadUser(text, After(text, front)) == User(PID_SMS, DCS_7BIT, 0xFF, |msg|, UserData(msg))
  {
    hide HexText, ParseByte, UserData, AllBelow;
    var c5, c6, c7 := ReadFour(text, front, PID_SMS, DCS_7BIT, 0xFF, |msg|, UserData(msg));
    assert text[|front + UserHead(msg)|..] == UserData(msg);
  }

  // What pdu_build puts out on success is read back whole: the fields, the number if and
  // only if all its digits can be dialled (the others come back as NUL), and the text, followed by
  // a NUL in the two lengths the septet decoder adds one.
  lemma MessageReadBack(sca: string, dst: string, msg: string, scan: Scan)
    requires |Bare(sca)| <= 508 && Bare(dst) != "" && |Bare(dst)| < 256 && '\0' !in dst
    requires |msg| < 256 && AllBelow(msg, 128) && ReadsHex(scan)
    ensures var text := Submit(sca, dst, msg);
      var f := ReadFront(text);
      var u := ReadUser(text, f.number.c);
      // SMS-SUBMIT with a validity period and a status report asked for; the type of address
      && f.scaLen == |ScaPart(Bare(sca))| && f.pduType == 0x31 && f.reference == 0
      && f.number.toa == (if dst[0] == '+' then 0x91 else if |dst| < 6 then 0xB1 else 0x81)
      && f.number.number == (if HasPlus(dst) then "+" else "") + (ReadNumber(Bare(dst)) + "\0")
      && (f.number.number == (if HasPlus(dst) then "+" else "") + (Uppers(Bare(dst)) + "\0")
          <==> AllDialable(Bare(dst)))
      && u.pid == 0 && u.dcs == 0 && u.validity == 0xFF && u.udl == |msg| && Scans(u.data, scan)
      && Chars(Unpacked(Scanned(u.data, scan)))
         == msg + (if |msg| > 0 && (|msg| % 8 == 0 || |msg| % 8 == 7) then ['\0'] else [])
      // the receiver's check of the length in octets
      && (|u.data| == (u.udl + 1) * 7 / 8 * 2 <==> |msg| == 0 || |msg| % 8 != 0)
  {
    hide ReadFront, ReadUser, ScaPart, Head, UserHead, Packed, Unpacked, HexText, Septets, Chars, Scanned, Scans,
      Uppers, ReadNumber, AllDialable, AllBelow;
    var text, front := Submit(sca, dst, msg), ScaPart(Bare(sca)) + Head(dst);
    assert text == front + (UserHead(msg) + UserData(msg));
    FrontReadBack(text, Bare(sca), dst, UserHead(msg) + UserData(msg));
    UserReadBack(text, front, msg);
    ReadNumberExactly(Bare(dst));
    SameNumber(HasPlus(dst), ReadNumber(Bare(dst)), Uppers(Bare(dst)));
    EncodedScans(msg, scan);
    CountRoundTrip(|msg|);
  }

  lemma SameNumber(plus: bool, x: string, y: string)
    ensures (if plus then "+" else "") + (x + "\0") == (if plus then "+" else "") + (y + "\0") <==> x == y
  {
    var a, b := (if plus then "+" else "") + (x + "\0"), (if plus then "+" else "") + (y + "\0");
    var n := if plus then 1 else 0;
    assert a[n..|a| - 1] == x && b[n..|b| - 1] == y;
  }

  // ------------------------------------------------------------------
  // A message in full.
  // ------------------------------------------------------------------

  // A number of decimal digits is stored with the digits of each pair exchanged.
  lemma DecimalsExchanged(number: string, k: nat)
    requires k < |number| && forall i :: 0 <= i < |number| ==> '0' <= number[i] <= '9'
    ensures Stored(number)[if k % 2 == 0 then k + 1 else k - 1] == number[k]
    ensures |number| % 2 == 1 ==> Stored(number)[|number| - 1] == 'F'
  {
  }

  // The other digits have the codes of section 9.1.2.3 of 3GPP TS 23.040.
  lemma OtherDigits()
    ensures DigitCode('*') == 'A' && DigitCode('#') == 'B'
    ensures DigitCode('a') == 'C' && DigitCode('b') == 'D' && DigitCode('c') == 'E'
  {
  }

  lemma HelloSeptets()
    ensures Septets("hellohello") == [104, 101, 108, 108, 111, 104, 101, 108, 108, 111]
  {
  }

  lemma HelloOctets(m: seq<Septet>)
    requires m == [104, 101, 108, 108, 111, 104, 101, 108, 108, 111]
    ensures PackedAt(m, 0) == 0xE8 && PackedAt(m, 1) == 0x32 && PackedAt(m, 2) == 0x9B
    ensures PackedAt(m, 3) == 0xFD && PackedAt(m, 4) == 0x46 && PackedAt(m, 5) == 0x97
    ensures PackedAt(m, 6) == 0xD9 && PackedAt(m, 7) == 0xEC && PackedAt(m, 8) == 0x37
  {
    PowersOfTwo();
    HelloWindows();
    hide Pow2, Pack;
    assert SeptetAt(m, 10) == 0;
  }

  lemma PowersOfTwo()
    ensures Pow2(0) == 1 && Pow2(1) == 2 && Pow2(2) == 4 && Pow2(3) == 8
    ensures Pow2(4) == 16 && Pow2(5) == 32 && Pow2(6) == 64 && Pow2(7) == 128
  {
  }

  lemma HelloWindows()
    ensures Pack(104, 101, 0) == 0xE8 && Pack(101, 108, 1) == 0x32 && Pack(108, 108, 2) == 0x9B
    ensures Pack(108, 111, 3) == 0xFD && Pack(111, 104, 4) == 0x46 && Pack(104, 101, 5) == 0x97
    ensures Pack(101, 108, 6) == 0xD9 && Pack(108, 111, 0) == 0xEC && Pack(111, 0, 1) == 0x37
  {
    PowersOfTwo();
    hide Pow2;
  }

  lemma HelloPacked()
    ensures Packed(Septets("hellohello")) == [0xE8, 0x32, 0x9B, 0xFD, 0x46, 0x97, 0xD9, 0xEC, 0x37]
  {
    HelloSeptets();
    hide PackedAt, Septets;
    HelloOctets(Septets("hellohello"));
    var p := Packed(Septets("hellohello"));
    assert |p| == 9;
  }

  lemma HelloData()
    ensures HexText([0xE8, 0x32, 0x9B, 0xFD, 0x46, 0x97, 0xD9, 0xEC, 0x37]) == "E8329BFD4697D9EC37"
  {
  }

  lemma HelloHeads()
    ensures HexText([0x31, 0, 11, 0x91]) == "31000B91" && HexText([0, 0, 0xFF, 10]) == "0000FF0A"
  {
  }

  lemma HelloNumber()
    ensures Bare("+85291234567") == "85291234567" && Stored("85291234567") == "5892214365F7"
  {
  }

  // Ten letters to an international number, octet by octet.
  lemma MessageInFull()
    ensures Submit("", "+85291234567", "hellohello")
         == "00" + ("31000B91" + "5892214365F7") + "0000FF0A" + "E8329BFD4697D9EC37"
    ensures Need("", "85291234567", "hellohello") == 74
  {
    HelloNumber();
    hide Stored;
    HelloHeads();
    HelloPacked();
    HelloData();
    hide HexText, Packed, Septets;
    assert Bare("") == "" && ScaPart("") == "00";
    hide ScaPart;
    assert Head("+85291234567") == "31000B91" + "5892214365F7";
    assert UserHead("hellohello") == "0000FF0A";
    assert UserData("hellohello") == "E8329BFD4697D9EC37";
  }
}
