// Results of several lines (at_read.c): they end at an OK on a line of its own, which a
// message takes with it and the others leave.
module AtMultiline {
  import opened RingBuffers
  import opened AtRead
  import opened AtClasses
  import opened AtFraming

  predicate SeveralLines(b: string) {
    StartsWith(b, "+CMGR:") || StartsWith(b, "+CNUM:") || StartsWith(b, "ERROR+CNUM:") || StartsWith(b, "+CLCC:")
  }

  lemma NotFramedByLine(c: string)
    requires SeveralLines(c)
    ensures NextResult(c, true) == Step(Special, c, true) && HeadOf(c) == Multiline
  {
    MultilineHead(c);
    assert c != [];
    hide HeadOf;
  }

  lemma MultilineHead(c: string)
    requires SeveralLines(c)
    ensures HeadOf(c) == Multiline
  {
    if StartsWith(c, "ERROR+CNUM:") {
      FirstIs(c, "ERROR+CNUM:", 0);
      StartDiffers(c, "+CSSI:", 0);
    } else {
      var id := if StartsWith(c, "+CMGR:") then "+CMGR:" else if StartsWith(c, "+CNUM:") then "+CNUM:" else "+CLCC:";
      FirstIs(c, id, 0);
      FirstIs(c, id, 2);
      StartDiffers(c, "+CSSI:", 2);
    }
    StartDiffers(c, "> ", 0);
    NoReturn(c);
    hide StartsWith;
  }

  lemma FirstIs(c: string, id: string, i: nat)
    requires StartsWith(c, id) && i < |id|
    ensures |id| <= |c| && c[i] == id[i]
  {
    assert c[0 + i] == id[i];
  }

  lemma Words()
    ensures IsWord("+CMGR:") && IsWord("+CLCC:") && IsWord("+CNUM:") && IsWord("ERROR+CNUM:")
  {
  }

  lemma Class(c: string, b: string)
    requires SeveralLines(b) && b <= c
    ensures b != "" && SeveralLines(c)
    ensures Classify(c) ==
      if StartsWith(b, "+CMGR:") then RES_CMGR else if StartsWith(b, "+CLCC:") then RES_CLCC else RES_CNUM
  {
    assert b != "";
    hide StartsWith, Classify, IsWord, ClassOf;
    Words();
    if StartsWith(b, "+CMGR:") {
      Values0();
      StaysInFront(c, b, "+CMGR:");
      ClassOfWord(c, "+CMGR:");
    } else if StartsWith(b, "+CLCC:") {
      Values6();
      StaysInFront(c, b, "+CLCC:");
      ClassOfWord(c, "+CLCC:");
    } else if StartsWith(b, "+CNUM:") {
      Values1();
      StaysInFront(c, b, "+CNUM:");
      ClassOfWord(c, "+CNUM:");
    } else {
      Values7();
      StaysInFront(c, b, "ERROR+CNUM:");
      ClassOfWord(c, "ERROR+CNUM:");
    }
  }

  lemma StaysInFront(c: string, b: string, id: string)
    requires b <= c && StartsWith(b, id)
    ensures StartsWith(c, id)
  {
  }

  // The end stands behind b for the first time, before the seam.
  ghost predicate EndsBeforeSeam(b: string, front: string) {
    b + TERMINATOR <= front && FirstMatch(front, TERMINATOR) == |b|
  }

  lemma SearchInFront(b: string, front: string, behind: string, memory: string)
    requires EndsBeforeSeam(b, front) && 12 <= |memory| && memory[..7] == TERMINATOR
    ensures MemSearch(front, behind, memory, 7) == |b|
  {
    hide SeamSearch;
    if behind == [] {
      assert front + behind == front;
    }
  }

  // Such a result is reported whole, without the character in front of its end. A message
  // read takes its OK with it; behind a list of calls or numbers the OK is a result to come.
  method TakeMultiline(rb: RingBuffer<char>, memory: string, cds: (int, Iov, Iov), ghost b: string)
    returns (report: Report, started: bool)
    requires rb.Valid() && 12 <= |memory| && memory[..7] == TERMINATOR
    requires SeveralLines(b) && EndsBeforeSeam(b, rb.Front())
    modifies rb
    ensures rb.Valid() && !started
    ensures report == Report(if StartsWith(b, "+CMGR:") then RES_CMGR
                             else if StartsWith(b, "+CLCC:") then RES_CLCC else RES_CNUM, b[..|b| - 1])
    ensures old(rb.Contents()) == if StartsWith(b, "+CMGR:") then b + TERMINATOR + rb.Contents()
                                  else b + "\n" + rb.Contents()
    ensures !StartsWith(b, "+CMGR:") ==> "\r\nOK\r\n" <= rb.Contents()
  {
    hide View, Classify, StartsWith, FirstMatch, Drain, NextResult, HeadOf, MemSearch, SeveralLines;
    ghost var c := rb.Contents();
    rb.TwoPieces();
    ghost var front, behind := rb.Front(), rb.Behind();
    Class(c, b);
    NotFramedByLine(c);
    SearchInFront(b, front, behind, memory);
    var n, v0, v1;
    n, v0, v1, started := ReadResultIov(rb, true, memory, cds);
    rb.TwoPieces();
    assert rb.Front() == front && rb.Behind() == behind;
    report := TakeOne(rb, n, v0, v1);
    LeftBehind(c, b, rb.Contents(), if report.res == RES_CMGR then |b| + 7 else |b| + 1);
  }

  lemma LeftBehind(c: string, b: string, rest: string, taken: nat)
    requires b != "" && b + TERMINATOR <= c && rest == Dropped(c, taken) && taken in {|b| + 1, |b| + 7}
    ensures c[..|b| - 1] == b[..|b| - 1]
    ensures taken == |b| + 7 ==> c == b + TERMINATOR + rest
    ensures taken == |b| + 1 ==> c == b + "\n" + rest && "\r\nOK\r\n" <= rest
  {
  }
}
