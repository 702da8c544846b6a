// What the reader makes of a stream of well-formed results, however the stream is
// cut into reads.
module AtFraming {
  import opened RingBuffers
  import opened AtRead
  import opened AtClasses

  // A result the framer treats by its end alone: not empty, without CR and LF, and
  // without one of the prefixes that have a branch of their own.
  predicate PlainBody(b: string) {
    && b != [] && (forall i :: 0 <= i < |b| ==> b[i] != '\r' && b[i] != '\n')
    && !StartsWith(b, "+CSSI:") && !StartsWith(b, "> ") && !StartsWith(b, "+CMGR:") && !StartsWith(b, "+CNUM:")
    && !StartsWith(b, "ERROR+CNUM:") && !StartsWith(b, "+CLCC:") && !StartsWith(b, "+CDS:")
  }

  // A result that the framer looks for behind a second CR LF.
  predicate SpacedBody(b: string) {
    PlainBody(b) && (StartsWith(b, "+CSSU:") || StartsWith(b, "+CMS ERROR:") || StartsWith(b, "+CMGS:"))
  }

  // What the device sends: a plain result on a line of its own, such a result behind one
  // CR LF more, the prompt for a message (without a line end), and a +CSSI notice of one digit.
  datatype Item = Line(body: string) | Spaced(body: string) | Ask | Notice(code: char)

  predicate ItemOk(x: Item) {
    match x
    case Line(b) => PlainBody(b)
    case Spaced(b) => SpacedBody(b)
    case Ask => true
    case Notice(_) => true
  }

  // What the framer takes behind the opening CR LF, and what it leaves of the line end.
  function Text(x: Item): string {
    match x
    case Line(b) => b + CRLF
    case Spaced(b) => CRLF + b + CRLF
    case Ask => "> "
    case Notice(code) => "+CSSI:" + [code] + "\r"
  }

  function Tail(x: Item): string {
    if x.Notice? then "\n" else ""
  }

  // The bytes on the line.
  function Wire(items: seq<Item>): string {
    if items == [] then [] else CRLF + (Text(items[0]) + Tail(items[0]) + Wire(items[1..]))
  }

  function ReportOf(x: Item): Report {
    match x
    case Line(b) => Report(Classify(b + CRLF), b)
    case Spaced(b) => Report(Classify(b + CRLF), b)
    case Ask => Report(RES_SMS_PROMPT, ">")
    case Notice(code) => Report(RES_CSSI, "+CSSI:" + [code])
  }

  function ReportsOf(items: seq<Item>): (r: seq<Report>)
    ensures |r| == |items|
  {
    seq(|items|, i requires 0 <= i < |items| => ReportOf(items[i]))
  }

  // ------------------------------------------------------------------
  // Beginnings of a body and its line end.
  // ------------------------------------------------------------------

  // c and b followed by CR agree as far as both go.
  ghost predicate Agrees(c: string, b: string) {
    && (forall i :: 0 <= i < |c| && i < |b| ==> c[i] == b[i])
    && (|c| > |b| ==> c[|b|] == '\r')
  }

  // No CR but one that may end it: true of every id in the table.
  predicate LineId(id: string) {
    id != [] && forall j :: 0 <= j < |id| && id[j] == '\r' ==> j == |id| - 1
  }

  // An id found in front of c is found in front of the body.
  lemma IdInBody(c: string, b: string, id: string)
    requires Agrees(c, b) && LineId(id) && StartsWith(c, id)
    ensures |id| <= |b| + 1 && (forall j :: 0 <= j < |id| && j < |b| ==> b[j] == id[j])
    ensures |id| == |b| + 1 ==> id[|b|] == '\r'
  {
    assert forall j :: 0 <= j < |id| ==> c[0 + j] == id[j];
    if |id| > |b| {
      assert c[0 + |b|] == id[|b|];
    }
  }

  lemma NoPrefix(c: string, b: string, id: string)
    requires Agrees(c, b) && LineId(id) && id[|id| - 1] != '\r' && !StartsWith(b, id)
    ensures !StartsWith(c, id)
  {
    if StartsWith(c, id) {
      IdInBody(c, b, id);
      assert OccursAt(b, id, 0);
    }
  }

  lemma HeadIsPlain(c: string, b: string)
    requires PlainBody(b) && c != [] && Agrees(c, b)
    ensures HeadOf(c) == Plain
  {
    hide StartsWith;
    NoPrefix(c, b, "+CSSI:");
    NoPrefix(c, b, "> ");
    NoPrefix(c, b, "+CMGR:");
    NoPrefix(c, b, "+CNUM:");
    NoPrefix(c, b, "ERROR+CNUM:");
    NoPrefix(c, b, "+CLCC:");
    NoPrefix(c, b, "+CDS:");
    NoLineEndFirst(c, b, "\r\n+CSSU:");
    NoLineEndFirst(c, b, "\r\n+CMS ERROR:");
    NoLineEndFirst(c, b, "\r\n+CMGS:");
  }

  lemma NoLineEndFirst(c: string, b: string, id: string)
    requires PlainBody(b) && c != [] && Agrees(c, b) && id != [] && id[0] == '\r'
    ensures !StartsWith(c, id)
  {
  }

  lemma NoLineEndYet(c: string, b: string)
    requires PlainBody(b) && |c| < |b| + 2 && c <= b + CRLF
    ensures FirstMatch(c, CRLF) == |c|
  {
    forall i {:trigger OccursAt(c, CRLF, i)} | 0 <= i < |c|
      ensures !OccursAt(c, CRLF, i)
    {
      LineEndAt(c, i);
    }
    FirstMatchIs(c, CRLF, |c|);
  }

  // How many characters of an item must be there before the framer does anything.
  function Needed(x: Item): nat {
    if x.Spaced? then 2 else |Text(x)|
  }

  // Only part of an item has arrived: wait.
  lemma WaitOnPart(c: string, x: Item)
    requires ItemOk(x) && c != [] && |c| < Needed(x) && c <= Text(x)
    ensures NextResult(c, true) == Step(Wait, c, true)
  {
    hide HeadOf, FirstMatch, PlainBody, StartsWith;
    match x {
      case Line(b) =>
        HeadIsPlain(c, b);
        NoLineEndYet(c, b);
      case Spaced(_) =>
        ReturnAlone(c);
      case Ask =>
        GreaterAlone(c);
      case Notice(code) =>
        PartOfNotice(c, code);
    }
  }

  lemma ReturnAlone(c: string)
    requires c == "\r"
    ensures HeadOf(c) == Plain && FirstMatch(c, CRLF) == |c|
  {
    LineEndAt(c, 0);
    FirstMatchIs(c, CRLF, |c|);
  }

  lemma GreaterAlone(c: string)
    requires c == ">"
    ensures HeadOf(c) == Plain && FirstMatch(c, CRLF) == |c|
  {
    LineEndAt(c, 0);
    FirstMatchIs(c, CRLF, |c|);
  }

  lemma PartOfNotice(c: string, code: char)
    requires 0 < |c| < 8 && c <= "+CSSI:" + [code] + "\r"
    ensures if |c| < 6 then HeadOf(c) == Plain && FirstMatch(c, CRLF) == |c| else HeadOf(c) == Head.Cssi
  {
    if |c| < 6 {
      forall i {:trigger OccursAt(c, CRLF, i)} | 0 <= i < |c|
        ensures !OccursAt(c, CRLF, i)
      {
        LineEndAt(c, i);
      }
      FirstMatchIs(c, CRLF, |c|);
      NoReturn(c);
      StartDiffers(c, "+CSSI:", 5);
      StartDiffers(c, "> ", 0);
      StartDiffers(c, "+CMGR:", 5);
      StartDiffers(c, "+CNUM:", 5);
      StartDiffers(c, "ERROR+CNUM:", 0);
      StartDiffers(c, "+CLCC:", 5);
      StartDiffers(c, "+CDS:", 2);
    } else {
      Starts(c, "+CSSI:");
    }
    hide StartsWith;
  }

  lemma StartDiffers(c: string, id: string, i: nat)
    requires i < |id| && (i < |c| ==> c[i] != id[i])
    ensures !StartsWith(c, id)
  {
  }

  lemma Starts(c: string, id: string)
    requires 0 < |id| <= |c| && forall i :: 0 <= i < |id| ==> c[i] == id[i]
    ensures StartsWith(c, id)
  {
  }

  lemma NoReturn(c: string)
    requires c != [] && c[0] != '\r'
    ensures !StartsWith(c, "\r\n+CSSU:") && !StartsWith(c, "\r\n+CMS ERROR:") && !StartsWith(c, "\r\n+CMGS:")
  {
    StartDiffers(c, "\r\n+CSSU:", 0);
    StartDiffers(c, "\r\n+CMS ERROR:", 0);
    StartDiffers(c, "\r\n+CMGS:", 0);
  }

  lemma OnlyReturn(c: string)
    requires c != [] && c[0] == '\r'
    ensures HeadOf(c) == Plain || HeadOf(c) == Unwrapped
    ensures HeadOf(c) == Unwrapped <==>
            StartsWith(c, "\r\n+CSSU:") || StartsWith(c, "\r\n+CMS ERROR:") || StartsWith(c, "\r\n+CMGS:")
  {
    StartDiffers(c, "+CSSI:", 0);
    StartDiffers(c, "> ", 0);
    StartDiffers(c, "+CMGR:", 0);
    StartDiffers(c, "+CNUM:", 0);
    StartDiffers(c, "ERROR+CNUM:", 0);
    StartDiffers(c, "+CLCC:", 0);
    StartDiffers(c, "+CDS:", 0);
    hide StartsWith;
  }

  lemma LineEndAt(c: string, i: nat)
    ensures OccursAt(c, CRLF, i) <==> i + 2 <= |c| && c[i] == '\r' && c[i + 1] == '\n'
  {
    assert OccursAt(c, CRLF, i) <==> i + 2 <= |c| && c[i + 0] == CRLF[0] && c[i + 1] == CRLF[1];
  }

  // A whole result stands in front.
  lemma FoundOnWhole(b: string, more: string)
    requires PlainBody(b)
    ensures NextResult(b + CRLF + more, true) == Step(Found(|b| + 1), b + CRLF + more, false)
  {
    var c := b + CRLF + more;
    HeadIsPlain(c, b);
    forall i {:trigger OccursAt(c, CRLF, i)} | 0 <= i < |b|
      ensures !OccursAt(c, CRLF, i)
    {
      LineEndAt(c, i);
    }
    LineEndAt(c, |b|);
    FirstMatchIs(c, CRLF, |b|);
  }

  // A prompt is found as soon as it is there, whatever follows.
  lemma PromptFound(more: string)
    ensures NextResult("> " + more, true) == Step(Found(2), "> " + more, false)
    ensures Classify("> " + more) == RES_SMS_PROMPT
  {
    var c := "> " + more;
    NoReturn(c);
    Starts(c, "> ");
    StartDiffers(c, "+CSSI:", 0);
    ClassOfWord(c, "> ");
    hide StartsWith, Classify;
  }

  // A notice is found at eight characters, whatever they are, and waited for until then.
  lemma NoticeTaken(c: string)
    requires StartsWith(c, "+CSSI:")
    ensures NextResult(c, true) == if |c| >= 8 then Step(Found(8), c, false) else Step(Wait, c, true)
    ensures Classify(c) == RES_CSSI
  {
    NoticeHead(c);
    hide HeadOf, StartsWith, Classify, ClassOf;
    NoticeIsWord();
    Values2();
    hide IsWord;
    ClassOfWord(c, "+CSSI:");
  }

  lemma NoticeHead(c: string)
    requires StartsWith(c, "+CSSI:")
    ensures c != [] && HeadOf(c) == Head.Cssi
  {
  }

  lemma NoticeIsWord()
    ensures IsWord("+CSSI:")
  {
  }

  lemma NoticeFound(code: char, more: string)
    ensures var c := "+CSSI:" + [code] + "\r" + more;
      NextResult(c, true) == Step(Found(8), c, false) && Classify(c) == RES_CSSI
  {
    var c := "+CSSI:" + [code] + "\r" + more;
    Starts(c, "+CSSI:");
    hide StartsWith, Classify, NextResult;
    NoticeTaken(c);
  }

  function IdLength(b: string): nat {
    if StartsWith(b, "+CMS ERROR:") then 11 else 6
  }

  // c and t agree as far as both go.
  ghost predicate Matches(c: string, t: string) {
    forall i :: 0 <= i < |c| && i < |t| ==> c[i] == t[i]
  }

  // The end of a prefix behind a second CR LF.
  lemma SpacedStarts(c: string, b: string, id: string)
    requires id != [] && Matches(c, CRLF + b + CRLF) && |CRLF + id| <= |c| && StartsWith(b, id)
    ensures StartsWith(c, CRLF + id)
  {
    assert forall i :: 0 <= i < |id| ==> b[0 + i] == id[i];
    Starts(c, CRLF + id);
  }

  // Behind a second CR LF the framer needs the prefix whole to drop the CR LF.
  lemma SpacedTaken(c: string, b: string)
    requires SpacedBody(b) && Matches(c, CRLF + b + CRLF) && 2 + IdLength(b) <= |c|
    ensures NextResult(c, true) == NextResult(c[2..], true)
  {
    hide StartsWith, HeadOf, PlainBody, NextResult;
    var d := CRLF + b + CRLF;
    assert d[0] == '\r';
    PrefixWhole(c, b);
    OnlyReturn(c);
    NextByHead(c);
  }

  lemma PrefixWhole(c: string, b: string)
    requires SpacedBody(b) && Matches(c, CRLF + b + CRLF) && 2 + IdLength(b) <= |c|
    ensures StartsWith(c, "\r\n+CSSU:") || StartsWith(c, "\r\n+CMS ERROR:") || StartsWith(c, "\r\n+CMGS:")
  {
    hide StartsWith, PlainBody;
    if StartsWith(b, "+CMS ERROR:") {
      SpacedStarts(c, b, "+CMS ERROR:");
      assert CRLF + "+CMS ERROR:" == "\r\n+CMS ERROR:";
    } else if StartsWith(b, "+CSSU:") {
      SpacedStarts(c, b, "+CSSU:");
      assert CRLF + "+CSSU:" == "\r\n+CSSU:";
    } else {
      SpacedStarts(c, b, "+CMGS:");
      assert CRLF + "+CMGS:" == "\r\n+CMGS:";
    }
  }

  lemma NextByHead(c: string)
    requires c != []
    ensures HeadOf(c) == Unwrapped ==> NextResult(c, true) == NextResult(c[2..], true)
    ensures HeadOf(c) == Plain && FirstMatch(c, CRLF) < |c| ==>
              NextResult(c, true) == Step(Found(FirstMatch(c, CRLF) + 1), c, false)
  {
    hide HeadOf, FirstMatch;
  }

  // With less of it the line end in front is taken for an empty result.
  lemma SpacedSplit(c: string, b: string)
    requires SpacedBody(b) && Matches(c, CRLF + b + CRLF) && 2 <= |c| < 2 + IdLength(b)
    ensures NextResult(c, true) == Step(Found(1), c, false)
  {
    PrefixCut(c, b);
    var d := CRLF + b + CRLF;
    assert d[0] == '\r' && d[1] == '\n';
    hide StartsWith, PlainBody;
    ReturnFound(c);
  }

  lemma ReturnFound(c: string)
    requires 2 <= |c| && c[0] == '\r' && c[1] == '\n'
    requires !StartsWith(c, "\r\n+CSSU:") && !StartsWith(c, "\r\n+CMS ERROR:") && !StartsWith(c, "\r\n+CMGS:")
    ensures NextResult(c, true) == Step(Found(1), c, false)
  {
    hide StartsWith, HeadOf;
    LineEndAt(c, 0);
    FirstMatchIs(c, CRLF, 0);
    OnlyReturn(c);
    NextByHead(c);
    hide NextResult, FirstMatch;
  }

  lemma PrefixCut(c: string, b: string)
    requires Matches(c, CRLF + b + CRLF) && 2 <= |c| < 2 + IdLength(b)
    ensures !StartsWith(c, "\r\n+CSSU:") && !StartsWith(c, "\r\n+CMS ERROR:") && !StartsWith(c, "\r\n+CMGS:")
  {
    if StartsWith(b, "+CMS ERROR:") {
      var id := "+CMS ERROR:";
      assert id[2] == 'M' && id[3] == 'S';
      assert b[2] == id[2] && b[3] == id[3];
      assert |c| > 4 ==> c[4] == 'M';
      assert |c| > 5 ==> c[5] == 'S';
      StartDiffers(c, "\r\n+CSSU:", 4);
      StartDiffers(c, "\r\n+CMS ERROR:", 12);
      StartDiffers(c, "\r\n+CMGS:", 5);
    } else {
      StartDiffers(c, "\r\n+CSSU:", 7);
      StartDiffers(c, "\r\n+CMS ERROR:", 12);
      StartDiffers(c, "\r\n+CMGS:", 7);
    }
    hide StartsWith;
  }

  // ------------------------------------------------------------------
  // Classification looks at the body alone.
  // ------------------------------------------------------------------

  lemma ClassOfWord(c: string, id: string)
    requires IsWord(id) && StartsWith(c, id)
    ensures Classify(c) == ClassOf(id)
  {
    hide Lookup, IsWord, StartsWith, ClassOf, Word;
    StartsWithWord(c, id);
    ClassifiedByWord(c);
  }

  lemma WordInBody(b: string, more: string)
    requires PlainBody(b)
    ensures Word(b + CRLF + more) == Word(b + CRLF)
  {
    var c, d := b + CRLF + more, b + CRLF;
    NoPrefix(c, b, "> ");
    NoPrefix(d, b, "> ");
    hide StartsWith;
    WordEndSame(c, d, |b|);
    assert c[..|b| + 1] == d[..|b| + 1];
    assert c[..WordEnd(c)] == c[..|b| + 1][..WordEnd(c)];
  }

  lemma {:induction false} WordEndSame(c: string, d: string, i: nat)
    requires i < |c| && i < |d| && c[..i + 1] == d[..i + 1] && c[i] == '\r'
    ensures WordEnd(c) == WordEnd(d) <= i + 1
    decreases i
  {
    assert c[i] == c[..i + 1][i] && d[i] == d[..i + 1][i] && c[0] == c[..i + 1][0] && d[0] == d[..i + 1][0];
    if i > 0 && c[0] != ':' && c[0] != '\r' {
      assert c[1..][..i] == c[..i + 1][1..] && d[1..][..i] == d[..i + 1][1..];
      WordEndSame(c[1..], d[1..], i - 1);
    }
  }

  lemma OwnLengths(word: string)
    ensures ClassOf(word) == RES_SMS_PROMPT ==> word == "> "
    ensures ClassOf(word) == RES_CMGR ==> word == "+CMGR:"
    ensures ClassOf(word) == RES_CSSI ==> word == "+CSSI:"
  {
  }

  // No plain body is taken for one of the three classes with a length of their own.
  lemma PlainClass(c: string, b: string)
    requires PlainBody(b) && Agrees(c, b)
    ensures Classify(c) != RES_SMS_PROMPT && Classify(c) != RES_CMGR && Classify(c) != RES_CSSI
  {
    NoPrefix(c, b, "> ");
    NoPrefix(c, b, "+CMGR:");
    NoPrefix(c, b, "+CSSI:");
    hide StartsWith, Word, Lookup, ClassOf;
    StartsWithWord(c, "> ");
    StartsWithWord(c, "+CMGR:");
    StartsWithWord(c, "+CSSI:");
    ClassifiedByWord(c);
    OwnLengths(Word(c));
  }

  lemma ClassifyOnBody(b: string, more: string)
    requires PlainBody(b)
    ensures Classify(b + CRLF + more) == Classify(b + CRLF)
    ensures forall len: nat :: Taken(Classify(b + CRLF), len) == len + 1
  {
    ClassifiedByWord(b + CRLF + more);
    ClassifiedByWord(b + CRLF);
    WordInBody(b, more);
    PlainClass(b + CRLF, b);
    hide Lookup, Word, ClassOf;
  }

  // ------------------------------------------------------------------
  // Where a stream stands.
  // ------------------------------------------------------------------

  // Between two items, possibly before the rest of a notice's line end, or behind the
  // opening CR LF of one.
  datatype Phase = Between | Ending | Within(x: Item)

  predicate Begun(phase: Phase) {
    phase.Within?
  }

  // The bytes still to come.
  function Due(phase: Phase, pending: seq<Item>): string {
    match phase
    case Between => Wire(pending)
    case Ending => "\n" + Wire(pending)
    case Within(x) => Text(x) + (Tail(x) + Wire(pending))
  }

  function Left(phase: Phase, pending: seq<Item>): seq<Item> {
    if phase.Within? then [phase.x] + pending else pending
  }

  // What stays behind the last item when all have come.
  function Remains(phase: Phase, pending: seq<Item>): string {
    if pending != [] then Tail(pending[|pending| - 1])
    else
      match phase
      case Between => ""
      case Ending => "\n"
      case Within(x) => Tail(x)
  }

  ghost predicate AllOk(items: seq<Item>) {
    forall i :: 0 <= i < |items| ==> ItemOk(items[i])
  }

  // What is in the buffer, then future, are the bytes due.
  ghost predicate Awaiting(c: string, phase: Phase, future: string, pending: seq<Item>) {
    AllOk(Left(phase, pending)) && c + future == Due(phase, pending)
  }

  // The framer can do nothing with what is in the buffer.
  ghost predicate Starved(c: string, phase: Phase) {
    |c| < (if phase.Within? then Needed(phase.x) else 2)
  }

  // ------------------------------------------------------------------
  // Where a cut does harm.
  // ------------------------------------------------------------------

  // With the given number of bytes still to come, the item before the bytes after has come
  // up to its second CR LF or a part of its prefix.
  predicate Splits(x: Item, after: nat, toCome: nat) {
    x.Spaced? && 2 <= |Text(x)| + after - toCome < 2 + IdLength(x.body)
  }

  // No item is split there.
  predicate Clear(items: seq<Item>, toCome: nat) {
    items != [] ==> !Splits(items[0], |Wire(items[1..])|, toCome) && Clear(items[1..], toCome)
  }

  ghost predicate Short(items: seq<Item>, n: nat) {
    forall k :: 0 <= k < |items| ==> |Text(items[k])| <= n
  }

  // What a drain does to the state: reports and reports due stay the same together, and
  // later cuts do the same harm.
  ghost predicate Goes(phase: Phase, pending: seq<Item>, reports: seq<Report>, phase': Phase, pending': seq<Item>,
                       toCome: nat) {
    && reports + ReportsOf(Left(phase', pending')) == ReportsOf(Left(phase, pending))
    && Remains(phase', pending') == Remains(phase, pending)
    && (forall n: nat {:trigger Short(Left(phase', pending'), n)} ::
          Short(Left(phase, pending), n) ==> Short(Left(phase', pending'), n))
    && forall n: nat {:trigger Clear(Left(phase, pending), n)} {:trigger Clear(Left(phase', pending'), n)} ::
         n <= toCome ==> (Clear(Left(phase', pending'), n) <==> Clear(Left(phase, pending), n))
  }

  // Something else is reported than is due.
  ghost predicate Spoilt(reports: seq<Report>, due: seq<Report>) {
    exists i :: 0 <= i < |reports| && i < |due| && reports[i] != due[i]
  }

  // A drain reports what is due and leaves what it can do nothing with, exactly if no item
  // is split.
  ghost predicate Drains(d: Drained, phase: Phase, pending: seq<Item>, future: string, phase': Phase,
                         pending': seq<Item>) {
    if Clear(Left(phase, pending), |future|) then
      && !d.special && d.started == Begun(phase')
      && Awaiting(d.rest, phase', future, pending') && Starved(d.rest, phase')
      && Goes(phase, pending, d.reports, phase', pending', |future|)
    else Spoilt(d.reports, ReportsOf(Left(phase, pending)))
  }

  // ------------------------------------------------------------------
  // One turn of a drain.
  // ------------------------------------------------------------------

  lemma SplitDue(c: string, future: string, x: string, y: string)
    requires c + future == x + y
    ensures |c| >= |x| ==> c == x + c[|x|..] && c[|x|..] + future == y
    ensures |c| <= |x| ==> c <= x
    ensures Matches(c, x)
  {
    var d := c + future;
    assert forall i :: 0 <= i < |c| ==> c[i] == d[i];
    assert forall i :: 0 <= i < |x| ==> x[i] == d[i];
    if |c| >= |x| {
      assert d[..|x|] == x && d[|x|..] == y;
    }
  }

  lemma WireOpens(items: seq<Item>)
    ensures items == [] ==> Wire(items) == []
    ensures items != [] ==> Wire(items) == CRLF + (Text(items[0]) + Tail(items[0]) + Wire(items[1..]))
  {
  }

  // Items whose opening has not come whole are not split.
  lemma {:induction false} NotBegunClear(items: seq<Item>, toCome: nat)
    requires |Wire(items)| <= toCome + 1
    ensures Clear(items, toCome)
  {
    hide Text, Tail;
    if items != [] {
      NotBegunClear(items[1..], toCome);
    }
  }

  lemma ClearCons(x: Item, items: seq<Item>, toCome: nat)
    ensures Clear([x] + items, toCome) <==> !Splits(x, |Wire(items)|, toCome) && Clear(items, toCome)
  {
    hide Wire, Splits;
    assert ([x] + items)[1..] == items;
  }

  // What a turn leads to, and what it reports.
  ghost predicate Turns(c: string, phase: Phase, pending: seq<Item>, future: string,
                        r: seq<Report>, c': string, phase': Phase, pending': seq<Item>) {
    && Awaiting(c', phase', future, pending') && |c'| < |c|
    && Goes(phase, pending, r, phase', pending', |future|)
    && Drain(c, Begun(phase)) == Prepend(r, Drain(c', Begun(phase')))
  }

  // The CR LF in front of an item is dropped.
  lemma OpeningTaken(c: string, future: string, pending: seq<Item>)
    requires Awaiting(c, Between, future, pending) && |c| >= 2
    ensures pending != [] && Turns(c, Between, pending, future, [], c[2..], Within(pending[0]), pending[1..])
  {
    hide ItemOk, Drain, NextResult, Wire, Clear, Text, Tail;
    WireOpens(pending);
    var x := pending[0];
    SplitDue(c, future, CRLF, Text(x) + Tail(x) + Wire(pending[1..]));
    assert Text(x) + Tail(x) + Wire(pending[1..]) == Text(x) + (Tail(x) + Wire(pending[1..]));
    NextAfterOpening(c);
    DrainSkips(c, false, c[2..], true);
    assert [x] + pending[1..] == pending;
    if pending[1..] != [] {
      assert pending[1..][|pending[1..]| - 1] == pending[|pending| - 1];
    }
  }

  lemma DrainSkips(c: string, started: bool, c': string, started': bool)
    requires NextResult(c, started) == NextResult(c', started')
    ensures Drain(c, started) == Prepend([], Drain(c', started'))
  {
    hide NextResult;
    var d := Drain(c', started');
    assert [] + d.reports == d.reports;
  }

  // What stands in front of an opening CR LF, an echo say, is skipped up to its CR; without
  // one all of it goes.
  lemma GarbageSkipped(g: string, rest: string)
    requires 2 <= |g| && g[0] != '\n' && forall i :: 0 <= i < |g| ==> g[i] != '\r'
    ensures NextResult(g + "\r" + rest, false) == NextResult(rest, false)
    ensures NextResult(g, false) == Step(Wait, "", false)
  {
    hide HeadOf, FirstMatch;
    var c := g + "\r" + rest;
    LineEndAt(c, 0);
    LineEndAt(g, 0);
    assert c[0] == g[0] && c[|g|] == '\r';
    assert FirstIndex(c, '\r') == |g| && FirstIndex(g, '\r') == |g|;
    assert c[|g| + 1..] == rest && g[|g|..] == "";
  }

  lemma NextAfterOpening(c: string)
    requires |c| >= 2 && c[..2] == CRLF
    ensures NextResult(c, false) == NextResult(c[2..], true)
  {
    hide HeadOf, FirstMatch, FirstIndex;
    assert c[0] == c[..2][0] && c[1] == c[..2][1];
    LineEndAt(c, 0);
  }

  // The LF a notice leaves is dropped.
  lemma EndingTaken(c: string, future: string, pending: seq<Item>)
    requires Awaiting(c, Ending, future, pending) && |c| >= 2
    ensures Turns(c, Ending, pending, future, [], c[1..], Between, pending)
  {
    hide ItemOk, Drain, NextResult, Wire, Clear, Text, Tail;
    SplitDue(c, future, "\n", Wire(pending));
    WireOpens(pending);
    NextAfterLf(c);
    DrainSkips(c, false, c[1..], false);
  }

  lemma NextAfterLf(c: string)
    requires |c| >= 2 && c[0] == '\n'
    ensures NextResult(c, false) == NextResult(c[1..], false)
  {
    hide HeadOf, FirstMatch, FirstIndex;
    LineEndAt(c, 0);
  }

  // The framer finds an item that is there whole.
  lemma ItemFound(x: Item, more: string)
    requires ItemOk(x) && !x.Spaced?
    ensures var c := Text(x) + more;
      var taken := Taken(Classify(c), |ReportOf(x).text| + 1);
      && NextResult(c, true) == Step(Found(|ReportOf(x).text| + 1), c, false)
      && Report(Classify(c), c[..|ReportOf(x).text|]) == ReportOf(x)
      && taken == |Text(x)| && c[taken..] == more
  {
    hide Classify, PlainBody, NextResult;
    match x {
      case Line(b) =>
        FoundOnWhole(b, more);
        ClassifyOnBody(b, more);
        assert b + CRLF + more == Text(x) + more;
      case Ask => PromptFound(more);
      case Notice(code) => NoticeFound(code, more);
    }
  }

  function PhaseAfter(x: Item): Phase {
    if x.Notice? then Ending else Between
  }

  lemma GoesReported(x: Item, pending: seq<Item>, toCome: nat)
    requires !x.Spaced?
    ensures Goes(Within(x), pending, [ReportOf(x)], PhaseAfter(x), pending, toCome)
  {
    hide Wire, Clear, Text, Classify, ReportOf, Short;
    forall n: nat
      ensures Clear(pending, n) <==> Clear([x] + pending, n)
    {
      ClearCons(x, pending, n);
    }
    forall n: nat
      ensures Short([x] + pending, n) <==> |Text(x)| <= n && Short(pending, n)
    {
      ShortCons(x, pending, n);
    }
    assert ReportsOf([x] + pending) == [ReportOf(x)] + ReportsOf(pending);
  }

  lemma ShortCons(x: Item, pending: seq<Item>, n: nat)
    ensures Short([x] + pending, n) <==> |Text(x)| <= n && Short(pending, n)
  {
    hide Text;
    var all := [x] + pending;
    assert all[0] == x && forall k :: 0 <= k < |pending| ==> all[k + 1] == pending[k];
    if Short(all, n) {
      forall k | 0 <= k < |pending|
        ensures |Text(pending[k])| <= n
      {
        assert |Text(all[k + 1])| <= n;
      }
    }
  }

  lemma OkTail(x: Item, pending: seq<Item>)
    requires AllOk([x] + pending)
    ensures ItemOk(x) && AllOk(pending)
  {
    assert ([x] + pending)[0] == x;
    assert forall k :: 0 <= k < |pending| ==> pending[k] == ([x] + pending)[k + 1];
  }

  // It is reported, and the rest follows.
  lemma Reported(c: string, x: Item, future: string, pending: seq<Item>)
    requires Awaiting(c, Within(x), future, pending) && !x.Spaced? && |c| >= |Text(x)|
    ensures Turns(c, Within(x), pending, future, [ReportOf(x)], c[|Text(x)|..], PhaseAfter(x), pending)
  {
    hide ItemOk, AllOk, NextResult, Wire, Clear, Classify, Drain, Goes, ReportOf;
    OkTail(x, pending);
    var more := c[|Text(x)|..];
    assert 0 < |Text(x)|;
    SplitDue(c, future, Text(x), Tail(x) + Wire(pending));
    TailDue(x, pending);
    hide Text, Tail, Due;
    DrainReports(c, x, more);
    GoesReported(x, pending, |future|);
  }

  lemma TailDue(x: Item, pending: seq<Item>)
    ensures Tail(x) + Wire(pending) == Due(PhaseAfter(x), pending)
  {
    hide Wire;
  }

  lemma DrainReports(c: string, x: Item, more: string)
    requires c == Text(x) + more && ItemOk(x) && !x.Spaced?
    ensures Drain(c, true) == Prepend([ReportOf(x)], Drain(more, false))
  {
    hide ItemOk, NextResult, Classify, Text;
    ItemFound(x, more);
  }

  lemma TextsShorten(b: string)
    ensures |Text(Line(b))| <= |Text(Spaced(b))|
  {
  }

  lemma GoesStripped(b: string, pending: seq<Item>, toCome: nat)
    requires toCome + 2 + IdLength(b) <= |Text(Spaced(b))| + |Wire(pending)|
    ensures Goes(Within(Spaced(b)), pending, [], Within(Line(b)), pending, toCome)
  {
    TextsShorten(b);
    hide Wire, Clear, Classify, IdLength, Text, Short;
    var x, y := Spaced(b), Line(b);
    forall n: nat | n <= toCome
      ensures Clear([y] + pending, n) <==> Clear([x] + pending, n)
    {
      ClearCons(x, pending, n);
      ClearCons(y, pending, n);
    }
    forall n: nat
      ensures Short([x] + pending, n) ==> Short([y] + pending, n)
    {
      ShortCons(x, pending, n);
      ShortCons(y, pending, n);
    }
    assert ReportsOf([x] + pending) == [ReportOf(x)] + ReportsOf(pending);
    assert ReportsOf([y] + pending) == [ReportOf(y)] + ReportsOf(pending);
    assert [] + ReportsOf([y] + pending) == ReportsOf([y] + pending);
  }

  // The second CR LF in front of an item is dropped.
  lemma Stripped(c: string, b: string, future: string, pending: seq<Item>)
    requires Awaiting(c, Within(Spaced(b)), future, pending) && |c| >= 2 + IdLength(b)
    ensures Turns(c, Within(Spaced(b)), pending, future, [], c[2..], Within(Line(b)), pending)
  {
    hide NextResult, Wire, Clear, Classify, Drain, PlainBody, StartsWith, IdLength, Goes, AllOk;
    var x, y := Spaced(b), Line(b);
    OkTail(x, pending);
    OkCons(y, pending);
    StrippedDue(b, pending);
    SplitDue(c, future, Text(x), Tail(x) + Wire(pending));
    SpacedTaken(c, b);
    DrainSkips(c, true, c[2..], true);
    SplitDue(c, future, CRLF, Due(Within(y), pending));
    assert |c| + |future| == |c + future| == |Text(x)| + |Wire(pending)|;
    GoesStripped(b, pending, |future|);
  }

  lemma OkCons(x: Item, pending: seq<Item>)
    requires ItemOk(x) && AllOk(pending)
    ensures AllOk([x] + pending)
  {
  }

  lemma StrippedDue(b: string, pending: seq<Item>)
    ensures Due(Within(Spaced(b)), pending) == CRLF + Due(Within(Line(b)), pending)
  {
    hide Wire;
    var rest := Tail(Line(b)) + Wire(pending);
    assert Due(Within(Spaced(b)), pending) == CRLF + b + CRLF + rest;
    BracketsMove(CRLF, b, CRLF, rest);
  }

  lemma BracketsMove(x: string, y: string, z: string, rest: string)
    ensures x + y + z + rest == x + (y + z + rest)
  {
  }

  // ------------------------------------------------------------------
  // A whole drain.
  // ------------------------------------------------------------------

  // A turn, then the rest of the drain.
  lemma DrainsOn(c: string, phase: Phase, pending: seq<Item>, future: string, r: seq<Report>, c1: string,
                 phase1: Phase, pending1: seq<Item>, phase2: Phase, pending2: seq<Item>)
    requires Turns(c, phase, pending, future, r, c1, phase1, pending1)
    requires Drains(Drain(c1, Begun(phase1)), phase1, pending1, future, phase2, pending2)
    ensures Drains(Drain(c, Begun(phase)), phase, pending, future, phase2, pending2)
  {
    hide Awaiting, Clear, Drain, Starved, Remains, ReportsOf, Left;
    var d := Drain(c1, Begun(phase1));
    var due, due1 := ReportsOf(Left(phase, pending)), ReportsOf(Left(phase1, pending1));
    assert Clear(Left(phase1, pending1), |future|) <==> Clear(Left(phase, pending), |future|);
    if Clear(Left(phase, pending), |future|) {
      assert r + d.reports + ReportsOf(Left(phase2, pending2)) == r + (d.reports + ReportsOf(Left(phase2, pending2)));
    } else {
      SpoiltLater(r, d.reports, due1);
    }
  }

  lemma SpoiltLater(r: seq<Report>, reports: seq<Report>, due: seq<Report>)
    requires Spoilt(reports, due)
    ensures Spoilt(r + reports, r + due)
  {
    var i :| 0 <= i < |reports| && i < |due| && reports[i] != due[i];
    assert (r + reports)[|r| + i] == reports[i] && (r + due)[|r| + i] == due[i];
  }

  // Nothing to do: nothing is split, and all stays.
  lemma DrainWaits(c: string, phase: Phase, pending: seq<Item>, future: string)
    requires Awaiting(c, phase, future, pending) && Starved(c, phase)
    ensures Drains(Drain(c, Begun(phase)), phase, pending, future, phase, pending)
  {
    NextWaits(c, phase, pending, future);
    StarvedClear(c, phase, pending, future);
    hide NextResult, Clear, Awaiting, Starved, Classify, Taken, Dropped, ReportsOf, Left, Remains;
    assert [] + ReportsOf(Left(phase, pending)) == ReportsOf(Left(phase, pending));
  }

  lemma NextWaits(c: string, phase: Phase, pending: seq<Item>, future: string)
    requires Awaiting(c, phase, future, pending) && Starved(c, phase)
    ensures NextResult(c, Begun(phase)) == Step(Wait, c, Begun(phase))
  {
    hide ItemOk, HeadOf, FirstMatch, Wire;
    if phase.Within? {
      assert ItemOk(Left(phase, pending)[0]);
      if c != [] {
        SplitDue(c, future, Text(phase.x), Tail(phase.x) + Wire(pending));
        NeededFits(phase.x);
        hide Text, NextResult;
        WaitOnPart(c, phase.x);
      }
    } else {
      LineEndAt(c, 0);
    }
  }

  lemma NeededFits(x: Item)
    ensures Needed(x) <= |Text(x)|
  {
  }

  lemma StarvedClear(c: string, phase: Phase, pending: seq<Item>, future: string)
    requires Awaiting(c, phase, future, pending) && Starved(c, phase)
    ensures Clear(Left(phase, pending), |future|)
  {
    hide Wire, Clear, AllOk, IdLength;
    assert |c + future| == |c| + |future|;
    NotBegunClear(pending, |future|);
    if phase.Within? {
      NeededFits(phase.x);
      ClearCons(phase.x, pending, |future|);
    }
  }

  // Split there, the item is not what is reported.
  lemma DrainSpoils(c: string, b: string, future: string, pending: seq<Item>)
    requires Awaiting(c, Within(Spaced(b)), future, pending) && 2 <= |c| < 2 + IdLength(b)
    ensures var phase := Within(Spaced(b));
      Drains(Drain(c, true), phase, pending, future, phase, pending)
  {
    hide NextResult, Wire, Clear, Classify, Drain, StartsWith, IdLength, AllOk, ReportsOf, PlainBody;
    var x := Spaced(b);
    OkTail(x, pending);
    SplitDue(c, future, Text(x), Tail(x) + Wire(pending));
    SpacedSplit(c, b);
    EmptyFirst(c);
    assert |c| + |future| == |c + future| == |Text(x)| + |Wire(pending)|;
    ClearCons(x, pending, |future|);
    var due := ReportsOf([x] + pending);
    BodyThere(b);
    FirstDue(x, pending);
    assert Drain(c, true).reports[0] != due[0];
  }

  lemma FirstDue(x: Item, pending: seq<Item>)
    ensures ReportsOf([x] + pending)[0] == ReportOf(x)
  {
  }

  lemma BodyThere(b: string)
    requires PlainBody(b)
    ensures b != ""
  {
  }

  lemma EmptyFirst(c: string)
    requires NextResult(c, true) == Step(Found(1), c, false)
    ensures Drain(c, true).reports != [] && Drain(c, true).reports[0].text == ""
  {
    hide NextResult, Classify, Taken;
  }

  // Whatever is in the buffer, a drain reports the items that are there whole and leaves
  // less than the next one, exactly if no item is split where the buffer ends.
  lemma {:induction false} DrainServes(c: string, phase: Phase, future: string, pending: seq<Item>)
    returns (phase': Phase, pending': seq<Item>)
    requires Awaiting(c, phase, future, pending)
    ensures Drains(Drain(c, Begun(phase)), phase, pending, future, phase', pending')
    decreases |c|
  {
    hide Awaiting, Drain, Drains, Turns, IdLength, Text;
    phase', pending' := phase, pending;
    if Starved(c, phase) {
      DrainWaits(c, phase, pending, future);
    } else {
      match phase {
        case Between =>
          OpeningTaken(c, future, pending);
          phase', pending' := DrainTurned(c, phase, future, pending, [], c[2..], Within(pending[0]), pending[1..]);
        case Ending =>
          EndingTaken(c, future, pending);
          phase', pending' := DrainTurned(c, phase, future, pending, [], c[1..], Between, pending);
        case Within(x) =>
          if !x.Spaced? {
            Reported(c, x, future, pending);
            phase', pending' :=
              DrainTurned(c, phase, future, pending, [ReportOf(x)], c[|Text(x)|..], PhaseAfter(x), pending);
          } else if |c| < 2 + IdLength(x.body) {
            DrainSpoils(c, x.body, future, pending);
          } else {
            Stripped(c, x.body, future, pending);
            phase', pending' := DrainTurned(c, phase, future, pending, [], c[2..], Within(Line(x.body)), pending);
          }
      }
    }
  }

  // A turn was made; the rest of the drain follows.
  lemma {:induction false} DrainTurned(c: string, phase: Phase, future: string, pending: seq<Item>, r: seq<Report>,
                                       c1: string, phase1: Phase, pending1: seq<Item>)
    returns (phase2: Phase, pending2: seq<Item>)
    requires Turns(c, phase, pending, future, r, c1, phase1, pending1)
    ensures Drains(Drain(c, Begun(phase)), phase, pending, future, phase2, pending2)
    decreases |c|, 0
  {
    hide Goes, Awaiting, Drain, Drains;
    assert Awaiting(c1, phase1, future, pending1) && |c1| < |c|;
    phase2, pending2 := DrainServes(c1, phase1, future, pending1);
    DrainsOn(c, phase, pending, future, r, c1, phase1, pending1, phase2, pending2);
  }

  // ------------------------------------------------------------------
  // The whole stream.
  // ------------------------------------------------------------------

  function Concat(chunks: seq<string>): string {
    if chunks == [] then [] else chunks[0] + Concat(chunks[1..])
  }

  // The monitor over successive reads: each read is added to what is left, and the
  // buffer is drained.
  function Monitor(c: string, started: bool, chunks: seq<string>): Drained
    decreases chunks
  {
    if chunks == [] then Drained([], c, started, false)
    else
      var d := Drain(c + chunks[0], started);
      if d.special then d else Prepend(d.reports, Monitor(d.rest, d.started, chunks[1..]))
  }

  // No read ends inside the prefix of an item that stands behind a second CR LF.
  ghost predicate CutWell(items: seq<Item>, chunks: seq<string>, later: nat)
    decreases chunks
  {
    chunks != [] ==> Clear(items, |Concat(chunks[1..])| + later) && CutWell(items, chunks[1..], later)
  }

  // What the monitor leaves after a number of reads.
  ghost predicate Serves(d: Drained, phase: Phase, pending: seq<Item>, future: string, chunks: seq<string>,
                         phase': Phase, pending': seq<Item>) {
    if CutWell(Left(phase, pending), chunks, |future|) then
      && !d.special && d.started == Begun(phase')
      && Awaiting(d.rest, phase', future, pending') && Starved(d.rest, phase')
      && Goes(phase, pending, d.reports, phase', pending', |future|)
    else Spoilt(d.reports, ReportsOf(Left(phase, pending)))
  }

  // Whatever has been read so far: the reports are the first ones due, and the buffer holds
  // less than the next item, exactly if the reads were cut well.
  lemma {:induction false} MonitorServes(c: string, phase: Phase, chunks: seq<string>, future: string,
                                         pending: seq<Item>)
    returns (phase': Phase, pending': seq<Item>)
    requires Awaiting(c, phase, Concat(chunks) + future, pending) && Starved(c, phase)
    ensures Serves(Monitor(c, Begun(phase), chunks), phase, pending, future, chunks, phase', pending')
    decreases chunks
  {
    hide Drain, Wire, Concat, Clear, Goes, Awaiting, Starved, Left;
    phase', pending' := phase, pending;
    if chunks == [] {
      NoChunk(future);
      GoesNowhere(phase, pending, |future|);
    } else {
      var later := Concat(chunks[1..]) + future;
      NextChunk(c, chunks, future);
      AwaitsNext(c, chunks, future, phase, pending);
      var phase1, pending1 := DrainServes(c + chunks[0], phase, later, pending);
      var d := Drain(c + chunks[0], Begun(phase));
      if Clear(Left(phase, pending), |later|) {
        phase', pending' := MonitorServes(d.rest, phase1, chunks[1..], future, pending1);
        ServedOn(d, phase, pending, future, chunks, phase1, pending1, phase', pending');
      } else if !d.special {
        SpoiltMore(d.reports, Monitor(d.rest, d.started, chunks[1..]).reports, ReportsOf(Left(phase, pending)));
      }
    }
  }

  lemma AwaitsNext(c: string, chunks: seq<string>, future: string, phase: Phase, pending: seq<Item>)
    requires chunks != [] && Awaiting(c, phase, Concat(chunks) + future, pending)
    ensures Awaiting(c + chunks[0], phase, Concat(chunks[1..]) + future, pending)
  {
    hide Concat, AllOk, Due;
    NextChunk(c, chunks, future);
  }

  lemma SpoiltMore(r: seq<Report>, more: seq<Report>, due: seq<Report>)
    requires Spoilt(r, due)
    ensures Spoilt(r + more, due)
  {
    var i :| 0 <= i < |r| && i < |due| && r[i] != due[i];
    assert (r + more)[i] == r[i];
  }

  lemma GoesNowhere(phase: Phase, pending: seq<Item>, toCome: nat)
    ensures Goes(phase, pending, [], phase, pending, toCome)
  {
    assert [] + ReportsOf(Left(phase, pending)) == ReportsOf(Left(phase, pending));
  }

  // Cuts do the same harm to the items left as to all.
  lemma {:induction false} CutsCarry(phase: Phase, pending: seq<Item>, r: seq<Report>, phase1: Phase,
                                     pending1: seq<Item>, toCome: nat, chunks: seq<string>, later: nat)
    requires Goes(phase, pending, r, phase1, pending1, toCome) && |Concat(chunks)| + later <= toCome
    ensures CutWell(Left(phase1, pending1), chunks, later) <==> CutWell(Left(phase, pending), chunks, later)
    decreases chunks
  {
    hide Clear, Left, Remains, ReportsOf;
    if chunks != [] {
      assert |Concat(chunks)| == |chunks[0]| + |Concat(chunks[1..])|;
      CutsCarry(phase, pending, r, phase1, pending1, toCome, chunks[1..], later);
    }
  }

  lemma ServedOn(d: Drained, phase: Phase, pending: seq<Item>, future: string, chunks: seq<string>, phase1: Phase,
                 pending1: seq<Item>, phase2: Phase, pending2: seq<Item>)
    requires chunks != [] && !d.special && Clear(Left(phase, pending), |Concat(chunks[1..]) + future|)
    requires Goes(phase, pending, d.reports, phase1, pending1, |Concat(chunks[1..]) + future|)
    requires Serves(Monitor(d.rest, d.started, chunks[1..]), phase1, pending1, future, chunks[1..], phase2, pending2)
    ensures Serves(Prepend(d.reports, Monitor(d.rest, d.started, chunks[1..])), phase, pending, future, chunks,
                   phase2, pending2)
  {
    hide Awaiting, Clear, Starved, Remains, ReportsOf, Left, Monitor, Concat;
    var e := Monitor(d.rest, d.started, chunks[1..]);
    CutsCarry(phase, pending, d.reports, phase1, pending1, |Concat(chunks[1..]) + future|, chunks[1..], |future|);
    hide CutWell;
    CutWellOpens(Left(phase, pending), chunks, future);
    if CutWell(Left(phase1, pending1), chunks[1..], |future|) {
      var last := ReportsOf(Left(phase2, pending2));
      assert d.reports + e.reports + last == d.reports + (e.reports + last);
    } else {
      SpoiltLater(d.reports, e.reports, ReportsOf(Left(phase1, pending1)));
    }
  }

  lemma CutWellOpens(items: seq<Item>, chunks: seq<string>, future: string)
    requires chunks != []
    ensures CutWell(items, chunks, |future|) <==>
      Clear(items, |Concat(chunks[1..]) + future|) && CutWell(items, chunks[1..], |future|)
  {
    hide Clear, Concat;
  }

  lemma NoChunk(future: string)
    ensures Concat([]) + future == future
  {
  }

  lemma NextChunk(c: string, chunks: seq<string>, future: string)
    requires chunks != []
    ensures c + (Concat(chunks) + future) == c + chunks[0] + (Concat(chunks[1..]) + future)
  {
    Associates(c, chunks[0], Concat(chunks[1..]), future);
  }

  lemma Associates(c: string, x: string, y: string, z: string)
    ensures c + (x + y + z) == c + x + (y + z)
  {
  }

  // When nothing more is to come, nothing is left but what the last item leaves.
  lemma AllServed(c: string, phase: Phase, pending: seq<Item>)
    requires Awaiting(c, phase, [], pending) && Starved(c, phase)
    ensures pending == [] && !phase.Within? && c == Remains(phase, pending)
  {
    assert c + [] == c;
    WireOpens(pending);
    hide Wire, AllOk;
    if phase.Within? {
      NeededFits(phase.x);
    }
  }

  function LastTail(items: seq<Item>): string {
    if items == [] then "" else Tail(items[|items| - 1])
  }

  // For every stream of items and every way it is cut into reads, the monitor reports
  // exactly the items, in order, if and only if no read ends inside the prefix of an item
  // that stands behind a second CR LF; nothing is left then but the LF of a last notice.
  lemma EveryResultReported(items: seq<Item>, chunks: seq<string>)
    requires AllOk(items) && Concat(chunks) == Wire(items)
    ensures CutWell(items, chunks, 0) ==>
              Monitor([], false, chunks) == Drained(ReportsOf(items), LastTail(items), false, false)
    ensures CutWell(items, chunks, 0) <==> Monitor([], false, chunks).reports == ReportsOf(items)
  {
    hide AllOk, Monitor, Wire, CutWell, ReportsOf, Concat;
    assert [] + (Concat(chunks) + []) == Wire(items);
    assert Left(Between, items) == items;
    var phase, pending := MonitorServes([], Between, chunks, [], items);
    if CutWell(items, chunks, 0) {
      var d := Monitor([], false, chunks);
      AllServed(d.rest, phase, pending);
      NoneDue(phase, pending);
      assert d.reports + [] == d.reports;
    }
  }

  lemma NoneDue(phase: Phase, pending: seq<Item>)
    requires pending == [] && !phase.Within?
    ensures ReportsOf(Left(phase, pending)) == []
  {
  }

  // Where no item stands behind a second CR LF any cut will do.
  lemma {:induction false} AnyCutWell(items: seq<Item>, chunks: seq<string>, later: nat)
    requires forall k :: 0 <= k < |items| ==> !items[k].Spaced?
    ensures CutWell(items, chunks, later)
    decreases chunks
  {
    hide Clear;
    if chunks != [] {
      NoneSplit(items, |Concat(chunks[1..])| + later);
      AnyCutWell(items, chunks[1..], later);
    }
  }

  lemma {:induction false} NoneSplit(items: seq<Item>, toCome: nat)
    requires forall k :: 0 <= k < |items| ==> !items[k].Spaced?
    ensures Clear(items, toCome)
  {
    if items != [] {
      NoneSplit(items[1..], toCome);
    }
  }

  // ------------------------------------------------------------------
  // The same on the ring.
  // ------------------------------------------------------------------

  // Every read finds room: the buffer is not full, and what is read fits.
  ghost predicate Fits(size: nat, c: string, started: bool, chunks: seq<string>)
    decreases chunks
  {
    chunks != [] ==>
      && |c| < size && |c| + |chunks[0]| <= size
      && var d := Drain(c + chunks[0], started);
         Fits(size, d.rest, d.started, chunks[1..])
  }

  // A buffer that holds any item with any read is enough.
  ghost predicate Roomy(size: nat, chunks: seq<string>, items: seq<Item>, longest: nat) {
    2 <= longest && Short(items, longest) && forall i :: 0 <= i < |chunks| ==> |chunks[i]| + longest <= size
  }

  lemma {:induction false} RoomyFits(size: nat, c: string, phase: Phase, chunks: seq<string>, pending: seq<Item>,
                                     longest: nat)
    requires Awaiting(c, phase, Concat(chunks), pending) && Starved(c, phase)
    requires Roomy(size, chunks, Left(phase, pending), longest) && CutWell(Left(phase, pending), chunks, 0)
    ensures Fits(size, c, Begun(phase), chunks)
    decreases chunks
  {
    hide Drain, Wire, Concat, Clear, Awaiting, Starved, ReportsOf, Left, Short, Remains;
    if chunks != [] {
      var future := Concat(chunks[1..]);
      assert Concat(chunks) + [] == Concat(chunks) && future + [] == future;
      AwaitsNext(c, chunks, [], phase, pending);
      StarvedShort(c, phase, pending, longest);
      assert |chunks[0]| + longest <= size;
      var phase1, pending1 := DrainServes(c + chunks[0], phase, future, pending);
      var d := Drain(c + chunks[0], Begun(phase));
      CutsCarry(phase, pending, d.reports, phase1, pending1, |future|, chunks[1..], 0);
      assert forall i :: 0 <= i < |chunks[1..]| ==> chunks[1..][i] == chunks[i + 1];
      RoomyFits(size, d.rest, phase1, chunks[1..], pending1, longest);
    }
  }

  lemma StarvedShort(c: string, phase: Phase, pending: seq<Item>, longest: nat)
    requires Starved(c, phase) && Short(Left(phase, pending), longest) && 2 <= longest
    ensures |c| < longest
  {
    if phase.Within? {
      NeededFits(phase.x);
      assert Left(phase, pending)[0] == phase.x;
    }
  }

  // The monitor's outer loop on a ring in which every read finds room.
  method MonitorReads(rb: RingBuffer<char>, started: bool, chunks: seq<string>, memory: string, cds: (int, Iov, Iov))
    returns (reports: seq<Report>, started': bool)
    requires rb.Valid() && 12 <= |memory| && memory[..7] == TERMINATOR
    requires Fits(rb.size, rb.Contents(), started, chunks) && !Monitor(rb.Contents(), started, chunks).special
    modifies rb, rb.buffer
    ensures rb.Valid()
    ensures Monitor(old(rb.Contents()), started, chunks) == Drained(reports, rb.Contents(), started', false)
  {
    hide Drain, View, Monitor, Fits;
    reports, started' := [], started;
    ghost var m := Monitor(rb.Contents(), started, chunks);
    var i := 0;
    assert chunks[0..] == chunks && Prepend([], m) == m;
    while i < |chunks|
      invariant i <= |chunks| && rb.Valid() && !m.special
      invariant Fits(rb.size, rb.Contents(), started', chunks[i..])
      invariant m == Prepend(reports, Monitor(rb.Contents(), started', chunks[i..]))
    {
      MonitorNext(rb.size, rb.Contents(), started', chunks, i, reports);
      var ok, more;
      ok, more, started' := OnReadable(rb, started', chunks[i], memory, cds);
      reports := reports + more;
      i := i + 1;
    }
    MonitorDone(rb.Contents(), started', chunks[i..], reports);
  }

  lemma MonitorNext(size: nat, c: string, started: bool, chunks: seq<string>, i: nat, reports: seq<Report>)
    requires i < |chunks| && Fits(size, c, started, chunks[i..]) && !Monitor(c, started, chunks[i..]).special
    ensures |c| < size && |c| + |chunks[i]| <= size
    ensures var d := Drain(c + chunks[i], started);
      && !d.special && Fits(size, d.rest, d.started, chunks[i + 1..])
      && Prepend(reports, Monitor(c, started, chunks[i..]))
         == Prepend(reports + d.reports, Monitor(d.rest, d.started, chunks[i + 1..]))
  {
    hide Drain;
    assert chunks[i..][0] == chunks[i] && chunks[i..][1..] == chunks[i + 1..];
    var d := Drain(c + chunks[i], started);
    var e := Monitor(d.rest, d.started, chunks[i + 1..]);
    assert reports + (d.reports + e.reports) == reports + d.reports + e.reports;
  }

  lemma MonitorDone(c: string, started: bool, chunks: seq<string>, reports: seq<Report>)
    requires chunks == []
    ensures Prepend(reports, Monitor(c, started, chunks)) == Drained(reports, c, started, false)
  {
    assert reports + [] == reports;
  }

  // So on the ring: every item is reported, in order, and the ring is empty but for the LF
  // of a last notice.
  method MonitorStream(rb: RingBuffer<char>, chunks: seq<string>, memory: string, cds: (int, Iov, Iov),
      ghost items: seq<Item>, ghost longest: nat)
    returns (reports: seq<Report>, started: bool)
    requires rb.Valid() && rb.used == 0 && 12 <= |memory| && memory[..7] == TERMINATOR
    requires AllOk(items) && Concat(chunks) == Wire(items) && CutWell(items, chunks, 0)
    requires Fits(rb.size, [], false, chunks) || Roomy(rb.size, chunks, items, longest)
    modifies rb, rb.buffer
    ensures rb.Valid() && reports == ReportsOf(items) && rb.Contents() == LastTail(items) && !started
  {
    hide Drain, AllOk, View, Wire, Concat, Monitor, CutWell, Short;
    assert rb.Contents() == [];
    EveryResultReported(items, chunks);
    if !Fits(rb.size, [], false, chunks) {
      assert [] + Concat(chunks) == Wire(items) && Left(Between, items) == items;
      RoomyFits(rb.size, [], Between, chunks, items, longest);
    }
    reports, started := MonitorReads(rb, false, chunks, memory, cds);
  }
}
