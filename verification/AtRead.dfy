// The reader of device responses: at_read.c cuts the byte stream into results and
// classifies them by their first characters, do_monitor_phone runs it after each read.
module AtRead {
  import opened RingBuffers

  datatype Res =
    | RES_UNKNOWN | RES_BOOT | RES_BUSY | RES_CEND | RES_CMGR | RES_CMS_ERROR | RES_CMTI | RES_CNUM
    | RES_CONF | RES_CONN | RES_COPS | RES_SPN | RES_SYSINFO | RES_CPIN | RES_CREG | RES_CSQ | RES_CSSI
    | RES_CSSU | RES_CUSD | RES_ERROR | RES_MODE | RES_NO_CARRIER | RES_NO_DIALTONE | RES_OK | RES_ORIG
    | RES_RING | RES_RSSI | RES_DSFLOWRPT | RES_SMMEMFULL | RES_SMS_PROMPT | RES_SRVST | RES_SIMST
    | RES_CFUN_V | RES_ICCID | RES_SN | RES_CMGS | RES_CSCA | RES_CLCC | RES_CCWA | RES_CDS

  datatype Response = Response(res: Res, id: string)

  // at_responses_list from ids_first on: the first entry that matches decides.
  const RESPONSES_0: seq<Response> := [
    Response(RES_BOOT, "^BOOT:"), Response(RES_BUSY, "BUSY\r"), Response(RES_CEND, "^CEND:"),
    Response(RES_CMGR, "+CMGR:"), Response(RES_CMS_ERROR, "+CMS ERROR:"), Response(RES_CMTI, "+CMTI:")
  ]

  const RESPONSES_1: seq<Response> := [
    Response(RES_CNUM, "+CNUM:"), Response(RES_CONF, "^CONF:"), Response(RES_CONN, "^CONN:"),
    Response(RES_COPS, "+COPS:"), Response(RES_SPN, "^SPN:"), Response(RES_SYSINFO, "^SYSINFO:")
  ]

  const RESPONSES_2: seq<Response> := [
    Response(RES_CPIN, "+CPIN:"), Response(RES_CREG, "+CREG:"), Response(RES_CSQ, "+CSQ:"),
    Response(RES_CSSI, "+CSSI:"), Response(RES_CSSU, "+CSSU:"), Response(RES_CUSD, "+CUSD:")
  ]

  const RESPONSES_3: seq<Response> := [
    Response(RES_ERROR, "ERROR\r"), Response(RES_MODE, "^MODE:"), Response(RES_NO_CARRIER, "NO CARRIER\r"),
    Response(RES_NO_DIALTONE, "NO DIALTONE\r"), Response(RES_OK, "OK\r"), Response(RES_ORIG, "^ORIG:")
  ]

  const RESPONSES_4: seq<Response> := [
    Response(RES_RING, "RING\r"), Response(RES_RSSI, "^RSSI:"), Response(RES_DSFLOWRPT, "^DSFLOWRPT:"),
    Response(RES_SMMEMFULL, "^SMMEMFULL:"), Response(RES_SMS_PROMPT, "> "), Response(RES_SRVST, "^SRVST:")
  ]

  const RESPONSES_5: seq<Response> := [
    Response(RES_SIMST, "^SIMST:"), Response(RES_CFUN_V, "+CFUN:"), Response(RES_ICCID, "^ICCID:"),
    Response(RES_SN, "^SN:"), Response(RES_CMGS, "+CMGS:"), Response(RES_CMGS, "+CPMS:")
  ]

  const RESPONSES_6: seq<Response> := [
    Response(RES_CSCA, "+CSCA:"), Response(RES_CLCC, "+CLCC:"), Response(RES_CCWA, "+CCWA:"),
    Response(RES_CDS, "+CDS:")
  ]

  const RESPONSES_7: seq<Response> := [
    Response(RES_CNUM, "ERROR+CNUM:"), Response(RES_ERROR, "COMMAND NOT SUPPORT\r")
  ]

  const RESPONSES: seq<Response> :=
    RESPONSES_0 + RESPONSES_1 + RESPONSES_2 + RESPONSES_3 + RESPONSES_4 + RESPONSES_5 + RESPONSES_6 + RESPONSES_7

  const CRLF := "\r\n"

  predicate StartsWith(c: string, id: string) {
    id != [] && OccursAt(c, id, 0)
  }

  // ------------------------------------------------------------------
  // The reader on flat contents.
  // ------------------------------------------------------------------

  // What one call of at_read_result_iov comes to: nothing yet, a result of the
  // given length, or one of the prefixes whose end is searched elsewhere.
  datatype Outcome = Wait | Found(len: nat) | Special

  datatype Step = Step(outcome: Outcome, rest: string, started: bool)

  // How a result that has begun is treated, by its first characters.
  datatype Head = Cssi | Unwrapped | Prompt | Multiline | Cds | Plain

  function HeadOf(c: string): Head {
    if StartsWith(c, "+CSSI:") then Cssi
    else if StartsWith(c, "\r\n+CSSU:") || StartsWith(c, "\r\n+CMS ERROR:")
        || StartsWith(c, "\r\n+CMGS:") then Unwrapped
    else if StartsWith(c, "> ") then Prompt
    else if StartsWith(c, "+CMGR:") || StartsWith(c, "+CNUM:") || StartsWith(c, "ERROR+CNUM:")
        || StartsWith(c, "+CLCC:")
    then Multiline
    else if StartsWith(c, "+CDS:") then Cds
    else Plain
  }

  lemma HeadLength(c: string)
    ensures HeadOf(c) != Plain ==> 2 <= |c|
  {
  }

  // Each turn that does not answer consumes something.
  function NextResult(c: string, started: bool): (step: Step)
    ensures |step.rest| <= |c|
    ensures step.outcome.Found? ==> 1 <= step.outcome.len <= |step.rest| && !step.started
    decreases |c|
  {
    if c == [] then Step(Wait, c, started)
    else if !started then
      if StartsWith(c, CRLF) then NextResult(c[2..], true)
      else if |c| < 2 then Step(Wait, c, false)
      else if c[0] == '\n' then NextResult(c[1..], false)
      else
        var k := FirstIndex(c, '\r');
        NextResult(c[if k < |c| then k + 1 else |c|..], false)
    else
      HeadLength(c);
      match HeadOf(c)
      case Cssi => if |c| >= 8 then Step(Found(8), c, false) else Step(Wait, c, true)
      case Unwrapped => NextResult(c[2..], true)
      case Prompt => Step(Found(2), c, false)
      case Multiline => Step(Special, c, true)
      case Cds => Step(Special, c, true)
      case Plain =>
        var k := FirstMatch(c, CRLF);
        if k < |c| then Step(Found(k + 1), c, false) else Step(Wait, c, true)
  }

  // The first entry of the table whose id the contents start with.
  function Lookup(table: seq<Response>, c: string): Res {
    if table == [] then RES_UNKNOWN
    else if StartsWith(c, table[0].id) then table[0].res
    else Lookup(table[1..], c)
  }

  function Classify(c: string): Res {
    Lookup(RESPONSES, c)
  }

  // How much the classification takes out of the buffer.
  function Taken(res: Res, len: nat): nat {
    if res == RES_SMS_PROMPT then 2
    else if res == RES_CMGR then len + 7
    else if res == RES_CSSI then 8
    else len + 1
  }

  lemma StartsWithLf(c: string)
    requires c != []
    ensures StartsWith(c, "\n") <==> c[0] == '\n'
  {
    assert StartsWith(c, "\n") ==> c[0 + 0] == "\n"[0];
  }

  lemma MatchLeavesRoom(c: string, pat: string)
    ensures FirstMatch(c, pat) < |c| ==> FirstMatch(c, pat) + |pat| <= |c|
  {
  }

  function Dropped(c: string, n: nat): string {
    if n <= |c| then c[n..] else []
  }

  // ------------------------------------------------------------------
  // The reader on the ring.
  // ------------------------------------------------------------------

  // An answer on the ring, with contents c from position read on, that agrees with
  // the one on flat contents. Special results are searched elsewhere.
  predicate Answers(step: Step, c: string, read: nat, size: nat, n: int, v0: Iov, v1: Iov, started: bool) {
    && c == step.rest
    && match step.outcome
       case Wait => n == 0 && started == step.started
       case Found(len) => n != 0 && started == step.started && Covers(n, v0, v1, read, len, size)
       case Special => true
  }

  // The answer for a result with a search of its own, k being where its terminator is
  // found in the contents, or their length.
  predicate AnswersApart(step: Step, k: nat, read: nat, used: nat, size: nat, n: int, v0: Iov, v1: Iov,
      started: bool, cds: (int, Iov, Iov)) {
    step.outcome == Special ==>
      match HeadOf(step.rest)
      case Multiline => (n == 0 <==> k == used) && (n != 0 ==> Covers(n, v0, v1, read, k, size)) && started == (n == 0)
      case _ => (n, v0, v1) == cds && !started
  }

  // at_read_result_iov; *read_result is passed in and back. memory holds the
  // pattern of the multi-line responses and what follows it; cds is what the search
  // behind "+CDS:" answers.
  method ReadResultIov(rb: RingBuffer<char>, started: bool, memory: string, cds: (int, Iov, Iov))
    returns (n: int, v0: Iov, v1: Iov, started': bool)
    requires rb.Valid() && 12 <= |memory| && memory[..7] == TERMINATOR
    modifies rb
    ensures rb.Valid() && (rb.used == old(rb.used) ==> rb.read == old(rb.read))
    ensures Answers(NextResult(old(rb.Contents()), started), rb.Contents(), rb.read, rb.size, n, v0, v1, started')
    ensures AnswersApart(NextResult(old(rb.Contents()), started), MemSearch(rb.Front(), rb.Behind(), memory, 7),
                         rb.read, rb.used, rb.size, n, v0, v1, started', cds)
    decreases rb.used
  {
    hide OccursAt, FirstIndex, FirstMatch, View, HeadOf, MemSearch;
    n, v0, v1, started' := 0, Iov(0, 0), Iov(0, 0), started;
    ghost var c := rb.Contents();
    var s := rb.used;
    if s > 0 {
      StartsWithLf(c);
      if !started {
        var res := rb.Memcmp(CRLF);
        if res == 0 {
          var _ := rb.ReadUpd(2);
          n, v0, v1, started' := ReadResultIov(rb, true, memory, cds);
        } else if res > 0 {
          var lf := rb.Memcmp("\n");
          if lf == 0 {
            var _ := rb.ReadUpd(1);
            n, v0, v1, started' := ReadResultIov(rb, false, memory, cds);
          } else {
            var m, w0, w1 := rb.ReadUntilCharIov('\r');
            if m > 0 {
              s := w0.len + w1.len + 1;
            }
            var _ := rb.ReadUpd(s);
            n, v0, v1, started' := ReadResultIov(rb, false, memory, cds);
          }
        }
      } else {
        n, v0, v1, started' := ReadStarted(rb, memory, cds);
      }
    }
  }

  // The branch for a result that has begun.
  method ReadStarted(rb: RingBuffer<char>, memory: string, cds: (int, Iov, Iov))
    returns (n: int, v0: Iov, v1: Iov, started': bool)
    requires rb.Valid() && 12 <= |memory| && memory[..7] == TERMINATOR && rb.used > 0
    modifies rb
    ensures rb.Valid() && (rb.used == old(rb.used) ==> rb.read == old(rb.read))
    ensures Answers(NextResult(old(rb.Contents()), true), rb.Contents(), rb.read, rb.size, n, v0, v1, started')
    ensures AnswersApart(NextResult(old(rb.Contents()), true), MemSearch(rb.Front(), rb.Behind(), memory, 7),
                         rb.read, rb.used, rb.size, n, v0, v1, started', cds)
    decreases rb.used, 0
  {
    hide OccursAt, FirstIndex, FirstMatch, View, HeadOf, MemSearch;
    n, v0, v1, started' := 0, Iov(0, 0), Iov(0, 0), true;
    ghost var c := rb.Contents();
    MatchLeavesRoom(c, CRLF);
    HeadLength(c);
    var head := HeadAt(rb);
    match head {
      case Cssi =>
        n, v0, v1 := rb.ReadNIov(8);
        started' := n <= 0;
      case Unwrapped =>
        var _ := rb.ReadUpd(2);
        n, v0, v1, started' := ReadResultIov(rb, true, memory, cds);
      case Prompt =>
        started' := false;
        n, v0, v1 := rb.ReadNIov(2);
      case Multiline =>
        n, v0, v1 := rb.ReadUntilMemIov(memory, 7);
        started' := n <= 0;
      case Cds =>
        started' := false;
        n, v0, v1 := cds.0, cds.1, cds.2;
      case Plain =>
        PairSearchRight(rb.Front(), rb.Behind(), CRLF, 2);
        rb.TwoPieces();
        assert CRLF[..2] == CRLF;
        n, v0, v1 := rb.ReadUntilMemIov(CRLF, 2);
        if n > 0 {
          started' := false;
          var s := v0.len + v1.len + 1;
          n, v0, v1 := rb.ReadNIov(s);
        }
    }
  }

  // The tests of that branch, in order.
  method HeadAt(rb: RingBuffer<char>) returns (head: Head)
    requires rb.Valid()
    ensures head == HeadOf(rb.Contents())
  {
    hide OccursAt, View;
    head := Plain;
    var m := rb.Memcmp("+CSSI:");
    if m == 0 {
      return Cssi;
    }
    m := rb.Memcmp("\r\n+CSSU:");
    if m != 0 {
      m := rb.Memcmp("\r\n+CMS ERROR:");
    }
    if m != 0 {
      m := rb.Memcmp("\r\n+CMGS:");
    }
    if m == 0 {
      return Unwrapped;
    }
    m := rb.Memcmp("> ");
    if m == 0 {
      return Prompt;
    }
    m := rb.Memcmp("+CMGR:");
    if m != 0 {
      m := rb.Memcmp("+CNUM:");
    }
    if m != 0 {
      m := rb.Memcmp("ERROR+CNUM:");
    }
    if m != 0 {
      m := rb.Memcmp("+CLCC:");
    }
    if m == 0 {
      return Multiline;
    }
    m := rb.Memcmp("+CDS:");
    if m == 0 {
      return Cds;
    }
  }

  // The loop of at_read_result_classification.
  method LookupIn(rb: RingBuffer<char>, table: seq<Response>) returns (res: Res)
    requires rb.Valid()
    ensures res == Lookup(table, rb.Contents())
  {
    hide OccursAt, View;
    res := RES_UNKNOWN;
    var idx := 0;
    while idx < |table|
      invariant idx <= |table| && Lookup(table[idx..], rb.Contents()) == Lookup(table, rb.Contents())
    {
      var m := rb.Memcmp(table[idx].id);
      if m == 0 {
        return table[idx].res;
      }
      assert table[idx..][0] == table[idx] && table[idx..][1..] == table[idx + 1..];
      idx := idx + 1;
    }
  }

  // at_read_result_classification
  method ResultClassification(rb: RingBuffer<char>, len: nat) returns (res: Res)
    requires rb.Valid()
    modifies rb
    ensures rb.Valid()
    ensures res == Classify(old(rb.Contents()))
    ensures rb.Contents() == Dropped(old(rb.Contents()), Taken(res, len))
    ensures old(rb.used) > 0 ==> rb.used < old(rb.used)
  {
    hide Lookup, View;
    res := LookupIn(rb, RESPONSES);
    var _ := rb.ReadUpd(Taken(res, len));
  }

  // ------------------------------------------------------------------
  // The monitor: read what arrived, then report every result in it.
  // ------------------------------------------------------------------

  // What at_response gets: the class and the text without its last character.
  datatype Report = Report(res: Res, text: string)

  datatype Drained = Drained(reports: seq<Report>, rest: string, started: bool, special: bool)

  // All results in the contents, one after the other, until the reader has to wait
  // (or meets a result it does not frame itself).
  function Drain(c: string, started: bool): (d: Drained)
    ensures |d.rest| <= |c|
    decreases |c|
  {
    var step := NextResult(c, started);
    match step.outcome
    case Wait => Drained([], step.rest, step.started, false)
    case Special => Drained([], step.rest, step.started, true)
    case Found(len) =>
      var res := Classify(step.rest);
      var d := Drain(Dropped(step.rest, Taken(res, len)), step.started);
      d.(reports := [Report(res, step.rest[..len - 1])] + d.reports)
  }

  // at_read: readv fills the free part, round the end if need be. A full buffer is
  // an error.
  method ReadInto(rb: RingBuffer<char>, chunk: string) returns (n: int)
    requires rb.Valid() && |chunk| <= rb.Free()
    modifies rb, rb.buffer
    ensures rb.Valid()
    ensures n == if old(rb.Free()) == 0 then -1 else |chunk|
    ensures rb.Contents() == old(rb.Contents()) + chunk
  {
    hide View;
    var cnt, v0, v1 := rb.WriteIov();
    n := -1;
    if cnt > 0 {
      if |chunk| <= v0.len {
        rb.Combine(v0.base, chunk, Replace);
      } else {
        rb.CombineAround(v0.base, chunk, Replace);
      }
      n := |chunk|;
      OverlaidFromEnd(rb.buffer[..], old(rb.buffer[..]), rb.write, chunk, Replace);
      OverlaidAppends(rb.buffer[..], old(rb.buffer[..]), rb.read, rb.used, chunk);
      var _ := rb.WriteUpd(|chunk|);
    } else {
      assert chunk == [];
    }
  }

  // The body of the monitor's inner loop: classify the result and report it.
  method TakeOne(rb: RingBuffer<char>, cnt: int, v0: Iov, v1: Iov) returns (report: Report)
    requires rb.Valid() && 1 <= v0.len + v1.len <= rb.used && Covers(cnt, v0, v1, rb.read, v0.len + v1.len, rb.size)
    modifies rb
    ensures rb.Valid() && rb.used < old(rb.used)
    ensures var c, len := old(rb.Contents()), v0.len + v1.len;
      && report == Report(Classify(c), c[..len - 1])
      && rb.Contents() == Dropped(c, Taken(Classify(c), len))
  {
    hide View, Classify, Gather, Taken, Dropped;
    var len := v0.len + v1.len;
    ghost var c := rb.Contents();
    CoversPrefix(rb.buffer[..], rb.read, rb.used, cnt, v0, v1, len);
    var text := Gather(rb.buffer[..], cnt, v0, v1);
    assert text[..|text| - 1] == c[..len - 1];
    var res := ResultClassification(rb, len);
    report := Report(res, text[..|text| - 1]);
  }

  // The inner loop. Nothing is said of results the framer does not frame itself.
  method ReportAll(rb: RingBuffer<char>, started: bool, memory: string, cds: (int, Iov, Iov))
    returns (reports: seq<Report>, started': bool)
    requires rb.Valid() && 12 <= |memory| && memory[..7] == TERMINATOR
    requires !Drain(rb.Contents(), started).special
    modifies rb
    ensures rb.Valid()
    ensures Drain(old(rb.Contents()), started) == Drained(reports, rb.Contents(), started', false)
  {
    hide View, Drain, WithNext, NextResult, Classify, Taken, Dropped, AnswersApart, MemSearch, RingBuffer.Front,
        RingBuffer.Behind;
    reports := [];
    ghost var d := Drain(rb.Contents(), started);
    NextTurn([], rb.Contents(), started);
    var cnt, v0, v1;
    cnt, v0, v1, started' := ReadResultIov(rb, started, memory, cds);
    while cnt != 0
      invariant rb.Valid() && !d.special
      invariant cnt == 0 ==> d == Drained(reports, rb.Contents(), started', false)
      invariant cnt != 0 ==>
        && 1 <= v0.len + v1.len <= rb.used && Covers(cnt, v0, v1, rb.read, v0.len + v1.len, rb.size)
        && d == WithNext(reports, rb.Contents(), started', v0.len + v1.len)
      decreases rb.used
    {
      ghost var c, len := rb.Contents(), v0.len + v1.len;
      WithNextUnfolds(reports, c, started', len);
      var report := TakeOne(rb, cnt, v0, v1);
      reports := reports + [report];
      NextTurn(reports, rb.Contents(), started');
      cnt, v0, v1, started' := ReadResultIov(rb, started', memory, cds);
    }
  }

  // One turn of the outer loop: read once, then take out every result.
  method OnReadable(rb: RingBuffer<char>, started: bool, chunk: string, memory: string, cds: (int, Iov, Iov))
    returns (ok: bool, reports: seq<Report>, started': bool)
    requires rb.Valid() && |chunk| <= rb.Free() && 12 <= |memory| && memory[..7] == TERMINATOR
    requires !Drain(rb.Contents() + chunk, started).special
    modifies rb, rb.buffer
    ensures rb.Valid() && ok == (old(rb.Free()) > 0)
    ensures ok ==> Drain(old(rb.Contents()) + chunk, started) == Drained(reports, rb.Contents(), started', false)
  {
    hide View, Drain;
    reports, started' := [], started;
    var n := ReadInto(rb, chunk);
    ok := n >= 0;
    if ok {
      reports, started' := ReportAll(rb, started, memory, cds);
    }
  }

  // What draining comes to when a result of the given length stands at the front.
  function WithNext(reports: seq<Report>, c: string, started: bool, len: nat): Drained
    requires 1 <= len <= |c|
  {
    var res := Classify(c);
    Prepend(reports + [Report(res, c[..len - 1])], Drain(Dropped(c, Taken(res, len)), started))
  }

  function Prepend(reports: seq<Report>, d: Drained): Drained {
    d.(reports := reports + d.reports)
  }

  lemma WithNextUnfolds(reports: seq<Report>, c: string, started: bool, len: nat)
    requires 1 <= len <= |c|
    ensures WithNext(reports, c, started, len)
         == Prepend(reports + [Report(Classify(c), c[..len - 1])], Drain(Dropped(c, Taken(Classify(c), len)), started))
  {
  }

  // One call of the framer, seen from the whole drain.
  lemma NextTurn(reports: seq<Report>, c: string, started: bool)
    ensures var step := NextResult(c, started);
      var d := Prepend(reports, Drain(c, started));
      match step.outcome
      case Wait => d == Drained(reports, step.rest, step.started, false)
      case Special => d.special
      case Found(len) => d == WithNext(reports, step.rest, step.started, len)
  {
    hide NextResult, Classify, Taken, Dropped;
    var step := NextResult(c, started);
    match step.outcome {
      case Wait => assert reports + [] == reports;
      case Special =>
      case Found(len) =>
        var res := Classify(step.rest);
        var d := Drain(Dropped(step.rest, Taken(res, len)), step.started);
        var report := Report(res, step.rest[..len - 1]);
        assert reports + ([report] + d.reports) == reports + [report] + d.reports;
    }
  }
}
