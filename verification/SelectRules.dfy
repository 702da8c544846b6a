// The rules a device must meet to be selected from its group (select.c), one filter
// after the other, and the order in which the devices left are tried.
module SelectRules {
  type Digit = n: nat | n < 10
  type TenChars = s: seq<char> | |s| == 10 witness seq(10, _ => ' ')
  type TenInts = s: seq<int> | |s| == 10 witness seq(10, _ => 0)
  type TenBools = s: seq<bool> | |s| == 10 witness seq(10, _ => false)

  datatype ImFlags = ImFlags(imn: bool, imb: bool, imc: bool, imd: bool, ime: bool)
  datatype QosFlags = QosFlags(
    inos: bool, igoo: bool, ibad: bool, inor: bool, inew: bool, irob: bool, iblo: bool,
    ine0: bool, inec: bool, inem: bool, canSout: bool)
  datatype CapFlags = CapFlags(capnew: bool, capfail: bool, capok: bool)
  datatype Hours = Hours(workWake: int, workSleep: int, holidayWake: int, holidaySleep: int)
  datatype Pauses = Pauses(min: int, sout: int, goo: int, nor: int, imode: int)
  datatype SouPri = SouPri(imsi: string, diffStart: int)

  // What selection reads of a device. A flag stands for its int being 1.
  datatype Pvt = Pvt(
    id: string, imsi: string, group: int, pro: string,
    alg: TenChars, limit: TenInts, nodiff: TenBools,
    priority: int, outCalls: nat,
    im: ImFlags, qos: QosFlags, cap: CapFlags, hours: Hours, pauses: Pauses,
    soupri: seq<SouPri>)

  datatype Request = Request(
    group: int, limitnum: Digit, limittype: char, qos: int, cap: int, pro: string,
    imb: seq<string>, imbAny: bool, souImsiTo: string)

  // A record of the selection. no numbers the records in the order they were allocated.
  datatype Cand = Cand(no: nat, pvt: Pvt, imbPos: int, imbType: char, diff: int, souDiffStart: int)

  // ------------------------------------------------------------------
  // pvt_select_create
  // ------------------------------------------------------------------

  predicate WithinLimit(cr: Request, p: Pvt) {
    p.limit[cr.limitnum] > 0 || (cr.limittype != '-' && cr.limittype != '_')
  }

  // canDial: what can_dial says at the time.
  predicate Eligible(cr: Request, p: Pvt, canDial: bool) {
    p.group == cr.group && canDial && WithinLimit(cr, p)
  }

  // ------------------------------------------------------------------
  // pvt_select_im
  // ------------------------------------------------------------------

  function Position(imb: seq<string>, imsi: string): (p: nat)
    ensures p <= |imb| && (p < |imb| ==> imb[p] == imsi) && forall k :: 0 <= k < p ==> imb[k] != imsi
  {
    if imb == [] || imb[0] == imsi then 0 else 1 + Position(imb[1..], imsi)
  }

  function ImNote(cr: Request, c: Cand): Cand {
    if cr.qos == 5 then c.(imbPos := |cr.imb|, imbType := 'N')
    else
      var p := Position(cr.imb, c.pvt.imsi);
      c.(imbPos := p,
         imbType := if p < |cr.imb| then (if p == 0 then 'B' else 'C')
                    else if !cr.imbAny then 'E'
                    else if cr.imb == [] then 'N'
                    else 'D')
  }

  predicate ImKeep(cr: Request, c: Cand) {
    if cr.qos == 5 then c.pvt.imsi != cr.souImsiTo
    else
      var alg := c.pvt.alg[cr.limitnum];
      || (c.pvt.im.imn && c.imbType == 'N')
      || (c.pvt.im.imb && c.imbType == 'B')
      || (c.pvt.im.imc && c.imbType == 'C')
      || (c.pvt.im.imd && c.imbType == 'D')
      || (if alg in "ABab" then c.imbType == 'E' else c.pvt.im.ime && c.imbType == 'E')
  }

  // The device has called this number before.
  predicate Known(c: Cand) {
    c.imbType == 'B' || c.imbType == 'C'
  }

  // ------------------------------------------------------------------
  // pvt_select_qos
  // ------------------------------------------------------------------

  // procmp: 0 when the device's text begins the request's.
  function Procmp(pvtPro: string, crPro: string): int {
    if crPro == "" || pvtPro == "" then 1 else if pvtPro <= crPro then 0 else 1
  }

  predicate QosKeep(cr: Request, c: Cand) {
    var notRob := cr.qos != 9 && cr.qos != 8;
    var f, alg := c.pvt.qos, c.pvt.alg[cr.limitnum];
    || (Known(c) && notRob)
    || (cr.qos == 0 && f.inos) || (cr.qos == 1 && f.igoo) || (cr.qos == 2 && f.ibad) || (cr.qos == 3 && f.inor)
    || (cr.qos == 4 && f.inew) || (cr.qos == 40 && f.ine0) || (cr.qos == 41 && f.inec) || (cr.qos == 42 && f.inem)
    || (cr.qos == 8 && f.irob) || (cr.qos == 9 && f.iblo)
    || (alg == 'Q' && notRob) || (alg == 'd' && notRob)
    || (cr.qos == 5 && f.canSout)
    || ((alg == 'p' || alg == 'v') && Procmp(c.pvt.pro, cr.pro) == 0)
  }

  // ------------------------------------------------------------------
  // pvt_select_cappro
  // ------------------------------------------------------------------

  predicate CapProKeep(cr: Request, c: Cand) {
    var alg := c.pvt.alg[cr.limitnum];
    || cr.qos == 5
    || Known(c)
    || (&& ((cr.cap == 0 && c.pvt.cap.capnew) || (cr.cap == 1 && c.pvt.cap.capfail) || (cr.cap == 2 && c.pvt.cap.capok))
        && ((alg != 'P' && alg != 'v') || Procmp(c.pvt.pro, cr.pro) == 0))
  }

  // ------------------------------------------------------------------
  // pvt_select_work
  // ------------------------------------------------------------------

  // The remainder of C: its sign is the dividend's.
  function Rem(a: int, b: int): int
    requires b > 0
  {
    if a >= 0 then a % b else -((-a) % b)
  }

  // The value of a character of the imsi as a digit; the unused part of the buffer is 0.
  function DigitAt(imsi: string, k: nat): int {
    (if k < |imsi| then imsi[k] as int else 0) - '0' as int
  }

  // When the device is at work: 4 hours ahead of the clock, with minutes of the device's
  // own for the first and last hour.
  predicate WorkKeep(cr: Request, c: Cand, time: nat) {
    var tim := time + 14400;
    var dateZ := tim / 86400;
    var dateN := (dateZ + 3) % 7 + 1;
    var dateM := tim % 3600 / 60;
    var dateH := tim / 3600 % 24;
    var imsi3 := DigitAt(c.pvt.imsi, 12) * 100 + DigitAt(c.pvt.imsi, 13) * 10 + DigitAt(c.pvt.imsi, 14);
    var wakeM := Rem((imsi3 * 17 + dateZ * 19) * 17, 30) * 2;
    var sleepM := Rem((imsi3 * 17 + dateZ * 29) * 17, 30) * 2;
    var h := c.pvt.hours;
    var wake := if dateN > 5 then h.holidayWake else h.workWake;
    var sleep := if dateN > 5 then h.holidaySleep else h.workSleep;
    || Known(c)
    || (&& (wake >= 0 ==> !(dateH < wake) && !(dateH == wake && dateM < wakeM))
        && (sleep >= 0 ==> !(dateH > sleep) && !(dateH == sleep && dateM < sleepM)))
  }

  // ------------------------------------------------------------------
  // pvt_select_diff
  // ------------------------------------------------------------------

  // sinceEnd: the time since the device's last call, capped and weighed as a float.
  function DiffNote(cr: Request, c: Cand, sinceEnd: Pvt -> int): Cand {
    var m := c.pvt.pauses;
    var pause :=
      if cr.qos == 5 then m.sout
      else if c.pvt.nodiff[cr.limitnum] && cr.limitnum != 0 then m.goo
      else if Known(c) then m.imode
      else if cr.qos == 3 then m.nor
      else if cr.qos == 1 then m.goo
      else m.min;
    c.(diff := sinceEnd(c.pvt) - pause)
  }

  predicate DiffKeep(c: Cand) {
    c.diff >= 0
  }

  // ------------------------------------------------------------------
  // A filter that removes by swapping with the last record.
  // ------------------------------------------------------------------

  // What the filter is for: the records in order, noted, those that pass.
  function KeptOne(c: Cand, note: Cand -> Cand, keep: Cand -> bool): seq<Cand> {
    if keep(note(c)) then [note(c)] else []
  }

  function DroppedOne(c: Cand, note: Cand -> Cand, keep: Cand -> bool): seq<nat> {
    if keep(note(c)) then [] else [c.no]
  }

  function Kept(s: seq<Cand>, note: Cand -> Cand, keep: Cand -> bool): seq<Cand> {
    if s == [] then []
    else KeptOne(s[0], note, keep) + Kept(s[1..], note, keep)
  }

  function Dropped(s: seq<Cand>, note: Cand -> Cand, keep: Cand -> bool): seq<nat> {
    if s == [] then []
    else DroppedOne(s[0], note, keep) + Dropped(s[1..], note, keep)
  }

  // What the loop does, from record i on: the list, and the records freed on the way.
  function Swept(s: seq<Cand>, i: nat, note: Cand -> Cand, keep: Cand -> bool): (seq<Cand>, seq<nat>)
    requires i <= |s|
    decreases |s| - i
  {
    if i == |s| then (s, [])
    else
      var c := note(s[i]);
      if keep(c) then Swept(s[i := c], i + 1, note, keep)
      else
        var r := Swept(s[i := s[|s| - 1]][..|s| - 1], i, note, keep);
        (r.0, [s[i].no] + r.1)
  }

  lemma {:induction false} KeptJoins(a: seq<Cand>, b: seq<Cand>, note: Cand -> Cand, keep: Cand -> bool)
    ensures Kept(a + b, note, keep) == Kept(a, note, keep) + Kept(b, note, keep)
  {
    hide Kept;
    KeptOpens(a, note, keep);
    KeptOpens(a + b, note, keep);
    if a == [] {
      assert a + b == b;
    } else {
      KeptJoins(a[1..], b, note, keep);
      assert (a + b)[1..] == a[1..] + b;
    }
  }

  lemma KeptOpens(s: seq<Cand>, note: Cand -> Cand, keep: Cand -> bool)
    ensures s == [] ==> Kept(s, note, keep) == []
    ensures s != [] ==> Kept(s, note, keep) == KeptOne(s[0], note, keep) + Kept(s[1..], note, keep)
  {
  }

  lemma {:induction false} DroppedJoins(a: seq<Cand>, b: seq<Cand>, note: Cand -> Cand, keep: Cand -> bool)
    ensures Dropped(a + b, note, keep) == Dropped(a, note, keep) + Dropped(b, note, keep)
  {
    hide Dropped;
    DroppedOpens(a, note, keep);
    DroppedOpens(a + b, note, keep);
    if a == [] {
      assert a + b == b;
    } else {
      DroppedJoins(a[1..], b, note, keep);
      assert (a + b)[1..] == a[1..] + b;
    }
  }

  lemma DroppedOpens(s: seq<Cand>, note: Cand -> Cand, keep: Cand -> bool)
    ensures s == [] ==> Dropped(s, note, keep) == []
    ensures s != [] ==> Dropped(s, note, keep) == DroppedOne(s[0], note, keep) + Dropped(s[1..], note, keep)
  {
  }

  lemma KeptFirst(s: seq<Cand>, i: nat, note: Cand -> Cand, keep: Cand -> bool)
    requires i < |s|
    ensures Kept(s[i..], note, keep) == KeptOne(s[i], note, keep) + Kept(s[i + 1..], note, keep)
    ensures Dropped(s[i..], note, keep) == DroppedOne(s[i], note, keep) + Dropped(s[i + 1..], note, keep)
  {
    assert s[i..][1..] == s[i + 1..];
  }

  // Moving the last record to the front makes no difference to who passes.
  lemma KeptMoves(m: seq<Cand>, l: Cand, note: Cand -> Cand, keep: Cand -> bool)
    ensures multiset(Kept([l] + m, note, keep)) == multiset(Kept(m + [l], note, keep))
    ensures multiset(Dropped([l] + m, note, keep)) == multiset(Dropped(m + [l], note, keep))
  {
    hide Kept, Dropped;
    KeptJoins([l], m, note, keep);
    KeptJoins(m, [l], note, keep);
    DroppedJoins([l], m, note, keep);
    DroppedJoins(m, [l], note, keep);
  }

  ghost predicate SweptWell(s: seq<Cand>, i: nat, r: (seq<Cand>, seq<nat>), note: Cand -> Cand, keep: Cand -> bool)
    requires i <= |s|
  {
    && multiset(r.0) == multiset(s[..i]) + multiset(Kept(s[i..], note, keep))
    && multiset(r.1) == multiset(Dropped(s[i..], note, keep))
  }

  // The records before i stay; of those from i on, exactly the ones that pass stay, in
  // some order, each noted once, and exactly the others are freed, each once.
  lemma {:induction false} SweptKeeps(s: seq<Cand>, i: nat, note: Cand -> Cand, keep: Cand -> bool)
    requires i <= |s|
    ensures SweptWell(s, i, Swept(s, i, note, keep), note, keep)
    decreases |s| - i
  {
    hide Kept, Dropped, SweptWell;
    if i == |s| {
      SweptNone(s, note, keep);
    } else {
      var c := note(s[i]);
      if keep(c) {
        SweptKeeps(s[i := c], i + 1, note, keep);
        SweptKept(s, i, Swept(s[i := c], i + 1, note, keep), note, keep);
      } else {
        var n := |s| - 1;
        var t := s[i := s[n]][..n];
        SweptKeeps(t, i, note, keep);
        SweptDropped(s, i, Swept(t, i, note, keep), note, keep);
      }
    }
  }

  lemma SweptNone(s: seq<Cand>, note: Cand -> Cand, keep: Cand -> bool)
    ensures SweptWell(s, |s|, (s, []), note, keep)
  {
    assert s[..|s|] == s;
  }

  lemma SweptKept(s: seq<Cand>, i: nat, r: (seq<Cand>, seq<nat>), note: Cand -> Cand, keep: Cand -> bool)
    requires i < |s| && keep(note(s[i])) && SweptWell(s[i := note(s[i])], i + 1, r, note, keep)
    ensures SweptWell(s, i, r, note, keep)
  {
    var c := note(s[i]);
    KeptFirst(s, i, note, keep);
    hide Kept, Dropped;
    var t := s[i := c];
    assert t[..i + 1] == s[..i] + [c] && t[i + 1..] == s[i + 1..];
    assert KeptOne(s[i], note, keep) == [c] && DroppedOne(s[i], note, keep) == [];
    hide KeptOne, DroppedOne;
    assert multiset(Kept(s[i..], note, keep)) == multiset([c]) + multiset(Kept(s[i + 1..], note, keep));
    assert Dropped(s[i..], note, keep) == Dropped(s[i + 1..], note, keep);
  }

  lemma SweptDropped(s: seq<Cand>, i: nat, r: (seq<Cand>, seq<nat>), note: Cand -> Cand, keep: Cand -> bool)
    requires i < |s| && !keep(note(s[i])) && SweptWell(s[i := s[|s| - 1]][..|s| - 1], i, r, note, keep)
    ensures SweptWell(s, i, (r.0, [s[i].no] + r.1), note, keep)
  {
    hide Kept, Dropped;
    KeptFirst(s, i, note, keep);
    TailMoves(s, i, note, keep);
    var t := s[i := s[|s| - 1]][..|s| - 1];
    assert t[..i] == s[..i];
  }

  lemma TailMoves(s: seq<Cand>, i: nat, note: Cand -> Cand, keep: Cand -> bool)
    requires i < |s|
    ensures var t := s[i := s[|s| - 1]][..|s| - 1];
      && multiset(Kept(t[i..], note, keep)) == multiset(Kept(s[i + 1..], note, keep))
      && multiset(Dropped(t[i..], note, keep)) == multiset(Dropped(s[i + 1..], note, keep))
  {
    hide Kept, Dropped;
    var n := |s| - 1;
    var t := s[i := s[n]][..n];
    if i < n {
      assert t[i..] == [s[n]] + s[i + 1..n];
      assert s[i + 1..] == s[i + 1..n] + [s[n]];
      KeptMoves(s[i + 1..n], s[n], note, keep);
    } else {
      assert t[i..] == s[i + 1..];
    }
  }

  // Every survivor passes, and is a noted form of a record that was there.
  lemma {:induction false} KeptPasses(s: seq<Cand>, note: Cand -> Cand, keep: Cand -> bool, c: Cand)
    ensures c in Kept(s, note, keep) <==> keep(c) && exists i :: 0 <= i < |s| && c == note(s[i])
  {
    if s != [] {
      KeptPasses(s[1..], note, keep, c);
      if i :| 0 <= i < |s| && c == note(s[i]) {
        if i > 0 {
          assert c == note(s[1..][i - 1]);
        }
      }
    }
  }
}
