// Which devices of a group can be selected for a call (select.c), said of the device and the
// request alone: the filters on the records come to this rule.
module SelectFit {
  import opened Wrappers
  import opened Arith
  import opened SelectRules
  import opened SelectSort
  import opened Select

  // ------------------------------------------------------------------
  // The rule.
  // ------------------------------------------------------------------

  // The device called this number before; calls back do not ask.
  predicate CalledBefore(cr: Request, p: Pvt) {
    cr.qos != 5 && p.imsi in cr.imb
  }

  // A call back goes out on another device than its own; otherwise the device must allow
  // what it has to do with the number's earlier calls.
  predicate FitsNumber(cr: Request, p: Pvt) {
    if cr.qos == 5 then p.imsi != cr.souImsiTo
    else if cr.imb != [] && cr.imb[0] == p.imsi then p.im.imb
    else if p.imsi in cr.imb then p.im.imc
    else if !cr.imbAny then p.im.ime || p.alg[cr.limitnum] in {'A', 'B', 'a', 'b'}
    else if cr.imb == [] then p.im.imn
    else p.im.imd
  }

  // The text of the device begins that of the request, and neither is empty.
  predicate SameProfile(cr: Request, p: Pvt) {
    p.pro != "" && |p.pro| <= |cr.pro| && cr.pro[..|p.pro|] == p.pro
  }

  // The flag of the device that is for the quality asked for.
  predicate Offers(qos: int, f: QosFlags) {
    match qos
    case 0 => f.inos
    case 1 => f.igoo
    case 2 => f.ibad
    case 3 => f.inor
    case 4 => f.inew
    case 5 => f.canSout
    case 8 => f.irob
    case 9 => f.iblo
    case 40 => f.ine0
    case 41 => f.inec
    case 42 => f.inem
    case _ => false
  }

  // Qualities 8 and 9 are given to a device for its flag or profile alone.
  predicate FitsQuality(cr: Request, p: Pvt) {
    || Offers(cr.qos, p.qos)
    || (p.alg[cr.limitnum] in {'p', 'v'} && SameProfile(cr, p))
    || (cr.qos !in {8, 9} && (CalledBefore(cr, p) || p.alg[cr.limitnum] in {'Q', 'd'}))
  }

  predicate FitsCapacity(cr: Request, p: Pvt) {
    || cr.qos == 5
    || CalledBefore(cr, p)
    || (&& (p.alg[cr.limitnum] in {'P', 'v'} ==> SameProfile(cr, p))
        && match cr.cap
           case 0 => p.cap.capnew
           case 1 => p.cap.capfail
           case 2 => p.cap.capok
           case _ => false)
  }

  // By the device's clock, 4 hours ahead: at work from its own minute of the first hour on.
  // In the last hour it is at work from its minute on, and not before.
  predicate AtWork(p: Pvt, time: nat) {
    var day := (time + 14400) / 86400;
    var minutes := (time / 60 + 240) % 1440;
    var weekend := day % 7 == 2 || day % 7 == 3;
    var from := if weekend then p.hours.holidayWake else p.hours.workWake;
    var to := if weekend then p.hours.holidaySleep else p.hours.workSleep;
    && (from < 0 || minutes / 60 > from || (minutes / 60 == from && minutes % 60 >= OwnMinute(p, day, 19)))
    && (to < 0 || minutes / 60 < to || (minutes / 60 == to && minutes % 60 >= OwnMinute(p, day, 29)))
  }

  // The device's own minute of the day, from the end of its imsi.
  function OwnMinute(p: Pvt, day: nat, factor: nat): int {
    2 * Rem(17 * (17 * (100 * DigitAt(p.imsi, 12) + 10 * DigitAt(p.imsi, 13) + DigitAt(p.imsi, 14)) + factor * day), 30)
  }

  // The remainder has the sign of what is divided.
  lemma RemTruncates(a: int, b: int)
    requires b > 0
    ensures (a - Rem(a, b)) % b == 0 && -b < Rem(a, b) < b && (a >= 0 ==> Rem(a, b) >= 0) && (a <= 0 ==> Rem(a, b) <= 0)
  {
    if a < 0 {
      Whole(-a, b);
    } else {
      Whole(a, b);
    }
  }

  lemma Whole(x: nat, b: nat)
    requires b > 0
    ensures (x - x % b) % b == 0 && (-(x - x % b)) % b == 0
  {
    var k := x / b;
    assert x - x % b == b * k;
    Multiples(b, k);
  }

  lemma Multiples(b: nat, k: nat)
    requires b > 0
    ensures b * k % b == 0 && -(b * k) % b == 0
  {
    DivMod(b * k, b, k, 0);
    var r := -(b * k) % b;
    var q := -(b * k) / b;
    assert -(b * k) == b * q + r;
    Distr(b, q, k);
    StepUp(b, q + k, 0);
    StepUp(b, -1 - q - k, -1);
    StepUp(b, 0, q + k);
  }

  // For an imsi of digits: an even minute of the hour, another one every day.
  lemma OwnMinuteMeans(p: Pvt, day: nat)
    requires 15 <= |p.imsi| && forall k :: 12 <= k < 15 ==> '0' <= p.imsi[k] <= '9'
    ensures var last := 100 * DigitAt(p.imsi, 12) + 10 * DigitAt(p.imsi, 13) + DigitAt(p.imsi, 14);
      && 0 <= last < 1000
      && OwnMinute(p, day, 19) == 2 * ((19 * last + 23 * day) % 30)
      && OwnMinute(p, day, 29) == 2 * ((19 * last + 13 * day) % 30)
  {
    var last := 100 * DigitAt(p.imsi, 12) + 10 * DigitAt(p.imsi, 13) + DigitAt(p.imsi, 14);
    DivMore(19 * last + 23 * day, 30, 9 * last + 10 * day);
    DivMore(19 * last + 13 * day, 30, 9 * last + 16 * day);
  }

  predicate FitsHours(cr: Request, p: Pvt, time: nat) {
    CalledBefore(cr, p) || AtWork(p, time)
  }

  // The rest due to a device: the last of these rules that applies.
  function RestDue(cr: Request, p: Pvt): int {
    var m := p.pauses;
    var byQuality := if cr.qos == 1 then m.goo else if cr.qos == 3 then m.nor else m.min;
    var byNumber := if CalledBefore(cr, p) then m.imode else byQuality;
    var byLimit := if cr.limitnum != 0 && p.nodiff[cr.limitnum] then m.goo else byNumber;
    if cr.qos == 5 then m.sout else byLimit
  }

  predicate Fit(cr: Request, time: nat, sinceEnd: Pvt -> int, p: Pvt) {
    && FitsNumber(cr, p) && FitsQuality(cr, p) && FitsCapacity(cr, p) && FitsHours(cr, p, time)
    && sinceEnd(p) >= RestDue(cr, p)
  }

  // ------------------------------------------------------------------
  // The filters, one by one.
  // ------------------------------------------------------------------

  lemma ImbKnown(cr: Request, c: Cand)
    ensures var d := ImNote(cr, c);
      && d.pvt == c.pvt && (Known(d) <==> CalledBefore(cr, c.pvt))
      && (cr.qos != 5 ==> (d.imbType == 'B' <==> cr.imb != [] && cr.imb[0] == c.pvt.imsi))
      && (d.imbType == 'E' <==> cr.qos != 5 && c.pvt.imsi !in cr.imb && !cr.imbAny)
      && (cr.qos != 5 ==> (d.imbType == 'N' <==> c.pvt.imsi !in cr.imb && cr.imbAny && cr.imb == []))
      && d.imbType in {'B', 'C', 'D', 'E', 'N'}
  {
    var p := Position(cr.imb, c.pvt.imsi);
    if p == |cr.imb| {
      assert forall k :: 0 <= k < |cr.imb| ==> cr.imb[k] != c.pvt.imsi;
    }
    hide Position;
  }

  lemma NumberFilter(cr: Request, c: Cand)
    ensures ImKeep(cr, ImNote(cr, c)) <==> FitsNumber(cr, c.pvt)
  {
    ImbKnown(cr, c);
    hide ImNote;
  }

  lemma ProfileMeans(cr: Request, p: Pvt)
    ensures Procmp(p.pro, cr.pro) == 0 <==> SameProfile(cr, p)
  {
  }

  lemma QualityFilter(cr: Request, d: Cand)
    requires Known(d) <==> CalledBefore(cr, d.pvt)
    ensures QosKeep(cr, d) <==> FitsQuality(cr, d.pvt)
  {
    ProfileMeans(cr, d.pvt);
    hide Known, CalledBefore, Procmp, SameProfile;
  }

  lemma CapacityFilter(cr: Request, d: Cand)
    requires Known(d) <==> CalledBefore(cr, d.pvt)
    ensures CapProKeep(cr, d) <==> FitsCapacity(cr, d.pvt)
  {
    ProfileMeans(cr, d.pvt);
    hide Known, CalledBefore, Procmp, SameProfile;
  }

  lemma Clock(time: nat)
    ensures var tim := time + 14400;
      var minutes := (time / 60 + 240) % 1440;
      tim % 3600 / 60 == minutes % 60 && tim / 3600 % 24 == minutes / 60
    ensures var day := (time + 14400) / 86400;
      (day + 3) % 7 + 1 > 5 <==> day % 7 == 2 || day % 7 == 3
  {
    var t := time / 60 + 240;
    var h, m, s := t / 60, t % 60, time % 60;
    var g := h % 24;
    assert time + 14400 == 3600 * h + (60 * m + s);
    DivMod(time + 14400, 3600, h, 60 * m + s);
    DivMod(60 * m + s, 60, m, s);
    assert t == 1440 * (h / 24) + (60 * g + m);
    DivMod(t, 1440, h / 24, 60 * g + m);
    DivMod(60 * g + m, 60, g, m);
    Weekend((time + 14400) / 86400);
  }

  lemma Weekend(day: nat)
    ensures (day + 3) % 7 + 1 > 5 <==> day % 7 == 2 || day % 7 == 3
  {
  }

  lemma HoursFilter(cr: Request, d: Cand, time: nat)
    requires Known(d) <==> CalledBefore(cr, d.pvt)
    ensures WorkKeep(cr, d, time) <==> FitsHours(cr, d.pvt, time)
  {
    Clock(time);
    hide Known, CalledBefore, Rem, DigitAt;
  }

  lemma RestFilter(cr: Request, d: Cand, sinceEnd: Pvt -> int)
    requires Known(d) <==> CalledBefore(cr, d.pvt)
    ensures DiffKeep(DiffNote(cr, d, sinceEnd)) <==> sinceEnd(d.pvt) >= RestDue(cr, d.pvt)
  {
    hide Known;
  }

  // ------------------------------------------------------------------
  // All of them.
  // ------------------------------------------------------------------

  // The filters keep a record if and only if its device fits.
  lemma PassesExactly(cr: Request, time: nat, sinceEnd: Pvt -> int, c: Cand)
    ensures Passes(cr, time, Noted(cr, sinceEnd, c)) <==> Fit(cr, time, sinceEnd, c.pvt)
  {
    var b := ImNote(cr, c);
    var d := DiffNote(cr, b, sinceEnd);
    ImbKnown(cr, c);
    NumberFilter(cr, c);
    assert d.pvt == b.pvt && d.imbType == b.imbType && Known(d) == Known(b) && ImKeep(cr, d) == ImKeep(cr, b);
    hide ImKeep, ImNote, DiffNote, QosKeep, CapProKeep, WorkKeep, DiffKeep, Known, CalledBefore;
    QualityFilter(cr, d);
    CapacityFilter(cr, d);
    HoursFilter(cr, d, time);
    RestFilter(cr, b, sinceEnd);
    hide FitsNumber, FitsQuality, FitsCapacity, FitsHours, RestDue;
  }

  lemma {:induction false} CreatedHas(cr: Request, devices: seq<Pvt>, canDial: seq<bool>, junk: Cand, no: nat, k: nat)
    returns (j: nat)
    requires |canDial| == |devices| && k < |devices| && Eligible(cr, devices[k], canDial[k])
    ensures j < |Created(cr, devices, canDial, junk, no)|
    ensures Created(cr, devices, canDial, junk, no)[j].pvt == devices[k]
    decreases |devices|
  {
    hide Eligible;
    if k == 0 {
      j := 0;
    } else if Eligible(cr, devices[0], canDial[0]) {
      j := CreatedHas(cr, devices[1..], canDial[1..], junk, no + 1, k - 1);
      j := j + 1;
    } else {
      j := CreatedHas(cr, devices[1..], canDial[1..], junk, no, k - 1);
    }
  }

  // What a device needs to be looked at: the group, room for a call, and something left of
  // the limit unless the limit is soft.
  predicate Usable(cr: Request, p: Pvt, canDial: bool) {
    p.group == cr.group && canDial && (cr.limittype in {'-', '_'} ==> p.limit[cr.limitnum] > 0)
  }

  // A device is in the ranking if and only if it is in the group, can dial, has something
  // left of a hard limit, and fits the call.
  lemma RankedExactly(cr: Request, time: nat, sinceEnd: Pvt -> int, devices: seq<Pvt>, canDial: seq<bool>,
                      junk: Cand, order: seq<Cand>, p: Pvt)
    requires |canDial| == |devices|
    requires Ranking(cr, time, sinceEnd, Created(cr, devices, canDial, junk, 0), order)
    ensures (exists c :: c in order && c.pvt == p) <==>
      Fit(cr, time, sinceEnd, p) && exists k :: 0 <= k < |devices| && devices[k] == p && Usable(cr, p, canDial[k])
  {
    hide Fit, Created, Ranking, Passes;
    if c :| c in order && c.pvt == p {
      var k := RankedPass(cr, time, sinceEnd, devices, canDial, junk, order, c);
      var b := RankedBase(cr, time, sinceEnd, Created(cr, devices, canDial, junk, 0), order, c);
      PassesExactly(cr, time, sinceEnd, b);
      assert devices[k] == p && Usable(cr, p, canDial[k]);
    }
    if Fit(cr, time, sinceEnd, p) {
      if k :| 0 <= k < |devices| && devices[k] == p && Usable(cr, p, canDial[k]) {
        var j := CreatedHas(cr, devices, canDial, junk, 0, k);
        PassesExactly(cr, time, sinceEnd, Created(cr, devices, canDial, junk, 0)[j]);
        var c := RankedFrom(cr, time, sinceEnd, Created(cr, devices, canDial, junk, 0), order, j);
      }
    }
  }

  // A ranked record is the noted form of one there was.
  lemma RankedBase(cr: Request, time: nat, sinceEnd: Pvt -> int, eligible: seq<Cand>, order: seq<Cand>, c: Cand)
    returns (b: Cand)
    requires Ranking(cr, time, sinceEnd, eligible, order) && c in order
    ensures b in eligible && b.pvt == c.pvt && Passes(cr, time, Noted(cr, sinceEnd, b))
    ensures c.imbPos == ImNote(cr, b).imbPos
  {
    hide Passes, Kept, InOrder, ImNote, DiffNote, SouTime;
    var s := Survivors(cr, time, sinceEnd, eligible);
    assert c in multiset(LastNote(cr, s));
    var i: nat :| i < |LastNote(cr, s)| && LastNote(cr, s)[i] == c;
    var d := s[i];
    KeptPasses(eligible, e => Noted(cr, sinceEnd, e), e => Passes(cr, time, e), d);
    var j: nat :| j < |eligible| && d == Noted(cr, sinceEnd, eligible[j]);
    b := eligible[j];
    NotesKeepPvt(cr, sinceEnd, b, d);
    PosKept(cr, sinceEnd, b, d);
  }

  lemma PosKept(cr: Request, sinceEnd: Pvt -> int, b: Cand, d: Cand)
    ensures Noted(cr, sinceEnd, b).imbPos == ImNote(cr, b).imbPos && SouNote(cr, d).imbPos == d.imbPos
  {
  }

  // And a record whose noted form passes is ranked.
  lemma RankedFrom(cr: Request, time: nat, sinceEnd: Pvt -> int, eligible: seq<Cand>, order: seq<Cand>, j: nat)
    returns (c: Cand)
    requires Ranking(cr, time, sinceEnd, eligible, order) && j < |eligible|
    requires Passes(cr, time, Noted(cr, sinceEnd, eligible[j]))
    ensures c in order && c.pvt == eligible[j].pvt
  {
    hide Passes, Kept, InOrder, ImNote, DiffNote, SouTime;
    var s := Survivors(cr, time, sinceEnd, eligible);
    var d := Noted(cr, sinceEnd, eligible[j]);
    KeptPasses(eligible, e => Noted(cr, sinceEnd, e), e => Passes(cr, time, e), d);
    var i: nat :| i < |s| && s[i] == d;
    c := LastNote(cr, s)[i];
    NotesKeepPvt(cr, sinceEnd, eligible[j], d);
    assert c in multiset(LastNote(cr, s));
    assert c in multiset(order);
  }

  // ------------------------------------------------------------------
  // The order in which they are tried.
  // ------------------------------------------------------------------

  // The first device to have called the number comes first, then the second, and those that
  // never did last.
  lemma EarlierCallersFirst(cr: Request, time: nat, sinceEnd: Pvt -> int, eligible: seq<Cand>, order: seq<Cand>,
                            p: nat, q: nat)
    requires Ranking(cr, time, sinceEnd, eligible, order) && cr.qos != 5 && p < q < |order|
    ensures order[q].pvt.imsi in cr.imb ==> order[p].pvt.imsi in cr.imb
    ensures order[q].pvt.imsi in cr.imb ==>
      forall j :: 0 <= j < |cr.imb| && cr.imb[j] == order[q].pvt.imsi ==>
        exists i :: 0 <= i <= j && cr.imb[i] == order[p].pvt.imsi
  {
    assert order[p] in order && order[q] in order;
    var a := RankedBase(cr, time, sinceEnd, eligible, order, order[p]);
    var b := RankedBase(cr, time, sinceEnd, eligible, order, order[q]);
    assert order[p].imbPos <= order[q].imbPos;
    hide Ranking;
  }

  // Among devices that come by one third key the key falls: the most left of the limit, the
  // most calls, or the longest rest first.
  lemma ThirdKeyFalls(cr: Request, s: seq<Cand>, p: nat, q: nat)
    requires p < q < |s|
    ensures var r := Sorted(cr, s, 0);
      r[p].imbPos == r[q].imbPos && r[p].pvt.priority == r[q].pvt.priority ==>
        && ((forall k :: 0 <= k < |s| ==> s[k].pvt.alg[cr.limitnum] in {'A', 'B', 'P', 'p', 'v'}) ==>
              r[p].pvt.limit[cr.limitnum] >= r[q].pvt.limit[cr.limitnum])
        && ((forall k :: 0 <= k < |s| ==> s[k].pvt.alg[cr.limitnum] in {'<', 'a', 'b'}) ==>
              r[p].pvt.outCalls >= r[q].pvt.outCalls)
        && ((forall k :: 0 <= k < |s| ==> s[k].pvt.alg[cr.limitnum] !in {'A', 'B', 'P', 'p', 'v', '<', 'a', 'b'}) ==>
              r[p].diff >= r[q].diff)
  {
    KeyByAlg(cr, s);
    hide KeyOf, Sorted;
    if forall k :: 0 <= k < |s| ==> KeyOf(cr, s[k].pvt) == ByLimit {
      InOneKey(cr, s, ByLimit, p, q);
    }
    if forall k :: 0 <= k < |s| ==> KeyOf(cr, s[k].pvt) == ByCalls {
      InOneKey(cr, s, ByCalls, p, q);
    }
    if forall k :: 0 <= k < |s| ==> KeyOf(cr, s[k].pvt) == ByDiff {
      InOneKey(cr, s, ByDiff, p, q);
    }
  }

  lemma InOneKey(cr: Request, s: seq<Cand>, key: Key, p: nat, q: nat)
    requires p < q < |s| && forall k :: 0 <= k < |s| ==> KeyOf(cr, s[k].pvt) == key
    ensures var r := Sorted(cr, s, 0); !Worse(cr, key, r[p], r[q])
  {
    hide Sorted, KeyOf, Worse;
    SortOrdersOneClass(cr, s, key);
  }

  lemma KeyByAlg(cr: Request, s: seq<Cand>)
    ensures forall k :: 0 <= k < |s| ==>
      var alg := s[k].pvt.alg[cr.limitnum];
      && (KeyOf(cr, s[k].pvt) == ByLimit <==> alg in {'A', 'B', 'P', 'p', 'v'})
      && (KeyOf(cr, s[k].pvt) == ByCalls <==> alg in {'<', 'a', 'b'})
      && (KeyOf(cr, s[k].pvt) == ByDiff <==> alg !in {'A', 'B', 'P', 'p', 'v', '<', 'a', 'b'})
  {
  }

  // The time of a call back is that of the last entry for the number, 0 without one.
  lemma {:induction false} LastTimeCounts(soupri: seq<SouPri>, imsi: string, k: nat)
    ensures k < |soupri| && soupri[k].imsi == imsi && (forall j :: k < j < |soupri| ==> soupri[j].imsi != imsi) ==>
              SouTime(soupri, imsi) == soupri[k].diffStart
    ensures (forall j :: 0 <= j < |soupri| ==> soupri[j].imsi != imsi) ==> SouTime(soupri, imsi) == 0
  {
    if soupri != [] && soupri[|soupri| - 1].imsi != imsi {
      LastTimeCounts(soupri[..|soupri| - 1], imsi, k);
    }
  }

  // ------------------------------------------------------------------
  // The device found.
  // ------------------------------------------------------------------

  // What is found fits; and when every device can be had, a device is found if and only if
  // one of the group fits.
  lemma FoundFits(cr: Request, time: nat, sinceEnd: Pvt -> int, devices: seq<Pvt>, canDial: seq<bool>, junk: Cand,
                  order: seq<Cand>, found: Option<Pvt>, tries: seq<Try>)
    requires |canDial| == |devices| && FirstHad(found, order, tries)
    requires Ranking(cr, time, sinceEnd, Created(cr, devices, canDial, junk, 0), order)
    ensures found.Some? ==> Fit(cr, time, sinceEnd, found.value)
    ensures found.Some? ==>
              exists k :: 0 <= k < |devices| && devices[k] == found.value && Usable(cr, devices[k], canDial[k])
    ensures (forall i :: 0 <= i < |tries| ==> tries[i] == Try(true, true, true)) ==>
              (found.Some? <==>
                exists k :: 0 <= k < |devices| && Fit(cr, time, sinceEnd, devices[k])
                  && Usable(cr, devices[k], canDial[k]))
  {
    hide Fit, Created, Ranking;
    if found.Some? {
      var k :| 0 <= k < |order| && found.value == order[k].pvt;
      assert order[k] in order;
      RankedExactly(cr, time, sinceEnd, devices, canDial, junk, order, found.value);
    } else if k :| 0 <= k < |devices| && Fit(cr, time, sinceEnd, devices[k]) && Usable(cr, devices[k], canDial[k]) {
      RankedExactly(cr, time, sinceEnd, devices, canDial, junk, order, devices[k]);
      var c :| c in order && c.pvt == devices[k];
      var i :| 0 <= i < |order| && order[i] == c;
      assert !Succeeds(tries[i]);
    }
  }
}
