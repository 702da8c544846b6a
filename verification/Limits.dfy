// Call limits (limits.c) and the call's own times (stat.c): during a call the limit is
// debited in steps, at the end the steps are refunded and the duration is debited.
module Limits {
  // The fields of the device statistics that count.
  datatype Stat = Stat(
    sf: bool, start: int, connected: int, saved: int, end: int,
    limits: seq<int>, limitnum: nat, limittype: char)

  predicate Ok(st: Stat) {
    |st.limits| == 10 && st.limitnum < 10
  }

  // The four readings of the clock a tick makes: for the test, for the debit, and twice
  // for the time saved.
  datatype Tick = Tick(now: int, debit: int, first: int, second: int)

  function Limit(st: Stat): int
    requires Ok(st)
  {
    st.limits[st.limitnum]
  }

  function Debited(st: Stat, amount: int): Stat
    requires Ok(st)
  {
    st.(limits := st.limits[st.limitnum := Limit(st) - amount])
  }

  // ------------------------------------------------------------------
  // The steps of a call.
  // ------------------------------------------------------------------

  function Started(st: Stat, now: int): Stat {
    st.(sf := false, start := now, connected := 0, saved := 0)
  }

  // connected and saved are two readings.
  function Connected(st: Stat, c1: int, c2: int): Stat {
    st.(sf := true, connected := c1, saved := c2)
  }

  // Whether v_stat_call_process makes an interim debit.
  predicate Due(st: Stat, now: int) {
    st.sf && st.saved > 0 && now - st.saved > 5
  }

  function Ticked(st: Stat, t: Tick): (r: Stat)
    requires Ok(st)
    ensures Ok(r)
  {
    if Due(st, t.now) then Debited(st, t.debit - st.saved).(saved := t.second) else st
  }

  // Whether limits_temp queues a hangup for the outgoing calls.
  predicate HangsUp(st: Stat, t: Tick)
    requires Ok(st)
  {
    Due(st, t.now) && (st.limittype == '_' || st.limittype == '-') && Limit(Ticked(st, t)) <= 0
  }

  // The duration and 5 seconds in minutes begun.
  function Rounded(duration: int): int {
    -(-(duration + 5) / 60) * 60
  }

  // What limits_final debits: it rounds up if the limit's number is the character '_'.
  function FinalDebit(limitnum: nat, duration: int): int {
    if limitnum != '_' as nat then duration else Rounded(duration)
  }

  // Which none of the ten numbers is: the call is never rounded, whatever its duration.
  // The type of the limit, which may be '_', is not asked.
  lemma RoundingIsDead(limitnum: nat)
    ensures (forall duration :: FinalDebit(limitnum, duration) == duration) <==> limitnum != '_' as nat
    ensures limitnum < 10 ==> limitnum != '_' as nat
  {
    assert Rounded(0) == 60;
    assert FinalDebit('_' as nat, 0) == Rounded(0);
  }

  lemma RoundedUp(duration: int)
    ensures Rounded(duration) % 60 == 0 && duration + 5 <= Rounded(duration) < duration + 65
  {
  }

  // v_stat_call_end with limits_final
  function Ended(st: Stat, now: int, duration: int): Stat
    requires Ok(st)
  {
    Debited(st, FinalDebit(st.limitnum, duration) - (st.saved - st.connected))
      .(sf := false, end := now, limitnum := 0, saved := st.connected + duration)
  }

  function AfterTicks(st: Stat, ticks: seq<Tick>): (r: Stat)
    requires Ok(st)
    ensures Ok(r)
    decreases |ticks|
  {
    if ticks == [] then st else AfterTicks(Ticked(st, ticks[0]), ticks[1..])
  }

  // The time between a debit and the time saved for it, over the ticks that debit.
  function Slack(st: Stat, ticks: seq<Tick>): int
    requires Ok(st)
    decreases |ticks|
  {
    if ticks == [] then 0
    else
      var first := if Due(st, ticks[0].now) then ticks[0].second - ticks[0].debit else 0;
      first + Slack(Ticked(st, ticks[0]), ticks[1..])
  }

  // ------------------------------------------------------------------
  // What a call costs.
  // ------------------------------------------------------------------

  lemma {:induction false} TicksKeepBalance(st: Stat, ticks: seq<Tick>)
    requires Ok(st)
    ensures var r := AfterTicks(st, ticks);
      && Limit(r) + r.saved == Limit(st) + st.saved + Slack(st, ticks)
      && r.limitnum == st.limitnum && r.connected == st.connected && r.limittype == st.limittype && r.sf == st.sf
      && (forall k :: 0 <= k < 10 && k != st.limitnum ==> r.limits[k] == st.limits[k])
    decreases |ticks|
  {
    if ticks != [] {
      TicksKeepBalance(Ticked(st, ticks[0]), ticks[1..]);
    }
  }

  // One call costs its limit exactly the final duration, plus what passes between the
  // paired readings of the clock; the other limits stay.
  lemma CallCosts(st: Stat, c1: int, c2: int, ticks: seq<Tick>, now: int, duration: int)
    requires Ok(st)
    ensures var c := Connected(st, c1, c2);
      var r := Ended(AfterTicks(c, ticks), now, duration);
      && r.limits[st.limitnum] == st.limits[st.limitnum] - duration + (c2 - c1) + Slack(c, ticks)
      && forall k :: 0 <= k < 10 && k != st.limitnum ==> r.limits[k] == st.limits[k]
  {
    TicksKeepBalance(Connected(st, c1, c2), ticks);
  }

  // The readings of each step in order, and none before the step's first.
  predicate InOrder(t: Tick) {
    t.debit <= t.first <= t.second
  }

  // Every tick that debits reads the same time at both ends.
  predicate Steady(st: Stat, ticks: seq<Tick>)
    requires Ok(st)
    decreases |ticks|
  {
    ticks != [] ==>
      && (Due(st, ticks[0].now) ==> ticks[0].second == ticks[0].debit)
      && Steady(Ticked(st, ticks[0]), ticks[1..])
  }

  lemma {:induction false} SlackVanishes(st: Stat, ticks: seq<Tick>)
    requires Ok(st) && forall i :: 0 <= i < |ticks| ==> InOrder(ticks[i])
    ensures Slack(st, ticks) >= 0 && (Slack(st, ticks) == 0 <==> Steady(st, ticks))
    decreases |ticks|
  {
    if ticks != [] {
      assert InOrder(ticks[0]);
      SlackVanishes(Ticked(st, ticks[0]), ticks[1..]);
    }
  }

  // With a clock that does not run back the call costs exactly its duration if and only
  // if the paired readings agree in every step.
  lemma CostsDurationExactly(st: Stat, c1: int, c2: int, ticks: seq<Tick>, now: int, duration: int)
    requires Ok(st) && c1 <= c2 && forall i :: 0 <= i < |ticks| ==> InOrder(ticks[i])
    ensures var c := Connected(st, c1, c2);
      Ended(AfterTicks(c, ticks), now, duration).limits[st.limitnum] == st.limits[st.limitnum] - duration <==>
      c1 == c2 && Steady(c, ticks)
  {
    CallCosts(st, c1, c2, ticks, now, duration);
    SlackVanishes(Connected(st, c1, c2), ticks);
  }

  // ------------------------------------------------------------------
  // Running out.
  // ------------------------------------------------------------------

  predicate Hard(st: Stat) {
    st.limittype == '_' || st.limittype == '-'
  }

  // Whether some tick has queued a hangup.
  predicate HungUp(st: Stat, ticks: seq<Tick>)
    requires Ok(st)
    decreases |ticks|
  {
    ticks != [] && (HangsUp(st, ticks[0]) || HungUp(Ticked(st, ticks[0]), ticks[1..]))
  }

  // With a hard limit there is something left until a hangup is queued, and then the
  // limit is overdrawn by less than the gap to the tick before.
  lemma {:induction false} OvershootIsLess(st: Stat, ticks: seq<Tick>, t: Tick)
    requires Ok(st) && Hard(st) && Limit(st) > 0
    ensures !HungUp(st, ticks) ==>
              var r := AfterTicks(st, ticks);
              && Limit(r) > 0
              && (HangsUp(r, t) ==> 0 >= Limit(Ticked(r, t)) > -(t.debit - r.saved))
              && (!HangsUp(r, t) ==> Limit(Ticked(r, t)) > 0)
    decreases |ticks|
  {
    if ticks != [] && !HungUp(st, ticks) {
      OvershootIsLess(Ticked(st, ticks[0]), ticks[1..], t);
    }
  }

  // A call that is not connected, or was debited no more than 5 seconds ago, is let alone:
  // so one not yet answered, and one that has ended.
  lemma LeftAlone(st: Stat, t: Tick, start: int, end: int, duration: int)
    requires Ok(st)
    ensures !st.sf || st.saved <= 0 || t.now <= st.saved + 5 ==> Ticked(st, t) == st && !HangsUp(st, t)
    ensures Ticked(Started(st, start), t) == Started(st, start)
    ensures Ticked(Ended(st, end, duration), t) == Ended(st, end, duration)
  {
  }

  // Otherwise it pays for the time since, and a hangup is queued exactly if a hard limit
  // has nothing left then.
  lemma Pays(st: Stat, t: Tick)
    requires Ok(st) && st.sf && st.saved > 0 && t.now > st.saved + 5
    ensures Limit(Ticked(st, t)) == Limit(st) - (t.debit - st.saved) && Ticked(st, t).saved == t.second
    ensures HangsUp(st, t) <==> (st.limittype == '_' || st.limittype == '-') && t.debit - st.saved >= Limit(st)
  {
  }

  lemma {:induction false} SavedPositive(st: Stat, ticks: seq<Tick>)
    requires Ok(st) && st.saved > 0 && forall i :: 0 <= i < |ticks| ==> ticks[i].second > 0
    ensures AfterTicks(st, ticks).saved > 0
    decreases |ticks|
  {
    if ticks != [] {
      SavedPositive(Ticked(st, ticks[0]), ticks[1..]);
    }
  }

  // In a call, whatever ticks went before, a tick that debits queues a hangup if and only if
  // the limit is hard and the time since the call was connected, less what passed between
  // paired readings, has reached it.
  lemma HangupExactly(st: Stat, c1: int, c2: int, ticks: seq<Tick>, t: Tick)
    requires Ok(st) && c2 > 0 && forall i :: 0 <= i < |ticks| ==> ticks[i].second > 0
    ensures var c := Connected(st, c1, c2);
      var r := AfterTicks(c, ticks);
      t.now > r.saved + 5 ==>
        (HangsUp(r, t) <==>
          (st.limittype == '_' || st.limittype == '-') && t.debit - c2 - Slack(c, ticks) >= st.limits[st.limitnum])
  {
    var c := Connected(st, c1, c2);
    TicksKeepBalance(c, ticks);
    SavedPositive(c, ticks);
    var r := AfterTicks(c, ticks);
    if t.now > r.saved + 5 {
      Pays(r, t);
    }
  }

  // So a call under a hard limit for which no hangup was queued has been on for less than
  // the limit and 5 seconds.
  lemma NoHangupNoTime(st: Stat, c1: int, c2: int, ticks: seq<Tick>, t: Tick)
    requires Ok(st) && Hard(st) && st.limits[st.limitnum] > 0 && c2 > 0
    requires (forall i :: 0 <= i < |ticks| ==> ticks[i].second > 0) && t.now <= t.debit
    requires var c := Connected(st, c1, c2); !HungUp(c, ticks) && !HangsUp(AfterTicks(c, ticks), t)
    ensures t.now - c2 < st.limits[st.limitnum] + 5 + Slack(Connected(st, c1, c2), ticks)
  {
    var c := Connected(st, c1, c2);
    var r := AfterTicks(c, ticks);
    TicksKeepBalance(c, ticks);
    OvershootIsLess(c, ticks, t);
    if t.now > r.saved + 5 {
      HangupExactly(st, c1, c2, ticks, t);
    }
  }

  // ------------------------------------------------------------------
  // The device's statistics in place.
  // ------------------------------------------------------------------

  class CallStat {
    var sf: bool
    var start: int
    var connected: int
    var saved: int
    var end: int
    var limits: seq<int>
    var limitnum: nat
    var limittype: char

    function Now(): Stat
      reads this
    {
      Stat(sf, start, connected, saved, end, limits, limitnum, limittype)
    }

    constructor (limits: seq<int>, limitnum: nat, limittype: char)
      requires |limits| == 10 && limitnum < 10
      ensures Ok(Now()) && Now() == Stat(false, 0, 0, 0, 0, limits, limitnum, limittype)
    {
      sf, start, connected, saved, end := false, 0, 0, 0, 0;
      this.limits, this.limitnum, this.limittype := limits, limitnum, limittype;
    }

    // v_stat_call_start
    method CallStart(now: int)
      modifies this
      ensures Now() == Started(old(Now()), now)
      ensures !sf && start == now && connected == saved == 0 && limits == old(limits)
    {
      sf := false;
      start := now;
      connected := 0;
      saved := 0;
    }

    // v_stat_call_connected
    method CallConnected(c1: int, c2: int)
      modifies this
      ensures Now() == Connected(old(Now()), c1, c2)
      ensures sf && connected == c1 && saved == c2 && limits == old(limits)
    {
      sf := true;
      connected := c1;
      saved := c2;
    }

    // v_stat_call_process; outgoing says of each call whether it goes out, hung which of
    // them a hangup was queued for.
    method CallProcess(t: Tick, outgoing: seq<bool>) returns (hung: seq<bool>)
      requires Ok(Now())
      modifies this
      ensures Now() == Ticked(old(Now()), t)
      ensures |hung| == |outgoing| && forall k :: 0 <= k < |hung| ==> hung[k] == (outgoing[k] && HangsUp(old(Now()), t))
    {
      hung := seq(|outgoing|, _ => false);
      if sf {
        if saved > 0 && t.now - saved > 5 {
          hung := LimitsTemp(t, outgoing);
        }
      }
    }

    method LimitsTemp(t: Tick, outgoing: seq<bool>) returns (hung: seq<bool>)
      requires Ok(Now())
      modifies this
      ensures Now() == Debited(old(Now()), t.debit - old(saved)).(saved := t.second)
      ensures |hung| == |outgoing|
      ensures forall k :: 0 <= k < |hung| ==> hung[k] == (outgoing[k] && Hard(old(Now())) && Limit(Now()) <= 0)
    {
      hung := seq(|outgoing|, _ => false);
      limits := limits[limitnum := limits[limitnum] - (t.debit - saved)];
      saved := t.first;
      saved := t.second;
      if limittype == '_' || limittype == '-' {
        if limits[limitnum] <= 0 {
          var i := 0;
          while i < |outgoing|
            invariant i <= |outgoing| == |hung|
            invariant forall k :: 0 <= k < |hung| ==> hung[k] == (k < i && outgoing[k])
          {
            if outgoing[i] {
              hung := hung[i := true];
            }
            i := i + 1;
          }
        }
      }
    }

    // v_stat_call_end with limits_final
    method CallEnd(now: int, duration: int)
      requires Ok(Now())
      modifies this
      ensures Now() == Ended(old(Now()), now, duration)
      // of what was debited on the way and the duration only the duration is paid
      ensures !sf && end == now && limitnum == 0 && saved == old(connected) + duration
      ensures var k := old(limitnum);
        limits == old(limits)[k := old(limits[k]) + (old(saved) - old(connected)) - duration]
    {
      sf := false;
      end := now;
      limits := limits[limitnum := limits[limitnum] + (saved - connected)];
      var debit := duration;
      if limitnum == '_' as nat {
        debit := Rounded(duration);
      }
      limits := limits[limitnum := limits[limitnum] - debit];
      limitnum := 0;
      saved := connected + duration;
    }
  }
}
