// When a device may be used and when it is restarted: schedule_restart_event
// (helpers.c), pvt_time4restate, pvt_try_restate, pvt_enabled, ready4voice_call and the
// discovery thread (chan_dongle.c).
module Restart {
  datatype DevState = STOPPED | RESTARTED | REMOVED | STARTED
  datatype RestateTime = NOW | GRACEFULLY | CONVENIENT

  // The fields of the device structure that admission and restart look at: the state
  // and the one asked for, the connection, and what the device is doing.
  datatype Plan = Plan(current: DevState, desired: DevState, restartTime: RestateTime)
  datatype Link = Link(monitor: bool, connected: bool, initialized: bool, hasVoice: bool, gsmRegistered: bool)
  datatype Work = Work(
    ring: bool, cwaiting: bool, dialing: bool,
    outgoingSms: bool, incomingSms: bool, outgoingUssd: bool, selectBusy: bool, chansno: nat)

  datatype Status = Status(plan: Plan, link: Link, work: Work, mustRemove: bool)

  function Planned(st: Status, plan: Plan): Status {
    st.(plan := plan)
  }

  predicate Quiet(st: Status) {
    st.work.chansno == 0 && !st.work.outgoingSms && !st.work.incomingSms && !st.work.outgoingUssd
  }

  predicate TimeForRestate(st: Status) {
    st.plan.desired != st.plan.current && (st.plan.restartTime == NOW || Quiet(st))
  }

  function TryRestate(st: Status): Status {
    if TimeForRestate(st) then Planned(st, st.plan.(restartTime := NOW)) else st
  }

  function ScheduleRestart(st: Status, event: DevState, when: RestateTime): Status {
    TryRestate(Planned(st, st.plan.(desired := event, restartTime := when)))
  }

  predicate Enabled(st: Status) {
    st.plan.current == STARTED && (st.plan.desired == st.plan.current || st.plan.restartTime == CONVENIENT)
  }

  // ready4voice_call up to the calls there are.
  predicate Ready(st: Status) {
    && st.link.connected && st.link.initialized && st.link.hasVoice && st.link.gsmRegistered && Enabled(st)
    && !st.work.outgoingSms && !st.work.outgoingUssd && !st.work.selectBusy
  }

  // What readiness needs: each of these alone keeps the device from a call.
  lemma ReadyNeeds(st: Status)
    ensures Ready(st) <==>
      && st.link.connected && st.link.initialized && st.link.hasVoice && st.link.gsmRegistered
      && st.plan.current == STARTED && (st.plan.desired == STARTED || st.plan.restartTime == CONVENIENT)
      && !st.work.outgoingSms && !st.work.outgoingUssd && !st.work.selectBusy
  {
  }

  // A pending request turns into one for now as soon as it is looked for with no call, no
  // message and no USSD request in progress, and not before; nothing else changes.
  lemma TurnsWhenQuiet(st: Status)
    ensures var w := st.work;
      TryRestate(st) ==
        if st.plan.desired != st.plan.current && w.chansno == 0 && !w.outgoingSms && !w.incomingSms && !w.outgoingUssd
        then st.(plan := st.plan.(restartTime := NOW)) else st
  {
  }

  // A pending restart has been looked for: it is for now if the device is quiet.
  predicate LookedFor(was: Plan, now: Status) {
    now.plan == if was.desired != was.current && Quiet(now) then was.(restartTime := NOW) else was
  }

  lemma RestateLooks(st: Status)
    ensures LookedFor(st.plan, TryRestate(st))
  {
  }

  // A request takes effect at once exactly if there is something to change and it is for now
  // or the device is quiet; what was asked before is forgotten.
  lemma TakesEffect(st: Status, event: DevState, when: RestateTime)
    ensures var r, w := ScheduleRestart(st, event, when), st.work;
      && (Acts(r) <==> event != st.plan.current
                       && (when == NOW || (w.chansno == 0 && !w.outgoingSms && !w.incomingSms && !w.outgoingUssd)))
      && r.plan.desired == event && (!Acts(r) ==> r.plan.restartTime == when) && r.work == st.work
  {
  }

  // What disconnect_dongle makes of these fields once the calls are released.
  function Disconnected(st: Status): Status {
    Status(st.plan.(current := STOPPED), Link(false, false, false, false, false),
           Work(false, false, false, false, false, false, false, 0), st.mustRemove)
  }

  // Nothing is connected, nothing in progress, and no request to change is forgotten.
  lemma DisconnectedIdle(st: Status)
    ensures var r := Disconnected(st);
      && r.plan.current == STOPPED && r.plan.desired == st.plan.desired && r.plan.restartTime == st.plan.restartTime
      && !r.link.connected && !r.link.initialized && !r.link.monitor && !r.link.gsmRegistered && !r.link.hasVoice
      && Quiet(r) && !r.work.ring && !r.work.cwaiting && !r.work.dialing && !r.work.selectBusy && !Ready(r)
  {
  }

  // pvt_stop waits for the monitor thread, which disconnects the device as it ends.
  function Stop(st: Status): Status {
    if st.link.monitor then Disconnected(st) else st
  }

  // up: the device is found and its ports and the monitor thread start.
  function Start(st: Status, up: bool): Status {
    if st.link.connected || st.plan.desired != STARTED then st
    else
      var s := Stop(st);
      if up then
        Status(s.plan.(current := STARTED), s.link.(connected := true, monitor := true),
            s.work.(selectBusy := false), s.mustRemove)
      else s
  }

  predicate Acts(st: Status) {
    st.plan.restartTime == NOW && st.plan.desired != st.plan.current
  }

  // The turn of the discovery thread for one device.
  function Discover(st: Status, up: bool): Status {
    var s := st.(mustRemove := false);
    if !Acts(s) then s
    else
      match s.plan.desired
      case RESTARTED => Start(Planned(Stop(s), Stop(s).plan.(desired := STARTED)), up)
      case STARTED => Start(s, up)
      case REMOVED => Stop(s).(mustRemove := true)
      case STOPPED => Stop(s)
  }

  // ------------------------------------------------------------------
  // Runs.
  // ------------------------------------------------------------------

  // Activity: anything that leaves the three restart fields alone. Finish: a handler
  // that ends a call or a message and then looks for a pending restart. Drop: the
  // device goes away by itself; its calls have been released before, each with a Finish
  // of its own.
  datatype Step =
    | Schedule(event: DevState, when: RestateTime)
    | Activity
    | Finish
    | Discovery(up: bool)
    | Drop

  predicate SamePlan(st: Status, next: Status) {
    st.plan == next.plan
  }

  predicate Next(st: Status, step: Step, next: Status) {
    match step
    case Schedule(event, when) => next == ScheduleRestart(st, event, when)
    case Activity => SamePlan(st, next)
    case Finish => next == TryRestate(st)
    case Discovery(up) => next == Discover(st, up)
    case Drop => st.work.chansno == 0 && next == Disconnected(st)
  }

  ghost predicate Run(states: seq<Status>, steps: seq<Step>) {
    |states| == |steps| + 1 && forall i :: 0 <= i < |steps| ==> Next(states[i], steps[i], states[i + 1])
  }

  // A request for a later time, and no request after it.
  predicate Requested(steps: seq<Step>) {
    && steps != [] && steps[0].Schedule? && steps[0].when != NOW
    && forall i :: 0 < i < |steps| ==> !steps[i].Schedule?
  }

  // The state in which the request turned into a restart now: nothing in progress and
  // something to change.
  predicate Turns(st: Status) {
    Quiet(st) && st.plan.desired != st.plan.current && st.plan.restartTime != NOW
  }

  function Asked(st: Status, step: Step): Status
    requires step.Schedule?
  {
    Planned(st, st.plan.(desired := step.event, restartTime := step.when))
  }

  // A request for later takes effect only if at some moment before, the device was idle.
  lemma {:induction false} NowOnlyWhenQuiet(states: seq<Status>, steps: seq<Step>)
    requires Run(states, steps) && Requested(steps) && states[|steps|].plan.restartTime == NOW
    ensures Turns(Asked(states[0], steps[0])) || exists i :: 0 < i < |steps| && Turns(states[i])
    decreases |steps|
  {
    var n := |steps|;
    if n > 1 && !Turns(states[n - 1]) {
      NowOnlyWhenQuiet(states[..n], steps[..n - 1]);
      if i :| 0 < i < n - 1 && Turns(states[..n][i]) {
        assert Turns(states[i]);
      }
    }
  }

  // Discovery has not acted in the run.
  ghost predicate Untouched(states: seq<Status>, steps: seq<Step>)
    requires Run(states, steps)
  {
    forall i :: 0 <= i < |steps| && steps[i].Discovery? ==> !Acts(states[i])
  }

  // What holds from a request for later until discovery acts on it.
  predicate Pending(st: Status, event: DevState, when: RestateTime) {
    && st.plan.desired == event && (st.plan.restartTime == NOW || st.plan.restartTime == when)
    && (event == STARTED ==> st.plan.current != STARTED)
  }

  lemma PendingStays(st: Status, step: Step, next: Status, event: DevState, when: RestateTime)
    requires Pending(st, event, when) && Next(st, step, next) && !step.Schedule? && (step.Discovery? ==> !Acts(st))
    ensures Pending(next, event, when)
  {
    hide Quiet;
    match step {
      case Discovery(up) => assert next == st.(mustRemove := false);
      case _ =>
    }
  }

  // Until discovery acts, a device asked to change gracefully is not used; one asked to
  // change when convenient is used exactly while it runs and has not turned.
  lemma {:induction false} PendingUse(states: seq<Status>, steps: seq<Step>)
    requires Run(states, steps) && Requested(steps) && Untouched(states, steps)
    requires steps[0].event != states[0].plan.current
    ensures var st := states[|steps|];
      && Pending(st, steps[0].event, steps[0].when)
      && (steps[0].when == GRACEFULLY ==> !Enabled(st) && !Ready(st))
      && (steps[0].when == CONVENIENT ==>
            (Enabled(st) <==> st.plan.current == STARTED && st.plan.restartTime == CONVENIENT))
    decreases |steps|
  {
    hide Next, Acts;
    var n := |steps|;
    assert Next(states[n - 1], steps[n - 1], states[n]);
    if n > 1 {
      PendingUse(states[..n], steps[..n - 1]);
      PendingStays(states[n - 1], steps[n - 1], states[n], steps[0].event, steps[0].when);
    } else {
      PendingStarts(states[0], steps[0], states[1]);
    }
  }

  lemma PendingStarts(st: Status, step: Step, next: Status)
    requires step.Schedule? && step.event != st.plan.current && Next(st, step, next)
    ensures Pending(next, step.event, step.when)
  {
  }

  // A change asked for at a convenient time while a call is on: the device is still ready
  // for another, and turns only when the call has gone.
  lemma ConvenientStillUsed()
    ensures var busy := Work(false, false, false, false, false, false, false, 1);
      var st := Status(Plan(STARTED, STARTED, NOW), Link(true, true, true, true, true), busy, false);
      var asked := ScheduleRestart(st, STOPPED, CONVENIENT);
      && Ready(asked) && asked.plan.desired != asked.plan.current
      && !Ready(ScheduleRestart(st, STOPPED, GRACEFULLY))
      && TryRestate(asked.(work := busy.(chansno := 0))).plan.restartTime == NOW
  {
  }

  // A request for the state the device is in stays behind: if the device then drops,
  // no number of discovery turns starts it again.
  function Discoveries(st: Status, ups: seq<bool>): Status
    decreases |ups|
  {
    if ups == [] then st else Discoveries(Discover(st, ups[0]), ups[1..])
  }

  lemma {:induction false} LeftBehind(st: Status, when: RestateTime, ups: seq<bool>)
    requires st.plan.current == STARTED
    ensures when != NOW <==>
            Discoveries(Disconnected(ScheduleRestart(st, STARTED, when)), [true] + ups).plan.current == STOPPED
  {
    var s := Disconnected(ScheduleRestart(st, STARTED, when));
    var t := Discover(s, true);
    assert ([true] + ups)[1..] == ups;
    DiscoveriesStay(t, ups);
  }

  lemma {:induction false} DiscoveriesStay(st: Status, ups: seq<bool>)
    requires !Acts(st)
    ensures Discoveries(st, ups).plan.current == st.plan.current
    decreases |ups|
  {
    if ups != [] {
      DiscoveriesStay(Discover(st, ups[0]), ups[1..]);
    }
  }

  // Outside disconnect, the device is connected exactly while its monitor runs, and
  // that is when its state is STARTED.
  predicate Settled(st: Status) {
    st.link.monitor == st.link.connected == (st.plan.current == STARTED) && st.plan.current in {STARTED, STOPPED}
  }

  // A turn of discovery brings a settled device to the state asked for. A start succeeds
  // exactly if the device comes up; a restart leaves STARTED as the state asked for.
  lemma DiscoveryReaches(st: Status, up: bool)
    requires Settled(st) && Acts(st)
    ensures var r := Discover(st, up);
      && Settled(r) && r.plan.restartTime == NOW
      && (r.plan.current == STARTED <==> up && st.plan.desired in {STARTED, RESTARTED})
      && r.plan.desired == (if st.plan.desired == RESTARTED then STARTED else st.plan.desired)
      && (r.mustRemove <==> st.plan.desired == REMOVED)
      && !(r.plan.current == STARTED && r.work.selectBusy)
  {
    var s := st.(mustRemove := false);
    StopSettles(s);
    StopSettles(Planned(Stop(s), Stop(s).plan.(desired := STARTED)));
    hide Stop;
  }

  lemma StopSettles(s: Status)
    requires Settled(s)
    ensures Settled(Stop(s)) && Stop(s).plan.current == STOPPED && Stop(s).mustRemove == s.mustRemove
    ensures Stop(s).plan.desired == s.plan.desired && Stop(s).plan.restartTime == s.plan.restartTime
    ensures s.plan.current == STOPPED ==> Stop(s) == s
  {
  }
}
