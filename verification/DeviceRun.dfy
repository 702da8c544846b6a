// Whole runs of a device: everything its monitor, its callers and the discovery thread do
// to call records, queue and flags.
module DeviceRuns {
  import opened Sequences
  import opened AtRead
  import opened AtQueues
  import opened AtQueueStates
  import opened Restart
  import opened Devices

  // A call record by its place on the list, or the system record.
  datatype Who = Sys | Live(k: nat)

  datatype Wish = Wish(who: Who, cmds: seq<Cmd>, prio: bool, isConst: bool, mem: bool, ok: bool)

  datatype Act =
    // a call comes in, waits or is found by +CLCC; or its channel could not be started
    | Arrive(callIdx: int, outgoing: bool, state: CallState, ok: bool)
    | Fail(k: nat)
    | Change(k: nat, state: CallState)
    | Ask(wish: Wish)
    | HangUp(who: Who, mem: bool, ok: bool)
    | Write(ok: bool)
    | Ok
    | Error(res: Res, first: seq<Wish>)
    | Cmgr
    | Prompt
    | Origin(parsed: bool, callIndex: int, voice: bool)
    | End(callIndex: int)
    | Lost
    | Choose(holdOther: bool)
    | Request(memory: bool, made: bool)
    // flags set by other handlers, and a change asked for
    | Flags(work: Work)
    | Plan(event: DevState, when: RestateTime)

  function CallOf(d: Device, who: Who): (c: Call)
    reads d
    ensures c == d.sysChan || c in d.chans
  {
    if who.Live? && who.k < |d.chans| then d.chans[who.k] else d.sysChan
  }

  function InsertOf(d: Device, w: Wish): Insert<Call>
    reads d
  {
    Insert(CallOf(d, w.who), w.cmds, w.prio, w.isConst, w.mem, w.ok)
  }

  function InsertsOf(d: Device, first: seq<Wish>): (r: seq<Insert<Call>>)
    reads d
    ensures |r| == |first| && forall i :: 0 <= i < |r| ==> r[i].cpvt == d.sysChan || r[i].cpvt in d.chans
  {
    seq(|first|, i requires 0 <= i < |first| reads d => InsertOf(d, first[i]))
  }

  // References and counters: every queued task is for the system record or a live call,
  // the call last dialled is live, and the counters count what is there.
  ghost predicate Intact(d: Device)
    reads d, d.queue, d.chans
  {
    && (forall i :: 0 <= i < |d.queue.tasks| ==> d.queue.tasks[i].cpvt == d.sysChan || d.queue.tasks[i].cpvt in d.chans)
    && (d.lastDialed == null || d.lastDialed in d.chans)
    && d.status.work.chansno == |d.chans| && |d.chanCount| == 8
    && (forall s :: d.chanCount[Index(s)] == CountOf(StatesOf(d.chans), s) % 256)
    && d.queue.atTasks == |d.queue.tasks| && d.queue.atCmds == CmdsLeft(d.queue.tasks)
    && Good(d.queue.Now())
  }

  lemma ValidIntact(d: Device)
    requires d.Valid()
    ensures Intact(d)
  {
    hide Good, CmdsLeft, CountOf, Index;
    d.queue.ValidMeans();
  }

  // ------------------------------------------------------------------
  // What an act makes of the flags and the calls.
  // ------------------------------------------------------------------

  // The cached flags and the states of the calls, in the order of the list.
  datatype Snap = Snap(work: Work, states: seq<CallState>)

  ghost function SnapOf(d: Device): Snap
    reads d, d.chans
  {
    Snap(d.status.work, StatesOf(d.chans))
  }

  predicate SameFlags(a: Work, b: Work) {
    a.ring == b.ring && a.cwaiting == b.cwaiting && a.dialing == b.dialing
  }

  predicate Still(s: Snap, t: Snap) {
    t.states == s.states && SameFlags(s.work, t.work)
  }

  // Call k goes over to a state, or off the list.
  predicate Changed(s: Snap, k: nat, to: CallState, t: Snap) {
    && k < |s.states|
    && t.states == (if to == RELEASED then RemoveAt(s.states, k) else s.states[k := to])
    && FlagsOver(s.work, t.work, s.states[k], to)
  }

  ghost predicate Leads(s: Snap, act: Act, t: Snap) {
    match act
    case Arrive(_, _, state, _) =>
      SameFlags(s.work, t.work) && (t.states == s.states || t.states == s.states + [state])
    case Fail(k) =>
      SameFlags(s.work, t.work) && t.states == if k < |s.states| then RemoveAt(s.states, k) else s.states
    case Change(k, to) => if k < |s.states| then Changed(s, k, to, t) else Still(s, t)
    case Ok => t.states == s.states && (Still(s, t) || exists cmd :: OkOver(s.work, t.work, cmd))
    case Origin(_, _, _) => Still(s, t) || exists k :: Changed(s, k, DIALING, t)
    case End(_) => Still(s, t) || exists k :: Changed(s, k, RELEASED, t)
    case Lost => t.states == [] && !t.work.ring && !t.work.cwaiting && !t.work.dialing
    case Request(_, _) => SameFlags(s.work, t.work) && (t.states == s.states || t.states == s.states + [INIT])
    case Flags(work) => t.states == s.states && SameFlags(work, t.work)
    case _ => Still(s, t)
  }

  lemma CallsDistinct(d: Device)
    requires d.Valid()
    ensures Distinct(d.chans)
  {
  }

  // A call leaves the list.
  lemma EndStates(was: seq<Call>, now: seq<Call>, states: seq<CallState>, i: nat)
    requires i < |was| == |states| && Distinct(was) && now == Without(was, was[i])
    requires forall j :: 0 <= j < |was| && was[j] in now ==> was[j].state == states[j]
    ensures StatesOf(now) == RemoveAt(states, i)
  {
    WithoutAt(was, i);
    hide Without, Distinct;
    forall j | 0 <= j < |now|
      ensures now[j].state == RemoveAt(states, i)[j]
    {
      assert now[j] == if j < i then was[j] else was[j + 1];
    }
  }

  // A call of the list changes its state.
  lemma MovedStates(chans: seq<Call>, states: seq<CallState>, k: nat, to: CallState)
    requires k < |chans| == |states| && chans[k].state == to
    requires forall j :: 0 <= j < |chans| && j != k ==> chans[j].state == states[j]
    ensures StatesOf(chans) == states[k := to]
  {
  }

  // A record for a call that comes in; its id and state are those of the device.
  method TakeArrival(d: Device, callIdx: int, outgoing: bool, state: CallState, ok: bool)
    requires d.Valid()
    modifies d, d.queue, d.chans, d.sysChan
    ensures d.Valid() && forall c :: c in d.chans ==> c in old(d.chans) || fresh(c)
    ensures Leads(old(SnapOf(d)), Arrive(callIdx, outgoing, state, ok), SnapOf(d))
  {
    hide Device.Kept;
    if 0 <= callIdx <= MAX_CALL_IDX && state != RELEASED {
      var _ := d.CpvtAlloc(callIdx, outgoing, state, ok);
    }
  }

  // cpvt_free for a call whose channel could not be started.
  method TakeFailure(d: Device, k: nat)
    requires d.Valid()
    modifies d, d.queue, d.chans, d.sysChan
    ensures d.Valid() && forall c :: c in d.chans ==> c in old(d.chans) || fresh(c)
    ensures Leads(old(SnapOf(d)), Fail(k), SnapOf(d))
  {
    hide AtQueue.Valid, Linked, Counts, Distinct, Without, Relinked, Freed;
    if k < |d.chans| {
      ghost var st, was, states := d.status, d.chans, StatesOf(d.chans);
      d.CpvtFree(d.chans[k]);
      FreedWork(st, st.work, |d.chans|);
      EndStates(was, d.chans, states, k);
    }
  }

  method TakeChange(d: Device, k: nat, state: CallState)
    requires d.Valid()
    modifies d, d.queue, d.chans, d.sysChan
    ensures d.Valid() && forall c :: c in d.chans ==> c in old(d.chans) || fresh(c)
    ensures Leads(old(SnapOf(d)), Change(k, state), SnapOf(d))
  {
    hide Device.Kept, Without, Relinked, Freed, Distinct, FlagsOver;
    if k < |d.chans| {
      var c := d.chans[k];
      ghost var was, states := d.chans, StatesOf(d.chans);
      CallsDistinct(d);
      WithoutLength(d.chans, c);
      OnlyThere(was, k);
      d.ChangeChannelState(c, state);
      if state == RELEASED {
        EndStates(was, d.chans, states, k);
      } else {
        MovedStates(d.chans, states, k, state);
      }
      assert Changed(old(SnapOf(d)), k, state, SnapOf(d));
    }
  }

  lemma OnlyThere(chans: seq<Call>, k: nat)
    requires k < |chans| && Distinct(chans)
    ensures forall j :: 0 <= j < |chans| && j != k ==> chans[j] != chans[k]
  {
    forall j | 0 <= j < |chans| && j != k
      ensures chans[j] != chans[k]
    {
      if j < k {
      } else {
      }
    }
  }

  method TakeErrors(d: Device, res: Res, first: seq<Wish>)
    requires d.Valid()
    modifies d, d.queue, d.chans, d.sysChan
    ensures d.Valid() && forall c :: c in d.chans ==> c in old(d.chans) || fresh(c)
    ensures Leads(old(SnapOf(d)), Error(res, first), SnapOf(d))
  {
    hide Device.Kept;
    if IsError(res) {
      d.ResponseError(res, InsertsOf(d, first));
    }
  }

  method TakeOrigin(d: Device, parsed: bool, callIndex: int, voice: bool)
    requires d.Valid()
    modifies d, d.queue, d.chans, d.sysChan
    ensures d.Valid() && forall c :: c in d.chans ==> c in old(d.chans) || fresh(c)
    ensures Leads(old(SnapOf(d)), Origin(parsed, callIndex, voice), SnapOf(d))
  {
    hide AtQueue.Valid, Linked, Counts, Distinct, FlagsOver;
    ghost var states, c := StatesOf(d.chans), d.lastDialed;
    ghost var k: int := -1;
    if c != null {
      k :| 0 <= k < |d.chans| && d.chans[k] == c;
      OnlyThere(d.chans, k);
    }
    var _ := d.Orig(parsed, callIndex, voice);
    if k >= 0 && parsed && voice && 0 <= callIndex <= MAX_CALL_IDX {
      MovedStates(d.chans, states, k, DIALING);
      assert Changed(old(SnapOf(d)), k, DIALING, SnapOf(d));
    } else {
      assert StatesOf(d.chans) == states;
    }
  }

  // Flags of other handlers; the number of calls is not one of them.
  method TakeFlags(d: Device, work: Work)
    requires d.Valid()
    modifies d, d.queue, d.chans, d.sysChan
    ensures d.Valid() && forall c :: c in d.chans ==> c in old(d.chans) || fresh(c)
    ensures Leads(old(SnapOf(d)), Flags(work), SnapOf(d))
  {
    hide AtQueue.Valid, Linked, Counts, Distinct;
    d.status := d.status.(work := work.(chansno := d.status.work.chansno));
  }

  // schedule_restart_event
  method TakePlan(d: Device, event: DevState, when: RestateTime)
    requires d.Valid()
    modifies d, d.queue, d.chans, d.sysChan
    ensures d.Valid() && forall c :: c in d.chans ==> c in old(d.chans) || fresh(c)
    ensures Leads(old(SnapOf(d)), Act.Plan(event, when), SnapOf(d))
  {
    hide AtQueue.Valid, Linked, Counts, Distinct;
    RestateKeepsWork(Planned(d.status, d.status.plan.(desired := event, restartTime := when)));
    d.status := ScheduleRestart(d.status, event, when);
  }

  // Queueing and writing leave calls and flags alone.
  method TakeQueueing(d: Device, act: Act)
    requires act.Ask? || act.HangUp? || act.Write? || act.Prompt?
    requires d.Valid()
    modifies d, d.queue, d.chans, d.sysChan
    ensures d.Valid() && forall c :: c in d.chans ==> c in old(d.chans) || fresh(c)
    ensures Leads(old(SnapOf(d)), act, SnapOf(d))
  {
    hide Device.Valid, Device.Kept;
    match act {
      case Ask(wish) => var _ := d.Enqueue(InsertOf(d, wish));
      case HangUp(who, mem, ok) => var _ := d.EnqueHangup(CallOf(d, who), mem, ok);
      case Write(ok) => var _ := d.Turn(ok);
      case Prompt => d.ResponsePrompt();
    }
  }

  method TakeOk(d: Device)
    requires d.Valid()
    modifies d, d.queue, d.chans, d.sysChan
    ensures d.Valid() && forall c :: c in d.chans ==> c in old(d.chans) || fresh(c)
    ensures Leads(old(SnapOf(d)), Ok, SnapOf(d))
  {
    hide Device.Valid, Device.Kept, AfterOk, HangupAfterOk, OkOver;
    ghost var st, q, states := d.status, d.queue.Now(), StatesOf(d.chans);
    MeansFormed(d);
    d.ResponseOk();
    assert StatesOf(d.chans) == states;
    if Moves(q, RES_OK) {
      OkFlags(st, q.tasks[0].cmds[q.tasks[0].cindex].cmd);
    }
  }

  lemma MeansFormed(d: Device)
    requires d.Valid()
    ensures Formed(d.queue.tasks)
  {
    d.queue.ValidMeans();
  }

  method TakeCmgr(d: Device)
    requires d.Valid()
    modifies d, d.queue, d.chans, d.sysChan
    ensures d.Valid() && forall c :: c in d.chans ==> c in old(d.chans) || fresh(c)
    ensures Leads(old(SnapOf(d)), Cmgr, SnapOf(d))
  {
    hide Device.Valid, Device.Kept, NoIncoming, Moves;
    NoIncomingFlags(d.status);
    MeansFormed(d);
    d.ResponseCmgr();
  }

  method TakeEnd(d: Device, callIndex: int)
    requires d.Valid()
    modifies d, d.queue, d.chans, d.sysChan
    ensures d.Valid() && forall c :: c in d.chans ==> c in old(d.chans) || fresh(c)
    ensures Leads(old(SnapOf(d)), End(callIndex), SnapOf(d))
  {
    hide Device.Valid, Device.Kept, Distinct, FlagsOver, Without, InUse, FirstWith;
    ghost var was, states := d.chans, StatesOf(d.chans);
    CallsDistinct(d);
    ghost var i: int := -1;
    if InUse(d.chans, callIndex) {
      i := FirstOf(d.chans, callIndex);
    }
    d.Cend(callIndex);
    if i >= 0 {
      EndStates(was, d.chans, states, i);
      assert Changed(old(SnapOf(d)), i, RELEASED, SnapOf(d));
    }
  }

  lemma {:induction false} FirstOf(chans: seq<Call>, callIndex: int) returns (i: nat)
    requires InUse(chans, callIndex)
    ensures FirstWith(chans, callIndex, i)
  {
    i := 0;
    while chans[i].callIdx != callIndex
      invariant i < |chans| && forall j :: 0 <= j < i ==> chans[j].callIdx != callIndex
      decreases |chans| - i
    {
      i := i + 1;
    }
  }

  method TakeLoss(d: Device)
    requires d.Valid()
    modifies d, d.queue, d.chans, d.sysChan
    ensures d.Valid() && forall c :: c in d.chans ==> c in old(d.chans) || fresh(c)
    ensures Leads(old(SnapOf(d)), Lost, SnapOf(d))
  {
    hide Device.Valid, Device.Kept;
    d.Disconnect();
    assert StatesOf(d.chans) == [];
  }

  method TakeClaim(d: Device, holdOther: bool)
    requires d.Valid()
    modifies d, d.queue, d.chans, d.sysChan
    ensures d.Valid() && forall c :: c in d.chans ==> c in old(d.chans) || fresh(c)
    ensures Leads(old(SnapOf(d)), Choose(holdOther), SnapOf(d))
  {
    hide Device.Valid, Device.Kept, MayDial;
    var _ := d.Claim(holdOther);
  }

  method TakeRequest(d: Device, memory: bool, made: bool)
    requires d.Valid()
    modifies d, d.queue, d.chans, d.sysChan
    ensures d.Valid() && forall c :: c in d.chans ==> c in old(d.chans) || fresh(c)
    ensures Leads(old(SnapOf(d)), Request(memory, made), SnapOf(d))
  {
    hide Device.Valid, Device.Kept, Freed;
    ghost var st, states := d.status, StatesOf(d.chans);
    var c := d.ChannelRequest(memory, made);
    FreedWork(st, st.work, |d.chans|);
    if c != null {
      assert StatesOf(d.chans) == states + [INIT];
    } else {
      assert StatesOf(d.chans) == states;
    }
  }

  method Take(d: Device, act: Act)
    requires d.Valid()
    modifies d, d.queue, d.chans, d.sysChan
    ensures d.Valid() && forall c :: c in d.chans ==> c in old(d.chans) || fresh(c)
    ensures Leads(old(SnapOf(d)), act, SnapOf(d))
  {
    hide Device.Valid, Device.Kept, Leads;
    match act {
      case Arrive(callIdx, outgoing, state, ok) => TakeArrival(d, callIdx, outgoing, state, ok);
      case Fail(k) => TakeFailure(d, k);
      case Change(k, state) => TakeChange(d, k, state);
      case Ok => TakeOk(d);
      case Error(res, first) => TakeErrors(d, res, first);
      case Cmgr => TakeCmgr(d);
      case Origin(parsed, callIndex, voice) => TakeOrigin(d, parsed, callIndex, voice);
      case End(callIndex) => TakeEnd(d, callIndex);
      case Lost => TakeLoss(d);
      case Choose(holdOther) => TakeClaim(d, holdOther);
      case Request(memory, made) => TakeRequest(d, memory, made);
      case Flags(work) => TakeFlags(d, work);
      case Plan(event, when) => TakePlan(d, event, when);
      case _ => TakeQueueing(d, act);
    }
  }

  // A run as flags and states see it: one step for each act.
  ghost predicate Traced(acts: seq<Act>, trace: seq<Snap>) {
    |trace| == |acts| + 1 && forall i :: 0 <= i < |acts| ==> Leads(trace[i], acts[i], trace[i + 1])
  }

  lemma TraceBegins(s: Snap)
    ensures Traced([], [s])
  {
  }

  lemma TraceGrows(acts: seq<Act>, i: nat, trace: seq<Snap>, t: Snap)
    requires i < |acts| && Traced(acts[..i], trace) && Leads(trace[i], acts[i], t)
    ensures Traced(acts[..i + 1], trace + [t])
  {
    hide Leads;
    var longer := trace + [t];
    forall j | 0 <= j < i + 1
      ensures Leads(longer[j], acts[..i + 1][j], longer[j + 1])
    {
      assert j < i ==> acts[..i + 1][j] == acts[..i][j];
    }
  }

  // After any number of acts, in any order, all references are live and all counters right,
  // and flags and states went the way of the acts.
  method Run(d: Device, acts: seq<Act>) returns (ghost trace: seq<Snap>)
    requires d.Valid()
    modifies d, d.queue, d.chans, d.sysChan
    ensures d.Valid() && Intact(d)
    ensures Traced(acts, trace) && trace[0] == old(SnapOf(d)) && trace[|acts|] == SnapOf(d)
  {
    hide Device.Valid, Intact, Traced, SnapOf, Leads;
    var i := 0;
    trace := [SnapOf(d)];
    TraceBegins(trace[0]);
    assert acts[..0] == [];
    while i < |acts|
      invariant i <= |acts| && d.Valid()
      invariant forall k :: 0 <= k < |d.chans| ==> d.chans[k] in old(d.chans) || fresh(d.chans[k])
      invariant |trace| == i + 1 && trace[0] == old(SnapOf(d)) && trace[i] == SnapOf(d)
      invariant Traced(acts[..i], trace)
    {
      Take(d, acts[i]);
      assert forall k :: 0 <= k < |d.chans| ==> d.chans[k] in d.chans;
      TraceGrows(acts, i, trace, SnapOf(d));
      trace := trace + [SnapOf(d)];
      i := i + 1;
    }
    assert acts[..i] == acts;
    ValidIntact(d);
  }
}
