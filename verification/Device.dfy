// Call records and the device that holds them: cpvt.c, change_channel_state
// (channel.c) and the admission predicates (chan_dongle.c).
module Devices {
  import opened Sequences
  import opened AtRead
  import opened AtQueues
  import opened AtQueueStates
  import opened Restart

  datatype CallState = ACTIVE | ONHOLD | DIALING | ALERTING | INCOMING | WAITING | RELEASED | INIT

  function Index(s: CallState): (i: nat)
    ensures i < 8
  {
    match s
    case ACTIVE => 0 case ONHOLD => 1 case DIALING => 2 case ALERTING => 3
    case INCOMING => 4 case WAITING => 5 case RELEASED => 6 case INIT => 7
  }

  const MAX_CALL_IDX := 31

  // The commands of at_enque_hangup.
  const HANGUP := [Cmd(CMD_AT_CHUP, RES_OK, false, "AT+CHUP\r"), Cmd(CMD_AT_CLCC, RES_OK, false, "AT+CLCC\r")]

  // ------------------------------------------------------------------
  // Counting calls.
  // ------------------------------------------------------------------

  function CountOf(states: seq<CallState>, s: CallState): nat {
    if states == [] then 0 else (if states[0] == s then 1 else 0) + CountOf(states[1..], s)
  }

  lemma {:induction false} CountJoins(a: seq<CallState>, b: seq<CallState>, s: CallState)
    ensures CountOf(a + b, s) == CountOf(a, s) + CountOf(b, s)
  {
    if a == [] {
      assert a + b == b;
    } else {
      CountJoins(a[1..], b, s);
      assert (a + b)[1..] == a[1..] + b;
    }
  }

  lemma CountSplits(states: seq<CallState>, i: nat, s: CallState)
    requires i < |states|
    ensures CountOf(states, s) == CountOf(states[..i] + states[i + 1..], s) + (if states[i] == s then 1 else 0)
  {
    assert states == states[..i] + [states[i]] + states[i + 1..];
    CountJoins(states[..i] + [states[i]], states[i + 1..], s);
    CountJoins(states[..i], [states[i]], s);
    CountJoins(states[..i], states[i + 1..], s);
  }

  lemma CountChanges(states: seq<CallState>, i: nat, to: CallState, s: CallState)
    requires i < |states|
    ensures CountOf(states[i := to], s) + (if states[i] == s then 1 else 0)
         == CountOf(states, s) + (if to == s then 1 else 0)
  {
    CountSplits(states, i, s);
    CountSplits(states[i := to], i, s);
    assert states[i := to][..i] == states[..i] && states[i := to][i + 1..] == states[i + 1..];
  }

  // chan_count: counters of 8 bits, one for each state.
  ghost predicate Counts(counts: seq<nat>, states: seq<CallState>) {
    |counts| == 8 && forall s :: counts[Index(s)] == CountOf(states, s) % 256
  }

  function Up(n: nat): nat {
    (n + 1) % 256
  }

  function Down(n: nat): nat {
    (n + 255) % 256
  }

  lemma IndexInjective()
    ensures forall s: CallState, t: CallState :: Index(s) == Index(t) ==> s == t
  {
  }

  lemma CounterMoves(n: nat)
    ensures Up(n % 256) == (n + 1) % 256 && Down((n + 1) % 256) == n % 256
  {
  }

  lemma CountsAdd(counts: seq<nat>, states: seq<CallState>, s: CallState)
    requires Counts(counts, states)
    ensures Counts(counts[Index(s) := Up(counts[Index(s)])], states + [s])
  {
    hide Index, Up, CountOf;
    IndexInjective();
    forall t: CallState
      ensures counts[Index(s) := Up(counts[Index(s)])][Index(t)] == CountOf(states + [s], t) % 256
    {
      CountJoins(states, [s], t);
      CountOne(s, t);
      CounterMoves(CountOf(states, t));
    }
  }

  lemma CountOne(s: CallState, t: CallState)
    ensures CountOf([s], t) == if s == t then 1 else 0
  {
  }

  lemma CountsRemove(counts: seq<nat>, states: seq<CallState>, i: nat)
    requires Counts(counts, states) && i < |states|
    ensures Counts(counts[Index(states[i]) := Down(counts[Index(states[i])])], states[..i] + states[i + 1..])
  {
    hide Index, Down, CountOf;
    IndexInjective();
    var rest := states[..i] + states[i + 1..];
    forall t: CallState
      ensures counts[Index(states[i]) := Down(counts[Index(states[i])])][Index(t)] == CountOf(rest, t) % 256
    {
      CountSplits(states, i, t);
      CounterMoves(CountOf(rest, t));
    }
  }

  lemma CountsMove(counts: seq<nat>, states: seq<CallState>, i: nat, to: CallState)
    requires |counts| == 8 && Counts(counts, states) && i < |states| && to != states[i]
    ensures var down := counts[Index(states[i]) := Down(counts[Index(states[i])])];
      Counts(down[Index(to) := Up(down[Index(to)])], states[i := to])
  {
    hide Counts, Index, Up, Down, CountOf;
    var down := counts[Index(states[i]) := Down(counts[Index(states[i])])];
    var rest := states[..i] + states[i + 1..];
    CountsRemove(counts, states, i);
    CountsAdd(down, rest, to);
    CountsSame(down[Index(to) := Up(down[Index(to)])], rest + [to], states[i := to], i);
  }

  lemma CountsSame(counts: seq<nat>, a: seq<CallState>, b: seq<CallState>, i: nat)
    requires Counts(counts, a) && i < |b| && a == b[..i] + b[i + 1..] + [b[i]]
    ensures Counts(counts, b)
  {
    hide Index, CountOf;
    forall t: CallState
      ensures CountOf(a, t) == CountOf(b, t)
    {
      CountJoins(b[..i] + b[i + 1..], [b[i]], t);
      CountOne(b[i], t);
      CountSplits(b, i, t);
    }
  }

  lemma NoCalls()
    ensures Counts([0, 0, 0, 0, 0, 0, 0, 0], [])
  {
  }

  // ------------------------------------------------------------------
  // May another call be dialled?
  // ------------------------------------------------------------------

  predicate Has(states: seq<CallState>, s: CallState) {
    exists i :: 0 <= i < |states| && states[i] == s
  }

  // is_dial_possible2 on the states of the calls, the ignored one left out: every call
  // is active or held, and there are such calls only when others may be put on hold,
  // and then not both kinds.
  ghost predicate MayDial(work: Work, states: seq<CallState>, holdOther: bool) {
    && !work.ring && !work.cwaiting && !work.dialing
    && (forall s :: Has(states, s) ==> s in {ACTIVE, ONHOLD, RELEASED})
    && (Has(states, ACTIVE) || Has(states, ONHOLD) ==> holdOther)
    && !(Has(states, ACTIVE) && Has(states, ONHOLD))
  }

  class Call {
    var callIdx: int
    var state: CallState
    const outgoing: bool
    // whether an Asterisk channel is attached
    var channel: bool
    var needHangup: bool

    constructor (callIdx: int, outgoing: bool, state: CallState)
      ensures this.callIdx == callIdx && this.outgoing == outgoing && this.state == state && !channel && !needHangup
    {
      this.callIdx, this.outgoing, this.state, channel, needHangup := callIdx, outgoing, state, false, false;
    }
  }

  ghost function StatesOf(chans: seq<Call>): (r: seq<CallState>)
    reads chans
    ensures |r| == |chans| && forall i :: 0 <= i < |r| ==> r[i] == chans[i].state
  {
    seq(|chans|, i requires 0 <= i < |chans| reads chans => chans[i].state)
  }

  // Every task on the queue is for the system record or a live call.
  ghost predicate Linked(tasks: seq<Task<Call>>, sys: Call, chans: seq<Call>) {
    forall i :: 0 <= i < |tasks| ==> tasks[i].cpvt == sys || tasks[i].cpvt in chans
  }

  function Without(chans: seq<Call>, c: Call): seq<Call> {
    if chans == [] then [] else if chans[0] == c then chans[1..] else [chans[0]] + Without(chans[1..], c)
  }

  lemma {:induction false} WithoutAt(chans: seq<Call>, i: nat)
    requires i < |chans| && Distinct(chans)
    ensures Without(chans, chans[i]) == chans[..i] + chans[i + 1..]
  {
    if i > 0 {
      assert chans[0] != chans[i];
      WithoutAt(chans[1..], i - 1);
      assert chans[1..][..i - 1] == chans[1..i] && chans[1..][i..] == chans[i + 1..];
    }
  }

  class Device {
    const sysChan: Call
    const queue: AtQueue<Call>
    var chans: seq<Call>
    var chanCount: seq<nat>
    var lastDialed: Call?
    var status: Status

    // All that holds of the records, and of what points to them, between and during the
    // operations.
    ghost predicate Kept()
      reads this, queue, chans
    {
      && queue.Valid() && Distinct(chans) && sysChan !in chans
      && Linked(queue.tasks, sysChan, chans)
      && (lastDialed == null || lastDialed in chans)
      && status.work.chansno == |chans| && |chanCount| == 8
      && Counts(chanCount, StatesOf(chans))
      && (forall c :: c in chans ==> 0 <= c.callIdx <= MAX_CALL_IDX)
    }

    ghost predicate Valid()
      reads this, queue, chans
    {
      Kept() && forall c :: c in chans ==> c.state != RELEASED
    }

    constructor (status: Status)
      requires status.work.chansno == 0
      ensures Valid() && chans == [] && lastDialed == null && this.status == status
      ensures fresh(queue) && fresh(sysChan) && queue.Now() == Empty()
    {
      hide AtQueue.Valid, Counts;
      sysChan := new Call(0, true, RELEASED);
      queue := new AtQueue<Call>();
      chans, lastDialed, chanCount := [], null, [0, 0, 0, 0, 0, 0, 0, 0];
      this.status := status;
      new;
      NoCalls();
      assert StatesOf(chans) == [];
      EmptyTasks();
    }

    // cpvt_alloc; ok: the pipe and the memory are there.
    method CpvtAlloc(callIdx: int, outgoing: bool, state: CallState, ok: bool) returns (c: Call?)
      requires Valid() && 0 <= callIdx <= MAX_CALL_IDX && state != RELEASED
      modifies this
      ensures Valid() && lastDialed == old(lastDialed)
      ensures if ok then
                c != null && fresh(c) && chans == old(chans) + [c]
                && c.callIdx == callIdx && c.state == state && c.outgoing == outgoing && !c.channel
                && status == old(status).(work := old(status).work.(chansno := |chans|))
              else c == null && chans == old(chans) && status == old(status)
    {
      hide AtQueue.Valid, Counts, Index, Up;
      c := null;
      if ok {
        c := new Call(callIdx, outgoing, state);
        CountsAdd(chanCount, StatesOf(chans), state);
        chans := chans + [c];
        status := status.(work := status.work.(chansno := status.work.chansno + 1));
        chanCount := chanCount[Index(state) := Up(chanCount[Index(state)])];
        assert StatesOf(chans) == old(StatesOf(chans)) + [state];
      }
    }

    // The search of cpvt_free for the record, and its removal from the list.
    method Unlist(c: Call)
      requires Kept() && c in chans
      modifies this`chans, this`chanCount, this`status
      ensures chans == Without(old(chans), c) && c !in chans && Distinct(chans)
      ensures forall d :: d in old(chans) <==> d in chans || d == c
      ensures |chanCount| == 8 && Counts(chanCount, StatesOf(chans))
      ensures status == old(status).(work := old(status).work.(chansno := |chans|))
    {
      hide AtQueue.Valid, Linked, Counts, Index, Down, Distinct, Without;
      var i := 0;
      while chans[i] != c
        invariant i < |chans| && c !in chans[..i] && c in chans[i..]
        decreases |chans| - i
      {
        assert c in chans[i + 1..];
        i := i + 1;
      }
      Unlisted(chans, i);
      CountsRemove(chanCount, StatesOf(chans), i);
      chanCount := chanCount[Index(c.state) := Down(chanCount[Index(c.state)])];
      chans := chans[..i] + chans[i + 1..];
      status := status.(work := status.work.(chansno := status.work.chansno - 1));
      assert StatesOf(chans) == old(StatesOf(chans))[..i] + old(StatesOf(chans))[i + 1..];
    }

    // cpvt_free
    method CpvtFree(c: Call)
      requires Kept() && c in chans
      modifies this, queue
      ensures Kept() && chans == Without(old(chans), c) && c !in chans
      ensures forall d :: d in old(chans) <==> d in chans || d == c
      ensures queue.Now() == old(queue.Now()).(tasks := Relinked(old(queue.tasks), c, sysChan))
      ensures lastDialed == if old(lastDialed) == c then null else old(lastDialed)
      ensures status == Freed(old(status), |chans|)
      // with the last call a pending restart is looked for
      ensures if chans == [] then LookedFor(old(status).plan, status) else status.plan == old(status).plan
    {
      hide AtQueue.Valid, Relinked, Linked, Counts, Without, Distinct;
      ghost var was := chans;
      Unlist(c);
      RelinkedLinked(queue.tasks, sysChan, was, c, chans);
      queue.Relink(c, sysChan);
      if lastDialed == c {
        lastDialed := null;
      }
      if status.work.chansno == 0 {
        status := TryRestate(status);
      }
    }

    // pvt_find_cpvt
    method FindCpvt(callIdx: int) returns (c: Call?)
      requires Valid()
      ensures c == null <==> !InUse(chans, callIdx)
      ensures c != null ==> exists i :: FirstWith(chans, callIdx, i) && c == chans[i]
    {
      c := null;
      var i := 0;
      while i < |chans|
        invariant i <= |chans| && forall j :: 0 <= j < i ==> chans[j].callIdx != callIdx
      {
        if chans[i].callIdx == callIdx {
          assert FirstWith(chans, callIdx, i);
          return chans[i];
        }
        i := i + 1;
      }
    }

    // pvt_get_pseudo_call_idx: the bits of the ids in use, then the first clear one.
    method PseudoCallIdx() returns (idx: int)
      requires Valid()
      ensures 0 <= idx <= 31
      ensures idx != 0 ==> !InUse(chans, idx)
      ensures forall k :: 1 <= k <= 31 && (idx == 0 || k < idx) ==> InUse(chans, k)
    {
      hide AtQueue.Valid, Linked, Counts;
      assert chans[..0] == [];
      var bits := seq(MAX_CALL_IDX + 1, _ => false);
      var i := 0;
      while i < |chans|
        invariant i <= |chans| && |bits| == MAX_CALL_IDX + 1
        invariant forall k :: 0 <= k <= MAX_CALL_IDX ==> bits[k] == InUse(chans[..i], k)
      {
        InUseNext(chans, i);
        bits := bits[chans[i].callIdx := true];
        i := i + 1;
      }
      assert chans[..i] == chans;
      idx := 1;
      while idx <= MAX_CALL_IDX
        invariant 1 <= idx <= MAX_CALL_IDX + 1
        invariant forall k :: 1 <= k < idx ==> bits[k]
      {
        if !bits[idx] {
          return;
        }
        idx := idx + 1;
      }
      idx := 0;
    }

    // is_dial_possible2
    method IsDialPossible(holdOther: bool, ignored: Call?) returns (ok: bool)
      requires Valid()
      ensures ok <==> MayDial(status.work, StatesBut(chans, ignored), holdOther)
    {
      hide AtQueue.Valid, Linked, Counts, Has, StatesBut, Distinct;
      NoneYet(status.work, holdOther, ignored);
      var hold, active := 0, 0;
      if status.work.ring || status.work.cwaiting || status.work.dialing {
        return false;
      }
      hide MayDial;
      var i := 0;
      assert chans[..0] == [];
      while i < |chans|
        invariant 0 <= i <= |chans| && hold >= 0 && active >= 0
        invariant MayDial(status.work, StatesBut(chans[..i], ignored), holdOther)
        invariant hold > 0 <==> Has(StatesBut(chans[..i], ignored), ONHOLD)
        invariant active > 0 <==> Has(StatesBut(chans[..i], ignored), ACTIVE)
      {
        var cpvt := chans[i];
        StatesButNext(chans, i, ignored);
        ghost var before := StatesBut(chans[..i], ignored);
        DialStep(before, cpvt.state, holdOther, status.work);
        match cpvt.state {
          case INIT =>
            if cpvt != ignored {
              StopsHere(chans, i, ignored, holdOther, status.work);
              return false;
            }
          case ACTIVE =>
            if hold > 0 || !holdOther {
              StopsHere(chans, i, ignored, holdOther, status.work);
              return false;
            }
            active := active + 1;
          case ONHOLD =>
            if active > 0 || !holdOther {
              StopsHere(chans, i, ignored, holdOther, status.work);
              return false;
            }
            hold := hold + 1;
          case RELEASED =>
          case _ =>
            StopsHere(chans, i, ignored, holdOther, status.work);
            return false;
        }
        i := i + 1;
      }
      assert chans[..i] == chans;
      return true;
    }

    // ready4voice_call; can_dial is the same with no call ignored, once the requestor's
    // own channel is not in the way.
    method Ready4VoiceCall(current: Call?, holdOther: bool) returns (ok: bool)
      requires Valid()
      ensures ok <==> Ready(status) && MayDial(status.work, StatesBut(chans, current), holdOther)
      ensures ok ==> status.link.connected && status.link.gsmRegistered && status.plan.current == STARTED
    {
      hide AtQueue.Valid, MayDial, StatesBut, Linked, Counts;
      if !Ready(status) {
        return false;
      }
      ok := IsDialPossible(holdOther, current);
    }

    // What a selecting thread does under the lock: can_dial again, then the claim.
    method Claim(holdOther: bool) returns (ok: bool)
      requires Valid()
      modifies this`status
      ensures Valid()
      ensures ok <==> Ready(old(status)) && MayDial(old(status).work, StatesOf(chans), holdOther)
      ensures status == if ok then old(status).(work := old(status).work.(selectBusy := true)) else old(status)
    {
      hide AtQueue.Valid, MayDial, Linked, Counts;
      ok := Ready4VoiceCall(null, holdOther);
      StatesButNone(chans);
      if ok {
        status := status.(work := status.work.(selectBusy := true));
      }
    }

    // new_channel for a call dialled out: memory and made say whether the record and the
    // channel could be had.
    method NewChannel(callIdx: int, memory: bool, made: bool) returns (c: Call?)
      requires Valid() && 0 <= callIdx <= MAX_CALL_IDX
      modifies this, queue
      ensures Valid() && lastDialed == old(lastDialed)
      ensures if memory && made then
                c != null && fresh(c) && chans == old(chans) + [c] && c.state == INIT && c.outgoing && c.channel
              else c == null && chans == old(chans)
      ensures status == if memory && !made then Freed(old(status), |chans|)
                        else old(status).(work := old(status).work.(chansno := |chans|))
    {
      hide AtQueue.Valid, Linked, Counts, Distinct, Without, Relinked, Freed;
      c := CpvtAlloc(callIdx, true, INIT, memory);
      if c != null {
        if made {
          ghost var states := StatesOf(chans);
          c.channel := true;
          assert StatesOf(chans) == states;
        } else {
          FreedAgain(old(status), |chans|, |chans| - 1);
          FreeNewest(c, old(chans));
          c := null;
        }
      }
    }

    // The record just made is freed again.
    method FreeNewest(c: Call, ghost others: seq<Call>)
      requires Valid() && chans == others + [c] && lastDialed != c
      modifies this, queue
      ensures Valid() && lastDialed == old(lastDialed) && chans == others
      ensures status == Freed(old(status), |chans|)
    {
      hide AtQueue.Valid, Linked, Counts, Without, Relinked, Freed;
      NotAmong(others, c);
      WithoutLast(others, c);
      hide Distinct;
      CpvtFree(c);
    }

    // channel_request after a device was claimed for it.
    method ChannelRequest(memory: bool, made: bool) returns (c: Call?)
      requires Valid()
      modifies this, queue
      ensures Valid() && lastDialed == old(lastDialed)
      ensures if memory && made then
                c != null && fresh(c) && chans == old(chans) + [c] && c.state == INIT && c.outgoing && c.channel
              else c == null && chans == old(chans)
      ensures var st := if memory && !made then Freed(old(status), |chans|)
                        else old(status).(work := old(status).work.(chansno := |chans|));
        status == st.(work := st.work.(selectBusy := false))
    {
      hide AtQueue.Valid, Linked, Counts, Distinct, Freed;
      var idx := PseudoCallIdx();
      c := NewChannel(idx, memory, made);
      status := status.(work := status.work.(selectBusy := false));
    }

    // change_channel_state
    method ChangeChannelState(c: Call, newState: CallState)
      requires Valid() && c in chans
      modifies this, queue, c
      ensures Valid() && c.callIdx == old(c.callIdx)
      ensures newState == old(c.state) ==>
                chans == old(chans) && c.state == newState && lastDialed == old(lastDialed) && status == old(status)
      ensures newState != old(c.state) ==> c.state == newState
      ensures newState != RELEASED ==>
                chans == old(chans) && queue.Now() == old(queue.Now()) && lastDialed == old(lastDialed)
      ensures newState != RELEASED && newState != old(c.state) ==>
                status == old(status).(work := WorkAfter(old(status).work, old(c.state), newState))
      ensures newState == RELEASED ==>
                && chans == Without(old(chans), c) && c !in chans
                && queue.Now() == old(queue.Now()).(tasks := Relinked(old(queue.tasks), c, sysChan))
                && lastDialed == (if old(lastDialed) == c then null else old(lastDialed))
                && status == Freed(old(status).(work := WorkAfter(old(status).work, old(c.state), newState)), |chans|)
      // an active or released call no longer rings, waits or dials; nothing else ends that
      ensures FlagsOver(old(status.work), status.work, old(c.state), newState)
    {
      hide AtQueue.Valid, Linked, Counts, Index, Up, Down, Without, Distinct, Relinked, FlagsOver, WorkAfter, Freed;
      var oldState := c.state;
      FlagsStay(status, oldState);
      if newState != oldState {
        FlagsChange(status, oldState, newState, |chans| - 1);
        WithoutLength(chans, c);
        Moved(c, newState);
        status := status.(work := WorkAfter(status.work, oldState, newState));
        if newState == RELEASED {
          CpvtFree(c);
        }
      }
    }

    // The state and its two counters.
    method Moved(c: Call, newState: CallState)
      requires Valid() && c in chans && newState != c.state
      modifies this`chanCount, c`state
      ensures Kept() && c.state == newState && queue.Now() == old(queue.Now())
      ensures forall d :: d in chans && d != c ==> d.state == old(d.state)
    {
      hide AtQueue.Valid, Linked, Counts, Index, Up, Down;
      ghost var i :| 0 <= i < |chans| && chans[i] == c;
      CountsMove(chanCount, StatesOf(chans), i, newState);
      chanCount := chanCount[Index(c.state) := Down(chanCount[Index(c.state)])];
      chanCount := chanCount[Index(newState) := Up(chanCount[Index(newState)])];
      c.state := newState;
      assert StatesOf(chans) == old(StatesOf(chans))[i := newState];
    }

    // Queueing a task: its call is the system record or a live one.
    method Enqueue(ins: Insert<Call>) returns (fail: bool)
      requires Valid() && (ins.cpvt == sysChan || ins.cpvt in chans)
      modifies queue
      ensures Valid() && queue.Now() == Inserted(old(queue.Now()), ins) && fail == Fails(old(queue.Now()), ins)
    {
      hide AtQueue.Valid, Counts, Distinct, Inserted, Fails;
      queue.ValidMeans();
      InsertedLinked(queue.Now(), ins, sysChan, chans);
      fail := queue.InsertAny(ins);
    }

    // at_enque_hangup: a call hung up before ^ORIG may not be heard of again.
    method EnqueHangup(c: Call, mem: bool, ok: bool) returns (fail: bool)
      requires Valid() && (c == sysChan || c in chans)
      modifies this`lastDialed, queue
      ensures Valid() && lastDialed == if c.state == INIT then null else old(lastDialed)
      ensures var ins := Insert(c, HANGUP, true, false, mem, ok);
        queue.Now() == Inserted(old(queue.Now()), ins) && fail == Fails(old(queue.Now()), ins)
    {
      hide AtQueue.Valid, Linked, Counts, Distinct, Inserted, Fails;
      if c.state == INIT {
        lastDialed := null;
      }
      fail := Enqueue(Insert(c, HANGUP, true, false, mem, ok));
    }

    // The monitor's at_queue_run after a response.
    method Turn(ok: bool) returns (fail: bool)
      requires Valid()
      modifies queue
      ensures Valid() && queue.Now() == Ran(old(queue.Now()), ok) && fail == (!HeadWritten(old(queue.Now())) && !ok)
    {
      hide AtQueue.Valid, Counts, Distinct, Ran;
      queue.ValidMeans();
      RanLinked(queue.Now(), ok, sysChan, chans);
      fail := queue.Run(ok);
    }

    // What at_response_ok notes for the command that succeeded, c being its call.
    method NoteOk(cmd: Command, c: Call)
      requires Valid() && (c == sysChan || c in chans)
      modifies this`status, this`lastDialed, c`needHangup
      ensures Valid() && status == AfterOk(old(status), cmd) && c.needHangup == HangupAfterOk(old(c.needHangup), cmd)
      ensures lastDialed == if cmd == CMD_AT_D && c != sysChan then c else old(lastDialed)
      // dialling is on from ATD on; a new start of the radio part ends all that calls do
      ensures OkOver(old(status.work), status.work, cmd)
      // a message sent makes a pending restart be looked for
      ensures if cmd == CMD_AT_SMSTEXT then LookedFor(old(status).plan, status) else status.plan == old(status).plan
      // a call dialled or answered must be hung up, one hung up need not
      ensures c.needHangup == (cmd in {CMD_AT_D, CMD_AT_A, CMD_AT_CHLD_2x}
                               || (old(c.needHangup) && cmd !in {CMD_AT_CHUP, CMD_AT_CHLD_1x}))
    {
      hide AtQueue.Valid, Counts, Distinct, Linked, TryRestate, Index, OkOver;
      OkFlags(status, cmd);
      HangupNeeded(c.needHangup, cmd);
      var st, need := status, c.needHangup;
      AfterOkKeeps(st, cmd);
      match cmd {
        case CMD_AT_D =>
          st := st.(work := st.work.(dialing := true));
          need := true;
        case CMD_AT_A => need := true;
        case CMD_AT_CHLD_2x => need := true;
        case CMD_AT_CFUN => st := st.(work := st.work.(ring := false, dialing := false, cwaiting := false));
        case CMD_AT_CHUP => need := false;
        case CMD_AT_CHLD_1x => need := false;
        case CMD_AT_SMSTEXT =>
          st := st.(work := st.work.(outgoingSms := false));
          st := TryRestate(st);
        case CMD_AT_CUSD => st := st.(work := st.work.(outgoingUssd := false));
        case _ =>
      }
      assert st == AfterOk(status, cmd) && need == HangupAfterOk(c.needHangup, cmd);
      hide AfterOk, HangupAfterOk;
      status := st;
      if cmd == CMD_AT_D && c != sysChan {
        lastDialed := c;
      }
      c.needHangup := need;
      assert StatesOf(chans) == old(StatesOf(chans));
    }

    // at_response_ok; a dialled call is remembered until ^ORIG tells its id.
    method ResponseOk()
      requires Valid()
      modifies this`status, this`lastDialed, queue, sysChan`needHangup, chans`needHangup
      ensures Valid() && queue.Now() == Responded(old(queue.Now()), RES_OK, [])
      ensures !old(Moves(queue.Now(), RES_OK)) ==> status == old(status) && lastDialed == old(lastDialed)
      ensures old(Moves(queue.Now(), RES_OK)) ==>
                var t := old(queue.tasks[0]);
                var cmd := t.cmds[t.cindex].cmd;
                && status == AfterOk(old(status), cmd)
                && t.cpvt.needHangup == HangupAfterOk(old(queue.tasks[0].cpvt.needHangup), cmd)
                && lastDialed == (if cmd == CMD_AT_D && t.cpvt != sysChan then t.cpvt else old(lastDialed))
    {
      hide AtQueue.Valid, Counts, Distinct, Linked, Responded, Good, CmdsLeft, AfterOk, HangupAfterOk, Moves;
      queue.ValidMeans();
      OkMoves(queue.Now());
      var cmd := queue.HeadCmd();
      if cmd.Some? && (cmd.value.res == RES_OK || cmd.value.res == RES_CMGR) {
        HeadLinked(queue.tasks, sysChan, chans);
        NoteOk(cmd.value.cmd, queue.tasks[0].cpvt);
      }
      RespondedLinked(queue.Now(), RES_OK, sysChan, chans);
      queue.ResponseOk();
    }

    // at_response_error; first is what it queues for the command that failed, each for
    // that command's call or the system record.
    method ResponseError(res: Res, first: seq<Insert<Call>>)
      requires Valid() && IsError(res) && AllFor(first, sysChan, chans)
      modifies this`status, queue
      ensures Valid() && queue.Now() == Responded(old(queue.Now()), res, first)
      ensures status == if old(Moves(queue.Now(), res))
                        then AfterError(old(status), old(queue.tasks[0].cmds[queue.tasks[0].cindex].cmd))
                        else old(status)
      // what failed is no longer in progress; nothing else is over
      ensures old(Moves(queue.Now(), res)) ==>
                var cmd := old(queue.tasks[0].cmds[queue.tasks[0].cindex].cmd);
                && ErrorOver(old(status.work), status.work, cmd)
                && if cmd in {CMD_AT_CMGR, CMD_AT_CMGD, CMD_AT_CMGS, CMD_AT_SMSTEXT}
                   then LookedFor(old(status).plan, status) else status.plan == old(status).plan
    {
      hide AtQueue.Valid, Counts, Distinct, Linked, Responded, Good, CmdsLeft, AfterError, Moves, ErrorOver;
      queue.ValidMeans();
      ErrorMoves(queue.Now(), res);
      var cmd := queue.HeadCmd();
      if cmd.Some? && (cmd.value.res == RES_OK || cmd.value.res == RES_CMGR || cmd.value.res == RES_SMS_PROMPT) {
        AfterErrorKeeps(status, cmd.value.cmd);
        ErrorFlags(status, cmd.value.cmd);
        status := AfterError(status, cmd.value.cmd);
      }
      ErrorLinked(queue.Now(), res, first, sysChan, chans);
      queue.ResponseError(res, first);
    }

    // at_response_cmgr, up to the message itself.
    method ResponseCmgr()
      requires Valid()
      modifies this`status, queue
      ensures Valid() && queue.Now() == Responded(old(queue.Now()), RES_CMGR, [])
      ensures status == if old(Moves(queue.Now(), RES_CMGR)) then NoIncoming(old(status)) else old(status)
      // a head that expects the message goes on, and no message is being read any more
      ensures old(Expects(queue.Now(), RES_CMGR)) ==>
                && status.work == old(status).work.(incomingSms := false)
                && LookedFor(old(status).plan, status)
                && AnsweredBy(old(queue.Now()), queue.Now(), RES_CMGR)
    {
      hide AtQueue.Valid, Counts, Distinct, Linked, Responded, Good, CmdsLeft, NoIncoming, Moves, AnsweredBy;
      queue.ValidMeans();
      CmgrMoves(queue.Now());
      NoIncomingFlags(status);
      var cmd := queue.HeadCmd();
      RespondedLinked(queue.Now(), RES_CMGR, sysChan, chans);
      queue.ResponseCmgr();
      if cmd.Some? && (cmd.value.res == RES_CMGR || cmd.value.cmd == CMD_USER) {
        status := NoIncoming(status);
      }
    }

    // at_response_sms_prompt
    method ResponsePrompt()
      requires Valid()
      modifies queue
      ensures Valid() && queue.Now() == Responded(old(queue.Now()), RES_SMS_PROMPT, [])
    {
      hide AtQueue.Valid, Counts, Distinct, Responded, Good, CmdsLeft;
      queue.ValidMeans();
      RespondedLinked(queue.Now(), RES_SMS_PROMPT, sysChan, chans);
      queue.ResponseSmsPrompt();
    }

    // at_response_orig, before it queues commands of its own: parsed says whether both
    // numbers were read.
    method Orig(parsed: bool, callIndex: int, voice: bool) returns (rv: int)
      requires Valid()
      modifies this, queue, lastDialed
      ensures Valid() && lastDialed == null && chans == old(chans)
      ensures rv == if old(lastDialed) != null && !parsed then -1 else 0
      ensures var c := old(lastDialed);
        c != null ==>
          if parsed && voice && 0 <= callIndex <= MAX_CALL_IDX then c.callIdx == callIndex && c.state == DIALING
          else c.callIdx == old(c.callIdx) && c.state == old(c.state)
      ensures var c := old(lastDialed);
        if c != null && parsed && voice && 0 <= callIndex <= MAX_CALL_IDX
        then FlagsOver(old(status).work, status.work, old(c.state), DIALING)
        else status == old(status)
    {
      hide AtQueue.Valid, Linked, Counts, Distinct;
      rv := 0;
      var c := lastDialed;
      lastDialed := null;
      if c != null {
        if !parsed {
          return -1;
        }
        if voice && 0 <= callIndex <= MAX_CALL_IDX {
          c.callIdx := callIndex;
          assert StatesOf(chans) == old(StatesOf(chans));
          ChangeChannelState(c, DIALING);
        }
      }
    }

    // The release of a call in at_response_cend.
    method Cend(callIndex: int)
      requires Valid()
      modifies this, queue, chans
      ensures Valid() && (forall c :: c in chans ==> c in old(chans))
      ensures !old(InUse(chans, callIndex)) ==> chans == old(chans)
      ensures forall i :: old(FirstWith(chans, callIndex, i)) ==> chans == Without(old(chans), old(chans)[i])
      ensures |chans| == |old(chans)| - (if old(InUse(chans, callIndex)) then 1 else 0)
      ensures forall c :: c in chans ==> c.state == old(c.state)
      ensures !old(InUse(chans, callIndex)) ==> status == old(status)
      ensures forall i :: old(FirstWith(chans, callIndex, i)) ==>
                FlagsOver(old(status).work, status.work, old(chans[i].state), RELEASED)
    {
      hide AtQueue.Valid, Linked, Counts, Distinct;
      var c := FindCpvt(callIndex);
      if c != null {
        WithoutLength(chans, c);
        ChangeChannelState(c, RELEASED);
      }
    }

    // disconnect_dongle
    method Disconnect()
      requires Valid()
      modifies this, queue, chans
      ensures Valid() && chans == [] && lastDialed == null && queue.tasks == []
      ensures forall s :: chanCount[Index(s)] == 0
      ensures status.plan.restartTime in {old(status).plan.restartTime, NOW}
      ensures status == Disconnected(old(status)).(
                plan := old(status).plan.(current := STOPPED, restartTime := status.plan.restartTime))
      ensures old(chans) == [] ==> status == Disconnected(old(status))
    {
      hide AtQueue.Valid, Linked, Counts, Distinct;
      while chans != []
        invariant Valid() && forall c :: c in chans ==> c in old(chans)
        invariant status.plan.(restartTime := NOW) == old(status).plan.(restartTime := NOW)
            && status.mustRemove == old(status).mustRemove
        invariant status.plan.restartTime in {old(status).plan.restartTime, NOW}
        invariant old(chans) == [] ==> status == old(status)
        decreases |chans|
      {
        var c := chans[0];
        assert c in chans;
        assert c in old(chans);
        ghost var states := StatesOf(chans);
        c.needHangup := false;
        assert StatesOf(chans) == states;
        WithoutLength(chans, c);
        ChangeChannelState(c, RELEASED);
      }
      queue.Flush();
      NoTasksLinked(sysChan, chans);
      lastDialed := null;
      NoneCounted(chanCount, StatesOf(chans));
      status := Disconnected(status);
    }
  }

  // A message read, sent, or not sent leaves a pending restart to be looked for.
  function NoIncoming(st: Status): Status {
    TryRestate(st.(work := st.work.(incomingSms := false)))
  }

  function NoOutgoing(st: Status): Status {
    TryRestate(st.(work := st.work.(outgoingSms := false)))
  }

  function AfterOk(st: Status, cmd: Command): Status {
    match cmd
    case CMD_AT_D => st.(work := st.work.(dialing := true))
    case CMD_AT_CFUN => st.(work := st.work.(ring := false, dialing := false, cwaiting := false))
    case CMD_AT_SMSTEXT => NoOutgoing(st)
    case CMD_AT_CUSD => st.(work := st.work.(outgoingUssd := false))
    case _ => st
  }

  function HangupAfterOk(need: bool, cmd: Command): bool {
    if cmd == CMD_AT_D || cmd == CMD_AT_A || cmd == CMD_AT_CHLD_2x then true
    else if cmd == CMD_AT_CHUP || cmd == CMD_AT_CHLD_1x then false
    else need
  }

  function AfterError(st: Status, cmd: Command): Status {
    match cmd
    case CMD_AT_CMGR => NoIncoming(st)
    case CMD_AT_CMGD => NoIncoming(st)
    case CMD_AT_CMGS => NoOutgoing(st)
    case CMD_AT_SMSTEXT => NoOutgoing(st)
    case CMD_AT_CUSD => st.(work := st.work.(outgoingUssd := false))
    case _ => st
  }

  // What the success of a command makes of the flags: dialling begins with ATD, and the
  // others can only end.
  predicate OkOver(was: Work, now: Work, cmd: Command) {
    && now.dialing == (cmd == CMD_AT_D || (was.dialing && cmd != CMD_AT_CFUN))
    && now.ring == (was.ring && cmd != CMD_AT_CFUN) && now.cwaiting == (was.cwaiting && cmd != CMD_AT_CFUN)
    && now.outgoingSms == (was.outgoingSms && cmd != CMD_AT_SMSTEXT)
    && now.outgoingUssd == (was.outgoingUssd && cmd != CMD_AT_CUSD)
    && now.incomingSms == was.incomingSms && now.selectBusy == was.selectBusy && now.chansno == was.chansno
  }

  // What its failure ends: a message read or sent, a request for the network.
  predicate ErrorOver(was: Work, now: Work, cmd: Command) {
    && now.incomingSms == (was.incomingSms && cmd != CMD_AT_CMGR && cmd != CMD_AT_CMGD)
    && now.outgoingSms == (was.outgoingSms && cmd != CMD_AT_CMGS && cmd != CMD_AT_SMSTEXT)
    && now.outgoingUssd == (was.outgoingUssd && cmd != CMD_AT_CUSD)
    && now.dialing == was.dialing && now.ring == was.ring && now.cwaiting == was.cwaiting
    && now.selectBusy == was.selectBusy && now.chansno == was.chansno
  }

  // What a change of a call's state ends: it no longer rings, waits or dials once it is
  // active or gone.
  predicate FlagsOver(was: Work, now: Work, from: CallState, to: CallState) {
    var ends := to != from && (to.ACTIVE? || to.RELEASED?);
    && now.ring == (was.ring && !(ends && from.INCOMING?))
    && now.cwaiting == (was.cwaiting && !(ends && from.WAITING?))
    && now.dialing == (was.dialing && !(ends && (from.INIT? || from.DIALING? || from.ALERTING?)))
  }

  lemma OkFlags(st: Status, cmd: Command)
    ensures OkOver(st.work, AfterOk(st, cmd).work, cmd)
    ensures if cmd == CMD_AT_SMSTEXT then LookedFor(st.plan, AfterOk(st, cmd)) else AfterOk(st, cmd).plan == st.plan
  {
    OkPlan(st, cmd);
    hide Quiet, TimeForRestate, LookedFor;
  }

  lemma OkPlan(st: Status, cmd: Command)
    ensures if cmd == CMD_AT_SMSTEXT then LookedFor(st.plan, AfterOk(st, cmd)) else AfterOk(st, cmd).plan == st.plan
  {
    hide LookedFor, TryRestate;
    RestateLooks(st.(work := st.work.(outgoingSms := false)));
  }

  lemma ErrorFlags(st: Status, cmd: Command)
    ensures ErrorOver(st.work, AfterError(st, cmd).work, cmd)
    ensures if cmd in {CMD_AT_CMGR, CMD_AT_CMGD, CMD_AT_CMGS, CMD_AT_SMSTEXT}
            then LookedFor(st.plan, AfterError(st, cmd)) else AfterError(st, cmd).plan == st.plan
  {
    ErrorPlan(st, cmd);
    hide Quiet, TimeForRestate, LookedFor;
  }

  lemma ErrorPlan(st: Status, cmd: Command)
    ensures if cmd in {CMD_AT_CMGR, CMD_AT_CMGD, CMD_AT_CMGS, CMD_AT_SMSTEXT}
            then LookedFor(st.plan, AfterError(st, cmd)) else AfterError(st, cmd).plan == st.plan
  {
    hide LookedFor, TryRestate;
    RestateLooks(st.(work := st.work.(outgoingSms := false)));
    RestateLooks(st.(work := st.work.(incomingSms := false)));
  }

  lemma HangupNeeded(need: bool, cmd: Command)
    ensures HangupAfterOk(need, cmd) <==>
      cmd in {CMD_AT_D, CMD_AT_A, CMD_AT_CHLD_2x} || (need && cmd !in {CMD_AT_CHUP, CMD_AT_CHLD_1x})
  {
  }

  lemma FlagsStay(st: Status, s: CallState)
    ensures FlagsOver(st.work, st.work, s, s)
  {
  }

  lemma FlagsChange(st: Status, from: CallState, to: CallState, left: nat)
    requires to != from
    ensures WorkAfter(st.work, from, to).chansno == st.work.chansno
    ensures FlagsOver(st.work, WorkAfter(st.work, from, to), from, to)
    ensures FlagsOver(st.work, Freed(st.(work := WorkAfter(st.work, from, to)), left).work, from, to)
  {
    WorkFlags(st.work, from, to);
    hide WorkAfter;
    FreedWork(st, WorkAfter(st.work, from, to), left);
    hide Freed;
  }

  lemma WorkFlags(work: Work, from: CallState, to: CallState)
    requires to != from
    ensures WorkAfter(work, from, to).chansno == work.chansno
    ensures FlagsOver(work, WorkAfter(work, from, to), from, to)
  {
  }

  lemma FreedWork(st: Status, work: Work, left: nat)
    ensures Freed(st.(work := work), left).work == work.(chansno := left)
  {
    hide Quiet, TimeForRestate;
  }

  lemma NoIncomingFlags(st: Status)
    ensures NoIncoming(st).work == st.work.(incomingSms := false) && LookedFor(st.plan, NoIncoming(st))
  {
    RestateLooks(st.(work := st.work.(incomingSms := false)));
    hide Quiet, TimeForRestate;
  }

  predicate Expects(q: Queue<Call>, res: Res)
    requires Formed(q.tasks)
  {
    q.tasks != [] && q.tasks[0].cmds[q.tasks[0].cindex].res == res
  }

  // The head's command has been answered.
  predicate AnsweredBy(q: Queue<Call>, r: Queue<Call>, res: Res)
    requires q.tasks != []
  {
    q.log + [Answered(q.tasks[0].id, q.tasks[0].cindex, Got(res))] <= r.log
  }

  lemma CmgrMoves(q: Queue<Call>)
    requires Formed(q.tasks)
    ensures Moves(q, RES_CMGR) <==>
            q.tasks != [] && (q.tasks[0].cmds[q.tasks[0].cindex].res == RES_CMGR
                              || q.tasks[0].cmds[q.tasks[0].cindex].cmd == CMD_USER)
    ensures Expects(q, RES_CMGR) ==> Moves(q, RES_CMGR) && AnsweredBy(q, Responded(q, RES_CMGR, []), RES_CMGR)
  {
    assert BeforeMove(q, RES_CMGR, []) == q;
  }

  lemma AfterOkKeeps(st: Status, cmd: Command)
    ensures AfterOk(st, cmd).work.chansno == st.work.chansno
  {
    RestateKeepsWork(st.(work := st.work.(outgoingSms := false)));
    hide TryRestate;
  }

  lemma RestateKeepsWork(st: Status)
    ensures TryRestate(st).work == st.work
  {
  }

  lemma OkMoves(q: Queue<Call>)
    requires Formed(q.tasks)
    ensures Moves(q, RES_OK) <==> q.tasks != [] && q.tasks[0].cmds[q.tasks[0].cindex].res in {RES_OK, RES_CMGR}
  {
  }

  lemma AfterErrorKeeps(st: Status, cmd: Command)
    ensures AfterError(st, cmd).work.chansno == st.work.chansno
  {
  }

  lemma ErrorMoves(q: Queue<Call>, res: Res)
    requires Formed(q.tasks) && IsError(res)
    ensures Moves(q, res) <==>
            q.tasks != [] && q.tasks[0].cmds[q.tasks[0].cindex].res in {RES_OK, RES_CMGR, RES_SMS_PROMPT}
  {
  }

  // The cached flags after a change of state.
  function WorkAfter(work: Work, from: CallState, to: CallState): Work {
    if to != ACTIVE && to != RELEASED then work
    else
      match from
      case INIT => work.(dialing := false)
      case DIALING => work.(dialing := false)
      case ALERTING => work.(dialing := false)
      case INCOMING => work.(ring := false)
      case WAITING => work.(cwaiting := false)
      case _ => work
  }

  // The same in the counters of calls: none on its way in or out; active and held ones not
  // both, and only if others may be held.
  lemma DialByCounts(work: Work, states: seq<CallState>, holdOther: bool)
    ensures MayDial(work, states, holdOther) <==>
      && !work.ring && !work.cwaiting && !work.dialing
      && CountOf(states, INIT) == CountOf(states, DIALING) == CountOf(states, ALERTING) == 0
      && CountOf(states, INCOMING) == CountOf(states, WAITING) == 0
      && (CountOf(states, ACTIVE) == 0 || CountOf(states, ONHOLD) == 0)
      && (CountOf(states, ACTIVE) + CountOf(states, ONHOLD) > 0 ==> holdOther)
  {
    forall s
      ensures Has(states, s) <==> CountOf(states, s) > 0
    {
      CountedHas(states, s);
    }
    hide Has, CountOf;
  }

  lemma {:induction false} CountedHas(states: seq<CallState>, s: CallState)
    ensures Has(states, s) <==> CountOf(states, s) > 0
  {
    if states != [] {
      CountedHas(states[1..], s);
      if Has(states[1..], s) {
        var i :| 0 <= i < |states| - 1 && states[1..][i] == s;
        assert states[i + 1] == s;
      }
      if i :| 0 <= i < |states| && states[i] == s {
        assert i > 0 ==> states[1..][i - 1] == s;
      }
    }
  }

  lemma {:induction false} WithoutLength(chans: seq<Call>, c: Call)
    requires c in chans
    ensures |Without(chans, c)| == |chans| - 1 && forall d :: d in Without(chans, c) ==> d in chans
  {
    if chans[0] != c {
      WithoutLength(chans[1..], c);
    }
  }

  lemma NoneCounted(counts: seq<nat>, states: seq<CallState>)
    requires Counts(counts, states) && states == []
    ensures |counts| == 8 && forall s :: counts[Index(s)] == 0
  {
  }

  // The queue's own operations bring no new call onto it but that of an insertion.
  lemma NoTasksLinked(sys: Call, chans: seq<Call>)
    ensures Linked([], sys, chans)
  {
  }

  lemma CmdRemovedLinked(q: Queue<Call>, answer: Answer, sys: Call, chans: seq<Call>)
    requires Formed(q.tasks) && Linked(q.tasks, sys, chans)
    ensures Linked(CmdRemoved(q, answer).tasks, sys, chans)
  {
  }

  lemma RanLinked(q: Queue<Call>, ok: bool, sys: Call, chans: seq<Call>)
    requires Formed(q.tasks) && Linked(q.tasks, sys, chans)
    ensures Linked(Ran(q, ok).tasks, sys, chans)
  {
    CmdRemovedLinked(q, Failed, sys, chans);
    hide CmdRemoved;
  }

  lemma InsertedLinked(q: Queue<Call>, ins: Insert<Call>, sys: Call, chans: seq<Call>)
    requires Formed(q.tasks) && Linked(q.tasks, sys, chans) && (ins.cpvt == sys || ins.cpvt in chans)
    ensures Linked(Inserted(q, ins).tasks, sys, chans)
  {
    hide Ran;
    if ins.cmds != [] && ins.mem {
      RanLinked(Added(q, ins.cpvt, ins.cmds, ins.prio), ins.ok, sys, chans);
    } else {
      RanLinked(q, ins.ok, sys, chans);
    }
  }

  lemma RespondedLinked(q: Queue<Call>, res: Res, sys: Call, chans: seq<Call>)
    requires Formed(q.tasks) && Linked(q.tasks, sys, chans)
    ensures Linked(Responded(q, res, []).tasks, sys, chans)
  {
    CmdRemovedLinked(q, Got(res), sys, chans);
    InsertedNone(q);
    hide CmdRemoved;
  }

  // The first call with the id stands at i.
  ghost predicate FirstWith(chans: seq<Call>, k: int, i: int)
    reads chans
  {
    0 <= i < |chans| && chans[i].callIdx == k && forall j :: 0 <= j < i ==> chans[j].callIdx != k
  }

  lemma HeadLinked(tasks: seq<Task<Call>>, sys: Call, chans: seq<Call>)
    requires tasks != [] && Linked(tasks, sys, chans)
    ensures tasks[0].cpvt == sys || tasks[0].cpvt in chans
  {
  }

  // Insertions for live calls or the system record.
  ghost predicate AllFor(first: seq<Insert<Call>>, sys: Call, chans: seq<Call>) {
    forall i :: 0 <= i < |first| ==> first[i].cpvt == sys || first[i].cpvt in chans
  }

  lemma {:induction false} InsertedAllLinked(q: Queue<Call>, first: seq<Insert<Call>>, sys: Call, chans: seq<Call>)
    requires Formed(q.tasks) && Linked(q.tasks, sys, chans) && AllFor(first, sys, chans)
    ensures Linked(InsertedAll(q, first).tasks, sys, chans)
    decreases |first|
  {
    hide Inserted;
    if first != [] {
      InsertedLinked(q, first[0], sys, chans);
      InsertedAllLinked(Inserted(q, first[0]), first[1..], sys, chans);
    }
  }

  lemma ErrorLinked(q: Queue<Call>, res: Res, first: seq<Insert<Call>>, sys: Call, chans: seq<Call>)
    requires Formed(q.tasks) && Linked(q.tasks, sys, chans) && AllFor(first, sys, chans)
    ensures Linked(Responded(q, res, first).tasks, sys, chans)
  {
    hide CmdRemoved, InsertedAll;
    var some := if IsError(res) then first else [];
    InsertedAllLinked(q, some, sys, chans);
    CmdRemovedLinked(InsertedAll(q, some), Got(res), sys, chans);
  }

  ghost predicate InUse(chans: seq<Call>, k: int)
    reads chans
  {
    exists j :: 0 <= j < |chans| && chans[j].callIdx == k
  }

  lemma InUseNext(chans: seq<Call>, i: nat)
    requires i < |chans|
    ensures forall k :: InUse(chans[..i + 1], k) <==> InUse(chans[..i], k) || chans[i].callIdx == k
  {
    forall k
      ensures InUse(chans[..i + 1], k) <==> InUse(chans[..i], k) || chans[i].callIdx == k
    {
      assert chans[..i + 1][i] == chans[i];
      if InUse(chans[..i], k) {
        var j :| 0 <= j < i && chans[..i][j].callIdx == k;
        assert chans[..i + 1][j].callIdx == k;
      }
    }
  }

  lemma {:induction false} StatesButNone(chans: seq<Call>)
    ensures StatesBut(chans, null) == StatesOf(chans)
    decreases |chans|
  {
    if chans != [] {
      StatesButNone(chans[..|chans| - 1]);
      assert StatesOf(chans) == StatesOf(chans[..|chans| - 1]) + [chans[|chans| - 1].state];
    }
  }

  lemma {:induction false} WithoutLast(chans: seq<Call>, c: Call)
    requires c !in chans
    ensures Without(chans + [c], c) == chans
  {
    if chans != [] {
      WithoutLast(chans[1..], c);
      assert (chans + [c])[1..] == chans[1..] + [c];
    }
  }

  // The states of the calls, but for the ignored one while it is INIT.
  ghost function StatesBut(chans: seq<Call>, ignored: Call?): seq<CallState>
    reads chans
    decreases |chans|
  {
    if chans == [] then []
    else
      var c := chans[|chans| - 1];
      StatesBut(chans[..|chans| - 1], ignored) + if c == ignored && c.state == INIT then [] else [c.state]
  }

  lemma StatesButNext(chans: seq<Call>, i: nat, ignored: Call?)
    requires i < |chans|
    ensures StatesBut(chans[..i + 1], ignored) ==
      StatesBut(chans[..i], ignored) + if chans[i] == ignored && chans[i].state == INIT then [] else [chans[i].state]
  {
    assert chans[..i + 1][..i] == chans[..i];
  }

  lemma HasNext(states: seq<CallState>, s: CallState, holdOther: bool, work: Work)
    ensures forall t :: Has(states + [s], t) <==> Has(states, t) || s == t
    ensures s !in {ACTIVE, ONHOLD, RELEASED} ==> !MayDial(work, states + [s], holdOther)
  {
    assert (states + [s])[|states|] == s;
    assert Has(states + [s], s);
    forall t
      ensures Has(states + [s], t) <==> Has(states, t) || s == t
    {
      assert (states + [s])[|states|] == s;
      if Has(states, t) {
        var k :| 0 <= k < |states| && states[k] == t;
        assert (states + [s])[k] == t;
      }
    }
  }

  lemma NoneYet(work: Work, holdOther: bool, ignored: Call?)
    ensures StatesBut([], ignored) == []
    ensures MayDial(work, [], holdOther) <==> !work.ring && !work.cwaiting && !work.dialing
    ensures !Has([], ACTIVE) && !Has([], ONHOLD)
  {
  }

  // One more call.
  lemma DialStep(states: seq<CallState>, s: CallState, holdOther: bool, work: Work)
    ensures states + [] == states
    ensures MayDial(work, states + [s], holdOther) <==>
      MayDial(work, states, holdOther)
      && match s
         case ACTIVE => holdOther && !Has(states, ONHOLD)
         case ONHOLD => holdOther && !Has(states, ACTIVE)
         case RELEASED => true
         case _ => false
    ensures Has(states + [s], ACTIVE) <==> Has(states, ACTIVE) || s == ACTIVE
    ensures Has(states + [s], ONHOLD) <==> Has(states, ONHOLD) || s == ONHOLD
  {
    HasNext(states, s, holdOther, work);
    hide Has;
  }

  // A prefix that rules dialling out rules it out for all.
  lemma {:induction false} StopsHere(chans: seq<Call>, i: nat, ignored: Call?, holdOther: bool, work: Work)
    requires i < |chans| && !MayDial(work, StatesBut(chans[..i + 1], ignored), holdOther)
    ensures !MayDial(work, StatesBut(chans, ignored), holdOther)
    decreases |chans|
  {
    if i + 1 == |chans| {
      assert chans[..i + 1] == chans;
    } else {
      var n := |chans| - 1;
      assert chans[..n][..i + 1] == chans[..i + 1];
      StopsHere(chans[..n], i, ignored, holdOther, work);
      NoMoreDial(work, StatesBut(chans[..n], ignored), chans[n].state, holdOther);
    }
  }

  lemma NoMoreDial(work: Work, states: seq<CallState>, s: CallState, holdOther: bool)
    requires !MayDial(work, states, holdOther)
    ensures !MayDial(work, states + [s], holdOther) && !MayDial(work, states + [], holdOther)
  {
    HasNext(states, s, holdOther, work);
    assert states + [] == states;
  }

  lemma EmptyTasks()
    ensures forall q: Queue<Call> :: q == Empty() ==> q.tasks == []
  {
  }

  lemma Unlisted(chans: seq<Call>, i: nat)
    requires i < |chans| && Distinct(chans)
    ensures var rest := chans[..i] + chans[i + 1..];
      && rest == Without(chans, chans[i]) && chans[i] !in rest && Distinct(rest)
      && forall d :: d in chans <==> d in rest || d == chans[i]
  {
    WithoutAt(chans, i);
    hide Without;
  }

  // What freeing a record does to the status: the count falls, and the last record
  // gone makes a pending restart due.
  function Freed(st: Status, left: nat): Status {
    var s := st.(work := st.work.(chansno := left));
    if left == 0 then TryRestate(s) else s
  }

  lemma NotAmong(others: seq<Call>, c: Call)
    requires Distinct(others + [c])
    ensures c !in others
  {
    forall i | 0 <= i < |others|
      ensures others[i] != c
    {
      assert (others + [c])[i] != (others + [c])[|others|];
    }
  }

  lemma FreedAgain(st: Status, n: nat, left: nat)
    ensures Freed(st.(work := st.work.(chansno := n)), left) == Freed(st, left)
  {
  }

  lemma RelinkedLinked(tasks: seq<Task<Call>>, sys: Call, chans: seq<Call>, c: Call, left: seq<Call>)
    requires Linked(tasks, sys, chans) && forall d :: d in chans ==> d in left || d == c
    ensures Linked(Relinked(tasks, c, sys), sys, left)
  {
  }
}
