// Many threads selecting the same device: the claim under the lock (select.c) and the
// call record made for it afterwards (channel_request in channel.c).
module Claims {
  import opened Restart
  import opened Devices

  // Where a selecting thread is: looking, holding a claim, or past making its call but
  // before clearing selectbusy.
  datatype Phase = Looking | Claimed | Created

  datatype World = World(status: Status, calls: seq<CallState>, threads: seq<Phase>)

  datatype Move =
    // pvt_select_found: can_dial again under the lock, then selectbusy = 1
    | Claim(i: nat, holdOther: bool)
    // new_channel in channel_request; it may fail
    | Create(i: nat, made: bool)
    // selectbusy = 0, without the lock
    | Clear(i: nat)
    // a call changes state; a released one is taken off the list
    | Change(k: nat, to: CallState)
    // an incoming or waiting call, or one dialled on the device itself
    | Arrive(state: CallState)
    // anything else the device does, but for disconnecting and connecting
    | Other(status: Status)

  function Busy(w: World, busy: bool): World {
    w.(status := w.status.(work := w.status.work.(selectBusy := busy)))
  }

  function At(w: World, i: nat, phase: Phase): World
    requires i < |w.threads|
  {
    w.(threads := w.threads[i := phase])
  }

  ghost predicate Enables(w: World, m: Move) {
    match m
    case Claim(i, holdOther) =>
      i < |w.threads| && w.threads[i] == Looking && Ready(w.status) && MayDial(w.status.work, w.calls, holdOther)
    case Create(i, _) => i < |w.threads| && w.threads[i] == Claimed
    case Clear(i) => i < |w.threads| && w.threads[i] == Created
    case Change(k, to) => k < |w.calls| && to != INIT
    case Arrive(state) => state != INIT
    case Other(status) => status.work.selectBusy == w.status.work.selectBusy
  }

  ghost function After(w: World, m: Move): World
    requires Enables(w, m)
  {
    match m
    case Claim(i, _) => At(Busy(w, true), i, Claimed)
    case Create(i, made) => At(if made then w.(calls := w.calls + [INIT]) else w, i, Created)
    case Clear(i) => At(Busy(w, false), i, Looking)
    case Change(k, to) =>
      w.(calls := if to == RELEASED then w.calls[..k] + w.calls[k + 1..] else w.calls[k := to])
    case Arrive(state) => w.(calls := w.calls + [state])
    case Other(status) => w.(status := status)
  }

  ghost predicate Reaches(w: World, moves: seq<Move>, r: World)
    decreases |moves|
  {
    if moves == [] then w == r else Enables(w, moves[0]) && Reaches(After(w, moves[0]), moves[1..], r)
  }

  function ClaimsOf(threads: seq<Phase>): nat {
    if threads == [] then 0 else (if threads[0] == Claimed then 1 else 0) + ClaimsOf(threads[1..])
  }

  ghost predicate AllLooking(w: World) {
    forall i :: 0 <= i < |w.threads| ==> w.threads[i] == Looking
  }

  // At most one thread is past looking, exactly while selectbusy is set; a claim and a
  // call in INIT exclude each other, and there is at most one such call.
  ghost predicate Exclusive(w: World) {
    && (forall i, j :: 0 <= i < j < |w.threads| ==> w.threads[i] == Looking || w.threads[j] == Looking)
    && (w.status.work.selectBusy <==> !AllLooking(w))
    && CountOf(w.calls, INIT) <= 1
    && ((exists i :: 0 <= i < |w.threads| && w.threads[i] == Claimed) ==> CountOf(w.calls, INIT) == 0)
  }

  lemma {:induction false} NoInit(calls: seq<CallState>)
    requires !Has(calls, INIT)
    ensures CountOf(calls, INIT) == 0
  {
    if calls != [] {
      assert calls[0] != INIT;
      assert forall s :: Has(calls[1..], s) ==> Has(calls, s) by {
        forall s | Has(calls[1..], s)
          ensures Has(calls, s)
        {
          var i :| 0 <= i < |calls| - 1 && calls[1..][i] == s;
          assert calls[i + 1] == s;
        }
      }
      NoInit(calls[1..]);
    }
  }

  lemma CallsChange(calls: seq<CallState>, k: nat, to: CallState)
    requires k < |calls| && to != INIT
    ensures CountOf(calls[k := to], INIT) <= CountOf(calls, INIT)
    ensures CountOf(calls[..k] + calls[k + 1..], INIT) <= CountOf(calls, INIT)
  {
    CountChanges(calls, k, to, INIT);
    CountSplits(calls, k, INIT);
  }

  lemma ClaimKeeps(w: World, i: nat, holdOther: bool)
    requires Exclusive(w) && Enables(w, Claim(i, holdOther))
    ensures Exclusive(After(w, Claim(i, holdOther)))
  {
    var r := After(w, Claim(i, holdOther));
    assert AllLooking(w);
    assert r.threads[i] == Claimed;
    NoInit(w.calls);
  }

  lemma CreateKeeps(w: World, i: nat, made: bool)
    requires Exclusive(w) && Enables(w, Create(i, made))
    ensures Exclusive(After(w, Create(i, made)))
  {
    var r := After(w, Create(i, made));
    assert r.threads[i] == Created;
    CountJoins(w.calls, [INIT], INIT);
    CountOne(INIT, INIT);
    assert forall j :: 0 <= j < |w.threads| && j != i ==> w.threads[j] == Looking;
  }

  lemma MoveKeeps(w: World, m: Move)
    requires Exclusive(w) && Enables(w, m)
    ensures Exclusive(After(w, m))
  {
    match m {
      case Claim(i, holdOther) => ClaimKeeps(w, i, holdOther);
      case Create(i, made) => CreateKeeps(w, i, made);
      case Clear(i) =>
      case Change(k, to) => CallsChange(w.calls, k, to);
      case Arrive(state) =>
        CountJoins(w.calls, [state], INIT);
        CountOne(state, INIT);
      case Other(status) =>
    }
  }

  lemma {:induction false} RunKeeps(w: World, moves: seq<Move>, r: World)
    requires Exclusive(w) && Reaches(w, moves, r)
    ensures Exclusive(r)
    decreases |moves|
  {
    hide Exclusive, Enables;
    if moves != [] {
      MoveKeeps(w, moves[0]);
      RunKeeps(After(w, moves[0]), moves[1..], r);
    }
  }

  lemma {:induction false} OneClaim(threads: seq<Phase>)
    requires forall i, j :: 0 <= i < j < |threads| ==> threads[i] == Looking || threads[j] == Looking
    ensures ClaimsOf(threads) <= 1
    ensures ClaimsOf(threads) == 1 <==> exists i :: 0 <= i < |threads| && threads[i] == Claimed
  {
    if threads != [] {
      var rest := threads[1..];
      assert forall i :: 0 <= i < |rest| ==> rest[i] == threads[i + 1];
      OneClaim(rest);
      if ClaimsOf(rest) == 1 {
        var i :| 0 <= i < |rest| && rest[i] == Claimed;
        assert threads[i + 1] == Claimed;
      }
    }
  }

  // However many threads select at once, the device has at most one outgoing setup: a
  // claim not yet made into a call, or a call in INIT.
  lemma AtMostOneSetup(w: World, moves: seq<Move>, r: World)
    requires AllLooking(w) && !w.status.work.selectBusy && w.calls == [] && Reaches(w, moves, r)
    ensures ClaimsOf(r.threads) + CountOf(r.calls, INIT) <= 1
  {
    RunKeeps(w, moves, r);
    OneClaim(r.threads);
  }
}
