// What the cached flags of a device say about its calls, over whole runs: ring, cwaiting and
// dialing (channel.c, at_response.c), and whether the device may dial again.
module DeviceFlags {
  import opened Sequences
  import opened AtQueues
  import opened Restart
  import opened Devices
  import opened DeviceRuns

  // The flag a call's state stands behind.
  datatype Flag = Ring | Cwaiting | Dialing | Neither

  function FlagOf(s: CallState): Flag {
    match s
    case INCOMING => Ring
    case WAITING => Cwaiting
    case INIT => Dialing
    case DIALING => Dialing
    case ALERTING => Dialing
    case _ => Neither
  }

  predicate IsSet(work: Work, f: Flag) {
    match f
    case Ring => work.ring
    case Cwaiting => work.cwaiting
    case Dialing => work.dialing
    case Neither => false
  }

  predicate Shown(states: seq<CallState>, f: Flag) {
    exists i :: 0 <= i < |states| && FlagOf(states[i]) == f
  }

  // Every flag set has a call behind it.
  ghost predicate Tied(s: Snap) {
    forall f :: IsSet(s.work, f) ==> Shown(s.states, f)
  }

  // Call k is the only one behind a flag that is set.
  ghost predicate Holds(s: Snap, k: nat) {
    && k < |s.states| && IsSet(s.work, FlagOf(s.states[k]))
    && forall j :: 0 <= j < |s.states| && j != k ==> FlagOf(s.states[j]) != FlagOf(s.states[k])
  }

  // Without calls, and with flags tied to calls, the device may dial.
  lemma MayDialAgain(s: Snap, holdOther: bool)
    requires Tied(s) && s.states == []
    ensures MayDial(s.work, s.states, holdOther)
  {
    assert !Shown(s.states, Ring) && !Shown(s.states, Cwaiting) && !Shown(s.states, Dialing);
    assert IsSet(s.work, Ring) == s.work.ring && IsSet(s.work, Cwaiting) == s.work.cwaiting;
    assert IsSet(s.work, Dialing) == s.work.dialing;
  }

  // A flag left set without a call keeps the device from dialling for good or ill.
  lemma LooseFlagBlocks(s: Snap, holdOther: bool)
    requires s.states == []
    ensures MayDial(s.work, s.states, holdOther) <==> Tied(s)
  {
    if Tied(s) {
      MayDialAgain(s, holdOther);
    } else {
      var f :| IsSet(s.work, f) && !Shown(s.states, f);
    }
  }

  // ------------------------------------------------------------------
  // Single steps.
  // ------------------------------------------------------------------

  lemma ShownMoves(states: seq<CallState>, k: nat, to: CallState, f: Flag)
    requires k < |states|
    ensures Shown(states[k := to], f) <==>
      FlagOf(to) == f || exists j :: 0 <= j < |states| && j != k && FlagOf(states[j]) == f
  {
    var t := states[k := to];
    if FlagOf(to) == f {
      assert FlagOf(t[k]) == f;
    }
    if j :| 0 <= j < |states| && j != k && FlagOf(states[j]) == f {
      assert FlagOf(t[j]) == f;
    }
  }

  lemma ShownLess(states: seq<CallState>, k: nat, f: Flag)
    requires k < |states|
    ensures Shown(RemoveAt(states, k), f) <==> exists j :: 0 <= j < |states| && j != k && FlagOf(states[j]) == f
  {
    var t := RemoveAt(states, k);
    if i :| 0 <= i < |t| && FlagOf(t[i]) == f {
      var j := if i < k then i else i + 1;
      assert states[j] == t[i];
    }
    if j :| 0 <= j < |states| && j != k && FlagOf(states[j]) == f {
      var i := if j < k then j else j - 1;
      assert t[i] == states[j];
    }
  }

  lemma FlagMoves(was: Work, now: Work, from: CallState, to: CallState, f: Flag)
    requires FlagsOver(was, now, from, to)
    ensures IsSet(now, f) <==>
      IsSet(was, f) && !(from != to && (to.ACTIVE? || to.RELEASED?) && FlagOf(from) == f)
  {
  }

  // A flag behind which call k stood, or did not.
  lemma OneFlag(s: Snap, k: nat, to: CallState, t: Snap, f: Flag)
    requires (IsSet(s.work, f) ==> Shown(s.states, f)) && Changed(s, k, to, t)
    ensures (IsSet(t.work, f) ==> Shown(t.states, f)) <==>
      to == ACTIVE || to == RELEASED || FlagOf(to) == f || !IsSet(s.work, f)
      || exists j :: 0 <= j < |s.states| && j != k && FlagOf(s.states[j]) == f
  {
    FlagMoves(s.work, t.work, s.states[k], to, f);
    hide FlagsOver, IsSet, Shown;
    if to == RELEASED {
      ShownLess(s.states, k, f);
    } else {
      ShownMoves(s.states, k, to, f);
    }
    ShownHere(s.states, k, f);
    assert FlagOf(RELEASED) == Neither && FlagOf(ACTIVE) == Neither;
  }

  lemma ShownHere(states: seq<CallState>, k: nat, f: Flag)
    requires k < |states|
    ensures Shown(states, f) <==>
      FlagOf(states[k]) == f || exists j :: 0 <= j < |states| && j != k && FlagOf(states[j]) == f
  {
  }

  // A call that becomes active or is released never leaves its flag behind; one that goes
  // over to a state of another kind does, exactly if it was the only one behind it.
  lemma ChangeTies(s: Snap, k: nat, to: CallState, t: Snap)
    requires Tied(s) && Changed(s, k, to, t)
    ensures Tied(t) <==> to == ACTIVE || to == RELEASED || FlagOf(to) == FlagOf(s.states[k]) || !Holds(s, k)
  {
    assert k < |s.states|;
    hide Changed, IsSet, Shown, FlagOf;
    var g := FlagOf(s.states[k]);
    forall f | f != g
      ensures IsSet(t.work, f) ==> Shown(t.states, f)
    {
      ShownHere(s.states, k, f);
      OneFlag(s, k, to, t, f);
    }
    OneFlag(s, k, to, t, g);
    if !Holds(s, k) && IsSet(s.work, g) {
      var j :| 0 <= j < |s.states| && j != k && FlagOf(s.states[j]) == g;
    }
  }

  // ------------------------------------------------------------------
  // Runs.
  // ------------------------------------------------------------------

  // The acts that leave every flag with a call behind it: a channel that cannot be started,
  // or a call moved on by the network, was not the only one behind its flag; ATD succeeds
  // while a call is being set up; other handlers set a flag for a call there is.
  ghost predicate Proper(s: Snap, act: Act, t: Snap) {
    match act
    case Fail(k) => !Holds(s, k)
    case Change(k, to) =>
      k < |s.states| ==> to == ACTIVE || to == RELEASED || FlagOf(to) == FlagOf(s.states[k]) || !Holds(s, k)
    case Ok => t.work.dialing && !s.work.dialing ==> Shown(s.states, Dialing)
    case Origin(_, _, _) =>
      forall k: nat :: Changed(s, k, DIALING, t) ==> FlagOf(s.states[k]) == Dialing || !Holds(s, k)
    case Flags(work) => forall f :: IsSet(work, f) ==> Shown(s.states, f)
    case _ => true
  }

  lemma StillTied(s: Snap, t: Snap)
    requires Tied(s) && SameFlags(s.work, t.work) && forall f :: Shown(s.states, f) ==> Shown(t.states, f)
    ensures Tied(t)
  {
  }

  lemma ShownMore(states: seq<CallState>, s: CallState)
    ensures forall f :: Shown(states, f) ==> Shown(states + [s], f)
  {
    forall f | Shown(states, f)
      ensures Shown(states + [s], f)
    {
      var i :| 0 <= i < |states| && FlagOf(states[i]) == f;
      assert FlagOf((states + [s])[i]) == f;
    }
  }

  lemma FailTies(s: Snap, k: nat, t: Snap)
    requires Tied(s) && Leads(s, Fail(k), t)
    ensures Tied(t) <==> !Holds(s, k)
  {
    if k < |s.states| {
      var g := FlagOf(s.states[k]);
      forall f
        ensures Shown(t.states, f) <==> exists j :: 0 <= j < |s.states| && j != k && FlagOf(s.states[j]) == f
        ensures IsSet(t.work, f) == IsSet(s.work, f)
        ensures Shown(s.states, f) <==>
          f == g || exists j :: 0 <= j < |s.states| && j != k && FlagOf(s.states[j]) == f
      {
        ShownLess(s.states, k, f);
        ShownHere(s.states, k, f);
      }
      hide Shown, IsSet, FlagOf;
    }
  }

  lemma OkTies(s: Snap, t: Snap)
    requires Tied(s) && Leads(s, Ok, t)
    ensures Tied(t) <==> Proper(s, Ok, t)
  {
    hide Shown;
    assert IsSet(t.work, Dialing) == t.work.dialing && IsSet(s.work, Dialing) == s.work.dialing;
    assert IsSet(t.work, Ring) ==> IsSet(s.work, Ring);
    assert IsSet(t.work, Cwaiting) ==> IsSet(s.work, Cwaiting);
  }

  // From flags tied to calls, an act leaves them so exactly if it is proper.
  lemma ActTies(s: Snap, act: Act, t: Snap)
    requires Tied(s) && Leads(s, act, t)
    ensures Tied(t) <==> Proper(s, act, t)
  {
    hide Tied, Shown, IsSet, Holds, Changed, Still;
    match act {
      case Arrive(_, _, state, _) =>
        ShownMore(s.states, state);
        StillTied(s, t);
      case Fail(k) => FailTies(s, k, t);
      case Change(k, to) =>
        if k < |s.states| {
          ChangeTies(s, k, to, t);
        } else {
          StillMeans(s, t);
        }
      case Ok => OkTies(s, t);
      case Origin(_, _, _) => OriginTies(s, act, t);
      case End(_) =>
        if k :| Changed(s, k, RELEASED, t) {
          ChangeTies(s, k, RELEASED, t);
        } else {
          StillMeans(s, t);
        }
      case Lost => NoFlagsTied(t);
      case Request(_, _) =>
        ShownMore(s.states, INIT);
        StillTied(s, t);
      case Flags(work) => FlagsTied(s, work, t);
      case _ => StillMeans(s, t);
    }
  }

  lemma StillMeans(s: Snap, t: Snap)
    requires Tied(s) && Still(s, t)
    ensures Tied(t)
  {
    StillTied(s, t);
  }

  lemma NoFlagsTied(t: Snap)
    requires !t.work.ring && !t.work.cwaiting && !t.work.dialing
    ensures Tied(t)
  {
  }

  lemma FlagsTied(s: Snap, work: Work, t: Snap)
    requires t.states == s.states && SameFlags(work, t.work)
    ensures Tied(t) <==> forall f :: IsSet(work, f) ==> Shown(s.states, f)
  {
    assert forall f :: IsSet(work, f) == IsSet(t.work, f);
  }

  lemma OriginTies(s: Snap, act: Act, t: Snap)
    requires Tied(s) && act.Origin? && Leads(s, act, t)
    ensures Tied(t) <==> Proper(s, act, t)
  {
    hide Tied, Shown, IsSet, Holds, FlagsOver;
    assert FlagOf(DIALING) == Dialing;
    forall k: nat | Changed(s, k, DIALING, t)
      ensures Tied(t) <==> FlagOf(s.states[k]) == Dialing || !Holds(s, k)
    {
      ChangeTies(s, k, DIALING, t);
    }
    if !exists k: nat :: Changed(s, k, DIALING, t) {
      StillMeans(s, t);
    }
  }

  ghost predicate AllProper(acts: seq<Act>, trace: seq<Snap>)
    requires Traced(acts, trace)
  {
    forall i :: 0 <= i < |acts| ==> Proper(trace[i], acts[i], trace[i + 1])
  }

  // In a run of proper acts every flag has a call behind it at every moment, and a device
  // without calls may dial again.
  lemma {:induction false} FlagsHaveCalls(acts: seq<Act>, trace: seq<Snap>, n: nat, holdOther: bool)
    requires Traced(acts, trace) && Tied(trace[0]) && AllProper(acts, trace) && n <= |acts|
    ensures Tied(trace[n])
    ensures trace[n].states == [] ==> MayDial(trace[n].work, trace[n].states, holdOther)
  {
    hide Tied, Leads, Proper, MayDial;
    if n > 0 {
      FlagsHaveCalls(acts, trace, n - 1, holdOther);
      assert Leads(trace[n - 1], acts[n - 1], trace[n - 1 + 1]) && Proper(trace[n - 1], acts[n - 1], trace[n - 1 + 1]);
      ActTies(trace[n - 1], acts[n - 1], trace[n]);
    }
    if trace[n].states == [] {
      MayDialAgain(trace[n], holdOther);
    }
  }

  // A ringing call whose channel cannot be started leaves ring behind: no call is there, and
  // none may be dialled.
  lemma RingLeftBehind(work: Work, holdOther: bool)
    requires work.ring
    ensures var s, t := Snap(work, [INCOMING]), Snap(work, []);
      Leads(s, Fail(0), t) && !Proper(s, Fail(0), t) && !MayDial(t.work, t.states, holdOther)
  {
    assert IsSet(work, Ring);
    assert RemoveAt([INCOMING], 0) == [];
  }
}
