// What a task comes to when the device answers: every command has its turn, and goes on at
// the response it expects (at_queue.c, at_response.c).
module AtProgress {
  import opened AtRead
  import opened AtQueues

  predicate Expectable(res: Res) {
    res == RES_OK || res == RES_CMGR || res == RES_SMS_PROMPT
  }

  // The responses that move the queue, by the command at its head: none moves it without
  // one; OK and a message read are taken for each other's in one direction only, and a
  // user's command takes a message read whatever it expects.
  lemma Gates<C>(q: Queue<C>, res: Res)
    requires Formed(q.tasks)
    ensures q.tasks == [] ==> !Moves(q, res)
    ensures q.tasks != [] ==>
      var head := q.tasks[0].cmds[q.tasks[0].cindex];
      && (Moves(q, RES_OK) <==> head.res in {RES_OK, RES_CMGR})
      && (Moves(q, RES_CMGR) <==> head.res == RES_CMGR || head.cmd == CMD_USER)
      && (Moves(q, RES_SMS_PROMPT) <==> head.res == RES_SMS_PROMPT)
      && (Moves(q, RES_ERROR) <==> Expectable(head.res)) && (Moves(q, RES_CMS_ERROR) <==> Expectable(head.res))
      && (Moves(q, res) ==> Expectable(res) || res == RES_ERROR || res == RES_CMS_ERROR)
      && (Expectable(head.res) ==> Moves(q, head.res))
  {
  }

  // ------------------------------------------------------------------
  // A task whose commands all get the response they expect.
  // ------------------------------------------------------------------

  // The monitor writes, then the response comes.
  function Served<C>(cmds: seq<Cmd>): seq<Op<C>> {
    if cmds == [] then [] else [Turn(true), Op.Response(cmds[0].res, [])] + Served(cmds[1..])
  }

  function Exchange(id: nat, k: nat, cmd: Cmd): seq<Event> {
    (if cmd.text != "" then [Sent(id, k)] else []) + [Answered(id, k, Got(cmd.res))]
  }

  // The commands from k on, one after the other.
  function Dialogue(id: nat, k: nat, cmds: seq<Cmd>): seq<Event>
    decreases |cmds|
  {
    if cmds == [] then [] else Exchange(id, k, cmds[0]) + Dialogue(id, k + 1, cmds[1..])
  }

  // A turn and the expected response, for the first command of those left.
  lemma OneServed<C>(q: Queue<C>)
    requires Formed(q.tasks) && q.tasks != [] && Expectable(q.tasks[0].cmds[q.tasks[0].cindex].res)
    ensures var t := q.tasks[0];
      var cmd := t.cmds[t.cindex];
      var r := Apply(Apply(q, Turn(true)), Op.Response(cmd.res, []));
      && r.orders == q.orders
      && if t.cindex + 1 == |t.cmds| then
           r.tasks == q.tasks[1..] && r.log == q.log + Exchange(t.id, t.cindex, cmd) + [Left(t.id)]
         else
           && r.tasks != [] && r.tasks[1..] == q.tasks[1..] && r.log == q.log + Exchange(t.id, t.cindex, cmd)
           && r.tasks[0].id == t.id && r.tasks[0].cindex == t.cindex + 1
           && |r.tasks[0].cmds| == |t.cmds| && r.tasks[0].cmds[t.cindex + 1..] == t.cmds[t.cindex + 1..]
  {
    var q1 := Ran(q, true);
    TurnLeavesHead(q);
    hide Ran;
    assert BeforeMove(q1, q.tasks[0].cmds[q.tasks[0].cindex].res, []) == q1;
    var cmd := q.tasks[0].cmds[q.tasks[0].cindex];
    assert Moves(q1, cmd.res);
    assert q1.tasks[0].cmds[q.tasks[0].cindex].res == cmd.res;
  }

  lemma TurnLeavesHead<C>(q: Queue<C>)
    requires Formed(q.tasks) && q.tasks != []
    ensures var t := q.tasks[0];
      var r := Ran(q, true);
      && r.orders == q.orders && r.tasks != [] && r.tasks[1..] == q.tasks[1..]
      && r.log == q.log + (if t.cmds[t.cindex].text != "" then [Sent(t.id, t.cindex)] else [])
      && r.tasks[0].id == t.id && r.tasks[0].cindex == t.cindex && |r.tasks[0].cmds| == |t.cmds|
      && r.tasks[0].cmds[t.cindex] == t.cmds[t.cindex].(text := "")
      && r.tasks[0].cmds[t.cindex + 1..] == t.cmds[t.cindex + 1..]
  {
  }

  lemma ExecTwo<C>(q: Queue<C>, a: Op<C>, b: Op<C>, more: seq<Op<C>>)
    requires Formed(q.tasks)
    ensures Exec(q, [a, b] + more) == Exec(Apply(Apply(q, a), b), more)
  {
    hide Apply;
    var ops := [a, b] + more;
    assert ops[1..] == [b] + more && ops[1..][1..] == more;
  }

  // The commands go out in order, each once, each answered with what it expects; then the
  // task leaves, and the others stand as they stood.
  lemma {:induction false} TaskGoesThrough<C>(q: Queue<C>)
    requires Formed(q.tasks) && q.tasks != []
    requires forall k :: q.tasks[0].cindex <= k < |q.tasks[0].cmds| ==> Expectable(q.tasks[0].cmds[k].res)
    ensures var t := q.tasks[0];
      var cmds := t.cmds[t.cindex..];
      Exec(q, Served(cmds)) == Queue(q.tasks[1..], q.orders, q.log + Dialogue(t.id, t.cindex, cmds) + [Left(t.id)])
    decreases |q.tasks[0].cmds| - q.tasks[0].cindex
  {
    hide Apply, Exchange, Expectable;
    var t := q.tasks[0];
    var cmds := t.cmds[t.cindex..];
    var r := Apply(Apply(q, Turn(true)), Op.Response(cmds[0].res, []));
    OneServed(q);
    ExecTwo(q, Turn(true), Op.Response(cmds[0].res, []), Served(cmds[1..]));
    assert cmds[1..] == t.cmds[t.cindex + 1..];
    var now := Exchange(t.id, t.cindex, cmds[0]);
    if t.cindex + 1 == |t.cmds| {
      assert Dialogue(t.id, t.cindex + 1, cmds[1..]) == [] && now + [] == now;
    } else {
      RestExpectable(t.cmds, r.tasks[0].cmds, t.cindex + 1);
      TaskGoesThrough(r);
      var later := Dialogue(t.id, t.cindex + 1, cmds[1..]);
      assert q.log + now + later + [Left(t.id)] == q.log + (now + later) + [Left(t.id)];
    }
  }

  lemma RestExpectable(a: seq<Cmd>, b: seq<Cmd>, k: nat)
    requires k <= |a| == |b| && b[k..] == a[k..] && forall i :: k <= i < |a| ==> Expectable(a[i].res)
    ensures forall i :: k <= i < |b| ==> Expectable(b[i].res)
  {
    assert forall i :: k <= i < |b| ==> b[i] == b[k..][i - k];
  }

  // ------------------------------------------------------------------
  // A message retrieved.
  // ------------------------------------------------------------------

  // at_enque_retrive_sms: read, then delete.
  function Retrieval(read: string, delete: string): seq<Cmd> {
    [Cmd(CMD_AT_CMGR, RES_CMGR, false, read), Cmd(CMD_AT_CMGD, RES_OK, false, delete)]
  }

  // The message read sends the deletion, and nothing else.
  lemma DeletedOnceRead<C>(q: Queue<C>, read: string, delete: string)
    requires Formed(q.tasks) && q.tasks != [] && q.tasks[0].cindex == 0 && delete != ""
    requires q.tasks[0].cmds == Retrieval(read, delete)
    ensures var r := Exec(q, [Op.Response(RES_CMGR, []), Turn(true)]);
      r.log == q.log + [Answered(q.tasks[0].id, 0, Got(RES_CMGR)), Sent(q.tasks[0].id, 1)]
  {
    var read1 := Apply(q, Op.Response(RES_CMGR, []));
    MessageMovesOn(q, read, delete);
    var gone := Apply(read1, Turn(true));
    assert gone.log == read1.log + [Sent(q.tasks[0].id, 1)];
    ExecTwo(q, Op.Response(RES_CMGR, []), Turn(true), []);
    var ops: seq<Op<C>> := [Op.Response(RES_CMGR, []), Turn(true)];
    assert ops + [] == ops;
  }

  lemma MessageMovesOn<C>(q: Queue<C>, read: string, delete: string)
    requires Formed(q.tasks) && q.tasks != [] && q.tasks[0].cindex == 0
    requires q.tasks[0].cmds == Retrieval(read, delete)
    ensures var r := Apply(q, Op.Response(RES_CMGR, []));
      && r.tasks == [q.tasks[0].(cindex := 1)] + q.tasks[1..]
      && r.log == q.log + [Answered(q.tasks[0].id, 0, Got(RES_CMGR))]
  {
    assert BeforeMove(q, RES_CMGR, []) == q;
  }
}
