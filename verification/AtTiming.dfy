// Runs in which every answer finds its command written (at_queue.c, at_response.c and the
// monitor of chan_dongle.c), and what follows one that does not.
module AtTiming {
  import opened AtRead
  import opened AtQueues

  // ------------------------------------------------------------------
  // The moves alone: no write fails, and the monitor writes after every response.
  // ------------------------------------------------------------------

  predicate AllWritten<C>(first: seq<Insert<C>>) {
    forall i :: 0 <= i < |first| ==> first[i].ok
  }

  predicate Swift<C>(ops: seq<Op<C>>)
    decreases |ops|
  {
    ops != [] ==>
      match ops[0]
      case Insertion(ins) => ins.ok && Swift(ops[1..])
      case Response(_, first) => AllWritten(first) && (|ops| == 1 || ops[1] == Turn(true)) && Swift(ops[1..])
      case Turn(ok) => ok && Swift(ops[1..])
      case Flush => Swift(ops[1..])
      case Relink(_, _) => Swift(ops[1..])
  }

  lemma RanWrites<C>(q: Queue<C>)
    requires Formed(q.tasks)
    ensures Formed(Ran(q, true).tasks) && HeadWritten(Ran(q, true))
  {
  }

  lemma InsertedWrites<C>(q: Queue<C>, ins: Insert<C>)
    requires Formed(q.tasks) && HeadWritten(q) && ins.ok
    ensures HeadWritten(Inserted(q, ins))
  {
    hide Ran;
    if ins.cmds != [] && ins.mem {
      RanWrites(Added(q, ins.cpvt, ins.cmds, ins.prio));
    } else {
      RanWrites(q);
    }
  }

  lemma {:induction false} InsertedAllWrites<C>(q: Queue<C>, first: seq<Insert<C>>)
    requires Formed(q.tasks) && HeadWritten(q) && AllWritten(first)
    ensures HeadWritten(InsertedAll(q, first))
    decreases |first|
  {
    hide HeadWritten, Inserted;
    if first != [] {
      InsertedWrites(q, first[0]);
      InsertedAllWrites(Inserted(q, first[0]), first[1..]);
    }
  }

  // Between a response and the write after it the head may be unwritten; then the write
  // comes next.
  ghost predicate Settled<C>(q: Queue<C>, ops: seq<Op<C>>)
    requires Formed(q.tasks)
  {
    HeadWritten(q) || ops == [] || ops[0] == Turn(true)
  }

  lemma StepSettles<C>(q: Queue<C>, ops: seq<Op<C>>)
    requires Formed(q.tasks) && ops != [] && Swift(ops) && Settled(q, ops)
    ensures Timely(q, ops[0], Everything) && Settled(Apply(q, ops[0]), ops[1..])
  {
    hide Ran, Inserted, InsertedAll, CmdRemoved;
    match ops[0] {
      case Insertion(ins) => InsertedWrites(q, ins);
      case Response(res, first) => InsertedAllWrites(q, if IsError(res) then first else []);
      case Turn(_) => RanWrites(q);
      case Flush =>
      case Relink(_, _) =>
    }
  }

  lemma {:induction false} SwiftStays<C>(q: Queue<C>, ops: seq<Op<C>>)
    requires Formed(q.tasks) && Swift(ops) && Settled(q, ops)
    ensures AllTimely(q, ops, Everything)
    decreases |ops|
  {
    hide Settled, Timely, Apply;
    if ops != [] {
      StepSettles(q, ops);
      SwiftStays(Apply(q, ops[0]), ops[1..]);
    }
  }

  // If no write fails and each response is followed at once by the monitor's write, every
  // response that moves the queue finds the head written.
  lemma SwiftRunsAreTimely<C>(ops: seq<Op<C>>)
    requires Swift(ops)
    ensures AllTimely(Empty(), ops, Everything) && Due(Exec(Empty(), ops), Everything)
  {
    SwiftStays(Empty(), ops);
    AnswersDueExactly(ops, Everything);
  }

  // ------------------------------------------------------------------
  // The log only grows.
  // ------------------------------------------------------------------

  ghost predicate Extends<C>(q: Queue<C>, r: Queue<C>) {
    q.log <= r.log
  }

  lemma CmdRemovedExtends<C>(q: Queue<C>, answer: Answer)
    requires Formed(q.tasks)
    ensures Extends(q, CmdRemoved(q, answer))
  {
  }

  lemma RanExtends<C>(q: Queue<C>, ok: bool)
    requires Formed(q.tasks)
    ensures Extends(q, Ran(q, ok))
  {
    CmdRemovedExtends(q, Failed);
    hide CmdRemoved;
  }

  lemma {:induction false} FlushedExtends<C>(q: Queue<C>)
    ensures Extends(q, Flushed(q))
    decreases |q.tasks|
  {
    if q.tasks != [] {
      FlushedExtends(Removed(q));
    }
  }

  lemma InsertedExtends<C>(q: Queue<C>, ins: Insert<C>)
    requires Formed(q.tasks)
    ensures Extends(q, Inserted(q, ins))
  {
    hide Ran;
    if ins.cmds != [] && ins.mem {
      RanExtends(Added(q, ins.cpvt, ins.cmds, ins.prio), ins.ok);
    } else {
      RanExtends(q, ins.ok);
    }
  }

  lemma {:induction false} InsertedAllExtends<C>(q: Queue<C>, first: seq<Insert<C>>)
    requires Formed(q.tasks)
    ensures Extends(q, InsertedAll(q, first))
    decreases |first|
  {
    hide Inserted;
    if first != [] {
      InsertedExtends(q, first[0]);
      InsertedAllExtends(Inserted(q, first[0]), first[1..]);
    }
  }

  lemma ApplyExtends<C>(q: Queue<C>, op: Op<C>)
    requires Formed(q.tasks)
    ensures Extends(q, Apply(q, op))
  {
    hide Ran, Inserted, InsertedAll, CmdRemoved, Flushed;
    match op {
      case Insertion(ins) => InsertedExtends(q, ins);
      case Response(res, first) =>
        InsertedAllExtends(q, if IsError(res) then first else []);
        CmdRemovedExtends(BeforeMove(q, res, first), Got(res));
      case Turn(ok) => RanExtends(q, ok);
      case Flush => FlushedExtends(q);
      case Relink(_, _) =>
    }
  }

  lemma {:induction false} ExecExtends<C>(q: Queue<C>, ops: seq<Op<C>>)
    requires Formed(q.tasks)
    ensures Extends(q, Exec(q, ops))
    decreases |ops|
  {
    hide Apply;
    if ops != [] {
      ApplyExtends(q, ops[0]);
      ExecExtends(Apply(q, ops[0]), ops[1..]);
    }
  }

  // ------------------------------------------------------------------
  // A prompt taken for a header.
  // ------------------------------------------------------------------

  // A message stands at the head, its header and its text still to be gone through.
  predicate AwaitsPrompt<C>(q: Queue<C>)
    requires Formed(q.tasks)
  {
    && q.tasks != [] && q.tasks[0].cindex == 0 && q.tasks[0].id < |q.orders|
    && |q.tasks[0].cmds| == |q.orders[q.tasks[0].id].cmds| == 2
    && q.tasks[0].cmds[0].res == RES_SMS_PROMPT && q.tasks[0].cmds[1].text != ""
    && q.orders[q.tasks[0].id].cmds[0].text != ""
  }

  function PromptThenTurn<C>(): seq<Op<C>> {
    [Op.Response(RES_SMS_PROMPT, []), Turn(true)]
  }

  lemma BodyFollows<C>(q: Queue<C>)
    requires Formed(q.tasks) && AwaitsPrompt(q)
    ensures var id := q.tasks[0].id;
      Exec(q, PromptThenTurn()).log == q.log + [Answered(id, 0, Got(RES_SMS_PROMPT))] + [Sent(id, 1)]
  {
    var q1 := Apply(q, Op.Response(RES_SMS_PROMPT, []));
    var q2 := Apply(q1, Turn(true));
    PromptMovesOn(q);
    assert q2.log == q1.log + [Sent(q.tasks[0].id, 1)];
    hide Apply;
    var ops: seq<Op<C>> := PromptThenTurn();
    assert ops[1..] == [Turn(true)] && ops[1..][1..] == [];
    assert Exec(q, ops) == Exec(q1, ops[1..]) == Exec(q2, ops[1..][1..]);
  }

  lemma PromptMovesOn<C>(q: Queue<C>)
    requires Formed(q.tasks) && AwaitsPrompt(q)
    ensures var r := Apply(q, Op.Response(RES_SMS_PROMPT, []));
      && r.tasks == [q.tasks[0].(cindex := 1)] + q.tasks[1..]
      && r.log == q.log + [Answered(q.tasks[0].id, 0, Got(RES_SMS_PROMPT))]
  {
    assert BeforeMove(q, RES_SMS_PROMPT, []) == q;
  }

  // After the prompt and the monitor's write the text has gone out, whatever follows; and
  // its header ever goes out if and only if it was written when the prompt was taken.
  lemma HeaderSentExactly<C>(q: Queue<C>, more: seq<Op<C>>)
    requires Good(q) && Formed(q.tasks) && AwaitsPrompt(q)
    ensures var r := Exec(Exec(q, PromptThenTurn()), more);
      && Sent(q.tasks[0].id, 1) in r.log
      && (Sent(q.tasks[0].id, 0) in r.log <==> HeadWritten(q))
  {
    hide Exec, Good;
    var id := q.tasks[0].id;
    BodyFollows(q);
    var s := Exec(q, PromptThenTurn());
    var r := Exec(s, more);
    ExecExtends(s, more);
    HeadSent(q);
    ExecKeeps(q, PromptThenTurn());
    ExecKeeps(s, more);
    assert s.log[|q.log| + 1] == r.log[|q.log| + 1] == Sent(id, 1);
    if Sent(id, 0) in r.log {
      LineNotBroken(r);
      var m: nat :| m < |r.log| && r.log[m] == Sent(id, 0);
      SentInOrder(r.orders, r.log, m, |q.log| + 1);
      assert r.log[m] == s.log[m];
    }
    assert forall e :: e in q.log ==> e in s.log;
    assert forall e :: e in s.log ==> e in r.log;
  }
}
