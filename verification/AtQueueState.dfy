// The queue as the device structure holds it: the list, its counters, and the calls
// that change them (at_queue.c).
module AtQueueStates {
  import opened Wrappers
  import opened AtRead
  import opened AtQueues

  function CmdsLeft<C>(tasks: seq<Task<C>>): int {
    if tasks == [] then 0 else |tasks[0].cmds| - tasks[0].cindex + CmdsLeft(tasks[1..])
  }

  lemma {:induction false} CmdsLeftJoins<C>(a: seq<Task<C>>, b: seq<Task<C>>)
    ensures CmdsLeft(a + b) == CmdsLeft(a) + CmdsLeft(b)
  {
    if a == [] {
      assert a + b == b;
    } else {
      CmdsLeftJoins(a[1..], b);
      assert (a + b)[1..] == a[1..] + b;
    }
  }

  lemma AddedCmdsLeft<C>(q: Queue<C>, cpvt: C, cmds: seq<Cmd>, prio: bool)
    ensures CmdsLeft(Added(q, cpvt, cmds, prio).tasks) == CmdsLeft(q.tasks) + |cmds|
  {
    var t := Task(|q.orders|, cpvt, cmds, 0);
    CmdsLeftJoins(q.tasks, [t]);
    if prio && q.tasks != [] {
      CmdsLeftJoins([q.tasks[0], t], q.tasks[1..]);
      assert CmdsLeft([q.tasks[0], t]) == |q.tasks[0].cmds| - q.tasks[0].cindex + CmdsLeft([t]) by {
        assert [q.tasks[0], t][1..] == [t];
      }
    }
  }

  lemma {:induction false} RelinkedCmdsLeft<C>(tasks: seq<Task<C>>, dead: C, sys: C)
    ensures CmdsLeft(Relinked(tasks, dead, sys)) == CmdsLeft(tasks)
  {
    if tasks != [] {
      assert Relinked(tasks, dead, sys)[1..] == Relinked(tasks[1..], dead, sys);
      RelinkedCmdsLeft(tasks[1..], dead, sys);
    }
  }

  lemma InsertedNext<C>(q: Queue<C>, first: seq<Insert<C>>, i: nat)
    requires Formed(q.tasks) && i < |first|
    ensures InsertedAll(q, first[i..]) == InsertedAll(Inserted(q, first[i]), first[i + 1..])
  {
    assert first[i..][1..] == first[i + 1..];
  }

  lemma InsertedNone<C>(q: Queue<C>)
    requires Formed(q.tasks)
    ensures InsertedAll(q, []) == q
  {
  }

  lemma InsertedLast<C>(q: Queue<C>, first: seq<Insert<C>>, i: nat)
    requires Formed(q.tasks) && i == |first|
    ensures InsertedAll(q, first[i..]) == q
  {
  }

  class AtQueue<C(==)> {
    var tasks: seq<Task<C>>
    var atTasks: int
    var atCmds: int
    // numbers the tasks: stands for their addresses
    var serial: nat
    ghost var orders: seq<Order>
    ghost var log: seq<Event>

    ghost function Now(): Queue<C>
      reads this
    {
      Queue(tasks, orders, log)
    }

    // The counters say what the list holds.
    ghost predicate Counted()
      reads this
    {
      && atTasks == |tasks| && atCmds == CmdsLeft(tasks)
      && serial == |orders|
    }

    ghost predicate Valid()
      reads this
    {
      Counted() && Good(Now()) && Formed(tasks)
    }

    constructor ()
      ensures Valid() && Now() == Empty()
    {
      hide Good;
      tasks, atTasks, atCmds, serial, orders, log := [], 0, 0, 0, [], [];
      new;
      EmptyIsGood<C>();
      assert Now() == Empty<C>();
    }

    lemma ValidMeans()
      requires Valid()
      ensures Formed(tasks) && Good(Now()) && atTasks == |tasks| && atCmds == CmdsLeft(tasks)
    {
    }

    method Add(cpvt: C, cmds: seq<Cmd>, prio: bool, mem: bool) returns (ok: bool)
      requires Valid()
      modifies this
      ensures Valid() && ok == (cmds != [] && mem)
      ensures Now() == if ok then Added(old(Now()), cpvt, cmds, prio) else old(Now())
    {
      hide Good, CmdsLeft;
      ok := false;
      if |cmds| > 0 && mem {
        AddedKeeps(Now(), cpvt, cmds, prio);
        AddedCmdsLeft(Now(), cpvt, cmds, prio);
        var e := Task(serial, cpvt, cmds, 0);
        if prio && tasks != [] {
          tasks := [tasks[0], e] + tasks[1..];
        } else {
          tasks := tasks + [e];
        }
        atTasks, atCmds := atTasks + 1, atCmds + |cmds|;
        serial := serial + 1;
        orders := orders + [Order(cmds, prio)];
        GoodFormed(Now());
        ok := true;
      }
    }

    // at_queue_remove, also on a task whose last command is through.
    method Remove()
      requires Counted()
      modifies this
      ensures Counted() && Now() == Removed(old(Now()))
    {
      if tasks != [] {
        var task := tasks[0];
        tasks := tasks[1..];
        log := log + [Left(task.id)];
        atTasks := atTasks - 1;
        atCmds := atCmds - (|task.cmds| - task.cindex);
      }
    }

    method RemoveCmd(answer: Answer)
      requires Valid()
      modifies this
      ensures Valid() && Now() == CmdRemoved(old(Now()), answer)
    {
      hide Good;
      if tasks != [] {
        CmdRemovedKeeps(Now(), answer);
        var task := tasks[0];
        var index := task.cindex;
        tasks := [task.(cindex := index + 1)] + tasks[1..];
        log := log + [Answered(task.id, index, answer)];
        atCmds := atCmds - 1;
        if index + 1 >= |task.cmds| || (answer != Got(task.cmds[index].res) && !task.cmds[index].ignore) {
          Remove();
        }
        GoodFormed(Now());
      }
    }

    method HeadCmd() returns (cmd: Option<Cmd>)
      requires Valid()
      ensures cmd == if tasks == [] then None else Some(tasks[0].cmds[tasks[0].cindex])
    {
      cmd := if tasks == [] then None else Some(tasks[0].cmds[tasks[0].cindex]);
    }

    // ok: the device takes all of the data, if there is a command to write.
    method Run(ok: bool) returns (fail: bool)
      requires Valid()
      modifies this
      ensures Valid() && Now() == Ran(old(Now()), ok)
      ensures fail == (!HeadWritten(old(Now())) && !ok)
    {
      hide Good;
      fail := false;
      RanKeeps(Now(), ok);
      var cmd := HeadCmd();
      if cmd.Some? && |cmd.value.text| > 0 {
        fail := !ok;
        if fail {
          RemoveCmd(Failed);
        } else {
          var task := tasks[0];
          tasks := [Written(task)] + tasks[1..];
          log := log + [Sent(task.id, task.cindex)];
          GoodFormed(Now());
        }
      }
    }

    method InsertConst(cpvt: C, cmds: seq<Cmd>, athead: bool, mem: bool, ok: bool) returns (fail: bool)
      requires Valid()
      modifies this
      ensures Valid() && Now() == Inserted(old(Now()), Insert(cpvt, cmds, athead, true, mem, ok))
      ensures fail == Fails(old(Now()), Insert(cpvt, cmds, athead, true, mem, ok))
      // without memory nothing happens
      ensures cmds == [] || !mem ==> fail && Now() == old(Now())
    {
      hide Good;
      var added := Add(cpvt, cmds, athead, mem);
      fail := true;
      if added {
        fail := Run(ok);
      }
    }

    method InsertTask(cpvt: C, cmds: seq<Cmd>, athead: bool, mem: bool, ok: bool) returns (fail: bool)
      requires Valid()
      modifies this
      ensures Valid() && Now() == Inserted(old(Now()), Insert(cpvt, cmds, athead, false, mem, ok))
      ensures fail == Fails(old(Now()), Insert(cpvt, cmds, athead, false, mem, ok))
      // without memory what is queued is written all the same
      ensures cmds == [] || !mem ==> fail && Now() == Ran(old(Now()), ok)
    {
      hide Good;
      var added := Add(cpvt, cmds, athead, mem);
      var failed := Run(ok);
      fail := !added || failed;
    }

    method InsertAny(ins: Insert<C>) returns (fail: bool)
      requires Valid()
      modifies this
      ensures Valid() && Now() == Inserted(old(Now()), ins) && fail == Fails(old(Now()), ins)
    {
      if ins.isConst {
        fail := InsertConst(ins.cpvt, ins.cmds, ins.prio, ins.mem, ins.ok);
      } else {
        fail := InsertTask(ins.cpvt, ins.cmds, ins.prio, ins.mem, ins.ok);
      }
    }

    method Flush()
      requires Valid()
      modifies this
      ensures Valid() && Now() == Flushed(old(Now()))
    {
      hide Good;
      ghost var q := Now();
      FlushedKeeps(q);
      while tasks != []
        invariant Counted() && Flushed(Now()) == Flushed(q)
        decreases |tasks|
      {
        Remove();
      }
    }

    // The loop of cpvt_free over the queue.
    method Relink(dead: C, sys: C)
      requires Valid()
      modifies this
      ensures Valid() && Now() == old(Now()).(tasks := Relinked(old(tasks), dead, sys))
    {
      hide Good, CmdsLeft, Formed;
      RelinkedKeeps(Now(), dead, sys);
      RelinkedCmdsLeft(tasks, dead, sys);
      ghost var was := tasks;
      var i := 0;
      while i < |tasks|
        invariant i <= |tasks| == |was| && orders == old(orders) && log == old(log)
        invariant forall k :: 0 <= k < i ==> tasks[k] == Relinked(was, dead, sys)[k]
        invariant forall k :: i <= k < |was| ==> tasks[k] == was[k]
        invariant atTasks == old(atTasks) && atCmds == old(atCmds) && serial == old(serial)
      {
        if tasks[i].cpvt == dead {
          tasks := tasks[i := tasks[i].(cpvt := sys)];
        }
        i := i + 1;
      }
      assert tasks == Relinked(was, dead, sys);
      GoodFormed(Now());
    }

    // at_response_ok, as far as the queue goes.
    method ResponseOk()
      requires Valid()
      modifies this
      ensures Valid() && Now() == Responded(old(Now()), RES_OK, [])
    {
      hide Good, CmdRemoved, InsertedAll, Formed, CmdsLeft;
      InsertedNone(Now());
      var ecmd := HeadCmd();
      if ecmd.Some? && (ecmd.value.res == RES_OK || ecmd.value.res == RES_CMGR) {
        RemoveCmd(Got(RES_OK));
      }
    }

    // at_response_cmgr, as far as the queue goes.
    method ResponseCmgr()
      requires Valid()
      modifies this
      ensures Valid() && Now() == Responded(old(Now()), RES_CMGR, [])
    {
      hide Good, CmdRemoved, InsertedAll, Formed, CmdsLeft;
      InsertedNone(Now());
      var ecmd := HeadCmd();
      if ecmd.Some? && (ecmd.value.res == RES_CMGR || ecmd.value.cmd == CMD_USER) {
        RemoveCmd(Got(RES_CMGR));
      }
    }

    // at_response_sms_prompt
    method ResponseSmsPrompt()
      requires Valid()
      modifies this
      ensures Valid() && Now() == Responded(old(Now()), RES_SMS_PROMPT, [])
    {
      hide Good, CmdRemoved, InsertedAll, Formed, CmdsLeft;
      InsertedNone(Now());
      var ecmd := HeadCmd();
      if ecmd.Some? && (ecmd.value.res == RES_SMS_PROMPT) {
        RemoveCmd(Got(RES_SMS_PROMPT));
      }
    }

    method InsertEvery(first: seq<Insert<C>>)
      requires Valid()
      modifies this
      ensures Valid() && Now() == InsertedAll(old(Now()), first)
    {
      hide Good, Fails, Inserted, InsertedAll, Formed;
      var i := 0;
      assert first[0..] == first;
      while i < |first|
        invariant i <= |first| && Valid()
        invariant InsertedAll(Now(), first[i..]) == InsertedAll(old(Now()), first)
      {
        InsertedNext(Now(), first, i);
        var _ := InsertAny(first[i]);
        i := i + 1;
      }
      InsertedLast(Now(), first, i);
    }

    // at_response_error, as far as the queue goes: first is what it queues for the
    // command that failed.
    method ResponseError(res: Res, first: seq<Insert<C>>)
      requires Valid() && IsError(res)
      modifies this
      ensures Valid() && Now() == Responded(old(Now()), res, first)
    {
      hide Good, CmdRemoved, InsertedAll, Formed, CmdsLeft;
      var ecmd := HeadCmd();
      if ecmd.Some? && (ecmd.value.res == RES_OK || ecmd.value.res == RES_CMGR || ecmd.value.res == RES_SMS_PROMPT) {
        InsertEvery(first);
        RemoveCmd(Got(res));
      }
    }
  }
}
