// The queue of AT commands (at_queue.c) and the responses that move it (at_response.c).
module AtQueues {
  import opened AtRead

  datatype Command =
    | CMD_AT_CMGS | CMD_AT_SMSTEXT | CMD_AT_CMGR | CMD_AT_CMGD | CMD_AT_CLIR | CMD_AT_D | CMD_AT_CLCC
    | CMD_AT_DDSETEX | CMD_AT_CHLD_2 | CMD_AT_CHLD_2x | CMD_AT_CHLD_1x | CMD_AT_A | CMD_AT_CHUP
    | CMD_AT_CFUN | CMD_AT_CUSD | CMD_USER | CMD_OTHER(no: nat)

  // A command: the response it expects, the IGNORE flag, and the data still to be
  // written (length 0 marks a written command).
  datatype Cmd = Cmd(cmd: Command, res: Res, ignore: bool, text: string)

  // A task on the queue. id numbers the tasks in the order they were queued.
  datatype Task<C> = Task(id: nat, cpvt: C, cmds: seq<Cmd>, cindex: nat)

  // The response a command is removed with. A failed write passes the expected code
  // plus one: a code other than the expected one.
  datatype Answer = Got(res: Res) | Failed

  // ------------------------------------------------------------------
  // The specification: the queue as a value, with its history.
  // ------------------------------------------------------------------

  // What was asked for: the commands of a task and its priority.
  datatype Order = Order(cmds: seq<Cmd>, prio: bool)

  // What happened on the line, command k of task id.
  datatype Event = Sent(id: nat, k: nat) | Answered(id: nat, k: nat, answer: Answer) | Left(id: nat)

  datatype Queue<C> = Queue(tasks: seq<Task<C>>, orders: seq<Order>, log: seq<Event>)

  predicate Accepts(cmd: Cmd, answer: Answer) {
    cmd.ignore || answer == Got(cmd.res)
  }

  predicate Formed<C>(tasks: seq<Task<C>>) {
    forall i :: 0 <= i < |tasks| ==> tasks[i].cindex < |tasks[i].cmds|
  }

  function Added<C>(q: Queue<C>, cpvt: C, cmds: seq<Cmd>, prio: bool): Queue<C> {
    var t := Task(|q.orders|, cpvt, cmds, 0);
    Queue(if prio && q.tasks != [] then [q.tasks[0], t] + q.tasks[1..] else q.tasks + [t],
          q.orders + [Order(cmds, prio)], q.log)
  }

  function Removed<C>(q: Queue<C>): Queue<C> {
    if q.tasks == [] then q else q.(tasks := q.tasks[1..], log := q.log + [Left(q.tasks[0].id)])
  }

  function CmdRemoved<C>(q: Queue<C>, answer: Answer): Queue<C>
    requires Formed(q.tasks)
  {
    if q.tasks == [] then q
    else
      var t := q.tasks[0];
      var r := q.(tasks := [t.(cindex := t.cindex + 1)] + q.tasks[1..],
                  log := q.log + [Answered(t.id, t.cindex, answer)]);
      if t.cindex + 1 == |t.cmds| || !Accepts(t.cmds[t.cindex], answer) then Removed(r) else r
  }

  function Written<C>(t: Task<C>): Task<C>
    requires t.cindex < |t.cmds|
  {
    t.(cmds := t.cmds[t.cindex := t.cmds[t.cindex].(text := "")])
  }

  // ok: the write, if one is made, succeeds.
  function Ran<C>(q: Queue<C>, ok: bool): Queue<C>
    requires Formed(q.tasks)
  {
    if q.tasks == [] then q
    else
      var t := q.tasks[0];
      if t.cmds[t.cindex].text == "" then q
      else if ok then q.(tasks := [Written(t)] + q.tasks[1..], log := q.log + [Sent(t.id, t.cindex)])
      else CmdRemoved(q, Failed)
  }

  function Flushed<C>(q: Queue<C>): (r: Queue<C>)
    ensures r.tasks == [] && r.orders == q.orders
    decreases |q.tasks|
  {
    if q.tasks == [] then q else Flushed(Removed(q))
  }

  function Relinked<C(==)>(tasks: seq<Task<C>>, old': C, new': C): (r: seq<Task<C>>)
    ensures |r| == |tasks|
    ensures forall i :: 0 <= i < |r| ==> r[i] == (if tasks[i].cpvt == old' then tasks[i].(cpvt := new') else tasks[i])
  {
    seq(|tasks|, i requires 0 <= i < |tasks| => if tasks[i].cpvt == old' then tasks[i].(cpvt := new') else tasks[i])
  }

  // ------------------------------------------------------------------
  // What the history keeps.
  // ------------------------------------------------------------------

  // Where an event stands in the life of its task.
  function Rank(orders: seq<Order>, e: Event): int
    requires e.id < |orders|
  {
    match e
    case Sent(_, k) => 2 * k
    case Answered(_, k, _) => 2 * k + 1
    case Left(id) => 2 * |orders[id].cmds|
  }

  ghost predicate AnsweredWell(orders: seq<Order>, log: seq<Event>, id: nat, k: nat)
    requires id < |orders| && k < |orders[id].cmds|
  {
    exists p :: 0 <= p < |log| && log[p].Answered? && log[p].id == id && log[p].k == k
      && Accepts(orders[id].cmds[k], log[p].answer)
  }

  ghost predicate Known(orders: seq<Order>, log: seq<Event>) {
    forall p :: 0 <= p < |log| ==> log[p].id < |orders| && (!log[p].Left? ==> log[p].k < |orders[log[p].id].cmds|)
  }

  // The commands of a task go out one after the other, each at most once, and nothing
  // follows its end.
  ghost predicate InSequence(orders: seq<Order>, log: seq<Event>)
    requires Known(orders, log)
  {
    forall p, r :: 0 <= p < r < |log| && log[p].id == log[r].id ==> Rank(orders, log[p]) < Rank(orders, log[r])
  }

  // No other task comes between two events of one task.
  ghost predicate Contiguous(log: seq<Event>) {
    forall p, r, s :: 0 <= p < r < s < |log| && log[p].id == log[s].id ==> log[r].id == log[p].id
  }

  // After a task without priority nothing older comes.
  ghost predicate InOrder(orders: seq<Order>, log: seq<Event>)
    requires Known(orders, log)
  {
    forall p, r :: 0 <= p < r < |log| && !orders[log[p].id].prio ==> log[p].id <= log[r].id
  }

  // A command has its turn after all earlier ones of its task were answered as
  // expected, or carry the IGNORE flag.
  ghost predicate AfterAnswers(orders: seq<Order>, log: seq<Event>)
    requires Known(orders, log)
  {
    forall p, k :: 0 <= p < |log| && !log[p].Left? && 0 <= k < log[p].k ==> AnsweredWell(orders, log, log[p].id, k)
  }

  // The line: idle, waiting for the answer to a command, or used twice.
  datatype Line = Idle | Waiting(id: nat, k: nat) | Broken

  function LineAfter(log: seq<Event>): Line {
    if log == [] then Idle
    else
      var line, e := LineAfter(log[..|log| - 1]), log[|log| - 1];
      match e
      case Sent(id, k) => if line == Idle then Waiting(id, k) else Broken
      case Answered(id, k, _) => if line == Waiting(id, k) then Idle else line
      case Left(id) => if line.Waiting? && line.id == id then Idle else line
  }

  ghost predicate LogOk(orders: seq<Order>, log: seq<Event>) {
    && Known(orders, log) && InSequence(orders, log) && Contiguous(log) && InOrder(orders, log)
    && AfterAnswers(orders, log)
  }

  // ------------------------------------------------------------------
  // The invariant that carries it.
  // ------------------------------------------------------------------

  // A task that is not at the head is as it was ordered; at the head the commands from
  // cindex on are, but for the mark that the first of them was written.
  ghost predicate AsOrdered<C>(orders: seq<Order>, t: Task<C>, head: bool) {
    && t.id < |orders| && t.cindex < |t.cmds| == |orders[t.id].cmds|
    && (!head ==> t.cindex == 0 && t.cmds == orders[t.id].cmds)
    && (forall k :: t.cindex < k < |t.cmds| ==> t.cmds[k] == orders[t.id].cmds[k])
    && (t.cmds[t.cindex] == orders[t.id].cmds[t.cindex] || t.cmds[t.cindex] == orders[t.id].cmds[t.cindex].(text := ""))
  }

  // Task a may be served before task b: only a task with priority overtakes.
  predicate Precedes(orders: seq<Order>, a: nat, b: nat) {
    a < |orders| && a != b && (orders[a].prio || a < b)
  }

  ghost predicate Lined<C>(orders: seq<Order>, tasks: seq<Task<C>>) {
    && (forall i :: 0 <= i < |tasks| ==> AsOrdered(orders, tasks[i], i == 0))
    && (forall i, j :: 0 <= i < j < |tasks| ==> Precedes(orders, tasks[i].id, tasks[j].id))
  }

  function HeadRank<C>(t: Task<C>): int
    requires t.cindex < |t.cmds|
  {
    2 * t.cindex + if t.cmds[t.cindex].text == "" then 1 else 0
  }

  // A task's next command may have its turn: the log has only earlier events of it,
  // and none of another task since.
  ghost predicate InTurn<C>(orders: seq<Order>, log: seq<Event>, t: Task<C>)
    requires Known(orders, log) && AsOrdered(orders, t, true)
  {
    && (forall p :: 0 <= p < |log| && log[p].id != t.id ==> Precedes(orders, log[p].id, t.id))
    && (forall p :: 0 <= p < |log| && log[p].id == t.id ==> Rank(orders, log[p]) < HeadRank(t))
    && (forall p, r :: 0 <= p < r < |log| && log[p].id == t.id ==> log[r].id == t.id)
    && (forall k :: 0 <= k < t.cindex ==> AnsweredWell(orders, log, t.id, k))
  }

  // The tasks behind the head have no history.
  ghost predicate Fresh<C>(orders: seq<Order>, log: seq<Event>, tasks: seq<Task<C>>) {
    forall p, i :: 0 <= p < |log| && 0 < i < |tasks| ==> Precedes(orders, log[p].id, tasks[i].id)
  }

  // The line while t is at the head: taken once its command was written.
  function LineOf<C>(orders: seq<Order>, t: Task<C>): Line
    requires t.id < |orders| && t.cindex < |t.cmds| == |orders[t.id].cmds|
  {
    if t.cmds[t.cindex].text == "" && orders[t.id].cmds[t.cindex].text != "" then Waiting(t.id, t.cindex) else Idle
  }

  ghost predicate OnQueue<C>(tasks: seq<Task<C>>, id: nat) {
    exists i :: 0 <= i < |tasks| && tasks[i].id == id
  }

  // Every task ever queued is still there or has left.
  ghost predicate NoneLost<C>(q: Queue<C>) {
    forall id: nat :: id < |q.orders| ==> OnQueue(q.tasks, id) || Left(id) in q.log
  }

  ghost predicate Good<C>(q: Queue<C>) {
    && NoneLost(q) && Lined(q.orders, q.tasks) && LogOk(q.orders, q.log) && Fresh(q.orders, q.log, q.tasks)
    && if q.tasks == [] then LineAfter(q.log) == Idle
       else InTurn(q.orders, q.log, q.tasks[0]) && LineAfter(q.log) == LineOf(q.orders, q.tasks[0])
  }

  // ------------------------------------------------------------------
  // One more event.
  // ------------------------------------------------------------------

  // The event is later in the life of its task than all before it, that task is the
  // one in progress or a fresh one, and its turn has come.
  ghost predicate MayFollow(orders: seq<Order>, log: seq<Event>, e: Event)
    requires Known(orders, log)
  {
    && e.id < |orders| && (!e.Left? ==> e.k < |orders[e.id].cmds|)
    && (forall p :: 0 <= p < |log| && log[p].id == e.id ==> Rank(orders, log[p]) < Rank(orders, e))
    && (forall p, r :: 0 <= p < r < |log| && log[p].id == e.id ==> log[r].id == e.id)
    && (forall p :: 0 <= p < |log| && !orders[log[p].id].prio ==> log[p].id <= e.id)
    && (!e.Left? ==> forall k :: 0 <= k < e.k ==> AnsweredWell(orders, log, e.id, k))
  }

  lemma LogGrows(orders: seq<Order>, log: seq<Event>, e: Event)
    requires LogOk(orders, log) && MayFollow(orders, log, e)
    ensures LogOk(orders, log + [e])
  {
    AnsweredAllStay(orders, log, e);
    hide AnsweredWell;
    assert Known(orders, log + [e]);
    InSequenceGrows(orders, log, e);
    ContiguousGrows(orders, log, e);
  }

  lemma InSequenceGrows(orders: seq<Order>, log: seq<Event>, e: Event)
    requires Known(orders, log) && InSequence(orders, log) && MayFollow(orders, log, e)
    ensures Known(orders, log + [e]) && InSequence(orders, log + [e])
  {
    hide AnsweredWell;
  }

  lemma ContiguousGrows(orders: seq<Order>, log: seq<Event>, e: Event)
    requires Known(orders, log) && Contiguous(log) && MayFollow(orders, log, e)
    ensures Contiguous(log + [e])
  {
    hide AnsweredWell, Rank;
  }

  lemma AnsweredAllStay(orders: seq<Order>, log: seq<Event>, e: Event)
    ensures forall id: nat, k: nat ::
              id < |orders| && k < |orders[id].cmds| && AnsweredWell(orders, log, id, k) ==>
                AnsweredWell(orders, log + [e], id, k)
  {
    forall id: nat, k: nat | id < |orders| && k < |orders[id].cmds| && AnsweredWell(orders, log, id, k)
      ensures AnsweredWell(orders, log + [e], id, k)
    {
      var p :| 0 <= p < |log| && log[p].Answered? && log[p].id == id && log[p].k == k
        && Accepts(orders[id].cmds[k], log[p].answer);
      assert (log + [e])[p] == log[p];
    }
  }

  lemma LineGrows(log: seq<Event>, e: Event)
    ensures LineAfter(log + [e]) ==
      match e
      case Sent(id, k) => if LineAfter(log) == Idle then Waiting(id, k) else Broken
      case Answered(id, k, _) => if LineAfter(log) == Waiting(id, k) then Idle else LineAfter(log)
      case Left(id) => if LineAfter(log).Waiting? && LineAfter(log).id == id then Idle else LineAfter(log)
  {
    assert (log + [e])[..|log|] == log;
  }

  // ------------------------------------------------------------------
  // Every operation keeps the invariant.
  // ------------------------------------------------------------------

  lemma TurnMay<C>(orders: seq<Order>, log: seq<Event>, t: Task<C>, e: Event)
    requires Known(orders, log) && AsOrdered(orders, t, true) && InTurn(orders, log, t)
    requires e.id == t.id && HeadRank(t) <= Rank(orders, e) && (!e.Left? ==> e.k == t.cindex)
    ensures MayFollow(orders, log, e)
  {
    hide AnsweredWell;
  }

  // A task without a history is in turn once the one before it has left.
  lemma FreshInTurn<C>(orders: seq<Order>, log: seq<Event>, tasks: seq<Task<C>>)
    requires Lined(orders, tasks) && LogOk(orders, log) && Fresh(orders, log, tasks) && tasks != []
        && LineAfter(log) == Idle
    requires NoneLost(Queue(tasks[1..], orders, log))
    ensures Good(Queue(tasks[1..], orders, log))
  {
    hide LineAfter, AnsweredWell, LogOk, NoneLost;
    var rest := tasks[1..];
    assert forall i :: 0 <= i < |rest| ==> rest[i] == tasks[i + 1];
    if rest != [] {
      assert AsOrdered(orders, tasks[1], 1 == 0);
      assert forall p :: 0 <= p < |log| ==> Precedes(orders, log[p].id, tasks[1].id);
    }
  }

  lemma AddedKeeps<C>(q: Queue<C>, cpvt: C, cmds: seq<Cmd>, prio: bool)
    requires Good(q) && cmds != []
    ensures Good(Added(q, cpvt, cmds, prio))
  {
    hide LineAfter, AnsweredWell, Precedes, InTurn, AsOrdered, NoneLost, OnQueue;
    var order := Order(cmds, prio);
    var t := Task(|q.orders|, cpvt, cmds, 0);
    var orders := q.orders + [order];
    OrdersGrow(q.orders, order, q.log);
    YoungestLast(q, order, t);
    if q.tasks != [] {
      TurnStays(q.orders, order, q.log, q.tasks[0]);
    }
    var r := Added(q, cpvt, cmds, prio);
    var at := if prio && q.tasks != [] then 1 else |q.tasks|;
    assert r.tasks == q.tasks[..at] + [t] + q.tasks[at..];
    assert forall i :: 0 <= i < |r.tasks| ==>
        r.tasks[i] == if i < at then q.tasks[i] else if i == at then t else q.tasks[i - 1];
    Joins(q.tasks, t, at);
    NobodyGone(q, r);
  }

  lemma OrdersGrow(orders: seq<Order>, order: Order, log: seq<Event>)
    requires LogOk(orders, log)
    ensures LogOk(orders + [order], log)
  {
    hide AnsweredWell;
    AnsweredStillWell(orders, order, log);
  }

  lemma AnsweredStillWell(orders: seq<Order>, order: Order, log: seq<Event>)
    ensures forall id: nat, k: nat ::
              id < |orders| && k < |orders[id].cmds| ==>
                AnsweredWell(orders, log, id, k) == AnsweredWell(orders + [order], log, id, k)
  {
  }

  // The new task precedes the others if it has priority, and all precede it.
  lemma YoungestLast<C>(q: Queue<C>, order: Order, t: Task<C>)
    requires Good(q) && t.id == |q.orders| && t.cmds == order.cmds != [] && t.cindex == 0
    ensures var orders := q.orders + [order];
      && AsOrdered(orders, t, false) && AsOrdered(orders, t, true)
      && (forall i :: 0 <= i < |q.tasks| ==> AsOrdered(orders, q.tasks[i], i == 0) && q.tasks[i].id < |q.orders|)
      && (forall a: nat, b: nat :: Precedes(q.orders, a, b) ==> Precedes(orders, a, b))
      && (forall a: nat :: a < |q.orders| ==> Precedes(orders, a, t.id))
      && (order.prio ==> forall b: nat :: b < |q.orders| ==> Precedes(orders, t.id, b))
      && (q.tasks == [] && LineAfter(q.log) == Idle && Known(orders, q.log) ==>
            InTurn(orders, q.log, t) && LineOf(orders, t) == Idle)
  {
    hide LineAfter, AnsweredWell;
    var orders := q.orders + [order];
    forall i | 0 <= i < |q.tasks|
      ensures AsOrdered(orders, q.tasks[i], i == 0) && q.tasks[i].id < |q.orders|
    {
      assert AsOrdered(q.orders, q.tasks[i], i == 0);
      assert orders[q.tasks[i].id] == q.orders[q.tasks[i].id];
    }
  }

  lemma TurnStays<C>(orders: seq<Order>, order: Order, log: seq<Event>, t: Task<C>)
    requires LogOk(orders, log) && AsOrdered(orders, t, true) && InTurn(orders, log, t)
    ensures LogOk(orders + [order], log) && AsOrdered(orders + [order], t, true)
    ensures InTurn(orders + [order], log, t) && LineOf(orders + [order], t) == LineOf(orders, t)
  {
    hide AnsweredWell;
    OrdersGrow(orders, order, log);
    AnsweredStillWell(orders, order, log);
    assert (orders + [order])[t.id] == orders[t.id];
  }

  lemma SameIds<C>(a: seq<Task<C>>, b: seq<Task<C>>)
    requires |a| == |b| && forall i :: 0 <= i < |a| ==> a[i].id == b[i].id
    ensures forall id: nat :: OnQueue(a, id) ==> OnQueue(b, id)
  {
    forall id: nat | OnQueue(a, id)
      ensures OnQueue(b, id)
    {
      var i :| 0 <= i < |a| && a[i].id == id;
      assert b[i].id == id;
    }
  }

  lemma Joins<C>(a: seq<Task<C>>, t: Task<C>, at: nat)
    requires at <= |a|
    ensures forall id: nat :: OnQueue(a, id) || id == t.id ==> OnQueue(a[..at] + [t] + a[at..], id)
  {
    var b := a[..at] + [t] + a[at..];
    forall id: nat | OnQueue(a, id) || id == t.id
      ensures OnQueue(b, id)
    {
      assert b[at].id == t.id;
      if id != t.id {
        var i :| 0 <= i < |a| && a[i].id == id;
        assert b[if i < at then i else i + 1].id == id;
      }
    }
  }

  // The head moves on within its task.
  lemma HeadMoves<C>(q: Queue<C>, t: Task<C>, e: Event)
    requires Good(q) && q.tasks != [] && t.id == e.id == q.tasks[0].id && AsOrdered(q.orders, t, true)
    requires LogOk(q.orders, q.log + [e]) && InTurn(q.orders, q.log + [e], t)
    requires LineAfter(q.log + [e]) == LineOf(q.orders, t)
    ensures Good(Queue([t] + q.tasks[1..], q.orders, q.log + [e]))
  {
    hide LineAfter, LineOf, AnsweredWell, Precedes, InTurn, LogOk, NoneLost, OnQueue;
    var tasks := [t] + q.tasks[1..];
    assert forall i :: 0 < i < |tasks| ==> tasks[i] == q.tasks[i];
    hide AsOrdered;
    SameIds(q.tasks, tasks);
    NobodyGone(q, Queue(tasks, q.orders, q.log + [e]));
    assert forall i :: 0 < i < |tasks| ==> Precedes(q.orders, q.tasks[0].id, q.tasks[i].id);
  }

  lemma SentKeeps<C>(q: Queue<C>)
    requires Good(q) && q.tasks != [] && q.tasks[0].cmds[q.tasks[0].cindex].text != ""
    ensures Good(Ran(q, true))
  {
    hide LineAfter, AnsweredWell, Precedes;
    var t := q.tasks[0];
    var e := Sent(t.id, t.cindex);
    TurnMay(q.orders, q.log, t, e);
    LogGrows(q.orders, q.log, e);
    LineGrows(q.log, e);
    AnsweredAllStay(q.orders, q.log, e);
    HeadMoves(q, Written(t), e);
  }

  lemma RemovedKeeps<C>(q: Queue<C>)
    requires Good(q)
    ensures Good(Removed(q))
  {
    hide LineAfter, AnsweredWell, Precedes, InTurn;
    if q.tasks != [] {
      var e := Left(q.tasks[0].id);
      TurnMay(q.orders, q.log, q.tasks[0], e);
      LogGrows(q.orders, q.log, e);
      LineGrows(q.log, e);
      FreshGrows(q, q.log, e);
      HeadGone(q, q.log + [e]);
      FreshInTurn(q.orders, q.log + [e], q.tasks);
    }
  }

  lemma HeadGone<C>(q: Queue<C>, log: seq<Event>)
    requires NoneLost(q) && q.tasks != [] && Left(q.tasks[0].id) in log && (forall e :: e in q.log ==> e in log)
    ensures NoneLost(Queue(q.tasks[1..], q.orders, log))
  {
    var rest := q.tasks[1..];
    forall id: nat | id < |q.orders|
      ensures OnQueue(rest, id) || Left(id) in log
    {
      if OnQueue(q.tasks, id) {
        var i :| 0 <= i < |q.tasks| && q.tasks[i].id == id;
        assert i > 0 ==> rest[i - 1].id == id;
      }
    }
  }

  // Nobody leaves: the ids on the queue stay.
  lemma NobodyGone<C>(q: Queue<C>, r: Queue<C>)
    requires NoneLost(q) && (forall e :: e in q.log ==> e in r.log)
    requires forall id: nat :: id < |r.orders| && (id < |q.orders| ==> OnQueue(q.tasks, id)) ==> OnQueue(r.tasks, id)
    ensures NoneLost(r)
  {
  }

  lemma FreshGrows<C>(q: Queue<C>, log: seq<Event>, e: Event)
    requires Lined(q.orders, q.tasks) && q.tasks != [] && e.id == q.tasks[0].id && Fresh(q.orders, log, q.tasks)
    ensures Fresh(q.orders, log + [e], q.tasks)
  {
    hide Precedes, AsOrdered;
  }

  lemma AdvancedKeeps<C>(q: Queue<C>, answer: Answer)
    requires Good(q) && q.tasks != [] && q.tasks[0].cindex + 1 < |q.tasks[0].cmds|
    requires Accepts(q.tasks[0].cmds[q.tasks[0].cindex], answer)
    ensures Good(CmdRemoved(q, answer))
  {
    hide LineAfter, AnsweredWell, Precedes, InTurn;
    var t := q.tasks[0];
    var e := Answered(t.id, t.cindex, answer);
    TurnMay(q.orders, q.log, t, e);
    LogGrows(q.orders, q.log, e);
    LineGrows(q.log, e);
    hide LogOk;
    NextInTurn(q.orders, q.log, t, e);
    HeadMoves(q, t.(cindex := t.cindex + 1), e);
  }

  lemma NextInTurn<C>(orders: seq<Order>, log: seq<Event>, t: Task<C>, e: Event)
    requires Known(orders, log) && Known(orders, log + [e]) && AsOrdered(orders, t, true) && InTurn(orders, log, t)
    requires e.Answered? && e.id == t.id && e.k == t.cindex && Accepts(t.cmds[t.cindex], e.answer)
    requires t.cindex + 1 < |t.cmds|
    ensures AsOrdered(orders, t.(cindex := t.cindex + 1), true) && InTurn(orders, log + [e], t.(cindex := t.cindex + 1))
  {
    hide AnsweredWell, Precedes;
    AnsweredAllStay(orders, log, e);
    AnsweredNow(orders, log, e);
  }

  lemma AnsweredNow(orders: seq<Order>, log: seq<Event>, e: Event)
    requires e.Answered? && e.id < |orders| && e.k < |orders[e.id].cmds| && Accepts(orders[e.id].cmds[e.k], e.answer)
    ensures AnsweredWell(orders, log + [e], e.id, e.k)
  {
    assert (log + [e])[|log|] == e;
  }

  lemma FinishedKeeps<C>(q: Queue<C>, answer: Answer)
    requires Good(q) && q.tasks != []
    requires q.tasks[0].cindex + 1 == |q.tasks[0].cmds| || !Accepts(q.tasks[0].cmds[q.tasks[0].cindex], answer)
    ensures Good(CmdRemoved(q, answer))
  {
    hide LineAfter, AnsweredWell, Precedes, InTurn;
    var t := q.tasks[0];
    var e, l := Answered(t.id, t.cindex, answer), Left(t.id);
    TurnMay(q.orders, q.log, t, e);
    LogGrows(q.orders, q.log, e);
    LineGrows(q.log, e);
    FreshGrows(q, q.log, e);
    MayLeave(q.orders, q.log, e, l);
    LogGrows(q.orders, q.log + [e], l);
    LineGrows(q.log + [e], l);
    FreshGrows(q, q.log + [e], l);
    HeadGone(q, q.log + [e] + [l]);
    FreshInTurn(q.orders, q.log + [e] + [l], q.tasks);
  }

  lemma MayLeave(orders: seq<Order>, log: seq<Event>, e: Event, l: Event)
    requires Known(orders, log) && MayFollow(orders, log, e) && e.Answered? && l == Left(e.id)
    requires Known(orders, log + [e])
    ensures MayFollow(orders, log + [e], l)
  {
    hide AnsweredWell;
  }

  lemma CmdRemovedKeeps<C>(q: Queue<C>, answer: Answer)
    requires Good(q)
    ensures Good(CmdRemoved(q, answer))
  {
    if q.tasks != [] {
      var t := q.tasks[0];
      if t.cindex + 1 == |t.cmds| || !Accepts(t.cmds[t.cindex], answer) {
        FinishedKeeps(q, answer);
      } else {
        AdvancedKeeps(q, answer);
      }
    }
  }

  lemma RanKeeps<C>(q: Queue<C>, ok: bool)
    requires Good(q)
    ensures Good(Ran(q, ok))
  {
    if q.tasks != [] && q.tasks[0].cmds[q.tasks[0].cindex].text != "" {
      if ok {
        SentKeeps(q);
      } else {
        CmdRemovedKeeps(q, Failed);
      }
    }
  }

  lemma {:induction false} FlushedKeeps<C>(q: Queue<C>)
    requires Good(q)
    ensures Good(Flushed(q))
    decreases |q.tasks|
  {
    if q.tasks != [] {
      RemovedKeeps(q);
      FlushedKeeps(Removed(q));
    }
  }

  lemma RelinkedKeeps<C>(q: Queue<C>, old': C, new': C)
    requires Good(q)
    ensures Good(q.(tasks := Relinked(q.tasks, old', new')))
  {
    hide LineAfter, AnsweredWell, Precedes, LogOk, NoneLost, OnQueue;
    SameIds(q.tasks, Relinked(q.tasks, old', new'));
    NobodyGone(q, q.(tasks := Relinked(q.tasks, old', new')));
    forall i | 0 <= i < |q.tasks|
      ensures AsOrdered(q.orders, Relinked(q.tasks, old', new')[i], i == 0)
    {
      assert AsOrdered(q.orders, q.tasks[i], i == 0);
    }
    hide AsOrdered;
  }

  // ------------------------------------------------------------------
  // Runs.
  // ------------------------------------------------------------------

  // One call of at_queue_insert_const or at_queue_insert_task: whether memory was there
  // for it, and how the write ends if one is made.
  datatype Insert<C> = Insert(cpvt: C, cmds: seq<Cmd>, prio: bool, isConst: bool, mem: bool, ok: bool)

  function Inserted<C>(q: Queue<C>, ins: Insert<C>): (r: Queue<C>)
    requires Formed(q.tasks)
    ensures Formed(r.tasks)
  {
    if ins.cmds != [] && ins.mem then Ran(Added(q, ins.cpvt, ins.cmds, ins.prio), ins.ok)
    else if ins.isConst then q
    else Ran(q, ins.ok)
  }

  predicate IsError(res: Res) {
    res == RES_ERROR || res == RES_CMS_ERROR
  }

  // The response handlers that move the queue, by what they ask of the head.
  predicate Admits(head: Cmd, res: Res) {
    match res
    case RES_OK => head.res == RES_OK || head.res == RES_CMGR
    case RES_ERROR => head.res == RES_OK || head.res == RES_CMGR || head.res == RES_SMS_PROMPT
    case RES_CMS_ERROR => head.res == RES_OK || head.res == RES_CMGR || head.res == RES_SMS_PROMPT
    case RES_CMGR => head.res == RES_CMGR || head.cmd == CMD_USER
    case RES_SMS_PROMPT => head.res == RES_SMS_PROMPT
    case _ => false
  }

  function InsertedAll<C>(q: Queue<C>, first: seq<Insert<C>>): (r: Queue<C>)
    requires Formed(q.tasks)
    ensures Formed(r.tasks)
    decreases |first|
  {
    if first == [] then q else InsertedAll(Inserted(q, first[0]), first[1..])
  }

  predicate Moves<C>(q: Queue<C>, res: Res)
    requires Formed(q.tasks)
  {
    q.tasks != [] && Admits(q.tasks[0].cmds[q.tasks[0].cindex], res)
  }

  // What the handler of an error queues before it moves the queue.
  function BeforeMove<C>(q: Queue<C>, res: Res, first: seq<Insert<C>>): (r: Queue<C>)
    requires Formed(q.tasks)
    ensures Formed(r.tasks)
  {
    InsertedAll(q, if IsError(res) then first else [])
  }

  function Responded<C>(q: Queue<C>, res: Res, first: seq<Insert<C>>): (r: Queue<C>)
    requires Formed(q.tasks)
    ensures Formed(r.tasks)
  {
    if Moves(q, res) then CmdRemoved(BeforeMove(q, res, first), Got(res)) else q
  }

  datatype Op<C> =
    | Insertion(ins: Insert<C>)
    | Response(res: Res, first: seq<Insert<C>>)
    | Turn(ok: bool)
    | Flush
    | Relink(dead: C, sys: C)

  function Apply<C(==)>(q: Queue<C>, op: Op<C>): (r: Queue<C>)
    requires Formed(q.tasks)
    ensures Formed(r.tasks)
  {
    match op
    case Insertion(ins) => Inserted(q, ins)
    case Response(res, first) => Responded(q, res, first)
    case Turn(ok) => Ran(q, ok)
    case Flush => Flushed(q)
    case Relink(dead, sys) => q.(tasks := Relinked(q.tasks, dead, sys))
  }

  function Exec<C(==)>(q: Queue<C>, ops: seq<Op<C>>): (r: Queue<C>)
    requires Formed(q.tasks)
    ensures Formed(r.tasks)
    decreases |ops|
  {
    if ops == [] then q else Exec(Apply(q, ops[0]), ops[1..])
  }

  function Empty<C>(): Queue<C> {
    Queue([], [], [])
  }

  lemma GoodFormed<C>(q: Queue<C>)
    requires Good(q)
    ensures Formed(q.tasks)
  {
    forall i | 0 <= i < |q.tasks|
      ensures q.tasks[i].cindex < |q.tasks[i].cmds|
    {
      assert AsOrdered(q.orders, q.tasks[i], i == 0);
    }
  }

  lemma InsertedKeeps<C>(q: Queue<C>, ins: Insert<C>)
    requires Good(q) && Formed(q.tasks)
    ensures Good(Inserted(q, ins))
  {
    hide Good;
    if ins.cmds != [] && ins.mem {
      AddedKeeps(q, ins.cpvt, ins.cmds, ins.prio);
      RanKeeps(Added(q, ins.cpvt, ins.cmds, ins.prio), ins.ok);
    } else if !ins.isConst {
      RanKeeps(q, ins.ok);
    }
  }

  lemma {:induction false} InsertedAllKeeps<C>(q: Queue<C>, first: seq<Insert<C>>)
    requires Good(q) && Formed(q.tasks)
    ensures Good(InsertedAll(q, first))
    decreases |first|
  {
    hide Good;
    if first != [] {
      InsertedKeeps(q, first[0]);
      InsertedAllKeeps(Inserted(q, first[0]), first[1..]);
    }
  }

  lemma ApplyKeeps<C>(q: Queue<C>, op: Op<C>)
    requires Good(q) && Formed(q.tasks)
    ensures Good(Apply(q, op))
  {
    hide Good;
    match op {
      case Insertion(ins) => InsertedKeeps(q, ins);
      case Response(res, first) =>
        if Moves(q, res) {
          InsertedAllKeeps(q, if IsError(res) then first else []);
          CmdRemovedKeeps(BeforeMove(q, res, first), Got(res));
        }
      case Turn(ok) => RanKeeps(q, ok);
      case Flush => FlushedKeeps(q);
      case Relink(dead, sys) => RelinkedKeeps(q, dead, sys);
    }
  }

  lemma {:induction false} ExecKeeps<C>(q: Queue<C>, ops: seq<Op<C>>)
    requires Good(q) && Formed(q.tasks)
    ensures Good(Exec(q, ops))
    decreases |ops|
  {
    hide Good;
    if ops != [] {
      ApplyKeeps(q, ops[0]);
      ExecKeeps(Apply(q, ops[0]), ops[1..]);
    }
  }

  // In every run the log is orderly and the line is never used twice.
  lemma EveryRunIsOrderly<C>(ops: seq<Op<C>>)
    ensures var q := Exec(Empty(), ops); Good(q) && LogOk(q.orders, q.log) && LineAfter(q.log) != Broken
  {
    hide Exec, LogOk, LineAfter;
    EmptyIsGood<C>();
    ExecKeeps(Empty(), ops);
    LineNotBroken(Exec(Empty(), ops));
  }

  lemma EmptyIsGood<C>()
    ensures Good<C>(Empty())
  {
    hide AnsweredWell, Precedes, InTurn, AsOrdered, Rank, OnQueue, LineAfter, LineOf, Contiguous, InOrder, InSequence;
    var q := Empty<C>();
    assert |q.tasks| == 0 && |q.log| == 0;
    NothingHappened(q.orders, q.log);
  }

  lemma NothingHappened(orders: seq<Order>, log: seq<Event>)
    requires log == []
    ensures LogOk(orders, log) && LineAfter(log) == Idle
  {
  }

  lemma LineNotBroken<C>(q: Queue<C>)
    requires Good(q)
    ensures LogOk(q.orders, q.log) && LineAfter(q.log) != Broken
  {
    hide LineAfter, LogOk;
  }

  // ------------------------------------------------------------------
  // The queue never changes the order of two tasks.
  // ------------------------------------------------------------------

  // Task a has left since n, or stands before b if b is queued.
  ghost predicate StandsBefore<C>(q: Queue<C>, a: nat, b: nat, n: nat) {
    || (exists m :: n <= m < |q.log| && q.log[m] == Left(a))
    || (exists i :: 0 <= i < |q.tasks| && q.tasks[i].id == a
                    && (forall j :: 0 <= j < |q.tasks| && q.tasks[j].id == b ==> i < j))
  }

  // Since n nothing happened to b before a had left.
  ghost predicate WaitsFor(log: seq<Event>, a: nat, b: nat, n: nat) {
    forall p :: n <= p < |log| && log[p].id == b ==> exists m :: n <= m < p && log[m] == Left(a)
  }

  ghost predicate Ahead<C>(q: Queue<C>, a: nat, b: nat, n: nat) {
    n <= |q.log| && a != b && a < |q.orders| && b < |q.orders| && StandsBefore(q, a, b, n) && WaitsFor(q.log, a, b, n)
  }

  // An event of the head.
  lemma AheadGrows<C>(q: Queue<C>, r: Queue<C>, e: Event, a: nat, b: nat, n: nat)
    requires Ahead(q, a, b, n) && q.tasks != [] && e.id == q.tasks[0].id && r.orders == q.orders && r.log == q.log + [e]
    requires (r.tasks == q.tasks[1..] && e == Left(e.id))
      || (|r.tasks| == |q.tasks| && forall i :: 0 <= i < |r.tasks| ==> r.tasks[i].id == q.tasks[i].id)
    ensures Ahead(r, a, b, n)
  {
    if m :| n <= m < |q.log| && q.log[m] == Left(a) {
      assert r.log[m] == Left(a);
    } else {
      var i :| 0 <= i < |q.tasks| && q.tasks[i].id == a
               && (forall j :: 0 <= j < |q.tasks| && q.tasks[j].id == b ==> i < j);
      if |r.tasks| < |q.tasks| {
        if i == 0 {
          assert r.log[|q.log|] == Left(a);
        } else {
          assert r.tasks[i - 1].id == a;
        }
      } else {
        assert r.tasks[i].id == a;
      }
    }
    forall p | n <= p < |r.log| && r.log[p].id == b
      ensures exists m :: n <= m < p && r.log[m] == Left(a)
    {
      HeadOrBefore(q, e, a, b, n, p);
      var m :| n <= m < p && (q.log + [e])[m] == Left(a);
      assert r.log[m] == Left(a);
    }
  }

  lemma HeadOrBefore<C>(q: Queue<C>, e: Event, a: nat, b: nat, n: nat, p: nat)
    requires Ahead(q, a, b, n) && q.tasks != [] && e.id == q.tasks[0].id && n <= p <= |q.log|
        && (q.log + [e])[p].id == b
    ensures exists m :: n <= m < p && (q.log + [e])[m] == Left(a)
  {
    if p < |q.log| {
      var m :| n <= m < p && q.log[m] == Left(a);
      assert (q.log + [e])[m] == Left(a);
    } else {
      var m :| n <= m < |q.log| && q.log[m] == Left(a);
      assert (q.log + [e])[m] == Left(a);
    }
  }

  lemma AddedAhead<C>(q: Queue<C>, cpvt: C, cmds: seq<Cmd>, prio: bool, a: nat, b: nat, n: nat)
    requires Ahead(q, a, b, n)
    ensures Ahead(Added(q, cpvt, cmds, prio), a, b, n)
  {
    var r := Added(q, cpvt, cmds, prio);
    var at := if prio && q.tasks != [] then 1 else |q.tasks|;
    assert forall i :: 0 <= i < |r.tasks| ==>
      r.tasks[i] == if i < at then q.tasks[i] else if i == at then Task(|q.orders|, cpvt, cmds, 0) else q.tasks[i - 1];
    if m :| n <= m < |q.log| && q.log[m] == Left(a) {
      assert r.log[m] == Left(a);
    } else {
      var i :| 0 <= i < |q.tasks| && q.tasks[i].id == a
               && (forall j :: 0 <= j < |q.tasks| && q.tasks[j].id == b ==> i < j);
      var k := if i < at then i else i + 1;
      assert r.tasks[k].id == a;
    }
  }

  lemma RemovedAhead<C>(q: Queue<C>, a: nat, b: nat, n: nat)
    requires Ahead(q, a, b, n)
    ensures Ahead(Removed(q), a, b, n)
  {
    hide Ahead;
    if q.tasks != [] {
      AheadGrows(q, Removed(q), Left(q.tasks[0].id), a, b, n);
    }
  }

  lemma CmdRemovedAhead<C>(q: Queue<C>, answer: Answer, a: nat, b: nat, n: nat)
    requires Formed(q.tasks) && Ahead(q, a, b, n)
    ensures Ahead(CmdRemoved(q, answer), a, b, n)
  {
    hide Ahead;
    if q.tasks != [] {
      var t := q.tasks[0];
      var e := Answered(t.id, t.cindex, answer);
      var r := q.(tasks := [t.(cindex := t.cindex + 1)] + q.tasks[1..], log := q.log + [e]);
      AheadGrows(q, r, e, a, b, n);
      RemovedAhead(r, a, b, n);
    }
  }

  lemma RanAhead<C>(q: Queue<C>, ok: bool, a: nat, b: nat, n: nat)
    requires Formed(q.tasks) && Ahead(q, a, b, n)
    ensures Ahead(Ran(q, ok), a, b, n)
  {
    hide Ahead;
    CmdRemovedAhead(q, Failed, a, b, n);
    hide CmdRemoved;
    if q.tasks != [] && ok && q.tasks[0].cmds[q.tasks[0].cindex].text != "" {
      AheadGrows(q, Ran(q, ok), Sent(q.tasks[0].id, q.tasks[0].cindex), a, b, n);
    }
  }

  lemma {:induction false} FlushedAhead<C>(q: Queue<C>, a: nat, b: nat, n: nat)
    requires Ahead(q, a, b, n)
    ensures Ahead(Flushed(q), a, b, n)
    decreases |q.tasks|
  {
    hide Ahead;
    if q.tasks != [] {
      RemovedAhead(q, a, b, n);
      FlushedAhead(Removed(q), a, b, n);
    }
  }

  lemma InsertedAhead<C>(q: Queue<C>, ins: Insert<C>, a: nat, b: nat, n: nat)
    requires Formed(q.tasks) && Ahead(q, a, b, n)
    ensures Ahead(Inserted(q, ins), a, b, n)
  {
    hide Ahead;
    if ins.cmds != [] && ins.mem {
      AddedAhead(q, ins.cpvt, ins.cmds, ins.prio, a, b, n);
      RanAhead(Added(q, ins.cpvt, ins.cmds, ins.prio), ins.ok, a, b, n);
    } else {
      RanAhead(q, ins.ok, a, b, n);
    }
  }

  lemma {:induction false} InsertedAllAhead<C>(q: Queue<C>, first: seq<Insert<C>>, a: nat, b: nat, n: nat)
    requires Formed(q.tasks) && Ahead(q, a, b, n)
    ensures Ahead(InsertedAll(q, first), a, b, n)
    decreases |first|
  {
    hide Ahead;
    if first != [] {
      InsertedAhead(q, first[0], a, b, n);
      InsertedAllAhead(Inserted(q, first[0]), first[1..], a, b, n);
    }
  }

  lemma RelinkedAhead<C>(q: Queue<C>, dead: C, sys: C, a: nat, b: nat, n: nat)
    requires Ahead(q, a, b, n)
    ensures Ahead(q.(tasks := Relinked(q.tasks, dead, sys)), a, b, n)
  {
    var r := q.(tasks := Relinked(q.tasks, dead, sys));
    assert forall i :: 0 <= i < |q.tasks| ==> r.tasks[i].id == q.tasks[i].id;
    if i :| 0 <= i < |q.tasks| && q.tasks[i].id == a && forall j :: 0 <= j < |q.tasks| && q.tasks[j].id == b ==> i < j {
      assert r.tasks[i].id == a;
    }
  }

  lemma ApplyAhead<C>(q: Queue<C>, op: Op<C>, a: nat, b: nat, n: nat)
    requires Formed(q.tasks) && Ahead(q, a, b, n)
    ensures Ahead(Apply(q, op), a, b, n)
  {
    hide Ahead;
    match op {
      case Insertion(ins) => InsertedAhead(q, ins, a, b, n);
      case Response(res, first) =>
        InsertedAllAhead(q, if IsError(res) then first else [], a, b, n);
        CmdRemovedAhead(BeforeMove(q, res, first), Got(res), a, b, n);
      case Turn(ok) => RanAhead(q, ok, a, b, n);
      case Flush => FlushedAhead(q, a, b, n);
      case Relink(dead, sys) => RelinkedAhead(q, dead, sys, a, b, n);
    }
  }

  lemma {:induction false} ExecAhead<C>(q: Queue<C>, ops: seq<Op<C>>, a: nat, b: nat, n: nat)
    requires Formed(q.tasks) && Ahead(q, a, b, n)
    ensures Ahead(Exec(q, ops), a, b, n)
    decreases |ops|
  {
    hide Ahead;
    if ops != [] {
      ApplyAhead(q, ops[0], a, b, n);
      ExecAhead(Apply(q, ops[0]), ops[1..], a, b, n);
    }
  }

  // Whatever follows, of two queued tasks the later one has no turn before the earlier
  // one has left.
  lemma QueueOrderKept<C>(q: Queue<C>, i: nat, k: nat, ops: seq<Op<C>>)
    requires Good(q) && Formed(q.tasks) && i < k < |q.tasks|
    ensures WaitsFor(Exec(q, ops).log, q.tasks[i].id, q.tasks[k].id, |q.log|)
  {
    hide Exec, LineAfter, LogOk, Fresh, InTurn, NoneLost;
    QueuedAhead(q, i, k);
    ExecAhead(q, ops, q.tasks[i].id, q.tasks[k].id, |q.log|);
  }

  lemma QueuedAhead<C>(q: Queue<C>, i: nat, k: nat)
    requires Lined(q.orders, q.tasks) && i < k < |q.tasks|
    ensures Ahead(q, q.tasks[i].id, q.tasks[k].id, |q.log|)
  {
    assert AsOrdered(q.orders, q.tasks[i], i == 0) && AsOrdered(q.orders, q.tasks[k], k == 0);
    assert forall j :: 0 <= j < k ==> Precedes(q.orders, q.tasks[j].id, q.tasks[k].id);
    assert StandsBefore(q, q.tasks[i].id, q.tasks[k].id, |q.log|);
  }

  // A task with priority has its turn before every task queued behind the head; one
  // without waits for all that are queued.
  lemma PriorityGoesNext<C>(q: Queue<C>, cpvt: C, cmds: seq<Cmd>, prio: bool, k: nat, ops: seq<Op<C>>)
    requires Good(q) && Formed(q.tasks) && cmds != [] && k < |q.tasks|
    ensures var r := Added(q, cpvt, cmds, prio);
      Formed(r.tasks) && if prio && k > 0 then WaitsFor(Exec(r, ops).log, |q.orders|, q.tasks[k].id, |q.log|)
                         else WaitsFor(Exec(r, ops).log, q.tasks[k].id, |q.orders|, |q.log|)
  {
    hide Good, Exec, WaitsFor;
    var r := Added(q, cpvt, cmds, prio);
    AddedKeeps(q, cpvt, cmds, prio);
    GoodFormed(r);
    if prio {
      assert r.tasks[1].id == |q.orders|;
      if k > 0 {
        assert r.tasks[k + 1] == q.tasks[k];
        QueueOrderKept(r, 1, k + 1, ops);
      } else {
        QueueOrderKept(r, 0, 1, ops);
      }
    } else {
      assert r.tasks[|q.tasks|].id == |q.orders|;
      QueueOrderKept(r, k, |q.tasks|, ops);
    }
  }

  // ------------------------------------------------------------------
  // What an orderly log means.
  // ------------------------------------------------------------------

  // Every task queued is still on the queue, or it has left: one or the other.
  lemma OnQueueOrLeft<C>(ops: seq<Op<C>>, id: nat)
    requires id < |Exec<C>(Empty(), ops).orders|
    ensures var q := Exec(Empty(), ops); OnQueue(q.tasks, id) <==> Left(id) !in q.log
  {
    hide Exec, LineAfter;
    EveryRunIsOrderly(ops);
    var q := Exec(Empty(), ops);
    hide LogOk;
    if OnQueue(q.tasks, id) {
      var i :| 0 <= i < |q.tasks| && q.tasks[i].id == id;
      StillThere(q, i);
    }
  }

  lemma StillThere<C>(q: Queue<C>, i: nat)
    requires Good(q) && i < |q.tasks|
    ensures Left(q.tasks[i].id) !in q.log
  {
    hide LineAfter, AnsweredWell, NoneLost;
    assert AsOrdered(q.orders, q.tasks[i], i == 0);
  }

  lemma WrittenAtMostOnce(orders: seq<Order>, log: seq<Event>, p: nat, r: nat)
    requires LogOk(orders, log) && p < r < |log| && log[p].Sent?
    ensures log[r] != log[p]
    ensures log[r].Sent? && log[r].id == log[p].id ==> log[p].k < log[r].k
  {
  }

  ghost predicate Closes(e: Event, id: nat, k: nat) {
    e.id == id && (e.Left? || (e.Answered? && e.k == k))
  }

  // Between two writes the first command was answered, or its task given up.
  lemma OneOutstanding(log: seq<Event>, p: nat, r: nat) returns (m: nat)
    requires LineAfter(log) != Broken && p < r < |log| && log[p].Sent? && log[r].Sent?
    ensures p < m < r && Closes(log[m], log[p].id, log[p].k)
  {
    NeverBrokenBefore(log, p + 1);
    LineStep(log, p);
    m := Closing(log, p + 1, r, log[p].id, log[p].k);
  }

  lemma LineStep(log: seq<Event>, n: nat)
    requires n < |log|
    ensures LineAfter(log[..n + 1]) == LineAfter(log[..n] + [log[n]])
    ensures LineAfter(log[..n + 1]) ==
      match log[n]
      case Sent(id, k) => if LineAfter(log[..n]) == Idle then Waiting(id, k) else Broken
      case Answered(id, k, _) => if LineAfter(log[..n]) == Waiting(id, k) then Idle else LineAfter(log[..n])
      case Left(id) =>
        if LineAfter(log[..n]).Waiting? && LineAfter(log[..n]).id == id then Idle else LineAfter(log[..n])
  {
    LineGrows(log[..n], log[n]);
    assert log[..n + 1] == log[..n] + [log[n]];
  }

  lemma {:induction false} Closing(log: seq<Event>, n: nat, r: nat, id: nat, k: nat) returns (m: nat)
    requires LineAfter(log) != Broken && n <= r < |log| && log[r].Sent?
    requires LineAfter(log[..n]) == Waiting(id, k)
    ensures n <= m < r && Closes(log[m], id, k)
    decreases r - n
  {
    NeverBrokenBefore(log, n + 1);
    LineStep(log, n);
    hide LineAfter;
    if LineAfter(log[..n + 1]) == Waiting(id, k) {
      m := Closing(log, n + 1, r, id, k);
    } else {
      m := n;
    }
  }

  lemma {:induction false} NeverBrokenBefore(log: seq<Event>, n: nat)
    requires LineAfter(log) != Broken && n <= |log|
    ensures LineAfter(log[..n]) != Broken
    decreases |log| - n
  {
    if n == |log| {
      assert log[..n] == log;
    } else {
      NeverBrokenBefore(log, n + 1);
      LineStep(log, n);
    }
  }

  // A later command of a task comes after the expected answer to each earlier one that
  // does not carry the IGNORE flag.
  lemma SuccessorAfterAnswer(orders: seq<Order>, log: seq<Event>, p: nat, k: nat) returns (m: nat)
    requires LogOk(orders, log) && p < |log| && !log[p].Left? && k < log[p].k
    ensures m < p && log[m].Answered? && log[m].id == log[p].id && log[m].k == k
    ensures Accepts(orders[log[p].id].cmds[k], log[m].answer)
  {
    assert AnsweredWell(orders, log, log[p].id, k);
    m :| m < |log| && log[m].Answered? && log[m].id == log[p].id && log[m].k == k
      && Accepts(orders[log[p].id].cmds[k], log[m].answer);
  }

  // ------------------------------------------------------------------
  // Sending a message: AT+CMGS waits for the prompt, the text for OK.
  // ------------------------------------------------------------------

  // The commands at_enque_pdu and at_enque_sms put on the queue.
  function SmsTask(header: string, text: string): seq<Cmd> {
    [Cmd(CMD_AT_CMGS, RES_SMS_PROMPT, false, header), Cmd(CMD_AT_SMSTEXT, RES_OK, false, text)]
  }

  ghost predicate IsSms(order: Order) {
    exists header, text :: order.cmds == SmsTask(header, text)
  }

  // A body goes out only after the prompt was taken for its own header; the only
  // response so taken is the prompt itself.
  lemma SmsBodyAfterPrompt<C>(ops: seq<Op<C>>, p: nat) returns (m: nat)
    requires var q := Exec(Empty(), ops);
      p < |q.log| && q.log[p].Sent? && q.log[p].k == 1 && q.log[p].id < |q.orders| && IsSms(q.orders[q.log[p].id])
    ensures m < p && Exec(Empty(), ops).log[m] == Answered(Exec(Empty(), ops).log[p].id, 0, Got(RES_SMS_PROMPT))
  {
    hide Exec;
    EveryRunIsOrderly(ops);
    var q := Exec(Empty(), ops);
    m := SuccessorAfterAnswer(q.orders, q.log, p, 0);
  }

  // A header answered otherwise, by an error or a failed write: the body never goes out.
  lemma SmsBodyDropped<C>(ops: seq<Op<C>>, p: nat)
    requires var q := Exec(Empty(), ops);
      p < |q.log| && q.log[p].Answered? && q.log[p].k == 0 && q.log[p].answer != Got(RES_SMS_PROMPT)
      && q.log[p].id < |q.orders| && IsSms(q.orders[q.log[p].id])
    ensures var q := Exec(Empty(), ops); Sent(q.log[p].id, 1) !in q.log
  {
    hide Exec;
    EveryRunIsOrderly(ops);
    var q := Exec(Empty(), ops);
    forall r | 0 <= r < |q.log|
      ensures q.log[r] != Sent(q.log[p].id, 1)
    {
      if q.log[r] == Sent(q.log[p].id, 1) {
        var m := SuccessorAfterAnswer(q.orders, q.log, r, 0);
      }
    }
  }

  // While the header is at the head: OK changes nothing, an error or a failed write
  // takes the whole task off the queue.
  lemma SmsHeaderAtHead<C>(q: Queue<C>, header: string, text: string, res: Res)
    requires Formed(q.tasks) && q.tasks != [] && q.tasks[0].cindex == 0 && q.tasks[0].cmds == SmsTask(header, text)
    ensures Responded(q, RES_OK, []) == q
    ensures IsError(res) ==> Responded(q, res, []).tasks == q.tasks[1..]
    ensures Responded(q, res, []) != q && !IsError(res) ==> res == RES_SMS_PROMPT
  {
    SmsHeaderMoves(q, header, text, res);
    SmsHeaderMoves(q, header, text, RES_OK);
    hide Admits, Moves, SmsTask;
  }

  lemma SmsHeaderMoves<C>(q: Queue<C>, header: string, text: string, res: Res)
    requires Formed(q.tasks) && q.tasks != [] && q.tasks[0].cindex == 0 && q.tasks[0].cmds == SmsTask(header, text)
    ensures Moves(q, res) <==> IsError(res) || res == RES_SMS_PROMPT
    ensures q.tasks[0].cmds[0].res == RES_SMS_PROMPT && !q.tasks[0].cmds[0].ignore
  {
  }

  lemma SmsHeaderNotWritten<C>(q: Queue<C>, header: string, text: string)
    requires Formed(q.tasks) && q.tasks != [] && q.tasks[0].cindex == 0 && q.tasks[0].cmds == SmsTask(header, text)
    requires header != ""
    ensures Ran(q, false).tasks == q.tasks[1..]
  {
  }

  // ------------------------------------------------------------------
  // Answers to commands that were never written.
  // ------------------------------------------------------------------

  // An answer counts for the command at the head even if a failed write before it has
  // left that command unwritten. Each answer in scope is for a written command if and
  // only if every response in scope that moves the queue finds the head written.
  datatype Scope = Everything | Messages

  // All answers, or only the prompt for a message's header.
  predicate InScope(scope: Scope, cmd: Command, res: Res) {
    scope == Everything || (cmd == CMD_AT_CMGS && res == RES_SMS_PROMPT)
  }

  ghost predicate AnswersAreDue(orders: seq<Order>, log: seq<Event>, scope: Scope)
    requires Known(orders, log)
  {
    forall p :: 0 <= p < |log| && NeedsSent(orders, log[p], scope) ==> Sent(log[p].id, log[p].k) in log
  }

  // An answer in scope to a command that has data to be written.
  predicate NeedsSent(orders: seq<Order>, e: Event, scope: Scope)
    requires e.id < |orders| && (!e.Left? ==> e.k < |orders[e.id].cmds|)
  {
    && e.Answered? && e.answer.Got?
    && InScope(scope, orders[e.id].cmds[e.k].cmd, e.answer.res) && orders[e.id].cmds[e.k].text != ""
  }

  predicate HeadWritten<C>(q: Queue<C>)
    requires Formed(q.tasks)
  {
    q.tasks == [] || q.tasks[0].cmds[q.tasks[0].cindex].text == ""
  }

  predicate TakenInTime<C>(q: Queue<C>, res: Res, scope: Scope)
    requires Formed(q.tasks)
  {
    q.tasks != [] && InScope(scope, q.tasks[0].cmds[q.tasks[0].cindex].cmd, res) ==> HeadWritten(q)
  }

  predicate Timely<C>(q: Queue<C>, op: Op<C>, scope: Scope)
    requires Formed(q.tasks)
  {
    op.Response? && Moves(q, op.res) ==> TakenInTime(BeforeMove(q, op.res, op.first), op.res, scope)
  }

  predicate AllTimely<C(==)>(q: Queue<C>, ops: seq<Op<C>>, scope: Scope)
    requires Formed(q.tasks)
    decreases |ops|
  {
    ops == [] || (Timely(q, ops[0], scope) && AllTimely(Apply(q, ops[0]), ops[1..], scope))
  }

  ghost predicate Due<C>(q: Queue<C>, scope: Scope) {
    Known(q.orders, q.log) && AnswersAreDue(q.orders, q.log, scope)
  }

  lemma AnswersDueExactly<C>(ops: seq<Op<C>>, scope: Scope)
    ensures Due(Exec(Empty(), ops), scope) <==> AllTimely(Empty(), ops, scope)
  {
    EmptyIsGood<C>();
    ExecDue(Empty(), ops, scope);
  }

  lemma {:induction false} ExecDue<C>(q: Queue<C>, ops: seq<Op<C>>, scope: Scope)
    requires Good(q) && Formed(q.tasks)
    ensures Due(Exec(q, ops), scope) <==> Due(q, scope) && AllTimely(q, ops, scope)
    decreases |ops|
  {
    hide Good, Due, Apply;
    if ops != [] {
      ApplyKeeps(q, ops[0]);
      ApplyDue(q, ops[0], scope);
      ExecDue(Apply(q, ops[0]), ops[1..], scope);
    }
  }

  lemma ApplyDue<C>(q: Queue<C>, op: Op<C>, scope: Scope)
    requires Good(q) && Formed(q.tasks)
    ensures Due(Apply(q, op), scope) <==> Due(q, scope) && Timely(q, op, scope)
  {
    hide Good, Due;
    match op {
      case Insertion(ins) => InsertedDue(q, ins, scope);
      case Response(res, first) =>
        if Moves(q, res) {
          var some := if IsError(res) then first else [];
          InsertedAllKeeps(q, some);
          InsertedAllDue(q, some, scope);
          CmdRemovedDue(BeforeMove(q, res, first), Got(res), scope);
        }
      case Turn(ok) => RanDue(q, ok, scope);
      case Flush => FlushedDue(q, scope);
      case Relink(dead, sys) => SameDue(q, q.(tasks := Relinked(q.tasks, dead, sys)), scope);
    }
  }

  lemma SameDue<C>(q: Queue<C>, r: Queue<C>, scope: Scope)
    requires q.orders == r.orders && q.log == r.log
    ensures Due(q, scope) == Due(r, scope)
  {
  }

  lemma OrderDue<C>(q: Queue<C>, r: Queue<C>, order: Order, scope: Scope)
    requires Good(q) && r.orders == q.orders + [order] && q.log == r.log
    ensures Due(q, scope) == Due(r, scope)
  {
    hide LineAfter, InTurn, Lined, Fresh, AfterAnswers, InOrder, InSequence, Contiguous;
  }

  // One more event.
  lemma EventDue(orders: seq<Order>, log: seq<Event>, e: Event, scope: Scope)
    requires Known(orders, log + [e]) && Known(orders, log)
    requires e.id < |orders| && (!e.Left? ==> e.k < |orders[e.id].cmds|)
    requires e.Sent? ==> forall p :: 0 <= p < |log| ==> !(log[p].Answered? && log[p].id == e.id && log[p].k == e.k)
    ensures AnswersAreDue(orders, log + [e], scope) <==>
      AnswersAreDue(orders, log, scope)
      && (NeedsSent(orders, e, scope) ==> Sent(e.id, e.k) in log)
  {
    var more := log + [e];
    assert more[|log|] == e;
    assert forall x :: x in more <==> x in log || x == e;
    assert forall p :: 0 <= p < |log| ==> more[p] == log[p];
  }

  // The head was sent if and only if it is marked so.
  lemma HeadSent<C>(q: Queue<C>)
    requires Good(q) && q.tasks != []
    ensures var t := q.tasks[0];
      t.id < |q.orders| && t.cindex < |t.cmds| == |q.orders[t.id].cmds|
      && (q.orders[t.id].cmds[t.cindex].text != "" ==>
            (Sent(t.id, t.cindex) in q.log <==> t.cmds[t.cindex].text == ""))
      && (q.orders[t.id].cmds[t.cindex].text == "" ==> t.cmds[t.cindex].text == "")
      && q.orders[t.id].cmds[t.cindex].cmd == t.cmds[t.cindex].cmd
  {
    hide AnsweredWell, Precedes, AfterAnswers, InOrder, InSequence, Contiguous, Fresh, LineAfter;
    var t := q.tasks[0];
    assert AsOrdered(q.orders, t, true);
    if q.orders[t.id].cmds[t.cindex].text != "" && t.cmds[t.cindex].text == "" {
      WaitingWasSent(q.log, t.id, t.cindex);
    }
  }

  lemma {:induction false} WaitingWasSent(log: seq<Event>, id: nat, k: nat)
    requires LineAfter(log) == Waiting(id, k)
    ensures Sent(id, k) in log
  {
    var e := log[|log| - 1];
    if e != Sent(id, k) {
      WaitingWasSent(log[..|log| - 1], id, k);
    }
  }

  lemma RemovedDue<C>(q: Queue<C>, scope: Scope)
    requires Good(q)
    ensures Due(Removed(q), scope) == Due(q, scope)
  {
    if q.tasks != [] {
      RemovedKeeps(q);
      DueGrows(q, Removed(q), Left(q.tasks[0].id), scope);
    }
  }

  lemma DueGrows<C>(q: Queue<C>, r: Queue<C>, e: Event, scope: Scope)
    requires Known(q.orders, q.log) && Known(q.orders, r.log) && r.orders == q.orders && r.log == q.log + [e]
    requires !e.Sent? && e.id < |q.orders| && (!e.Left? ==> e.k < |q.orders[e.id].cmds|)
    ensures Due(r, scope) <==>
      Due(q, scope) && (NeedsSent(q.orders, e, scope) ==> Sent(e.id, e.k) in q.log)
  {
    EventDue(q.orders, q.log, e, scope);
  }

  lemma CmdRemovedDue<C>(q: Queue<C>, answer: Answer, scope: Scope)
    requires Good(q) && Formed(q.tasks)
    ensures Due(CmdRemoved(q, answer), scope) <==> Due(q, scope) && (answer.Got? ==> TakenInTime(q, answer.res, scope))
  {
    hide Good, Due, Known;
    if q.tasks != [] {
      var t := q.tasks[0];
      var e, l := Answered(t.id, t.cindex, answer), Left(t.id);
      HeadSent(q);
      CmdRemovedKeeps(q, answer);
      var r := q.(tasks := [t.(cindex := t.cindex + 1)] + q.tasks[1..], log := q.log + [e]);
      GoodKnown(q);
      GoodKnown(CmdRemoved(q, answer));
      if CmdRemoved(q, answer) != r {
        KnownBefore(q.orders, q.log + [e], l);
        DueGrows(r, CmdRemoved(q, answer), l, scope);
      }
      DueGrows(q, r, e, scope);
    }
  }

  lemma GoodKnown<C>(q: Queue<C>)
    requires Good(q)
    ensures Known(q.orders, q.log)
  {
  }

  lemma KnownBefore(orders: seq<Order>, log: seq<Event>, e: Event)
    requires Known(orders, log + [e])
    ensures Known(orders, log)
  {
    assert forall p :: 0 <= p < |log| ==> (log + [e])[p] == log[p];
  }

  lemma RanDue<C>(q: Queue<C>, ok: bool, scope: Scope)
    requires Good(q) && Formed(q.tasks)
    ensures Due(Ran(q, ok), scope) == Due(q, scope)
  {
    hide Good, Due;
    if q.tasks != [] && q.tasks[0].cmds[q.tasks[0].cindex].text != "" {
      if ok {
        SentDue(q, scope);
      } else {
        CmdRemovedDue(q, Failed, scope);
      }
    }
  }

  lemma SentDue<C>(q: Queue<C>, scope: Scope)
    requires Good(q) && Formed(q.tasks) && q.tasks != [] && q.tasks[0].cmds[q.tasks[0].cindex].text != ""
    ensures Due(Ran(q, true), scope) == Due(q, scope)
  {
    SentKeeps(q);
    hide AnsweredWell, Precedes, AfterAnswers, InOrder, InSequence, Contiguous, Fresh, LineAfter;
    var t := q.tasks[0];
    EventDue(q.orders, q.log, Sent(t.id, t.cindex), scope);
  }

  lemma {:induction false} FlushedDue<C>(q: Queue<C>, scope: Scope)
    requires Good(q)
    ensures Due(Flushed(q), scope) == Due(q, scope)
    decreases |q.tasks|
  {
    hide Good, Due;
    if q.tasks != [] {
      RemovedKeeps(q);
      RemovedDue(q, scope);
      FlushedDue(Removed(q), scope);
    }
  }

  lemma InsertedDue<C>(q: Queue<C>, ins: Insert<C>, scope: Scope)
    requires Good(q) && Formed(q.tasks)
    ensures Due(Inserted(q, ins), scope) == Due(q, scope)
  {
    hide Good, Due;
    if ins.cmds != [] && ins.mem {
      var r := Added(q, ins.cpvt, ins.cmds, ins.prio);
      AddedKeeps(q, ins.cpvt, ins.cmds, ins.prio);
      OrderDue(q, r, Order(ins.cmds, ins.prio), scope);
      RanDue(r, ins.ok, scope);
    } else if !ins.isConst {
      RanDue(q, ins.ok, scope);
    }
  }

  lemma {:induction false} InsertedAllDue<C>(q: Queue<C>, first: seq<Insert<C>>, scope: Scope)
    requires Good(q) && Formed(q.tasks)
    ensures Due(InsertedAll(q, first), scope) == Due(q, scope)
    decreases |first|
  {
    hide Good, Due;
    if first != [] {
      InsertedKeeps(q, first[0]);
      InsertedDue(q, first[0], scope);
      InsertedAllDue(Inserted(q, first[0]), first[1..], scope);
    }
  }

  // If every prompt taken for a header finds it written, every body sent has its own
  // header sent before.
  lemma HeaderBeforeBody<C>(ops: seq<Op<C>>, p: nat) returns (m: nat)
    requires AllTimely(Empty(), ops, Messages)
    requires var q := Exec(Empty(), ops);
      p < |q.log| && q.log[p].Sent? && q.log[p].k == 1 && q.log[p].id < |q.orders| && IsSms(q.orders[q.log[p].id])
      && q.orders[q.log[p].id].cmds[0].text != ""
    ensures m < p && Exec(Empty(), ops).log[m] == Sent(Exec(Empty(), ops).log[p].id, 0)
  {
    hide Exec, LineAfter, Good, AllTimely;
    EveryRunIsOrderly(ops);
    AnswersDueExactly(ops, Messages);
    var q := Exec(Empty(), ops);
    var a := SmsBodyAfterPrompt(ops, p);
    assert NeedsSent(q.orders, q.log[a], Messages);
    assert Sent(q.log[p].id, 0) in q.log;
    m :| m < |q.log| && q.log[m] == Sent(q.log[p].id, 0);
    SentInOrder(q.orders, q.log, m, p);
  }

  lemma SentInOrder(orders: seq<Order>, log: seq<Event>, m: nat, p: nat)
    requires LogOk(orders, log) && m < |log| && p < |log| && log[m].Sent? && log[p].Sent? && log[m].id == log[p].id
    requires log[m].k < log[p].k
    ensures m < p
  {
    hide AnsweredWell;
  }

  // So it is when all responses are in time.
  lemma {:induction false} TimelyForMessages<C>(q: Queue<C>, ops: seq<Op<C>>)
    requires Formed(q.tasks) && AllTimely(q, ops, Everything)
    ensures AllTimely(q, ops, Messages)
    decreases |ops|
  {
    hide Apply;
    if ops != [] {
      TimelyForMessages(Apply(q, ops[0]), ops[1..]);
    }
  }

  // Responses that come too early exist: two writes fail in turn, the second takes the
  // dial task before the message off the queue, and a stray prompt is taken for the header.
  const DIAL := [Cmd(CMD_AT_D, RES_OK, true, "ATD1;"), Cmd(CMD_AT_CLCC, RES_OK, false, "AT+CLCC"),
                 Cmd(CMD_AT_DDSETEX, RES_OK, false, "AT^DDSETEX=2")]
  const MESSAGE := SmsTask("AT+CMGS=1", "00")

  const FAILED_DIAL: Op<int> := Insertion(Insert(1, DIAL, true, false, true, false))
  const FAILED_MESSAGE: Op<int> := Insertion(Insert(0, MESSAGE, false, false, true, false))

  function EarlyPrompt(): seq<Op<int>> {
    [FAILED_DIAL, FAILED_MESSAGE, Op.Response(RES_SMS_PROMPT, []), Turn(true)]
  }

  lemma DialFails()
    ensures Apply(Empty(), FAILED_DIAL) == Queue([Task(0, 1, DIAL, 1)], [Order(DIAL, true)], [Answered(0, 0, Failed)])
  {
    var q := Added<int>(Empty(), 1, DIAL, true);
    assert q.tasks == [Task(0, 1, DIAL, 0)];
  }

  lemma MessageFails()
    ensures var q := Apply(Empty(), FAILED_DIAL);
      && Apply(q, FAILED_MESSAGE).tasks == [Task(1, 0, MESSAGE, 0)]
      && Apply(q, FAILED_MESSAGE).log == [Answered(0, 0, Failed), Answered(0, 1, Failed), Left(0)]
  {
    DialFails();
    hide Apply;
    var q := Apply(Empty(), FAILED_DIAL);
    var r := Added(q, 0, MESSAGE, false);
    assert r.tasks == [Task(0, 1, DIAL, 1), Task(1, 0, MESSAGE, 0)];
    assert Apply(q, FAILED_MESSAGE) == Ran(r, false) by {
      InsertedThen(q, FAILED_MESSAGE);
    }
  }

  lemma InsertedThen<C>(q: Queue<C>, op: Op<C>)
    requires Formed(q.tasks) && op.Insertion? && op.ins.cmds != [] && op.ins.mem
    ensures Apply(q, op) == Ran(Added(q, op.ins.cpvt, op.ins.cmds, op.ins.prio), op.ins.ok)
  {
  }

  lemma PromptMoves(q: Queue<int>)
    requires q.tasks == [Task(1, 0, MESSAGE, 0)]
    ensures Apply(q, Op.Response(RES_SMS_PROMPT, [])).tasks == [Task(1, 0, MESSAGE, 1)]
    ensures Apply(q, Op.Response(RES_SMS_PROMPT, [])).log == q.log + [Answered(1, 0, Got(RES_SMS_PROMPT))]
  {
  }

  lemma BodyGoesOut(q: Queue<int>)
    requires q.tasks == [Task(1, 0, MESSAGE, 1)]
    ensures Apply(q, Turn(true)).log == q.log + [Sent(1, 1)]
  {
  }

  lemma HeaderMaySkip()
    ensures Exec(Empty(), EarlyPrompt()).log ==
      [Answered(0, 0, Failed), Answered(0, 1, Failed), Left(0), Answered(1, 0, Got(RES_SMS_PROMPT)), Sent(1, 1)]
  {
    MessageFails();
    hide Apply;
    var ops := EarlyPrompt();
    var q1 := Apply(Empty(), FAILED_DIAL);
    var q2 := Apply(q1, FAILED_MESSAGE);
    PromptMoves(q2);
    var q3 := Apply(q2, Op.Response(RES_SMS_PROMPT, []));
    BodyGoesOut(q3);
    assert Exec(Empty(), ops) == Exec(q1, ops[1..]);
    assert ops[1..][1..] == ops[2..] && ops[2..][1..] == ops[3..] && ops[3..][1..] == [];
    assert Exec(q1, ops[1..]) == Exec(q2, ops[2..]) == Exec(q3, ops[3..]);
  }

  // ------------------------------------------------------------------
  // What the caller of an insertion is told.
  // ------------------------------------------------------------------

  // The value returned: something went wrong.
  predicate Fails<C>(q: Queue<C>, ins: Insert<C>)
    requires Formed(q.tasks)
  {
    var added := ins.cmds != [] && ins.mem;
    var r := if added then Added(q, ins.cpvt, ins.cmds, ins.prio) else q;
    !added || (r.tasks != [] && r.tasks[0].cmds[r.tasks[0].cindex].text != "" && !ins.ok)
  }

  // The new task is not on the queue afterwards exactly if it was the only one, the write
  // failed and was not ignored. A failure reported in any other case leaves it queued:
  // the commands will still be written.
  lemma QueuedUnlessDropped<C>(q: Queue<C>, ins: Insert<C>)
    requires Good(q) && Formed(q.tasks) && ins.cmds != [] && ins.mem
    ensures !OnQueue(Inserted(q, ins).tasks, |q.orders|) <==>
      q.tasks == [] && Fails(q, ins) && (|ins.cmds| == 1 || !ins.cmds[0].ignore)
  {
    hide Good, OnQueue;
    if q.tasks == [] {
      AloneDropped(q, ins);
    } else {
      BehindStays(q, ins);
    }
  }

  lemma AloneDropped<C>(q: Queue<C>, ins: Insert<C>)
    requires Formed(q.tasks) && ins.cmds != [] && ins.mem && q.tasks == []
    ensures !OnQueue(Inserted(q, ins).tasks, |q.orders|) <==> Fails(q, ins) && (|ins.cmds| == 1 || !ins.cmds[0].ignore)
  {
    var s := Inserted(q, ins);
    if s.tasks != [] {
      assert s.tasks[0].id == |q.orders|;
    }
  }

  lemma BehindStays<C>(q: Queue<C>, ins: Insert<C>)
    requires Formed(q.tasks) && ins.cmds != [] && ins.mem && q.tasks != []
    ensures OnQueue(Inserted(q, ins).tasks, |q.orders|)
  {
    var s := Inserted(q, ins);
    assert OnQueue(s.tasks, |q.orders|) by {
      var at := if ins.prio then 1 else |q.tasks|;
      assert s.tasks[at + |s.tasks| - |q.tasks| - 1].id == |q.orders|;
    }
  }

  // A dial task alone on the queue whose first write fails: the failure is reported, the
  // rest is still queued, and goes out at the next turn.
  lemma FailedDialGoesOut()
    ensures Fails(Empty(), FAILED_DIAL.ins) && OnQueue(Inserted(Empty(), FAILED_DIAL.ins).tasks, 0)
    ensures Exec(Empty(), [FAILED_DIAL, Turn(true)]).log == [Answered(0, 0, Failed), Sent(0, 1)]
  {
    DialFails();
    var q1 := Apply(Empty(), FAILED_DIAL);
    assert q1 == Inserted(Empty(), FAILED_DIAL.ins);
    assert q1.tasks[0].id == 0;
    var q2 := Apply(q1, Turn(true));
    assert q2.log == q1.log + [Sent(0, 1)];
    hide Apply;
    var ops := [FAILED_DIAL, Turn(true)];
    assert Exec(Empty(), ops) == Exec(q1, ops[1..]) == Exec(q2, ops[1..][1..]) == q2;
  }
}
