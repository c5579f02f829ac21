/** The faucet's atomic steps, run by one request with nothing in between, are one call of `request_tokens`. */
module Undisturbed {
  import opened Blocks
  import opened GlobalCap
  import opened Cooldowns
  import opened Faucet
  import opened OneDrip

  predicate Ended(q: Request) {
    q.stage.Denied? || q.stage.Failed? || q.stage.Dripped? || q.stage.Ambiguous?
  }

  /** Steps left before the answer. */
  function Left(q: Request): (k: nat) {
    match q.stage
    case Arrived => 16
    case Entering => 15
    case Ready => 11
    case Stamped => 10
    case Held => 9
    case Sending => 8
    case Capless => 1
    case Landed => 6
    case Recording => 5
    case Undoing => 2
    case Returning => 1
    case Queued(j) => if j.Recovery? then 14 else 4
    case Locked(j) => if j.Recovery? then 13 else 3
    case Snapped(j, _) => if j.Recovery? then 12 else 2
    case _ => 0
  }

  /** The next step of a request whose writes end as told. */
  function Act(q: Request, id: nat, rpc: Rpc, recover: Write, record: Write): (a: Action) {
    Step(id, rpc, if q.stage.Snapped? && q.stage.job.Recovery? then recover else record)
  }

  /** Nothing keeps the request from its next step. */
  predicate Free(w: World, id: nat) {
    id in w.requests && !Ended(w.requests[id]) && (w.requests[id].stage.Queued? ==> w.writer.None?)
  }

  lemma HandlerFalls(c: Config, w: World, q: Request, rpc: Rpc)
    requires !AtLock(q) && !Ended(q)
    ensures Left(StepHandler(c, w, q, rpc).1) < Left(q)
  {
    hide Check, TakeStep, WithoutLast, Mark, Unmark;
  }

  lemma WriterFalls(c: Config, w: World, id: nat, q: Request, write: Write)
    requires AtLock(q) && w.log != [] && (q.stage.Snapped? ==> q.stage.at < |w.log|)
    requires q.stage.Queued? ==> w.writer.None?
    ensures Left(StepWriter(c, w, id, q, write).1) < Left(q)
  {
  }

  lemma LeftFalls(c: Config, w: World, id: nat, rpc: Rpc, recover: Write, record: Write)
    requires LogOk(w) && Free(w, id)
    ensures var w' := Do(c, w, Act(w.requests[id], id, rpc, recover, record));
      id in w'.requests && Left(w'.requests[id]) < Left(w.requests[id])
  {
    hide LogOk, StepHandler, StepWriter, Left;
    LogHolds(w, id);
    var q := w.requests[id];
    if AtLock(q) {
      WriterFalls(c, w, id, q, Act(q, id, rpc, recover, record).write);
    } else {
      HandlerFalls(c, w, q, rpc);
    }
  }

  /** The request run to its answer. */
  function Finish(c: Config, w: World, id: nat, rpc: Rpc, recover: Write, record: Write): (w': World)
    requires LogOk(w) && id in w.requests
    decreases Left(w.requests[id])
  {
    if Free(w, id) then
      LeftFalls(c, w, id, rpc, recover, record);
      Finish(c, Do(c, w, Act(w.requests[id], id, rpc, recover, record)), id, rpc, recover, record)
    else w
  }

  /** It is a run like any other. */
  lemma {:induction false} FinishIsRun(c: Config, acts: seq<Action>, id: nat, rpc: Rpc, recover: Write, record: Write)
    returns (more: seq<Action>)
    requires id in Exec(c, acts).requests
    ensures Exec(c, acts + more) == Finish(c, Exec(c, acts), id, rpc, recover, record)
    ensures forall a :: a in more ==> a.Step? && a.id == id
    decreases Left(Exec(c, acts).requests[id])
  {
    hide Exec, Do, LogOk;
    var w := Exec(c, acts);
    if Free(w, id) {
      var a := Act(w.requests[id], id, rpc, recover, record);
      LeftFalls(c, w, id, rpc, recover, record);
      ExecDo(c, acts, a);
      var rest := FinishIsRun(c, acts + [a], id, rpc, recover, record);
      more := [a] + rest;
      assert acts + more == acts + [a] + rest;
    } else {
      more := [];
      assert acts + more == acts;
    }
  }

  lemma OneStep(c: Config, w: World, id: nat, rpc: Rpc, recover: Write, record: Write, w': World)
    requires LogOk(w) && Free(w, id) && w' == Do(c, w, Act(w.requests[id], id, rpc, recover, record))
    ensures LogOk(w') && id in w'.requests
    ensures Finish(c, w, id, rpc, recover, record) == Finish(c, w', id, rpc, recover, record)
  {
    hide Do, LogOk;
    LeftFalls(c, w, id, rpc, recover, record);
  }

  /** Away from the writer lock a step is the handler's. */
  lemma ByHandler(c: Config, w: World, id: nat, rpc: Rpc, recover: Write, record: Write)
    requires LogOk(w) && Free(w, id) && !AtLock(w.requests[id])
    ensures var r := StepHandler(c, w, w.requests[id], rpc);
      Do(c, w, Act(w.requests[id], id, rpc, recover, record)) == r.0.(requests := w.requests[id := r.1])
  {
    hide LogOk, StepHandler;
  }

  lemma AtEnd(c: Config, w: World, id: nat, rpc: Rpc, recover: Write, record: Write)
    requires LogOk(w) && id in w.requests && Ended(w.requests[id])
    ensures Finish(c, w, id, rpc, recover, record) == w
  {
  }

  /** Only the request itself, the cooldown state with its log and copy, and the cap have changed. */
  ghost predicate OnlyOwn(w: World, w': World, id: nat) {
    id in w'.requests && w'.requests == w.requests[id := w'.requests[id]] && w'.clock == w.clock && w'.writer.None?
  }

  lemma LogEnds(w: World)
    requires LogOk(w)
    ensures w.log != [] && w.log[|w.log| - 1] == w.mem
  {
  }

  lemma WriterStep(c: Config, w: World, id: nat, rpc: Rpc, recover: Write, record: Write) returns (w': World)
    requires LogOk(w) && Free(w, id) && AtLock(w.requests[id])
    ensures w.log != [] && (w.requests[id].stage.Snapped? ==> w.requests[id].stage.at < |w.log|)
    ensures LogOk(w') && id in w'.requests
    ensures Finish(c, w, id, rpc, recover, record) == Finish(c, w', id, rpc, recover, record)
    ensures var q := w.requests[id];
      var r := StepWriter(c, w, id, q, Act(q, id, rpc, recover, record).write);
      w' == r.0.(requests := w.requests[id := r.1])
  {
    LogHolds(w, id);
    w' := Do(c, w, Act(w.requests[id], id, rpc, recover, record));
    hide LogOk, Finish, StepWriter;
    OneStep(c, w, id, rpc, recover, record, w');
  }

  /** In required mode with the file down, a write is tried first; if it fails the request is refused. */
  lemma Enters(c: Config, w: World, id: nat, rpc: Rpc, recover: Write, record: Write) returns (w': World)
    requires LogOk(w) && id in w.requests && w.requests[id].stage.Arrived? && w.writer.None?
    ensures LogOk(w') && OnlyOwn(w, w', id)
    ensures Finish(c, w, id, rpc, recover, record) == Finish(c, w', id, rpc, recover, record)
    ensures var q, q' := w.requests[id], w'.requests[id];
      var down := c.policy.required && c.policy.file && !w.healthy;
      && w'.mem == w.mem && w'.taken == w.taken && q'.addr == q.addr && q'.ip == q.ip && q'.now == w.clock
      && w'.disk == (if down then Published(w.disk, w.mem, recover) else w.disk)
      && w'.healthy == (w.healthy || (down && recover.Wrote?))
      && if down && !recover.Wrote? then q'.stage.Denied? else q'.stage.Ready?
  {
    hide LogOk, Do, Check, TakeStep, WithoutLast, Mark, Unmark, Finish;
    var w1 := HandlerStep(c, w, id, rpc, recover, record);
    var w2 := HandlerStep(c, w1, id, rpc, recover, record);
    w' := w2;
    if w2.requests[id].stage.Queued? { w' := Recovers(c, w2, id, rpc, recover, record); }
  }

  lemma Recovers(c: Config, w: World, id: nat, rpc: Rpc, recover: Write, record: Write) returns (w': World)
    requires LogOk(w) && id in w.requests && w.requests[id].stage == Queued(Recovery) && w.writer.None? && !w.healthy
    ensures LogOk(w') && OnlyOwn(w, w', id)
    ensures Finish(c, w, id, rpc, recover, record) == Finish(c, w', id, rpc, recover, record)
    ensures var q, q' := w.requests[id], w'.requests[id];
      && w'.mem == w.mem && w'.taken == w.taken && q'.addr == q.addr && q'.ip == q.ip && q'.now == q.now
      && w'.disk == Published(w.disk, w.mem, recover) && w'.healthy == recover.Wrote?
      && if recover.Wrote? then q'.stage.Ready? else q'.stage.Denied?
  {
    hide LogOk, Do, Finish;
    LogEnds(w);
    var w1 := WriterStep(c, w, id, rpc, recover, record);
    var w2 := WriterStep(c, w1, id, rpc, recover, record);
    w' := WriterStep(c, w2, id, rpc, recover, record);
  }

  /** The cooldown is checked and marked, then the cap asked; a full cap undoes the mark. */
  lemma Reserves(c: Config, w: World, id: nat, rpc: Rpc, recover: Write, record: Write) returns (w': World)
    requires LogOk(w) && id in w.requests && w.requests[id].stage.Ready? && w.writer.None?
    requires w.requests[id].now == w.clock
    ensures LogOk(w') && OnlyOwn(w, w', id) && w'.disk == w.disk && w'.healthy == w.healthy
    ensures Finish(c, w, id, rpc, recover, record) == Finish(c, w', id, rpc, recover, record)
    ensures var q, q' := w.requests[id], w'.requests[id];
      && q'.addr == q.addr && q'.ip == q.ip
      && if Check(w.mem, c.policy, q.addr, q.ip, w.clock).Some? then
           q'.stage.Denied? && w'.mem == w.mem && w'.taken == w.taken
         else if c.cap.Some? && |Pruned(w.taken, w.clock, c.cap.value.1)| >= c.cap.value.0 then
           && q'.stage.Denied? && w'.mem == Unmark(Mark(w.mem, q.addr, q.ip, w.clock), q.addr, q.ip)
           && w'.taken == Pruned(w.taken, w.clock, c.cap.value.1)
         else
           && q'.stage.Sending? && w'.mem == Mark(w.mem, q.addr, q.ip, w.clock)
           && q'.slot == (if c.cap.Some? then Some(w.clock) else None)
           && w'.taken == (if c.cap.Some? then Pruned(w.taken, w.clock, c.cap.value.1) + [w.clock] else w.taken)
  {
    hide LogOk, Do, Check, WithoutLast, Mark, Unmark, Finish, Pruned;
    var w1 := HandlerStep(c, w, id, rpc, recover, record);
    var w2 := HandlerStep(c, w1, id, rpc, recover, record);
    w' := w2;
    if w2.requests[id].stage.Held? {
      var w3 := HandlerStep(c, w2, id, rpc, recover, record);
      w' := w3;
      if w3.requests[id].stage.Capless? { w' := HandlerStep(c, w3, id, rpc, recover, record); }
    }
  }

  lemma HandlerStep(c: Config, w: World, id: nat, rpc: Rpc, recover: Write, record: Write) returns (w': World)
    requires LogOk(w) && Free(w, id) && !AtLock(w.requests[id])
    ensures LogOk(w') && id in w'.requests
    ensures Finish(c, w, id, rpc, recover, record) == Finish(c, w', id, rpc, recover, record)
    ensures var r := StepHandler(c, w, w.requests[id], rpc); w' == r.0.(requests := w.requests[id := r.1])
  {
    hide LogOk, Do, Finish, StepHandler;
    w' := Do(c, w, Act(w.requests[id], id, rpc, recover, record));
    OneStep(c, w, id, rpc, recover, record, w');
    ByHandler(c, w, id, rpc, recover, record);
  }

  /** The transaction is sent: recorded and published, undone, or left as it is. */
  lemma Sends(c: Config, w: World, id: nat, rpc: Rpc, recover: Write, record: Write) returns (w': World)
    requires LogOk(w) && id in w.requests && w.requests[id].stage.Sending? && w.writer.None?
    ensures LogOk(w') && OnlyOwn(w, w', id)
    ensures Finish(c, w, id, rpc, recover, record) == Finish(c, w', id, rpc, recover, record)
    ensures var q, q' := w.requests[id], w'.requests[id];
      match rpc
      case Accepted =>
        && q'.stage.Dripped? && w'.mem == Mark(w.mem, q.addr, q.ip, w.clock) && w'.taken == w.taken
        && w'.disk == (if c.policy.file then Published(w.disk, w'.mem, record) else w.disk)
        && w'.healthy == (w.healthy && (c.policy.required && c.policy.file ==> record.Wrote?))
      case NotSent =>
        && q'.stage.Failed? && w'.mem == Unmark(w.mem, q.addr, q.ip)
        && w'.disk == w.disk && w'.healthy == w.healthy
        && w'.taken == (if q.slot.Some? then WithoutLast(w.taken, q.slot.value) else w.taken)
      case Unknown =>
        q'.stage.Ambiguous? && w'.mem == w.mem && w'.taken == w.taken && w'.disk == w.disk && w'.healthy == w.healthy
  {
    hide LogOk, Do, Check, WithoutLast, Mark, Unmark, Finish, Pruned;
    var w1 := HandlerStep(c, w, id, rpc, recover, record);
    w' := w1;
    if rpc.NotSent? {
      var w2 := HandlerStep(c, w1, id, rpc, recover, record);
      w' := HandlerStep(c, w2, id, rpc, recover, record);
    }
    if rpc.Accepted? {
      var w2 := HandlerStep(c, w1, id, rpc, recover, record);
      var w3 := HandlerStep(c, w2, id, rpc, recover, record);
      w' := w3;
      if c.policy.file { w' := Records(c, w3, id, rpc, recover, record); }
    }
  }

  lemma Records(c: Config, w: World, id: nat, rpc: Rpc, recover: Write, record: Write) returns (w': World)
    requires LogOk(w) && id in w.requests && w.requests[id].stage == Queued(Recorder) && w.writer.None?
    ensures LogOk(w') && OnlyOwn(w, w', id)
    ensures Finish(c, w, id, rpc, recover, record) == Finish(c, w', id, rpc, recover, record)
    ensures w'.requests[id].stage.Dripped? && w'.mem == w.mem && w'.taken == w.taken
    ensures w'.disk == Published(w.disk, w.mem, record)
    ensures w'.healthy == (w.healthy && (c.policy.required ==> record.Wrote?))
  {
    hide LogOk, Do, Finish;
    LogEnds(w);
    var w1 := WriterStep(c, w, id, rpc, recover, record);
    var w2 := WriterStep(c, w1, id, rpc, recover, record);
    w' := WriterStep(c, w2, id, rpc, recover, record);
  }

  /** One request with nothing in between: the same answer, cooldown state, disk copy, health and cap as
      `RequestTokens.RequestTokens` promises for one clock reading, and nothing else changed. */
  lemma UndisturbedIsRequest(c: Config, w: World, id: nat, rpc: Rpc, recover: Write, record: Write)
    requires LogOk(w) && id in w.requests && w.requests[id].stage.Arrived? && w.writer.None?
    ensures var q, w' := w.requests[id], Finish(c, w, id, rpc, recover, record);
      var down := c.policy.required && c.policy.file && !w.healthy;
      var marked := Mark(w.mem, q.addr, q.ip, w.clock);
      var pruned := if c.cap.Some? then Pruned(w.taken, w.clock, c.cap.value.1) else w.taken;
      var disk := if down then Published(w.disk, w.mem, recover) else w.disk;
      var healthy := w.healthy || (down && recover.Wrote?);
      && OnlyOwn(w, w', id)
      && if (down && !recover.Wrote?) || Check(w.mem, c.policy, q.addr, q.ip, w.clock).Some? then
           && w'.requests[id].stage.Denied? && w'.mem == w.mem && w'.taken == w.taken
           && w'.disk == disk && w'.healthy == healthy
         else if c.cap.Some? && |pruned| >= c.cap.value.0 then
           && w'.requests[id].stage.Denied? && w'.mem == Unmark(marked, q.addr, q.ip) && w'.taken == pruned
           && w'.disk == disk && w'.healthy == healthy
         else match rpc
           case Accepted =>
             && w'.requests[id].stage.Dripped? && w'.mem == Mark(marked, q.addr, q.ip, w.clock)
             && w'.taken == (if c.cap.Some? then pruned + [w.clock] else w.taken)
             && w'.disk == (if c.policy.file then Published(disk, w'.mem, record) else disk)
             && w'.healthy == (healthy && (c.policy.required && c.policy.file ==> record.Wrote?))
           case NotSent =>
             && w'.requests[id].stage.Failed? && w'.mem == Unmark(marked, q.addr, q.ip) && w'.taken == pruned
             && w'.disk == disk && w'.healthy == healthy
           case Unknown =>
             && w'.requests[id].stage.Ambiguous? && w'.mem == marked
             && w'.taken == (if c.cap.Some? then pruned + [w.clock] else w.taken)
             && w'.disk == disk && w'.healthy == healthy
  {
    hide LogOk, Check, Mark, Unmark, Finish, Pruned, Published;
    var w1 := Enters(c, w, id, rpc, recover, record);
    if w1.requests[id].stage.Denied? {
      AtEnd(c, w1, id, rpc, recover, record);
    } else {
      var w2 := Reserves(c, w1, id, rpc, recover, record);
      if w2.requests[id].stage.Denied? {
        AtEnd(c, w2, id, rpc, recover, record);
      } else {
        var w3 := Sends(c, w2, id, rpc, recover, record);
        AtEnd(c, w3, id, rpc, recover, record);
        var q := w2.requests[id];
        if q.slot.Some? { TakenLast(Pruned(w.taken, w.clock, c.cap.value.1), w.clock); }
      }
    }
  }

  /** A recovery that finds the health restored while it waited writes nothing and goes on. */
  lemma HealthyRecoveryIsIdle(c: Config, w: World, id: nat, rpc: Rpc, write: Write)
    requires LogOk(w) && id in w.requests && w.requests[id].stage == Locked(Recovery) && w.healthy
    ensures var q := w.requests[id];
      Do(c, w, Step(id, rpc, write)) == w.(writer := None, requests := w.requests[id := q.(stage := Ready)])
  {
    hide LogOk;
  }

  lemma TakenLast(p: seq<nat>, now: nat)
    ensures WithoutLast(p + [now], now) == p
  {
    assert (p + [now])[..|p|] == p;
  }
}
