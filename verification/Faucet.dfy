/** `request_tokens` under concurrency: every request is a thread of atomic steps on the shared
    cooldown state, its disk copy and the hourly cap, under a clock that never runs backwards. */
module Faucet {
  import opened Blocks
  import opened GlobalCap
  import opened Cooldowns

  /** The settings, and what the process finds when it starts: the time and the cooldown file's contents. */
  datatype Config = Config(policy: Policy, cap: Option<(nat, nat)>, start: nat, loaded: State)

  /** Why a thread holds or wants the writer lock. */
  datatype Job = Recovery | Recorder

  datatype Stage =
    | Arrived
    | Entering
    | Queued(job: Job)
    | Locked(job: Job)
    | Snapped(job: Job, at: nat)
    | Ready
    | Stamped
    | Held
    | Capless
    | Sending
    | Landed
    | Recording
    | Undoing
    | Returning
    | Denied
    | Failed
    | Dripped
    | Ambiguous

  /** `now`: read for the cap. `stamp`: read for the reservation, before its lock. `claim`: the clock
      when the reservation was made, and `turn`: the log entry it made. `guard`: the time now standing in
      the cooldown state for this request (its stamp, later its record time `mark`). `since`: the log
      entry its record made. */
  datatype Request = Request(
    addr: Key, ip: Key, now: nat, stamp: nat, claim: nat, turn: nat, guard: nat, mark: nat,
    slot: Option<nat>, since: nat, stage: Stage)
  {
    function KeyOf(k: Kind): (key: Key) { if k.Address? then addr else ip }
  }

  /** `log` is every state the cooldowns have been in; the disk holds entry `diskAt` of it. */
  datatype World = World(
    clock: nat, mem: State, log: seq<State>, disk: State, diskAt: nat, writer: Option<nat>, healthy: bool,
    taken: seq<nat>, requests: map<nat, Request>)

  datatype Rpc = Accepted | NotSent | Unknown

  datatype Action =
    | Arrive(id: nat, addr: Key, ip: Key)
    | Tick(seconds: nat)
    | Status
    | Step(id: nat, rpc: Rpc, write: Write)

  function SetMem(w: World, m: State): (w': World) { w.(mem := m, log := w.log + [m]) }

  /** The stages that wait for or hold the writer lock. */
  predicate AtLock(q: Request) { q.stage.Queued? || q.stage.Locked? || q.stage.Snapped? }

  /** The request's new stage and the world around it. */
  function StepRequest(c: Config, w: World, id: nat, q: Request, rpc: Rpc, write: Write): (r: (World, Request))
    requires w.log != [] && (q.stage.Snapped? ==> q.stage.at < |w.log|)
  {
    if AtLock(q) then StepWriter(c, w, id, q, write) else StepHandler(c, w, q, rpc)
  }

  function StepWriter(c: Config, w: World, id: nat, q: Request, write: Write): (r: (World, Request))
    requires AtLock(q) && w.log != [] && (q.stage.Snapped? ==> q.stage.at < |w.log|)
  {
    match q.stage
    case Queued(j) => if w.writer.None? then (w.(writer := Some(id)), q.(stage := Locked(j))) else (w, q)
    case Locked(j) =>
      if j.Recovery? && w.healthy then (w.(writer := None), q.(stage := Ready))
      else (w, q.(stage := Snapped(j, |w.log| - 1)))
    case Snapped(j, at) => FinishWrite(c, w, q, j, at, write)
  }

  function StepHandler(c: Config, w: World, q: Request, rpc: Rpc): (r: (World, Request)) {
    match q.stage
    case Arrived => (w, q.(now := w.clock, stage := Entering))
    case Entering =>
      (w, q.(stage := if c.policy.required && c.policy.file && !w.healthy then Queued(Recovery) else Ready))
    case Ready => (w, q.(stamp := w.clock, stage := Stamped))
    case Stamped =>
      if Check(w.mem, c.policy, q.addr, q.ip, q.stamp).None? then
        (SetMem(w, Mark(w.mem, q.addr, q.ip, q.stamp)),
         q.(claim := w.clock, turn := |w.log|, guard := q.stamp, stage := Held))
      else (w, q.(stage := Denied))
    case Held => TakeSlot(c, w, q)
    case Capless => (SetMem(w, Unmark(w.mem, q.addr, q.ip)), q.(stage := Denied))
    case Sending =>
      (w, q.(stage := match rpc case Accepted => Landed case NotSent => Undoing case Unknown => Ambiguous))
    case Landed => (w, q.(mark := w.clock, stage := Recording))
    case Recording =>
      (SetMem(w, Mark(w.mem, q.addr, q.ip, q.mark)),
       q.(guard := q.mark, since := |w.log|, stage := if c.policy.file then Queued(Recorder) else Dripped))
    case Undoing => (SetMem(w, Unmark(w.mem, q.addr, q.ip)), q.(stage := Returning))
    case Returning => (ReturnSlot(w, q), q.(stage := Failed))
    case _ => (w, q)
  }

  function FinishWrite(c: Config, w: World, q: Request, j: Job, at: nat, write: Write): (r: (World, Request))
    requires at < |w.log|
  {
    var w' := w.(disk := Published(w.disk, w.log[at], write),
                 diskAt := if write.FailedBefore? then w.diskAt else at, writer := None);
    match j
    case Recovery =>
      if write.Wrote? then (w'.(healthy := true), q.(stage := Ready)) else (w', q.(stage := Denied))
    case Recorder => (w'.(healthy := w.healthy && (write.Wrote? || !c.policy.required)), q.(stage := Dripped))
  }

  function TakeSlot(c: Config, w: World, q: Request): (r: (World, Request)) {
    match c.cap
    case None => (w, q.(slot := None, stage := Sending))
    case Some(cap) =>
      var t := TakeStep(cap.0, cap.1, w.taken, q.now);
      (w.(taken := t.0), if t.1.Granted? then q.(slot := Some(q.now), stage := Sending) else q.(stage := Capless))
  }

  function ReturnSlot(w: World, q: Request): (w': World) {
    if q.slot.Some? then w.(taken := WithoutLast(w.taken, q.slot.value)) else w
  }

  function NewRequest(addr: Key, ip: Key): (q: Request) {
    Request(addr, ip, 0, 0, 0, 0, 0, 0, None, 0, Arrived)
  }

  function Next(c: Config, w: World, a: Action): (w': World)
    requires LogOk(w)
  {
    match a
    case Arrive(id, addr, ip) => if id in w.requests then w else w.(requests := w.requests[id := NewRequest(addr, ip)])
    case Tick(n) => w.(clock := w.clock + n)
    case Status => if c.cap.None? then w else w.(taken := Pruned(w.taken, w.clock, c.cap.value.1))
    case Step(id, rpc, write) =>
      if id !in w.requests then w
      else
        var r := StepRequest(c, w, id, w.requests[id], rpc, write);
        r.0.(requests := w.requests[id := r.1])
  }

  /** The log ends in the present state, the disk holds one of its entries, and a snapshot in hand is
      an entry no older than the disk's. */
  ghost predicate LogOk(w: World) {
    && w.log != [] && w.log[|w.log| - 1] == w.mem
    && w.diskAt < |w.log| && w.disk == w.log[w.diskAt]
    && (forall id :: id in w.requests && w.requests[id].stage.Snapped? ==>
          w.diskAt <= w.requests[id].stage.at < |w.log|)
    && (forall id :: id in w.requests && Writing(w.requests[id]) ==> w.writer == Some(id))
  }

  predicate Writing(q: Request) { q.stage.Snapped? || q.stage.Locked? }

  /** What one step does to the log, the disk and the writer lock. */
  lemma StepEffect(c: Config, w: World, id: nat, q: Request, rpc: Rpc, write: Write)
    requires LogOk(w) && id in w.requests && w.requests[id] == q
    ensures var (w', q') := StepRequest(c, w, id, q, rpc, write);
      && w'.clock == w.clock
      && ((w'.log == w.log && w'.mem == w.mem) || w'.log == w.log + [w'.mem])
      && w'.writer == (if Writing(q') then Some(id) else if Writing(q) then None else w.writer)
      && (Writing(q') && !Writing(q) ==> w.writer.None?)
      && (q'.stage.Snapped? ==> q'.stage.at == |w'.log| - 1)
      && (if q.stage.Snapped? && !write.FailedBefore? then w'.diskAt == q.stage.at else w'.diskAt == w.diskAt)
      && (w'.diskAt < |w.log| ==> w'.disk == w.log[w'.diskAt])
  {
    hide StepHandler;
    if !AtLock(q) { HandlerEffect(c, w, q, rpc); }
  }

  /** At the writer lock a step touches neither memory nor cap, and a recorder ends dripped. */
  lemma WriterEffect(c: Config, w: World, id: nat, q: Request, write: Write)
    requires AtLock(q) && w.log != [] && (q.stage.Snapped? ==> q.stage.at < |w.log|)
    ensures var (w', q') := StepWriter(c, w, id, q, write);
      && w'.mem == w.mem && w'.log == w.log && w'.taken == w.taken && w'.clock == w.clock
      && q' == q.(stage := q'.stage)
      && (q.stage.job.Recorder? ==> (AtLock(q') && q'.stage.job.Recorder?) || q'.stage.Dripped?)
      && (q.stage.job.Recovery? ==> (AtLock(q') && q'.stage.job.Recovery?) || q'.stage.Ready? || q'.stage.Denied?)
  {
  }

  /** Outside the writer lock a step changes at most the memory, and logs what it changes. */
  lemma HandlerEffect(c: Config, w: World, q: Request, rpc: Rpc)
    requires !AtLock(q)
    ensures var (w', q') := StepHandler(c, w, q, rpc);
      && w'.clock == w.clock && w'.writer == w.writer && w'.diskAt == w.diskAt && w'.disk == w.disk
      && w'.healthy == w.healthy && !Writing(q')
      && ((w'.log == w.log && w'.mem == w.mem) || w'.log == w.log + [w'.mem])
  {
    hide Check, TakeStep, WithoutLast, Mark, Unmark;
  }

  lemma NextLogOk(c: Config, w: World, a: Action)
    requires LogOk(w)
    ensures LogOk(Next(c, w, a))
    ensures w.diskAt <= Next(c, w, a).diskAt && w.log <= Next(c, w, a).log && w.clock <= Next(c, w, a).clock
  {
    hide StepRequest, Pruned;
    match a
    case Step(id, rpc, write) => if id in w.requests { StepEffect(c, w, id, w.requests[id], rpc, write); }
    case _ =>
  }

  function Start(c: Config): (w: World)
    ensures LogOk(w)
  {
    World(c.start, c.loaded, [c.loaded], c.loaded, 0, None, true, [], map[])
  }

  ghost function Exec(c: Config, acts: seq<Action>): (w: World)
    ensures LogOk(w)
  {
    if acts == [] then Start(c)
    else
      var w := Exec(c, acts[..|acts| - 1]);
      NextLogOk(c, w, acts[|acts| - 1]);
      Next(c, w, acts[|acts| - 1])
  }
}
