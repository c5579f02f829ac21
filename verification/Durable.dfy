/** Persistence never goes backwards, and in required mode a healthy faucet's disk covers every
    finished drip that is still cooling. */
module Durable {
  import opened Blocks
  import opened GlobalCap
  import opened Cooldowns
  import opened Faucet
  import opened OneDrip

  /** What one step does to a request's own record and to the health flag. */
  lemma RecordEffect(c: Config, w: World, id: nat, q: Request, rpc: Rpc, write: Write)
    requires LogOk(w) && id in w.requests && w.requests[id] == q && c.policy.file && c.policy.required
    ensures var (w', q') := StepRequest(c, w, id, q, rpc, write);
      && (Recorded(q') && !Recorded(q) ==> q'.since == |w.log| && w'.log == w.log + [w'.mem])
      && (Recorded(q) ==> Recorded(q') && q'.since == q.since && q'.guard == q.guard)
      && (q'.stage.Dripped? && !q.stage.Dripped? ==> q.stage.Snapped? && q.stage.job.Recorder?)
      && (w'.healthy ==> w.healthy || (q.stage.Snapped? && q.stage.job.Recovery? && write.Wrote?))
      && (q.stage.Snapped? && q.stage.job.Recorder? && w'.healthy ==> write.Wrote?)
      && (q'.stage.Snapped? ==> q.stage.Locked? && q'.stage.job == q.stage.job && w'.log == w.log)
  {
    hide StepHandler;
    if !AtLock(q) {
      HandlerEffect(c, w, q, rpc);
      HandlerRecords(c, w, q, rpc);
    }
  }

  lemma HandlerRecords(c: Config, w: World, q: Request, rpc: Rpc)
    requires !AtLock(q) && c.policy.file
    ensures var (w', q') := StepHandler(c, w, q, rpc);
      && (Recorded(q') && !Recorded(q) ==> q'.since == |w.log| && w'.log == w.log + [w'.mem])
      && (Recorded(q) ==> q' == q)
      && (q'.stage.Dripped? ==> q.stage.Dripped?)
  {
    hide Check, TakeStep, WithoutLast, Mark, Unmark;
  }

  ghost predicate SinceOk(w: World) {
    forall id :: id in w.requests && Recorded(w.requests[id]) ==> w.requests[id].since < |w.log|
  }

  ghost predicate AllDrippedBy(w: World, at: nat) {
    forall j :: j in w.requests && w.requests[j].stage.Dripped? ==> w.requests[j].since <= at
  }

  /** A snapshot in hand is recent enough for what its holder will conclude from it. */
  ghost predicate SnapshotOk(w: World, q: Request) {
    q.stage.Snapped? ==> if q.stage.job.Recorder? then q.since <= q.stage.at else AllDrippedBy(w, q.stage.at)
  }

  ghost predicate WriteInv(w: World) {
    && SinceOk(w)
    && (forall id :: id in w.requests ==> SnapshotOk(w, w.requests[id]))
    && (w.healthy ==> AllDrippedBy(w, w.diskAt))
  }

  lemma StepWriteInv(c: Config, w: World, id: nat, rpc: Rpc, write: Write)
    requires LogOk(w) && WriteInv(w) && c.policy.file && c.policy.required && id in w.requests
    ensures WriteInv(Next(c, w, Step(id, rpc, write)))
  {
    hide StepRequest, Recorded;
    var q := w.requests[id];
    StepEffect(c, w, id, q, rpc, write);
    RecordEffect(c, w, id, q, rpc, write);
    var w' := Next(c, w, Step(id, rpc, write));
    var q' := w'.requests[id];
    DrippedRecorded(q);
    DrippedRecorded(q');
    assert SnapshotOk(w, q);
    NewSnapshot(w);
    if Writing(q) { assert forall i :: i in w.requests && i != id ==> !w.requests[i].stage.Snapped?; }
    forall i | i in w'.requests ensures SnapshotOk(w', w'.requests[i]) {
      if i != id { assert SnapshotOk(w, w.requests[i]); }
    }
  }

  lemma DrippedRecorded(q: Request)
    ensures q.stage.Dripped? ==> Recorded(q)
    ensures (q.stage.Locked? || q.stage.Snapped?) && q.stage.job.Recorder? ==> Recorded(q)
  {
  }

  lemma NewSnapshot(w: World)
    requires WriteInv(w) && w.log != []
    ensures AllDrippedBy(w, |w.log| - 1)
  {
    hide Recorded;
    forall j | j in w.requests && w.requests[j].stage.Dripped? ensures w.requests[j].since < |w.log| {
      DrippedRecorded(w.requests[j]);
    }
  }

  lemma {:induction false} ExecWriteInv(c: Config, acts: seq<Action>)
    requires c.policy.file && c.policy.required
    ensures WriteInv(Exec(c, acts))
  {
    hide Next, LogOk;
    if acts != [] {
      var w, a := Exec(c, acts[..|acts| - 1]), acts[|acts| - 1];
      ExecWriteInv(c, acts[..|acts| - 1]);
      NextWriteInv(c, w, a);
    }
  }

  lemma NextWriteInv(c: Config, w: World, a: Action)
    requires LogOk(w) && WriteInv(w) && c.policy.file && c.policy.required
    ensures WriteInv(Next(c, w, a))
  {
    if a.Step? && a.id in w.requests { StepWriteInv(c, w, a.id, a.rpc, a.write); }
  }

  /** Every state since a drip was recorded has carried its time, as long as it still cools. */
  ghost predicate Carried(w: World, q: Request, k: Kind) {
    forall m :: q.since <= m < |w.log| ==> q.KeyOf(k) in w.log[m].Last(k) && w.log[m].Last(k)[q.KeyOf(k)] == q.guard
  }

  ghost predicate CoverInv(c: Config, w: World, k: Kind) {
    forall id :: id in w.requests && Recorded(w.requests[id]) && Live(w.clock, c.policy.Window(k), w.requests[id]) ==>
      Carried(w, w.requests[id], k)
  }

  lemma NextCoverInv(c: Config, w: World, a: Action, k: Kind)
    requires LogOk(w) && CoverInv(c, w, k) && c.policy.file && c.policy.required
    requires KindInv(c, Next(c, w, a), k) && LogOk(Next(c, w, a))
    ensures CoverInv(c, Next(c, w, a), k)
  {
    hide StepRequest, Recorded, Live, LogOk, Pruned;
    var w', window := Next(c, w, a), c.policy.Window(k);
    GrowsByMem(c, w, a);
    forall id | id in w'.requests && Recorded(w'.requests[id]) && Live(w'.clock, window, w'.requests[id])
      ensures Carried(w', w'.requests[id], k)
    {
      var q' := w'.requests[id];
      assert Stands(w', q', k);
      OldRecord(c, w, a, id, k);
      if id in w.requests && Recorded(w.requests[id]) { assert Carried(w, w.requests[id], k); }
    }
  }

  /** The log grows by the new state or not at all. */
  lemma GrowsByMem(c: Config, w: World, a: Action)
    requires LogOk(w)
    ensures var w' := Next(c, w, a); w'.log == w.log || w'.log == w.log + [w'.mem]
  {
    hide StepRequest;
    if a.Step? && a.id in w.requests { StepEffect(c, w, a.id, w.requests[a.id], a.rpc, a.write); }
  }

  /** A live recorded request was recorded before with the same time, or is being recorded now. */
  lemma OldRecord(c: Config, w: World, a: Action, id: nat, k: Kind)
    requires LogOk(w) && c.policy.file && c.policy.required
    requires var w' := Next(c, w, a);
      id in w'.requests && Recorded(w'.requests[id]) && Live(w'.clock, c.policy.Window(k), w'.requests[id])
    ensures var w' := Next(c, w, a);
      if id in w.requests && Recorded(w.requests[id])
      then Live(w.clock, c.policy.Window(k), w.requests[id]) && w.requests[id].since == w'.requests[id].since
           && w.requests[id].guard == w'.requests[id].guard && w.requests[id].KeyOf(k) == w'.requests[id].KeyOf(k)
      else w'.requests[id].since == |w.log|
  {
    hide StepRequest;
    if a.Step? && a.id in w.requests {
      StepEffect(c, w, a.id, w.requests[a.id], a.rpc, a.write);
      RecordEffect(c, w, a.id, w.requests[a.id], a.rpc, a.write);
      var e := CooldownEffect(c, w, a.id, w.requests[a.id], a.rpc, a.write);
    }
  }

  lemma {:induction false} ExecCoverInv(c: Config, acts: seq<Action>, k: Kind)
    requires c.policy.file && c.policy.required && TimelyRun(c, acts, k)
    ensures CoverInv(c, Exec(c, acts), k)
  {
    hide Next, LogOk, OneDrip.Timely, KindInv;
    if acts != [] {
      var init := acts[..|acts| - 1];
      assert forall i :: 0 <= i < |init| ==> init[..i] == acts[..i];
      ExecCoverInv(c, init, k);
      ExecKindInv(c, acts, k);
      NextCoverInv(c, Exec(c, init), acts[|acts| - 1], k);
    }
  }

  /** In required mode, whenever the health flag is up, the disk carries the time of every finished drip
      that still cools; so a restart from the disk refuses it until its window ends. */
  lemma DiskCoversDrips(c: Config, acts: seq<Action>, k: Kind, id: nat, addr: Key, ip: Key, t: nat)
    requires c.policy.file && c.policy.required && TimelyRun(c, acts, k)
    requires var w := Exec(c, acts);
      && w.healthy && id in w.requests && w.requests[id].stage.Dripped?
      && w.clock <= t < w.requests[id].guard + c.policy.Window(k)
      && w.requests[id].KeyOf(k) == if k.Address? then addr else ip
    ensures var w := Exec(c, acts);
      && w.requests[id].KeyOf(k) in w.disk.Last(k)
      && w.disk.Last(k)[w.requests[id].KeyOf(k)] == w.requests[id].guard
      && Check(w.disk, c.policy, addr, ip, t).Some?
  {
    hide Exec, Check, TimelyRun, KindInv;
    ExecCoverInv(c, acts, k);
    ExecWriteInv(c, acts);
    ExecKindInv(c, acts, k);
    var w := Exec(c, acts);
    var q := w.requests[id];
    AllTimes(c, w, id, k);
    HolderTime(w.clock, q);
    assert Carried(w, q, k);
    assert Cooling(w.disk.Last(k), c.policy.Window(k), q.KeyOf(k), t);
  }

  // Across restarts: each life of the process loads the file the one before it left behind.

  datatype Life = Life(c: Config, acts: seq<Action>)

  ghost function End(l: Life): (w: World) { Exec(l.c, l.acts) }

  ghost predicate LifeOk(l: Life, window: nat, k: Kind) {
    l.c.policy.file && l.c.policy.required && l.c.policy.Window(k) == window && TimelyRun(l.c, l.acts, k)
  }

  /** A restart at any later time, from whatever the disk holds. */
  ghost predicate Restarts(l: Life, next: Life) {
    next.c.loaded == End(l).disk && End(l).clock <= next.c.start
  }

  ghost predicate Lives(lives: seq<Life>, window: nat, k: Kind) {
    && (forall i :: 0 <= i < |lives| ==> LifeOk(lives[i], window, k))
    && (forall i :: 0 < i < |lives| ==> Restarts(lives[i - 1], lives[i]))
  }

  /** Every state since the start has carried the loaded entry, as long as it still cools. */
  ghost predicate ElderCarried(c: Config, w: World, k: Kind, key: Key)
    requires key in c.loaded.Last(k)
  {
    forall m :: 0 <= m < |w.log| ==> key in w.log[m].Last(k) && w.log[m].Last(k)[key] == c.loaded.Last(k)[key]
  }

  lemma {:induction false} LoadedStays(c: Config, acts: seq<Action>, k: Kind, key: Key)
    requires TimelyRun(c, acts, k) && key in c.loaded.Last(k)
    requires Exec(c, acts).clock < c.loaded.Last(k)[key] + c.policy.Window(k) && c.policy.Window(k) > 0
    ensures ElderCarried(c, Exec(c, acts), k, key)
  {
    hide Next, LogOk, OneDrip.Timely, KindInv;
    if acts == [] {
    } else {
      var init, a := acts[..|acts| - 1], acts[|acts| - 1];
      assert forall i :: 0 <= i < |init| ==> init[..i] == acts[..i];
      NextLogOk(c, Exec(c, init), a);
      LoadedStays(c, init, k, key);
      GrowsByMem(c, Exec(c, init), a);
      ExecKindInv(c, acts, k);
      ElderStands(c, Exec(c, acts), k, key);
    }
  }

  lemma ElderStands(c: Config, w: World, k: Kind, key: Key)
    requires KindInv(c, w, k) && key in c.loaded.Last(k) && c.policy.Window(k) > 0
    requires w.clock < c.loaded.Last(k)[key] + c.policy.Window(k)
    ensures FromFile(c, w, k, key)
  {
  }

  /** The window of the time `t` under `key` is over, or the process loaded that entry. */
  ghost predicate OverOrLoaded(l: Life, window: nat, k: Kind, key: Key, t: nat) {
    l.c.start >= t + window || (key in l.c.loaded.Last(k) && l.c.loaded.Last(k)[key] == t)
  }

  ghost predicate OverOrOnDisk(l: Life, window: nat, k: Kind, key: Key, t: nat) {
    End(l).clock >= t + window || (key in End(l).disk.Last(k) && End(l).disk.Last(k)[key] == t)
  }

  /** A life that loads an entry hands it on for as long as it cools, whether healthy or not. */
  lemma HandsOn(l: Life, window: nat, k: Kind, key: Key, t: nat)
    requires LifeOk(l, window, k) && OverOrLoaded(l, window, k, key, t) && t <= l.c.start
    ensures OverOrOnDisk(l, window, k, key, t) && t <= End(l).clock
  {
    hide Exec, TimelyRun, KindInv, LogOk;
    ExecKindInv(l.c, l.acts, k);
    StartedBefore(l.c, End(l), k);
    DiskIsLogged(End(l));
    if End(l).clock < t + window { LoadedStays(l.c, l.acts, k, key); }
  }

  lemma StartedBefore(c: Config, w: World, k: Kind)
    requires KindInv(c, w, k)
    ensures c.start <= w.clock
  {
  }

  lemma DiskIsLogged(w: World)
    requires LogOk(w)
    ensures w.diskAt < |w.log| && w.disk == w.log[w.diskAt]
  {
  }

  /** A life that finishes a drip and ends healthy leaves it on the disk for as long as it cools. */
  lemma LeavesOnDisk(l: Life, window: nat, k: Kind, id: nat)
    requires LifeOk(l, window, k) && End(l).healthy && id in End(l).requests && End(l).requests[id].stage.Dripped?
    ensures var q := End(l).requests[id];
      && OverOrOnDisk(l, window, k, q.KeyOf(k), q.guard)
      && q.guard <= End(l).clock && q.claim <= q.guard
  {
    hide Exec, TimelyRun, KindInv, LogOk, Check;
    var w := End(l);
    ExecKindInv(l.c, l.acts, k);
    AllTimes(l.c, w, id, k);
    HolderTime(w.clock, w.requests[id]);
    LeftBehind(w.clock, w.requests[id]);
    if w.clock < w.requests[id].guard + window {
      DiskCoversDrips(l.c, l.acts, k, id, w.requests[id].addr, w.requests[id].ip, w.clock);
    }
  }

  lemma {:induction false} StillGuarded(lives: seq<Life>, window: nat, k: Kind, a: nat, b: nat, key: Key, t: nat)
    requires Lives(lives, window, k) && a < b < |lives|
    requires OverOrOnDisk(lives[a], window, k, key, t) && t <= End(lives[a]).clock
    ensures OverOrLoaded(lives[b], window, k, key, t) && t <= lives[b].c.start
    decreases b
  {
    hide Exec, LifeOk, OneDrip.TimelyRun;
    assert Restarts(lives[b - 1], lives[b]);
    if a < b - 1 {
      StillGuarded(lives, window, k, a, b - 1, key, t);
      HandsOn(lives[b - 1], window, k, key, t);
    }
  }

  /** One drip per window, across any number of restarts at any moments: in required mode, when the life
      that finished a drip ended healthy, every reservation of its address (or IP) in any later life is
      made at least a window after the drip was recorded. */
  lemma OneDripAcrossRestarts(lives: seq<Life>, window: nat, k: Kind, a: nat, b: nat, i: nat, j: nat)
    requires Lives(lives, window, k) && a < b < |lives| && End(lives[a]).healthy
    requires i in End(lives[a]).requests && End(lives[a]).requests[i].stage.Dripped?
    requires j in End(lives[b]).requests && Holder(End(lives[b]).requests[j])
    requires End(lives[a]).requests[i].KeyOf(k) == End(lives[b]).requests[j].KeyOf(k)
    ensures var p, q := End(lives[a]).requests[i], End(lives[b]).requests[j];
      q.claim >= p.guard + window && q.claim >= p.claim + window
  {
    hide Exec, OneDrip.TimelyRun, KindInv, Holder;
    var p, q := End(lives[a]).requests[i], End(lives[b]).requests[j];
    assert LifeOk(lives[a], window, k) && LifeOk(lives[b], window, k);
    LeavesOnDisk(lives[a], window, k, i);
    StillGuarded(lives, window, k, a, b, p.KeyOf(k), p.guard);
    ExecKindInv(lives[b].c, lives[b].acts, k);
    ElderSpaces(lives[b].c, End(lives[b]), k, j);
  }

  lemma ElderSpaces(c: Config, w: World, k: Kind, id: nat)
    requires KindInv(c, w, k) && id in w.requests && Holder(w.requests[id])
    ensures var q, window := w.requests[id], c.policy.Window(k);
      && q.claim >= c.start
      && (window > 0 && q.KeyOf(k) in c.loaded.Last(k) ==> q.claim >= c.loaded.Last(k)[q.KeyOf(k)] + window)
  {
  }

  /** A drip must be finished for that: one that ended unclear reserved its keys in memory only, and a
      restart can grant the same address at once. */
  lemma UnclearDripIsForgotten(c: Config, k: Kind, t: nat) returns (acts: seq<Action>)
    requires c.cap.None? && c.loaded == EMPTY
    ensures var w := Exec(c, acts);
      && TimelyRun(c, acts, k) && w.healthy && 1 in w.requests && MayHaveDripped(w.requests[1])
      && Check(w.disk, c.policy, w.requests[1].addr, w.requests[1].ip, t).None?
  {
    hide Exec, LogOk, OneDrip.TimelyRun;
    acts := Unclear(1, 0);
    StartExec(c);
    RunUnclear(c, [], 1, 0);
    assert [] + acts == acts;
    SuchRunsAreTimely(c, acts, k);
  }

  /** The disk always holds some state the cooldowns were in, and later writes publish later states. */
  lemma {:induction false} DiskNeverGoesBack(c: Config, acts: seq<Action>, more: seq<Action>)
    ensures var w, w' := Exec(c, acts), Exec(c, acts + more);
      && w.disk == w.log[w.diskAt] && w'.disk == w'.log[w'.diskAt]
      && w.log <= w'.log && w.diskAt <= w'.diskAt
  {
    hide Next;
    if more == [] {
      assert acts + more == acts;
    } else {
      var init := more[..|more| - 1];
      DiskNeverGoesBack(c, acts, init);
      assert (acts + more)[..|acts + more| - 1] == acts + init;
      NextLogOk(c, Exec(c, acts + init), more[|more| - 1]);
    }
  }
}
