/** The hourly cap under concurrency: its unexpired slots are exactly the unexpired slots of the
    requests that took one and have not given it back. */
module Slots {
  import opened Blocks
  import opened GlobalCap
  import opened Cooldowns
  import opened Faucet

  predicate SlotHeld(q: Request) {
    && q.slot.Some?
    && match q.stage
       case Sending => true
       case Landed => true
       case Recording => true
       case Queued(j) => j.Recorder?
       case Locked(j) => j.Recorder?
       case Snapped(j, _) => j.Recorder?
       case Undoing => true
       case Returning => true
       case Dripped => true
       case Ambiguous => true
       case _ => false
  }

  function SlotsAt(w: World, t: nat): (s: set<nat>) {
    set id | id in w.requests && SlotHeld(w.requests[id]) && w.requests[id].slot == Some(t)
  }

  ghost predicate NowSet(clock: nat, q: Request) { q.stage.Arrived? || q.now <= clock }

  ghost predicate SlotInv(w: World, window: nat) {
    && (forall id :: id in w.requests ==> NowSet(w.clock, w.requests[id]))
    && (forall t: nat :: Elapsed(w.clock, t) < window ==> multiset(w.taken)[t] == |SlotsAt(w, t)|)
  }

  datatype Effect = Same | Pruning | Took | Gave

  ghost predicate Does(window: nat, taken: seq<nat>, q: Request, taken': seq<nat>, q': Request, e: Effect) {
    match e
    case Same => taken' == taken && SlotHeld(q') == SlotHeld(q) && (SlotHeld(q) ==> q'.slot == q.slot)
    case Pruning => taken' == Pruned(taken, q.now, window) && q.stage.Held? && !SlotHeld(q) && !SlotHeld(q')
    case Took =>
      && taken' == Pruned(taken, q.now, window) + [q.now] && q.stage.Held? && q'.stage.Sending?
      && !SlotHeld(q) && SlotHeld(q') && q'.slot == Some(q.now)
    case Gave => q.slot.Some? && SlotHeld(q) && !SlotHeld(q') && taken' == WithoutLast(taken, q.slot.value)
  }

  lemma SlotEffect(c: Config, w: World, id: nat, q: Request, rpc: Rpc, write: Write) returns (e: Effect)
    requires LogOk(w) && id in w.requests && w.requests[id] == q && c.cap.Some?
    ensures var (w', q') := StepRequest(c, w, id, q, rpc, write);
      Does(c.cap.value.1, w.taken, q, w'.taken, q', e) && (NowSet(w.clock, q) ==> NowSet(w.clock, q'))
  {
    hide StepWriter, StepHandler, Does;
    if AtLock(q) {
      e := Same;
      WriterHolds(c, w, id, q, write);
    } else {
      e := HandlerHolds(c, w, q, rpc);
    }
  }

  lemma WriterHolds(c: Config, w: World, id: nat, q: Request, write: Write)
    requires AtLock(q) && w.log != [] && (q.stage.Snapped? ==> q.stage.at < |w.log|) && c.cap.Some?
    ensures var (w', q') := StepWriter(c, w, id, q, write);
      Does(c.cap.value.1, w.taken, q, w'.taken, q', Same) && (NowSet(w.clock, q) ==> NowSet(w.clock, q'))
  {
    hide StepWriter;
    WriterEffect(c, w, id, q, write);
  }

  lemma HandlerHolds(c: Config, w: World, q: Request, rpc: Rpc) returns (e: Effect)
    requires !AtLock(q) && c.cap.Some?
    ensures var (w', q') := StepHandler(c, w, q, rpc);
      Does(c.cap.value.1, w.taken, q, w'.taken, q', e) && (NowSet(w.clock, q) ==> NowSet(w.clock, q'))
  {
    hide Check, Pruned, WithoutLast, Mark, Unmark;
    var (w', q') := StepHandler(c, w, q, rpc);
    e := if q.stage.Held? then (if q'.stage.Sending? then Took else Pruning)
         else if q.stage.Returning? && q.slot.Some? then Gave else Same;
  }

  lemma {:induction false} PruneKeepsUnexpired(q: seq<nat>, now: nat, clock: nat, window: nat, t: nat)
    requires now <= clock && Elapsed(clock, t) < window
    ensures multiset(Pruned(q, now, window))[t] == multiset(q)[t]
  {
    if q != [] && Elapsed(now, q[0]) >= window {
      PruneKeepsUnexpired(q[1..], now, clock, window, t);
      assert q == [q[0]] + q[1..];
    }
  }

  lemma SlotsChange(w: World, w': World, id: nat, q': Request, t: nat)
    requires id in w.requests && w'.requests == w.requests[id := q']
    ensures SlotsAt(w', t) ==
      if SlotHeld(q') && q'.slot == Some(t) then SlotsAt(w, t) + {id} else SlotsAt(w, t) - {id}
  {
    hide SlotHeld;
  }

  lemma StepSlotInv(c: Config, w: World, id: nat, rpc: Rpc, write: Write)
    requires LogOk(w) && c.cap.Some? && SlotInv(w, c.cap.value.1) && id in w.requests
    ensures SlotInv(Next(c, w, Step(id, rpc, write)), c.cap.value.1)
  {
    hide StepRequest, SlotHeld, SlotsAt, Pruned, WithoutLast;
    var q, window := w.requests[id], c.cap.value.1;
    var w' := Next(c, w, Step(id, rpc, write));
    var q' := w'.requests[id];
    StepEffect(c, w, id, q, rpc, write);
    var e := SlotEffect(c, w, id, q, rpc, write);
    forall t: nat | Elapsed(w'.clock, t) < window ensures multiset(w'.taken)[t] == |SlotsAt(w', t)| {
      SlotsChange(w, w', id, q', t);
      InSlots(w, id, t);
      assert multiset(w.taken)[t] == |SlotsAt(w, t)|;
      if e.Pruning? || e.Took? { PruneKeepsUnexpired(w.taken, q.now, w.clock, window, t); }
      if e.Gave? { WithoutLastMeans(w.taken, q.slot.value); }
      if SlotHeld(q') && q'.slot == Some(t) { Grow(SlotsAt(w, t), id); } else { Shrink(SlotsAt(w, t), id); }
    }
  }

  lemma InSlots(w: World, id: nat, t: nat)
    requires id in w.requests
    ensures id in SlotsAt(w, t) <==> SlotHeld(w.requests[id]) && w.requests[id].slot == Some(t)
  {
  }

  lemma Grow(s: set<nat>, x: nat)
    ensures |s + {x}| == if x in s then |s| else |s| + 1
  {
    if x in s { assert s + {x} == s; }
  }

  lemma Shrink(s: set<nat>, x: nat)
    ensures |s - {x}| == if x in s then |s| - 1 else |s|
  {
    if x !in s { assert s - {x} == s; }
  }

  lemma NextSlotInv(c: Config, w: World, a: Action)
    requires LogOk(w) && c.cap.Some? && SlotInv(w, c.cap.value.1)
    ensures SlotInv(Next(c, w, a), c.cap.value.1)
  {
    hide StepRequest, Pruned;
    var w', window := Next(c, w, a), c.cap.value.1;
    match a
    case Step(id, rpc, write) => if id in w.requests { StepSlotInv(c, w, id, rpc, write); }
    case Status =>
      forall t: nat | Elapsed(w'.clock, t) < window ensures multiset(w'.taken)[t] == |SlotsAt(w', t)| {
        PruneKeepsUnexpired(w.taken, w.clock, w.clock, window, t);
        assert SlotsAt(w', t) == SlotsAt(w, t);
      }
    case Arrive(id, addr, ip) =>
      forall t: nat | Elapsed(w'.clock, t) < window ensures multiset(w'.taken)[t] == |SlotsAt(w', t)| {
        assert SlotsAt(w', t) == SlotsAt(w, t);
      }
    case Tick(n) =>
      forall t: nat | Elapsed(w'.clock, t) < window ensures multiset(w'.taken)[t] == |SlotsAt(w', t)| {
        assert SlotsAt(w', t) == SlotsAt(w, t);
      }
  }

  lemma {:induction false} ExecSlotInv(c: Config, acts: seq<Action>)
    requires c.cap.Some?
    ensures SlotInv(Exec(c, acts), c.cap.value.1)
  {
    hide Next, LogOk, SlotInv;
    if acts == [] {
      StartSlotInv(c);
    } else {
      ExecSlotInv(c, acts[..|acts| - 1]);
      NextSlotInv(c, Exec(c, acts[..|acts| - 1]), acts[|acts| - 1]);
    }
  }

  lemma StartSlotInv(c: Config)
    requires c.cap.Some?
    ensures SlotInv(Start(c), c.cap.value.1)
  {
    forall t: nat ensures |SlotsAt(Start(c), t)| == 0 { assert SlotsAt(Start(c), t) == {}; }
  }

  predicate Finished(q: Request) {
    q.stage.Denied? || q.stage.Failed? || q.stage.Dripped? || q.stage.Ambiguous?
  }

  /** The drips whose slot has not expired. */
  function FreshDrips(w: World, window: nat): (m: map<nat, nat>) {
    map id | id in w.requests && (w.requests[id].stage.Dripped? || w.requests[id].stage.Ambiguous?)
             && w.requests[id].slot.Some? && Elapsed(w.clock, w.requests[id].slot.value) < window
      :: w.requests[id].slot.value
  }

  function LabelSet(m: map<nat, nat>, t: nat): (s: set<nat>) { set id | id in m && m[id] == t }

  lemma LabelsCover(m: map<nat, nat>)
    ensures forall id :: id in m ==> id in LabelSet(m, m[id])
  {
  }

  lemma {:induction false} CountMatches(q: seq<nat>, m: map<nat, nat>)
    requires forall t: nat :: multiset(q)[t] == |LabelSet(m, t)|
    ensures |q| == |m|
  {
    if q == [] {
      forall t: nat ensures LabelSet(m, t) == {} { assert multiset(q)[t] == |LabelSet(m, t)|; }
      LabelsCover(m);
      assert m == map[];
    } else {
      var init: seq<nat>, x: nat := q[..|q| - 1], q[|q| - 1];
      assert q == init + [x];
      assert |LabelSet(m, x)| > 0;
      var id :| id in LabelSet(m, x);
      var m' := m - {id};
      forall t: nat ensures multiset(init)[t] == |LabelSet(m', t)| {
        assert multiset(q)[t] == |LabelSet(m, t)|;
        if t == x {
          assert LabelSet(m', t) == LabelSet(m, t) - {id};
        } else {
          assert LabelSet(m', t) == LabelSet(m, t);
        }
      }
      CountMatches(init, m');
      assert m.Keys == m'.Keys + {id};
    }
  }

  lemma {:induction false} RecentCounts(q: seq<nat>, now: nat, window: nat, t: nat)
    ensures multiset(Recent(q, now, window))[t] == if Elapsed(now, t) < window then multiset(q)[t] else 0
  {
    if q != [] {
      RecentCounts(q[..|q| - 1], now, window, t);
      assert q == q[..|q| - 1] + [q[|q| - 1]];
    }
  }

  /** Conservation: whenever no request is in flight, in any interleaving, the unexpired cap slots are
      as many as the unexpired successful and ambiguous drips. */
  lemma SlotsAreDrips(c: Config, acts: seq<Action>)
    requires c.cap.Some?
    requires forall id :: id in Exec(c, acts).requests ==> Finished(Exec(c, acts).requests[id])
    ensures var w := Exec(c, acts); |Recent(w.taken, w.clock, c.cap.value.1)| == |FreshDrips(w, c.cap.value.1)|
  {
    hide Exec, Recent;
    ExecSlotInv(c, acts);
    var w, window := Exec(c, acts), c.cap.value.1;
    var m := FreshDrips(w, window);
    forall t: nat ensures multiset(Recent(w.taken, w.clock, window))[t] == |LabelSet(m, t)| {
      RecentCounts(w.taken, w.clock, window, t);
      if Elapsed(w.clock, t) < window {
        assert LabelSet(m, t) == SlotsAt(w, t) by { QuietSlots(w, window, t); }
      } else {
        assert LabelSet(m, t) == {};
      }
    }
    CountMatches(Recent(w.taken, w.clock, window), m);
  }

  lemma QuietSlots(w: World, window: nat, t: nat)
    requires (forall id :: id in w.requests ==> Finished(w.requests[id])) && Elapsed(w.clock, t) < window
    ensures LabelSet(FreshDrips(w, window), t) == SlotsAt(w, t)
  {
    forall id ensures id in LabelSet(FreshDrips(w, window), t) <==> id in SlotsAt(w, t) {
      if id in w.requests { assert Finished(w.requests[id]); }
    }
  }

  lemma {:induction false} PrunedShorter(q: seq<nat>, now: nat, window: nat)
    ensures |Pruned(q, now, window)| <= |q|
  {
    if q != [] && Elapsed(now, q[0]) >= window { PrunedShorter(q[1..], now, window); }
  }

  lemma {:induction false} WithoutLastShorter(q: seq<nat>, x: nat)
    ensures |WithoutLast(q, x)| <= |q|
  {
    if q != [] && q[|q| - 1] != x { WithoutLastShorter(q[..|q| - 1], x); }
  }

  lemma {:induction false} RecentShorter(q: seq<nat>, now: nat, window: nat)
    ensures |Recent(q, now, window)| <= |q|
  {
    if q != [] { RecentShorter(q[..|q| - 1], now, window); }
  }

  /** The queue never grows past the maximum, whatever order the clock readings arrive in. */
  lemma NextBounded(c: Config, w: World, a: Action)
    requires LogOk(w) && c.cap.Some? && |w.taken| <= c.cap.value.0
    ensures |Next(c, w, a).taken| <= c.cap.value.0
  {
    hide StepRequest, Pruned, WithoutLast;
    match a
    case Step(id, rpc, write) =>
      if id in w.requests {
        var q := w.requests[id];
        var e := SlotEffect(c, w, id, q, rpc, write);
        PrunedShorter(w.taken, q.now, c.cap.value.1);
        if q.slot.Some? { WithoutLastShorter(w.taken, q.slot.value); }
        if e.Took? { TookHadRoom(c, w, id, q, rpc, write); }
      }
    case Status => PrunedShorter(w.taken, w.clock, c.cap.value.1);
    case _ =>
  }

  lemma TookHadRoom(c: Config, w: World, id: nat, q: Request, rpc: Rpc, write: Write)
    requires LogOk(w) && id in w.requests && w.requests[id] == q && c.cap.Some? && q.stage.Held?
    requires StepRequest(c, w, id, q, rpc, write).1.stage.Sending?
    ensures |Pruned(w.taken, q.now, c.cap.value.1)| < c.cap.value.0
  {
    hide Check, Pruned;
  }

  lemma {:induction false} ExecBounded(c: Config, acts: seq<Action>)
    requires c.cap.Some?
    ensures |Exec(c, acts).taken| <= c.cap.value.0
  {
    hide Next, LogOk;
    if acts != [] {
      ExecBounded(c, acts[..|acts| - 1]);
      NextBounded(c, Exec(c, acts[..|acts| - 1]), acts[|acts| - 1]);
    }
  }

  /** The requests, in flight or done, that hold a slot not yet expired. */
  function FreshHolders(w: World, window: nat): (m: map<nat, nat>) {
    map id | id in w.requests && SlotHeld(w.requests[id]) && Elapsed(w.clock, w.requests[id].slot.value) < window
      :: w.requests[id].slot.value
  }

  lemma HolderSlots(w: World, window: nat, t: nat)
    ensures LabelSet(FreshHolders(w, window), t) == if Elapsed(w.clock, t) < window then SlotsAt(w, t) else {}
  {
  }

  /** A status request drops expired grants from the front of the queue until one is not, and nothing else. */
  lemma {:induction false} PrunedMeans(q: seq<nat>, now: nat, window: nat)
    ensures var p := Pruned(q, now, window);
      && |p| <= |q| && p == q[|q| - |p|..]
      && (p != [] ==> p[0] > now || now - p[0] < window)
      && forall i :: 0 <= i < |q| - |p| ==> Elapsed(now, q[i]) >= window
  {
    if q != [] && Elapsed(now, q[0]) >= window {
      PrunedMeans(q[1..], now, window);
      var p := Pruned(q, now, window);
      assert q[1..][|q| - 1 - |p|..] == q[|q| - |p|..];
    }
  }

  lemma StatusPrunes(c: Config, w: World)
    requires LogOk(w) && c.cap.Some?
    ensures var w' := Next(c, w, Status);
      && w' == w.(taken := w'.taken) && |w'.taken| <= |w.taken| && w'.taken == w.taken[|w.taken| - |w'.taken|..]
      && (w'.taken != [] ==> w'.taken[0] > w.clock || w.clock - w'.taken[0] < c.cap.value.1)
      && forall i :: 0 <= i < |w.taken| - |w'.taken| ==> Elapsed(w.clock, w.taken[i]) >= c.cap.value.1
  {
    PrunedMeans(w.taken, w.clock, c.cap.value.1);
  }

  /** The cap's safety under concurrency: at every moment of every interleaving, and with clock readings in
      any order, at most `max` requests hold a slot of the current window. */
  lemma AtMostMaxHold(c: Config, acts: seq<Action>)
    requires c.cap.Some?
    ensures |FreshHolders(Exec(c, acts), c.cap.value.1)| <= c.cap.value.0
  {
    hide Exec, Recent, FreshHolders, SlotsAt;
    var w, window := Exec(c, acts), c.cap.value.1;
    ExecSlotInv(c, acts);
    ExecBounded(c, acts);
    var m := FreshHolders(w, window);
    forall t: nat ensures multiset(Recent(w.taken, w.clock, window))[t] == |LabelSet(m, t)| {
      RecentCounts(w.taken, w.clock, window, t);
      HolderSlots(w, window, t);
    }
    CountMatches(Recent(w.taken, w.clock, window), m);
    RecentShorter(w.taken, w.clock, window);
  }
}
