/** One drip per window: the cooldown state always says exactly what the requests holding a
    reservation or a drip say, so two drips of one address (or one IP) are a window apart and a failed
    request leaves nothing behind. */
module OneDrip {
  import opened Blocks
  import opened GlobalCap
  import opened Cooldowns
  import opened Faucet

  /** Reserved and not given back: in flight, or dripped, or possibly dripped. */
  predicate Holder(q: Request) {
    match q.stage
    case Held => true
    case Capless => true
    case Sending => true
    case Landed => true
    case Recording => true
    case Queued(j) => j.Recorder?
    case Locked(j) => j.Recorder?
    case Snapped(j, _) => j.Recorder?
    case Undoing => true
    case Dripped => true
    case Ambiguous => true
    case _ => false
  }

  /** A drip that reached the chain or may have. */
  predicate MayHaveDripped(q: Request) { Holder(q) && !q.stage.Held? && !q.stage.Capless? && !q.stage.Undoing? }

  /** About to write its own cooldown entries: to release them or to re-stamp them. */
  predicate Settling(q: Request) { q.stage.Capless? || q.stage.Undoing? || q.stage.Recording? }

  /** No request settles later than a window after its reservation. */
  ghost predicate Timely(c: Config, w: World, a: Action, k: Kind) {
    a.Step? && a.id in w.requests && Settling(w.requests[a.id]) ==>
      w.clock < w.requests[a.id].guard + c.policy.Window(k)
  }

  ghost predicate TimesOk(clock: nat, q: Request) {
    && (q.stage.Stamped? ==> q.stamp <= clock)
    && (Holder(q) ==> q.stamp <= q.claim <= clock && q.stamp <= q.guard <= clock)
    && (Settling(q) || q.stage.Held? || q.stage.Sending? || q.stage.Landed? ==> q.guard == q.stamp)
    && (q.stage.Recording? ==> q.stamp <= q.mark <= clock && q.claim <= q.mark)
    && (Recorded(q) ==> q.claim <= q.guard)
  }

  /** Its success has been written to the cooldown state. */
  predicate Recorded(q: Request) { q.stage.Dripped? || (AtLock(q) && q.stage.job.Recorder?) }

  ghost predicate Live(clock: nat, window: nat, q: Request) { Holder(q) && clock < q.guard + window }

  ghost predicate AllTimesOk(w: World) {
    forall id :: id in w.requests ==> TimesOk(w.clock, w.requests[id])
  }

  /** Every live holder's time stands in the state. */
  ghost predicate Guarded(w: World, window: nat, k: Kind) {
    forall id :: id in w.requests && Live(w.clock, window, w.requests[id]) ==> Stands(w, w.requests[id], k)
  }

  ghost predicate Stands(w: World, q: Request, k: Kind) {
    q.KeyOf(k) in w.mem.Last(k) && w.mem.Last(k)[q.KeyOf(k)] == q.guard
  }

  /** No holder of the key other than `id` is live. */
  ghost predicate NoRival(w: World, window: nat, k: Kind, id: nat, key: Key) {
    forall j :: j in w.requests && j != id && w.requests[j].KeyOf(k) == key ==> !Live(w.clock, window, w.requests[j])
  }

  /** Two holders of one key are never both live. */
  ghost predicate Alone(w: World, window: nat, k: Kind) {
    forall i :: i in w.requests && Live(w.clock, window, w.requests[i]) ==>
      NoRival(w, window, k, i, w.requests[i].KeyOf(k))
  }

  ghost predicate ExplainedBy(w: World, k: Kind, key: Key, id: nat) {
    id in w.requests && Holder(w.requests[id]) && w.requests[id].KeyOf(k) == key && Stands(w, w.requests[id], k)
  }

  /** The entry is the one the process loaded. */
  ghost predicate FromFile(c: Config, w: World, k: Kind, key: Key) {
    key in c.loaded.Last(k) && key in w.mem.Last(k) && w.mem.Last(k)[key] == c.loaded.Last(k)[key]
  }

  /** Every entry still cooling is some holder's time, or was loaded. */
  ghost predicate Explained(c: Config, w: World, k: Kind) {
    forall key :: key in w.mem.Last(k) && w.clock < w.mem.Last(k)[key] + c.policy.Window(k) ==>
      FromFile(c, w, k, key) || exists id :: ExplainedBy(w, k, key, id)
  }

  /** A loaded entry stays until its window ends, and no reservation of its key is made before. */
  ghost predicate Elders(c: Config, w: World, k: Kind) {
    var window, loaded := c.policy.Window(k), c.loaded.Last(k);
    && c.start <= w.clock
    && (forall id :: id in w.requests && Holder(w.requests[id]) ==> c.start <= w.requests[id].claim)
    && (window > 0 ==> forall id :: id in w.requests && Holder(w.requests[id]) && w.requests[id].KeyOf(k) in loaded ==>
          w.requests[id].claim >= loaded[w.requests[id].KeyOf(k)] + window)
    && (window > 0 ==> forall key :: key in loaded && w.clock < loaded[key] + window ==> FromFile(c, w, k, key))
  }

  /** The later of two holders of one key claimed at least a window after the time the earlier left behind. */
  ghost predicate FarApart(p: Request, q: Request, window: nat) {
    p.turn < q.turn ==> q.claim >= p.guard + window && q.claim >= p.claim
  }

  ghost predicate Apart(w: World, window: nat, k: Kind) {
    forall i, j | i in w.requests && j in w.requests && i != j ::
      Holder(w.requests[i]) && Holder(w.requests[j]) && w.requests[i].KeyOf(k) == w.requests[j].KeyOf(k) ==>
        FarApart(w.requests[i], w.requests[j], window)
  }

  /** Reservations are made one at a time. */
  ghost predicate Turns(w: World) {
    && (forall i :: i in w.requests && Holder(w.requests[i]) ==> w.requests[i].turn < |w.log|)
    && (forall i, j | i in w.requests && j in w.requests && i != j ::
          Holder(w.requests[i]) && Holder(w.requests[j]) ==> w.requests[i].turn != w.requests[j].turn)
  }

  ghost predicate KindInv(c: Config, w: World, k: Kind) {
    var window := c.policy.Window(k);
    && AllTimesOk(w) && Turns(w) && Guarded(w, window, k) && Alone(w, window, k)
    && Explained(c, w, k) && Apart(w, window, k) && Elders(c, w, k)
  }

  datatype Effect = Same | Claimed | Restamped | Released

  /** What one step does to the cooldown state and to its own holding. */
  ghost predicate Does(c: Config, clock: nat, m: State, turn: nat, q: Request, m': State, q': Request, e: Effect) {
    && q'.addr == q.addr && q'.ip == q.ip
    && match e
       case Same =>
         && m' == m && Holder(q') == Holder(q)
         && (Holder(q) ==> q'.stamp == q.stamp && q'.claim == q.claim && q'.turn == q.turn && q'.guard == q.guard)
       case Claimed =>
         && q.stage.Stamped? && q'.stage.Held? && Check(m, c.policy, q.addr, q.ip, q.stamp).None?
         && m' == Mark(m, q.addr, q.ip, q.stamp)
         && q'.stamp == q.stamp && q'.claim == clock && q'.turn == turn && q'.guard == q.stamp
       case Restamped =>
         && q.stage.Recording? && Holder(q') && m' == Mark(m, q.addr, q.ip, q.mark)
         && q'.stamp == q.stamp && q'.claim == q.claim && q'.turn == q.turn && q'.guard == q.mark
       case Released =>
         (q.stage.Undoing? || q.stage.Capless?) && !Holder(q') && m' == Unmark(m, q.addr, q.ip)
  }

  lemma CooldownEffect(c: Config, w: World, id: nat, q: Request, rpc: Rpc, write: Write) returns (e: Effect)
    requires LogOk(w) && id in w.requests && w.requests[id] == q
    ensures var (w', q') := StepRequest(c, w, id, q, rpc, write);
      Does(c, w.clock, w.mem, |w.log|, q, w'.mem, q', e) && (TimesOk(w.clock, q) ==> TimesOk(w.clock, q'))
      && w'.clock == w.clock && |w'.log| >= (if e == Claimed then |w.log| + 1 else |w.log|)
    ensures q.stage.Undoing? || q.stage.Capless? ==> e == Released
  {
    hide StepWriter, StepHandler, Does, TimesOk;
    if AtLock(q) {
      e := Same;
      WriterCools(c, w, id, q, write);
    } else {
      e := HandlerCools(c, w, q, rpc);
    }
  }

  lemma WriterCools(c: Config, w: World, id: nat, q: Request, write: Write)
    requires AtLock(q) && w.log != [] && (q.stage.Snapped? ==> q.stage.at < |w.log|)
    ensures var (w', q') := StepWriter(c, w, id, q, write);
      Does(c, w.clock, w.mem, |w.log|, q, w'.mem, q', Same) && (TimesOk(w.clock, q) ==> TimesOk(w.clock, q'))
      && w'.clock == w.clock && w'.log == w.log
  {
    hide StepWriter;
    WriterEffect(c, w, id, q, write);
  }

  lemma HandlerCools(c: Config, w: World, q: Request, rpc: Rpc) returns (e: Effect)
    requires !AtLock(q)
    ensures var (w', q') := StepHandler(c, w, q, rpc);
      Does(c, w.clock, w.mem, |w.log|, q, w'.mem, q', e) && (TimesOk(w.clock, q) ==> TimesOk(w.clock, q'))
      && w'.clock == w.clock && |w'.log| >= (if e == Claimed then |w.log| + 1 else |w.log|)
    ensures q.stage.Undoing? || q.stage.Capless? ==> e == Released
  {
    hide Check, TakeStep, WithoutLast, Mark, Unmark;
    var (w', q') := StepHandler(c, w, q, rpc);
    e := match q.stage
      case Stamped => if q'.stage.Held? then Claimed else Same
      case Recording => Restamped
      case Undoing => Released
      case Capless => Released
      case _ => Same;
  }

  lemma LastOf(m: State, q: Request, at: nat, k: Kind)
    ensures Mark(m, q.addr, q.ip, at).Last(k) == m.Last(k)[q.KeyOf(k) := at]
    ensures Unmark(m, q.addr, q.ip).Last(k) == m.Last(k) - {q.KeyOf(k)}
  {
  }

  /** `w'` is `w` with request `id` replaced and the cooldown state changed. */
  ghost predicate Replaced(w: World, w': World, id: nat, q': Request) {
    id in w.requests && w'.clock == w.clock && w'.requests == w.requests[id := q'] && |w.log| <= |w'.log|
  }

  /** Entries of other keys are untouched. */
  ghost predicate OffKey(w: World, w': World, k: Kind, key: Key) {
    forall x :: x != key ==>
      (x in w.mem.Last(k) <==> x in w'.mem.Last(k)) && (x in w.mem.Last(k) ==> w.mem.Last(k)[x] == w'.mem.Last(k)[x])
  }

  lemma GuardedKeeps(w: World, w': World, id: nat, q': Request, window: nat, k: Kind)
    requires Guarded(w, window, k) && Replaced(w, w', id, q') && OffKey(w, w', k, q'.KeyOf(k))
    requires w'.mem == w.mem || NoRival(w, window, k, id, q'.KeyOf(k))
    requires Live(w'.clock, window, q') ==> Stands(w', q', k)
    ensures Guarded(w', window, k)
  {
    hide Live;
    forall i | i in w'.requests && Live(w'.clock, window, w'.requests[i]) ensures Stands(w', w'.requests[i], k) {
      if i != id {
        assert w'.requests[i] == w.requests[i];
        assert Stands(w, w.requests[i], k);
      }
    }
  }

  lemma AloneKeeps(w: World, w': World, id: nat, q': Request, window: nat, k: Kind)
    requires Alone(w, window, k) && Replaced(w, w', id, q') && q'.KeyOf(k) == w.requests[id].KeyOf(k)
    requires Live(w'.clock, window, q') ==> NoRival(w, window, k, id, q'.KeyOf(k))
    ensures Alone(w', window, k)
  {
    hide Live;
    forall i | i in w'.requests && Live(w'.clock, window, w'.requests[i])
      ensures NoRival(w', window, k, i, w'.requests[i].KeyOf(k))
    {
      if i != id { assert NoRival(w, window, k, i, w.requests[i].KeyOf(k)); }
    }
  }

  lemma ExplainedKeeps(c: Config, w: World, w': World, id: nat, q': Request, k: Kind)
    requires Explained(c, w, k) && Replaced(w, w', id, q') && q'.KeyOf(k) == w.requests[id].KeyOf(k)
    requires OffKey(w, w', k, q'.KeyOf(k))
    requires
      || q'.KeyOf(k) !in w'.mem.Last(k)
      || ExplainedBy(w', k, q'.KeyOf(k), id)
      || (w'.mem == w.mem && Holder(q') == Holder(w.requests[id]) && (Holder(q') ==> q'.guard == w.requests[id].guard))
    ensures Explained(c, w', k)
  {
    hide Holder;
    forall key | key in w'.mem.Last(k) && w'.clock < w'.mem.Last(k)[key] + c.policy.Window(k)
      ensures FromFile(c, w', k, key) || exists i :: ExplainedBy(w', k, key, i)
    {
      if !FromFile(c, w', k, key) && (key != q'.KeyOf(k) || !ExplainedBy(w', k, key, id)) {
        assert !FromFile(c, w, k, key);
        var i :| ExplainedBy(w, k, key, i);
        assert ExplainedBy(w', k, key, i);
      }
    }
  }

  lemma ApartKeeps(w: World, w': World, id: nat, q': Request, window: nat, k: Kind)
    requires Apart(w, window, k) && Replaced(w, w', id, q') && q'.KeyOf(k) == w.requests[id].KeyOf(k)
    requires
      || !Holder(q')
      || (&& Holder(w.requests[id]) && q'.turn == w.requests[id].turn && q'.claim == w.requests[id].claim
          && (|| q'.guard == w.requests[id].guard
              || (&& w.clock < w.requests[id].guard + window
                  && forall i :: i in w.requests && Holder(w.requests[i]) ==> w.requests[i].claim <= w.clock)))
      || (forall i :: i in w.requests && i != id && Holder(w.requests[i]) && w.requests[i].KeyOf(k) == q'.KeyOf(k) ==>
            && w.requests[i].turn < q'.turn
            && q'.claim >= w.requests[i].guard + window && q'.claim >= w.requests[i].claim)
    ensures Apart(w', window, k)
  {
    hide Holder;
  }

  lemma TurnsKeep(w: World, w': World, id: nat, q': Request)
    requires Turns(w) && Replaced(w, w', id, q')
    requires
      || !Holder(q')
      || (Holder(w.requests[id]) && q'.turn == w.requests[id].turn)
      || (q'.turn == |w.log| && |w.log| < |w'.log|)
    ensures Turns(w')
  {
    hide Holder;
  }

  lemma EldersKeep(c: Config, w: World, w': World, id: nat, q': Request, k: Kind)
    requires Elders(c, w, k) && Replaced(w, w', id, q') && q'.KeyOf(k) == w.requests[id].KeyOf(k)
    requires OffKey(w, w', k, q'.KeyOf(k))
    requires Holder(w.requests[id]) && Holder(q') ==> q'.claim == w.requests[id].claim
    requires Holder(w.requests[id]) ==> w.requests[id].claim <= w.clock
    requires !Holder(w.requests[id]) && !Holder(q') ==> w'.mem == w.mem
    requires !Holder(w.requests[id]) && Holder(q') ==> q'.claim == w.clock && ElderOver(c, w, k, q'.KeyOf(k))
    ensures Elders(c, w', k)
  {
    hide Holder;
  }

  /** Nothing loaded under the key is within its window. */
  ghost predicate ElderOver(c: Config, w: World, k: Kind, key: Key) {
    c.policy.Window(k) > 0 && key in c.loaded.Last(k) ==> w.clock >= c.loaded.Last(k)[key] + c.policy.Window(k)
  }

  lemma TimesKeep(w: World, w': World, id: nat, q': Request)
    requires AllTimesOk(w) && Replaced(w, w', id, q') && TimesOk(w.clock, q')
    ensures AllTimesOk(w')
  {
    hide TimesOk;
  }

  lemma SameKeeps(c: Config, w: World, w': World, id: nat, q': Request, k: Kind)
    requires KindInv(c, w, k) && Replaced(w, w', id, q')
    requires Does(c, w.clock, w.mem, |w.log|, w.requests[id], w'.mem, q', Same) && TimesOk(w.clock, q')
    ensures KindInv(c, w', k)
  {
    hide TimesOk, Holder, AllTimesOk, Apart, Explained, NoRival, Turns, Elders;
    var q, window := w.requests[id], c.policy.Window(k);
    AllTimes(c, w, id, k);
    if Holder(q) { HolderTime(w.clock, q); }
    TimesKeep(w, w', id, q');
    assert Live(w.clock, window, q') ==> Live(w.clock, window, q);
    GuardedKeeps(w, w', id, q', window, k);
    AloneKeeps(w, w', id, q', window, k);
    ExplainedKeeps(c, w, w', id, q', k);
    TurnsKeep(w, w', id, q');
    EldersKeep(c, w, w', id, q', k);
    ApartKeeps(w, w', id, q', window, k);
  }

  /** At a claim, every other holder of the key has run out. */
  lemma ClaimFindsNoneLive(c: Config, w: World, id: nat, q: Request, k: Kind)
    requires KindInv(c, w, k) && q.stamp <= w.clock && Check(w.mem, c.policy, q.addr, q.ip, q.stamp).None?
    ensures NoRival(w, c.policy.Window(k), k, id, q.KeyOf(k)) && ElderOver(c, w, k, q.KeyOf(k))
    ensures forall i :: i in w.requests && i != id && Holder(w.requests[i]) && w.requests[i].KeyOf(k) == q.KeyOf(k) ==>
      && w.requests[i].turn < |w.log|
      && w.clock >= w.requests[i].guard + c.policy.Window(k) && w.clock >= w.requests[i].claim
  {
    hide Check, Holder, TimesOk;
    assert !Cooling(w.mem.Last(k), c.policy.Window(k), q.KeyOf(k), q.stamp);
    forall i | i in w.requests && Holder(w.requests[i])
      ensures w.requests[i].guard <= w.clock && w.requests[i].claim <= w.clock
    {
      HolderTime(w.clock, w.requests[i]);
    }
  }

  lemma ClaimKeeps(c: Config, w: World, w': World, id: nat, q': Request, k: Kind)
    requires KindInv(c, w, k) && Replaced(w, w', id, q')
    requires Does(c, w.clock, w.mem, |w.log|, w.requests[id], w'.mem, q', Claimed) && TimesOk(w.clock, q')
    requires |w.log| < |w'.log|
    ensures KindInv(c, w', k)
  {
    hide TimesOk, Check, Guarded, Alone, Apart, Explained, NoRival, Mark, Turns, Elders;
    var q, window := w.requests[id], c.policy.Window(k);
    AllTimes(c, w, id, k);
    StampedTime(w.clock, q);
    ClaimFindsNoneLive(c, w, id, q, k);
    LastOf(w.mem, q, q.stamp, k);
    TimesKeep(w, w', id, q');
    GuardedKeeps(w, w', id, q', window, k);
    AloneKeeps(w, w', id, q', window, k);
    ExplainedKeeps(c, w, w', id, q', k);
    TurnsKeep(w, w', id, q');
    EldersKeep(c, w, w', id, q', k);
    ApartKeeps(w, w', id, q', window, k);
  }

  lemma StampedTime(clock: nat, q: Request)
    requires TimesOk(clock, q) && q.stage.Stamped?
    ensures q.stamp <= clock && !Holder(q)
  {
  }

  lemma HolderTime(clock: nat, q: Request)
    requires TimesOk(clock, q) && Holder(q)
    ensures q.stamp <= q.guard <= clock && q.stamp <= q.claim <= clock
  {
  }

  /** A live request has no live rival. */
  lemma LiveAlone(c: Config, w: World, id: nat, k: Kind)
    requires KindInv(c, w, k) && id in w.requests && Live(w.clock, c.policy.Window(k), w.requests[id])
    ensures NoRival(w, c.policy.Window(k), k, id, w.requests[id].KeyOf(k))
  {
  }

  lemma RecordKeeps(c: Config, w: World, w': World, id: nat, q': Request, k: Kind)
    requires KindInv(c, w, k) && Replaced(w, w', id, q')
    requires Does(c, w.clock, w.mem, |w.log|, w.requests[id], w'.mem, q', Restamped) && TimesOk(w.clock, q')
    requires w.clock < w.requests[id].guard + c.policy.Window(k)
    ensures KindInv(c, w', k)
  {
    hide TimesOk, Guarded, Alone, Apart, Explained, NoRival, Mark, Turns, Elders;
    var q, window := w.requests[id], c.policy.Window(k);
    LiveAlone(c, w, id, k);
    LastOf(w.mem, q, q.mark, k);
    forall i | i in w.requests && Holder(w.requests[i]) ensures w.requests[i].claim <= w.clock {
      AllTimes(c, w, i, k);
      HolderTime(w.clock, w.requests[i]);
    }
    TimesKeep(w, w', id, q');
    GuardedKeeps(w, w', id, q', window, k);
    AloneKeeps(w, w', id, q', window, k);
    ExplainedKeeps(c, w, w', id, q', k);
    TurnsKeep(w, w', id, q');
    EldersKeep(c, w, w', id, q', k);
    ApartKeeps(w, w', id, q', window, k);
  }

  /** A release with no live rival keeps the books right. */
  lemma ReleaseKeeps(c: Config, w: World, w': World, id: nat, q': Request, k: Kind)
    requires KindInv(c, w, k) && Replaced(w, w', id, q')
    requires Does(c, w.clock, w.mem, |w.log|, w.requests[id], w'.mem, q', Released) && TimesOk(w.clock, q')
    requires NoRival(w, c.policy.Window(k), k, id, q'.KeyOf(k))
    ensures KindInv(c, w', k)
  {
    hide TimesOk, Guarded, Alone, Apart, Explained, NoRival, Unmark, Turns, Elders;
    var q, window := w.requests[id], c.policy.Window(k);
    AllTimes(c, w, id, k);
    HolderTime(w.clock, q);
    LastOf(w.mem, q, 0, k);
    TimesKeep(w, w', id, q');
    GuardedKeeps(w, w', id, q', window, k);
    AloneKeeps(w, w', id, q', window, k);
    ExplainedKeeps(c, w, w', id, q', k);
    TurnsKeep(w, w', id, q');
    EldersKeep(c, w, w', id, q', k);
    ApartKeeps(w, w', id, q', window, k);
  }

  /** Time and arrivals explain no entry away. */
  lemma StaysExplained(c: Config, w: World, w': World, k: Kind)
    requires Explained(c, w, k) && w'.mem == w.mem && w.clock <= w'.clock
    requires forall id :: id in w.requests ==> id in w'.requests && w'.requests[id] == w.requests[id]
    ensures Explained(c, w', k)
  {
    hide Holder;
    forall key | key in w'.mem.Last(k) && w'.clock < w'.mem.Last(k)[key] + c.policy.Window(k)
      && !FromFile(c, w', k, key)
      ensures exists i :: ExplainedBy(w', k, key, i)
    {
      assert !FromFile(c, w, k, key);
      var i :| ExplainedBy(w, k, key, i);
      assert ExplainedBy(w', k, key, i);
    }
  }

  lemma TickKeeps(c: Config, w: World, n: nat, k: Kind)
    requires KindInv(c, w, k)
    ensures KindInv(c, w.(clock := w.clock + n), k)
  {
    hide Explained;
    StaysExplained(c, w, w.(clock := w.clock + n), k);
  }

  lemma ArriveKeeps(c: Config, w: World, id: nat, addr: Key, ip: Key, k: Kind)
    requires KindInv(c, w, k) && id !in w.requests
    ensures KindInv(c, w.(requests := w.requests[id := NewRequest(addr, ip)]), k)
  {
    hide Explained, Guarded, Alone, Apart, Elders, Turns, Holder, TimesOk;
    var w' := w.(requests := w.requests[id := NewRequest(addr, ip)]);
    StaysExplained(c, w, w', k);
    NewcomerHoldsNothing(w.clock, addr, ip);
    NewcomerIsFar(c, w, w', id, k);
    NewcomerIsAlone(w, w', id, c.policy.Window(k), k);
  }

  lemma NewcomerHoldsNothing(clock: nat, addr: Key, ip: Key)
    ensures !Holder(NewRequest(addr, ip)) && TimesOk(clock, NewRequest(addr, ip))
  {
  }

  lemma NewcomerIsFar(c: Config, w: World, w': World, id: nat, k: Kind)
    requires Guarded(w, c.policy.Window(k), k) && Apart(w, c.policy.Window(k), k) && Elders(c, w, k) && Turns(w)
    requires id in w'.requests && !Holder(w'.requests[id]) && w' == w.(requests := w.requests[id := w'.requests[id]])
    ensures Guarded(w', c.policy.Window(k), k) && Apart(w', c.policy.Window(k), k) && Elders(c, w', k) && Turns(w')
  {
    hide Holder;
  }

  lemma NewcomerIsAlone(w: World, w': World, id: nat, window: nat, k: Kind)
    requires Alone(w, window, k)
    requires id in w'.requests && !Holder(w'.requests[id]) && w' == w.(requests := w.requests[id := w'.requests[id]])
    ensures Alone(w', window, k)
  {
    hide Holder;
    forall i | i in w'.requests && Live(w'.clock, window, w'.requests[i])
      ensures NoRival(w', window, k, i, w'.requests[i].KeyOf(k))
    {
      assert NoRival(w, window, k, i, w.requests[i].KeyOf(k));
    }
  }

  lemma NextKindInv(c: Config, w: World, a: Action, k: Kind)
    requires LogOk(w) && KindInv(c, w, k) && Timely(c, w, a, k)
    ensures KindInv(c, Next(c, w, a), k)
  {
    hide StepRequest, KindInv, Does, TimesOk;
    var w' := Next(c, w, a);
    match a
    case Arrive(id, addr, ip) => if id !in w.requests { ArriveKeeps(c, w, id, addr, ip, k); }
    case Tick(n) => TickKeeps(c, w, n, k);
    case Status => StatusKeeps(c, w, w', k);
    case Step(id, rpc, write) =>
      if id in w.requests {
        var q := w.requests[id];
        var e := CooldownEffect(c, w, id, q, rpc, write);
        var q' := StepRequest(c, w, id, q, rpc, write).1;
        AllTimes(c, w, id, k);
        match e
        case Same => SameKeeps(c, w, w', id, q', k);
        case Claimed => ClaimKeeps(c, w, w', id, q', k);
        case Restamped =>
          SettlingEffect(c, w.clock, w.mem, |w.log|, q, w'.mem, q', e);
          RecordKeeps(c, w, w', id, q', k);
        case Released =>
          SettlingEffect(c, w.clock, w.mem, |w.log|, q, w'.mem, q', e);
          LiveAlone(c, w, id, k);
          ReleaseKeeps(c, w, w', id, q', k);
      }
  }

  lemma SettlingEffect(c: Config, clock: nat, m: State, turn: nat, q: Request, m': State, q': Request, e: Effect)
    requires Does(c, clock, m, turn, q, m', q', e) && (e.Restamped? || e.Released?)
    ensures Settling(q) && Holder(q) && forall k: Kind :: q'.KeyOf(k) == q.KeyOf(k)
  {
  }

  lemma AllTimes(c: Config, w: World, id: nat, k: Kind)
    requires KindInv(c, w, k) && id in w.requests
    ensures TimesOk(w.clock, w.requests[id])
  {
  }

  lemma StatusKeeps(c: Config, w: World, w': World, k: Kind)
    requires KindInv(c, w, k) && w'.clock == w.clock && w'.mem == w.mem && w'.requests == w.requests && w'.log == w.log
    ensures KindInv(c, w', k)
  {
    var window := c.policy.Window(k);
    StaysExplained(c, w, w', k);
    forall i | i in w.requests && Live(w.clock, window, w.requests[i])
      ensures NoRival(w', window, k, i, w.requests[i].KeyOf(k))
    {
      assert NoRival(w, window, k, i, w.requests[i].KeyOf(k));
    }
  }

  ghost predicate TimelyRun(c: Config, acts: seq<Action>, k: Kind) {
    forall i :: 0 <= i < |acts| ==> Timely(c, Exec(c, acts[..i]), acts[i], k)
  }

  lemma {:induction false} ExecKindInv(c: Config, acts: seq<Action>, k: Kind)
    requires TimelyRun(c, acts, k)
    ensures KindInv(c, Exec(c, acts), k)
  {
    hide KindInv, Timely, Next, LogOk;
    if acts == [] {
      StartKindInv(c, k);
    } else {
      var init := acts[..|acts| - 1];
      assert forall i :: 0 <= i < |init| ==> init[..i] == acts[..i];
      ExecKindInv(c, init, k);
      NextKindInv(c, Exec(c, init), acts[|acts| - 1], k);
    }
  }

  lemma StartKindInv(c: Config, k: Kind)
    ensures KindInv(c, Start(c), k)
  {
  }

  /** One drip per window, in every interleaving: of two requests of one address (or one IP) that dripped or
      may have, the one that reserved later did so at least a window after the time the earlier one left
      behind: its record time once recorded, its stamp otherwise. Counted from reservation to reservation,
      the window holds whenever the earlier one was recorded or read its clock at the reservation. */
  lemma OneDripPerWindow(c: Config, acts: seq<Action>, k: Kind, i: nat, j: nat)
    requires TimelyRun(c, acts, k)
    requires var w := Exec(c, acts);
      && i in w.requests && j in w.requests && i != j
      && MayHaveDripped(w.requests[i]) && MayHaveDripped(w.requests[j])
      && w.requests[i].KeyOf(k) == w.requests[j].KeyOf(k)
    ensures var p, q, window := Exec(c, acts).requests[i], Exec(c, acts).requests[j], c.policy.Window(k);
      && p.turn != q.turn && (p.claim < q.claim ==> p.turn < q.turn)
      && (p.turn < q.turn ==>
            && q.claim >= p.guard + window && q.claim >= p.claim
            && (Recorded(p) || p.claim == p.stamp ==> q.claim >= p.claim + window))
  {
    hide Exec, Holder, Recorded;
    ExecKindInv(c, acts, k);
    var w := Exec(c, acts);
    MayHold(w.requests[i]);
    MayHold(w.requests[j]);
    LeftBehind(w.clock, w.requests[i]);
  }

  lemma LeftBehind(clock: nat, q: Request)
    requires TimesOk(clock, q) && Holder(q)
    ensures q.stamp <= q.guard && (Recorded(q) ==> q.claim <= q.guard)
  {
  }

  lemma MayHold(q: Request)
    requires MayHaveDripped(q)
    ensures Holder(q)
  {
  }

  /** The answer to any check, now or later, is decided by the requests that hold a reservation or a drip,
      and by what was loaded, and by nothing else: a request that failed or was refused has no say in it. */
  lemma OnlyHoldersCool(c: Config, acts: seq<Action>, k: Kind, key: Key, t: nat)
    requires TimelyRun(c, acts, k) && t >= Exec(c, acts).clock
    ensures var w, window := Exec(c, acts), c.policy.Window(k);
      Cooling(w.mem.Last(k), window, key, t) <==>
        || Cooling(c.loaded.Last(k), window, key, t)
        || exists id :: id in w.requests && Holder(w.requests[id]) && w.requests[id].KeyOf(k) == key
                        && t < w.requests[id].guard + window
  {
    hide Exec, Holder;
    ExecKindInv(c, acts, k);
    var w := Exec(c, acts);
    if Cooling(w.mem.Last(k), c.policy.Window(k), key, t) && !FromFile(c, w, k, key) {
      var id :| ExplainedBy(w, k, key, id);
      HolderTime(w.clock, w.requests[id]);
    }
    if id :| id in w.requests && Holder(w.requests[id]) && w.requests[id].KeyOf(k) == key
             && t < w.requests[id].guard + c.policy.Window(k) {
      HolderTime(w.clock, w.requests[id]);
    }
  }

  /** Timeliness is needed, and exactly this much of it: a release keeps the books right if and only if
      no other holder of the key is live. */
  lemma LateReleaseExactly(c: Config, w: World, id: nat, rpc: Rpc, write: Write, k: Kind)
    requires LogOk(w) && KindInv(c, w, k) && id in w.requests
    requires w.requests[id].stage.Undoing? || w.requests[id].stage.Capless?
    ensures KindInv(c, Next(c, w, Step(id, rpc, write)), k) <==>
      NoRival(w, c.policy.Window(k), k, id, w.requests[id].KeyOf(k))
  {
    hide TimesOk, StepRequest, Does, NoRival, Live;
    var q, window := w.requests[id], c.policy.Window(k);
    var w' := Next(c, w, Step(id, rpc, write));
    var q' := w'.requests[id];
    AllTimes(c, w, id, k);
    var e := CooldownEffect(c, w, id, q, rpc, write);
    UndoIsRelease(c, w, q, w', q', e, k);
    if NoRival(w, window, k, id, q.KeyOf(k)) {
      ReleaseKeeps(c, w, w', id, q', k);
    } else {
      var i := Rival(w, window, k, id, q.KeyOf(k));
      assert w'.requests[i] == w.requests[i];
      assert !Stands(w', w'.requests[i], k);
    }
  }

  lemma UndoIsRelease(c: Config, w: World, q: Request, w': World, q': Request, e: Effect, k: Kind)
    requires Does(c, w.clock, w.mem, |w.log|, q, w'.mem, q', e) && e == Released
    ensures q'.KeyOf(k) == q.KeyOf(k) && q.KeyOf(k) !in w'.mem.Last(k)
  {
    LastOf(w.mem, q, 0, k);
  }

  lemma Rival(w: World, window: nat, k: Kind, id: nat, key: Key) returns (i: nat)
    requires !NoRival(w, window, k, id, key)
    ensures i in w.requests && i != id && w.requests[i].KeyOf(k) == key && Live(w.clock, window, w.requests[i])
  {
    i :| i in w.requests && i != id && w.requests[i].KeyOf(k) == key && Live(w.clock, window, w.requests[i]);
  }

  // A run that attains the bound: with a stale stamp left unrecorded, reservations come closer.

  /** Requests that nothing is known to have become of never write their entries a second time. */
  ghost predicate NeverSettles(acts: seq<Action>) {
    forall i :: 0 <= i < |acts| && acts[i].Step? ==> acts[i].rpc.Unknown?
  }

  ghost predicate Unsettled(q: Request) {
    !Settling(q) && !q.stage.Landed? && !q.stage.Returning? && (AtLock(q) ==> q.stage.job.Recovery?)
  }

  lemma StepUnsettled(c: Config, w: World, id: nat, q: Request, write: Write)
    requires w.log != [] && (q.stage.Snapped? ==> q.stage.at < |w.log|) && c.cap.None? && Unsettled(q)
    ensures Unsettled(StepRequest(c, w, id, q, Unknown, write).1)
  {
    hide Check, Mark, Unmark;
  }

  lemma {:induction false} NoneSettles(c: Config, acts: seq<Action>)
    requires c.cap.None? && NeverSettles(acts)
    ensures forall id :: id in Exec(c, acts).requests ==> Unsettled(Exec(c, acts).requests[id])
  {
    hide Unsettled, StepRequest, LogOk;
    if acts == [] {
    } else {
      var w, a := Exec(c, acts[..|acts| - 1]), acts[|acts| - 1];
      NoneSettles(c, acts[..|acts| - 1]);
      NewUnsettled();
      if a.Step? && a.id in w.requests {
        LogHolds(w, a.id);
        StepUnsettled(c, w, a.id, w.requests[a.id], a.write);
      }
    }
  }

  lemma LogHolds(w: World, id: nat)
    requires LogOk(w) && id in w.requests
    ensures w.log != [] && (w.requests[id].stage.Snapped? ==> w.requests[id].stage.at < |w.log|)
  {
  }

  lemma NewUnsettled()
    ensures forall addr, ip :: Unsettled(NewRequest(addr, ip))
  {
  }

  lemma SuchRunsAreTimely(c: Config, acts: seq<Action>, k: Kind)
    requires c.cap.None? && NeverSettles(acts)
    ensures TimelyRun(c, acts, k)
  {
    hide Exec;
    forall i | 0 <= i < |acts| ensures Timely(c, Exec(c, acts[..i]), acts[i], k) { NoneSettles(c, acts[..i]); }
  }

  /** The settings of the run: no disk copy, no cap, one window for both kinds. */
  function Plain(window: nat): (c: Config) { Config(Policy(window, window, false, false), None, 0, EMPTY) }

  function Do(c: Config, w: World, a: Action): (w': World)
    requires LogOk(w)
    ensures LogOk(w')
  {
    NextLogOk(c, w, a);
    Next(c, w, a)
  }

  lemma ExecDo(c: Config, acts: seq<Action>, a: Action)
    ensures Exec(c, acts + [a]) == Do(c, Exec(c, acts), a)
  {
    hide Next, LogOk;
    assert (acts + [a])[..|acts|] == acts;
  }

  function Go(id: nat): (a: Action) { Step(id, Unknown, Wrote) }

  /** A request that stamps now, claims `stale` seconds later and ends unclear. */
  function Unclear(id: nat, stale: nat): (acts: seq<Action>) {
    [Arrive(id, 1, 1), Go(id), Go(id), Go(id), Tick(stale), Go(id), Go(id), Go(id)]
  }

  /** Its effect, when its keys are not cooling. */
  ghost predicate EndsUnclear(w: World, w': World, id: nat, stale: nat) {
    && w'.clock == w.clock + stale && w'.mem == Mark(w.mem, 1, 1, w.clock) && w'.healthy && w'.disk == w.disk
    && id in w'.requests && w'.requests == w.requests[id := w'.requests[id]]
    && var q := w'.requests[id];
       && q.stage.Ambiguous? && q.addr == 1 && q.ip == 1
       && q.stamp == w.clock && q.guard == w.clock && q.claim == w.clock + stale
  }

  lemma RunUnclear(c: Config, acts: seq<Action>, id: nat, stale: nat)
    requires c.cap.None?
    requires var w := Exec(c, acts); id !in w.requests && w.healthy && Check(w.mem, c.policy, 1, 1, w.clock).None?
    ensures EndsUnclear(Exec(c, acts), Exec(c, acts + Unclear(id, stale)), id, stale)
  {
    hide Exec, Check, Mark, Unmark, LogOk, Do;
    var w := Exec(c, acts);
    var ws := Stamps(c, w, id);
    TickOnly(c, ws[4], stale);
    var vs := Claims(c, Do(c, ws[4], Tick(stale)), id);
    Unroll(c, acts, Unclear(id, stale), ws + vs, 8);
    assert Unclear(id, stale)[..8] == Unclear(id, stale);
  }

  lemma TickOnly(c: Config, w: World, n: nat)
    requires LogOk(w)
    ensures Do(c, w, Tick(n)) == w.(clock := w.clock + n)
  {
  }

  /** From arrival to the clock reading. */
  lemma Stamps(c: Config, w: World, id: nat) returns (ws: seq<World>)
    requires LogOk(w) && w.healthy && id !in w.requests
    ensures |ws| == 5 && ws[0] == w && forall i :: 0 <= i < 5 ==> LogOk(ws[i])
    ensures ws[1] == Do(c, w, Arrive(id, 1, 1)) && forall i :: 1 <= i < 4 ==> ws[i + 1] == Do(c, ws[i], Go(id))
    ensures id in ws[4].requests && ws[4] == w.(requests := w.requests[id := ws[4].requests[id]])
    ensures var q := ws[4].requests[id]; q.stage.Stamped? && q.addr == 1 && q.ip == 1 && q.stamp == w.clock
  {
    hide Check, LogOk;
    var w1 := Do(c, w, Arrive(id, 1, 1));
    var w2 := Do(c, w1, Go(id));
    var w3 := Do(c, w2, Go(id));
    var w4 := Do(c, w3, Go(id));
    ws := [w, w1, w2, w3, w4];
  }

  /** From the clock reading to the unclear answer. */
  lemma Claims(c: Config, w: World, id: nat) returns (ws: seq<World>)
    requires LogOk(w) && c.cap.None? && id in w.requests && w.requests[id].stage.Stamped?
    requires var q := w.requests[id]; Check(w.mem, c.policy, q.addr, q.ip, q.stamp).None?
    ensures |ws| == 4 && ws[0] == w && forall i :: 0 <= i < 4 ==> LogOk(ws[i])
    ensures forall i :: 0 <= i < 3 ==> ws[i + 1] == Do(c, ws[i], Go(id))
    ensures id in ws[3].requests
    ensures var q, q' := w.requests[id], ws[3].requests[id];
      && ws[3].clock == w.clock && ws[3].mem == Mark(w.mem, q.addr, q.ip, q.stamp) && ws[3].healthy == w.healthy
      && ws[3].disk == w.disk && ws[3].requests == w.requests[id := q'] && q'.stage.Ambiguous?
      && q'.addr == q.addr && q'.ip == q.ip
      && q'.stamp == q.stamp && q'.guard == q.stamp && q'.claim == w.clock
  {
    hide Check, Mark, LogOk;
    var w1 := Do(c, w, Go(id));
    var w2 := Do(c, w1, Go(id));
    var w3 := Do(c, w2, Go(id));
    ws := [w, w1, w2, w3];
  }

  lemma {:induction false} Unroll(c: Config, acts: seq<Action>, more: seq<Action>, ws: seq<World>, k: nat)
    requires |ws| == |more| + 1 && ws[0] == Exec(c, acts) && k <= |more|
    requires forall i :: 0 <= i < |ws| ==> LogOk(ws[i])
    requires forall i :: 0 <= i < |more| ==> ws[i + 1] == Do(c, ws[i], more[i])
    ensures Exec(c, acts + more[..k]) == ws[k]
  {
    hide Exec, LogOk, Do;
    if k == 0 {
      assert acts + more[..0] == acts;
    } else {
      Unroll(c, acts, more, ws, k - 1);
      ExecDo(c, acts + more[..k - 1], more[k - 1]);
      assert acts + more[..k] == (acts + more[..k - 1]) + [more[k - 1]];
    }
  }

  /** For every window and every staleness up to it there is a timely run in which two drips that may have
      reached the chain were reserved exactly that much less than a window apart. */
  lemma StaleStampsComeCloser(window: nat, stale: nat) returns (acts: seq<Action>)
    requires 0 < stale <= window
    ensures var c, w := Plain(window), Exec(Plain(window), acts);
      && TimelyRun(c, acts, Address) && TimelyRun(c, acts, Ip)
      && 1 in w.requests && 2 in w.requests
      && w.requests[1].addr == w.requests[2].addr && w.requests[1].ip == w.requests[2].ip
      && MayHaveDripped(w.requests[1]) && MayHaveDripped(w.requests[2])
      && w.requests[2].claim == w.requests[1].claim + window - stale
  {
    hide Exec, LogOk;
    var c := Plain(window);
    var a1 := Unclear(1, stale);
    assert [] + a1 == a1 && Exec(c, []) == Start(c) by { StartExec(c); }
    RunUnclear(c, [], 1, stale);
    var a2 := a1 + [Tick(window - stale)];
    ExecDo(c, a1, Tick(window - stale));
    RunUnclear(c, a2, 2, 0);
    acts := a2 + Unclear(2, 0);
    SuchRunsAreTimely(c, acts, Address);
    SuchRunsAreTimely(c, acts, Ip);
  }

  lemma StartExec(c: Config)
    ensures Exec(c, []) == Start(c)
  {
  }
}
