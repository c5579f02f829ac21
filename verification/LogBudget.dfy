/** `LogBudget`: a per-window budget for a log line that can repeat in a storm. */
module LogBudget {

  datatype Decision = Decision(emit: bool, suppressedInPreviousWindow: nat)

  datatype Counters = Counters(window: nat, used: nat, suppressed: nat)

  function WindowOf(windowSecs: nat, now: nat): (w: nat)
    requires windowSecs > 0
  {
    now / windowSecs
  }

  /** One uncontended `check_at`. */
  function Account(perWindow: nat, windowSecs: nat, c: Counters, now: nat): (r: (Counters, Decision))
    requires windowSecs > 0
  {
    var w := WindowOf(windowSecs, now);
    var roll := w != c.window;
    var used := if roll then 0 else c.used;
    var kept := if roll then 0 else c.suppressed;
    var emit := used < perWindow;
    (Counters(w, used + 1, if emit then kept else kept + 1), Decision(emit, if roll then c.suppressed else 0))
  }

  class Budget {
    const perWindow: nat
    const windowSecs: nat
    var window: nat
    var used: nat
    var suppressed: nat

    constructor (perWindow: nat, windowSecs: nat)
      ensures this.perWindow == perWindow && this.windowSecs == (if windowSecs == 0 then 1 else windowSecs)
      ensures View() == Counters(0, 0, 0)
    {
      this.perWindow := perWindow;
      this.windowSecs := if windowSecs == 0 then 1 else windowSecs;
      window, used, suppressed := 0, 0, 0;
    }

    function View(): (c: Counters)
      reads this
    {
      Counters(window, used, suppressed)
    }

    method CheckAt(now: nat) returns (d: Decision)
      requires windowSecs > 0
      modifies this
      ensures (View(), d) == Account(perWindow, windowSecs, old(View()), now)
    {
      var w := WindowOf(windowSecs, now);
      var reported := 0;
      if w != window {
        window := w;
        used := 0;
        reported := suppressed;
        suppressed := 0;
      }
      var n := used;
      used := used + 1;
      var emit := n < perWindow;
      if !emit { suppressed := suppressed + 1; }
      return Decision(emit, reported);
    }
  }

  /** A run of sequential calls, and the decision each of them got. */
  function Serial(perWindow: nat, windowSecs: nat, times: seq<nat>): (r: (Counters, seq<Decision>))
    requires windowSecs > 0
    ensures |r.1| == |times|
  {
    if times == [] then (Counters(0, 0, 0), [])
    else
      var p := Serial(perWindow, windowSecs, times[..|times| - 1]);
      var a := Account(perWindow, windowSecs, p.0, times[|times| - 1]);
      (a.0, p.1 + [a.1])
  }

  /** Window `w` is the `windowSecs` seconds from `w * windowSecs` on. */
  ghost predicate InWindow(windowSecs: nat, t: nat, w: nat) {
    w * windowSecs <= t < w * windowSecs + windowSecs
  }

  lemma WindowMeans(windowSecs: nat, t: nat, w: nat)
    requires windowSecs > 0
    ensures WindowOf(windowSecs, t) == w <==> InWindow(windowSecs, t, w)
  {
    var q := t / windowSecs;
    assert t == q * windowSecs + t % windowSecs;
    MultipleGap(q, w, windowSecs);
    MultipleGap(w, q, windowSecs);
  }

  /** The events that fell into window `w`, and those of them that were logged. */
  ghost function EventsIn(windowSecs: nat, times: seq<nat>, w: nat): (n: nat)
    requires windowSecs > 0
  {
    if times == [] then 0
    else
      EventsIn(windowSecs, times[..|times| - 1], w) + (if InWindow(windowSecs, times[|times| - 1], w) then 1 else 0)
  }

  ghost function LoggedIn(windowSecs: nat, times: seq<nat>, ds: seq<Decision>, w: nat): (n: nat)
    requires windowSecs > 0 && |ds| == |times|
  {
    if times == [] then 0
    else LoggedIn(windowSecs, times[..|times| - 1], ds[..|ds| - 1], w)
         + (if InWindow(windowSecs, times[|times| - 1], w) && ds[|ds| - 1].emit then 1 else 0)
  }

  ghost predicate NonDecreasing(times: seq<nat>) {
    forall i, j :: 0 <= i < j < |times| ==> times[i] <= times[j]
  }

  ghost function Min(a: nat, b: nat): (m: nat) { if a < b then a else b }

  /** Each window logs its first `perWindow` events and no more; the current window's excess is what
      is still counted. */
  lemma {:induction false} WindowLogsItsBudget(perWindow: nat, windowSecs: nat, times: seq<nat>, w: nat)
    requires windowSecs > 0 && NonDecreasing(times)
    ensures var r := Serial(perWindow, windowSecs, times);
      && LoggedIn(windowSecs, times, r.1, w) == Min(perWindow, EventsIn(windowSecs, times, w))
      && (w == r.0.window ==> r.0.used == EventsIn(windowSecs, times, w)
                              && r.0.suppressed == r.0.used - Min(perWindow, r.0.used))
      && (w > r.0.window ==> EventsIn(windowSecs, times, w) == 0)
      && (times != [] ==> r.0.window == WindowOf(windowSecs, times[|times| - 1]))
  {
    hide WindowOf, InWindow;
    if times != [] {
      var init, now := times[..|times| - 1], times[|times| - 1];
      WindowMeans(windowSecs, now, w);
      WindowMeans(windowSecs, now, WindowOf(windowSecs, now));
      WindowLogsItsBudget(perWindow, windowSecs, init, w);
      var p := Serial(perWindow, windowSecs, init);
      var r := Serial(perWindow, windowSecs, times);
      assert r.1[..|r.1| - 1] == p.1;
      if init != [] { WindowsRise(init[|init| - 1], now, windowSecs); }
      if w != p.0.window { WindowLogsItsBudget(perWindow, windowSecs, init, p.0.window); }
    }
  }

  lemma WindowsRise(a: nat, b: nat, d: nat)
    requires a <= b && d > 0
    ensures WindowOf(d, a) <= WindowOf(d, b)
  {
    MultipleGap(b / d, a / d, d);
  }

  lemma {:induction false} MultipleGap(x: int, y: int, d: nat)
    ensures x < y ==> x * d + d <= y * d
  {
    if d > 0 {
      MultipleGap(x, y, d - 1);
      assert x * d == x * (d - 1) + x && y * d == y * (d - 1) + y;
    }
  }

  // Concurrent calls: every atomic access is a step, and steps of different calls interleave freely.

  datatype Call =
    | Entered(now: nat)
    | Loaded(w: nat, cur: nat)
    | Rolled
    | Cleared
    | Counting(reported: nat)
    | Overflowed(reported: nat)
    | Returned(decision: Decision)

  datatype Shared = Shared(counters: Counters, calls: seq<Call>)

  function StepCall(perWindow: nat, windowSecs: nat, c: Counters, t: Call): (r: (Counters, Call))
    requires windowSecs > 0
  {
    match t
    case Entered(now) => (c, Loaded(WindowOf(windowSecs, now), c.window))
    case Loaded(w, cur) =>
      if w != cur && c.window == cur then (c.(window := w), Rolled) else (c, Counting(0))
    case Rolled => (c.(used := 0), Cleared)
    case Cleared => (c.(suppressed := 0), Counting(c.suppressed))
    case Counting(n) =>
      (c.(used := c.used + 1), if c.used < perWindow then Returned(Decision(true, n)) else Overflowed(n))
    case Overflowed(n) => (c.(suppressed := c.suppressed + 1), Returned(Decision(false, n)))
    case Returned(_) => (c, t)
  }

  datatype Move = Arrive(now: nat) | Advance(call: nat)

  function Interleave(perWindow: nat, windowSecs: nat, s: Shared, moves: seq<Move>): (s': Shared)
    requires windowSecs > 0
  {
    if moves == [] then s
    else
      var p := Interleave(perWindow, windowSecs, s, moves[..|moves| - 1]);
      match moves[|moves| - 1]
      case Arrive(now) => p.(calls := p.calls + [Entered(now)])
      case Advance(i) =>
        if i < |p.calls| then
          var r := StepCall(perWindow, windowSecs, p.counters, p.calls[i]);
          Shared(r.0, p.calls[i := r.1])
        else p
  }

  /** What one call still owes the account: its own suppressed event less the events it reported. */
  function Balance(t: Call): (b: int) {
    match t
    case Counting(n) => -(n as int)
    case Overflowed(n) => -(n as int)
    case Returned(d) => (if d.emit then 0 else 1) - d.suppressedInPreviousWindow
    case _ => 0
  }

  function Total(calls: seq<Call>): (n: int) {
    if calls == [] then 0 else Total(calls[..|calls| - 1]) + Balance(calls[|calls| - 1])
  }

  lemma {:induction false} TotalUpdate(calls: seq<Call>, i: nat, t: Call)
    requires i < |calls|
    ensures Total(calls[i := t]) == Total(calls) - Balance(calls[i]) + Balance(t)
  {
    var init := calls[..|calls| - 1];
    if i < |init| {
      TotalUpdate(init, i, t);
      assert calls[i := t][..|init|] == init[i := t];
    } else {
      assert calls[i := t][..|init|] == init;
    }
  }

  /** The books balance after every step of every interleaving. */
  lemma {:induction false} BooksBalance(perWindow: nat, windowSecs: nat, moves: seq<Move>)
    requires windowSecs > 0
    ensures var s := Interleave(perWindow, windowSecs, Shared(Counters(0, 0, 0), []), moves);
      s.counters.suppressed == Total(s.calls)
  {
    if moves != [] {
      BooksBalance(perWindow, windowSecs, moves[..|moves| - 1]);
      var p := Interleave(perWindow, windowSecs, Shared(Counters(0, 0, 0), []), moves[..|moves| - 1]);
      match moves[|moves| - 1]
      case Arrive(now) =>
        assert (p.calls + [Entered(now)])[..|p.calls|] == p.calls;
      case Advance(i) =>
        if i < |p.calls| { TotalUpdate(p.calls, i, StepCall(perWindow, windowSecs, p.counters, p.calls[i]).1); }
    }
  }

  ghost function Suppressed(calls: seq<Call>): (n: nat) {
    if calls == [] then 0
    else
      var t := calls[|calls| - 1];
      Suppressed(calls[..|calls| - 1]) + (if t.Returned? && !t.decision.emit then 1 else 0)
  }

  ghost function Reported(calls: seq<Call>): (n: nat) {
    if calls == [] then 0
    else
      var t := calls[|calls| - 1];
      Reported(calls[..|calls| - 1]) + (if t.Returned? then t.decision.suppressedInPreviousWindow else 0)
  }

  lemma {:induction false} TotalSplits(calls: seq<Call>)
    requires forall i :: 0 <= i < |calls| ==> calls[i].Returned?
    ensures Total(calls) == Suppressed(calls) - Reported(calls)
  {
    if calls != [] { TotalSplits(calls[..|calls| - 1]); }
  }

  /** No event is lost: once every call has returned, however their steps interleaved, the suppressed
      events are those reported at window rolls plus those still counted. */
  lemma NoEventIsLost(perWindow: nat, windowSecs: nat, moves: seq<Move>)
    requires windowSecs > 0
    ensures var s := Interleave(perWindow, windowSecs, Shared(Counters(0, 0, 0), []), moves);
      (forall i :: 0 <= i < |s.calls| ==> s.calls[i].Returned?) ==>
        Suppressed(s.calls) == Reported(s.calls) + s.counters.suppressed
  {
    BooksBalance(perWindow, windowSecs, moves);
    var s := Interleave(perWindow, windowSecs, Shared(Counters(0, 0, 0), []), moves);
    if forall i :: 0 <= i < |s.calls| ==> s.calls[i].Returned? { TotalSplits(s.calls); }
  }

  /** An undisturbed call's steps (six at most, the last one then repeating) compose to the sequential
      operation. */
  lemma UndisturbedIsAccount(perWindow: nat, windowSecs: nat, c: Counters, now: nat)
    requires windowSecs > 0
    ensures
      var s := Interleave(perWindow, windowSecs, Shared(c, [Entered(now)]), seq(6, _ => Advance(0)));
      var a := Account(perWindow, windowSecs, c, now);
      s == Shared(a.0, [Returned(a.1)])
  {
    var a := Account(perWindow, windowSecs, c, now);
    var s0 := Shared(c, [Entered(now)]);
    var r1 := StepCall(perWindow, windowSecs, c, Entered(now));
    var r2 := StepCall(perWindow, windowSecs, r1.0, r1.1);
    var r3 := StepCall(perWindow, windowSecs, r2.0, r2.1);
    var r4 := StepCall(perWindow, windowSecs, r3.0, r3.1);
    var r5 := StepCall(perWindow, windowSecs, r4.0, r4.1);
    var r6 := StepCall(perWindow, windowSecs, r5.0, r5.1);
    assert r6 == (a.0, Returned(a.1));
    AdvanceOnce(perWindow, windowSecs, s0, 0, Shared(c, [Entered(now)]));
    AdvanceOnce(perWindow, windowSecs, s0, 1, Shared(r1.0, [r1.1]));
    AdvanceOnce(perWindow, windowSecs, s0, 2, Shared(r2.0, [r2.1]));
    AdvanceOnce(perWindow, windowSecs, s0, 3, Shared(r3.0, [r3.1]));
    AdvanceOnce(perWindow, windowSecs, s0, 4, Shared(r4.0, [r4.1]));
    AdvanceOnce(perWindow, windowSecs, s0, 5, Shared(r5.0, [r5.1]));
  }

  lemma AdvanceOnce(perWindow: nat, windowSecs: nat, s0: Shared, k: nat, s: Shared)
    requires windowSecs > 0 && |s.calls| == 1
    requires Interleave(perWindow, windowSecs, s0, seq(k, _ => Advance(0))) == s
    ensures var r := StepCall(perWindow, windowSecs, s.counters, s.calls[0]);
      Interleave(perWindow, windowSecs, s0, seq(k + 1, _ => Advance(0))) == Shared(r.0, [r.1])
  {
    var m: seq<Move> := seq(k + 1, _ => Advance(0));
    assert m[..k] == seq(k, _ => Advance(0));
    var r := StepCall(perWindow, windowSecs, s.counters, s.calls[0]);
    assert s.calls[0 := r.1] == [r.1];
  }
}
