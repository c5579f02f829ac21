/** `GlobalCap`: at most `max` drips in any window, kept as a queue of the unexpired grant times. */
module GlobalCap {

  datatype Answer = Granted | Refused(retryAfter: nat)

  /** Saturating subtraction. */
  function Elapsed(now: nat, since: nat): (e: nat) { if since <= now then now - since else 0 }

  /** What is left of the queue once expired grants are dropped from its front. */
  function Pruned(q: seq<nat>, now: nat, window: nat): (p: seq<nat>) {
    if q != [] && Elapsed(now, q[0]) >= window then Pruned(q[1..], now, window) else q
  }

  function RetryAfter(q: seq<nat>, now: nat, window: nat): (s: nat) {
    var oldest := if q == [] then now else q[0];
    var left := Elapsed(window, Elapsed(now, oldest));
    if left < 1 then 1 else left
  }

  /** One `try_take`. */
  function TakeStep(max: nat, window: nat, q: seq<nat>, now: nat): (r: (seq<nat>, Answer)) {
    var p := Pruned(q, now, window);
    if |p| >= max then (p, Refused(RetryAfter(p, now, window))) else (p + [now], Granted)
  }

  /** The list without the last occurrence of `x`. */
  function WithoutLast(q: seq<nat>, x: nat): (p: seq<nat>) {
    if q == [] then []
    else if q[|q| - 1] == x then q[..|q| - 1]
    else WithoutLast(q[..|q| - 1], x) + [q[|q| - 1]]
  }

  class Cap {
    const max: nat
    const window: nat
    var taken: seq<nat>

    constructor (max: nat, window: nat)
      ensures this.max == max && this.window == window && taken == []
    {
      this.max := max;
      this.window := window;
      taken := [];
    }

    method Prune(now: nat)
      modifies this
      ensures taken == Pruned(old(taken), now, window)
    {
      while taken != []
        invariant Pruned(taken, now, window) == Pruned(old(taken), now, window)
        decreases |taken|
      {
        if Elapsed(now, taken[0]) >= window { taken := taken[1..]; } else { break; }
      }
    }

    method TryTake(now: nat) returns (a: Answer)
      modifies this
      ensures (taken, a) == TakeStep(max, window, old(taken), now)
    {
      Prune(now);
      if |taken| >= max {
        var oldest := if taken == [] then now else taken[0];
        var left := Elapsed(window, Elapsed(now, oldest));
        return Refused(if left < 1 then 1 else left);
      }
      taken := taken + [now];
      return Granted;
    }

    method GiveBack(at: nat)
      modifies this
      ensures taken == WithoutLast(old(taken), at)
    {
      var i := |taken|;
      assert taken[..i] == taken;
      while i > 0
        invariant 0 <= i <= |taken|
        invariant WithoutLast(taken, at) == WithoutLast(taken[..i], at) + taken[i..]
      {
        assert taken[..i][..i - 1] == taken[..i - 1];
        if taken[i - 1] == at {
          taken := taken[..i - 1] + taken[i..];
          return;
        }
        i := i - 1;
      }
      assert taken[..i] == [] && taken[i..] == taken;
    }

    method InWindow(now: nat) returns (n: nat)
      modifies this
      ensures taken == Pruned(old(taken), now, window) && n == |taken|
    {
      Prune(now);
      n := |taken|;
    }
  }

  // The reference: a ledger of every grant not returned in time, from which nothing is ever dropped.

  datatype Op = Take(now: nat) | Return(at: nat) | Read(now: nat)

  datatype Ledger = Ledger(grants: seq<nat>, last: nat, answers: seq<Answer>)

  /** The ledger's unexpired grants. */
  ghost function Recent(grants: seq<nat>, now: nat, window: nat): (r: seq<nat>) {
    if grants == [] then []
    else
      var x := grants[|grants| - 1];
      Recent(grants[..|grants| - 1], now, window) + (if Elapsed(now, x) < window then [x] else [])
  }

  /** A grant is given exactly when fewer than `max` unreturned ones are unexpired; only an unexpired
      grant can be returned. */
  ghost function LedgerStep(max: nat, window: nat, l: Ledger, op: Op): (l': Ledger) {
    match op
    case Take(now) =>
      var r := Recent(l.grants, now, window);
      if |r| < max then Ledger(l.grants + [now], now, l.answers + [Granted])
      else Ledger(l.grants, now, l.answers + [Refused(RetryAfter(r, now, window))])
    case Return(at) =>
      if Elapsed(l.last, at) < window then l.(grants := WithoutLast(l.grants, at)) else l
    case Read(now) => l.(last := now)
  }

  ghost function LedgerRun(max: nat, window: nat, ops: seq<Op>): (l: Ledger) {
    if ops == [] then Ledger([], 0, [])
    else LedgerStep(max, window, LedgerRun(max, window, ops[..|ops| - 1]), ops[|ops| - 1])
  }

  datatype Queue = Queue(taken: seq<nat>, answers: seq<Answer>)

  function QueueStep(max: nat, window: nat, s: Queue, op: Op): (s': Queue) {
    match op
    case Take(now) => var r := TakeStep(max, window, s.taken, now); Queue(r.0, s.answers + [r.1])
    case Return(at) => s.(taken := WithoutLast(s.taken, at))
    case Read(now) => s.(taken := Pruned(s.taken, now, window))
  }

  function QueueRun(max: nat, window: nat, ops: seq<Op>): (s: Queue) {
    if ops == [] then Queue([], [])
    else QueueStep(max, window, QueueRun(max, window, ops[..|ops| - 1]), ops[|ops| - 1])
  }

  /** Takes and reads come at non-decreasing times; a return names any time already reached. */
  ghost predicate Timely(max: nat, window: nat, ops: seq<Op>) {
    forall i :: 0 <= i < |ops| ==>
      var last := LedgerRun(max, window, ops[..i]).last;
      match ops[i] case Take(now) => last <= now case Read(now) => last <= now case Return(at) => at <= last
  }

  ghost predicate Ordered(g: seq<nat>, last: nat) {
    (forall i, j :: 0 <= i < j < |g| ==> g[i] <= g[j]) && forall i :: 0 <= i < |g| ==> g[i] <= last
  }

  /** The first `k` grants have expired at `now` and the others have not. */
  ghost predicate SplitAt(g: seq<nat>, k: nat, now: nat, window: nat) {
    && k <= |g|
    && (forall i :: 0 <= i < k ==> Elapsed(now, g[i]) >= window)
    && (forall i :: k <= i < |g| ==> Elapsed(now, g[i]) < window)
  }

  lemma {:induction false} RecentIsTail(g: seq<nat>, k: nat, now: nat, window: nat)
    requires SplitAt(g, k, now, window)
    ensures Recent(g, now, window) == g[k..]
  {
    if g != [] {
      var init := g[..|g| - 1];
      RecentIsTail(init, if k == |g| then k - 1 else k, now, window);
      if k < |g| { assert g[k..] == init[k..] + [g[|g| - 1]]; }
    }
  }

  lemma {:induction false} PrunedIsTail(g: seq<nat>, k: nat, now: nat, window: nat)
    requires SplitAt(g, k, now, window)
    ensures Pruned(g, now, window) == g[k..]
  {
    if k > 0 {
      PrunedIsTail(g[1..], k - 1, now, window);
      assert g[1..][k - 1..] == g[k..];
    }
  }

  /** An ordered list splits somewhere. */
  lemma Splits(g: seq<nat>, now: nat, window: nat) returns (k: nat)
    requires Ordered(g, now)
    ensures SplitAt(g, k, now, window)
  {
    k := 0;
    while k < |g| && Elapsed(now, g[k]) >= window
      invariant k <= |g| && forall i :: 0 <= i < k ==> Elapsed(now, g[i]) >= window
    {
      k := k + 1;
    }
  }

  /** Pruning a queue of what was recent then leaves what is recent now. */
  lemma PruneAdvances(g: seq<nat>, before: nat, now: nat, window: nat)
    requires Ordered(g, before) && before <= now
    ensures Pruned(Recent(g, before, window), now, window) == Recent(g, now, window)
    ensures Ordered(g, now)
  {
    var k := Splits(g, before, window);
    var m := Splits(g, now, window);
    RecentIsTail(g, k, before, window);
    RecentIsTail(g, m, now, window);
    if k > 0 { assert Elapsed(now, g[k - 1]) >= Elapsed(before, g[k - 1]) >= window; }
    assert SplitAt(g[k..], m - k, now, window);
    PrunedIsTail(g[k..], m - k, now, window);
    assert g[k..][m - k..] == g[m..];
  }

  lemma {:induction false} WithoutLastMeans(g: seq<nat>, x: nat)
    ensures multiset(WithoutLast(g, x)) == multiset(g) - multiset{x}
    ensures forall y :: y in WithoutLast(g, x) ==> y in g
  {
    if g != [] {
      var init, last := g[..|g| - 1], g[|g| - 1];
      assert g == init + [last];
      if last != x { WithoutLastMeans(init, x); }
    }
  }

  /** The removed grant is the last of its second. */
  lemma {:induction false} WithoutLastShape(g: seq<nat>, x: nat) returns (j: nat)
    requires x in g
    ensures j < |g| && g[j] == x && x !in g[j + 1..] && WithoutLast(g, x) == g[..j] + g[j + 1..]
  {
    var init, last := g[..|g| - 1], g[|g| - 1];
    if last == x {
      j := |g| - 1;
    } else {
      assert g == init + [last];
      j := WithoutLastShape(init, x);
      assert init[..j] + init[j + 1..] + [last] == g[..j] + g[j + 1..];
      assert g[j + 1..] == init[j + 1..] + [last];
    }
  }

  lemma {:induction false} WithoutAbsent(g: seq<nat>, x: nat)
    requires x !in g
    ensures WithoutLast(g, x) == g
  {
    if g != [] {
      assert g == g[..|g| - 1] + [g[|g| - 1]];
      WithoutAbsent(g[..|g| - 1], x);
    }
  }

  lemma Snoc(g: seq<nat>, x: nat, at: nat, now: nat, window: nat)
    ensures Recent(g + [x], now, window) ==
      if Elapsed(now, x) < window then Recent(g, now, window) + [x] else Recent(g, now, window)
    ensures WithoutLast(g + [x], at) == if x == at then g else WithoutLast(g, at) + [x]
  {
    assert (g + [x])[..|g|] == g;
  }

  /** Giving back commutes with forgetting what has expired. */
  lemma {:induction false} ReturnOnRecent(g: seq<nat>, at: nat, last: nat, window: nat)
    ensures WithoutLast(Recent(g, last, window), at) ==
            Recent(if Elapsed(last, at) < window then WithoutLast(g, at) else g, last, window)
  {
    if g != [] {
      hide Recent, WithoutLast;
      var init, x := g[..|g| - 1], g[|g| - 1];
      assert g == init + [x];
      ReturnOnRecent(init, at, last, window);
      Snoc(init, x, at, last, window);
      Snoc(Recent(init, last, window), x, at, last, window);
      Snoc(WithoutLast(init, at), x, at, last, window);
    }
  }

  /** Any two grants `max` apart in the ledger are at least a window apart in time. */
  ghost predicate Spaced(max: nat, window: nat, g: seq<nat>) {
    forall i :: 0 <= i && i + max < |g| ==> g[i + max] - g[i] >= window
  }

  lemma TakeKeepsSpaced(max: nat, window: nat, g: seq<nat>, now: nat)
    requires Ordered(g, now) && Spaced(max, window, g) && |Recent(g, now, window)| < max
    ensures Spaced(max, window, g + [now]) && Ordered(g + [now], now)
  {
    var k := Splits(g, now, window);
    RecentIsTail(g, k, now, window);
    var n := |g|;
    if n >= max { assert Elapsed(now, g[n - max]) >= window; }
  }

  lemma ReturnKeepsSpaced(max: nat, window: nat, g: seq<nat>, at: nat, last: nat)
    requires Ordered(g, last) && Spaced(max, window, g)
    ensures Spaced(max, window, WithoutLast(g, at)) && Ordered(WithoutLast(g, at), last)
  {
    if at in g {
      var j := WithoutLastShape(g, at);
      var h := WithoutLast(g, at);
      forall i | 0 <= i && i + max < |h| ensures h[i + max] - h[i] >= window {
        assert g[i + max] - g[i] >= window;
        assert g[i + 1 + max] - g[i + 1] >= window;
      }
    } else {
      WithoutAbsent(g, at);
    }
  }

  /** The queue is the ledger's unexpired part at every point, and answers exactly as the ledger does;
      and the ledger stays ordered and spaced. */
  lemma {:induction false} QueueRefinesLedger(max: nat, window: nat, ops: seq<Op>)
    requires window > 0 && Timely(max, window, ops)
    ensures var s, l := QueueRun(max, window, ops), LedgerRun(max, window, ops);
      && s.taken == Recent(l.grants, l.last, window) && s.answers == l.answers
      && Ordered(l.grants, l.last) && Spaced(max, window, l.grants)
  {
    if ops != [] {
      var init, op := ops[..|ops| - 1], ops[|ops| - 1];
      assert forall i :: 0 <= i < |init| ==> init[..i] == ops[..i];
      QueueRefinesLedger(max, window, init);
      var l := LedgerRun(max, window, init);
      assert ops[..|ops| - 1] == init;
      StepRefines(max, window, QueueRun(max, window, init), l, op);
    }
  }

  lemma StepRefines(max: nat, window: nat, s: Queue, l: Ledger, op: Op)
    requires window > 0 && s.taken == Recent(l.grants, l.last, window) && s.answers == l.answers
    requires Ordered(l.grants, l.last) && Spaced(max, window, l.grants)
    requires match op case Take(now) => l.last <= now case Read(now) => l.last <= now case Return(at) => at <= l.last
    ensures var s', l' := QueueStep(max, window, s, op), LedgerStep(max, window, l, op);
      && s'.taken == Recent(l'.grants, l'.last, window) && s'.answers == l'.answers
      && Ordered(l'.grants, l'.last) && Spaced(max, window, l'.grants)
  {
    hide Ordered, Spaced, Recent, WithoutLast, Pruned;
    match op
    case Take(now) =>
      PruneAdvances(l.grants, l.last, now, window);
      if |Recent(l.grants, now, window)| < max {
        TakeKeepsSpaced(max, window, l.grants, now);
        Snoc(l.grants, now, 0, now, window);
      }
    case Read(now) => PruneAdvances(l.grants, l.last, now, window);
    case Return(at) =>
      ReturnOnRecent(l.grants, at, l.last, window);
      ReturnKeepsSpaced(max, window, l.grants, at, l.last);
  }

  ghost function CountIn(g: seq<nat>, from: nat, until: nat): (n: nat) {
    if g == [] then 0
    else CountIn(g[..|g| - 1], from, until) + (if from <= g[|g| - 1] < until then 1 else 0)
  }

  /** In an ordered, spaced ledger the grants inside one window are fewer than `max + 1`: they sit
      together at the end of what has been granted by the window's end. */
  lemma {:induction false} SpacedCount(max: nat, window: nat, g: seq<nat>, last: nat, from: nat) returns (k: nat)
    requires max >= 1 && Ordered(g, last) && Spaced(max, window, g)
    ensures k <= |g| && CountIn(g, from, from + window) <= max
    ensures CountIn(g, from, from + window) <= |g| - k && (k < |g| ==> from <= g[k])
    ensures forall i :: 0 <= i < k ==> g[i] < from
  {
    if g == [] {
      k := 0;
    } else {
      var init, x := g[..|g| - 1], g[|g| - 1];
      k := SpacedCount(max, window, init, last, from);
      if x < from { k := |g|; NoneIn(g, from, from + window); }
      if from <= x < from + window {
        forall i | 0 <= i && i + max < |g| ensures g[i] < from { assert g[i + max] - g[i] >= window; }
      }
    }
  }

  lemma {:induction false} NoneIn(g: seq<nat>, from: nat, until: nat)
    requires forall i :: 0 <= i < |g| ==> g[i] < from
    ensures CountIn(g, from, until) == 0
  {
    if g != [] { NoneIn(g[..|g| - 1], from, until); }
  }

  /** The cap holds in every window, over every timely run of takes, give-backs and reads. */
  lemma NoWindowOverfull(max: nat, window: nat, ops: seq<Op>, from: nat)
    requires max >= 1 && window > 0 && Timely(max, window, ops)
    ensures CountIn(LedgerRun(max, window, ops).grants, from, from + window) <= max
    ensures |QueueRun(max, window, ops).taken| <= max
  {
    hide QueueRun, LedgerRun, Ordered, Spaced;
    QueueRefinesLedger(max, window, ops);
    var l := LedgerRun(max, window, ops);
    var k := SpacedCount(max, window, l.grants, l.last, from);
    RecentAtMostMax(max, window, l.grants, l.last);
  }

  lemma RecentAtMostMax(max: nat, window: nat, g: seq<nat>, last: nat)
    requires max >= 1 && Ordered(g, last) && Spaced(max, window, g)
    ensures |Recent(g, last, window)| <= max
  {
    var m := Splits(g, last, window);
    RecentIsTail(g, m, last, window);
    if |g| > max {
      var i := |g| - 1 - max;
      assert g[i + max] - g[i] >= window;
    }
  }

  /** The reported time is exact: with nothing given back, a take at any later time succeeds if and
      only if that time has come. */
  lemma RetryIsExact(max: nat, window: nat, q: seq<nat>, now: nat, later: nat)
    requires max >= 1 && Ordered(q, now) && |q| <= max && now <= later
    requires TakeStep(max, window, q, now).1.Refused?
    ensures var r := TakeStep(max, window, q, now);
      TakeStep(max, window, r.0, later).1.Granted? <==> later >= now + r.1.retryAfter
  {
    var k := Splits(q, now, window);
    PrunedIsTail(q, k, now, window);
    assert q[0..] == q;
    var m := Splits(q, later, window);
    PrunedIsTail(q, m, later, window);
  }

  /** A refusal never tells the caller to retry at once, and never to wait longer than a window. */
  lemma RetryIsInRange(max: nat, window: nat, q: seq<nat>, now: nat)
    requires TakeStep(max, window, q, now).1.Refused?
    ensures 1 <= TakeStep(max, window, q, now).1.retryAfter
    ensures window > 0 ==> TakeStep(max, window, q, now).1.retryAfter <= window
  {
  }

  /** A give-back removes one grant of its own second, or nothing if none is left. */
  lemma ReturnRemovesOne(max: nat, window: nat, ops: seq<Op>, at: nat)
    requires window > 0 && Timely(max, window, ops)
    ensures var s := QueueRun(max, window, ops);
      && multiset(QueueStep(max, window, s, Return(at)).taken) == multiset(s.taken) - multiset{at}
      && (at <= LedgerRun(max, window, ops).last && Elapsed(LedgerRun(max, window, ops).last, at) >= window ==>
            QueueStep(max, window, s, Return(at)) == s)
  {
    QueueRefinesLedger(max, window, ops);
    var s, l := QueueRun(max, window, ops), LedgerRun(max, window, ops);
    WithoutLastMeans(s.taken, at);
    ReturnOnRecent(l.grants, at, l.last, window);
  }
}
