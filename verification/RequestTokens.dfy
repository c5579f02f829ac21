/** `request_tokens`, one uninterrupted call: the order of the reservations and every exit path. */
module RequestTokens {
  import opened Blocks
  import opened GlobalCap
  import opened Cooldowns
  import Faucet

  datatype Outcome = CooldownDenied(denial: Denial) | CapDenied(retryAfter: nat) | NotSent | Sent | Unclear

  /** Returns every slot a request took. */
  method ReleaseSlots(cool: Cooldowns, cap: Cap?, addr: Key, ip: Key, takenAt: Option<nat>)
    modifies cool`mem, cap
    ensures cool.mem == Unmark(old(cool.mem), addr, ip)
    ensures cap != null ==>
      cap.taken == if takenAt.Some? then WithoutLast(old(cap.taken), takenAt.value) else old(cap.taken)
  {
    cool.Release(addr, ip);
    if cap != null && takenAt.Some? { cap.GiveBack(takenAt.value); }
  }

  /** `now`, `stamp` and `mark` are the clock readings of the handler, of the reservation and of the
      record; `rpc` is what became of the nonce query, the signing and the send together.

      A request that was denied or not sent leaves every later cooldown check as it was and the cap
      with the unexpired slots it had; one that was sent, or may have been, cools its address and its
      IP and keeps its slot. */
  method RequestTokens(cool: Cooldowns, cap: Cap?, addr: Key, ip: Key, now: nat, stamp: nat, mark: nat,
                       rpc: Faucet.Rpc, recover: Write, record: Write)
    returns (o: Outcome)
    requires now <= stamp <= mark
    modifies cool, cap
    ensures var stuck := cool.policy.required && cool.policy.file && !old(cool.healthy) && !recover.Wrote?;
      var check := Check(old(cool.mem), cool.policy, addr, ip, stamp);
      var full := cap != null && |Pruned(old(cap.taken), now, cap.window)| >= cap.max;
      o == if stuck then CooldownDenied(PersistenceUnavailable)
           else if check.Some? then CooldownDenied(check.value)
           else if full then CapDenied(RetryAfter(Pruned(old(cap.taken), now, cap.window), now, cap.window))
           else match rpc case Accepted => Sent case NotSent => NotSent case Unknown => Unclear
    ensures cool.healthy ==
      ((old(cool.healthy) || (cool.policy.required && cool.policy.file && recover.Wrote?))
       && (o.Sent? && cool.policy.required && cool.policy.file ==> record.Wrote?))
    ensures o.CooldownDenied? || o.CapDenied? || o.NotSent? ==>
      SameAnswers(cool.policy, old(cool.mem), cool.mem, stamp)
    ensures o.Sent? ==> cool.mem == Mark(old(cool.mem), addr, ip, mark)
    ensures o.Unclear? ==> cool.mem == Mark(old(cool.mem), addr, ip, stamp)
    ensures o.Sent? || o.Unclear? ==> Check(old(cool.mem), cool.policy, addr, ip, stamp).None?
    ensures cap != null ==>
      multiset(cap.taken) ==
        if o.CooldownDenied? then multiset(old(cap.taken))
        else if o.Sent? || o.Unclear? then multiset(Pruned(old(cap.taken), now, cap.window)) + multiset{now}
        else multiset(Pruned(old(cap.taken), now, cap.window))
    ensures o.CapDenied? ==> cap != null && |cap.taken| >= cap.max
    ensures var retried := cool.policy.required && cool.policy.file && !old(cool.healthy);
      var disk := if retried then Published(old(cool.disk), old(cool.mem), recover) else old(cool.disk);
      cool.disk == if o.Sent? && cool.policy.file then Published(disk, cool.mem, record) else disk
  {
    hide Check, SameAnswers, WithoutLast, Pruned, RetryAfter, Mark, Unmark;
    ghost var before := cool.mem;
    Unchanged(cool.policy, before, stamp);
    var denied := cool.TryReserve(addr, ip, stamp, recover);
    if denied.Some? { return CooldownDenied(denied.value); }
    UndoneIsUnseen(cool.policy, before, addr, ip, stamp);
    var takenAt := None;
    if cap != null {
      var a := cap.TryTake(now);
      if a.Refused? {
        cool.Release(addr, ip);
        return CapDenied(a.retryAfter);
      }
      takenAt := Some(now);
      WithoutLastMeans(cap.taken, now);
    }
    match rpc
    case NotSent =>
      ReleaseSlots(cool, cap, addr, ip, takenAt);
      return NotSent;
    case Unknown => return Unclear;
    case Accepted =>
      cool.RecordSuccess(addr, ip, mark, record);
      MarkTwice(before, addr, ip, stamp, mark);
      return Sent;
  }

  lemma Unchanged(p: Policy, s: State, t: nat)
    ensures SameAnswers(p, s, s, t)
  {
  }

  lemma MarkTwice(s: State, addr: Key, ip: Key, stamp: nat, mark: nat)
    ensures Mark(Mark(s, addr, ip, stamp), addr, ip, mark) == Mark(s, addr, ip, mark)
  {
  }

  lemma UndoneIsUnseen(p: Policy, s: State, addr: Key, ip: Key, now: nat)
    requires Check(s, p, addr, ip, now).None?
    ensures SameAnswers(p, s, Unmark(Mark(s, addr, ip, now), addr, ip), now)
  {
    hide Check;
    FailedDripLeavesNoTrace(p, s, addr, ip, now, []);
  }
}
