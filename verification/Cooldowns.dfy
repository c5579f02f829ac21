/** `Cooldowns`: per-address and per-IP windows, kept in memory and copied to disk. */
module Cooldowns {
  import opened Blocks
  import opened GlobalCap

  /** A canonical address, or the canonical text of an IP. */
  type Key = nat

  datatype Kind = Address | Ip

  /** When each key last dripped (or was last reserved). */
  datatype State = State(address: map<Key, nat>, ip: map<Key, nat>)
  {
    function Last(k: Kind): (m: map<Key, nat>) { if k.Address? then address else ip }
  }

  const EMPTY: State := State(map[], map[])

  /** `file`: whether there is a disk copy. `required`: whether a failed write stops new reservations. */
  datatype Policy = Policy(addressWindow: nat, ipWindow: nat, file: bool, required: bool)
  {
    function Window(k: Kind): (w: nat) { if k.Address? then addressWindow else ipWindow }
  }

  datatype Denial = AddressCooldown(remaining: nat) | IpCooldown(remaining: nat) | PersistenceUnavailable

  predicate Cooling(last: map<Key, nat>, window: nat, key: Key, now: nat) {
    key in last && Elapsed(now, last[key]) < window
  }

  /** `check_in_state`: the address is looked at first. */
  function Check(s: State, p: Policy, addr: Key, ip: Key, now: nat): (d: Option<Denial>)
    ensures d.None? <==> forall k: Kind :: !Cooling(s.Last(k), p.Window(k), if k.Address? then addr else ip, now)
  {
    assert (forall k: Kind :: !Cooling(s.Last(k), p.Window(k), if k.Address? then addr else ip, now)) ==>
             !Cooling(s.Last(Address), p.Window(Address), addr, now) && !Cooling(s.Last(Ip), p.Window(Ip), ip, now);
    if addr in s.address && Elapsed(now, s.address[addr]) < p.addressWindow then
      Some(AddressCooldown(p.addressWindow - Elapsed(now, s.address[addr])))
    else if ip in s.ip && Elapsed(now, s.ip[ip]) < p.ipWindow then
      Some(IpCooldown(p.ipWindow - Elapsed(now, s.ip[ip])))
    else None
  }

  /** A key cools from the time it last dripped until its window has passed; the address is asked first, and
      the denial says how long the rest of the window is. */
  lemma CheckExactly(s: State, p: Policy, addr: Key, ip: Key, now: nat)
    ensures var coolsA := addr in s.address && now < s.address[addr] + p.addressWindow && p.addressWindow > 0;
      var coolsI := ip in s.ip && now < s.ip[ip] + p.ipWindow && p.ipWindow > 0;
      match Check(s, p, addr, ip, now)
      case None => !coolsA && !coolsI
      case Some(AddressCooldown(left)) =>
        coolsA && (s.address[addr] <= now ==> now + left == s.address[addr] + p.addressWindow)
        && (now < s.address[addr] ==> left == p.addressWindow)
      case Some(IpCooldown(left)) =>
        !coolsA && coolsI && (s.ip[ip] <= now ==> now + left == s.ip[ip] + p.ipWindow)
        && (now < s.ip[ip] ==> left == p.ipWindow)
      case Some(PersistenceUnavailable) => false
  {
  }

  /** The reported rest is exact: with the state as it is, the same refusal lasts until that time and no
      longer. */
  lemma RestIsExact(s: State, p: Policy, addr: Key, ip: Key, now: nat, later: nat)
    requires now <= later && (addr in s.address ==> s.address[addr] <= now) && (ip in s.ip ==> s.ip[ip] <= now)
    ensures match Check(s, p, addr, ip, now)
      case None => Check(s, p, addr, ip, later).None?
      case Some(AddressCooldown(left)) =>
        later < now + left <==>
          Check(s, p, addr, ip, later).Some? && Check(s, p, addr, ip, later).value.AddressCooldown?
      case Some(IpCooldown(left)) => later < now + left <==> Check(s, p, addr, ip, later).Some?
      case Some(PersistenceUnavailable) => false
  {
  }

  function Mark(s: State, addr: Key, ip: Key, at: nat): (s': State) {
    State(s.address[addr := at], s.ip[ip := at])
  }

  function Unmark(s: State, addr: Key, ip: Key): (s': State) {
    State(s.address - {addr}, s.ip - {ip})
  }

  /** How one `persist_to_disk` ends: a failure can come before or after the new file is in place. */
  datatype Write = Wrote | FailedBefore | FailedAfter

  function Published(disk: State, snapshot: State, w: Write): (d: State) {
    if w.FailedBefore? then disk else snapshot
  }

  class Cooldowns {
    const policy: Policy
    var mem: State
    var disk: State
    var healthy: bool

    constructor (policy: Policy, loaded: State)
      ensures this.policy == policy && mem == loaded && disk == loaded && healthy
    {
      this.policy := policy;
      mem, disk, healthy := loaded, loaded, true;
    }

    method RecoverPersistence(w: Write) returns (ok: bool)
      modifies this`disk, this`healthy
      ensures ok == (old(healthy) || !policy.file || w.Wrote?)
      ensures healthy == (old(healthy) || (policy.file && w.Wrote?))
      ensures disk == if old(healthy) || !policy.file then old(disk) else Published(old(disk), mem, w)
    {
      if healthy { return true; }
      if !policy.file { return true; }
      disk := Published(disk, mem, w);
      if w.Wrote? {
        healthy := true;
        return true;
      }
      return false;
    }

    method TryReserve(addr: Key, ip: Key, now: nat, w: Write) returns (d: Option<Denial>)
      modifies this
      ensures d == (if policy.required && !old(healthy) && policy.file && !w.Wrote? then Some(PersistenceUnavailable)
                    else Check(old(mem), policy, addr, ip, now))
      ensures mem == if d.None? then Mark(old(mem), addr, ip, now) else old(mem)
      ensures disk ==
        if policy.required && policy.file && !old(healthy) then Published(old(disk), old(mem), w) else old(disk)
      ensures healthy == (old(healthy) || (policy.required && policy.file && w.Wrote?))
    {
      if policy.required {
        var ok := RecoverPersistence(w);
        if !ok { return Some(PersistenceUnavailable); }
      }
      d := Check(mem, policy, addr, ip, now);
      if d.None? { mem := Mark(mem, addr, ip, now); }
    }

    method Release(addr: Key, ip: Key)
      modifies this`mem
      ensures mem == Unmark(old(mem), addr, ip)
    {
      mem := Unmark(mem, addr, ip);
    }

    method RecordSuccess(addr: Key, ip: Key, now: nat, w: Write)
      modifies this
      ensures mem == Mark(old(mem), addr, ip, now)
      ensures disk == if policy.file then Published(old(disk), mem, w) else old(disk)
      ensures healthy == (old(healthy) && (!policy.file || !policy.required || w.Wrote?))
    {
      mem := Mark(mem, addr, ip, now);
      if !policy.file { return; }
      disk := Published(disk, mem, w);
      if !w.Wrote? && policy.required { healthy := false; }
    }
  }

  /** No check from `t` on can tell the two states apart. */
  ghost predicate SameAnswers(p: Policy, s: State, s': State, t: nat) {
    forall addr: Key, ip: Key, now: nat :: now >= t ==> Check(s, p, addr, ip, now) == Check(s', p, addr, ip, now)
  }

  /** What another request may do to the state meanwhile. */
  datatype Change = Marked(addr: Key, ip: Key, at: nat) | Unmarked(addr: Key, ip: Key)

  function Apply(s: State, cs: seq<Change>): (s': State) {
    if cs == [] then s
    else
      var t := Apply(s, cs[..|cs| - 1]);
      match cs[|cs| - 1]
      case Marked(a, i, at) => Mark(t, a, i, at)
      case Unmarked(a, i) => Unmark(t, a, i)
  }

  ghost predicate AgreeOff(s: State, s': State, addr: Key, ip: Key) {
    && (forall a :: a != addr ==>
          (a in s.address <==> a in s'.address) && (a in s.address ==> s.address[a] == s'.address[a]))
    && (forall i :: i != ip ==> (i in s.ip <==> i in s'.ip) && (i in s.ip ==> s.ip[i] == s'.ip[i]))
  }

  lemma {:induction false} ChangesAgreeOff(s: State, s': State, addr: Key, ip: Key, cs: seq<Change>)
    requires AgreeOff(s, s', addr, ip) && forall c :: c in cs ==> c.addr != addr && c.ip != ip
    ensures AgreeOff(Apply(s, cs), Apply(s', cs), addr, ip)
    ensures Kept(s.address, Apply(s, cs).address, addr) && Kept(s.ip, Apply(s, cs).ip, ip)
    ensures Kept(s'.address, Apply(s', cs).address, addr) && Kept(s'.ip, Apply(s', cs).ip, ip)
  {
    if cs != [] {
      assert cs[|cs| - 1] in cs;
      ChangesAgreeOff(s, s', addr, ip, cs[..|cs| - 1]);
    }
  }

  ghost predicate Kept(m: map<Key, nat>, m': map<Key, nat>, key: Key) {
    (key in m <==> key in m') && (key in m ==> m[key] == m'[key])
  }

  /** A failed drip leaves no trace: reserving and later releasing, with whatever callers of other keys did in
      between, answers every later check as if the request had never been made. (`OneDrip.OnlyHoldersCool`
      says it for callers that share the address or the IP.) */
  lemma FailedDripLeavesNoTrace(p: Policy, s: State, addr: Key, ip: Key, now: nat, cs: seq<Change>)
    requires Check(s, p, addr, ip, now).None?
    requires forall c :: c in cs ==> c.addr != addr && c.ip != ip
    ensures SameAnswers(p, Unmark(Apply(Mark(s, addr, ip, now), cs), addr, ip), Apply(s, cs), now)
  {
    hide Check;
    var u := Apply(Mark(s, addr, ip, now), cs);
    var v := Apply(s, cs);
    ChangesAgreeOff(s, Mark(s, addr, ip, now), addr, ip, cs);
    forall a: Key, i: Key, t: nat | t >= now ensures Check(Unmark(u, addr, ip), p, a, i, t) == Check(v, p, a, i, t) {
      ExpiredIsAbsent(p, s, addr, ip, now);
      SameCooling(p, Unmark(u, addr, ip), v, a, i, t);
    }
  }

  lemma ExpiredIsAbsent(p: Policy, s: State, addr: Key, ip: Key, now: nat)
    requires Check(s, p, addr, ip, now).None?
    ensures addr in s.address ==> Elapsed(now, s.address[addr]) >= p.addressWindow
    ensures ip in s.ip ==> Elapsed(now, s.ip[ip]) >= p.ipWindow
  {
  }

  /** A check reads nothing but the two entries, and those only while they cool. */
  lemma SameCooling(p: Policy, s: State, s': State, addr: Key, ip: Key, t: nat)
    requires Cooling(s.address, p.addressWindow, addr, t) == Cooling(s'.address, p.addressWindow, addr, t)
    requires Cooling(s.ip, p.ipWindow, ip, t) == Cooling(s'.ip, p.ipWindow, ip, t)
    requires Cooling(s.address, p.addressWindow, addr, t) ==> s.address[addr] == s'.address[addr]
    requires Cooling(s.ip, p.ipWindow, ip, t) ==> s.ip[ip] == s'.ip[ip]
    ensures Check(s, p, addr, ip, t) == Check(s', p, addr, ip, t)
  {
  }
}
