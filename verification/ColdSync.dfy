/** Cold sync: a requester that repeatedly asks a server for blocks and settles what comes back. */
module ColdSync {
  import opened Blocks
  import opened Gate
  import opened Stores
  import opened Admission
  import opened Fixpoint
  import opened LeastFixpoint
  import opened Serve

  /** A server's archive: canonical copies, each accepted by the gate and by strict VRF against the
      archive itself, so every parent is there. */
  ghost predicate Servable(r: Rules, s: Chain) {
    && ChainOk(s)
    && (forall k :: k in s.blocks ==>
          Canonical(r, s.blocks[k]) && Judge(r, s.blocks, s.blocks[k]).Pass? && VrfAdmits(r, s.blocks, s.blocks[k]))
  }

  ghost predicate Contiguous(s: Chain) {
    forall h :: 0 <= h <= s.latest ==> AtHeight(s.blocks, h) != {}
  }

  /** The requester refuses none of the server's blocks outright. */
  ghost predicate Welcome(r: Rules, w: set<Hash>, s: Chain) {
    forall k :: k in s.blocks ==>
      !WithdrawnHit(w, s.blocks[k]) && !CheckpointRefuses(r, s.blocks[k].header.height, s.blocks[k].hash)
  }

  /** Served copies, none below the requester's own pruning floor. */
  ghost predicate ServedTo(n: Node, s: Chain, out: seq<Block>) {
    forall b :: b in out ==> b.hash in s.blocks && s.blocks[b.hash] == b && PrunedBelow(n.dag) <= b.header.height
  }

  ghost predicate Supplied(n: Node, out: seq<Block>, p: Hash) {
    p == ZERO_HASH || p in n.dag.blocks || exists c :: c in out && c.hash == p
  }

  /** Each served block the requester lacks has every parent held already or served beside it. */
  ghost predicate Fed(n: Node, out: seq<Block>) {
    forall b :: b in out && !InBoth(n, b.hash) ==> forall p :: p in b.Parents() ==> Supplied(n, out, p)
  }

  lemma {:induction false} PassKeepsWithdrawn(r: Rules, s: Run, pending: seq<Block>)
    requires forall b :: b in pending ==> !WithdrawnHit(s.node.withdrawn, b)
    ensures OnePass(r, s, pending).node.withdrawn == s.node.withdrawn
    ensures forall b :: b in OnePass(r, s, pending).deferred ==> b in pending
  {
    hide AdmitStep, WithdrawnHit;
    if pending != [] {
      var init, b := pending[..|pending| - 1], pending[|pending| - 1];
      PassKeepsWithdrawn(r, s, init);
      UnhitKeepsWithdrawn(r, OnePass(r, s, init).node, b);
    }
  }

  lemma UnhitKeepsWithdrawn(r: Rules, n: Node, b: Block)
    requires !WithdrawnHit(n.withdrawn, b)
    ensures AdmitStep(r, n, b).node.withdrawn == n.withdrawn
  {
    hide AdmitStep;
    AdmitEffect(r, n, b);
  }

  lemma {:induction false} SettleKeepsWithdrawn(r: Rules, s: Run, pending: seq<Block>)
    requires forall b :: b in pending ==> !WithdrawnHit(s.node.withdrawn, b)
    ensures ToFixpoint(r, s, pending).node.withdrawn == s.node.withdrawn
    decreases |pending|
  {
    hide OnePass, WithdrawnHit;
    PassKeepsWithdrawn(r, s, pending);
    var p := OnePass(r, s, pending);
    if p.progressed { SettleKeepsWithdrawn(r, p, p.deferred); }
  }

  lemma CanonicalIngest(r: Rules, b: Block)
    requires Canonical(r, b)
    ensures SidecarIngest(r, b) == Store(b)
  {
  }

  /** A server block's parents are server blocks of lower blue score, except genesis's sentinel. */
  lemma ServerParents(r: Rules, s: Chain, b: Block)
    requires Collisionless(r) && Servable(r, s) && b.hash in s.blocks && s.blocks[b.hash] == b
    ensures IsGenesis(r, b) || forall p :: p in b.Parents() ==>
      p != ZERO_HASH && p in s.blocks && s.blocks[p].hash == p && s.blocks[p].header.blueScore < b.header.blueScore
  {
    hide Judge, Canonical, VrfAdmits;
    if !IsGenesis(r, b) {
      PassParents(r, s.blocks, b);
      forall p | p in b.Parents() ensures p != ZERO_HASH { ServerHash(r, s, p); }
    }
  }

  lemma ServerHash(r: Rules, s: Chain, p: Hash)
    requires Collisionless(r) && Servable(r, s) && p in s.blocks
    ensures p != ZERO_HASH && HashRecomputes(r, s.blocks[p]) && s.blocks[p].hash == p
  {
    assert Canonical(r, s.blocks[p]);
  }

  /** Against any store, a server block is never judged invalid, and once its parents are held it is
      accepted there exactly as it was at the server. */
  lemma ServerVerdict(r: Rules, s: Chain, d: DagMap, b: Block)
    requires Collisionless(r) && Servable(r, s) && b.hash in s.blocks && s.blocks[b.hash] == b && Keyed(r, d)
    ensures !Judge(r, d, b).Invalid?
    ensures (forall p :: p in b.Parents() ==> p == ZERO_HASH || p in d) ==> Judge(r, d, b).Pass?
    ensures Judge(r, d, b).Pass? ==> VrfAdmits(r, d, b)
  {
    hide Judge, Canonical;
    ServerParents(r, s, b);
    if IsGenesis(r, b) {
      PassMeans(r, d, b);
    } else {
      var e := map p | p in d && p in s.blocks :: d[p];
      forall p | p in e ensures e[p].header == s.blocks[p].header {
        ServerHash(r, s, p);
        SameHashSameHeader(r, d[p], s.blocks[p]);
      }
      VerdictFrame(r, d, e, b);
      if !Judge(r, e, b).Missing? { VerdictStable(r, e, s.blocks, b); }
      if Judge(r, e, b).Missing? { MissingMeans(r, e, b); }
      if Judge(r, d, b).Pass? { PassParents(r, d, b); SelectedIsParent(b); }
    }
  }

  lemma SelectedIsParent(b: Block)
    ensures b.header.selectedParent in b.Parents()
  {
    assert b.Parents()[0] == b.header.selectedParent;
  }

  /** So a server block the requester does not refuse is admissible as soon as its parents are held. */
  lemma ServedAdmissible(r: Rules, n: Node, s: Chain, d: DagMap, b: Block)
    requires Collisionless(r) && Servable(r, s) && Welcome(r, n.withdrawn, s) && Keyed(r, d)
    requires b.hash in s.blocks && s.blocks[b.hash] == b && PrunedBelow(n.dag) <= b.header.height
    requires Judge(r, d, b).Pass?
    ensures Admissible(r, n, d, b)
  {
    hide Judge, VrfAdmits, WithdrawnHit, CheckpointRefuses;
    CanonicalIngest(r, b);
    ServerVerdict(r, s, d, b);
  }

  /** Blue score orders the round: every served block of a fed round ends up in the DAG. */
  lemma {:induction false} ServedReached(r: Rules, n: Node, s: Chain, out: seq<Block>, d: DagMap, b: Block)
    requires Collisionless(r) && Servable(r, s) && Welcome(r, n.withdrawn, s) && ServedTo(n, s, out) && Fed(n, out)
    requires Keyed(r, d) && n.dag.blocks.Keys <= d.Keys && Closed(r, n, d, out) && b in out
    ensures b.hash in d
    ensures InBoth(n, b.hash) || Admissible(r, n, d, b)
    decreases b.header.blueScore
  {
    hide Judge, Admissible, Servable, Welcome, IsGenesis, PrunedBelow;
    if !InBoth(n, b.hash) {
      ServerParents(r, s, b);
      if IsGenesis(r, b) { GenesisParents(r, b); }
      forall p | p in b.Parents() ensures p == ZERO_HASH || p in d {
        assert Supplied(n, out, p);
        if p != ZERO_HASH && p !in n.dag.blocks {
          var c :| c in out && c.hash == p;
          assert !IsGenesis(r, b);
          ServedReached(r, n, s, out, d, c);
        }
      }
      ServerVerdict(r, s, d, b);
      ServedAdmissible(r, n, s, d, b);
    }
  }

  lemma ServedKeepWithdrawn(r: Rules, n: Node, s: Chain, out: seq<Block>)
    requires Collisionless(r) && Ready(r, n) && Servable(r, s) && Welcome(r, n.withdrawn, s) && ServedTo(n, s, out)
    ensures Settle(r, n, out).node.withdrawn == n.withdrawn
  {
    hide ToFixpoint, WithdrawnHit, Judge, VrfAdmits, CheckpointRefuses, Sound, PrunedBelow;
    SettleKeepsWithdrawn(r, StartAt(n), out);
  }

  /** Nothing stays behind if and only if the round is fed; then everything served is stored. */
  lemma RoundExact(r: Rules, n: Node, s: Chain, out: seq<Block>)
    requires Collisionless(r) && Ready(r, n) && Servable(r, s) && Welcome(r, n.withdrawn, s) && ServedTo(n, s, out)
    ensures Settle(r, n, out).deferred == [] <==> Fed(n, out)
    ensures Fed(n, out) ==> forall b :: b in out ==> InBoth(Settle(r, n, out).node, b.hash)
  {
    hide Settle, Reached, Accounted, WaitsFor, Admissible, Servable, Welcome, ServedTo, Fed, Ready;
    ServedKeepWithdrawn(r, n, s, out);
    SettledIsClosed(r, n, out);
    if Fed(n, out) {
      FedRoundStores(r, n, s, out);
      NothingWaits(r, Settle(r, n, out));
    }
    if Settle(r, n, out).deferred == [] { EmptyRoundFed(r, n, s, out); }
  }

  lemma FedRoundStores(r: Rules, n: Node, s: Chain, out: seq<Block>)
    requires Collisionless(r) && Ready(r, n) && Servable(r, s) && Welcome(r, n.withdrawn, s) && ServedTo(n, s, out)
    requires Fed(n, out)
    ensures forall b :: b in out ==> InBoth(Settle(r, n, out).node, b.hash)
    ensures forall b :: b in Settle(r, n, out).deferred ==> b in out
  {
    hide Settle, Accounted, WaitsFor, Admissible, Servable, Welcome, ServedTo, Fed, Ready;
    hide Witnessed, WithdrawnHit, Remembers;
    ServedKeepWithdrawn(r, n, s, out);
    SettledIsClosed(r, n, out);
    var t := Settle(r, n, out).node;
    SoundKeyed(r, t);
    forall b | b in out && Admissible(r, n, t.dag.blocks, b) ensures InBoth(t, b.hash) {
      NotHit(r, n, t.dag.blocks, b);
    }
    forall b | b in out ensures InBoth(t, b.hash) {
      ServedReached(r, n, s, out, t.dag.blocks, b);
    }
  }

  lemma NotHit(r: Rules, n: Node, d: DagMap, b: Block)
    requires Admissible(r, n, d, b)
    ensures !WithdrawnHit(n.withdrawn, b)
  {
  }

  lemma NothingWaits(r: Rules, s: Run)
    requires WaitsFor(r, s) && forall b :: b in s.deferred ==> InBoth(s.node, b.hash)
    ensures s.deferred == []
  {
    SomeMember(s.deferred);
  }

  lemma EmptyRoundFed(r: Rules, n: Node, s: Chain, out: seq<Block>)
    requires Collisionless(r) && Ready(r, n) && Servable(r, s) && Welcome(r, n.withdrawn, s) && ServedTo(n, s, out)
    requires Settle(r, n, out).node.withdrawn == n.withdrawn && Settle(r, n, out).deferred == []
    ensures Fed(n, out)
  {
    hide Settle, WaitsFor, Servable, Welcome, Ready, Judge, Sound, Admissible, Settled;
    SettledIsClosed(r, n, out);
    var t := Settle(r, n, out).node;
    SoundKeyed(r, t);
    forall b, p | b in out && !InBoth(n, b.hash) && p in b.Parents() ensures Supplied(n, out, p) {
      StoredNotHopeless(r, n, s, t, b);
      var c :| c in out && c.hash == b.hash && Admissible(r, n, t.dag.blocks, c);
      assert c == b;
      AdmissibleParents(r, n, t.dag.blocks, b, p);
      if p != ZERO_HASH && p !in n.dag.blocks {
        var q :| q in out && q.hash == p && Admissible(r, n, t.dag.blocks, q);
      }
    }
  }

  lemma AdmissibleParents(r: Rules, n: Node, d: DagMap, b: Block, p: Hash)
    requires Admissible(r, n, d, b) && p in b.Parents()
    ensures p == ZERO_HASH || p in d
  {
    hide Judge;
    if IsGenesis(r, b) { GenesisParents(r, b); } else { PassParents(r, d, b); }
  }

  lemma StoredNotHopeless(r: Rules, n: Node, s: Chain, t: Node, b: Block)
    requires Collisionless(r) && Servable(r, s) && Welcome(r, n.withdrawn, s) && Keyed(r, t.dag.blocks)
    requires b.hash in s.blocks && s.blocks[b.hash] == b && PrunedBelow(n.dag) <= b.header.height
    requires Settled(r, n, t, b) && t.withdrawn == n.withdrawn
    ensures InBoth(t, b.hash)
  {
    hide Judge, VrfAdmits, WithdrawnHit, CheckpointRefuses;
    CanonicalIngest(r, b);
    ServerVerdict(r, s, t.dag.blocks, b);
  }

  ghost predicate HoldsBelow(n: Node, s: Chain, h: nat) {
    forall k :: k in s.blocks && s.blocks[k].header.height < h ==> InBoth(n, k)
  }

  /** A complete answer from a height-ordered server is fed when everything lower is held. */
  lemma AnswerIsFed(r: Rules, n: Node, s: Chain, start: nat, stop: nat, out: seq<Block>)
    requires Collisionless(r) && Servable(r, s) && HeightOrdered(s.blocks) && HoldsBelow(n, s, start)
    requires Complete(s.blocks, start, stop, out)
    ensures Fed(n, out)
  {
    hide Servable, IsGenesis;
    forall b, p | b in out && p in b.Parents() ensures Supplied(n, out, p) {
      ServerParents(r, s, b);
      if IsGenesis(r, b) {
        GenesisParents(r, b);
      } else if s.blocks[p].header.height >= start {
        assert s.blocks[p] in out;
      }
    }
  }

  /** One request and its answer. */
  datatype Round = Round(anchor: Hash, start: nat, count: nat, out: seq<Block>, stop: nat)

  ghost predicate Answered(r: Rules, s: Chain, x: Round) {
    && x.count >= 1 && x.start <= s.latest
    && ResolveStartInclusive(s, x.anchor, s.blocks.Keys) == Some(x.start)
    && Response(r, s, x.start, x.count, s.blocks.Keys, x.out, x.stop)
  }

  /** One round: nothing is deferred, every height up to `stop` is complete, and that is at least the
      height above the anchor's unless the anchor was at the tip. */
  lemma RoundProgress(r: Rules, n: Node, s: Chain, x: Round)
    requires Collisionless(r) && Ready(r, n) && Servable(r, s) && Welcome(r, n.withdrawn, s)
    requires Contiguous(s) && HeightOrdered(s.blocks) && Answered(r, s, x)
    requires HoldsBelow(n, s, x.start) && PrunedBelow(n.dag) <= x.start
    ensures var t := Settle(r, n, x.out);
      && t.deferred == []
      && HoldsBelow(t.node, s, x.stop)
      && Ready(r, t.node) && t.node.withdrawn == n.withdrawn && PrunedBelow(t.node.dag) == PrunedBelow(n.dag)
    ensures x.stop >= x.start + 1 && (x.start < s.latest ==> x.stop >= x.start + 2)
  {
    hide Settle, Servable, Welcome, HeightOrdered, Fed, Stopped, PrunedBelow;
    AnswerReachesNextHeight(r, s, x.start, x.count, s.blocks.Keys, x.out, x.stop);
    AnswerIsFed(r, n, s, x.start, x.stop, x.out);
    RoundExact(r, n, s, x.out);
    ServedKeepWithdrawn(r, n, s, x.out);
    AfterRound(r, n, x.out);
    var t := Settle(r, n, x.out).node;
    forall k | k in s.blocks && s.blocks[k].header.height < x.stop ensures InBoth(t, k) {
      if s.blocks[k].header.height >= x.start {
        ServerHash(r, s, k);
        assert s.blocks[k] in x.out;
      }
    }
  }

  lemma AfterRound(r: Rules, n: Node, out: seq<Block>)
    requires Collisionless(r) && Ready(r, n)
    ensures var t := Settle(r, n, out).node;
      && Ready(r, t) && PrunedBelow(t.dag) == PrunedBelow(n.dag)
      && n.dag.blocks.Keys <= t.dag.blocks.Keys && n.chain.blocks.Keys <= t.chain.blocks.Keys
  {
    hide Settle, Witnessed, Accounted, WaitsFor, Admissible, Sound, Remembers;
    SettledIsClosed(r, n, out);
    var t := Settle(r, n, out).node;
    FloorUnmoved(r, n, out, t);
  }

  /** The requester's rounds: each later anchor is a block the previous answer brought above the
      previous anchor. */
  ghost predicate CatchUp(r: Rules, s: Chain, rounds: seq<Round>) {
    && (forall i :: 0 <= i < |rounds| ==> Answered(r, s, rounds[i]))
    && (forall i :: 0 < i < |rounds| ==> rounds[i - 1].start < rounds[i].start < rounds[i - 1].stop)
  }

  function After(r: Rules, n: Node, rounds: seq<Round>): (n': Node) {
    if rounds == [] then n
    else Settle(r, After(r, n, rounds[..|rounds| - 1]), rounds[|rounds| - 1].out).node
  }

  /** Cold sync converges: whatever the caps cut off, after as many rounds as there are heights above
      the first anchor (one, if there are none) the requester holds every block of the server. */
  lemma {:induction false} ConvergesInOrder(r: Rules, n: Node, s: Chain, rounds: seq<Round>)
    requires Collisionless(r) && Ready(r, n) && Servable(r, s) && Welcome(r, n.withdrawn, s)
    requires Contiguous(s) && HeightOrdered(s.blocks) && rounds != [] && CatchUp(r, s, rounds)
    requires HoldsBelow(n, s, rounds[0].start) && PrunedBelow(n.dag) <= rounds[0].start
    ensures var t := After(r, n, rounds);
      && HoldsBelow(t, s, rounds[|rounds| - 1].stop)
      && Ready(r, t) && t.withdrawn == n.withdrawn && PrunedBelow(t.dag) == PrunedBelow(n.dag)
    ensures rounds[|rounds| - 1].start >= rounds[0].start + |rounds| - 1
    ensures |rounds| >= s.latest - rounds[0].start ==>
      forall k :: k in s.blocks ==> InBoth(After(r, n, rounds), k)
  {
    hide Settle, Servable, Welcome, HeightOrdered, Answered, PrunedBelow, Contiguous;
    var last := rounds[|rounds| - 1];
    var init := rounds[..|rounds| - 1];
    if init != [] { ConvergesInOrder(r, n, s, init); }
    var m := After(r, n, init);
    RoundProgress(r, m, s, last);
    TipIsHighest(r, s);
    RoundStart(r, s, last);
  }

  lemma TipIsHighest(r: Rules, s: Chain)
    requires Servable(r, s)
    ensures forall k :: k in s.blocks ==> s.blocks[k].header.height <= s.latest
  {
  }

  lemma RoundStart(r: Rules, s: Chain, x: Round)
    requires Answered(r, s, x)
    ensures x.start <= s.latest
  {
  }

  /** A DAG every block of which the gate accepts. */
  ghost predicate Accepted(r: Rules, d: DagMap) {
    Keyed(r, d) && forall k :: k in d ==> Judge(r, d, d[k]).Pass?
  }

  /** Canonical copies, none above height `n`. */
  ghost predicate Upto(r: Rules, d: DagMap, n: nat) {
    forall k :: k in d ==> Canonical(r, d[k]) && d[k].header.height <= n
  }

  ghost predicate Holds(d: DagMap, b: Block) { b.hash in d && d[b.hash].header == b.header }

  /** An accepted DAG grows by any child whose merge parents are distinct, no heavier than its
      selected parent and not deep. */
  lemma AddChild(r: Rules, d: DagMap, sp: Block, merges: seq<Block>, score: nat, salt: nat)
    returns (b: Block, d': DagMap)
    requires Collisionless(r) && Accepted(r, d) && Holds(d, sp) && |merges| < r.maxParents
    requires sp.header.blueScore + 1 <= score <= sp.header.blueScore + 1 + |merges|
    requires forall i, j :: 0 <= i < j < |merges| ==> merges[i].hash != merges[j].hash
    requires forall m :: m in merges ==>
      && Holds(d, m) && m.hash != sp.hash && m.header.blueScore <= sp.header.blueScore
      && sp.header.height <= m.header.height + 50
    ensures HashRecomputes(r, b) && b.header.height == sp.header.height + 1 && b.header.selectedParent == sp.hash
    ensures b.header.blueScore == score && b.header.rest == salt
    ensures forall m :: m in merges ==> m.hash in b.Parents()
    ensures Accepted(r, d') && Holds(d', b)
    ensures forall c :: Holds(d, c) ==> Holds(d', c)
    ensures forall n: nat :: Upto(r, d, n) && b.header.height <= n ==> Upto(r, d', n)
  {
    hide Judge, Accepted, Upto, Canonical;
    var hs := seq(|merges|, i requires 0 <= i < |merges| => merges[i].hash);
    b := Child(r, sp, hs, score, salt);
    d' := d[b.hash := b];
    ChildPasses(r, d, sp, merges, hs, b);
    AcceptedGrows(r, d, b);
    forall m | m in merges ensures m.hash in b.Parents() {
      var i :| 0 <= i < |merges| && merges[i] == m;
      assert b.Parents()[i + 1] == hs[i];
    }
  }

  lemma ChildPasses(r: Rules, d: DagMap, sp: Block, merges: seq<Block>, hs: seq<Hash>, b: Block)
    requires Collisionless(r) && Accepted(r, d) && Holds(d, sp) && |merges| < r.maxParents && HashRecomputes(r, b)
    requires |hs| == |merges| && forall i :: 0 <= i < |hs| ==> hs[i] == merges[i].hash
    requires b.header.height == sp.header.height + 1
    requires b.header.selectedParent == sp.hash && b.header.mergeParents == hs
    requires b.header.timestamp == sp.header.timestamp && b.header.blueWork == BlueWork(b.header.blueScore)
    requires sp.header.blueScore + 1 <= b.header.blueScore <= sp.header.blueScore + 1 + |merges|
    requires forall i, j :: 0 <= i < j < |merges| ==> merges[i].hash != merges[j].hash
    requires forall m :: m in merges ==>
      && Holds(d, m) && m.hash != sp.hash && m.header.blueScore <= sp.header.blueScore
      && sp.header.height <= m.header.height + 50
    ensures Judge(r, d, b).Pass?
  {
    hide Judge;
    assert b.hash !in hs by {
      forall i | 0 <= i < |hs| ensures hs[i] != b.hash {
        assert merges[i] in merges;
        Apart(r, d[hs[i]], b);
      }
    }
    assert sp.hash != ZERO_HASH;
    forall i | 0 <= i < |hs| ensures hs[i] in d && MergeParentOk(r, b.header, d[sp.hash].header, d[hs[i]].header) {
      assert merges[i] in merges;
    }
    PassMeans(r, d, b);
  }

  /** An accepted block keeps the DAG accepted, and what was held is held still. */
  lemma AcceptedGrows(r: Rules, d: DagMap, b: Block)
    requires Collisionless(r) && Accepted(r, d) && HashRecomputes(r, b) && Canonical(r, b) && Judge(r, d, b).Pass?
    ensures var d' := d[b.hash := b];
      && Accepted(r, d') && Holds(d', b) && (forall c :: Holds(d, c) ==> Holds(d', c))
      && (forall n: nat :: Upto(r, d, n) && b.header.height <= n ==> Upto(r, d', n))
  {
    hide Judge, Canonical;
    var d' := d[b.hash := b];
    KeyedExtends(r, d, d');
    VerdictStable(r, d, d', b);
    forall k | k in d' ensures Judge(r, d', d'[k]).Pass? {
      if k != b.hash { VerdictStable(r, d, d', d[k]); }
    }
  }

  lemma Apart(r: Rules, b: Block, c: Block)
    requires Collisionless(r) && HashRecomputes(r, b) && HashRecomputes(r, c) && b.header != c.header
    ensures b.hash != c.hash
  {
    if b.hash == c.hash { SameHashSameHeader(r, b, c); }
  }

  lemma ThreeChildren(r: Rules, g: Block) returns (a: Block, b: Block, c: Block, d: DagMap)
    requires Collisionless(r) && IsGenesis(r, g) && Canonical(r, g) && r.maxParents >= 3
    ensures Accepted(r, d) && Upto(r, d, 4) && Holds(d, g) && Holds(d, a) && Holds(d, b) && Holds(d, c)
    ensures a.hash != b.hash && a.hash != c.hash && b.hash != c.hash
    ensures forall x :: x in [a, b, c] ==> x.header.height == 1 && x.header.blueScore == g.header.blueScore + 1
  {
    hide Accepted, Holds, HashRecomputes, Upto;
    var s := g.header.blueScore;
    GenesisAccepted(r, g);
    d := map[g.hash := g];
    a, d := AddChild(r, d, g, [], s + 1, 1);
    b, d := AddChild(r, d, g, [], s + 1, 2);
    c, d := AddChild(r, d, g, [], s + 1, 3);
    Apart(r, a, b);
    Apart(r, a, c);
    Apart(r, b, c);
  }

  lemma GenesisAccepted(r: Rules, g: Block)
    requires IsGenesis(r, g) && Canonical(r, g)
    ensures Accepted(r, map[g.hash := g]) && Holds(map[g.hash := g], g) && Upto(r, map[g.hash := g], 4)
  {
  }

  /** The gate bounds a merge parent's blue score, not its height, so a DAG it accepts can hold a block `y`
      whose merge parent `p` is higher than the block itself. */
  lemma HigherMergeParent(r: Rules, g: Block) returns (d: DagMap, a: Block, x: Block, y: Block, p: Block)
    requires Collisionless(r) && IsGenesis(r, g) && Canonical(r, g) && r.maxParents >= 3
    ensures Accepted(r, d) && Upto(r, d, 4)
    ensures Holds(d, g) && Holds(d, a) && Holds(d, x) && Holds(d, y) && Holds(d, p)
    ensures a.header.height == 1 && x.header.height == 2 && y.header.height == 3 && p.header.height == 4
    ensures p.hash in y.Parents()
  {
    hide Accepted, Holds, HashRecomputes, Upto;
    var s := g.header.blueScore;
    var b1, c1, a2, a3;
    a, b1, c1, d := ThreeChildren(r, g);
    a2, d := AddChild(r, d, a, [], s + 2, 0);
    a3, d := AddChild(r, d, a2, [], s + 3, 0);
    p, d := AddChild(r, d, a3, [], s + 4, 0);
    x, d := AddChild(r, d, a, [b1, c1], s + 4, 0);
    Apart(r, p, x);
    y, d := AddChild(r, d, x, [p], s + 5, 0);
    assert p in [p];
  }

  /** A chain store with one indexed block per height and any others beside them. */
  lemma ServerOf(r: Rules, d: DagMap, g: Block, a: Block, x: Block, y: Block, p: Block) returns (s: Chain)
    requires Accepted(r, d) && Upto(r, d, 4) && !r.strictVrf
    requires Holds(d, g) && Holds(d, a) && Holds(d, x) && Holds(d, y) && Holds(d, p)
    requires g.header.height == 0 && a.header.height == 1 && x.header.height == 2
    requires y.header.height == 3 && p.header.height == 4
    ensures s.blocks == d && s.latest == 4 && Servable(r, s) && Contiguous(s)
  {
    hide Judge, Canonical;
    s := Chain(d, map[0 := g.hash, 1 := a.hash, 2 := x.hash, 3 := y.hash, 4 := p.hash], 4, None);
    assert g.hash in AtHeight(d, 0) && a.hash in AtHeight(d, 1) && x.hash in AtHeight(d, 2);
    assert y.hash in AtHeight(d, 3) && p.hash in AtHeight(d, 4);
  }

  /** A node that holds the blocks of `d` below height 2, in both stores. */
  lemma RequesterOf(r: Rules, d: DagMap, g: Block, a: Block) returns (n: Node)
    requires Accepted(r, d) && Upto(r, d, 4) && Holds(d, g) && Holds(d, a)
    requires g.header.height == 0 && a.header.height == 1
    ensures Ready(r, n) && n.withdrawn == {} && PrunedBelow(n.dag) == 0
    ensures forall k :: k in d && d[k].header.height < 2 <==> InBoth(n, k)
    ensures forall k :: k in n.dag.blocks ==> InBoth(n, k)
  {
    hide Judge, Canonical;
    var m := map k | k in d && d[k].header.height < 2 :: d[k];
    n := Node(Dag(m, ZERO_HASH), Chain(m, map[0 := g.hash, 1 := a.hash], 1, None), {});
  }

  /** Height order is needed: a server that lacks it, and an answer, true to everything `RoundProgress`
      asks for otherwise, after which the requester is left with a deferred block. */
  lemma HeightOrderIsNeeded(r: Rules, g: Block) returns (n: Node, s: Chain, x: Round)
    requires Collisionless(r) && IsGenesis(r, g) && Canonical(r, g) && r.maxParents >= 3
    requires !r.strictVrf && r.checkpoints == []
    ensures Ready(r, n) && Servable(r, s) && Welcome(r, n.withdrawn, s) && Contiguous(s) && Answered(r, s, x)
    ensures HoldsBelow(n, s, x.start) && PrunedBelow(n.dag) <= x.start
    ensures Settle(r, n, x.out).deferred != []
  {
    hide Accepted, Upto, Servable, Contiguous, Ready, Settle, IsGenesis, Canonical, Complete;
    var d, a, b, y, p := HigherMergeParent(r, g);
    assert g.header.height == 0 by { GenesisHeight(r, g); }
    s := ServerOf(r, d, g, a, b, y, p);
    n := RequesterOf(r, d, g, a);
    KeyedServer(r, s);
    var out := CompleteExists(d, 2, 3);
    x := Round(b.hash, 2, 1, out, 4);
    ServerHash(r, s, b.hash);
    AnswerOf(r, s, x);
    ServedOnly(d, 2, 4, out);
    assert ServedTo(n, s, out);
    assert !Fed(n, out) by { NotFed(r, n, s, out, y, p); }
    RoundExact(r, n, s, out);
  }

  lemma GenesisHeight(r: Rules, g: Block)
    requires IsGenesis(r, g)
    ensures g.header.height == 0
  {
  }

  lemma KeyedServer(r: Rules, s: Chain)
    requires Servable(r, s)
    ensures forall k :: k in s.blocks ==> s.blocks[k].hash == k
  {
  }

  lemma ServedOnly(d: DagMap, lo: nat, hi: nat, out: seq<Block>)
    requires Complete(d, lo, hi, out)
    ensures forall b :: b in out <==> b.hash in d && d[b.hash] == b && lo <= b.header.height < hi
  {
  }

  lemma AnswerOf(r: Rules, s: Chain, x: Round)
    requires s.latest == 4 && Contiguous(s) && x.count == 1 && x.start == 2 && x.stop == 4
    requires x.anchor in s.blocks && s.blocks[x.anchor].header.height == 2 && x.anchor != ZERO_HASH
    requires Complete(s.blocks, 2, 4, x.out)
    ensures Answered(r, s, x)
  {
    hide Complete, AtHeight;
  }

  lemma NotFed(r: Rules, n: Node, s: Chain, out: seq<Block>, y: Block, p: Block)
    requires Collisionless(r) && Servable(r, s) && Holds(s.blocks, y) && Holds(s.blocks, p)
    requires y.header.height == 3 && p.header.height == 4 && p.hash in y.Parents()
    requires Complete(s.blocks, 2, 4, out)
    requires forall k :: k in s.blocks && s.blocks[k].header.height < 2 <==> InBoth(n, k)
    requires forall k :: k in n.dag.blocks ==> InBoth(n, k)
    ensures !Fed(n, out)
  {
    hide Servable;
    ServerHash(r, s, p.hash);
    ServerHash(r, s, y.hash);
    var b := s.blocks[y.hash];
    assert b in out && !InBoth(n, b.hash) && p.hash in b.Parents();
    assert !Supplied(n, out, p.hash);
  }
}
