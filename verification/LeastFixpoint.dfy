/** What a settled batch stores, said without the loop: the least set that contains the node's
    blocks and is closed under admitting the batch. */
module LeastFixpoint {
  import opened Blocks
  import opened Gate
  import opened Stores
  import opened Admission
  import opened Fixpoint

  /** `b` could be admitted by a node that started as `n0` once its DAG store holds `d`. */
  ghost predicate Admissible(r: Rules, n0: Node, d: DagMap, b: Block) {
    && !WithdrawnHit(n0.withdrawn, b)
    && !CheckpointRefuses(r, b.header.height, b.hash)
    && !PrunedHere(n0, b)
    && Cleared(r, d, b)
    && (b.hash in d || VrfAdmits(r, d, SidecarIngest(r, b).copy))
  }

  ghost predicate Closed(r: Rules, n0: Node, d: DagMap, batch: seq<Block>) {
    forall b :: b in batch && Admissible(r, n0, d, b) ==> b.hash in d
  }

  ghost function HashSet(batch: seq<Block>): (s: set<Hash>) { set b | b in batch :: b.hash }

  /** The node, having remembered the hashes `v`, would remember `b` next. */
  ghost predicate NextHit(batch: seq<Block>, v: set<Hash>, b: Block) {
    b in batch && BuiltOn(v, b) && b.hash !in v
  }

  /** Blocks of the batch that a node with withdrawn set `w` would remember one after the other: each is
      built on `w` or on an earlier one, and there is room for them all. */
  ghost predicate Chained(w: set<Hash>, batch: seq<Block>, cs: seq<Block>) {
    && (cs != [] ==> |w + HashSet(cs)| <= MAX_WITHDRAWN)
    && forall i :: 0 <= i < |cs| ==> NextHit(batch, w + HashSet(cs[..i]), cs[i])
  }

  /** `v` is a withdrawn set that `batch` can lead to from `w`. */
  ghost predicate Remembers(w: set<Hash>, batch: seq<Block>, v: set<Hash>) {
    exists cs :: Chained(w, batch, cs) && v == w + HashSet(cs)
  }

  lemma RemembersNone(w: set<Hash>, batch: seq<Block>)
    ensures Remembers(w, batch, w)
  {
    assert Chained(w, batch, []) && w == w + HashSet([]);
  }

  lemma HashSetSnoc(cs: seq<Block>, b: Block)
    ensures HashSet(cs + [b]) == HashSet(cs) + {b.hash}
  {
  }

  lemma ChainGrows(w: set<Hash>, batch: seq<Block>, cs: seq<Block>, b: Block)
    requires Chained(w, batch, cs) && NextHit(batch, w + HashSet(cs), b) && |w + HashSet(cs)| < MAX_WITHDRAWN
    ensures Chained(w, batch, cs + [b])
  {
    hide NextHit, HashSet;
    var ds := cs + [b];
    HashSetSnoc(cs, b);
    assert w + HashSet(ds) == (w + HashSet(cs)) + {b.hash};
    forall i | 0 <= i < |ds| ensures NextHit(batch, w + HashSet(ds[..i]), ds[i]) {
      if i < |cs| { assert ds[..i] == cs[..i]; } else { assert ds[..i] == cs; }
    }
  }

  lemma RemembersMore(w: set<Hash>, batch: seq<Block>, v: set<Hash>, b: Block)
    requires Remembers(w, batch, v) && b in batch && BuiltOn(v, b) && b.hash !in v && |v| < MAX_WITHDRAWN
    ensures Remembers(w, batch, v + {b.hash})
  {
    hide BuiltOn, HashSet, Chained;
    var cs :| Chained(w, batch, cs) && v == w + HashSet(cs);
    ChainGrows(w, batch, cs, b);
    HashSetSnoc(cs, b);
    assert v + {b.hash} == w + HashSet(cs + [b]);
  }

  /** `n` was reached from `n0` by deliveries of blocks of `batch`. */
  ghost predicate Reached(r: Rules, n0: Node, batch: seq<Block>, n: Node) {
    && Sound(r, n0) && Sound(r, n)
    && (n0.dag.pruningPoint == ZERO_HASH || n0.dag.pruningPoint in n0.dag.blocks)
    && n.dag.pruningPoint == n0.dag.pruningPoint
    && n0.dag.blocks.Keys <= n.dag.blocks.Keys && n0.chain.blocks.Keys <= n.chain.blocks.Keys
    && (forall h :: h in n.dag.blocks && h !in n0.dag.blocks ==> h in n.chain.blocks)
    && (forall h :: h in n.chain.blocks && h !in n0.chain.blocks ==> h in n.dag.blocks)
    && n0.withdrawn <= n.withdrawn && Remembers(n0.withdrawn, batch, n.withdrawn)
    && Witnessed(r, n0, batch, n)
  }

  /** Every block the run added to either store is one the batch could admit. */
  ghost predicate Witnessed(r: Rules, n0: Node, batch: seq<Block>, n: Node) {
    forall h :: (h in n.chain.blocks && h !in n0.chain.blocks) || (h in n.dag.blocks && h !in n0.dag.blocks) ==>
      exists b :: b in batch && b.hash == h && Admissible(r, n0, n.dag.blocks, b)
  }

  /** What could be admitted still could after the store grew. */
  lemma AdmissibleGrows(r: Rules, n0: Node, d: DagMap, e: DagMap, b: Block)
    requires Collisionless(r) && Keyed(r, d) && Keyed(r, e) && d.Keys <= e.Keys && Admissible(r, n0, d, b)
    ensures Admissible(r, n0, e, b)
  {
    hide Judge, VerifyBody, PrunedHere;
    KeyedExtends(r, d, e);
    VerdictStable(r, d, e, b);
    PassMeans(r, d, b);
    if IsGenesis(r, b) { GenesisStores(r, e, b); } else { VrfStable(r, d, e, SidecarIngest(r, b).copy); }
  }

  lemma SoundKeyed(r: Rules, n: Node)
    requires Sound(r, n)
    ensures Keyed(r, n.dag.blocks)
  {
  }

  /** Everything about an admitted block that makes it admissible for the run. */
  lemma AdmittedIsAdmissible(r: Rules, n0: Node, batch: seq<Block>, n: Node, b: Block)
    requires Collisionless(r) && Reached(r, n0, batch, n) && AdmitStep(r, n, b).outcome.Admitted?
    ensures Admissible(r, n0, n.dag.blocks, b)
  {
    hide AdmitStep, Judge, VerifyBody, Witnessed, VrfAdmits, Sound;
    AdmitEffect(r, n, b);
    NotHitBefore(n0, n, b);
    FloorUnmoved(r, n0, batch, n);
  }

  lemma StepWitnessed(r: Rules, n0: Node, batch: seq<Block>, n: Node, b: Block)
    requires Collisionless(r) && b in batch && Reached(r, n0, batch, n)
    ensures Witnessed(r, n0, batch, AdmitStep(r, n, b).node)
  {
    hide AdmitStep, Judge, Admissible, Sound;
    AdmitEffect(r, n, b);
    AdmitKeepsSound(r, n, b);
    var n' := AdmitStep(r, n, b).node;
    SoundKeyed(r, n);
    SoundKeyed(r, n');
    forall h | (h in n'.chain.blocks && h !in n0.chain.blocks) || (h in n'.dag.blocks && h !in n0.dag.blocks)
      ensures exists c :: c in batch && c.hash == h && Admissible(r, n0, n'.dag.blocks, c)
    {
      var before := (h in n.chain.blocks && h !in n0.chain.blocks) || (h in n.dag.blocks && h !in n0.dag.blocks);
      if !before { AdmittedIsAdmissible(r, n0, batch, n, b); }
      var c :| c in batch && c.hash == h && Admissible(r, n0, n.dag.blocks, c);
      AdmissibleGrows(r, n0, n.dag.blocks, n'.dag.blocks, c);
    }
  }

  lemma ReachedStep(r: Rules, n0: Node, batch: seq<Block>, n: Node, b: Block)
    requires Collisionless(r) && b in batch && Reached(r, n0, batch, n)
    ensures Reached(r, n0, batch, AdmitStep(r, n, b).node)
  {
    hide AdmitStep, Judge, Sound, Witnessed, Remembers;
    AdmitEffect(r, n, b);
    AdmitKeepsSound(r, n, b);
    StepWitnessed(r, n0, batch, n, b);
    if AdmitStep(r, n, b).node.withdrawn != n.withdrawn {
      RoomToRemember(r, n, b);
      RemembersMore(n0.withdrawn, batch, n.withdrawn, b);
    }
  }

  lemma RoomToRemember(r: Rules, n: Node, b: Block)
    requires AdmitStep(r, n, b).node.withdrawn != n.withdrawn
    ensures b.hash !in n.withdrawn && |n.withdrawn| < MAX_WITHDRAWN
  {
    hide Judge, VerifyBody, VrfAdmits, BuiltOn, CheckpointRefuses;
  }

  /** No later state of the run can admit `b`. */
  ghost predicate Hopeless(r: Rules, n0: Node, n: Node, b: Block) {
    || WithdrawnHit(n.withdrawn, b)
    || CheckpointRefuses(r, b.header.height, b.hash)
    || PrunedHere(n0, b)
    || Judge(r, n.dag.blocks, b).Invalid?
    || !VerifyBody(r, b)
    || SidecarIngest(r, b).Refused?
    || (Judge(r, n.dag.blocks, b).Pass? && b.hash !in n.dag.blocks
        && !VrfAdmits(r, n.dag.blocks, SidecarIngest(r, b).copy))
  }

  ghost predicate Settled(r: Rules, n0: Node, n: Node, b: Block) {
    InBoth(n, b.hash) || Hopeless(r, n0, n, b)
  }

  /** `n'` is `n` or a later state of the same run. */
  ghost predicate Later(n: Node, n': Node) {
    && n.dag.blocks.Keys <= n'.dag.blocks.Keys && n.chain.blocks.Keys <= n'.chain.blocks.Keys
    && n.withdrawn <= n'.withdrawn
  }

  lemma StepIsLater(r: Rules, n: Node, b: Block)
    ensures Later(n, AdmitStep(r, n, b).node)
  {
    hide AdmitStep, Judge;
    AdmitEffect(r, n, b);
  }

  lemma VrfStable(r: Rules, d: DagMap, e: DagMap, b: Block)
    requires Extends(d, e) && b.header.selectedParent in d
    ensures VrfAdmits(r, d, b) == VrfAdmits(r, e, b)
  {
  }

  lemma SettledStays(r: Rules, n0: Node, batch: seq<Block>, n: Node, n': Node, b: Block)
    requires Collisionless(r) && Reached(r, n0, batch, n) && Reached(r, n0, batch, n') && Later(n, n')
    requires Settled(r, n0, n, b)
    ensures Settled(r, n0, n', b)
  {
    hide Judge, VerifyBody, VrfAdmits, Witnessed;
    KeyedExtends(r, n.dag.blocks, n'.dag.blocks);
    if !Judge(r, n.dag.blocks, b).Missing? {
      VerdictStable(r, n.dag.blocks, n'.dag.blocks, b);
      if SidecarIngest(r, b).Store? && Judge(r, n.dag.blocks, b).Pass?
        && !VrfAdmits(r, n.dag.blocks, SidecarIngest(r, b).copy) {
        var copy := SidecarIngest(r, b).copy;
        if b.header.selectedParent in n.dag.blocks {
          VrfStable(r, n.dag.blocks, n'.dag.blocks, copy);
        } else {
          PassMeans(r, n.dag.blocks, b);
          GenesisStores(r, n.dag.blocks, b);
        }
      }
    }
  }

  /** The floor is the one the run started with. */
  lemma FloorUnmoved(r: Rules, n0: Node, batch: seq<Block>, n: Node)
    requires Collisionless(r) && Reached(r, n0, batch, n)
    ensures PrunedBelow(n.dag) == PrunedBelow(n0.dag)
  {
    KeyedExtends(r, n0.dag.blocks, n.dag.blocks);
  }

  /** One delivery settles its block unless it names a missing parent. */
  lemma DeliverySettles(r: Rules, n0: Node, batch: seq<Block>, n: Node, b: Block)
    requires Collisionless(r) && Reached(r, n0, batch, n)
    ensures var a := AdmitStep(r, n, b);
      if a.outcome.Deferred? then Judge(r, n.dag.blocks, b) == Missing(a.outcome.missingParent) && !InBoth(n, b.hash)
      else Settled(r, n0, a.node, b)
  {
    hide Sound, VerifyBody, VrfAdmits, Judge, Witnessed;
    FloorUnmoved(r, n0, batch, n);
    AdmitEffect(r, n, b);
  }

  /** Every block of the batch is still to be tried or settled. */
  ghost predicate Accounted(r: Rules, n0: Node, n: Node, batch: seq<Block>, pending: seq<Block>) {
    forall b :: b in batch ==> b in pending || Settled(r, n0, n, b)
  }

  /** The record under `h` is that of `b`: its height, and the absent parent the gate names for it. */
  ghost predicate RecordedFor(r: Rules, s: Run, h: Hash, b: Block) {
    && h in s.waitingOn && b.hash == h && s.waitingOn[h].height == b.header.height
    && Judge(r, s.node.dag.blocks, b) == Missing(s.waitingOn[h].missing)
    && s.waitingOn[h].missing in b.Parents() && s.waitingOn[h].missing !in s.node.dag.blocks
  }

  /** The record of a pass that admitted nothing: its deferred blocks each miss a parent the store
      really lacks, and the record has exactly their hashes, each with the height and the missing parent of
      such a block. */
  ghost predicate WaitsFor(r: Rules, s: Run) {
    && (forall b :: b in s.deferred ==>
          b.hash in s.waitingOn && !InBoth(s.node, b.hash) && Judge(r, s.node.dag.blocks, b).Missing?)
    && (forall h :: h in s.waitingOn ==> HasRecord(r, s, h))
  }

  ghost predicate HasRecord(r: Rules, s: Run, h: Hash) { exists b :: b in s.deferred && RecordedFor(r, s, h, b) }

  /** One delivery inside a pass. */
  lemma BlockInPass(r: Rules, n0: Node, batch: seq<Block>, s: Run, b: Block)
    requires Collisionless(r) && Reached(r, n0, batch, s.node) && b in batch
    ensures var s' := OneBlock(r, s, b);
      && Reached(r, n0, batch, s'.node) && Later(s.node, s'.node)
      && (b in s'.deferred || Settled(r, n0, s'.node, b))
      && (s'.progressed || (s'.node.dag == s.node.dag && s'.node.chain == s.node.chain && !s.progressed))
      && (WaitsFor(r, s) && !s'.progressed ==> WaitsFor(r, s'))
  {
    hide AdmitStep, Judge, Settled, Reached;
    ReachedStep(r, n0, batch, s.node, b);
    DeliverySettles(r, n0, batch, s.node, b);
    StepIsLater(r, s.node, b);
    AdmitEffect(r, s.node, b);
    if AdmitStep(r, s.node, b).outcome.Deferred? {
      MissingMeans(r, s.node.dag.blocks, b);
      DeferralNames(r, s.node, b);
    }
    if WaitsFor(r, s) && !OneBlock(r, s, b).progressed {
      hide WaitsFor;
      WaitGrows(r, s, OneBlock(r, s, b), b);
    }
  }

  lemma DeferralNames(r: Rules, n: Node, b: Block)
    requires AdmitStep(r, n, b).outcome.Deferred?
    ensures Judge(r, n.dag.blocks, b) == Missing(AdmitStep(r, n, b).outcome.missingParent) && !InBoth(n, b.hash)
  {
    hide Judge, VerifyBody, VrfAdmits, WithdrawnHit, CheckpointRefuses;
  }

  lemma WaitGrows(r: Rules, s: Run, s': Run, b: Block)
    requires WaitsFor(r, s) && s'.node.dag == s.node.dag && s'.node.chain == s.node.chain
    requires
      || (s'.deferred == s.deferred && s'.waitingOn == s.waitingOn)
      || (&& !InBoth(s.node, b.hash) && RecordedFor(r, s', b.hash, b)
          && s'.deferred == s.deferred + [b] && s'.waitingOn.Keys == s.waitingOn.Keys + {b.hash}
          && forall h :: h in s.waitingOn && h != b.hash ==> s'.waitingOn[h] == s.waitingOn[h])
    ensures WaitsFor(r, s')
  {
    JudgedMissing(r, s', b);
    hide Judge, RecordedFor, HasRecord;
    forall h | h in s'.waitingOn ensures HasRecord(r, s', h) {
      if h in s.waitingOn && s'.waitingOn[h] == s.waitingOn[h] {
        RecordCarries(r, s, s', h, b);
      } else {
        FreshRecord(r, s', b);
      }
    }
  }

  lemma RecordCarries(r: Rules, s: Run, s': Run, h: Hash, b: Block)
    requires HasRecord(r, s, h) && s'.node.dag == s.node.dag
    requires h in s.waitingOn && h in s'.waitingOn && s'.waitingOn[h] == s.waitingOn[h]
    requires s'.deferred == s.deferred || s'.deferred == s.deferred + [b]
    ensures HasRecord(r, s', h)
  {
    hide RecordedFor;
    var c :| c in s.deferred && RecordedFor(r, s, h, c);
    RecordStays(r, s, s', h, c);
    assert c in s'.deferred;
  }

  lemma FreshRecord(r: Rules, s: Run, b: Block)
    requires s.deferred != [] && s.deferred[|s.deferred| - 1] == b && RecordedFor(r, s, b.hash, b)
    ensures HasRecord(r, s, b.hash)
  {
    hide RecordedFor;
    assert b in s.deferred;
  }

  lemma JudgedMissing(r: Rules, s: Run, b: Block)
    ensures RecordedFor(r, s, b.hash, b) ==> Judge(r, s.node.dag.blocks, b).Missing? && b.hash in s.waitingOn
  {
    hide Judge;
  }

  lemma RecordStays(r: Rules, s: Run, s': Run, h: Hash, b: Block)
    requires RecordedFor(r, s, h, b) && s'.node.dag == s.node.dag
    requires h in s'.waitingOn && s'.waitingOn[h] == s.waitingOn[h]
    ensures RecordedFor(r, s', h, b)
  {
    hide Judge;
  }

  lemma {:induction false} PassFacts(r: Rules, n0: Node, batch: seq<Block>, s: Run, pending: seq<Block>)
    requires Collisionless(r) && Reached(r, n0, batch, s.node)
    requires forall b :: b in pending ==> b in batch
    ensures var s' := OnePass(r, s, pending);
      && Reached(r, n0, batch, s'.node) && Later(s.node, s'.node)
      && (forall b :: b in s'.deferred ==> b in pending)
      && (forall b :: b in pending ==> b in s'.deferred || Settled(r, n0, s'.node, b))
      && (!s'.progressed ==> s'.node.dag == s.node.dag && WaitsFor(r, s'))
  {
    hide Settled, Reached, WaitsFor, OneBlock;
    if pending == [] {
      assert WaitsFor(r, PassStart(s)) by { EmptyWaits(r, s); }
    } else {
      var init, last := pending[..|pending| - 1], pending[|pending| - 1];
      assert forall b :: b in init ==> b in pending;
      PassFacts(r, n0, batch, s, init);
      var s1 := OnePass(r, s, init);
      BlockInPass(r, n0, batch, s1, last);
      DeferredGrows(r, s1, last);
      var s2 := OneBlock(r, s1, last);
      forall b | b in pending ensures b in s2.deferred || Settled(r, n0, s2.node, b) {
        if b in init && b !in s1.deferred { SettledStays(r, n0, batch, s1.node, s2.node, b); }
      }
    }
  }

  lemma EmptyWaits(r: Rules, s: Run)
    ensures WaitsFor(r, PassStart(s))
  {
  }

  lemma DeferredGrows(r: Rules, s: Run, b: Block)
    ensures forall c :: c in s.deferred ==> c in OneBlock(r, s, b).deferred
    ensures forall c :: c in OneBlock(r, s, b).deferred ==> c in s.deferred || c == b
  {
    hide AdmitStep;
  }

  lemma {:induction false} FixpointFacts(r: Rules, n0: Node, batch: seq<Block>, s: Run, pending: seq<Block>)
    requires Collisionless(r) && Reached(r, n0, batch, s.node)
    requires (forall b :: b in pending ==> b in batch) && Accounted(r, n0, s.node, batch, pending)
    ensures var s' := ToFixpoint(r, s, pending);
      && Reached(r, n0, batch, s'.node) && WaitsFor(r, s')
      && (forall b :: b in s'.deferred ==> b in batch)
      && Accounted(r, n0, s'.node, batch, s'.deferred)
    decreases |pending|
  {
    hide Settled, Reached, WaitsFor, OnePass;
    PassFacts(r, n0, batch, s, pending);
    var p := OnePass(r, s, pending);
    forall b | b in batch ensures b in p.deferred || Settled(r, n0, p.node, b) {
      if b !in pending { SettledStays(r, n0, batch, s.node, p.node, b); }
    }
    if p.progressed { FixpointFacts(r, n0, batch, p, p.deferred); }
  }

  /** A node a batch can be settled against: stored copies are canonical, the pruning point is held. */
  ghost predicate Ready(r: Rules, n: Node) {
    Sound(r, n) && (n.dag.pruningPoint == ZERO_HASH || n.dag.pruningPoint in n.dag.blocks)
  }

  lemma ReadyReached(r: Rules, n: Node, batch: seq<Block>)
    requires Ready(r, n)
    ensures Reached(r, n, batch, n)
  {
    RemembersNone(n.withdrawn, batch);
  }

  /** Settled means: nothing the batch could still admit is left out of either store, except what the
      run has come to refuse; each deferred block waits for a parent that is really absent. */
  lemma SettledIsClosed(r: Rules, n: Node, batch: seq<Block>)
    requires Collisionless(r) && Ready(r, n)
    ensures var s := Settle(r, n, batch);
      && (forall b :: b in batch && Admissible(r, n, s.node.dag.blocks, b) && !WithdrawnHit(s.node.withdrawn, b) ==>
            InBoth(s.node, b.hash))
      && Reached(r, n, batch, s.node) && WaitsFor(r, s)
      && (forall b :: b in s.deferred ==> b in batch)
      && Accounted(r, n, s.node, batch, s.deferred)
  {
    hide Judge, Reached, VerifyBody, VrfAdmits, PrunedHere, ToFixpoint, Ready, WithdrawnHit;
    ReadyReached(r, n, batch);
    FixpointFacts(r, n, batch, StartAt(n), batch);
    var s := Settle(r, n, batch);
    forall b | b in batch && Admissible(r, n, s.node.dag.blocks, b) && !WithdrawnHit(s.node.withdrawn, b)
      ensures InBoth(s.node, b.hash)
    {
      assert b !in s.deferred;
      assert Settled(r, n, s.node, b);
    }
  }

  /** A delivery never leaves a set that is closed under admitting the batch. */
  lemma StaysInside(r: Rules, n0: Node, batch: seq<Block>, n: Node, b: Block, m: DagMap)
    requires Collisionless(r) && Reached(r, n0, batch, n) && b in batch
    requires Keyed(r, m) && Closed(r, n0, m, batch) && n.dag.blocks.Keys <= m.Keys
    ensures AdmitStep(r, n, b).node.dag.blocks.Keys <= m.Keys
  {
    hide AdmitStep, Judge, Admissible, Witnessed, Remembers, Sound, WithdrawnHit;
    AdmitEffect(r, n, b);
    SoundKeyed(r, n);
    if AdmitStep(r, n, b).outcome.Admitted? {
      AdmittedIsAdmissible(r, n0, batch, n, b);
      AdmissibleGrows(r, n0, n.dag.blocks, m, b);
    }
  }

  lemma NotHitBefore(n0: Node, n: Node, b: Block)
    requires n0.withdrawn <= n.withdrawn && !WithdrawnHit(n.withdrawn, b)
    ensures !WithdrawnHit(n0.withdrawn, b)
  {
  }

  lemma {:induction false} PassStaysInside(r: Rules, n0: Node, batch: seq<Block>, s: Run, pending: seq<Block>,
                                           m: DagMap)
    requires Collisionless(r) && Reached(r, n0, batch, s.node) && forall b :: b in pending ==> b in batch
    requires Keyed(r, m) && Closed(r, n0, m, batch) && s.node.dag.blocks.Keys <= m.Keys
    ensures OnePass(r, s, pending).node.dag.blocks.Keys <= m.Keys
  {
    hide Reached, AdmitStep, Closed, Collisionless, Keyed, WaitsFor, Settled, Judge;
    if pending != [] {
      var init, last := pending[..|pending| - 1], pending[|pending| - 1];
      assert forall b :: b in init ==> b in pending;
      PassStaysInside(r, n0, batch, s, init, m);
      PassFacts(r, n0, batch, s, init);
      StaysInside(r, n0, batch, OnePass(r, s, init).node, last, m);
    }
  }

  lemma {:induction false} FixpointStaysInside(r: Rules, n0: Node, batch: seq<Block>, s: Run, pending: seq<Block>,
                                               m: DagMap)
    requires Collisionless(r) && Reached(r, n0, batch, s.node) && forall b :: b in pending ==> b in batch
    requires Keyed(r, m) && Closed(r, n0, m, batch) && s.node.dag.blocks.Keys <= m.Keys
    ensures ToFixpoint(r, s, pending).node.dag.blocks.Keys <= m.Keys
    decreases |pending|
  {
    hide Reached, AdmitStep, OnePass, Closed;
    PassFacts(r, n0, batch, s, pending);
    PassStaysInside(r, n0, batch, s, pending, m);
    var p := OnePass(r, s, pending);
    if p.progressed { FixpointStaysInside(r, n0, batch, p, p.deferred, m); }
  }

  /** Least: every closed extension of the node's DAG holds everything the settled node holds. */
  lemma SettledIsLeast(r: Rules, n: Node, batch: seq<Block>, m: DagMap)
    requires Collisionless(r) && Ready(r, n)
    requires Keyed(r, m) && n.dag.blocks.Keys <= m.Keys && Closed(r, n, m, batch)
    ensures Settle(r, n, batch).node.dag.blocks.Keys <= m.Keys
  {
    ReadyReached(r, n, batch);
    FixpointStaysInside(r, n, batch, StartAt(n), batch, m);
  }

  lemma SameChainKeys(r: Rules, n: Node, batch: seq<Block>, other: seq<Block>, s: Node, t: Node)
    requires Collisionless(r) && Reached(r, n, batch, s) && Reached(r, n, other, t)
    requires s.dag.blocks.Keys == t.dag.blocks.Keys && forall b :: b in batch ==> b in other
    requires forall b :: b in other && Admissible(r, n, t.dag.blocks, b) ==> InBoth(t, b.hash)
    ensures s.chain.blocks.Keys <= t.chain.blocks.Keys
  {
    hide Admissible, Sound;
    SoundKeyed(r, s);
    SoundKeyed(r, t);
    forall h | h in s.chain.blocks ensures h in t.chain.blocks {
      if h !in n.chain.blocks {
        var b :| b in batch && b.hash == h && Admissible(r, n, s.dag.blocks, b);
        AdmissibleGrows(r, n, s.dag.blocks, t.dag.blocks, b);
      }
    }
  }

  // What the run reports: how many blocks it completed, which is the highest, what is left and in which order.

  /** The hashes in both stores. */
  ghost function Whole(n: Node): (s: set<Hash>) { n.dag.blocks.Keys * n.chain.blocks.Keys }

  /** The count is the number of blocks completed since `n0`, and the highest is one of them. */
  ghost predicate Tallied(n0: Node, s: Run) {
    var gained := Whole(s.node) - Whole(n0);
    && Whole(n0) <= Whole(s.node)
    && s.newlyAdmitted == |gained| && TopOf(s.node, gained, s.highest)
  }

  /** A highest block of `gained`, or none if that is empty. */
  ghost predicate TopOf(n: Node, gained: set<Hash>, top: Option<Tip>) {
    && (forall h :: h in gained ==> h in n.dag.blocks)
    && (top.None? ==> gained == {})
    && (top.Some? ==>
          && top.value.hash in gained && n.dag.blocks[top.value.hash].header.height == top.value.height
          && forall h :: h in gained ==> n.dag.blocks[h].header.height <= top.value.height)
  }

  /** An admission completes the block and no other, and stores it at its own height. */
  lemma AdmissionCompletes(r: Rules, n: Node, b: Block)
    requires Collisionless(r) && Sound(r, n) && AdmitStep(r, n, b).outcome.Admitted?
    ensures var n' := AdmitStep(r, n, b).node;
      && b.hash !in Whole(n) && Whole(n') == Whole(n) + {b.hash}
      && (forall h :: h in n.dag.blocks ==> h in n'.dag.blocks && n'.dag.blocks[h] == n.dag.blocks[h])
      && b.hash in n'.dag.blocks && n'.dag.blocks[b.hash].header == b.header
  {
    hide AdmitStep, Judge, VerifyBody, VrfAdmits, WithdrawnHit, CheckpointRefuses, ChainOk;
    AdmitEffect(r, n, b);
    PassMeans(r, n.dag.blocks, b);
    if b.hash in n.dag.blocks { SameHashSameHeader(r, b, n.dag.blocks[b.hash]); }
  }

  lemma OneBlockTallies(r: Rules, n0: Node, s: Run, b: Block)
    requires Collisionless(r) && Sound(r, s.node) && Tallied(n0, s)
    ensures Sound(r, OneBlock(r, s, b).node) && Tallied(n0, OneBlock(r, s, b))
  {
    hide AdmitStep, Sound, Collisionless, Tallied, Whole;
    AdmitKeepsSound(r, s.node, b);
    if AdmitStep(r, s.node, b).outcome.Admitted? {
      AdmissionCompletes(r, s.node, b);
      TallyOne(n0, s, OneBlock(r, s, b), b);
    } else {
      WritesNothing(r, s.node, b);
      TallySame(n0, s, OneBlock(r, s, b));
    }
  }

  lemma TallySame(n0: Node, s: Run, s': Run)
    requires Tallied(n0, s) && s'.node.dag == s.node.dag && s'.node.chain == s.node.chain
    requires s'.newlyAdmitted == s.newlyAdmitted && s'.highest == s.highest
    ensures Tallied(n0, s')
  {
    assert Whole(s'.node) == Whole(s.node);
    hide Whole;
  }

  lemma WritesNothing(r: Rules, n: Node, b: Block)
    requires !AdmitStep(r, n, b).outcome.Admitted?
    ensures var n' := AdmitStep(r, n, b).node; n'.dag == n.dag && n'.chain == n.chain
  {
    hide AdmitStep, Judge;
    AdmitEffect(r, n, b);
  }

  lemma TallyOne(n0: Node, s: Run, s': Run, b: Block)
    requires Tallied(n0, s) && b.hash !in Whole(s.node) && Whole(s'.node) == Whole(s.node) + {b.hash}
    requires forall h :: h in s.node.dag.blocks ==>
      h in s'.node.dag.blocks && s'.node.dag.blocks[h] == s.node.dag.blocks[h]
    requires b.hash in s'.node.dag.blocks && s'.node.dag.blocks[b.hash].header == b.header
    requires s'.newlyAdmitted == s.newlyAdmitted + 1 && s'.highest == Higher(s.highest, b)
    ensures Tallied(n0, s')
  {
    hide Whole, TopOf;
    OneMoreGained(Whole(s.node), Whole(n0), b.hash);
    TallyHeights(s, s', Whole(s.node) - Whole(n0), b);
  }

  lemma OneMoreGained(all: set<Hash>, before: set<Hash>, x: Hash)
    requires before <= all && x !in all
    ensures all + {x} - before == all - before + {x} && |all + {x} - before| == |all - before| + 1
    ensures before <= all + {x} && x !in all - before
  {
    assert all + {x} - before == all - before + {x};
  }

  lemma TallyHeights(s: Run, s': Run, gained: set<Hash>, b: Block)
    requires b.hash !in gained
    requires forall h :: h in s.node.dag.blocks ==>
      h in s'.node.dag.blocks && s'.node.dag.blocks[h] == s.node.dag.blocks[h]
    requires b.hash in s'.node.dag.blocks && s'.node.dag.blocks[b.hash].header == b.header
    requires TopOf(s.node, gained, s.highest) && s'.highest == Higher(s.highest, b)
    ensures TopOf(s'.node, gained + {b.hash}, s'.highest)
  {
  }

  lemma {:induction false} PassTallies(r: Rules, n0: Node, s: Run, pending: seq<Block>)
    requires Collisionless(r) && Sound(r, s.node) && Tallied(n0, s)
    ensures Sound(r, OnePass(r, s, pending).node) && Tallied(n0, OnePass(r, s, pending))
  {
    hide OneBlock, Sound, Collisionless;
    if pending != [] {
      PassTallies(r, n0, s, pending[..|pending| - 1]);
      OneBlockTallies(r, n0, OnePass(r, s, pending[..|pending| - 1]), pending[|pending| - 1]);
    }
  }

  lemma {:induction false} FixpointTallies(r: Rules, n0: Node, s: Run, pending: seq<Block>)
    requires Collisionless(r) && Sound(r, s.node) && Tallied(n0, s)
    ensures Tallied(n0, ToFixpoint(r, s, pending))
    decreases |pending|
  {
    hide OnePass, Sound, Collisionless, Tallied;
    PassTallies(r, n0, s, pending);
    var p := OnePass(r, s, pending);
    if p.progressed { FixpointTallies(r, n0, p, p.deferred); }
  }

  /** A batch reports exactly the blocks it completed, and the highest of them. */
  lemma SettledTallies(r: Rules, n: Node, batch: seq<Block>)
    requires Collisionless(r) && Ready(r, n)
    ensures var s := Settle(r, n, batch);
      var gained := Whole(s.node) - Whole(n);
      && s.newlyAdmitted == |gained|
      && (s.highest.None? <==> gained == {})
      && (s.highest.Some? ==>
            && s.highest.value.hash in gained
            && s.node.dag.blocks[s.highest.value.hash].header.height == s.highest.value.height
            && forall h :: h in gained ==> s.node.dag.blocks[h].header.height <= s.highest.value.height)
  {
    hide ToFixpoint, Sound, Collisionless;
    assert Whole(n) - Whole(n) == {};
    FixpointTallies(r, n, StartAt(n), batch);
  }

  /** `a` is `b` with some entries left out. */
  ghost predicate Selected(a: seq<Block>, b: seq<Block>) {
    a == [] || (b != [] &&
      ((a[|a| - 1] == b[|b| - 1] && Selected(a[..|a| - 1], b[..|b| - 1])) || Selected(a, b[..|b| - 1])))
  }

  lemma {:induction false} PassKeepsOrder(r: Rules, s: Run, pending: seq<Block>)
    ensures Selected(OnePass(r, s, pending).deferred, pending)
  {
    hide OneBlock, OnePass, Selected;
    PassUnfolds(r, s, pending);
    if pending == [] {
      NothingSelected(pending);
    } else {
      var init, b := pending[..|pending| - 1], pending[|pending| - 1];
      PassKeepsOrder(r, s, init);
      DefersOrNot(r, OnePass(r, s, init), b);
      SelectedGrows(OnePass(r, s, init).deferred, OnePass(r, s, pending).deferred, pending);
    }
  }

  lemma PassUnfolds(r: Rules, s: Run, pending: seq<Block>)
    ensures OnePass(r, s, pending) ==
      if pending == [] then PassStart(s)
      else OneBlock(r, OnePass(r, s, pending[..|pending| - 1]), pending[|pending| - 1])
  {
    hide OneBlock;
  }

  lemma DefersOrNot(r: Rules, s: Run, b: Block)
    ensures OneBlock(r, s, b).deferred == s.deferred || OneBlock(r, s, b).deferred == s.deferred + [b]
  {
    hide AdmitStep;
  }

  lemma NothingSelected(b: seq<Block>)
    ensures Selected([], b)
  {
  }

  lemma SelectedGrows(a: seq<Block>, a': seq<Block>, b: seq<Block>)
    requires b != [] && Selected(a, b[..|b| - 1]) && (a' == a || a' == a + [b[|b| - 1]])
    ensures Selected(a', b)
  {
    assert (a + [b[|b| - 1]])[..|a|] == a;
  }

  lemma {:induction false} SelectedChains(a: seq<Block>, b: seq<Block>, c: seq<Block>)
    requires Selected(a, b) && Selected(b, c)
    ensures Selected(a, c)
    decreases |b| + |c|
  {
    if a != [] {
      if b[|b| - 1] == c[|c| - 1] && Selected(b[..|b| - 1], c[..|c| - 1]) {
        if a[|a| - 1] == b[|b| - 1] && Selected(a[..|a| - 1], b[..|b| - 1]) {
          SelectedChains(a[..|a| - 1], b[..|b| - 1], c[..|c| - 1]);
        } else {
          SelectedChains(a, b[..|b| - 1], c[..|c| - 1]);
        }
      } else {
        SelectedChains(a, b, c[..|c| - 1]);
      }
    }
  }

  /** What is left over is in the order of arrival. */
  lemma {:induction false} FixpointKeepsOrder(r: Rules, s: Run, pending: seq<Block>)
    ensures Selected(ToFixpoint(r, s, pending).deferred, pending)
    decreases |pending|
  {
    hide OnePass, Selected;
    PassKeepsOrder(r, s, pending);
    var p := OnePass(r, s, pending);
    if p.progressed {
      FixpointKeepsOrder(r, p, p.deferred);
      SelectedChains(ToFixpoint(r, p, p.deferred).deferred, p.deferred, pending);
    }
  }
}
