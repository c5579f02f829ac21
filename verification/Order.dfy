/** When the order of a batch matters, exactly: when a block the batch could gain is one the batch could
    also make the node refuse. */
module Order {
  import opened Blocks
  import opened Gate
  import opened Stores
  import opened Admission
  import opened Fixpoint
  import opened LeastFixpoint

  /** The node after delivering `bs` once, in order. */
  function Fold(r: Rules, n: Node, bs: seq<Block>): (n': Node) {
    if bs == [] then n else AdmitStep(r, Fold(r, n, bs[..|bs| - 1]), bs[|bs| - 1]).node
  }

  lemma {:induction false} PassIsFold(r: Rules, s: Run, pending: seq<Block>)
    ensures OnePass(r, s, pending).node == Fold(r, s.node, pending)
  {
    hide AdmitStep;
    if pending != [] { PassIsFold(r, s, pending[..|pending| - 1]); }
  }

  lemma {:induction false} FoldAppend(r: Rules, n: Node, a: seq<Block>, b: seq<Block>)
    ensures Fold(r, n, a + b) == Fold(r, Fold(r, n, a), b)
  {
    hide AdmitStep;
    if b == [] {
      assert a + b == a;
    } else {
      assert (a + b)[..|a + b| - 1] == a + b[..|b| - 1];
      FoldAppend(r, n, a, b[..|b| - 1]);
    }
  }

  lemma FoldFirst(r: Rules, n: Node, b: Block, bs: seq<Block>)
    ensures Fold(r, n, [b] + bs) == Fold(r, AdmitStep(r, n, b).node, bs)
  {
    hide AdmitStep;
    FoldAppend(r, n, [b], bs);
    assert [b][..0] == [];
    assert Fold(r, n, [b]) == AdmitStep(r, Fold(r, n, []), b).node;
  }

  predicate Admits(r: Rules, n: Node, b: Block) { AdmitStep(r, n, b).outcome.Admitted? }

  function Without(bs: seq<Block>, i: nat): (t: seq<Block>)
    requires i < |bs|
  {
    bs[..i] + bs[i + 1..]
  }

  ghost predicate CanAdmit(r: Rules, n: Node, pending: seq<Block>) {
    exists i :: 0 <= i < |pending| && Admits(r, n, pending[i])
  }

  ghost function Pick(r: Rules, n: Node, pending: seq<Block>): (i: nat)
    requires CanAdmit(r, n, pending)
    ensures i < |pending| && Admits(r, n, pending[i])
  {
    var i :| 0 <= i < |pending| && Admits(r, n, pending[i]);
    i
  }

  /** The batch, reordered so that whatever can be admitted goes first. */
  ghost function Greedy(r: Rules, n: Node, pending: seq<Block>): (order: seq<Block>)
    decreases |pending|
  {
    if !CanAdmit(r, n, pending) then pending
    else
      var i := Pick(r, n, pending);
      [pending[i]] + Greedy(r, AdmitStep(r, n, pending[i]).node, Without(pending, i))
  }

  /** The node once nothing more can be admitted; nothing was refused on the way. */
  ghost function Harvest(r: Rules, n: Node, pending: seq<Block>): (m: Node)
    decreases |pending|
  {
    if !CanAdmit(r, n, pending) then n
    else
      var i := Pick(r, n, pending);
      Harvest(r, AdmitStep(r, n, pending[i]).node, Without(pending, i))
  }

  ghost predicate Reordered(a: seq<Block>, b: seq<Block>) { multiset(a) == multiset(b) }

  lemma ReorderedMembers(a: seq<Block>, b: seq<Block>)
    requires Reordered(a, b)
    ensures forall x :: x in a <==> x in b
  {
    forall x ensures x in a <==> x in b { assert x in multiset(a) <==> x in multiset(b); }
  }

  lemma WithoutCounts(bs: seq<Block>, i: nat)
    requires i < |bs|
    ensures multiset([bs[i]] + Without(bs, i)) == multiset(bs)
    ensures forall x :: x in bs <==> x == bs[i] || x in Without(bs, i)
  {
    assert bs == bs[..i] + [bs[i]] + bs[i + 1..];
  }

  lemma {:induction false} GreedyReorders(r: Rules, n: Node, pending: seq<Block>)
    ensures Reordered(Greedy(r, n, pending), pending)
    decreases |pending|
  {
    hide AdmitStep;
    if CanAdmit(r, n, pending) {
      var i := Pick(r, n, pending);
      GreedyReorders(r, AdmitStep(r, n, pending[i]).node, Without(pending, i));
      WithoutCounts(pending, i);
    }
  }

  /** No block of `bs` can be admitted. */
  ghost predicate Stuck(r: Rules, n: Node, bs: seq<Block>) { forall b :: b in bs ==> !Admits(r, n, b) }

  lemma StoredNotAdmitted(r: Rules, n: Node, b: Block)
    requires InBoth(n, b.hash)
    ensures !Admits(r, n, b)
  {
    hide AdmitStep;
    AdmitEffect(r, n, b);
  }

  lemma AdmittedIsStored(r: Rules, n: Node, b: Block)
    requires Admits(r, n, b)
    ensures var n' := AdmitStep(r, n, b).node; InBoth(n', b.hash) && n'.withdrawn == n.withdrawn
  {
    hide AdmitStep, Judge;
    AdmitEffect(r, n, b);
  }

  lemma {:induction false} HarvestFacts(r: Rules, n0: Node, batch: seq<Block>, n: Node, pending: seq<Block>)
    requires Collisionless(r) && Reached(r, n0, batch, n) && n.withdrawn == n0.withdrawn
    requires (forall b :: b in pending ==> b in batch) && forall b :: b in batch ==> b in pending || InBoth(n, b.hash)
    ensures var m := Harvest(r, n, pending);
      Reached(r, n0, batch, m) && m.withdrawn == n0.withdrawn && Stuck(r, m, batch)
    decreases |pending|
  {
    hide AdmitStep, Reached, Admits;
    if CanAdmit(r, n, pending) {
      var i := Pick(r, n, pending);
      var b := pending[i];
      WithoutCounts(pending, i);
      ReachedStep(r, n0, batch, n, b);
      AdmittedIsStored(r, n, b);
      StepIsLater(r, n, b);
      HarvestFacts(r, n0, batch, AdmitStep(r, n, b).node, Without(pending, i));
    } else {
      forall b | b in batch ensures !Admits(r, n, b) {
        if InBoth(n, b.hash) { StoredNotAdmitted(r, n, b); }
      }
    }
  }

  /** Refusing more admits no more. */
  lemma MoreWithdrawn(r: Rules, n: Node, w: set<Hash>, b: Block)
    requires !Admits(r, n, b) && n.withdrawn <= w
    ensures !Admits(r, n.(withdrawn := w), b)
  {
    hide Judge, VerifyBody, VrfAdmits, CheckpointRefuses;
  }

  lemma RefusedStep(r: Rules, n: Node, b: Block)
    requires !Admits(r, n, b)
    ensures var n' := AdmitStep(r, n, b).node; n' == n.(withdrawn := n'.withdrawn) && n.withdrawn <= n'.withdrawn
  {
    hide AdmitStep, Judge;
    AdmitEffect(r, n, b);
  }

  lemma StuckStays(r: Rules, n: Node, w: set<Hash>, all: seq<Block>)
    requires Stuck(r, n, all) && n.withdrawn <= w
    ensures Stuck(r, n.(withdrawn := w), all)
  {
    hide Admits;
    forall b | b in all ensures !Admits(r, n.(withdrawn := w), b) { MoreWithdrawn(r, n, w, b); }
  }

  lemma {:induction false} StuckPass(r: Rules, s: Run, all: seq<Block>, pending: seq<Block>)
    requires Stuck(r, s.node, all) && forall b :: b in pending ==> b in all
    ensures var p := OnePass(r, s, pending);
      && p.node == s.node.(withdrawn := p.node.withdrawn) && s.node.withdrawn <= p.node.withdrawn && !p.progressed
  {
    hide AdmitStep;
    if pending != [] {
      var init, b := pending[..|pending| - 1], pending[|pending| - 1];
      assert forall c :: c in init ==> c in pending;
      StuckPass(r, s, all, init);
      var p := OnePass(r, s, init);
      StuckStays(r, s.node, p.node.withdrawn, all);
      RefusedStep(r, p.node, b);
    }
  }

  /** Delivering the greedy order harvests first and then stores nothing more. */
  lemma {:induction false} GreedyFold(r: Rules, n: Node, pending: seq<Block>)
    ensures var f, m := Fold(r, n, Greedy(r, n, pending)), Harvest(r, n, pending);
      f == m.(withdrawn := f.withdrawn) && m.withdrawn <= f.withdrawn
    decreases |pending|
  {
    hide AdmitStep, Admits;
    if CanAdmit(r, n, pending) {
      var i := Pick(r, n, pending);
      var b := pending[i];
      GreedyFold(r, AdmitStep(r, n, b).node, Without(pending, i));
      FoldFirst(r, n, b, Greedy(r, AdmitStep(r, n, b).node, Without(pending, i)));
    } else {
      StuckPass(r, StartAt(n), pending, pending);
      PassIsFold(r, StartAt(n), pending);
    }
  }

  lemma GreedySettles(r: Rules, n: Node, batch: seq<Block>)
    requires Collisionless(r) && Ready(r, n)
    ensures var t, m := Settle(r, n, Greedy(r, n, batch)).node, Harvest(r, n, batch);
      t.dag == m.dag && t.chain == m.chain
  {
    hide AdmitStep, Greedy, Harvest, OnePass, Ready, Reached, Stuck;
    var order, m, s := Greedy(r, n, batch), Harvest(r, n, batch), StartAt(n);
    ReadyReached(r, n, batch);
    HarvestFacts(r, n, batch, n, batch);
    GreedyFold(r, n, batch);
    PassIsFold(r, s, order);
    var p := OnePass(r, s, order);
    StuckStays(r, m, p.node.withdrawn, batch);
    GreedyReorders(r, n, batch);
    ReorderedMembers(order, batch);
    PassDefers(r, s, order);
    StuckPass(r, p, batch, p.deferred);
    OneMorePass(r, s, order);
    OneMorePass(r, p, p.deferred);
  }

  lemma OneMorePass(r: Rules, s: Run, pending: seq<Block>)
    ensures var p := OnePass(r, s, pending);
      ToFixpoint(r, s, pending) == if p.progressed then ToFixpoint(r, p, p.deferred) else p
  {
  }

  lemma {:induction false} PassDefers(r: Rules, s: Run, pending: seq<Block>)
    ensures forall b :: b in OnePass(r, s, pending).deferred ==> b in pending
  {
    hide OneBlock;
    if pending != [] {
      var init, b := pending[..|pending| - 1], pending[|pending| - 1];
      PassDefers(r, s, init);
      DeferredGrows(r, OnePass(r, s, init), b);
    }
  }

  /** The harvest is closed: what it could still admit it has in both stores. */
  lemma HarvestClosed(r: Rules, n: Node, batch: seq<Block>, b: Block)
    requires Collisionless(r) && Ready(r, n) && b in batch && Admissible(r, n, Harvest(r, n, batch).dag.blocks, b)
    ensures InBoth(Harvest(r, n, batch), b.hash)
  {
    hide Harvest, Ready, Reached, Admissible;
    ReadyReached(r, n, batch);
    HarvestFacts(r, n, batch, n, batch);
    AdmissibleOrStored(r, n, batch, Harvest(r, n, batch), b);
  }

  lemma AdmissibleOrStored(r: Rules, n0: Node, batch: seq<Block>, n: Node, b: Block)
    requires Collisionless(r) && Reached(r, n0, batch, n) && n.withdrawn == n0.withdrawn
    requires Admissible(r, n0, n.dag.blocks, b) && !Admits(r, n, b)
    ensures InBoth(n, b.hash)
  {
    hide Judge, VerifyBody, VrfAdmits, CheckpointRefuses, WithdrawnHit, Sound, Witnessed, PrunedBelow, Remembers;
    FloorUnmoved(r, n0, batch, n);
  }

  lemma HarvestReached(r: Rules, n: Node, batch: seq<Block>)
    requires Collisionless(r) && Ready(r, n)
    ensures Reached(r, n, batch, Harvest(r, n, batch))
  {
    hide Harvest, Reached;
    ReadyReached(r, n, batch);
    HarvestFacts(r, n, batch, n, batch);
  }

  ghost predicate Within(s: Node, m: Node) {
    s.dag.blocks.Keys <= m.dag.blocks.Keys && s.chain.blocks.Keys <= m.chain.blocks.Keys
  }

  /** Both stores hold the same hashes in `s` as in `t`. */
  ghost predicate SameHashes(s: Node, t: Node) { Within(s, t) && Within(t, s) }

  ghost predicate Agree(r: Rules, s: DagMap, t: DagMap) {
    forall h :: h in s && h in t ==> SameCommitted(r, s[h], t[h])
  }

  /** The same hashes, under each the same committed content, and the same heights indexed. */
  ghost predicate SameUpToOrder(r: Rules, s: Node, t: Node) {
    && SameHashes(s, t) && Agree(r, s.dag.blocks, t.dag.blocks) && Agree(r, s.chain.blocks, t.chain.blocks)
    && s.chain.byHeight.Keys == t.chain.byHeight.Keys
  }

  lemma SameHashesAgree(r: Rules, s: Node, t: Node)
    requires Collisionless(r) && Sound(r, s) && Sound(r, t) && SameHashes(s, t)
    ensures SameUpToOrder(r, s, t)
  {
    hide Canonical, Collisionless, SameCommitted;
    forall h | h in s.dag.blocks ensures SameCommitted(r, s.dag.blocks[h], t.dag.blocks[h]) {
      StoredContentIsTheCommittedContent(r, s.dag.blocks[h], t.dag.blocks[h]);
    }
    forall h | h in s.chain.blocks ensures SameCommitted(r, s.chain.blocks[h], t.chain.blocks[h]) {
      StoredContentIsTheCommittedContent(r, s.chain.blocks[h], t.chain.blocks[h]);
    }
    forall h | h in s.chain.blocks ensures s.chain.blocks[h].header.height == t.chain.blocks[h].header.height {
      CommittedHeight(r, s.chain.blocks[h], t.chain.blocks[h]);
    }
    forall k ensures k in s.chain.byHeight <==> k in t.chain.byHeight {
      if k in s.chain.byHeight { assert s.chain.byHeight[k] in t.chain.blocks; }
      if k in t.chain.byHeight { assert t.chain.byHeight[k] in s.chain.blocks; }
    }
  }

  lemma CommittedHeight(r: Rules, b: Block, c: Block)
    requires SameCommitted(r, b, c)
    ensures b.header.height == c.header.height
  {
  }

  /** No order stores more than the harvest. */
  lemma AtMostHarvest(r: Rules, n: Node, batch: seq<Block>, other: seq<Block>)
    requires Collisionless(r) && Ready(r, n) && forall b :: b in other ==> b in batch
    ensures Within(Settle(r, n, other).node, Harvest(r, n, batch))
  {
    hide Settle, Harvest, Admissible, Ready, Sound, Accounted, WaitsFor;
    var s, m := Settle(r, n, other).node, Harvest(r, n, batch);
    SettledIsClosed(r, n, other);
    HarvestReached(r, n, batch);
    SoundKeyed(r, m);
    SoundKeyed(r, s);
    forall b | b in other && Admissible(r, n, m.dag.blocks, b) ensures InBoth(m, b.hash) {
      HarvestClosed(r, n, batch, b);
    }
    SettledIsLeast(r, n, other, m.dag.blocks);
    forall h | h in s.chain.blocks ensures h in m.chain.blocks {
      if h !in n.chain.blocks {
        var b :| b in other && b.hash == h && Admissible(r, n, s.dag.blocks, b);
        AdmissibleGrows(r, n, s.dag.blocks, m.dag.blocks, b);
      }
    }
  }

  /** The hashes the batch could add to either store. */
  ghost function Gains(r: Rules, n: Node, batch: seq<Block>): (g: set<Hash>) {
    var m := Harvest(r, n, batch);
    (m.dag.blocks.Keys - n.dag.blocks.Keys) + (m.chain.blocks.Keys - n.chain.blocks.Keys)
  }

  /** The batch can make a node with withdrawn set `w` refuse `b`. */
  ghost predicate Refusable(w: set<Hash>, batch: seq<Block>, b: Block) {
    exists v :: Remembers(w, batch, v) && WithdrawnHit(v, b)
  }

  /** Nothing the batch could gain is anything it could make the node refuse. */
  ghost predicate Unhit(r: Rules, n: Node, batch: seq<Block>) {
    forall b :: b in batch && b.hash in Gains(r, n, batch) && Admissible(r, n, Harvest(r, n, batch).dag.blocks, b) ==>
      !Refusable(n.withdrawn, batch, b)
  }

  lemma RemembersMembers(w: set<Hash>, a: seq<Block>, b: seq<Block>, v: set<Hash>)
    requires (forall x :: x in a <==> x in b) && Remembers(w, a, v)
    ensures Remembers(w, b, v)
  {
    hide BuiltOn, HashSet;
    var cs :| Chained(w, a, cs) && v == w + HashSet(cs);
    assert Chained(w, b, cs);
  }

  /** A block the harvest stores is not refused in any order. */
  lemma GainNotHit(r: Rules, n: Node, batch: seq<Block>, other: seq<Block>, b: Block)
    requires Collisionless(r) && Ready(r, n) && Unhit(r, n, batch)
    requires b in batch && forall x :: x in batch <==> x in other
    requires !InBoth(n, b.hash) && InBoth(Harvest(r, n, batch), b.hash)
    requires Admissible(r, n, Harvest(r, n, batch).dag.blocks, b)
    ensures !WithdrawnHit(Settle(r, n, other).node.withdrawn, b)
  {
    hide Settle, Harvest, Ready, Accounted, WaitsFor, Sound, Witnessed, WithdrawnHit, Remembers, Admissible;
    SettledIsClosed(r, n, other);
    RemembersMembers(n.withdrawn, other, batch, Settle(r, n, other).node.withdrawn);
    assert b.hash in Gains(r, n, batch);
  }

  /** Unhit batches: every order, and every repetition, stores exactly the hashes of the harvest, with the
      content those hashes commit to. */
  lemma OrderDoesNotMatter(r: Rules, n: Node, batch: seq<Block>, other: seq<Block>)
    requires Collisionless(r) && Ready(r, n) && Unhit(r, n, batch) && forall b :: b in batch <==> b in other
    ensures SameUpToOrder(r, Settle(r, n, other).node, Harvest(r, n, batch))
    ensures forall b :: b in batch && Admissible(r, n, Settle(r, n, other).node.dag.blocks, b) ==>
      InBoth(Settle(r, n, other).node, b.hash)
  {
    hide Settle, Harvest, Admissible, Ready, Sound, Accounted, WaitsFor, WithdrawnHit, Unhit, Remembers, SameUpToOrder;
    var s, m := Settle(r, n, other).node, Harvest(r, n, batch);
    AtMostHarvest(r, n, batch, other);
    SettledIsClosed(r, n, other);
    HarvestReached(r, n, batch);
    SoundKeyed(r, m);
    SoundKeyed(r, s);
    forall b | b in other && Admissible(r, n, s.dag.blocks, b) ensures InBoth(s, b.hash) {
      AdmissibleGrows(r, n, s.dag.blocks, m.dag.blocks, b);
      HarvestClosed(r, n, batch, b);
      if !InBoth(n, b.hash) { GainNotHit(r, n, batch, other, b); }
    }
    GreedySettles(r, n, batch);
    GreedyReorders(r, n, batch);
    ReorderedMembers(Greedy(r, n, batch), batch);
    SettledIsLeast(r, n, Greedy(r, n, batch), s.dag.blocks);
    SameChainKeys(r, n, batch, other, m, s);
    SameHashesAgree(r, s, m);
  }

  lemma HashSetPrefix(cs: seq<Block>, k: nat)
    requires k <= |cs|
    ensures HashSet(cs[..k]) <= HashSet(cs)
  {
    forall x | x in HashSet(cs[..k]) ensures x in HashSet(cs) {
      var c :| c in cs[..k] && c.hash == x;
      assert c in cs;
    }
  }

  /** The blocks of a chain, delivered first, are refused and remembered one after the other. */
  lemma {:induction false} FoldChain(r: Rules, n: Node, batch: seq<Block>, cs: seq<Block>, k: nat)
    requires Chained(n.withdrawn, batch, cs) && k <= |cs|
    ensures Fold(r, n, cs[..k]) == n.(withdrawn := n.withdrawn + HashSet(cs[..k]))
  {
    hide AdmitStep, HashSet, BuiltOn;
    if k == 0 {
      assert cs[..0] == [];
      assert n.withdrawn + HashSet([]) == n.withdrawn by { assert HashSet([]) == {} by { EmptyHashSet(); } }
    } else {
      FoldChain(r, n, batch, cs, k - 1);
      var w, c := n.withdrawn + HashSet(cs[..k - 1]), cs[k - 1];
      assert cs[..k] == cs[..k - 1] + [c] && cs[..k][..k - 1] == cs[..k - 1];
      HashSetSnoc(cs[..k - 1], c);
      HashSetPrefix(cs, k);
      assert n.withdrawn + HashSet(cs[..k]) == w + {c.hash};
      SubsetSize(w + {c.hash}, n.withdrawn + HashSet(cs));
      HitIsRemembered(r, n.(withdrawn := w), c);
    }
  }

  lemma EmptyHashSet()
    ensures HashSet([]) == {}
  {
  }

  lemma HitIsRemembered(r: Rules, n: Node, c: Block)
    requires BuiltOn(n.withdrawn, c) && |n.withdrawn + {c.hash}| <= MAX_WITHDRAWN
    ensures AdmitStep(r, n, c).node == n.(withdrawn := n.withdrawn + {c.hash})
  {
    hide BuiltOn;
    if c.hash in n.withdrawn { assert n.withdrawn + {c.hash} == n.withdrawn; }
  }

  /** A chain's blocks are different blocks of the batch, so some reordering of the batch begins with it. */
  lemma {:induction false} ChainFirst(w: set<Hash>, batch: seq<Block>, cs: seq<Block>, k: nat)
    returns (rest: seq<Block>)
    requires Chained(w, batch, cs) && k <= |cs|
    ensures Reordered(cs[..k] + rest, batch)
  {
    hide HashSet, BuiltOn, Reordered;
    if k == 0 {
      rest := batch;
      assert cs[..0] + batch == batch;
      assert Reordered(batch, batch) by { SameOrder(batch); }
    } else {
      var before := ChainFirst(w, batch, cs, k - 1);
      var c := cs[k - 1];
      assert NextHit(batch, w + HashSet(cs[..k - 1]), c);
      NotEarlier(cs[..k - 1], w, c);
      ReorderedMembers(cs[..k - 1] + before, batch);
      assert c in cs[..k - 1] + before;
      var i :| 0 <= i < |before| && before[i] == c;
      rest := Without(before, i);
      MoveUp(cs[..k - 1], before, i, batch);
      assert cs[..k] == cs[..k - 1] + [c];
    }
  }

  lemma SameOrder(a: seq<Block>)
    ensures Reordered(a, a)
  {
  }

  lemma MoveUp(a: seq<Block>, b: seq<Block>, i: nat, batch: seq<Block>)
    requires i < |b| && Reordered(a + b, batch)
    ensures Reordered(a + [b[i]] + Without(b, i), batch)
  {
    WithoutCounts(b, i);
    assert a + [b[i]] + Without(b, i) == a + ([b[i]] + Without(b, i));
    hide Without;
    assert multiset(a + b) == multiset(a) + multiset(b);
  }

  lemma NotEarlier(cs: seq<Block>, w: set<Hash>, c: Block)
    requires c.hash !in w + HashSet(cs)
    ensures c !in cs
  {
    assert forall x :: x in cs ==> x.hash in HashSet(cs);
  }

  /** A refused block never enters a store, in whatever copy. */
  ghost predicate KeptOut(n: Node, n': Node, b: Block) {
    && WithdrawnHit(n'.withdrawn, b)
    && (b.hash in n'.dag.blocks <==> b.hash in n.dag.blocks)
    && (b.hash in n'.chain.blocks <==> b.hash in n.chain.blocks)
  }

  lemma ClearedRecomputes(r: Rules, d: DagMap, b: Block)
    requires Cleared(r, d, b)
    ensures HashRecomputes(r, b)
  {
    hide Judge;
    PassMeans(r, d, b);
  }

  lemma StepKeepsOut(r: Rules, n: Node, b: Block, c: Block)
    requires Collisionless(r) && HashRecomputes(r, b) && WithdrawnHit(n.withdrawn, b)
    ensures KeptOut(n, AdmitStep(r, n, c).node, b)
  {
    hide AdmitStep, Judge, VrfAdmits, CheckpointRefuses;
    AdmitEffect(r, n, c);
    StepIsLater(r, n, c);
    StillHit(n.withdrawn, AdmitStep(r, n, c).node.withdrawn, b);
    if AdmitStep(r, n, c).outcome.Admitted? && c.hash == b.hash {
      ClearedRecomputes(r, n.dag.blocks, c);
      SameHashSameHeader(r, b, c);
    }
  }

  lemma StillHit(w: set<Hash>, w': set<Hash>, b: Block)
    requires WithdrawnHit(w, b) && w <= w'
    ensures WithdrawnHit(w', b)
  {
  }

  lemma {:induction false} FoldKeepsOut(r: Rules, n: Node, bs: seq<Block>, b: Block)
    requires Collisionless(r) && HashRecomputes(r, b) && WithdrawnHit(n.withdrawn, b)
    ensures KeptOut(n, Fold(r, n, bs), b)
  {
    hide AdmitStep, WithdrawnHit;
    if bs != [] {
      FoldKeepsOut(r, n, bs[..|bs| - 1], b);
      StepKeepsOut(r, Fold(r, n, bs[..|bs| - 1]), b, bs[|bs| - 1]);
    }
  }

  lemma {:induction false} FixpointKeepsOut(r: Rules, s: Run, pending: seq<Block>, b: Block)
    requires Collisionless(r) && HashRecomputes(r, b) && WithdrawnHit(s.node.withdrawn, b)
    ensures KeptOut(s.node, ToFixpoint(r, s, pending).node, b)
    decreases |pending|
  {
    hide OnePass, Fold, WithdrawnHit;
    var p := OnePass(r, s, pending);
    PassIsFold(r, s, pending);
    FoldKeepsOut(r, s.node, pending, b);
    if p.progressed { FixpointKeepsOut(r, p, p.deferred, b); }
  }

  /** With a chain that hits it delivered first, a block stays where it was. */
  lemma ChainSettles(r: Rules, n: Node, batch: seq<Block>, cs: seq<Block>, rest: seq<Block>, b: Block)
    requires Collisionless(r) && HashRecomputes(r, b)
    requires Chained(n.withdrawn, batch, cs) && WithdrawnHit(n.withdrawn + HashSet(cs), b)
    ensures KeptOut(n, Settle(r, n, cs + rest).node, b)
  {
    hide OnePass, Fold, ToFixpoint, WithdrawnHit, Chained, HashSet;
    var s := StartAt(n);
    FoldChain(r, n, batch, cs, |cs|);
    assert cs[..|cs|] == cs;
    FoldAppend(r, n, cs, rest);
    FoldKeepsOut(r, Fold(r, n, cs), rest, b);
    PassIsFold(r, s, cs + rest);
    var p := OnePass(r, s, cs + rest);
    OneMorePass(r, s, cs + rest);
    if p.progressed { FixpointKeepsOut(r, p, p.deferred, b); }
  }

  ghost predicate OrderMatters(r: Rules, n: Node, batch: seq<Block>) {
    exists a, b | Reordered(a, batch) && Reordered(b, batch) :: !SameHashes(Settle(r, n, a).node, Settle(r, n, b).node)
  }

  /** Two reorderings of a batch can end with different hashes stored if and only if some block the batch could
      gain is one that a chain of its blocks could make the node refuse. */
  lemma OrderMattersExactly(r: Rules, n: Node, batch: seq<Block>)
    requires Collisionless(r) && Ready(r, n)
    ensures OrderMatters(r, n, batch) <==> !Unhit(r, n, batch)
  {
    hide Settle, Harvest, Ready, Greedy, Admissible, Chained, WithdrawnHit, HashSet;
    if Unhit(r, n, batch) {
      forall a | Reordered(a, batch) ensures SameHashes(Settle(r, n, a).node, Harvest(r, n, batch)) {
        ReorderedMembers(a, batch);
        OrderDoesNotMatter(r, n, batch, a);
      }
    } else {
      var b :| b in batch && b.hash in Gains(r, n, batch) && Admissible(r, n, Harvest(r, n, batch).dag.blocks, b)
               && Refusable(n.withdrawn, batch, b);
      var v :| Remembers(n.withdrawn, batch, v) && WithdrawnHit(v, b);
      var cs :| Chained(n.withdrawn, batch, cs) && v == n.withdrawn + HashSet(cs);
      GreedySettles(r, n, batch);
      GreedyReorders(r, n, batch);
      var rest := ChainFirst(n.withdrawn, batch, cs, |cs|);
      assert cs[..|cs|] == cs;
      AdmissibleRecomputes(r, n, Harvest(r, n, batch).dag.blocks, b);
      ChainSettles(r, n, batch, cs, rest, b);
      assert !SameHashes(Settle(r, n, Greedy(r, n, batch)).node, Settle(r, n, cs + rest).node);
    }
  }

  lemma AdmissibleRecomputes(r: Rules, n: Node, d: DagMap, b: Block)
    requires Admissible(r, n, d, b)
    ensures HashRecomputes(r, b)
  {
    ClearedRecomputes(r, d, b);
  }

  // Batches that are unhit: nothing withdrawn, or honest copies against untainted stores.

  ghost function Held(n: Node): (s: set<Hash>) { n.dag.blocks.Keys + n.chain.blocks.Keys }

  ghost predicate CleanOf(w: set<Hash>, m: DagMap) {
    forall h :: h in m ==> !WithdrawnHit(w, m[h])
  }

  ghost predicate LinksInto(m: DagMap, s: set<Hash>) {
    forall h :: h in m ==> forall p :: p in m[h].Parents() ==> p == ZERO_HASH || p in s
  }

  /** No stored block is withdrawn or built on a withdrawn one. */
  ghost predicate Untainted(n: Node) {
    CleanOf(n.withdrawn, n.dag.blocks) && CleanOf(n.withdrawn, n.chain.blocks)
  }

  /** Every parent of a stored block is itself stored (or the sentinel of a root). */
  ghost predicate ParentsHeld(n: Node) {
    LinksInto(n.dag.blocks, Held(n)) && LinksInto(n.chain.blocks, Held(n))
  }

  ghost predicate CleanBatch(r: Rules, n: Node, batch: seq<Block>) {
    || n.withdrawn == {}
    || (Untainted(n) && ParentsHeld(n) && forall b :: b in batch ==> HashRecomputes(r, b))
  }

  lemma AddKeepsClean(w: set<Hash>, m: DagMap, s: set<Hash>, s': set<Hash>, b: Block)
    requires CleanOf(w, m) && LinksInto(m, s) && s <= s'
    requires !WithdrawnHit(w, b) && forall p :: p in b.Parents() ==> p == ZERO_HASH || p in s
    ensures CleanOf(w, m[b.hash := b]) && LinksInto(m[b.hash := b], s') && LinksInto(m, s')
  {
  }

  /** An admission keeps the stores untainted and parent-closed. */
  lemma AdmissionKeepsClean(r: Rules, n: Node, b: Block)
    requires Admits(r, n, b) && Untainted(n) && ParentsHeld(n)
    ensures Untainted(AdmitStep(r, n, b).node) && ParentsHeld(AdmitStep(r, n, b).node)
  {
    hide AdmitStep, Judge, IsGenesis, CleanOf, LinksInto, VerifyBody, VrfAdmits;
    AdmitEffect(r, n, b);
    PassMeans(r, n.dag.blocks, b);
    var copy, n' := SidecarIngest(r, b).copy, AdmitStep(r, n, b).node;
    assert forall p :: p in copy.Parents() ==> p == ZERO_HASH || p in Held(n) by {
      if IsGenesis(r, b) { GenesisParents(r, b); } else { PassParents(r, n.dag.blocks, b); }
    }
    AddKeepsClean(n.withdrawn, n.dag.blocks, Held(n), Held(n'), copy);
    AddKeepsClean(n.withdrawn, n.chain.blocks, Held(n), Held(n'), copy);
  }

  lemma {:induction false} HarvestClean(r: Rules, n: Node, pending: seq<Block>)
    requires Untainted(n) && ParentsHeld(n)
    ensures Untainted(Harvest(r, n, pending)) && ParentsHeld(Harvest(r, n, pending))
    decreases |pending|
  {
    hide AdmitStep, Untainted, ParentsHeld;
    if CanAdmit(r, n, pending) {
      var i := Pick(r, n, pending);
      AdmissionKeepsClean(r, n, pending[i]);
      HarvestClean(r, AdmitStep(r, n, pending[i]).node, Without(pending, i));
    }
  }

  /** An honest copy of a stored block is built on the same parents. */
  lemma StoredParents(r: Rules, m: Node, c: Block, p: Hash)
    requires Collisionless(r) && Sound(r, m) && Untainted(m) && ParentsHeld(m)
    requires HashRecomputes(r, c) && c.hash in Held(m) && p in c.Parents()
    ensures p !in m.withdrawn && (p == ZERO_HASH || p in Held(m))
  {
    hide VerifyBody;
    if c.hash in m.dag.blocks { SameHashSameHeader(r, c, m.dag.blocks[c.hash]); }
    if c.hash in m.chain.blocks { SameHashSameHeader(r, c, m.chain.blocks[c.hash]); }
  }

  /** What a chain of honest copies makes a node remember is nothing it stores. */
  lemma {:induction false} ChainAvoids(r: Rules, m: Node, batch: seq<Block>, cs: seq<Block>, k: nat)
    requires Collisionless(r) && Sound(r, m) && Untainted(m) && ParentsHeld(m)
    requires Chained(m.withdrawn, batch, cs) && k <= |cs| && forall b :: b in batch ==> HashRecomputes(r, b)
    ensures ZERO_HASH !in HashSet(cs[..k]) && HashSet(cs[..k]) !! Held(m)
  {
    hide Sound, Untainted, ParentsHeld, HashSet, Held;
    if k == 0 {
      assert cs[..0] == [];
      EmptyHashSet();
    } else {
      ChainAvoids(r, m, batch, cs, k - 1);
      var c, before := cs[k - 1], HashSet(cs[..k - 1]);
      assert cs[..k] == cs[..k - 1] + [c];
      HashSetSnoc(cs[..k - 1], c);
      assert NextHit(batch, m.withdrawn + before, c);
      var p :| p in c.Parents() && p in m.withdrawn + before;
      if c.hash in Held(m) { StoredParents(r, m, c, p); }
    }
  }

  lemma NoChain(batch: seq<Block>, cs: seq<Block>)
    requires Chained({}, batch, cs)
    ensures cs == []
  {
    EmptyHashSet();
    assert cs[..0] == [];
  }

  /** Clean batches are unhit, so their order does not matter. */
  lemma CleanIsUnhit(r: Rules, n: Node, batch: seq<Block>)
    requires Collisionless(r) && Ready(r, n) && CleanBatch(r, n, batch)
    ensures Unhit(r, n, batch)
  {
    hide Harvest, Admissible, Sound, Chained, HashSet, Untainted, ParentsHeld;
    var m := Harvest(r, n, batch);
    HarvestReached(r, n, batch);
    ReadyReached(r, n, batch);
    HarvestFacts(r, n, batch, n, batch);
    forall b | b in batch && b.hash in Gains(r, n, batch) && Admissible(r, n, m.dag.blocks, b)
      ensures !Refusable(n.withdrawn, batch, b)
    {
      forall v | Remembers(n.withdrawn, batch, v) ensures !WithdrawnHit(v, b) {
        var cs :| Chained(n.withdrawn, batch, cs) && v == n.withdrawn + HashSet(cs);
        if n.withdrawn == {} {
          NoChain(batch, cs);
          EmptyHashSet();
        } else {
          HarvestClean(r, n, batch);
          ChainAvoids(r, m, batch, cs, |cs|);
          assert cs[..|cs|] == cs;
          AdmissibleUnhit(r, n, m.dag.blocks, b, v - n.withdrawn);
        }
      }
    }
  }

  lemma AdmissibleUnhit(r: Rules, n: Node, d: DagMap, b: Block, extra: set<Hash>)
    requires Admissible(r, n, d, b) && b.hash !in extra && ZERO_HASH !in extra && extra !! d.Keys
    ensures !WithdrawnHit(n.withdrawn + extra, b)
  {
    hide Judge, VerifyBody, VrfAdmits;
    PassMeans(r, d, b);
    if IsGenesis(r, b) { GenesisParents(r, b); } else { PassParents(r, d, b); }
  }

  // Inputs whose order matters.

  lemma GainedNow(r: Rules, n: Node, batch: seq<Block>, b: Block)
    requires Collisionless(r) && Ready(r, n) && b in batch && Admissible(r, n, n.dag.blocks, b) && !InBoth(n, b.hash)
    ensures b.hash in Gains(r, n, batch) && Admissible(r, n, Harvest(r, n, batch).dag.blocks, b)
  {
    hide Harvest, Admissible, Sound;
    HarvestReached(r, n, batch);
    SoundKeyed(r, n);
    SoundKeyed(r, Harvest(r, n, batch));
    AdmissibleGrows(r, n, n.dag.blocks, Harvest(r, n, batch).dag.blocks, b);
    HarvestClosed(r, n, batch, b);
  }

  lemma OneLink(w: set<Hash>, batch: seq<Block>, c: Block)
    requires c in batch && BuiltOn(w, c) && c.hash !in w && |w| < MAX_WITHDRAWN
    ensures Remembers(w, batch, w + {c.hash})
  {
    RemembersNone(w, batch);
    RemembersMore(w, batch, w, c);
  }

  /** A copy that claims the hash of an admissible block, and a withdrawn parent, keeps the block out if
      it comes first. */
  lemma ForgedCopyMatters(r: Rules, n: Node, f: Block, b: Block)
    requires Collisionless(r) && Ready(r, n) && Admissible(r, n, n.dag.blocks, b) && !InBoth(n, b.hash)
    requires f.hash == b.hash && BuiltOn(n.withdrawn, f) && |n.withdrawn| < MAX_WITHDRAWN
    ensures OrderMatters(r, n, [f, b])
  {
    hide OrderMatters, Ready, Remembers, Harvest, BuiltOn;
    GainedNow(r, n, [f, b], b);
    OneLink(n.withdrawn, [f, b], f);
    OrderMattersExactly(r, n, [f, b]);
  }

  /** So does an honest re-delivery of a stored block that is built on a withdrawn one. */
  lemma HonestCopyMatters(r: Rules, n: Node, z: Block, b: Block)
    requires Collisionless(r) && Ready(r, n) && Admissible(r, n, n.dag.blocks, b) && !InBoth(n, b.hash)
    requires z.hash in b.Parents() && BuiltOn(n.withdrawn, z) && |n.withdrawn| < MAX_WITHDRAWN
    ensures OrderMatters(r, n, [z, b])
  {
    hide OrderMatters, Ready, Remembers, Harvest;
    GainedNow(r, n, [z, b], b);
    assert z.hash !in n.withdrawn;
    OneLink(n.withdrawn, [z, b], z);
    assert WithdrawnHit(n.withdrawn + {z.hash}, b);
    OrderMattersExactly(r, n, [z, b]);
  }

  /** Such inputs exist, with honest copies only: a stored block `z` on a withdrawn parent, and its child. */
  lemma OrderCanMatter(r: Rules, g: Block)
    requires Collisionless(r) && IsGenesis(r, g) && Canonical(r, g)
    requires r.checkpoints == [] && !r.strictVrf && 0 < r.maxParents
    ensures exists n, z, b :: Ready(r, n) && HashRecomputes(r, z) && HashRecomputes(r, b) && OrderMatters(r, n, [z, b])
  {
    hide Judge, Canonical, OrderMatters, IsGenesis, Sound, Admissible;
    var z := Child(r, g, [], g.header.blueScore + 1, 0);
    var b := Child(r, z, [], z.header.blueScore + 1, 0);
    GenesisFacts(r, g);
    HeightsApart(r, g, z, b);
    var chain := Put(Put(Chain(map[], map[], 0, None), g), z);
    var n := Node(Dag(map[g.hash := g, z.hash := z], ZERO_HASH), chain, {g.hash});
    TwoBlocksSound(r, n, g, z);
    PlainChildPasses(r, n.dag.blocks, z, 0);
    ChildAdmissible(r, n, z, b);
    assert z.Parents() == [g.hash] && b.Parents() == [z.hash];
    assert g.hash in z.Parents() && z.hash in b.Parents();
    HonestCopyMatters(r, n, z, b);
  }

  lemma TwoBlocksSound(r: Rules, n: Node, g: Block, z: Block)
    requires Canonical(r, g) && Canonical(r, z) && g.hash != z.hash && g.header.height == 0 && z.header.height == 1
    requires n.dag.blocks == map[g.hash := g, z.hash := z]
    requires n.chain == Put(Put(Chain(map[], map[], 0, None), g), z)
    ensures Sound(r, n)
  {
    hide Canonical;
    assert n.chain.blocks == map[g.hash := g, z.hash := z] && n.chain.byHeight == map[0 := g.hash, 1 := z.hash];
  }

  lemma ChildAdmissible(r: Rules, n: Node, z: Block, b: Block)
    requires r.checkpoints == [] && !r.strictVrf && Judge(r, n.dag.blocks, b).Pass? && Canonical(r, b)
    requires b.Parents() == [z.hash] && z.hash !in n.withdrawn && b.hash !in n.withdrawn && b.hash !in n.chain.blocks
    ensures Admissible(r, n, n.dag.blocks, b)
  {
    hide Judge;
    ChildCleared(r, n.dag.blocks, b);
  }

  lemma GenesisFacts(r: Rules, g: Block)
    requires Collisionless(r) && IsGenesis(r, g)
    ensures g.header.height == 0 && HashRecomputes(r, g) && g.hash != ZERO_HASH
  {
  }

  lemma HeightsApart(r: Rules, g: Block, z: Block, b: Block)
    requires Collisionless(r) && HashRecomputes(r, g) && HashRecomputes(r, z) && HashRecomputes(r, b)
    requires g.header.height < z.header.height < b.header.height
    ensures z.hash != g.hash && b.hash != g.hash && b.hash != z.hash && z.hash != ZERO_HASH && b.hash != ZERO_HASH
  {
    if z.hash == g.hash { SameHashSameHeader(r, z, g); }
    if b.hash == g.hash { SameHashSameHeader(r, b, g); }
    if b.hash == z.hash { SameHashSameHeader(r, b, z); }
  }

  lemma ChildCleared(r: Rules, d: DagMap, b: Block)
    requires Judge(r, d, b).Pass? && Canonical(r, b)
    ensures Cleared(r, d, b)
  {
    hide Judge;
  }
}
