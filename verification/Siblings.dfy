/** What the order of a batch decides even when the stored hashes do not depend on it: which of several
    new blocks of one height the index names, and which copy of one hash is kept. */
module Siblings {
  import opened Blocks
  import opened Gate
  import opened Stores
  import opened Admission
  import opened Fixpoint
  import opened LeastFixpoint
  import opened Order

  ghost predicate NewAt(n0: Node, n: Node, k: nat, h: Hash) {
    h in n.chain.blocks && h !in n0.chain.blocks && n.chain.blocks[h].header.height == k
  }

  /** The index names a new block wherever there is one, and is as before elsewhere. */
  ghost predicate IndexMoves(n0: Node, n: Node) {
    && n0.chain.blocks.Keys <= n.chain.blocks.Keys
    && (forall k :: k in n0.chain.byHeight ==> k in n.chain.byHeight)
    && (forall k :: k in n.chain.byHeight ==>
          if n.chain.byHeight[k] in n0.chain.blocks
          then k in n0.chain.byHeight && n0.chain.byHeight[k] == n.chain.byHeight[k] && forall h :: !NewAt(n0, n, k, h)
          else true)
  }

  lemma StepMovesIndex(r: Rules, n0: Node, n: Node, b: Block)
    requires IndexMoves(n0, n)
    ensures IndexMoves(n0, AdmitStep(r, n, b).node)
  {
    hide AdmitStep, Judge, VerifyBody, VrfAdmits, WithdrawnHit, CheckpointRefuses, BuiltOn;
    AdmitEffect(r, n, b);
    var n' := AdmitStep(r, n, b).node;
    assert forall k, h :: NewAt(n0, n', k, h) && (n'.chain == n.chain || h != b.hash) ==> NewAt(n0, n, k, h);
  }

  lemma {:induction false} FoldMovesIndex(r: Rules, n0: Node, n: Node, bs: seq<Block>)
    requires IndexMoves(n0, n)
    ensures IndexMoves(n0, Fold(r, n, bs))
  {
    hide AdmitStep, IndexMoves;
    if bs != [] {
      FoldMovesIndex(r, n0, n, bs[..|bs| - 1]);
      StepMovesIndex(r, n0, Fold(r, n, bs[..|bs| - 1]), bs[|bs| - 1]);
    }
  }

  lemma {:induction false} FixpointMovesIndex(r: Rules, n0: Node, s: Run, pending: seq<Block>)
    requires IndexMoves(n0, s.node)
    ensures IndexMoves(n0, ToFixpoint(r, s, pending).node)
    decreases |pending|
  {
    hide OnePass, Fold, IndexMoves;
    var p := OnePass(r, s, pending);
    PassIsFold(r, s, pending);
    FoldMovesIndex(r, n0, s.node, pending);
    if p.progressed { FixpointMovesIndex(r, n0, p, p.deferred); }
  }

  function IndexAt(n: Node, k: nat): (h: Option<Hash>) {
    if k in n.chain.byHeight then Some(n.chain.byHeight[k]) else None
  }

  lemma SettledMovesIndex(r: Rules, n: Node, a: seq<Block>)
    requires Collisionless(r) && Ready(r, n)
    ensures IndexMoves(n, Settle(r, n, a).node) && ChainOk(Settle(r, n, a).node.chain) && ChainOk(n.chain)
  {
    hide ToFixpoint, Accounted, WaitsFor, Canonical, Remembers, Witnessed, Admissible;
    SettledIsClosed(r, n, a);
    FixpointMovesIndex(r, n, StartAt(n), a);
  }

  lemma SameNews(r: Rules, n: Node, s: Node, m: Node, k: nat)
    requires SameUpToOrder(r, s, m)
    ensures forall h :: NewAt(n, s, k, h) <==> NewAt(n, m, k, h)
  {
  }

  lemma {:induction false} Others(batch: seq<Block>, h: Hash) returns (rest: seq<Block>, copies: seq<Block>)
    ensures Reordered(rest + copies, batch)
    ensures forall b :: b in rest <==> b in batch && b.hash != h
    ensures rest == Except(batch, h)
  {
    if batch == [] {
      rest, copies := [], [];
    } else {
      var b, init := batch[|batch| - 1], batch[..|batch| - 1];
      assert batch == init + [b];
      rest, copies := Others(init, h);
      if b.hash == h {
        assert rest + (copies + [b]) == (rest + copies) + [b];
        copies := copies + [b];
      } else {
        assert multiset((rest + [b]) + copies) == multiset(rest + copies) + multiset{b};
        rest := rest + [b];
      }
    }
  }

  /** The batch without its copies of one hash. */
  function Except(batch: seq<Block>, h: Hash): (rest: seq<Block>) {
    if batch == [] then []
    else
      var b, init := batch[|batch| - 1], batch[..|batch| - 1];
      if b.hash == h then Except(init, h) else Except(init, h) + [b]
  }

  /** Every other block the batch gains at the height of `x` is gained without `x`. */
  ghost predicate Spare(r: Rules, n: Node, batch: seq<Block>, k: nat, x: Hash) {
    forall y :: NewAt(n, Harvest(r, n, batch), k, y) && y != x ==> y in Harvest(r, n, Except(batch, x)).chain.blocks
  }

  // A spare block can come last: deliver its copies after everything else.

  lemma FinishMovesIndex(r: Rules, n: Node, a: seq<Block>, c: seq<Block>)
    ensures IndexMoves(Fold(r, n, a), Settle(r, n, a + c).node)
  {
    hide OnePass, Fold, ToFixpoint;
    var f, s := Fold(r, n, a), StartAt(n);
    FoldAppend(r, n, a, c);
    FoldMovesIndex(r, f, f, c);
    PassIsFold(r, s, a + c);
    var p := OnePass(r, s, a + c);
    OneMorePass(r, s, a + c);
    if p.progressed { FixpointMovesIndex(r, f, p, p.deferred); }
  }

  /** The last new block of its height is the one indexed. */
  lemma LastIsIndexed(n: Node, f: Node, t: Node, k: nat, x: Hash)
    requires IndexMoves(f, t) && ChainOk(t.chain) && n.chain.blocks.Keys <= f.chain.blocks.Keys
    requires NewAt(n, t, k, x) && x !in f.chain.blocks
    requires forall y :: NewAt(n, t, k, y) && y != x ==> y in f.chain.blocks
    ensures IndexAt(t, k) == Some(x)
  {
    assert NewAt(f, t, k, x);
    var y := t.chain.byHeight[k];
    assert y !in f.chain.blocks ==> NewAt(n, t, k, y);
  }

  lemma HarvestGains(r: Rules, n: Node, batch: seq<Block>, x: Hash)
    requires Collisionless(r) && Ready(r, n) && x !in n.chain.blocks && forall b :: b in batch ==> b.hash != x
    ensures var m := Harvest(r, n, batch); x !in m.chain.blocks && n.chain.blocks.Keys <= m.chain.blocks.Keys
  {
    hide Harvest, Ready, Sound, Remembers, Admissible;
    HarvestReached(r, n, batch);
  }

  lemma SpareCanBeLast(r: Rules, n: Node, batch: seq<Block>, k: nat, x: Hash) returns (order: seq<Block>)
    requires Collisionless(r) && Ready(r, n) && Unhit(r, n, batch) && NewAt(n, Harvest(r, n, batch), k, x)
    requires Spare(r, n, batch, k, x)
    ensures Reordered(order, batch) && IndexAt(Settle(r, n, order).node, k) == Some(x)
  {
    hide Settle, Harvest, Unhit, Ready, Greedy, Fold, Collisionless, SameUpToOrder;
    var rest, copies := Others(batch, x);
    order := Greedy(r, n, rest) + copies;
    GreedyReorders(r, n, rest);
    assert multiset(order) == multiset(Greedy(r, n, rest)) + multiset(copies);
    assert multiset(rest + copies) == multiset(rest) + multiset(copies);
    ReorderedMembers(order, batch);
    OrderDoesNotMatter(r, n, batch, order);
    GreedyFold(r, n, rest);
    HarvestGains(r, n, rest, x);
    FinishMovesIndex(r, n, Greedy(r, n, rest), copies);
    SettledMovesIndex(r, n, order);
    SameNews(r, n, Settle(r, n, order).node, Harvest(r, n, batch), k);
    LastIsIndexed(n, Fold(r, n, Greedy(r, n, rest)), Settle(r, n, order).node, k, x);
  }

  // A block that comes last was spare.

  /** Before `x` is stored everything stored is had without it; while it is indexed, so are its rivals. */
  ghost predicate LastInv(n: Node, m: Node, s: Node, k: nat, x: Hash) {
    && (x !in s.chain.blocks ==> Within(s, m))
    && (IndexAt(s, k) == Some(x) ==> forall y :: NewAt(n, s, k, y) && y != x ==> y in m.chain.blocks)
  }

  lemma StepLast(r: Rules, n: Node, batch: seq<Block>, s: Node, k: nat, x: Hash, b: Block)
    requires Collisionless(r) && Ready(r, n) && Reached(r, n, batch, s) && b in batch
    requires LastInv(n, Harvest(r, n, Except(batch, x)), s, k, x)
    ensures LastInv(n, Harvest(r, n, Except(batch, x)), AdmitStep(r, s, b).node, k, x)
  {
    hide AdmitStep, Harvest, Ready, Judge, Remembers, Witnessed, Admissible, Sound, Collisionless, LastInv;
    hide VerifyBody, VrfAdmits, WithdrawnHit, CheckpointRefuses;
    var m, s' := Harvest(r, n, Except(batch, x)), AdmitStep(r, s, b).node;
    AdmitEffect(r, s, b);
    if Admits(r, s, b) {
      AdmitKeepsSound(r, s, b);
      IndexOk(r, s);
      IndexOk(r, s');
      if b.hash != x && x !in s.chain.blocks {
        LastWithin(n, m, s, k, x);
        OtherIsHad(r, n, batch, s, x, b);
      }
      AddLast(n, m, s, s', SidecarIngest(r, b).copy, k, x);
    } else {
      SameLast(n, m, s, s', k, x);
    }
  }

  lemma IndexOk(r: Rules, n: Node)
    requires Sound(r, n)
    ensures ChainOk(n.chain)
  {
  }

  lemma LastWithin(n: Node, m: Node, s: Node, k: nat, x: Hash)
    requires LastInv(n, m, s, k, x) && x !in s.chain.blocks
    ensures Within(s, m)
  {
  }

  lemma SameLast(n: Node, m: Node, s: Node, s': Node, k: nat, x: Hash)
    requires LastInv(n, m, s, k, x) && s' == s.(withdrawn := s'.withdrawn)
    ensures LastInv(n, m, s', k, x)
  {
    assert forall y :: NewAt(n, s', k, y) ==> NewAt(n, s, k, y);
  }

  lemma AddLast(n: Node, m: Node, s: Node, s': Node, c: Block, k: nat, x: Hash)
    requires LastInv(n, m, s, k, x) && ChainOk(s.chain) && ChainOk(s'.chain)
    requires s'.dag == AddToDag(s.dag, c) && s'.chain == AddToChain(s.chain, c)
    requires c.hash != x && x !in s.chain.blocks ==> InBoth(m, c.hash)
    ensures LastInv(n, m, s', k, x)
  {
    assert forall y :: NewAt(n, s', k, y) && y != c.hash ==> NewAt(n, s, k, y);
    assert c.hash in s.chain.blocks ==> forall y :: NewAt(n, s', k, y) ==> NewAt(n, s, k, y);
    if x in s'.chain.blocks && x !in s.chain.blocks { assert Within(s, m); }
  }

  lemma OtherIsHad(r: Rules, n: Node, batch: seq<Block>, s: Node, x: Hash, b: Block)
    requires Collisionless(r) && Ready(r, n) && Reached(r, n, batch, s) && b in batch && b.hash != x
    requires Admits(r, s, b) && Within(s, Harvest(r, n, Except(batch, x)))
    ensures InBoth(Harvest(r, n, Except(batch, x)), b.hash)
  {
    hide AdmitStep, Harvest, Ready, Judge, Remembers, Witnessed, Admissible, Sound, Collisionless;
    var rest, _ := Others(batch, x);
    var m := Harvest(r, n, rest);
    HarvestReached(r, n, rest);
    AdmittedIsAdmissible(r, n, batch, s, b);
    SoundKeyed(r, s);
    SoundKeyed(r, m);
    AdmissibleGrows(r, n, s.dag.blocks, m.dag.blocks, b);
    HarvestClosed(r, n, rest, b);
  }

  lemma {:induction false} FoldLast(r: Rules, n: Node, batch: seq<Block>, s: Node, bs: seq<Block>, k: nat, x: Hash)
    requires Collisionless(r) && Ready(r, n) && Reached(r, n, batch, s) && forall b :: b in bs ==> b in batch
    requires LastInv(n, Harvest(r, n, Except(batch, x)), s, k, x)
    ensures LastInv(n, Harvest(r, n, Except(batch, x)), Fold(r, s, bs), k, x) && Reached(r, n, batch, Fold(r, s, bs))
  {
    hide AdmitStep, Ready, Reached, LastInv, Harvest, Collisionless;
    if bs != [] {
      var init, b := bs[..|bs| - 1], bs[|bs| - 1];
      FoldLast(r, n, batch, s, init, k, x);
      StepLast(r, n, batch, Fold(r, s, init), k, x, b);
      ReachedStep(r, n, batch, Fold(r, s, init), b);
    }
  }

  lemma {:induction false} FixpointLast(r: Rules, n: Node, batch: seq<Block>, s: Run, bs: seq<Block>, k: nat, x: Hash)
    requires Collisionless(r) && Ready(r, n) && Reached(r, n, batch, s.node) && forall b :: b in bs ==> b in batch
    requires LastInv(n, Harvest(r, n, Except(batch, x)), s.node, k, x)
    ensures LastInv(n, Harvest(r, n, Except(batch, x)), ToFixpoint(r, s, bs).node, k, x)
    decreases |bs|
  {
    hide OnePass, Fold, Ready, Reached, LastInv, Harvest, Collisionless;
    var p := OnePass(r, s, bs);
    PassIsFold(r, s, bs);
    FoldLast(r, n, batch, s.node, bs, k, x);
    PassDefers(r, s, bs);
    if p.progressed { FixpointLast(r, n, batch, p, p.deferred, k, x); }
  }

  lemma LastWasSpare(r: Rules, n: Node, batch: seq<Block>, order: seq<Block>, k: nat, x: Hash)
    requires Collisionless(r) && Ready(r, n) && Unhit(r, n, batch) && forall b :: b in batch <==> b in order
    requires IndexAt(Settle(r, n, order).node, k) == Some(x)
    ensures Spare(r, n, batch, k, x)
  {
    hide ToFixpoint, Harvest, Unhit, Ready, Reached, Collisionless, SameUpToOrder;
    var rest, _ := Others(batch, x);
    OrderDoesNotMatter(r, n, batch, order);
    ReadyReached(r, n, batch);
    HarvestKeeps(r, n, rest);
    FixpointLast(r, n, batch, StartAt(n), order, k, x);
    SameNews(r, n, Settle(r, n, order).node, Harvest(r, n, batch), k);
  }

  lemma HarvestKeeps(r: Rules, n: Node, batch: seq<Block>)
    requires Collisionless(r) && Ready(r, n)
    ensures Within(n, Harvest(r, n, batch))
  {
    hide Harvest, Ready, Sound, Remembers, Witnessed;
    HarvestReached(r, n, batch);
  }

  ghost predicate IndexDepends(r: Rules, n: Node, batch: seq<Block>, k: nat) {
    exists a, b | Reordered(a, batch) && Reordered(b, batch) ::
      IndexAt(Settle(r, n, a).node, k) != IndexAt(Settle(r, n, b).node, k)
  }

  /** For an unhit batch, which block the index names at a height can depend on the order if and only if
      two of the blocks gained at that height can each be left to the end. */
  lemma IndexDependsExactly(r: Rules, n: Node, batch: seq<Block>, k: nat)
    requires Collisionless(r) && Ready(r, n) && Unhit(r, n, batch)
    ensures IndexDepends(r, n, batch, k) <==>
      exists x, y :: x != y && NewAt(n, Harvest(r, n, batch), k, x) && NewAt(n, Harvest(r, n, batch), k, y)
                     && Spare(r, n, batch, k, x) && Spare(r, n, batch, k, y)
  {
    hide Settle, Harvest, Unhit, Ready, Collisionless, Spare, NewAt, Reordered, IndexAt;
    if x, y :| x != y && NewAt(n, Harvest(r, n, batch), k, x) && NewAt(n, Harvest(r, n, batch), k, y)
               && Spare(r, n, batch, k, x) && Spare(r, n, batch, k, y) {
      var a := SpareCanBeLast(r, n, batch, k, x);
      var b := SpareCanBeLast(r, n, batch, k, y);
    }
    if a, b :| Reordered(a, batch) && Reordered(b, batch)
               && IndexAt(Settle(r, n, a).node, k) != IndexAt(Settle(r, n, b).node, k) {
      ReorderedMembers(a, batch);
      ReorderedMembers(b, batch);
      BothNew(r, n, batch, a, b, k);
      var x, y := IndexAt(Settle(r, n, a).node, k).value, IndexAt(Settle(r, n, b).node, k).value;
      LastWasSpare(r, n, batch, a, k, x);
      LastWasSpare(r, n, batch, b, k, y);
    }
  }

  /** Where two orders index differently, both index a new block. */
  lemma BothNew(r: Rules, n: Node, batch: seq<Block>, a: seq<Block>, b: seq<Block>, k: nat)
    requires Collisionless(r) && Ready(r, n) && Unhit(r, n, batch)
    requires (forall x :: x in batch <==> x in a) && (forall x :: x in batch <==> x in b)
    requires IndexAt(Settle(r, n, a).node, k) != IndexAt(Settle(r, n, b).node, k)
    ensures var x, y, m := IndexAt(Settle(r, n, a).node, k), IndexAt(Settle(r, n, b).node, k), Harvest(r, n, batch);
      x.Some? && y.Some? && NewAt(n, m, k, x.value) && NewAt(n, m, k, y.value)
  {
    hide Settle, Harvest, Unhit, Ready, Collisionless, SameUpToOrder, IndexMoves;
    var s, t, m := Settle(r, n, a).node, Settle(r, n, b).node, Harvest(r, n, batch);
    OrderDoesNotMatter(r, n, batch, a);
    OrderDoesNotMatter(r, n, batch, b);
    SettledMovesIndex(r, n, a);
    SettledMovesIndex(r, n, b);
    SameNews(r, n, s, m, k);
    SameNews(r, n, t, m, k);
    SameHeights(r, s, m);
    SameHeights(r, t, m);
    IndexIsNew(n, s, t, k);
  }

  lemma SameHeights(r: Rules, s: Node, t: Node)
    requires SameUpToOrder(r, s, t)
    ensures s.chain.byHeight.Keys == t.chain.byHeight.Keys
  {
  }

  lemma IndexIsNew(n: Node, s: Node, t: Node, k: nat)
    requires IndexMoves(n, s) && IndexMoves(n, t) && ChainOk(s.chain) && ChainOk(t.chain)
    requires s.chain.byHeight.Keys == t.chain.byHeight.Keys && forall h :: NewAt(n, s, k, h) <==> NewAt(n, t, k, h)
    requires IndexAt(s, k) != IndexAt(t, k)
    ensures k in s.chain.byHeight && NewAt(n, s, k, s.chain.byHeight[k]) && NewAt(n, t, k, t.chain.byHeight[k])
  {
    var x, y := s.chain.byHeight[k], t.chain.byHeight[k];
    assert x !in n.chain.blocks ==> NewAt(n, s, k, x);
    assert y !in n.chain.blocks ==> NewAt(n, t, k, y);
  }

  // Two blocks that are both admissible at once: the index names the later, and of copies the first stays.

  /** Two blocks that can be admitted in a row are. */
  lemma SettlePair(r: Rules, n: Node, x: Block, y: Block)
    requires Admits(r, n, x) && Admits(r, AdmitStep(r, n, x).node, y)
    ensures Settle(r, n, [x, y]).node == Fold(r, n, [x, y])
  {
    hide AdmitStep;
    var s := StartAt(n);
    assert [x, y][..1] == [x] && [x][..0] == [];
    var p1 := OnePass(r, s, [x]);
    assert p1 == OneBlock(r, OnePass(r, s, []), x);
    var p := OnePass(r, s, [x, y]);
    assert p == OneBlock(r, p1, y);
    PassIsFold(r, s, [x, y]);
    assert p.deferred == [] && p.progressed;
    OneMorePass(r, s, [x, y]);
    OneMorePass(r, p, []);
  }

  /** The reported highest block is the first delivered of the highest: a later one must be strictly higher. */
  lemma FirstHighestIsReported(r: Rules, n: Node, x: Block, y: Block)
    requires Collisionless(r) && Ready(r, n) && Admits(r, n, x) && Admits(r, n, y) && x.hash != y.hash
    ensures Settle(r, n, [x, y]).highest ==
      Some(if x.header.height < y.header.height then Tip(y.hash, y.header.height) else Tip(x.hash, x.header.height))
  {
    hide AdmitStep, Ready, Collisionless;
    StillAdmits(r, n, x, y);
    var s := StartAt(n);
    assert [x, y][..1] == [x] && [x][..0] == [];
    var p1 := OnePass(r, s, [x]);
    assert p1 == OneBlock(r, OnePass(r, s, []), x);
    var p := OnePass(r, s, [x, y]);
    assert p == OneBlock(r, p1, y);
    assert p.deferred == [] && p.progressed;
    OneMorePass(r, s, [x, y]);
    OneMorePass(r, p, []);
  }

  /** A block that could be admitted still can after another was. */
  lemma StillAdmits(r: Rules, n: Node, x: Block, y: Block)
    requires Collisionless(r) && Ready(r, n) && Admits(r, n, x) && Admits(r, n, y) && x.hash != y.hash
    ensures Admits(r, AdmitStep(r, n, x).node, y)
  {
    hide AdmitStep, Admissible, Sound, Judge, Witnessed, Remembers;
    var n' := AdmitStep(r, n, x).node;
    ReadyReached(r, n, [x, y]);
    AdmittedIsAdmissible(r, n, [x, y], n, y);
    ReachedStep(r, n, [x, y], n, x);
    AdmitEffect(r, n, x);
    AdmitEffect(r, n, y);
    SoundKeyed(r, n);
    SoundKeyed(r, n');
    AdmissibleGrows(r, n, n.dag.blocks, n'.dag.blocks, y);
    if !Admits(r, n', y) { AdmissibleOrStored(r, n, [x, y], n', y); }
  }

  /** Of two new blocks of one height, either admissible first, the index names the one delivered last. */
  lemma LastSiblingIsIndexed(r: Rules, n: Node, x: Block, y: Block)
    requires Collisionless(r) && Ready(r, n) && Admits(r, n, x) && Admits(r, n, y)
    requires x.header.height == y.header.height && x.hash != y.hash
    requires x.hash !in n.chain.blocks && y.hash !in n.chain.blocks
    ensures IndexAt(Settle(r, n, [x, y]).node, x.header.height) == Some(y.hash)
    ensures IndexAt(Settle(r, n, [y, x]).node, x.header.height) == Some(x.hash)
  {
    hide AdmitStep, Settle;
    SecondIsIndexed(r, n, x, y);
    SecondIsIndexed(r, n, y, x);
  }

  lemma SecondIsIndexed(r: Rules, n: Node, x: Block, y: Block)
    requires Collisionless(r) && Ready(r, n) && Admits(r, n, x) && Admits(r, n, y)
    requires x.hash != y.hash && y.hash !in n.chain.blocks
    ensures IndexAt(Settle(r, n, [x, y]).node, y.header.height) == Some(y.hash)
  {
    hide AdmitStep, Settle, Ready, Judge, VerifyBody, VrfAdmits, WithdrawnHit, CheckpointRefuses, Collisionless;
    StillAdmits(r, n, x, y);
    SettlePair(r, n, x, y);
    var n' := AdmitStep(r, n, x).node;
    AdmitEffect(r, n, x);
    AdmitEffect(r, n', y);
    FoldFirst(r, n, x, [y]);
    FoldFirst(r, n', y, []);
    assert [x] + [y] == [x, y] && [y] + [] == [y];
  }

  /** Of two admissible copies of one hash, the first delivered is the one that is kept. */
  lemma FirstCopyIsKept(r: Rules, n: Node, x: Block, y: Block)
    requires Admits(r, n, x) && Admits(r, n, y) && x.hash == y.hash
    requires x.hash !in n.dag.blocks && x.hash !in n.chain.blocks
    ensures var s, t := Settle(r, n, [x, y]).node, Settle(r, n, [y, x]).node;
      && InBoth(s, x.hash) && InBoth(t, x.hash)
      && s.dag.blocks[x.hash] == s.chain.blocks[x.hash] == SidecarIngest(r, x).copy
      && t.dag.blocks[x.hash] == t.chain.blocks[x.hash] == SidecarIngest(r, y).copy
  {
    hide AdmitStep, Settle;
    FirstIsKept(r, n, x, y);
    FirstIsKept(r, n, y, x);
  }

  lemma HeldIsAlready(r: Rules, n: Node, b: Block)
    requires InBoth(n, b.hash) && !WithdrawnHit(n.withdrawn, b) && !CheckpointRefuses(r, b.header.height, b.hash)
    ensures AdmitStep(r, n, b) == Admission(n, AlreadyAdmitted)
  {
    hide Judge, VerifyBody, VrfAdmits, WithdrawnHit, CheckpointRefuses;
  }

  lemma FirstIsKept(r: Rules, n: Node, x: Block, y: Block)
    requires Admits(r, n, x) && Admits(r, n, y) && x.hash == y.hash
    requires x.hash !in n.dag.blocks && x.hash !in n.chain.blocks
    ensures var s := Settle(r, n, [x, y]).node;
      && InBoth(s, x.hash) && s.dag.blocks[x.hash] == s.chain.blocks[x.hash] == SidecarIngest(r, x).copy
  {
    hide AdmitStep, Judge, VerifyBody, VrfAdmits, WithdrawnHit, CheckpointRefuses;
    var n' := AdmitStep(r, n, x).node;
    AdmitEffect(r, n, x);
    AdmitEffect(r, n, y);
    HeldIsAlready(r, n', y);
    var s := StartAt(n);
    assert [x, y][..1] == [x] && [x][..0] == [];
    var p1 := OnePass(r, s, [x]);
    assert p1 == OneBlock(r, OnePass(r, s, []), x);
    var p := OnePass(r, s, [x, y]);
    assert p == OneBlock(r, p1, y);
    OneMorePass(r, s, [x, y]);
    OneMorePass(r, p, []);
  }

  /** So the index can depend on the order although nothing is withdrawn and both orders store the same
      hashes: two honest siblings on genesis. */
  lemma IndexCanDependOnOrder(r: Rules, g: Block)
    requires Collisionless(r) && IsGenesis(r, g) && Canonical(r, g)
    requires r.checkpoints == [] && !r.strictVrf && 0 < r.maxParents
    ensures exists n, x, y ::
      && Ready(r, n) && n.withdrawn == {} && HashRecomputes(r, x) && HashRecomputes(r, y) && Unhit(r, n, [x, y])
      && IndexAt(Settle(r, n, [x, y]).node, 1) != IndexAt(Settle(r, n, [y, x]).node, 1)
  {
    hide Judge, Canonical, IsGenesis, Sound, Admissible, Settle, Unhit, Admits;
    var x := Child(r, g, [], g.header.blueScore + 1, 0);
    var y := Child(r, g, [], g.header.blueScore + 1, 1);
    GenesisFacts(r, g);
    SiblingsApart(r, g, x, y);
    var n := Node(Dag(map[g.hash := g], ZERO_HASH), Put(Chain(map[], map[], 0, None), g), {});
    GenesisAloneSound(r, n, g);
    PlainChildPasses(r, n.dag.blocks, g, 0);
    PlainChildPasses(r, n.dag.blocks, g, 1);
    ChildAdmitted(r, n, g, x);
    ChildAdmitted(r, n, g, y);
    CleanIsUnhit(r, n, [x, y]);
    LastSiblingIsIndexed(r, n, x, y);
  }

  lemma GenesisAloneSound(r: Rules, n: Node, g: Block)
    requires Canonical(r, g) && g.header.height == 0
    requires n.dag.blocks == map[g.hash := g] && n.chain == Put(Chain(map[], map[], 0, None), g)
    ensures Sound(r, n)
  {
    hide Canonical;
    assert n.chain.blocks == map[g.hash := g] && n.chain.byHeight == map[0 := g.hash];
  }

  lemma SiblingsApart(r: Rules, g: Block, x: Block, y: Block)
    requires Collisionless(r) && HashRecomputes(r, g) && HashRecomputes(r, x) && HashRecomputes(r, y)
    requires g.header.height < x.header.height && x.header != y.header && g.header.height < y.header.height
    ensures x.hash != g.hash && y.hash != g.hash && x.hash != y.hash
  {
    if x.hash == g.hash { SameHashSameHeader(r, x, g); }
    if y.hash == g.hash { SameHashSameHeader(r, y, g); }
    if x.hash == y.hash { SameHashSameHeader(r, x, y); }
  }

  lemma ChildAdmitted(r: Rules, n: Node, z: Block, b: Block)
    requires r.checkpoints == [] && !r.strictVrf && Judge(r, n.dag.blocks, b).Pass? && Canonical(r, b)
    requires b.Parents() == [z.hash] && n.withdrawn == {} && b.hash !in n.chain.blocks && b.hash !in n.dag.blocks
    ensures Admits(r, n, b)
  {
    hide Judge;
    ChildCleared(r, n.dag.blocks, b);
  }
}
