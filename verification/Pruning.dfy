/** `dag_prune`: the retained window, one pruning pass, and the floor it leaves behind. */
module Pruning {
  import opened Blocks
  import opened Gate
  import opened Stores
  import opened Admission
  import opened Reconcile
  import opened World

  const MIN_RETAIN_BLOCKS: nat := 1_000

  /** The height whose block becomes the pruning point; a window under the hard floor is clamped up. */
  function PruningPointHeight(applied: nat, retain: nat): (h: Option<nat>)
    ensures h.Some? <==> applied > retain && applied > 1_000
    ensures h.Some? ==> h.value + (if retain < 1_000 then 1_000 else retain) == applied
  {
    var window := if retain < MIN_RETAIN_BLOCKS then MIN_RETAIN_BLOCKS else retain;
    if applied < window then None
    else if applied - window == 0 then None
    else Some(applied - window)
  }

  function PruneStep(d: Dag, c: Chain, applied: nat, retain: nat): (d': Dag) {
    match PruningPointHeight(applied, retain)
    case None => d
    case Some(point) =>
      match CanonicalAt(c, point)
      case None => d
      case Some(h) => if h !in d.blocks then d else Dag(KeepFrom(d.blocks, d.blocks[h].header.height), h)
  }

  method PruneOnce(storage: BlockStore, dagStore: DagStore, applied: nat, retain: nat) returns (dropped: nat)
    requires ZERO_HASH !in dagStore.blocks
    modifies dagStore
    ensures dagStore.View() == PruneStep(old(dagStore.View()), storage.View(), applied, retain)
    ensures dropped == |old(dagStore.blocks)| - |dagStore.blocks|
  {
    var point := PruningPointHeight(applied, retain);
    if point.None? { return 0; }
    var h := CanonicalAt(storage.View(), point.value);
    if h.None? { return 0; }
    var ok := dagStore.UpdatePruningPoint(h.value);
    if !ok { return 0; }
    dropped := dagStore.Prune();
  }

  /** What a pass leaves: when the chain is longer than the window (at least 1000 heights, else as
      configured) and the DAG holds the canonical block just below it, that block becomes the pruning point
      and exactly the blocks at or above its height stay; otherwise nothing changes. */
  lemma PruneKeepsTheWindow(d: Dag, c: Chain, applied: nat, retain: nat)
    requires ChainOk(c) && forall h :: h in d.blocks && h in c.blocks ==> d.blocks[h].header == c.blocks[h].header
    ensures var d' := PruneStep(d, c, applied, retain);
      var window := if retain < 1_000 then 1_000 else retain;
      var point := if applied > window then CanonicalAt(c, applied - window) else None;
      if point.Some? && point.value in d.blocks then
        && d'.pruningPoint == point.value
        && (forall h :: h in d'.blocks <==> h in d.blocks && d.blocks[h].header.height >= applied - window)
        && (forall h :: h in d'.blocks ==> d'.blocks[h] == d.blocks[h])
        && PrunedBelow(d') == (if d'.pruningPoint == ZERO_HASH then 0 else applied - window)
      else d' == d
  {
    hide Walk;
  }

  /** The operations of a running node, each taken whole. */
  datatype Op =
    | Receive(b: Block)
    | BootRepair
    | Seed
    | Prune(applied: nat, retain: nat)
    | Apply(tip: Tip)

  ghost predicate OpNext(r: Rules, w: World, op: Op, w': World) {
    match op
    case Receive(b) => w' == Note(w.(node := AdmitStep(r, w.node, b).node))
    case BootRepair =>
      && PrunedBelow(w.node.dag) <= AppliedHeight(w.node.chain)
      && exists rep :: Reconciled(r, w.node, w'.node, rep) && w' == Note(w.(node := w'.node))
    case Seed => w' == Note(w.(node := SeedStep(r, w.node)))
    case Prune(applied, retain) =>
      w' == Note(w.(node := w.node.(dag := PruneStep(w.node.dag, w.node.chain, applied, retain))))
    case Apply(tip) => w' == Note(w.(node := w.node.(chain := w.node.chain.(applied := Some(tip)))))
  }

  ghost predicate AtOrAbove(d: DagMap, floor: nat) {
    forall h :: h in d ==> floor <= d[h].header.height
  }

  /** The pruning point is unset or held, and nothing below it is. */
  ghost predicate FloorInv(r: Rules, w: World) {
    && Inv(r, w) && w.threads == []
    && r.genesis in w.node.chain.blocks
    && (w.node.dag.pruningPoint == ZERO_HASH || w.node.dag.pruningPoint in w.node.dag.blocks)
    && AtOrAbove(w.node.dag.blocks, PrunedBelow(w.node.dag))
  }

  lemma ReceiveStores(r: Rules, w: World, b: Block)
    requires Collisionless(r) && Inv(r, w)
    ensures StoresOk(r, w, AdmitStep(r, w.node, b).node) && w.recorded <= AdmitStep(r, w.node, b).node.withdrawn
  {
    hide AdmitStep, Judge, StoresOk, Canonical, Rooted, VerifyBody, VrfAdmits;
    AdmitEffect(r, w.node, b);
    var a := AdmitStep(r, w.node, b);
    CopiedOk(r, w, ZERO_HASH);
    WithdrawnFree(r, w, a.node.withdrawn);
    if a.outcome.Admitted? {
      var copy := SidecarIngest(r, b).copy;
      ClearedIsCanonical(r, w.node.dag.blocks, b);
      CheckpointMeans(r, b.header.height, b.hash);
      AcceptedIsRooted(r, w.node.dag.blocks, w.ever, b);
      BothWritesOk(r, w, copy);
    }
  }

  lemma BothWritesOk(r: Rules, w: World, copy: Block)
    requires Collisionless(r) && Inv(r, w) && CopyOk(r, w.recorded, w.ever, copy)
    ensures StoresOk(r, w, w.node.(dag := AddToDag(w.node.dag, copy), chain := AddToChain(w.node.chain, copy)))
  {
    hide CopyOk, StoresOk, Inv, Put;
    PutCopyOk(r, w, copy);
    var d := w.node.(dag := AddToDag(w.node.dag, copy));
    var c := w.node.(chain := AddToChain(w.node.chain, copy));
    assert w.node.(dag := w.node.dag) == w.node && w.node.(chain := w.node.chain) == w.node;
    assert w.node.dag.(blocks := w.node.dag.blocks[copy.hash := copy]) ==
           Dag(w.node.dag.blocks[copy.hash := copy], w.node.dag.pruningPoint);
    assert StoresOk(r, w, d) && StoresOk(r, w, c);
    StoresMix(r, w, d, c);
  }

  /** Either store may be taken from either node. */
  lemma StoresMix(r: Rules, w: World, a: Node, b: Node)
    requires StoresOk(r, w, a) && StoresOk(r, w, b) && a.withdrawn == b.withdrawn
    ensures StoresOk(r, w, a.(chain := b.chain))
  {
    hide AllCopiesOk, ChainOk, Canonical;
  }

  lemma NoteStores(r: Rules, w: World, n: Node)
    requires Collisionless(r) && Inv(r, w) && w.threads == []
    requires StoresOk(r, w, n) && w.recorded <= n.withdrawn
    ensures Inv(r, Note(w.(node := n)))
  {
    hide Inv, AllCopiesOk, Sound;
    InvHistory(r, w);
    NoteInv(r, w.(node := n));
  }

  lemma NotedParentsBelow(r: Rules, recorded: set<Hash>, ever: map<Hash, Header>, d: DagMap, e: DagMap)
    requires HistoryOk(r, recorded, ever) && Noted(ever, d) && Noted(ever, e)
    ensures ParentsBelow(d, e)
  {
    hide Banned;
    forall k | k in d && d[k].header.selectedParent in e
      ensures e[d[k].header.selectedParent].header.height < d[k].header.height
    {
      assert Rooted(r, ever, ever[k]);
    }
  }

  /** Every state of every run is one boot repair can mend. */
  lemma RunsAreMendable(r: Rules, w: World)
    requires Inv(r, w)
    ensures Mendable(r, w.node)
  {
    hide HistoryOk, Sound, ThreadOk, ParentsBelow;
    NotedParentsBelow(r, w.recorded, w.ever, w.node.dag.blocks, w.node.dag.blocks);
    NotedParentsBelow(r, w.recorded, w.ever, w.node.dag.blocks, w.node.chain.blocks);
    NotedParentsBelow(r, w.recorded, w.ever, w.node.chain.blocks, w.node.dag.blocks);
    NotedParentsBelow(r, w.recorded, w.ever, w.node.chain.blocks, w.node.chain.blocks);
  }

  /** Every block of `m` was copied out of one of the node's stores. */
  ghost predicate CopiesOf(n: Node, m: DagMap) {
    forall k :: k in m ==>
      (k in n.dag.blocks && m[k] == n.dag.blocks[k]) || (k in n.chain.blocks && m[k] == n.chain.blocks[k])
  }

  lemma RepairOnlyCopies(r: Rules, n: Node, n': Node, rep: Report)
    requires Reconciled(r, n, n', rep)
    ensures CopiesOf(n, n'.chain.blocks) && CopiesOf(n, n'.dag.blocks)
  {
    hide VrfAdmits, AtHeight, IndexRepaired, Ascending;
  }

  lemma RepairKeepsIndex(r: Rules, n: Node, n': Node, rep: Report)
    requires Mendable(r, n) && Reconciled(r, n, n', rep)
    ensures ChainOk(n'.chain)
  {
    hide VrfAdmits, AtHeight, DagRepaired, ChainRepaired, ParentsBelow, Canonical;
    RepairedChainOk(n.chain, n.dag.blocks, AppliedHeight(n.chain) + 1, n.chain.latest + 1, n'.chain);
  }

  lemma RepairStores(r: Rules, w: World, n: Node, rep: Report)
    requires Inv(r, w) && Reconciled(r, w.node, n, rep)
    ensures StoresOk(r, w, n)
  {
    hide Inv, Reconciled, CopiesOf, ChainOk, AllCopiesOk, Canonical, Mendable;
    RunsAreMendable(r, w);
    RepairKeepsIndex(r, w.node, n, rep);
    RepairOnlyCopies(r, w.node, n, rep);
    CopiedFrom(r, w, n.chain.blocks);
    CopiedFrom(r, w, n.dag.blocks);
  }

  /** Blocks copied out of either store are storable copies. */
  lemma CopiedFrom(r: Rules, w: World, m: DagMap)
    requires Inv(r, w) && CopiesOf(w.node, m)
    ensures AllCopiesOk(r, w.recorded, w.ever, m)
    ensures forall k :: k in m ==> m[k].hash == k && Canonical(r, m[k])
  {
    hide CopyOk, HistoryOk, ThreadOk;
    StoredCopiesOk(r, w);
    hide Canonical;
  }

  lemma {:induction false} HeaviestExists(d: DagMap, s: set<Hash>) returns (t: Hash)
    requires s != {} && s <= d.Keys
    ensures t in s && forall h :: h in s ==> d[h].header.blueScore <= d[t].header.blueScore
    decreases s
  {
    var x :| x in s;
    if s == {x} {
      t := x;
    } else {
      var y := HeaviestExists(d, s - {x});
      t := if d[x].header.blueScore <= d[y].header.blueScore then y else x;
    }
  }

  /** A DAG store that holds anything has a tip: its heaviest block (heights alone would not show it). */
  lemma NonemptyHasTip(r: Rules, w: World)
    requires Inv(r, w) && w.node.dag.blocks != map[]
    ensures exists t :: IsTip(w.node.dag.blocks, t)
  {
    hide Banned, ThreadOk, Canonical, ChainOk, Committed;
    var d := w.node.dag.blocks;
    assert d.Keys != {};
    var t := HeaviestExists(d, d.Keys);
    forall h | h in d ensures t !in d[h].Parents() {
      assert Rooted(r, w.ever, w.ever[h]);
    }
    assert IsTip(d, t);
  }

  /** The floor invariant survives when the DAG only gained blocks at or above the floor. */
  lemma FloorFrame(r: Rules, w: World, w': World)
    requires FloorInv(r, w) && Inv(r, w') && w'.threads == []
    requires w.node.chain.blocks.Keys <= w'.node.chain.blocks.Keys
    requires w'.node.dag.pruningPoint == w.node.dag.pruningPoint
    requires forall h :: h in w.node.dag.blocks ==>
      h in w'.node.dag.blocks && w'.node.dag.blocks[h].header == w.node.dag.blocks[h].header
    requires forall h :: h in w'.node.dag.blocks && h !in w.node.dag.blocks ==>
      PrunedBelow(w.node.dag) <= w'.node.dag.blocks[h].header.height
    ensures FloorInv(r, w') && PrunedBelow(w'.node.dag) == PrunedBelow(w.node.dag)
  {
    hide Inv;
  }

  /** A delivery never puts a block below the floor: its selected parent, one height down, is in the
      DAG and so at or above the floor; and genesis is answered from the archive. */
  lemma ReceiveAboveFloor(r: Rules, w: World, b: Block)
    requires Collisionless(r) && FloorInv(r, w)
    ensures var n := AdmitStep(r, w.node, b).node;
      && w.node.chain.blocks.Keys <= n.chain.blocks.Keys && n.dag.pruningPoint == w.node.dag.pruningPoint
      && (forall h :: h in w.node.dag.blocks ==> h in n.dag.blocks && n.dag.blocks[h] == w.node.dag.blocks[h])
      && (forall h :: h in n.dag.blocks && h !in w.node.dag.blocks ==>
            PrunedBelow(w.node.dag) <= n.dag.blocks[h].header.height)
  {
    hide AdmitStep, Judge, Inv, VrfAdmits, VerifyBody;
    AdmitEffect(r, w.node, b);
    if AdmitStep(r, w.node, b).outcome.Admitted? && b.hash !in w.node.dag.blocks {
      PassMeans(r, w.node.dag.blocks, b);
      if !IsGenesis(r, b) { PassParents(r, w.node.dag.blocks, b); }
    }
  }

  lemma RepairAboveFloor(r: Rules, w: World, n: Node, rep: Report)
    requires FloorInv(r, w) && Reconciled(r, w.node, n, rep) && PrunedBelow(w.node.dag) <= AppliedHeight(w.node.chain)
    ensures w.node.chain.blocks.Keys <= n.chain.blocks.Keys && n.dag.pruningPoint == w.node.dag.pruningPoint
    ensures forall h :: h in w.node.dag.blocks ==> h in n.dag.blocks && n.dag.blocks[h] == w.node.dag.blocks[h]
    ensures forall h :: h in n.dag.blocks && h !in w.node.dag.blocks ==>
      PrunedBelow(w.node.dag) <= n.dag.blocks[h].header.height
  {
    hide VrfAdmits, AtHeight, IndexRepaired, Ascending, Inv;
  }

  /** The condition on boot repair is needed, exactly here: repair leaves the floor clean if and only if no
      block the archive indexes between the applied tip and the floor mends. */
  lemma RepairKeepsFloorExactly(r: Rules, w: World, n: Node, rep: Report)
    requires FloorInv(r, w) && Reconciled(r, w.node, n, rep)
    ensures var c, lo := w.node.chain, AppliedHeight(w.node.chain) + 1;
      AtOrAbove(n.dag.blocks, PrunedBelow(w.node.dag)) <==>
        forall h :: lo <= h < PrunedBelow(w.node.dag) && h <= c.latest && h in c.byHeight ==>
          !Mends(r, c, w.node.dag.blocks, lo, c.latest + 1, c.byHeight[h])
  {
    hide Reconciled, Inv, PrunedBelow, AppliedHeight, Mends, Mendable;
    RunsAreMendable(r, w) by { assert Inv(r, w); }
    var c, d, lo, floor := w.node.chain, w.node.dag.blocks, AppliedHeight(w.node.chain) + 1, PrunedBelow(w.node.dag);
    var hi := c.latest + 1;
    forall k ensures k in n.dag.blocks <==> Mends(r, c, d, lo, hi, k) { RepairAddsExactly(r, w.node, n, rep, k); }
    forall h | lo <= h < floor && h < hi && h in c.byHeight && Mends(r, c, d, lo, hi, c.byHeight[h])
      ensures !AtOrAbove(n.dag.blocks, floor)
    {
      RepairedHeight(r, w, n, rep, c.byHeight[h]);
      IndexedHeight(r, w, h);
    }
    forall k | k in n.dag.blocks && n.dag.blocks[k].header.height < floor
      ensures exists h :: lo <= h < floor && h <= c.latest && h in c.byHeight && Mends(r, c, d, lo, hi, c.byHeight[h])
    {
      RepairedHeight(r, w, n, rep, k);
      MendsFromIndex(r, c, d, lo, hi, k);
    }
  }

  lemma IndexedHeight(r: Rules, w: World, h: nat)
    requires Inv(r, w) && h in w.node.chain.byHeight
    ensures w.node.chain.byHeight[h] in w.node.chain.blocks
    ensures w.node.chain.blocks[w.node.chain.byHeight[h]].header.height == h
  {
  }

  /** A repaired block has the height either store files it under. */
  lemma RepairedHeight(r: Rules, w: World, n: Node, rep: Report, k: Hash)
    requires FloorInv(r, w) && Reconciled(r, w.node, n, rep) && k in n.dag.blocks
    ensures k in w.node.chain.blocks ==> n.dag.blocks[k].header == w.node.chain.blocks[k].header
    ensures k in w.node.dag.blocks ==> n.dag.blocks[k] == w.node.dag.blocks[k]
    ensures k !in w.node.dag.blocks ==> k in w.node.chain.blocks
  {
    hide Reconciled, Inv, CopiesOf, Canonical;
    RepairOnlyCopies(r, w.node, n, rep);
    SharedHeaders(r, w, k);
    CopyOf(w.node, n.dag.blocks, k);
    if k in w.node.dag.blocks { KeepsDag(r, w.node, n, rep, k); }
  }

  lemma CopyOf(n: Node, m: DagMap, k: Hash)
    requires CopiesOf(n, m) && k in m
    ensures (k in n.dag.blocks && m[k] == n.dag.blocks[k]) || (k in n.chain.blocks && m[k] == n.chain.blocks[k])
  {
  }

  lemma KeepsDag(r: Rules, n: Node, n': Node, rep: Report, k: Hash)
    requires Reconciled(r, n, n', rep) && k in n.dag.blocks
    ensures k in n'.dag.blocks && n'.dag.blocks[k] == n.dag.blocks[k]
  {
    hide VrfAdmits, ChainRepaired, AtHeight;
  }

  lemma SharedHeaders(r: Rules, w: World, k: Hash)
    requires Inv(r, w)
    ensures k in w.node.dag.blocks && k in w.node.chain.blocks ==>
      w.node.dag.blocks[k].header == w.node.chain.blocks[k].header
  {
    hide Sound, HistoryOk, ThreadOk, Committed;
  }

  lemma MendsFromIndex(r: Rules, c: Chain, d: DagMap, lo: nat, hi: nat, k: Hash)
    requires Mends(r, c, d, lo, hi, k)
    ensures k in d || (k in c.blocks && lo <= c.blocks[k].header.height < hi
                       && c.blocks[k].header.height in c.byHeight && c.byHeight[c.blocks[k].header.height] == k)
  {
  }

  /** A pass whose target lies below the floor is refused: the DAG no longer holds that block. */
  lemma PruneRaisesFloor(r: Rules, w: World, applied: nat, retain: nat)
    requires FloorInv(r, w)
    ensures var d := PruneStep(w.node.dag, w.node.chain, applied, retain);
      && PrunedBelow(w.node.dag) <= PrunedBelow(d) && AtOrAbove(d.blocks, PrunedBelow(d))
      && (d.pruningPoint == ZERO_HASH || d.pruningPoint in d.blocks)
      && exists floor :: d.blocks == KeepFrom(w.node.dag.blocks, floor)
  {
    hide ThreadOk, HistoryOk, Canonical, Committed;
    var d := PruneStep(w.node.dag, w.node.chain, applied, retain);
    NoZero(r, w.recorded, w.ever);
    assert KeepFrom(w.node.dag.blocks, PrunedBelow(w.node.dag)) == w.node.dag.blocks;
  }

  /** One operation: the invariant holds again, and the floor did not go down. */
  lemma OpKeepsFloor(r: Rules, w: World, op: Op, w': World)
    requires Collisionless(r) && FloorInv(r, w) && OpNext(r, w, op, w')
    ensures FloorInv(r, w') && PrunedBelow(w.node.dag) <= PrunedBelow(w'.node.dag)
  {
    hide Inv, Reconciled, AdmitStep, PruneStep, StoresOk, PrunedBelow, SeedStep;
    assert FloorInv(r, w);
    match op {
      case Receive(b) =>
        ReceiveStores(r, w, b);
        NoteStores(r, w, AdmitStep(r, w.node, b).node);
        ReceiveAboveFloor(r, w, b);
        FloorFrame(r, w, w');
      case BootRepair =>
        var rep :| Reconciled(r, w.node, w'.node, rep);
        RepairStores(r, w, w'.node, rep);
        RepairKeepsWithdrawn(r, w.node, w'.node, rep);
        NoteStores(r, w, w'.node) by { InvRecorded(r, w); }
        RepairAboveFloor(r, w, w'.node, rep);
        FloorFrame(r, w, w');
      case Seed =>
        SeedKeepsFloor(r, w);
      case Prune(applied, retain) =>
        PruneRaisesFloor(r, w, applied, retain);
        PruneKeepsInv(r, w, applied, retain);
      case Apply(tip) =>
        ApplyKeepsInv(r, w, tip);
        FloorFrame(r, w, w');
    }
  }

  lemma RepairKeepsWithdrawn(r: Rules, n: Node, n': Node, rep: Report)
    requires Reconciled(r, n, n', rep)
    ensures n'.withdrawn == n.withdrawn
  {
  }

  lemma ApplyKeepsInv(r: Rules, w: World, tip: Tip)
    requires Collisionless(r) && Inv(r, w) && w.threads == []
    ensures Inv(r, Note(w.(node := w.node.(chain := w.node.chain.(applied := Some(tip))))))
  {
    hide Inv, StoresOk;
    CopiedOk(r, w, ZERO_HASH);
    InvRecorded(r, w);
    AppliedFree(r, w, tip);
    NoteStores(r, w, w.node.(chain := w.node.chain.(applied := Some(tip))));
  }

  /** A whole pruning pass is a run of single steps, */
  lemma PruneIsRun(r: Rules, w: World, applied: nat, retain: nat) returns (acts: seq<Action>)
    requires ZERO_HASH !in w.node.dag.blocks
    ensures Exec(r, w, acts).node == w.node.(dag := PruneStep(w.node.dag, w.node.chain, applied, retain))
  {
    hide CanonicalAt, Next, PruningPointHeight;
    var d := PruneStep(w.node.dag, w.node.chain, applied, retain);
    if d == w.node.dag {
      acts := [];
      assert w.node.(dag := w.node.dag) == w.node;
    } else {
      acts := [MovePruningPoint(d.pruningPoint), DropPruned(w.node.dag.blocks.Keys)];
      TwoActs(r, w, acts[0], acts[1]);
      PointThenDrop(r, w, d.pruningPoint);
    }
  }

  lemma PointThenDrop(r: Rules, w: World, h: Hash)
    requires h in w.node.dag.blocks && h != ZERO_HASH
    ensures Next(r, Next(r, w, MovePruningPoint(h)), DropPruned(w.node.dag.blocks.Keys)).node ==
      w.node.(dag := Dag(KeepFrom(w.node.dag.blocks, w.node.dag.blocks[h].header.height), h))
  {
    hide Headers, KeepFrom;
  }

  /** and so is seeding. */
  lemma SeedIsRun(r: Rules, w: World) returns (acts: seq<Action>)
    requires forall h :: h in w.node.chain.blocks ==> w.node.chain.blocks[h].hash == h
    ensures Exec(r, w, acts).node == SeedStep(r, w.node)
  {
    hide VrfAdmits, IsTip, Headers;
    if SeedStep(r, w.node) == w.node {
      acts := [];
    } else {
      acts := [CopyToDag(w.node.chain.byHeight[0])];
      OneAct(r, w, acts[0]);
    }
  }

  lemma OneAct(r: Rules, w: World, a: Action)
    ensures Exec(r, w, [a]) == Next(r, w, a)
  {
    assert [a][..0] == [];
  }

  lemma TwoActs(r: Rules, w: World, a: Action, b: Action)
    ensures Exec(r, w, [a, b]) == Next(r, Next(r, w, a), b)
  {
    hide Next;
    OneAct(r, w, a);
    assert [a, b][..1] == [a];
  }

  lemma AppliedFree(r: Rules, w: World, tip: Tip)
    requires StoresOk(r, w, w.node)
    ensures StoresOk(r, w, w.node.(chain := w.node.chain.(applied := Some(tip))))
  {
    hide CopyOk, Canonical;
  }

  lemma PruneKeepsInv(r: Rules, w: World, applied: nat, retain: nat)
    requires Collisionless(r) && Inv(r, w) && w.threads == []
    ensures Inv(r, Note(w.(node := w.node.(dag := PruneStep(w.node.dag, w.node.chain, applied, retain)))))
  {
    hide Inv, StoresOk;
    CopiedOk(r, w, ZERO_HASH);
    InvRecorded(r, w);
    var d := PruneStep(w.node.dag, w.node.chain, applied, retain);
    if d != w.node.dag { DropOk(r, w, d.pruningPoint, d.blocks); }
    assert w.node.(dag := w.node.dag) == w.node;
    NoteStores(r, w, w.node.(dag := d));
  }

  /** Seeding happens only into an empty DAG, which has no floor. */
  lemma SeedKeepsFloor(r: Rules, w: World)
    requires Collisionless(r) && FloorInv(r, w)
    ensures var w' := Note(w.(node := SeedStep(r, w.node)));
      FloorInv(r, w') && PrunedBelow(w.node.dag) <= PrunedBelow(w'.node.dag)
  {
    hide Inv, StoresOk, VrfAdmits, IsTip;
    CopiedOk(r, w, ZERO_HASH);
    InvRecorded(r, w);
    if w.node.dag.blocks != map[] {
      NonemptyHasTip(r, w);
      NoteStores(r, w, w.node);
      FloorFrame(r, w, Note(w));
      assert w.(node := w.node) == w;
    } else {
      assert SeedStep(r, w.node) == w.node || 0 in w.node.chain.byHeight;
      if 0 in w.node.chain.byHeight { CopiedOk(r, w, w.node.chain.byHeight[0]); }
      NoteStores(r, w, SeedStep(r, w.node));
      FloorFrame(r, w, Note(w.(node := SeedStep(r, w.node))));
    }
  }

  ghost predicate OpRun(r: Rules, ws: seq<World>, ops: seq<Op>) {
    |ws| == |ops| + 1 && forall i :: 0 <= i < |ops| ==> OpNext(r, ws[i], ops[i], ws[i + 1])
  }

  /** The pruning floor only rises: over every run of deliveries, boot repairs with the applied tip at
      or above the floor, seedings, applied-tip moves in either direction and pruning passes with any
      window, no state's DAG holds a block below the floor of that or any earlier state. */
  lemma {:induction false} FloorOnlyRises(r: Rules, ws: seq<World>, ops: seq<Op>, i: nat, j: nat)
    requires Collisionless(r) && OpRun(r, ws, ops) && FloorInv(r, ws[0]) && i <= j < |ws|
    ensures FloorInv(r, ws[j]) && PrunedBelow(ws[i].node.dag) <= PrunedBelow(ws[j].node.dag)
    ensures AtOrAbove(ws[j].node.dag.blocks, PrunedBelow(ws[i].node.dag))
    decreases j
  {
    hide Inv, OpNext, PrunedBelow;
    if j > 0 {
      FloorOnlyRises(r, ws, ops, if i < j then i else j - 1, j - 1);
      OpKeepsFloor(r, ws[j - 1], ops[j - 1], ws[j]);
    }
  }
}
