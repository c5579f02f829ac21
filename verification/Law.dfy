/** What `admit` decides and does, said over the fields of the block and of the stores alone. */
module Law {
  import opened Blocks
  import opened Gate
  import opened Stores
  import opened Admission

  /** Withdrawn itself or built on a withdrawn block, or not the block a checkpoint names for its height. */
  ghost predicate Refuses(r: Rules, n: Node, b: Block) {
    || b.hash in n.withdrawn
    || (exists p :: p in b.Parents() && p in n.withdrawn)
    || Contradicts(r.checkpoints, b.header.height, b.hash)
  }

  /** In both stores, or only in the archive and below the height of the pruning point. */
  ghost predicate Had(n: Node, b: Block) {
    && b.hash in n.chain.blocks
    && (|| b.hash in n.dag.blocks
        || (n.dag.pruningPoint != 0 && n.dag.pruningPoint in n.dag.blocks
            && b.header.height < n.dag.blocks[n.dag.pruningPoint].header.height))
  }

  /** The one block that needs no parent. */
  ghost predicate Root(r: Rules, b: Block) {
    && b.header.height == 0 && |b.Parents()| == 1 && b.Parents()[0] == 0 && b.hash == r.genesis
    && b.hash == r.hashOf(Preimage(b.header, b.txRoot, b.otherRoots, 0))
  }

  ghost predicate Active(r: Rules, b: Block) {
    r.hardeningHeight.Some? && b.header.height > 0 && b.header.height >= r.hardeningHeight.value
  }

  /** The hash is the block's own; at hardened heights it covers the sidecars, the root is that of the
      transactions, and every transaction is authentic. */
  ghost predicate Genuine(r: Rules, b: Block) {
    if Active(r, b) then
      && b.hash == r.hashOf(Preimage(b.header, b.txRoot, b.otherRoots, b.sidecars))
      && b.txRoot == r.txRootOf(b.transactions)
      && forall t :: t in b.transactions ==> r.authentic(t)
    else b.hash == r.hashOf(Preimage(b.header, b.txRoot, b.otherRoots, 0))
  }

  /** The copy that is written: sidecars that no hash covers are dropped, except from genesis. */
  ghost function Written(r: Rules, b: Block): (c: Block) {
    if b.header.height > 0 && !Active(r, b) then b.(sidecars := 0) else b
  }

  /** Under strict VRF the proof verifies against the held selected parent, unless the block is the root or
      was let into the DAG before. */
  ghost predicate Elected(r: Rules, n: Node, b: Block) {
    || !r.strictVrf || b.hash in n.dag.blocks || Root(r, b)
    || (&& b.header.selectedParent in n.dag.blocks
        && r.vrfOk(Written(r, b), n.dag.blocks[b.header.selectedParent].header))
  }

  /** What the law admits. */
  ghost predicate Lawful(r: Rules, n: Node, b: Block) {
    && !Refuses(r, n, b) && !Had(n, b)
    && (Root(r, b) || (GoodParents(r, b) && Linked(r, n.dag.blocks, b)))
    && Genuine(r, b) && Elected(r, n, b)
  }

  lemma RefusesMeans(r: Rules, n: Node, b: Block)
    ensures Refuses(r, n, b) <==> WithdrawnHit(n.withdrawn, b) || CheckpointRefuses(r, b.header.height, b.hash)
  {
    CheckpointMeans(r, b.header.height, b.hash);
  }

  lemma HadMeans(n: Node, b: Block)
    ensures Had(n, b) <==> InBoth(n, b.hash) || PrunedHere(n, b)
  {
  }

  lemma RootMeans(r: Rules, b: Block)
    ensures Root(r, b) <==> IsGenesis(r, b)
  {
  }

  /** The body and the sidecar rule together. */
  lemma GenuineMeans(r: Rules, b: Block)
    requires b.header.height == 0 ==> IsGenesis(r, b)
    ensures Genuine(r, b) <==> VerifyBody(r, b) && SidecarIngest(r, b).Store?
    ensures SidecarIngest(r, b).Store? ==> SidecarIngest(r, b).copy == Written(r, b)
  {
    assert forall t :: t in b.transactions <==> exists i :: 0 <= i < |b.transactions| && b.transactions[i] == t;
  }

  lemma ElectedMeans(r: Rules, n: Node, b: Block)
    requires b.header.height == 0 ==> IsGenesis(r, b)
    ensures Elected(r, n, b) <==> b.hash in n.dag.blocks || VrfAdmits(r, n.dag.blocks, Written(r, b))
  {
    RootMeans(r, b);
    RootMeans(r, Written(r, b));
  }

  lemma LinkedIsHigh(r: Rules, d: DagMap, b: Block)
    ensures Root(r, b) ==> b.header.height == 0
    ensures Linked(r, d, b) ==> b.header.height > 0
  {
  }

  /** A delivery is admitted exactly when the law admits the block, and then both stores hold the written
      copy unless they had one, the index names it where it is new, and nothing else has changed. */
  lemma AdmitsExactly(r: Rules, n: Node, b: Block)
    ensures AdmitStep(r, n, b).outcome.Admitted? <==> Lawful(r, n, b)
    ensures Lawful(r, n, b) ==>
      var c, a := Written(r, b), AdmitStep(r, n, b);
      && a.outcome.completedPartial == (b.hash in n.chain.blocks || b.hash in n.dag.blocks)
      && a.node.withdrawn == n.withdrawn && a.node.dag.pruningPoint == n.dag.pruningPoint
      && a.node.chain.applied == n.chain.applied
      && a.node.dag.blocks == (if b.hash in n.dag.blocks then n.dag.blocks else n.dag.blocks[b.hash := c])
      && if b.hash in n.chain.blocks then a.node.chain == n.chain
         else
           && a.node.chain.blocks == n.chain.blocks[b.hash := c]
           && a.node.chain.byHeight == n.chain.byHeight[b.header.height := b.hash]
           && a.node.chain.latest == if b.header.height > n.chain.latest then b.header.height else n.chain.latest
  {
    RefusesMeans(r, n, b);
    HadMeans(n, b);
    RootMeans(r, b);
    LinkedIsHigh(r, n.dag.blocks, b);
    PassMeans(r, n.dag.blocks, b);
    if Judge(r, n.dag.blocks, b).Pass? {
      GenuineMeans(r, b);
      ElectedMeans(r, n, b);
    }
    hide Refuses, Had, Root, Genuine, Elected, Written, GoodParents, Linked, Judge;
    hide WithdrawnHit, CheckpointRefuses, IsGenesis, VerifyBody, VrfAdmits, Remember;
  }

  /** A delivery that is not admitted writes nothing; the withdrawn set grows by the block exactly when it is
      built on a withdrawn one, is not withdrawn itself, and fewer than a million are. */
  lemma RefusalWritesNothing(r: Rules, n: Node, b: Block)
    ensures var a := AdmitStep(r, n, b);
      && (!a.outcome.Admitted? ==> a.node.dag == n.dag && a.node.chain == n.chain)
      && a.node.withdrawn ==
         if b.hash !in n.withdrawn && (exists p :: p in b.Parents() && p in n.withdrawn) && |n.withdrawn| < 1_000_000
         then n.withdrawn + {b.hash} else n.withdrawn
  {
    hide Judge, VerifyBody, VrfAdmits, CheckpointRefuses;
  }

  /** Any other answer, exactly: refused blocks and lawless ones are rejected, held ones are already
      admitted, and a block waits exactly when the gate lacks one of its parents. */
  lemma AnswersExactly(r: Rules, n: Node, b: Block)
    ensures var o := AdmitStep(r, n, b).outcome;
      && (o == AlreadyAdmitted <==> !Refuses(r, n, b) && Had(n, b))
      && (o.Deferred? <==> !Refuses(r, n, b) && !Had(n, b) && Judge(r, n.dag.blocks, b).Missing?)
      && (o.Deferred? ==> o == Deferred(Judge(r, n.dag.blocks, b).parent))
  {
    RefusesMeans(r, n, b);
    HadMeans(n, b);
    hide Refuses, Had, Judge, WithdrawnHit, CheckpointRefuses, VerifyBody, VrfAdmits, Remember, StoreInto;
  }

  /** A checkpoint names the only block of its height: any other is rejected and changes neither store,
      and the named one is answered as if there were no checkpoints, as is every block of another height. */
  lemma CheckpointDecides(r: Rules, n: Node, b: Block, i: nat)
    requires i < |r.checkpoints| && b.header.height == r.checkpoints[i].height
    requires forall j :: 0 <= j < i ==> r.checkpoints[j].height != b.header.height
    ensures b.hash != r.checkpoints[i].hash ==>
      var a := AdmitStep(r, n, b); a.outcome == Rejected && a.node.dag == n.dag && a.node.chain == n.chain
    ensures b.hash == r.checkpoints[i].hash ==> AdmitStep(r, n, b) == AdmitStep(r.(checkpoints := []), n, b)
  {
    CheckpointMeans(r, b.header.height, b.hash);
    FirstEntry(r.checkpoints, b.header.height, i);
    if b.hash == r.checkpoints[i].hash { WithoutCheckpoints(r, n, b); }
    hide Judge, VerifyBody, VrfAdmits, WithdrawnHit, Remember;
  }

  lemma NoCheckpointHere(r: Rules, n: Node, b: Block)
    requires forall i :: 0 <= i < |r.checkpoints| ==> r.checkpoints[i].height != b.header.height
    ensures AdmitStep(r, n, b) == AdmitStep(r.(checkpoints := []), n, b)
  {
    CheckpointMeans(r, b.header.height, b.hash);
    WithoutCheckpoints(r, n, b);
  }

  lemma WithoutCheckpoints(r: Rules, n: Node, b: Block)
    requires !CheckpointRefuses(r, b.header.height, b.hash)
    ensures AdmitStep(r, n, b) == AdmitStep(r.(checkpoints := []), n, b)
  {
    var q := r.(checkpoints := []);
    SameVerdict(r, q, n.dag.blocks, b);
    assert SidecarIngest(r, b) == SidecarIngest(q, b) && VerifyBody(r, b) == VerifyBody(q, b);
    assert SidecarIngest(r, b).Store? ==>
      VrfAdmits(r, n.dag.blocks, SidecarIngest(r, b).copy) == VrfAdmits(q, n.dag.blocks, SidecarIngest(q, b).copy);
    hide Judge, VerifyBody, VrfAdmits, WithdrawnHit, Remember, SidecarIngest;
  }

  lemma SameVerdict(r: Rules, q: Rules, d: DagMap, b: Block)
    requires q == r.(checkpoints := [])
    ensures Judge(r, d, b) == Judge(q, d, b)
  {
    if b.header.selectedParent in d { SameMergeVerdict(r, q, d, b.header, d[b.header.selectedParent].header, 0); }
  }

  lemma {:induction false} SameMergeVerdict(r: Rules, q: Rules, d: DagMap, h: Header, sp: Header, i: nat)
    requires q == r.(checkpoints := []) && i <= |h.mergeParents|
    ensures MergeVerdict(r, d, h, sp, i) == MergeVerdict(q, d, h, sp, i)
    decreases |h.mergeParents| - i
  {
    if i < |h.mergeParents| { SameMergeVerdict(r, q, d, h, sp, i + 1); }
  }
}
