/** `BlockAdmission::admit`: the single path by which a block enters the node. `AdmitStep` is the
    specification on values; the class performs the same writes in the source's order. */
module Admission {
  import opened Blocks
  import opened Gate
  import opened Stores

  /** Cap on withdrawn hashes held in memory. */
  const MAX_WITHDRAWN: nat := 1_000_000

  datatype Node = Node(dag: Dag, chain: Chain, withdrawn: set<Hash>)

  datatype Outcome =
    | Admitted(completedPartial: bool)
    | AlreadyAdmitted
    | Deferred(missingParent: Hash)
    | Rejected

  datatype Admission = Admission(node: Node, outcome: Outcome)

  predicate BuiltOn(w: set<Hash>, b: Block) {
    exists p :: p in b.Parents() && p in w
  }

  /** Refused as withdrawn: the block or one of its parents is in the set. */
  predicate WithdrawnHit(w: set<Hash>, b: Block) {
    b.hash in w || BuiltOn(w, b)
  }

  /** A block built on a withdrawn one is remembered too, while there is room. */
  function Remember(w: set<Hash>, b: Block): (w': set<Hash>) {
    if b.hash !in w && BuiltOn(w, b) && |w| < MAX_WITHDRAWN then w + {b.hash} else w
  }

  function CheckpointAt(cps: seq<Checkpoint>, height: nat): (h: Option<Hash>)
    ensures h.Some? ==> exists c :: c in cps && c.height == height && c.hash == h.value
    ensures h.None? ==> forall c :: c in cps ==> c.height != height
  {
    if cps == [] then None
    else if cps[0].height == height then Some(cps[0].hash)
    else CheckpointAt(cps[1..], height)
  }

  /** The block sits at a checkpoint height under another hash. */
  predicate CheckpointRefuses(r: Rules, height: nat, hash: Hash) {
    CheckpointAt(r.checkpoints, height).Some? && CheckpointAt(r.checkpoints, height).value != hash
  }

  /** The first entry for the height names another hash. */
  ghost predicate Contradicts(cps: seq<Checkpoint>, height: nat, hash: Hash) {
    exists i :: 0 <= i < |cps| && cps[i].height == height && cps[i].hash != hash
                && forall j :: 0 <= j < i ==> cps[j].height != height
  }

  lemma {:induction false} FirstEntry(cps: seq<Checkpoint>, height: nat, i: nat)
    requires i < |cps| && cps[i].height == height && forall j :: 0 <= j < i ==> cps[j].height != height
    ensures CheckpointAt(cps, height) == Some(cps[i].hash)
  {
    if i > 0 { FirstEntry(cps[1..], height, i - 1); }
  }

  lemma {:induction false} EntryFound(cps: seq<Checkpoint>, height: nat) returns (i: nat)
    requires CheckpointAt(cps, height).Some?
    ensures i < |cps| && cps[i].height == height && forall j :: 0 <= j < i ==> cps[j].height != height
  {
    if cps[0].height == height {
      i := 0;
    } else {
      i := EntryFound(cps[1..], height);
      i := i + 1;
    }
  }

  lemma CheckpointMeans(r: Rules, height: nat, hash: Hash)
    ensures CheckpointRefuses(r, height, hash) <==> Contradicts(r.checkpoints, height, hash)
  {
    hide CheckpointAt;
    if CheckpointAt(r.checkpoints, height).Some? {
      var i := EntryFound(r.checkpoints, height);
      FirstEntry(r.checkpoints, height, i);
      if j :| 0 <= j < |r.checkpoints| && r.checkpoints[j].height == height && r.checkpoints[j].hash != hash
              && forall k :: 0 <= k < j ==> r.checkpoints[k].height != height {
        FirstEntry(r.checkpoints, height, j);
      }
    }
  }

  predicate InBoth(n: Node, h: Hash) { h in n.chain.blocks && h in n.dag.blocks }

  /** Chain store yes, DAG store no, and below the pruning point: pruned, not half-written. */
  predicate PrunedHere(n: Node, b: Block) {
    b.hash in n.chain.blocks && b.hash !in n.dag.blocks && b.header.height < PrunedBelow(n.dag)
  }

  /** Every check that precedes the writes. */
  predicate Cleared(r: Rules, d: DagMap, b: Block) {
    Judge(r, d, b).Pass? && VerifyBody(r, b) && SidecarIngest(r, b).Store?
  }

  function AddToDag(d: Dag, b: Block): (d': Dag) {
    if b.hash in d.blocks then d else d.(blocks := d.blocks[b.hash := b])
  }

  function AddToChain(c: Chain, b: Block): (c': Chain) {
    if b.hash in c.blocks then c else Put(c, b)
  }

  function AdmitStep(r: Rules, n: Node, b: Block): (a: Admission) {
    if WithdrawnHit(n.withdrawn, b) then
      Admission(n.(withdrawn := Remember(n.withdrawn, b)), Rejected)
    else if CheckpointRefuses(r, b.header.height, b.hash) then Admission(n, Rejected)
    else if InBoth(n, b.hash) || PrunedHere(n, b) then Admission(n, AlreadyAdmitted)
    else
      match Judge(r, n.dag.blocks, b)
      case Missing(p) => Admission(n, Deferred(p))
      case Invalid => Admission(n, Rejected)
      case Pass =>
        if !VerifyBody(r, b) then Admission(n, Rejected)
        else
          match SidecarIngest(r, b)
          case Refused => Admission(n, Rejected)
          case Store(copy) =>
            if StoreInto(r, n.dag, copy).VrfRefused? then Admission(n, Rejected)
            else Admission(n.(dag := AddToDag(n.dag, copy), chain := AddToChain(n.chain, copy)),
                           Admitted((b.hash in n.chain.blocks) != (b.hash in n.dag.blocks)))
  }

  /** Nothing a delivery does removes a block or moves the pruning point; only a cleared block is
      ever written, only under its own hash, and only as its ingest copy. */
  lemma AdmitEffect(r: Rules, n: Node, b: Block)
    ensures var a := AdmitStep(r, n, b);
      && a.node.dag.pruningPoint == n.dag.pruningPoint
      && (a.outcome.Admitted? ==>
            && !WithdrawnHit(n.withdrawn, b) && !CheckpointRefuses(r, b.header.height, b.hash)
            && !InBoth(n, b.hash) && !PrunedHere(n, b)
            && Cleared(r, n.dag.blocks, b)
            && (b.hash in n.dag.blocks || VrfAdmits(r, n.dag.blocks, SidecarIngest(r, b).copy))
            && var copy := SidecarIngest(r, b).copy;
               a.node == n.(dag := AddToDag(n.dag, copy), chain := AddToChain(n.chain, copy)))
      && (!a.outcome.Admitted? ==> a.node == n.(withdrawn := a.node.withdrawn))
      && (a.node.withdrawn != n.withdrawn ==>
            a.node.withdrawn == n.withdrawn + {b.hash} && BuiltOn(n.withdrawn, b) && a.outcome == Rejected)
  {
  }

  /** Every stored copy sits under its own hash and is canonical, and the height index is right. */
  ghost predicate Sound(r: Rules, n: Node) {
    && ChainOk(n.chain)
    && (forall h :: h in n.dag.blocks ==> n.dag.blocks[h].hash == h && Canonical(r, n.dag.blocks[h]))
    && (forall h :: h in n.chain.blocks ==> Canonical(r, n.chain.blocks[h]))
  }

  /** A cleared block's ingest copy is canonical, whatever copy was delivered. */
  lemma ClearedIsCanonical(r: Rules, d: DagMap, b: Block)
    requires Cleared(r, d, b)
    ensures Canonical(r, SidecarIngest(r, b).copy)
  {
    PassMeans(r, d, b);
    IngestIsCanonical(r, b);
  }

  lemma AdmitKeepsSound(r: Rules, n: Node, b: Block)
    requires Sound(r, n)
    ensures Sound(r, AdmitStep(r, n, b).node)
  {
    hide AdmitStep, Judge, Sound, Canonical, VerifyBody, VrfAdmits, CheckpointRefuses, BuiltOn, WithdrawnHit;
    AdmitEffect(r, n, b);
    var a := AdmitStep(r, n, b);
    if a.outcome.Admitted? {
      ClearedIsCanonical(r, n.dag.blocks, b);
      AddKeepsSound(r, n, SidecarIngest(r, b).copy);
    } else {
      WithdrawnKeepsSound(r, n, a.node.withdrawn);
    }
  }

  lemma AddKeepsSound(r: Rules, n: Node, c: Block)
    requires Sound(r, n) && Canonical(r, c)
    ensures Sound(r, n.(dag := AddToDag(n.dag, c), chain := AddToChain(n.chain, c)))
  {
    hide Canonical;
    if c.hash !in n.chain.blocks { PutKeepsChainOk(n.chain, c); }
    hide ChainOk;
  }

  lemma WithdrawnKeepsSound(r: Rules, n: Node, w: set<Hash>)
    requires Sound(r, n)
    ensures Sound(r, n.(withdrawn := w))
  {
    hide Canonical, ChainOk;
  }

  lemma GenesisStores(r: Rules, d: DagMap, b: Block)
    requires IsGenesis(r, b)
    ensures SidecarIngest(r, b) == Store(b) && VrfAdmits(r, d, b)
  {
  }

  lemma GenesisParents(r: Rules, b: Block)
    requires IsGenesis(r, b)
    ensures b.Parents() == [ZERO_HASH]
  {
  }

  class BlockAdmission {
    const rules: Rules
    const storage: BlockStore
    const dagStore: DagStore
    var withdrawn: set<Hash>

    /** A start loads the withdrawn hashes the database recorded; descendants remembered by an
        earlier process are forgotten. */
    constructor (rules: Rules, storage: BlockStore, dagStore: DagStore, recorded: set<Hash>)
      ensures this.rules == rules && this.storage == storage && this.dagStore == dagStore
      ensures withdrawn == recorded
    {
      this.rules := rules;
      this.storage := storage;
      this.dagStore := dagStore;
      this.withdrawn := recorded;
    }

    function View(): (n: Node)
      reads this, storage, dagStore
    {
      Node(dagStore.View(), storage.View(), withdrawn)
    }

    method WithdrawnReason(b: Block) returns (refused: bool)
      modifies this`withdrawn
      ensures refused == WithdrawnHit(old(withdrawn), b)
      ensures withdrawn == Remember(old(withdrawn), b)
    {
      if withdrawn == {} { return false; }
      if b.hash in withdrawn { return true; }
      if !BuiltOn(withdrawn, b) { return false; }
      if |withdrawn| < MAX_WITHDRAWN { withdrawn := withdrawn + {b.hash}; }
      return true;
    }

    method Admit(b: Block) returns (o: Outcome)
      modifies this`withdrawn, storage, dagStore`blocks
      ensures View() == AdmitStep(rules, old(View()), b).node
      ensures o == AdmitStep(rules, old(View()), b).outcome
    {
      var withdrawnHit := WithdrawnReason(b);
      if withdrawnHit { return Rejected; }
      if CheckpointRefuses(rules, b.header.height, b.hash) { return Rejected; }

      var inChain := b.hash in storage.blocks;
      var inDag := b.hash in dagStore.blocks;
      if inChain && inDag { return AlreadyAdmitted; }
      if inChain && !inDag {
        if b.header.height < PrunedBelow(dagStore.View()) { return AlreadyAdmitted; }
      }
      var completedPartial := inChain != inDag;

      match Judge(rules, dagStore.blocks, b) {
        case Missing(p) => return Deferred(p);
        case Invalid => return Rejected;
        case Pass =>
      }
      if !VerifyBody(rules, b) { return Rejected; }
      var ingest := SidecarIngest(rules, b);
      if ingest.Refused? { return Rejected; }
      var copy := ingest.copy;

      if !inDag {
        var stored := dagStore.StoreBlock(rules, copy);
        if stored.VrfRefused? { return Rejected; }
      }
      if !inChain { storage.PutBlock(copy); }
      return Admitted(completedPartial);
    }
  }
}
