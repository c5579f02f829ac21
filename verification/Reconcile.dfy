/** `reconcile` and `seed_genesis`: what boot repairs. */
module Reconcile {
  import opened Blocks
  import opened Gate
  import opened Stores
  import opened Admission

  datatype Report = Report(chainWrites: seq<nat>, dagWrites: seq<nat>, gaps: seq<nat>)

  ghost predicate Ascending(s: seq<nat>) {
    forall i, j :: 0 <= i < j < |s| ==> s[i] < s[j]
  }

  /** Both stores file a shared hash under one header. */
  ghost predicate Agree(c: Chain, d: DagMap) {
    forall k :: k in c.blocks && k in d ==> c.blocks[k].header == d[k].header
  }

  /** A selected parent held by `e` is below every block of `d` that names it. */
  ghost predicate ParentsBelow(d: DagMap, e: DagMap) {
    forall k :: k in d && d[k].header.selectedParent in e ==>
      e[d[k].header.selectedParent].header.height < d[k].header.height
  }

  ghost predicate LinksDown(c: Chain) { ParentsBelow(c.blocks, c.blocks) }

  /** What every run keeps (see `World.Inv`) and boot repair relies on. */
  ghost predicate Mendable(r: Rules, n: Node) {
    && Sound(r, n) && Agree(n.chain, n.dag.blocks)
    && ParentsBelow(n.chain.blocks, n.chain.blocks) && ParentsBelow(n.chain.blocks, n.dag.blocks)
    && ParentsBelow(n.dag.blocks, n.chain.blocks) && ParentsBelow(n.dag.blocks, n.dag.blocks)
  }

  /** The blocks `d` has at heights in [lo, hi) that the height index of `c` lacks are now in `m`. */
  ghost predicate BlocksRepaired(c: Chain, d: DagMap, lo: nat, hi: nat, m: map<Hash, Block>) {
    && (forall k :: k in m <==>
          k in c.blocks || (k in d && lo <= d[k].header.height < hi && d[k].header.height !in c.byHeight))
    && (forall k :: k in m ==> m[k] == if k in c.blocks then c.blocks[k] else d[k])
  }

  /** Each such height is now indexed to one of them, and no other entry moved. */
  ghost predicate IndexRepaired(c: Chain, d: DagMap, lo: nat, hi: nat, index: map<nat, Hash>) {
    && (forall h :: h in c.byHeight ==> h in index && index[h] == c.byHeight[h])
    && (forall h :: h in index && h !in c.byHeight ==> lo <= h < hi && index[h] in AtHeight(d, h))
    && (forall h :: lo <= h < hi && AtHeight(d, h) != {} ==> h in index)
  }

  ghost predicate ChainRepaired(c: Chain, d: DagMap, lo: nat, hi: nat, c': Chain) {
    && c'.latest == c.latest && c'.applied == c.applied
    && BlocksRepaired(c, d, lo, hi, c'.blocks) && IndexRepaired(c, d, lo, hi, c'.byHeight)
  }

  ghost predicate FromIndex(c: Chain, lo: nat, hi: nat, k: Hash) {
    && k in c.blocks && lo <= c.blocks[k].header.height < hi
    && IndexAt(c, c.blocks[k].header.height) == Some(k)
  }

  /** Heights in [lo, hi): the indexed block is now in the DAG too, unless the store's VRF rule
      refuses it there; nothing else was added. */
  ghost predicate DagRepaired(r: Rules, c: Chain, d: DagMap, lo: nat, hi: nat, d': DagMap) {
    && (forall k :: k in d ==> k in d' && d'[k] == d[k])
    && (forall k :: k in d' && k !in d ==>
          FromIndex(c, lo, hi, k) && d'[k] == c.blocks[k] && VrfAdmits(r, d', c.blocks[k]))
    && (forall h :: lo <= h < hi && h in c.byHeight ==>
          c.byHeight[h] in c.blocks && (c.byHeight[h] in d' || !VrfAdmits(r, d', c.blocks[c.byHeight[h]])))
  }

  /** One fault-free pass over the heights above the applied tip. */
  ghost predicate Reconciled(r: Rules, n: Node, n': Node, rep: Report) {
    var lo, hi := AppliedHeight(n.chain) + 1, n.chain.latest + 1;
    && n'.withdrawn == n.withdrawn && n'.dag.pruningPoint == n.dag.pruningPoint
    && ChainRepaired(n.chain, n.dag.blocks, lo, hi, n'.chain)
    && DagRepaired(r, n'.chain, n.dag.blocks, lo, hi, n'.dag.blocks)
    && Ascending(rep.gaps) && Ascending(rep.chainWrites) && Ascending(rep.dagWrites)
    && (forall h :: h in rep.gaps <==> lo <= h < hi && h !in n.chain.byHeight && AtHeight(n.dag.blocks, h) == {})
    && (forall h :: h in rep.chainWrites <==> lo <= h < hi && h !in n.chain.byHeight && AtHeight(n.dag.blocks, h) != {})
    && (forall h :: h in rep.dagWrites <==>
          lo <= h < hi && h in n'.chain.byHeight && n'.chain.byHeight[h] in n'.dag.blocks
            && n'.chain.byHeight[h] !in n.dag.blocks)
  }

  /** `b` is `a` with the blocks `todo` of `d` written over it. */
  ghost predicate Overlaid(a: map<Hash, Block>, d: DagMap, put: set<Hash>, b: map<Hash, Block>) {
    && put <= d.Keys
    && (forall k :: k in b <==> k in a || k in put)
    && (forall k :: k in b ==> b[k] == if k in put then d[k] else a[k])
  }

  /** Finish the interrupted chain writes of one lost or contested height, in any order. */
  method CompleteHeight(storage: BlockStore, d: DagMap, h: nat)
    requires h <= storage.latest && AtHeight(d, h) != {}
    requires forall k :: k in d ==> d[k].hash == k
    modifies storage
    ensures storage.latest == old(storage.latest) && storage.applied == old(storage.applied)
    ensures Overlaid(old(storage.blocks), d, AtHeight(d, h), storage.blocks)
    ensures exists k :: k in AtHeight(d, h) && storage.byHeight == old(storage.byHeight)[h := k]
  {
    var todo := AtHeight(d, h);
    var k :| k in todo;
    storage.PutBlock(d[k]);
    ghost var last := k;
    todo := todo - {k};
    while todo != {}
      invariant todo <= AtHeight(d, h)
      invariant storage.latest == old(storage.latest) && storage.applied == old(storage.applied)
      invariant Overlaid(old(storage.blocks), d, AtHeight(d, h) - todo, storage.blocks)
      invariant last in AtHeight(d, h) && storage.byHeight == old(storage.byHeight)[h := last]
      decreases todo
    {
      k :| k in todo;
      todo := todo - {k};
      storage.PutBlock(d[k]);
      last := k;
    }
    assert AtHeight(d, h) - todo == AtHeight(d, h);
  }

  lemma SkipHeight(c: Chain, d: DagMap, lo: nat, h: nat, c': Chain)
    requires ChainRepaired(c, d, lo, h, c') && lo <= h
    requires h in c.byHeight || AtHeight(d, h) == {}
    ensures ChainRepaired(c, d, lo, h + 1, c')
  {
    forall k | k in d && d[k].header.height == h ensures h in c.byHeight { assert k in AtHeight(d, h); }
  }

  lemma FillBlocks(c: Chain, d: DagMap, lo: nat, h: nat, m1: map<Hash, Block>, m2: map<Hash, Block>)
    requires ChainOk(c) && Agree(c, d) && BlocksRepaired(c, d, lo, h, m1) && lo <= h && h !in c.byHeight
    requires Overlaid(m1, d, AtHeight(d, h), m2)
    ensures BlocksRepaired(c, d, lo, h + 1, m2)
  {
    forall x | x in AtHeight(d, h) ensures x in d && d[x].header.height == h && x !in c.blocks { }
    hide ChainOk, Agree;
    assert forall x :: x in d && d[x].header.height == h ==> x in AtHeight(d, h);
    hide AtHeight;
  }

  lemma FillHeight(c: Chain, d: DagMap, lo: nat, h: nat, c1: Chain, c2: Chain, k: Hash)
    requires ChainOk(c) && Agree(c, d) && ChainRepaired(c, d, lo, h, c1) && lo <= h && h !in c.byHeight
    requires Overlaid(c1.blocks, d, AtHeight(d, h), c2.blocks) && k in AtHeight(d, h)
    requires c2 == Chain(c2.blocks, c1.byHeight[h := k], c1.latest, c1.applied)
    ensures ChainRepaired(c, d, lo, h + 1, c2)
  {
    hide ChainOk, Agree, BlocksRepaired, IndexRepaired, Overlaid, AtHeight;
    FillBlocks(c, d, lo, h, c1.blocks, c2.blocks);
    FillIndex(c, d, lo, h, c1.byHeight, k);
  }

  lemma FillIndex(c: Chain, d: DagMap, lo: nat, h: nat, index: map<nat, Hash>, k: Hash)
    requires IndexRepaired(c, d, lo, h, index) && lo <= h && h !in c.byHeight && k in AtHeight(d, h)
    ensures IndexRepaired(c, d, lo, h + 1, index[h := k])
  {
    hide AtHeight;
  }

  method RepairChain(storage: BlockStore, d: DagMap, lo: nat) returns (writes: seq<nat>, gaps: seq<nat>)
    requires ChainOk(storage.View()) && Agree(storage.View(), d) && forall k :: k in d ==> d[k].hash == k
    requires lo <= storage.latest + 1
    modifies storage
    ensures ChainRepaired(old(storage.View()), d, lo, old(storage.latest) + 1, storage.View())
    ensures Ascending(writes) && Ascending(gaps)
    ensures forall h :: h in gaps <==>
      lo <= h <= old(storage.latest) && h !in old(storage.byHeight) && AtHeight(d, h) == {}
    ensures forall h :: h in writes <==>
      lo <= h <= old(storage.latest) && h !in old(storage.byHeight) && AtHeight(d, h) != {}
  {
    hide ChainRepaired, ChainOk, Agree, Overlaid, AtHeight;
    ghost var c := storage.View();
    var latest := storage.latest;
    writes, gaps := [], [];
    var h := lo;
    NothingYet(c, d, lo);
    while h <= latest
      invariant lo <= h <= latest + 1
      invariant ChainRepaired(c, d, lo, h, storage.View())
      invariant Ascending(writes) && Ascending(gaps)
      invariant forall k :: k in gaps <==> lo <= k < h && k !in c.byHeight && AtHeight(d, k) == {}
      invariant forall k :: k in writes <==> lo <= k < h && k !in c.byHeight && AtHeight(d, k) != {}
    {
      ghost var c1 := storage.View();
      IndexUntouched(c, d, lo, h, c1);
      if h in storage.byHeight {
        SkipHeight(c, d, lo, h, c1);
      } else if AtHeight(d, h) == {} {
        SkipHeight(c, d, lo, h, c1);
        Push(gaps, h);
        gaps := gaps + [h];
      } else {
        CompleteHeight(storage, d, h);
        ghost var k :| k in AtHeight(d, h) && storage.byHeight == c1.byHeight[h := k];
        FillHeight(c, d, lo, h, c1, storage.View(), k);
        Push(writes, h);
        writes := writes + [h];
      }
      h := h + 1;
    }
  }

  lemma Push(s: seq<nat>, h: nat)
    requires Ascending(s) && forall k :: k in s ==> k < h
    ensures Ascending(s + [h])
  {
    forall i | 0 <= i < |s| ensures s[i] < h { assert s[i] in s; }
  }

  lemma NothingYet(c: Chain, d: DagMap, lo: nat)
    ensures ChainRepaired(c, d, lo, lo, c)
  {
  }

  lemma IndexUntouched(c: Chain, d: DagMap, lo: nat, h: nat, c1: Chain)
    requires ChainRepaired(c, d, lo, h, c1)
    ensures h in c1.byHeight <==> h in c.byHeight
    ensures c1.latest == c.latest
  {
  }

  lemma SkipIndexed(r: Rules, c: Chain, d: DagMap, lo: nat, h: nat, d': DagMap)
    requires DagRepaired(r, c, d, lo, h, d') && lo <= h
    requires h in c.byHeight ==>
      c.byHeight[h] in c.blocks && (c.byHeight[h] in d' || !VrfAdmits(r, d', c.blocks[c.byHeight[h]]))
    ensures DagRepaired(r, c, d, lo, h + 1, d')
  {
    hide VrfAdmits;
  }

  lemma VrfUnmoved(r: Rules, d: DagMap, x: Hash, bx: Block, b: Block)
    requires b.header.selectedParent != x
    ensures VrfAdmits(r, d[x := bx], b) == VrfAdmits(r, d, b)
  {
  }

  /** The index is right, and the block of height `h` is the selected parent of none that is not higher. */
  lemma IndexFacts(c: Chain, h: nat)
    requires ChainOk(c) && LinksDown(c) && h in c.byHeight
    ensures forall g :: g in c.byHeight ==> c.byHeight[g] in c.blocks && c.blocks[c.byHeight[g]].header.height == g
    ensures forall k :: k in c.blocks && c.blocks[k].header.height <= h ==>
      c.blocks[k].header.selectedParent != c.byHeight[h]
  {
  }

  /** Adding the block of height `h` changes no earlier refusal: it is nobody's parent below itself. */
  lemma AddIndexed(r: Rules, c: Chain, d: DagMap, lo: nat, h: nat, d': DagMap)
    requires ChainOk(c) && LinksDown(c) && DagRepaired(r, c, d, lo, h, d') && lo <= h
    requires h in c.byHeight && c.byHeight[h] !in d' && VrfAdmits(r, d', c.blocks[c.byHeight[h]])
    ensures DagRepaired(r, c, d, lo, h + 1, d'[c.byHeight[h] := c.blocks[c.byHeight[h]]])
  {
    hide VrfAdmits, LinksDown, ChainOk;
    IndexFacts(c, h);
    var x := c.byHeight[h];
    var d2 := d'[x := c.blocks[x]];
    VrfUnmoved(r, d', x, c.blocks[x], c.blocks[x]);
    forall g | lo <= g < h && g in c.byHeight
      ensures c.byHeight[g] in d2 || !VrfAdmits(r, d2, c.blocks[c.byHeight[g]])
    {
      VrfUnmoved(r, d', x, c.blocks[x], c.blocks[c.byHeight[g]]);
    }
    assert FromIndex(c, lo, h + 1, x);
    forall k | k in d2 && k !in d ensures FromIndex(c, lo, h + 1, k) && VrfAdmits(r, d2, c.blocks[k]) {
      if k != x {
        assert FromIndex(c, lo, h, k);
        VrfUnmoved(r, d', x, c.blocks[x], c.blocks[k]);
      }
    }
  }

  method RepairDag(r: Rules, c: Chain, dagStore: DagStore, lo: nat) returns (writes: seq<nat>)
    requires ChainOk(c) && LinksDown(c) && lo <= c.latest + 1
    modifies dagStore`blocks
    ensures DagRepaired(r, c, old(dagStore.blocks), lo, c.latest + 1, dagStore.blocks)
    ensures Ascending(writes)
    ensures forall h :: h in writes <==>
      lo <= h <= c.latest && h in c.byHeight && c.byHeight[h] in dagStore.blocks
        && c.byHeight[h] !in old(dagStore.blocks)
  {
    hide DagRepaired, LinksDown, VrfAdmits;
    ghost var d := dagStore.blocks;
    writes := [];
    var h := lo;
    NoDagYet(r, c, d, lo);
    while h <= c.latest
      invariant lo <= h <= c.latest + 1
      invariant DagRepaired(r, c, d, lo, h, dagStore.blocks)
      invariant forall k :: k in d ==> k in dagStore.blocks
      invariant Ascending(writes)
      invariant forall k :: k in writes <==>
        lo <= k < h && k in c.byHeight && c.byHeight[k] in dagStore.blocks && c.byHeight[k] !in d
    {
      ghost var before := dagStore.blocks;
      OnlyBelow(r, c, d, lo, h, before);
      if h in c.byHeight {
        var x := c.byHeight[h];
        if x in dagStore.blocks {
          SkipIndexed(r, c, d, lo, h, before);
        } else {
          var o := dagStore.StoreBlock(r, c.blocks[x]);
          if o.Stored? {
            AddIndexed(r, c, d, lo, h, before);
            Push(writes, h);
            writes := writes + [h];
          } else {
            SkipIndexed(r, c, d, lo, h, before);
          }
        }
      } else {
        SkipIndexed(r, c, d, lo, h, before);
      }
      h := h + 1;
    }
  }

  lemma NoDagYet(r: Rules, c: Chain, d: DagMap, lo: nat)
    ensures DagRepaired(r, c, d, lo, lo, d)
  {
  }

  /** What was added so far came from heights below `h`. */
  lemma OnlyBelow(r: Rules, c: Chain, d: DagMap, lo: nat, h: nat, d': DagMap)
    requires ChainOk(c) && DagRepaired(r, c, d, lo, h, d')
    ensures h in c.byHeight && c.byHeight[h] in d' ==> c.byHeight[h] in d
  {
  }

  lemma RepairedChainOk(c: Chain, d: DagMap, lo: nat, hi: nat, c': Chain)
    requires ChainOk(c) && Agree(c, d) && ChainRepaired(c, d, lo, hi, c') && hi <= c.latest + 1
    requires forall k :: k in d ==> d[k].hash == k
    ensures ChainOk(c')
  {
    forall k | k in c'.blocks ensures c'.blocks[k].header.height in c'.byHeight {
      if k !in c.blocks { assert k in AtHeight(d, d[k].header.height); }
    }
  }

  lemma RepairedLinksDown(c: Chain, d: DagMap, lo: nat, hi: nat, c': Chain)
    requires ChainRepaired(c, d, lo, hi, c')
    requires ParentsBelow(c.blocks, c.blocks) && ParentsBelow(c.blocks, d)
    requires ParentsBelow(d, c.blocks) && ParentsBelow(d, d)
    ensures LinksDown(c')
  {
    hide IndexRepaired;
  }

  /** `reconcile`: chain writes first, then the mirror direction. */
  method Repair(adm: BlockAdmission) returns (rep: Report)
    requires Mendable(adm.rules, adm.View())
    modifies adm.storage, adm.dagStore`blocks
    ensures Reconciled(adm.rules, old(adm.View()), adm.View(), rep)
    ensures ChainOk(adm.storage.View())
  {
    hide ChainRepaired, DagRepaired, ParentsBelow, AtHeight, VrfAdmits, Agree, LinksDown, Ascending, Canonical;
    var applied := AppliedHeight(adm.storage.View());
    ghost var c, d := adm.storage.View(), adm.dagStore.blocks;
    if adm.storage.latest <= applied {
      NothingToDo(adm.rules, c, d, applied + 1, c.latest + 1);
      return Report([], [], []);
    }
    var chainWrites, gaps := RepairChain(adm.storage, adm.dagStore.blocks, applied + 1);
    RepairedChainOk(c, d, applied + 1, c.latest + 1, adm.storage.View());
    RepairedLinksDown(c, d, applied + 1, c.latest + 1, adm.storage.View());
    IndexUntouched(c, d, applied + 1, c.latest + 1, adm.storage.View());
    var dagWrites := RepairDag(adm.rules, adm.storage.View(), adm.dagStore, applied + 1);
    rep := Report(chainWrites, dagWrites, gaps);
  }

  lemma NothingToDo(r: Rules, c: Chain, d: DagMap, lo: nat, hi: nat)
    requires hi <= lo
    ensures ChainRepaired(c, d, lo, hi, c) && DagRepaired(r, c, d, lo, hi, d) && Ascending([])
  {
  }

  /** What repair will bring into the DAG `d`, read off the stores before it runs: what is there, and the
      indexed blocks of the range that are genesis or, under strict VRF, verify against a selected parent
      that is there or is itself brought in. */
  ghost predicate Mends(r: Rules, c: Chain, d: DagMap, lo: nat, hi: nat, k: Hash)
    decreases if k in c.blocks then c.blocks[k].header.height else 0
  {
    || k in d
    || (&& FromIndex(c, lo, hi, k)
        && var b, q := c.blocks[k], c.blocks[k].header.selectedParent;
        || !r.strictVrf
        || IsGenesis(r, b)
        || (q in d && r.vrfOk(b, d[q].header))
        || (&& q !in d && q in c.blocks && c.blocks[q].header.height < b.header.height
            && Mends(r, c, d, lo, hi, q) && r.vrfOk(b, c.blocks[q].header)))
  }

  lemma {:induction false} MendedExactly(r: Rules, c: Chain, d: DagMap, lo: nat, hi: nat, d': DagMap, k: Hash)
    requires ChainOk(c) && LinksDown(c) && DagRepaired(r, c, d, lo, hi, d')
    ensures k in d' <==> Mends(r, c, d, lo, hi, k)
    decreases if k in c.blocks then c.blocks[k].header.height else 0
  {
    hide ChainOk, IsGenesis;
    if k !in d && FromIndex(c, lo, hi, k) {
      var b, q := c.blocks[k], c.blocks[k].header.selectedParent;
      assert c.byHeight[b.header.height] == k;
      if q in c.blocks { MendedExactly(r, c, d, lo, hi, d', q); }
    }
  }

  /** The chain half of the repair does not change what mends: it only writes blocks the DAG has. */
  lemma {:induction false} MendsBefore(r: Rules, c: Chain, d: DagMap, lo: nat, hi: nat, c': Chain, k: Hash)
    requires ChainRepaired(c, d, lo, hi, c')
    ensures Mends(r, c, d, lo, hi, k) <==> Mends(r, c', d, lo, hi, k)
    decreases if k in c.blocks then c.blocks[k].header.height else 0
  {
    hide IsGenesis;
    if k !in d && k in c.blocks {
      var b, q := c.blocks[k], c.blocks[k].header.selectedParent;
      assert c'.blocks[k] == b;
      IndexBefore(c, d, lo, hi, c', k);
      if q !in d && q in c.blocks && c.blocks[q].header.height < b.header.height {
        MendsBefore(r, c, d, lo, hi, c', q);
      }
    }
  }

  lemma IndexBefore(c: Chain, d: DagMap, lo: nat, hi: nat, c': Chain, k: Hash)
    requires ChainRepaired(c, d, lo, hi, c') && k !in d && k in c.blocks
    ensures FromIndex(c, lo, hi, k) <==> FromIndex(c', lo, hi, k)
  {
  }

  /** Exactly what one pass leaves in the DAG, in terms of the stores before it. */
  lemma RepairAddsExactly(r: Rules, n: Node, n': Node, rep: Report, k: Hash)
    requires Mendable(r, n) && Reconciled(r, n, n', rep)
    ensures k in n'.dag.blocks <==> Mends(r, n.chain, n.dag.blocks, AppliedHeight(n.chain) + 1, n.chain.latest + 1, k)
  {
    hide VrfAdmits, Canonical, Agree, ChainOk, ChainRepaired, DagRepaired, Mends, Ascending, ParentsBelow, AtHeight;
    var lo, hi := AppliedHeight(n.chain) + 1, n.chain.latest + 1;
    RepairedChainOk(n.chain, n.dag.blocks, lo, hi, n'.chain);
    RepairedLinksDown(n.chain, n.dag.blocks, lo, hi, n'.chain);
    MendedExactly(r, n'.chain, n.dag.blocks, lo, hi, n'.dag.blocks, k);
    MendsBefore(r, n.chain, n.dag.blocks, lo, hi, n'.chain, k);
  }

  /** After a fault-free pass, every height above the applied tip is either reported as a gap that neither
      store holds, or indexed to a block of the chain store, which the DAG store holds too if and only if
      it mends; with strict VRF off, it always does. */
  lemma EveryHeightIsSettled(r: Rules, n: Node, n': Node, rep: Report, h: nat)
    requires Mendable(r, n) && Reconciled(r, n, n', rep)
    requires AppliedHeight(n.chain) < h <= n.chain.latest
    ensures h in rep.gaps <==> h !in n'.chain.byHeight
    ensures h in rep.gaps ==> AtHeight(n'.dag.blocks, h) == {} && AtHeight(n'.chain.blocks, h) == {}
    ensures h !in rep.gaps ==>
      && n'.chain.byHeight[h] in n'.chain.blocks && n'.chain.blocks[n'.chain.byHeight[h]].header.height == h
      && (n'.chain.byHeight[h] in n'.dag.blocks <==>
            h !in n.chain.byHeight
            || Mends(r, n.chain, n.dag.blocks, AppliedHeight(n.chain) + 1, n.chain.latest + 1, n.chain.byHeight[h]))
      && (!r.strictVrf ==> n'.chain.byHeight[h] in n'.dag.blocks)
  {
    hide VrfAdmits, ParentsBelow, Canonical, Agree, Mends, Mendable, Reconciled, AtHeight;
    GapsAreEmpty(r, n, n', rep, h);
    if h !in rep.gaps {
      var lo, hi := AppliedHeight(n.chain) + 1, n.chain.latest + 1;
      RepairAddsExactly(r, n, n', rep, n'.chain.byHeight[h]);
      IndexAfter(r, n, n', rep, h);
      if h in n.chain.byHeight && !r.strictVrf {
        MendableChain(r, n);
        IndexedMends(r, n.chain, n.dag.blocks, lo, hi, h);
      }
    }
  }

  lemma MendableChain(r: Rules, n: Node)
    requires Mendable(r, n)
    ensures ChainOk(n.chain)
  {
  }

  /** The index entry of a settled height: the old one, or a block the DAG already had. */
  lemma IndexAfter(r: Rules, n: Node, n': Node, rep: Report, h: nat)
    requires Mendable(r, n) && Reconciled(r, n, n', rep) && h in n'.chain.byHeight
    ensures h in n.chain.byHeight ==> n'.chain.byHeight[h] == n.chain.byHeight[h]
    ensures h !in n.chain.byHeight ==> n'.chain.byHeight[h] in n'.dag.blocks
  {
    hide VrfAdmits, ParentsBelow, Canonical, Agree, Ascending;
  }

  lemma GapsAreEmpty(r: Rules, n: Node, n': Node, rep: Report, h: nat)
    requires Mendable(r, n) && Reconciled(r, n, n', rep) && AppliedHeight(n.chain) < h <= n.chain.latest
    ensures h in rep.gaps <==> h !in n'.chain.byHeight
    ensures h in rep.gaps ==> AtHeight(n'.dag.blocks, h) == {} && AtHeight(n'.chain.blocks, h) == {}
    ensures h !in rep.gaps ==>
      n'.chain.byHeight[h] in n'.chain.blocks && n'.chain.blocks[n'.chain.byHeight[h]].header.height == h
  {
    hide VrfAdmits, ParentsBelow, Canonical, Agree, Ascending;
    RepairedChainOk(n.chain, n.dag.blocks, AppliedHeight(n.chain) + 1, n.chain.latest + 1, n'.chain);
    assert h !in n.chain.byHeight && h in n'.chain.byHeight ==> AtHeight(n.dag.blocks, h) != {};
    if h in rep.gaps {
      forall k | k in n'.dag.blocks ensures n'.dag.blocks[k].header.height != h {
        if k in n.dag.blocks { assert k !in AtHeight(n.dag.blocks, h); }
      }
    }
  }

  lemma IndexedMends(r: Rules, c: Chain, d: DagMap, lo: nat, hi: nat, h: nat)
    requires ChainOk(c) && !r.strictVrf && lo <= h < hi && h in c.byHeight
    ensures Mends(r, c, d, lo, hi, c.byHeight[h])
  {
  }

  /** Under strict VRF a height really can stay out of the DAG: an indexed block whose selected parent
      neither the DAG nor the repaired range holds. */
  lemma VrfCanLeaveOut(r: Rules, g: Block) returns (n: Node, rep: Report)
    requires Collisionless(r) && IsGenesis(r, g) && Canonical(r, g) && r.strictVrf
    ensures Mendable(r, n) && Reconciled(r, n, n, rep) && AppliedHeight(n.chain) < 1 <= n.chain.latest
    ensures 1 !in rep.gaps && 1 in n.chain.byHeight && n.chain.byHeight[1] !in n.dag.blocks
  {
    hide Canonical, Reconciled, Mendable;
    var z := Child(r, g, [], g.header.blueScore + 1, 0);
    assert z.hash != g.hash by { if z.hash == g.hash { SameHashSameHeader(r, z, g); } }
    var c := Put(Put(Chain(map[], map[], 0, None), g), z);
    n, rep := Node(Dag(map[], ZERO_HASH), c, {}), Report([], [], []);
    TwoBlocksMendable(r, g, z, n);
    TwoBlocksIdle(r, g, z, n);
  }

  lemma TwoBlocksMendable(r: Rules, g: Block, z: Block, n: Node)
    requires Collisionless(r) && IsGenesis(r, g) && Canonical(r, g) && Canonical(r, z)
    requires z.hash != g.hash && z.header.height == 1 && z.header.selectedParent == g.hash
    requires n.chain == Put(Put(Chain(map[], map[], 0, None), g), z) && n.dag.blocks == map[]
    ensures Mendable(r, n)
  {
    assert g.hash != ZERO_HASH && z.hash != ZERO_HASH;
    hide Canonical, IsGenesis;
    assert n.chain.blocks == map[g.hash := g, z.hash := z];
  }

  lemma TwoBlocksIdle(r: Rules, g: Block, z: Block, n: Node)
    requires IsGenesis(r, g) && r.strictVrf && z.hash != g.hash && z.header.height == 1
    requires n.chain == Put(Put(Chain(map[], map[], 0, None), g), z) && n.dag.blocks == map[]
    ensures Reconciled(r, n, n, Report([], [], []))
  {
    assert n.chain.byHeight == map[0 := g.hash, 1 := z.hash];
    assert !VrfAdmits(r, n.dag.blocks, z);
    hide VrfAdmits, IsGenesis;
    forall h: nat ensures AtHeight(n.dag.blocks, h) == {} { }
  }

  lemma HasMember(s: seq<nat>)
    ensures s != [] ==> exists h :: h in s
  {
    if s != [] { assert s[0] in s; }
  }

  lemma {:induction false} AscendingUnique(s: seq<nat>, t: seq<nat>)
    requires Ascending(s) && Ascending(t) && forall h :: h in s <==> h in t
    ensures s == t
  {
    HasMember(s);
    HasMember(t);
    if s != [] && t != [] {
      var m, n := s[|s| - 1], t[|t| - 1];
      assert m in t && n in s;
      assert m == n;
      var s', t' := s[..|s| - 1], t[..|t| - 1];
      forall h ensures h in s' <==> h in t' {
        if h in s' { assert h in s && h < m; }
        if h in t' { assert h in t && h < n; }
      }
      AscendingUnique(s', t');
    }
  }

  /** A second pass repairs nothing, changes nothing and reports the same gaps. */
  lemma SecondPassIsIdle(r: Rules, n: Node, n1: Node, rep1: Report, n2: Node, rep2: Report)
    requires Mendable(r, n) && Reconciled(r, n, n1, rep1) && Reconciled(r, n1, n2, rep2)
    ensures n2.chain.blocks == n1.chain.blocks && n2.chain.byHeight == n1.chain.byHeight
    ensures n2.dag.blocks == n1.dag.blocks
    ensures rep2.chainWrites == [] && rep2.dagWrites == [] && rep2.gaps == rep1.gaps
  {
    hide VrfAdmits, ParentsBelow, Canonical, Agree;
    SecondChainIdle(r, n, n1, rep1, n2, rep2);
    SecondDagIdle(r, n, n1, rep1, n2, rep2);
    AscendingUnique(rep1.gaps, rep2.gaps);
  }

  lemma SecondChainIdle(r: Rules, n: Node, n1: Node, rep1: Report, n2: Node, rep2: Report)
    requires Mendable(r, n) && Reconciled(r, n, n1, rep1) && Reconciled(r, n1, n2, rep2)
    ensures n2.chain == n1.chain && rep2.chainWrites == []
    ensures forall h :: h in rep2.gaps <==> h in rep1.gaps
  {
    hide VrfAdmits, ParentsBelow, Canonical, Agree, ChainOk, DagRepaired, ChainRepaired;
    var lo, hi := AppliedHeight(n.chain) + 1, n.chain.latest + 1;
    assert AppliedHeight(n1.chain) + 1 == lo && n1.chain.latest + 1 == hi by {
      IndexUntouched(n.chain, n.dag.blocks, lo, hi, n1.chain);
      AppliedUntouched(n.chain, n.dag.blocks, lo, hi, n1.chain);
    }
    forall h | lo <= h < hi && h !in n1.chain.byHeight ensures h in rep1.gaps && AtHeight(n1.dag.blocks, h) == {} {
      EveryHeightIsSettled(r, n, n1, rep1, h);
    }
    forall h | h in rep1.gaps ensures h !in n1.chain.byHeight { EveryHeightIsSettled(r, n, n1, rep1, h); }
    HasMember(rep2.chainWrites);
    IdleChain(n1.chain, n1.dag.blocks, lo, hi, n2.chain);
  }

  lemma AppliedUntouched(c: Chain, d: DagMap, lo: nat, hi: nat, c': Chain)
    requires ChainRepaired(c, d, lo, hi, c')
    ensures AppliedHeight(c') == AppliedHeight(c)
  {
  }

  lemma IdleChain(c: Chain, d: DagMap, lo: nat, hi: nat, c': Chain)
    requires ChainRepaired(c, d, lo, hi, c')
    requires forall h :: lo <= h < hi && h !in c.byHeight ==> AtHeight(d, h) == {}
    ensures c' == c
  {
    forall k | k in d ensures k in AtHeight(d, d[k].header.height) { }
    assert c'.blocks == c.blocks;
    assert c'.byHeight == c.byHeight;
  }

  /** A block the first pass could not add is not added by the second: that would take its selected
      parent being added first, and so on down. */
  lemma {:induction false} NotAddedLater(r: Rules, c: Chain, d: DagMap, d1: DagMap, d2: DagMap, lo: nat, hi: nat,
                                         k: Hash)
    requires ChainOk(c) && LinksDown(c) && DagRepaired(r, c, d, lo, hi, d1) && DagRepaired(r, c, d1, lo, hi, d2)
    requires k in d2
    ensures k in d1
    decreases if k in c.blocks then c.blocks[k].header.height else 0
  {
    if k !in d1 {
      assert FromIndex(c, lo, hi, k);
      var b := c.blocks[k];
      assert c.byHeight[b.header.height] == k && !VrfAdmits(r, d1, b);
      if b.header.selectedParent in d2 {
        if b.header.selectedParent !in d1 { assert FromIndex(c, lo, hi, b.header.selectedParent); }
        NotAddedLater(r, c, d, d1, d2, lo, hi, b.header.selectedParent);
      }
    }
  }

  lemma SecondDagIdle(r: Rules, n: Node, n1: Node, rep1: Report, n2: Node, rep2: Report)
    requires Mendable(r, n) && Reconciled(r, n, n1, rep1) && Reconciled(r, n1, n2, rep2)
    requires n2.chain == n1.chain
    ensures n2.dag.blocks == n1.dag.blocks && rep2.dagWrites == []
  {
    hide VrfAdmits, ParentsBelow, Canonical, Agree, ChainOk, ChainRepaired, AtHeight;
    var lo, hi := AppliedHeight(n.chain) + 1, n.chain.latest + 1;
    RepairedChainOk(n.chain, n.dag.blocks, lo, hi, n1.chain);
    RepairedLinksDown(n.chain, n.dag.blocks, lo, hi, n1.chain);
    AppliedUntouched(n.chain, n.dag.blocks, lo, hi, n1.chain);
    IndexUntouched(n.chain, n.dag.blocks, lo, hi, n1.chain);
    forall k | k in n2.dag.blocks ensures k in n1.dag.blocks {
      NotAddedLater(r, n1.chain, n.dag.blocks, n1.dag.blocks, n2.dag.blocks, lo, hi, k);
    }
    HasMember(rep2.dagWrites);
  }

  /** `seed_genesis` on values: only while the DAG has no tip at all. */
  ghost function SeedStep(r: Rules, n: Node): (n': Node) {
    if exists t :: IsTip(n.dag.blocks, t) then n
    else if 0 !in n.chain.byHeight || n.chain.byHeight[0] !in n.chain.blocks then n
    else
      var g := n.chain.blocks[n.chain.byHeight[0]];
      if StoreInto(r, n.dag, g).VrfRefused? then n else n.(dag := AddToDag(n.dag, g))
  }

  method SeedGenesis(adm: BlockAdmission)
    requires forall h :: h in adm.storage.blocks ==> adm.storage.blocks[h].hash == h
    modifies adm.dagStore`blocks
    ensures adm.View() == SeedStep(adm.rules, old(adm.View()))
  {
    var tips := adm.dagStore.HasTips();
    if tips { return; }
    if 0 in adm.storage.byHeight {
      var hash := adm.storage.byHeight[0];
      if hash in adm.storage.blocks {
        var o := adm.dagStore.StoreBlock(adm.rules, adm.storage.blocks[hash]);
      }
    }
  }

  /** Into an empty DAG, the archive's genesis is seeded, under either VRF setting. */
  lemma SeedsEmpty(r: Rules, n: Node, g: Block)
    requires n.dag.blocks == map[] && 0 in n.chain.byHeight && n.chain.byHeight[0] == g.hash
    requires g.hash in n.chain.blocks && n.chain.blocks[g.hash] == g && IsGenesis(r, g)
    ensures SeedStep(r, n) == n.(dag := n.dag.(blocks := map[g.hash := g]))
  {
  }

  /** What is seeded into a DAG without tips obeys the store's rules like any other block. */
  lemma SeedsExactly(r: Rules, n: Node, g: Block)
    requires (forall t :: !IsTip(n.dag.blocks, t)) && 0 in n.chain.byHeight && n.chain.byHeight[0] == g.hash
    requires g.hash in n.chain.blocks && n.chain.blocks[g.hash] == g
    ensures var sp := g.header.selectedParent;
      SeedStep(r, n) ==
        if g.hash !in n.dag.blocks
           && (!r.strictVrf || IsGenesis(r, g) || (sp in n.dag.blocks && r.vrfOk(g, n.dag.blocks[sp].header)))
        then n.(dag := n.dag.(blocks := n.dag.blocks[g.hash := g])) else n
  {
    assert n.(dag := n.dag) == n;
  }

  /** A node with a tip is left alone, and so is one seeded already. */
  lemma SeedingIsIdle(r: Rules, n: Node, t: Hash)
    requires forall h :: h in n.chain.blocks ==> n.chain.blocks[h].hash == h
    ensures IsTip(n.dag.blocks, t) ==> SeedStep(r, n) == n
    ensures SeedStep(r, SeedStep(r, n)) == SeedStep(r, n)
  {
    hide VrfAdmits, IsTip;
  }
}
