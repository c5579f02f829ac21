/** The two stores a block is written to, as values and as the objects that hold them: the chain
    store (the archive, with its height index) and the DAG store (fork-choice working state, which
    pruning cuts from below). */
module Stores {
  import opened Blocks
  import opened Gate

  datatype Tip = Tip(hash: Hash, height: nat)

  /** `byHeight` keeps the last block written at a height, whichever sibling that was. */
  datatype Chain = Chain(blocks: map<Hash, Block>, byHeight: map<nat, Hash>, latest: nat, applied: Option<Tip>)

  /** `pruningPoint` is the zero hash until pruning first runs. */
  datatype Dag = Dag(blocks: DagMap, pruningPoint: Hash)

  /** One `put_block`: block, height index and latest height commit in one batch. */
  function Put(c: Chain, b: Block): (c': Chain)
    ensures c'.blocks.Keys == c.blocks.Keys + {b.hash} && c'.applied == c.applied
  {
    c.(blocks := c.blocks[b.hash := b],
       byHeight := c.byHeight[b.header.height := b.hash],
       latest := if c.latest < b.header.height then b.header.height else c.latest)
  }

  /** The height index names a stored block of that height wherever one is stored, and the latest height
      is the highest stored one (0 before anything is). */
  ghost predicate ChainOk(c: Chain) {
    && (forall h :: h in c.blocks ==> c.blocks[h].hash == h && c.blocks[h].header.height <= c.latest)
    && (c.latest == 0 || c.latest in c.byHeight)
    && (forall h :: h in c.blocks ==> c.blocks[h].header.height in c.byHeight)
    && (forall k :: k in c.byHeight ==> c.byHeight[k] in c.blocks && c.blocks[c.byHeight[k]].header.height == k)
  }

  /** A re-put never moves a block to another height, so the index stays right. */
  lemma PutKeepsChainOk(c: Chain, b: Block)
    requires ChainOk(c)
    requires b.hash in c.blocks ==> c.blocks[b.hash].header.height == b.header.height
    ensures ChainOk(Put(c, b))
  {
  }

  function AppliedHeight(c: Chain): (h: nat) {
    match c.applied case None => 0 case Some(t) => t.height
  }

  /** The block reached from `tip` at `height` by selected-parent links (the canonical index). */
  function Walk(c: Chain, tip: Hash, height: nat): (h: Option<Hash>)
    ensures h.Some? ==> h.value in c.blocks && c.blocks[h.value].header.height == height
    decreases if tip in c.blocks then c.blocks[tip].header.height else 0
  {
    if tip !in c.blocks then None
    else
      var b := c.blocks[tip];
      if b.header.height == height then Some(tip)
      else if b.header.selectedParent in c.blocks
              && c.blocks[b.header.selectedParent].header.height < b.header.height
      then Walk(c, b.header.selectedParent, height)
      else None
  }

  function IndexAt(c: Chain, height: nat): (h: Option<Hash>) {
    if height in c.byHeight then Some(c.byHeight[height]) else None
  }

  /** `get_canonical_block_by_height`: the executed chain's block at or below the applied tip, the
      stored index above it or before anything is applied. */
  function CanonicalAt(c: Chain, height: nat): (h: Option<Hash>)
    ensures ChainOk(c) && h.Some? ==> h.value in c.blocks && c.blocks[h.value].header.height == height
  {
    match c.applied
    case None => IndexAt(c, height)
    case Some(t) => if t.height < height then IndexAt(c, height) else Walk(c, t.hash, height)
  }

  /** `path` leads from `tip` down selected-parent links, each to a stored block of lower height. */
  ghost predicate Ancestry(c: Chain, tip: Hash, path: seq<Hash>) {
    && path != [] && path[0] == tip
    && (forall i :: 0 <= i < |path| ==> path[i] in c.blocks)
    && (forall i :: 0 <= i < |path| - 1 ==>
          && path[i + 1] == c.blocks[path[i]].header.selectedParent
          && c.blocks[path[i + 1]].header.height < c.blocks[path[i]].header.height)
  }

  ghost predicate AncestorAt(c: Chain, tip: Hash, height: nat, h: Hash) {
    && h in c.blocks && c.blocks[h].header.height == height
    && exists path :: Ancestry(c, tip, path) && path[|path| - 1] == h
  }

  /** The walk finds the selected-parent ancestor of that height, and finds it whenever there is one. */
  lemma {:induction false} WalkIsAncestor(c: Chain, tip: Hash, height: nat)
    ensures Walk(c, tip, height).Some? ==> AncestorAt(c, tip, height, Walk(c, tip, height).value)
    ensures forall h: Hash :: AncestorAt(c, tip, height, h) ==> Walk(c, tip, height) == Some(h)
    decreases if tip in c.blocks then c.blocks[tip].header.height else 0
  {
    if tip in c.blocks {
      var b := c.blocks[tip];
      var p := b.header.selectedParent;
      if b.header.height == height {
        assert Ancestry(c, tip, [tip]);
      } else if p in c.blocks && c.blocks[p].header.height < b.header.height {
        WalkIsAncestor(c, p, height);
        if Walk(c, p, height).Some? {
          var path :| Ancestry(c, p, path) && path[|path| - 1] == Walk(c, p, height).value;
          var longer := [tip] + path;
          assert forall i :: 0 < i < |longer| ==> longer[i] == path[i - 1];
          assert Ancestry(c, tip, longer);
        }
      }
      forall h: Hash | AncestorAt(c, tip, height, h) ensures Walk(c, tip, height) == Some(h) {
        var path :| Ancestry(c, tip, path) && path[|path| - 1] == h;
        PathFalls(c, tip, path);
        if |path| > 1 { assert Ancestry(c, p, path[1..]); }
      }
    }
  }

  lemma {:induction false} PathFalls(c: Chain, tip: Hash, path: seq<Hash>)
    requires Ancestry(c, tip, path)
    ensures c.blocks[path[|path| - 1]].header.height + |path| - 1 <= c.blocks[tip].header.height
    decreases path
  {
    if |path| > 1 { PathFalls(c, path[1], path[1..]); }
  }

  /** Above the applied tip, and before anything is applied, the canonical block of a height is the last
      written; at or below it, it is the applied tip's own ancestor there. */
  lemma CanonicalMeans(c: Chain, height: nat, h: Hash)
    ensures CanonicalAt(c, height) == Some(h) <==>
      if c.applied.None? || c.applied.value.height < height then height in c.byHeight && c.byHeight[height] == h
      else AncestorAt(c, c.applied.value.hash, height, h)
  {
    hide Walk, AncestorAt;
    if c.applied.Some? { WalkIsAncestor(c, c.applied.value.hash, height); }
  }

  datatype StoreOutcome = Stored | Exists | VrfRefused

  /** `store_block` refuses a block under strict VRF unless it is genesis or its proof verifies
      against the held selected parent. */
  predicate VrfAdmits(r: Rules, d: DagMap, b: Block) {
    r.strictVrf ==>
      || IsGenesis(r, b)
      || (b.header.selectedParent in d && r.vrfOk(b, d[b.header.selectedParent].header))
  }

  function StoreInto(r: Rules, d: Dag, b: Block): (o: StoreOutcome) {
    if b.hash in d.blocks then Exists
    else if !VrfAdmits(r, d.blocks, b) then VrfRefused
    else Stored
  }

  /** The height below which pruning has dropped blocks; 0 while pruning never ran. */
  function PrunedBelow(d: Dag): (h: nat) {
    if d.pruningPoint == ZERO_HASH || d.pruningPoint !in d.blocks then 0
    else d.blocks[d.pruningPoint].header.height
  }

  /** The blocks at or above `floor`. */
  function KeepFrom(d: DagMap, floor: nat): (e: DagMap)
    ensures forall h :: h in e <==> h in d && floor <= d[h].header.height
    ensures forall h :: h in e ==> e[h] == d[h]
  {
    map h | h in d && floor <= d[h].header.height :: d[h]
  }

  /** The blocks stored at one height. */
  function AtHeight(d: DagMap, h: nat): (s: set<Hash>) {
    set k | k in d && d[k].header.height == h
  }

  /** A block no stored block names as a parent. */
  ghost predicate IsTip(d: DagMap, t: Hash) {
    t in d && forall h :: h in d ==> t !in d[h].Parents()
  }

  class BlockStore {
    var blocks: map<Hash, Block>
    var byHeight: map<nat, Hash>
    var latest: nat
    var applied: Option<Tip>

    constructor (genesis: Block)
      ensures View() == Put(Chain(map[], map[], 0, None), genesis)
    {
      blocks := map[genesis.hash := genesis];
      byHeight := map[genesis.header.height := genesis.hash];
      latest := genesis.header.height;
      applied := None;
    }

    function View(): (c: Chain)
      reads this
    {
      Chain(blocks, byHeight, latest, applied)
    }

    method PutBlock(b: Block)
      modifies this
      ensures View() == Put(old(View()), b)
    {
      blocks := blocks[b.hash := b];
      byHeight := byHeight[b.header.height := b.hash];
      if latest < b.header.height { latest := b.header.height; }
    }
  }

  class DagStore {
    var blocks: DagMap
    var pruningPoint: Hash

    constructor ()
      ensures View() == Dag(map[], ZERO_HASH)
    {
      blocks := map[];
      pruningPoint := ZERO_HASH;
    }

    function View(): (d: Dag)
      reads this
    {
      Dag(blocks, pruningPoint)
    }

    method StoreBlock(r: Rules, b: Block) returns (o: StoreOutcome)
      modifies this`blocks
      ensures o == StoreInto(r, old(View()), b)
      ensures blocks == if o.Stored? then old(blocks)[b.hash := b] else old(blocks)
    {
      if b.hash in blocks { return Exists; }
      if !VrfAdmits(r, blocks, b) { return VrfRefused; }
      blocks := blocks[b.hash := b];
      return Stored;
    }

    /** Whether any tip is left: the guard of `seed_genesis`. */
    method HasTips() returns (any: bool)
      ensures any <==> exists t :: IsTip(blocks, t)
    {
      var todo := blocks.Keys;
      while todo != {}
        invariant todo <= blocks.Keys
        invariant forall t :: t in blocks && t !in todo ==> !IsTip(blocks, t)
        decreases todo
      {
        var t :| t in todo;
        if forall h :: h in blocks ==> t !in blocks[h].Parents() {
          assert IsTip(blocks, t);
          return true;
        }
        todo := todo - {t};
      }
      return false;
    }

    method UpdatePruningPoint(h: Hash) returns (ok: bool)
      modifies this`pruningPoint
      ensures ok <==> h in blocks
      ensures pruningPoint == if ok then h else old(pruningPoint)
    {
      if h !in blocks { return false; }
      pruningPoint := h;
      return true;
    }

    method Prune() returns (dropped: nat)
      modifies this`blocks
      ensures blocks == KeepFrom(old(blocks), PrunedBelow(old(View())))
      ensures dropped == |old(blocks)| - |blocks|
    {
      var floor := PrunedBelow(View());
      var kept := KeepFrom(blocks, floor);
      assert kept.Keys <= blocks.Keys;
      assert |kept.Keys| <= |blocks.Keys| by { SubsetSize(kept.Keys, blocks.Keys); }
      dropped := |blocks| - |kept|;
      blocks := kept;
    }
  }

  lemma {:induction false} SubsetSize<T>(a: set<T>, b: set<T>)
    requires a <= b
    ensures |a| <= |b|
    decreases a
  {
    if a != {} {
      var x :| x in a;
      SubsetSize(a - {x}, b - {x});
    }
  }
}
