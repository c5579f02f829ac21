/** The consistency gate (`GhostDag::validate_block_consistency`): every branch that decides
    between accepting a block, naming a missing parent, and refusing. */
module Gate {
  import opened Blocks

  const MERGE_PARENT_MAX_DEPTH: nat := 100
  const MAX_TIMESTAMP_ADVANCE: nat := 3600

  type DagMap = map<Hash, Block>

  datatype Verdict = Pass | Missing(parent: Hash) | Invalid

  function BlueWork(score: nat): (w: nat) { score * 1_000_000 }

  predicate Distinct(s: seq<Hash>) {
    forall i, j :: 0 <= i < j < |s| ==> s[i] != s[j]
  }

  /** Structural sanity of the parent list; reads nothing. */
  predicate WellLinked(r: Rules, b: Block) {
    var h := b.header;
    && h.selectedParent != ZERO_HASH
    && |h.mergeParents| < r.maxParents
    && h.selectedParent !in h.mergeParents
    && b.hash !in h.mergeParents
    && Distinct(h.mergeParents)
  }

  /** Height is exact; time never runs backwards and, at hardened heights, never far ahead. */
  predicate ExtendsSelected(r: Rules, h: Header, sp: Header) {
    && h.height == sp.height + 1
    && sp.timestamp <= h.timestamp
    && (Hardened(r, h.height) ==> h.timestamp <= sp.timestamp + MAX_TIMESTAMP_ADVANCE)
  }

  /** One merge parent: never heavier than the selected parent, never more than 100 heights deep. */
  predicate MergeParentOk(r: Rules, h: Header, sp: Header, mp: Header) {
    && mp.blueScore <= sp.blueScore
    && (r.mergeDepthHeight <= h.height ==> h.height <= mp.height + MERGE_PARENT_MAX_DEPTH)
  }

  function MergeVerdict(r: Rules, d: DagMap, h: Header, sp: Header, i: nat): (v: Verdict)
    requires i <= |h.mergeParents|
    decreases |h.mergeParents| - i
  {
    if i == |h.mergeParents| then Pass
    else if h.mergeParents[i] !in d then Missing(h.mergeParents[i])
    else if !MergeParentOk(r, h, sp, d[h.mergeParents[i]].header) then Invalid
    else MergeVerdict(r, d, h, sp, i + 1)
  }

  predicate ScoreInBand(h: Header, sp: Header) {
    && sp.blueScore + 1 <= h.blueScore <= sp.blueScore + 1 + |h.mergeParents|
    && h.blueWork == BlueWork(h.blueScore)
  }

  /** The verdict on `b` against the blocks `d` of the DAG store. */
  function Judge(r: Rules, d: DagMap, b: Block): (v: Verdict) {
    if IsGenesis(r, b) then Pass
    else if !WellLinked(r, b) then Invalid
    else if b.header.selectedParent !in d then Missing(b.header.selectedParent)
    else
      var sp := d[b.header.selectedParent].header;
      if !ExtendsSelected(r, b.header, sp) then Invalid
      else
        match MergeVerdict(r, d, b.header, sp, 0)
        case Pass => if ScoreInBand(b.header, sp) then Pass else Invalid
        case v => v
  }

  /** Every key is its block's hash, and that hash recomputes. */
  ghost predicate Keyed(r: Rules, d: DagMap) {
    forall h :: h in d ==> d[h].hash == h && HashRecomputes(r, d[h])
  }

  /** `e` holds every block `d` holds, under the same header. */
  ghost predicate Extends(d: DagMap, e: DagMap) {
    forall h :: h in d ==> h in e && d[h].header == e[h].header
  }

  /** With collision-free hashing, holding more hashes is holding more headers. */
  lemma KeyedExtends(r: Rules, d: DagMap, e: DagMap)
    requires Collisionless(r) && Keyed(r, d) && Keyed(r, e) && d.Keys <= e.Keys
    ensures Extends(d, e)
  {
    forall h | h in d ensures h in e && d[h].header == e[h].header {
      SameHashSameHeader(r, d[h], e[h]);
    }
  }

  /** What the gate promises about an accepted block, read off the headers: at most `maxParents` parents, all
      different, none of them the sentinel or (among the merged) the block itself. */
  ghost predicate GoodParents(r: Rules, b: Block) {
    && |b.Parents()| <= r.maxParents
    && (forall i, j :: 0 <= i < j < |b.Parents()| ==> b.Parents()[i] != b.Parents()[j])
    && b.Parents()[0] != ZERO_HASH
    && forall p :: p in b.header.mergeParents ==> p != b.hash
  }

  /** All held; one height above the selected parent, no earlier and, once hardened, at most an hour later;
      more blue than it by one to the number of parents, at a million work each; no merged parent bluer than
      it or, once the depth rule is in force, more than 100 heights down. */
  ghost predicate Linked(r: Rules, d: DagMap, b: Block) {
    var h := b.header;
    && h.selectedParent in d
    && var sp := d[h.selectedParent].header;
    && h.height == sp.height + 1
    && sp.timestamp <= h.timestamp
    && (r.hardeningHeight.Some? && r.hardeningHeight.value <= h.height ==> h.timestamp - sp.timestamp <= 3600)
    && sp.blueScore < h.blueScore <= sp.blueScore + |b.Parents()|
    && h.blueWork == h.blueScore * 1_000_000
    && forall p :: p in h.mergeParents ==>
         && p in d && d[p].header.blueScore <= sp.blueScore
         && (h.height >= r.mergeDepthHeight ==> h.height - d[p].header.height <= 100)
  }

  lemma {:induction false} MergePassMeans(r: Rules, d: DagMap, h: Header, sp: Header, i: nat)
    requires i <= |h.mergeParents|
    ensures MergeVerdict(r, d, h, sp, i).Pass? <==>
            forall k :: i <= k < |h.mergeParents| ==>
              h.mergeParents[k] in d && MergeParentOk(r, h, sp, d[h.mergeParents[k]].header)
    decreases |h.mergeParents| - i
  {
    if i < |h.mergeParents| { MergePassMeans(r, d, h, sp, i + 1); }
  }

  lemma WellLinkedMeans(r: Rules, b: Block)
    ensures WellLinked(r, b) <==> GoodParents(r, b)
  {
    var ms := b.header.mergeParents;
    assert forall i :: 0 <= i < |ms| ==> b.Parents()[i + 1] == ms[i];
    assert forall i, j :: 0 <= i < j < |ms| ==> (ms[i] == ms[j] <==> b.Parents()[i + 1] == b.Parents()[j + 1]);
    assert forall i :: 0 < i < |b.Parents()| ==> b.Parents()[i] == ms[i - 1];
  }

  /** The gate accepts exactly genesis and the blocks with good parents that link to them. */
  lemma PassMeans(r: Rules, d: DagMap, b: Block)
    ensures Judge(r, d, b).Pass? <==> IsGenesis(r, b) || (GoodParents(r, b) && Linked(r, d, b))
  {
    WellLinkedMeans(r, b);
    hide WellLinked, GoodParents, IsGenesis;
    if b.header.selectedParent in d {
      MergePassMeans(r, d, b.header, d[b.header.selectedParent].header, 0);
    }
  }

  /** An accepted block's parents are all held, its selected parent is exactly one height below it and no
      later, no parent is more than 100 heights below it, and every parent has a strictly lower blue score. */
  lemma PassParents(r: Rules, d: DagMap, b: Block)
    requires Judge(r, d, b).Pass? && !IsGenesis(r, b)
    ensures b.header.selectedParent in d && d[b.header.selectedParent].header.height + 1 == b.header.height
    ensures d[b.header.selectedParent].header.timestamp <= b.header.timestamp
    ensures forall p :: p in b.Parents() ==> p in d && d[p].header.blueScore < b.header.blueScore
    ensures r.mergeDepthHeight <= b.header.height ==>
      forall p :: p in b.Parents() ==> p in d && b.header.height <= d[p].header.height + MERGE_PARENT_MAX_DEPTH
  {
    PassMeans(r, d, b);
  }

  lemma {:induction false} MergeMissingMeans(r: Rules, d: DagMap, h: Header, sp: Header, i: nat)
    requires i <= |h.mergeParents|
    ensures MergeVerdict(r, d, h, sp, i).Missing? ==>
      MergeVerdict(r, d, h, sp, i).parent in h.mergeParents && MergeVerdict(r, d, h, sp, i).parent !in d
    decreases |h.mergeParents| - i
  {
    if i < |h.mergeParents| { MergeMissingMeans(r, d, h, sp, i + 1); }
  }

  /** Position `k` of the merge parents is the first that is absent, and those before it fit. */
  ghost predicate FirstAbsent(r: Rules, d: DagMap, b: Block, k: nat) {
    && b.header.selectedParent in d && k < |b.header.mergeParents| && b.header.mergeParents[k] !in d
    && forall i :: 0 <= i < k ==>
         && b.header.mergeParents[i] in d
         && var mp := d[b.header.mergeParents[i]].header;
         && mp.blueScore <= d[b.header.selectedParent].header.blueScore
         && (r.mergeDepthHeight <= b.header.height ==> b.header.height <= mp.height + 100)
  }

  lemma {:induction false} MergeMissingAt(r: Rules, d: DagMap, b: Block, i: nat)
    requires i <= |b.header.mergeParents| && b.header.selectedParent in d
    requires forall j :: 0 <= j < i ==>
      && b.header.mergeParents[j] in d
      && MergeParentOk(r, b.header, d[b.header.selectedParent].header, d[b.header.mergeParents[j]].header)
    ensures var v := MergeVerdict(r, d, b.header, d[b.header.selectedParent].header, i);
      && (v.Missing? <==> exists k: nat :: FirstAbsent(r, d, b, k))
      && (forall k: nat :: FirstAbsent(r, d, b, k) ==> v == Missing(b.header.mergeParents[k]))
    decreases |b.header.mergeParents| - i
  {
    if i < |b.header.mergeParents| {
      if b.header.mergeParents[i] !in d {
        assert FirstAbsent(r, d, b, i);
      } else if MergeParentOk(r, b.header, d[b.header.selectedParent].header, d[b.header.mergeParents[i]].header) {
        MergeMissingAt(r, d, b, i + 1);
      }
    }
  }

  /** The gate waits for a parent exactly when the block is not genesis, its parents are good, and either the
      selected parent is absent (and is then named), or the block extends it in height and time and the
      first merge parent that does not fit is absent (and is then named). */
  lemma MissingExactly(r: Rules, d: DagMap, b: Block)
    ensures Judge(r, d, b).Missing? <==>
      && !IsGenesis(r, b) && GoodParents(r, b)
      && (b.header.selectedParent in d ==>
            && var h, sp := b.header, d[b.header.selectedParent].header;
            && h.height == sp.height + 1 && sp.timestamp <= h.timestamp
            && (r.hardeningHeight.Some? && r.hardeningHeight.value <= h.height ==> h.timestamp - sp.timestamp <= 3600)
            && exists k: nat :: FirstAbsent(r, d, b, k))
    ensures Judge(r, d, b).Missing? ==>
      if b.header.selectedParent !in d then Judge(r, d, b).parent == b.header.selectedParent
      else forall k: nat :: FirstAbsent(r, d, b, k) ==> Judge(r, d, b).parent == b.header.mergeParents[k]
  {
    WellLinkedMeans(r, b);
    hide WellLinked, GoodParents, IsGenesis, FirstAbsent;
    if b.header.selectedParent in d { MergeMissingAt(r, d, b, 0); }
  }

  /** A missing-parent answer names a parent of the block that is really absent. */
  lemma MissingMeans(r: Rules, d: DagMap, b: Block)
    requires Judge(r, d, b).Missing?
    ensures Judge(r, d, b).parent in b.Parents() && Judge(r, d, b).parent !in d
  {
    if b.header.selectedParent in d {
      MergeMissingMeans(r, d, b.header, d[b.header.selectedParent].header, 0);
    }
  }

  lemma {:induction false} MergeStable(r: Rules, d: DagMap, e: DagMap, h: Header, sp: Header, i: nat)
    requires Extends(d, e) && i <= |h.mergeParents|
    ensures !MergeVerdict(r, d, h, sp, i).Missing? ==>
      MergeVerdict(r, e, h, sp, i) == MergeVerdict(r, d, h, sp, i)
    decreases |h.mergeParents| - i
  {
    if i < |h.mergeParents| { MergeStable(r, d, e, h, sp, i + 1); }
  }

  /** A final verdict, either way, survives any growth of the store; only "missing" can change. */
  lemma VerdictStable(r: Rules, d: DagMap, e: DagMap, b: Block)
    requires Extends(d, e) && !Judge(r, d, b).Missing?
    ensures Judge(r, e, b) == Judge(r, d, b)
  {
    if b.header.selectedParent in d {
      MergeStable(r, d, e, b.header, d[b.header.selectedParent].header, 0);
    }
  }

  lemma {:induction false} MergeFrame(r: Rules, d: DagMap, e: DagMap, h: Header, sp: Header, i: nat)
    requires i <= |h.mergeParents|
    requires forall p :: p in h.mergeParents ==> (p in d <==> p in e) && (p in d ==> d[p].header == e[p].header)
    ensures MergeVerdict(r, d, h, sp, i) == MergeVerdict(r, e, h, sp, i)
    decreases |h.mergeParents| - i
  {
    if i < |h.mergeParents| { MergeFrame(r, d, e, h, sp, i + 1); }
  }

  /** The verdict depends on nothing but the block and the headers held for its own parents. */
  lemma VerdictFrame(r: Rules, d: DagMap, e: DagMap, b: Block)
    requires forall p :: p in b.Parents() ==> (p in d <==> p in e) && (p in d ==> d[p].header == e[p].header)
    ensures Judge(r, d, b) == Judge(r, e, b)
  {
    assert b.header.selectedParent == b.Parents()[0];
    forall p | p in b.header.mergeParents ensures p in b.Parents() {
      var i :| 0 <= i < |b.header.mergeParents| && b.header.mergeParents[i] == p;
      assert b.Parents()[i + 1] == p;
    }
    if b.header.selectedParent in d {
      MergeFrame(r, d, e, b.header, d[b.header.selectedParent].header, 0);
    }
  }

  /** The next block on `sp` merging `merges`, empty and with its hash computed. */
  function Child(r: Rules, sp: Block, merges: seq<Hash>, score: nat, salt: nat): (b: Block)
    ensures HashRecomputes(r, b) && Canonical(r, b)
  {
    var h := Header(sp.header.height + 1, sp.hash, merges, sp.header.timestamp, score, BlueWork(score), salt);
    var b := Block(0, h, r.txRootOf([]), 0, [], EMPTY_SIDECARS, 0);
    b.(hash := r.hashOf(PreimageOf(r, b)))
  }

  /** A child of a held block that merges nothing is accepted whatever its time, from its parent's on and,
      at hardened heights, up to an hour later. */
  lemma LaterChildPasses(r: Rules, d: DagMap, sp: Hash, b: Block)
    requires sp in d && sp != ZERO_HASH && 0 < r.maxParents
    requires b.header.selectedParent == sp && b.header.mergeParents == []
    requires b.header.height == d[sp].header.height + 1
    requires b.header.blueScore == d[sp].header.blueScore + 1
    requires b.header.blueWork == (d[sp].header.blueScore + 1) * 1_000_000
    ensures Judge(r, d, b).Pass? <==>
      && d[sp].header.timestamp <= b.header.timestamp
      && (r.hardeningHeight.Some? && r.hardeningHeight.value <= b.header.height ==>
            b.header.timestamp <= d[sp].header.timestamp + 3600)
  {
    hide Judge;
    PassMeans(r, d, b);
  }

  /** The only child of a held block that merges nothing is accepted. */
  lemma PlainChildPasses(r: Rules, d: DagMap, sp: Block, salt: nat)
    requires sp.hash in d && d[sp.hash].header == sp.header && sp.hash != ZERO_HASH && 0 < r.maxParents
    ensures Judge(r, d, Child(r, sp, [], sp.header.blueScore + 1, salt)).Pass?
  {
    hide Judge;
    PassMeans(r, d, Child(r, sp, [], sp.header.blueScore + 1, salt));
  }
}
