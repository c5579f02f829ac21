/** Blocks, what a block hash commits to, and the two pure checks admission runs on a received
    copy before it may be written: the body rule and the sidecar rule. */
module Blocks {

  datatype Option<+T> = None | Some(value: T)

  /** A 32-byte hash read as a big-endian number; zero is the "no parent / from genesis" sentinel. */
  type Hash = nat
  const ZERO_HASH: Hash := 0

  /** The full contents of one transaction, as an uninterpreted token. */
  type Tx = nat

  /** The seven sidecar fields together, as an uninterpreted token; 0 is the canonical empty value. */
  type Sidecars = nat
  const EMPTY_SIDECARS: Sidecars := 0

  /** `rest` stands for the header fields no rule of this model reads. */
  datatype Header = Header(
    height: nat, selectedParent: Hash, mergeParents: seq<Hash>,
    timestamp: nat, blueScore: nat, blueWork: nat, rest: nat)
  {
    function Parents(): (p: seq<Hash>) { [selectedParent] + mergeParents }
  }

  /** One copy of a block. `hash` is the hash the copy CLAIMS; `seal` is the signature and the
      equivocation vote, which sign the hash and so are not inside it. */
  datatype Block = Block(
    hash: Hash, header: Header, txRoot: Hash, otherRoots: nat,
    transactions: seq<Tx>, sidecars: Sidecars, seal: nat)
  {
    function Parents(): (p: seq<Hash>) { header.Parents() }
  }

  datatype Checkpoint = Checkpoint(height: nat, hash: Hash)

  /** Everything the block hash is computed over. */
  datatype Preimage = Preimage(header: Header, txRoot: Hash, otherRoots: nat, sidecars: Sidecars)

  /** What a network fixes once and for all: its hash functions, signature and VRF checks, the
      serialized size of a block, and its configured heights and identities. */
  datatype Rules = Rules(
    hashOf: Preimage -> Hash,
    txRootOf: seq<Tx> -> Hash,
    authentic: Tx -> bool,
    vrfOk: (Block, Header) -> bool,
    sizeOf: Block -> nat,
    hardeningHeight: Option<nat>,
    mergeDepthHeight: nat,
    maxParents: nat,
    strictVrf: bool,
    genesis: Hash,
    checkpoints: seq<Checkpoint>)

  /** Collision resistance, idealised: two different pre-images never share a hash, two different
      transaction lists never share a root, and no block hashes to the zero sentinel. */
  ghost predicate Collisionless(r: Rules) {
    && (forall p, q :: r.hashOf(p) == r.hashOf(q) ==> p == q)
    && (forall p :: r.hashOf(p) != ZERO_HASH)
    && (forall s, t :: r.txRootOf(s) == r.txRootOf(t) ==> s == t)
  }

  /** The hardened rules apply from the activation height on, never at genesis. */
  predicate Hardened(r: Rules, height: nat) {
    r.hardeningHeight.Some? && 0 < height && r.hardeningHeight.value <= height
  }

  /** Below the activation height the hash does not cover the sidecar fields. */
  function PreimageOf(r: Rules, b: Block): (p: Preimage) {
    Preimage(b.header, b.txRoot, b.otherRoots,
             if Hardened(r, b.header.height) then b.sidecars else EMPTY_SIDECARS)
  }

  predicate HashRecomputes(r: Rules, b: Block) {
    b.hash == r.hashOf(PreimageOf(r, b))
  }

  /** The identity test for genesis: parentless, at height 0, under the configured hash, and that
      hash recomputes. */
  predicate IsGenesis(r: Rules, b: Block) {
    && b.header.height == 0
    && b.header.selectedParent == ZERO_HASH && b.header.mergeParents == []
    && b.hash == r.genesis
    && HashRecomputes(r, b)
  }

  /** `verify_block_body`: true for Ok. */
  predicate VerifyBody(r: Rules, b: Block) {
    Hardened(r, b.header.height) ==>
      && HashRecomputes(r, b)
      && b.txRoot == r.txRootOf(b.transactions)
      && forall i :: 0 <= i < |b.transactions| ==> r.authentic(b.transactions[i])
  }

  datatype Ingest = Refused | Store(copy: Block)

  /** `sidecar_ingest`: the copy to store, or a refusal. */
  function SidecarIngest(r: Rules, b: Block): (g: Ingest)
    ensures g.Store? ==> g.copy.hash == b.hash && g.copy.header == b.header
    ensures g.Store? && 0 < b.header.height ==> HashRecomputes(r, g.copy)
  {
    if b.header.height == 0 then Store(b)
    else if !HashRecomputes(r, b) then Refused
    else if Hardened(r, b.header.height) || b.sidecars == EMPTY_SIDECARS then Store(b)
    else Store(b.(sidecars := EMPTY_SIDECARS))
  }

  /** What every stored copy must be: its hash recomputes; at a hardened height its transactions are
      the ones the root commits to and each is authentic; below it (genesis aside) the sidecars, which
      the hash does not cover there, are at their empty value. */
  predicate Canonical(r: Rules, b: Block) {
    && HashRecomputes(r, b)
    && VerifyBody(r, b)
    && (!Hardened(r, b.header.height) && 0 < b.header.height ==> b.sidecars == EMPTY_SIDECARS)
    && (b.header.height == 0 ==> IsGenesis(r, b))
  }

  /** Whatever passes both checks is stored as a canonical copy (a height-0 copy passes the
      consistency gate only as genesis). */
  lemma IngestIsCanonical(r: Rules, b: Block)
    requires VerifyBody(r, b) && SidecarIngest(r, b).Store?
    requires b.header.height == 0 ==> IsGenesis(r, b)
    ensures Canonical(r, SidecarIngest(r, b).copy)
  {
    var c := SidecarIngest(r, b).copy;
    assert PreimageOf(r, c) == PreimageOf(r, b);
  }

  /** Two copies of one hash share the whole header and both roots. */
  lemma SameHashSameHeader(r: Rules, b: Block, c: Block)
    requires Collisionless(r) && HashRecomputes(r, b) && HashRecomputes(r, c) && b.hash == c.hash
    ensures b.header == c.header && b.txRoot == c.txRoot && b.otherRoots == c.otherRoots
  {
    assert r.hashOf(PreimageOf(r, b)) == r.hashOf(PreimageOf(r, c));
  }

  /** The hash covers the sidecars from the activation height on, at no lower height and never at genesis. */
  lemma SidecarsAreCoveredFrom(r: Rules, b: Block, sidecars: Sidecars)
    requires Collisionless(r) && HashRecomputes(r, b) && sidecars != b.sidecars
    ensures HashRecomputes(r, b.(sidecars := sidecars)) <==>
      r.hardeningHeight.None? || b.header.height == 0 || b.header.height < r.hardeningHeight.value
  {
    var c := b.(sidecars := sidecars);
    assert HashRecomputes(r, c) ==> r.hashOf(PreimageOf(r, b)) == r.hashOf(PreimageOf(r, c));
  }

  /** Two copies agree on what their hash commits to: at hardened heights everything but the seal. */
  ghost predicate SameCommitted(r: Rules, b: Block, c: Block) {
    && b.header == c.header && b.txRoot == c.txRoot && b.otherRoots == c.otherRoots
    && (0 < b.header.height ==> b.sidecars == c.sidecars)
    && (Hardened(r, b.header.height) ==> b == c.(seal := b.seal))
  }

  /** Content of a stored block does not depend on which copy was stored: two canonical copies of
      one hash agree on everything the hash commits to, and at hardened heights that is everything
      but the seal. Below, the transactions are not bound, but the sidecars still agree. */
  lemma StoredContentIsTheCommittedContent(r: Rules, b: Block, c: Block)
    requires Collisionless(r) && Canonical(r, b) && Canonical(r, c) && b.hash == c.hash
    ensures SameCommitted(r, b, c)
  {
    SameHashSameHeader(r, b, c);
    assert r.hashOf(PreimageOf(r, b)) == r.hashOf(PreimageOf(r, c));
  }
}
