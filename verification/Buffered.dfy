/** Cold sync with the handler's orphan buffer: what an answer leaves waiting is tried again beside the
    next one, so convergence needs no order between a block's height and its merge parents'. */
module Buffered {
  import opened Blocks
  import opened Gate
  import opened Stores
  import opened Admission
  import opened Fixpoint
  import opened LeastFixpoint
  import opened Serve
  import opened Orphans
  import opened ColdSync

  datatype Requester = Requester(node: Node, buffer: seq<Block>)

  /** One `Blocks` message: the fresh blocks and the buffer, bounded, are settled, and what is left over is
      bounded again into the next buffer. */
  ghost predicate Handles(r: Rules, q: Requester, out: seq<Block>, batch: seq<Block>, q': Requester) {
    && Kept(r, out + q.buffer, batch)
    && q'.node == Settle(r, q.node, batch).node
    && Kept(r, Settle(r, q.node, batch).deferred, q'.buffer)
  }

  /** The buffer's caps drop nothing from `blocks`. */
  ghost predicate Roomy(r: Rules, blocks: seq<Block>) { Fits(r, ByHeight(FirstCopies(blocks))) }

  // What the bounded buffer holds.

  lemma KeptFromInput(r: Rules, blocks: seq<Block>, out: seq<Block>)
    requires Kept(r, blocks, out)
    ensures Orphans.Distinct(out) && forall b :: b in out ==> b in blocks
    ensures Roomy(r, blocks) ==> forall b :: b in blocks ==> Carries(out, b.hash)
  {
    hide ByHeight, FirstCopies, OfHeight, Fits;
    var f := FirstCopies(blocks);
    KeptIsDistinct(r, blocks, out);
    FirstCopiesMeans(blocks);
    ByHeightIsStable(f);
    forall b | b in out ensures b in blocks {
      var i :| 0 <= i < |out| && out[i] == b;
      assert ByHeight(f)[i] == b && b in f;
      var j: nat :| IsFirst(blocks, j) && blocks[j] == b;
    }
    forall b | b in blocks ensures Carries(blocks, b.hash) { CarriesMember(blocks, b.hash); }
  }

  lemma {:induction false} FewerBytes(r: Rules, a: seq<Block>, b: seq<Block>)
    requires Orphans.Distinct(a) && forall x :: x in a ==> x in b
    ensures |a| <= |b| && Bytes(r, a) <= Bytes(r, b)
  {
    if a != [] {
      var x, init := a[|a| - 1], a[..|a| - 1];
      assert x in b;
      var i :| 0 <= i < |b| && b[i] == x;
      var rest := b[..i] + b[i + 1..];
      assert b == b[..i] + ([x] + b[i + 1..]);
      BytesAppend(r, b[..i], b[i + 1..]);
      BytesAppend(r, b[..i], [x] + b[i + 1..]);
      BytesAppend(r, [x], b[i + 1..]);
      assert [x][..0] == [];
      forall y | y in init ensures y in rest {
        assert y in a;
        var j :| 0 <= j < |b| && b[j] == y;
        assert j != i;
      }
      FewerBytes(r, init, rest);
    }
  }

  /** What is left over from a batch that fitted fits. */
  lemma LeftoversFit(r: Rules, batch: seq<Block>, deferred: seq<Block>)
    requires Fits(r, batch) && forall b :: b in deferred ==> b in batch
    ensures Roomy(r, deferred)
  {
    hide ByHeight, FirstCopies, OfHeight;
    var f := FirstCopies(deferred);
    FirstCopiesMeans(deferred);
    ByHeightIsStable(f);
    ByHeightDistinct(f);
    FewerBytes(r, ByHeight(f), batch);
  }

  // One message.

  /** A server copy the buffer holds waits for a parent the node really lacks. */
  ghost predicate Waits(r: Rules, s: Chain, q: Requester) {
    && ServedTo(q.node, s, q.buffer)
    && forall b :: b in q.buffer ==> Judge(r, q.node.dag.blocks, b).Missing?
  }

  /** Every server block below `h` is stored or waits in the buffer. */
  ghost predicate Tracks(q: Requester, s: Chain, h: nat) {
    forall k :: k in s.blocks && s.blocks[k].header.height < h ==> InBoth(q.node, k) || Carries(q.buffer, k)
  }

  ghost predicate Peer(r: Rules, n: Node, s: Chain) {
    Collisionless(r) && Ready(r, n) && Servable(r, s) && Welcome(r, n.withdrawn, s)
  }

  /** Every block of the batch is stored or left over. */
  lemma BatchSettles(r: Rules, n: Node, s: Chain, batch: seq<Block>)
    requires Peer(r, n, s) && ServedTo(n, s, batch)
    ensures var t := Settle(r, n, batch);
      && Peer(r, t.node, s) && t.node.withdrawn == n.withdrawn && PrunedBelow(t.node.dag) == PrunedBelow(n.dag)
      && n.dag.blocks.Keys <= t.node.dag.blocks.Keys && n.chain.blocks.Keys <= t.node.chain.blocks.Keys
      && (forall b :: b in batch ==> InBoth(t.node, b.hash) || b in t.deferred)
      && (forall b :: b in t.deferred ==> b in batch && Judge(r, t.node.dag.blocks, b).Missing?)
  {
    hide Settle, Sound, Servable, Welcome, Judge, PrunedBelow, Settled, Remembers, Witnessed, Admissible, Collisionless;
    ServedKeepWithdrawn(r, n, s, batch);
    SettledIsClosed(r, n, batch);
    AfterRound(r, n, batch);
    var t := Settle(r, n, batch);
    SoundKeyed(r, t.node);
    forall b | b in batch && b !in t.deferred ensures InBoth(t.node, b.hash) {
      StoredNotHopeless(r, n, s, t.node, b);
    }
  }

  lemma BatchIsServed(r: Rules, s: Chain, q: Requester, x: Round, batch: seq<Block>)
    requires Answered(r, s, x) && ServedTo(q.node, s, q.buffer) && PrunedBelow(q.node.dag) <= x.start
    requires Kept(r, x.out + q.buffer, batch)
    ensures ServedTo(q.node, s, batch)
  {
    hide Kept, PrunedBelow, Stopped, ResolveStartInclusive;
    KeptFromInput(r, x.out + q.buffer, batch);
  }

  /** A message whose blocks fit keeps track of everything, up to where its answer ends. */
  lemma MessageTracks(r: Rules, s: Chain, q: Requester, x: Round, batch: seq<Block>, q': Requester, h: nat)
    requires Peer(r, q.node, s) && Answered(r, s, x) && Waits(r, s, q) && Tracks(q, s, h) && x.start <= h
    requires PrunedBelow(q.node.dag) <= x.start && Handles(r, q, x.out, batch, q') && Roomy(r, x.out + q.buffer)
    ensures Peer(r, q'.node, s) && Waits(r, s, q') && Tracks(q', s, h) && Tracks(q', s, x.stop)
    ensures q'.node.withdrawn == q.node.withdrawn && PrunedBelow(q'.node.dag) == PrunedBelow(q.node.dag)
  {
    hide Settle, Peer, Kept, PrunedBelow, Judge, Answered, Roomy;
    var t := Settle(r, q.node, batch);
    BatchIsServed(r, s, q, x, batch);
    BatchSettles(r, q.node, s, batch);
    KeptFromInput(r, x.out + q.buffer, batch);
    KeptFits(r, x.out + q.buffer, batch);
    LeftoversFit(r, batch, t.deferred);
    KeptFromInput(r, t.deferred, q'.buffer);
    forall k | k in s.blocks && s.blocks[k].header.height < (if h < x.stop then x.stop else h)
      ensures InBoth(q'.node, k) || Carries(q'.buffer, k)
    {
      PeerHash(r, q.node, s, k);
      AnswerHas(r, s, x, k);
      if !InBoth(q.node, k) { StoredOrKept(q, x.out, batch, q', t, k); }
    }
  }

  lemma PeerHash(r: Rules, n: Node, s: Chain, k: Hash)
    requires Peer(r, n, s) && k in s.blocks
    ensures s.blocks[k].hash == k
  {
  }

  lemma KeptFits(r: Rules, blocks: seq<Block>, out: seq<Block>)
    requires Kept(r, blocks, out)
    ensures Fits(r, out)
  {
  }

  lemma AnswerHas(r: Rules, s: Chain, x: Round, k: Hash)
    requires Answered(r, s, x) && k in s.blocks
    ensures x.start <= s.blocks[k].header.height < x.stop && s.blocks[k].hash == k ==> Carries(x.out, k)
  {
    if x.start <= s.blocks[k].header.height < x.stop && s.blocks[k].hash == k {
      assert s.blocks[k] in x.out;
    }
  }

  lemma StoredOrKept(q: Requester, out: seq<Block>, batch: seq<Block>, q': Requester, t: Run, k: Hash)
    requires Carries(out, k) || Carries(q.buffer, k)
    requires forall b :: b in out + q.buffer ==> Carries(batch, b.hash)
    requires q'.node == t.node && forall b :: b in batch ==> InBoth(t.node, b.hash) || b in t.deferred
    requires forall b :: b in t.deferred ==> Carries(q'.buffer, b.hash)
    ensures InBoth(q'.node, k) || Carries(q'.buffer, k)
  {
    if i :| 0 <= i < |out| && out[i].hash == k { assert (out + q.buffer)[i] == out[i]; }
    if i :| 0 <= i < |q.buffer| && q.buffer[i].hash == k { assert (out + q.buffer)[|out| + i] == q.buffer[i]; }
    var j :| 0 <= j < |batch| && batch[j].hash == k;
    assert batch[j] in batch;
  }

  // The whole run.

  /** The requester before and after each message. */
  ghost predicate Hears(r: Rules, s: Chain, rounds: seq<Round>, batches: seq<seq<Block>>, qs: seq<Requester>) {
    && CatchUp(r, s, rounds) && |qs| == |rounds| + 1 && |batches| == |rounds|
    && (forall i :: 0 <= i < |rounds| ==>
          Handles(r, qs[i], rounds[i].out, batches[i], qs[i + 1]) && Roomy(r, rounds[i].out + qs[i].buffer))
  }

  lemma {:induction false} RunTracks(r: Rules, s: Chain, rounds: seq<Round>, batches: seq<seq<Block>>,
                                     qs: seq<Requester>, i: nat)
    requires Hears(r, s, rounds, batches, qs) && 0 < i <= |rounds| && Peer(r, qs[0].node, s) && qs[0].buffer == []
    requires HoldsBelow(qs[0].node, s, rounds[0].start) && PrunedBelow(qs[0].node.dag) <= rounds[0].start
    ensures Peer(r, qs[i].node, s) && Waits(r, s, qs[i]) && Tracks(qs[i], s, rounds[i - 1].stop)
    ensures qs[i].node.withdrawn == qs[0].node.withdrawn && PrunedBelow(qs[i].node.dag) == PrunedBelow(qs[0].node.dag)
    ensures rounds[i - 1].start >= rounds[0].start + i - 1
  {
    hide Peer, Handles, Roomy, PrunedBelow, Answered, Waits;
    if i == 1 {
      NothingWaitsYet(r, s, qs[0]);
      MessageTracks(r, s, qs[0], rounds[0], batches[0], qs[1], rounds[0].start);
    } else {
      RunTracks(r, s, rounds, batches, qs, i - 1);
      MessageTracks(r, s, qs[i - 1], rounds[i - 1], batches[i - 1], qs[i], rounds[i - 2].stop);
    }
  }

  lemma NothingWaitsYet(r: Rules, s: Chain, q: Requester)
    requires q.buffer == []
    ensures Waits(r, s, q)
  {
  }

  /** Least blue score first: once nothing is out of sight, nothing waits. */
  lemma {:induction false} NoneIsStuck(r: Rules, s: Chain, q: Requester, k: Hash)
    requires Peer(r, q.node, s) && Waits(r, s, q) && Tracks(q, s, s.latest + 1) && k in s.blocks
    ensures InBoth(q.node, k) && !Carries(q.buffer, k)
    decreases s.blocks[k].header.blueScore
  {
    hide Judge, Ready, Welcome, VrfAdmits, Canonical, PrunedBelow, IsGenesis, Collisionless, Waits, Carries;
    var b := s.blocks[k];
    assert b.hash == k;
    ServerParents(r, s, b);
    if IsGenesis(r, b) { GenesisParents(r, b); }
    forall p | p in b.Parents() ensures p == ZERO_HASH || p in q.node.dag.blocks {
      if !IsGenesis(r, b) { NoneIsStuck(r, s, q, p); }
    }
    ReadyKeyed(r, q.node);
    ServerVerdict(r, s, q.node.dag.blocks, b);
    BufferedWaits(r, s, q, k);
    assert b.header.height <= s.latest;
  }

  lemma BufferedWaits(r: Rules, s: Chain, q: Requester, k: Hash)
    requires Waits(r, s, q) && k in s.blocks
    ensures Carries(q.buffer, k) ==> Judge(r, q.node.dag.blocks, s.blocks[k]).Missing?
  {
    hide Judge, PrunedBelow;
    if Carries(q.buffer, k) {
      var i :| 0 <= i < |q.buffer| && q.buffer[i].hash == k;
      assert q.buffer[i] in q.buffer;
    }
  }

  lemma ReadyKeyed(r: Rules, n: Node)
    requires Ready(r, n)
    ensures Keyed(r, n.dag.blocks)
  {
  }

  /** Cold sync converges, whatever the caps of the answers cut off and however merge parents and children
      are spread over the heights: as soon as an answer ends at the server's tip, and at the latest after as
      many rounds as there are heights above the first anchor, every server block is in both stores and
      the buffer is empty. */
  lemma Converges(r: Rules, s: Chain, rounds: seq<Round>, batches: seq<seq<Block>>, qs: seq<Requester>)
    requires Hears(r, s, rounds, batches, qs) && rounds != [] && Peer(r, qs[0].node, s) && qs[0].buffer == []
    requires Contiguous(s) && HoldsBelow(qs[0].node, s, rounds[0].start)
    requires PrunedBelow(qs[0].node.dag) <= rounds[0].start
    ensures var q, last := qs[|rounds|], rounds[|rounds| - 1];
      && Tracks(q, s, last.stop)
      && (last.stop == s.latest + 1 || |rounds| >= s.latest - rounds[0].start ==>
            q.buffer == [] && forall k :: k in s.blocks ==> InBoth(q.node, k))
  {
    hide Peer, Handles, Roomy, PrunedBelow, Waits, Tracks, Contiguous;
    var q, last := qs[|rounds|], rounds[|rounds| - 1];
    RunTracks(r, s, rounds, batches, qs, |rounds|);
    LastAnswer(r, s, last);
    if last.stop == s.latest + 1 || |rounds| >= s.latest - rounds[0].start {
      assert last.stop == s.latest + 1;
      forall k | k in s.blocks ensures InBoth(q.node, k) && !Carries(q.buffer, k) { NoneIsStuck(r, s, q, k); }
      NoneLeft(r, s, q);
    }
  }

  lemma LastAnswer(r: Rules, s: Chain, x: Round)
    requires Answered(r, s, x) && Contiguous(s)
    ensures x.start <= s.latest && x.stop <= s.latest + 1
    ensures x.start < s.latest ==> x.stop >= x.start + 2
    ensures x.start == s.latest ==> x.stop == x.start + 1
  {
    AnswerReachesNextHeight(r, s, x.start, x.count, s.blocks.Keys, x.out, x.stop);
  }

  lemma NoneLeft(r: Rules, s: Chain, q: Requester)
    requires Waits(r, s, q) && forall k :: k in s.blocks ==> !Carries(q.buffer, k)
    ensures q.buffer == []
  {
    hide Waits, Carries;
    FirstWaits(r, s, q);
  }

  lemma FirstWaits(r: Rules, s: Chain, q: Requester)
    requires Waits(r, s, q)
    ensures q.buffer != [] ==> q.buffer[0].hash in s.blocks && Carries(q.buffer, q.buffer[0].hash)
  {
    hide Judge, PrunedBelow;
    if q.buffer != [] { assert q.buffer[0] in q.buffer; }
  }
}
