/** Pruning is invisible to admission: a node that prunes and one that never does, fed the same
    deliveries, admit the same blocks and keep the same archive. */
module Invisible {
  import opened Blocks
  import opened Gate
  import opened Stores
  import opened Admission
  import opened Reconcile
  import W = World
  import opened Pruning

  /** `u` never prunes, `p` does; otherwise they hold the same. Deliveries are crash-free, so every
      block of `u` is in both of its stores. */
  ghost predicate Twin(r: Rules, u: Node, p: Node) {
    && Sound(r, u) && ZERO_HASH !in u.dag.blocks
    && u.chain == p.chain && u.withdrawn == p.withdrawn
    && u.dag.blocks.Keys == u.chain.blocks.Keys && u.dag.pruningPoint == ZERO_HASH
    && (p.dag.pruningPoint == ZERO_HASH || p.dag.pruningPoint in p.dag.blocks)
    && p.dag.blocks == KeepFrom(u.dag.blocks, PrunedBelow(p.dag))
  }

  /** Pruning dropped the block. */
  ghost predicate Dropped(u: Node, p: Node, q: Hash) { q in u.dag.blocks && q !in p.dag.blocks }

  /** Anywhere while nothing was ever pruned; then at least one merge depth above the floor, where the
      merge-depth rule is in force. */
  ghost predicate Near(r: Rules, p: Node, b: Block) {
    || PrunedBelow(p.dag) == 0
    || (PrunedBelow(p.dag) + MERGE_PARENT_MAX_DEPTH <= b.header.height && r.mergeDepthHeight <= b.header.height)
  }

  /** The first merge parent from `i` on that the gate cannot accept is a dropped one. */
  ghost predicate MergesDropped(r: Rules, u: Node, p: Node, h: Header, sp: Header, i: nat)
    decreases |h.mergeParents| - i
  {
    i < |h.mergeParents| &&
    (|| Dropped(u, p, h.mergeParents[i])
     || (&& h.mergeParents[i] in p.dag.blocks && MergeParentOk(r, h, sp, p.dag.blocks[h.mergeParents[i]].header)
         && MergesDropped(r, u, p, h, sp, i + 1)))
  }

  /** The gate gets as far as a dropped parent: the selected one, or a merge parent behind held and fitting
      ones only. */
  ghost predicate ReachesDropped(r: Rules, u: Node, p: Node, b: Block) {
    && !IsGenesis(r, b) && WellLinked(r, b)
    && var q := b.header.selectedParent;
    || Dropped(u, p, q)
    || (&& q in p.dag.blocks && ExtendsSelected(r, b.header, p.dag.blocks[q].header)
        && MergesDropped(r, u, p, b.header, p.dag.blocks[q].header, 0))
  }

  lemma DroppedIsLow(r: Rules, u: Node, p: Node, q: Hash)
    requires Twin(r, u, p) && Dropped(u, p, q)
    ensures u.dag.blocks[q].header.height < PrunedBelow(p.dag)
  {
    hide Sound;
  }

  lemma HeldIsSame(r: Rules, u: Node, p: Node, q: Hash)
    requires Twin(r, u, p)
    ensures q in p.dag.blocks ==> q in u.dag.blocks && u.dag.blocks[q] == p.dag.blocks[q]
  {
    hide Sound;
  }

  /** A dropped merge parent is too deep for the unpruned node and missing for the pruned one; with none
      in the way the two agree. */
  lemma {:induction false} MergeVerdicts(r: Rules, u: Node, p: Node, b: Block, sp: Header, i: nat)
    requires Twin(r, u, p) && Near(r, p, b) && i <= |b.header.mergeParents|
    ensures var x, y := MergeVerdict(r, u.dag.blocks, b.header, sp, i), MergeVerdict(r, p.dag.blocks, b.header, sp, i);
      if MergesDropped(r, u, p, b.header, sp, i) then x == Invalid && y.Missing? && Dropped(u, p, y.parent) else x == y
    decreases |b.header.mergeParents| - i
  {
    hide Twin, PrunedBelow;
    if i < |b.header.mergeParents| {
      var q := b.header.mergeParents[i];
      HeldIsSame(r, u, p, q);
      if Dropped(u, p, q) { DroppedIsLow(r, u, p, q); }
      MergeVerdicts(r, u, p, b, sp, i + 1);
    }
  }

  lemma Verdicts(r: Rules, u: Node, p: Node, b: Block)
    requires Twin(r, u, p) && Near(r, p, b)
    ensures var x, y := Judge(r, u.dag.blocks, b), Judge(r, p.dag.blocks, b);
      if ReachesDropped(r, u, p, b) then x == Invalid && y.Missing? && Dropped(u, p, y.parent) else x == y
  {
    hide Twin, PrunedBelow, IsGenesis, WellLinked, MergesDropped;
    var q := b.header.selectedParent;
    HeldIsSame(r, u, p, q);
    if Dropped(u, p, q) { DroppedIsLow(r, u, p, q); }
    if q in p.dag.blocks { MergeVerdicts(r, u, p, b, p.dag.blocks[q].header, 0); }
  }

  lemma SameVrf(r: Rules, u: Node, p: Node, b: Block, copy: Block)
    requires Twin(r, u, p) && Judge(r, p.dag.blocks, b).Pass? && copy.header == b.header
    requires IsGenesis(r, b) ==> copy == b
    ensures VrfAdmits(r, u.dag.blocks, copy) == VrfAdmits(r, p.dag.blocks, copy)
  {
    hide Judge, Twin;
    PassMeans(r, p.dag.blocks, b);
    HeldIsSame(r, u, p, b.header.selectedParent);
  }

  /** A stored block: the unpruned node answers AlreadyAdmitted, and so does the pruned one exactly when
      its DAG still holds the block or the delivered copy claims a height below the floor. */
  lemma StoredAnswers(r: Rules, u: Node, p: Node, b: Block)
    requires Twin(r, u, p) && b.hash in u.chain.blocks
    requires !WithdrawnHit(u.withdrawn, b) && !CheckpointRefuses(r, b.header.height, b.hash)
    ensures AdmitStep(r, u, b) == Admission(u, AlreadyAdmitted)
    ensures AdmitStep(r, p, b).outcome.AlreadyAdmitted? <==>
      b.hash in p.dag.blocks || b.header.height < PrunedBelow(p.dag)
  {
    hide Judge, VerifyBody, VrfAdmits, Sound;
  }

  /** A stored block is never written again by the pruned node, whatever copy arrives. */
  lemma StoredStays(r: Rules, u: Node, p: Node, b: Block)
    requires Collisionless(r) && Twin(r, u, p) && b.hash in u.chain.blocks
    ensures !AdmitStep(r, p, b).outcome.Admitted?
    ensures HashRecomputes(r, b) ==> b.hash in p.dag.blocks || b.header.height < PrunedBelow(p.dag)
  {
    hide AdmitStep, Judge, VerifyBody, VrfAdmits;
    AdmitEffect(r, p, b);
    var copy := u.dag.blocks[b.hash];
    if HashRecomputes(r, b) { SameHashSameHeader(r, b, copy); }
    if Cleared(r, p.dag.blocks, b) { ClearedHeader(r, p.dag.blocks, b, copy); }
  }

  lemma ClearedHeader(r: Rules, d: DagMap, b: Block, stored: Block)
    requires Collisionless(r) && Cleared(r, d, b) && HashRecomputes(r, stored) && stored.hash == b.hash
    ensures b.header == stored.header
  {
    hide Judge, VerifyBody;
    ClearedIsCanonical(r, d, b);
    SameHashSameHeader(r, SidecarIngest(r, b).copy, stored);
  }

  /** Both nodes store the same copy: they stay twins. */
  lemma TwinStores(r: Rules, u: Node, p: Node, copy: Block)
    requires Twin(r, u, p) && copy.hash !in u.chain.blocks && PrunedBelow(p.dag) <= copy.header.height
    requires Sound(r, u.(dag := AddToDag(u.dag, copy), chain := AddToChain(u.chain, copy))) && copy.hash != ZERO_HASH
    ensures Twin(r, u.(dag := AddToDag(u.dag, copy), chain := AddToChain(u.chain, copy)),
                    p.(dag := AddToDag(p.dag, copy), chain := AddToChain(p.chain, copy)))
  {
    hide Sound, KeepFrom, Put;
    var u', p' := AddToDag(u.dag, copy), AddToDag(p.dag, copy);
    assert PrunedBelow(p') == PrunedBelow(p.dag);
    KeepFromAdd(u.dag.blocks, copy, PrunedBelow(p.dag));
  }

  lemma KeepFromAdd(m: DagMap, b: Block, floor: nat)
    requires floor <= b.header.height
    ensures KeepFrom(m, floor)[b.hash := b] == KeepFrom(m[b.hash := b], floor)
  {
  }

  /** The block passes the two rules that come before anything stored is read. */
  ghost predicate Unrefused(r: Rules, u: Node, b: Block) {
    !WithdrawnHit(u.withdrawn, b) && !CheckpointRefuses(r, b.header.height, b.hash)
  }

  /** A new block near the tip gets the same answer from both nodes, unless the gate reaches a dropped
      parent; then the unpruned node rejects it and the pruned one waits for that parent. */
  lemma NewBlockAnswers(r: Rules, u: Node, p: Node, b: Block)
    requires Twin(r, u, p) && b.hash !in u.chain.blocks && Near(r, p, b)
    ensures var x, y := AdmitStep(r, u, b).outcome, AdmitStep(r, p, b).outcome;
      if Unrefused(r, u, b) && ReachesDropped(r, u, p, b)
      then x == Rejected && y.Deferred? && Dropped(u, p, y.missingParent)
      else x == y
  {
    hide AdmitStep, Judge, VerifyBody, VrfAdmits, ReachesDropped, WithdrawnHit, CheckpointRefuses, Dropped, Near;
    hide IsGenesis, Sound, KeepFrom;
    HeldIsSame(r, u, p, b.hash);
    FreshOutcome(r, u, b);
    FreshOutcome(r, p, b);
    Verdicts(r, u, p, b);
    if Judge(r, p.dag.blocks, b).Pass? && SidecarIngest(r, b).Store? {
      if IsGenesis(r, b) { GenesisStores(r, u.dag.blocks, b); }
      SameVrf(r, u, p, b, SidecarIngest(r, b).copy);
    }
  }

  /** The answer to a block neither store holds. */
  lemma FreshOutcome(r: Rules, n: Node, b: Block)
    requires b.hash !in n.dag.blocks && b.hash !in n.chain.blocks
    ensures AdmitStep(r, n, b).outcome ==
      if !Unrefused(r, n, b) then Rejected
      else match Judge(r, n.dag.blocks, b)
        case Missing(q) => Deferred(q)
        case Invalid => Rejected
        case Pass =>
          if VerifyBody(r, b) && SidecarIngest(r, b).Store? && VrfAdmits(r, n.dag.blocks, SidecarIngest(r, b).copy)
          then Admitted(false) else Rejected
  {
    hide Judge, VerifyBody, VrfAdmits, WithdrawnHit, CheckpointRefuses;
  }

  /** Exactly when the two answers to a delivery differ. For a stored block: when the pruned node dropped it
      and the copy claims a height at or above the floor (an altered copy). For a new one: when the gate
      reaches a dropped parent. */
  ghost predicate Differ(r: Rules, u: Node, p: Node, b: Block) {
    && Unrefused(r, u, b)
    && if b.hash in u.chain.blocks then b.hash !in p.dag.blocks && PrunedBelow(p.dag) <= b.header.height
       else ReachesDropped(r, u, p, b)
  }

  /** One delivery to both nodes, of a block that is stored or near the tip. */
  lemma DeliveryKeepsTwins(r: Rules, u: Node, p: Node, b: Block)
    requires Collisionless(r) && Twin(r, u, p) && (b.hash in u.chain.blocks || Near(r, p, b))
    ensures Twin(r, AdmitStep(r, u, b).node, AdmitStep(r, p, b).node)
    ensures AdmitStep(r, u, b).outcome == AdmitStep(r, p, b).outcome <==> !Differ(r, u, p, b)
    ensures Differ(r, u, p, b) ==> !AdmitStep(r, u, b).outcome.Admitted? && !AdmitStep(r, p, b).outcome.Admitted?
    ensures Differ(r, u, p, b) && b.hash in u.chain.blocks ==> !HashRecomputes(r, b)
  {
    hide AdmitStep, Judge, Sound, VerifyBody, VrfAdmits, WithdrawnHit, CheckpointRefuses, ReachesDropped;
    AdmitEffect(r, u, b);
    AdmitEffect(r, p, b);
    AdmitKeepsSound(r, u, b);
    SameWithdrawn(r, u, p, b);
    if b.hash in u.chain.blocks {
      StoredStays(r, u, p, b);
      if Unrefused(r, u, b) { StoredAnswers(r, u, p, b); }
      NotAdmittedTwins(r, u, p, AdmitStep(r, u, b).node, AdmitStep(r, p, b).node);
    } else {
      NewBlockAnswers(r, u, p, b);
      if AdmitStep(r, u, b).outcome.Admitted? {
        ClearedIsCanonical(r, u.dag.blocks, b);
        TwinStores(r, u, p, SidecarIngest(r, b).copy);
      } else {
        NotAdmittedTwins(r, u, p, AdmitStep(r, u, b).node, AdmitStep(r, p, b).node);
      }
    }
  }

  lemma NotAdmittedTwins(r: Rules, u: Node, p: Node, u': Node, p': Node)
    requires Twin(r, u, p) && u'.withdrawn == p'.withdrawn && Sound(r, u')
    requires u' == u.(withdrawn := u'.withdrawn) && p' == p.(withdrawn := p'.withdrawn)
    ensures Twin(r, u', p')
  {
    hide Sound;
  }

  /** Both remember the same refused descendants and refuse the same blocks outright. */
  lemma SameWithdrawn(r: Rules, u: Node, p: Node, b: Block)
    requires Twin(r, u, p)
    ensures AdmitStep(r, u, b).node.withdrawn == AdmitStep(r, p, b).node.withdrawn
    ensures WithdrawnHit(u.withdrawn, b) || CheckpointRefuses(r, b.header.height, b.hash) ==>
      AdmitStep(r, u, b).outcome == Rejected && AdmitStep(r, p, b).outcome == Rejected
  {
    hide Judge, Sound, VerifyBody, VrfAdmits, KeepFrom;
  }

  lemma PassShape(d: Dag, c: Chain, applied: nat, retain: nat)
    requires ChainOk(c)
    ensures var d' := PruneStep(d, c, applied, retain);
      d' != d ==>
        && d'.pruningPoint in d.blocks && d'.pruningPoint in c.blocks
        && d'.blocks == KeepFrom(d.blocks, d.blocks[d'.pruningPoint].header.height)
        && c.blocks[d'.pruningPoint].header.height + MIN_RETAIN_BLOCKS <= applied
  {
    hide ChainOk;
  }

  lemma CutTwice(m: DagMap, low: nat, high: nat)
    requires low <= high
    ensures KeepFrom(KeepFrom(m, low), high) == KeepFrom(m, high)
  {
  }

  /** A pruning pass of `p`, at any moment: still twins, now with the higher floor; and a block no more
      than 800 heights below the applied height of that pass is near. */
  lemma PruneKeepsTwins(r: Rules, u: Node, p: Node, applied: nat, retain: nat)
    requires Collisionless(r) && Twin(r, u, p)
    ensures var p' := p.(dag := PruneStep(p.dag, p.chain, applied, retain));
      && Twin(r, u, p')
      && (p'.dag != p.dag ==> forall b: Block ::
            applied <= b.header.height + 800 && r.mergeDepthHeight <= b.header.height ==> Near(r, p', b))
  {
    hide PruneStep, VerifyBody;
    PassShape(p.dag, p.chain, applied, retain);
    var d := PruneStep(p.dag, p.chain, applied, retain);
    if d == p.dag {
      assert p.(dag := d) == p;
    } else {
      var h := d.pruningPoint;
      var b := u.dag.blocks[h];
      SameHashSameHeader(r, b, p.chain.blocks[h]);
      CutTwice(u.dag.blocks, PrunedBelow(p.dag), b.header.height);
      assert PrunedBelow(d) == b.header.height;
    }
  }

  datatype Event =
    | Deliver(b: Block)                     // the same delivery to both nodes
    | PruneOne(applied: nat, retain: nat)   // a pruning pass of the pruning node only
    | Advance(tip: Tip)                     // both applied tips move

  datatype Pair = Pair(u: Node, p: Node)

  function Feed(r: Rules, s: Pair, e: Event): (s': Pair) {
    match e
    case Deliver(b) => Pair(AdmitStep(r, s.u, b).node, AdmitStep(r, s.p, b).node)
    case PruneOne(applied, retain) => s.(p := s.p.(dag := PruneStep(s.p.dag, s.p.chain, applied, retain)))
    case Advance(tip) =>
      Pair(s.u.(chain := s.u.chain.(applied := Some(tip))), s.p.(chain := s.p.chain.(applied := Some(tip))))
  }

  function FeedAll(r: Rules, s: Pair, es: seq<Event>): (s': Pair) {
    if es == [] then s else Feed(r, FeedAll(r, s, es[..|es| - 1]), es[|es| - 1])
  }

  /** Every delivery of the run is of a block stored by then or near the tip; any copy will do. */
  ghost predicate WellFed(r: Rules, s: Pair, es: seq<Event>) {
    forall i :: 0 <= i < |es| && es[i].Deliver? ==>
      var t := FeedAll(r, s, es[..i]); es[i].b.hash in t.u.chain.blocks || Near(r, t.p, es[i].b)
  }

  lemma FeedKeepsTwins(r: Rules, s: Pair, e: Event)
    requires Collisionless(r) && Twin(r, s.u, s.p)
    requires e.Deliver? ==> e.b.hash in s.u.chain.blocks || Near(r, s.p, e.b)
    ensures Twin(r, Feed(r, s, e).u, Feed(r, s, e).p)
  {
    hide AdmitStep, PruneStep, Twin, Near, Differ;
    match e {
      case Deliver(b) => DeliveryKeepsTwins(r, s.u, s.p, b);
      case PruneOne(applied, retain) => PruneKeepsTwins(r, s.u, s.p, applied, retain);
      case Advance(tip) => AdvanceKeepsTwins(r, s.u, s.p, tip);
    }
  }

  lemma AdvanceKeepsTwins(r: Rules, u: Node, p: Node, tip: Tip)
    requires Twin(r, u, p)
    ensures Twin(r, u.(chain := u.chain.(applied := Some(tip))), p.(chain := p.chain.(applied := Some(tip))))
  {
    hide Canonical, KeepFrom, PrunedBelow;
  }

  /** Pruning is invisible: along every such run, at every moment the two archives are equal, the pruned
      DAG is the unpruned one cut at the floor, and the two nodes answer the next delivery alike, except
      exactly in the cases of `Differ`, in which neither admits the block. */
  lemma {:induction false} PruningIsInvisible(r: Rules, s: Pair, es: seq<Event>, i: nat)
    requires Collisionless(r) && Twin(r, s.u, s.p) && WellFed(r, s, es) && i <= |es|
    ensures var t := FeedAll(r, s, es[..i]);
      && Twin(r, t.u, t.p)
      && (i < |es| && es[i].Deliver? ==>
            var b := es[i].b;
            var x, y := AdmitStep(r, t.u, b).outcome, AdmitStep(r, t.p, b).outcome;
            && (x == y <==> !Differ(r, t.u, t.p, b))
            && (x != y ==> !x.Admitted? && !y.Admitted?)
            && (b.hash in t.u.chain.blocks && HashRecomputes(r, b) ==> x == y))
  {
    hide Twin, Feed, Near, Differ, AdmitStep, HashRecomputes;
    if i > 0 {
      PruningIsInvisible(r, s, es, i - 1);
      assert es[..i][..i - 1] == es[..i - 1] && es[..i][i - 1] == es[i - 1];
      FeedKeepsTwins(r, FeedAll(r, s, es[..i - 1]), es[i - 1]);
    }
    var t := FeedAll(r, s, es[..i]);
    if i < |es| && es[i].Deliver? { DeliveryKeepsTwins(r, t.u, t.p, es[i].b); }
  }

  /** Every delivered block is stored by then, or the merge-depth rule is in force at its height and it lies no
      more than 800 heights below the applied height of any pruning pass so far; before the first pass
      anything may be delivered. */
  ghost predicate InReach(r: Rules, s: Pair, es: seq<Event>, i: nat)
    requires i < |es| && es[i].Deliver?
  {
    || es[i].b.hash in FeedAll(r, s, es[..i]).u.chain.blocks
    || (forall j :: 0 <= j < i && es[j].PruneOne? ==>
          es[j].applied <= es[i].b.header.height + 800 && r.mergeDepthHeight <= es[i].b.header.height)
  }

  /** The floor is zero or at least the hard minimum below the applied height of some pass so far. */
  ghost predicate FloorExplained(p: Node, es: seq<Event>) {
    || PrunedBelow(p.dag) == 0
    || exists j :: 0 <= j < |es| && es[j].PruneOne? && PrunedBelow(p.dag) + MIN_RETAIN_BLOCKS <= es[j].applied
  }

  lemma FloorAfter(r: Rules, s: Pair, e: Event)
    requires Collisionless(r) && Twin(r, s.u, s.p)
    ensures var f := PrunedBelow(Feed(r, s, e).p.dag);
      f == PrunedBelow(s.p.dag) || (e.PruneOne? && f + MIN_RETAIN_BLOCKS <= e.applied)
  {
    hide AdmitStep, Judge, PruneStep, Sound, VerifyBody;
    match e
    case Deliver(b) => AdmitEffect(r, s.p, b);
    case PruneOne(applied, retain) =>
      PassShape(s.p.dag, s.p.chain, applied, retain) by { TwinChain(r, s.u, s.p); }
      PassHeight(r, s.u, s.p, applied, retain);
    case Advance(_) =>
  }

  lemma TwinChain(r: Rules, u: Node, p: Node)
    requires Twin(r, u, p)
    ensures ChainOk(p.chain)
  {
  }

  lemma PassHeight(r: Rules, u: Node, p: Node, applied: nat, retain: nat)
    requires Collisionless(r) && Twin(r, u, p)
    ensures var d := PruneStep(p.dag, p.chain, applied, retain);
      d != p.dag ==> PrunedBelow(d) + MIN_RETAIN_BLOCKS <= applied
  {
    hide PruneStep, VerifyBody;
    PassShape(p.dag, p.chain, applied, retain);
    var d := PruneStep(p.dag, p.chain, applied, retain);
    if d != p.dag { SameHashSameHeader(r, u.dag.blocks[d.pruningPoint], p.chain.blocks[d.pruningPoint]); }
  }

  lemma FloorGrows(p: Node, p': Node, es: seq<Event>, e: Event)
    requires FloorExplained(p, es)
    requires
      || PrunedBelow(p'.dag) == PrunedBelow(p.dag)
      || (e.PruneOne? && PrunedBelow(p'.dag) + MIN_RETAIN_BLOCKS <= e.applied)
    ensures FloorExplained(p', es + [e])
  {
    var fs := es + [e];
    assert fs[|es|] == e;
    if PrunedBelow(p'.dag) == PrunedBelow(p.dag) && PrunedBelow(p.dag) != 0 {
      var j :| 0 <= j < |es| && es[j].PruneOne? && PrunedBelow(p.dag) + MIN_RETAIN_BLOCKS <= es[j].applied;
      assert fs[j] == es[j];
    }
  }

  /** So a run of such deliveries, from two nodes that have not pruned yet, is one pruning cannot be seen in. */
  lemma {:induction false} RunsInReachAreWellFed(r: Rules, s: Pair, es: seq<Event>)
    requires Collisionless(r) && Twin(r, s.u, s.p) && PrunedBelow(s.p.dag) == 0
    requires forall i :: 0 <= i < |es| && es[i].Deliver? ==> InReach(r, s, es, i)
    ensures WellFed(r, s, es)
    ensures var t := FeedAll(r, s, es); Twin(r, t.u, t.p) && FloorExplained(t.p, es)
  {
    hide Twin, Feed, PrunedBelow, FloorExplained;
    if es == [] {
      assert FloorExplained(s.p, es) by { NoFloor(s.p, es); }
    } else {
      var init, e := es[..|es| - 1], es[|es| - 1];
      assert es == init + [e];
      forall i | 0 <= i < |init| && init[i].Deliver? ensures InReach(r, s, init, i) {
        assert InReach(r, s, es, i) && init[..i] == es[..i];
      }
      RunsInReachAreWellFed(r, s, init);
      var t := FeedAll(r, s, init);
      if e.Deliver? && e.b.hash !in t.u.chain.blocks {
        assert InReach(r, s, es, |init|);
        InReachIsNear(r, t.p, init, e.b);
      }
      FeedKeepsTwins(r, t, e);
      FloorAfter(r, t, e);
      FloorGrows(t.p, Feed(r, t, e).p, init, e);
      forall i | 0 <= i < |es| && es[i].Deliver?
        ensures var v := FeedAll(r, s, es[..i]); es[i].b.hash in v.u.chain.blocks || Near(r, v.p, es[i].b)
      {
        if i < |init| { assert init[..i] == es[..i] && init[i] == es[i]; } else { assert es[..i] == init; }
      }
    }
  }

  lemma NoFloor(p: Node, es: seq<Event>)
    requires PrunedBelow(p.dag) == 0
    ensures FloorExplained(p, es)
  {
  }

  lemma InReachIsNear(r: Rules, p: Node, es: seq<Event>, b: Block)
    requires FloorExplained(p, es)
    requires forall j :: 0 <= j < |es| && es[j].PruneOne? ==>
      es[j].applied <= b.header.height + 800 && r.mergeDepthHeight <= b.header.height
    ensures Near(r, p, b)
  {
  }

  /** Where the two nodes start: a fresh node, seeded, has genesis in both stores. */
  lemma TwinsStart(r: Rules, g: Block, w: set<Hash>)
    requires Collisionless(r) && Canonical(r, g) && IsGenesis(r, g)
    ensures var n := SeedStep(r, W.Fresh(g, w).node); n == Seeded(g).(withdrawn := w) && Twin(r, n, n)
  {
    SeedsEmpty(r, W.Fresh(g, w).node, g);
    var n := Seeded(g).(withdrawn := w);
    assert KeepFrom(n.dag.blocks, 0) == n.dag.blocks;
  }

  /** An empty block on `q` at a height that does not follow from it. */
  function Stray(r: Rules, q: Hash, height: nat, salt: nat): (b: Block)
    ensures HashRecomputes(r, b) && b.header == Header(height, q, [], 0, 0, 0, salt)
  {
    var b := Block(0, Header(height, q, [], 0, 0, 0, salt), r.txRootOf([]), 0, [], EMPTY_SIDECARS, 0);
    b.(hash := r.hashOf(PreimageOf(r, b)))
  }

  /** Among enough of them, one has a hash outside any finite set. */
  lemma {:induction false} FreshStray(r: Rules, q: Hash, height: nat, taken: set<Hash>, from: nat) returns (salt: nat)
    requires Collisionless(r)
    ensures from <= salt && Stray(r, q, height, salt).hash !in taken
    decreases taken
  {
    salt := from;
    var h := Stray(r, q, height, from).hash;
    if h in taken {
      salt := FreshStray(r, q, height, taken - {h}, from + 1);
      if Stray(r, q, height, salt).hash == h {
        SameHashSameHeader(r, Stray(r, q, height, salt), Stray(r, q, height, from));
      }
    }
  }

  /** Some height from `low` on has no checkpoint. */
  lemma {:induction false} FreeHeight(cps: seq<Checkpoint>, low: nat) returns (height: nat)
    ensures low <= height && forall c :: c in cps ==> c.height < height || height < c.height
  {
    if cps == [] {
      height := low;
    } else {
      height := FreeHeight(cps[1..], if cps[0].height < low then low else cps[0].height + 1);
    }
  }

  /** The answers really can differ: as soon as anything (not withdrawn) has been dropped, some honest copy
      near the tip is rejected by the unpruned node and deferred by the pruned one. */
  lemma AnswersCanDiffer(r: Rules, u: Node, p: Node, q: Hash) returns (b: Block)
    requires Collisionless(r) && Twin(r, u, p) && Dropped(u, p, q) && q !in u.withdrawn
    requires 0 < r.maxParents
    ensures HashRecomputes(r, b) && Near(r, p, b) && b.hash !in u.chain.blocks
    ensures AdmitStep(r, u, b).outcome == Rejected && AdmitStep(r, p, b).outcome == Deferred(q)
  {
    hide AdmitStep, Judge, Sound;
    var floor := PrunedBelow(p.dag) + MERGE_PARENT_MAX_DEPTH;
    var low := if floor < r.mergeDepthHeight then r.mergeDepthHeight else floor;
    var height := FreeHeight(r.checkpoints, low);
    var salt := FreshStray(r, q, height, u.chain.blocks.Keys + u.withdrawn, 0);
    b := Stray(r, q, height, salt);
    assert b.Parents() == [q];
    assert ReachesDropped(r, u, p, b);
    NewBlockAnswers(r, u, p, b);
    OnlyParent(r, p, b, q);
  }

  lemma OnlyParent(r: Rules, p: Node, b: Block, q: Hash)
    requires b.Parents() == [q] && AdmitStep(r, p, b).outcome.Deferred?
    ensures AdmitStep(r, p, b).outcome == Deferred(q)
  {
    hide Judge, WithdrawnHit, CheckpointRefuses, VerifyBody, VrfAdmits;
    if Judge(r, p.dag.blocks, b).Missing? { MissingMeans(r, p.dag.blocks, b); }
  }

  // A run in which pruning drops a block: a plain chain long enough, applied, then one pass.

  /** Block `h` of the plain chain on genesis. */
  ghost function LinkAt(r: Rules, g: Block, h: nat): (b: Block) {
    if h == 0 then g
    else var sp := LinkAt(r, g, h - 1); Child(r, sp, [], sp.header.blueScore + 1, 0)
  }

  lemma {:induction false} LinkFacts(r: Rules, g: Block, h: nat)
    requires Collisionless(r) && Canonical(r, g) && IsGenesis(r, g)
    ensures var b := LinkAt(r, g, h);
      && b.header.height == h && HashRecomputes(r, b) && Canonical(r, b) && b.hash != ZERO_HASH
      && (h > 0 ==> b.header.selectedParent == LinkAt(r, g, h - 1).hash && b.header.mergeParents == [])
  {
    if h > 0 { LinkFacts(r, g, h - 1); }
  }

  lemma LinksApart(r: Rules, g: Block, h: nat, k: nat)
    requires Collisionless(r) && Canonical(r, g) && IsGenesis(r, g) && h != k
    ensures LinkAt(r, g, h).hash != LinkAt(r, g, k).hash
  {
    LinkFacts(r, g, h);
    LinkFacts(r, g, k);
    if LinkAt(r, g, h).hash == LinkAt(r, g, k).hash { SameHashSameHeader(r, LinkAt(r, g, h), LinkAt(r, g, k)); }
  }

  function Seeded(g: Block): (n: Node) {
    Node(Dag(map[g.hash := g], ZERO_HASH), Put(Chain(map[], map[], 0, None), g), {})
  }

  ghost function Line(r: Rules, g: Block, n: nat): (m: Node) {
    if n == 0 then Seeded(g) else AdmitStep(r, Line(r, g, n - 1), LinkAt(r, g, n)).node
  }

  /** Exactly the first `n + 1` links are stored, each indexed at its height. */
  ghost predicate IsLine(r: Rules, g: Block, n: nat, m: Node) {
    && m.dag.pruningPoint == ZERO_HASH && m.withdrawn == {} && m.chain.blocks == m.dag.blocks
    && (forall k :: k in m.dag.blocks ==>
          m.dag.blocks[k].header.height <= n && k == LinkAt(r, g, m.dag.blocks[k].header.height).hash)
    && (forall h :: 0 <= h <= n ==>
          var b := LinkAt(r, g, h); b.hash in m.dag.blocks && m.dag.blocks[b.hash] == b)
  }

  /** The network the run is on. */
  ghost predicate Permissive(r: Rules, g: Block) {
    && Collisionless(r) && Canonical(r, g) && IsGenesis(r, g)
    && r.checkpoints == [] && !r.strictVrf && 0 < r.maxParents
  }

  lemma {:induction false} LineFacts(r: Rules, g: Block, n: nat)
    requires Permissive(r, g)
    ensures IsLine(r, g, n, Line(r, g, n))
  {
    hide Permissive, AdmitStep, IsLine, LinkAt, Seeded;
    if n == 0 {
      LineBase(r, g);
    } else {
      LineFacts(r, g, n - 1);
      var m, b := Line(r, g, n - 1), LinkAt(r, g, n);
      LineGrows(r, g, n, m);
      LineStores(r, g, n, m);
    }
  }

  lemma LineBase(r: Rules, g: Block)
    requires Permissive(r, g)
    ensures IsLine(r, g, 0, Seeded(g))
  {
    LinkFacts(r, g, 0);
    hide Collisionless, Canonical, IsGenesis;
    assert Seeded(g).chain.blocks == map[g.hash := g];
  }

  lemma LineStores(r: Rules, g: Block, n: nat, m: Node)
    requires n > 0 && IsLine(r, g, n - 1, m)
    requires LinkAt(r, g, n).hash !in m.dag.blocks && LinkAt(r, g, n).header.height == n
    ensures var b := LinkAt(r, g, n); IsLine(r, g, n, m.(dag := AddToDag(m.dag, b), chain := AddToChain(m.chain, b)))
  {
    hide LinkAt;
  }

  lemma NextLink(r: Rules, g: Block, n: nat)
    requires n > 0
    ensures var sp := LinkAt(r, g, n - 1); LinkAt(r, g, n) == Child(r, sp, [], sp.header.blueScore + 1, 0)
  {
  }

  lemma LinkIsNew(r: Rules, g: Block, n: nat, m: Node)
    requires Permissive(r, g) && n > 0 && IsLine(r, g, n - 1, m)
    ensures LinkAt(r, g, n).hash !in m.dag.blocks
  {
    hide Collisionless, Canonical, IsGenesis, LinkAt;
    var b := LinkAt(r, g, n);
    if b.hash in m.dag.blocks { LinksApart(r, g, n, m.dag.blocks[b.hash].header.height); }
  }

  /** The next link is new and is admitted as it is. */
  lemma LineGrows(r: Rules, g: Block, n: nat, m: Node)
    requires Permissive(r, g) && n > 0 && IsLine(r, g, n - 1, m)
    ensures var b := LinkAt(r, g, n);
      && b.hash !in m.dag.blocks && b.header.height == n
      && AdmitStep(r, m, b).node == m.(dag := AddToDag(m.dag, b), chain := AddToChain(m.chain, b))
  {
    hide Judge, Collisionless, Canonical, IsGenesis, AdmitStep, LinkAt, Child, VerifyBody;
    var b, sp := LinkAt(r, g, n), LinkAt(r, g, n - 1);
    LinkFacts(r, g, n);
    LinkFacts(r, g, n - 1);
    LinkIsNew(r, g, n, m);
    assert m.dag.blocks[sp.hash] == sp;
    PlainChildPasses(r, m.dag.blocks, sp, 0);
    NextLink(r, g, n);
    PlainCleared(r, b);
    FreshOutcome(r, m, b);
    assert b.Parents() == [sp.hash];
    AdmitEffect(r, m, b);
  }

  lemma PlainCleared(r: Rules, z: Block)
    requires Canonical(r, z)
    ensures VerifyBody(r, z) && SidecarIngest(r, z) == Store(z)
  {
  }

  ghost function Deliveries(r: Rules, g: Block, n: nat): (es: seq<Event>) {
    if n == 0 then [] else Deliveries(r, g, n - 1) + [Deliver(LinkAt(r, g, n))]
  }

  lemma {:induction false} LineIsFed(r: Rules, g: Block, n: nat)
    requires Permissive(r, g)
    ensures |Deliveries(r, g, n)| == n
    ensures FeedAll(r, Pair(Seeded(g), Seeded(g)), Deliveries(r, g, n)) == Pair(Line(r, g, n), Line(r, g, n))
    ensures forall k :: 0 <= k <= n ==> Deliveries(r, g, n)[..k] == Deliveries(r, g, k)
  {
    hide AdmitStep, LinkAt;
    if n > 0 {
      LineIsFed(r, g, n - 1);
      var es := Deliveries(r, g, n);
      assert es[..n - 1] == Deliveries(r, g, n - 1) && es[..n] == es;
      forall k | 0 <= k < n ensures es[..k] == Deliveries(r, g, k) { assert es[..k] == es[..n - 1][..k]; }
    }
  }

  /** Selected-parent links lead from any link down to any lower one. */
  lemma {:induction false} WalkLine(r: Rules, g: Block, n: nat, c: Chain, k: nat, h: nat)
    requires Permissive(r, g) && IsLine(r, g, n, Line(r, g, n)) && c.blocks == Line(r, g, n).dag.blocks && h <= k <= n
    ensures Walk(c, LinkAt(r, g, k).hash, h) == Some(LinkAt(r, g, h).hash)
    decreases k
  {
    hide Line, Permissive, LinkAt, Walk;
    LineHolds(r, g, n, Line(r, g, n), k);
    if k > h {
      LineHolds(r, g, n, Line(r, g, n), k - 1);
      WalkLine(r, g, n, c, k - 1, h);
    }
    WalkOnce(c, LinkAt(r, g, k).hash, h);
  }

  lemma LineHolds(r: Rules, g: Block, n: nat, m: Node, k: nat)
    requires Permissive(r, g) && IsLine(r, g, n, m) && k <= n
    ensures var b := LinkAt(r, g, k); b.hash in m.dag.blocks && m.dag.blocks[b.hash] == b && b.header.height == k
    ensures k > 0 ==> LinkAt(r, g, k).header.selectedParent == LinkAt(r, g, k - 1).hash
  {
    hide LinkAt, Collisionless, Canonical, IsGenesis;
    LinkFacts(r, g, k);
  }

  lemma WalkOnce(c: Chain, tip: Hash, h: nat)
    requires tip in c.blocks
    ensures var b := c.blocks[tip];
      && (b.header.height == h ==> Walk(c, tip, h) == Some(tip))
      && (b.header.height != h && b.header.selectedParent in c.blocks
          && c.blocks[b.header.selectedParent].header.height < b.header.height ==>
            Walk(c, tip, h) == Walk(c, b.header.selectedParent, h))
  {
  }

  /** The run: both nodes store new blocks, and in the end the pruning one has dropped genesis. */
  lemma DroppingRun(r: Rules, g: Block) returns (es: seq<Event>)
    requires Permissive(r, g)
    ensures var s := Pair(Seeded(g), Seeded(g));
      && Twin(r, s.u, s.p) && WellFed(r, s, es)
      && var t := FeedAll(r, s, es);
         Dropped(t.u, t.p, g.hash) && t.u.withdrawn == {} && |t.u.chain.blocks| > 1
  {
    hide Line, LinkAt, Canonical, IsGenesis, PruneStep, Feed, IsLine;
    var n := MIN_RETAIN_BLOCKS + 1;
    var ds, s := Deliveries(r, g, n), Pair(Seeded(g), Seeded(g));
    var adv, cut := Advance(Tip(LinkAt(r, g, n).hash, n)), PruneOne(n, MIN_RETAIN_BLOCKS);
    es := ds + [adv] + [cut];
    TwinsStart(r, g, {});
    LineIsFed(r, g, n);
    LineFacts(r, g, n);
    var m := Line(r, g, n);
    assert es[..n] == ds && es[..n + 1] == ds + [adv] && (ds + [adv])[..n] == ds;
    var t1 := Feed(r, Pair(m, m), adv);
    assert FeedAll(r, s, ds + [adv]) == t1;
    assert FeedAll(r, s, es) == Feed(r, t1, cut);
    LineIsNear(r, g, n, es);
    CutDropsGenesis(r, g, n, m);
  }

  lemma LineIsNear(r: Rules, g: Block, n: nat, es: seq<Event>)
    requires Permissive(r, g) && |es| == n + 2 && es[..n] == Deliveries(r, g, n)
    requires !es[n].Deliver? && !es[n + 1].Deliver?
    ensures WellFed(r, Pair(Seeded(g), Seeded(g)), es)
  {
    hide Line, LinkAt, Permissive, FeedAll, Deliveries, IsLine, Near, Seeded;
    LineIsFed(r, g, n);
    forall i | 0 <= i < |es| && es[i].Deliver?
      ensures Near(r, FeedAll(r, Pair(Seeded(g), Seeded(g)), es[..i]).p, es[i].b)
    {
      assert es[..i] == es[..n][..i];
      LineIsFed(r, g, i);
      LineFacts(r, g, i);
      UnprunedIsNear(r, g, i, Line(r, g, i), es[i].b);
    }
  }

  lemma UnprunedIsNear(r: Rules, g: Block, n: nat, m: Node, b: Block)
    requires IsLine(r, g, n, m)
    ensures Near(r, m, b)
  {
    hide LinkAt;
  }

  lemma CutDropsGenesis(r: Rules, g: Block, n: nat, m: Node)
    requires Permissive(r, g) && n == MIN_RETAIN_BLOCKS + 1 && m == Line(r, g, n) && IsLine(r, g, n, m)
    ensures var s := Feed(r, Pair(m, m), Advance(Tip(LinkAt(r, g, n).hash, n)));
      var t := Feed(r, s, PruneOne(n, MIN_RETAIN_BLOCKS));
      Dropped(t.u, t.p, g.hash) && t.u.withdrawn == {} && |t.u.chain.blocks| > 1
  {
    hide Line, Collisionless, Canonical, IsGenesis, LinkAt;
    var c := m.chain.(applied := Some(Tip(LinkAt(r, g, n).hash, n)));
    WalkLine(r, g, n, c, n, 1);
    LinkFacts(r, g, 0);
    LinkFacts(r, g, 1);
    LinksApart(r, g, 0, 1);
    assert LinkAt(r, g, 0) == g by { FirstLink(r, g); }
    var z := LinkAt(r, g, 1);
    assert m.dag.blocks[z.hash] == z && m.dag.blocks[g.hash] == g;
    CutAt(m.dag, c, n, z);
    TwoOrMore(m.chain.blocks, g.hash, z.hash);
  }

  lemma FirstLink(r: Rules, g: Block)
    ensures LinkAt(r, g, 0) == g
  {
  }

  lemma CutAt(d: Dag, c: Chain, n: nat, z: Block)
    requires n == MIN_RETAIN_BLOCKS + 1 && c.applied.Some? && c.applied.value.height == n
    requires Walk(c, c.applied.value.hash, 1) == Some(z.hash)
    requires z.hash in d.blocks && d.blocks[z.hash].header.height == 1
    ensures PruneStep(d, c, n, MIN_RETAIN_BLOCKS) == Dag(KeepFrom(d.blocks, 1), z.hash)
  {
    hide Walk, KeepFrom;
  }

  lemma TwoOrMore(m: DagMap, a: Hash, b: Hash)
    requires a in m && b in m && a != b
    ensures |m| > 1
  {
    SubsetSize({a, b}, m.Keys);
  }
}
