/** Every node a run leads to meets the hypotheses of the batch and sync theorems. */
module Reachable {
  import opened Blocks
  import opened Gate
  import opened Stores
  import opened Admission
  import opened LeastFixpoint
  import opened Crash
  import opened World
  import O = Order

  /** Every delivered copy's hash recomputes, as both network ingress paths check. */
  ghost predicate Honest(r: Rules, acts: seq<Action>) {
    forall i :: 0 <= i < |acts| && acts[i].Deliver? ==> HashRecomputes(r, acts[i].b)
  }

  /** `x` is remembered because its header names a withdrawn parent. */
  ghost predicate Because(r: Rules, withdrawn: set<Hash>, x: Hash) {
    exists hd: Header :: Commits(r, x, hd) && exists p :: p in hd.Parents() && p in withdrawn
  }

  /** Nothing ever stored is withdrawn, and everything remembered has a reason. */
  ghost predicate CleanInv(r: Rules, w: World) {
    && ZERO_HASH !in w.node.withdrawn
    && (forall h :: h in w.ever ==> h !in w.node.withdrawn)
    && (forall x :: x in w.node.withdrawn && x !in w.recorded ==> Because(r, w.node.withdrawn, x))
    && (forall i :: 0 <= i < |w.threads| && w.threads[i].Arrived? ==> HashRecomputes(r, w.threads[i].b))
  }

  /** A hash commits to one header. */
  lemma OneHeader(r: Rules, x: Hash, a: Header, b: Header)
    requires Collisionless(r) && Commits(r, x, a) && Commits(r, x, b)
    ensures a == b
  {
    var p: Preimage :| r.hashOf(p) == x && p.header == a;
    var q: Preimage :| r.hashOf(q) == x && q.header == b;
    assert r.hashOf(p) == r.hashOf(q);
  }

  lemma RecomputesCommits(r: Rules, b: Block)
    requires HashRecomputes(r, b)
    ensures Commits(r, b.hash, b.header)
  {
    assert r.hashOf(PreimageOf(r, b)) == b.hash && PreimageOf(r, b).header == b.header;
  }

  /** No header rooted in the history names a withdrawn parent. */
  lemma RootedIsUnhit(r: Rules, w: World, hd: Header, p: Hash)
    requires CleanInv(r, w) && Rooted(r, w.ever, hd) && p in hd.Parents()
    ensures p !in w.node.withdrawn
  {
  }

  /** So nothing stored is ever remembered. */
  lemma HitIsNew(r: Rules, w: World, b: Block)
    requires Collisionless(r) && Inv(r, w) && CleanInv(r, w) && HashRecomputes(r, b) && BuiltOn(w.node.withdrawn, b)
    ensures b.hash !in w.ever && b.hash != ZERO_HASH
  {
    hide Sound, CleanInv, ThreadOk, Banned, Noted, Rooted;
    RecomputesCommits(r, b);
    var p :| p in b.Parents() && p in w.node.withdrawn;
    if b.hash in w.ever {
      OneHeader(r, b.hash, b.header, w.ever[b.hash]);
      RootedIsUnhit(r, w, b.header, p);
    }
  }

  /** And nothing remembered is ever stored. */
  lemma CopyIsUnhit(r: Rules, w: World, c: Block)
    requires Collisionless(r) && Inv(r, w) && CleanInv(r, w) && CopyOk(r, w.recorded, w.ever, c)
    ensures c.hash !in w.node.withdrawn
  {
    hide Sound, ThreadOk, Noted, Rooted, VerifyBody, HistoryOk;
    RecomputesCommits(r, c);
    if c.hash in w.node.withdrawn {
      assert Because(r, w.node.withdrawn, c.hash);
      var hd: Header :| Commits(r, c.hash, hd) && exists p :: p in hd.Parents() && p in w.node.withdrawn;
      OneHeader(r, c.hash, c.header, hd);
      var p :| p in hd.Parents() && p in w.node.withdrawn;
      RootedIsUnhit(r, w, c.header, p);
    }
  }

  lemma BecauseMore(r: Rules, v: set<Hash>, v': set<Hash>, x: Hash)
    requires Because(r, v, x) && v <= v'
    ensures Because(r, v', x)
  {
    var hd: Header :| Commits(r, x, hd) && exists p :: p in hd.Parents() && p in v;
    var p :| p in hd.Parents() && p in v;
    assert p in v';
  }

  lemma RememberIsClean(r: Rules, w: World, b: Block)
    requires Collisionless(r) && Inv(r, w) && CleanInv(r, w) && HashRecomputes(r, b)
    ensures var v := Remember(w.node.withdrawn, b);
      && ZERO_HASH !in v && (forall h :: h in w.ever ==> h !in v)
      && (forall x :: x in v && x !in w.recorded ==> Because(r, v, x))
  {
    hide Inv, Because, Commits;
    var v := Remember(w.node.withdrawn, b);
    if v != w.node.withdrawn {
      HitIsNew(r, w, b);
      RecomputesCommits(r, b);
      NewReason(r, w.node.withdrawn, b);
    }
    forall x | x in v && x !in w.recorded ensures Because(r, v, x) {
      BecauseMore(r, w.node.withdrawn, v, x);
    }
  }

  lemma NewReason(r: Rules, v: set<Hash>, b: Block)
    requires Commits(r, b.hash, b.header) && BuiltOn(v, b)
    ensures Because(r, v, b.hash)
  {
    var p :| p in b.Parents() && p in v;
    assert p in b.header.Parents();
  }

  /** One step of a delivery: what it may store is not withdrawn, what it may remember is new. */
  lemma StepClean(r: Rules, w: World, i: nat)
    requires Collisionless(r) && Inv(r, w) && CleanInv(r, w) && i < |w.threads|
    ensures CleanInv(r, Next(r, w, Step(i)))
  {
    hide StepThread, Inv, Because, ThreadOk, Headers;
    var t := w.threads[i];
    var m := StepThread(r, w.node, t);
    assert ThreadOk(r, w.recorded, w.ever, t) by { OneThread(r, w, i); }
    StepThreadOk(r, w, t);
    StepWithdrawn(r, w.node, t);
    KeysKnown(r, w);
    if t.Arrived? { RememberIsClean(r, w, t.b); }
    if t.Storing? || t.InDag? { CopyOkOf(r, w, t); CopyIsUnhit(r, w, t.copy); }
    NoteKeys(w.(node := m.node, threads := w.threads[i := m.thread]));
  }

  lemma OneThread(r: Rules, w: World, i: nat)
    requires Inv(r, w) && i < |w.threads|
    ensures ThreadOk(r, w.recorded, w.ever, w.threads[i])
  {
  }

  lemma CopyOkOf(r: Rules, w: World, t: Thread)
    requires ThreadOk(r, w.recorded, w.ever, t) && (t.Storing? || t.InDag?)
    ensures CopyOk(r, w.recorded, w.ever, t.copy)
  {
  }

  lemma StepWithdrawn(r: Rules, n: Node, t: Thread)
    ensures var m := StepThread(r, n, t);
      && m.node.withdrawn ==
         (if t.Arrived? && WithdrawnHit(n.withdrawn, t.b) then Remember(n.withdrawn, t.b) else n.withdrawn)
      && !m.thread.Arrived?
  {
    hide Judge, VerifyBody, VrfAdmits, CheckpointRefuses, WithdrawnHit, Remember;
  }

  lemma KeysKnown(r: Rules, w: World)
    requires Inv(r, w)
    ensures w.node.dag.blocks.Keys <= w.ever.Keys && w.node.chain.blocks.Keys <= w.ever.Keys
    ensures forall h :: h in w.node.dag.blocks ==> w.node.dag.blocks[h].hash == h
    ensures forall h :: h in w.node.chain.blocks ==> w.node.chain.blocks[h].hash == h
  {
  }

  lemma NoteKeys(w: World)
    ensures Note(w).ever.Keys == w.ever.Keys + w.node.dag.blocks.Keys + w.node.chain.blocks.Keys
  {
  }

  lemma NextClean(r: Rules, w: World, a: Action)
    requires Collisionless(r) && Inv(r, w) && CleanInv(r, w) && (a.Deliver? ==> HashRecomputes(r, a.b))
    ensures CleanInv(r, Next(r, w, a))
  {
    hide StepThread, Inv, Because, Note, Act, StoreInto;
    if a.Step? && a.i < |w.threads| {
      StepClean(r, w, a.i);
    } else {
      StoresKnown(r, w, a);
      NoteKeys(Act(r, w, a));
      NoteKeeps(Act(r, w, a));
    }
  }

  /** No action but a step of a delivery stores or remembers anything new. */
  lemma StoresKnown(r: Rules, w: World, a: Action)
    requires Inv(r, w) && !(a.Step? && a.i < |w.threads|)
    ensures var w' := Act(r, w, a);
      && w'.node.dag.blocks.Keys <= w.ever.Keys && w'.node.chain.blocks.Keys <= w.ever.Keys && w'.ever == w.ever
      && w'.recorded == w.recorded && w.recorded <= w.node.withdrawn
      && w'.node.withdrawn == (if a.Restart? then w.recorded else w.node.withdrawn)
      && (forall i :: 0 <= i < |w'.threads| && w'.threads[i].Arrived? ==>
            (i < |w.threads| && w'.threads[i] == w.threads[i]) || (a.Deliver? && w'.threads[i] == Arrived(a.b)))
  {
    hide Inv, StepThread, VrfAdmits, PrunedBelow;
    KeysKnown(r, w);
    InvRecorded(r, w);
  }

  lemma NoteKeeps(w: World)
    ensures Note(w).node == w.node && Note(w).threads == w.threads && Note(w).recorded == w.recorded
  {
  }

  lemma {:induction false} ExecClean(r: Rules, w: World, acts: seq<Action>)
    requires Collisionless(r) && Inv(r, w) && CleanInv(r, w) && Honest(r, acts)
    ensures CleanInv(r, Exec(r, w, acts))
  {
    hide Inv, CleanInv, Next;
    if acts != [] {
      ExecClean(r, w, acts[..|acts| - 1]);
      ExecInv(r, w, acts[..|acts| - 1]);
      NextClean(r, Exec(r, w, acts[..|acts| - 1]), acts[|acts| - 1]);
    }
  }

  /** Without pruning, what was ever stored still is. */
  lemma {:induction false} ExecHeld(r: Rules, w: World, acts: seq<Action>)
    requires AllTruthful(w) && NoPruning(acts) && w.ever.Keys <= O.Held(w.node)
    ensures Exec(r, w, acts).ever.Keys <= O.Held(Exec(r, w, acts).node)
  {
    hide Act, Truthful;
    if acts != [] {
      var v, a := Exec(r, w, acts[..|acts| - 1]), acts[|acts| - 1];
      ExecHeld(r, w, acts[..|acts| - 1]);
      AdmittedMeansBothStores(r, w, acts[..|acts| - 1]);
      NextTruthful(r, v, a);
      SameEver(r, v, a);
      NoteKeys(Act(r, v, a));
    }
  }

  lemma SameEver(r: Rules, w: World, a: Action)
    ensures Act(r, w, a).ever == w.ever
  {
    hide StepThread;
  }

  /** Whatever was withdrawn, whatever honest copies were delivered and however they were interrupted, a
      node that prunes nothing can settle any batch; its stores are untainted and parent-closed, so the
      order of an honest batch does not matter to it. */
  lemma ReachableNodesAreClean(r: Rules, g: Block, recorded: set<Hash>, acts: seq<Action>, batch: seq<Block>)
    requires Collisionless(r) && Canonical(r, g) && IsGenesis(r, g) && !Banned(r, recorded, g.hash, 0)
    requires ZERO_HASH !in recorded && NoPruning(acts) && Honest(r, acts)
    requires forall b :: b in batch ==> HashRecomputes(r, b)
    ensures var n := Exec(r, Fresh(g, recorded), acts).node;
      Ready(r, n) && O.Untainted(n) && O.ParentsHeld(n) && O.Unhit(r, n, batch)
  {
    hide Exec, Canonical, Sound, O.Unhit;
    var w := Fresh(g, recorded);
    FreshInv(r, g, recorded);
    FreshClean(r, g, recorded);
    ReachableNodesAreReady(r, g, recorded, acts);
    ExecInv(r, w, acts);
    ExecClean(r, w, acts);
    ExecHeld(r, w, acts);
    CleanStores(r, Exec(r, w, acts));
    O.CleanIsUnhit(r, Exec(r, w, acts).node, batch);
  }

  /** Readiness needs no honesty: any run without pruning. */
  lemma ReachableNodesAreReady(r: Rules, g: Block, recorded: set<Hash>, acts: seq<Action>)
    requires Collisionless(r) && Canonical(r, g) && IsGenesis(r, g)
    requires !Banned(r, recorded, g.hash, 0) && NoPruning(acts)
    ensures var n := Exec(r, Fresh(g, recorded), acts).node; Ready(r, n) && PrunedBelow(n.dag) == 0
  {
    hide Exec, Canonical, Sound;
    var w := Fresh(g, recorded);
    FreshInv(r, g, recorded);
    ExecInv(r, w, acts);
    AdmittedMeansBothStores(r, w, acts);
  }

  lemma FreshClean(r: Rules, g: Block, recorded: set<Hash>)
    requires IsGenesis(r, g) && !Banned(r, recorded, g.hash, 0) && ZERO_HASH !in recorded
    ensures CleanInv(r, Fresh(g, recorded)) && Fresh(g, recorded).ever.Keys <= O.Held(Fresh(g, recorded).node)
  {
  }

  lemma CleanStore(r: Rules, w: World, m: DagMap)
    requires HistoryOk(r, w.recorded, w.ever) && CleanInv(r, w) && w.ever.Keys <= O.Held(w.node)
    requires Noted(w.ever, m) && forall h :: h in m ==> m[h].hash == h
    ensures O.CleanOf(w.node.withdrawn, m) && O.LinksInto(m, O.Held(w.node))
  {
    hide Because;
    forall h | h in m
      ensures !WithdrawnHit(w.node.withdrawn, m[h])
      ensures forall p :: p in m[h].Parents() ==> p == ZERO_HASH || p in O.Held(w.node)
    {
      assert Rooted(r, w.ever, w.ever[h]);
      forall p | p in m[h].Parents() ensures p !in w.node.withdrawn { RootedIsUnhit(r, w, m[h].header, p); }
    }
  }

  lemma CleanStores(r: Rules, w: World)
    requires Inv(r, w) && CleanInv(r, w) && w.ever.Keys <= O.Held(w.node)
    ensures O.Untainted(w.node) && O.ParentsHeld(w.node)
  {
    hide ThreadOk, Committed, Canonical, CleanInv;
    CleanStore(r, w, w.node.dag.blocks);
    CleanStore(r, w, w.node.chain.blocks);
  }
}
