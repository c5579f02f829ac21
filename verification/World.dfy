/** Every run of a node: interleaved deliveries, storage faults, crashes, boot repairs and pruning,
    in any order. Two invariants of all runs: what is stored is canonical, and a refused branch never
    comes back. Without pruning, also: an answer of "admitted" means both stores. */
module World {
  import opened Blocks
  import opened Gate
  import opened Stores
  import opened Admission
  import opened Law
  import opened Crash

  /** `recorded` is the withdrawn set in the database, which outlives the process; `ever` lists the
      header of every block either store ever held. */
  datatype World = World(node: Node, recorded: set<Hash>, threads: seq<Thread>, ever: map<Hash, Header>)

  datatype Action =
    | Deliver(b: Block)            // any peer, any copy
    | Step(i: nat)                 // one step of one delivery
    | Fault(i: nat)                // a storage error ends a delivery where it stands
    | Restart                      // a crash: deliveries and remembered descendants are gone
    | CopyToChain(h: Hash)         // one chain write of `reconcile`
    | CopyToDag(h: Hash)           // one DAG write of `reconcile` or `seed_genesis`
    | MovePruningPoint(h: Hash)    // first half of a pruning pass
    | DropPruned(drop: set<Hash>)  // second half, block by block: any of the blocks below the floor

  predicate Prunes(a: Action) { a.MovePruningPoint? || a.DropPruned? }

  function Headers(m: DagMap): (e: map<Hash, Header>)
    ensures e.Keys == m.Keys && forall h :: h in m ==> e[h] == m[h].header
  {
    map h | h in m :: m[h].header
  }

  function Note(w: World): (w': World) {
    w.(ever := w.ever + Headers(w.node.dag.blocks) + Headers(w.node.chain.blocks))
  }

  /** The node's stores and memory after an action; an action that does not apply does nothing. */
  function Act(r: Rules, w: World, a: Action): (w': World) {
    match a
    case Deliver(b) => w.(threads := w.threads + [Arrived(b)])
    case Step(i) =>
      if i < |w.threads| then
        var m := StepThread(r, w.node, w.threads[i]);
        w.(node := m.node, threads := w.threads[i := m.thread])
      else w
    case Fault(i) =>
      if i < |w.threads| && !w.threads[i].Answered? then
        w.(threads := w.threads[i := Answered(w.threads[i].Target(), Rejected)])
      else w
    case Restart => w.(threads := [], node := w.node.(withdrawn := w.recorded))
    case CopyToChain(h) =>
      if h in w.node.dag.blocks then w.(node := w.node.(chain := Put(w.node.chain, w.node.dag.blocks[h]))) else w
    case CopyToDag(h) =>
      if h in w.node.chain.blocks && StoreInto(r, w.node.dag, w.node.chain.blocks[h]).Stored?
      then w.(node := w.node.(dag := AddToDag(w.node.dag, w.node.chain.blocks[h]))) else w
    case MovePruningPoint(h) =>
      if h in w.node.dag.blocks then w.(node := w.node.(dag := w.node.dag.(pruningPoint := h))) else w
    case DropPruned(drop) => w.(node := w.node.(dag := w.node.dag.(blocks := DropSome(w.node.dag, drop))))
  }

  /** Deletions of blocks below the pruning point; with all of them dropped, the whole of `prune`. */
  function DropSome(d: Dag, drop: set<Hash>): (m: DagMap)
    ensures d.blocks.Keys <= drop ==> m == KeepFrom(d.blocks, PrunedBelow(d))
  {
    map h | h in d.blocks && (h !in drop || PrunedBelow(d) <= d.blocks[h].header.height) :: d.blocks[h]
  }

  function Next(r: Rules, w: World, a: Action): (w': World) { Note(Act(r, w, a)) }

  function Exec(r: Rules, w: World, acts: seq<Action>): (w': World) {
    if acts == [] then w else Next(r, Exec(r, w, acts[..|acts| - 1]), acts[|acts| - 1])
  }

  /** A block the operator withdrew, or another block where the release names the canonical one. */
  ghost predicate Banned(r: Rules, recorded: set<Hash>, h: Hash, height: nat) {
    h in recorded || Contradicts(r.checkpoints, height, h)
  }

  /** Every parent was stored and has a lower blue score; the selected one is exactly one height down, no
      later and, at hardened heights, at most an hour earlier. */
  ghost predicate Rooted(r: Rules, ever: map<Hash, Header>, hd: Header) {
    && (forall p :: p in hd.Parents() ==> p == ZERO_HASH || (p in ever && ever[p].blueScore < hd.blueScore))
    && (hd.selectedParent in ever ==>
          && var sp := ever[hd.selectedParent];
          && sp.height + 1 == hd.height && sp.timestamp <= hd.timestamp
          && (r.hardeningHeight.Some? && r.hardeningHeight.value <= hd.height ==> hd.timestamp <= sp.timestamp + 3600))
  }

  /** Nothing banned was ever stored, and nothing before its parents. */
  ghost predicate HistoryOk(r: Rules, recorded: set<Hash>, ever: map<Hash, Header>) {
    && ZERO_HASH !in ever
    && (forall h :: h in ever ==> !Banned(r, recorded, h, ever[h].height))
    && (forall h :: h in ever ==> Rooted(r, ever, ever[h]))
  }

  ghost predicate Grown(ever: map<Hash, Header>, ever': map<Hash, Header>) {
    forall h :: h in ever ==> h in ever' && ever'[h] == ever[h]
  }

  ghost predicate Noted(ever: map<Hash, Header>, m: DagMap) {
    forall h :: h in m ==> h in ever && ever[h] == m[h].header
  }

  /** A delivery past the refusal checks carries nothing banned; past all checks, a canonical copy
      whose parents were all stored. */
  ghost predicate ThreadOk(r: Rules, recorded: set<Hash>, ever: map<Hash, Header>, t: Thread) {
    match t
    case Arrived(_) => true
    case Unrefused(b) => !Banned(r, recorded, b.hash, b.header.height)
    case SawChain(b, _) => !Banned(r, recorded, b.hash, b.header.height)
    case SawBoth(b, _, _) => !Banned(r, recorded, b.hash, b.header.height)
    case NotPruned(b, _, _) => !Banned(r, recorded, b.hash, b.header.height)
    case Checked(c, _, _) => CopyOk(r, recorded, ever, c)
    case Storing(c, _) => CopyOk(r, recorded, ever, c)
    case InDag(c, _, _) => CopyOk(r, recorded, ever, c)
    case Answered(_, _) => true
  }

  ghost predicate CopyOk(r: Rules, recorded: set<Hash>, ever: map<Hash, Header>, c: Block) {
    Canonical(r, c) && !Banned(r, recorded, c.hash, c.header.height) && Rooted(r, ever, c.header)
  }

  /** The invariant of every run. `ever` is keyed by hashes that recompute to their header. */
  ghost predicate Inv(r: Rules, w: World) {
    && Sound(r, w.node)
    && w.recorded <= w.node.withdrawn
    && HistoryOk(r, w.recorded, w.ever)
    && Committed(r, w.ever)
    && Noted(w.ever, w.node.dag.blocks) && Noted(w.ever, w.node.chain.blocks)
    && forall i :: 0 <= i < |w.threads| ==> ThreadOk(r, w.recorded, w.ever, w.threads[i])
  }

  ghost predicate Commits(r: Rules, h: Hash, header: Header) {
    exists p: Preimage :: r.hashOf(p) == h && p.header == header
  }

  ghost predicate Committed(r: Rules, ever: map<Hash, Header>) {
    forall h :: h in ever ==> Commits(r, h, ever[h])
  }

  /** A fresh node: genesis in the chain store only, nothing in flight. */
  function Fresh(g: Block, recorded: set<Hash>): (w: World) {
    Note(World(Node(Dag(map[], ZERO_HASH), Put(Chain(map[], map[], 0, None), g), recorded), recorded, [], map[]))
  }

  lemma FreshInv(r: Rules, g: Block, recorded: set<Hash>)
    requires Collisionless(r) && Canonical(r, g) && IsGenesis(r, g) && !Banned(r, recorded, g.hash, 0)
    ensures Inv(r, Fresh(g, recorded))
  {
    var w := Fresh(g, recorded);
    assert w.ever.Keys == {g.hash};
    assert r.hashOf(PreimageOf(r, g)) == g.hash && PreimageOf(r, g).header == g.header;
  }

  lemma ThreadOkGrows(r: Rules, recorded: set<Hash>, ever: map<Hash, Header>, ever': map<Hash, Header>, t: Thread)
    requires ThreadOk(r, recorded, ever, t) && Grown(ever, ever') && ZERO_HASH !in ever'
    ensures ThreadOk(r, recorded, ever', t)
  {
    hide Rooted, Canonical, Banned;
    if t.Checked? || t.Storing? || t.InDag? { RootedGrows(r, ever, ever', t.copy.header); }
  }

  lemma RootedGrows(r: Rules, ever: map<Hash, Header>, ever': map<Hash, Header>, hd: Header)
    requires Rooted(r, ever, hd) && Grown(ever, ever') && ZERO_HASH !in ever'
    ensures Rooted(r, ever', hd)
  {
    assert hd.selectedParent == hd.Parents()[0];
  }

  /** What the gate accepts is rooted in the history. */
  lemma AcceptedIsRooted(r: Rules, d: DagMap, ever: map<Hash, Header>, b: Block)
    requires Judge(r, d, b).Pass? && Noted(ever, d) && ZERO_HASH !in ever
    ensures Rooted(r, ever, b.header)
  {
    hide Judge;
    PassMeans(r, d, b);
    if !IsGenesis(r, b) { PassParents(r, d, b); }
  }

  /** One step of a delivery: what it may store was cleared, and is noted with its parents. */
  lemma StepThreadOk(r: Rules, w: World, t: Thread)
    requires Inv(r, w) && ThreadOk(r, w.recorded, w.ever, t)
    ensures var m := StepThread(r, w.node, t);
      && ThreadOk(r, w.recorded, w.ever, m.thread)
      && w.recorded <= m.node.withdrawn
      && (m.node == w.node.(withdrawn := m.node.withdrawn)
          || (t.Storing? && m.node == w.node.(dag := w.node.dag.(blocks := w.node.dag.blocks[t.copy.hash := t.copy])))
          || (t.InDag? && m.node == w.node.(chain := Put(w.node.chain, t.copy))))
  {
    hide Judge, VerifyBody, VrfAdmits, Sound, CheckpointRefuses, Committed, HistoryOk, Contradicts;
    if t.Arrived? { CheckpointMeans(r, t.b.header.height, t.b.hash); }
    if t.NotPruned? && Judge(r, w.node.dag.blocks, t.b).Pass? && VerifyBody(r, t.b) && SidecarIngest(r, t.b).Store? {
      var c := SidecarIngest(r, t.b).copy;
      ClearedIsCanonical(r, w.node.dag.blocks, t.b);
      AcceptedIsRooted(r, w.node.dag.blocks, w.ever, t.b) by { NoZero(r, w.recorded, w.ever); }
    }
  }

  /** Every entry is a canonical copy under its own hash that may be stored. */
  ghost predicate AllCopiesOk(r: Rules, recorded: set<Hash>, ever: map<Hash, Header>, m: DagMap) {
    forall h :: h in m ==> m[h].hash == h && CopyOk(r, recorded, ever, m[h])
  }

  lemma StoredCopiesOk(r: Rules, w: World)
    requires Inv(r, w)
    ensures AllCopiesOk(r, w.recorded, w.ever, w.node.dag.blocks)
    ensures AllCopiesOk(r, w.recorded, w.ever, w.node.chain.blocks)
  {
    hide Canonical, Banned;
    forall h | h in w.node.dag.blocks ensures CopyOk(r, w.recorded, w.ever, w.node.dag.blocks[h]) {
      assert !Banned(r, w.recorded, h, w.ever[h].height);
    }
    forall h | h in w.node.chain.blocks ensures CopyOk(r, w.recorded, w.ever, w.node.chain.blocks[h]) {
      assert !Banned(r, w.recorded, h, w.ever[h].height);
    }
  }

  /** Noting down stores full of such copies keeps the history right. */
  lemma NoteKeepsHistory(r: Rules, recorded: set<Hash>, ever: map<Hash, Header>, m: DagMap)
    requires Collisionless(r) && HistoryOk(r, recorded, ever) && Committed(r, ever)
    requires AllCopiesOk(r, recorded, ever, m)
    ensures var e := ever + Headers(m);
      HistoryOk(r, recorded, e) && Committed(r, e) && Noted(e, m) && Grown(ever, e)
  {
    hide Banned, VerifyBody, Rooted;
    var e := ever + Headers(m);
    forall h | h in m ensures e[h] == m[h].header && Commits(r, h, e[h]) && (h in ever ==> e[h] == ever[h]) {
      var p := PreimageOf(r, m[h]);
      assert r.hashOf(p) == h && p.header == m[h].header;
      if h in ever {
        var q: Preimage :| r.hashOf(q) == h && q.header == ever[h];
        assert r.hashOf(p) == r.hashOf(q);
      }
    }
    assert ZERO_HASH !in e;
    forall h | h in e ensures !Banned(r, recorded, h, e[h].height) && Rooted(r, e, e[h]) {
      if h in m { assert CopyOk(r, recorded, ever, m[h]); }
      RootedGrows(r, ever, e, e[h]);
    }
  }

  lemma NoteInv(r: Rules, w: World)
    requires Collisionless(r) && Sound(r, w.node) && w.recorded <= w.node.withdrawn
    requires HistoryOk(r, w.recorded, w.ever) && Committed(r, w.ever)
    requires AllCopiesOk(r, w.recorded, w.ever, w.node.dag.blocks)
    requires AllCopiesOk(r, w.recorded, w.ever, w.node.chain.blocks)
    requires forall i :: 0 <= i < |w.threads| ==> ThreadOk(r, w.recorded, w.ever, w.threads[i])
    ensures Inv(r, Note(w))
    ensures Grown(w.ever, Note(w).ever)
  {
    hide HistoryOk, Committed, CopyOk, Sound, Headers;
    NoteKeepsHistory(r, w.recorded, w.ever, w.node.dag.blocks);
    var e := w.ever + Headers(w.node.dag.blocks);
    assert AllCopiesOk(r, w.recorded, e, w.node.chain.blocks) by {
      forall h | h in w.node.chain.blocks ensures CopyOk(r, w.recorded, e, w.node.chain.blocks[h]) {
        NoZero(r, w.recorded, e);
        CopyOkGrows(r, w.recorded, w.ever, e, w.node.chain.blocks[h]);
      }
    }
    NoteKeepsHistory(r, w.recorded, e, w.node.chain.blocks);
    NoZero(r, w.recorded, Note(w).ever);
    forall i | 0 <= i < |w.threads| ensures ThreadOk(r, w.recorded, Note(w).ever, w.threads[i]) {
      ThreadOkGrows(r, w.recorded, w.ever, Note(w).ever, w.threads[i]);
    }
  }

  lemma CopyOkGrows(r: Rules, recorded: set<Hash>, ever: map<Hash, Header>, ever': map<Hash, Header>, c: Block)
    requires CopyOk(r, recorded, ever, c) && Grown(ever, ever') && ZERO_HASH !in ever'
    ensures CopyOk(r, recorded, ever', c)
  {
    RootedGrows(r, ever, ever', c.header);
  }

  lemma NoZero(r: Rules, recorded: set<Hash>, ever: map<Hash, Header>)
    requires HistoryOk(r, recorded, ever)
    ensures ZERO_HASH !in ever
  {
  }

  lemma PutSound(r: Rules, n: Node, c: Block)
    requires Sound(r, n) && Canonical(r, c)
    requires c.hash in n.chain.blocks ==> n.chain.blocks[c.hash].header.height == c.header.height
    ensures Sound(r, n.(dag := n.dag.(blocks := n.dag.blocks[c.hash := c])))
    ensures Sound(r, n.(chain := Put(n.chain, c)))
  {
    hide Canonical;
    PutKeepsChainOk(n.chain, c);
  }

  lemma AddCopyOk(r: Rules, recorded: set<Hash>, ever: map<Hash, Header>, m: DagMap, c: Block)
    requires AllCopiesOk(r, recorded, ever, m) && CopyOk(r, recorded, ever, c)
    ensures AllCopiesOk(r, recorded, ever, m[c.hash := c])
  {
    hide CopyOk;
  }

  /** Stores that hold only sound, storable copies. */
  ghost predicate StoresOk(r: Rules, w: World, n: Node) {
    && Sound(r, n)
    && AllCopiesOk(r, w.recorded, w.ever, n.dag.blocks) && AllCopiesOk(r, w.recorded, w.ever, n.chain.blocks)
  }

  /** Writing one such copy to either store keeps the stores so. */
  lemma PutCopyOk(r: Rules, w: World, c: Block)
    requires Collisionless(r) && Inv(r, w) && CopyOk(r, w.recorded, w.ever, c)
    ensures StoresOk(r, w, w.node)
    ensures StoresOk(r, w, w.node.(dag := w.node.dag.(blocks := w.node.dag.blocks[c.hash := c])))
    ensures StoresOk(r, w, w.node.(chain := Put(w.node.chain, c)))
  {
    assert c.hash in w.node.chain.blocks ==> w.node.chain.blocks[c.hash].header == c.header by {
      if c.hash in w.node.chain.blocks { SameHashSameHeader(r, c, w.node.chain.blocks[c.hash]); }
    }
    StoredCopiesOk(r, w);
    assert Canonical(r, c);
    hide Canonical, Sound, AllCopiesOk, CopyOk;
    PutSound(r, w.node, c);
    AddCopyOk(r, w.recorded, w.ever, w.node.dag.blocks, c);
    AddCopyOk(r, w.recorded, w.ever, w.node.chain.blocks, c);
  }

  lemma StepThreadStores(r: Rules, w: World, t: Thread)
    requires Collisionless(r) && Inv(r, w) && ThreadOk(r, w.recorded, w.ever, t)
    ensures StoresOk(r, w, StepThread(r, w.node, t).node)
  {
    hide CopyOk, StepThread, AllCopiesOk;
    StoredCopiesOk(r, w);
    StepThreadOk(r, w, t);
    if t.Storing? || t.InDag? { PutCopyOk(r, w, t.copy); }
    WithdrawnFree(r, w, StepThread(r, w.node, t).node.withdrawn);
  }

  lemma WithdrawnFree(r: Rules, w: World, s: set<Hash>)
    requires StoresOk(r, w, w.node)
    ensures StoresOk(r, w, w.node.(withdrawn := s))
  {
  }

  lemma DropOk(r: Rules, w: World, point: Hash, kept: DagMap)
    requires StoresOk(r, w, w.node)
    requires forall h :: h in kept ==> h in w.node.dag.blocks && kept[h] == w.node.dag.blocks[h]
    ensures StoresOk(r, w, w.node.(dag := Dag(kept, point)))
  {
    hide CopyOk, Canonical;
  }

  lemma CopiedOk(r: Rules, w: World, h: Hash)
    requires Collisionless(r) && Inv(r, w)
    ensures StoresOk(r, w, w.node)
    ensures h in w.node.dag.blocks ==> StoresOk(r, w, w.node.(chain := Put(w.node.chain, w.node.dag.blocks[h])))
    ensures h in w.node.chain.blocks ==>
      StoresOk(r, w, w.node.(dag := AddToDag(w.node.dag, w.node.chain.blocks[h])))
  {
    StoredCopiesOk(r, w);
    if h in w.node.dag.blocks { PutCopyOk(r, w, w.node.dag.blocks[h]); }
    if h in w.node.chain.blocks { PutCopyOk(r, w, w.node.chain.blocks[h]); }
  }

  lemma ActInv(r: Rules, w: World, a: Action)
    requires Collisionless(r) && Inv(r, w)
    ensures var w' := Act(r, w, a);
      && w'.ever == w.ever && w'.recorded == w.recorded
      && w'.recorded <= w'.node.withdrawn && StoresOk(r, w, w'.node)
      && forall i :: 0 <= i < |w'.threads| ==> ThreadOk(r, w'.recorded, w'.ever, w'.threads[i])
  {
    hide StepThread, StoresOk, Sound, Committed, HistoryOk, CopyOk, StoreInto, PrunedBelow, Noted;
    CopiedOk(r, w, ZERO_HASH);
    WithdrawnFree(r, w, w.recorded);
    match a {
      case Step(i) =>
        if i < |w.threads| {
          StepThreadOk(r, w, w.threads[i]);
          StepThreadStores(r, w, w.threads[i]);
        }
      case CopyToChain(h) => CopiedOk(r, w, h);
      case CopyToDag(h) => CopiedOk(r, w, h);
      case MovePruningPoint(h) => DropOk(r, w, h, w.node.dag.blocks);
      case DropPruned(drop) => DropOk(r, w, w.node.dag.pruningPoint, DropSome(w.node.dag, drop));
      case _ =>
    }
  }

  lemma InvRecorded(r: Rules, w: World)
    requires Inv(r, w)
    ensures w.recorded <= w.node.withdrawn
  {
  }

  lemma NextInv(r: Rules, w: World, a: Action)
    requires Collisionless(r) && Inv(r, w)
    ensures Inv(r, Next(r, w, a)) && Grown(w.ever, Next(r, w, a).ever)
  {
    hide Act, Inv;
    ActInv(r, w, a);
    assert HistoryOk(r, w.recorded, w.ever) && Committed(r, w.ever) by { InvHistory(r, w); }
    NoteInv(r, Act(r, w, a));
  }

  lemma InvHistory(r: Rules, w: World)
    requires Inv(r, w)
    ensures HistoryOk(r, w.recorded, w.ever) && Committed(r, w.ever)
  {
  }

  lemma {:induction false} ExecInv(r: Rules, w: World, acts: seq<Action>)
    requires Collisionless(r) && Inv(r, w)
    ensures Inv(r, Exec(r, w, acts)) && Exec(r, w, acts).recorded == w.recorded
  {
    hide Inv, StepThread;
    if acts != [] {
      ExecInv(r, w, acts[..|acts| - 1]);
      NextInv(r, Exec(r, w, acts[..|acts| - 1]), acts[|acts| - 1]);
    }
  }

  ghost predicate Stored(n: Node, h: Hash, b: Block) {
    || (h in n.dag.blocks && n.dag.blocks[h] == b)
    || (h in n.chain.blocks && n.chain.blocks[h] == b)
  }

  datatype Link = Link(hash: Hash, header: Header)

  /** A line of descent read off the hashes alone: each hash commits to its header, and each next
      hash is a parent named in the header before it. */
  ghost predicate Descent(r: Rules, path: seq<Link>) {
    && (forall i :: 0 <= i < |path| ==> Commits(r, path[i].hash, path[i].header))
    && (forall i :: 0 < i < |path| ==> path[i].hash in path[i - 1].header.Parents())
  }

  lemma {:induction false} DescentIsKnown(r: Rules, w: World, path: seq<Link>, k: nat)
    requires Collisionless(r) && Inv(r, w) && Descent(r, path) && k < |path| && path[0].hash in w.ever
    ensures path[k].hash in w.ever && w.ever[path[k].hash] == path[k].header
  {
    hide Sound, ThreadOk, Banned, Noted;
    if k > 0 {
      DescentIsKnown(r, w, path, k - 1);
      assert Rooted(r, w.ever, w.ever[path[k - 1].hash]);
      assert path[k].hash != ZERO_HASH by { assert Commits(r, path[k].hash, path[k].header); }
    }
    assert Commits(r, path[k].hash, path[k].header);
    var p: Preimage :| r.hashOf(p) == path[k].hash && p.header == path[k].header;
    var q: Preimage :| r.hashOf(q) == path[k].hash && q.header == w.ever[path[k].hash];
    assert r.hashOf(p) == r.hashOf(q);
  }

  /** A refused branch never returns: whatever is delivered, wherever crashes, faults, restarts,
      repairs and prunings fall, no stored block is, or descends at any depth from, a block the
      operator withdrew or a wrong block at a checkpoint height. */
  lemma RefusedBranchesNeverReturn(r: Rules, w: World, acts: seq<Action>, path: seq<Link>)
    requires Collisionless(r) && Inv(r, w)
    requires Descent(r, path) && |path| > 0
    requires var n := Exec(r, w, acts).node; path[0].hash in n.dag.blocks || path[0].hash in n.chain.blocks
    ensures forall i :: 0 <= i < |path| ==> !Banned(r, w.recorded, path[i].hash, path[i].header.height)
  {
    hide StepThread, Banned, Sound, ThreadOk, Exec;
    ExecInv(r, w, acts);
    var w' := Exec(r, w, acts);
    forall i | 0 <= i < |path| ensures !Banned(r, w.recorded, path[i].hash, path[i].header.height) {
      DescentIsKnown(r, w', path, i);
    }
  }

  /** Along the selected parents of a stored block, in every run and to any depth: heights count down by
      one, blue scores fall, times never rise, and through hardened heights they fall by at most an hour a
      block. */
  lemma {:induction false} LineageIsOrderly(r: Rules, w: World, acts: seq<Action>, path: seq<Link>, k: nat)
    requires Collisionless(r) && Inv(r, w) && Descent(r, path) && k < |path|
    requires forall i :: 0 < i < |path| ==> path[i].hash == path[i - 1].header.selectedParent
    requires var n := Exec(r, w, acts).node; path[0].hash in n.dag.blocks || path[0].hash in n.chain.blocks
    ensures var top, low := path[0].header, path[k].header;
      && low.height + k == top.height && low.blueScore + k <= top.blueScore && low.timestamp <= top.timestamp
      && (r.hardeningHeight.Some? && r.hardeningHeight.value <= low.height + 1 ==>
            top.timestamp <= low.timestamp + 3600 * k)
  {
    hide Inv, Exec, Descent, Rooted, Noted;
    ExecInv(r, w, acts);
    var w' := Exec(r, w, acts);
    StoredIsNoted(r, w', path[0].hash);
    if k > 0 {
      LineageIsOrderly(r, w, acts, path, k - 1);
      DescentIsKnown(r, w', path, k);
      DescentIsKnown(r, w', path, k - 1);
      OneLinkDown(r, w', path[k - 1].hash);
    }
  }

  lemma StoredIsNoted(r: Rules, w: World, h: Hash)
    requires Inv(r, w)
    ensures h in w.node.dag.blocks || h in w.node.chain.blocks ==> h in w.ever
  {
  }

  lemma OneLinkDown(r: Rules, w: World, h: Hash)
    requires Inv(r, w) && h in w.ever && w.ever[h].selectedParent in w.ever
    ensures var hd, sp := w.ever[h], w.ever[w.ever[h].selectedParent];
      && sp.height + 1 == hd.height && sp.blueScore < hd.blueScore && sp.timestamp <= hd.timestamp
      && (r.hardeningHeight.Some? && r.hardeningHeight.value <= hd.height ==> hd.timestamp <= sp.timestamp + 3600)
  {
    hide Sound, Banned, ThreadOk, Noted, Committed;
    assert Rooted(r, w.ever, w.ever[h]);
    assert w.ever[h].selectedParent == w.ever[h].Parents()[0];
  }

  /** Every stored block of every run is genuine, in the form in which it is written. */
  lemma StoredBlocksAreGenuine(r: Rules, w: World, acts: seq<Action>, h: Hash, b: Block)
    requires Collisionless(r) && Inv(r, w) && Stored(Exec(r, w, acts).node, h, b)
    ensures b.hash == h && Genuine(r, b) && (b.header.height > 0 ==> Written(r, b) == b)
    ensures b.header.height == 0 ==> Root(r, b)
  {
    hide StepThread, Banned, ThreadOk, Exec, HistoryOk, Committed, ChainOk;
    ExecInv(r, w, acts);
    KeyedByHash(r, Exec(r, w, acts).node, h, b);
    GenuineMeans(r, b);
    RootMeans(r, b);
  }

  lemma KeyedByHash(r: Rules, n: Node, h: Hash, b: Block)
    requires Sound(r, n) && Stored(n, h, b)
    ensures b.hash == h && Canonical(r, b)
  {
  }

  /** Stored content does not depend on which copy came first, on which store holds it, on where the
      crashes fell, or on the node: any two stored copies of one hash agree on what it commits to. */
  lemma StoredContentAgrees(r: Rules, w1: World, acts1: seq<Action>, w2: World, acts2: seq<Action>,
                            h: Hash, b: Block, c: Block)
    requires Collisionless(r) && Inv(r, w1) && Inv(r, w2)
    requires Stored(Exec(r, w1, acts1).node, h, b) && Stored(Exec(r, w2, acts2).node, h, c)
    ensures SameCommitted(r, b, c) && Canonical(r, b)
  {
    hide StepThread, Banned, ThreadOk, Exec, HistoryOk, Committed;
    ExecInv(r, w1, acts1);
    ExecInv(r, w2, acts2);
    StoredContentIsTheCommittedContent(r, b, c);
  }

  // ----- Without pruning: what an answer means -----

  ghost predicate NoPruning(acts: seq<Action>) {
    forall i :: 0 <= i < |acts| ==> !Prunes(acts[i])
  }

  /** What a delivery has seen is still so, and an answer that claims both stores is true. */
  ghost predicate Truthful(n: Node, t: Thread) {
    match t
    case SawChain(b, inChain) => inChain ==> b.hash in n.chain.blocks
    case SawBoth(b, inChain, inDag) => (inChain ==> b.hash in n.chain.blocks) && (inDag ==> b.hash in n.dag.blocks)
    case NotPruned(b, inChain, inDag) => (inChain ==> b.hash in n.chain.blocks) && (inDag ==> b.hash in n.dag.blocks)
    case Checked(c, inChain, inDag) => (inChain ==> c.hash in n.chain.blocks) && (inDag ==> c.hash in n.dag.blocks)
    case Storing(c, inChain) => inChain ==> c.hash in n.chain.blocks
    case InDag(c, inChain, _) => (inChain ==> c.hash in n.chain.blocks) && c.hash in n.dag.blocks
    case Answered(h, o) => o.Admitted? || o.AlreadyAdmitted? ==> InBoth(n, h)
    case _ => true
  }

  ghost predicate AllTruthful(w: World) {
    && w.node.dag.pruningPoint == ZERO_HASH
    && forall i :: 0 <= i < |w.threads| ==> Truthful(w.node, w.threads[i])
  }

  ghost predicate OnlyAdded(n: Node, n': Node) {
    n.dag.blocks.Keys <= n'.dag.blocks.Keys && n.chain.blocks.Keys <= n'.chain.blocks.Keys
  }

  lemma TruthfulStays(n: Node, n': Node, t: Thread)
    requires Truthful(n, t) && OnlyAdded(n, n')
    ensures Truthful(n', t)
  {
  }

  lemma StepTruthful(r: Rules, n: Node, t: Thread)
    requires n.dag.pruningPoint == ZERO_HASH && Truthful(n, t)
    ensures var m := StepThread(r, n, t);
      OnlyAdded(n, m.node) && Truthful(m.node, m.thread) && m.node.dag.pruningPoint == ZERO_HASH
  {
    hide Judge, VerifyBody, VrfAdmits, WithdrawnHit, CheckpointRefuses, Remember;
  }

  lemma NextTruthful(r: Rules, w: World, a: Action)
    requires AllTruthful(w) && !Prunes(a)
    ensures AllTruthful(Next(r, w, a)) && OnlyAdded(w.node, Next(r, w, a).node)
  {
    hide StepThread, Truthful, VrfAdmits;
    var w' := Next(r, w, a);
    if a.Step? && a.i < |w.threads| { StepTruthful(r, w.node, w.threads[a.i]); }
    assert OnlyAdded(w.node, w'.node);
    forall i | 0 <= i < |w'.threads| ensures Truthful(w'.node, w'.threads[i]) {
      if i < |w.threads| {
        TruthfulStays(w.node, w'.node, w.threads[i]);
        FreshTruth(w'.node, w.threads[i]);
      } else {
        FreshTruth(w'.node, w'.threads[i]);
      }
    }
  }

  lemma FreshTruth(n: Node, t: Thread)
    ensures t.Arrived? ==> Truthful(n, t)
    ensures Truthful(n, Answered(t.Target(), Rejected))
  {
  }

  /** Crash-safe admission: over every interleaving of deliveries, faults, crashes, restarts and
      repairs, neither store loses a block, and an answer of admitted (or already admitted) means the
      block is in both stores. */
  lemma {:induction false} AdmittedMeansBothStores(r: Rules, w: World, acts: seq<Action>)
    requires AllTruthful(w) && NoPruning(acts)
    ensures AllTruthful(Exec(r, w, acts)) && OnlyAdded(w.node, Exec(r, w, acts).node)
  {
    hide Truthful, Next;
    if acts != [] {
      AdmittedMeansBothStores(r, w, acts[..|acts| - 1]);
      NextTruthful(r, Exec(r, w, acts[..|acts| - 1]), acts[|acts| - 1]);
    }
  }

  /** What interrupts a delivery loses no stored block and leaves no half-made answer: a fault ends one
      delivery as rejected, a restart ends all of them and forgets what was not recorded. */
  lemma InterruptionsWriteNothing(r: Rules, w: World, i: nat)
    ensures var w' := Act(r, w, Restart);
      w'.node == w.node.(withdrawn := w.recorded) && w'.threads == [] && w'.recorded == w.recorded
    ensures i < |w.threads| && !w.threads[i].Answered? ==>
      var w' := Act(r, w, Fault(i));
      && w'.node == w.node && |w'.threads| == |w.threads|
      && w'.threads[i] == Answered(w.threads[i].Target(), Rejected)
      && forall j :: 0 <= j < |w.threads| && j != i ==> w'.threads[j] == w.threads[j]
  {
  }

  /** One write of a boot repair completes the block: into the chain store, where the index then names it,
      or into the DAG store if that admits it. */
  lemma CopiesComplete(r: Rules, w: World, h: Hash)
    requires Sound(r, w.node)
    ensures h in w.node.dag.blocks ==>
      var w' := Act(r, w, CopyToChain(h));
      && InBoth(w'.node, h) && w'.node.dag == w.node.dag
      && w'.node.chain.byHeight[w.node.dag.blocks[h].header.height] == h
    ensures h in w.node.chain.blocks && h !in w.node.dag.blocks ==>
      var w' := Act(r, w, CopyToDag(h));
      w'.node.chain == w.node.chain && (InBoth(w'.node, h) <==> VrfAdmits(r, w.node.dag.blocks, w.node.chain.blocks[h]))
  {
    hide VrfAdmits, Canonical;
  }

  /** With pruning too, the chain store only grows. */
  lemma {:induction false} ChainOnlyGrows(r: Rules, w: World, acts: seq<Action>)
    ensures w.node.chain.blocks.Keys <= Exec(r, w, acts).node.chain.blocks.Keys
  {
    hide Next;
    if acts != [] {
      ChainOnlyGrows(r, w, acts[..|acts| - 1]);
      NextKeepsChain(r, Exec(r, w, acts[..|acts| - 1]), acts[|acts| - 1]);
    }
  }

  lemma NextKeepsChain(r: Rules, w: World, a: Action)
    ensures w.node.chain.blocks.Keys <= Next(r, w, a).node.chain.blocks.Keys
    ensures w.recorded == {} && w.node.withdrawn == {} ==>
      Next(r, w, a).node.withdrawn == {} && Next(r, w, a).recorded == {}
  {
    hide StepThread, StoreInto, Headers, DropSome, PrunedBelow;
    if a.Step? && a.i < |w.threads| {
      StepKeepsChain(r, w.node, w.threads[a.i]);
      if w.node.withdrawn == {} { NothingToRemember(r, w.node, w.threads[a.i]); }
    }
  }

  lemma StepKeepsChain(r: Rules, n: Node, t: Thread)
    ensures n.chain.blocks.Keys <= StepThread(r, n, t).node.chain.blocks.Keys
  {
    hide Judge, VerifyBody, VrfAdmits, WithdrawnHit, CheckpointRefuses, Remember;
  }

  lemma NothingToRemember(r: Rules, n: Node, t: Thread)
    requires n.withdrawn == {}
    ensures StepThread(r, n, t).node.withdrawn == {}
  {
    hide Judge, VerifyBody, VrfAdmits, CheckpointRefuses;
  }

  /** Nothing recorded as withdrawn, nothing remembered: then no delivery is ever refused for it. */
  lemma {:induction false} NothingWithdrawnStays(r: Rules, w: World, acts: seq<Action>)
    requires w.recorded == {} && w.node.withdrawn == {}
    ensures Exec(r, w, acts).node.withdrawn == {} && Exec(r, w, acts).recorded == {}
  {
    hide Next;
    if acts != [] {
      NothingWithdrawnStays(r, w, acts[..|acts| - 1]);
      NextKeepsChain(r, Exec(r, w, acts[..|acts| - 1]), acts[|acts| - 1]);
    }
  }

  // ----- One uninterrupted delivery -----

  function Repeat(i: nat, k: nat): (acts: seq<Action>) {
    if k == 0 then [] else Repeat(i, k - 1) + [Step(i)]
  }

  function Steps(r: Rules, n: Node, t: Thread, k: nat): (m: Moved) {
    if k == 0 then Moved(n, t)
    else var m := Steps(r, n, t, k - 1); StepThread(r, m.node, m.thread)
  }

  lemma {:induction false} StepsFinish(r: Rules, n: Node, t: Thread, k: nat)
    ensures var m := Steps(r, n, t, k);
      && Uninterrupted(r, m.node, m.thread) == Uninterrupted(r, n, t)
      && (m.thread.Answered? || Left(m.thread) + k <= Left(t))
  {
    hide StepThread, Uninterrupted;
    if k > 0 {
      StepsFinish(r, n, t, k - 1);
      var m := Steps(r, n, t, k - 1);
      OneMore(r, m.node, m.thread);
      LeftDrops(r, m.node, m.thread);
    }
  }

  lemma LeftDrops(r: Rules, n: Node, t: Thread)
    ensures var t' := StepThread(r, n, t).thread; if t.Answered? then t' == t else Left(t') < Left(t)
  {
    hide Judge, VerifyBody, VrfAdmits, WithdrawnHit, CheckpointRefuses, Remember;
  }

  lemma {:induction false} ExecRepeat(r: Rules, w: World, i: nat, k: nat)
    requires i < |w.threads|
    ensures var w', m := Exec(r, w, Repeat(i, k)), Steps(r, w.node, w.threads[i], k);
      w'.node == m.node && w'.threads == w.threads[i := m.thread]
  {
    hide StepThread;
    if k > 0 {
      ExecRepeat(r, w, i, k - 1);
      assert Repeat(i, k)[..|Repeat(i, k)| - 1] == Repeat(i, k - 1);
    }
  }

  /** The actions of one delivery nothing interrupts. */
  function Delivery(w: World, b: Block): (acts: seq<Action>) {
    [Deliver(b)] + Repeat(|w.threads|, 8)
  }

  lemma {:induction false} ExecAppend(r: Rules, w: World, a: seq<Action>, b: seq<Action>)
    ensures Exec(r, w, a + b) == Exec(r, Exec(r, w, a), b)
  {
    hide Next;
    if b == [] {
      assert a + b == a;
    } else {
      assert (a + b)[..|a + b| - 1] == a + b[..|b| - 1];
      ExecAppend(r, w, a, b[..|b| - 1]);
    }
  }

  lemma DeliveryIsAdmit(r: Rules, w: World, b: Block)
    ensures var w', a := Exec(r, w, Delivery(w, b)), AdmitStep(r, w.node, b);
      w'.node == a.node && w'.threads == w.threads + [Answered(b.hash, a.outcome)]
  {
    hide AdmitStep, StepThread, Steps;
    var w1 := Next(r, w, Deliver(b));
    assert [Deliver(b)][..0] == [];
    assert Exec(r, w, [Deliver(b)]) == w1;
    ExecAppend(r, w, [Deliver(b)], Repeat(|w.threads|, 8));
    ExecRepeat(r, w1, |w.threads|, 8);
    StepsFinish(r, w.node, Arrived(b), 8);
    StepsComposeToAdmit(r, w.node, b);
  }

  /** A valid copy whose parents are held: every check `admit` makes would let it through. */
  ghost predicate Deliverable(r: Rules, n: Node, b: Block) {
    && !WithdrawnHit(n.withdrawn, b) && !CheckpointRefuses(r, b.header.height, b.hash)
    && Cleared(r, n.dag.blocks, b)
    && (b.hash in n.dag.blocks || VrfAdmits(r, n.dag.blocks, SidecarIngest(r, b).copy))
  }

  lemma DeliverableAdmits(r: Rules, n: Node, b: Block)
    requires Deliverable(r, n, b) && n.dag.pruningPoint == ZERO_HASH
    ensures var a := AdmitStep(r, n, b); InBoth(a.node, b.hash) && (a.outcome.Admitted? || a.outcome.AlreadyAdmitted?)
  {
    hide Judge, VerifyBody, VrfAdmits, WithdrawnHit, CheckpointRefuses;
  }

  /** One uninterrupted delivery completes a half-written block, from whatever state any run left
      behind: the block is then in both stores in every later state of every continuation, and any
      later delivery of that hash answers AlreadyAdmitted exactly unless the withdrawn or the
      checkpoint rule refuses it (with nothing ever withdrawn: unless the checkpoint rule does). */
  lemma OneDeliveryCompletes(r: Rules, w: World, before: seq<Action>, b: Block, after: seq<Action>, c: Block)
    requires AllTruthful(w) && NoPruning(before) && NoPruning(after)
    requires Deliverable(r, Exec(r, w, before).node, b) && c.hash == b.hash
    ensures var w1 := Exec(r, w, before);
      var w2 := Exec(r, w1, Delivery(w1, b));
      var w3 := Exec(r, w2, after);
      && InBoth(w3.node, b.hash)
      && (AdmitStep(r, w3.node, c).outcome.AlreadyAdmitted? <==>
            !WithdrawnHit(w3.node.withdrawn, c) && !CheckpointRefuses(r, c.header.height, c.hash))
      && (w.recorded == {} && w.node.withdrawn == {} ==> !WithdrawnHit(w3.node.withdrawn, c))
  {
    hide Judge, VerifyBody, VrfAdmits, CheckpointRefuses, Exec, Deliverable, Truthful;
    var w1 := Exec(r, w, before);
    AdmittedMeansBothStores(r, w, before);
    DeliverableAdmits(r, w1.node, b);
    DeliveryIsAdmit(r, w1, b);
    var w2 := Exec(r, w1, Delivery(w1, b));
    DeliveryKeepsTruth(r, w1, b);
    AdmittedMeansBothStores(r, w2, after);
    if w.recorded == {} && w.node.withdrawn == {} {
      NothingWithdrawnStays(r, w, before);
      NothingWithdrawnStays(r, w1, Delivery(w1, b));
      NothingWithdrawnStays(r, w2, after);
    }
  }

  lemma {:induction false} RepeatNoPruning(i: nat, k: nat)
    ensures NoPruning(Repeat(i, k))
  {
    if k > 0 { RepeatNoPruning(i, k - 1); }
  }

  lemma DeliveryKeepsTruth(r: Rules, w: World, b: Block)
    requires AllTruthful(w)
    ensures AllTruthful(Exec(r, w, Delivery(w, b)))
  {
    hide Truthful;
    RepeatNoPruning(|w.threads|, 8);
    AdmittedMeansBothStores(r, w, Delivery(w, b));
  }
}
