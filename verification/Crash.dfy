/** Admission one storage step at a time, with any number of deliveries in flight, storage faults,
    crashes and restarts between any two steps, boot repairs and pruning. */
module Crash {
  import opened Blocks
  import opened Gate
  import opened Stores
  import opened Admission

  /** Where one delivery stands inside `admit`. */
  datatype Thread =
    | Arrived(b: Block)
    | Unrefused(b: Block)
    | SawChain(b: Block, inChain: bool)
    | SawBoth(b: Block, inChain: bool, inDag: bool)
    | NotPruned(b: Block, inChain: bool, inDag: bool)
    | Checked(copy: Block, inChain: bool, inDag: bool)
    | Storing(copy: Block, inChain: bool)
    | InDag(copy: Block, inChain: bool, partial: bool)
    | Answered(hash: Hash, outcome: Outcome)
  {
    function Target(): (h: Hash) {
      match this
      case Arrived(b) => b.hash
      case Unrefused(b) => b.hash
      case SawChain(b, _) => b.hash
      case SawBoth(b, _, _) => b.hash
      case NotPruned(b, _, _) => b.hash
      case Checked(c, _, _) => c.hash
      case Storing(c, _) => c.hash
      case InDag(c, _, _) => c.hash
      case Answered(h, _) => h
    }
  }

  datatype Moved = Moved(node: Node, thread: Thread)

  /** One step of one delivery: one read, one check or one write. */
  function StepThread(r: Rules, n: Node, t: Thread): (m: Moved)
    ensures m.thread.Target() == t.Target()
  {
    match t
    case Arrived(b) =>
      if WithdrawnHit(n.withdrawn, b) then
        Moved(n.(withdrawn := Remember(n.withdrawn, b)), Answered(b.hash, Rejected))
      else if CheckpointRefuses(r, b.header.height, b.hash) then Moved(n, Answered(b.hash, Rejected))
      else Moved(n, Unrefused(b))
    case Unrefused(b) => Moved(n, SawChain(b, b.hash in n.chain.blocks))
    case SawChain(b, inChain) =>
      var inDag := b.hash in n.dag.blocks;
      Moved(n, if inChain && inDag then Answered(b.hash, AlreadyAdmitted) else SawBoth(b, inChain, inDag))
    case SawBoth(b, inChain, inDag) =>
      Moved(n, if inChain && !inDag && b.header.height < PrunedBelow(n.dag) then Answered(b.hash, AlreadyAdmitted)
               else NotPruned(b, inChain, inDag))
    case NotPruned(b, inChain, inDag) =>
      Moved(n,
        match Judge(r, n.dag.blocks, b)
        case Missing(p) => Answered(b.hash, Deferred(p))
        case Invalid => Answered(b.hash, Rejected)
        case Pass =>
          if !VerifyBody(r, b) || SidecarIngest(r, b).Refused? then Answered(b.hash, Rejected)
          else Checked(SidecarIngest(r, b).copy, inChain, inDag))
    case Checked(copy, inChain, inDag) =>
      Moved(n,
        if inDag then InDag(copy, inChain, true)
        else match StoreInto(r, n.dag, copy)
          case Exists => InDag(copy, inChain, inChain)
          case VrfRefused => Answered(copy.hash, Rejected)
          case Stored => Storing(copy, inChain))
    case Storing(copy, inChain) =>
      Moved(n.(dag := n.dag.(blocks := n.dag.blocks[copy.hash := copy])), InDag(copy, inChain, inChain))
    case InDag(copy, inChain, partial) =>
      Moved(if inChain then n else n.(chain := Put(n.chain, copy)), Answered(copy.hash, Admitted(partial)))
    case Answered(_, _) => Moved(n, t)
  }

  /** Steps left before the answer. */
  function Left(t: Thread): (k: nat) {
    match t
    case Arrived(_) => 8
    case Unrefused(_) => 7
    case SawChain(_, _) => 6
    case SawBoth(_, _, _) => 5
    case NotPruned(_, _, _) => 4
    case Checked(_, _, _) => 3
    case Storing(_, _) => 2
    case InDag(_, _, _) => 1
    case Answered(_, _) => 0
  }

  /** The delivery run to its answer with nothing in between. */
  function Uninterrupted(r: Rules, n: Node, t: Thread): (m: Moved)
    decreases Left(t)
  {
    if t.Answered? then Moved(n, t)
    else var m := StepThread(r, n, t); Uninterrupted(r, m.node, m.thread)
  }

  lemma OneMore(r: Rules, n: Node, t: Thread)
    ensures var m := StepThread(r, n, t); Uninterrupted(r, n, t) == Uninterrupted(r, m.node, m.thread)
  {
  }

  /** Uninterrupted, the steps compose to exactly one call of `admit`. */
  lemma StepsComposeToAdmit(r: Rules, n: Node, b: Block)
    ensures var a := AdmitStep(r, n, b);
      Uninterrupted(r, n, Arrived(b)) == Moved(a.node, Answered(b.hash, a.outcome))
  {
    hide Judge, VerifyBody, VrfAdmits, WithdrawnHit, Remember, CheckpointRefuses;
    var inChain, inDag := b.hash in n.chain.blocks, b.hash in n.dag.blocks;
    OneMore(r, n, Arrived(b));
    OneMore(r, n, Unrefused(b));
    OneMore(r, n, SawChain(b, inChain));
    OneMore(r, n, SawBoth(b, inChain, inDag));
    OneMore(r, n, NotPruned(b, inChain, inDag));
    if !(inChain && inDag) && SidecarIngest(r, b).Store? {
      TailComposes(r, n, SidecarIngest(r, b).copy, inChain, inDag);
    }
  }

  lemma TailComposes(r: Rules, n: Node, copy: Block, inChain: bool, inDag: bool)
    requires inChain == (copy.hash in n.chain.blocks) && inDag == (copy.hash in n.dag.blocks)
    requires !(inChain && inDag)
    ensures Uninterrupted(r, n, Checked(copy, inChain, inDag)) ==
      if StoreInto(r, n.dag, copy).VrfRefused? then Moved(n, Answered(copy.hash, Rejected))
      else Moved(n.(dag := AddToDag(n.dag, copy), chain := AddToChain(n.chain, copy)),
                 Answered(copy.hash, Admitted(inChain != inDag)))
  {
    hide VrfAdmits;
    OneMore(r, n, Checked(copy, inChain, inDag));
    OneMore(r, n, Storing(copy, inChain));
    OneMore(r, n, InDag(copy, inChain, true));
    OneMore(r, n.(dag := AddToDag(n.dag, copy)), InDag(copy, inChain, inChain));
  }
}
