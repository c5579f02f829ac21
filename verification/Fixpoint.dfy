/** `admit_to_fixpoint`: a batch is retried until a pass admits nothing. The set of hashes
    it stores is the least extension of the node closed under admitting the batch, less what the batch
    itself makes the node refuse on the way (`Order` says exactly when that depends on the order). */
module Fixpoint {
  import opened Blocks
  import opened Gate
  import opened Stores
  import opened Admission

  datatype Wait = Wait(height: nat, missing: Hash)

  /** Where a run over a batch stands. */
  datatype Run = Run(
    node: Node, deferred: seq<Block>, waitingOn: map<Hash, Wait>,
    newlyAdmitted: nat, highest: Option<Tip>, progressed: bool)

  datatype FixpointOutcome = FixpointOutcome(
    newlyAdmitted: nat, highest: Option<Tip>, deferred: seq<Block>, waitingOn: map<Hash, Wait>)

  function Higher(best: Option<Tip>, b: Block): (t: Option<Tip>) {
    if best.None? || best.value.height < b.header.height then Some(Tip(b.hash, b.header.height)) else best
  }

  function OneBlock(r: Rules, s: Run, b: Block): (s': Run) {
    var a := AdmitStep(r, s.node, b);
    match a.outcome
    case Admitted(_) =>
      s.(node := a.node, progressed := true, newlyAdmitted := s.newlyAdmitted + 1, highest := Higher(s.highest, b))
    case Deferred(p) =>
      s.(node := a.node, deferred := s.deferred + [b], waitingOn := s.waitingOn[b.hash := Wait(b.header.height, p)])
    case _ => s.(node := a.node)
  }

  /** The state a pass starts from. */
  function PassStart(s: Run): (s': Run) {
    s.(deferred := [], waitingOn := map[], progressed := false)
  }

  /** One pass over `pending`, in order. */
  function OnePass(r: Rules, s: Run, pending: seq<Block>): (s': Run)
    ensures |s'.deferred| <= |pending|
    ensures s'.progressed ==> |s'.deferred| < |pending|
    ensures s'.newlyAdmitted >= s.newlyAdmitted
  {
    if pending == [] then PassStart(s)
    else OneBlock(r, OnePass(r, s, pending[..|pending| - 1]), pending[|pending| - 1])
  }

  /** Passes repeat on what was deferred until one makes no progress. */
  function ToFixpoint(r: Rules, s: Run, pending: seq<Block>): (s': Run)
    decreases |pending|
  {
    var p := OnePass(r, s, pending);
    if p.progressed then ToFixpoint(r, p, p.deferred) else p
  }

  function StartAt(n: Node): (s: Run) { Run(n, [], map[], 0, None, false) }

  /** The whole run of a batch against a node. */
  function Settle(r: Rules, n: Node, batch: seq<Block>): (s: Run) { ToFixpoint(r, StartAt(n), batch) }

  method AdmitToFixpoint(adm: BlockAdmission, batch: seq<Block>) returns (out: FixpointOutcome)
    modifies adm`withdrawn, adm.storage, adm.dagStore`blocks
    ensures var s := Settle(adm.rules, old(adm.View()), batch);
      && adm.View() == s.node
      && out == FixpointOutcome(s.newlyAdmitted, s.highest, s.deferred, s.waitingOn)
  {
    hide AdmitStep;
    var pending := batch;
    var admitted, highest, waitingOn := 0, None, map[];
    ghost var s := StartAt(adm.View());
    while true
      invariant adm.View() == s.node && admitted == s.newlyAdmitted && highest == s.highest
      invariant ToFixpoint(adm.rules, s, pending) == Settle(adm.rules, old(adm.View()), batch)
      decreases |pending|
    {
      var progressed := false;
      var deferred := [];
      waitingOn := map[];
      var i := 0;
      while i < |pending|
        invariant 0 <= i <= |pending|
        invariant OnePass(adm.rules, s, pending[..i]) ==
                  Run(adm.View(), deferred, waitingOn, admitted, highest, progressed)
      {
        var b := pending[i];
        assert pending[..i + 1][..i] == pending[..i];
        var o := adm.Admit(b);
        match o {
          case Admitted(_) =>
            progressed := true;
            admitted := admitted + 1;
            if highest.None? || highest.value.height < b.header.height {
              highest := Some(Tip(b.hash, b.header.height));
            }
          case AlreadyAdmitted =>
          case Deferred(p) =>
            waitingOn := waitingOn[b.hash := Wait(b.header.height, p)];
            deferred := deferred + [b];
          case Rejected =>
        }
        i := i + 1;
      }
      assert pending[..i] == pending;
      s := OnePass(adm.rules, s, pending);
      pending := deferred;
      if !progressed { break; }
    }
    out := FixpointOutcome(admitted, highest, pending, waitingOn);
  }
}
