/**
 The server service as far as setup touches nodes: it creates them quarantined,
 makes them available when their job has succeeded or an administrator says so,
 switches them, and records the end of a health check on the shared node.
 */
module ServerService {
  import opened Wrappers
  import opened SetupMachine

  predicate Up(n: Node) {
    n.status.Online? || n.status.Warned?
  }

  /** A node is offered to new devices. */
  predicate Offered(n: Node) {
    n.available && Up(n)
  }

  /** What happens to a node besides being made available. */
  datatype NodeOp = Answered(answer: Answer) | Switched(disabled: bool)

  function AfterOps(n: Node, ops: seq<NodeOp>): Node {
    if ops == [] then n
    else
      var m := AfterOps(n, ops[..|ops| - 1]);
      match ops[|ops| - 1]
      case Answered(answer) => Checked(m, answer)
      case Switched(disabled) => SetDisabled(m, disabled)
  }

  /** The last switch disabled the node, or it was disabled and not switched. */
  predicate SwitchedOff(n: Node, ops: seq<NodeOp>) {
    if ops == [] then n.status.Disabled?
    else if ops[|ops| - 1].Switched? then ops[|ops| - 1].disabled
    else SwitchedOff(n, ops[..|ops| - 1])
  }

  /** No health check and no switch makes a quarantined node an offered one, a
      node switched off is never offered whatever the agent answers, and a good
      answer puts every other node to the use it was meant for. */
  lemma {:induction false} QuarantineHolds(n: Node, ops: seq<NodeOp>)
    ensures AfterOps(n, ops).available == n.available && AfterOps(n, ops).job == n.job
    ensures AfterOps(n, ops).status.Disabled? <==> SwitchedOff(n, ops)
    ensures !n.available || SwitchedOff(n, ops) ==> !Offered(AfterOps(n, ops))
    ensures ops != [] && ops[|ops| - 1].Answered? && ops[|ops| - 1].answer.Healthy? ==>
              (Offered(AfterOps(n, ops)) <==> n.available && !SwitchedOff(n, ops))
  {
    if ops != [] { QuarantineHolds(n, ops[..|ops| - 1]); }
  }

  /** What an answer makes of a node that is not switched off: online if the
      container runs and nothing is wrong, with warnings if one of these fails,
      offline without an answer, whose message is kept. */
  lemma AnswerMeans(n: Node, a: Answer)
    ensures var m := Checked(n, a);
            && (m.status.Disabled? <==> n.status.Disabled?)
            && (m.status.Online? <==> !n.status.Disabled? && a.Healthy? && a.running && !a.warnings)
            && (m.status.Warned? <==> !n.status.Disabled? && a.Healthy? && (!a.running || a.warnings))
            && (m.status.Offline? <==> !n.status.Disabled? && a.NoAnswer?)
            && m.lastError == (match a case NoAnswer(message) => Some(message) case Healthy(_, _) => None)
            && m.available == n.available && m.job == n.job && m.byHand == n.byHand
  {}

  /** What the switch makes of a node: off, and on again with its state unknown;
      switching on a node that is on changes nothing. */
  lemma SwitchMeans(n: Node, disabled: bool)
    ensures var m := SetDisabled(n, disabled);
            && m.status == (if disabled then Disabled else if n.status == Disabled then Fresh else n.status)
            && m.available == n.available && m.job == n.job && m.byHand == n.byHand && m.lastError == n.lastError
  {}

  lemma {:induction false} BoundOf(ids: set<nat>) returns (b: nat)
    ensures forall n :: n in ids ==> n < b
  {
    b := 0;
    if ids != {} {
      var m :| m in ids;
      var rest := BoundOf(ids - {m});
      b := if m < rest then rest else m + 1;
      assert forall n :: n in ids ==> n == m || n in ids - {m};
    }
  }

  /** There is always an id for one more node. */
  lemma SomeFresh(nodes: map<nat, Node>)
    ensures exists n: nat :: n !in nodes
  {
    var b := BoundOf(nodes.Keys);
    assert b !in nodes;
  }

  class ServerService {
    var nodes: map<nat, Node>

    constructor ()
      ensures nodes == map[]
    {
      nodes := map[];
    }

    /** Registers the node of a setup job. Until it is made available it is not
        offered, whatever its agent answers and however it is switched. */
    method CreateFromSetup(job: nat) returns (id: nat)
      modifies this
      ensures id !in old(nodes) && nodes == old(nodes)[id := Registered(job)]
      ensures forall ops :: !Offered(AfterOps(nodes[id], ops))
    {
      SomeFresh(nodes);
      id :| id !in nodes;
      nodes := nodes[id := Node(SetupRunning, false, Some(job), None, false)];
      forall ops ensures !Offered(AfterOps(nodes[id], ops)) { QuarantineHolds(nodes[id], ops); }
    }

    /** Ends the quarantine, or not: from then on the node is offered exactly if
        that was wanted and it is up. */
    method ActivateAfterSetup(id: nat, available: bool) returns (found: bool)
      modifies this
      ensures found <==> id in old(nodes)
      ensures nodes == if found then old(nodes)[id := Activated(old(nodes)[id], available)] else old(nodes)
      ensures found ==> (Offered(nodes[id]) <==> available && Up(old(nodes)[id]))
      ensures found && !available ==> forall ops :: !Offered(AfterOps(nodes[id], ops))
    {
      if id !in nodes { return false; }
      nodes := nodes[id := nodes[id].(available := available, byHand := false)];
      if !available {
        forall ops ensures !Offered(AfterOps(nodes[id], ops)) { QuarantineHolds(nodes[id], ops); }
      }
      return true;
    }

    /** An administrator says whether the node is available. */
    method UpdateAvailability(id: nat, available: bool) returns (found: bool)
      modifies this
      ensures found <==> id in old(nodes)
      ensures nodes == if found then old(nodes)[id := SetAvailable(old(nodes)[id], available)] else old(nodes)
    {
      if id !in nodes { return false; }
      nodes := nodes[id := nodes[id].(available := available, byHand := true)];
      return true;
    }

    method SwitchNode(id: nat, disabled: bool) returns (found: bool)
      modifies this
      ensures found <==> id in old(nodes)
      ensures nodes == if found then old(nodes)[id := SetDisabled(old(nodes)[id], disabled)] else old(nodes)
    {
      if id !in nodes { return false; }
      var node := nodes[id];
      if disabled {
        node := node.(status := Disabled);
      } else if node.status.Disabled? {
        node := node.(status := Fresh);
      }
      nodes := nodes[id := node];
      return true;
    }

    /** The agent has answered a health check that began earlier; the node may
        have been disabled meanwhile, and then stays so. */
    method FinishHealthCheck(id: nat, answer: Answer)
      requires id in nodes
      modifies this
      ensures nodes == old(nodes)[id := Checked(old(nodes)[id], answer)]
    {
      var node := nodes[id];
      match answer {
        case NoAnswer(message) =>
          if !node.status.Disabled? { node := node.(status := Offline); }
          node := node.(lastError := Some(message));
        case Healthy(running, warnings) =>
          node := node.(lastError := None);
          if !node.status.Disabled? {
            node := node.(status := if running && !warnings then Online else Warned);
          }
      }
      nodes := nodes[id := node];
    }
  }
}
