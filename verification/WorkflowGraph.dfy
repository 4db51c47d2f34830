/**
 The fixed approval workflow: which state follows which, built edge by edge as the stack's
 constructor builds it, and what that shape alone guarantees about every path through it.
 */
module WorkflowGraph {
  import opened Common
  import opened ApprovalModel

  datatype Node =
    | NormalizeWorkflowInput
    | ResearchAgent
    | RiskAgent
    | ReviewerAgent
    | ReviewerDecision
    | WaitForManagerApproval
    | ApprovalDecision
    | ExecuteApprovedAction
    | WorkflowExecuted
    | WorkflowRejected
    | ReviewerFailed
    | AgentExecutionFailed
    | ApprovalWaitFailed
    | ApprovedActionExecutionFailed

  /** The state data the two Choice states look at. */
  datatype Facts = Facts(reviewerPassed: bool, decision: Decision)

  datatype Guard = ReviewerIs(passed: bool) | DecisionIn(options: set<Decision>)

  predicate Satisfied(g: Guard, facts: Facts) {
    match g
    case ReviewerIs(passed) => facts.reviewerPassed == passed
    case DecisionIn(options) => facts.decision in options
  }

  datatype Branch = Branch(guard: Guard, target: Node)

  /** `next` for plain states, `catches` for task failures, branches and default for choices. */
  datatype Graph = Graph(
    next: map<Node, Node>,
    catches: map<Node, Node>,
    branches: map<Node, seq<Branch>>,
    otherwise: map<Node, Node>)

  function NextOf(n: Node): Option<Node> {
    match n
    case NormalizeWorkflowInput => Some(ResearchAgent)
    case ResearchAgent => Some(RiskAgent)
    case RiskAgent => Some(ReviewerAgent)
    case ReviewerAgent => Some(ReviewerDecision)
    case WaitForManagerApproval => Some(ApprovalDecision)
    case ExecuteApprovedAction => Some(WorkflowExecuted)
    case _ => None
  }

  function HandlerOf(n: Node): Option<Node> {
    match n
    case ResearchAgent => Some(AgentExecutionFailed)
    case RiskAgent => Some(AgentExecutionFailed)
    case ReviewerAgent => Some(AgentExecutionFailed)
    case WaitForManagerApproval => Some(ApprovalWaitFailed)
    case ExecuteApprovedAction => Some(ApprovedActionExecutionFailed)
    case _ => None
  }

  function BranchesOf(n: Node): Option<seq<Branch>> {
    match n
    case ReviewerDecision => Some([Branch(ReviewerIs(true), WaitForManagerApproval)])
    case ApprovalDecision => Some([
      Branch(DecisionIn({Rejected}), WorkflowRejected),
      Branch(DecisionIn({Approved, Modified}), ExecuteApprovedAction)])
    case _ => None
  }

  function DefaultOf(n: Node): Option<Node> {
    match n
    case ReviewerDecision => Some(ReviewerFailed)
    case ApprovalDecision => Some(ApprovalWaitFailed)
    case _ => None
  }

  function Lookup<T>(m: map<Node, T>, n: Node): Option<T> {
    if n in m then Some(m[n]) else None
  }

  /** The graph has exactly the edges of the agent workflow. */
  ghost predicate IsAgentWorkflow(g: Graph) {
    && (forall n :: Lookup(g.next, n) == NextOf(n))
    && (forall n :: Lookup(g.catches, n) == HandlerOf(n))
    && (forall n :: Lookup(g.branches, n) == BranchesOf(n))
    && (forall n :: Lookup(g.otherwise, n) == DefaultOf(n))
  }

  class GraphBuilder {
    var next: map<Node, Node>
    var catches: map<Node, Node>
    var branches: map<Node, seq<Branch>>
    var otherwise: map<Node, Node>

    function Built(): Graph
      reads this
    {
      Graph(next, catches, branches, otherwise)
    }

    constructor ()
      ensures Built() == Graph(map[], map[], map[], map[])
    {
      next, catches, branches, otherwise := map[], map[], map[], map[];
    }

    method Next(from: Node, to: Node)
      modifies this`next
      ensures next == old(next)[from := to]
    {
      next := next[from := to];
    }

    method AddCatch(task: Node, handler: Node)
      modifies this`catches
      ensures catches == old(catches)[task := handler]
    {
      catches := catches[task := handler];
    }

    method AddCatches(tasks: seq<Node>, handler: Node)
      modifies this`catches
      ensures forall n :: Lookup(catches, n) == if n in tasks then Some(handler) else Lookup(old(catches), n)
    {
      for k := 0 to |tasks|
        invariant forall n :: Lookup(catches, n) == if n in tasks[..k] then Some(handler) else Lookup(old(catches), n)
      {
        assert tasks[..k + 1] == tasks[..k] + [tasks[k]];
        AddCatch(tasks[k], handler);
      }
      assert tasks[..|tasks|] == tasks;
    }

    /** Branches are tried in the order they were added. */
    method When(choice: Node, guard: Guard, target: Node)
      modifies this`branches
      ensures branches == old(branches)[choice :=
                (if choice in old(branches) then old(branches)[choice] else []) + [Branch(guard, target)]]
    {
      var sofar := if choice in branches then branches[choice] else [];
      branches := branches[choice := sofar + [Branch(guard, target)]];
    }

    method Otherwise(choice: Node, target: Node)
      modifies this`otherwise
      ensures otherwise == old(otherwise)[choice := target]
    {
      otherwise := otherwise[choice := target];
    }
  }

  method AddHandlers(g: GraphBuilder)
    requires g.catches == map[]
    modifies g`catches
    ensures forall n :: Lookup(g.catches, n) == HandlerOf(n)
  {
    g.AddCatches([ResearchAgent, RiskAgent, ReviewerAgent], AgentExecutionFailed);
    g.AddCatch(WaitForManagerApproval, ApprovalWaitFailed);
    g.AddCatch(ExecuteApprovedAction, ApprovedActionExecutionFailed);
    forall n ensures Lookup(g.catches, n) == HandlerOf(n) {
      assert n in [ResearchAgent, RiskAgent, ReviewerAgent] <==> n == ResearchAgent || n == RiskAgent || n == ReviewerAgent;
    }
  }

  method AddChoices(g: GraphBuilder)
    requires g.branches == map[] && g.otherwise == map[]
    modifies g`branches, g`otherwise
    ensures forall n :: Lookup(g.branches, n) == BranchesOf(n)
    ensures forall n :: Lookup(g.otherwise, n) == DefaultOf(n)
  {
    g.When(ApprovalDecision, DecisionIn({Rejected}), WorkflowRejected);
    g.When(ApprovalDecision, DecisionIn({Approved, Modified}), ExecuteApprovedAction);
    g.Otherwise(ApprovalDecision, ApprovalWaitFailed);
    g.When(ReviewerDecision, ReviewerIs(true), WaitForManagerApproval);
    g.Otherwise(ReviewerDecision, ReviewerFailed);
    assert g.branches[ApprovalDecision] == BranchesOf(ApprovalDecision).value;
    assert g.branches[ReviewerDecision] == BranchesOf(ReviewerDecision).value;
  }

  method LinkStates(g: GraphBuilder)
    requires g.next == map[]
    modifies g`next
    ensures forall n :: Lookup(g.next, n) == NextOf(n)
  {
    g.Next(ExecuteApprovedAction, WorkflowExecuted);
    g.Next(WaitForManagerApproval, ApprovalDecision);
    g.Next(NormalizeWorkflowInput, ResearchAgent);
    g.Next(ResearchAgent, RiskAgent);
    g.Next(RiskAgent, ReviewerAgent);
    g.Next(ReviewerAgent, ReviewerDecision);
  }

  method BuildAgentWorkflow() returns (g: GraphBuilder)
    ensures fresh(g)
    ensures IsAgentWorkflow(g.Built())
  {
    g := new GraphBuilder();
    AddHandlers(g);
    AddChoices(g);
    LinkStates(g);
  }

  // ---------------------------------------------------------------- stepping through a graph

  function FirstBranch(branches: seq<Branch>, facts: Facts, default: Node): Node
    decreases |branches|
  {
    if branches == [] then default
    else if Satisfied(branches[0].guard, facts) then branches[0].target
    else FirstBranch(branches[1..], facts, default)
  }

  predicate IsChoice(g: Graph, n: Node) {
    n in g.branches && n in g.otherwise
  }

  function Choose(g: Graph, n: Node, facts: Facts): Node
    requires IsChoice(g, n)
  {
    FirstBranch(g.branches[n], facts, g.otherwise[n])
  }

  /** One move of a run whose state data are `facts`. */
  predicate Moves(g: Graph, a: Node, b: Node, facts: Facts) {
    || (a in g.next && g.next[a] == b)
    || (a in g.catches && g.catches[a] == b)
    || (IsChoice(g, a) && Choose(g, a, facts) == b)
  }

  ghost predicate Path(g: Graph, p: seq<Node>, facts: Facts) {
    && p != []
    && p[0] == NormalizeWorkflowInput
    && forall i :: 0 <= i < |p| - 1 ==> Moves(g, p[i], p[i + 1], facts)
  }

  /** The one road from the start, as far as the given facts let it go. */
  const ROAD: seq<Node> := [
    NormalizeWorkflowInput, ResearchAgent, RiskAgent, ReviewerAgent, ReviewerDecision,
    WaitForManagerApproval, ApprovalDecision, ExecuteApprovedAction]

  predicate Terminal(n: Node) {
    n in {WorkflowExecuted, WorkflowRejected, ReviewerFailed, AgentExecutionFailed,
          ApprovalWaitFailed, ApprovedActionExecutionFailed}
  }

  lemma ChoicesOfTheWorkflow(g: Graph, facts: Facts)
    requires IsAgentWorkflow(g)
    ensures forall n :: IsChoice(g, n) <==> n == ReviewerDecision || n == ApprovalDecision
    ensures Choose(g, ReviewerDecision, facts) ==
            if facts.reviewerPassed then WaitForManagerApproval else ReviewerFailed
    ensures Choose(g, ApprovalDecision, facts) ==
            if facts.decision == Rejected then WorkflowRejected else ExecuteApprovedAction
  {
    forall n ensures IsChoice(g, n) <==> n == ReviewerDecision || n == ApprovalDecision {
      assert Lookup(g.branches, n) == BranchesOf(n) && Lookup(g.otherwise, n) == DefaultOf(n);
    }
    assert Lookup(g.branches, ReviewerDecision) == BranchesOf(ReviewerDecision);
    assert Lookup(g.branches, ApprovalDecision) == BranchesOf(ApprovalDecision);
    assert Lookup(g.otherwise, ReviewerDecision) == DefaultOf(ReviewerDecision);
    assert Lookup(g.otherwise, ApprovalDecision) == DefaultOf(ApprovalDecision);
    var decisions := g.branches[ApprovalDecision];
    assert g.branches[ReviewerDecision][1..] == [];
    assert decisions[1..] == [decisions[1]] && decisions[1..][1..] == [];
  }

  /** The moves of the built graph, state by state. */
  predicate Successor(a: Node, b: Node, facts: Facts) {
    match a
    case NormalizeWorkflowInput => b == ResearchAgent
    case ResearchAgent => b == RiskAgent || b == AgentExecutionFailed
    case RiskAgent => b == ReviewerAgent || b == AgentExecutionFailed
    case ReviewerAgent => b == ReviewerDecision || b == AgentExecutionFailed
    case ReviewerDecision => b == if facts.reviewerPassed then WaitForManagerApproval else ReviewerFailed
    case WaitForManagerApproval => b == ApprovalDecision || b == ApprovalWaitFailed
    case ApprovalDecision => b == if facts.decision == Rejected then WorkflowRejected else ExecuteApprovedAction
    case ExecuteApprovedAction => b == WorkflowExecuted || b == ApprovedActionExecutionFailed
    case _ => false
  }

  lemma MovesAreSuccessors(g: Graph, a: Node, b: Node, facts: Facts)
    requires IsAgentWorkflow(g)
    ensures Moves(g, a, b, facts) <==> Successor(a, b, facts)
  {
    ChoicesOfTheWorkflow(g, facts);
    assert Lookup(g.next, a) == NextOf(a);
    assert Lookup(g.catches, a) == HandlerOf(a);
  }

  predicate GatesPassed(i: nat, facts: Facts) {
    && (i >= 5 ==> facts.reviewerPassed)
    && (i >= 7 ==> facts.decision != Rejected)
  }

  /** All but the last state of a path are on the road, in its order, past open gates only. */
  lemma {:induction false} PathsFollowTheRoad(g: Graph, p: seq<Node>, facts: Facts, i: nat)
    requires IsAgentWorkflow(g) && Path(g, p, facts)
    requires i < |p| - 1
    ensures i < |ROAD| && p[i] == ROAD[i] && GatesPassed(i, facts)
    decreases i
  {
    MovesAreSuccessors(g, p[i], p[i + 1], facts);
    if i > 0 {
      PathsFollowTheRoad(g, p, facts, i - 1);
      MovesAreSuccessors(g, p[i - 1], p[i], facts);
    }
  }

  /**
   The action state is reached by exactly one path, and only with a Reviewer PASS and an
   approved or modified decision; no path is longer than nine states.
   */
  lemma ExecutionIsGated(g: Graph, p: seq<Node>, facts: Facts)
    requires IsAgentWorkflow(g) && Path(g, p, facts)
    ensures |p| <= |ROAD| + 1
    ensures p[|p| - 1] == ExecuteApprovedAction ==> p == ROAD
    ensures ExecuteApprovedAction in p || WorkflowExecuted in p ==>
              ROAD <= p && facts.reviewerPassed && facts.decision != Rejected
  {
    forall i | 0 <= i < |p| - 1 ensures i < |ROAD| && p[i] == ROAD[i] && GatesPassed(i, facts) {
      PathsFollowTheRoad(g, p, facts, i);
    }
    var last := |p| - 1;
    if last > 0 {
      PathsFollowTheRoad(g, p, facts, last - 1);
      MovesAreSuccessors(g, p[last - 1], p[last], facts);
    }
  }

  /** Every state that is not terminal can move, whatever the data: no run gets stuck. */
  lemma OnlyTerminalsStop(g: Graph, n: Node, facts: Facts)
    requires IsAgentWorkflow(g)
    ensures Terminal(n) <==> forall m :: !Moves(g, n, m, facts)
  {
    forall m ensures Moves(g, n, m, facts) <==> Successor(n, m, facts) {
      MovesAreSuccessors(g, n, m, facts);
    }
    if !Terminal(n) {
      ChoicesOfTheWorkflow(g, facts);
      var m := if NextOf(n).Some? then NextOf(n).value else Choose(g, n, facts);
      assert Moves(g, n, m, facts);
    }
  }
}
