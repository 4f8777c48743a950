/** A workflow graph as a client submits it. */
module GraphInput {
  import opened Outcomes
  import opened Json
  import opened WorkflowGraph

  datatype AssigneeType =
    | ByUser | ByOrganizationUnit | ByPosition | ByRole | ByRequestField | Creator | PreviousStepActor | ManagerOfRequester

  datatype AssignmentRole = Executor | Observer

  datatype Strategy = AnyOf | AllOf | Quorum

  datatype RuleInput = RuleInput(
    kind: AssigneeType, subjectId: Option<string>, fieldKey: Option<string>, variableKey: Option<string>,
    assignmentRole: Option<AssignmentRole>, strategy: Option<Strategy>, quorum: Option<int>, config: Option<Record>)

  datatype NodeInput = NodeInput(
    key: string, kind: NodeType, name: string, description: Option<string>,
    config: Option<Record>, uiPosition: Option<Record>, assignees: seq<RuleInput>)

  datatype TransitionInput = TransitionInput(
    sourceKey: string, targetKey: string, actionKey: Option<string>, caption: string,
    condition: Option<Value>, sortOrder: Option<nat>)

  /** A string that JavaScript treats as present. */
  predicate Given(s: Option<string>) {
    s.Some? && s.value != ""
  }

  /** `p` and `q` are inverse permutations of the first `n` positions. */
  ghost predicate Permutes(p: seq<nat>, q: seq<nat>, n: nat) {
    && |p| == |q| == n
    && forall i | 0 <= i < n :: p[i] < n && q[i] < n && q[p[i]] == i && p[q[i]] == i
  }

  /** `a` shows the elements of `b` in another order: position `i` of `a` is position `p[i]` of `b`. */
  ghost predicate Rearranges<T(!new)>(a: seq<T>, b: seq<T>, p: seq<nat>, q: seq<nat>) {
    && Permutes(p, q, |a|) && |a| == |b|
    && forall i | 0 <= i < |a| :: a[i] == b[p[i]]
  }
}
