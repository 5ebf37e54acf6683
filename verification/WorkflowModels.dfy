/** The persistent models of an engineering workflow.

    Universally unique ids are fresh tokens, written as natural numbers. */
module WorkflowModels {
  import opened Common

  datatype Phase =
    | Understand | RetrieveKnowledge | InspectProduct | EvaluateIdea
    | IdentifyRisks | CreatePlan | ArchitectureReview | Approval
    | Implement | Test | Debug | Correct
    | SecurityReview | RequirementVerification | Document | FinalReport

  const PHASES: seq<Phase> := [
    Understand, RetrieveKnowledge, InspectProduct, EvaluateIdea,
    IdentifyRisks, CreatePlan, ArchitectureReview, Approval,
    Implement, Test, Debug, Correct,
    SecurityReview, RequirementVerification, Document, FinalReport]

  datatype Status = Pending | Running | WaitingApproval | Escalated | Completed | Failed

  /** A Python value that a caller may put into `input` or `data`. Dictionary keys that are
      not strings, and values json has no notation for, are known by their text. */
  datatype Py =
    | PyNone
    | PyBool(b: bool)
    | PyInt(i: int)
    | PyFloat(r: real)
    | PyStr(s: string)
    | PyList(items: seq<Py>)
    | PyTuple(parts: seq<Py>)
    | PyDict(entries: seq<Entry>)
    | PyOther(text: string)

  /** What a dictionary key is: a text, a number, boolean or None, or anything else, such as a
      tuple. */
  datatype KeyKind = TextKey | ScalarKey | OtherKey

  datatype Entry = Entry(key: string, kind: KeyKind, value: Py)

  datatype Request = Request(objective: string, repository: string, input: Py, id: nat)

  datatype WorkflowEvent = WorkflowEvent(
    phase: Phase,
    status: string,
    detail: string,
    evidence: seq<string>,
    failures: seq<string>,
    corrections: seq<string>,
    risks: seq<string>,
    uncertainty: seq<string>,
    id: nat)

  datatype Checkpoint = Checkpoint(phase: Phase, resource: string, reason: string, requestId: nat)

  datatype WorkflowState = WorkflowState(
    request: Request,
    status: Status,
    phaseIndex: nat,
    events: seq<WorkflowEvent>,
    approval: Option<Checkpoint>,
    data: Py,
    escalationReason: Option<string>)
}
