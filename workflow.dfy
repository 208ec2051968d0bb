/** The shared data model: the closed sets of names a workflow definition uses and the
    records that carry a definition. */
module Workflow {
  import opened Wrappers
  import opened Json

  /** Lifecycle of a stored workflow. */
  datatype WorkflowStatus = Draft | Active | Paused

  /** What starts a run. */
  datatype TriggerKind = Schedule | Webhook | Manual

  /** What a step does. */
  datatype StepKind = HttpRequest | SendEmail | TransformData

  /** Methods an `http_request` step may use. */
  datatype HttpMethod = Get | Post | Put | Delete | Patch

  /** Operations a `transform_data` step may name. */
  datatype TransformOp = Filter | Map | Reduce

  function WorkflowStatusName(s: WorkflowStatus): string
  {
    match s
    case Draft => "draft"
    case Active => "active"
    case Paused => "paused"
  }

  function TriggerKindName(k: TriggerKind): string
  {
    match k
    case Schedule => "schedule"
    case Webhook => "webhook"
    case Manual => "manual"
  }

  function StepKindName(k: StepKind): string
  {
    match k
    case HttpRequest => "http_request"
    case SendEmail => "send_email"
    case TransformData => "transform_data"
  }

  function HttpMethodName(m: HttpMethod): string
  {
    match m
    case Get => "GET"
    case Post => "POST"
    case Put => "PUT"
    case Delete => "DELETE"
    case Patch => "PATCH"
  }

  function TransformOpName(op: TransformOp): string
  {
    match op
    case Filter => "filter"
    case Map => "map"
    case Reduce => "reduce"
  }

  /** The status a stored name denotes; no other name is a status. */
  function WorkflowStatusFromName(name: string): (r: Option<WorkflowStatus>)
    ensures r.Some? ==> WorkflowStatusName(r.value) == name
    ensures r.None? ==> forall s :: WorkflowStatusName(s) != name
  {
    if name == "draft" then Some(Draft)
    else if name == "active" then Some(Active)
    else if name == "paused" then Some(Paused)
    else None
  }

  /** The trigger kind a `trigger.type` name denotes; no other name is a trigger kind. */
  function TriggerKindFromName(name: string): (r: Option<TriggerKind>)
    ensures r.Some? ==> TriggerKindName(r.value) == name
    ensures r.None? ==> forall k :: TriggerKindName(k) != name
  {
    if name == "schedule" then Some(Schedule)
    else if name == "webhook" then Some(Webhook)
    else if name == "manual" then Some(Manual)
    else None
  }

  /** The step kind a `step.type` name denotes; no other name is a step kind. */
  function StepKindFromName(name: string): (r: Option<StepKind>)
    ensures r.Some? ==> StepKindName(r.value) == name
    ensures r.None? ==> forall k :: StepKindName(k) != name
  {
    if name == "http_request" then Some(HttpRequest)
    else if name == "send_email" then Some(SendEmail)
    else if name == "transform_data" then Some(TransformData)
    else None
  }

  /** The HTTP method a config's `method` names; no other name is a method. */
  function HttpMethodFromName(name: string): (r: Option<HttpMethod>)
    ensures r.Some? ==> HttpMethodName(r.value) == name
    ensures r.None? ==> forall m :: HttpMethodName(m) != name
  {
    if name == "GET" then Some(Get)
    else if name == "POST" then Some(Post)
    else if name == "PUT" then Some(Put)
    else if name == "DELETE" then Some(Delete)
    else if name == "PATCH" then Some(Patch)
    else None
  }

  /** The operation a config's `operation` names; no other name is an operation. */
  function TransformOpFromName(name: string): (r: Option<TransformOp>)
    ensures r.Some? ==> TransformOpName(r.value) == name
    ensures r.None? ==> forall op :: TransformOpName(op) != name
  {
    if name == "filter" then Some(Filter)
    else if name == "map" then Some(Map)
    else if name == "reduce" then Some(Reduce)
    else None
  }

  /** Exactly one kind of trigger; `cron` and `webhookId` are optional. */
  datatype Trigger = Trigger(kind: TriggerKind, cron: Option<string>, webhookId: Option<string>)

  /** One step. `stepType` is the name found in the stored definition: the type system
      promises a `StepKind` name but nothing checks it, so any name can arrive here.
      `config` is the string-keyed configuration, a JSON object in a well-formed definition. */
  datatype WorkflowStep = WorkflowStep(id: string, stepType: string, config: Json)

  datatype WorkflowDefinition = WorkflowDefinition(id: string, name: string, trigger: Trigger, steps: seq<WorkflowStep>)

  /** A stored workflow row (timestamps left out). */
  datatype Workflow = Workflow(
    id: string, userId: int, name: string, description: Option<string>,
    workflowJson: WorkflowDefinition, status: WorkflowStatus)

  /** The context of one run. Only `stepResults` changes during the run: it is a `Map`
      the engine adds entries to. */
  class ExecutionContext {
    const workflowId: string
    const executionId: nat
    const triggerData: Option<Json>
    var stepResults: map<string, Json>
    const userId: int

    constructor (workflowId: string, executionId: nat, triggerData: Option<Json>, userId: int)
      ensures this.workflowId == workflowId && this.executionId == executionId
      ensures this.triggerData == triggerData && this.userId == userId
      ensures stepResults == map[]
    {
      this.workflowId := workflowId;
      this.executionId := executionId;
      this.triggerData := triggerData;
      this.userId := userId;
      stepResults := map[];
    }

    /** `stepResults.set(id, result)`: adds the entry or overwrites the one with that key. */
    method SetStepResult(id: string, result: Json)
      modifies this
      ensures stepResults == old(stepResults)[id := result]
    {
      stepResults := stepResults[id := result];
    }
  }
}
