/** The execution engine: what one step does, the run over a workflow's steps, and the
    execution record a run keeps. The outside world a step reaches (HTTP, mail) is a
    parameter: each call either answers or fails with a message. */
module Executor {
  import opened Wrappers
  import opened Text
  import opened Json
  import opened Workflow
  import opened Template

  // ---------------------------------------------------------------- effects

  /** What the HTTP client is given: the `method`, `url`, `headers` and `body` fields of the
      resolved configuration, `None` where a field is absent. */
  datatype HttpCall = HttpCall(verb: Option<Json>, url: Option<Json>, headers: Option<Json>, data: Option<Json>)

  datatype HttpReply = HttpReply(status: int, headers: Json, data: Json)

  /** What the mail transport is given; `text` is the configuration's `body`. */
  datatype MailMessage = MailMessage(to: Option<Json>, cc: Option<Json>, bcc: Option<Json>,
                                     subject: Option<Json>, text: Option<Json>)

  datatype MailReceipt = MailReceipt(messageId: string, accepted: seq<string>)

  /** The services a step can call. */
  datatype Services = Services(http: HttpCall -> Result<HttpReply>, mail: MailMessage -> Result<MailReceipt>)

  /** The message a destructuring of a `null` configuration throws. */
  function DestructureError(name: string): string
  {
    "Cannot destructure property '" + name + "' of 'config' as it is null."
  }

  /** `config.name` on a configuration that is not `null`: the member of an object, nothing
      for any other value. */
  function Field(config: Json, name: string): (r: Option<Json>)
    ensures r.Some? ==> config.JObj? && exists i :: 0 <= i < |config.members| && config.members[i] == Member(name, r.value)
    ensures r.None? && config.JObj? ==> forall i :: 0 <= i < |config.members| ==> config.members[i].key != name
  {
    match config
    case JObj(ms) => (match FindKey(ms, name) case Some(i) => Some(ms[i].value) case None => None)
    case _ => None
  }

  /** `${value}`: how a template literal prints a value (`undefined` for a missing one). */
  function ValueText(v: Option<Json>): string
  {
    match v
    case None => "undefined"
    case Some(j) => JsonText(j)
  }

  function JsonText(j: Json): string
    decreases j
  {
    match j
    case JNull => "null"
    case JBool(b) => if b then "true" else "false"
    case JNum(n) => IntText(n)
    case JStr(s) => s
    case JArr(items) => ItemsText(items)
    case JObj(_) => "[object Object]"
  }

  /** `items.join(",")`: `null` elements print as nothing. */
  function ItemsText(items: seq<Json>): string
    decreases items
  {
    if items == [] then ""
    else
      var first := if items[0].JNull? then "" else JsonText(items[0]);
      if |items| == 1 then first else first + "," + ItemsText(items[1..])
  }

  function HttpCallOf(config: Json): HttpCall
  {
    HttpCall(Field(config, "method"), Field(config, "url"), Field(config, "headers"), Field(config, "body"))
  }

  /** `executeHttpRequest`: the step's result carries the reply's status, headers and data;
      a failed call fails the step with its message. */
  function ExecuteHttpRequest(config: Json, svc: Services): (r: Result<Json>)
    ensures config.JNull? ==> r == Err(DestructureError("method"))
    ensures !config.JNull? ==> (r.Ok? <==> svc.http(HttpCallOf(config)).Ok?)
    ensures !config.JNull? && r.Err? ==> r.error == svc.http(HttpCallOf(config)).error
    ensures r.Ok? ==>
      var reply := svc.http(HttpCallOf(config)).value;
      Field(r.value, "status") == Some(JNum(reply.status)) &&
      Field(r.value, "headers") == Some(reply.headers) &&
      Field(r.value, "data") == Some(reply.data)
  {
    if config.JNull? then Err(DestructureError("method"))
    else
      match svc.http(HttpCallOf(config))
      case Err(e) => Err(e)
      case Ok(reply) =>
        FieldsOfThree("status", "headers", "data", JNum(reply.status), reply.headers, reply.data);
        Ok(JObj([Member("status", JNum(reply.status)), Member("headers", reply.headers), Member("data", reply.data)]))
  }

  lemma FieldsOfThree(a: string, b: string, c: string, x: Json, y: Json, z: Json)
    requires a != b && a != c && b != c
    ensures var o := JObj([Member(a, x), Member(b, y), Member(c, z)]);
      Field(o, a) == Some(x) && Field(o, b) == Some(y) && Field(o, c) == Some(z)
  {
    var ms := [Member(a, x), Member(b, y), Member(c, z)];
    assert ms[0].key == a && ms[1].key == b && ms[2].key == c;
  }

  lemma FieldsOfTwo(a: string, b: string, x: Json, y: Json)
    requires a != b
    ensures var o := JObj([Member(a, x), Member(b, y)]);
      Field(o, a) == Some(x) && Field(o, b) == Some(y)
  {
    var ms := [Member(a, x), Member(b, y)];
    assert ms[0].key == a && ms[1].key == b;
  }

  function MailOf(config: Json): MailMessage
  {
    MailMessage(Field(config, "to"), Field(config, "cc"), Field(config, "bcc"), Field(config, "subject"), Field(config, "body"))
  }

  function Strings(names: seq<string>): (r: seq<Json>)
    ensures |r| == |names| && forall i :: 0 <= i < |r| ==> r[i] == JStr(names[i])
  {
    if names == [] then [] else [JStr(names[0])] + Strings(names[1..])
  }

  /** `executeSendEmail`: the step's result carries the transport's message id and accepted
      addresses; a failed send fails the step with its message. */
  function ExecuteSendEmail(config: Json, svc: Services): (r: Result<Json>)
    ensures config.JNull? ==> r == Err(DestructureError("to"))
    ensures !config.JNull? ==> (r.Ok? <==> svc.mail(MailOf(config)).Ok?)
    ensures !config.JNull? && r.Err? ==> r.error == svc.mail(MailOf(config)).error
    ensures r.Ok? ==>
      var receipt := svc.mail(MailOf(config)).value;
      Field(r.value, "messageId") == Some(JStr(receipt.messageId)) &&
      Field(r.value, "accepted") == Some(JArr(Strings(receipt.accepted)))
  {
    if config.JNull? then Err(DestructureError("to"))
    else
      match svc.mail(MailOf(config))
      case Err(e) => Err(e)
      case Ok(receipt) =>
        FieldsOfTwo("messageId", "accepted", JStr(receipt.messageId), JArr(Strings(receipt.accepted)));
        Ok(JObj([Member("messageId", JStr(receipt.messageId)), Member("accepted", JArr(Strings(receipt.accepted)))]))
  }

  /** `executeTransformData`: the three known operations answer a fixed marker naming the
      operation; any other value of `operation` fails the step, naming it. */
  function ExecuteTransformData(config: Json): (r: Result<Json>)
    ensures config.JNull? ==> r == Err(DestructureError("operation"))
    ensures !config.JNull? ==>
      (r.Ok? <==> exists op :: Field(config, "operation") == Some(JStr(TransformOpName(op))))
    ensures r.Ok? ==>
      r.value == JObj([Member("transformed", JBool(true)), Member("operation", Field(config, "operation").value)])
    ensures !config.JNull? && r.Err? ==>
      r.error == "Unknown transform operation: " + ValueText(Field(config, "operation"))
  {
    if config.JNull? then Err(DestructureError("operation"))
    else
      var op := Field(config, "operation");
      if op.Some? && op.value.JStr? && TransformOpFromName(op.value.s).Some?
      then Ok(JObj([Member("transformed", JBool(true)), Member("operation", op.value)]))
      else Err("Unknown transform operation: " + ValueText(op))
  }

  // ---------------------------------------------------------------- one step

  /** The `switch` on the step type, over the resolved configuration: each known type runs
      its own effect, any other type fails naming it. */
  function Dispatch(stepType: string, config: Json, svc: Services): (r: Result<Json>)
    ensures (forall k :: StepKindName(k) != stepType) ==> r == Err("Unknown step type: " + stepType)
    ensures stepType == StepKindName(HttpRequest) ==> r == ExecuteHttpRequest(config, svc)
    ensures stepType == StepKindName(SendEmail) ==> r == ExecuteSendEmail(config, svc)
    ensures stepType == StepKindName(TransformData) ==> r == ExecuteTransformData(config)
  {
    match StepKindFromName(stepType)
    case None => Err("Unknown step type: " + stepType)
    case Some(HttpRequest) => ExecuteHttpRequest(config, svc)
    case Some(SendEmail) => ExecuteSendEmail(config, svc)
    case Some(TransformData) => ExecuteTransformData(config)
  }

  /** `executeStep`: the configuration is resolved before the step type is looked at. */
  function StepOutcome(step: WorkflowStep, triggerData: Option<Json>, stepResults: map<string, Json>,
                       svc: Services): Result<Json>
  {
    match ResolveConfig(step.config, triggerData, stepResults)
    case Err(e) => Err(e)
    case Ok(config) => Dispatch(step.stepType, config, svc)
  }

  /** A step of unknown type fails, but with the parse error when its configuration does not
      resolve: the type is checked only after template resolution. */
  lemma UnknownTypeAfterResolution(step: WorkflowStep, triggerData: Option<Json>, stepResults: map<string, Json>,
                                   svc: Services)
    requires forall k :: StepKindName(k) != step.stepType
    ensures var config := ResolveConfig(step.config, triggerData, stepResults);
      StepOutcome(step, triggerData, stepResults, svc) ==
        Err(if config.Err? then config.error else "Unknown step type: " + step.stepType)
  {
  }

  method ExecuteStep(step: WorkflowStep, context: ExecutionContext, svc: Services) returns (r: Result<Json>)
    ensures r == StepOutcome(step, context.triggerData, context.stepResults, svc)
  {
    var config := ReplaceTemplateVariables(step.config, context.triggerData, context.stepResults);
    if config.Err? {
      return Err(config.error);
    }
    var kind := StepKindFromName(step.stepType);
    match kind
    case None => r := Err("Unknown step type: " + step.stepType);
    case Some(HttpRequest) => r := ExecuteHttpRequest(config.value, svc);
    case Some(SendEmail) => r := ExecuteSendEmail(config.value, svc);
    case Some(TransformData) => r := ExecuteTransformData(config.value);
  }

  // ---------------------------------------------------------------- the run

  datatype StepStatus = StepCompleted | StepFailed

  /** One entry of the execution log (timestamps left out). */
  datatype StepLog = StepLog(stepId: string, stepType: string, status: StepStatus,
                             result: Option<Json>, error: Option<string>)

  predicate IsCompleted(e: StepLog)
  {
    e.status == StepCompleted && e.result.Some? && e.error.None?
  }

  /** The log entry for a step that ended with `outcome`. */
  function Entry(step: WorkflowStep, outcome: Result<Json>): StepLog
  {
    match outcome
    case Ok(v) => StepLog(step.id, step.stepType, StepCompleted, Some(v), None)
    case Err(msg) => StepLog(step.id, step.stepType, StepFailed, None, Some(msg))
  }

  /** The step results after the completed entries of `log` have been stored in order. */
  function Accumulate(results: map<string, Json>, log: seq<StepLog>): map<string, Json>
    decreases |log|
  {
    if log == [] then results
    else Accumulate(if IsCompleted(log[0]) then results[log[0].stepId := log[0].result.value] else results, log[1..])
  }

  /** What one step gives when run against the results stored so far. */
  type StepFn = (WorkflowStep, map<string, Json>) -> Result<Json>

  /** The engine's step: `executeStep` with the run's trigger data and services. */
  function Engine(triggerData: Option<Json>, svc: Services): StepFn
  {
    (step: WorkflowStep, results: map<string, Json>) => StepOutcome(step, triggerData, results, svc)
  }

  datatype RunOutcome = RunOutcome(log: seq<StepLog>, results: map<string, Json>, error: Option<string>)

  /** The steps run in order; each one's result is stored under its id before the next one
      is resolved, and the first failure ends the run. */
  function Run(steps: seq<WorkflowStep>, results: map<string, Json>, perform: StepFn): RunOutcome
    decreases |steps|
  {
    if steps == [] then RunOutcome([], results, None)
    else
      match perform(steps[0], results)
      case Err(msg) => RunOutcome([Entry(steps[0], Err(msg))], results, Some(msg))
      case Ok(v) =>
        var rest := Run(steps[1..], results[steps[0].id := v], perform);
        RunOutcome([Entry(steps[0], Ok(v))] + rest.log, rest.results, rest.error)
  }

  /** The log follows the steps in order, one entry per step attempted. */
  lemma {:induction false} RunSteps(steps: seq<WorkflowStep>, results: map<string, Json>, perform: StepFn)
    ensures var o := Run(steps, results, perform);
      |o.log| <= |steps| &&
      forall i :: 0 <= i < |o.log| ==> o.log[i].stepId == steps[i].id && o.log[i].stepType == steps[i].stepType
    decreases |steps|
  {
    if steps != [] && perform(steps[0], results).Ok? {
      var next := results[steps[0].id := perform(steps[0], results).value];
      var rest := Run(steps[1..], next, perform);
      RunSteps(steps[1..], next, perform);
      var o := Run(steps, results, perform);
      assert o.log[1..] == rest.log;
      forall i | 1 <= i < |o.log|
        ensures o.log[i].stepId == steps[i].id && o.log[i].stepType == steps[i].stepType
      {
        assert o.log[i] == rest.log[i - 1] && steps[i] == steps[1..][i - 1];
      }
    }
  }

  /** A run that reports no error completed every step. */
  lemma {:induction false} RunSuccess(steps: seq<WorkflowStep>, results: map<string, Json>, perform: StepFn)
    ensures var o := Run(steps, results, perform);
      o.error.None? ==> |o.log| == |steps| && forall i :: 0 <= i < |o.log| ==> IsCompleted(o.log[i])
    decreases |steps|
  {
    if steps != [] && perform(steps[0], results).Ok? {
      var next := results[steps[0].id := perform(steps[0], results).value];
      var rest := Run(steps[1..], next, perform);
      RunSuccess(steps[1..], next, perform);
      var o := Run(steps, results, perform);
      assert o.log == [o.log[0]] + rest.log && IsCompleted(o.log[0]) && o.error == rest.error;
    }
  }

  /** A run that reports an error ends with the one failed entry, carrying that error, and
      every entry before it completed. */
  lemma {:induction false} RunFailure(steps: seq<WorkflowStep>, results: map<string, Json>, perform: StepFn)
    ensures var o := Run(steps, results, perform);
      o.error.Some? ==>
        1 <= |o.log| <= |steps| &&
        o.log[|o.log| - 1] == StepLog(steps[|o.log| - 1].id, steps[|o.log| - 1].stepType, StepFailed, None, o.error) &&
        forall i :: 0 <= i < |o.log| - 1 ==> IsCompleted(o.log[i])
    decreases |steps|
  {
    if steps != [] && perform(steps[0], results).Ok? {
      var next := results[steps[0].id := perform(steps[0], results).value];
      var rest := Run(steps[1..], next, perform);
      RunFailure(steps[1..], next, perform);
      var o := Run(steps, results, perform);
      assert o.log == [o.log[0]] + rest.log && IsCompleted(o.log[0]) && o.error == rest.error;
      if o.error.Some? {
        assert o.log[|o.log| - 1] == rest.log[|rest.log| - 1];
        assert steps[|o.log| - 1] == steps[1..][|rest.log| - 1];
        assert forall i :: 1 <= i < |o.log| ==> o.log[i] == rest.log[i - 1];
      }
    }
  }

  /** A run succeeds exactly when it completed every step. */
  lemma RunStatus(steps: seq<WorkflowStep>, results: map<string, Json>, perform: StepFn)
    ensures var o := Run(steps, results, perform);
      o.error.None? <==> |o.log| == |steps| && forall i :: 0 <= i < |o.log| ==> IsCompleted(o.log[i])
  {
    RunSuccess(steps, results, perform);
    RunFailure(steps, results, perform);
  }

  /** The results a run leaves are the results before it with every completed entry's
      result stored in log order. */
  lemma {:induction false} RunResults(steps: seq<WorkflowStep>, results: map<string, Json>, perform: StepFn)
    ensures var o := Run(steps, results, perform);
      o.results == Accumulate(results, o.log)
    decreases |steps|
  {
    if steps != [] {
      var out := perform(steps[0], results);
      if out.Ok? {
        var next := results[steps[0].id := out.value];
        var rest := Run(steps[1..], next, perform);
        RunResults(steps[1..], next, perform);
        var o := Run(steps, results, perform);
        assert o.log[1..] == rest.log;
      }
    }
  }

  /** Entry `i` of the log is what step `i` gives when resolved against the results stored
      by the entries before it. */
  lemma {:induction false} RunEntry(steps: seq<WorkflowStep>, results: map<string, Json>, perform: StepFn, i: nat)
    requires i < |Run(steps, results, perform).log| && i < |steps|
    ensures var o := Run(steps, results, perform);
      o.log[i] == Entry(steps[i], perform(steps[i], Accumulate(results, o.log[..i])))
    decreases |steps|
  {
    var o := Run(steps, results, perform);
    if i > 0 {
      var v := perform(steps[0], results).value;
      var next := results[steps[0].id := v];
      var rest := Run(steps[1..], next, perform);
      RunEntry(steps[1..], next, perform, i - 1);
      var before := o.log[..i];
      assert before[0] == Entry(steps[0], Ok(v)) && before[1..] == rest.log[..i - 1];
      assert Accumulate(results, before) == Accumulate(next, rest.log[..i - 1]);
      assert o.log[i] == rest.log[i - 1] && steps[i] == steps[1..][i - 1];
    }
  }

  /** Stored results are only added or overwritten, never removed. */
  lemma {:induction false} AccumulateGrows(results: map<string, Json>, log: seq<StepLog>)
    ensures results.Keys <= Accumulate(results, log).Keys
    decreases |log|
  {
    if log != [] {
      AccumulateGrows(if IsCompleted(log[0]) then results[log[0].stepId := log[0].result.value] else results, log[1..]);
    }
  }

  /** A key no completed entry names keeps its value. */
  lemma {:induction false} AccumulateUntouched(results: map<string, Json>, log: seq<StepLog>, k: string)
    requires k in results
    requires forall i :: 0 <= i < |log| && IsCompleted(log[i]) ==> log[i].stepId != k
    ensures k in Accumulate(results, log) && Accumulate(results, log)[k] == results[k]
    decreases |log|
  {
    if log != [] {
      var next := if IsCompleted(log[0]) then results[log[0].stepId := log[0].result.value] else results;
      assert forall i :: 0 <= i < |log[1..]| ==> log[1..][i] == log[i + 1];
      AccumulateUntouched(next, log[1..], k);
    }
  }

  /** A completed entry's result is what its id holds at the end, unless a later completed
      entry with the same id overwrote it. */
  lemma {:induction false} AccumulateLastWrite(results: map<string, Json>, log: seq<StepLog>, i: nat)
    requires i < |log| && IsCompleted(log[i])
    requires forall j :: i < j < |log| && IsCompleted(log[j]) ==> log[j].stepId != log[i].stepId
    ensures log[i].stepId in Accumulate(results, log)
    ensures Accumulate(results, log)[log[i].stepId] == log[i].result.value
    decreases |log|
  {
    var next := if IsCompleted(log[0]) then results[log[0].stepId := log[0].result.value] else results;
    assert forall j :: 0 <= j < |log[1..]| ==> log[1..][j] == log[j + 1];
    if i == 0 {
      AccumulateUntouched(next, log[1..], log[0].stepId);
    } else {
      AccumulateLastWrite(next, log[1..], i - 1);
    }
  }

  /** The whole run, unfolded at step `i`. */
  lemma RunAt(steps: seq<WorkflowStep>, i: nat, results: map<string, Json>, perform: StepFn)
    requires i < |steps|
    ensures var out := perform(steps[i], results);
      Run(steps[i..], results, perform) ==
        if out.Err? then RunOutcome([Entry(steps[i], out)], results, Some(out.error))
        else
          var rest := Run(steps[i + 1..], results[steps[i].id := out.value], perform);
          RunOutcome([Entry(steps[i], out)] + rest.log, rest.results, rest.error)
  {
    assert steps[i..][0] == steps[i];
    assert steps[i..][1..] == steps[i + 1..];
  }

  // ---------------------------------------------------------------- the record

  datatype ExecutionStatus = Running | Completed | Failed

  /** `triggerData || {}`: what the record keeps as trigger data. */
  function TriggerSnapshot(triggerData: Option<Json>): Json
  {
    if triggerData.Some? && Truthy(triggerData.value) then triggerData.value else JObj([])
  }

  /** The stored row of one run (timestamps left out). */
  class ExecutionRecord {
    const id: nat
    const workflowId: string
    const triggerData: Json
    var status: ExecutionStatus
    var executionLog: seq<StepLog>
    var errorMessage: Option<string>

    constructor (id: nat, workflowId: string, triggerData: Option<Json>)
      ensures this.id == id && this.workflowId == workflowId
      ensures this.triggerData == TriggerSnapshot(triggerData)
      ensures status == Running && executionLog == [] && errorMessage == None
    {
      this.id := id;
      this.workflowId := workflowId;
      this.triggerData := TriggerSnapshot(triggerData);
      status := Running;
      executionLog := [];
      errorMessage := None;
    }

    method Complete(log: seq<StepLog>)
      modifies this
      ensures status == Completed && executionLog == log && errorMessage == old(errorMessage)
    {
      status := Completed;
      executionLog := log;
    }

    method Fail(message: string, log: seq<StepLog>)
      modifies this
      ensures status == Failed && executionLog == log && errorMessage == Some(message)
    {
      status := Failed;
      executionLog := log;
      errorMessage := Some(message);
    }
  }

  /** What a successful run returns. */
  datatype ExecutionSummary = ExecutionSummary(executionId: nat, status: ExecutionStatus, executionLog: seq<StepLog>)

  /** `execute`: creates the record, runs the steps in order and closes the record; a failed
      step's message is re-thrown as the run's error. */
  method Execute(workflow: WorkflowDefinition, userId: int, triggerData: Option<Json>, executionId: nat,
                 svc: Services) returns (record: ExecutionRecord, outcome: Result<ExecutionSummary>)
    ensures fresh(record)
    ensures record.id == executionId && record.workflowId == workflow.id
    ensures record.triggerData == TriggerSnapshot(triggerData)
    ensures var o := Run(workflow.steps, map[], Engine(triggerData, svc));
      record.executionLog == o.log &&
      (o.error.None? ==> record.status == Completed && record.errorMessage == None &&
                         outcome == Ok(ExecutionSummary(executionId, Completed, o.log))) &&
      (o.error.Some? ==> record.status == Failed && record.errorMessage == o.error &&
                         outcome == Err(o.error.value))
  {
    record := new ExecutionRecord(executionId, workflow.id, triggerData);
    var executionLog: seq<StepLog> := [];
    var context := new ExecutionContext(workflow.id, executionId, triggerData, userId);
    var steps := workflow.steps;
    ghost var engine := Engine(triggerData, svc);
    ghost var whole := Run(steps, map[], engine);
    var i := 0;
    while i < |steps|
      invariant i <= |steps|
      invariant context.triggerData == triggerData
      invariant record.id == executionId && record.workflowId == workflow.id
      invariant record.triggerData == TriggerSnapshot(triggerData)
      invariant record.status == Running && record.errorMessage == None
      invariant executionLog + Run(steps[i..], context.stepResults, engine).log == whole.log
      invariant Run(steps[i..], context.stepResults, engine).error == whole.error
      decreases |steps| - i
    {
      var step := steps[i];
      ghost var before := context.stepResults;
      RunAt(steps, i, before, engine);
      var result := ExecuteStep(step, context, svc);
      assert result == engine(step, before);
      match result
      case Err(msg) =>
        var entry := StepLog(step.id, step.stepType, StepFailed, None, Some(msg));
        assert Run(steps[i..], before, engine) == RunOutcome([entry], before, Some(msg));
        executionLog := executionLog + [entry];
        record.Fail(msg, executionLog);
        outcome := Err(msg);
        return;
      case Ok(v) =>
        var entry := StepLog(step.id, step.stepType, StepCompleted, Some(v), None);
        ghost var rest := Run(steps[i + 1..], before[step.id := v], engine);
        assert Run(steps[i..], before, engine) == RunOutcome([entry] + rest.log, rest.results, rest.error);
        context.SetStepResult(step.id, v);
        assert (executionLog + [entry]) + rest.log == executionLog + ([entry] + rest.log);
        executionLog := executionLog + [entry];
      i := i + 1;
    }
    assert steps[i..] == [];
    record.Complete(executionLog);
    outcome := Ok(ExecutionSummary(executionId, Completed, executionLog));
  }

  // ---------------------------------------------------------------- a run that stops early

  /** An `http_request` step `step_s1` whose reply data is `{"email": "a@b.com"}`, followed by
      a `send_email` step whose `to` field is the placeholder for that address: the address
      is spliced into the quoted field, the second step fails on the resolved text, and no
      later step runs. */
  lemma QuotedAddressStopsRun(s1: WorkflowStep, s2: WorkflowStep, later: seq<WorkflowStep>, svc: Services,
                              c1: Json, reply: HttpReply)
    requires s1.id == "step_s1" && s1.stepType == "http_request"
    requires ResolveConfig(s1.config, None, map[]) == Ok(c1) && !c1.JNull?
    requires svc.http(HttpCallOf(c1)) == Ok(reply)
    requires reply.data == JObj([Member("email", JStr("a@b.com"))])
    requires s2.stepType == "send_email"
    requires s2.config == JObj([Member("to", JStr("{{step_s1.data.email}}")),
                                Member("subject", JStr("hi")), Member("body", JStr("ok"))])
    ensures var o := Run([s1, s2] + later, map[], Engine(None, svc));
      |o.log| == 2 && IsCompleted(o.log[0]) && o.log[1].status == StepFailed && o.error.Some?
  {
    var r1 := FirstStepAnswers(s1, svc, c1, reply);
    var results := map[][s1.id := r1];
    EmailIntoQuotedField(s2.config, results);
    var failure := SecondStepFails(s2, results, svc);
    StopsAtSecond([s1, s2] + later, map[], Engine(None, svc), r1);
  }

  /** A run whose first step answers and whose second step fails, against the first one's
      result, logs exactly those two steps. */
  lemma StopsAtSecond(steps: seq<WorkflowStep>, results: map<string, Json>, perform: StepFn, r1: Json)
    requires |steps| >= 2
    requires perform(steps[0], results) == Ok(r1)
    requires perform(steps[1], results[steps[0].id := r1]).Err?
    ensures var o := Run(steps, results, perform);
      |o.log| == 2 && IsCompleted(o.log[0]) && o.log[1].status == StepFailed && o.error.Some?
  {
    RunAt(steps, 1, results[steps[0].id := r1], perform);
  }

  lemma FirstStepAnswers(s1: WorkflowStep, svc: Services, c1: Json, reply: HttpReply) returns (r1: Json)
    requires s1.stepType == "http_request"
    requires ResolveConfig(s1.config, None, map[]) == Ok(c1) && !c1.JNull?
    requires svc.http(HttpCallOf(c1)) == Ok(reply)
    requires reply.data == JObj([Member("email", JStr("a@b.com"))])
    ensures StepOutcome(s1, None, map[], svc) == Ok(r1)
    ensures Truthy(r1) && Walk(Some(r1), ["data", "email"]) == Some(JStr("a@b.com"))
  {
    r1 := ExecuteHttpRequest(c1, svc).value;
    assert StepOutcome(s1, None, map[], svc) == Ok(r1);
    ReplyAddress(r1, reply);
  }

  lemma ReplyAddress(r1: Json, reply: HttpReply)
    requires r1 == JObj([Member("status", JNum(reply.status)), Member("headers", reply.headers), Member("data", reply.data)])
    requires reply.data == JObj([Member("email", JStr("a@b.com"))])
    ensures Truthy(r1) && Walk(Some(r1), ["data", "email"]) == Some(JStr("a@b.com"))
  {
    FieldsOfThree("status", "headers", "data", JNum(reply.status), reply.headers, reply.data);
    assert Property(Some(r1), "data") == Some(reply.data);
    assert Property(Some(reply.data), "email") == Some(JStr("a@b.com")) by {
      assert FindKey(reply.data.members, "email") == Some(0);
    }
  }

  lemma SecondStepFails(s2: WorkflowStep, results: map<string, Json>, svc: Services) returns (msg: string)
    requires ResolveConfig(s2.config, None, results).Err?
    ensures StepOutcome(s2, None, results, svc) == Err(msg)
  {
    msg := ResolveConfig(s2.config, None, results).error;
  }
}
