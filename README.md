# Workflow automation backend — a verified model of its core

The backend lets a user build workflows by chatting with an assistant. A workflow is a
trigger (a schedule, a webhook or a manual run) followed by a list of steps: an HTTP
request, an e-mail, or a data transform. This project models four parts of it in Dafny
and proves what each promises.

- **The engine** (`executor.dfy`, `template.dfy`) covers:
  - the record of a run;
  - the step loop, which stops at the first failing step;
  - the dispatch on the step type;
  - the three step kinds;
  - the `{{…}}` placeholder substitution, which works on the serialised configuration.
- **The scheduler** (`scheduler.dfy`) covers:
  - the queue of delayed runs, keyed by job id;
  - how scheduling, unscheduling and the periodic reload change that queue;
  - the worker that runs a job.
- **The assistant** (`assistant.dfy`) finds the first `<workflow>…</workflow>` block in a model
  reply, parses it, cuts it out of the message, and decides whether the assistant is still
  asking questions.
- **The types** (`workflow.dfy`) are the closed vocabularies and the records they build.

Supporting modules:
- `wrappers.dfy` defines `Option` and `Result`. `Err(message)` stands for a thrown error.
- `text.dfy` defines integer text, `trim`, `split`/`join` and `indexOf`.
- `json.dfy` defines JSON values, `JSON.stringify` and `JSON.parse`. It proves that parsing
  gives back any value it serialised.

Side effects are parameters of the model:
- An HTTP call and an SMTP send are the two functions of `Executor.Services`. Each
  returns a reply or the error it throws.
- When a cron expression next fires is `Scheduler.NextFire`. It returns `None` for an
  expression that does not parse.
- The database query of the reload is a `Result` value.
- The model reply is a `Result` over its content blocks.

## Where the code and the documented behaviour differ

The documented scenario chains two steps:
- an HTTP step `s1` returns `{data: {email: "a@b.com"}}`;
- a send-email step then has `to: "{{step_s1.data.email}}"`;
- the expected resolved `to` is `"a@b.com"`.

The code does not do that, for two reasons. The model follows the code.

1. The lookup takes the whole first dot-segment, `step_s1`, as the step id. A step with id
   `s1` therefore never matches, and the placeholder is left as it is (`Template.Lookup`,
   `Template.LookupStep`).
2. With a step whose id is `step_s1`, as the assistant's own prompt suggests, the text is
   still spliced into the serialised configuration. It lands between the quotes of the `to`
   string as `"{{…}}"` → `""a@b.com""`. `JSON.parse` rejects that text, so the e-mail step
   fails and the run stops there (`Template.SplicedStringIsInvalid`,
   `Template.EmailIntoQuotedField`, `Executor.QuotedAddressStopsRun`).

A non-empty object is rejected the same way (`Template.SplicedObjectIsInvalid`). A value
whose serialisation needs no quoting, such as a number, does come through, but as text
(`Template.SplicedScalarBecomesText`).

## Model

| member | source | states |
|---|---|---|
| Workflow.WorkflowStatusFromName | backend/src/types/workflow.ts:7 | a stored status name denotes exactly one of draft/active/paused, and no other name is a status |
| Workflow.TriggerKindFromName | backend/src/types/workflow.ts:20-24 | a trigger type name denotes exactly one of schedule/webhook/manual, and no other name is a trigger kind |
| Workflow.StepKindFromName | backend/src/types/workflow.ts:26-30 | a step type name denotes exactly one of http_request/send_email/transform_data, and every other name is unknown |
| Workflow.HttpMethodFromName | backend/src/types/workflow.ts:37 | the five HTTP verbs and no other name |
| Workflow.TransformOpFromName | backend/src/types/workflow.ts:52 | filter/map/reduce and no other name |
| Workflow.ExecutionContext.constructor | backend/src/services/executor.ts:32-38 | a run's context starts with the workflow id, execution id, trigger data and user id it was given, and no step results |
| Workflow.ExecutionContext.SetStepResult | backend/src/services/executor.ts:52 | storing a result adds the entry or overwrites the one with that id; every other entry is kept |
| Text.Trim | backend/src/services/executor.ts:121 | the trimmed text is the input without its leading and trailing white space, and neither of its ends is white space |
| Text.SplitJoin | backend/src/services/executor.ts:127-131 | splitting the dot-joined path segments gives back the segments |
| Text.IndexOf | backend/src/services/executor.ts:136 | the position found is the first occurrence at or after the start; no result means no occurrence |
| Text.ReplaceFirstSpec | backend/src/services/executor.ts:136 | the intended replace changes only the first occurrence, into the replacement as it is, and changes nothing when there is none |
| Text.ExpandPlain | backend/src/services/executor.ts:136 | the runtime's expansion of a replacement without `$` is the replacement itself |
| Text.ReplaceAgreesWithoutDollar | backend/src/services/executor.ts:136 | the runtime's replace and the intended one give the same text whenever the replacement has no `$` |
| Text.DollarAmpersandReinsertsMatch | backend/src/services/executor.ts:136 | a value serialised as `"$&"` gets the placeholder written back in the runtime, not the value |
| Json.FindKey | backend/src/services/executor.ts:144 | a property lookup finds the first member with that key, and finds none only when no member has it |
| Json.Parse | backend/src/services/executor.ts:140 | every value `JSON.parse` returns is well formed: no object repeats a key |
| Json.ParseStringify | backend/src/services/executor.ts:113-140 | parsing the serialisation of a well-formed value gives back that value |
| Json.DedupeDistinct | backend/src/services/executor.ts:140 | parsing an object whose keys are distinct keeps all its members in order |
| Template.MatchAt | backend/src/services/executor.ts:117 | a placeholder at a position is `{{`, one or more characters other than `}`, then `}}`, and it has a single end |
| Template.NextMatch | backend/src/services/executor.ts:117-120 | the global scan finds the leftmost placeholder at or after its position, and no result means no placeholder remains |
| Template.Walk | backend/src/services/executor.ts:143-145 | walking a path from no value gives no value (optional chaining) |
| Template.LookupStep | backend/src/services/executor.ts:124-133 | a `step_` expression names a step by its whole first dot-segment; it needs a truthy result and walks the rest of the path, and a bare id walks the empty key |
| Template.LookupUnresolved | backend/src/services/executor.ts:124-135 | any expression other than `trigger.data` or a `step_` one whose step has a truthy result is left alone |
| Template.ReplaceTemplateVariables | backend/src/services/executor.ts:112-141 | the loop over the placeholders of the serialised configuration returns the resolved configuration, or the parse error |
| Template.SubstituteUnresolved | backend/src/services/executor.ts:120-138 | when no placeholder met by the scan resolves, the text is left exactly as it was |
| Template.ResolveUnresolved | backend/src/services/executor.ts:112-141 | a configuration none of whose placeholders resolves comes back unchanged |
| Template.ResolveIdempotent | backend/src/services/executor.ts:112-141 | a configuration without placeholders resolves to itself, and resolving the result again changes nothing |
| Template.ScanSingle | backend/src/services/executor.ts:117-120 | in a text with one placeholder, the scan finds that placeholder first and nothing after it |
| Template.SingleMatch | backend/src/services/executor.ts:120-138 | a single placeholder is replaced by its value's serialisation when it resolves, and otherwise the text is unchanged |
| Template.SpliceIntoQuotedField | backend/src/services/executor.ts:136 | a resolved placeholder that is the whole first string field of an object, with no other `{` in the serialisation, ends up between that field's own quotes |
| Template.SplicedStringIsInvalid | backend/src/services/executor.ts:136-140 | in that position, a string value that is empty or does not start with a space, a comma or `}` makes the text reaching `JSON.parse` invalid, and resolving the configuration fails |
| Template.SplicedObjectIsInvalid | backend/src/services/executor.ts:136-140 | in that position, a non-empty object value whose first key does not start with a space, a comma or `}` makes resolving the configuration fail |
| Template.SplicedScalarBecomesText | backend/src/services/executor.ts:136-140 | in that position, a value whose serialisation needs no escaping (a number, a boolean, `null`, `{}`, an array of those) turns the field into the string of that serialisation |
| Template.EmailIntoQuotedField | backend/src/services/executor.ts:112-141 | the address placeholder of the documented e-mail step makes the step's configuration fail to resolve |
| Executor.Field | backend/src/services/executor.ts:148 | destructuring reads the named member of an object config, and reads nothing from any other value |
| Executor.ExecuteHttpRequest | backend/src/services/executor.ts:147-163 | a null config throws the destructuring error; otherwise the call succeeds exactly when the HTTP service does, and returns its status, headers and data |
| Executor.ExecuteSendEmail | backend/src/services/executor.ts:165-181 | a null config throws; otherwise the step succeeds exactly when the mail service does, and returns its message id and accepted list |
| Executor.ExecuteTransformData | backend/src/services/executor.ts:183-204 | the step succeeds exactly for filter/map/reduce, returns `{transformed: true, operation}`, and otherwise throws `Unknown transform operation: …` |
| Executor.Dispatch | backend/src/services/executor.ts:97-109 | each known step type runs its own operation, and any other type throws `Unknown step type: …` |
| Executor.UnknownTypeAfterResolution | backend/src/services/executor.ts:93-109 | an unknown step type is reported only after placeholder resolution: a configuration that fails to resolve reports that error instead |
| Executor.ExecuteStep | backend/src/services/executor.ts:93-110 | running a step against the context yields the step outcome for its trigger data and current results |
| Executor.RunSteps | backend/src/services/executor.ts:42-65 | the log has at most one entry per step, in step order, with each step's id and type |
| Executor.RunSuccess | backend/src/services/executor.ts:42-65 | a run without an error logs every step as completed |
| Executor.RunFailure | backend/src/services/executor.ts:50-62 | a failed run stops at the first failure: every earlier entry is completed, and the last entry is the failed step with the thrown message |
| Executor.RunStatus | backend/src/services/executor.ts:42-90 | a run succeeds if and only if every step was logged as completed |
| Executor.RunResults | backend/src/services/executor.ts:51-52 | the final step results are the starting ones with each completed step's result stored, in log order |
| Executor.RunEntry | backend/src/services/executor.ts:50-59 | each step runs against the results of the steps logged before it |
| Executor.AccumulateGrows | backend/src/services/executor.ts:52 | storing results never removes an id |
| Executor.AccumulateUntouched | backend/src/services/executor.ts:52 | an id no completed step has keeps its value |
| Executor.AccumulateLastWrite | backend/src/services/executor.ts:52 | when two steps share an id, the later completed result wins |
| Executor.ExecutionRecord.constructor | backend/src/services/executor.ts:23-27 | the record starts running, with an empty log, no error, and `triggerData \|\| {}` |
| Executor.ExecutionRecord.Complete | backend/src/services/executor.ts:68-73 | a completed run stores its log |
| Executor.ExecutionRecord.Fail | backend/src/services/executor.ts:82-87 | a failed run stores its log and the error message |
| Executor.Execute | backend/src/services/executor.ts:21-91 | the record's log is the run's log; the record and result are completed exactly when no step failed, and otherwise failed with the first error, which is rethrown |
| Executor.QuotedAddressStopsRun | backend/src/services/executor.ts:42-62 | in the documented two-step scenario, the HTTP step completes, the e-mail step fails, and no later step runs |
| Scheduler.NewJob | backend/src/services/scheduler.ts:108-119 | the job's id is `${workflowId}-${runAt}` and it carries the workflow snapshot; it waits for `runAt − now` and is delayed or waiting |
| Scheduler.RemoveFor | backend/src/services/scheduler.ts:96-101 | exactly the jobs of that workflow in the given states are removed, and all others are kept as they were |
| Scheduler.SelectScheduled | backend/src/services/scheduler.ts:62-67 | the reload selects exactly the active workflows whose trigger is a schedule |
| Scheduler.JobQueue.GetJobs | backend/src/services/scheduler.ts:96 | every job returned is in the queue in one of the asked states, and every such job is returned |
| Scheduler.JobQueue.Remove | backend/src/services/scheduler.ts:99 | removing a job drops that id only |
| Scheduler.JobQueue.Add | backend/src/services/scheduler.ts:108-119 | adding a job under an id already present leaves the queue as it was |
| Scheduler.RemovedIsRemoveFor | backend/src/services/scheduler.ts:96-101 | removing the found jobs one by one removes exactly the workflow's jobs in those states |
| Scheduler.WorkflowScheduler.RemoveJobs | backend/src/services/scheduler.ts:96-101 | the remove loop leaves the queue without that workflow's jobs in the given states |
| Scheduler.WorkflowScheduler.ScheduleWorkflow | backend/src/services/scheduler.ts:88-125 | the workflow's delayed and waiting jobs are removed, then the job for the next fire time is added; a parse failure adds nothing |
| Scheduler.WorkflowScheduler.UnscheduleWorkflow | backend/src/services/scheduler.ts:127-134 | the workflow's delayed, waiting and active jobs are removed |
| Scheduler.WorkflowScheduler.LoadScheduledWorkflows | backend/src/services/scheduler.ts:60-86 | each selected row with a non-empty cron expression is scheduled, in order; a failed query leaves the queue alone |
| Scheduler.WorkflowScheduler.ProcessJob | backend/src/services/scheduler.ts:21-31 | the worker runs the job's snapshot with no trigger data; the failure, if any, is the run's first error |
| Scheduler.ScheduleKeepsOthers | backend/src/services/scheduler.ts:94-101 | scheduling keeps every job of other workflows, and the workflow's own active, completed and failed jobs |
| Scheduler.SchedulePending | backend/src/services/scheduler.ts:94-124 | afterwards the workflow's only pending job is the one for the next fire time (present when its id was free), and there is none when the expression does not parse |
| Scheduler.ScheduleIdempotent | backend/src/services/scheduler.ts:88-125 | scheduling twice with the same arguments leaves the queue as scheduling once |
| Scheduler.UnscheduleRemoves | backend/src/services/scheduler.ts:127-134 | afterwards the workflow has no delayed, waiting or active job, and every other job is kept |
| Scheduler.LoadKeepsOthers | backend/src/services/scheduler.ts:69-80 | a reload leaves alone the jobs of every workflow it does not schedule |
| Scheduler.LoadAddsNoOther | backend/src/services/scheduler.ts:69-80 | a reload adds no job to a workflow it does not schedule: every job of such a workflow afterwards was there before |
| Scheduler.JobIdInjective | backend/src/services/scheduler.ts:117 | two job ids `${workflowId}-${runAt}` with times not before the epoch are equal only for the same workflow and time |
| Scheduler.LoadOwned | backend/src/services/scheduler.ts:69-80 | a reload keeps every id of the form `${workflowId}-${runAt}` with its own workflow |
| Scheduler.UnscheduleOwned | backend/src/services/scheduler.ts:127-134 | unscheduling keeps every such id with its own workflow |
| Scheduler.LoadRowCommute | backend/src/services/scheduler.ts:69-80 | the rows of two different workflows give the same queue in either order |
| Scheduler.LoadIdempotent | backend/src/services/scheduler.ts:60-86 | two reloads at the same instant leave the queue as one reload |
| Scheduler.LoadPending | backend/src/services/scheduler.ts:69-80 | after a reload, a scheduled workflow's only pending job is the one for its next fire time |
| Assistant.FindBlock | backend/src/services/claude.ts:79 | the block runs from the first opening tag to the first closing tag after it, and no block means no closing tag follows any opening tag |
| Assistant.FirstText | backend/src/services/claude.ts:73-74 | the result is the first content block's text, or `''` for a block that is not text; reading a missing block throws |
| Assistant.Respond | backend/src/services/claude.ts:76-101 | with no block, or a block that does not parse, the message is the reply and the workflow is `null`; with a block that parses, the workflow is the parsed value and the message is the reply with the block cut out and trimmed, or the whole reply when that is empty; more info is asked for exactly when there is no truthy workflow and the reply asks |
| Assistant.ProcessWorkflowRequest | backend/src/services/claude.ts:58-106 | a failed call or empty content gives the one generic error, and otherwise the response built from the first block's text |
| Assistant.GenerateWorkflowFromDescription | backend/src/services/claude.ts:108-128 | call errors propagate; no block throws `Could not generate workflow from description`; otherwise the result is the parse of the block, its error included, and a result is always well formed |
| Assistant.FindBlockOf | backend/src/services/claude.ts:79-84 | a block placed after text without `<` is found where it was put, and cutting it leaves the text around it |
| Assistant.StringifyTrimmed | backend/src/services/claude.ts:83 | trimming a serialised value changes nothing |
| Assistant.RespondRoundTrip | backend/src/services/claude.ts:76-101 | a reply carrying a serialised workflow gives back that workflow; the message is the trimmed text around the block, or the whole reply when that is empty |
| Assistant.GenerateRoundTrip | backend/src/services/claude.ts:119-125 | generating from such a reply returns that workflow |
| Assistant.GenerateAgreesWithProcess | backend/src/services/claude.ts:79-83 | whenever generation returns a workflow, the chat response for the same reply carries that same workflow |

## Left out

- Persistence: the SQL of the execution record and the reload query are not modelled. The record is an object, and the query is a parameter that returns rows or an error.
- Timestamps: `startedAt`, `completedAt`, `completed_at` and the transient `running` status of a log entry are left out. They are clock readings.
- Executor.ExecuteHttpRequest: the 30-second timeout and axios's handling of headers and bodies belong to the HTTP service parameter.
- Executor.ExecuteSendEmail: the `from` address and the transport settings come from the environment, so they are not modelled.
- Executor.ExecuteTransformData: `expression` and the `context` argument are read but never used, so they are not modelled.
- Executor.DestructureError: the message approximates the runtime's TypeError text.
- Error messages of `JSON.parse` are abstract constants, not the runtime's exact text.
- Json.Parse: numbers are integers only. Fractions, exponents and floating-point formatting are left out.
- Json.Parse: the runtime moves integer-like keys of an object to the front; the model keeps insertion order.
- Json.ParseEscape: a lone surrogate escape, such as `\uDC00` or `\uD800` without a low surrogate after it, is rejected. `JSON.parse` accepts it, but a Dafny character is a Unicode scalar value and cannot hold a lone surrogate.
- Text.ReplaceFirstSpec: it states the intended replace, which inserts the replacement as it is. The runtime expands `$$`, `$&`, `` $` `` and `$'` in it; that behaviour is `Text.ReplaceFirstAsWritten`, and the substitution uses the intended form (see Findings).
- Template.SpliceIntoQuotedField: it is stated for a placeholder that is the whole text of the first field of a top-level object, with no other `{` in the serialisation. A field after other members, a field of a nested object and a second placeholder are not covered.
- Template.SplicedStringIsInvalid: it has the same restriction on position. It also covers only strings that are empty or do not start with a space, a comma or `}`; the runtime rejects those other strings too, but that is not proved.
- Template.SplicedObjectIsInvalid: it has the same restriction on position, and the same restriction on the first character of the object's first key.
- Template.SplicedScalarBecomesText: it has the same restriction on position.
- Template.Property: an inherited member, such as `constructor`, `toString` or a method of arrays and strings, is a function in the runtime and not a JSON value, so a path through it is left unresolved. A string's `length` counts Unicode scalar values, where the runtime counts UTF-16 code units.
- Assistant.Respond: `toLowerCase` is modelled on ASCII letters only.
- Assistant.RespondRoundTrip: it is stated only for text and workflows containing no `<`, so that nothing can look like a tag.
- Assistant: the request sent to the model (system prompt, message history, model name, token limit) is not modelled. The reply is a parameter.
- Scheduler.WorkflowScheduler.LoadScheduledWorkflows: one clock reading, `now`, is used for every row of a reload. The code reads the clock for each row.
- Scheduler.JobQueue.GetJobs: the order in which jobs come back is left unspecified.
- Scheduler.WorkflowScheduler.UnscheduleWorkflow: removing an active job always succeeds here. BullMQ's `job.remove()` throws for a job locked by a worker, and the code does not catch that.
- Scheduler.LoadIdempotent: it is stated for a clock not before the epoch, a cron parameter that fires after `now` (`FiresAfter`), rows of distinct workflows, and a queue whose ids are owned by their workflows (`OwnedIds`; `LoadOwned` and `UnscheduleOwned` keep it). Without these, `x` at −5 and `x-` at 5 share the id `x--5`.
- Scheduler: the queue store never fails, so a Redis error path is not modelled. Neither are BullMQ moving a job through active to completed or failed, and the worker's event logging.
- Scheduler: the singleton accessor, `start` and its five-minute `setInterval` reload are timers and process wiring, so they are not modelled.
- Concurrency: interleaved `await`s between scheduler calls, or between workers, are not modelled. Each method runs to completion.
- The services are pure functions of their request. Whatever an HTTP endpoint or mail server does between calls is outside the model.
- Logging (`console.log`/`console.error`) is not modelled.

## Findings

| source | as written | input that shows it | evidently intended | confidence | as-written member | corrected member |
|---|---|---|---|---|---|---|
| backend/src/services/executor.ts:136 | the serialised value is passed to `replace` as a replacement string, so `$$`, `$&`, `` $` `` and `$'` in it are expanded | a step result `"$&"` serialises to `"$&"`; the placeholder text is written back instead of the value | the serialised value inserted as it is (a replacement function would do that) | medium, not executed | Text.DollarAmpersandReinsertsMatch | Text.ReplaceFirstSpec |
