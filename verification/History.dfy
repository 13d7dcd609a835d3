/** The event-sourced history of one workflow run: what the server appends and
    what the worker replays (pkg/tasks/durable.go, pkg/tasks/engine.go,
    pkg/tasks/engine_commands.go). Payloads are opaque. */
module History {
  import opened Basics
  import Retry

  type Payload = string

  /** What one activity call asks for. `input` is absent when the arguments do
      not encode. */
  datatype ActivitySpec = ActivitySpec(
    activityType: string,
    input: Option<Payload>,
    taskQueue: string,
    startToCloseMs: int,
    heartbeatMs: int,
    retry: Option<Retry.WirePolicy>)

  datatype ChildSpec = ChildSpec(workflowType: string, workflowId: string, taskQueue: string, input: Payload)

  datatype ChildRef = ChildRef(workflowId: string, runId: string)

  /** How a run ended. */
  datatype Closing =
    | CompletedWith(result: Payload)
    | FailedWith(failure: Retry.Failure)
    | CanceledBy(reason: Payload)
    | TerminatedBy(reason: Payload)
    | ContinuedAs(newRun: string)

  datatype Event =
    | WorkflowStarted(input: Payload)
    | ActivityScheduled(seq_: nat, spec: ActivitySpec)
    | ActivityStarted(seq_: nat, attempt: nat)
    | ActivityCompleted(seq_: nat, result: Payload)
    | ActivityFailed(seq_: nat, failure: Retry.Failure)
    | ChildStarted(seq_: nat, child: ChildRef)
    | Signaled(name: string, payload: Payload)
    | CancelRequested(reason: Payload)
    | Closed(how: Closing)

  /** A stored event and the id its key carries. */
  datatype HistoryEvent = HistoryEvent(id: nat, ev: Event)

  /** What awaiting a call yields. */
  datatype Outcome =
    | Result(result: Payload)
    | Error(failure: Retry.Failure)
    | Child(child: ChildRef)

  /** What the worker sends back for a workflow task. */
  datatype Command =
    | CompleteWorkflow(result: Payload)
    | FailWorkflow(failure: Retry.Failure)
    | ScheduleActivity(seq_: nat, spec: ActivitySpec)
    | AckCanceled(reason: Payload)
    | ContinueAsNew(input: Payload)
    | StartChild(seq_: nat, child: ChildSpec)
}
