/** The status of a workflow run (pkg/tasks/engine.go). */
module Statuses {

  datatype RunStatus = Running | Canceling | Completed | Failed | Canceled | Terminated | TimedOut | ContinuedAsNew

  predicate IsTerminal(s: RunStatus) { !s.Running? && !s.Canceling? }
}
