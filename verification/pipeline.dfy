/** internal/pipeline/outcome.go: a handler's answer. */
module Pipeline {
  datatype Outcome = Unknown | Done | Retry | Poison | Fatal
}
