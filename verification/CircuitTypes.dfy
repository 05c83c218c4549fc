/** Vocabulary shared by the two circuit breakers (app/resilience.py).  Times are whole clock ticks. */
module CircuitTypes {
  import opened Options

  datatype CircuitState = Closed | Open | HalfOpen
  datatype Transition = Transition(from: CircuitState, to: CircuitState)

  datatype Token = Token(uuid: nat)

  /** Where a permit was issued. */
  datatype Origin = Local | LocalFallback | Redis

  datatype Permit = Permit(state: CircuitState, version: Option<nat>, token: Option<Token>, origin: Origin)

  datatype Settings = Settings(threshold: nat, recovery: int, lease: int) {
    predicate Valid() { 1 <= threshold && 0 < recovery && 0 < lease }
  }

  datatype Snapshot = Snapshot(state: CircuitState, failures: nat, retryAfter: int)

  function Min(a: int, b: int): int { if a < b then a else b }

  function Max(a: int, b: int): int { if a < b then b else a }
}
