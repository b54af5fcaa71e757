/** The two independent axes of the server state protocol, and the states tracking starts from. */
module ServerStates {
  import opened Wrappers

  datatype Health = Ok | Warning | Error | Unknown

  datatype Readiness = Initializing | Indexing | Ready | Unknown

  datatype ServerState = ServerState(health: Health, readiness: Readiness, message: Option<string>)

  /** The state right after `initialize`: nothing observed, nothing answerable yet. */
  const INITIALIZING := ServerState(Health.Unknown, Readiness.Initializing, None)

  /** Neither axis can be observed. Without a mapping the state never moves from here. */
  const UNOBSERVED := ServerState(Health.Unknown, Readiness.Unknown, None)

  /** Whether two states agree on both axes; `message` is for humans only. */
  predicate SameAxes(a: ServerState, b: ServerState) {
    a.health == b.health && a.readiness == b.readiness
  }

  /** The three rows of the decision table, on the axes; health is looked at first. */
  predicate Answerable(s: ServerState) {
    s.health != Health.Error && (s.readiness == Ready || s.readiness == Readiness.Unknown)
  }

  predicate Loading(s: ServerState) {
    s.health != Health.Error && (s.readiness == Initializing || s.readiness == Indexing)
  }

  predicate Failing(s: ServerState) { s.health == Health.Error }
}
