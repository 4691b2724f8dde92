/** Values shared by the models of the individual source files. */
module Types {
  datatype Option<+T> = None | Some(value: T)

  /** What a node's data directory holds, as far as the supervisor can tell:
      no PG_VERSION, a directory without standby.signal, or one with it. */
  datatype PgData = Empty | Writable | Standby

  /** The `role` field of GET /status. */
  datatype PeerRole = PrimaryRole | StandbyRole | UnknownRole

  /** One fetchPeerStatus call: any transport, HTTP or decoding error, or a role. */
  datatype Answer = Unreachable | Role(role: PeerRole)

  /** PG_GUARD_SHUTDOWN_POLICY. */
  datatype Policy = RequireSwitchover | BestEffort | Force

  /** One pg_is_in_recovery() query. */
  datatype Recovery = InRecovery | NotInRecovery | QueryFailed
}
