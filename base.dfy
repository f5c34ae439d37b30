/** Shared value types of the consent service: identifiers, scopes and the
    optional / pass-fail wrappers the Java code expresses with Optional and
    exceptions. */
module Base {

  /** A value that may be absent (java.util.Optional, or a null return). */
  datatype Option<+T> = None | Some(value: T)

  /** Pass, or a failure carrying the error the operation would throw. */
  datatype Outcome<+E> = Pass | Fail(error: E)

  /** A 128-bit UUID, kept abstract: the model only compares UUIDs for equality. */
  newtype Uuid = x: int | 0 <= x < 0x1_0000_0000_0000_0000_0000_0000_0000_0000

  type AccountId = Uuid
  type ClientId = Uuid
  /** The client-specific pseudonymous subject of an account. */
  type AccountSub = Uuid

  /** An OAuth2 scope name. */
  type Scope = string

  /** A point in time (java.time.Instant), as an opaque ordered number. */
  type Timestamp = int
}
