/**
 * Identifiers, opaque values and the optional-value wrapper shared by every module.
 * Record identifiers are the store's auto-increment primary keys.
 */
module Base {

  type UserId = nat
  type TournamentId = nat
  type MatchId = nat
  type ScoreId = nat
  type DisputeId = nat
  type EvidenceId = nat

  /** A timestamp or a calendar date, supplied by the caller and never interpreted. */
  type Time = int

  /** A reference to an uploaded evidence file; the file itself is never read. */
  type FileRef = string

  /** A nullable value (a nullable foreign key, an optional argument). */
  datatype Option<+T> = None | Some(value: T) {
    function GetOr(default: T): T {
      match this
      case Some(v) => v
      case None => default
    }
  }
}

/**
 * The error kinds the services raise (core/exceptions.py); every service call
 * returns either `Ok` with its value or `Err` with the kind of the exception.
 */
module Exceptions {

  datatype ErrorKind =
    | ValidationError
    | PermissionDenied
    | NotFound
    | InvalidState
    | ScoreConflict
    | DisputeError
    | ValueError  // Python's ValueError, raised by the user manager for an empty username

  datatype Result<+T> = Ok(value: T) | Err(error: ErrorKind)
}
