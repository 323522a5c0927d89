/** Exceptions raised by the servo SDK and its scripts, and the result
    types the model uses in place of raising them. */
module Errors {

  /** Why a ConnectionError is raised. */
  datatype ConnectionProblem =
    | NotConnected          // "Not connected. Call connect() first."
    | OpenFailed            // the port handler refused to open the port
    | BaudRateFailed        // the port handler refused the baudrate

  /** Why a CommunicationError is raised. */
  datatype CommunicationProblem =
    | ReadFailed(motor: int)           // single read: bad comm result
    | MotorFault(motor: int)           // single read: nonzero servo error byte
    | GroupReadFailed                  // group sync read transaction failed
    | CalibrationFailed                // some HLS offset calibration failed
    | SyncWriteAddFailed(motor: int)   // a motor could not be queued in a sync write
    | SyncWriteFailed                  // the sync write transaction failed
    | PingFailed(motor: int)
    | UnlockFailed
    | WriteIdFailed

  /** Why a ValueError is raised. */
  datatype ValueProblem =
    | InvalidMotorIdsFormat(input: string)   // parse_motor_ids
    | InvalidIntLiteral(literal: string)     // a bare int() on a bad field
    | UnsupportedServoType(servoType: string)
    | UnknownServoType(servoType: string)
    | CurrentIdOutOfRange(id: int)
    | NewIdOutOfRange(id: int)
    | SameIds
    | InvalidMode(mode: int)
    | TorqueNeedsHls

  /** The exceptions. The first three are the package's own
      PortNotFoundError, ConnectionError and CommunicationError, all
      subclasses of ServoReaderError; the rest are Python built-ins. */
  datatype Error =
    | PortNotFoundError
    | ConnectionError(connection: ConnectionProblem)
    | CommunicationError(communication: CommunicationProblem)
    | ValueError(problem: ValueProblem)
    | RuntimeError
    | KeyError
    | ZeroDivisionError
    | TypeError

  /** `except ServoReaderError` catches exactly these. */
  predicate IsServoReaderError(e: Error) {
    e.PortNotFoundError? || e.ConnectionError? || e.CommunicationError?
  }

  datatype Option<+T> = None | Some(value: T) {
    function GetOr(default: T): T {
      match this
      case Some(v) => v
      case None => default
    }
  }

  /** A value, or the exception raised instead of returning it. */
  datatype Result<+T> = Ok(value: T) | Err(error: Error)

  /** Normal completion, or the exception raised. */
  datatype Outcome = Pass | Fail(error: Error)
}
