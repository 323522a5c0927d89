/** How the body of a command-line `main` ends, and the status the process
    exits with once `main`'s exception handlers have run. Both command-line
    front ends handle errors the same way. */
module Endings {
  import opened Errors

  /** How the body of `main`'s try block ends. */
  datatype Ending =
    | Returned
    | SystemExit(code: int)   // sys.exit inside the try: not an Exception, so no handler catches it
    | Raised(error: Error)
    | Interrupted             // KeyboardInterrupt

  /** A ServoReaderError or any other exception exits with 1, a
      KeyboardInterrupt is reported and `main` returns. */
  function ExitStatus(e: Ending): int {
    match e
    case Returned => 0
    case SystemExit(code) => code
    case Raised(_) => 1
    case Interrupted => 0
  }

  /** Stopping with Ctrl+C is not a failure; every exception is. */
  lemma ExitStatusOfEnding(e: Ending)
    requires !e.SystemExit?
    ensures ExitStatus(e) == 0 <==> !e.Raised?
    ensures e.Raised? ==> ExitStatus(e) == 1
  {
  }

  /** The ending of a body that completed or raised. */
  function EndingOf(r: Outcome): (e: Ending)
    ensures e == Returned <==> r == Pass
    ensures r.Fail? ==> e == Raised(r.error)
  {
    if r == Pass then Returned else Raised(r.error)
  }
}
