/** Opening the serial port, as `connect` does it in the controller and in
    the reader: open the port, then set the baudrate, and close the port
    again when the baudrate is refused. */
module Connection {
  import opened Errors
  import opened Bus

  /** The exchanges of one attempt to open `port` at `baudrate`, and the
      outcome they lead to. */
  predicate Opens(port: string, baudrate: int, t: seq<Exchange>, r: Outcome) {
    |t| >= 1 && t[0].request == OpenPort(port)
    && if !t[0].reply.ok then
         |t| == 1 && r == Fail(ConnectionError(OpenFailed))
       else
         |t| >= 2 && t[1].request == SetBaudRate(baudrate)
         && if t[1].reply.ok then
              |t| == 2 && r == Pass
            else
              |t| == 3 && t[2].request == ClosePort && r == Fail(ConnectionError(BaudRateFailed))
  }

  /** An attempt succeeds exactly when the port opened and took the
      baudrate; a port that refused the baudrate is closed again. */
  lemma OpensPassIff(port: string, baudrate: int, t: seq<Exchange>, r: Outcome)
    requires Opens(port, baudrate, t, r)
    ensures r == Pass <==> t[0].reply.ok && t[1].reply.ok
    ensures r.Fail? && |t| > 1 ==> Requests(t) == [OpenPort(port), SetBaudRate(baudrate), ClosePort]
  {
  }

  /** Opens the port, then sets the baudrate, closing the port again
      when the baudrate is refused. */
  method Open(bus: Bus, port: string, baudrate: int) returns (r: Outcome)
    modifies bus
    ensures Extends(old(bus.history), bus.history)
    ensures Opens(port, baudrate, Added(old(bus.history), bus.history), r)
  {
    var open := bus.Call(OpenPort(port));
    if !open.ok {
      return Fail(ConnectionError(OpenFailed));
    }
    var baud := bus.Call(SetBaudRate(baudrate));
    if !baud.ok {
      var _ := bus.Call(ClosePort);
      return Fail(ConnectionError(BaudRateFailed));
    }
    r := Pass;
  }
}
