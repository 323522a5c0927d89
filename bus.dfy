/** The serial bus seen from the SDK: every call the code makes into the
    bundled serial library (the port handler, a packet handler, a group
    sync read or write) is one request, and the library's answer is one
    reply. Which reply comes back is decided by an oracle that may look at
    everything exchanged so far, so the model covers every behaviour of
    the servos and of the transport. */
module Bus {
  import opened Errors

  /** `scs.COMM_SUCCESS`: the communication result of a transaction that
      went through. */
  const COMM_SUCCESS := 0

  /** The packet handler chosen for a servo family. */
  datatype Protocol = SmsSts | Hls | Scscl

  datatype Request =
    // the port handler
    | OpenPort(port: string)
    | SetBaudRate(baudrate: int)
    | ClosePort
    // single-servo transactions of a packet handler
    | Ping(id: int)
    | ReadPos(id: int)
    | Read1Byte(id: int, address: int)
    | Read2Byte(id: int, address: int)
    | Read4Byte(id: int, address: int)
    | Write1Byte(id: int, address: int, value: int)
    | Write2Byte(id: int, address: int, value: int)
    | WriteBlock(id: int, address: int, data: seq<int>)
    | RegWriteBlock(id: int, address: int, data: seq<int>)
    | UnlockEeprom(id: int)
    | LockEeprom(id: int)
    | ReOfsCal(id: int, position: int)
    // a group sync read: addParam, txRxPacket, isAvailable + getData, clearParam
    | GroupReadAdd(id: int)
    | GroupReadTxRx(address: int, length: int)
    | GroupReadData(id: int, address: int, length: int)
    | GroupReadClear
    // a group sync write: addParam, txPacket, clearParam
    | GroupWriteAdd(id: int, data: seq<int>)
    | GroupWriteTx(address: int, length: int)
    | GroupWriteClear
    // controller operations whose definitions are not part of this model
    | ReadVoltageOp(id: int)
    | WritePositionOp(positions: map<int, int>, speed: Option<int>, acceleration: Option<int>)
    | JointLimitCalibrationOp
    | ReadPositionsContinuousOp(frequency: real)

  /** What the library answers. Each call reads only the fields it
      returns: `ok` for the boolean answers (openPort, setBaudRate,
      addParam, isAvailable), `comm` and `error` for the communication
      result and the servo's error byte, `value` for a data word, `items`
      for a raw result tuple, `measure` for a voltage. */
  datatype Reply = Reply(ok: bool, comm: int, error: int, value: int, items: seq<int>, measure: real)

  datatype Exchange = Exchange(request: Request, reply: Reply)

  function Requests(t: seq<Exchange>): (rs: seq<Request>)
    ensures |rs| == |t|
    ensures forall i :: 0 <= i < |t| ==> rs[i] == t[i].request
  {
    seq(|t|, i requires 0 <= i < |t| => t[i].request)
  }

  /** `after` is `before` with more exchanges appended. */
  predicate Extends(before: seq<Exchange>, after: seq<Exchange>) {
    |before| <= |after| && after[..|before|] == before
  }

  /** The exchanges appended since `before`. */
  function Added(before: seq<Exchange>, after: seq<Exchange>): (t: seq<Exchange>)
    requires Extends(before, after)
    ensures after == before + t
  {
    after[|before|..]
  }

  lemma AddedSuffix(before: seq<Exchange>, after: seq<Exchange>, t: seq<Exchange>)
    requires after == before + t
    ensures Extends(before, after) && Added(before, after) == t
  {
  }

  /** A record `t` of what was added since `start` grows by what the next
      operation added. */
  lemma AddedAppend(start: seq<Exchange>, before: seq<Exchange>, after: seq<Exchange>, t: seq<Exchange>)
    requires before == start + t && Extends(before, after)
    ensures after == start + (t + Added(before, after))
  {
    assert after == start + t + Added(before, after);
  }

  /** A stretch appended in two parts. */
  lemma AddedPair(before: seq<Exchange>, after: seq<Exchange>, a: seq<Exchange>, b: seq<Exchange>)
    requires after == before + a + b
    ensures Extends(before, after) && Added(before, after) == a + b
  {
    assert after == before + (a + b);
  }

  /** A stretch appended in three parts. */
  lemma AddedTriple(before: seq<Exchange>, after: seq<Exchange>, a: seq<Exchange>, b: seq<Exchange>, c: seq<Exchange>)
    requires after == before + a + b + c
    ensures Extends(before, after) && Added(before, after) == a + b + c
  {
    assert after == before + (a + b + c);
  }

  /** What two consecutive stretches added, one after the other. */
  lemma AddedTwice(a: seq<Exchange>, b: seq<Exchange>, c: seq<Exchange>)
    requires Extends(a, b) && Extends(b, c)
    ensures Extends(a, c) && Added(a, c) == Added(a, b) + Added(b, c)
  {
    assert c == a + Added(a, b) + Added(b, c);
  }

  /** Two consecutive stretches, the first of `n` exchanges, read back
      from what they added together. */
  lemma AddedSplit(a: seq<Exchange>, b: seq<Exchange>, c: seq<Exchange>, n: nat)
    requires Extends(a, b) && Extends(b, c) && |Added(a, b)| == n
    ensures Extends(a, c) && |Added(a, c)| >= n
    ensures Added(a, c)[..n] == Added(a, b) && Added(a, c)[n..] == Added(b, c)
  {
    AddedTwice(a, b, c);
  }

  /** The requests of two consecutive stretches of a history, one after
      the other. */
  lemma RequestsTwice(a: seq<Exchange>, b: seq<Exchange>, c: seq<Exchange>)
    requires Extends(a, b) && Extends(b, c)
    ensures Extends(a, c) && Requests(Added(a, c)) == Requests(Added(a, b)) + Requests(Added(b, c))
  {
    AddedTwice(a, b, c);
  }

  /** The requests of two joined traces, one after the other. */
  lemma RequestsJoin(a: seq<Exchange>, b: seq<Exchange>)
    ensures Requests(a + b) == Requests(a) + Requests(b)
  {
    assert forall k :: 0 <= k < |a + b| ==> Requests(a + b)[k] == (Requests(a) + Requests(b))[k];
  }

  /** The exchanges of consecutive operations, one after the other. */
  function Concat(parts: seq<seq<Exchange>>): seq<Exchange>
  {
    if |parts| == 0 then [] else Concat(parts[..|parts| - 1]) + parts[|parts| - 1]
  }

  /** One more operation appends its exchanges. */
  lemma ConcatAppend(parts: seq<seq<Exchange>>, last: seq<Exchange>)
    ensures Concat(parts + [last]) == Concat(parts) + last
  {
    assert (parts + [last])[..|parts|] == parts;
  }
  /** Joining non-empty parts gives at least one exchange per part. */
  lemma {:induction false} ConcatAtLeast(parts: seq<seq<Exchange>>)
    requires forall j :: 0 <= j < |parts| ==> |parts[j]| >= 1
    ensures |Concat(parts)| >= |parts|
  {
    if |parts| > 0 {
      ConcatAtLeast(parts[..|parts| - 1]);
    }
  }


  /** One more operation on top of a record of earlier ones. */
  lemma ExtendParts(start: seq<Exchange>, parts: seq<seq<Exchange>>, before: seq<Exchange>, after: seq<Exchange>)
    requires before == start + Concat(parts) && Extends(before, after)
    ensures after == start + Concat(parts + [Added(before, after)])
  {
    ConcatAppend(parts, Added(before, after));
    assert after == start + (Concat(parts) + Added(before, after));
  }

  class Bus {
    /** Every exchange so far, oldest first. */
    var history: seq<Exchange>
    /** The servos and the transport: the reply to a request, given what
        was exchanged before it. */
    const oracle: (seq<Exchange>, Request) -> Reply

    constructor (oracle: (seq<Exchange>, Request) -> Reply)
      ensures history == [] && this.oracle == oracle
    {
      history := [];
      this.oracle := oracle;
    }

    /** One call into the serial library. */
    method Call(req: Request) returns (rep: Reply)
      modifies this
      ensures rep == oracle(old(history), req)
      ensures history == old(history) + [Exchange(req, rep)]
    {
      rep := oracle(history, req);
      history := history + [Exchange(req, rep)];
    }
  }
}
