/** The group sync read that `read_positions` performs in the controller,
    in the reader and in the leader-reading script: queue every motor,
    run one transaction, then pick up each motor's data word. */
module SyncRead {
  import opened Errors
  import opened Bus

  /** The extraction loop as a fold over the motors in request order: a
      motor whose data is available gets its data word; a motor listed
      twice keeps the last word that was available. */
  function Collect(ids: seq<int>, data: seq<Exchange>): map<int, int>
    requires |ids| == |data|
  {
    if |ids| == 0 then map[]
    else
      var n := |ids| - 1;
      var m := Collect(ids[..n], data[..n]);
      if data[n].reply.ok then m[ids[n] := data[n].reply.value] else m
  }

  /** A motor is in the result exactly when it was requested and its data
      was available at least once. */
  lemma {:induction false} CollectKeys(ids: seq<int>, data: seq<Exchange>, k: int)
    requires |ids| == |data|
    ensures k in Collect(ids, data) <==> exists i :: 0 <= i < |ids| && ids[i] == k && data[i].reply.ok
  {
    if |ids| > 0 {
      var n := |ids| - 1;
      CollectKeys(ids[..n], data[..n], k);
      if exists i :: 0 <= i < n && ids[..n][i] == k && data[..n][i].reply.ok {
        var i :| 0 <= i < n && ids[..n][i] == k && data[..n][i].reply.ok;
        assert ids[i] == k && data[i].reply.ok;
      }
      if exists i :: 0 <= i < |ids| && ids[i] == k && data[i].reply.ok {
        var i :| 0 <= i < |ids| && ids[i] == k && data[i].reply.ok;
        if i < n {
          assert ids[..n][i] == k && data[..n][i].reply.ok;
        }
      }
    }
  }

  /** The result holds only requested motors. */
  lemma CollectKeysRequested(ids: seq<int>, data: seq<Exchange>)
    requires |ids| == |data|
    ensures forall k :: k in Collect(ids, data) ==> k in ids
  {
    forall k | k in Collect(ids, data) ensures k in ids {
      CollectKeys(ids, data, k);
    }
  }

  /** A motor's value is the data word of its last available reading. */
  lemma {:induction false} CollectValue(ids: seq<int>, data: seq<Exchange>, i: int)
    requires |ids| == |data| && 0 <= i < |ids| && data[i].reply.ok
    requires forall j :: i < j < |ids| && ids[j] == ids[i] ==> !data[j].reply.ok
    ensures ids[i] in Collect(ids, data) && Collect(ids, data)[ids[i]] == data[i].reply.value
  {
    var n := |ids| - 1;
    if i < n {
      CollectValue(ids[..n], data[..n], i);
    }
  }

  /** What `read_position` makes of the answer to one ReadPos: a failed
      transaction and a nonzero servo error byte both raise
      CommunicationError; otherwise the position. */
  function ReadPosOutcome(id: int, reply: Reply): (r: Result<int>)
    ensures r.Ok? <==> reply.comm == COMM_SUCCESS && reply.error == 0
    ensures r.Ok? ==> r.value == reply.value
    ensures reply.comm != COMM_SUCCESS ==> r == Err(CommunicationError(ReadFailed(id)))
  {
    if reply.comm != COMM_SUCCESS then Err(CommunicationError(ReadFailed(id)))
    else if reply.error != 0 then Err(CommunicationError(MotorFault(id)))
    else Ok(reply.value)
  }

  /** One group read for `ids` of `length` bytes at `address`: an addParam
      per motor, the transaction, then, only when the transaction went
      through, an isAvailable/getData per motor; clearParam comes last in
      both cases. */
  predicate IsGroupRead(ids: seq<int>, address: int, length: int, t: seq<Exchange>) {
    |t| >= |ids| + 2
    && (forall j :: 0 <= j < |ids| ==> t[j].request == GroupReadAdd(ids[j]))
    && t[|ids|].request == GroupReadTxRx(address, length)
    && t[|t| - 1].request == GroupReadClear
    && if t[|ids|].reply.comm == COMM_SUCCESS then
         |t| == 2 * |ids| + 2
         && forall j :: 0 <= j < |ids| ==> t[|ids| + 1 + j].request == GroupReadData(ids[j], address, length)
       else
         |t| == |ids| + 2
  }

  /** The transaction of a group read went through. */
  predicate TransactionOk(ids: seq<int>, t: seq<Exchange>)
    requires |t| > |ids|
  {
    t[|ids|].reply.comm == COMM_SUCCESS
  }

  /** The positions a successful group read delivers. */
  function Positions(ids: seq<int>, address: int, length: int, t: seq<Exchange>): map<int, int>
    requires IsGroupRead(ids, address, length, t) && TransactionOk(ids, t)
  {
    Collect(ids, t[|ids| + 1..2 * |ids| + 1])
  }

  /** What `read_positions` makes of a group read: the positions, or
      CommunicationError when the transaction failed. */
  function GroupReadOutcome(ids: seq<int>, address: int, length: int, t: seq<Exchange>): (r: Result<map<int, int>>)
    requires IsGroupRead(ids, address, length, t)
    ensures r.Ok? <==> TransactionOk(ids, t)
    ensures r.Ok? ==> forall k :: k in r.value ==> k in ids
    ensures r.Err? ==> r.error == CommunicationError(GroupReadFailed)
  {
    if TransactionOk(ids, t) then
      PositionsRequested(ids, address, length, t);
      Ok(Positions(ids, address, length, t))
    else Err(CommunicationError(GroupReadFailed))
  }

  /** The positions of a successful group read are those of requested
      motors whose data was available. */
  lemma PositionsRequested(ids: seq<int>, address: int, length: int, t: seq<Exchange>)
    requires IsGroupRead(ids, address, length, t) && TransactionOk(ids, t)
    ensures forall k :: k in Positions(ids, address, length, t) ==> k in ids
    ensures forall k :: k in Positions(ids, address, length, t) <==>
              exists i :: 0 <= i < |ids| && ids[i] == k && t[|ids| + 1 + i].reply.ok
  {
    var data := t[|ids| + 1..2 * |ids| + 1];
    CollectKeysRequested(ids, data);
    forall k ensures k in Positions(ids, address, length, t) <==>
                     exists i :: 0 <= i < |ids| && ids[i] == k && t[|ids| + 1 + i].reply.ok
    {
      CollectKeys(ids, data, k);
      if exists i :: 0 <= i < |ids| && ids[i] == k && t[|ids| + 1 + i].reply.ok {
        var i :| 0 <= i < |ids| && ids[i] == k && t[|ids| + 1 + i].reply.ok;
        assert data[i] == t[|ids| + 1 + i];
      }
      if exists i :: 0 <= i < |ids| && ids[i] == k && data[i].reply.ok {
        var i :| 0 <= i < |ids| && ids[i] == k && data[i].reply.ok;
        assert data[i] == t[|ids| + 1 + i];
      }
    }
  }

  /** The addParam loop: queues every motor, in order. */
  method QueueAll(bus: Bus, ids: seq<int>)
    modifies bus
    ensures Extends(old(bus.history), bus.history)
    ensures var t := Added(old(bus.history), bus.history);
              |t| == |ids| && forall k :: 0 <= k < |ids| ==> t[k].request == GroupReadAdd(ids[k])
  {
    ghost var t: seq<Exchange> := [];
    for j := 0 to |ids|
      invariant bus.history == old(bus.history) + t
      invariant |t| == j
      invariant forall k :: 0 <= k < j ==> t[k].request == GroupReadAdd(ids[k])
    {
      var added := bus.Call(GroupReadAdd(ids[j]));
      t := t + [Exchange(GroupReadAdd(ids[j]), added)];
    }
  }

  /** The extraction loop: asks for every motor's data, in order, and
      keeps the available words. */
  method FetchAll(bus: Bus, ids: seq<int>, address: int, length: int) returns (positions: map<int, int>)
    modifies bus
    ensures Extends(old(bus.history), bus.history)
    ensures var t := Added(old(bus.history), bus.history);
              |t| == |ids|
              && (forall k :: 0 <= k < |ids| ==> t[k].request == GroupReadData(ids[k], address, length))
              && positions == Collect(ids, t)
  {
    ghost var t: seq<Exchange> := [];
    positions := map[];
    for j := 0 to |ids|
      invariant bus.history == old(bus.history) + t
      invariant |t| == j
      invariant forall k :: 0 <= k < j ==> t[k].request == GroupReadData(ids[k], address, length)
      invariant positions == Collect(ids[..j], t)
    {
      var data := bus.Call(GroupReadData(ids[j], address, length));
      ghost var t0 := t;
      t := t0 + [Exchange(GroupReadData(ids[j], address, length), data)];
      assert ids[..j + 1][..j] == ids[..j];
      assert t[..j] == t0;
      if data.ok {
        positions := positions[ids[j] := data.value];
      }
    }
    assert ids[..|ids|] == ids;
  }

  /** A stretch of history appended in four parts. */
  lemma AddedParts(before: seq<Exchange>, after: seq<Exchange>, a: seq<Exchange>, b: seq<Exchange>,
                   c: seq<Exchange>, d: seq<Exchange>)
    requires after == before + a + b + c + d
    ensures Extends(before, after) && Added(before, after) == a + b + c + d
  {
    assert after == before + (a + b + c + d);
    AddedSuffix(before, after, a + b + c + d);
  }

  /** Where each part of a completed group read sits in its trace. */
  lemma CompletedLayout(t: seq<Exchange>, adds: seq<Exchange>, tx: Exchange, data: seq<Exchange>, clear: Exchange)
    requires t == adds + [tx] + data + [clear]
    ensures |t| == |adds| + |data| + 2
    ensures forall k :: 0 <= k < |adds| ==> t[k] == adds[k]
    ensures t[|adds|] == tx && t[|t| - 1] == clear
    ensures t[|adds| + 1..|t| - 1] == data
  {
    var head := adds + [tx];
    var body := head + data;
    assert t[..|body|] == body;
    assert body[..|head|] == head;
    assert body[|head|..] == data;
    assert t[|adds| + 1..|t| - 1] == body[|head|..];
  }

  /** A group read whose transaction went through, put together from its
      parts: the positions are those its data requests collected. */
  lemma CompletedGroupRead(ids: seq<int>, address: int, length: int, t: seq<Exchange>,
                           adds: seq<Exchange>, tx: Exchange, data: seq<Exchange>, clear: Exchange)
    requires |adds| == |ids| && forall k :: 0 <= k < |ids| ==> adds[k].request == GroupReadAdd(ids[k])
    requires tx.request == GroupReadTxRx(address, length) && tx.reply.comm == COMM_SUCCESS
    requires |data| == |ids| && forall k :: 0 <= k < |ids| ==> data[k].request == GroupReadData(ids[k], address, length)
    requires clear.request == GroupReadClear
    requires t == adds + [tx] + data + [clear]
    ensures IsGroupRead(ids, address, length, t) && TransactionOk(ids, t)
    ensures Positions(ids, address, length, t) == Collect(ids, data)
  {
    CompletedLayout(t, adds, tx, data, clear);
    assert |t| - 1 == 2 * |ids| + 1;
    CompletedShape(ids, address, length, t, data);
  }

  /** A trace laid out as a completed group read is one. */
  lemma CompletedShape(ids: seq<int>, address: int, length: int, t: seq<Exchange>, data: seq<Exchange>)
    requires |t| == 2 * |ids| + 2 && |data| == |ids|
    requires forall k :: 0 <= k < |ids| ==> t[k].request == GroupReadAdd(ids[k])
    requires t[|ids|].request == GroupReadTxRx(address, length) && t[|ids|].reply.comm == COMM_SUCCESS
    requires t[|t| - 1].request == GroupReadClear
    requires t[|ids| + 1..2 * |ids| + 1] == data
    requires forall k :: 0 <= k < |ids| ==> data[k].request == GroupReadData(ids[k], address, length)
    ensures IsGroupRead(ids, address, length, t) && TransactionOk(ids, t)
    ensures Positions(ids, address, length, t) == Collect(ids, data)
  {
    forall k | 0 <= k < |ids| ensures t[|ids| + 1 + k].request == GroupReadData(ids[k], address, length) {
      assert t[|ids| + 1 + k] == data[k];
    }
  }

  /** A group read whose transaction failed: parameters, transaction,
      clearing, and nothing else. */
  lemma FailedGroupRead(ids: seq<int>, address: int, length: int, t: seq<Exchange>,
                        adds: seq<Exchange>, tx: Exchange, clear: Exchange)
    requires |adds| == |ids| && forall k :: 0 <= k < |ids| ==> adds[k].request == GroupReadAdd(ids[k])
    requires tx.request == GroupReadTxRx(address, length) && tx.reply.comm != COMM_SUCCESS
    requires clear.request == GroupReadClear
    requires t == adds + [tx] + [clear]
    ensures IsGroupRead(ids, address, length, t) && !TransactionOk(ids, t)
  {
    assert t[|ids|] == tx && t[|t| - 1] == clear;
    forall k | 0 <= k < |ids| ensures t[k] == adds[k] {
    }
  }

  /** Runs one group read on `bus`. `ok` is false when the transaction
      failed, and then no position is delivered. */
  method GroupRead(bus: Bus, ids: seq<int>, address: int, length: int) returns (ok: bool, positions: map<int, int>)
    modifies bus
    ensures Extends(old(bus.history), bus.history)
    ensures IsGroupRead(ids, address, length, Added(old(bus.history), bus.history))
    ensures ok == TransactionOk(ids, Added(old(bus.history), bus.history))
    ensures ok ==> positions == Positions(ids, address, length, Added(old(bus.history), bus.history))
    ensures !ok ==> positions == map[]
    ensures forall k :: k in positions ==> k in ids
  {
    ghost var h0 := bus.history;
    QueueAll(bus, ids);
    ghost var adds := Added(h0, bus.history);
    var tx := bus.Call(GroupReadTxRx(address, length));
    ghost var sent := Exchange(GroupReadTxRx(address, length), tx);
    if tx.comm != COMM_SUCCESS {
      var cleared := bus.Call(GroupReadClear);
      ok, positions := false, map[];
      ghost var clear := Exchange(GroupReadClear, cleared);
      AddedParts(h0, bus.history, adds, [sent], [], [clear]);
      FailedGroupRead(ids, address, length, Added(h0, bus.history), adds, sent, clear);
      return;
    }
    ghost var h2 := bus.history;
    positions := FetchAll(bus, ids, address, length);
    ghost var data := Added(h2, bus.history);
    var cleared := bus.Call(GroupReadClear);
    ok := true;
    ghost var clear := Exchange(GroupReadClear, cleared);
    AddedParts(h0, bus.history, adds, [sent], data, [clear]);
    CompletedGroupRead(ids, address, length, Added(h0, bus.history), adds, sent, data, clear);
    CollectKeysRequested(ids, data);
  }
}
