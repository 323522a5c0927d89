/** The utility module's position reader: one two-byte read of the
    present position per motor, keeping the motors whose read went
    through. With a packet handler whose `read2ByteTxRx` takes the port
    handler first, as the call is written, it never raises; a motor whose
    read failed is just missing.
    Its port search is `PortDiscovery.FindPort`. */
module FeetechUtils {
  import opened Errors
  import opened Bus

  /** PRESENT_POSITION. */
  const PRESENT_POSITION := 56

  /** A raw `read2ByteTxRx` result is kept when it has at least a value
      and a communication result, and the communication went through. */
  predicate Accepted(items: seq<int>) {
    |items| >= 2 && items[1] == COMM_SUCCESS
  }

  /** The `for` loop as a fold over the motors in request order: an
      accepted read stores its first element; a motor listed twice keeps
      its last accepted value. */
  function Readings(ids: seq<int>, t: seq<Exchange>): map<int, int>
    requires |ids| == |t|
  {
    if |ids| == 0 then map[]
    else
      var n := |ids| - 1;
      var m := Readings(ids[..n], t[..n]);
      if Accepted(t[n].reply.items) then m[ids[n] := t[n].reply.items[0]] else m
  }

  /** A motor has a position exactly when it was requested and one of its
      reads was accepted. */
  lemma {:induction false} ReadingsKeys(ids: seq<int>, t: seq<Exchange>, k: int)
    requires |ids| == |t|
    ensures k in Readings(ids, t) <==> exists i :: 0 <= i < |ids| && ids[i] == k && Accepted(t[i].reply.items)
  {
    if |ids| > 0 {
      var n := |ids| - 1;
      ReadingsKeys(ids[..n], t[..n], k);
      if exists i :: 0 <= i < n && ids[..n][i] == k && Accepted(t[..n][i].reply.items) {
        var i :| 0 <= i < n && ids[..n][i] == k && Accepted(t[..n][i].reply.items);
        assert ids[i] == k && Accepted(t[i].reply.items);
      }
      if exists i :: 0 <= i < |ids| && ids[i] == k && Accepted(t[i].reply.items) {
        var i :| 0 <= i < |ids| && ids[i] == k && Accepted(t[i].reply.items);
        if i < n {
          assert ids[..n][i] == k && Accepted(t[..n][i].reply.items);
        }
      }
    }
  }

  /** A motor's position is the first element of its last accepted read. */
  lemma {:induction false} ReadingsValue(ids: seq<int>, t: seq<Exchange>, i: int)
    requires |ids| == |t| && 0 <= i < |ids| && Accepted(t[i].reply.items)
    requires forall j :: i < j < |ids| && ids[j] == ids[i] ==> !Accepted(t[j].reply.items)
    ensures ids[i] in Readings(ids, t) && Readings(ids, t)[ids[i]] == t[i].reply.items[0]
  {
    var n := |ids| - 1;
    if i < n {
      ReadingsValue(ids[..n], t[..n], i);
    }
  }

  /** `read_positions`: reads every motor once, in order, and never
      raises; the result holds requested motors only, and none at all when
      no motor is requested. */
  method ReadPositions(bus: Bus, ids: seq<int>) returns (positions: map<int, int>)
    modifies bus
    ensures Extends(old(bus.history), bus.history)
    ensures var t := Added(old(bus.history), bus.history);
            |t| == |ids|
            && (forall i :: 0 <= i < |ids| ==> t[i].request == Read2Byte(ids[i], PRESENT_POSITION))
            && positions == Readings(ids, t)
    ensures forall k :: k in positions ==> k in ids
    ensures |ids| == 0 ==> positions == map[]
  {
    ghost var t: seq<Exchange> := [];
    positions := map[];
    for j := 0 to |ids|
      invariant bus.history == old(bus.history) + t
      invariant |t| == j
      invariant forall i :: 0 <= i < j ==> t[i].request == Read2Byte(ids[i], PRESENT_POSITION)
      invariant positions == Readings(ids[..j], t)
    {
      var result := bus.Call(Read2Byte(ids[j], PRESENT_POSITION));
      ghost var t0 := t;
      t := t0 + [Exchange(Read2Byte(ids[j], PRESENT_POSITION), result)];
      assert ids[..j + 1][..j] == ids[..j];
      assert t[..j] == t0;
      if |result.items| >= 2 {
        var position := result.items[0];
        if result.items[1] == COMM_SUCCESS {
          positions := positions[ids[j] := position];
        }
      }
    }
    assert ids[..|ids|] == ids;
    forall k | k in positions ensures k in ids {
      ReadingsKeys(ids, t, k);
    }
  }
}
