/** The paced reading loops of the reader's `read_positions_continuous`
    and of the teleoperation scripts: each iteration does one group read,
    hands the reading on, then sleeps for what is left of the period. A
    failed read raises out of the loop; KeyboardInterrupt ends it between
    iterations. */
module ReadLoop {
  import opened Errors
  import opened Bus
  import opened SyncRead
  import opened Pacing

  /** A reading loop that ran to its interruption or to a failed read:
      one group read per iteration, each successful reading delivered as a
      frame and followed by the sleep that keeps the period; a failed read
      ends the loop with its CommunicationError and no sleep. The
      iterations that complete before KeyboardInterrupt are those with an
      `elapsed` entry. */
  predicate PacedRun(ids: seq<int>, address: int, length: int, loopTime: real, elapsed: seq<real>, t: seq<Exchange>, r: Outcome,
                     frames: seq<map<int, int>>, sleeps: seq<Option<real>>, rounds: seq<seq<Exchange>>) {
    t == Concat(rounds)
    && GroupReadsOf(ids, address, length, rounds) && |frames| <= |rounds| && Delivers(ids, address, length, rounds, frames)
    && |sleeps| == |frames| && PacedBy(loopTime, elapsed, sleeps)
    && if r == Pass then
         |rounds| == |frames| == |elapsed|
       else
         |rounds| == |frames| + 1 && |frames| < |elapsed| && r == Fail(CommunicationError(GroupReadFailed))
         && GroupReadOutcome(ids, address, length, rounds[|frames|]).Err?
  }

  /** Each round is one group read of `length` bytes at `address` for `ids`. */
  predicate GroupReadsOf(ids: seq<int>, address: int, length: int, rounds: seq<seq<Exchange>>) {
    forall i :: 0 <= i < |rounds| ==> IsGroupRead(ids, address, length, rounds[i])
  }

  /** The first |frames| rounds succeeded and delivered the frames. */
  predicate Delivers(ids: seq<int>, address: int, length: int, rounds: seq<seq<Exchange>>, frames: seq<map<int, int>>)
    requires GroupReadsOf(ids, address, length, rounds) && |frames| <= |rounds|
  {
    forall i :: 0 <= i < |frames| ==>
      GroupReadOutcome(ids, address, length, rounds[i]) == Ok(frames[i])
  }

  /** The state of a reading loop between iterations: each iteration so
      far read once, delivered its frame and slept. */
  predicate Progress(ids: seq<int>, address: int, length: int, loopTime: real, elapsed: seq<real>, rounds: seq<seq<Exchange>>,
                     frames: seq<map<int, int>>, sleeps: seq<Option<real>>) {
    GroupReadsOf(ids, address, length, rounds) && |rounds| == |frames| == |sleeps| <= |elapsed|
    && Delivers(ids, address, length, rounds, frames) && PacedBy(loopTime, elapsed, sleeps)
  }

  /** A successful read delivers its frame and is followed by the sleep
      for that iteration. */
  lemma RoundDelivers(ids: seq<int>, address: int, length: int, loopTime: real, elapsed: seq<real>, rounds: seq<seq<Exchange>>,
                      frames: seq<map<int, int>>, sleeps: seq<Option<real>>, read: seq<Exchange>)
    requires Progress(ids, address, length, loopTime, elapsed, rounds, frames, sleeps) && |frames| < |elapsed|
    requires IsGroupRead(ids, address, length, read)
    requires GroupReadOutcome(ids, address, length, read).Ok?
    ensures Progress(ids, address, length, loopTime, elapsed, rounds + [read],
                     frames + [GroupReadOutcome(ids, address, length, read).value],
                     sleeps + [SleepDuration(loopTime, elapsed[|frames|])])
  {
    var more := rounds + [read];
    assert forall i :: 0 <= i < |rounds| ==> more[i] == rounds[i];
    assert more[|rounds|] == read;
  }

  /** A failed read ends the run with its CommunicationError. */
  lemma RoundFails(ids: seq<int>, address: int, length: int, loopTime: real, elapsed: seq<real>, rounds: seq<seq<Exchange>>,
                   frames: seq<map<int, int>>, sleeps: seq<Option<real>>, read: seq<Exchange>)
    requires Progress(ids, address, length, loopTime, elapsed, rounds, frames, sleeps) && |frames| < |elapsed|
    requires IsGroupRead(ids, address, length, read)
    requires GroupReadOutcome(ids, address, length, read).Err?
    ensures PacedRun(ids, address, length, loopTime, elapsed, Concat(rounds + [read]), Fail(CommunicationError(GroupReadFailed)),
                     frames, sleeps, rounds + [read])
  {
    var more := rounds + [read];
    assert forall i :: 0 <= i < |rounds| ==> more[i] == rounds[i];
    assert more[|rounds|] == read;
  }

  /** The run reaches the interruption once every iteration delivered. */
  lemma RunCompletes(ids: seq<int>, address: int, length: int, loopTime: real, elapsed: seq<real>, rounds: seq<seq<Exchange>>,
                     frames: seq<map<int, int>>, sleeps: seq<Option<real>>)
    requires Progress(ids, address, length, loopTime, elapsed, rounds, frames, sleeps) && |frames| == |elapsed|
    ensures PacedRun(ids, address, length, loopTime, elapsed, Concat(rounds), Pass, frames, sleeps, rounds)
  {
  }

  /** Every frame of a reading loop holds requested motors only, and every
      iteration that delivered one lasted at least the period. */
  lemma PacedRunFrames(ids: seq<int>, address: int, length: int, loopTime: real, elapsed: seq<real>, t: seq<Exchange>, r: Outcome,
                       frames: seq<map<int, int>>, sleeps: seq<Option<real>>, rounds: seq<seq<Exchange>>)
    requires PacedRun(ids, address, length, loopTime, elapsed, t, r, frames, sleeps, rounds)
    ensures forall i, k :: 0 <= i < |frames| && k in frames[i] ==> k in ids
    ensures forall i :: 0 <= i < |frames| ==> elapsed[i] + sleeps[i].GetOr(0.0) >= loopTime
  {
    forall i | 0 <= i < |frames| ensures elapsed[i] + sleeps[i].GetOr(0.0) >= loopTime {
      IterationLength(loopTime, elapsed[i]);
    }
  }
}
