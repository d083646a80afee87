/**
 * The service methods are runs of the protocol: whatever requests of a Publish or a vote fail, the
 * row and the keys it leaves are those of a run of the state machine that ends with its process.
 */
module Sequential {
  import opened Domain
  import opened Finality
  import opened PollRepository
  import opened Protocol
  import opened Services
  import opened Steps
  import opened Untorn
  import opened VoteStore

  /** Some run, without overlapping Publish and Close if `serial`, ends in this state. */
  ghost predicate Reachable(c: Config, s: State, serial: bool) {
    exists states, labels :: RunTo(c, states, labels, s, serial)
  }

  ghost predicate RunTo(c: Config, states: seq<State>, labels: seq<Label>, s: State, serial: bool) {
    && IsRun(c, states, labels)
    && (serial ==> SerialRun(c, states, labels))
    && states[|states| - 1] == s
  }

  lemma Start(c: Config, s: State)
    requires Init(c, s)
    ensures Reachable(c, s, true) && Reachable(c, s, false)
  {
    assert RunTo(c, [s], [], s, true) && RunTo(c, [s], [], s, false);
  }

  lemma Go(c: Config, s: State, l: Label, serial: bool) returns (after: State)
    requires Reachable(c, s, serial) && Enabled(c, s, l) && (serial ==> Serial(s, l))
    ensures after == Apply(c, s, l) && Reachable(c, after, serial)
  {
    after := Apply(c, s, l);
    var states, labels :| RunTo(c, states, labels, s, serial);
    var longer, more := states + [after], labels + [l];
    forall i: nat | i < |more| ensures IsStep(c, longer, more, i) {
      assert i < |labels| ==> IsStep(c, states, labels, i);
    }
    assert RunTo(c, longer, more, after, serial);
  }

  lemma PublishAndRead(c: Config, s: State, stamp: int, serial: bool) returns (after: State)
    requires Reachable(c, s, serial) && s.row.poll.status != Closed
    requires serial ==> forall pid | pid in s.procs :: !IsClosing(s.procs[pid])
    ensures Reachable(c, after, serial)
    ensures var row := PublishedRow(s.row, stamp, s.n).value;
            after == s.(row := row, warm := true, authors := s.authors[stamp := s.nextPid],
                        author := if s.row.poll.status == Draft then s.nextPid else s.author,
                        procs := s.procs[s.nextPid := Publisher(stamp, row.poll.publishedAt == Some(stamp), 0)],
                        nextPid := s.nextPid + 1)
  {
    ReachableCount(c, s, serial);
    var s1 := Go(c, s, Publish(stamp), serial);
    after := Go(c, s1, ReadBack(s.nextPid), serial);
  }

  lemma ReachableBase(c: Config, s: State, serial: bool)
    requires Reachable(c, s, serial)
    ensures Base(c, s) && c.Valid()
  {
    var states, labels :| RunTo(c, states, labels, s, serial);
    BaseOfRun(c, states, labels, |states| - 1);
  }

  lemma ReachableCount(c: Config, s: State, serial: bool)
    requires Reachable(c, s, serial)
    ensures s.n > 0
  {
    ReachableBase(c, s, serial);
  }

  function OpenGateAt(c: Config, now: int): Gate {
    Gate(true, now + c.Life(now))
  }

  function ShutGateAt(c: Config, now: int): Gate {
    Gate(false, now + c.Life(now))
  }

  // ----- Publish -----

  lemma {:induction false} OpenGates(c: Config, s: State, pid: nat, k: nat, serial: bool) returns (after: State)
    requires Reachable(c, s, serial) && pid in s.procs && k <= s.n
    requires s.procs[pid].Publisher? && s.procs[pid].next == 0
    ensures Reachable(c, after, serial)
    ensures after == s.(keys := GatesSet(s.keys, k, OpenGateAt(c, s.now)),
                        procs := s.procs[pid := s.procs[pid].(next := k)])
  {
    ReachableCount(c, s, serial);
    if k == 0 {
      after := s;
    } else {
      var before := OpenGates(c, s, pid, k - 1, serial);
      after := Go(c, before, OpenGate(pid, s.now), serial);
    }
  }

  lemma Stop(c: Config, s: State, pid: nat, serial: bool) returns (after: State)
    requires Reachable(c, s, serial) && pid in s.procs
    ensures after == Ended(s, pid) && Reachable(c, after, serial)
  {
    ReachableCount(c, s, serial);
    after := Go(c, s, Crash(pid), serial);
  }

  lemma Compensate(c: Config, s: State, pid: nat, delete: bool, serial: bool) returns (after: State)
    requires Reachable(c, s, serial) && pid in s.procs && s.procs[pid].Publisher? && s.procs[pid].mine
    requires s.row.poll.status == Active && s.row.poll.publishedAt == Some(s.procs[pid].stamp)
    ensures Reachable(c, after, serial) && after.procs == s.procs - {pid} && after.log == s.log
    ensures RevertedRow(s.row, s.procs[pid].stamp, s.now) == Ok(after.row)
    ensures after.keys == if delete then GatesDeleted(s.keys, s.n) else s.keys
  {
    ReachableCount(c, s, serial);
    var s1 := Go(c, s, Revert(pid), serial);
    assert s1.procs == s.procs[pid := Undoing] && s1.n == s.n;
    if delete {
      after := Go(c, s1, DropGates(pid), serial);
    } else {
      after := Stop(c, s1, pid, serial);
    }
    assert s1.procs - {pid} == s.procs - {pid};
  }

  /** The end of a Publish whose gates are partly or fully set: success, crash or compensation. */
  lemma FinishPublish(c: Config, s: State, pid: nat, trips: PublishTrips, serial: bool) returns (after: State)
    requires Reachable(c, s, serial) && pid in s.procs && s.procs[pid].Publisher?
    requires s.row.poll.status == Active && s.procs[pid].mine == (s.row.poll.publishedAt == Some(s.procs[pid].stamp))
    ensures Reachable(c, after, serial) && after.procs == s.procs - {pid} && after.log == s.log
    ensures var ok := trips.setup.delivered >= s.n && trips.setup.replied;
            if ok || !s.procs[pid].mine || trips.revert == Lost then after.row == s.row && after.keys == s.keys
            else && RevertedRow(s.row, s.procs[pid].stamp, s.now) == Ok(after.row)
                 && after.keys == if trips.revert == Answered && trips.delete then GatesDeleted(s.keys, s.n) else s.keys
  {
    if (trips.setup.delivered >= s.n && trips.setup.replied) || !s.procs[pid].mine || trips.revert == Lost {
      after := Stop(c, s, pid, serial);
    } else {
      after := Compensate(c, s, pid, trips.revert == Answered && trips.delete, serial);
    }
  }

  lemma CrashAfterCommit(c: Config, s: State, stamp: int, serial: bool) returns (after: State)
    requires Reachable(c, s, serial) && s.row.poll.status != Closed && s.nextPid !in s.procs
    requires serial ==> forall pid | pid in s.procs :: !IsClosing(s.procs[pid])
    ensures Reachable(c, after, serial) && after.procs == s.procs && after.log == s.log && after.keys == s.keys
    ensures after.row == PublishedRow(s.row, stamp, s.n).value
  {
    ReachableCount(c, s, serial);
    var s1 := Go(c, s, Publish(stamp), serial);
    after := Go(c, s1, Crash(s.nextPid), serial);
    assert after.procs == s.procs;
  }

  lemma PublishedAndSetUp(c: Config, s: State, stamp: int, trips: PublishTrips, serial: bool) returns (after: State)
    requires Reachable(c, s, serial) && s.row.poll.status != Closed && s.nextPid !in s.procs
    requires serial ==> forall pid | pid in s.procs :: !IsClosing(s.procs[pid])
    ensures Reachable(c, after, serial) && after.procs == s.procs && after.log == s.log
    ensures var o := AfterSetup(PublishedRow(s.row, stamp, s.n).value, s.keys, s.n, stamp, s.now, OpenGateAt(c, s.now), trips);
            after.row == o.row && after.keys == o.keys
  {
    var pid := s.nextPid;
    var s1 := PublishAndRead(c, s, stamp, serial);
    var s2 := OpenGates(c, s1, pid, Sent(trips.setup, s.n), serial);
    assert s2.procs - {pid} == s.procs;
    after := FinishPublish(c, s2, pid, trips, serial);
  }

  /** Every Publish, with any of its requests failing, is a run of the protocol. */
  lemma EveryPublishIsARun(c: Config, s: State, stamp: int, trips: PublishTrips, serial: bool) returns (after: State)
    requires Reachable(c, s, serial)
    requires serial ==> forall pid | pid in s.procs :: !IsClosing(s.procs[pid])
    ensures Reachable(c, after, serial) && after.procs == s.procs && after.log == s.log
    ensures var o := PublishOutcome(s.row, s.keys, s.n, stamp, s.now, OpenGateAt(c, s.now), trips);
            after.row == o.row && after.keys == o.keys
  {
    ReachableBase(c, s, serial);
    if trips.commit == Lost || s.row.poll.status == Closed {
      after := s;
    } else if trips.commit == Unanswered {
      after := CrashAfterCommit(c, s, stamp, serial);
    } else {
      after := PublishedAndSetUp(c, s, stamp, trips, serial);
    }
  }

  // ----- Votes -----

  /**
   * Every vote through a definition that the live processes have cached or loaded is a run of the
   * protocol. Where the machine can check the vote now, the service does: it makes the same Record
   * step and gives its answer. Where it cannot, the service refuses and changes nothing.
   */
  lemma EveryVoteIsARun(c: Config, s: State, found: Result<Poll>, device: string, options: seq<string>, serial: bool)
    returns (after: State)
    requires Reachable(c, s, serial)
    requires found.Ok? ==> s.warm && SameDefinition(c.poll, found.value) && found.value.status == Active
    ensures s.n > 0 && Reachable(c, after, serial) && after.procs == s.procs && after.row == s.row
    ensures var (keys, answer) := VoteOutcome(found, s.keys, c.MarkerOf(device, s.n), options, c.retention, c.maxTTL, s.now);
            && after.keys == keys
            && (if found.Ok? && Enabled(c, s, CheckVote(device, options)) then
                  var checked := Apply(c, s, CheckVote(device, options));
                  && Enabled(c, checked, Record(s.nextPid, s.now)) && after == Apply(c, checked, Record(s.nextPid, s.now))
                  && answer == AnswerOf(Votes(c, checked, Record(s.nextPid, s.now)).1)
                else answer.Err? && after == s)
  {
    ReachableBase(c, s, serial);
    if found.Ok? && Enabled(c, s, CheckVote(device, options)) {
      assert ValidSelection(found.value, options) == ValidSelection(c.poll, options);
      var checked := Go(c, s, CheckVote(device, options), serial);
      after := Go(c, checked, Record(s.nextPid, s.now), serial);
      assert after.procs == s.procs;
    } else {
      after := s;
      if found.Ok? {
        assert ValidSelection(found.value, options) == ValidSelection(c.poll, options);
      }
    }
  }

  /** How the service passes on the answer of the script. */
  function AnswerOf(answer: Answer): Result<Answer> {
    match answer
    case Recorded => Ok(Recorded)
    case AlreadyRecorded => Ok(AlreadyRecorded)
    case GateClosed => Err(NotActive)
  }
}
