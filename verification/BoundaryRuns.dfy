/**
 * Runs that show why the conditions of the main results are there. Each exists for every valid
 * configuration of the shape it names, with one or two buckets.
 */
module BoundaryRuns {
  import opened Ballots
  import opened Completion
  import opened Counters
  import opened Domain
  import opened Exactness
  import opened Expiry
  import opened Finality
  import opened Gates
  import opened Lifetimes
  import opened PollRepository
  import opened Protocol
  import opened Readings
  import opened Sequential
  import opened VoteStore

  /** Nothing but keys, row, processes and ledger has changed. */
  predicate SamePlace(s: State, after: State) {
    after.now == s.now && after.n == s.n && after.warm == s.warm && after.lost == s.lost && after.lock == s.lock
  }

  function PublishedPoll(c: Config, t: int): PollRow {
    PollRow(c.poll.(status := Active, publishedAt := Some(t), updatedAt := t), 1, None, map[])
  }

  function OpenedState(c: Config, t: int): State {
    State(t, 1, true, Keys(map[0 := Gate(true, t + c.Life(t))], map[], map[]), PublishedPoll(c, t), None, map[], 1, [],
          {}, None, map[t := 0], 0)
  }

  /** A poll just created, before a process with `n` buckets. */
  function CreatedState(c: Config, t: int, n: nat): State {
    State(t, n, false, NO_KEYS, PollRow(c.poll, n, None, map[]), None, map[], 0, [], {}, None, map[], 0)
  }

  /** A completed Publish at time t. */
  lemma Opening(c: Config, t: int)
    requires c.Valid()
    ensures Reachable(c, OpenedState(c, t), true) && Reachable(c, OpenedState(c, t), false)
  {
    var s0 := CreatedState(c, t, 1);
    Start(c, s0);
    OpeningFrom(c, t, s0, true);
    OpeningFrom(c, t, s0, false);
  }

  lemma OpeningFrom(c: Config, t: int, s0: State, serial: bool)
    requires c.Valid() && Reachable(c, s0, serial)
    requires s0 == CreatedState(c, t, 1)
    ensures Reachable(c, OpenedState(c, t), serial)
  {
    var s1 := PublishAndRead(c, s0, t, serial);
    assert s1.procs == map[0 := Publisher(t, true, 0)];
    var s2 := Go(c, s1, OpenGate(0, t), serial);
    var s3 := Go(c, s2, Crash(0), serial);
    assert s3.procs == map[];
    assert s3 == OpenedState(c, t);
  }

  /** The reply to a vote of one option by `device`, in a bucket holding `fields`. */
  function AfterBallot(c: Config, s: State, device: string, fields: Fields): State
    requires |c.poll.options| > 0
  {
    var option := c.poll.options[0].id;
    var expires := s.now + WholeSeconds(c.Life(s.now));
    s.(keys := s.keys.(markers := s.keys.markers[Marker(0, device) := expires],
                       hashes := s.keys.hashes[0 := Hash(Credited(fields, [option]), expires)]),
       nextPid := s.nextPid + 1,
       log := s.log + [Ballot(device, [option], 0)])
  }

  /** A vote checked and recorded at one instant. */
  lemma Voting(c: Config, s: State, device: string, serial: bool) returns (after: State)
    requires c.Valid() && s.n == 1 && Reachable(c, s, serial)
    requires s.warm && c.poll.startsAt <= s.now < c.poll.endsAt && s.nextPid !in s.procs
    requires Open(s.keys, 0, s.now) && !Marked(s.keys, Marker(0, device), s.now) && !Lapsed(s.keys, 0, s.now)
    ensures after == AfterBallot(c, s, device, LiveFields(s.keys, 0, s.now)) && Reachable(c, after, serial)
  {
    FirstOptionIsValid(c);
    after := CastNow(c, s, device, [c.poll.options[0].id], serial);
  }

  /** A vote checked and recorded at one instant, for any number of buckets. */
  lemma CastNow(c: Config, s: State, device: string, options: seq<string>, serial: bool) returns (after: State)
    requires s.n > 0 && Reachable(c, s, serial) && ValidSelection(c.poll, options)
    requires s.warm && c.poll.startsAt <= s.now < c.poll.endsAt && s.nextPid !in s.procs
    requires var m := c.MarkerOf(device, s.n);
             Open(s.keys, m.bucket, s.now) && !Marked(s.keys, m, s.now) && !Lapsed(s.keys, m.bucket, s.now)
    ensures Reachable(c, after, serial)
    ensures var m := c.MarkerOf(device, s.n);
            after == s.(keys := Voted(s.keys, m, options, WholeSeconds(c.Life(s.now)), s.now).0,
                        nextPid := s.nextPid + 1, log := s.log + [Ballot(device, options, m.bucket)])
  {
    var pid := s.nextPid;
    var s1 := Go(c, s, CheckVote(device, options), serial);
    assert s1.procs - {pid} == s.procs;
    after := RecordNow(c, s1, pid, serial);
  }

  lemma RecordNow(c: Config, s: State, pid: nat, serial: bool) returns (after: State)
    requires s.n > 0 && Reachable(c, s, serial) && pid in s.procs
    requires s.procs[pid].Voter? && s.procs[pid].checkedAt == s.now
    requires var m := c.MarkerOf(s.procs[pid].device, s.n);
             Open(s.keys, m.bucket, s.now) && !Marked(s.keys, m, s.now) && !Lapsed(s.keys, m.bucket, s.now)
    ensures Reachable(c, after, serial)
    ensures var v := s.procs[pid];
            var m := c.MarkerOf(v.device, s.n);
            after == s.(keys := Voted(s.keys, m, v.options, WholeSeconds(c.Life(s.now)), s.now).0,
                        procs := s.procs - {pid}, log := s.log + [Ballot(v.device, v.options, m.bucket)])
  {
    after := Go(c, s, Record(pid, s.now), serial);
  }

  function Closed0(c: Config, s: State): Keys {
    GateSet(s.keys, 0, Gate(false, s.now + c.Life(s.now)))
  }

  function ClosingHolder(c: Config, s: State): Proc {
    Holder(Closing, Sums([LiveFields(s.keys, 0, s.now)], c.Ids(), s.now), [|s.log|], if Missing(s, 0) then {0} else {})
  }

  /** A Close that has shut the gate, read the bucket and stamped its totals. */
  lemma ClosingUpToStamp(c: Config, s: State, serial: bool) returns (after: State)
    requires c.Valid() && s.n == 1 && Reachable(c, s, serial) && s.row.poll.status == Active
    requires serial ==> forall pid | pid in s.procs :: !IsPublishing(s.procs[pid])
    requires SumsFit([LiveFields(s.keys, 0, s.now)], c.Ids())
    ensures after == s.(keys := Closed0(c, s), procs := s.procs[s.nextPid := ClosingHolder(c, s)], nextPid := s.nextPid + 1)
    ensures Reachable(c, after, serial)
  {
    GatesSetIs(s.keys, 1, ShutGateAt(c, s.now));
    var shut := GatesSet(s.keys, 1, ShutGateAt(c, s.now));
    assert GatesSet(s.keys, 0, ShutGateAt(c, s.now)) == s.keys && shut == Closed0(c, s);
    assert LiveHashes(shut, 1, s.now) == [LiveFields(s.keys, 0, s.now)];
    after := CloseUpToStamp(c, s, serial);
    StampedIs(c, s.(keys := shut), Closing);
    var p := Stamped(c, s.(keys := shut), Closing);
    assert p.marks == [|s.log|];
    assert p.missed == if Missing(s, 0) then {0} else {} by {
      assert Missing(s.(keys := shut), 0) == Missing(s, 0);
    }
  }

  lemma CreditedOnce(option: string)
    requires option != PARTICIPANTS
    ensures Credited(map[], [option]) == map[PARTICIPANTS := 1, option := 1]
  {
    assert [option][..0] == [];
    assert IncrementedAll(Incremented(map[], PARTICIPANTS), []) == map[PARTICIPANTS := 1];
  }

  lemma SmallSumsFit(fields: Fields, ids: seq<string>)
    requires forall f | f in fields :: fields[f] <= MAX_INT64
    ensures SumsFit([fields], ids)
    ensures forall f :: ColumnSum([fields], f) == Count(fields, f)
  {
    assert [fields][..0] == [];
    forall id | id in ids ensures OptionSum([fields], id) <= MAX_INT64 {
      assert ColumnSum([fields], id) == Count(fields, id);
    }
  }

  /**
   * A snapshot that reads before a ballot, stamps after the Close has stamped and commits before it
   * commits, leaves the poll closed (`s`) with the snapshot's counts, a recorded ballot missing, and
   * no finalization, which by UnfinalizedForGood never comes: no Close is under way, and a new one
   * finds the poll closed. The counts can still be repaired: another snapshot that starts later, of
   * the poll as the worker had listed it, stores the tally (`repaired`).
   */
  lemma LateSnapshotLosesABallot(c: Config, device: string) returns (s: State, repaired: State)
    requires c.Valid()
    ensures Reachable(c, s, true) && s.log == [Ballot(device, [c.poll.options[0].id], 0)]
    ensures s.row.poll.status == Closed && !Finalized(s.row) && NoCloser(s)
    ensures s.row.runtime.Some? && s.row.runtime.value.participants == 0 && Tally(s.log, PARTICIPANTS) == 1
    ensures Reachable(c, repaired, true) && repaired.log == s.log
    ensures repaired.row.poll.status == Closed && !Finalized(repaired.row) && NoCloser(repaired)
    ensures ResultIsTally(c, repaired.row, repaired.log)
  {
    var s2 := EarlyRead(c);
    var s4 := BallotThenStamp(c, s2, device);
    s := LateCommits(c, s4);
    TallyOfOne(c, device);
    assert Intact(s);
    repaired := Repaired(c, s);
  }

  lemma Repaired(c: Config, s: State) returns (after: State)
    requires c.Valid() && Reachable(c, s, true) && 1 in s.procs && s.procs.Keys == {1} && s.procs[1].Releasing?
    requires s.lock.Some? && s.lock.value.token == 1 && !Finalized(s.row) && Intact(s)
    requires |s.log| <= MAX_INT64
    ensures Reachable(c, after, true) && after.log == s.log && after.procs == map[]
    ensures after.row.poll == s.row.poll && !Finalized(after.row) && ResultIsTally(c, after.row, after.log)
  {
    var s1 := LetGo(c, s, 1, true);
    assert s1.procs == map[];
    assert Intact(s1) by {
      forall b: nat | b < s1.n ensures !Missing(s1, b) {
        assert !Missing(s, b);
      }
    }
    after := SnapshotRepairs(c, s1, true);
  }

  lemma TallyOfOne(c: Config, device: string)
    requires c.Valid()
    ensures Tally([Ballot(device, [c.poll.options[0].id], 0)], PARTICIPANTS) == 1
  {
    ParticipantsIsNoOption(c);
    var log := [Ballot(device, [c.poll.options[0].id], 0)];
    assert log[..0] == [];
    assert c.Ids()[0] == c.poll.options[0].id;
    OccurrencesOfDistinct([c.poll.options[0].id], PARTICIPANTS);
  }

  /** A snapshot reads the only bucket right after the opening. */
  lemma EarlyRead(c: Config) returns (after: State)
    requires c.Valid()
    ensures var t := c.poll.startsAt;
            && Reachable(c, after, true)
            && after.procs == map[1 := Reader(Snapshotting(t), [map[]], [0], {})]
            && after.lock == Some(Lock(1, t + LEASE))
            && after.keys == OpenedState(c, t).keys && after.row == PublishedPoll(c, t)
            && after.now == t && after.log == [] && after.nextPid == 2 && after.n == 1 && after.warm && after.lost == {}
  {
    var t := c.poll.startsAt;
    Opening(c, t);
    var s1 := Go(c, OpenedState(c, t), BeginSnapshot, true);
    after := Go(c, s1, Read(1), true);
    assert s1.procs == map[1 := Reader(Snapshotting(t), [], [], {})];
    assert LiveFields(s1.keys, 0, t) == map[] && !Missing(s1, 0);
    assert after.procs[1] == Reader(Snapshotting(t), [map[]], [0], {});
  }

  lemma BallotThenStamp(c: Config, s2: State, device: string) returns (s4: State)
    requires c.Valid() && s2.n == 1 && s2.warm && s2.lost == {} && Reachable(c, s2, true)
    requires 1 in s2.procs && s2.procs.Keys == {1} && s2.procs[1].Reader? && s2.nextPid == 2 && s2.now == c.poll.startsAt && s2.log == []
    requires s2.keys == OpenedState(c, s2.now).keys && s2.row == PublishedPoll(c, s2.now)
    ensures Reachable(c, s4, true) && s4.row == s2.row && SamePlace(s2, s4)
    ensures s4.keys.hashes == map[0 := Hash(map[PARTICIPANTS := 1, c.poll.options[0].id := 1], s4.now + WholeSeconds(c.Life(s4.now)))]
    ensures s4.log == [Ballot(device, [c.poll.options[0].id], 0)]
    ensures s4.procs.Keys == {1, 3} && s4.procs[1] == s2.procs[1]
    ensures s4.procs[3].Holder? && s4.procs[3].role == Closing && s4.procs[3].totals.asOf == s4.now
  {
    var s3 := Voting(c, s2, device, true);
    ParticipantsIsNoOption(c);
    assert c.Ids()[0] == c.poll.options[0].id;
    CreditedOnce(c.poll.options[0].id);
    SmallSumsFit(LiveFields(s3.keys, 0, s3.now), c.Ids());
    s4 := ClosingUpToStamp(c, s3, true);
  }

  lemma LateCommits(c: Config, s4: State) returns (s: State)
    requires c.Valid() && s4.n == 1 && Reachable(c, s4, true)
    requires s4.row == PublishedPoll(c, c.poll.startsAt) && s4.now == c.poll.startsAt
    requires |s4.log| == 1 && 1 in s4.procs && 3 in s4.procs && s4.procs.Keys == {1, 3}
    requires s4.procs[1] == Reader(Snapshotting(s4.now), [map[]], [0], {})
    requires s4.procs[3].Holder? && s4.procs[3].role == Closing && s4.procs[3].totals.asOf == s4.now
    ensures Reachable(c, s, true) && s.log == s4.log && s.keys == s4.keys
    ensures SamePlace(s4.(now := s4.now + 1), s)
    ensures s.row.poll.status == Closed && !Finalized(s.row)
    ensures s.row.runtime.Some? && s.row.runtime.value.participants == 0
    ensures 1 in s.procs && s.procs.Keys == {1} && s.procs[1].Releasing?
  {
    var s5 := Go(c, s4, Tick(1), true);
    SmallSumsFit(map[], c.Ids());
    var s6 := Go(c, s5, Stamp(1), true);
    assert s6.procs.Keys == {1, 3} && s6.procs[3] == s4.procs[3];
    var s7 := SnapshotCommits(c, s6);
    s := CloseCommitsTooLate(c, s7);
  }

  lemma SnapshotCommits(c: Config, s: State) returns (after: State)
    requires s.n == 1 && Reachable(c, s, true) && 1 in s.procs && s.row.runtime == None
    requires s.procs[1].Holder? && s.procs[1].role.Snapshotting? && s.procs[1].totals.participants == 0
    ensures Reachable(c, after, true) && after.log == s.log && after.row.poll == s.row.poll
    ensures SamePlace(s, after) && after.keys == s.keys
    ensures after.row.runtime == Some(Runtime(0, s.procs[1].totals.asOf, None))
    ensures after.procs == s.procs[1 := Releasing(s.procs[1].role.acquired)]
  {
    after := Go(c, s, Save(1), true);
  }

  lemma CloseCommitsTooLate(c: Config, s: State) returns (after: State)
    requires s.n == 1 && Reachable(c, s, true) && 3 in s.procs && s.row.poll.status == Active
    requires s.procs[3].Holder? && s.procs[3].role == Closing
    requires s.row.runtime.Some? && s.row.runtime.value.finalizedAt == None
    requires s.procs[3].totals.asOf < s.row.runtime.value.capturedAt
    ensures Reachable(c, after, true) && after.log == s.log && after.procs == s.procs - {3}
    ensures SamePlace(s, after) && after.keys == s.keys
    ensures after.row.runtime == s.row.runtime && after.row.poll.status == Closed
  {
    after := Go(c, s, Save(3), true);
  }

  lemma CloseBesidePublisher(c: Config) returns (s: State)
    requires c.Valid()
    ensures var t := c.poll.startsAt;
            && Reachable(c, s, false)
            && s.now == t && s.n == 1 && s.warm && s.log == [] && s.lost == {} && s.nextPid == 3
            && s.row.runtime == Some(Runtime(0, t, Some(t)))
            && s.procs == map[1 := Publisher(t, true, 0)]
            && s.keys.markers == map[] && s.keys.hashes == map[]
  {
    var t := c.poll.startsAt;
    Opening(c, t);
    var s1 := PublishAndRead(c, OpenedState(c, t), t, false);
    assert s1.procs == map[1 := Publisher(t, true, 0)];
    s := CloseWithoutBallots(c, s1);
  }

  lemma CloseWithoutBallots(c: Config, s1: State) returns (s: State)
    requires c.Valid() && s1.n == 1 && Reachable(c, s1, false) && s1.nextPid == 2 && 2 !in s1.procs
    requires s1.keys.hashes == map[] && s1.row.poll.status == Active && s1.row.runtime == None
    ensures Reachable(c, s, false) && s.procs == s1.procs && s.nextPid == 3
    ensures s.now == s1.now && s.n == 1 && s.warm == s1.warm && s.log == s1.log && s.lost == s1.lost
    ensures s.keys.markers == s1.keys.markers && s.keys.hashes == s1.keys.hashes
    ensures s.row.runtime == Some(Runtime(0, s1.now, Some(s1.now)))
  {
    SmallSumsFit(LiveFields(s1.keys, 0, s1.now), c.Ids());
    var s2 := ClosingUpToStamp(c, s1, false);
    s := Go(c, s2, Save(2), false);
    assert s.procs == s1.procs;
  }

  /** An overlapping Publish, past its transaction when the Close begins, reopens a gate of the closed poll. */
  lemma OverlappingPublishReopens(c: Config, device: string) returns (s: State)
    requires c.Valid()
    ensures Reachable(c, s, false)
    ensures Finalized(s.row) && s.now == c.poll.startsAt && s.lost == {}
    ensures s.row.runtime.value.participants == 0 && s.log == [Ballot(device, [c.poll.options[0].id], 0)]
  {
    var s3 := CloseBesidePublisher(c);
    var s4 := Go(c, s3, OpenGate(1, s3.now), false);
    assert s4.procs.Keys == {1};
    s := Voting(c, s4, device, false);
  }

  /** A Close that reads after the counters have expired finalizes an empty result. */
  lemma CloseAfterExpiryIsEmpty(c: Config, device: string) returns (s: State)
    requires c.Valid()
    ensures Reachable(c, s, true) && Finalized(s.row)
    ensures s.row.runtime.value.participants == 0 && s.log == [Ballot(device, [c.poll.options[0].id], 0)]
  {
    var t := c.poll.startsAt;
    Opening(c, t);
    var s1 := Voting(c, OpenedState(c, t), device, true);
    var s2 := Go(c, s1, Tick(WholeSeconds(c.Life(t))), true);
    SmallSumsFit(map[], c.Ids());
    assert LiveFields(s2.keys, 0, s2.now) == map[];
    var s3 := ClosingUpToStamp(c, s2, true);
    s := Go(c, s3, Save(2), true);
  }

  /**
   * When the clamp cuts the marker shorter than the voting window, publishing again after it has
   * expired lets the device vote twice, and both ballots are in the live counters.
   */
  lemma ClampedRepublishCountsTwice(c: Config, device: string, other: string) returns (s: State)
    requires c.Valid() && device != other
    requires c.poll.startsAt + WholeSeconds(c.maxTTL) < c.poll.endsAt && c.maxTTL > 1
    ensures Reachable(c, s, true) && !OnePerDevice(s.log)
    ensures |s.log| == 3 && s.log[0].device == s.log[2].device == device
    ensures Count(LiveFields(s.keys, 0, s.now), PARTICIPANTS) == 3
  {
    var w := WholeSeconds(c.maxTTL);
    var s3 := TwoBallots(c, device, other);
    s := SecondOpening(c, s3, device, w);
    var option := c.poll.options[0].id;
    ParticipantsIsNoOption(c);
    assert c.Ids()[0] == option;
    OccurrencesOfDistinct([option], PARTICIPANTS);
    CountOfCredited(LiveFields(s3.keys, 0, s.now), [option], PARTICIPANTS);
    assert s.log[0] == s.log[..2][0];
  }

  /** Two devices vote one nanosecond apart, so the counters outlive the first marker. */
  lemma TwoBallots(c: Config, device: string, other: string) returns (s3: State)
    requires c.Valid() && device != other
    requires c.poll.startsAt + WholeSeconds(c.maxTTL) < c.poll.endsAt && c.maxTTL > 1
    ensures Reachable(c, s3, true) && |s3.log| == 2 && s3.log[0].device == device
    ensures s3.n == 1 && s3.warm && 0 in s3.keys.hashes && s3.keys.hashes[0].expires == s3.now + WholeSeconds(c.Life(s3.now))
    ensures s3.now == c.poll.startsAt + 1 && s3.row == PublishedPoll(c, c.poll.startsAt) && s3.procs == map[]
    ensures var later := c.poll.startsAt + WholeSeconds(c.maxTTL);
            !Marked(s3.keys, Marker(0, device), later) && Count(LiveFields(s3.keys, 0, later), PARTICIPANTS) == 2
  {
    var t := c.poll.startsAt;
    Opening(c, t);
    var s1 := Voting(c, OpenedState(c, t), device, true);
    assert s1.procs == map[];
    var s2 := Go(c, s1, Tick(1), true);
    s3 := Voting(c, s2, other, true);
    var option := c.poll.options[0].id;
    ParticipantsIsNoOption(c);
    assert c.Ids()[0] == option;
    OccurrencesOfDistinct([option], PARTICIPANTS);
    CountOfCredited(map[], [option], PARTICIPANTS);
    CountOfCredited(LiveFields(s2.keys, 0, s2.now), [option], PARTICIPANTS);
  }

  lemma Reopening(c: Config, s: State) returns (after: State)
    requires c.Valid() && s.n == 1 && Reachable(c, s, true) && s.procs == map[] && s.row.poll.status == Active
    ensures Reachable(c, after, true)
    ensures SamePlace(s, after.(warm := s.warm)) && after.warm && after.log == s.log && after.procs == map[]
    ensures after.keys == GateSet(s.keys, 0, Gate(true, s.now + c.Life(s.now)))
  {
    var pid := s.nextPid;
    var s5 := PublishAndRead(c, s, s.now, true);
    assert s5.procs[pid].Publisher? && s5.procs[pid].next == 0 && s5.procs.Keys == {pid};
    var s6 := Go(c, s5, OpenGate(pid, s5.now), true);
    after := Go(c, s6, Crash(pid), true);
    assert after.procs == map[];
  }

  lemma SecondOpening(c: Config, s3: State, device: string, w: int) returns (s: State)
    requires c.Valid() && s3.n == 1 && s3.warm && Reachable(c, s3, true)
    requires w == WholeSeconds(c.maxTTL) && w > 1 && s3.now == c.poll.startsAt + 1 && s3.now + w - 1 < c.poll.endsAt
    requires s3.row == PublishedPoll(c, c.poll.startsAt) && s3.procs == map[] && |s3.log| == 2
    requires !Marked(s3.keys, Marker(0, device), s3.now + w - 1)
    requires 0 in s3.keys.hashes && s3.keys.hashes[0].expires == s3.now + WholeSeconds(c.Life(s3.now))
    ensures Reachable(c, s, true) && |s.log| == 3 && s.log[..2] == s3.log && s.log[2].device == device
    ensures s.now == s3.now + w - 1
    ensures LiveFields(s.keys, 0, s.now) == Credited(LiveFields(s3.keys, 0, s.now), [c.poll.options[0].id])
  {
    var s4 := Go(c, s3, Tick(w - 1), true);
    var s7 := Reopening(c, s4);
    s := Voting(c, s7, device, true);
    assert LiveFields(s7.keys, 0, s7.now) == LiveFields(s3.keys, 0, s7.now);
  }

  // ----- A reading that matches no moment -----

  lemma SingletonIsValid(c: Config, k: nat)
    requires c.Valid() && k < |c.poll.options|
    ensures ValidSelection(c.poll, [c.poll.options[k].id])
  {
    assert OptionIds(c.poll.options)[k] == c.poll.options[k].id;
  }

  /** A published poll of two buckets, both open, before its Publish has returned. */
  lemma TwoBucketsOpen(c: Config, serial: bool) returns (s: State)
    requires c.Valid()
    ensures var t := c.poll.startsAt;
            && Reachable(c, s, serial) && SamePlace(CreatedState(c, t, 2).(warm := true), s)
            && s.log == [] && s.nextPid == 1 && s.procs == map[0 := Publisher(t, true, 2)]
            && s.row == PollRow(PublishedPoll(c, t).poll, 2, None, map[])
    ensures Open(s.keys, 0, s.now) && Open(s.keys, 1, s.now) && s.keys.markers == map[] && s.keys.hashes == map[]
  {
    var t := c.poll.startsAt;
    var s0 := CreatedState(c, t, 2);
    Start(c, s0);
    var s1 := PublishAndRead(c, s0, t, serial);
    s := OpenGates(c, s1, 0, 2, serial);
    GatesSetIs(s1.keys, 2, OpenGateAt(c, t));
  }

  ghost predicate IsTallyOfPrefix(c: Config, log: Log, k: nat, t: Totals)
    requires k <= |log|
  {
    forall f | IsField(c, f) :: TotalOf(t, f) == Tally(log[..k], f)
  }

  /**
   * A reading of two buckets that overlaps with two ballots: it misses the first and has the second,
   * so it lies between the tallies of its ends and equals the tally of no prefix of the ledger.
   */
  lemma ReadingMatchesNoMoment(c: Config, first: string, second: string) returns (s: State, pid: nat)
    requires c.Valid() && c.MarkerOf(first, 2).bucket == 0 && c.MarkerOf(second, 2).bucket == 1
    ensures Reachable(c, s, false) && pid in s.procs && s.procs[pid].Holder?
    ensures forall k: nat | k <= |s.log| :: !IsTallyOfPrefix(c, s.log, k, s.procs[pid].totals)
  {
    var a, b := c.poll.options[0].id, c.poll.options[1].id;
    var s1 := TwoBucketsOpen(c, false);
    SingletonIsValid(c, 0);
    SingletonIsValid(c, 1);
    pid := 1;
    var s2 := Go(c, s1, BeginResults, false);
    var s3 := Go(c, s2, Read(pid), false);
    assert LiveFields(s2.keys, 0, s2.now) == map[] && !Missing(s2, 0);
    assert s3.procs[pid] == Reader(Viewing, [map[]], [0], {});
    assert s3.procs.Keys == {0, 1};
    s := TwoBallotsBehindTheReader(c, s3, first, second, pid);
    NoPrefixMatches(c, s.log, first, second, s.procs[pid].totals);
  }

  lemma TwoBallotsBehindTheReader(c: Config, s3: State, first: string, second: string, pid: nat) returns (s: State)
    requires c.Valid() && c.MarkerOf(first, 2).bucket == 0 && c.MarkerOf(second, 2).bucket == 1
    requires Reachable(c, s3, false) && s3.procs.Keys == {0, 1} && s3.nextPid == 2 && pid == 1
    requires s3.procs[pid] == Reader(Viewing, [map[]], [0], {})
    requires s3.now == c.poll.startsAt && s3.log == [] && s3.keys.markers == map[] && s3.keys.hashes == map[]
    requires s3.n == 2 && s3.warm
    requires Open(s3.keys, 0, s3.now) && Open(s3.keys, 1, s3.now)
    ensures Reachable(c, s, false) && pid in s.procs && s.procs[pid].Holder?
    ensures s.log == [Ballot(first, [c.poll.options[0].id], 0), Ballot(second, [c.poll.options[1].id], 1)]
    ensures s.procs[pid].totals.participants == 1
    ensures Count(s.procs[pid].totals.options, c.poll.options[0].id) == 0
  {
    var a, b := c.poll.options[0].id, c.poll.options[1].id;
    SingletonIsValid(c, 0);
    SingletonIsValid(c, 1);
    ParticipantsIsNoOption(c);
    assert c.Ids()[0] == a && c.Ids()[1] == b;
    var s4 := CastNow(c, s3, first, [a], false);
    var s5 := CastNow(c, s4, second, [b], false);
    CreditedOnce(b);
    assert LiveFields(s5.keys, 1, s5.now) == map[PARTICIPANTS := 1, b := 1];
    s := SecondReadAndStamp(c, s5, pid, b);
  }

  lemma SecondReadAndStamp(c: Config, s5: State, pid: nat, b: string) returns (s: State)
    requires c.Valid() && s5.n == 2 && Reachable(c, s5, false) && pid in s5.procs
    requires s5.procs[pid].Reader? && s5.procs[pid].role == Viewing && s5.procs[pid].hashes == [map[]]
    requires b != PARTICIPANTS && LiveFields(s5.keys, 1, s5.now) == map[PARTICIPANTS := 1, b := 1]
    ensures Reachable(c, s, false) && pid in s.procs && s.procs[pid].Holder? && s.log == s5.log
    ensures s.procs[pid].totals.participants == 1
    ensures forall id | id in c.Ids() && id != b && id != PARTICIPANTS :: Count(s.procs[pid].totals.options, id) == 0
  {
    var s6 := Go(c, s5, Read(pid), false);
    var hashes: seq<Fields> := [map[], map[PARTICIPANTS := 1, b := 1]];
    assert s6.procs[pid].hashes == hashes;
    var one: seq<Fields> := [map[]];
    forall f ensures ColumnSum(hashes, f) == if f == PARTICIPANTS || f == b then 1 else 0 {
      assert hashes[..1] == one && one[..0] == [];
      assert ColumnSum(one, f) == 0;
    }
    s := Go(c, s6, Stamp(pid), false);
  }

  lemma NoPrefixMatches(c: Config, log: Log, first: string, second: string, t: Totals)
    requires c.Valid()
    requires log == [Ballot(first, [c.poll.options[0].id], 0), Ballot(second, [c.poll.options[1].id], 1)]
    requires t.participants == 1 && Count(t.options, c.poll.options[0].id) == 0
    ensures forall k: nat | k <= |log| :: !IsTallyOfPrefix(c, log, k, t)
  {
    var a, b := c.poll.options[0].id, c.poll.options[1].id;
    ParticipantsIsNoOption(c);
    assert c.Ids()[0] == a && c.Ids()[1] == b;
    OccurrencesOfDistinct([a], PARTICIPANTS);
    OccurrencesOfDistinct([b], PARTICIPANTS);
    OccurrencesOfDistinct([a], a);
    assert IsField(c, PARTICIPANTS) && IsField(c, a);
    assert log[..0] == [] && log[..1][..0] == [] && log[..2][..1] == log[..1];
    forall k: nat | k <= |log| ensures !IsTallyOfPrefix(c, log, k, t) {
      if k == 1 {
        assert TotalOf(t, a) != Tally(log[..1], a);
      } else {
        assert TotalOf(t, PARTICIPANTS) != Tally(log[..k], PARTICIPANTS);
      }
    }
  }

  // ----- Rounding -----

  /**
   * TTLs are rounded up to whole seconds, so a marker can outlive the counters of its bucket: two
   * devices vote half a second apart, and half a second before the first marker expires, at or after
   * the end of the retention period, the counters expire. TTLs are taken at the instant of effect and
   * nothing is clamped.
   */
  lemma MarkerOutlivesItsCounters(c: Config, device: string, other: string) returns (s: State)
    requires c.Valid() && device != other
    requires c.poll.endsAt - c.poll.startsAt >= 2 * SECOND && c.poll.endsAt - c.poll.startsAt + c.retention <= c.maxTTL
    requires (c.poll.endsAt - c.poll.startsAt + c.retention) % SECOND == 1
    ensures Reachable(c, s, true) && s.n == 1 && s.now == c.poll.endsAt + c.retention + SECOND / 2 - 1
    ensures Orphaned(s, 0) && !CoversMarkers(s, 0)
    ensures Marked(s.keys, Marker(0, device), s.now) && LiveFields(s.keys, 0, s.now) == map[]
  {
    var t := c.poll.startsAt;
    RoundedUp(c.poll.endsAt - t + c.retention);
    var s3 := HalfASecondApart(c, device, other);
    s := Go(c, s3, Tick(s3.keys.hashes[0].expires - s3.now), true);
    assert Marker(0, device) in LiveMarkers(s.keys, 0, s.now);
  }

  lemma HalfASecondApart(c: Config, device: string, other: string) returns (s: State)
    requires c.Valid() && device != other
    requires c.poll.endsAt - c.poll.startsAt >= 2 * SECOND && c.poll.endsAt - c.poll.startsAt + c.retention <= c.maxTTL
    ensures var t := c.poll.startsAt;
            && Reachable(c, s, true) && s.n == 1 && s.now == t + SECOND / 2
            && 0 in s.keys.hashes && s.keys.hashes[0].expires == s.now + WholeSeconds(c.Life(s.now))
            && Marker(0, device) in s.keys.markers && s.keys.markers[Marker(0, device)] == t + WholeSeconds(c.Life(t))
  {
    var t := c.poll.startsAt;
    Opening(c, t);
    var s1 := Voting(c, OpenedState(c, t), device, true);
    var s2 := Go(c, s1, Tick(SECOND / 2), true);
    s := Voting(c, s2, other, true);
  }

  lemma RoundedUp(ttl: int)
    requires ttl >= SECOND && ttl % SECOND == 1
    ensures WholeSeconds(ttl) == ttl + SECOND - 1
    ensures WholeSeconds(ttl - SECOND / 2) == ttl - 1
  {
  }

  // ----- A restart with another bucket count -----

  /**
   * A Publish opens two gates, a ballot is recorded, and the Publish compensates since its reply is
   * lost. A restart with one bucket passes the startup check, the poll being a draft. After the next
   * publication the device is counted again, and the final result lacks its first ballot: there is no
   * overlap of Publish and Close, no delay, and no expiry.
   */
  lemma RestartLosesABallot(c: Config, device: string) returns (s: State)
    requires c.Valid() && c.MarkerOf(device, 2).bucket == 1
    ensures var ids := [c.poll.options[0].id];
            Reachable(c, s, true) && s.log == [Ballot(device, ids, 1), Ballot(device, ids, 0)]
    ensures Finalized(s.row) && s.now == c.poll.startsAt && s.lost == {}
    ensures s.row.runtime.value.participants == 1 && !OnePerDevice(s.log) && !ResultIsTally(c, s.row, s.log)
  {
    var s1 := DraftWithABallot(c, device);
    var s2 := RepublishedWithOneBucket(c, s1);
    s := VotedAndClosed(c, s2, device);
    TallyOfTwo(c, device);
    assert s.log[0].device == s.log[1].device;
  }

  lemma DraftWithABallot(c: Config, device: string) returns (s: State)
    requires c.Valid() && c.MarkerOf(device, 2).bucket == 1
    ensures Reachable(c, s, true) && SamePlace(CreatedState(c, c.poll.startsAt, 2).(warm := true), s)
    ensures s.log == [Ballot(device, [c.poll.options[0].id], 1)] && s.procs == map[] && s.row.runtime == None
    ensures s.row.poll.status == Draft && s.keys.hashes.Keys == {1} && s.keys.markers.Keys == {Marker(1, device)}
  {
    var s1 := TwoBucketsOpen(c, true);
    FirstOptionIsValid(c);
    var s2 := CastNow(c, s1, device, [c.poll.options[0].id], true);
    var s3 := Go(c, s2, Revert(0), true);
    s := Go(c, s3, DropGates(0), true);
  }

  lemma RepublishedWithOneBucket(c: Config, s: State) returns (after: State)
    requires c.Valid() && Reachable(c, s, true) && s.row.poll.status == Draft && s.procs == map[]
    ensures Reachable(c, after, true) && SamePlace(s.(n := 1, warm := true), after)
    ensures after.log == s.log && after.procs == map[] && after.row.runtime == s.row.runtime
    ensures after.row.poll.status == Active && Open(after.keys, 0, after.now)
    ensures after.keys.hashes == s.keys.hashes && after.keys.markers == s.keys.markers
  {
    ReachableCount(c, s, true);
    var s1 := Go(c, s, Restart(1), true);
    var s2 := PublishAndRead(c, s1, s1.now, true);
    assert s2.procs.Keys == {s1.nextPid};
    var s3 := Go(c, s2, OpenGate(s1.nextPid, s2.now), true);
    after := Stop(c, s3, s1.nextPid, true);
    assert after.procs == map[];
  }

  lemma VotedAndClosed(c: Config, s: State, device: string) returns (after: State)
    requires c.Valid() && Reachable(c, s, true) && SamePlace(CreatedState(c, c.poll.startsAt, 1).(warm := true), s)
    requires s.procs == map[] && s.row.poll.status == Active && s.row.runtime == None && Open(s.keys, 0, s.now)
    requires s.log == [Ballot(device, [c.poll.options[0].id], 1)]
    requires s.keys.hashes.Keys == {1} && s.keys.markers.Keys == {Marker(1, device)}
    ensures Reachable(c, after, true) && after.now == s.now && after.lost == {}
    ensures after.log == s.log + [Ballot(device, [c.poll.options[0].id], 0)]
    ensures Finalized(after.row) && after.row.runtime.value.participants == 1
  {
    var s1 := Voting(c, s, device, true);
    ParticipantsIsNoOption(c);
    assert c.Ids()[0] == c.poll.options[0].id;
    CreditedOnce(c.poll.options[0].id);
    var live := LiveFields(s1.keys, 0, s1.now);
    SmallSumsFit(live, c.Ids());
    var s2 := ClosingUpToStamp(c, s1, true);
    assert Sums([live], c.Ids(), s.now).participants == 1;
    after := SaveOfFirstClose(c, s2, s1.nextPid);
  }

  lemma SaveOfFirstClose(c: Config, s: State, pid: nat) returns (after: State)
    requires Reachable(c, s, true) && pid in s.procs && s.procs[pid].Holder? && s.procs[pid].role.Closing?
    requires s.row.poll.status == Active && s.row.runtime == None
    ensures Reachable(c, after, true) && after.now == s.now && after.lost == s.lost && after.log == s.log
    ensures Finalized(after.row) && after.row.runtime.value.participants == s.procs[pid].totals.participants
  {
    ReachableCount(c, s, true);
    after := Go(c, s, Save(pid), true);
  }

  lemma TallyOfTwo(c: Config, device: string)
    requires c.Valid()
    ensures var ids := [c.poll.options[0].id]; Tally([Ballot(device, ids, 1), Ballot(device, ids, 0)], PARTICIPANTS) == 2
  {
    var ids := [c.poll.options[0].id];
    var log := [Ballot(device, ids, 1), Ballot(device, ids, 0)];
    ParticipantsIsNoOption(c);
    assert log[..|log| - 1] == log[..1] == [Ballot(device, ids, 1)];
    assert log[..1][..0] == [];
    assert c.Ids()[0] == c.poll.options[0].id;
    OccurrencesOfDistinct(ids, PARTICIPANTS);
    assert Weight(ids, PARTICIPANTS) == 1;
    assert Tally(log[..1], PARTICIPANTS) == 1;
  }
}
