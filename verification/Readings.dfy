/** Close and Snapshot, which read all buckets and save the totals, as runs of the protocol, with any faults. */
module Readings {
  import opened Counters
  import opened Domain
  import opened PollRepository
  import opened Protocol
  import opened Sequential
  import opened Services
  import opened VoteStore

  // ----- Close -----

  lemma {:induction false} ShutGates(c: Config, s: State, k: nat, serial: bool) returns (after: State)
    requires Reachable(c, s, serial) && s.row.poll.status == Active && k <= s.n
    requires serial ==> forall pid | pid in s.procs :: !IsPublishing(s.procs[pid])
    ensures Reachable(c, after, serial)
    ensures after == s.(keys := GatesSet(s.keys, k, ShutGateAt(c, s.now)),
                        procs := s.procs[s.nextPid := Closer(k)], nextPid := s.nextPid + 1)
  {
    if k == 0 {
      ReachableBase(c, s, serial);
      after := Go(c, s, BeginClose, serial);
    } else {
      var before := ShutGates(c, s, k - 1, serial);
      after := Go(c, before, CloseGate(s.nextPid, s.now), serial);
    }
  }

  /** A reader that has read the first `k` buckets at one moment. */
  function ReadSoFar(s: State, role: Role, k: nat): Proc
    requires k <= s.n
  {
    if k == 0 then Reader(role, [], [], {}) else AfterRead(s, ReadSoFar(s, role, k - 1))
  }

  lemma {:induction false} ReadSoFarIs(s: State, role: Role, k: nat)
    requires k <= s.n
    ensures var p := ReadSoFar(s, role, k);
            && p.Reader? && p.role == role
            && p.hashes == LiveHashes(s.keys, k, s.now)
            && |p.marks| == k && (forall b | 0 <= b < k :: p.marks[b] == |s.log|)
            && p.missed == (set b: nat | b < k && Missing(s, b))
  {
    if k > 0 {
      ReadSoFarIs(s, role, k - 1);
      assert LiveHashes(s.keys, k, s.now) == LiveHashes(s.keys, k - 1, s.now) + [LiveFields(s.keys, k - 1, s.now)];
    }
  }

  lemma {:induction false} ReadBuckets(c: Config, s: State, pid: nat, role: Role, k: nat, serial: bool) returns (after: State)
    requires Reachable(c, s, serial) && pid in s.procs && s.procs[pid] == ReadSoFar(s, role, 0) && k <= s.n
    ensures Reachable(c, after, serial)
    ensures after == s.(procs := s.procs[pid := ReadSoFar(s, role, k)])
  {
    if k == 0 {
      after := s;
    } else {
      var before := ReadBuckets(c, s, pid, role, k - 1, serial);
      ReadSoFarIs(s, role, k - 1);
      after := OneMoreBucket(c, before, pid, serial);
    }
  }

  lemma OneMoreBucket(c: Config, s: State, pid: nat, serial: bool) returns (after: State)
    requires Reachable(c, s, serial) && pid in s.procs && s.procs[pid].Reader? && |s.procs[pid].hashes| < s.n
    ensures after == Moved(s, pid, AfterRead(s, s.procs[pid])) && Reachable(c, after, serial)
  {
    after := Go(c, s, Read(pid), serial);
  }

  /** What a reader of all buckets at one moment stamps. */
  function Stamped(c: Config, s: State, role: Role): Proc {
    var p := ReadSoFar(s, role, s.n);
    if p.Reader? then Holder(role, Sums(p.hashes, c.Ids(), s.now), p.marks, p.missed) else p
  }

  lemma StampedIs(c: Config, s: State, role: Role)
    ensures var p := Stamped(c, s, role);
            && p.Holder? && p.role == role
            && p.totals == Sums(LiveHashes(s.keys, s.n, s.now), c.Ids(), s.now)
            && |p.marks| == s.n && (forall b | 0 <= b < s.n :: p.marks[b] == |s.log|)
            && p.missed == (set b: nat | b < s.n && Missing(s, b))
  {
    ReadSoFarIs(s, role, s.n);
  }

  lemma ReadAndStamp(c: Config, s: State, pid: nat, role: Role, serial: bool) returns (after: State)
    requires Reachable(c, s, serial) && pid in s.procs && s.procs[pid] == ReadSoFar(s, role, 0)
    requires SumsFit(LiveHashes(s.keys, s.n, s.now), c.Ids())
    ensures Reachable(c, after, serial)
    ensures after == s.(procs := s.procs[pid := Stamped(c, s, role)])
  {
    ReachableBase(c, s, serial);
    var s1 := ReadBuckets(c, s, pid, role, s.n, serial);
    ReadSoFarIs(s, role, s.n);
    after := Go(c, s1, Stamp(pid), serial);
  }

  lemma CloseUpToTotals(c: Config, s: State, serial: bool) returns (after: State)
    requires Reachable(c, s, serial) && s.row.poll.status == Active
    requires serial ==> forall pid | pid in s.procs :: !IsPublishing(s.procs[pid])
    ensures Reachable(c, after, serial)
    ensures after == s.(keys := GatesSet(s.keys, s.n, ShutGateAt(c, s.now)),
                        procs := s.procs[s.nextPid := ReadSoFar(s, Closing, 0)], nextPid := s.nextPid + 1)
  {
    ReachableCount(c, s, serial);
    var s1 := ShutGates(c, s, s.n, serial);
    after := Go(c, s1, BeginTotals(s.nextPid), serial);
  }

  /** A Close up to its stamp. */
  lemma CloseUpToStamp(c: Config, s: State, serial: bool) returns (after: State)
    requires Reachable(c, s, serial) && s.row.poll.status == Active
    requires serial ==> forall pid | pid in s.procs :: !IsPublishing(s.procs[pid])
    requires SumsFit(LiveHashes(GatesSet(s.keys, s.n, ShutGateAt(c, s.now)), s.n, s.now), c.Ids())
    ensures Reachable(c, after, serial)
    ensures var shut := s.(keys := GatesSet(s.keys, s.n, ShutGateAt(c, s.now)));
            after == shut.(procs := s.procs[s.nextPid := Stamped(c, shut, Closing)], nextPid := s.nextPid + 1)
  {
    var s2 := CloseUpToTotals(c, s, serial);
    after := ReadAndStamp(c, s2, s.nextPid, Closing, serial);
    SameStamped(c, s2, s.(keys := GatesSet(s.keys, s.n, ShutGateAt(c, s.now))), Closing);
  }

  /** What a reader finds depends only on the keys, the ledger and the clock. */
  lemma {:induction false} SameReading(s: State, t: State, role: Role, k: nat)
    requires k <= s.n && k <= t.n && s.keys == t.keys && s.log == t.log && s.lost == t.lost && s.now == t.now
    ensures ReadSoFar(s, role, k) == ReadSoFar(t, role, k)
  {
    if k > 0 {
      SameReading(s, t, role, k - 1);
    }
  }

  lemma SameStamped(c: Config, s: State, t: State, role: Role)
    requires s.n == t.n && s.keys == t.keys && s.log == t.log && s.lost == t.lost && s.now == t.now
    ensures Stamped(c, s, role) == Stamped(c, t, role)
  {
    SameReading(s, t, role, s.n);
  }

  lemma SaveOfClose(c: Config, s: State, pid: nat, serial: bool) returns (after: State)
    requires Reachable(c, s, serial) && pid in s.procs && s.procs[pid].Holder? && s.procs[pid].role.Closing?
    ensures Reachable(c, after, serial) && after.procs == s.procs - {pid} && after.keys == s.keys && after.log == s.log
    ensures after.now == s.now && after.nextPid == s.nextPid
    ensures var saved := SavedRow(s.row, c.poll.options, s.procs[pid].totals, true);
            after.row == if saved.Ok? then saved.value else s.row
  {
    ReachableCount(c, s, serial);
    after := Go(c, s, Save(pid), serial);
  }

  lemma CrashWhileShutting(c: Config, s: State, k: nat, serial: bool) returns (after: State)
    requires Reachable(c, s, serial) && s.row.poll.status == Active && k <= s.n && s.nextPid !in s.procs
    requires serial ==> forall pid | pid in s.procs :: !IsPublishing(s.procs[pid])
    ensures Reachable(c, after, serial) && after.procs == s.procs && after.log == s.log && after.row == s.row
    ensures after.keys == GatesSet(s.keys, k, ShutGateAt(c, s.now))
  {
    ReachableCount(c, s, serial);
    var s1 := ShutGates(c, s, k, serial);
    after := Go(c, s1, Crash(s.nextPid), serial);
    assert after.procs == s.procs;
  }

  lemma WholeClose(c: Config, s: State, serial: bool) returns (after: State)
    requires Reachable(c, s, serial) && s.row.poll.status == Active && s.nextPid !in s.procs
    requires serial ==> forall pid | pid in s.procs :: !IsPublishing(s.procs[pid])
    requires SumsFit(LiveHashes(GatesSet(s.keys, s.n, ShutGateAt(c, s.now)), s.n, s.now), c.Ids())
    ensures Reachable(c, after, serial) && after.procs == s.procs && after.log == s.log
    ensures after.keys == GatesSet(s.keys, s.n, ShutGateAt(c, s.now))
    ensures var saved := SavedRow(s.row, c.poll.options, Sums(LiveHashes(after.keys, s.n, s.now), c.Ids(), s.now), true);
            after.row == if saved.Ok? then saved.value else s.row
  {
    var s1 := CloseUpToStamp(c, s, serial);
    StampedIs(c, s.(keys := GatesSet(s.keys, s.n, ShutGateAt(c, s.now))), Closing);
    after := SaveOfClose(c, s1, s.nextPid, serial);
    assert after.procs == s.procs;
  }

  /** Every Close, with any of its requests failing, is a run of the protocol. */
  lemma EveryCloseIsARun(c: Config, s: State, trips: CloseTrips, serial: bool) returns (after: State)
    requires Reachable(c, s, serial)
    requires serial ==> forall pid | pid in s.procs :: !IsPublishing(s.procs[pid])
    ensures Reachable(c, after, serial) && after.procs == s.procs && after.log == s.log
    ensures var o := CloseOutcome(s.row, s.keys, s.n, s.now, ShutGateAt(c, s.now), trips);
            after.row == o.row && after.keys == o.keys
  {
    ReachableBase(c, s, serial);
    var k := Sent(trips.setup, s.n);
    var shut := GatesSet(s.keys, k, ShutGateAt(c, s.now));
    if s.row.poll.status != Active {
      after := s;
    } else if k < s.n || !trips.setup.replied || !trips.read || trips.save == Lost
              || !SumsFit(LiveHashes(shut, s.n, s.now), c.Ids()) {
      after := CrashWhileShutting(c, s, k, serial);
    } else {
      after := WholeClose(c, s, serial);
    }
  }

  // ----- Snapshots -----

  predicate SnapshotLocked(s: State) {
    s.lock.Some? && s.now < s.lock.value.expires
  }

  lemma LetGo(c: Config, s: State, pid: nat, serial: bool) returns (after: State)
    requires Reachable(c, s, serial) && pid in s.procs && HoldsLock(s.procs[pid]) && s.lock.Some? && s.lock.value.token == pid
    ensures Reachable(c, after, serial) && after == s.(procs := s.procs - {pid}, lock := None)
  {
    ReachableCount(c, s, serial);
    after := Go(c, s, Release(pid), serial);
  }

  lemma SaveOfSnapshot(c: Config, s: State, pid: nat, serial: bool) returns (after: State)
    requires Reachable(c, s, serial) && pid in s.procs && s.procs[pid].Holder? && s.procs[pid].role.Snapshotting?
    ensures Reachable(c, after, serial) && after.procs == s.procs[pid := Releasing(s.procs[pid].role.acquired)]
    ensures after.keys == s.keys && after.log == s.log && after.lock == s.lock && after.now == s.now && after.n == s.n
    ensures after.lost == s.lost
    ensures SavedRow(s.row, c.poll.options, s.procs[pid].totals, false) == Ok(after.row)
  {
    ReachableCount(c, s, serial);
    after := Go(c, s, Save(pid), serial);
  }

  lemma TakeLock(c: Config, s: State, serial: bool) returns (after: State)
    requires Reachable(c, s, serial) && !SnapshotLocked(s)
    ensures Reachable(c, after, serial)
    ensures after == s.(lock := Some(Lock(s.nextPid, s.now + LEASE)), nextPid := s.nextPid + 1,
                        procs := s.procs[s.nextPid := ReadSoFar(s, Snapshotting(s.now), 0)])
  {
    ReachableCount(c, s, serial);
    after := Go(c, s, BeginSnapshot, serial);
  }

  lemma WholeSnapshot(c: Config, s: State, serial: bool) returns (after: State)
    requires Reachable(c, s, serial) && !SnapshotLocked(s) && s.nextPid !in s.procs
    requires SumsFit(LiveHashes(s.keys, s.n, s.now), c.Ids())
    ensures Reachable(c, after, serial) && after.procs == s.procs && after.keys == s.keys && after.log == s.log
    ensures after.now == s.now && after.n == s.n && after.lost == s.lost && after.lock == None
    ensures SavedRow(s.row, c.poll.options, Sums(LiveHashes(s.keys, s.n, s.now), c.Ids(), s.now), false) == Ok(after.row)
  {
    var s1 := TakeLock(c, s, serial);
    var s2 := ReadAndStamp(c, s1, s.nextPid, Snapshotting(s.now), serial);
    StampedIs(c, s1, Snapshotting(s.now));
    var s3 := SaveOfSnapshot(c, s2, s.nextPid, serial);
    after := LetGo(c, s3, s.nextPid, serial);
    assert after.procs == s.procs;
  }

  lemma FailedSnapshot(c: Config, s: State, serial: bool) returns (after: State)
    requires Reachable(c, s, serial) && !SnapshotLocked(s) && s.nextPid !in s.procs
    ensures Reachable(c, after, serial) && after.procs == s.procs && after.keys == s.keys && after.log == s.log
    ensures after.now == s.now && after.n == s.n && after.lost == s.lost && after.lock == None && after.row == s.row
  {
    var s1 := TakeLock(c, s, serial);
    after := LetGo(c, s1, s.nextPid, serial);
    assert after.procs == s.procs;
  }

  /** Every pass of the snapshot worker over the poll, whatever fails, is a run of the protocol. */
  lemma EverySnapshotIsARun(c: Config, s: State, read: bool, save: Trip, serial: bool) returns (after: State)
    requires Reachable(c, s, serial)
    ensures Reachable(c, after, serial) && after.procs == s.procs && after.keys == s.keys && after.log == s.log
    ensures after.now == s.now && after.n == s.n && after.lost == s.lost
    ensures SnapshotLocked(s) ==> after.row == s.row && after.lock == s.lock
    ensures !SnapshotLocked(s) ==>
              && after.lock == None
              && var hashes := LiveHashes(s.keys, s.n, s.now);
              if read && SumsFit(hashes, c.Ids()) && save != Lost then
                SavedRow(s.row, c.poll.options, Sums(hashes, c.Ids(), s.now), false) == Ok(after.row)
              else after.row == s.row
  {
    ReachableBase(c, s, serial);
    if SnapshotLocked(s) {
      after := s;
    } else if read && SumsFit(LiveHashes(s.keys, s.n, s.now), c.Ids()) && save != Lost {
      after := WholeSnapshot(c, s, serial);
    } else {
      after := FailedSnapshot(c, s, serial);
    }
  }
}
