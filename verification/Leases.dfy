/** Snapshot leases and publication stamps. */
module Leases {
  import opened Ballots
  import opened Domain
  import opened Exactness
  import opened Lifetimes
  import opened OneVote
  import opened PollRepository
  import opened Protocol
  import opened Restarts
  import opened Steps
  import opened Untorn

  // ----- Mutual exclusion of snapshot sections -----

  ghost predicate LeaseHeld(s: State) {
    forall pid | pid in s.procs ::
      && pid < s.nextPid
      && (HoldsLock(s.procs[pid]) ==>
            && s.now < Acquired(s.procs[pid]) + LEASE
            && s.lock == Some(Lock(pid, Acquired(s.procs[pid]) + LEASE)))
  }

  lemma LockStep(c: Config, s: State, l: Label)
    requires Enabled(c, s, l)
    ensures var after := Apply(c, s, l);
            && after.now == s.now + (if l.Tick? then l.d else 0)
            && (if l.BeginSnapshot? && Newcomer(s, l).Some? then
                  after.lock == Some(Lock(s.nextPid, s.now + LEASE)) && (s.lock.Some? ==> s.lock.value.expires <= s.now)
                else if l.Release? then after.lock == LockAfterRelease(s.lock, l.pid)
                else after.lock == s.lock)
  {
    match l
    case Publish(_) =>
    case Revert(_) =>
    case Save(_) =>
    case _ =>
  }

  lemma LeaseStep(c: Config, s: State, l: Label)
    requires LeaseHeld(s) && Enabled(c, s, l) && WithinLease(s, l)
    ensures LeaseHeld(Apply(c, s, l))
  {
    LockStep(c, s, l);
    NewPidsFollow(c, s, l);
    if l.Release? {
      assert HoldsLock(s.procs[l.pid]);
    }
    forall pid | pid in Apply(c, s, l).procs && HoldsLock(Apply(c, s, l).procs[pid])
      ensures var after := Apply(c, s, l);
              && after.now < Acquired(after.procs[pid]) + LEASE
              && after.lock == Some(Lock(pid, Acquired(after.procs[pid]) + LEASE))
    {
      OriginOf(c, s, l, pid);
    }
  }

  ghost predicate LeasedRun(c: Config, states: seq<State>, labels: seq<Label>) {
    IsRun(c, states, labels) && forall i | 0 <= i < |labels| :: WithinLease(states[i], labels[i])
  }

  lemma {:induction false} LeaseOfRun(c: Config, states: seq<State>, labels: seq<Label>, i: nat)
    requires LeasedRun(c, states, labels) && i < |states|
    ensures LeaseHeld(states[i])
  {
    if i > 0 {
      LeaseOfRun(c, states, labels, i - 1);
      assert IsStep(c, states, labels, i - 1);
      LeaseStep(c, states[i - 1], labels[i - 1]);
    }
  }

  /** Snapshot sections of one poll are disjoint, and a release deletes its own lock and no other. */
  lemma SnapshotsExcludeEachOther(c: Config, states: seq<State>, labels: seq<Label>, i: nat, p: nat, q: nat)
    requires LeasedRun(c, states, labels) && i < |states|
    requires p in states[i].procs && HoldsLock(states[i].procs[p])
    requires q in states[i].procs && HoldsLock(states[i].procs[q])
    ensures p == q
    ensures i < |labels| && labels[i] == Release(q) ==>
              states[i].lock.Some? && states[i].lock.value.token == q && states[i + 1].lock == None
  {
    LeaseOfRun(c, states, labels, i);
    if i < |labels| {
      assert IsStep(c, states, labels, i);
    }
  }

  // ----- Stored totals only grow -----

  ghost predicate Ordered(s: State) {
    s.stored.Some? ==>
      && s.stored.value.Holder? && s.stored.value.role.Snapshotting?
      && Last(s.stored.value.marks) <= |s.log|
      && forall pid | pid in s.procs ::
           var p := s.procs[pid];
           (p.Reader? || p.Holder?) && p.role.Snapshotting? && |p.marks| > 0 ==> Last(s.stored.value.marks) <= First(p.marks)
  }

  ghost predicate NoClosing(s: State) {
    s.row.poll.status != Closed && forall pid | pid in s.procs :: !IsClosing(s.procs[pid])
  }

  lemma NoClosingStep(c: Config, s: State, l: Label)
    requires NoClosing(s) && Enabled(c, s, l) && !l.BeginClose?
    ensures NoClosing(Apply(c, s, l))
  {
    var after := Apply(c, s, l);
    forall pid | pid in after.procs ensures !IsClosing(after.procs[pid]) {
      OriginOf(c, s, l, pid);
      assert pid in s.procs ==> !IsClosing(s.procs[pid]);
    }
    match l
    case Publish(_) =>
    case Revert(_) =>
    case Save(pid) => assert !IsClosing(s.procs[pid]);
    case _ =>
  }

  lemma OrderedOfSave(c: Config, s: State, l: Label)
    requires Ledger(c, s) && LeaseHeld(s) && Ordered(s) && NoClosing(s)
    requires Enabled(c, s, l) && l.Save?
    ensures Ordered(Apply(c, s, l))
  {
    var p := s.procs[l.pid];
    assert !IsClosing(p);
    assert HoldsLock(p) && ReadingOk(c, s.log, p) && |p.marks| == s.n;
    var after := Apply(c, s, l);
    forall pid | pid in after.procs && HoldsLock(after.procs[pid]) ensures pid == l.pid {
      assert HoldsLock(s.procs[pid]);
    }
  }

  lemma OrderedOfOther(c: Config, s: State, l: Label)
    requires Ledger(c, s) && Ordered(s) && Enabled(c, s, l) && !l.Save?
    ensures Ordered(Apply(c, s, l))
  {
    var after := Apply(c, s, l);
    StoredStep(c, s, l);
    GrowthStep(c, s, l);
    if s.stored.Some? {
      forall pid | pid in after.procs && (after.procs[pid].Reader? || after.procs[pid].Holder?)
                   && after.procs[pid].role.Snapshotting? && |after.procs[pid].marks| > 0
        ensures Last(s.stored.value.marks) <= First(after.procs[pid].marks)
      {
        OriginOf(c, s, l, pid);
      }
    }
  }

  ghost predicate SnapshotRun(c: Config, states: seq<State>, labels: seq<Label>) {
    LeasedRun(c, states, labels) && forall i | 0 <= i < |labels| :: !labels[i].BeginClose?
  }

  lemma {:induction false} OrderedOfRun(c: Config, states: seq<State>, labels: seq<Label>, i: nat)
    requires SnapshotRun(c, states, labels) && i < |states|
    ensures Ordered(states[i]) && NoClosing(states[i])
  {
    if i > 0 {
      OrderedOfRun(c, states, labels, i - 1);
      LeaseOfRun(c, states, labels, i - 1);
      LedgerOfRun(c, states, labels, i - 1);
      assert IsStep(c, states, labels, i - 1);
      NoClosingStep(c, states[i - 1], labels[i - 1]);
      if labels[i - 1].Save? {
        OrderedOfSave(c, states[i - 1], labels[i - 1]);
      } else {
        OrderedOfOther(c, states[i - 1], labels[i - 1]);
      }
    }
  }

  /** Participants and every option count in `before` are at most those in `after`. */
  ghost predicate Pointwise(before: PollRow, after: PollRow) {
    before.runtime.Some? ==>
      && after.runtime.Some?
      && before.runtime.value.participants <= after.runtime.value.participants
      && before.tallies.Keys == after.tallies.Keys
      && forall id | id in before.tallies :: before.tallies[id].count <= after.tallies[id].count
  }

  /** A reading that began after another had ended has seen at least as much, if it missed nothing. */
  lemma LaterReadingIsLarger(c: Config, log: Log, q: Proc, p: Proc, f: string)
    requires ReadingOk(c, log, q) && ReadingOk(c, log, p) && q.Holder? && p.Holder? && IsField(c, f)
    requires |p.marks| > 0 && Last(q.marks) <= First(p.marks) && InBuckets(c, log, |p.marks|) && p.missed == {}
    ensures TotalOf(q.totals, f) <= TotalOf(p.totals, f)
  {
    var last, first := Last(q.marks), First(p.marks);
    SeenUpTo(log, q.marks, last, f);
    TallyGrows(log, last, first, f);
    forall k: nat | k < first ensures Seen(log, p.marks, k) {
      assert first <= p.marks[log[k].bucket];
    }
    SeenFrom(log, p.marks, first, f);
  }

  lemma HeldPointwise(c: Config, before: PollRow, q: Proc, stampQ: Option<int>, after: PollRow, p: Proc, stampP: Option<int>)
    requires c.Valid() && q.Holder? && p.Holder? && Holds(before, q.totals, stampQ) && Holds(after, p.totals, stampP)
    requires before.poll.options == c.poll.options == after.poll.options
    requires forall f | IsField(c, f) :: TotalOf(q.totals, f) <= TotalOf(p.totals, f)
    ensures Pointwise(before, after)
  {
    ParticipantsIsNoOption(c);
    assert IsField(c, PARTICIPANTS);
    forall id | id in c.Ids() ensures Count(q.totals.options, id) <= Count(p.totals.options, id) {
      assert IsField(c, id);
      assert TotalOf(q.totals, id) <= TotalOf(p.totals, id);
    }
  }

  lemma SavePointwise(c: Config, horizon: int, s: State, l: Label)
    requires Ledger(c, s) && Lasting(horizon, s) && CountKept(c, s)
    requires Ordered(s) && NoClosing(s) && Enabled(c, s, l) && l.Save?
    requires s.procs[l.pid].totals.asOf < horizon
    ensures Pointwise(s.row, Apply(c, s, l).row)
  {
    var p, after := s.procs[l.pid], Apply(c, s, l);
    BaseStep(c, s, l);
    BaseOfSave(c, s, p);
    assert !IsClosing(p) && p.role.Snapshotting?;
    if s.stored.Some? && Takes(s.row, p.totals) {
      var q := s.stored.value;
      assert ReadingOk(c, s.log, q) && ReadingOk(c, s.log, p) && MissesNothingBefore(horizon, s.now, p);
      forall f | IsField(c, f) ensures TotalOf(q.totals, f) <= TotalOf(p.totals, f) {
        LaterReadingIsLarger(c, s.log, q, p, f);
      }
      HeldPointwise(c, s.row, q, FinalStamp(q), after.row, p, FinalStamp(p));
    }
  }

  lemma StoredStamp(c: Config, s: State, l: Label)
    requires Base(c, s) && Enabled(c, s, l) && l.Save?
    ensures var row := Apply(c, s, l).row;
            || (row.runtime == s.row.runtime && row.tallies == s.row.tallies)
            || (row.runtime.Some? && row.runtime.value.capturedAt == s.procs[l.pid].totals.asOf)
  {
    BaseOfSave(c, s, s.procs[l.pid]);
    BaseStep(c, s, l);
  }

  predicate ResultBefore(horizon: int, s: State) {
    s.row.runtime.Some? ==> s.row.runtime.value.capturedAt < horizon
  }

  lemma PointwiseStep(c: Config, horizon: int, s: State, l: Label)
    requires Ledger(c, s) && Lasting(horizon, s) && CountKept(c, s) && Ordered(s) && NoClosing(s) && Enabled(c, s, l)
    requires ResultBefore(horizon, Apply(c, s, l))
    ensures Pointwise(s.row, Apply(c, s, l).row) && ResultBefore(horizon, s)
  {
    RowStep(c, s, l);
    if l.Save? {
      StoredStamp(c, s, l);
      if Apply(c, s, l).row.tallies != s.row.tallies || Apply(c, s, l).row.runtime != s.row.runtime {
        SavePointwise(c, horizon, s, l);
      }
    } else {
      ResultsOfStep(c, s, l);
    }
  }

  lemma PointwiseTransitive(a: PollRow, b: PollRow, c: PollRow)
    requires Pointwise(a, b) && Pointwise(b, c)
    ensures Pointwise(a, c)
  {
  }

  lemma PointwiseOfRun(c: Config, horizon: int, states: seq<State>, labels: seq<Label>, k: nat)
    requires SnapshotRun(c, states, labels) && SafeRun(c, horizon, states, labels) && k < |labels|
    requires ResultBefore(horizon, states[k + 1])
    ensures Pointwise(states[k].row, states[k + 1].row) && ResultBefore(horizon, states[k])
  {
    LedgerOfRun(c, states, labels, k);
    OrderedOfRun(c, states, labels, k);
    LastingOfRun(c, horizon, states, labels, k);
    CountKeptOfRun(c, states, labels, k);
    assert IsStep(c, states, labels, k);
    PointwiseStep(c, horizon, states[k], labels[k]);
  }

  /**
   * With every snapshot inside its lease, no Close, and no counter expired, the stored participants
   * and option counts never decrease, although each reading overlaps with new ballots.
   */
  lemma {:induction false} StoredTotalsNeverDecrease(c: Config, horizon: int, states: seq<State>, labels: seq<Label>, i: nat, j: nat)
    requires SnapshotRun(c, states, labels) && SafeRun(c, horizon, states, labels) && i <= j < |states|
    requires ResultBefore(horizon, states[j])
    ensures Pointwise(states[i].row, states[j].row)
    decreases j
  {
    if i < j {
      PointwiseOfRun(c, horizon, states, labels, j - 1);
      StoredTotalsNeverDecrease(c, horizon, states, labels, i, j - 1);
      PointwiseTransitive(states[i].row, states[j - 1].row, states[j].row);
    }
  }

  // ----- Compensation -----

  ghost predicate StampsOwned(s: State) {
    && (s.row.poll.publishedAt.Some? ==>
          s.row.poll.publishedAt.value in s.authors && s.authors[s.row.poll.publishedAt.value] == s.author)
    && (forall pid | pid in s.procs ::
          && pid < s.nextPid
          && (s.procs[pid].Committed? || s.procs[pid].Publisher? ==> s.procs[pid].stamp in s.authors && s.authors[s.procs[pid].stamp] == pid))
  }

  lemma AuthorsOfPublish(c: Config, s: State, l: Label)
    requires Enabled(c, s, l) && l.Publish?
    ensures var after := Apply(c, s, l);
            if s.row.poll.status == Closed then after == s
            else && after.authors == s.authors[l.stamp := s.nextPid]
                 && (if s.row.poll.status == Draft then after.row.poll.publishedAt == Some(l.stamp) && after.author == s.nextPid
                     else after.row.poll.publishedAt == s.row.poll.publishedAt && after.author == s.author)
  {
  }

  lemma AuthorsOfOther(c: Config, s: State, l: Label)
    requires Enabled(c, s, l) && !l.Publish?
    ensures var after := Apply(c, s, l);
            && after.authors == s.authors && after.author == s.author
            && (after.row.poll.publishedAt.Some? ==> after.row.poll.publishedAt == s.row.poll.publishedAt)
  {
    match l
    case Revert(_) =>
    case Save(_) =>
    case _ =>
  }

  lemma NewPidsFollow(c: Config, s: State, l: Label)
    requires Enabled(c, s, l) && forall pid | pid in s.procs :: pid < s.nextPid
    ensures forall pid | pid in Apply(c, s, l).procs :: pid < Apply(c, s, l).nextPid
  {
    PidStep(c, s, l);
    forall pid | pid in Apply(c, s, l).procs ensures pid < Apply(c, s, l).nextPid {
      OriginOf(c, s, l, pid);
    }
  }

  lemma StampsStep(c: Config, s: State, l: Label)
    requires StampsOwned(s) && Enabled(c, s, l) && DistinctStamps(s, l)
    ensures StampsOwned(Apply(c, s, l))
  {
    var after := Apply(c, s, l);
    if l.Publish? {
      AuthorsOfPublish(c, s, l);
    } else {
      AuthorsOfOther(c, s, l);
    }
    NewPidsFollow(c, s, l);
    forall pid | pid in after.procs && (after.procs[pid].Committed? || after.procs[pid].Publisher?)
      ensures after.procs[pid].stamp in after.authors && after.authors[after.procs[pid].stamp] == pid
    {
      OriginOf(c, s, l, pid);
    }
  }

  lemma {:induction false} StampsOfRun(c: Config, states: seq<State>, labels: seq<Label>, i: nat)
    requires IsRun(c, states, labels) && i < |states|
    requires forall k | 0 <= k < |labels| :: DistinctStamps(states[k], labels[k])
    ensures StampsOwned(states[i])
  {
    if i > 0 {
      StampsOfRun(c, states, labels, i - 1);
      assert IsStep(c, states, labels, i - 1);
      StampsStep(c, states[i - 1], labels[i - 1]);
    }
  }

  /**
   * The compensation of a failed Publish takes a poll back to draft exactly when the poll is active
   * through the transition of the same request; any other transition stands, its stamp included.
   */
  lemma CompensationUndoesOwnTransition(c: Config, states: seq<State>, labels: seq<Label>, i: nat)
    requires IsRun(c, states, labels) && IsStep(c, states, labels, i) && labels[i].Revert?
    requires forall k | 0 <= k < |labels| :: DistinctStamps(states[k], labels[k])
    ensures var s, after := states[i], states[i + 1];
            if s.row.poll.status == Active && s.row.poll.publishedAt == Some(s.procs[labels[i].pid].stamp)
            then s.author == labels[i].pid && after.row.poll.status == Draft && after.row.poll.publishedAt == None
            else after.row == s.row
    ensures var s, after := states[i], states[i + 1];
            s.author != labels[i].pid && s.row.poll.publishedAt.Some? ==> after.row == s.row
  {
    StampsOfRun(c, states, labels, i);
  }
}
