/** What holds in every run, however requests overlap: untorn results and permanent finalization. */
module Untorn {
  import opened Ballots
  import opened Counters
  import opened Domain
  import opened PollRepository
  import opened Protocol
  import opened Steps
  import opened VoteStore

  function FinalStamp(p: Proc): Option<int>
    requires p.Holder?
  {
    if p.role.Closing? then Some(p.totals.asOf) else None
  }

  predicate ProcTimes(now: int, p: Proc) {
    && (p.Voter? ==> p.checkedAt <= now)
    && (p.Holder? ==> p.totals.asOf <= now)
  }

  /** The result rows hold exactly the totals of one process. */
  predicate StoredWhole(s: State) {
    match s.stored
    case None => Empty(s.row)
    case Some(p) =>
      && p.Holder? && p.totals.asOf <= s.now
      && Holds(s.row, p.totals, FinalStamp(p))
      && (p.role.Closing? ==> s.row.poll.status == Closed)
  }

  predicate Base(c: Config, s: State) {
    && s.n > 0
    && (forall pid | pid in s.procs :: pid < s.nextPid && ProcTimes(s.now, s.procs[pid]))
    && SameDefinition(c.poll, s.row.poll)
    && (s.row.poll.status == Active ==> s.row.buckets == s.n && s.warm)
    && StoredWhole(s)
  }

  // ----- The invariant -----

  lemma BaseOfSave(c: Config, s: State, p: Proc)
    requires Base(c, s) && p.Holder? && p.totals.asOf <= s.now
    ensures var after := AfterSave(c, s, p);
            && StoredWhole(after) && SameDefinition(c.poll, after.row.poll) && after.row.buckets == s.row.buckets
            && (after.row.poll.status == Active ==> s.row.poll.status == Active)
  {
    var held := if s.stored.Some? then s.stored.value.totals else p.totals;
    var stamp := if s.stored.Some? then FinalStamp(s.stored.value) else None;
    SaveIsAllOrNothing(s.row, held, stamp, p.totals, p.role.Closing?);
  }

  lemma ProcsOfStep(c: Config, s: State, l: Label)
    requires Base(c, s) && Enabled(c, s, l)
    ensures var after := Apply(c, s, l);
            forall pid | pid in after.procs :: pid < after.nextPid && ProcTimes(after.now, after.procs[pid])
  {
    var after := Apply(c, s, l);
    GrowthStep(c, s, l);
    PidStep(c, s, l);
    forall pid | pid in after.procs ensures pid < after.nextPid && ProcTimes(after.now, after.procs[pid]) {
      OriginOf(c, s, l, pid);
    }
  }

  lemma RowOfStep(c: Config, s: State, l: Label)
    requires Base(c, s) && Enabled(c, s, l) && !l.Save?
    ensures var after := Apply(c, s, l);
            && after.n > 0
            && SameDefinition(c.poll, after.row.poll)
            && (after.row.poll.status == Active ==> after.row.buckets == after.n && after.warm)
  {
    match l
    case Publish(_) =>
    case Revert(_) =>
    case _ =>
  }

  lemma ResultsOfStep(c: Config, s: State, l: Label)
    requires Enabled(c, s, l) && !l.Save?
    ensures var after := Apply(c, s, l);
            && after.row.runtime == s.row.runtime && after.row.tallies == s.row.tallies && after.stored == s.stored
            && (s.row.poll.status == Closed ==> after.row == s.row)
  {
    match l
    case Publish(_) =>
    case Revert(_) =>
    case _ =>
  }

  lemma BaseStep(c: Config, s: State, l: Label)
    requires Base(c, s) && Enabled(c, s, l)
    ensures Base(c, Apply(c, s, l))
  {
    ProcsOfStep(c, s, l);
    GrowthStep(c, s, l);
    if l.Save? {
      BaseOfSave(c, s, s.procs[l.pid]);
    } else {
      RowOfStep(c, s, l);
      ResultsOfStep(c, s, l);
    }
  }

  lemma {:induction false} BaseOfRun(c: Config, states: seq<State>, labels: seq<Label>, i: nat)
    requires IsRun(c, states, labels) && i < |states|
    ensures Base(c, states[i])
  {
    if i > 0 {
      BaseOfRun(c, states, labels, i - 1);
      assert IsStep(c, states, labels, i - 1);
      BaseStep(c, states[i - 1], labels[i - 1]);
    }
  }

  // ----- Where totals come from -----

  /** Step r is process pid reading bucket b. */
  ghost predicate ReadsBucket(states: seq<State>, labels: seq<Label>, r: nat, pid: nat, b: nat)
    requires |states| == |labels| + 1
  {
    r < |labels| && labels[r] == Read(pid) && pid in states[r].procs && states[r].procs[pid].Reader?
    && |states[r].procs[pid].hashes| == b
  }

  /** Before step i process pid read bucket b, got `reply`, and noted the mark and whether counts were missing. */
  ghost predicate GotReply(states: seq<State>, labels: seq<Label>, i: nat, pid: nat, b: nat, reply: Fields, mark: nat, missed: bool)
    requires |states| == |labels| + 1
  {
    exists r: nat :: r < i && ReadsBucket(states, labels, r, pid, b)
      && reply == LiveFields(states[r].keys, b, states[r].now)
      && mark == |states[r].log| && missed == Missing(states[r], b)
  }

  /** The replies of a reader are what its Read steps found. */
  ghost predicate Replies(states: seq<State>, labels: seq<Label>, i: nat, pid: nat, p: Proc)
    requires |states| == |labels| + 1
  {
    p.Reader? ==>
      && |p.marks| == |p.hashes|
      && (forall b | b in p.missed :: b < |p.hashes|)
      && forall b: nat | b < |p.hashes| :: GotReply(states, labels, i, pid, b, p.hashes[b], p.marks[b], b in p.missed)
  }

  lemma RepliesLater(states: seq<State>, labels: seq<Label>, i: nat, j: nat, pid: nat, p: Proc)
    requires |states| == |labels| + 1 && i <= j && Replies(states, labels, i, pid, p)
    ensures Replies(states, labels, j, pid, p)
  {
    if p.Reader? {
      forall b: nat | b < |p.hashes| ensures GotReply(states, labels, j, pid, b, p.hashes[b], p.marks[b], b in p.missed) {
        assert GotReply(states, labels, i, pid, b, p.hashes[b], p.marks[b], b in p.missed);
      }
    }
  }

  lemma RepliesOfRead(states: seq<State>, labels: seq<Label>, i: nat, pid: nat, p: Proc)
    requires |states| == |labels| + 1 && i < |labels| && labels[i] == Read(pid) && pid in states[i].procs
    requires p == states[i].procs[pid] && p.Reader? && Replies(states, labels, i, pid, p)
    ensures Replies(states, labels, i + 1, pid, AfterRead(states[i], p))
  {
    var b, q := |p.hashes|, AfterRead(states[i], p);
    assert ReadsBucket(states, labels, i, pid, b);
    forall k: nat | k < |q.hashes| ensures GotReply(states, labels, i + 1, pid, k, q.hashes[k], q.marks[k], k in q.missed) {
      if k < b {
        assert GotReply(states, labels, i, pid, k, p.hashes[k], p.marks[k], k in p.missed);
      }
    }
  }

  lemma {:induction false} RepliesOfRun(c: Config, states: seq<State>, labels: seq<Label>, i: nat, pid: nat)
    requires IsRun(c, states, labels) && i < |states| && pid in states[i].procs
    ensures Replies(states, labels, i, pid, states[i].procs[pid])
  {
    if i > 0 && states[i].procs[pid].Reader? {
      assert IsStep(c, states, labels, i - 1);
      var s, l := states[i - 1], labels[i - 1];
      OriginOf(c, s, l, pid);
      if pid in s.procs && s.procs[pid].Reader? {
        RepliesOfRun(c, states, labels, i - 1, pid);
        if l == Read(pid) {
          RepliesOfRead(states, labels, i - 1, pid, s.procs[pid]);
        }
        RepliesLater(states, labels, i - 1, i, pid, s.procs[pid]);
      }
    }
  }

  /** The process has read its first `k` buckets, and may have stamped since. */
  predicate PastRead(s: State, pid: nat, k: nat) {
    && pid < s.nextPid
    && (pid in s.procs ==>
          || (s.procs[pid].Reader? && k <= |s.procs[pid].hashes|)
          || s.procs[pid].Holder? || s.procs[pid].Releasing?)
  }

  lemma PastReadStep(c: Config, s: State, l: Label, pid: nat, k: nat)
    requires Enabled(c, s, l) && PastRead(s, pid, k)
    ensures PastRead(Apply(c, s, l), pid, k)
  {
    PidStep(c, s, l);
    if pid in Apply(c, s, l).procs {
      OriginOf(c, s, l, pid);
    }
  }

  lemma {:induction false} PastReadStays(c: Config, states: seq<State>, labels: seq<Label>, i: nat, j: nat, pid: nat, k: nat)
    requires IsPath(c, states, labels) && i <= j < |states| && PastRead(states[i], pid, k)
    ensures PastRead(states[j], pid, k)
    decreases j - i
  {
    if i < j {
      assert IsStep(c, states, labels, i);
      PastReadStep(c, states[i], labels[i], pid, k);
      PastReadStays(c, states, labels, i + 1, j, pid, k);
    }
  }

  /** No process reads a bucket twice. */
  lemma OneReadPerBucket(c: Config, states: seq<State>, labels: seq<Label>, q: nat, r: nat, pid: nat, b: nat)
    requires IsRun(c, states, labels) && q < r
    requires ReadsBucket(states, labels, q, pid, b)
    ensures !ReadsBucket(states, labels, r, pid, b)
  {
    if r < |labels| {
      assert IsStep(c, states, labels, q);
      BaseOfRun(c, states, labels, q);
      assert PastRead(states[q + 1], pid, b + 1);
      PastReadStays(c, states, labels, q + 1, r, pid, b + 1);
    }
  }

  /** The totals of `p` are the checked sums of the replies process pid had got when it stamped them. */
  ghost predicate Aggregated(c: Config, states: seq<State>, labels: seq<Label>, i: nat, pid: nat, p: Proc)
    requires |states| == |labels| + 1
  {
    p.Holder? ==>
      exists m: nat :: m < i && m < |labels| && StampedAt(c, states[m], labels[m], pid, p)
  }

  ghost predicate StampedAt(c: Config, s: State, l: Label, pid: nat, p: Proc)
    requires p.Holder?
  {
    && l == Stamp(pid) && pid in s.procs && s.procs[pid].Reader? && |s.procs[pid].hashes| == s.n
    && p.totals == Sums(s.procs[pid].hashes, c.Ids(), s.now)
    && p.marks == s.procs[pid].marks && p.missed == s.procs[pid].missed && p.role == s.procs[pid].role
  }

  lemma {:induction false} AggregatedOfRun(c: Config, states: seq<State>, labels: seq<Label>, i: nat, pid: nat)
    requires IsRun(c, states, labels) && i < |states| && pid in states[i].procs
    ensures Aggregated(c, states, labels, i, pid, states[i].procs[pid])
  {
    if i > 0 && states[i].procs[pid].Holder? {
      assert IsStep(c, states, labels, i - 1);
      OriginOf(c, states[i - 1], labels[i - 1], pid);
      if !StampedAt(c, states[i - 1], labels[i - 1], pid, states[i].procs[pid]) {
        AggregatedOfRun(c, states, labels, i - 1, pid);
      }
    }
  }

  /** The save step k of process pid put its totals into the result rows. */
  ghost predicate StoredBy(states: seq<State>, labels: seq<Label>, k: nat, pid: nat, p: Proc)
    requires |states| == |labels| + 1
  {
    k < |labels| && labels[k] == Save(pid) && pid in states[k].procs && states[k].procs[pid] == p
    && p.Holder? && Takes(states[k].row, p.totals)
  }

  lemma StoredStep(c: Config, s: State, l: Label)
    requires Enabled(c, s, l)
    ensures var after := Apply(c, s, l);
            after.stored == s.stored
            || (l.Save? && after.stored == Some(s.procs[l.pid]) && Takes(s.row, s.procs[l.pid].totals))
  {
    match l
    case Publish(_) =>
    case Revert(_) =>
    case _ =>
  }

  lemma {:induction false} StoredOfRun(c: Config, states: seq<State>, labels: seq<Label>, i: nat) returns (k: nat, pid: nat)
    requires IsRun(c, states, labels) && i < |states| && states[i].stored.Some?
    ensures k < i && StoredBy(states, labels, k, pid, states[i].stored.value)
    ensures forall j | k < j <= i :: states[j].stored == states[i].stored
  {
    assert IsStep(c, states, labels, i - 1);
    StoredStep(c, states[i - 1], labels[i - 1]);
    if states[i].stored == states[i - 1].stored {
      k, pid := StoredOfRun(c, states, labels, i - 1);
    } else {
      k, pid := i - 1, labels[i - 1].pid;
    }
  }

  /** The runtime row and every option row hold the values and the stamp of these totals. */
  ghost predicate RowsHold(c: Config, row: PollRow, t: Totals) {
    && row.runtime.Some?
    && row.runtime.value.participants == t.participants && row.runtime.value.capturedAt == t.asOf
    && row.tallies.Keys == (set id | id in c.Ids())
    && forall id | id in c.Ids() :: row.tallies[id] == OptionRow(Count(t.options, id), t.asOf)
  }

  /**
   * Stored results are never torn: in every state of every run the runtime row and all option rows
   * hold the values and the stamp of the totals one process saved at one step k: the sums, stamped
   * at step m, of the replies that same process got by reading every bucket once.
   */
  lemma StoredResultsAreNeverTorn(c: Config, states: seq<State>, labels: seq<Label>, i: nat)
    returns (k: nat, m: nat, pid: nat)
    requires IsRun(c, states, labels) && i < |states|
    ensures states[i].row.runtime.None? ==> states[i].row.tallies == map[]
    ensures states[i].row.runtime.Some? ==>
              && m < k < i && labels[m] == Stamp(pid) && labels[k] == Save(pid)
              && pid in states[m].procs && states[m].procs[pid].Reader? && |states[m].procs[pid].hashes| == states[m].n
              && Replies(states, labels, m, pid, states[m].procs[pid])
              && RowsHold(c, states[i].row, Sums(states[m].procs[pid].hashes, c.Ids(), states[m].now))
  {
    BaseOfRun(c, states, labels, i);
    var s := states[i];
    k, m, pid := 0, 0, 0;
    if s.row.runtime.Some? {
      k, pid := StoredOfRun(c, states, labels, i);
      var p := s.stored.value;
      AggregatedOfRun(c, states, labels, k, pid);
      m :| m < k && m < |labels| && StampedAt(c, states[m], labels[m], pid, p);
      RepliesOfRun(c, states, labels, m, pid);
      assert s.row.tallies == TalliesOf(c.poll.options, p.totals);
      assert s.row.tallies.Keys == (set id | id in c.Ids());
    }
  }

  lemma RowStep(c: Config, s: State, l: Label)
    requires Base(c, s) && Enabled(c, s, l)
    ensures var after := Apply(c, s, l).row;
            && (Finalized(s.row) ==> after == s.row)
            && (s.row.poll.status == Closed ==> after.poll.status == Closed)
            && (s.row.runtime.Some? ==>
                  after.runtime.Some? && s.row.runtime.value.capturedAt <= after.runtime.value.capturedAt)
  {
    if l.Save? {
      BaseOfSave(c, s, s.procs[l.pid]);
    } else {
      ResultsOfStep(c, s, l);
    }
  }

  /**
   * Once finalized, the whole row (status, runtime row and option rows) never changes again; closed
   * is terminal and captured_at never decreases. No assumption on concurrency is needed.
   */
  lemma {:induction false} FinalizationIsPermanent(c: Config, states: seq<State>, labels: seq<Label>, i: nat, j: nat)
    requires IsRun(c, states, labels) && i <= j < |states|
    ensures Finalized(states[i].row) ==> states[j].row == states[i].row && states[i].row.poll.status == Closed
    ensures states[i].row.poll.status == Closed ==> states[j].row.poll.status == Closed
    ensures states[i].row.runtime.Some? ==>
              && states[j].row.runtime.Some?
              && states[i].row.runtime.value.capturedAt <= states[j].row.runtime.value.capturedAt
    decreases j
  {
    BaseOfRun(c, states, labels, i);
    if i < j {
      FinalizationIsPermanent(c, states, labels, i, j - 1);
      BaseOfRun(c, states, labels, j - 1);
      assert IsStep(c, states, labels, j - 1);
      RowStep(c, states[j - 1], labels[j - 1]);
    }
  }
}
