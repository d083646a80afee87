/**
 * Closing. A final result is compared with every ballot ever answered `recorded`, whatever votes,
 * snapshots, restarts, crashes and retries interleave, with and without overlapping Publish requests.
 */
module Finality {
  import opened Ballots
  import opened Domain
  import opened Exactness
  import opened Gates
  import opened Lifetimes
  import opened PollRepository
  import opened Protocol
  import opened Restarts
  import opened Steps
  import opened Untorn

  // ----- Every bucket is read after its gate was shut -----

  /** Process `pid` shut the gate of bucket `b` before step i, when at most `bound` ballots were recorded. */
  ghost predicate ShutBefore(states: seq<State>, labels: seq<Label>, i: nat, pid: nat, b: nat, bound: nat)
    requires |states| == |labels| + 1
  {
    exists g: nat :: g < i && g < |labels| && ClosesGate(states[g], labels[g], pid, b) && |states[g + 1].log| <= bound
  }

  ghost predicate ShutThenRead(states: seq<State>, labels: seq<Label>, i: nat, pid: nat, p: Proc)
    requires |states| == |labels| + 1 && i < |states|
  {
    && (p.Closer? ==> forall b: nat | b < p.next :: ShutBefore(states, labels, i, pid, b, |states[i].log|))
    && (p.Reader? && p.role.Closing? ==>
          && (forall b: nat | b < states[i].n :: ShutBefore(states, labels, i, pid, b, |states[i].log|))
          && forall b: nat | b < |p.marks| :: ShutBefore(states, labels, i, pid, b, p.marks[b]))
    && (p.Holder? && p.role.Closing? ==> forall b: nat | b < |p.marks| :: ShutBefore(states, labels, i, pid, b, p.marks[b]))
  }

  lemma ShutBeforeLater(states: seq<State>, labels: seq<Label>, i: nat, j: nat, pid: nat, b: nat, bound: nat, larger: nat)
    requires |states| == |labels| + 1 && i <= j && bound <= larger && ShutBefore(states, labels, i, pid, b, bound)
    ensures ShutBefore(states, labels, j, pid, b, larger)
  {
  }

  lemma ShutThenReadLater(c: Config, states: seq<State>, labels: seq<Label>, i: nat, pid: nat, p: Proc)
    requires IsRun(c, states, labels) && i < |labels| && !labels[i].Restart?
    requires ShutThenRead(states, labels, i, pid, p)
    ensures ShutThenRead(states, labels, i + 1, pid, p)
  {
    assert IsStep(c, states, labels, i);
    GrowthStep(c, states[i], labels[i]);
    CountStep(c, states[i], labels[i]);
    var j := i + 1;
    var now, later, n := |states[i].log|, |states[i + 1].log|, states[i].n;
    assert now <= later && states[i + 1].n == n;
    if p.Closer? {
      forall b: nat | b < p.next ensures ShutBefore(states, labels, j, pid, b, later) {
        ShutBeforeLater(states, labels, i, j, pid, b, now, later);
      }
    }
    if p.Reader? && p.role.Closing? {
      forall b: nat | b < n ensures ShutBefore(states, labels, j, pid, b, later) {
        ShutBeforeLater(states, labels, i, j, pid, b, now, later);
      }
    }
    if (p.Reader? || p.Holder?) && p.role.Closing? {
      forall b: nat | b < |p.marks| ensures ShutBefore(states, labels, j, pid, b, p.marks[b]) {
        ShutBeforeLater(states, labels, i, j, pid, b, p.marks[b], p.marks[b]);
      }
    }
  }

  /** How a closing process comes about. */
  lemma ClosingAfter(c: Config, s: State, l: Label, pid: nat, p: Proc)
    requires Enabled(c, s, l) && Origin(c, s, l, pid, p) && IsClosing(p)
    ensures || (l.BeginClose? && p == Closer(0))
            || (l.BeginClose? && pid in s.procs && p == s.procs[pid])
            || (!l.Restart? && !l.BeginClose? && pid in s.procs && IsClosing(s.procs[pid])
                && (|| p == s.procs[pid]
                    || (s.procs[pid].Closer? && ClosesGate(s, l, pid, s.procs[pid].next) && p == Closer(s.procs[pid].next + 1))
                    || (s.procs[pid] == Closer(s.n) && p == Reader(Closing, [], [], {}))
                    || (l == Read(pid) && s.procs[pid].Reader? && p == AfterRead(s, s.procs[pid]))
                    || (l == Stamp(pid) && s.procs[pid].Reader? && p.Holder? && p.role == s.procs[pid].role
                        && p.marks == s.procs[pid].marks)))
  {
  }

  lemma ShutThenReadOfCloseGate(states: seq<State>, labels: seq<Label>, i: nat, pid: nat, p: Proc)
    requires |states| == |labels| + 1 && i < |labels| && p.Closer? && ClosesGate(states[i], labels[i], pid, p.next)
    requires ShutThenRead(states, labels, i + 1, pid, p)
    ensures ShutThenRead(states, labels, i + 1, pid, Closer(p.next + 1))
  {
    assert ShutBefore(states, labels, i + 1, pid, p.next, |states[i + 1].log|);
  }

  lemma ShutThenReadOfRead(states: seq<State>, labels: seq<Label>, i: nat, pid: nat, p: Proc)
    requires |states| == |labels| + 1 && i < |labels| && p.Reader? && p.role.Closing?
    requires |p.marks| == |p.hashes| < states[i].n
    requires ShutThenRead(states, labels, i, pid, p) && ShutThenRead(states, labels, i + 1, pid, p)
    ensures ShutThenRead(states, labels, i + 1, pid, AfterRead(states[i], p))
  {
    ShutBeforeLater(states, labels, i, i + 1, pid, |p.marks|, |states[i].log|, |states[i].log|);
  }

  lemma ShutThenReadStep(c: Config, states: seq<State>, labels: seq<Label>, i: nat, pid: nat, p: Proc, q: Proc)
    requires IsRun(c, states, labels) && i < |labels| && Ledger(c, states[i])
    requires pid in states[i].procs && p == states[i].procs[pid] && ShutThenRead(states, labels, i, pid, p)
    requires pid in states[i + 1].procs && q == states[i + 1].procs[pid] && IsClosing(q) && !labels[i].BeginClose?
    ensures ShutThenRead(states, labels, i + 1, pid, q)
  {
    assert IsStep(c, states, labels, i);
    OriginOf(c, states[i], labels[i], pid);
    ClosingAfter(c, states[i], labels[i], pid, q);
    assert ReadingOk(c, states[i].log, p);
    ShutThenReadLater(c, states, labels, i, pid, p);
    if labels[i] == Read(pid) {
      ShutThenReadOfRead(states, labels, i, pid, p);
    } else if p.Closer? && ClosesGate(states[i], labels[i], pid, p.next) {
      ShutThenReadOfCloseGate(states, labels, i, pid, p);
    }
  }

  lemma ShutThenReadNext(c: Config, states: seq<State>, labels: seq<Label>, i: nat, pid: nat)
    requires IsRun(c, states, labels) && i < |labels| && Ledger(c, states[i])
    requires pid in states[i + 1].procs && IsClosing(states[i + 1].procs[pid])
    requires pid in states[i].procs ==> ShutThenRead(states, labels, i, pid, states[i].procs[pid])
    ensures ShutThenRead(states, labels, i + 1, pid, states[i + 1].procs[pid])
  {
    assert IsStep(c, states, labels, i);
    OriginOf(c, states[i], labels[i], pid);
    ClosingAfter(c, states[i], labels[i], pid, states[i + 1].procs[pid]);
    if !labels[i].BeginClose? {
      ShutThenReadStep(c, states, labels, i, pid, states[i].procs[pid], states[i + 1].procs[pid]);
    } else if states[i + 1].procs[pid] != Closer(0) {
      ShutThenReadLater(c, states, labels, i, pid, states[i].procs[pid]);
    }
  }

  lemma {:induction false} ShutThenReadOfRun(c: Config, states: seq<State>, labels: seq<Label>, i: nat, pid: nat)
    requires IsRun(c, states, labels) && i < |states| && pid in states[i].procs
    ensures ShutThenRead(states, labels, i, pid, states[i].procs[pid])
  {
    if i > 0 && IsClosing(states[i].procs[pid]) {
      LedgerOfRun(c, states, labels, i - 1);
      if pid in states[i - 1].procs {
        ShutThenReadOfRun(c, states, labels, i - 1, pid);
      }
      ShutThenReadNext(c, states, labels, i - 1, pid);
    }
  }

  // ----- Without reopening -----

  /** No gate is opened before step i after process `pid` has shut it. */
  ghost predicate NotReopened(states: seq<State>, labels: seq<Label>, i: nat, pid: nat)
    requires |states| == |labels| + 1 && i < |states|
  {
    forall b: nat, g: nat, q: nat | g < q < i && ClosesGate(states[g], labels[g], pid, b) :: !OpensGate(states[q], labels[q], b)
  }

  /** Step k is the commit of a Close by process `pid`. */
  ghost predicate CommitsClose(states: seq<State>, labels: seq<Label>, k: nat, pid: nat)
    requires |states| == |labels| + 1
  {
    && k < |labels| && labels[k] == Save(pid) && pid in states[k].procs
    && states[k].procs[pid].Holder? && states[k].procs[pid].role.Closing?
  }

  /** The Close has seen every ballot that ever gets into the buckets it read. */
  lemma SeenUnlessReopened(c: Config, states: seq<State>, labels: seq<Label>, k: nat, pid: nat, i: nat, j: nat)
    requires IsRun(c, states, labels) && k <= i < |states| && CommitsClose(states, labels, k, pid)
    requires NotReopened(states, labels, i, pid)
    requires j < |states[i].log| && states[i].log[j].bucket < |states[k].procs[pid].marks|
    ensures Seen(states[i].log, states[k].procs[pid].marks, j)
  {
    var p, b := states[k].procs[pid], states[i].log[j].bucket;
    ShutThenReadOfRun(c, states, labels, k, pid);
    assert ShutBefore(states, labels, k, pid, b, p.marks[b]);
    var g: nat :| g < k && g < |labels| && ClosesGate(states[g], labels[g], pid, b) && |states[g + 1].log| <= p.marks[b];
    assert IsStep(c, states, labels, g);
    NoBallotUnlessReopened(c, states, labels, g + 1, i, b);
  }

  lemma ClosedStep(c: Config, s: State, l: Label, n: nat)
    requires Base(c, s) && Enabled(c, s, l) && s.row.poll.status == Closed && (Over(s) || s.n == n)
    ensures var after := Apply(c, s, l);
            && after.row.poll.status == Closed && (Over(after) || after.n == n)
            && (InBuckets(c, s.log, n) ==> InBuckets(c, after.log, n))
  {
    RowStep(c, s, l);
    if Over(s) {
      OverStep(c, s, l);
    } else {
      CountStep(c, s, l);
      LogStep(c, s, l);
    }
  }

  /** After the commit of a Close the bucket count stays, until a restart finds that all is over. */
  lemma {:induction false} CountAfterClose(c: Config, states: seq<State>, labels: seq<Label>, m: nat, i: nat, n: nat)
    requires IsRun(c, states, labels) && m <= i < |states|
    requires states[m].row.poll.status == Closed && (Over(states[m]) || states[m].n == n)
    ensures Over(states[i]) || states[i].n == n
    ensures InBuckets(c, states[m].log, n) ==> InBuckets(c, states[i].log, n)
    decreases i - m
  {
    if m < i {
      BaseOfRun(c, states, labels, m);
      assert IsStep(c, states, labels, m);
      ClosedStep(c, states[m], labels[m], n);
      CountAfterClose(c, states, labels, m + 1, i, n);
    }
  }

  lemma CountAfterCommit(c: Config, states: seq<State>, labels: seq<Label>, k: nat, pid: nat, i: nat)
    requires IsRun(c, states, labels) && k < i < |states| && CommitsClose(states, labels, k, pid)
    requires states[k + 1].row.poll.status == Closed
    ensures Over(states[i]) || states[i].n == states[k].n
    ensures InBuckets(c, states[k].log, states[k].n) ==> InBuckets(c, states[i].log, states[k].n)
  {
    assert IsStep(c, states, labels, k);
    CountStep(c, states[k], labels[k]);
    LogStep(c, states[k], labels[k]);
    CountAfterClose(c, states, labels, k + 1, i, states[k].n);
  }

  lemma MarksOfCommit(c: Config, states: seq<State>, labels: seq<Label>, k: nat, pid: nat)
    requires IsRun(c, states, labels) && CommitsClose(states, labels, k, pid)
    ensures |states[k].procs[pid].marks| == states[k].n
    ensures forall b | 0 <= b < states[k].n :: states[k].procs[pid].marks[b] <= |states[k].log|
  {
    LedgerOfRun(c, states, labels, k);
    assert ReadingOk(c, states[k].log, states[k].procs[pid]);
  }

  lemma BallotlessStep(c: Config, states: seq<State>, labels: seq<Label>, k: nat, pid: nat, q: nat)
    requires IsRun(c, states, labels) && k < q < |labels| && CommitsClose(states, labels, k, pid)
    requires states[k + 1].row.poll.status == Closed && NotReopened(states, labels, q + 1, pid)
    ensures states[q + 1].log == states[q].log
  {
    assert IsStep(c, states, labels, q);
    CountAfterCommit(c, states, labels, k, pid, q);
    if Over(states[q]) {
      BaseOfRun(c, states, labels, q);
      OverStep(c, states[q], labels[q]);
    } else if states[q + 1].log != states[q].log {
      LogStep(c, states[q], labels[q]);
      MarksOfCommit(c, states, labels, k, pid);
      LogGrows(c, states, labels, k, q);
      SeenUnlessReopened(c, states, labels, k, pid, q + 1, |states[q].log|);
    }
  }

  /**
   * In every run: after the commit of a Close no ballot is recorded, unless a gate that this Close
   * had shut was opened again.
   */
  lemma {:induction false} NoBallotAfterCommit(c: Config, states: seq<State>, labels: seq<Label>, k: nat, pid: nat, i: nat, j: nat)
    requires IsRun(c, states, labels) && k < i <= j < |states| && CommitsClose(states, labels, k, pid)
    requires states[k + 1].row.poll.status == Closed && NotReopened(states, labels, j, pid)
    ensures states[j].log == states[i].log
    decreases j
  {
    if i < j {
      assert NotReopened(states, labels, j - 1, pid);
      NoBallotAfterCommit(c, states, labels, k, pid, i, j - 1);
      BallotlessStep(c, states, labels, k, pid, j - 1);
    }
  }

  // ----- Runs without overlapping Publish and Close -----

  ghost predicate Kinds(s: State) {
    && (forall pid, q | pid in s.procs && q in s.procs :: !(IsPublishing(s.procs[pid]) && IsClosing(s.procs[q])))
    && (forall pid | pid in s.procs && IsClosing(s.procs[pid]) :: s.row.poll.status != Draft)
    && (forall pid | pid in s.procs && IsPublishing(s.procs[pid]) :: s.row.poll.status != Closed)
  }

  lemma KindAfter(c: Config, s: State, l: Label, pid: nat, p: Proc)
    requires Enabled(c, s, l) && Origin(c, s, l, pid, p)
    ensures IsClosing(p) ==> (pid in s.procs && IsClosing(s.procs[pid])) || (l.BeginClose? && s.row.poll.status == Active)
    ensures IsPublishing(p) ==> (pid in s.procs && IsPublishing(s.procs[pid])) || (l.Publish? && s.row.poll.status != Closed)
  {
  }

  /** What changes the status, and for which process. */
  lemma StatusStep(c: Config, s: State, l: Label)
    requires Base(c, s) && Enabled(c, s, l)
    ensures var before, after := s.row.poll.status, Apply(c, s, l).row.poll.status;
            || before == after
            || (l.Publish? && before == Draft && after == Active)
            || (l.Revert? && after == Draft)
            || (l.Save? && after == Closed && IsClosing(s.procs[l.pid]))
  {
    match l
    case Publish(_) =>
    case Revert(_) =>
    case Save(_) =>
    case _ =>
  }

  lemma KindsStep(c: Config, s: State, l: Label)
    requires Base(c, s) && Kinds(s) && Enabled(c, s, l) && Serial(s, l)
    ensures Kinds(Apply(c, s, l))
  {
    var after := Apply(c, s, l);
    StatusStep(c, s, l);
    forall pid | pid in after.procs
      ensures var p := after.procs[pid];
              && (IsClosing(p) ==> (pid in s.procs && IsClosing(s.procs[pid])) || (l.BeginClose? && s.row.poll.status == Active))
              && (IsPublishing(p) ==> (pid in s.procs && IsPublishing(s.procs[pid])) || (l.Publish? && s.row.poll.status != Closed))
    {
      OriginOf(c, s, l, pid);
      KindAfter(c, s, l, pid, after.procs[pid]);
    }
    if l.Revert? {
      assert IsPublishing(s.procs[l.pid]);
    }
  }

  ghost predicate SerialRun(c: Config, states: seq<State>, labels: seq<Label>) {
    IsRun(c, states, labels) && forall i | 0 <= i < |labels| :: Serial(states[i], labels[i])
  }

  lemma {:induction false} KindsOfRun(c: Config, states: seq<State>, labels: seq<Label>, i: nat)
    requires SerialRun(c, states, labels) && i < |states|
    ensures Kinds(states[i])
  {
    if i > 0 {
      KindsOfRun(c, states, labels, i - 1);
      BaseOfRun(c, states, labels, i - 1);
      assert IsStep(c, states, labels, i - 1);
      KindsStep(c, states[i - 1], labels[i - 1]);
    }
  }

  lemma {:induction false} AliveBetween(c: Config, states: seq<State>, labels: seq<Label>, pid: nat, q: nat, k: nat)
    requires IsPath(c, states, labels) && q <= k < |states| && pid < states[q].nextPid && pid in states[k].procs
    ensures pid in states[q].procs
    decreases k - q
  {
    if q < k {
      assert IsStep(c, states, labels, q);
      OthersStay(c, states[q], labels[q], pid);
      AliveBetween(c, states, labels, pid, q + 1, k);
    }
  }

  lemma {:induction false} ClosingUntil(c: Config, states: seq<State>, labels: seq<Label>, pid: nat, g: nat, q: nat, k: nat)
    requires IsRun(c, states, labels) && g <= q <= k < |states|
    requires pid in states[g].procs && IsClosing(states[g].procs[pid]) && pid in states[k].procs
    ensures pid in states[q].procs && IsClosing(states[q].procs[pid])
    decreases q - g
  {
    if g < q {
      BaseOfRun(c, states, labels, g);
      assert IsStep(c, states, labels, g);
      OthersStay(c, states[g], labels[g], pid);
      AliveBetween(c, states, labels, pid, g + 1, k);
      OriginOf(c, states[g], labels[g], pid);
      ClosingUntil(c, states, labels, pid, g + 1, q, k);
    }
  }

  /** Without overlap, no gate is opened after a Close that gets to its commit has shut it. */
  lemma SerialNotReopened(c: Config, states: seq<State>, labels: seq<Label>, k: nat, pid: nat, i: nat)
    requires SerialRun(c, states, labels) && k < i < |states| && CommitsClose(states, labels, k, pid)
    ensures states[k + 1].row.poll.status == Closed && NotReopened(states, labels, i, pid)
  {
    KindsOfRun(c, states, labels, k);
    assert IsStep(c, states, labels, k) && IsClosing(states[k].procs[pid]);
    BaseOfRun(c, states, labels, k);
    BaseOfSave(c, states[k], states[k].procs[pid]);
    forall b: nat, g: nat, q: nat | g < q < i && ClosesGate(states[g], labels[g], pid, b)
      ensures !OpensGate(states[q], labels[q], b)
    {
      KindsOfRun(c, states, labels, q);
      if q <= k {
        if g <= k {
          ClosingUntil(c, states, labels, pid, g, q, k);
        }
      } else {
        FinalizationIsPermanent(c, states, labels, k + 1, q);
      }
    }
  }

  lemma {:induction false} ClosedByCommit(c: Config, states: seq<State>, labels: seq<Label>, i: nat) returns (k: nat, pid: nat)
    requires IsRun(c, states, labels) && i < |states| && states[i].row.poll.status == Closed
    ensures k < i && CommitsClose(states, labels, k, pid) && states[k + 1].row.poll.status == Closed
  {
    if states[i - 1].row.poll.status == Closed {
      k, pid := ClosedByCommit(c, states, labels, i - 1);
    } else {
      assert IsStep(c, states, labels, i - 1);
      k, pid := i - 1, labels[i - 1].pid;
      BaseOfRun(c, states, labels, k);
      assert IsStep(c, states, labels, k);
      ClosingCommit(c, states[k], labels[k]);
    }
  }

  lemma ClosingCommit(c: Config, s: State, l: Label)
    requires Base(c, s) && Enabled(c, s, l) && s.row.poll.status != Closed && Apply(c, s, l).row.poll.status == Closed
    ensures l.Save? && s.procs[l.pid].role.Closing?
  {
    match l
    case Publish(_) =>
    case Revert(_) =>
    case _ =>
  }

  // ----- Main results -----

  /** Without overlapping Publish and Close, no ballot is recorded once the poll is closed. */
  lemma NoBallotAfterClose(c: Config, states: seq<State>, labels: seq<Label>, i: nat, j: nat)
    requires SerialRun(c, states, labels) && i <= j < |states|
    requires states[i].row.poll.status == Closed
    ensures states[j].log == states[i].log
  {
    var k, pid := ClosedByCommit(c, states, labels, i);
    SerialNotReopened(c, states, labels, k, pid, j);
    NoBallotAfterCommit(c, states, labels, k, pid, i, j);
  }

  /** As long as the live processes can have the poll in their cache, all its gates stay shut. */
  lemma ClosedAndShut(c: Config, states: seq<State>, labels: seq<Label>, i: nat, b: nat)
    requires SerialRun(c, states, labels) && i < |states| && states[i].row.poll.status == Closed && states[i].warm
    requires b < states[i].n
    ensures ShutAt(states[i].keys, b, states[i].now)
  {
    var k, pid := ClosedByCommit(c, states, labels, i);
    SerialNotReopened(c, states, labels, k, pid, i);
    CountAfterCommit(c, states, labels, k, pid, i);
    LedgerOfRun(c, states, labels, k);
    ShutThenReadOfRun(c, states, labels, k, pid);
    var marks := states[k].procs[pid].marks;
    assert ShutBefore(states, labels, k, pid, b, marks[b]);
    var g: nat :| g < k && g < |labels| && ClosesGate(states[g], labels[g], pid, b) && |states[g + 1].log| <= marks[b];
    assert IsStep(c, states, labels, g);
    NoBallotUnlessReopened(c, states, labels, g + 1, i, b);
  }

  /** Step k, the commit of the Close by process `pid`, is the one that finalizes. */
  ghost predicate FinalizedBy(states: seq<State>, labels: seq<Label>, k: nat, pid: nat)
    requires |states| == |labels| + 1
  {
    CommitsClose(states, labels, k, pid) && !Finalized(states[k].row) && Finalized(states[k + 1].row)
  }

  lemma FinalizingCommit(c: Config, states: seq<State>, labels: seq<Label>, i: nat) returns (k: nat, pid: nat)
    requires IsRun(c, states, labels) && i < |states| && Finalized(states[i].row)
    ensures k < i && FinalizedBy(states, labels, k, pid)
  {
    BaseOfRun(c, states, labels, i);
    k, pid := StoredOfRun(c, states, labels, i);
    BaseOfRun(c, states, labels, k + 1);
  }

  lemma {:induction false} FinalStays(c: Config, states: seq<State>, labels: seq<Label>, m: nat, i: nat)
    requires IsRun(c, states, labels) && m <= i < |states| && Finalized(states[m].row)
    ensures states[i].row == states[m].row && states[i].stored == states[m].stored
    decreases i - m
  {
    if m < i {
      BaseOfRun(c, states, labels, m);
      assert IsStep(c, states, labels, m);
      RowStep(c, states[m], labels[m]);
      StoredStep(c, states[m], labels[m]);
      FinalStays(c, states, labels, m + 1, i);
    }
  }

  lemma FinalizerStaysStored(c: Config, states: seq<State>, labels: seq<Label>, i: nat, k: nat, pid: nat)
    requires IsRun(c, states, labels) && k < i < |states| && FinalizedBy(states, labels, k, pid)
    ensures states[i].stored == Some(states[k].procs[pid]) && states[i].row == states[k + 1].row
    ensures states[k + 1].row.poll.status == Closed
    ensures states[i].row.runtime.Some?
    ensures states[i].row.runtime.value.finalizedAt == Some(states[k].procs[pid].totals.asOf)
  {
    assert IsStep(c, states, labels, k);
    BaseOfRun(c, states, labels, k);
    BaseOfSave(c, states[k], states[k].procs[pid]);
    FinalStays(c, states, labels, k + 1, i);
  }

  /**
   * Exactly when a final result is the tally of every ballot ever answered `recorded`, in every run
   * in which no gate was opened again after the finalizing Close had shut it: no counts were missing
   * from the buckets it read, and no ballot is in a bucket beyond those.
   */
  lemma FinalResultExactlyWhen(c: Config, states: seq<State>, labels: seq<Label>, i: nat, k: nat, pid: nat)
    requires IsRun(c, states, labels) && k < i < |states| && FinalizedBy(states, labels, k, pid)
    requires NotReopened(states, labels, i, pid)
    ensures var s, p := states[i], states[k].procs[pid];
            ResultIsTally(c, s.row, s.log)
            <==> p.missed == {} && forall j | 0 <= j < |s.log| :: s.log[j].bucket < |p.marks|
  {
    FinalizerStaysStored(c, states, labels, i, k, pid);
    ResultIsExactlyWhen(c, states, labels, i);
    var s, p := states[i], states[k].procs[pid];
    if forall j | 0 <= j < |s.log| :: s.log[j].bucket < |p.marks| {
      forall j: nat | j < |s.log| ensures Seen(s.log, p.marks, j) {
        SeenUnlessReopened(c, states, labels, k, pid, i, j);
      }
    }
    if Covered(s.log, p.marks) {
      forall j | 0 <= j < |s.log| ensures s.log[j].bucket < |p.marks| {
        assert Seen(s.log, p.marks, j);
      }
    }
  }

  /** With the bucket counts kept, the ballots are in the buckets the Close read. */
  lemma BallotsWhereRead(c: Config, states: seq<State>, labels: seq<Label>, i: nat, k: nat, pid: nat)
    requires CountKeepingRun(c, states, labels) && k < i < |states| && CommitsClose(states, labels, k, pid)
    requires states[k + 1].row.poll.status == Closed
    ensures InBuckets(c, states[i].log, states[k].n) && |states[k].procs[pid].marks| == states[k].n
  {
    LedgerOfRun(c, states, labels, k);
    CountKeptOfRun(c, states, labels, k);
    assert IsClosing(states[k].procs[pid]);
    CountAfterCommit(c, states, labels, k, pid, i);
  }

  /** When bucket `b` is read at step r, its counters hold every ballot recorded into it so far. */
  ghost predicate CountersLasted(c: Config, states: seq<State>, labels: seq<Label>, r: nat, b: nat)
    requires r <= |labels| && r < |states|
  {
    && !Lapsed(states[r].keys, b, states[r].now)
    && forall q: nat | q < r :: q < |labels| && !StartsAfresh(c, states[q], labels[q], b)
  }

  lemma MissedExactlyWhen(c: Config, states: seq<State>, labels: seq<Label>, k: nat, pid: nat, r: nat, b: nat)
    requires IsRun(c, states, labels) && FinalizedBy(states, labels, k, pid)
    requires r < k && ReadsBucket(states, labels, r, pid, b) && b < states[k].n
    ensures b in states[k].procs[pid].missed <==> !CountersLasted(c, states, labels, r, b)
  {
    var p := states[k].procs[pid];
    MarksOfCommit(c, states, labels, k, pid);
    ReadsBehindTotals(c, states, labels, k, pid);
    assert WasRead(states, labels, k, pid, b, p.marks[b], b in p.missed);
    var q: nat :| q < k && ReadsBucket(states, labels, q, pid, b)
                  && p.marks[b] == |states[q].log| && (b in p.missed) == Missing(states[q], b);
    if q < r {
      OneReadPerBucket(c, states, labels, q, r, pid, b);
    } else if r < q {
      OneReadPerBucket(c, states, labels, r, q, pid, b);
    }
    LostExactlyWhen(c, states, labels, r, b);
  }

  /**
   * In terms of the run, without overlapping Publish and Close and with bucket counts kept: a final
   * result is the tally if and only if, at each read of the finalizing Close, the counters of the
   * bucket had not expired, neither then nor before a later ballot of that bucket.
   */
  lemma FinalResultExactlyWhenCountersLast(c: Config, states: seq<State>, labels: seq<Label>, i: nat, k: nat, pid: nat)
    requires SerialRun(c, states, labels) && CountKeepingRun(c, states, labels)
    requires k < i < |states| && FinalizedBy(states, labels, k, pid)
    ensures ResultIsTally(c, states[i].row, states[i].log)
            <==> forall b: nat, r: nat | r < k && b < states[k].n && ReadsBucket(states, labels, r, pid, b) ::
                   CountersLasted(c, states, labels, r, b)
  {
    SerialNotReopened(c, states, labels, k, pid, i);
    FinalResultExactlyWhen(c, states, labels, i, k, pid);
    FinalizerStaysStored(c, states, labels, i, k, pid);
    BallotsWhereRead(c, states, labels, i, k, pid);
    ReadsBehindTotals(c, states, labels, k, pid);
    var p := states[k].procs[pid];
    forall b: nat, r: nat | r < k && b < states[k].n && ReadsBucket(states, labels, r, pid, b)
      ensures b in p.missed <==> !CountersLasted(c, states, labels, r, b)
    {
      MissedExactlyWhen(c, states, labels, k, pid, r, b);
    }
    if p.missed != {} {
      var b :| b in p.missed;
      assert WasRead(states, labels, k, pid, b, p.marks[b], b in p.missed);
    }
  }

  /**
   * A final result is exact before the horizon: whatever votes, snapshots, crashes, retries and
   * restarts interleave, if no gate was opened again after the finalizing Close had shut it, the
   * result is the tally of every ballot ever recorded, including those recorded afterwards.
   */
  lemma FinalResultIsExactBefore(c: Config, horizon: int, states: seq<State>, labels: seq<Label>, i: nat, k: nat, pid: nat)
    requires LastingRun(c, horizon, states, labels) && CountKeepingRun(c, states, labels)
    requires k < i < |states| && FinalizedBy(states, labels, k, pid) && NotReopened(states, labels, i, pid)
    requires states[k].procs[pid].totals.asOf < horizon
    ensures ResultIsTally(c, states[i].row, states[i].log)
  {
    FinalResultExactlyWhen(c, states, labels, i, k, pid);
    FinalizerStaysStored(c, states, labels, i, k, pid);
    LastingOfRun(c, horizon, states, labels, k);
    assert MissesNothingBefore(horizon, states[k].now, states[k].procs[pid]);
    BallotsWhereRead(c, states, labels, i, k, pid);
  }

  /**
   * A final result is exact: without overlapping Publish and Close, when maxTTL cuts the TTL of no
   * vote and no restart changes the bucket count of a draft with ballots, every result finalized
   * before the end of the retention period is the tally of every ballot answered `recorded`.
   */
  lemma FinalResultIsExact(c: Config, states: seq<State>, labels: seq<Label>, i: nat)
    requires SerialRun(c, states, labels) && CountKeepingRun(c, states, labels) && i < |states|
    requires forall k | 0 <= k < |labels| :: UnclampedVote(c, states[k], labels[k])
    requires Finalized(states[i].row)
    requires states[i].row.runtime.value.finalizedAt.value < c.poll.endsAt + c.retention
    ensures ResultIsTally(c, states[i].row, states[i].log)
  {
    var k, pid := FinalizingCommit(c, states, labels, i);
    FinalizerStaysStored(c, states, labels, i, k, pid);
    SerialNotReopened(c, states, labels, k, pid, i);
    UnclampedVotesLast(c, states, labels);
    FinalResultIsExactBefore(c, c.poll.endsAt + c.retention, states, labels, i, k, pid);
  }

  /**
   * Exactly when a Close that reaches its commit finalizes: unless the poll is final already, its
   * stamp must not be older than the stored captured_at. The poll is closed either way.
   */
  lemma CloseFinalizesExactlyWhen(c: Config, states: seq<State>, labels: seq<Label>, i: nat)
    requires SerialRun(c, states, labels) && IsStep(c, states, labels, i)
    requires labels[i].Save? && states[i].procs[labels[i].pid].role.Closing?
    ensures var row, t := states[i].row, states[i].procs[labels[i].pid].totals;
            && states[i + 1].row.poll.status == Closed
            && (row.poll.status == Active && row.poll.closedAt == None ==> states[i + 1].row.poll.closedAt == Some(t.asOf))
            && (Finalized(states[i + 1].row) <==>
                  Finalized(row) || row.runtime.None? || row.runtime.value.capturedAt <= t.asOf)
  {
    BaseOfRun(c, states, labels, i);
    KindsOfRun(c, states, labels, i);
    var s := states[i];
    var p := s.procs[labels[i].pid];
    assert IsClosing(p);
    BaseOfSave(c, s, p);
  }

  /** Process q stamped its totals within the steps (i, k). */
  ghost predicate StampedWithin(labels: seq<Label>, q: nat, i: nat, k: nat)
    requires k <= |labels|
  {
    exists m :: i < m < k && labels[m] == Stamp(q)
  }

  ghost predicate NotNewer(s: State, labels: seq<Label>, i: nat, k: nat, asOf: int)
    requires k <= |labels|
  {
    && (s.row.runtime.Some? ==> s.row.runtime.value.capturedAt <= asOf)
    && forall q | q in s.procs && s.procs[q].Holder? :: s.procs[q].totals.asOf <= asOf || StampedWithin(labels, q, i, k)
  }

  lemma StampedWithinLonger(labels: seq<Label>, q: nat, i: nat, k: nat)
    requires k < |labels| && (StampedWithin(labels, q, i, k) || (i < k && labels[k] == Stamp(q)))
    ensures StampedWithin(labels, q, i, k + 1)
  {
    if StampedWithin(labels, q, i, k) {
      var m :| i < m < k && labels[m] == Stamp(q);
      assert labels[m] == Stamp(q);
    } else {
      assert labels[k] == Stamp(q);
    }
  }

  lemma CaptureStep(c: Config, s: State, l: Label, asOf: int)
    requires Base(c, s) && Enabled(c, s, l)
    requires s.row.runtime.Some? ==> s.row.runtime.value.capturedAt <= asOf
    requires l.Save? ==> s.procs[l.pid].totals.asOf <= asOf
    ensures var runtime := Apply(c, s, l).row.runtime; runtime.Some? ==> runtime.value.capturedAt <= asOf
  {
    match l
    case Publish(_) =>
    case Revert(_) =>
    case Save(_) =>
    case _ =>
  }

  lemma NotNewerStep(c: Config, s: State, labels: seq<Label>, i: nat, k: nat, asOf: int)
    requires k < |labels| && i < k && Base(c, s) && Enabled(c, s, labels[k])
    requires NotNewer(s, labels, i, k, asOf)
    requires labels[k].Save? ==> !StampedWithin(labels, labels[k].pid, i, k)
    ensures NotNewer(Apply(c, s, labels[k]), labels, i, k + 1, asOf)
  {
    var after := Apply(c, s, labels[k]);
    CaptureStep(c, s, labels[k], asOf);
    forall q | q in after.procs && after.procs[q].Holder?
      ensures after.procs[q].totals.asOf <= asOf || StampedWithin(labels, q, i, k + 1)
    {
      OriginOf(c, s, labels[k], q);
      if labels[k] == Stamp(q) || StampedWithin(labels, q, i, k) {
        StampedWithinLonger(labels, q, i, k);
      }
    }
  }

  /** A closing process keeps the totals it stamped until it commits. */
  lemma HolderStays(c: Config, s: State, l: Label, pid: nat, p: Proc)
    requires Base(c, s) && Enabled(c, s, l) && p.Holder? && p.role.Closing?
    requires pid < s.nextPid && (pid in s.procs ==> s.procs[pid] == p)
    ensures var after := Apply(c, s, l);
            pid < after.nextPid && (pid in after.procs ==> after.procs[pid] == p)
  {
    OthersStay(c, s, l, pid);
    if pid in Apply(c, s, l).procs {
      OriginOf(c, s, l, pid);
    }
  }

  /** No process that has stamped since step i commits before step k. */
  ghost predicate Undisturbed(labels: seq<Label>, i: nat, k: nat)
    requires k <= |labels|
  {
    forall m | i < m < k && labels[m].Save? :: !StampedWithin(labels, labels[m].pid, i, m)
  }

  lemma {:induction false} BetweenStampAndCommit(c: Config, states: seq<State>, labels: seq<Label>, pid: nat, i: nat, k: nat, p: Proc)
    requires IsRun(c, states, labels) && i < k < |states| && p.Holder? && p.role.Closing?
    requires pid < states[i + 1].nextPid && (pid in states[i + 1].procs ==> states[i + 1].procs[pid] == p)
    requires NotNewer(states[i + 1], labels, i, i + 1, p.totals.asOf) && Undisturbed(labels, i, k)
    ensures pid < states[k].nextPid
    ensures pid in states[k].procs ==> states[k].procs[pid] == p
    ensures NotNewer(states[k], labels, i, k, p.totals.asOf)
    decreases k
  {
    if k > i + 1 {
      assert Undisturbed(labels, i, k - 1);
      BetweenStampAndCommit(c, states, labels, pid, i, k - 1, p);
      AfterStamp(c, states, labels, pid, i, k - 1, p);
    }
  }

  lemma AfterStamp(c: Config, states: seq<State>, labels: seq<Label>, pid: nat, i: nat, k: nat, p: Proc)
    requires IsRun(c, states, labels) && i < k < |labels| && p.Holder? && p.role.Closing?
    requires pid < states[k].nextPid && (pid in states[k].procs ==> states[k].procs[pid] == p)
    requires NotNewer(states[k], labels, i, k, p.totals.asOf) && Undisturbed(labels, i, k + 1)
    ensures pid < states[k + 1].nextPid && (pid in states[k + 1].procs ==> states[k + 1].procs[pid] == p)
    ensures NotNewer(states[k + 1], labels, i, k + 1, p.totals.asOf)
  {
    assert IsStep(c, states, labels, k);
    BaseOfRun(c, states, labels, k);
    NotNewerStep(c, states[k], labels, i, k, p.totals.asOf);
    HolderStays(c, states[k], labels[k], pid, p);
  }

  /**
   * A Close finalizes if no other process both takes its stamp and commits between the stamp and
   * the commit of the Close: the one-clock form of the guard above.
   */
  lemma UndisturbedCloseFinalizes(c: Config, states: seq<State>, labels: seq<Label>, pid: nat, i: nat, j: nat)
    requires SerialRun(c, states, labels) && IsStep(c, states, labels, i) && IsStep(c, states, labels, j) && i < j
    requires labels[i] == Stamp(pid) && states[i].procs[pid].role.Closing? && labels[j] == Save(pid)
    requires Undisturbed(labels, i, j)
    ensures Finalized(states[j + 1].row)
  {
    BaseOfRun(c, states, labels, i);
    BaseOfRun(c, states, labels, i + 1);
    BetweenStampAndCommit(c, states, labels, pid, i, j, states[i + 1].procs[pid]);
    CloseFinalizesExactlyWhen(c, states, labels, j);
  }

  // ----- A closed poll without a final result -----

  ghost predicate NoCloser(s: State) {
    forall pid | pid in s.procs :: !IsClosing(s.procs[pid])
  }

  lemma UnfinalizedStep(c: Config, s: State, l: Label)
    requires Base(c, s) && Enabled(c, s, l) && s.row.poll.status == Closed && !Finalized(s.row) && NoCloser(s)
    ensures var after := Apply(c, s, l); after.row.poll.status == Closed && !Finalized(after.row) && NoCloser(after)
  {
    var after := Apply(c, s, l);
    RowStep(c, s, l);
    forall pid | pid in after.procs ensures !IsClosing(after.procs[pid]) {
      OriginOf(c, s, l, pid);
      KindAfter(c, s, l, pid, after.procs[pid]);
    }
    match l
    case Publish(_) =>
    case Revert(_) =>
    case Save(pid) => assert !IsClosing(s.procs[pid]);
    case _ =>
  }

  /**
   * A poll that was closed without finalization is never finalized once no Close of it is under way
   * any more: a new Close finds it closed and does nothing.
   */
  lemma {:induction false} UnfinalizedForGood(c: Config, states: seq<State>, labels: seq<Label>, i: nat, j: nat)
    requires IsRun(c, states, labels) && i <= j < |states|
    requires states[i].row.poll.status == Closed && !Finalized(states[i].row) && NoCloser(states[i])
    ensures states[j].row.poll.status == Closed && !Finalized(states[j].row)
    decreases j - i
  {
    if i < j {
      BaseOfRun(c, states, labels, i);
      assert IsStep(c, states, labels, i);
      UnfinalizedStep(c, states[i], labels[i]);
      UnfinalizedForGood(c, states, labels, i + 1, j);
    }
  }
}
