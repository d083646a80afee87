/**
 * Restarts that change the number of buckets. The startup check protects active polls only; what
 * keeps the ballots of a poll together is that no draft with ballots sees a new count.
 */
module Restarts {
  import opened Ballots
  import opened Domain
  import opened Protocol
  import opened Steps
  import opened Untorn

  /** Every ballot is in the bucket its device has among `n`. */
  predicate InBuckets(c: Config, log: Log, n: nat) {
    n > 0 && forall k | 0 <= k < |log| :: log[k].bucket == Bucket(c.digest, log[k].device, n)
  }

  /** Nothing more can be voted on: the poll was closed before the live processes started. */
  ghost predicate Over(s: State) {
    && s.row.poll.status == Closed && !s.warm
    && forall pid | pid in s.procs ::
         !s.procs[pid].Voter? && !IsPublishing(s.procs[pid]) && !IsClosing(s.procs[pid])
  }

  lemma OverStep(c: Config, s: State, l: Label)
    requires Base(c, s) && Over(s) && Enabled(c, s, l)
    ensures Over(Apply(c, s, l)) && Apply(c, s, l).log == s.log && Apply(c, s, l).keys == s.keys
  {
    RowStep(c, s, l);
    OverProcs(c, s, l);
    match l
    case Publish(_) =>
    case Save(_) =>
    case _ =>
  }

  lemma OverProcs(c: Config, s: State, l: Label)
    requires Base(c, s) && Over(s) && Enabled(c, s, l)
    ensures forall pid | pid in Apply(c, s, l).procs ::
              var p := Apply(c, s, l).procs[pid]; !p.Voter? && !IsPublishing(p) && !IsClosing(p)
  {
    forall pid | pid in Apply(c, s, l).procs
      ensures var p := Apply(c, s, l).procs[pid]; !p.Voter? && !IsPublishing(p) && !IsClosing(p)
    {
      OriginOf(c, s, l, pid);
      assert pid in s.procs ==> !IsClosing(s.procs[pid]);
    }
  }

  /** All ballots were counted with one bucket count, which is the present one unless voting is over. */
  ghost predicate CountKept(c: Config, s: State) {
    exists n :: InBuckets(c, s.log, n) && (n == s.n || Over(s))
  }

  lemma CountKeptOfRestart(c: Config, s: State, l: Label)
    requires Base(c, s) && CountKept(c, s) && Enabled(c, s, l) && KeepsCount(s, l) && l.Restart?
    ensures CountKept(c, Apply(c, s, l))
  {
    var after := Apply(c, s, l);
    var n :| InBuckets(c, s.log, n) && (n == s.n || Over(s));
    if s.row.poll.status == Closed {
      assert Over(after);
      assert InBuckets(c, after.log, n);
    } else {
      assert InBuckets(c, after.log, after.n);
    }
  }

  lemma CountKeptStep(c: Config, s: State, l: Label)
    requires Base(c, s) && CountKept(c, s) && Enabled(c, s, l) && KeepsCount(s, l)
    ensures CountKept(c, Apply(c, s, l))
  {
    var after := Apply(c, s, l);
    var n :| InBuckets(c, s.log, n) && (n == s.n || Over(s));
    if Over(s) {
      OverStep(c, s, l);
      assert InBuckets(c, after.log, n);
    } else if l.Restart? {
      CountKeptOfRestart(c, s, l);
    } else {
      LogStep(c, s, l);
      CountStep(c, s, l);
      assert InBuckets(c, after.log, n);
    }
  }

  ghost predicate CountKeepingRun(c: Config, states: seq<State>, labels: seq<Label>) {
    IsRun(c, states, labels) && forall k | 0 <= k < |labels| :: KeepsCount(states[k], labels[k])
  }

  lemma {:induction false} CountKeptOfRun(c: Config, states: seq<State>, labels: seq<Label>, i: nat)
    requires CountKeepingRun(c, states, labels) && i < |states|
    ensures CountKept(c, states[i])
  {
    if i > 0 {
      CountKeptOfRun(c, states, labels, i - 1);
      BaseOfRun(c, states, labels, i - 1);
      assert IsStep(c, states, labels, i - 1);
      CountKeptStep(c, states[i - 1], labels[i - 1]);
    } else {
      assert InBuckets(c, states[0].log, states[0].n);
    }
  }

  /** While the poll is active, restarts included, the bucket count is the one it was published with. */
  lemma {:induction false} CountFixedWhileActive(c: Config, states: seq<State>, labels: seq<Label>, i: nat, j: nat)
    requires IsRun(c, states, labels) && i <= j < |states|
    requires forall k | i <= k <= j :: states[k].row.poll.status == Active
    ensures states[j].n == states[i].n == states[j].row.buckets
    decreases j
  {
    BaseOfRun(c, states, labels, j);
    if i < j {
      CountFixedWhileActive(c, states, labels, i, j - 1);
      assert states[j - 1].row.poll.status == Active;
      assert IsStep(c, states, labels, j - 1);
      CountStep(c, states[j - 1], labels[j - 1]);
    }
  }
}
