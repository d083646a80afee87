/**
 * Gates that have been shut: no ballot gets into a bucket until a Publish opens its gate again, and
 * exactly when that can still happen to a closed poll.
 */
module Gates {
  import opened Ballots
  import opened Domain
  import opened Protocol
  import opened Steps
  import opened Untorn
  import opened VoteStore

  predicate ShutAt(keys: Keys, b: nat, now: int) {
    b in keys.gates ==> !keys.gates[b].active || keys.gates[b].expires <= now
  }

  predicate OpensGate(s: State, l: Label, b: nat) {
    l.OpenGate? && l.pid in s.procs && s.procs[l.pid].Publisher? && s.procs[l.pid].next == b
  }

  /** Process `pid` shuts the gate of bucket `b`. */
  predicate ClosesGate(s: State, l: Label, pid: nat, b: nat) {
    l.CloseGate? && l.pid == pid && pid in s.procs && s.procs[pid].Closer? && s.procs[pid].next == b
  }

  lemma ShutStep(c: Config, s: State, l: Label, b: nat)
    requires Enabled(c, s, l) && ShutAt(s.keys, b, s.now) && !OpensGate(s, l, b)
    ensures var after := Apply(c, s, l);
            && ShutAt(after.keys, b, after.now)
            && s.log <= after.log
            && forall k | |s.log| <= k < |after.log| :: after.log[k].bucket != b
  {
    LogStep(c, s, l);
    match l
    case Publish(_) =>
    case Revert(_) =>
    case Save(_) =>
    case _ =>
  }

  /**
   * In every run: from a state where the gate of a bucket is shut, it stays shut and no ballot gets
   * into the bucket, up to the step that opens this gate again.
   */
  lemma {:induction false} NoBallotUnlessReopened(c: Config, states: seq<State>, labels: seq<Label>, i: nat, j: nat, b: nat)
    requires IsPath(c, states, labels) && i <= j < |states| && ShutAt(states[i].keys, b, states[i].now)
    requires forall q | i <= q < j :: !OpensGate(states[q], labels[q], b)
    ensures ShutAt(states[j].keys, b, states[j].now)
    ensures states[i].log <= states[j].log
    ensures forall k | |states[i].log| <= k < |states[j].log| :: states[j].log[k].bucket != b
    decreases j - i
  {
    if i < j {
      assert IsStep(c, states, labels, i);
      ShutStep(c, states[i], labels[i], b);
      NoBallotUnlessReopened(c, states, labels, i + 1, j, b);
      assert states[i + 1].log <= states[j].log;
    }
  }

  // ----- When a closed poll can be reopened -----

  ghost predicate Reaches(c: Config, s: State, t: State) {
    exists states, labels :: IsPathTo(c, states, labels, s, t)
  }

  ghost predicate IsPathTo(c: Config, states: seq<State>, labels: seq<Label>, s: State, t: State) {
    IsPath(c, states, labels) && states[0] == s && states[|states| - 1] == t
  }

  lemma ReachesItself(c: Config, s: State)
    ensures Reaches(c, s, s)
  {
    assert IsPathTo(c, [s], [], s, s);
  }

  lemma Then(c: Config, s: State, t: State, l: Label) returns (after: State)
    requires Reaches(c, s, t) && Enabled(c, t, l)
    ensures after == Apply(c, t, l) && Reaches(c, s, after)
  {
    after := Apply(c, t, l);
    var states, labels :| IsPathTo(c, states, labels, s, t);
    var longer, more := states + [after], labels + [l];
    forall i: nat | i < |more| ensures IsStep(c, longer, more, i) {
      assert i < |labels| ==> IsStep(c, states, labels, i);
    }
    assert IsPathTo(c, longer, more, s, after);
  }

  predicate OpenerOf(p: Proc, b: nat) {
    p.Committed? || (p.Publisher? && p.next <= b)
  }

  /** A Publish past its transaction has not yet come to the gate of bucket `b`. */
  predicate OpenerLeft(s: State, b: nat) {
    exists pid :: pid in s.procs && OpenerOf(s.procs[pid], b)
  }

  /** A vote of the device has been checked, or can be: from the cache, within the window. */
  predicate VoteLeft(c: Config, s: State, device: string) {
    (s.warm && s.now < c.poll.endsAt) || exists pid :: pid in s.procs && s.procs[pid].Voter? && s.procs[pid].device == device
  }

  function BucketOf(c: Config, s: State, device: string): nat
    requires s.n > 0
  {
    Bucket(c.digest, device, s.n)
  }

  /** A closed poll in which the device can no more be counted. */
  ghost predicate Settled(c: Config, s: State, device: string) {
    && Base(c, s) && s.row.poll.status == Closed
    && (!VoteLeft(c, s, device)
        || (ShutAt(s.keys, BucketOf(c, s, device), s.now) && !OpenerLeft(s, BucketOf(c, s, device))))
  }

  lemma NoVoteStep(c: Config, s: State, l: Label, device: string)
    requires Enabled(c, s, l) && s.row.poll.status == Closed && !VoteLeft(c, s, device)
    ensures !VoteLeft(c, Apply(c, s, l), device)
  {
    var after := Apply(c, s, l);
    assert after.warm ==> s.warm by {
      match l
      case Publish(_) =>
      case Save(_) =>
      case _ =>
    }
    GrowthStep(c, s, l);
    forall pid | pid in after.procs && after.procs[pid].Voter? ensures after.procs[pid].device != device {
      OriginOf(c, s, l, pid);
    }
  }

  lemma NoOpenerStep(c: Config, s: State, l: Label, b: nat)
    requires Enabled(c, s, l) && s.row.poll.status == Closed && !OpenerLeft(s, b)
    ensures !OpenerLeft(Apply(c, s, l), b) && !OpensGate(s, l, b)
  {
    var after := Apply(c, s, l);
    forall pid | pid in after.procs ensures !OpenerOf(after.procs[pid], b) {
      OriginOf(c, s, l, pid);
      assert pid in s.procs ==> !OpenerOf(s.procs[pid], b);
    }
  }

  lemma SettledStep(c: Config, s: State, l: Label, device: string)
    requires Settled(c, s, device) && Enabled(c, s, l)
    ensures Settled(c, Apply(c, s, l), device)
    ensures s.log <= Apply(c, s, l).log
    ensures forall k | |s.log| <= k < |Apply(c, s, l).log| :: Apply(c, s, l).log[k].device != device
  {
    BaseStep(c, s, l);
    RowStep(c, s, l);
    LogStep(c, s, l);
    if !VoteLeft(c, s, device) {
      NoVoteStep(c, s, l, device);
    } else if !l.Restart? {
      var b := BucketOf(c, s, device);
      NoOpenerStep(c, s, l, b);
      ShutStep(c, s, l, b);
      CountStep(c, s, l);
    }
  }

  lemma {:induction false} SettledForEver(c: Config, states: seq<State>, labels: seq<Label>, i: nat, j: nat, device: string)
    requires IsPath(c, states, labels) && i <= j < |states| && Settled(c, states[i], device)
    ensures states[i].log <= states[j].log
    ensures forall k | |states[i].log| <= k < |states[j].log| :: states[j].log[k].device != device
    decreases j - i
  {
    if i < j {
      assert IsStep(c, states, labels, i);
      SettledStep(c, states[i], labels[i], device);
      SettledForEver(c, states, labels, i + 1, j, device);
    }
  }

  /** Some continuation records a ballot of this device. */
  ghost predicate CountedLater(c: Config, s: State, device: string) {
    exists t :: Reaches(c, s, t) && NewBallotOf(s, t, device)
  }

  predicate NewBallotOf(s: State, t: State, device: string) {
    exists k :: |s.log| <= k < |t.log| && t.log[k].device == device
  }

  lemma FirstOptionIsValid(c: Config)
    requires c.Valid()
    ensures ValidSelection(c.poll, [c.poll.options[0].id])
  {
    assert OptionIds(c.poll.options)[0] == c.poll.options[0].id;
  }

  /** A vote of the device is checked, if it has not been. */
  lemma VoterChecked(c: Config, s: State, device: string, opener: nat) returns (t: State, pid: nat)
    requires c.Valid() && Base(c, s) && VoteLeft(c, s, device) && opener in s.procs && IsPublishing(s.procs[opener])
    ensures Reaches(c, s, t)
    ensures t.n == s.n && t.keys == s.keys && t.log == s.log && t.row == s.row
    ensures pid in t.procs && t.procs[pid].Voter? && t.procs[pid].device == device && t.procs[pid].checkedAt <= t.now
    ensures opener in t.procs && t.procs[opener] == s.procs[opener]
  {
    ReachesItself(c, s);
    t := s;
    if exists q :: q in s.procs && s.procs[q].Voter? && s.procs[q].device == device {
      pid :| pid in s.procs && s.procs[pid].Voter? && s.procs[pid].device == device;
    } else {
      FirstOptionIsValid(c);
      pid := s.nextPid;
      t := Then(c, s, t, Tick(if s.now < c.poll.startsAt then c.poll.startsAt - s.now else 0));
      t := Then(c, s, t, CheckVote(device, [c.poll.options[0].id]));
    }
  }

  /** And its old marker, if any, left to expire. */
  lemma VoterReady(c: Config, s: State, device: string, opener: nat) returns (t: State, pid: nat)
    requires c.Valid() && Base(c, s) && VoteLeft(c, s, device) && opener in s.procs && IsPublishing(s.procs[opener])
    ensures Reaches(c, s, t)
    ensures t.n == s.n && t.keys == s.keys && t.log == s.log && t.row == s.row
    ensures pid in t.procs && t.procs[pid].Voter? && t.procs[pid].device == device && t.procs[pid].checkedAt <= t.now
    ensures opener in t.procs && t.procs[opener] == s.procs[opener]
    ensures !Marked(t.keys, c.MarkerOf(device, t.n), t.now)
  {
    t, pid := VoterChecked(c, s, device, opener);
    var m := c.MarkerOf(device, t.n);
    if Marked(t.keys, m, t.now) {
      t := Then(c, s, t, Tick(t.keys.markers[m] - t.now));
    }
  }

  /** The publisher opens the gates up to that of bucket `b`. */
  lemma {:induction false} GateReady(c: Config, s: State, t: State, opener: nat, b: nat, voter: nat) returns (u: State)
    requires c.Valid() && Reaches(c, s, t) && b < t.n && opener in t.procs && voter in t.procs && t.procs[voter].Voter?
    requires t.procs[opener].Publisher? && t.procs[opener].next <= b
    ensures Reaches(c, s, u) && Open(u.keys, b, u.now)
    ensures u.n == t.n && u.now == t.now && u.log == t.log && u.keys.markers == t.keys.markers
    ensures voter in u.procs && u.procs[voter] == t.procs[voter]
    decreases b - t.procs[opener].next
  {
    u := Then(c, s, t, OpenGate(opener, t.now));
    if t.procs[opener].next < b {
      u := GateReady(c, s, u, opener, b, voter);
    }
  }

  lemma CountedThroughOpenGate(c: Config, s: State, t: State, voter: nat)
    requires Reaches(c, s, t) && t.n > 0 && t.log == s.log
    requires voter in t.procs && t.procs[voter].Voter? && t.procs[voter].checkedAt <= t.now
    requires var m := c.MarkerOf(t.procs[voter].device, t.n); Open(t.keys, m.bucket, t.now) && !Marked(t.keys, m, t.now)
    ensures CountedLater(c, s, t.procs[voter].device)
  {
    var u := Then(c, s, t, Record(voter, t.now));
    assert u.log[|s.log|].device == t.procs[voter].device;
  }

  lemma CountedThroughReopenedGate(c: Config, s: State, device: string)
    requires c.Valid() && Base(c, s) && VoteLeft(c, s, device) && OpenerLeft(s, BucketOf(c, s, device))
    ensures CountedLater(c, s, device)
  {
    var b := BucketOf(c, s, device);
    var opener :| opener in s.procs && OpenerOf(s.procs[opener], b);
    var t, voter := VoterReady(c, s, device, opener);
    if t.procs[opener].Committed? {
      t := Then(c, s, t, ReadBack(opener));
    }
    var u := GateReady(c, s, t, opener, b, voter);
    CountedThroughOpenGate(c, s, u, voter);
  }

  /**
   * A closed poll with all gates shut can still count a ballot of a device if and only if a Publish
   * that was past its transaction is left with the gate of the device's bucket ahead of it, and a
   * vote of the device has been checked already or can be, the window not having ended.
   */
  lemma ReopenedExactlyWhen(c: Config, s: State, device: string)
    requires c.Valid() && Base(c, s) && s.row.poll.status == Closed
    requires forall b: nat | b < s.n :: ShutAt(s.keys, b, s.now)
    ensures CountedLater(c, s, device) <==> OpenerLeft(s, BucketOf(c, s, device)) && VoteLeft(c, s, device)
  {
    if OpenerLeft(s, BucketOf(c, s, device)) && VoteLeft(c, s, device) {
      CountedThroughReopenedGate(c, s, device);
    } else if CountedLater(c, s, device) {
      var t :| Reaches(c, s, t) && NewBallotOf(s, t, device);
      var states, labels :| IsPathTo(c, states, labels, s, t);
      SettledForEver(c, states, labels, 0, |labels|, device);
    }
  }
}
