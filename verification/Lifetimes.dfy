/**
 * How long counters and dedup markers last, and what that keeps: until the instant up to which
 * every recorded vote asked its keys to live, nothing is missing and no ballot is counted twice.
 */
module Lifetimes {
  import opened Ballots
  import opened Exactness
  import opened Expiry
  import opened Protocol
  import opened Steps
  import opened Untorn
  import opened VoteStore

  // ----- Conditions on votes -----

  ghost predicate Records(c: Config, s: State, l: Label) {
    Enabled(c, s, l) && l.Record? && Votes(c, s, l).1 == Recorded
  }

  /** The keys of a recorded vote are set to live at least until `horizon`. */
  ghost predicate KeepsUntil(c: Config, horizon: int, s: State, l: Label) {
    Records(c, s, l) ==> horizon <= s.now + c.Life(l.computed)
  }

  ghost predicate LastingRun(c: Config, horizon: int, states: seq<State>, labels: seq<Label>) {
    IsRun(c, states, labels) && forall k | 0 <= k < |labels| :: KeepsUntil(c, horizon, states[k], labels[k])
  }

  /** maxTTL does not cut the TTL of this vote. */
  predicate UnclampedVote(c: Config, s: State, l: Label) {
    l.Record? ==> c.poll.endsAt - l.computed + c.retention <= c.maxTTL
  }

  /** Votes that maxTTL does not cut keep their keys to the end of the retention period. */
  lemma UnclampedVotesLast(c: Config, states: seq<State>, labels: seq<Label>)
    requires IsRun(c, states, labels)
    requires forall k | 0 <= k < |labels| :: UnclampedVote(c, states[k], labels[k])
    ensures LastingRun(c, c.poll.endsAt + c.retention, states, labels)
  {
    forall k | 0 <= k < |labels| ensures KeepsUntil(c, c.poll.endsAt + c.retention, states[k], labels[k]) {
      assert UnclampedVote(c, states[k], labels[k]);
    }
  }

  /** In any case, clamped or delayed: while no ballot is recorded, keys last for the TTL of that moment. */
  lemma KeysLastFromFirstBallot(c: Config, states: seq<State>, labels: seq<Label>, first: nat)
    requires IsRun(c, states, labels) && first < |states| && states[first].log == []
    ensures LastingRun(c, states[first].now + c.Life(states[first].now), states, labels)
  {
    var horizon := states[first].now + c.Life(states[first].now);
    forall k: nat | k < |labels| ensures KeepsUntil(c, horizon, states[k], labels[k]) {
      assert IsStep(c, states, labels, k);
      if Records(c, states[k], labels[k]) {
        if k < first {
          LogStep(c, states[k], labels[k]);
          LogGrows(c, states, labels, k + 1, first);
        } else {
          LogGrows(c, states, labels, first, k);
          DelayedExpiry(c.retention, c.maxTTL, c.poll.endsAt, states[first].now, labels[k].computed, states[k].now);
        }
      }
    }
  }

  // ----- Until the horizon -----

  predicate OnePerMarker(log: Log) {
    forall i, j | 0 <= i < j < |log| :: log[i].bucket != log[j].bucket || log[i].device != log[j].device
  }

  predicate MissesNothingBefore(horizon: int, now: int, p: Proc) {
    && (p.Reader? && p.missed != {} ==> horizon <= now)
    && (p.Holder? && p.missed != {} ==> horizon <= p.totals.asOf)
  }

  ghost predicate Lasting(horizon: int, s: State) {
    && (forall m | m in s.keys.markers :: horizon <= s.keys.markers[m])
    && (forall b | b in s.keys.hashes :: horizon <= s.keys.hashes[b].expires)
    && (s.now < horizon ==> s.lost == {} && OnePerMarker(s.log))
    && (forall pid | pid in s.procs :: MissesNothingBefore(horizon, s.now, s.procs[pid]))
    && (s.stored.Some? ==> s.stored.value.Holder? && MissesNothingBefore(horizon, s.now, s.stored.value))
  }

  lemma OnePerMarkerOfRecord(s: State, ballot: Ballot)
    requires MarkersKept(s) && OnePerMarker(s.log) && Marker(ballot.bucket, ballot.device) !in s.keys.markers
    ensures OnePerMarker(s.log + [ballot])
  {
    forall i | 0 <= i < |s.log| ensures s.log[i].bucket != ballot.bucket || s.log[i].device != ballot.device {
      assert Marker(s.log[i].bucket, s.log[i].device) in s.keys.markers;
    }
  }

  lemma LastingOfRecord(c: Config, horizon: int, s: State, l: Label)
    requires Ledger(c, s) && Lasting(horizon, s) && Enabled(c, s, l) && l.Record? && KeepsUntil(c, horizon, s, l)
    ensures Lasting(horizon, Apply(c, s, l))
  {
    LogStep(c, s, l);
    if Records(c, s, l) && s.now < horizon {
      OnePerMarkerOfRecord(s, NewBallot(c, s, l));
    }
  }

  lemma MissesNothingAfter(c: Config, horizon: int, s: State, l: Label, pid: nat)
    requires Ledger(c, s) && Lasting(horizon, s) && Enabled(c, s, l) && !l.Record? && pid in Apply(c, s, l).procs
    ensures MissesNothingBefore(horizon, Apply(c, s, l).now, Apply(c, s, l).procs[pid])
  {
    GrowthStep(c, s, l);
    OriginOf(c, s, l, pid);
    ProcAfter(c, s, l, pid, Apply(c, s, l).procs[pid]);
    if pid in s.procs {
      assert MissesNothingBefore(horizon, s.now, s.procs[pid]);
    }
  }

  lemma LastingOfOther(c: Config, horizon: int, s: State, l: Label)
    requires Ledger(c, s) && Lasting(horizon, s) && Enabled(c, s, l) && !l.Record?
    ensures Lasting(horizon, Apply(c, s, l))
  {
    var after := Apply(c, s, l);
    GrowthStep(c, s, l);
    LogStep(c, s, l);
    StoredStep(c, s, l);
    forall pid | pid in after.procs ensures MissesNothingBefore(horizon, after.now, after.procs[pid]) {
      MissesNothingAfter(c, horizon, s, l, pid);
    }
    if l.Save? {
      assert MissesNothingBefore(horizon, s.now, s.procs[l.pid]);
    }
  }

  lemma {:induction false} LastingOfRun(c: Config, horizon: int, states: seq<State>, labels: seq<Label>, i: nat)
    requires LastingRun(c, horizon, states, labels) && i < |states|
    ensures Lasting(horizon, states[i])
  {
    if i > 0 {
      LastingOfRun(c, horizon, states, labels, i - 1);
      LedgerOfRun(c, states, labels, i - 1);
      assert IsStep(c, states, labels, i - 1);
      var s, l := states[i - 1], labels[i - 1];
      assert KeepsUntil(c, horizon, s, l);
      if l.Record? {
        LastingOfRecord(c, horizon, s, l);
      } else {
        LastingOfOther(c, horizon, s, l);
      }
    }
  }

  // ----- Counters against live markers -----

  function LiveMarkers(keys: Keys, b: nat, now: int): set<Marker> {
    set m | m in keys.markers && m.bucket == b && now < keys.markers[m]
  }

  /** The participants counter of the bucket covers its live markers. */
  predicate CoversMarkers(s: State, b: nat) {
    |LiveMarkers(s.keys, b, s.now)| <= Count(LiveFields(s.keys, b, s.now), PARTICIPANTS)
  }

  /** A marker is alive although the counters of its bucket have expired. */
  predicate Orphaned(s: State, b: nat) {
    Lapsed(s.keys, b, s.now) && LiveMarkers(s.keys, b, s.now) != {}
  }

  ghost predicate NoOrphans(s: State) {
    forall b: nat :: !Orphaned(s, b)
  }

  ghost predicate AllCovered(s: State) {
    forall b: nat :: |LiveMarkers(s.keys, b, s.now)| <= Count(FieldsOf(s.keys, b), PARTICIPANTS)
  }

  lemma SubsetSize<T>(a: set<T>, b: set<T>)
    requires a <= b
    ensures |a| <= |b|
  {
    assert b == a + (b - a);
  }

  lemma CoveredOfRecord(c: Config, s: State, l: Label, b: nat)
    requires AllCovered(s) && Records(c, s, l) && !Orphaned(s, NewBallot(c, s, l).bucket)
    ensures var after := Apply(c, s, l);
            |LiveMarkers(after.keys, b, after.now)| <= Count(FieldsOf(after.keys, b), PARTICIPANTS)
  {
    LogStep(c, s, l);
    var after, m := Apply(c, s, l), c.MarkerOf(s.procs[l.pid].device, s.n);
    var before := LiveMarkers(s.keys, b, s.now);
    if b == m.bucket {
      SubsetSize(LiveMarkers(after.keys, b, after.now), before + {m});
      CountOfCredited(LiveFields(s.keys, b, s.now), s.procs[l.pid].options, PARTICIPANTS);
    } else {
      assert LiveMarkers(after.keys, b, after.now) == before;
    }
  }

  lemma AllCoveredStep(c: Config, s: State, l: Label)
    requires AllCovered(s) && Enabled(c, s, l) && NoOrphans(s)
    ensures AllCovered(Apply(c, s, l))
  {
    var after := Apply(c, s, l);
    LogStep(c, s, l);
    GrowthStep(c, s, l);
    forall b: nat ensures |LiveMarkers(after.keys, b, after.now)| <= Count(FieldsOf(after.keys, b), PARTICIPANTS) {
      if Records(c, s, l) {
        CoveredOfRecord(c, s, l, b);
      } else {
        SubsetSize(LiveMarkers(after.keys, b, after.now), LiveMarkers(s.keys, b, s.now));
      }
    }
  }

  lemma {:induction false} AllCoveredOfRun(c: Config, states: seq<State>, labels: seq<Label>, i: nat)
    requires IsRun(c, states, labels) && i < |states|
    requires forall k | 0 <= k < i :: NoOrphans(states[k])
    ensures AllCovered(states[i])
  {
    if i > 0 {
      AllCoveredOfRun(c, states, labels, i - 1);
      assert IsStep(c, states, labels, i - 1);
      AllCoveredStep(c, states[i - 1], labels[i - 1]);
    }
  }

  /**
   * The participants counters cover the live markers in every bucket and state of a run if and only
   * if no marker ever outlives the counters of its bucket.
   */
  lemma MarkersCoveredExactlyWhen(c: Config, states: seq<State>, labels: seq<Label>)
    requires IsRun(c, states, labels)
    ensures (forall i, b: nat | 0 <= i < |states| :: CoversMarkers(states[i], b))
            <==> (forall i | 0 <= i < |states| :: NoOrphans(states[i]))
  {
    if forall i, b: nat | 0 <= i < |states| :: CoversMarkers(states[i], b) {
      forall i | 0 <= i < |states| ensures NoOrphans(states[i]) {
        forall b: nat ensures !Orphaned(states[i], b) {
          assert CoversMarkers(states[i], b);
        }
      }
    }
    if forall i | 0 <= i < |states| :: NoOrphans(states[i]) {
      forall i, b: nat | 0 <= i < |states| ensures CoversMarkers(states[i], b) {
        AllCoveredOfRun(c, states, labels, i);
        assert NoOrphans(states[i]) && !Orphaned(states[i], b);
        assert |LiveMarkers(states[i].keys, b, states[i].now)| <= Count(FieldsOf(states[i].keys, b), PARTICIPANTS);
      }
    }
  }

  /** None does before the horizon. */
  lemma NoOrphanBeforeHorizon(c: Config, horizon: int, states: seq<State>, labels: seq<Label>, i: nat, b: nat)
    requires LastingRun(c, horizon, states, labels) && i < |states| && states[i].now < horizon
    ensures !Orphaned(states[i], b) && CoversMarkers(states[i], b)
  {
    forall k | 0 <= k <= i ensures NoOrphans(states[k]) {
      LogGrows(c, states, labels, k, i);
      LastingOfRun(c, horizon, states, labels, k);
    }
    AllCoveredOfRun(c, states, labels, i);
    assert |LiveMarkers(states[i].keys, b, states[i].now)| <= Count(FieldsOf(states[i].keys, b), PARTICIPANTS);
    LedgerOfRun(c, states, labels, i);
    LastingOfRun(c, horizon, states, labels, i);
  }

  // ----- Rounding: how far a marker can outlive its counters -----

  /** The TTL of a vote is taken at the instant the script runs. */
  predicate TTLAtEffect(s: State, l: Label) {
    l.Record? ==> l.computed == s.now
  }

  /** Later keys expire less than a second before earlier ones. */
  ghost predicate WithinASecond(c: Config, s: State) {
    && (forall m | m in s.keys.markers ::
          && s.keys.markers[m] < s.now + c.Life(s.now) + SECOND
          && m.bucket in s.keys.hashes && s.keys.markers[m] < s.keys.hashes[m.bucket].expires + SECOND)
    && forall b | b in s.keys.hashes :: s.keys.hashes[b].expires < s.now + c.Life(s.now) + SECOND
  }

  lemma WithinASecondStep(c: Config, s: State, l: Label)
    requires WithinASecond(c, s) && Enabled(c, s, l) && TTLAtEffect(s, l)
    ensures WithinASecond(c, Apply(c, s, l))
  {
    var after := Apply(c, s, l);
    LogStep(c, s, l);
    GrowthStep(c, s, l);
    ExpiryIsMonotone(c.retention, c.maxTTL, c.poll.endsAt, s.now, after.now);
  }

  lemma {:induction false} WithinASecondOfRun(c: Config, states: seq<State>, labels: seq<Label>, i: nat)
    requires IsRun(c, states, labels) && i < |states|
    requires forall k | 0 <= k < |labels| :: TTLAtEffect(states[k], labels[k])
    ensures WithinASecond(c, states[i])
  {
    if i > 0 {
      WithinASecondOfRun(c, states, labels, i - 1);
      assert IsStep(c, states, labels, i - 1);
      assert TTLAtEffect(states[i - 1], labels[i - 1]);
      WithinASecondStep(c, states[i - 1], labels[i - 1]);
    }
  }

  lemma FloorStep(c: Config, s: State, l: Label, b: nat, start: int)
    requires Enabled(c, s, l) && b in s.keys.hashes && start <= s.now
    ensures var after := Apply(c, s, l).keys.hashes;
            b in after && (after[b].expires == s.keys.hashes[b].expires || start + c.Life(start) <= after[b].expires)
  {
    LogStep(c, s, l);
    if Records(c, s, l) {
      DelayedExpiry(c.retention, c.maxTTL, c.poll.endsAt, start, l.computed, s.now);
    }
  }

  /** A bucket's counters never lose their expiry, except to one at least the TTL of `start` away. */
  lemma {:induction false} ExpiryFloor(c: Config, states: seq<State>, labels: seq<Label>, i: nat, j: nat, b: nat, start: int)
    requires IsPath(c, states, labels) && i <= j < |states| && b in states[i].keys.hashes && start <= states[i].now
    ensures b in states[j].keys.hashes
    ensures states[j].keys.hashes[b].expires == states[i].keys.hashes[b].expires
            || start + c.Life(start) <= states[j].keys.hashes[b].expires
    decreases j - i
  {
    if i < j {
      assert IsStep(c, states, labels, i);
      FloorStep(c, states[i], labels[i], b, start);
      GrowthStep(c, states[i], labels[i]);
      ExpiryFloor(c, states, labels, i + 1, j, b, start);
    }
  }

  /**
   * With TTLs taken at the instant of effect, the expiry of a bucket's counters is never, at any
   * later state, a second or more before what it was, nor a second or more before the expiry of a
   * marker of the bucket. (It can be earlier by less: TTLs are rounded up to whole seconds.)
   */
  lemma CountersLastToTheSecond(c: Config, states: seq<State>, labels: seq<Label>, i: nat, j: nat, b: nat)
    requires IsRun(c, states, labels) && i <= j < |states|
    requires forall k | 0 <= k < |labels| :: TTLAtEffect(states[k], labels[k])
    ensures b in states[i].keys.hashes ==>
              b in states[j].keys.hashes && states[i].keys.hashes[b].expires < states[j].keys.hashes[b].expires + SECOND
    ensures forall m | m in states[j].keys.markers && m.bucket == b ::
              b in states[j].keys.hashes && states[j].keys.markers[m] < states[j].keys.hashes[b].expires + SECOND
  {
    WithinASecondOfRun(c, states, labels, i);
    WithinASecondOfRun(c, states, labels, j);
    if b in states[i].keys.hashes {
      ExpiryFloor(c, states, labels, i, j, b, states[i].now);
    }
  }
}
