/** At most one counted ballot per device, and the flat ledger that the sharded store refines. */
module OneVote {
  import opened Ballots
  import opened Exactness
  import opened Expiry
  import opened Lifetimes
  import opened Protocol
  import opened Restarts
  import opened Steps
  import opened VoteStore

  // ----- Refinement of the flat ledger -----

  /** The specification of one vote: insert the ballot if voting is open and the device is absent. */
  function FlatVote(open: bool, log: Log, ballot: Ballot): (r: (Log, Answer))
    ensures OnePerDevice(log) ==> OnePerDevice(r.0)
  {
    if !open then (log, GateClosed)
    else if HasVoted(log, ballot.device) then (log, AlreadyRecorded)
    else (log + [ballot], Recorded)
  }

  /** A run in which restarts keep ballots together and recorded votes live until `horizon`. */
  ghost predicate SafeRun(c: Config, horizon: int, states: seq<State>, labels: seq<Label>) {
    LastingRun(c, horizon, states, labels) && CountKeepingRun(c, states, labels)
  }

  lemma SplitByDevice(c: Config, log: Log, n: nat)
    requires InBuckets(c, log, n) && OnePerMarker(log)
    ensures OnePerDevice(log)
  {
    forall i, j | 0 <= i < j < |log| ensures log[i].device != log[j].device {
      assert log[i].bucket == Bucket(c.digest, log[i].device, n) && log[j].bucket == Bucket(c.digest, log[j].device, n);
    }
  }

  lemma MarkedExactlyWhenVoted(c: Config, s: State, device: string, horizon: int)
    requires Ledger(c, s) && Lasting(horizon, s) && s.now < horizon && InBuckets(c, s.log, s.n)
    ensures Marked(s.keys, c.MarkerOf(device, s.n), s.now) <==> HasVoted(s.log, device)
  {
    var m := c.MarkerOf(device, s.n);
    if m in s.keys.markers {
      assert VotedIn(s.log, m);
    }
    if HasVoted(s.log, device) {
      var k :| 0 <= k < |s.log| && s.log[k].device == device;
      assert Marker(s.log[k].bucket, s.log[k].device) in s.keys.markers;
    }
  }

  /** What the live counters hold: each bucket its own tally, all buckets together the whole tally. */
  ghost predicate CountersHold(s: State) {
    && (forall b: nat, f :: Count(LiveFields(s.keys, b, s.now), f) == ShardTally(s.log, b, f))
    && LiveSumsAreTally(s)
  }

  lemma CountersHoldBefore(c: Config, s: State, horizon: int)
    requires Ledger(c, s) && Lasting(horizon, s) && s.now < horizon && InBuckets(c, s.log, s.n)
    ensures CountersHold(s)
  {
    forall b: nat ensures Accounts(s.log, b, LiveFields(s.keys, b, s.now), false) {
      LiveAccounts(c, s, b);
    }
    LiveSumsExactlyWhen(c, s);
  }

  lemma FlatVoteStep(c: Config, horizon: int, s: State, l: Label)
    requires Ledger(c, s) && Lasting(horizon, s) && s.now < horizon && InBuckets(c, s.log, s.n)
    requires Enabled(c, s, l) && l.Record?
    ensures var b := c.MarkerOf(s.procs[l.pid].device, s.n).bucket;
            var (log, answer) := FlatVote(Open(s.keys, b, s.now), s.log, NewBallot(c, s, l));
            Votes(c, s, l).1 == answer && Apply(c, s, l).log == log
  {
    MarkedExactlyWhenVoted(c, s, s.procs[l.pid].device, horizon);
    LogStep(c, s, l);
  }

  lemma CountersHoldOfRun(c: Config, horizon: int, states: seq<State>, labels: seq<Label>, i: nat)
    requires SafeRun(c, horizon, states, labels) && i < |states| && states[i].now < horizon
    requires InBuckets(c, states[i].log, states[i].n)
    ensures CountersHold(states[i]) && OnePerDevice(states[i].log)
  {
    LedgerOfRun(c, states, labels, i);
    LastingOfRun(c, horizon, states, labels, i);
    CountersHoldBefore(c, states[i], horizon);
    SplitByDevice(c, states[i].log, states[i].n);
  }

  /**
   * Within the horizon the script on one bucket is FlatVote on the whole ledger: same answer, same
   * ledger afterwards, and afterwards the live counters of every bucket are the tally of the ballots
   * the new ledger has there, and add up to its tally.
   */
  lemma RecordRefinesFlatVote(c: Config, horizon: int, states: seq<State>, labels: seq<Label>, i: nat)
    requires SafeRun(c, horizon, states, labels) && IsStep(c, states, labels, i) && labels[i].Record?
    requires states[i].now < horizon
    ensures var s, after := states[i], states[i + 1];
            var b := c.MarkerOf(s.procs[labels[i].pid].device, s.n).bucket;
            var (log, answer) := FlatVote(Open(s.keys, b, s.now), s.log, NewBallot(c, s, labels[i]));
            && Votes(c, s, labels[i]).1 == answer
            && after.log == log && OnePerDevice(log)
            && CountersHold(s) && CountersHold(after)
  {
    LedgerOfRun(c, states, labels, i);
    LastingOfRun(c, horizon, states, labels, i);
    CountKeptOfRun(c, states, labels, i);
    assert !Over(states[i]);
    FlatVoteStep(c, horizon, states[i], labels[i]);
    LogStep(c, states[i], labels[i]);
    assert InBuckets(c, states[i + 1].log, states[i].n);
    CountersHoldOfRun(c, horizon, states, labels, i);
    CountersHoldOfRun(c, horizon, states, labels, i + 1);
  }

  // ----- Readings that overlap with ballots -----

  /**
   * Totals read bucket by bucket while ballots keep coming: no field exceeds the exact tally at the
   * last read, in any run; and none is below the exact tally at the first read if no counts were
   * missing and the ballots of that moment were in the buckets read.
   */
  lemma TotalsAreBetween(c: Config, states: seq<State>, labels: seq<Label>, i: nat, pid: nat, f: string)
    requires IsRun(c, states, labels) && i < |states|
    requires pid in states[i].procs && states[i].procs[pid].Holder? && IsField(c, f)
    ensures var log, p := states[i].log, states[i].procs[pid];
            var first, last := First(p.marks), Last(p.marks);
            && first <= last <= |log|
            && TotalOf(p.totals, f) <= Tally(log[..last], f)
            && (p.missed == {} && (forall k | 0 <= k < first :: log[k].bucket < |p.marks|)
                ==> Tally(log[..first], f) <= TotalOf(p.totals, f))
  {
    LedgerOfRun(c, states, labels, i);
    var log, p := states[i].log, states[i].procs[pid];
    assert ReadingOk(c, log, p);
    var first, last := First(p.marks), Last(p.marks);
    SeenUpTo(log, p.marks, last, f);
    if p.missed == {} && forall k | 0 <= k < first :: log[k].bucket < |p.marks| {
      forall k: nat | k < first ensures Seen(log, p.marks, k) {
      }
      SeenFrom(log, p.marks, first, f);
    }
  }

  /** The same without the side conditions, within the horizon, unless the process started when all was over. */
  lemma TotalsAreBetweenBefore(c: Config, horizon: int, states: seq<State>, labels: seq<Label>, i: nat, pid: nat, f: string)
    requires SafeRun(c, horizon, states, labels) && i < |states|
    requires pid in states[i].procs && states[i].procs[pid].Holder? && states[i].procs[pid].totals.asOf < horizon
    requires IsField(c, f) && !Over(states[i])
    ensures var log, p := states[i].log, states[i].procs[pid];
            var first, last := First(p.marks), Last(p.marks);
            && first <= last <= |log|
            && Tally(log[..first], f) <= TotalOf(p.totals, f) <= Tally(log[..last], f)
  {
    TotalsAreBetween(c, states, labels, i, pid, f);
    LedgerOfRun(c, states, labels, i);
    CountKeptOfRun(c, states, labels, i);
    LastingOfRun(c, horizon, states, labels, i);
    assert MissesNothingBefore(horizon, states[i].now, states[i].procs[pid]);
  }

  /**
   * Totals of a reading during which no ballot arrived are the tally if and only if no counts were
   * missing and every ballot is in a bucket that was read.
   */
  lemma QuiescentTotalsAreTally(c: Config, states: seq<State>, labels: seq<Label>, i: nat, pid: nat)
    requires IsRun(c, states, labels) && i < |states|
    requires pid in states[i].procs && states[i].procs[pid].Holder?
    requires First(states[i].procs[pid].marks) == |states[i].log|
    ensures var log, p := states[i].log, states[i].procs[pid];
            IsTally(c, p.totals, log) <==> p.missed == {} && forall k | 0 <= k < |log| :: log[k].bucket < |p.marks|
  {
    LedgerOfRun(c, states, labels, i);
    var log, p := states[i].log, states[i].procs[pid];
    assert ReadingOk(c, log, p);
    TotalsAreTallyExactlyWhen(c, log, p.totals, p.marks, p.missed);
    if Covered(log, p.marks) {
      forall k: nat | k < |log| ensures log[k].bucket < |p.marks| {
        assert Seen(log, p.marks, k);
      }
    }
    if forall k | 0 <= k < |log| :: log[k].bucket < |p.marks| {
      forall k: nat | k < |log| ensures Seen(log, p.marks, k) {
        assert p.marks[0] <= p.marks[log[k].bucket];
      }
    }
  }

  // ----- At most one ballot per device -----

  /** Until the horizon, with any delays, crashes and repeated publication. */
  lemma OneBallotBefore(c: Config, horizon: int, states: seq<State>, labels: seq<Label>, i: nat)
    requires SafeRun(c, horizon, states, labels) && i < |states| && states[i].now < horizon
    ensures OnePerDevice(states[i].log)
  {
    LastingOfRun(c, horizon, states, labels, i);
    CountKeptOfRun(c, states, labels, i);
    var n :| InBuckets(c, states[i].log, n);
    SplitByDevice(c, states[i].log, n);
  }

  /** A vote reaches Redis at most `retention` after its time check. */
  predicate Prompt(c: Config, s: State, l: Label) {
    l.Record? ==> l.pid in s.procs && s.procs[l.pid].Voter? && s.now - s.procs[l.pid].checkedAt <= c.retention
  }

  predicate CheckedInWindow(c: Config, s: State) {
    forall pid | pid in s.procs && s.procs[pid].Voter? :: s.procs[pid].checkedAt < c.poll.endsAt
  }

  lemma WindowStep(c: Config, s: State, l: Label)
    requires CheckedInWindow(c, s) && Enabled(c, s, l)
    ensures CheckedInWindow(c, Apply(c, s, l))
  {
    forall pid | pid in Apply(c, s, l).procs && Apply(c, s, l).procs[pid].Voter?
      ensures Apply(c, s, l).procs[pid].checkedAt < c.poll.endsAt
    {
      OriginOf(c, s, l, pid);
    }
  }

  lemma {:induction false} WindowOfRun(c: Config, states: seq<State>, labels: seq<Label>, i: nat)
    requires IsRun(c, states, labels) && i < |states|
    ensures CheckedInWindow(c, states[i])
  {
    if i > 0 {
      WindowOfRun(c, states, labels, i - 1);
      assert IsStep(c, states, labels, i - 1);
      WindowStep(c, states[i - 1], labels[i - 1]);
    }
  }

  /**
   * For ever: when votes reach Redis within the retention period and maxTTL does not cut the TTL of
   * any vote, no device has two counted ballots in any state of any run, however often the poll is
   * published again, as long as restarts keep the bucket count of drafts with ballots.
   */
  lemma {:induction false} OneBallotPerDevice(c: Config, states: seq<State>, labels: seq<Label>, i: nat)
    requires CountKeepingRun(c, states, labels) && i < |states|
    requires forall k | 0 <= k < |labels| :: Prompt(c, states[k], labels[k])
    requires forall k | 0 <= k < |labels| :: UnclampedVote(c, states[k], labels[k])
    ensures OnePerDevice(states[i].log)
  {
    if i > 0 {
      assert IsStep(c, states, labels, i - 1);
      var s, l := states[i - 1], labels[i - 1];
      OneBallotPerDevice(c, states, labels, i - 1);
      LogStep(c, s, l);
      if states[i].log != s.log {
        WindowOfRun(c, states, labels, i - 1);
        assert Prompt(c, s, l);
        UnclampedVotesLast(c, states, labels);
        OneBallotBefore(c, c.poll.endsAt + c.retention, states, labels, i);
      }
    }
  }

  /**
   * In every run, whatever the delays, the clamp and the restarts: a device that has voted is
   * counted again exactly when its vote finds the gate of its bucket open, and its marker there
   * expired or, since all its ballots were counted in other buckets, absent.
   */
  lemma CountedAgainExactlyWhen(c: Config, states: seq<State>, labels: seq<Label>, i: nat)
    requires IsRun(c, states, labels) && IsStep(c, states, labels, i) && labels[i].Record?
    requires HasVoted(states[i].log, states[i].procs[labels[i].pid].device)
    ensures var s, device := states[i], states[i].procs[labels[i].pid].device;
            var m := c.MarkerOf(device, s.n);
            var elsewhere := forall k | 0 <= k < |s.log| && s.log[k].device == device :: s.log[k].bucket != m.bucket;
            && (m !in s.keys.markers <==> elsewhere)
            && (states[i + 1].log != s.log <==>
                  Open(s.keys, m.bucket, s.now) && (elsewhere || (m in s.keys.markers && s.keys.markers[m] <= s.now)))
            && (states[i + 1].log != s.log ==> !OnePerDevice(states[i + 1].log))
  {
    LedgerOfRun(c, states, labels, i);
    assert IsStep(c, states, labels, i);
    var s, p := states[i], states[i].procs[labels[i].pid];
    var m := c.MarkerOf(p.device, s.n);
    LogStep(c, s, labels[i]);
    if m in s.keys.markers {
      assert VotedIn(s.log, m);
    } else {
      forall k | 0 <= k < |s.log| && s.log[k].device == p.device ensures s.log[k].bucket != m.bucket {
        assert Marker(s.log[k].bucket, s.log[k].device) in s.keys.markers;
      }
    }
    var k :| 0 <= k < |s.log| && s.log[k].device == p.device;
    var ballot := NewBallot(c, s, labels[i]);
    assert (s.log + [ballot])[k].device == (s.log + [ballot])[|s.log|].device;
    if states[i + 1].log == s.log + [ballot] {
      assert !OnePerDevice(states[i + 1].log);
    }
  }

  // ----- The clamped case: one opening of each gate -----

  /** TTLs are taken at the instant of effect, and a gate is set active only before its bucket has a marker. */
  ghost predicate OpenedOnce(c: Config, s: State, l: Label) {
    && TTLAtEffect(s, l)
    && (l.OpenGate? ==> l.computed == s.now
                        && l.pid in s.procs && s.procs[l.pid].Publisher?
                        && forall m | m in s.keys.markers :: m.bucket != s.procs[l.pid].next)
  }

  ghost predicate MarkersOutlive(c: Config, s: State) {
    && (forall b | b in s.keys.gates && s.keys.gates[b].active :: s.keys.gates[b].expires <= s.now + c.Life(s.now))
    && (forall m, b | m in s.keys.markers && b in s.keys.gates && b == m.bucket && s.keys.gates[b].active ::
          s.keys.gates[b].expires <= s.keys.markers[m])
    && OnePerMarker(s.log)
  }

  lemma OutliveOfRecord(c: Config, s: State, l: Label)
    requires MarkersKept(s) && MarkersOutlive(c, s) && Enabled(c, s, l) && l.Record? && OpenedOnce(c, s, l)
    ensures MarkersOutlive(c, Apply(c, s, l))
  {
    LogStep(c, s, l);
    var m := c.MarkerOf(s.procs[l.pid].device, s.n);
    if Records(c, s, l) {
      assert m !in s.keys.markers;
      OnePerMarkerOfRecord(s, NewBallot(c, s, l));
    }
  }

  lemma OutliveOfGate(c: Config, s: State, l: Label)
    requires MarkersOutlive(c, s) && Enabled(c, s, l) && OpenedOnce(c, s, l)
    requires l.OpenGate? || l.CloseGate? || l.DropGates?
    ensures MarkersOutlive(c, Apply(c, s, l))
  {
  }

  lemma OutliveOfOther(c: Config, s: State, l: Label)
    requires MarkersOutlive(c, s) && Enabled(c, s, l)
    requires !l.Record? && !l.OpenGate? && !l.CloseGate? && !l.DropGates?
    ensures MarkersOutlive(c, Apply(c, s, l))
  {
    var after := Apply(c, s, l);
    LogStep(c, s, l);
    GrowthStep(c, s, l);
    assert after.keys == s.keys by {
      match l
      case Publish(_) =>
      case Revert(_) =>
      case Save(_) =>
      case _ =>
    }
    ExpiryIsMonotone(c.retention, c.maxTTL, c.poll.endsAt, s.now, after.now);
  }

  lemma {:induction false} MarkersOutliveGates(c: Config, states: seq<State>, labels: seq<Label>, i: nat)
    requires IsRun(c, states, labels) && i < |states|
    requires forall k | 0 <= k < |labels| :: OpenedOnce(c, states[k], labels[k])
    ensures MarkersOutlive(c, states[i])
  {
    if i > 0 {
      MarkersOutliveGates(c, states, labels, i - 1);
      LedgerOfRun(c, states, labels, i - 1);
      assert IsStep(c, states, labels, i - 1);
      var s, l := states[i - 1], labels[i - 1];
      assert OpenedOnce(c, s, l);
      match l
      case Record(_, _) => OutliveOfRecord(c, s, l);
      case OpenGate(_, _) => OutliveOfGate(c, s, l);
      case CloseGate(_, _) => OutliveOfGate(c, s, l);
      case DropGates(_) => OutliveOfGate(c, s, l);
      case _ => OutliveOfOther(c, s, l);
    }
  }

  /**
   * Even under the maxTTL clamp a marker, its seconds rounded up, outlives the gate its ballot passed
   * through; so without a second opening no device is ever counted twice.
   */
  lemma OneBallotPerOpening(c: Config, states: seq<State>, labels: seq<Label>, i: nat)
    requires CountKeepingRun(c, states, labels) && i < |states|
    requires forall k | 0 <= k < |labels| :: OpenedOnce(c, states[k], labels[k])
    ensures OnePerDevice(states[i].log)
    ensures forall m | m in states[i].keys.markers && m.bucket in states[i].keys.gates ::
              var gate := states[i].keys.gates[m.bucket]; gate.active ==> gate.expires <= states[i].keys.markers[m]
  {
    MarkersOutliveGates(c, states, labels, i);
    CountKeptOfRun(c, states, labels, i);
    var n :| InBuckets(c, states[i].log, n);
    SplitByDevice(c, states[i].log, n);
  }
}
