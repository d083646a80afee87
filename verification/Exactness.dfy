/**
 * The sharded counters against the flat ledger, in every run: how far a bucket's counters can be
 * from the tally of its ballots, what a reader has seen of the ledger, and exactly when the totals
 * it stores are the tally.
 */
module Exactness {
  import opened Ballots
  import opened Counters
  import opened Expiry
  import opened Protocol
  import opened PollRepository
  import opened Steps
  import opened Untorn
  import opened Uuid
  import opened VoteStore

  // ----- The counters -----

  function FieldsOf(keys: Keys, b: nat): Fields {
    if b in keys.hashes then keys.hashes[b].fields else map[]
  }

  /** Counters of bucket `b` as they should be after these ballots, unless some are missing. */
  ghost predicate Accounts(log: Log, b: nat, fields: Fields, missing: bool) {
    && (forall f :: Count(fields, f) <= ShardTally(log, b, f))
    && (!missing ==> forall f :: Count(fields, f) == ShardTally(log, b, f))
    && (missing ==> Count(fields, PARTICIPANTS) < ShardTally(log, b, PARTICIPANTS))
  }

  /** A bucket has a hash, alive or expired, exactly when it has a ballot. */
  ghost predicate Tallied(s: State) {
    forall b: nat ::
      && Accounts(s.log, b, FieldsOf(s.keys, b), b in s.lost)
      && (b in s.keys.hashes <==> ShardTally(s.log, b, PARTICIPANTS) > 0)
  }

  /** There is a marker, alive or expired, for exactly the devices that have a ballot in its bucket. */
  ghost predicate MarkersKept(s: State) {
    && (forall k | 0 <= k < |s.log| :: Marker(s.log[k].bucket, s.log[k].device) in s.keys.markers)
    && (forall m | m in s.keys.markers :: VotedIn(s.log, m))
  }

  predicate VotedIn(log: Log, m: Marker) {
    exists k :: 0 <= k < |log| && log[k].bucket == m.bucket && log[k].device == m.device
  }

  // ----- Readings -----

  function TotalOf(t: Totals, field: string): nat {
    if field == PARTICIPANTS then t.participants else Count(t.options, field)
  }

  predicate IsField(c: Config, field: string) {
    field == PARTICIPANTS || field in c.Ids()
  }

  function First(marks: seq<nat>): nat {
    if |marks| == 0 then 0 else marks[0]
  }

  function Last(marks: seq<nat>): nat {
    if |marks| == 0 then 0 else marks[|marks| - 1]
  }

  predicate MarksOk(log: Log, marks: seq<nat>) {
    && (forall b | 0 <= b < |marks| :: marks[b] <= |log|)
    && (forall a, b | 0 <= a < b < |marks| :: marks[a] <= marks[b])
  }

  ghost predicate ReadingOk(c: Config, log: Log, p: Proc) {
    && (p.Reader? ==>
          && |p.marks| == |p.hashes| && MarksOk(log, p.marks)
          && (forall b | b in p.missed :: b < |p.marks|)
          && forall b: nat | b < |p.hashes| :: p.marks[b] <= |log| && Accounts(log[..p.marks[b]], b, p.hashes[b], b in p.missed))
    && (p.Holder? ==> MarksOk(log, p.marks) && TotalsOk(c, log, p.totals, p.marks, p.missed))
  }

  /** Totals are those of the ballots seen, and too low in participants if counts were missing. */
  ghost predicate TotalsOk(c: Config, log: Log, t: Totals, marks: seq<nat>, missed: set<nat>) {
    && (forall f | IsField(c, f) :: TotalOf(t, f) <= SeenTally(log, marks, f))
    && (missed == {} ==> forall f | IsField(c, f) :: TotalOf(t, f) == SeenTally(log, marks, f))
    && (missed != {} ==> t.participants < SeenTally(log, marks, PARTICIPANTS))
  }

  ghost predicate ReadingsOk(c: Config, s: State) {
    && (forall pid | pid in s.procs :: ReadingOk(c, s.log, s.procs[pid]))
    && (s.stored.Some? ==> ReadingOk(c, s.log, s.stored.value))
  }

  ghost predicate ReaderCounts(s: State) {
    forall pid | pid in s.procs ::
      && (s.procs[pid].Reader? ==> |s.procs[pid].hashes| <= s.n)
      && (s.procs[pid].Holder? ==> |s.procs[pid].marks| == s.n)
  }

  ghost predicate Ledger(c: Config, s: State) {
    && c.Valid()
    && Base(c, s)
    && Tallied(s)
    && MarkersKept(s)
    && ReadingsOk(c, s)
    && ReaderCounts(s)
  }

  // ----- Recording a ballot -----

  lemma ParticipantsIsNoOption(c: Config)
    requires c.Valid()
    ensures PARTICIPANTS !in c.Ids()
  {
    forall i | 0 <= i < |c.Ids()| ensures |c.Ids()[i]| == 36 {
      assert IsUUID(c.poll.options[i].id);
    }
  }

  /**
   * One script run that records a ballot: the counters of every bucket stay in step with the
   * ledger, except that a bucket whose hash had expired starts afresh and is short for good.
   */
  lemma AccountsAfterRecord(keys: Keys, log: Log, lost: set<nat>, ballot: Ballot, now: int, ttl: int, b: nat)
    requires Accounts(log, b, FieldsOf(keys, b), b in lost)
    requires b in keys.hashes <==> ShardTally(log, b, PARTICIPANTS) > 0
    ensures var m := Marker(ballot.bucket, ballot.device);
            var (after, answer) := Voted(keys, m, ballot.options, ttl, now);
            answer == Recorded ==>
              && Accounts(log + [ballot], b, FieldsOf(after, b),
                          b in if Lapsed(keys, m.bucket, now) then lost + {m.bucket} else lost)
              && (b in after.hashes <==> ShardTally(log + [ballot], b, PARTICIPANTS) > 0)
  {
    forall f ensures ShardTally(log + [ballot], b, f)
                  == ShardTally(log, b, f) + if ballot.bucket == b then Weight(ballot.options, f) else 0 {
      ShardTallyOfOneMore(log, ballot, b, f);
    }
    if ballot.bucket == b {
      var live := LiveFields(keys, b, now);
      forall f ensures Count(Credited(live, ballot.options), f) == Count(live, f) + Weight(ballot.options, f) {
        CountOfCredited(live, ballot.options, f);
      }
    }
  }

  lemma ReadingOkOfLongerLog(c: Config, log: Log, ballot: Ballot, p: Proc)
    requires ReadingOk(c, log, p)
    ensures ReadingOk(c, log + [ballot], p)
  {
    var longer := log + [ballot];
    if p.Reader? {
      forall b: nat | b < |p.hashes|
        ensures p.marks[b] <= |longer| && Accounts(longer[..p.marks[b]], b, p.hashes[b], b in p.missed)
      {
        assert longer[..p.marks[b]] == log[..p.marks[b]];
      }
    }
    if p.Holder? {
      forall f ensures SeenTally(longer, p.marks, f) == SeenTally(log, p.marks, f) {
        SeenOfLongerLog(log, ballot, p.marks, f);
      }
    }
  }

  lemma MarkersKeptOfRecord(s: State, ballot: Ballot, after: State)
    requires MarkersKept(s) && after.log == s.log + [ballot]
    requires after.keys.markers.Keys == s.keys.markers.Keys + {Marker(ballot.bucket, ballot.device)}
    ensures MarkersKept(after)
  {
    forall m | m in after.keys.markers ensures VotedIn(after.log, m) {
      if m in s.keys.markers {
        var k :| 0 <= k < |s.log| && s.log[k].bucket == m.bucket && s.log[k].device == m.device;
        assert after.log[k] == s.log[k];
      } else {
        assert after.log[|s.log|] == ballot;
      }
    }
  }

  lemma ReadingsOfRecord(c: Config, s: State, ballot: Ballot, after: State)
    requires ReadingsOk(c, s) && ReaderCounts(s) && after.log == s.log + [ballot] && after.n == s.n
    requires after.stored == s.stored && forall pid | pid in after.procs :: pid in s.procs && after.procs[pid] == s.procs[pid]
    ensures ReadingsOk(c, after) && ReaderCounts(after)
  {
    forall pid | pid in after.procs ensures ReadingOk(c, after.log, after.procs[pid]) {
      ReadingOkOfLongerLog(c, s.log, ballot, s.procs[pid]);
    }
    if s.stored.Some? {
      ReadingOkOfLongerLog(c, s.log, ballot, s.stored.value);
    }
  }

  lemma LedgerOfRecord(c: Config, s: State, l: Label)
    requires Ledger(c, s) && Enabled(c, s, l) && l.Record?
    ensures Ledger(c, Apply(c, s, l))
  {
    BaseStep(c, s, l);
    LogStep(c, s, l);
    var p, after := s.procs[l.pid], Apply(c, s, l);
    var (keys, answer) := Votes(c, s, l);
    if answer == Recorded {
      var ballot := NewBallot(c, s, l);
      forall b: nat ensures Accounts(after.log, b, FieldsOf(after.keys, b), b in after.lost)
                         && (b in after.keys.hashes <==> ShardTally(after.log, b, PARTICIPANTS) > 0) {
        AccountsAfterRecord(s.keys, s.log, s.lost, ballot, s.now, WholeSeconds(c.Life(l.computed)), b);
      }
      MarkersKeptOfRecord(s, ballot, after);
      ReadingsOfRecord(c, s, ballot, after);
    }
  }

  // ----- Reading -----

  /** What HGETALL returns accounts for the ballots so far, unless the bucket is short or has expired. */
  lemma LiveAccounts(c: Config, s: State, b: nat)
    requires Ledger(c, s)
    ensures Accounts(s.log, b, LiveFields(s.keys, b, s.now), Missing(s, b))
  {
    assert Accounts(s.log, b, FieldsOf(s.keys, b), b in s.lost);
  }

  lemma ReadingOkOfRead(c: Config, s: State, p: Proc)
    requires Ledger(c, s) && p.Reader? && ReadingOk(c, s.log, p)
    ensures ReadingOk(c, s.log, AfterRead(s, p))
  {
    var q := AfterRead(s, p);
    var last := |p.hashes|;
    forall b: nat | b < |q.hashes|
      ensures q.marks[b] <= |s.log| && Accounts(s.log[..q.marks[b]], b, q.hashes[b], b in q.missed)
    {
      if b < last {
        assert Accounts(s.log[..p.marks[b]], b, p.hashes[b], b in p.missed);
      } else {
        LiveAccounts(c, s, b);
        assert s.log[..|s.log|] == s.log;
      }
    }
  }

  /** The replies account for the ballots up to the marks of their buckets. */
  ghost predicate RepliesAccount(log: Log, hashes: seq<Fields>, marks: seq<nat>, missed: set<nat>) {
    |marks| == |hashes|
    && forall b: nat | b < |hashes| :: marks[b] <= |log| && Accounts(log[..marks[b]], b, hashes[b], b in missed)
  }

  lemma {:induction false} ColumnAtMostSeen(log: Log, hashes: seq<Fields>, marks: seq<nat>, missed: set<nat>, f: string)
    requires RepliesAccount(log, hashes, marks, missed)
    ensures ColumnSum(hashes, f) <= SeenTally(log, marks, f)
  {
    if |hashes| == 0 {
      SeenNothing(log, f);
    } else {
      var k := |hashes| - 1;
      ColumnAtMostSeen(log, hashes[..k], marks[..k], missed, f);
      assert marks == marks[..k] + [marks[k]];
      SeenOneMore(log, marks[..k], marks[k], f);
      assert Accounts(log[..marks[k]], k, hashes[k], k in missed);
    }
  }

  lemma {:induction false} ColumnIsSeen(log: Log, hashes: seq<Fields>, marks: seq<nat>, missed: set<nat>, f: string)
    requires RepliesAccount(log, hashes, marks, missed) && forall b: nat | b < |hashes| :: b !in missed
    ensures ColumnSum(hashes, f) == SeenTally(log, marks, f)
  {
    if |hashes| == 0 {
      SeenNothing(log, f);
    } else {
      var k := |hashes| - 1;
      ColumnIsSeen(log, hashes[..k], marks[..k], missed, f);
      assert marks == marks[..k] + [marks[k]];
      SeenOneMore(log, marks[..k], marks[k], f);
      assert Accounts(log[..marks[k]], k, hashes[k], k in missed);
    }
  }

  lemma {:induction false} ColumnIsShort(log: Log, hashes: seq<Fields>, marks: seq<nat>, missed: set<nat>, b: nat)
    requires RepliesAccount(log, hashes, marks, missed) && b < |hashes| && b in missed
    ensures ColumnSum(hashes, PARTICIPANTS) < SeenTally(log, marks, PARTICIPANTS)
  {
    var k := |hashes| - 1;
    assert marks == marks[..k] + [marks[k]];
    SeenOneMore(log, marks[..k], marks[k], PARTICIPANTS);
    assert Accounts(log[..marks[k]], k, hashes[k], k in missed);
    if b < k {
      ColumnIsShort(log, hashes[..k], marks[..k], missed, b);
    } else {
      ColumnAtMostSeen(log, hashes[..k], marks[..k], missed, PARTICIPANTS);
    }
  }

  lemma TotalsOkOfStamp(c: Config, log: Log, p: Proc, asOf: int)
    requires c.Valid() && p.Reader? && ReadingOk(c, log, p)
    ensures TotalsOk(c, log, Sums(p.hashes, c.Ids(), asOf), p.marks, p.missed)
  {
    ParticipantsIsNoOption(c);
    forall f | IsField(c, f)
      ensures TotalOf(Sums(p.hashes, c.Ids(), asOf), f) == ColumnSum(p.hashes, f)
      ensures ColumnSum(p.hashes, f) <= SeenTally(log, p.marks, f)
      ensures p.missed == {} ==> ColumnSum(p.hashes, f) == SeenTally(log, p.marks, f)
    {
      ColumnAtMostSeen(log, p.hashes, p.marks, p.missed, f);
      if p.missed == {} {
        ColumnIsSeen(log, p.hashes, p.marks, p.missed, f);
      }
    }
    if p.missed != {} {
      var b :| b in p.missed;
      ColumnIsShort(log, p.hashes, p.marks, p.missed, b);
    }
  }

  // ----- Every other step -----

  lemma LedgerOfSameCounts(c: Config, s: State, after: State)
    requires Ledger(c, s) && Base(c, after)
    requires after.log == s.log && after.lost == s.lost
    requires after.keys.markers == s.keys.markers && after.keys.hashes == s.keys.hashes
    requires forall pid | pid in after.procs :: ReadingOk(c, s.log, after.procs[pid])
    requires ReaderCounts(after)
    requires after.stored.Some? ==> ReadingOk(c, s.log, after.stored.value)
    ensures Ledger(c, after)
  {
    forall b: nat ensures Accounts(after.log, b, FieldsOf(after.keys, b), b in after.lost)
                       && (b in after.keys.hashes <==> ShardTally(after.log, b, PARTICIPANTS) > 0) {
      assert Accounts(s.log, b, FieldsOf(s.keys, b), b in s.lost);
    }
  }

  /** What a step other than Record can make of a process. */
  lemma ProcAfter(c: Config, s: State, l: Label, pid: nat, p: Proc)
    requires Enabled(c, s, l) && !l.Record? && Origin(c, s, l, pid, p)
    ensures || (pid in s.procs && p == s.procs[pid] && !l.Restart?)
            || (!p.Reader? && !p.Holder?)
            || (p.Reader? && p.hashes == [] && p.marks == [] && p.missed == {})
            || (l == Read(pid) && p == AfterRead(s, s.procs[pid]))
            || (l == Stamp(pid) && StampedAt(c, s, l, pid, p))
  {
  }

  lemma ReadingOkAfter(c: Config, s: State, l: Label, pid: nat)
    requires Ledger(c, s) && Enabled(c, s, l) && !l.Record? && pid in Apply(c, s, l).procs
    ensures ReadingOk(c, s.log, Apply(c, s, l).procs[pid])
  {
    OriginOf(c, s, l, pid);
    ProcAfter(c, s, l, pid, Apply(c, s, l).procs[pid]);
    if pid in s.procs {
      assert ReadingOk(c, s.log, s.procs[pid]);
      if l == Read(pid) {
        ReadingOkOfRead(c, s, s.procs[pid]);
      } else if l == Stamp(pid) {
        TotalsOkOfStamp(c, s.log, s.procs[pid], s.now);
      }
    }
  }

  lemma ReaderCountsAfter(c: Config, s: State, l: Label)
    requires Ledger(c, s) && Enabled(c, s, l) && !l.Record?
    ensures ReaderCounts(Apply(c, s, l))
  {
    var after := Apply(c, s, l);
    assert after.n == s.n || l.Restart? by {
      CountStep(c, s, l);
    }
    forall pid | pid in after.procs
      ensures (after.procs[pid].Reader? ==> |after.procs[pid].hashes| <= after.n)
           && (after.procs[pid].Holder? ==> |after.procs[pid].marks| == after.n)
    {
      OriginOf(c, s, l, pid);
      ProcAfter(c, s, l, pid, Apply(c, s, l).procs[pid]);
      if pid in s.procs {
        assert ReadingOk(c, s.log, s.procs[pid]);
      }
    }
  }

  lemma LedgerStep(c: Config, s: State, l: Label)
    requires Ledger(c, s) && Enabled(c, s, l)
    ensures Ledger(c, Apply(c, s, l))
  {
    if l.Record? {
      LedgerOfRecord(c, s, l);
    } else {
      var after := Apply(c, s, l);
      BaseStep(c, s, l);
      LogStep(c, s, l);
      StoredStep(c, s, l);
      ReaderCountsAfter(c, s, l);
      forall pid | pid in after.procs ensures ReadingOk(c, s.log, after.procs[pid]) {
        ReadingOkAfter(c, s, l, pid);
      }
      LedgerOfSameCounts(c, s, after);
    }
  }

  /** In every state of every run, with no condition on time, overlap or restarts. */
  lemma {:induction false} LedgerOfRun(c: Config, states: seq<State>, labels: seq<Label>, i: nat)
    requires IsRun(c, states, labels) && i < |states|
    ensures Ledger(c, states[i])
  {
    if i > 0 {
      LedgerOfRun(c, states, labels, i - 1);
      assert IsStep(c, states, labels, i - 1);
      LedgerStep(c, states[i - 1], labels[i - 1]);
    }
  }

  // ----- Main results -----

  /** A ballot recorded into a bucket after the hash of its earlier ballots had expired. */
  ghost predicate StartsAfresh(c: Config, s: State, l: Label, b: nat) {
    && Enabled(c, s, l) && l.Record? && Votes(c, s, l).1 == Recorded
    && NewBallot(c, s, l).bucket == b && Lapsed(s.keys, b, s.now)
  }

  /**
   * When counters are short: a bucket's stored counters never exceed the tally of its ballots; they
   * are that tally if and only if no ballot has been recorded into it over an expired hash.
   */
  lemma ShortExactlyWhen(c: Config, states: seq<State>, labels: seq<Label>, i: nat, b: nat)
    requires IsRun(c, states, labels) && i < |states|
    ensures forall f :: Count(FieldsOf(states[i].keys, b), f) <= ShardTally(states[i].log, b, f)
    ensures (forall f :: Count(FieldsOf(states[i].keys, b), f) == ShardTally(states[i].log, b, f))
            <==> !exists k: nat :: k < i && StartsAfresh(c, states[k], labels[k], b)
  {
    LedgerOfRun(c, states, labels, i);
    assert Accounts(states[i].log, b, FieldsOf(states[i].keys, b), b in states[i].lost);
    LostExactlyWhen(c, states, labels, i, b);
  }

  lemma {:induction false} LostExactlyWhen(c: Config, states: seq<State>, labels: seq<Label>, i: nat, b: nat)
    requires IsRun(c, states, labels) && i < |states|
    ensures b in states[i].lost <==> exists k: nat :: k < i && StartsAfresh(c, states[k], labels[k], b)
  {
    if i > 0 {
      LostExactlyWhen(c, states, labels, i - 1, b);
      assert IsStep(c, states, labels, i - 1);
      LogStep(c, states[i - 1], labels[i - 1]);
    }
  }

  /** The sums over all live hashes at one moment are the tally. */
  ghost predicate LiveSumsAreTally(s: State) {
    forall f :: ColumnSum(LiveHashes(s.keys, s.n, s.now), f) == Tally(s.log, f)
  }

  /** No counts are missing now, and every ballot is in a bucket of the present ones. */
  predicate Intact(s: State) {
    && (forall b: nat | b < s.n :: !Missing(s, b))
    && forall k | 0 <= k < |s.log| :: s.log[k].bucket < s.n
  }

  ghost predicate AllAccount(log: Log, hashes: seq<Fields>, missed: set<nat>) {
    && (forall b: nat | b < |hashes| :: Accounts(log, b, hashes[b], b in missed))
    && forall b | b in missed :: b < |hashes|
  }

  lemma SumsAtOnce(log: Log, hashes: seq<Fields>, marks: seq<nat>, missed: set<nat>, f: string)
    requires AllAccount(log, hashes, missed) && |marks| == |hashes| && forall b | 0 <= b < |marks| :: marks[b] == |log|
    ensures missed == {} && Covered(log, marks) ==> ColumnSum(hashes, f) == Tally(log, f)
    ensures missed != {} || !Covered(log, marks) ==> ColumnSum(hashes, PARTICIPANTS) < Tally(log, PARTICIPANTS)
  {
    assert log[..|log|] == log;
    ColumnAtMostSeen(log, hashes, marks, missed, PARTICIPANTS);
    SeenAtMostTally(log, marks, f);
    SeenAtMostTally(log, marks, PARTICIPANTS);
    if missed == {} {
      ColumnIsSeen(log, hashes, marks, missed, f);
    } else {
      var b :| b in missed;
      ColumnIsShort(log, hashes, marks, missed, b);
    }
    if !Covered(log, marks) {
      UncoveredIsLess(log, marks);
    }
  }

  /** Exactly when a reading at one moment gives the tally of every ballot; otherwise participants are missing. */
  lemma LiveSumsExactlyWhen(c: Config, s: State)
    requires Ledger(c, s)
    ensures LiveSumsAreTally(s) <==> Intact(s)
    ensures !Intact(s) ==> ColumnSum(LiveHashes(s.keys, s.n, s.now), PARTICIPANTS) < Tally(s.log, PARTICIPANTS)
  {
    var hashes, marks := LiveHashes(s.keys, s.n, s.now), seq(s.n, b => |s.log|);
    var missed := set b: nat | b < s.n && Missing(s, b);
    forall b: nat | b < s.n ensures Accounts(s.log, b, hashes[b], b in missed) {
      LiveAccounts(c, s, b);
    }
    CoveredAtOnce(s.log, marks, s.n);
    assert Intact(s) <==> missed == {} && Covered(s.log, marks) by {
      if missed == {} {
        forall b: nat | b < s.n ensures !Missing(s, b) {
          assert b !in missed;
        }
      }
    }
    forall f ensures Intact(s) ==> ColumnSum(hashes, f) == Tally(s.log, f) {
      SumsAtOnce(s.log, hashes, marks, missed, f);
    }
    SumsAtOnce(s.log, hashes, marks, missed, PARTICIPANTS);
  }

  lemma CoveredAtOnce(log: Log, marks: seq<nat>, n: nat)
    requires |marks| == n && forall b | 0 <= b < n :: marks[b] == |log|
    ensures Covered(log, marks) <==> forall k | 0 <= k < |log| :: log[k].bucket < n
  {
    if Covered(log, marks) {
      forall k: nat | k < |log| ensures log[k].bucket < n {
        assert Seen(log, marks, k);
      }
    }
    if forall k | 0 <= k < |log| :: log[k].bucket < n {
      forall k: nat | k < |log| ensures Seen(log, marks, k) {
      }
    }
  }

  /** The result rows carry the tally of the whole ledger, participants and every option. */
  ghost predicate ResultIsTally(c: Config, row: PollRow, log: Log) {
    && row.runtime.Some?
    && row.runtime.value.participants == Tally(log, PARTICIPANTS)
    && forall id | id in c.Ids() :: id in row.tallies && row.tallies[id].count == Tally(log, id)
  }

  /** The same of totals that are not stored yet. */
  ghost predicate IsTally(c: Config, t: Totals, log: Log) {
    forall f | IsField(c, f) :: TotalOf(t, f) == Tally(log, f)
  }

  lemma TotalsAreTallyExactlyWhen(c: Config, log: Log, t: Totals, marks: seq<nat>, missed: set<nat>)
    requires TotalsOk(c, log, t, marks, missed)
    ensures IsTally(c, t, log) <==> missed == {} && Covered(log, marks)
  {
    forall f ensures SeenTally(log, marks, f) <= Tally(log, f) && (Covered(log, marks) ==> SeenTally(log, marks, f) == Tally(log, f)) {
      SeenAtMostTally(log, marks, f);
    }
    assert IsField(c, PARTICIPANTS);
    if !Covered(log, marks) {
      UncoveredIsLess(log, marks);
      assert TotalOf(t, PARTICIPANTS) < Tally(log, PARTICIPANTS);
    }
    if missed != {} {
      assert TotalOf(t, PARTICIPANTS) < Tally(log, PARTICIPANTS);
    }
  }

  lemma StoredIsTally(c: Config, s: State)
    requires Ledger(c, s) && s.stored.Some?
    ensures ResultIsTally(c, s.row, s.log) <==> IsTally(c, s.stored.value.totals, s.log)
  {
    var t := s.stored.value.totals;
    ParticipantsIsNoOption(c);
    assert s.row.tallies == TalliesOf(c.poll.options, t);
    if ResultIsTally(c, s.row, s.log) {
      forall f | IsField(c, f) ensures TotalOf(t, f) == Tally(s.log, f) {
        if f != PARTICIPANTS {
          assert f in c.Ids() && s.row.tallies[f].count == Count(t.options, f);
        }
      }
    }
    if IsTally(c, t, s.log) {
      assert IsField(c, PARTICIPANTS) && TotalOf(t, PARTICIPANTS) == t.participants;
      forall id | id in c.Ids() ensures id in s.row.tallies && s.row.tallies[id].count == Tally(s.log, id) {
        assert IsField(c, id) && TotalOf(t, id) == Tally(s.log, id);
      }
    }
  }

  /**
   * Exactly when a stored result, snapshot or final, is the tally of every ballot recorded so far,
   * in every run: no counts were missing from the buckets its process read, and every ballot was
   * recorded in one of those buckets before it was read. Otherwise participants are missing.
   */
  lemma ResultIsExactlyWhen(c: Config, states: seq<State>, labels: seq<Label>, i: nat)
    requires IsRun(c, states, labels) && i < |states| && states[i].row.runtime.Some?
    ensures states[i].stored.Some? && states[i].stored.value.Holder?
    ensures var s, p := states[i], states[i].stored.value;
            && (ResultIsTally(c, s.row, s.log) <==> p.missed == {} && Covered(s.log, p.marks))
            && (s.row.runtime.value.participants == Tally(s.log, PARTICIPANTS) <==> ResultIsTally(c, s.row, s.log))
            && s.row.runtime.value.participants <= Tally(s.log, PARTICIPANTS)
            && forall id | id in c.Ids() :: id in s.row.tallies && s.row.tallies[id].count <= Tally(s.log, id)
  {
    LedgerOfRun(c, states, labels, i);
    var s, p := states[i], states[i].stored.value;
    assert ReadingOk(c, s.log, p);
    TotalsAreTallyExactlyWhen(c, s.log, p.totals, p.marks, p.missed);
    StoredIsTally(c, s);
    assert IsField(c, PARTICIPANTS);
    SeenAtMostTally(s.log, p.marks, PARTICIPANTS);
    if !Covered(s.log, p.marks) {
      UncoveredIsLess(s.log, p.marks);
    }
    assert s.row.tallies == TalliesOf(c.poll.options, p.totals);
    forall id | id in c.Ids() ensures id in s.row.tallies && s.row.tallies[id].count <= Tally(s.log, id) {
      ParticipantsIsNoOption(c);
      assert IsField(c, id) && TotalOf(p.totals, id) == s.row.tallies[id].count;
      SeenAtMostTally(s.log, p.marks, id);
    }
  }

  /**
   * The reading behind a stored result: its marks and what it missed are those of actual reads of
   * one process, one for each bucket of that moment.
   */
  lemma ReadingBehindResult(c: Config, states: seq<State>, labels: seq<Label>, i: nat) returns (k: nat, pid: nat)
    requires IsRun(c, states, labels) && i < |states| && states[i].stored.Some?
    ensures k < i && StoredBy(states, labels, k, pid, states[i].stored.value)
    ensures var p := states[i].stored.value;
            && |p.marks| == states[k].n && (forall b | b in p.missed :: b < |p.marks|)
            && forall b: nat | b < |p.marks| :: WasRead(states, labels, k, pid, b, p.marks[b], b in p.missed)
  {
    k, pid := StoredOfRun(c, states, labels, i);
    LedgerOfRun(c, states, labels, k);
    ReadsBehindTotals(c, states, labels, k, pid);
  }

  /** The totals a process holds come from reads of its own, one for each bucket. */
  lemma ReadsBehindTotals(c: Config, states: seq<State>, labels: seq<Label>, k: nat, pid: nat)
    requires IsRun(c, states, labels) && k < |states| && pid in states[k].procs && states[k].procs[pid].Holder?
    ensures var p := states[k].procs[pid];
            && (forall b | b in p.missed :: b < |p.marks|)
            && forall b: nat | b < |p.marks| :: WasRead(states, labels, k, pid, b, p.marks[b], b in p.missed)
  {
    AggregatedOfRun(c, states, labels, k, pid);
    var p := states[k].procs[pid];
    var m: nat :| m < k && m < |labels| && StampedAt(c, states[m], labels[m], pid, p);
    RepliesOfRun(c, states, labels, m, pid);
    var q := states[m].procs[pid];
    forall b: nat | b < |p.marks| ensures WasRead(states, labels, k, pid, b, p.marks[b], b in p.missed) {
      assert GotReply(states, labels, m, pid, b, q.hashes[b], q.marks[b], b in q.missed);
    }
  }

  ghost predicate WasRead(states: seq<State>, labels: seq<Label>, i: nat, pid: nat, b: nat, mark: nat, missed: bool)
    requires |states| == |labels| + 1
  {
    exists r: nat :: r < i && ReadsBucket(states, labels, r, pid, b) && mark == |states[r].log| && missed == Missing(states[r], b)
  }
}
