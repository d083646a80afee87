/** What callers are told: the answers of votes, closes and results against the ledger. */
module Answers {
  import opened Ballots
  import opened Counters
  import opened Domain
  import opened Exactness
  import opened Finality
  import opened Lifetimes
  import opened OneVote
  import opened PollRepository
  import opened Protocol
  import opened Restarts
  import opened Services
  import opened Steps
  import opened VoteStore

  // ----- Results -----

  /** An answered result is the tally: its participants, and exactly the options of the poll with their counts. */
  ghost predicate AnswerIsTally(c: Config, r: PollResult, log: Log) {
    && r.participants == Tally(log, PARTICIPANTS)
    && r.options.Keys == (set id | id in c.Ids())
    && forall id | id in c.Ids() :: r.options[id] == Tally(log, id)
  }

  /** The answer for a row is as good as the row. */
  lemma AnswerFollowsRow(c: Config, s: State)
    requires Ledger(c, s) && s.row.runtime.Some?
    ensures ResultOf(s.row).Ok?
    ensures AnswerIsTally(c, ResultOf(s.row).value, s.log) <==> ResultIsTally(c, s.row, s.log)
  {
    ResultOfRow(s.row);
    assert s.row.tallies == TalliesOf(c.poll.options, s.stored.value.totals);
  }

  /**
   * Exactly when a stored result that is answered, by LoadResult, by Results of a closed poll or by a
   * repeated Close, is the tally of all ballots, in every run.
   */
  lemma AnswerIsExactlyWhen(c: Config, states: seq<State>, labels: seq<Label>, i: nat)
    requires IsRun(c, states, labels) && i < |states| && states[i].row.runtime.Some?
    ensures states[i].stored.Some? && states[i].stored.value.Holder? && ResultOf(states[i].row).Ok?
    ensures var s, p := states[i], states[i].stored.value;
            AnswerIsTally(c, ResultOf(s.row).value, s.log) <==> p.missed == {} && Covered(s.log, p.marks)
  {
    LedgerOfRun(c, states, labels, i);
    ResultIsExactlyWhen(c, states, labels, i);
    AnswerFollowsRow(c, states[i]);
  }

  /**
   * What callers are told of a final result is exact: under the conditions of FinalResultIsExact,
   * every answer for a finalized poll is marked final and closed, and is the tally of every ballot
   * that was answered `recorded`.
   */
  lemma FinalAnswerIsExact(c: Config, states: seq<State>, labels: seq<Label>, i: nat)
    requires SerialRun(c, states, labels) && CountKeepingRun(c, states, labels) && i < |states|
    requires forall k | 0 <= k < |labels| :: UnclampedVote(c, states[k], labels[k])
    requires Finalized(states[i].row)
    requires states[i].row.runtime.value.finalizedAt.value < c.poll.endsAt + c.retention
    ensures ResultOf(states[i].row).Ok? && StoredAnswer(states[i].row).Ok?
    ensures var r := ResultOf(states[i].row).value;
            && StoredAnswer(states[i].row).value == PollWithResult(states[i].row.poll, r)
            && r.source == PostgresFinal && r.status == Closed
            && AnswerIsTally(c, r, states[i].log)
  {
    FinalResultIsExact(c, states, labels, i);
    LedgerOfRun(c, states, labels, i);
    AnswerFollowsRow(c, states[i]);
    ResultOfRow(states[i].row);
  }

  // ----- No reading fails -----

  /** Every recorded ballot, and every vote that has been checked, is a valid selection. */
  predicate BallotsValid(c: Config, s: State) {
    && (forall k | 0 <= k < |s.log| :: ValidSelection(c.poll, s.log[k].options))
    && forall pid | pid in s.procs && s.procs[pid].Voter? :: ValidSelection(c.poll, s.procs[pid].options)
  }

  lemma BallotsValidStep(c: Config, s: State, l: Label)
    requires BallotsValid(c, s) && Enabled(c, s, l)
    ensures BallotsValid(c, Apply(c, s, l))
  {
    LogStep(c, s, l);
    forall pid | pid in Apply(c, s, l).procs && Apply(c, s, l).procs[pid].Voter?
      ensures ValidSelection(c.poll, Apply(c, s, l).procs[pid].options)
    {
      OriginOf(c, s, l, pid);
    }
  }

  lemma {:induction false} BallotsValidOfRun(c: Config, states: seq<State>, labels: seq<Label>, i: nat)
    requires IsRun(c, states, labels) && i < |states|
    ensures BallotsValid(c, states[i])
  {
    if i > 0 {
      BallotsValidOfRun(c, states, labels, i - 1);
      assert IsStep(c, states, labels, i - 1);
      BallotsValidStep(c, states[i - 1], labels[i - 1]);
    }
  }

  /** A valid ballot adds at most one to any field, so no tally exceeds the number of ballots. */
  lemma {:induction false} TallyAtMostBallots(c: Config, log: Log, f: string)
    requires c.Valid() && forall k | 0 <= k < |log| :: ValidSelection(c.poll, log[k].options)
    ensures Tally(log, f) <= |log|
  {
    if |log| > 0 {
      TallyAtMostBallots(c, log[..|log| - 1], f);
      ParticipantsIsNoOption(c);
      OccurrencesOfDistinct(log[|log| - 1].options, f);
    }
  }

  lemma {:induction false} ShardAtMostTally(log: Log, b: nat, f: string)
    ensures ShardTally(log, b, f) <= Tally(log, f)
  {
    if |log| > 0 {
      ShardAtMostTally(log[..|log| - 1], b, f);
    }
  }

  lemma {:induction false} ColumnAtMostTally(c: Config, s: State, n: nat, f: string)
    requires Ledger(c, s)
    ensures ColumnSum(LiveHashes(s.keys, n, s.now), f) <= ShardSum(s.log, n, f)
  {
    if n > 0 {
      var hashes := LiveHashes(s.keys, n, s.now);
      assert hashes[..n - 1] == LiveHashes(s.keys, n - 1, s.now);
      ColumnAtMostTally(c, s, n - 1, f);
      LiveAccounts(c, s, n - 1);
    }
  }

  /**
   * No reading of the totals fails: in every reachable state the counters and their sums fit, as long
   * as no more than 2^63 - 1 ballots have been recorded.
   */
  lemma ReadingsNeverFail(c: Config, states: seq<State>, labels: seq<Label>, i: nat)
    requires IsRun(c, states, labels) && i < |states| && |states[i].log| <= 0x7fff_ffff_ffff_ffff
    ensures SumsFit(LiveHashes(states[i].keys, states[i].n, states[i].now), c.Ids())
  {
    var s := states[i];
    LedgerOfRun(c, states, labels, i);
    BallotsValidOfRun(c, states, labels, i);
    var hashes := LiveHashes(s.keys, s.n, s.now);
    forall f ensures ColumnSum(hashes, f) <= |s.log| {
      TallyAtMostBallots(c, s.log, f);
      ColumnAtMostTally(c, s, s.n, f);
      ShardSumIsSeen(s.log, s.n, seq(s.n, b => |s.log|), f);
      SeenAtMostTally(s.log, seq(s.n, b => |s.log|), f);
    }
    forall b, f | 0 <= b < |hashes| && f in hashes[b] ensures hashes[b][f] <= 0x7fff_ffff_ffff_ffff {
      TallyAtMostBallots(c, s.log, f);
      ShardAtMostTally(s.log, b, f);
      LiveAccounts(c, s, b);
      assert Count(hashes[b], f) <= ShardTally(s.log, b, f);
    }
    SumsFitExactly(hashes, c.Ids());
  }

  // ----- Votes -----

  /**
   * Within the horizon the service answers a vote as the flat ledger does: whenever the definition,
   * which the live processes may have cached, is active, the window is open and the selection valid,
   * the answer is `closed` if the gate is not open, `already recorded` if the device has a ballot, and
   * `recorded` otherwise.
   */
  lemma ServiceVoteIsFlatVote(c: Config, horizon: int, states: seq<State>, labels: seq<Label>, i: nat,
                              p: Poll, device: string, options: seq<string>)
    requires SafeRun(c, horizon, states, labels) && i < |states| && states[i].now < horizon && states[i].warm
    requires SameDefinition(c.poll, p) && p.status == Active
    requires p.startsAt <= states[i].now < p.endsAt && ValidSelection(p, options)
    ensures states[i].n > 0
    ensures var s, m := states[i], c.MarkerOf(device, states[i].n);
            var open := m.bucket in s.keys.gates && s.keys.gates[m.bucket].active && s.now < s.keys.gates[m.bucket].expires;
            VoteOutcome(Ok(p), s.keys, m, options, c.retention, c.maxTTL, s.now).1
              == if !open then Err(NotActive)
                 else if HasVoted(s.log, device) then Ok(AlreadyRecorded)
                 else Ok(Recorded)
  {
    var s := states[i];
    LedgerOfRun(c, states, labels, i);
    LastingOfRun(c, horizon, states, labels, i);
    CountKeptOfRun(c, states, labels, i);
    assert !Over(s);
    MarkedExactlyWhenVoted(c, s, device, horizon);
    var (after, r) := VoteOutcome(Ok(p), s.keys, c.MarkerOf(device, s.n), options, c.retention, c.maxTTL, s.now);
    VoteExactly(p, s.keys, c.MarkerOf(device, s.n).bucket, device, options, c.retention, c.maxTTL, s.now, after, r);
  }
}
