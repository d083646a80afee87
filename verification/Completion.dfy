/**
 * Retry: from every state that any run can reach, whatever attempts, crashes, votes, snapshots and
 * restarts led to it, a faultless Publish or Close completes.
 */
module Completion {
  import opened Answers
  import opened Ballots
  import opened Counters
  import opened Domain
  import opened Exactness
  import opened PollRepository
  import opened Protocol
  import opened Readings
  import opened Sequential
  import opened Services
  import opened Untorn
  import opened VoteStore

  lemma ReachableLedger(c: Config, s: State, serial: bool)
    requires Reachable(c, s, serial)
    ensures Ledger(c, s)
  {
    var states, labels :| RunTo(c, states, labels, s, serial);
    LedgerOfRun(c, states, labels, |states| - 1);
  }

  /** A save of the live sums stores the tally exactly when the counters are intact. */
  lemma SavedLiveSums(c: Config, s: State, finalized: bool)
    requires Ledger(c, s) && !Finalized(s.row) && (finalized ==> s.row.poll.status != Draft)
    ensures var saved := SavedRow(s.row, c.poll.options, Sums(LiveHashes(s.keys, s.n, s.now), c.Ids(), s.now), finalized);
            && saved.Ok? && (Finalized(saved.value) <==> finalized)
            && (ResultIsTally(c, saved.value, s.log) <==> Intact(s))
  {
    var hashes := LiveHashes(s.keys, s.n, s.now);
    var t := Sums(hashes, c.Ids(), s.now);
    var held := if s.stored.Some? then s.stored.value.totals else t;
    var stamp := if s.stored.Some? then FinalStamp(s.stored.value) else None;
    SaveIsAllOrNothing(s.row, held, stamp, t, finalized);
    LiveSumsExactlyWhen(c, s);
    ParticipantsIsNoOption(c);
    var row := SavedRow(s.row, c.poll.options, t, finalized).value;
    assert row.tallies == TalliesOf(c.poll.options, t);
    if Intact(s) {
      forall id | id in c.Ids() ensures id in row.tallies && row.tallies[id].count == Tally(s.log, id) {
        assert row.tallies[id].count == ColumnSum(hashes, id);
      }
    }
  }

  lemma ReachableSumsFit(c: Config, s: State, serial: bool)
    requires Reachable(c, s, serial) && |s.log| <= MAX_INT64
    ensures SumsFit(LiveHashes(s.keys, s.n, s.now), c.Ids())
  {
    var states, labels :| RunTo(c, states, labels, s, serial);
    ReadingsNeverFail(c, states, labels, |states| - 1);
  }

  /** The answer of a faultless Close in a state where its sums fit. */
  lemma FaultlessClose(c: Config, s: State, gate: Gate)
    requires Ledger(c, s) && s.row.poll.status == Active && SumsFit(LiveHashes(s.keys, s.n, s.now), c.Ids())
    ensures var o := CloseOutcome(s.row, s.keys, s.n, s.now, gate, CloseTrips(Link(s.n, true), true, Answered));
            && o.keys == GatesSet(s.keys, s.n, gate) && o.row.poll.status == Closed && Finalized(o.row)
            && (ResultIsTally(c, o.row, s.log) <==> Intact(s))
            && o.answer.Ok? && o.answer.value.poll.status == Closed && o.answer.value.poll.closedAt == Some(s.now)
            && ResultOf(o.row) == Ok(o.answer.value.result)
  {
    FaultlessCloseIs(s.row, s.keys, s.n, s.now, gate);
    SavedLiveSums(c, s, true);
    SavedTimes(c, s);
  }

  /** What a finalizing save of the live sums does to the times of the row. */
  lemma SavedTimes(c: Config, s: State)
    requires Ledger(c, s) && s.row.poll.status == Active
    ensures var saved := SavedRow(s.row, c.poll.options, Sums(LiveHashes(s.keys, s.n, s.now), c.Ids(), s.now), true);
            saved.Ok? && saved.value.poll.status == Closed && saved.value.runtime.Some?
            && saved.value.runtime.value.finalizedAt == Some(s.now)
  {
  }

  /**
   * From any reachable state in which the poll is active, whatever attempts, crashes, votes, snapshots
   * and restarts led to it, a faultless Close ends with the poll finalized and its gates shut, takes
   * no marker, counter or ballot away, and answers with the final result, which is the tally exactly
   * when the counters are intact.
   */
  lemma CloseCompletes(c: Config, s: State, serial: bool) returns (after: State, r: PollWithResult)
    requires Reachable(c, s, serial) && s.row.poll.status == Active && |s.log| <= MAX_INT64
    requires serial ==> forall pid | pid in s.procs :: !IsPublishing(s.procs[pid])
    ensures CloseOutcome(s.row, s.keys, s.n, s.now, ShutGateAt(c, s.now), CloseTrips(Link(s.n, true), true, Answered))
              == Outcome(after.row, after.keys, Ok(r))
    ensures Reachable(c, after, serial) && after.procs == s.procs && after.log == s.log
    ensures after.row.poll.status == Closed && Finalized(after.row)
    ensures after.keys.markers == s.keys.markers && after.keys.hashes == s.keys.hashes
    ensures forall b: nat, at | b < s.n :: !Open(after.keys, b, at)
    ensures r.poll.status == Closed && r.poll.closedAt == Some(s.now)
    ensures r.result.status == Closed && r.result.source == PostgresFinal
    ensures ResultIsTally(c, after.row, after.log) <==> Intact(s)
    ensures AnswerIsTally(c, r.result, after.log) <==> Intact(s)
  {
    ReachableLedger(c, s, serial);
    ReachableSumsFit(c, s, serial);
    FaultlessClose(c, s, ShutGateAt(c, s.now));
    after := EveryCloseIsARun(c, s, CloseTrips(Link(s.n, true), true, Answered), serial);
    GatesSetIs(s.keys, s.n, ShutGateAt(c, s.now));
    r := CloseOutcome(s.row, s.keys, s.n, s.now, ShutGateAt(c, s.now), CloseTrips(Link(s.n, true), true, Answered)).answer.value;
    ReachableLedger(c, after, serial);
    AnswerFollowsRow(c, after);
    ResultOfRow(after.row);
  }

  /**
   * A snapshot stores the tally exactly when the counters are intact, also after a Close that closed
   * the poll with an older result and without finalizing it; but it finalizes nothing.
   */
  lemma SnapshotRepairs(c: Config, s: State, serial: bool) returns (after: State)
    requires Reachable(c, s, serial) && !Finalized(s.row) && !SnapshotLocked(s)
    requires |s.log| <= MAX_INT64
    ensures Reachable(c, after, serial) && after.procs == s.procs && after.keys == s.keys && after.log == s.log
    ensures after.row.poll == s.row.poll && !Finalized(after.row)
    ensures ResultIsTally(c, after.row, after.log) <==> Intact(s)
  {
    ReachableLedger(c, s, serial);
    ReachableSumsFit(c, s, serial);
    after := EverySnapshotIsARun(c, s, true, Answered, serial);
    SavedLiveSums(c, s, false);
  }

  /**
   * From any reachable state in which the poll is not closed, a faultless Publish ends with the poll
   * active and every gate open, keeps the publication of a poll that was active already, and takes no
   * marker, counter or ballot away.
   */
  lemma PublishCompletes(c: Config, s: State, stamp: int, serial: bool) returns (after: State)
    requires Reachable(c, s, serial) && s.row.poll.status != Closed
    requires serial ==> forall pid | pid in s.procs :: !IsClosing(s.procs[pid])
    ensures Reachable(c, after, serial) && after.procs == s.procs && after.log == s.log
    ensures after.row.poll.status == Active && after.row.runtime == s.row.runtime && after.row.tallies == s.row.tallies
    ensures if s.row.poll.status == Active then after.row == s.row else after.row.poll.publishedAt == Some(stamp)
    ensures PublishOutcome(s.row, s.keys, s.n, stamp, s.now, OpenGateAt(c, s.now),
                           PublishTrips(Answered, Link(s.n, true), Answered, true)).answer == Ok(after.row.poll)
    ensures after.keys.markers == s.keys.markers && after.keys.hashes == s.keys.hashes
    ensures forall b: nat | b < s.n :: b in after.keys.gates && after.keys.gates[b] == OpenGateAt(c, s.now)
  {
    after := EveryPublishIsARun(c, s, stamp, PublishTrips(Answered, Link(s.n, true), Answered, true), serial);
    GatesSetIs(s.keys, s.n, OpenGateAt(c, s.now));
  }
}
