/**
 * Restarts with different VOTE_BUCKETS values: one process lives at a time, and it starts only if
 * the startup check passes (cmd/api/main.go, internal/postgres/polls.go).
 */
module Deployment {
  import opened Counters
  import opened Domain
  import opened PollRepository

  /** The bucket count of the live process, and the poll table it shares with its successors. */
  datatype State = State(buckets: nat, rows: map<string, PollRow>)

  datatype Label =
    | Restart(buckets: nat)
    | Create(poll: Poll)
    | Publish(id: string, stamp: int)
    | Revert(id: string, stamp: int, at: int)
    | Save(id: string, totals: Totals, finalized: bool)

  ghost predicate BucketsAgree(rows: map<string, PollRow>, buckets: nat) {
    forall id | id in rows :: rows[id].poll.status == Active ==> rows[id].buckets == buckets
  }

  ghost predicate Enabled(s: State, l: Label) {
    match l
    case Restart(buckets) => BucketsAgree(s.rows, buckets)
    case Create(poll) => poll.id !in s.rows && poll.status == Draft
    case Publish(id, _) => id in s.rows
    case Revert(id, _, _) => id in s.rows
    case Save(id, _, _) => id in s.rows
  }

  ghost function Apply(s: State, l: Label): State
    requires Enabled(s, l)
  {
    match l
    case Restart(buckets) => s.(buckets := buckets)
    case Create(poll) => s.(rows := s.rows[poll.id := PollRow(poll, s.buckets, None, map[])])
    case Publish(id, stamp) => s.(rows := s.rows[id := Written(s.rows[id], Publishing(stamp, s.buckets))])
    case Revert(id, stamp, at) => s.(rows := s.rows[id := Written(s.rows[id], Reverting(stamp, at))])
    case Save(id, totals, finalized) => s.(rows := s.rows[id := Written(s.rows[id], Saving(totals, finalized))])
  }

  ghost predicate IsRun(states: seq<State>, labels: seq<Label>) {
    && |states| == |labels| + 1
    && states[0].rows == map[]
    && forall i | 0 <= i < |labels| :: Enabled(states[i], labels[i]) && states[i + 1] == Apply(states[i], labels[i])
  }

  /** Every active poll is counted in exactly as many buckets as the live process writes and reads. */
  lemma {:induction false} ActivePollsMatchTheProcess(states: seq<State>, labels: seq<Label>, i: nat)
    requires IsRun(states, labels) && i < |states|
    ensures BucketsAgree(states[i].rows, states[i].buckets)
  {
    if i > 0 {
      ActivePollsMatchTheProcess(states, labels, i - 1);
    }
  }

  /** While a poll stays active its bucket count is fixed, restarts included. */
  lemma {:induction false} BucketsFixedWhileActive(states: seq<State>, labels: seq<Label>, i: nat, j: nat, id: string)
    requires IsRun(states, labels) && i <= j < |states| && id in states[i].rows
    requires forall k | i <= k <= j :: id in states[k].rows ==> states[k].rows[id].poll.status == Active
    ensures id in states[j].rows && states[j].buckets == states[i].buckets == states[j].rows[id].buckets
    decreases j
  {
    ActivePollsMatchTheProcess(states, labels, j);
    if i < j {
      BucketsFixedWhileActive(states, labels, i, j - 1, id);
      assert id in states[j - 1].rows && states[j - 1].rows[id].poll.status == Active;
    }
  }
}
