/**
 * The flat specification: the ballots answered `recorded`, in order, and what they add up to.
 * A poll's counters are sharded over buckets; the lemmas here relate the shards, and what a reader
 * that visits them one by one can have seen, to the whole.
 */
module Ballots {
  const PARTICIPANTS := "__participants"

  /** A ballot and the bucket it was counted in. */
  datatype Ballot = Ballot(device: string, options: seq<string>, bucket: nat)

  type Log = seq<Ballot>

  type Fields = map<string, nat>

  function Count(fields: Fields, field: string): nat {
    if field in fields then fields[field] else 0
  }

  function Occurrences(ids: seq<string>, id: string): nat {
    if |ids| == 0 then 0 else Occurrences(ids[..|ids| - 1], id) + if ids[|ids| - 1] == id then 1 else 0
  }

  /** How much one ballot adds to a counter field. */
  function Weight(options: seq<string>, field: string): nat {
    (if field == PARTICIPANTS then 1 else 0) + Occurrences(options, field)
  }

  function Tally(log: Log, field: string): nat {
    if |log| == 0 then 0 else Tally(log[..|log| - 1], field) + Weight(log[|log| - 1].options, field)
  }

  function Bucket(digest: string -> nat, device: string, buckets: nat): (b: nat)
    requires buckets > 0
    ensures b < buckets
  {
    digest(device) % buckets
  }

  /** The tally of the ballots counted in bucket `b`. */
  function ShardTally(log: Log, b: nat, field: string): nat {
    if |log| == 0 then 0
    else
      var last := log[|log| - 1];
      ShardTally(log[..|log| - 1], b, field) + if last.bucket == b then Weight(last.options, field) else 0
  }

  predicate HasVoted(log: Log, device: string) {
    exists i | 0 <= i < |log| :: log[i].device == device
  }

  predicate OnePerDevice(log: Log) {
    forall i, j | 0 <= i < j < |log| :: log[i].device != log[j].device
  }

  lemma ShardTallyOfOneMore(log: Log, ballot: Ballot, b: nat, field: string)
    ensures ShardTally(log + [ballot], b, field)
         == ShardTally(log, b, field) + if ballot.bucket == b then Weight(ballot.options, field) else 0
  {
    assert (log + [ballot])[..|log|] == log;
  }

  // ----- What a bucket-by-bucket reader has seen -----

  /**
   * `marks[b]` is the number of ballots recorded when bucket `b` was read: ballot `k` is in the
   * reply if its bucket was read at all, and after the ballot.
   */
  predicate Seen(log: Log, marks: seq<nat>, k: nat)
    requires k < |log|
  {
    log[k].bucket < |marks| && k < marks[log[k].bucket]
  }

  /** Every ballot was recorded in a bucket the reader visited, before the visit. */
  predicate Covered(log: Log, marks: seq<nat>) {
    forall k: nat | k < |log| :: Seen(log, marks, k)
  }

  /** The tally of the ballots seen. */
  function SeenTally(log: Log, marks: seq<nat>, field: string): nat {
    if |log| == 0 then 0
    else
      SeenTally(log[..|log| - 1], marks, field)
      + if Seen(log, marks, |log| - 1) then Weight(log[|log| - 1].options, field) else 0
  }

  function Upto(log: Log, mark: nat): Log {
    if mark <= |log| then log[..mark] else log
  }

  lemma {:induction false} SeenNothing(log: Log, field: string)
    ensures SeenTally(log, [], field) == 0
  {
    if |log| > 0 {
      SeenNothing(log[..|log| - 1], field);
    }
  }

  /** Reading one more bucket adds that bucket's ballots up to its mark. */
  lemma {:induction false} SeenOneMore(log: Log, marks: seq<nat>, mark: nat, field: string)
    ensures SeenTally(log, marks + [mark], field)
         == SeenTally(log, marks, field) + ShardTally(Upto(log, mark), |marks|, field)
  {
    if |log| > 0 {
      var init := log[..|log| - 1];
      SeenOneMore(init, marks, mark, field);
      if mark < |log| {
        assert init[..mark] == log[..mark];
      } else {
        assert Upto(init, mark) == init;
        assert Upto(log, mark) == log;
      }
    }
  }

  /** A ballot recorded after every visit is not seen. */
  lemma SeenOfLongerLog(log: Log, ballot: Ballot, marks: seq<nat>, field: string)
    requires forall b | 0 <= b < |marks| :: marks[b] <= |log|
    ensures SeenTally(log + [ballot], marks, field) == SeenTally(log, marks, field)
  {
    assert (log + [ballot])[..|log|] == log;
  }

  lemma {:induction false} SeenAtMostTally(log: Log, marks: seq<nat>, field: string)
    ensures SeenTally(log, marks, field) <= Tally(log, field)
    ensures Covered(log, marks) ==> SeenTally(log, marks, field) == Tally(log, field)
  {
    if |log| > 0 {
      var init := log[..|log| - 1];
      SeenAtMostTally(init, marks, field);
      if Covered(log, marks) {
        assert Covered(init, marks) by {
          forall k: nat | k < |init| ensures Seen(init, marks, k) {
            assert Seen(log, marks, k);
          }
        }
      }
    }
  }

  /** A ballot that was not seen is missing from the participants. */
  lemma {:induction false} UncoveredIsLess(log: Log, marks: seq<nat>)
    requires !Covered(log, marks)
    ensures SeenTally(log, marks, PARTICIPANTS) < Tally(log, PARTICIPANTS)
  {
    var init := log[..|log| - 1];
    if Seen(log, marks, |log| - 1) {
      assert !Covered(init, marks) by {
        var k: nat :| k < |log| && !Seen(log, marks, k);
        assert !Seen(init, marks, k);
      }
      UncoveredIsLess(init, marks);
    } else {
      SeenAtMostTally(init, marks, PARTICIPANTS);
    }
  }

  /** With every mark at most `to`, nothing after the first `to` ballots is seen. */
  lemma {:induction false} SeenUpTo(log: Log, marks: seq<nat>, to: nat, field: string)
    requires to <= |log| && forall b | 0 <= b < |marks| :: marks[b] <= to
    ensures SeenTally(log, marks, field) <= Tally(log[..to], field)
  {
    if to == |log| {
      assert log[..to] == log;
      SeenAtMostTally(log, marks, field);
    } else {
      var init := log[..|log| - 1];
      SeenUpTo(init, marks, to, field);
      assert init[..to] == log[..to];
    }
  }

  /** If the first `from` ballots are in visited buckets and every mark is at least `from`, they are seen. */
  lemma {:induction false} SeenFrom(log: Log, marks: seq<nat>, from: nat, field: string)
    requires from <= |log| && forall k: nat | k < from :: Seen(log, marks, k)
    ensures Tally(log[..from], field) <= SeenTally(log, marks, field)
  {
    if from == |log| {
      assert log[..from] == log;
      assert Covered(log, marks);
      SeenAtMostTally(log, marks, field);
    } else {
      var init := log[..|log| - 1];
      forall k: nat | k < from ensures Seen(init, marks, k) {
        assert Seen(log, marks, k);
      }
      SeenFrom(init, marks, from, field);
      assert init[..from] == log[..from];
    }
  }

  /** Sharding loses and duplicates nothing: visited at one moment, the buckets add up to the tally. */
  function ShardSum(log: Log, n: nat, field: string): nat {
    if n == 0 then 0 else ShardSum(log, n - 1, field) + ShardTally(log, n - 1, field)
  }

  lemma {:induction false} ShardSumIsSeen(log: Log, n: nat, marks: seq<nat>, field: string)
    requires |marks| == n && forall b | 0 <= b < n :: marks[b] == |log|
    ensures ShardSum(log, n, field) == SeenTally(log, marks, field)
  {
    if n == 0 {
      SeenNothing(log, field);
    } else {
      ShardSumIsSeen(log, n - 1, marks[..n - 1], field);
      SeenOneMore(log, marks[..n - 1], marks[n - 1], field);
      assert marks == marks[..n - 1] + [marks[n - 1]];
      assert log[..|log|] == log;
    }
  }

  /**
   * Visited at one moment, `n` buckets add up to the whole tally exactly when no ballot was counted
   * in a bucket beyond them.
   */
  lemma ShardsSumToTally(log: Log, n: nat)
    ensures (forall f :: ShardSum(log, n, f) == Tally(log, f)) <==> forall k | 0 <= k < |log| :: log[k].bucket < n
  {
    var marks := seq(n, b => |log|);
    assert Covered(log, marks) <==> forall k | 0 <= k < |log| :: log[k].bucket < n by {
      if forall k | 0 <= k < |log| :: log[k].bucket < n {
        forall k: nat | k < |log| ensures Seen(log, marks, k) {
        }
      }
      forall k: nat | k < |log| && Seen(log, marks, k) ensures log[k].bucket < n {
      }
    }
    if Covered(log, marks) {
      forall f ensures ShardSum(log, n, f) == Tally(log, f) {
        ShardSumIsSeen(log, n, marks, f);
        SeenAtMostTally(log, marks, f);
      }
    } else {
      ShardSumIsSeen(log, n, marks, PARTICIPANTS);
      UncoveredIsLess(log, marks);
    }
  }

  lemma {:induction false} TallyGrows(log: Log, i: nat, j: nat, field: string)
    requires i <= j <= |log|
    ensures Tally(log[..i], field) <= Tally(log[..j], field)
    decreases j
  {
    if i < j {
      TallyGrows(log, i, j - 1, field);
      assert log[..j][..j - 1] == log[..j - 1];
    }
  }

  // ----- Sums over a poll's options -----

  function SumOver(ids: seq<string>, fields: Fields): nat {
    if |ids| == 0 then 0 else SumOver(ids[..|ids| - 1], fields) + Count(fields, ids[|ids| - 1])
  }

  function WeightOver(ids: seq<string>, options: seq<string>): nat {
    if |ids| == 0 then 0 else WeightOver(ids[..|ids| - 1], options) + Occurrences(options, ids[|ids| - 1])
  }

  lemma {:induction false} OccurrencesOfDistinct(ids: seq<string>, id: string)
    requires forall i, j | 0 <= i < j < |ids| :: ids[i] != ids[j]
    ensures Occurrences(ids, id) == if id in ids then 1 else 0
  {
    if |ids| > 0 {
      OccurrencesOfDistinct(ids[..|ids| - 1], id);
      assert ids == ids[..|ids| - 1] + [ids[|ids| - 1]];
    }
  }

  /** A ballot of distinct options of the poll adds its own size to the sum over all options. */
  lemma {:induction false} WeightOverOptions(ids: seq<string>, options: seq<string>)
    requires forall i, j | 0 <= i < j < |ids| :: ids[i] != ids[j]
    requires forall i | 0 <= i < |options| :: options[i] in ids
    ensures WeightOver(ids, options) == |options|
  {
    if |options| == 0 {
      WeightOfNothing(ids);
    } else {
      var rest := options[..|options| - 1];
      WeightOverOptions(ids, rest);
      WeightOverOneMore(ids, options);
      OccurrencesOfDistinct(ids, options[|options| - 1]);
    }
  }

  lemma {:induction false} WeightOfNothing(ids: seq<string>)
    ensures WeightOver(ids, []) == 0
  {
    if |ids| > 0 {
      WeightOfNothing(ids[..|ids| - 1]);
    }
  }

  lemma {:induction false} WeightOverOneMore(ids: seq<string>, options: seq<string>)
    requires |options| > 0
    ensures WeightOver(ids, options)
         == WeightOver(ids, options[..|options| - 1]) + Occurrences(ids, options[|options| - 1])
  {
    if |ids| > 0 {
      WeightOverOneMore(ids[..|ids| - 1], options);
    }
  }
}
