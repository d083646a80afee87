/**
 * The shape the selection rules give to results: it survives sharding, expiry, concurrent reads,
 * snapshots and finalization, in every run and without any assumption on concurrency or time.
 */
module Shape {
  import opened Ballots
  import opened Counters
  import opened Domain
  import opened Exactness
  import opened PollRepository
  import opened Protocol
  import opened Steps
  import opened Untorn
  import opened VoteStore

  /** No option has more votes than there are participants, and nobody cast none or too many. */
  ghost predicate Shaped(c: Config, participants: nat, counts: Fields) {
    && (forall id | id in c.Ids() :: Count(counts, id) <= participants)
    && participants <= SumOver(c.Ids(), counts) <= c.poll.maxChoices * participants
    && (c.poll.kind == SingleChoice ==> SumOver(c.Ids(), counts) == participants)
  }

  ghost predicate HashShaped(c: Config, fields: Fields) {
    Shaped(c, Count(fields, PARTICIPANTS), fields)
  }

  // ----- One ballot -----

  lemma {:induction false} SumOverCredited(ids: seq<string>, fields: Fields, options: seq<string>)
    requires PARTICIPANTS !in ids
    ensures SumOver(ids, Credited(fields, options)) == SumOver(ids, fields) + WeightOver(ids, options)
  {
    if |ids| > 0 {
      SumOverCredited(ids[..|ids| - 1], fields, options);
      CountOfCredited(fields, options, ids[|ids| - 1]);
    }
  }

  lemma {:induction false} SumOverNothing(ids: seq<string>)
    ensures SumOver(ids, map[]) == 0
  {
    if |ids| > 0 {
      SumOverNothing(ids[..|ids| - 1]);
    }
  }

  lemma Distributes(k: int, a: int, b: int)
    ensures k * (a + b) == k * a + k * b
  {
  }

  lemma CreditedIsShaped(c: Config, fields: Fields, options: seq<string>)
    requires c.Valid() && HashShaped(c, fields) && ValidSelection(c.poll, options)
    ensures HashShaped(c, Credited(fields, options))
  {
    ParticipantsIsNoOption(c);
    SumOverCredited(c.Ids(), fields, options);
    WeightOverOptions(c.Ids(), options);
    CountOfCredited(fields, options, PARTICIPANTS);
    OccurrencesOfDistinct(options, PARTICIPANTS);
    Distributes(c.poll.maxChoices, Count(fields, PARTICIPANTS), 1);
    forall id | id in c.Ids()
      ensures Count(Credited(fields, options), id) <= Count(Credited(fields, options), PARTICIPANTS)
    {
      CountOfCredited(fields, options, id);
      OccurrencesOfDistinct(options, id);
    }
  }

  lemma NothingIsShaped(c: Config)
    ensures HashShaped(c, map[])
  {
    SumOverNothing(c.Ids());
  }

  // ----- Adding up buckets -----

  function Columns(hashes: seq<Fields>, ids: seq<string>): Fields {
    map id | id in ids :: ColumnSum(hashes, id)
  }

  lemma {:induction false} SumOverColumns(hashes: seq<Fields>, all: seq<string>, ids: seq<string>)
    requires |hashes| > 0 && forall id | id in ids :: id in all
    ensures SumOver(ids, Columns(hashes, all))
         == SumOver(ids, Columns(hashes[..|hashes| - 1], all)) + SumOver(ids, hashes[|hashes| - 1])
  {
    if |ids| > 0 {
      SumOverColumns(hashes, all, ids[..|ids| - 1]);
    }
  }

  lemma {:induction false} SumOverZeros(all: seq<string>, ids: seq<string>)
    ensures SumOver(ids, Columns([], all)) == 0
  {
    if |ids| > 0 {
      SumOverZeros(all, ids[..|ids| - 1]);
    }
  }

  lemma {:induction false} ColumnsAreShaped(c: Config, hashes: seq<Fields>)
    requires forall b | 0 <= b < |hashes| :: HashShaped(c, hashes[b])
    ensures Shaped(c, ColumnSum(hashes, PARTICIPANTS), Columns(hashes, c.Ids()))
  {
    if |hashes| == 0 {
      SumOverZeros(c.Ids(), c.Ids());
    } else {
      var init, last := hashes[..|hashes| - 1], hashes[|hashes| - 1];
      ColumnsAreShaped(c, init);
      SumOverColumns(hashes, c.Ids(), c.Ids());
      Distributes(c.poll.maxChoices, ColumnSum(init, PARTICIPANTS), Count(last, PARTICIPANTS));
      forall id | id in c.Ids() ensures Count(Columns(hashes, c.Ids()), id) <= ColumnSum(hashes, PARTICIPANTS) {
        assert Count(Columns(init, c.Ids()), id) <= ColumnSum(init, PARTICIPANTS);
        assert Count(last, id) <= Count(last, PARTICIPANTS);
      }
    }
  }

  // ----- Every state of every run -----

  ghost predicate ProcShaped(c: Config, p: Proc) {
    && (p.Voter? ==> ValidSelection(c.poll, p.options))
    && (p.Reader? ==> forall b | 0 <= b < |p.hashes| :: HashShaped(c, p.hashes[b]))
    && (p.Holder? ==> Shaped(c, p.totals.participants, p.totals.options))
  }

  ghost predicate AllShaped(c: Config, s: State) {
    && c.Valid()
    && (forall b | b in s.keys.hashes :: HashShaped(c, s.keys.hashes[b].fields))
    && (forall pid | pid in s.procs :: ProcShaped(c, s.procs[pid]))
    && (s.stored.Some? ==> ProcShaped(c, s.stored.value))
  }

  lemma LiveIsShaped(c: Config, s: State, b: nat)
    requires AllShaped(c, s)
    ensures HashShaped(c, LiveFields(s.keys, b, s.now))
  {
    NothingIsShaped(c);
  }

  lemma ShapeOfReply(c: Config, s: State, p: Proc)
    requires AllShaped(c, s) && p.Reader? && ProcShaped(c, p)
    ensures ProcShaped(c, AfterRead(s, p))
  {
    LiveIsShaped(c, s, |p.hashes|);
  }

  lemma ShapeOfTotals(c: Config, p: Proc, now: int)
    requires c.Valid() && p.Reader? && ProcShaped(c, p)
    ensures ProcShaped(c, Holder(p.role, Sums(p.hashes, c.Ids(), now), p.marks, p.missed))
  {
    ColumnsAreShaped(c, p.hashes);
    ParticipantsIsNoOption(c);
    assert Sums(p.hashes, c.Ids(), now).options == Columns(p.hashes, c.Ids());
  }

  lemma ProcStaysShaped(c: Config, s: State, l: Label, pid: nat, p: Proc)
    requires AllShaped(c, s) && Enabled(c, s, l) && Origin(c, s, l, pid, p)
    ensures ProcShaped(c, p)
  {
    if pid in s.procs {
      assert ProcShaped(c, s.procs[pid]);
      if l == Read(pid) {
        ShapeOfReply(c, s, s.procs[pid]);
      } else if l == Stamp(pid) {
        ShapeOfTotals(c, s.procs[pid], s.now);
      }
    }
  }

  lemma HashesStayShaped(c: Config, s: State, l: Label)
    requires AllShaped(c, s) && Enabled(c, s, l)
    ensures forall b | b in Apply(c, s, l).keys.hashes :: HashShaped(c, Apply(c, s, l).keys.hashes[b].fields)
  {
    LogStep(c, s, l);
    if l.Record? && Votes(c, s, l).1 == Recorded {
      var p := s.procs[l.pid];
      assert ProcShaped(c, p);
      var b := c.MarkerOf(p.device, s.n).bucket;
      LiveIsShaped(c, s, b);
      CreditedIsShaped(c, LiveFields(s.keys, b, s.now), p.options);
    }
  }

  lemma ShapeStep(c: Config, s: State, l: Label)
    requires AllShaped(c, s) && Enabled(c, s, l)
    ensures AllShaped(c, Apply(c, s, l))
  {
    var after := Apply(c, s, l);
    HashesStayShaped(c, s, l);
    StoredStep(c, s, l);
    forall pid | pid in after.procs ensures ProcShaped(c, after.procs[pid]) {
      OriginOf(c, s, l, pid);
      ProcStaysShaped(c, s, l, pid, after.procs[pid]);
    }
    if l.Save? {
      assert ProcShaped(c, s.procs[l.pid]);
    }
  }

  lemma {:induction false} ShapeOfRun(c: Config, states: seq<State>, labels: seq<Label>, i: nat)
    requires IsRun(c, states, labels) && i < |states|
    ensures AllShaped(c, states[i])
  {
    if i > 0 {
      ShapeOfRun(c, states, labels, i - 1);
      assert IsStep(c, states, labels, i - 1);
      ShapeStep(c, states[i - 1], labels[i - 1]);
    }
  }

  function StoredCounts(row: PollRow): Fields {
    map id | id in row.tallies :: row.tallies[id].count
  }

  lemma {:induction false} SameSum(ids: seq<string>, a: Fields, b: Fields)
    requires forall id | id in ids :: Count(a, id) == Count(b, id)
    ensures SumOver(ids, a) == SumOver(ids, b)
  {
    if |ids| > 0 {
      SameSum(ids[..|ids| - 1], a, b);
    }
  }

  /** Every result that is ever stored, snapshot or final, has the shape of ballots. */
  lemma StoredResultIsShaped(c: Config, states: seq<State>, labels: seq<Label>, i: nat)
    requires IsRun(c, states, labels) && i < |states| && states[i].row.runtime.Some?
    ensures Shaped(c, states[i].row.runtime.value.participants, StoredCounts(states[i].row))
  {
    ShapeOfRun(c, states, labels, i);
    BaseOfRun(c, states, labels, i);
    var s := states[i];
    var t := s.stored.value.totals;
    assert s.row.tallies == TalliesOf(c.poll.options, t);
    forall id | id in c.Ids() ensures Count(StoredCounts(s.row), id) == Count(t.options, id) {
    }
    SameSum(c.Ids(), StoredCounts(s.row), t.options);
  }

  /** So has the answer of LoadResult, and with it those of Close and Results. */
  lemma AnswerIsShaped(c: Config, states: seq<State>, labels: seq<Label>, i: nat)
    requires IsRun(c, states, labels) && i < |states| && states[i].row.runtime.Some?
    ensures ResultOf(states[i].row).Ok?
    ensures var r := ResultOf(states[i].row).value;
            && r.options.Keys == (set id | id in c.Ids())
            && Shaped(c, r.participants, r.options)
  {
    StoredResultIsShaped(c, states, labels, i);
    BaseOfRun(c, states, labels, i);
    ResultOfRow(states[i].row);
    assert ResultOf(states[i].row).value.options == StoredCounts(states[i].row);
    assert states[i].row.tallies == TalliesOf(c.poll.options, states[i].stored.value.totals);
  }

  /** So does every live reading, whatever ballots arrive between its bucket reads. */
  lemma LiveResultIsShaped(c: Config, states: seq<State>, labels: seq<Label>, i: nat, pid: nat)
    requires IsRun(c, states, labels) && i < |states|
    requires pid in states[i].procs && states[i].procs[pid].Holder?
    ensures var t := states[i].procs[pid].totals; Shaped(c, t.participants, t.options)
  {
    ShapeOfRun(c, states, labels, i);
    assert ProcShaped(c, states[i].procs[pid]);
  }
}
