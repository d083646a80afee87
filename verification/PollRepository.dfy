/** The PostgreSQL side: poll rows and stored results (internal/postgres/polls.go, results.go). */
module PollRepository {
  import opened Ballots
  import opened Counters
  import opened Domain

  datatype Runtime = Runtime(participants: nat, capturedAt: int, finalizedAt: Option<int>)

  datatype OptionRow = OptionRow(count: nat, capturedAt: int)

  /** A poll with its rows in poll_runtime_results and poll_option_results. */
  datatype PollRow = PollRow(poll: Poll, buckets: nat, runtime: Option<Runtime>, tallies: map<string, OptionRow>)

  datatype Source = RedisLive | PostgresSnapshot | PostgresFinal

  /** domain.Result */
  datatype PollResult = PollResult(
    pollId: string,
    status: PollStatus,
    source: Source,
    asOf: int,
    finalizedAt: Option<int>,
    participants: nat,
    options: Fields)

  predicate Finalized(row: PollRow) {
    row.runtime.Some? && row.runtime.value.finalizedAt.Some?
  }

  // ----- SaveSnapshot -----

  /** INSERT ... ON CONFLICT DO UPDATE ... WHERE finalized_at IS NULL AND captured_at <= EXCLUDED.captured_at */
  function UpsertRuntime(row: Option<Runtime>, t: Totals, finalizedAt: Option<int>): Option<Runtime> {
    if row.None? || (row.value.finalizedAt.None? && row.value.capturedAt <= t.asOf)
    then Some(Runtime(t.participants, t.asOf, finalizedAt))
    else row
  }

  function UpsertOption(tallies: map<string, OptionRow>, id: string, t: Totals): map<string, OptionRow> {
    if id !in tallies || tallies[id].capturedAt <= t.asOf
    then tallies[id := OptionRow(Count(t.options, id), t.asOf)]
    else tallies
  }

  function UpsertOptions(tallies: map<string, OptionRow>, options: seq<PollOption>, t: Totals): map<string, OptionRow> {
    if |options| == 0 then tallies
    else UpsertOption(UpsertOptions(tallies, options[..|options| - 1], t), options[|options| - 1].id, t)
  }

  function ClosedAt(poll: Poll, at: int): Poll {
    poll.(status := Closed, closedAt := if poll.closedAt.None? then Some(at) else poll.closedAt, updatedAt := at)
  }

  /** The row SaveSnapshot commits, or why it rolls back. */
  function SavedRow(row: PollRow, options: seq<PollOption>, t: Totals, finalized: bool): Result<PollRow> {
    if Finalized(row) then Ok(row)
    else if finalized && row.poll.status == Draft then Err(InvalidTransition)
    else Ok(row.(
      runtime := UpsertRuntime(row.runtime, t, if finalized then Some(t.asOf) else None),
      tallies := UpsertOptions(row.tallies, options, t),
      poll := if finalized then ClosedAt(row.poll, t.asOf) else row.poll))
  }

  /** The totals replace the stored ones: the guard of the runtime upsert. */
  predicate Takes(row: PollRow, t: Totals) {
    row.runtime.None? || (row.runtime.value.finalizedAt.None? && row.runtime.value.capturedAt <= t.asOf)
  }

  function TalliesOf(options: seq<PollOption>, t: Totals): map<string, OptionRow> {
    map id | id in OptionIds(options) :: OptionRow(Count(t.options, id), t.asOf)
  }

  /** The runtime row and every option row hold the values and the stamp of one and the same Totals. */
  predicate Holds(row: PollRow, t: Totals, finalizedAt: Option<int>) {
    && row.runtime == Some(Runtime(t.participants, t.asOf, finalizedAt))
    && row.tallies == TalliesOf(row.poll.options, t)
  }

  predicate Empty(row: PollRow) {
    row.runtime == None && row.tallies == map[]
  }

  lemma TalliesOfOneMore(options: seq<PollOption>, t: Totals)
    requires |options| > 0
    ensures var id := options[|options| - 1].id;
            TalliesOf(options, t) == TalliesOf(options[..|options| - 1], t)[id := OptionRow(Count(t.options, id), t.asOf)]
  {
    assert OptionIds(options) == OptionIds(options[..|options| - 1]) + [options[|options| - 1].id];
  }

  lemma UpdateOfMerge(a: map<string, OptionRow>, b: map<string, OptionRow>, id: string, row: OptionRow)
    ensures a + b[id := row] == (a + b)[id := row]
  {
  }

  lemma {:induction false} UpsertOptionsAllNew(tallies: map<string, OptionRow>, options: seq<PollOption>, t: Totals)
    requires forall id | id in tallies :: tallies[id].capturedAt <= t.asOf
    ensures UpsertOptions(tallies, options, t) == tallies + TalliesOf(options, t)
  {
    if |options| == 0 {
      assert tallies + TalliesOf(options, t) == tallies;
    } else {
      var init, id := options[..|options| - 1], options[|options| - 1].id;
      UpsertOptionsAllNew(tallies, init, t);
      TalliesOfOneMore(options, t);
      UpdateOfMerge(tallies, TalliesOf(init, t), id, OptionRow(Count(t.options, id), t.asOf));
      assert id in tallies + TalliesOf(init, t) ==> (tallies + TalliesOf(init, t))[id].capturedAt <= t.asOf;
    }
  }

  lemma {:induction false} UpsertOptionsAllOld(tallies: map<string, OptionRow>, options: seq<PollOption>, t: Totals)
    requires forall id | id in OptionIds(options) :: id in tallies && t.asOf < tallies[id].capturedAt
    ensures UpsertOptions(tallies, options, t) == tallies
  {
    if |options| > 0 {
      var init := options[..|options| - 1];
      assert OptionIds(options) == OptionIds(init) + [options[|options| - 1].id];
      UpsertOptionsAllOld(tallies, init, t);
    }
  }

  /**
   * The separately guarded upserts act as one: an untorn result is replaced as a whole, by all of
   * the new Totals exactly when the runtime guard passes, or stays as it was.
   */
  lemma SaveIsAllOrNothing(row: PollRow, stored: Totals, finalizedAt: Option<int>, t: Totals, finalized: bool)
    requires Empty(row) || Holds(row, stored, finalizedAt)
    ensures var r := SavedRow(row, row.poll.options, t, finalized);
            r.Ok? ==>
              if Takes(row, t) then Holds(r.value, t, if finalized then Some(t.asOf) else None)
              else r.value.runtime == row.runtime && r.value.tallies == row.tallies
  {
    if !Finalized(row) {
      if Takes(row, t) {
        UpsertOptionsAllNew(row.tallies, row.poll.options, t);
        assert row.tallies + TalliesOf(row.poll.options, t) == TalliesOf(row.poll.options, t);
      } else {
        UpsertOptionsAllOld(row.tallies, row.poll.options, t);
      }
    }
  }

  // ----- Publish and its compensation -----

  function PublishedRow(row: PollRow, stamp: int, buckets: nat): Result<PollRow> {
    match row.poll.status
    case Active => Ok(row)
    case Draft =>
      Ok(row.(poll := row.poll.(status := Active, publishedAt := Some(stamp), updatedAt := stamp), buckets := buckets))
    case Closed => Err(InvalidTransition)
  }

  function RevertedRow(row: PollRow, stamp: int, now: int): Result<PollRow> {
    if row.poll.status == Active && row.poll.publishedAt == Some(stamp)
    then Ok(row.(poll := row.poll.(status := Draft, publishedAt := None, updatedAt := now)))
    else Err(InvalidTransition)
  }

  /** What a writer of the row can do to it. */
  datatype Write =
    | Saving(totals: Totals, finalized: bool)
    | Publishing(stamp: int, buckets: nat)
    | Reverting(stamp: int, at: int)

  function Written(row: PollRow, w: Write): PollRow {
    var r :=
      match w
      case Saving(t, finalized) => SavedRow(row, row.poll.options, t, finalized)
      case Publishing(stamp, buckets) => PublishedRow(row, stamp, buckets)
      case Reverting(stamp, at) => RevertedRow(row, stamp, at);
    if r.Ok? then r.value else row
  }

  function WrittenAll(row: PollRow, writes: seq<Write>): PollRow {
    if |writes| == 0 then row else Written(WrittenAll(row, writes[..|writes| - 1]), writes[|writes| - 1])
  }

  /**
   * Finalization is permanent: whatever transactions commit afterwards, in whatever order and from
   * whatever replica, the stored result stays as it is and the poll stays closed.
   */
  lemma {:induction false} FinalForever(row: PollRow, writes: seq<Write>)
    requires Finalized(row) && row.poll.status == Closed
    ensures WrittenAll(row, writes) == row
  {
    if |writes| > 0 {
      FinalForever(row, writes[..|writes| - 1]);
    }
  }

  /** Closed is terminal, captured_at never goes back, and no write touches the definition. */
  lemma {:induction false} EveryWriteSequence(row: PollRow, writes: seq<Write>)
    ensures var after := WrittenAll(row, writes);
            && SameDefinition(row.poll, after.poll)
            && (row.poll.status == Closed ==> after.poll.status == Closed)
            && (row.runtime.Some? ==>
                  after.runtime.Some? && row.runtime.value.capturedAt <= after.runtime.value.capturedAt)
            && (row.poll.status == Closed && row.poll.closedAt.Some? ==> after.poll.closedAt == row.poll.closedAt)
            && (Finalized(row) ==> after.runtime == row.runtime && after.tallies == row.tallies)
  {
    if |writes| > 0 {
      EveryWriteSequence(row, writes[..|writes| - 1]);
    }
  }

  // ----- The repository -----

  function ResultOf(row: PollRow): Result<PollResult> {
    if row.runtime.None? then Err(NotFound)
    else
      var r := row.runtime.value;
      Ok(PollResult(row.poll.id, row.poll.status, if r.finalizedAt.Some? then PostgresFinal else PostgresSnapshot,
                    r.capturedAt, r.finalizedAt, r.participants, map id | id in row.tallies :: row.tallies[id].count))
  }

  /** The answer for a row says what the row says, field by field. */
  lemma ResultOfRow(row: PollRow)
    ensures row.runtime.None? ==> ResultOf(row) == Err(NotFound)
    ensures row.runtime.Some? ==>
              && ResultOf(row).Ok?
              && var (r, runtime) := (ResultOf(row).value, row.runtime.value);
              && r.pollId == row.poll.id && r.status == row.poll.status
              && r.participants == runtime.participants && r.asOf == runtime.capturedAt && r.finalizedAt == runtime.finalizedAt
              && (r.source == PostgresFinal <==> Finalized(row)) && (r.source == PostgresSnapshot <==> !Finalized(row))
              && r.options.Keys == row.tallies.Keys
              && forall id | id in row.tallies :: r.options[id] == row.tallies[id].count
  {
  }

  class Repository {
    const buckets: nat
    var rows: map<string, PollRow>

    constructor (buckets: nat)
      ensures this.buckets == buckets && rows == map[]
    {
      this.buckets := buckets;
      rows := map[];
    }

    method GetByID(id: string) returns (r: Result<Poll>)
      ensures r == if id in rows then Ok(rows[id].poll) else Err(NotFound)
    {
      if id in rows {
        return Ok(rows[id].poll);
      }
      return Err(NotFound);
    }

    method LoadResult(id: string) returns (r: Result<PollResult>)
      ensures r == if id in rows then ResultOf(rows[id]) else Err(NotFound)
      ensures r.Ok? <==> id in rows && rows[id].runtime.Some?
      ensures r.Err? ==> r.error == NotFound
      ensures r.Ok? ==>
                var row, runtime := rows[id], rows[id].runtime.value;
                && r.value.pollId == row.poll.id && r.value.status == row.poll.status
                && r.value.source == (if runtime.finalizedAt.Some? then PostgresFinal else PostgresSnapshot)
                && r.value.asOf == runtime.capturedAt && r.value.finalizedAt == runtime.finalizedAt
                && r.value.participants == runtime.participants
                && r.value.options.Keys == row.tallies.Keys
                && forall k | k in row.tallies :: r.value.options[k] == row.tallies[k].count
    {
      if id !in rows || rows[id].runtime.None? {
        return Err(NotFound);
      }
      var row := rows[id];
      var options: Fields := map[];
      var rest := row.tallies.Keys;
      while rest != {}
        invariant rest <= row.tallies.Keys
        invariant options == map k | k in row.tallies && k !in rest :: row.tallies[k].count
      {
        var k :| k in rest;
        options := options[k := row.tallies[k].count];
        rest := rest - {k};
      }
      var runtime := row.runtime.value;
      assert options == map k | k in row.tallies :: row.tallies[k].count;
      var source := PostgresSnapshot;
      if runtime.finalizedAt.Some? {
        source := PostgresFinal;
      }
      r := Ok(PollResult(row.poll.id, row.poll.status, source, runtime.capturedAt, runtime.finalizedAt,
                         runtime.participants, options));
    }

    /** One transaction: the row changes as SavedRow says and only when it commits. */
    method SaveSnapshot(poll: Poll, totals: Totals, finalized: bool, trip: Trip) returns (r: Result<PollResult>)
      modifies this`rows
      ensures trip != Answered ==> r == Err(Unavailable)
      ensures poll.id !in old(rows) ==> rows == old(rows) && (trip == Answered ==> r == Err(NotFound))
      ensures poll.id in old(rows) ==>
                var saved := SavedRow(old(rows)[poll.id], poll.options, totals, finalized);
                && (saved.Err? <==> finalized && !Finalized(old(rows)[poll.id]) && old(rows)[poll.id].poll.status == Draft)
                && rows == (if trip == Lost || saved.Err? then old(rows) else old(rows)[poll.id := saved.value])
                && (saved.Ok? ==>
                      var before := old(rows)[poll.id].poll;
                      saved.value.poll ==
                        if finalized && !Finalized(old(rows)[poll.id]) then
                          before.(status := Closed, closedAt := if before.closedAt.Some? then before.closedAt else Some(totals.asOf),
                                  updatedAt := totals.asOf)
                        else before)
                && (trip == Answered ==> if saved.Err? then r == Err(InvalidTransition) else r == ResultOf(saved.value) && r.Ok?)
    {
      if trip == Lost {
        return Err(Unavailable);
      }
      if poll.id !in rows {
        return Err(if trip == Answered then NotFound else Unavailable);
      }
      var tx := rows[poll.id];
      var status := tx.poll.status;
      if Finalized(tx) {
        if trip == Unanswered {
          assert rows[poll.id := tx] == rows;
          return Err(Unavailable);
        }
        assert rows[poll.id := tx] == rows;
        r := LoadResult(poll.id);
        return;
      }
      var finalAt: Option<int> := if finalized then Some(totals.asOf) else None;
      tx := tx.(runtime := UpsertRuntime(tx.runtime, totals, finalAt));
      for i := 0 to |poll.options|
        invariant tx == rows[poll.id].(runtime := UpsertRuntime(rows[poll.id].runtime, totals, finalAt),
                                       tallies := UpsertOptions(rows[poll.id].tallies, poll.options[..i], totals))
      {
        assert poll.options[..i + 1][..i] == poll.options[..i];
        tx := tx.(tallies := UpsertOption(tx.tallies, poll.options[i].id, totals));
      }
      assert poll.options[..|poll.options|] == poll.options;
      if finalized {
        if status != Active && status != Closed {
          return Err(if trip == Answered then InvalidTransition else Unavailable);
        }
        tx := tx.(poll := ClosedAt(tx.poll, totals.asOf));
      }
      rows := rows[poll.id := tx];
      if trip == Unanswered {
        return Err(Unavailable);
      }
      r := LoadResult(poll.id);
    }

    method Publish(id: string, stamp: int, trip: Trip) returns (r: Result<Poll>)
      modifies this`rows
      ensures trip != Answered ==> r == Err(Unavailable)
      ensures id !in old(rows) ==> rows == old(rows) && (trip == Answered ==> r == Err(NotFound))
      ensures id in old(rows) ==>
                var published := PublishedRow(old(rows)[id], stamp, buckets);
                && rows == (if trip == Lost || published.Err? then old(rows) else old(rows)[id := published.value])
                && r == (if trip != Answered then Err(Unavailable)
                         else if published.Err? then Err(InvalidTransition)
                         else Ok(published.value.poll))
    {
      if trip == Lost {
        return Err(Unavailable);
      }
      if id !in rows {
        return Err(if trip == Answered then NotFound else Unavailable);
      }
      var tx := rows[id];
      if tx.poll.status == Active {
        assert rows[id := tx] == rows;
      } else if tx.poll.status != Draft {
        return Err(if trip == Answered then InvalidTransition else Unavailable);
      } else {
        tx := tx.(poll := tx.poll.(status := Active, publishedAt := Some(stamp), updatedAt := stamp), buckets := buckets);
      }
      rows := rows[id := tx];
      if trip == Unanswered {
        return Err(Unavailable);
      }
      r := GetByID(id);
    }

    method RevertPublish(id: string, stamp: int, now: int, trip: Trip) returns (ok: bool)
      modifies this`rows
      ensures id !in old(rows) ==> rows == old(rows) && !ok
      ensures id in old(rows) ==>
                var reverted := RevertedRow(old(rows)[id], stamp, now);
                && rows == (if trip == Lost || reverted.Err? then old(rows) else old(rows)[id := reverted.value])
                && ok == (trip == Answered && reverted.Ok?)
    {
      if trip == Lost || id !in rows {
        return false;
      }
      var affected := 0;
      if rows[id].poll.status == Active && rows[id].poll.publishedAt == Some(stamp) {
        rows := rows[id := rows[id].(poll := rows[id].poll.(status := Draft, publishedAt := None, updatedAt := now))];
        affected := 1;
      }
      ok := trip == Answered && affected != 0;
    }

    /** The startup check: passes exactly when every active poll was published with this bucket count. */
    method ValidateActiveBuckets() returns (ok: bool)
      ensures ok <==> forall id | id in rows :: rows[id].poll.status == Active ==> rows[id].buckets == buckets
    {
      var count := 0;
      var rest := rows.Keys;
      while rest != {}
        invariant rest <= rows.Keys && count >= 0
        invariant count == 0 <==> forall id | id in rows && id !in rest ::
                    rows[id].poll.status == Active ==> rows[id].buckets == buckets
      {
        var id :| id in rest;
        rest := rest - {id};
        if rows[id].poll.status == Active && rows[id].buckets != buckets {
          count := count + 1;
        }
      }
      ok := count == 0;
    }
  }
}
