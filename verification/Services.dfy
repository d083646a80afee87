/** Publish with compensation, Close, Snapshot and Vote over the stores (internal/service). */
module Services {
  import opened Ballots
  import opened Counters
  import opened Domain
  import opened Expiry
  import opened Finality
  import opened PollCache
  import opened PollRepository
  import opened VoteStore
  import Protocol
  import Untorn

  // ----- Publish -----

  /** How the requests of one Publish fare. A crash is a request that is lost, and all after it. */
  datatype PublishTrips = PublishTrips(commit: Trip, setup: Link, revert: Trip, delete: bool)

  /** The row and the keys of the poll after a request, and its answer. */
  datatype Outcome<+A> = Outcome(row: PollRow, keys: Keys, answer: Result<A>)

  function Sent(link: Link, n: nat): (k: nat)
    ensures k <= n
  {
    if link.delivered < n then link.delivered else n
  }

  function AfterSetup(published: PollRow, keys: Keys, n: nat, stamp: int, now: int, gate: Gate, trips: PublishTrips): Outcome<Poll> {
    var keys1 := GatesSet(keys, Sent(trips.setup, n), gate);
    if trips.setup.delivered >= n && trips.setup.replied then Outcome(published, keys1, Ok(published.poll))
    else if published.poll.publishedAt != Some(stamp) || trips.revert == Lost then Outcome(published, keys1, Err(Unavailable))
    else
      var reverted := published.(poll := published.poll.(status := Draft, publishedAt := None, updatedAt := now));
      if trips.revert == Answered && trips.delete then Outcome(reverted, GatesDeleted(keys1, n), Err(Unavailable))
      else Outcome(reverted, keys1, Err(Unavailable))
  }

  function PublishOutcome(row: PollRow, keys: Keys, n: nat, stamp: int, now: int, gate: Gate, trips: PublishTrips): Outcome<Poll> {
    var published := PublishedRow(row, stamp, n);
    if trips.commit == Lost then Outcome(row, keys, Err(Unavailable))
    else if published.Err? then Outcome(row, keys, Err(if trips.commit == Answered then InvalidTransition else Unavailable))
    else if trips.commit == Unanswered then Outcome(published.value, keys, Err(Unavailable))
    else AfterSetup(published.value, keys, n, stamp, now, gate, trips)
  }

  class PollService {
    const repo: Repository
    const gates: Store
    const cache: Cache

    constructor (repo: Repository, gates: Store, cache: Cache)
      ensures this.repo == repo && this.gates == gates && this.cache == cache
    {
      this.repo := repo;
      this.gates := gates;
      this.cache := cache;
    }

    /** Opens the gates of a poll whose row is committed, and compensates when that fails. */
    method OpenOrRevert(p: Poll, stamp: int, now: int, trips: PublishTrips) returns (ok: bool)
      requires p.id in repo.rows && repo.rows[p.id].poll == p && p.status == Active
      modifies repo, gates`polls
      ensures var gate := Gate(true, now + TTL(gates.retention, gates.maxTTL, p.endsAt, now));
              var o := AfterSetup(old(repo.rows)[p.id], old(gates.KeysOf(p.id)), gates.buckets, stamp, now, gate, trips);
              && repo.rows == old(repo.rows)[p.id := o.row]
              && gates.KeysOf(p.id) == o.keys
              && (forall other | other != p.id :: gates.KeysOf(other) == old(gates.KeysOf(other)))
              && ok == o.answer.Ok?
    {
      ghost var rows := repo.rows;
      assert rows[p.id := rows[p.id]] == rows;
      ok := gates.SetGates(p.id, true, p.endsAt, now, trips.setup);
      if !ok && p.publishedAt == Some(stamp) {
        var reverted := repo.RevertPublish(p.id, stamp, now, trips.revert);
        if reverted && trips.delete {
          gates.DeleteGates(p.id);
        }
      }
    }

    /** Publish without its last step, the warming of the cache. */
    method PublishAndOpen(id: string, stamp: int, now: int, trips: PublishTrips) returns (r: Result<Poll>)
      requires repo.buckets == gates.buckets && (id in repo.rows ==> repo.rows[id].poll.id == id)
      modifies repo, gates`polls
      ensures id !in old(repo.rows) ==> repo.rows == old(repo.rows) && gates.polls == old(gates.polls)
      ensures id !in old(repo.rows) ==> r == Err(if trips.commit == Answered then NotFound else Unavailable)
      ensures id in old(repo.rows) ==>
                var row := old(repo.rows)[id];
                var gate := Gate(true, now + TTL(gates.retention, gates.maxTTL, row.poll.endsAt, now));
                var o := PublishOutcome(row, old(gates.KeysOf(id)), gates.buckets, stamp, now, gate, trips);
                && repo.rows == old(repo.rows)[id := o.row]
                && gates.KeysOf(id) == o.keys
                && (forall other | other != id :: gates.KeysOf(other) == old(gates.KeysOf(other)))
                && r == o.answer && (r.Ok? ==> r.value.id == id)
    {
      assert id in repo.rows ==> repo.rows[id := repo.rows[id]] == repo.rows;
      var published := repo.Publish(id, stamp, trips.commit);
      if published.Err? {
        return Err(published.error);
      }
      var ok := OpenOrRevert(published.value, stamp, now, trips);
      if !ok {
        return Err(Unavailable);
      }
      return published;
    }

    method Publish(id: string, stamp: int, now: int, trips: PublishTrips) returns (r: Result<Poll>)
      requires cache.Valid() && repo.buckets == gates.buckets
      requires id in repo.rows ==> repo.rows[id].poll.id == id
      modifies repo, gates`polls, cache, cache.entries.Values
      ensures trips.commit != Answered ==> r == Err(Unavailable)
      ensures id !in old(repo.rows) ==> repo.rows == old(repo.rows) && gates.polls == old(gates.polls)
      ensures id !in old(repo.rows) && trips.commit == Answered ==> r == Err(NotFound)
      // What the requests that arrive do to row and gates, and the answer.
      ensures id in old(repo.rows) ==>
                var row, keys, n := old(repo.rows)[id], old(gates.KeysOf(id)), gates.buckets;
                var published := if row.poll.status != Draft then row else
                  row.(poll := row.poll.(status := Active, publishedAt := Some(stamp), updatedAt := stamp), buckets := n);
                var reverted := published.(poll := published.poll.(status := Draft, publishedAt := None, updatedAt := now));
                var gate := Gate(true, now + TTL(gates.retention, gates.maxTTL, row.poll.endsAt, now));
                var sent := GatesSet(keys, if trips.setup.delivered < n then trips.setup.delivered else n, gate);
                var allSet := trips.setup.delivered >= n && trips.setup.replied;
                var mine := published.poll.publishedAt == Some(stamp);
                && repo.rows.Keys == old(repo.rows).Keys
                && (forall other | other in old(repo.rows) && other != id :: repo.rows[other] == old(repo.rows)[other])
                && (if trips.commit == Lost || row.poll.status == Closed then
                      repo.rows[id] == row && gates.KeysOf(id) == keys
                      && (trips.commit == Answered ==> r == Err(InvalidTransition))
                    else if trips.commit == Unanswered then
                      repo.rows[id] == published && gates.KeysOf(id) == keys
                    else if allSet then
                      repo.rows[id] == published && gates.KeysOf(id) == sent && r == Ok(published.poll)
                    else if mine && trips.revert != Lost then
                      repo.rows[id] == reverted && r == Err(Unavailable)
                      && gates.KeysOf(id) == if trips.revert == Answered && trips.delete then GatesDeleted(sent, n) else sent
                    else
                      repo.rows[id] == published && gates.KeysOf(id) == sent && r == Err(Unavailable))
      // The same as the outcome that the runs of the protocol are compared with.
      ensures id in old(repo.rows) ==>
                var row := old(repo.rows)[id];
                var gate := Gate(true, now + TTL(gates.retention, gates.maxTTL, row.poll.endsAt, now));
                PublishOutcome(row, old(gates.KeysOf(id)), gates.buckets, stamp, now, gate, trips)
                  == Outcome(repo.rows[id], gates.KeysOf(id), r)
      ensures forall other | other != id :: gates.KeysOf(other) == old(gates.KeysOf(other))
      ensures cache.Valid() && (forall other | other != id :: cache.ValueOf(other) == old(cache.ValueOf(other)))
      ensures cache.ValueOf(id) == if r.Ok? then Some(Cached(r.value, now + cache.ttl)) else old(cache.ValueOf(id))
    {
      r := PublishAndOpen(id, stamp, now, trips);
      if r.Ok? {
        cache.Put(r.value, now);
      }
    }
  }

  /** Drafts carry no publication time. */
  predicate Publishable(row: PollRow) {
    row.poll.status == Active || (row.poll.status == Draft && row.poll.publishedAt == None)
  }

  const NO_FAULT := PublishTrips(Answered, Link(4096, true), Answered, true)

  lemma GatesAfterDeletion(keys: Keys, k: nat, n: nat, before: Gate, gate: Gate)
    requires k <= n
    ensures GatesSet(GatesDeleted(GatesSet(keys, k, before), n), n, gate) == GatesSet(keys, n, gate)
  {
    var left := GatesDeleted(GatesSet(keys, k, before), n);
    GatesSetIs(keys, k, before);
    GatesSetIs(left, n, gate);
    GatesSetIs(keys, n, gate);
    OverwrittenBelow(left.gates, keys.gates, n, gate);
  }

  lemma OverwrittenBelow(a: map<nat, Gate>, b: map<nat, Gate>, n: nat, gate: Gate)
    requires forall k: nat | n <= k :: (k in a <==> k in b) && (k in a ==> a[k] == b[k])
    ensures a + Uniform(n, gate) == b + Uniform(n, gate)
  {
  }

  lemma GatesDeletedExactly(keys: Keys, n: nat)
    ensures var after := GatesDeleted(keys, n);
            && after.markers == keys.markers && after.hashes == keys.hashes
            && forall b: nat :: if b < n then b !in after.gates
                                else (b in after.gates <==> b in keys.gates) && (b in keys.gates ==> after.gates[b] == keys.gates[b])
  {
  }

  /**
   * A Publish whose gates could not all be set, and whose compensation is carried out and answered,
   * leaves the poll a draft, with no gate of its buckets, if and only if it was this request that had
   * made the poll active. Any other poll keeps its row and the gates that were set.
   */
  lemma FailedPublishExactly(row: PollRow, keys: Keys, n: nat, stamp: int, now: int, gate: Gate, trips: PublishTrips)
    requires row.poll.status != Closed && !(trips.setup.delivered >= n && trips.setup.replied)
    requires trips.commit == Answered && trips.revert == Answered && trips.delete
    ensures var o := PublishOutcome(row, keys, n, stamp, now, gate, trips);
            var made := row.poll.status == Draft || row.poll.publishedAt == Some(stamp);
            && o.answer == Err(Unavailable)
            && (o.row.poll.status == Draft <==> made)
            && (made ==> o.row.poll.publishedAt == None && forall b: nat | b < n :: b !in o.keys.gates)
            && (!made ==> o.row == row && forall b: nat | b < trips.setup.delivered && b < n :: b in o.keys.gates && o.keys.gates[b] == gate)
            && o.keys.markers == keys.markers && o.keys.hashes == keys.hashes
  {
    GatesSetIs(keys, Sent(trips.setup, n), gate);
    GatesDeletedExactly(GatesSet(keys, Sent(trips.setup, n), gate), n);
  }

  /** The keys with only the gates taken from elsewhere. */
  function WithGates(keys: Keys, gates: map<nat, Gate>): Keys {
    keys.(gates := gates)
  }

  lemma GatesSetOnOthers(keys: Keys, other: Keys, k: nat, gate: Gate)
    ensures GatesSet(WithGates(other, keys.gates), k, gate) == WithGates(other, GatesSet(keys, k, gate).gates)
  {
    GatesSetIs(keys, k, gate);
    GatesSetIs(WithGates(other, keys.gates), k, gate);
  }

  /** Setting every gate gives the same whatever a Publish attempt did to the gates before. */
  lemma GatesOfRetry(keys: Keys, keys2: Keys, k: nat, n: nat, gate: Gate, gate2: Gate)
    requires k <= n
    requires keys2.gates == keys.gates || keys2.gates == GatesSet(keys, k, gate).gates
             || keys2.gates == GatesDeleted(GatesSet(keys, k, gate), n).gates
    ensures GatesSet(keys2, n, gate2) == GatesSet(WithGates(keys2, keys.gates), n, gate2)
    ensures forall b: nat | b < n :: b in GatesSet(keys2, n, gate2).gates && GatesSet(keys2, n, gate2).gates[b] == gate2
    ensures GatesSet(keys2, n, gate2).markers == keys2.markers && GatesSet(keys2, n, gate2).hashes == keys2.hashes
  {
    var base := WithGates(keys2, keys.gates);
    GatesSetOnOthers(keys, keys2, k, gate);
    GatesSetOverwrites(base, k, n, gate, gate2);
    GatesAfterDeletion(base, k, n, gate, gate2);
    GatesSetIs(keys2, n, gate2);
    GatesSetIs(base, n, gate2);
    assert WithGates(keys2, keys2.gates) == keys2;
    if keys2.gates == GatesSet(keys, k, gate).gates {
      assert keys2 == GatesSet(base, k, gate);
    } else if keys2.gates == GatesDeleted(GatesSet(keys, k, gate), n).gates {
      assert keys2 == GatesDeleted(GatesSet(base, k, gate), n);
    }
  }

  /** What a faulty Publish can have done to the row and the gates. */
  lemma PublishAttempt(row: PollRow, keys: Keys, n: nat, stamp: int, now: int, gate: Gate, trips: PublishTrips)
    requires Publishable(row) && (row.poll.status == Active ==> row.poll.publishedAt != Some(stamp))
    ensures var o, k := PublishOutcome(row, keys, n, stamp, now, gate, trips), Sent(trips.setup, n);
            && o.keys in {keys, GatesSet(keys, k, gate), GatesDeleted(GatesSet(keys, k, gate), n)}
            && (row.poll.status == Active ==> o.row == row)
            && (row.poll.status == Draft ==>
                  if o.row.poll.status == Active then o.row == PublishedRow(row, stamp, n).value
                  else && o.row.poll.status == Draft
                       && PublishedRow(o.row.(buckets := n), 0, n) == PublishedRow(row.(buckets := n), 0, n))
            && o.row.runtime == row.runtime && o.row.tallies == row.tallies
  {
  }

  /**
   * Publish is retryable. An attempt fails or crashes anywhere; then any votes and snapshots come in,
   * which leave gates and definition alone (`row2`, `keys2`); then an attempt that meets no fault
   * leaves what a single faultless Publish would have left in their place: the poll is active with
   * all gates open, published at the stamp of whichever attempt made the transition that stands, and
   * every marker and counter is as the votes left it.
   */
  lemma PublishRetry(row: PollRow, keys: Keys, n: nat, stamp: int, now: int, gate: Gate, trips: PublishTrips,
                     row2: PollRow, keys2: Keys, stamp2: int, now2: int, gate2: Gate)
    requires Publishable(row) && n <= 4096
    requires row.poll.status == Active ==> row.poll.publishedAt != Some(stamp)
    requires var first := PublishOutcome(row, keys, n, stamp, now, gate, trips);
             row2.poll == first.row.poll && row2.buckets == first.row.buckets && keys2.gates == first.keys.gates
    ensures var second := PublishOutcome(row2, keys2, n, stamp2, now2, gate2, NO_FAULT);
            var standing := if row2.poll.status == Active then stamp else stamp2;
            var untouched := row2.(poll := row.poll, buckets := row.buckets);
            && second == PublishOutcome(untouched, WithGates(keys2, keys.gates), n, standing, now2, gate2, NO_FAULT)
            && second.answer == Ok(second.row.poll) && second.row.poll.status == Active
            && second.keys.markers == keys2.markers && second.keys.hashes == keys2.hashes
            && (forall b: nat | b < n :: b in second.keys.gates && second.keys.gates[b] == gate2)
            && (row.poll.status == Active ==> second.row.poll == row.poll)
  {
    PublishAttempt(row, keys, n, stamp, now, gate, trips);
    GatesOfRetry(keys, keys2, Sent(trips.setup, n), n, gate, gate2);
  }

  // ----- Close -----

  datatype CloseTrips = CloseTrips(setup: Link, read: bool, save: Trip)

  /** What Close and Results answer: the poll, and its result. */
  datatype PollWithResult = PollWithResult(poll: Poll, result: PollResult)

  function CloseOutcome(row: PollRow, keys: Keys, n: nat, now: int, gate: Gate, trips: CloseTrips): Outcome<PollWithResult> {
    if row.poll.status == Closed then Outcome(row, keys, StoredAnswer(row))
    else if row.poll.status == Draft then Outcome(row, keys, Err(InvalidTransition))
    else
      var shut := GatesSet(keys, Sent(trips.setup, n), gate);
      var ids := OptionIds(row.poll.options);
      var hashes := LiveHashes(shut, n, now);
      if trips.setup.delivered < n || !trips.setup.replied || !trips.read then Outcome(row, shut, Err(Unavailable))
      else if !SumsFit(hashes, ids) then Outcome(row, shut, Err(BadCounter))
      else if trips.save == Lost then Outcome(row, shut, Err(Unavailable))
      else
        var saved := SavedRow(row, row.poll.options, Sums(hashes, ids, now), true);
        if saved.Err? then Outcome(row, shut, Err(if trips.save == Answered then saved.error else Unavailable))
        else if trips.save == Unanswered then Outcome(saved.value, shut, Err(Unavailable))
        else Outcome(saved.value, shut, ClosedAnswer(row.poll, saved.value))
  }

  function StoredAnswer(row: PollRow): Result<PollWithResult> {
    var r := ResultOf(row);
    if r.Err? then Err(r.error) else Ok(PollWithResult(row.poll, r.value))
  }

  /** The poll as it was read, closed as the result says. */
  function ClosedAnswer(p: Poll, saved: PollRow): Result<PollWithResult> {
    var r := ResultOf(saved);
    if r.Err? then Err(r.error) else Ok(PollWithResult(p.(status := Closed, closedAt := r.value.finalizedAt), r.value))
  }

  class ResultService {
    const repo: Repository
    const store: Store
    const cache: Cache

    constructor (repo: Repository, store: Store, cache: Cache)
      ensures this.repo == repo && this.store == store && this.cache == cache
    {
      this.repo := repo;
      this.store := store;
      this.cache := cache;
    }

    /** `read` tells whether the pipeline of HGETALL commands is answered. */
    method Close(id: string, now: int, trips: CloseTrips) returns (r: Result<PollWithResult>)
      requires cache.Valid()
      requires id in repo.rows ==> repo.rows[id].poll.id == id
      modifies repo, store`polls, cache
      ensures id !in old(repo.rows) ==> r == Err(NotFound) && repo.rows == old(repo.rows) && store.polls == old(store.polls)
      // The answer, case by case.
      ensures id in old(repo.rows) && old(repo.rows)[id].poll.status != Active ==>
                var row := old(repo.rows)[id];
                && repo.rows == old(repo.rows) && store.polls == old(store.polls)
                && (row.poll.status == Draft ==> r == Err(InvalidTransition))
                && (row.poll.status == Closed && row.runtime.None? ==> r == Err(NotFound))
                && (row.poll.status == Closed && row.runtime.Some? ==> r.Ok? && r.value.poll == row.poll)
      ensures id in old(repo.rows) && old(repo.rows)[id].poll.status == Active ==>
                var row, n := old(repo.rows)[id], store.buckets;
                var gate := Gate(false, now + TTL(store.retention, store.maxTTL, row.poll.endsAt, now));
                var hashes := LiveHashes(old(store.KeysOf(id)), n, now);
                && store.KeysOf(id) == GatesSet(old(store.KeysOf(id)), if trips.setup.delivered < n then trips.setup.delivered else n, gate)
                && repo.rows.Keys == old(repo.rows).Keys
                && (forall other | other in old(repo.rows) && other != id :: repo.rows[other] == old(repo.rows)[other])
                && (if trips.setup.delivered < n || !trips.setup.replied || !trips.read then
                      r == Err(Unavailable) && repo.rows[id] == row
                    else if !SumsFit(hashes, OptionIds(row.poll.options)) then
                      r == Err(BadCounter) && repo.rows[id] == row
                    else if trips.save == Lost then
                      r == Err(Unavailable) && repo.rows[id] == row
                    else
                      && SavedRow(row, row.poll.options, Sums(hashes, OptionIds(row.poll.options), now), true) == Ok(repo.rows[id])
                      && (trips.save == Unanswered ==> r == Err(Unavailable))
                      && (trips.save == Answered ==>
                            r.Ok? && r.value.poll == row.poll.(status := Closed, closedAt := r.value.result.finalizedAt)))
      ensures r.Ok? ==>
                && repo.rows[id].runtime.Some?
                && var (row, runtime, result) := (repo.rows[id], repo.rows[id].runtime.value, r.value.result);
                && result.pollId == id && result.status == row.poll.status
                && result.source == (if runtime.finalizedAt.Some? then PostgresFinal else PostgresSnapshot)
                && result.asOf == runtime.capturedAt && result.finalizedAt == runtime.finalizedAt
                && result.participants == runtime.participants
                && result.options.Keys == row.tallies.Keys
                && forall k | k in row.tallies :: result.options[k] == row.tallies[k].count
      // The same as the outcome that the runs of the protocol are compared with.
      ensures id in old(repo.rows) ==>
                var row := old(repo.rows)[id];
                var gate := Gate(false, now + TTL(store.retention, store.maxTTL, row.poll.endsAt, now));
                CloseOutcome(row, old(store.KeysOf(id)), store.buckets, now, gate, trips) == Outcome(repo.rows[id], store.KeysOf(id), r)
      ensures forall other | other != id :: store.KeysOf(other) == old(store.KeysOf(other))
      ensures cache.Valid() && (forall other | other != id :: cache.ValueOf(other) == old(cache.ValueOf(other)))
      ensures id in old(repo.rows) ==>
                cache.ValueOf(id) == if r.Ok? && old(repo.rows)[id].poll.status == Active then None else old(cache.ValueOf(id))
    {
      var found := repo.GetByID(id);
      if found.Err? {
        return Err(found.error);
      }
      var p := found.value;
      if p.status == PollStatus.Closed {
        var stored := repo.LoadResult(id);
        if stored.Err? {
          return Err(stored.error);
        }
        return Ok(PollWithResult(p, stored.value));
      }
      if p.status != Active {
        return Err(InvalidTransition);
      }
      LiveHashesIgnoreGates(store.KeysOf(id), Sent(trips.setup, store.buckets),
                            Gate(false, now + TTL(store.retention, store.maxTTL, p.endsAt, now)), store.buckets, now);
      r := CloseActive(p, now, trips);
      if r.Ok? {
        cache.Delete(id);
      }
    }

    /** Close of a poll that was read as active, without its last step, the eviction from the cache. */
    method CloseActive(p: Poll, now: int, trips: CloseTrips) returns (r: Result<PollWithResult>)
      requires p.id in repo.rows && repo.rows[p.id].poll == p && p.status == Active
      modifies repo, store`polls
      ensures var gate := Gate(false, now + TTL(store.retention, store.maxTTL, p.endsAt, now));
              var o := CloseOutcome(old(repo.rows)[p.id], old(store.KeysOf(p.id)), store.buckets, now, gate, trips);
              && repo.rows == old(repo.rows)[p.id := o.row]
              && store.KeysOf(p.id) == o.keys
              && (forall other | other != p.id :: store.KeysOf(other) == old(store.KeysOf(other)))
              && r == o.answer
    {
      ghost var rows := repo.rows;
      assert rows[p.id := rows[p.id]] == rows;
      var ok := store.SetGates(p.id, false, p.endsAt, now, trips.setup);
      if !ok {
        return Err(Unavailable);
      }
      if !trips.read {
        return Err(Unavailable);
      }
      var t := store.GetTotals(p.id, OptionIds(p.options), now);
      if t.Err? {
        return Err(t.error);
      }
      var saved := repo.SaveSnapshot(p, t.value, true, trips.save);
      if saved.Err? {
        return Err(saved.error);
      }
      r := Ok(PollWithResult(p.(status := PollStatus.Closed, closedAt := saved.value.finalizedAt), saved.value));
    }

    /** The stored result of a closed poll, and the live totals of an active one. */
    method Results(id: string, now: int, read: bool) returns (r: Result<PollWithResult>)
      requires id in repo.rows ==> repo.rows[id].poll.id == id
      ensures id !in repo.rows ==> r == Err(NotFound)
      ensures id in repo.rows && repo.rows[id].poll.status == Draft ==> r == Err(InvalidTransition)
      ensures id in repo.rows && repo.rows[id].poll.status == Closed ==>
                if repo.rows[id].runtime.None? then r == Err(NotFound)
                else r.Ok? && r.value.poll == repo.rows[id].poll && ResultOf(repo.rows[id]) == Ok(r.value.result)
      ensures id in repo.rows && repo.rows[id].poll.status == Active ==>
                var p := repo.rows[id].poll;
                var hashes := LiveHashes(store.KeysOf(id), store.buckets, now);
                if !read then r == Err(Unavailable)
                else if !SumsFit(hashes, OptionIds(p.options)) then r == Err(BadCounter)
                else
                  && r.Ok? && r.value.poll == p
                  && var t := r.value.result;
                  && t.pollId == id && t.status == Active && t.source == RedisLive && t.asOf == now && t.finalizedAt == None
                  && t.participants == ColumnSum(hashes, PARTICIPANTS)
                  && t.options.Keys == (set k | k in OptionIds(p.options))
                  && forall k | k in OptionIds(p.options) && k != PARTICIPANTS :: t.options[k] == ColumnSum(hashes, k)
    {
      var found := repo.GetByID(id);
      if found.Err? {
        return Err(found.error);
      }
      var p := found.value;
      if p.status == PollStatus.Closed {
        var stored := repo.LoadResult(id);
        if stored.Err? {
          return Err(stored.error);
        }
        return Ok(PollWithResult(p, stored.value));
      }
      if p.status != Active {
        return Err(InvalidTransition);
      }
      if !read {
        return Err(Unavailable);
      }
      var t := store.GetTotals(id, OptionIds(p.options), now);
      if t.Err? {
        return Err(t.error);
      }
      r := Ok(PollWithResult(p, PollResult(id, p.status, RedisLive, t.value.asOf, None, t.value.participants, t.value.options)));
    }

    /** One pass of the snapshot worker over a poll; the lock is released whatever happens. */
    method Snapshot(p: Poll, token: string, now: int, read: bool, save: Trip) returns (ok: bool)
      modifies repo, store`locks
      ensures p.id in old(store.locks) && now < old(store.locks)[p.id].expires ==>
                ok && repo.rows == old(repo.rows) && store.locks == old(store.locks)
      ensures !(p.id in old(store.locks) && now < old(store.locks)[p.id].expires) && p.id !in old(repo.rows) ==>
                !ok && repo.rows == old(repo.rows) && store.locks == old(store.locks) - {p.id}
      ensures !(p.id in old(store.locks) && now < old(store.locks)[p.id].expires) && p.id in old(repo.rows) ==>
                var hashes := LiveHashes(store.KeysOf(p.id), store.buckets, now);
                && store.locks == old(store.locks) - {p.id}
                && (ok <==> read && SumsFit(hashes, OptionIds(p.options)) && save == Answered)
                && repo.rows.Keys == old(repo.rows).Keys
                && (forall other | other in old(repo.rows) && other != p.id :: repo.rows[other] == old(repo.rows)[other])
                && if read && SumsFit(hashes, OptionIds(p.options)) && save != Lost then
                     SavedRow(old(repo.rows)[p.id], p.options, Sums(hashes, OptionIds(p.options), now), false) == Ok(repo.rows[p.id])
                   else repo.rows[p.id] == old(repo.rows)[p.id]
    {
      ok := store.AcquireSnapshotLock(p.id, token, Protocol.LEASE, now);
      if !ok {
        return true;
      }
      if !read {
        store.ReleaseSnapshotLock(p.id, token, now);
        assert store.locks == old(store.locks) - {p.id};
        return false;
      }
      var t := store.GetTotals(p.id, OptionIds(p.options), now);
      ok := t.Ok?;
      if t.Ok? {
        var r := repo.SaveSnapshot(p, t.value, false, save);
        ok := r.Ok?;
      }
      store.ReleaseSnapshotLock(p.id, token, now);
      assert store.locks == old(store.locks) - {p.id};
    }
  }

  const NO_CLOSE_FAULT := CloseTrips(Link(4096, true), true, Answered)

  /** A Close leaves every marker and every counter, and a closed poll has no open gate once all were written. */
  lemma CloseKeepsBallots(row: PollRow, keys: Keys, n: nat, now: int, gate: Gate, trips: CloseTrips)
    requires row.poll.status == Active && !gate.active
    ensures var o := CloseOutcome(row, keys, n, now, gate, trips);
            && o.keys == GatesSet(keys, Sent(trips.setup, n), gate)
            && o.keys.markers == keys.markers && o.keys.hashes == keys.hashes
            && (o.row.poll.status == Active ==> o.row == row)
            && (o.row.poll.status == Closed ==> forall b: nat, at | b < n :: !Open(o.keys, b, at))
  {
    GatesSetIs(keys, Sent(trips.setup, n), gate);
  }

  /**
   * Close is retryable. After an attempt that failed or crashed while the poll stayed active, and any
   * votes and snapshots since (`row2`, `keys2`), a faultless one leaves exactly what a single faultless
   * Close would have left in their place; once the poll is closed, another Close changes nothing. No
   * attempt touches a marker or a counter, and a closed poll has no open gate.
   */
  lemma CloseRetry(row: PollRow, keys: Keys, n: nat, now: int, gate: Gate, trips: CloseTrips,
                   row2: PollRow, keys2: Keys, now2: int, gate2: Gate)
    requires n <= 4096 && row.poll.status == Active && !gate.active && !gate2.active
    requires var first := CloseOutcome(row, keys, n, now, gate, trips);
             row2.poll == first.row.poll && keys2.gates == first.keys.gates
    ensures var second := CloseOutcome(row2, keys2, n, now2, gate2, NO_CLOSE_FAULT);
            && (row2.poll.status == Active ==>
                  second == CloseOutcome(row2, WithGates(keys2, keys.gates), n, now2, gate2, NO_CLOSE_FAULT))
            && (row2.poll.status == Closed ==> second.row == row2 && second.keys == keys2)
            && second.keys.markers == keys2.markers && second.keys.hashes == keys2.hashes
            && (second.row.poll.status == Closed ==> forall b: nat, at | b < n :: !Open(second.keys, b, at))
  {
    CloseKeepsBallots(row, keys, n, now, gate, trips);
    GatesOfRetry(keys, keys2, Sent(trips.setup, n), n, gate, gate2);
    if row2.poll.status == Active {
      CloseKeepsBallots(row2, keys2, n, now2, gate2, NO_CLOSE_FAULT);
    } else {
      assert forall b: nat, at :: Open(keys2, b, at) == Open(CloseOutcome(row, keys, n, now, gate, trips).keys, b, at);
    }
  }

  lemma FaultlessCloseIs(row: PollRow, keys: Keys, n: nat, now: int, gate: Gate)
    requires row.poll.status == Active && SumsFit(LiveHashes(keys, n, now), OptionIds(row.poll.options))
    ensures var saved := SavedRow(row, row.poll.options, Sums(LiveHashes(keys, n, now), OptionIds(row.poll.options), now), true);
            && saved.Ok?
            && CloseOutcome(row, keys, n, now, gate, CloseTrips(Link(n, true), true, Answered))
                 == Outcome(saved.value, GatesSet(keys, n, gate), ClosedAnswer(row.poll, saved.value))
  {
    LiveHashesIgnoreGates(keys, n, gate, n, now);
  }

  /**
   * A Close whose commit arrived but whose answer was lost is recovered by any later Close: it finds
   * the poll closed and returns the result that commit stored, which the lost answer carried.
   */
  lemma LostAnswerIsRecovered(row: PollRow, keys: Keys, n: nat, now: int, gate: Gate, setup: Link,
                              keys2: Keys, now2: int, gate2: Gate, trips2: CloseTrips)
    requires row.poll.status == Active
    requires CloseOutcome(row, keys, n, now, gate, CloseTrips(setup, true, Unanswered)).row.poll.status == Closed
    ensures var lost := CloseOutcome(row, keys, n, now, gate, CloseTrips(setup, true, Unanswered));
            var heard := CloseOutcome(row, keys, n, now, gate, CloseTrips(setup, true, Answered));
            var again := CloseOutcome(lost.row, keys2, n, now2, gate2, trips2);
            && lost.answer == Err(Unavailable) && heard.answer.Ok? && again.answer.Ok?
            && again.row == lost.row == heard.row && again.keys == keys2
            && again.answer.value.result == heard.answer.value.result
            && again.answer.value.poll == lost.row.poll
            && (!Finalized(row) && row.poll.closedAt == None && Finalized(lost.row) ==>
                  again.answer.value.poll.closedAt == heard.answer.value.poll.closedAt == Some(now))
  {
  }

  // ----- Vote -----

  function LoadedForVote(rows: map<string, PollRow>, id: string): Result<Poll> {
    if id !in rows then Err(NotFound)
    else if rows[id].poll.status != Active then Err(NotActive)
    else Ok(rows[id].poll)
  }

  /** The keys after a vote whose definition, cached or loaded, is `found`, and the answer. */
  function VoteOutcome(found: Result<Poll>, keys: Keys, m: Marker, options: seq<string>, retention: int, maxTTL: int, now: int):
    (Keys, Result<Answer>)
  {
    if found.Err? then (keys, Err(found.error))
    else
      var p := found.value;
      if p.status != Active || now < p.startsAt || now >= p.endsAt then (keys, Err(NotActive))
      else if !ValidSelection(p, options) then (keys, Err(InvalidSelection))
      else
        var (after, answer) := Voted(keys, m, options, WholeSeconds(TTL(retention, maxTTL, p.endsAt, now)), now);
        (after, if answer == GateClosed then Err(NotActive) else Ok(answer))
  }

  /**
   * The answer to a vote and its effect, in terms of the definition and the stored keys of its bucket:
   * refused outside the window, for an invalid selection and by a gate that is not open; otherwise
   * recorded exactly when the device has no live marker.
   */
  lemma VoteExactly(p: Poll, keys: Keys, b: nat, device: string, options: seq<string>, retention: int, maxTTL: int, now: int,
                    after: Keys, r: Result<Answer>)
    requires VoteOutcome(Ok(p), keys, Marker(b, device), options, retention, maxTTL, now) == (after, r)
    ensures if !(p.status == Active && p.startsAt <= now < p.endsAt) then r == Err(NotActive) && after == keys
            else if !ValidSelection(p, options) then r == Err(InvalidSelection) && after == keys
            else if !(b in keys.gates && keys.gates[b].active && now < keys.gates[b].expires) then
              r == Err(NotActive) && after == keys
            else if Marker(b, device) in keys.markers && now < keys.markers[Marker(b, device)] then
              r == Ok(AlreadyRecorded) && after == keys
            else
              && r == Ok(Recorded)
              && Counted(keys, after, b, device, options, now + WholeSeconds(TTL(retention, maxTTL, p.endsAt, now)), now)
  {
    VotedExactly(keys, b, device, options, WholeSeconds(TTL(retention, maxTTL, p.endsAt, now)), now);
  }

  /** The same for the definition the service finds: the cached one while it is fresh, or the stored one if active. */
  lemma VoteFinds(cached: Option<Cached>, rows: map<string, PollRow>, id: string, keys: Keys, b: nat, device: string,
                  options: seq<string>, retention: int, maxTTL: int, now: int, after: Keys, r: Result<Answer>)
    requires var found := if cached.Some? && now < cached.value.expires then Ok(cached.value.poll) else LoadedForVote(rows, id);
             VoteOutcome(found, keys, Marker(b, device), options, retention, maxTTL, now) == (after, r)
    ensures !(cached.Some? && now < cached.value.expires) ==>
              && (id !in rows ==> r == Err(NotFound) && after == keys)
              && (id in rows && rows[id].poll.status != Active ==> r == Err(NotActive) && after == keys)
    ensures var served := cached.Some? && now < cached.value.expires;
            served || (id in rows && rows[id].poll.status == Active) ==>
              var p := if served then cached.value.poll else rows[id].poll;
              if !(p.status == Active && p.startsAt <= now < p.endsAt) then r == Err(NotActive) && after == keys
              else if !ValidSelection(p, options) then r == Err(InvalidSelection) && after == keys
              else if !(b in keys.gates && keys.gates[b].active && now < keys.gates[b].expires) then
                r == Err(NotActive) && after == keys
              else if Marker(b, device) in keys.markers && now < keys.markers[Marker(b, device)] then
                r == Ok(AlreadyRecorded) && after == keys
              else r == Ok(Recorded)
    ensures var endsAt := if cached.Some? && now < cached.value.expires then cached.value.poll.endsAt
                          else if id in rows then rows[id].poll.endsAt else 0;
            r == Ok(Recorded) ==>
              Counted(keys, after, b, device, options, now + WholeSeconds(TTL(retention, maxTTL, endsAt, now)), now)
  {
    var found := if cached.Some? && now < cached.value.expires then Ok(cached.value.poll) else LoadedForVote(rows, id);
    if found.Ok? {
      VoteExactly(found.value, keys, b, device, options, retention, maxTTL, now, after, r);
    }
  }

  class VoteService {
    const repo: Repository
    const store: Store
    const cache: Cache

    constructor (repo: Repository, store: Store, cache: Cache)
      ensures this.repo == repo && this.store == store && this.cache == cache
    {
      this.repo := repo;
      this.store := store;
      this.cache := cache;
    }

    /** The cached definition, or a fresh one if the poll is active. */
    method Definition(id: string, now: int) returns (found: Result<Poll>)
      requires cache.Valid()
      modifies cache, cache.entries.Values
      ensures cache.Valid() && (forall other | other != id :: cache.ValueOf(other) == old(cache.ValueOf(other)))
      ensures var cached := old(cache.ValueOf(id));
              if cached.Some? && now < cached.value.expires then
                found == Ok(cached.value.poll) && cache.ValueOf(id) == cached
              else
                && found == LoadedForVote(repo.rows, id)
                && cache.ValueOf(id) == if found.Ok? then Some(Cached(found.value, now + cache.ttl)) else cached
    {
      var loaded := repo.GetByID(id);
      if loaded.Ok? && loaded.value.status != Active {
        loaded := Err(NotActive);
      }
      var asked;
      found, asked := cache.Get(id, loaded, now, now);
    }

    /** The checks on the definition, then the atomic record. */
    method Cast(p: Poll, device: string, options: seq<string>, now: int) returns (r: Result<Answer>)
      requires store.buckets > 0
      modifies store`polls
      ensures VoteOutcome(Ok(p), old(store.KeysOf(p.id)), store.MarkerOf(device), options, store.retention, store.maxTTL, now)
                == (store.KeysOf(p.id), r)
      ensures forall other | other != p.id :: store.KeysOf(other) == old(store.KeysOf(other))
    {
      if p.status != Active || now < p.startsAt || now >= p.endsAt {
        return Err(NotActive);
      }
      var valid := ValidateSelection(p, options);
      if !valid {
        return Err(InvalidSelection);
      }
      r := store.Record(p.id, device, options, p.endsAt, now);
    }

    /** `device` is the poll-scoped hash of the device cookie. */
    method Vote(id: string, device: string, options: seq<string>, now: int) returns (r: Result<Answer>)
      requires cache.Valid() && store.buckets > 0
      requires id in repo.rows ==> repo.rows[id].poll.id == id
      requires cache.ValueOf(id).Some? ==> cache.ValueOf(id).value.poll.id == id
      modifies store`polls, cache, cache.entries.Values
      // VoteFinds says what this answer and these keys are.
      ensures var cached := old(cache.ValueOf(id));
              var found := if cached.Some? && now < cached.value.expires then Ok(cached.value.poll) else LoadedForVote(repo.rows, id);
              VoteOutcome(found, old(store.KeysOf(id)), store.MarkerOf(device), options, store.retention, store.maxTTL, now)
                == (store.KeysOf(id), r)
      ensures forall other | other != id :: store.KeysOf(other) == old(store.KeysOf(other))
      ensures cache.Valid() && (forall other | other != id :: cache.ValueOf(other) == old(cache.ValueOf(other)))
      ensures var cached := old(cache.ValueOf(id));
              cache.ValueOf(id) ==
                if !(cached.Some? && now < cached.value.expires) && id in repo.rows && repo.rows[id].poll.status == Active
                then Some(Cached(repo.rows[id].poll, now + cache.ttl)) else cached
    {
      var found := Definition(id, now);
      if found.Err? {
        return Err(found.error);
      }
      r := Cast(found.value, device, options, now);
    }
  }

  lemma RecordedChangesKeys(keys: Keys, m: Marker, options: seq<string>, ttl: int, now: int)
    requires ttl > 0
    ensures Voted(keys, m, options, ttl, now).1 == Recorded <==> Voted(keys, m, options, ttl, now).0 != keys
  {
    var (after, answer) := Voted(keys, m, options, ttl, now);
    if answer == Recorded {
      assert Marked(after, m, now) && !Marked(keys, m, now);
    }
  }

  /**
   * A vote through a stale cache entry changes Redis exactly as a fresh load would, in every state
   * where the gate of its bucket is open only while the poll is active; and not otherwise: an
   * admissible first vote through an open gate of a poll that is not active is the one exception.
   */
  lemma StaleCacheIsHarmless(cached: Poll, current: Poll, keys: Keys, m: Marker, options: seq<string>, retention: int, maxTTL: int, now: int)
    requires SameDefinition(cached, current) && cached.status == Active && maxTTL > 0
    ensures var loaded := if current.status == Active then Ok(current) else Err(NotActive);
            var admissible := current.startsAt <= now < current.endsAt && ValidSelection(current, options);
            VoteOutcome(Ok(cached), keys, m, options, retention, maxTTL, now).0
              == VoteOutcome(loaded, keys, m, options, retention, maxTTL, now).0
            <==>
            (Open(keys, m.bucket, now) && !Marked(keys, m, now) && admissible ==> current.status == Active)
  {
    var ttl := WholeSeconds(TTL(retention, maxTTL, cached.endsAt, now));
    RecordedChangesKeys(keys, m, options, ttl, now);
    assert ValidSelection(cached, options) == ValidSelection(current, options);
  }

  /**
   * So, without overlapping Publish and Close, no stale entry lets a vote into a closed poll; `warm`
   * says that the live processes can have one.
   */
  lemma StaleVoteAfterClose(c: Protocol.Config, states: seq<Protocol.State>, labels: seq<Protocol.Label>, i: nat,
                            cached: Poll, device: string, options: seq<string>)
    requires SerialRun(c, states, labels) && i < |states| && states[i].row.poll.status == Closed && states[i].warm
    ensures states[i].n > 0
    ensures var s := states[i];
            VoteOutcome(Ok(cached), s.keys, c.MarkerOf(device, s.n), options, c.retention, c.maxTTL, s.now).0 == s.keys
  {
    Untorn.BaseOfRun(c, states, labels, i);
    ClosedAndShut(c, states, labels, i, c.MarkerOf(device, states[i].n).bucket);
  }
}
