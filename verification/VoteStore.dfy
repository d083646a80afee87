/** The Redis side: gates, dedup markers and counter hashes (internal/redisstore). */
module VoteStore {
  import opened Ballots
  import opened Counters
  import opened Domain
  import opened Expiry

  // ----- The keys of one poll -----

  datatype Gate = Gate(active: bool, expires: int)

  datatype Hash = Hash(fields: Fields, expires: int)

  datatype Marker = Marker(bucket: nat, device: string)

  /** A key is present until its expiry instant. */
  datatype Keys = Keys(gates: map<nat, Gate>, markers: map<Marker, int>, hashes: map<nat, Hash>)

  const NO_KEYS := Keys(map[], map[], map[])

  predicate Open(keys: Keys, b: nat, now: int) {
    b in keys.gates && keys.gates[b].active && now < keys.gates[b].expires
  }

  predicate Marked(keys: Keys, m: Marker, now: int) {
    m in keys.markers && now < keys.markers[m]
  }

  /** HGETALL */
  function LiveFields(keys: Keys, b: nat, now: int): Fields {
    if b in keys.hashes && now < keys.hashes[b].expires then keys.hashes[b].fields else map[]
  }

  /** HGETALL of every bucket at one moment. */
  function LiveHashes(keys: Keys, n: nat, now: int): (hashes: seq<Fields>)
    ensures |hashes| == n
    ensures forall b | 0 <= b < n :: hashes[b] == LiveFields(keys, b, now)
  {
    seq(n, b requires 0 <= b < n => LiveFields(keys, b, now))
  }

  function Incremented(fields: Fields, field: string): Fields {
    fields[field := Count(fields, field) + 1]
  }

  function IncrementedAll(fields: Fields, options: seq<string>): Fields {
    if |options| == 0 then fields
    else Incremented(IncrementedAll(fields, options[..|options| - 1]), options[|options| - 1])
  }

  function Credited(fields: Fields, options: seq<string>): Fields {
    IncrementedAll(Incremented(fields, PARTICIPANTS), options)
  }

  lemma {:induction false} CountOfIncremented(fields: Fields, options: seq<string>, field: string)
    ensures Count(IncrementedAll(fields, options), field) == Count(fields, field) + Occurrences(options, field)
  {
    if |options| > 0 {
      CountOfIncremented(fields, options[..|options| - 1], field);
    }
  }

  /** One script run adds the ballot's weight to every field. */
  lemma CountOfCredited(fields: Fields, options: seq<string>, field: string)
    ensures Count(Credited(fields, options), field) == Count(fields, field) + Weight(options, field)
  {
    CountOfIncremented(Incremented(fields, PARTICIPANTS), options, field);
  }

  datatype Answer = Recorded | AlreadyRecorded | GateClosed

  /** What scripts/vote.lua does to the keys, atomically at one instant. */
  function Voted(keys: Keys, m: Marker, options: seq<string>, ttl: int, now: int): (r: (Keys, Answer))
    ensures r.1 != Recorded ==> r.0 == keys
    ensures r.0.gates == keys.gates
  {
    if !Open(keys, m.bucket, now) then (keys, GateClosed)
    else if Marked(keys, m, now) then (keys, AlreadyRecorded)
    else
      var hash := Hash(Credited(LiveFields(keys, m.bucket, now), options), now + ttl);
      (keys.(markers := keys.markers[m := now + ttl], hashes := keys.hashes[m.bucket := hash]), Recorded)
  }

  /** The ballot is in: the marker is set, every counter of its bucket has grown by its weight, nothing else changed. */
  ghost predicate Counted(before: Keys, after: Keys, b: nat, device: string, options: seq<string>, expires: int, now: int) {
    && after.gates == before.gates
    && after.markers == before.markers[Marker(b, device) := expires]
    && after.hashes.Keys == before.hashes.Keys + {b} && after.hashes[b].expires == expires
    && (forall other | other in before.hashes && other != b :: after.hashes[other] == before.hashes[other])
    && forall f :: Count(after.hashes[b].fields, f)
                   == (if b in before.hashes && now < before.hashes[b].expires then Count(before.hashes[b].fields, f) else 0)
                      + (if f == PARTICIPANTS then 1 else 0) + multiset(options)[f]
  }

  lemma {:induction false} OccurrencesCount(options: seq<string>, f: string)
    ensures Occurrences(options, f) == multiset(options)[f]
  {
    if |options| > 0 {
      OccurrencesCount(options[..|options| - 1], f);
      assert options == options[..|options| - 1] + [options[|options| - 1]];
    }
  }

  /** What the script answers and does, in terms of the stored keys. */
  lemma VotedExactly(keys: Keys, b: nat, device: string, options: seq<string>, ttl: int, now: int)
    ensures var (after, answer) := Voted(keys, Marker(b, device), options, ttl, now);
            if !(b in keys.gates && keys.gates[b].active && now < keys.gates[b].expires) then
              answer == GateClosed && after == keys
            else if Marker(b, device) in keys.markers && now < keys.markers[Marker(b, device)] then
              answer == AlreadyRecorded && after == keys
            else
              answer == Recorded && Counted(keys, after, b, device, options, now + ttl, now)
  {
    forall f ensures Count(Credited(LiveFields(keys, b, now), options), f)
                  == Count(LiveFields(keys, b, now), f) + (if f == PARTICIPANTS then 1 else 0) + multiset(options)[f] {
      CountOfCredited(LiveFields(keys, b, now), options, f);
      OccurrencesCount(options, f);
    }
  }

  function GateSet(keys: Keys, b: nat, gate: Gate): Keys {
    keys.(gates := keys.gates[b := gate])
  }

  /** The gates after the first `k` commands of a pipeline that sets every gate. */
  function GatesSet(keys: Keys, k: nat, gate: Gate): Keys {
    if k == 0 then keys else GateSet(GatesSet(keys, k - 1, gate), k - 1, gate)
  }

  function GatesDeleted(keys: Keys, n: nat): Keys {
    keys.(gates := map b | b in keys.gates && b >= n :: keys.gates[b])
  }

  function Uniform(k: nat, gate: Gate): (gates: map<nat, Gate>)
    ensures forall b: nat :: b in gates <==> b < k
    ensures forall b | b in gates :: gates[b] == gate
  {
    if k == 0 then map[] else Uniform(k - 1, gate)[k - 1 := gate]
  }

  lemma {:induction false} GatesSetIs(keys: Keys, k: nat, gate: Gate)
    ensures GatesSet(keys, k, gate) == keys.(gates := keys.gates + Uniform(k, gate))
  {
    if k == 0 {
      assert keys.gates + Uniform(0, gate) == keys.gates;
    } else {
      GatesSetIs(keys, k - 1, gate);
      assert Uniform(k, gate) == Uniform(k - 1, gate)[k - 1 := gate];
      assert (keys.gates + Uniform(k - 1, gate))[k - 1 := gate] == keys.gates + Uniform(k, gate);
    }
  }

  lemma LiveHashesIgnoreGates(keys: Keys, k: nat, gate: Gate, n: nat, now: int)
    ensures LiveHashes(GatesSet(keys, k, gate), n, now) == LiveHashes(keys, n, now)
  {
    GatesSetIs(keys, k, gate);
  }

  /** Setting every gate erases whatever a partly executed earlier pipeline left behind. */
  lemma GatesSetOverwrites(keys: Keys, k: nat, n: nat, before: Gate, gate: Gate)
    requires k <= n
    ensures GatesSet(GatesSet(keys, k, before), n, gate) == GatesSet(keys, n, gate)
  {
    GatesSetIs(keys, k, before);
    GatesSetIs(GatesSet(keys, k, before), n, gate);
    GatesSetIs(keys, n, gate);
    assert keys.gates + Uniform(k, before) + Uniform(n, gate) == keys.gates + Uniform(n, gate);
  }

  // ----- The store -----

  /** How a pipeline or command fares on the network: what reaches Redis, and whether a reply returns. */
  datatype Link = Link(delivered: nat, replied: bool)

  /** The value and the expiry of a snapshot-lock key. */
  datatype LockKey = LockKey(token: string, expires: int)

  class Store {
    const buckets: nat
    const retention: int
    const maxTTL: int
    const digest: string -> nat
    var polls: map<string, Keys>
    var locks: map<string, LockKey>

    constructor (buckets: nat, retention: int, maxTTL: int, digest: string -> nat)
      requires buckets > 0
      ensures this.buckets == buckets && this.retention == retention
      ensures this.maxTTL == maxTTL && this.digest == digest
      ensures polls == map[] && locks == map[]
    {
      this.buckets := buckets;
      this.retention := retention;
      this.maxTTL := maxTTL;
      this.digest := digest;
      polls := map[];
      locks := map[];
    }

    function KeysOf(pollId: string): Keys
      reads this
    {
      if pollId in polls then polls[pollId] else NO_KEYS
    }

    function MarkerOf(device: string): Marker
      requires buckets > 0
    {
      Marker(Bucket(digest, device, buckets), device)
    }

    /** The Lua script, command by command. */
    method RunVoteScript(pollId: string, b: nat, device: string, ttl: int, options: seq<string>, now: int)
      returns (n: int)
      modifies this`polls
      ensures var (keys, answer) := Voted(old(KeysOf(pollId)), Marker(b, device), options, ttl, now);
              && n == (match answer case Recorded => 1 case AlreadyRecorded => 0 case GateClosed => -1)
              && polls == if answer == Recorded then old(polls)[pollId := keys] else old(polls)
    {
      if !Open(KeysOf(pollId), b, now) {
        return -1;
      }
      var m := Marker(b, device);
      if Marked(KeysOf(pollId), m, now) {
        return 0;
      }
      var keys := KeysOf(pollId);
      polls := polls[pollId := keys.(markers := keys.markers[m := now + ttl])];
      var fields := Incremented(LiveFields(KeysOf(pollId), b, now), PARTICIPANTS);
      for i := 0 to |options|
        invariant fields == IncrementedAll(Incremented(LiveFields(keys, b, now), PARTICIPANTS), options[..i])
      {
        assert options[..i + 1][..i] == options[..i];
        fields := Incremented(fields, options[i]);
      }
      assert options[..|options|] == options;
      var marked := KeysOf(pollId);
      polls := polls[pollId := marked.(hashes := marked.hashes[b := Hash(fields, now + ttl)])];
      return 1;
    }

    /** Casts one ballot: at most one is counted for a device while its marker lives. */
    method Record(pollId: string, device: string, options: seq<string>, endsAt: int, now: int)
      returns (r: Result<Answer>)
      requires buckets > 0
      modifies this`polls
      ensures var ttl := WholeSeconds(TTL(retention, maxTTL, endsAt, now));
              var (keys, answer) := Voted(old(KeysOf(pollId)), MarkerOf(device), options, ttl, now);
              && r == (if answer == GateClosed then Err(NotActive) else Ok(answer))
              && polls == if answer == Recorded then old(polls)[pollId := keys] else old(polls)
    {
      var b := Bucket(digest, device, buckets);
      var ttl := WholeSeconds(TTL(retention, maxTTL, endsAt, now));
      var n := RunVoteScript(pollId, b, device, ttl, options, now);
      match n
      case 1 => return Ok(Recorded);
      case 0 => return Ok(AlreadyRecorded);
      case _ => return Err(NotActive);
    }

    /** Sets the gates one command at a time; a broken link leaves the first ones set. */
    method SetGates(pollId: string, active: bool, endsAt: int, now: int, link: Link) returns (ok: bool)
      modifies this`polls
      ensures ok <==> link.delivered >= buckets && link.replied
      ensures var sent := if link.delivered < buckets then link.delivered else buckets;
              var gate := Gate(active, now + TTL(retention, maxTTL, endsAt, now));
              polls == old(polls)[pollId := GatesSet(old(KeysOf(pollId)), sent, gate)]
    {
      var gate := Gate(active, now + TTL(retention, maxTTL, endsAt, now));
      var b := 0;
      polls := polls[pollId := KeysOf(pollId)];
      while b < buckets && b < link.delivered
        invariant b <= buckets && b <= link.delivered
        invariant polls == old(polls)[pollId := GatesSet(old(KeysOf(pollId)), b, gate)]
      {
        polls := polls[pollId := GateSet(KeysOf(pollId), b, gate)];
        b := b + 1;
      }
      ok := b == buckets && link.replied;
    }

    method DeleteGates(pollId: string)
      modifies this`polls
      ensures polls == old(polls)[pollId := GatesDeleted(old(KeysOf(pollId)), buckets)]
    {
      var doomed: set<nat> := {};
      for b := 0 to buckets
        invariant forall k: nat :: k in doomed <==> k < b
      {
        doomed := doomed + {b};
      }
      var keys := KeysOf(pollId);
      assert GatesDeleted(keys, buckets).gates == keys.gates - doomed;
      polls := polls[pollId := keys.(gates := keys.gates - doomed)];
    }

    ghost function Hashes(pollId: string, now: int): (hashes: seq<Fields>)
      reads this
    {
      LiveHashes(KeysOf(pollId), buckets, now)
    }

    /** Reads every bucket and returns the exact sums, or fails when one is out of the int64 range. */
    method GetTotals(pollId: string, optionIds: seq<string>, now: int) returns (r: Result<Totals>)
      ensures r.Ok? <==> SumsFit(Hashes(pollId, now), optionIds)
      ensures r.Ok? <==>
                && (forall b, f | 0 <= b < buckets && f in LiveFields(KeysOf(pollId), b, now) ::
                      LiveFields(KeysOf(pollId), b, now)[f] <= MAX_INT64)
                && ColumnSum(Hashes(pollId, now), PARTICIPANTS) <= MAX_INT64
                && forall id | id in optionIds && id != PARTICIPANTS :: ColumnSum(Hashes(pollId, now), id) <= MAX_INT64
      ensures r.Ok? ==> r.value == Sums(Hashes(pollId, now), optionIds, now)
      ensures r.Err? ==> r.error == BadCounter
    {
      var replies: seq<Reply> := [];
      for b := 0 to buckets
        invariant |replies| == b
        invariant forall k | 0 <= k < b :: replies[k] == Rendered(LiveFields(KeysOf(pollId), k, now))
      {
        replies := replies + [Rendered(LiveFields(KeysOf(pollId), b, now))];
      }
      assert forall b | 0 <= b < buckets :: Hashes(pollId, now)[b] == LiveFields(KeysOf(pollId), b, now);
      assert replies == RenderedAll(Hashes(pollId, now));
      RenderingIsTransparent(Hashes(pollId, now), optionIds);
      SumsFitExactly(Hashes(pollId, now), optionIds);
      r := Collect(replies, optionIds, now);
    }

    predicate Locked(pollId: string, now: int)
      reads this
    {
      pollId in locks && now < locks[pollId].expires
    }

    /** SET NX PX */
    method AcquireSnapshotLock(pollId: string, token: string, ttl: int, now: int) returns (ok: bool)
      modifies this`locks
      ensures ok <==> !(pollId in old(locks) && now < old(locks)[pollId].expires)
      ensures locks == if ok then old(locks)[pollId := LockKey(token, now + ttl)] else old(locks)
    {
      if Locked(pollId, now) {
        return false;
      }
      locks := locks[pollId := LockKey(token, now + ttl)];
      return true;
    }

    /** Deletes the lock only if it still carries this token, so never another holder's. */
    method ReleaseSnapshotLock(pollId: string, token: string, now: int)
      modifies this`locks
      ensures locks == if pollId in old(locks) && now < old(locks)[pollId].expires && old(locks)[pollId].token == token
                       then old(locks) - {pollId} else old(locks)
    {
      if Locked(pollId, now) && locks[pollId].token == token {
        locks := locks - {pollId};
      }
    }
  }
}
