/**
 * The voting protocol of one poll as a state machine. Requests run concurrently: each is a process
 * with its own program counter, every Redis command, Lua script and PostgreSQL transaction is one
 * step, and any process may stop at any point. A restart ends all of them and may change the number
 * of buckets, as far as the startup check lets it.
 */
module Protocol {
  import opened Ballots
  import opened Counters
  import opened Domain
  import opened Expiry
  import opened PollRepository
  import opened VoteStore

  const LEASE := 4 * SECOND

  /** The poll as created, and the configuration that restarts do not change. */
  datatype Config = Config(poll: Poll, digest: string -> nat, retention: int, maxTTL: int) {
    predicate Valid() {
      WellFormed(poll) && poll.status == Draft && poll.publishedAt == None && retention > 0 && maxTTL > 0
    }

    function Ids(): seq<string> {
      OptionIds(poll.options)
    }

    function Life(now: int): int {
      TTL(retention, maxTTL, poll.endsAt, now)
    }

    function MarkerOf(device: string, n: nat): Marker
      requires n > 0
    {
      Marker(Bucket(digest, device, n), device)
    }
  }

  /** Who reads the totals: Close, the snapshot worker (with the time it took its lock), or Results. */
  datatype Role = Closing | Snapshotting(acquired: int) | Viewing

  /**
   * A reader keeps as history how many ballots had been recorded when it read each bucket, and in
   * which buckets counts were missing by then.
   */
  datatype Proc =
    | Voter(device: string, options: seq<string>, checkedAt: int)
    | Committed(stamp: int)
    | Publisher(stamp: int, mine: bool, next: nat)
    | Undoing
    | Closer(next: nat)
    | Reader(role: Role, hashes: seq<Fields>, marks: seq<nat>, missed: set<nat>)
    | Holder(role: Role, totals: Totals, marks: seq<nat>, missed: set<nat>)
    | Releasing(acquired: int)

  datatype Lock = Lock(token: nat, expires: int)

  /**
   * `n` is the bucket count of the live processes, and `warm` tells whether they have seen the poll
   * active, so that their cache may hold its definition. History: `log` has the ballots answered
   * `recorded`, `lost` the buckets whose counters started afresh after their hash had expired,
   * `stored` the process whose totals the result rows hold, `authors` who used which publication
   * stamp, and `author` who made the last transition from draft to active.
   */
  datatype State = State(
    now: int,
    n: nat,
    warm: bool,
    keys: Keys,
    row: PollRow,
    lock: Option<Lock>,
    procs: map<nat, Proc>,
    nextPid: nat,
    log: Log,
    lost: set<nat>,
    stored: Option<Proc>,
    authors: map<int, nat>,
    author: nat)

  datatype Label =
    | Tick(d: nat)
    | CheckVote(device: string, options: seq<string>)
    | Record(pid: nat, computed: int)
    | Publish(stamp: int)
    | ReadBack(pid: nat)
    | OpenGate(pid: nat, computed: int)
    | Revert(pid: nat)
    | DropGates(pid: nat)
    | BeginClose
    | CloseGate(pid: nat, computed: int)
    | BeginTotals(pid: nat)
    | BeginSnapshot
    | BeginResults
    | Read(pid: nat)
    | Stamp(pid: nat)
    | Save(pid: nat)
    | Release(pid: nat)
    | Crash(pid: nat)
    | Restart(count: nat)

  predicate Init(c: Config, s: State) {
    && c.Valid()
    && s.n > 0 && !s.warm
    && s.keys == NO_KEYS && s.row.poll == c.poll && Empty(s.row) && s.lock == None
    && s.procs == map[] && s.log == [] && s.lost == {} && s.stored == None && s.authors == map[]
  }

  // ----- Which steps are possible -----

  predicate HoldsLock(p: Proc) {
    p.Releasing? || ((p.Reader? || p.Holder?) && p.role.Snapshotting?)
  }

  function Acquired(p: Proc): int
    requires HoldsLock(p)
  {
    if p.Releasing? then p.acquired else p.role.acquired
  }

  predicate Enabled(c: Config, s: State, l: Label) {
    && s.n > 0
    && match l
       case Tick(_) => true
       // A cached definition lets a request through whatever the status is now: only the window,
       // the selection rules and the gate stand in its way.
       case CheckVote(device, options) =>
         s.warm && c.poll.startsAt <= s.now < c.poll.endsAt && ValidSelection(c.poll, options)
       case Record(pid, computed) =>
         pid in s.procs && s.procs[pid].Voter? && s.procs[pid].checkedAt <= computed <= s.now
       case Publish(_) => true
       case ReadBack(pid) => pid in s.procs && s.procs[pid].Committed?
       case OpenGate(pid, computed) =>
         pid in s.procs && s.procs[pid].Publisher? && s.procs[pid].next < s.n && computed <= s.now
       case Revert(pid) => pid in s.procs && s.procs[pid].Publisher? && s.procs[pid].mine
       case DropGates(pid) => pid in s.procs && s.procs[pid].Undoing?
       case BeginClose => true
       case CloseGate(pid, computed) =>
         pid in s.procs && s.procs[pid].Closer? && s.procs[pid].next < s.n && computed <= s.now
       case BeginTotals(pid) => pid in s.procs && s.procs[pid].Closer? && s.procs[pid].next == s.n
       case BeginSnapshot => true
       case BeginResults => true
       case Read(pid) => pid in s.procs && s.procs[pid].Reader? && |s.procs[pid].hashes| < s.n
       case Stamp(pid) =>
         && pid in s.procs && s.procs[pid].Reader? && |s.procs[pid].hashes| == s.n
         && SumsFit(s.procs[pid].hashes, c.Ids())
       case Save(pid) => pid in s.procs && s.procs[pid].Holder? && !s.procs[pid].role.Viewing?
       case Release(pid) => pid in s.procs && HoldsLock(s.procs[pid])
       case Crash(pid) => pid in s.procs
       // The startup check: an active poll must have this bucket count.
       case Restart(count) => count > 0 && (s.row.poll.status == Active ==> s.row.buckets == count)
  }

  // ----- What each step does -----

  function Spawned(s: State, p: Proc): State {
    s.(procs := s.procs[s.nextPid := p], nextPid := s.nextPid + 1)
  }

  function Moved(s: State, pid: nat, p: Proc): State {
    s.(procs := s.procs[pid := p])
  }

  function Ended(s: State, pid: nat): State {
    s.(procs := s.procs - {pid})
  }

  function Apply(c: Config, s: State, l: Label): State
    requires Enabled(c, s, l)
  {
    match l
    case Tick(d) => s.(now := s.now + d)
    case CheckVote(device, options) => Spawned(s, Voter(device, options, s.now))
    case Record(pid, computed) => Ended(AfterRecord(c, s, s.procs[pid], computed), pid)
    case Publish(stamp) => AfterPublish(c, s, stamp)
    // The committed row is read again by a separate query.
    case ReadBack(pid) =>
      var stamp := s.procs[pid].stamp;
      Moved(s, pid, Publisher(stamp, s.row.poll.publishedAt == Some(stamp), 0))
    case OpenGate(pid, computed) =>
      var p := s.procs[pid];
      Moved(s.(keys := GateSet(s.keys, p.next, Gate(true, s.now + c.Life(computed)))), pid, p.(next := p.next + 1))
    case Revert(pid) =>
      (match RevertedRow(s.row, s.procs[pid].stamp, s.now)
       case Ok(row) => Moved(s.(row := row), pid, Undoing)
       case Err(_) => Ended(s, pid))
    case DropGates(pid) => Ended(s.(keys := GatesDeleted(s.keys, s.n)), pid)
    case BeginClose => if s.row.poll.status == Active then Spawned(s, Closer(0)) else s
    case CloseGate(pid, computed) =>
      var p := s.procs[pid];
      Moved(s.(keys := GateSet(s.keys, p.next, Gate(false, s.now + c.Life(computed)))), pid, p.(next := p.next + 1))
    case BeginTotals(pid) => Moved(s, pid, Reader(Closing, [], [], {}))
    case BeginSnapshot =>
      if s.lock.Some? && s.now < s.lock.value.expires then s
      else Spawned(s.(lock := Some(Lock(s.nextPid, s.now + LEASE))), Reader(Snapshotting(s.now), [], [], {}))
    case BeginResults => Spawned(s, Reader(Viewing, [], [], {}))
    case Read(pid) => Moved(s, pid, AfterRead(s, s.procs[pid]))
    case Stamp(pid) =>
      var p := s.procs[pid];
      Moved(s, pid, Holder(p.role, Sums(p.hashes, c.Ids(), s.now), p.marks, p.missed))
    case Save(pid) =>
      var p := s.procs[pid];
      var saved := AfterSave(c, s, p);
      if p.role.Closing? then Ended(saved, pid) else Moved(saved, pid, Releasing(p.role.acquired))
    case Release(pid) => Ended(s.(lock := LockAfterRelease(s.lock, pid)), pid)
    case Crash(pid) => Ended(s, pid)
    case Restart(count) => s.(n := count, warm := s.row.poll.status == Active, procs := map[])
  }

  /** The hash of bucket `b` exists no more, but has existed. */
  predicate Lapsed(keys: Keys, b: nat, now: int) {
    b in keys.hashes && keys.hashes[b].expires <= now
  }

  function AfterRecord(c: Config, s: State, p: Proc, computed: int): State
    requires s.n > 0 && p.Voter?
  {
    var m := c.MarkerOf(p.device, s.n);
    var (keys, answer) := Voted(s.keys, m, p.options, WholeSeconds(c.Life(computed)), s.now);
    if answer != Recorded then s
    else s.(keys := keys, log := s.log + [Ballot(p.device, p.options, m.bucket)],
            lost := if Lapsed(s.keys, m.bucket, s.now) then s.lost + {m.bucket} else s.lost)
  }

  function AfterPublish(c: Config, s: State, stamp: int): State {
    match PublishedRow(s.row, stamp, s.n)
    case Ok(row) =>
      Spawned(s.(row := row, warm := true, authors := s.authors[stamp := s.nextPid],
                 author := if s.row.poll.status == Draft then s.nextPid else s.author),
              Committed(stamp))
    case Err(_) => s
  }

  /** A reply for bucket `b` lacks ballots: of the present hash, or all of them. */
  predicate Missing(s: State, b: nat) {
    b in s.lost || Lapsed(s.keys, b, s.now)
  }

  function AfterRead(s: State, p: Proc): Proc
    requires p.Reader?
  {
    var b := |p.hashes|;
    Reader(p.role, p.hashes + [LiveFields(s.keys, b, s.now)], p.marks + [|s.log|],
           if Missing(s, b) then p.missed + {b} else p.missed)
  }

  function AfterSave(c: Config, s: State, p: Proc): State
    requires p.Holder?
  {
    match SavedRow(s.row, c.poll.options, p.totals, p.role.Closing?)
    case Ok(row) => s.(row := row, stored := if Takes(s.row, p.totals) then Some(p) else s.stored)
    case Err(_) => s
  }

  /** The token-checked delete. */
  function LockAfterRelease(lock: Option<Lock>, pid: nat): Option<Lock> {
    if lock.Some? && lock.value.token == pid then None else lock
  }

  // ----- Runs -----

  /** Step i leads from state i to state i + 1. */
  ghost predicate IsStep(c: Config, states: seq<State>, labels: seq<Label>, i: nat) {
    && i < |labels| && i + 1 < |states|
    && Enabled(c, states[i], labels[i]) && states[i + 1] == Apply(c, states[i], labels[i])
  }

  ghost predicate IsPath(c: Config, states: seq<State>, labels: seq<Label>) {
    |states| == |labels| + 1 && forall i: nat | i < |labels| :: IsStep(c, states, labels, i)
  }

  ghost predicate IsRun(c: Config, states: seq<State>, labels: seq<Label>) {
    IsPath(c, states, labels) && Init(c, states[0])
  }

  // ----- Environment assumptions, as conditions on single steps -----

  predicate IsPublishing(p: Proc) {
    p.Committed? || p.Publisher? || p.Undoing?
  }

  predicate IsClosing(p: Proc) {
    p.Closer? || ((p.Reader? || p.Holder?) && p.role.Closing?)
  }

  /** Publish and Close requests of the poll do not overlap. */
  ghost predicate Serial(s: State, l: Label) {
    && (l.Publish? ==> forall pid | pid in s.procs :: !IsClosing(s.procs[pid]))
    && (l.BeginClose? ==> forall pid | pid in s.procs :: !IsPublishing(s.procs[pid]))
  }

  /** No restart changes the bucket count of a draft that has ballots from an earlier publication. */
  predicate KeepsCount(s: State, l: Label) {
    l.Restart? && s.row.poll.status == Draft && s.log != [] ==> l.count == s.n
  }

  /** Every snapshot finishes or dies within its lease. */
  ghost predicate WithinLease(s: State, l: Label) {
    l.Tick? ==> forall pid | pid in s.procs && HoldsLock(s.procs[pid]) :: s.now + l.d < Acquired(s.procs[pid]) + LEASE
  }

  /** No two Publish requests carry the same time stamp. */
  predicate DistinctStamps(s: State, l: Label) {
    l.Publish? ==> l.stamp !in s.authors
  }
}
