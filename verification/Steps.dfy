/** What one step of the protocol changes and what it leaves alone. */
module Steps {
  import opened Ballots
  import opened Counters
  import opened Domain
  import opened Expiry
  import opened PollRepository
  import opened Protocol
  import opened VoteStore

  // ----- Processes -----

  /** The step is one of process `pid`. */
  predicate IsStepOf(l: Label, pid: nat) {
    match l
    case Record(q, _) => q == pid
    case ReadBack(q) => q == pid
    case OpenGate(q, _) => q == pid
    case Revert(q) => q == pid
    case DropGates(q) => q == pid
    case CloseGate(q, _) => q == pid
    case BeginTotals(q) => q == pid
    case Read(q) => q == pid
    case Stamp(q) => q == pid
    case Save(q) => q == pid
    case Release(q) => q == pid
    case Crash(q) => q == pid
    case _ => false
  }

  /** What a step makes of the process that takes it, unless it ends. */
  function Successor(c: Config, s: State, l: Label): Option<Proc>
    requires Enabled(c, s, l)
  {
    match l
    case ReadBack(pid) =>
      Some(Publisher(s.procs[pid].stamp, s.row.poll.publishedAt == Some(s.procs[pid].stamp), 0))
    case OpenGate(pid, _) => Some(s.procs[pid].(next := s.procs[pid].next + 1))
    case CloseGate(pid, _) => Some(s.procs[pid].(next := s.procs[pid].next + 1))
    case Revert(pid) => if RevertedRow(s.row, s.procs[pid].stamp, s.now).Ok? then Some(Undoing) else None
    case BeginTotals(_) => Some(Reader(Closing, [], [], {}))
    case Read(pid) => Some(AfterRead(s, s.procs[pid]))
    case Stamp(pid) =>
      var p := s.procs[pid];
      Some(Holder(p.role, Sums(p.hashes, c.Ids(), s.now), p.marks, p.missed))
    case Save(pid) => if s.procs[pid].role.Closing? then None else Some(Releasing(s.procs[pid].role.acquired))
    case _ => None
  }

  /** The process a step starts, if any. */
  function Newcomer(s: State, l: Label): Option<Proc> {
    match l
    case CheckVote(device, options) => Some(Voter(device, options, s.now))
    case Publish(stamp) => if s.row.poll.status != Closed then Some(Committed(stamp)) else None
    case BeginClose => if s.row.poll.status == Active then Some(Closer(0)) else None
    case BeginSnapshot =>
      if s.lock.Some? && s.now < s.lock.value.expires then None else Some(Reader(Snapshotting(s.now), [], [], {}))
    case BeginResults => Some(Reader(Viewing, [], [], {}))
    case _ => None
  }

  /** Where process `p` comes from: it stood still, took the step, or has just started. */
  predicate Origin(c: Config, s: State, l: Label, pid: nat, p: Proc)
    requires Enabled(c, s, l)
  {
    if IsStepOf(l, pid) then pid in s.procs && Successor(c, s, l) == Some(p)
    else || (pid in s.procs && p == s.procs[pid] && !l.Restart?)
         || (pid == s.nextPid && Newcomer(s, l) == Some(p))
  }

  lemma OriginOfMover(c: Config, s: State, l: Label, pid: nat)
    requires Enabled(c, s, l) && IsStepOf(l, pid) && pid in Apply(c, s, l).procs
    ensures pid in s.procs && Successor(c, s, l) == Some(Apply(c, s, l).procs[pid])
  {
    match l
    case Revert(_) =>
    case Save(_) =>
    case _ =>
  }

  predicate Starts(l: Label) {
    l.CheckVote? || l.Publish? || l.BeginClose? || l.BeginSnapshot? || l.BeginResults?
  }

  lemma OriginOfNewcomer(c: Config, s: State, l: Label, pid: nat)
    requires Enabled(c, s, l) && Starts(l) && pid in Apply(c, s, l).procs
    ensures var p := Apply(c, s, l).procs[pid];
            if Newcomer(s, l).Some? && pid == s.nextPid then Newcomer(s, l) == Some(p) else pid in s.procs && p == s.procs[pid]
  {
    match l
    case CheckVote(_, _) =>
    case Publish(_) =>
    case BeginClose =>
    case BeginSnapshot =>
    case BeginResults =>
  }

  lemma OriginOfBystander(c: Config, s: State, l: Label, pid: nat)
    requires Enabled(c, s, l) && !Starts(l) && !IsStepOf(l, pid) && pid in Apply(c, s, l).procs
    ensures pid in s.procs && Apply(c, s, l).procs[pid] == s.procs[pid] && !l.Restart?
  {
    match l
    case Revert(_) =>
    case Save(_) =>
    case _ =>
  }

  lemma OriginOf(c: Config, s: State, l: Label, pid: nat)
    requires Enabled(c, s, l) && pid in Apply(c, s, l).procs
    ensures Origin(c, s, l, pid, Apply(c, s, l).procs[pid])
  {
    if IsStepOf(l, pid) {
      OriginOfMover(c, s, l, pid);
    } else if Starts(l) {
      OriginOfNewcomer(c, s, l, pid);
    } else {
      OriginOfBystander(c, s, l, pid);
    }
  }

  lemma PidStep(c: Config, s: State, l: Label)
    requires Enabled(c, s, l)
    ensures Apply(c, s, l).nextPid == s.nextPid + if Newcomer(s, l).Some? then 1 else 0
  {
    match l
    case Publish(_) =>
    case Revert(_) =>
    case Save(_) =>
    case _ =>
  }

  /** A process stays as it is until a step of its own, and never comes back. */
  lemma OthersStay(c: Config, s: State, l: Label, pid: nat)
    requires Enabled(c, s, l) && pid < s.nextPid
    ensures var after := Apply(c, s, l);
            && s.nextPid <= after.nextPid
            && (pid in after.procs ==> pid in s.procs && (after.procs[pid] == s.procs[pid] || IsStepOf(l, pid)))
  {
    PidStep(c, s, l);
    if pid in Apply(c, s, l).procs {
      OriginOf(c, s, l, pid);
    }
  }

  // ----- The ledger -----

  /** Ballots are only ever added, one at a time, by a vote that finds its gate open. */
  lemma LogStep(c: Config, s: State, l: Label)
    requires Enabled(c, s, l)
    ensures var after := Apply(c, s, l);
            if l.Record? && Votes(c, s, l).1 == Recorded
            then && Open(s.keys, c.MarkerOf(s.procs[l.pid].device, s.n).bucket, s.now)
                 && after.log == s.log + [NewBallot(c, s, l)] && after.keys == Votes(c, s, l).0
            else after.log == s.log && after.lost == s.lost
                 && after.keys.markers == s.keys.markers && after.keys.hashes == s.keys.hashes
  {
    match l
    case Publish(_) =>
    case Revert(_) =>
    case Save(_) =>
    case _ =>
  }

  /** The script run of a Record step: the keys after it, and the answer. */
  function Votes(c: Config, s: State, l: Label): (Keys, Answer)
    requires Enabled(c, s, l) && l.Record?
  {
    var p := s.procs[l.pid];
    Voted(s.keys, c.MarkerOf(p.device, s.n), p.options, WholeSeconds(c.Life(l.computed)), s.now)
  }

  function NewBallot(c: Config, s: State, l: Label): Ballot
    requires Enabled(c, s, l) && l.Record?
  {
    var p := s.procs[l.pid];
    Ballot(p.device, p.options, c.MarkerOf(p.device, s.n).bucket)
  }

  lemma {:induction false} LogGrows(c: Config, states: seq<State>, labels: seq<Label>, i: nat, j: nat)
    requires IsPath(c, states, labels) && i <= j < |states|
    ensures states[i].log <= states[j].log && states[i].now <= states[j].now
    decreases j - i
  {
    if i < j {
      assert IsStep(c, states, labels, i);
      GrowthStep(c, states[i], labels[i]);
      LogGrows(c, states, labels, i + 1, j);
    }
  }

  lemma GrowthStep(c: Config, s: State, l: Label)
    requires Enabled(c, s, l)
    ensures s.log <= Apply(c, s, l).log && s.now <= Apply(c, s, l).now
  {
    match l
    case Publish(_) =>
    case Revert(_) =>
    case Save(_) =>
    case _ =>
  }

  lemma CountStep(c: Config, s: State, l: Label)
    requires Enabled(c, s, l)
    ensures Apply(c, s, l).n == if l.Restart? then l.count else s.n
  {
    match l
    case Publish(_) =>
    case Revert(_) =>
    case Save(_) =>
    case _ =>
  }
}
