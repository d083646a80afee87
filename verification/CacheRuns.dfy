/**
 * The same cache under concurrent callers. Finding the entry holds the map's mutex for one step;
 * serving, loading and storing hold the entry's mutex from Lock to the step that ends the call.
 */
module CacheRuns {
  import opened Domain

  /** An entry object: the id it was created for, and who holds its mutex. */
  datatype Cell = Cell(id: string, loaded: bool, poll: Option<Poll>, expires: int, holder: Option<nat>)

  datatype Call =
    | GetWaiting(id: string, cell: nat)
    | GetLocked(id: string, cell: nat)
    | Loading(id: string, cell: nat)
    | PutWaiting(poll: Poll, cell: nat)
    | PutLocked(poll: Poll, cell: nat)

  /** History: what was stored, in which entry and when. */
  datatype Stored = Stored(id: string, cell: nat, poll: Poll, at: int)

  datatype State = State(
    now: int,
    ttl: int,
    index: map<string, nat>,
    cells: seq<Cell>,
    calls: map<nat, Call>,
    nextCall: nat,
    stores: seq<Stored>)

  datatype Label =
    | Tick(d: nat)
    | BeginGet(id: string)
    | BeginPut(poll: Poll)
    | Delete(id: string)
    | Lock(call: nat)
    | Hit(call: nat)
    | Miss(call: nat)
    | Loaded(call: nat, poll: Poll)
    | LoadFailed(call: nat)
    | Store(call: nat)

  predicate Init(s: State) {
    s.index == map[] && s.cells == [] && s.calls == map[] && s.stores == [] && s.ttl > 0
  }

  predicate Serves(cell: Cell, now: int) {
    cell.loaded && now < cell.expires
  }

  predicate Enabled(s: State, l: Label) {
    match l
    case Tick(_) => true
    case BeginGet(_) => true
    case BeginPut(_) => true
    case Delete(_) => true
    case Lock(k) =>
      && k in s.calls && (s.calls[k].GetWaiting? || s.calls[k].PutWaiting?)
      && s.calls[k].cell < |s.cells| && s.cells[s.calls[k].cell].holder == None
    case Hit(k) =>
      && k in s.calls && s.calls[k].GetLocked? && s.calls[k].cell < |s.cells| && Serves(s.cells[s.calls[k].cell], s.now)
      && s.cells[s.calls[k].cell].poll.Some?
    case Miss(k) =>
      k in s.calls && s.calls[k].GetLocked? && s.calls[k].cell < |s.cells| && !Serves(s.cells[s.calls[k].cell], s.now)
    case Loaded(k, _) => k in s.calls && s.calls[k].Loading? && s.calls[k].cell < |s.cells|
    case LoadFailed(k) => k in s.calls && s.calls[k].Loading? && s.calls[k].cell < |s.cells|
    case Store(k) => k in s.calls && s.calls[k].PutLocked? && s.calls[k].cell < |s.cells|
  }

  /** Finds or creates the entry of an id, under the map's mutex. */
  function Located(s: State, id: string): (State, nat) {
    if id in s.index then (s, s.index[id])
    else (s.(index := s.index[id := |s.cells|], cells := s.cells + [Cell(id, false, None, 0, None)]), |s.cells|)
  }

  function Called(s: State, call: Call): State {
    s.(calls := s.calls[s.nextCall := call], nextCall := s.nextCall + 1)
  }

  function Unlocked(s: State, k: nat): State
    requires k in s.calls && s.calls[k].cell < |s.cells|
  {
    var i := s.calls[k].cell;
    s.(calls := s.calls - {k}, cells := s.cells[i := s.cells[i].(holder := None)])
  }

  function StoredIn(s: State, k: nat, poll: Poll): State
    requires k in s.calls && s.calls[k].cell < |s.cells|
  {
    var i := s.calls[k].cell;
    var cell := s.cells[i].(loaded := true, poll := Some(poll), expires := s.now + s.ttl);
    Unlocked(s.(cells := s.cells[i := cell], stores := s.stores + [Stored(s.cells[i].id, i, poll, s.now)]), k)
  }

  function Apply(s: State, l: Label): State
    requires Enabled(s, l)
  {
    match l
    case Tick(d) => s.(now := s.now + d)
    case BeginGet(id) =>
      var (t, i) := Located(s, id);
      Called(t, GetWaiting(id, i))
    case BeginPut(poll) =>
      var (t, i) := Located(s, poll.id);
      Called(t, PutWaiting(poll, i))
    case Delete(id) => s.(index := s.index - {id})
    case Lock(k) =>
      var call := s.calls[k];
      var locked := if call.GetWaiting? then GetLocked(call.id, call.cell) else PutLocked(call.poll, call.cell);
      s.(calls := s.calls[k := locked], cells := s.cells[call.cell := s.cells[call.cell].(holder := Some(k))])
    case Hit(k) => Unlocked(s, k)
    case Miss(k) =>
      var call := s.calls[k];
      s.(calls := s.calls[k := Loading(call.id, call.cell)])
    case Loaded(k, poll) => StoredIn(s, k, poll)
    case LoadFailed(k) => Unlocked(s, k)
    case Store(k) => StoredIn(s, k, s.calls[k].poll)
  }

  ghost predicate IsRun(states: seq<State>, labels: seq<Label>) {
    && |states| == |labels| + 1
    && Init(states[0])
    && forall i | 0 <= i < |labels| :: Enabled(states[i], labels[i]) && states[i + 1] == Apply(states[i], labels[i])
  }

  // ----- Invariant -----

  predicate HoldsMutex(call: Call) {
    call.GetLocked? || call.Loading? || call.PutLocked?
  }

  predicate CallOk(s: State, k: nat, call: Call) {
    && k < s.nextCall
    && call.cell < |s.cells|
    && (HoldsMutex(call) ==> s.cells[call.cell].holder == Some(k))
    && (if call.PutWaiting? || call.PutLocked? then s.cells[call.cell].id == call.poll.id
        else s.cells[call.cell].id == call.id)
  }

  /** A loaded entry holds the value of its latest store, and expires ttl after it. */
  predicate CellOk(s: State, i: nat)
    requires i < |s.cells|
  {
    s.cells[i].loaded ==>
      exists j :: 0 <= j < |s.stores| && StoreFits(s, i, j)
  }

  predicate StoreFits(s: State, i: nat, j: nat)
    requires i < |s.cells| && j < |s.stores|
  {
    && s.stores[j].cell == i && s.stores[j].id == s.cells[i].id
    && s.cells[i].poll == Some(s.stores[j].poll) && s.cells[i].expires == s.stores[j].at + s.ttl
    && s.stores[j].at <= s.now
  }

  ghost predicate Good(s: State) {
    && (forall k | k in s.calls :: CallOk(s, k, s.calls[k]))
    && (forall i: nat | i < |s.cells| :: CellOk(s, i))
    && (forall i: nat | i < |s.cells| && s.cells[i].holder.Some? ::
          var k := s.cells[i].holder.value; k in s.calls && s.calls[k].cell == i && HoldsMutex(s.calls[k]))
    && (forall id | id in s.index :: s.index[id] < |s.cells| && s.cells[s.index[id]].id == id)
    && (forall j | 0 <= j < |s.stores| :: s.stores[j].cell < |s.cells|)
  }

  lemma CellStays(s: State, t: State, i: nat)
    requires i < |s.cells| && i < |t.cells| && CellOk(s, i)
    requires t.cells[i].(holder := None) == s.cells[i].(holder := None)
    requires s.stores <= t.stores && t.ttl == s.ttl && s.now <= t.now
    ensures CellOk(t, i)
  {
    if s.cells[i].loaded {
      var j :| 0 <= j < |s.stores| && StoreFits(s, i, j);
      assert StoreFits(t, i, j);
    }
  }

  lemma GoodOfBegin(s: State, l: Label)
    requires Good(s) && Enabled(s, l) && (l.BeginGet? || l.BeginPut?)
    ensures Good(Apply(s, l))
  {
    var t := Apply(s, l);
    forall i: nat | i < |t.cells| ensures CellOk(t, i) {
      if i < |s.cells| {
        CellStays(s, t, i);
      }
    }
    forall k | k in t.calls ensures CallOk(t, k, t.calls[k]) {
      if k in s.calls {
        assert CallOk(s, k, s.calls[k]);
      }
    }
    match l
    case BeginGet(_) =>
    case BeginPut(_) =>
  }

  lemma GoodOfStore(s: State, l: Label)
    requires Good(s) && Enabled(s, l) && (l.Loaded? || l.Store?)
    ensures Good(Apply(s, l))
  {
    var t := Apply(s, l);
    assert CallOk(s, l.call, s.calls[l.call]);
    forall i: nat | i < |t.cells| ensures CellOk(t, i) {
      if i == s.calls[l.call].cell {
        assert StoreFits(t, i, |s.stores|);
      } else {
        CellStays(s, t, i);
      }
    }
    forall k | k in t.calls ensures CallOk(t, k, t.calls[k]) {
      assert CallOk(s, k, s.calls[k]);
    }
  }

  lemma GoodOfOther(s: State, l: Label)
    requires Good(s) && Enabled(s, l) && !l.Loaded? && !l.Store? && !l.BeginGet? && !l.BeginPut?
    ensures Good(Apply(s, l))
  {
    var t := Apply(s, l);
    forall i: nat | i < |t.cells| ensures CellOk(t, i) {
      CellStays(s, t, i);
    }
    forall k | k in t.calls ensures CallOk(t, k, t.calls[k]) {
      assert CallOk(s, k, s.calls[k]);
    }
    match l
    case Hit(k) => assert CallOk(s, k, s.calls[k]);
    case LoadFailed(k) => assert CallOk(s, k, s.calls[k]);
    case _ =>
  }

  lemma {:induction false} GoodOfRun(states: seq<State>, labels: seq<Label>, i: nat)
    requires IsRun(states, labels) && i < |states|
    ensures Good(states[i])
  {
    if i > 0 {
      GoodOfRun(states, labels, i - 1);
      var s, l := states[i - 1], labels[i - 1];
      if l.BeginGet? || l.BeginPut? {
        GoodOfBegin(s, l);
      } else if l.Loaded? || l.Store? {
        GoodOfStore(s, l);
      } else {
        GoodOfOther(s, l);
      }
    }
  }

  // ----- Main results -----

  /** At most one load runs per entry; a second caller of the same entry waits for the first. */
  lemma OneLoadPerEntry(states: seq<State>, labels: seq<Label>, i: nat, p: nat, q: nat)
    requires IsRun(states, labels) && i < |states|
    requires p in states[i].calls && states[i].calls[p].Loading?
    requires q in states[i].calls && HoldsMutex(states[i].calls[q])
    requires states[i].calls[p].cell == states[i].calls[q].cell
    ensures p == q
  {
    GoodOfRun(states, labels, i);
    assert CallOk(states[i], p, states[i].calls[p]) && CallOk(states[i], q, states[i].calls[q]);
  }

  /**
   * A Get that does not load returns a value that was stored for its id less than ttl ago, whatever
   * loads, stores and deletions interleave.
   */
  lemma HitReturnsFreshValue(states: seq<State>, labels: seq<Label>, i: nat)
    requires IsRun(states, labels) && i < |labels| && labels[i].Hit?
    ensures var s := states[i];
            var call := s.calls[labels[i].call];
            exists j :: 0 <= j < |s.stores|
                        && s.stores[j].id == call.id && s.stores[j].cell == call.cell && Some(s.stores[j].poll) == s.cells[call.cell].poll
                        && s.now - s.ttl < s.stores[j].at <= s.now
  {
    GoodOfRun(states, labels, i);
    var s := states[i];
    var call := s.calls[labels[i].call];
    assert CallOk(s, labels[i].call, call);
    assert CellOk(s, call.cell);
    var j :| 0 <= j < |s.stores| && StoreFits(s, call.cell, j);
    assert s.stores[j].id == call.id;
  }

  lemma EntryStep(s: State, l: Label, cell: nat)
    requires Enabled(s, l) && cell < |s.cells|
    ensures var t := Apply(s, l);
            && cell < |t.cells|
            && (t.stores == s.stores || ((l.Loaded? || l.Store?) && |t.stores| == |s.stores| + 1 && s.stores <= t.stores))
            && (t.cells[cell].(holder := None) != s.cells[cell].(holder := None) ==>
                  (l.Loaded? || l.Store?) && t.stores[|s.stores|].cell == cell)
  {
  }

  /**
   * An entry keeps its value and its expiry over any stretch of a run in which no successful load
   * and no Put stored into it, however many loads fail on it and however often its id is deleted,
   * looked up or created again.
   */
  lemma {:induction false} OnlyStoresChangeEntries(states: seq<State>, labels: seq<Label>, i: nat, j: nat, cell: nat)
    requires IsRun(states, labels) && i <= j < |states| && cell < |states[i].cells|
    requires forall m | |states[i].stores| <= m < |states[j].stores| :: states[j].stores[m].cell != cell
    ensures states[i].stores <= states[j].stores
    ensures cell < |states[j].cells| && states[j].cells[cell].(holder := None) == states[i].cells[cell].(holder := None)
    decreases j - i
  {
    if i < j {
      EntryStep(states[i], labels[i], cell);
      OldStoresOldCells(states, labels, i, j);
      OldStoresOldCells(states, labels, i + 1, j);
      OnlyStoresChangeEntries(states, labels, i + 1, j, cell);
    }
  }

  /** An entry that has left the map never comes back, even when a load on it finishes afterwards. */
  lemma {:induction false} DeletedEntryNeverReturns(states: seq<State>, labels: seq<Label>, i: nat, j: nat, cell: nat)
    requires IsRun(states, labels) && i <= j < |states|
    requires cell < |states[i].cells| && cell !in states[i].index.Values
    ensures cell < |states[j].cells| && cell !in states[j].index.Values
    decreases j
  {
    if i < j {
      DeletedEntryNeverReturns(states, labels, i, j - 1, cell);
      var s, t := states[j - 1], states[j];
      forall id | id in t.index ensures t.index[id] != cell {
        if id in s.index && t.index[id] == s.index[id] {
          assert s.index[id] in s.index.Values;
        }
      }
    }
  }

  /** Stores recorded before the first `m` steps went into entries that exist by then. */
  lemma {:induction false} OldStoresOldCells(states: seq<State>, labels: seq<Label>, i: nat, j: nat)
    requires IsRun(states, labels) && i <= j < |states|
    ensures states[i].stores <= states[j].stores && |states[i].cells| <= |states[j].cells|
    decreases j
  {
    if i < j {
      OldStoresOldCells(states, labels, i, j - 1);
    }
  }

  /**
   * After a Delete of an id, a Get that begins later never serves a value stored before the Delete:
   * every store its entry has ever seen came after it.
   */
  lemma GetAfterDeleteIsNew(states: seq<State>, labels: seq<Label>, d: nat, g: nat, j: nat)
    requires IsRun(states, labels) && d < g < |labels|
    requires labels[d].Delete? && labels[g] == BeginGet(labels[d].id)
    requires j < |states[d].stores|
    ensures var call := states[g + 1].calls[states[g].nextCall];
            call.GetWaiting? && states[d].stores[j].cell != call.cell
  {
    GoodOfRun(states, labels, d);
    GoodOfRun(states, labels, g);
    OldStoresOldCells(states, labels, d, g);
    var id, cell := labels[d].id, states[d].stores[j].cell;
    CellIdStays(states, labels, d, g, cell);
    if states[d].cells[cell].id == id {
      NotIndexedOnceDeleted(states[d], id, cell);
      DeletedEntryNeverReturns(states, labels, d + 1, g, cell);
      assert id in states[g].index ==> states[g].index[id] in states[g].index.Values;
    }
  }

  lemma NotIndexedOnceDeleted(s: State, id: string, cell: nat)
    requires Good(s) && cell < |s.cells| && s.cells[cell].id == id
    ensures cell !in (s.index - {id}).Values
  {
  }

  lemma {:induction false} CellIdStays(states: seq<State>, labels: seq<Label>, i: nat, j: nat, cell: nat)
    requires IsRun(states, labels) && i <= j < |states| && cell < |states[i].cells|
    ensures cell < |states[j].cells| && states[j].cells[cell].id == states[i].cells[cell].id
    decreases j
  {
    if i < j {
      CellIdStays(states, labels, i, j - 1, cell);
    }
  }
}
