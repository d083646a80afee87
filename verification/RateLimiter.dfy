/** The per-network vote limiter (internal/redisstore/votes.go, AllowRate). */
module RateLimiter {
  import opened Expiry

  const WINDOW := 60 * SECOND
  const LIFETIME := 65 * SECOND

  /** The largest delay between computing the window and the script run. */
  const SLACK := 5 * SECOND

  function Window(at: nat): nat {
    at / WINDOW
  }

  datatype Key = Key(network: string, window: nat)

  datatype Counter = Counter(n: nat, expires: int)

  /** One call: the clock when the window was computed, and when the script ran. */
  datatype Call = Call(network: string, at: nat, arrived: int)

  function KeyOf(call: Call): Key {
    Key(call.network, Window(call.at))
  }

  /** INCR, EXPIRE on the first increment. */
  function Incremented(counters: map<Key, Counter>, key: Key, now: int): map<Key, Counter> {
    if key in counters && now < counters[key].expires
    then counters[key := Counter(counters[key].n + 1, counters[key].expires)]
    else counters[key := Counter(1, now + LIFETIME)]
  }

  class Limiter {
    var counters: map<Key, Counter>

    constructor ()
      ensures counters == map[]
    {
      counters := map[];
    }

    method AllowRate(call: Call, limit: nat) returns (allowed: bool)
      modifies this
      ensures counters == Incremented(old(counters), KeyOf(call), call.arrived)
      ensures allowed <==> counters[KeyOf(call)].n <= limit
    {
      var key := KeyOf(call);
      var n := 1;
      if key in counters && call.arrived < counters[key].expires {
        n := counters[key].n + 1;
        counters := counters[key := Counter(n, counters[key].expires)];
      } else {
        counters := counters[key := Counter(n, call.arrived + LIFETIME)];
      }
      allowed := !(n > limit);
    }
  }

  // ----- Runs: calls in the order their scripts run -----

  ghost predicate InOrder(calls: seq<Call>) {
    && (forall i | 0 <= i < |calls| :: calls[i].at <= calls[i].arrived <= calls[i].at + SLACK)
    && (forall i, j | 0 <= i < j < |calls| :: calls[i].arrived <= calls[j].arrived)
  }

  function Counters(calls: seq<Call>): map<Key, Counter> {
    if |calls| == 0 then map[]
    else Incremented(Counters(calls[..|calls| - 1]), KeyOf(calls[|calls| - 1]), calls[|calls| - 1].arrived)
  }

  function Calls(calls: seq<Call>, key: Key): nat {
    if |calls| == 0 then 0 else Calls(calls[..|calls| - 1], key) + if KeyOf(calls[|calls| - 1]) == key then 1 else 0
  }

  /** The answer the script gives to the last call. */
  predicate LastAllowed(calls: seq<Call>, limit: nat)
    requires |calls| > 0
  {
    var key := KeyOf(calls[|calls| - 1]);
    key in Counters(calls) && Counters(calls)[key].n <= limit
  }

  function Allowed(calls: seq<Call>, limit: nat, key: Key): nat {
    if |calls| == 0 then 0
    else Allowed(calls[..|calls| - 1], limit, key)
         + if KeyOf(calls[|calls| - 1]) == key && LastAllowed(calls, limit) then 1 else 0
  }

  /** A window's counter outlives every late call of its window, so it counts them all. */
  lemma {:induction false} CounterIsExact(calls: seq<Call>, key: Key)
    requires InOrder(calls)
    ensures key in Counters(calls) <==> Calls(calls, key) > 0
    ensures key in Counters(calls) ==>
              && Counters(calls)[key].n == Calls(calls, key)
              && Counters(calls)[key].expires >= key.window * WINDOW + LIFETIME
  {
    if |calls| > 0 {
      var init, last := calls[..|calls| - 1], calls[|calls| - 1];
      assert InOrder(init);
      CounterIsExact(init, key);
      if KeyOf(last) == key {
        assert key.window * WINDOW <= last.at < key.window * WINDOW + WINDOW;
      }
    }
  }

  function Min(a: nat, b: nat): nat {
    if a < b then a else b
  }

  /** Each network gets exactly min(limit, calls) allowances in each window. */
  lemma {:induction false} AllowedPerWindow(calls: seq<Call>, limit: nat, key: Key)
    requires InOrder(calls)
    ensures Allowed(calls, limit, key) == Min(limit, Calls(calls, key))
  {
    if |calls| > 0 {
      var init := calls[..|calls| - 1];
      assert InOrder(init);
      AllowedPerWindow(init, limit, key);
      CounterIsExact(calls, key);
    }
  }

  /** Allowances of a network to calls whose clock lies in [from, from + WINDOW). */
  function AllowedSince(calls: seq<Call>, limit: nat, network: string, from: nat): nat {
    if |calls| == 0 then 0
    else
      var last := calls[|calls| - 1];
      AllowedSince(calls[..|calls| - 1], limit, network, from)
      + if last.network == network && from <= last.at < from + WINDOW && LastAllowed(calls, limit) then 1 else 0
  }

  lemma {:induction false} TwoWindowsCover(calls: seq<Call>, limit: nat, network: string, from: nat)
    ensures AllowedSince(calls, limit, network, from)
         <= Allowed(calls, limit, Key(network, Window(from))) + Allowed(calls, limit, Key(network, Window(from) + 1))
  {
    if |calls| > 0 {
      TwoWindowsCover(calls[..|calls| - 1], limit, network, from);
      var last := calls[|calls| - 1];
      if from <= last.at < from + WINDOW {
        assert Window(last.at) == Window(from) || Window(last.at) == Window(from) + 1;
      }
    }
  }

  /** In any 60 seconds of the callers' clock a network gets at most twice the limit. */
  lemma AtMostTwiceTheLimit(calls: seq<Call>, limit: nat, network: string, from: nat)
    requires InOrder(calls)
    ensures AllowedSince(calls, limit, network, from) <= 2 * limit
  {
    TwoWindowsCover(calls, limit, network, from);
    AllowedPerWindow(calls, limit, Key(network, Window(from)));
    AllowedPerWindow(calls, limit, Key(network, Window(from) + 1));
  }

  /**
   * The 65 s expiry is exactly enough: a call that takes longer to arrive than the slack can find
   * the counter of its window expired and be allowed beyond the limit.
   */
  lemma LateCallExceedsLimit(network: string) returns (calls: seq<Call>)
    ensures |calls| == 2 && calls[0].arrived <= calls[1].arrived
    ensures calls[0].at <= calls[0].arrived <= calls[0].at + SLACK
    ensures calls[1].arrived == calls[1].at + SLACK + 1 && KeyOf(calls[1]) == KeyOf(calls[0])
    ensures Allowed(calls, 1, KeyOf(calls[0])) == 2
  {
    var first := Call(network, 0, 0);
    var late := Call(network, WINDOW - 1, WINDOW - 1 + SLACK + 1);
    calls := [first, late];
    var key := Key(network, 0);
    assert [first][..0] == [] && calls[..1] == [first];
    assert Counters([]) == map[];
    assert Counters([first]) == map[key := Counter(1, LIFETIME)];
    assert Counters(calls)[key] == Counter(1, late.arrived + LIFETIME);
    assert Allowed([first], 1, key) == 1;
  }
}
