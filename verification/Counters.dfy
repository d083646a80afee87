/** Checked aggregation of the bucket hashes (internal/redisstore/votes.go, Totals and addCounters). */
module Counters {
  import opened Ballots
  import opened Domain

  const MAX_INT64 := 0x7fff_ffff_ffff_ffff

  // ----- Decimal integers -----

  predicate IsDigit(c: char) {
    '0' <= c <= '9'
  }

  predicate AllDigits(s: string) {
    |s| > 0 && forall i | 0 <= i < |s| :: IsDigit(s[i])
  }

  function Value(s: string): nat
    requires forall i | 0 <= i < |s| :: IsDigit(s[i])
  {
    if |s| == 0 then 0
    else
      assert IsDigit(s[|s| - 1]);
      10 * Value(s[..|s| - 1]) + (s[|s| - 1] as int - '0' as int)
  }

  /** strconv.ParseInt(s, 10, 64) */
  function ParseInt(s: string): (r: Option<int>)
    ensures r.Some? ==> -MAX_INT64 - 1 <= r.value <= MAX_INT64
  {
    if s == "" then None
    else
      var negative := s[0] == '-';
      var digits := if s[0] == '-' || s[0] == '+' then s[1..] else s;
      if !AllDigits(digits) then None
      else if negative then
        var n := 0 - Value(digits);
        if n >= -MAX_INT64 - 1 then Some(n) else None
      else
        var n: int := Value(digits);
        if n <= MAX_INT64 then Some(n) else None
  }

  /** How Redis renders a counter. */
  function Decimal(n: nat): (s: string)
    ensures AllDigits(s)
  {
    if n < 10 then [('0' as int + n) as char] else Decimal(n / 10) + [('0' as int + n % 10) as char]
  }

  lemma {:induction false} ValueOfDecimal(n: nat)
    ensures Value(Decimal(n)) == n
  {
    if n < 10 {
      assert Decimal(n)[..0] == "";
    } else {
      ValueOfDecimal(n / 10);
      assert Decimal(n)[..|Decimal(n)| - 1] == Decimal(n / 10);
    }
  }

  /** A rendered counter reads back as itself exactly when it fits in an int64. */
  lemma ParseOfDecimal(n: nat)
    ensures ParseInt(Decimal(n)) == if n <= MAX_INT64 then Some(n) else None
  {
    ValueOfDecimal(n);
    assert IsDigit(Decimal(n)[0]);
  }

  /** With a sign in front, too; a string that is not all digits after its sign does not parse. */
  lemma ParseOfSigned(n: nat, s: string)
    ensures ParseInt("+" + Decimal(n)) == if n <= MAX_INT64 then Some(n) else None
    ensures ParseInt("-" + Decimal(n)) == if n <= MAX_INT64 + 1 then Some(0 - n) else None
    ensures ParseInt(s).Some? ==> AllDigits(if s[0] == '-' || s[0] == '+' then s[1..] else s)
  {
    ValueOfDecimal(n);
    assert ("+" + Decimal(n))[1..] == Decimal(n) && ("-" + Decimal(n))[1..] == Decimal(n);
  }

  // ----- Replies -----

  type Reply = map<string, string>

  predicate IsCounter(raw: string) {
    ParseInt(raw).Some? && ParseInt(raw).value >= 0
  }

  function Amount(reply: Reply, field: string): nat {
    if field in reply && IsCounter(reply[field]) then ParseInt(reply[field]).value else 0
  }

  function AmountSum(replies: seq<Reply>, field: string): nat {
    if |replies| == 0 then 0
    else AmountSum(replies[..|replies| - 1], field) + Amount(replies[|replies| - 1], field)
  }

  lemma {:induction false} AmountSumGrows(replies: seq<Reply>, k: nat, field: string)
    requires k <= |replies|
    ensures AmountSum(replies[..k], field) <= AmountSum(replies, field)
    decreases |replies|
  {
    if k < |replies| {
      AmountSumGrows(replies[..|replies| - 1], k, field);
      assert replies[..|replies| - 1][..k] == replies[..k];
    } else {
      assert replies[..k] == replies;
    }
  }

  predicate AllCounters(reply: Reply) {
    forall field | field in reply :: IsCounter(reply[field])
  }

  /** The counters addCounters adds for an option id: the participants field never names one. */
  function OptionAmount(replies: seq<Reply>, id: string): nat {
    if id == PARTICIPANTS then 0 else AmountSum(replies, id)
  }

  /** When aggregation succeeds: every field is a counter and every exact sum fits. */
  ghost predicate Aggregable(replies: seq<Reply>, ids: set<string>) {
    && (forall b | 0 <= b < |replies| :: AllCounters(replies[b]))
    && AmountSum(replies, PARTICIPANTS) <= MAX_INT64
    && forall id :: id in ids ==> OptionAmount(replies, id) <= MAX_INT64
  }

  datatype Totals = Totals(participants: nat, options: Fields, asOf: int)

  /** domain.Totals while it is being filled in. */
  class Accumulator {
    var participants: nat
    var options: Fields

    constructor (ids: seq<string>)
      ensures participants == 0
      ensures options == map id | id in ids :: 0
    {
      participants := 0;
      options := map id | id in ids :: 0;
    }

    /** No sum of what has been added has passed the int64 range. */
    ghost predicate Valid()
      reads this
    {
      participants <= MAX_INT64 && forall id | id in options :: options[id] <= MAX_INT64
    }

    /**
     * Adds one bucket's hash, visiting its fields in any order. It succeeds exactly when every
     * field is a counter and no exact sum overflows, and then every sum is exact.
     */
    method AddCounters(valid: set<string>, values: Reply) returns (ok: bool)
      requires Valid() && options.Keys == valid
      modifies this
      ensures Valid() && options.Keys == valid
      ensures ok <==>
              && AllCounters(values)
              && old(participants) + Amount(values, PARTICIPANTS) <= MAX_INT64
              && forall id | id in valid && id != PARTICIPANTS :: old(options[id]) + Amount(values, id) <= MAX_INT64
      ensures ok ==> participants == old(participants) + Amount(values, PARTICIPANTS)
      ensures ok ==> forall id | id in valid ::
                options[id] == old(options[id]) + if id == PARTICIPANTS then 0 else Amount(values, id)
    {
      var rest := values.Keys;
      while rest != {}
        invariant rest <= values.Keys
        invariant Valid() && options.Keys == valid
        invariant forall field | field in values && field !in rest :: IsCounter(values[field])
        invariant participants == old(participants) + if PARTICIPANTS in rest then 0 else Amount(values, PARTICIPANTS)
        invariant forall id | id in valid ::
                    options[id] == old(options[id]) + if id == PARTICIPANTS || id in rest then 0 else Amount(values, id)
      {
        var field :| field in rest;
        rest := rest - {field};
        var n := ParseInt(values[field]);
        if n == None || n.value < 0 {
          assert !IsCounter(values[field]);
          return false;
        }
        if field == PARTICIPANTS {
          if MAX_INT64 - participants < n.value {
            return false;
          }
          participants := participants + n.value;
        } else if field in valid {
          if MAX_INT64 - options[field] < n.value {
            return false;
          }
          options := options[field := options[field] + n.value];
        }
      }
      return true;
    }
  }

  /**
   * Folds the replies of all buckets. It never wraps: it returns the exact mathematical sums or
   * fails, and it fails only when a field is no counter or a sum is out of range.
   */
  method Collect(replies: seq<Reply>, optionIds: seq<string>, asOf: int) returns (r: Result<Totals>)
    ensures r.Ok? <==> Aggregable(replies, set id | id in optionIds)
    ensures r.Ok? <==>
              && (forall b, f | 0 <= b < |replies| && f in replies[b] ::
                    ParseInt(replies[b][f]).Some? && ParseInt(replies[b][f]).value >= 0)
              && AmountSum(replies, PARTICIPANTS) <= 0x7fff_ffff_ffff_ffff
              && forall id | id in optionIds && id != PARTICIPANTS :: AmountSum(replies, id) <= 0x7fff_ffff_ffff_ffff
    ensures r.Ok? ==> r.value.participants == AmountSum(replies, PARTICIPANTS)
    ensures r.Ok? ==> r.value.options == map id | id in optionIds :: OptionAmount(replies, id)
    ensures r.Ok? ==> r.value.asOf == asOf
    ensures r.Err? ==> r.error == BadCounter
  {
    AggregableExactly(replies, optionIds);
    var t := new Accumulator(optionIds);
    var valid := set id | id in optionIds;
    for b := 0 to |replies|
      invariant fresh(t) && t.Valid() && t.options.Keys == valid
      invariant Aggregable(replies[..b], valid)
      invariant t.participants == AmountSum(replies[..b], PARTICIPANTS)
      invariant forall id | id in valid :: t.options[id] == OptionAmount(replies[..b], id)
    {
      AggregableOneMore(replies, b, valid);
      var ok := t.AddCounters(valid, replies[b]);
      if !ok {
        NotAggregable(replies, b, valid);
        return Err(BadCounter);
      }
    }
    assert replies[..|replies|] == replies;
    r := Ok(Totals(t.participants, t.options, asOf));
  }

  lemma AggregableExactly(replies: seq<Reply>, optionIds: seq<string>)
    ensures Aggregable(replies, set id | id in optionIds)
            <==> && (forall b, f | 0 <= b < |replies| && f in replies[b] ::
                       ParseInt(replies[b][f]).Some? && ParseInt(replies[b][f]).value >= 0)
                 && AmountSum(replies, PARTICIPANTS) <= 0x7fff_ffff_ffff_ffff
                 && forall id | id in optionIds && id != PARTICIPANTS :: AmountSum(replies, id) <= 0x7fff_ffff_ffff_ffff
  {
    var ids := set id | id in optionIds;
    if Aggregable(replies, ids) {
      forall b, f | 0 <= b < |replies| && f in replies[b]
        ensures ParseInt(replies[b][f]).Some? && ParseInt(replies[b][f]).value >= 0
      {
        assert AllCounters(replies[b]) && IsCounter(replies[b][f]);
      }
      forall id | id in optionIds && id != PARTICIPANTS ensures AmountSum(replies, id) <= 0x7fff_ffff_ffff_ffff {
        assert id in ids && OptionAmount(replies, id) <= MAX_INT64;
      }
    }
  }

  lemma AggregableOneMore(replies: seq<Reply>, b: nat, ids: set<string>)
    requires b < |replies|
    ensures forall field :: AmountSum(replies[..b + 1], field) == AmountSum(replies[..b], field) + Amount(replies[b], field)
    ensures Aggregable(replies[..b + 1], ids) <==>
              && Aggregable(replies[..b], ids) && AllCounters(replies[b])
              && AmountSum(replies[..b + 1], PARTICIPANTS) <= MAX_INT64
              && forall id :: id in ids ==> OptionAmount(replies[..b + 1], id) <= MAX_INT64
  {
    assert replies[..b + 1] == replies[..b] + [replies[b]];
    assert (replies[..b] + [replies[b]])[..b] == replies[..b];
    assert forall k | 0 <= k < b + 1 :: replies[..b + 1][k] == replies[k];
    assert forall k | 0 <= k < b :: replies[..b][k] == replies[k];
  }

  lemma NotAggregable(replies: seq<Reply>, b: nat, ids: set<string>)
    requires b < |replies| && !Aggregable(replies[..b + 1], ids)
    ensures !Aggregable(replies, ids)
  {
    AmountSumGrows(replies, b + 1, PARTICIPANTS);
    forall id | id in ids ensures OptionAmount(replies[..b + 1], id) <= OptionAmount(replies, id) {
      AmountSumGrows(replies, b + 1, id);
    }
    if forall k | 0 <= k < |replies| :: AllCounters(replies[k]) {
      assert forall k | 0 <= k < b + 1 :: replies[..b + 1][k] == replies[k];
    }
  }

  // ----- Replies as numbers -----

  function Rendered(fields: Fields): Reply {
    map field | field in fields :: Decimal(fields[field])
  }

  function RenderedAll(hashes: seq<Fields>): (replies: seq<Reply>)
    ensures |replies| == |hashes|
  {
    seq(|hashes|, b requires 0 <= b < |hashes| => Rendered(hashes[b]))
  }

  function ColumnSum(hashes: seq<Fields>, field: string): nat {
    if |hashes| == 0 then 0 else ColumnSum(hashes[..|hashes| - 1], field) + Count(hashes[|hashes| - 1], field)
  }

  predicate FitsInt64(fields: Fields) {
    forall field | field in fields :: fields[field] <= MAX_INT64
  }

  function OptionSum(hashes: seq<Fields>, id: string): nat {
    if id == PARTICIPANTS then 0 else ColumnSum(hashes, id)
  }

  function Sums(hashes: seq<Fields>, ids: seq<string>, asOf: int): Totals {
    Totals(ColumnSum(hashes, PARTICIPANTS), map id | id in ids :: OptionSum(hashes, id), asOf)
  }

  predicate SumsFit(hashes: seq<Fields>, ids: seq<string>) {
    && (forall b | 0 <= b < |hashes| :: FitsInt64(hashes[b]))
    && ColumnSum(hashes, PARTICIPANTS) <= MAX_INT64
    && forall id | id in ids :: OptionSum(hashes, id) <= MAX_INT64
  }

  /** Summing fails only for a counter or a sum beyond the int64 range. */
  lemma SumsFitExactly(hashes: seq<Fields>, ids: seq<string>)
    ensures SumsFit(hashes, ids)
            <==> && (forall b, f | 0 <= b < |hashes| && f in hashes[b] :: hashes[b][f] <= 0x7fff_ffff_ffff_ffff)
                 && ColumnSum(hashes, PARTICIPANTS) <= 0x7fff_ffff_ffff_ffff
                 && forall id | id in ids && id != PARTICIPANTS :: ColumnSum(hashes, id) <= 0x7fff_ffff_ffff_ffff
  {
  }

  lemma AmountOfRendered(fields: Fields, field: string)
    ensures FitsInt64(fields) ==> Amount(Rendered(fields), field) == Count(fields, field)
    ensures AllCounters(Rendered(fields)) <==> FitsInt64(fields)
  {
    forall f | f in fields ensures IsCounter(Rendered(fields)[f]) <==> fields[f] <= MAX_INT64 {
      ParseOfDecimal(fields[f]);
    }
    if field in fields {
      ParseOfDecimal(fields[field]);
    }
  }

  lemma {:induction false} AmountSumOfRendered(hashes: seq<Fields>, field: string)
    requires forall b | 0 <= b < |hashes| :: FitsInt64(hashes[b])
    ensures AmountSum(RenderedAll(hashes), field) == ColumnSum(hashes, field)
  {
    if |hashes| > 0 {
      AmountSumOfRendered(hashes[..|hashes| - 1], field);
      AmountOfRendered(hashes[|hashes| - 1], field);
      assert RenderedAll(hashes)[..|hashes| - 1] == RenderedAll(hashes[..|hashes| - 1]);
    }
  }

  /** Rendering the counters and parsing them back changes no total and no verdict. */
  lemma RenderingIsTransparent(hashes: seq<Fields>, ids: seq<string>)
    ensures Aggregable(RenderedAll(hashes), set id | id in ids) <==> SumsFit(hashes, ids)
    ensures SumsFit(hashes, ids) ==>
              && AmountSum(RenderedAll(hashes), PARTICIPANTS) == ColumnSum(hashes, PARTICIPANTS)
              && forall id | id in ids :: OptionAmount(RenderedAll(hashes), id) == OptionSum(hashes, id)
  {
    forall b | 0 <= b < |hashes| ensures AllCounters(RenderedAll(hashes)[b]) <==> FitsInt64(hashes[b]) {
      AmountOfRendered(hashes[b], PARTICIPANTS);
    }
    if forall b | 0 <= b < |hashes| :: FitsInt64(hashes[b]) {
      AmountSumOfRendered(hashes, PARTICIPANTS);
      forall id | id in ids ensures OptionAmount(RenderedAll(hashes), id) == OptionSum(hashes, id) {
        AmountSumOfRendered(hashes, id);
      }
    } else {
      var b :| 0 <= b < |hashes| && !FitsInt64(hashes[b]);
      assert !AllCounters(RenderedAll(hashes)[b]);
    }
  }
}
