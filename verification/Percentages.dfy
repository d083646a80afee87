/** Percentages of participants in a result response (internal/httpapi/admin_handlers.go, resultResponse). */
module Percentages {
  import opened Ballots
  import opened Domain
  import opened PollRepository
  import opened Protocol
  import opened Shape

  datatype OptionResult = OptionResult(id: string, text: string, count: nat, participantPercent: real)

  function Percent(count: nat, participants: nat): real {
    if participants > 0 then count as real * 100.0 / participants as real else 0.0
  }

  method ResultResponse(p: Poll, participants: nat, counts: Fields) returns (out: seq<OptionResult>)
    ensures |out| == |p.options|
    ensures forall i | 0 <= i < |out| ::
              && out[i].id == p.options[i].id && out[i].text == p.options[i].text
              && out[i].count == Count(counts, p.options[i].id)
              && out[i].participantPercent == Percent(out[i].count, participants)
              && out[i].participantPercent * participants as real == (if participants > 0 then out[i].count as real * 100.0 else 0.0)
              && (participants == 0 ==> out[i].participantPercent == 0.0)
  {
    out := [];
    for i := 0 to |p.options|
      invariant |out| == i
      invariant forall j | 0 <= j < i ::
                  out[j] == OptionResult(p.options[j].id, p.options[j].text, Count(counts, p.options[j].id),
                                         Percent(Count(counts, p.options[j].id), participants))
    {
      var count := Count(counts, p.options[i].id);
      var percent := 0.0;
      if participants > 0 {
        percent := count as real * 100.0 / participants as real;
      }
      out := out + [OptionResult(p.options[i].id, p.options[i].text, count, percent)];
    }
  }

  function SumPercent(ids: seq<string>, counts: Fields, participants: nat): real {
    if |ids| == 0 then 0.0
    else SumPercent(ids[..|ids| - 1], counts, participants) + Percent(Count(counts, ids[|ids| - 1]), participants)
  }

  lemma PercentInRange(count: nat, participants: nat)
    requires count <= participants
    ensures 0.0 <= Percent(count, participants) <= 100.0
  {
    if participants > 0 {
      var p := participants as real;
      assert count as real * 100.0 <= p * 100.0;
      assert count as real * 100.0 / p <= p * 100.0 / p;
    }
  }

  lemma DivideSum(a: real, b: real, p: real)
    requires p > 0.0
    ensures (a + b) / p == a / p + b / p
  {
  }

  lemma {:induction false} SumPercentIs(ids: seq<string>, counts: Fields, participants: nat)
    requires participants > 0
    ensures SumPercent(ids, counts, participants) == SumOver(ids, counts) as real * 100.0 / participants as real
  {
    if |ids| > 0 {
      SumPercentIs(ids[..|ids| - 1], counts, participants);
      DivideSum(SumOver(ids[..|ids| - 1], counts) as real * 100.0, Count(counts, ids[|ids| - 1]) as real * 100.0,
                participants as real);
    }
  }

  lemma WholeIsHundred(p: real)
    requires p > 0.0
    ensures p * 100.0 / p == 100.0
  {
  }

  /** Every percentage is within 0 and 100, and a single-choice poll with participants adds up to 100. */
  lemma ShapedPercentages(c: Config, participants: nat, counts: Fields)
    requires Shaped(c, participants, counts)
    ensures forall id | id in c.Ids() :: 0.0 <= Percent(Count(counts, id), participants) <= 100.0
    ensures c.poll.kind == SingleChoice && participants > 0 ==> SumPercent(c.Ids(), counts, participants) == 100.0
  {
    forall id | id in c.Ids() ensures 0.0 <= Percent(Count(counts, id), participants) <= 100.0 {
      PercentInRange(Count(counts, id), participants);
    }
    if participants > 0 {
      SumPercentIs(c.Ids(), counts, participants);
      WholeIsHundred(participants as real);
    }
  }

  /** For every stored result that is ever answered, in every run. */
  lemma StoredPercentages(c: Config, states: seq<State>, labels: seq<Label>, i: nat)
    requires IsRun(c, states, labels) && i < |states| && states[i].row.runtime.Some?
    ensures ResultOf(states[i].row).Ok?
    ensures var r := ResultOf(states[i].row).value;
            && (forall id | id in c.Ids() :: 0.0 <= Percent(Count(r.options, id), r.participants) <= 100.0)
            && (c.poll.kind == SingleChoice && r.participants > 0 ==> SumPercent(c.Ids(), r.options, r.participants) == 100.0)
  {
    AnswerIsShaped(c, states, labels, i);
    var r := ResultOf(states[i].row).value;
    ShapedPercentages(c, r.participants, r.options);
  }
}
