/** Reading polls back from the join of polls and options (internal/postgres/polls.go, ListRecent). */
module Listing {
  import opened Domain

  /** One row of the join: the poll's columns and one of its options. */
  datatype JoinRow = JoinRow(poll: Poll, option: PollOption)

  function WithoutOptions(p: Poll): Poll {
    p.(options := [])
  }

  function RowsOfPoll(p: Poll): (rows: seq<JoinRow>)
    ensures |rows| == |p.options|
  {
    seq(|p.options|, i requires 0 <= i < |p.options| => JoinRow(WithoutOptions(p), p.options[i]))
  }

  /** The join, in the order of the query: polls in list order, each with its options in position order. */
  function Join(polls: seq<Poll>): seq<JoinRow> {
    if |polls| == 0 then [] else Join(polls[..|polls| - 1]) + RowsOfPoll(polls[|polls| - 1])
  }

  /** One step of the grouping loop. */
  function Grouped(polls: seq<Poll>, row: JoinRow): (r: seq<Poll>)
    ensures |r| > 0
  {
    if |polls| == 0 || polls[|polls| - 1].id != row.poll.id
    then polls + [row.poll.(options := [row.option])]
    else
      var last := polls[|polls| - 1];
      polls[|polls| - 1 := last.(options := last.options + [row.option])]
  }

  function Group(rows: seq<JoinRow>): seq<Poll> {
    if |rows| == 0 then [] else Grouped(Group(rows[..|rows| - 1]), rows[|rows| - 1])
  }

  predicate DistinctIds(polls: seq<Poll>) {
    forall i, j | 0 <= i < j < |polls| :: polls[i].id != polls[j].id
  }

  method ListRecent(rows: seq<JoinRow>) returns (polls: seq<Poll>)
    ensures polls == Group(rows)
  {
    polls := [];
    for i := 0 to |rows|
      invariant polls == Group(rows[..i])
    {
      assert rows[..i + 1][..i] == rows[..i];
      ghost var before := polls;
      var p, option := rows[i].poll, rows[i].option;
      if |polls| == 0 || polls[|polls| - 1].id != p.id {
        polls := polls + [p.(options := [])];
      }
      var last := polls[|polls| - 1];
      polls := polls[|polls| - 1 := last.(options := last.options + [option])];
      assert last.options == [] ==> last.options + [option] == [option];
      assert polls == Grouped(before, rows[i]);
    }
    assert rows[..|rows|] == rows;
  }

  lemma GroupOneMoreRow(rows: seq<JoinRow>, row: JoinRow)
    ensures Group(rows + [row]) == Grouped(Group(rows), row)
  {
    assert (rows + [row])[..|rows|] == rows;
  }

  lemma GroupedExtendsLast(polls: seq<Poll>, p: Poll, options: seq<PollOption>, option: PollOption)
    ensures Grouped(polls + [p.(options := options)], JoinRow(WithoutOptions(p), option))
         == polls + [p.(options := options + [option])]
  {
  }

  lemma {:induction false} GroupOneMorePoll(before: seq<JoinRow>, p: Poll, k: nat)
    requires 1 <= k <= |p.options|
    requires var g := Group(before); |g| > 0 ==> g[|g| - 1].id != p.id
    ensures Group(before + RowsOfPoll(p)[..k]) == Group(before) + [p.(options := p.options[..k])]
  {
    var row := JoinRow(WithoutOptions(p), p.options[k - 1]);
    var earlier := before + RowsOfPoll(p)[..k - 1];
    assert before + RowsOfPoll(p)[..k] == earlier + [row];
    GroupOneMoreRow(earlier, row);
    if k == 1 {
      assert earlier == before;
      assert p.options[..1] == [p.options[0]];
    } else {
      GroupOneMorePoll(before, p, k - 1);
      GroupedExtendsLast(Group(before), p, p.options[..k - 1], p.options[k - 1]);
      assert p.options[..k] == p.options[..k - 1] + [p.options[k - 1]];
    }
  }

  /** Grouping undoes the join: the same polls, in the same order, with the same option order. */
  lemma {:induction false} GroupUndoesJoin(polls: seq<Poll>)
    requires DistinctIds(polls)
    requires forall i | 0 <= i < |polls| :: |polls[i].options| > 0
    ensures Group(Join(polls)) == polls
  {
    if |polls| > 0 {
      var init, p := polls[..|polls| - 1], polls[|polls| - 1];
      assert DistinctIds(init);
      GroupUndoesJoin(init);
      assert Group(Join(init)) == init;
      GroupOneMorePoll(Join(init), p, |p.options|);
      assert RowsOfPoll(p)[..|p.options|] == RowsOfPoll(p);
      assert p.options[..|p.options|] == p.options;
      assert Join(polls) == Join(init) + RowsOfPoll(p);
      assert polls == init + [p];
    }
  }
}
