/** Poll definitions and the rules a ballot must meet (internal/domain/poll.go). */
module Domain {
  import opened Uuid

  datatype Option<+T> = None | Some(value: T)

  datatype Error =
    | NotFound
    | InvalidInput
    | InvalidSelection
    | InvalidTransition
    | NotActive
    | BadCounter
    | Unavailable

  datatype Result<+T> = Ok(value: T) | Err(error: Error)

  /** How one request to PostgreSQL or Redis fares: no effect, an effect but no reply, or both. */
  datatype Trip = Lost | Unanswered | Answered

  datatype PollType = SingleChoice | MultipleChoice | UnknownType(name: string)

  datatype PollStatus = Draft | Active | Closed

  datatype PollOption = PollOption(id: string, text: string, position: nat)

  datatype Poll = Poll(
    id: string,
    question: string,
    kind: PollType,
    maxChoices: int,
    status: PollStatus,
    startsAt: int,
    endsAt: int,
    createdAt: int,
    updatedAt: int,
    publishedAt: Option<int>,
    closedAt: Option<int>,
    options: seq<PollOption>)

  datatype CreatePoll = CreatePoll(
    question: string,
    kind: PollType,
    maxChoices: int,
    startsAt: int,
    endsAt: int,
    options: seq<string>)

  function OptionIds(options: seq<PollOption>): (ids: seq<string>)
    ensures |ids| == |options|
    ensures forall i | 0 <= i < |ids| :: ids[i] == options[i].id
  {
    seq(|options|, i requires 0 <= i < |options| => options[i].id)
  }

  predicate Distinct(ids: seq<string>) {
    forall i, j | 0 <= i < j < |ids| :: ids[i] != ids[j]
  }

  /** The fields of a poll that no operation changes after creation. */
  predicate SameDefinition(p: Poll, q: Poll) {
    && p.id == q.id && p.question == q.question && p.kind == q.kind && p.maxChoices == q.maxChoices
    && p.startsAt == q.startsAt && p.endsAt == q.endsAt && p.options == q.options
  }

  /** What every stored poll satisfies: the rules of Validate plus distinct UUID option ids. */
  predicate WellFormed(p: Poll) {
    && 1 <= p.maxChoices <= |p.options|
    && 2 <= |p.options| <= 20
    && (p.kind == SingleChoice ==> p.maxChoices == 1)
    && p.startsAt < p.endsAt
    && Distinct(OptionIds(p.options))
    && forall i | 0 <= i < |p.options| :: IsUUID(p.options[i].id)
  }

  // ----- Selections -----

  predicate ValidSelection(p: Poll, ids: seq<string>) {
    && 1 <= |ids| <= p.maxChoices
    && (p.kind == SingleChoice ==> |ids| == 1)
    && Distinct(ids)
    && forall i | 0 <= i < |ids| :: IsUUID(ids[i]) && ids[i] in OptionIds(p.options)
  }

  /** Accepts exactly the selections of distinct option ids of the poll, within its size rules. */
  method ValidateSelection(p: Poll, ids: seq<string>) returns (ok: bool)
    ensures ok <==> ValidSelection(p, ids)
  {
    if |ids| == 0 || |ids| > p.maxChoices || (p.kind == SingleChoice && |ids| != 1) {
      return false;
    }
    var valid: set<string> := {};
    for i := 0 to |p.options|
      invariant forall x :: x in valid <==> x in OptionIds(p.options)[..i]
    {
      valid := valid + {p.options[i].id};
      assert OptionIds(p.options)[..i + 1] == OptionIds(p.options)[..i] + [p.options[i].id];
    }
    assert OptionIds(p.options)[..|p.options|] == OptionIds(p.options);
    var seen: set<string> := {};
    for i := 0 to |ids|
      invariant forall x :: x in seen <==> x in ids[..i]
      invariant Distinct(ids[..i])
      invariant forall j | 0 <= j < i :: IsUUID(ids[j]) && ids[j] in OptionIds(p.options)
    {
      if !IsUUID(ids[i]) {
        return false;
      }
      if ids[i] in seen {
        assert exists j :: 0 <= j < i && ids[j] == ids[i];
        return false;
      }
      if ids[i] !in valid {
        return false;
      }
      seen := seen + {ids[i]};
      assert ids[..i + 1] == ids[..i] + [ids[i]];
    }
    assert ids[..|ids|] == ids;
    return true;
  }

  lemma {:induction false} MultisetOfDistinct(ids: seq<string>)
    requires Distinct(ids)
    ensures forall id :: multiset(ids)[id] == if id in ids then 1 else 0
  {
    if |ids| > 0 {
      MultisetOfDistinct(ids[1..]);
      assert ids == [ids[0]] + ids[1..];
    }
  }

  lemma {:induction false} RepeatedTwice(ids: seq<string>, i: nat, j: nat)
    requires i < j < |ids| && ids[i] == ids[j]
    ensures multiset(ids)[ids[i]] >= 2
  {
    assert ids == ids[..j] + ids[j..];
    assert ids[..j][i] in multiset(ids[..j]) && ids[j..][0] in multiset(ids[j..]);
  }

  /**
   * A selection is valid exactly when its ids can be drawn from the poll's options, each option once,
   * and there is at least one and not more than allowed: one for single choice.
   */
  lemma SelectionExactly(p: Poll, ids: seq<string>)
    requires WellFormed(p)
    ensures ValidSelection(p, ids)
            <==> && multiset(ids) <= multiset(OptionIds(p.options))
                 && 1 <= |ids| <= if p.kind == SingleChoice then 1 else p.maxChoices
  {
    var all := OptionIds(p.options);
    MultisetOfDistinct(all);
    if ValidSelection(p, ids) {
      MultisetOfDistinct(ids);
      assert multiset(ids) <= multiset(all);
    }
    if multiset(ids) <= multiset(all) {
      forall i, j | 0 <= i < j < |ids| ensures ids[i] != ids[j] {
        if ids[i] == ids[j] {
          RepeatedTwice(ids, i, j);
        }
      }
      forall i | 0 <= i < |ids| ensures ids[i] in all && IsUUID(ids[i]) {
        assert ids[i] in multiset(ids) && ids[i] in multiset(all);
      }
    }
  }

  // ----- White space -----

  /** unicode.IsSpace */
  predicate IsSpace(c: char) {
    || '\t' <= c <= '\r' || c == ' ' || c == '\U{85}' || c == '\U{A0}' || c == '\U{1680}'
    || '\U{2000}' <= c <= '\U{200A}' || c == '\U{2028}' || c == '\U{2029}' || c == '\U{202F}'
    || c == '\U{205F}' || c == '\U{3000}'
  }

  /** White space is the 25 code points with the property White_Space. */
  lemma WhiteSpaceExactly(c: char)
    ensures IsSpace(c) <==> c as int in {
              0x09, 0x0A, 0x0B, 0x0C, 0x0D, 0x20, 0x85, 0xA0, 0x1680,
              0x2000, 0x2001, 0x2002, 0x2003, 0x2004, 0x2005, 0x2006, 0x2007, 0x2008, 0x2009, 0x200A,
              0x2028, 0x2029, 0x202F, 0x205F, 0x3000}
  {
  }

  /** strings.TrimSpace */
  function TrimSpace(s: string): (r: string)
    ensures |r| <= |s|
  {
    if |s| == 0 then s
    else if IsSpace(s[0]) then TrimSpace(s[1..])
    else if IsSpace(s[|s| - 1]) then TrimSpace(s[..|s| - 1])
    else s
  }

  predicate AllSpace(s: string) {
    forall k | 0 <= k < |s| :: IsSpace(s[k])
  }

  /** `r` is what is left of `s` when `left` and `right`, all white space, are cut off its ends. */
  predicate Cut(s: string, left: string, r: string, right: string) {
    s == left + r + right && AllSpace(left) && AllSpace(right)
  }

  predicate Trimmed(r: string) {
    r == "" || (!IsSpace(r[0]) && !IsSpace(r[|r| - 1]))
  }

  lemma CutOneMore(s: string, left: string, r: string, right: string)
    requires |s| > 0 && IsSpace(s[0]) && Cut(s[1..], left, r, right)
    ensures Cut(s, [s[0]] + left, r, right)
  {
    assert s == [s[0]] + s[1..];
  }

  lemma CutOneLess(s: string, left: string, r: string, right: string)
    requires |s| > 0 && IsSpace(s[|s| - 1]) && Cut(s[..|s| - 1], left, r, right)
    ensures Cut(s, left, r, right + [s[|s| - 1]])
  {
    assert s == s[..|s| - 1] + [s[|s| - 1]];
  }

  /** TrimSpace cuts white space off both ends, and leaves none there. */
  lemma {:induction false} TrimSpaceCuts(s: string) returns (left: string, right: string)
    ensures Cut(s, left, TrimSpace(s), right) && Trimmed(TrimSpace(s))
  {
    left, right := "", "";
    if |s| > 0 {
      if IsSpace(s[0]) {
        left, right := TrimSpaceCuts(s[1..]);
        CutOneMore(s, left, TrimSpace(s), right);
        left := [s[0]] + left;
      } else if IsSpace(s[|s| - 1]) {
        left, right := TrimSpaceCuts(s[..|s| - 1]);
        CutOneLess(s, left, TrimSpace(s), right);
        right := right + [s[|s| - 1]];
      }
    }
  }

  /** There is only one way to cut: whatever is cut off like that and leaves none at the ends is TrimSpace. */
  lemma {:induction false} TrimSpaceExactly(s: string, left: string, r: string, right: string)
    requires Cut(s, left, r, right) && Trimmed(r)
    ensures TrimSpace(s) == r
    decreases |s|
  {
    if |s| > 0 {
      if |left| > 0 {
        assert s[1..] == left[1..] + r + right;
        TrimSpaceExactly(s[1..], left[1..], r, right);
      } else if r == "" {
        assert s[1..] == right[1..];
        TrimSpaceExactly(s[1..], "", "", right[1..]);
      } else if |right| > 0 {
        assert s[..|s| - 1] == left + r + right[..|right| - 1];
        TrimSpaceExactly(s[..|s| - 1], left, r, right[..|right| - 1]);
      }
    }
  }

  lemma BlankExactly(s: string)
    ensures TrimSpace(s) == "" <==> AllSpace(s)
  {
    if AllSpace(s) {
      assert s == s + "" + "";
      TrimSpaceExactly(s, s, "", "");
    }
    if TrimSpace(s) == "" {
      var left, right := TrimSpaceCuts(s);
      assert s == left + right;
    }
  }

  /** `padded` is `s` with white space around it. */
  ghost predicate Padded(s: string, padded: string) {
    exists left, right :: Cut(padded, left, s, right)
  }

  lemma PaddingIsTrimmed(s: string, padded: string)
    requires Padded(s, padded)
    ensures TrimSpace(padded) == TrimSpace(s)
  {
    var left, right :| Cut(padded, left, s, right);
    var l, r := TrimSpaceCuts(s);
    assert padded == (left + l) + TrimSpace(s) + (r + right);
    TrimSpaceExactly(padded, left + l, TrimSpace(s), r + right);
  }

  // ----- Creation -----

  predicate Validate(input: CreatePoll) {
    && 1 <= |TrimSpace(input.question)| <= 500
    && input.startsAt < input.endsAt
    && 2 <= |input.options| <= 20
    && (forall i | 0 <= i < |input.options| :: 1 <= |TrimSpace(input.options[i])| <= 200)
    && match input.kind
       case SingleChoice => input.maxChoices == 1
       case MultipleChoice => 2 <= input.maxChoices <= |input.options|
       case UnknownType(_) => false
  }

  /** White space around the question and the options changes neither the verdict nor what is stored. */
  lemma PaddingChangesNothing(input: CreatePoll, padded: CreatePoll)
    requires Padded(input.question, padded.question)
    requires |padded.options| == |input.options|
    requires forall i | 0 <= i < |input.options| :: Padded(input.options[i], padded.options[i])
    requires padded.(question := input.question, options := input.options) == input
    ensures Validate(padded) <==> Validate(input)
    ensures TrimSpace(padded.question) == TrimSpace(input.question)
    ensures forall i | 0 <= i < |input.options| :: TrimSpace(padded.options[i]) == TrimSpace(input.options[i])
  {
    PaddingIsTrimmed(input.question, padded.question);
    forall i | 0 <= i < |input.options| ensures TrimSpace(padded.options[i]) == TrimSpace(input.options[i]) {
      PaddingIsTrimmed(input.options[i], padded.options[i]);
    }
  }

  predicate HasBlank(input: CreatePoll) {
    AllSpace(input.question) || exists i :: 0 <= i < |input.options| && AllSpace(input.options[i])
  }

  /** A question or an option of nothing but white space is refused. */
  lemma BlankIsRefused(input: CreatePoll)
    ensures HasBlank(input) ==> !Validate(input)
  {
    BlankExactly(input.question);
    if i :| 0 <= i < |input.options| && AllSpace(input.options[i]) {
      BlankExactly(input.options[i]);
    }
  }

  /**
   * Builds the draft that PollRepository.Create inserts. `uuids` are the identifiers drawn from
   * NewUUID: the poll's own first, then one for each option.
   */
  method Create(input: CreatePoll, uuids: seq<string>, now: int) returns (r: Result<Poll>)
    requires |uuids| == 1 + |input.options| && Distinct(uuids)
    requires forall i | 0 <= i < |uuids| :: IsUUID(uuids[i])
    ensures r.Ok? <==> Validate(input)
    ensures r.Ok? <==>
              && 1 <= |TrimSpace(input.question)| <= 500
              && input.startsAt < input.endsAt
              && 2 <= |input.options| <= 20
              && (forall i | 0 <= i < |input.options| :: 1 <= |TrimSpace(input.options[i])| <= 200)
              && (input.kind == SingleChoice ==> input.maxChoices == 1)
              && (input.kind == MultipleChoice ==> 2 <= input.maxChoices <= |input.options|)
              && !input.kind.UnknownType?
    ensures HasBlank(input) ==> r.Err?
    ensures r.Err? ==> r.error == InvalidInput
    ensures r.Ok? ==> WellFormed(r.value) && r.value.status == Draft && r.value.publishedAt == None && r.value.closedAt == None
    ensures r.Ok? ==> r.value.id == uuids[0] && OptionIds(r.value.options) == uuids[1..]
    ensures r.Ok? ==> r.value.question == TrimSpace(input.question)
    ensures r.Ok? ==> forall i | 0 <= i < |input.options| ::
              r.value.options[i].position == i && r.value.options[i].text == TrimSpace(input.options[i])
    ensures r.Ok? ==> r.value.maxChoices == input.maxChoices && r.value.kind == input.kind
                      && r.value.startsAt == input.startsAt && r.value.endsAt == input.endsAt
                      && r.value.createdAt == r.value.updatedAt == now
  {
    BlankIsRefused(input);
    if !Validate(input) {
      return Err(InvalidInput);
    }
    var options: seq<PollOption> := [];
    for i := 0 to |input.options|
      invariant |options| == i
      invariant forall j | 0 <= j < i ::
                  options[j] == PollOption(uuids[1 + j], TrimSpace(input.options[j]), j)
    {
      options := options + [PollOption(uuids[1 + i], TrimSpace(input.options[i]), i)];
    }
    assert OptionIds(options) == uuids[1..];
    r := Ok(Poll(uuids[0], TrimSpace(input.question), input.kind, input.maxChoices, Draft,
                 input.startsAt, input.endsAt, now, now, None, None, options));
  }
}
