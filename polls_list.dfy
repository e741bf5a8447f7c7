/** The list of polls (`PollsList.tsx`): the fetched polls, the last known
    poll id and the user's votes, how a refresh, a creation and a deletion
    change them, and which option each mounted poll starts with. */
module PollsListComponent {
  import opened Types
  import PollComponent
  import CreatePollComponent

  /** The option of the last pair in `votes` that names `pollId`, or 0 when
      none does; a non-zero result is the option of some pair for `pollId`. */
  function LastVoteFor(votes: seq<VoteRecord>, pollId: nat): (optionId: nat)
    ensures optionId != 0 ==>
      exists k :: 0 <= k < |votes| && votes[k].pollId == pollId && votes[k].optionId == optionId
  {
    if votes == [] then 0
    else if votes[|votes| - 1].pollId == pollId then votes[|votes| - 1].optionId
    else LastVoteFor(votes[..|votes| - 1], pollId)
  }

  /** No matching pair gives 0; otherwise the result is the option of a
      matching pair after which no pair matches. */
  lemma {:induction false} LastVoteForMeaning(votes: seq<VoteRecord>, pollId: nat)
    ensures (forall k :: 0 <= k < |votes| ==> votes[k].pollId != pollId) ==> LastVoteFor(votes, pollId) == 0
    ensures (exists k :: 0 <= k < |votes| && votes[k].pollId == pollId) ==>
      exists k :: && 0 <= k < |votes| && votes[k].pollId == pollId
                  && LastVoteFor(votes, pollId) == votes[k].optionId
                  && forall j :: k < j < |votes| ==> votes[j].pollId != pollId
  {
    if votes != [] {
      var init := votes[..|votes| - 1];
      LastVoteForMeaning(init, pollId);
      assert forall k :: 0 <= k < |init| ==> init[k] == votes[k];
      if votes[|votes| - 1].pollId != pollId && exists k :: 0 <= k < |votes| && votes[k].pollId == pollId {
        var k :| 0 <= k < |votes| && votes[k].pollId == pollId;
        assert init[k].pollId == pollId;
      }
    }
  }

  /** The `userVotes.forEach` in `renderedPolls`: every matching pair
      overwrites the choice, so the last one wins. */
  method SelectedOptionFor(userVotes: seq<VoteRecord>, pollId: nat) returns (selectedOptionId: nat)
    ensures selectedOptionId == LastVoteFor(userVotes, pollId)
  {
    selectedOptionId := 0;
    for i := 0 to |userVotes|
      invariant selectedOptionId == LastVoteFor(userVotes[..i], pollId)
    {
      assert userVotes[..i + 1][..i] == userVotes[..i];
      if userVotes[i].pollId == pollId {
        selectedOptionId := userVotes[i].optionId;
      }
    }
    assert userVotes[..|userVotes|] == userVotes;
  }

  /** `prev.filter(poll => poll.id !== pollId)` */
  function WithoutId(polls: seq<PollData>, pollId: nat): (r: seq<PollData>)
    ensures |r| <= |polls|
    ensures forall k :: 0 <= k < |r| ==> r[k].id != pollId
  {
    if polls == [] then []
    else if polls[0].id == pollId then WithoutId(polls[1..], pollId)
    else [polls[0]] + WithoutId(polls[1..], pollId)
  }

  /** Exactly the polls with another id remain. */
  lemma {:induction false} WithoutIdMembers(polls: seq<PollData>, pollId: nat, p: PollData)
    ensures p in WithoutId(polls, pollId) <==> p in polls && p.id != pollId
  {
    if polls != [] {
      WithoutIdMembers(polls[1..], pollId, p);
      assert polls == [polls[0]] + polls[1..];
    }
  }

  /** Filtering commutes with concatenation, so the polls kept stay in their
      original order. */
  lemma {:induction false} WithoutIdConcat(a: seq<PollData>, b: seq<PollData>, pollId: nat)
    ensures WithoutId(a + b, pollId) == WithoutId(a, pollId) + WithoutId(b, pollId)
  {
    if a != [] {
      WithoutIdConcat(a[1..], b, pollId);
      assert (a + b)[0] == a[0] && (a + b)[1..] == a[1..] + b;
    } else {
      assert a + b == b;
    }
  }

  /** A list with no poll of that id is left as it is. */
  lemma {:induction false} WithoutAbsentId(polls: seq<PollData>, pollId: nat)
    requires forall k :: 0 <= k < |polls| ==> polls[k].id != pollId
    ensures WithoutId(polls, pollId) == polls
  {
    if polls != [] {
      WithoutAbsentId(polls[1..], pollId);
    }
  }

  /** The collection the component keeps. */
  class PollsList {
    var polls: seq<PollData>
    var lastId: nat
    var userVotes: seq<VoteRecord>

    constructor ()
      ensures polls == [] && lastId == 0 && userVotes == []
    {
      polls := [];
      lastId := 0;
      userVotes := [];
    }

    /** The effect over the three reads (None: no data yet or a failed read).
        Fetched polls replace the list whenever they are present, even as an
        empty list; the count only when it is positive; the votes only when
        there is at least one. */
    method Refresh(pollsData: Option<seq<PollData>>, lastIdData: Option<nat>,
                   userVotesData: Option<seq<VoteRecord>>)
      modifies this
      ensures polls == if pollsData.Some? then pollsData.value else old(polls)
      ensures lastId == if lastIdData.Some? && lastIdData.value > 0 then lastIdData.value else old(lastId)
      ensures userVotes == if userVotesData.Some? && |userVotesData.value| > 0 then userVotesData.value
                           else old(userVotes)
      ensures old(lastId) > 0 ==> lastId > 0
      ensures |old(userVotes)| > 0 ==> |userVotes| > 0
    {
      if pollsData.Some? {
        polls := pollsData.value;
      }
      if lastIdData.Some? && lastIdData.value > 0 {
        lastId := lastIdData.value;
      }
      if userVotesData.Some? && |userVotesData.value| > 0 {
        userVotes := userVotesData.value;
      }
    }

    /** `handleNewPoll`: the new poll goes last and its id becomes the last id. */
    method HandleNewPoll(newPoll: PollData)
      modifies this
      ensures polls == old(polls) + [newPoll]
      ensures lastId == newPoll.id && userVotes == old(userVotes)
    {
      polls := polls + [newPoll];
      lastId := newPoll.id;
    }

    /** `handleDeletePoll`: the `deletePoll` write is awaited first; only
        when it succeeds are the polls of that id dropped. The last id and
        the votes never change. */
    method HandleDeletePoll(pollId: nat, outcome: WriteOutcome) returns (request: nat, notice: Notice)
      modifies this
      ensures request == pollId
      ensures polls == if outcome.Success? then WithoutId(old(polls), pollId) else old(polls)
      ensures lastId == old(lastId) && userVotes == old(userVotes)
      ensures notice == if outcome.Success? then ToastSuccess("Poll has been deleted successfully")
                        else ToastError("Failed to delete poll: " + outcome.shortMessage)
    {
      request := pollId;
      match outcome {
        case Success =>
          polls := WithoutId(polls, pollId);
          notice := ToastSuccess("Poll has been deleted successfully");
        case Failure(shortMessage) =>
          notice := ToastError("Failed to delete poll: " + shortMessage);
      }
    }

    /** Mounting the card of `polls[i]`, with its deadline tested against
        `nowMs` and the option the user's votes give it. */
    method RenderPoll(i: nat, nowMs: int) returns (card: PollComponent.Poll)
      requires i < |polls|
      ensures fresh(card) && card.Valid()
      ensures card.id == polls[i].id && card.options == polls[i].options && card.endTime == polls[i].endTime
      ensures !card.showConfirm
      ensures card.selectedOptionId == LastVoteFor(userVotes, polls[i].id)
      ensures card.pollStatus == PollComponent.SettledStatus(polls[i].endTime, nowMs, card.selectedOptionId)
    {
      var poll := polls[i];
      var selectedOptionId := SelectedOptionFor(userVotes, poll.id);
      card := new PollComponent.Poll(poll.id, poll.options, poll.endTime, selectedOptionId, nowMs);
    }
  }

  /** The form wired to the list with `pollLastId={lastId}` and
      `onCreatePoll={handleNewPoll}`: a successful creation appends the
      provisional poll and raises the last id by exactly one; anything else
      leaves the list alone. */
  method CreateThroughForm(list: PollsList, form: CreatePollComponent.CreatePoll,
                           owner: string, nowSeconds: int, outcome: WriteOutcome)
    returns (created: Option<PollData>)
    requires form.Valid()
    modifies list, form
    ensures form.Valid()
    ensures created.Some? ==>
      && list.lastId == old(list.lastId) + 1
      && list.polls == old(list.polls) + [created.value]
      && created.value.id == list.lastId
    ensures created.None? ==> list.polls == old(list.polls) && list.lastId == old(list.lastId)
    ensures list.userVotes == old(list.userVotes)
  {
    var request, notice;
    request, created, notice := form.ConfirmPoll(list.lastId, owner, nowSeconds, outcome);
    if created.Some? {
      list.HandleNewPoll(created.value);
    }
  }

  /** A poll created now for `days` days, mounted again once that many days
      have gone by, settles to 'ended' whatever the user selected. */
  lemma CreatedPollEndsOnTime(pollLastId: nat, owner: string, title: string, options: seq<string>,
                              days: int, nowSeconds: int, laterMs: int, selected: nat)
    requires days > 0 && laterMs >= (nowSeconds + days * 86400) * 1000
    ensures PollComponent.SettledStatus(
      CreatePollComponent.NewPoll(pollLastId, owner, title, options, days, nowSeconds).endTime,
      laterMs, selected) == PollComponent.Ended
  {
  }
}
