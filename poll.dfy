/** One poll card (`Poll.tsx`): the vote state machine of a single poll, the
    status shown in its bar, the rendering rule for its option buttons and the
    top-option scan over the option tallies. */
module PollComponent {
  import opened Types

  /** The `pollStatus` strings 'active', 'locked' and 'ended'. */
  datatype Status = Active | Locked | Ended

  /** The status the effect assigns: the deadline is tested before the lock. */
  function DeriveStatus(ended: bool, locked: bool): (s: Status)
    ensures s == Ended <==> ended
    ensures s == Locked <==> !ended && locked
    ensures s == Active <==> !ended && !locked
  {
    if ended then Ended else if locked then Locked else Active
  }

  /** The mount-time deadline test: `endTime` is in seconds, `nowMs` is
      `Date.now()` in milliseconds, so the poll has ended once the clock's
      whole second has reached the deadline. */
  function IsEndedAt(endTime: int, nowMs: int): (ended: bool)
    ensures ended <==> endTime <= nowMs / 1000
  {
    endTime * 1000 <= nowMs
  }

  /** The status a poll settles to, given its deadline, the mount time and
      its selected option. */
  function SettledStatus(endTime: int, nowMs: int, selectedOptionId: nat): (s: Status)
    ensures s == Ended <==> IsEndedAt(endTime, nowMs)
    ensures s != Ended ==> (s == Locked <==> selectedOptionId > 0)
  {
    DeriveStatus(IsEndedAt(endTime, nowMs), selectedOptionId > 0)
  }

  /** A poll past its deadline at mount settles to 'ended' whatever is selected;
      before it, 'locked' exactly when an option is selected. */
  lemma SettledStatusCases(endTime: int, nowMs: int, selectedOptionId: nat)
    ensures endTime * 1000 <= nowMs ==> SettledStatus(endTime, nowMs, selectedOptionId) == Ended
    ensures nowMs < endTime * 1000 ==>
      (SettledStatus(endTime, nowMs, selectedOptionId) == Locked <==> selectedOptionId > 0)
    ensures nowMs < endTime * 1000 ==>
      (SettledStatus(endTime, nowMs, selectedOptionId) == Active <==> selectedOptionId == 0)
  {
  }

  /** What one `<Option>` element is given. */
  datatype OptionButton = OptionButton(id: nat, text: string, selected: bool, disabled: bool)

  /** `options.map(...)`: option `i` gets the 1-based id `i+1`, is drawn as
      selected when that id is the selected one, and is disabled while the
      poll is locked. At most one button is selected, and one is exactly when
      the selected id names an option. */
  function RenderedOptions(options: seq<string>, selectedOptionId: nat, locked: bool): (r: seq<OptionButton>)
    ensures |r| == |options|
    ensures forall i :: 0 <= i < |r| ==> r[i].id == i + 1 && r[i].text == options[i] && r[i].disabled == locked
    ensures forall i, j :: 0 <= i < |r| && 0 <= j < |r| && r[i].selected && r[j].selected ==> i == j
    ensures (exists i :: 0 <= i < |r| && r[i].selected) <==> 1 <= selectedOptionId <= |options|
    ensures 1 <= selectedOptionId <= |options| ==> r[selectedOptionId - 1].selected
  {
    var r := seq(|options|, i requires 0 <= i < |options| =>
      OptionButton(i + 1, options[i], i + 1 == selectedOptionId, locked));
    assert 1 <= selectedOptionId <= |options| ==> r[selectedOptionId - 1].selected;
    r
  }

  /** The per-poll component state. `isPollEnded` is computed once at mount
      and never set again. */
  class Poll {
    const id: nat
    const options: seq<string>
    const endTime: int
    const isPollEnded: bool
    var selectedOptionId: nat
    var isPollLocked: bool
    var showConfirm: bool
    var walletPending: bool
    var pollStatus: Status

    /** The steady state reached once the effect has run: the lock mirrors
        the selection, the status is derived from the deadline and the lock,
        the confirmation is only open over a chosen option, and no wallet
        request is left pending between handlers. */
    ghost predicate Valid()
      reads this
    {
      && isPollLocked == (selectedOptionId > 0)
      && pollStatus == DeriveStatus(isPollEnded, isPollLocked)
      && (showConfirm ==> selectedOptionId > 0)
      && !walletPending
    }

    /** Mounting the card with the option found in the user's votes. */
    constructor (id: nat, options: seq<string>, endTime: int, selectedOption: nat, nowMs: int)
      ensures Valid()
      ensures this.id == id && this.options == options && this.endTime == endTime
      ensures isPollEnded == IsEndedAt(endTime, nowMs)
      ensures selectedOptionId == selectedOption && !showConfirm
      ensures pollStatus == SettledStatus(endTime, nowMs, selectedOption)
    {
      this.id := id;
      this.options := options;
      this.endTime := endTime;
      isPollEnded := endTime * 1000 <= nowMs;
      selectedOptionId := selectedOption;
      showConfirm := false;
      isPollLocked := false;
      walletPending := false;
      pollStatus := Active;
      new;
      Settle();
    }

    /** The effect, run until nothing it depends on changes any more. */
    method Settle()
      modifies this
      ensures isPollLocked == (selectedOptionId > 0)
      ensures pollStatus == DeriveStatus(isPollEnded, isPollLocked)
      ensures selectedOptionId == old(selectedOptionId)
      ensures showConfirm == old(showConfirm) && walletPending == old(walletPending)
    {
      isPollLocked := selectedOptionId > 0;
      pollStatus := if isPollEnded then Ended else if isPollLocked then Locked else Active;
    }

    /** A click on the option button at index `i`. The button is disabled
        while the poll is locked, so a click then changes nothing; otherwise
        `optionSelectionHandler(i+1)` opens the confirmation over that option,
        and the effect locks the poll behind it. */
    method OptionSelection(i: nat)
      requires Valid() && i < |options|
      modifies this
      ensures Valid()
      ensures old(isPollLocked) ==> unchanged(this)
      ensures !old(isPollLocked) ==>
        selectedOptionId == i + 1 && showConfirm && pollStatus == DeriveStatus(isPollEnded, true)
    {
      if !isPollLocked {
        showConfirm := true;
        selectedOptionId := i + 1;
        Settle();
      }
    }

    /** `voteConfirmHandler`, reached from the open confirmation: the `vote`
        write is sent for the selected option; on success the poll stays
        locked on it, on failure the selection is rolled back to 0 and the
        poll unlocked. Either way the confirmation closes and the wallet is
        no longer pending. */
    method VoteConfirm(outcome: WriteOutcome) returns (request: VoteRecord)
      requires Valid() && showConfirm
      modifies this
      ensures Valid()
      ensures request == VoteRecord(id, old(selectedOptionId))
      ensures !showConfirm && !walletPending
      ensures outcome.Success? ==> selectedOptionId == old(selectedOptionId) && isPollLocked
      ensures outcome.Failure? ==> selectedOptionId == 0 && !isPollLocked
      ensures pollStatus == DeriveStatus(isPollEnded, outcome.Success?)
    {
      walletPending := true;
      request := VoteRecord(id, selectedOptionId);
      match outcome {
        case Success =>
          isPollLocked := true;
        case Failure(_) =>
          isPollLocked := false;
          selectedOptionId := 0;
          walletPending := false;
      }
      showConfirm := false;
      walletPending := false;
      Settle();
    }

    /** `voteCancelHandler`: the confirmation closes and the selection goes
        back to 0, which unlocks the poll. */
    method VoteCancel()
      requires Valid() && showConfirm
      modifies this
      ensures Valid()
      ensures !showConfirm && selectedOptionId == 0 && !isPollLocked
      ensures pollStatus == DeriveStatus(isPollEnded, false)
    {
      showConfirm := false;
      selectedOptionId := 0;
      Settle();
    }

    /** The status bar's input. */
    function ShownStatus(): (s: Status)
      reads this
      requires Valid()
      ensures isPollEnded ==> s == Ended
      ensures !isPollEnded && selectedOptionId > 0 ==> s == Locked
      ensures !isPollEnded && selectedOptionId == 0 ==> s == Active
    {
      pollStatus
    }

    /** The option buttons of this card. */
    function Options(): (r: seq<OptionButton>)
      reads this
      requires Valid()
      ensures |r| == |options|
      ensures forall k :: 0 <= k < |r| ==> (r[k].selected <==> k + 1 == selectedOptionId)
      ensures forall k :: 0 <= k < |r| ==> (r[k].disabled <==> selectedOptionId > 0)
    {
      RenderedOptions(options, selectedOptionId, isPollLocked)
    }
  }

  /** Selecting an option on an unlocked poll and then seeing the `vote`
      write fail brings the poll back to exactly the state it had before the
      selection. */
  method SelectThenFailRestores(p: Poll, i: nat, message: string)
    requires p.Valid() && !p.isPollLocked && !p.showConfirm && i < |p.options|
    modifies p
    ensures p.Valid()
    ensures p.selectedOptionId == old(p.selectedOptionId) == 0
    ensures p.isPollLocked == old(p.isPollLocked) && p.showConfirm == old(p.showConfirm)
    ensures p.walletPending == old(p.walletPending) && p.pollStatus == old(p.pollStatus)
  {
    p.OptionSelection(i);
    var _ := p.VoteConfirm(Failure(message));
  }

  /** Once a vote has been confirmed, no further click on an option changes
      anything: the vote cast is final for the life of the card. */
  method ConfirmedVoteIsFinal(p: Poll, i: nat, j: nat)
    requires p.Valid() && !p.isPollLocked && !p.showConfirm && i < |p.options| && j < |p.options|
    modifies p
    ensures p.Valid()
    ensures p.selectedOptionId == i + 1 && p.isPollLocked && !p.showConfirm
    ensures p.pollStatus == DeriveStatus(p.isPollEnded, true)
  {
    p.OptionSelection(i);
    var _ := p.VoteConfirm(Success);
    p.OptionSelection(j);
  }

  /** The `{label, id, votesCount}` (the label kept as `text`) objects the top-option scan runs over. */
  datatype OptionVotes = OptionVotes(text: string, id: nat, votesCount: int)

  /** Index of the option kept by a left-to-right scan of `objs[..n]` that
      replaces its current choice only on a strictly greater count. */
  function TopIndex(objs: seq<OptionVotes>, n: nat): (t: nat)
    requires 0 < n <= |objs|
    ensures t < n
  {
    if n == 1 then 0
    else
      var t := TopIndex(objs, n - 1);
      if objs[n - 1].votesCount > objs[t].votesCount then n - 1 else t
  }

  /** `k` holds a largest count of `objs`, and every earlier entry has a
      strictly smaller one. */
  ghost predicate IsFirstMaximum(objs: seq<OptionVotes>, k: nat)
  {
    && k < |objs|
    && (forall j :: 0 <= j < |objs| ==> objs[j].votesCount <= objs[k].votesCount)
    && (forall j :: 0 <= j < k ==> objs[j].votesCount < objs[k].votesCount)
  }

  /** The scan keeps the first of the maximal entries. */
  lemma {:induction false} TopIndexIsFirstMaximum(objs: seq<OptionVotes>, n: nat)
    requires 0 < n <= |objs|
    ensures IsFirstMaximum(objs[..n], TopIndex(objs, n))
  {
    if n > 1 {
      TopIndexIsFirstMaximum(objs, n - 1);
      assert objs[..n - 1] == objs[..n][..n - 1];
    }
  }

  /** With counts 5, 5 and 3 the first of the two fives wins. */
  lemma TieGoesToLowestIndex(a: string, b: string, c: string)
    ensures TopIndex([OptionVotes(a, 1, 5), OptionVotes(b, 2, 5), OptionVotes(c, 3, 3)], 3) == 0
  {
  }

  /** `topVotesOption`: the first option with a largest count, or nothing
      (JavaScript's `undefined`) for an empty list. */
  method TopVotesOption(optionObjs: seq<OptionVotes>) returns (top: Option<OptionVotes>)
    ensures top.None? <==> optionObjs == []
    ensures top.Some? ==> exists k :: 0 <= k < |optionObjs| && IsFirstMaximum(optionObjs, k) && optionObjs[k] == top.value
  {
    if optionObjs == [] {
      return None;
    }
    var topOptionObj := optionObjs[0];
    for i := 1 to |optionObjs|
      invariant topOptionObj == optionObjs[TopIndex(optionObjs, i)]
    {
      if optionObjs[i].votesCount > topOptionObj.votesCount {
        topOptionObj := optionObjs[i];
      }
    }
    TopIndexIsFirstMaximum(optionObjs, |optionObjs|);
    assert optionObjs[..|optionObjs|] == optionObjs;
    top := Some(topOptionObj);
  }
}
