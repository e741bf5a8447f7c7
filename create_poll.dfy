/** The poll-creation form (`CreatePoll.tsx`): the editable option list that
    never drops below two entries, the confirm button's enable condition, and
    `confirmPoll`, which validates the duration, sends `createNewPoll`, builds
    the provisional poll on success and resets the form in every case. */
module CreatePollComponent {
  import opened Types
  import opened JsText

  /** `60 * 60 * 24` */
  const SecondsPerDay: int := 86400

  /** The arguments of the `createNewPoll` write: title, options, days. */
  datatype CreateRequest = CreateRequest(title: string, options: seq<string>, durationDays: int)

  /** `options.filter((_, i) => i !== index)`: an index outside the list
      removes nothing. */
  function RemoveAt(s: seq<string>, index: int): (r: seq<string>)
    ensures 0 <= index < |s| ==> |r| == |s| - 1
    ensures 0 <= index < |s| ==> forall k :: 0 <= k < index ==> r[k] == s[k]
    ensures 0 <= index < |s| ==> forall k :: index <= k < |r| ==> r[k] == s[k + 1]
    ensures !(0 <= index < |s|) ==> r == s
  {
    if 0 <= index < |s| then s[..index] + s[index + 1..] else s
  }

  /** The number of days `confirmPoll` accepts: `parseInt(duration, 10)`
      unless that is NaN or not positive. An accepted duration is a positive
      number read from a field that is not blank, and every positive parse is
      accepted. */
  function ValidatedDays(duration: string): (days: Option<int>)
    ensures days.Some? ==> days.value > 0 && days == ParseInt(duration) && !IsBlank(duration)
    ensures ParseInt(duration).Some? && ParseInt(duration).value > 0 ==> days.Some?
  {
    match ParseInt(duration)
    case Some(n) =>
      ParsedIsNotBlank(duration);
      TrimEmptyIffBlank(duration);
      if n > 0 then Some(n) else None
    case None => None
  }

  /** Every positive day count typed in decimal is accepted as itself. */
  lemma ValidatedDaysMeaning(n: nat)
    ensures n > 0 ==> ValidatedDays(DecimalString(n)) == Some(n)
  {
    ParseIntOfDecimal(n);
  }

  /** `deadlineInSeconds(days * 60 * 60 * 24)` with the clock passed in: the
      deadline lies a whole number of days after now, and that number is
      `days`. */
  function Deadline(nowSeconds: int, days: int): (d: int)
    ensures (d - nowSeconds) % SecondsPerDay == 0 && (d - nowSeconds) / SecondsPerDay == days
  {
    nowSeconds + days * SecondsPerDay
  }

  /** The poll handed to `onCreatePoll` after a successful write. */
  function NewPoll(pollLastId: nat, owner: string, title: string, options: seq<string>,
                   days: int, nowSeconds: int): (p: PollData)
    ensures p.id == pollLastId + 1 && p.votesCount == 0 && p.owner == owner
    ensures p.title == title && p.options == options
    ensures p.endTime - nowSeconds == days * 86400
    ensures days > 0 ==> p.endTime > nowSeconds
  {
    PollData(owner, 0, pollLastId + 1, Deadline(nowSeconds, days), title, options)
  }

  /** The confirm button's `disabled` expression, negated: the button is
      enabled exactly when the title, every option and the duration hold a
      non-space character, the duration does not parse to a number that is
      not positive, and no wallet request is pending. */
  function ConfirmEnabled(title: string, options: seq<string>, duration: string, pendingWallet: bool): (enabled: bool)
    ensures enabled <==>
      && !IsBlank(title)
      && (forall k :: 0 <= k < |options| ==> !IsBlank(options[k]))
      && !IsBlank(duration)
      && (ParseInt(duration).None? || ParseInt(duration).value > 0)
      && !pendingWallet
  {
    TrimEmptyIffBlank(title);
    TrimEmptyIffBlank(duration);
    SomeTrimEmptyIffSomeBlank(options);
    !(|| Trim(title) == []
      || (exists k :: 0 <= k < |options| && Trim(options[k]) == [])
      || Trim(duration) == []
      || (ParseInt(duration).Some? && ParseInt(duration).value <= 0)
      || pendingWallet)
  }

  /** An enabled button means a non-blank title, options and duration and no
      pending wallet request; a duration that then parses is one that
      `confirmPoll` accepts as parsed, so it sends the write. */
  lemma EnabledMeansFilledIn(title: string, options: seq<string>, duration: string, pendingWallet: bool)
    requires ConfirmEnabled(title, options, duration, pendingWallet)
    ensures !IsBlank(title)
    ensures forall k :: 0 <= k < |options| ==> !IsBlank(options[k])
    ensures !IsBlank(duration)
    ensures !pendingWallet
    ensures ParseInt(duration).Some? ==> ValidatedDays(duration) == ParseInt(duration)
  {
  }

  /** The button does not test that the duration parses (NaN <= 0 is false):
      with a filled-in title and options, a duration such as ".5" (a value a
      number input can hold) that starts with neither space, sign nor digit
      leaves it enabled, and it is
      `confirmPoll`'s own check that turns the request away. */
  lemma UnparsableDurationPassesButton(title: string, options: seq<string>, duration: string)
    requires !IsBlank(title) && forall k :: 0 <= k < |options| ==> !IsBlank(options[k])
    requires |duration| > 0 && !IsWhiteSpace(duration[0]) && !IsDigit(duration[0])
    requires duration[0] != '-' && duration[0] != '+'
    ensures ConfirmEnabled(title, options, duration, false)
    ensures ValidatedDays(duration) == None
  {
    NoDigitIsNaN(duration);
  }

  /** The form's fields. */
  class CreatePoll {
    var showModal: bool
    var title: string
    var options: seq<string>
    var duration: string
    var pendingWallet: bool

    /** The option list never has fewer than two entries. */
    ghost predicate Valid()
      reads this
    {
      |options| >= 2
    }

    constructor ()
      ensures Valid()
      ensures !showModal && title == "" && options == ["", ""] && duration == "" && !pendingWallet
    {
      showModal := false;
      title := "";
      options := ["", ""];
      duration := "";
      pendingWallet := false;
    }

    /** The "Create Poll" button. */
    method OpenModal()
      requires Valid()
      modifies this
      ensures Valid() && showModal
      ensures title == old(title) && options == old(options) && duration == old(duration)
      ensures pendingWallet == old(pendingWallet)
    {
      showModal := true;
    }

    /** The title input's `onChange`. */
    method SetTitle(value: string)
      requires Valid()
      modifies this`title
      ensures Valid() && title == value
    {
      title := value;
    }

    /** The duration input's `onChange`. */
    method SetDuration(value: string)
      requires Valid()
      modifies this`duration
      ensures Valid() && duration == value
    {
      duration := value;
    }

    /** `handleOptionChange`, called by the input of option `index`: that
        entry becomes `value`, nothing else moves. */
    method HandleOptionChange(index: nat, value: string)
      requires Valid() && index < |options|
      modifies this`options
      ensures Valid()
      ensures |options| == |old(options)| && options[index] == value
      ensures forall k :: 0 <= k < |options| && k != index ==> options[k] == old(options)[k]
    {
      var updated := options;
      updated := updated[index := value];
      options := updated;
    }

    /** `addOption`: one empty entry at the end. */
    method AddOption()
      requires Valid()
      modifies this`options
      ensures Valid()
      ensures options == old(options) + [""]
    {
      options := options + [""];
    }

    /** `removeOption`: only when more than two entries are left. */
    method RemoveOption(index: int)
      requires Valid()
      modifies this`options
      ensures Valid()
      ensures options == if |old(options)| > 2 then RemoveAt(old(options), index) else old(options)
    {
      if |options| > 2 {
        options := RemoveAt(options, index);
      }
    }

    /** `closeModal`: the modal hides and the form is emptied. */
    method CloseModal()
      modifies this
      ensures Valid()
      ensures !showModal && title == "" && options == ["", ""] && duration == ""
      ensures pendingWallet == old(pendingWallet)
    {
      showModal := false;
      title := "";
      options := ["", ""];
      duration := "";
    }

    /** `confirmPoll`. A duration that does not parse to a positive number
        raises an alert and leaves everything as it was, with no write.
        Otherwise `createNewPoll` is sent with the form's title, options and
        day count; a successful write yields the provisional poll for
        `onCreatePoll`, a failed one yields none; in both cases the wallet is
        no longer pending and the form is closed and emptied. */
    method ConfirmPoll(pollLastId: nat, owner: string, nowSeconds: int, outcome: WriteOutcome)
      returns (request: Option<CreateRequest>, created: Option<PollData>, notice: Notice)
      requires Valid()
      modifies this
      ensures Valid()
      ensures ValidatedDays(old(duration)).None? ==>
        && request == None && created == None
        && notice == Alert("Please enter a valid duration.")
        && unchanged(this)
      ensures ValidatedDays(old(duration)).Some? ==>
        && request == Some(CreateRequest(old(title), old(options), ValidatedDays(old(duration)).value))
        && !pendingWallet && !showModal
        && title == "" && options == ["", ""] && duration == ""
      ensures ValidatedDays(old(duration)).Some? && outcome.Success? ==>
        && created == Some(NewPoll(pollLastId, owner, old(title), old(options),
                                   ValidatedDays(old(duration)).value, nowSeconds))
        && notice == ToastSuccess("Poll has been created successfully")
      ensures ValidatedDays(old(duration)).Some? && outcome.Failure? ==>
        && created == None
        && notice == ToastError("Failed to create the poll: " + outcome.shortMessage)
    {
      var numberOfDays := ParseInt(duration);
      if numberOfDays.None? || numberOfDays.value <= 0 {
        return None, None, Alert("Please enter a valid duration.");
      }
      pendingWallet := true;
      request := Some(CreateRequest(title, options, numberOfDays.value));
      match outcome {
        case Success =>
          var durationInSeconds := numberOfDays.value * 60 * 60 * 24;
          created := Some(PollData(owner, 0, pollLastId + 1, nowSeconds + durationInSeconds, title, options));
          notice := ToastSuccess("Poll has been created successfully");
        case Failure(shortMessage) =>
          created := None;
          notice := ToastError("Failed to create the poll: " + shortMessage);
      }
      pendingWallet := false;
      CloseModal();
    }
  }
}
