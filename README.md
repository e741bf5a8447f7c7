# Poll front end: vote, collection and creation logic

This project models the client-side logic of a polling dApp front end. Polls live in a
smart contract; the front end reads them, lets the user vote on one option per poll,
create polls and delete the polls they own. Three React components hold all the logic
with state worth stating. Each component becomes one Dafny module:

- `PollComponent` (`Poll.tsx`) is one poll card. The class `Poll` holds
  `selectedOptionId`, `isPollLocked`, `showConfirm`, `walletPending` and the status shown
  in the bar. `optionSelectionHandler`, `voteConfirmHandler` and `voteCancelHandler` are
  methods. `Settle` is the component's effect, run until it reaches its fixed point: the
  lock mirrors the selection, and the status is `ended` before `locked` before `active`.
  The module also has the option-button rendering rule and `topVotesOption`, which scans
  an input list of tallies for their first maximum.
- `PollsListComponent` (`PollsList.tsx`) is the collection. The class `PollsList` holds
  `polls`, `lastId` and `userVotes`. Its methods are the refresh effect over the three
  contract reads, `handleNewPoll` and `handleDeletePoll`. Beside the class are the
  "last matching vote pair wins" lookup that gives each mounted poll its starting option,
  and the wiring of the creation form to the list.
- `CreatePollComponent` (`CreatePoll.tsx`) is the creation form. The class `CreatePoll`
  holds the form fields. Adding, removing and editing options keeps at least two of them.
  The module also has the confirm button's enable condition and `confirmPoll`:
  validation, the `createNewPoll` write, the provisional poll, and the reset.
- `JsText` models the two JavaScript built-ins the form relies on: `String.prototype.trim`
  and `parseInt(s, 10)`. `Types` holds the shared records.

Modelling choices:

- Every contract write (`vote`, `createNewPoll`, `deletePoll`) is an abstract
  `WriteOutcome` parameter: `Success`, or `Failure(shortMessage)`. Each handler is one
  atomic step that ends in the state React settles to once its effects have run.
- Time is a parameter. `Poll` receives `nowMs`, an integer standing for `Date.now()` in
  milliseconds, and tests `endTime * 1000 <= nowMs` once, at mount, as the source does.
  `CreatePoll.ConfirmPoll` receives `nowSeconds`, an integer standing for `Date.now() / 1000`.
- Because of the steady state, selecting an option already locks the poll: the effect
  sets `isPollLocked` from `selectedOptionId > 0`. Cancelling, or a failed `vote` write,
  rolls the selection back to 0 and unlocks it.
- Four behaviours of the code are worth stating directly:
  - A refresh replaces the poll list wholesale whenever poll data is present. An empty
    array is truthy in JavaScript, so an empty list also replaces it. Nothing is merged
    by id.
  - No wallet balance is checked before a vote is sent.
  - The confirm button is disabled only when `parseInt(duration, 10)` is a number `<= 0`.
    `NaN <= 0` is false, so a non-blank duration that does not parse (such as `".5"`, which
    a number input can hold) leaves the button enabled, and `confirmPoll` then rejects it
    itself (`UnparsableDurationPassesButton`). A blank duration disables the button
    through the `!duration.trim()` test.
  - If the duration does not validate, `confirmPoll` returns before its `try` block. So
    that path does not reset the form and does not touch `pendingWallet`.

## Model

| member | source | states |
|---|---|---|
| `PollComponent.DeriveStatus` | dapp/app/components/Poll.tsx:29-37 | the status is `Ended` exactly when the poll has ended; `Locked` exactly when it is not ended but locked; `Active` otherwise |
| `PollComponent.IsEndedAt` | dapp/app/components/Poll.tsx:12-18 | `deadlineTimestamp <= Date.now()` with the deadline in seconds and the clock in milliseconds: true exactly when the clock's whole second has reached `endTime` |
| `PollComponent.SettledStatus` | dapp/app/components/Poll.tsx:18-37 | the status the effect settles to from the mount-time test and the selection: `Ended` exactly when `IsEndedAt` holds; before the deadline, `Locked` exactly when an option is selected (cases spelled out by `SettledStatusCases`) |
| `PollComponent.SettledStatusCases` | dapp/app/components/Poll.tsx:12-37 | past the deadline at mount (`endTime*1000 <= now`) the status is `Ended` whatever is selected; before it, `Locked` iff an option is selected, `Active` iff none is |
| `PollComponent.RenderedOptions` | dapp/app/components/Poll.tsx:120-144 | one button per option, with 1-based id `i+1`, its label, and disabled iff the poll is locked; at most one button is selected; one is selected iff the selected id names an option, and then it is the button at index `selectedOptionId-1` |
| `PollComponent.Poll.constructor` | dapp/app/components/Poll.tsx:10-41 | mounting records the mount-time deadline test and the starting option; the lock is set from the selection, the status is the settled one, and the confirmation is closed |
| `PollComponent.Poll.Settle` | dapp/app/components/Poll.tsx:26-41 | the effect's fixed point: lock == (`selectedOptionId > 0`), the status is derived from the deadline test and the lock, nothing else changes |
| `PollComponent.Poll.OptionSelection` | dapp/app/components/Poll.tsx:43-49 | a click on a locked poll's disabled button changes nothing; otherwise the selection becomes `i+1`, the confirmation opens and the poll locks |
| `PollComponent.Poll.VoteConfirm` | dapp/app/components/Poll.tsx:51-69 | `vote` is sent with the poll id and the selected option; success keeps the selection and the lock; failure resets the selection to 0 and unlocks; either way the confirmation closes and `walletPending` ends false |
| `PollComponent.Poll.VoteCancel` | dapp/app/components/Poll.tsx:71-74 | the confirmation closes, the selection returns to 0 and the poll unlocks |
| `PollComponent.Poll.ShownStatus` | dapp/app/components/Poll.tsx:149 | the status handed to the bar is `Ended` for an ended poll; otherwise `Locked` when an option is selected and `Active` when none is |
| `PollComponent.Poll.Options` | dapp/app/components/Poll.tsx:133-138 | the card's option `k` is selected iff `k+1 == selectedOptionId` and disabled iff an option is selected |
| `PollComponent.SelectThenFailRestores` | dapp/app/components/Poll.tsx:43-69 | selecting and then failing the `vote` write returns the card to its exact state before the selection |
| `PollComponent.ConfirmedVoteIsFinal` | dapp/app/components/Poll.tsx:133-138 | after a confirmed vote, a further click leaves the selection, the lock and the status as they were |
| `PollComponent.TopIndex` | dapp/app/components/Poll.tsx:108-118 | the index the scan keeps lies within the part scanned so far |
| `PollComponent.TopIndexIsFirstMaximum` | dapp/app/components/Poll.tsx:111-115 | the kept index has a largest count, and every earlier entry has a strictly smaller count (ties go to the lowest index) |
| `PollComponent.TieGoesToLowestIndex` | dapp/app/components/Poll.tsx:112 | with counts 5, 5, 3 the first option wins |
| `PollComponent.TopVotesOption` | dapp/app/components/Poll.tsx:108-118 | an empty list gives nothing (the source's `undefined`); otherwise the result is an element that is the first maximum |
| `PollsListComponent.LastVoteFor` | dapp/app/components/PollsList.tsx:72-79 | the option of the last pair naming the poll, or 0; a non-zero result is the option of some pair for that poll (its full meaning is `LastVoteForMeaning`) |
| `PollsListComponent.LastVoteForMeaning` | dapp/app/components/PollsList.tsx:72-79 | with no pair for the poll the option is 0; otherwise it is the option of a matching pair that no later pair matches |
| `PollsListComponent.SelectedOptionFor` | dapp/app/components/PollsList.tsx:72-79 | the `forEach` over the user's votes yields the last matching pair's option (`LastVoteFor`) |
| `PollsListComponent.WithoutId` | dapp/app/components/PollsList.tsx:62 | the filter keeps no poll with the deleted id and never lengthens the list (membership and order are `WithoutIdMembers` and `WithoutIdConcat`) |
| `PollsListComponent.WithoutIdMembers` | dapp/app/components/PollsList.tsx:62 | after the filter, a poll is present iff it was present before and has a different id |
| `PollsListComponent.WithoutIdConcat` | dapp/app/components/PollsList.tsx:62 | filtering a concatenation filters each part in place, so the polls kept keep their order |
| `PollsListComponent.WithoutAbsentId` | dapp/app/components/PollsList.tsx:62 | filtering out an id that no poll has leaves the list unchanged |
| `PollsListComponent.PollsList.constructor` | dapp/app/components/PollsList.tsx:23-25 | the list starts with no polls, last id 0 and no votes |
| `PollsListComponent.PollsList.Refresh` | dapp/app/components/PollsList.tsx:36-49 | present poll data replaces the polls, even if empty; the count replaces `lastId` only when it is positive; the votes replace `userVotes` only when non-empty; so a positive `lastId` and non-empty votes are never cleared |
| `PollsListComponent.PollsList.HandleNewPoll` | dapp/app/components/PollsList.tsx:51-54 | the new poll is appended after the unchanged earlier polls; `lastId` becomes its id; the votes are untouched |
| `PollsListComponent.PollsList.HandleDeletePoll` | dapp/app/components/PollsList.tsx:56-69 | `deletePoll` is sent for the id; only on success are the polls with that id removed; on failure the polls are unchanged; `lastId` and the votes never change; the toast says which case happened |
| `PollsListComponent.PollsList.RenderPoll` | dapp/app/components/PollsList.tsx:71-94 | the card mounted for a poll gets its id, its options, its deadline, a closed confirmation, and the option from the user's last matching vote; it has the settled status for its deadline |
| `PollsListComponent.CreateThroughForm` | dapp/app/components/PollsList.tsx:99 | with `pollLastId = lastId` and `onCreatePoll = handleNewPoll`, a created poll is appended and `lastId` rises by exactly 1 to its id; without one the list is unchanged |
| `PollsListComponent.CreatedPollEndsOnTime` | dapp/app/components/CreatePoll.tsx:63-71 | a poll created for `days` days settles to `Ended` when mounted once that many days have passed, whatever is selected |
| `CreatePollComponent.RemoveAt` | dapp/app/components/CreatePoll.tsx:32 | an index inside the list removes exactly that entry and keeps the rest in order; an index outside it removes nothing |
| `CreatePollComponent.ValidatedDays` | dapp/app/components/CreatePoll.tsx:50-54 | the duration `confirmPoll` accepts: exactly the positive results of `parseInt`, each taken as parsed, and only from a field that is not blank |
| `CreatePollComponent.ValidatedDaysMeaning` | dapp/app/components/CreatePoll.tsx:50-54 | every positive day count typed in decimal is accepted as itself |
| `CreatePollComponent.Deadline` | dapp/app/components/CreatePoll.tsx:36-40 | `deadlineInSeconds(days * 60 * 60 * 24)`: the deadline lies a whole number of days after now, and that number is `days` |
| `CreatePollComponent.NewPoll` | dapp/app/components/CreatePoll.tsx:63-72 | the provisional poll has id `pollLastId + 1`, no votes, the form's title and options unchanged, and a deadline exactly `days * 86400` seconds after now |
| `CreatePollComponent.ConfirmEnabled` | dapp/app/components/CreatePoll.tsx:172-178 | the negated `disabled` expression: the button is enabled exactly when the title, every option and the duration are non-blank, the duration does not parse to a number `<= 0`, and no wallet request is pending (consequences for `confirmPoll` in `EnabledMeansFilledIn`) |
| `CreatePollComponent.EnabledMeansFilledIn` | dapp/app/components/CreatePoll.tsx:172-178 | an enabled confirm button means a non-blank title, no blank option, a non-blank duration and no pending wallet request; a duration that parses is then one that `confirmPoll` accepts |
| `CreatePollComponent.UnparsableDurationPassesButton` | dapp/app/components/CreatePoll.tsx:172-178 | a filled-in form whose duration starts with neither space, sign nor digit (such as `".5"`) enables the button, and `confirmPoll` still rejects that duration |
| `CreatePollComponent.CreatePoll.constructor` | dapp/app/components/CreatePoll.tsx:10-14 | the form starts closed, with an empty title, options `["", ""]`, an empty duration and no pending wallet |
| `CreatePollComponent.CreatePoll.OpenModal` | dapp/app/components/CreatePoll.tsx:94 | the modal opens and the fields keep their contents |
| `CreatePollComponent.CreatePoll.SetTitle` | dapp/app/components/CreatePoll.tsx:119 | the title field takes the typed value |
| `CreatePollComponent.CreatePoll.SetDuration` | dapp/app/components/CreatePoll.tsx:163 | the duration field takes the typed value |
| `CreatePollComponent.CreatePoll.HandleOptionChange` | dapp/app/components/CreatePoll.tsx:23-27 | only entry `index` changes, to the value; the length and every other entry stay; at least two options remain |
| `CreatePollComponent.CreatePoll.AddOption` | dapp/app/components/CreatePoll.tsx:29 | exactly one empty entry is appended |
| `CreatePollComponent.CreatePoll.RemoveOption` | dapp/app/components/CreatePoll.tsx:30-34 | with more than two entries, entry `index` is removed; otherwise nothing changes; so at least two options remain |
| `CreatePollComponent.CreatePoll.CloseModal` | dapp/app/components/CreatePoll.tsx:42-47 | the modal closes and the form is reset to `""`, `["", ""]`, `""` |
| `CreatePollComponent.CreatePoll.ConfirmPoll` | dapp/app/components/CreatePoll.tsx:49-86 | an invalid duration raises the alert, sends nothing, creates nothing and changes nothing; otherwise `createNewPoll` is sent with title, options and days; success yields the provisional poll, failure yields none; both clear `pendingWallet` and reset the form |
| `JsText.TrimStart` | dapp/app/components/CreatePoll.tsx:172-178 | the result is a suffix of the input that is empty or starts with a non-space; everything dropped is space |
| `JsText.TrimEnd` | dapp/app/components/CreatePoll.tsx:172-178 | the result is a prefix of the input that is empty or ends with a non-space; everything dropped is space |
| `JsText.Trim` | dapp/app/components/CreatePoll.tsx:173-175 | `s.trim()` is a contiguous piece of `s` that is empty or begins and ends with a non-space (emptiness is `TrimEmptyIffBlank`) |
| `JsText.TrimEmptyIffBlank` | dapp/app/components/CreatePoll.tsx:173-175 | `s.trim()` is empty exactly when `s` is made of white space only |
| `JsText.ParseInt` | dapp/app/components/CreatePoll.tsx:50 | `parseInt(s, 10)` with NaN as `None`: a number comes only from a string holding a digit (read-back and NaN cases are `ParseIntOfDecimal` and `NoDigitIsNaN`) |
| `JsText.ParsedIsNotBlank` | dapp/app/components/CreatePoll.tsx:50 | a string that `parseInt` reads a number from is not blank after trimming |
| `JsText.NoDigitIsNaN` | dapp/app/components/CreatePoll.tsx:50 | a string starting with neither space, sign nor digit parses to NaN |
| `JsText.ParseIntOfDecimal` | dapp/app/components/CreatePoll.tsx:50 | `parseInt` reads every decimal spelling of a natural number back as that number |

## Left out

- PollComponent.RenderedOptions: the source throws when it renders an ended card. On the
  first render `optionObjs` is still the empty array of `Poll.tsx:20`, so reading
  `optionObjs[i].votesCount` at `Poll.tsx:125-126` is a TypeError. The card never commits,
  and the effect never sets `'ended'`. Even past that, `Poll.tsx:181` reads
  `topOption.label` from the `undefined` that `topVotesOption` returns for an empty list.
  The model's `Ended` card, its buttons and its status (`ShownStatus`, `RenderPoll`,
  `CreatedPollEndsOnTime`) are the intended steady state, not what the code renders.
- PollComponent.Poll.constructor: the starting option is read once, at mount
  (`useState(selectedOption)`, `Poll.tsx:14`). A mounted card keeps its state across
  re-renders, so user votes fetched after the polls never reach it. The model mounts each
  card once, through `RenderPoll`, and does not model later prop changes.

- Remote tally fetching (`getOptionVotes`, `Poll.tsx:92-106`) is not modelled. It calls a
  read hook inside a loop and inside an async function. Its `typeof votesCount === 'integer'`
  test is never true. `TopVotesOption` takes the tallies as an input list instead, and the
  per-option vote counts shown after the deadline are not modelled.
- `deletionHandler` and `deletionCancel` (`Poll.tsx:76-90`) are not modelled. They call an
  undefined `SetwalletPending` and do not await `onDeletion`. Deletion is modelled at
  `PollsList.HandleDeletePoll`.
- The intermediate `walletPending == true` state during an awaited write is not modelled, and
  so neither are the confirm-modal buttons it disables. Handlers are atomic steps, so the
  pending flag is false before and after each one.
- Async interleaving of refreshes and writes, and React's effect and render scheduling, are
  not modelled. Each handler and each refresh is one atomic step.
- Wallet and session handling is not modelled. The connected address is the `owner`
  parameter. Balances are not modelled.
- Toast rendering, `console.error` and `document.body.style.overflow` scroll locking
  (`Poll.tsx:39`, `CreatePoll.tsx:18-21`) are not modelled. Only the text of each notice is
  returned.
- The `isOpen` toggle, the delete button's visibility (`owner === address`) and the
  presentation components (`PollBar.tsx`, `Option.tsx`, `ConfirmModal.tsx`,
  `VotingSystem.tsx`, `Account.tsx`, `page.tsx`) are not modelled. The only rules taken from
  `Option.tsx` and `ConfirmModal.tsx` are that a disabled option cannot be clicked and that
  the vote handlers are reached only through the open confirmation.
- Floating-point time is not modelled. `Date.now() / 1000` is an integer `nowSeconds`, and
  `parseInt` results above 2^53 are exact integers here.
- `parseInt` is modelled for radix 10 only, with the ECMAScript white-space set.
- The duration field accepts any string in the model. The field is a
  `type="number"` input (`CreatePoll.tsx:160`), and the browser's sanitising of such an
  input's value is not modelled.
- `contracts.ts` and `contractOperations.ts` are not modelled. They are static ABI data and
  thin wrappers over wagmi hooks; their `uint32` argument encoding is inside the abstract
  write outcome.
- `CreatePollBtn.tsx` is not modelled. It is dead code that imports modules that do not
  exist.
