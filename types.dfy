/** Values shared by the three components: the poll record read from the
    contract, the user's vote pairs, the outcome of an awaited contract write
    and the notice shown to the user afterwards. */
module Types {

  datatype Option<T> = None | Some(value: T)

  /** How an awaited `writeContractAsync` call ended: it resolved, or it threw
      an error whose `shortMessage` is carried along. */
  datatype WriteOutcome = Success | Failure(shortMessage: string)

  /** A poll as `getActivePolls` returns it (the contract's `struct Poll`).
      `endTime` is in seconds since the epoch. */
  datatype PollData = PollData(
    owner: string,
    votesCount: nat,
    id: nat,
    endTime: int,
    title: string,
    options: seq<string>)

  /** One `uint32[2]` entry of `getUserVotes`: a poll id and the 1-based
      option the user voted for. */
  datatype VoteRecord = VoteRecord(pollId: nat, optionId: nat)

  /** What the user is told: a blocking `alert`, or a success or error toast. */
  datatype Notice = Alert(text: string) | ToastSuccess(text: string) | ToastError(text: string)
}
