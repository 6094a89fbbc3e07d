/** The records the raffle application reads from and writes to its store
    (lib/types.ts). Only the fields the draw and registration logic look at
    are kept; display-only fields (titles, prize type labels, timestamps of
    creation) are dropped. */
module RaffleTypes {

  datatype Option<+T> = None | Some(value: T)

  /** The lifecycle state of a raffle. */
  datatype RaffleStatus = Upcoming | Live | Completed

  datatype Raffle = Raffle(id: string, status: RaffleStatus)

  /** A prize of a raffle: `quantity` units were created, `remaining` are still
      to be drawn. Both are plain numbers in the store; nothing in the
      record itself keeps `remaining` non-negative. */
  datatype Prize = Prize(id: string, name: string, value: real, quantity: int, remaining: int)

  datatype Participant = Participant(id: string, name: string, email: string, entryCode: string)

  /** A winner row as returned by a select that joins its participant and its
      prize; either relation may come back empty. */
  datatype WinnerRecord = WinnerRecord(
    id: string,
    raffleId: string,
    participantId: string,
    prizeId: string,
    participant: Option<Participant>,
    prize: Option<Prize>)
}
