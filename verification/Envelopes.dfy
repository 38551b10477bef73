/** Chat messages as they travel between the services, and small shared datatypes. */
module Envelopes {

  datatype Option<+T> = None | Some(value: T)

  /** `contracts/events`: zero `messageId` and `roomSeq` mean not numbered yet. */
  datatype Envelope = Envelope(
    messageId: int, roomSeq: int, roomId: int, senderId: int,
    clientId: string, kind: int, content: string, createdAt: int)

  datatype RequestKey = RequestKey(sender: int, client: string)

  const TWO_64: int := 0x1_0000_0000_0000_0000

  function Flatten<T>(parts: seq<seq<T>>): seq<T> {
    if |parts| == 0 then [] else Flatten(parts[..|parts| - 1]) + parts[|parts| - 1]
  }

  /** The largest room number that a sorted-set score holds exactly. */
  const MAX_SCORE: int := 0x20_0000_0000_0000

  function KeyOf(e: Envelope): RequestKey {
    RequestKey(e.senderId, e.clientId)
  }
}
