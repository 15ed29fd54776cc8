/** What the sessions, the pool, the coordinator and the gate all speak of. */
module Vocabulary {
  const FRAME_BYTES := 3 * 1024 * 1024
  const WIRE_BYTES := 512 * 1024 * 1024
  const TURNS := 16
  const CALLS := 128
  const IMAGE_FRAMES := 24
  const IMAGE_BYTES := 12 * 1024 * 1024

  datatype Purpose = Conversation | HistoryAnalysis | CommunityAssessment

  /** Why a session closed. */
  datatype Code = Closed | EpochLimit | TurnLimit | InputRefused | ProtocolRefused
                | IoUnknown | NativeUnknown | ReleaseUnknown | InternalUnknown

  /** What became of an answer when its turn is released. */
  datatype Delivery = Verified | NotSent | UnknownDelivery
}
