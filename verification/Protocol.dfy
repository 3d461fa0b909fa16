/** The decoded wire messages and the shared constants (packages/protocol). */
module Protocol {
  import opened Wrappers

  type SessionId = string
  type ParticipantId = string

  const PATCH_SETTLE_WINDOW_MS: int := 750
  const BACKPRESSURE_BYTES: int := 64 * 1024
  const RECONNECT_MAX_BACKOFF_MS: int := 10000

  /** An (x, y) pair; cursor and scroll values are carried, never computed with. */
  datatype Point = Point(x: real, y: real)

  /** The two presence fields every participant has. */
  datatype Field = CursorField | ScrollField

  datatype ParticipantSnapshot = ParticipantSnapshot(
    pid: ParticipantId, color: string, lastSeenAt: int, cursor: Option<Point>, scroll: Option<Point>)
  {
    function Get(f: Field): Option<Point> { if f.CursorField? then cursor else scroll }
  }

  datatype ParticipantPatch = ParticipantPatch(
    pid: ParticipantId, cursor: Option<Point>, scroll: Option<Point>)
  {
    function Get(f: Field): Option<Point> { if f.CursorField? then cursor else scroll }
  }

  /** Server to client. */
  datatype OutboundMessage =
    | Welcome(participants: seq<ParticipantSnapshot>)
    | Snapshot(participants: seq<ParticipantSnapshot>)
    | Join(participant: ParticipantSnapshot)
    | Leave(pid: ParticipantId)
    | Patch(seqno: int, patches: seq<ParticipantPatch>)
    | Pong(pingTs: int)
    | AuditAck(eventId: string)
    | ErrorFrame(code: string)

  datatype AuditKind = SessionStart | SessionEnd | ParticipantJoin | ParticipantLeave | VisibilityChange

  /** Client to server. */
  datatype InboundMessage =
    | Hello(pid: ParticipantId, seqno: int, ts: int)
    | Cursor(pid: ParticipantId, seqno: int, point: Point)
    | Scroll(pid: ParticipantId, seqno: int, point: Point)
    | Ack(pid: ParticipantId, seqno: int)
    | Ping(pid: ParticipantId, seqno: int, ts: int)
    | Bye(pid: ParticipantId, seqno: int)
    | Audit(pid: ParticipantId, seqno: int, kind: AuditKind, eventId: string)

  datatype MessageType =
    | HelloType | CursorType | ScrollType | AckType | PingType | ByeType | AuditType(kind: AuditKind)

  function TypeOf(m: InboundMessage): MessageType {
    match m
    case Hello(_, _, _) => HelloType
    case Cursor(_, _, _) => CursorType
    case Scroll(_, _, _) => ScrollType
    case Ack(_, _) => AckType
    case Ping(_, _, _) => PingType
    case Bye(_, _) => ByeType
    case Audit(_, _, k, _) => AuditType(k)
  }

  datatype MessageClass = Lossy | Lossless | Control | AuditClass

  /** The inbound half of the classification table. */
  function Classify(t: MessageType): MessageClass {
    match t
    case CursorType => Lossy
    case ScrollType => Lossy
    case HelloType => Lossless
    case ByeType => Lossless
    case PingType => Control
    case AckType => Control
    case AuditType(_) => AuditClass
  }
}
