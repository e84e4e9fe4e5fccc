/** The message vocabulary shared by every actor (src/socket.rs). */
module Wire {

  datatype Option<+T> = None | Some(value: T)

  type Byte = b: nat | b < 256

  // The two status codes the crate itself sends, section 7.4.1 of RFC 6455.
  const AWAY: nat := 1001
  const ABNORMAL: nat := 1006

  datatype CloseFrame = CloseFrame(code: nat, reason: string)

  const SERVER_GOING_DOWN := CloseFrame(AWAY, "server shutting down")
  const PARTNER_INACTIVE := CloseFrame(ABNORMAL, "remote partner is inactive")

  datatype Message =
    | Text(text: string)
    | Binary(bytes: seq<Byte>)
    | Close(frame: Option<CloseFrame>)

  datatype RawMessage =
    | RawText(text: string)
    | RawBinary(bytes: seq<Byte>)
    | Ping(bytes: seq<Byte>)
    | Pong(bytes: seq<Byte>)
    | RawClose(frame: Option<CloseFrame>)

  /** What the network stream yields: a frame or a transport error. */
  datatype NetItem = Good(raw: RawMessage) | Bad(error: nat)

  /** What the stream actor puts on the channel to its reader. */
  datatype Inbound = Delivered(message: Message) | Broken(error: nat)

  function ToRaw(m: Message): RawMessage {
    match m
    case Text(t) => RawText(t)
    case Binary(b) => RawBinary(b)
    case Close(f) => RawClose(f)
  }
}
