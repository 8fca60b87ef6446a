/** The frames exchanged over the dashboard's WebSocket. */
module Protocol {
  import opened Wrappers
  import opened Hud

  /** A connected client; two sockets are the same connection exactly when they are equal. */
  datatype Socket = Socket(id: nat)

  /** Frames the server sends, each a JSON object with a `type` field. */
  datatype Frame =
    | StateFrame(data: HudState)
    | UserLine(text: string)
    | ClearCenter
    | BotReply(text: string)

  /** One frame that reached one client. */
  datatype Delivery = Delivery(to: Socket, frame: Frame)

  /** A frame a client sent: its `type` and `text` fields, either of which may be missing. */
  datatype Inbound = Inbound(kind: Option<string>, text: Option<string>)

  const UserMessageKind := "user_message"
  const RequestStateKind := "request_state"

  /** The deliveries of one frame to each of `sockets`, in order. */
  function Fanout(f: Frame, sockets: seq<Socket>): (r: seq<Delivery>)
    ensures |r| == |sockets|
    ensures forall i :: 0 <= i < |r| ==> r[i] == Delivery(sockets[i], f)
  {
    if sockets == [] then [] else [Delivery(sockets[0], f)] + Fanout(f, sockets[1..])
  }
}
