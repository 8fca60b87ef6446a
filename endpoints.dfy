/**
 * The server's entry points: the WebSocket frame dispatch, the state
 * update endpoint and the bot reply endpoint, over the single dashboard
 * state, the controller and the connection registry.
 */
module Endpoints {
  import opened Wrappers
  import opened Text
  import opened Hud
  import opened Conversation
  import opened Protocol
  import opened Connections
  import opened Intents

  /** The controller's reply to a submitted line, given the dashboard state at that moment. */
  type Responder = (string, HudState) -> string

  /** A frame the server wants to send: to every registered client, or back to the client that asked. */
  datatype Outbound = ToAll(frame: Frame) | ToSender(frame: Frame)

  /** The effect of one inbound frame: the new dashboard state, the new history and the frames to send, in order. */
  datatype Step = Step(hud: HudState, history: seq<Exchange>, out: seq<Outbound>)

  /** `msg.get("text") or ""`. */
  function TextOf(msg: Inbound): string {
    match msg.text
    case Some(t) => t
    case None => ""
  }

  /** A `user_message` frame whose text is not blank: the user pressed Enter on a real line. */
  predicate IsSubmission(msg: Inbound) {
    msg.kind == Some(UserMessageKind) && Strip(TextOf(msg)) != []
  }

  /**
   * The body of the receive loop for one frame. A submitted line becomes the
   * dashboard's last user line and goes to everyone, followed by a
   * clear-center frame and then the controller's reply; a state request is
   * answered to the sender alone; anything else changes nothing.
   */
  function Dispatch(hud: HudState, history: seq<Exchange>, msg: Inbound, respond: Responder, now: int): (r: Step)
    ensures r.hud == hud.(lastUserLine := r.hud.lastUserLine)
    ensures r.out == [] <==> !IsSubmission(msg) && msg.kind != Some(RequestStateKind)
    ensures !IsSubmission(msg) ==> r.hud == hud && r.history == history
    ensures msg.kind == Some(RequestStateKind) ==> r.out == [ToSender(StateFrame(hud))]
    ensures IsSubmission(msg) ==>
      var t := r.hud.lastUserLine;
      t == Strip(TextOf(msg)) &&
      r.history == Appended(history, Exchange(now, t, respond(t, r.hud))) &&
      r.out == [ToAll(UserLine(t)), ToAll(ClearCenter), ToAll(BotReply(r.history[|r.history| - 1].bot))]
  {
    if msg.kind == Some(UserMessageKind) then
      var userText := Strip(TextOf(msg));
      if userText != [] then
        var state := hud.(lastUserLine := userText);
        var reply := respond(userText, state);
        Step(state, Appended(history, Exchange(now, userText, reply)),
             [ToAll(UserLine(state.lastUserLine)), ToAll(ClearCenter), ToAll(BotReply(reply))])
      else
        Step(hud, history, [])
    else if msg.kind == Some(RequestStateKind) then
      Step(hud, history, [ToSender(StateFrame(hud))])
    else
      Step(hud, history, [])
  }

  /** The registry and the deliveries made so far. */
  datatype Wire = Wire(active: seq<Socket>, sent: seq<Delivery>)

  /**
   * Sends the frames in order. A frame for everyone is a broadcast, which
   * drops the sockets the send failed for; a frame for the sender that
   * cannot be sent ends the handler, which then disconnects the sender.
   */
  function Transmit(out: seq<Outbound>, sender: Socket, w: Wire, ok: Link): Wire
    decreases |out|
  {
    if out == [] then w
    else
      match out[0]
      case ToAll(f) =>
        var live := Live(w.active, f, ok);
        Transmit(out[1..], sender, Wire(live, w.sent + Fanout(f, live)), ok)
      case ToSender(f) =>
        if ok(sender, f) then Transmit(out[1..], sender, Wire(w.active, w.sent + [Delivery(sender, f)]), ok)
        else Wire(RemoveFirst(w.active, sender), w.sent)
  }

  /** A single frame for the sender is delivered, or its failure disconnects the sender. */
  lemma TransmitToSender(f: Frame, sender: Socket, active: seq<Socket>, ok: Link)
    ensures Transmit([ToSender(f)], sender, Wire(active, []), ok)
      == if ok(sender, f) then Wire(active, [Delivery(sender, f)]) else Wire(RemoveFirst(active, sender), [])
  {
    assert [ToSender(f)][1..] == [];
    assert [] + [Delivery(sender, f)] == [Delivery(sender, f)];
  }

  /** Three broadcasts in a row: each goes to the survivors of the one before. */
  lemma TransmitThree(f1: Frame, f2: Frame, f3: Frame, sender: Socket, active: seq<Socket>, ok: Link)
    ensures
      var l1 := Live(active, f1, ok);
      var l2 := Live(l1, f2, ok);
      var l3 := Live(l2, f3, ok);
      Transmit([ToAll(f1), ToAll(f2), ToAll(f3)], sender, Wire(active, []), ok)
        == Wire(l3, Fanout(f1, l1) + Fanout(f2, l2) + Fanout(f3, l3))
  {
    var out := [ToAll(f1), ToAll(f2), ToAll(f3)];
    assert out[1..] == [ToAll(f2), ToAll(f3)];
    assert out[1..][1..] == [ToAll(f3)];
    assert out[1..][1..][1..] == [];
    var l1 := Live(active, f1, ok);
    var l2 := Live(l1, f2, ok);
    var l3 := Live(l2, f3, ok);
    var w1 := Wire(l1, Fanout(f1, l1));
    var w2 := Wire(l2, w1.sent + Fanout(f2, l2));
    var w3 := Wire(l3, w2.sent + Fanout(f3, l3));
    assert [] + Fanout(f1, l1) == Fanout(f1, l1);
    assert Transmit(out, sender, Wire(active, []), ok) == Transmit(out[1..], sender, w1, ok);
    assert Transmit(out[1..], sender, w1, ok) == Transmit(out[1..][1..], sender, w2, ok);
    assert Transmit(out[1..][1..], sender, w2, ok) == Transmit([], sender, w3, ok);
  }

  /**
   * Every client that receives the third of three broadcasts received the
   * first two as well, and the survivors keep their registration order.
   */
  lemma ThreeBroadcastsNest(f1: Frame, f2: Frame, f3: Frame, active: seq<Socket>, ok: Link)
    ensures
      var l1 := Live(active, f1, ok);
      var l2 := Live(l1, f2, ok);
      var l3 := Live(l2, f3, ok);
      var sent := Fanout(f1, l1) + Fanout(f2, l2) + Fanout(f3, l3);
      Subsequence(l3, active) &&
      forall s :: Delivery(s, f3) in Fanout(f3, l3) ==> Delivery(s, f1) in sent && Delivery(s, f2) in sent
  {
    var l1 := Live(active, f1, ok);
    var l2 := Live(l1, f2, ok);
    var l3 := Live(l2, f3, ok);
    var d1 := Fanout(f1, l1);
    var d2 := Fanout(f2, l2);
    var d3 := Fanout(f3, l3);
    LiveIsSubsequence(active, f1, ok);
    LiveIsSubsequence(l1, f2, ok);
    LiveIsSubsequence(l2, f3, ok);
    SubsequenceTransitive(l2, l1, active);
    SubsequenceTransitive(l3, l2, active);
    forall s | Delivery(s, f3) in d3
      ensures Delivery(s, f1) in d1 + d2 + d3 && Delivery(s, f2) in d1 + d2 + d3
    {
      FanoutMembers(f3, l3, s);
      SubsequenceMembers(l3, l2, s);
      SubsequenceMembers(l2, l1, s);
      FanoutReaches(f2, l2, s);
      FanoutReaches(f1, l1, s);
    }
  }

  /** Only listed sockets receive a fan-out. */
  lemma FanoutMembers(f: Frame, l: seq<Socket>, s: Socket)
    requires Delivery(s, f) in Fanout(f, l)
    ensures s in l
  {
    var d := Fanout(f, l);
    var k :| 0 <= k < |d| && d[k] == Delivery(s, f);
    assert l[k] == s;
  }

  /** Every listed socket receives a fan-out. */
  lemma FanoutReaches(f: Frame, l: seq<Socket>, s: Socket)
    requires s in l
    ensures Delivery(s, f) in Fanout(f, l)
  {
    var k :| 0 <= k < |l| && l[k] == s;
    assert Fanout(f, l)[k] == Delivery(s, f);
  }

  /**
   * A submitted line reaches the clients as three broadcasts in order: the
   * user line, the clear-center frame, then the bot's reply; every client
   * that gets the reply got the other two first.
   */
  lemma SubmissionFanout(hud: HudState, history: seq<Exchange>, msg: Inbound, respond: Responder, now: int,
                         sender: Socket, active: seq<Socket>, ok: Link)
    requires IsSubmission(msg)
    ensures
      var r := Dispatch(hud, history, msg, respond, now);
      var t := r.hud.lastUserLine;
      var reply := BotReply(r.history[|r.history| - 1].bot);
      var l1 := Live(active, UserLine(t), ok);
      var l2 := Live(l1, ClearCenter, ok);
      var l3 := Live(l2, reply, ok);
      var w := Transmit(r.out, sender, Wire(active, []), ok);
      w.active == l3 &&
      w.sent == Fanout(UserLine(t), l1) + Fanout(ClearCenter, l2) + Fanout(reply, l3) &&
      Subsequence(l3, active) &&
      forall s :: Delivery(s, reply) in Fanout(reply, l3) ==> Delivery(s, UserLine(t)) in w.sent && Delivery(s, ClearCenter) in w.sent
  {
    var r := Dispatch(hud, history, msg, respond, now);
    var t := r.hud.lastUserLine;
    var reply := BotReply(r.history[|r.history| - 1].bot);
    TransmitThree(UserLine(t), ClearCenter, reply, sender, active, ok);
    ThreeBroadcastsNest(UserLine(t), ClearCenter, reply, active, ok);
  }

  /** A state request is answered to the requester alone; if that send fails the requester is disconnected. */
  lemma StateRequestAnswersSender(hud: HudState, history: seq<Exchange>, msg: Inbound, respond: Responder, now: int,
                                  sender: Socket, active: seq<Socket>, ok: Link)
    requires msg.kind == Some(RequestStateKind)
    ensures
      var w := Transmit(Dispatch(hud, history, msg, respond, now).out, sender, Wire(active, []), ok);
      if ok(sender, StateFrame(hud)) then w == Wire(active, [Delivery(sender, StateFrame(hud))])
      else w == Wire(RemoveFirst(active, sender), [])
  {
    TransmitToSender(StateFrame(hud), sender, active, ok);
  }

  class Server {
    /** The dashboard state every client renders. */
    var state: HudState
    const controller: Controller
    const manager: ConnectionManager

    /** The history stays within its limit, and no bot reply is left pending between requests. */
    ghost predicate Valid()
      reads this, controller
    {
      controller.Valid() && state.botReplyPending == None
    }

    constructor (now: int)
      ensures Valid() && fresh(controller) && fresh(manager)
      ensures state == Initial && controller.history == [] && manager.active == []
    {
      state := Initial;
      controller := new Controller(now);
      manager := new ConnectionManager();
    }

    /**
     * A client connects: it is registered, then sent the full state. If that
     * first send fails the handler ends before its receive loop, and the
     * socket stays registered until a later broadcast fails on it.
     */
    method Accept(ws: Socket, ok: Link) returns (sent: seq<Delivery>)
      modifies manager
      ensures manager.active == old(manager.active) + [ws]
      ensures sent == if ok(ws, StateFrame(state)) then [Delivery(ws, StateFrame(state))] else []
    {
      manager.Connect(ws);
      sent := if ok(ws, StateFrame(state)) then [Delivery(ws, StateFrame(state))] else [];
    }

    /** One turn of the receive loop for the frame `msg` from `ws`, proved to do what `Dispatch` and `Transmit` describe. */
    method HandleFrame(ws: Socket, msg: Inbound, pick: nat, now: int, ok: Link) returns (sent: seq<Delivery>)
      requires Valid()
      modifies this, controller, manager
      ensures Valid()
      ensures
        var days := controller.DaysSince(now);
        var r := Dispatch(old(state), old(controller.history), msg, (t, h) => Respond(t, pick, days, h), now);
        state == r.hud && controller.history == r.history &&
        Wire(manager.active, sent) == Transmit(r.out, ws, Wire(old(manager.active), []), ok)
    {
      if msg.kind == Some(UserMessageKind) {
        var userText := Strip(TextOf(msg));
        if userText != [] {
          sent := Submit(ws, userText, pick, now, ok);
        } else {
          sent := [];
        }
      } else if msg.kind == Some(RequestStateKind) {
        sent := AnswerStateRequest(ws, ok);
      } else {
        sent := [];
      }
    }

    /** A submitted line: record it on the dashboard, tell everyone, clear their center text, then send the reply. */
    method Submit(ws: Socket, userText: string, pick: nat, now: int, ok: Link) returns (sent: seq<Delivery>)
      requires Valid()
      modifies this, controller, manager
      ensures Valid()
      ensures state == old(state).(lastUserLine := userText)
      ensures
        var reply := Respond(userText, pick, controller.DaysSince(now), state);
        controller.history == Appended(old(controller.history), Exchange(now, userText, reply)) &&
        Wire(manager.active, sent) ==
          Transmit([ToAll(UserLine(userText)), ToAll(ClearCenter), ToAll(BotReply(reply))], ws, Wire(old(manager.active), []), ok)
    {
      state := state.(lastUserLine := userText);
      var s1 := manager.Broadcast(UserLine(state.lastUserLine), ok);
      var s2 := manager.Broadcast(ClearCenter, ok);
      var reply := controller.ProcessMessage(userText, pick, now, state);
      var s3 := manager.Broadcast(BotReply(reply), ok);
      sent := s1 + s2 + s3;
      TransmitThree(UserLine(userText), ClearCenter, BotReply(reply), ws, old(manager.active), ok);
    }

    /** `send_state` to the requester; a failed send ends its handler, which disconnects it. */
    method AnswerStateRequest(ws: Socket, ok: Link) returns (sent: seq<Delivery>)
      modifies manager
      ensures Wire(manager.active, sent) == Transmit([ToSender(StateFrame(state))], ws, Wire(old(manager.active), []), ok)
    {
      var f := StateFrame(state);
      if ok(ws, f) {
        sent := [Delivery(ws, f)];
      } else {
        manager.Disconnect(ws);
        sent := [];
      }
      TransmitToSender(f, ws, old(manager.active), ok);
    }

    /** `update_state`: each supplied field is set in turn, then the new state goes to every client. */
    method UpdateState(u: StateUpdate, ok: Link) returns (sent: seq<Delivery>)
      requires Valid()
      modifies this, manager
      ensures Valid()
      ensures state == Merge(old(state), u)
      ensures manager.active == Live(old(manager.active), StateFrame(state), ok)
      ensures sent == Fanout(StateFrame(state), manager.active)
    {
      ApplyAll(Items(u));
      ItemsMerge(old(state), u);
      sent := manager.Broadcast(StateFrame(state), ok);
    }

    /** The `setattr` loop over the supplied fields, one assignment at a time. */
    method ApplyAll(items: seq<Assignment>)
      modifies this
      ensures state == AssignAll(old(state), items)
    {
      var i := 0;
      while i < |items|
        invariant 0 <= i <= |items|
        invariant state == AssignAll(old(state), items[..i])
      {
        AssignAllAppend(old(state), items[..i], [items[i]]);
        assert items[..i + 1] == items[..i] + [items[i]];
        state := Assign(state, items[i]);
        i := i + 1;
      }
      assert items[..i] == items;
    }

    /** `bot_reply`: the reply is marked pending, broadcast, and the mark is cleared again. */
    method PostBotReply(text: string, ok: Link) returns (sent: seq<Delivery>)
      requires Valid()
      modifies this, manager
      ensures Valid() && state == old(state)
      ensures manager.active == Live(old(manager.active), BotReply(text), ok)
      ensures sent == Fanout(BotReply(text), manager.active)
    {
      state := state.(botReplyPending := Some(text));
      sent := manager.Broadcast(BotReply(state.botReplyPending.value), ok);
      state := state.(botReplyPending := None);
    }

    /** `process_message_directly`: the controller answers and records the text; the analysis is returned beside the reply. */
    method ProcessDirectly(text: string, pick: nat, now: int) returns (response: string, analysis: Analysis)
      requires Valid()
      modifies controller
      ensures Valid()
      ensures response == Respond(text, pick, controller.DaysSince(now), state)
      ensures controller.history == Appended(old(controller.history), Exchange(now, text, response))
      ensures analysis == AnalyzeMessage(text)
    {
      response := controller.ProcessMessage(text, pick, now, state);
      analysis := AnalyzeMessage(text);
    }
  }
}
