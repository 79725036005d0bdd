/** The client's side of the socket: the guard that sends commands only once a
    socket exists, the commands the widget buttons send, and the channels
    whose messages are handed to the reducer. */
module Connection {
  import opened Wrappers
  import opened JsValues
  import opened Vocabulary

  /** An open socket.io channel: its endpoint and the reservation id it was
      opened with. */
  datatype Socket = Socket(endpoint: string, reservationId: Value)

  /** One `socket.emit(name, data)` call. */
  datatype Sent = Sent(via: Socket, name: string, data: Value)

  /** The channel name every outbound command travels on. */
  const EmitChannel := "emit"

  /** What one `emit(type, payload)` sends: nothing without a socket, one
      `{ type, payload }` envelope on the `emit` channel with one. */
  function EmitSends(socket: Option<Socket>, tag: string, payload: Value): (r: seq<Sent>)
    ensures socket.None? <==> r == []
    ensures socket.Some? ==> |r| == 1 && r[0].via == socket.value && r[0].name == EmitChannel
    ensures socket.Some? ==> !r[0].data.IsNullish() && Get(r[0].data, "type") == Str(tag) && Get(r[0].data, "payload") == payload
  {
    match socket
    case None => []
    case Some(s) => [Sent(s, EmitChannel, Envelope(tag, payload))]
  }

  /** The payload of the add-widget button: a `blocks` widget. */
  const AddWidgetPayload := Obj(map["variant" := Str("blocks")])

  /** The message the `connect` handler sends: `{ type: 'CONNECT' }`, with no
      payload property at all. */
  const ConnectMessage := Obj(map["type" := Str(CommandName(Connect))])

  /** Which socket channels feed the reducer, and the event each dispatches:
      the generic `emit` channel passes its data through, the two widget
      channels wrap their payload under their own name. `connect`,
      `disconnect` and any other name dispatch nothing. */
  function Inbound(name: string, data: Value): (r: Option<Value>)
    ensures r.Some? <==> name == EmitChannel || name == EventName(Emitted) || name == EventName(Removed)
    ensures name == EmitChannel ==> r == Some(data)
    ensures name != EmitChannel && r.Some? ==> !r.value.IsNullish() && Get(r.value, "type") == Str(name) && Get(r.value, "payload") == data
  {
    if name == EmitChannel then Some(data)
    else if name == EventName(Emitted) || name == EventName(Removed) then Some(Envelope(name, data))
    else None
  }

  /** A widget event reaches the reducer the same way whether the server sends
      it on its dedicated channel or as an envelope on the generic one. */
  lemma InboundChannelsAgree(k: EventKind, payload: Value)
    requires k != Initialized
    ensures Inbound(EventName(k), payload) == Inbound(EmitChannel, Envelope(EventName(k), payload))
  {
  }

  /** The part of the `App` component that holds the socket and sends through
      it; `sent` records every `socket.emit` call in order. */
  class Client {
    var socket: Option<Socket>
    var sent: seq<Sent>

    /** Before the reservation handshake there is no socket and nothing sent. */
    constructor ()
      ensures socket == None && sent == []
    {
      socket := None;
      sent := [];
    }

    /** `setSocket(socket)` once the channel is opened. */
    method SetSocket(s: Socket)
      modifies this`socket
      ensures socket == Some(s)
    {
      socket := Some(s);
    }

    /** `emit(type, payload)`: without a socket nothing is sent; otherwise
        exactly one envelope goes out on the `emit` channel. */
    method Emit(tag: string, payload: Value)
      modifies this`sent
      ensures sent == old(sent) + EmitSends(socket, tag, payload)
    {
      if socket.None? {
        return;
      }
      sent := sent + [Sent(socket.value, EmitChannel, Envelope(tag, payload))];
    }

    /** `addWidget()`: asks the server for a `blocks` widget. */
    method AddWidget()
      modifies this`sent
      ensures sent == old(sent) + EmitSends(socket, CommandName(WidgetsAdd), AddWidgetPayload)
    {
      Emit(CommandName(WidgetsAdd), AddWidgetPayload);
    }

    /** `removeWidget(id)`: asks the server to remove the widget `id`. */
    method RemoveWidget(id: Value)
      modifies this`sent
      ensures sent == old(sent) + EmitSends(socket, CommandName(WidgetsRemove), IdPayload(id))
    {
      Emit(CommandName(WidgetsRemove), IdPayload(id));
    }

    /** The `connect` handler: announces the session on the socket it was
        registered on, without going through the guard. */
    method OnConnect(s: Socket)
      modifies this`sent
      ensures sent == old(sent) + [Sent(s, EmitChannel, ConnectMessage)]
    {
      sent := sent + [Sent(s, EmitChannel, ConnectMessage)];
    }
  }

  /** `removeWidget(id)` on a connected client sends exactly
      `{ type: 'WIDGETS:REMOVE', payload: { id } }`. */
  lemma RemoveWidgetMessage(s: Socket, id: Value)
    ensures EmitSends(Some(s), CommandName(WidgetsRemove), IdPayload(id)) ==
      [Sent(s, "emit", Obj(map["type" := Str("WIDGETS:REMOVE"), "payload" := Obj(map["id" := id])]))]
  {
  }
}
