/** The command and event names shared by the client and the framework
    server, and the message shapes built from them. */
module Vocabulary {
  import opened Wrappers
  import opened JsValues

  /** The outbound commands, `commonLanguage.commands`. */
  datatype Command = Connect | WidgetsAdd | WidgetsRemove | WidgetsEmit

  /** The inbound widget events, `commonLanguage.events.Widgets`. */
  datatype EventKind = Initialized | Emitted | Removed

  /** Wire strings are upper-case words, joined by `:` below a `Widgets` group. */
  predicate IsWireString(s: string) {
    s != [] && forall ch :: ch in s ==> 'A' <= ch <= 'Z' || ch == ':'
  }

  predicate InWidgetsGroup(s: string) {
    |s| > 8 && s[..8] == "WIDGETS:"
  }

  /** The command table, `commonLanguage.commands`: every command but
      `Connect` sits in the `Widgets` group. */
  function CommandName(c: Command): (r: string)
    ensures IsWireString(r)
    ensures InWidgetsGroup(r) <==> c != Connect
  {
    match c
    case Connect => "CONNECT"
    case WidgetsAdd => "WIDGETS:ADD"
    case WidgetsRemove => "WIDGETS:REMOVE"
    case WidgetsEmit => "WIDGETS:EMIT"
  }

  /** The event table, `commonLanguage.events.Widgets`: the two socket-level
      events carry the `WIDGETS:` prefix, the inner `INITIALIZED` does not. */
  function EventName(k: EventKind): (r: string)
    ensures IsWireString(r)
    ensures InWidgetsGroup(r) <==> k != Initialized
  {
    match k
    case Initialized =>
      assert "INITIALIZED"[..8][0] != "WIDGETS:"[0];
      "INITIALIZED"
    case Emitted => "WIDGETS:EMITTED"
    case Removed => "WIDGETS:REMOVED"
  }

  /** Any entry of the table, command or event. */
  datatype Term = Cmd(command: Command) | Evt(event: EventKind)

  function WireName(t: Term): string {
    match t
    case Cmd(c) => CommandName(c)
    case Evt(k) => EventName(k)
  }

  /** No two entries of the table share a wire string, so a dispatch on the
      string selects at most one entry. */
  lemma WireNamesDistinct(a: Term, b: Term)
    ensures WireName(a) == WireName(b) <==> a == b
  {
  }

  /** The event kind a `switch` over the event names selects for `s`. */
  function ParseEvent(s: string): (r: Option<EventKind>)
    ensures r.Some? ==> EventName(r.value) == s
    ensures r.None? <==> forall k :: EventName(k) != s
  {
    if s == EventName(Initialized) then Some(Initialized)
    else if s == EventName(Emitted) then Some(Emitted)
    else if s == EventName(Removed) then Some(Removed)
    else None
  }

  lemma ParseEventName(k: EventKind)
    ensures ParseEvent(EventName(k)) == Some(k)
  {
    WireNamesDistinct(Evt(k), Evt(ParseEvent(EventName(k)).value));
  }

  /** The case a `switch (type)` takes: strict equality with a string case
      label can only hold for a string. */
  function Dispatch(tag: Value): (r: Option<EventKind>)
    ensures r.Some? <==> exists k :: tag == Str(EventName(k))
    ensures r.Some? ==> tag == Str(EventName(r.value))
  {
    if tag.Str? then ParseEvent(tag.s) else None
  }

  /** `{ type, payload }`, the envelope of every message on the `emit`
      channel and of every event the reducer receives. */
  function Envelope(tag: string, payload: Value): (e: Value)
    ensures !e.IsNullish()
    ensures Get(e, "type") == Str(tag) && Get(e, "payload") == payload
  {
    Obj(map["type" := Str(tag), "payload" := payload])
  }

  /** `{ type, id, payload }`, the widget event carried by `WIDGETS:EMITTED`. */
  function WidgetEvent(tag: string, id: Value, payload: Value): (e: Value)
    ensures !e.IsNullish()
    ensures Get(e, "type") == Str(tag) && Get(e, "id") == id && Get(e, "payload") == payload
  {
    Obj(map["type" := Str(tag), "id" := id, "payload" := payload])
  }

  /** `{ id }`, the payload naming one widget. */
  function IdPayload(id: Value): (p: Value)
    ensures !p.IsNullish() && Get(p, "id") == id
  {
    Obj(map["id" := id])
  }
}
