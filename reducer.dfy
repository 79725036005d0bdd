/** The client's event-sourced state: the application state and the pure
    reducer that folds each inbound event into it. */
module Reducer {
  import opened Wrappers
  import opened JsValues
  import opened Vocabulary

  /** The application state. `emit` is never read or written by the reducer
      and is carried along by the spread `...state`. */
  datatype AppState = AppState(emit: seq<Value>, widgets: seq<Object>)

  /** `initialState`. */
  const InitialState := AppState([], [])

  /** What one reduction does: the next state, or the TypeError JavaScript
      throws when the reducer destructures null or undefined. */
  datatype Reduction = Reduced(state: AppState) | TypeError

  /** `widget.id` */
  function WidgetId(w: Object): Value {
    Get(Obj(w), "id")
  }

  /** The test `widget.id !== id` that decides whether a removal keeps `w`. */
  predicate Keeps(w: Object, id: Value) {
    !StrictEquals(WidgetId(w), id)
  }

  /** The widget `{ id, ...payload }`: `id` first, then the payload's
      properties, which override it when the payload has its own `id`. */
  function NewWidget(id: Value, payload: Value): (w: Object)
    ensures forall k :: k in w <==> k == "id" || k in Spread(payload)
    ensures forall k :: k in Spread(payload) ==> w[k] == Spread(payload)[k]
    ensures WidgetId(w) == if payload.Obj? && "id" in payload.fields then payload.fields["id"] else id
  {
    var spread := Spread(payload);
    assert !payload.Obj? ==> "id" !in spread by {
      assert 'i' in "id";
    }
    map["id" := id] + spread
  }

  /** `state.widgets.filter(widget => widget.id !== id)` */
  function Without(widgets: seq<Object>, id: Value): (r: seq<Object>)
    ensures |r| <= |widgets|
    ensures forall w :: w in r ==> w in widgets && Keeps(w, id)
    decreases |widgets|
  {
    if widgets == [] then []
    else (if Keeps(widgets[0], id) then [widgets[0]] else []) + Without(widgets[1..], id)
  }

  /** `withWidgetEvent(state, event)`: the widget event inside a
      `WIDGETS:EMITTED` event. `INITIALIZED` appends the new widget; every
      other widget event is ignored. */
  function WithWidgetEvent(state: AppState, event: Value): (r: Reduction)
    ensures r.Reduced? ==> r.state.emit == state.emit
    ensures r.Reduced? ==> state.widgets <= r.state.widgets
  {
    if event.IsNullish() then TypeError
    else if Dispatch(Get(event, "type")) == Some(Initialized) then
      var widget := NewWidget(Get(event, "id"), Get(event, "payload"));
      Reduced(state.(widgets := state.widgets + [widget]))
    else Reduced(state)
  }

  /** `reducer(state, event)` */
  function Reduce(state: AppState, event: Value): (r: Reduction)
    ensures r.Reduced? ==> r.state.emit == state.emit
    ensures r.Reduced? ==> |r.state.widgets| <= |state.widgets| + 1
  {
    if event.IsNullish() then TypeError
    else
      var payload := Get(event, "payload");
      match Dispatch(Get(event, "type"))
      case Some(Emitted) => WithWidgetEvent(state, payload)
      case Some(Removed) =>
        if payload.IsNullish() then TypeError
        else Reduced(state.(widgets := Without(state.widgets, Get(payload, "id"))))
      case _ => Reduced(state)
  }

  /** The state after dispatching `events` in the order the socket delivers
      them; a reduction that throws ends the stream. */
  function ReduceAll(state: AppState, events: seq<Value>): (r: Reduction)
    ensures r.Reduced? ==> r.state.emit == state.emit
    decreases |events|
  {
    if events == [] then Reduced(state)
    else
      match Reduce(state, events[0])
      case TypeError => TypeError
      case Reduced(next) => ReduceAll(next, events[1..])
  }
}
