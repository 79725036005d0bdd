/** What the reducer promises: which events change the state, how each
    branch changes the widget list, and that folding a stream of events has
    no hidden state. */
module ReducerLemmas {
  import opened JsValues
  import opened Vocabulary
  import opened Reducer

  /** An event the reducer handles as `WIDGETS:REMOVED`: any object of that
      type whose payload can be destructured, whatever other keys it has. */
  predicate IsRemoval(e: Value) {
    !e.IsNullish() && Get(e, "type") == Str(EventName(Removed)) && !Get(e, "payload").IsNullish()
  }

  /** The `id` a removal reads from its payload. */
  function RemovedId(e: Value): Value
    requires IsRemoval(e)
  {
    Get(Get(e, "payload"), "id")
  }

  /** An event the reducer handles as `WIDGETS:EMITTED` carrying an
      `INITIALIZED` widget event, whatever other keys either object has. */
  predicate IsInitialization(e: Value) {
    !e.IsNullish() && Get(e, "type") == Str(EventName(Emitted)) &&
    !Get(e, "payload").IsNullish() &&
    Get(Get(e, "payload"), "type") == Str(EventName(Initialized))
  }

  /** The widget `{ id, ...payload }` an initialization builds. */
  function InitializedWidget(e: Value): Object
    requires IsInitialization(e)
  {
    var inner := Get(e, "payload");
    NewWidget(Get(inner, "id"), Get(inner, "payload"))
  }

  /** `{ type: 'WIDGETS:EMITTED', payload: widgetEvent }`, as the dedicated
      channel wraps it. */
  function EmittedEvent(widgetEvent: Value): Value {
    Envelope(EventName(Emitted), widgetEvent)
  }

  /** `{ type: 'WIDGETS:REMOVED', payload: { id } }`. */
  function RemovedEvent(id: Value): Value {
    Envelope(EventName(Removed), IdPayload(id))
  }

  /** The envelopes built from the message shapes are instances of the two
      general event forms. */
  lemma EnvelopeForms(id: Value, payload: Value)
    ensures IsRemoval(RemovedEvent(id)) && RemovedId(RemovedEvent(id)) == id
    ensures var e := EmittedEvent(WidgetEvent(EventName(Initialized), id, payload));
      IsInitialization(e) && InitializedWidget(e) == NewWidget(id, payload)
  {
  }

  // ---------------------------------------------------------------------
  // Dispatch on the event type

  /** An event whose type is neither `WIDGETS:EMITTED` nor `WIDGETS:REMOVED`
      leaves the state as it is. */
  lemma ReduceUnrecognized(s: AppState, e: Value)
    requires !e.IsNullish()
    requires Get(e, "type") != Str(EventName(Emitted)) && Get(e, "type") != Str(EventName(Removed))
    ensures Reduce(s, e) == Reduced(s)
  {
  }

  /** The reducer throws exactly when it destructures null or undefined: the
      event itself, or the payload of one of the two widget events. */
  lemma ReduceThrows(s: AppState, e: Value)
    ensures Reduce(s, e) == TypeError <==>
      e.IsNullish() ||
      ((Get(e, "type") == Str(EventName(Emitted)) || Get(e, "type") == Str(EventName(Removed)))
       && Get(e, "payload").IsNullish())
  {
    ParseEventName(Emitted);
    ParseEventName(Removed);
  }

  // ---------------------------------------------------------------------
  // WIDGETS:EMITTED

  /** An `INITIALIZED` widget event appends `{ id, ...payload }` after the
      widgets already held, which keep their places; nothing else changes. */
  lemma ReduceInitialized(s: AppState, e: Value)
    requires IsInitialization(e)
    ensures var r := Reduce(s, e);
      r == Reduced(s.(widgets := s.widgets + [InitializedWidget(e)])) &&
      |r.state.widgets| == |s.widgets| + 1 &&
      r.state.widgets[..|s.widgets|] == s.widgets &&
      r.state.widgets[|s.widgets|] == InitializedWidget(e)
  {
    ParseEventName(Emitted);
    ParseEventName(Initialized);
    var r := Reduce(s, e);
    assert r.state.widgets == s.widgets + [InitializedWidget(e)];
  }

  /** Any other widget event inside `WIDGETS:EMITTED` is ignored. */
  lemma ReduceEmittedOther(s: AppState, e: Value)
    requires !e.IsNullish() && Get(e, "type") == Str(EventName(Emitted))
    requires !Get(e, "payload").IsNullish()
    requires Get(Get(e, "payload"), "type") != Str(EventName(Initialized))
    ensures Reduce(s, e) == Reduced(s)
  {
    ParseEventName(Emitted);
  }

  // ---------------------------------------------------------------------
  // The removal filter

  /** A widget survives the filter exactly when it was held and its id is not
      the removed one. */
  lemma {:induction false} WithoutMembers(widgets: seq<Object>, id: Value, w: Object)
    ensures w in Without(widgets, id) <==> w in widgets && Keeps(w, id)
    decreases |widgets|
  {
    if widgets != [] {
      WithoutMembers(widgets[1..], id, w);
      assert widgets == [widgets[0]] + widgets[1..];
    }
  }

  /** The filter works element by element, so the kept widgets stay in their
      relative order: filtering a concatenation concatenates the filtered parts. */
  lemma {:induction false} WithoutAppend(a: seq<Object>, b: seq<Object>, id: Value)
    ensures Without(a + b, id) == Without(a, id) + Without(b, id)
    decreases |a|
  {
    if a == [] {
      assert a + b == b;
    } else {
      var ab := a + b;
      assert ab[0] == a[0] && ab[1..] == a[1..] + b;
      WithoutAppend(a[1..], b, id);
    }
  }

  /** Removing an id that no widget carries leaves the list as it is. */
  lemma {:induction false} WithoutAbsent(widgets: seq<Object>, id: Value)
    requires forall w :: w in widgets ==> Keeps(w, id)
    ensures Without(widgets, id) == widgets
    decreases |widgets|
  {
    if widgets != [] {
      assert forall w :: w in widgets[1..] ==> w in widgets;
      WithoutAbsent(widgets[1..], id);
    }
  }

  /** The list shrinks exactly when some widget carries the removed id. */
  lemma {:induction false} WithoutShrinks(widgets: seq<Object>, id: Value)
    ensures |Without(widgets, id)| < |widgets| <==> exists w :: w in widgets && !Keeps(w, id)
    decreases |widgets|
  {
    if widgets != [] {
      WithoutShrinks(widgets[1..], id);
      if !Keeps(widgets[0], id) {
        assert widgets[0] in widgets;
      } else if exists w :: w in widgets && !Keeps(w, id) {
        var w :| w in widgets && !Keeps(w, id);
        assert w in widgets[1..];
      }
    }
  }

  // ---------------------------------------------------------------------
  // WIDGETS:REMOVED

  /** `WIDGETS:REMOVED { id }` drops every widget with that id and keeps
      every other widget, in order, without adding any. */
  lemma ReduceRemoved(s: AppState, e: Value)
    requires IsRemoval(e)
    ensures var r := Reduce(s, e);
      r == Reduced(s.(widgets := Without(s.widgets, RemovedId(e)))) &&
      |r.state.widgets| <= |s.widgets| &&
      (forall w :: w in r.state.widgets ==> !StrictEquals(WidgetId(w), RemovedId(e))) &&
      (forall w :: w in s.widgets && Keeps(w, RemovedId(e)) ==> w in r.state.widgets)
  {
    ParseEventName(Removed);
    forall w | w in s.widgets && Keeps(w, RemovedId(e))
      ensures w in Without(s.widgets, RemovedId(e))
    {
      WithoutMembers(s.widgets, RemovedId(e), w);
    }
  }

  /** Removing an id that no held widget carries is a no-op. */
  lemma ReduceRemovedAbsent(s: AppState, e: Value)
    requires IsRemoval(e)
    requires forall w :: w in s.widgets ==> Keeps(w, RemovedId(e))
    ensures Reduce(s, e) == Reduced(s)
  {
    ParseEventName(Removed);
    WithoutAbsent(s.widgets, RemovedId(e));
  }

  /** Removal is idempotent. */
  lemma ReduceRemovedTwice(s: AppState, e: Value)
    requires IsRemoval(e)
    ensures Reduce(s, e).Reduced?
    ensures Reduce(Reduce(s, e).state, e) == Reduce(s, e)
  {
    ReduceRemoved(s, e);
    ReduceRemovedAbsent(Reduce(s, e).state, e);
  }

  // ---------------------------------------------------------------------
  // Widget ids

  /** No two held widgets share an id. The reducer does not enforce this; it
      holds as long as the server never initializes an id twice. */
  ghost predicate UniqueIds(widgets: seq<Object>)
    decreases |widgets|
  {
    widgets != [] ==>
      (forall w :: w in widgets[1..] ==> !StrictEquals(WidgetId(w), WidgetId(widgets[0]))) &&
      UniqueIds(widgets[1..])
  }

  /** `initialState` holds no widgets and no pending emits, so the id
      invariant holds from the start. */
  lemma InitialStateEmpty()
    ensures InitialState.widgets == [] && InitialState.emit == []
    ensures UniqueIds(InitialState.widgets)
  {
  }

  /** Removal keeps ids unique. */
  lemma {:induction false} WithoutKeepsUnique(widgets: seq<Object>, id: Value)
    requires UniqueIds(widgets)
    ensures UniqueIds(Without(widgets, id))
    decreases |widgets|
  {
    if widgets != [] {
      WithoutKeepsUnique(widgets[1..], id);
      if Keeps(widgets[0], id) {
        var rest := Without(widgets[1..], id);
        var r := Without(widgets, id);
        assert r == [widgets[0]] + rest;
        assert r != [] && r[0] == widgets[0] && r[1..] == rest;
        forall w | w in r[1..] ensures !StrictEquals(WidgetId(w), WidgetId(r[0])) {
          WithoutMembers(widgets[1..], id, w);
        }
      } else {
        assert Without(widgets, id) == Without(widgets[1..], id);
      }
    }
  }

  /** Appending a widget whose id no held widget carries keeps ids unique. */
  lemma {:induction false} AppendKeepsUnique(widgets: seq<Object>, w: Object)
    requires UniqueIds(widgets)
    requires forall v :: v in widgets ==> !StrictEquals(WidgetId(v), WidgetId(w))
    ensures UniqueIds(widgets + [w])
    decreases |widgets|
  {
    if widgets == [] {
      assert ([] + [w])[1..] == [];
    } else {
      assert (widgets + [w])[1..] == widgets[1..] + [w];
      assert forall v :: v in widgets[1..] ==> v in widgets;
      AppendKeepsUnique(widgets[1..], w);
      assert widgets[0] in widgets;
    }
  }

  /** So every event keeps ids unique provided an `INITIALIZED` event names an
      id not yet held and its payload does not override that id. */
  lemma ReduceKeepsUnique(s: AppState, e: Value)
    requires UniqueIds(s.widgets)
    requires Reduce(s, e).Reduced?
    requires Get(e, "type") == Str(EventName(Emitted)) ==>
      var inner := Get(e, "payload");
      !inner.IsNullish() && Get(inner, "type") == Str(EventName(Initialized)) ==>
        var payload := Get(inner, "payload");
        !(payload.Obj? && "id" in payload.fields) &&
        forall v :: v in s.widgets ==> !StrictEquals(WidgetId(v), Get(inner, "id"))
    ensures UniqueIds(Reduce(s, e).state.widgets)
  {
    ParseEventName(Emitted);
    ParseEventName(Removed);
    ParseEventName(Initialized);
    var tag := Get(e, "type");
    if tag == Str(EventName(Emitted)) {
      var inner := Get(e, "payload");
      if Get(inner, "type") == Str(EventName(Initialized)) {
        var w := NewWidget(Get(inner, "id"), Get(inner, "payload"));
        AppendKeepsUnique(s.widgets, w);
      }
    } else if tag == Str(EventName(Removed)) {
      WithoutKeepsUnique(s.widgets, Get(Get(e, "payload"), "id"));
    }
  }

  // ---------------------------------------------------------------------
  // Folding the event stream

  /** The reducer keeps no state between events: reducing `a + b` is reducing
      `a` and then reducing `b` from wherever `a` left the state. */
  lemma {:induction false} ReduceAllAppend(s: AppState, a: seq<Value>, b: seq<Value>)
    ensures ReduceAll(s, a + b) ==
      match ReduceAll(s, a)
      case TypeError => TypeError
      case Reduced(t) => ReduceAll(t, b)
    decreases |a|
  {
    if a != [] {
      assert a + b != [] && (a + b)[0] == a[0] && (a + b)[1..] == a[1..] + b;
      match Reduce(s, a[0])
      case TypeError =>
      case Reduced(next) => ReduceAllAppend(next, a[1..], b);
    } else {
      assert a + b == b;
    }
  }

  // ---------------------------------------------------------------------
  // Scenarios

  /** A `blocks` widget with id 1 is initialized and then removed. */
  lemma ScenarioAddThenRemove()
    ensures var payload := Obj(map["variant" := Str("blocks"), "blocks" := Num(3)]);
      var added := Reduce(InitialState, EmittedEvent(WidgetEvent(EventName(Initialized), Num(1), payload)));
      added == Reduced(AppState([], [map["id" := Num(1), "variant" := Str("blocks"), "blocks" := Num(3)]])) &&
      Reduce(added.state, RemovedEvent(Num(1))) == Reduced(InitialState)
  {
    var payload := Obj(map["variant" := Str("blocks"), "blocks" := Num(3)]);
    EnvelopeForms(Num(1), payload);
    ReduceInitialized(InitialState, EmittedEvent(WidgetEvent(EventName(Initialized), Num(1), payload)));
    var w := NewWidget(Num(1), payload);
    assert w == map["id" := Num(1), "variant" := Str("blocks"), "blocks" := Num(3)];
    ReduceRemoved(AppState([], [w]), RemovedEvent(Num(1)));
    assert Without([w], Num(1)) == [];
  }

  /** Removing id 3 from widgets 1 and 2 changes nothing. */
  lemma ScenarioRemoveMissing()
    ensures var s := AppState([], [map["id" := Num(1)], map["id" := Num(2)]]);
      Reduce(s, RemovedEvent(Num(3))) == Reduced(s)
  {
    var s := AppState([], [map["id" := Num(1)], map["id" := Num(2)]]);
    EnvelopeForms(Num(3), Undefined);
    ReduceRemovedAbsent(s, RemovedEvent(Num(3)));
  }
}
