# Widget client state reducer, in Dafny

This project models the core of the Carver Blockchain Framework browser
client (`src/App.tsx`): the shared command and event vocabulary, the
event-sourced reducer that rebuilds the list of server-driven widgets from the
events the socket delivers, and the guard that sends outbound commands only
once a socket exists.

Modules, leaf first:

- `Wrappers` (`wrappers.dfy`): `Option`.
- `JsValues` (`js_values.dfy`): the untyped JavaScript values the client
  handles, with the three operations it applies to them: reading a property
  (`Get`), `===`/`!==` (`StrictEquals`) and object spread (`Spread`).
- `Vocabulary` (`vocabulary.dfy`): `commonLanguage` as two datatypes mapped to
  their wire strings, the dispatch on an event's `type`, and the message shapes
  `{ type, payload }`, `{ type, id, payload }` and `{ id }`.
- `Reducer` (`reducer.dfy`): the application state, `withWidgetEvent`,
  `reducer`, and the fold of a stream of events.
- `ReducerLemmas` (`reducer_lemmas.dfy`): what each branch of the reducer does,
  the removal filter's properties, id uniqueness, the fold, and two worked
  scenarios.
- `Connection` (`connection.dfy`): the `Client` class holding the optional
  socket and the record of everything sent, `emit`, `addWidget`,
  `removeWidget`, the `connect` handler, and which inbound channels reach the
  reducer.

The reducer is pure and is modelled with functions over `seq`. The component's
socket is state that `setSocket` replaces and that `emit` reads, so it is a
field of the class `Client`. Every `socket.emit` call is appended to the
field `sent`.

Points where the code behaves differently from what a reader might expect:

- The reducer is meant to ignore events it cannot use, but it can throw. It
  destructures the event (`src/App.tsx:68`), the payload of `WIDGETS:EMITTED`
  (`src/App.tsx:53`) and the payload of `WIDGETS:REMOVED` (`src/App.tsx:74`).
  Each of these throws a TypeError on `null` or `undefined`. `Reduce` returns
  `TypeError` in exactly these cases (`ReduceThrows`). `ReduceAll` stops the
  stream there.
- A widget is `{ id, ...payload }`, so a payload with its own `id` property
  overrides the event's id. `NewWidget` states this override, and the
  uniqueness lemma `ReduceKeepsUnique` asks for payloads without an `id`.
- Ids are not kept unique by the reducer. `ReduceKeepsUnique` shows they stay
  unique when the server never initializes a held id twice.

## Model

| member | source | states |
|---|---|---|
| JsValues.Get | src/App.tsx:68 | a property read gives the object's own property when present and `undefined` otherwise; it is defined only on values that are not null or undefined |
| JsValues.StrictEquals | src/App.tsx:77 | `!==` between two values is false exactly for equal primitives (undefined, null, booleans, numbers, strings); objects and arrays from separate messages are never identical |
| JsValues.Spread | src/App.tsx:61 | spreading an object gives its own properties; null, undefined, booleans and numbers give none; arrays and strings give only decimal index keys, so never `id` |
| Vocabulary.CommandName | src/App.tsx:34-42 | the command table: every wire string is upper-case words and colons, and exactly the commands of the `Widgets` group carry the `WIDGETS:` prefix |
| Vocabulary.EventName | src/App.tsx:43-50 | the event table: every wire string is upper-case words and colons, and exactly the two socket-level events carry the `WIDGETS:` prefix, the inner `INITIALIZED` does not |
| Vocabulary.WireNamesDistinct | src/App.tsx:33-51 | no two entries of the command and event table share a wire string |
| Vocabulary.ParseEvent | src/App.tsx:70-73 | the event kind selected for a string is the one whose name is that string, and none is selected exactly when no event name equals it |
| Vocabulary.ParseEventName | src/App.tsx:43-50 | looking up an event's own name selects that event |
| Vocabulary.Dispatch | src/App.tsx:70-73 | a `switch` on `type` selects a case exactly when `type` is the string of some event name, and then the case of that name |
| Vocabulary.Envelope | src/App.tsx:156 | the envelope `{ type, payload }` reads back the same type and payload |
| Vocabulary.WidgetEvent | src/App.tsx:53 | the widget event `{ type, id, payload }` reads back the same type, id and payload |
| Vocabulary.IdPayload | src/App.tsx:165 | `{ id }` reads back the same id |
| Reducer.NewWidget | src/App.tsx:61 | `{ id, ...payload }` has key `id` and the payload's keys with the payload's values; its `id` is the payload's own `id` when the payload is an object that has one, and the event's id otherwise |
| Reducer.Without | src/App.tsx:77 | the filtered list is no longer than the original and holds only original widgets whose id differs from the removed one |
| Reducer.WithWidgetEvent | src/App.tsx:53-66 | handling a widget event keeps `emit` and only appends to the widget list; held widgets keep their places |
| Reducer.Reduce | src/App.tsx:67-82 | every reduction keeps `emit` and grows the widget list by at most one |
| Reducer.ReduceAll | src/App.tsx:123-137 | folding a stream of events keeps `emit` |
| ReducerLemmas.ReduceUnrecognized | src/App.tsx:70-81 | an event whose type is neither `WIDGETS:EMITTED` nor `WIDGETS:REMOVED` leaves the state unchanged |
| ReducerLemmas.ReduceThrows | src/App.tsx:67-78 | the reducer throws exactly when the event is null or undefined, or is one of the two widget events with a null or undefined payload |
| ReducerLemmas.ReduceInitialized | src/App.tsx:53-63 | any `WIDGETS:EMITTED` event whose inner event has type `INITIALIZED`, whatever other keys either carries, yields `widgets == old widgets + [{ id, ...payload }]`: one longer, earlier widgets unchanged and in order, `emit` unchanged |
| ReducerLemmas.ReduceEmittedOther | src/App.tsx:64-65 | any `WIDGETS:EMITTED` event whose inner event can be destructured and has a type other than `INITIALIZED` leaves the state unchanged |
| ReducerLemmas.WithoutMembers | src/App.tsx:77 | a widget is in the filtered list if and only if it was held and its id differs from the removed id |
| ReducerLemmas.WithoutAppend | src/App.tsx:77 | filtering a concatenation concatenates the filtered parts, so kept widgets keep their relative order |
| ReducerLemmas.WithoutAbsent | src/App.tsx:77 | filtering by an id no widget carries returns the list unchanged |
| ReducerLemmas.WithoutShrinks | src/App.tsx:77 | the filtered list is shorter if and only if some widget carries the removed id |
| ReducerLemmas.ReduceRemoved | src/App.tsx:73-78 | after any `WIDGETS:REMOVED` event whose payload can be destructured, whatever other keys it carries, no widget with the payload's `id` remains, every other widget remains, the list is no longer, and only `widgets` changed |
| ReducerLemmas.ReduceRemovedAbsent | src/App.tsx:73-78 | any `WIDGETS:REMOVED` event for an id no widget carries leaves the state unchanged |
| ReducerLemmas.ReduceRemovedTwice | src/App.tsx:73-78 | applying the same `WIDGETS:REMOVED` event twice gives the state that applying it once gives |
| ReducerLemmas.EnvelopeForms | src/App.tsx:130-136 | the envelopes `{ type: 'WIDGETS:REMOVED', payload: { id } }` and `{ type: 'WIDGETS:EMITTED', payload: { type: 'INITIALIZED', id, payload } }` are removal and initialization events for that id and payload |
| ReducerLemmas.InitialStateEmpty | src/App.tsx:11-14 | `initialState` holds no widgets and no emits, so widget ids start out unique |
| ReducerLemmas.WithoutKeepsUnique | src/App.tsx:77 | removal keeps widget ids pairwise distinct |
| ReducerLemmas.AppendKeepsUnique | src/App.tsx:59-62 | appending a widget with an id no held widget carries keeps ids pairwise distinct |
| ReducerLemmas.ReduceKeepsUnique | src/App.tsx:67-82 | every successful reduction keeps ids pairwise distinct, provided an `INITIALIZED` event names an id not yet held and its payload has no `id` of its own |
| ReducerLemmas.ReduceAllAppend | src/App.tsx:123-137 | reducing `a + b` equals reducing `a` and then `b` from the resulting state; a TypeError in `a` ends the stream |
| ReducerLemmas.ScenarioAddThenRemove | src/App.tsx:53-78 | from the initial state, initializing widget 1 with `{ variant: 'blocks', blocks: 3 }` gives exactly that widget, and removing id 1 gives the initial state again |
| ReducerLemmas.ScenarioRemoveMissing | src/App.tsx:73-78 | removing id 3 from widgets 1 and 2 leaves the state unchanged |
| Connection.EmitSends | src/App.tsx:151-157 | `emit` sends nothing if and only if there is no socket; with a socket it sends exactly one message on the `emit` channel of that socket, and that message reads back the given type and payload |
| Connection.Inbound | src/App.tsx:123-137 | exactly the `emit`, `WIDGETS:EMITTED` and `WIDGETS:REMOVED` channels dispatch; `emit` passes its data through, the widget channels wrap it as `{ type: <channel>, payload }` |
| Connection.InboundChannelsAgree | src/App.tsx:130-137 | a widget event dispatches the same event whether it arrives on its dedicated channel or wrapped on the generic one |
| Connection.Client.constructor | src/App.tsx:87 | a new client has no socket and has sent nothing |
| Connection.Client.SetSocket | src/App.tsx:114 | storing the socket makes later emits go through it and sends nothing |
| Connection.Client.Emit | src/App.tsx:151-157 | the messages sent grow by exactly what `EmitSends` gives for the current socket: nothing without one |
| Connection.Client.AddWidget | src/App.tsx:159-163 | sends `{ type: 'WIDGETS:ADD', payload: { variant: 'blocks' } }` through the guard |
| Connection.Client.RemoveWidget | src/App.tsx:164-166 | sends `{ type: 'WIDGETS:REMOVE', payload: { id } }` through the guard |
| Connection.Client.OnConnect | src/App.tsx:116-122 | the `connect` handler sends `{ type: 'CONNECT' }`, with no payload, on the socket it was registered on |
| Connection.RemoveWidgetMessage | src/App.tsx:164-166 | with a socket, `removeWidget(id)` sends exactly one message, `{ type: 'WIDGETS:REMOVE', payload: { id } }` on the `emit` channel |

## Left out

- The reservation request (`src/App.tsx:98-104`): an HTTP call through axios with a timeout and a version header, made to an external service.
- Opening the socket and registering its listeners (`src/App.tsx:106-142`): asynchronous transport. What reaches the reducer is modelled by `Inbound`. The socket is a parameter of `SetSocket` and `OnConnect`.
- The failure path of the connection attempt (`src/App.tsx:143-148`): logging and a blocking alert.
- `addLog` and its clock timestamps, `alert`, `console.log`, and the JSON logging of events (`src/App.tsx:90-93`, `126`, `132`, `136`): diagnostics only.
- The React hooks (`useState`, `useReducer`, `useEffect`) and the rendering in `getWidgets` and the JSX (`src/App.tsx:85-87`, `168-207`). The fold `ReduceAll` stands for `dispatch`.
- What React does after the reducer throws: the model ends the event stream at the first `TypeError`.
- JavaScript numbers are modelled as integers. Fractions, `NaN` and `-0` are not modelled.
- JsValues.StrictEquals: integers beyond 2^53 are distinct in the model, but JSON decoding rounds them to the same double, so `!==` on such ids can be false in JavaScript where the model says true.
- JsValues.Spread: spreading a string gives one index key per Dafny `char` (a Unicode scalar value), while JavaScript gives one per UTF-16 code unit; a string with characters outside the Basic Multilingual Plane gets fewer keys in the model.
- Object identity: `StrictEquals` treats any two objects or arrays as different objects. This holds here because each compared value comes from its own socket message.
- Inherited properties: `Get` is used only for `type`, `id` and `payload`, which no prototype defines.
- The enumeration order of object keys: an object is a `map`.
- JsValues.Spread: for arrays and strings, it states only that the keys are decimal indices. It does not state which element each key holds.
- The command `WIDGETS:EMIT` is in the vocabulary but is never sent by the client.
