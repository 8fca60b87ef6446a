# ASTRID backend model

A Dafny model of the Python backend of the ASTRID home dashboard
(`astrid/main.py`). The backend keeps a single dashboard state (`HudState`):
headline, three-letter house status, battery percentage, load and solar
readings with their gauge ranges, the last line the user typed, and a
pending bot reply. It serves the dashboard's WebSocket clients. The
modelled pieces are:

- **The conversation controller** (`StatefulController`).
  - A priority-ordered keyword classifier: the message is lower-cased and trimmed, then tested against six keyword groups in a fixed order.
  - A reply generator: canned sentences, reading templates, and day arithmetic against a 30-day maintenance interval.
  - A history capped at the last 20 exchanges.
- **The connection registry** (`ConnectionManager`).
  - Connect appends.
  - Disconnect removes the first occurrence.
  - Broadcast keeps, in order, the sockets the frame could be sent to.
- **The WebSocket frame dispatch.**
  - A submitted line becomes the dashboard's last user line and is broadcast.
  - A clear-center frame follows, then the controller's reply.
  - A state request is answered to the requester alone.
  - Anything else is ignored.
- **The HTTP endpoints that change state.**
  - `update_state` overwrites only the supplied fields, then broadcasts the state.
  - `bot_reply` sets the pending reply, broadcasts it and clears it.
  - `process_message_directly` runs the controller on a text.

Module layout, one file each:

| Module | Contents |
|---|---|
| `Wrappers` | The `Option` type. |
| `Text` | `str.strip()`, ASCII `str.lower()`, and the substring test `w in s`, with its window characterisation. |
| `Numerals` | `str(n)` for integers, and reading a number back from text. |
| `Hud` | `HudState`, `StateUpdate`, the `setattr` loop as assignments, and `Merge`, its field-by-field meaning. |
| `Intents` | The classifier as written (`Classify`), and as a table walked first-match-wins (`FirstMatch`). |
| `Replies` | The reply sentences, templates and maintenance arithmetic. |
| `Conversation` | The bounded history and the `Controller` class. |
| `Protocol` | Sockets, frames and deliveries. |
| `Connections` | `Live`, which gives the sockets a broadcast keeps; `RemoveFirst`; and the `ConnectionManager` class. |
| `Endpoints` | The frame dispatch (`Dispatch`), its effect on the wire (`Transmit`), and the `Server` class that owns the state, the controller and the registry. |

Time, randomness and the network are parameters:

- `now` is a timestamp in microseconds.
- `pick` is the random draw. `random.choice(xs)` is `xs[pick % |xs|]`.
- `ok: (Socket, Frame) -> bool` says whether a send succeeds.

Confidences are stored in hundredths, so 90 stands for 0.9. Readings are
integers.

## Model

| member | source | states |
|---|---|---|
| Text.Strip | astrid/main.py:242 | `strip()` removes only whitespace from both ends. The result is empty exactly when the text is all whitespace, and otherwise begins and ends with a non-whitespace character. |
| Text.Lower | astrid/main.py:99 | `lower()` keeps the length, turns each upper-case ASCII letter into its lower-case letter, and keeps every other character. |
| Text.TrimStartSkips | astrid/main.py:99 | Leading whitespace in front of a text is removed without touching the text behind it. |
| Text.TrimEndSkips | astrid/main.py:99 | Trailing whitespace after a text is removed without touching the text in front of it. |
| Text.StripAround | astrid/main.py:99 | Stripping whitespace from around a text whose ends are not whitespace gives back exactly that text. |
| Text.OccursAt | astrid/main.py:102 | The scanning substring test `w in s` holds exactly when some window of `s` spells `w`. |
| Numerals.Show | astrid/main.py:157-160 | `str(n)` starts with a digit exactly when `n` is not negative; a negative number has a minus sign followed by digits. The digits have no leading zero: a first digit `0` means the number is 0 and is printed as "0". |
| Numerals.ShowThenRead | astrid/main.py:157-160 | Any integer printed into a sentence and followed by a non-digit is read back unchanged. |
| Hud.Merge | astrid/main.py:274-284 | An update with no field supplied leaves the state as it was, and an update never touches the pending bot reply. |
| Hud.ItemsMerge | astrid/main.py:294-296 | Applying the supplied fields one `setattr` at a time gives exactly the field-by-field merge. Supplied fields take the new value and all others keep the old one. |
| Hud.AssignAllAppend | astrid/main.py:295-296 | Running the assignment loop over two lists in a row equals running it over their concatenation. |
| Hud.MergeIdempotent | astrid/main.py:292-296 | Applying the same update twice gives the same state as applying it once. |
| Intents.Classify | astrid/main.py:99-129 | The intent is `unknown` exactly when no keyword of any group occurs in the normalized message. The confidence is always the fixed one for the intent: 0.9, 0.8, 0.85, 0.9, 0.7, 0.8, or 0.3 for `unknown`. |
| Intents.FirstMatch | astrid/main.py:101-129 | Walking the keyword table yields either `unknown` with 0.3 or the intent and confidence of one of the table's groups. |
| Intents.FirstMatchAt | astrid/main.py:101-129 | For any table of distinct intents, group `k` decides exactly when it matches and no earlier group does. |
| Intents.ClassifyIsFirstMatch | astrid/main.py:101-129 | The if-chain of `analyze_message` and the first-match walk of its keyword table classify every message alike. |
| Intents.FirstMatchWins | astrid/main.py:101-127 | A message gets the intent of group `k`, in the order greeting, status, power, battery, water, maintenance, exactly when a keyword of group `k` occurs in it and none of an earlier group does. |
| Intents.NormalizeKeeps | astrid/main.py:99 | Text with no upper-case letter and no surrounding whitespace is its own normal form. |
| Intents.HelloBatteryIsGreeting | astrid/main.py:99-119 | "hello battery" is classified as greeting with confidence 0.9, because greetings are tested first. |
| Intents.WhatIsMyBatteryIsStatus | astrid/main.py:99-119 | "what is my battery" is classified as status with confidence 0.8, because "what" is tested before "battery". |
| Intents.ShoutedHelloIsGreeting | astrid/main.py:99-103 | "  HELLO " is lower-cased and trimmed to "hello" and classified as greeting with confidence 0.9. |
| Intents.ThisBatteryIsGreeting | astrid/main.py:102 | Keywords match inside words: "this battery" contains "hi", so it is classified as a greeting. |
| Intents.NoGreeting | astrid/main.py:102 | A text without the letter pairs "he", "hi" and "gr" mentions no greeting keyword. |
| Replies.Choose | astrid/main.py:134 | `random.choice` always returns a member of the list. |
| Replies.ChooseReaches | astrid/main.py:134 | Every member of the list is returned by some draw. |
| Replies.ScheduleOf | astrid/main.py:155-160 | Past 30 days, maintenance is overdue by `days_since - 30`, which is at least 1. Otherwise the days since and the days until add up to 30, and the days until are at least 0. |
| Replies.MaintenanceReplyReports | astrid/main.py:154-160 | Reading the maintenance sentence back recovers exactly the schedule: the overdue count, or the days since and the days until. |
| Replies.Reply | astrid/main.py:131-163 | Greeting, status and unknown replies are members of their lists, and water gives its fixed sentence. A maintenance reply reads back as the schedule. A power or battery reply is one of its templates filled with the current readings. |
| Replies.FillContains | astrid/main.py:141-149 | Every piece of a template, literal or reading, appears in the filled sentence. |
| Replies.BatteryReplyStatesPercentage | astrid/main.py:147-149 | Every battery reply contains the battery percentage. |
| Replies.PowerReplyStatesReadings | astrid/main.py:139-145 | Every power reply contains both the load reading and the solar reading. |
| Conversation.Appended | astrid/main.py:88-95 | The new exchange is last, and the result is a suffix of the old history plus the new exchange. It grows by one below 20 entries and keeps its length at 20 or more. |
| Conversation.AppendedToFull | astrid/main.py:93-95 | A full history drops exactly its oldest entry and keeps the order of the rest. |
| Conversation.Controller.constructor | astrid/main.py:52-59 | A new controller has an empty history, and its last maintenance is seven days before its start. |
| Conversation.Controller.DaysSince | astrid/main.py:155 | The whole days since the last maintenance, rounded down as `timedelta.days` does. |
| Conversation.Controller.AddToHistory | astrid/main.py:88-95 | The history becomes the appended history and never holds more than 20 exchanges. |
| Conversation.Controller.ProcessMessage | astrid/main.py:165-177 | The response is the reply for the message's intent, and the exchange is recorded with it. |
| Protocol.Fanout | astrid/main.py:197-205 | A broadcast delivers the frame to each listed socket once, in list order. |
| Connections.LiveAppend | astrid/main.py:198-205 | The sockets a broadcast keeps from a concatenation are those kept from each part, in order. |
| Connections.LiveIsSubsequence | astrid/main.py:197-205 | The sockets kept by a broadcast form an order-preserving subsequence of the old list. |
| Connections.LiveCounts | astrid/main.py:197-205 | A socket is kept as often as it was listed if the send to it succeeds, and not at all otherwise. |
| Connections.LiveIdempotent | astrid/main.py:197-205 | Filtering the survivors again with the same success predicate keeps all of them. This is a fact about the filter, not about a second real send, which may fail. |
| Connections.RemoveFirst | astrid/main.py:193-195 | Removing an absent socket changes nothing, and removing a present one shortens the list by one. |
| Connections.RemoveFirstCounts | astrid/main.py:193-195 | Removal takes out exactly one copy of the socket and keeps every other socket. |
| Connections.RemoveFirstAt | astrid/main.py:193-195 | If the first occurrence is at index `i`, removal keeps everything before and after it, in order. |
| Connections.ConnectionManager.constructor | astrid/main.py:185-186 | The registry starts empty. |
| Connections.ConnectionManager.Connect | astrid/main.py:188-191 | The socket is appended at the end of the registry. |
| Connections.ConnectionManager.Disconnect | astrid/main.py:193-195 | The search loop and removal make the registry the list with the first occurrence removed. |
| Connections.ConnectionManager.Broadcast | astrid/main.py:197-205 | The loop leaves the registry as exactly the sockets the send succeeded for, in order, and returns one delivery to each. |
| Endpoints.Dispatch | astrid/main.py:238-265 | Only the last user line may change. A submission sets it to the trimmed text, records the exchange, and sends user line, then clear center, then the reply, to everyone. A blank or unknown frame changes nothing and sends nothing. A state request sends the state to the requester alone. |
| Endpoints.TransmitToSender | astrid/main.py:261-271 | A frame for the requester is delivered, or its failure disconnects the requester. |
| Endpoints.TransmitThree | astrid/main.py:247-257 | Three broadcasts in a row go, each in turn, to the sockets that survived the one before. |
| Endpoints.ThreeBroadcastsNest | astrid/main.py:247-257 | After three broadcasts the survivors keep their registration order, and every client that got the third frame also got the first two. |
| Endpoints.SubmissionFanout | astrid/main.py:241-257 | For a submitted line, every client that receives the bot reply has received the user line and the clear-center frame. |
| Endpoints.StateRequestAnswersSender | astrid/main.py:261-271 | A state request sends the state only to the requester. If that send fails, the requester is disconnected and nobody else is affected. |
| Endpoints.Server.constructor | astrid/main.py:46 | The server starts with the default state, an empty history and an empty registry. |
| Endpoints.Server.Accept | astrid/main.py:188-191 | A connecting socket is registered at the end and sent the full state if the send succeeds. |
| Endpoints.Server.HandleFrame | astrid/main.py:236-271 | One turn of the receive loop changes the state, the history, the registry and the deliveries exactly as `Dispatch` and `Transmit` describe. |
| Endpoints.Server.Submit | astrid/main.py:241-257 | A submitted line sets the last user line, records the exchange, and makes three broadcasts in order. |
| Endpoints.Server.AnswerStateRequest | astrid/main.py:261-263 | The state goes to the requester, or a failed send disconnects the requester. |
| Endpoints.Server.UpdateState | astrid/main.py:292-298 | The state becomes the field-by-field merge of the update, and the new state is broadcast. |
| Endpoints.Server.ApplyAll | astrid/main.py:295-296 | The `setattr` loop performs the supplied assignments in order. |
| Endpoints.Server.PostBotReply | astrid/main.py:305-311 | The reply text is broadcast, and the state afterwards equals the state before, with nothing left pending. |
| Endpoints.Server.ProcessDirectly | astrid/main.py:334-338 | The controller answers and records the text, and the analysis of the text is returned beside the reply. |

## Left out

- FastAPI wiring, static mounts, Jinja templates and the `/test` page read (astrid/main.py:17-25, 214-226): these are framework and file I/O.
- The read-only getters `/api/state` and `/api/controller/*` (astrid/main.py:287-289, 315-331): they only return data.
- `uvicorn` start-up and every `print`: they have no effect on state.
- `asyncio`, `asyncio.sleep(1.5)` and concurrency between socket handlers.
  - Each handler turn is modelled as one atomic step.
  - Interleavings of several clients' turns are not modelled.
- `datetime.now()` becomes the `now` parameter, in microseconds.
- `random.choice` becomes the `pick` parameter.
- Conversions between Python floats and ints.
  - Readings are integers, so the truncation of `int(...)` in the templates and the text of floats in `STATE.dict()` are not modelled.
  - Confidences are integers in hundredths.
- Non-ASCII case mapping: `lower()` is modelled on ASCII letters only.
- Pydantic validation and serialization (astrid/main.py:276, 208, 294).
  - The 1-3 character limit on `eve` is not enforced.
  - A field sent explicitly as `null` is not modelled; an update field is either supplied with a value or not supplied.
  - `HudState.dict()` is the state value itself in the `state` frame.
- A `text` field that is not a string (astrid/main.py:242). The model reads the text as a string or as missing.
  - A falsy value (`0`, `false`, `[]`, `{}`) becomes `""` through `or ""`, so the frame is ignored like one with no text.
  - A truthy non-string has no `strip()`, so the handler raises and disconnects the client (astrid/main.py:269-271). This case is not modelled.
- A frame that is valid JSON but not an object, such as `[1]` or `"hi"` (astrid/main.py:238). It has no `get`, so the handler raises and disconnects the client (astrid/main.py:269-271). `Inbound` stands only for JSON objects, so this case is not modelled.
- Receive failures and client-initiated disconnects (astrid/main.py:236, 266-268).
  - They call `Disconnect`, which is modelled.
  - The receive itself is not.
- The `user_preferences`, `alerts` and `mode` fields of the controller (astrid/main.py:54-58): nothing reads or writes them beyond the status getter.
- Conversation.Controller.Valid: the 20-entry bound is stated as a class invariant. `add_to_history` itself only drops one entry per call, which is what `Appended` models.
- Endpoints.Server.Accept: a failed first `send_state` ends the handler before its `try`, so the socket stays registered until a later broadcast fails on it. The model returns no delivery and keeps the socket.
- The client-side dashboard (reveal animation, keystroke capture, reconnect overlay) is not part of this model.
