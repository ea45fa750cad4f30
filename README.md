# Scenario-graph engine of the real-estate Telegram bot

A Dafny model of the dialogue engine in `bot.py`. The scenario is a graph.
Its nodes are *messages*; each has an id, a type, a condition, an answer text
and optionally some embedded buttons. Its edges are *connections*
(`message_a_id` to `message_b_id`); each has a condition, a `show_as_button`
flag, a `button_index` and a `read_data` flag. The model covers:

- `build_engine`: indexes the messages by id and groups the connections by
  source, keeping input order. It then finds the start message, first
  through a type-4 trigger message and otherwise through the first
  connection between known messages (`builder.dfy`).
- `is_terminal_message`, `get_answer_text` and `get_buttons`
  (`render.dfy`). The stable sort by `button_index` is modelled on its own
  (`sorting.dfy`).
- `find_next_message`: the first outgoing connection that accepts the
  user's text (`resolver.dfy`).
- The per-chat state machine of `start`, `show_main_menu_buttons_only` and
  `handle_message` over the `_states` map (`sessions.dfy`). The class
  `ChatStates` holds the map as a field. Each handler returns the reply,
  as text plus keyboard labels, instead of calling Telegram.
- The Python string built-ins the engine uses (`text.dfy`): `strip`, `lower`,
  `split(";")`, `in` and `replace("\r\n", "\n")`.
- A two-button menu followed through rendering, matching and one turn
  (`menu.dfy`).

The loops of the source are methods with loop invariants:
- the message index and the connection grouping;
- the trigger search and the fallback search;
- the embedded-button loop;
- the edge scan of `find_next_message`.

Each of these methods is proved equal to a specification function, and the
lemmas state what the source promises about that function. The handlers
update the map field of `ChatStates`. Each one ensures that the new map and
the reply are those of a pure function of the old map (`TurnOutcome`). Each
one also keeps the class invariant: every stored id is the start id or the
target of some connection.

On these points the code is easy to misread; the model follows the code:
- A `read_data` edge has no priority of its own. It wins only when no
  earlier edge matches (`NextMessageFirst`, with the two-edge case
  `ReadDataNotFirst`). It also accepts empty or blank
  input (`ReadDataFirstWins`).
- The start id found through a trigger message is never checked against the
  message index. It can name a missing message (`TriggerStartUnchecked`), so
  the engine can move a chat to an unknown id. Only the fallback path checks
  both endpoints (`StartFromFallback`).
- A falsy start id (`0` or `""`) counts as "not configured", for `/start`
  and for the menu button alike (`UnconfiguredKeepsState`,
  `ZeroStartIsUnconfigured`).
- Labels keep the whole stripped condition, `;` included. Only matching
  splits on `;`.

A reply is `Silent` (nothing sent) or `Send(text, keyboard)`. An empty
keyboard stands for a reply sent without `reply_markup`; the handlers
never attach an empty keyboard.

## Model

| member | source | states |
|---|---|---|
| Text.Strip | bot.py:151 | `str.strip()`: the result is no longer than the input, neither starts nor ends with white space, and is empty exactly when the input is all white space (Python's `isspace` set) |
| Text.StripMiddle | bot.py:151 | the strip is the slice of the input that starts at some `k`, with only white space before `k` and after the slice; with the contract of `Strip` this fixes the result |
| Text.StripIdempotent | bot.py:124 | stripping an already stripped label changes nothing |
| Text.Lower | bot.py:173-176 | `str.lower()` keeps the length and lowers each character |
| Text.Split | bot.py:173 | `cond.split(";")` gives at least one piece and no piece holds the separator |
| Text.JoinSplit | bot.py:173 | joining the pieces of a split with the separator gives back the original condition |
| Text.Contains | bot.py:85 | `sub in s`: `sub` is a prefix of `s` or occurs in its tail |
| Text.ContainsAt | bot.py:85 | `sub in s` holds exactly when some slice `s[i..i+|sub|]` equals `sub` |
| Text.ReplaceCrlf | bot.py:154 | the CRLF replacement never lengthens the text and keeps a non-empty text non-empty |
| Text.ReplaceCrlfUnchanged | bot.py:154 | the replacement leaves the text unchanged exactly when it holds no CRLF |
| Text.ReplaceCrlfKeepsLineFeed | bot.py:154 | a text holding a CRLF keeps a line feed after the replacement |
| Text.ReplaceCrlfAround | bot.py:154 | each CRLF becomes one line feed and the text on either side of it is replaced on its own; with `ReplaceCrlfUnchanged` this fixes the result for every input |
| Sorting.InsertByKey | bot.py:128 | one insertion step of the sort adds exactly the new pair to the multiset of pairs |
| Sorting.InsertByKeySorted | bot.py:128 | inserting into a sequence sorted by `button_index` keeps it sorted |
| Sorting.InsertByKeyWithKey | bot.py:128 | an insertion puts the new pair first among the pairs of its key and keeps their order |
| Sorting.SortByKey | bot.py:128 | the sort is a permutation: same length, same multiset of pairs |
| Sorting.SortByKeySorted | bot.py:128 | the sorted pairs are in ascending `button_index` order |
| Sorting.SortByKeyStable | bot.py:128 | stability: pairs with equal `button_index` keep their input order |
| Sorting.SortByKeyMembers | bot.py:128 | the sorted pairs are exactly the input pairs |
| Builder.IndexKeys | bot.py:72 | an id is a key of `messages` exactly when some message record carries it |
| Builder.IndexLast | bot.py:72 | `messages[id]` is the last record with that id |
| Builder.IndexValues | bot.py:72 | every stored record is stored under its own id and comes from the input |
| Builder.OutgoingMembers | bot.py:73-78 | a connection is in the group of `a` exactly when it is an input connection with `message_a_id == a` |
| Builder.OutgoingAppend | bot.py:73-78 | grouping keeps relative input order: it distributes over concatenation of the connection list |
| Builder.StartFromTrigger | bot.py:80-89 | with a first trigger message that has outgoing connections, the start id is the target of its first connection |
| Builder.StartFromFallback | bot.py:91-96 | without a usable trigger edge, the start id is the target of the first connection whose endpoints are both known, and that target is a known message |
| Builder.IsTrigger | bot.py:83-85 | a trigger has `message_type` 4, a non-empty condition, and its lower-cased condition contains `start`, `старт` or `начать` |
| Builder.TriggerAt | bot.py:83-85 | a message is a trigger exactly when it has type 4, a non-empty condition, and one of the three tokens occurs at some position of its lower-cased condition |
| Builder.StartId | bot.py:80-96 | the start id: the trigger path's result when it yields one, otherwise the fallback path's |
| Builder.StartIdNone | bot.py:80-96 | the start id is `None` exactly when the trigger path yields nothing (no trigger, or the first trigger has no connection) and no connection links two known messages |
| Builder.StartWordTriggers | bot.py:83-85 | a type-4 message whose condition is `start` is a trigger |
| Builder.TriggerStartUnchecked | bot.py:86-88 | the trigger path yields a start id that is not a key of `messages` when its edge leads to an unknown id |
| Builder.IndexMessages | bot.py:72 | the loop builds the message index `Index(msgs)` |
| Builder.GroupConnections | bot.py:73-78 | the loop's keys are exactly the source ids, and each group is `Outgoing(conns, a)` |
| Builder.FindTriggerStart | bot.py:81-89 | the loop with `break` computes `TriggerStart`: stop at the first trigger, take its first edge's target if any |
| Builder.FindFallbackStart | bot.py:91-96 | the fallback loop computes `FallbackStart` |
| Builder.BuildEngine | bot.py:70-102 | the engine holds `Index(msgs)`, the groups `Outgoing(conns, a)` keyed by exactly the source ids, and `StartId(msgs, conns)` |
| Render.IsTerminal | bot.py:105-113 | a message is terminal when its id is known and it is of type 2 or has no outgoing connection |
| Render.TerminalByRecords | bot.py:105-113 | a message is terminal exactly when its id is known and its record is of type 2 or no input connection leaves it |
| Render.AnswerText | bot.py:147-154 | the answer text: `""` for a missing message, a blank answer or the sentinel, otherwise the stripped answer with each CRLF turned into a line feed |
| Render.AnswerTextEmpty | bot.py:147-154 | the answer text is empty exactly for a missing message, a blank answer or the `#{none}` sentinel |
| Render.AnswerTextNeverSentinel | bot.py:152 | the sentinel `#{none}` is never sent as text |
| Render.AnswerTextPlain | bot.py:151-154 | an answer without CRLF is sent exactly as stripped, unless it is the sentinel |
| Render.ButtonLabels | bot.py:116-144 | the keyboard: the edge labels sorted by `button_index`, or the embedded labels when there are none, then the return button on a terminal message |
| Render.ButtonPairsMembers | bot.py:123-127 | the pairs are exactly `(button_index, stripped condition)` of the button edges with a non-empty condition |
| Render.ButtonPairsAppend | bot.py:123-127 | each edge contributes its own pair, in edge order: the pairs of two runs of edges are those of the first run, then those of the second |
| Render.LabelTextsMembers | bot.py:129 | the extended labels are exactly the non-empty label texts of the pairs |
| Render.LabelTextsAppend | bot.py:129 | the labels keep the order and the repetitions of the pairs they come from: they distribute over concatenation |
| Render.EdgeLabelsMembers | bot.py:123-129 | an edge label is exactly a non-empty stripped condition of a button edge with a non-empty condition |
| Render.EdgeLabelsOrder | bot.py:128 | the edge labels come in ascending `button_index` order, ties in edge order |
| Render.EmbeddedLabelsMembers | bot.py:134-136 | the embedded labels are exactly the non-empty `text`s of object items |
| Render.EmbeddedLabelsAppend | bot.py:134-136 | the embedded labels keep the order and the repetitions of the items: they distribute over concatenation |
| Render.EmbeddedOnlyAsFallback | bot.py:131-138 | embedded buttons are used only when there is no edge label; a parse failure gives no embedded label |
| Render.ReturnButtonIffTerminal | bot.py:140-142 | the return label is appended once, as the last label, exactly on a terminal message |
| Render.CollectEmbedded | bot.py:134-136 | the loop over the parsed items collects `EmbeddedLabels(items)` |
| Render.GetButtons | bot.py:116-144 | `get_buttons` computes `ButtonLabels`, whose properties are the lemmas above |
| Resolver.Matches | bot.py:162-177 | an edge accepts a text when it is a `read_data` edge, or its stripped condition is non-blank and the stripped, lower-cased text is one of its variants or the whole lower-cased condition |
| Resolver.NextMessage | bot.py:157-179 | the target of the first outgoing edge of the current message that accepts the text, or `None` |
| Resolver.FindNextMessage | bot.py:157-179 | the edge scan returns the target of the first accepting edge in stored order, and `None` exactly when no edge accepts |
| Resolver.NextMessageFirst | bot.py:165-179 | `NextMessage` is `None` exactly when no edge accepts; otherwise it is the target of an accepting edge with no accepting edge before it |
| Resolver.VariantsOfMembers | bot.py:173 | a variant is exactly the stripped, lower-cased form of a non-blank piece |
| Resolver.VariantMatches | bot.py:172-175 | a non-blank `;` piece of the condition equal to the input up to case and surrounding white space accepts the input |
| Resolver.WholeConditionMatches | bot.py:176-177 | the whole stripped condition, compared case-insensitively, accepts the input |
| Resolver.BlankConditionSkipped | bot.py:169-171 | an edge without `read_data` and with a blank condition accepts nothing |
| Resolver.ReadDataFirstWins | bot.py:165-168 | a first `read_data` edge is taken for every input, even an empty or blank one |
| Resolver.ReadDataNotFirst | bot.py:165-177 | an earlier matching condition edge wins over a later `read_data` edge |
| Resolver.CaseInsensitive | bot.py:162-176 | two inputs with the same stripped lower case lead to the same next message |
| Resolver.NextIsEdgeTarget | bot.py:165-177 | every transition goes to the target of an outgoing edge of the current message |
| Resolver.AcceptingEdgeGivesNext | bot.py:165-179 | if any outgoing edge accepts the input, a next message is found |
| Resolver.ButtonEdgeRoundTrip | bot.py:176-177 | typing the stripped condition of an edge leads somewhere |
| Resolver.EdgeButtonRoundTrip | bot.py:123-177 | round trip: every edge-sourced label of `get_buttons`, typed back, gives a next message |
| Sessions.StartOutcome | bot.py:195-218 | `/start`: without a truthy start id, the map is unchanged and the reply is `Сценарий не настроен.`; otherwise the chat moves to the start id and the start message is shown |
| Sessions.MenuOutcome | bot.py:221-239 | the menu button: like `/start`, but the reply is `Выберите действие:` with the start message's labels |
| Sessions.MessageOutcome | bot.py:242-283 | a text: the return label opens the menu, a chat without state starts, otherwise the chat follows the first accepting edge and shows its target, or stays and is told to wait |
| Sessions.ReturnToMenuResets | bot.py:249-252 | the return label moves the chat to the start id and replies `Выберите действие:` with only the start message's buttons |
| Sessions.MissingStateActsAsStart | bot.py:254-258 | a chat without state is handled exactly as `/start` |
| Sessions.NoMatchKeepsState | bot.py:260-268 | no transition: the state is unchanged and the reply is `Спасибо, ожидайте.` with only the return button |
| Sessions.MatchAdvances | bot.py:270-283 | a transition stores the next id and shows that message |
| Sessions.UnconfiguredKeepsState | bot.py:200-203 | without a truthy start id, `/start` and the menu button leave the state unchanged and reply `Сценарий не настроен.` |
| Sessions.ZeroStartIsUnconfigured | bot.py:201 | a start id of `0` counts as missing |
| Sessions.TurnStates | bot.py:242-283 | a turn either leaves the map alone or writes one id for its own chat |
| Sessions.TurnIsolatesChats | bot.py:242-283 | a turn never forgets a chat and changes no other chat's state |
| Sessions.TurnKeepsProduced | bot.py:254-270 | every stored id stays the start id or the target of some connection |
| Sessions.ChatStates.constructor | bot.py:184 | `_states` starts empty |
| Sessions.ChatStates.Start | bot.py:195-218 | the `/start` handler yields the new map and reply of `StartOutcome` and keeps the invariant |
| Sessions.ChatStates.ShowMainMenu | bot.py:221-239 | the menu handler yields `MenuOutcome` |
| Sessions.ChatStates.HandleMessage | bot.py:242-283 | the text handler yields `MessageOutcome` |
| Sessions.ChatStates.Turn | bot.py:195-283 | one update yields `TurnOutcome` |
| Menu.PlainLabelFixed | bot.py:169-176 | a plain label is its own strip, its own lower case and its only variant |
| Menu.MenuEdgeMatches | bot.py:169-177 | a plain input matches a plain button edge exactly when it equals the edge's label |
| Menu.MenuEdgeLabels | bot.py:123-129 | two button edges give their two labels, swapped exactly when the second has the smaller `button_index` |
| Menu.MenuButtons | bot.py:116-144 | a non-terminal menu shows exactly those two labels, no embedded button and no return button |
| Menu.MenuNext | bot.py:157-179 | at the menu, the first label leads to the first target, the second to the second, anything else nowhere |
| Menu.MenuTurn | bot.py:242-283 | one turn at the menu: move to the chosen target and show it, or stay and acknowledge |

## Left out

- The HTTP webhook and its thread pool, `asyncio.run` and the timeout are transport and concurrency, so they are not modelled (`api/webhook.py` is not part of this model).
- `log_visit` writes files and reads the clock and the environment, so it is not modelled.
- `load_scenario` and `json.load` read a file. The scenario is given as records.
- Telegram objects (`Update`, `KeyboardButton`, `ReplyKeyboardMarkup`, `reply_text`), `create_application`, `main` and the `BOT_TOKEN` check are replaced by the returned `Reply`.
- The lazily built global `_engine` is not modelled. The engine is passed explicitly, as a field of `ChatStates`.
- The race between two concurrent turns of the same chat is not modelled. Turns are sequential.
- `json.loads` of the embedded buttons is modelled only by its outcome: a parsed list, or `None` for a parse or type failure, a non-list, or a missing or empty field.
- An embedded button whose `text` is a truthy non-string is not modelled. Items are objects with a string `text`, or anything else.
- JSON `null`, boolean or float ids, a non-integer `button_index` and a non-string condition or answer are not modelled.
- The unused connection that `find_next_message` also returns is dropped. No caller reads it.
- Commands other than `/start` are not modelled. Every other update is a text message.
- A message record without `id`, or a connection without `message_a_id` or `message_b_id`, makes the source raise `KeyError` (bot.py:72, 75, 88, 94, 168). Records here always carry these fields, so that error path is not modelled.
- A `message_type` that is not an integer (for example the string `"4"`) is not modelled: the type is an optional integer, so such a record cannot be written.
- Text.Lower: covers ASCII, Latin-1 and the basic Cyrillic letters only, not full Unicode lower-casing (including the characters whose lower case has another length).
