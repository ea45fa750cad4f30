/** The per-chat conversation of bot.py: the `_states` map (chat id to
    current message id) and the handlers `start`, `show_main_menu_buttons_only`
    and `handle_message`, with each Telegram reply returned as a value. */
module Sessions {
  import opened Basics
  import opened Text
  import opened Scenario
  import opened Render
  import opened Resolver

  type ChatId = int

  type States = map<ChatId, Id>

  /** What a handler sends back: nothing, or one text with its reply
      keyboard, one button per row. The empty keyboard stands for a reply
      sent without `reply_markup` (the handlers never attach an empty one). */
  datatype Reply = Silent | Send(text: string, keyboard: seq<string>)

  /** An incoming update: the `/start` command or a plain text message. */
  datatype Inbound = StartCommand | TextMessage(text: string)

  const NotConfigured: string := "Сценарий не настроен."
  const ChooseAction: string := "Выберите действие:"
  const PleaseWait: string := "Спасибо, ожидайте."

  /** `if not start_id` fails: the start id exists and is truthy. */
  predicate Configured(start: Option<Id>)
  {
    start.Some? && !Falsy(start.value)
  }

  /** The reply after moving to `id`: its answer text with its buttons, or
      nothing at all when the answer text is empty. */
  function Shown(e: Engine, id: Id): Reply
  {
    var text := AnswerText(MessageAt(e, id));
    if text != "" then Send(text, ButtonLabels(e, id)) else Silent
  }

  /** The new states and the reply of one handler call. */
  datatype Outcome = Outcome(states: States, reply: Reply)

  /** `start`. */
  function StartOutcome(e: Engine, st: States, chat: ChatId): Outcome
  {
    if !Configured(e.startMessageId) then Outcome(st, Send(NotConfigured, []))
    else
      var s := e.startMessageId.value;
      Outcome(st[chat := s], Shown(e, s))
  }

  /** `show_main_menu_buttons_only`. */
  function MenuOutcome(e: Engine, st: States, chat: ChatId): Outcome
  {
    if !Configured(e.startMessageId) then Outcome(st, Send(NotConfigured, []))
    else
      var s := e.startMessageId.value;
      Outcome(st[chat := s], Send(ChooseAction, ButtonLabels(e, s)))
  }

  /** `handle_message`. */
  function MessageOutcome(e: Engine, st: States, chat: ChatId, text: string): Outcome
  {
    if text != "" && Strip(text) == ReturnToMenuButton then MenuOutcome(e, st, chat)
    else if chat !in st then StartOutcome(e, st, chat)
    else match NextMessage(e, st[chat], text)
      case None => Outcome(st, Send(PleaseWait, [ReturnToMenuButton]))
      case Some(n) => Outcome(st[chat := n], Shown(e, n))
  }

  /** `handle_message` past its two early returns: the outcome of following
      an edge from the chat's current message. */
  lemma MessageOutcomeEdge(e: Engine, st: States, chat: ChatId, text: string)
    requires !(text != "" && Strip(text) == ReturnToMenuButton) && chat in st
    ensures NextMessage(e, st[chat], text).None? ==>
      MessageOutcome(e, st, chat, text) == Outcome(st, Send(PleaseWait, [ReturnToMenuButton]))
    ensures NextMessage(e, st[chat], text).Some? ==>
      var n := NextMessage(e, st[chat], text).value;
      MessageOutcome(e, st, chat, text) == Outcome(st[chat := n], Shown(e, n))
  {
  }

  /** One update, dispatched as the application's two handlers do. */
  function TurnOutcome(e: Engine, st: States, chat: ChatId, inbound: Inbound): Outcome
  {
    match inbound
    case StartCommand => StartOutcome(e, st, chat)
    case TextMessage(text) => MessageOutcome(e, st, chat, text)
  }

  /** An id the engine can hand out: the start id or the target of an edge. */
  ghost predicate Produced(e: Engine, id: Id)
  {
    e.startMessageId == Some(id) || exists a, k :: 0 <= k < |Outs(e, a)| && Outs(e, a)[k].toId == id
  }

  ghost predicate AllProduced(e: Engine, st: States)
  {
    forall c :: c in st ==> Produced(e, st[c])
  }

  // ----- properties of one turn -----

  /** The return-to-menu label resets the chat to the start message and
      shows only the start message's buttons. */
  lemma ReturnToMenuResets(e: Engine, st: States, chat: ChatId, text: string)
    requires Strip(text) == ReturnToMenuButton && Configured(e.startMessageId)
    ensures MessageOutcome(e, st, chat, text)
         == Outcome(st[chat := e.startMessageId.value], Send(ChooseAction, ButtonLabels(e, e.startMessageId.value)))
  {
  }

  /** A chat without state is treated as `/start`. */
  lemma MissingStateActsAsStart(e: Engine, st: States, chat: ChatId, text: string)
    requires Strip(text) != ReturnToMenuButton && chat !in st
    ensures MessageOutcome(e, st, chat, text) == StartOutcome(e, st, chat)
  {
  }

  /** Text that matches no edge keeps the state and offers only the return button. */
  lemma NoMatchKeepsState(e: Engine, st: States, chat: ChatId, text: string)
    requires Strip(text) != ReturnToMenuButton && chat in st
    requires NextMessage(e, st[chat], text) == None
    ensures MessageOutcome(e, st, chat, text) == Outcome(st, Send(PleaseWait, [ReturnToMenuButton]))
  {
  }

  /** A matching edge moves the chat to its target and shows that message. */
  lemma MatchAdvances(e: Engine, st: States, chat: ChatId, text: string, next: Id)
    requires Strip(text) != ReturnToMenuButton && chat in st
    requires NextMessage(e, st[chat], text) == Some(next)
    ensures MessageOutcome(e, st, chat, text) == Outcome(st[chat := next], Shown(e, next))
  {
  }

  /** Without a truthy start id, `/start` and the menu button change nothing
      and report the missing scenario. */
  lemma UnconfiguredKeepsState(e: Engine, st: States, chat: ChatId)
    requires !Configured(e.startMessageId)
    ensures StartOutcome(e, st, chat) == Outcome(st, Send(NotConfigured, []))
    ensures MenuOutcome(e, st, chat) == Outcome(st, Send(NotConfigured, []))
  {
  }

  /** A start id of `0` counts as missing. */
  lemma ZeroStartIsUnconfigured(e: Engine, st: States, chat: ChatId)
    requires e.startMessageId == Some(Num(0))
    ensures TurnOutcome(e, st, chat, StartCommand) == Outcome(st, Send(NotConfigured, []))
  {
  }

  /** The id a turn stores for its chat, if it stores one. */
  function Stored(e: Engine, st: States, chat: ChatId, inbound: Inbound): Option<Id>
  {
    if inbound.TextMessage? && chat in st && !(inbound.text != "" && Strip(inbound.text) == ReturnToMenuButton) then
      NextMessage(e, st[chat], inbound.text)
    else if Configured(e.startMessageId) then e.startMessageId
    else None
  }

  /** A turn either leaves the map alone or writes the stored id for its chat. */
  lemma TurnStates(e: Engine, st: States, chat: ChatId, inbound: Inbound)
    ensures var t := Stored(e, st, chat, inbound);
      TurnOutcome(e, st, chat, inbound).states == if t.None? then st else st[chat := t.value]
  {
  }

  /** A turn touches only its own chat and never forgets a chat. */
  lemma TurnIsolatesChats(e: Engine, st: States, chat: ChatId, inbound: Inbound)
    ensures st.Keys <= TurnOutcome(e, st, chat, inbound).states.Keys
    ensures forall c :: c != chat ==>
      (c in TurnOutcome(e, st, chat, inbound).states <==> c in st)
    ensures forall c :: c != chat && c in st ==> TurnOutcome(e, st, chat, inbound).states[c] == st[c]
  {
    TurnStates(e, st, chat, inbound);
  }

  /** Storing a produced id keeps every stored id produced. */
  lemma StoreProduced(e: Engine, st: States, chat: ChatId, id: Id)
    requires AllProduced(e, st) && Produced(e, id)
    ensures AllProduced(e, st[chat := id])
  {
  }

  /** Every stored id is the start id or the target of some edge: a turn
      keeps that true. */
  lemma TurnKeepsProduced(e: Engine, st: States, chat: ChatId, inbound: Inbound)
    requires AllProduced(e, st)
    ensures AllProduced(e, TurnOutcome(e, st, chat, inbound).states)
  {
    TurnStates(e, st, chat, inbound);
    var t := Stored(e, st, chat, inbound);
    if t.Some? {
      if inbound.TextMessage? && chat in st && !(inbound.text != "" && Strip(inbound.text) == ReturnToMenuButton) {
        var k := NextEdge(e, st[chat], inbound.text);
        assert Outs(e, st[chat])[k].toId == t.value;
      }
      assert Produced(e, t.value);
      StoreProduced(e, st, chat, t.value);
    }
  }

  // ----- the handlers over the shared map -----

  /** The global `_states` together with the engine it is read against. */
  class ChatStates {
    const engine: Engine
    var states: States

    ghost predicate Valid()
      reads this
    {
      AllProduced(engine, states)
    }

    constructor (engine: Engine)
      ensures this.engine == engine && states == map[] && Valid()
    {
      this.engine := engine;
      states := map[];
    }

    /** The `/start` command. */
    method Start(chat: ChatId) returns (reply: Reply)
      requires Valid()
      modifies this
      ensures Valid()
      ensures Outcome(states, reply) == StartOutcome(engine, old(states), chat)
    {
      var startId := engine.startMessageId;
      if startId.None? || Falsy(startId.value) {
        return Send(NotConfigured, []);
      }
      states := states[chat := startId.value];
      var text := AnswerText(MessageAt(engine, startId.value));
      var buttons := GetButtons(engine, startId.value);
      if text != "" {
        reply := Send(text, buttons);
      } else {
        reply := Silent;
      }
    }

    /** The return-to-menu button: only the start message's buttons. */
    method ShowMainMenu(chat: ChatId) returns (reply: Reply)
      requires Valid()
      modifies this
      ensures Valid()
      ensures Outcome(states, reply) == MenuOutcome(engine, old(states), chat)
    {
      var startId := engine.startMessageId;
      if startId.None? || Falsy(startId.value) {
        return Send(NotConfigured, []);
      }
      states := states[chat := startId.value];
      var buttons := GetButtons(engine, startId.value);
      reply := Send(ChooseAction, buttons);
    }

    /** A plain text message. */
    method HandleMessage(chat: ChatId, text: string) returns (reply: Reply)
      requires Valid()
      modifies this
      ensures Valid()
      ensures Outcome(states, reply) == MessageOutcome(engine, old(states), chat, text)
    {
      if text != "" && Strip(text) == ReturnToMenuButton {
        reply := ShowMainMenu(chat);
        return;
      }
      if chat !in states {
        reply := Start(chat);
        return;
      }
      var current := states[chat];
      var next := FindNextMessage(engine, current, text);
      MessageOutcomeEdge(engine, states, chat, text);
      if next.None? {
        return Send(PleaseWait, [ReturnToMenuButton]);
      }
      TurnKeepsProduced(engine, states, chat, TextMessage(text));
      states := states[chat := next.value];
      var answer := AnswerText(MessageAt(engine, next.value));
      var buttons := GetButtons(engine, next.value);
      if answer != "" {
        reply := Send(answer, buttons);
      } else {
        reply := Silent;
      }
    }

    /** One incoming update. */
    method Turn(chat: ChatId, inbound: Inbound) returns (reply: Reply)
      requires Valid()
      modifies this
      ensures Valid()
      ensures Outcome(states, reply) == TurnOutcome(engine, old(states), chat, inbound)
    {
      match inbound
      case StartCommand =>
        reply := Start(chat);
      case TextMessage(text) =>
        reply := HandleMessage(chat, text);
    }
  }
}
