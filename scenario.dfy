/** The records of a scenario and the engine built from them. */
module Scenario {
  import opened Basics

  /** A message id as it appears in the scenario: a JSON integer or string. */
  datatype Id = Num(n: int) | Str(s: string)

  /** Python truthiness of an id: `0` and `""` are false. */
  predicate Falsy(id: Id)
  {
    id == Num(0) || id == Str("")
  }

  /** One element of a message's embedded `buttons` list once parsed: a JSON
      object, whose `text` is "" when missing or empty, or anything else. */
  datatype ButtonItem = DictItem(text: string) | OtherItem

  /** A node of the dialogue. An absent `message_type` is `None`; an absent
      `condition` or `answer` is "". `buttons` is the outcome of parsing the
      embedded JSON: `None` when the field is missing or empty, or when parsing
      failed or did not give a list. */
  datatype Message = Message(
    id: Id,
    messageType: Option<int>,
    condition: string,
    answer: string,
    buttons: Option<seq<ButtonItem>>)

  /** An edge from `fromId` (`message_a_id`) to `toId` (`message_b_id`). An
      absent `condition` is "", an absent `button_index` is 0, absent flags
      are false. */
  datatype Connection = Connection(
    fromId: Id,
    toId: Id,
    condition: string,
    showAsButton: bool,
    buttonIndex: int,
    readData: bool)

  /** The dictionary `build_engine` returns. */
  datatype Engine = Engine(
    messages: map<Id, Message>,
    connectionsByFrom: map<Id, seq<Connection>>,
    startMessageId: Option<Id>)

  /** `engine["messages"].get(id)`. */
  function MessageAt(e: Engine, id: Id): Option<Message>
  {
    if id in e.messages then Some(e.messages[id]) else None
  }

  /** `connections_by_from.get(id, [])`. */
  function Group(byFrom: map<Id, seq<Connection>>, id: Id): seq<Connection>
  {
    if id in byFrom then byFrom[id] else []
  }

  /** `engine["connections_by_from"].get(id, [])`. */
  function Outs(e: Engine, id: Id): seq<Connection>
  {
    Group(e.connectionsByFrom, id)
  }

  /** The label offered on the last step of every branch. */
  const ReturnToMenuButton: string := "Вернуться в исходное меню"
}
