/** `build_engine` (bot.py): index messages by id, group connections by
    their source, and find the start message. */
module Builder {
  import opened Basics
  import opened Text
  import opened Scenario

  /** `{m["id"]: m for m in messages}`: a later record with the same id
      replaces an earlier one. */
  function Index(msgs: seq<Message>): map<Id, Message>
  {
    if msgs == [] then map[]
    else Index(msgs[..|msgs| - 1])[msgs[|msgs| - 1].id := msgs[|msgs| - 1]]
  }

  /** The connections of `conns` leaving `a`, in input order. */
  function Outgoing(conns: seq<Connection>, a: Id): seq<Connection>
  {
    if conns == [] then []
    else
      var last := conns[|conns| - 1];
      Outgoing(conns[..|conns| - 1], a) + (if last.fromId == a then [last] else [])
  }

  /** The ids that occur as `message_a_id`. */
  function FromIds(conns: seq<Connection>): set<Id>
  {
    set c | c in conns :: c.fromId
  }

  /** A `message_type == 4` message whose lower-cased condition holds one of
      the activation tokens. */
  predicate IsTrigger(m: Message)
  {
    m.messageType == Some(4) && m.condition != "" &&
    var cond := Lower(m.condition);
    Contains(cond, "start") || Contains(cond, "старт") || Contains(cond, "начать")
  }

  /** The trigger rule by positions: a type-4 message with a non-empty
      condition whose lower case holds one of the three tokens somewhere. */
  lemma TriggerAt(m: Message)
    ensures IsTrigger(m) <==>
      m.messageType == Some(4) && m.condition != "" &&
      (TokenAt(m, "start") || TokenAt(m, "старт") || TokenAt(m, "начать"))
  {
    var cond := Lower(m.condition);
    ContainsAt(cond, "start");
    ContainsAt(cond, "старт");
    ContainsAt(cond, "начать");
  }

  /** `token` occurs somewhere in the lower-cased condition of `m`. */
  ghost predicate TokenAt(m: Message, token: string)
  {
    exists i :: At(Lower(m.condition), token, i)
  }

  /** Both endpoints of `c` are known messages. */
  predicate Linked(c: Connection, messages: map<Id, Message>)
  {
    c.fromId in messages && c.toId in messages
  }

  /** The target of the first edge of the first trigger message, if both exist. */
  function TriggerStart(msgs: seq<Message>, conns: seq<Connection>): Option<Id>
  {
    match FirstWhere(msgs, IsTrigger)
    case None => None
    case Some(i) =>
      var outs := Outgoing(conns, msgs[i].id);
      if outs == [] then None else Some(outs[0].toId)
  }

  /** The target of the first connection whose endpoints are both known. */
  function FallbackStart(msgs: seq<Message>, conns: seq<Connection>): Option<Id>
  {
    var messages := Index(msgs);
    match FirstWhere(conns, (c: Connection) => Linked(c, messages))
    case None => None
    case Some(k) => Some(conns[k].toId)
  }

  /** `start_message_id`: the trigger path, else the fallback path. */
  function StartId(msgs: seq<Message>, conns: seq<Connection>): Option<Id>
  {
    var t := TriggerStart(msgs, conns);
    if t.Some? then t else FallbackStart(msgs, conns)
  }

  /** No trigger message, or the first one has no outgoing connection. */
  predicate NoTriggerEdge(msgs: seq<Message>, conns: seq<Connection>)
  {
    forall i :: 0 <= i < |msgs| && IsTrigger(msgs[i]) && (forall j :: 0 <= j < i ==> !IsTrigger(msgs[j]))
      ==> Outgoing(conns, msgs[i].id) == []
  }

  // ----- the index -----

  /** The keys of the index are exactly the ids of the records. */
  lemma {:induction false} IndexKeys(msgs: seq<Message>, id: Id)
    ensures id in Index(msgs) <==> exists i :: 0 <= i < |msgs| && msgs[i].id == id
  {
    if msgs != [] {
      var init := msgs[..|msgs| - 1];
      IndexKeys(init, id);
      if id in Index(init) {
        var i :| 0 <= i < |init| && init[i].id == id;
        assert msgs[i].id == id;
      }
      if id != msgs[|msgs| - 1].id && exists i :: 0 <= i < |msgs| && msgs[i].id == id {
        var i :| 0 <= i < |msgs| && msgs[i].id == id;
        assert init[i].id == id;
      }
    }
  }

  /** The index maps an id to the last record carrying it. */
  lemma {:induction false} IndexLast(msgs: seq<Message>, i: nat)
    requires i < |msgs|
    requires forall j :: i < j < |msgs| ==> msgs[j].id != msgs[i].id
    ensures msgs[i].id in Index(msgs) && Index(msgs)[msgs[i].id] == msgs[i]
  {
    if i < |msgs| - 1 {
      var init := msgs[..|msgs| - 1];
      assert forall j :: i < j < |init| ==> init[j].id != init[i].id;
      IndexLast(init, i);
    }
  }

  /** Every stored record is stored under its own id. */
  lemma {:induction false} IndexValues(msgs: seq<Message>, id: Id)
    requires id in Index(msgs)
    ensures Index(msgs)[id].id == id && Index(msgs)[id] in msgs
  {
    var init := msgs[..|msgs| - 1];
    if id != msgs[|msgs| - 1].id {
      IndexValues(init, id);
    }
  }

  // ----- grouping by source -----

  /** A connection is grouped under `a` exactly when it is an input
      connection leaving `a`. */
  lemma {:induction false} OutgoingMembers(conns: seq<Connection>, a: Id, c: Connection)
    ensures c in Outgoing(conns, a) <==> c in conns && c.fromId == a
  {
    if conns != [] {
      var init := conns[..|conns| - 1];
      OutgoingMembers(init, a, c);
      assert conns == init + [conns[|conns| - 1]];
    }
  }

  /** Grouping keeps relative order: it distributes over concatenation. */
  lemma {:induction false} OutgoingAppend(x: seq<Connection>, y: seq<Connection>, a: Id)
    ensures Outgoing(x + y, a) == Outgoing(x, a) + Outgoing(y, a)
  {
    if y != [] {
      var y' := y[..|y| - 1];
      assert (x + y)[..|x + y| - 1] == x + y';
      OutgoingAppend(x, y', a);
    } else {
      assert x + y == x;
    }
  }

  // ----- the start message -----

  /** The trigger path: the first trigger message's first edge decides. */
  lemma StartFromTrigger(msgs: seq<Message>, conns: seq<Connection>, i: nat)
    requires i < |msgs| && IsTrigger(msgs[i])
    requires forall j :: 0 <= j < i ==> !IsTrigger(msgs[j])
    requires Outgoing(conns, msgs[i].id) != []
    ensures StartId(msgs, conns) == Some(Outgoing(conns, msgs[i].id)[0].toId)
  {
    FirstWhereAt(msgs, IsTrigger, i);
  }

  /** The fallback path: the first connection between known messages
      decides, and its target is a known message. */
  lemma StartFromFallback(msgs: seq<Message>, conns: seq<Connection>, k: nat)
    requires NoTriggerEdge(msgs, conns)
    requires k < |conns| && Linked(conns[k], Index(msgs))
    requires forall j :: 0 <= j < k ==> !Linked(conns[j], Index(msgs))
    ensures StartId(msgs, conns) == Some(conns[k].toId)
    ensures conns[k].toId in Index(msgs)
  {
    var messages := Index(msgs);
    FirstWhereAt(conns, (c: Connection) => Linked(c, messages), k);
  }

  /** No start message exactly when neither path yields one. */
  lemma StartIdNone(msgs: seq<Message>, conns: seq<Connection>)
    ensures StartId(msgs, conns) == None <==>
      NoTriggerEdge(msgs, conns) && forall k :: 0 <= k < |conns| ==> !Linked(conns[k], Index(msgs))
  {
    var messages := Index(msgs);
    match FirstWhere(msgs, IsTrigger)
    case None =>
    case Some(i) =>
      if Outgoing(conns, msgs[i].id) == [] {
        forall i' | 0 <= i' < |msgs| && IsTrigger(msgs[i']) && (forall j :: 0 <= j < i' ==> !IsTrigger(msgs[j]))
          ensures Outgoing(conns, msgs[i'].id) == []
        {
          FirstWhereAt(msgs, IsTrigger, i');
        }
      }
  }

  /** A `message_type == 4` message whose condition is `start` is a trigger. */
  lemma StartWordTriggers(m: Message)
    requires m.messageType == Some(4) && m.condition == "start"
    ensures IsTrigger(m)
  {
    assert Lower("start") == "start";
    assert StartsWith("start", "start");
  }

  /** The trigger path does not check its target: the start id can name a
      message that does not exist. */
  lemma TriggerStartUnchecked(a: Id, b: Id)
    requires a != b
    ensures var msgs := [Message(a, Some(4), "start", "", None)];
            var conns := [Connection(a, b, "", false, 0, false)];
            StartId(msgs, conns) == Some(b) && b !in Index(msgs)
  {
    var msgs := [Message(a, Some(4), "start", "", None)];
    var conns := [Connection(a, b, "", false, 0, false)];
    StartWordTriggers(msgs[0]);
    assert Outgoing(conns[..0], a) == [];
    assert Outgoing(conns, a) == [conns[0]];
    StartFromTrigger(msgs, conns, 0);
    IndexKeys(msgs, b);
  }

  // ----- the builder -----

  /** The first loop of `build_engine`: `messages = {m["id"]: m for m in ...}`. */
  method IndexMessages(msgs: seq<Message>) returns (messages: map<Id, Message>)
    ensures messages == Index(msgs)
  {
    messages := map[];
    for i := 0 to |msgs|
      invariant messages == Index(msgs[..i])
    {
      assert msgs[..i + 1][..i] == msgs[..i];
      messages := messages[msgs[i].id := msgs[i]];
    }
    assert msgs[..|msgs|] == msgs;
  }

  /** Appending one connection extends exactly the group of its source. */
  lemma OutgoingSnoc(conns: seq<Connection>, i: nat, a: Id)
    requires i < |conns|
    ensures Outgoing(conns[..i + 1], a)
         == Outgoing(conns[..i], a) + (if conns[i].fromId == a then [conns[i]] else [])
  {
    assert conns[..i + 1][..i] == conns[..i];
  }

  /** The second loop: append every connection to the list of its source,
      creating the list on first sight. */
  method GroupConnections(conns: seq<Connection>) returns (byFrom: map<Id, seq<Connection>>)
    ensures byFrom.Keys == FromIds(conns)
    ensures forall a :: Group(byFrom, a) == Outgoing(conns, a)
  {
    byFrom := map[];
    for i := 0 to |conns|
      invariant byFrom.Keys == FromIds(conns[..i])
      invariant forall a :: Group(byFrom, a) == Outgoing(conns[..i], a)
    {
      var c := conns[i];
      ghost var before := byFrom;
      if c.fromId !in byFrom {
        byFrom := byFrom[c.fromId := []];
      }
      byFrom := byFrom[c.fromId := byFrom[c.fromId] + [c]];
      forall a ensures Group(byFrom, a) == Outgoing(conns[..i + 1], a) {
        OutgoingSnoc(conns, i, a);
      }
      assert conns[..i + 1] == conns[..i] + [c];
      assert FromIds(conns[..i + 1]) == FromIds(conns[..i]) + {c.fromId};
    }
    assert conns[..|conns|] == conns;
  }

  /** The first half of the start search: stop at the first trigger message
      and take its first edge's target, if it has one. */
  method FindTriggerStart(msgs: seq<Message>, conns: seq<Connection>,
                          byFrom: map<Id, seq<Connection>>) returns (start: Option<Id>)
    requires forall a :: Group(byFrom, a) == Outgoing(conns, a)
    ensures start == TriggerStart(msgs, conns)
  {
    for i := 0 to |msgs|
      invariant forall j :: 0 <= j < i ==> !IsTrigger(msgs[j])
    {
      var m := msgs[i];
      if m.messageType == Some(4) && m.condition != "" {
        var cond := Lower(m.condition);
        if Contains(cond, "start") || Contains(cond, "старт") || Contains(cond, "начать") {
          var outs := Group(byFrom, m.id);
          FirstWhereAt(msgs, IsTrigger, i);
          if outs != [] {
            return Some(outs[0].toId);
          }
          return None;
        }
      }
    }
    return None;
  }

  /** The fallback: the target of the first connection between known messages. */
  method FindFallbackStart(msgs: seq<Message>, conns: seq<Connection>,
                           messages: map<Id, Message>) returns (start: Option<Id>)
    requires messages == Index(msgs)
    ensures start == FallbackStart(msgs, conns)
  {
    for k := 0 to |conns|
      invariant forall j :: 0 <= j < k ==> !Linked(conns[j], messages)
    {
      var c := conns[k];
      if c.fromId in messages && c.toId in messages {
        FirstWhereAt(conns, (c: Connection) => Linked(c, messages), k);
        return Some(c.toId);
      }
    }
    return None;
  }

  /** `build_engine(data)`. */
  method BuildEngine(msgs: seq<Message>, conns: seq<Connection>) returns (e: Engine)
    ensures e.messages == Index(msgs)
    ensures e.connectionsByFrom.Keys == FromIds(conns)
    ensures forall a :: Outs(e, a) == Outgoing(conns, a)
    ensures e.startMessageId == StartId(msgs, conns)
  {
    var messages := IndexMessages(msgs);
    var byFrom := GroupConnections(conns);
    var start := FindTriggerStart(msgs, conns, byFrom);
    if start == None {
      start := FindFallbackStart(msgs, conns, messages);
    }
    e := Engine(messages, byFrom, start);
  }
}
