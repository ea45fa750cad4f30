/** What the bot shows for a message: `is_terminal_message`,
    `get_answer_text` and `get_buttons` (bot.py). */
module Render {
  import opened Basics
  import opened Text
  import opened Scenario
  import opened Sorting
  import opened Builder

  /** `is_terminal_message`: a known message that is of type 2 or has no
      outgoing connection. */
  predicate IsTerminal(e: Engine, id: Id)
  {
    id in e.messages && (e.messages[id].messageType == Some(2) || Outs(e, id) == [])
  }

  /** Terminality read off the raw records of an engine built by `BuildEngine`:
      some record has the id, and the last such record is of type 2 or no
      input connection leaves the id. */
  lemma TerminalByRecords(e: Engine, msgs: seq<Message>, conns: seq<Connection>, id: Id)
    requires e.messages == Index(msgs)
    requires forall a :: Outs(e, a) == Outgoing(conns, a)
    ensures IsTerminal(e, id) <==>
      id in Index(msgs) &&
      (Index(msgs)[id].messageType == Some(2) || forall c :: c in conns ==> c.fromId != id)
  {
    IndexKeys(msgs, id);
    var outs := Outgoing(conns, id);
    if outs != [] {
      OutgoingMembers(conns, id, outs[0]);
    }
    forall c | c in conns && c.fromId == id ensures c in outs {
      OutgoingMembers(conns, id, c);
    }
  }

  /** The answer of a message that means "send no text". */
  const NoneSentinel: string := "#{none}"

  /** `get_answer_text`: the stripped answer with CRLF turned into LF, or ""
      for a missing message, a blank answer or the sentinel. */
  function AnswerText(msg: Option<Message>): string
  {
    if msg.None? then ""
    else
      var text := Strip(msg.value.answer);
      if text == NoneSentinel || text == "" then "" else ReplaceCrlf(text)
  }

  /** The answer text is empty exactly in the three "nothing to say" cases. */
  lemma AnswerTextEmpty(msg: Option<Message>)
    ensures AnswerText(msg) == "" <==>
      msg.None? || AllSpace(msg.value.answer) || Strip(msg.value.answer) == NoneSentinel
  {
  }

  /** The sentinel itself is never sent. */
  lemma AnswerTextNeverSentinel(msg: Option<Message>)
    ensures AnswerText(msg) != NoneSentinel
  {
    if msg.Some? {
      var text := Strip(msg.value.answer);
      if text != NoneSentinel && text != "" {
        ReplaceCrlfNotSentinel(text);
      }
    }
  }

  /** Replacing CRLF in anything but the sentinel does not produce it. */
  lemma ReplaceCrlfNotSentinel(t: string)
    requires t != NoneSentinel
    ensures ReplaceCrlf(t) != NoneSentinel
  {
    ReplaceCrlfUnchanged(t);
    if Contains(t, "\r\n") {
      ReplaceCrlfKeepsLineFeed(t);
      assert '\n' !in NoneSentinel;
    }
  }

  /** An answer without CRLF is sent exactly as stripped. */
  lemma AnswerTextPlain(msg: Option<Message>)
    requires msg.Some? && !Contains(Strip(msg.value.answer), "\r\n")
    ensures AnswerText(msg) == (if Strip(msg.value.answer) == NoneSentinel then "" else Strip(msg.value.answer))
  {
    ReplaceCrlfUnchanged(Strip(msg.value.answer));
  }

  /** `conn_buttons`: `(button_index, condition.strip())` for each edge that
      is shown as a button and has a non-empty condition, in edge order. */
  function ButtonPairs(outs: seq<Connection>): seq<Keyed>
  {
    if outs == [] then [] else ButtonPair(outs[0]) + ButtonPairs(outs[1..])
  }

  /** The pair one edge contributes, if any. */
  function ButtonPair(c: Connection): seq<Keyed>
  {
    if c.showAsButton && c.condition != "" then [(c.buttonIndex, Strip(c.condition))] else []
  }

  /** `[text for _, text in conn_buttons if text]`. */
  function LabelTexts(pairs: seq<Keyed>): seq<string>
  {
    if pairs == [] then []
    else (if pairs[0].1 != "" then [pairs[0].1] else []) + LabelTexts(pairs[1..])
  }

  /** The labels taken from the edges, sorted by `button_index`. */
  function EdgeLabels(e: Engine, id: Id): seq<string>
  {
    LabelTexts(SortByKey(ButtonPairs(Outs(e, id))))
  }

  /** The `text` of every parsed embedded button that is an object with a
      non-empty `text`, in list order. */
  function EmbeddedLabels(items: seq<ButtonItem>): seq<string>
  {
    if items == [] then []
    else
      var b := items[|items| - 1];
      EmbeddedLabels(items[..|items| - 1]) + (if b.DictItem? && b.text != "" then [b.text] else [])
  }

  /** The edge labels, or the embedded ones when there are none. */
  function BaseLabels(e: Engine, id: Id): seq<string>
  {
    var fromEdges := EdgeLabels(e, id);
    if fromEdges != [] then fromEdges
    else match MessageAt(e, id)
      case Some(m) => (match m.buttons case Some(items) => EmbeddedLabels(items) case None => [])
      case None => []
  }

  /** `get_buttons`: the base labels, then the return button on a terminal message. */
  function ButtonLabels(e: Engine, id: Id): seq<string>
  {
    BaseLabels(e, id) + (if IsTerminal(e, id) then [ReturnToMenuButton] else [])
  }

  // ----- properties of the labels -----

  lemma {:induction false} ButtonPairsMembers(outs: seq<Connection>, p: Keyed)
    ensures p in ButtonPairs(outs) <==>
      exists c :: c in outs && c.showAsButton && c.condition != "" && p == (c.buttonIndex, Strip(c.condition))
  {
    if outs != [] {
      ButtonPairsMembers(outs[1..], p);
      assert forall c :: c in outs <==> c == outs[0] || c in outs[1..];
    }
  }

  lemma {:induction false} LabelTextsMembers(pairs: seq<Keyed>, text: string)
    ensures text in LabelTexts(pairs) <==> text != "" && exists p :: p in pairs && p.1 == text
  {
    if pairs != [] {
      LabelTextsMembers(pairs[1..], text);
      assert forall p :: p in pairs <==> p == pairs[0] || p in pairs[1..];
    }
  }

  /** The button pairs of two runs of edges are those of the first run, then
      those of the second: each edge contributes its own pair, in edge order. */
  lemma {:induction false} ButtonPairsAppend(a: seq<Connection>, b: seq<Connection>)
    ensures ButtonPairs(a + b) == ButtonPairs(a) + ButtonPairs(b)
  {
    if a == [] {
      assert a + b == b;
    } else {
      var t := a + b;
      assert t[0] == a[0] && t[1..] == a[1..] + b;
      ButtonPairsAppend(a[1..], b);
      assert ButtonPairs(t) == ButtonPair(a[0]) + (ButtonPairs(a[1..]) + ButtonPairs(b));
      assert ButtonPairs(a) == ButtonPair(a[0]) + ButtonPairs(a[1..]);
      ConcatAssoc(ButtonPair(a[0]), ButtonPairs(a[1..]), ButtonPairs(b));
    }
  }

  /** The labels of two runs of pairs are those of the first run, then those
      of the second: order and repetitions are kept. */
  lemma {:induction false} LabelTextsAppend(a: seq<Keyed>, b: seq<Keyed>)
    ensures LabelTexts(a + b) == LabelTexts(a) + LabelTexts(b)
  {
    if a == [] {
      assert a + b == b;
    } else {
      var h := if a[0].1 != "" then [a[0].1] else [];
      LabelTextsAppend(a[1..], b);
      assert (a + b)[0] == a[0] && (a + b)[1..] == a[1..] + b;
      assert LabelTexts(a + b) == h + LabelTexts(a[1..] + b);
      assert LabelTexts(a) == h + LabelTexts(a[1..]);
      ConcatAssoc(h, LabelTexts(a[1..]), LabelTexts(b));
    }
  }

  /** The edge labels are exactly the non-empty stripped conditions of the
      message's button edges. */
  lemma EdgeLabelsMembers(e: Engine, id: Id, text: string)
    ensures text in EdgeLabels(e, id) <==>
      text != "" && exists c :: c in Outs(e, id) && c.showAsButton && c.condition != "" && Strip(c.condition) == text
  {
    var pairs := ButtonPairs(Outs(e, id));
    var sorted := SortByKey(pairs);
    LabelTextsMembers(sorted, text);
    if text in EdgeLabels(e, id) {
      var p :| p in sorted && p.1 == text;
      SortByKeyMembers(pairs, p);
      ButtonPairsMembers(Outs(e, id), p);
    }
    if text != "" && exists c :: c in Outs(e, id) && c.showAsButton && c.condition != "" && Strip(c.condition) == text {
      var c :| c in Outs(e, id) && c.showAsButton && c.condition != "" && Strip(c.condition) == text;
      var p := (c.buttonIndex, Strip(c.condition));
      ButtonPairsMembers(Outs(e, id), p);
      SortByKeyMembers(pairs, p);
    }
  }

  /** The button pairs come out in ascending `button_index` order, and pairs
      with equal `button_index` in edge order. */
  lemma EdgeLabelsOrder(e: Engine, id: Id)
    ensures SortedByKey(SortByKey(ButtonPairs(Outs(e, id))))
    ensures forall k :: WithKey(SortByKey(ButtonPairs(Outs(e, id))), k) == WithKey(ButtonPairs(Outs(e, id)), k)
  {
    SortByKeySorted(ButtonPairs(Outs(e, id)));
    forall k ensures WithKey(SortByKey(ButtonPairs(Outs(e, id))), k) == WithKey(ButtonPairs(Outs(e, id)), k) {
      SortByKeyStable(ButtonPairs(Outs(e, id)), k);
    }
  }

  /** The embedded labels are exactly the non-empty texts of object items. */
  lemma {:induction false} EmbeddedLabelsMembers(items: seq<ButtonItem>, text: string)
    ensures text in EmbeddedLabels(items) <==> text != "" && DictItem(text) in items
  {
    if items != [] {
      var init := items[..|items| - 1];
      EmbeddedLabelsMembers(init, text);
      assert items == init + [items[|items| - 1]];
    }
  }

  /** The embedded labels of two runs of items are those of the first run,
      then those of the second: order and repetitions are kept. */
  lemma {:induction false} EmbeddedLabelsAppend(a: seq<ButtonItem>, b: seq<ButtonItem>)
    ensures EmbeddedLabels(a + b) == EmbeddedLabels(a) + EmbeddedLabels(b)
  {
    if b == [] {
      assert a + b == a;
    } else {
      var init, last := b[..|b| - 1], b[|b| - 1];
      EmbeddedLabelsAppend(a, init);
      assert (a + b)[..|a + b| - 1] == a + init && (a + b)[|a + b| - 1] == last;
      ConcatAssoc(EmbeddedLabels(a), EmbeddedLabels(init),
                  if last.DictItem? && last.text != "" then [last.text] else []);
    }
  }

  /** Embedded buttons are a fallback only: any edge label hides them all. */
  lemma EmbeddedOnlyAsFallback(e: Engine, id: Id)
    ensures EdgeLabels(e, id) != [] ==> BaseLabels(e, id) == EdgeLabels(e, id)
    ensures EdgeLabels(e, id) == [] && id in e.messages && e.messages[id].buttons.Some? ==>
      BaseLabels(e, id) == EmbeddedLabels(e.messages[id].buttons.value)
    ensures EdgeLabels(e, id) == [] && (id !in e.messages || e.messages[id].buttons.None?) ==>
      BaseLabels(e, id) == []
  {
  }

  /** The return button is appended once, as the last label, exactly on a
      terminal message. */
  lemma ReturnButtonIffTerminal(e: Engine, id: Id)
    ensures IsTerminal(e, id) <==> |ButtonLabels(e, id)| == |BaseLabels(e, id)| + 1
    ensures IsTerminal(e, id) ==> ButtonLabels(e, id) == BaseLabels(e, id) + [ReturnToMenuButton]
    ensures !IsTerminal(e, id) ==> ButtonLabels(e, id) == BaseLabels(e, id)
  {
  }

  // ----- the renderer -----

  /** The `for b in raw` loop over the parsed embedded buttons. */
  method CollectEmbedded(items: seq<ButtonItem>) returns (labels: seq<string>)
    ensures labels == EmbeddedLabels(items)
  {
    labels := [];
    for i := 0 to |items|
      invariant labels == EmbeddedLabels(items[..i])
    {
      var b := items[i];
      assert items[..i + 1][..i] == items[..i];
      if b.DictItem? && b.text != "" {
        labels := labels + [b.text];
      }
    }
    assert items[..|items|] == items;
  }

  /** `get_buttons(engine, message_id)`. */
  method GetButtons(e: Engine, id: Id) returns (buttons: seq<string>)
    ensures buttons == ButtonLabels(e, id)
  {
    var msg := MessageAt(e, id);
    var conns := Outs(e, id);
    var connButtons := SortByKey(ButtonPairs(conns));
    buttons := LabelTexts(connButtons);
    if buttons == [] && msg.Some? && msg.value.buttons.Some? {
      var embedded := CollectEmbedded(msg.value.buttons.value);
      buttons := buttons + embedded;
    }
    if IsTerminal(e, id) {
      buttons := buttons + [ReturnToMenuButton];
    }
  }
}
