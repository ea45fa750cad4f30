/** A menu message with two button edges, followed through rendering,
    matching and one turn: the composition of `get_buttons`,
    `find_next_message` and `handle_message` on a small graph. */
module Menu {
  import opened Basics
  import opened Text
  import opened Scenario
  import opened Sorting
  import opened Render
  import opened Resolver
  import opened Sessions

  /** A label typed as it is shown: non-empty, no surrounding white space,
      no `;`, and already in lower case. */
  predicate PlainLabel(s: string)
  {
    s != [] && !IsSpace(s[0]) && !IsSpace(s[|s| - 1]) && ';' !in s &&
    forall i :: 0 <= i < |s| ==> LowerChar(s[i]) == s[i]
  }

  /** A button edge of the menu: shown as a button, no `read_data`, and a
      plain label as its condition. */
  predicate MenuEdge(c: Connection)
  {
    c.showAsButton && !c.readData && PlainLabel(c.condition)
  }

  lemma LowerFixed(s: string)
    requires forall i :: 0 <= i < |s| ==> LowerChar(s[i]) == s[i]
    ensures Lower(s) == s
  {
  }

  lemma StripFixed(s: string)
    requires s != [] && !IsSpace(s[0]) && !IsSpace(s[|s| - 1])
    ensures Strip(s) == s
  {
    assert StripLeft(s) == s;
  }

  /** A string without the separator splits into itself. */
  lemma {:induction false} SplitNoSeparator(s: string, d: char)
    requires d !in s
    ensures Split(s, d) == [s]
  {
    if s != [] {
      SplitNoSeparator(s[1..], d);
      assert [s[0]] + s[1..] == s;
    }
  }

  /** A plain label is its own strip and lower case, and its only variant. */
  lemma PlainLabelFixed(s: string)
    requires PlainLabel(s)
    ensures Strip(s) == s && Lower(s) == s && Variants(s) == [s]
  {
    StripFixed(s);
    LowerFixed(s);
    SplitNoSeparator(s, ';');
    assert [s][1..] == [];
    assert VariantsOf([s]) == [Lower(Strip(s))] + VariantsOf([]);
  }

  /** A plain input matches a menu edge exactly when it is the edge's label. */
  lemma MenuEdgeMatches(c: Connection, text: string)
    requires MenuEdge(c) && PlainLabel(text)
    ensures Matches(c, text) <==> text == c.condition
  {
    PlainLabelFixed(c.condition);
    PlainLabelFixed(text);
  }

  lemma TwoButtonPairs(c: Connection, d: Connection)
    requires c.showAsButton && c.condition != "" && d.showAsButton && d.condition != ""
    ensures ButtonPairs([c, d]) == [(c.buttonIndex, Strip(c.condition)), (d.buttonIndex, Strip(d.condition))]
  {
    assert [c, d][1..] == [d];
    assert [d][1..] == [];
    assert ButtonPairs([d]) == [(d.buttonIndex, Strip(d.condition))] + ButtonPairs([]);
  }

  /** Sorting two pairs swaps them only when the second has the smaller key. */
  lemma SortTwo(x: Keyed, y: Keyed)
    ensures SortByKey([x, y]) == if x.0 <= y.0 then [x, y] else [y, x]
  {
    assert [x, y][1..] == [y];
    assert [y][1..] == [];
    assert SortByKey([y]) == [y];
  }

  lemma TwoLabelTexts(x: Keyed, y: Keyed)
    requires x.1 != "" && y.1 != ""
    ensures LabelTexts([x, y]) == [x.1, y.1]
  {
    assert [x, y][1..] == [y];
    assert [y][1..] == [];
    assert LabelTexts([y]) == [y.1] + LabelTexts([]);
  }

  /** The two edges give one label each, ordered by `button_index` and, on
      equal indices, by edge order. */
  lemma MenuEdgeLabels(e: Engine, m: Id, c: Connection, d: Connection)
    requires Outs(e, m) == [c, d] && MenuEdge(c) && MenuEdge(d)
    ensures EdgeLabels(e, m)
         == if c.buttonIndex <= d.buttonIndex then [c.condition, d.condition] else [d.condition, c.condition]
  {
    PlainLabelFixed(c.condition);
    PlainLabelFixed(d.condition);
    var x := (c.buttonIndex, c.condition);
    var y := (d.buttonIndex, d.condition);
    TwoButtonPairs(c, d);
    SortTwo(x, y);
    if x.0 <= y.0 {
      TwoLabelTexts(x, y);
    } else {
      TwoLabelTexts(y, x);
    }
  }

  /** A menu message of a type other than 2 is not terminal, so it shows
      exactly its two edge labels and no return button. */
  lemma MenuButtons(e: Engine, m: Id, c: Connection, d: Connection)
    requires Outs(e, m) == [c, d] && MenuEdge(c) && MenuEdge(d)
    requires m in e.messages && e.messages[m].messageType != Some(2)
    ensures ButtonLabels(e, m)
         == if c.buttonIndex <= d.buttonIndex then [c.condition, d.condition] else [d.condition, c.condition]
  {
    MenuEdgeLabels(e, m, c, d);
    EmbeddedOnlyAsFallback(e, m);
    ReturnButtonIffTerminal(e, m);
  }

  /** Typing a plain input at the menu: the first edge's label, the second
      edge's label, or anything else. */
  lemma MenuNext(e: Engine, m: Id, c: Connection, d: Connection, text: string)
    requires Outs(e, m) == [c, d] && MenuEdge(c) && MenuEdge(d) && PlainLabel(text)
    ensures NextMessage(e, m, text)
         == if text == c.condition then Some(c.toId)
            else if text == d.condition then Some(d.toId)
            else None
  {
    MenuEdgeMatches(c, text);
    MenuEdgeMatches(d, text);
    FirstWhereTwo(c, d, (x: Connection) => Matches(x, text));
  }

  /** One turn of a chat standing at the menu. */
  lemma MenuTurn(e: Engine, st: States, chat: ChatId, m: Id, c: Connection, d: Connection, text: string)
    requires Outs(e, m) == [c, d] && MenuEdge(c) && MenuEdge(d) && PlainLabel(text)
    requires chat in st && st[chat] == m && text != ReturnToMenuButton
    ensures TurnOutcome(e, st, chat, TextMessage(text))
         == if text == c.condition then Outcome(st[chat := c.toId], Shown(e, c.toId))
            else if text == d.condition then Outcome(st[chat := d.toId], Shown(e, d.toId))
            else Outcome(st, Send(PleaseWait, [ReturnToMenuButton]))
  {
    PlainLabelFixed(text);
    MenuNext(e, m, c, d, text);
  }
}
