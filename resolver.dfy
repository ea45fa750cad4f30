/** `find_next_message` (bot.py): pick the first outgoing connection of the
    current message that accepts the user's text. */
module Resolver {
  import opened Basics
  import opened Text
  import opened Scenario
  import opened Render

  /** `[v.strip().lower() for v in parts if v.strip()]`. */
  function VariantsOf(parts: seq<string>): seq<string>
  {
    if parts == [] then []
    else (if Strip(parts[0]) != "" then [Lower(Strip(parts[0]))] else []) + VariantsOf(parts[1..])
  }

  /** The accepted inputs of a condition: its `;`-separated pieces, stripped,
      lower-cased, empty ones dropped. */
  function Variants(cond: string): seq<string>
  {
    VariantsOf(Split(cond, ';'))
  }

  /** Whether connection `c` accepts the already stripped and lower-cased
      input in the loop of `find_next_message`: a `read_data` edge accepts
      anything; otherwise the stripped condition must be non-empty and the
      input must equal one of its variants or the whole lower-cased
      condition. */
  predicate MatchesInput(c: Connection, input: string)
  {
    c.readData ||
    var cond := Strip(c.condition);
    cond != "" && (input in Variants(cond) || input == Lower(cond))
  }

  /** Whether connection `c` accepts the user's `text`. */
  predicate Matches(c: Connection, text: string)
  {
    MatchesInput(c, Lower(Strip(text)))
  }

  /** The target of the first connection from `current` that accepts `text`. */
  function NextMessage(e: Engine, current: Id, text: string): Option<Id>
  {
    var outs := Outs(e, current);
    match FirstWhere(outs, (c: Connection) => Matches(c, text))
    case None => None
    case Some(i) => Some(outs[i].toId)
  }

  /** One more rejecting edge extends the rejecting prefix of the scan. */
  lemma NoMatchYet(conns: seq<Connection>, input: string, i: nat)
    requires i < |conns| && !MatchesInput(conns[i], input)
    requires forall j :: 0 <= j < i ==> !MatchesInput(conns[j], input)
    ensures forall j :: 0 <= j < i + 1 ==> !MatchesInput(conns[j], input)
  {
  }

  /** `find_next_message(engine, current_id, user_text)`, returning the
      target id (the connection it also returns is not used by any caller). */
  method FindNextMessage(e: Engine, current: Id, text: string) returns (next: Option<Id>)
    ensures next == NextMessage(e, current, text)
    ensures next.None? <==> forall k :: 0 <= k < |Outs(e, current)| ==> !Matches(Outs(e, current)[k], text)
    ensures next.Some? ==>
      exists i :: (0 <= i < |Outs(e, current)| && Matches(Outs(e, current)[i], text)
        && Outs(e, current)[i].toId == next.value
        && forall j :: 0 <= j < i ==> !Matches(Outs(e, current)[j], text))
  {
    NextMessageFirst(e, current, text);
    var input := Lower(Strip(text));
    var conns := Outs(e, current);
    for i := 0 to |conns|
      invariant forall j :: 0 <= j < i ==> !MatchesInput(conns[j], input)
    {
      var c := conns[i];
      if c.readData {
        FirstWhereAt(conns, (c: Connection) => Matches(c, text), i);
        return Some(c.toId);
      }
      var cond := Strip(c.condition);
      if cond == "" {
        NoMatchYet(conns, input, i);
        continue;
      }
      if input in Variants(cond) {
        FirstWhereAt(conns, (c: Connection) => Matches(c, text), i);
        return Some(c.toId);
      }
      if input == Lower(cond) {
        FirstWhereAt(conns, (c: Connection) => Matches(c, text), i);
        return Some(c.toId);
      }
      NoMatchYet(conns, input, i);
    }
    return None;
  }

  // ----- properties -----

  /** `NextMessage` is the target of the first accepting edge, and `None`
      exactly when no edge accepts. */
  lemma NextMessageFirst(e: Engine, current: Id, text: string)
    ensures NextMessage(e, current, text).None? <==>
      forall k :: 0 <= k < |Outs(e, current)| ==> !Matches(Outs(e, current)[k], text)
    ensures NextMessage(e, current, text).Some? ==>
      exists i :: (0 <= i < |Outs(e, current)| && Matches(Outs(e, current)[i], text)
        && Outs(e, current)[i].toId == NextMessage(e, current, text).value
        && forall j :: 0 <= j < i ==> !Matches(Outs(e, current)[j], text))
  {
    var outs := Outs(e, current);
    var r := FirstWhere(outs, (c: Connection) => Matches(c, text));
    if r.Some? {
      assert outs[r.value].toId == NextMessage(e, current, text).value;
    }
  }

  lemma {:induction false} VariantsOfMembers(parts: seq<string>, v: string)
    ensures v in VariantsOf(parts) <==> exists p :: p in parts && Strip(p) != "" && Lower(Strip(p)) == v
  {
    if parts != [] {
      VariantsOfMembers(parts[1..], v);
      assert forall p :: p in parts <==> p == parts[0] || p in parts[1..];
    }
  }

  /** A non-empty piece of the condition, compared case-insensitively,
      accepts the input. */
  lemma VariantMatches(c: Connection, piece: string, text: string)
    requires piece in Split(Strip(c.condition), ';') && Strip(piece) != ""
    requires Lower(Strip(piece)) == Lower(Strip(text))
    ensures Matches(c, text)
  {
    JoinSplit(Strip(c.condition), ';');
    if Strip(c.condition) == "" {
      assert Split("", ';') == [""];
    }
    VariantsOfMembers(Split(Strip(c.condition), ';'), Lower(Strip(text)));
  }

  /** An edge without `read_data` and with a blank condition accepts nothing. */
  lemma BlankConditionSkipped(c: Connection, text: string)
    requires !c.readData && AllSpace(c.condition)
    ensures !Matches(c, text)
  {
  }

  /** A `read_data` edge that comes first wins for every input, even an
      empty or blank one. */
  lemma ReadDataFirstWins(e: Engine, current: Id, text: string)
    requires Outs(e, current) != [] && Outs(e, current)[0].readData
    ensures NextMessage(e, current, text) == Some(Outs(e, current)[0].toId)
  {
  }

  /** A `read_data` edge has no priority of its own: an earlier edge whose
      condition matches is taken instead. */
  lemma ReadDataNotFirst()
    ensures var a := Connection(Num(1), Num(2), "a", true, 0, false);
            var b := Connection(Num(1), Num(3), "", false, 0, true);
            var e := Engine(map[], map[Num(1) := [a, b]], None);
            NextMessage(e, Num(1), "A") == Some(Num(2))
  {
    var a := Connection(Num(1), Num(2), "a", true, 0, false);
    var b := Connection(Num(1), Num(3), "", false, 0, true);
    var e := Engine(map[], map[Num(1) := [a, b]], None);
    assert Strip("a") == "a";
    assert Strip("A") == "A";
    assert Lower("a") == "a" && Lower("A") == "a";
    assert Matches(a, "A");
    FirstWhereAt([a, b], (c: Connection) => Matches(c, "A"), 0);
  }

  /** Matching depends on the input only through its stripped lower case. */
  lemma CaseInsensitive(e: Engine, current: Id, text1: string, text2: string)
    requires Lower(Strip(text1)) == Lower(Strip(text2))
    ensures NextMessage(e, current, text1) == NextMessage(e, current, text2)
  {
    var outs := Outs(e, current);
    FirstWhereCongruent(outs, (c: Connection) => Matches(c, text1), (c: Connection) => Matches(c, text2));
  }

  /** Every transition leads to the target of an outgoing edge of `current`. */
  lemma NextIsEdgeTarget(e: Engine, current: Id, text: string)
    requires NextMessage(e, current, text).Some?
    ensures exists k :: 0 <= k < |Outs(e, current)| && Outs(e, current)[k].toId == NextMessage(e, current, text).value
  {
    var k := NextEdge(e, current, text);
  }

  /** The position of the edge a transition takes. */
  lemma NextEdge(e: Engine, current: Id, text: string) returns (k: nat)
    requires NextMessage(e, current, text).Some?
    ensures k < |Outs(e, current)| && Outs(e, current)[k].toId == NextMessage(e, current, text).value
  {
    k := FirstWhere(Outs(e, current), (c: Connection) => Matches(c, text)).value;
  }

  /** The whole stripped condition, compared case-insensitively, accepts the input. */
  lemma WholeConditionMatches(c: Connection, text: string)
    requires Strip(c.condition) != "" && Lower(Strip(text)) == Lower(Strip(c.condition))
    ensures Matches(c, text)
  {
  }

  /** Some transition is found as soon as one outgoing edge accepts the input. */
  lemma AcceptingEdgeGivesNext(e: Engine, current: Id, text: string, k: nat)
    requires k < |Outs(e, current)| && Matches(Outs(e, current)[k], text)
    ensures NextMessage(e, current, text).Some?
  {
    NextMessageFirst(e, current, text);
  }

  /** Tapping the label of a button edge leads somewhere. */
  lemma ButtonEdgeRoundTrip(e: Engine, id: Id, k: nat, text: string)
    requires k < |Outs(e, id)| && text != "" && Strip(Outs(e, id)[k].condition) == text
    ensures NextMessage(e, id, text).Some?
  {
    var c := Outs(e, id)[k];
    StripIdempotent(c.condition);
    WholeConditionMatches(c, text);
    AcceptingEdgeGivesNext(e, id, text, k);
  }

  /** Round trip: tapping any button taken from an edge leads somewhere,
      by the whole-condition comparison on that edge or an earlier match. */
  lemma EdgeButtonRoundTrip(e: Engine, id: Id, text: string)
    requires text in EdgeLabels(e, id)
    ensures NextMessage(e, id, text).Some?
  {
    EdgeLabelsMembers(e, id, text);
    var outs := Outs(e, id);
    var c :| c in outs && c.showAsButton && c.condition != "" && Strip(c.condition) == text;
    var k := IndexOf(outs, c);
    ButtonEdgeRoundTrip(e, id, k, text);
  }
}
