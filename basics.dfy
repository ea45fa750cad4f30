/** Small building blocks shared by the engine: an optional value and a
    first-match search over a sequence. */
module Basics {

  /** Python's `None` or a present value. */
  datatype Option<+T> = None | Some(value: T)

  /** Index of the first element of `s` satisfying `p`, or `None` when no
      element does: the shape of every `for ... : if ...: ... break` search. */
  function FirstWhere<T>(s: seq<T>, p: T -> bool): (r: Option<nat>)
    ensures r.Some? ==> r.value < |s| && p(s[r.value])
    ensures r.Some? ==> forall j :: 0 <= j < r.value ==> !p(s[j])
    ensures r.None? <==> forall j :: 0 <= j < |s| ==> !p(s[j])
  {
    if s == [] then None
    else if p(s[0]) then Some(0)
    else match FirstWhere(s[1..], p)
      case None => None
      case Some(i) => Some(i + 1)
  }

  /** The first match is pinned down by a matching index with no match before it. */
  lemma FirstWhereAt<T>(s: seq<T>, p: T -> bool, i: nat)
    requires i < |s| && p(s[i])
    requires forall j :: 0 <= j < i ==> !p(s[j])
    ensures FirstWhere(s, p) == Some(i)
  {
  }

  /** The first match in a two-element sequence. */
  lemma FirstWhereTwo<T>(x: T, y: T, p: T -> bool)
    ensures FirstWhere([x, y], p) == if p(x) then Some(0) else if p(y) then Some(1) else None
  {
    assert [x, y][1..] == [y];
    assert [y][1..] == [];
  }

  /** A position of an element known to be in the sequence. */
  lemma IndexOf<T>(s: seq<T>, x: T) returns (k: nat)
    requires x in s
    ensures k < |s| && s[k] == x
  {
    k :| 0 <= k < |s| && s[k] == x;
  }

  /** Two predicates that agree on every element find the same first match. */
  lemma FirstWhereCongruent<T>(s: seq<T>, p: T -> bool, q: T -> bool)
    requires forall j :: 0 <= j < |s| ==> p(s[j]) == q(s[j])
    ensures FirstWhere(s, p) == FirstWhere(s, q)
  {
    match FirstWhere(s, p)
    case None =>
    case Some(i) => FirstWhereAt(s, q, i);
  }

  /** Concatenation regrouped. */
  lemma ConcatAssoc<T>(x: seq<T>, y: seq<T>, z: seq<T>)
    ensures x + (y + z) == (x + y) + z
  {
  }
}
