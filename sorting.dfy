/** `list.sort(key=lambda x: x[0])` on the `(button_index, label)` pairs of
    `get_buttons`. Python's sort is stable, so the reference definition here
    is an insertion sort that puts each element before the first element
    whose key is not smaller. */
module Sorting {

  /** A button candidate: its `button_index` and its label. */
  type Keyed = (int, string)

  predicate SortedByKey(s: seq<Keyed>)
  {
    forall i, j :: 0 <= i < j < |s| ==> s[i].0 <= s[j].0
  }

  /** The elements of `s` whose key is `k`, in their order in `s`. */
  function WithKey(s: seq<Keyed>, k: int): seq<Keyed>
  {
    if s == [] then []
    else (if s[0].0 == k then [s[0]] else []) + WithKey(s[1..], k)
  }

  function InsertByKey(p: Keyed, s: seq<Keyed>): (r: seq<Keyed>)
    ensures multiset(r) == multiset(s) + multiset{p}
    ensures |r| == |s| + 1
    ensures r[0] == p || (s != [] && r[0] == s[0])
  {
    if s == [] || p.0 <= s[0].0 then [p] + s
    else
      assert s == [s[0]] + s[1..];
      [s[0]] + InsertByKey(p, s[1..])
  }

  lemma {:induction false} InsertByKeySorted(p: Keyed, s: seq<Keyed>)
    requires SortedByKey(s)
    ensures SortedByKey(InsertByKey(p, s))
  {
    if s != [] && p.0 > s[0].0 {
      assert SortedByKey(s[1..]);
      InsertByKeySorted(p, s[1..]);
      var t := InsertByKey(p, s[1..]);
      forall j | 0 <= j < |t| ensures s[0].0 <= t[j].0 {
        assert t[j] in multiset(t);
        if t[j] != p {
          assert t[j] in s[1..];
        }
      }
    }
  }

  /** Inserting into a sorted sequence keeps the per-key order, with the new
      element first among those of its key. */
  lemma {:induction false} InsertByKeyWithKey(p: Keyed, s: seq<Keyed>, k: int)
    requires SortedByKey(s)
    ensures WithKey(InsertByKey(p, s), k) == (if p.0 == k then [p] else []) + WithKey(s, k)
  {
    if s == [] || p.0 <= s[0].0 {
      assert ([p] + s)[1..] == s;
    } else {
      assert SortedByKey(s[1..]);
      InsertByKeyWithKey(p, s[1..], k);
      var r := [s[0]] + InsertByKey(p, s[1..]);
      assert r[1..] == InsertByKey(p, s[1..]);
    }
  }

  /** The model of the stable sort. */
  function SortByKey(s: seq<Keyed>): (r: seq<Keyed>)
    ensures |r| == |s|
    ensures multiset(r) == multiset(s)
  {
    if s == [] then []
    else
      assert s == [s[0]] + s[1..];
      InsertByKey(s[0], SortByKey(s[1..]))
  }

  /** The result is in ascending `button_index` order. */
  lemma {:induction false} SortByKeySorted(s: seq<Keyed>)
    ensures SortedByKey(SortByKey(s))
  {
    if s != [] {
      SortByKeySorted(s[1..]);
      InsertByKeySorted(s[0], SortByKey(s[1..]));
    }
  }

  /** Stability: elements with equal keys keep their original relative order. */
  lemma {:induction false} SortByKeyStable(s: seq<Keyed>, k: int)
    ensures WithKey(SortByKey(s), k) == WithKey(s, k)
  {
    if s != [] {
      SortByKeyStable(s[1..], k);
      SortByKeySorted(s[1..]);
      InsertByKeyWithKey(s[0], SortByKey(s[1..]), k);
    }
  }

  /** The result holds exactly the elements of the input. */
  lemma SortByKeyMembers(s: seq<Keyed>, x: Keyed)
    ensures x in SortByKey(s) <==> x in s
  {
    assert x in SortByKey(s) <==> x in multiset(SortByKey(s));
    assert x in s <==> x in multiset(s);
  }
}
