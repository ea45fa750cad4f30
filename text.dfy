/** The Python string built-ins the engine relies on: `str.strip()`,
    `str.lower()`, `str.split(";")`, the `in` substring test and
    `str.replace("\r\n", "\n")`. */
module Text {
  import opened Basics

  /** Python's `str.isspace()` on one character: ASCII whitespace, the
      information separators U+001C..U+001F and the Unicode space characters. */
  predicate IsSpace(c: char)
  {
    c == ' ' || ('\t' <= c <= '\r') || ('\U{1C}' <= c <= '\U{1F}')
    || c == '\U{85}' || c == '\U{A0}' || c == '\U{1680}'
    || ('\U{2000}' <= c <= '\U{200A}') || c == '\U{2028}' || c == '\U{2029}'
    || c == '\U{202F}' || c == '\U{205F}' || c == '\U{3000}'
  }

  predicate AllSpace(s: string)
  {
    forall i :: 0 <= i < |s| ==> IsSpace(s[i])
  }

  /** `s.lstrip()`: the suffix of `s` left after its leading whitespace. */
  function StripLeft(s: string): (r: string)
    ensures |r| <= |s| && r == s[|s| - |r|..]
    ensures forall i :: 0 <= i < |s| - |r| ==> IsSpace(s[i])
    ensures r == [] || !IsSpace(r[0])
  {
    if s != [] && IsSpace(s[0]) then
      var r := StripLeft(s[1..]);
      assert s[1..][|s| - 1 - |r|..] == s[|s| - |r|..];
      r
    else s
  }

  /** `s.rstrip()`: the prefix of `s` left before its trailing whitespace. */
  function StripRight(s: string): (r: string)
    ensures |r| <= |s| && r == s[..|r|]
    ensures forall i :: |r| <= i < |s| ==> IsSpace(s[i])
    ensures r == [] || !IsSpace(r[|r| - 1])
  {
    if s != [] && IsSpace(s[|s| - 1]) then StripRight(s[..|s| - 1]) else s
  }

  /** `s.strip()`: `s` without leading and trailing whitespace; empty
      exactly when `s` is all whitespace. */
  function Strip(s: string): (r: string)
    ensures |r| <= |s|
    ensures r == [] || (!IsSpace(r[0]) && !IsSpace(r[|r| - 1]))
    ensures r == [] <==> AllSpace(s)
  {
    var l := StripLeft(s);
    var r := StripRight(l);
    r
  }

  /** The strip is the middle of `s`: it starts at `k`, and what is cut
      off on either side is white space. */
  lemma StripMiddle(s: string) returns (k: nat)
    ensures k + |Strip(s)| <= |s| && Strip(s) == s[k..k + |Strip(s)|]
    ensures forall i :: 0 <= i < k ==> IsSpace(s[i])
    ensures forall i :: k + |Strip(s)| <= i < |s| ==> IsSpace(s[i])
  {
    var l := StripLeft(s);
    k := |s| - |l|;
    forall i | k + |Strip(s)| <= i < |s| ensures IsSpace(s[i]) {
      assert s[i] == l[i - k];
    }
  }

  /** Stripping twice changes nothing. */
  lemma StripIdempotent(s: string)
    ensures Strip(Strip(s)) == Strip(s)
  {
    var t := Strip(s);
    if t != [] {
      assert StripLeft(t) == t;
      assert StripRight(t) == t;
    }
  }

  /** `str.lower()` on one character, for ASCII, Latin-1 and Cyrillic letters. */
  function LowerChar(c: char): char
  {
    if 'A' <= c <= 'Z' then (c as int + 32) as char
    else if '\U{C0}' <= c <= '\U{DE}' && c != '\U{D7}' then (c as int + 32) as char
    else if '\U{400}' <= c <= '\U{40F}' then (c as int + 80) as char
    else if '\U{410}' <= c <= '\U{42F}' then (c as int + 32) as char
    else c
  }

  /** `s.lower()`: the character-wise lower case of `s`. */
  function Lower(s: string): (r: string)
    ensures |r| == |s|
    ensures forall i :: 0 <= i < |s| ==> r[i] == LowerChar(s[i])
  {
    if s == [] then [] else [LowerChar(s[0])] + Lower(s[1..])
  }

  predicate StartsWith(s: string, prefix: string)
  {
    |prefix| <= |s| && s[..|prefix|] == prefix
  }

  /** Python's `sub in s`. */
  predicate Contains(s: string, sub: string)
  {
    StartsWith(s, sub) || (s != [] && Contains(s[1..], sub))
  }

  /** `sub` occurs in `s` at position `i`. */
  predicate At(s: string, sub: string, i: int)
  {
    0 <= i && i + |sub| <= |s| && s[i..i + |sub|] == sub
  }

  /** `sub in s` holds exactly when some slice of `s` equals `sub`. */
  lemma {:induction false} ContainsAt(s: string, sub: string)
    ensures Contains(s, sub) <==> exists i :: At(s, sub, i)
  {
    if s == [] {
      if sub == [] {
        assert StartsWith(s, sub) && At(s, sub, 0);
      }
    } else {
      ContainsAt(s[1..], sub);
      if StartsWith(s, sub) {
        assert At(s, sub, 0);
      } else if Contains(s[1..], sub) {
        var i :| At(s[1..], sub, i);
        assert s[i + 1..i + 1 + |sub|] == s[1..][i..i + |sub|];
        assert At(s, sub, i + 1);
      }
      if exists i :: At(s, sub, i) {
        var i :| At(s, sub, i);
        if i == 0 {
          assert StartsWith(s, sub);
        } else {
          assert s[1..][i - 1..i - 1 + |sub|] == s[i..i + |sub|];
          assert At(s[1..], sub, i - 1);
        }
      }
    }
  }

  /** `s.split(d)` for a one-character separator `d`: the pieces between
      the occurrences of `d`, always at least one. */
  function Split(s: string, d: char): (parts: seq<string>)
    ensures |parts| >= 1
    ensures forall k :: 0 <= k < |parts| ==> d !in parts[k]
  {
    if s == [] then [""]
    else
      var rest := Split(s[1..], d);
      if s[0] == d then [""] + rest
      else [[s[0]] + rest[0]] + rest[1..]
  }

  /** `d.join(parts)`. */
  function Join(parts: seq<string>, d: char): string
    requires |parts| >= 1
  {
    if |parts| == 1 then parts[0] else parts[0] + [d] + Join(parts[1..], d)
  }

  /** Splitting loses nothing: joining the pieces gives the string back. */
  lemma {:induction false} JoinSplit(s: string, d: char)
    ensures Join(Split(s, d), d) == s
  {
    if s != [] {
      var rest := Split(s[1..], d);
      JoinSplit(s[1..], d);
      if s[0] == d {
        assert ([""] + rest)[1..] == rest;
      } else {
        var parts := [[s[0]] + rest[0]] + rest[1..];
        if |rest| > 1 {
          assert parts[1..] == rest[1..];
          assert Join(rest, d) == rest[0] + [d] + Join(rest[1..], d);
        }
      }
    }
  }

  /** `s.replace("\r\n", "\n")`: a single left-to-right pass replacing each
      non-overlapping CRLF pair by a line feed. */
  function ReplaceCrlf(s: string): (r: string)
    ensures |r| <= |s|
    ensures s != [] ==> r != []
  {
    if |s| >= 2 && s[0] == '\r' && s[1] == '\n' then "\n" + ReplaceCrlf(s[2..])
    else if s == [] then []
    else [s[0]] + ReplaceCrlf(s[1..])
  }

  /** The replacement leaves a string unchanged exactly when it holds no CRLF. */
  lemma {:induction false} ReplaceCrlfUnchanged(s: string)
    ensures ReplaceCrlf(s) == s <==> !Contains(s, "\r\n")
  {
    if |s| >= 2 && s[0] == '\r' && s[1] == '\n' {
      assert StartsWith(s, "\r\n");
    } else if s != [] {
      ReplaceCrlfUnchanged(s[1..]);
      assert !StartsWith(s, "\r\n");
      assert ReplaceCrlf(s) == [s[0]] + ReplaceCrlf(s[1..]);
      assert ReplaceCrlf(s) == s <==> ReplaceCrlf(s[1..]) == s[1..];
    }
  }

  /** Unfolding one step of the replacement at a character that does not
      start a CRLF. */
  lemma ReplaceCrlfKeep(s: string)
    requires s != [] && !(|s| >= 2 && s[0] == '\r' && s[1] == '\n')
    ensures ReplaceCrlf(s) == [s[0]] + ReplaceCrlf(s[1..])
  {
  }

  /** Unfolding one step of the replacement at a CRLF. */
  lemma ReplaceCrlfHead(s: string)
    requires |s| >= 2 && s[0] == '\r' && s[1] == '\n'
    ensures ReplaceCrlf(s) == "\n" + ReplaceCrlf(s[2..])
  {
  }

  /** `ReplaceCrlfAround` for an empty prefix. */
  lemma ReplaceCrlfAroundEmpty(y: string)
    ensures ReplaceCrlf("\r\n" + y) == "\n" + ReplaceCrlf(y)
  {
    ReplaceCrlfHead("\r\n" + y);
    assert ("\r\n" + y)[2..] == y;
  }

  /** `ReplaceCrlfAround` for a prefix that starts with a CRLF, given the
      case of the rest of the prefix. */
  lemma ReplaceCrlfAroundHead(x: string, y: string)
    requires |x| >= 2 && x[0] == '\r' && x[1] == '\n'
    requires ReplaceCrlf(x[2..] + "\r\n" + y) == ReplaceCrlf(x[2..]) + "\n" + ReplaceCrlf(y)
    ensures ReplaceCrlf(x + "\r\n" + y) == ReplaceCrlf(x) + "\n" + ReplaceCrlf(y)
  {
    var s, t := x + "\r\n" + y, x[2..] + "\r\n" + y;
    assert s[2..] == t;
    ReplaceCrlfHead(x);
    ReplaceCrlfHead(s);
    ConcatAssoc("\n", ReplaceCrlf(x[2..]) + "\n", ReplaceCrlf(y));
    ConcatAssoc("\n", ReplaceCrlf(x[2..]), "\n");
  }

  /** `ReplaceCrlfAround` for a prefix that does not start with a CRLF,
      given the case of the rest of the prefix. */
  lemma ReplaceCrlfAroundKeep(x: string, y: string)
    requires x != [] && !(|x| >= 2 && x[0] == '\r' && x[1] == '\n')
    requires ReplaceCrlf(x[1..] + "\r\n" + y) == ReplaceCrlf(x[1..]) + "\n" + ReplaceCrlf(y)
    ensures ReplaceCrlf(x + "\r\n" + y) == ReplaceCrlf(x) + "\n" + ReplaceCrlf(y)
  {
    var s, t := x + "\r\n" + y, x[1..] + "\r\n" + y;
    assert s[0] == x[0];
    assert s[1] == if |x| >= 2 then x[1] else '\r';
    assert s[1..] == t;
    ReplaceCrlfKeep(x);
    ReplaceCrlfKeep(s);
    ConcatAssoc([x[0]], ReplaceCrlf(x[1..]) + "\n", ReplaceCrlf(y));
    ConcatAssoc([x[0]], ReplaceCrlf(x[1..]), "\n");
  }

  /** Each CRLF becomes one line feed and the text around it is replaced on
      its own: with `ReplaceCrlfUnchanged`, this fixes the result exactly. */
  lemma {:induction false} ReplaceCrlfAround(x: string, y: string)
    ensures ReplaceCrlf(x + "\r\n" + y) == ReplaceCrlf(x) + "\n" + ReplaceCrlf(y)
  {
    if x == [] {
      assert x + "\r\n" + y == "\r\n" + y;
      ReplaceCrlfAroundEmpty(y);
    } else if |x| >= 2 && x[0] == '\r' && x[1] == '\n' {
      ReplaceCrlfAround(x[2..], y);
      ReplaceCrlfAroundHead(x, y);
    } else {
      ReplaceCrlfAround(x[1..], y);
      ReplaceCrlfAroundKeep(x, y);
    }
  }

  /** Every CRLF that was replaced leaves a line feed behind. */
  lemma {:induction false} ReplaceCrlfKeepsLineFeed(s: string)
    requires Contains(s, "\r\n")
    ensures '\n' in ReplaceCrlf(s)
  {
    if |s| >= 2 && s[0] == '\r' && s[1] == '\n' {
      assert ReplaceCrlf(s)[0] == '\n';
    } else {
      assert !StartsWith(s, "\r\n");
      ReplaceCrlfKeepsLineFeed(s[1..]);
      assert ReplaceCrlf(s) == [s[0]] + ReplaceCrlf(s[1..]);
    }
  }
}
