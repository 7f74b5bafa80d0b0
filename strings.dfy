/** The PHP string primitives the calendar relies on: `strtolower` (ASCII
    only, as it is from PHP 8.2 on; earlier versions follow the locale) and
    `explode`, with and without a limit of 2. */
module Strings {
  import opened Wrappers

  predicate IsUpper(c: char)
  {
    'A' <= c <= 'Z'
  }

  /** ASCII lower-casing of one character; every other character is kept. */
  function LowerChar(c: char): (r: char)
    ensures !IsUpper(r)
    ensures IsUpper(c) ==> r as int == c as int + 32
    ensures !IsUpper(c) ==> r == c
  {
    if IsUpper(c) then (c as int + 32) as char else c
  }

  /** `strtolower`. */
  function ToLower(s: string): (r: string)
    ensures |r| == |s|
    ensures forall i :: 0 <= i < |s| ==> r[i] == LowerChar(s[i])
  {
    seq(|s|, i requires 0 <= i < |s| => LowerChar(s[i]))
  }

  /** The position of the first occurrence of `c` in `s`, if any. */
  function IndexOf(s: string, c: char): (r: Option<nat>)
    ensures r.None? <==> c !in s
    ensures r.Some? ==> r.value < |s| && s[r.value] == c && c !in s[..r.value]
  {
    if s == [] then None
    else if s[0] == c then Some(0)
    else match IndexOf(s[1..], c)
      case None => None
      case Some(i) => assert s[1..][..i] == s[1..i + 1]; Some(i + 1)
  }

  /** `explode(sep, s, 2)`: the text before the first `sep` and the rest
      after it, or `[s]` alone when `sep` does not occur. */
  function SplitOnce(s: string, sep: char): (r: seq<string>)
    ensures sep !in s ==> r == [s]
    ensures sep in s ==> |r| == 2 && sep !in r[0] && s == r[0] + [sep] + r[1]
  {
    match IndexOf(s, sep)
    case None => [s]
    case Some(i) =>
      assert s == s[..i] + [sep] + s[i + 1..];
      [s[..i], s[i + 1..]]
  }

  /** Regrouping a text cut at two separators. */
  lemma ConcatRegroup(a: string, x: char, b: string, y: char, c: string)
    ensures a + [x] + (b + [y] + c) == a + [x] + b + [y] + c
  {
  }

  /** `explode(sep, s)`: the pieces between the separators, in order. */
  function Split(s: string, sep: char): (r: seq<string>)
    ensures |r| >= 1
    ensures forall k :: 0 <= k < |r| ==> sep !in r[k]
    decreases |s|
  {
    match IndexOf(s, sep)
    case None => [s]
    case Some(i) => [s[..i]] + Split(s[i + 1..], sep)
  }

  /** `implode(sep, pieces)`. */
  function Join(pieces: seq<string>, sep: char): string
  {
    if |pieces| <= 1 then (if pieces == [] then "" else pieces[0])
    else pieces[0] + [sep] + Join(pieces[1..], sep)
  }

  /** Splitting and joining with the same separator gives the text back. */
  lemma {:induction false} JoinSplit(s: string, sep: char)
    ensures Join(Split(s, sep), sep) == s
    decreases |s|
  {
    match IndexOf(s, sep)
    case None =>
    case Some(i) =>
      var before, after := s[..i], s[i + 1..];
      calc {
        Join(Split(s, sep), sep);
        == { assert Split(s, sep) == [before] + Split(after, sep); }
        Join([before] + Split(after, sep), sep);
        == { JoinCons(before, Split(after, sep), sep); }
        before + [sep] + Join(Split(after, sep), sep);
        == { JoinSplit(after, sep); }
        before + [sep] + after;
        == { assert s == s[..i] + [sep] + s[i + 1..]; }
        s;
      }
  }

  /** Joining a piece in front of at least one more piece puts one
      separator between them. */
  lemma JoinCons(head: string, rest: seq<string>, sep: char)
    requires |rest| >= 1
    ensures Join([head] + rest, sep) == head + [sep] + Join(rest, sep)
  {
    assert ([head] + rest)[1..] == rest;
  }

  /** A text cut at a separator after a separator-free prefix splits into
      that prefix and the pieces of the rest. */
  lemma SplitAt(a: string, b: string, sep: char)
    requires sep !in a
    ensures Split(a + [sep] + b, sep) == [a] + Split(b, sep)
  {
    var s := a + [sep] + b;
    assert s[|a|] == sep;
    assert s[..|a|] == a && s[|a| + 1..] == b;
  }

  /** Pieces free of the separator are recovered by splitting their join. */
  lemma {:induction false} SplitJoin(pieces: seq<string>, sep: char)
    requires |pieces| >= 1
    requires forall k :: 0 <= k < |pieces| ==> sep !in pieces[k]
    ensures Split(Join(pieces, sep), sep) == pieces
  {
    if |pieces| == 1 {
      assert IndexOf(pieces[0], sep).None?;
    } else {
      var head, rest := pieces[0], pieces[1..];
      calc {
        Split(Join(pieces, sep), sep);
        == { assert pieces == [head] + rest; JoinCons(head, rest, sep); }
        Split(head + [sep] + Join(rest, sep), sep);
        == { SplitAt(head, Join(rest, sep), sep); }
        [head] + Split(Join(rest, sep), sep);
        == { SplitJoin(rest, sep); }
        [head] + rest;
        == { assert pieces == [head] + rest; }
        pieces;
      }
    }
  }

  /** Splitting at a separator placed after a separator-free prefix gives
      back the prefix and the rest. */
  lemma {:induction false} SplitOnceAt(a: string, b: string, sep: char)
    requires sep !in a
    ensures SplitOnce(a + [sep] + b, sep) == [a, b]
  {
    var s := a + [sep] + b;
    assert s[|a|] == sep;
    var r := SplitOnce(s, sep);
    assert |r| == 2 && s == r[0] + [sep] + r[1];
    assert r[0] == s[..|a|] == a;
    assert r[1] == s[|a| + 1..] == b;
  }
}
