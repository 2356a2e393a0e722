/** Splitting a string at a separator and joining it again: the reference meaning of the scanners that avoid it. */
module Strings {

  function IndexByte(s: string, c: char): (r: int)
    ensures -1 <= r < |s|
    ensures r == -1 <==> c !in s
    ensures r >= 0 ==> s[r] == c && c !in s[..r]
  {
    if s == "" then -1
    else if s[0] == c then 0
    else
      var r := IndexByte(s[1..], c);
      assert s == [s[0]] + s[1..];
      assert r >= 0 ==> s[..r + 1] == [s[0]] + s[1..][..r];
      if r < 0 then -1 else r + 1
  }

  function LastIndexByte(s: string, c: char): (r: int)
    ensures -1 <= r < |s|
    ensures r == -1 <==> c !in s
    ensures r >= 0 ==> s[r] == c && c !in s[r + 1..]
  {
    if s == "" then -1
    else if s[|s| - 1] == c then |s| - 1
    else
      var r := LastIndexByte(s[..|s| - 1], c);
      assert s == s[..|s| - 1] + [s[|s| - 1]];
      assert r >= 0 ==> s[r + 1..] == s[..|s| - 1][r + 1..] + [s[|s| - 1]];
      r
  }

  function Split(s: string, sep: char): (parts: seq<string>)
    ensures parts != []
  {
    var i := IndexByte(s, sep);
    if i < 0 then [s] else [s[..i]] + Split(s[i + 1..], sep)
  }

  function Join(parts: seq<string>, sep: char): string
    requires parts != []
  {
    if |parts| == 1 then parts[0] else parts[0] + [sep] + Join(parts[1..], sep)
  }

  lemma {:induction false} FirstIndex(s: string, c: char, i: nat)
    requires i < |s| && s[i] == c && c !in s[..i]
    ensures IndexByte(s, c) == i
  {
    if i > 0 {
      assert s[0] in s[..i];
      assert s[1..][..i - 1] == s[1..i];
      FirstIndex(s[1..], c, i - 1);
    }
  }

  lemma SplitHead(head: string, sep: char, rest: string)
    requires sep !in head
    ensures Split(head + [sep] + rest, sep) == [head] + Split(rest, sep)
  {
    var s := head + [sep] + rest;
    assert s[..|head|] == head && s[|head| + 1..] == rest;
    FirstIndex(s, sep, |head|);
  }

  lemma JoinHead(head: string, sep: char, parts: seq<string>)
    requires parts != []
    ensures Join([head] + parts, sep) == head + [sep] + Join(parts, sep)
  {
    assert ([head] + parts)[1..] == parts;
  }

  /** A string with a separator, taken apart at the first one. */
  lemma AtFirst(s: string, sep: char) returns (head: string, rest: string)
    requires sep in s
    ensures sep !in head && s == head + [sep] + rest && |rest| < |s|
  {
    var i := IndexByte(s, sep);
    head, rest := s[..i], s[i + 1..];
  }

  lemma {:induction false} JoinSplit(s: string, sep: char)
    ensures Join(Split(s, sep), sep) == s
    decreases |s|
  {
    if sep in s {
      var head, rest := AtFirst(s, sep);
      SplitHead(head, sep, rest);
      JoinHead(head, sep, Split(rest, sep));
      JoinSplit(rest, sep);
    }
  }

  lemma {:induction false} PartsAvoidSeparator(s: string, sep: char)
    ensures forall part :: part in Split(s, sep) ==> sep !in part
  {
    var i := IndexByte(s, sep);
    if i >= 0 { PartsAvoidSeparator(s[i + 1..], sep); }
  }

  lemma {:induction false} SplitJoin(parts: seq<string>, sep: char)
    requires parts != [] && forall part :: part in parts ==> sep !in part
    ensures Split(Join(parts, sep), sep) == parts
  {
    if |parts| > 1 {
      SplitHead(parts[0], sep, Join(parts[1..], sep));
      SplitJoin(parts[1..], sep);
    }
  }

  lemma Regroup<T>(a: seq<T>, b: seq<T>, c: seq<T>, d: seq<T>, e: seq<T>)
    ensures (a + b + c) + d + e == a + b + (c + d + e)
  {
  }

  lemma SplitLonger(head: string, rest: string, sep: char, last: string)
    requires sep !in head && Split(rest + [sep] + last, sep) == Split(rest, sep) + [last]
    ensures Split((head + [sep] + rest) + [sep] + last, sep) == Split(head + [sep] + rest, sep) + [last]
  {
    SplitHead(head, sep, rest);
    SplitHead(head, sep, rest + [sep] + last);
    Regroup(head, [sep], rest, [sep], last);
    Regroup([], [head], Split(rest, sep), [last], []);
  }

  /** Splitting may as well start from the right. */
  lemma {:induction false} SplitAtLast(s: string, sep: char, last: string)
    requires sep !in last
    ensures Split(s + [sep] + last, sep) == Split(s, sep) + [last]
    decreases |s|
  {
    if sep in s {
      var head, rest := AtFirst(s, sep);
      SplitAtLast(rest, sep, last);
      SplitLonger(head, rest, sep, last);
    } else {
      SplitHead(s, sep, last);
    }
  }
}
