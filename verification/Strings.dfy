/** Splitting, joining, searching and trimming strings, as the Go standard library does. */
module Strings {

  predicate OccursAt(s: string, r: string, pos: nat) {
    pos + |r| <= |s| && s[pos..pos + |r|] == r
  }

  predicate Contains(s: string, needle: string) {
    exists k :: 0 <= k <= |s| && OccursAt(s, needle, k)
  }

  predicate HasPrefix(s: string, prefix: string) {
    |prefix| <= |s| && s[..|prefix|] == prefix
  }

  // ---------------------------------------------------------------- split and join

  function FirstIndex(s: string, sep: char): (d: nat)
    ensures d <= |s| && (d < |s| ==> s[d] == sep) && forall i :: 0 <= i < d ==> s[i] != sep
  {
    if s == "" || s[0] == sep then 0 else 1 + FirstIndex(s[1..], sep)
  }

  function Split(s: string, sep: char): (parts: seq<string>)
    ensures parts != [] && forall i :: 0 <= i < |parts| ==> sep !in parts[i]
    decreases |s|
  {
    var d := FirstIndex(s, sep);
    if d == |s| then [s] else [s[..d]] + Split(s[d + 1..], sep)
  }

  function Join(parts: seq<string>, sep: char): string {
    if parts == [] then "" else if |parts| == 1 then parts[0] else parts[0] + [sep] + Join(parts[1..], sep)
  }

  lemma {:induction false} JoinOfSplit(s: string, sep: char)
    ensures Join(Split(s, sep), sep) == s
    decreases |s|
  {
    var d := FirstIndex(s, sep);
    if d < |s| {
      JoinOfSplit(s[d + 1..], sep);
      assert Split(s, sep)[1..] == Split(s[d + 1..], sep);
      assert s == s[..d] + [sep] + s[d + 1..];
    }
  }

  lemma FirstIndexIs(s: string, sep: char, d: nat)
    requires d <= |s| && (forall i :: 0 <= i < d ==> s[i] != sep) && (d < |s| ==> s[d] == sep)
    ensures FirstIndex(s, sep) == d
  {
  }

  lemma SplitHead(piece: string, rest: string, sep: char)
    requires sep !in piece
    ensures Split(piece + [sep] + rest, sep) == [piece] + Split(rest, sep)
  {
    var s := piece + [sep] + rest;
    FirstIndexIs(s, sep, |piece|);
    assert s[..|piece|] == piece && s[|piece| + 1..] == rest;
  }

  // Splitting distributes over a separator.
  lemma {:induction false} SplitAt(a: string, b: string, sep: char)
    ensures Split(a + [sep] + b, sep) == Split(a, sep) + Split(b, sep)
    decreases |a|
  {
    var d := FirstIndex(a, sep);
    if d == |a| {
      SplitHead(a, b, sep);
    } else {
      var piece, rest := a[..d], a[d + 1..];
      assert a == piece + [sep] + rest;
      SplitAt(rest, b, sep);
      SplitHead(piece, rest + [sep] + b, sep);
      Regroup(piece, [sep], rest, b);
    }
  }

  lemma Regroup(a: string, sep: string, b: string, c: string)
    ensures (a + sep + b) + sep + c == a + sep + (b + sep + c)
  {
  }

  lemma SplitOfPiece(s: string, sep: char)
    requires sep !in s
    ensures Split(s, sep) == [s]
  {
    FirstIndexIs(s, sep, |s|);
  }

  lemma {:induction false} SplitOfJoin(parts: seq<string>, sep: char)
    requires parts != [] && forall i :: 0 <= i < |parts| ==> sep !in parts[i]
    ensures Split(Join(parts, sep), sep) == parts
    decreases |parts|
  {
    SplitOfPiece(parts[0], sep);
    if |parts| == 1 {
      assert parts == [parts[0]];
    } else {
      SplitOfJoin(parts[1..], sep);
      SplitAt(parts[0], Join(parts[1..], sep), sep);
    }
  }

  lemma {:induction false} JoinSnoc(parts: seq<string>, last: string, sep: char)
    requires parts != []
    ensures Join(parts + [last], sep) == Join(parts, sep) + [sep] + last
    decreases |parts|
  {
    if |parts| == 1 {
      assert (parts + [last])[1..] == [last];
    } else {
      JoinSnoc(parts[1..], last, sep);
      assert (parts + [last])[1..] == parts[1..] + [last];
    }
  }

  // ---------------------------------------------------------------- white space

  predicate IsSpace(c: char) {
    || '\t' <= c <= '\r' || c == ' ' || c == '\U{85}' || c == '\U{A0}' || c == '\U{1680}' || '\U{2000}' <= c <= '\U{200A}'
    || c == '\U{2028}' || c == '\U{2029}' || c == '\U{202F}' || c == '\U{205F}' || c == '\U{3000}'
  }

  function TrimLeft(s: string): string {
    if s != "" && IsSpace(s[0]) then TrimLeft(s[1..]) else s
  }

  function TrimRight(s: string): string {
    if s != "" && IsSpace(s[|s| - 1]) then TrimRight(s[..|s| - 1]) else s
  }

  function TrimSpace(s: string): string {
    TrimRight(TrimLeft(s))
  }

  predicate Trimmed(s: string) {
    s == "" || (!IsSpace(s[0]) && !IsSpace(s[|s| - 1]))
  }

  lemma {:induction false} TrimLeftShape(s: string)
    ensures var t := TrimLeft(s); |t| <= |s| && t == s[|s| - |t|..] && (t != "" ==> !IsSpace(t[0]))
  {
    if s != "" && IsSpace(s[0]) {
      TrimLeftShape(s[1..]);
    }
  }

  lemma {:induction false} TrimRightShape(s: string)
    ensures var t := TrimRight(s); |t| <= |s| && t == s[..|t|] && (t != "" ==> !IsSpace(t[|t| - 1]))
    decreases |s|
  {
    if s != "" && IsSpace(s[|s| - 1]) {
      TrimRightShape(s[..|s| - 1]);
    }
  }

  // Trimming fixes exactly the strings with no space at either end, and always yields one.
  lemma TrimSpaceFixes(s: string)
    ensures Trimmed(TrimSpace(s)) && (TrimSpace(s) == s <==> Trimmed(s))
  {
    TrimLeftShape(s);
    TrimRightShape(TrimLeft(s));
  }

  lemma {:induction false} TrimLeftConcat(a: string, b: string)
    ensures TrimLeft(a + b) == if TrimLeft(a) == "" then TrimLeft(b) else TrimLeft(a) + b
  {
    if a == "" {
      assert a + b == b;
    } else {
      assert (a + b)[1..] == a[1..] + b;
      TrimLeftConcat(a[1..], b);
    }
  }

  // Nothing up to a character that is no space is trimmed off the right.
  lemma {:induction false} TrimRightKeeps(s: string, j: nat)
    requires j < |s| && !IsSpace(s[j])
    ensures j < |TrimRight(s)| <= |s| && TrimRight(s) == s[..|TrimRight(s)|]
    decreases |s|
  {
    if IsSpace(s[|s| - 1]) {
      TrimRightKeeps(s[..|s| - 1], j);
    }
  }
}
