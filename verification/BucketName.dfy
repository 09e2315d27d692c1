/** Bucket names synthesised from repository ids, and the rule they have to meet. */
module BucketName {
  import opened Strings

  const MIN_LENGTH := 3
  const MAX_LENGTH := 63
  const DEFAULT_PREFIX: string := "striatum-"

  predicate Alnum(c: char) {
    'a' <= c <= 'z' || '0' <= c <= '9'
  }

  // ---------------------------------------------------------------- the rule

  // The body of the name pattern after its first character: letters and digits, each possibly
  // after one hyphen.
  predicate MatchesTail(s: string)
    decreases |s|
  {
    s == "" || (Alnum(s[0]) && MatchesTail(s[1..])) || (|s| >= 2 && s[0] == '-' && Alnum(s[1]) && MatchesTail(s[2..]))
  }

  predicate MatchesPattern(s: string) {
    s != "" && Alnum(s[0]) && MatchesTail(s[1..])
  }

  predicate ValidateBucketName(name: string) {
    MIN_LENGTH <= |name| <= MAX_LENGTH && MatchesPattern(name)
  }

  // The same language position by position.
  ghost predicate Hyphenated(s: string) {
    && (forall i :: 0 <= i < |s| ==> Alnum(s[i]) || s[i] == '-')
    && (forall i :: 0 <= i < |s| - 1 && s[i] == '-' ==> s[i + 1] != '-')
  }

  lemma {:induction false} TailIff(s: string)
    ensures MatchesTail(s) <==> Hyphenated(s) && (s == "" || s[|s| - 1] != '-')
    decreases |s|
  {
    if s != "" {
      TailIff(s[1..]);
      assert forall i :: 0 < i < |s| ==> s[i] == s[1..][i - 1];
      if |s| >= 2 {
        TailIff(s[2..]);
        assert forall i :: 1 < i < |s| ==> s[i] == s[2..][i - 2];
      }
    }
  }

  // What the pattern accepts: letters, digits and single hyphens, with none at either end.
  lemma PatternIff(s: string)
    ensures MatchesPattern(s) <==> s != "" && Hyphenated(s) && s[0] != '-' && s[|s| - 1] != '-'
  {
    if s != "" {
      TailIff(s[1..]);
      assert forall i :: 0 < i < |s| ==> s[i] == s[1..][i - 1];
    }
  }

  // ---------------------------------------------------------------- sanitising

  // One character of the input against what has been written.
  function Written(out: string, r: char): string {
    var c := if Alnum(r) || r == '-' then r else '-';
    if c == '-' && (out == "" || out[|out| - 1] == '-') then out else out + [c]
  }

  function Collapsed(input: string): string
    decreases |input|
  {
    if input == "" then "" else Written(Collapsed(input[..|input| - 1]), input[|input| - 1])
  }

  function TrimHyphensRight(s: string): string {
    if s != "" && s[|s| - 1] == '-' then TrimHyphensRight(s[..|s| - 1]) else s
  }

  function TrimHyphensLeft(s: string): string {
    if s != "" && s[0] == '-' then TrimHyphensLeft(s[1..]) else s
  }

  function Sanitized(input: string): string {
    TrimHyphensRight(Collapsed(input))
  }

  lemma {:induction false} CollapsedShape(input: string)
    ensures Hyphenated(Collapsed(input)) && (Collapsed(input) != "" ==> Collapsed(input)[0] != '-')
    decreases |input|
  {
    if input != "" {
      CollapsedShape(input[..|input| - 1]);
    }
  }

  lemma {:induction false} TrimRightShape(s: string)
    ensures var t := TrimHyphensRight(s); |t| <= |s| && t == s[..|t|] && (t != "" ==> t[|t| - 1] != '-')
    ensures s == "" || s[|s| - 1] != '-' ==> TrimHyphensRight(s) == s
    ensures forall i :: |TrimHyphensRight(s)| <= i < |s| ==> s[i] == '-'
    decreases |s|
  {
    if s != "" && s[|s| - 1] == '-' {
      TrimRightShape(s[..|s| - 1]);
      assert forall i :: 0 <= i < |s| - 1 ==> s[i] == s[..|s| - 1][i];
    }
  }

  // The result is empty or a name body: no hyphen at either end and none doubled.
  lemma SanitizedShape(input: string)
    ensures var t := Sanitized(input); t == "" || MatchesPattern(t)
  {
    CollapsedShape(input);
    TrimRightShape(Collapsed(input));
    PatternIff(Sanitized(input));
  }

  lemma {:induction false} CollapsedFixes(s: string)
    requires Hyphenated(s) && (s != "" ==> s[0] != '-')
    ensures Collapsed(s) == s
    decreases |s|
  {
    if s != "" {
      var before := s[..|s| - 1];
      CollapsedFixes(before);
      assert s == before + [s[|s| - 1]];
      assert |s| > 1 ==> before[|before| - 1] == s[|s| - 2];
    }
  }

  // A text is left alone exactly when it is empty or already a name body, so sanitising twice is
  // sanitising once.
  lemma SanitizedFixesExactly(s: string)
    ensures Sanitized(s) == s <==> s == "" || MatchesPattern(s)
    ensures Sanitized(Sanitized(s)) == Sanitized(s)
  {
    SanitizedShape(s);
    SanitizedShape(Sanitized(s));
    FixedBodies(s);
    FixedBodies(Sanitized(s));
  }

  lemma FixedBodies(s: string)
    ensures s == "" || MatchesPattern(s) ==> Sanitized(s) == s
  {
    if s == "" || MatchesPattern(s) {
      PatternIff(s);
      CollapsedFixes(s);
      TrimRightShape(s);
    }
  }

  method SanitizeForBucket(input: string) returns (name: string)
    ensures name == Sanitized(input)
    ensures name == "" || MatchesPattern(name)
  {
    var b := "";
    var previousHyphen := false;
    for i := 0 to |input|
      invariant b == Collapsed(input[..i])
      invariant previousHyphen <==> b != "" && b[|b| - 1] == '-'
    {
      assert input[..i + 1][..i] == input[..i];
      var r := input[i];
      var valid := Alnum(r) || r == '-';
      if !valid {
        r := '-';
      }
      if r == '-' {
        if previousHyphen || |b| == 0 {
          continue;
        }
        previousHyphen := true;
      } else {
        previousHyphen := false;
      }
      b := b + [r];
    }
    assert input[..|input|] == input;
    SanitizedShape(input);
    return TrimHyphensRight(b);
  }

  // ---------------------------------------------------------------- the default name

  function Head(prefix: string): string {
    if prefix == "" then DEFAULT_PREFIX else prefix
  }

  // lowered is the repository id in lower case.
  function DefaultBucketName(prefix: string, lowered: string): string {
    var head := Head(prefix);
    var body := if Sanitized(lowered) == "" then "repo" else Sanitized(lowered);
    var candidate := head + body;
    var clipped := if |candidate| > MAX_LENGTH then candidate[..MAX_LENGTH] else candidate;
    TrimHyphensLeft(TrimHyphensRight(clipped))
  }

  lemma RepoIsBody()
    ensures MatchesPattern("repo")
  {
    var s := "repo";
    assert s[0] == 'r' && s[1] == 'e' && s[2] == 'p' && s[3] == 'o';
    PatternIff(s);
  }

  // Joining a prefix that is a name up to one final hyphen with a name body.
  lemma PrefixedBody(head: string, body: string)
    requires |head| >= 2 && head[|head| - 1] == '-' && MatchesPattern(head[..|head| - 1]) && MatchesPattern(body)
    ensures Hyphenated(head + body) && (head + body)[0] != '-'
  {
    var stem := head[..|head| - 1];
    PatternIff(stem);
    PatternIff(body);
    var s := head + body;
    assert s == stem + "-" + body;
  }

  // Clipping and trimming keep such a text a name, as long as enough of the prefix is left.
  lemma ClippedIsValid(s: string)
    requires |s| >= MIN_LENGTH + 1 && Hyphenated(s) && s[0] != '-'
    ensures var clipped := if |s| > MAX_LENGTH then s[..MAX_LENGTH] else s;
            ValidateBucketName(TrimHyphensLeft(TrimHyphensRight(clipped)))
  {
    var clipped := if |s| > MAX_LENGTH then s[..MAX_LENGTH] else s;
    var t := TrimHyphensRight(clipped);
    TrimRightShape(clipped);
    assert Hyphenated(clipped) && clipped[0] != '-';
    var n := |clipped|;
    assert |t| >= n - 1 by {
      assert clipped[n - 1] == '-' ==> clipped[n - 2] != '-';
    }
    assert t[0] == clipped[0];
    assert TrimHyphensLeft(t) == t;
    PatternIff(t);
  }

  // Any prefix that is a name body and a hyphen gives an accepted name, whatever the repository id.
  lemma PrefixedNameIsValid(prefix: string, lowered: string)
    requires |prefix| >= 3 && prefix[|prefix| - 1] == '-' && MatchesPattern(prefix[..|prefix| - 1])
    ensures ValidateBucketName(DefaultBucketName(prefix, lowered))
  {
    hide MatchesPattern, ValidateBucketName, Sanitized;
    RepoIsBody();
    SanitizedShape(lowered);
    var body := if Sanitized(lowered) == "" then "repo" else Sanitized(lowered);
    BodyIsNotEmpty(body);
    PrefixedBody(prefix, body);
    ClippedIsValid(prefix + body);
  }

  lemma BodyIsNotEmpty(s: string)
    requires MatchesPattern(s)
    ensures s != ""
  {
  }

  // The default prefix is such a prefix.
  lemma DefaultNameIsValid(lowered: string)
    ensures ValidateBucketName(DefaultBucketName("", lowered))
  {
    hide MatchesPattern, ValidateBucketName, Sanitized;
    DefaultPrefixIsStem();
    PrefixedNameIsValid(DEFAULT_PREFIX, lowered);
  }

  lemma DefaultPrefixIsStem()
    ensures var n := |DEFAULT_PREFIX| - 1; n == 8 && DEFAULT_PREFIX[n] == '-' && MatchesPattern(DEFAULT_PREFIX[..n])
  {
    var stem := DEFAULT_PREFIX[..8];
    assert stem == ['s', 't', 'r', 'i', 'a', 't', 'u', 'm'];
    PatternIff(stem);
  }

  // ---------------------------------------------------------------- any prefix, exactly

  lemma {:induction false} TrimRightAppend(head: string, tail: string)
    requires tail != "" && tail[0] != '-'
    ensures TrimHyphensRight(head + tail) == head + TrimHyphensRight(tail)
    ensures TrimHyphensRight(tail) != "" && TrimHyphensRight(tail)[0] == tail[0]
    decreases |tail|
  {
    if tail[|tail| - 1] == '-' {
      assert (head + tail)[..|head + tail| - 1] == head + tail[..|tail| - 1];
      TrimRightAppend(head, tail[..|tail| - 1]);
    }
  }

  lemma {:induction false} TrimLeftAppend(head: string, tail: string)
    requires tail != "" && tail[0] != '-'
    ensures TrimHyphensLeft(head + tail) == TrimHyphensLeft(head) + tail
    ensures TrimHyphensLeft(head) == "" || TrimHyphensLeft(head)[0] != '-'
    decreases |head|
  {
    if head == "" {
      assert head + tail == tail;
    } else if head[0] == '-' {
      assert (head + tail)[1..] == head[1..] + tail;
      TrimLeftAppend(head[1..], tail);
    }
  }

  // A prefix that fills the name must be one; of a shorter one at least two characters must be left
  // once leading hyphens are gone, and those must be letters, digits and single hyphens.
  ghost predicate GoodHead(head: string) {
    if |head| >= MAX_LENGTH then ValidateBucketName(TrimHyphensLeft(TrimHyphensRight(head[..MAX_LENGTH])))
    else |TrimHyphensLeft(head)| >= MIN_LENGTH - 1 && Hyphenated(TrimHyphensLeft(head))
  }

  // The body a repository id contributes, clipped to what the prefix leaves room for.
  lemma NameOfShortHead(prefix: string, lowered: string)
    requires |Head(prefix)| < MAX_LENGTH
    ensures var body := if Sanitized(lowered) == "" then "repo" else Sanitized(lowered);
      var room := MAX_LENGTH - |Head(prefix)|;
      var tail := if |body| > room then body[..room] else body;
      && MatchesPattern(body) && tail != "" && tail[0] != '-' && Hyphenated(tail) && |Head(prefix)| + |tail| <= MAX_LENGTH
      && DefaultBucketName(prefix, lowered) == TrimHyphensLeft(Head(prefix)) + TrimHyphensRight(tail)
  {
    var head := Head(prefix);
    var body := if Sanitized(lowered) == "" then "repo" else Sanitized(lowered);
    RepoIsBody();
    SanitizedShape(lowered);
    PatternIff(body);
    var room := MAX_LENGTH - |head|;
    var tail := if |body| > room then body[..room] else body;
    assert (if |head + body| > MAX_LENGTH then (head + body)[..MAX_LENGTH] else head + body) == head + tail;
    TrimRightAppend(head, tail);
    TrimLeftAppend(head, TrimHyphensRight(tail));
  }

  lemma ShortHeadIff(head: string, tail: string)
    requires tail != "" && Hyphenated(tail) && tail[0] != '-' && |head| + |tail| <= MAX_LENGTH
    ensures var name := TrimHyphensLeft(head) + TrimHyphensRight(tail);
      && (GoodHead(head) && |head| < MAX_LENGTH ==> ValidateBucketName(name))
      && (|tail| == 1 && |head| < MAX_LENGTH && ValidateBucketName(name) ==> GoodHead(head))
  {
    hide MatchesPattern, Hyphenated, TrimHyphensLeft, TrimHyphensRight;
    var h, t := TrimHyphensLeft(head), TrimHyphensRight(tail);
    TrimRightAppend("", tail);
    TrimLeftAppend(head, tail);
    TrimRightShape(tail);
    TrimLeftShortens(head);
    PrefixIsHyphenated(tail, |t|);
    JoinedIsBody(h, t);
  }

  lemma PrefixIsHyphenated(s: string, n: nat)
    requires n <= |s| && Hyphenated(s)
    ensures Hyphenated(s[..n])
  {
  }

  lemma JoinedIsBody(h: string, t: string)
    requires h == "" || h[0] != '-'
    requires t != "" && t[0] != '-' && t[|t| - 1] != '-' && Hyphenated(t)
    ensures MatchesPattern(h + t) <==> Hyphenated(h)
  {
    PatternIff(h + t);
    hide MatchesPattern;
    if Hyphenated(h + t) {
      PrefixIsHyphenated(h + t, |h|);
      assert (h + t)[..|h|] == h;
    }
  }

  lemma {:induction false} TrimLeftShortens(s: string)
    ensures |TrimHyphensLeft(s)| <= |s|
    decreases |s|
  {
    if s != "" && s[0] == '-' {
      TrimLeftShortens(s[1..]);
    }
  }

  // Whatever the operator's prefix: every repository id gets an accepted name if and only if the
  // prefix is good. (An upper-case letter, a doubled hyphen or a single character is enough to spoil
  // it.)
  lemma PrefixIsValidIff(prefix: string)
    ensures (forall lowered :: ValidateBucketName(DefaultBucketName(prefix, lowered))) <==> GoodHead(Head(prefix))
  {
    hide MatchesPattern, ValidateBucketName, Sanitized, Hyphenated, DefaultBucketName, GoodHead;
    var head := Head(prefix);
    if |head| >= MAX_LENGTH {
      forall lowered ensures ValidateBucketName(DefaultBucketName(prefix, lowered)) <==> GoodHead(head) {
        LongHeadDecides(prefix, lowered);
      }
      assert ValidateBucketName(DefaultBucketName(prefix, "")) <==> GoodHead(head);
    } else {
      if ValidateBucketName(DefaultBucketName(prefix, "a")) {
        ShortestName(prefix);
      }
      if GoodHead(head) {
        forall lowered ensures ValidateBucketName(DefaultBucketName(prefix, lowered)) {
          GoodHeadSuffices(prefix, lowered);
        }
      }
    }
  }

  lemma LongHeadDecides(prefix: string, lowered: string)
    requires |Head(prefix)| >= MAX_LENGTH
    ensures ValidateBucketName(DefaultBucketName(prefix, lowered)) <==> GoodHead(Head(prefix))
  {
    hide MatchesPattern, Sanitized, TrimHyphensLeft, TrimHyphensRight;
    var head := Head(prefix);
    RepoIsBody();
    SanitizedShape(lowered);
    var body := if Sanitized(lowered) == "" then "repo" else Sanitized(lowered);
    BodyIsNotEmpty(body);
    assert (head + body)[..MAX_LENGTH] == head[..MAX_LENGTH];
  }

  lemma GoodHeadSuffices(prefix: string, lowered: string)
    requires |Head(prefix)| < MAX_LENGTH && GoodHead(Head(prefix))
    ensures ValidateBucketName(DefaultBucketName(prefix, lowered))
  {
    hide MatchesPattern, ValidateBucketName, Sanitized, Hyphenated, DefaultBucketName, GoodHead;
    NameOfShortHead(prefix, lowered);
    var body := if Sanitized(lowered) == "" then "repo" else Sanitized(lowered);
    var room := MAX_LENGTH - |Head(prefix)|;
    ShortHeadIff(Head(prefix), if |body| > room then body[..room] else body);
  }

  // The repository "a" asks the most of its prefix.
  lemma ShortestName(prefix: string)
    requires |Head(prefix)| < MAX_LENGTH && ValidateBucketName(DefaultBucketName(prefix, "a"))
    ensures GoodHead(Head(prefix))
  {
    assert Sanitized("a") == "a" by {
      assert Collapsed("a") == "a" by {
        assert "a"[..0] == "";
      }
    }
    hide MatchesPattern, ValidateBucketName, Sanitized, Hyphenated, DefaultBucketName, GoodHead;
    NameOfShortHead(prefix, "a");
    ShortHeadIff(Head(prefix), "a");
  }

  // ---------------------------------------------------------------- what a name is, character by character

  predicate LowerOrDigit(c: char) {
    'a' <= c <= 'z' || '0' <= c <= '9'
  }

  // Three to sixty-three lower-case letters, digits and hyphens, no hyphen at an end or beside another.
  lemma NameIff(name: string)
    ensures ValidateBucketName(name) <==>
              && 3 <= |name| <= 63
              && (forall i :: 0 <= i < |name| ==> LowerOrDigit(name[i]) || name[i] == '-')
              && name[0] != '-' && name[|name| - 1] != '-'
              && (forall i, j :: 0 <= i < j < |name| && name[i] == name[j] == '-' ==> j != i + 1)
  {
    PatternIff(name);
    hide MatchesPattern;
  }

  ghost predicate Word(w: string) {
    w != "" && forall i :: 0 <= i < |w| ==> LowerOrDigit(w[i])
  }

  ghost predicate EndsInGap(input: string) {
    input != "" && !LowerOrDigit(input[|input| - 1])
  }

  // The longest stretches of lower-case letters and digits of a text, in order.
  ghost function Words(input: string): (ws: seq<string>)
    ensures forall k :: 0 <= k < |ws| ==> Word(ws[k])
    ensures input != "" && !EndsInGap(input) ==> ws != []
    decreases |input|
  {
    if input == "" then []
    else
      var front, c := input[..|input| - 1], input[|input| - 1];
      var ws := Words(front);
      if !LowerOrDigit(c) then ws
      else if front == "" || EndsInGap(front) then ws + [[c]]
      else ws[..|ws| - 1] + [ws[|ws| - 1] + [c]]
  }

  lemma {:induction false} LongerWord(ws: seq<string>, w: string, c: char)
    ensures Join(ws + [w + [c]], '-') == Join(ws + [w], '-') + [c]
  {
    if ws != [] {
      JoinSnoc(ws, w, '-');
      JoinSnoc(ws, w + [c], '-');
    }
  }

  lemma JoinedEnds(ws: seq<string>)
    requires ws != [] && Word(ws[|ws| - 1])
    ensures var s := Join(ws, '-'); s != "" && s[|s| - 1] != '-'
  {
    var last := ws[|ws| - 1];
    assert ws == ws[..|ws| - 1] + [last];
    if |ws| > 1 {
      JoinSnoc(ws[..|ws| - 1], last, '-');
    }
  }

  lemma {:induction false} CollapsedIsWords(input: string)
    ensures Collapsed(input) == Join(Words(input), '-') + if Words(input) != [] && EndsInGap(input) then "-" else ""
    decreases |input|
  {
    if input != "" {
      var front, c := input[..|input| - 1], input[|input| - 1];
      var ws := Words(front);
      CollapsedIsWords(front);
      if ws != [] {
        JoinedEnds(ws);
        hide Join;
        if LowerOrDigit(c) && EndsInGap(front) {
          JoinSnoc(ws, [c], '-');
        } else if LowerOrDigit(c) {
          LongerWord(ws[..|ws| - 1], ws[|ws| - 1], c);
          assert ws == ws[..|ws| - 1] + [ws[|ws| - 1]];
        }
      }
    }
  }

  // Sanitising joins those stretches with single hyphens: whatever else stood between two of them
  // becomes one hyphen, and before the first and after the last it goes.
  lemma SanitizedIsWords(input: string)
    ensures Sanitized(input) == Join(Words(input), '-')
  {
    hide Join, Words;
    CollapsedIsWords(input);
    var s := Collapsed(input);
    if Words(input) != [] {
      JoinedEnds(Words(input));
      TrimRightShape(Join(Words(input), '-'));
      if EndsInGap(input) {
        assert s[..|s| - 1] == Join(Words(input), '-');
      }
    } else {
      JoinedNothing(input);
    }
  }

  // The default name: the prefix and those words, or `repo` where there is none, cut to sixty-three
  // characters and without a hyphen the cut leaves at the end.
  lemma DefaultNameIs(lowered: string)
    ensures var body := if Words(lowered) == [] then "repo" else Join(Words(lowered), '-');
            var whole := "striatum-" + body;
            DefaultBucketName("", lowered) ==
              if |whole| <= 63 then whole else if whole[62] == '-' then whole[..62] else whole[..63]
  {
    hide Join, Words, Sanitized, Collapsed, MatchesPattern;
    SanitizedIsWords(lowered);
    SanitizedShape(lowered);
    RepoIsBody();
    var body := if Words(lowered) == [] then "repo" else Join(Words(lowered), '-');
    JoinedNothing(lowered);
    assert body == if Sanitized(lowered) == "" then "repo" else Sanitized(lowered);
    DefaultPrefixIsStem();
    assert DEFAULT_PREFIX[..|DEFAULT_PREFIX| - 1] + "-" == DEFAULT_PREFIX;
    PrefixedBody(DEFAULT_PREFIX, body);
    var whole := DEFAULT_PREFIX + body;
    var clipped := if |whole| > 63 then whole[..63] else whole;
    PatternIff(body);
    NoLeadingHyphen(whole, clipped);
    TrimRightShape(clipped);
    if |whole| > 63 && whole[62] == '-' {
      assert whole[61] != '-';
      assert clipped[..62] == whole[..62];
      TrimRightShape(whole[..62]);
    }
  }

  lemma JoinedNothing(lowered: string)
    ensures Join(Words(lowered), '-') == "" <==> Words(lowered) == []
  {
    hide Words;
    if Words(lowered) != [] {
      JoinedEnds(Words(lowered));
    }
  }

  lemma NoLeadingHyphen(whole: string, clipped: string)
    requires |whole| > 0 && whole[0] != '-' && |clipped| > 0 && clipped <= whole
    ensures var t := TrimHyphensRight(clipped); TrimHyphensLeft(t) == t
  {
    TrimRightShape(clipped);
  }
}
