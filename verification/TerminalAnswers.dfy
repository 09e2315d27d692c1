/**
  Which bytes answer which terminal probe, and what an escape sequence is to the prompt detector.
 */
module TerminalAnswers {
  import opened TerminalProbe

  // ---------------------------------------------------------------- requests and responses

  // The answer to a request for the cursor position, the foreground and background colours (ended by
  // ESC backslash or by BEL), the keyboard mode and the device attributes.
  ghost predicate Answers(request: string, response: string) {
    || (request == [ESC, '[', '6', 'n'] && response == [ESC, '[', '1', ';', '1', 'R'])
    || (request == [ESC, ']', '1', '0', ';', '?', ESC, '\\'] && response == [ESC] + "]10;rgb:eeee/eeee/eeee" + [ESC, '\\'])
    || (request == [ESC, ']', '1', '0', ';', '?', BEL] && response == [ESC] + "]10;rgb:eeee/eeee/eeee" + [ESC, '\\'])
    || (request == [ESC, ']', '1', '1', ';', '?', ESC, '\\'] && response == [ESC] + "]11;rgb:0000/0000/0000" + [ESC, '\\'])
    || (request == [ESC, ']', '1', '1', ';', '?', BEL] && response == [ESC] + "]11;rgb:0000/0000/0000" + [ESC, '\\'])
    || (request == [ESC, '[', '?', 'u'] && response == [ESC, '[', '?', '0', 'u'])
    || (request == [ESC, '[', 'c'] && response == [ESC, '[', '?', '1', ';', '2', 'c'])
  }

  lemma PairsExactly(request: string, response: string)
    ensures Answers(request, response) <==> exists p :: 0 <= p < |PROBES| && PROBES[p] == Probe(request, response)
  {
    var x := Probe(request, response);
    assert Answers(request, response) <==>
        x == PROBES[0] || x == PROBES[1] || x == PROBES[2] || x == PROBES[3] || x == PROBES[4] || x == PROBES[5] || x == PROBES[6];
    if p :| 0 <= p < |PROBES| && PROBES[p] == x {
      assert p in {0, 1, 2, 3, 4, 5, 6};
    }
  }

  // A request and where it stands.
  ghost predicate AnsweredAt(s: string, pos: nat, length: nat, response: string) {
    pos + length <= |s| && Answers(s[pos..pos + length], response)
  }

  // Each response to a stream answers one request in it, in the order in which they stand, and each
  // request is answered.
  ghost predicate AnswersInOrder(s: string, responses: seq<string>, at: seq<(nat, nat)>) {
    && |at| == |responses|
    && (forall i :: 0 <= i < |at| ==> AnsweredAt(s, at[i].0, at[i].1, responses[i]))
    && (forall i, j :: 0 <= i < j < |at| ==> at[i].0 + at[i].1 <= at[j].0)
    && (forall pos: nat, length: nat, response :: AnsweredAt(s, pos, length, response) ==> (pos, length) in at)
  }

  lemma StreamAnswered(s: string)
    ensures exists at :: AnswersInOrder(s, Batch(s), at)
  {
    hide PROBES, MatchesIn, Responses, Answers;
    var ms := MatchesIn(s, 0, |s|);
    MatchesInLists(s, 0, |s|);
    var at := Spans(ms);
    ResponseCount(ms);
    forall i | 0 <= i < |ms|
      ensures AnsweredAt(s, at[i].0, at[i].1, Batch(s)[i])
    {
      assert ms[i] in ms;
      MatchIsAnswered(s, ms[i]);
      ResponseAt(ms, i);
    }
    forall i, j | 0 <= i < j < |ms|
      ensures at[i].0 + at[i].1 <= at[j].0
    {
      NoOverlap(s, ms[i], ms[j]);
    }
    forall pos: nat, length: nat, response | AnsweredAt(s, pos, length, response)
      ensures (pos, length) in at
    {
      var m := AnsweredIsMatch(s, pos, length, response);
      var i :| 0 <= i < |ms| && ms[i] == m;
      assert at[i] == (pos, length);
    }
    assert AnswersInOrder(s, Batch(s), at);
  }

  ghost function Spans(ms: seq<Match>): seq<(nat, nat)>
    requires forall i :: 0 <= i < |ms| ==> ms[i].probe < |PROBES|
  {
    seq(|ms|, i requires 0 <= i < |ms| => (ms[i].pos, |PROBES[ms[i].probe].request|))
  }

  lemma ResponseCount(ms: seq<Match>)
    requires forall i :: 0 <= i < |ms| ==> ms[i].probe < |PROBES|
    ensures |Responses(ms)| == |ms|
  {
  }

  lemma ResponseAt(ms: seq<Match>, i: nat)
    requires i < |ms| && forall k :: 0 <= k < |ms| ==> ms[k].probe < |PROBES|
    ensures |Responses(ms)| == |ms| && Responses(ms)[i] == PROBES[ms[i].probe].response
  {
  }

  lemma MatchIsAnswered(s: string, m: Match)
    requires IsMatch(s, m)
    ensures AnsweredAt(s, m.pos, |PROBES[m.probe].request|, PROBES[m.probe].response)
  {
    hide PROBES;
    var r := PROBES[m.probe].request;
    PairsExactly(r, PROBES[m.probe].response);
    assert s[m.pos..m.pos + |r|] == r;
    assert PROBES[m.probe] == Probe(r, PROBES[m.probe].response);
  }

  lemma AnsweredIsMatch(s: string, pos: nat, length: nat, response: string) returns (m: Match)
    requires AnsweredAt(s, pos, length, response)
    ensures IsMatch(s, m) && m.pos == pos && |PROBES[m.probe].request| == length && 0 < EndOf(m) <= |s|
  {
    hide PROBES;
    var r := s[pos..pos + length];
    PairsExactly(r, response);
    var p :| 0 <= p < |PROBES| && PROBES[p] == Probe(r, response);
    ProbesHaveShape(p);
    m := Match(pos, p);
  }

  // ---------------------------------------------------------------- escape sequences and visible text

  // An escape sequence: ESC, a bracket and bytes up to the first one from `@` to `~`; or ESC, a
  // closing bracket and bytes up to the first BEL or ESC backslash; or ESC and any other byte.
  ghost predicate EscapeSequence(e: string) {
    && |e| >= 2 && e[0] == ESC
    && (match e[1]
        case '[' =>
          |e| >= 3 && '@' <= e[|e| - 1] <= '~' && forall k :: 2 <= k < |e| - 1 ==> !('@' <= e[k] <= '~')
        case ']' =>
          || (|e| >= 3 && e[|e| - 1] == BEL && Unended(e, |e| - 1))
          || (|e| >= 4 && e[|e| - 2] == ESC && e[|e| - 1] == '\\' && Unended(e, |e| - 2))
        case _ => |e| == 2)
  }

  // No end of an operating system command below n.
  ghost predicate Unended(e: string, n: nat) {
    forall k :: 2 <= k < n && k + 1 < |e| ==> e[k] != BEL && !(e[k] == ESC && e[k + 1] == '\\')
  }

  lemma {:induction false} ControlSkipped(e: string, rest: string, i: nat)
    requires 2 <= i < |e| && '@' <= e[|e| - 1] <= '~' && forall k :: i <= k < |e| - 1 ==> !('@' <= e[k] <= '~')
    ensures SkipControl(e + rest, i) == |e|
    decreases |e| - i
  {
    if i < |e| - 1 {
      ControlSkipped(e, rest, i + 1);
    }
  }

  lemma {:induction false} CommandSkipped(e: string, rest: string, i: nat, end: nat)
    requires 2 <= i <= end < |e|
    requires forall k :: i <= k < end ==> e[k] != BEL && !(e[k] == ESC && e[k + 1] == '\\')
    requires if e[end] == BEL then end + 1 == |e| else e[end] == ESC && end + 2 == |e| && e[end + 1] == '\\'
    ensures SkipCommand(e + rest, i) == |e|
    decreases end - i
  {
    if i < end {
      CommandSkipped(e, rest, i + 1, end);
    }
  }

  // The detector passes over a whole escape sequence, whatever follows.
  lemma EscapeIsSkipped(e: string, rest: string)
    requires EscapeSequence(e)
    ensures SkipEscape(e + rest, 0) == |e|
  {
    if e[1] == '[' {
      ControlSkipped(e, rest, 2);
    } else if e[1] == ']' {
      if e[|e| - 1] == BEL && Unended(e, |e| - 1) {
        CommandSkipped(e, rest, 2, |e| - 1);
      } else {
        CommandSkipped(e, rest, 2, |e| - 2);
      }
    }
  }

  // A sequence that does not end takes the rest of the text with it.
  lemma UnendedTakesAll(e: string)
    requires |e| >= 2 && e[0] == ESC
    requires || (e[1] == '[' && forall k :: 2 <= k < |e| ==> !('@' <= e[k] <= '~'))
             || (e[1] == ']' && (forall k :: 2 <= k < |e| ==> e[k] != BEL && !(e[k] == ESC && k + 1 < |e| && e[k + 1] == '\\')))
    ensures SkipEscape(e, 0) == |e|
  {
    if e[1] == '[' {
      ControlUnended(e, 2);
    } else {
      CommandUnended(e, 2);
    }
  }

  lemma {:induction false} ControlUnended(e: string, i: nat)
    requires i <= |e| && forall k :: i <= k < |e| ==> !('@' <= e[k] <= '~')
    ensures SkipControl(e, i) == |e|
    decreases |e| - i
  {
    if i < |e| {
      ControlUnended(e, i + 1);
    }
  }

  lemma {:induction false} CommandUnended(e: string, i: nat)
    requires i <= |e| && forall k :: i <= k < |e| ==> e[k] != BEL && !(e[k] == ESC && k + 1 < |e| && e[k + 1] == '\\')
    ensures SkipCommand(e, i) == |e|
    decreases |e| - i
  {
    if i < |e| {
      CommandUnended(e, i + 1);
    }
  }

  // What is skipped, and so what is visible, does not depend on what came before.
  lemma {:induction false} SkipShift(s: string, k: nat, i: nat)
    requires k <= i <= |s|
    ensures SkipControl(s, i) == k + SkipControl(s[k..], i - k)
    ensures SkipCommand(s, i) == k + SkipCommand(s[k..], i - k)
    decreases |s| - i
  {
    if i < |s| {
      SkipShift(s, k, i + 1);
    }
  }

  lemma EscapeShift(s: string, k: nat, i: nat)
    requires k <= i < |s|
    ensures SkipEscape(s, i) == k + SkipEscape(s[k..], i - k)
  {
    if i + 1 < |s| {
      SkipShift(s, k, i + 2);
      hide SkipControl, SkipCommand;
      assert s[k..][i - k + 1] == s[i + 1];
    }
  }

  lemma {:induction false} CompactShift(s: string, k: nat, i: nat)
    requires k <= i <= |s|
    ensures Compact(s, i) == Compact(s[k..], i - k)
    decreases |s| - i
  {
    hide SkipEscape, Plain;
    if i < |s| {
      assert s[k..][i - k] == s[i];
      if s[i] == ESC {
        EscapeShift(s, k, i);
        CompactShift(s, k, SkipEscape(s, i));
      } else {
        CompactShift(s, k, i + 1);
      }
    }
  }

  // The visible text, byte by byte from the front: an escape sequence leaves nothing, a byte above the
  // blank and below DEL stays, and any other byte goes.
  lemma VisibleText(e: string, c: char, rest: string)
    ensures EscapeSequence(e) ==> Compact(e + rest, 0) == Compact(rest, 0)
    ensures ' ' < c <= '~' ==> Compact([c] + rest, 0) == [c] + Compact(rest, 0)
    ensures c != ESC && !(' ' < c <= '~') ==> Compact([c] + rest, 0) == Compact(rest, 0)
  {
    if EscapeSequence(e) {
      EscapeIsSkipped(e, rest);
      CompactShift(e + rest, |e|, |e|);
      assert (e + rest)[|e|..] == rest;
    }
    CompactShift([c] + rest, 1, 1);
    assert ([c] + rest)[1..] == rest;
  }
}
