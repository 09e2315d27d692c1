/**
  Answering terminal probes in a PTY stream that arrives in chunks. A character stands for a byte.
 */
module TerminalProbe {
  import opened Strings

  const ESC: char := '\U{1B}'
  const BEL: char := '\U{7}'

  datatype Probe = Probe(request: string, response: string)

  const PROBES: seq<Probe> := [
    Probe([ESC, '[', '6', 'n'], [ESC, '[', '1', ';', '1', 'R']),
    Probe([ESC, ']', '1', '0', ';', '?', ESC, '\\'], [ESC] + "]10;rgb:eeee/eeee/eeee" + [ESC, '\\']),
    Probe([ESC, ']', '1', '0', ';', '?', BEL], [ESC] + "]10;rgb:eeee/eeee/eeee" + [ESC, '\\']),
    Probe([ESC, ']', '1', '1', ';', '?', ESC, '\\'], [ESC] + "]11;rgb:0000/0000/0000" + [ESC, '\\']),
    Probe([ESC, ']', '1', '1', ';', '?', BEL], [ESC] + "]11;rgb:0000/0000/0000" + [ESC, '\\']),
    Probe([ESC, '[', '?', 'u'], [ESC, '[', '?', '0', 'u']),
    Probe([ESC, '[', 'c'], [ESC, '[', '?', '1', ';', '2', 'c'])
  ]

  const MAX_TAIL: nat := 8192

  const CARRIAGE_RETURN: string := ['\r']

  // ---------------------------------------------------------------- occurrences

  datatype Match = Match(pos: nat, probe: nat)

  predicate IsMatch(s: string, m: Match) {
    m.probe < |PROBES| && OccursAt(s, PROBES[m.probe].request, m.pos)
  }

  function EndOf(m: Match): nat
    requires m.probe < |PROBES|
  {
    m.pos + |PROBES[m.probe].request|
  }

  // What makes probes tell apart: they start with ESC and a bracket, and an inner ESC is always
  // followed by a backslash.
  ghost predicate ProbeShape(r: string) {
    && 3 <= |r| <= 8
    && r[0] == ESC && (r[1] == '[' || r[1] == ']')
    && (forall d :: 0 < d < |r| && r[d] == ESC ==> d + 1 < |r| && r[d + 1] == '\\')
  }

  lemma ProbesHaveShape(p: nat)
    requires p < |PROBES|
    ensures ProbeShape(PROBES[p].request)
  {
    assert p in {0, 1, 2, 3, 4, 5, 6};
  }

  lemma CharAt(s: string, r: string, pos: nat, k: nat)
    requires OccursAt(s, r, pos) && k < |r|
    ensures s[pos + k] == r[k]
  {
    assert s[pos..pos + |r|][k] == s[pos + k];
  }

  lemma StartOfMatch(s: string, m: Match)
    requires IsMatch(s, m)
    ensures m.pos + 3 <= EndOf(m) <= |s| && s[m.pos] == ESC && (s[m.pos + 1] == '[' || s[m.pos + 1] == ']')
  {
    hide PROBES;
    ProbesHaveShape(m.probe);
    CharAt(s, PROBES[m.probe].request, m.pos, 0);
    CharAt(s, PROBES[m.probe].request, m.pos, 1);
  }

  lemma EscInsideMatch(s: string, m: Match, i: nat)
    requires IsMatch(s, m) && m.pos < i < EndOf(m) && i < |s| && s[i] == ESC
    ensures i + 1 < |s| && s[i + 1] == '\\'
  {
    hide PROBES;
    ProbesHaveShape(m.probe);
    CharAt(s, PROBES[m.probe].request, m.pos, i - m.pos);
    CharAt(s, PROBES[m.probe].request, m.pos, i - m.pos + 1);
  }

  // No probe starts inside another occurrence.
  lemma NoOverlap(s: string, m: Match, n: Match)
    requires IsMatch(s, m) && IsMatch(s, n) && m.pos < n.pos
    ensures EndOf(m) <= n.pos
  {
    hide PROBES, OccursAt;
    StartOfMatch(s, n);
    if n.pos < EndOf(m) {
      EscInsideMatch(s, m, n.pos);
    }
  }

  // No two probes occur at the same position.
  lemma SamePosition(s: string, m: Match, n: Match)
    requires IsMatch(s, m) && IsMatch(s, n) && m.pos == n.pos
    ensures m == n
  {
    var p, q := PROBES[m.probe].request, PROBES[n.probe].request;
    CharAt(s, p, m.pos, 1);
    CharAt(s, q, m.pos, 1);
    CharAt(s, p, m.pos, 2);
    CharAt(s, q, m.pos, 2);
    if p[1] == ']' {
      CharAt(s, p, m.pos, 3);
      CharAt(s, q, m.pos, 3);
      CharAt(s, p, m.pos, 6);
      CharAt(s, q, m.pos, 6);
    }
  }

  lemma SameEnd(s: string, m: Match, n: Match)
    requires IsMatch(s, m) && IsMatch(s, n) && EndOf(m) == EndOf(n)
    ensures m == n
  {
    hide PROBES;
    ProbesHaveShape(m.probe);
    ProbesHaveShape(n.probe);
    if m.pos < n.pos {
      NoOverlap(s, m, n);
    } else if n.pos < m.pos {
      NoOverlap(s, n, m);
    } else {
      SamePosition(s, m, n);
    }
  }

  // ---------------------------------------------------------------- one pass over a stream

  ghost predicate EndsAt(s: string, e: nat, m: Match) {
    IsMatch(s, m) && EndOf(m) == e
  }

  // The probes completed by the bytes after position a, up to position b, in stream order.
  ghost function MatchesIn(s: string, a: nat, b: nat): (ms: seq<Match>)
    requires a <= b <= |s|
    ensures forall i :: 0 <= i < |ms| ==> IsMatch(s, ms[i])
    decreases b
  {
    if a == b then []
    else
      MatchesIn(s, a, b - 1) + if exists m :: EndsAt(s, b, m) then var m :| EndsAt(s, b, m); [m] else []
  }

  function Responses(ms: seq<Match>): seq<string>
    requires forall i :: 0 <= i < |ms| ==> ms[i].probe < |PROBES|
  {
    seq(|ms|, i requires 0 <= i < |ms| => PROBES[ms[i].probe].response)
  }

  ghost predicate Ascending(ms: seq<Match>) {
    forall i, j :: 0 <= i < j < |ms| ==> ms[i].pos < ms[j].pos
  }

  // ms lists exactly the occurrences in s that end after a and no later than b.
  ghost predicate Lists(ms: seq<Match>, s: string, a: nat, b: nat) {
    forall m :: m in ms <==> IsMatch(s, m) && a < EndOf(m) <= b
  }

  lemma {:induction false} MatchesInLists(s: string, a: nat, b: nat)
    requires a <= b <= |s|
    ensures Lists(MatchesIn(s, a, b), s, a, b) && Ascending(MatchesIn(s, a, b))
    decreases b
  {
    hide PROBES;
    var ms := MatchesIn(s, a, b);
    if a < b {
      var before := MatchesIn(s, a, b - 1);
      MatchesInLists(s, a, b - 1);
      if exists m :: EndsAt(s, b, m) {
        var last := ms[|before|];
        forall m | IsMatch(s, m) && EndOf(m) == b
          ensures m == last
        {
          SameEnd(s, m, last);
        }
        forall i | 0 <= i < |before|
          ensures before[i].pos < last.pos
        {
          assert before[i] in before;
          EarlierEndEarlierStart(s, before[i], last);
        }
      }
      assert forall m :: IsMatch(s, m) && EndOf(m) == b ==> EndsAt(s, b, m);
    }
  }

  lemma EarlierEndEarlierStart(s: string, m: Match, n: Match)
    requires IsMatch(s, m) && IsMatch(s, n) && EndOf(m) < EndOf(n)
    ensures m.pos < n.pos
  {
    hide PROBES;
    ProbesHaveShape(m.probe);
    ProbesHaveShape(n.probe);
    if n.pos < m.pos {
      NoOverlap(s, n, m);
    } else if n.pos == m.pos {
      SamePosition(s, m, n);
    }
  }

  lemma InitMembers(xs: seq<Match>, m: Match)
    requires Ascending(xs) && xs != []
    ensures m in xs[..|xs| - 1] <==> m in xs && m != xs[|xs| - 1]
  {
    var n := |xs| - 1;
    if m in xs && m != xs[n] {
      var i :| 0 <= i < |xs| && xs[i] == m;
      assert xs[..n][i] == m;
    }
  }

  lemma InitAscends(xs: seq<Match>)
    requires Ascending(xs) && xs != []
    ensures Ascending(xs[..|xs| - 1])
  {
  }

  lemma LastIsGreatest(xs: seq<Match>, m: Match)
    requires Ascending(xs) && m in xs
    ensures m.pos < xs[|xs| - 1].pos || m == xs[|xs| - 1]
  {
  }

  // An ascending list is determined by its elements.
  lemma {:induction false} AscendingUnique(xs: seq<Match>, ys: seq<Match>)
    requires Ascending(xs) && Ascending(ys)
    requires forall m :: m in xs <==> m in ys
    ensures xs == ys
    decreases |xs|
  {
    assert |ys| > 0 ==> ys[0] in ys;
    if xs == [] {
      assert ys == [];
    } else {
      assert xs[0] in ys;
      var x, y := xs[|xs| - 1], ys[|ys| - 1];
      assert x in xs && y in ys;
      LastIsGreatest(xs, y);
      LastIsGreatest(ys, x);
      var xs', ys' := xs[..|xs| - 1], ys[..|ys| - 1];
      hide Ascending;
      InitAscends(xs);
      InitAscends(ys);
      forall m
        ensures m in xs' <==> m in ys'
      {
        InitMembers(xs, m);
        InitMembers(ys, m);
      }
      AscendingUnique(xs', ys');
      assert xs == xs' + [x] && ys == ys' + [y];
    }
  }

  // ---------------------------------------------------------------- the scan

  method IndexFrom(s: string, substr: string, start: nat) returns (i: int)
    requires substr != ""
    ensures i < 0 ==> forall k: nat :: k >= start ==> !OccursAt(s, substr, k)
    ensures i >= 0 ==> start <= i && OccursAt(s, substr, i) && forall k: nat :: start <= k < i ==> !OccursAt(s, substr, k)
  {
    if start >= |s| {
      return -1;
    }
    var j := start;
    while j + |substr| <= |s|
      invariant forall k: nat :: start <= k < j ==> !OccursAt(s, substr, k)
    {
      if s[j..j + |substr|] == substr {
        return j;
      }
      j := j + 1;
    }
    return -1;
  }

  ghost predicate ListsProbe(ms: seq<Match>, s: string, oldLen: nat, p: nat, limit: nat)
    requires p < |PROBES|
  {
    forall m: Match :: m in ms <==> m.probe == p && IsMatch(s, m) && EndOf(m) > oldLen && m.pos < limit
  }

  // Every occurrence of one probe that ends in the new bytes, skipping past each as it is found.
  method ScanProbe(s: string, oldLen: nat, p: nat) returns (ms: seq<Match>)
    requires p < |PROBES|
    ensures Ascending(ms)
    ensures ListsProbe(ms, s, oldLen, p, |s|)
  {
    hide PROBES;
    ms := [];
    var start: nat := 0;
    var request := PROBES[p].request;
    ProbesHaveShape(p);
    while true
      invariant Ascending(ms) && ListsProbe(ms, s, oldLen, p, start)
      decreases |s| - start
    {
      var pos := IndexFrom(s, request, start);
      if pos < 0 {
        return;
      }
      var m := Match(pos, p);
      forall n: Match | n.probe == p && IsMatch(s, n) && start <= n.pos < pos + |request|
        ensures n == m
      {
        if pos < n.pos {
          NoOverlap(s, m, n);
        }
      }
      assert forall i :: 0 <= i < |ms| ==> ms[i] in ms;
      if pos + |request| > oldLen {
        ms := ms + [m];
      }
      start := pos + |request|;
    }
  }

  ghost predicate DistinctPositions(ms: seq<Match>) {
    forall i, j :: 0 <= i < j < |ms| ==> ms[i].pos != ms[j].pos
  }

  lemma SplicedAscends(ms: seq<Match>, k: nat, m: Match)
    requires Ascending(ms) && k <= |ms|
    requires (k > 0 ==> ms[k - 1].pos < m.pos) && (k < |ms| ==> m.pos < ms[k].pos)
    ensures Ascending(ms[..k] + [m] + ms[k..])
  {
    var r := ms[..k] + [m] + ms[k..];
    assert forall i :: 0 <= i < |r| ==> r[i] == if i < k then ms[i] else if i == k then m else ms[i - 1];
    forall i, j | 0 <= i < j < |r|
      ensures r[i].pos < r[j].pos
    {
      assert i < k ==> ms[i].pos < m.pos;
      assert j > k ==> m.pos < ms[j - 1].pos;
    }
  }

  lemma SplicedMembers(ms: seq<Match>, k: nat, m: Match, x: Match)
    requires k <= |ms|
    ensures x in ms[..k] + [m] + ms[k..] <==> x in ms || x == m
  {
    assert ms == ms[..k] + ms[k..];
  }

  method InsertByPosition(ms: seq<Match>, m: Match) returns (r: seq<Match>)
    requires Ascending(ms) && forall i :: 0 <= i < |ms| ==> ms[i].pos != m.pos
    ensures Ascending(r) && forall x :: x in r <==> x in ms || x == m
  {
    var k := |ms|;
    while k > 0 && ms[k - 1].pos > m.pos
      invariant 0 <= k <= |ms| && forall i :: k <= i < |ms| ==> ms[i].pos > m.pos
    {
      k := k - 1;
    }
    SplicedAscends(ms, k, m);
    r := ms[..k] + [m] + ms[k..];
    forall x
      ensures x in r <==> x in ms || x == m
    {
      SplicedMembers(ms, k, m, x);
    }
  }

  // The sort by position; no two matches share one, so stability plays no part.
  method SortByPosition(ms: seq<Match>) returns (r: seq<Match>)
    requires DistinctPositions(ms)
    ensures Ascending(r) && forall m :: m in r <==> m in ms
  {
    r := [];
    for i := 0 to |ms|
      invariant Ascending(r) && forall m :: m in r <==> m in ms[..i]
    {
      assert ms[..i + 1] == ms[..i] + [ms[i]];
      forall j | 0 <= j < |r|
        ensures r[j].pos != ms[i].pos
      {
        assert r[j] in ms[..i];
      }
      r := InsertByPosition(r, ms[i]);
    }
    assert ms[..|ms|] == ms;
  }

  method TerminalProbeReplies(tail: string, chunk: string) returns (replies: seq<string>, ghost found: seq<Match>)
    ensures found == MatchesIn(tail + chunk, |tail|, |tail + chunk|)
    ensures Lists(found, tail + chunk, |tail|, |tail + chunk|)
    ensures replies == Responses(found)
  {
    hide PROBES;
    var window, oldLen := tail + chunk, |tail|;
    var matches: seq<Match> := [];
    for p := 0 to |PROBES|
      invariant DistinctPositions(matches)
      invariant forall m: Match :: m in matches <==> m.probe < p && IsMatch(window, m) && EndOf(m) > oldLen
    {
      var ms := ScanProbe(window, oldLen, p);
      ProbesHaveShape(p);
      forall i, j | 0 <= i < |matches| && 0 <= j < |ms|
        ensures matches[i].pos != ms[j].pos
      {
        assert matches[i] in matches && ms[j] in ms;
        if matches[i].pos == ms[j].pos {
          SamePosition(window, matches[i], ms[j]);
        }
      }
      matches := matches + ms;
    }
    matches := SortByPosition(matches);
    MatchesInLists(window, oldLen, |window|);
    found := MatchesIn(window, oldLen, |window|);
    AscendingUnique(matches, found);
    replies := Responses(matches);
  }

  // ---------------------------------------------------------------- windows onto a stream

  function Tail(limit: nat, s: string): (t: string)
    ensures |t| <= limit && |t| <= |s| && t == s[|s| - |t|..] && (|t| < limit ==> t == s)
  {
    if |s| <= limit then s else s[|s| - limit..]
  }

  lemma {:induction false} MatchesSplit(s: string, a: nat, b: nat, c: nat)
    requires a <= b <= c <= |s|
    ensures MatchesIn(s, a, c) == MatchesIn(s, a, b) + MatchesIn(s, b, c)
    decreases c
  {
    if b < c {
      MatchesSplit(s, a, b, c - 1);
    }
  }

  lemma MatchInPrefix(s: string, t: string, m: Match)
    requires m.probe < |PROBES| && EndOf(m) <= |s|
    ensures IsMatch(s + t, m) <==> IsMatch(s, m)
  {
    hide PROBES;
    assert (s + t)[m.pos..EndOf(m)] == s[m.pos..EndOf(m)];
  }

  // Later bytes do not change what has already been completed.
  lemma MatchesInPrefix(s: string, t: string, a: nat, b: nat)
    requires a <= b <= |s|
    ensures MatchesIn(s + t, a, b) == MatchesIn(s, a, b)
  {
    hide PROBES;
    MatchesInLists(s + t, a, b);
    MatchesInLists(s, a, b);
    forall m
      ensures m in MatchesIn(s + t, a, b) <==> m in MatchesIn(s, a, b)
    {
      if m.probe < |PROBES| && EndOf(m) <= b {
        MatchInPrefix(s, t, m);
      }
    }
    AscendingUnique(MatchesIn(s + t, a, b), MatchesIn(s, a, b));
  }

  function Shifted(ms: seq<Match>, k: nat): seq<Match> {
    seq(|ms|, i requires 0 <= i < |ms| => Match(ms[i].pos + k, ms[i].probe))
  }

  lemma ShiftedMatch(s: string, k: nat, m: Match)
    requires k <= |s|
    ensures IsMatch(s[k..], m) <==> IsMatch(s, Match(m.pos + k, m.probe))
  {
    hide PROBES;
    if m.probe < |PROBES| && k + EndOf(m) <= |s| {
      assert s[k..][m.pos..EndOf(m)] == s[m.pos + k..EndOf(m) + k];
    }
  }

  lemma ShiftedMembers(ms: seq<Match>, k: nat, m: Match)
    ensures m in Shifted(ms, k) <==> m.pos >= k && Match(m.pos - k, m.probe) in ms
  {
    if m.pos >= k && Match(m.pos - k, m.probe) in ms {
      var i :| 0 <= i < |ms| && ms[i] == Match(m.pos - k, m.probe);
      assert Shifted(ms, k)[i] == m;
    }
  }

  // A window that starts seven bytes before a, or at the start of the stream, sees every probe
  // completed after a: a probe is at most eight bytes long.
  lemma SeenInWindow(s: string, k: nat, a: nat, b: nat, m: Match)
    requires k <= a <= b <= |s| && (k == 0 || k + 7 <= a)
    ensures m in Shifted(MatchesIn(s[k..], a - k, b - k), k) <==> m in MatchesIn(s, a, b)
  {
    hide PROBES, MatchesIn, IsMatch, Shifted;
    MatchesInLists(s[k..], a - k, b - k);
    MatchesInLists(s, a, b);
    ShiftedMembers(MatchesIn(s[k..], a - k, b - k), k, m);
    if m.probe < |PROBES| {
      ProbesHaveShape(m.probe);
      if m.pos >= k {
        ShiftedMatch(s, k, Match(m.pos - k, m.probe));
      }
    } else {
      MatchesAreProbes(s, m);
      MatchesAreProbes(s[k..], m);
      MatchesAreProbes(s[k..], Match(if m.pos >= k then m.pos - k else 0, m.probe));
    }
  }

  lemma MatchesAreProbes(s: string, m: Match)
    requires m.probe >= |PROBES|
    ensures !IsMatch(s, m)
  {
  }

  lemma WindowSeesAll(s: string, k: nat, a: nat, b: nat)
    requires k <= a <= b <= |s| && (k == 0 || k + 7 <= a)
    ensures Responses(MatchesIn(s[k..], a - k, b - k)) == Responses(MatchesIn(s, a, b))
  {
    hide PROBES, MatchesIn, IsMatch;
    var shifted := Shifted(MatchesIn(s[k..], a - k, b - k), k);
    MatchesInLists(s[k..], a - k, b - k);
    MatchesInLists(s, a, b);
    forall m
      ensures m in shifted <==> m in MatchesIn(s, a, b)
    {
      SeenInWindow(s, k, a, b, m);
    }
    AscendingUnique(shifted, MatchesIn(s, a, b));
  }

  lemma ResponsesConcat(xs: seq<Match>, ys: seq<Match>)
    requires forall i :: 0 <= i < |xs| ==> xs[i].probe < |PROBES|
    requires forall i :: 0 <= i < |ys| ==> ys[i].probe < |PROBES|
    ensures Responses(xs + ys) == Responses(xs) + Responses(ys)
  {
  }

  // The responses to a whole stream delivered at once.
  ghost function Batch(s: string): seq<string> {
    Responses(MatchesIn(s, 0, |s|))
  }

  lemma BatchOfNothing()
    ensures Batch("") == []
  {
    hide PROBES;
  }

  ghost function ChunkReplies(tail: string, chunk: string): seq<string> {
    Responses(MatchesIn(tail + chunk, |tail|, |tail + chunk|))
  }

  // What one chunk adds, given the tail kept of the stream before it.
  lemma ChunkExtendsBatch(limit: nat, before: string, chunk: string)
    requires limit >= 7
    ensures Batch(before + chunk) == Batch(before) + ChunkReplies(Tail(limit, before), chunk)
    ensures Tail(limit, Tail(limit, before) + chunk) == Tail(limit, before + chunk)
  {
    hide PROBES, MatchesIn, Responses;
    var s, tail := before + chunk, Tail(limit, before);
    var k := |before| - |tail|;
    assert s[k..] == tail + chunk;
    WindowSeesAll(s, k, |before|, |s|);
    MatchesSplit(s, 0, |before|, |s|);
    MatchesInPrefix(before, chunk, 0, |before|);
    ResponsesConcat(MatchesIn(s, 0, |before|), MatchesIn(s, |before|, |s|));
  }

  // Cutting the stream here loses no reply and repeats none.
  ghost predicate Seamless(limit: nat, before: string, chunk: string) {
    Batch(before + chunk) == Batch(before) + ChunkReplies(Tail(limit, before), chunk)
  }

  lemma MatchExists(s: string, a: nat)
    requires a <= |s| && MatchesIn(s, a, |s|) != []
    ensures exists m :: IsMatch(s, m)
  {
    assert IsMatch(s, MatchesIn(s, a, |s|)[0]);
  }

  const CUT_PROBE: string := [ESC, ']', '1', '0', ';', '?', ESC]

  lemma CutProbeDoesNotMatch(m: Match)
    ensures !IsMatch(CUT_PROBE, m)
  {
    if IsMatch(CUT_PROBE, m) {
      var r := PROBES[m.probe].request;
      ProbesHaveShape(m.probe);
      CharAt(CUT_PROBE, r, m.pos, 0);
      CharAt(CUT_PROBE, r, m.pos, 1);
      if |r| > 6 {
        CharAt(CUT_PROBE, r, m.pos, 6);
      }
    }
  }

  lemma LostPrefixDoesNotMatch(tail: string, m: Match)
    requires |tail| <= 6 && tail == CUT_PROBE[7 - |tail|..]
    ensures !IsMatch(tail + ['\\'], m)
  {
    hide PROBES, IsMatch;
    if IsMatch(tail + ['\\'], m) {
      StartOfMatch(tail + ['\\'], m);
    }
  }

  // Seven bytes of tail are what the longest probe needs: with fewer, some cut loses a reply.
  lemma TailBound(limit: nat)
    ensures (forall before, chunk :: Seamless(limit, before, chunk)) <==> limit >= 7
  {
    hide PROBES, Batch, ChunkReplies, Tail;
    if limit >= 7 {
      forall before, chunk
        ensures Seamless(limit, before, chunk)
      {
        ChunkExtendsBatch(limit, before, chunk);
      }
    } else {
      CutProbeIsLost(limit);
      assert !Seamless(limit, CUT_PROBE, ['\\']);
    }
  }

  lemma WholeProbeMatches(s: string)
    requires s == PROBES[1].request
    ensures IsMatch(s, Match(0, 1)) && EndOf(Match(0, 1)) == 8
  {
    assert s[0..8] == s;
  }

  lemma CutProbeIsLost(limit: nat)
    requires limit < 7
    ensures !Seamless(limit, CUT_PROBE, ['\\'])
  {
    hide MatchesIn, IsMatch;
    var tail, whole := Tail(limit, CUT_PROBE), CUT_PROBE + ['\\'];
    forall m
      ensures !IsMatch(CUT_PROBE, m) && !IsMatch(tail + ['\\'], m)
    {
      CutProbeDoesNotMatch(m);
      LostPrefixDoesNotMatch(tail, m);
    }
    if MatchesIn(CUT_PROBE, 0, 7) != [] {
      MatchExists(CUT_PROBE, 0);
    }
    if MatchesIn(tail + ['\\'], |tail|, |tail| + 1) != [] {
      MatchExists(tail + ['\\'], |tail|);
    }
    WholeProbeMatches(whole);
    MatchesInLists(whole, 0, 8);
    assert Match(0, 1) in MatchesIn(whole, 0, 8);
  }

  // ---------------------------------------------------------------- the trust prompt

  predicate Plain(c: char) {
    ' ' < c < '\U{7f}'
  }

  predicate FinalByte(c: char) {
    '\U{40}' <= c <= '\U{7e}'
  }

  // The index just past a control sequence's final byte, or the end of the text.
  function SkipControl(s: string, i: nat): (j: nat)
    requires i <= |s|
    ensures i <= j <= |s|
    decreases |s| - i
  {
    if i == |s| then i else if FinalByte(s[i]) then i + 1 else SkipControl(s, i + 1)
  }

  // The index just past BEL or ESC backslash, or the end of the text.
  function SkipCommand(s: string, i: nat): (j: nat)
    requires i <= |s|
    ensures i <= j <= |s|
    decreases |s| - i
  {
    if i == |s| then i
    else if s[i] == BEL then i + 1
    else if s[i] == ESC && i + 1 < |s| && s[i + 1] == '\\' then i + 2
    else SkipCommand(s, i + 1)
  }

  function SkipEscape(s: string, i: nat): (j: nat)
    requires i < |s|
    ensures i < j <= |s|
  {
    if i + 1 == |s| then i + 1
    else if s[i + 1] == '[' then SkipControl(s, i + 2)
    else if s[i + 1] == ']' then SkipCommand(s, i + 2)
    else i + 2
  }

  method SkipEscapeSequence(s: string, start: nat) returns (i: nat)
    requires start < |s|
    ensures i == SkipEscape(s, start)
  {
    i := start + 1;
    if i >= |s| {
      return;
    }
    if s[i] == '[' {
      i := i + 1;
      while i < |s|
        invariant i <= |s| && SkipControl(s, i) == SkipEscape(s, start)
      {
        var b := s[i];
        i := i + 1;
        if FinalByte(b) {
          return;
        }
      }
    } else if s[i] == ']' {
      i := i + 1;
      while i < |s|
        invariant i <= |s| && SkipCommand(s, i) == SkipEscape(s, start)
      {
        if s[i] == BEL {
          return i + 1;
        }
        if s[i] == ESC && i + 1 < |s| && s[i + 1] == '\\' {
          return i + 2;
        }
        i := i + 1;
      }
    } else {
      i := i + 1;
    }
  }

  // The visible text from i on, without blanks, control bytes and escape sequences.
  function Compact(s: string, i: nat): (t: string)
    requires i <= |s|
    ensures forall k :: 0 <= k < |t| ==> Plain(t[k])
    decreases |s| - i
  {
    if i == |s| then ""
    else if s[i] == ESC then Compact(s, SkipEscape(s, i))
    else if Plain(s[i]) then [s[i]] + Compact(s, i + 1)
    else Compact(s, i + 1)
  }

  method CompactTerminalText(s: string) returns (out: string)
    ensures out == Compact(s, 0)
    ensures Compact(out, 0) == out
  {
    out := "";
    var i := 0;
    while i < |s|
      invariant 0 <= i <= |s|
      invariant out + Compact(s, i) == Compact(s, 0)
      invariant forall k :: 0 <= k < |out| ==> Plain(out[k])
      decreases |s| - i
    {
      var b := s[i];
      if b == ESC {
        i := SkipEscapeSequence(s, i);
      } else if Plain(b) {
        out := out + [b];
        i := i + 1;
      } else {
        i := i + 1;
      }
    }
    CompactOfPlain(out, 0);
  }

  lemma {:induction false} CompactOfPlain(s: string, i: nat)
    requires i <= |s| && forall k :: i <= k < |s| ==> Plain(s[k])
    ensures Compact(s, i) == s[i..]
    decreases |s| - i
  {
    if i < |s| {
      CompactOfPlain(s, i + 1);
    }
  }

  // Compaction fixes exactly the text that has nothing to take out.
  lemma CompactFixesExactlyPlain(s: string)
    ensures Compact(s, 0) == s <==> forall k :: 0 <= k < |s| ==> Plain(s[k])
  {
    if forall k :: 0 <= k < |s| ==> Plain(s[k]) {
      CompactOfPlain(s, 0);
    }
  }

  predicate TrustPrompt(s: string) {
    var compact := Compact(s, 0);
    Contains(compact, "Doyoutrustthecontentsofthisdirectory?") || Contains(compact, "Pressentertocontinue")
  }

  method ContainsCodexWorkspaceTrustPrompt(s: string) returns (b: bool)
    ensures b == TrustPrompt(s)
  {
    var compact := CompactTerminalText(s);
    b := Contains(compact, "Doyoutrustthecontentsofthisdirectory?") || Contains(compact, "Pressentertocontinue");
  }

  // ---------------------------------------------------------------- the responder

  // Answers to probes, and answers to the trust prompt, within a list of replies.
  function ProbeAnswers(replies: seq<string>): seq<string> {
    if replies == [] then []
    else (if replies[0] == CARRIAGE_RETURN then [] else [replies[0]]) + ProbeAnswers(replies[1..])
  }

  function TrustAnswers(replies: seq<string>): nat {
    if replies == [] then 0 else (if replies[0] == CARRIAGE_RETURN then 1 else 0) + TrustAnswers(replies[1..])
  }

  lemma {:induction false} AnswersConcat(xs: seq<string>, ys: seq<string>)
    ensures ProbeAnswers(xs + ys) == ProbeAnswers(xs) + ProbeAnswers(ys)
    ensures TrustAnswers(xs + ys) == TrustAnswers(xs) + TrustAnswers(ys)
    decreases |xs|
  {
    if xs == [] {
      assert xs + ys == ys;
    } else {
      AnswersConcat(xs[1..], ys);
      assert (xs + ys)[1..] == xs[1..] + ys && (xs + ys)[0] == xs[0];
    }
  }

  lemma {:induction false} ResponsesAreProbeAnswers(ms: seq<Match>)
    requires forall i :: 0 <= i < |ms| ==> ms[i].probe < |PROBES|
    ensures ProbeAnswers(Responses(ms)) == Responses(ms) && TrustAnswers(Responses(ms)) == 0
    decreases |ms|
  {
    hide PROBES;
    if ms != [] {
      ResponsesAreProbeAnswers(ms[1..]);
      ResponseIsNoReturn(ms[0].probe);
      assert Responses(ms) == [PROBES[ms[0].probe].response] + Responses(ms[1..]);
    }
  }

  lemma ResponseIsNoReturn(p: nat)
    requires p < |PROBES|
    ensures PROBES[p].response != CARRIAGE_RETURN
  {
    assert PROBES[p].response[0] == ESC;
  }

  class ReplyState {
    const adapter: string
    var tail: string
    var trustDone: bool
    ghost var seen: string            // the stream so far
    ghost var replied: seq<string>    // every reply so far

    ghost predicate Valid()
      reads this
    {
      && tail == Tail(MAX_TAIL, seen)
      && ProbeAnswers(replied) == Batch(seen)
      && TrustAnswers(replied) == (if trustDone then 1 else 0)
      && (trustDone ==> adapter == "codex")
    }

    constructor (adapter: string)
      ensures Valid() && seen == "" && replied == [] && !trustDone && this.adapter == adapter
    {
      hide Batch, PROBES;
      BatchOfNothing();
      this.adapter := adapter;
      tail, trustDone, seen, replied := "", false, "", [];
    }

    method ForChunk(chunk: string) returns (replies: seq<string>)
      requires Valid()
      modifies this
      ensures Valid() && seen == old(seen) + chunk && replied == old(replied) + replies
      ensures Batch(seen) == Batch(old(seen)) + ProbeAnswers(replies)
      ensures replies == ChunkReplies(old(tail), chunk)
                         + if adapter == "codex" && !old(trustDone) && TrustPrompt(old(tail) + chunk) then ["\r"] else []
      ensures trustDone == (old(trustDone) || (adapter == "codex" && TrustPrompt(old(tail) + chunk)))
      ensures TrustAnswers(replies) ==
                if adapter == "codex" && !old(trustDone) && TrustPrompt(old(tail) + chunk) then 1 else 0
    {
      hide Batch, TrustPrompt, PROBES, MatchesIn, Responses;
      var window := tail + chunk;
      ghost var found: seq<Match>;
      replies, found := TerminalProbeReplies(tail, chunk);
      ResponsesAreProbeAnswers(found);
      assert ChunkReplies(tail, chunk) == replies;
      var prompt := ContainsCodexWorkspaceTrustPrompt(window);
      if adapter == "codex" && !trustDone && prompt {
        AnswersConcat(replies, [CARRIAGE_RETURN]);
        assert ProbeAnswers([CARRIAGE_RETURN]) == [] && TrustAnswers([CARRIAGE_RETURN]) == 1;
        replies := replies + [CARRIAGE_RETURN];
        trustDone := true;
      }
      ChunkExtendsBatch(MAX_TAIL, seen, chunk);
      AnswersConcat(replied, replies);
      tail := Tail(MAX_TAIL, window);
      seen, replied := seen + chunk, replied + replies;
    }
  }

  function Concat(chunks: seq<string>): string
    decreases |chunks|
  {
    if chunks == [] then "" else Concat(chunks[..|chunks| - 1]) + chunks[|chunks| - 1]
  }

  // Some chunk shows the prompt, read after the last 8192 bytes before it.
  ghost predicate ShowsPrompt(chunks: seq<string>, k: nat)
    requires k < |chunks|
  {
    var before := Concat(chunks[..k]);
    TrustPrompt((if |before| <= 8192 then before else before[|before| - 8192..]) + chunks[k])
  }

  ghost predicate PromptSeen(chunks: seq<string>) {
    exists k: nat :: k < |chunks| && ShowsPrompt(chunks, k)
  }

  lemma PromptSeenSnoc(chunks: seq<string>, chunk: string)
    ensures PromptSeen(chunks + [chunk]) <==>
              PromptSeen(chunks) || TrustPrompt(Tail(MAX_TAIL, Concat(chunks)) + chunk)
  {
    hide ShowsPrompt, TrustPrompt, Concat, Tail;
    var all := chunks + [chunk];
    forall k: nat | k < |chunks| {
      SameShown(all, chunks, k);
    }
    LastShown(chunks, chunk);
  }

  lemma SameShown(all: seq<string>, chunks: seq<string>, k: nat)
    requires chunks <= all && k < |chunks|
    ensures ShowsPrompt(all, k) <==> ShowsPrompt(chunks, k)
  {
    hide TrustPrompt, Concat;
    assert all[..k] == chunks[..k];
  }

  lemma LastShown(chunks: seq<string>, chunk: string)
    ensures ShowsPrompt(chunks + [chunk], |chunks|) <==> TrustPrompt(Tail(MAX_TAIL, Concat(chunks)) + chunk)
  {
    hide TrustPrompt, Concat;
    assert (chunks + [chunk])[..|chunks|] == chunks;
  }

  lemma NothingSeen(chunks: seq<string>)
    requires chunks == []
    ensures Concat(chunks) == "" && !PromptSeen(chunks)
  {
  }

  lemma ConcatSnoc(chunks: seq<string>, chunk: string)
    ensures Concat(chunks + [chunk]) == Concat(chunks) + chunk
  {
    assert (chunks + [chunk])[..|chunks|] == chunks;
  }

  // However the stream is cut into chunks, the probe answers written are those of the whole stream
  // read at once, and the trust prompt is answered once if some window shows it, for one adapter only.
  method CopyPTYOutput(chunks: seq<string>, adapter: string) returns (output: string, replies: seq<string>)
    ensures output == Concat(chunks)
    ensures ProbeAnswers(replies) == Batch(Concat(chunks))
    ensures TrustAnswers(replies) == if adapter == "codex" && PromptSeen(chunks) then 1 else 0
  {
    hide Batch, TrustPrompt, ProbeAnswers, TrustAnswers, PromptSeen, Concat, Tail;
    NothingSeen(chunks[..0]);
    var state := new ReplyState(adapter);
    output, replies := "", [];
    for i := 0 to |chunks|
      invariant state.Valid() && state.adapter == adapter
      invariant output == state.seen == Concat(chunks[..i]) && replies == state.replied
      invariant state.trustDone <==> adapter == "codex" && PromptSeen(chunks[..i])
    {
      assert chunks[..i + 1] == chunks[..i] + [chunks[i]];
      ConcatSnoc(chunks[..i], chunks[i]);
      PromptSeenSnoc(chunks[..i], chunks[i]);
      output := output + chunks[i];
      var responses := state.ForChunk(chunks[i]);
      replies := replies + responses;
    }
    assert chunks[..|chunks|] == chunks;
  }
}
