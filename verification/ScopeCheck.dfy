/**
  Write-scope checking: path normalisation, prefix matching and the classification of changed paths.
 */
module ScopeCheck {
  import opened Strings
  import opened Wrappers

  // ---------------------------------------------------------------- lexical cleaning

  // One path segment against the segments kept so far, as the standard lexical clean does it for
  // a relative path.
  function Push(kept: seq<string>, part: string): seq<string> {
    if part == "" || part == "." then kept
    else if part == ".." then
      if kept == [] || kept[|kept| - 1] == ".." then kept + [".."] else kept[..|kept| - 1]
    else kept + [part]
  }

  function CleanParts(parts: seq<string>): seq<string>
    decreases |parts|
  {
    if parts == [] then [] else Push(CleanParts(parts[..|parts| - 1]), parts[|parts| - 1])
  }

  function Show(parts: seq<string>): string {
    if parts == [] then "." else Join(parts, '/')
  }

  function Clean(path: string): string {
    Show(CleanParts(Split(path, '/')))
  }

  predicate HasSuffix(s: string, suffix: string) {
    |suffix| <= |s| && s[|s| - |suffix|..] == suffix
  }

  function NormalizeScopePath(raw: string): Option<string> {
    var path := TrimSpace(raw);
    if path == "" || path == "." || path == "./" then Some(".")
    else if HasPrefix(path, "/") || Contains(path, "../") || path == ".." then None
    else
      var cleaned := Clean(path);
      var clean := if HasPrefix(cleaned, "./") then cleaned[2..] else cleaned;
      if clean == "." || clean == "" then Some(".")
      else if HasPrefix(clean, "../") || clean == ".." || HasPrefix(clean, "/") then None
      else Some(if HasSuffix(clean, "/") then clean[..|clean| - 1] else clean)
  }

  // ---------------------------------------------------------------- what a path means

  // Walking a path from the repository root: None once it leaves the root.
  function Walk(parts: seq<string>): Option<seq<string>>
    decreases |parts|
  {
    if parts == [] then Some([])
    else
      var part := parts[|parts| - 1];
      match Walk(parts[..|parts| - 1])
      case None => None
      case Some(dir) =>
        if part == "" || part == "." then Some(dir)
        else if part == ".." then if dir == [] then None else Some(dir[..|dir| - 1])
        else Some(dir + [part])
  }

  predicate GoodPart(part: string) {
    part != "" && part != "." && part != ".." && '/' !in part
  }

  predicate GoodParts(parts: seq<string>) {
    forall i :: 0 <= i < |parts| ==> GoodPart(parts[i])
  }

  // The segments a normal form stands for.
  function Segments(n: string): seq<string> {
    if n == "." then [] else Split(n, '/')
  }

  ghost predicate NoSlashes(parts: seq<string>) {
    forall i :: 0 <= i < |parts| ==> '/' !in parts[i]
  }

  // Cleaning is walking, until the walk leaves the root; then the kept segments start with `..`.
  lemma {:induction false} CleanIsWalk(parts: seq<string>)
    requires NoSlashes(parts)
    ensures match Walk(parts)
            case Some(dir) => CleanParts(parts) == dir && GoodParts(dir)
            case None => CleanParts(parts) != [] && CleanParts(parts)[0] == ".."
    decreases |parts|
  {
    if parts != [] {
      CleanIsWalk(parts[..|parts| - 1]);
      var dir := Walk(parts[..|parts| - 1]);
      if dir.Some? && dir.value != [] {
        assert GoodPart(dir.value[|dir.value| - 1]);
      }
      if dir.None? {
        BottomStays(CleanParts(parts[..|parts| - 1]), parts[|parts| - 1]);
      }
    }
  }

  lemma BottomStays(kept: seq<string>, part: string)
    requires kept != [] && kept[0] == ".."
    ensures Push(kept, part) != [] && Push(kept, part)[0] == ".."
  {
  }

  // ---------------------------------------------------------------- joined parts

  lemma StartsWithPiece(parts: seq<string>, piece: string)
    requires parts != [] && NoSlashes(parts) && '/' !in piece
    requires HasPrefix(Join(parts, '/'), piece + "/")
    ensures parts[0] == piece && |parts| > 1
  {
    var s := Join(parts, '/');
    var rest := s[|piece| + 1..];
    assert s == piece + ['/'] + rest;
    SplitHead(piece, rest, '/');
    SplitOfJoin(parts, '/');
  }

  lemma EndsWithSlash(parts: seq<string>)
    requires parts != [] && NoSlashes(parts) && HasSuffix(Join(parts, '/'), "/")
    ensures parts[|parts| - 1] == ""
  {
    hide Join, Split;
    var s := Join(parts, '/');
    var a := s[..|s| - 1];
    assert s[|s| - 1..][0] == '/';
    assert s == a + ['/'] + "";
    SplitAt(a, "", '/');
    SplitOfPiece("", '/');
    SplitOfJoin(parts, '/');
  }

  // A list of good parts is shown without any of the shapes the normaliser strips or refuses.
  lemma GoodIsPlain(parts: seq<string>)
    requires parts != [] && GoodParts(parts)
    ensures var s := Join(parts, '/');
            && s != "" && s != "." && s != ".."
            && !HasPrefix(s, "./") && !HasPrefix(s, "../") && !HasPrefix(s, "/") && !HasSuffix(s, "/")
    ensures Split(Join(parts, '/'), '/') == parts
  {
    hide Join, Split;
    var s := Join(parts, '/');
    assert NoSlashes(parts) && GoodPart(parts[0]) && GoodPart(parts[|parts| - 1]);
    SplitOfJoin(parts, '/');
    SplitOfPiece("", '/');
    SplitOfPiece(".", '/');
    SplitOfPiece("..", '/');
    if HasPrefix(s, "./") {
      StartsWithPiece(parts, ".");
    }
    if HasPrefix(s, "../") {
      StartsWithPiece(parts, "..");
    }
    if HasPrefix(s, "/") {
      assert "" + "/" == "/";
      StartsWithPiece(parts, "");
    }
    if HasSuffix(s, "/") {
      EndsWithSlash(parts);
    }
  }

  lemma EscapeIsRefused(parts: seq<string>)
    requires parts != [] && NoSlashes(parts) && parts[0] == ".."
    ensures var s := Join(parts, '/');
            s != "" && s != "." && !HasPrefix(s, "./") && (s == ".." || HasPrefix(s, "../"))
  {
    if |parts| > 1 {
      assert Join(parts, '/') == ".." + ['/'] + Join(parts[1..], '/');
      assert Join(parts, '/')[..3] == "../";
    }
    assert Join(parts, '/')[..2] == "..";
    assert Join(parts, '/')[..2][1] != "./"[1];
  }

  lemma {:induction false} CleanKeepsNoSlashes(parts: seq<string>)
    requires NoSlashes(parts)
    ensures NoSlashes(CleanParts(parts))
    decreases |parts|
  {
    if parts != [] {
      CleanKeepsNoSlashes(parts[..|parts| - 1]);
    }
  }

  // ---------------------------------------------------------------- what is accepted, and as what

  // A path is accepted iff it is relative, never spells "../", and walking it stays inside the
  // repository; its normal form names the place the walk ends in.
  lemma NormalizedIsWalk(raw: string)
    ensures var path := TrimSpace(raw);
            NormalizeScopePath(raw) ==
              if HasPrefix(path, "/") || Contains(path, "../") || Walk(Split(path, '/')).None? then None
              else Some(Show(Walk(Split(path, '/')).value))
  {
    hide Split, Join, Walk, CleanParts, Contains;
    var path := TrimSpace(raw);
    var parts := Split(path, '/');
    if path == "" || path == "." || path == "./" || path == ".." {
      SmallPaths();
    } else {
      CleanIsWalk(parts);
      CleanKeepsNoSlashes(parts);
      var kept := CleanParts(parts);
      if Walk(parts).None? {
        EscapeIsRefused(kept);
      } else if kept != [] {
        GoodIsPlain(kept);
      }
    }
  }

  lemma SmallPaths()
    ensures Walk(Split("", '/')) == Walk(Split(".", '/')) == Walk(Split("./", '/')) == Some([])
    ensures Walk(Split("..", '/')) == None
    ensures !HasPrefix("", "/") && !HasPrefix(".", "/") && !HasPrefix("./", "/")
    ensures !Contains("", "../") && !Contains(".", "../") && !Contains("./", "../")
  {
    SplitOfPiece("", '/');
    SplitOfPiece(".", '/');
    SplitOfPiece("..", '/');
    SplitAt(".", "", '/');
    assert "." + ['/'] + "" == "./";
    WalkOne("");
    WalkOne(".");
    WalkOne("..");
    assert [".", ""][..1] == ["."];
    assert "."[..1][0] == '.' && "./"[..1][0] == '.';
  }

  lemma WalkOne(part: string)
    ensures Walk([part]) == if part == "" || part == "." then Some([]) else if part == ".." then None else Some([part])
  {
    assert [part][..0] == [] && Walk([]) == Some([]);
    assert [] + [part] == [part];
  }

  // Every accepted path is `.` or a slash-joined list with no empty, `.` or `..` segment.
  lemma NormalForm(raw: string)
    requires NormalizeScopePath(raw).Some?
    ensures var n := NormalizeScopePath(raw).value;
            GoodParts(Segments(n)) && n == Show(Segments(n)) && Walk(Split(TrimSpace(raw), '/')) == Some(Segments(n))
  {
    hide Split, Join, Walk, CleanParts, Contains, NormalizeScopePath;
    NormalizedIsWalk(raw);
    var parts := Split(TrimSpace(raw), '/');
    CleanIsWalk(parts);
    var dir := Walk(parts).value;
    if dir != [] {
      GoodIsPlain(dir);
    }
  }

  // ---------------------------------------------------------------- normalising twice

  predicate EndsInDots(part: string) {
    |part| >= 2 && part[|part| - 1] == '.' && part[|part| - 2] == '.'
  }

  // "../" is spelled exactly where a segment other than the last ends in two dots.
  lemma {:induction false} UpSpelled(parts: seq<string>)
    requires parts != [] && NoSlashes(parts)
    ensures Contains(Join(parts, '/'), "../") <==> exists i :: 0 <= i < |parts| - 1 && EndsInDots(parts[i])
    decreases |parts|
  {
    if |parts| == 1 {
      NoSlashNoUp(parts[0]);
    } else {
      UpSpelled(parts[1..]);
      UpInHead(parts[0], Join(parts[1..], '/'));
      if i :| 0 <= i < |parts| - 1 && EndsInDots(parts[i]) {
        assert i > 0 ==> parts[1..][i - 1] == parts[i];
      }
      if i :| 0 <= i < |parts[1..]| - 1 && EndsInDots(parts[1..][i]) {
        assert parts[i + 1] == parts[1..][i];
      }
    }
  }

  lemma UpAt(s: string, k: nat)
    ensures OccursAt(s, "../", k) <==> k + 3 <= |s| && s[k] == '.' && s[k + 1] == '.' && s[k + 2] == '/'
  {
    if k + 3 <= |s| {
      assert s[k..k + 3] == [s[k], s[k + 1], s[k + 2]];
      assert "../" == ['.', '.', '/'];
    }
  }

  lemma NoSlashNoUp(s: string)
    requires '/' !in s
    ensures !Contains(s, "../")
  {
    hide OccursAt;
    forall k: nat
      ensures !OccursAt(s, "../", k)
    {
      UpAt(s, k);
    }
  }

  lemma UpInHead(head: string, rest: string)
    requires '/' !in head
    ensures Contains(head + "/" + rest, "../") <==> EndsInDots(head) || Contains(rest, "../")
  {
    hide OccursAt;
    var s, n := head + "/" + rest, |head|;
    assert s[n] == '/' && forall i :: n < i < |s| ==> s[i] == rest[i - n - 1];
    if k :| 0 <= k <= |s| && OccursAt(s, "../", k) {
      UpAt(s, k);
      if k > n {
        UpAt(rest, k - n - 1);
      }
    }
    if EndsInDots(head) {
      UpAt(s, n - 2);
    }
    if k :| 0 <= k <= |rest| && OccursAt(rest, "../", k) {
      UpAt(rest, k);
      UpAt(s, n + 1 + k);
    }
  }

  // What the walk ends in was on the path, and all but its last segment had something after it.
  lemma {:induction false} WalkKeeps(parts: seq<string>)
    requires Walk(parts).Some?
    ensures forall i :: 0 <= i < |Walk(parts).value| ==> Walk(parts).value[i] in parts
    ensures forall i :: 0 <= i < |Walk(parts).value| - 1 ==> Walk(parts).value[i] in parts[..|parts| - 1]
    decreases |parts|
  {
    if parts != [] {
      var before := parts[..|parts| - 1];
      WalkKeeps(before);
      assert parts == before + [parts[|parts| - 1]];
      assert before != [] ==> before == before[..|before| - 1] + [before[|before| - 1]];
    }
  }

  lemma {:induction false} WalkOfGood(parts: seq<string>)
    requires GoodParts(parts)
    ensures Walk(parts) == Some(parts)
    decreases |parts|
  {
    if parts != [] {
      WalkOfGood(parts[..|parts| - 1]);
      assert GoodPart(parts[|parts| - 1]);
      assert parts == parts[..|parts| - 1] + [parts[|parts| - 1]];
    }
  }

  lemma NormalSpellsNoUp(raw: string)
    requires NormalizeScopePath(raw).Some?
    ensures !Contains(NormalizeScopePath(raw).value, "../")
  {
    hide Split, Join, Walk, Contains, NormalizeScopePath, EndsInDots;
    NormalForm(raw);
    NormalizedIsWalk(raw);
    SmallPaths();
    var parts := Split(TrimSpace(raw), '/');
    var dir := Walk(parts).value;
    if dir != [] {
      GoodIsPlain(dir);
      JoinOfSplit(TrimSpace(raw), '/');
      UpSpelled(parts);
      UpSpelled(dir);
      WalkKeeps(parts);
    }
  }

  function Size(parts: seq<string>): nat
    decreases |parts|
  {
    if parts == [] then 0 else Size(parts[..|parts| - 1]) + |parts[|parts| - 1]| + 1
  }

  lemma {:induction false} SizeOfJoin(parts: seq<string>)
    requires parts != []
    ensures |Join(parts, '/')| + 1 == Size(parts)
    decreases |parts|
  {
    var n := |parts| - 1;
    if n > 0 {
      SizeOfJoin(parts[..n]);
      JoinSnoc(parts[..n], parts[n], '/');
      assert parts == parts[..n] + [parts[n]];
    } else {
      assert parts[..0] == [];
    }
  }

  lemma {:induction false} WalkShrinks(parts: seq<string>)
    requires Walk(parts).Some?
    ensures Size(Walk(parts).value) <= Size(parts)
    decreases |parts|
  {
    if parts != [] {
      WalkShrinks(parts[..|parts| - 1]);
      var dir := Walk(parts[..|parts| - 1]).value;
      assert (dir + [parts[|parts| - 1]])[..|dir|] == dir;
    }
  }

  lemma ShownIsShort(path: string)
    requires Walk(Split(path, '/')).Some?
    ensures Show(Walk(Split(path, '/')).value) == "." || |Show(Walk(Split(path, '/')).value)| <= |path|
  {
    hide Split, Walk, Join, Size;
    var parts := Split(path, '/');
    JoinOfSplit(path, '/');
    SizeOfJoin(parts);
    WalkShrinks(parts);
    if Walk(parts).value != [] {
      SizeOfJoin(Walk(parts).value);
    }
  }

  // Normalising again changes nothing exactly when the normal form has no space at either end.
  lemma IdempotentIffTrimmed(raw: string)
    requires NormalizeScopePath(raw).Some?
    ensures var n := NormalizeScopePath(raw).value;
            NormalizeScopePath(n) == Some(n) <==> Trimmed(n)
  {
    hide Split, Join, Walk, Contains, NormalizeScopePath, TrimSpace;
    var n := NormalizeScopePath(raw).value;
    NormalForm(raw);
    NormalizedIsWalk(n);
    TrimSpaceFixes(n);
    TrimSpaceShortens(n);
    SmallPaths();
    if Trimmed(n) {
      NormalSpellsNoUp(raw);
      if n != "." {
        GoodIsPlain(Segments(n));
        WalkOfGood(Segments(n));
      }
    } else if Walk(Split(TrimSpace(n), '/')).Some? {
      ShownIsShort(TrimSpace(n));
    }
  }

  lemma TrimSpaceShortens(s: string)
    ensures |TrimSpace(s)| < |s| || TrimSpace(s) == s
  {
    TrimLeftShape(s);
    TrimRightShape(TrimLeft(s));
  }

  // ---------------------------------------------------------------- matching

  predicate Under(path: string, matcher: string) {
    matcher == "." || path == matcher || HasPrefix(path, matcher + "/")
  }

  method ScopePathMatchesAny(path: string, matchers: seq<string>) returns (b: bool)
    ensures b <==> exists i :: 0 <= i < |matchers| && Under(path, matchers[i])
  {
    for i := 0 to |matchers|
      invariant forall k :: 0 <= k < i ==> !Under(path, matchers[k])
    {
      var matcher := matchers[i];
      if matcher == "." || path == matcher || HasPrefix(path, matcher + "/") {
        return true;
      }
    }
    return false;
  }

  ghost predicate Normal(n: string) {
    GoodParts(Segments(n)) && n == Show(Segments(n))
  }

  lemma {:induction false} JoinOfBoth(xs: seq<string>, ys: seq<string>)
    requires xs != [] && ys != []
    ensures Join(xs + ys, '/') == Join(xs, '/') + "/" + Join(ys, '/')
    decreases |xs|
  {
    if |xs| == 1 {
      assert (xs + ys)[1..] == ys;
    } else {
      JoinOfBoth(xs[1..], ys);
      assert (xs + ys)[1..] == xs[1..] + ys;
    }
  }

  // The string test is segment ancestry.
  lemma UnderIffAncestor(path: string, matcher: string)
    requires Normal(path) && Normal(matcher)
    ensures Under(path, matcher) <==> Segments(matcher) <= Segments(path)
  {
    hide Split, Join;
    var ps, ms := Segments(path), Segments(matcher);
    SplitOfPiece("", '/');
    assert ms != [] ==> GoodPart(ms[0]);
    if matcher != "." && path != matcher {
      if HasPrefix(path, matcher + "/") {
        var rest := path[|matcher| + 1..];
        assert path == matcher + ['/'] + rest;
        SplitAt(matcher, rest, '/');
      }
      if ms <= ps {
        var rest := ps[|ms|..];
        assert ps == ms + rest;
        assert rest == [] ==> ps == ms;
        if rest != [] {
          JoinOfBoth(ms, rest);
          assert path == matcher + "/" + Join(rest, '/');
          assert path[..|matcher| + 1] == matcher + "/";
        }
      }
    }
  }

  // ---------------------------------------------------------------- classification

  method NormalizeScopeList(paths: seq<string>) returns (matchers: seq<string>)
    ensures forall m :: m in matchers <==> exists p :: p in paths && NormalizeScopePath(p) == Some(m)
    ensures forall i, j :: 0 <= i < j < |matchers| ==> matchers[i] != matchers[j]
  {
    hide NormalizeScopePath;
    matchers := [];
    var seen: set<string> := {};
    for i := 0 to |paths|
      invariant forall m :: m in seen <==> m in matchers
      invariant forall m :: m in matchers <==> exists k :: 0 <= k < i && NormalizeScopePath(paths[k]) == Some(m)
      invariant forall a, b :: 0 <= a < b < |matchers| ==> matchers[a] != matchers[b]
    {
      var clean := NormalizeScopePath(paths[i]);
      if clean.Some? && clean.value !in seen {
        seen := seen + {clean.value};
        matchers := matchers + [clean.value];
      }
    }
  }

  datatype Violation = InvalidPath(path: string) | Forbidden(path: string) | OutsideAllowed(path: string)

  // Some listed path is accepted and is an ancestor, in segments, of the place n names.
  ghost predicate Covered(n: string, listed: seq<string>) {
    exists p, m :: p in listed && NormalizeScopePath(p) == Some(m) && Segments(m) <= Segments(n)
  }

  ghost predicate AnyAccepted(listed: seq<string>) {
    exists p :: p in listed && NormalizeScopePath(p).Some?
  }

  ghost function ViolationOf(path: string, allowed: seq<string>, forbidden: seq<string>): Option<Violation> {
    match NormalizeScopePath(path)
    case None => Some(InvalidPath(path))
    case Some(n) =>
      if Covered(n, forbidden) then Some(Forbidden(n))
      else if AnyAccepted(allowed) && !Covered(n, allowed) then Some(OutsideAllowed(n))
      else None
  }

  ghost function Violations(changed: seq<string>, allowed: seq<string>, forbidden: seq<string>): seq<Violation>
    decreases |changed|
  {
    if changed == [] then []
    else
      var v := ViolationOf(changed[|changed| - 1], allowed, forbidden);
      Violations(changed[..|changed| - 1], allowed, forbidden) + if v.Some? then [v.value] else []
  }

  lemma CoveredIff(n: string, matchers: seq<string>, listed: seq<string>)
    requires Normal(n)
    requires forall m :: m in matchers <==> exists p :: p in listed && NormalizeScopePath(p) == Some(m)
    ensures (exists i :: 0 <= i < |matchers| && Under(n, matchers[i])) <==> Covered(n, listed)
  {
    hide NormalizeScopePath, Under, Segments;
    forall p, m | p in listed && NormalizeScopePath(p) == Some(m)
      ensures Under(n, m) <==> Segments(m) <= Segments(n)
      ensures m in matchers
    {
      NormalForm(p);
      UnderIffAncestor(n, m);
    }
    if i :| 0 <= i < |matchers| && Under(n, matchers[i]) {
      assert matchers[i] in matchers;
    }
    if p, m :| p in listed && NormalizeScopePath(p) == Some(m) && Segments(m) <= Segments(n) {
      var i :| 0 <= i < |matchers| && matchers[i] == m;
      assert Under(n, matchers[i]);
    }
  }

  method ClassifyScopeViolations(changed: seq<string>, allowed: seq<string>, forbidden: seq<string>) returns (violations: seq<Violation>)
    ensures violations == Violations(changed, allowed, forbidden)
  {
    hide NormalizeScopePath, Under, Covered, Segments;
    var allowedMatchers := NormalizeScopeList(allowed);
    var forbiddenMatchers := NormalizeScopeList(forbidden);
    assert AnyAccepted(allowed) <==> |allowedMatchers| > 0 by {
      if |allowedMatchers| > 0 {
        assert allowedMatchers[0] in allowedMatchers;
      }
      if p :| p in allowed && NormalizeScopePath(p).Some? {
        assert NormalizeScopePath(p).value in allowedMatchers;
      }
    }
    violations := [];
    for i := 0 to |changed|
      invariant violations == Violations(changed[..i], allowed, forbidden)
    {
      assert changed[..i + 1][..i] == changed[..i];
      var clean := NormalizeScopePath(changed[i]);
      if clean.None? {
        violations := violations + [InvalidPath(changed[i])];
        continue;
      }
      NormalForm(changed[i]);
      CoveredIff(clean.value, forbiddenMatchers, forbidden);
      CoveredIff(clean.value, allowedMatchers, allowed);
      var isForbidden := ScopePathMatchesAny(clean.value, forbiddenMatchers);
      if isForbidden {
        violations := violations + [Forbidden(clean.value)];
        continue;
      }
      var isAllowed := ScopePathMatchesAny(clean.value, allowedMatchers);
      if |allowedMatchers| > 0 && !isAllowed {
        violations := violations + [OutsideAllowed(clean.value)];
      }
    }
    assert changed[..|changed|] == changed;
  }

  // A list of allowed paths that are all refused restricts nothing.
  lemma RefusedAllowListIsNoList(path: string, allowed: seq<string>, forbidden: seq<string>)
    requires !AnyAccepted(allowed)
    ensures ViolationOf(path, allowed, forbidden) == ViolationOf(path, [], forbidden)
  {
  }

  // ---------------------------------------------------------------- a violation, in places

  // The path names this place of the repository: relative, without `../` in it, and walking it from the
  // root never leaves the root and ends there.
  ghost predicate Names(raw: string, place: seq<string>) {
    var path := TrimSpace(raw);
    !HasPrefix(path, "/") && !Contains(path, "../") && Walk(Split(path, '/')) == Some(place)
  }

  // Some listed path names the place or one above it.
  ghost predicate ListedAbove(listed: seq<string>, place: seq<string>) {
    exists p, above :: p in listed && Names(p, above) && above <= place
  }

  ghost predicate NamesAnything(listed: seq<string>) {
    exists p, place :: p in listed && Names(p, place)
  }

  lemma NamesIff(raw: string, place: seq<string>)
    ensures Names(raw, place) <==> NormalizeScopePath(raw).Some? && Segments(NormalizeScopePath(raw).value) == place
    ensures Names(raw, place) ==> NormalizeScopePath(raw) == Some(if place == [] then "." else Join(place, '/'))
  {
    hide Split, Join, Walk, Contains, NormalizeScopePath, TrimSpace, Segments;
    NormalizedIsWalk(raw);
    if NormalizeScopePath(raw).Some? {
      NormalForm(raw);
    }
  }

  lemma ListedIff(n: string, listed: seq<string>)
    ensures Covered(n, listed) <==> ListedAbove(listed, Segments(n))
    ensures AnyAccepted(listed) <==> NamesAnything(listed)
  {
    hide NormalizeScopePath, Segments, Names;
    forall p, place {
      NamesIff(p, place);
    }
    if p, m :| p in listed && NormalizeScopePath(p) == Some(m) && Segments(m) <= Segments(n) {
      assert Names(p, Segments(m));
    }
    if p :| p in listed && NormalizeScopePath(p).Some? {
      assert Names(p, Segments(NormalizeScopePath(p).value));
    }
    if p, above :| p in listed && Names(p, above) && above <= Segments(n) {
      assert NormalizeScopePath(p) == Some(NormalizeScopePath(p).value);
    }
  }

  // A changed path that names no place is invalid, as it was written. Otherwise it is forbidden iff a
  // forbidden path names its place or one above, else outside iff some allowed path names a place and
  // none names this one or one above; and then the place is reported.
  lemma ViolationExactly(path: string, allowed: seq<string>, forbidden: seq<string>, place: seq<string>)
    ensures (forall p :: !Names(path, p)) ==> ViolationOf(path, allowed, forbidden) == Some(InvalidPath(path))
    ensures Names(path, place) ==>
              var shown := if place == [] then "." else Join(place, '/');
              ViolationOf(path, allowed, forbidden) ==
                if ListedAbove(forbidden, place) then Some(Forbidden(shown))
                else if NamesAnything(allowed) && !ListedAbove(allowed, place) then Some(OutsideAllowed(shown))
                else None
  {
    hide NormalizeScopePath, Segments, Names, Covered, AnyAccepted, ListedAbove, NamesAnything, Join;
    NamesIff(path, place);
    if NormalizeScopePath(path).Some? {
      var n := NormalizeScopePath(path).value;
      NamesIff(path, Segments(n));
      ListedIff(n, forbidden);
      ListedIff(n, allowed);
    }
  }

  lemma {:induction false} ReportConcat(before: seq<string>, after: seq<string>, allowed: seq<string>, forbidden: seq<string>)
    ensures Violations(before + after, allowed, forbidden) == Violations(before, allowed, forbidden) + Violations(after, allowed, forbidden)
    decreases |after|
  {
    hide ViolationOf;
    if after == [] {
      assert before + after == before;
    } else {
      ReportConcat(before, after[..|after| - 1], allowed, forbidden);
      assert (before + after)[..|before + after| - 1] == before + after[..|after| - 1];
    }
  }

  // The report goes path by path, in order.
  lemma ReportedInOrder(before: seq<string>, path: string, after: seq<string>, allowed: seq<string>, forbidden: seq<string>)
    ensures var v := ViolationOf(path, allowed, forbidden);
            Violations(before + [path] + after, allowed, forbidden) ==
              Violations(before, allowed, forbidden) + (if v.Some? then [v.value] else []) + Violations(after, allowed, forbidden)
  {
    hide ViolationOf;
    assert Violations([path][..0], allowed, forbidden) == [];
    ReportConcat(before, [path], allowed, forbidden);
    ReportConcat(before + [path], after, allowed, forbidden);
  }
}
