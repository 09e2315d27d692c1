/**
  Hiding the ephemeral settings file from git, and undoing it: two functions on the content of the
  work tree's exclude file. None stands for a file that does not exist.
 */
module GitExclude {
  import opened Wrappers
  import opened Strings

  const REL_PATH: string := ".gemini/settings.json"
  const MARKER: string := " # striatum-agy-lane" + " (RFC 0096 #70):" + " ephemeral MCP bearer," + " never commit"

  predicate NamesSettings(line: string) {
    var t := TrimSpace(line);
    t == REL_PATH || HasPrefix(t, REL_PATH + " ")
  }

  predicate AlreadyExcluded(content: string) {
    exists i :: 0 <= i < |Split(content, '\n')| && NamesSettings(Split(content, '\n')[i])
  }

  function Tagged(line: string): bool {
    Contains(line, MARKER)
  }

  function Kept(lines: seq<string>): seq<string> {
    if lines == [] then [] else (if Tagged(lines[0]) then [] else [lines[0]]) + Kept(lines[1..])
  }

  ghost predicate HasMarkerLine(content: string) {
    exists i :: 0 <= i < |Split(content, '\n')| && Tagged(Split(content, '\n')[i])
  }

  function Excluded(content: Option<string>): Option<string> {
    if content.Some? && AlreadyExcluded(content.value) then content
    else Some(content.GetOr("") + REL_PATH + MARKER + "\n")
  }

  function Unexcluded(content: Option<string>): Option<string> {
    if content.None? then None
    else
      var lines := Split(content.value, '\n');
      if |Kept(lines)| == |lines| then content else Some(Join(Kept(lines), '\n'))
  }

  // The file is read once, searched, and appended to.
  method ExcludeSettings(content: Option<string>) returns (after: Option<string>)
    ensures after == Excluded(content)
  {
    if content.Some? {
      var lines := Split(content.value, '\n');
      for i := 0 to |lines|
        invariant forall k :: 0 <= k < i ==> !NamesSettings(lines[k])
      {
        var t := TrimSpace(lines[i]);
        if t == REL_PATH || HasPrefix(t, REL_PATH + " ") {
          assert NamesSettings(lines[i]);
          return content;
        }
      }
    }
    after := Some(content.GetOr("") + REL_PATH + MARKER + "\n");
  }

  method UnexcludeSettings(content: Option<string>) returns (after: Option<string>)
    ensures after == Unexcluded(content)
  {
    if content.None? {
      return None;
    }
    var lines := Split(content.value, '\n');
    var kept: seq<string> := [];
    var removed := false;
    for i := 0 to |lines|
      invariant kept == Kept(lines[..i]) && (removed <==> |kept| < i) && |kept| <= i
    {
      KeptSnoc(lines[..i], lines[i]);
      assert lines[..i + 1] == lines[..i] + [lines[i]];
      if Tagged(lines[i]) {
        removed := true;
      } else {
        kept := kept + [lines[i]];
      }
    }
    assert lines[..|lines|] == lines;
    if !removed {
      return content;
    }
    return Some(Join(kept, '\n'));
  }

  lemma {:induction false} KeptSnoc(lines: seq<string>, last: string)
    ensures Kept(lines + [last]) == Kept(lines) + (if Tagged(last) then [] else [last])
    ensures |Kept(lines)| <= |lines|
    decreases |lines|
  {
    hide Tagged, Split, Join, TrimSpace;
    var all := lines + [last];
    if lines == [] {
      assert all[0] == last && all[1..] == [];
    } else {
      KeptSnoc(lines[1..], last);
      assert all[0] == lines[0] && all[1..] == lines[1..] + [last];
    }
  }

  lemma {:induction false} KeptConcat(before: seq<string>, after: seq<string>)
    ensures Kept(before + after) == Kept(before) + Kept(after)
    decreases |after|
  {
    hide Tagged;
    if after == [] {
      assert before + after == before;
    } else {
      var front, last := after[..|after| - 1], after[|after| - 1];
      KeptConcat(before, front);
      KeptSnoc(before + front, last);
      KeptSnoc(front, last);
      assert front + [last] == after && before + after == (before + front) + [last];
    }
  }

  // Line by line and in order: a line is dropped iff it holds the marker.
  lemma KeptByLine(before: seq<string>, line: string, after: seq<string>)
    ensures Kept(before + [line] + after) ==
      Kept(before)
      + (if Contains(line, " # striatum-agy-lane" + " (RFC 0096 #70):" + " ephemeral MCP bearer," + " never commit") then [] else [line])
      + Kept(after)
  {
    hide Contains, Kept;
    KeptSnoc(before, line);
    KeptConcat(before + [line], after);
  }

  // What is kept carries no marker, and everything is kept exactly when nothing carries one.
  lemma {:induction false} KeptMeaning(lines: seq<string>)
    ensures forall i :: 0 <= i < |Kept(lines)| ==> !Tagged(Kept(lines)[i]) && Kept(lines)[i] in lines
    ensures |Kept(lines)| <= |lines|
    ensures |Kept(lines)| == |lines| <==> forall i :: 0 <= i < |lines| ==> !Tagged(lines[i])
    ensures |Kept(lines)| == |lines| ==> Kept(lines) == lines
  {
    hide Tagged;
    if lines != [] {
      KeptMeaning(lines[1..]);
      assert lines == [lines[0]] + lines[1..];
    }
  }

  lemma LongerLastLine(lines: seq<string>, last: string, added: string)
    ensures Join(lines + [last + added], '\n') == Join(lines + [last], '\n') + added
  {
    if lines != [] {
      JoinSnoc(lines, last, '\n');
      JoinSnoc(lines, last + added, '\n');
    }
  }

  // The lines of a file whose last line was extended and ended.
  lemma AppendedLines(content: string, added: string)
    requires '\n' !in added
    ensures var lines := Split(content, '\n');
            var n := |lines| - 1;
            Split(content + added + "\n", '\n') == lines[..n] + [lines[n] + added, ""]
  {
    hide Split, Join;
    var lines := Split(content, '\n');
    var n := |lines| - 1;
    var whole := lines[..n] + [lines[n] + added];
    JoinOfSplit(content, '\n');
    assert lines == lines[..n] + [lines[n]];
    LongerLastLine(lines[..n], lines[n], added);
    SplitOfJoin(whole, '\n');
    SplitOfPiece("", '\n');
    SplitAt(content + added, "", '\n');
    assert content + added + ['\n'] + "" == content + added + "\n";
    assert whole + [""] == lines[..n] + [lines[n] + added, ""];
  }

  lemma MarkerInAddedLine(last: string)
    ensures Tagged(last + REL_PATH + MARKER)
  {
    var k := |last + REL_PATH|;
    assert OccursAt(last + REL_PATH + MARKER, MARKER, k);
  }

  // Exclude then unexclude, when a line is added: the content without its unterminated last line,
  // and without any line that carried the marker.
  lemma AddedThenRemoved(content: string)
    requires !AlreadyExcluded(content)
    ensures var lines := Split(content, '\n');
            Unexcluded(Excluded(Some(content))) == Some(Join(Kept(lines[..|lines| - 1]) + [""], '\n'))
  {
    hide Tagged, REL_PATH, MARKER, AlreadyExcluded, Split, Join, Kept;
    var lines := Split(content, '\n');
    var n := |lines| - 1;
    var tagged := lines[n] + (REL_PATH + MARKER);
    var after := lines[..n] + [tagged, ""];
    NoNewlineAdded();
    AppendedLines(content, REL_PATH + MARKER);
    var file := content + REL_PATH + MARKER + "\n";
    assert file == content + (REL_PATH + MARKER) + "\n";
    assert Excluded(Some(content)) == Some(file);
    assert Split(file, '\n') == after;
    MarkerInAddedLine(lines[n]);
    assert lines[n] + REL_PATH + MARKER == tagged;
    DropTagged(lines[..n], tagged);
  }

  lemma DropTagged(lines: seq<string>, tagged: string)
    requires Tagged(tagged)
    ensures Kept(lines + [tagged, ""]) == Kept(lines) + [""]
    ensures |Kept(lines + [tagged, ""])| < |lines| + 2
  {
    hide Tagged, Kept;
    EmptyLineIsUntagged();
    KeptSnoc(lines, tagged);
    KeptSnoc(lines + [tagged], "");
    assert lines + [tagged, ""] == lines + [tagged] + [""];
    KeptMeaning(lines);
  }

  lemma NoNewlineAdded()
    ensures '\n' !in REL_PATH + MARKER
  {
    assert '\n' !in REL_PATH;
    assert '\n' !in " # striatum-agy-lane" && '\n' !in " (RFC 0096 #70):" && '\n' !in " ephemeral MCP bearer," && '\n' !in " never commit";
  }

  lemma EmptyLineIsUntagged()
    ensures !Tagged("")
  {
  }

  // The exclude file comes back as it was exactly when it had no marker line and either already
  // named the settings file or ended its last line.
  lemma RestoresIff(content: string)
    ensures Unexcluded(Excluded(Some(content))) == Some(content) <==>
              !HasMarkerLine(content) && (AlreadyExcluded(content) || content == "" || content[|content| - 1] == '\n')
  {
    hide Tagged, REL_PATH, MARKER, AlreadyExcluded, NamesSettings, Split, Join, Kept;
    if AlreadyExcluded(content) {
      UnchangedIff(content);
    } else {
      var lines := Split(content, '\n');
      AddedThenRemoved(content);
      LastLineEmptyIff(content);
      JoinOfSplit(content, '\n');
      RejoinIff(lines);
      if Join(Kept(lines[..|lines| - 1]) + [""], '\n') == content {
        assert !HasMarkerLine(content);
      }
    }
  }

  lemma UnchangedIff(content: string)
    ensures Unexcluded(Some(content)) == Some(content) <==> !HasMarkerLine(content)
  {
    hide Tagged, Split, Kept, Join;
    if HasMarkerLine(content) {
      KeptChanges(content);
    } else {
      KeptMeaning(Split(content, '\n'));
    }
  }

  // Lines come back from all but the last, filtered, and an empty one exactly when the last was
  // empty and none was tagged.
  lemma RejoinIff(lines: seq<string>)
    requires lines != [] && forall i :: 0 <= i < |lines| ==> '\n' !in lines[i]
    ensures Join(Kept(lines[..|lines| - 1]) + [""], '\n') == Join(lines, '\n') <==>
              lines[|lines| - 1] == "" && forall i :: 0 <= i < |lines| ==> !Tagged(lines[i])
  {
    hide Tagged, Kept, Join, Split;
    var init := lines[..|lines| - 1];
    KeptHasNoNewline(init);
    SplitOfJoin(Kept(init) + [""], '\n');
    SplitOfJoin(lines, '\n');
    KeptWithEmptyIff(init, lines[|lines| - 1]);
    assert lines == init + [lines[|lines| - 1]];
  }

  lemma KeptWithEmptyIff(init: seq<string>, last: string)
    ensures Kept(init) + [""] == init + [last] <==>
              last == "" && forall i :: 0 <= i < |init + [last]| ==> !Tagged((init + [last])[i])
  {
    hide Tagged, Kept;
    EmptyLineIsUntagged();
    KeptMeaning(init);
    var all := init + [last];
    assert forall i :: 0 <= i < |init| ==> init[i] == all[i];
    if Kept(init) + [""] == all {
      assert |Kept(init)| == |init| && (Kept(init) + [""])[|init|] == all[|init|];
    }
  }

  lemma KeptHasNoNewline(lines: seq<string>)
    requires forall i :: 0 <= i < |lines| ==> '\n' !in lines[i]
    ensures forall i :: 0 <= i < |Kept(lines)| ==> '\n' !in Kept(lines)[i]
  {
    KeptMeaning(lines);
  }

  // Dropping a marker line changes the content.
  lemma KeptChanges(content: string)
    requires HasMarkerLine(content)
    ensures Unexcluded(Some(content)) != Some(content)
  {
    hide Tagged;
    var lines := Split(content, '\n');
    KeptMeaning(lines);
    var kept := Kept(lines);
    if Join(kept, '\n') == content {
      KeptHasNoNewline(lines);
      if kept != [] {
        SplitOfJoin(kept, '\n');
      } else {
        OnlyEmptyContent(content);
      }
    }
  }

  lemma OnlyEmptyContent(content: string)
    requires HasMarkerLine(content)
    ensures content != ""
  {
    if content == "" {
      SplitOfPiece("", '\n');
      EmptyLineIsUntagged();
    }
  }

  lemma LastLineEmptyIff(content: string)
    ensures var lines := Split(content, '\n');
            lines[|lines| - 1] == "" <==> content == "" || content[|content| - 1] == '\n'
  {
    var lines := Split(content, '\n');
    var n := |lines| - 1;
    JoinOfSplit(content, '\n');
    assert lines == lines[..n] + [lines[n]];
    if n > 0 {
      JoinSnoc(lines[..n], lines[n], '\n');
    }
  }

  // Where there was no file an empty one is left behind.
  lemma {:induction false} MissingFileBecomesEmpty()
    ensures Unexcluded(Excluded(None)) == Some("")
  {
    hide Tagged, REL_PATH, MARKER;
    SplitOfPiece("", '\n');
    NoNewlineAdded();
    AppendedLines("", REL_PATH + MARKER);
    assert "" + REL_PATH + MARKER + "\n" == "" + (REL_PATH + MARKER) + "\n";
    MarkerInAddedLine("");
    assert "" + REL_PATH + MARKER == REL_PATH + MARKER;
    EmptyLineIsUntagged();
    var after := [REL_PATH + MARKER, ""];
    assert Split("" + (REL_PATH + MARKER) + "\n", '\n') == after;
    assert Kept(after[1..]) == [""] by {
      assert after[1..] == [""];
    }
    assert Kept(after) == [""];
  }

  // ---------------------------------------------------------------- whether the settings are hidden

  // Some line, without outer white space, is the settings path, or that path and a blank and more.
  ghost predicate Hidden(content: string) {
    exists i :: 0 <= i < |Split(content, '\n')| && HidesSettings(TrimSpace(Split(content, '\n')[i]))
  }

  ghost predicate HidesSettings(t: string) {
    t == ".gemini/settings.json" || (|t| >= 22 && t[..22] == ".gemini/settings.json ")
  }

  lemma HiddenIff(content: string)
    ensures Hidden(content) <==> AlreadyExcluded(content)
  {
    hide TrimSpace, Split;
    assert REL_PATH + " " == ".gemini/settings.json " && |REL_PATH| == 21;
    forall i | 0 <= i < |Split(content, '\n')|
      ensures HidesSettings(TrimSpace(Split(content, '\n')[i])) <==> NamesSettings(Split(content, '\n')[i])
    {
    }
  }

  // The content is left alone iff it hides the settings, and otherwise gains one text at its end.
  lemma ExcludedContent(content: string)
    ensures Hidden(content) ==> Excluded(Some(content)) == Some(content)
    ensures !Hidden(content) ==>
              Excluded(Some(content)) == Some(content + ".gemini/settings.json" + (" # striatum-agy-lane" + " (RFC 0096 #70):"
                                              + " ephemeral MCP bearer," + " never commit") + "\n")
  {
    HiddenIff(content);
    hide AlreadyExcluded, Hidden;
  }

  lemma PathCharacters()
    ensures |REL_PATH| == 21 && |MARKER| > 1 && MARKER[0] == ' '
    ensures forall i :: 0 <= i < 21 ==> REL_PATH[i] != ' ' && !IsSpace(REL_PATH[i])
    ensures !IsSpace(MARKER[|MARKER| - 1])
  {
    assert MARKER[|MARKER| - 1] == " never commit"[12];
  }

  // The added text on a line of its own, after blanks or nothing, names the settings.
  lemma AddedLineNames(last: string)
    requires TrimLeft(last) == ""
    ensures NamesSettings(last + REL_PATH + MARKER)
  {
    hide REL_PATH, MARKER, TrimRight;
    PathCharacters();
    var added := REL_PATH + MARKER;
    TrimLeftConcat(last, added);
    assert last + REL_PATH + MARKER == last + added;
    TrimLeftShape(added);
    assert TrimLeft(added) == added by {
      assert !IsSpace(added[0]);
    }
    TrimRightKeeps(added, |added| - 1);
    assert added[..22] == REL_PATH + " ";
  }

  // Glued to anything else it does not, unless the line named them already.
  lemma GluedLineDoesNot(last: string)
    requires TrimLeft(last) != "" && !NamesSettings(last)
    ensures !NamesSettings(last + REL_PATH + MARKER)
  {
    hide REL_PATH, MARKER, TrimLeft, TrimRight;
    PathCharacters();
    var u, added := TrimLeft(last), REL_PATH + MARKER;
    TrimLeftConcat(last, added);
    assert last + REL_PATH + MARKER == last + added;
    var t := u + added;
    assert t[|t| - 1] == MARKER[|MARKER| - 1];
    TrimRightKeeps(t, |t| - 1);
    assert t[..|t|] == t;
    assert TrimSpace(last + added) == t;
    if |u| <= 21 {
      assert |u| > 0 && t[21] == added[21 - |u|] == REL_PATH[21 - |u|];
      assert (REL_PATH + " ")[21] == ' ';
    } else {
      assert t[..22] == u[..22];
      if HasPrefix(u, REL_PATH + " ") {
        PrefixNames(last);
      }
    }
  }

  lemma PrefixNames(last: string)
    requires HasPrefix(TrimLeft(last), REL_PATH + " ")
    ensures NamesSettings(last)
  {
    hide REL_PATH, TrimLeft, TrimRight;
    PathCharacters();
    var u := TrimLeft(last);
    assert forall i :: 0 <= i < 21 ==> u[i] == u[..22][i] == REL_PATH[i];
    TrimRightKeeps(u, 20);
    var r := TrimRight(u);
    assert r[..21] == u[..22][..21] == REL_PATH;
    if |r| > 21 {
      assert r[..22] == u[..22];
    }
  }

  // The last line is blank: the file is empty, or ends in a newline and blanks.
  ghost predicate EndsBlank(content: string) {
    var lines := Split(content, '\n');
    TrimLeft(lines[|lines| - 1]) == ""
  }

  // After excluding, the file hides the settings if and only if it did before or its last line was
  // blank: a text glued to an unterminated line hides nothing.
  lemma HiddenAfterIff(content: string)
    ensures Hidden(Excluded(Some(content)).value) <==> Hidden(content) || EndsBlank(content)
    ensures Hidden(Excluded(None).value)
  {
    hide REL_PATH, MARKER, Hidden, NamesSettings, AlreadyExcluded, Split, TrimLeft;
    HiddenIff(content);
    if !AlreadyExcluded(content) {
      HiddenAfterAppend(content);
      HiddenIff(content + REL_PATH + MARKER + "\n");
    }
    NothingHidden();
    HiddenAfterAppend("");
    HiddenIff("" + REL_PATH + MARKER + "\n");
  }

  lemma NothingHidden()
    ensures !AlreadyExcluded("") && EndsBlank("")
  {
    SplitOfPiece("", '\n');
    EmptyNamesNothing();
  }

  lemma EmptyNamesNothing()
    ensures !NamesSettings("")
  {
  }

  lemma HiddenAfterAppend(content: string)
    requires !AlreadyExcluded(content)
    ensures AlreadyExcluded(content + REL_PATH + MARKER + "\n") <==> EndsBlank(content)
  {
    hide REL_PATH, MARKER, NamesSettings, Split, TrimLeft;
    var lines := Split(content, '\n');
    var n := |lines| - 1;
    var added := REL_PATH + MARKER;
    NoNewlineAdded();
    AppendedLines(content, added);
    var after := lines[..n] + [lines[n] + added, ""];
    assert content + REL_PATH + MARKER + "\n" == content + added + "\n";
    assert lines[n] + REL_PATH + MARKER == lines[n] + added;
    EmptyNamesNothing();
    assert forall i :: 0 <= i < n ==> after[i] == lines[i];
    if EndsBlank(content) {
      AddedLineNames(lines[n]);
      assert NamesSettings(after[n]);
    } else {
      GluedLineDoesNot(lines[n]);
      assert forall i :: 0 <= i < |after| ==> !NamesSettings(after[i]);
    }
  }

  // Excluding twice is excluding once if and only if the first time hid the settings; the second time
  // always does.
  lemma ExcludeTwiceIff(content: string)
    ensures Excluded(Excluded(Some(content))) == Excluded(Some(content)) <==> Hidden(content) || EndsBlank(content)
    ensures Hidden(Excluded(Excluded(Some(content))).value)
  {
    hide REL_PATH, Hidden, AlreadyExcluded, EndsBlank;
    var once := Excluded(Some(content)).value;
    HiddenAfterIff(content);
    HiddenIff(content);
    HiddenIff(once);
    HiddenAfterIff(once);
    if !AlreadyExcluded(content) {
      EndsBlankAfter(content + REL_PATH + MARKER);
    }
  }

  lemma EndsBlankAfter(text: string)
    ensures EndsBlank(text + "\n")
  {
    hide Split;
    SplitAt(text, "", '\n');
    SplitOfPiece("", '\n');
    assert text + ['\n'] + "" == text + "\n";
  }
}
