/** The diff theorems lifted from lines to whole file texts, trailing newlines included. */
module DiffFiles {
  import opened Results
  import opened Text
  import opened UnifiedDiff
  import opened EditScript

  /** The text of a file: newline-separated lines, or newline-terminated ones. */
  function TextOf(lines: seq<string>, terminated: bool): string {
    if terminated && lines != [] then Join(lines, '\n') + "\n" else Join(lines, '\n')
  }

  /** The lines and the terminator are those of a text: an unterminated text does not end in a newline. */
  predicate IsFile(lines: seq<string>, terminated: bool) {
    lines != [] && AllFree(lines, '\n') && (!terminated ==> |lines| == 1 || lines[|lines| - 1] != "")
  }

  lemma JoinEnds(lines: seq<string>)
    requires lines != [] && AllFree(lines, '\n')
    ensures EndsInNewline(Join(lines, '\n')) <==> |lines| >= 2 && lines[|lines| - 1] == ""
  {
    hide Join;
    var last := lines[|lines| - 1];
    assert Free(last, '\n');
    if |lines| == 1 {
      JoinOne(lines);
    } else {
      var front := lines[..|lines| - 1];
      assert lines == front + [last];
      JoinAppend(front, last, '\n');
      TailEnds(Join(front, '\n') + ['\n'], last);
    }
  }

  lemma JoinOne(lines: seq<string>)
    requires |lines| == 1
    ensures Join(lines, '\n') == lines[0]
  {
  }

  lemma TailEnds(head: string, last: string)
    requires EndsInNewline(head) && Free(last, '\n')
    ensures EndsInNewline(head + last) <==> last == ""
  {
    assert last == "" ==> head + last == head;
  }

  lemma TerminatedJoin(lines: seq<string>)
    requires lines != []
    ensures Join(lines, '\n') + "\n" == Join(lines + [""], '\n')
  {
    JoinAppend(lines, "", '\n');
    assert Join(lines, '\n') + ['\n'] + "" == Join(lines, '\n') + "\n";
  }

  /** Reading back the lines of a file text. */
  lemma ReadFile(lines: seq<string>, terminated: bool)
    requires IsFile(lines, terminated)
    ensures FileLines(TextOf(lines, terminated)) == lines
    ensures EndsInNewline(TextOf(lines, terminated)) == terminated
  {
    if terminated {
      TerminatedJoin(lines);
      SplitJoin(lines + [""], '\n');
      assert (lines + [""])[..|lines|] == lines;
    } else {
      JoinEnds(lines);
      SplitJoin(lines, '\n');
    }
  }

  /** Every text is the text of its lines: nothing is left out by speaking of files. */
  lemma EveryTextIsAFile(text: string)
    ensures IsFile(FileLines(text), EndsInNewline(text))
    ensures TextOf(FileLines(text), EndsInNewline(text)) == text
  {
    var parts := Split(text, '\n');
    JoinSplit(text, '\n');
    JoinEnds(parts);
    if EndsInNewline(text) {
      var front := parts[..|parts| - 1];
      assert parts == front + [""];
      TerminatedJoin(front);
    }
  }

  /** The lines and the ending are those of a diff text: without final newline the last line is not empty. */
  predicate IsDiff(lines: seq<string>, ended: bool) {
    AllFree(lines, '\n') && (ended || lines == [] || lines[|lines| - 1] != "")
  }

  /** Reading back the lines of a diff text, with or without its final newline. */
  lemma ReadDiff(lines: seq<string>, ended: bool)
    requires IsDiff(lines, ended)
    ensures DiffLines(TextOf(lines, ended)) == lines
  {
    if lines == [] {
      assert TextOf(lines, ended) == "";
    } else if ended {
      TerminatedJoin(lines);
      SplitJoin(lines + [""], '\n');
      assert (lines + [""])[..|lines|] == lines;
    } else {
      SplitJoin(lines, '\n');
    }
  }

  /** Every text is the diff text of the lines read from it. */
  lemma EveryTextIsADiff(text: string)
    ensures IsDiff(DiffLines(text), EndsInNewline(text))
    ensures TextOf(DiffLines(text), EndsInNewline(text)) == text
  {
    hide Split, Join, Free;
    var parts := Split(text, '\n');
    JoinSplit(text, '\n');
    JoinEnds(parts);
    if |parts| == 1 {
      JoinOne(parts);
      JoinNone();
    } else if parts[|parts| - 1] == "" {
      var front := parts[..|parts| - 1];
      assert parts == front + [""];
      TerminatedJoin(front);
    }
  }

  lemma JoinNone()
    ensures Join([], '\n') == ""
  {
  }

  /** A diff with a hunk ends in a line that is not empty, so it can lack its final newline. */
  lemma {:induction false} HunksEndDiff(oldAt: nat, newAt: nat, s: Script)
    requires s.Hunk?
    ensures var lines := PrintHunks(oldAt, newAt, s); lines != [] && lines[|lines| - 1] != ""
    decreases s
  {
    hide Olds, News, HunkHeader.Print;
    var o, n := oldAt + |s.kept|, newAt + |s.kept|;
    LastOfHunk(o, n, s.edits, s.section);
    if s.rest.Hunk? {
      HunksEndDiff(o + |Olds(s.edits)|, n + |News(s.edits)|, s.rest);
    }
  }

  lemma LastOfHunk(o: nat, n: nat, edits: seq<Edit>, section: string)
    ensures var lines := PrintHunk(o, n, edits, section); lines != [] && lines[|lines| - 1] != ""
  {
    hide HunkHeader.Print, Olds, News;
    NoEmptyPrint(edits);
    PrintIsHeader(o, |Olds(edits)|, n, |News(edits)|, section);
  }

  lemma {:induction false} NoEmptyPrint(edits: seq<Edit>)
    ensures forall i :: 0 <= i < |PrintEdits(edits)| ==> PrintEdits(edits)[i] != ""
  {
    if edits != [] {
      NoEmptyPrint(edits[1..]);
    }
  }

  /** The restored newline gives the right text unless lines vanish or the last one is empty. */
  predicate Restorable(lines: seq<string>) {
    lines != [] && (|lines| == 1 || lines[|lines| - 1] != "")
  }

  lemma RejoinExactlyWhen(lines: seq<string>, terminated: bool)
    requires AllFree(lines, '\n')
    ensures Rejoin(lines, terminated) == TextOf(lines, terminated) <==> terminated ==> Restorable(lines)
  {
    if lines != [] {
      JoinEnds(lines);
    }
  }

  /** Equally many lines that rejoin to a file's text are that file's lines. */
  lemma RejoinInjective(lines: seq<string>, other: seq<string>, terminated: bool)
    requires AllFree(lines, '\n') && AllFree(other, '\n') && |lines| == |other|
    requires Rejoin(lines, terminated) == TextOf(other, terminated)
    ensures lines == other
  {
    if lines != [] {
      TerminatedJoin(lines);
      TerminatedJoin(other);
      if !terminated {
        JoinInjective(lines, other, '\n');
      } else if EndsInNewline(Join(lines, '\n')) {
        JoinInjective(lines, other + [""], '\n');
      } else {
        JoinInjective(lines + [""], other + [""], '\n');
        assert (lines + [""])[..|lines|] == (other + [""])[..|other|];
      }
    }
  }

  // ----- newline-free scripts print to newline-free lines

  predicate FreeEdits(edits: seq<Edit>) {
    edits == [] || (Free(edits[0].line, '\n') && FreeEdits(edits[1..]))
  }

  predicate FreeScript(s: Script) {
    match s
    case Done(tail) => AllFree(tail, '\n')
    case Hunk(kept, edits, section, rest) =>
      AllFree(kept, '\n') && FreeEdits(edits) && Free(section, '\n') && FreeScript(rest)
  }

  lemma {:induction false} FreeEditsPrint(edits: seq<Edit>)
    requires FreeEdits(edits)
    ensures AllFree(PrintEdits(edits), '\n')
    ensures AllFree(Olds(edits), '\n') && AllFree(News(edits), '\n')
  {
    if edits != [] {
      FreeEditsPrint(edits[1..]);
    }
  }

  lemma FreeHeader(o: nat, oc: nat, n: nat, nc: nat, section: string)
    requires Free(section, '\n')
    ensures Free(HunkHeader.Print(o, oc, n, nc, section), '\n')
  {
    HunkHeader.PrintRangeFree(o, oc, '\n');
    HunkHeader.PrintRangeFree(n, nc, '\n');
  }

  lemma {:induction false} FreeScriptPrints(oldAt: nat, newAt: nat, s: Script)
    requires FreeScript(s)
    ensures AllFree(PrintHunks(oldAt, newAt, s), '\n')
    ensures AllFree(OldText(s), '\n') && AllFree(NewText(s), '\n')
    decreases s
  {
    hide HunkHeader.Print, PrintEdits, Olds, News, FreeEdits;
    match s
    case Done(_) =>
    case Hunk(kept, edits, section, rest) =>
      var o, n := oldAt + |kept|, newAt + |kept|;
      FreeScriptPrints(o + |Olds(edits)|, n + |News(edits)|, rest);
      FreeEditsPrint(edits);
      FreeHeader(o, |Olds(edits)|, n, |News(edits)|, section);
  }

  /** A replay only produces lines of the original and of the diff. */
  lemma {:induction false} ReplayFree(a: seq<string>, at: nat, lines: seq<DiffLine>, inHunk: bool)
    requires at <= |a| && AllFree(a, '\n')
    requires forall i :: 0 <= i < |lines| && lines[i].Added? ==> Free(lines[i].line, '\n')
    ensures var r := Replay(a, at, lines, inHunk); r.Ok? ==> AllFree(r.value, '\n')
    decreases |lines|
  {
    if lines != [] {
      var rest := lines[1..];
      match lines[0]
      case Header(Some(target)) =>
        if at <= target <= |a| {
          ReplayFree(a, target, rest, true);
        }
      case Header(None) =>
      case Other => ReplayFree(a, at, rest, inHunk);
      case Added(_) => ReplayFree(a, at, rest, inHunk);
      case _ =>
        if !inHunk {
          ReplayFree(a, at, rest, false);
        } else if at < |a| {
          ReplayFree(a, at + 1, rest, true);
        }
    }
  }

  lemma {:induction false} DecodeFree(lines: seq<string>)
    requires AllFree(lines, '\n')
    ensures forall i :: 0 <= i < |lines| && DecodeAll(lines)[i].Added? ==> Free(DecodeAll(lines)[i].line, '\n')
  {
    if lines != [] {
      DecodeFree(lines[1..]);
      AddedIsTail(lines[0]);
    }
  }

  lemma AddedIsTail(line: string)
    ensures Decode(line).Added? ==> line != "" && Decode(line).line == line[1..]
  {
  }

  /** Lines of the right number never rejoin to a text with the other kind of ending. */
  lemma EndingStays(lines: seq<string>, other: seq<string>, was: bool)
    requires AllFree(lines, '\n') && |lines| == |other| && IsFile(other, !was)
    ensures Rejoin(lines, was) != TextOf(other, !was)
  {
    hide Join, Free;
    if was {
      JoinEnds(other);
    } else {
      TerminatedJoin(other);
      if Join(lines, '\n') == Join(other + [""], '\n') {
        EmptyIsFree();
        JoinInjective(lines, other + [""], '\n');
        assert false;
      }
    }
  }

  lemma EmptyIsFree()
    ensures Free("", '\n')
  {
  }

  /**
   Whole texts: the diff of an edit script, with its notes on missing newlines and
   with or without a newline of its own at the end, applied to the old text, gives the new text exactly when the script is placeable,
   both texts end in a newline or both do not, and, for newline-terminated ones,
   some line is left and the last of several is not empty.
   */
  lemma DiffTurnsOldIntoNew(preamble: seq<string>, s: Script, was: bool, will: bool, ended: bool)
    requires Printable(preamble, s) && FreeScript(s) && IsDiff(PrintDiff(preamble, s), ended)
    requires IsFile(OldText(s), was) && (was != will ==> IsFile(NewText(s), will))
    ensures PatchedText(TextOf(OldText(s), was), TextOf(PrintDiff(preamble, s), ended)) == Ok(TextOf(NewText(s), will))
            <==> was == will && Placeable([], s, false) && (was ==> Restorable(NewText(s)))
  {
    hide TextOf, Rejoin, Replay, DecodeAll, FileLines, DiffLines, OldText, NewText, Placeable, PrintHunks, Restorable;
    var old', new', diff := OldText(s), NewText(s), PrintDiff(preamble, s);
    ReadFile(old', was);
    ReadDiff(diff, ended);
    FreeScriptPrints(0, 0, s);
    PrintedScriptApplies(preamble, s);
    DecodeFree(diff);
    ReplayFree(old', 0, DecodeAll(diff), false);
    var r := Replay(old', 0, DecodeAll(diff), false);
    RejoinExactlyWhen(new', was);
    if r.Ok? {
      if was != will {
        EndingStays(r.value, new', was);
      } else if Rejoin(r.value, was) == TextOf(new', was) {
        RejoinInjective(r.value, new', was);
      }
    }
  }

  lemma {:induction false} ReverseFreeEdits(edits: seq<Edit>)
    requires FreeEdits(edits)
    ensures FreeEdits(ReverseEdits(edits))
  {
    if edits != [] {
      ReverseFreeEdits(edits[1..]);
      assert ReverseEdits(edits)[1..] == ReverseEdits(edits[1..]);
    }
  }

  lemma {:induction false} ReverseFree(s: Script)
    requires FreeScript(s)
    ensures FreeScript(Reverse(s))
  {
    if s.Hunk? {
      ReverseFreeEdits(s.edits);
      ReverseFree(s.rest);
    }
  }

  /**
   Whole texts again: after a diff that turned the old text into the new one, the
   same diff turned round gives back the old text exactly when the reversed script is
   placeable and, for newline-terminated texts, the old one's last line is not empty.
   */
  lemma ReversedDiffRestores(preamble: seq<string>, again: seq<string>, s: Script, terminated: bool, ended: bool)
    requires Printable(preamble, s) && Printable(again, s) && FreeScript(s)
    requires IsDiff(preamble + PrintHunks(0, 0, s), ended) && IsDiff(again + AllFlipped(PrintHunks(0, 0, s)), ended)
    requires IsFile(OldText(s), terminated) && IsFile(NewText(s), terminated)
    requires Placeable([], s, false) && (terminated ==> Restorable(NewText(s)))
    ensures var diff := PrintHunks(0, 0, s);
            var there := PatchedText(TextOf(OldText(s), terminated), TextOf(preamble + diff, ended));
            && there == Ok(TextOf(NewText(s), terminated))
            && (PatchedText(there.value, TextOf(again + AllFlipped(diff), ended)) == Ok(TextOf(OldText(s), terminated))
                <==> Placeable([], Reverse(s), false) && (terminated ==> Restorable(OldText(s))))
  {
    hide TextOf, PatchedText, OldText, NewText, Placeable, PrintHunks, AllFlipped, Restorable, IsFile, IsDiff, FreeScript, Reverse;
    DiffTurnsOldIntoNew(preamble, s, terminated, terminated, ended);
    ReverseTexts(s);
    ReversePrints(0, 0, s);
    ReverseFree(s);
    DiffTurnsOldIntoNew(again, Reverse(s), terminated, terminated, ended);
  }

  /** What a placeable script's diff makes of the old text, newline restored or not. */
  lemma PatchedBy(preamble: seq<string>, s: Script, terminated: bool, ended: bool)
    requires Printable(preamble, s) && FreeScript(s) && IsDiff(PrintDiff(preamble, s), ended)
    requires IsFile(OldText(s), terminated) && Placeable([], s, false)
    ensures PatchedText(TextOf(OldText(s), terminated), TextOf(PrintDiff(preamble, s), ended))
              == Ok(Rejoin(NewText(s), terminated))
  {
    hide TextOf, Rejoin, Replay, DecodeAll, FileLines, DiffLines, OldText, NewText, Placeable, PrintHunks;
    ReadFile(OldText(s), terminated);
    ReadDiff(PrintDiff(preamble, s), ended);
    PrintedScriptApplies(preamble, s);
  }

  /**
   The two failing texts, both from the file "a": a diff that adds an empty last
   line loses it, and one that removes the only line leaves a newline behind.
   */
  lemma NewlineIsLost()
    ensures var s := Hunk([], [Keep("a"), Insert("")], "", Done([]));
            && TextOf(OldText(s), true) == "a\n" && TextOf(NewText(s), true) == "a\n\n"
            && TextOf(PrintDiff([], s), true) == "@@ -1 +1,2 @@\n a\n+\n"
    ensures PatchedText("a\n", "@@ -1 +1,2 @@\n a\n+\n") == Ok("a\n")
    ensures var s := Hunk([], [Drop("a")], "", Done([]));
            && TextOf(OldText(s), true) == "a\n" && TextOf(NewText(s), true) == ""
            && TextOf(PrintDiff([], s), true) == "@@ -1 +0,0 @@\n-a\n"
    ensures PatchedText("a\n", "@@ -1 +0,0 @@\n-a\n") == Ok("\n")
  {
    hide PatchedText, Rejoin, TextOf, PrintDiff;
    var grown, gone := Hunk([], [Keep("a"), Insert("")], "", Done([])), Hunk([], [Drop("a")], "", Done([]));
    GrownTexts(grown);
    GoneTexts(gone);
    PatchedBy([], grown, true, true);
    PatchedBy([], gone, true, true);
  }

  lemma GrownTexts(s: Script)
    requires s == Hunk([], [Keep("a"), Insert("")], "", Done([]))
    ensures Printable([], s) && FreeScript(s) && IsDiff(PrintDiff([], s), true) && IsFile(OldText(s), true) && Placeable([], s, false)
    ensures TextOf(OldText(s), true) == "a\n" && TextOf(NewText(s), true) == "a\n\n"
    ensures TextOf(PrintDiff([], s), true) == "@@ -1 +1,2 @@\n a\n+\n" && Rejoin(NewText(s), true) == "a\n"
  {
    hide PrintHunks, Olds, News, FreeEdits;
    GrownSides(s.edits);
    assert OldText(s) == ["a"] && NewText(s) == ["a", ""];
    GrownPrint(s);
    JoinTwo("a", "");
    JoinThree("@@ -1 +1,2 @@", " a", "+");
    assert PrintDiff([], s) == ["@@ -1 +1,2 @@", " a", "+"];
  }

  lemma GrownSides(edits: seq<Edit>)
    requires edits == [Keep("a"), Insert("")]
    ensures Olds(edits) == ["a"] && News(edits) == ["a", ""] && FreeEdits(edits)
  {
    hide Olds, News;
    var none: seq<Edit> := [];
    SidesOf(Insert(""), none);
    SidesOf(Keep("a"), [Insert("")]);
    NoSides();
    assert [Insert("")] + none == edits[1..] && [Keep("a")] + edits[1..] == edits && [Insert("")][1..] == [];
    assert FreeEdits([]);
    assert FreeEdits(edits[1..]);
  }

  lemma GrownPrint(s: Script)
    requires s == Hunk([], [Keep("a"), Insert("")], "", Done([]))
    ensures PrintHunks(0, 0, s) == ["@@ -1 +1,2 @@", " a", "+"]
  {
    hide Olds, News;
    var edits := s.edits;
    assert edits[1..] == [Insert("")];
    GrownSides(edits);
    SmallNumbers();
    assert HunkHeader.Print(0, 1, 0, 2, "") == "@@ -1 +1,2 @@";
    assert PrintEdit(Keep("a")) == " a" && PrintEdit(Insert("")) == "+";
    assert PrintEdits(edits[1..]) == ["+"];
  }

  lemma GoneTexts(s: Script)
    requires s == Hunk([], [Drop("a")], "", Done([]))
    ensures Printable([], s) && FreeScript(s) && IsDiff(PrintDiff([], s), true) && IsFile(OldText(s), true) && Placeable([], s, false)
    ensures TextOf(OldText(s), true) == "a\n" && TextOf(NewText(s), true) == ""
    ensures TextOf(PrintDiff([], s), true) == "@@ -1 +0,0 @@\n-a\n" && Rejoin(NewText(s), true) == "\n"
  {
    hide PrintHunks, Olds, News, FreeEdits;
    GoneSides(s.edits);
    assert OldText(s) == ["a"] && NewText(s) == [];
    GonePrint(s);
    JoinTwo("@@ -1 +0,0 @@", "-a");
    assert PrintDiff([], s) == ["@@ -1 +0,0 @@", "-a"];
  }

  lemma GoneSides(edits: seq<Edit>)
    requires edits == [Drop("a")]
    ensures Olds(edits) == ["a"] && News(edits) == [] && FreeEdits(edits)
  {
    hide Olds, News;
    var none: seq<Edit> := [];
    SidesOf(Drop("a"), none);
    NoSides();
    assert [Drop("a")] + none == edits && edits[1..] == [];
    assert FreeEdits([]);
  }

  lemma GonePrint(s: Script)
    requires s == Hunk([], [Drop("a")], "", Done([]))
    ensures PrintHunks(0, 0, s) == ["@@ -1 +0,0 @@", "-a"]
  {
    hide Olds, News;
    GoneSides(s.edits);
    SmallNumbers();
    assert HunkHeader.Print(0, 1, 0, 0, "") == "@@ -1 +0,0 @@";
    assert PrintEdit(Drop("a")) == "-a";
  }

  /** A diff that adds the missing newline to the file "a", with the note on it, leaves the file as it is. */
  lemma EndingIsKept(note: string)
    requires Free(note, '\n')
    ensures var s := Hunk([], [Drop("a"), Note(note), Insert("a")], "", Done([]));
            && TextOf(OldText(s), false) == "a" && TextOf(NewText(s), true) == "a\n"
            && TextOf(PrintDiff([], s), true) == "@@ -1 +1 @@\n-a\n\\" + note + "\n+a\n"
    ensures PatchedText("a", "@@ -1 +1 @@\n-a\n\\" + note + "\n+a\n") == Ok("a")
  {
    hide PatchedText, Rejoin, TextOf, PrintDiff;
    var s := Hunk([], [Drop("a"), Note(note), Insert("a")], "", Done([]));
    EndedTexts(s, note);
    PatchedBy([], s, false, true);
  }

  lemma EndedTexts(s: Script, note: string)
    requires Free(note, '\n') && s == Hunk([], [Drop("a"), Note(note), Insert("a")], "", Done([]))
    ensures Printable([], s) && FreeScript(s) && IsDiff(PrintDiff([], s), true) && IsFile(OldText(s), false) && Placeable([], s, false)
    ensures TextOf(OldText(s), false) == "a" && TextOf(NewText(s), true) == "a\n" && Rejoin(NewText(s), false) == "a"
    ensures TextOf(PrintDiff([], s), true) == "@@ -1 +1 @@\n-a\n\\" + note + "\n+a\n"
  {
    hide PrintHunks, Olds, News;
    EndedSides(s.edits, note);
    assert OldText(s) == ["a"] && NewText(s) == ["a"];
    EndedPrint(s, note);
    EndedJoin(note);
    assert PrintDiff([], s) == ["@@ -1 +1 @@", "-a", "\\" + note, "+a"];
  }

  lemma EndedJoin(note: string)
    ensures Join(["@@ -1 +1 @@", "-a", "\\" + note, "+a"], '\n') + "\n" == "@@ -1 +1 @@\n-a\n\\" + note + "\n+a\n"
  {
    var lines := ["@@ -1 +1 @@", "-a", "\\" + note, "+a"];
    JoinThree(lines[1], lines[2], lines[3]);
    assert lines[1..] == [lines[1], lines[2], lines[3]];
  }

  lemma EndedSides(edits: seq<Edit>, note: string)
    requires Free(note, '\n') && edits == [Drop("a"), Note(note), Insert("a")]
    ensures Olds(edits) == ["a"] && News(edits) == ["a"] && FreeEdits(edits)
  {
    hide Olds, News;
    var none: seq<Edit> := [];
    SidesOf(Insert("a"), none);
    SidesOf(Note(note), [Insert("a")]);
    SidesOf(Drop("a"), [Note(note), Insert("a")]);
    NoSides();
    assert [Insert("a")] + none == [Insert("a")];
    assert [Note(note)] + [Insert("a")] == edits[1..] && [Drop("a")] + edits[1..] == edits;
    assert edits[1..][1..] == [Insert("a")] && [Insert("a")][1..] == [];
    assert FreeEdits([]);
    assert FreeEdits([Insert("a")]);
    assert FreeEdits(edits[1..]);
  }

  lemma NoSides()
    ensures Olds([]) == [] && News([]) == []
  {
  }

  lemma EndedPrint(s: Script, note: string)
    requires Free(note, '\n') && s == Hunk([], [Drop("a"), Note(note), Insert("a")], "", Done([]))
    ensures PrintHunks(0, 0, s) == ["@@ -1 +1 @@", "-a", "\\" + note, "+a"]
  {
    hide Olds, News, HunkHeader.Print;
    var edits := s.edits;
    EndedSides(edits, note);
    OneLineHeader();
    assert edits[1..] == [edits[1], edits[2]] && edits[1..][1..] == [edits[2]];
    assert "+" + "a" == "+a" && "-" + "a" == "-a";
    assert PrintEdits(edits[1..][1..]) == ["+a"];
    assert PrintEdits(edits[1..]) == ["\\" + note, "+a"];
    assert PrintEdits(edits) == ["-a", "\\" + note, "+a"];
    assert PrintHunk(0, 0, edits, "") == ["@@ -1 +1 @@"] + PrintEdits(edits);
  }

  lemma OneLineHeader()
    ensures HunkHeader.Print(0, 1, 0, 1, "") == "@@ -1 +1 @@"
  {
    SmallNumbers();
  }

  lemma SmallNumbers()
    ensures Decimal.PrintNat(0) == "0" && Decimal.PrintNat(1) == "1" && Decimal.PrintNat(2) == "2"
  {
  }

  lemma JoinTwo(a: string, b: string)
    ensures Join([a, b], '\n') == a + ['\n'] + b
  {
    assert [a, b][1..] == [b];
  }

  lemma JoinThree(a: string, b: string, c: string)
    ensures Join([a, b, c], '\n') == a + ['\n'] + (b + ['\n'] + c)
  {
    assert [a, b, c][1..] == [b, c];
    JoinTwo(b, c);
  }
}
