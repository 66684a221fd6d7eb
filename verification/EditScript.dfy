/**
 Edit scripts between two files, printed as unified diffs: what the applier makes
 of a printed script, and of its reverse.
 */
module EditScript {
  import opened Results
  import opened Text
  import opened UnifiedDiff
  import opened DiffSuccess
  import HunkHeader
  import Decimal

  /** A note stands for the backslash lines, which say that a file ends without newline. */
  datatype Edit = Keep(line: string) | Drop(line: string) | Insert(line: string) | Note(line: string)

  /** Unchanged lines, a hunk of edits, and the script from there on. */
  datatype Script =
    | Done(tail: seq<string>)
    | Hunk(kept: seq<string>, edits: seq<Edit>, section: string, rest: Script)

  /** The lines the edits apply to. */
  function Olds(edits: seq<Edit>): seq<string> {
    if edits == [] then []
    else (if edits[0].Keep? || edits[0].Drop? then [edits[0].line] else []) + Olds(edits[1..])
  }

  /** The lines the edits leave. */
  function News(edits: seq<Edit>): seq<string> {
    if edits == [] then []
    else (if edits[0].Keep? || edits[0].Insert? then [edits[0].line] else []) + News(edits[1..])
  }

  function OldText(s: Script): seq<string> {
    match s
    case Done(tail) => tail
    case Hunk(kept, edits, _, rest) => kept + (Olds(edits) + OldText(rest))
  }

  function NewText(s: Script): seq<string> {
    match s
    case Done(tail) => tail
    case Hunk(kept, edits, _, rest) => kept + (News(edits) + NewText(rest))
  }

  // ----- printing and reading back

  function PrintEdit(e: Edit): string {
    match e
    case Keep(line) => " " + line
    case Drop(line) => "-" + line
    case Insert(line) => "+" + line
    case Note(line) => "\\" + line
  }

  function PrintEdits(edits: seq<Edit>): seq<string> {
    if edits == [] then [] else [PrintEdit(edits[0])] + PrintEdits(edits[1..])
  }

  function PrintHunk(o: nat, n: nat, edits: seq<Edit>, section: string): seq<string> {
    [HunkHeader.Print(o, |Olds(edits)|, n, |News(edits)|, section)] + PrintEdits(edits)
  }

  /** The printed hunks, with the line counts accumulated on both sides. */
  function PrintHunks(oldAt: nat, newAt: nat, s: Script): seq<string>
    decreases s
  {
    match s
    case Done(_) => []
    case Hunk(kept, edits, section, rest) =>
      PrintHunk(oldAt + |kept|, newAt + |kept|, edits, section)
      + PrintHunks(oldAt + |kept| + |Olds(edits)|, newAt + |kept| + |News(edits)|, rest)
  }

  function LineOf(e: Edit): DiffLine {
    match e
    case Keep(line) => Context(line)
    case Drop(line) => Removed(line)
    case Insert(line) => Added(line)
    case Note(_) => Other
  }

  function Lines(edits: seq<Edit>): (r: seq<DiffLine>)
    ensures forall l :: l in r ==> !l.Header?
  {
    if edits == [] then [] else [LineOf(edits[0])] + Lines(edits[1..])
  }

  lemma {:induction false} LinesSides(edits: seq<Edit>)
    ensures OldSide(Lines(edits)) == Olds(edits) && NewSide(Lines(edits)) == News(edits)
  {
    if edits != [] {
      LinesSides(edits[1..]);
      assert Lines(edits)[1..] == Lines(edits[1..]);
    }
  }

  lemma {:induction false} DecodeAppend(x: seq<string>, y: seq<string>)
    ensures DecodeAll(x + y) == DecodeAll(x) + DecodeAll(y)
  {
    if x == [] {
      assert x + y == y;
    } else {
      assert (x + y)[1..] == x[1..] + y;
      DecodeAppend(x[1..], y);
    }
  }

  lemma DecodeCons(x: string, y: seq<string>)
    ensures DecodeAll([x] + y) == [Decode(x)] + DecodeAll(y)
  {
    assert ([x] + y)[1..] == y;
  }

  lemma DecodePrint(e: Edit)
    ensures Decode(PrintEdit(e)) == LineOf(e)
  {
    assert PrintEdit(e)[1..] == e.line;
    assert !HunkHeader.IsHeader(PrintEdit(e));
  }

  lemma {:induction false} DecodeEdits(edits: seq<Edit>)
    ensures DecodeAll(PrintEdits(edits)) == Lines(edits)
  {
    if edits != [] {
      DecodePrint(edits[0]);
      DecodeEdits(edits[1..]);
      DecodeCons(PrintEdit(edits[0]), PrintEdits(edits[1..]));
    }
  }

  /** A hunk without context or removed lines, not at the top of the file. */
  predicate Floating(p: nat, edits: seq<Edit>) {
    Olds(edits) == [] && p > 0
  }

  /** Where the applier starts a printed hunk whose edits begin after line `p`. */
  function StartOf(p: nat, edits: seq<Edit>): nat {
    if Floating(p, edits) then p - 1 else p
  }

  function DecodedHunk(p: nat, edits: seq<Edit>): seq<DiffLine> {
    [Header(Some(StartOf(p, edits)))] + Lines(edits)
  }

  function Decoded(at: nat, s: Script): seq<DiffLine>
    decreases s
  {
    match s
    case Done(_) => []
    case Hunk(kept, edits, _, rest) =>
      DecodedHunk(at + |kept|, edits) + Decoded(at + |kept| + |Olds(edits)|, rest)
  }

  lemma DecodeHeader(line: string, target: Option<int>)
    requires HunkHeader.IsHeader(line) && HunkHeader.Target(line) == target
    ensures Decode(line) == Header(target)
  {
  }

  lemma DecodeHunk(o: nat, n: nat, edits: seq<Edit>, section: string)
    requires o + |Olds(edits)| <= Decimal.INT64_MAX && n + |News(edits)| <= Decimal.INT64_MAX
    ensures DecodeAll(PrintHunk(o, n, edits, section)) == DecodedHunk(o, edits)
  {
    var head := HunkHeader.Print(o, |Olds(edits)|, n, |News(edits)|, section);
    HunkHeader.PrintTarget(o, |Olds(edits)|, n, |News(edits)|, section);
    DecodeHeader(head, Some(StartOf(o, edits)));
    DecodeEdits(edits);
    DecodeCons(head, PrintEdits(edits));
  }

  /** Reading a printed script back, headers in decimal included. */
  lemma {:induction false} DecodeHunks(oldAt: nat, newAt: nat, s: Script)
    requires oldAt + |OldText(s)| <= Decimal.INT64_MAX && newAt + |NewText(s)| <= Decimal.INT64_MAX
    ensures DecodeAll(PrintHunks(oldAt, newAt, s)) == Decoded(oldAt, s)
    decreases s
  {
    hide PrintHunk, DecodedHunk, DecodeAll, Olds, News;
    match s
    case Done(_) =>
    case Hunk(kept, edits, section, rest) =>
      var o, n := oldAt + |kept|, newAt + |kept|;
      DecodeHunks(o + |Olds(edits)|, n + |News(edits)|, rest);
      DecodeHunk(o, n, edits, section);
      DecodeAppend(PrintHunk(o, n, edits, section), PrintHunks(o + |Olds(edits)|, n + |News(edits)|, rest));
  }

  // ----- applying a printed script

  predicate AllEqual(lines: seq<string>, x: string) {
    forall i :: 0 <= i < |lines| ==> lines[i] == x
  }

  /**
   The applier puts a floating hunk one line early. That goes unnoticed exactly
   when that line is still ahead (some line is kept before the hunk, or the hunk
   before was put early as well: `lag`) and every inserted line equals it.
   `before` holds the old lines up to this point of the script.
   */
  predicate Placeable(before: seq<string>, s: Script, lag: bool)
    decreases s
  {
    match s
    case Done(_) => true
    case Hunk(kept, edits, _, rest) =>
      var ahead := before + kept;
      var early := Floating(|ahead|, edits);
      && (early ==> (lag || kept != []) && AllEqual(News(edits), ahead[|ahead| - 1]))
      && Placeable(ahead + Olds(edits), rest, early)
  }

  lemma {:induction false} AllSame(x: string, lines: seq<string>, u: seq<string>, t: seq<string>, n: nat)
    requires |u| == 1 + |t| && lines + u == [x] + lines + t && n <= |lines|
    ensures AllEqual(lines[..n], x)
  {
    if n > 0 {
      AllSame(x, lines, u, t, n - 1);
      assert (lines + u)[n - 1] == ([x] + lines + t)[n - 1];
      assert lines[..n] == lines[..n - 1] + [lines[n - 1]];
      assert n > 1 ==> lines[n - 2] == lines[..n - 1][n - 2];
    }
  }

  /** Shifting lines past `x` is invisible exactly when they all equal it. */
  lemma ShiftInvisible(x: string, lines: seq<string>, u: seq<string>, t: seq<string>)
    requires |u| == 1 + |t|
    ensures lines + u == [x] + lines + t <==> AllEqual(lines, x) && u == [x] + t
  {
    var l, r := lines + u, [x] + lines + t;
    if l == r {
      AllSame(x, lines, u, t, |lines|);
      assert lines[..|lines|] == lines;
    }
    if AllEqual(lines, x) {
      assert [x] + lines == lines + [x];
      assert r == lines + ([x] + t);
      assert l[|lines|..] == u && r[|lines|..] == [x] + t;
    }
  }

  lemma PlainEquals(front: seq<string>, added: seq<string>, u: seq<string>, tail: seq<string>)
    ensures front + added + u == front + (added + tail) <==> u == tail
  {
    var l, r := front + added + u, front + (added + tail);
    var n := |front| + |added|;
    assert l[n..] == u && r[n..] == tail;
    if u == tail {
      assert l == r;
    }
  }

  lemma EarlyEquals(front: seq<string>, x: string, added: seq<string>, u: seq<string>, tail: seq<string>)
    requires |u| == 1 + |tail|
    ensures front + added + u == front + [x] + (added + tail) <==> AllEqual(added, x) && u == [x] + tail
  {
    var l, r := front + added + u, front + [x] + (added + tail);
    assert l == front + (added + u);
    assert r == front + ([x] + added + tail);
    assert l[|front|..] == added + u && r[|front|..] == [x] + added + tail;
    ShiftInvisible(x, added, u, tail);
  }

  /** The first hunk of a decoded script, replayed from a cursor. */
  lemma ReplayHunk(a: seq<string>, from: nat, p: nat, edits: seq<Edit>, decoded: seq<DiffLine>)
    requires Occurs(Olds(edits), a, p) && from <= |a|
    requires decoded != [] ==> decoded[0].Header?
    ensures var start := StartOf(p, edits);
            Replay(a, from, DecodedHunk(p, edits) + decoded, false) ==
            if start < from then Err(OutOfOrder)
            else Prepend(a[from..start] + News(edits), Replay(a, start + |Olds(edits)|, decoded, false))
  {
    hide Replay, Prepend, Lines, Olds, News, OldSide, NewSide;
    var start, lines := StartOf(p, edits), Lines(edits);
    LinesSides(edits);
    assert DecodedHunk(p, edits) + decoded == [Header(Some(start))] + (lines + decoded);
    if start >= from {
      ReplayFirst(a, from, RawHunk(Some(start), lines), decoded);
    } else {
      ReplayLate(a, from, start, lines + decoded);
    }
  }

  lemma ReplayLate(a: seq<string>, from: nat, start: nat, rest: seq<DiffLine>)
    requires start < from <= |a|
    ensures Replay(a, from, [Header(Some(start))] + rest, false) == Err(OutOfOrder)
  {
  }

  lemma DecodedStarts(at: nat, s: Script)
    ensures Decoded(at, s) != [] ==> Decoded(at, s)[0].Header?
  {
  }

  /** The verdict on one hunk after `ahead`, given the verdict `good` on the rest of the script. */
  lemma HunkVerdict(a: seq<string>, from: nat, ahead: seq<string>, edits: seq<Edit>,
                    decoded: seq<DiffLine>, tail: seq<string>, good: bool)
    requires from <= |ahead| && ahead <= a && Occurs(Olds(edits), a, |ahead|)
    requires decoded != [] ==> decoded[0].Header?
    requires var start := StartOf(|ahead|, edits);
             var u := Replay(a, start + |Olds(edits)|, decoded, false);
             (u.Ok? ==> |u.value| == |ahead| - start + |tail|) && (u == Ok(ahead[start..] + tail) <==> good)
    ensures var start := StartOf(|ahead|, edits);
            var r := Replay(a, from, DecodedHunk(|ahead|, edits) + decoded, false);
            && (r.Ok? ==> |r.value| == |ahead| - from + |News(edits)| + |tail|)
            && (r == Ok(ahead[from..] + (News(edits) + tail)) <==>
                && start >= from && good
                && (Floating(|ahead|, edits) ==> AllEqual(News(edits), ahead[|ahead| - 1])))
  {
    hide Replay, DecodedHunk, Olds, News, AllEqual;
    var start, added := StartOf(|ahead|, edits), News(edits);
    ReplayHunk(a, from, |ahead|, edits, decoded);
    var u := Replay(a, start + |Olds(edits)|, decoded, false);
    if start >= from && u.Ok? {
      assert a[from..start] == ahead[from..start];
      if Floating(|ahead|, edits) {
        var x := ahead[|ahead| - 1];
        assert ahead[start..] == [x] && ahead[from..] == ahead[from..start] + [x];
        EarlyEquals(ahead[from..start], x, added, u.value, tail);
      } else {
        assert ahead[start..] + tail == tail && ahead[from..] == ahead[from..start];
        PlainEquals(ahead[from..], added, u.value, tail);
      }
    }
  }

  lemma ReplayNothing(a: seq<string>, from: nat)
    requires from <= |a|
    ensures Replay(a, from, [], false) == Ok(a[from..])
  {
  }

  /** The applier's cursor, which is one line behind the script when lagging. */
  function Behind(at: nat, lag: bool): nat {
    if lag && at > 0 then at - 1 else at
  }

  lemma Regroup(before: seq<string>, kept: seq<string>, olds: seq<string>, rest: seq<string>)
    ensures before + (kept + (olds + rest)) == before + kept + olds + rest
    ensures before + kept <= before + kept + olds + rest
    ensures Occurs(olds, before + kept + olds + rest, |before + kept|)
  {
  }

  lemma FromMiddle(before: seq<string>, from: nat, kept: seq<string>, x: seq<string>)
    requires from <= |before|
    ensures before[from..] + (kept + x) == (before + kept)[from..] + x
  {
  }

  lemma Lag(ahead: seq<string>, olds: seq<string>, early: bool)
    requires early == (olds == [] && ahead != [])
    ensures var next := ahead + olds;
            next[Behind(|next|, early)..] == ahead[if early then |ahead| - 1 else |ahead|..]
  {
  }

  /** What a printed script does from the applier's cursor, and when that is what it means. */
  lemma {:induction false} ReplayScript(a: seq<string>, before: seq<string>, s: Script, lag: bool)
    requires a == before + OldText(s) && (lag ==> before != [])
    ensures var from := Behind(|before|, lag);
            var r := Replay(a, from, Decoded(|before|, s), false);
            && (r.Ok? ==> |r.value| == |before| - from + |NewText(s)|)
            && (r == Ok(before[from..] + NewText(s)) <==> Placeable(before, s, lag))
    decreases s
  {
    hide Replay, DecodedHunk, Olds, News, AllEqual, Decoded, Placeable, OldText, NewText, Occurs;
    var from := Behind(|before|, lag);
    match s
    case Done(tail) =>
      NoHunk(tail, before, lag);
      ReplayNothing(a, from);
      assert a[from..] == before[from..] + tail;
    case Hunk(kept, edits, section, rest) =>
      var ahead := before + kept;
      var next := ahead + Olds(edits);
      var early := Floating(|ahead|, edits);
      FirstHunk(kept, edits, section, rest, before, lag);
      Regroup(before, kept, Olds(edits), OldText(rest));
      ReplayScript(a, next, rest, early);
      DecodedStarts(|next|, rest);
      Lag(ahead, Olds(edits), early);
      HunkVerdict(a, from, ahead, edits, Decoded(|next|, rest), NewText(rest), Placeable(next, rest, early));
      FromMiddle(before, from, kept, News(edits) + NewText(rest));
  }

  /** The definitions over scripts, unfolded once. */
  lemma {:induction false} FirstHunk(kept: seq<string>, edits: seq<Edit>, section: string, rest: Script,
                                     before: seq<string>, lag: bool)
    ensures var s, ahead := Hunk(kept, edits, section, rest), before + kept;
            var next, early := ahead + Olds(edits), Floating(|ahead|, edits);
            && OldText(s) == kept + (Olds(edits) + OldText(rest))
            && NewText(s) == kept + (News(edits) + NewText(rest))
            && Decoded(|before|, s) == DecodedHunk(|ahead|, edits) + Decoded(|next|, rest)
            && (Placeable(before, s, lag) <==>
                && (early ==> (lag || kept != []) && AllEqual(News(edits), ahead[|ahead| - 1]))
                && Placeable(next, rest, early))
  {
    hide Olds, News, DecodedHunk, AllEqual;
  }

  lemma NoHunk(tail: seq<string>, before: seq<string>, lag: bool)
    ensures OldText(Done(tail)) == tail && NewText(Done(tail)) == tail
    ensures Decoded(|before|, Done(tail)) == [] && Placeable(before, Done(tail), lag)
  {
  }

  lemma {:induction false} SkipPreamble(a: seq<string>, preamble: seq<string>, rest: seq<DiffLine>)
    requires forall i :: 0 <= i < |preamble| ==> !HunkHeader.IsHeader(preamble[i])
    ensures Replay(a, 0, DecodeAll(preamble) + rest, false) == Replay(a, 0, rest, false)
  {
    if preamble == [] {
      assert DecodeAll(preamble) + rest == rest;
    } else {
      SkipPreamble(a, preamble[1..], rest);
      SkipOutside(a, 0, preamble[0], DecodeAll(preamble[1..]) + rest);
      assert DecodeAll(preamble) + rest == [Decode(preamble[0])] + (DecodeAll(preamble[1..]) + rest);
    }
  }

  /** A unified diff: file-header lines, then the printed hunks. */
  function PrintDiff(preamble: seq<string>, s: Script): seq<string> {
    preamble + PrintHunks(0, 0, s)
  }

  predicate Printable(preamble: seq<string>, s: Script) {
    && (forall i :: 0 <= i < |preamble| ==> !HunkHeader.IsHeader(preamble[i]))
    && |OldText(s)| <= Decimal.INT64_MAX && |NewText(s)| <= Decimal.INT64_MAX
  }

  /**
   For any two files and any edit script between them, printed as a unified diff
   after any file-header lines: applying it to the first file gives the second
   exactly when the script is placeable.
   */
  lemma PrintedScriptApplies(preamble: seq<string>, s: Script)
    requires Printable(preamble, s)
    ensures var r := Replay(OldText(s), 0, DecodeAll(PrintDiff(preamble, s)), false);
            && (r == Ok(NewText(s)) <==> Placeable([], s, false))
            && (r.Ok? ==> |r.value| == |NewText(s)|)
  {
    DecodeHunks(0, 0, s);
    DecodeAppend(preamble, PrintHunks(0, 0, s));
    SkipPreamble(OldText(s), preamble, Decoded(0, s));
    assert OldText(s) == [] + OldText(s);
    ReplayScript(OldText(s), [], s, false);
    assert [][0..] + NewText(s) == NewText(s);
  }

  /** Every hunk keeps or drops a line, or inserts at the very top. */
  predicate Anchored(at: nat, s: Script)
    decreases s
  {
    match s
    case Done(_) => true
    case Hunk(kept, edits, _, rest) =>
      !Floating(at + |kept|, edits) && Anchored(at + |kept| + |Olds(edits)|, rest)
  }

  lemma {:induction false} AnchoredIsPlaceable(before: seq<string>, s: Script, lag: bool)
    requires Anchored(|before|, s)
    ensures Placeable(before, s, lag)
    decreases s
  {
    if s.Hunk? {
      AnchoredIsPlaceable(before + s.kept + Olds(s.edits), s.rest, false);
    }
  }

  /** Any two files have an anchored script, so a diff that applies always exists. */
  lemma AnyTwoFiles(a: seq<string>, b: seq<string>) returns (s: Script)
    ensures OldText(s) == a && NewText(s) == b && Anchored(0, s)
  {
    s := Hunk([], Replacement(a, b), "", Done([]));
    ReplacementSides(a, b);
    assert a + [] == a && b + [] == b;
  }

  function Replacement(a: seq<string>, b: seq<string>): seq<Edit>
    decreases |a|, |b|
  {
    if a != [] then [Drop(a[0])] + Replacement(a[1..], b)
    else if b != [] then [Insert(b[0])] + Replacement(a, b[1..])
    else []
  }

  lemma SidesOf(e: Edit, rest: seq<Edit>)
    ensures Olds([e] + rest) == (if e.Keep? || e.Drop? then [e.line] else []) + Olds(rest)
    ensures News([e] + rest) == (if e.Keep? || e.Insert? then [e.line] else []) + News(rest)
  {
    assert ([e] + rest)[1..] == rest;
  }

  lemma {:induction false} ReplacementSides(a: seq<string>, b: seq<string>)
    ensures Olds(Replacement(a, b)) == a && News(Replacement(a, b)) == b
    decreases |a|, |b|
  {
    if a != [] {
      hide Olds, News;
      ReplacementSides(a[1..], b);
      SidesOf(Drop(a[0]), Replacement(a[1..], b));
    } else if b != [] {
      hide Olds, News;
      ReplacementSides(a, b[1..]);
      SidesOf(Insert(b[0]), Replacement(a, b[1..]));
    }
  }

  /** The failing case: "insert x after line 1" of a two-line file comes out before line 1. */
  lemma InsertionComesEarly()
    ensures var s := Hunk(["a"], [Insert("x")], "", Done(["b"]));
            && OldText(s) == ["a", "b"] && NewText(s) == ["a", "x", "b"]
            && Replay(OldText(s), 0, DecodeAll(PrintDiff([], s)), false) == Ok(["x", "a", "b"])
  {
    hide HunkHeader.Print, Decode, DecodeAll, Replay;
    var edits := [Insert("x")];
    var s := Hunk(["a"], edits, "", Done(["b"]));
    InsertionSides("x");
    var a := ["a", "b"];
    assert OldText(s) == a && NewText(s) == ["a", "x", "b"];
    DecodeHunks(0, 0, s);
    assert PrintDiff([], s) == PrintHunks(0, 0, s);
    ReplayHunk(a, 0, 1, edits, []);
    assert Decoded(0, s) == DecodedHunk(1, edits) + [];
    ReplayNothing(a, 0);
    assert a[0..0] + ["x"] + a[0..] == ["x", "a", "b"];
  }

  lemma InsertionSides(x: string)
    ensures Olds([Insert(x)]) == [] && News([Insert(x)]) == [x]
  {
  }

  // ----- reversing

  function ReverseEdit(e: Edit): Edit {
    match e
    case Keep(line) => Keep(line)
    case Drop(line) => Insert(line)
    case Insert(line) => Drop(line)
    case Note(line) => Note(line)
  }

  function ReverseEdits(edits: seq<Edit>): seq<Edit> {
    if edits == [] then [] else [ReverseEdit(edits[0])] + ReverseEdits(edits[1..])
  }

  /** Swaps inserted and dropped lines; the lines kept between hunks stay. */
  function Reverse(s: Script): Script {
    match s
    case Done(tail) => Done(tail)
    case Hunk(kept, edits, section, rest) => Hunk(kept, ReverseEdits(edits), section, Reverse(rest))
  }

  lemma {:induction false} ReverseSides(edits: seq<Edit>)
    ensures Olds(ReverseEdits(edits)) == News(edits) && News(ReverseEdits(edits)) == Olds(edits)
  {
    if edits != [] {
      ReverseSides(edits[1..]);
      assert ReverseEdits(edits)[1..] == ReverseEdits(edits[1..]);
    }
  }

  /** The reverse leads back, whatever shift the hunks accumulate. */
  lemma {:induction false} ReverseTexts(s: Script)
    ensures OldText(Reverse(s)) == NewText(s) && NewText(Reverse(s)) == OldText(s)
  {
    if s.Hunk? {
      ReverseTexts(s.rest);
      ReverseSides(s.edits);
    }
  }

  /** A line of a diff turned round: a header's ranges exchanged, a body line's sign swapped. */
  function Flipped(line: string): string {
    if HunkHeader.IsHeader(line) then HunkHeader.Exchanged(line)
    else if line == "" then line
    else if line[0] == '+' then "-" + line[1..]
    else if line[0] == '-' then "+" + line[1..]
    else line
  }

  function AllFlipped(lines: seq<string>): seq<string> {
    if lines == [] then [] else [Flipped(lines[0])] + AllFlipped(lines[1..])
  }

  lemma {:induction false} FlippedAppend(x: seq<string>, y: seq<string>)
    ensures AllFlipped(x + y) == AllFlipped(x) + AllFlipped(y)
  {
    if x == [] {
      assert x + y == y;
    } else {
      FlippedAppend(x[1..], y);
      assert (x + y)[1..] == x[1..] + y;
    }
  }

  lemma FlippedPrint(e: Edit)
    ensures Flipped(PrintEdit(e)) == PrintEdit(ReverseEdit(e))
  {
    assert PrintEdit(e)[0] != '@';
    assert PrintEdit(e)[1..] == e.line;
  }

  lemma {:induction false} FlippedPrints(edits: seq<Edit>)
    ensures AllFlipped(PrintEdits(edits)) == PrintEdits(ReverseEdits(edits))
  {
    if edits != [] {
      hide Flipped, PrintEdit;
      FlippedPrint(edits[0]);
      FlippedPrints(edits[1..]);
      assert ReverseEdits(edits)[1..] == ReverseEdits(edits[1..]);
      assert PrintEdits(edits)[1..] == PrintEdits(edits[1..]);
    }
  }

  lemma PrintIsHeader(oldAt: nat, oldCount: nat, newAt: nat, newCount: nat, section: string)
    ensures HunkHeader.IsHeader(HunkHeader.Print(oldAt, oldCount, newAt, newCount, section))
  {
    var line := HunkHeader.Print(oldAt, oldCount, newAt, newCount, section);
    assert line[0] == '@' && line[1] == '@';
  }

  lemma FlippedHunk(o: nat, n: nat, edits: seq<Edit>, section: string)
    ensures AllFlipped(PrintHunk(o, n, edits, section)) == PrintHunk(n, o, ReverseEdits(edits), section)
  {
    hide HunkHeader.Print, HunkHeader.Exchanged, HunkHeader.IsHeader, PrintEdits, AllFlipped, Olds, News;
    ReverseSides(edits);
    FlippedPrints(edits);
    var header := HunkHeader.Print(o, |Olds(edits)|, n, |News(edits)|, section);
    PrintIsHeader(o, |Olds(edits)|, n, |News(edits)|, section);
    HunkHeader.ExchangedPrint(o, |Olds(edits)|, n, |News(edits)|, section);
    FlippedAppend([header], PrintEdits(edits));
    FlippedOne(header);
  }

  lemma FlippedOne(line: string)
    ensures AllFlipped([line]) == [Flipped(line)]
  {
  }

  /** The printed hunks of a script, turned round line by line, are the printed hunks of its reverse. */
  lemma {:induction false} ReversePrints(oldAt: nat, newAt: nat, s: Script)
    ensures AllFlipped(PrintHunks(oldAt, newAt, s)) == PrintHunks(newAt, oldAt, Reverse(s))
    decreases s
  {
    hide PrintHunks, PrintHunk, AllFlipped, Olds, News, Reverse, ReverseEdits;
    if s.Done? {
      NothingFlipped(oldAt, newAt, s);
    } else {
      var o, n := oldAt + |s.kept|, newAt + |s.kept|;
      var o', n' := o + |Olds(s.edits)|, n + |News(s.edits)|;
      ReverseSides(s.edits);
      PrintFirst(oldAt, newAt, s.kept, s.edits, s.section, s.rest);
      PrintFirst(newAt, oldAt, s.kept, ReverseEdits(s.edits), s.section, Reverse(s.rest));
      ReverseFirst(s);
      FlippedHunk(o, n, s.edits, s.section);
      ReversePrints(o', n', s.rest);
      FlippedAppend(PrintHunk(o, n, s.edits, s.section), PrintHunks(o', n', s.rest));
    }
  }

  lemma NothingFlipped(oldAt: nat, newAt: nat, s: Script)
    requires s.Done?
    ensures AllFlipped(PrintHunks(oldAt, newAt, s)) == PrintHunks(newAt, oldAt, Reverse(s))
  {
  }

  lemma PrintFirst(oldAt: nat, newAt: nat, kept: seq<string>, edits: seq<Edit>, section: string, rest: Script)
    ensures var o, n := oldAt + |kept|, newAt + |kept|;
            PrintHunks(oldAt, newAt, Hunk(kept, edits, section, rest)) ==
            PrintHunk(o, n, edits, section) + PrintHunks(o + |Olds(edits)|, n + |News(edits)|, rest)
  {
    hide PrintHunk, Olds, News;
  }

  lemma ReverseFirst(s: Script)
    requires s.Hunk?
    ensures Reverse(s) == Hunk(s.kept, ReverseEdits(s.edits), s.section, Reverse(s.rest))
  {
  }

  /**
   After a diff that applied, the same diff turned round, below any file-header
   lines, gives back the original lines exactly when the reversed script is
   placeable as well.
   */
  lemma ReversedDiffUndoes(preamble: seq<string>, again: seq<string>, s: Script)
    requires Printable(preamble, s) && Printable(again, s) && Placeable([], s, false)
    ensures var diff := PrintHunks(0, 0, s);
            var there := Replay(OldText(s), 0, DecodeAll(preamble + diff), false);
            && there.Ok?
            && (Replay(there.value, 0, DecodeAll(again + AllFlipped(diff)), false) == Ok(OldText(s))
                <==> Placeable([], Reverse(s), false))
  {
    hide Placeable, Replay, DecodeAll, PrintHunks, AllFlipped, OldText, NewText, Reverse;
    PrintedScriptApplies(preamble, s);
    ReverseTexts(s);
    ReversePrints(0, 0, s);
    PrintedScriptApplies(again, Reverse(s));
  }
}
