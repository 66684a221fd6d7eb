/**
 The unified-diff applier: the line-by-line replay of a diff over a file, the
 looping methods that perform it, and exactly when it succeeds.
 */
module UnifiedDiff {
  import opened Results
  import opened Text
  import HunkHeader

  datatype DiffError =
    | BadHeader | OutOfOrder | StartsPastEnd
    | ContextPastEnd | ContextMismatch | RemovedPastEnd | RemovedMismatch

  type Patched = Result<seq<string>, DiffError>

  /** A diff line by its role in a hunk; `target` is the 0-based line a hunk starts at. */
  datatype DiffLine =
    | Header(target: Option<int>)
    | Context(line: string)
    | Removed(line: string)
    | Added(line: string)
    | Other

  /** A blank line stands for an empty context line; unknown prefixes are skipped. */
  function Decode(line: string): DiffLine {
    if HunkHeader.IsHeader(line) then Header(HunkHeader.Target(line))
    else if line == "" then Context("")
    else match line[0]
      case ' ' => Context(line[1..])
      case '-' => Removed(line[1..])
      case '+' => Added(line[1..])
      case _ => Other
  }

  function DecodeAll(lines: seq<string>): (r: seq<DiffLine>)
    ensures |r| == |lines|
  {
    if lines == [] then [] else [Decode(lines[0])] + DecodeAll(lines[1..])
  }

  function Prepend(xs: seq<string>, p: Patched): Patched {
    match p
    case Ok(ys) => Ok(xs + ys)
    case Err(e) => Err(e)
  }

  /** The lines produced from `orig[at..]` by the diff lines, in order. */
  function Replay(orig: seq<string>, at: nat, lines: seq<DiffLine>, inHunk: bool): Patched
    requires at <= |orig|
    decreases |lines|
  {
    if lines == [] then Ok(orig[at..])
    else match lines[0]
      case Header(None) => Err(BadHeader)
      case Header(Some(target)) =>
        if target < at then Err(OutOfOrder)
        else if target > |orig| then Err(StartsPastEnd)
        else Prepend(orig[at..target], Replay(orig, target, lines[1..], true))
      case Context(line) =>
        if !inHunk then Replay(orig, at, lines[1..], false)
        else if at == |orig| then Err(ContextPastEnd)
        else if orig[at] != line then Err(ContextMismatch)
        else Prepend([line], Replay(orig, at + 1, lines[1..], true))
      case Removed(line) =>
        if !inHunk then Replay(orig, at, lines[1..], false)
        else if at == |orig| then Err(RemovedPastEnd)
        else if orig[at] != line then Err(RemovedMismatch)
        else Replay(orig, at + 1, lines[1..], true)
      case Added(line) =>
        if !inHunk then Replay(orig, at, lines[1..], false)
        else Prepend([line], Replay(orig, at, lines[1..], true))
      case Other => Replay(orig, at, lines[1..], inHunk)
  }

  // ----- text in, text out

  predicate EndsInNewline(s: string) { s != "" && s[|s| - 1] == '\n' }

  function FileLines(text: string): seq<string> {
    var lines := Split(text, '\n');
    if EndsInNewline(text) then lines[..|lines| - 1] else lines
  }

  function DiffLines(diff: string): seq<string> {
    var lines := Split(diff, '\n');
    if lines[|lines| - 1] == "" then lines[..|lines| - 1] else lines
  }

  /** The trailing newline is restored unless the text already ends in one. */
  function Rejoin(lines: seq<string>, hadNewline: bool): string {
    var out := Join(lines, '\n');
    if hadNewline && !EndsInNewline(out) then out + "\n" else out
  }

  function PatchedText(original: string, diff: string): Result<string, DiffError> {
    match Replay(FileLines(original), 0, DecodeAll(DiffLines(diff)), false)
    case Ok(lines) => Ok(Rejoin(lines, EndsInNewline(original)))
    case Err(e) => Err(e)
  }

  lemma PrependPrepend(xs: seq<string>, ys: seq<string>, p: Patched)
    ensures Prepend(xs, Prepend(ys, p)) == Prepend(xs + ys, p)
  {
    if p.Ok? {
      assert xs + (ys + p.value) == xs + ys + p.value;
    }
  }

  lemma PrependNothing(p: Patched)
    ensures Prepend([], p) == p
  {
    if p.Ok? {
      assert [] + p.value == p.value;
    }
  }

  lemma DecodeNext(lines: seq<string>, i: nat)
    requires i < |lines|
    ensures DecodeAll(lines[i..]) == [Decode(lines[i])] + DecodeAll(lines[i + 1..])
  {
    assert lines[i..][1..] == lines[i + 1..];
  }

  function OldOf(l: DiffLine): seq<string> {
    if l.Context? || l.Removed? then [l.line] else []
  }

  function NewOf(l: DiffLine): seq<string> {
    if l.Context? || l.Added? then [l.line] else []
  }

  predicate Occurs(side: seq<string>, orig: seq<string>, at: int) {
    0 <= at && at + |side| <= |orig| && orig[at..at + |side|] == side
  }

  function Refusal(l: DiffLine, pastEnd: bool): DiffError {
    if l.Context? then (if pastEnd then ContextPastEnd else ContextMismatch)
    else (if pastEnd then RemovedPastEnd else RemovedMismatch)
  }

  /** One line of an open hunk: what it expects must stand at the cursor. */
  lemma ReplayLine(orig: seq<string>, at: nat, l: DiffLine, rest: seq<DiffLine>)
    requires at <= |orig| && !l.Header?
    ensures var r := Replay(orig, at, [l] + rest, true);
            if Occurs(OldOf(l), orig, at)
            then r == Prepend(NewOf(l), Replay(orig, at + |OldOf(l)|, rest, true))
            else r == Err(Refusal(l, at == |orig|))
  {
    assert ([l] + rest)[1..] == rest;
    PrependNothing(Replay(orig, at, rest, true));
    if at < |orig| {
      PrependNothing(Replay(orig, at + 1, rest, true));
      assert orig[at..at + 1] == [orig[at]];
    }
  }

  /** Copies the original lines before a hunk; fails when the file is too short. */
  method CopyUpTo(orig: seq<string>, from: nat, target: int, result: seq<string>)
    returns (ok: bool, copied: seq<string>)
    requires from <= |orig| && from <= target
    ensures ok <==> target <= |orig|
    ensures ok ==> copied == result + orig[from..target]
  {
    var at := from;
    copied := result;
    while at < target
      invariant from <= at <= |orig| && at <= target
      invariant copied == result + orig[from..at]
    {
      if at >= |orig| {
        return false, copied;
      }
      copied := copied + [orig[at]];
      at := at + 1;
    }
    ok := true;
  }

  /** Runs one line of an open hunk. */
  method RunLine(orig: seq<string>, at0: nat, line: string, result0: seq<string>, ghost rest: seq<DiffLine>)
    returns (err: Option<DiffError>, at: nat, result: seq<string>)
    requires at0 <= |orig| && !HunkHeader.IsHeader(line)
    ensures at <= |orig|
    ensures err.Some? ==> Replay(orig, at0, [Decode(line)] + rest, true) == Err(err.value)
    ensures err.None? ==> Prepend(result0, Replay(orig, at0, [Decode(line)] + rest, true)) ==
                          Prepend(result, Replay(orig, at, rest, true))
  {
    at, result, err := at0, result0, None;
    var l := if line == "" then " " else line;
    var body := l[1..];
    ghost var d := DecodeBody(line, l);
    ReplayLine(orig, at, d, rest);
    if l[0] == ' ' {
      if at >= |orig| {
        return Some(ContextPastEnd), at, result;
      }
      if orig[at] != body {
        return Some(ContextMismatch), at, result;
      }
      result := result + [body];
      at := at + 1;
    } else if l[0] == '-' {
      if at >= |orig| {
        return Some(RemovedPastEnd), at, result;
      }
      if orig[at] != body {
        return Some(RemovedMismatch), at, result;
      }
      at := at + 1;
    } else if l[0] == '+' {
      result := result + [body];
    }
    PrependPrepend(result0, NewOf(d), Replay(orig, at, rest, true));
    assert result == result0 + NewOf(d);
  }

  /** Runs the lines of one hunk, from diff line `i0` up to the next header or the end. */
  method RunHunk(orig: seq<string>, at0: nat, lines: seq<string>, i0: nat, result0: seq<string>)
    returns (err: Option<DiffError>, at: nat, i: nat, result: seq<string>)
    requires at0 <= |orig| && i0 <= |lines|
    ensures at <= |orig| && i0 <= i <= |lines|
    ensures err.None? && i < |lines| ==> HunkHeader.IsHeader(lines[i])
    ensures err.Some? ==> Prepend(result0, Replay(orig, at0, DecodeAll(lines[i0..]), true)) == Err(err.value)
    ensures err.None? ==> Prepend(result0, Replay(orig, at0, DecodeAll(lines[i0..]), true)) ==
                          Prepend(result, Replay(orig, at, DecodeAll(lines[i..]), true))
  {
    at, i, result, err := at0, i0, result0, None;
    ghost var whole := Prepend(result0, Replay(orig, at0, DecodeAll(lines[i0..]), true));
    while i < |lines| && !HunkHeader.IsHeader(lines[i])
      invariant at <= |orig| && i0 <= i <= |lines| && err.None?
      invariant whole == Prepend(result, Replay(orig, at, DecodeAll(lines[i..]), true))
    {
      DecodeNext(lines, i);
      err, at, result := RunLine(orig, at, lines[i], result, DecodeAll(lines[i + 1..]));
      if err.Some? {
        return;
      }
      i := i + 1;
    }
  }

  lemma DecodeBody(line: string, l: string) returns (d: DiffLine)
    requires !HunkHeader.IsHeader(line) && l == if line == "" then " " else line
    ensures d == Decode(line) && !d.Header?
    ensures d == match l[0]
                 case ' ' => Context(l[1..])
                 case '-' => Removed(l[1..])
                 case '+' => Added(l[1..])
                 case _ => Other
  {
    d := Decode(line);
  }

  /** Moves to the start of the hunk that a header line opens. */
  method BeginHunk(orig: seq<string>, at: nat, line: string, result: seq<string>, ghost rest: seq<DiffLine>)
    returns (err: Option<DiffError>, start: nat, copied: seq<string>)
    requires at <= |orig| && HunkHeader.IsHeader(line)
    ensures start <= |orig|
    ensures err.Some? ==> Prepend(result, Replay(orig, at, [Decode(line)] + rest, false)) == Err(err.value)
    ensures err.None? ==> Prepend(result, Replay(orig, at, [Decode(line)] + rest, false)) ==
                          Prepend(copied, Replay(orig, start, rest, true))
  {
    var header := HunkHeader.Target(line);
    assert Decode(line) == Header(header);
    err, start, copied := None, at, result;
    if header.None? {
      return Some(BadHeader), at, result;
    }
    if header.value < at {
      return Some(OutOfOrder), at, result;
    }
    var ok;
    ok, copied := CopyUpTo(orig, at, header.value, result);
    if !ok {
      return Some(StartsPastEnd), at, result;
    }
    start := header.value;
    assert ([Decode(line)] + rest)[1..] == rest;
    PrependPrepend(result, orig[at..start], Replay(orig, start, rest, true));
  }

  lemma SkipOutside(orig: seq<string>, at: nat, line: string, rest: seq<DiffLine>)
    requires at <= |orig| && !HunkHeader.IsHeader(line)
    ensures Replay(orig, at, [Decode(line)] + rest, false) == Replay(orig, at, rest, false)
  {
    assert ([Decode(line)] + rest)[1..] == rest;
    assert !Decode(line).Header?;
  }

  /** Two cursors, over the original lines and over the diff lines. */
  method ApplyLines(orig: seq<string>, lines: seq<string>) returns (r: Patched)
    ensures r == Replay(orig, 0, DecodeAll(lines), false)
  {
    hide Replay, DecodeAll, Decode;
    var result: seq<string> := [];
    var at, i := 0, 0;
    ghost var whole := Replay(orig, 0, DecodeAll(lines), false);
    assert lines[0..] == lines;
    PrependNothing(whole);
    while i < |lines|
      invariant 0 <= i <= |lines| && 0 <= at <= |orig|
      invariant whole == Prepend(result, Replay(orig, at, DecodeAll(lines[i..]), false))
    {
      DecodeNext(lines, i);
      ghost var rest := DecodeAll(lines[i + 1..]);
      if !HunkHeader.IsHeader(lines[i]) {
        SkipOutside(orig, at, lines[i], rest);
        i := i + 1;
      } else {
        var err;
        err, at, result := BeginHunk(orig, at, lines[i], result, rest);
        if err.Some? {
          return Err(err.value);
        }
        err, at, i, result := RunHunk(orig, at, lines, i + 1, result);
        if err.Some? {
          return Err(err.value);
        }
        AtHeader(orig, at, lines, i);
      }
    }
    var _, all := CopyUpTo(orig, at, |orig|, result);
    ReplayEnd(orig, at, lines, i);
    r := Ok(all);
  }

  lemma ReplayEnd(orig: seq<string>, at: nat, lines: seq<string>, i: nat)
    requires at <= |orig| && i == |lines|
    ensures Replay(orig, at, DecodeAll(lines[i..]), false) == Ok(orig[at..|orig|])
  {
    assert lines[i..] == [] && orig[at..|orig|] == orig[at..];
  }

  /** The applier on texts, restoring the trailing newline. */
  method ApplyUnifiedDiff(original: string, diff: string) returns (r: Result<string, DiffError>)
    ensures r == PatchedText(original, diff)
  {
    var patched := ApplyLines(FileLines(original), DiffLines(diff));
    match patched
    case Ok(lines) => r := Ok(Rejoin(lines, EndsInNewline(original)));
    case Err(e) => r := Err(e);
  }

  /** At a header, or at the end, it no longer matters whether a hunk is open. */
  lemma AtHeader(orig: seq<string>, at: nat, lines: seq<string>, i: nat)
    requires at <= |orig| && i <= |lines| && (i < |lines| ==> HunkHeader.IsHeader(lines[i]))
    ensures Replay(orig, at, DecodeAll(lines[i..]), true) == Replay(orig, at, DecodeAll(lines[i..]), false)
  {
    if i < |lines| {
      DecodeNext(lines, i);
      assert DecodeAll(lines[i..])[0].Header?;
    }
  }
}

/** Exactly when a diff applies, and what it then leaves. */
module DiffSuccess {
  import opened Results
  import opened Text
  import opened UnifiedDiff

  /** A hunk of a diff: where its header says it starts, and its lines. */
  datatype RawHunk = RawHunk(target: Option<int>, body: seq<DiffLine>)

  function Body(lines: seq<DiffLine>): (body: seq<DiffLine>)
    ensures body <= lines
    ensures forall l :: l in body ==> !l.Header?
    ensures |body| < |lines| ==> lines[|body|].Header?
  {
    if lines == [] || lines[0].Header? then [] else [lines[0]] + Body(lines[1..])
  }

  function Hunks(lines: seq<DiffLine>): seq<RawHunk>
    decreases |lines|
  {
    if lines == [] then []
    else if lines[0].Header? then
      var body := Body(lines[1..]);
      [RawHunk(lines[0].target, body)] + Hunks(lines[1..][|body|..])
    else Hunks(lines[1..])
  }

  /** The lines a hunk expects to find: its context and removed lines. */
  function OldSide(body: seq<DiffLine>): seq<string> {
    if body == [] then [] else OldOf(body[0]) + OldSide(body[1..])
  }

  /** The lines a hunk leaves behind: its context and added lines. */
  function NewSide(body: seq<DiffLine>): seq<string> {
    if body == [] then [] else NewOf(body[0]) + NewSide(body[1..])
  }

  /** The line after a hunk, where the next one may start at the earliest. */
  function EndOf(h: RawHunk): int {
    if h.target.None? then 0 else h.target.value + |OldSide(h.body)|
  }

  /** The header parses, the hunk starts at or after `floor`, and its old side stands there. */
  predicate FitsFrom(orig: seq<string>, floor: int, h: RawHunk) {
    h.target.Some? && floor <= h.target.value && Occurs(OldSide(h.body), orig, h.target.value)
  }

  predicate FitsAt(orig: seq<string>, at: int, hunks: seq<RawHunk>, k: nat)
    requires k < |hunks|
  {
    FitsFrom(orig, if k == 0 then at else EndOf(hunks[k - 1]), hunks[k])
  }

  ghost predicate Fits(orig: seq<string>, at: int, hunks: seq<RawHunk>) {
    forall k :: 0 <= k < |hunks| ==> FitsAt(orig, at, hunks, k)
  }

  lemma FitsStep(orig: seq<string>, at: int, hunks: seq<RawHunk>)
    requires hunks != []
    ensures Fits(orig, at, hunks) <==>
            FitsFrom(orig, at, hunks[0]) && Fits(orig, EndOf(hunks[0]), hunks[1..])
  {
    var tail := hunks[1..];
    forall k | 0 <= k < |tail|
      ensures FitsAt(orig, EndOf(hunks[0]), tail, k) <==> FitsAt(orig, at, hunks, k + 1)
    {
      assert tail[k] == hunks[k + 1];
    }
    assert FitsAt(orig, at, hunks, 0) == FitsFrom(orig, at, hunks[0]);
    if Fits(orig, EndOf(hunks[0]), tail) && FitsFrom(orig, at, hunks[0]) {
      forall k | 0 <= k < |hunks| ensures FitsAt(orig, at, hunks, k) {
        assert k > 0 ==> FitsAt(orig, EndOf(hunks[0]), tail, k - 1);
      }
    }
  }

  /** The hunks spliced into the original, each at its start line. */
  function Spliced(orig: seq<string>, at: nat, hunks: seq<RawHunk>): seq<string>
    requires at <= |orig|
    decreases |hunks|
  {
    if hunks == [] then orig[at..]
    else if !FitsFrom(orig, at, hunks[0]) then []
    else orig[at..hunks[0].target.value] + NewSide(hunks[0].body)
         + Spliced(orig, EndOf(hunks[0]), hunks[1..])
  }

  function OldTotal(hunks: seq<RawHunk>): nat {
    if hunks == [] then 0 else |OldSide(hunks[0].body)| + OldTotal(hunks[1..])
  }

  function NewTotal(hunks: seq<RawHunk>): nat {
    if hunks == [] then 0 else |NewSide(hunks[0].body)| + NewTotal(hunks[1..])
  }

  lemma OccursBoth(a: seq<string>, b: seq<string>, orig: seq<string>, at: nat)
    ensures Occurs(a + b, orig, at) <==> Occurs(a, orig, at) && Occurs(b, orig, at + |a|)
  {
    if at + |a + b| <= |orig| {
      var here := orig[at..at + |a + b|];
      assert here[..|a|] == orig[at..at + |a|] && here[|a|..] == orig[at + |a|..at + |a| + |b|];
      assert here == here[..|a|] + here[|a|..];
      assert (a + b)[..|a|] == a && (a + b)[|a|..] == b;
    }
  }

  /** A hunk body replays exactly when its old side is what stands at the cursor. */
  lemma {:induction false} ReplayBody(orig: seq<string>, at: nat, body: seq<DiffLine>, rest: seq<DiffLine>)
    requires at <= |orig| && (forall l :: l in body ==> !l.Header?)
    ensures var r := Replay(orig, at, body + rest, true);
            if Occurs(OldSide(body), orig, at)
            then r == Prepend(NewSide(body), Replay(orig, at + |OldSide(body)|, rest, true))
            else r.Err?
    decreases |body|
  {
    hide Replay, OldOf, NewOf;
    if body == [] {
      assert body + rest == rest;
      PrependNothing(Replay(orig, at, rest, true));
      assert orig[at..at] == [];
    } else {
      var l, tail := body[0], body[1..];
      assert body + rest == [l] + (tail + rest);
      ReplayLine(orig, at, l, tail + rest);
      OccursBoth(OldOf(l), OldSide(tail), orig, at);
      if Occurs(OldOf(l), orig, at) {
        var next := at + |OldOf(l)|;
        ReplayBody(orig, next, tail, rest);
        if Occurs(OldSide(tail), orig, next) {
          PrependPrepend(NewOf(l), NewSide(tail), Replay(orig, next + |OldSide(tail)|, rest, true));
        }
      }
    }
  }

  /** Success, and the result, of replaying any diff lines. */
  lemma {:induction false} ReplayHunks(orig: seq<string>, at: nat, lines: seq<DiffLine>)
    requires at <= |orig|
    ensures var r := Replay(orig, at, lines, false);
            && (r.Ok? <==> Fits(orig, at, Hunks(lines)))
            && (r.Ok? ==> r.value == Spliced(orig, at, Hunks(lines)))
    decreases |lines|
  {
    if lines != [] && lines[0].Header? {
      var body := Body(lines[1..]);
      var rest := lines[1..][|body|..];
      assert lines[1..] == body + rest;
      var h := RawHunk(lines[0].target, body);
      var hunks := Hunks(lines);
      assert hunks[0] == h && hunks[1..] == Hunks(rest);
      FitsStep(orig, at, hunks);
      ReplayFirst(orig, at, h, rest);
      if FitsFrom(orig, at, h) {
        ReplayHunks(orig, EndOf(h), rest);
      }
    } else if lines != [] {
      ReplayHunks(orig, at, lines[1..]);
    }
  }

  lemma ReplayFirst(orig: seq<string>, at: nat, h: RawHunk, rest: seq<DiffLine>)
    requires at <= |orig| && (forall l :: l in h.body ==> !l.Header?)
    requires rest != [] ==> rest[0].Header?
    ensures var r := Replay(orig, at, [Header(h.target)] + (h.body + rest), false);
            if FitsFrom(orig, at, h)
            then r == Prepend(orig[at..h.target.value] + NewSide(h.body), Replay(orig, EndOf(h), rest, false))
            else r.Err?
  {
    assert ([Header(h.target)] + (h.body + rest))[1..] == h.body + rest;
    if h.target.Some? && at <= h.target.value <= |orig| {
      var t := h.target.value;
      ReplayBody(orig, t, h.body, rest);
      if FitsFrom(orig, at, h) {
        PrependPrepend(orig[at..t], NewSide(h.body), Replay(orig, EndOf(h), rest, true));
      }
    }
  }

  lemma {:induction false} SplicedLength(orig: seq<string>, at: nat, hunks: seq<RawHunk>)
    requires at <= |orig| && Fits(orig, at, hunks)
    ensures |Spliced(orig, at, hunks)| == |orig| - at + NewTotal(hunks) - OldTotal(hunks)
    decreases |hunks|
  {
    if hunks != [] {
      FitsStep(orig, at, hunks);
      SplicedLength(orig, EndOf(hunks[0]), hunks[1..]);
    }
  }

  /**
   A diff applies exactly when every header parses, the hunks move forward, and
   every context and removed line stands in the original where it is replayed;
   the result is then the original with the hunks spliced in, and its length is
   the original's plus the added minus the removed lines.
   */
  lemma AppliesExactlyWhen(original: string, diff: string)
    ensures var orig, hunks := FileLines(original), Hunks(DecodeAll(DiffLines(diff)));
            var r := PatchedText(original, diff);
            && (r.Ok? <==> Fits(orig, 0, hunks))
            && (r.Ok? ==>
                  && r.value == Rejoin(Spliced(orig, 0, hunks), EndsInNewline(original))
                  && |Spliced(orig, 0, hunks)| == |orig| + NewTotal(hunks) - OldTotal(hunks))
  {
    var orig, lines := FileLines(original), DecodeAll(DiffLines(diff));
    ReplayHunks(orig, 0, lines);
    if Fits(orig, 0, Hunks(lines)) {
      SplicedLength(orig, 0, Hunks(lines));
    }
  }
}
