/** The hunk headers of a unified diff: printing them, and the source's parser. */
module HunkHeader {
  import opened Results
  import opened Text
  import Decimal

  predicate IsHeader(line: string) {
    |line| >= 2 && line[0] == '@' && line[1] == '@'
  }

  /** "start" or "start,count"; the count defaults to 1. */
  function ParseRange(s: string): Option<(int, int)> {
    var comma := Index(s, ',');
    if comma >= 0 then
      match (Decimal.ParseInt64(s[..comma]), Decimal.ParseInt64(s[comma + 1..]))
      case (Some(start), Some(count)) => Some((start, count))
      case _ => None
    else
      match Decimal.ParseInt64(s)
      case Some(start) => Some((start, 1))
      case None => None
  }

  function ZeroToOne(n: int): int {
    if n == 0 then 1 else n
  }

  /**
   The old and new start lines of a header. Cutting into at most three pieces and
   cutting at every blank agree on the first two pieces, the only ones used.
   */
  function Parse(line: string): Option<(int, int)> {
    var rest := if IsHeader(line) then line[2..] else line;
    ParseParts(Split(TrimSpace(rest), ' '))
  }

  function ParseParts(parts: seq<string>): Option<(int, int)> {
    if |parts| < 2 || parts[0] == "" || parts[0][0] != '-' || parts[1] == "" || parts[1][0] != '+' then None
    else
      match (ParseRange(parts[0][1..]), ParseRange(parts[1][1..]))
      case (Some(before), Some(after)) => Some((ZeroToOne(before.0), ZeroToOne(after.0)))
      case _ => None
  }

  /** The 0-based line a hunk starts at, computed in 64-bit arithmetic. */
  function Target(line: string): Option<int> {
    match Parse(line)
    case Some(starts) => Some(Decimal.Wrap64(starts.0 - 1))
    case None => None
  }

  // ----- which lines are headers, and which of them parse

  lemma HeaderExactlyWhen(line: string)
    ensures IsHeader(line) <==> exists rest :: line == "@@" + rest
  {
    if IsHeader(line) {
      assert line == "@@" + line[2..];
    }
  }

  /** A range is a decimal, or two with a comma between them. */
  lemma RangeParsesExactlyWhen(s: string, start: int, count: int)
    ensures ParseRange(s) == Some((start, count)) <==>
            || (Free(s, ',') && count == 1 && Decimal.ParseInt64(s) == Some(start))
            || (exists x, y :: s == x + "," + y && Free(x, ',')
                               && Decimal.ParseInt64(x) == Some(start) && Decimal.ParseInt64(y) == Some(count))
  {
    hide Decimal.ParseInt64, Index;
    var comma := Index(s, ',');
    if comma >= 0 {
      assert s == s[..comma] + "," + s[comma + 1..];
    }
    if x, y :| s == x + "," + y && Free(x, ',')
               && Decimal.ParseInt64(x) == Some(start) && Decimal.ParseInt64(y) == Some(count) {
      assert s == x + [','] + y;
      IndexOf(x, ',', y);
      assert s[..|x|] == x && s[|x| + 1..] == y;
    }
  }

  /** What follows the two at-signs is, trimmed, two ranges with their signs, and perhaps more. */
  ghost predicate Ranges(rest: string, old': string, new': string) {
    || TrimSpace(rest) == "-" + old' + " +" + new'
    || exists more :: TrimSpace(rest) == "-" + old' + " +" + new' + " " + more
  }

  predicate StartsAt(range: string, line: int) {
    ParseRange(range).Some? && line == if ParseRange(range).value.0 == 0 then 1 else ParseRange(range).value.0
  }

  /**
   A header line parses exactly when two ranges follow, without blanks in them and
   with one between them; its start lines are theirs, a zero counting as one.
   */
  lemma ParsesExactlyWhen(rest: string, starts: (int, int))
    ensures Parse("@@" + rest) == Some(starts) <==>
            exists old', new' ::
              Ranges(rest, old', new') && Free(old', ' ') && Free(new', ' ') && StartsAt(old', starts.0) && StartsAt(new', starts.1)
  {
    hide ParseRange, TrimSpace, Split, Free, AllFree, Join, Ranges;
    var line, parts := "@@" + rest, Split(TrimSpace(rest), ' ');
    assert line[2..] == rest;
    if Parse(line) == Some(starts) {
      CutRanges(rest, parts);
      var old', new' := parts[0][1..], parts[1][1..];
      assert Ranges(rest, old', new') && Free(old', ' ') && Free(new', ' ');
      assert StartsAt(old', starts.0) && StartsAt(new', starts.1);
    }
    if old', new' :| Ranges(rest, old', new') && Free(old', ' ') && Free(new', ' ')
                     && StartsAt(old', starts.0) && StartsAt(new', starts.1) {
      JoinRanges(rest, old', new');
    }
  }

  lemma CutRanges(rest: string, parts: seq<string>)
    requires parts == Split(TrimSpace(rest), ' ') && |parts| >= 2
    requires parts[0] != "" && parts[0][0] == '-' && parts[1] != "" && parts[1][0] == '+'
    ensures Ranges(rest, parts[0][1..], parts[1][1..]) && Free(parts[0][1..], ' ') && Free(parts[1][1..], ' ')
  {
    hide Split;
    var t := TrimSpace(rest);
    JoinSplit(t, ' ');
    var a, b := parts[0], parts[1];
    assert Free(a, ' ') && Free(b, ' ');
    assert a == "-" + a[1..] && b == "+" + b[1..];
    if |parts| == 2 {
      assert t == a + [' '] + b by { assert parts[1..] == [b]; }
      assert t == "-" + a[1..] + " +" + b[1..];
    } else {
      var more := Join(parts[1..][1..], ' ');
      assert t == a + [' '] + (b + [' '] + more);
      assert t == "-" + a[1..] + " +" + b[1..] + " " + more;
    }
  }

  lemma JoinRanges(rest: string, old': string, new': string)
    requires Ranges(rest, old', new') && Free(old', ' ') && Free(new', ' ')
    ensures var parts := Split(TrimSpace(rest), ' ');
            |parts| >= 2 && parts[0] == "-" + old' && parts[1] == "+" + new'
            && parts[0][1..] == old' && parts[1][1..] == new'
  {
    hide Split, TrimSpace;
    var t, a, b := TrimSpace(rest), "-" + old', "+" + new';
    SignedFree(old');
    SignedFree(new');
    if t == "-" + old' + " +" + new' {
      assert t == a + [' '] + b;
      SplitHead(a, b, ' ');
      SplitWhole(b, ' ');
    } else {
      var more :| t == "-" + old' + " +" + new' + " " + more;
      assert t == a + [' '] + (b + [' '] + more);
      SplitHead(a, b + [' '] + more, ' ');
      SplitHead(b, more, ' ');
    }
  }

  /**
   A range in the "Diff -u or -U Output Format" of POSIX diff: the first line
   (or, for no lines, the line before), then the count unless it is 1.
   */
  function PrintRange(at: nat, count: nat): string {
    var start := FirstLine(at, count);
    if count == 1 then Decimal.PrintNat(start)
    else Decimal.PrintNat(start) + "," + Decimal.PrintNat(count)
  }

  /** A header; `section` is whatever follows the closing "@@". */
  function Print(oldAt: nat, oldCount: nat, newAt: nat, newCount: nat, section: string): string {
    "@@ -" + PrintRange(oldAt, oldCount) + " +" + PrintRange(newAt, newCount) + " @@" + section
  }

  lemma PrintRangeParses(at: nat, count: nat)
    requires at + count <= Decimal.INT64_MAX
    ensures ParseRange(PrintRange(at, count)) == Some((FirstLine(at, count), count))
  {
    var start := FirstLine(at, count);
    var s := Decimal.PrintNat(start);
    Decimal.ParsePrint(start);
    Decimal.PrintNatFree(start, ',');
    if count != 1 {
      var c := Decimal.PrintNat(count);
      Decimal.ParsePrint(count);
      IndexOf(s, ',', c);
      var r := PrintRange(at, count);
      assert r == s + [','] + c;
      assert r[..|s|] == s && r[|s| + 1..] == c;
    }
  }

  lemma PrintRangeFree(at: nat, count: nat, c: char)
    requires !Decimal.IsDigit(c) && c != ','
    ensures Free(PrintRange(at, count), c)
  {
    Decimal.PrintNatFree(at, c);
    Decimal.PrintNatFree(at + 1, c);
    Decimal.PrintNatFree(count, c);
  }

  /** What the parser cuts out of a printed header. */
  lemma PrintCuts(o: string, n: string, section: string)
    requires Free(o, ' ') && Free(n, ' ')
    ensures var parts := Split(TrimSpace(" -" + o + " +" + n + " @@" + section), ' ');
            |parts| >= 3 && parts[0] == "-" + o && parts[1] == "+" + n
  {
    var head := "-" + o + " +" + n + " @@";
    var all := " -" + o + " +" + n + " @@" + section;
    assert all[1..] == head + section;
    assert TrimLeft(all) == head + section;
    TrimRightKeeps(head, section);
    var rest := "@@" + TrimRight(section);
    assert head + TrimRight(section) == ("-" + o) + [' '] + (("+" + n) + [' '] + rest);
    SplitHead("-" + o, ("+" + n) + [' '] + rest, ' ');
    SplitHead("+" + n, rest, ' ');
  }

  lemma ParseOfPrint(o: string, n: string, section: string)
    requires Free(o, ' ') && Free(n, ' ')
    ensures var line := "@@ -" + o + " +" + n + " @@" + section;
            IsHeader(line) && Parse(line) == ParseParts(["-" + o, "+" + n])
  {
    var line := "@@ -" + o + " +" + n + " @@" + section;
    assert line[2..] == " -" + o + " +" + n + " @@" + section;
    PrintCuts(o, n, section);
  }

  function FirstLine(at: nat, count: nat): nat {
    if count == 0 then at else at + 1
  }

  /** The parser recovers both start lines of every printed header. */
  lemma PrintParses(oldAt: nat, oldCount: nat, newAt: nat, newCount: nat, section: string)
    requires oldAt + oldCount <= Decimal.INT64_MAX && newAt + newCount <= Decimal.INT64_MAX
    ensures IsHeader(Print(oldAt, oldCount, newAt, newCount, section))
    ensures Parse(Print(oldAt, oldCount, newAt, newCount, section)) ==
            Some((ZeroToOne(FirstLine(oldAt, oldCount)), ZeroToOne(FirstLine(newAt, newCount))))
  {
    var o, n := PrintRange(oldAt, oldCount), PrintRange(newAt, newCount);
    PrintRangeFree(oldAt, oldCount, ' ');
    PrintRangeFree(newAt, newCount, ' ');
    ParseOfPrint(o, n, section);
    PrintRangeParses(oldAt, oldCount);
    PrintRangeParses(newAt, newCount);
    assert ("-" + o)[1..] == o && ("+" + n)[1..] == n;
  }

  /** The line at which the applier starts a printed hunk. */
  lemma PrintTarget(oldAt: nat, oldCount: nat, newAt: nat, newCount: nat, section: string)
    requires oldAt + oldCount <= Decimal.INT64_MAX && newAt + newCount <= Decimal.INT64_MAX
    ensures IsHeader(Print(oldAt, oldCount, newAt, newCount, section))
    ensures Target(Print(oldAt, oldCount, newAt, newCount, section)) ==
            Some(if oldCount == 0 && oldAt > 0 then oldAt - 1 else oldAt)
  {
    hide Parse, Print, Target, IsHeader;
    PrintParses(oldAt, oldCount, newAt, newCount, section);
    TargetOf(Print(oldAt, oldCount, newAt, newCount, section));
  }

  lemma TargetOf(line: string)
    requires Parse(line).Some? && 0 <= Parse(line).value.0 <= Decimal.INT64_MAX
    ensures Target(line) == Some(Parse(line).value.0 - 1)
  {
  }

  /** A header with its two ranges exchanged. */
  function Exchanged(line: string): string {
    var parts := Split(line, ' ');
    if |parts| < 3 || parts[1] == "" || parts[2] == "" then line
    else Join([parts[0], "-" + parts[2][1..], "+" + parts[1][1..]] + parts[3..], ' ')
  }

  lemma ThreeParts(a: string, b: string, c: string, rest: string)
    requires Free(a, ' ') && Free(b, ' ') && Free(c, ' ')
    ensures Split(a + [' '] + (b + [' '] + (c + [' '] + rest)), ' ') == [a, b, c] + Split(rest, ' ')
    ensures Join([a, b, c] + Split(rest, ' '), ' ') == a + [' '] + (b + [' '] + (c + [' '] + rest))
  {
    hide Free, Split;
    SplitHead(a, b + [' '] + (c + [' '] + rest), ' ');
    SplitHead(b, c + [' '] + rest, ' ');
    SplitHead(c, rest, ' ');
    var tail := Split(rest, ' ');
    assert [a] + ([b] + ([c] + tail)) == [a, b, c] + tail;
    JoinSplit(a + [' '] + (b + [' '] + (c + [' '] + rest)), ' ');
  }

  lemma PrintLayout(o: string, n: string, section: string)
    ensures "@@ -" + o + " +" + n + " @@" + section ==
            "@@" + [' '] + (("-" + o) + [' '] + (("+" + n) + [' '] + ("@@" + section)))
  {
  }

  /** Exchanging the ranges of a printed header prints the header of the reversed hunk. */
  lemma ExchangedPrint(oldAt: nat, oldCount: nat, newAt: nat, newCount: nat, section: string)
    ensures Exchanged(Print(oldAt, oldCount, newAt, newCount, section)) ==
            Print(newAt, newCount, oldAt, oldCount, section)
  {
    hide Split, Join, PrintRange, Free;
    var o, n := PrintRange(oldAt, oldCount), PrintRange(newAt, newCount);
    PrintRangeFree(oldAt, oldCount, ' ');
    PrintRangeFree(newAt, newCount, ' ');
    SignedFree(o);
    SignedFree(n);
    PrintLayout(o, n, section);
    PrintLayout(n, o, section);
    ThreeParts("@@", "-" + o, "+" + n, "@@" + section);
    ThreeParts("@@", "-" + n, "+" + o, "@@" + section);
    CutParts(o, n, Split("@@" + section, ' '));
  }

  lemma CutParts(o: string, n: string, tail: seq<string>)
    ensures var parts := ["@@", "-" + o, "+" + n] + tail;
            && parts[1] != "" && parts[2] != "" && parts[3..] == tail
            && "-" + parts[2][1..] == "-" + n && "+" + parts[1][1..] == "+" + o
  {
  }

  lemma SignedFree(s: string)
    requires Free(s, ' ')
    ensures Free("-" + s, ' ') && Free("+" + s, ' ') && Free("@@", ' ')
  {
  }
}
