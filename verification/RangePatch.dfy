/**
 The ranged PATCH of a staged file: the header parser, the write in place, and
 the inclusive byte ranges of section 14.1.2 of RFC 9110.
 */
module RangePatch {
  import opened Results
  import opened Text
  import Decimal

  newtype byte = x: int | 0 <= x < 256

  datatype RangeError = NoPrefix | NoDash | NoStart | BadStart | NegativeStart | BadEnd | EndBeforeStart

  /** `last` is the last byte of the range, inclusive; absent for an open range. */
  datatype Range = Range(start: int, last: Option<int>)

  const PREFIX := "bytes="

  predicate HasPrefix(s: string) {
    |s| >= 6 && s[..6] == PREFIX
  }

  function ParseRange(header: string): Result<Range, RangeError> {
    var s := TrimSpace(header);
    if !HasPrefix(s) then Err(NoPrefix)
    else ParseBounds(s[6..])
  }

  function ParseBounds(s: string): Result<Range, RangeError> {
    var dash := Index(s, '-');
    if dash < 0 then Err(NoDash)
    else ParseEnds(TrimSpace(s[..dash]), TrimSpace(s[dash + 1..]))
  }

  function ParseEnds(first: string, last: string): Result<Range, RangeError> {
    if first == "" then Err(NoStart)
    else match Decimal.ParseInt64(first)
      case None => Err(BadStart)
      case Some(start) =>
        if start < 0 then Err(NegativeStart)
        else if last == "" then Ok(Range(start, None))
        else match Decimal.ParseInt64(last)
          case None => Err(BadEnd)
          case Some(end) => if end < start then Err(EndBeforeStart) else Ok(Range(start, Some(end)))
  }

  /** A range that parses is a proper one, its bounds within 64 bits. */
  lemma ParsedRangeIsProper(header: string)
    ensures ParseRange(header).Ok? ==>
              var r := ParseRange(header).value;
              0 <= r.start <= Decimal.INT64_MAX && (r.last.Some? ==> r.start <= r.last.value <= Decimal.INT64_MAX)
  {
  }

  /** The header as the client and the server's reply print it. */
  function PrintRange(start: int, end: int): string {
    PREFIX + Decimal.Print(start) + "-" + Decimal.Print(end)
  }

  lemma TrimEnds(s: string)
    requires s != "" && !IsSpace(s[0]) && !IsSpace(s[|s| - 1])
    ensures TrimSpace(s) == s
  {
  }

  lemma PrintEnds(n: int)
    ensures var s := Decimal.Print(n); s != "" && !IsSpace(s[0]) && Decimal.IsDigit(s[|s| - 1])
  {
    Decimal.PrintNatFree(if n < 0 then -n else n, '-');
  }

  /** The server reads back the range that was printed, unless it ends before its start. */
  lemma PrintedRangeParses(start: int, end: int)
    requires 0 <= start <= Decimal.INT64_MAX && Decimal.INT64_MIN <= end <= Decimal.INT64_MAX
    ensures ParseRange(PrintRange(start, end)) ==
            if end < start then Err(EndBeforeStart) else Ok(Range(start, Some(end)))
  {
    hide Decimal.ParseInt64, Decimal.Print, Index, IsSpace, TrimSpace;
    var a, b, s := Decimal.Print(start), Decimal.Print(end), PrintRange(start, end);
    StartHasNoDash(start);
    PrintEnds(start);
    PrintEnds(end);
    DigitsShow(a[|a| - 1]);
    DigitsShow(b[|b| - 1]);
    TrimPrinted(a, b);
    assert s[..6] == PREFIX && s[6..] == a + ['-'] + b;
    IndexOf(a, '-', b);
    var t := a + ['-'] + b;
    assert t[..|a|] == a && t[|a| + 1..] == b;
    TrimEnds(a);
    TrimEnds(b);
    Decimal.ParsePrint(start);
    Decimal.ParsePrint(end);
  }

  lemma StartHasNoDash(start: nat)
    ensures Free(Decimal.Print(start), '-')
  {
    Decimal.PrintNatFree(start, '-');
  }

  lemma DigitsShow(c: char)
    ensures Decimal.IsDigit(c) ==> !IsSpace(c)
  {
  }

  lemma TrimPrinted(a: string, b: string)
    requires b != "" && Decimal.IsDigit(b[|b| - 1])
    ensures TrimSpace(PREFIX + a + "-" + b) == PREFIX + a + "-" + b
  {
    var s := PREFIX + a + "-" + b;
    assert s[0] == 'b' && s[|s| - 1] == b[|b| - 1];
    TrimEnds(s);
  }

  // ----- the write

  function Zeros(n: nat): (z: seq<byte>)
    ensures |z| == n && forall i :: 0 <= i < n ==> z[i] == 0
  {
    seq(n, _ => 0)
  }

  /** Writing at an offset; a gap behind the end of the file reads as zeros. */
  function WriteAt(file: seq<byte>, at: nat, data: seq<byte>): seq<byte> {
    if data == [] then file
    else
      var padded := if at > |file| then file + Zeros(at - |file|) else file;
      var end := at + |data|;
      padded[..at] + data + (if end < |padded| then padded[end..] else [])
  }

  datatype Reply = BadRange(error: RangeError) | WriteError | NoContent(range: string)

  /** How many bytes a bounded copy moves: the byte count is computed in 64 bits. */
  function Wanted(start: int, end: int): int {
    Decimal.Wrap64(end - start + 1)
  }

  function Copied(r: Range, body: seq<byte>): seq<byte> {
    match r.last
    case None => body
    case Some(end) =>
      var n := Wanted(r.start, end);
      if n <= 0 then [] else if n <= |body| then body[..n] else body
  }

  /** A bounded copy that meets the end of the body early fails after writing what there was. */
  predicate ShortBody(r: Range, body: seq<byte>) {
    r.last.Some? && Wanted(r.start, r.last.value) > |body|
  }

  class StagedFile {
    var content: seq<byte>

    constructor (bytes: seq<byte>)
      ensures content == bytes
    {
      content := bytes;
    }

    /** Seek to the start of the range, copy the body there, report what was written. */
    method Patch(header: string, body: seq<byte>) returns (reply: Reply)
      modifies this
      ensures match ParseRange(header)
              case Err(e) => reply == BadRange(e) && content == old(content)
              case Ok(r) =>
                && r.start >= 0
                && content == WriteAt(old(content), r.start, Copied(r, body))
                && reply == Report(r, body)
    {
      hide ParseRange, WriteAt, PrintRange;
      ParsedRangeIsProper(header);
      var parsed := ParseRange(header);
      if parsed.Err? {
        return BadRange(parsed.error);
      }
      var r := parsed.value;
      var data := body;
      var short := false;
      if r.last.Some? {
        var n := Wanted(r.start, r.last.value);
        data := if n <= 0 then [] else if n <= |body| then body[..n] else body;
        short := |data| < n;
      }
      content := WriteAt(content, r.start, data);
      if short {
        return WriteError;
      }
      reply := NoContent(PrintRange(r.start, Decimal.Wrap64(r.start + |data| - 1)));
    }
  }

  function Report(r: Range, body: seq<byte>): Reply {
    if ShortBody(r, body) then WriteError
    else NoContent(PrintRange(r.start, Decimal.Wrap64(r.start + |Copied(r, body)| - 1)))
  }

  /** Exactly the bytes start..end are the new ones, and the file grows only as far as needed. */
  ghost predicate Replaced(file: seq<byte>, start: nat, data: seq<byte>, result: seq<byte>) {
    var end := start + |data|;
    && |result| == (if |file| < end then end else |file|)
    && forall i :: 0 <= i < |result| ==>
         result[i] == if start <= i < end then data[i - start] else if i < |file| then file[i] else 0
  }

  lemma WriteReplaces(file: seq<byte>, start: nat, data: seq<byte>)
    requires data != []
    ensures Replaced(file, start, data, WriteAt(file, start, data))
  {
  }

  lemma WantedExactly(start: int, end: int)
    requires 0 <= start <= end <= Decimal.INT64_MAX
    ensures start == 0 && end == Decimal.INT64_MAX ==> Wanted(start, end) == Decimal.INT64_MIN
    ensures !(start == 0 && end == Decimal.INT64_MAX) ==> Wanted(start, end) == end - start + 1
  {
  }

  /**
   A range as the client prints it is written and reported back exactly when the
   body covers it and the byte count fits 64 bits. The write then changes the
   bytes start..end and nothing else.
   */
  lemma PatchWritesTheRange(file: seq<byte>, start: int, end: int, body: seq<byte>)
    requires 0 <= start <= end <= Decimal.INT64_MAX
    ensures var header := PrintRange(start, end);
            var r := Range(start, Some(end));
            var fits := |body| >= end - start + 1 && !(start == 0 && end == Decimal.INT64_MAX);
            && ParseRange(header) == Ok(r)
            && (Report(r, body) == NoContent(header) <==> fits)
            && (fits ==> Replaced(file, start, body[..end - start + 1], WriteAt(file, start, Copied(r, body))))
  {
    hide ParseRange, PrintRange, WriteAt, Replaced;
    var r := Range(start, Some(end));
    PrintedRangeParses(start, end);
    WantedExactly(start, end);
    if start == 0 && end == Decimal.INT64_MAX {
      WholeRangeOverflows(file, body);
    } else if |body| >= end - start + 1 {
      WriteReplaces(file, start, body[..end - start + 1]);
    }
  }

  /** The overflowing range: nothing is written and the reply names the range 0 to -1. */
  lemma WholeRangeOverflows(file: seq<byte>, body: seq<byte>)
    ensures var r := Range(0, Some(Decimal.INT64_MAX));
            && WriteAt(file, 0, Copied(r, body)) == file
            && Report(r, body) == NoContent(PrintRange(0, -1))
    ensures PrintRange(0, -1) != PrintRange(0, Decimal.INT64_MAX)
  {
    Decimal.PrintNatFree(Decimal.INT64_MAX, '-');
    var p, q := PrintRange(0, -1), PrintRange(0, Decimal.INT64_MAX);
    assert Decimal.PrintNat(0) == "0";
    assert p[8] == '-' && q[8] == Decimal.PrintNat(Decimal.INT64_MAX)[0];
  }

  // ----- what the parser makes of any header

  /** What the two texts of a range mean: decimals, the second one perhaps missing. */
  predicate Means(first: string, last: string, r: Range) {
    && Decimal.ParseInt64(TrimSpace(first)) == Some(r.start) && 0 <= r.start
    && match r.last
       case None => TrimSpace(last) == ""
       case Some(end) => Decimal.ParseInt64(TrimSpace(last)) == Some(end) && r.start <= end
  }

  /**
   A header parses exactly when, between white space, it is "bytes=", a first text
   without dash, a dash and a last text, and these mean the range.
   */
  lemma ParsesExactlyWhen(header: string, r: Range)
    ensures ParseRange(header) == Ok(r) <==>
            exists first, last :: TrimSpace(header) == "bytes=" + first + "-" + last && Free(first, '-') && Means(first, last, r)
  {
    hide TrimSpace, Decimal.ParseInt64, Index;
    var s := TrimSpace(header);
    if ParseRange(header) == Ok(r) {
      var rest := s[6..];
      var dash := Index(rest, '-');
      NoNumber();
      assert s == "bytes=" + rest[..dash] + "-" + rest[dash + 1..];
      assert Free(rest[..dash], '-') && Means(rest[..dash], rest[dash + 1..], r);
    }
    if first, last :| s == "bytes=" + first + "-" + last && Free(first, '-') && Means(first, last, r) {
      assert s[..6] == "bytes=" && s[6..] == first + ['-'] + last;
      IndexOf(first, '-', last);
      assert s[6..][..|first|] == first && s[6..][|first| + 1..] == last;
      NoNumber();
    }
  }

  lemma NoNumber()
    ensures Decimal.ParseInt64("") == None
  {
  }

  /** The header of a range without end. */
  function PrintOpen(start: int): string {
    PREFIX + Decimal.Print(start) + "-"
  }

  lemma OpenRangeParses(start: int)
    requires 0 <= start <= Decimal.INT64_MAX
    ensures ParseRange(PrintOpen(start)) == Ok(Range(start, None))
  {
    hide Decimal.ParseInt64, Decimal.Print, Index, IsSpace, TrimSpace;
    var a, s := Decimal.Print(start), PrintOpen(start);
    StartHasNoDash(start);
    PrintEnds(start);
    DigitsShow(a[|a| - 1]);
    TrimOpen(a);
    assert s[..6] == PREFIX && s[6..] == a + ['-'] + "";
    IndexOf(a, '-', "");
    var t := a + ['-'] + "";
    assert t[..|a|] == a && t[|a| + 1..] == "";
    TrimEnds(a);
    Decimal.ParsePrint(start);
  }

  lemma TrimOpen(a: string)
    ensures TrimSpace(PREFIX + a + "-") == PREFIX + a + "-" && TrimSpace("") == ""
  {
    var s := PREFIX + a + "-";
    assert s[0] == 'b' && s[|s| - 1] == '-';
    TrimEnds(s);
  }

  /**
   A range without end takes the whole body, and the reported range parses to where
   it went. An empty body changes nothing, and the range reported for it, which ends
   before its start, is one that the parser rejects.
   */
  lemma OpenRangeTakesAll(file: seq<byte>, start: int, body: seq<byte>)
    requires 0 <= start <= Decimal.INT64_MAX && start + |body| - 1 <= Decimal.INT64_MAX
    ensures var r := Range(start, None);
            && ParseRange(PrintOpen(start)) == Ok(r)
            && (body == [] ==> WriteAt(file, start, Copied(r, body)) == file)
            && (body != [] ==> Replaced(file, start, body, WriteAt(file, start, Copied(r, body))))
            && Report(r, body).NoContent?
            && ParseRange(Report(r, body).range) ==
               if body == [] then Err(EndBeforeStart) else Ok(Range(start, Some(start + |body| - 1)))
  {
    hide ParseRange, PrintRange, PrintOpen, Replaced;
    OpenRangeParses(start);
    PrintedRangeParses(start, start + |body| - 1);
    if body != [] {
      WriteReplaces(file, start, body);
    }
  }
}
