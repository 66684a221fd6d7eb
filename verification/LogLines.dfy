/**
 The writer that cuts a container's log stream into lines, one log call per
 line, and keeps a partial line until its newline arrives.
 */
module LogLines {
  import opened Text

  datatype Level = Info | Warn

  datatype Entry = Entry(level: Level, text: string)

  /** Where the lines go: the level by stream, the container's prefix. */
  datatype Sink = Sink(prefix: string, stderr: bool)

  datatype State = State(buf: string, out: seq<Entry>)

  function TrimReturns(s: string): (t: string)
    ensures t <= s && (t != "" ==> t[|t| - 1] != '\r')
    ensures forall i :: |t| <= i < |s| ==> s[i] == '\r'
  {
    if s != "" && s[|s| - 1] == '\r' then TrimReturns(s[..|s| - 1]) else s
  }

  function EntryOf(k: Sink, line: string): Entry {
    Entry(if k.stderr then Warn else Info, k.prefix + line)
  }

  /** The log calls for the lines: each one right-trimmed, the empty ones left out. */
  function Logged(k: Sink, lines: seq<string>): seq<Entry> {
    if lines == [] then []
    else
      var line := TrimReturns(lines[|lines| - 1]);
      Logged(k, lines[..|lines| - 1]) + (if line == "" then [] else [EntryOf(k, line)])
  }

  function Wrote(k: Sink, s: State, p: string): State {
    var parts := Split(s.buf + p, '\n');
    State(parts[|parts| - 1], s.out + Logged(k, parts[..|parts| - 1]))
  }

  function Flushed(k: Sink, s: State): State {
    State("", s.out + Logged(k, [s.buf]))
  }

  lemma {:induction false} LoggedAppend(k: Sink, x: seq<string>, y: seq<string>)
    ensures Logged(k, x + y) == Logged(k, x) + Logged(k, y)
  {
    if y == [] {
      assert x + y == x;
    } else {
      assert (x + y)[..|x + y| - 1] == x + y[..|y| - 1];
      LoggedAppend(k, x, y[..|y| - 1]);
    }
  }

  lemma LoggedOne(k: Sink, line: string)
    ensures Logged(k, [line]) == if TrimReturns(line) == "" then [] else [EntryOf(k, TrimReturns(line))]
  {
    assert [line][..0] == [];
  }

  /** One line taken off the front of the buffer. */
  lemma WroteLine(k: Sink, out: seq<Entry>, head: string, rest: string)
    requires Free(head, '\n')
    ensures Wrote(k, State("", out), head + ['\n'] + rest) == Wrote(k, State("", out + Logged(k, [head])), rest)
  {
    hide Split, Logged;
    var all, tail := Split(head + ['\n'] + rest, '\n'), Split(rest, '\n');
    SplitHead(head, rest, '\n');
    assert "" + (head + ['\n'] + rest) == head + ['\n'] + rest && "" + rest == rest;
    assert all[..|all| - 1] == [head] + tail[..|tail| - 1];
    LoggedAppend(k, [head], tail[..|tail| - 1]);
  }

  /** A buffer without newline stays as it is. */
  lemma WrotePart(k: Sink, out: seq<Entry>, part: string)
    requires Free(part, '\n')
    ensures Wrote(k, State("", out), part) == State(part, out)
  {
    SplitWhole(part, '\n');
    assert "" + part == part;
  }

  class PrefixingWriter {
    const sink: Sink
    var buf: string
    var out: seq<Entry>

    function Value(): State
      reads this
    {
      State(buf, out)
    }

    constructor (prefix: string, stderr: bool)
      ensures sink == Sink(prefix, stderr) && Value() == State("", [])
    {
      sink := Sink(prefix, stderr);
      buf := "";
      out := [];
    }

    method Write(p: string) returns (n: nat)
      modifies this
      ensures Value() == Wrote(sink, old(Value()), p) && n == |p|
      ensures Free(buf, '\n')
    {
      hide Wrote, Split, Logged;
      ghost var before := out;
      StartsFresh(sink, Value(), p);
      buf := buf + p;
      ghost var all := buf;
      while true
        invariant Wrote(sink, State("", out), buf) == Wrote(sink, State("", before), all)
        decreases |buf|
      {
        var i := IndexNewline(buf);
        if i < 0 {
          WrotePart(sink, out, buf);
          break;
        }
        WroteLine(sink, out, buf[..i], buf[i + 1..]);
        assert buf == buf[..i] + ['\n'] + buf[i + 1..];
        var line := TrimReturns(buf[..i]);
        LoggedOne(sink, buf[..i]);
        buf := buf[i + 1..];
        Emit(line);
      }
      return |p|;
    }

    method Flush()
      modifies this
      ensures Value() == Flushed(sink, old(Value())) && buf == ""
    {
      LoggedOne(sink, buf);
      if |buf| == 0 {
        return;
      }
      Emit(TrimReturns(buf));
      buf := "";
    }

    method Emit(line: string)
      modifies this`out
      ensures out == old(out) + if line == "" then [] else [EntryOf(sink, line)]
    {
      if line == "" {
        return;
      }
      if sink.stderr {
        out := out + [Entry(Warn, sink.prefix + line)];
      } else {
        out := out + [Entry(Info, sink.prefix + line)];
      }
    }

    method IndexNewline(b: string) returns (r: int)
      ensures -1 <= r < |b|
      ensures r >= 0 ==> b[r] == '\n' && Free(b[..r], '\n')
      ensures r < 0 ==> Free(b, '\n')
    {
      for i := 0 to |b|
        invariant Free(b[..i], '\n')
      {
        if b[i] == '\n' {
          return i;
        }
      }
      assert b[..|b|] == b;
      return -1;
    }
  }

  lemma StartsFresh(k: Sink, s: State, p: string)
    ensures Wrote(k, s, p) == Wrote(k, State("", s.out), s.buf + p)
  {
    assert "" + (s.buf + p) == s.buf + p;
  }

  // ----- any way of cutting the stream

  datatype Op = Write(p: string) | Flush

  function Exec(k: Sink, s: State, ops: seq<Op>): State {
    if ops == [] then s
    else
      var t := Exec(k, s, ops[..|ops| - 1]);
      match ops[|ops| - 1]
      case Write(p) => Wrote(k, t, p)
      case Flush => Flushed(k, t)
  }

  /** The stream that the calls amount to; a flush ends a line as a newline does. */
  function Stream(ops: seq<Op>): string {
    if ops == [] then ""
    else
      Stream(ops[..|ops| - 1]) +
      match ops[|ops| - 1]
      case Write(p) => p
      case Flush => "\n"
  }

  lemma {:induction false} JoinMore(parts: seq<string>, p: string)
    requires parts != [] && AllFree(parts, '\n')
    ensures Split(Join(parts, '\n') + p, '\n') == parts[..|parts| - 1] + Split(parts[|parts| - 1] + p, '\n')
  {
    hide Split, Free;
    if |parts| > 1 {
      var rest := parts[1..];
      assert Join(parts, '\n') + p == parts[0] + ['\n'] + (Join(rest, '\n') + p);
      SplitHead(parts[0], Join(rest, '\n') + p, '\n');
      JoinMore(rest, p);
      assert parts[..|parts| - 1] == [parts[0]] + rest[..|rest| - 1];
    }
  }

  /** Appending to a text appends to its last piece. */
  lemma SplitMore(s: string, p: string)
    ensures var a := Split(s, '\n');
            Split(s + p, '\n') == a[..|a| - 1] + Split(a[|a| - 1] + p, '\n')
  {
    hide Split;
    JoinSplit(s, '\n');
    JoinMore(Split(s, '\n'), p);
  }

  /** Two writes are one write of both texts. */
  lemma WroteTwice(k: Sink, s: State, p: string, q: string)
    ensures Wrote(k, Wrote(k, s, p), q) == Wrote(k, s, p + q)
  {
    hide Split, Logged;
    var a := Split(s.buf + p, '\n');
    var b := Split(a[|a| - 1] + q, '\n');
    SplitMore(s.buf + p, q);
    assert s.buf + p + q == s.buf + (p + q);
    var all := a[..|a| - 1] + b;
    assert all[..|all| - 1] == a[..|a| - 1] + b[..|b| - 1];
    LoggedAppend(k, a[..|a| - 1], b[..|b| - 1]);
  }

  /** On a buffer without newline, a flush does what a newline does. */
  lemma FlushIsNewline(k: Sink, s: State)
    requires Free(s.buf, '\n')
    ensures Flushed(k, s) == Wrote(k, s, "\n")
  {
    hide Logged;
    assert s.buf + "\n" == s.buf + ['\n'] + "";
    SplitHead(s.buf, "", '\n');
    assert Split("", '\n') == [""];
    assert ([s.buf] + [""])[..1] == [s.buf];
  }

  /**
   However a stream is cut into writes and flushes, the state is that of writing
   the whole stream at once, and the buffer holds no newline between calls.
   */
  lemma {:induction false} CutsDoNotMatter(k: Sink, ops: seq<Op>)
    ensures Exec(k, State("", []), ops) == Wrote(k, State("", []), Stream(ops))
    ensures Free(Exec(k, State("", []), ops).buf, '\n')
  {
    hide Wrote, Flushed;
    var none := State("", []);
    PartHasNoNewline(k, none, Stream(ops));
    if ops == [] {
      WrotePart(k, [], "");
    } else {
      var front := ops[..|ops| - 1];
      CutsDoNotMatter(k, front);
      match ops[|ops| - 1]
      case Write(p) => WroteTwice(k, none, Stream(front), p);
      case Flush =>
        FlushIsNewline(k, Exec(k, none, front));
        WroteTwice(k, none, Stream(front), "\n");
    }
  }

  lemma PartHasNoNewline(k: Sink, s: State, p: string)
    ensures Free(Wrote(k, s, p).buf, '\n')
  {
    JoinSplit(s.buf + p, '\n');
  }

  function Writes(chunks: seq<string>): seq<Op> {
    if chunks == [] then [] else Writes(chunks[..|chunks| - 1]) + [Write(chunks[|chunks| - 1])]
  }

  function Concat(chunks: seq<string>): string {
    if chunks == [] then "" else Concat(chunks[..|chunks| - 1]) + chunks[|chunks| - 1]
  }

  lemma {:induction false} StreamOfWrites(chunks: seq<string>)
    ensures Stream(Writes(chunks)) == Concat(chunks)
  {
    if chunks != [] {
      StreamOfWrites(chunks[..|chunks| - 1]);
      assert Writes(chunks)[..|Writes(chunks)| - 1] == Writes(chunks[..|chunks| - 1]);
    }
  }

  /** Lines of the error stream are warnings and the others are not; each bears the prefix and something after it. */
  lemma {:induction false} EntriesMarked(k: Sink, lines: seq<string>, e: Entry)
    requires e in Logged(k, lines)
    ensures e.level == if k.stderr then Warn else Info
    ensures k.prefix <= e.text && |k.prefix| < |e.text|
    ensures exists line :: line in lines && e.text[|k.prefix|..] <= line
  {
    var front, last := lines[..|lines| - 1], lines[|lines| - 1];
    if e in Logged(k, front) {
      EntriesMarked(k, front, e);
      var line :| line in front && e.text[|k.prefix|..] <= line;
      assert line in lines;
    } else {
      assert e.text[|k.prefix|..] == TrimReturns(last);
      assert last in lines && e.text[|k.prefix|..] <= last;
    }
  }

  /**
   A stream written in any chunks and flushed once is logged as its non-empty
   right-trimmed lines, in order.
   */
  lemma LogsTheLines(k: Sink, chunks: seq<string>)
    ensures Exec(k, State("", []), Writes(chunks) + [Flush]) ==
            State("", Logged(k, Split(Concat(chunks), '\n')))
  {
    hide Split, Logged, Writes, Concat;
    var ops, none := Writes(chunks), State("", []);
    assert (ops + [Flush])[..|ops|] == ops;
    CutsDoNotMatter(k, ops);
    StreamOfWrites(chunks);
    assert "" + Concat(chunks) == Concat(chunks);
    var parts := Split(Concat(chunks), '\n');
    LoggedAppend(k, parts[..|parts| - 1], [parts[|parts| - 1]]);
    assert parts == parts[..|parts| - 1] + [parts[|parts| - 1]];
  }
}
