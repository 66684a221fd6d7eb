/** Outcomes of operations that the source reports with an error value. */
module Results {
  datatype Result<+T, +E> = Ok(value: T) | Err(error: E)

  datatype Option<+T> = None | Some(value: T)
}

/**
 The string routines of the source's standard library that the modelled code is
 built on: splitting, joining and trimming. Text is a sequence of code points.
 */
module Text {

  /** The text has no occurrence of the separator. */
  predicate Free(s: string, sep: char) {
    forall i :: 0 <= i < |s| ==> s[i] != sep
  }

  predicate AllFree(parts: seq<string>, sep: char) {
    forall i :: 0 <= i < |parts| ==> Free(parts[i], sep)
  }

  /** Splits at every separator; there is always at least one piece. */
  function Split(s: string, sep: char): (parts: seq<string>)
    ensures |parts| >= 1
  {
    if s == "" then [""]
    else
      var rest := Split(s[1..], sep);
      if s[0] == sep then [""] + rest else [[s[0]] + rest[0]] + rest[1..]
  }

  function Join(parts: seq<string>, sep: char): string {
    if |parts| == 0 then ""
    else if |parts| == 1 then parts[0]
    else parts[0] + [sep] + Join(parts[1..], sep)
  }

  /** A separator-free head up to its separator is the first piece. */
  lemma {:induction false} SplitHead(head: string, rest: string, sep: char)
    requires Free(head, sep)
    ensures Split(head + [sep] + rest, sep) == [head] + Split(rest, sep)
  {
    var s := head + [sep] + rest;
    if head == "" {
      assert s[1..] == rest;
    } else {
      assert s[1..] == head[1..] + [sep] + rest;
      SplitHead(head[1..], rest, sep);
      assert [head[0]] + head[1..] == head;
    }
  }

  lemma {:induction false} SplitWhole(s: string, sep: char)
    requires Free(s, sep)
    ensures Split(s, sep) == [s]
  {
    if s != "" {
      SplitWhole(s[1..], sep);
      assert [s[0]] + s[1..] == s;
    }
  }

  /** Splitting undoes joining of separator-free pieces. */
  lemma {:induction false} SplitJoin(parts: seq<string>, sep: char)
    requires parts != [] && AllFree(parts, sep)
    ensures Split(Join(parts, sep), sep) == parts
  {
    if |parts| == 1 {
      SplitWhole(parts[0], sep);
    } else {
      SplitHead(parts[0], Join(parts[1..], sep), sep);
      SplitJoin(parts[1..], sep);
    }
  }

  /** Joining undoes splitting, and the pieces of a split are separator-free. */
  lemma {:induction false} JoinSplit(s: string, sep: char)
    ensures Join(Split(s, sep), sep) == s
    ensures AllFree(Split(s, sep), sep)
  {
    if s != "" {
      JoinSplit(s[1..], sep);
      var rest := Split(s[1..], sep);
      var parts := Split(s, sep);
      if s[0] == sep {
        assert parts[1..] == rest;
      } else {
        assert parts[1..] == rest[1..];
        if |rest| == 1 {
          assert Join(parts, sep) == parts[0];
        }
      }
    }
  }

  /** Equal joins of separator-free pieces come from equal pieces. */
  lemma JoinInjective(a: seq<string>, b: seq<string>, sep: char)
    requires a != [] && b != [] && AllFree(a, sep) && AllFree(b, sep)
    requires Join(a, sep) == Join(b, sep)
    ensures a == b
  {
    SplitJoin(a, sep);
    SplitJoin(b, sep);
  }

  lemma {:induction false} JoinAppend(a: seq<string>, last: string, sep: char)
    requires a != []
    ensures Join(a + [last], sep) == Join(a, sep) + [sep] + last
  {
    if |a| == 1 {
      assert (a + [last])[1..] == [last];
    } else {
      assert (a + [last])[1..] == a[1..] + [last];
      JoinAppend(a[1..], last, sep);
    }
  }

  /** Unicode white space, as trimmed by the source's standard library. */
  predicate IsSpace(c: char) {
    || 9 as char <= c <= 13 as char
    || c in {' ', 0x85 as char, 0xA0 as char, 0x1680 as char, 0x2028 as char, 0x2029 as char,
             0x202F as char, 0x205F as char, 0x3000 as char}
    || 0x2000 as char <= c <= 0x200A as char
  }

  function TrimLeft(s: string): string {
    if s != "" && IsSpace(s[0]) then TrimLeft(s[1..]) else s
  }

  function TrimRight(s: string): string {
    if s != "" && IsSpace(s[|s| - 1]) then TrimRight(s[..|s| - 1]) else s
  }

  function TrimSpace(s: string): string {
    TrimRight(TrimLeft(s))
  }

  /** Trimming on the right stops at a character that is not white space. */
  lemma {:induction false} TrimRightKeeps(head: string, tail: string)
    requires head != "" && !IsSpace(head[|head| - 1])
    ensures TrimRight(head + tail) == head + TrimRight(tail)
  {
    var s := head + tail;
    if tail == "" {
      assert s == head;
    } else if IsSpace(tail[|tail| - 1]) {
      assert s[..|s| - 1] == head + tail[..|tail| - 1];
      TrimRightKeeps(head, tail[..|tail| - 1]);
    }
  }

  /** The white space characters one by one. */
  lemma SpacesAre(c: char)
    ensures IsSpace(c) <==>
            c as int in {0x09, 0x0A, 0x0B, 0x0C, 0x0D, 0x20, 0x85, 0xA0, 0x1680, 0x2000, 0x2001, 0x2002, 0x2003, 0x2004,
                         0x2005, 0x2006, 0x2007, 0x2008, 0x2009, 0x200A, 0x2028, 0x2029, 0x202F, 0x205F, 0x3000}
  {
  }

  ghost predicate AllSpace(s: string) {
    forall i :: 0 <= i < |s| ==> IsSpace(s[i])
  }

  lemma {:induction false} TrimLeftParts(s: string)
    ensures exists a :: AllSpace(a) && s == a + TrimLeft(s)
    ensures TrimLeft(s) != "" ==> !IsSpace(TrimLeft(s)[0])
  {
    hide IsSpace;
    if s != "" && IsSpace(s[0]) {
      TrimLeftParts(s[1..]);
      var a :| AllSpace(a) && s[1..] == a + TrimLeft(s[1..]);
      assert AllSpace([s[0]] + a) && s == [s[0]] + a + TrimLeft(s);
    } else {
      assert AllSpace("") && s == "" + s;
    }
  }

  lemma {:induction false} TrimRightParts(s: string)
    ensures exists b :: AllSpace(b) && s == TrimRight(s) + b
    ensures TrimRight(s) != "" ==> !IsSpace(TrimRight(s)[|TrimRight(s)| - 1])
  {
    hide IsSpace;
    if s != "" && IsSpace(s[|s| - 1]) {
      var front := s[..|s| - 1];
      TrimRightParts(front);
      var b :| AllSpace(b) && front == TrimRight(front) + b;
      assert AllSpace(b + [s[|s| - 1]]) && s == TrimRight(s) + (b + [s[|s| - 1]]);
    } else {
      assert AllSpace("") && s == s + "";
    }
  }

  /** A text is its trimmed part between white space. */
  lemma TrimParts(s: string) returns (a: string, b: string)
    ensures AllSpace(a) && AllSpace(b) && s == a + TrimSpace(s) + b
  {
    hide TrimLeft, TrimRight, AllSpace;
    TrimLeftParts(s);
    TrimRightParts(TrimLeft(s));
    a :| AllSpace(a) && s == a + TrimLeft(s);
    b :| AllSpace(b) && TrimLeft(s) == TrimRight(TrimLeft(s)) + b;
    assert s == a + (TrimSpace(s) + b);
  }

  lemma {:induction false} TrimLeftPadded(a: string, rest: string)
    requires AllSpace(a) && (rest != "" ==> !IsSpace(rest[0]))
    ensures TrimLeft(a + rest) == rest
  {
    hide IsSpace;
    if a == "" {
      assert a + rest == rest;
    } else {
      assert (a + rest)[1..] == a[1..] + rest;
      TrimLeftPadded(a[1..], rest);
    }
  }

  lemma {:induction false} TrimBlank(b: string)
    requires AllSpace(b)
    ensures TrimRight(b) == "" && TrimSpace(b) == ""
  {
    hide IsSpace;
    if b != "" {
      TrimBlank(b[..|b| - 1]);
    }
    assert b + "" == b;
    TrimLeftPadded(b, "");
  }

  /** White space round a word that neither starts nor ends with any is trimmed off. */
  lemma TrimPadded(a: string, w: string, b: string)
    requires AllSpace(a) && AllSpace(b) && w != "" && !IsSpace(w[0]) && !IsSpace(w[|w| - 1])
    ensures TrimSpace(a + w + b) == w
  {
    hide IsSpace, TrimLeft, TrimRight, AllSpace;
    assert a + w + b == a + (w + b);
    TrimLeftPadded(a, w + b);
    TrimRightKeeps(w, b);
    TrimBlank(b);
  }

  /** The position of the first occurrence, or -1. */
  function Index(s: string, c: char): (i: int)
    ensures -1 <= i < |s|
    ensures i >= 0 ==> s[i] == c && Free(s[..i], c)
    ensures i < 0 ==> Free(s, c)
  {
    if s == "" then -1
    else if s[0] == c then 0
    else
      var i := Index(s[1..], c);
      if i < 0 then -1 else i + 1
  }

  lemma {:induction false} IndexOf(head: string, c: char, tail: string)
    requires Free(head, c)
    ensures Index(head + [c] + tail, c) == |head|
  {
    var s := head + [c] + tail;
    if head != "" {
      assert s[1..] == head[1..] + [c] + tail;
      IndexOf(head[1..], c, tail);
    }
  }
}

/** Decimal printing and the 64-bit decimal parser of the source's library. */
module Decimal {
  import opened Results

  const INT64_MAX: int := 0x7FFF_FFFF_FFFF_FFFF
  const INT64_MIN: int := -0x8000_0000_0000_0000

  /** Two's-complement reduction of an integer to 64 bits. */
  function Wrap64(n: int): (r: int)
    ensures INT64_MIN <= r <= INT64_MAX
    ensures (r - n) % 0x1_0000_0000_0000_0000 == 0
    ensures INT64_MIN <= n <= INT64_MAX ==> r == n
  {
    (n + 0x8000_0000_0000_0000) % 0x1_0000_0000_0000_0000 - 0x8000_0000_0000_0000
  }

  predicate IsDigit(c: char) { '0' <= c <= '9' }

  predicate AllDigits(s: string) {
    forall i :: 0 <= i < |s| ==> IsDigit(s[i])
  }

  function Digit(d: nat): char
    requires d < 10
  {
    '0' + d as char
  }

  function PrintNat(n: nat): string {
    if n < 10 then [Digit(n)] else PrintNat(n / 10) + [Digit(n % 10)]
  }

  function Print(n: int): string {
    if n < 0 then "-" + PrintNat(-n) else PrintNat(n)
  }

  function Value(s: string): nat
    requires AllDigits(s)
  {
    if s == "" then 0 else Value(s[..|s| - 1]) * 10 + (s[|s| - 1] - '0') as nat
  }

  /** Optional sign, at least one digit, and a value that fits 64 bits. */
  function ParseInt64(s: string): Option<int> {
    var signed := s != "" && s[0] in {'+', '-'};
    var digits := if signed then s[1..] else s;
    if digits == "" || !AllDigits(digits) then None
    else
      var n: int := if signed && s[0] == '-' then -(Value(digits) as int) else Value(digits) as int;
      if INT64_MIN <= n <= INT64_MAX then Some(n) else None
  }

  lemma {:induction false} PrintNatValue(n: nat)
    ensures PrintNat(n) != "" && AllDigits(PrintNat(n)) && Value(PrintNat(n)) == n
  {
    if n < 10 {
      assert PrintNat(n)[..0] == "";
    } else {
      PrintNatValue(n / 10);
      var p := PrintNat(n);
      assert p[..|p| - 1] == PrintNat(n / 10);
    }
  }

  lemma ParseDigits(s: string)
    requires s != "" && AllDigits(s) && Value(s) <= INT64_MAX
    ensures ParseInt64(s) == Some(Value(s))
  {
    assert IsDigit(s[0]);
  }

  /** Digits may have either sign; a value outside 64 bits is refused. */
  lemma ParseSigned(digits: string)
    requires digits != "" && AllDigits(digits)
    ensures ParseInt64("+" + digits) == ParseInt64(digits) == if Value(digits) <= INT64_MAX then Some(Value(digits)) else None
    ensures ParseInt64("-" + digits) == if -(Value(digits) as int) >= INT64_MIN then Some(-(Value(digits) as int)) else None
  {
    assert ("+" + digits)[1..] == digits && ("-" + digits)[1..] == digits;
    assert IsDigit(digits[0]);
  }

  /** Nothing else is a number. */
  lemma ParseRefuses(s: string)
    requires ParseInt64(s).Some?
    ensures exists digits :: digits != "" && AllDigits(digits) && (s == digits || s == "+" + digits || s == "-" + digits)
  {
    var digits := if s[0] in {'+', '-'} then s[1..] else s;
    assert digits != "" && AllDigits(digits);
    assert s == digits || s == [s[0]] + digits;
  }

  /** Parsing undoes printing, for every 64-bit value. */
  lemma ParsePrint(n: int)
    requires INT64_MIN <= n <= INT64_MAX
    ensures ParseInt64(Print(n)) == Some(n)
  {
    if n < 0 {
      PrintNatValue(-n);
      assert Print(n)[1..] == PrintNat(-n);
    } else {
      PrintNatValue(n);
      ParseDigits(PrintNat(n));
    }
  }

  lemma PrintNatFree(n: nat, c: char)
    requires !IsDigit(c)
    ensures PrintNat(n) != "" && AllDigits(PrintNat(n))
    ensures c !in PrintNat(n)
  {
    PrintNatValue(n);
  }
}
