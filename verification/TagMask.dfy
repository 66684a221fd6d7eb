/**
 Log tags: each registered name gets the next bit of a 64-bit word, and two
 words of such bits select which tagged messages are logged.
 */
module TagMask {
  import opened Results
  import opened Text

  // ----- the bits

  /** The words have a bit in common. */
  predicate Meets(a: bv64, b: bv64) {
    Both(a, b) != 0
  }

  function Both(a: bv64, b: bv64): bv64 {
    a & b
  }

  function Either(u: bv64, v: bv64): bv64 {
    u | v
  }

  function Shifted(x: bv64): bv64 {
    x << 1
  }

  /** The tag of the i-th registration (counting from one): the bit 1 shifted i times. */
  function Bit(i: nat): bv64 {
    if i == 0 then 1 else Shifted(Bit(i - 1))
  }

  lemma ShiftedMeet(x: bv64, y: bv64)
    ensures Meets(Shifted(x), Shifted(y)) ==> Meets(x, y)
  {
  }

  lemma ShiftedOdd(x: bv64)
    ensures !Meets(1, Shifted(x))
  {
  }

  lemma {:induction false} BitsApart(i: nat, j: nat)
    requires i < j
    ensures !Meets(Bit(i), Bit(j))
  {
    hide Meets, Shifted;
    if i == 0 {
      ShiftedOdd(Bit(j - 1));
    } else {
      BitsApart(i - 1, j - 1);
      ShiftedMeet(Bit(i - 1), Bit(j - 1));
    }
  }

  lemma Shifts(x: bv64)
    ensures (x << 1) << 1 == x << 2 && (x << 2) << 2 == x << 4 && (x << 4) << 4 == x << 8
  {
  }

  lemma OneMore(i: nat)
    ensures Bit(i + 1) == Bit(i) << 1
  {
  }

  lemma TwoMore(i: nat)
    ensures Bit(i + 2) == Bit(i) << 2
  {
    hide Bit;
    OneMore(i);
    OneMore(i + 1);
    Shifts(Bit(i));
  }

  lemma EightMore(i: nat)
    ensures Bit(i + 8) == Bit(i) << 8
  {
    hide Bit;
    TwoMore(i);
    TwoMore(i + 2);
    TwoMore(i + 4);
    TwoMore(i + 6);
    Shifts(Bit(i));
    Shifts(Bit(i + 4));
  }

  lemma TopBit()
    ensures Bit(63) == 0x8000_0000_0000_0000 && Bit(64) == 0
  {
    EightMore(0);
    EightMore(8);
    EightMore(16);
    EightMore(24);
    EightMore(32);
    EightMore(40);
    EightMore(48);
    EightMore(56);
    LastBit();
  }

  lemma LastBit()
    requires Bit(56) == 0x0100_0000_0000_0000
    ensures Bit(63) == 0x8000_0000_0000_0000
  {
    assert Bit(57) == 0x0200_0000_0000_0000;
    assert Bit(58) == 0x0400_0000_0000_0000;
    assert Bit(59) == 0x0800_0000_0000_0000;
    assert Bit(60) == 0x1000_0000_0000_0000;
    assert Bit(61) == 0x2000_0000_0000_0000;
    assert Bit(62) == 0x4000_0000_0000_0000;
  }

  lemma {:induction false} ZeroStays(i: nat, j: nat)
    requires i <= j && Bit(i) == 0
    ensures Bit(j) == 0
  {
    if i < j {
      ZeroStays(i, j - 1);
    }
  }

  /** A registration gets a bit of its own exactly when it is one of the first 63. */
  lemma BitExists(i: nat)
    ensures Bit(i) != 0 <==> i <= 63
  {
    TopBit();
    if i <= 63 {
      if Bit(i) == 0 {
        ZeroStays(i, 63);
      }
    } else {
      ZeroStays(64, i);
    }
  }

  // ----- the registry

  datatype State = State(lastTag: bv64, numTags: int, registry: map<string, bv64>, filter: bv64, blocked: bv64)

  const START := State(1, 0, map[], 0, 0)

  /** The names of the list up to the first unknown one. */
  function Known(registry: map<string, bv64>, names: seq<string>): (r: seq<string>)
    ensures forall x :: x in r ==> x in registry
    ensures r <= names && (|r| < |names| ==> names[|r|] !in registry)
  {
    if names == [] || names[0] !in registry then [] else [names[0]] + Known(registry, names[1..])
  }

  /** All the tags of the names in one word. */
  function Union(registry: map<string, bv64>, names: seq<string>): bv64
    requires forall x :: x in names ==> x in registry
  {
    if names == [] then 0
    else Either(Union(registry, names[..|names| - 1]), registry[names[|names| - 1]])
  }

  /** The word set from a comma-separated list; the empty list sets nothing. */
  function WordFrom(registry: map<string, bv64>, word: bv64, list: string): bv64 {
    if list == "" then word else Union(registry, Known(registry, Split(list, ',')))
  }

  datatype Op = Register(name: string) | SetAllow(list: string) | SetBlock(list: string)

  function Apply(s: State, op: Op): State {
    match op
    case Register(name) =>
      if s.numTags > 64 || name in s.registry then s
      else
        var tag := Shifted(s.lastTag);
        s.(lastTag := tag, numTags := s.numTags + 1, registry := s.registry[name := tag])
    case SetAllow(list) => s.(filter := WordFrom(s.registry, s.filter, list))
    case SetBlock(list) => s.(blocked := WordFrom(s.registry, s.blocked, list))
  }

  /** What the test before a tagged message amounts to. */
  predicate Passes(s: State, tag: bv64) {
    (s.filter == 0 || Meets(tag, s.filter)) && !Meets(tag, s.blocked)
  }

  lemma TestMeets(tag: bv64, filter: bv64)
    ensures (filter > 0 && tag & filter > 0) || filter == 0 <==> filter == 0 || Meets(tag, filter)
    ensures tag & filter == 0 <==> !Meets(tag, filter)
  {
  }

  class Tags {
    var lastTag: bv64
    var numTags: int
    var registry: map<string, bv64>
    var tagFilter: bv64
    var tagBlockFilter: bv64

    function Value(): State
      reads this
    {
      State(lastTag, numTags, registry, tagFilter, tagBlockFilter)
    }

    constructor ()
      ensures Value() == START
    {
      lastTag, numTags, registry := 1, 0, map[];
      tagFilter, tagBlockFilter := 0, 0;
    }

    /** The tag of the logger; no tag stands for the panic on too many tags. */
    method GetTaggedLogger(name: string) returns (tag: Option<bv64>)
      modifies this
      ensures Value() == Apply(old(Value()), Register(name))
      ensures tag == if old(numTags) > 64 then None else Some(registry[name])
    {
      if numTags > 64 {
        return None;
      }
      if name in registry {
        return Some(registry[name]);
      }
      lastTag := lastTag << 1;
      registry := registry[name := lastTag];
      numTags := numTags + 1;
      return Some(lastTag);
    }

    method SetTagFilterFromString(list: string) returns (err: Option<string>)
      modifies this`tagFilter
      ensures Value() == Apply(old(Value()), SetAllow(list))
      ensures list == "" ==> err == None
      ensures list != "" ==> err == FirstUnknown(registry, Split(list, ','))
    {
      if |list| == 0 {
        return None;
      }
      tagFilter, err := Collect(Split(list, ','));
    }

    method SetTagBlockFilterFromString(list: string) returns (err: Option<string>)
      modifies this`tagBlockFilter
      ensures Value() == Apply(old(Value()), SetBlock(list))
      ensures list == "" ==> err == None
      ensures list != "" ==> err == FirstUnknown(registry, Split(list, ','))
    {
      if |list| == 0 {
        return None;
      }
      tagBlockFilter, err := Collect(Split(list, ','));
    }

    /** The loop of both: it stops at the first unknown name and keeps what it has. */
    method Collect(names: seq<string>) returns (word: bv64, err: Option<string>)
      ensures word == Union(registry, Known(registry, names)) && err == FirstUnknown(registry, names)
    {
      word := 0;
      for i := 0 to |names|
        invariant forall x :: x in names[..i] ==> x in registry
        invariant word == Union(registry, names[..i])
      {
        if names[i] !in registry {
          KnownUpTo(registry, names, i);
          return word, Some(names[i]);
        }
        assert names[..i + 1][..i] == names[..i];
        word := word | registry[names[i]];
      }
      KnownUpTo(registry, names, |names|);
      return word, None;
    }

    /** Whether a message under the tag is logged. */
    method Debugf(tag: bv64) returns (logs: bool)
      ensures logs == Passes(Value(), tag)
    {
      hide Meets;
      TestMeets(tag, tagFilter);
      TestMeets(tag, tagBlockFilter);
      if (tagFilter > 0 && tag & tagFilter > 0) || tagFilter == 0 {
        if tag & tagBlockFilter == 0 {
          return true;
        }
      }
      return false;
    }
  }

  function FirstUnknown(registry: map<string, bv64>, names: seq<string>): Option<string> {
    var n := |Known(registry, names)|;
    if n < |names| then Some(names[n]) else None
  }

  lemma {:induction false} KnownUpTo(registry: map<string, bv64>, names: seq<string>, k: nat)
    requires k <= |names| && (forall x :: x in names[..k] ==> x in registry)
    requires k < |names| ==> names[k] !in registry
    ensures Known(registry, names) == names[..k]
  {
    if k > 0 {
      assert names[..k][0] in registry;
      assert forall x :: x in names[1..][..k - 1] ==> x in names[..k];
      KnownUpTo(registry, names[1..], k - 1);
    }
  }

  // ----- runs

  function Exec(ops: seq<Op>): State {
    if ops == [] then START else Apply(Exec(ops[..|ops| - 1]), ops[|ops| - 1])
  }

  /** The registered names, oldest first; a full registry takes no more. */
  function Names(ops: seq<Op>): (names: seq<string>)
    ensures |names| <= 65
  {
    if ops == [] then []
    else
      var names, op := Names(ops[..|ops| - 1]), ops[|ops| - 1];
      if op.Register? && op.name !in names && |names| <= 64 then names + [op.name] else names
  }

  /** The names of the list that count: those before the first one not yet registered. */
  function Chosen(names: seq<string>, list: seq<string>): (r: seq<string>)
    ensures forall x :: x in r ==> x in names
  {
    if list == [] || list[0] !in names then [] else [list[0]] + Chosen(names, list[1..])
  }

  /** The names on the allow list in force; none means that it was never set to any. */
  function Allowed(ops: seq<Op>): seq<string> {
    if ops == [] then []
    else
      var before, op := ops[..|ops| - 1], ops[|ops| - 1];
      if op.SetAllow? && op.list != "" then Chosen(Names(before), Split(op.list, ',')) else Allowed(before)
  }

  function Blocked(ops: seq<Op>): seq<string> {
    if ops == [] then []
    else
      var before, op := ops[..|ops| - 1], ops[|ops| - 1];
      if op.SetBlock? && op.list != "" then Chosen(Names(before), Split(op.list, ',')) else Blocked(before)
  }

  /** The registry numbers the names by bits. */
  ghost predicate Numbered(registry: map<string, bv64>, names: seq<string>) {
    && (forall x :: x in registry <==> x in names)
    && (forall i :: 0 <= i < |names| ==> registry[names[i]] == Bit(i + 1))
    && (forall i, j :: 0 <= i < j < |names| ==> names[i] != names[j])
  }

  ghost predicate Inv(s: State, names: seq<string>, allowed: seq<string>, blocked: seq<string>) {
    && Numbered(s.registry, names) && s.lastTag == Bit(|names|) && s.numTags == |names|
    && (forall x :: x in allowed ==> x in s.registry) && s.filter == Union(s.registry, allowed)
    && (forall x :: x in blocked ==> x in s.registry) && s.blocked == Union(s.registry, blocked)
  }

  lemma {:induction false} UnionGrows(registry: map<string, bv64>, names: seq<string>, x: string, tag: bv64)
    requires x !in registry && forall y :: y in names ==> y in registry
    ensures Union(registry[x := tag], names) == Union(registry, names)
  {
    if names != [] {
      UnionGrows(registry, names[..|names| - 1], x, tag);
    }
  }

  lemma {:induction false} ChosenKnown(registry: map<string, bv64>, names: seq<string>, list: seq<string>)
    requires forall x :: x in registry <==> x in names
    ensures Chosen(names, list) == Known(registry, list)
  {
    if list != [] {
      ChosenKnown(registry, names, list[1..]);
    }
  }

  lemma NumberedGrows(registry: map<string, bv64>, names: seq<string>, x: string)
    requires Numbered(registry, names) && x !in names
    ensures Numbered(registry[x := Bit(|names| + 1)], names + [x])
  {
    hide Bit;
  }

  lemma InvRegister(s: State, op: Op, names: seq<string>, allowed: seq<string>, blocked: seq<string>)
    requires Inv(s, names, allowed, blocked) && op.Register?
    ensures Inv(Apply(s, op), if op.name !in names && |names| <= 64 then names + [op.name] else names, allowed, blocked)
  {
    hide Numbered, Bit, Union, Shifted;
    var name := op.name;
    NumberedKeys(s.registry, names);
    if name !in names && |names| <= 64 {
      NextBit(|names|);
      NumberedGrows(s.registry, names, name);
      UnionGrows(s.registry, allowed, name, Bit(|names| + 1));
      UnionGrows(s.registry, blocked, name, Bit(|names| + 1));
    }
  }

  lemma NextBit(i: nat)
    ensures Bit(i + 1) == Shifted(Bit(i))
  {
  }

  lemma InvSet(s: State, op: Op, names: seq<string>, allowed: seq<string>, blocked: seq<string>)
    requires Inv(s, names, allowed, blocked) && !op.Register? && op.list != ""
    ensures var chosen := Chosen(names, Split(op.list, ','));
            Inv(Apply(s, op), names, if op.SetAllow? then chosen else allowed, if op.SetBlock? then chosen else blocked)
  {
    hide Numbered, Bit, Union, Split, Chosen, Known;
    NumberedKeys(s.registry, names);
    ChosenKnown(s.registry, names, Split(op.list, ','));
  }

  lemma InvStep(s: State, op: Op, names: seq<string>, allowed: seq<string>, blocked: seq<string>)
    requires Inv(s, names, allowed, blocked)
    ensures Inv(Apply(s, op),
                if op.Register? && op.name !in names && |names| <= 64 then names + [op.name] else names,
                if op.SetAllow? && op.list != "" then Chosen(names, Split(op.list, ',')) else allowed,
                if op.SetBlock? && op.list != "" then Chosen(names, Split(op.list, ',')) else blocked)
  {
    hide Inv, Split, Chosen, Union, Known;
    if op.Register? {
      InvRegister(s, op, names, allowed, blocked);
    } else if op.list != "" {
      InvSet(s, op, names, allowed, blocked);
    }
  }

  lemma NumberedKeys(registry: map<string, bv64>, names: seq<string>)
    requires Numbered(registry, names)
    ensures forall x :: x in registry <==> x in names
  {
  }

  lemma {:induction false} InvAlways(ops: seq<Op>)
    ensures Inv(Exec(ops), Names(ops), Allowed(ops), Blocked(ops))
  {
    if ops != [] {
      hide Inv, Apply, Split, Chosen;
      var before := ops[..|ops| - 1];
      InvAlways(before);
      InvStep(Exec(before), ops[|ops| - 1], Names(before), Allowed(before), Blocked(before));
    }
  }

  // ----- what the words select

  lemma Distributes(a: bv64, u: bv64, v: bv64)
    ensures Both(a, Either(u, v)) == Either(Both(a, u), Both(a, v))
  {
    calc {
      Both(a, Either(u, v));
      a & Either(u, v);
      a & (u | v);
      (a & u) | (a & v);
      Either(a & u, a & v);
      Either(Both(a, u), Both(a, v));
    }
  }

  lemma MeetsEither(a: bv64, u: bv64, v: bv64)
    ensures Meets(a, Either(u, v)) <==> Meets(a, u) || Meets(a, v)
  {
    hide Both, Either;
    Distributes(a, u, v);
    EitherBit(Both(a, u), Both(a, v));
  }

  lemma MeetsItself(a: bv64)
    ensures (Meets(a, a) <==> a != 0) && !Meets(a, 0)
  {
  }

  lemma MeetsBack(a: bv64, b: bv64)
    ensures Meets(a, b) <==> Meets(b, a)
  {
  }

  lemma EitherBit(u: bv64, v: bv64)
    ensures Either(u, v) != 0 <==> u != 0 || v != 0
  {
  }

  /** Two tags have a bit in common exactly when they are the same and there is such a bit. */
  lemma TagsMeet(i: nat, j: nat)
    ensures Meets(Bit(i), Bit(j)) <==> i == j && i <= 63
  {
    hide Bit, Meets;
    BitExists(i);
    if i < j {
      BitsApart(i, j);
    } else if j < i {
      BitsApart(j, i);
      MeetsBack(Bit(i), Bit(j));
    } else {
      MeetsItself(Bit(i));
    }
  }

  /** A tag meets the word of a list exactly when its name is on it and it has a bit. */
  lemma {:induction false} InUnion(registry: map<string, bv64>, names: seq<string>, list: seq<string>, i: nat)
    requires Numbered(registry, names) && i < |names| && forall x :: x in list ==> x in registry
    ensures Meets(Bit(i + 1), Union(registry, list)) <==> names[i] in list && i < 63
  {
    hide Bit, Meets, Either;
    MeetsItself(Bit(i + 1));
    if list != [] {
      var front, last := list[..|list| - 1], list[|list| - 1];
      assert list == front + [last];
      InUnion(registry, names, front, i);
      MeetsEither(Bit(i + 1), Union(registry, front), registry[last]);
      var k :| 0 <= k < |names| && names[k] == last;
      TagsMeet(i + 1, k + 1);
    }
  }

  /** The names that have a bit: the first 63. */
  predicate HasBit(names: seq<string>, x: string) {
    exists i :: 0 <= i < |names| && i < 63 && names[i] == x
  }

  lemma {:induction false} UnionEmpty(registry: map<string, bv64>, names: seq<string>, list: seq<string>)
    requires Numbered(registry, names) && forall x :: x in list ==> x in registry
    ensures Union(registry, list) != 0 <==> exists x :: x in list && HasBit(names, x)
  {
    hide Bit, Either;
    if list != [] {
      var front, last := list[..|list| - 1], list[|list| - 1];
      assert list == front + [last];
      UnionEmpty(registry, names, front);
      EitherBit(Union(registry, front), registry[last]);
      var k :| 0 <= k < |names| && names[k] == last;
      BitExists(k + 1);
      assert HasBit(names, last) <==> k < 63;
    }
  }

  /**
   Over every run of registrations and filter settings, also past the 63 names
   that have bits and after lists with unknown names: a message passes exactly
   when no allowed name has a bit or its own is allowed and has one, and it is not
   a blocked name with a bit.
   */
  lemma PassesExactly(ops: seq<Op>, i: nat)
    requires i < |Names(ops)|
    ensures var s, name := Exec(ops), Names(ops)[i];
            && name in s.registry
            && (Passes(s, s.registry[name]) <==>
                && ((forall x :: x in Allowed(ops) ==> !HasBit(Names(ops), x)) || (i < 63 && name in Allowed(ops)))
                && !(i < 63 && name in Blocked(ops)))
  {
    hide Bit, Exec, Names, Allowed, Blocked, Union, HasBit, Meets;
    InvAlways(ops);
    var s, names := Exec(ops), Names(ops);
    InUnion(s.registry, names, Allowed(ops), i);
    InUnion(s.registry, names, Blocked(ops), i);
    UnionEmpty(s.registry, names, Allowed(ops));
  }

  /**
   With at most 63 names, a message passes exactly when its name is on the allow
   list, or that list is empty, and not on the block list.
   */
  lemma PassesByName(ops: seq<Op>, name: string)
    requires |Names(ops)| <= 63 && name in Names(ops)
    ensures var s := Exec(ops);
            && name in s.registry
            && (Passes(s, s.registry[name]) <==>
                (Allowed(ops) == [] || name in Allowed(ops)) && name !in Blocked(ops))
  {
    hide Exec, Names, Allowed, Blocked, Passes;
    var names := Names(ops);
    var i :| 0 <= i < |names| && names[i] == name;
    PassesExactly(ops, i);
    AllowedHaveBits(ops);
  }

  lemma AllowedHaveBits(ops: seq<Op>)
    requires |Names(ops)| <= 63
    ensures forall x :: x in Allowed(ops) ==> HasBit(Names(ops), x)
    ensures Allowed(ops) != [] ==> HasBit(Names(ops), Allowed(ops)[0])
  {
    hide Exec, Names, Allowed, Blocked, Bit, Union;
    InvAlways(ops);
    var names := Names(ops);
    forall x | x in Allowed(ops) ensures HasBit(names, x) {
      var i :| 0 <= i < |names| && names[i] == x;
    }
    assert Allowed(ops) != [] ==> Allowed(ops)[0] in Allowed(ops);
  }

  /** The registered names have a bit each, all different, exactly when there are at most 63 of them. */
  lemma TagsDistinct(ops: seq<Op>)
    ensures forall i :: 0 <= i < |Names(ops)| ==>
              Names(ops)[i] in Exec(ops).registry && Exec(ops).registry[Names(ops)[i]] == Bit(i + 1)
    ensures var names, tags := Names(ops), Exec(ops).registry;
            |names| <= 63 <==>
            forall i, j :: 0 <= i < |names| && 0 <= j < |names| ==> (Meets(tags[names[i]], tags[names[j]]) <==> i == j)
  {
    hide Bit, Exec, Names, Union, Meets;
    InvAlways(ops);
    var names, tags := Names(ops), Exec(ops).registry;
    forall i, j | 0 <= i < |names| && 0 <= j < |names|
      ensures Meets(tags[names[i]], tags[names[j]]) <==> i == j && i < 63
    {
      TagsMeet(i + 1, j + 1);
    }
    if |names| > 63 {
      assert !Meets(tags[names[63]], tags[names[63]]);
    }
  }

  // ----- the first name without a bit

  /** Single letters, all different, none of them the comma. */
  function Letter(i: nat): string
    requires i < 64
  {
    [('A' as int + i) as char]
  }

  function Registrations(n: nat): (ops: seq<Op>)
    requires n <= 64
    ensures |ops| == n
  {
    if n == 0 then [] else Registrations(n - 1) + [Register(Letter(n - 1))]
  }

  lemma {:induction false} RegisteredLetters(n: nat)
    requires n <= 64
    ensures |Names(Registrations(n))| == n && forall i :: 0 <= i < n ==> Names(Registrations(n))[i] == Letter(i)
    ensures Allowed(Registrations(n)) == []
  {
    if n > 0 {
      hide Names, Allowed, Letter;
      RegisteredLetters(n - 1);
      NewLetter(Names(Registrations(n - 1)), n - 1);
      RegisterLast(Registrations(n - 1), Letter(n - 1));
    } else {
      assert Registrations(0) == [];
    }
  }

  lemma NewLetter(names: seq<string>, n: nat)
    requires n < 64 && |names| == n && forall i :: 0 <= i < n ==> names[i] == Letter(i)
    ensures Letter(n) !in names
  {
    assert forall i :: 0 <= i < n ==> names[i][0] != Letter(n)[0];
  }

  lemma RegisterLast(ops: seq<Op>, name: string)
    requires name !in Names(ops) && |Names(ops)| <= 64
    ensures var more := ops + [Register(name)];
            Names(more) == Names(ops) + [name] && Allowed(more) == Allowed(ops)
  {
    assert (ops + [Register(name)])[..|ops|] == ops;
  }

  lemma BlocksLetter(names: seq<string>, x: string)
    requires x in names
    ensures Chosen(names, [x]) == [x]
  {
    assert Chosen(names, [x][1..]) == [];
  }

  /** After 64 registrations, blocking the 64th name has no effect: its messages pass. */
  lemma LastNameIsNotBlocked() returns (ops: seq<Op>)
    ensures |Names(ops)| == 64 && Blocked(ops) == [Names(ops)[63]]
    ensures var s := Exec(ops); Names(ops)[63] in s.registry && Passes(s, s.registry[Names(ops)[63]])
  {
    hide Names, Allowed, Blocked, Split, Chosen, Passes, Registrations;
    var first, last := Registrations(64), Letter(63);
    RegisteredLetters(64);
    ops := first + [SetBlock(last)];
    SetBlockLast(first, last);
    assert Names(first)[63] in Names(first);
    SplitWhole(last, ',');
    BlocksLetter(Names(first), last);
    PassesExactly(ops, 63);
  }

  lemma SetBlockLast(ops: seq<Op>, list: string)
    requires list != ""
    ensures var more := ops + [SetBlock(list)];
            && Names(more) == Names(ops) && Allowed(more) == Allowed(ops)
            && Blocked(more) == Chosen(Names(ops), Split(list, ','))
  {
    hide Split, Chosen;
    assert (ops + [SetBlock(list)])[..|ops|] == ops;
  }
}
