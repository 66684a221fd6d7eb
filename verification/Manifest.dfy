/** Strings in the order the source sorts them, and the sorted listing of a set of names. */
module Names {

  predicate Less(a: string, b: string) {
    b != "" && (a == "" || a[0] < b[0] || (a[0] == b[0] && Less(a[1..], b[1..])))
  }

  lemma {:induction false} LessTotal(a: string, b: string)
    ensures !(Less(a, b) && Less(b, a))
    ensures Less(a, b) || Less(b, a) || a == b
    ensures a == b ==> !Less(a, b)
  {
    if a != "" && b != "" {
      LessTotal(a[1..], b[1..]);
      if a[0] == b[0] && a[1..] == b[1..] {
        assert a == [a[0]] + a[1..] && b == [b[0]] + b[1..];
      }
    }
  }

  lemma {:induction false} LessTransitive(a: string, b: string, c: string)
    requires Less(a, b) && Less(b, c)
    ensures Less(a, c)
  {
    if a != "" && a[0] == b[0] && b[0] == c[0] {
      LessTransitive(a[1..], b[1..], c[1..]);
    }
  }

  ghost predicate Ascending(names: seq<string>) {
    forall i, j :: 0 <= i < j < |names| ==> Less(names[i], names[j])
  }

  /** The names of a set in ascending order, each once. */
  ghost predicate Lists(names: seq<string>, keys: set<string>) {
    Ascending(names) && forall x :: x in names <==> x in keys
  }

  /** Puts a new name in its place. */
  function Insert(names: seq<string>, x: string): (r: seq<string>)
    ensures multiset(r) == multiset(names) + multiset{x}
  {
    if names == [] || Less(names[|names| - 1], x) then names + [x]
    else
      var n := |names| - 1;
      assert names == names[..n] + [names[n]];
      Insert(names[..n], x) + [names[n]]
  }

  lemma InsertIn(names: seq<string>, x: string, y: string)
    ensures y in Insert(names, x) <==> y in names || y == x
  {
    assert y in Insert(names, x) <==> y in multiset(Insert(names, x));
    assert y in names <==> y in multiset(names);
  }

  lemma {:induction false} InsertAscends(names: seq<string>, x: string)
    requires Ascending(names) && x !in names
    ensures Ascending(Insert(names, x))
  {
    if names != [] {
      var n := |names| - 1;
      var r := Insert(names, x);
      if Less(names[n], x) {
        forall i | 0 <= i < |names| ensures Less(names[i], x) {
          if i < n {
            LessTransitive(names[i], names[n], x);
          }
        }
      } else {
        LessTotal(names[n], x);
        var front := Insert(names[..n], x);
        InsertAscends(names[..n], x);
        forall i | 0 <= i < |front| ensures Less(front[i], names[n]) {
          InsertIn(names[..n], x, front[i]);
          assert front[i] in front;
        }
        assert r == front + [names[n]];
      }
    }
  }

  ghost predicate Distinct(names: seq<string>) {
    forall i, j :: 0 <= i < j < |names| ==> names[i] != names[j]
  }

  lemma SameMembers(a: seq<string>, b: seq<string>, x: string)
    requires multiset(a) == multiset(b)
    ensures x in a <==> x in b
  {
    assert x in a <==> x in multiset(a);
    assert x in b <==> x in multiset(b);
  }

  lemma InsertNext(r: seq<string>, done: seq<string>, x: string)
    requires multiset(r) == multiset(done)
    ensures Ascending(r) && x !in done ==> Ascending(Insert(r, x))
  {
    SameMembers(r, done, x);
    if Ascending(r) && x !in done {
      InsertAscends(r, x);
    }
  }

  lemma LastIsGreatest(x: seq<string>, y: seq<string>, keys: set<string>)
    requires Lists(x, keys) && Lists(y, keys) && x != [] && y != []
    ensures x[|x| - 1] == y[|y| - 1]
  {
    var a, b := x[|x| - 1], y[|y| - 1];
    LessTotal(a, b);
    assert a in y && b in x;
  }

  lemma ListsFront(x: seq<string>, keys: set<string>)
    requires Lists(x, keys) && x != []
    ensures Lists(x[..|x| - 1], keys - {x[|x| - 1]})
  {
    var n := |x| - 1;
    assert x == x[..n] + [x[n]];
    forall i | 0 <= i < n ensures x[i] != x[n] {
      LessTotal(x[i], x[n]);
    }
  }

  /** A set of names has one ascending listing. */
  lemma {:induction false} ListingUnique(x: seq<string>, y: seq<string>, keys: set<string>)
    requires Lists(x, keys) && Lists(y, keys)
    ensures x == y
    decreases |x|
  {
    hide Lists;
    BothEmpty(x, y, keys);
    if x != [] {
      var n := |x| - 1;
      LastIsGreatest(x, y, keys);
      ListsFront(x, keys);
      ListsFront(y, keys);
      ListingUnique(x[..n], y[..|y| - 1], keys - {x[n]});
      assert x == x[..n] + [x[n]] && y == y[..|y| - 1] + [y[|y| - 1]];
    }
  }

  lemma BothEmpty(x: seq<string>, y: seq<string>, keys: set<string>)
    requires Lists(x, keys) && Lists(y, keys)
    ensures x == [] <==> y == []
  {
    assert x != [] ==> x[0] in y;
    assert y != [] ==> y[0] in x;
  }

  lemma InsertLists(names: seq<string>, keys: set<string>, x: string)
    requires Lists(names, keys) && x !in keys
    ensures Lists(Insert(names, x), keys + {x})
  {
    InsertAscends(names, x);
    forall y ensures y in Insert(names, x) <==> y in keys + {x} {
      InsertIn(names, x, y);
    }
  }

  /** The ascending listing. */
  ghost function Listing(keys: set<string>): (names: seq<string>)
    ensures Lists(names, keys)
  {
    ListingExists(keys);
    var names :| Lists(names, keys);
    names
  }

  lemma ListingExists(keys: set<string>)
    ensures exists names :: Lists(names, keys)
  {
    if keys == {} {
      assert Lists([], keys);
    } else {
      var x :| x in keys;
      ListingExists(keys - {x});
      var names :| Lists(names, keys - {x});
      InsertLists(names, keys - {x}, x);
      assert keys - {x} + {x} == keys;
    }
  }
}

/**
 The canonical message of a widget manifest, the text that is signed. Signing is
 a function of the message.
 */
module Manifest {
  import opened Text
  import opened Names

  datatype WidgetManifest = WidgetManifest(v: int, serverId: string, visitorPub: string,
                                           scripts: map<string, string>, issuedAt: string, sig: string)

  const PREFIX := "hula-widget-manifest-v1"
  const ENTRY_SCRIPT := "hula-chat.js"
  const CRYPTO_SCRIPT := "hula-visitor-crypto.js"

  function Entry(name: string, integrity: string): string {
    "script=" + (name + ['='] + integrity)
  }

  function Entries(scripts: map<string, string>, names: seq<string>): (r: seq<string>)
    requires forall i :: 0 <= i < |names| ==> names[i] in scripts
    ensures |r| == |names| && forall i :: 0 <= i < |r| ==> r[i] == Entry(names[i], scripts[names[i]])
  {
    if names == [] then []
    else Entries(scripts, names[..|names| - 1]) + [Entry(names[|names| - 1], scripts[names[|names| - 1]])]
  }

  function Head(m: WidgetManifest): seq<string> {
    [PREFIX, "server_id=" + m.serverId, "visitor_chat_public_key_b64=" + m.visitorPub]
  }

  /** The lines of the message, the scripts by ascending name. */
  ghost function Lines(m: WidgetManifest): seq<string> {
    Head(m) + Entries(m.scripts, Listing(m.scripts.Keys)) + ["issued_at=" + m.issuedAt]
  }

  /** Each line with its newline. */
  function Terminated(lines: seq<string>): string {
    if lines == [] then "" else Terminated(lines[..|lines| - 1]) + lines[|lines| - 1] + "\n"
  }

  ghost function Canonical(m: WidgetManifest): string {
    Terminated(Lines(m))
  }

  // ----- building the message

  /** The sort: ascending, each name as often as it came. */
  method SortStrings(names: seq<string>) returns (r: seq<string>)
    ensures multiset(r) == multiset(names)
    ensures Distinct(names) ==> Ascending(r)
  {
    r := [];
    for i := 0 to |names|
      invariant multiset(r) == multiset(names[..i])
      invariant Distinct(names) ==> Ascending(r)
    {
      assert names[..i + 1] == names[..i] + [names[i]];
      InsertNext(r, names[..i], names[i]);
      r := Insert(r, names[i]);
    }
    assert names[..|names|] == names;
  }

  /** The names of the map, in whatever order the map yields them. */
  method Collect(scripts: map<string, string>) returns (names: seq<string>)
    ensures Distinct(names) && forall x :: x in names <==> x in scripts
  {
    names := [];
    var todo := scripts.Keys;
    while todo != {}
      invariant todo <= scripts.Keys
      invariant forall x :: x in names <==> x in scripts && x !in todo
      invariant Distinct(names)
      decreases todo
    {
      var x :| x in todo;
      names := names + [x];
      todo := todo - {x};
    }
  }

  /** Whatever order the map yields, the message is the canonical one. */
  method CanonicalMessage(m: WidgetManifest) returns (b: string)
    ensures b == Canonical(m)
  {
    hide Terminated;
    var names := Collect(m.scripts);
    var sorted := SortStrings(names);
    SortedLists(names, sorted, m.scripts.Keys);
    ListingUnique(sorted, Listing(m.scripts.Keys), m.scripts.Keys);
    b := PREFIX;
    b := b + "\n";
    b := b + "server_id=";
    b := b + m.serverId;
    b := b + "\n";
    b := b + "visitor_chat_public_key_b64=";
    b := b + m.visitorPub;
    b := b + "\n";
    HeadText(m, b);
    b := WriteScripts(m, sorted, b);
    TerminatedMore(Head(m) + Entries(m.scripts, sorted), "issued_at=" + m.issuedAt);
    b := b + "issued_at=";
    b := b + m.issuedAt;
    b := b + "\n";
  }

  method WriteScripts(m: WidgetManifest, names: seq<string>, text: string) returns (b: string)
    requires text == Terminated(Head(m)) && forall x :: x in names ==> x in m.scripts
    ensures b == Terminated(Head(m) + Entries(m.scripts, names))
  {
    hide Terminated;
    b := text;
    assert Head(m) + Entries(m.scripts, names[..0]) == Head(m);
    for i := 0 to |names|
      invariant b == Terminated(Head(m) + Entries(m.scripts, names[..i]))
    {
      var name := names[i];
      assert name in names;
      assert names[..i + 1][..i] == names[..i];
      var entry := Entry(name, m.scripts[name]);
      TerminatedMore(Head(m) + Entries(m.scripts, names[..i]), entry);
      assert Head(m) + Entries(m.scripts, names[..i + 1]) == Head(m) + Entries(m.scripts, names[..i]) + [entry];
      ghost var before := b;
      b := b + "script=";
      b := b + name;
      b := b + "=";
      b := b + m.scripts[name];
      b := b + "\n";
      assert b == before + entry + "\n";
    }
    assert names[..|names|] == names;
  }

  lemma SortedLists(names: seq<string>, sorted: seq<string>, keys: set<string>)
    requires multiset(sorted) == multiset(names) && Ascending(sorted) && forall x :: x in names <==> x in keys
    ensures Lists(sorted, keys)
  {
    forall x ensures x in sorted <==> x in names {
      SameMembers(sorted, names, x);
    }
  }

  lemma TerminatedMore(lines: seq<string>, line: string)
    ensures Terminated(lines + [line]) == Terminated(lines) + line + "\n"
  {
    assert (lines + [line])[..|lines|] == lines;
  }

  lemma HeadText(m: WidgetManifest, b: string)
    requires b == PREFIX + "\n" + "server_id=" + m.serverId + "\n" + "visitor_chat_public_key_b64=" + m.visitorPub + "\n"
    ensures b == Terminated(Head(m))
  {
    hide Terminated;
    var l0, l1, l2 := PREFIX, "server_id=" + m.serverId, "visitor_chat_public_key_b64=" + m.visitorPub;
    NoLines();
    TerminatedMore([], l0);
    TerminatedMore([l0], l1);
    TerminatedMore([l0, l1], l2);
    assert [] + [l0] == [l0] && [l0] + [l1] == [l0, l1] && [l0, l1] + [l2] == Head(m);
    assert "" + l0 == l0;
    assert b == l0 + "\n" + l1 + "\n" + l2 + "\n";
  }

  lemma NoLines()
    ensures Terminated([]) == ""
  {
  }

  // ----- the message determines the manifest

  lemma {:induction false} TerminatedJoins(lines: seq<string>)
    requires lines != []
    ensures Terminated(lines) == Join(lines, '\n') + "\n"
  {
    var n := |lines| - 1;
    if n > 0 {
      TerminatedJoins(lines[..n]);
      JoinAppend(lines[..n], lines[n], '\n');
      assert lines == lines[..n] + [lines[n]];
    }
  }

  lemma TerminatedInjective(a: seq<string>, b: seq<string>)
    requires a != [] && b != [] && AllFree(a, '\n') && AllFree(b, '\n') && Terminated(a) == Terminated(b)
    ensures a == b
  {
    TerminatedJoins(a);
    TerminatedJoins(b);
    var x, y := Join(a, '\n'), Join(b, '\n');
    assert (x + "\n")[..|x|] == x && (y + "\n")[..|y|] == y;
    JoinInjective(a, b, '\n');
  }

  /** Every field is on one line. */
  ghost predicate OneLine(m: WidgetManifest) {
    && Free(m.serverId, '\n') && Free(m.visitorPub, '\n') && Free(m.issuedAt, '\n')
    && (forall x :: x in m.scripts ==> Free(x, '\n') && Free(m.scripts[x], '\n'))
  }

  /** No script name holds an equals sign either. */
  ghost predicate Plain(m: WidgetManifest) {
    OneLine(m) && forall x :: x in m.scripts ==> Free(x, '=')
  }

  lemma FreeAppend(a: string, b: string)
    requires Free(a, '\n') && Free(b, '\n')
    ensures Free(a + b, '\n')
  {
  }

  lemma PlainHead(m: WidgetManifest)
    requires OneLine(m)
    ensures AllFree(Head(m), '\n') && Free("issued_at=" + m.issuedAt, '\n')
  {
    FreeAppend("server_id=", m.serverId);
    FreeAppend("visitor_chat_public_key_b64=", m.visitorPub);
    FreeAppend("issued_at=", m.issuedAt);
  }

  lemma EntryFree(name: string, value: string)
    requires Free(name, '\n') && Free(value, '\n')
    ensures Free(Entry(name, value), '\n')
  {
    FreeAppend(name, ['=']);
    FreeAppend(name + ['='], value);
    FreeAppend("script=", name + ['='] + value);
  }

  lemma PlainEntries(m: WidgetManifest, names: seq<string>)
    requires OneLine(m) && forall i :: 0 <= i < |names| ==> names[i] in m.scripts
    ensures AllFree(Entries(m.scripts, names), '\n')
  {
    hide Free, Entry;
    forall i | 0 <= i < |names| ensures Free(Entries(m.scripts, names)[i], '\n') {
      EntryFree(names[i], m.scripts[names[i]]);
    }
  }

  lemma PlainLines(m: WidgetManifest)
    requires OneLine(m)
    ensures AllFree(Lines(m), '\n')
  {
    hide OneLine, Free, Lists;
    PlainHead(m);
    ListedIn(m.scripts);
    PlainEntries(m, Listing(m.scripts.Keys));
  }

  lemma ListedIn(scripts: map<string, string>)
    ensures forall i :: 0 <= i < |Listing(scripts.Keys)| ==> Listing(scripts.Keys)[i] in scripts
  {
  }

  lemma PrefixCancels(p: string, a: string, b: string)
    requires p + a == p + b
    ensures a == b
  {
    assert (p + a)[|p|..] == a && (p + b)[|p|..] == b;
  }

  lemma EntryInjective(n1: string, v1: string, n2: string, v2: string)
    requires Free(n1, '=') && Free(n2, '=') && Entry(n1, v1) == Entry(n2, v2)
    ensures n1 == n2 && v1 == v2
  {
    PrefixCancels("script=", n1 + ['='] + v1, n2 + ['='] + v2);
    IndexOf(n1, '=', v1);
    IndexOf(n2, '=', v2);
    var s := n1 + ['='] + v1;
    assert s[..|n1|] == n1 && s[|n1| + 1..] == v1;
    assert s == n2 + ['='] + v2;
    assert s[..|n2|] == n2 && s[|n2| + 1..] == v2;
  }

  lemma EntriesInjective(a: map<string, string>, b: map<string, string>)
    requires forall x :: x in a ==> Free(x, '=')
    requires forall x :: x in b ==> Free(x, '=')
    requires Entries(a, Listing(a.Keys)) == Entries(b, Listing(b.Keys))
    ensures a == b
  {
    hide Free, Entry, Ascending;
    var x, y := Listing(a.Keys), Listing(b.Keys);
    forall i | 0 <= i < |x| ensures x[i] == y[i] && a[x[i]] == b[y[i]] {
      assert Entries(a, x)[i] == Entries(b, y)[i];
      EntryInjective(x[i], a[x[i]], y[i], b[y[i]]);
    }
    assert x == y;
    forall k ensures k in a <==> k in b {
      assert k in a <==> k in x;
    }
    assert forall k :: k in a ==> k in x && a[k] == b[k];
  }

  /** The script lines of a manifest. */
  ghost function ScriptLines(m: WidgetManifest): seq<string> {
    Entries(m.scripts, Listing(m.scripts.Keys))
  }

  /**
   Two manifests of one-line fields have the same canonical message exactly when they
   agree in server, key, issue time and the lines of their scripts.
   */
  lemma CanonicalEqualExactlyWhen(a: WidgetManifest, b: WidgetManifest)
    requires OneLine(a) && OneLine(b)
    ensures Canonical(a) == Canonical(b) <==>
            a.serverId == b.serverId && a.visitorPub == b.visitorPub && a.issuedAt == b.issuedAt
            && ScriptLines(a) == ScriptLines(b)
  {
    hide OneLine, Terminated, AllFree;
    PlainLines(a);
    PlainLines(b);
    if Canonical(a) == Canonical(b) {
      TerminatedInjective(Lines(a), Lines(b));
      LinesDetermine(a, b);
    }
  }

  lemma LinesDetermine(a: WidgetManifest, b: WidgetManifest)
    requires Lines(a) == Lines(b)
    ensures a.serverId == b.serverId && a.visitorPub == b.visitorPub && a.issuedAt == b.issuedAt
    ensures ScriptLines(a) == ScriptLines(b)
  {
    hide Lists;
    ListedIn(a.scripts);
    ListedIn(b.scripts);
    var x, y := ScriptLines(a), ScriptLines(b);
    var la, lb := Lines(a), Lines(b);
    assert la[1] == "server_id=" + a.serverId && lb[1] == "server_id=" + b.serverId;
    assert la[2] == "visitor_chat_public_key_b64=" + a.visitorPub && lb[2] == "visitor_chat_public_key_b64=" + b.visitorPub;
    assert la[|la| - 1] == "issued_at=" + a.issuedAt && lb[|lb| - 1] == "issued_at=" + b.issuedAt;
    PrefixCancels("server_id=", a.serverId, b.serverId);
    PrefixCancels("visitor_chat_public_key_b64=", a.visitorPub, b.visitorPub);
    PrefixCancels("issued_at=", a.issuedAt, b.issuedAt);
    assert la[3..|la| - 1] == x && lb[3..|lb| - 1] == y;
  }

  /**
   Two plain manifests have the same canonical message exactly when they agree in
   server, key, scripts and issue time.
   */
  lemma CanonicalDetermines(a: WidgetManifest, b: WidgetManifest)
    requires Plain(a) && Plain(b)
    ensures Canonical(a) == Canonical(b) <==>
            a.serverId == b.serverId && a.visitorPub == b.visitorPub && a.scripts == b.scripts && a.issuedAt == b.issuedAt
  {
    hide OneLine, Canonical, Free;
    CanonicalEqualExactlyWhen(a, b);
    if ScriptLines(a) == ScriptLines(b) {
      EntriesInjective(a.scripts, b.scripts);
    }
  }

  /** With an equals sign in a name, two different script maps have one message. */
  lemma NameWithEquals()
    ensures var a := WidgetManifest(1, "s", "k", map["a=b" := "c"], "t", "");
            var b := a.(scripts := map["a" := "b=c"]);
            a.scripts != b.scripts && Canonical(a) == Canonical(b)
  {
    var a := WidgetManifest(1, "s", "k", map["a=b" := "c"], "t", "");
    var b := a.(scripts := map["a" := "b=c"]);
    OneListed("a=b", "c");
    OneListed("a", "b=c");
    assert Entry("a=b", "c") == Entry("a", "b=c");
    assert "a=b" in a.scripts && "a=b" !in b.scripts;
  }

  lemma OneListed(name: string, value: string)
    ensures Entries(map[name := value], Listing(map[name := value].Keys)) == [Entry(name, value)]
  {
    var keys := map[name := value].Keys;
    assert Lists([name], keys);
    ListingUnique([name], Listing(keys), keys);
  }

  /** With a newline in the server name, two different servers have one message. */
  lemma ServerWithNewline()
    ensures var line := "\nvisitor_chat_public_key_b64=";
            var a := WidgetManifest(1, "s" + line + "k", "l", map[], "t", "");
            var b := a.(serverId := "s", visitorPub := "k" + line + "l");
            a.serverId != b.serverId && Canonical(a) == Canonical(b)
  {
    hide Terminated, Canonical;
    var line := "\nvisitor_chat_public_key_b64=";
    var a := WidgetManifest(1, "s" + line + "k", "l", map[], "t", "");
    var b := a.(serverId := "s", visitorPub := "k" + line + "l");
    assert |a.serverId| != |b.serverId|;
    WithoutScripts(a);
    WithoutScripts(b);
    HeadsAgree(a, b, "s", "k", "l");
  }

  lemma HeadsAgree(a: WidgetManifest, b: WidgetManifest, x: string, y: string, z: string)
    requires var line := "\nvisitor_chat_public_key_b64=";
             a.serverId == x + line + y && a.visitorPub == z && b.serverId == x && b.visitorPub == y + line + z
    ensures Terminated(Head(a)) == Terminated(Head(b))
  {
    hide Terminated, Head;
    var line, tag := "\nvisitor_chat_public_key_b64=", "visitor_chat_public_key_b64=";
    var start := PREFIX + "\n" + "server_id=";
    SamePieces(start, x, "\n", tag, line, y, z);
    HeadText(a, start + a.serverId + "\n" + tag + a.visitorPub + "\n");
    HeadText(b, start + b.serverId + "\n" + tag + b.visitorPub + "\n");
  }

  lemma SamePieces(s: string, x: string, nl: string, tag: string, line: string, y: string, z: string)
    requires line == nl + tag
    ensures s + (x + line + y) + nl + tag + z + nl == s + x + nl + tag + (y + line + z) + nl
  {
    var l, r := s + (x + line + y) + nl + tag + z, s + x + nl + tag + (y + line + z);
    assert l == s + x + line + y + line + z;
    assert r == s + x + line + y + line + z;
  }

  lemma WithoutScripts(m: WidgetManifest)
    requires m.scripts == map[]
    ensures Canonical(m) == Terminated(Head(m)) + ("issued_at=" + m.issuedAt) + "\n"
  {
    hide Terminated, Lists;
    assert Lists([], m.scripts.Keys) by { NothingLists(m.scripts.Keys); }
    ListingUnique([], Listing(m.scripts.Keys), m.scripts.Keys);
    TerminatedMore(Head(m), "issued_at=" + m.issuedAt);
    assert Lines(m) == Head(m) + ["issued_at=" + m.issuedAt];
  }

  lemma NothingLists(keys: set<string>)
    requires keys == {}
    ensures Lists([], keys)
  {
  }

  /** The message of a manifest with one script, written out. */
  lemma MessageText(m: WidgetManifest, name: string, value: string)
    requires m.scripts == map[name := value]
    ensures Canonical(m) == "hula-widget-manifest-v1" + "\n" + "server_id=" + m.serverId + "\n" +
                            "visitor_chat_public_key_b64=" + m.visitorPub + "\n" +
                            "script=" + name + "=" + value + "\n" + "issued_at=" + m.issuedAt + "\n"
  {
    hide Terminated, Head;
    var start := "hula-widget-manifest-v1" + "\n" + "server_id=" + m.serverId + "\n" +
                 "visitor_chat_public_key_b64=" + m.visitorPub + "\n";
    HeadText(m, start);
    OneListed(name, value);
    TerminatedMore(Head(m), Entry(name, value));
    TerminatedMore(Head(m) + [Entry(name, value)], "issued_at=" + m.issuedAt);
    assert Lines(m) == Head(m) + [Entry(name, value)] + ["issued_at=" + m.issuedAt];
    TextPieces(start, name, value, m.issuedAt);
  }

  lemma TextPieces(start: string, name: string, value: string, at: string)
    ensures start + Entry(name, value) + "\n" + ("issued_at=" + at) + "\n" ==
            start + "script=" + name + "=" + value + "\n" + "issued_at=" + at + "\n"
  {
    assert Entry(name, value) == "script=" + name + "=" + value;
    var front := start + Entry(name, value) + "\n";
    assert front == start + "script=" + name + "=" + value + "\n";
    assert front + ("issued_at=" + at) == front + "issued_at=" + at;
  }

  // ----- the signed manifest

  /** The manifest for one host, signed over its canonical message. */
  method BuildSignedManifest(sign: string -> string, serverId: string, visitorPub: string,
                             entrySri: string, cryptoSri: string, issuedAt: string) returns (m: WidgetManifest)
    ensures m.v == 1 && m.serverId == serverId && m.visitorPub == visitorPub && m.issuedAt == issuedAt
    ensures m.scripts == map["hula-chat.js" := entrySri, "hula-visitor-crypto.js" := cryptoSri]
    ensures m.sig == sign(Canonical(m))
    ensures m == Unsigned(serverId, visitorPub, entrySri, cryptoSri, issuedAt).(sig := m.sig)
  {
    m := Unsigned(serverId, visitorPub, entrySri, cryptoSri, issuedAt);
    var message := CanonicalMessage(m);
    m := m.(sig := sign(message));
  }

  function Unsigned(serverId: string, visitorPub: string, entrySri: string, cryptoSri: string, issuedAt: string)
    : WidgetManifest
  {
    WidgetManifest(1, serverId, visitorPub, map[ENTRY_SCRIPT := entrySri, CRYPTO_SCRIPT := cryptoSri], issuedAt, "")
  }

  /** The signed message covers every argument: hosts with the same message have the same arguments. */
  lemma SignatureCovers(s1: string, p1: string, e1: string, c1: string, t1: string,
                        s2: string, p2: string, e2: string, c2: string, t2: string)
    requires forall x :: x in [s1, p1, e1, c1, t1, s2, p2, e2, c2, t2] ==> Free(x, '\n')
    requires Canonical(Unsigned(s1, p1, e1, c1, t1)) == Canonical(Unsigned(s2, p2, e2, c2, t2))
    ensures (s1, p1, e1, c1, t1) == (s2, p2, e2, c2, t2)
  {
    hide Canonical;
    var a, b := Unsigned(s1, p1, e1, c1, t1), Unsigned(s2, p2, e2, c2, t2);
    UnsignedPlain(s1, p1, e1, c1, t1);
    UnsignedPlain(s2, p2, e2, c2, t2);
    CanonicalDetermines(a, b);
    assert ENTRY_SCRIPT[5] != CRYPTO_SCRIPT[5];
    assert a.scripts[ENTRY_SCRIPT] == e1 && b.scripts[ENTRY_SCRIPT] == e2;
    assert a.scripts[CRYPTO_SCRIPT] == c1 && b.scripts[CRYPTO_SCRIPT] == c2;
  }

  lemma UnsignedPlain(s: string, p: string, e: string, c: string, t: string)
    requires Free(s, '\n') && Free(p, '\n') && Free(e, '\n') && Free(c, '\n') && Free(t, '\n')
    ensures Plain(Unsigned(s, p, e, c, t))
  {
  }
}
