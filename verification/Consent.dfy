/** Consent resolution for a visitor request. */
module Consent {
  import opened Results
  import opened Text

  datatype ConsentState = ConsentState(analytics: bool, marketing: bool, source: string)

  /** `block` means that no event row may be written. */
  datatype Decision = Decision(state: ConsentState, block: bool)

  /**
   Lower case of a code point, as far as it can produce a letter of a mode name:
   besides the ASCII capitals only the dotted capital I maps to one.
   */
  function Lower(c: char): char {
    if 'A' <= c <= 'Z' then c - 'A' + 'a' else if c == 0x130 as char then 'i' else c
  }

  function ToLower(s: string): string {
    if s == "" then "" else [Lower(s[0])] + ToLower(s[1..])
  }

  function Mode(configured: string): string {
    var mode := ToLower(TrimSpace(configured));
    if mode == "" then "off" else mode
  }

  predicate OptsOut(gpc: string) {
    TrimSpace(gpc) == "1"
  }

  /** A client payload decides; else the privacy header, for marketing; else the server's default. */
  function Resolve(configured: string, body: Option<ConsentState>, gpc: string): Decision {
    var mode := Mode(configured);
    if body.Some? then
      Decision(body.value.(source := "cmp_payload"), mode == "opt_in" && !body.value.analytics)
    else if OptsOut(gpc) then
      Decision(ConsentState(mode == "opt_out" || mode == "off", false, "gpc_header"), mode == "opt_in")
    else if mode == "opt_in" then
      Decision(ConsentState(false, false, "default_optin"), true)
    else if mode == "opt_out" then
      Decision(ConsentState(true, true, "default_optout"), false)
    else
      Decision(ConsentState(true, true, "default_off"), false)
  }

  // ----- what a configured text and a header mean

  /** The same letters up to their case; the dotted capital I counts as one of i. */
  predicate SameLetters(w: string, name: string) {
    |w| == |name| &&
    forall i :: 0 <= i < |w| ==>
      || w[i] == name[i]
      || ('a' <= name[i] <= 'z' && w[i] == name[i] - 'a' + 'A')
      || (name[i] == 'i' && w[i] == 0x130 as char)
  }

  /** The name in any letter case, between any white space. */
  ghost predicate Spells(configured: string, name: string) {
    exists a, w, b :: configured == a + w + b && AllSpace(a) && AllSpace(b) && SameLetters(w, name)
  }

  predicate Small(name: string) {
    forall i :: 0 <= i < |name| ==> 'a' <= name[i] <= 'z' || name[i] == '_'
  }

  lemma {:induction false} LowerSpells(w: string, name: string)
    requires Small(name)
    ensures ToLower(w) == name <==> SameLetters(w, name)
  {
    if w != "" && name != "" {
      LowerSpells(w[1..], name[1..]);
      assert ToLower(w) == name <==> Lower(w[0]) == name[0] && ToLower(w[1..]) == name[1..] by {
        assert name == [name[0]] + name[1..];
      }
    }
  }

  lemma LettersShow(w: string, name: string)
    requires Small(name) && name != "" && SameLetters(w, name)
    ensures !IsSpace(w[0]) && !IsSpace(w[|w| - 1])
  {
  }

  /** The mode is the name that the configured text spells; a blank text is "off". */
  lemma ModeSpells(configured: string, name: string)
    requires Small(name) && name != ""
    ensures Mode(configured) == name <==> Spells(configured, name) || (name == "off" && AllSpace(configured))
  {
    hide IsSpace, TrimSpace, AllSpace, SameLetters, Small;
    var a, b := TrimParts(configured);
    var w := TrimSpace(configured);
    LowerSpells(w, name);
    LowerEmpty(w);
    if w == "" {
      BlankParts(configured, a, b);
    }
    if Spells(configured, name) {
      var x, v, y :| configured == x + v + y && AllSpace(x) && AllSpace(y) && SameLetters(v, name);
      LettersShow(v, name);
      SameLength(v, name);
      TrimPadded(x, v, y);
    }
    if AllSpace(configured) {
      TrimBlank(configured);
    }
  }

  lemma SameLength(v: string, name: string)
    requires SameLetters(v, name)
    ensures |v| == |name|
  {
  }

  lemma LowerEmpty(w: string)
    ensures ToLower(w) == "" <==> w == ""
  {
  }

  lemma BlankParts(s: string, a: string, b: string)
    requires s == a + "" + b && AllSpace(a) && AllSpace(b)
    ensures AllSpace(s)
  {
  }

  lemma ModeNames()
    ensures Small("off") && Small("opt_in") && Small("opt_out")
  {
  }

  /** Every name spells itself. */
  lemma SpellsItself(name: string)
    ensures Spells(name, name)
  {
    assert name == "" + name + "" && AllSpace("") && SameLetters(name, name);
  }

  /** The header says "1", perhaps between white space. */
  ghost predicate SaysOne(gpc: string) {
    exists a, b :: gpc == a + "1" + b && AllSpace(a) && AllSpace(b)
  }

  lemma OptsOutSays(gpc: string)
    ensures OptsOut(gpc) <==> SaysOne(gpc)
  {
    hide TrimSpace, AllSpace;
    var a, b := TrimParts(gpc);
    if SaysOne(gpc) {
      var x, y :| gpc == x + "1" + y && AllSpace(x) && AllSpace(y);
      TrimPadded(x, "1", y);
    }
  }

  ghost predicate IsOff(configured: string) {
    Spells(configured, "off") || AllSpace(configured)
  }

  /**
   Only an opt-in server blocks, and it blocks exactly the requests without an
   affirmative payload. A payload's flags are taken over; without one the privacy
   header denies marketing, and leaves analytics to the servers that are off or
   opt-out; without either, consent is given to all but opt-in servers. The source
   names which of the three decided.
   */
  lemma ResolveLaws(configured: string, body: Option<ConsentState>, gpc: string)
    ensures var d, optIn := Resolve(configured, body, gpc), Spells(configured, "opt_in");
            && (d.block <==> optIn && !(body.Some? && body.value.analytics))
            && (optIn && !d.block ==> d.state.analytics)
            && (body.Some? ==>
                  d.state.analytics == body.value.analytics && d.state.marketing == body.value.marketing)
            && (body.None? && SaysOne(gpc) ==>
                  !d.state.marketing && (d.state.analytics <==> IsOff(configured) || Spells(configured, "opt_out")))
            && (body.None? && !SaysOne(gpc) ==>
                  && d.state.analytics == d.state.marketing == !optIn
                  && d.state.source == (if optIn then "default_optin"
                                        else if Spells(configured, "opt_out") then "default_optout" else "default_off"))
            && (d.state.source == "cmp_payload" <==> body.Some?)
            && (d.state.source == "gpc_header" <==> body.None? && SaysOne(gpc))
  {
    hide Mode, OptsOut, Spells, SaysOne, AllSpace;
    ModeNames();
    ModeSpells(configured, "opt_in");
    ModeSpells(configured, "opt_out");
    ModeSpells(configured, "off");
    OptsOutSays(gpc);
    assert "cmp_payload"[0] != "gpc_header"[0] && "cmp_payload"[0] != "default_off"[0] && "gpc_header"[0] != "default_off"[0];
    assert "default_optin"[0] == "default_optout"[0] == "default_off"[0];
    assert |"opt_in"| != |"opt_out"| && |"off"| != |"opt_in"|;
  }
}
