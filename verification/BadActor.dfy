/**
 The bad-actor score store. Scores are unbounded here, the allowlisted networks
 are a predicate, and a call that reads the clock gets its readings as arguments.
 */
module BadActor {

  datatype Config = Config(ttl: int, threshold: int, dryRun: bool, exempt: string -> bool)

  datatype Entry = Entry(score: int, detected: int, expires: int, reason: string)

  datatype State = State(tree: map<string, Entry>, allow: set<string>)

  datatype Verdict = Verdict(block: bool, reason: string)

  datatype Match = Match(score: int, reason: string)

  datatype Op =
    | Incident(ip: string, reason: string, score: int)
    | Manual(ip: string, reason: string)
    | Evict(ip: string)
    | Allow(ip: string)
    | Disallow(ip: string)
    | Sweep

  /** One call: its first clock reading is `from`, its last one `to`. */
  datatype Call = Call(from: int, to: int, op: Op)

  // ----- what each call does to the store

  predicate Scores(c: Config, s: State, op: Op) {
    op.Incident? && op.ip != "" && op.score > 0 && op.ip !in s.allow && !c.exempt(op.ip)
  }

  /** The score carried over at time `now`: that of an entry which has not expired. */
  function Carried(s: State, ip: string, now: int): int {
    if ip in s.tree && now < s.tree[ip].expires then s.tree[ip].score else 0
  }

  function Swept(tree: map<string, Entry>, now: int): map<string, Entry> {
    map ip | ip in tree && now <= tree[ip].expires :: tree[ip]
  }

  function Apply(c: Config, s: State, e: Call): State {
    match e.op
    case Incident(ip, reason, score) =>
      if Scores(c, s, e.op)
      then s.(tree := s.tree[ip := Entry(Carried(s, ip, e.from) + score, e.to, e.to + c.ttl, reason)])
      else s
    case Manual(ip, reason) => s.(tree := s.tree[ip := Entry(c.threshold, e.from, e.to + c.ttl, reason)])
    case Evict(ip) => s.(tree := s.tree - {ip})
    case Allow(ip) => s.(allow := s.allow + {ip})
    case Disallow(ip) => s.(allow := s.allow - {ip})
    case Sweep => s.(tree := Swept(s.tree, e.to))
  }

  function Exec(c: Config, init: State, h: seq<Call>): State {
    if h == [] then init else Apply(c, Exec(c, init, h[..|h| - 1]), h[|h| - 1])
  }

  function Known(c: Config, s: State, ip: string, now: int): Verdict {
    if ip !in s.allow && ip in s.tree && now < s.tree[ip].expires && s.tree[ip].score >= c.threshold
    then Verdict(!c.dryRun, s.tree[ip].reason)
    else Verdict(false, "")
  }

  // ----- the simple reading of a history

  /** A scored call: `restart` when it sets the score instead of adding to it. */
  datatype Hit = Hit(read: int, time: int, score: int, restart: bool, reason: string)

  /** Whether the address was last added to the allowlist rather than removed. */
  predicate Allowed(init: State, h: seq<Call>, ip: string) {
    if h == [] then ip in init.allow
    else if h[|h| - 1].op == Allow(ip) then true
    else if h[|h| - 1].op == Disallow(ip) then false
    else Allowed(init, h[..|h| - 1], ip)
  }

  /** The hits on an address since it was last evicted by hand. */
  function Hits(c: Config, init: State, h: seq<Call>, ip: string): seq<Hit> {
    if h == [] then
      if ip in init.tree then
        var e := init.tree[ip];
        [Hit(e.expires - c.ttl, e.expires - c.ttl, e.score, true, e.reason)]
      else []
    else
      var before, e := h[..|h| - 1], h[|h| - 1];
      var hits := Hits(c, init, before, ip);
      match e.op
      case Incident(who, reason, score) =>
        if who == ip && ip != "" && score > 0 && !c.exempt(ip) && !Allowed(init, before, ip)
        then hits + [Hit(e.from, e.to, score, false, reason)] else hits
      case Manual(who, reason) =>
        if who == ip then hits + [Hit(e.from, e.to, c.threshold, true, reason)] else hits
      case Evict(who) => if who == ip then [] else hits
      case _ => hits
  }

  /** A chain begins with a hit that sets the score, or comes after the previous hit expired. */
  predicate Begins(c: Config, hits: seq<Hit>, k: nat)
    requires k < |hits|
  {
    k == 0 || hits[k].restart || hits[k - 1].time + c.ttl <= hits[k].read
  }

  function LastChain(c: Config, hits: seq<Hit>): (k: nat)
    requires hits != []
    ensures k < |hits| && Begins(c, hits, k)
    ensures forall j :: k < j < |hits| ==> !Begins(c, hits, j)
  {
    var n := |hits| - 1;
    if Begins(c, hits, n) then n
    else
      var k := LastChain(c, hits[..n]);
      assert forall j :: 0 <= j < n ==> Begins(c, hits[..n], j) == Begins(c, hits, j);
      k
  }

  function Sum(hits: seq<Hit>): int {
    if hits == [] then 0 else Sum(hits[..|hits| - 1]) + hits[|hits| - 1].score
  }

  /** The total of the last chain of hits. */
  function Total(c: Config, hits: seq<Hit>): int
    requires hits != []
  {
    Sum(hits[LastChain(c, hits)..])
  }

  function Expiry(c: Config, hits: seq<Hit>): int
    requires hits != []
  {
    hits[|hits| - 1].time + c.ttl
  }

  /** The answer read off the history alone. */
  function Judged(c: Config, init: State, h: seq<Call>, ip: string, now: int): Verdict {
    var hits := Hits(c, init, h, ip);
    if !Allowed(init, h, ip) && hits != [] && now < Expiry(c, hits) && Total(c, hits) >= c.threshold
    then Verdict(!c.dryRun, hits[|hits| - 1].reason)
    else Verdict(false, "")
  }

  /** The clock never goes back, within a call or between calls. */
  ghost predicate InOrder(h: seq<Call>) {
    && (forall i :: 0 <= i < |h| ==> h[i].from <= h[i].to)
    && (forall i, j :: 0 <= i < j < |h| ==> h[i].to <= h[j].from)
  }

  // ----- the store agrees with the history

  /** What the store holds for an address; a sweep may have taken an entry that has expired. */
  ghost predicate Agrees(c: Config, s: State, allowed: bool, hits: seq<Hit>, ip: string, gone: int -> bool) {
    && (ip in s.allow <==> allowed)
    && (if ip in s.tree
        then hits != [] && s.tree[ip].score == Total(c, hits) && s.tree[ip].expires == Expiry(c, hits)
             && s.tree[ip].reason == hits[|hits| - 1].reason
        else hits == [] || gone(Expiry(c, hits)))
  }

  /** The expiries that lie before the end of the history. */
  ghost function Before(h: seq<Call>): int -> bool {
    (t: int) => h != [] && t < h[|h| - 1].to
  }

  lemma SumOne(x: Hit)
    ensures Sum([x]) == x.score
  {
    assert [x][..0] == [];
  }

  lemma TotalMore(c: Config, hits: seq<Hit>, x: Hit)
    ensures Total(c, hits + [x]) ==
            if hits == [] || x.restart || Expiry(c, hits) <= x.read then x.score else Total(c, hits) + x.score
  {
    var all, n := hits + [x], |hits|;
    assert all[..n] == hits;
    if Begins(c, all, n) {
      SumOne(x);
      assert all[n..] == [x];
    } else {
      var k := LastChain(c, hits);
      assert all[k..] == hits[k..] + [x];
      assert all[k..][..n - k] == hits[k..];
    }
  }

  lemma AgreesStep(c: Config, init: State, h: seq<Call>, s: State, ip: string)
    requires h != [] && InOrder(h)
    requires Agrees(c, s, Allowed(init, h[..|h| - 1], ip), Hits(c, init, h[..|h| - 1], ip), ip, Before(h[..|h| - 1]))
    ensures Agrees(c, Apply(c, s, h[|h| - 1]), Allowed(init, h, ip), Hits(c, init, h, ip), ip, Before(h))
  {
    hide Total, InOrder;
    var before, e := h[..|h| - 1], h[|h| - 1];
    var hits := Hits(c, init, before, ip);
    LastMoves(h);
    if e.op.Incident? && e.op.ip == ip {
      TotalMore(c, hits, Hit(e.from, e.to, e.op.score, false, e.op.reason));
    } else if e.op.Manual? && e.op.ip == ip {
      TotalMore(c, hits, Hit(e.from, e.to, c.threshold, true, e.op.reason));
    }
  }

  lemma LastMoves(h: seq<Call>)
    requires h != [] && InOrder(h)
    ensures h[|h| - 1].from <= h[|h| - 1].to
    ensures |h| > 1 ==> h[..|h| - 1][|h| - 2].to <= h[|h| - 1].from
  {
  }

  lemma {:induction false} AgreesAlways(c: Config, init: State, h: seq<Call>, ip: string)
    requires InOrder(h)
    ensures Agrees(c, Exec(c, init, h), Allowed(init, h, ip), Hits(c, init, h, ip), ip, Before(h))
  {
    if h == [] {
      TotalOne(c, Hits(c, init, h, ip));
    } else {
      hide Agrees, Hits, Allowed, Apply;
      AgreesAlways(c, init, h[..|h| - 1], ip);
      AgreesStep(c, init, h, Exec(c, init, h[..|h| - 1]), ip);
    }
  }

  lemma TotalOne(c: Config, hits: seq<Hit>)
    ensures |hits| == 1 ==> Total(c, hits) == hits[0].score
  {
    if |hits| == 1 {
      SumOne(hits[0]);
      assert hits[0..] == [hits[0]];
    }
  }

  /**
   Over every history with a clock that does not go back, starting from any
   store, the check of known addresses answers what the history says.
   */
  lemma KnownIsJudged(c: Config, init: State, h: seq<Call>, ip: string, now: int)
    requires InOrder(h) && (h != [] ==> h[|h| - 1].to <= now)
    ensures Known(c, Exec(c, init, h), ip, now) == Judged(c, init, h, ip, now)
  {
    hide Hits, Allowed, Total, Exec;
    AgreesAlways(c, init, h, ip);
  }

  // ----- sweeping

  function Unswept(h: seq<Call>): seq<Call> {
    if h == [] then [] else Unswept(h[..|h| - 1]) + (if h[|h| - 1].op.Sweep? then [] else [h[|h| - 1]])
  }

  lemma {:induction false} UnsweptReads(c: Config, init: State, h: seq<Call>, ip: string)
    ensures Hits(c, init, Unswept(h), ip) == Hits(c, init, h, ip)
    ensures Allowed(init, Unswept(h), ip) == Allowed(init, h, ip)
  {
    if h != [] {
      UnsweptReads(c, init, h[..|h| - 1], ip);
      if h[|h| - 1].op.Sweep? {
        assert Unswept(h) == Unswept(h[..|h| - 1]);
      } else {
        assert Unswept(h)[..|Unswept(h)| - 1] == Unswept(h[..|h| - 1]);
      }
    }
  }

  lemma {:induction false} UnsweptFrom(h: seq<Call>)
    ensures forall e :: e in Unswept(h) ==> e in h
  {
    if h != [] {
      UnsweptFrom(h[..|h| - 1]);
    }
  }

  lemma {:induction false} UnsweptInOrder(h: seq<Call>)
    requires InOrder(h)
    ensures InOrder(Unswept(h))
  {
    if h != [] {
      var front := h[..|h| - 1];
      UnsweptInOrder(front);
      UnsweptFrom(front);
      forall i | 0 <= i < |Unswept(front)| ensures Unswept(front)[i].to <= h[|h| - 1].from {
        assert Unswept(front)[i] in front;
      }
    }
  }

  /** A history answers as it would without its sweeps. */
  lemma SweepsCanGo(c: Config, init: State, h: seq<Call>, ip: string, now: int)
    requires InOrder(h) && (h != [] ==> h[|h| - 1].to <= now)
    ensures Known(c, Exec(c, init, h), ip, now) == Known(c, Exec(c, init, Unswept(h)), ip, now)
  {
    hide Hits, Allowed, Exec, Known, Unswept;
    UnsweptInOrder(h);
    UnsweptReads(c, init, h, ip);
    EndsBy(h, now);
    KnownIsJudged(c, init, h, ip, now);
    KnownIsJudged(c, init, Unswept(h), ip, now);
  }

  lemma EndsBy(h: seq<Call>, now: int)
    requires InOrder(h) && (h != [] ==> h[|h| - 1].to <= now)
    ensures Unswept(h) != [] ==> Unswept(h)[|Unswept(h)| - 1].to <= now
  {
    hide Unswept;
    UnsweptFrom(h);
    if Unswept(h) != [] {
      assert Unswept(h)[|Unswept(h)| - 1] in h;
    }
  }

  /** Sweeps change no answer, however often and wherever they come. */
  lemma SweepsChangeNothing(c: Config, init: State, h: seq<Call>, g: seq<Call>, ip: string, now: int)
    requires InOrder(h) && InOrder(g) && Unswept(h) == Unswept(g)
    requires (h != [] ==> h[|h| - 1].to <= now) && (g != [] ==> g[|g| - 1].to <= now)
    ensures Known(c, Exec(c, init, h), ip, now) == Known(c, Exec(c, init, g), ip, now)
  {
    hide Exec, Known, InOrder, Unswept;
    SweepsCanGo(c, init, h, ip, now);
    SweepsCanGo(c, init, g, ip, now);
  }

  /** If the clock goes back, a sweep does change an answer. */
  lemma ClockMustNotGoBack()
    ensures var c := Config(10, 1, false, (ip: string) => false);
            var init, h := State(map[], {}), [Call(0, 0, Incident("a", "probe", 1))];
            var g := h + [Call(11, 11, Sweep)];
            && Known(c, Exec(c, init, h), "a", 5) == Verdict(true, "probe")
            && Known(c, Exec(c, init, g), "a", 5) == Verdict(false, "")
  {
    var c := Config(10, 1, false, (ip: string) => false);
    var init, h := State(map[], {}), [Call(0, 0, Incident("a", "probe", 1))];
    var g := h + [Call(11, 11, Sweep)];
    assert h[..0] == [] && g[..1] == h;
    assert Exec(c, init, h).tree == map["a" := Entry(1, 0, 10, "probe")];
  }

  // ----- the check of a request

  function MatchTotal(matches: seq<Match>): int {
    if matches == [] then 0 else MatchTotal(matches[..|matches| - 1]) + matches[|matches| - 1].score
  }

  /** The reason of the last match with a positive score. */
  function TopReason(matches: seq<Match>): string {
    if matches == [] then ""
    else if matches[|matches| - 1].score > 0 then matches[|matches| - 1].reason
    else TopReason(matches[..|matches| - 1])
  }

  /** The total adds up over any division of the matches, and counts every match once. */
  lemma {:induction false} MatchesAddUp(x: seq<Match>, y: seq<Match>, m: Match)
    ensures MatchTotal(x + y) == MatchTotal(x) + MatchTotal(y)
    ensures MatchTotal([m]) == m.score
  {
    assert [m][..0] == [];
    if y == [] {
      assert x + y == x;
    } else {
      assert (x + y)[..|x + y| - 1] == x + y[..|y| - 1];
      MatchesAddUp(x, y[..|y| - 1], m);
    }
  }

  /** The reason given is that of the last match that scores, and none if none does. */
  lemma {:induction false} ReasonIsLast(matches: seq<Match>, k: nat)
    requires k < |matches| && matches[k].score > 0 && forall j :: k < j < |matches| ==> matches[j].score <= 0
    ensures TopReason(matches) == matches[k].reason
  {
    if k < |matches| - 1 {
      ReasonIsLast(matches[..|matches| - 1], k);
    }
  }

  lemma {:induction false} NoReason(matches: seq<Match>)
    requires forall j :: 0 <= j < |matches| ==> matches[j].score <= 0
    ensures TopReason(matches) == ""
  {
    if matches != [] {
      NoReason(matches[..|matches| - 1]);
    }
  }

  predicate Excused(c: Config, s: State, ip: string) {
    ip in s.allow || c.exempt(ip)
  }

  predicate KnownBad(c: Config, s: State, ip: string, now: int) {
    ip in s.tree && now < s.tree[ip].expires && s.tree[ip].score >= c.threshold
  }

  /** The score added to: that of the entry as found, expired or not. */
  function FoundScore(s: State, ip: string): int {
    if ip in s.tree then s.tree[ip].score else 0
  }

  /** The check of a request that adds its matches to the given score. */
  function CheckedFrom(c: Config, s: State, ip: string, matches: seq<Match>, score: int, from: int, to: int)
    : (State, Verdict)
  {
    if Excused(c, s, ip) then (s, Verdict(false, ""))
    else if KnownBad(c, s, ip, from) then (s, Verdict(!c.dryRun, s.tree[ip].reason))
    else if matches == [] then
      (if ip in s.tree && s.tree[ip].expires <= from then s.(tree := s.tree - {ip}) else s, Verdict(false, ""))
    else
      var total := score + MatchTotal(matches);
      (s.(tree := s.tree[ip := Entry(total, to, to + c.ttl, TopReason(matches))]),
       if total >= c.threshold && !c.dryRun then Verdict(true, TopReason(matches)) else Verdict(false, ""))
  }

  /** The check as it is: it adds to the score found. */
  function Checked(c: Config, s: State, ip: string, matches: seq<Match>, from: int, to: int): (State, Verdict) {
    CheckedFrom(c, s, ip, matches, FoundScore(s, ip), from, to)
  }

  /** An allowlisted address, by itself or by its network, is never blocked and never scored. */
  lemma ExcusedPasses(c: Config, s: State, ip: string, matches: seq<Match>, from: int, to: int)
    requires ip in s.allow || c.exempt(ip)
    ensures Checked(c, s, ip, matches, from, to) == (s, Verdict(false, ""))
  {
    hide MatchTotal, TopReason;
  }

  /** An address that is known as bad gets the answer of the check of known addresses, and nothing is recorded. */
  lemma KnownIsAnswered(c: Config, s: State, ip: string, matches: seq<Match>, from: int, to: int)
    requires !(ip in s.allow || c.exempt(ip))
    requires ip in s.tree && from < s.tree[ip].expires && s.tree[ip].score >= c.threshold
    ensures Checked(c, s, ip, matches, from, to) == (s, Known(c, s, ip, from))
    ensures Known(c, s, ip, from) == Verdict(!c.dryRun, s.tree[ip].reason)
  {
    hide MatchTotal, TopReason;
  }

  /**
   Otherwise a request that matches is judged by the score found plus its own: it is
   blocked when that reaches the threshold outside a dry run, and until the new entry
   expires the check of known addresses answers by that score. A request that
   matches nothing passes and changes no later answer and no score; it only removes
   an entry that has expired. No other address is touched.
   */
  lemma RequestIsScored(c: Config, s: State, ip: string, matches: seq<Match>, from: int, to: int, other: string, now: int)
    requires !(ip in s.allow || c.exempt(ip)) && from <= to <= now
    requires !(ip in s.tree && from < s.tree[ip].expires && s.tree[ip].score >= c.threshold)
    ensures var (after, v) := Checked(c, s, ip, matches, from, to);
            var bad := (if ip in s.tree then s.tree[ip].score else 0) + MatchTotal(matches) >= c.threshold;
            && after.allow == s.allow
            && (matches == [] ==>
                  && v == Verdict(false, "")
                  && Known(c, after, ip, now) == Known(c, s, ip, now) && Carried(after, ip, now) == Carried(s, ip, now)
                  && (ip in after.tree <==> ip in s.tree && from < s.tree[ip].expires))
            && (matches != [] ==>
                  && v == (if bad && !c.dryRun then Verdict(true, TopReason(matches)) else Verdict(false, ""))
                  && Known(c, after, ip, now) ==
                     if bad && now < to + c.ttl then Verdict(!c.dryRun, TopReason(matches)) else Verdict(false, ""))
            && (other != ip ==> Known(c, after, other, now) == Known(c, s, other, now))
  {
    hide MatchTotal, TopReason;
  }

  /** The check with expiry respected, as incidents respect it: it adds to the score carried over. */
  function CheckedFairly(c: Config, s: State, ip: string, matches: seq<Match>, from: int, to: int): (State, Verdict) {
    CheckedFrom(c, s, ip, matches, Carried(s, ip, from), from, to)
  }

  /** The check with the expired entries swept first. */
  function CheckedSwept(c: Config, s: State, ip: string, matches: seq<Match>, from: int, to: int): (State, Verdict) {
    Checked(c, s.(tree := Swept(s.tree, from)), ip, matches, from, to)
  }

  /** The request adds to an entry that has expired by the time it is looked at. */
  predicate AddsToExpired(c: Config, s: State, ip: string, matches: seq<Match>, from: int) {
    !Excused(c, s, ip) && matches != [] && ip in s.tree && s.tree[ip].expires <= from
  }

  /**
   An expired score still counts when a request is checked: the store afterwards
   differs from what expiry promises exactly when the address is not excused, the
   request matches something and there is an expired score that is not zero.
   */
  lemma ExpiredScoreCounts(c: Config, s: State, ip: string, matches: seq<Match>, from: int, to: int)
    ensures Checked(c, s, ip, matches, from, to).0 != CheckedFairly(c, s, ip, matches, from, to).0 <==>
            AddsToExpired(c, s, ip, matches, from) && s.tree[ip].score != 0
  {
    hide MatchTotal, TopReason;
    var plain, fair := Checked(c, s, ip, matches, from, to).0, CheckedFairly(c, s, ip, matches, from, to).0;
    assert ip in plain.tree && ip in fair.tree && plain.tree[ip] != fair.tree[ip] ==> plain != fair;
  }

  /** The verdict on the request itself differs exactly when that score makes up the difference. */
  lemma ExpiredScoreDecides(c: Config, s: State, ip: string, matches: seq<Match>, from: int, to: int)
    ensures var total := MatchTotal(matches);
            Checked(c, s, ip, matches, from, to).1.block != CheckedFairly(c, s, ip, matches, from, to).1.block <==>
            && AddsToExpired(c, s, ip, matches, from) && !c.dryRun
            && (s.tree[ip].score + total >= c.threshold) != (total >= c.threshold)
  {
    hide MatchTotal, TopReason;
  }

  /** The failing request: an address with four points that expire at this very moment is blocked for one more. */
  lemma ExpiredScoreBlocks()
    ensures var c := Config(10, 5, false, (ip: string) => false);
            var s := State(map["a" := Entry(4, 0, 10, "old")], {});
            && Carried(s, "a", 10) == 0
            && Checked(c, s, "a", [Match(1, "probe")], 10, 10).1 == Verdict(true, "probe")
            && CheckedFairly(c, s, "a", [Match(1, "probe")], 10, 10).1 == Verdict(false, "")
  {
    var one := [Match(1, "probe")];
    assert one[..0] == [];
    assert MatchTotal(one) == 1 && TopReason(one) == "probe";
  }

  /**
   A sweep just before the check mends this for all entries but those that expire
   at that very moment, which a sweep spares.
   */
  lemma SweepMends(c: Config, s: State, ip: string, matches: seq<Match>, from: int, to: int)
    ensures CheckedSwept(c, s, ip, matches, from, to).1.block != CheckedFairly(c, s, ip, matches, from, to).1.block <==>
            && AddsToExpired(c, s, ip, matches, from) && s.tree[ip].expires == from && !c.dryRun
            && (s.tree[ip].score + MatchTotal(matches) >= c.threshold) != (MatchTotal(matches) >= c.threshold)
  {
    hide MatchTotal, TopReason, CheckedFrom;
    var t := s.(tree := Swept(s.tree, from));
    ExpiredScoreDecides(c, t, ip, matches, from, to);
    SameWhenSwept(c, s, ip, matches, from, to);
  }

  /** With expiry respected, a sweep just before the check makes no difference to the verdict. */
  lemma SameWhenSwept(c: Config, s: State, ip: string, matches: seq<Match>, from: int, to: int)
    ensures CheckedFairly(c, s.(tree := Swept(s.tree, from)), ip, matches, from, to).1 ==
            CheckedFairly(c, s, ip, matches, from, to).1
  {
    hide MatchTotal, TopReason;
  }

  // ----- the store itself

  class Store {
    const c: Config
    var tree: map<string, Entry>
    var allow: set<string>

    function Value(): State
      reads this
    {
      State(tree, allow)
    }

    constructor (c: Config)
      ensures this.c == c && Value() == State(map[], {})
    {
      this.c := c;
      tree := map[];
      allow := {};
    }

    method RecordIncident(ip: string, reason: string, score: int, from: int, to: int)
      modifies this
      ensures Value() == Apply(c, old(Value()), Call(from, to, Incident(ip, reason, score)))
    {
      if ip == "" || score <= 0 {
        return;
      }
      if ip in allow {
        return;
      }
      if c.exempt(ip) {
        return;
      }
      var existing := 0;
      if ip in tree && from < tree[ip].expires {
        existing := tree[ip].score;
      }
      tree := tree[ip := Entry(existing + score, to, to + c.ttl, reason)];
    }

    method ManualInsertBlocked(ip: string, reason: string, from: int, to: int)
      modifies this
      ensures Value() == Apply(c, old(Value()), Call(from, to, Manual(ip, reason)))
    {
      tree := tree[ip := Entry(c.threshold, from, to + c.ttl, reason)];
    }

    method EvictIP(ip: string)
      modifies this`tree
      ensures forall from, to :: Value() == Apply(c, old(Value()), Call(from, to, Evict(ip)))
    {
      tree := tree - {ip};
    }

    method AddToAllowlist(ip: string)
      modifies this`allow
      ensures forall from, to :: Value() == Apply(c, old(Value()), Call(from, to, Allow(ip)))
    {
      allow := allow + {ip};
    }

    method RemoveFromAllowlist(ip: string)
      modifies this`allow
      ensures forall from, to :: Value() == Apply(c, old(Value()), Call(from, to, Disallow(ip)))
    {
      allow := allow - {ip};
    }

    method SweepExpired(now: int)
      modifies this`tree
      ensures forall from :: Value() == Apply(c, old(Value()), Call(from, now, Sweep))
    {
      var expired: seq<string> := [];
      var todo := tree.Keys;
      while todo != {}
        invariant tree == old(tree) && todo <= tree.Keys
        invariant forall ip :: ip in expired <==> ip in tree && ip !in todo && tree[ip].expires < now
        decreases todo
      {
        var ip :| ip in todo;
        if now > tree[ip].expires {
          expired := expired + [ip];
        }
        todo := todo - {ip};
      }
      if |expired| > 0 {
        var txn := tree;
        for i := 0 to |expired|
          invariant tree == old(tree)
          invariant forall ip :: ip in txn <==> ip in tree && ip !in expired[..i]
          invariant forall ip :: ip in txn ==> txn[ip] == tree[ip]
        {
          txn := txn - {expired[i]};
        }
        assert txn == Swept(tree, now);
        tree := txn;
      } else {
        assert tree == Swept(tree, now);
      }
    }

    method CheckKnownOnly(ip: string, now: int) returns (v: Verdict)
      ensures v == Known(c, Value(), ip, now)
    {
      if ip in allow {
        return Verdict(false, "");
      }
      if ip in tree {
        if now < tree[ip].expires && tree[ip].score >= c.threshold {
          return Verdict(!c.dryRun, tree[ip].reason);
        }
      }
      return Verdict(false, "");
    }

    /** `from` is the clock when the entry is looked at, `to` when the new one is made. */
    method CheckAndBlock(ip: string, matches: seq<Match>, from: int, to: int) returns (v: Verdict)
      modifies this`tree
      ensures (Value(), v) == Checked(c, old(Value()), ip, matches, from, to)
    {
      if ip in allow {
        return Verdict(false, "");
      }
      if c.exempt(ip) {
        return Verdict(false, "");
      }
      var snapshot := tree;
      if ip in snapshot {
        if from < snapshot[ip].expires {
          if snapshot[ip].score >= c.threshold {
            return Verdict(!c.dryRun, snapshot[ip].reason);
          }
        } else {
          EvictIP(ip);
          assert Value() == Apply(c, State(snapshot, allow), Call(from, to, Evict(ip)));
        }
      }
      if |matches| == 0 {
        return Verdict(false, "");
      }
      var total, reason := Tally(matches);
      var existing := 0;
      if ip in snapshot {
        existing := snapshot[ip].score;
      }
      var score := existing + total;
      tree := tree[ip := Entry(score, to, to + c.ttl, reason)];
      assert tree == old(tree)[ip := Entry(score, to, to + c.ttl, reason)];
      if score >= c.threshold {
        if c.dryRun {
          return Verdict(false, "");
        }
        return Verdict(true, reason);
      }
      return Verdict(false, "");
    }

    method Tally(matches: seq<Match>) returns (total: int, reason: string)
      ensures total == MatchTotal(matches) && reason == TopReason(matches)
    {
      total, reason := 0, "";
      for i := 0 to |matches|
        invariant total == MatchTotal(matches[..i]) && reason == TopReason(matches[..i])
      {
        assert matches[..i + 1][..i] == matches[..i];
        total := total + matches[i].score;
        if matches[i].score > 0 {
          reason := matches[i].reason;
        }
      }
      assert matches[..|matches|] == matches;
    }
  }
}
