/**
 The bounce map: a visit is created by one request, claimed by a second request
 or by the stale sweeper, queued, and written by one writer that runs up to two
 callbacks. Consent decisions travel in the bounce data. The sweeper looks at an
 entry and deletes it in two steps, and a claim takes the entry and then merges its
 data key by key, as they do in the source.
 */
module Bounces {
  import opened Results
  import opened Consent

  /** The channel's capacity: 2 ^ 16 is an exclusive or in the source language. */
  const QUEUE_CAPACITY := 18

  const PAGE_VIEW := 1

  datatype Server = Server(id: string, mode: string)

  /** One call of the consent resolver by a request handler. */
  datatype Resolution = Resolution(server: Server, body: Option<ConsentState>, gpc: string)

  /** The resolver call of the request that created or claimed a bounce. */
  datatype Call = Call(id: nat, res: Resolution)

  function Verdict(r: Resolution): Decision {
    Resolve(r.server.mode, r.body, r.gpc)
  }

  datatype Origin = Iframe | NoScript

  /** The second callback: none yet, that of a hello request, or that of a noscript request. */
  datatype Second = Unclaimed | ByHello(code: int) | ByNoScript

  /** `creator` is captured by the first callback; `host` and `decision` are data a claim may overwrite. */
  datatype Bounce = Bounce(origin: Origin, creator: Server, url: string,
                           host: Server, decision: Decision, second: Second, sawUrl: bool)

  /** A committed page view, and the server whose forwarders and consent log received it. */
  datatype View = View(id: nat, server: Server, analytics: bool, marketing: bool, reportedTo: Server)

  function ViewOf(id: nat, b: Bounce, reportedTo: Server): View {
    View(id, b.host, b.decision.state.analytics, b.decision.state.marketing, reportedTo)
  }

  /** The creator's callback: a page view unless there is no URL or consent blocks it. */
  function RunFirst(id: nat, b: Bounce): (Bounce, seq<View>) {
    if b.url == "" || b.decision.block then (b, [])
    else (b.(sawUrl := true), [ViewOf(id, b, if b.origin.NoScript? then b.creator else b.host)])
  }

  /** The claimer's callback: a page view unless one was already seen. */
  function RunSecond(id: nat, b: Bounce): (Bounce, seq<View>) {
    if b.second.ByHello? && b.second.code == PAGE_VIEW && !b.sawUrl
    then (b.(sawUrl := true), [ViewOf(id, b, b.host)])
    else (b, [])
  }

  function RunBoth(id: nat, b: Bounce): (Bounce, seq<View>) {
    var (b1, v1) := RunFirst(id, b);
    var (b2, v2) := RunSecond(id, b1);
    (b2, v1 + v2)
  }

  datatype Sweeper = Idle | Visited(id: nat) | Sending(id: nat)

  /**
   A claim that has taken its bounce: the resolver call whose data it merges, if it
   has any, the callback it brings, and which keys it has merged.
   */
  datatype Merge = Merge(call: Option<Resolution>, second: Second, host: bool, decision: bool)

  function HelloMerge(code: int, res: Resolution): Merge {
    Merge(Some(res), ByHello(code), false, false)
  }

  const NOSCRIPT_MERGE := Merge(None, ByNoScript, true, true)

  /**
   Bounces 0..|bounces|-1 have been created. `waiting` are the keys of the map,
   `merging` the claims that merge their data, `sending` those blocked on the
   queue, `raced` the bounces claimed between the sweeper's visit and its deletion,
   `sources` the bounces of the page views as they were when written, and `log` the
   resolver calls of the requests that created or claimed a bounce.
   */
  datatype State = State(bounces: seq<Bounce>, waiting: set<nat>, merging: map<nat, Merge>, sending: multiset<nat>,
                         sweeper: Sweeper, queue: seq<nat>, writes: multiset<nat>, views: seq<View>,
                         sources: seq<Bounce>, raced: set<nat>, log: seq<Call>)

  const START := State([], {}, map[], multiset{}, Idle, [], multiset{}, [], [], {}, [])

  datatype Step =
    | Create(origin: Origin, url: string, res: Resolution)
    | ClaimByHello(id: nat, code: int, res: Resolution)
    | ClaimByNoScript(id: nat)
    | MergeHost(id: nat)
    | MergeDecision(id: nat)
    | EndMerge(id: nat)
    | Visit(id: nat)
    | Delete
    | EnqueueClaimed(id: nat)
    | EnqueueSwept
    | Write

  predicate Merges(s: State, id: nat) {
    id in s.merging && id < |s.bounces|
  }

  /** Creating requests carry no consent payload; a hello that is blocked claims nothing. */
  predicate Enabled(s: State, step: Step) {
    match step
    case Create(_, _, res) => res.body.None?
    case ClaimByHello(id, _, res) => !Verdict(res).block
    case ClaimByNoScript(id) => true
    case MergeHost(id) => Merges(s, id) && s.merging[id].call.Some? && !s.merging[id].host
    case MergeDecision(id) => Merges(s, id) && s.merging[id].call.Some? && !s.merging[id].decision
    case EndMerge(id) => Merges(s, id) && s.merging[id].host && s.merging[id].decision
    case Visit(id) => s.sweeper.Idle? && id in s.waiting
    case Delete => s.sweeper.Visited?
    case EnqueueClaimed(id) => id in s.sending && |s.queue| < QUEUE_CAPACITY
    case EnqueueSwept => s.sweeper.Sending? && |s.queue| < QUEUE_CAPACITY
    case Write => s.queue != [] && s.queue[0] < |s.bounces|
  }

  predicate Takes(s: State, id: nat) {
    id in s.waiting && id < |s.bounces|
  }

  /** Takes a waiting bounce out of the map for a claim; an unknown id is an error that changes nothing. */
  function Take(s: State, id: nat, m: Merge): State {
    if !Takes(s, id) then s
    else s.(waiting := s.waiting - {id}, merging := s.merging[id := m],
            raced := if s.sweeper == Visited(id) then s.raced + {id} else s.raced,
            log := if m.call.Some? then s.log + [Call(id, m.call.value)] else s.log)
  }

  function Apply(s: State, step: Step): State
    requires Enabled(s, step)
  {
    match step
    case Create(origin, url, res) =>
      s.(bounces := s.bounces + [Bounce(origin, res.server, url, res.server, Verdict(res), Unclaimed, false)],
         waiting := s.waiting + {|s.bounces|}, log := s.log + [Call(|s.bounces|, res)])
    case ClaimByHello(id, code, res) => Take(s, id, HelloMerge(code, res))
    case ClaimByNoScript(id) => Take(s, id, NOSCRIPT_MERGE)
    case MergeHost(id) =>
      s.(bounces := s.bounces[id := s.bounces[id].(host := s.merging[id].call.value.server)],
         merging := s.merging[id := s.merging[id].(host := true)])
    case MergeDecision(id) =>
      s.(bounces := s.bounces[id := s.bounces[id].(decision := Verdict(s.merging[id].call.value))],
         merging := s.merging[id := s.merging[id].(decision := true)])
    case EndMerge(id) =>
      s.(bounces := s.bounces[id := s.bounces[id].(second := s.merging[id].second)],
         merging := s.merging - {id}, sending := s.sending + multiset{id})
    case Visit(id) => s.(sweeper := Visited(id))
    case Delete => s.(waiting := s.waiting - {s.sweeper.id}, sweeper := Sending(s.sweeper.id))
    case EnqueueClaimed(id) => s.(sending := s.sending - multiset{id}, queue := s.queue + [id])
    case EnqueueSwept => s.(sweeper := Idle, queue := s.queue + [s.sweeper.id])
    case Write =>
      var id := s.queue[0];
      var (b, views) := RunBoth(id, s.bounces[id]);
      s.(bounces := s.bounces[id := b], queue := s.queue[1..],
         writes := s.writes + multiset{id}, views := s.views + views,
         sources := s.sources + (if views == [] then [] else [s.bounces[id]]))
  }

  ghost predicate Next(s: State, t: State) {
    exists step :: Enabled(s, step) && t == Apply(s, step)
  }

  ghost predicate IsRun(run: seq<State>) {
    run != [] && run[0] == START && forall i :: 0 < i < |run| ==> Next(run[i - 1], run[i])
  }

  /** The shared map, the queue and the bounces, updated in place by each atomic step. */
  class BounceMap {
    var bounces: seq<Bounce>
    var waiting: set<nat>
    var merging: map<nat, Merge>
    var sending: multiset<nat>
    var sweeper: Sweeper
    var queue: seq<nat>
    var writes: multiset<nat>
    var views: seq<View>
    ghost var sources: seq<Bounce>
    ghost var raced: set<nat>
    ghost var log: seq<Call>

    ghost function Now(): State
      reads this
    {
      State(bounces, waiting, merging, sending, sweeper, queue, writes, views, sources, raced, log)
    }

    constructor ()
      ensures Now() == START
    {
      bounces, waiting, merging, sending, sweeper := [], {}, map[], multiset{}, Idle;
      queue, writes, views, sources, raced, log := [], multiset{}, [], [], {}, [];
    }

    /** Registers a bounce whose first callback will run when it is written. */
    method NewBounceWithVisitor(origin: Origin, url: string, res: Resolution) returns (id: nat)
      requires res.body.None?
      modifies this
      ensures id == old(|bounces|) && Now() == Apply(old(Now()), Create(origin, url, res))
    {
      id := |bounces|;
      bounces := bounces + [Bounce(origin, res.server, url, res.server, Verdict(res), Unclaimed, false)];
      waiting := waiting + {id};
      log := log + [Call(id, res)];
    }

    /** Gets and deletes the entry in one step. */
    method TakeBounce(id: nat, m: Merge) returns (found: bool)
      modifies this
      ensures found == Takes(old(Now()), id) && Now() == Take(old(Now()), id, m)
    {
      found := id in waiting && id < |bounces|;
      if found {
        if sweeper == Visited(id) {
          raced := raced + {id};
        }
        if m.call.Some? {
          log := log + [Call(id, m.call.value)];
        }
        waiting := waiting - {id};
        merging := merging[id := m];
      }
    }

    /** Merges the two keys that matter here, in whatever order the map of data yields them. */
    method MergeKeys(id: nat, hostFirst: bool)
      requires Merges(Now(), id) && merging[id].call.Some? && !merging[id].host && !merging[id].decision
      modifies this`bounces, this`merging
      ensures Now() == Merged(old(Now()), id)
    {
      var call, b := merging[id].call.value, bounces[id];
      if hostFirst {
        bounces := bounces[id := b.(host := call.server)];
        bounces := bounces[id := bounces[id].(decision := Verdict(call))];
      } else {
        bounces := bounces[id := b.(decision := Verdict(call))];
        bounces := bounces[id := bounces[id].(host := call.server)];
      }
      merging := merging[id := merging[id].(host := true, decision := true)];
    }

    /** Sets the claimer's callback and goes on to the queue. */
    method FinishMerge(id: nat)
      requires Enabled(Now(), EndMerge(id))
      modifies this`bounces, this`merging, this`sending
      ensures Now() == Apply(old(Now()), EndMerge(id))
    {
      bounces := bounces[id := bounces[id].(second := merging[id].second)];
      merging := merging - {id};
      sending := sending + multiset{id};
    }

    /** A claim that nothing comes between: an unknown id is an error that changes nothing. */
    method ReportBounceBack(id: nat, m: Merge, hostFirst: bool) returns (found: bool)
      requires m.call.Some? ==> !m.host && !m.decision
      requires m.call.None? ==> m.host && m.decision
      modifies this
      ensures found == Takes(old(Now()), id)
      ensures Now() == if found then Claimed(old(Now()), id, m) else old(Now())
    {
      found := TakeBounce(id, m);
      if found {
        if m.call.Some? {
          MergeKeys(id, hostFirst);
        }
        FinishMerge(id);
      }
    }

    /** The sweeper finds a stale entry; whether it is stale is up to the clock. */
    method VisitStale(id: nat)
      requires Enabled(Now(), Visit(id))
      modifies this
      ensures Now() == Apply(old(Now()), Visit(id))
    {
      sweeper := Visited(id);
    }

    /** The sweeper deletes the key it visited, whoever holds the bounce by now. */
    method DeleteStale()
      requires Enabled(Now(), Delete)
      modifies this
      ensures Now() == Apply(old(Now()), Delete)
    {
      waiting := waiting - {sweeper.id};
      sweeper := Sending(sweeper.id);
    }

    /** The writer takes the oldest queued bounce and runs its callbacks. */
    method WriteOne()
      requires Enabled(Now(), Write)
      modifies this
      ensures Now() == Apply(old(Now()), Write)
    {
      hide RunFirst, RunSecond, Verdict;
      var id := queue[0];
      ghost var was := bounces[id];
      queue := queue[1..];
      var (b1, v1) := RunFirst(id, bounces[id]);
      var (b2, v2) := RunSecond(id, b1);
      bounces := bounces[id := b2];
      sources := sources + (if v1 + v2 == [] then [] else [was]);
      views := views + (v1 + v2);
      writes := writes + multiset{id};
    }
  }

  /** Both keys merged. */
  function Merged(s: State, id: nat): State
    requires Merges(s, id) && s.merging[id].call.Some?
  {
    var res := s.merging[id].call.value;
    s.(bounces := s.bounces[id := s.bounces[id].(host := res.server, decision := Verdict(res))],
       merging := s.merging[id := s.merging[id].(host := true, decision := true)])
  }

  /** A whole claim. */
  function Claimed(s: State, id: nat, m: Merge): State
    requires Takes(s, id) && (m.call.None? ==> m.host && m.decision)
  {
    var t := Take(s, id, m);
    Apply(if m.call.Some? then Merged(t, id) else t, EndMerge(id))
  }

  /** The keys may be merged in either order. */
  lemma MergeOrder(s: State, id: nat)
    requires Enabled(s, MergeHost(id)) && Enabled(s, MergeDecision(id))
    ensures Enabled(Apply(s, MergeHost(id)), MergeDecision(id)) && Enabled(Apply(s, MergeDecision(id)), MergeHost(id))
    ensures Apply(Apply(s, MergeHost(id)), MergeDecision(id)) == Merged(s, id)
    ensures Apply(Apply(s, MergeDecision(id)), MergeHost(id)) == Merged(s, id)
  {
    hide Verdict;
    var hostFirst, last := Apply(Apply(s, MergeHost(id)), MergeDecision(id)), Apply(Apply(s, MergeDecision(id)), MergeHost(id));
    assert hostFirst.bounces == Merged(s, id).bounces && hostFirst.merging == Merged(s, id).merging;
    assert last.bounces == Merged(s, id).bounces && last.merging == Merged(s, id).merging;
  }

  // ----- conservation

  /** How often a bounce is held for writing or has been written. */
  function Places(s: State, id: nat): nat {
    (if id in s.waiting then 1 else 0)
    + (if id in s.merging then 1 else 0)
    + s.sending[id]
    + (if s.sweeper == Sending(id) || (s.sweeper == Visited(id) && id !in s.waiting) then 1 else 0)
    + multiset(s.queue)[id]
    + s.writes[id]
  }

  function Allowed(s: State, id: nat): nat {
    if id >= |s.bounces| then 0 else if id in s.raced then 2 else 1
  }

  ghost predicate Conserved(s: State) {
    && |s.queue| <= QUEUE_CAPACITY
    && (forall id :: Places(s, id) == Allowed(s, id))
    && (forall id :: id in s.raced ==> id < |s.bounces| && id !in s.waiting)
  }

  lemma ConservedCreate(s: State, step: Step)
    requires Conserved(s) && Enabled(s, step) && step.Create?
    ensures Conserved(Apply(s, step))
  {
    var t, n := Apply(s, step), |s.bounces|;
    forall id ensures Places(t, id) == Allowed(t, id) {
      assert Places(s, id) == Allowed(s, id);
      if id == n {
        assert id !in s.raced;
      }
    }
  }

  lemma ConservedClaim(s: State, id: nat, m: Merge)
    requires Conserved(s)
    ensures Conserved(Take(s, id, m))
  {
    var t := Take(s, id, m);
    assert Places(s, id) == Allowed(s, id);
    forall k ensures Places(t, k) == Allowed(t, k) {
      assert Places(s, k) == Allowed(s, k);
    }
  }

  lemma ConservedMerge(s: State, step: Step)
    requires Conserved(s) && Enabled(s, step) && (step.MergeHost? || step.MergeDecision? || step.EndMerge?)
    ensures Conserved(Apply(s, step))
  {
    hide Verdict;
    var t := Apply(s, step);
    forall k ensures Places(t, k) == Allowed(t, k) {
      assert Places(s, k) == Allowed(s, k);
    }
  }

  lemma ConservedSweep(s: State, step: Step)
    requires Conserved(s) && Enabled(s, step) && (step.Visit? || step.Delete?)
    ensures Conserved(Apply(s, step))
  {
    var t := Apply(s, step);
    forall id ensures Places(t, id) == Allowed(t, id) {
      assert Places(s, id) == Allowed(s, id);
    }
  }

  lemma QueuedOneMore(s: State, last: nat, id: nat)
    ensures multiset(s.queue + [last])[id] == multiset(s.queue)[id] + if id == last then 1 else 0
  {
    assert multiset(s.queue + [last]) == multiset(s.queue) + multiset{last};
  }

  lemma ConservedEnqueue(s: State, step: Step)
    requires Conserved(s) && Enabled(s, step) && (step.EnqueueClaimed? || step.EnqueueSwept?)
    ensures Conserved(Apply(s, step))
  {
    hide Verdict, RunBoth;
    var t, last := Apply(s, step), if step.EnqueueClaimed? then step.id else s.sweeper.id;
    forall id ensures Places(t, id) == Allowed(t, id) {
      assert Places(s, id) == Allowed(s, id);
      QueuedOneMore(s, last, id);
    }
  }

  lemma ConservedWrite(s: State)
    requires Conserved(s) && Enabled(s, Write)
    ensures Conserved(Apply(s, Write))
  {
    hide RunBoth;
    var t := Apply(s, Write);
    assert s.queue == [s.queue[0]] + t.queue;
    assert multiset(s.queue) == multiset{s.queue[0]} + multiset(t.queue);
    forall id ensures Places(t, id) == Allowed(t, id) {
      assert Places(s, id) == Allowed(s, id);
    }
  }

  lemma ConservedStep(s: State, step: Step)
    requires Conserved(s) && Enabled(s, step)
    ensures Conserved(Apply(s, step))
  {
    hide Conserved, Verdict, RunBoth;
    match step
    case Create(_, _, _) => ConservedCreate(s, step);
    case ClaimByHello(id, code, res) => ConservedClaim(s, id, HelloMerge(code, res));
    case ClaimByNoScript(id) => ConservedClaim(s, id, NOSCRIPT_MERGE);
    case MergeHost(_) => ConservedMerge(s, step);
    case MergeDecision(_) => ConservedMerge(s, step);
    case EndMerge(_) => ConservedMerge(s, step);
    case Visit(_) => ConservedSweep(s, step);
    case Delete => ConservedSweep(s, step);
    case Write => ConservedWrite(s);
    case _ => ConservedEnqueue(s, step);
  }

  // ----- page views

  function ViewsOf(views: seq<View>, id: nat): nat {
    if views == [] then 0 else ViewsOf(views[..|views| - 1], id) + (if views[|views| - 1].id == id then 1 else 0)
  }

  lemma {:induction false} ViewsAppend(views: seq<View>, more: seq<View>, id: nat)
    ensures ViewsOf(views + more, id) == ViewsOf(views, id) + ViewsOf(more, id)
  {
    if more == [] {
      assert views + more == views;
    } else {
      var all := views + more;
      assert all[..|all| - 1] == views + more[..|more| - 1];
      ViewsAppend(views, more[..|more| - 1], id);
    }
  }

  /** The two callbacks of one write commit at most one page view, with the data's server and flags. */
  lemma OneViewPerWrite(id: nat, b: Bounce)
    ensures var (b', views) := RunBoth(id, b);
            && |views| <= 1
            && (views != [] ==> views == [ViewOf(id, b, views[0].reportedTo)] && b'.sawUrl)
            && b' == b.(sawUrl := b'.sawUrl)
            && (views != [] && b.decision.block ==> b.second.ByHello?)
  {
  }

  ghost predicate ViewsBounded(s: State) {
    forall id :: ViewsOf(s.views, id) <= s.writes[id]
  }

  lemma ViewsBoundedStep(s: State, step: Step)
    requires ViewsBounded(s) && Enabled(s, step)
    ensures ViewsBounded(Apply(s, step))
  {
    if step.Write? {
      var id := s.queue[0];
      var views := RunBoth(id, s.bounces[id]).1;
      OneViewPerWrite(id, s.bounces[id]);
      forall k ensures ViewsOf(s.views + views, k) <= (s.writes + multiset{id})[k] {
        ViewsAppend(s.views, views, k);
        assert ViewsOf(s.views, k) <= s.writes[k];
        assert |views| == 1 ==> views[..0] == [] && ViewsOf(views, k) == (if k == id then 1 else 0);
      }
    }
  }

  // ----- consent

  /** The server and the decision are those of one resolver call for the bounce. */
  ghost predicate Resolved(log: seq<Call>, id: nat, server: Server, d: Decision) {
    exists i :: 0 <= i < |log| && log[i].id == id && log[i].res.server == server && Verdict(log[i].res) == d
  }

  /** The page view carries the server and the flags of the call, which did not block. */
  predicate Grants(c: Call, v: View) {
    var d := Verdict(c.res);
    c.id == v.id && c.res.server == v.server && !d.block
    && d.state.analytics == v.analytics && d.state.marketing == v.marketing
  }

  /** The page view is granted by a request that created or claimed its own bounce. */
  ghost predicate Lawful(log: seq<Call>, v: View) {
    exists i :: 0 <= i < |log| && Grants(log[i], v)
  }

  /** The server and the decision of a bounce that no claim is merging into. */
  ghost predicate DataResolved(log: seq<Call>, id: nat, b: Bounce) {
    Resolved(log, id, b.host, b.decision) && (b.second.ByHello? ==> !b.decision.block)
  }

  /** What a claim has merged is its own, and what it has not merged it will. */
  ghost predicate MergeResolved(log: seq<Call>, id: nat, b: Bounce, m: Merge) {
    match m.call
    case None => Resolved(log, id, b.host, b.decision) && !m.second.ByHello?
    case Some(res) =>
      && Call(id, res) in log && !Verdict(res).block
      && (m.host ==> b.host == res.server) && (m.decision ==> b.decision == Verdict(res))
  }

  ghost predicate ConsentKept(s: State) {
    && (forall id :: 0 <= id < |s.bounces| && id !in s.merging ==> DataResolved(s.log, id, s.bounces[id]))
    && (forall id :: 0 <= id < |s.bounces| && id in s.merging ==>
          MergeResolved(s.log, id, s.bounces[id], s.merging[id]))
    && (forall i :: 0 <= i < |s.views| && s.views[i].id !in s.raced ==> Lawful(s.log, s.views[i]))
  }

  lemma LogGrows(log: seq<Call>, c: Call, id: nat, server: Server, d: Decision, v: View)
    ensures Resolved(log, id, server, d) ==> Resolved(log + [c], id, server, d)
    ensures Lawful(log, v) ==> Lawful(log + [c], v)
    ensures Resolved(log + [c], c.id, c.res.server, Verdict(c.res))
  {
    hide Verdict, Grants;
    var more := log + [c];
    if i :| 0 <= i < |log| && log[i].id == id && log[i].res.server == server && Verdict(log[i].res) == d {
      assert more[i] == log[i];
    }
    if i :| 0 <= i < |log| && Grants(log[i], v) {
      assert more[i] == log[i];
    }
    assert more[|log|] == c;
  }

  lemma DataGrows(log: seq<Call>, c: Call, id: nat, b: Bounce, m: Merge)
    ensures DataResolved(log, id, b) ==> DataResolved(log + [c], id, b)
    ensures MergeResolved(log, id, b, m) ==> MergeResolved(log + [c], id, b, m)
  {
    hide Resolved, Lawful, Verdict;
    LogGrows(log, c, id, b.host, b.decision, View(id, b.host, false, false, b.host));
  }

  lemma ConsentLogged(s: State, c: Call)
    requires ConsentKept(s)
    ensures ConsentKept(s.(log := s.log + [c])) && Resolved(s.log + [c], c.id, c.res.server, Verdict(c.res))
  {
    hide Verdict, Resolved, Lawful, DataResolved, MergeResolved;
    var t := s.(log := s.log + [c]);
    var d, v := Verdict(c.res), View(0, c.res.server, false, false, c.res.server);
    LogGrows(s.log, c, c.id, c.res.server, d, v);
    forall id | 0 <= id < |s.bounces| && id !in s.merging ensures DataResolved(t.log, id, s.bounces[id]) {
      DataGrows(s.log, c, id, s.bounces[id], NOSCRIPT_MERGE);
    }
    forall id | 0 <= id < |s.bounces| && id in s.merging ensures MergeResolved(t.log, id, s.bounces[id], s.merging[id]) {
      DataGrows(s.log, c, id, s.bounces[id], s.merging[id]);
    }
    forall i | 0 <= i < |s.views| && s.views[i].id !in s.raced ensures Lawful(t.log, s.views[i]) {
      LogGrows(s.log, c, c.id, c.res.server, d, s.views[i]);
    }
  }

  lemma ConsentCreate(s: State, step: Step)
    requires Conserved(s) && ConsentKept(s) && Enabled(s, step) && step.Create?
    ensures ConsentKept(Apply(s, step))
  {
    hide Verdict, Resolved, Lawful, MergeResolved, Conserved;
    ConsentLogged(s, Call(|s.bounces|, step.res));
    NewIsFree(s);
  }

  lemma NewIsFree(s: State)
    requires Conserved(s)
    ensures |s.bounces| !in s.merging
  {
    assert Places(s, |s.bounces|) == Allowed(s, |s.bounces|);
  }

  lemma ConsentTake(s: State, id: nat, m: Merge)
    requires ConsentKept(s) && (m == NOSCRIPT_MERGE || (exists code, res :: m == HelloMerge(code, res) && !Verdict(res).block))
    requires Conserved(s)
    ensures ConsentKept(Take(s, id, m))
  {
    hide Verdict, Resolved, Lawful, Conserved;
    if Takes(s, id) {
      WaitingIsFree(s, id);
      if m.call.Some? {
        ConsentLogged(s, Call(id, m.call.value));
        assert (s.log + [Call(id, m.call.value)])[|s.log|] == Call(id, m.call.value);
      }
    }
  }

  lemma WaitingIsFree(s: State, id: nat)
    requires Conserved(s) && id in s.waiting
    ensures id !in s.merging
  {
    assert Places(s, id) == Allowed(s, id);
  }

  lemma ConsentMerge(s: State, step: Step)
    requires ConsentKept(s) && Enabled(s, step) && (step.MergeHost? || step.MergeDecision? || step.EndMerge?)
    ensures ConsentKept(Apply(s, step))
  {
    hide Verdict, Resolved, Lawful;
    if step.EndMerge? && s.merging[step.id].call.Some? {
      FromCall(s.log, step.id, s.merging[step.id].call.value);
    }
  }

  lemma FromCall(log: seq<Call>, id: nat, res: Resolution)
    requires Call(id, res) in log
    ensures Resolved(log, id, res.server, Verdict(res))
  {
    hide Verdict;
    var i :| 0 <= i < |log| && log[i] == Call(id, res);
  }

  /** A bounce that was not raced is written by no one else while a claim merges. */
  lemma QueuedIsFree(s: State)
    requires Conserved(s) && s.queue != []
    ensures s.queue[0] !in s.waiting && (s.queue[0] !in s.raced ==> s.queue[0] !in s.merging)
  {
    var id := s.queue[0];
    assert id in multiset(s.queue);
    assert Places(s, id) == Allowed(s, id);
  }

  lemma WriteIsLawful(log: seq<Call>, id: nat, b: Bounce)
    requires DataResolved(log, id, b)
    ensures var views := RunBoth(id, b).1; views != [] ==> Lawful(log, views[0])
  {
    OneViewPerWrite(id, b);
    var views := RunBoth(id, b).1;
    var k :| 0 <= k < |log| && log[k].id == id && log[k].res.server == b.host && Verdict(log[k].res) == b.decision;
    assert views != [] ==> Grants(log[k], views[0]);
  }

  lemma ConsentWrite(s: State)
    requires Conserved(s) && ConsentKept(s) && Enabled(s, Write)
    ensures ConsentKept(Apply(s, Write))
  {
    hide Conserved, RunBoth, Verdict, Resolved, Lawful;
    var id, t := s.queue[0], Apply(s, Write);
    var views := RunBoth(id, s.bounces[id]).1;
    QueuedIsFree(s);
    OneViewPerWrite(id, s.bounces[id]);
    if id !in s.raced {
      WriteIsLawful(s.log, id, s.bounces[id]);
    }
    forall i | 0 <= i < |t.views| && t.views[i].id !in t.raced ensures Lawful(t.log, t.views[i]) {
      assert t.views[i] == if i < |s.views| then s.views[i] else views[0];
    }
  }

  lemma ConsentStep(s: State, step: Step)
    requires Conserved(s) && ConsentKept(s) && Enabled(s, step)
    ensures ConsentKept(Apply(s, step))
  {
    hide Conserved, Verdict, Resolved, Lawful, RunBoth, DataResolved, MergeResolved;
    match step
    case Create(_, _, res) => ConsentCreate(s, step);
    case ClaimByHello(id, code, res) => ConsentTake(s, id, HelloMerge(code, res));
    case ClaimByNoScript(id) => ConsentTake(s, id, NOSCRIPT_MERGE);
    case MergeHost(_) => ConsentMerge(s, step);
    case MergeDecision(_) => ConsentMerge(s, step);
    case EndMerge(_) => ConsentMerge(s, step);
    case Write => ConsentWrite(s);
    case _ =>
  }

  // ----- forwarding

  /** The server that a bounce's page view is reported to. */
  function ReporterOf(b: Bounce): Server {
    if b.origin.NoScript? && b.url != "" && !b.decision.block then b.creator else b.host
  }

  /**
   Page views are reported by the data of the time they were written. Unless it was
   raced, a bounce with a page view is settled: that data no longer changes.
   */
  ghost predicate Reported(s: State) {
    |s.sources| == |s.views| &&
    forall k :: 0 <= k < |s.views| ==> ReportedBy(s, s.views[k], s.sources[k])
  }

  ghost predicate ReportedBy(s: State, v: View, b: Bounce) {
    && v.server == b.host && v.reportedTo == ReporterOf(b) && v.id < |s.bounces|
    && (v.id !in s.raced ==>
          && v.id !in s.waiting && v.id !in s.merging
          && s.bounces[v.id] == b.(sawUrl := s.bounces[v.id].sawUrl))
  }

  lemma ReportedByWrite(id: nat, b: Bounce)
    ensures var (after, views) := RunBoth(id, b);
            && after == b.(sawUrl := after.sawUrl)
            && |views| <= 1
            && (views != [] ==> views[0].id == id && views[0].server == b.host && views[0].reportedTo == ReporterOf(b))
  {
  }

  lemma ReportedWrite(s: State)
    requires Conserved(s) && Reported(s) && Enabled(s, Write)
    ensures Reported(Apply(s, Write))
  {
    hide Conserved, RunBoth, ReporterOf, Verdict;
    var id, t := s.queue[0], Apply(s, Write);
    QueuedIsFree(s);
    ReportedByWrite(id, s.bounces[id]);
    var views := RunBoth(id, s.bounces[id]).1;
    forall k | 0 <= k < |t.views| ensures ReportedBy(t, t.views[k], t.sources[k]) {
      assert t.views[k] == if k < |s.views| then s.views[k] else views[0];
      assert t.sources[k] == if k < |s.views| then s.sources[k] else s.bounces[id];
    }
  }

  lemma ReportedStep(s: State, step: Step)
    requires Conserved(s) && Reported(s) && Enabled(s, step)
    ensures Reported(Apply(s, step))
  {
    hide Conserved, RunBoth, ReporterOf, Verdict;
    if step.Write? {
      ReportedWrite(s);
    }
  }

  // ----- whole runs

  ghost predicate Inv(s: State) {
    Conserved(s) && ViewsBounded(s) && ConsentKept(s) && Reported(s)
  }

  lemma {:induction false} InvAlways(run: seq<State>, i: nat)
    requires IsRun(run) && i < |run|
    ensures Inv(run[i])
  {
    hide Apply, Conserved, ViewsBounded, ConsentKept, Reported;
    if i == 0 {
      InitHolds();
    } else {
      InvAlways(run, i - 1);
      var step := StepOf(run[i - 1], run[i]);
      ConservedStep(run[i - 1], step);
      ViewsBoundedStep(run[i - 1], step);
      ConsentStep(run[i - 1], step);
      ReportedStep(run[i - 1], step);
    }
  }

  lemma StepOf(s: State, t: State) returns (step: Step)
    requires Next(s, t)
    ensures Enabled(s, step) && t == Apply(s, step)
  {
    step :| Enabled(s, step) && t == Apply(s, step);
  }

  lemma InitHolds()
    ensures Inv(START)
  {
  }

  /**
   In every run a bounce is held or written in exactly one place, so it is
   written at most once and yields at most one page view, unless it was claimed
   between the sweeper's visit and its deletion; then the bound is two.
   */
  lemma WrittenAtMostOnce(run: seq<State>, i: nat, id: nat)
    requires IsRun(run) && i < |run| && id < |run[i].bounces|
    ensures var s := run[i];
            && Places(s, id) == (if id in s.raced then 2 else 1)
            && ViewsOf(s.views, id) <= s.writes[id] <= (if id in s.raced then 2 else 1)
            && |s.queue| <= QUEUE_CAPACITY
  {
    InvAlways(run, i);
    assert Places(run[i], id) == Allowed(run[i], id);
  }

  /**
   In every run each page view, unless its bounce was raced, carries the server and
   the flags of one and the same resolver call that did not block, made by the
   request that created or claimed its bounce; for an opt-in server its analytics
   consent is true.
   */
  lemma ViewsAreConsented(run: seq<State>, i: nat, k: nat)
    requires IsRun(run) && i < |run| && k < |run[i].views|
    ensures var s, v := run[i], run[i].views[k];
            v.id !in s.raced ==> Lawful(s.log, v) && (Spells(v.server.mode, "opt_in") ==> v.analytics)
  {
    hide IsRun, Conserved, ViewsBounded, Reported;
    InvAlways(run, i);
    var s, v := run[i], run[i].views[k];
    if v.id !in s.raced {
      OptInGrants(s.log, v);
    }
  }

  lemma OptInGrants(log: seq<Call>, v: View)
    requires Lawful(log, v)
    ensures Spells(v.server.mode, "opt_in") ==> v.analytics
  {
    var j :| 0 <= j < |log| && Grants(log[j], v);
    ResolveLaws(log[j].res.server.mode, log[j].res.body, log[j].res.gpc);
  }

  /**
   The first write of a bounce commits one page view, of the bounce's last data,
   exactly when an unblocked URL was seen at its creation or the hello that
   claimed it is a page view; a bounce that has one commits no second by hello.
   */
  lemma CommitsExactlyWhen(id: nat, b: Bounce)
    ensures var (after, views) := RunBoth(id, b);
            var atCreation := b.url != "" && !b.decision.block;
            && |views| <= 1
            && (views != [] <==> atCreation || (b.second == ByHello(PAGE_VIEW) && !b.sawUrl))
            && (views != [] ==> views[0].(reportedTo := b.host) == ViewOf(id, b, b.host))
            && (after.sawUrl <==> b.sawUrl || views != [])
  {
    var (b1, v1) := RunFirst(id, b);
    var (b2, v2) := RunSecond(id, b1);
    assert |v1 + v2| == |v1| + |v2| && (v1 == [] ==> v1 + v2 == v2) && (v2 == [] ==> v1 + v2 == v1);
  }

  /**
   In every run a page view is reported to the server it is stored under exactly
   when it was not written by the callback of a noscript bounce that had been handed
   to another server. The bounce is meant as it was when the view was written; unless
   it was raced, that is how it still is.
   */
  lemma ReportedWhereStored(run: seq<State>, i: nat, k: nat)
    requires IsRun(run) && i < |run| && k < |run[i].views|
    ensures var s, v := run[i], run[i].views[k];
            && k < |s.sources| && v.id < |s.bounces|
            && var b := s.sources[k];
               && (v.reportedTo == v.server <==>
                   !(b.origin.NoScript? && b.creator != b.host && b.url != "" && !b.decision.block))
               && (v.id !in s.raced ==> s.bounces[v.id] == b.(sawUrl := s.bounces[v.id].sawUrl))
  {
    hide IsRun, Conserved, ViewsBounded, ConsentKept;
    InvAlways(run, i);
    assert ReportedBy(run[i], run[i].views[k], run[i].sources[k]);
  }

  // ----- some runs

  lemma Extend(run: seq<State>, step: Step) returns (more: seq<State>)
    requires IsRun(run) && Enabled(run[|run| - 1], step)
    ensures IsRun(more) && more != [] && more[|more| - 1] == Apply(run[|run| - 1], step)
  {
    hide Apply, Enabled;
    more := run + [Apply(run[|run| - 1], step)];
    forall i | 0 < i < |more| ensures Next(more[i - 1], more[i]) {
      if i == |run| {
        assert more[i - 1] == run[|run| - 1];
      } else {
        assert more[i - 1] == run[i - 1] && more[i] == run[i];
      }
    }
  }

  function Fresh(origin: Origin, res: Resolution): Bounce {
    Bounce(origin, res.server, "u", res.server, Verdict(res), Unclaimed, false)
  }

  /** One bounce, created and waiting. */
  lemma OneBounce(origin: Origin, res: Resolution) returns (run: seq<State>)
    requires res.body.None?
    ensures IsRun(run) && run != []
    ensures run[|run| - 1] == START.(bounces := [Fresh(origin, res)], waiting := {0}, log := [Call(0, res)])
  {
    run := [START];
    assert IsRun(run);
    hide IsRun, Verdict;
    run := Extend(run, Create(origin, "u", res));
  }

  /** The bounce is handed to a hello and merged. */
  lemma HandedOver(made: Resolution, taken: Resolution) returns (run: seq<State>)
    requires made.body.None? && !Verdict(taken).block
    ensures IsRun(run) && run != []
    ensures var b := Fresh(NoScript, made).(host := taken.server, decision := Verdict(taken), second := ByHello(PAGE_VIEW));
            run[|run| - 1] == START.(bounces := [b], sending := multiset{0}, log := [Call(0, made), Call(0, taken)])
  {
    hide IsRun, Verdict;
    run := OneBounce(NoScript, made);
    run := Extend(run, ClaimByHello(0, PAGE_VIEW, taken));
    var s := START.(bounces := [Fresh(NoScript, made)], log := [Call(0, made), Call(0, taken)]);
    assert run[|run| - 1] == s.(merging := map[0 := HelloMerge(PAGE_VIEW, taken)]);
    run := Extend(run, MergeHost(0));
    run := Extend(run, MergeDecision(0));
    run := Extend(run, EndMerge(0));
  }

  /** A noscript bounce of one server, claimed by a hello for another: stored under one, reported to the other. */
  lemma ReportedElsewhere(made: Resolution, taken: Resolution) returns (run: seq<State>)
    requires made.body.None? && made.server != taken.server && !Verdict(taken).block
    ensures IsRun(run) && run != []
    ensures var views := run[|run| - 1].views;
            |views| == 1 && views[0].server == taken.server && views[0].reportedTo == made.server
  {
    hide IsRun, Verdict, RunBoth;
    run := HandedOver(made, taken);
    var b := run[|run| - 1].bounces[0];
    run := Extend(run, EnqueueClaimed(0));
    ReportedByWrite(0, b);
    CommitsExactlyWhen(0, b);
    run := Extend(run, Write);
    assert run[|run| - 1].views == RunBoth(0, b).1;
  }

  /**
   A race in which the sweeper's writer comes while the claim merges: the page view
   has the server of one request and the flags of the other, a decision that no
   request got for that server.
   */
  lemma RaceMixes(made: Resolution, taken: Resolution) returns (run: seq<State>)
    requires made.body.None? && !Verdict(made).block && !Verdict(taken).block && made.server != taken.server
    requires Verdict(made).state.analytics != Verdict(taken).state.analytics
    ensures IsRun(run) && run != []
    ensures var s := run[|run| - 1];
            && |s.views| == 1 && s.views[0].server == taken.server
            && s.views[0].analytics == Verdict(made).state.analytics && !Lawful(s.log, s.views[0])
  {
    hide IsRun, Verdict, RunBoth, Lawful;
    run := HalfMerged(made, taken);
    var b := run[|run| - 1].bounces[0];
    run := Extend(run, Delete);
    run := Extend(run, EnqueueSwept);
    CommitsExactlyWhen(0, b);
    run := Extend(run, Write);
    assert run[|run| - 1].views == RunBoth(0, b).1;
    NotGranted(made, taken, run[|run| - 1].views[0]);
  }

  lemma NotGranted(made: Resolution, taken: Resolution, v: View)
    requires made.server != taken.server && v.server == taken.server
    requires v.analytics == Verdict(made).state.analytics != Verdict(taken).state.analytics
    ensures !Lawful([Call(0, made), Call(0, taken)], v)
  {
    hide Verdict;
    assert !Grants(Call(0, made), v) && !Grants(Call(0, taken), v);
  }

  /** The sweeper has looked, a hello has taken the bounce and merged its server only. */
  lemma HalfMerged(made: Resolution, taken: Resolution) returns (run: seq<State>)
    requires made.body.None? && !Verdict(taken).block
    ensures IsRun(run) && run != []
    ensures run[|run| - 1] ==
            START.(bounces := [Fresh(Iframe, made).(host := taken.server)], sweeper := Visited(0), raced := {0},
                   merging := map[0 := HelloMerge(PAGE_VIEW, taken).(host := true)],
                   log := [Call(0, made), Call(0, taken)])
  {
    hide IsRun, Verdict;
    run := OneBounce(Iframe, made);
    run := Extend(run, Visit(0));
    run := Extend(run, ClaimByHello(0, PAGE_VIEW, taken));
    run := Extend(run, MergeHost(0));
  }

  lemma RaceQueues(res: Resolution) returns (run: seq<State>)
    requires res.body.None?
    ensures IsRun(run) && run != []
    ensures run[|run| - 1] == START.(bounces := [Fresh(Iframe, res).(second := ByNoScript)], queue := [0, 0],
                                     raced := {0}, log := [Call(0, res)])
  {
    hide IsRun, Verdict;
    run := RaceTakes(res);
    run := Extend(run, EndMerge(0));
    run := Extend(run, EnqueueClaimed(0));
    run := Extend(run, EnqueueSwept);
  }

  lemma RaceTakes(res: Resolution) returns (run: seq<State>)
    requires res.body.None?
    ensures IsRun(run) && run != []
    ensures run[|run| - 1] == START.(bounces := [Fresh(Iframe, res)], merging := map[0 := NOSCRIPT_MERGE],
                                     sweeper := Sending(0), raced := {0}, log := [Call(0, res)])
  {
    hide IsRun, Verdict;
    run := OneBounce(Iframe, res);
    run := Extend(run, Visit(0));
    run := Extend(run, ClaimByNoScript(0));
    run := Extend(run, Delete);
  }

  /** The bound of two is reached: two writes and two page views of one bounce. */
  lemma RaceWritesTwice(res: Resolution) returns (run: seq<State>)
    requires res.body.None? && !Verdict(res).block
    ensures IsRun(run) && run != []
    ensures var s := run[|run| - 1]; s.writes[0] == 2 && ViewsOf(s.views, 0) == 2
  {
    hide IsRun, Verdict, RunBoth, ViewsOf;
    run := RaceQueues(res);
    var c := run[|run| - 1].bounces[0];
    var v := ViewOf(0, c, c.host);
    RaceViews(c);
    run := Extend(run, Write);
    assert run[|run| - 1].views == [v];
    run := Extend(run, Write);
    assert run[|run| - 1].views == [v, v];
    TwoViews(v);
  }

  lemma TwoViews(v: View)
    ensures ViewsOf([v, v], v.id) == 2
  {
    var two, one := [v, v], [v];
    assert two[..|two| - 1] == one && one[..|one| - 1] == [];
    assert ViewsOf(one, v.id) == 1;
  }

  lemma RaceViews(c: Bounce)
    requires c.origin.Iframe? && c.url == "u" && !c.decision.block && c.second.ByNoScript?
    ensures RunBoth(0, c) == (c.(sawUrl := true), [ViewOf(0, c, c.host)])
    ensures RunBoth(0, c.(sawUrl := true)) == (c.(sawUrl := true), [ViewOf(0, c, c.host)])
  {
    assert [ViewOf(0, c, c.host)] + [] == [ViewOf(0, c, c.host)];
  }
}
