/**
 The dynamic-DNS updater: the cache of published addresses against the log of
 calls to the DNS provider. The addresses detected, the provider's answers and
 the moment of cancellation are arguments.
 */
module Ddns {
  import opened Results

  datatype Plan = Plan(name: string, host: string, token: string, zone: string, proxied: bool, ttl: int,
                       publishV4: bool, publishV6: bool)

  datatype Family = A | AAAA

  /** One call of the provider, and whether it succeeded. */
  datatype Upsert = Upsert(plan: Plan, family: Family, content: string, ok: bool)

  datatype State = State(plans: seq<Plan>, needV4: bool, needV6: bool, lastIP: map<string, string>, log: seq<Upsert>)

  datatype Target = Target(plan: Plan, family: Family, ip: string)

  // ----- the cache key

  function TypeName(f: Family): string {
    match f case A => "A" case AAAA => "AAAA"
  }

  function Key(name: string, f: Family): string {
    name + "|" + TypeName(f)
  }

  /** Different records have different keys, whatever the names hold. */
  lemma KeyInjective(n1: string, f1: Family, n2: string, f2: Family)
    requires Key(n1, f1) == Key(n2, f2)
    ensures n1 == n2 && f1 == f2
  {
    var k1, k2 := Key(n1, f1), Key(n2, f2);
    assert k1[|k1| - 2] == (if f1 == A then '|' else 'A');
    assert k2[|k2| - 2] == (if f2 == A then '|' else 'A');
    assert k1[..|k1| - |TypeName(f1)| - 1] == n1 && k2[..|k2| - |TypeName(f2)| - 1] == n2;
  }

  // ----- one cycle

  function Ensured(s: State, t: Target, answers: nat -> bool): State {
    var key := Key(t.plan.name, t.family);
    if key in s.lastIP && s.lastIP[key] == t.ip then s
    else
      var ok := answers(|s.log|);
      s.(log := s.log + [Upsert(t.plan, t.family, t.ip, ok)],
         lastIP := if ok then s.lastIP[key := t.ip] else s.lastIP)
  }

  function EnsuredAll(s: State, ts: seq<Target>, answers: nat -> bool): State {
    if ts == [] then s else Ensured(EnsuredAll(s, ts[..|ts| - 1], answers), ts[|ts| - 1], answers)
  }

  function TargetsOf(pl: Plan, v4: string, v6: string): seq<Target> {
    (if pl.publishV4 && v4 != "" then [Target(pl, A, v4)] else []) +
    (if pl.publishV6 && v6 != "" then [Target(pl, AAAA, v6)] else [])
  }

  function Targets(plans: seq<Plan>, v4: string, v6: string): seq<Target> {
    if plans == [] then [] else Targets(plans[..|plans| - 1], v4, v6) + TargetsOf(plans[|plans| - 1], v4, v6)
  }

  /**
   What a cycle meets: the addresses a detection would find (empty for a failed
   one), the provider's answers by call number, and how many checks of the
   context pass before it is cancelled.
   */
  datatype Weather = Weather(v4: string, v6: string, answers: nat -> bool, checks: nat)

  /** The plans a cycle gets to: the first check is made before anything else. */
  function Reached(plans: seq<Plan>, checks: nat): (r: seq<Plan>)
    ensures r <= plans
    ensures checks > |plans| ==> |r| == |plans|
    ensures 0 < checks <= |plans| ==> |r| == checks - 1
    ensures checks == 0 ==> r == []
  {
    if checks == 0 then [] else if checks - 1 < |plans| then plans[..checks - 1] else plans
  }

  function CycleTargets(s: State, w: Weather): seq<Target> {
    Targets(Reached(s.plans, w.checks), if s.needV4 then w.v4 else "", if s.needV6 then w.v6 else "")
  }

  function Cycle(s: State, w: Weather): State {
    EnsuredAll(s, CycleTargets(s, w), w.answers)
  }

  // ----- the updater

  ghost predicate Needs(plans: seq<Plan>, needV4: bool, needV6: bool) {
    && (needV4 <==> exists i :: 0 <= i < |plans| && plans[i].publishV4)
    && (needV6 <==> exists i :: 0 <= i < |plans| && plans[i].publishV6)
  }

  method NeededFamilies(plans: seq<Plan>) returns (needV4: bool, needV6: bool)
    ensures Needs(plans, needV4, needV6)
  {
    needV4, needV6 := false, false;
    for i := 0 to |plans|
      invariant needV4 <==> exists j :: 0 <= j < i && plans[j].publishV4
      invariant needV6 <==> exists j :: 0 <= j < i && plans[j].publishV6
    {
      needV4 := needV4 || plans[i].publishV4;
      needV6 := needV6 || plans[i].publishV6;
    }
  }

  class Updater {
    var plans: seq<Plan>
    var needV4: bool
    var needV6: bool
    var lastIP: map<string, string>
    var log: seq<Upsert>

    function Value(): State
      reads this
    {
      State(plans, needV4, needV6, lastIP, log)
    }

    constructor (plans: seq<Plan>)
      ensures Needs(plans, needV4, needV6) && Value() == State(plans, needV4, needV6, map[], [])
    {
      var v4, v6 := NeededFamilies(plans);
      this.plans, needV4, needV6, lastIP, log := plans, v4, v6, map[], [];
    }

    method AdoptPlans(next: Updater)
      modifies this`plans, this`needV4, this`needV6
      ensures plans == old(next.plans) && needV4 == old(next.needV4) && needV6 == old(next.needV6)
    {
      plans := next.plans;
      needV4 := next.needV4;
      needV6 := next.needV6;
    }

    method Ensure(pl: Plan, f: Family, ip: string, answers: nat -> bool)
      modifies this`lastIP, this`log
      ensures Value() == Ensured(old(Value()), Target(pl, f, ip), answers)
    {
      var key := Key(pl.name, f);
      if key in lastIP && lastIP[key] == ip {
        return;
      }
      var ok := answers(|log|);
      log := log + [Upsert(pl, f, ip, ok)];
      if !ok {
        return;
      }
      lastIP := lastIP[key := ip];
    }

    method EnsurePlan(pl: Plan, v4: string, v6: string, answers: nat -> bool)
      modifies this`lastIP, this`log
      ensures Value() == EnsuredAll(old(Value()), TargetsOf(pl, v4, v6), answers)
    {
      hide Ensured;
      ghost var s := Value();
      if pl.publishV4 && v4 != "" {
        EnsuredOne(s, Target(pl, A, v4), answers);
        Ensure(pl, A, v4, answers);
      }
      ghost var mid := Value();
      if pl.publishV6 && v6 != "" {
        EnsuredOne(mid, Target(pl, AAAA, v6), answers);
        Ensure(pl, AAAA, v6, answers);
      }
      EnsuredAppend(s, if pl.publishV4 && v4 != "" then [Target(pl, A, v4)] else [],
                    if pl.publishV6 && v6 != "" then [Target(pl, AAAA, v6)] else [], answers);
    }

    method RunOnce(w: Weather)
      modifies this`lastIP, this`log
      ensures Value() == Cycle(old(Value()), w)
    {
      hide EnsuredAll, Targets, TargetsOf;
      ghost var s := Value();
      TargetsStep(plans, if needV4 then w.v4 else "", if needV6 then w.v6 else "", 0);
      EnsuredNone(s, w.answers);
      if w.checks == 0 {
        return;
      }
      var snapshot, n4, n6 := plans, needV4, needV6;
      var v4, v6 := "", "";
      if n4 {
        v4 := w.v4;
      }
      if n6 {
        v6 := w.v6;
      }
      var i := 0;
      while i < |snapshot| && i + 1 < w.checks
        invariant 0 <= i <= |snapshot| && i < w.checks
        invariant (plans, needV4, needV6) == (snapshot, n4, n6)
        invariant Value() == EnsuredAll(s, Targets(snapshot[..i], v4, v6), w.answers)
      {
        TargetsStep(snapshot, v4, v6, i);
        EnsuredAppend(s, Targets(snapshot[..i], v4, v6), TargetsOf(snapshot[i], v4, v6), w.answers);
        EnsurePlan(snapshot[i], v4, v6, w.answers);
        i := i + 1;
      }
      assert snapshot[..i] == Reached(snapshot, w.checks);
    }
  }

  lemma EnsuredNone(s: State, answers: nat -> bool)
    ensures EnsuredAll(s, [], answers) == s
  {
  }

  lemma EnsuredOne(s: State, t: Target, answers: nat -> bool)
    ensures EnsuredAll(s, [t], answers) == Ensured(s, t, answers)
  {
    assert [t][..0] == [];
    EnsuredNone(s, answers);
  }

  lemma {:induction false} EnsuredAppend(s: State, x: seq<Target>, y: seq<Target>, answers: nat -> bool)
    ensures EnsuredAll(s, x + y, answers) == EnsuredAll(EnsuredAll(s, x, answers), y, answers)
  {
    if y == [] {
      assert x + y == x;
    } else {
      assert (x + y)[..|x + y| - 1] == x + y[..|y| - 1];
      EnsuredAppend(s, x, y[..|y| - 1], answers);
    }
  }

  lemma TargetsStep(plans: seq<Plan>, v4: string, v6: string, i: nat)
    ensures Targets([], v4, v6) == [] && plans[..0] == []
    ensures i < |plans| ==>
              Targets(plans[..i + 1], v4, v6) == Targets(plans[..i], v4, v6) + TargetsOf(plans[i], v4, v6)
  {
    if i < |plans| {
      assert plans[..i + 1][..i] == plans[..i];
    }
  }

  // ----- what has been published

  /** The content of the last successful call for a record. */
  function Published(log: seq<Upsert>, name: string, f: Family): Option<string> {
    if log == [] then None
    else
      var u := log[|log| - 1];
      if u.ok && u.plan.name == name && u.family == f then Some(u.content)
      else Published(log[..|log| - 1], name, f)
  }

  function Cached(s: State, name: string, f: Family): Option<string> {
    if Key(name, f) in s.lastIP then Some(s.lastIP[Key(name, f)]) else None
  }

  /** Each cached address is the content of the last successful call for that name and type. */
  ghost predicate Truthful(s: State) {
    forall name, f :: Cached(s, name, f) == Published(s.log, name, f)
  }

  /** No call was made for an address already published. */
  ghost predicate Frugal(log: seq<Upsert>) {
    forall k :: 0 <= k < |log| ==> Published(log[..k], log[k].plan.name, log[k].family) != Some(log[k].content)
  }

  lemma EnsuredKeeps(s: State, t: Target, answers: nat -> bool)
    requires Truthful(s) && Frugal(s.log)
    ensures Truthful(Ensured(s, t, answers)) && Frugal(Ensured(s, t, answers).log)
  {
    var r := Ensured(s, t, answers);
    if r != s {
      assert r.log[..|s.log|] == s.log;
      assert Cached(s, t.plan.name, t.family) == Published(s.log, t.plan.name, t.family);
      forall k | 0 <= k < |r.log|
        ensures Published(r.log[..k], r.log[k].plan.name, r.log[k].family) != Some(r.log[k].content)
      {
        assert k < |s.log| ==> r.log[..k] == s.log[..k] && r.log[k] == s.log[k];
      }
      forall name, f ensures Cached(r, name, f) == Published(r.log, name, f) {
        assert Cached(s, name, f) == Published(s.log, name, f);
        if Key(name, f) == Key(t.plan.name, t.family) {
          KeyInjective(name, f, t.plan.name, t.family);
        }
      }
    }
  }

  lemma {:induction false} EnsuredAllKeeps(s: State, ts: seq<Target>, answers: nat -> bool)
    requires Truthful(s) && Frugal(s.log)
    ensures var r := EnsuredAll(s, ts, answers);
            Truthful(r) && Frugal(r.log) && r.plans == s.plans && r.needV4 == s.needV4 && r.needV6 == s.needV6
  {
    hide Truthful, Frugal;
    if ts != [] {
      EnsuredAllKeeps(s, ts[..|ts| - 1], answers);
      EnsuredKeeps(EnsuredAll(s, ts[..|ts| - 1], answers), ts[|ts| - 1], answers);
    }
  }

  datatype Op = Run(w: Weather) | Reload(plans: seq<Plan>, needV4: bool, needV6: bool)

  function Apply(s: State, op: Op): State {
    match op
    case Run(w) => Cycle(s, w)
    case Reload(plans, v4, v6) => s.(plans := plans, needV4 := v4, needV6 := v6)
  }

  function Exec(s: State, ops: seq<Op>): State {
    if ops == [] then s else Apply(Exec(s, ops[..|ops| - 1]), ops[|ops| - 1])
  }

  /**
   Over any run of cycles, detection failures, failed calls, cancellations and
   reloads, the cache is the last successful content of every record, and no
   call ever repeats what is already published.
   */
  lemma {:induction false} CacheIsTruth(init: State, ops: seq<Op>)
    requires init.lastIP == map[] && init.log == []
    ensures Truthful(Exec(init, ops)) && Frugal(Exec(init, ops).log)
  {
    if ops != [] {
      hide Truthful, Frugal;
      var s, op := Exec(init, ops[..|ops| - 1]), ops[|ops| - 1];
      CacheIsTruth(init, ops[..|ops| - 1]);
      match op
      case Run(w) => EnsuredAllKeeps(s, CycleTargets(s, w), w.answers);
      case Reload(plans, v4, v6) => Reloaded(s, plans, v4, v6);
    }
  }

  lemma Reloaded(s: State, plans: seq<Plan>, v4: bool, v6: bool)
    requires Truthful(s)
    ensures Truthful(s.(plans := plans, needV4 := v4, needV6 := v6))
  {
    forall name, f ensures Cached(s.(plans := plans, needV4 := v4, needV6 := v6), name, f) == Cached(s, name, f) {
    }
  }

  // ----- a cycle in which everything succeeds

  predicate Settled(s: State, t: Target) {
    Cached(s, t.plan.name, t.family) == Some(t.ip)
  }

  /** One address per family. */
  ghost predicate Consistent(ts: seq<Target>) {
    forall i, j :: 0 <= i < |ts| && 0 <= j < |ts| && ts[i].family == ts[j].family ==> ts[i].ip == ts[j].ip
  }

  lemma {:induction false} TargetsConsistent(plans: seq<Plan>, v4: string, v6: string)
    ensures forall t :: t in Targets(plans, v4, v6) ==> t.ip == if t.family == A then v4 else v6
  {
    if plans != [] {
      TargetsConsistent(plans[..|plans| - 1], v4, v6);
    }
  }

  lemma {:induction false} TargetsCover(plans: seq<Plan>, v4: string, v6: string, pl: Plan)
    requires pl in plans
    ensures pl.publishV4 && v4 != "" ==> Target(pl, A, v4) in Targets(plans, v4, v6)
    ensures pl.publishV6 && v6 != "" ==> Target(pl, AAAA, v6) in Targets(plans, v4, v6)
  {
    var last := plans[|plans| - 1];
    if pl == last {
      assert pl.publishV4 && v4 != "" ==> TargetsOf(pl, v4, v6)[0] == Target(pl, A, v4);
      assert pl.publishV6 && v6 != "" ==> TargetsOf(pl, v4, v6)[|TargetsOf(pl, v4, v6)| - 1] == Target(pl, AAAA, v6);
    } else {
      TargetsCover(plans[..|plans| - 1], v4, v6, pl);
    }
  }

  lemma SettledStays(s: State, t: Target, u: Target, answers: nat -> bool)
    requires Settled(s, t) && (t.family == u.family ==> t.ip == u.ip)
    ensures Settled(Ensured(s, u, answers), t)
  {
    if Key(t.plan.name, t.family) == Key(u.plan.name, u.family) {
      KeyInjective(t.plan.name, t.family, u.plan.name, u.family);
    }
  }

  lemma {:induction false} AllSettled(s: State, ts: seq<Target>, answers: nat -> bool)
    requires Consistent(ts) && forall k: nat :: answers(k)
    ensures forall i :: 0 <= i < |ts| ==> Settled(EnsuredAll(s, ts, answers), ts[i])
  {
    hide Key;
    if ts != [] {
      var n := |ts| - 1;
      var mid := EnsuredAll(s, ts[..n], answers);
      AllSettled(s, ts[..n], answers);
      forall i | 0 <= i < |ts| ensures Settled(EnsuredAll(s, ts, answers), ts[i]) {
        if i < n {
          assert ts[..n][i] == ts[i];
          SettledStays(mid, ts[i], ts[n], answers);
        }
      }
    }
  }

  /** A list of targets causes no call exactly when each of them is settled. */
  lemma {:induction false} QuietExactlyWhen(s: State, ts: seq<Target>, answers: nat -> bool)
    requires Consistent(ts)
    ensures |EnsuredAll(s, ts, answers).log| >= |s.log|
    ensures EnsuredAll(s, ts, answers).log == s.log <==> forall i :: 0 <= i < |ts| ==> Settled(s, ts[i])
    ensures EnsuredAll(s, ts, answers).log == s.log ==> EnsuredAll(s, ts, answers) == s
  {
    hide Key;
    if ts != [] {
      var n := |ts| - 1;
      QuietExactlyWhen(s, ts[..n], answers);
      assert forall i :: 0 <= i < n ==> ts[..n][i] == ts[i];
    }
  }

  /** Every needed address is detected and nothing is cancelled. */
  predicate Clear(s: State, w: Weather) {
    (s.needV4 ==> w.v4 != "") && (s.needV6 ==> w.v6 != "") && |s.plans| < w.checks
  }

  lemma ClearTargets(s: State, w: Weather)
    requires Needs(s.plans, s.needV4, s.needV6) && Clear(s, w)
    ensures Consistent(CycleTargets(s, w))
    ensures forall pl :: pl in s.plans ==>
              && (pl.publishV4 ==> Target(pl, A, w.v4) in CycleTargets(s, w))
              && (pl.publishV6 ==> Target(pl, AAAA, w.v6) in CycleTargets(s, w))
  {
    hide Targets;
    var v4, v6 := if s.needV4 then w.v4 else "", if s.needV6 then w.v6 else "";
    assert Reached(s.plans, w.checks) == s.plans;
    TargetsConsistent(s.plans, v4, v6);
    forall pl | pl in s.plans
      ensures pl.publishV4 ==> Target(pl, A, w.v4) in CycleTargets(s, w)
      ensures pl.publishV6 ==> Target(pl, AAAA, w.v6) in CycleTargets(s, w)
    {
      var i :| 0 <= i < |s.plans| && s.plans[i] == pl;
      TargetsCover(s.plans, v4, v6, pl);
    }
  }

  /**
   A cycle in which every detection and every call succeeds leaves every planned
   record published at the detected address, and the same cycle again, whatever
   the provider would answer, makes no call and changes nothing.
   */
  lemma FullCycle(s: State, w: Weather, again: Weather)
    requires Truthful(s) && Frugal(s.log) && Needs(s.plans, s.needV4, s.needV6) && Clear(s, w)
    requires forall k: nat :: w.answers(k)
    requires again.v4 == w.v4 && again.v6 == w.v6
    ensures var t := Cycle(s, w);
            && (forall pl :: pl in s.plans && pl.publishV4 ==> Published(t.log, pl.name, A) == Some(w.v4))
            && (forall pl :: pl in s.plans && pl.publishV6 ==> Published(t.log, pl.name, AAAA) == Some(w.v6))
            && Cycle(t, again) == t
  {
    hide Needs, Targets, EnsuredAll, Key, Published, Frugal, Reached;
    var t, ts := Cycle(s, w), CycleTargets(s, w);
    ClearTargets(s, w);
    AllSettled(s, ts, w.answers);
    EnsuredAllKeeps(s, ts, w.answers);
    forall x | x in ts ensures Published(t.log, x.plan.name, x.family) == Some(x.ip) {
      var i :| 0 <= i < |ts| && ts[i] == x;
      assert Settled(t, x);
    }
    forall pl | pl in s.plans
      ensures pl.publishV4 ==> Published(t.log, pl.name, A) == Some(w.v4)
      ensures pl.publishV6 ==> Published(t.log, pl.name, AAAA) == Some(w.v6)
    {
      assert pl.publishV4 ==> Target(pl, A, w.v4) in ts;
      assert pl.publishV6 ==> Target(pl, AAAA, w.v6) in ts;
    }
    RepeatIsQuiet(s, t, w, again);
  }

  lemma RepeatIsQuiet(s: State, t: State, w: Weather, again: Weather)
    requires Needs(s.plans, s.needV4, s.needV6) && Clear(s, w)
    requires t.plans == s.plans && t.needV4 == s.needV4 && t.needV6 == s.needV6
    requires again.v4 == w.v4 && again.v6 == w.v6
    requires forall i :: 0 <= i < |CycleTargets(s, w)| ==> Settled(t, CycleTargets(s, w)[i])
    ensures Cycle(t, again) == t
  {
    hide Needs, Settled, Targets, EnsuredAll;
    var v4, v6 := if s.needV4 then w.v4 else "", if s.needV6 then w.v6 else "";
    var reached := Reached(t.plans, again.checks);
    var ts, rs := Targets(s.plans, v4, v6), Targets(reached, v4, v6);
    assert reached == s.plans[..|reached|];
    TargetsPrefix(s.plans, v4, v6, |reached|);
    TargetsConsistent(reached, v4, v6);
    assert CycleTargets(s, w) == ts && CycleTargets(t, again) == rs;
    assert forall i :: 0 <= i < |rs| ==> rs[i] == ts[i];
    QuietExactlyWhen(t, rs, again.answers);
  }

  lemma {:induction false} TargetsPrefix(plans: seq<Plan>, v4: string, v6: string, k: nat)
    requires k <= |plans|
    ensures Targets(plans[..k], v4, v6) <= Targets(plans, v4, v6)
  {
    if k == |plans| {
      assert plans[..k] == plans;
    } else {
      var front := plans[..|plans| - 1];
      assert front[..k] == plans[..k];
      TargetsPrefix(front, v4, v6, k);
    }
  }

  /** The calls that a list of targets adds are for targets of the list. */
  lemma {:induction false} CallsAreTargets(s: State, ts: seq<Target>, answers: nat -> bool, k: nat)
    requires |s.log| <= k < |EnsuredAll(s, ts, answers).log|
    ensures var u := EnsuredAll(s, ts, answers).log[k]; Target(u.plan, u.family, u.content) in ts
  {
    hide Key;
    if ts != [] {
      var n := |ts| - 1;
      var mid := EnsuredAll(s, ts[..n], answers);
      if k < |mid.log| {
        CallsAreTargets(s, ts[..n], answers, k);
        assert EnsuredAll(s, ts, answers).log[k] == mid.log[k];
      }
    }
  }

  lemma {:induction false} TargetsPlanned(plans: seq<Plan>, v4: string, v6: string, t: Target)
    requires t in Targets(plans, v4, v6)
    ensures t.plan in plans && t.ip != "" && t.ip == (if t.family == A then v4 else v6)
    ensures if t.family == A then t.plan.publishV4 else t.plan.publishV6
  {
    var front := plans[..|plans| - 1];
    if t in Targets(front, v4, v6) {
      TargetsPlanned(front, v4, v6, t);
    }
  }

  /**
   A cycle calls the provider only for planned records of a needed family whose
   address was detected, and with that address: a failed detection publishes nothing.
   */
  lemma OnlyDetectedIsPublished(s: State, w: Weather, k: nat)
    requires |s.log| <= k < |Cycle(s, w).log|
    ensures var u := Cycle(s, w).log[k];
            && u.plan in s.plans && u.content != ""
            && (if u.family == A then s.needV4 && u.plan.publishV4 && u.content == w.v4
                else s.needV6 && u.plan.publishV6 && u.content == w.v6)
  {
    hide EnsuredAll, Targets;
    var v4, v6 := if s.needV4 then w.v4 else "", if s.needV6 then w.v6 else "";
    var u := Cycle(s, w).log[k];
    CallsAreTargets(s, CycleTargets(s, w), w.answers, k);
    TargetsPlanned(Reached(s.plans, w.checks), v4, v6, Target(u.plan, u.family, u.content));
  }

  // ----- expanding a source's records

  function NonEmpty(names: seq<string>): seq<string> {
    if names == [] then []
    else NonEmpty(names[..|names| - 1]) + (if names[|names| - 1] == "" then [] else [names[|names| - 1]])
  }

  /** Exactly the names that are not empty are kept, each as often as it came and in order. */
  lemma {:induction false} NonEmptyKeeps(x: seq<string>, y: seq<string>, n: string)
    ensures NonEmpty(x + y) == NonEmpty(x) + NonEmpty(y)
    ensures NonEmpty([n]) == if |n| > 0 then [n] else []
  {
    assert [n][..0] == [];
    if y == [] {
      assert x + y == x;
    } else {
      assert (x + y)[..|x + y| - 1] == x + y[..|y| - 1];
      NonEmptyKeeps(x, y[..|y| - 1], n);
    }
  }

  method ExpandPlans(records: seq<string>, default: string, token: string, zone: string, proxied: bool, ttl: int,
                     v4: bool, v6: bool) returns (out: seq<Plan>)
    ensures var names := NonEmpty(if records == [] then [default] else records);
            |out| == |names| &&
            forall i :: 0 <= i < |out| ==> out[i] == Plan(names[i], default, token, zone, proxied, ttl, v4, v6)
  {
    var names := records;
    if |names| == 0 {
      names := [default];
    }
    out := [];
    for i := 0 to |names|
      invariant |out| == |NonEmpty(names[..i])|
      invariant forall k :: 0 <= k < |out| ==>
                  out[k] == Plan(NonEmpty(names[..i])[k], default, token, zone, proxied, ttl, v4, v6)
    {
      assert names[..i + 1][..i] == names[..i];
      var n := names[i];
      if n == "" {
        continue;
      }
      out := out + [Plan(n, default, token, zone, proxied, ttl, v4, v6)];
    }
    assert names[..|names|] == names;
  }
}
