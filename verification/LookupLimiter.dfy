/**
 The limiter in front of the address lookups: at most `limit` requests per
 window, and a window that restarts at the first request more than a minute
 after it began.
 */
module LookupLimiter {
  import opened Results

  /** One minute in nanoseconds, as durations count. */
  const WINDOW := 60_000_000_000

  const DEFAULT_LIMIT := 40

  /** The window's start is unset until the first request. */
  datatype State = State(requests: int, start: Option<int>)

  const START := State(0, None)

  function Limit(configured: int): (r: int)
    ensures r > 0 && (configured <= 0 ==> r == 40) && (configured > 0 ==> r == configured)
  {
    if configured <= 0 then DEFAULT_LIMIT else configured
  }

  predicate Restarts(s: State, now: int) {
    s.start.None? || now - s.start.value > WINDOW
  }

  /** The state after a request at `now`, and whether it was admitted. */
  function Ask(s: State, limit: int, now: int): (State, bool) {
    var w := if Restarts(s, now) then State(0, Some(now)) else s;
    if w.requests >= limit then (w, false) else (w.(requests := w.requests + 1), true)
  }

  class Limiter {
    var requests: int
    var start: Option<int>

    constructor ()
      ensures State(requests, start) == START
    {
      requests, start := 0, None;
    }

    /** Sees one lookup; the lookup goes ahead exactly when it is admitted. */
    method Admit(configured: int, now: int) returns (ok: bool)
      modifies this
      ensures (State(requests, start), ok) == Ask(State(old(requests), old(start)), Limit(configured), now)
    {
      var limit := configured;
      if limit <= 0 {
        limit := 40;
      }
      if start.None? || now - start.value > WINDOW {
        requests := 0;
        start := Some(now);
      }
      if requests >= limit {
        return false;
      }
      requests := requests + 1;
      return true;
    }
  }

  // ----- runs

  function After(s: State, limit: int, times: seq<int>): State {
    if times == [] then s else Ask(After(s, limit, times[..|times| - 1]), limit, times[|times| - 1]).0
  }

  predicate AdmittedAt(s: State, limit: int, times: seq<int>, i: nat)
    requires i < |times|
  {
    Ask(After(s, limit, times[..i]), limit, times[i]).1
  }

  /** How many of the requests with index in [lo, hi) are admitted. */
  function Admitted(s: State, limit: int, times: seq<int>, lo: nat, hi: nat): nat
    requires hi <= |times|
    decreases hi
  {
    if hi <= lo then 0
    else Admitted(s, limit, times, lo, hi - 1) + (if AdmittedAt(s, limit, times, hi - 1) then 1 else 0)
  }

  ghost predicate NonDecreasing(times: seq<int>) {
    forall i, j :: 0 <= i < j < |times| ==> times[i] <= times[j]
  }

  /** Whether the request restarts the window. */
  predicate RestartAt(s: State, limit: int, times: seq<int>, i: nat)
    requires i < |times|
  {
    Restarts(After(s, limit, times[..i]), times[i])
  }

  /** No restart among the requests after `lo` and before `hi`: they share the window of `lo`. */
  ghost predicate OneWindow(s: State, limit: int, times: seq<int>, lo: nat, hi: nat)
    requires hi <= |times|
  {
    forall i :: lo < i < hi ==> !RestartAt(s, limit, times, i)
  }

  lemma AfterNext(s: State, limit: int, times: seq<int>, i: nat)
    requires i < |times|
    ensures After(s, limit, times[..i + 1]) == Ask(After(s, limit, times[..i]), limit, times[i]).0
  {
    assert times[..i + 1][..i] == times[..i];
  }

  /** Within one window the counter holds at least what was admitted, and never passes the limit. */
  lemma {:induction false} WindowCounts(s: State, limit: int, times: seq<int>, lo: nat, hi: nat)
    requires 0 <= s.requests <= limit && lo < hi <= |times|
    requires OneWindow(s, limit, times, lo, hi)
    ensures Admitted(s, limit, times, lo, hi) <= After(s, limit, times[..hi]).requests <= limit
    decreases hi
  {
    hide Ask, After;
    AfterNext(s, limit, times, hi - 1);
    Counted(s, limit, times[..hi - 1]);
    if hi - 1 > lo {
      WindowCounts(s, limit, times, lo, hi - 1);
      assert !RestartAt(s, limit, times, hi - 1);
      Step(After(s, limit, times[..hi - 1]), limit, times[hi - 1]);
    } else {
      assert Admitted(s, limit, times, lo, lo) == 0;
      Step(After(s, limit, times[..lo]), limit, times[lo]);
    }
  }

  lemma Step(s: State, limit: int, now: int)
    requires 0 <= s.requests <= limit
    ensures var (t, ok) := Ask(s, limit, now);
            && 0 <= t.requests <= limit
            && (Restarts(s, now) || t.requests == s.requests + if ok then 1 else 0)
            && (ok ==> t.requests > 0)
  {
  }

  lemma {:induction false} Counted(s: State, limit: int, times: seq<int>)
    requires 0 <= s.requests <= limit
    ensures 0 <= After(s, limit, times).requests <= limit
  {
    if times != [] {
      Counted(s, limit, times[..|times| - 1]);
    }
  }

  /** At most `limit` requests are admitted per window. */
  lemma PerWindow(s: State, limit: int, times: seq<int>, lo: nat, hi: nat)
    requires 0 <= s.requests <= limit && lo <= hi <= |times|
    requires OneWindow(s, limit, times, lo, hi)
    ensures Admitted(s, limit, times, lo, hi) <= limit
  {
    if lo < hi {
      WindowCounts(s, limit, times, lo, hi);
    }
  }

  lemma {:induction false} AdmittedSplit(s: State, limit: int, times: seq<int>, lo: nat, mid: nat, hi: nat)
    requires lo <= mid <= hi <= |times|
    ensures Admitted(s, limit, times, lo, hi) ==
            Admitted(s, limit, times, lo, mid) + Admitted(s, limit, times, mid, hi)
    decreases hi
  {
    if mid < hi {
      AdmittedSplit(s, limit, times, lo, mid, hi - 1);
    }
  }

  /** The window's start after a restart stays where it is until the next one. */
  lemma {:induction false} StartStays(s: State, limit: int, times: seq<int>, r: nat, i: nat)
    requires r < i <= |times| && RestartAt(s, limit, times, r) && OneWindow(s, limit, times, r, i)
    ensures After(s, limit, times[..i]).start == Some(times[r])
    decreases i
  {
    hide After;
    AfterNext(s, limit, times, i - 1);
    if i - 1 > r {
      StartStays(s, limit, times, r, i - 1);
      assert !RestartAt(s, limit, times, i - 1);
    }
  }

  /** Within a minute of a restart there is no other one. */
  lemma {:induction false} RestartsApart(s: State, limit: int, times: seq<int>, r: nat, hi: nat)
    requires NonDecreasing(times) && r < hi <= |times| && RestartAt(s, limit, times, r)
    requires times[hi - 1] - times[r] <= WINDOW
    ensures OneWindow(s, limit, times, r, hi)
    decreases hi
  {
    if r + 1 < hi {
      RestartsApart(s, limit, times, r, hi - 1);
      StartStays(s, limit, times, r, hi - 1);
    }
  }

  lemma {:induction false} FirstRestart(s: State, limit: int, times: seq<int>, lo: nat, hi: nat) returns (r: nat)
    requires hi <= |times| && !OneWindow(s, limit, times, lo, hi)
    ensures lo < r < hi && RestartAt(s, limit, times, r) && OneWindow(s, limit, times, lo, r)
    decreases hi
  {
    hide RestartAt;
    r :| lo < r < hi && RestartAt(s, limit, times, r);
    if !OneWindow(s, limit, times, lo, r) {
      r := FirstRestart(s, limit, times, lo, r);
    }
  }

  /** In a run from the start, every request belongs to the window of some restart. */
  lemma {:induction false} LastRestart(limit: int, times: seq<int>, i: nat) returns (q: nat)
    requires i < |times|
    ensures q <= i && RestartAt(START, limit, times, q) && OneWindow(START, limit, times, q, i + 1)
  {
    assert times[..0] == [];
    if RestartAt(START, limit, times, i) {
      q := i;
    } else {
      q := LastRestart(limit, times, i - 1);
    }
  }

  /** The request that restarts a window is admitted and counted in it. */
  lemma RestartIsAdmitted(s: State, limit: int, times: seq<int>, q: nat)
    requires limit > 0 && q < |times| && RestartAt(s, limit, times, q)
    ensures AdmittedAt(s, limit, times, q)
  {
  }

  lemma OneOfThem(s: State, limit: int, times: seq<int>, q: nat, lo: nat)
    requires q < lo <= |times| && AdmittedAt(s, limit, times, q)
    ensures Admitted(s, limit, times, q, lo) >= 1
  {
    AdmittedSplit(s, limit, times, q, q + 1, lo);
    assert Admitted(s, limit, times, q, q) == 0;
  }

  /**
   For any times that do not go back, the requests of any closed interval of one
   minute include at most one less than twice the limit of admitted ones: the
   interval meets at most two windows, and if it meets two, the request that
   opened the first came before it.
   */
  lemma PerMinute(limit: int, times: seq<int>, lo: nat, hi: nat)
    requires limit > 0 && NonDecreasing(times) && lo < hi <= |times|
    requires times[hi - 1] - times[lo] <= WINDOW
    ensures Admitted(START, limit, times, lo, hi) <= 2 * limit - 1
  {
    hide RestartAt, After, Admitted, AdmittedAt;
    if RestartAt(START, limit, times, lo) {
      RestartsApart(START, limit, times, lo, hi);
    }
    if OneWindow(START, limit, times, lo, hi) {
      PerWindow(START, limit, times, lo, hi);
    } else {
      var r := FirstRestart(START, limit, times, lo, hi);
      RestartsApart(START, limit, times, r, hi);
      PerWindow(START, limit, times, r, hi);
      AdmittedSplit(START, limit, times, lo, r, hi);
      FirstWindow(limit, times, lo, r);
    }
  }

  /** The part of an older window that comes after the request that opened it. */
  lemma FirstWindow(limit: int, times: seq<int>, lo: nat, r: nat)
    requires limit > 0 && lo < r <= |times|
    requires !RestartAt(START, limit, times, lo) && OneWindow(START, limit, times, lo, r)
    ensures Admitted(START, limit, times, lo, r) <= limit - 1
  {
    hide RestartAt, After, Admitted, AdmittedAt;
    var q := LastRestart(limit, times, lo);
    PerWindow(START, limit, times, q, r);
    AdmittedSplit(START, limit, times, q, lo, r);
    RestartIsAdmitted(START, limit, times, q);
    OneOfThem(START, limit, times, q, lo);
  }

  // ----- the bound is reached

  /** One request, a minute later the rest of its window, just after that a whole one. */
  function Burst(limit: nat): (times: seq<int>)
    ensures |times| == 2 * limit
  {
    seq(2 * limit, i => if i == 0 then 0 else if i < limit then WINDOW else WINDOW + 1)
  }

  lemma {:induction false} BurstState(limit: nat, i: nat)
    requires 0 < i <= 2 * limit
    ensures After(START, limit, Burst(limit)[..i]) ==
            if i <= limit then State(i, Some(0)) else State(i - limit, Some(WINDOW + 1))
    ensures AdmittedAt(START, limit, Burst(limit), i - 1)
  {
    var times := Burst(limit);
    AfterNext(START, limit, times, i - 1);
    if i == 1 {
      assert times[..0] == [];
    } else {
      BurstState(limit, i - 1);
    }
  }

  lemma {:induction false} BurstAdmitted(limit: nat, hi: nat)
    requires 0 < hi <= 2 * limit
    ensures Admitted(START, limit, Burst(limit), 1, hi) == hi - 1
  {
    if hi > 1 {
      BurstAdmitted(limit, hi - 1);
      BurstState(limit, hi);
    }
  }

  /** For every limit, a run from the start admits one less than twice the limit within a minute. */
  lemma BoundIsReached(limit: nat)
    requires limit > 0
    ensures var times := Burst(limit);
            && NonDecreasing(times) && times[|times| - 1] - times[1] <= WINDOW
            && Admitted(START, limit, times, 1, |times|) == 2 * limit - 1
  {
    BurstAdmitted(limit, 2 * limit);
  }
}
