/**
 Sequences of chat messages: one sender's messages, removal of duplicates, and
 the order in which the store lists a transcript.
 */
module Transcripts {

  /** Who wrote a message; an unpublished one is an agent's whose append failed after the row was written. */
  datatype Sender = Agent(n: nat) | Visitor | Unpublished(n: nat)

  datatype Msg = Msg(id: nat, sender: Sender, when: int)

  /** The messages of one sender, in order. */
  function Of(ms: seq<Msg>, a: Sender): seq<Msg> {
    if ms == [] then []
    else
      var last := ms[|ms| - 1];
      Of(ms[..|ms| - 1], a) + (if last.sender == a then [last] else [])
  }

  lemma {:induction false} OfAppend(x: seq<Msg>, y: seq<Msg>, a: Sender)
    ensures Of(x + y, a) == Of(x, a) + Of(y, a)
  {
    if y == [] {
      assert x + y == x;
    } else {
      assert (x + y)[..|x + y| - 1] == x + y[..|y| - 1];
      OfAppend(x, y[..|y| - 1], a);
    }
  }

  lemma OfOne(m: Msg, a: Sender)
    ensures Of([m], a) == if m.sender == a then [m] else []
  {
    assert [m][..0] == [];
  }

  lemma {:induction false} OfIn(ms: seq<Msg>, a: Sender, m: Msg)
    ensures m in Of(ms, a) <==> m in ms && m.sender == a
  {
    if ms != [] {
      assert ms == ms[..|ms| - 1] + [ms[|ms| - 1]];
      OfIn(ms[..|ms| - 1], a, m);
    }
  }

  /** Keeps the first message with each id. */
  function Dedup(ms: seq<Msg>): seq<Msg> {
    if ms == [] then []
    else
      var rest, last := Dedup(ms[..|ms| - 1]), ms[|ms| - 1];
      if HasId(rest, last.id) then rest else rest + [last]
  }

  predicate HasId(ms: seq<Msg>, id: nat) {
    exists i :: 0 <= i < |ms| && ms[i].id == id
  }

  ghost predicate UniqueIds(ms: seq<Msg>) {
    forall i, j :: 0 <= i < j < |ms| ==> ms[i].id != ms[j].id
  }

  /** Within the messages, an id names one message. */
  ghost predicate IdsName(ms: seq<Msg>) {
    forall x, y :: x in ms && y in ms && x.id == y.id ==> x == y
  }

  lemma {:induction false} DedupUnique(ms: seq<Msg>)
    ensures UniqueIds(Dedup(ms))
    ensures forall m :: m in Dedup(ms) ==> m in ms
  {
    if ms != [] {
      DedupUnique(ms[..|ms| - 1]);
    }
  }

  lemma {:induction false} DedupKeeps(ms: seq<Msg>, m: Msg)
    requires IdsName(ms)
    ensures m in Dedup(ms) <==> m in ms
  {
    if ms != [] {
      var front, last := ms[..|ms| - 1], ms[|ms| - 1];
      assert ms == front + [last];
      DedupKeeps(front, m);
      DedupUnique(front);
      if HasId(Dedup(front), last.id) {
        var i :| 0 <= i < |Dedup(front)| && Dedup(front)[i].id == last.id;
        assert Dedup(front)[i] in front;
        assert Dedup(front)[i] == last;
      }
    }
  }

  /** Removing duplicates and picking a sender commute when ids name messages. */
  lemma {:induction false} DedupOf(ms: seq<Msg>, a: Sender)
    requires IdsName(ms)
    ensures Of(Dedup(ms), a) == Dedup(Of(ms, a))
  {
    if ms != [] {
      var front, last := ms[..|ms| - 1], ms[|ms| - 1];
      assert ms == front + [last];
      DedupOf(front, a);
      HasIdIn(front, last, Dedup(front));
      if last.sender == a {
        assert Of(ms, a) == Of(front, a) + [last];
        assert Of(ms, a)[..|Of(ms, a)| - 1] == Of(front, a);
        SameIdOf(front, last, a);
      } else {
        assert Of(ms, a) == Of(front, a);
      }
      if last !in front {
        OfAppend(Dedup(front), [last], a);
        OfOne(last, a);
      }
    }
  }

  lemma HasIdIn(front: seq<Msg>, last: Msg, d: seq<Msg>)
    requires IdsName(front + [last]) && d == Dedup(front)
    ensures HasId(d, last.id) <==> last in front
  {
    assert last in front + [last];
    assert forall m :: m in front ==> m in front + [last];
    DedupKeeps(front, last);
    if HasId(d, last.id) {
      var i :| 0 <= i < |d| && d[i].id == last.id;
      DedupUnique(front);
      assert d[i] in front;
    }
  }

  lemma SameIdOf(front: seq<Msg>, last: Msg, a: Sender)
    requires IdsName(front + [last]) && last.sender == a
    ensures HasId(Dedup(Of(front, a)), last.id) <==> last in front
  {
    var fa := Of(front, a);
    forall m | m in fa + [last] ensures m in front + [last] {
      OfIn(front, a, m);
    }
    assert IdsName(fa + [last]);
    HasIdIn(fa, last, Dedup(fa));
    OfIn(front, a, last);
  }

  /** A prefix followed by an overlapping stretch of the same distinct messages shows the longer prefix. */
  lemma {:induction false} DedupOverlap(x: seq<Msg>, c: nat, j: nat, e: nat)
    requires UniqueIds(x) && c <= |x| && j <= e <= |x| && j <= c
    ensures Dedup(x[..c] + x[j..e]) == x[..if c < e then e else c]
    decreases e - j
  {
    hide UniqueIds, HasId;
    if j == e {
      assert x[..c] + x[j..e] == x[..c];
      PrefixUnique(x, c);
      DedupDistinct(x[..c]);
    } else {
      var all, front := x[..c] + x[j..e], x[..c] + x[j..e - 1];
      assert all[..|all| - 1] == front && all[|all| - 1] == x[e - 1];
      DedupOverlap(x, c, j, e - 1);
      var shown := x[..if c < e - 1 then e - 1 else c];
      Repeats(x, |shown|, e - 1);
      if e > c {
        assert shown + [x[e - 1]] == x[..e];
      }
    }
  }

  lemma PrefixUnique(x: seq<Msg>, c: nat)
    requires UniqueIds(x) && c <= |x|
    ensures UniqueIds(x[..c])
  {
  }

  lemma Repeats(x: seq<Msg>, c: nat, k: nat)
    requires UniqueIds(x) && c <= |x| && k < |x|
    ensures HasId(x[..c], x[k].id) <==> k < c
  {
    assert k < c ==> x[..c][k].id == x[k].id;
  }

  lemma {:induction false} DedupDistinct(x: seq<Msg>)
    requires UniqueIds(x)
    ensures Dedup(x) == x
  {
    hide HasId, UniqueIds;
    if x != [] {
      var front := x[..|x| - 1];
      LastIsNew(x);
      DedupDistinct(front);
      assert x == front + [x[|x| - 1]];
    }
  }

  lemma LastIsNew(x: seq<Msg>)
    requires UniqueIds(x) && x != []
    ensures UniqueIds(x[..|x| - 1]) && !HasId(x[..|x| - 1], x[|x| - 1].id)
  {
  }

  lemma {:induction false} OfUnique(ms: seq<Msg>, a: Sender)
    requires UniqueIds(ms)
    ensures UniqueIds(Of(ms, a))
  {
    if ms != [] {
      var front, last := ms[..|ms| - 1], ms[|ms| - 1];
      OfUnique(front, a);
      var fa := Of(front, a);
      forall i | 0 <= i < |fa| ensures fa[i].id != last.id {
        OfIn(front, a, fa[i]);
      }
    }
  }

  /** Distinct messages stay in front when others follow. */
  lemma {:induction false} DedupPrefix(x: seq<Msg>, y: seq<Msg>)
    requires UniqueIds(x)
    ensures x <= Dedup(x + y)
  {
    hide UniqueIds, HasId;
    if y == [] {
      assert x + y == x;
      DedupDistinct(x);
    } else {
      assert (x + y)[..|x + y| - 1] == x + y[..|y| - 1];
      DedupPrefix(x, y[..|y| - 1]);
    }
  }

  // ----- listings

  /** The order of a listing: by time, and by id for messages of the same time. */
  predicate Before(a: Msg, b: Msg) {
    a.when < b.when || (a.when == b.when && a.id < b.id)
  }

  ghost predicate Sorted(ms: seq<Msg>) {
    forall i, j :: 0 <= i < j < |ms| ==> Before(ms[i], ms[j])
  }

  lemma {:induction false} OfSorted(ms: seq<Msg>, a: Sender)
    requires Sorted(ms)
    ensures Sorted(Of(ms, a))
  {
    if ms != [] {
      var front, last := ms[..|ms| - 1], ms[|ms| - 1];
      OfSorted(front, a);
      var fa := Of(front, a);
      forall i | 0 <= i < |fa| ensures Before(fa[i], last) {
        OfIn(front, a, fa[i]);
      }
    }
  }

  /** A sorted arrangement of messages with unique ids has unique ids. */
  lemma SortedUnique(x: seq<Msg>, y: seq<Msg>)
    requires UniqueIds(x) && Sorted(y) && multiset(x) == multiset(y)
    ensures UniqueIds(y)
  {
    forall i, j | 0 <= i < j < |y| ensures y[i].id != y[j].id {
      assert Before(y[i], y[j]);
      assert y[i] in multiset(x) && y[j] in multiset(x);
    }
  }

  lemma {:induction false} OfCount(ms: seq<Msg>, a: Sender, m: Msg)
    ensures multiset(Of(ms, a))[m] == if m.sender == a then multiset(ms)[m] else 0
  {
    if ms != [] {
      var front, last := ms[..|ms| - 1], ms[|ms| - 1];
      assert ms == front + [last];
      OfCount(front, a, m);
    }
  }

  lemma LastsAgree(x: seq<Msg>, y: seq<Msg>)
    requires Sorted(x) && Sorted(y) && multiset(x) == multiset(y) && x != []
    ensures |x| == |y| && x[|x| - 1] == y[|y| - 1]
  {
    assert |multiset(x)| == |x| && |multiset(y)| == |y|;
    var n := |x| - 1;
    assert x[n] in multiset(y) && y[n] in multiset(x);
    var i :| 0 <= i < |y| && y[i] == x[n];
    var k :| 0 <= k < |x| && x[k] == y[n];
    assert x[n] == y[n] || (Before(x[n], y[n]) && Before(y[n], x[n]));
  }

  lemma SortedFront(x: seq<Msg>)
    requires Sorted(x) && x != []
    ensures Sorted(x[..|x| - 1])
  {
  }

  lemma ButLast(x: seq<Msg>)
    requires x != []
    ensures multiset(x[..|x| - 1]) == multiset(x) - multiset{x[|x| - 1]}
  {
    assert x == x[..|x| - 1] + [x[|x| - 1]];
  }

  /** Messages have one sorted arrangement. */
  lemma {:induction false} ListingUnique(x: seq<Msg>, y: seq<Msg>)
    requires Sorted(x) && Sorted(y) && multiset(x) == multiset(y)
    ensures x == y
  {
    hide Sorted;
    if x == [] {
      assert |multiset(y)| == |y|;
    } else {
      LastsAgree(x, y);
      SortedFront(x);
      SortedFront(y);
      ButLast(x);
      ButLast(y);
      var n := |x| - 1;
      ListingUnique(x[..n], y[..n]);
      assert x == x[..n] + [x[n]] && y == y[..n] + [y[n]];
    }
  }

  /** A sender's part of a listing holds the sender's stored messages. */
  lemma SameMessages(store: seq<Msg>, listing: seq<Msg>, a: Sender)
    requires multiset(listing) == multiset(store)
    ensures multiset(Of(listing, a)) == multiset(Of(store, a)) && |Of(listing, a)| == |Of(store, a)|
  {
    hide Of;
    forall m ensures multiset(Of(store, a))[m] == multiset(Of(listing, a))[m] {
      OfCount(store, a, m);
      OfCount(listing, a, m);
    }
    assert multiset(Of(store, a)) == multiset(Of(listing, a));
    assert |multiset(Of(store, a))| == |Of(store, a)| && |multiset(Of(listing, a))| == |Of(listing, a)|;
  }

  /** A listing keeps a sender's own order exactly when that is the order of times, and of ids at the same time. */
  lemma ListingKeepsSenders(store: seq<Msg>, listing: seq<Msg>, a: Sender)
    requires Sorted(listing) && multiset(listing) == multiset(store)
    ensures Of(listing, a) == Of(store, a) <==> Sorted(Of(store, a))
  {
    hide Of;
    OfSorted(listing, a);
    SameMessages(store, listing, a);
    if Sorted(Of(store, a)) {
      ListingUnique(Of(store, a), Of(listing, a));
    }
  }
}

/**
 One visitor connecting while any number of agents send. An agent appends to the
 store, then publishes: it takes the hub's subscriber list, then sends. The
 visitor subscribes, then reads the history, then drains its buffer.
 */
module ChatReplay {
  import opened Transcripts

  /** The buffer of a subscriber, in frames; a full buffer drops. */
  const BUFFER := 32

  /** An agent connection: `seen` is whether the visitor was among the subscribers taken. */
  datatype Pc = Idle | Appended(m: Msg) | Snapped(m: Msg, seen: bool)

  datatype Frame = Live(m: Msg) | Other

  datatype Phase = Connecting | Subscribed | Replayed

  /** What became of the history: the listing as the store gave it, its limit, and how many rows there were. */
  datatype Recall = Pending | Failed | Listing(all: seq<Msg>, limit: nat, rows: nat)

  /**
   `snapped` are the messages whose subscriber list has been taken and `missed`
   those taken before the visitor subscribed. `offered` are the messages sent to
   the visitor's buffer, `live` those it accepted and `dropped` the others.
   */
  datatype State = State(store: seq<Msg>, pcs: map<nat, Pc>, snapped: seq<Msg>, missed: seq<Msg>,
                         phase: Phase, recall: Recall, history: seq<Msg>,
                         out: seq<Frame>, delivered: seq<Msg>, live: seq<Msg>,
                         offered: seq<Msg>, dropped: seq<Msg>)

  function PcOf(s: State, n: nat): Pc {
    if n in s.pcs then s.pcs[n] else Idle
  }

  function Lives(out: seq<Frame>): seq<Msg> {
    if out == [] then []
    else Lives(out[..|out| - 1]) + (if out[|out| - 1].Live? then [out[|out| - 1].m] else [])
  }

  /**
   What the widget shows once the buffer is drained: the replayed history, the
   live messages written so far and those still in the buffer, each id once.
   */
  function Shown(s: State): seq<Msg> {
    Dedup(s.history + (s.delivered + Lives(s.out)))
  }

  predicate Init(s: State) {
    s.pcs == map[] && s.store == [] && s.snapped == [] && s.missed == [] && s.phase == Connecting &&
    s.recall == Pending && s.history == [] && s.out == [] && s.delivered == [] && s.live == [] &&
    s.offered == [] && s.dropped == []
  }

  datatype Step =
    | Append(n: nat, m: Msg)
    | StoreOnly(m: Msg)
    | Snapshot(n: nat)
    | Send(n: nat)
    | Subscribe
    | OtherFrame
    | Replay(full: seq<Msg>, limit: nat)
    | ReplayFails
    | Drain

  /** A new message has a new id; its time may be anything. */
  ghost predicate NewIn(store: seq<Msg>, m: Msg) {
    forall i :: 0 <= i < |store| ==> store[i].id != m.id
  }

  /** The messages of a listing that fit its limit. */
  function Cut(all: seq<Msg>, limit: nat): seq<Msg> {
    if |all| <= limit then all else all[..limit]
  }

  ghost predicate Enabled(s: State, step: Step) {
    match step
    case Append(n, m) => PcOf(s, n).Idle? && m.sender == Agent(n) && NewIn(s.store, m)
    case StoreOnly(m) => !m.sender.Agent? && NewIn(s.store, m)
    case Snapshot(n) => PcOf(s, n).Appended?
    case Send(n) => PcOf(s, n).Snapped?
    case Subscribe => s.phase == Connecting
    case OtherFrame => s.phase != Connecting && |s.out| < BUFFER
    case Replay(full, limit) => limit > 0 && s.phase == Subscribed && Sorted(full) && multiset(full) == multiset(s.store)
    case ReplayFails => s.phase == Subscribed
    case Drain => s.phase == Replayed && s.out != []
  }

  /** The non-blocking send into the visitor's buffer. */
  function TrySend(s: State, m: Msg): State {
    if |s.out| < BUFFER then s.(out := s.out + [Live(m)], live := s.live + [m], offered := s.offered + [m])
    else s.(dropped := s.dropped + [m], offered := s.offered + [m])
  }

  ghost function Apply(s: State, step: Step): State
    requires Enabled(s, step)
  {
    match step
    case Append(n, m) => s.(store := s.store + [m], pcs := s.pcs[n := Appended(m)])
    case StoreOnly(m) => s.(store := s.store + [m])
    case Snapshot(n) =>
      var m := PcOf(s, n).m;
      s.(snapped := s.snapped + [m], pcs := s.pcs[n := Snapped(m, s.phase != Connecting)])
    case Send(n) =>
      var pc := PcOf(s, n);
      (if pc.seen then TrySend(s, pc.m) else s).(pcs := s.pcs[n := Idle])
    case Subscribe => s.(phase := Subscribed, missed := s.snapped)
    case OtherFrame => s.(out := s.out + [Other])
    case Replay(full, limit) =>
      s.(phase := Replayed, recall := Listing(full, limit, |s.store|), history := Cut(full, limit))
    case ReplayFails => s.(phase := Replayed, recall := Failed)
    case Drain =>
      s.(out := s.out[1..], delivered := if s.out[0].Live? then s.delivered + [s.out[0].m] else s.delivered)
  }

  ghost predicate Next(s: State, t: State) {
    exists step :: Enabled(s, step) && t == Apply(s, step)
  }

  ghost predicate IsRun(run: seq<State>) {
    run != [] && Init(run[0]) && forall i :: 0 < i < |run| ==> Next(run[i - 1], run[i])
  }

  // ----- the code of each step

  const DEFAULT_HISTORY := 200

  /** The messages asked for, as a 32-bit number, and what the store makes of it. */
  function HistoryLimit(configured: int): (limit: nat)
    ensures 0 < limit <= 1000
    ensures 0 < configured <= 1000 ==> limit == configured
    ensures configured <= 0 ==> limit == 200
    ensures 1000 < configured < 0x1_0000_0000 ==> limit == 1000
    ensures configured == 0x1_0000_0000 ==> limit == 100
  {
    var asked := (if configured <= 0 then DEFAULT_HISTORY else configured) % 0x1_0000_0000;
    if asked == 0 then 100 else if asked > 1000 then 1000 else asked
  }

  /** One session: its transcript, its agents' connections and the visitor's socket. */
  class Room {
    var store: seq<Msg>
    var pcs: map<nat, Pc>
    var phase: Phase
    var history: seq<Msg>
    var out: seq<Frame>
    var delivered: seq<Msg>
    ghost var snapped: seq<Msg>
    ghost var missed: seq<Msg>
    ghost var live: seq<Msg>
    ghost var offered: seq<Msg>
    ghost var dropped: seq<Msg>
    ghost var recall: Recall

    ghost function Value(): State
      reads this
    {
      State(store, pcs, snapped, missed, phase, recall, history, out, delivered, live, offered, dropped)
    }

    constructor ()
      ensures Init(Value())
    {
      store, pcs, phase, history, out, delivered := [], map[], Connecting, [], [], [];
      snapped, missed, live, offered, dropped, recall := [], [], [], [], [], Pending;
    }

    method AgentAppends(n: nat, m: Msg)
      requires Enabled(Value(), Append(n, m))
      modifies this
      ensures Value() == Apply(old(Value()), Append(n, m))
    {
      store := store + [m];
      pcs := pcs[n := Appended(m)];
    }

    /** The first half of publishing: the subscribers as they are now. */
    method TakeSubscribers(n: nat)
      requires n in pcs && pcs[n].Appended?
      modifies this
      ensures Value() == Apply(old(Value()), Snapshot(n))
    {
      var m := pcs[n].m;
      pcs := pcs[n := Snapped(m, phase != Connecting)];
      snapped := snapped + [m];
    }

    /** The second half: a send that gives up on a full buffer. */
    method SendToVisitor(n: nat)
      requires n in pcs && pcs[n].Snapped?
      modifies this
      ensures Value() == Apply(old(Value()), Send(n))
    {
      var pc := pcs[n];
      if pc.seen {
        offered := offered + [pc.m];
        if |out| < BUFFER {
          out := out + [Live(pc.m)];
          live := live + [pc.m];
        } else {
          dropped := dropped + [pc.m];
        }
      }
      pcs := pcs[n := Idle];
    }

    method VisitorSubscribes()
      requires phase == Connecting
      modifies this
      ensures Value() == Apply(old(Value()), Step.Subscribe)
    {
      phase := Subscribed;
      missed := snapped;
    }

    /** Builds the history frame from the listing, at most the limit of messages. */
    method ReplayHistory(full: seq<Msg>, configured: int)
      requires Enabled(Value(), Replay(full, HistoryLimit(configured)))
      modifies this
      ensures Value() == Apply(old(Value()), Replay(full, HistoryLimit(configured)))
    {
      var limit := HistoryLimit(configured);
      var frame: seq<Msg> := [];
      var i := 0;
      while i < |full| && i < limit
        invariant 0 <= i <= |full| && i <= limit && frame == full[..i]
        invariant Value() == old(Value())
      {
        frame := frame + [full[i]];
        i := i + 1;
      }
      assert |full| <= limit ==> full[..i] == full;
      history := frame;
      phase := Replayed;
      recall := Listing(full, limit, |store|);
    }

    /** One turn of the writer loop. */
    method WriteFrame()
      requires phase == Replayed && out != []
      modifies this
      ensures Value() == Apply(old(Value()), Drain)
    {
      var frame := out[0];
      out := out[1..];
      if frame.Live? {
        delivered := delivered + [frame.m];
      }
    }
  }

  // ----- what every step keeps, for one agent

  function Unsnapped(pc: Pc): seq<Msg> {
    if pc.Appended? then [pc.m] else []
  }

  function Unsent(pc: Pc): seq<Msg> {
    if pc.Snapped? && pc.seen then [pc.m] else []
  }

  ghost predicate StoreInv(s: State) {
    UniqueIds(s.store)
  }

  ghost predicate PcInv(s: State) {
    forall n :: n in s.pcs && !s.pcs[n].Idle? ==>
      s.pcs[n].m.sender == Agent(n) && s.pcs[n].m in s.store && (s.pcs[n].Snapped? && s.pcs[n].seen ==> s.phase != Connecting)
  }

  ghost predicate WithinStore(s: State) {
    && (forall m :: m in s.history ==> m in s.store) && (forall m :: m in s.live ==> m in s.store)
    && s.missed <= s.snapped
  }

  /** What was accepted has been delivered or is in the buffer; the rest of what was offered was dropped. */
  ghost predicate BufferInv(s: State) {
    && s.live == s.delivered + Lives(s.out)
    && multiset(s.offered) == multiset(s.live) + multiset(s.dropped)
    && (s.dropped == [] ==> s.live == s.offered)
  }

  /** The agent's stored messages: those whose subscribers were taken, and the one before that. */
  ghost predicate Announced(s: State, n: nat) {
    Of(s.snapped, Agent(n)) + Unsnapped(PcOf(s, n)) == Of(s.store, Agent(n))
  }

  /** Those taken after the visitor subscribed are offered to it, in order, the last one perhaps not yet. */
  ghost predicate Forwarded(s: State, n: nat) {
    if s.phase == Connecting then s.offered == [] && s.missed == []
    else Of(s.missed, Agent(n)) + Of(s.offered, Agent(n)) + Unsent(PcOf(s, n)) == Of(s.snapped, Agent(n))
  }

  /** The listing holds the rows there were, with all the agent's missed messages among them. */
  ghost predicate Recalled(s: State, n: nat) {
    match s.recall
    case Listing(all, limit, rows) =>
      && s.phase == Replayed && rows <= |s.store|
      && Sorted(all) && multiset(all) == multiset(s.store[..rows]) && s.history == Cut(all, limit)
      && Of(s.missed, Agent(n)) <= Of(s.store[..rows], Agent(n))
    case _ => s.history == []
  }

  ghost predicate Inv(s: State, n: nat) {
    && StoreInv(s) && PcInv(s) && WithinStore(s) && BufferInv(s)
    && Announced(s, n) && Forwarded(s, n) && Recalled(s, n)
  }

  lemma {:induction false} LivesAppend(out: seq<Frame>, f: Frame)
    ensures Lives(out + [f]) == Lives(out) + (if f.Live? then [f.m] else [])
  {
    assert (out + [f])[..|out|] == out;
  }

  lemma {:induction false} LivesHead(out: seq<Frame>)
    requires out != []
    ensures Lives(out) == (if out[0].Live? then [out[0].m] else []) + Lives(out[1..])
  {
    var n := |out| - 1;
    if n == 0 {
      assert out[..0] == [] && out[1..] == [];
    } else {
      LivesHead(out[..n]);
      assert out[..n][1..] == out[1..][..n - 1];
    }
  }

  lemma OfMore(ms: seq<Msg>, m: Msg, a: Sender)
    ensures Of(ms + [m], a) == Of(ms, a) + (if m.sender == a then [m] else [])
  {
    OfAppend(ms, [m], a);
    OfOne(m, a);
  }

  /** A growing store leaves the recalled rows as they are. */
  lemma RecalledFrame(s: State, t: State, n: nat)
    requires Recalled(s, n) && s.store <= t.store && s.recall == t.recall && s.history == t.history
    requires s.missed == t.missed && s.phase == t.phase
    ensures Recalled(t, n)
  {
    assert s.recall.Listing? ==> t.store[..s.recall.rows] == s.store[..s.recall.rows];
  }

  lemma StoreGrows(s: State, m: Msg)
    requires StoreInv(s) && NewIn(s.store, m)
    ensures StoreInv(s.(store := s.store + [m]))
  {
  }

  lemma InvAppend(s: State, k: nat, m: Msg, n: nat)
    requires Inv(s, n) && Enabled(s, Append(k, m))
    ensures Inv(Apply(s, Append(k, m)), n)
  {
    hide UniqueIds, Sorted, Of, Lives, NewIn, StoreInv, PcInv, BufferInv, WithinStore, Recalled;
    var t := Apply(s, Append(k, m));
    StoreGrows(s, m);
    StoreInvFrame(s.(store := s.store + [m]), t);
    PcMoves(s, t, k, Appended(m));
    WithinFrame(s, t);
    BufferFrame(s, t);
    RecalledFrame(s, t, n);
    OfMore(s.store, m, Agent(n));
    assert Of(s.store, Agent(n)) + [] == Of(s.store, Agent(n));
  }

  /** An agent's own move keeps what is known of every connection. */
  lemma PcMoves(s: State, t: State, k: nat, pc: Pc)
    requires PcInv(s) && t.pcs == s.pcs[k := pc] && s.store <= t.store && s.phase == t.phase
    requires !pc.Idle? ==>
               pc.m.sender == Agent(k) && pc.m in t.store && (pc.Snapped? && pc.seen ==> t.phase != Connecting)
    ensures PcInv(t)
  {
  }

  lemma PcOwn(s: State, k: nat)
    requires PcInv(s) && !PcOf(s, k).Idle?
    ensures PcOf(s, k).m.sender == Agent(k) && PcOf(s, k).m in s.store
    ensures PcOf(s, k).Snapped? && PcOf(s, k).seen ==> s.phase != Connecting
  {
  }

  lemma WithinFrame(s: State, t: State)
    requires WithinStore(s) && s.store <= t.store && s.history == t.history
    requires forall m :: m in t.live ==> m in s.live || m in t.store
    requires s.missed == t.missed && s.snapped <= t.snapped
    ensures WithinStore(t)
  {
  }

  lemma StoreInvFrame(s: State, t: State)
    requires StoreInv(s) && s.store == t.store
    ensures StoreInv(t)
  {
  }

  lemma InvStoreOnly(s: State, m: Msg, n: nat)
    requires Inv(s, n) && Enabled(s, StoreOnly(m))
    ensures Inv(Apply(s, StoreOnly(m)), n)
  {
    hide UniqueIds, Sorted, Of, Lives, NewIn, StoreInv, PcInv, BufferInv, WithinStore, Recalled;
    var t := Apply(s, StoreOnly(m));
    StoreGrows(s, m);
    PcStays(s, t);
    WithinFrame(s, t);
    BufferFrame(s, t);
    RecalledFrame(s, t, n);
    OfMore(s.store, m, Agent(n));
    assert Of(s.store, Agent(n)) + [] == Of(s.store, Agent(n));
  }

  lemma PcStays(s: State, t: State)
    requires PcInv(s) && t.pcs == s.pcs && s.store <= t.store && s.phase == t.phase
    ensures PcInv(t)
  {
  }

  lemma InvSnapshot(s: State, k: nat, n: nat)
    requires Inv(s, n) && Enabled(s, Snapshot(k))
    ensures Inv(Apply(s, Snapshot(k)), n)
  {
    hide UniqueIds, Sorted, Of, Lives, NewIn, StoreInv, PcInv, BufferInv, WithinStore, Recalled;
    var m, t := PcOf(s, k).m, Apply(s, Snapshot(k));
    StoreInvFrame(s, t);
    PcOwn(s, k);
    PcMoves(s, t, k, Snapped(m, s.phase != Connecting));
    WithinFrame(s, t);
    BufferFrame(s, t);
    RecalledFrame(s, t, n);
    OfMore(s.snapped, m, Agent(n));
  }

  lemma InvSend(s: State, k: nat, n: nat)
    requires Inv(s, n) && Enabled(s, Send(k))
    ensures Inv(Apply(s, Send(k)), n)
  {
    hide UniqueIds, Sorted, Of, Lives, NewIn, StoreInv, PcInv, BufferInv, WithinStore, Recalled;
    var m, t := PcOf(s, k).m, Apply(s, Send(k));
    StoreInvFrame(s, t);
    PcOwn(s, k);
    PcMoves(s, t, k, Idle);
    WithinFrame(s, t);
    BufferSend(s, m);
    BufferFrame(if PcOf(s, k).seen then TrySend(s, m) else s, t);
    RecalledFrame(s, t, n);
    OfMore(s.offered, m, Agent(n));
  }

  lemma BufferSend(s: State, m: Msg)
    requires BufferInv(s)
    ensures BufferInv(TrySend(s, m))
  {
    hide Lives;
    LivesAppend(s.out, Live(m));
    assert s.delivered + (Lives(s.out) + [m]) == s.delivered + Lives(s.out) + [m];
  }

  lemma BufferFrame(s: State, t: State)
    requires BufferInv(s) && s.live == t.live && s.delivered == t.delivered && s.out == t.out
    requires s.offered == t.offered && s.dropped == t.dropped
    ensures BufferInv(t)
  {
  }

  lemma InvOther(s: State, n: nat)
    requires Inv(s, n) && Enabled(s, OtherFrame)
    ensures Inv(Apply(s, OtherFrame), n)
  {
    hide UniqueIds, Sorted, Of, Lives, StoreInv, Recalled;
    StoreInvFrame(s, Apply(s, OtherFrame));
    RecalledFrame(s, Apply(s, OtherFrame), n);
    LivesAppend(s.out, Other);
    assert Lives(s.out) + [] == Lives(s.out);
  }

  lemma InvSubscribe(s: State, n: nat)
    requires Inv(s, n) && Enabled(s, Subscribe)
    ensures Inv(Apply(s, Subscribe), n)
  {
    hide UniqueIds, Sorted, StoreInv, BufferInv;
    StoreInvFrame(s, Apply(s, Subscribe));
    BufferFrame(s, Apply(s, Subscribe));
    assert Of([], Agent(n)) == [];
    assert Unsent(PcOf(s, n)) == [];
  }

  lemma InvDrain(s: State, n: nat)
    requires Inv(s, n) && Enabled(s, Drain)
    ensures Inv(Apply(s, Drain), n)
  {
    hide UniqueIds, Sorted, Of, StoreInv, BufferInv, Recalled;
    StoreInvFrame(s, Apply(s, Drain));
    RecalledFrame(s, Apply(s, Drain), n);
    BufferDrain(s);
  }

  lemma BufferDrain(s: State)
    requires BufferInv(s) && Enabled(s, Drain)
    ensures BufferInv(Apply(s, Drain))
  {
    hide Lives;
    LivesHead(s.out);
  }

  lemma InvReplay(s: State, full: seq<Msg>, limit: nat, n: nat)
    requires Inv(s, n) && Enabled(s, Replay(full, limit))
    ensures Inv(Apply(s, Replay(full, limit)), n)
  {
    hide UniqueIds, Sorted, Of, BufferInv, StoreInv;
    var t := Apply(s, Replay(full, limit));
    StoreInvFrame(s, t);
    BufferFrame(s, t);
    assert t.store[..|t.store|] == t.store;
    forall m | m in t.history ensures m in t.store {
      assert m in full;
      assert m in multiset(full);
    }
    MissedStored(s, n);
  }

  /** The missed messages of an agent are its first ones. */
  lemma MissedStored(s: State, n: nat)
    requires Announced(s, n) && s.missed <= s.snapped
    ensures Of(s.missed, Agent(n)) <= Of(s.snapped, Agent(n)) <= Of(s.store, Agent(n))
  {
    hide Of;
    var rest := s.snapped[|s.missed|..];
    assert s.snapped == s.missed + rest;
    OfAppend(s.missed, rest, Agent(n));
  }

  lemma InvReplayFails(s: State, n: nat)
    requires Inv(s, n) && Enabled(s, ReplayFails)
    ensures Inv(Apply(s, ReplayFails), n)
  {
    hide UniqueIds, Sorted, Of, BufferInv, StoreInv;
    StoreInvFrame(s, Apply(s, ReplayFails));
    BufferFrame(s, Apply(s, ReplayFails));
  }

  lemma InvStep(s: State, step: Step, n: nat)
    requires Inv(s, n) && Enabled(s, step)
    ensures Inv(Apply(s, step), n)
  {
    hide Inv, Apply;
    match step
    case Append(k, m) => InvAppend(s, k, m, n);
    case StoreOnly(m) => InvStoreOnly(s, m, n);
    case Snapshot(k) => InvSnapshot(s, k, n);
    case Send(k) => InvSend(s, k, n);
    case Subscribe => InvSubscribe(s, n);
    case OtherFrame => InvOther(s, n);
    case Replay(full, limit) => InvReplay(s, full, limit, n);
    case ReplayFails => InvReplayFails(s, n);
    case Drain => InvDrain(s, n);
  }

  lemma StepOf(s: State, t: State) returns (step: Step)
    requires Next(s, t)
    ensures Enabled(s, step) && t == Apply(s, step)
  {
    step :| Enabled(s, step) && t == Apply(s, step);
  }

  lemma {:induction false} InvAlways(run: seq<State>, i: nat, n: nat)
    requires IsRun(run) && i < |run|
    ensures Inv(run[i], n)
  {
    if i > 0 {
      hide Inv, Apply;
      InvAlways(run, i - 1, n);
      var step := StepOf(run[i - 1], run[i]);
      InvStep(run[i - 1], step, n);
    }
  }

  // ----- what the visitor sees

  /** The agent's stored messages: the missed ones, the offered ones and the one being published. */
  lemma Stretches(s: State, n: nat)
    requires Inv(s, n) && s.phase != Connecting
    ensures Of(s.store, Agent(n)) ==
            Of(s.missed, Agent(n)) + Of(s.offered, Agent(n)) + Unsent(PcOf(s, n)) + Unsnapped(PcOf(s, n))
  {
    hide Of, StoreInv, PcInv, WithinStore, BufferInv, Sorted;
  }

  lemma NamedIds(s: State)
    requires StoreInv(s) && WithinStore(s)
    ensures IdsName(s.history + s.live)
  {
    forall x, y | x in s.history + s.live && y in s.history + s.live && x.id == y.id ensures x == y {
      assert x in s.store && y in s.store;
    }
  }

  lemma ShownOf(s: State, n: nat)
    requires Inv(s, n)
    ensures Of(Shown(s), Agent(n)) == Dedup(Of(s.history, Agent(n)) + Of(s.live, Agent(n)))
  {
    hide Of, Dedup, UniqueIds, Sorted, IdsName, WithinStore, Recalled;
    NamedIds(s);
    DedupOf(s.history + s.live, Agent(n));
    OfAppend(s.history, s.live, Agent(n));
  }

  /** The history was replayed within its limit and no frame was dropped. */
  predicate Undisturbed(s: State) {
    s.recall.Listing? && |s.recall.all| <= s.recall.limit && s.dropped == []
  }

  /** What is shown is what the history or the live messages hold. */
  lemma ShownIn(s: State, n: nat, m: Msg)
    requires Inv(s, n)
    ensures m in Shown(s) <==> m in s.history || m in s.live
  {
    hide Dedup, UniqueIds, Sorted, IdsName, PcInv, Recalled, Of;
    NamedIds(s);
    DedupKeeps(s.history + s.live, m);
  }

  /** A missed message is in the listing. */
  lemma MissedListed(s: State, n: nat, m: Msg)
    requires Inv(s, n) && s.recall.Listing? && m.sender == Agent(n) && m in s.missed
    ensures m in s.recall.all
  {
    hide Of, Sorted, StoreInv, PcInv, WithinStore, BufferInv;
    var rows := s.store[..s.recall.rows];
    OfIn(s.missed, Agent(n), m);
    OfIn(rows, Agent(n), m);
    var k :| 0 <= k < |Of(s.missed, Agent(n))| && Of(s.missed, Agent(n))[k] == m;
    assert Of(rows, Agent(n))[k] == m;
    assert m in multiset(rows);
    assert m in multiset(s.recall.all);
  }

  /**
   In every interleaving, once the history is replayed within its limit and no
   frame was dropped, the visitor sees every message that an agent has published,
   each once, and nothing that was not stored; only the one that an agent is just
   publishing may still be missing. This needs nothing of the times.
   */
  lemma NoMessageIsLost(run: seq<State>, i: nat, n: nat, m: Msg)
    requires IsRun(run) && i < |run| && Undisturbed(run[i]) && m.sender == Agent(n)
    ensures var s := run[i];
            && UniqueIds(Shown(s))
            && (m in Shown(s) ==> m in s.store)
            && (m in s.store && (PcOf(s, n).Idle? || PcOf(s, n).m != m) ==> m in Shown(s))
  {
    hide Of, Dedup, UniqueIds, Sorted, IsRun;
    var s, a := run[i], Agent(n);
    InvAlways(run, i, n);
    DedupUnique(s.history + (s.delivered + Lives(s.out)));
    ShownIn(s, n, m);
    Stretches(s, n);
    OfIn(s.store, a, m);
    OfIn(s.missed, a, m);
    OfIn(s.live, a, m);
    if m in s.missed {
      MissedListed(s, n, m);
    }
  }

  /**
   The agent's messages are also seen in the order in which it sent them exactly
   when those stored by the time of the listing have ascending times, or ascending
   ids at the same time; then all of them are seen but perhaps the last.
   */
  lemma InOrderExactlyWhen(run: seq<State>, i: nat, n: nat)
    requires IsRun(run) && i < |run| && Undisturbed(run[i])
    ensures var s := run[i];
            var seen, sent := Of(Shown(s), Agent(n)), Of(s.store, Agent(n));
            && s.recall.rows <= |s.store|
            && (seen <= sent <==> Sorted(Of(s.store[..s.recall.rows], Agent(n))))
            && (seen <= sent ==> |sent| <= |seen| + 1 && (PcOf(s, n).Idle? ==> seen == sent))
  {
    hide Of, Dedup, UniqueIds, Sorted, IsRun, PcInv, WithinStore, BufferInv;
    var s, a := run[i], Agent(n);
    InvAlways(run, i, n);
    ShownOf(s, n);
    Stretches(s, n);
    var sent, early, told, live := Of(s.store, a), Of(s.store[..s.recall.rows], a), Of(s.history, a), Of(s.live, a);
    OfUnique(s.store, a);
    AllAccepted(s);
    EarlyPart(s.store, s.recall.rows, a);
    ListingKeepsSenders(s.store[..s.recall.rows], s.recall.all, a);
    ToldUnique(s, n);
    SameMessages(s.store[..s.recall.rows], s.recall.all, a);
    OrderOfShown(sent, early, told, Of(s.missed, a), live, Unsent(PcOf(s, n)) + Unsnapped(PcOf(s, n)));
  }

  lemma AllAccepted(s: State)
    requires BufferInv(s) && s.dropped == []
    ensures s.live == s.offered
  {
  }

  lemma EarlyPart(store: seq<Msg>, rows: nat, a: Sender)
    requires rows <= |store|
    ensures Of(store[..rows], a) <= Of(store, a)
  {
    hide Of;
    assert store == store[..rows] + store[rows..];
    OfAppend(store[..rows], store[rows..], a);
  }

  /** The history's messages of one agent have unique ids. */
  lemma ToldUnique(s: State, n: nat)
    requires Inv(s, n) && Undisturbed(s)
    ensures UniqueIds(Of(s.history, Agent(n)))
  {
    hide Of, UniqueIds, Sorted, PcInv, WithinStore, BufferInv;
    PrefixUnique(s.store, s.recall.rows);
    SortedUnique(s.store[..s.recall.rows], s.recall.all);
    OfUnique(s.recall.all, Agent(n));
  }

  /** Told messages first, then the live ones: that is in the order sent exactly when the told ones are. */
  lemma OrderOfShown(sent: seq<Msg>, early: seq<Msg>, told: seq<Msg>, missed: seq<Msg>, live: seq<Msg>, last: seq<Msg>)
    requires UniqueIds(sent) && early <= sent && missed <= early && sent == missed + live + last && |last| <= 1
    requires UniqueIds(told) && |told| == |early|
    ensures var seen := Dedup(told + live);
            && (seen <= sent <==> told == early)
            && (seen <= sent ==> |sent| <= |seen| + 1 && (last == [] ==> seen == sent))
  {
    hide UniqueIds, Dedup;
    var seen := Dedup(told + live);
    var c, j, e := |early|, |missed|, |missed| + |live|;
    assert live == sent[j..e] && early == sent[..c];
    DedupPrefix(told, live);
    if told == early {
      DedupOverlap(sent, c, j, e);
    }
  }

  /** The listing was read and has the message at a place below its limit. */
  predicate Recalls(s: State, m: Msg) {
    s.recall.Listing? && exists k :: 0 <= k < |s.recall.all| && k < s.recall.limit && s.recall.all[k] == m
  }

  /**
   The loss is exact, whatever the limit, the dropped frames and the fate of the
   history: from its subscription on, a published message of an agent is hidden from
   the visitor exactly when the listing does not recall it and its subscribers were
   taken before the visitor subscribed or its own frame was dropped.
   */
  lemma LostExactly(run: seq<State>, i: nat, n: nat, m: Msg)
    requires IsRun(run) && i < |run| && run[i].phase != Connecting
    requires m.sender == Agent(n) && m in run[i].store && PcOf(run[i], n).Idle?
    ensures var s := run[i]; m !in Shown(s) <==> !Recalls(s, m) && (m in s.missed || m in s.dropped)
  {
    hide Of, Dedup, UniqueIds, Sorted, IsRun, PcInv, WithinStore;
    var s := run[i];
    InvAlways(run, i, n);
    ShownIn(s, n, m);
    OneFate(s, n, m);
    HistoryRecalls(s, n, m);
  }

  lemma HistoryRecalls(s: State, n: nat, m: Msg)
    requires Inv(s, n)
    ensures m in s.history <==> Recalls(s, m)
  {
    hide Of, Sorted, StoreInv, PcInv, WithinStore, BufferInv;
    if s.recall.Listing? {
      var all, limit := s.recall.all, s.recall.limit;
      assert forall k :: 0 <= k < |Cut(all, limit)| ==> Cut(all, limit)[k] == all[k] && k < limit;
      assert forall k :: 0 <= k < |all| && k < limit ==> all[k] in Cut(all, limit) by {
        assert forall k :: 0 <= k < |all| && k < limit ==> Cut(all, limit)[k] == all[k];
      }
    }
  }

  /** A published message was missed, dropped or accepted, and only one of these. */
  lemma OneFate(s: State, n: nat, m: Msg)
    requires Inv(s, n) && s.phase != Connecting && PcOf(s, n).Idle? && m in s.store && m.sender == Agent(n)
    ensures m in s.live <==> !(m in s.missed || m in s.dropped)
  {
    hide Of, PcInv, WithinStore, UniqueIds, Sorted, Recalled;
    var a := Agent(n);
    OfUnique(s.store, a);
    Stretches(s, n);
    var x, y := Of(s.missed, a), Of(s.offered, a);
    assert Of(s.store, a) == x + y;
    DisjointParts(x, y);
    OfIn(s.store, a, m);
    OfIn(s.missed, a, m);
    OfIn(s.offered, a, m);
    OfferedOnce(x, y, m);
    OfCount(s.offered, a, m);
    assert m in s.offered <==> m in multiset(s.offered);
    assert m in s.live <==> m in multiset(s.live);
    assert m in s.dropped <==> m in multiset(s.dropped);
  }

  lemma OfferedOnce(x: seq<Msg>, y: seq<Msg>, m: Msg)
    requires UniqueIds(x + y)
    ensures multiset(y)[m] <= 1
  {
    forall p, q | 0 <= p < q < |y| ensures y[p] != y[q] {
      assert (x + y)[|x| + p].id != (x + y)[|x| + q].id;
    }
    CountOnce(y, m);
  }

  lemma {:induction false} CountOnce(y: seq<Msg>, m: Msg)
    requires forall p, q :: 0 <= p < q < |y| ==> y[p] != y[q]
    ensures multiset(y)[m] <= 1
  {
    if y != [] {
      var front, last := y[..|y| - 1], y[|y| - 1];
      assert y == front + [last];
      CountOnce(front, m);
      assert last !in front;
    }
  }

  /**
   With nothing dropped, it is hidden exactly when its subscribers were taken before
   the visitor subscribed and its place in the listing is not below the limit.
   */
  lemma LostBeyondLimit(run: seq<State>, i: nat, n: nat, m: Msg)
    requires IsRun(run) && i < |run| && run[i].recall.Listing? && run[i].dropped == []
    requires m.sender == Agent(n) && m in run[i].store && PcOf(run[i], n).Idle?
    ensures var s := run[i];
            m !in Shown(s) <==>
            m in s.missed && exists k :: s.recall.limit <= k < |s.recall.all| && s.recall.all[k] == m
  {
    hide Of, Dedup, UniqueIds, Sorted, IsRun, PcInv, WithinStore, BufferInv;
    var s := run[i];
    InvAlways(run, i, n);
    LostExactly(run, i, n, m);
    HistoryRecalls(s, n, m);
    CutExactly(s.recall.all, s.recall.limit, m);
    if m in s.missed {
      MissedListed(s, n, m);
    }
  }

  /** A listed message is cut off exactly when its place is not below the limit. */
  lemma CutExactly(all: seq<Msg>, limit: nat, m: Msg)
    requires Sorted(all)
    ensures m in all ==> (m !in Cut(all, limit) <==> exists k :: limit <= k < |all| && all[k] == m)
  {
    forall k | 0 <= k < |all| && k < limit ensures all[k] in Cut(all, limit) {
      assert Cut(all, limit)[k] == all[k];
    }
    if m in Cut(all, limit) {
      var i :| 0 <= i < |Cut(all, limit)| && Cut(all, limit)[i] == m;
      forall k | limit <= k < |all| ensures all[k] != m {
        assert Before(all[i], all[k]);
      }
    }
  }

  lemma DisjointParts(x: seq<Msg>, y: seq<Msg>)
    requires UniqueIds(x + y)
    ensures forall m :: m in x ==> m !in y
  {
    forall p, q | 0 <= p < |x| && 0 <= q < |y| ensures x[p] != y[q] {
      assert (x + y)[p].id != (x + y)[|x| + q].id;
    }
  }

  lemma Extend(run: seq<State>, step: Step) returns (more: seq<State>)
    requires IsRun(run) && Enabled(run[|run| - 1], step)
    ensures IsRun(more) && more != [] && more[|more| - 1] == Apply(run[|run| - 1], step)
  {
    hide Enabled, Apply;
    more := run + [Apply(run[|run| - 1], step)];
    forall i | 0 < i < |more| ensures Next(more[i - 1], more[i]) {
      if i == |run| {
        assert more[i - 1] == run[|run| - 1];
      } else {
        assert more[i - 1] == run[i - 1] && more[i] == run[i];
      }
    }
  }

  /** With a history limit of one, the second message an agent sent before the visitor came is lost. */
  lemma OverLimitLoses() returns (run: seq<State>)
    ensures IsRun(run) && run != []
    ensures var s := run[|run| - 1];
            && s.recall.Listing? && s.dropped == [] && PcOf(s, 0).Idle?
            && |s.store| == 2 && Shown(s) == s.store[..1]
  {
    hide Dedup, IsRun, Sorted;
    var a, b := Msg(0, Agent(0), 1), Msg(1, Agent(0), 2);
    run := TwoUnseen(a, b);
    run := Extend(run, Subscribe);
    InTime(a, b);
    run := Extend(run, Replay([a, b], 1));
    var s := run[|run| - 1];
    assert s.history + (s.delivered + Lives(s.out)) == [a];
    DedupDistinct([a]);
  }

  /** Thirty-two frames wait in the buffer: the message sent then is dropped and never shown. */
  lemma FullBufferLoses() returns (run: seq<State>)
    ensures IsRun(run) && run != []
    ensures var s := run[|run| - 1]; PcOf(s, 0).Idle? && |s.store| == 1 && s.dropped == s.store && Shown(s) == []
  {
    hide IsRun, Sorted, Dedup;
    run := Filled(BUFFER);
    var m := Msg(0, Agent(0), 1);
    run := Extend(run, Append(0, m));
    run := Extend(run, Snapshot(0));
    run := Extend(run, Send(0));
    var s := run[|run| - 1];
    NoLives(BUFFER);
    assert s.history + (s.delivered + Lives(s.out)) == [];
    DedupNothing();
  }

  lemma DedupNothing()
    ensures Dedup([]) == []
  {
  }

  function Others(n: nat): (out: seq<Frame>)
    ensures |out| == n
  {
    if n == 0 then [] else Others(n - 1) + [Other]
  }

  lemma {:induction false} NoLives(n: nat)
    ensures Lives(Others(n)) == []
  {
    if n > 0 {
      NoLives(n - 1);
      LivesAppend(Others(n - 1), Other);
    }
  }

  /** A visitor that is connected to an empty chat, with so many frames in its buffer. */
  lemma {:induction false} Filled(n: nat) returns (run: seq<State>)
    requires n <= BUFFER
    ensures IsRun(run) && run != []
    ensures run[|run| - 1] == State([], map[], [], [], Subscribed, Pending, [], Others(n), [], [], [], [])
  {
    if n == 0 {
      run := [State([], map[], [], [], Connecting, Pending, [], [], [], [], [], [])];
      run := Extend(run, Subscribe);
    } else {
      hide IsRun;
      run := Filled(n - 1);
      run := Extend(run, OtherFrame);
    }
  }

  /** Two messages of the same millisecond: the visitor sees them the other way round. */
  lemma SameTimeSwaps() returns (run: seq<State>)
    ensures IsRun(run) && run != []
    ensures var s := run[|run| - 1];
            && Undisturbed(s) && PcOf(s, 0).Idle?
            && |s.store| == 2 && s.store[0].when == s.store[1].when && s.store[0].sender == s.store[1].sender == Agent(0)
            && Shown(s) == [s.store[1], s.store[0]]
  {
    hide Dedup, IsRun, Sorted, UniqueIds;
    var a, b := Msg(1, Agent(0), 7), Msg(0, Agent(0), 7);
    run := TwoUnseen(a, b);
    run := Extend(run, Subscribe);
    InTime(b, a);
    assert multiset([b, a]) == multiset([a, b]);
    run := Extend(run, Replay([b, a], 200));
    var s := run[|run| - 1];
    assert s.history + (s.delivered + Lives(s.out)) == [b, a];
    TwoIds(b, a);
    DedupDistinct([b, a]);
  }

  lemma InTime(a: Msg, b: Msg)
    requires Before(a, b)
    ensures Sorted([a, b])
  {
  }

  lemma TwoIds(a: Msg, b: Msg)
    requires a.id != b.id
    ensures UniqueIds([a, b])
  {
  }

  lemma TwoUnseen(a: Msg, b: Msg) returns (run: seq<State>)
    requires a.sender == b.sender == Agent(0) && a.id != b.id
    ensures IsRun(run) && run != []
    ensures run[|run| - 1] == State([a, b], map[0 := Idle], [a, b], [], Connecting, Pending, [], [], [], [], [], [])
  {
    run := [State([], map[], [], [], Connecting, Pending, [], [], [], [], [], [])];
    assert IsRun(run);
    hide IsRun;
    run := SendUnseen(run, a);
    run := SendUnseen(run, b);
    assert map[][0 := Idle][0 := Idle] == map[0 := Idle];
    assert [] + [a] + [b] == [a, b];
  }

  /** An agent's append, publish and send while no visitor is connected. */
  lemma SendUnseen(run: seq<State>, m: Msg) returns (more: seq<State>)
    requires IsRun(run) && run != [] && run[|run| - 1].phase == Connecting
    requires m.sender == Agent(0) && PcOf(run[|run| - 1], 0).Idle? && NewIn(run[|run| - 1].store, m)
    ensures IsRun(more) && more != []
    ensures var s := run[|run| - 1];
            more[|more| - 1] == s.(store := s.store + [m], snapped := s.snapped + [m], pcs := s.pcs[0 := Idle])
  {
    hide NewIn, IsRun;
    more := Extend(run, Append(0, m));
    more := Extend(more, Snapshot(0));
    more := Extend(more, Send(0));
    assert run[|run| - 1].pcs[0 := Appended(m)][0 := Snapped(m, false)][0 := Idle] == run[|run| - 1].pcs[0 := Idle];
  }
}
