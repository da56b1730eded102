/**
 The recompute loop on the clock: how long it waits between two passes, and how late an entry of
 backend/app/realtime.py can be handed over. Steps take no time; waiting does.
 */
module BusClock {
  import opened BusModel
  import opened Wrappers

  const IDLE_WAIT := 1.0
  const LEAST_WAIT := 0.005

  /** `f` is when the earliest of these entries was first seen. */
  ghost predicate Soonest(pending: map<Key, Pending>, keys: set<Key>, f: real) {
    && (exists k :: k in keys && k in pending && pending[k].firstSeen == f)
    && forall k :: k in keys && k in pending ==> f <= pending[k].firstSeen
  }

  /** The loop sleeps until the earliest entry is due, but not for less than the least wait. */
  ghost predicate IsWait(b: Bus, now: real, wait: real) {
    if b.pending == map[] then wait == IDLE_WAIT
    else exists f :: Soonest(b.pending, b.pending.Keys, f) && wait == Max(b.debounce - (now - f), LEAST_WAIT)
  }

  /** `wakeAt` is when the wait of a sleeping loop ends; `started` is when the loop was started. */
  datatype Clocked = Clocked(bus: Bus, clock: real, wakeAt: real, started: real)

  /** An event, with the wait that follows if it is a drain; or time goes by. */
  datatype Tick = Act(event: Event, wait: real) | Pass(to: real)

  function Init(debounce: real, maxConcurrent: nat, clock: real): Clocked {
    Clocked(BusModel.Init(debounce, maxConcurrent), clock, clock, clock)
  }

  predicate HappensAt(e: Event, clock: real) {
    match e
    case Submit(_, now) => now == clock
    case Drain(now, _) => now == clock
    case End(_, _, now) => now == clock
    case _ => true
  }

  /** What is ready runs before time goes by, and a sleeping loop wakes on time. */
  ghost predicate Possible(t: Clocked, k: Tick) {
    match k
    case Act(e, wait) =>
      && Enabled(t.bus, e) && HappensAt(e, t.clock) && (e.Timeout? ==> t.wakeAt <= t.clock)
      && (e.Drain? ==> IsWait(Next(t.bus, e), t.clock, wait))
    case Pass(to) => t.clock <= to && t.bus.ready == [] && (t.bus.loop == Asleep ==> to <= t.wakeAt)
  }

  ghost function After(t: Clocked, k: Tick): Clocked
    requires Possible(t, k)
  {
    match k
    case Act(e, wait) =>
      Clocked(Next(t.bus, e), t.clock, if e.Drain? then t.clock + wait else t.wakeAt,
              if e.StartLoop? then t.clock else t.started)
    case Pass(to) => t.(clock := to)
  }

  ghost predicate Legal(t: Clocked, ks: seq<Tick>)
    decreases |ks|
  {
    ks == [] || (Possible(t, ks[0]) && Legal(After(t, ks[0]), ks[1..]))
  }

  ghost function Run(t: Clocked, ks: seq<Tick>): Clocked
    requires Legal(t, ks)
    decreases |ks|
  {
    if ks == [] then t else Run(After(t, ks[0]), ks[1..])
  }

  // ----- no entry is overdue ----------------------------------------------------------------------

  /** The latest that an entry first seen at `f` may be handed over by a loop that runs. */
  function Deadline(b: Bus, started: real, f: real): real {
    Max(f, started) + b.debounce + LEAST_WAIT
  }

  predicate Runs(b: Bus) {
    b.loop == Asleep || b.loop == Queued
  }

  ghost predicate OnTime(b: Bus, started: real, at: real) {
    forall k :: k in b.pending ==> at <= Deadline(b, started, b.pending[k].firstSeen)
  }

  ghost predicate Timely(b: Bus, clock: real, wakeAt: real, started: real) {
    && 0.0 <= b.debounce && started <= clock
    && (Runs(b) ==> OnTime(b, started, clock))
    && (b.loop == Asleep ==> clock <= wakeAt && OnTime(b, started, wakeAt))
  }

  ghost predicate Prompt(t: Clocked, m: nat) {
    Inv(t.bus, m) && Timely(t.bus, t.clock, t.wakeAt, t.started)
  }

  /** What a step does to entries: it keeps their clocks, opens some now, or hands some over. */
  ghost predicate EntriesKept(b: Bus, b': Bus, now: real) {
    forall k :: k in b'.pending ==>
      b'.pending[k].firstSeen == now || (k in b.pending && b'.pending[k].firstSeen == b.pending[k].firstSeen)
  }

  lemma NextKeepsEntries(b: Bus, e: Event, now: real)
    requires Enabled(b, e) && HappensAt(e, now)
    ensures EntriesKept(b, Next(b, e), now) && Next(b, e).debounce == b.debounce
  {
    if e.Drain? {
      PopAllKeepsDebounce(b.(loop := Asleep, ready := b.ready[1..]), e.order);
    }
    hide PopAll;
  }

  lemma {:induction false} PopAllKeepsDebounce(b: Bus, order: seq<Key>)
    requires Poppable(b, order)
    ensures PopAll(b, order).debounce == b.debounce && PopAll(b, order).loop == b.loop
    decreases |order|
  {
    hide Pop, PopAll, Poppable;
    if order == [] {
      PopNone(b);
    } else {
      var init, last := order[..|order| - 1], order[|order| - 1];
      assert order == init + [last];
      FirstPoppable(b, init, last);
      PopAllKeepsDebounce(b, init);
      PopAllOneMore(b, init, last);
      PopKeepsDebounce(PopAll(b, init), last);
    }
  }

  lemma FirstPoppable(b: Bus, init: seq<Key>, last: Key)
    requires Poppable(b, init + [last])
    ensures Poppable(b, init) && last in b.pending && last !in init
  {
    var order := init + [last];
    assert order[|init|] == last;
    assert forall i :: 0 <= i < |init| ==> order[i] == init[i];
  }

  lemma PopKeepsDebounce(b: Bus, k: Key)
    requires k in b.pending
    ensures Pop(b, k).debounce == b.debounce && Pop(b, k).loop == b.loop
  {
  }

  /** After a drain nothing pending is due, and the loop sleeps. */
  lemma DrainLeavesEarly(b: Bus, now: real, order: seq<Key>)
    requires Enabled(b, Drain(now, order))
    ensures var b' := Next(b, Drain(now, order));
            && b'.loop == Asleep
            && forall k :: k in b'.pending ==> now < b'.pending[k].firstSeen + b.debounce
  {
    PopAllKeepsDebounce(b.(loop := Asleep, ready := b.ready[1..]), order);
    hide PopAll;
  }

  /** The wait ends before anything pending is overdue. */
  lemma WaitIsShort(b: Bus, now: real, wait: real)
    requires IsWait(b, now, wait) && forall k :: k in b.pending ==> now < b.pending[k].firstSeen + b.debounce
    ensures 0.0 <= wait
    ensures forall k :: k in b.pending ==> now + wait <= b.pending[k].firstSeen + b.debounce + LEAST_WAIT
  {
  }

  lemma DrainIsTimely(b: Bus, b': Bus, clock: real, wakeAt: real, started: real, wait: real)
    requires Timely(b, clock, wakeAt, started) && b'.debounce == b.debounce && b'.loop == Asleep
    requires IsWait(b', clock, wait) && forall k :: k in b'.pending ==> clock < b'.pending[k].firstSeen + b'.debounce
    ensures Timely(b', clock, clock + wait, started)
  {
    WaitIsShort(b', clock, wait);
    hide IsWait;
  }

  lemma DrainIsPrompt(t: Clocked, m: nat, e: Event, wait: real)
    requires Prompt(t, m) && Possible(t, Act(e, wait)) && e.Drain?
    ensures Prompt(After(t, Act(e, wait)), m)
  {
    hide Inv, Next, Enabled, Timely, IsWait, EntriesKept;
    StepInv(t.bus, m, e);
    NextKeepsEntries(t.bus, e, t.clock);
    DrainLeavesEarly(t.bus, t.clock, e.order);
    DrainIsTimely(t.bus, Next(t.bus, e), t.clock, t.wakeAt, t.started, wait);
  }

  /** Only a drain puts the loop to sleep; a request wakes it. */
  lemma SleepersSleepOn(b: Bus, e: Event)
    requires Enabled(b, e) && !e.Drain?
    ensures var b' := Next(b, e);
            b'.loop == Asleep ==> b.loop == Asleep && forall k :: k in b'.pending ==>
              k in b.pending && b'.pending[k].firstSeen == b.pending[k].firstSeen
  {
  }

  lemma RunnersRan(b: Bus, e: Event)
    requires Enabled(b, e) && !e.Drain?
    ensures Runs(Next(b, e)) ==> if e.StartLoop? then Next(b, e).loop == Queued else Runs(b)
  {
  }

  lemma ActIsTimely(b: Bus, b': Bus, clock: real, wakeAt: real, started: real, started': real)
    requires Timely(b, clock, wakeAt, started) && b'.debounce == b.debounce && EntriesKept(b, b', clock)
    requires Runs(b') ==> (Runs(b) && started' == started) || (started' == clock && b'.loop == Queued)
    requires started' == started || started' == clock
    requires b'.loop == Asleep ==> b.loop == Asleep && forall k :: k in b'.pending ==>
               k in b.pending && b'.pending[k].firstSeen == b.pending[k].firstSeen
    ensures Timely(b', clock, wakeAt, started')
  {
  }

  lemma ActIsPrompt(t: Clocked, m: nat, e: Event, wait: real)
    requires Prompt(t, m) && Possible(t, Act(e, wait)) && !e.Drain?
    ensures Prompt(After(t, Act(e, wait)), m)
  {
    hide Inv, Next, Enabled, Timely, EntriesKept, HappensAt;
    StepInv(t.bus, m, e);
    NextKeepsEntries(t.bus, e, t.clock);
    RunnersRan(t.bus, e);
    SleepersSleepOn(t.bus, e);
    ActIsTimely(t.bus, Next(t.bus, e), t.clock, t.wakeAt, t.started, if e.StartLoop? then t.clock else t.started);
  }

  lemma QueuedIsReady(t: Clocked, m: nat)
    requires Inv(t.bus, m) && t.bus.loop == Queued
    ensures t.bus.ready != []
  {
  }

  lemma LaterOnTime(b: Bus, started: real, early: real, late: real)
    requires early <= late
    ensures OnTime(b, started, late) ==> OnTime(b, started, early)
  {
  }

  lemma PassIsPrompt(t: Clocked, m: nat, to: real)
    requires Prompt(t, m) && Possible(t, Pass(to))
    ensures Prompt(After(t, Pass(to)), m)
  {
    hide Inv, OnTime;
    if t.bus.loop == Queued {
      QueuedIsReady(t, m);
    }
    if t.bus.loop == Asleep {
      LaterOnTime(t.bus, t.started, to, t.wakeAt);
    }
  }

  lemma {:induction false} RunIsPrompt(t: Clocked, m: nat, ks: seq<Tick>)
    requires Prompt(t, m) && Legal(t, ks)
    ensures Prompt(Run(t, ks), m)
    decreases |ks|
  {
    if ks != [] {
      hide Prompt, Possible, After;
      match ks[0] {
        case Act(e, wait) =>
          if e.Drain? {
            DrainIsPrompt(t, m, e, wait);
          } else {
            ActIsPrompt(t, m, e, wait);
          }
        case Pass(to) => PassIsPrompt(t, m, to);
      }
      RunIsPrompt(After(t, ks[0]), m, ks[1..]);
    }
  }

  /**
   While the loop runs, nothing is pending past its window by more than the least wait, however
   many requests arrive meanwhile. For entries older than the loop the window begins with it.
   */
  lemma NothingIsOverdue(debounce: real, maxConcurrent: nat, clock: real, ks: seq<Tick>)
    requires 0.0 <= debounce && Legal(Init(debounce, maxConcurrent, clock), ks)
    ensures var t := Run(Init(debounce, maxConcurrent, clock), ks);
            Runs(t.bus) ==> forall k :: k in t.bus.pending ==>
              t.clock <= Deadline(t.bus, t.started, t.bus.pending[k].firstSeen)
  {
    InitInv(debounce, maxConcurrent);
    RunIsPrompt(Init(debounce, maxConcurrent, clock), maxConcurrent, ks);
  }

  /**
   Nor does the loop wake for nothing: when a wait that no request cuts short is over, an entry is due,
   unless none was pending, when it waits for a second.
   */
  lemma NoIdlePass(t: Clocked, e: Event, wait: real)
    requires Possible(t, Act(e, wait)) && e.Drain?
    ensures var t' := After(t, Act(e, wait));
            if t'.bus.pending == map[] then t'.wakeAt == t.clock + 1.0
            else exists k :: k in t'.bus.pending && t'.bus.pending[k].firstSeen + t'.bus.debounce <= t'.wakeAt
  {
    hide Next, Enabled;
    var b := Next(t.bus, e);
    if b.pending != map[] {
      var f :| Soonest(b.pending, b.pending.Keys, f) && wait == Max(b.debounce - (t.clock - f), LEAST_WAIT);
      var k :| k in b.pending && b.pending[k].firstSeen == f;
    }
  }

  /** Such runs there are: a loop is started, and a request comes in. */
  lemma SomethingCanBePending(debounce: real, m: nat, clock: real, req: Request)
    ensures var t, ks := Init(debounce, m, clock), [Act(StartLoop, 0.0), Act(Submit(req, clock), 0.0)];
            Legal(t, ks) && Runs(Run(t, ks).bus) && req.key in Run(t, ks).bus.pending && Run(t, ks).clock == clock
  {
    TwoTicks(Init(debounce, m, clock), Act(StartLoop, 0.0), Act(Submit(req, clock), 0.0));
  }

  lemma OneTick(t: Clocked, k: Tick)
    requires Possible(t, k)
    ensures Legal(t, [k]) && Run(t, [k]) == After(t, k)
  {
    hide Possible, After;
    assert [k][1..] == [];
    assert Legal(After(t, k), [k][1..]);
  }

  lemma TwoTicks(t: Clocked, a: Tick, b: Tick)
    requires Possible(t, a) && Possible(After(t, a), b)
    ensures Legal(t, [a, b]) && Run(t, [a, b]) == After(After(t, a), b)
  {
    hide Possible, After;
    OneTick(After(t, a), b);
    assert [a, b][1..] == [b];
    assert Legal(After(t, a), [a, b][1..]);
  }
}
