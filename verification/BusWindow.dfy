/**
 The debounce window of backend/app/realtime.py: an entry is not handed over before its window has
 passed, so that whatever is requested meanwhile goes into it, and its run starts with all of that.
 */
module BusWindow {
  import opened BusModel
  import opened BusHistory
  import BusClock

  lemma {:induction false} LegalSnoc(b: Bus, es: seq<Event>, e: Event)
    requires Legal(b, es + [e])
    ensures Legal(b, es) && Enabled(Run(b, es), e) && Run(b, es + [e]) == Next(Run(b, es), e)
    decreases |es|
  {
    if es == [] {
      assert es + [e] == [e];
    } else {
      assert (es + [e])[1..] == es[1..] + [e];
      LegalSnoc(Next(b, es[0]), es[1..], e);
    }
  }

  lemma StepKeepsDebounce(b: Bus, e: Event)
    requires Enabled(b, e)
    ensures Next(b, e).debounce == b.debounce
  {
    if e.Drain? {
      BusClock.PopAllKeepsDebounce(b.(loop := Asleep, ready := b.ready[1..]), e.order);
    }
    hide PopAll;
  }

  lemma {:induction false} RunKeepsDebounce(b: Bus, es: seq<Event>)
    requires Legal(b, es)
    ensures Run(b, es).debounce == b.debounce
    decreases |es|
  {
    if es != [] {
      StepKeepsDebounce(b, es[0]);
      hide Next, Enabled;
      RunKeepsDebounce(Next(b, es[0]), es[1..]);
    }
  }

  // ----- nothing is handed over early ----------------------------------------------------------------

  lemma DueIsOldEnough(b: Bus, now: real, order: seq<Key>, k: Key, so: seq<Ask>)
    requires Enabled(b, Drain(now, order)) && k in order && Tells(b, k, so)
    ensures so != [] && b.debounce <= now - so[0].at
    ensures k in b.pending && SumsUp(b.pending[k], so)
  {
    var i :| 0 <= i < |order| && order[i] == k;
    assert order[i] in b.pending;
  }

  /** In every run of the bus, whatever a drain hands over was first requested a full window ago. */
  lemma NothingIsEarly(debounce: real, m: nat, es: seq<Event>, now: real, order: seq<Key>, k: Key)
    requires Legal(Init(debounce, m), es + [Drain(now, order)]) && k in order
    ensures Legal(Init(debounce, m), es)
    ensures var so := Open(Init(debounce, m), es, k, []); so != [] && debounce <= now - so[0].at
  {
    var b := Init(debounce, m);
    LegalSnoc(b, es, Drain(now, order));
    RunKeepsDebounce(b, es);
    EntriesTellTheirHistory(debounce, m, es, k);
    hide Legal, Run, Enabled, Next, Tells, Open;
    DueIsOldEnough(Run(b, es), now, order, k, Open(b, es, k, []));
  }

  /** And whatever it leaves behind was first requested less than a window ago. */
  lemma WhatIsLeftIsYoung(debounce: real, m: nat, es: seq<Event>, now: real, order: seq<Key>, k: Key)
    requires Legal(Init(debounce, m), es + [Drain(now, order)])
    requires k in Run(Init(debounce, m), es + [Drain(now, order)]).pending
    ensures var so := Open(Init(debounce, m), es + [Drain(now, order)], k, []); so != [] && now - so[0].at < debounce
  {
    var b, e := Init(debounce, m), Drain(now, order);
    LegalSnoc(b, es, e);
    RunKeepsDebounce(b, es);
    EntriesTellTheirHistory(debounce, m, es + [e], k);
    BusClock.DrainLeavesEarly(Run(b, es), now, order);
    StepKeepsDebounce(Run(b, es), e);
    hide Legal, Run, Enabled, Next, Open;
  }

  // ----- one entry for all of a window ----------------------------------------------------------------

  /** All the requests under `k`, follow-ups included. */
  ghost function AllAsks(b: Bus, es: seq<Event>, k: Key): seq<Ask>
    requires Legal(b, es)
    decreases |es|
  {
    if es == [] then [] else Asks(b, es[0], k) + AllAsks(Next(b, es[0]), es[1..], k)
  }

  /** No drain comes at the end of the window that opens at `at`, or after it. */
  ghost predicate InWindow(es: seq<Event>, at: real, debounce: real) {
    forall i :: 0 <= i < |es| && es[i].Drain? ==> es[i].now < at + debounce
  }

  /** A step within the window. */
  lemma WindowStep(b: Bus, e: Event, k: Key, so: seq<Ask>)
    requires Enabled(b, e) && Tells(b, k, so) && so != [] && (e.Drain? ==> e.now < so[0].at + b.debounce)
    ensures !Pops(e, k) && Tells(Next(b, e), k, so + Asks(b, e, k)) && Next(b, e).debounce == b.debounce
  {
    hide Tells, Next, Enabled, Asks;
    StepTells(b, e, k, so);
    StepKeepsDebounce(b, e);
    if Pops(e, k) {
      DueIsOldEnough(b, e.now, e.order, k, so);
    }
  }

  lemma {:induction false} WindowStaysOpen(b: Bus, es: seq<Event>, k: Key, so: seq<Ask>)
    requires Legal(b, es) && Tells(b, k, so) && so != [] && InWindow(es, so[0].at, b.debounce)
    ensures forall i :: 0 <= i < |es| ==> !Pops(es[i], k)
    ensures Tells(Run(b, es), k, so + AllAsks(b, es, k))
    decreases |es|
  {
    hide Tells, Next, Enabled, Asks, Pops;
    if es == [] {
      assert so + [] == so;
    } else {
      var e, rest := es[0], es[1..];
      assert es == [e] + rest;
      WindowOneOn(es, so[0].at, b.debounce);
      hide InWindow;
      WindowStep(b, e, k, so);
      WindowStaysOpen(Next(b, e), rest, k, so + Asks(b, e, k));
      assert so + Asks(b, e, k) + AllAsks(Next(b, e), rest, k) == so + (Asks(b, e, k) + AllAsks(Next(b, e), rest, k));
    }
  }

  lemma WindowOneOn(es: seq<Event>, at: real, debounce: real)
    requires es != [] && InWindow(es, at, debounce)
    ensures InWindow(es[1..], at, debounce) && (es[0].Drain? ==> es[0].now < at + debounce)
  {
  }

  /**
   Whatever is requested under a key within a window of the first request since its last hand-over
   goes into one entry, and the key is not handed over meanwhile.
   */
  lemma OneEntryPerWindow(debounce: real, m: nat, es: seq<Event>, more: seq<Event>, k: Key)
    requires Legal(Init(debounce, m), es) && Legal(Run(Init(debounce, m), es), more)
    requires var so := Open(Init(debounce, m), es, k, []); so != [] && InWindow(more, so[0].at, debounce)
    ensures var b, so := Run(Init(debounce, m), es), Open(Init(debounce, m), es, k, []);
            && (forall i :: 0 <= i < |more| ==> !Pops(more[i], k))
            && k in Run(b, more).pending && SumsUp(Run(b, more).pending[k], so + AllAsks(b, more, k))
  {
    EntriesTellTheirHistory(debounce, m, es, k);
    RunKeepsDebounce(Init(debounce, m), es);
    hide Legal, Run, Open, InWindow, SumsUp;
    WindowStaysOpen(Run(Init(debounce, m), es), more, k, Open(Init(debounce, m), es, k, []));
  }

  // ----- what a run is started with --------------------------------------------------------------------

  /** A run that is not yet in `b` carries the entry `p`. */
  ghost predicate Carried(b: Bus, b': Bus, p: Pending) {
    exists id :: id !in b.tasks && id in b'.tasks && b'.tasks[id].pending == p
  }

  lemma {:induction false} PopAllCarries(b: Bus, order: seq<Key>, k: Key)
    requires Poppable(b, order) && (forall id :: id in b.tasks ==> id < b.nextId)
    ensures var b' := PopAll(b, order);
            && b'.inflight == b.inflight && b.nextId <= b'.nextId
            && (forall id :: id in b'.tasks ==> id < b'.nextId)
            && (k in order && k !in b.inflight ==> Carried(b, b', b.pending[k]))
    decreases |order|
  {
    hide PopAll, Pop, Poppable, Carried;
    if order == [] {
      PopNone(b);
    } else {
      var init, last := order[..|order| - 1], order[|order| - 1];
      assert order == init + [last];
      BusClock.FirstPoppable(b, init, last);
      PopAllCarries(b, init, k);
      PopAllOneMore(b, init, last);
      PopCarries(b, PopAll(b, init), last, k);
    }
  }

  lemma PopCarries(b: Bus, c: Bus, last: Key, k: Key)
    requires last in c.pending && last in b.pending && c.pending[last] == b.pending[last] && c.inflight == b.inflight
    requires b.nextId <= c.nextId && (forall id :: id in b.tasks ==> id < b.nextId)
    requires forall id :: id in c.tasks ==> id < c.nextId
    ensures var b' := Pop(c, last);
            && b'.inflight == b.inflight && b.nextId <= b'.nextId && (forall id :: id in b'.tasks ==> id < b'.nextId)
            && (last !in b.inflight ==> Carried(b, b', b.pending[last]))
            && (k in b.pending && Carried(b, c, b.pending[k]) ==> Carried(b, b', b.pending[k]))
  {
    var b' := Pop(c, last);
    if last !in b.inflight {
      assert c.nextId !in b.tasks && b'.tasks[c.nextId].pending == b.pending[last];
    }
    if k in b.pending && Carried(b, c, b.pending[k]) {
      var id :| id !in b.tasks && id in c.tasks && c.tasks[id].pending == b.pending[k];
      assert id in b'.tasks && b'.tasks[id].pending == b.pending[k];
    }
  }

  /**
   A drain that hands a key over, with no run under it in flight, starts a run that carries the sum of
   the requests since the last hand-over: their number, their triggers, and the first of the most severe.
   */
  lemma RunsCarryTheirEntries(debounce: real, m: nat, es: seq<Event>, now: real, order: seq<Key>, k: Key)
    requires Legal(Init(debounce, m), es + [Drain(now, order)]) && Legal(Init(debounce, m), es)
    requires k in order && k !in Run(Init(debounce, m), es).inflight
    ensures var b, b' := Run(Init(debounce, m), es), Run(Init(debounce, m), es + [Drain(now, order)]);
            exists id :: id !in b.tasks && id in b'.tasks
                         && SumsUp(b'.tasks[id].pending, Open(Init(debounce, m), es, k, []))
  {
    hide Legal, Run, Open, Inv, SumsUp, Tells, Next, Enabled;
    LegalSnoc(Init(debounce, m), es, Drain(now, order));
    EntriesTellTheirHistory(debounce, m, es, k);
    InitInv(debounce, m);
    RunInv(Init(debounce, m), m, es);
    DrainCarries(Run(Init(debounce, m), es), m, now, order, k, Open(Init(debounce, m), es, k, []));
  }

  lemma DrainCarries(b: Bus, m: nat, now: real, order: seq<Key>, k: Key, so: seq<Ask>)
    requires Inv(b, m) && Enabled(b, Drain(now, order)) && k in order && k !in b.inflight && Tells(b, k, so)
    ensures var b' := Next(b, Drain(now, order));
            exists id :: id !in b.tasks && id in b'.tasks && SumsUp(b'.tasks[id].pending, so)
  {
    DueIsOldEnough(b, now, order, k, so);
    hide Inv, SumsUp, PopAll, Tells;
    IdsAreOld(b, m);
    PopAllCarries(b.(loop := Asleep, ready := b.ready[1..]), order, k);
  }

  lemma IdsAreOld(b: Bus, m: nat)
    requires Inv(b, m)
    ensures forall id :: id in b.tasks ==> id < b.nextId
  {
  }

  /** A run keeps what it was started with to its end. */
  lemma RunKeepsItsEntry(b: Bus, m: nat, e: Event, id: nat)
    requires Inv(b, m) && Enabled(b, e) && id in b.tasks
    ensures id in Next(b, e).tasks ==> Next(b, e).tasks[id].pending == b.tasks[id].pending
    ensures id !in Next(b, e).tasks ==> e.End? && e.id == id
  {
    hide FlightOk, PermitsOk, PendingOk, NothingLost, CountsOk, PopAll;
    if e.Drain? {
      PopAllKeepsRuns(b.(loop := Asleep, ready := b.ready[1..]), e.order, id);
    }
  }

  lemma {:induction false} PopAllKeepsRuns(b: Bus, order: seq<Key>, id: nat)
    requires Poppable(b, order) && id in b.tasks && id < b.nextId
    ensures var b' := PopAll(b, order); id in b'.tasks && id < b'.nextId && b'.tasks[id] == b.tasks[id]
    decreases |order|
  {
    if order != [] {
      PopAllKeepsRuns(b, order[..|order| - 1], id);
    }
  }

  // ----- who leads ------------------------------------------------------------------------------------------

  /** A request of this kind is among them. */
  ghost predicate Among(so: seq<Ask>, t: Trigger) {
    exists i :: 0 <= i < |so| && so[i].req.trigger == t
  }

  /**
   An official alert leads its entry whatever else comes in, then a pushed event, then the state of a
   road or a shelter, then what people report and ask for; a scheduled pass leads only if nothing else is asked.
   */
  lemma Headlines(p: Pending, so: seq<Ask>)
    requires SumsUp(p, so)
    ensures var t := p.request.trigger;
            if Among(so, OfficialAlert) then t == OfficialAlert
            else if Among(so, PushIngress) then t == PushIngress
            else if Among(so, RoadStatus) || Among(so, ShelterStatus) then t == RoadStatus || t == ShelterStatus
            else if Among(so, FieldReport) || Among(so, Observation) || Among(so, OperatorRequest)
            then t == FieldReport || t == Observation || t == OperatorRequest
            else t == Scheduled
  {
    var i: nat :| MostSevereAt(p.request, so, i);
    assert so[i].req.trigger == p.request.trigger;
    assert Among(so, p.request.trigger);
    forall t | Among(so, t) ensures Severity(t) <= Severity(p.request.trigger) {
      var j :| 0 <= j < |so| && so[j].req.trigger == t;
    }
  }

  // ----- when a run gets to work ------------------------------------------------------------------------------

  /** A run that begins works at once if fewer are at work than may be and none waits; otherwise it waits its turn. */
  lemma RunsAtOnceExactly(b: Bus, m: nat)
    requires Inv(b, m) && Enabled(b, First)
    ensures var id := b.ready[0].id;
            && id in Next(b, First).tasks && KeyOf(b, id) in Next(b, First).inflight
            && (Next(b, First).tasks[id].phase == Running <==>
                  |Runners(b)| < m && forall i :: i in b.tasks ==> b.tasks[i].phase != Waiting)
            && (Next(b, First).tasks[id].phase != Running ==> Next(b, First).tasks[id].phase == Waiting)
  {
    hide QueueOk, FlightOk, PendingOk, NothingLost, CountsOk;
  }

  /** A waiting run can be admitted exactly while fewer are at work than may be, and is at work then. */
  lemma AdmittedExactly(b: Bus, m: nat, id: nat)
    requires Inv(b, m) && id in b.tasks && b.tasks[id].phase == Waiting
    ensures Enabled(b, Grant(id)) <==> |Runners(b)| < m
    ensures Enabled(b, Grant(id)) ==> Next(b, Grant(id)).tasks[id].phase == Running
  {
    hide QueueOk, FlightOk, PendingOk, NothingLost, CountsOk;
  }
}
