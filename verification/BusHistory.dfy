/**
 What a pending entry of BusModel says about the requests submitted so far, and how soon a
 request is covered by a run that starts after it.
 */
module BusHistory {
  import opened BusModel

  // ----- an entry sums up the requests since its key was last handed over --------------------------

  datatype Ask = Ask(req: Request, at: real)

  /** The requests under `k` that a step makes, the follow-up of a dirty key included. */
  function Asks(b: Bus, e: Event, k: Key): seq<Ask>
    requires Enabled(b, e)
  {
    match e
    case Submit(req, now) => if req.key == k then [Ask(req, now)] else []
    case End(id, _, now) =>
      if KeyOf(b, id) == k && k in b.dirty then [Ask(Request(k, Scheduled, "follow-up pass"), now)] else []
    case _ => []
  }

  predicate Pops(e: Event, k: Key) {
    e.Drain? && k in e.order
  }

  /** The requests under `k` since the last drain that handed it over; `so` are the earlier ones. */
  ghost function Open(b: Bus, es: seq<Event>, k: Key, so: seq<Ask>): seq<Ask>
    requires Legal(b, es)
    decreases |es|
  {
    if es == [] then so
    else Open(Next(b, es[0]), es[1..], k, if Pops(es[0], k) then [] else so + Asks(b, es[0], k))
  }

  ghost predicate MostSevereAt(req: Request, so: seq<Ask>, i: nat) {
    && i < |so| && so[i].req == req
    && (forall j :: 0 <= j < |so| ==> Severity(so[j].req.trigger) <= Severity(req.trigger))
    && (forall j :: 0 <= j < i ==> Severity(so[j].req.trigger) < Severity(req.trigger))
  }

  /** The headline is the first of the most severe requests; the clock is that of the first one. */
  ghost predicate SumsUp(p: Pending, so: seq<Ask>) {
    && so != [] && p.count == |so| && p.firstSeen == so[0].at
    && (forall t :: t in p.triggers <==> exists i :: 0 <= i < |so| && so[i].req.trigger == t)
    && exists i :: MostSevereAt(p.request, so, i)
  }

  ghost predicate Tells(b: Bus, k: Key, so: seq<Ask>) {
    if so == [] then k !in b.pending else k in b.pending && SumsUp(b.pending[k], so)
  }

  lemma FreshSums(req: Request, now: real)
    ensures SumsUp(Fresh(req, now), [Ask(req, now)])
  {
    assert MostSevereAt(req, [Ask(req, now)], 0);
    assert [Ask(req, now)][0].req.trigger == req.trigger;
  }

  lemma MergeSums(p: Pending, so: seq<Ask>, a: Ask)
    requires SumsUp(p, so)
    ensures SumsUp(Merge(p, a.req), so + [a])
  {
    var all := so + [a];
    MergeHeadline(p, so, a);
    forall t ensures t in p.triggers + {a.req.trigger} <==> exists i :: 0 <= i < |all| && all[i].req.trigger == t {
      assert all[|so|].req.trigger == a.req.trigger;
      if t in p.triggers {
        var i :| 0 <= i < |so| && so[i].req.trigger == t;
        assert all[i].req.trigger == t;
      }
    }
  }

  lemma MergeHeadline(p: Pending, so: seq<Ask>, a: Ask)
    requires exists i :: MostSevereAt(p.request, so, i)
    ensures exists i :: MostSevereAt(Merge(p, a.req).request, so + [a], i)
  {
    var i :| MostSevereAt(p.request, so, i);
    var headline := Merge(p, a.req).request;
    if Severity(p.request.trigger) < Severity(a.req.trigger) {
      assert MostSevereAt(headline, so + [a], |so|);
    } else {
      assert MostSevereAt(headline, so + [a], i);
    }
  }

  lemma SubmittedTells(b: Bus, req: Request, now: real, so: seq<Ask>)
    requires Tells(b, req.key, so)
    ensures Tells(Submitted(b, req, now), req.key, so + [Ask(req, now)])
  {
    hide SumsUp, Merge, Fresh;
    if so == [] {
      FreshSums(req, now);
      assert so + [Ask(req, now)] == [Ask(req, now)];
    } else {
      MergeSums(b.pending[req.key], so, Ask(req, now));
    }
  }

  /** Only requests under `k`, and drains that hand it over, change its entry. */
  lemma StepTells(b: Bus, e: Event, k: Key, so: seq<Ask>)
    requires Enabled(b, e) && Tells(b, k, so)
    ensures Tells(Next(b, e), k, if Pops(e, k) then [] else so + Asks(b, e, k))
  {
    hide SumsUp, Merge, Fresh;
    assert so + [] == so;
    match e {
      case Submit(req, now) =>
        if req.key == k {
          SubmittedTells(b, req, now, so);
        }
      case End(id, outcome, now) =>
        if KeyOf(b, id) == k && k in b.dirty {
          var b' := Left(b, id, outcome);
          SubmittedTells(b'.(dirty := b'.dirty - {k}), Request(k, Scheduled, "follow-up pass"), now, so);
        }
      case _ =>
    }
  }

  lemma {:induction false} RunTells(b: Bus, es: seq<Event>, k: Key, so: seq<Ask>)
    requires Legal(b, es) && Tells(b, k, so)
    ensures Tells(Run(b, es), k, Open(b, es, k, so))
    decreases |es|
  {
    if es != [] {
      StepTells(b, es[0], k, so);
      hide Tells, Next, Enabled, Asks;
      RunTells(Next(b, es[0]), es[1..], k, if Pops(es[0], k) then [] else so + Asks(b, es[0], k));
    }
  }

  /**
   In every reachable state a key is pending exactly if it was requested since it was last
   handed over, and its entry sums up those requests.
   */
  lemma EntriesTellTheirHistory(debounce: real, maxConcurrent: nat, es: seq<Event>, k: Key)
    requires Legal(Init(debounce, maxConcurrent), es)
    ensures Tells(Run(Init(debounce, maxConcurrent), es), k, Open(Init(debounce, maxConcurrent), es, k, []))
  {
    RunTells(Init(debounce, maxConcurrent), es, k, []);
  }

  // ----- which requests are covered ---------------------------------------------------------------------

  predicate NumberedAt(b: Bus, k: Key) {
    Covered(b, k) <= Newest(b, k) <= b.stats.requested
  }

  /** No run covers a request that has not been made. */
  ghost predicate Numbered(b: Bus) {
    forall k :: NumberedAt(b, k)
  }

  lemma SubmittedIsNumbered(b: Bus, req: Request, now: real)
    requires Numbered(b)
    ensures var b' := Submitted(b, req, now);
            && Numbered(b') && Newest(b', req.key) == b'.stats.requested == b.stats.requested + 1
            && Covered(b', req.key) < Newest(b', req.key)
  {
    var b' := Submitted(b, req, now);
    forall k ensures NumberedAt(b', k) {
      assert NumberedAt(b, k);
    }
    assert NumberedAt(b, req.key);
  }

  lemma SameNumbers(b: Bus, b': Bus)
    requires Numbered(b) && b'.stats.requested == b.stats.requested
    requires b'.hist.newest == b.hist.newest && b'.hist.covered == b.hist.covered
    ensures Numbered(b')
  {
    forall k ensures NumberedAt(b', k) {
      assert NumberedAt(b, k);
    }
  }

  lemma StepIsNumbered(b: Bus, e: Event)
    requires Enabled(b, e) && Numbered(b)
    ensures Numbered(Next(b, e))
  {
    match e {
      case Submit(req, now) => SubmittedIsNumbered(b, req, now);
      case Drain(_, order) => DrainIsNumbered(b, order);
      case End(id, outcome, now) =>
        var k, c := KeyOf(b, id), Left(b, id, outcome);
        SameNumbers(b, c);
        SameNumbers(b, c.(dirty := c.dirty - {k}));
        SubmittedIsNumbered(c.(dirty := c.dirty - {k}), Request(k, Scheduled, "follow-up pass"), now);
      case _ => SameNumbers(b, Next(b, e));
    }
  }

  lemma DrainIsNumbered(b: Bus, order: seq<Key>)
    requires Poppable(b, order) && b.ready != [] && Numbered(b)
    ensures Numbered(Drained(b, order))
  {
    var b' := b.(loop := Asleep, ready := b.ready[1..]);
    hide PopAll;
    PopAllRequests(b', order);
    forall k ensures NumberedAt(Drained(b, order), k) {
      assert NumberedAt(b, k);
      PopAllCovers(b', order, k);
    }
  }

  lemma {:induction false} PopAllRequests(b: Bus, order: seq<Key>)
    requires Poppable(b, order)
    ensures PopAll(b, order).stats == b.stats
    decreases |order|
  {
    if order != [] {
      PopAllRequests(b, order[..|order| - 1]);
    }
  }

  lemma {:induction false} RunIsNumbered(b: Bus, es: seq<Event>)
    requires Legal(b, es) && Numbered(b)
    ensures Numbered(Run(b, es))
    decreases |es|
  {
    if es != [] {
      StepIsNumbered(b, es[0]);
      hide Numbered, Next, Enabled;
      RunIsNumbered(Next(b, es[0]), es[1..]);
    }
  }

  /** In every reachable state the latest request of a key is new, and covered by no run until one is spawned for it. */
  lemma RequestsBeginUncovered(debounce: real, m: nat, es: seq<Event>, req: Request, now: real)
    requires Legal(Init(debounce, m), es)
    ensures var b, b' := Run(Init(debounce, m), es), Next(Run(Init(debounce, m), es), Submit(req, now));
            && Newest(b', req.key) == b'.stats.requested == b.stats.requested + 1
            && (forall k :: Newest(b, k) < Newest(b', req.key)) && Covered(b', req.key) < Newest(b', req.key)
  {
    var b := Run(Init(debounce, m), es);
    assert Numbered(Init(debounce, m));
    RunIsNumbered(Init(debounce, m), es);
    hide Run, Legal;
    SubmittedIsNumbered(b, req, now);
    forall k ensures Newest(b, k) <= b.stats.requested {
      assert NumberedAt(b, k);
    }
  }

  // ----- how soon a request is covered ------------------------------------------------------------------

  /** No run under `k` is about, started or not. */
  ghost predicate Absent(b: Bus, k: Key) {
    forall id :: id in b.tasks ==> KeyOf(b, id) != k
  }

  lemma {:induction false} PopAllCovers(b: Bus, order: seq<Key>, k: Key)
    requires Poppable(b, order)
    ensures var b' := PopAll(b, order);
            && b'.inflight == b.inflight && Newest(b', k) == Newest(b, k)
            && Covered(b', k) == (if k in order && k !in b.inflight then Newest(b, k) else Covered(b, k))
            && (k in b'.dirty <==> k in b.dirty || (k in order && k in b.inflight))
    decreases |order|
  {
    hide PopAll, Pop, Covered, Newest;
    if order == [] {
      PopNone(b);
    } else {
      var init, last := order[..|order| - 1], order[|order| - 1];
      assert order == init + [last];
      PopAllCovers(b, init, k);
      PopAllOneMore(b, init, last);
      PopCovers(PopAll(b, init), last, k);
    }
  }

  lemma PopCovers(b: Bus, last: Key, k: Key)
    requires last in b.pending
    ensures var b' := Pop(b, last);
            && b'.inflight == b.inflight && Newest(b', k) == Newest(b, k)
            && Covered(b', k) == (if k == last && k !in b.inflight then Newest(b, k) else Covered(b, k))
            && (k in b'.dirty <==> k in b.dirty || (k == last && k in b.inflight))
  {
  }

  /** A due key is covered by the drain, or, if a run under it is in flight, marked dirty. */
  lemma DueIsCoveredOrDirty(b: Bus, k: Key, now: real, order: seq<Key>)
    requires Enabled(b, Drain(now, order)) && Due(b, k, now)
    ensures var b' := Next(b, Drain(now, order));
            && Newest(b', k) == Newest(b, k)
            && if k in b.inflight then k in b'.dirty else Covered(b', k) == Newest(b', k)
  {
    hide PopAll;
    PopAllCovers(b.(loop := Asleep, ready := b.ready[1..]), order, k);
  }

  /** The end of a run, however it ends, requests a dirty key again, and leaves no run under it. */
  lemma EndReopens(b: Bus, m: nat, id: nat, outcome: Outcome, now: real)
    requires Inv(b, m) && Enabled(b, End(id, outcome, now))
    ensures var k, b' := KeyOf(b, id), Next(b, End(id, outcome, now));
            && Absent(b', k) && (k in b.dirty ==> k in b'.pending && k !in b'.dirty)
  {
    hide QueueOk, PermitsOk, PendingOk, NothingLost, CountsOk;
  }

  lemma {:induction false} PopAllKeepsAbsent(b: Bus, order: seq<Key>, k: Key)
    requires Poppable(b, order) && PendingOk(b) && k !in order && Absent(b, k)
    ensures Absent(PopAll(b, order), k)
    decreases |order|
  {
    if order != [] {
      var init, last := order[..|order| - 1], order[|order| - 1];
      assert last in order && last in b.pending && EntryOk(last, b.pending[last]);
      PopAllKeepsAbsent(b, init, k);
      var c := PopAll(b, init);
      assert c.pending[last] == b.pending[last];
      hide PopAll, EntryOk;
      PopKeepsAbsent(c, last, k);
    }
  }

  lemma PopKeepsAbsent(b: Bus, last: Key, k: Key)
    requires last in b.pending && b.pending[last].request.key != k && Absent(b, k)
    ensures Absent(Pop(b, last), k)
  {
  }

  /** Until it is handed over, a key stays pending and no run under it appears. */
  lemma AbsentStays(b: Bus, m: nat, e: Event, k: Key)
    requires Inv(b, m) && Enabled(b, e) && !Pops(e, k) && k in b.pending && Absent(b, k)
    ensures k in Next(b, e).pending && Absent(Next(b, e), k)
  {
    hide QueueOk, FlightOk, PermitsOk, NothingLost, CountsOk, PopAll;
    match e {
      case Drain(_, order) => PopAllKeepsAbsent(b.(loop := Asleep, ready := b.ready[1..]), order, k);
      case _ =>
    }
  }

  lemma AbsentIsNotInFlight(b: Bus, k: Key)
    requires FlightOk(b) && Absent(b, k)
    ensures k !in b.inflight
  {
  }

  /** With no run under its key about, an entry is covered as soon as it is handed over. */
  lemma {:induction false} PendingIsCovered(b: Bus, m: nat, es: seq<Event>, k: Key, now: real, order: seq<Key>)
    requires Inv(b, m) && Legal(b, es) && k in b.pending && Absent(b, k)
    requires forall i :: 0 <= i < |es| ==> !Pops(es[i], k)
    requires Enabled(Run(b, es), Drain(now, order)) && Due(Run(b, es), k, now)
    ensures var b' := Next(Run(b, es), Drain(now, order)); Covered(b', k) == Newest(b', k)
    decreases |es|
  {
    if es == [] {
      AbsentIsNotInFlight(b, k);
      DueIsCoveredOrDirty(b, k, now, order);
    } else {
      AbsentStays(b, m, es[0], k);
      StepInv(b, m, es[0]);
      hide Inv, Next, Enabled, Absent, Pops, Covered, Newest, Due;
      PendingIsCovered(Next(b, es[0]), m, es[1..], k, now, order);
    }
  }

  /**
   A key that was marked dirty is covered one run later: once the run in its way has ended,
   the next drain that finds the key due hands it over to a run of its own.
   */
  lemma DirtyIsCoveredOneRunLater(b: Bus, m: nat, id: nat, outcome: Outcome, end: real, es: seq<Event>, now: real,
                                  order: seq<Key>)
    requires Inv(b, m) && Enabled(b, End(id, outcome, end)) && KeyOf(b, id) in b.dirty
    requires var c := Next(b, End(id, outcome, end));
             && Legal(c, es) && (forall i :: 0 <= i < |es| ==> !Pops(es[i], KeyOf(b, id)))
             && Enabled(Run(c, es), Drain(now, order)) && Due(Run(c, es), KeyOf(b, id), now)
    ensures var b' := Next(Run(Next(b, End(id, outcome, end)), es), Drain(now, order));
            Covered(b', KeyOf(b, id)) == Newest(b', KeyOf(b, id))
  {
    EndReopens(b, m, id, outcome, end);
    StepInv(b, m, End(id, outcome, end));
    hide Inv, Next, Enabled, Absent, Pops, Covered, Newest, Due, Run, Legal;
    PendingIsCovered(Next(b, End(id, outcome, end)), m, es, KeyOf(b, id), now, order);
  }
}
