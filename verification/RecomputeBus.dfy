/** The RecomputeBus class of backend/app/realtime.py, one method per step of BusModel. */
module RecomputeBuses {
  import opened BusModel
  import opened Wrappers
  import BusClock

  class RecomputeBus {
    const debounce: real
    ghost const maxConcurrent: nat
    var pending: map<Key, Pending>
    var inflight: set<Key>
    var dirty: set<Key>
    var permits: nat
    var tasks: map<nat, Task>
    var nextId: nat
    var ready: seq<Job>
    var loop: LoopState
    var stats: Stats
    ghost var hist: History

    ghost function State(): Bus
      reads this
    {
      Bus(debounce, pending, inflight, dirty, permits, tasks, nextId, ready, loop, stats, hist)
    }

    ghost predicate Valid()
      reads this
    {
      Inv(State(), maxConcurrent)
    }

    constructor (debounce: real, maxConcurrent: nat)
      ensures Valid() && State() == Init(debounce, maxConcurrent) && this.maxConcurrent == maxConcurrent
    {
      this.debounce, this.maxConcurrent := debounce, maxConcurrent;
      pending, inflight, dirty, permits, tasks := map[], {}, {}, maxConcurrent, map[];
      nextId, ready, loop, stats := 0, [], LoopState.Idle, Stats(0, 0, 0, 0);
      hist := History(map[], map[], 0, 0, 0);
      new;
      InitInv(debounce, maxConcurrent);
    }

    method Start()
      requires Valid() && loop == LoopState.Idle
      modifies this
      ensures Valid() && State() == Next(old(State()), StartLoop)
    {
      hide Inv;
      StepInv(State(), maxConcurrent, StartLoop);
      loop, ready := Queued, ready + [ResumeLoop];
    }

    method Stop()
      requires Valid() && Enabled(State(), StopLoop)
      modifies this
      ensures Valid() && State() == Next(old(State()), StopLoop)
    {
      hide Inv;
      StepInv(State(), maxConcurrent, StopLoop);
      if loop == Queued {
        ready := ready[..|ready| - 1];
      }
      loop := Stopped;
    }

    /** Merges into the pending entry of the key, or opens one, and wakes the loop. */
    method Request(req: Request, now: real)
      modifies this
      ensures State() == Submitted(old(State()), req, now)
      ensures old(Valid()) ==> Valid()
    {
      hide Inv, Entered;
      if Valid() {
        StepInv(State(), maxConcurrent, Submit(req, now));
      }
      Enter(req, now);
      if loop == Asleep {
        loop, ready := Queued, ready + [ResumeLoop];
      }
    }

    method Enter(req: Request, now: real)
      modifies `stats, `hist, `pending
      ensures State() == Entered(old(State()), req, now)
    {
      stats := stats.(requested := stats.requested + 1);
      hist := hist.(newest := hist.newest[req.key := stats.requested]);
      if req.key in pending {
        var p := pending[req.key];
        p := p.(count := p.count + 1, triggers := p.triggers + {req.trigger});
        stats := stats.(coalesced := stats.coalesced + 1);
        if Severity(p.request.trigger) < Severity(req.trigger) {
          p := p.(request := req);
        }
        assert p == Merge(old(pending[req.key]), req);
        pending := pending[req.key := p];
      } else {
        pending := pending[req.key := Pending(req, {req.trigger}, 1, now)];
      }
    }

    /** How long the loop is to wait, from the earliest of the pending entries. */
    method NextWait(now: real) returns (wait: real)
      ensures BusClock.IsWait(State(), now, wait)
    {
      if pending == map[] {
        return BusClock.IDLE_WAIT;
      }
      var keys, soonest := pending.Keys, None;
      while keys != {}
        invariant keys <= pending.Keys
        invariant soonest.None? ==> keys == pending.Keys
        invariant soonest.Some? ==> BusClock.Soonest(pending, pending.Keys - keys, soonest.value)
        decreases keys
      {
        var k :| k in keys;
        keys := keys - {k};
        var f := pending[k].firstSeen;
        if soonest.None? || f < soonest.value {
          soonest := Some(f);
        }
      }
      assert pending.Keys - keys == pending.Keys;
      wait := Max(debounce - (now - soonest.value), BusClock.LEAST_WAIT);
    }

    /** The loop's wait runs into its timeout. */
    method Expire()
      requires Valid() && loop == Asleep
      modifies this
      ensures Valid() && State() == Next(old(State()), Timeout)
    {
      hide Inv;
      StepInv(State(), maxConcurrent, Timeout);
      loop, ready := Queued, ready + [ResumeLoop];
    }

    /** One pass over a due entry: mark it dirty if its key is in flight, spawn a run otherwise. */
    method HandOver(k: Key)
      requires k in pending
      modifies this
      ensures State() == Pop(old(State()), k)
    {
      var p := pending[k];
      pending := pending - {k};
      if k in inflight {
        dirty := dirty + {k};
        hist := hist.(marked := hist.marked + 1);
      } else {
        tasks := tasks[nextId := Task(p, Spawned)];
        ready := ready + [Begin(nextId)];
        nextId := nextId + 1;
        hist := hist.(spawned := hist.spawned + 1, covered := hist.covered[k := Newest(old(State()), k)]);
      }
    }

    /** The pass over the due entries, in whatever order the dictionary yields them. */
    method HandOverAll(all: set<Key>) returns (ghost order: seq<Key>)
      requires all <= pending.Keys
      modifies this
      ensures Poppable(old(State()), order) && State() == PopAll(old(State()), order)
      ensures forall k :: k in all <==> k in order
    {
      hide Pop, PopAll, Poppable;
      ghost var start := State();
      var due := all;
      order := [];
      PopNone(start);
      while due != {}
        invariant due <= all && Poppable(start, order) && State() == PopAll(start, order)
        invariant forall k :: k in all <==> k in due || k in order
        invariant forall k :: k in order ==> k !in due
        decreases due
      {
        var k :| k in due;
        due := due - {k};
        PopAllOneMore(start, order, k);
        HandOver(k);
        order := order + [k];
      }
    }

    /** The loop resumes: it hands over every due entry, and goes back to sleep. */
    method DrainOnce(now: real) returns (ghost order: seq<Key>)
      requires Valid() && ready != [] && ready[0] == ResumeLoop
      modifies this
      ensures Enabled(old(State()), Drain(now, order))
      ensures Valid() && State() == Next(old(State()), Drain(now, order))
    {
      hide Inv, PopAll, Poppable;
      ready, loop := ready[1..], Asleep;
      ghost var asleep := State();
      order := HandOverAll(set k | k in pending && debounce <= now - pending[k].firstSeen);
      DueListOf(old(State()), asleep, now, order);
      StepInv(old(State()), maxConcurrent, Drain(now, order));
      DirtyIsInFlight(State(), maxConcurrent);
      if pending == map[] && inflight == {} && dirty != {} {
        assert false;
      }
    }

    /** The first step of the run at the head of the queue: in flight, and at the semaphore. */
    method BeginRun()
      requires Valid() && Enabled(State(), First)
      modifies this
      ensures Valid() && State() == Next(old(State()), First)
    {
      hide Inv;
      StepInv(State(), maxConcurrent, First);
      var id := ready[0].id;
      ready := ready[1..];
      var t := tasks[id];
      inflight := inflight + {t.pending.request.key};
      if permits > 0 && forall i | i in tasks :: tasks[i].phase != Waiting {
        permits := permits - 1;
        tasks := tasks[id := t.(phase := Running)];
      } else {
        tasks := tasks[id := t.(phase := Waiting)];
      }
    }

    method Admit(id: nat)
      requires Valid() && Enabled(State(), Grant(id))
      modifies this
      ensures Valid() && State() == Next(old(State()), Grant(id))
    {
      hide Inv;
      StepInv(State(), maxConcurrent, Grant(id));
      permits := permits - 1;
      tasks := tasks[id := tasks[id].(phase := Running)];
    }

    /** The permit goes back, the outcome is counted, and the key leaves flight. */
    method Leave(id: nat, outcome: Outcome)
      requires id in tasks
      modifies this
      ensures State() == Left(old(State()), id, outcome)
    {
      var t := tasks[id];
      if t.phase == Running {
        permits := permits + 1;
      }
      match outcome {
        case Ran => stats := stats.(ran := stats.ran + 1);
        case Failed => stats := stats.(failed := stats.failed + 1);
        case Cancelled => hist := hist.(cancelled := hist.cancelled + 1);
      }
      tasks := tasks - {id};
      inflight := inflight - {t.pending.request.key};
    }

    /** A run ends, however it ends, and its key is requested again if it is dirty. */
    method EndRun(id: nat, outcome: Outcome, now: real)
      requires Valid() && Enabled(State(), End(id, outcome, now))
      modifies this
      ensures Valid() && State() == Next(old(State()), End(id, outcome, now))
    {
      hide Inv;
      StepInv(State(), maxConcurrent, End(id, outcome, now));
      var k := tasks[id].pending.request.key;
      Leave(id, outcome);
      if k in dirty {
        dirty := dirty - {k};
        Request(BusModel.Request(k, Scheduled, "follow-up pass"), now);
      }
    }
  }
}
