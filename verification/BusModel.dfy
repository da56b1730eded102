/**
 The recompute scheduler of backend/app/realtime.py as a state machine. A step is
 what the event loop runs between two awaits. The ready queue is first in, first
 out: a run that a drain has spawned takes its first step before the drain loop can
 resume, and single flight rests on that.
 */
module BusModel {
  type Key = (string, string)

  datatype Trigger = Scheduled | OfficialAlert | Observation | ShelterStatus
                   | RoadStatus | FieldReport | PushIngress | OperatorRequest

  function Severity(t: Trigger): nat {
    match t
    case OfficialAlert => 5
    case PushIngress => 4
    case RoadStatus => 3
    case ShelterStatus => 3
    case FieldReport => 2
    case Observation => 2
    case OperatorRequest => 2
    case Scheduled => 1
  }

  datatype Request = Request(key: Key, trigger: Trigger, detail: string)

  datatype Pending = Pending(request: Request, triggers: set<Trigger>, count: nat, firstSeen: real)

  /** `Spawned` tasks wait for their first step, `Waiting` ones for the semaphore. */
  datatype Phase = Spawned | Waiting | Running

  datatype Task = Task(pending: Pending, phase: Phase)

  datatype Job = ResumeLoop | Begin(id: nat)

  datatype LoopState = Idle | Asleep | Queued | Stopped

  /** `newest` numbers each key's latest request; `covered` is the latest one a spawned run accounts for. */
  datatype History = History(newest: map<Key, nat>, covered: map<Key, nat>,
                             spawned: nat, marked: nat, cancelled: nat)

  datatype Stats = Stats(requested: nat, coalesced: nat, ran: nat, failed: nat)

  datatype Bus = Bus(debounce: real, pending: map<Key, Pending>, inflight: set<Key>, dirty: set<Key>,
                     permits: nat, tasks: map<nat, Task>, nextId: nat, ready: seq<Job>, loop: LoopState,
                     stats: Stats, hist: History)

  datatype Outcome = Ran | Failed | Cancelled

  datatype Event =
    | StartLoop
    | StopLoop
    | Submit(req: Request, now: real)
    | Timeout
    | Drain(now: real, order: seq<Key>)
    | First                             // the first step of the run at the head of the queue
    | Grant(id: nat)                    // the semaphore admits a waiting run
    | End(id: nat, outcome: Outcome, now: real)

  function Init(debounce: real, maxConcurrent: nat): Bus {
    Bus(debounce, map[], {}, {}, maxConcurrent, map[], 0, [], Idle, Stats(0, 0, 0, 0),
        History(map[], map[], 0, 0, 0))
  }

  function KeyOf(b: Bus, id: nat): Key
    requires id in b.tasks
  {
    b.tasks[id].pending.request.key
  }

  function Newest(b: Bus, k: Key): nat {
    if k in b.hist.newest then b.hist.newest[k] else 0
  }

  function Covered(b: Bus, k: Key): nat {
    if k in b.hist.covered then b.hist.covered[k] else 0
  }

  // ----- the steps ---------------------------------------------------------------------

  function Merge(p: Pending, req: Request): Pending {
    Pending(if Severity(p.request.trigger) < Severity(req.trigger) then req else p.request,
            p.triggers + {req.trigger}, p.count + 1, p.firstSeen)
  }

  function Fresh(req: Request, now: real): Pending {
    Pending(req, {req.trigger}, 1, now)
  }

  /** Setting `_wake` queues the loop if it sleeps. */
  function Wake(b: Bus): Bus {
    if b.loop == Asleep then b.(loop := Queued, ready := b.ready + [ResumeLoop]) else b
  }

  /** The request merges into the pending entry of its key, or opens one. */
  function Entered(b: Bus, req: Request, now: real): Bus {
    var known := req.key in b.pending;
    var p := if known then Merge(b.pending[req.key], req) else Fresh(req, now);
    b.(pending := b.pending[req.key := p],
       stats := b.stats.(requested := b.stats.requested + 1,
                         coalesced := b.stats.coalesced + if known then 1 else 0),
       hist := b.hist.(newest := b.hist.newest[req.key := b.stats.requested + 1]))
  }

  function Submitted(b: Bus, req: Request, now: real): Bus {
    Wake(Entered(b, req, now))
  }

  predicate Due(b: Bus, k: Key, now: real) {
    k in b.pending && b.debounce <= now - b.pending[k].firstSeen
  }

  /** One turn of the loop over the due entries: hand `k` over to a run, or mark it dirty. */
  function Pop(b: Bus, k: Key): Bus
    requires k in b.pending
  {
    var rest := b.(pending := b.pending - {k});
    if k in b.inflight then
      rest.(dirty := b.dirty + {k}, hist := b.hist.(marked := b.hist.marked + 1))
    else
      rest.(tasks := b.tasks[b.nextId := Task(b.pending[k], Spawned)], nextId := b.nextId + 1,
            ready := b.ready + [Begin(b.nextId)],
            hist := b.hist.(spawned := b.hist.spawned + 1, covered := b.hist.covered[k := Newest(b, k)]))
  }

  /** Every key of `order` is pending and none comes twice. */
  predicate Poppable(b: Bus, order: seq<Key>) {
    && (forall i :: 0 <= i < |order| ==> order[i] in b.pending)
    && (forall i, j :: 0 <= i < j < |order| ==> order[i] != order[j])
  }

  function PopAll(b: Bus, order: seq<Key>): (b': Bus)
    requires Poppable(b, order)
    ensures forall k :: k in b'.pending <==> k in b.pending && k !in order
    ensures forall k :: k in b'.pending ==> b'.pending[k] == b.pending[k]
    decreases |order|
  {
    if order == [] then b
    else Pop(PopAll(b, order[..|order| - 1]), order[|order| - 1])
  }

  /** `order` lists the due keys, in whatever order the dictionary yields them. */
  predicate IsDueList(b: Bus, now: real, order: seq<Key>) {
    && Poppable(b, order)
    && (forall k :: k in b.pending ==> (k in order <==> Due(b, k, now)))
  }

  function Drained(b: Bus, order: seq<Key>): Bus
    requires Poppable(b, order) && b.ready != []
  {
    PopAll(b.(loop := Asleep, ready := b.ready[1..]), order)
  }

  function Begun(b: Bus, id: nat): Bus
    requires id in b.tasks && b.ready != []
  {
    var admitted := b.permits > 0 && forall i :: i in b.tasks ==> b.tasks[i].phase != Waiting;
    b.(ready := b.ready[1..], inflight := b.inflight + {KeyOf(b, id)},
       tasks := b.tasks[id := b.tasks[id].(phase := if admitted then Running else Waiting)],
       permits := if admitted then b.permits - 1 else b.permits)
  }

  function Granted(b: Bus, id: nat): Bus
    requires id in b.tasks && b.permits > 0
  {
    b.(tasks := b.tasks[id := b.tasks[id].(phase := Running)], permits := b.permits - 1)
  }

  /** Release of the permit, the counters, and `inflight.discard`; the task is gone. */
  function Left(b: Bus, id: nat, outcome: Outcome): Bus
    requires id in b.tasks
  {
    b.(permits := if b.tasks[id].phase == Running then b.permits + 1 else b.permits,
       inflight := b.inflight - {KeyOf(b, id)}, tasks := b.tasks - {id},
       stats := b.stats.(ran := b.stats.ran + (if outcome == Ran then 1 else 0),
                         failed := b.stats.failed + if outcome == Failed then 1 else 0),
       hist := b.hist.(cancelled := b.hist.cancelled + if outcome == Cancelled then 1 else 0))
  }

  /** The `finally` clause: a dirty key is requested again. */
  function FollowUp(b: Bus, k: Key, now: real): Bus {
    if k in b.dirty
    then Submitted(b.(dirty := b.dirty - {k}), Request(k, Scheduled, "follow-up pass"), now)
    else b
  }

  predicate Enabled(b: Bus, e: Event) {
    match e
    case StartLoop => b.loop == Idle
    case StopLoop => b.loop == Asleep || (b.loop == Queued && b.ready != [])
    case Submit(_, _) => true
    case Timeout => b.loop == Asleep
    case Drain(now, order) => b.ready != [] && b.ready[0] == ResumeLoop && IsDueList(b, now, order)
    case First => b.ready != [] && b.ready[0].Begin? && b.ready[0].id in b.tasks
    case Grant(id) => id in b.tasks && b.tasks[id].phase == Waiting && b.permits > 0
    case End(id, outcome, _) =>
      id in b.tasks && (b.tasks[id].phase == Running || (b.tasks[id].phase == Waiting && outcome == Cancelled))
  }

  function Next(b: Bus, e: Event): Bus
    requires Enabled(b, e)
  {
    match e
    case StartLoop => b.(loop := Queued, ready := b.ready + [ResumeLoop])
    case StopLoop => b.(loop := Stopped, ready := if b.loop == Queued then b.ready[..|b.ready| - 1] else b.ready)
    case Submit(req, now) => Submitted(b, req, now)
    case Timeout => Wake(b)
    case Drain(_, order) => Drained(b, order)
    case First => Begun(b, b.ready[0].id)
    case Grant(id) => Granted(b, id)
    case End(id, outcome, now) => FollowUp(Left(b, id, outcome), KeyOf(b, id), now)
  }

  // ----- the invariant -------------------------------------------------------------------

  /** The loop, if queued, is behind every run it has spawned. */
  ghost predicate QueueOk(b: Bus) {
    && (b.loop == Queued <==> ResumeLoop in b.ready)
    && (forall i :: 0 <= i < |b.ready| - 1 ==> b.ready[i] != ResumeLoop)
    && (forall i, j :: 0 <= i < j < |b.ready| ==> b.ready[i] != b.ready[j])
    && (forall id :: id in b.tasks ==> id < b.nextId)
    && (forall id :: Begin(id) in b.ready <==> id in b.tasks && b.tasks[id].phase == Spawned)
  }

  ghost predicate FlightOk(b: Bus) {
    && (forall i, j :: i in b.tasks && j in b.tasks && i != j ==> KeyOf(b, i) != KeyOf(b, j))
    && (forall i :: i in b.tasks ==> (KeyOf(b, i) in b.inflight <==> b.tasks[i].phase != Spawned))
    && (forall k :: k in b.inflight ==> exists i :: i in b.tasks && KeyOf(b, i) == k)
    && b.dirty <= b.inflight
  }

  function Runners(b: Bus): set<nat> {
    set i | i in b.tasks && b.tasks[i].phase == Running
  }

  ghost predicate PermitsOk(b: Bus, maxConcurrent: nat) {
    b.permits + |Runners(b)| == maxConcurrent
  }

  ghost predicate EntryOk(k: Key, p: Pending) {
    && p.request.key == k && p.request.trigger in p.triggers && 1 <= p.count
    && forall t :: t in p.triggers ==> Severity(t) <= Severity(p.request.trigger)
  }

  ghost predicate PendingOk(b: Bus) {
    forall k :: k in b.pending ==> EntryOk(k, b.pending[k])
  }

  ghost predicate NothingLost(b: Bus) {
    && (forall k :: Newest(b, k) <= b.stats.requested)
    && (forall k :: Covered(b, k) < Newest(b, k) ==> k in b.pending || k in b.dirty)
  }

  ghost predicate CountsOk(b: Bus) {
    && b.stats.requested == b.stats.coalesced + |b.pending| + b.hist.spawned + b.hist.marked
    && b.hist.spawned == b.stats.ran + b.stats.failed + b.hist.cancelled + |b.tasks|
  }

  ghost predicate Inv(b: Bus, maxConcurrent: nat) {
    && QueueOk(b) && FlightOk(b) && PermitsOk(b, maxConcurrent)
    && PendingOk(b) && NothingLost(b) && CountsOk(b)
  }

  lemma InitInv(debounce: real, maxConcurrent: nat)
    ensures Inv(Init(debounce, maxConcurrent), maxConcurrent)
  {
  }

  // ----- what a step leaves alone ------------------------------------------------------------

  lemma FlightFrame(b: Bus, b': Bus)
    requires FlightOk(b) && b'.tasks == b.tasks && b'.inflight == b.inflight && b'.dirty <= b'.inflight
    ensures FlightOk(b')
  {
  }

  lemma PermitsFrame(b: Bus, b': Bus, m: nat)
    requires PermitsOk(b, m) && b'.tasks == b.tasks && b'.permits == b.permits
    ensures PermitsOk(b', m)
  {
  }

  lemma QueueFrame(b: Bus, b': Bus)
    requires QueueOk(b) && b'.tasks == b.tasks && b'.nextId == b.nextId
    requires b'.ready == b.ready && b'.loop == b.loop
    ensures QueueOk(b')
  {
  }

  // ----- submitting ------------------------------------------------------------------------

  /** The invariant, but for requests under `k` that may have gone missing. */
  ghost predicate InvBut(b: Bus, m: nat, k: Key) {
    && QueueOk(b) && FlightOk(b) && PermitsOk(b, m)
    && PendingOk(b) && NothingLostBut(b, k) && CountsOk(b)
  }

  ghost predicate NothingLostBut(b: Bus, k: Key) {
    && (forall k' :: Newest(b, k') <= b.stats.requested)
    && (forall k' :: k' != k && Covered(b, k') < Newest(b, k') ==> k' in b.pending || k' in b.dirty)
  }

  /** Asking again makes good whatever was missing under the key. */
  lemma SubmittedInv(b: Bus, m: nat, req: Request, now: real)
    requires InvBut(b, m, req.key)
    ensures Inv(Submitted(b, req, now), m)
  {
    hide QueueOk, FlightOk, PermitsOk, PendingOk, NothingLost, NothingLostBut, CountsOk;
    var b' := Submitted(b, req, now);
    WakeQueue(b);
    QueueFrame(Wake(b), b');
    DirtyFits(b);
    FlightFrame(b, b');
    PermitsFrame(b, b', m);
    SubmittedPending(b, req, now);
    SubmittedLosesNothing(b, req, now);
    SubmittedCounts(b, req, now);
  }

  lemma DirtyFits(b: Bus)
    requires FlightOk(b)
    ensures b.dirty <= b.inflight
  {
  }

  /** A merge keeps the headline as severe as every trigger merged so far. */
  lemma SubmittedPending(b: Bus, req: Request, now: real)
    requires PendingOk(b)
    ensures PendingOk(Submitted(b, req, now))
  {
  }

  lemma SubmittedLosesNothing(b: Bus, req: Request, now: real)
    requires NothingLostBut(b, req.key)
    ensures NothingLost(Submitted(b, req, now))
  {
    var b' := Submitted(b, req, now);
    forall k ensures Covered(b', k) == Covered(b, k) && (k != req.key ==> Newest(b', k) == Newest(b, k)) {
    }
  }

  lemma SubmittedCounts(b: Bus, req: Request, now: real)
    requires CountsOk(b)
    ensures CountsOk(Submitted(b, req, now))
  {
  }

  lemma WakeQueue(b: Bus)
    requires QueueOk(b)
    ensures QueueOk(Wake(b))
  {
    var b' := Wake(b);
    if b.loop == Asleep {
      assert forall i :: 0 <= i < |b.ready| ==> b'.ready[i] == b.ready[i];
      forall id ensures Begin(id) in b'.ready <==> Begin(id) in b.ready {
      }
      assert b'.ready[|b.ready|] == ResumeLoop;
    }
  }

  // ----- draining ----------------------------------------------------------------------------

  /** When the loop resumes, every run it has ever spawned has taken its first step. */
  lemma NoneUnstarted(b: Bus)
    requires QueueOk(b) && b.ready != [] && b.ready[0] == ResumeLoop
    ensures b.ready == [ResumeLoop]
    ensures forall id :: id in b.tasks ==> b.tasks[id].phase != Spawned
  {
  }

  /** Halfway through a drain: what the loop has spawned waits its turn, under keys not in flight. */
  ghost predicate Draining(b: Bus, m: nat) {
    Inv(b, m) && b.loop == Asleep && Apart(b)
  }

  /** No run that has yet to start has its key pending. */
  ghost predicate Apart(b: Bus) {
    forall i :: i in b.tasks && b.tasks[i].phase == Spawned ==> KeyOf(b, i) !in b.pending
  }

  lemma PopApart(b: Bus, k: Key)
    requires Apart(b) && PendingOk(b) && k in b.pending
    ensures Apart(Pop(b, k))
  {
  }

  lemma DrainStarts(b: Bus, m: nat)
    requires Inv(b, m) && b.ready != [] && b.ready[0] == ResumeLoop
    ensures Draining(b.(loop := Asleep, ready := b.ready[1..]), m)
  {
    hide QueueOk, FlightOk, PermitsOk, PendingOk, NothingLost, NothingLostBut, CountsOk, Apart;
    var b' := b.(loop := Asleep, ready := b.ready[1..]);
    DrainQueue(b);
    DirtyFits(b);
    FlightFrame(b, b');
    PermitsFrame(b, b', m);
    StartKeepsRest(b, b');
  }

  lemma DrainQueue(b: Bus)
    requires QueueOk(b) && b.ready != [] && b.ready[0] == ResumeLoop
    ensures QueueOk(b.(loop := Asleep, ready := b.ready[1..])) && Apart(b.(loop := Asleep, ready := b.ready[1..]))
  {
    NoneUnstarted(b);
  }

  lemma PopMarks(b: Bus, m: nat, k: Key)
    requires Draining(b, m) && k in b.pending && k in b.inflight
    ensures Draining(Pop(b, k), m)
  {
    MarkDirty(b, k);
    hide QueueOk, FlightOk, PermitsOk, PendingOk, NothingLost, NothingLostBut, CountsOk, Apart;
    MarkFlight(b, k);
    PopPermits(b, m, k);
    PopCounts(b, k);
    PopLosesNothing(b, k);
    PopPending(b, k);
    PopApart(b, k);
  }

  lemma MarkDirty(b: Bus, k: Key)
    requires QueueOk(b) && k in b.pending && k in b.inflight
    ensures QueueOk(Pop(b, k)) && b.nextId !in b.tasks
  {
  }

  lemma MarkFlight(b: Bus, k: Key)
    requires FlightOk(b) && k in b.pending && k in b.inflight
    ensures FlightOk(Pop(b, k))
  {
    FlightFrame(b, Pop(b, k));
  }

  lemma PopPermits(b: Bus, m: nat, k: Key)
    requires PermitsOk(b, m) && k in b.pending && b.nextId !in b.tasks
    ensures PermitsOk(Pop(b, k), m)
  {
    assert Runners(Pop(b, k)) == Runners(b);
  }

  lemma PopPending(b: Bus, k: Key)
    requires PendingOk(b) && k in b.pending
    ensures PendingOk(Pop(b, k))
  {
  }

  /** What is popped is either accounted for by the run it spawns, or still marked dirty. */
  lemma PopLosesNothing(b: Bus, k: Key)
    requires NothingLost(b) && k in b.pending
    ensures NothingLost(Pop(b, k))
  {
    var b' := Pop(b, k);
    forall k'
      ensures Newest(b', k') == Newest(b, k')
      ensures Covered(b', k') == if k' == k && k !in b.inflight then Newest(b, k) else Covered(b, k')
    {
    }
    forall k' | Covered(b', k') < Newest(b', k') ensures k' in b'.pending || k' in b'.dirty {
      assert Covered(b, k') < Newest(b, k');
    }
  }

  lemma PopCounts(b: Bus, k: Key)
    requires CountsOk(b) && k in b.pending && b.nextId !in b.tasks
    ensures CountsOk(Pop(b, k))
  {
  }

  lemma PopSpawns(b: Bus, m: nat, k: Key)
    requires Draining(b, m) && k in b.pending && k !in b.inflight
    ensures Draining(Pop(b, k), m)
  {
    var b' := Pop(b, k);
    SpawnQueue(b, k);
    SpawnFlight(b, k);
    PopPermits(b, m, k);
    PopCounts(b, k);
    PopLosesNothing(b, k);
    PopPending(b, k);
    PopApart(b, k);
  }

  lemma SpawnQueue(b: Bus, k: Key)
    requires QueueOk(b) && b.loop == Asleep && k in b.pending && k !in b.inflight
    ensures QueueOk(Pop(b, k))
  {
  }

  /** The key handed over is not in flight and, by the queue order, not about to be. */
  lemma SpawnFlight(b: Bus, k: Key)
    requires QueueOk(b) && FlightOk(b) && PendingOk(b) && k in b.pending && k !in b.inflight
    requires Apart(b)
    ensures FlightOk(Pop(b, k))
  {
    var b' := Pop(b, k);
    assert EntryOk(k, b.pending[k]);
    assert KeyOf(b', b.nextId) == k;
    forall i | i in b.tasks ensures KeyOf(b', i) == KeyOf(b, i) && KeyOf(b, i) != k {
    }
    forall k' | k' in b'.inflight ensures exists i :: i in b'.tasks && KeyOf(b', i) == k' {
      var i :| i in b.tasks && KeyOf(b, i) == k';
      assert KeyOf(b', i) == k';
    }
  }

  lemma DueListOf(b: Bus, b': Bus, now: real, order: seq<Key>)
    requires b'.pending == b.pending && Poppable(b', order) && forall k :: k in order <==> Due(b, k, now)
    ensures IsDueList(b, now, order)
  {
  }

  lemma PopNone(b: Bus)
    ensures Poppable(b, []) && PopAll(b, []) == b
  {
  }

  lemma PopAllOneMore(b: Bus, order: seq<Key>, k: Key)
    requires Poppable(b, order) && k in b.pending && k !in order
    ensures Poppable(b, order + [k]) && PopAll(b, order + [k]) == Pop(PopAll(b, order), k)
  {
    hide Pop;
    assert (order + [k])[..|order|] == order;
  }

  lemma {:induction false} PopAllDrains(b: Bus, m: nat, order: seq<Key>)
    requires Draining(b, m) && Poppable(b, order)
    ensures Draining(PopAll(b, order), m)
    decreases |order|
  {
    if order != [] {
      var init, k := order[..|order| - 1], order[|order| - 1];
      PopAllDrains(b, m, init);
      if k in PopAll(b, init).inflight {
        PopMarks(PopAll(b, init), m, k);
      } else {
        PopSpawns(PopAll(b, init), m, k);
      }
    }
  }

  lemma DrainedInv(b: Bus, m: nat, order: seq<Key>)
    requires Inv(b, m) && b.ready != [] && b.ready[0] == ResumeLoop && Poppable(b, order)
    ensures Inv(Drained(b, order), m)
  {
    DrainStarts(b, m);
    PopAllDrains(b.(loop := Asleep, ready := b.ready[1..]), m, order);
  }

  // ----- starting, admitting and ending a run --------------------------------------------------

  /** Only the phase of `id` differs between the two buses. */
  ghost predicate Rephased(b: Bus, b': Bus, id: nat) {
    && id in b.tasks && b'.tasks.Keys == b.tasks.Keys && b'.nextId == b.nextId
    && (forall i :: i in b.tasks ==> b'.tasks[i].pending == b.tasks[i].pending)
    && (forall i :: i in b.tasks && i != id ==> b'.tasks[i].phase == b.tasks[i].phase)
  }

  lemma BegunReady(b: Bus, id: nat)
    requires QueueOk(b) && b.ready != [] && b.ready[0] == Begin(id) && id in b.tasks
    ensures QueueOk(Begun(b, id))
  {
  }

  lemma BegunFlight(b: Bus, id: nat)
    requires FlightOk(b) && id in b.tasks && b.ready != []
    ensures FlightOk(Begun(b, id))
  {
    RephasedFlight(b, Begun(b, id), id);
  }

  lemma RephasedFlight(b: Bus, b': Bus, id: nat)
    requires FlightOk(b) && Rephased(b, b', id) && b'.tasks[id].phase != Spawned
    requires b'.inflight == b.inflight + {KeyOf(b, id)} && b'.dirty == b.dirty
    ensures FlightOk(b')
  {
    assert forall i :: i in b.tasks ==> KeyOf(b', i) == KeyOf(b, i);
    forall k | k in b'.inflight ensures exists i :: i in b'.tasks && KeyOf(b', i) == k {
      if k == KeyOf(b, id) {
        assert KeyOf(b', id) == k;
      } else {
        var i :| i in b.tasks && KeyOf(b, i) == k;
        assert KeyOf(b', i) == k;
      }
    }
  }

  /** A permit leaves the semaphore exactly when a runner starts. */
  lemma AdmittedPermits(b: Bus, b': Bus, m: nat, id: nat)
    requires PermitsOk(b, m) && Rephased(b, b', id) && b.tasks[id].phase != Running
    requires if b'.tasks[id].phase == Running then b.permits == b'.permits + 1 else b.permits == b'.permits
    ensures PermitsOk(b', m)
  {
    if b'.tasks[id].phase == Running {
      assert Runners(b') == Runners(b) + {id};
    } else {
      assert Runners(b') == Runners(b);
    }
  }

  lemma StartKeepsRest(b: Bus, b': Bus)
    requires PendingOk(b) && NothingLost(b) && CountsOk(b)
    requires b'.pending == b.pending && b'.hist == b.hist && b'.stats == b.stats && b'.dirty == b.dirty
    requires b'.tasks.Keys == b.tasks.Keys
    ensures PendingOk(b') && NothingLost(b') && CountsOk(b')
  {
    assert |b'.tasks| == |b'.tasks.Keys| && |b.tasks| == |b.tasks.Keys|;
    assert forall k :: Newest(b', k) == Newest(b, k) && Covered(b', k) == Covered(b, k);
  }

  lemma BegunQueue(b: Bus, id: nat)
    requires QueueOk(b) && b.ready != [] && b.ready[0] == Begin(id) && id in b.tasks
    ensures QueueOk(Begun(b, id)) && b.tasks[id].phase == Spawned
  {
    assert Begin(id) in b.ready;
    BegunReady(b, id);
  }

  lemma BegunInv(b: Bus, m: nat)
    requires Inv(b, m) && Enabled(b, First)
    ensures Inv(Next(b, First), m)
  {
    hide QueueOk, FlightOk, PermitsOk, PendingOk, NothingLost, NothingLostBut, CountsOk;
    var id := b.ready[0].id;
    BegunQueue(b, id);
    BegunFlight(b, id);
    AdmittedPermits(b, Begun(b, id), m, id);
    StartKeepsRest(b, Begun(b, id));
  }

  lemma GrantedQueue(b: Bus, id: nat)
    requires QueueOk(b) && id in b.tasks && b.tasks[id].phase == Waiting && b.permits > 0
    ensures QueueOk(Granted(b, id))
  {
  }

  lemma GrantedFlight(b: Bus, id: nat)
    requires FlightOk(b) && id in b.tasks && b.tasks[id].phase == Waiting && b.permits > 0
    ensures FlightOk(Granted(b, id))
  {
    RephasedFlight(b, Granted(b, id), id);
  }

  lemma GrantedInv(b: Bus, m: nat, id: nat)
    requires Inv(b, m) && Enabled(b, Grant(id))
    ensures Inv(Next(b, Grant(id)), m)
  {
    hide QueueOk, FlightOk, PermitsOk, PendingOk, NothingLost, NothingLostBut, CountsOk;
    GrantedQueue(b, id);
    GrantedFlight(b, id);
    AdmittedPermits(b, Granted(b, id), m, id);
    StartKeepsRest(b, Granted(b, id));
  }

  /** The run is gone and its key no longer dirty; the follow-up request is still to come. */
  function Vacated(b: Bus, id: nat, outcome: Outcome): Bus
    requires id in b.tasks
  {
    Left(b, id, outcome).(dirty := b.dirty - {KeyOf(b, id)})
  }

  lemma VacatedFlight(b: Bus, id: nat, outcome: Outcome)
    requires FlightOk(b) && id in b.tasks
    ensures FlightOk(Vacated(b, id, outcome))
  {
    var b' := Vacated(b, id, outcome);
    assert forall i :: i in b'.tasks ==> i in b.tasks && KeyOf(b', i) == KeyOf(b, i);
    forall k | k in b'.inflight ensures exists i :: i in b'.tasks && KeyOf(b', i) == k {
      var i :| i in b.tasks && KeyOf(b, i) == k;
      assert KeyOf(b', i) == k;
    }
  }

  lemma VacatedPermits(b: Bus, m: nat, id: nat, outcome: Outcome)
    requires PermitsOk(b, m) && id in b.tasks
    ensures PermitsOk(Vacated(b, id, outcome), m)
  {
    var b' := Vacated(b, id, outcome);
    assert Runners(b') == Runners(b) - {id};
  }

  lemma VacatedCounts(b: Bus, id: nat, outcome: Outcome)
    requires CountsOk(b) && id in b.tasks
    ensures CountsOk(Vacated(b, id, outcome))
  {
  }

  lemma VacatedLosesNothing(b: Bus, id: nat, outcome: Outcome)
    requires NothingLost(b) && id in b.tasks
    ensures NothingLostBut(Vacated(b, id, outcome), KeyOf(b, id))
    ensures KeyOf(b, id) !in b.dirty ==> NothingLost(Vacated(b, id, outcome))
  {
    var b' := Vacated(b, id, outcome);
    assert forall k :: Newest(b', k) == Newest(b, k) && Covered(b', k) == Covered(b, k);
  }

  lemma VacatedQueue(b: Bus, id: nat, outcome: Outcome)
    requires QueueOk(b) && PendingOk(b) && id in b.tasks && b.tasks[id].phase != Spawned
    ensures QueueOk(Vacated(b, id, outcome)) && PendingOk(Vacated(b, id, outcome))
  {
  }

  lemma EndInv(b: Bus, m: nat, id: nat, outcome: Outcome, now: real)
    requires Inv(b, m) && Enabled(b, End(id, outcome, now))
    ensures Inv(Next(b, End(id, outcome, now)), m)
  {
    hide QueueOk, FlightOk, PermitsOk, PendingOk, NothingLost, NothingLostBut, CountsOk;
    var k := KeyOf(b, id);
    VacatedQueue(b, id, outcome);
    VacatedFlight(b, id, outcome);
    VacatedPermits(b, m, id, outcome);
    VacatedCounts(b, id, outcome);
    VacatedLosesNothing(b, id, outcome);
    if k in b.dirty {
      SubmittedInv(Vacated(b, id, outcome), m, Request(k, Scheduled, "follow-up pass"), now);
    } else {
      assert Vacated(b, id, outcome) == Left(b, id, outcome);
    }
  }

  // ----- every step, every run -------------------------------------------------------------------

  lemma StoppedQueue(b: Bus)
    requires QueueOk(b) && Enabled(b, StopLoop)
    ensures QueueOk(Next(b, StopLoop))
  {
  }

  lemma LoopStepInv(b: Bus, m: nat, e: Event)
    requires Inv(b, m) && Enabled(b, e) && (e.StartLoop? || e.StopLoop? || e.Timeout?)
    ensures Inv(Next(b, e), m)
  {
    var b' := Next(b, e);
    if e.Timeout? {
      WakeQueue(b);
    } else if e.StartLoop? {
      WakeQueue(b.(loop := Asleep));
      assert Wake(b.(loop := Asleep)) == b';
    } else {
      StoppedQueue(b);
    }
    FlightFrame(b, b');
    PermitsFrame(b, b', m);
    StartKeepsRest(b, b');
  }

  lemma StepInv(b: Bus, m: nat, e: Event)
    requires Inv(b, m) && Enabled(b, e)
    ensures Inv(Next(b, e), m)
  {
    match e
    case StartLoop => LoopStepInv(b, m, e);
    case StopLoop => LoopStepInv(b, m, e);
    case Timeout => LoopStepInv(b, m, e);
    case Submit(req, now) => SubmittedInv(b, m, req, now);
    case Drain(_, order) => DrainedInv(b, m, order);
    case First => BegunInv(b, m);
    case Grant(id) => GrantedInv(b, m, id);
    case End(id, outcome, now) => EndInv(b, m, id, outcome, now);
  }

  /** The drain of dirty keys at the end of the loop body has nothing to do. */
  lemma DirtyIsInFlight(b: Bus, m: nat)
    requires Inv(b, m)
    ensures b.dirty <= b.inflight
  {
  }

  ghost predicate Legal(b: Bus, es: seq<Event>)
    decreases |es|
  {
    es == [] || (Enabled(b, es[0]) && Legal(Next(b, es[0]), es[1..]))
  }

  ghost function Run(b: Bus, es: seq<Event>): Bus
    requires Legal(b, es)
    decreases |es|
  {
    if es == [] then b else Run(Next(b, es[0]), es[1..])
  }

  lemma {:induction false} RunInv(b: Bus, m: nat, es: seq<Event>)
    requires Inv(b, m) && Legal(b, es)
    ensures Inv(Run(b, es), m)
    decreases |es|
  {
    if es != [] {
      StepInv(b, m, es[0]);
      RunInv(Next(b, es[0]), m, es[1..]);
    }
  }

  /**
   In every reachable state: one run per key; at most `maxConcurrent` runners; dirty keys
   are in flight, so the drain of dirty keys at the end of the loop never fires; and a
   request newer than its key's last spawned run is pending or dirty.
   */
  lemma EveryRunIsSafe(debounce: real, maxConcurrent: nat, es: seq<Event>)
    requires Legal(Init(debounce, maxConcurrent), es)
    ensures var b := Run(Init(debounce, maxConcurrent), es);
            && (forall i, j :: i in b.tasks && j in b.tasks && i != j ==> KeyOf(b, i) != KeyOf(b, j))
            && |Runners(b)| <= maxConcurrent
            && b.dirty <= b.inflight
            && !(b.pending == map[] && b.inflight == {} && b.dirty != {})
            && (forall k :: Covered(b, k) < Newest(b, k) ==> k in b.pending || k in b.dirty)
            && (forall k :: k in b.pending ==> EntryOk(k, b.pending[k]))
            && b.stats.requested == b.stats.coalesced + |b.pending| + b.hist.spawned + b.hist.marked
            && b.hist.spawned == b.stats.ran + b.stats.failed + b.hist.cancelled + |b.tasks|
  {
    InitInv(debounce, maxConcurrent);
    RunInv(Init(debounce, maxConcurrent), maxConcurrent, es);
  }

  // ----- a burst cannot postpone its own drain ----------------------------------------------------

  lemma NoDrainKeepsEntry(b: Bus, e: Event, k: Key)
    requires Enabled(b, e) && !e.Drain? && k in b.pending
    ensures k in Next(b, e).pending && Next(b, e).pending[k].firstSeen == b.pending[k].firstSeen
    ensures b.pending[k].triggers <= Next(b, e).pending[k].triggers
    ensures Severity(b.pending[k].request.trigger) <= Severity(Next(b, e).pending[k].request.trigger)
    ensures Next(b, e).debounce == b.debounce
  {
  }

  /** Every key a drain pops ends up dirty or as a run of its own. */
  lemma {:induction false} PopAllHandsOver(b: Bus, m: nat, order: seq<Key>, k: Key)
    requires Draining(b, m) && Poppable(b, order) && k in order
    ensures HandedOver(PopAll(b, order), k)
    decreases |order|
  {
    var init, last := order[..|order| - 1], order[|order| - 1];
    PopAllDrains(b, m, init);
    if k == last {
      PopHandsOver(PopAll(b, init), k);
    } else {
      PopAllHandsOver(b, m, init, k);
      PopKeepsHandedOver(PopAll(b, init), last, k);
    }
  }

  ghost predicate HandedOver(b: Bus, k: Key) {
    k in b.dirty || exists id :: id in b.tasks && KeyOf(b, id) == k
  }

  lemma PopHandsOver(b: Bus, k: Key)
    requires PendingOk(b) && k in b.pending
    ensures HandedOver(Pop(b, k), k)
  {
    assert EntryOk(k, b.pending[k]);
    if k !in b.inflight {
      assert KeyOf(Pop(b, k), b.nextId) == k;
    }
  }

  lemma PopKeepsHandedOver(b: Bus, last: Key, k: Key)
    requires QueueOk(b) && last in b.pending && HandedOver(b, k)
    ensures HandedOver(Pop(b, last), k)
  {
    if k !in b.dirty {
      var id :| id in b.tasks && KeyOf(b, id) == k;
      assert id in Pop(b, last).tasks && KeyOf(Pop(b, last), id) == k;
    }
  }

  lemma DueIsHandedOver(b: Bus, m: nat, k: Key, now: real, order: seq<Key>)
    requires Inv(b, m) && Enabled(b, Drain(now, order)) && Due(b, k, now)
    ensures k !in Next(b, Drain(now, order)).pending && HandedOver(Next(b, Drain(now, order)), k)
  {
    DrainStarts(b, m);
    PopAllHandsOver(b.(loop := Asleep, ready := b.ready[1..]), m, order, k);
  }

  /**
   However many requests arrive before the loop runs again, an entry keeps the time it was
   first seen; the first drain after its window has passed hands it over.
   */
  lemma {:induction false} BurstNeverPostpones(b: Bus, m: nat, es: seq<Event>, k: Key, now: real, order: seq<Key>)
    requires Inv(b, m) && Legal(b, es) && k in b.pending
    requires forall i :: 0 <= i < |es| ==> !es[i].Drain?
    requires Enabled(Run(b, es), Drain(now, order)) && b.debounce <= now - b.pending[k].firstSeen
    ensures var before, after := Run(b, es), Next(Run(b, es), Drain(now, order));
            && k in before.pending && before.pending[k].firstSeen == b.pending[k].firstSeen
            && k !in after.pending && HandedOver(after, k)
    decreases |es|
  {
    if es == [] {
      DueIsHandedOver(b, m, k, now, order);
    } else {
      hide Inv, IsDueList, HandedOver;
      NoDrainKeepsEntry(b, es[0], k);
      StepInv(b, m, es[0]);
      BurstNeverPostpones(Next(b, es[0]), m, es[1..], k, now, order);
    }
  }
}
