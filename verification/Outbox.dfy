/**
 One client of the hub in backend/app/ws/hub.py: a bounded outbox filled by the fan-out
 and emptied by a pump, as atomic steps between the pump's awaits.
 */
module Outboxes {
  const OUTBOX_LIMIT := 256

  /** Where the pump is: between messages, in a send, in a gap notice, or ended by a failed send. */
  datatype Phase = Idle | Sending(message: string) | Telling(count: nat) | Stopped(message: string)

  datatype Link = Link(outbox: seq<string>, dropped: nat, phase: Phase)

  datatype Event = Offer(message: string) | Take | SendDone | TellDone | SendFails

  predicate Enabled(l: Link, e: Event) {
    match e
    case Offer(_) => true
    case Take => l.phase.Idle? && l.outbox != []
    case SendDone => l.phase.Sending?
    case TellDone => l.phase.Telling?
    case SendFails => l.phase.Sending?
  }

  predicate Full(l: Link) {
    |l.outbox| == OUTBOX_LIMIT
  }

  function Next(l: Link, e: Event): Link
    requires Enabled(l, e)
  {
    match e
    case Offer(m) =>
      if Full(l) then l.(outbox := l.outbox[1..] + [m], dropped := l.dropped + 1)
      else l.(outbox := l.outbox + [m])
    case Take => l.(outbox := l.outbox[1..], phase := Sending(l.outbox[0]))
    case SendDone => l.(phase := if l.dropped > 0 && l.outbox == [] then Telling(l.dropped) else Idle)
    case TellDone => l.(phase := Idle, dropped := 0)
    case SendFails => l.(phase := Stopped(l.phase.message))
  }

  // ----- what happened on a link ------------------------------------------------------------

  /**
   The history of a link: the messages it wanted, the positions among them of those sent
   and of the one in hand, how many were discarded, how many discards finished notices
   announced, and how many were counted during a notice and cleared with it.
   */
  datatype Log = Log(wanted: seq<string>, sent: seq<string>, at: seq<nat>, hand: nat,
                     discarded: nat, announced: nat, forgotten: nat)

  datatype World = World(link: Link, log: Log)

  function Start(): World {
    World(Link([], 0, Idle), Log([], [], [], 0, 0, 0, 0))
  }

  function Noted(w: World, e: Event): Log
    requires Enabled(w.link, e)
  {
    var l, log := w.link, w.log;
    match e
    case Offer(m) => log.(wanted := log.wanted + [m], discarded := log.discarded + if Full(l) then 1 else 0)
    case Take => if |l.outbox| <= |log.wanted| then log.(hand := |log.wanted| - |l.outbox|) else log
    case SendDone => log.(sent := log.sent + [l.phase.message], at := log.at + [log.hand])
    case TellDone =>
      log.(announced := log.announced + l.phase.count,
           forgotten := log.forgotten + if l.dropped > l.phase.count then l.dropped - l.phase.count else 0)
    case SendFails => log
  }

  function Stepped(w: World, e: Event): World
    requires Enabled(w.link, e)
  {
    World(Next(w.link, e), Noted(w, e))
  }

  /** `run` is a possible sequence of events, in any interleaving of fan-out and pump. */
  predicate Possible(run: seq<Event>)
    decreases |run|, 0
  {
    run == [] || (Possible(run[..|run| - 1]) && Enabled(After(run[..|run| - 1]).link, run[|run| - 1]))
  }

  function After(run: seq<Event>): World
    requires Possible(run)
    decreases |run|, 1
  {
    if run == [] then Start() else Stepped(After(run[..|run| - 1]), run[|run| - 1])
  }

  // ----- the invariant ------------------------------------------------------------------------

  predicate InHand(l: Link) {
    l.phase.Sending? || l.phase.Stopped?
  }

  function Count(b: bool): nat {
    if b then 1 else 0
  }

  /** The outbox is the newest messages wanted, never more than the limit. */
  ghost predicate Newest(w: World) {
    var n, q := |w.log.wanted|, |w.link.outbox|;
    q <= OUTBOX_LIMIT && q <= n && w.link.outbox == w.log.wanted[n - q..]
  }

  /** The sent messages are wanted ones, in order. */
  ghost predicate InOrder(log: Log) {
    && |log.sent| == |log.at|
    && (forall k :: 0 <= k < |log.at| ==> log.at[k] < |log.wanted| && log.sent[k] == log.wanted[log.at[k]])
    && forall i, j :: 0 <= i < j < |log.at| ==> log.at[i] < log.at[j]
  }

  /** Everything sent came before the one in hand, and that one before the outbox. */
  ghost predicate HandBetween(w: World) {
    var tail := |w.log.wanted| - |w.link.outbox|;
    && (InHand(w.link) ==> w.log.hand < tail && w.log.wanted[w.log.hand] == w.link.phase.message)
    && forall k :: 0 <= k < |w.log.at| ==> w.log.at[k] < if InHand(w.link) then w.log.hand else tail
  }

  /** No message is lost track of. */
  ghost predicate Conserved(w: World) {
    |w.log.sent| + Count(InHand(w.link)) + |w.link.outbox| + w.log.discarded == |w.log.wanted|
  }

  /** Discards are announced, still counted, or were cleared while a notice was being sent. */
  ghost predicate Accounted(w: World) {
    && w.log.announced + w.link.dropped + w.log.forgotten == w.log.discarded
    && (w.link.phase.Telling? ==> w.link.phase.count <= w.link.dropped)
    && (w.link.phase.Idle? && w.link.outbox == [] ==> w.link.dropped == 0)
  }

  ghost predicate Inv(w: World) {
    Newest(w) && InOrder(w.log) && HandBetween(w) && Conserved(w) && Accounted(w)
  }

  lemma OfferKeeps(w: World, m: string)
    requires Inv(w)
    ensures Inv(Stepped(w, Offer(m)))
  {
    var n, q := |w.log.wanted|, |w.link.outbox|;
    if Full(w.link) {
      assert w.link.outbox[1..] == w.log.wanted[n - q + 1..];
    }
  }

  lemma TakeKeeps(w: World)
    requires Inv(w) && Enabled(w.link, Take)
    ensures Inv(Stepped(w, Take))
  {
  }

  lemma PumpKeeps(w: World, e: Event)
    requires Inv(w) && Enabled(w.link, e) && (e.SendDone? || e.TellDone? || e.SendFails?)
    ensures Inv(Stepped(w, e))
  {
  }

  lemma {:induction false} RunInv(run: seq<Event>)
    requires Possible(run)
    ensures Inv(After(run))
  {
    hide Inv, Stepped;
    if run == [] {
      StartHolds();
    } else {
      var before, e := run[..|run| - 1], run[|run| - 1];
      RunInv(before);
      match e {
        case Offer(m) => OfferKeeps(After(before), m);
        case Take => TakeKeeps(After(before));
        case _ => PumpKeeps(After(before), e);
      }
    }
  }

  lemma StartHolds()
    ensures Inv(Start())
  {
  }

  // ----- what every run promises ------------------------------------------------------------------

  /** `part` is `whole` with some elements left out. */
  ghost predicate Subsequence(part: seq<string>, whole: seq<string>) {
    exists at: seq<nat> ::
      && |at| == |part|
      && (forall k :: 0 <= k < |at| ==> at[k] < |whole| && part[k] == whole[at[k]])
      && forall i, j :: 0 <= i < j < |at| ==> at[i] < at[j]
  }

  /**
   A client is sent an in-order subsequence of what it wanted; the outbox is the newest
   part of it, at most 256 long; and every wanted message is sent, in hand, queued or
   discarded.
   */
  lemma EveryRunDelivers(run: seq<Event>)
    requires Possible(run)
    ensures var w := After(run); var q := |w.link.outbox|; var n := |w.log.wanted|;
            && Subsequence(w.log.sent, w.log.wanted)
            && q <= OUTBOX_LIMIT && q <= n && w.link.outbox == w.log.wanted[n - q..]
            && |w.log.sent| + Count(InHand(w.link)) + q + w.log.discarded == n
  {
    RunInv(run);
    var w := After(run);
    hide After, Possible;
    var at := w.log.at;
    assert |at| == |w.log.sent|;
  }

  /**
   Finished notices and the counter never claim more discards than there were, and claim
   them all exactly when none was counted during a notice. A client that has caught up
   is owed no notice.
   */
  lemma EveryRunAnnounces(run: seq<Event>)
    requires Possible(run)
    ensures var w := After(run);
            && w.log.announced + w.link.dropped <= w.log.discarded
            && (w.log.announced + w.link.dropped == w.log.discarded <==> w.log.forgotten == 0)
            && (w.link.phase.Idle? && w.link.outbox == [] ==> w.log.announced + w.log.forgotten == w.log.discarded)
  {
    RunInv(run);
  }

  /** A gap notice tells of one discard at least, and none is owed any more when it is done. */
  lemma {:induction false} NoticesTellOfGaps(run: seq<Event>)
    requires Possible(run)
    ensures var l := After(run).link; l.phase.Telling? ==> 0 < l.phase.count <= l.dropped
    ensures run != [] && run[|run| - 1].TellDone? ==> After(run).link.dropped == 0
    ensures run != [] && run[|run| - 1].SendDone? ==>
              var l := After(run).link; l.phase.Telling? <==> l.outbox == [] && l.dropped > 0
  {
    if run != [] {
      NoticesTellOfGaps(run[..|run| - 1]);
    }
  }

  /** Nothing wanted is ever discarded by a client that is never more than 256 behind. */
  lemma {:induction false} NoDiscardWithoutFull(run: seq<Event>)
    requires Possible(run)
    requires forall k :: 0 <= k < |run| && run[k].Offer? ==> Possible(run[..k]) && !Full(After(run[..k]).link)
    ensures After(run).log.discarded == 0
  {
    if run != [] {
      var before := run[..|run| - 1];
      forall k | 0 <= k < |before| && before[k].Offer? ensures Possible(before[..k]) && !Full(After(before[..k]).link) {
        assert before[..k] == run[..k] && run[k].Offer?;
      }
      NoDiscardWithoutFull(before);
    }
  }

  // ----- what a burst does ------------------------------------------------------------------------

  function Offers(ms: seq<string>): seq<Event> {
    seq(|ms|, k requires 0 <= k < |ms| => Offer(ms[k]))
  }

  function Flooded(w: World, ms: seq<string>): (r: World)
    ensures r.link.phase == w.link.phase
  {
    if ms == [] then w else Stepped(Flooded(w, ms[..|ms| - 1]), Offer(ms[|ms| - 1]))
  }

  function Excess(q: int): nat {
    if q > OUTBOX_LIMIT then q - OUTBOX_LIMIT else 0
  }

  /** A burst discards exactly what does not fit. */
  lemma {:induction false} BurstDiscards(w: World, ms: seq<string>)
    requires |w.link.outbox| <= OUTBOX_LIMIT
    ensures var excess := Excess(|w.link.outbox| + |ms|); var after := Flooded(w, ms);
            && |after.link.outbox| == |w.link.outbox| + |ms| - excess
            && after.link.dropped == w.link.dropped + excess
            && after.log.discarded == w.log.discarded + excess
            && after.link.phase == w.link.phase
            && after.log.announced == w.log.announced && after.log.forgotten == w.log.forgotten
  {
    if ms != [] {
      BurstDiscards(w, ms[..|ms| - 1]);
    }
  }

  lemma {:induction false} BurstIsRun(run: seq<Event>, ms: seq<string>)
    requires Possible(run)
    ensures Possible(run + Offers(ms)) && After(run + Offers(ms)) == Flooded(After(run), ms)
  {
    hide Stepped;
    if ms == [] {
      assert run + Offers(ms) == run;
    } else {
      var before, whole := ms[..|ms| - 1], run + Offers(ms);
      BurstIsRun(run, before);
      assert whole[..|whole| - 1] == run + Offers(before);
    }
  }

  lemma OneMore(run: seq<Event>, e: Event)
    requires Possible(run) && Enabled(After(run).link, e)
    ensures Possible(run + [e]) && After(run + [e]) == Stepped(After(run), e)
  {
  }

  /**
   Of a burst during a notice, what does not fit the outbox is never announced: the
   counter is cleared when the notice is done.
   */
  lemma NoticeForgets(run: seq<Event>, ms: seq<string>)
    requires Possible(run) && After(run).link.phase.Telling?
    ensures var longer := run + Offers(ms) + [TellDone];
            && Possible(longer)
            && After(longer).link.dropped == 0
            && After(longer).log.forgotten - After(run).log.forgotten
               == After(run).link.dropped - After(run).link.phase.count + Excess(|After(run).link.outbox| + |ms|)
  {
    hide After, Possible, Flooded, Offers;
    RunInv(run);
    BurstIsRun(run, ms);
    BurstDiscards(After(run), ms);
    OneMore(run + Offers(ms), TellDone);
  }
}
