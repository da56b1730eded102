/**
 The sliding-window limiter of backend/app/core/hardening.py: what one check does, and
 how many requests any run of checks lets through.
 */
module Limiters {
  // ----- limits ---------------------------------------------------------------------------

  datatype Limit = Limit(requests: nat, window: nat)

  /** Unknown buckets take the default limit. */
  function LimitOf(bucket: string): (limit: Limit)
    ensures limit.requests > 0 && 0 < limit.window <= SWEEP_GAP
  {
    if bucket == "public_read" then Limit(300, 60)
    else if bucket == "auth" then Limit(10, 300)
    else if bucket == "operator_write" then Limit(60, 60)
    else if bucket == "citizen_report" then Limit(5, 300)
    else if bucket == "push_ingress" then Limit(600, 60)
    else Limit(120, 60)
  }

  /** Seconds that must have passed since the last sweep before a check sweeps again. */
  const SWEEP_GAP := 300

  datatype Key = Key(client: string, bucket: string)

  function Window(key: Key): real {
    LimitOf(key.bucket).window as real
  }

  // ----- one check ------------------------------------------------------------------------

  datatype Verdict =
    | Accepted(remaining: int, window: nat)
    | Refused(retryAfter: int)

  datatype State = State(hits: map<Key, seq<real>>, lastSweep: real)

  /** The times of `key` still on record. */
  function HitsOf(s: State, key: Key): seq<real> {
    if key in s.hits then s.hits[key] else []
  }

  /** Without the leading times before `cutoff`. */
  function Pruned(times: seq<real>, cutoff: real): seq<real> {
    if times != [] && times[0] < cutoff then Pruned(times[1..], cutoff) else times
  }

  /** Every entry pruned to its own window, entries left empty dropped. */
  function Swept(hits: map<Key, seq<real>>, now: real): map<Key, seq<real>> {
    map key | key in hits && Pruned(hits[key], now - Window(key)) != [] :: Pruned(hits[key], now - Window(key))
  }

  predicate SweepDue(s: State, now: real) {
    now - s.lastSweep > SWEEP_GAP as real
  }

  /** The entry of the caller is pruned first, then perhaps every entry. */
  function Tidied(s: State, key: Key, now: real): State {
    var hits := s.hits[key := Pruned(HitsOf(s, key), now - Window(key))];
    if SweepDue(s, now) then State(Swept(hits, now), now) else State(hits, s.lastSweep)
  }

  /** A sweep that drops the caller's entry leaves the accepted request without a record. */
  function Step(s: State, key: Key, now: real): (State, Verdict) {
    var limit := LimitOf(key.bucket);
    var live := Pruned(HitsOf(s, key), now - limit.window as real);
    var tidy := Tidied(s, key, now);
    if |live| >= limit.requests then
      var wait := (live[0] + limit.window as real - now).Floor + 1;
      (tidy, Refused(if wait < 1 then 1 else wait))
    else
      (if key in tidy.hits then tidy.(hits := tidy.hits[key := live + [now]]) else tidy,
       Accepted(limit.requests - (|live| + 1), limit.window))
  }

  // ----- pruning ----------------------------------------------------------------------------

  predicate Ascending(times: seq<real>) {
    forall i, j :: 0 <= i < j < |times| ==> times[i] <= times[j]
  }

  lemma {:induction false} PrunedIsSuffix(times: seq<real>, cutoff: real)
    ensures var d := |times| - |Pruned(times, cutoff)|;
            && 0 <= d && Pruned(times, cutoff) == times[d..]
            && forall i :: 0 <= i < d ==> times[i] < cutoff
    ensures var p := Pruned(times, cutoff); p != [] ==> p[0] >= cutoff
  {
    if times != [] && times[0] < cutoff {
      PrunedIsSuffix(times[1..], cutoff);
      var d := |times[1..]| - |Pruned(times[1..], cutoff)|;
      assert times[1..][d..] == times[d + 1..];
      forall i | 0 <= i < d + 1 ensures times[i] < cutoff {
        assert i > 0 ==> times[i] == times[1..][i - 1];
      }
    }
  }

  /** An earlier pruning makes no difference to a later one. */
  lemma {:induction false} PrunedTwice(times: seq<real>, early: real, late: real)
    requires early <= late
    ensures Pruned(Pruned(times, early), late) == Pruned(times, late)
  {
    if times != [] && times[0] < early {
      PrunedTwice(times[1..], early, late);
    }
  }

  lemma TidiedHits(s: State, key: Key, now: real, other: Key)
    ensures HitsOf(Tidied(s, key, now), other) == HitsOf(s, other)
         || HitsOf(Tidied(s, key, now), other) == Pruned(HitsOf(s, other), now - Window(other))
    ensures HitsOf(Tidied(s, key, now), key) == Pruned(HitsOf(s, key), now - Window(key))
    ensures key in Tidied(s, key, now).hits <==>
              !(SweepDue(s, now) && Pruned(HitsOf(s, key), now - Window(key)) == [])
  {
    PrunedTwice(HitsOf(s, key), now - Window(key), now - Window(key));
  }

  // ----- runs -------------------------------------------------------------------------------

  datatype Request = Request(key: Key, at: real)

  function Init(start: real): State {
    State(map[], start)
  }

  function After(start: real, trace: seq<Request>): State {
    if trace == [] then Init(start)
    else
      var last := trace[|trace| - 1];
      Step(After(start, trace[..|trace| - 1]), last.key, last.at).0
  }

  function LastVerdict(start: real, trace: seq<Request>): Verdict
    requires trace != []
  {
    var last := trace[|trace| - 1];
    Step(After(start, trace[..|trace| - 1]), last.key, last.at).1
  }

  /** The clock never runs backwards. */
  ghost predicate Clocked(start: real, trace: seq<Request>) {
    && (forall i :: 0 <= i < |trace| ==> start <= trace[i].at)
    && forall i, j :: 0 <= i < j < |trace| ==> trace[i].at <= trace[j].at
  }

  function Now(start: real, trace: seq<Request>): real {
    if trace == [] then start else trace[|trace| - 1].at
  }

  /** Whether the last request of a run is an accepted one of `key`. */
  predicate Lets(start: real, trace: seq<Request>, key: Key) {
    trace != [] && trace[|trace| - 1].key == key && LastVerdict(start, trace).Accepted?
  }

  /** Whether its record survives the sweep. */
  predicate Records(start: real, trace: seq<Request>, key: Key) {
    && Lets(start, trace, key)
    && key in Tidied(After(start, trace[..|trace| - 1]), key, trace[|trace| - 1].at).hits
  }

  /** The times of the accepted requests of `key`. */
  function AcceptedTimes(start: real, trace: seq<Request>, key: Key): seq<real> {
    if trace == [] then []
    else
      AcceptedTimes(start, trace[..|trace| - 1], key)
      + if Lets(start, trace, key) then [trace[|trace| - 1].at] else []
  }

  function RecordedTimes(start: real, trace: seq<Request>, key: Key): seq<real> {
    if trace == [] then []
    else
      RecordedTimes(start, trace[..|trace| - 1], key)
      + if Records(start, trace, key) then [trace[|trace| - 1].at] else []
  }

  function UnrecordedTimes(start: real, trace: seq<Request>, key: Key): seq<real> {
    if trace == [] then []
    else
      UnrecordedTimes(start, trace[..|trace| - 1], key)
      + if Lets(start, trace, key) && !Records(start, trace, key) then [trace[|trace| - 1].at] else []
  }

  // ----- the invariant ------------------------------------------------------------------------

  /** What is on record is the tail of what was recorded; the rest is older than a window. */
  ghost predicate Tail(live: seq<real>, recorded: seq<real>, cutoff: real) {
    && |live| <= |recorded| && live == recorded[|recorded| - |live|..]
    && forall i :: 0 <= i < |recorded| - |live| ==> recorded[i] < cutoff
  }

  /** Any `count` + 1 recorded requests in a row span more than a window. */
  ghost predicate Spaced(times: seq<real>, count: nat, window: real) {
    forall i :: 0 <= i && i + count < |times| ==> times[i + count] - times[i] > window
  }

  ghost predicate UpTo(times: seq<real>, now: real) {
    forall i :: 0 <= i < |times| ==> times[i] <= now
  }

  /** What holds of a key's live, recorded and unrecorded times at `now`. */
  ghost predicate Holds(key: Key, live: seq<real>, recorded: seq<real>, unrecorded: seq<real>, lastSweep: real,
                        now: real) {
    && Tail(live, recorded, now - Window(key)) && |live| <= LimitOf(key.bucket).requests
    && Ascending(recorded) && UpTo(recorded, now)
    && Spaced(recorded, LimitOf(key.bucket).requests, Window(key))
    && Ascending(unrecorded) && UpTo(unrecorded, lastSweep) && lastSweep <= now
    && Spaced(unrecorded, 1, Window(key))
  }

  ghost predicate Inv(start: real, trace: seq<Request>, key: Key) {
    Holds(key, HitsOf(After(start, trace), key), RecordedTimes(start, trace, key), UnrecordedTimes(start, trace, key),
          After(start, trace).lastSweep, Now(start, trace))
  }

  lemma TailLater(live: seq<real>, recorded: seq<real>, early: real, late: real)
    requires Tail(live, recorded, early) && early <= late
    ensures Tail(live, recorded, late)
  {
  }

  lemma TailPruned(live: seq<real>, recorded: seq<real>, early: real, cutoff: real)
    requires Tail(live, recorded, early) && early <= cutoff
    ensures Tail(Pruned(live, cutoff), recorded, cutoff)
  {
    PrunedIsSuffix(live, cutoff);
    var d, e := |recorded| - |live|, |live| - |Pruned(live, cutoff)|;
    assert recorded[d..][e..] == recorded[d + e..];
    forall i | 0 <= i < d + e ensures recorded[i] < cutoff {
      if i >= d {
        assert recorded[i] == live[i - d];
      }
    }
  }

  lemma TailGrows(live: seq<real>, recorded: seq<real>, cutoff: real, now: real)
    requires Tail(live, recorded, cutoff)
    ensures Tail(live + [now], recorded + [now], cutoff)
  {
  }

  /** A request that finds fewer than `count` live hits comes more than a window after the last but `count`. */
  lemma SpacedGrows(live: seq<real>, recorded: seq<real>, count: nat, window: real, now: real)
    requires Tail(live, recorded, now - window) && |live| < count
    requires Spaced(recorded, count, window) && Ascending(recorded) && UpTo(recorded, now)
    ensures Spaced(recorded + [now], count, window)
    ensures Ascending(recorded + [now]) && UpTo(recorded + [now], now)
  {
  }

  lemma AloneGrows(times: seq<real>, lastSweep: real, window: real, now: real)
    requires Spaced(times, 1, window) && Ascending(times) && UpTo(times, lastSweep) && now - lastSweep > window > 0.0
    ensures Spaced(times + [now], 1, window) && Ascending(times + [now]) && UpTo(times + [now], now)
  {
  }

  lemma StepHits(s: State, key: Key, now: real, other: Key)
    ensures other != key ==>
              || HitsOf(Step(s, key, now).0, other) == HitsOf(s, other)
              || HitsOf(Step(s, key, now).0, other) == Pruned(HitsOf(s, other), now - Window(other))
    ensures Step(s, key, now).0.lastSweep == if SweepDue(s, now) then now else s.lastSweep
  {
    hide Pruned, Swept, LimitOf;
    TidiedHits(s, key, now, other);
  }

  lemma StepOwnHits(s: State, key: Key, now: real)
    ensures var live := Pruned(HitsOf(s, key), now - Window(key));
            var (next, verdict) := Step(s, key, now);
            var stays := key in Tidied(s, key, now).hits;
            && (verdict.Accepted? <==> |live| < LimitOf(key.bucket).requests)
            && (stays <==> !(SweepDue(s, now) && live == []))
            && HitsOf(next, key) == if verdict.Accepted? && stays then live + [now] else live
  {
    hide Pruned, Swept, LimitOf;
    TidiedHits(s, key, now, key);
  }

  /** Time passes; the times may be pruned, and a sweep may take place. */
  lemma HoldsLater(key: Key, live: seq<real>, recorded: seq<real>, unrecorded: seq<real>, early: real, sweep: real,
                   before: real, now: real)
    requires Holds(key, live, recorded, unrecorded, early, before) && before <= now && (sweep == early || sweep == now)
    ensures Holds(key, live, recorded, unrecorded, sweep, now)
    ensures Holds(key, Pruned(live, now - Window(key)), recorded, unrecorded, sweep, now)
  {
    hide Pruned, LimitOf, Ascending, Spaced, Tail;
    TailLater(live, recorded, before - Window(key), now - Window(key));
    TailPruned(live, recorded, before - Window(key), now - Window(key));
    PrunedIsSuffix(live, now - Window(key));
  }

  lemma HoldsRecorded(key: Key, live: seq<real>, recorded: seq<real>, unrecorded: seq<real>, sweep: real, now: real)
    requires Holds(key, live, recorded, unrecorded, sweep, now) && |live| < LimitOf(key.bucket).requests
    ensures Holds(key, live + [now], recorded + [now], unrecorded, sweep, now)
  {
    hide LimitOf, Ascending, Spaced, Tail;
    TailGrows(live, recorded, now - Window(key), now);
    SpacedGrows(live, recorded, LimitOf(key.bucket).requests, Window(key), now);
  }

  lemma HoldsUnrecorded(key: Key, live: seq<real>, recorded: seq<real>, unrecorded: seq<real>, early: real,
                        before: real, now: real)
    requires Holds(key, live, recorded, unrecorded, early, before) && before <= now && now - early > Window(key) > 0.0
    ensures Holds(key, Pruned(live, now - Window(key)), recorded, unrecorded + [now], now, now)
  {
    HoldsLater(key, live, recorded, unrecorded, early, now, before, now);
    hide Pruned, LimitOf, Ascending, Spaced, Tail;
    AloneGrows(unrecorded, early, Window(key), now);
  }

  /** What one more request adds to a run. */
  lemma OneMoreRequest(start: real, before: seq<Request>, r: Request, key: Key)
    requires Clocked(start, before + [r])
    ensures var trace := before + [r];
            && After(start, trace) == Step(After(start, before), r.key, r.at).0
            && Now(start, trace) == r.at && Now(start, before) <= r.at && Clocked(start, before)
            && RecordedTimes(start, trace, key)
               == (var times := RecordedTimes(start, before, key);
                   if Records(start, trace, key) then times + [r.at] else times)
            && UnrecordedTimes(start, trace, key)
               == (var times := UnrecordedTimes(start, before, key);
                   if Lets(start, trace, key) && !Records(start, trace, key) then times + [r.at] else times)
  {
    hide Step, Records, Lets, LastVerdict;
    var trace := before + [r];
    assert trace[..|before|] == before;
    assert forall i :: 0 <= i < |before| ==> before[i] == trace[i];
    assert before != [] ==> trace[|before| - 1].at <= trace[|before|].at;
  }

  /** When it gets through, and when it is recorded. */
  lemma OneMoreVerdict(start: real, before: seq<Request>, r: Request, key: Key)
    ensures var s := After(start, before);
            && Lets(start, before + [r], key) == (r.key == key && Step(s, key, r.at).1.Accepted?)
            && Records(start, before + [r], key)
               == (r.key == key && Step(s, key, r.at).1.Accepted? && key in Tidied(s, key, r.at).hits)
  {
    hide Step, Tidied;
    assert (before + [r])[..|before|] == before;
  }

  lemma InvOther(start: real, before: seq<Request>, r: Request, key: Key)
    requires Clocked(start, before + [r]) && Inv(start, before, key) && r.key != key
    ensures Inv(start, before + [r], key)
  {
    hide After, Step, Tidied, RecordedTimes, UnrecordedTimes, Holds, Pruned, HitsOf, Lets, Records;
    OneMoreRequest(start, before, r, key);
    OneMoreVerdict(start, before, r, key);
    var s := After(start, before);
    StepHits(s, r.key, r.at, key);
    HoldsLater(key, HitsOf(s, key), RecordedTimes(start, before, key), UnrecordedTimes(start, before, key), s.lastSweep,
               if SweepDue(s, r.at) then r.at else s.lastSweep, Now(start, before), r.at);
  }

  lemma InvOwn(start: real, before: seq<Request>, r: Request, key: Key)
    requires Clocked(start, before + [r]) && Inv(start, before, key) && r.key == key
    ensures Inv(start, before + [r], key)
  {
    hide After, Step, Tidied, RecordedTimes, UnrecordedTimes, Holds, Pruned, HitsOf, Lets, Records, LimitOf;
    OneMoreRequest(start, before, r, key);
    OneMoreVerdict(start, before, r, key);
    var s := After(start, before);
    StepOwnHits(s, key, r.at);
    StepHits(s, key, r.at, key);
    var hits := HitsOf(s, key);
    var recorded, unrecorded := RecordedTimes(start, before, key), UnrecordedTimes(start, before, key);
    var live, sweep := Pruned(hits, r.at - Window(key)), if SweepDue(s, r.at) then r.at else s.lastSweep;
    HoldsLater(key, hits, recorded, unrecorded, s.lastSweep, sweep, Now(start, before), r.at);
    if Records(start, before + [r], key) {
      HoldsRecorded(key, live, recorded, unrecorded, sweep, r.at);
    } else if Lets(start, before + [r], key) {
      HoldsUnrecorded(key, hits, recorded, unrecorded, s.lastSweep, Now(start, before), r.at);
    }
  }

  lemma {:induction false} RunInv(start: real, trace: seq<Request>, key: Key)
    requires Clocked(start, trace)
    ensures Inv(start, trace, key)
  {
    if trace != [] {
      hide Inv;
      var before, r := trace[..|trace| - 1], trace[|trace| - 1];
      assert trace == before + [r];
      OneMoreRequest(start, before, r, key);
      RunInv(start, before, key);
      if r.key == key {
        InvOwn(start, before, r, key);
      } else {
        InvOther(start, before, r, key);
      }
    }
  }

  // ----- how many requests get through ----------------------------------------------------------

  /** How many times fall in the closed interval from `lo` to `hi`. */
  function Within(times: seq<real>, lo: real, hi: real): nat {
    if times == [] then 0
    else Within(times[..|times| - 1], lo, hi) + if lo <= times[|times| - 1] <= hi then 1 else 0
  }

  lemma {:induction false} WithinConcat(a: seq<real>, b: seq<real>, lo: real, hi: real)
    ensures Within(a + b, lo, hi) == Within(a, lo, hi) + Within(b, lo, hi)
  {
    if b == [] {
      assert a + b == a;
    } else {
      WithinConcat(a, b[..|b| - 1], lo, hi);
      assert (a + b)[..|a + b| - 1] == a + b[..|b| - 1];
    }
  }

  lemma {:induction false} NoneWithin(times: seq<real>, lo: real, hi: real)
    requires forall i :: 0 <= i < |times| ==> times[i] < lo
    ensures Within(times, lo, hi) == 0
  {
    if times != [] {
      NoneWithin(times[..|times| - 1], lo, hi);
    }
  }

  lemma {:induction false} WithinAtMostAll(times: seq<real>, lo: real, hi: real)
    ensures Within(times, lo, hi) <= |times|
  {
    if times != [] {
      WithinAtMostAll(times[..|times| - 1], lo, hi);
    }
  }

  lemma PastIsOld(times: seq<real>, count: nat, window: real, lo: real, i: nat)
    requires Ascending(times) && Spaced(times, count, window) && 0 < count < |times|
    requires times[|times| - 1] <= lo + window && i < |times| - count
    ensures times[i] < lo
  {
    var j := |times| - 1 - count;
    assert times[j + count] - times[j] > window;
    assert times[i] <= times[j];
  }

  lemma PastIsOut(times: seq<real>, count: nat, window: real, lo: real)
    requires Ascending(times) && Spaced(times, count, window) && 0 < count < |times|
    requires times[|times| - 1] <= lo + window
    ensures Within(times, lo, lo + window) <= count
  {
    hide Within, Ascending, Spaced;
    var n := |times|;
    var past, recent := times[..n - count], times[n - count..];
    assert times == past + recent;
    forall i | 0 <= i < |past| ensures past[i] < lo {
      PastIsOld(times, count, window, lo, i);
    }
    NoneWithin(past, lo, lo + window);
    WithinAtMostAll(recent, lo, lo + window);
    WithinConcat(past, recent, lo, lo + window);
  }

  lemma {:induction false} SpacedFitsWindow(times: seq<real>, count: nat, window: real, lo: real)
    requires Ascending(times) && Spaced(times, count, window) && count > 0
    ensures Within(times, lo, lo + window) <= count
  {
    if |times| <= count {
      WithinAtMostAll(times, lo, lo + window);
    } else {
      var n := |times|;
      if times[n - 1] > lo + window {
        SpacedFitsWindow(times[..n - 1], count, window, lo);
      } else {
        PastIsOut(times, count, window, lo);
      }
    }
  }

  lemma WithinOneMore(times: seq<real>, at: real, lo: real, hi: real)
    ensures Within(times + [at], lo, hi) == Within(times, lo, hi) + if lo <= at <= hi then 1 else 0
    ensures Within(times + [], lo, hi) == Within(times, lo, hi)
  {
    assert (times + [at])[..|times|] == times && times + [] == times;
  }

  lemma {:induction false} AcceptedSplits(start: real, trace: seq<Request>, key: Key, lo: real, hi: real)
    ensures Within(AcceptedTimes(start, trace, key), lo, hi)
         == Within(RecordedTimes(start, trace, key), lo, hi) + Within(UnrecordedTimes(start, trace, key), lo, hi)
  {
    if trace != [] {
      var before, at := trace[..|trace| - 1], trace[|trace| - 1].at;
      AcceptedSplits(start, before, key, lo, hi);
      RecordsAreLets(start, trace, key);
      hide Lets, Records, Within;
      WithinOneMore(AcceptedTimes(start, before, key), at, lo, hi);
      WithinOneMore(RecordedTimes(start, before, key), at, lo, hi);
      WithinOneMore(UnrecordedTimes(start, before, key), at, lo, hi);
    }
  }

  lemma RecordsAreLets(start: real, trace: seq<Request>, key: Key)
    ensures Records(start, trace, key) ==> Lets(start, trace, key)
  {
  }

  /**
   Any window as long as the limit's own holds at most `requests` recorded hits of a key,
   and at most one accepted request that was not recorded.
   */
  lemma RateBound(start: real, trace: seq<Request>, key: Key, lo: real)
    requires Clocked(start, trace)
    ensures var hi := lo + Window(key);
            var recorded := Within(RecordedTimes(start, trace, key), lo, hi);
            var unrecorded := Within(UnrecordedTimes(start, trace, key), lo, hi);
            && recorded <= LimitOf(key.bucket).requests && unrecorded <= 1
            && Within(AcceptedTimes(start, trace, key), lo, hi) == recorded + unrecorded
  {
    hide After, Spaced, Ascending, AcceptedTimes, RecordedTimes, UnrecordedTimes, Within;
    RunInv(start, trace, key);
    SpacedFitsWindow(RecordedTimes(start, trace, key), LimitOf(key.bucket).requests, Window(key), lo);
    SpacedFitsWindow(UnrecordedTimes(start, trace, key), 1, Window(key), lo);
    AcceptedSplits(start, trace, key, lo, lo + Window(key));
  }

  // ----- the limit can be passed by one -----------------------------------------------------------

  /** The limiter after `n` checks of `key`, all at `now`. */
  function Again(s: State, key: Key, now: real, n: nat): State {
    if n == 0 then s else Step(Again(s, key, now, n - 1), key, now).0
  }

  /** How many of them it accepts. */
  function Passes(s: State, key: Key, now: real, n: nat): nat {
    if n == 0 then 0
    else Passes(s, key, now, n - 1) + if Step(Again(s, key, now, n - 1), key, now).1.Accepted? then 1 else 0
  }

  /** A due sweep that finds no live hit of the caller detaches its deque before the request is recorded. */
  predicate Detaches(s: State, key: Key, now: real) {
    SweepDue(s, now) && Pruned(HitsOf(s, key), now - Window(key)) == []
  }

  /** How many more requests of `key` there is room for at `now`. */
  function Room(s: State, key: Key, now: real): nat {
    var limit, live := LimitOf(key.bucket).requests, |Pruned(HitsOf(s, key), now - Window(key))|;
    if Detaches(s, key, now) then limit + 1 else if live < limit then limit - live else 0
  }

  lemma {:induction false} PrunedRecent(times: seq<real>, cutoff: real, now: real)
    requires cutoff <= now
    ensures Pruned(Pruned(times, cutoff) + [now], cutoff) == Pruned(times, cutoff) + [now]
  {
    if times != [] && times[0] < cutoff {
      PrunedRecent(times[1..], cutoff, now);
    }
  }

  /** A check is accepted while there is room, and takes up one place of it. */
  lemma StepTakesRoom(s: State, key: Key, now: real)
    ensures var (next, verdict) := Step(s, key, now);
            && (verdict.Accepted? <==> Room(s, key, now) > 0)
            && Room(next, key, now) == if verdict.Accepted? then Room(s, key, now) - 1 else 0
  {
    var cutoff := now - Window(key);
    var next := Step(s, key, now).0;
    PrunedTwice(HitsOf(s, key), cutoff, cutoff);
    PrunedRecent(HitsOf(s, key), cutoff, now);
    hide Pruned, Step, Tidied, LimitOf, HitsOf;
    StepOwnHits(s, key, now);
    StepHits(s, key, now, key);
    assert !SweepDue(next, now);
  }

  /** Of any number of checks at one instant as many are accepted as there is room for. */
  lemma {:induction false} PassesExactly(s: State, key: Key, now: real, n: nat)
    ensures Passes(s, key, now, n) == if n < Room(s, key, now) then n else Room(s, key, now)
    ensures Room(Again(s, key, now, n), key, now) == Room(s, key, now) - Passes(s, key, now, n)
  {
    hide Room, Step;
    if n > 0 {
      PassesExactly(s, key, now, n - 1);
      StepTakesRoom(Again(s, key, now, n - 1), key, now);
    }
  }

  function Burst(key: Key, now: real, n: nat): seq<Request> {
    seq(n, _ => Request(key, now))
  }

  function Repeated(now: real, n: nat): seq<real> {
    seq(n, _ => now)
  }

  /** A burst at the end of a run. */
  lemma {:induction false} BurstPasses(start: real, trace: seq<Request>, key: Key, now: real, n: nat)
    ensures After(start, trace + Burst(key, now, n)) == Again(After(start, trace), key, now, n)
    ensures AcceptedTimes(start, trace + Burst(key, now, n), key)
         == AcceptedTimes(start, trace, key) + Repeated(now, Passes(After(start, trace), key, now, n))
  {
    hide Step, Tidied;
    if n == 0 {
      assert trace + Burst(key, now, 0) == trace;
    } else {
      var before, r := trace + Burst(key, now, n - 1), Request(key, now);
      assert trace + Burst(key, now, n) == before + [r];
      BurstPasses(start, trace, key, now, n - 1);
      LastOf(start, before, r);
      OneMoreVerdict(start, before, r, key);
      assert (before + [r])[..|before|] == before;
      hide Lets, After, Again;
    }
  }

  /**
   After any run, one request more than the limit gets through at a single instant if and only if
   a sweep is due and the client has no live hit on record.
   */
  lemma OneTooMany(start: real, trace: seq<Request>, key: Key, now: real)
    ensures var n := LimitOf(key.bucket).requests + 1;
            var before := AcceptedTimes(start, trace, key);
            var after := AcceptedTimes(start, trace + Burst(key, now, n), key);
            after == before + Repeated(now, n) <==> Detaches(After(start, trace), key, now)
  {
    var n, s := LimitOf(key.bucket).requests + 1, After(start, trace);
    hide After, AcceptedTimes, Detaches, Pruned, LimitOf, HitsOf;
    BurstPasses(start, trace, key, now, n);
    PassesExactly(s, key, now, n);
    SameTimes(AcceptedTimes(start, trace, key), now, Passes(s, key, now, n), n);
  }

  lemma SameTimes(before: seq<real>, now: real, m: nat, n: nat)
    ensures before + Repeated(now, m) == before + Repeated(now, n) <==> m == n
  {
    assert |before + Repeated(now, m)| == |before| + m && |before + Repeated(now, n)| == |before| + n;
  }

  /** So it does for a client that is new to the limiter, once the first sweep is due. */
  lemma NewcomersPassOneMore(start: real, key: Key, now: real)
    requires now - start > SWEEP_GAP as real
    ensures var trace := Burst(key, now, LimitOf(key.bucket).requests + 1);
            && Clocked(start, trace)
            && AcceptedTimes(start, trace, key) == Repeated(now, LimitOf(key.bucket).requests + 1)
  {
    hide AcceptedTimes;
    var n := LimitOf(key.bucket).requests + 1;
    OneTooMany(start, [], key, now);
    assert [] + Burst(key, now, n) == Burst(key, now, n);
    NothingYet(start, key);
    assert [] + Repeated(now, n) == Repeated(now, n);
  }

  lemma NothingYet(start: real, key: Key)
    ensures AcceptedTimes(start, [], key) == [] && After(start, []) == Init(start)
  {
  }

  // ----- waiting is enough --------------------------------------------------------------------------

  ghost predicate NoneOf(trace: seq<Request>, key: Key) {
    forall i :: 0 <= i < |trace| ==> trace[i].key != key
  }

  /** Other keys' checks may prune the entry of `key`, never drop a live hit. */
  lemma {:induction false} OthersOnlyPrune(start: real, trace: seq<Request>, later: seq<Request>, key: Key, at: real)
    requires NoneOf(later, key) && forall i :: 0 <= i < |later| ==> later[i].at <= at
    ensures var cutoff := at - Window(key);
            Pruned(HitsOf(After(start, trace + later), key), cutoff) == Pruned(HitsOf(After(start, trace), key), cutoff)
  {
    hide Pruned, Step, HitsOf, LimitOf;
    if later == [] {
      assert trace + later == trace;
    } else {
      var n := |later| - 1;
      assert (trace + later)[..|trace| + n] == trace + later[..n];
      var s := After(start, trace + later[..n]);
      OthersOnlyPrune(start, trace, later[..n], key, at);
      StepHits(s, later[n].key, later[n].at, key);
      PrunedTwice(HitsOf(s, key), later[n].at - Window(key), at - Window(key));
    }
  }

  lemma LastOf(start: real, before: seq<Request>, r: Request)
    ensures After(start, before + [r]) == Step(After(start, before), r.key, r.at).0
    ensures LastVerdict(start, before + [r]) == Step(After(start, before), r.key, r.at).1
  {
    hide Step;
    assert (before + [r])[..|before|] == before;
  }

  /** The wait that a refusal names is longer than the oldest live hit has left. */
  lemma WaitOutlastsOldest(s: State, key: Key, now: real)
    requires Step(s, key, now).1.Refused?
    ensures var live := Pruned(HitsOf(s, key), now - Window(key));
            live != [] && live[0] + Window(key) - now < Step(s, key, now).1.retryAfter as real
  {
    hide Tidied, Pruned, LimitOf, HitsOf;
  }

  lemma OldestExpires(live: seq<real>, cutoff: real)
    requires live != [] && live[0] < cutoff
    ensures |Pruned(live, cutoff)| < |live|
  {
    PrunedIsSuffix(live[1..], cutoff);
  }

  lemma RefusalExpires(start: real, trace: seq<Request>, key: Key, at: real)
    requires trace != [] && trace[|trace| - 1].key == key && Clocked(start, trace)
    requires LastVerdict(start, trace).Refused?
    requires at >= trace[|trace| - 1].at + LastVerdict(start, trace).retryAfter as real
    ensures |Pruned(HitsOf(After(start, trace), key), at - Window(key))| < LimitOf(key.bucket).requests
  {
    hide Clocked, LastVerdict, After, Step, Tidied, RecordedTimes, UnrecordedTimes, Pruned, HitsOf, LimitOf, Window;
    var before, r := trace[..|trace| - 1], trace[|trace| - 1];
    assert trace == before + [r];
    RunInv(start, trace, key);
    LastOf(start, before, r);
    var s := After(start, before);
    StepOwnHits(s, key, r.at);
    WaitOutlastsOldest(s, key, r.at);
    OldestExpires(HitsOf(After(start, trace), key), at - Window(key));
  }

  /** A refused client that waits as told, and sends nothing meanwhile, is let through. */
  lemma WaitingIsEnough(start: real, trace: seq<Request>, later: seq<Request>, key: Key, at: real)
    requires trace != [] && trace[|trace| - 1].key == key && LastVerdict(start, trace).Refused?
    requires Clocked(start, trace + later + [Request(key, at)]) && NoneOf(later, key)
    requires at >= trace[|trace| - 1].at + LastVerdict(start, trace).retryAfter as real
    ensures LastVerdict(start, trace + later + [Request(key, at)]).Accepted?
  {
    hide Step, Pruned, LimitOf;
    var whole := trace + later + [Request(key, at)];
    assert forall i :: 0 <= i < |trace| ==> trace[i] == whole[i];
    assert Clocked(start, trace);
    forall i | 0 <= i < |later| ensures later[i].at <= at {
      assert later[i] == whole[|trace| + i] && whole[|whole| - 1].at == at;
    }
    RefusalExpires(start, trace, key, at);
    OthersOnlyPrune(start, trace, later, key, at);
    assert whole[..|whole| - 1] == trace + later;
    StepOwnHits(After(start, trace + later), key, at);
  }

  // ----- what the verdict tells the client ------------------------------------------------------------

  /**
   The number reported as remaining is exactly how many more requests get through at the same
   instant, or one less if the sweep has just lost the record of this one.
   */
  lemma RemainingIsExact(s: State, key: Key, now: real)
    requires Step(s, key, now).1.Accepted?
    ensures var (next, verdict) := Step(s, key, now);
            && verdict.window == LimitOf(key.bucket).window
            && Room(next, key, now) == verdict.remaining + if Detaches(s, key, now) then 1 else 0
  {
    StepTakesRoom(s, key, now);
    hide Pruned, Tidied, LimitOf, HitsOf;
  }

  /** The oldest live hit is still live for all but the last second of the wait. */
  lemma OldestOutlastsWait(s: State, key: Key, now: real)
    requires Step(s, key, now).1.Refused?
    ensures var live, wait := Pruned(HitsOf(s, key), now - Window(key)), Step(s, key, now).1.retryAfter;
            wait >= 1 && live != [] && live[0] >= now + (wait - 1) as real - Window(key)
  {
    PrunedIsSuffix(HitsOf(s, key), now - Window(key));
    hide Tidied, Pruned, LimitOf, HitsOf;
  }

  lemma NothingExpires(live: seq<real>, cutoff: real)
    requires live != [] ==> live[0] >= cutoff
    ensures Pruned(live, cutoff) == live
  {
  }

  /** The wait that is named is the least in whole seconds: a client that waits one less is refused again. */
  lemma ShorterIsRefused(start: real, trace: seq<Request>, later: seq<Request>, key: Key, at: real)
    requires trace != [] && trace[|trace| - 1].key == key && LastVerdict(start, trace).Refused?
    requires Clocked(start, trace + later + [Request(key, at)]) && NoneOf(later, key)
    requires at <= trace[|trace| - 1].at + (LastVerdict(start, trace).retryAfter - 1) as real
    ensures LastVerdict(start, trace + later + [Request(key, at)]).Refused?
  {
    hide Step, Pruned, LimitOf, LastVerdict, HitsOf;
    var whole := trace + later + [Request(key, at)];
    forall i | 0 <= i < |later| ensures later[i].at <= at {
      assert later[i] == whole[|trace| + i] && whole[|whole| - 1].at == at;
    }
    var before, r := trace[..|trace| - 1], trace[|trace| - 1];
    assert trace == before + [r];
    LastOf(start, before, r);
    LastOf(start, trace + later, Request(key, at));
    var s := After(start, before);
    StepOwnHits(s, key, r.at);
    OldestOutlastsWait(s, key, r.at);
    NothingExpires(Pruned(HitsOf(s, key), r.at - Window(key)), at - Window(key));
    OthersOnlyPrune(start, trace, later, key, at);
    StepOwnHits(After(start, trace + later), key, at);
  }

  /** At most so many requests of `key` are accepted in any closed window of so many seconds. */
  ghost predicate Bounded(start: real, trace: seq<Request>, key: Key, lo: real, seconds: real, most: nat) {
    Within(AcceptedTimes(start, trace, key), lo, lo + seconds) <= most
  }

  /** However it goes about it, no client gets more than one over its limit through, bucket by bucket. */
  lemma BucketsAreBounded(start: real, trace: seq<Request>, client: string, bucket: string, lo: real)
    requires Clocked(start, trace)
    ensures Bounded(start, trace, Key(client, "auth"), lo, 300.0, 11)
    ensures Bounded(start, trace, Key(client, "citizen_report"), lo, 300.0, 6)
    ensures Bounded(start, trace, Key(client, "operator_write"), lo, 60.0, 61)
    ensures Bounded(start, trace, Key(client, "public_read"), lo, 60.0, 301)
    ensures Bounded(start, trace, Key(client, "push_ingress"), lo, 60.0, 601)
    ensures bucket !in {"auth", "citizen_report", "operator_write", "public_read", "push_ingress"} ==>
              Bounded(start, trace, Key(client, bucket), lo, 60.0, 121)
  {
    hide AcceptedTimes, RecordedTimes, UnrecordedTimes, Within;
    RateBound(start, trace, Key(client, "auth"), lo);
    RateBound(start, trace, Key(client, "citizen_report"), lo);
    RateBound(start, trace, Key(client, "operator_write"), lo);
    RateBound(start, trace, Key(client, "public_read"), lo);
    RateBound(start, trace, Key(client, "push_ingress"), lo);
    RateBound(start, trace, Key(client, bucket), lo);
  }

  /** And a new client gets exactly its limit through at once, as long as no sweep is due. */
  lemma NewcomersPassTheLimit(start: real, client: string, bucket: string, now: real, n: nat)
    requires now - start <= 300.0 && n >= 600
    ensures Passes(Init(start), Key(client, "auth"), now, n) == 10
    ensures Passes(Init(start), Key(client, "citizen_report"), now, n) == 5
    ensures Passes(Init(start), Key(client, "operator_write"), now, n) == 60
    ensures Passes(Init(start), Key(client, "public_read"), now, n) == 300
    ensures Passes(Init(start), Key(client, "push_ingress"), now, n) == 600
    ensures bucket !in {"auth", "citizen_report", "operator_write", "public_read", "push_ingress"} ==>
              Passes(Init(start), Key(client, bucket), now, n) == 120
  {
    hide Passes, Again;
    PassesExactly(Init(start), Key(client, "auth"), now, n);
    PassesExactly(Init(start), Key(client, "citizen_report"), now, n);
    PassesExactly(Init(start), Key(client, "operator_write"), now, n);
    PassesExactly(Init(start), Key(client, "public_read"), now, n);
    PassesExactly(Init(start), Key(client, "push_ingress"), now, n);
    PassesExactly(Init(start), Key(client, bucket), now, n);
  }
}
