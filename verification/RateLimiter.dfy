/**
 The limiter as it is stored: one shared deque per client and bucket. A check works on
 the caller's deque even after a sweep has dropped it from the table.
 */
module RateLimiters {
  import opened Limiters

  class Deque {
    var items: seq<real>

    constructor ()
      ensures items == []
    {
      items := [];
    }

    /** Pops from the left while the head is older than `cutoff`. */
    method Expire(cutoff: real)
      modifies this
      ensures items == Pruned(old(items), cutoff)
    {
      while items != [] && items[0] < cutoff
        invariant Pruned(items, cutoff) == Pruned(old(items), cutoff)
        decreases |items|
      {
        items := items[1..];
      }
    }
  }

  /** Every entry has a deque of its own. */
  ghost predicate Distinct(hits: map<Key, Deque>) {
    forall k, l :: k in hits && l in hits && k != l ==> hits[k] != hits[l]
  }

  ghost predicate Submap(part: map<Key, Deque>, whole: map<Key, Deque>) {
    forall k :: k in part ==> k in whole && part[k] == whole[k]
  }

  lemma SubmapIsDistinct(part: map<Key, Deque>, whole: map<Key, Deque>)
    requires Submap(part, whole) && Distinct(whole)
    ensures Distinct(part) && part.Values <= whole.Values
  {
  }

  lemma Apart(hits: map<Key, Deque>, key: Key)
    requires Distinct(hits) && key in hits
    ensures forall k :: k in hits && k != key ==> hits[k] != hits[key]
  {
  }

  /** The entries still waiting for the sweep, and those it leaves in the table. */
  ghost function Kept(hits: map<Key, Deque>, waiting: set<Key>, goal: map<Key, seq<real>>): map<Key, Deque>
    requires hits.Keys == goal.Keys
  {
    map k | k in hits && (k in waiting || goal[k] != []) :: hits[k]
  }

  lemma KeptAtFirst(hits: map<Key, Deque>, goal: map<Key, seq<real>>)
    requires hits.Keys == goal.Keys
    ensures Kept(hits, hits.Keys, goal) == hits
  {
  }

  lemma KeptStep(hits: map<Key, Deque>, waiting: set<Key>, goal: map<Key, seq<real>>, key: Key)
    requires hits.Keys == goal.Keys && key in waiting && key in hits
    ensures var kept := Kept(hits, waiting, goal);
            && key in kept && kept[key] == hits[key]
            && Kept(hits, waiting - {key}, goal) == if goal[key] == [] then kept - {key} else kept
  {
  }

  lemma KeptAtLast(hits: map<Key, Deque>, goal: map<Key, seq<real>>)
    requires hits.Keys == goal.Keys
    ensures var kept := Kept(hits, {}, goal);
            && Submap(kept, hits) && (forall k :: k in kept <==> k in hits && goal[k] != [])
            && forall k :: k in kept ==> kept[k] == hits[k]
  {
  }

  /** What the sweep leaves of each entry. */
  function Goal(was: map<Key, seq<real>>, now: real): map<Key, seq<real>> {
    map k | k in was :: Pruned(was[k], now - Window(k))
  }

  lemma SweptOf(was: map<Key, seq<real>>, now: real, left: map<Key, seq<real>>)
    requires forall k :: k in left <==> k in was && Goal(was, now)[k] != []
    requires forall k :: k in left ==> left[k] == Goal(was, now)[k]
    ensures left == Swept(was, now)
  {
    hide Pruned, Window;
  }

  class SlidingWindowLimiter {
    var hits: map<Key, Deque>
    var lastSweep: real

    constructor (start: real)
      ensures Valid() && fresh(hits.Values) && Contents() == Init(start)
    {
      hits, lastSweep := map[], start;
    }

    ghost predicate Valid()
      reads this
    {
      Distinct(hits)
    }

    ghost function Contents(): State
      reads this, hits.Values
    {
      State(map key | key in hits :: hits[key].items, lastSweep)
    }

    /** The caller's deque, created if need be and pruned to its window. */
    method Touch(key: Key, now: real) returns (mine: Deque)
      requires Valid()
      modifies this, hits.Values
      ensures Valid() && fresh(hits.Values - old(hits.Values)) && lastSweep == old(lastSweep)
      ensures key in hits && hits[key] == mine && (mine in old(hits.Values) || fresh(mine))
      ensures mine.items == Pruned(HitsOf(old(Contents()), key), now - Window(key))
      ensures Contents().hits == old(Contents().hits)[key := mine.items]
    {
      hide Pruned, Window;
      if key !in hits {
        mine := new Deque();
        hits := hits[key := mine];
      } else {
        mine := hits[key];
      }
      mine.Expire(now - Window(key));
    }

    /** Prunes one entry, and drops it from the table if that empties it; the deque lives on. */
    method Retire(key: Key, mine: Deque, now: real)
      requires key in hits && hits[key] == mine
      modifies `hits, mine
      ensures mine.items == Pruned(old(mine.items), now - Window(key))
      ensures hits == if mine.items == [] then old(hits) - {key} else old(hits)
    {
      hide Pruned, Window;
      mine.Expire(now - Window(key));
      if mine.items == [] {
        hits := hits - {key};
      }
    }

    method RetireAll(ghost goal: map<Key, seq<real>>, now: real)
      requires Valid() && goal.Keys == hits.Keys
      requires forall k :: k in hits ==> goal[k] == Pruned(hits[k].items, now - Window(k))
      modifies `hits, hits.Values
      ensures hits == Kept(old(hits), {}, goal)
      ensures forall k :: k in goal ==> old(hits[k]).items == goal[k]
    {
      hide Pruned, Window, Distinct, Kept;
      var keys := hits.Keys;
      ghost var before := hits;
      KeptAtFirst(before, goal);
      while keys != {}
        invariant keys <= before.Keys && hits == Kept(before, keys, goal)
        invariant forall k :: k in keys ==> goal[k] == Pruned(before[k].items, now - Window(k))
        invariant forall k :: k in before && k !in keys ==> before[k].items == goal[k]
        decreases keys
      {
        var key :| key in keys;
        Apart(before, key);
        KeptStep(before, keys, goal, key);
        Retire(key, hits[key], now);
        keys := keys - {key};
      }
    }

    method Sweep(now: real)
      requires Valid()
      modifies this, hits.Values
      ensures Valid() && lastSweep == now && hits.Values <= old(hits.Values)
      ensures Contents().hits == Swept(old(Contents().hits), now)
      ensures Submap(hits, old(hits))
      ensures forall k :: k in old(hits) ==> old(hits[k]).items == Pruned(old(hits[k].items), now - Window(k))
    {
      hide Pruned, Window, Distinct, Kept, Swept, Submap;
      ghost var before, was := hits, Contents().hits;
      ghost var goal := Goal(was, now);
      lastSweep := now;
      RetireAll(goal, now);
      KeptAtLast(before, goal);
      SubmapIsDistinct(hits, before);
      forall k | k in hits ensures hits[k].items == goal[k] {
        assert hits[k] == before[k];
      }
      SweptOf(was, now, Contents().hits);
    }

    /** The caller's deque, after the pruning and the sweep that a check begins with. */
    method Tidy(key: Key, now: real) returns (mine: Deque)
      requires Valid()
      modifies this, hits.Values
      ensures Valid() && fresh(hits.Values - old(hits.Values))
      ensures Contents() == Tidied(old(Contents()), key, now)
      ensures mine.items == Pruned(HitsOf(old(Contents()), key), now - Window(key))
      ensures mine in old(hits.Values) || fresh(mine)
      ensures forall k :: k in hits && hits[k] == mine ==> k == key
      ensures key in hits ==> hits[key] == mine
    {
      hide Pruned, Swept, Window;
      mine := Touch(key, now);
      if now - lastSweep > SWEEP_GAP as real {
        PrunedTwice(HitsOf(old(Contents()), key), now - Window(key), now - Window(key));
        Sweep(now);
      }
    }

    method Check(key: Key, now: real) returns (verdict: Verdict)
      requires Valid()
      modifies this, hits.Values
      ensures Valid() && fresh(hits.Values - old(hits.Values))
      ensures (Contents(), verdict) == Step(old(Contents()), key, now)
    {
      hide Pruned, Tidied, LimitOf;
      var limit := LimitOf(key.bucket);
      var mine := Tidy(key, now);
      if |mine.items| >= limit.requests {
        var wait := (mine.items[0] + limit.window as real - now).Floor + 1;
        return Refused(if wait < 1 then 1 else wait);
      }
      ghost var tidy, live := Contents(), mine.items;
      mine.items := mine.items + [now];
      assert Contents() == if key in hits then tidy.(hits := tidy.hits[key := live + [now]]) else tidy;
      return Accepted(limit.requests - |mine.items|, limit.window);
    }
  }
}
