/** The hub of backend/app/ws/hub.py: clients with topics, and the fan-out over them. */
module Hubs {
  import opened Outboxes

  predicate StartsWith(s: string, prefix: string) {
    |prefix| <= |s| && s[..|prefix|] == prefix
  }

  /** Without its trailing stars. */
  function Stem(pattern: string): string {
    if pattern != [] && pattern[|pattern| - 1] == '*' then Stem(pattern[..|pattern| - 1]) else pattern
  }

  predicate Matches(pattern: string, topic: string) {
    pattern != [] && pattern[|pattern| - 1] == '*' && StartsWith(topic, Stem(pattern))
  }

  /** A client without topics wants everything. */
  predicate Wants(topics: set<string>, topic: string) {
    topics == {} || topic in topics || exists t :: t in topics && Matches(t, topic)
  }

  class Client {
    const topics: set<string>
    var outbox: seq<string>
    var dropped: nat
    var phase: Phase

    constructor (topics: set<string>)
      ensures this.topics == topics && State() == Start().link
    {
      this.topics := topics;
      outbox, dropped, phase := [], 0, Idle;
    }

    ghost function State(): Link
      reads this
    {
      Link(outbox, dropped, phase)
    }

    /** The bounded deque discards its oldest message when full. */
    method Append(envelope: string)
      modifies this
      ensures State() == Next(old(State()), Offer(envelope))
    {
      if |outbox| == OUTBOX_LIMIT {
        dropped := dropped + 1;
        outbox := outbox[1..];
      }
      outbox := outbox + [envelope];
    }

    // ----- the pump, from one await to the next -----

    /** Pops the next message and starts to send it; without one, the pump sleeps. */
    method PumpNext()
      requires phase.Idle?
      modifies this
      ensures State() == if old(outbox) == [] then old(State()) else Next(old(State()), Take)
    {
      if outbox == [] {
        return;
      }
      var message := outbox[0];
      outbox := outbox[1..];
      phase := Sending(message);
    }

    /** The send is done; an empty outbox is the moment for a gap notice. */
    method PumpSent()
      requires phase.Sending?
      modifies this
      ensures State() == Next(old(State()), SendDone)
    {
      if dropped > 0 && outbox == [] {
        phase := Telling(dropped);
      } else {
        phase := Idle;
      }
    }

    method PumpTold()
      requires phase.Telling?
      modifies this
      ensures State() == Next(old(State()), TellDone)
    {
      dropped := 0;
      phase := Idle;
    }

    method PumpFailed()
      requires phase.Sending?
      modifies this
      ensures State() == Next(old(State()), SendFails)
    {
      phase := Stopped(phase.message);
    }
  }

  ghost function Offered(l: Link, wanted: bool, envelope: string): Link {
    if wanted then Next(l, Offer(envelope)) else l
  }

  ghost function Audience(clients: seq<Client>, topic: string): set<Client> {
    set c | c in clients && Wants(c.topics, topic)
  }

  lemma AudienceGrows(clients: seq<Client>, k: nat, topic: string)
    requires k < |clients| && clients[k] !in clients[..k]
    ensures |Audience(clients[..k + 1], topic)|
         == |Audience(clients[..k], topic)| + if Wants(clients[k].topics, topic) then 1 else 0
  {
    hide Wants;
    var before, after := Audience(clients[..k], topic), Audience(clients[..k + 1], topic);
    assert clients[..k + 1] == clients[..k] + [clients[k]];
    assert after == before + if Wants(clients[k].topics, topic) then {clients[k]} else {};
  }

  /**
   Offers the envelope to exactly the clients that want the topic, whatever their
   outboxes hold, and counts them.
   */
  method Fanout(clients: seq<Client>, topic: string, envelope: string) returns (sent: nat)
    requires forall i, j :: 0 <= i < j < |clients| ==> clients[i] != clients[j]
    modifies clients
    ensures forall i :: 0 <= i < |clients| ==>
              clients[i].State() == Offered(old(clients[i].State()), Wants(clients[i].topics, topic), envelope)
    ensures sent == |Audience(clients, topic)|
  {
    hide Wants, Audience, Next;
    sent := 0;
    NoAudience(clients, topic);
    for k := 0 to |clients|
      invariant forall i :: 0 <= i < k ==>
                  clients[i].State() == Offered(old(clients[i].State()), Wants(clients[i].topics, topic), envelope)
      invariant forall i :: k <= i < |clients| ==> clients[i].State() == old(clients[i].State())
      invariant sent == |Audience(clients[..k], topic)|
    {
      AudienceGrows(clients, k, topic);
      if Wants(clients[k].topics, topic) {
        clients[k].Append(envelope);
        sent := sent + 1;
      }
    }
    assert clients[..|clients|] == clients;
  }

  lemma NoAudience(clients: seq<Client>, topic: string)
    ensures |Audience(clients[..0], topic)| == 0
  {
  }

  // ----- topics -------------------------------------------------------------------------------

  /** What is cut off a pattern are its trailing stars, all of them and nothing else. */
  lemma {:induction false} StemIsPrefix(pattern: string)
    ensures StartsWith(pattern, Stem(pattern))
    ensures Stem(pattern) == [] || Stem(pattern)[|Stem(pattern)| - 1] != '*'
    ensures forall i :: |Stem(pattern)| <= i < |pattern| ==> pattern[i] == '*'
  {
    if pattern != [] && pattern[|pattern| - 1] == '*' {
      StemIsPrefix(pattern[..|pattern| - 1]);
    }
  }

  /** `pattern` is a prefix of `topic` followed by stars, one at least. */
  ghost predicate Covers(pattern: string, topic: string) {
    exists n :: 0 <= n < |pattern| && n <= |topic| && Starred(pattern, n) && pattern[..n] == topic[..n]
  }

  predicate Starred(pattern: string, n: nat) {
    forall i :: n <= i < |pattern| ==> pattern[i] == '*'
  }

  lemma {:induction false} StemIsShortest(pattern: string, n: nat)
    requires n <= |pattern| && Starred(pattern, n)
    ensures |Stem(pattern)| <= n
  {
    if n < |pattern| {
      StemIsShortest(pattern[..|pattern| - 1], n);
    } else {
      StemIsPrefix(pattern);
    }
  }

  lemma MatchesExactly(pattern: string, topic: string)
    ensures Matches(pattern, topic) <==> Covers(pattern, topic)
  {
    StemIsPrefix(pattern);
    var n := |Stem(pattern)|;
    if Matches(pattern, topic) {
      StemIsShortest(pattern, |pattern| - 1);
      assert Starred(pattern, n) && pattern[..n] == topic[..n];
    }
    if Covers(pattern, topic) {
      var m :| 0 <= m < |pattern| && m <= |topic| && Starred(pattern, m) && pattern[..m] == topic[..m];
      StemIsShortest(pattern, m);
      assert pattern[|pattern| - 1] == '*';
      assert topic[..n] == topic[..m][..n] == pattern[..m][..n] == pattern[..n];
    }
  }

  /** A client wants a topic if it asked for none, for this one, or for all that begin as this one does. */
  lemma WantsExactly(topics: set<string>, topic: string)
    ensures Wants(topics, topic) <==> topics == {} || exists t :: t in topics && (t == topic || Covers(t, topic))
  {
    forall t | t in topics ensures Matches(t, topic) <==> Covers(t, topic) {
      MatchesExactly(t, topic);
    }
    hide Matches, Covers;
  }
}
