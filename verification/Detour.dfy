/**
 Where A* with the default heuristic of backend/app/routing/graph.py misses the cheapest
 route: four nodes, one of them without coordinates.
 */
module Detour {
  import opened BestFirst
  import opened Overlay
  import opened Paths
  import opened Search
  import opened Wrappers

  const S := 0
  const A := 1
  const X := 2
  const T := 3

  function Road(id: int, toNode: int, metres: real): Edge {
    Edge(id, toNode, metres, 3.6, 400, [])
  }

  const SA := Road(1, A, 1.0)
  const SX := Road(2, X, 15.0)
  const ST := Road(3, T, 24.0)
  const AX := Road(4, X, 10.0)
  const XT := Road(5, T, 10.0)

  /** Distance along the meridian, which is all that this map needs. */
  function Along(): (Coord, Coord) -> real {
    (a: Coord, b: Coord) => if a.0 < b.0 then b.0 - a.0 else a.0 - b.0
  }

  /** Five one-way roads, walked at a metre a second; X has no coordinates. */
  function Map(): Live {
    Live(map[S := [SA, SX, ST], A := [AX], X := [XT], T := []],
         map[S := (21.0, 0.0), A := (20.0, 0.0), T := (0.0, 0.0)],
         map[], map[], map[], 3.0, 0.6, 3.6)
  }

  lemma RoadCost(id: int, toNode: int, metres: real)
    ensures EdgeCost(Map(), Road(id, toNode, metres)) == Some(metres)
  {
  }

  /** What the search sees of the map. */
  ghost predicate Shows(g: Network, h: int -> real) {
    && Out(g, S) == [SA, SX, ST] && Out(g, A) == [AX] && Out(g, X) == [XT]
    && g.cost(SA) == Some(1.0) && g.cost(SX) == Some(15.0) && g.cost(ST) == Some(24.0)
    && g.cost(AX) == Some(10.0) && g.cost(XT) == Some(10.0)
    && h(S) == 21.0 && h(A) == 20.0 && h(X) == 0.0 && h(T) == 0.0
  }

  lemma MapShows()
    ensures Shows(View(Map()), Towards(Map(), Along(), T))
  {
    RoadCost(1, A, 1.0);
    RoadCost(2, X, 15.0);
    RoadCost(3, T, 24.0);
    RoadCost(4, X, 10.0);
    RoadCost(5, T, 10.0);
    hide EdgeCost;
  }

  // ----- the run ------------------------------------------------------------------------------

  const AT_S := Entry(21.0, 0.0, S)
  const AT_A := Entry(21.0, 1.0, A)
  const AT_X := Entry(15.0, 15.0, X)
  const AT_X_AGAIN := Entry(11.0, 11.0, X)
  const AT_T := Entry(24.0, 24.0, T)

  function Begun(): State {
    State(map[S := 0.0], map[], {}, multiset{AT_S})
  }

  function LeftS(): State {
    State(map[S := 0.0, A := 1.0, X := 15.0, T := 24.0], map[A := Hop(S, SA), X := Hop(S, SX), T := Hop(S, ST)],
          {S}, multiset{AT_A, AT_X, AT_T})
  }

  function LeftX(): State {
    LeftS().(settled := {S, X}, heap := multiset{AT_A, AT_T})
  }

  /** X is reached more cheaply now, but it is closed. */
  function LeftA(): State {
    State(map[S := 0.0, A := 1.0, X := 11.0, T := 24.0], map[A := Hop(S, SA), X := Hop(A, AX), T := Hop(S, ST)],
          {S, A, X}, multiset{AT_T, AT_X_AGAIN})
  }

  function Last(): State {
    LeftA().(heap := multiset{AT_T})
  }

  function Reached(n: nat): State
    requires n <= 2
  {
    if n == 0 then State(map[S := 0.0], map[], {S}, multiset{})
    else if n == 1 then State(map[S := 0.0, A := 1.0], map[A := Hop(S, SA)], {S}, multiset{AT_A})
    else State(map[S := 0.0, A := 1.0, X := 15.0], map[A := Hop(S, SA), X := Hop(S, SX)], {S}, multiset{AT_A, AT_X})
  }

  lemma RelaxingS(g: Network, h: int -> real)
    requires Shows(g, h)
    ensures Relax(g, h, Reached(0), S, 0.0, SA) == Reached(1)
    ensures Relax(g, h, Reached(1), S, 0.0, SX) == Reached(2)
    ensures Relax(g, h, Reached(2), S, 0.0, ST) == LeftS()
  {
  }

  lemma LeavingS(g: Network, h: int -> real)
    requires Shows(g, h)
    ensures Turn(g, h, T, Begun(), AT_S, LeftS())
  {
    RelaxingS(g, h);
    assert Settle(Begun(), AT_S) == Reached(0);
    hide Relax, Reached, LeftS;
    assert Relaxed(g, h, Reached(0), S, 0.0, 0) == Reached(0);
    assert Relaxed(g, h, Reached(0), S, 0.0, 1) == Reached(1);
    assert Relaxed(g, h, Reached(0), S, 0.0, 2) == Reached(2);
    assert Relaxed(g, h, Reached(0), S, 0.0, 3) == LeftS();
  }

  lemma LeavingX(g: Network, h: int -> real)
    requires Shows(g, h)
    ensures Turn(g, h, T, LeftS(), AT_X, LeftX())
  {
  }

  lemma LeavingA(g: Network, h: int -> real)
    requires Shows(g, h)
    ensures Turn(g, h, T, LeftX(), AT_A, LeftA())
  {
  }

  lemma SkippingX(g: Network, h: int -> real)
    ensures Turn(g, h, T, LeftA(), AT_X_AGAIN, Last())
  {
  }

  lemma OneTurn(g: Network, h: int -> real, n: nat, st: State, m: Entry, st': State)
    requires Turns(g, h, S, T, n, st) && Turn(g, h, T, st, m, st')
    ensures Turns(g, h, S, T, n + 1, st')
  {
    hide Turn;
  }

  lemma TIsNext()
    ensures IsMin(Last().heap, AT_T) && T !in Last().settled
  {
  }

  lemma ArrivingAtT(g: Network, h: int -> real)
    requires Shows(g, h)
    ensures Arrives(g, h, S, T, 4, Last(), AT_T)
  {
    assert Start(h, S) == Begun();
    NoTurns(g, h, S, T);
    LeavingS(g, h);
    LeavingX(g, h);
    LeavingA(g, h);
    SkippingX(g, h);
    OneTurn(g, h, 0, Begun(), AT_S, LeftS());
    OneTurn(g, h, 1, LeftS(), AT_X, LeftX());
    OneTurn(g, h, 2, LeftX(), AT_A, LeftA());
    OneTurn(g, h, 3, LeftA(), AT_X_AGAIN, Last());
    TIsNext();
    hide Turns, Turn, Begun, LeftS, LeftX, Last, Shows, IsMin;
  }

  lemma FindsDirectRoad(g: Network, h: int -> real, p: seq<Hop>)
    requires Shows(g, h) && Finds(g, h, S, T, p)
    ensures p == [Hop(S, ST)]
  {
    var n, st, m, rank :|
      Arrives(g, h, S, T, n, st, m) && Tree(g, S, st.prev, rank) && T in rank && p == TreePath(g, S, st.prev, rank, T);
    ArrivingAtT(g, h);
    if n <= 4 {
      ArrivalIsDetermined(g, h, S, T, n, st, m, 4, Last(), AT_T);
    } else {
      ArrivalIsDetermined(g, h, S, T, 4, Last(), AT_T, n, st, m);
    }
    assert st.prev[T] == Hop(S, ST);
    assert TreePath(g, S, st.prev, rank, S) == [];
  }

  lemma AlongIsMetric()
    ensures Metric(Along())
  {
  }

  lemma RoadsAreStraight(o: Live)
    requires o.adj == Map().adj && S in o.coords && A in o.coords && T in o.coords
    requires o.coords[S] == (21.0, 0.0) && o.coords[A] == (20.0, 0.0) && o.coords[T] == (0.0, 0.0)
    requires X in o.coords ==> o.coords[X] == (10.0, 0.0)
    ensures Straight(o, Along())
  {
    forall u, e | u in o.adj && e in o.adj[u] && u in o.coords && e.toNode in o.coords
      ensures Along()(o.coords[u], o.coords[e.toNode]) <= e.lengthM
    {
      assert u in [S, A, X, T] && e in [SA, SX, ST, AX, XT];
    }
  }

  /** No road is too short, and X could even be put on the map, ten metres from T. */
  lemma MapIsStraight()
    ensures Straight(Map(), Along())
    ensures Straight(Map().(coords := Map().coords[X := (10.0, 0.0)]), Along())
  {
    hide Straight;
    RoadsAreStraight(Map());
    RoadsAreStraight(Map().(coords := Map().coords[X := (10.0, 0.0)]));
  }

  lemma MapIsSound()
    ensures WellFormed(Map())
  {
  }

  function Shortcut(): seq<Hop> {
    [Hop(S, SA), Hop(A, AX), Hop(X, XT)]
  }

  lemma ShortcutIsPath(g: Network, h: int -> real)
    requires Shows(g, h)
    ensures IsPath(g, S, T, Shortcut()) && Cost(g, Shortcut()) == 21.0
  {
    assert Usable(g, Hop(S, SA)) && Usable(g, Hop(A, AX)) && Usable(g, Hop(X, XT));
    var one, two := [Hop(S, SA)], [Hop(S, SA), Hop(A, AX)];
    assert IsPath(g, S, S, []) && Cost(g, []) == 0.0;
    IsPathSnoc(g, S, [], Hop(S, SA));
    assert [] + [Hop(S, SA)] == one;
    IsPathSnoc(g, S, one, Hop(A, AX));
    assert one + [Hop(A, AX)] == two;
    IsPathSnoc(g, S, two, Hop(X, XT));
    assert two + [Hop(X, XT)] == Shortcut();
  }

  lemma DropsCheaply()
    ensures !NoCheapDrop(Map(), Along(), T)
  {
    RoadCost(2, X, 15.0);
    MapShows();
    hide EdgeCost, Heuristic;
    assert SX in Map().adj[S] && X !in Map().coords && S in Map().coords && T in Map().coords;
    assert Towards(Map(), Along(), T)(S) == Heuristic(Map(), Along(), S, T);
  }

  /**
   The documentation guarantees that A* is optimal. With a missing coordinate it is not:
   on this map it finds the direct road of 24 seconds, not the route of 21.
   */
  lemma AStarCanMissTheCheapest(p: seq<Hop>)
    requires Finds(View(Map()), Towards(Map(), Along(), T), S, T, p)
    ensures Cost(View(Map()), p) == 24.0
    ensures IsPath(View(Map()), S, T, Shortcut()) && Cost(View(Map()), Shortcut()) == 21.0
    ensures WellFormed(Map()) && Metric(Along()) && Straight(Map(), Along()) && !NoCheapDrop(Map(), Along(), T)
  {
    hide EdgeCost, Heuristic, NoCheapDrop, WellFormed, Metric, Straight;
    var g, h := View(Map()), Towards(Map(), Along(), T);
    MapShows();
    FindsDirectRoad(g, h, p);
    ShortcutIsPath(g, h);
    MapIsSound();
    MapIsStraight();
    AlongIsMetric();
    DropsCheaply();
    assert p[..0] == [];
  }
}
