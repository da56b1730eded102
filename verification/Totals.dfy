/** The totals of an evacuation plan: what balances cell by cell balances in all. */
module Totals {
  import opened Books

  function PeoplePlaced(xs: seq<Assignment>): int {
    if xs == [] then 0 else PeoplePlaced(xs[..|xs| - 1]) + xs[|xs| - 1].people
  }

  function PeopleUnplaced(us: seq<Unassigned>): int {
    if us == [] then 0 else PeopleUnplaced(us[..|us| - 1]) + us[|us| - 1].people
  }

  function PeopleIn(zones: seq<Zone>): int {
    if zones == [] then 0 else PeopleIn(zones[..|zones| - 1]) + zones[|zones| - 1].people
  }

  // ----- entries of people by cell ------------------------------------------------------------

  datatype Entry = Entry(cell: string, people: int)

  function Sum(es: seq<Entry>): int {
    if es == [] then 0 else Sum(es[..|es| - 1]) + es[|es| - 1].people
  }

  function Tally(es: seq<Entry>, cell: string): int {
    if es == [] then 0
    else Tally(es[..|es| - 1], cell) + if es[|es| - 1].cell == cell then es[|es| - 1].people else 0
  }

  function Apart(es: seq<Entry>, cell: string): seq<Entry> {
    if es == [] then []
    else Apart(es[..|es| - 1], cell) + if es[|es| - 1].cell == cell then [] else [es[|es| - 1]]
  }

  lemma SumOneMore(es: seq<Entry>, e: Entry)
    ensures Sum(es + [e]) == Sum(es) + e.people
    ensures forall c :: Tally(es + [e], c) == Tally(es, c) + if e.cell == c then e.people else 0
  {
    assert (es + [e])[..|es|] == es;
  }

  lemma {:induction false} ApartTallies(es: seq<Entry>, cell: string)
    ensures Sum(es) == Tally(es, cell) + Sum(Apart(es, cell))
    ensures forall c :: Tally(Apart(es, cell), c) == if c == cell then 0 else Tally(es, c)
    ensures |Apart(es, cell)| <= |es| && (es != [] && es[|es| - 1].cell == cell ==> |Apart(es, cell)| < |es|)
  {
    if es != [] {
      var init, last := es[..|es| - 1], es[|es| - 1];
      ApartTallies(init, cell);
      if last.cell != cell {
        SumOneMore(Apart(init, cell), last);
      } else {
        assert Apart(es, cell) == Apart(init, cell);
      }
    }
  }

  /** Entries that cancel in every cell cancel in all. */
  lemma {:induction false} CancelInAll(es: seq<Entry>)
    requires forall c :: Tally(es, c) == 0
    ensures Sum(es) == 0
    decreases |es|
  {
    if es != [] {
      var cell := es[|es| - 1].cell;
      ApartTallies(es, cell);
      CancelInAll(Apart(es, cell));
    }
  }

  // ----- the plan -----------------------------------------------------------------------------

  function Ledger(xs: seq<Assignment>, us: seq<Unassigned>, zones: seq<Zone>): seq<Entry> {
    if xs != [] then Ledger(xs[..|xs| - 1], us, zones) + [Entry(xs[|xs| - 1].cellId, xs[|xs| - 1].people)]
    else if us != [] then Ledger(xs, us[..|us| - 1], zones) + [Entry(us[|us| - 1].cellId, us[|us| - 1].people)]
    else if zones != [] then
      Ledger(xs, us, zones[..|zones| - 1]) + [Entry(zones[|zones| - 1].cellId, -zones[|zones| - 1].people)]
    else []
  }

  lemma {:induction false} LedgerSums(xs: seq<Assignment>, us: seq<Unassigned>, zones: seq<Zone>)
    ensures Sum(Ledger(xs, us, zones)) == PeoplePlaced(xs) + PeopleUnplaced(us) - PeopleIn(zones)
    ensures forall c :: Tally(Ledger(xs, us, zones), c) == PeopleFrom(xs, c) + Unplaced(us, c) - Living(zones, c)
    decreases |xs|, |us|, |zones|
  {
    if xs != [] {
      LedgerSums(xs[..|xs| - 1], us, zones);
      SumOneMore(Ledger(xs[..|xs| - 1], us, zones), Entry(xs[|xs| - 1].cellId, xs[|xs| - 1].people));
    } else if us != [] {
      LedgerSums(xs, us[..|us| - 1], zones);
      SumOneMore(Ledger(xs, us[..|us| - 1], zones), Entry(us[|us| - 1].cellId, us[|us| - 1].people));
    } else if zones != [] {
      LedgerSums(xs, us, zones[..|zones| - 1]);
      SumOneMore(Ledger(xs, us, zones[..|zones| - 1]), Entry(zones[|zones| - 1].cellId, -zones[|zones| - 1].people));
    }
  }

  /** People placed and people unplaced make up everyone, if they do so in each cell. */
  lemma EveryoneIsCounted(xs: seq<Assignment>, us: seq<Unassigned>, zones: seq<Zone>)
    requires forall c :: PeopleFrom(xs, c) + Unplaced(us, c) == Living(zones, c)
    ensures PeoplePlaced(xs) + PeopleUnplaced(us) == PeopleIn(zones)
  {
    LedgerSums(xs, us, zones);
    CancelInAll(Ledger(xs, us, zones));
  }
}
