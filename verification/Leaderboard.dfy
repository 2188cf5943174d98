/** The cost-accuracy Pareto frontier of the leaderboard. */
module Leaderboard {
  import opened Seqs
  import opened Sorting

  datatype Entry = Entry(harness: string, model: string, score: real, cost: real, costSource: string)

  /** Rows whose cost figure can be trusted. */
  function Metered(): Entry -> bool {
    (e: Entry) => e.costSource == "billed" || e.costSource == "estimated" || e.costSource == "console"
  }

  predicate Dominates(a: Entry, b: Entry) {
    a.score >= b.score && a.cost <= b.cost && (a.score > b.score || a.cost < b.cost)
  }

  predicate Dominated(rows: seq<Entry>, e: Entry) {
    exists k :: 0 <= k < |rows| && Dominates(rows[k], e)
  }

  function Undominated(rows: seq<Entry>): Entry -> bool { (e: Entry) => !Dominated(rows, e) }

  function Descending(): Entry -> real { (e: Entry) => -e.score }

  /** The frontier, best score first. */
  function Frontier(entries: seq<Entry>): seq<Entry> {
    var metered := Filter(Metered(), entries);
    SortBy(Descending(), Filter(Undominated(metered), metered))
  }

  method ParetoFrontier(entries: seq<Entry>) returns (frontier: seq<Entry>)
    ensures frontier == Frontier(entries)
  {
    var metered := Filter(Metered(), entries);
    frontier := [];
    for i := 0 to |metered|
      invariant frontier == Filter(Undominated(metered), metered[..i])
    {
      var dominated := false;
      for j := 0 to |metered|
        invariant dominated <==> exists k :: 0 <= k < j && Dominates(metered[k], metered[i])
      {
        if j != i && Dominates(metered[j], metered[i]) {
          dominated := true;
        }
      }
      assert metered[..i + 1] == metered[..i] + [metered[i]];
      FilterStep(Undominated(metered), metered[..i], metered[i]);
      if !dominated {
        frontier := frontier + [metered[i]];
      }
    }
    assert metered[..|metered|] == metered;
    frontier := SortBy(Descending(), frontier);
  }

  /** A row is on the frontier exactly when it is metered and no metered row dominates it. */
  lemma OnFrontier(entries: seq<Entry>, e: Entry)
    ensures e in Frontier(entries) <==>
      e in entries && Metered()(e) && forall o :: o in entries && Metered()(o) ==> !Dominates(o, e)
  {
    var metered := Filter(Metered(), entries);
    SortByMembers(Descending(), Filter(Undominated(metered), metered), e);
    FilterIn(Undominated(metered), metered, e);
    FilterIn(Metered(), entries, e);
    forall o ensures o in metered <==> o in entries && Metered()(o) {
      FilterIn(Metered(), entries, o);
    }
    if Dominated(metered, e) {
      var k :| 0 <= k < |metered| && Dominates(metered[k], e);
      assert metered[k] in metered;
    }
  }

  /** In terms of the columns: a row is on the frontier exactly when its cost is billed, estimated or
      from the console, and no other such row has at least its score at no more than its cost, with
      one of the two strictly better. */
  lemma FrontierByColumns(entries: seq<Entry>, e: Entry)
    ensures e in Frontier(entries) <==>
      e in entries && e.costSource in {"billed", "estimated", "console"} &&
      !exists o :: o in entries && o.costSource in {"billed", "estimated", "console"} &&
        o.score >= e.score && o.cost <= e.cost && !(o.score == e.score && o.cost == e.cost)
  {
    OnFrontier(entries, e);
  }

  /** No frontier row dominates another. */
  lemma FrontierIsSound(entries: seq<Entry>, a: Entry, b: Entry)
    requires a in Frontier(entries) && b in Frontier(entries)
    ensures !Dominates(a, b)
  {
    OnFrontier(entries, a);
    OnFrontier(entries, b);
  }

  /** The metered rows that dominate `e`. */
  function Dominators(entries: seq<Entry>, e: Entry): set<Entry> {
    set o | o in entries && Metered()(o) && Dominates(o, e)
  }

  /** Whatever dominates a dominator dominates too, so climbing leaves fewer dominators. */
  lemma FewerDominators(entries: seq<Entry>, o: Entry, e: Entry)
    requires o in entries && Metered()(o) && Dominates(o, e)
    ensures |Dominators(entries, o)| < |Dominators(entries, e)|
  {
    var fewer, all := Dominators(entries, o), Dominators(entries, e);
    assert o in all && o !in fewer;
    assert all == fewer + (all - fewer);
  }

  /** Every metered row off the frontier is dominated by a row on it. */
  lemma {:induction false} FrontierIsComplete(entries: seq<Entry>, e: Entry)
    requires e in entries && Metered()(e) && e !in Frontier(entries)
    ensures exists f :: f in Frontier(entries) && Dominates(f, e)
    decreases |Dominators(entries, e)|
  {
    OnFrontier(entries, e);
    var o :| o in entries && Metered()(o) && Dominates(o, e);
    if o !in Frontier(entries) {
      FewerDominators(entries, o, e);
      FrontierIsComplete(entries, o);
      var f :| f in Frontier(entries) && Dominates(f, o);
      assert Dominates(f, e);
    }
  }

  /** Along the frontier scores do not rise, and neither do costs. */
  lemma FrontierIsMonotone(entries: seq<Entry>, i: nat, j: nat)
    requires i < j < |Frontier(entries)|
    ensures Frontier(entries)[i].score >= Frontier(entries)[j].score
    ensures Frontier(entries)[i].cost >= Frontier(entries)[j].cost
  {
    var metered := Filter(Metered(), entries);
    SortBySorts(Descending(), Filter(Undominated(metered), metered));
    assert Descending()(Frontier(entries)[i]) <= Descending()(Frontier(entries)[j]);
    FrontierIsSound(entries, Frontier(entries)[i], Frontier(entries)[j]);
    FrontierIsSound(entries, Frontier(entries)[j], Frontier(entries)[i]);
  }

  /** Documented is that only a row with a higher score and a lower cost dominates. */
  predicate BothBetter(a: Entry, b: Entry) { a.score > b.score && a.cost < b.cost }

  /** Of two metered rows with one score only the cheaper is on the frontier, although by the
      documentation neither dominates the other. */
  lemma EqualScoresCompared(a: Entry, b: Entry)
    requires Metered()(a) && Metered()(b) && a.score == b.score && a.cost < b.cost
    ensures a in Frontier([a, b]) && b !in Frontier([a, b])
    ensures !BothBetter(a, b) && !BothBetter(b, a)
  {
    OnFrontier([a, b], a);
    OnFrontier([a, b], b);
    assert a in [a, b];
  }

  /** The rows but those at the dropped positions. */
  function Without(entries: seq<Entry>, dropped: set<nat>): seq<Entry> {
    if entries == [] then []
    else
      var n := |entries| - 1;
      Without(entries[..n], dropped) + if n in dropped then [] else [entries[n]]
  }

  ghost predicate UnknownAt(entries: seq<Entry>, dropped: set<nat>) {
    forall i: nat :: i in dropped && i < |entries| ==> !Metered()(entries[i])
  }

  lemma {:induction false} MeteredWithout(entries: seq<Entry>, dropped: set<nat>)
    requires UnknownAt(entries, dropped)
    ensures Filter(Metered(), Without(entries, dropped)) == Filter(Metered(), entries)
  {
    if entries != [] {
      var n := |entries| - 1;
      MeteredWithout(entries[..n], dropped);
      assert entries == entries[..n] + [entries[n]];
      FilterStep(Metered(), Without(entries[..n], dropped), entries[n]);
      assert Without(entries[..n], dropped) + [] == Without(entries[..n], dropped);
    }
  }

  /** Rows of unknown cost change nothing, wherever they stand: two boards that are equal once
      such rows are dropped from each, at whatever positions, have one frontier. */
  lemma UnknownCostChangesNothing(xs: seq<Entry>, ys: seq<Entry>, fromXs: set<nat>, fromYs: set<nat>)
    requires UnknownAt(xs, fromXs) && UnknownAt(ys, fromYs)
    requires Without(xs, fromXs) == Without(ys, fromYs)
    ensures Frontier(xs) == Frontier(ys)
  {
    MeteredWithout(xs, fromXs);
    MeteredWithout(ys, fromYs);
  }
}
