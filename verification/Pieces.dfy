// The pieces a refresh keeps: where each one ends, and that the IDs in the list stay unique.
module Pieces {
  import opened Wrappers
  import opened Prices
  import opened Names
  import opened Refresh
  import opened Coverage

  // ---- Exact ends ----

  lemma FateMeaning(given: Given, listed: seq<Price>, prior: Price, region: string, until: Option<Day>)
    ensures FateIn(given, listed, prior, region) == Kept(until) <==>
      (match First(given, listed, prior.line, region)
       case None => until.None?
       case Some(first) => Begins(given, first, region) > prior.from && until == Some(Begins(given, first, region) - 1))
  {
  }

  // A regional price's pieces: each is nonempty, and ends the day before the replacement begins in every region
  // it lists, or does not end where there is none; and no region is in two of them.
  lemma RegionalCuts(given: Given, listed: seq<Price>, prior: Price, j: nat)
    requires !Unchanged(prior, listed) && prior.until.None? && prior.regions.Some? && j < |Cuts(given, listed, prior)|
    ensures var cut := Cuts(given, listed, prior)[j];
      && cut.regions.Some? && Ordered(cut.regions.value)
      && (forall r :: r in cut.regions.value ==>
            r in prior.regions.value && FateIn(given, listed, prior, r) == Kept(cut.until))
      && forall k, r :: j < k < |Cuts(given, listed, prior)| && r in cut.regions.value ==>
            Cuts(given, listed, prior)[k].regions.Some? && r !in Cuts(given, listed, prior)[k].regions.value
  {
    var groups := Ends(given, listed, prior, prior.regions.value);
    EndCutAt(groups, 0);
    EndCutAt(groups, j);
    SortNamesMeaning(groups[j].names);
    forall r | r in groups[j].names
      ensures r in prior.regions.value && FateIn(given, listed, prior, r) == Kept(groups[j].day)
    {
      EndsMeaning(given, listed, prior, prior.regions.value, groups[j].day, r);
    }
    forall k, r | j < k < |groups| && r in groups[j].names
      ensures EndCuts(groups)[k].regions.Some? && r !in EndCuts(groups)[k].regions.value
    {
      EndCutAt(groups, k);
      SortNamesMeaning(groups[k].names);
      EndsMeaning(given, listed, prior, prior.regions.value, groups[j].day, r);
      assert Earlier(groups[j].day, groups[k].day);
      if r in groups[k].names {
        EndsMeaning(given, listed, prior, prior.regions.value, groups[k].day, r);
      }
    }
  }

  // The cuts of a regionless price with a replacement in its place.
  function RegionlessCutsOf(given: Given, prior: Price, price: Price): seq<Cut> {
    RegionlessCuts(prior, price.from, LaterGroups(given, price))
  }

  lemma RegionlessCutsAre(given: Given, listed: seq<Price>, prior: Price)
    requires !Unchanged(prior, listed) && prior.until.None? && prior.regions.None?
    requires Successor(listed, prior.line) < |listed| && listed[Successor(listed, prior.line)].amounts != prior.amounts
    ensures Cuts(given, listed, prior) == RegionlessCutsOf(given, prior, listed[Successor(listed, prior.line)])
  {
  }

  // The first ends the day before the replacement starts, and each later one the day before the replacement begins
  // in every region it lists.
  lemma RegionlessPiece(given: Given, prior: Price, price: Price, j: nat)
    requires j < |RegionlessCutsOf(given, prior, price)|
    ensures var cut := RegionlessCutsOf(given, prior, price)[j];
      && cut.until.Some? && prior.from <= cut.until.value
      && (cut.regions.None? ==> cut.until.value == price.from - 1)
      && (cut.regions.Some? ==> forall r :: r in cut.regions.value ==>
            cut.until.value == Begins(given, price, r) - 1 && Begins(given, price, r) > price.from)
  {
    var groups, head := LaterGroups(given, price), |CutAt(prior, price.from, None)|;
    hide LaterGroups, Begins, SortNames, LaterCuts;
    if j >= head {
      var i := LaterCutAt(prior, groups, j - head);
      SortNamesMeaning(groups[i].names);
      forall r | r in groups[i].names
        ensures groups[i].day == Some(Begins(given, price, r)) && Begins(given, price, r) > price.from
      {
        LaterGroupMeaning(given, price, i, r);
      }
    }
  }

  // No region is in two of them.
  lemma RegionlessDisjoint(given: Given, prior: Price, price: Price, j: nat, k: nat, r: string)
    requires j < k < |RegionlessCutsOf(given, prior, price)|
    requires RegionlessCutsOf(given, prior, price)[j].regions.Some?
      && r in RegionlessCutsOf(given, prior, price)[j].regions.value
    ensures RegionlessCutsOf(given, prior, price)[k].regions.Some?
    ensures r !in RegionlessCutsOf(given, prior, price)[k].regions.value
  {
    var groups, head := LaterGroups(given, price), |CutAt(prior, price.from, None)|;
    hide LaterGroups, Begins, SortNames, LaterCuts;
    var a, b := LaterCutPair(prior, groups, j - head, k - head);
    SortNamesMeaning(groups[a].names);
    SortNamesMeaning(groups[b].names);
    LaterGroupsOrdered(given, price);
    assert Earlier(groups[a].day, groups[b].day);
    LaterGroupMeaning(given, price, a, r);
    if r in groups[b].names {
      LaterGroupMeaning(given, price, b, r);
    }
  }

  lemma LaterGroupMeaning(given: Given, price: Price, i: nat, r: string)
    requires i < |LaterGroups(given, price)| && r in LaterGroups(given, price)[i].names
    ensures LaterGroups(given, price)[i].day == Some(Begins(given, price, r)) && Begins(given, price, r) > price.from
  {
    LaterMeaning(given, price, RegionStarts(price, given.index.value), LaterGroups(given, price)[i].day, r);
  }

  lemma LaterGroupsOrdered(given: Given, price: Price)
    ensures OrderedDays(LaterGroups(given, price))
  {
    if given.index.Some? {
      LaterMeaning(given, price, RegionStarts(price, given.index.value), None, "");
    }
  }

  // Carried price i is piece j of old price k, cut as the list stood when that price was gone through.
  ghost predicate Origin(given: Given, state: State, current: seq<Price>, i: nat, k: nat, j: nat)
    requires AllKnown(given, current)
  {
    k < |current|
    && var (before, after) := (Refreshed(given, state, current[..k]), Refreshed(given, state, current));
    var cuts := Cuts(given, before.listed, current[k]);
    j < |cuts| && i == |before.carried| + j < |after.carried| && FromCut(current[k], cuts[j], after.carried[i])
  }

  lemma OriginOfMore(given: Given, state: State, current: seq<Price>, i: nat, k: nat, j: nat)
    requires AllKnown(given, current) && |current| > 0 && Origin(given, state, current[..|current| - 1], i, k, j)
    ensures Origin(given, state, current, i, k, j)
  {
    hide Refreshed, Cuts, FromCut, Step;
    var front, last := current[..|current| - 1], current[|current| - 1];
    assert front[..k] == current[..k];
    RefreshedSplits(given, state, current);
    StepGrows(given, Refreshed(given, state, front), last);
  }

  // Every carried price is a piece of some old price.
  lemma {:induction false} CarriedOrigin(given: Given, state: State, current: seq<Price>, i: nat)
    returns (k: nat, j: nat)
    requires AllKnown(given, current) && state.carried == [] && i < |Refreshed(given, state, current).carried|
    ensures Origin(given, state, current, i, k, j)
  {
    hide Step, Cuts, FromCut, Known, ListedAfter, Refreshed, Origin;
    NothingCarried(given, state);
    var front, last := current[..|current| - 1], current[|current| - 1];
    var before := Refreshed(given, state, front);
    RefreshedSplits(given, state, current);
    if i < |before.carried| {
      k, j := CarriedOrigin(given, state, front, i);
      OriginOfMore(given, state, current, i, k, j);
    } else {
      k, j := |current| - 1, i - |before.carried|;
      CarriedCount(given, before, last);
      StepPiece(given, before, last, j);
      OriginOfLast(given, state, current, j);
    }
  }

  lemma OriginOfLast(given: Given, state: State, current: seq<Price>, j: nat)
    requires AllKnown(given, current) && |current| > 0
    requires var (before, last) := (Refreshed(given, state, current[..|current| - 1]), current[|current| - 1]);
      j < |Cuts(given, before.listed, last)| && |before.carried| + j < |Step(given, before, last).carried|
      && FromCut(last, Cuts(given, before.listed, last)[j], Step(given, before, last).carried[|before.carried| + j])
    ensures Origin(given, state, current, |Refreshed(given, state, current[..|current| - 1]).carried| + j,
                   |current| - 1, j)
  {
    hide Step, Cuts, FromCut, ListedAfter;
    RefreshedSplits(given, state, current);
  }

  lemma RefreshedSplits(given: Given, state: State, current: seq<Price>)
    requires AllKnown(given, current) && |current| > 0
    ensures Refreshed(given, state, current)
         == Step(given, Refreshed(given, state, current[..|current| - 1]), current[|current| - 1])
  {
  }

  lemma NothingCarried(given: Given, state: State)
    ensures Refreshed(given, state, []) == state
  {
  }

  lemma CarriedCount(given: Given, state: State, prior: Price)
    requires Known(given, prior.sourceIds)
    ensures |Step(given, state, prior).carried| == |state.carried| + |Cuts(given, state.listed, prior)|
  {
    StepCarries(given, state, prior);
    CarryAllShape(given, Prepared(state, prior), prior, Cuts(given, state.listed, prior));
  }

  // Pieces of one old price list no region in common.
  lemma PiecesDisjoint(given: Given, state: State, current: seq<Price>, k: nat, i: nat, j: nat, i': nat, j': nat,
                       r: string)
    requires AllKnown(given, current) && i < i'
    requires Origin(given, state, current, i, k, j) && Origin(given, state, current, i', k, j')
    requires var piece := Refreshed(given, state, current).carried[i]; piece.regions.Some? && r in piece.regions.value
    ensures var other := Refreshed(given, state, current).carried[i']; other.regions.Some? && r !in other.regions.value
  {
    hide Refreshed;
    var prior, listed := current[k], Refreshed(given, state, current[..k]).listed;
    if prior.regions.Some? {
      RegionalCuts(given, listed, prior, j);
    } else {
      RegionlessCutsAre(given, listed, prior);
      RegionlessDisjoint(given, prior, listed[Successor(listed, prior.line)], j, j', r);
    }
  }

  // ---- No region twice ----

  lemma NoRepeatsNext(names: seq<string>, name: string)
    requires NoRepeats(names) && name !in names
    ensures NoRepeats(names + [name])
  {
    assert multiset(names)[name] == 0;
  }

  lemma {:induction false} PutNoRepeats(groups: seq<Group>, day: Option<Day>, name: string)
    requires forall g :: g in groups ==> NoRepeats(g.names) && name !in g.names
    ensures forall g :: g in Put(groups, day, name) ==> NoRepeats(g.names)
  {
    hide NoRepeats;
    NoRepeatsOne(name);
    if groups == [] {
    } else {
      assert groups == [groups[0]] + groups[1..];
      PutNoRepeats(groups[1..], day, name);
      NoRepeatsNext(groups[0].names, name);
    }
  }

  lemma NoRepeatsOne(name: string)
    ensures NoRepeats([name])
  {
  }

  lemma {:induction false} LaterNoRepeats(given: Given, price: Price, starts: Starts)
    requires DistinctRegions(starts)
    ensures forall g :: g in Later(given, price, starts) ==> NoRepeats(g.names)
  {
    hide NoRepeats, Begins;
    if starts == [] {
    } else {
      var front, region := starts[..|starts| - 1], starts[|starts| - 1].0;
      LaterNoRepeats(given, price, front);
      forall g | g in Later(given, price, front) ensures region !in g.names {
        LaterMeaning(given, price, front, g.day, region);
      }
      PutNoRepeats(Later(given, price, front), Some(Begins(given, price, region)), region);
    }
  }

  lemma LaterGroupsNoRepeats(given: Given, price: Price)
    ensures forall g :: g in LaterGroups(given, price) ==> NoRepeats(g.names)
  {
    hide NoRepeats;
    if given.index.Some? {
      var meters := price.meters;
      if meters.Some? && meters.value.product.Some? {
        StartsUpToDistinct(given.index.value, meters.value.product.value, MeterList(meters.value), price.line.cloud);
      }
      LaterNoRepeats(given, price, RegionStarts(price, given.index.value));
    }
  }

  lemma {:induction false} EndsNoRepeats(given: Given, listed: seq<Price>, prior: Price, regions: seq<string>)
    requires NoRepeats(regions)
    ensures forall g :: g in Ends(given, listed, prior, regions) ==> NoRepeats(g.names)
  {
    if regions == [] {
    } else {
      var front, region := regions[..|regions| - 1], regions[|regions| - 1];
      assert regions == front + [region];
      NoRepeatsFront(front, region);
      hide NoRepeats, FateIn;
      EndsNoRepeats(given, listed, prior, front);
      forall g | g in Ends(given, listed, prior, front) ensures region !in g.names {
        EndsMeaning(given, listed, prior, front, g.day, region);
      }
      var fate := FateIn(given, listed, prior, region);
      if fate.Kept? {
        PutNoRepeats(Ends(given, listed, prior, front), fate.until, region);
      }
    }
  }

  lemma NoRepeatsFront(front: seq<string>, name: string)
    requires NoRepeats(front + [name])
    ensures NoRepeats(front) && name !in front
  {
    assert multiset(front + [name]) == multiset(front) + multiset{name};
    forall n ensures multiset(front)[n] <= 1 {
      assert multiset(front + [name])[n] <= 1;
    }
    assert multiset(front + [name])[name] <= 1;
  }

  // No piece lists a region twice, unless the old price did.
  lemma PieceNoRepeats(given: Given, listed: seq<Price>, prior: Price, j: nat)
    requires j < |Cuts(given, listed, prior)| && (prior.regions.Some? ==> NoRepeats(prior.regions.value))
    ensures var cut := Cuts(given, listed, prior)[j]; cut.regions.Some? ==> NoRepeats(cut.regions.value)
  {
    hide LaterGroups, Begins, SortNames, LaterCuts, Ends;
    if prior.until.Some? {
    } else if prior.regions.Some? {
      var groups := Ends(given, listed, prior, prior.regions.value);
      EndCutAt(groups, 0);
      EndCutAt(groups, j);
      EndsNoRepeats(given, listed, prior, prior.regions.value);
      SortNamesMeaning(groups[j].names);
      assert groups[j] in groups;
    } else if Successor(listed, prior.line) < |listed| {
      var price := listed[Successor(listed, prior.line)];
      RegionlessCutsAre(given, listed, prior);
      var groups, head := LaterGroups(given, price), |CutAt(prior, price.from, None)|;
      if j >= head {
        var i := LaterCutAt(prior, groups, j - head);
        LaterGroupsNoRepeats(given, price);
        SortNamesMeaning(groups[i].names);
        assert groups[i] in groups;
      }
    }
  }

  // ---- Where the pieces end ----

  // As the list stood when an old price was gone through: every piece that is newly closed covers at least one day, and
  // ends the day before its replacement began.
  lemma EndsWhenCut(given: Given, listed: seq<Price>, prior: Price, j: nat, piece: Price)
    requires prior.until.None? && j < |Cuts(given, listed, prior)|
      && FromCut(prior, Cuts(given, listed, prior)[j], piece)
    requires piece.until.Some?
    ensures piece.from <= piece.until.value
    ensures prior.regions.Some? ==> piece.regions.Some? && forall r :: r in piece.regions.value ==>
      r in prior.regions.value && TakesOver(given, listed, prior.line, r) == Some(piece.until.value + 1)
    ensures prior.regions.None? ==>
      Successor(listed, prior.line) < |listed| && EndsBefore(given, listed[Successor(listed, prior.line)], piece)
  {
    if prior.regions.Some? {
      RegionalCuts(given, listed, prior, j);
      NonemptyCut(given, listed, prior, j);
      forall r | r in piece.regions.value
        ensures TakesOver(given, listed, prior.line, r) == Some(piece.until.value + 1) {
        FateMeaning(given, listed, prior, r, piece.until);
      }
    } else if Successor(listed, prior.line) < |listed| {
      RegionlessCutsAre(given, listed, prior);
      RegionlessPiece(given, prior, listed[Successor(listed, prior.line)], j);
    }
  }

  // The day the first of a line's prices takes over in a region.
  function TakesOver(given: Given, listed: seq<Price>, line: Line, region: string): Option<Day> {
    var first := First(given, listed, line, region);
    if first.None? then None else Some(Begins(given, first.value, region))
  }

  // The whole piece ends the day before the price starts, and a piece for some regions the day before it begins there,
  // which is later.
  ghost predicate EndsBefore(given: Given, price: Price, piece: Price) {
    piece.until.Some?
    && (piece.regions.None? ==> piece.until.value == price.from - 1)
    && (piece.regions.Some? ==> forall r :: r in piece.regions.value ==>
          piece.until.value == Begins(given, price, r) - 1 && Begins(given, price, r) > price.from)
  }

  // ---- Where the rebuilt prices start in the end ----

  // A regionless old price that a rebuilt one has the amounts of takes that price's start back to its own.
  predicate Absorbs(old_: Price, price: Price) {
    old_.until.None? && old_.regions.None? && price.regions.None? && old_.line == price.line
      && old_.amounts == price.amounts
  }

  // The earliest of its own start and those of the old prices it absorbs.
  function StartAfter(price: Price, current: seq<Price>): Day {
    if current == [] then price.from
    else
      var front, last := StartAfter(price, current[..|current| - 1]), current[|current| - 1];
      if Absorbs(last, price) && last.from < front then last.from else front
  }

  function AsOf(rebuilt: seq<Price>, current: seq<Price>): seq<Price> {
    seq(|rebuilt|, i requires 0 <= i < |rebuilt| => rebuilt[i].(from := StartAfter(rebuilt[i], current)))
  }

  lemma ListedStep(listed: seq<Price>, prior: Price, i: nat)
    requires OneRegionless(listed) && i < |listed|
    ensures ListedAfter(listed, prior)[i]
         == listed[i].(from := if Absorbs(prior, listed[i]) && prior.from < listed[i].from then prior.from
                       else listed[i].from)
  {
    var k := Successor(listed, prior.line);
    if Absorbs(prior, listed[i]) {
      OneOfLine(listed, i, k);
      if Unchanged(prior, listed) {
        var j :| 0 <= j < |listed| && prior.Same(listed[j]);
        OneOfLine(listed, i, j);
      }
    }
  }

  // The rebuilt list after some old prices are gone through, said of the two lists alone.
  lemma {:induction false} ListedAsOf(given: Given, state: State, current: seq<Price>)
    requires AllKnown(given, current) && OneRegionless(state.listed)
    ensures Refreshed(given, state, current).listed == AsOf(state.listed, current)
  {
    if current == [] {
    } else {
      hide Step, ListedAfter;
      var front, last := current[..|current| - 1], current[|current| - 1];
      ListedAsOf(given, state, front);
      RefreshedSplits(given, state, current);
      var before := Refreshed(given, state, front);
      StepGrows(given, before, last);
      forall i | 0 <= i < |state.listed| ensures ListedAfter(before.listed, last)[i] == AsOf(state.listed, current)[i] {
        ListedStep(before.listed, last, i);
      }
    }
  }

  lemma {:induction false} StartAfterMeaning(price: Price, current: seq<Price>, k: nat, m: nat)
    requires k <= m < |current|
    ensures StartAfter(price, current) <= StartAfter(price, current[..k])
    ensures Absorbs(current[m], price) ==> StartAfter(price, current) <= current[m].from
    ensures StartAfter(price, current) == StartAfter(price, current[..k])
         || exists n ::
              k <= n < |current| && Absorbs(current[n], price) && StartAfter(price, current) == current[n].from
  {
    var front := current[..|current| - 1];
    assert k < |current| ==> front[..k] == current[..k];
    if k < |front| {
      StartAfterMeaning(price, front, k, if m < |front| then m else k);
    }
  }

  // ---- Whether a piece still ends exactly in the end ----

  // A later old price takes a rebuilt one back, in the region, to before the day that ended the piece.
  ghost predicate Overtaken(given: Given, rebuilt: seq<Price>, current: seq<Price>, k: nat, region: string)
    requires k < |current|
  {
    var day := TakesOver(given, AsOf(rebuilt, current[..k]), current[k].line, region);
    day.Some? && exists i, m ::
      && 0 <= i < |rebuilt| && k < m < |current|
      && OvertakenBy(given, rebuilt[i], current[k].line, current[m], region, day.value)
  }

  predicate OvertakenBy(given: Given, price: Price, line: Line, old_: Price, region: string, day: Day) {
    Covering(price, line, region) && Absorbs(old_, price) && Begins(given, price.(from := old_.from), region) < day
  }

  // Backdating takes a price back in a region to at most where any of the old prices it absorbs would take it, and no
  // further.
  lemma BackdatedBegins(given: Given, price: Price, current: seq<Price>, k: nat, region: string)
    requires k <= |current|
    ensures var (was, final) := (price.(from := StartAfter(price, current[..k])),
                                 price.(from := StartAfter(price, current)));
      && Begins(given, final, region) <= Begins(given, was, region)
      && (forall m :: k <= m < |current| && Absorbs(current[m], price) ==>
            Begins(given, final, region) <= Begins(given, price.(from := current[m].from), region))
      && (Begins(given, final, region) == Begins(given, was, region)
          || exists m :: k <= m < |current| && Absorbs(current[m], price)
                         && Begins(given, final, region) == Begins(given, price.(from := current[m].from), region))
  {
    var (was, final) := (price.(from := StartAfter(price, current[..k])), price.(from := StartAfter(price, current)));
    if k == |current| {
      assert current[..k] == current;
    } else {
      StartAfterMeaning(price, current, k, k);
      BeginsMonotone(given, final, was, region);
      forall m | k <= m < |current| && Absorbs(current[m], price)
        ensures Begins(given, final, region) <= Begins(given, price.(from := current[m].from), region)
      {
        StartAfterMeaning(price, current, k, m);
        BeginsMonotone(given, final, price.(from := current[m].from), region);
      }
    }
  }

  lemma BeginsMonotone(given: Given, a: Price, b: Price, region: string)
    requires a == b.(from := a.from) && a.from <= b.from
    ensures Begins(given, a, region) <= Begins(given, b, region)
  {
    if b.regions.None? && given.index.Some? {
      assert RegionStarts(a, given.index.value) == RegionStarts(b, given.index.value);
      StartBelow(RegionStarts(b, given.index.value), region, a.from, b.from);
    }
  }

  lemma FirstBegins(given: Given, listed: seq<Price>, line: Line, region: string) returns (i: nat)
    requires TakesOver(given, listed, line, region).Some?
    ensures i < |listed| && Covering(listed[i], line, region)
    ensures TakesOver(given, listed, line, region) == Some(Begins(given, listed[i], region))
  {
    FirstMeaning(given, listed, line, region);
    i :| 0 <= i < |listed| && listed[i] == First(given, listed, line, region).value;
  }

  lemma NoneBeginsEarlier(given: Given, listed: seq<Price>, line: Line, region: string, i: nat)
    requires i < |listed| && Covering(listed[i], line, region)
    ensures TakesOver(given, listed, line, region).Some?
    ensures TakesOver(given, listed, line, region).value <= Begins(given, listed[i], region)
  {
    FirstMeaning(given, listed, line, region);
  }

  // In a region, the replacement takes over in the end when it did as a piece was cut, unless it is overtaken; and then
  // it takes over earlier.
  lemma TakesOverInTheEnd(given: Given, rebuilt: seq<Price>, current: seq<Price>, k: nat, region: string)
    requires k < |current| && current[k].regions.Some?
    ensures var (was, final) := (TakesOver(given, AsOf(rebuilt, current[..k]), current[k].line, region),
                                 TakesOver(given, AsOf(rebuilt, current), current[k].line, region));
      was.Some? ==>
        final.Some? && final.value <= was.value
        && (final == was <==> !Overtaken(given, rebuilt, current, k, region))
  {
    hide Begins, StartAfter, First, TakesOver;
    var line, listed, final := current[k].line, AsOf(rebuilt, current[..k]), AsOf(rebuilt, current);
    var was := TakesOver(given, listed, line, region);
    if was.Some? {
      var i := FirstBegins(given, listed, line, region);
      BackdatedBegins(given, rebuilt[i], current, k, region);
      NoneBeginsEarlier(given, final, line, region, i);
      var f := FirstBegins(given, final, line, region);
      BackdatedBegins(given, rebuilt[f], current, k, region);
      NoneBeginsEarlier(given, listed, line, region, f);
      if Overtaken(given, rebuilt, current, k, region) {
        var o, m :| 0 <= o < |rebuilt| && k < m < |current|
          && OvertakenBy(given, rebuilt[o], line, current[m], region, was.value);
        BackdatedBegins(given, rebuilt[o], current, k, region);
        NoneBeginsEarlier(given, final, line, region, o);
      }
      if TakesOver(given, final, line, region) != was {
        var m :| k <= m < |current| && Absorbs(current[m], rebuilt[f])
                 && Begins(given, final[f], region) == Begins(given, rebuilt[f].(from := current[m].from), region);
        assert OvertakenBy(given, rebuilt[f], line, current[m], region, was.value);
      }
    }
  }

  // A later old price takes a rebuilt one's start back to before the day that ended the whole piece.
  ghost predicate OvertakenEverywhere(rebuilt: seq<Price>, current: seq<Price>, k: nat, s: nat)
    requires k < |current| && s < |rebuilt|
  {
    exists m :: k < m < |current| && Absorbs(current[m], rebuilt[s])
      && current[m].from < StartAfter(rebuilt[s], current[..k])
  }

  lemma StartsInTheEnd(given: Given, rebuilt: seq<Price>, current: seq<Price>, k: nat, s: nat)
    requires k < |current| && s < |rebuilt| && current[k].amounts != rebuilt[s].amounts
    ensures StartAfter(rebuilt[s], current) == StartAfter(rebuilt[s], current[..k])
      <==> !OvertakenEverywhere(rebuilt, current, k, s)
  {
    StartAfterMeaning(rebuilt[s], current, k, k);
    if OvertakenEverywhere(rebuilt, current, k, s) {
      var m :| k < m < |current| && Absorbs(current[m], rebuilt[s])
        && current[m].from < StartAfter(rebuilt[s], current[..k]);
      StartAfterMeaning(rebuilt[s], current, k, m);
    }
  }

  // A region of a piece that a region's own later start cut off keeps that start, whatever is absorbed.
  lemma OwnStartStays(given: Given, price: Price, current: seq<Price>, k: nat, region: string)
    requires k < |current|
    requires var was := price.(from := StartAfter(price, current[..k])); Begins(given, was, region) > was.from
    ensures Begins(given, price.(from := StartAfter(price, current)), region)
         == Begins(given, price.(from := StartAfter(price, current[..k])), region)
  {
    StartAfterMeaning(price, current, k, k);
    var (was, final) := (StartAfter(price, current[..k]), StartAfter(price, current));
    var starts := RegionStarts(price, given.index.value);
    assert RegionStarts(price.(from := was), given.index.value) == starts
      == RegionStarts(price.(from := final), given.index.value);
    StartAnyDefault(starts, region, was, final);
  }

  lemma {:induction false} StartAnyDefault(starts: Starts, region: string, a: Day, b: Day)
    requires StartOf(starts, region, a) != a
    ensures StartOf(starts, region, b) == StartOf(starts, region, a)
  {
    if starts[0].0 == region {
    } else {
      StartAnyDefault(starts[1..], region, a, b);
    }
  }

  // Every price that a refresh newly closes covers at least one day. In the list that the refresh returns, its
  // replacement begins no later than the day after it ends, in every region it lists; and exactly then, unless a later
  // old price takes the replacement back. A piece for the regions that begin later is never overtaken.
  lemma ExactEnds(given: Given, state: State, current: seq<Price>, i: nat) returns (k: nat, j: nat)
    requires AllKnown(given, current) && state.carried == [] && OneRegionless(state.listed)
    requires i < |Refreshed(given, state, current).carried|
    ensures Origin(given, state, current, i, k, j)
    ensures var (after, prior) := (Refreshed(given, state, current), current[k]);
      var (piece, s) := (after.carried[i], Successor(state.listed, prior.line));
      && piece.line == prior.line && piece.amounts == prior.amounts && piece.from == prior.from
      && (prior.until.Some? ==> piece.until == prior.until && piece.regions == prior.regions)
      && (prior.until.None? && piece.until.Some? ==>
            && piece.from <= piece.until.value
            && (prior.regions.Some? ==> piece.regions.Some? && forall r :: r in piece.regions.value ==>
                  r in prior.regions.value && EndsExactly(given, state.listed, after.listed, current, k, piece, r))
            && (prior.regions.None? ==>
                  && s < |state.listed| == |after.listed|
                  && (piece.regions.None? ==>
                        after.listed[s].from <= piece.until.value + 1
                        && (after.listed[s].from == piece.until.value + 1
                          <==> !OvertakenEverywhere(state.listed, current, k, s)))
                  && (piece.regions.Some? ==> forall r :: r in piece.regions.value ==>
                        Begins(given, after.listed[s], r) == piece.until.value + 1)))
  {
    hide Refreshed, Begins, First, StartAfter, FateIn, Cuts, Overtaken, RegionStarts;
    k, j := CarriedOrigin(given, state, current, i);
    var (prior, before, after) := (current[k], Refreshed(given, state, current[..k]), Refreshed(given, state, current));
    var piece := after.carried[i];
    ListedAsOf(given, state, current[..k]);
    ListedAsOf(given, state, current);
    if prior.until.Some? {
      EndedCut(given, before.listed, prior, j);
    } else if piece.until.Some? {
      EndsWhenCut(given, before.listed, prior, j, piece);
      if prior.regions.Some? {
        forall r | r in piece.regions.value
          ensures EndsExactly(given, state.listed, after.listed, current, k, piece, r) {
          TakesOverInTheEnd(given, state.listed, current, k, r);
        }
      } else {
        SuccessorShape(state.listed, before.listed, prior.line);
        var s := Successor(state.listed, prior.line);
        ReplacedAmounts(given, before.listed, prior, j);
        StartsInTheEnd(given, state.listed, current, k, s);
        StartAfterMeaning(state.listed[s], current, k, k);
        if piece.regions.Some? {
          forall r | r in piece.regions.value ensures Begins(given, after.listed[s], r) == piece.until.value + 1 {
            OwnStartStays(given, state.listed[s], current, k, r);
          }
        }
      }
    }
  }

  ghost predicate EndsExactly(given: Given, rebuilt: seq<Price>, final: seq<Price>, current: seq<Price>, k: nat,
                              piece: Price, region: string)
    requires k < |current|
  {
    var takes := TakesOver(given, final, piece.line, region);
    piece.until.Some? && takes.Some? && takes.value <= piece.until.value + 1
    && (takes.value == piece.until.value + 1 <==> !Overtaken(given, rebuilt, current, k, region))
  }

  lemma EndedCut(given: Given, listed: seq<Price>, prior: Price, j: nat)
    requires prior.until.Some? && j < |Cuts(given, listed, prior)|
    ensures Cuts(given, listed, prior)[j] == Cut(prior.regions, None)
  {
  }

  lemma ReplacedAmounts(given: Given, listed: seq<Price>, prior: Price, j: nat)
    requires prior.until.None? && prior.regions.None? && j < |Cuts(given, listed, prior)|
    requires Successor(listed, prior.line) < |listed|
    ensures listed[Successor(listed, prior.line)].amounts != prior.amounts
  {
  }

  // A piece is not overtaken in a region when every later old price that a rebuilt one absorbs starts no earlier than
  // it, or the region has a row of its own dated no earlier than the rebuilt price.
  lemma NotOvertaken(given: Given, rebuilt: seq<Price>, current: seq<Price>, k: nat, region: string)
    requires k < |current|
    requires forall i, m :: 0 <= i < |rebuilt| && k < m < |current| && Absorbs(current[m], rebuilt[i]) ==>
      rebuilt[i].from <= current[m].from || OwnRow(given, rebuilt[i], region)
    ensures !Overtaken(given, rebuilt, current, k, region)
  {
    hide First, StartAfter;
    var listed := AsOf(rebuilt, current[..k]);
    forall i, m | 0 <= i < |rebuilt| && k < m < |current| && Covering(rebuilt[i], current[k].line, region)
                  && Absorbs(current[m], rebuilt[i])
      ensures Begins(given, listed[i], region) <= Begins(given, rebuilt[i].(from := current[m].from), region)
    {
      hide RegionStarts;
      StartAfterMeaning0(rebuilt[i], current[..k]);
      if rebuilt[i].from <= current[m].from {
        BeginsMonotone(given, listed[i], rebuilt[i].(from := current[m].from), region);
      } else {
        OwnRowBegins(given, rebuilt[i], listed[i].from, region);
        OwnRowBegins(given, rebuilt[i], current[m].from, region);
      }
    }
    forall i | 0 <= i < |rebuilt| && Covering(rebuilt[i], current[k].line, region)
      ensures TakesOver(given, listed, current[k].line, region).Some?
      ensures TakesOver(given, listed, current[k].line, region).value <= Begins(given, listed[i], region)
    {
      NoneBeginsEarlier(given, listed, current[k].line, region, i);
    }
  }

  // Nor is a whole piece, when every later old price that its replacement absorbs starts no earlier than it.
  lemma NotOvertakenEverywhere(rebuilt: seq<Price>, current: seq<Price>, k: nat, s: nat)
    requires k < |current| && s < |rebuilt|
    requires forall m :: k < m < |current| && Absorbs(current[m], rebuilt[s]) ==> rebuilt[s].from <= current[m].from
    ensures !OvertakenEverywhere(rebuilt, current, k, s)
  {
    StartAfterMeaning0(rebuilt[s], current[..k]);
  }

  // A regionless price that is still in force.
  predicate OpenEverywhere(price: Price) {
    price.until.None? && price.regions.None?
  }

  // Easier to see: no open regionless price of the line comes later in the old list.
  ghost predicate NoneLater(current: seq<Price>, k: nat)
    requires k < |current|
  {
    forall m :: k < m < |current| && OpenEverywhere(current[m]) ==> current[m].line != current[k].line
  }

  lemma NoneLaterOvertakes(given: Given, rebuilt: seq<Price>, current: seq<Price>, k: nat)
    requires k < |current| && NoneLater(current, k)
    ensures forall region :: !Overtaken(given, rebuilt, current, k, region)
    ensures forall s :: 0 <= s < |rebuilt| && rebuilt[s].line == current[k].line ==>
      !OvertakenEverywhere(rebuilt, current, k, s)
  {
    hide AsOf, TakesOver, Begins, StartAfter;
  }

  // The API lists the region among the price's, from a day no earlier than the price's start.
  ghost predicate OwnRow(given: Given, price: Price, region: string) {
    given.index.Some? && Has(RegionStarts(price, given.index.value), region)
    && price.from <= StartOf(RegionStarts(price, given.index.value), region, price.from)
  }

  lemma OwnRowBegins(given: Given, price: Price, from: Day, region: string)
    requires OwnRow(given, price, region) && price.regions.None? && from <= price.from
    ensures Begins(given, price.(from := from), region)
      == StartOf(RegionStarts(price, given.index.value), region, price.from)
  {
    var starts := RegionStarts(price, given.index.value);
    assert RegionStarts(price.(from := from), given.index.value) == starts;
    HasAnyDefault(starts, region, from, price.from);
  }

  lemma {:induction false} HasAnyDefault(starts: Starts, region: string, a: Day, b: Day)
    requires Has(starts, region)
    ensures StartOf(starts, region, a) == StartOf(starts, region, b)
  {
    if starts[0].0 == region {
    } else {
      HasAnyDefault(starts[1..], region, a, b);
    }
  }

  lemma StartAfterMeaning0(price: Price, current: seq<Price>)
    ensures StartAfter(price, current) <= price.from
  {
    if current == [] {
    } else {
      StartAfterMeaning(price, current, 0, 0);
      assert current[..0] == [];
    }
  }

  // It can be overtaken: a regional price ends the day before its replacement starts, and then a regionless old price
  // at the replacement's amounts takes the replacement back to before either.
  lemma OvertakenExample() returns (given: Given, state: State, current: seq<Price>)
    ensures AllKnown(given, current) && state.carried == [] && OneRegionless(state.listed) && |current| == 2
    ensures var after := Refreshed(given, state, current);
      && |after.carried| == 1 && after.carried[0].Covers("x", 9) && after.carried[0].until == Some(9)
      && TakesOver(given, after.listed, after.carried[0].line, "x") == Some(0)
      && Overtaken(given, state.listed, current, 0, "x")
  {
    var line := Line("commercial", "publisher", "model", None, None);
    var (cheap, dear) := (Amounts(Some(1.0), None, None, None), Amounts(Some(2.0), None, None, None));
    var rebuilt := Price("new", line, None, None, cheap, 10, None, ["s"], None, None);
    var regional := Price("old.r1", line, None, Some(["x"]), dear, 1, None, ["s"], None, None);
    var regionless := Price("old", line, None, None, cheap, 0, None, ["s"], None, None);
    given := Given(map["s" := Source("s", "title", "url", 5)], None, day => "");
    state := Start([rebuilt], map["s" := Source("s", "title", "url", 5)]);
    current := [regional, regionless];
    assert state.listed == [rebuilt];
    RefreshPair(given, state, rebuilt, regional, regionless);
  }

  // A list of one rebuilt price, and the old prices of the example.
  ghost predicate Pair(given: Given, rebuilt: Price, regional: Price, regionless: Price) {
    && given.index.None? && Known(given, regional.sourceIds) && Known(given, regionless.sourceIds)
    && rebuilt.until.None? && regional.regions == Some(["x"]) && regional.until.None?
      && regional.amounts != rebuilt.amounts
    && Absorbs(regionless, rebuilt) && regional.line == rebuilt.line && regionless.from < regional.from < rebuilt.from
  }

  lemma PairCuts(given: Given, rebuilt: Price, regional: Price, regionless: Price)
    requires Pair(given, rebuilt, regional, regionless)
    ensures Cuts(given, [rebuilt], regional) == [Cut(Some(["x"]), Some(rebuilt.from - 1))]
    ensures Cuts(given, [rebuilt], regionless) == []
    ensures ListedAfter([rebuilt], regional) == [rebuilt]
    ensures ListedAfter([rebuilt], regionless) == [rebuilt.(from := regionless.from)]
  {
    FirstOfOne(given, rebuilt, "x");
    var regions := ["x"];
    assert regions[..0] == [] && Ends(given, [rebuilt], regional, []) == [];
    assert FateIn(given, [rebuilt], regional, "x") == Kept(Some(rebuilt.from - 1));
    var groups := [Group(Some(rebuilt.from - 1), ["x"])];
    assert Ends(given, [rebuilt], regional, regions) == groups;
    EndCutAt(groups, 0);
    SortOrdered(["x"]);
  }

  lemma FirstOfOne(given: Given, price: Price, region: string)
    requires price.AppliesTo(region)
    ensures First(given, [price], price.line, region) == Some(price)
  {
    assert [price][..0] == [] && First(given, [], price.line, region) == None;
  }

  lemma RefreshPair(given: Given, state: State, rebuilt: Price, regional: Price, regionless: Price)
    requires Pair(given, rebuilt, regional, regionless) && state.listed == [rebuilt] && state.carried == []
    ensures var current := [regional, regionless];
      AllKnown(given, current)
      && var after := Refreshed(given, state, current);
      && |after.carried| == 1 && after.carried[0].Covers("x", rebuilt.from - 1)
        && after.carried[0].until == Some(rebuilt.from - 1)
      && after.carried[0].line == rebuilt.line
      && TakesOver(given, after.listed, rebuilt.line, "x") == Some(regionless.from)
      && Overtaken(given, state.listed, current, 0, "x")
  {
    hide Cuts, ListedAfter, Step, Known, First;
    var current := [regional, regionless];
    assert current[..1] == [regional] && [regional][..0] == [] && current[..0] == [];
    PairCuts(given, rebuilt, regional, regionless);
    NothingCarried(given, state);
    RefreshedSplits(given, state, [regional]);
    RefreshedSplits(given, state, current);
    var once := Step(given, state, regional);
    assert Refreshed(given, state, [regional]) == once;
    StepGrows(given, state, regional);
    StepPiece(given, state, regional, 0);
    CarriedCount(given, state, regional);
    StepGrows(given, once, regionless);
    CarriedCount(given, once, regionless);
    FirstOfOne(given, rebuilt, "x");
    FirstOfOne(given, rebuilt.(from := regionless.from), "x");
    assert AsOf(state.listed, current[..0]) == [rebuilt];
    assert TakesOver(given, [rebuilt], current[0].line, "x") == Some(rebuilt.from);
    assert OvertakenBy(given, state.listed[0], current[0].line, current[1], "x", rebuilt.from);
  }

  lemma {:induction false} PutNonempty(groups: seq<Group>, day: Option<Day>, name: string)
    requires forall g :: g in groups ==> g.names != []
    ensures forall g :: g in Put(groups, day, name) ==> g.names != []
  {
    if groups == [] {
    } else {
      assert groups == [groups[0]] + groups[1..];
      PutNonempty(groups[1..], day, name);
    }
  }

  lemma {:induction false} EndsNonempty(given: Given, listed: seq<Price>, prior: Price, regions: seq<string>)
    ensures forall g :: g in Ends(given, listed, prior, regions) ==> g.names != []
  {
    if regions == [] {
    } else {
      var front, region := regions[..|regions| - 1], regions[|regions| - 1];
      EndsNonempty(given, listed, prior, front);
      var fate := FateIn(given, listed, prior, region);
      if fate.Kept? {
        PutNonempty(Ends(given, listed, prior, front), fate.until, region);
      }
    }
  }

  // Every piece of a regional price lists a region, and has a day.
  lemma NonemptyCut(given: Given, listed: seq<Price>, prior: Price, j: nat)
    requires !Unchanged(prior, listed) && prior.until.None? && prior.regions.Some? && j < |Cuts(given, listed, prior)|
    ensures var cut := Cuts(given, listed, prior)[j];
      && cut.regions.Some? && cut.regions.value != []
      && (cut.until.Some? ==> prior.from <= cut.until.value)
  {
    var groups := Ends(given, listed, prior, prior.regions.value);
    EndCutAt(groups, 0);
    EndCutAt(groups, j);
    EndsNonempty(given, listed, prior, prior.regions.value);
    SortNamesMeaning(groups[j].names);
    var r := groups[j].names[0];
    EndsMeaning(given, listed, prior, prior.regions.value, groups[j].day, r);
    FateMeaning(given, listed, prior, r, groups[j].day);
  }
}
