// Refreshing a refreshed list: the second refresh gives the same prices.
module Repeated {
  import opened Wrappers
  import opened Prices
  import opened Identifiers
  import opened Names
  import opened Refresh
  import opened Coverage
  import opened Pieces
  import opened Idempotence

  // ---- What a carried price is ----

  ghost predicate Uncovered(listed: seq<Price>, line: Line, region: string) {
    forall i :: 0 <= i < |listed| ==> !Covering(listed[i], line, region)
  }

  // A carried price already ends, or nothing in the rebuilt list can replace it: no regionless price of its line
  // if it is regionless itself, and no price of its line in any of its regions if it is not.
  ghost predicate Settled(listed: seq<Price>, e: Price) {
    e.until.Some?
    || (match e.regions
        case None => Successor(listed, e.line) == |listed|
        case Some(names) => names != [] && Ordered(names) && forall r :: r in names ==> Uncovered(listed, e.line, r))
  }

  lemma SettledShape(a: seq<Price>, b: seq<Price>, e: Price)
    requires SameShape(a, b) && Settled(a, e)
    ensures Settled(b, e)
  {
    SuccessorShape(a, b, e.line);
    if e.until.None? && e.regions.Some? {
      forall r | r in e.regions.value ensures Uncovered(b, e.line, r) {
        assert Uncovered(a, e.line, r);
      }
    }
  }

  lemma RegionalCutSettled(given: Given, listed: seq<Price>, prior: Price, j: nat, piece: Price)
    requires !Unchanged(prior, listed) && prior.until.None? && prior.regions.Some?
    requires j < |Cuts(given, listed, prior)| && FromCut(prior, Cuts(given, listed, prior)[j], piece)
    ensures Settled(listed, piece)
  {
    RegionalCuts(given, listed, prior, j);
    NonemptyCut(given, listed, prior, j);
    var cut := Cuts(given, listed, prior)[j];
    hide Cuts;
    if cut.until.None? {
      forall r | r in cut.regions.value ensures Uncovered(listed, prior.line, r) {
        FateMeaning(given, listed, prior, r, None);
        FirstMeaning(given, listed, prior.line, r);
      }
    }
  }

  lemma CutSettled(given: Given, listed: seq<Price>, prior: Price, j: nat, piece: Price)
    requires j < |Cuts(given, listed, prior)| && FromCut(prior, Cuts(given, listed, prior)[j], piece)
    ensures Settled(listed, piece)
  {
    if prior.until.None? && prior.regions.Some? {
      RegionalCutSettled(given, listed, prior, j, piece);
    } else if prior.until.None? && Successor(listed, prior.line) < |listed| {
      RegionlessCutsAre(given, listed, prior);
      RegionlessPiece(given, prior, listed[Successor(listed, prior.line)], j);
    }
  }

  lemma CarriedSettled(given: Given, state: State, current: seq<Price>, i: nat)
    requires AllKnown(given, current) && state.carried == [] && i < |Refreshed(given, state, current).carried|
    ensures Settled(state.listed, Refreshed(given, state, current).carried[i])
  {
    hide Cuts, FromCut, Settled;
    var k, j := CarriedOrigin(given, state, current, i);
    var listed := Refreshed(given, state, current[..k]).listed;
    CutSettled(given, listed, current[k], j, Refreshed(given, state, current).carried[i]);
    RefreshedGrows(given, state, current[..k], 0);
    assert current[..k][..0] == [];
    SettledShape(listed, state.listed, Refreshed(given, state, current).carried[i]);
  }

  // ---- What a second refresh makes of it ----

  lemma {:induction false} AllUncovered(given: Given, listed: seq<Price>, e: Price, names: seq<string>)
    requires forall r :: r in names ==> Uncovered(listed, e.line, r)
    ensures Ends(given, listed, e, names) == if names == [] then [] else [Group(None, names)]
  {
    if names == [] {
    } else {
      hide First, Begins, Covering;
      var front, r := names[..|names| - 1], names[|names| - 1];
      AllUncovered(given, listed, e, front);
      assert r in names && Uncovered(listed, e.line, r);
      FirstMeaning(given, listed, e.line, r);
      assert names == front + [r];
      assert FateIn(given, listed, e, r) == Kept(None);
      if front != [] {
        assert Put([Group(None, front)], None, r) == [Group(None, front + [r])];
      }
    }
  }

  lemma SettledChanged(listed: seq<Price>, e: Price)
    requires Settled(listed, e) && Endless(listed)
    ensures !Unchanged(e, listed)
  {
    assert e.until.None? && e.regions.Some? ==> Uncovered(listed, e.line, e.regions.value[0]);
    forall i | 0 <= i < |listed| ensures !e.Same(listed[i]) {
      assert listed[i].until.None?;
    }
  }

  // It is carried again as it is.
  lemma SettledCuts(given: Given, listed: seq<Price>, e: Price)
    requires Settled(listed, e) && Endless(listed)
    ensures Cuts(given, listed, e) == [Cut(e.regions, None)] && ListedAfter(listed, e) == listed
  {
    SettledChanged(listed, e);
    if e.until.None? && e.regions.Some? {
      AllUncovered(given, listed, e, e.regions.value);
      SortOrdered(e.regions.value);
      assert EndCuts([Group(None, e.regions.value)]) == [Cut(Some(e.regions.value), None)] by {
        EndCutAt([Group(None, e.regions.value)], 0);
      }
    }
  }

  // The sources a second refresh starts from are those the first one left.
  ghost predicate Restarts(first: Given, after: State, second: Given) {
    second == first.(oldSources := after.sources)
  }

  lemma {:induction false} CitesItself(first: Given, rebuilt: Sources, after: State, second: Given, ids: seq<string>)
    requires Restarts(first, after, second) && SourcesFit(first, rebuilt, after.sources)
    requires forall i :: 0 <= i < |ids| ==> ids[i] in after.sources
    ensures CitedAll(second, rebuilt, ids) == ids
  {
    if ids == [] {
    } else {
      CitesItself(first, rebuilt, after, second, ids[..|ids| - 1]);
      assert ids == ids[..|ids| - 1] + [ids[|ids| - 1]];
    }
  }

  // Carrying a settled price again gives the same price, up to its ID.
  lemma SettledStep(given: Given, rebuilt: Sources, state: State, e: Price)
    requires Known(given, e.sourceIds) && Settled(state.listed, e) && Endless(state.listed)
      && Cites(given, rebuilt, state)
    requires CitedAll(given, rebuilt, e.sourceIds) == e.sourceIds
    ensures var after := Step(given, state, e);
      && after.listed == state.listed && |after.carried| == |state.carried| + 1 && state.carried <= after.carried
      && CarriedAs(given, e, after.carried[|state.carried|]) && Cites(given, rebuilt, after)
      && Renamed(given, state, e, after)
  {
    SettledCuts(given, state.listed, e);
    var prepared := Prepared(state, e);
    hide Cuts, ListedAfter, Settled, SourcesFit, Actions, Carry, Known, CitesKnown;
    StepCarries(given, state, e);
    OneCut(given, prepared, e, Cut(e.regions, None));
    CarryCites(given, rebuilt, prepared, e, Cut(e.regions, None));
    CarriedAgain(given, prepared, e);
  }

  // The next carried price has the first free ID of its base.
  ghost predicate Renamed(given: Given, state: State, e: Price, after: State) {
    && |after.carried| == |state.carried| + 1
    && after.carried[|state.carried|].id == UniqueId(CarryBase(given, e, None), state.used)
    && after.used == state.used + {after.carried[|state.carried|].id}
  }

  lemma OneCut(given: Given, state: State, e: Price, cut: Cut)
    requires Known(given, e.sourceIds)
    ensures CarryAll(given, state, e, [cut]) == Carry(given, state, e, cut)
  {
    assert [cut][..0] == [];
  }

  lemma CarriedAgain(given: Given, state: State, e: Price)
    requires Known(given, e.sourceIds)
    ensures var after := Carry(given, state, e, Cut(e.regions, None));
      && after.listed == state.listed && |after.carried| == |state.carried| + 1 && state.carried <= after.carried
      && (after.carried[|state.carried|].sourceIds == e.sourceIds ==>
        CarriedAs(given, e, after.carried[|state.carried|]))
      && Renamed(given, state, e, after)
  {
    hide DatedAll, UniqueId, CarryBase, IsBaseOrNumbered;
    UniqueIdMeaning(CarryBase(given, e, None), state.used);
  }

  // ---- What a second refresh makes of the listed prices ----

  // Each listed price is still as rebuilt, or as the first refresh left it.
  ghost predicate Between(rebuilt: seq<Price>, final: seq<Price>, listed: seq<Price>) {
    |rebuilt| == |final| == |listed|
    && forall i :: 0 <= i < |rebuilt| ==>
      Backdated(rebuilt[i], final[i]) && (listed[i] == rebuilt[i] || listed[i] == final[i])
  }

  lemma OwnUnchanged(rebuilt: seq<Price>, final: seq<Price>, listed: seq<Price>, i: nat)
    requires Between(rebuilt, final, listed) && OneRegionless(rebuilt) && i < |final| && Unchanged(final[i], listed)
    ensures listed[i] == final[i]
  {
    var j :| 0 <= j < |listed| && final[i].Same(listed[j]);
    OneOfLine(rebuilt, i, j);
  }

  // A listed price is the second refresh's own: it is not carried, and takes the start the first refresh gave it.
  lemma OwnStep(given: Given, rebuilt: seq<Price>, final: seq<Price>, listed: seq<Price>, i: nat)
    requires Between(rebuilt, final, listed) && OneRegionless(rebuilt) && Endless(rebuilt) && i < |final|
    ensures Cuts(given, listed, final[i]) == [] && Between(rebuilt, final, ListedAfter(listed, final[i]))
    ensures ListedAfter(listed, final[i])[i] == final[i]
    ensures forall j :: 0 <= j < |listed| && listed[j] == final[j] ==> ListedAfter(listed, final[i])[j] == final[j]
  {
    hide EndCuts, Ends, RegionlessCuts, LaterGroups;
    var e := final[i];
    if Unchanged(e, listed) {
      OwnUnchanged(rebuilt, final, listed, i);
    } else {
      assert !e.Same(listed[i]);
      var k := Successor(listed, e.line);
      if k < |listed| {
        OneOfLine(rebuilt, i, k);
      }
    }
  }

  // ---- The whole second refresh ----

  // The prices whose ID is not one of these.
  function Others(prices: seq<Price>, ids: set<string>): seq<Price> {
    if prices == [] then []
    else if prices[|prices| - 1].id in ids then Others(prices[..|prices| - 1], ids)
    else Others(prices[..|prices| - 1], ids) + [prices[|prices| - 1]]
  }

  lemma {:induction false} OthersCount(prices: seq<Price>, ids: set<string>, p: Price)
    ensures multiset(Others(prices, ids))[p] == if p.id in ids then 0 else multiset(prices)[p]
  {
    if prices == [] {
    } else {
      OthersCount(prices[..|prices| - 1], ids, p);
      assert prices == prices[..|prices| - 1] + [prices[|prices| - 1]];
    }
  }

  // The same price again: only the number that keeps its ID apart may differ.
  predicate CarriedAs(given: Given, e: Price, again: Price) {
    e.Same(again) && IsBaseOrNumbered(again.id, CarryBase(given, e, None))
  }

  ghost predicate SamePrices(given: Given, a: seq<Price>, b: seq<Price>) {
    |a| == |b| && forall i :: 0 <= i < |a| ==> CarriedAs(given, a[i], b[i])
  }

  // An open price carried before keeps the ID it was carried under, up to its number.
  lemma OpenIdKept(original: string, id: string)
    requires IsBaseOrNumbered(id, Strip(original) + ".last")
    ensures Strip(id) + ".last" == Strip(original) + ".last"
  {
    hide Strip;
    var base := Strip(original) + ".last";
    var suffix := ".last" + id[|base|..];
    assert suffix[..5] == ".last" && suffix[5..] == id[|base|..];
    assert id == id[..|base|] + id[|base|..] && id == Strip(original) + suffix;
    StripSuffixed(Strip(original), suffix);
  }

  // What a first refresh has established, and a second one starts from.
  ghost predicate Refreshable(first: Given, rebuilt: seq<Price>, sources: Sources, after: State, second: Given) {
    && Restarts(first, after, second) && SourcesFit(first, sources, after.sources)
    && OneRegionless(rebuilt) && Endless(rebuilt) && DistinctIds(rebuilt)
    && Between(rebuilt, after.listed, rebuilt)
    && (forall e :: e in after.carried ==> Settled(rebuilt, e) && CitedKnown(after.sources, e.sourceIds))
    && (forall e :: e in after.listed ==> CitedKnown(after.sources, e.sourceIds))
    && (forall e :: e in after.carried ==> e.id !in Ids(rebuilt))
  }

  ghost predicate CitedKnown(sources: Sources, ids: seq<string>) {
    ids != [] && forall i :: 0 <= i < |ids| ==> ids[i] in sources
  }

  ghost function Ids(listed: seq<Price>): set<string> {
    set i | 0 <= i < |listed| :: listed[i].id
  }

  // Going through some of the first refresh's prices, in any order.
  ghost predicate SecondFits(rebuilt: seq<Price>, sources: Sources, second: Given, after: State, prices: seq<Price>,
                             state: State) {
    && Between(rebuilt, after.listed, state.listed)
    && (forall i :: 0 <= i < |after.listed| && after.listed[i] in prices ==> state.listed[i] == after.listed[i])
    && SamePrices(second, Others(prices, Ids(rebuilt)), state.carried)
    && Cites(second, sources, state)
  }

  lemma SecondKnows(first: Given, rebuilt: seq<Price>, sources: Sources, after: State, second: Given, e: Price)
    requires Refreshable(first, rebuilt, sources, after, second) && e in after.listed + after.carried
    ensures Known(second, e.sourceIds)
  {
  }

  lemma CarriedFacts(first: Given, rebuilt: seq<Price>, sources: Sources, after: State, second: Given, e: Price)
    requires Refreshable(first, rebuilt, sources, after, second) && e in after.carried
    ensures Settled(rebuilt, e) && e.id !in Ids(rebuilt) && e !in after.listed
    ensures Known(second, e.sourceIds) && CitedAll(second, sources, e.sourceIds) == e.sourceIds
  {
    hide Settled, Ids, SourcesFit;
    CitesItself(first, sources, after, second, e.sourceIds);
    NotListed(rebuilt, after, e);
  }

  lemma FitsWithCarried(rebuilt: seq<Price>, sources: Sources, second: Given, after: State, prices: seq<Price>,
                        e: Price, state: State, stepped: State)
    requires SecondFits(rebuilt, sources, second, after, prices, state) && e.id !in Ids(rebuilt) && e !in after.listed
    requires stepped.listed == state.listed && |stepped.carried| == |state.carried| + 1
      && state.carried <= stepped.carried
    requires CarriedAs(second, e, stepped.carried[|state.carried|]) && Cites(second, sources, stepped)
    ensures SecondFits(rebuilt, sources, second, after, prices + [e], stepped)
  {
    hide Cites, Ids;
    assert (prices + [e])[..|prices|] == prices;
  }

  lemma SecondStepCarried(first: Given, rebuilt: seq<Price>, sources: Sources, after: State, second: Given,
                          prices: seq<Price>, e: Price, state: State)
    requires Refreshable(first, rebuilt, sources, after, second)
      && SecondFits(rebuilt, sources, second, after, prices, state)
    requires e in after.carried && Known(second, e.sourceIds)
    ensures SecondFits(rebuilt, sources, second, after, prices + [e], Step(second, state, e))
  {
    BetweenShape(rebuilt, after.listed, state.listed);
    assert Endless(rebuilt);
    CarriedFacts(first, rebuilt, sources, after, second, e);
    hide *;
    SettledShape(rebuilt, state.listed, e);
    FitsCites(rebuilt, sources, second, after, prices, state);
    SettledStep(second, sources, state, e);
    FitsWithCarried(rebuilt, sources, second, after, prices, e, state, Step(second, state, e));
  }

  lemma FitsCites(rebuilt: seq<Price>, sources: Sources, second: Given, after: State, prices: seq<Price>, state: State)
    requires SecondFits(rebuilt, sources, second, after, prices, state)
    ensures Cites(second, sources, state)
  {
  }

  lemma NotListed(rebuilt: seq<Price>, after: State, e: Price)
    requires Between(rebuilt, after.listed, rebuilt) && e.id !in Ids(rebuilt)
    ensures e !in after.listed
  {
    forall i | 0 <= i < |after.listed| ensures after.listed[i].id in Ids(rebuilt) {
      assert rebuilt[i].id == after.listed[i].id;
    }
  }

  lemma BetweenShape(rebuilt: seq<Price>, final: seq<Price>, listed: seq<Price>)
    requires Between(rebuilt, final, listed)
    ensures SameShape(rebuilt, listed) && (Endless(rebuilt) ==> Endless(listed))
  {
  }

  lemma SecondStepListed(first: Given, rebuilt: seq<Price>, sources: Sources, after: State, second: Given,
                         prices: seq<Price>, i: nat, state: State)
    requires Refreshable(first, rebuilt, sources, after, second)
      && SecondFits(rebuilt, sources, second, after, prices, state)
    requires i < |after.listed| && Known(second, after.listed[i].sourceIds)
    ensures SecondFits(rebuilt, sources, second, after, prices + [after.listed[i]],
                       Step(second, state, after.listed[i]))
  {
    var e := after.listed[i];
    assert (prices + [e])[..|prices|] == prices;
    assert rebuilt[i].id == e.id && e.id in Ids(rebuilt);
    OwnStep(second, rebuilt, after.listed, state.listed, i);
    var stepped := Step(second, state, e);
    hide Cites, Known, Ids, ListedAfter, Cuts, Refreshable;
    NoCut(second, sources, state, e);
    forall j | 0 <= j < |after.listed| && after.listed[j] in prices + [e] ensures stepped.listed[j] == after.listed[j] {
      if after.listed[j] !in prices {
        SameListed(first, rebuilt, sources, after, second, i, j);
      }
    }
  }

  lemma SameListed(first: Given, rebuilt: seq<Price>, sources: Sources, after: State, second: Given, i: nat, j: nat)
    requires Refreshable(first, rebuilt, sources, after, second) && i < |after.listed| && j < |after.listed|
    requires after.listed[i] == after.listed[j] && DistinctIds(rebuilt)
    ensures i == j
  {
    assert rebuilt[i].id == rebuilt[j].id;
  }

  lemma NoCut(given: Given, rebuilt: Sources, state: State, e: Price)
    requires Known(given, e.sourceIds) && Cuts(given, state.listed, e) == [] && Cites(given, rebuilt, state)
    ensures Step(given, state, e).listed == ListedAfter(state.listed, e)
      && Step(given, state, e).carried == state.carried
    ensures Cites(given, rebuilt, Step(given, state, e)) && Step(given, state, e).used == state.used
  {
    hide Cuts, ListedAfter, Actions, Known, SourcesFit;
    StepCarries(given, state, e);
  }

  lemma {:induction false} SecondRun(first: Given, rebuilt: seq<Price>, sources: Sources, after: State, second: Given,
                                     prices: seq<Price>)
    requires Refreshable(first, rebuilt, sources, after, second) && AllKnown(second, prices)
    requires forall e :: e in prices ==> e in after.listed || e in after.carried
    ensures SecondFits(rebuilt, sources, second, after, prices, Refreshed(second, Start(rebuilt, sources), prices))
  {
    if prices == [] {
    } else {
      var front, e := prices[..|prices| - 1], prices[|prices| - 1];
      assert prices == front + [e] && Known(second, e.sourceIds);
      SecondRun(first, rebuilt, sources, after, second, front);
      var state := Refreshed(second, Start(rebuilt, sources), front);
      hide Refreshable, SecondFits, Step, Known;
      if e in after.carried {
        SecondStepCarried(first, rebuilt, sources, after, second, front, e, state);
      } else {
        var i :| 0 <= i < |after.listed| && after.listed[i] == e;
        SecondStepListed(first, rebuilt, sources, after, second, front, i, state);
      }
    }
  }

  lemma FirstBetween(given: Given, state: State, current: seq<Price>)
    requires AllKnown(given, current)
    ensures Between(state.listed, Refreshed(given, state, current).listed, state.listed)
  {
    RefreshedGrows(given, state, current, 0);
    assert current[..0] == [];
  }

  // A first refresh leaves what a second one needs.
  lemma FirstRefreshes(first: Given, rebuilt: seq<Price>, sources: Sources, current: seq<Price>, second: Given)
    requires AllKnown(first, current) && Rebuilt(rebuilt, sources)
    requires Restarts(first, Refreshed(first, Start(rebuilt, sources), current), second)
    ensures Refreshable(first, rebuilt, sources, Refreshed(first, Start(rebuilt, sources), current), second)
  {
    hide Refreshed, Settled, SourcesFit, Known, Between;
    var start := Start(rebuilt, sources);
    var after := Refreshed(first, start, current);
    StartFits(rebuilt, sources);
    FirstBetween(first, start, current);
    IdsStayUnique(first, start, current);
    RefreshedCites(first, sources, start, current);
    forall e | e in after.carried ensures Settled(rebuilt, e) {
      var i :| 0 <= i < |after.carried| && after.carried[i] == e;
      CarriedSettled(first, start, current, i);
    }
    ListedApart(rebuilt, after);
    ListedCited(first, rebuilt, sources, after);
  }

  lemma ListedApart(rebuilt: seq<Price>, after: State)
    requires Between(rebuilt, after.listed, rebuilt) && IdsFit(after)
    ensures forall e :: e in after.carried ==> e.id !in Ids(rebuilt)
  {
    forall e | e in after.carried ensures e.id !in Ids(rebuilt) {
      forall i | 0 <= i < |rebuilt| ensures rebuilt[i].id != e.id {
        assert after.listed[i] in after.listed && after.listed[i].id == rebuilt[i].id;
      }
    }
  }

  lemma ListedCited(first: Given, rebuilt: seq<Price>, sources: Sources, after: State)
    requires Between(rebuilt, after.listed, rebuilt) && Rebuilt(rebuilt, sources)
      && SourcesFit(first, sources, after.sources)
    ensures forall e :: e in after.listed ==> CitedKnown(after.sources, e.sourceIds)
  {
    forall e | e in after.listed ensures CitedKnown(after.sources, e.sourceIds) {
      var i :| 0 <= i < |after.listed| && after.listed[i] == e;
      assert CitedKnown(sources, rebuilt[i].sourceIds);
    }
  }

  // A rebuilt list: no price ends, no two share an ID, each line has at most one regionless price, and every
  // price cites sources of the list.
  ghost predicate Rebuilt(rebuilt: seq<Price>, sources: Sources) {
    OneRegionless(rebuilt) && Endless(rebuilt) && DistinctIds(rebuilt)
    && forall i :: 0 <= i < |rebuilt| ==> CitedKnown(sources, rebuilt[i].sourceIds)
  }

  // ---- Ended prices keep their IDs ----

  // No ended price has an ID that an open one could be given.
  ghost predicate Apart(carried: seq<Price>) {
    forall e, o :: e in carried && o in carried && e.until.Some? && o.until.None?
      ==> !IsBaseOrNumbered(e.id, Strip(o.id) + ".last")
  }

  ghost predicate EndedKept(a: seq<Price>, b: seq<Price>) {
    |a| == |b| && forall i :: 0 <= i < |a| && a[i].until.Some? ==> b[i].id == a[i].id
  }

  // The IDs in use are those of the rebuilt prices and of the prices carried so far.
  ghost predicate Using(rebuilt: seq<Price>, state: State) {
    state.used == Ids(rebuilt) + Ids(state.carried)
  }

  lemma UsingNext(rebuilt: seq<Price>, state: State, id: string, after: State)
    requires Using(rebuilt, state) && state.carried <= after.carried && |after.carried| == |state.carried| + 1
    requires after.carried[|state.carried|].id == id && after.used == state.used + {id}
    ensures Using(rebuilt, after)
  {
    var n := |state.carried|;
    assert forall i :: 0 <= i < n ==> after.carried[i] == state.carried[i];
    forall x ensures x in Ids(after.carried) <==> x in Ids(state.carried) || x == id {
      if x in Ids(state.carried) {
        var i :| 0 <= i < n && state.carried[i].id == x;
        assert after.carried[i].id == x;
      }
    }
    assert after.used == Ids(rebuilt) + Ids(after.carried);
  }

  // An ended price's ID is free when its turn comes.
  lemma EndedFree(given: Given, rebuilt: seq<Price>, after: State, others: seq<Price>, e: Price, state: State)
    requires SamePrices(given, others, state.carried) && EndedKept(others, state.carried) && Using(rebuilt, state)
    requires Apart(after.carried) && e in after.carried && e.until.Some? && e.id !in Ids(rebuilt)
    requires forall o :: o in others ==> o in after.carried && o.id != e.id
    ensures e.id !in state.used
  {
    hide IsBaseOrNumbered, Strip;
    forall i | 0 <= i < |state.carried| ensures state.carried[i].id != e.id {
      assert CarriedAs(given, others[i], state.carried[i]) && others[i] in others;
    }
  }

  lemma {:induction false} OthersAmong(prices: seq<Price>, ids: set<string>)
    ensures forall o :: o in Others(prices, ids) ==> o in prices && o.id !in ids
  {
    if prices == [] {
    } else {
      OthersAmong(prices[..|prices| - 1], ids);
    }
  }

  lemma EndedNext(given: Given, rebuilt: seq<Price>, after: State, others: seq<Price>, e: Price, state: State,
                  stepped: State)
    requires SamePrices(given, others, state.carried) && EndedKept(others, state.carried) && Using(rebuilt, state)
    requires Apart(after.carried) && e in after.carried && e.id !in Ids(rebuilt)
    requires forall o :: o in others ==> o in after.carried && o.id != e.id
    requires state.carried <= stepped.carried && Renamed(given, state, e, stepped)
    ensures EndedKept(others + [e], stepped.carried) && Using(rebuilt, stepped)
  {
    UsingNext(rebuilt, state, stepped.carried[|state.carried|].id, stepped);
    if e.until.Some? {
      EndedFree(given, rebuilt, after, others, e, state);
      UniqueIdMeaning(e.id, state.used);
    }
  }

  lemma CarriedStep(first: Given, rebuilt: seq<Price>, sources: Sources, after: State, second: Given,
                    prices: seq<Price>, e: Price, state: State)
    requires Refreshable(first, rebuilt, sources, after, second)
      && SecondFits(rebuilt, sources, second, after, prices, state)
    requires e in after.carried && Known(second, e.sourceIds)
    ensures state.carried <= Step(second, state, e).carried && Renamed(second, state, e, Step(second, state, e))
  {
    BetweenShape(rebuilt, after.listed, state.listed);
    assert Endless(rebuilt);
    CarriedFacts(first, rebuilt, sources, after, second, e);
    hide *;
    SettledShape(rebuilt, state.listed, e);
    FitsCites(rebuilt, sources, second, after, prices, state);
    SettledStep(second, sources, state, e);
  }

  lemma EndedStep(first: Given, rebuilt: seq<Price>, sources: Sources, after: State, second: Given, prices: seq<Price>,
                  e: Price, state: State)
    requires Refreshable(first, rebuilt, sources, after, second)
      && SecondFits(rebuilt, sources, second, after, prices, state)
    requires forall p :: p in prices ==> p in after.listed + after.carried && p.id != e.id
    requires e in after.carried && Known(second, e.sourceIds) && Apart(after.carried)
    requires EndedKept(Others(prices, Ids(rebuilt)), state.carried) && Using(rebuilt, state)
    ensures var stepped := Step(second, state, e);
      EndedKept(Others(prices + [e], Ids(rebuilt)), stepped.carried) && Using(rebuilt, stepped)
  {
    assert e.id !in Ids(rebuilt) && Between(rebuilt, after.listed, rebuilt);
    var others := Others(prices, Ids(rebuilt));
    assert SamePrices(second, others, state.carried);
    OthersAmong(prices, Ids(rebuilt));
    OthersCarried(rebuilt, after, prices);
    CarriedStep(first, rebuilt, sources, after, second, prices, e, state);
    hide Refreshable, SecondFits, Apart, Using, Ids, Step, Known, EndedKept, SamePrices, Renamed;
    EndedNext(second, rebuilt, after, others, e, state, Step(second, state, e));
    assert (prices + [e])[..|prices|] == prices;
  }

  lemma OthersCarried(rebuilt: seq<Price>, after: State, prices: seq<Price>)
    requires Between(rebuilt, after.listed, rebuilt)
    requires forall p :: p in prices ==> p in after.listed + after.carried
    ensures forall o :: o in Others(prices, Ids(rebuilt)) ==> o in after.carried
  {
    OthersAmong(prices, Ids(rebuilt));
    forall o | o in Others(prices, Ids(rebuilt)) ensures o in after.carried {
      NotListed(rebuilt, after, o);
    }
  }

  lemma EndedOwn(first: Given, rebuilt: seq<Price>, sources: Sources, after: State, second: Given, prices: seq<Price>,
                 i: nat, state: State)
    requires Refreshable(first, rebuilt, sources, after, second)
      && SecondFits(rebuilt, sources, second, after, prices, state)
    requires i < |after.listed| && Known(second, after.listed[i].sourceIds)
    requires EndedKept(Others(prices, Ids(rebuilt)), state.carried) && Using(rebuilt, state)
    ensures var (e, stepped) := (after.listed[i], Step(second, state, after.listed[i]));
      EndedKept(Others(prices + [e], Ids(rebuilt)), stepped.carried) && Using(rebuilt, stepped)
  {
    var e := after.listed[i];
    assert rebuilt[i].id == e.id && e.id in Ids(rebuilt);
    OwnStep(second, rebuilt, after.listed, state.listed, i);
    hide Step, Known, Cites, Ids, Cuts, ListedAfter, Refreshable, SamePrices, Between;
    NoCut(second, sources, state, e);
    assert (prices + [e])[..|prices|] == prices;
  }

  lemma EndedAny(first: Given, rebuilt: seq<Price>, sources: Sources, after: State, second: Given, prices: seq<Price>,
                 e: Price, state: State)
    requires Refreshable(first, rebuilt, sources, after, second)
    requires SecondFits(rebuilt, sources, second, after, prices, state)
    requires forall p :: p in prices + [e] ==> p in after.listed || p in after.carried
    requires forall p :: p in prices ==> p.id != e.id
    requires Known(second, e.sourceIds) && Apart(after.carried)
    requires EndedKept(Others(prices, Ids(rebuilt)), state.carried) && Using(rebuilt, state)
    ensures var stepped := Step(second, state, e);
      EndedKept(Others(prices + [e], Ids(rebuilt)), stepped.carried) && Using(rebuilt, stepped)
  {
    hide Refreshable, SecondFits, Step, Known, Apart, Using, EndedKept, Ids, Others;
    assert e in prices + [e];
    if e in after.carried {
      EndedStep(first, rebuilt, sources, after, second, prices, e, state);
    } else {
      var i :| 0 <= i < |after.listed| && after.listed[i] == e;
      EndedOwn(first, rebuilt, sources, after, second, prices, i, state);
    }
  }

  lemma FrontDistinct(prices: seq<Price>)
    requires prices != [] && DistinctIds(prices)
    ensures DistinctIds(prices[..|prices| - 1])
    ensures forall p :: p in prices[..|prices| - 1] ==> p.id != prices[|prices| - 1].id
  {
  }

  lemma {:induction false} EndedRun(first: Given, rebuilt: seq<Price>, sources: Sources, after: State, second: Given,
                                    prices: seq<Price>)
    requires Refreshable(first, rebuilt, sources, after, second) && AllKnown(second, prices) && DistinctIds(prices)
    requires forall e :: e in prices ==> e in after.listed || e in after.carried
    requires Apart(after.carried)
    ensures var state := Refreshed(second, Start(rebuilt, sources), prices);
      EndedKept(Others(prices, Ids(rebuilt)), state.carried) && Using(rebuilt, state)
  {
    if prices == [] {
    } else {
      var front, e := prices[..|prices| - 1], prices[|prices| - 1];
      assert prices == front + [e] && Known(second, e.sourceIds);
      hide Refreshable, SecondFits, Step, Known, Apart, Using, EndedKept, Ids, Others, DistinctIds;
      FrontDistinct(prices);
      EndedRun(first, rebuilt, sources, after, second, front);
      SecondRun(first, rebuilt, sources, after, second, front);
      EndedAny(first, rebuilt, sources, after, second, front, e, Refreshed(second, Start(rebuilt, sources), front));
    }
  }

  lemma OncePerPlace(prices: seq<Price>, i: nat, j: nat)
    requires i < j < |prices| && prices[i] == prices[j]
    ensures multiset(prices)[prices[i]] >= 2
  {
    assert prices == prices[..i] + [prices[i]] + prices[i + 1..];
    assert prices[j] == prices[i + 1..][j - i - 1];
  }

  lemma {:induction false} OnlyPlace(prices: seq<Price>, p: Price)
    requires DistinctIds(prices)
    ensures multiset(prices)[p] <= 1
  {
    if prices == [] {
    } else {
      OnlyPlace(prices[1..], p);
      assert prices == [prices[0]] + prices[1..];
    }
  }

  // Any order of a list whose IDs are distinct has distinct IDs.
  lemma ReorderedIds(a: seq<Price>, b: seq<Price>)
    requires DistinctIds(a) && multiset(a) == multiset(b)
    ensures DistinctIds(b)
  {
    forall i, j | 0 <= i < j < |b| ensures b[i].id != b[j].id {
      assert b[i] in multiset(b) && b[j] in multiset(b);
      var k :| 0 <= k < |a| && a[k] == b[i];
      var l :| 0 <= l < |a| && a[l] == b[j];
      if k == l {
        OncePerPlace(b, i, j);
        OnlyPlace(a, b[i]);
      }
    }
  }

  lemma OutputIds(state: State, output: seq<Price>)
    requires IdsFit(state) && multiset(output) == multiset(state.listed + state.carried)
    ensures DistinctIds(output)
  {
    var all := state.listed + state.carried;
    forall i, j | 0 <= i < j < |all| ensures all[i].id != all[j].id {
      if i < |state.listed| <= j {
        assert all[i] in state.listed && all[j] in state.carried;
      }
    }
    ReorderedIds(all, output);
  }

  // ---- The sources of the second refresh ----

  lemma StillCited(rebuilt: seq<Price>, sources: Sources, after: State, second: Given, output: seq<Price>, twice: State)
    requires SecondFits(rebuilt, sources, second, after, output, twice)
    requires multiset(Others(output, Ids(rebuilt))) == multiset(after.carried)
    ensures forall p, id :: p in after.carried && id in p.sourceIds ==> id in twice.sources
  {
    hide Others, Ids, IsBaseOrNumbered, CarryBase, SourcesFit, Between;
    var others := Others(output, Ids(rebuilt));
    forall p, id | p in after.carried && id in p.sourceIds ensures id in twice.sources {
      assert p in multiset(others);
      var i :| 0 <= i < |others| && others[i] == p;
      assert CarriedAs(second, p, twice.carried[i]) && twice.carried[i] in twice.carried;
    }
  }

  lemma SameSources(sources: Sources, after: State, twice: State)
    requires Tight(sources, after) && Tight(sources, twice)
    requires forall id :: id in twice.sources ==> id in after.sources && twice.sources[id] == after.sources[id]
    requires forall p, id :: p in after.carried && id in p.sourceIds ==> id in twice.sources
    ensures twice.sources == after.sources && multiset(twice.added) == multiset(after.added)
  {
    assert twice.sources == after.sources;
    AddedOf(sources, after.sources, twice.added, after.added);
  }

  lemma LeavesSources(first: Given, sources: Sources, after: State, second: Given)
    requires Restarts(first, after, second) && SourcesFit(first, sources, after.sources) && Tight(sources, after)
    ensures SourcesLeft(second, sources) && Within(second, sources, sources)
    ensures forall s: Sources :: Within(second, sources, s) ==> forall id :: id in s ==>
      id in after.sources && s[id] == after.sources[id]
  {
  }

  lemma SourcesAgain(first: Given, rebuilt: seq<Price>, sources: Sources, after: State, second: Given,
                     output: seq<Price>)
    requires Refreshable(first, rebuilt, sources, after, second) && Tight(sources, after) && AllKnown(second, output)
    requires SecondFits(rebuilt, sources, second, after, output, Refreshed(second, Start(rebuilt, sources), output))
    requires multiset(Others(output, Ids(rebuilt))) == multiset(after.carried)
    ensures var twice := Refreshed(second, Start(rebuilt, sources), output);
      twice.sources == after.sources && multiset(twice.added) == multiset(after.added)
  {
    var twice := Refreshed(second, Start(rebuilt, sources), output);
    assert Restarts(first, after, second) && SourcesFit(first, sources, after.sources);
    hide *;
    LeavesSources(first, sources, after, second);
    RefreshedWithin(second, sources, Start(rebuilt, sources), output);
    StartTight(rebuilt, sources);
    RefreshedTight(second, sources, Start(rebuilt, sources), output);
    StillCited(rebuilt, sources, after, second, output, twice);
    SameSources(sources, after, twice);
  }

  lemma CarriedAreOthers(first: Given, rebuilt: seq<Price>, sources: Sources, after: State, second: Given,
                         output: seq<Price>)
    requires Refreshable(first, rebuilt, sources, after, second)
    requires multiset(output) == multiset(after.listed + after.carried)
    ensures multiset(Others(output, Ids(rebuilt))) == multiset(after.carried)
  {
    var others := Others(output, Ids(rebuilt));
    forall p ensures multiset(others)[p] == multiset(after.carried)[p] {
      OthersCount(output, Ids(rebuilt), p);
      if p.id in Ids(rebuilt) {
        assert p !in after.carried;
      } else {
        NotListed(rebuilt, after, p);
      }
    }
  }

  // ---- Refreshing twice ----

  // Refreshing is idempotent: going through a refreshed list, in any order, against the same rebuilt list gives
  // the same listed prices, the same sources, and the same carried prices up to the numbers of their IDs. A price that
  // had ended keeps its whole ID, where no open one could be given it.
  lemma RefreshTwice(first: Given, rebuilt: seq<Price>, sources: Sources, current: seq<Price>, second: Given,
                     output: seq<Price>)
    returns (carried: seq<Price>)
    requires AllKnown(first, current) && Rebuilt(rebuilt, sources)
    requires Restarts(first, Refreshed(first, Start(rebuilt, sources), current), second)
    requires var once := Refreshed(first, Start(rebuilt, sources), current);
      multiset(output) == multiset(once.listed + once.carried)
    ensures AllKnown(second, output)
    ensures var once := Refreshed(first, Start(rebuilt, sources), current);
      var twice := Refreshed(second, Start(rebuilt, sources), output);
      && twice.listed == once.listed
      && multiset(carried) == multiset(once.carried) && SamePrices(second, carried, twice.carried)
      && (Apart(once.carried) ==> EndedKept(carried, twice.carried))
      && twice.sources == once.sources && multiset(twice.added) == multiset(once.added)
  {
    var once := Refreshed(first, Start(rebuilt, sources), current);
    FirstRefreshes(first, rebuilt, sources, current, second);
    OutputKnown(first, rebuilt, sources, once, second, output);
    SecondRun(first, rebuilt, sources, once, second, output);
    carried := Others(output, Ids(rebuilt));
    CarriedAreOthers(first, rebuilt, sources, once, second, output);
    StartTight(rebuilt, sources);
    RefreshedTight(first, sources, Start(rebuilt, sources), current);
    var twice := Refreshed(second, Start(rebuilt, sources), output);
    hide Refreshed, Others, Refreshable, Known, Ids, Apart, Tight, SourcesFit;
    SourcesAgain(first, rebuilt, sources, once, second, output);
    SecondListed(rebuilt, sources, second, once, output, twice);
    if Apart(once.carried) {
      StartFits(rebuilt, sources);
      IdsStayUnique(first, Start(rebuilt, sources), current);
      OutputIds(once, output);
      EndedRun(first, rebuilt, sources, once, second, output);
    }
  }

  lemma OutputKnown(first: Given, rebuilt: seq<Price>, sources: Sources, once: State, second: Given, output: seq<Price>)
    requires Refreshable(first, rebuilt, sources, once, second)
    requires multiset(output) == multiset(once.listed + once.carried)
    ensures AllKnown(second, output) && forall e :: e in output ==> e in once.listed || e in once.carried
    ensures forall i :: 0 <= i < |once.listed| ==> once.listed[i] in output
  {
    hide Refreshable, Known;
    forall i | 0 <= i < |output| ensures Known(second, output[i].sourceIds) {
      assert output[i] in multiset(output);
      SecondKnows(first, rebuilt, sources, once, second, output[i]);
    }
    forall e | e in output ensures e in once.listed || e in once.carried {
      assert e in multiset(output);
    }
    forall i | 0 <= i < |once.listed| ensures once.listed[i] in output {
      assert once.listed[i] in once.listed + once.carried;
      assert once.listed[i] in multiset(output);
    }
  }

  lemma SecondListed(rebuilt: seq<Price>, sources: Sources, second: Given, once: State, output: seq<Price>,
                     twice: State)
    requires SecondFits(rebuilt, sources, second, once, output, twice)
    requires forall i :: 0 <= i < |once.listed| ==> once.listed[i] in output
    ensures twice.listed == once.listed && SamePrices(second, Others(output, Ids(rebuilt)), twice.carried)
  {
    hide Cites, SamePrices, Others, Ids;
  }

  // ---- Two regionless prices of one line ----

  // A rebuilt list with two regionless prices of a line, the same from different days, and an old price at their
  // amounts that starts with the second: once it is gone through, both start then.
  ghost predicate Doubled(given: Given, listed: seq<Price>, prior: Price) {
    && |listed| == 2 && OpenEverywhere(listed[0]) && listed[1] == listed[0].(id := listed[1].id, from := prior.from)
    && Absorbs(prior, listed[0]) && prior.notes != listed[0].notes && prior.from < listed[0].from
    && Known(given, prior.sourceIds) && Known(given, listed[0].sourceIds)
  }

  lemma DoubledAfter(given: Given, listed: seq<Price>, prior: Price)
    requires Doubled(given, listed, prior)
    ensures var once := [listed[0].(from := prior.from), listed[1]];
      && Cuts(given, listed, prior) == [] && ListedAfter(listed, prior) == once
      && ListedAfter(listed, once[0]) == listed && ListedAfter(listed, once[1]) == listed
  {
    var once := [listed[0].(from := prior.from), listed[1]];
    assert listed == [listed[0], listed[1]];
    assert !prior.Same(listed[0]) && !prior.Same(listed[1]);
    assert once[0].Same(listed[1]) && once[1].Same(listed[1]);
  }

  // So the premise of refreshing twice cannot do without at most one regionless price a line: here all the rest of it
  // holds, and the second refresh gives other prices.
  lemma TwiceExample()
    returns (first: Given, rebuilt: seq<Price>, sources: Sources, current: seq<Price>, second: Given,
             output: seq<Price>)
    ensures AllKnown(first, current) && AllKnown(second, output)
    ensures Endless(rebuilt) && DistinctIds(rebuilt) && forall p :: p in rebuilt ==> CitedKnown(sources, p.sourceIds)
    ensures var once := Refreshed(first, Start(rebuilt, sources), current);
      && Restarts(first, once, second) && multiset(output) == multiset(once.listed + once.carried)
      && Refreshed(second, Start(rebuilt, sources), output).listed != once.listed
  {
    var line := Line("commercial", "publisher", "model", None, None);
    var amounts := Amounts(Some(1.0), None, None, None);
    var price := Price("a", line, None, None, amounts, 10, None, ["s"], None, None);
    rebuilt, current := [price, price.(id := "b", from := 5)], [price.(from := 5, notes := Some("old"))];
    sources := map["s" := Source("s", "title", "url", 5)];
    first := Given(sources, None, day => "");
    assert Doubled(first, rebuilt, current[0]);
    DoubledAfter(first, rebuilt, current[0]);
    var start := Start(rebuilt, sources);
    RefreshedOne(first, start, current[0]);
    var once := Refreshed(first, start, current);
    second, output := first.(oldSources := once.sources), once.listed;
    OnceCites(first, rebuilt, sources, current);
    assert once.listed + [] == once.listed;
    TwoUnchanged(second, start, output);
  }

  lemma OnceCites(first: Given, rebuilt: seq<Price>, sources: Sources, current: seq<Price>)
    requires AllKnown(first, current)
    ensures forall id :: id in sources ==> id in Refreshed(first, Start(rebuilt, sources), current).sources
  {
    RefreshedCites(first, sources, Start(rebuilt, sources), current);
  }

  lemma RefreshedOne(given: Given, state: State, prior: Price)
    requires Known(given, prior.sourceIds) && Cuts(given, state.listed, prior) == [] && state.carried == []
    ensures Refreshed(given, state, [prior]).listed == ListedAfter(state.listed, prior)
    ensures Refreshed(given, state, [prior]).carried == []
  {
    hide Cuts, ListedAfter, Step;
    assert [prior][..0] == [];
    CarriedCount(given, state, prior);
    StepGrows(given, state, prior);
  }

  lemma TwoUnchanged(given: Given, state: State, prices: seq<Price>)
    requires |prices| == 2 && AllKnown(given, prices)
    requires ListedAfter(state.listed, prices[0]) == state.listed == ListedAfter(state.listed, prices[1])
    ensures Refreshed(given, state, prices).listed == state.listed
  {
    hide Cuts, ListedAfter, Step;
    var front := prices[..1];
    assert front[..0] == [] && prices[..|prices| - 1] == front;
    RefreshedSplits(given, state, front);
    RefreshedSplits(given, state, prices);
    NothingCarried(given, state);
    StepGrows(given, state, prices[0]);
    StepGrows(given, Refreshed(given, state, front), prices[1]);
  }
}
