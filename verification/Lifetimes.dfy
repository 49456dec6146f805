// What any number of refreshes keeps: days that are priced, prices that ended, and lists that are well formed.
module Lifetimes {
  import opened Wrappers
  import opened Prices
  import opened Refresh
  import opened Coverage
  import opened Idempotence
  import opened Repeated

  // A price list as it is stored.
  datatype Seed = Seed(prices: seq<Price>, sources: Sources)

  // What a refresh starts from besides: the rebuilt list, the rows of the API, and how days are written.
  datatype Rebuild = Rebuild(prices: seq<Price>, sources: Sources, index: Option<Index>, iso: Day -> string)

  function GivenOf(before: Seed, r: Rebuild): Given {
    Given(before.sources, r.index, r.iso)
  }

  ghost function StateOf(before: Seed, r: Rebuild): State
    requires AllKnown(GivenOf(before, r), before.prices)
  {
    Refreshed(GivenOf(before, r), Start(r.prices, r.sources), before.prices)
  }

  // The second list is the first one refreshed, with its prices in any order.
  ghost predicate IsRefresh(before: Seed, r: Rebuild, after: Seed) {
    AllKnown(GivenOf(before, r), before.prices)
    && var state := StateOf(before, r);
      multiset(after.prices) == multiset(state.listed + state.carried) && after.sources == state.sources
  }

  // Each list but the first is the one before it, refreshed; no rebuilt price has an end.
  ghost predicate IsHistory(seeds: seq<Seed>, rs: seq<Rebuild>) {
    |seeds| == |rs| + 1
    && forall i {:trigger rs[i]} :: 0 <= i < |rs| ==>
         Endless(rs[i].prices) && IsRefresh(seeds[i], rs[i], seeds[i + 1])
  }

  lemma HistoryAt(seeds: seq<Seed>, rs: seq<Rebuild>, i: nat)
    requires IsHistory(seeds, rs) && i < |rs|
    ensures |seeds| == |rs| + 1 && Endless(rs[i].prices) && IsRefresh(seeds[i], rs[i], seeds[i + 1])
  {
    hide IsRefresh, Endless;
  }

  // ---- Days stay priced ----

  ghost predicate PricedIn(seed: Seed, line: Line, region: string, day: Day) {
    exists p :: p in seed.prices && p.line == line && p.Covers(region, day)
  }

  lemma SamePricesIn(prices: seq<Price>, all: seq<Price>, p: Price)
    requires multiset(prices) == multiset(all)
    ensures p in prices <==> p in all
  {
    assert p in multiset(prices) <==> p in multiset(all);
  }

  lemma RefreshKeepsPriced(before: Seed, r: Rebuild, after: Seed, line: Line, region: string, day: Day)
    requires Endless(r.prices) && IsRefresh(before, r, after) && PricedIn(before, line, region, day)
    ensures PricedIn(after, line, region, day)
  {
    hide Refreshed;
    var state := StateOf(before, r);
    var p :| p in before.prices && p.line == line && p.Covers(region, day);
    var k :| 0 <= k < |before.prices| && before.prices[k] == p;
    NoGap(GivenOf(before, r), Start(r.prices, r.sources), before.prices, k, region, day);
    assert Priced(state, line, None, region, day);
    var q :| q in state.listed + state.carried && q.line == line && q.Covers(region, day);
    SamePricesIn(after.prices, state.listed + state.carried, q);
  }

  // Whatever the rebuilt lists, a day that some list prices in a region stays priced in every later one.
  lemma {:induction false} EverPriced(seeds: seq<Seed>, rs: seq<Rebuild>, i: nat, j: nat, line: Line, region: string,
                                      day: Day)
    requires IsHistory(seeds, rs) && i <= j <= |rs| && PricedIn(seeds[i], line, region, day)
    ensures PricedIn(seeds[j], line, region, day)
  {
    hide IsHistory, IsRefresh, PricedIn, Endless;
    if i == j {
    } else {
      HistoryAt(seeds, rs, j - 1);
      EverPriced(seeds, rs, i, j - 1, line, region, day);
      RefreshKeepsPriced(seeds[j - 1], rs[j - 1], seeds[j], line, region, day);
    }
  }

  lemma RefreshKeepsEnded(before: Seed, r: Rebuild, after: Seed, p: Price) returns (q: Price)
    requires Endless(r.prices) && IsRefresh(before, r, after) && p in before.prices && p.until.Some?
    ensures q in after.prices && q == p.(id := q.id, sourceIds := q.sourceIds)
  {
    hide Refreshed;
    var state := StateOf(before, r);
    var k :| 0 <= k < |before.prices| && before.prices[k] == p;
    q := EndedStays(GivenOf(before, r), Start(r.prices, r.sources), before.prices, k);
    SamePricesIn(after.prices, state.listed + state.carried, q);
  }

  // A price that has ended is in every later list, the same but for its ID and sources.
  lemma {:induction false} EndedForever(seeds: seq<Seed>, rs: seq<Rebuild>, i: nat, j: nat, p: Price)
    returns (q: Price)
    requires IsHistory(seeds, rs) && i <= j <= |rs| && p in seeds[i].prices && p.until.Some?
    ensures q in seeds[j].prices && q == p.(id := q.id, sourceIds := q.sourceIds)
  {
    hide IsHistory, IsRefresh, Endless;
    if i == j {
      q := p;
    } else {
      HistoryAt(seeds, rs, j - 1);
      var last := EndedForever(seeds, rs, i, j - 1, p);
      q := RefreshKeepsEnded(seeds[j - 1], rs[j - 1], seeds[j], last);
    }
  }

  // ---- Lists stay well formed ----

  // Each price has an ID of its own, and cites sources of the list.
  ghost predicate WellFormed(seed: Seed) {
    DistinctIds(seed.prices) && forall p :: p in seed.prices ==> CitedKnown(seed.sources, p.sourceIds)
  }

  // A well-formed list can be refreshed, and stays one.
  lemma CanRefresh(before: Seed, r: Rebuild)
    requires WellFormed(before) && Rebuilt(r.prices, r.sources)
    ensures AllKnown(GivenOf(before, r), before.prices)
    ensures exists after :: IsRefresh(before, r, after)
    ensures forall after :: IsRefresh(before, r, after) ==> WellFormed(after)
  {
    hide Refreshed, SourcesFit, Between;
    var given, start := GivenOf(before, r), Start(r.prices, r.sources);
    forall i | 0 <= i < |before.prices| ensures Known(given, before.prices[i].sourceIds) {
      assert before.prices[i] in before.prices;
    }
    var state := StateOf(before, r);
    StartFits(r.prices, r.sources);
    IdsStayUnique(given, start, before.prices);
    StartCites(given, r);
    RefreshedCites(given, r.sources, start, before.prices);
    FirstBetween(given, start, before.prices);
    ListedCited(given, r.prices, r.sources, state);
    assert IsRefresh(before, r, Seed(state.listed + state.carried, state.sources));
    forall after | IsRefresh(before, r, after) ensures WellFormed(after) {
      OutputIds(state, after.prices);
      forall p | p in after.prices ensures CitedKnown(after.sources, p.sourceIds) {
        SamePricesIn(after.prices, state.listed + state.carried, p);
        if p in state.carried {
          assert CitedKnown(state.sources, p.sourceIds);
        }
      }
    }
  }

  lemma StartCites(given: Given, r: Rebuild)
    ensures Cites(given, r.sources, Start(r.prices, r.sources))
  {
  }
}
