// Lists in the order of their IDs, as refreshes write them: in them every piece ends exactly.
module SortedLists {
  import opened Wrappers
  import opened Prices
  import opened Identifiers
  import opened Names
  import opened Refresh
  import opened Coverage
  import opened Pieces
  import opened CarriedNames
  import opened Idempotence
  import opened Repeated
  import opened Refreshing
  import opened Lifetimes

  // ---- How IDs are made ----

  // The ID of a line, and whether its type is always listed by region.
  datatype Scheme = Scheme(base: Line -> string, regional: Line -> bool)

  // No line's ID looks like that of a carried price.
  ghost predicate Plain(scheme: Scheme) {
    forall line :: Strip(scheme.base(line)) == scheme.base(line)
  }

  // What an ID is made from: the line's, and for a price of some regions a number.
  predicate IsStem(base: string, regional: bool, stem: string) {
    if !regional then stem == base
    else
      |stem| > |base| + 2 && stem[..|base| + 2] == base + ".r" && DigitsEnd(stem[|base| + 2..]) == |stem| - |base| - 2
  }

  // The ID a price is listed under, or carried under while it is open.
  predicate IsStemOrLast(id: string, stem: string) {
    id == stem || IsBaseOrNumbered(id, stem + ".last")
  }

  // A price that has not ended has such an ID; one of a regional type has regions, whatever its ID.
  ghost predicate Shaped(scheme: Scheme, p: Price) {
    p.until.None? ==>
      if scheme.regional(p.line) then p.regions.Some?
      else exists stem :: IsStem(scheme.base(p.line), p.regions.Some?, stem) && IsStemOrLast(p.id, stem)
  }

  lemma {:induction false} StripNothing(s: string)
    requires forall i :: 0 <= i <= |s| ==> !IsCarriedSuffix(s[i..])
    ensures Strip(s) == s
  {
    if s == "" {
    } else {
      assert s[0..] == s;
      forall i | 0 <= i <= |s[1..]| ensures !IsCarriedSuffix(s[1..][i..]) {
        assert s[1..][i..] == s[i + 1..];
      }
      StripNothing(s[1..]);
    }
  }

  // A regional stem's last dot is that of its number.
  lemma LastDot(base: string, stem: string)
    requires IsStem(base, true, stem)
    ensures stem[..|base|] == base && stem[|base|] == '.' && stem[|base| + 1] == 'r'
    ensures forall i :: |base| < i < |stem| ==> stem[i] != '.'
  {
    var n, head := |base|, stem[..|base| + 2];
    DigitsHaveNoDot(stem[n + 2..]);
    assert stem[..n] == head[..n] && stem[n] == head[n] && stem[n + 1] == head[n + 1];
    forall i | n < i < |stem| ensures stem[i] != '.' {
      if i > n + 1 {
        assert stem[i] == stem[n + 2..][i - n - 2];
      }
    }
  }

  lemma NotCarriedSuffix(base: string, stem: string, i: nat)
    requires IsStem(base, true, stem) && i <= |stem|
    ensures !IsCarriedSuffix(stem[i..])
  {
    var tail, n := stem[i..], |base|;
    LastDot(base, stem);
    if i < n {
      assert tail[1..][n - i - 1] == '.';
    } else {
      assert i == n ==> tail[1] == 'r';
      assert i == n && |tail| >= 5 ==> tail[..5][1] == 'r';
      assert i == n && |tail| >= 7 ==> tail[..7][1] == 'r';
      assert i > n && tail != "" ==> tail[0] != '.';
    }
    if IsCarriedSuffix(tail) {
      OneDot(tail);
    }
  }

  lemma StemPlain(base: string, regional: bool, stem: string)
    requires IsStem(base, regional, stem) && Strip(base) == base
    ensures Strip(stem) == stem
  {
    if regional {
      forall i | 0 <= i <= |stem| ensures !IsCarriedSuffix(stem[i..]) {
        NotCarriedSuffix(base, stem, i);
      }
      StripNothing(stem);
    }
  }

  // An open price that is carried again has the ID of its stem, as before.
  lemma LastAgain(scheme: Scheme, p: Price, q: Price)
    requires Plain(scheme) && Shaped(scheme, p) && p.until.None? && q.until.None?
    requires q.line == p.line && (q.regions.Some? <==> p.regions.Some?)
    requires IsBaseOrNumbered(q.id, Strip(p.id) + ".last")
    ensures Shaped(scheme, q)
  {
    if !scheme.regional(p.line) {
      var base := scheme.base(p.line);
      var stem :| IsStem(base, p.regions.Some?, stem) && IsStemOrLast(p.id, stem);
      StemPlain(base, p.regions.Some?, stem);
      if p.id != stem {
        OpenIdKept(stem, p.id);
      }
      assert IsStemOrLast(q.id, stem);
    }
  }

  // ---- The order of IDs ----

  lemma {:induction false} AtMostFrom(a: string, b: string, k: nat)
    requires k <= |a| && k <= |b| && a[..k] == b[..k]
    ensures AtMost(a, b) <==> AtMost(a[k..], b[k..])
  {
    if k == 0 {
    } else {
      assert a[0] == a[..k][0] == b[..k][0] == b[0];
      assert a[1..][..k - 1] == a[..k][1..] && b[1..][..k - 1] == b[..k][1..];
      AtMostFrom(a[1..], b[1..], k - 1);
    }
  }

  // An ID that goes on with .r is after the line's own and those that go on with .last.
  lemma RegionalAfter(base: string, everywhere: string, stem: string, regional: string)
    requires IsStemOrLast(everywhere, base) && IsStem(base, true, stem) && IsStemOrLast(regional, stem)
    ensures !AtMost(regional, everywhere)
  {
    var n := |base|;
    LastDot(base, stem);
    assert regional[..n] == base && regional[n] == '.' && regional[n + 1] == 'r' by {
      assert regional[..|stem|] == stem;
      assert regional[..n] == regional[..|stem|][..n];
      assert regional[n] == regional[..|stem|][n] && regional[n + 1] == regional[..|stem|][n + 1];
    }
    if everywhere == base {
      AtMostFrom(regional, everywhere, n);
    } else {
      var last := base + ".last";
      assert everywhere[..n] == everywhere[..|last|][..n] == base;
      assert everywhere[n] == everywhere[..|last|][n] == '.' && everywhere[n + 1] == everywhere[..|last|][n + 1] == 'l';
      assert regional[..n + 1] == regional[..n] + [regional[n]]
        && everywhere[..n + 1] == everywhere[..n] + [everywhere[n]];
      AtMostFrom(regional, everywhere, n + 1);
    }
  }

  lemma ShapedOrder(scheme: Scheme, p: Price, q: Price)
    requires Shaped(scheme, p) && Shaped(scheme, q) && p.line == q.line
    requires p.until.None? && p.regions.Some? && OpenEverywhere(q)
    ensures !AtMost(p.id, q.id)
  {
    var base := scheme.base(p.line);
    var stem :| IsStem(base, true, stem) && IsStemOrLast(p.id, stem);
    var own :| IsStem(base, false, own) && IsStemOrLast(q.id, own);
    RegionalAfter(base, q.id, stem, p.id);
  }

  // ---- Lists as the refresh writes them ----

  // No line has two open regionless prices.
  ghost predicate OneOpen(prices: seq<Price>) {
    forall p, q :: p in prices && q in prices && OpenEverywhere(p) && OpenEverywhere(q) && p.line == q.line ==> p == q
  }

  // In the order of their IDs, which are made as above.
  ghost predicate Written(scheme: Scheme, seed: Seed) {
    && WellFormed(seed) && OrderedBy(seed.prices, PriceId) && OneOpen(seed.prices)
    && forall p :: p in seed.prices ==> Shaped(scheme, p)
  }

  ghost predicate Built(scheme: Scheme, r: Rebuild) {
    Rebuilt(r.prices, r.sources) && forall p :: p in r.prices ==> Shaped(scheme, p)
  }

  lemma OnePlace(prices: seq<Price>, i: nat, j: nat)
    requires DistinctIds(prices) && i < |prices| && j < |prices| && prices[i] == prices[j]
    ensures i == j
  {
  }

  // In such a list no open regionless price comes after an open price of its line.
  lemma WrittenNoneLater(scheme: Scheme, seed: Seed, k: nat)
    requires Written(scheme, seed) && k < |seed.prices| && seed.prices[k].until.None?
    ensures NoneLater(seed.prices, k)
  {
    hide Shaped, AtMost, CitedKnown;
    var prices := seed.prices;
    forall m | k < m < |prices| && OpenEverywhere(prices[m]) ensures prices[m].line != prices[k].line {
      assert prices[m] in prices && prices[k] in prices && AtMost(prices[k].id, prices[m].id);
      if prices[m].line == prices[k].line {
        if prices[k].regions.Some? {
          ShapedOrder(scheme, prices[k], prices[m]);
        } else {
          OnePlace(prices, k, m);
        }
      }
    }
  }

  // ---- What stays open ----

  // An open carried price is a piece of an open old one: regionless when that was, and then the only piece of it.
  lemma OpenOrigin(given: Given, state: State, current: seq<Price>, i: nat) returns (k: nat, j: nat)
    requires AllKnown(given, current) && state.carried == [] && i < |Refreshed(given, state, current).carried|
    requires Refreshed(given, state, current).carried[i].until.None?
    ensures Origin(given, state, current, i, k, j)
    ensures var p := Refreshed(given, state, current).carried[i];
      && current[k].until.None? && p.line == current[k].line && (p.regions.Some? <==> current[k].regions.Some?)
      && IsBaseOrNumbered(p.id, Strip(current[k].id) + ".last") && (p.regions.None? ==> j == 0)
  {
    hide Refreshed, Cuts, Strip, IsBaseOrNumbered;
    k, j := CarriedOrigin(given, state, current, i);
    OriginId(given, state, current, i, k, j);
    var listed := Refreshed(given, state, current[..k]).listed;
    OpenCut(given, listed, current[k], j);
  }

  lemma OpenCut(given: Given, listed: seq<Price>, prior: Price, j: nat)
    requires j < |Cuts(given, listed, prior)| && prior.until.None? && Cuts(given, listed, prior)[j].until.None?
    ensures var cut := Cuts(given, listed, prior)[j];
      (cut.regions.Some? <==> prior.regions.Some?) && (cut.regions.None? ==> j == 0)
  {
    if prior.regions.Some? {
      RegionalCuts(given, listed, prior, j);
    } else if Successor(listed, prior.line) < |listed| {
      RegionlessCutsAre(given, listed, prior);
      RegionlessPiece(given, prior, listed[Successor(listed, prior.line)], j);
    }
  }

  // ---- A refresh keeps a list so ----

  lemma ListedShaped(scheme: Scheme, r: Rebuild, listed: seq<Price>)
    requires Built(scheme, r) && Between(r.prices, listed, r.prices)
    ensures forall p :: p in listed ==> Shaped(scheme, p)
    ensures OneOpen(listed)
  {
    hide Strip, IsBaseOrNumbered, DigitsEnd, CitedKnown;
    forall p | p in listed ensures Shaped(scheme, p) {
      var i :| 0 <= i < |listed| && listed[i] == p;
      assert r.prices[i] in r.prices && Backdated(r.prices[i], p);
    }
    forall p, q | p in listed && q in listed && OpenEverywhere(p) && OpenEverywhere(q) && p.line == q.line
      ensures p == q
    {
      var i :| 0 <= i < |listed| && listed[i] == p;
      var j :| 0 <= j < |listed| && listed[j] == q;
      OneOfLine(r.prices, i, j);
    }
  }

  lemma CarriedShaped(scheme: Scheme, before: Seed, r: Rebuild, i: nat)
    requires Plain(scheme) && Written(scheme, before) && AllKnown(GivenOf(before, r), before.prices)
    requires i < |StateOf(before, r).carried|
    ensures Shaped(scheme, StateOf(before, r).carried[i])
  {
    hide Refreshed, Cuts, FromCut, Plain;
    var p := StateOf(before, r).carried[i];
    if p.until.None? {
      hide IsBaseOrNumbered, Strip, Shaped;
      var k, j := OpenOrigin(GivenOf(before, r), Start(r.prices, r.sources), before.prices, i);
      assert before.prices[k] in before.prices;
      LastAgain(scheme, before.prices[k], p);
    }
  }

  // Two open regionless prices of a line that are carried are one piece of one old price.
  lemma CarriedOnce(scheme: Scheme, before: Seed, r: Rebuild, i: nat, i': nat)
    requires Written(scheme, before) && AllKnown(GivenOf(before, r), before.prices)
    requires i < |StateOf(before, r).carried| && i' < |StateOf(before, r).carried|
    requires var (p, q) := (StateOf(before, r).carried[i], StateOf(before, r).carried[i']);
      OpenEverywhere(p) && OpenEverywhere(q) && p.line == q.line
    ensures i == i'
  {
    hide Refreshed, Cuts, FromCut, Shaped, IsBaseOrNumbered, Strip;
    var given, start := GivenOf(before, r), Start(r.prices, r.sources);
    var k, j := OpenOrigin(given, start, before.prices, i);
    var k', j' := OpenOrigin(given, start, before.prices, i');
    assert before.prices[k] in before.prices && before.prices[k'] in before.prices;
    OnePlace(before.prices, k, k');
  }

  lemma OutputOneOpen(scheme: Scheme, before: Seed, r: Rebuild)
    requires Built(scheme, r) && Written(scheme, before) && AllKnown(GivenOf(before, r), before.prices)
    requires Between(r.prices, StateOf(before, r).listed, r.prices)
    ensures OneOpen(StateOf(before, r).listed + StateOf(before, r).carried)
  {
    var given, start := GivenOf(before, r), Start(r.prices, r.sources);
    var state := StateOf(before, r);
    hide Refreshed, Shaped, Written, CitedKnown;
    ListedShaped(scheme, r, state.listed);
    forall p, q | p in state.listed + state.carried && q in state.listed + state.carried && OpenEverywhere(p)
                  && OpenEverywhere(q) && p.line == q.line
      ensures p == q
    {
      if p in state.carried {
        var i :| 0 <= i < |state.carried| && state.carried[i] == p;
        CarriedSettled(given, start, before.prices, i);
        if q in state.carried {
          var i' :| 0 <= i' < |state.carried| && state.carried[i'] == q;
          CarriedOnce(scheme, before, r, i, i');
        } else {
          NoSuccessor(r.prices, state.listed, q);
        }
      } else if q in state.carried {
        var i :| 0 <= i < |state.carried| && state.carried[i] == q;
        CarriedSettled(given, start, before.prices, i);
        NoSuccessor(r.prices, state.listed, p);
      }
    }
  }

  // A regionless listed price of a line is a successor there.
  lemma NoSuccessor(rebuilt: seq<Price>, listed: seq<Price>, q: Price)
    requires Between(rebuilt, listed, rebuilt) && q in listed && q.regions.None?
    ensures Successor(rebuilt, q.line) < |rebuilt|
  {
    var i :| 0 <= i < |listed| && listed[i] == q;
    assert rebuilt[i].line == q.line && rebuilt[i].regions.None?;
  }

  lemma RefreshKeepsWritten(scheme: Scheme, before: Seed, r: Rebuild, after: Seed)
    requires Plain(scheme) && Written(scheme, before) && Built(scheme, r) && IsRefresh(before, r, after)
    requires OrderedBy(after.prices, PriceId)
    ensures Written(scheme, after)
  {
    hide Refreshed, Shaped, Plain, AtMost, CitedKnown, Settled;
    var state := StateOf(before, r);
    CanRefresh(before, r);
    FirstBetween(GivenOf(before, r), Start(r.prices, r.sources), before.prices);
    OutputOneOpen(scheme, before, r);
    ListedShaped(scheme, r, state.listed);
    forall p | p in after.prices ensures p in state.listed + state.carried && Shaped(scheme, p) {
      SamePricesIn(after.prices, state.listed + state.carried, p);
      if p in state.carried {
        var i :| 0 <= i < |state.carried| && state.carried[i] == p;
        CarriedShaped(scheme, before, r, i);
      }
    }
  }

  // ---- Every piece ends exactly ----

  // What a piece that an open price was cut into shows in the list: it covers a day, and its replacement begins the day
  // after it ends, in every region that it lists, or in general if it lists none.
  ghost predicate EndsRight(given: Given, listed: seq<Price>, prior: Price, piece: Price)
    requires piece.until.Some?
  {
    var s := Successor(listed, prior.line);
    && piece.from <= piece.until.value
    && (prior.regions.Some? ==> piece.regions.Some? && forall n :: n in piece.regions.value ==>
          TakesOver(given, listed, prior.line, n) == Some(piece.until.value + 1))
    && (prior.regions.None? ==>
          && s < |listed| && (piece.regions.None? ==> listed[s].from == piece.until.value + 1)
          && (piece.regions.Some? ==> forall n :: n in piece.regions.value ==>
                Begins(given, listed[s], n) == piece.until.value + 1))
  }

  // Refreshing a list as a refresh writes it closes a price exactly the day before its replacement begins, in the list
  // that comes out, in every region.
  lemma WrittenEndsExactly(scheme: Scheme, before: Seed, r: Rebuild, i: nat) returns (k: nat, j: nat)
    requires Written(scheme, before) && Rebuilt(r.prices, r.sources) && AllKnown(GivenOf(before, r), before.prices)
    requires i < |StateOf(before, r).carried|
    ensures Origin(GivenOf(before, r), Start(r.prices, r.sources), before.prices, i, k, j)
    ensures var (prior, piece) := (before.prices[k], StateOf(before, r).carried[i]);
      prior.until.None? && piece.until.Some? ==> EndsRight(GivenOf(before, r), StateOf(before, r).listed, prior, piece)
  {
    hide Refreshed, Cuts, FromCut, TakesOver, Overtaken, OvertakenEverywhere, Begins, Written;
    var given, start := GivenOf(before, r), Start(r.prices, r.sources);
    k, j := ExactEnds(given, start, before.prices, i);
    if before.prices[k].until.None? {
      WrittenNoneLater(scheme, before, k);
      NoneLaterOvertakes(given, r.prices, before.prices, k);
      FirstBetween(given, start, before.prices);
      BetweenShape(r.prices, StateOf(before, r).listed, StateOf(before, r).listed);
      SuccessorShape(r.prices, StateOf(before, r).listed, before.prices[k].line);
    }
  }

  // A history of refreshes, each of which writes its list in order.
  ghost predicate IsWrittenHistory(scheme: Scheme, seeds: seq<Seed>, rs: seq<Rebuild>) {
    && Plain(scheme) && IsHistory(seeds, rs) && Written(scheme, seeds[0])
    && (forall i :: 0 <= i < |rs| ==> Built(scheme, rs[i]))
    && forall i :: 0 <= i < |seeds| ==> OrderedBy(seeds[i].prices, PriceId)
  }

  lemma WrittenAt(scheme: Scheme, seeds: seq<Seed>, rs: seq<Rebuild>, i: nat)
    requires IsWrittenHistory(scheme, seeds, rs) && i < |rs|
    ensures |seeds| == |rs| + 1 && Plain(scheme) && Built(scheme, rs[i]) && IsRefresh(seeds[i], rs[i], seeds[i + 1])
    ensures OrderedBy(seeds[i + 1].prices, PriceId)
  {
    hide IsHistory, IsRefresh, Built, Written, Plain, OrderedBy;
    HistoryAt(seeds, rs, i);
  }

  // All its lists are as a refresh writes them.
  lemma {:induction false} EverWritten(scheme: Scheme, seeds: seq<Seed>, rs: seq<Rebuild>, n: nat)
    requires IsWrittenHistory(scheme, seeds, rs) && n <= |rs|
    ensures Written(scheme, seeds[n])
  {
    if n == 0 {
      hide Written, IsHistory;
    } else {
      hide Written, Built, IsRefresh, IsWrittenHistory, Plain;
      WrittenAt(scheme, seeds, rs, n - 1);
      EverWritten(scheme, seeds, rs, n - 1);
      RefreshKeepsWritten(scheme, seeds[n - 1], rs[n - 1], seeds[n]);
    }
  }

  // So in every refresh of the history, every piece ends exactly.
  lemma HistoryEndsExactly(scheme: Scheme, seeds: seq<Seed>, rs: seq<Rebuild>, n: nat, i: nat) returns (k: nat, j: nat)
    requires IsWrittenHistory(scheme, seeds, rs) && n < |rs|
    requires i < |StateOf(seeds[n], rs[n]).carried|
    ensures Origin(GivenOf(seeds[n], rs[n]), Start(rs[n].prices, rs[n].sources), seeds[n].prices, i, k, j)
    ensures var (prior, piece) := (seeds[n].prices[k], StateOf(seeds[n], rs[n]).carried[i]);
      prior.until.None? && piece.until.Some? ==>
        EndsRight(GivenOf(seeds[n], rs[n]), StateOf(seeds[n], rs[n]).listed, prior, piece)
  {
    WrittenAt(scheme, seeds, rs, n);
    hide Written, Origin, EndsRight, Rebuilt, Refreshed, IsWrittenHistory;
    EverWritten(scheme, seeds, rs, n);
    k, j := WrittenEndsExactly(scheme, seeds[n], rs[n], i);
    assert k < |seeds[n].prices| by {
      OriginPlace(GivenOf(seeds[n], rs[n]), Start(rs[n].prices, rs[n].sources), seeds[n].prices, i, k, j);
    }
  }

  lemma OriginPlace(given: Given, state: State, current: seq<Price>, i: nat, k: nat, j: nat)
    requires AllKnown(given, current) && Origin(given, state, current, i, k, j)
    ensures k < |current|
  {
  }
}
