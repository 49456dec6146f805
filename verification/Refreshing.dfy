// The refresh as it runs: one object whose lists, IDs and sources change as each old price is gone through.
module Refreshing {
  import opened Wrappers
  import opened Prices
  import opened Identifiers
  import opened Names
  import opened Refresh
  import opened Coverage

  class Refresher {
    const given: Given
    var listed: seq<Price>
    var carried: seq<Price>
    var used: set<string>
    var sources: Sources
    var added: seq<Source>
    var notes: seq<Note>

    function Abs(): State
      reads this
    {
      State(listed, carried, used, sources, added, notes)
    }

    constructor (given: Given, listed: seq<Price>, sources: Sources)
      ensures this.given == given && Abs() == Start(listed, sources)
    {
      this.given := given;
      this.listed, this.carried := listed, [];
      this.used := set i | 0 <= i < |listed| :: listed[i].id;
      this.sources, this.added, this.notes := sources, [], [];
    }

    method Add(note: Note)
      modifies this
      ensures Abs() == old(Abs()).(notes := Noted(old(notes), note))
    {
      if note !in notes {
        notes := notes + [note];
      }
    }

    // The ID that an old source is cited under from now on; a copy is added unless one is there.
    method Date(id: string) returns (named: string)
      requires id in given.oldSources
      modifies this
      ensures var (n, s, a) := Dated(given, old(sources), old(added), id);
        named == n && Abs() == old(Abs()).(sources := s, added := a)
    {
      var source := given.oldSources[id];
      if id in sources && sources[id] == source {
        return id;
      }
      var stamp := "-" + Undashed((given.iso)(source.retrievedOn));
      named := id;
      if |id| < |stamp| || id[|id| - |stamp|..] != stamp {
        named := id + stamp;
      }
      if named !in sources {
        var copy := source.(id := named);
        sources := sources[named := copy];
        added := added + [copy];
      }
    }

    method DateAll(ids: seq<string>) returns (named: seq<string>)
      requires forall i :: 0 <= i < |ids| ==> ids[i] in given.oldSources
      modifies this
      ensures var (n, s, a) := DatedAll(given, old(sources), old(added), ids);
        named == n && Abs() == old(Abs()).(sources := s, added := a)
    {
      named := [];
      for i := 0 to |ids|
        invariant (named, sources, added) == DatedAll(given, old(sources), old(added), ids[..i])
        invariant Abs() == old(Abs()).(sources := sources, added := added)
      {
        assert ids[..i + 1][..i] == ids[..i];
        var next := Date(ids[i]);
        named := named + [next];
      }
      assert ids[..|ids|] == ids;
    }

    method CarryPiece(prior: Price, cut: Cut)
      requires Known(given, prior.sourceIds)
      modifies this
      ensures Abs() == Carry(given, old(Abs()), prior, cut)
    {
      var original := Strip(prior.id);
      var base: string;
      if cut.until.Some? {
        base := original + ".until-" + (given.iso)(cut.until.value);
      } else if prior.until.Some? {
        base := prior.id;
      } else {
        base := original + ".last";
      }
      var id := FindId(base, used);
      used := used + {id};
      var sourceIds := DateAll(prior.sourceIds);
      var until := if cut.until.Some? then cut.until else prior.until;
      carried := carried + [prior.(id := id, regions := cut.regions, until := until, sourceIds := sourceIds)];
      Add(Carried(id, until));
    }

    // The old price's last day, noting a replacement dated before the price was last read.
    method End(prior: Price, replacedOn: Day) returns (until: Option<Day>)
      requires Known(given, prior.sourceIds)
      modifies this
      ensures until == Ended(prior, replacedOn)
      ensures Abs() == Act(given, old(Abs()), prior, Look(replacedOn))
    {
      var read := MaxRead(prior.sourceIds);
      if replacedOn <= read {
        Add(Warning(prior.id, replacedOn, read));
      }
      return if replacedOn <= prior.from then None else Some(replacedOn - 1);
    }

    method MaxRead(ids: seq<string>) returns (read: Day)
      requires Known(given, ids)
      ensures read == ReadOn(given, ids)
    {
      read := given.oldSources[ids[0]].retrievedOn;
      for i := 1 to |ids|
        invariant read == ReadOn(given, ids[..i])
      {
        assert ids[..i + 1][..i] == ids[..i];
        read := MaxDay(read, given.oldSources[ids[i]].retrievedOn);
      }
      assert ids[..|ids|] == ids;
    }

    // The first regionless price of a line.
    method FindSuccessor(line: Line) returns (k: nat)
      ensures k == Successor(listed, line)
    {
      k := 0;
      while k < |listed| && !(listed[k].line == line && listed[k].regions.None?)
        invariant k <= |listed|
        invariant Successor(listed, line) == k + Successor(listed[k..], line)
      {
        assert listed[k..][1..] == listed[k + 1..];
        k := k + 1;
      }
    }

    method BeginsIn(price: Price, region: string) returns (day: Day)
      ensures day == Begins(given, price, region)
    {
      if price.regions.Some? || given.index.None? {
        return price.from;
      }
      var starts := ComputeRegionStarts(price, given.index.value);
      day := MaxDay(price.from, StartOf(starts, region, price.from));
    }

    // min() over the prices of the line that apply to the region.
    method FindFirst(line: Line, region: string) returns (first: Option<Price>)
      ensures first == First(given, listed, line, region)
    {
      first := None;
      for i := 0 to |listed|
        invariant first == First(given, listed[..i], line, region)
      {
        assert listed[..i + 1][..i] == listed[..i];
        if Covering(listed[i], line, region) {
          if first.None? {
            first := Some(listed[i]);
          } else {
            var start := BeginsIn(listed[i], region);
            var best := BeginsIn(first.value, region);
            if start < best {
              first := Some(listed[i]);
            }
          }
        }
      }
      assert listed[..|listed|] == listed;
    }

    method GroupLater(price: Price) returns (groups: seq<Group>)
      ensures groups == LaterGroups(given, price)
    {
      groups := [];
      if given.index.None? {
        return;
      }
      var starts := ComputeRegionStarts(price, given.index.value);
      for i := 0 to |starts|
        invariant groups == Later(given, price, starts[..i])
      {
        assert starts[..i + 1][..i] == starts[..i];
        var day := BeginsIn(price, starts[i].0);
        if day > price.from {
          groups := Put(groups, Some(day), starts[i].0);
        }
      }
      assert starts[..|starts|] == starts;
    }

    // One replacement: the old price ends the day before it, in some regions or in all.
    method Replace(ghost start: State, ghost actions: seq<Action>, prior: Price, day: Day, regions: Option<seq<string>>)
      requires Known(given, prior.sourceIds) && Abs() == ActAll(given, start, prior, actions)
      modifies this
      ensures Abs() == ActAll(given, start, prior, actions + ReplaceActions(prior, day, regions))
    {
      hide ActAll, Carry, Known;
      ActAllNext(given, start, prior, actions, Look(day));
      var until := End(prior, day);
      if until.Some? {
        ActAllNext(given, start, prior, actions + [Look(day)], Keep(Cut(regions, until)));
        CarryPiece(prior, Cut(regions, until));
        assert actions + [Look(day)] + [Keep(Cut(regions, until))] == actions + ReplaceActions(prior, day, regions);
      } else {
        assert actions + [Look(day)] == actions + ReplaceActions(prior, day, regions);
      }
    }

    // A regionless price with another price in its place: it ends where the first region changed, and each
    // region that changed later keeps it until then.
    method EndRegionless(prior: Price, successor: Price)
      requires Known(given, prior.sourceIds)
      modifies this
      ensures Abs() == ActAll(given, old(Abs()), prior,
                              RegionlessActions(prior, successor.from, LaterGroups(given, successor)))
    {
      hide ActAll, LaterGroups, ReplaceActions, Known;
      ghost var start := Abs();
      ActsNone(given, start, prior);
      Replace(start, [], prior, successor.from, None);
      ghost var whole := ReplaceActions(prior, successor.from, None);
      assert [] + whole == whole && whole + LaterActions(prior, []) == whole;
      var groups := GroupLater(successor);
      for i := 0 to |groups|
        invariant Abs() == ActAll(given, start, prior, whole + LaterActions(prior, groups[..i]))
      {
        assert groups[..i + 1][..i] == groups[..i];
        ghost var next := ReplaceActions(prior, groups[i].day.value, Some(SortNames(groups[i].names)));
        assert whole + LaterActions(prior, groups[..i]) + next == whole + LaterActions(prior, groups[..i + 1]);
        Replace(start, whole + LaterActions(prior, groups[..i]), prior, groups[i].day.value,
                Some(SortNames(groups[i].names)));
      }
      assert groups[..|groups|] == groups;
    }

    // A regional price's fate in each region: the regions that end, by their last day.
    method GroupEnds(prior: Price, regions: seq<string>) returns (groups: seq<Group>)
      requires Known(given, prior.sourceIds)
      modifies this
      ensures groups == Ends(given, old(listed), prior, regions)
      ensures Abs() == ActAll(given, old(Abs()), prior, Looks(ReplacementsIn(given, old(listed), prior, regions)))
    {
      ghost var start := Abs();
      groups := [];
      ActsNone(given, start, prior);
      for i := 0 to |regions|
        invariant groups == Ends(given, listed, prior, regions[..i]) && listed == start.listed
        invariant Abs() == ActAll(given, start, prior, Looks(ReplacementsIn(given, listed, prior, regions[..i])))
      {
        assert regions[..i + 1][..i] == regions[..i];
        var first := FindFirst(prior.line, regions[i]);
        if first.None? {
          groups := Put(groups, None, regions[i]);
        } else {
          var day := BeginsIn(first.value, regions[i]);
          if first.value.amounts == prior.amounts {
            if day > prior.from {
              groups := Put(groups, Some(day - 1), regions[i]);
            }
          } else {
            ghost var days := ReplacementsIn(given, listed, prior, regions[..i]);
            LooksNext(days, day);
            ActAllNext(given, start, prior, Looks(days), Look(day));
            var until := End(prior, day);
            if until.Some? {
              groups := Put(groups, until, regions[i]);
            }
          }
        }
      }
      assert regions[..|regions|] == regions;
    }

    // A regional price: a piece for each day on which some of its regions end.
    method EndRegional(prior: Price, regions: seq<string>)
      requires Known(given, prior.sourceIds)
      modifies this
      ensures Abs() == ActAll(given, old(Abs()), prior, Looks(ReplacementsIn(given, old(listed), prior, regions))
                                                        + Keeps(EndCuts(Ends(given, old(listed), prior, regions))))
    {
      hide ActAll, Carry, Known;
      ghost var start := Abs();
      ghost var looks := Looks(ReplacementsIn(given, listed, prior, regions));
      var groups := GroupEnds(prior, regions);
      assert looks + Keeps(EndCuts([])) == looks;
      for i := 0 to |groups|
        invariant Abs() == ActAll(given, start, prior, looks + Keeps(EndCuts(groups[..i])))
      {
        assert groups[..i + 1][..i] == groups[..i];
        var cut := Cut(Some(SortNames(groups[i].names)), groups[i].day);
        KeepsNext(EndCuts(groups[..i]), cut);
        assert looks + Keeps(EndCuts(groups[..i])) + [Keep(cut)] == looks + Keeps(EndCuts(groups[..i + 1]));
        ActAllNext(given, start, prior, looks + Keeps(EndCuts(groups[..i])), Keep(cut));
        CarryPiece(prior, cut);
      }
      assert groups[..|groups|] == groups;
    }

    // One old price.
    method GoThrough(prior: Price)
      requires Known(given, prior.sourceIds)
      modifies this
      ensures Abs() == Step(given, old(Abs()), prior)
    {
      ghost var start := Abs();
      ActsNone(given, start, prior);
      if exists i :: 0 <= i < |listed| && prior.Same(listed[i]) {
        return;
      }
      if prior.until.Some? {
        // It has an end and keeps it.
        CarryPiece(prior, Cut(prior.regions, None));
        ActsOne(given, start, prior, Cut(prior.regions, None));
        return;
      }
      if prior.regions.Some? {
        EndRegional(prior, prior.regions.value);
        return;
      }
      var k := FindSuccessor(prior.line);
      if k == |listed| {
        // Nothing regionless takes its place.
        CarryPiece(prior, Cut(None, None));
        ActsOne(given, start, prior, Cut(None, None));
      } else if listed[k].amounts == prior.amounts {
        if listed[k].from > prior.from {
          listed := listed[k := listed[k].(from := prior.from)];
        }
      } else {
        EndRegionless(prior, listed[k]);
      }
    }

    // The whole refresh, in place; and the lists it leaves, in the order of their IDs.
    method CarryForward(current: seq<Price>) returns (prices: seq<Price>, dated: seq<Source>)
      requires AllKnown(given, current)
      modifies this
      ensures Abs() == Refreshed(given, old(Abs()), current)
      ensures multiset(prices) == multiset(listed + carried) && OrderedBy(prices, PriceId)
      ensures multiset(dated) == multiset(added) && OrderedBy(dated, SourceId)
    {
      for i := 0 to |current|
        invariant Abs() == Refreshed(given, old(Abs()), current[..i])
      {
        assert current[..i + 1][..i] == current[..i];
        GoThrough(current[i]);
      }
      assert current[..|current|] == current;
      SortByMeaning(listed + carried, PriceId);
      SortByMeaning(added, SourceId);
      return SortBy(listed + carried, PriceId), SortBy(added, SourceId);
    }
  }

  function PriceId(price: Price): string {
    price.id
  }

  function SourceId(source: Source): string {
    source.id
  }

  lemma ActsNone(given: Given, state: State, prior: Price)
    requires Known(given, prior.sourceIds)
    ensures ActAll(given, state, prior, []) == state
  {
  }

  lemma ActsOne(given: Given, state: State, prior: Price, cut: Cut)
    requires Known(given, prior.sourceIds)
    ensures ActAll(given, state, prior, [Keep(cut)]) == Carry(given, state, prior, cut)
  {
    hide Carry, Known;
    assert [Keep(cut)][..0] == [];
  }

  lemma LooksNext(days: seq<Day>, day: Day)
    ensures Looks(days + [day]) == Looks(days) + [Look(day)]
  {
    assert (days + [day])[..|days|] == days;
  }

  lemma KeepsNext(cuts: seq<Cut>, cut: Cut)
    ensures Keeps(cuts + [cut]) == Keeps(cuts) + [Keep(cut)]
  {
    assert (cuts + [cut])[..|cuts|] == cuts;
  }
}
