// Refreshing the price list: prices that a rebuilt list replaces are kept for the days they covered.
module Refresh {
  import opened Wrappers
  import opened Prices
  import opened Identifiers
  import opened Names

  datatype Source = Source(id: string, title: string, url: string, retrievedOn: Day)

  type Sources = map<string, Source>

  // What a refresh reads and never changes: the old list's sources, the API's rows, and how days are written.
  datatype Given = Given(oldSources: Sources, index: Option<Index>, iso: Day -> string)

  // What it changes: the rebuilt prices, the old prices kept beside them, and the IDs and sources in use.
  datatype State = State(listed: seq<Price>, carried: seq<Price>, used: set<string>, sources: Sources,
                         added: seq<Source>, notes: seq<Note>)

  // What a refresh says it did: it kept a price, or the API dates a replacement no later than a day the old price was
  // still listed on.
  datatype Note = Carried(id: string, until: Option<Day>) | Warning(id: string, replacedOn: Day, read: Day)

  // Nothing is noted twice.
  function Noted(notes: seq<Note>, note: Note): seq<Note> {
    if note in notes then notes else notes + [note]
  }

  // ---- Sources, dated by the day they were read ----

  function EndsWith(s: string, suffix: string): bool {
    |s| >= |suffix| && s[|s| - |suffix|..] == suffix
  }

  // isoformat() without its dashes.
  function Undashed(s: string): string {
    if s == "" then "" else if s[0] == '-' then Undashed(s[1..]) else [s[0]] + Undashed(s[1..])
  }

  // It keeps every character but the dashes, in their order.
  lemma {:induction false} UndashedMeaning(a: string, b: string, c: char)
    ensures '-' !in Undashed(a) && Undashed(a + b) == Undashed(a) + Undashed(b)
    ensures Undashed([c]) == if c == '-' then "" else [c]
  {
    assert [c][1..] == "" && Undashed("") == "";
    if a == "" {
      assert a + b == b;
    } else {
      var rest := a[1..];
      UndashedMeaning(rest, b, c);
      assert (a + b)[0] == a[0] && (a + b)[1..] == rest + b;
      var head := if a[0] == '-' then "" else [a[0]];
      assert Undashed(a + b) == head + Undashed(rest + b) == head + (Undashed(rest) + Undashed(b));
      assert Undashed(a) == head + Undashed(rest);
    }
  }

  function Stamp(given: Given, source: Source): string {
    "-" + Undashed((given.iso)(source.retrievedOn))
  }

  function NamedFor(given: Given, source: Source, id: string): string {
    if EndsWith(id, Stamp(given, source)) then id else id + Stamp(given, source)
  }

  // One source of an old price, cited as it was read; and the sources with it among them.
  function Dated(given: Given, sources: Sources, added: seq<Source>, id: string): (string, Sources, seq<Source>)
    requires id in given.oldSources
  {
    var source := given.oldSources[id];
    if id in sources && sources[id] == source then (id, sources, added)
    else
      var named := NamedFor(given, source, id);
      if named in sources then (named, sources, added)
      else (named, sources[named := source.(id := named)], added + [source.(id := named)])
  }

  // Every price cites at least one source, and only sources of its list.
  predicate Known(given: Given, ids: seq<string>) {
    |ids| > 0 && forall i :: 0 <= i < |ids| ==> ids[i] in given.oldSources
  }

  function DatedAll(given: Given, sources: Sources, added: seq<Source>,
                    ids: seq<string>): (r: (seq<string>, Sources, seq<Source>))
    requires forall i :: 0 <= i < |ids| ==> ids[i] in given.oldSources
    ensures |r.0| == |ids|
  {
    if ids == [] then ([], sources, added)
    else
      var (front, s, a) := DatedAll(given, sources, added, ids[..|ids| - 1]);
      var (last, s', a') := Dated(given, s, a, ids[|ids| - 1]);
      (front + [last], s', a')
  }

  // ---- Carrying an old price ----

  // A piece of an old price to keep: the regions it keeps, and the last day it keeps them, if it ends.
  datatype Cut = Cut(regions: Option<seq<string>>, until: Option<Day>)

  function CarryBase(given: Given, prior: Price, until: Option<Day>): string {
    if until.Some? then Strip(prior.id) + ".until-" + (given.iso)(until.value)
    else if prior.until.Some? then prior.id
    else Strip(prior.id) + ".last"
  }

  ghost function Carry(given: Given, state: State, prior: Price, cut: Cut): State
    requires Known(given, prior.sourceIds)
  {
    var id := UniqueId(CarryBase(given, prior, cut.until), state.used);
    var (sourceIds, sources, added) := DatedAll(given, state.sources, state.added, prior.sourceIds);
    var piece := prior.(id := id, regions := cut.regions, sourceIds := sourceIds,
                       until := if cut.until.Some? then cut.until else prior.until);
    State(state.listed, state.carried + [piece], state.used + {id}, sources, added,
          Noted(state.notes, Carried(id, piece.until)))
  }

  ghost function CarryAll(given: Given, state: State, prior: Price, cuts: seq<Cut>): State
    requires Known(given, prior.sourceIds)
  {
    if cuts == [] then state
    else Carry(given, CarryAll(given, state, prior, cuts[..|cuts| - 1]), prior, cuts[|cuts| - 1])
  }

  // ---- Which pieces an old price keeps ----

  // The day before the replacement; None when the old price would be left without a day.
  function Ended(prior: Price, replacedOn: Day): Option<Day> {
    if replacedOn <= prior.from then None else Some(replacedOn - 1)
  }

  // The first day that a price counts from in a region: for a regionless one its rows there may make that later.
  function Begins(given: Given, price: Price, region: string): Day {
    if price.regions.Some? || given.index.None? then price.from
    else MaxDay(price.from, StartOf(RegionStarts(price, given.index.value), region, price.from))
  }

  // Regions that share a day, in the order of their days; None, for no end, comes last.
  datatype Group = Group(day: Option<Day>, names: seq<string>)

  predicate Earlier(a: Option<Day>, b: Option<Day>) {
    a.Some? && (b.None? || a.value < b.value)
  }

  function Put(groups: seq<Group>, day: Option<Day>, name: string): seq<Group> {
    if groups == [] then [Group(day, [name])]
    else if groups[0].day == day then [Group(day, groups[0].names + [name])] + groups[1..]
    else if Earlier(day, groups[0].day) then [Group(day, [name])] + groups
    else [groups[0]] + Put(groups[1..], day, name)
  }

  // The regions where a regionless replacement starts later than it does elsewhere, by the day it starts there.
  function Later(given: Given, price: Price, starts: Starts): seq<Group> {
    if starts == [] then []
    else
      var front, region := Later(given, price, starts[..|starts| - 1]), starts[|starts| - 1].0;
      if Begins(given, price, region) > price.from then Put(front, Some(Begins(given, price, region)), region)
      else front
  }

  function LaterCuts(prior: Price, groups: seq<Group>): seq<Cut>
    requires forall i :: 0 <= i < |groups| ==> groups[i].day.Some?
  {
    if groups == [] then []
    else
      var last := groups[|groups| - 1];
      LaterCuts(prior, groups[..|groups| - 1]) + CutAt(prior, last.day.value, Some(SortNames(last.names)))
  }

  // One replacement's piece: the old price until the day before it, unless that leaves it no day.
  function CutAt(prior: Price, day: Day, regions: Option<seq<string>>): seq<Cut> {
    if Ended(prior, day).Some? then [Cut(regions, Ended(prior, day))] else []
  }

  function RegionlessCuts(prior: Price, from: Day, groups: seq<Group>): seq<Cut>
    requires forall i :: 0 <= i < |groups| ==> groups[i].day.Some?
  {
    CutAt(prior, from, None) + LaterCuts(prior, groups)
  }

  // The first regionless price of a line, or the number of prices.
  function Successor(listed: seq<Price>, line: Line): (k: nat)
    ensures k <= |listed|
    ensures k < |listed| ==> listed[k].line == line && listed[k].regions.None?
    ensures forall i :: 0 <= i < k ==> !(listed[i].line == line && listed[i].regions.None?)
  {
    if listed == [] || (listed[0].line == line && listed[0].regions.None?) then 0
    else 1 + Successor(listed[1..], line)
  }

  predicate Covering(price: Price, line: Line, region: string) {
    price.line == line && price.AppliesTo(region)
  }

  // The price of a line that takes over first in a region: the earliest to begin, and the first of those.
  function First(given: Given, listed: seq<Price>, line: Line, region: string): Option<Price> {
    if listed == [] then None
    else
      var front, last := First(given, listed[..|listed| - 1], line, region), listed[|listed| - 1];
      if Covering(last, line, region)
         && (front.None? || Begins(given, last, region) < Begins(given, front.value, region)) then Some(last)
      else front
  }

  // What becomes of a regional price in one of its regions: nothing is kept, or it is until a last day, if any.
  datatype Fate = Replaced | Kept(until: Option<Day>)

  function FateIn(given: Given, listed: seq<Price>, prior: Price, region: string): Fate {
    match First(given, listed, prior.line, region)
    case None => Kept(None)
    case Some(first) =>
      var start := Begins(given, first, region);
      if first.amounts == prior.amounts then
        if start > prior.from then Kept(Some(start - 1)) else Replaced
      else
        var until := Ended(prior, start);
        if until.Some? then Kept(until) else Replaced
  }

  function Ends(given: Given, listed: seq<Price>, prior: Price, regions: seq<string>): seq<Group> {
    if regions == [] then []
    else
      var front, region := Ends(given, listed, prior, regions[..|regions| - 1]), regions[|regions| - 1];
      var fate := FateIn(given, listed, prior, region);
      if fate.Replaced? then front else Put(front, fate.until, region)
  }

  function EndCuts(groups: seq<Group>): seq<Cut> {
    if groups == [] then []
    else EndCuts(groups[..|groups| - 1]) + [Cut(Some(SortNames(groups[|groups| - 1].names)), groups[|groups| - 1].day)]
  }

  predicate Unchanged(prior: Price, listed: seq<Price>) {
    exists i :: 0 <= i < |listed| && prior.Same(listed[i])
  }

  lemma {:induction false} PutDays(groups: seq<Group>, day: Option<Day>, name: string)
    ensures forall g :: g in Put(groups, day, name) ==> g.day == day || exists h :: h in groups && h.day == g.day
  {
    if groups != [] && groups[0].day != day && !Earlier(day, groups[0].day) {
      PutDays(groups[1..], day, name);
    }
  }

  lemma {:induction false} LaterDays(given: Given, price: Price, starts: Starts)
    ensures forall g :: g in Later(given, price, starts) ==> g.day.Some?
  {
    if starts == [] {
    } else {
      LaterDays(given, price, starts[..|starts| - 1]);
      PutDays(Later(given, price, starts[..|starts| - 1]), Some(Begins(given, price, starts[|starts| - 1].0)),
              starts[|starts| - 1].0);
    }
  }

  // The groups of regions where a regionless price begins later than it is listed from.
  function LaterGroups(given: Given, price: Price): (groups: seq<Group>)
    ensures forall i :: 0 <= i < |groups| ==> groups[i].day.Some?
  {
    if given.index.None? then []
    else
      LaterDays(given, price, RegionStarts(price, given.index.value));
      Later(given, price, RegionStarts(price, given.index.value))
  }

  // The pieces of an old price to carry.
  function Cuts(given: Given, listed: seq<Price>, prior: Price): seq<Cut> {
    if Unchanged(prior, listed) then []
    else if prior.until.Some? then [Cut(prior.regions, None)]
    else if prior.regions.Some? then EndCuts(Ends(given, listed, prior, prior.regions.value))
    else
      var k := Successor(listed, prior.line);
      if k == |listed| then [Cut(None, None)]
      else if listed[k].amounts == prior.amounts then []
      else RegionlessCuts(prior, listed[k].from, LaterGroups(given, listed[k]))
  }

  // The rebuilt prices afterwards: a regionless price that did not change keeps its earlier start.
  function ListedAfter(listed: seq<Price>, prior: Price): (after: seq<Price>)
    ensures |after| == |listed|
  {
    var k := Successor(listed, prior.line);
    if Unchanged(prior, listed) || prior.until.Some? || prior.regions.Some? || k == |listed| then listed
    else if listed[k].amounts == prior.amounts
      && listed[k].from > prior.from then listed[k := listed[k].(from := prior.from)]
    else listed
  }

  // The days of the replacements that a regional price's last days are worked out from.
  function ReplacementsIn(given: Given, listed: seq<Price>, prior: Price, regions: seq<string>): seq<Day> {
    if regions == [] then []
    else
      var front, region := ReplacementsIn(given, listed, prior, regions[..|regions| - 1]), regions[|regions| - 1];
      match First(given, listed, prior.line, region)
      case Some(first) => if first.amounts == prior.amounts then front else front + [Begins(given, first, region)]
      case None => front
  }

  // The last day the old price was read.
  function ReadOn(given: Given, ids: seq<string>): Day
    requires Known(given, ids)
  {
    var last := given.oldSources[ids[|ids| - 1]].retrievedOn;
    if |ids| == 1 then last else MaxDay(ReadOn(given, ids[..|ids| - 1]), last)
  }

  // ---- What is done for an old price, in order ----

  // The old price's last day is worked out from a replacement, or a piece of it is carried.
  datatype Action = Look(day: Day) | Keep(cut: Cut)

  // A replacement ends the old price the day before it, unless that leaves it no day.
  function ReplaceActions(prior: Price, day: Day, regions: Option<seq<string>>): seq<Action> {
    [Look(day)] + if Ended(prior, day).Some? then [Keep(Cut(regions, Ended(prior, day)))] else []
  }

  function LaterActions(prior: Price, groups: seq<Group>): seq<Action>
    requires forall i :: 0 <= i < |groups| ==> groups[i].day.Some?
  {
    if groups == [] then []
    else
      var last := groups[|groups| - 1];
      LaterActions(prior, groups[..|groups| - 1]) + ReplaceActions(prior, last.day.value, Some(SortNames(last.names)))
  }

  function RegionlessActions(prior: Price, from: Day, groups: seq<Group>): seq<Action>
    requires forall i :: 0 <= i < |groups| ==> groups[i].day.Some?
  {
    ReplaceActions(prior, from, None) + LaterActions(prior, groups)
  }

  function Looks(days: seq<Day>): seq<Action> {
    if days == [] then [] else Looks(days[..|days| - 1]) + [Look(days[|days| - 1])]
  }

  function Keeps(cuts: seq<Cut>): seq<Action> {
    if cuts == [] then [] else Keeps(cuts[..|cuts| - 1]) + [Keep(cuts[|cuts| - 1])]
  }

  function Actions(given: Given, listed: seq<Price>, prior: Price): seq<Action> {
    if Unchanged(prior, listed) then []
    else if prior.until.Some? then [Keep(Cut(prior.regions, None))]
    else if prior.regions.Some? then
      Looks(ReplacementsIn(given, listed, prior, prior.regions.value))
      + Keeps(EndCuts(Ends(given, listed, prior, prior.regions.value)))
    else
      var k := Successor(listed, prior.line);
      if k == |listed| then [Keep(Cut(None, None))]
      else if listed[k].amounts == prior.amounts then []
      else RegionlessActions(prior, listed[k].from, LaterGroups(given, listed[k]))
  }

  // A replacement dated too early, when its predecessor was still being read, is worth a warning.
  function LookedAt(given: Given, notes: seq<Note>, prior: Price, day: Day): seq<Note>
    requires Known(given, prior.sourceIds)
  {
    var read := ReadOn(given, prior.sourceIds);
    if day <= read then Noted(notes, Warning(prior.id, day, read)) else notes
  }

  ghost function Act(given: Given, state: State, prior: Price, action: Action): State
    requires Known(given, prior.sourceIds)
  {
    match action
    case Look(day) => state.(notes := LookedAt(given, state.notes, prior, day))
    case Keep(cut) => Carry(given, state, prior, cut)
  }

  ghost function ActAll(given: Given, state: State, prior: Price, actions: seq<Action>): State
    requires Known(given, prior.sourceIds)
  {
    if actions == [] then state
    else Act(given, ActAll(given, state, prior, actions[..|actions| - 1]), prior, actions[|actions| - 1])
  }

  // The state just before anything is done for an old price: the rebuilt prices already have their starts.
  ghost function Prepared(state: State, prior: Price): State {
    state.(listed := ListedAfter(state.listed, prior))
  }

  ghost function Step(given: Given, state: State, prior: Price): State
    requires Known(given, prior.sourceIds)
  {
    ActAll(given, Prepared(state, prior), prior, Actions(given, state.listed, prior))
  }

  predicate AllKnown(given: Given, current: seq<Price>) {
    forall i :: 0 <= i < |current| ==> Known(given, current[i].sourceIds)
  }

  ghost function Refreshed(given: Given, state: State, current: seq<Price>): State
    requires AllKnown(given, current)
  {
    if current == [] then state
    else Step(given, Refreshed(given, state, current[..|current| - 1]), current[|current| - 1])
  }

  function Start(listed: seq<Price>, sources: Sources): State {
    State(listed, [], set i | 0 <= i < |listed| :: listed[i].id, sources, [], [])
  }
}
