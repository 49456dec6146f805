// No day that had a price loses it, and every piece that ends, ends exactly where its replacement begins.
module Coverage {
  import opened Wrappers
  import opened Prices
  import opened Identifiers
  import opened Names
  import opened Refresh

  // ---- Groups of regions ----

  ghost predicate In(groups: seq<Group>, day: Option<Day>, name: string) {
    exists i :: 0 <= i < |groups| && groups[i].day == day && name in groups[i].names
  }

  ghost predicate OrderedDays(groups: seq<Group>) {
    forall i, j :: 0 <= i < j < |groups| ==> Earlier(groups[i].day, groups[j].day)
  }

  lemma {:induction false} PutMeaning(groups: seq<Group>, day: Option<Day>, name: string, d: Option<Day>, x: string)
    ensures In(Put(groups, day, name), d, x) <==> In(groups, d, x) || (d == day && x == name)
  {
    if groups == [] {
      assert In([Group(day, [name])], day, name) by { assert [Group(day, [name])][0].day == day; }
    } else {
      var head, tail := groups[0], groups[1..];
      InCons(head, tail, d, x);
      assert groups == [head] + tail;
      if head.day == day {
        InCons(Group(day, head.names + [name]), tail, d, x);
      } else if Earlier(day, head.day) {
        InCons(Group(day, [name]), groups, d, x);
      } else {
        PutMeaning(tail, day, name, d, x);
        InCons(head, Put(tail, day, name), d, x);
      }
    }
  }

  lemma InCons(head: Group, tail: seq<Group>, d: Option<Day>, x: string)
    ensures In([head] + tail, d, x) <==> (head.day == d && x in head.names) || In(tail, d, x)
  {
    var all := [head] + tail;
    if In(tail, d, x) {
      var i :| 0 <= i < |tail| && tail[i].day == d && x in tail[i].names;
      assert all[i + 1] == tail[i];
    }
    if head.day == d && x in head.names {
      assert all[0] == head;
    }
  }

  lemma OrderedDaysCons(head: Group, tail: seq<Group>)
    requires OrderedDays(tail) && forall g :: g in tail ==> Earlier(head.day, g.day)
    ensures OrderedDays([head] + tail)
  {
  }

  lemma {:induction false} PutAfter(groups: seq<Group>, day: Option<Day>, name: string, first: Option<Day>)
    requires Earlier(first, day) && forall g :: g in groups ==> Earlier(first, g.day)
    ensures forall g :: g in Put(groups, day, name) ==> Earlier(first, g.day)
  {
    if groups == [] {
    } else {
      assert groups == [groups[0]] + groups[1..];
      PutAfter(groups[1..], day, name, first);
    }
  }

  lemma {:induction false} PutOrdered(groups: seq<Group>, day: Option<Day>, name: string)
    requires OrderedDays(groups)
    ensures OrderedDays(Put(groups, day, name))
  {
    if groups == [] {
    } else {
      var head, tail := groups[0], groups[1..];
      assert groups == [head] + tail;
      forall h | h in tail ensures Earlier(head.day, h.day) {
        var j :| 0 <= j < |tail| && tail[j] == h;
        assert groups[j + 1] == h;
      }
      if head.day == day {
        OrderedDaysCons(Group(day, head.names + [name]), tail);
      } else if Earlier(day, head.day) {
        OrderedDaysCons(Group(day, [name]), groups);
      } else {
        PutOrdered(tail, day, name);
        PutAfter(tail, day, name, head.day);
        OrderedDaysCons(head, Put(tail, day, name));
      }
    }
  }

  // Each region that ends is in the group of its last day, and in no other.
  lemma {:induction false} EndsMeaning(given: Given, listed: seq<Price>, prior: Price, regions: seq<string>,
                                       d: Option<Day>, x: string)
    ensures In(Ends(given, listed, prior, regions), d, x)
      <==> x in regions && FateIn(given, listed, prior, x) == Kept(d)
    ensures OrderedDays(Ends(given, listed, prior, regions))
  {
    if regions == [] {
    } else {
      var front, region := regions[..|regions| - 1], regions[|regions| - 1];
      assert regions == front + [region];
      EndsMeaning(given, listed, prior, front, d, x);
      var fate := FateIn(given, listed, prior, region);
      if fate.Kept? {
        PutMeaning(Ends(given, listed, prior, front), fate.until, region, d, x);
        PutOrdered(Ends(given, listed, prior, front), fate.until, region);
      }
    }
  }

  ghost predicate Listed(starts: Starts, region: string) {
    exists i :: 0 <= i < |starts| && starts[i].0 == region
  }

  lemma {:induction false} LaterMeaning(given: Given, price: Price, starts: Starts, d: Option<Day>, x: string)
    ensures In(Later(given, price, starts), d, x)
      <==> Listed(starts, x) && Begins(given, price, x) > price.from && d == Some(Begins(given, price, x))
    ensures OrderedDays(Later(given, price, starts))
  {
    if starts == [] {
    } else {
      var front, region := starts[..|starts| - 1], starts[|starts| - 1].0;
      LaterMeaning(given, price, front, d, x);
      if Listed(front, x) {
        var i :| 0 <= i < |front| && front[i].0 == x;
        assert starts[i].0 == x;
      }
      assert Listed(starts, x) <==> Listed(front, x) || x == region;
      if Begins(given, price, region) > price.from {
        PutMeaning(Later(given, price, front), Some(Begins(given, price, region)), region, d, x);
        PutOrdered(Later(given, price, front), Some(Begins(given, price, region)), region);
      }
    }
  }

  // ---- The cuts of groups ----

  lemma {:induction false} EndCutAt(groups: seq<Group>, i: nat)
    requires i < |groups|
    ensures |EndCuts(groups)| == |groups|
    ensures EndCuts(groups)[i] == Cut(Some(SortNames(groups[i].names)), groups[i].day)
  {
    var front := groups[..|groups| - 1];
    if i < |front| {
      EndCutAt(front, i);
    } else if front != [] {
      EndCutAt(front, 0);
    }
  }

  ghost predicate HasDays(groups: seq<Group>) {
    forall i :: 0 <= i < |groups| ==> groups[i].day.Some?
  }

  // The cut of a later group, when the old price has a day left before the group's.
  lemma {:induction false} LaterCutOf(prior: Price, groups: seq<Group>, i: nat)
    requires HasDays(groups) && i < |groups| && groups[i].day.value > prior.from
    ensures Cut(Some(SortNames(groups[i].names)), Some(groups[i].day.value - 1)) in LaterCuts(prior, groups)
  {
    var front := groups[..|groups| - 1];
    if i < |front| {
      LaterCutOf(prior, front, i);
    }
  }

  // And every cut of later groups is the cut of one of them.
  lemma {:induction false} LaterCutAt(prior: Price, groups: seq<Group>, j: nat) returns (i: nat)
    requires HasDays(groups) && j < |LaterCuts(prior, groups)|
    ensures i < |groups| && groups[i].day.value > prior.from
    ensures LaterCuts(prior, groups)[j] == Cut(Some(SortNames(groups[i].names)), Some(groups[i].day.value - 1))
  {
    var front := groups[..|groups| - 1];
    if j < |LaterCuts(prior, front)| {
      i := LaterCutAt(prior, front, j);
    } else {
      i := |groups| - 1;
    }
  }

  // Two cuts are cuts of two groups, in the same order.
  lemma {:induction false} LaterCutPair(prior: Price, groups: seq<Group>, j: nat, k: nat) returns (a: nat, b: nat)
    requires HasDays(groups) && j < k < |LaterCuts(prior, groups)|
    ensures a < b < |groups|
    ensures LaterCuts(prior, groups)[j].regions == Some(SortNames(groups[a].names))
    ensures LaterCuts(prior, groups)[k].regions == Some(SortNames(groups[b].names))
  {
    var front := groups[..|groups| - 1];
    if k < |LaterCuts(prior, front)| {
      a, b := LaterCutPair(prior, front, j, k);
    } else {
      a := LaterCutAt(prior, front, j);
      b := |groups| - 1;
    }
  }

  // ---- What carrying adds, and what it leaves alone ----

  // A carried piece is the old price, cut: only its ID and its dated sources are new.
  ghost predicate FromCut(prior: Price, cut: Cut, piece: Price) {
    piece == prior.(id := piece.id, regions := cut.regions, sourceIds := piece.sourceIds,
                    until := if cut.until.Some? then cut.until else prior.until)
  }

  lemma {:induction false} CarryAllShape(given: Given, state: State, prior: Price, cuts: seq<Cut>)
    requires Known(given, prior.sourceIds)
    ensures var after := CarryAll(given, state, prior, cuts);
      |after.carried| == |state.carried| + |cuts| && state.carried <= after.carried && after.listed == state.listed
  {
    if cuts == [] {
    } else {
      CarryAllShape(given, state, prior, cuts[..|cuts| - 1]);
    }
  }

  lemma {:induction false} CarryAllPiece(given: Given, state: State, prior: Price, cuts: seq<Cut>, j: nat)
    requires Known(given, prior.sourceIds) && j < |cuts|
    ensures |CarryAll(given, state, prior, cuts).carried| == |state.carried| + |cuts|
    ensures FromCut(prior, cuts[j], CarryAll(given, state, prior, cuts).carried[|state.carried| + j])
  {
    hide DatedAll, UniqueId, CarryBase, Known, FromCut, Carry;
    var front, last := cuts[..|cuts| - 1], cuts[|cuts| - 1];
    CarryAllShape(given, state, prior, front);
    CarryPiece(given, CarryAll(given, state, prior, front), prior, last);
    if j < |front| {
      CarryAllPiece(given, state, prior, front, j);
    }
  }

  lemma CarryPiece(given: Given, state: State, prior: Price, cut: Cut)
    requires Known(given, prior.sourceIds)
    ensures var after := Carry(given, state, prior, cut);
      && |after.carried| == |state.carried| + 1 && state.carried <= after.carried
      && FromCut(prior, cut, after.carried[|state.carried|])
  {
    hide DatedAll, UniqueId, CarryBase, Known;
  }

  // The pieces among what is done for an old price.
  function CutsOf(actions: seq<Action>): seq<Cut> {
    if actions == [] then []
    else
      var last := actions[|actions| - 1];
      CutsOf(actions[..|actions| - 1]) + if last.Keep? then [last.cut] else []
  }

  lemma {:induction false} CutsOfAppend(a: seq<Action>, b: seq<Action>)
    ensures CutsOf(a + b) == CutsOf(a) + CutsOf(b)
  {
    if b == [] {
      assert a + b == a;
    } else {
      CutsOfAppend(a, b[..|b| - 1]);
      assert (a + b)[..|a + b| - 1] == a + b[..|b| - 1];
    }
  }

  lemma {:induction false} CutsOfLooks(days: seq<Day>)
    ensures CutsOf(Looks(days)) == []
  {
    if days == [] {
    } else {
      CutsOfLooks(days[..|days| - 1]);
    }
  }

  lemma {:induction false} CutsOfKeeps(cuts: seq<Cut>)
    ensures CutsOf(Keeps(cuts)) == cuts
  {
    if cuts == [] {
    } else {
      CutsOfKeeps(cuts[..|cuts| - 1]);
    }
  }

  lemma CutsOfReplace(prior: Price, day: Day, regions: Option<seq<string>>)
    ensures CutsOf(ReplaceActions(prior, day, regions)) == CutAt(prior, day, regions)
  {
    var actions := ReplaceActions(prior, day, regions);
    assert CutsOf([]) == [] && actions[..1] == [Look(day)] && [Look(day)][..0] == [];
    assert CutsOf([Look(day)]) == [];
  }

  lemma {:induction false} CutsOfLater(prior: Price, groups: seq<Group>)
    requires forall i :: 0 <= i < |groups| ==> groups[i].day.Some?
    ensures CutsOf(LaterActions(prior, groups)) == LaterCuts(prior, groups)
  {
    if groups == [] {
    } else {
      var front, last := groups[..|groups| - 1], groups[|groups| - 1];
      CutsOfLater(prior, front);
      CutsOfReplace(prior, last.day.value, Some(SortNames(last.names)));
      CutsOfAppend(LaterActions(prior, front), ReplaceActions(prior, last.day.value, Some(SortNames(last.names))));
    }
  }

  lemma CutsOfOne(cut: Cut)
    ensures CutsOf([Keep(cut)]) == [cut]
  {
    assert CutsOf([]) == [] && [Keep(cut)][..0] == [];
  }

  // They are the old price's cuts.
  lemma ActionsCut(given: Given, listed: seq<Price>, prior: Price)
    ensures CutsOf(Actions(given, listed, prior)) == Cuts(given, listed, prior)
  {
    hide Unchanged, LaterGroups, Ends, EndCuts, ReplacementsIn, ReplaceActions, CutAt, LaterActions, LaterCuts;
    var k := Successor(listed, prior.line);
    CutsOfOne(Cut(prior.regions, None));
    CutsOfOne(Cut(None, None));
    if prior.regions.Some? {
      var days := ReplacementsIn(given, listed, prior, prior.regions.value);
      var cuts := EndCuts(Ends(given, listed, prior, prior.regions.value));
      CutsOfLooks(days);
      CutsOfKeeps(cuts);
      CutsOfAppend(Looks(days), Keeps(cuts));
    } else if k < |listed| {
      var groups := LaterGroups(given, listed[k]);
      CutsOfReplace(prior, listed[k].from, None);
      CutsOfLater(prior, groups);
      CutsOfAppend(ReplaceActions(prior, listed[k].from, None), LaterActions(prior, groups));
    }
  }

  ghost predicate SameButNotes(a: State, b: State) {
    a == b.(notes := a.notes)
  }

  lemma ActNext(given: Given, a: State, b: State, prior: Price, action: Action)
    requires Known(given, prior.sourceIds) && SameButNotes(a, b)
    ensures SameButNotes(Act(given, a, prior, action), if action.Keep? then Carry(given, b, prior, action.cut) else b)
  {
    hide DatedAll, UniqueId, CarryBase, Known, Noted, LookedAt;
  }

  lemma CarryAllNext(given: Given, state: State, prior: Price, cuts: seq<Cut>, cut: Cut)
    requires Known(given, prior.sourceIds)
    ensures CarryAll(given, state, prior, cuts + [cut]) == Carry(given, CarryAll(given, state, prior, cuts), prior, cut)
  {
    hide Carry, Known;
    assert (cuts + [cut])[..|cuts|] == cuts;
  }

  lemma ActAllNext(given: Given, state: State, prior: Price, actions: seq<Action>, action: Action)
    requires Known(given, prior.sourceIds)
    ensures ActAll(given, state, prior, actions + [action])
      == Act(given, ActAll(given, state, prior, actions), prior, action)
  {
    hide Act, Known;
    assert (actions + [action])[..|actions|] == actions;
  }

  lemma CutsOfNext(actions: seq<Action>, action: Action)
    ensures CutsOf(actions + [action]) == CutsOf(actions) + if action.Keep? then [action.cut] else []
  {
    assert (actions + [action])[..|actions|] == actions;
  }

  // All that is done carries the pieces in order; looking only adds notes.
  lemma {:induction false} ActsCarry(given: Given, state: State, prior: Price, actions: seq<Action>)
    requires Known(given, prior.sourceIds)
    ensures SameButNotes(ActAll(given, state, prior, actions), CarryAll(given, state, prior, CutsOf(actions)))
  {
    if actions == [] {
      hide Known, Act, Carry;
    } else {
      hide Act, Carry, Known, SameButNotes, ActAll, CarryAll, CutsOf;
      var front, last := actions[..|actions| - 1], actions[|actions| - 1];
      assert actions == front + [last];
      ActsCarry(given, state, prior, front);
      ActNext(given, ActAll(given, state, prior, front), CarryAll(given, state, prior, CutsOf(front)), prior, last);
      ActAllNext(given, state, prior, front, last);
      CutsOfNext(front, last);
      if last.Keep? {
        CarryAllNext(given, state, prior, CutsOf(front), last.cut);
      } else {
        assert CutsOf(front) + [] == CutsOf(front);
      }
    }
  }

  lemma StepCarries(given: Given, state: State, prior: Price)
    requires Known(given, prior.sourceIds)
    ensures SameButNotes(Step(given, state, prior),
                         CarryAll(given, Prepared(state, prior), prior, Cuts(given, state.listed, prior)))
  {
    hide CarryAll, Actions, Cuts, Known, ListedAfter;
    ActionsCut(given, state.listed, prior);
    ActsCarry(given, Prepared(state, prior), prior, Actions(given, state.listed, prior));
  }

  ghost predicate Backdated(before: Price, after: Price) {
    after == before.(from := after.from) && after.from <= before.from && (before.regions.Some? ==> after == before)
  }

  // Everything the refresh has so far it keeps: carried prices stay, and listed ones only start earlier.
  ghost predicate Grows(before: State, after: State) {
    && |before.listed| == |after.listed|
    && (forall i :: 0 <= i < |before.listed| ==> Backdated(before.listed[i], after.listed[i]))
    && before.carried <= after.carried
  }

  lemma StepGrows(given: Given, state: State, prior: Price)
    requires Known(given, prior.sourceIds)
    ensures Grows(state, Step(given, state, prior))
    ensures Step(given, state, prior).listed == ListedAfter(state.listed, prior)
  {
    StepCarries(given, state, prior);
    CarryAllShape(given, Prepared(state, prior), prior, Cuts(given, state.listed, prior));
  }

  lemma GrowsTransitive(a: State, b: State, c: State)
    requires Grows(a, b) && Grows(b, c)
    ensures Grows(a, c)
  {
  }

  lemma {:induction false} RefreshedGrows(given: Given, state: State, current: seq<Price>, k: nat)
    requires AllKnown(given, current) && k <= |current|
    ensures Grows(Refreshed(given, state, current[..k]), Refreshed(given, state, current))
  {
    if k == |current| {
      assert current[..k] == current;
    } else {
      var front := current[..|current| - 1];
      assert front[..k] == current[..k];
      RefreshedGrows(given, state, front, k);
      StepGrows(given, Refreshed(given, state, front), current[|current| - 1]);
      GrowsTransitive(Refreshed(given, state, current[..k]), Refreshed(given, state, front),
                      Refreshed(given, state, current));
    }
  }

  // The pieces that one old price adds.
  lemma StepPiece(given: Given, state: State, prior: Price, j: nat)
    requires Known(given, prior.sourceIds) && j < |Cuts(given, state.listed, prior)|
    ensures |Step(given, state, prior).carried| == |state.carried| + |Cuts(given, state.listed, prior)|
    ensures FromCut(prior, Cuts(given, state.listed, prior)[j], Step(given, state, prior).carried[|state.carried| + j])
  {
    hide Cuts, Step, Actions, ListedAfter, CarryAll, FromCut, Known;
    StepCarries(given, state, prior);
    CarryAllPiece(given, Prepared(state, prior), prior, Cuts(given, state.listed, prior), j);
  }

  // ---- Coverage ----

  // Some price of the line is in force in the region on the day; and, if asked, at these amounts.
  ghost predicate Priced(state: State, line: Line, amounts: Option<Amounts>, region: string, day: Day) {
    exists p :: p in state.listed + state.carried && p.line == line && p.Covers(region, day)
      && (amounts.Some? ==> p.amounts == amounts.value)
  }

  lemma PricedKept(before: State, after: State, line: Line, amounts: Option<Amounts>, region: string, day: Day)
    requires Grows(before, after) && Priced(before, line, amounts, region, day)
    ensures Priced(after, line, amounts, region, day)
  {
    var p :| p in before.listed + before.carried && p.line == line && p.Covers(region, day)
      && (amounts.Some? ==> p.amounts == amounts.value);
    if p in before.listed {
      var i :| 0 <= i < |before.listed| && before.listed[i] == p;
      assert after.listed[i] in after.listed + after.carried;
      assert after.listed[i].Covers(region, day);
    } else {
      var i :| 0 <= i < |before.carried| && before.carried[i] == p;
      assert after.carried[i] == p;
    }
  }

  // None of the line's prices at other amounts that apply to the region has begun there by the day.
  ghost predicate NotRepriced(given: Given, listed: seq<Price>, prior: Price, region: string, day: Day) {
    forall i :: 0 <= i < |listed| && Covering(listed[i], prior.line, region) && listed[i].amounts != prior.amounts ==>
      day < Begins(given, listed[i], region)
  }

  lemma BeginsEarlier(given: Given, before: Price, after: Price, region: string)
    requires Backdated(before, after)
    ensures Begins(given, after, region) <= Begins(given, before, region)
  {
    if before.regions.None? && given.index.Some? {
      assert RegionStarts(after, given.index.value) == RegionStarts(before, given.index.value);
      StartBelow(RegionStarts(before, given.index.value), region, after.from, before.from);
    }
  }

  lemma {:induction false} StartBelow(starts: Starts, region: string, a: Day, b: Day)
    requires a <= b
    ensures StartOf(starts, region, a) <= StartOf(starts, region, b)
  {
    if starts == [] {
    } else {
      StartBelow(starts[1..], region, a, b);
    }
  }

  lemma NotRepricedBefore(given: Given, before: State, after: State, prior: Price, region: string, day: Day)
    requires Grows(before, after) && NotRepriced(given, after.listed, prior, region, day)
    ensures NotRepriced(given, before.listed, prior, region, day)
  {
    forall i | 0 <= i < |before.listed| && Covering(before.listed[i], prior.line, region)
      && before.listed[i].amounts != prior.amounts
      ensures day < Begins(given, before.listed[i], region)
    {
      BeginsEarlier(given, before.listed[i], after.listed[i], region);
    }
  }

  lemma {:induction false} FirstMeaning(given: Given, listed: seq<Price>, line: Line, region: string)
    ensures var first := First(given, listed, line, region);
      && (first.Some? ==> first.value in listed && Covering(first.value, line, region))
      && forall i :: 0 <= i < |listed| && Covering(listed[i], line, region) ==>
           first.Some? && Begins(given, first.value, region) <= Begins(given, listed[i], region)
  {
    if listed == [] {
    } else {
      FirstMeaning(given, listed[..|listed| - 1], line, region);
    }
  }

  // ---- One old price ----

  predicate IsPiece(prior: Price, p: Price, until: Option<Day>, region: string) {
    p.line == prior.line && p.amounts == prior.amounts && p.from == prior.from && p.until == until
      && p.AppliesTo(region)
  }

  // Region by region, a regional price's fate becomes a piece that keeps the region.
  lemma RegionalPiece(given: Given, state: State, prior: Price, region: string, until: Option<Day>)
    requires Known(given, prior.sourceIds) && !Unchanged(prior, state.listed) && prior.until.None?
      && prior.regions.Some?
    requires region in prior.regions.value && FateIn(given, state.listed, prior, region) == Kept(until)
    ensures exists p :: p in Step(given, state, prior).carried && IsPiece(prior, p, until, region)
  {
    var groups := Ends(given, state.listed, prior, prior.regions.value);
    EndsMeaning(given, state.listed, prior, prior.regions.value, until, region);
    var i :| 0 <= i < |groups| && groups[i].day == until && region in groups[i].names;
    EndCutAt(groups, i);
    SortNamesMeaning(groups[i].names);
    StepPiece(given, state, prior, i);
    assert Step(given, state, prior).carried[|state.carried| + i] in Step(given, state, prior).carried;
  }

  // A cut of an old price is carried as a piece.
  lemma CutCarried(given: Given, state: State, prior: Price, cut: Cut) returns (piece: Price)
    requires Known(given, prior.sourceIds) && cut in Cuts(given, state.listed, prior)
    ensures piece in Step(given, state, prior).carried && FromCut(prior, cut, piece)
  {
    hide Cuts, Step, FromCut;
    var j :| 0 <= j < |Cuts(given, state.listed, prior)| && Cuts(given, state.listed, prior)[j] == cut;
    StepPiece(given, state, prior, j);
    piece := Step(given, state, prior).carried[|state.carried| + j];
  }

  ghost predicate Endless(listed: seq<Price>) {
    forall i :: 0 <= i < |listed| ==> listed[i].until.None?
  }

  // The rebuilt list has at most one regionless price of each line.
  ghost predicate OneRegionless(listed: seq<Price>) {
    forall i, j :: 0 <= i < j < |listed| && listed[i].line == listed[j].line ==>
      listed[i].regions.Some? || listed[j].regions.Some?
  }

  lemma OneOfLine(listed: seq<Price>, i: nat, j: nat)
    requires OneRegionless(listed) && i < |listed| && j < |listed|
    ensures listed[i].line == listed[j].line && listed[i].regions.None? && listed[j].regions.None? ==> i == j
  {
  }

  ghost predicate SameShape(a: seq<Price>, b: seq<Price>) {
    |a| == |b| && forall i :: 0 <= i < |a| ==> a[i].line == b[i].line && a[i].regions == b[i].regions
  }

  lemma {:induction false} SuccessorShape(a: seq<Price>, b: seq<Price>, line: Line)
    requires SameShape(a, b)
    ensures Successor(a, line) == Successor(b, line)
  {
    if a == [] {
    } else {
      SuccessorShape(a[1..], b[1..], line);
    }
  }

  // A price that ends is kept whole.
  lemma EndedCovers(given: Given, state: State, prior: Price, region: string, day: Day)
    requires Known(given, prior.sourceIds) && Endless(state.listed) && prior.until.Some? && prior.Covers(region, day)
    ensures Priced(Step(given, state, prior), prior.line, Some(prior.amounts), region, day)
  {
    hide Step, Cuts;
    EndedIsCut(given, state.listed, prior);
    var piece := CutCarried(given, state, prior, Cut(prior.regions, None));
    assert piece.Covers(region, day);
  }

  // What one step keeps of a price, in a region it serves, on a day it was in force.
  lemma StepCovers(given: Given, state: State, prior: Price, region: string, day: Day)
    requires Known(given, prior.sourceIds) && Endless(state.listed) && prior.Covers(region, day)
    ensures Priced(Step(given, state, prior), prior.line, None, region, day)
    ensures prior.until.Some? || NotRepriced(given, ListedAfter(state.listed, prior), prior, region, day)
      ==> Priced(Step(given, state, prior), prior.line, Some(prior.amounts), region, day)
  {
    var after := Step(given, state, prior);
    StepGrows(given, state, prior);
    if prior.until.Some? {
      EndedCovers(given, state, prior, region, day);
    } else if Unchanged(prior, state.listed) {
      var i :| 0 <= i < |state.listed| && prior.Same(state.listed[i]);
      assert after.listed[i] in after.listed + after.carried && after.listed[i].Covers(region, day);
    } else if prior.regions.Some? {
      RegionalCovers(given, state, prior, region, day);
    } else {
      RegionlessCovers(given, state, prior, region, day);
    }
  }

  lemma RegionalCovers(given: Given, state: State, prior: Price, region: string, day: Day)
    requires Known(given, prior.sourceIds) && Endless(state.listed) && !Unchanged(prior, state.listed)
    requires prior.until.None? && prior.regions.Some? && region in prior.regions.value && prior.from <= day
    ensures Priced(Step(given, state, prior), prior.line, None, region, day)
    ensures NotRepriced(given, ListedAfter(state.listed, prior), prior, region, day)
      ==> Priced(Step(given, state, prior), prior.line, Some(prior.amounts), region, day)
  {
    hide Step, Cuts, Ends;
    StepGrows(given, state, prior);
    FirstMeaning(given, state.listed, prior.line, region);
    var first := First(given, state.listed, prior.line, region);
    if first.Some? && Begins(given, first.value, region) <= day {
      var i :| 0 <= i < |state.listed| && state.listed[i] == first.value;
      assert Step(given, state, prior).listed[i].Covers(region, day);
      assert Step(given, state, prior).listed[i].amounts == first.value.amounts;
    } else {
      RegionalPiece(given, state, prior, region,
                    if first.None? then None else Some(Begins(given, first.value, region) - 1));
    }
  }

  lemma RegionlessCovers(given: Given, state: State, prior: Price, region: string, day: Day)
    requires Known(given, prior.sourceIds) && Endless(state.listed) && !Unchanged(prior, state.listed)
    requires prior.until.None? && prior.regions.None? && prior.from <= day
    ensures Priced(Step(given, state, prior), prior.line, None, region, day)
    ensures NotRepriced(given, ListedAfter(state.listed, prior), prior, region, day)
      ==> Priced(Step(given, state, prior), prior.line, Some(prior.amounts), region, day)
  {
    hide Step;
    var k := Successor(state.listed, prior.line);
    StepGrows(given, state, prior);
    if k == |state.listed| {
      assert Cuts(given, state.listed, prior)[0] == Cut(None, None);
      var piece := CutCarried(given, state, prior, Cut(None, None));
      assert piece.Covers(region, day);
    } else if state.listed[k].from <= day || state.listed[k].amounts == prior.amounts {
      var listed := Step(given, state, prior).listed[k];
      assert listed.Covers(region, day);
      if state.listed[k].amounts != prior.amounts && day < Begins(given, listed, region) {
        LaterCovers(given, state, prior, k, region, day);
      }
    } else {
      var cut := Cut(None, Some(state.listed[k].from - 1));
      assert CutAt(prior, state.listed[k].from, None)[0] == cut;
      assert cut in Cuts(given, state.listed, prior);
      var piece := CutCarried(given, state, prior, cut);
      assert piece.Covers(region, day);
    }
  }

  lemma LaterGroupOf(given: Given, price: Price, region: string) returns (i: nat)
    requires Begins(given, price, region) > price.from
    ensures i < |LaterGroups(given, price)|
    ensures LaterGroups(given, price)[i].day == Some(Begins(given, price, region))
    ensures region in LaterGroups(given, price)[i].names
  {
    hide RegionStarts;
    var starts := RegionStarts(price, given.index.value);
    StartListed(starts, region, price.from);
    LaterMeaning(given, price, starts, Some(Begins(given, price, region)), region);
    i :| 0 <= i < |LaterGroups(given, price)| && LaterGroups(given, price)[i].day == Some(Begins(given, price, region))
      && region in LaterGroups(given, price)[i].names;
  }

  // A region where the replacement begins later than elsewhere is cut off there.
  lemma LaterCutListed(given: Given, listed: seq<Price>, prior: Price, region: string) returns (cut: Cut)
    requires !Unchanged(prior, listed) && prior.until.None? && prior.regions.None?
    requires var k := Successor(listed, prior.line);
      k < |listed| && listed[k].amounts != prior.amounts
      && Begins(given, listed[k], region) > listed[k].from && Begins(given, listed[k], region) > prior.from
    ensures cut in Cuts(given, listed, prior)
    ensures cut.until == Some(Begins(given, listed[Successor(listed, prior.line)], region) - 1)
    ensures cut.regions.Some? && region in cut.regions.value
  {
    hide Begins, LaterGroups, Unchanged, SortNames;
    var price := listed[Successor(listed, prior.line)];
    var groups := LaterGroups(given, price);
    var i := LaterGroupOf(given, price, region);
    LaterCutOf(prior, groups, i);
    SortNamesMeaning(groups[i].names);
    cut := Cut(Some(SortNames(groups[i].names)), Some(groups[i].day.value - 1));
  }

  lemma LaterCovers(given: Given, state: State, prior: Price, k: nat, region: string, day: Day)
    requires Known(given, prior.sourceIds) && !Unchanged(prior, state.listed)
    requires prior.until.None? && prior.regions.None? && prior.from <= day
    requires k == Successor(state.listed, prior.line) < |state.listed| && state.listed[k].amounts != prior.amounts
    requires state.listed[k].from <= day < Begins(given, state.listed[k], region)
    ensures Priced(Step(given, state, prior), prior.line, Some(prior.amounts), region, day)
  {
    hide Step, Cuts, Begins, Unchanged;
    var cut := LaterCutListed(given, state.listed, prior, region);
    var piece := CutCarried(given, state, prior, cut);
    assert piece.Covers(region, day);
  }

  lemma {:induction false} StartListed(starts: Starts, region: string, default: Day)
    requires StartOf(starts, region, default) != default
    ensures Listed(starts, region)
  {
    if starts[0].0 == region {
    } else {
      StartListed(starts[1..], region, default);
      var i :| 0 <= i < |starts[1..]| && starts[1..][i].0 == region;
      assert starts[i + 1].0 == region;
    }
  }

  // ---- The whole refresh ----

  lemma {:induction false} RefreshedEndless(given: Given, state: State, current: seq<Price>)
    requires AllKnown(given, current) && Endless(state.listed)
    ensures Endless(Refreshed(given, state, current).listed)
  {
    RefreshedGrows(given, state, current, 0);
    assert current[..0] == [];
  }

  // No gap: every price of the old list leaves each region it served priced on every day it was in force; at its own
  // amounts if it had ended, and otherwise on the days before anything at other amounts begins there. So a price that
  // is unchanged, or that a rebuilt one absorbs, keeps its amounts on all of its days.
  lemma NoGap(given: Given, state: State, current: seq<Price>, k: nat, region: string, day: Day)
    requires AllKnown(given, current) && Endless(state.listed) && k < |current| && current[k].Covers(region, day)
    ensures var after := Refreshed(given, state, current);
      && Priced(after, current[k].line, None, region, day)
      && (current[k].until.Some? || NotRepriced(given, after.listed, current[k], region, day)
          ==> Priced(after, current[k].line, Some(current[k].amounts), region, day))
  {
    var before, after := Refreshed(given, state, current[..k]), Refreshed(given, state, current);
    var stepped := Refreshed(given, state, current[..k + 1]);
    assert current[..k + 1][..k] == current[..k];
    assert stepped == Step(given, before, current[k]);
    RefreshedEndless(given, state, current[..k]);
    StepGrows(given, before, current[k]);
    StepCovers(given, before, current[k], region, day);
    RefreshedGrows(given, state, current, k + 1);
    PricedKept(stepped, after, current[k].line, None, region, day);
    if NotRepriced(given, after.listed, current[k], region, day) {
      NotRepricedBefore(given, stepped, after, current[k], region, day);
    }
    if current[k].until.Some? || NotRepriced(given, after.listed, current[k], region, day) {
      PricedKept(stepped, after, current[k].line, Some(current[k].amounts), region, day);
    }
  }

  // A price that had ended is still there, the same in all but its ID and sources.
  lemma EndedStays(given: Given, state: State, current: seq<Price>, k: nat) returns (p: Price)
    requires AllKnown(given, current) && Endless(state.listed) && k < |current| && current[k].until.Some?
    ensures p in Refreshed(given, state, current).carried && p == current[k].(id := p.id, sourceIds := p.sourceIds)
  {
    var before, stepped := Refreshed(given, state, current[..k]), Refreshed(given, state, current[..k + 1]);
    assert current[..k + 1][..k] == current[..k];
    assert stepped == Step(given, before, current[k]);
    RefreshedEndless(given, state, current[..k]);
    RefreshedGrows(given, state, current, k + 1);
    EndedIsCut(given, before.listed, current[k]);
    p := CutCarried(given, before, current[k], Cut(current[k].regions, None));
  }

  lemma EndedIsCut(given: Given, listed: seq<Price>, prior: Price)
    requires Endless(listed) && prior.until.Some?
    ensures Cuts(given, listed, prior) == [Cut(prior.regions, None)]
  {
  }

  // ---- Days already priced ----

  lemma {:induction false} ReplacementListed(given: Given, listed: seq<Price>, prior: Price, regions: seq<string>,
                                             region: string)
    requires region in regions && First(given, listed, prior.line, region).Some?
    requires First(given, listed, prior.line, region).value.amounts != prior.amounts
    ensures Begins(given, First(given, listed, prior.line, region).value, region)
      in ReplacementsIn(given, listed, prior, regions)
  {
    var front, last := regions[..|regions| - 1], regions[|regions| - 1];
    assert regions == front + [last];
    if region == last {
    } else {
      ReplacementListed(given, listed, prior, front, region);
    }
  }

  // What is noted stays noted, and every replacement looked at that is dated too early is warned about.
  lemma {:induction false} ActsNote(given: Given, state: State, prior: Price, actions: seq<Action>, day: Day)
    requires Known(given, prior.sourceIds)
    ensures forall n :: n in state.notes ==> n in ActAll(given, state, prior, actions).notes
    ensures var read := ReadOn(given, prior.sourceIds);
      Look(day) in actions && day <= read ==> Warning(prior.id, day, read) in ActAll(given, state, prior, actions).notes
  {
    if actions == [] {
    } else {
      hide ReadOn, Known, DatedAll, UniqueId, CarryBase;
      ActsNote(given, state, prior, actions[..|actions| - 1], day);
    }
  }

  lemma {:induction false} LooksAt(days: seq<Day>, day: Day)
    requires day in days
    ensures Look(day) in Looks(days)
  {
    if day != days[|days| - 1] {
      assert day in days[..|days| - 1];
      LooksAt(days[..|days| - 1], day);
    }
  }

  // A warning about an old price, whose replacement is dated on or before the day it was last read.
  ghost predicate Warned(given: Given, state: State, prior: Price)
    requires Known(given, prior.sourceIds)
  {
    exists day :: day <= ReadOn(given, prior.sourceIds)
                  && Warning(prior.id, day, ReadOn(given, prior.sourceIds)) in state.notes
  }

  lemma StepWarns(given: Given, state: State, prior: Price, day: Day)
    requires Known(given, prior.sourceIds)
    ensures forall n :: n in state.notes ==> n in Step(given, state, prior).notes
    ensures Look(day) in Actions(given, state.listed, prior) && day <= ReadOn(given, prior.sourceIds)
      ==> Warned(given, Step(given, state, prior), prior)
  {
    hide Actions, ListedAfter, ReadOn;
    ActsNote(given, Prepared(state, prior), prior, Actions(given, state.listed, prior), day);
  }

  lemma {:induction false} NotesKept(given: Given, state: State, current: seq<Price>, k: nat, n: Note)
    requires AllKnown(given, current) && k <= |current|
    requires n in Refreshed(given, state, current[..k]).notes
    ensures n in Refreshed(given, state, current).notes
  {
    if k == |current| {
      assert current[..k] == current;
    } else {
      var front := current[..|current| - 1];
      assert front[..k] == current[..k];
      NotesKept(given, state, front, k, n);
      StepWarns(given, Refreshed(given, state, front), current[|current| - 1], 0);
    }
  }

  lemma StepKeepsOrWarns(given: Given, state: State, prior: Price, region: string, day: Day)
    requires Known(given, prior.sourceIds) && Endless(state.listed)
    requires prior.Covers(region, day) && day <= ReadOn(given, prior.sourceIds)
    ensures Priced(Step(given, state, prior), prior.line, Some(prior.amounts), region, day)
         || Warned(given, Step(given, state, prior), prior)
  {
    hide ReadOn, Step, Warned;
    StepGrows(given, state, prior);
    if prior.until.Some? {
      EndedCovers(given, state, prior, region, day);
    } else if Unchanged(prior, state.listed) {
      var i :| 0 <= i < |state.listed| && prior.Same(state.listed[i]);
      assert Step(given, state, prior).listed[i].Covers(region, day);
    } else if prior.regions.Some? {
      RegionalKeepsOrWarns(given, state, prior, region, day);
    } else {
      RegionlessKeepsOrWarns(given, state, prior, region, day);
    }
  }

  lemma RegionalKeepsOrWarns(given: Given, state: State, prior: Price, region: string, day: Day)
    requires Known(given, prior.sourceIds) && Endless(state.listed) && !Unchanged(prior, state.listed)
    requires prior.until.None? && prior.regions.Some? && region in prior.regions.value
    requires prior.from <= day <= ReadOn(given, prior.sourceIds)
    ensures Priced(Step(given, state, prior), prior.line, Some(prior.amounts), region, day)
         || Warned(given, Step(given, state, prior), prior)
  {
    hide ReadOn, Step, Warned;
    StepGrows(given, state, prior);
    var first := First(given, state.listed, prior.line, region);
    FirstMeaning(given, state.listed, prior.line, region);
    if first.None? || day < Begins(given, first.value, region) {
      RegionalCovers(given, state, prior, region, day);
      assert NotRepriced(given, state.listed, prior, region, day);
    } else if first.value.amounts == prior.amounts {
      var i :| 0 <= i < |state.listed| && state.listed[i] == first.value;
      assert Step(given, state, prior).listed[i].Covers(region, day);
    } else {
      ReplacementListed(given, state.listed, prior, prior.regions.value, region);
      var begins := Begins(given, first.value, region);
      LooksAt(ReplacementsIn(given, state.listed, prior, prior.regions.value), begins);
      assert Look(begins) in Actions(given, state.listed, prior);
      StepWarns(given, state, prior, begins);
    }
  }

  lemma RegionlessKeepsOrWarns(given: Given, state: State, prior: Price, region: string, day: Day)
    requires Known(given, prior.sourceIds) && Endless(state.listed) && !Unchanged(prior, state.listed)
    requires prior.until.None? && prior.regions.None? && prior.from <= day <= ReadOn(given, prior.sourceIds)
    ensures Priced(Step(given, state, prior), prior.line, Some(prior.amounts), region, day)
         || Warned(given, Step(given, state, prior), prior)
  {
    hide ReadOn, Step, Warned, Begins;
    StepGrows(given, state, prior);
    var k := Successor(state.listed, prior.line);
    if k == |state.listed| {
      var piece := CutCarried(given, state, prior, Cuts(given, state.listed, prior)[0]);
      assert piece.Covers(region, day);
    } else if state.listed[k].amounts == prior.amounts {
      assert Step(given, state, prior).listed[k].Covers(region, day);
    } else if day < state.listed[k].from {
      var cut := CutAt(prior, state.listed[k].from, None)[0];
      assert cut in Cuts(given, state.listed, prior);
      var piece := CutCarried(given, state, prior, cut);
      assert piece.Covers(region, day);
    } else {
      assert Actions(given, state.listed, prior)[0] == Look(state.listed[k].from);
      StepWarns(given, state, prior, state.listed[k].from);
    }
  }

  // A refresh does not change the price of a day already priced, unless it warns: on every day up to the one
  // it was last read, a price leaves its own amounts in force, or a warning that names it.
  lemma AlreadyPricedDays(given: Given, state: State, current: seq<Price>, k: nat, region: string, day: Day)
    requires AllKnown(given, current) && Endless(state.listed) && k < |current|
    requires current[k].Covers(region, day) && day <= ReadOn(given, current[k].sourceIds)
    ensures Priced(Refreshed(given, state, current), current[k].line, Some(current[k].amounts), region, day)
         || Warned(given, Refreshed(given, state, current), current[k])
  {
    hide ReadOn, Step;
    var before, stepped := Refreshed(given, state, current[..k]), Refreshed(given, state, current[..k + 1]);
    assert current[..k + 1][..k] == current[..k];
    assert stepped == Step(given, before, current[k]);
    RefreshedEndless(given, state, current[..k]);
    StepKeepsOrWarns(given, before, current[k], region, day);
    RefreshedGrows(given, state, current, k + 1);
    if Priced(stepped, current[k].line, Some(current[k].amounts), region, day) {
      PricedKept(stepped, Refreshed(given, state, current), current[k].line, Some(current[k].amounts), region, day);
    } else {
      var read := ReadOn(given, current[k].sourceIds);
      var d :| d <= read && Warning(current[k].id, d, read) in stepped.notes;
      NotesKept(given, state, current, k + 1, Warning(current[k].id, d, read));
    }
  }

  // ---- What is warned about ----

  // The last reading of a price is that of one of its sources, and none was read later.
  lemma {:induction false} ReadOnMeaning(given: Given, ids: seq<string>)
    requires Known(given, ids)
    ensures forall id :: id in ids ==> given.oldSources[id].retrievedOn <= ReadOn(given, ids)
    ensures exists id :: id in ids && given.oldSources[id].retrievedOn == ReadOn(given, ids)
  {
    var front, last := ids[..|ids| - 1], ids[|ids| - 1];
    assert ids == front + [last];
    if front == [] {
    } else {
      ReadOnMeaning(given, front);
    }
  }

  // A rebuilt price of the line, at other amounts, starts on the day; or begins on it in a region that both serve.
  ghost predicate Replaces(given: Given, listed: seq<Price>, prior: Price, day: Day) {
    exists i :: 0 <= i < |listed| && listed[i].line == prior.line && listed[i].amounts != prior.amounts
                && (day == listed[i].from || BeginsSomewhere(given, listed[i], prior, day))
  }

  ghost predicate BeginsSomewhere(given: Given, price: Price, prior: Price, day: Day) {
    exists region :: price.AppliesTo(region) && prior.AppliesTo(region) && day == Begins(given, price, region)
  }

  lemma {:induction false} ReplacementsMeaning(given: Given, listed: seq<Price>, prior: Price, regions: seq<string>,
                                               day: Day)
    requires prior.regions.Some? && (forall r :: r in regions ==> r in prior.regions.value)
    requires day in ReplacementsIn(given, listed, prior, regions)
    ensures Replaces(given, listed, prior, day)
  {
    var front, region := regions[..|regions| - 1], regions[|regions| - 1];
    if day in ReplacementsIn(given, listed, prior, front) {
      ReplacementsMeaning(given, listed, prior, front, day);
    } else {
      hide Begins;
      FirstMeaning(given, listed, prior.line, region);
      var first := First(given, listed, prior.line, region).value;
      var i :| 0 <= i < |listed| && listed[i] == first;
      assert BeginsSomewhere(given, listed[i], prior, day);
    }
  }

  lemma {:induction false} LooksAre(days: seq<Day>, cuts: seq<Cut>, day: Day)
    requires Look(day) in Looks(days) + Keeps(cuts)
    ensures day in days
  {
    KeepsLookNowhere(cuts, day);
    if Look(day) in Looks(days[..|days| - 1]) {
      LooksAre(days[..|days| - 1], [], day);
    }
  }

  lemma {:induction false} KeepsLookNowhere(cuts: seq<Cut>, day: Day)
    ensures Look(day) !in Keeps(cuts)
  {
    if cuts == [] {
    } else {
      KeepsLookNowhere(cuts[..|cuts| - 1], day);
    }
  }

  lemma {:induction false} LaterLooks(prior: Price, groups: seq<Group>, day: Day) returns (i: nat)
    requires forall i :: 0 <= i < |groups| ==> groups[i].day.Some?
    requires Look(day) in LaterActions(prior, groups)
    ensures i < |groups| && groups[i].day == Some(day)
  {
    var front := groups[..|groups| - 1];
    if Look(day) in LaterActions(prior, front) {
      i := LaterLooks(prior, front, day);
    } else {
      i := |front|;
    }
  }

  // What is looked at is the day of a replacement.
  lemma LooksMeaning(given: Given, listed: seq<Price>, prior: Price, day: Day)
    requires Look(day) in Actions(given, listed, prior)
    ensures prior.until.None? && Replaces(given, listed, prior, day)
  {
    hide Begins, RegionStarts, Ends, First;
    if prior.regions.Some? {
      var days := ReplacementsIn(given, listed, prior, prior.regions.value);
      LooksAre(days, EndCuts(Ends(given, listed, prior, prior.regions.value)), day);
      ReplacementsMeaning(given, listed, prior, prior.regions.value, day);
    } else {
      var k := Successor(listed, prior.line);
      var groups := LaterGroups(given, listed[k]);
      if Look(day) in LaterActions(prior, groups) {
        var i := LaterLooks(prior, groups, day);
        LaterDay(given, listed[k], i);
        var region :| day == Begins(given, listed[k], region);
        assert BeginsSomewhere(given, listed[k], prior, day);
      }
    }
  }

  lemma LaterDay(given: Given, price: Price, i: nat)
    requires i < |LaterGroups(given, price)|
    ensures LaterGroups(given, price)[i].day.Some?
    ensures price.regions.None? ==>
      exists region :: LaterGroups(given, price)[i].day == Some(Begins(given, price, region))
  {
    hide Begins, RegionStarts;
    if given.index.Some? {
      LaterDayOf(given, price, RegionStarts(price, given.index.value), LaterGroups(given, price)[i]);
    }
  }

  lemma {:induction false} LaterDayOf(given: Given, price: Price, starts: Starts, g: Group)
    requires g in Later(given, price, starts)
    ensures exists region :: g.day == Some(Begins(given, price, region))
  {
    hide Begins;
    var front, region := starts[..|starts| - 1], starts[|starts| - 1].0;
    var before := Later(given, price, front);
    if Begins(given, price, region) > price.from {
      PutDays(before, Some(Begins(given, price, region)), region);
      if g.day != Some(Begins(given, price, region)) {
        var h :| h in before && h.day == g.day;
        LaterDayOf(given, price, front, h);
      }
    } else {
      LaterDayOf(given, price, front, g);
    }
  }

  lemma ActWarns(given: Given, state: State, prior: Price, action: Action, n: Note)
    requires Known(given, prior.sourceIds) && n.Warning? && n !in state.notes
    requires n in Act(given, state, prior, action).notes
    ensures n == Warning(prior.id, n.replacedOn, ReadOn(given, prior.sourceIds)) && n.replacedOn <= n.read
    ensures action == Look(n.replacedOn)
  {
    hide ReadOn, DatedAll, UniqueId, CarryBase, Known;
  }

  lemma {:induction false} ActsWarn(given: Given, state: State, prior: Price, actions: seq<Action>, n: Note)
    requires Known(given, prior.sourceIds)
    requires n in ActAll(given, state, prior, actions).notes && n.Warning? && n !in state.notes
    ensures n == Warning(prior.id, n.replacedOn, ReadOn(given, prior.sourceIds)) && n.replacedOn <= n.read
    ensures Look(n.replacedOn) in actions
  {
    if actions == [] {
    } else {
      hide ReadOn, Known, Act, ActAll;
      var front, last := actions[..|actions| - 1], actions[|actions| - 1];
      assert actions == front + [last] && (last in actions) && forall x :: x in front ==> x in actions;
      ActAllNext(given, state, prior, front, last);
      var before := ActAll(given, state, prior, front);
      if n in before.notes {
        ActsWarn(given, state, prior, front, n);
      } else {
        ActWarns(given, before, prior, last, n);
      }
    }
  }

  // A refresh warns only about an open old price, and a replacement of it dated no later than it was last read.
  lemma {:induction false} WarningsMeaning(given: Given, state: State, current: seq<Price>, n: Note) returns (k: nat)
    requires AllKnown(given, current) && n in Refreshed(given, state, current).notes && n.Warning? && n !in state.notes
    ensures k < |current| && current[k].until.None? && n.id == current[k].id
    ensures n.read == ReadOn(given, current[k].sourceIds) && n.replacedOn <= n.read
    ensures Replaces(given, Refreshed(given, state, current[..k]).listed, current[k], n.replacedOn)
  {
    hide Actions, ListedAfter, ReadOn, Replaces, ActAll;
    k := |current| - 1;
    var front, last := current[..k], current[k];
    var before := Refreshed(given, state, front);
    if n in before.notes {
      k := WarningsMeaning(given, state, front, n);
      assert front[..k] == current[..k];
    } else {
      ActsWarn(given, Prepared(before, last), last, Actions(given, before.listed, last), n);
      LooksMeaning(given, before.listed, last, n.replacedOn);
    }
  }
}
