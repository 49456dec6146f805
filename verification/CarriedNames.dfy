// The ID of each carried price, said of the price and the one it is a piece of.
module CarriedNames {
  import opened Wrappers
  import opened Prices
  import opened Identifiers
  import opened Refresh
  import opened Coverage
  import opened Pieces
  import opened Idempotence

  lemma CarriedId(given: Given, state: State, prior: Price, cut: Cut)
    requires Known(given, prior.sourceIds)
    ensures var after := Carry(given, state, prior, cut);
      && |after.carried| == |state.carried| + 1 && state.carried <= after.carried
      && IsBaseOrNumbered(after.carried[|state.carried|].id, CarryBase(given, prior, cut.until))
  {
    hide DatedAll, UniqueId, CarryBase, IsBaseOrNumbered;
    UniqueIdMeaning(CarryBase(given, prior, cut.until), state.used);
  }

  lemma {:induction false} CarryAllId(given: Given, state: State, prior: Price, cuts: seq<Cut>, j: nat)
    requires Known(given, prior.sourceIds) && j < |cuts|
    ensures |CarryAll(given, state, prior, cuts).carried| == |state.carried| + |cuts|
    ensures IsBaseOrNumbered(CarryAll(given, state, prior, cuts).carried[|state.carried| + j].id,
                             CarryBase(given, prior, cuts[j].until))
  {
    hide Carry, CarryBase, IsBaseOrNumbered, Known;
    var front, last := cuts[..|cuts| - 1], cuts[|cuts| - 1];
    CarryAllShape(given, state, prior, front);
    CarriedId(given, CarryAll(given, state, prior, front), prior, last);
    if j == |front| {
    } else {
      CarryAllId(given, state, prior, front, j);
    }
  }

  lemma OriginId(given: Given, state: State, current: seq<Price>, i: nat, k: nat, j: nat)
    requires AllKnown(given, current) && Origin(given, state, current, i, k, j)
    ensures var cut := Cuts(given, Refreshed(given, state, current[..k]).listed, current[k])[j];
      IsBaseOrNumbered(Refreshed(given, state, current).carried[i].id, CarryBase(given, current[k], cut.until))
  {
    hide Step, Cuts, FromCut, CarryBase, IsBaseOrNumbered, CarryAll, ListedAfter;
    var before, stepped := Refreshed(given, state, current[..k]), Refreshed(given, state, current[..k + 1]);
    assert current[..k + 1][..k] == current[..k];
    assert stepped == Step(given, before, current[k]);
    StepCarries(given, before, current[k]);
    CarryAllId(given, Prepared(before, current[k]), current[k], Cuts(given, before.listed, current[k]), j);
    RefreshedGrows(given, state, current, k + 1);
  }

  // A carried price keeps the ID of an old price that had ended. Otherwise its ID is the old one without a suffix of
  // its own, with the last day that the piece has, or none. A number may follow; and no other price has the same.
  lemma CarriedName(given: Given, state: State, current: seq<Price>, i: nat) returns (k: nat, j: nat)
    requires AllKnown(given, current) && state.carried == [] && IdsFit(state) && NotesFit(state)
    requires i < |Refreshed(given, state, current).carried|
    ensures Origin(given, state, current, i, k, j)
    ensures var (after, prior) := (Refreshed(given, state, current), current[k]);
      var p := after.carried[i];
      && (prior.until.Some? ==> p.until == prior.until && IsBaseOrNumbered(p.id, prior.id))
      && (prior.until.None? && p.until.Some? ==>
            IsBaseOrNumbered(p.id, Strip(prior.id) + ".until-" + (given.iso)(p.until.value)))
      && (prior.until.None? && p.until.None? ==> IsBaseOrNumbered(p.id, Strip(prior.id) + ".last"))
      && (forall m :: 0 <= m < |after.carried| && after.carried[m].id == p.id ==> m == i)
      && (forall q :: q in after.listed ==> q.id != p.id)
  {
    hide Refreshed, Cuts, Strip, IsBaseOrNumbered;
    k, j := CarriedOrigin(given, state, current, i);
    OriginId(given, state, current, i, k, j);
    IdsStayUnique(given, state, current);
    EndedWhole(given, Refreshed(given, state, current[..k]).listed, current[k], j);
    assert Refreshed(given, state, current).carried[i] in Refreshed(given, state, current).carried;
  }

  lemma EndedWhole(given: Given, listed: seq<Price>, prior: Price, j: nat)
    requires j < |Cuts(given, listed, prior)|
    ensures prior.until.Some? ==> Cuts(given, listed, prior)[j].until.None?
  {
  }
}
