// A refresh of a refreshed list changes nothing, and the list it leaves is well formed.
module Idempotence {
  import opened Prices
  import opened Identifiers
  import opened Refresh
  import opened Coverage

  // ---- IDs stay unique ----

  ghost predicate DistinctIds(prices: seq<Price>) {
    forall i, j :: 0 <= i < j < |prices| ==> prices[i].id != prices[j].id
  }

  ghost predicate IdsFit(state: State) {
    && DistinctIds(state.listed) && DistinctIds(state.carried)
    && (forall p :: p in state.listed ==> p.id in state.used)
    && (forall p :: p in state.carried ==> p.id in state.used)
    && forall p, q :: p in state.listed && q in state.carried ==> p.id != q.id
  }

  lemma CarryKeepsIds(given: Given, state: State, prior: Price, cut: Cut)
    requires Known(given, prior.sourceIds) && IdsFit(state)
    ensures IdsFit(Carry(given, state, prior, cut))
  {
    hide DatedAll, UniqueId, CarryBase;
  }

  lemma PreparedKeepsIds(state: State, prior: Price)
    requires IdsFit(state)
    ensures IdsFit(Prepared(state, prior))
  {
    var listed := ListedAfter(state.listed, prior);
    assert forall i :: 0 <= i < |listed| ==> listed[i].id == state.listed[i].id;
    forall p | p in listed ensures exists q :: q in state.listed && q.id == p.id {
      var i :| 0 <= i < |listed| && listed[i] == p;
      assert state.listed[i] in state.listed;
    }
  }

  lemma StartFits(listed: seq<Price>, sources: Sources)
    requires DistinctIds(listed)
    ensures IdsFit(Start(listed, sources)) && NotesFit(Start(listed, sources))
  {
  }

  // ---- What is noted ----

  // The notes that say a price was kept.
  function Keepings(notes: seq<Note>): seq<Note> {
    if notes == [] then []
    else Keepings(notes[..|notes| - 1]) + if notes[|notes| - 1].Carried? then [notes[|notes| - 1]] else []
  }

  function NotesOf(carried: seq<Price>): seq<Note> {
    if carried == [] then []
    else
      var last := carried[|carried| - 1];
      NotesOf(carried[..|carried| - 1]) + [Carried(last.id, last.until)]
  }

  // One for each carried price, in the order they were carried, and no other.
  ghost predicate NotesFit(state: State) {
    Keepings(state.notes) == NotesOf(state.carried)
  }

  lemma {:induction false} KeepingsHave(notes: seq<Note>, note: Note)
    requires note in notes && note.Carried?
    ensures note in Keepings(notes)
  {
    var front := notes[..|notes| - 1];
    if note in front {
      KeepingsHave(front, note);
    } else {
      assert note == notes[|notes| - 1];
    }
  }

  lemma {:induction false} NotesOfHave(carried: seq<Price>, note: Note)
    requires note in NotesOf(carried)
    ensures note.Carried? && exists p :: p in carried && p.id == note.id
  {
    var front, last := carried[..|carried| - 1], carried[|carried| - 1];
    if note in NotesOf(front) {
      NotesOfHave(front, note);
      var p :| p in front && p.id == note.id;
      assert p in carried;
    } else {
      assert last in carried;
    }
  }

  lemma NotedNext(notes: seq<Note>, note: Note)
    ensures Keepings(notes + [note]) == Keepings(notes) + if note.Carried? then [note] else []
  {
    assert (notes + [note])[..|notes|] == notes;
  }

  lemma CarryKeepsNotes(given: Given, state: State, prior: Price, cut: Cut)
    requires Known(given, prior.sourceIds) && IdsFit(state) && NotesFit(state)
    ensures NotesFit(Carry(given, state, prior, cut))
  {
    hide DatedAll, CarryBase, Known;
    var after := Carry(given, state, prior, cut);
    var piece := after.carried[|state.carried|];
    var note := Carried(piece.id, piece.until);
    if note in state.notes {
      KeepingsHave(state.notes, note);
      NotesOfHave(state.carried, note);
    }
    NotedNext(state.notes, note);
    assert after.carried[..|state.carried|] == state.carried;
  }

  lemma {:induction false} ActsKeepNotes(given: Given, state: State, prior: Price, actions: seq<Action>)
    requires Known(given, prior.sourceIds) && IdsFit(state) && NotesFit(state)
    ensures IdsFit(ActAll(given, state, prior, actions)) && NotesFit(ActAll(given, state, prior, actions))
  {
    if actions == [] {
    } else {
      hide Carry, IdsFit, Keepings, NotesOf, Known, ReadOn;
      var front, last := actions[..|actions| - 1], actions[|actions| - 1];
      ActsKeepNotes(given, state, prior, front);
      var before := ActAll(given, state, prior, front);
      match last
      case Keep(cut) =>
        CarryKeepsIds(given, before, prior, cut);
        CarryKeepsNotes(given, before, prior, cut);
      case Look(day) =>
        IdsIgnoreNotes(before, LookedAt(given, before.notes, prior, day));
        NotedNext(before.notes, Warning(prior.id, day, ReadOn(given, prior.sourceIds)));
    }
  }

  lemma IdsIgnoreNotes(state: State, notes: seq<Note>)
    requires IdsFit(state)
    ensures IdsFit(state.(notes := notes))
  {
  }

  // No refresh gives two prices one ID; and it says of each price that it keeps, and of no other, that it kept it.
  lemma {:induction false} IdsStayUnique(given: Given, state: State, current: seq<Price>)
    requires AllKnown(given, current) && IdsFit(state) && NotesFit(state)
    ensures IdsFit(Refreshed(given, state, current)) && NotesFit(Refreshed(given, state, current))
  {
    if current == [] {
    } else {
      hide Actions, IdsFit, ListedAfter;
      var front, last := current[..|current| - 1], current[|current| - 1];
      IdsStayUnique(given, state, front);
      var before := Refreshed(given, state, front);
      PreparedKeepsIds(before, last);
      ActsKeepNotes(given, Prepared(before, last), last, Actions(given, before.listed, last));
    }
  }

  // ---- The source each citation becomes ----

  // The sources in use: the rebuilt list's own, and dated copies.
  ghost predicate SourcesFit(given: Given, rebuilt: Sources, sources: Sources) {
    && (forall id :: id in rebuilt ==> id in sources && sources[id] == rebuilt[id])
    && forall id :: id in sources && id !in rebuilt ==> EndsWith(id, Stamp(given, sources[id]))
  }

  // The source that a citation of an old source becomes, whatever was carried before.
  function Cited(given: Given, rebuilt: Sources, id: string): string
    requires id in given.oldSources
  {
    if id in rebuilt && rebuilt[id] == given.oldSources[id] then id else NamedFor(given, given.oldSources[id], id)
  }

  lemma EndsWithAppended(s: string, suffix: string)
    ensures EndsWith(s + suffix, suffix)
  {
  }

  lemma DatedIsCited(given: Given, rebuilt: Sources, sources: Sources, added: seq<Source>, id: string)
    requires id in given.oldSources && SourcesFit(given, rebuilt, sources)
    ensures var (named, after, _) := Dated(given, sources, added, id);
      named == Cited(given, rebuilt, id) && named in after && SourcesFit(given, rebuilt, after)
      && forall s :: s in sources ==> s in after && after[s] == sources[s]
  {
    EndsWithAppended(id, Stamp(given, given.oldSources[id]));
  }

  function CitedAll(given: Given, rebuilt: Sources, ids: seq<string>): (named: seq<string>)
    requires forall i :: 0 <= i < |ids| ==> ids[i] in given.oldSources
    ensures |named| == |ids|
  {
    if ids == [] then [] else CitedAll(given, rebuilt, ids[..|ids| - 1]) + [Cited(given, rebuilt, ids[|ids| - 1])]
  }

  lemma {:induction false} DatedAllIsCited(given: Given, rebuilt: Sources, sources: Sources, added: seq<Source>,
                                           ids: seq<string>)
    requires SourcesFit(given, rebuilt, sources) && forall i :: 0 <= i < |ids| ==> ids[i] in given.oldSources
    ensures var (named, after, _) := DatedAll(given, sources, added, ids);
      && named == CitedAll(given, rebuilt, ids) && SourcesFit(given, rebuilt, after)
      && (forall n :: n in named ==> n in after)
      && forall s :: s in sources ==> s in after && after[s] == sources[s]
  {
    if ids == [] {
    } else {
      var front := ids[..|ids| - 1];
      DatedAllIsCited(given, rebuilt, sources, added, front);
      var (_, s, a) := DatedAll(given, sources, added, front);
      DatedIsCited(given, rebuilt, s, a, ids[|ids| - 1]);
    }
  }

  // Every carried price cites sources that are in the list.
  ghost predicate CitesKnown(state: State) {
    forall p :: p in state.carried ==> p.sourceIds != [] && forall n :: n in p.sourceIds ==> n in state.sources
  }

  ghost predicate Cites(given: Given, rebuilt: Sources, state: State) {
    SourcesFit(given, rebuilt, state.sources) && CitesKnown(state)
  }

  lemma CarryCites(given: Given, rebuilt: Sources, state: State, prior: Price, cut: Cut)
    requires Known(given, prior.sourceIds) && Cites(given, rebuilt, state)
    ensures Cites(given, rebuilt, Carry(given, state, prior, cut))
    ensures var carried := Carry(given, state, prior, cut).carried;
      carried[|carried| - 1].sourceIds == CitedAll(given, rebuilt, prior.sourceIds)
  {
    hide UniqueId, CarryBase, DatedAll, SourcesFit;
    DatedAllIsCited(given, rebuilt, state.sources, state.added, prior.sourceIds);
  }

  lemma {:induction false} CarryAllCites(given: Given, rebuilt: Sources, state: State, prior: Price, cuts: seq<Cut>)
    requires Known(given, prior.sourceIds) && Cites(given, rebuilt, state)
    ensures Cites(given, rebuilt, CarryAll(given, state, prior, cuts))
  {
    if cuts == [] {
    } else {
      hide Cites, Known, Carry;
      CarryAllCites(given, rebuilt, state, prior, cuts[..|cuts| - 1]);
      CarryCites(given, rebuilt, CarryAll(given, state, prior, cuts[..|cuts| - 1]), prior, cuts[|cuts| - 1]);
    }
  }

  // A refresh leaves every carried price citing sources the list has, and keeps the rebuilt ones as they are.
  lemma {:induction false} RefreshedCites(given: Given, rebuilt: Sources, state: State, current: seq<Price>)
    requires AllKnown(given, current) && Cites(given, rebuilt, state)
    ensures Cites(given, rebuilt, Refreshed(given, state, current))
  {
    if current == [] {
    } else {
      var front, last := current[..|current| - 1], current[|current| - 1];
      RefreshedCites(given, rebuilt, state, front);
      var before := Refreshed(given, state, front);
      StepCarries(given, before, last);
      CarryAllCites(given, rebuilt, Prepared(before, last), last, Cuts(given, before.listed, last));
    }
  }

  // ---- Which sources are in the list ----

  // Every source added is a dated copy, listed under its own ID, once, and cited by a carried price; and no other
  // source is beside the rebuilt ones.
  ghost predicate AddedFit(rebuilt: Sources, sources: Sources, added: seq<Source>) {
    && (forall id :: id in rebuilt ==> id in sources)
    && (forall i :: 0 <= i < |added| ==>
          added[i].id in sources && added[i].id !in rebuilt && sources[added[i].id] == added[i])
    && (forall i, j :: 0 <= i < j < |added| ==> added[i].id != added[j].id)
    && forall id :: id in sources && id !in rebuilt ==> sources[id].id == id && sources[id] in added
  }

  ghost predicate Tight(rebuilt: Sources, state: State) {
    && AddedFit(rebuilt, state.sources, state.added)
    && forall id :: id in state.sources && id !in rebuilt ==> exists p :: p in state.carried && id in p.sourceIds
  }

  lemma DatedFits(given: Given, rebuilt: Sources, sources: Sources, added: seq<Source>, id: string)
    requires id in given.oldSources && AddedFit(rebuilt, sources, added)
    ensures var (named, after, more) := Dated(given, sources, added, id);
      AddedFit(rebuilt, after, more) && forall n :: n in after ==> n in sources || n == named
  {
  }

  lemma {:induction false} DatedAllFits(given: Given, rebuilt: Sources, sources: Sources, added: seq<Source>,
                                        ids: seq<string>)
    requires AddedFit(rebuilt, sources, added) && forall i :: 0 <= i < |ids| ==> ids[i] in given.oldSources
    ensures var (named, after, more) := DatedAll(given, sources, added, ids);
      AddedFit(rebuilt, after, more) && forall n :: n in after ==> n in sources || n in named
  {
    if ids == [] {
    } else {
      hide Dated, AddedFit;
      var front := ids[..|ids| - 1];
      DatedAllFits(given, rebuilt, sources, added, front);
      var (_, s, a) := DatedAll(given, sources, added, front);
      DatedFits(given, rebuilt, s, a, ids[|ids| - 1]);
    }
  }

  lemma CarryTight(given: Given, rebuilt: Sources, state: State, prior: Price, cut: Cut)
    requires Known(given, prior.sourceIds) && Tight(rebuilt, state)
    ensures Tight(rebuilt, Carry(given, state, prior, cut))
  {
    hide UniqueId, CarryBase, DatedAll, AddedFit;
    DatedAllFits(given, rebuilt, state.sources, state.added, prior.sourceIds);
    var after := Carry(given, state, prior, cut);
    forall id | id in after.sources && id !in rebuilt ensures exists p :: p in after.carried && id in p.sourceIds {
      if id in state.sources {
        var p :| p in state.carried && id in p.sourceIds;
        assert p in after.carried;
      } else {
        assert after.carried[|state.carried|] in after.carried && id in after.carried[|state.carried|].sourceIds;
      }
    }
  }

  lemma {:induction false} CarryAllTight(given: Given, rebuilt: Sources, state: State, prior: Price, cuts: seq<Cut>)
    requires Known(given, prior.sourceIds) && Tight(rebuilt, state)
    ensures Tight(rebuilt, CarryAll(given, state, prior, cuts))
  {
    if cuts == [] {
    } else {
      hide Tight, Known, Carry;
      CarryAllTight(given, rebuilt, state, prior, cuts[..|cuts| - 1]);
      CarryTight(given, rebuilt, CarryAll(given, state, prior, cuts[..|cuts| - 1]), prior, cuts[|cuts| - 1]);
    }
  }

  // A refresh adds a source only for a price that it carries, and each once.
  lemma {:induction false} RefreshedTight(given: Given, rebuilt: Sources, state: State, current: seq<Price>)
    requires AllKnown(given, current) && Tight(rebuilt, state)
    ensures Tight(rebuilt, Refreshed(given, state, current))
  {
    if current == [] {
    } else {
      hide Cuts, ListedAfter, CarryAll, Step, AddedFit;
      var front, last := current[..|current| - 1], current[|current| - 1];
      RefreshedTight(given, rebuilt, state, front);
      var before := Refreshed(given, state, front);
      StepCarries(given, before, last);
      CarryAllTight(given, rebuilt, Prepared(before, last), last, Cuts(given, before.listed, last));
    }
  }

  lemma StartTight(listed: seq<Price>, sources: Sources)
    ensures Tight(sources, Start(listed, sources))
  {
  }

  // So the sources in the list determine what was added.
  lemma AddedOf(rebuilt: Sources, sources: Sources, a: seq<Source>, b: seq<Source>)
    requires AddedFit(rebuilt, sources, a) && AddedFit(rebuilt, sources, b)
    ensures multiset(a) == multiset(b)
  {
    forall s ensures multiset(a)[s] == multiset(b)[s] {
      OnceAdded(rebuilt, sources, a, s);
      OnceAdded(rebuilt, sources, b, s);
    }
  }

  lemma {:induction false} AtMostOnce(added: seq<Source>, s: Source)
    requires forall i, j :: 0 <= i < j < |added| ==> added[i].id != added[j].id
    ensures multiset(added)[s] == if s in added then 1 else 0
  {
    if added == [] {
    } else {
      var front, last := added[..|added| - 1], added[|added| - 1];
      AtMostOnce(front, s);
      assert added == front + [last];
    }
  }

  lemma AddedMember(rebuilt: Sources, sources: Sources, added: seq<Source>, s: Source)
    requires AddedFit(rebuilt, sources, added)
    ensures s in added <==> s.id in sources && s.id !in rebuilt && sources[s.id] == s
  {
    if s in added {
      var i :| 0 <= i < |added| && added[i] == s;
    }
  }

  lemma OnceAdded(rebuilt: Sources, sources: Sources, added: seq<Source>, s: Source)
    requires AddedFit(rebuilt, sources, added)
    ensures multiset(added)[s] == if s.id in sources && s.id !in rebuilt && sources[s.id] == s then 1 else 0
  {
    AddedMember(rebuilt, sources, added, s);
    AtMostOnce(added, s);
  }

  // ---- Dating sources that are dated already ----

  // Sources that a refresh has left: the rebuilt list's own, and copies listed under an ID that ends with their day.
  ghost predicate SourcesLeft(given: Given, rebuilt: Sources) {
    && SourcesFit(given, rebuilt, given.oldSources)
    && forall id :: id in given.oldSources && id !in rebuilt ==> given.oldSources[id].id == id
  }

  ghost predicate Within(given: Given, rebuilt: Sources, sources: Sources) {
    && (forall id :: id in rebuilt ==> id in sources)
    && forall id :: id in sources ==> id in given.oldSources && sources[id] == given.oldSources[id]
  }

  lemma DatedWithin(given: Given, rebuilt: Sources, sources: Sources, added: seq<Source>, id: string)
    requires id in given.oldSources && SourcesLeft(given, rebuilt) && Within(given, rebuilt, sources)
    ensures Within(given, rebuilt, Dated(given, sources, added, id).1)
  {
  }

  lemma {:induction false} DatedAllWithin(given: Given, rebuilt: Sources, sources: Sources, added: seq<Source>,
                                          ids: seq<string>)
    requires SourcesLeft(given, rebuilt) && Within(given, rebuilt, sources)
    requires forall i :: 0 <= i < |ids| ==> ids[i] in given.oldSources
    ensures Within(given, rebuilt, DatedAll(given, sources, added, ids).1)
  {
    if ids == [] {
    } else {
      hide Dated, SourcesLeft, Within;
      var front := ids[..|ids| - 1];
      DatedAllWithin(given, rebuilt, sources, added, front);
      var (_, s, a) := DatedAll(given, sources, added, front);
      DatedWithin(given, rebuilt, s, a, ids[|ids| - 1]);
    }
  }

  lemma {:induction false} CarryAllWithin(given: Given, rebuilt: Sources, state: State, prior: Price, cuts: seq<Cut>)
    requires Known(given, prior.sourceIds) && SourcesLeft(given, rebuilt) && Within(given, rebuilt, state.sources)
    ensures Within(given, rebuilt, CarryAll(given, state, prior, cuts).sources)
  {
    if cuts == [] {
    } else {
      hide SourcesLeft, Within, UniqueId, CarryBase;
      var front := cuts[..|cuts| - 1];
      CarryAllWithin(given, rebuilt, state, prior, front);
      var before := CarryAll(given, state, prior, front);
      DatedAllWithin(given, rebuilt, before.sources, before.added, prior.sourceIds);
    }
  }

  // A refresh of a refreshed list makes no source that the list did not have.
  lemma {:induction false} RefreshedWithin(given: Given, rebuilt: Sources, state: State, current: seq<Price>)
    requires AllKnown(given, current) && SourcesLeft(given, rebuilt) && Within(given, rebuilt, state.sources)
    ensures Within(given, rebuilt, Refreshed(given, state, current).sources)
  {
    if current == [] {
    } else {
      hide Cuts, ListedAfter, CarryAll, Step, SourcesLeft, Within;
      var front, last := current[..|current| - 1], current[|current| - 1];
      RefreshedWithin(given, rebuilt, state, front);
      var before := Refreshed(given, state, front);
      StepCarries(given, before, last);
      CarryAllWithin(given, rebuilt, Prepared(before, last), last, Cuts(given, before.listed, last));
    }
  }
}
