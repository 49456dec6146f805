// Whole runs of one writer over a store: it plans, lands its writes one at a time, and may stop and plan
// again anywhere. Readers take the manifest and the shard in separate steps.
module Runs {
  import opened Wrappers
  import opened Base64
  import opened Numerals
  import opened Members
  import opened NamedValues
  import opened Projections
  import opened Updates
  import opened Commits

  // The store, the writes still to land, what the last landed manifest published, and what this plan publishes.
  datatype World = World(values: Values, pending: seq<Write>, committed: Commit, planned: Commit)

  // The writer plans anew from what is stored, abandoning what had not landed; or its next write lands.
  datatype Event = PlanEvent(commit: Commit) | Land

  ghost function Next(site: Site, w: World, e: Event): World {
    match e
    case PlanEvent(commit) =>
      (match Planned(site, w.values, commit)
       case Ok(plan) => w.(pending := plan.writes, planned := commit)
       case Error => w.(pending := []))
    case Land =>
      if w.pending == [] then w
      else
        World(w.values[w.pending[0].0 := w.pending[0].1], w.pending[1..],
              if w.pending[0].0 == site.ManifestName() then w.planned else w.committed, w.planned)
  }

  ghost function Run(site: Site, w: World, events: seq<Event>): World {
    if events == [] then w else Next(site, Run(site, w, events[..|events| - 1]), events[|events| - 1])
  }

  ghost function Start(site: Site, commit: Commit): World
    requires Projected(site, commit).Ok?
  {
    World(Projected(site, commit).value, [], commit, commit)
  }

  // A write of some records into bucket b's inactive bank, one generation up.
  ghost predicate StagesBucket(site: Site, pointers: seq<Pointer>, b: nat, data: seq<byte>, w: Write) {
    b < |pointers| && pointers[b].generation < MAX_GENERATION
    && w == (site.ShardName(b, Flip(pointers[b].bank)), ShardText(pointers[b].generation + 1, data))
  }

  ghost predicate IsStaging(site: Site, pointers: seq<Pointer>, w: Write) {
    exists b: nat, data :: StagesBucket(site, pointers, b, data, w)
  }

  // Every pointer stays, or moves to the other bank one generation up.
  ghost predicate Advances(old_: seq<Pointer>, new_: seq<Pointer>) {
    |old_| == |new_| && forall b :: 0 <= b < |old_| ==>
      new_[b] == old_[b] || new_[b] == Pointer(Flip(old_[b].bank), old_[b].generation + 1)
  }

  // The writes still to land: staged shards, then the manifest that publishes the planned commit.
  ghost predicate PendingFits(site: Site, values: Values, pending: seq<Write>, planned: Commit) {
    pending == [] || (
      && pending[|pending| - 1].0 == site.ManifestName()
      && (forall i :: 0 <= i < |pending| - 1 ==> IsStaging(site, Pointers(site, values), pending[i]))
      && Holds(site, Apply(values, pending), planned)
      && Advances(Pointers(site, values), Pointers(site, Apply(values, pending))))
  }

  ghost predicate Inv(site: Site, w: World) {
    Holds(site, w.values, w.committed) && PendingFits(site, w.values, w.pending, w.planned)
  }

  // Staging a bucket touches neither the manifest nor any bank the manifest points to.
  lemma StagingKeeps(site: Site, values: Values, commit: Commit, w: Write)
    requires Holds(site, values, commit) && IsStaging(site, Pointers(site, values), w)
    ensures Holds(site, values[w.0 := w.1], commit)
    ensures Pointers(site, values[w.0 := w.1]) == Pointers(site, values)
  {
    var c: nat, data :| StagesBucket(site, Pointers(site, values), c, data, w);
    hide ShardText, Numeral, ShardRecords;
    site.NamesDiffer(c, Flip(Pointers(site, values)[c].bank), c, 0);
    forall b | 0 <= b < site.count
      ensures site.RecordsAt(values[w.0 := w.1], b, Pointers(site, values)[b])
        == site.RecordsAt(values, b, Pointers(site, values)[b])
    {
      site.NamesDiffer(b, Pointers(site, values)[b].bank, c, Flip(Pointers(site, values)[c].bank));
    }
  }

  lemma StagingName(site: Site, pointers: seq<Pointer>, w: Write)
    requires IsStaging(site, pointers, w) && |pointers| <= 128
    ensures w.0 != site.ManifestName()
  {
    var c: nat, data :| StagesBucket(site, pointers, c, data, w);
    site.NamesDiffer(c, Flip(pointers[c].bank), c, 0);
  }

  // Landing a staged write leaves the rest of the plan as it was.
  lemma StagingLands(site: Site, values: Values, committed: Commit, first: Write, rest: seq<Write>, planned: Commit)
    requires Holds(site, values, committed) && PendingFits(site, values, [first] + rest, planned) && rest != []
    ensures first.0 != site.ManifestName() && Holds(site, values[first.0 := first.1], committed)
    ensures PendingFits(site, values[first.0 := first.1], rest, planned)
  {
    hide Holds, Pointers;
    var pending := [first] + rest;
    assert pending[0] == first;
    ApplyAppend(values, [first], rest);
    StagingKeeps(site, values, committed, first);
    PointersBound(site, values);
    StagingName(site, Pointers(site, values), first);
    forall i | 0 <= i < |rest| - 1 ensures IsStaging(site, Pointers(site, values), rest[i]) {
      assert rest[i] == pending[i + 1];
    }
    assert Apply(values, [first]) == values[first.0 := first.1] by {
      assert [first][..0] == [];
    }
  }

  lemma PointersBound(site: Site, values: Values)
    ensures |Pointers(site, values)| <= 128
  {
  }

  lemma LandKeepsInv(site: Site, w: World)
    requires Inv(site, w)
    ensures Inv(site, Next(site, w, Land))
  {
    hide Holds, Pointers;
    if |w.pending| == 1 {
      assert w.pending[..0] == [] && w.pending[1..] == [];
      assert Apply(w.values, w.pending) == w.values[w.pending[0].0 := w.pending[0].1];
    } else if w.pending != [] {
      assert w.pending == [w.pending[0]] + w.pending[1..];
      StagingLands(site, w.values, w.committed, w.pending[0], w.pending[1..], w.planned);
    }
  }

  // ---- Planning ----

  lemma {:induction false} NothingStaged(site: Site, steps: seq<Step>, k: nat)
    requires k <= |steps| && forall b :: 0 <= b < k ==> !steps[b].Changed()
    ensures Staged(site, steps, k) == []
  {
    if k == 0 {
    } else {
      NothingStaged(site, steps, k - 1);
    }
  }

  // A plan without a manifest write has no writes at all.
  lemma NoManifestNoWrites(site: Site, values: Values, plan: Plan)
    requires IsPlan(site, values, plan) && site.ManifestName() in values && 0 <= plan.commit.expiry
    requires plan.Text() == values[site.ManifestName()]
    ensures plan.writes == []
  {
    hide IsPlan;
    PlanShape(site, values, plan);
    PlanManifest(site, values, plan);
    forall b | 0 <= b < |plan.steps| ensures !plan.steps[b].Changed() {
      PlanStep(site, values, plan, b);
    }
    NothingStaged(site, plan.steps, |plan.steps|);
    PlanBody(site, values, plan);
  }

  lemma StageStages(site: Site, values: Values, plan: Plan, b: nat)
    requires IsPlan(site, values, plan) && b < site.count == |plan.steps| && plan.steps[b].Changed()
    ensures StagesBucket(site, Pointers(site, values), b, plan.steps[b].records, Stage(site, b, plan.steps[b]))
  {
    hide IsPlan, Pointers, ShardText, ShardValue, ShardRecords;
    PlanShape(site, values, plan);
    PlanStep(site, values, plan, b);
  }

  lemma StagedIsStaging(site: Site, values: Values, plan: Plan, w: Write)
    requires IsPlan(site, values, plan) && w in Staged(site, plan.steps, |plan.steps|)
    ensures IsStaging(site, Pointers(site, values), w)
  {
    hide IsPlan, Pointers, ShardText, Staged, StagesBucket;
    PlanShape(site, values, plan);
    StagedMeaning(site, plan.steps, |plan.steps|, w);
    var b: nat :| b < |plan.steps| && IsStaged(site, plan.steps, b, w);
    StageStages(site, values, plan, b);
  }

  // A plan's manifest is its last write, and all the others stage shards.
  lemma PlanOrder(site: Site, values: Values, plan: Plan)
    requires IsPlan(site, values, plan)
    ensures plan.writes != [] ==> plan.writes[|plan.writes| - 1].0 == site.ManifestName()
    ensures forall i :: 0 <= i < |plan.writes| - 1 ==> IsStaging(site, Pointers(site, values), plan.writes[i])
  {
    hide IsPlan, Pointers, IsStaging, Staged, Steps, NextPointers, AllPossible, BucketData;
    PlanShape(site, values, plan);
    if plan.Text() == values[site.ManifestName()] {
      NoManifestNoWrites(site, values, plan);
    } else {
      PlanBody(site, values, plan);
      forall i | 0 <= i < |plan.writes| - 1 ensures IsStaging(site, Pointers(site, values), plan.writes[i]) {
        StagedIsStaging(site, values, plan, plan.writes[i]);
      }
    }
  }

  // Once all of a plan's writes have landed, the store publishes its commit.
  lemma PlanCompletes(site: Site, values: Values, plan: Plan)
    requires IsPlan(site, values, plan)
    ensures Holds(site, Apply(values, plan.writes), plan.commit)
    ensures Pointers(site, Apply(values, plan.writes)) == plan.next
  {
    hide IsPlan;
    var names := (set w | w in plan.writes :: w.0) + {site.ManifestName()};
    var after := Apply(values, plan.writes);
    PlanShape(site, values, plan);
    ShownAll(values, plan.writes, names);
    ShownManifest(site, values, plan, names);
    forall b | 0 <= b < site.count
      ensures site.RecordsAt(after, b, plan.next[b]) == Ok(site.Data(plan.commit.members, b))
    {
      PlanStep(site, values, plan, b);
      ShownBank(site, values, plan, names, b, plan.next[b].bank);
      if plan.steps[b].Changed() {
        StageListed(site, values, plan, b);
        DataReads(site, plan.commit.members, b, plan.next[b].generation);
      }
    }
  }

  lemma StageListed(site: Site, values: Values, plan: Plan, b: nat)
    requires IsPlan(site, values, plan) && b < |plan.steps| && plan.steps[b].Changed()
    ensures Stage(site, b, plan.steps[b]) in plan.writes
  {
    PlanWrites(site, values, plan, Stage(site, b, plan.steps[b]));
    assert IsStaged(site, plan.steps, b, Stage(site, b, plan.steps[b]));
  }

  lemma PlanAdvances(site: Site, values: Values, plan: Plan)
    requires IsPlan(site, values, plan)
    ensures Advances(Pointers(site, values), plan.next)
  {
    hide IsPlan;
    PlanShape(site, values, plan);
    forall b | 0 <= b < site.count
      ensures plan.next[b] == Pointers(site, values)[b]
           || plan.next[b] == Pointer(Flip(Pointers(site, values)[b].bank), Pointers(site, values)[b].generation + 1)
    {
      PlanStep(site, values, plan, b);
    }
  }

  lemma PlanFits(site: Site, values: Values, plan: Plan)
    requires IsPlan(site, values, plan)
    ensures PendingFits(site, values, plan.writes, plan.commit)
  {
    hide IsPlan, Holds, Pointers;
    PlanOrder(site, values, plan);
    PlanCompletes(site, values, plan);
    PlanAdvances(site, values, plan);
  }

  lemma NextKeepsInv(site: Site, w: World, e: Event)
    requires Inv(site, w)
    ensures Inv(site, Next(site, w, e))
  {
    hide Holds, PendingFits;
    match e
    case Land =>
      LandKeepsInv(site, w);
    case PlanEvent(commit) =>
      if Planned(site, w.values, commit).Ok? {
        PlannedCommit(site, w.values, commit);
        PlanFits(site, w.values, Planned(site, w.values, commit).value);
      } else {
        NothingPending(site, w.values, w.planned);
      }
  }

  lemma PlannedCommit(site: Site, values: Values, commit: Commit)
    requires Planned(site, values, commit).Ok?
    ensures Planned(site, values, commit).value.commit == commit
    ensures IsPlan(site, values, Planned(site, values, commit).value)
  {
    hide Planned;
    PlannedIsPlan(site, values, commit);
  }

  lemma NothingPending(site: Site, values: Values, planned: Commit)
    ensures PendingFits(site, values, [], planned)
  {
  }

  lemma {:induction false} RunKeepsInv(site: Site, w: World, events: seq<Event>)
    requires Inv(site, w)
    ensures Inv(site, Run(site, w, events))
  {
    if events == [] {
    } else {
      RunKeepsInv(site, w, events[..|events| - 1]);
      NextKeepsInv(site, Run(site, w, events[..|events| - 1]), events[|events| - 1]);
    }
  }

  lemma StartInv(site: Site, commit: Commit)
    requires Projected(site, commit).Ok?
    ensures Inv(site, Start(site, commit))
  {
    ProjectedHolds(site, commit);
  }

  // In every store of every run, with any plans abandoned after any of their writes, every owner's lookup
  // decides what the membership and expiry of the last landed manifest say.
  lemma CrashAtomicity(site: Site, first: Commit, events: seq<Event>, owner: Owner, now: int)
    requires Projected(site, first).Ok?
    ensures var w := Run(site, Start(site, first), events);
      Decide(site, w.values, owner, now) == Eligibility(w.committed.members, w.committed.expiry, owner, now)
  {
    StartInv(site, first);
    RunKeepsInv(site, Start(site, first), events);
    var w := Run(site, Start(site, first), events);
    LookupMeaning(site, w.values, w.committed, owner, now);
  }

  // ---- Torn reads ----

  // What stood in bank p.bank when the manifest pointed there with p: the same text, or a later generation.
  ghost predicate Frozen(site: Site, values: Values, b: nat, p: Pointer, text: string) {
    var pointers, stored := Pointers(site, values), Get(values, site.ShardName(b, p.bank));
    && b < |pointers| && p.generation <= pointers[b].generation
    && (p.generation == pointers[b].generation ==> p == pointers[b])
    && (stored == Some(text) || exists g: nat, data :: IsLater(stored, g, data, p.generation))
  }

  ghost predicate IsLater(stored: Option<string>, g: nat, data: seq<byte>, generation: nat) {
    generation < g <= MAX_GENERATION && stored == Some(ShardText(g, data))
  }

  lemma StagingKeepsFrozen(site: Site, values: Values, commit: Commit, w: Write, b: nat, p: Pointer, text: string)
    requires Holds(site, values, commit) && IsStaging(site, Pointers(site, values), w)
      && Frozen(site, values, b, p, text)
    ensures Frozen(site, values[w.0 := w.1], b, p, text)
  {
    hide Holds, Pointers, ShardText, Numeral;
    var pointers := Pointers(site, values);
    StagingKeeps(site, values, commit, w);
    PointersBound(site, values);
    var c: nat, data :| StagesBucket(site, pointers, c, data, w);
    if w.0 == site.ShardName(b, p.bank) {
      site.NamesDiffer(b, p.bank, c, Flip(pointers[c].bank));
      assert IsLater(Some(w.1), pointers[c].generation + 1, data, p.generation);
    }
  }

  lemma NextKeepsFrozen(site: Site, w: World, e: Event, b: nat, p: Pointer, text: string)
    requires Inv(site, w) && Frozen(site, w.values, b, p, text)
    ensures Frozen(site, Next(site, w, e).values, b, p, text)
  {
    if e.Land? && w.pending != [] {
      if |w.pending| == 1 {
        ManifestKeepsFrozen(site, w, b, p, text);
      } else {
        hide Holds, Pointers, ShardText, Frozen;
        assert IsStaging(site, Pointers(site, w.values), w.pending[0]);
        StagingKeepsFrozen(site, w.values, w.committed, w.pending[0], b, p, text);
      }
    }
  }

  lemma ManifestKeepsFrozen(site: Site, w: World, b: nat, p: Pointer, text: string)
    requires Inv(site, w) && Frozen(site, w.values, b, p, text) && |w.pending| == 1
    ensures Frozen(site, Next(site, w, Land).values, b, p, text)
  {
    hide Holds, Pointers, ShardText, Numeral;
    assert w.pending[..0] == [];
    assert Apply(w.values, w.pending) == w.values[w.pending[0].0 := w.pending[0].1];
    PointersBound(site, w.values);
    site.NamesDiffer(b, p.bank, b, p.bank);
  }

  lemma {:induction false} RunKeepsFrozen(site: Site, w: World, events: seq<Event>, b: nat, p: Pointer, text: string)
    requires Inv(site, w) && Frozen(site, w.values, b, p, text)
    ensures Frozen(site, Run(site, w, events).values, b, p, text)
  {
    if events == [] {
    } else {
      var front := events[..|events| - 1];
      RunKeepsInv(site, w, front);
      RunKeepsFrozen(site, w, front, b, p, text);
      NextKeepsFrozen(site, Run(site, w, front), events[|events| - 1], b, p, text);
    }
  }

  // Since the first of two stores, bucket b's pointer has moved on, and the bank it led to was staged again.
  ghost predicate StagedAgain(site: Site, first: Values, later: Values, b: nat)
    requires b < |Pointers(site, first)| && b < |Pointers(site, later)|
  {
    var p := Pointers(site, first)[b];
    && p.generation < Pointers(site, later)[b].generation
    && exists g: nat, data :: IsLater(Get(later, site.ShardName(b, p.bank)), g, data, p.generation)
  }

  lemma FrozenReads(site: Site, first: Values, later: Values, commit: Commit, b: nat, text: string, data: seq<byte>)
    requires b < |Pointers(site, first)| && b < site.count && Holds(site, later, commit)
    requires var p := Pointers(site, first)[b];
      Frozen(site, later, b, p, text) && ShardRecords(Some(text), p.generation) == Ok(data)
    ensures b < |Pointers(site, later)|
    ensures site.RecordsAt(later, b, Pointers(site, first)[b])
         == if StagedAgain(site, first, later, b) then Error else Ok(data)
  {
    hide ShardRecords, Pointers, ShardText;
    var p := Pointers(site, first)[b];
    var stored := Get(later, site.ShardName(b, p.bank));
    if g: nat, d :| IsLater(stored, g, d, p.generation) {
      OtherGeneration(g, d, p.generation);
    }
  }

  // A published generation of a bucket's bank is never rewritten with other records: from then on it reads back as the
  // records published, until its bank is staged again after the pointer moved on, and then not at all.
  lemma NeverRewritten(site: Site, w: World, events: seq<Event>, b: nat)
    requires Inv(site, w) && b < site.count
    ensures b < |Pointers(site, w.values)| && b < |Pointers(site, Run(site, w, events).values)|
    ensures site.RecordsAt(Run(site, w, events).values, b, Pointers(site, w.values)[b])
         == if StagedAgain(site, w.values, Run(site, w, events).values, b) then Error
            else Ok(site.Data(w.committed.members, b))
  {
    hide ShardRecords, Run, PendingFits, Pointers;
    var p := Pointers(site, w.values)[b];
    assert site.RecordsAt(w.values, b, p) == Ok(site.Data(w.committed.members, b));
    PublishedText(site, w.values, b, p);
    var text := Get(w.values, site.ShardName(b, p.bank)).value;
    var after := Run(site, w, events);
    RunKeepsInv(site, w, events);
    PublishedFrozen(site, w.values, b, text);
    hide Frozen, Holds, StagedAgain;
    RunKeepsFrozen(site, w, events, b, p, text);
    FrozenReads(site, w.values, after.values, after.committed, b, text, site.Data(w.committed.members, b));
  }

  lemma PublishedFrozen(site: Site, values: Values, b: nat, text: string)
    requires b < |Pointers(site, values)|
    requires Get(values, site.ShardName(b, Pointers(site, values)[b].bank)) == Some(text)
    ensures Frozen(site, values, b, Pointers(site, values)[b], text)
  {
  }

  lemma PublishedText(site: Site, values: Values, b: nat, p: Pointer)
    requires site.RecordsAt(values, b, p).Ok?
    ensures Get(values, site.ShardName(b, p.bank)).Some?
  {
  }

  // A reader that takes the manifest at one moment of a run and the shard at any later one decides what the manifest it
  // read published; or Invalid, exactly when in between the owner's pointer moved on and the bank that it led to was
  // staged again.
  lemma TornReadsFailClosed(site: Site, first: Commit, before: seq<Event>, between: seq<Event>, owner: Owner, now: int)
    requires Projected(site, first).Ok?
    ensures var w := Run(site, Start(site, first), before);
      var later, b := Run(site, w, between).values, site.BucketOf(owner);
      && b < |Pointers(site, w.values)| && b < |Pointers(site, later)|
      && ReadTorn(site, w.values, later, owner, now)
         == if StagedAgain(site, w.values, later, b) then Invalid
            else Eligibility(w.committed.members, w.committed.expiry, owner, now)
  {
    StartInv(site, first);
    RunKeepsInv(site, Start(site, first), before);
    var w := Run(site, Start(site, first), before);
    NeverRewritten(site, w, between, site.BucketOf(owner));
    JudgeMeaning(site, w.committed.members, owner, w.committed.expiry, now);
  }
}
