// Histories of completed updates, from a first projection on.
module Histories {
  import opened Wrappers
  import opened Base64
  import opened Members
  import opened NamedValues
  import opened Projections
  import opened Updates
  import opened Commits
  import opened Reordering
  import opened Runs

  // The store after every write of one update has landed; an update that cannot be planned changes nothing.
  ghost function Complete(site: Site, values: Values, commit: Commit): Values {
    match Planned(site, values, commit)
    case Ok(plan) => Apply(values, plan.writes)
    case Error => values
  }

  ghost function After(site: Site, first: Commit, history: seq<Commit>): Values
    requires Projected(site, first).Ok?
  {
    if history == [] then Projected(site, first).value
    else Complete(site, After(site, first, history[..|history| - 1]), history[|history| - 1])
  }

  // The last commit of the history that could be planned, or the first projection.
  ghost function Latest(site: Site, first: Commit, history: seq<Commit>): Commit
    requires Projected(site, first).Ok?
  {
    if history == [] then first
    else if Planned(site, After(site, first, history[..|history| - 1]), history[|history| - 1]).Ok? then
      history[|history| - 1]
    else Latest(site, first, history[..|history| - 1])
  }

  ghost predicate HoldsUpTo(stored: Option<string>, g: nat, data: seq<byte>, limit: nat) {
    stored == Some(ShardText(g, data)) && g <= limit <= MAX_GENERATION
  }

  // Bucket b's inactive bank holds a shard no newer than its active one.
  ghost predicate BehindAt(site: Site, values: Values, b: nat) {
    var pointers := Pointers(site, values);
    b < |pointers| && exists g: nat, data ::
      HoldsUpTo(Get(values, site.ShardName(b, Flip(pointers[b].bank))), g, data, pointers[b].generation)
  }

  ghost predicate Behind(site: Site, values: Values) {
    site.Manifest(values).Ok? && forall b :: 0 <= b < site.count ==> BehindAt(site, values, b)
  }

  lemma BehindNotNext(site: Site, values: Values, b: nat)
    requires BehindAt(site, values, b)
    ensures var p := Pointers(site, values)[b];
      site.RecordsAt(values, b, Pointer(Flip(p.bank), p.generation + 1)).Error?
  {
    hide ShardText, ShardRecords, Pointers;
    var p := Pointers(site, values)[b];
    var g: nat, data :| HoldsUpTo(Get(values, site.ShardName(b, Flip(p.bank))), g, data, p.generation);
    OtherGeneration(g, data, p.generation + 1);
  }

  lemma BehindIsUnstaged(site: Site, values: Values)
    requires Behind(site, values)
    ensures Unstaged(site, values)
  {
    hide BehindAt, ShardRecords;
    forall b | 0 <= b < site.count
      ensures var p := Pointers(site, values)[b];
        site.RecordsAt(values, b, Pointer(Flip(p.bank), p.generation + 1)).Error?
    {
      BehindNotNext(site, values, b);
    }
  }

  lemma ProjectedBehind(site: Site, commit: Commit)
    requires Projected(site, commit).Ok?
    ensures Behind(site, Projected(site, commit).value)
  {
    hide Projected, ShardText;
    var values := Projected(site, commit).value;
    ProjectedManifest(site, commit);
    forall b | 0 <= b < site.count ensures BehindAt(site, values, b) {
      ProjectedShardAt(site, commit, b, 1);
      assert Pointers(site, values)[b] == Pointer(0, 0);
      assert HoldsUpTo(Get(values, site.ShardName(b, Flip(0))), 0, site.Data(commit.members, b), 0);
    }
  }

  lemma CompletedBankAt(site: Site, values: Values, plan: Plan, b: nat, bank: Bank)
    requires IsPlan(site, values, plan) && b < site.count
    requires b < |plan.steps| && bank != plan.next[b].bank && b < |plan.next|
    ensures Get(Apply(values, plan.writes), site.ShardName(b, bank)) == Get(values, site.ShardName(b, bank))
  {
    hide IsPlan;
    var names := set w | w in plan.writes :: w.0;
    PlanStep(site, values, plan, b);
    ShownAll(values, plan.writes, names);
    ShownBank(site, values, plan, names, b, bank);
  }

  lemma CompleteBehind(site: Site, values: Values, plan: Plan)
    requires Behind(site, values) && IsPlan(site, values, plan)
    ensures Behind(site, Apply(values, plan.writes))
  {
    hide IsPlan;
    var after := Apply(values, plan.writes);
    PlanShape(site, values, plan);
    PlanCompletes(site, values, plan);
    forall b | 0 <= b < site.count ensures BehindAt(site, after, b) {
      CompleteBehindAt(site, values, plan, b);
    }
  }

  lemma CompleteBehindAt(site: Site, values: Values, plan: Plan, b: nat)
    requires Behind(site, values) && IsPlan(site, values, plan) && b < site.count
    ensures BehindAt(site, Apply(values, plan.writes), b)
  {
    hide IsPlan, ShardText, Holds;
    PlanShape(site, values, plan);
    PlanStep(site, values, plan, b);
    PlanCompletes(site, values, plan);
    var p := Pointers(site, values)[b];
    CompletedBankAt(site, values, plan, b, Flip(plan.next[b].bank));
    assert BehindAt(site, values, b);
    if plan.steps[b].Changed() {
      assert HoldsUpTo(Get(values, site.ShardName(b, p.bank)), p.generation, plan.steps[b].stored.value,
                       p.generation + 1);
    }
  }

  lemma {:induction false} HistoryHolds(site: Site, first: Commit, history: seq<Commit>)
    requires Projected(site, first).Ok?
    ensures Holds(site, After(site, first, history), Latest(site, first, history))
    ensures Behind(site, After(site, first, history))
  {
    if history == [] {
      ProjectedHolds(site, first);
      ProjectedBehind(site, first);
    } else {
      var front, commit := history[..|history| - 1], history[|history| - 1];
      HistoryHolds(site, first, front);
      hide Projected, Planned, Holds, Behind;
      var values := After(site, first, front);
      if Planned(site, values, commit).Ok? {
        PlannedCommit(site, values, commit);
        PlanCompletes(site, values, Planned(site, values, commit).value);
        CompleteBehind(site, values, Planned(site, values, commit).value);
      }
    }
  }

  // After a projection and any history of completed updates, every lookup decides what the last membership says.
  lemma HistoryMeaning(site: Site, first: Commit, history: seq<Commit>, owner: Owner, now: int)
    requires Projected(site, first).Ok?
    ensures var latest := Latest(site, first, history);
      Decide(site, After(site, first, history), owner, now) == Eligibility(latest.members, latest.expiry, owner, now)
  {
    HistoryHolds(site, first, history);
    LookupMeaning(site, After(site, first, history), Latest(site, first, history), owner, now);
  }

  // So the next update may become visible in any order: each owner gets the old decision, the new one, or
  // Invalid, and Invalid exactly when the manifest is visible without the shard the owner needs.
  lemma HistoryReordered(site: Site, first: Commit, history: seq<Commit>, plan: Plan, names: set<string>, owner: Owner,
                         now: int)
    requires Projected(site, first).Ok? && IsPlan(site, After(site, first, history), plan)
    ensures |plan.steps| == site.count
    ensures var latest := Latest(site, first, history);
      Decide(site, Shown(After(site, first, history), plan.writes, names), owner, now)
      == if site.ManifestName() !in names then Eligibility(latest.members, latest.expiry, owner, now)
         else if LacksShard(site, plan, names, owner) then Invalid
         else Eligibility(plan.commit.members, plan.commit.expiry, owner, now)
  {
    hide IsPlan, Projected;
    HistoryHolds(site, first, history);
    BehindIsUnstaged(site, After(site, first, history));
    ReorderedVisibility(site, After(site, first, history), Latest(site, first, history), plan, names, owner, now);
  }
}
