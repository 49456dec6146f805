// Writes that become visible in any order: a reader may see any subset of an update.
module Reordering {
  import opened Wrappers
  import opened Numerals
  import opened Records
  import opened Members
  import opened NamedValues
  import opened Projections
  import opened Updates
  import opened Commits

  lemma DecideAt(site: Site, values: Values, expiry: nat, pointers: seq<Pointer>, owner: Owner, now: int)
    requires site.Manifest(values) == Ok((expiry, pointers)) && site.BucketOf(owner) < |pointers|
    ensures var b := site.BucketOf(owner);
      Decide(site, values, owner, now) == JudgeRead(site.RecordsAt(values, b, pointers[b]), owner, expiry, now)
  {
  }

  // Until the manifest is visible, the old decision stands.
  lemma ManifestHidden(site: Site, values: Values, before: Commit, plan: Plan, names: set<string>, owner: Owner,
                       now: int)
    requires Holds(site, values, before) && IsPlan(site, values, plan) && site.ManifestName() !in names
    ensures Decide(site, Shown(values, plan.writes, names), owner, now)
         == Eligibility(before.members, before.expiry, owner, now)
  {
    hide IsPlan;
    var b, pointers := site.BucketOf(owner), Pointers(site, values);
    PlanStep(site, values, plan, b);
    ShownManifest(site, values, plan, names);
    ShownBank(site, values, plan, names, b, pointers[b].bank);
    LookupMeaning(site, values, before, owner, now);
    DecideAt(site, Shown(values, plan.writes, names), before.expiry, pointers, owner, now);
    DecideAt(site, values, before.expiry, pointers, owner, now);
  }

  // Once the manifest is visible, an owner whose shard is there, or did not have to change, gets the new decision.
  lemma ShardShown(site: Site, values: Values, plan: Plan, names: set<string>, owner: Owner, now: int)
    requires IsPlan(site, values, plan) && site.ManifestName() in names && |plan.steps| == site.count
    requires var b := site.BucketOf(owner);
      plan.steps[b].Changed() ==> Stage(site, b, plan.steps[b]).0 in names
    ensures Decide(site, Shown(values, plan.writes, names), owner, now)
         == Eligibility(plan.commit.members, plan.commit.expiry, owner, now)
  {
    hide IsPlan;
    var b, shown := site.BucketOf(owner), Shown(values, plan.writes, names);
    PlanShape(site, values, plan);
    PlanStep(site, values, plan, b);
    ShownManifest(site, values, plan, names);
    ShownBank(site, values, plan, names, b, plan.next[b].bank);
    if plan.steps[b].Changed() {
      DataReads(site, plan.commit.members, b, plan.next[b].generation);
    }
    DecideAt(site, shown, plan.commit.expiry, plan.next, owner, now);
    assert site.RecordsAt(shown, b, plan.next[b]) == Ok(site.Data(plan.commit.members, b));
    JudgeMeaning(site, plan.commit.members, owner, plan.commit.expiry, now);
  }

  // The owner's bucket changes, and its staged shard is not among the visible names.
  predicate LacksShard(site: Site, plan: Plan, names: set<string>, owner: Owner)
    requires |plan.steps| == site.count
  {
    var b := site.BucketOf(owner);
    plan.steps[b].Changed() && Stage(site, b, plan.steps[b]).0 !in names
  }

  // And an owner whose changed shard is not there gets whatever already stood in its place.
  lemma ShardHidden(site: Site, values: Values, plan: Plan, names: set<string>, owner: Owner, now: int)
    requires IsPlan(site, values, plan) && site.ManifestName() in names && |plan.steps| == |plan.next| == site.count
    requires LacksShard(site, plan, names, owner)
    ensures var b := site.BucketOf(owner);
      Decide(site, Shown(values, plan.writes, names), owner, now)
      == JudgeRead(site.RecordsAt(values, b, plan.next[b]), owner, plan.commit.expiry, now)
  {
    hide IsPlan;
    var b := site.BucketOf(owner);
    PlanStep(site, values, plan, b);
    ShownManifest(site, values, plan, names);
    ShownBank(site, values, plan, names, b, plan.next[b].bank);
    DecideAt(site, Shown(values, plan.writes, names), plan.commit.expiry, plan.next, owner, now);
  }

  // No inactive bank holds a readable shard of the generation that the next update would stage there.
  ghost predicate Unstaged(site: Site, values: Values) {
    site.Manifest(values).Ok? && forall b :: 0 <= b < site.count ==>
      var p := Pointers(site, values)[b]; site.RecordsAt(values, b, Pointer(Flip(p.bank), p.generation + 1)).Error?
  }

  lemma ShardMissing(site: Site, values: Values, plan: Plan, names: set<string>, owner: Owner, now: int)
    requires IsPlan(site, values, plan) && Unstaged(site, values) && |plan.steps| == site.count
    requires site.ManifestName() in names && LacksShard(site, plan, names, owner)
    ensures Decide(site, Shown(values, plan.writes, names), owner, now) == Invalid
  {
    hide IsPlan, ShardText, BucketFor, Judge, Split, Join, ShardRecords, Numeral;
    PlanShape(site, values, plan);
    PlanStep(site, values, plan, site.BucketOf(owner));
    ShardHidden(site, values, plan, names, owner, now);
  }

  // From such a store, every subset of an update's writes gives each owner the old decision, the new one, or
  // Invalid; and Invalid exactly when the manifest is visible without the shard the owner needs.
  lemma ReorderedVisibility(site: Site, values: Values, before: Commit, plan: Plan, names: set<string>, owner: Owner,
                            now: int)
    requires Holds(site, values, before) && IsPlan(site, values, plan) && Unstaged(site, values)
    ensures |plan.steps| == site.count
    ensures Decide(site, Shown(values, plan.writes, names), owner, now)
         == if site.ManifestName() !in names then Eligibility(before.members, before.expiry, owner, now)
            else if LacksShard(site, plan, names, owner) then Invalid
            else Eligibility(plan.commit.members, plan.commit.expiry, owner, now)
  {
    PlanShape(site, values, plan);
    hide IsPlan, Holds, Unstaged, Planned;
    if site.ManifestName() !in names {
      ManifestHidden(site, values, before, plan, names, owner, now);
    } else if LacksShard(site, plan, names, owner) {
      ShardMissing(site, values, plan, names, owner, now);
    } else {
      ShardShown(site, values, plan, names, owner, now);
    }
  }

  // A store where an abandoned update staged bucket b, and did no more.
  ghost predicate LeftStaged(site: Site, values: Values, abandoned: Plan, b: nat, stale: Values) {
    IsPlan(site, values, abandoned) && b < |abandoned.steps| == site.count && abandoned.steps[b].Changed()
    && stale == Shown(values, abandoned.writes, {Stage(site, b, abandoned.steps[b]).0})
  }

  lemma StaleRecords(site: Site, values: Values, abandoned: Plan, b: nat, stale: Values)
    requires LeftStaged(site, values, abandoned, b, stale)
    ensures site.Manifest(stale).Ok? && Consistent(abandoned.commit.members)
    ensures var p := Pointers(site, stale)[b];
      site.RecordsAt(stale, b, Pointer(Flip(p.bank), p.generation + 1)) == Ok(site.Data(abandoned.commit.members, b))
  {
    hide IsPlan, ShardText, BucketFor, Judge, Split, Join, ShardRecords, Numeral;
    var step := abandoned.steps[b];
    var name := Stage(site, b, step).0;
    site.NamesDiffer(b, Flip(step.pointer.bank), b, 0);
    PlanShape(site, values, abandoned);
    PlanStep(site, values, abandoned, b);
    ShownManifest(site, values, abandoned, {name});
    ShownBank(site, values, abandoned, {name}, b, Flip(step.pointer.bank));
    DataReads(site, abandoned.commit.members, b, abandoned.next[b].generation);
  }

  // That premise cannot be dropped: after an abandoned update staged the owner's bucket, a later update's
  // manifest, seen before its own shard, gives the abandoned update's decision.
  lemma AbandonedStageShows(site: Site, values: Values, abandoned: Plan, stale: Values, plan: Plan, owner: Owner,
                            now: int)
    requires LeftStaged(site, values, abandoned, site.BucketOf(owner), stale)
    requires IsPlan(site, stale, plan) && |plan.steps| == site.count
    requires LacksShard(site, plan, {site.ManifestName()}, owner)
    ensures Decide(site, Shown(stale, plan.writes, {site.ManifestName()}), owner, now)
         == Eligibility(abandoned.commit.members, plan.commit.expiry, owner, now)
  {
    hide IsPlan, LeftStaged, ShardText, BucketFor, JudgeRead, Eligibility, ShardRecords, Decide;
    StaleRecords(site, values, abandoned, site.BucketOf(owner), stale);
    JudgeMeaning(site, abandoned.commit.members, owner, plan.commit.expiry, now);
    PlanShape(site, stale, plan);
    PlanStep(site, stale, plan, site.BucketOf(owner));
    ShardHidden(site, stale, plan, {site.ManifestName()}, owner, now);
  }
}
