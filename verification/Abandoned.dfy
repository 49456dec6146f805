// What an abandoned update can do to a later one whose writes become visible in any order.
module Abandoned {
  import opened Wrappers
  import opened Base64
  import opened Records
  import opened Members
  import opened NamedValues
  import opened Projections
  import opened Updates
  import opened Commits
  import opened Reordering
  import opened Feasibility

  // ---- When a bucket seen without its new shard decides nothing ----

  lemma {:induction false} JudgedValid(rs: seq<Record>, owner: Owner, expiry: int, now: int)
    ensures Judge(rs, owner, expiry, now) != Invalid
  {
    if rs == [] {
    } else {
      JudgedValid(rs[1..], owner, expiry, now);
    }
  }

  // With the manifest visible and the owner's shard not, the lookup is Invalid exactly when the inactive bank holds no
  // readable shard of the next generation.
  lemma HiddenInvalid(site: Site, values: Values, plan: Plan, names: set<string>, owner: Owner, now: int)
    requires IsPlan(site, values, plan) && site.ManifestName() in names && |plan.steps| == |plan.next| == site.count
    requires LacksShard(site, plan, names, owner)
    ensures var b := site.BucketOf(owner);
      Decide(site, Shown(values, plan.writes, names), owner, now) == Invalid
      <==> site.RecordsAt(values, b, plan.next[b]).Error?
  {
    hide IsPlan, ShardText, Judge;
    var b := site.BucketOf(owner);
    ShardHidden(site, values, plan, names, owner, now);
    var stale := site.RecordsAt(values, b, plan.next[b]);
    if stale.Ok? {
      JudgedValid(Split(stale.value), owner, plan.commit.expiry, now);
    }
  }

  // ---- An owner's standing, whatever the time ----

  // What a bucket's records decide before their expiry.
  ghost function Standing(records: Result<seq<byte>>, owner: Owner): (d: Decision)
    ensures d != Expired
  {
    StandingIs(records, owner, 1, 0);
    JudgeRead(records, owner, 1, 0)
  }

  function InTime(d: Decision, expiry: int, now: int): Decision {
    if d == Graph && now >= expiry then Expired else d
  }

  lemma {:induction false} JudgedInTime(rs: seq<Record>, owner: Owner, expiry: int, now: int)
    ensures Judge(rs, owner, 1, 0) != Expired
    ensures Judge(rs, owner, expiry, now) == InTime(Judge(rs, owner, 1, 0), expiry, now)
  {
    if rs == [] {
    } else {
      JudgedInTime(rs[1..], owner, expiry, now);
    }
  }

  lemma StandingIs(records: Result<seq<byte>>, owner: Owner, expiry: int, now: int)
    ensures JudgeRead(records, owner, 1, 0) != Expired
    ensures JudgeRead(records, owner, expiry, now) == InTime(JudgeRead(records, owner, 1, 0), expiry, now)
  {
    if records.Ok? && |records.value| % RECORD_BYTES == 0 {
      JudgedInTime(Split(records.value), owner, expiry, now);
    }
  }

  // What a list of members says of an owner before its expiry.
  ghost function StandingIn(members: seq<Member>, owner: Owner): Decision {
    Eligibility(members, 1, owner, 0)
  }

  lemma EligibleInTime(members: seq<Member>, owner: Owner, expiry: int, now: int)
    ensures StandingIn(members, owner) != Expired && StandingIn(members, owner) != Invalid
    ensures Eligibility(members, expiry, owner, now) == InTime(StandingIn(members, owner), expiry, now)
  {
  }

  // ---- Exactly when reordered visibility is safe ----

  // What lies in the owner's inactive bank, at the generation that the next update stages there.
  ghost function Beneath(site: Site, values: Values, owner: Owner): Result<seq<byte>> {
    var b := site.BucketOf(owner);
    if site.Manifest(values).Error? || b >= |Pointers(site, values)| then Error
    else
      var p := Pointers(site, values)[b];
      site.RecordsAt(values, b, Pointer(Flip(p.bank), p.generation + 1))
  }

  // It is unreadable, or stands for the owner as the new list of members does, or as the old one does: then the
  // expiries have to agree too, where only a graph makes the owner a member.
  ghost predicate Harmless(site: Site, values: Values, before: Commit, commit: Commit, owner: Owner) {
    var standing := Standing(Beneath(site, values, owner), owner);
    || Beneath(site, values, owner).Error?
    || standing == StandingIn(commit.members, owner)
    || (standing == StandingIn(before.members, owner) && (standing == Graph ==> before.expiry == commit.expiry))
  }

  // The owner's decision is the old one, the new one, or Invalid.
  ghost predicate OldOrNew(site: Site, values: Values, before: Commit, plan: Plan, names: set<string>, owner: Owner,
                           now: int) {
    Decide(site, Shown(values, plan.writes, names), owner, now)
    in {Eligibility(before.members, before.expiry, owner, now),
        Eligibility(plan.commit.members, plan.commit.expiry, owner, now), Invalid}
  }

  lemma BeneathIs(site: Site, values: Values, plan: Plan, owner: Owner)
    requires IsPlan(site, values, plan) && |plan.steps| == |plan.next| == site.count
    requires plan.steps[site.BucketOf(owner)].Changed()
    ensures var b := site.BucketOf(owner); Beneath(site, values, owner) == site.RecordsAt(values, b, plan.next[b])
    ensures Beneath(site, values, owner).Ok? ==> |Beneath(site, values, owner).value| % RECORD_BYTES == 0
  {
    hide IsPlan, ShardText, Judge;
    PlanShape(site, values, plan);
    PlanStep(site, values, plan, site.BucketOf(owner));
  }

  lemma ReadableStands(records: Result<seq<byte>>, owner: Owner)
    requires records.Ok? ==> |records.value| % RECORD_BYTES == 0
    ensures Standing(records, owner) == Invalid <==> records.Error?
  {
    if records.Ok? {
      JudgedValid(Split(records.value), owner, 1, 0);
    }
  }

  // What an owner without its shard gets, and when that is one of the three.
  lemma HiddenStanding(site: Site, values: Values, before: Commit, plan: Plan, names: set<string>, owner: Owner,
                       now: int)
    requires IsPlan(site, values, plan) && |plan.steps| == |plan.next| == site.count
    requires site.ManifestName() in names && LacksShard(site, plan, names, owner)
    ensures Decide(site, Shown(values, plan.writes, names), owner, now)
         == InTime(Standing(Beneath(site, values, owner), owner), plan.commit.expiry, now)
    ensures Harmless(site, values, before, plan.commit, owner) ==>
      OldOrNew(site, values, before, plan, names, owner, now)
  {
    hide IsPlan, JudgeRead, Eligibility, Decide, Beneath;
    BeneathIs(site, values, plan, owner);
    ShardHidden(site, values, plan, names, owner, now);
    StandingIs(Beneath(site, values, owner), owner, plan.commit.expiry, now);
    ReadableStands(Beneath(site, values, owner), owner);
    EligibleInTime(before.members, owner, before.expiry, now);
    EligibleInTime(plan.commit.members, owner, plan.commit.expiry, now);
  }

  // An owner that is not harmless gets another decision at some time.
  lemma Harmed(site: Site, values: Values, before: Commit, plan: Plan, owner: Owner)
    returns (names: set<string>, now: int)
    requires Holds(site, values, before) && IsPlan(site, values, plan) && |plan.steps| == |plan.next| == site.count
    requires plan.steps[site.BucketOf(owner)].Changed() && !Harmless(site, values, before, plan.commit, owner)
    ensures IsEpoch(now) && !OldOrNew(site, values, before, plan, names, owner, now)
  {
    names := {site.ManifestName()};
    var least := if before.expiry < plan.commit.expiry then before.expiry else plan.commit.expiry;
    now := if least < 0 then 0 else least;
    ManifestExpiry(site, values, before, plan);
    hide IsPlan, Holds, JudgeRead, Eligibility, Decide, Beneath, Shown;
    var b := site.BucketOf(owner);
    site.NamesDiffer(b, Flip(plan.steps[b].pointer.bank), b, 0);
    BeneathIs(site, values, plan, owner);
    ReadableStands(Beneath(site, values, owner), owner);
    HiddenStanding(site, values, before, plan, names, owner, now);
    EligibleInTime(before.members, owner, before.expiry, now);
    EligibleInTime(plan.commit.members, owner, plan.commit.expiry, now);
  }

  lemma ManifestExpiry(site: Site, values: Values, before: Commit, plan: Plan)
    requires Holds(site, values, before) && IsPlan(site, values, plan)
    ensures 0 <= before.expiry <= MAX_EPOCH && 0 <= plan.commit.expiry <= MAX_EPOCH
  {
    ReadManifestWrites(values[site.ManifestName()], site.count);
  }

  lemma HarmlessIsSafe(site: Site, values: Values, before: Commit, plan: Plan, names: set<string>, owner: Owner,
                       now: int)
    requires Holds(site, values, before) && IsPlan(site, values, plan) && |plan.steps| == |plan.next| == site.count
    requires plan.steps[site.BucketOf(owner)].Changed() ==> Harmless(site, values, before, plan.commit, owner)
    ensures OldOrNew(site, values, before, plan, names, owner, now)
  {
    hide IsPlan, Holds, Harmless, Eligibility, Decide, Shown;
    if site.ManifestName() !in names {
      ManifestHidden(site, values, before, plan, names, owner, now);
    } else if LacksShard(site, plan, names, owner) {
      HiddenStanding(site, values, before, plan, names, owner, now);
    } else {
      ShardShown(site, values, plan, names, owner, now);
    }
  }

  // Whatever subset of an update is visible, every owner gets the old decision, the new one or Invalid, at all times:
  // exactly when whatever lies beneath each bucket that changes is harmless to its owners.
  lemma ReorderedExactly(site: Site, values: Values, before: Commit, plan: Plan)
    requires Holds(site, values, before) && IsPlan(site, values, plan)
    ensures |plan.steps| == site.count
    ensures (forall names, owner, now :: IsEpoch(now) ==> OldOrNew(site, values, before, plan, names, owner, now))
      <==> forall owner :: plan.steps[site.BucketOf(owner)].Changed() ==>
        Harmless(site, values, before, plan.commit, owner)
  {
    PlanShape(site, values, plan);
    hide IsPlan, Holds, OldOrNew, Harmless;
    if forall owner :: plan.steps[site.BucketOf(owner)].Changed() ==>
      Harmless(site, values, before, plan.commit, owner) {
      forall names, owner, now | IsEpoch(now) ensures OldOrNew(site, values, before, plan, names, owner, now) {
        HarmlessIsSafe(site, values, before, plan, names, owner, now);
      }
    } else {
      var owner :| plan.steps[site.BucketOf(owner)].Changed() && !Harmless(site, values, before, plan.commit, owner);
      var names, now := Harmed(site, values, before, plan, owner);
    }
  }

  // ---- An input that shows it ----

  lemma {:induction false} GatherBound(order: seq<Oid>, members: seq<Member>, b: nat, n: BucketCount,
                                       hash: string -> byte)
    ensures |Gather(order, members, b, n, hash)| <= |order|
  {
    if order == [] {
    } else {
      GatherBound(order[..|order| - 1], members, b, n, hash);
    }
  }

  lemma {:induction false} SortedLength(rs: seq<Record>)
    ensures |Sorted(rs)| == |rs|
  {
    if rs == [] {
    } else {
      SortedLength(rs[..|rs| - 1]);
      InsertedLength(Sorted(rs[..|rs| - 1]), rs[|rs| - 1]);
    }
  }

  lemma {:induction false} InsertedLength(rs: seq<Record>, r: Record)
    ensures |Insert(rs, r)| == |rs| + 1
  {
    if rs == [] {
    } else {
      InsertedLength(rs[1..], r);
    }
  }

  lemma {:induction false} OrderBound(members: seq<Member>)
    ensures |Order(members)| <= |members|
  {
    if members == [] {
    } else {
      OrderBound(members[..|members| - 1]);
    }
  }

  // A bucket has no more records than there are members.
  lemma FewFit(site: Site, members: seq<Member>, b: nat)
    requires |members| <= MAX_RECORDS
    ensures Fits(site, members, b)
  {
    hide Order, Gather, Sorted;
    OrderBound(members);
    GatherBound(Order(members), members, b, site.count, site.hash);
    SortedLength(Gather(Order(members), members, b, site.count, site.hash));
  }

  // A bucket changes when one of its owners' standing does.
  lemma StandingChanges(site: Site, values: Values, before: Commit, plan: Plan, owner: Owner)
    requires Holds(site, values, before) && IsPlan(site, values, plan) && |plan.steps| == site.count
    requires StandingIn(before.members, owner) != StandingIn(plan.commit.members, owner)
    ensures plan.steps[site.BucketOf(owner)].Changed()
  {
    var b := site.BucketOf(owner);
    PlanShape(site, values, plan);
    PlanStep(site, values, plan, b);
    assert site.RecordsAt(values, b, Pointers(site, values)[b]) == Ok(site.Data(before.members, b));
    hide IsPlan, JudgeRead, Eligibility, Bucket, Join, ShardRecords;
    JudgeMeaning(site, before.members, owner, 1, 0);
    JudgeMeaning(site, plan.commit.members, owner, 1, 0);
  }

  // Staging changes nothing that is published.
  lemma StagedHolds(site: Site, values: Values, before: Commit, plan: Plan, names: set<string>)
    requires Holds(site, values, before) && IsPlan(site, values, plan) && site.ManifestName() !in names
    ensures Holds(site, Shown(values, plan.writes, names), before)
    ensures Pointers(site, Shown(values, plan.writes, names)) == Pointers(site, values)
  {
    hide IsPlan, ShardRecords, Shown, Bucket, Join;
    ShownManifest(site, values, plan, names);
    forall b | 0 <= b < site.count
      ensures site.RecordsAt(Shown(values, plan.writes, names), b, Pointers(site, values)[b])
           == site.RecordsAt(values, b, Pointers(site, values)[b])
    {
      PlanStep(site, values, plan, b);
      ShownBank(site, values, plan, names, b, Pointers(site, values)[b].bank);
    }
  }

  // Any few members may be published next, while no generation has been used up.
  lemma FewPlanned(site: Site, values: Values, before: Commit, commit: Commit) returns (plan: Plan)
    requires Holds(site, values, before) && |Pointers(site, values)| == site.count
    requires forall b :: 0 <= b < site.count ==> Pointers(site, values)[b].generation < MAX_GENERATION
    requires Consistent(commit.members) && 0 <= commit.expiry <= MAX_EPOCH && |commit.members| <= MAX_RECORDS
    ensures IsPlan(site, values, plan) && plan.commit == commit && |plan.steps| == |plan.next| == site.count
  {
    hide Holds, IsPlan, Pointers, Planned, Fits, Bucket, Join;
    forall b | 0 <= b < site.count ensures Stageable(site, before, commit, Pointers(site, values), b) {
      FewFit(site, commit.members, b);
    }
    Plannable(site, values, before, commit);
    plan := Planned(site, values, commit).value;
    PlannedIsPlan(site, values, commit);
    PlanShape(site, values, plan);
  }

  lemma FirstProjection(site: Site, commit: Commit)
    requires Consistent(commit.members) && 0 <= commit.expiry <= MAX_EPOCH && |commit.members| <= MAX_RECORDS
    ensures Projected(site, commit).Ok? && Holds(site, Projected(site, commit).value, commit)
    ensures Pointers(site, Projected(site, commit).value) == Initial(site)
  {
    hide Projected, Fits;
    forall b | 0 <= b < site.count ensures Fits(site, commit.members, b) {
      FewFit(site, commit.members, b);
    }
    Projectable(site, commit);
    ProjectedHolds(site, commit);
    ProjectedManifest(site, commit);
  }

  function Lone(owner: Owner, direct: bool): Member {
    MemberData(owner, direct, !direct)
  }

  lemma LoneStands(owner: Owner)
    ensures StandingIn([], owner) == Absent && StandingIn([Lone(owner, true)], owner) == Direct
    ensures StandingIn([Lone(owner, false)], owner) == Graph
  {
    assert Lone(owner, true) in [Lone(owner, true)] && Lone(owner, false) in [Lone(owner, false)];
  }

  // In every group, for every owner and at every time: nobody is a member; an update that would make the owner a direct
  // member is abandoned once its shard is staged; and a later one makes the owner a member by a graph only. Seen by its
  // manifest alone, that one makes the owner Direct, where it was Absent and is to be a member of the graph, if at all.
  lemma AbandonedExample(site: Site, owner: Owner, expiry: int, now: int)
    returns (values: Values, abandoned: Plan, stale: Values, plan: Plan)
    requires 0 <= expiry <= MAX_EPOCH
    ensures var before := Commit([], expiry);
      && Projected(site, before) == Ok(values) && LeftStaged(site, values, abandoned, site.BucketOf(owner), stale)
      && Holds(site, stale, before) && IsPlan(site, stale, plan) && |plan.steps| == site.count
      && Eligibility(before.members, before.expiry, owner, now) == Absent
      && Eligibility(plan.commit.members, plan.commit.expiry, owner, now) == (if now < expiry then Graph else Expired)
      && Decide(site, Shown(stale, plan.writes, {site.ManifestName()}), owner, now) == Direct
      && !OldOrNew(site, stale, before, plan, {site.ManifestName()}, owner, now)
  {
    hide IsPlan, Holds, Shown, Decide, Eligibility, Projected, Pointers;
    var b := site.BucketOf(owner);
    LoneStands(owner);
    var before := Commit([], expiry);
    FirstProjection(site, before);
    values := Projected(site, before).value;
    abandoned := FewPlanned(site, values, before, Commit([Lone(owner, true)], expiry));
    StandingChanges(site, values, before, abandoned, owner);
    var name := Stage(site, b, abandoned.steps[b]).0;
    site.NamesDiffer(b, Flip(abandoned.steps[b].pointer.bank), b, 0);
    stale := Shown(values, abandoned.writes, {name});
    StagedHolds(site, values, before, abandoned, {name});
    plan := FewPlanned(site, stale, before, Commit([Lone(owner, false)], expiry));
    StandingChanges(site, stale, before, plan, owner);
    site.NamesDiffer(b, Flip(plan.steps[b].pointer.bank), b, 0);
    AbandonedStageShows(site, values, abandoned, stale, plan, owner, now);
    EligibleInTime(before.members, owner, expiry, now);
    EligibleInTime(abandoned.commit.members, owner, expiry, now);
    EligibleInTime(plan.commit.members, owner, expiry, now);
  }
}
