// What a store holds: the membership its manifest publishes, in the banks the manifest points to.
module Commits {
  import opened Wrappers
  import opened Base64
  import opened Masks
  import opened Numerals
  import opened Records
  import opened Members
  import opened NamedValues
  import opened Projections
  import opened Updates

  ghost function Pointers(site: Site, values: Values): (pointers: seq<Pointer>)
    ensures site.Manifest(values).Ok? ==> |pointers| == site.count
  {
    if site.Manifest(values).Ok? then
      ReadManifestWrites(values[site.ManifestName()], site.count);
      site.Manifest(values).value.1
    else []
  }

  // The store publishes exactly this commit: its manifest reads back, and so does every bucket it points to.
  ghost predicate Holds(site: Site, values: Values, commit: Commit) {
    site.Manifest(values).Ok? && site.Manifest(values).value.0 == commit.expiry && Consistent(commit.members)
    && forall b :: 0 <= b < site.count ==>
      site.RecordsAt(values, b, Pointers(site, values)[b]) == Ok(site.Data(commit.members, b))
  }

  // In a store that publishes a commit, every lookup decides what the commit's list of members says.
  lemma LookupMeaning(site: Site, values: Values, commit: Commit, owner: Owner, now: int)
    requires Holds(site, values, commit)
    ensures Decide(site, values, owner, now) == Eligibility(commit.members, commit.expiry, owner, now)
  {
    JudgeMeaning(site, commit.members, owner, commit.expiry, now);
    assert site.RecordsAt(values, site.BucketOf(owner), Pointers(site, values)[site.BucketOf(owner)]).Ok?;
  }

  lemma DataReads(site: Site, members: seq<Member>, b: nat, generation: nat)
    requires ShardValue(generation, site.Data(members, b)).Ok?
    ensures ShardRecords(Some(ShardText(generation, site.Data(members, b))), generation) == Ok(site.Data(members, b))
  {
    BucketShard(members, b, site.count, site.hash, generation);
  }

  lemma DataAt(site: Site, members: seq<Member>, b: nat)
    requires Consistent(members) && b < site.count
    ensures BucketData(members, site.count, site.hash).value[b] == site.Data(members, b)
  {
  }

  // A member's record is in the shard that the mask of its hash names, and in no other.
  lemma RecordPlaced(site: Site, values: Values, commit: Commit, m: Member, b: nat)
    requires Holds(site, values, commit) && m in commit.members && b < site.count
    ensures |Pointers(site, values)| == site.count
    ensures var stored := site.RecordsAt(values, b, Pointers(site, values)[b]);
      && stored.Ok? && |stored.value| % RECORD_BYTES == 0
      && ((exists r :: r in Split(stored.value) && r.oid == LittleEndian(m.owner.oid))
          <==> b == Masked(site.hash(Hex(m.owner.oid)), site.count))
  {
    var data := site.Data(commit.members, b);
    assert site.RecordsAt(values, b, Pointers(site, values)[b]) == Ok(data);
    hide Pointers, ShardRecords, Hex, BucketFor, LittleEndian, Bucket, Join, Split, ReadManifest, FlagsFor, Masked;
    BucketMask(m.owner.oid, site.count, site.hash);
    BucketBytes(commit.members, b, site.count, site.hash);
    PlacedInBucket(site, commit.members, m, b);
  }

  lemma PlacedInBucket(site: Site, members: seq<Member>, m: Member, b: nat)
    requires m in members
    ensures (exists r :: r in Bucket(members, b, site.count, site.hash) && r.oid == LittleEndian(m.owner.oid))
      <==> b == BucketFor(m.owner.oid, site.count, site.hash)
  {
    hide Bucket, BucketFor, FlagsFor, Hex, LittleEndian;
    var rs := Bucket(members, b, site.count, site.hash);
    BucketMeaning(members, b, site.count, site.hash);
    var k :| 0 <= k < |members| && members[k] == m;
    var own := Record(LittleEndian(m.owner.oid), FlagsFor(members, m.owner.oid));
    if b == BucketFor(m.owner.oid, site.count, site.hash) {
      assert RecordOf(own, members, b, site.count, site.hash) && own in rs;
    }
    if r :| r in rs && r.oid == LittleEndian(m.owner.oid) {
      assert RecordOf(r, members, b, site.count, site.hash);
      var i :| 0 <= i < |members| && BucketFor(members[i].owner.oid, site.count, site.hash) == b
        && r == Record(LittleEndian(members[i].owner.oid), FlagsFor(members, members[i].owner.oid));
      LittleEndianInjective(members[i].owner.oid, m.owner.oid);
    }
  }

  // ---- The first projection ----

  lemma {:induction false} InitialShardAt(site: Site, records: seq<seq<byte>>, k: nat, b: nat, bank: Bank)
    requires b < k <= |records| <= 128
    ensures Get(InitialShards(site, records, k), site.ShardName(b, bank)) == Some(ShardText(0, records[b]))
  {
    site.NamesDiffer(b, bank, k - 1, 0);
    site.NamesDiffer(b, bank, k - 1, 1);
    if b == k - 1 {
    } else {
      InitialShardAt(site, records, k - 1, b, bank);
    }
  }

  lemma ProjectedShardAt(site: Site, commit: Commit, b: nat, bank: Bank)
    requires Projected(site, commit).Ok? && b < site.count
    ensures Get(Projected(site, commit).value, site.ShardName(b, bank))
      == Some(ShardText(0, site.Data(commit.members, b)))
    ensures ShardValue(0, site.Data(commit.members, b)).Ok?
  {
    var records := BucketData(commit.members, site.count, site.hash).value;
    InitialShardAt(site, records, |records|, b, bank);
    site.NamesDiffer(b, bank, b, bank);
    EachWritable(records, |records|, b);
    DataAt(site, commit.members, b);
  }

  lemma ProjectedManifest(site: Site, commit: Commit)
    requires Projected(site, commit).Ok?
    ensures site.Manifest(Projected(site, commit).value) == Ok((commit.expiry, Initial(site)))
    ensures Consistent(commit.members)
  {
    WrittenManifestReads(site.count, commit.expiry, Initial(site));
  }

  lemma ProjectedHolds(site: Site, commit: Commit)
    requires Projected(site, commit).Ok?
    ensures Holds(site, Projected(site, commit).value, commit)
  {
    var values := Projected(site, commit).value;
    ProjectedManifest(site, commit);
    forall b | 0 <= b < site.count
      ensures site.RecordsAt(values, b, Pointers(site, values)[b]) == Ok(site.Data(commit.members, b))
    {
      ProjectedShardAt(site, commit, b, 0);
      DataReads(site, commit.members, b, 0);
    }
  }

  // ---- A planned update ----

  // What one step of a plan is, and where it leaves the bucket's pointer.
  ghost predicate StepFits(site: Site, values: Values, plan: Plan, b: nat)
    requires site.Manifest(values).Ok? && b < site.count
  {
    && |plan.steps| == |plan.next| == site.count
    && plan.steps[b].pointer == Pointers(site, values)[b]
    && plan.steps[b].records == site.Data(plan.commit.members, b)
    && plan.steps[b].stored == site.RecordsAt(values, b, plan.steps[b].pointer)
    && plan.steps[b].stored.Ok?
    && plan.next[b] == plan.steps[b].Next()
    && plan.next[b].generation <= MAX_GENERATION
    && (plan.steps[b].Changed() ==> ShardValue(plan.next[b].generation, plan.steps[b].records).Ok?)
  }

  // An update's plan: a step for each bucket, the changed buckets' shards staged, and the manifest last if it changes.
  ghost predicate IsPlan(site: Site, values: Values, plan: Plan) {
    && site.Manifest(values).Ok? && Consistent(plan.commit.members) && 0 <= plan.commit.expiry <= MAX_EPOCH
    && |plan.steps| == |plan.next| == site.count
    && (forall b :: 0 <= b < site.count ==> StepFits(site, values, plan, b))
    && plan.writes == Staged(site, plan.steps, site.count)
                      + (if plan.Text() == values[site.ManifestName()] then []
                         else [(site.ManifestName(), plan.Text())])
  }

  lemma PlannedShape(site: Site, values: Values, commit: Commit)
    requires Planned(site, values, commit).Ok?
    ensures site.Manifest(values).Ok? && Consistent(commit.members) && 0 <= commit.expiry <= MAX_EPOCH
    ensures |Planned(site, values, commit).value.steps| == |Planned(site, values, commit).value.next| == site.count
  {
    ReadManifestWrites(values[site.ManifestName()], site.count);
  }

  lemma PlannedBody(site: Site, values: Values, commit: Commit)
    requires Planned(site, values, commit).Ok? && site.Manifest(values).Ok? && Consistent(commit.members)
      && 0 <= commit.expiry
    ensures var plan := Planned(site, values, commit).value;
      |plan.steps| == |plan.next| == site.count ==>
        && plan.steps
           == Steps(site, values, Pointers(site, values), BucketData(commit.members, site.count, site.hash).value,
                    site.count)
        && plan.next == NextPointers(plan.steps, site.count) && AllPossible(plan.steps, site.count)
        && plan.writes == Staged(site, plan.steps, site.count)
                          + (if plan.Text() == values[site.ManifestName()] then []
                             else [(site.ManifestName(), plan.Text())])
  {
  }

  // What the planner works out is such a plan.
  lemma PlannedIsPlan(site: Site, values: Values, commit: Commit)
    requires Planned(site, values, commit).Ok?
    ensures IsPlan(site, values, Planned(site, values, commit).value)
  {
    hide Planned, StepFits, Steps, NextPointers, AllPossible, Staged;
    var plan := Planned(site, values, commit).value;
    PlannedShape(site, values, commit);
    PlannedBody(site, values, commit);
    forall b | 0 <= b < site.count ensures StepFits(site, values, plan, b) {
      PlannedStep(site, values, commit, b);
    }
  }

  lemma PlannedStep(site: Site, values: Values, commit: Commit, b: nat)
    requires Planned(site, values, commit).Ok? && b < site.count
    ensures site.Manifest(values).Ok? && StepFits(site, values, Planned(site, values, commit).value, b)
  {
    hide Planned;
    PlannedShape(site, values, commit);
    PlannedBody(site, values, commit);
    var plan := Planned(site, values, commit).value;
    var records := BucketData(commit.members, site.count, site.hash).value;
    StepAt(site, values, Pointers(site, values), records, site.count, b);
    EachPossible(plan.steps, site.count, b);
    NextPointerAt(plan.steps, site.count, b);
    DataAt(site, commit.members, b);
  }

  lemma PlanShape(site: Site, values: Values, plan: Plan)
    requires IsPlan(site, values, plan)
    ensures site.Manifest(values).Ok? && site.ManifestName() in values && Consistent(plan.commit.members)
    ensures |plan.steps| == |plan.next| == site.count && 0 <= plan.commit.expiry <= MAX_EPOCH
  {
  }

  lemma PlanBody(site: Site, values: Values, plan: Plan)
    requires IsPlan(site, values, plan) && site.Manifest(values).Ok? && 0 <= plan.commit.expiry
      && |plan.steps| == site.count
    ensures plan.writes == Staged(site, plan.steps, site.count)
              + (if plan.Text() == values[site.ManifestName()] then [] else [(site.ManifestName(), plan.Text())])
  {
  }

  lemma PlanStep(site: Site, values: Values, plan: Plan, b: nat)
    requires IsPlan(site, values, plan) && b < site.count
    ensures site.Manifest(values).Ok? && StepFits(site, values, plan, b)
  {
    hide StepFits, Staged;
  }

  lemma {:induction false} StepsAre(site: Site, values: Values, plan: Plan, records: seq<seq<byte>>, k: nat)
    requires IsPlan(site, values, plan) && k <= site.count == |records|
    requires forall b :: 0 <= b < site.count ==> records[b] == site.Data(plan.commit.members, b)
    ensures |Pointers(site, values)| == site.count == |plan.steps| == |plan.next|
    ensures Steps(site, values, Pointers(site, values), records, k) == plan.steps[..k]
    ensures NextPointers(plan.steps, k) == plan.next[..k] && AllPossible(plan.steps, k)
  {
    hide IsPlan, Pointers, Join, Bucket, StepOf, StepFits;
    PlanShape(site, values, plan);
    PointersAreRead(site, values);
    if k == 0 {
    } else {
      StepsAre(site, values, plan, records, k - 1);
      PlanStep(site, values, plan, k - 1);
      StepIs(site, values, plan, k - 1);
    }
  }

  lemma StepIs(site: Site, values: Values, plan: Plan, b: nat)
    requires site.Manifest(values).Ok? && b < site.count == |Pointers(site, values)| && StepFits(site, values, plan, b)
    ensures StepOf(site, values, b, Pointers(site, values)[b], site.Data(plan.commit.members, b)) == plan.steps[b]
    ensures plan.next[b] == plan.steps[b].Next() && plan.steps[b].Possible()
  {
    hide Pointers, Join, Bucket, ShardText;
  }

  lemma PointersAreRead(site: Site, values: Values)
    requires site.Manifest(values).Ok?
    ensures |Pointers(site, values)| == site.count && Pointers(site, values) == site.Manifest(values).value.1
  {
  }

  // And there is no other.
  lemma PlanIsPlanned(site: Site, values: Values, plan: Plan)
    requires IsPlan(site, values, plan)
    ensures Planned(site, values, plan.commit) == Ok(plan)
  {
    hide StepFits, Pointers, Steps, NextPointers, AllPossible, Staged, ReadManifest, PointersText, Numeral;
    PlanShape(site, values, plan);
    PointersAreRead(site, values);
    var records := BucketData(plan.commit.members, site.count, site.hash).value;
    forall b | 0 <= b < site.count ensures records[b] == site.Data(plan.commit.members, b) {
      DataAt(site, plan.commit.members, b);
    }
    StepsAre(site, values, plan, records, site.count);
    assert plan.steps[..site.count] == plan.steps && plan.next[..site.count] == plan.next;
    PlanManifest(site, values, plan);
    assert Steps(site, values, site.Manifest(values).value.1, records, |records|) == plan.steps;
    assert NextPointers(plan.steps, |plan.steps|) == plan.next && AllPossible(plan.steps, |plan.steps|);
    assert ManifestValue(plan.commit.expiry, plan.next) == Ok(plan.Text());
    assert Staged(site, plan.steps, |plan.steps|) + [] == Staged(site, plan.steps, |plan.steps|);
  }

  lemma PlanManifest(site: Site, values: Values, plan: Plan)
    requires IsPlan(site, values, plan)
    ensures 0 <= plan.commit.expiry
    ensures ReadManifest(plan.Text(), site.count) == Ok((plan.commit.expiry, plan.next))
    ensures |plan.Text()| == 13 + 17 * site.count
  {
    PlanShape(site, values, plan);
    hide IsPlan;
    forall p | p in plan.next ensures p.generation <= MAX_GENERATION {
      var b :| 0 <= b < |plan.next| && plan.next[b] == p;
      PlanStep(site, values, plan, b);
    }
    WrittenManifestReads(site.count, plan.commit.expiry, plan.next);
  }

  // ---- A store that shows some of a plan's writes ----

  // The store as a reader sees it when only the writes to some names have become visible.
  function Shown(values: Values, writes: seq<Write>, names: set<string>): Values {
    if writes == [] then values
    else
      var last, front := writes[|writes| - 1], Shown(values, writes[..|writes| - 1], names);
      if last.0 in names then front[last.0 := last.1] else front
  }

  lemma {:induction false} ShownElsewhere(values: Values, writes: seq<Write>, names: set<string>, name: string)
    requires forall w :: w in writes && w.0 == name ==> name !in names
    ensures Get(Shown(values, writes, names), name) == Get(values, name)
  {
    if writes == [] {
    } else {
      assert writes[|writes| - 1] in writes;
      ShownElsewhere(values, writes[..|writes| - 1], names, name);
    }
  }

  lemma {:induction false} ShownWritten(values: Values, writes: seq<Write>, names: set<string>, name: string,
                                        text: string)
    requires name in names && (name, text) in writes
    requires forall w :: w in writes && w.0 == name ==> w.1 == text
    ensures Get(Shown(values, writes, names), name) == Some(text)
  {
    var front, last := writes[..|writes| - 1], writes[|writes| - 1];
    assert writes == front + [last] && last in writes;
    if last.0 == name {
    } else {
      ShownWritten(values, front, names, name, text);
    }
  }

  lemma {:induction false} ShownAll(values: Values, writes: seq<Write>, names: set<string>)
    requires forall w :: w in writes ==> w.0 in names
    ensures Shown(values, writes, names) == Apply(values, writes)
  {
    if writes == [] {
    } else {
      assert writes[|writes| - 1] in writes;
      ShownAll(values, writes[..|writes| - 1], names);
    }
  }

  // A plan writes the manifest, and the staged shard of every bucket that changes; nothing else.
  lemma PlanWrites(site: Site, values: Values, plan: Plan, w: Write)
    requires IsPlan(site, values, plan)
    ensures site.ManifestName() in values && 0 <= plan.commit.expiry
    ensures w in plan.writes <==>
        || (w == (site.ManifestName(), plan.Text()) && w.1 != values[site.ManifestName()])
        || exists b: nat :: IsStaged(site, plan.steps, b, w)
  {
    PlanShape(site, values, plan);
    PlanBody(site, values, plan);
    StagedMeaning(site, plan.steps, |plan.steps|, w);
  }

  lemma StagedName(site: Site, values: Values, plan: Plan, b: nat, bank: Bank, w: Write)
    requires IsPlan(site, values, plan) && b < site.count
    requires w in plan.writes && w.0 == site.ShardName(b, bank)
    ensures IsStaged(site, plan.steps, b, w) && bank == Flip(plan.steps[b].pointer.bank)
  {
    PlanShape(site, values, plan);
    PlanWrites(site, values, plan, w);
    hide IsPlan;
    site.NamesDiffer(b, bank, b, bank);
    var c: nat :| IsStaged(site, plan.steps, c, w);
    site.NamesDiffer(b, bank, c, Flip(plan.steps[c].pointer.bank));
  }

  // What a reader finds in a bank, when some of the plan's writes are visible.
  lemma ShownBank(site: Site, values: Values, plan: Plan, names: set<string>, b: nat, bank: Bank)
    requires IsPlan(site, values, plan) && b < site.count
    ensures |plan.steps| == site.count
    ensures var step, name := plan.steps[b], site.ShardName(b, bank);
      Get(Shown(values, plan.writes, names), name)
      == if step.Changed() && bank == Flip(step.pointer.bank) && name in names then Some(step.Text())
         else Get(values, name)
  {
    PlanShape(site, values, plan);
    var step, name := plan.steps[b], site.ShardName(b, bank);
    forall w | w in plan.writes && w.0 == name
      ensures step.Changed() && bank == Flip(step.pointer.bank) && w == Stage(site, b, step)
    {
      StagedName(site, values, plan, b, bank, w);
    }
    if step.Changed() && bank == Flip(step.pointer.bank) && name in names {
      PlanWrites(site, values, plan, Stage(site, b, step));
      assert IsStaged(site, plan.steps, b, Stage(site, b, step));
      ShownWritten(values, plan.writes, names, name, step.Text());
    } else {
      ShownElsewhere(values, plan.writes, names, name);
    }
  }

  // What a reader finds in the manifest, when some of the plan's writes are visible.
  lemma ShownManifest(site: Site, values: Values, plan: Plan, names: set<string>)
    requires IsPlan(site, values, plan)
    ensures site.Manifest(Shown(values, plan.writes, names))
         == if site.ManifestName() in names then Ok((plan.commit.expiry, plan.next)) else site.Manifest(values)
  {
    PlanShape(site, values, plan);
    PlanManifest(site, values, plan);
    hide IsPlan;
    var name := site.ManifestName();
    forall w | w in plan.writes && w.0 == name ensures w == (name, plan.Text()) && plan.Text() != values[name] {
      PlanWrites(site, values, plan, w);
      if b: nat :| IsStaged(site, plan.steps, b, w) {
        site.NamesDiffer(b, Flip(plan.steps[b].pointer.bank), b, 0);
      }
    }
    if name in names && plan.Text() != values[name] {
      PlanWrites(site, values, plan, (name, plan.Text()));
      ShownWritten(values, plan.writes, names, name, plan.Text());
    } else {
      ShownElsewhere(values, plan.writes, names, name);
    }
  }
}
