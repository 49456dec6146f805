// The first projection of a membership, and planned updates: staged shards first, the manifest last.
module Updates {
  import opened Wrappers
  import opened Base64
  import opened Members
  import opened NamedValues
  import opened Projections

  type Write = (string, string)

  // What one manifest write publishes.
  datatype Commit = Commit(members: seq<Member>, expiry: int)

  datatype Update = Update(values: Values, writes: seq<Write>)

  function Apply(values: Values, writes: seq<Write>): Values {
    if writes == [] then values
    else Apply(values, writes[..|writes| - 1])[writes[|writes| - 1].0 := writes[|writes| - 1].1]
  }

  function Flip(bank: Bank): Bank {
    1 - bank
  }

  // ---- Projecting a membership for the first time ----

  function InitialShards(site: Site, records: seq<seq<byte>>, k: nat): Values
    requires k <= |records|
  {
    if k == 0 then map[]
    else
      var text := ShardText(0, records[k - 1]);
      InitialShards(site, records, k - 1)[site.ShardName(k - 1, 0) := text][site.ShardName(k - 1, 1) := text]
  }

  function Initial(site: Site): seq<Pointer> {
    seq(site.count, _ => Pointer(0, 0))
  }

  predicate Writable(records: seq<seq<byte>>, k: nat)
    requires k <= |records|
  {
    k == 0 || (Writable(records, k - 1) && ShardValue(0, records[k - 1]).Ok?)
  }

  lemma {:induction false} EachWritable(records: seq<seq<byte>>, k: nat, b: nat)
    requires b < k <= |records|
    ensures Writable(records, k) ==> ShardValue(0, records[b]).Ok?
  {
    if b == k - 1 {
    } else {
      EachWritable(records, k - 1, b);
    }
  }

  function Projected(site: Site, commit: Commit): Result<Values> {
    var records :- BucketData(commit.members, site.count, site.hash);
    if !Writable(records, |records|) then Error
    else
      var manifest :- ManifestValue(commit.expiry, Initial(site));
      Ok(InitialShards(site, records, |records|)[site.ManifestName() := manifest])
  }

  method Project(site: Site, commit: Commit) returns (r: Result<Values>)
    ensures r == Projected(site, commit)
  {
    var made := MakeRecords(commit.members, site.count, site.hash);
    if made.Error? {
      return Error;
    }
    var shards := ProjectShards(site, made.value);
    if shards.Error? {
      return Error;
    }
    var manifest := ManifestValue(commit.expiry, Initial(site));
    if manifest.Error? {
      return Error;
    }
    return Ok(shards.value[site.ManifestName() := manifest.value]);
  }

  // Every bucket's records at generation zero, in both of its banks.
  method ProjectShards(site: Site, records: seq<seq<byte>>) returns (r: Result<Values>)
    ensures r == if !Writable(records, |records|) then Error
                 else Ok(InitialShards(site, records, |records|))
  {
    var values: Values := map[];
    for bucket := 0 to |records|
      invariant values == InitialShards(site, records, bucket)
      invariant Writable(records, bucket)
    {
      var shard := ShardValue(0, records[bucket]);
      if shard.Error? {
        EachWritable(records, |records|, bucket);
        return Error;
      }
      values := values[site.ShardName(bucket, 0) := shard.value][site.ShardName(bucket, 1) := shard.value];
    }
    return Ok(values);
  }

  // ---- Planning an update ----

  // One bucket of an update: what its pointer leads to now, and what it has to hold.
  datatype Step = Step(stored: Result<seq<byte>>, pointer: Pointer, records: seq<byte>) {
    predicate Changed() {
      stored != Ok(records)
    }

    predicate Possible() {
      stored.Ok? && (Changed() ==> ShardValue(pointer.generation + 1, records).Ok?)
    }

    function Next(): Pointer {
      if Changed() then Pointer(Flip(pointer.bank), pointer.generation + 1) else pointer
    }

    function Text(): string {
      ShardText(pointer.generation + 1, records)
    }
  }

  ghost function StepOf(site: Site, values: Values, b: nat, pointer: Pointer, records: seq<byte>): Step {
    Step(site.RecordsAt(values, b, pointer), pointer, records)
  }

  // The steps of the first k buckets.
  ghost function Steps(site: Site, values: Values, pointers: seq<Pointer>, records: seq<seq<byte>>,
                       k: nat): (steps: seq<Step>)
    requires k <= |pointers| == |records|
    ensures |steps| == k
  {
    if k == 0 then []
    else Steps(site, values, pointers, records, k - 1) + [StepOf(site, values, k - 1, pointers[k - 1], records[k - 1])]
  }

  lemma {:induction false} StepAt(site: Site, values: Values, pointers: seq<Pointer>, records: seq<seq<byte>>, k: nat,
                                  b: nat)
    requires b < k <= |pointers| == |records|
    ensures Steps(site, values, pointers, records, k)[b] == StepOf(site, values, b, pointers[b], records[b])
  {
    if b == k - 1 {
    } else {
      StepAt(site, values, pointers, records, k - 1, b);
    }
  }

  function NextPointers(steps: seq<Step>, k: nat): (next: seq<Pointer>)
    requires k <= |steps|
    ensures |next| == k
  {
    if k == 0 then [] else NextPointers(steps, k - 1) + [steps[k - 1].Next()]
  }

  lemma {:induction false} NextPointerAt(steps: seq<Step>, k: nat, b: nat)
    requires b < k <= |steps|
    ensures NextPointers(steps, k)[b] == steps[b].Next()
  {
    if b == k - 1 {
    } else {
      NextPointerAt(steps, k - 1, b);
    }
  }

  // The write that stages a bucket, into its inactive bank.
  function Stage(site: Site, b: nat, step: Step): Write {
    (site.ShardName(b, Flip(step.pointer.bank)), step.Text())
  }

  // The staged writes of the first k buckets: only changed buckets, each into its inactive bank.
  function Staged(site: Site, steps: seq<Step>, k: nat): seq<Write>
    requires k <= |steps|
  {
    if k == 0 then []
    else if steps[k - 1].Changed() then
      Staged(site, steps, k - 1) + [Stage(site, k - 1, steps[k - 1])]
    else Staged(site, steps, k - 1)
  }

  predicate AllPossible(steps: seq<Step>, k: nat)
    requires k <= |steps|
  {
    k == 0 || (AllPossible(steps, k - 1) && steps[k - 1].Possible())
  }

  lemma {:induction false} EachPossible(steps: seq<Step>, k: nat, b: nat)
    requires b < k <= |steps|
    ensures AllPossible(steps, k) ==> steps[b].Possible()
  {
    if b == k - 1 {
    } else {
      EachPossible(steps, k - 1, b);
    }
  }

  // An update worked out from a store: its steps, the pointers it publishes, and its writes in order.
  datatype Plan = Plan(commit: Commit, steps: seq<Step>, next: seq<Pointer>, writes: seq<Write>) {
    function Text(): string
      requires commit.expiry >= 0
    {
      ManifestText(commit.expiry, next)
    }
  }

  ghost function Planned(site: Site, values: Values, commit: Commit): (r: Result<Plan>)
    ensures r.Ok? ==> r.value.commit == commit
  {
    var (_, pointers) :- site.Manifest(values);
    var records :- BucketData(commit.members, site.count, site.hash);
    if |pointers| != |records| then Error
    else
      var steps := Steps(site, values, pointers, records, |records|);
      var next := NextPointers(steps, |steps|);
      if !AllPossible(steps, |steps|) then Error
      else
        var manifest :- ManifestValue(commit.expiry, next);
        var staged := Staged(site, steps, |steps|);
        Ok(Plan(commit, steps, next,
                if manifest == values[site.ManifestName()] then staged else staged + [(site.ManifestName(), manifest)]))
  }

  lemma {:induction false} ApplyElsewhere(values: Values, writes: seq<Write>, name: string)
    requires forall w :: w in writes ==> w.0 != name
    ensures Get(Apply(values, writes), name) == Get(values, name)
  {
    if writes == [] {
    } else {
      assert writes[|writes| - 1] in writes;
      ApplyElsewhere(values, writes[..|writes| - 1], name);
    }
  }

  ghost predicate IsStaged(site: Site, steps: seq<Step>, b: nat, w: Write) {
    b < |steps| && steps[b].Changed() && w == Stage(site, b, steps[b])
  }

  lemma {:induction false} StagedMeaning(site: Site, steps: seq<Step>, k: nat, w: Write)
    requires k <= |steps|
    ensures w in Staged(site, steps, k) <==> exists b: nat :: b < k && IsStaged(site, steps, b, w)
  {
    if k == 0 {
    } else {
      StagedMeaning(site, steps, k - 1, w);
      if steps[k - 1].Changed() {
        assert w in Staged(site, steps, k) <==> w in Staged(site, steps, k - 1) || IsStaged(site, steps, k - 1, w);
      }
    }
  }

  // One turn of the loop over buckets: read the active bank, and stage what differs in the other.
  method StageOne(site: Site, values: Values, bucket: nat, pointer: Pointer, records: seq<byte>)
    returns (r: Result<(seq<Write>, Pointer)>)
    ensures var step := StepOf(site, values, bucket, pointer, records);
      r == if !step.Possible() then Error
           else if step.Changed() then Ok(([(site.ShardName(bucket, Flip(pointer.bank)), step.Text())], step.Next()))
           else Ok(([], pointer))
  {
    var stored := ReadShard(Get(values, site.ShardName(bucket, pointer.bank)), pointer.generation);
    if stored.Error? {
      return Error;
    }
    if records == stored.value {
      return Ok(([], pointer));
    }
    var shard := ShardValue(pointer.generation + 1, records);
    if shard.Error? {
      return Error;
    }
    return Ok(([(site.ShardName(bucket, Flip(pointer.bank)), shard.value)],
               Pointer(Flip(pointer.bank), pointer.generation + 1)));
  }

  lemma {:induction false} ApplyAppend(values: Values, a: seq<Write>, b: seq<Write>)
    ensures Apply(values, a + b) == Apply(Apply(values, a), b)
  {
    if b == [] {
      assert a + b == a;
    } else {
      var front := b[..|b| - 1];
      ApplyAppend(values, a, front);
      assert (a + b)[..|a + b| - 1] == a + front;
    }
  }

  // The loop over buckets.
  method StageBuckets(site: Site, current: Values, start: seq<Pointer>, records: seq<seq<byte>>, ghost steps: seq<Step>)
    returns (r: Result<(Values, seq<Write>, seq<Pointer>)>)
    requires |start| == |records| <= 128 && steps == Steps(site, current, start, records, |records|)
    ensures r.Ok? <==> AllPossible(steps, |steps|)
    ensures r.Ok? ==> r.value.1 == Staged(site, steps, |steps|) && r.value.0 == Apply(current, r.value.1)
    ensures r.Ok? ==> r.value.2 == NextPointers(steps, |steps|)
  {
    var values, writes: seq<Write>, pointers: seq<Pointer> := current, [], [];
    for bucket := 0 to |records|
      invariant writes == Staged(site, steps, bucket) && values == Apply(current, writes)
      invariant pointers == NextPointers(steps, bucket)
      invariant AllPossible(steps, bucket)
    {
      ReadsOwnShard(site, steps, bucket, current);
      var step := StageOne(site, values, bucket, start[bucket], records[bucket]);
      StepAt(site, current, start, records, |records|, bucket);
      assert steps[bucket] == StepOf(site, values, bucket, start[bucket], records[bucket]);
      assert step.Ok? <==> steps[bucket].Possible();
      if step.Error? {
        EachPossible(steps, |steps|, bucket);
        return Error;
      }
      ApplyAppend(current, writes, step.value.0);
      writes := writes + step.value.0;
      values := Apply(values, step.value.0);
      pointers := pointers + [step.value.1];
    }
    return Ok((values, writes, pointers));
  }

  method PlanUpdate(site: Site, current: Values, commit: Commit) returns (r: Result<Update>)
    ensures r.Ok? <==> Planned(site, current, commit).Ok?
    ensures r.Ok? ==> r.value.writes == Planned(site, current, commit).value.writes
    ensures r.Ok? ==> r.value.values == Apply(current, r.value.writes)
  {
    hide BucketData, ReadManifest, ManifestValue, AllPossible, Staged, Steps, NextPointers;
    var manifest := site.Manifest(current);
    if manifest.Error? {
      return Error;
    }
    var made := MakeRecords(commit.members, site.count, site.hash);
    if made.Error? {
      return Error;
    }
    var pointers, records := manifest.value.1, made.value;
    ReadManifestWrites(current[site.ManifestName()], site.count);
    ghost var steps := Steps(site, current, pointers, records, |records|);
    var staged := StageBuckets(site, current, pointers, records, steps);
    if staged.Error? {
      return Error;
    }
    ManifestUntouched(site, steps, current);
    var (values, writes, next) := staged.value;
    var text := ManifestValue(commit.expiry, next);
    if text.Error? {
      return Error;
    }
    if text.value != values[site.ManifestName()] {
      writes := writes + [(site.ManifestName(), text.value)];
      values := values[site.ManifestName() := text.value];
    }
    return Ok(Update(values, writes));
  }

  // Staging earlier buckets does not touch the bank a bucket is read from.
  lemma ReadsOwnShard(site: Site, steps: seq<Step>, bucket: nat, values: Values)
    requires bucket < |steps| <= 128
    ensures var name := site.ShardName(bucket, steps[bucket].pointer.bank);
      Get(Apply(values, Staged(site, steps, bucket)), name) == Get(values, name)
  {
    var name := site.ShardName(bucket, steps[bucket].pointer.bank);
    forall w | w in Staged(site, steps, bucket) ensures w.0 != name {
      StagedMeaning(site, steps, bucket, w);
      var b: nat :| b < bucket && IsStaged(site, steps, b, w);
      site.NamesDiffer(bucket, steps[bucket].pointer.bank, b, Flip(steps[b].pointer.bank));
    }
    ApplyElsewhere(values, Staged(site, steps, bucket), name);
  }

  lemma ManifestUntouched(site: Site, steps: seq<Step>, values: Values)
    requires |steps| <= 128
    ensures Get(Apply(values, Staged(site, steps, |steps|)), site.ManifestName()) == Get(values, site.ManifestName())
  {
    forall w | w in Staged(site, steps, |steps|) ensures w.0 != site.ManifestName() {
      StagedMeaning(site, steps, |steps|, w);
      var b: nat :| b < |steps| && IsStaged(site, steps, b, w);
      site.NamesDiffer(b, Flip(steps[b].pointer.bank), b, 0);
    }
    ApplyElsewhere(values, Staged(site, steps, |steps|), site.ManifestName());
  }
}
