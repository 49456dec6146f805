// When a membership can be projected, and when an update to it can be planned: nothing else stands in the way, not
// even what abandoned updates left behind.
module Feasibility {
  import opened Base64
  import opened Records
  import opened Members
  import opened NamedValues
  import opened Projections
  import opened Updates
  import opened Commits
  import opened Runs

  // A named value has room for this many records.
  const MAX_RECORDS := 179

  // A list of members and an expiry that can be written at all.
  ghost predicate Proper(commit: Commit) {
    Consistent(commit.members) && 0 <= commit.expiry <= MAX_EPOCH
  }

  ghost predicate Fits(site: Site, members: seq<Member>, b: nat) {
    |Bucket(members, b, site.count, site.hash)| <= MAX_RECORDS
  }

  lemma {:induction false} WritableMeaning(site: Site, members: seq<Member>, records: seq<seq<byte>>, k: nat)
    requires k <= |records| && forall b :: 0 <= b < |records| ==> records[b] == site.Data(members, b)
    ensures Writable(records, k) <==> forall b :: 0 <= b < k ==> Fits(site, members, b)
  {
    hide Bucket, Join, ShardText;
    if k == 0 {
    } else {
      WritableMeaning(site, members, records, k - 1);
      BucketShard(members, k - 1, site.count, site.hash, 0);
      assert records[k - 1] == site.Data(members, k - 1);
      assert ShardValue(0, records[k - 1]).Ok? <==> Fits(site, members, k - 1);
    }
  }

  lemma ManifestFits(site: Site, expiry: int, pointers: seq<Pointer>)
    requires |pointers| == site.count && forall p :: p in pointers ==> p.generation <= MAX_GENERATION
    ensures ManifestValue(expiry, pointers).Ok? <==> 0 <= expiry <= MAX_EPOCH
  {
    if 0 <= expiry <= MAX_EPOCH {
      WrittenManifestReads(site.count, expiry, pointers);
    }
  }

  // A membership can be projected exactly when no object has two kinds, its expiry has ten digits, and no bucket has
  // more than 179 records.
  lemma Projectable(site: Site, commit: Commit)
    ensures Projected(site, commit).Ok? <==> Proper(commit) && forall b :: 0 <= b < site.count ==>
      Fits(site, commit.members, b)
  {
    hide Bucket, Join, ManifestValue, InitialShards, Writable;
    if Consistent(commit.members) {
      var records := BucketData(commit.members, site.count, site.hash).value;
      forall b | 0 <= b < |records| ensures records[b] == site.Data(commit.members, b) {
        DataAt(site, commit.members, b);
      }
      WritableMeaning(site, commit.members, records, |records|);
      ManifestFits(site, commit.expiry, Initial(site));
    }
  }

  // A bucket that an update leaves as it is, or can stage at the next generation.
  ghost predicate Stageable(site: Site, before: Commit, commit: Commit, pointers: seq<Pointer>, b: nat)
    requires b < |pointers|
  {
    site.Data(commit.members, b) == site.Data(before.members, b)
    || (Fits(site, commit.members, b) && pointers[b].generation < MAX_GENERATION)
  }

  lemma StepPossible(site: Site, values: Values, before: Commit, commit: Commit, b: nat)
    requires Holds(site, values, before) && b < site.count
    ensures var pointers := Pointers(site, values);
      StepOf(site, values, b, pointers[b], site.Data(commit.members, b)).Possible()
      <==> Stageable(site, before, commit, pointers, b)
  {
    hide Bucket, Join, ShardText, ShardRecords, Pointers;
    PointersBound(site, values);
    var p := Pointers(site, values)[b];
    if p.generation < MAX_GENERATION {
      BucketShard(commit.members, b, site.count, site.hash, p.generation + 1);
    }
  }

  lemma {:induction false} AllPossibleMeaning(site: Site, values: Values, before: Commit, commit: Commit,
                                              records: seq<seq<byte>>, k: nat)
    requires Holds(site, values, before) && k <= site.count == |records|
    requires forall b :: 0 <= b < |records| ==> records[b] == site.Data(commit.members, b)
    ensures var pointers := Pointers(site, values);
      AllPossible(Steps(site, values, pointers, records, k), k)
      <==> forall b :: 0 <= b < k ==> Stageable(site, before, commit, pointers, b)
  {
    hide Holds, Pointers, Stageable, StepOf, Join, Bucket, ReadManifest, ShardText;
    ManifestHeld(site, values, before);
    if k == 0 {
    } else {
      var pointers := Pointers(site, values);
      AllPossibleMeaning(site, values, before, commit, records, k - 1);
      StepPossible(site, values, before, commit, k - 1);
      var front := Steps(site, values, pointers, records, k - 1);
      var step := StepOf(site, values, k - 1, pointers[k - 1], records[k - 1]);
      PossiblePrefix(front, step, k - 1);
      assert records[k - 1] == site.Data(commit.members, k - 1)
        && Steps(site, values, pointers, records, k) == front + [step];
    }
  }

  lemma ManifestHeld(site: Site, values: Values, before: Commit)
    requires Holds(site, values, before)
    ensures site.Manifest(values).Ok? && |Pointers(site, values)| == site.count
    ensures site.Manifest(values).value.1 == Pointers(site, values)
  {
  }

  lemma {:induction false} PossiblePrefix(steps: seq<Step>, step: Step, k: nat)
    requires k <= |steps|
    ensures AllPossible(steps + [step], k) == AllPossible(steps, k)
  {
    if k == 0 {
    } else {
      PossiblePrefix(steps, step, k - 1);
    }
  }

  // From a store that publishes a commit, an update can be planned exactly when its members and expiry are proper, and
  // every bucket that changes has room and a generation left.
  lemma Plannable(site: Site, values: Values, before: Commit, commit: Commit)
    requires Holds(site, values, before)
    ensures Planned(site, values, commit).Ok?
      <==> Proper(commit) && forall b :: 0 <= b < site.count ==>
        Stageable(site, before, commit, Pointers(site, values), b)
  {
    hide Holds, Pointers, Stageable, Steps, AllPossible, Staged, ManifestValue;
    ManifestHeld(site, values, before);
    if Consistent(commit.members) {
      var records := BucketData(commit.members, site.count, site.hash).value;
      forall b | 0 <= b < |records| ensures records[b] == site.Data(commit.members, b) {
        DataAt(site, commit.members, b);
      }
      AllPossibleMeaning(site, values, before, commit, records, site.count);
      var steps := Steps(site, values, Pointers(site, values), records, site.count);
      if AllPossible(steps, site.count) {
        NextBound(site, values, before, commit, records);
        ManifestFits(site, commit.expiry, NextPointers(steps, site.count));
      }
    }
  }

  lemma NextBound(site: Site, values: Values, before: Commit, commit: Commit, records: seq<seq<byte>>)
    requires Holds(site, values, before) && |records| == site.count
    requires |Pointers(site, values)| == site.count
    requires AllPossible(Steps(site, values, Pointers(site, values), records, site.count), site.count)
    ensures var next := NextPointers(Steps(site, values, Pointers(site, values), records, site.count), site.count);
      forall p :: p in next ==> p.generation <= MAX_GENERATION
  {
    hide Holds, Pointers, ShardText;
    PointersBound(site, values);
    var pointers := Pointers(site, values);
    var steps := Steps(site, values, pointers, records, site.count);
    var next := NextPointers(steps, site.count);
    forall p | p in next ensures p.generation <= MAX_GENERATION {
      var b :| 0 <= b < |next| && next[b] == p;
      NextPointerAt(steps, site.count, b);
      StepAt(site, values, pointers, records, site.count, b);
      EachPossible(steps, site.count, b);
    }
  }

  // So at every moment of a run an update can be planned on those terms alone: what abandoned updates staged, and in
  // which bank, does not matter.
  lemma RunPlannable(site: Site, first: Commit, events: seq<Event>, commit: Commit)
    requires Projected(site, first).Ok?
    ensures var w := Run(site, Start(site, first), events);
      |Pointers(site, w.values)| == site.count
      && (Planned(site, w.values, commit).Ok?
          <==> Proper(commit) && forall b :: 0 <= b < site.count ==>
            Stageable(site, w.committed, commit, Pointers(site, w.values), b))
  {
    hide Holds, Planned, Stageable;
    StartInv(site, first);
    RunKeepsInv(site, Start(site, first), events);
    var w := Run(site, Start(site, first), events);
    ManifestHeld(site, w.values, w.committed);
    Plannable(site, w.values, w.committed, commit);
  }
}
