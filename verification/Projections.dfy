// A cost center's membership as named values: a first projection, updates to it, and lookups in it.
module Projections {
  import opened Wrappers
  import opened Base64
  import opened Numerals
  import opened Records
  import opened Members
  import opened NamedValues

  type Values = map<string, string>

  datatype Decision = Direct | Graph | Absent | Expired | Invalid

  // A group's names, its number of buckets, and the hash that spreads owners over them.
  datatype Site = Site(group: string, count: BucketCount, hash: string -> byte) {
    function Prefix(): string {
      "mosaic-cc-probe-v1-" + group
    }

    function ManifestName(): string {
      Prefix() + "-manifest"
    }

    function ShardName(bucket: nat, bank: Bank): string {
      Prefix() + "-" + Numeral(bucket, 2, Hexadecimal) + "-" + [if bank == 0 then '0' else '1']
    }

    lemma NamesDiffer(bucket: nat, bank: Bank, other: nat, otherBank: Bank)
      requires bucket < 128 && other < 128
      ensures ShardName(bucket, bank) != ManifestName()
      ensures ShardName(bucket, bank) == ShardName(other, otherBank) ==> bucket == other && bank == otherBank
    {
      assert Power(Hexadecimal, 2) == 256;
      NumeralLength(bucket, 2, Hexadecimal);
      NumeralLength(other, 2, Hexadecimal);
      ParseNumeral(bucket, 2, Hexadecimal);
      ParseNumeral(other, 2, Hexadecimal);
      var k := |Prefix()|;
      assert |ShardName(bucket, bank)| == k + 5 && |ManifestName()| == k + 9;
      assert ShardName(bucket, bank)[k + 1..k + 3] == Numeral(bucket, 2, Hexadecimal);
      assert ShardName(other, otherBank)[k + 1..k + 3] == Numeral(other, 2, Hexadecimal);
      assert ShardName(bucket, bank)[k + 4] == if bank == 0 then '0' else '1';
      assert ShardName(other, otherBank)[k + 4] == if otherBank == 0 then '0' else '1';
    }

    function BucketOf(owner: Owner): (b: nat)
      ensures b < count
    {
      BucketFor(owner.oid, count, hash)
    }

    // The bytes of one bucket of members.
    function Data(members: seq<Member>, b: nat): seq<byte> {
      Join(Bucket(members, b, count, hash))
    }

    function Manifest(values: Values): Result<(nat, seq<Pointer>)> {
      if ManifestName() in values then ReadManifest(values[ManifestName()], count) else Error
    }

    // The records a pointer leads to.
    ghost function RecordsAt(values: Values, b: nat, p: Pointer): Result<seq<byte>> {
      ShardRecords(Get(values, ShardName(b, p.bank)), p.generation)
    }
  }

  function Get(values: Values, name: string): Option<string> {
    if name in values then Some(values[name]) else None
  }

  predicate IsEpoch(now: int) {
    0 <= now <= MAX_EPOCH
  }

  predicate Matches(r: Record, owner: Owner) {
    r.oid == LittleEndian(owner.oid) && (IsApplication(r.flags) <==> owner.kind.Application?)
  }

  function Verdict(flags: byte, expiry: int, now: int): Decision {
    if IsDirect(flags) then Direct else if now < expiry then Graph else Expired
  }

  // The verdict on the first record that matches.
  function Judge(rs: seq<Record>, owner: Owner, expiry: int, now: int): Decision {
    if rs == [] then Absent
    else if Matches(rs[0], owner) then Verdict(rs[0].flags, expiry, now)
    else Judge(rs[1..], owner, expiry, now)
  }

  ghost function JudgeRead(records: Result<seq<byte>>, owner: Owner, expiry: int, now: int): Decision {
    if records.Error? || |records.value| % RECORD_BYTES != 0 then Invalid
    else Judge(Split(records.value), owner, expiry, now)
  }

  // A reader's decision, when it takes the manifest from one store and then the shard from another.
  ghost function ReadTorn(site: Site, first: Values, second: Values, owner: Owner, now: int): Decision {
    match site.Manifest(first)
    case Error => Invalid
    case Ok((expiry, pointers)) =>
      var b := site.BucketOf(owner);
      if b < |pointers| then JudgeRead(site.RecordsAt(second, b, pointers[b]), owner, expiry, now) else Invalid
  }

  ghost function Decide(site: Site, values: Values, owner: Owner, now: int): Decision {
    ReadTorn(site, values, values, owner, now)
  }

  // The loop over records: the first that matches the owner decides.
  method Search(records: seq<byte>, owner: Owner, expiry: int, now: int) returns (d: Decision)
    requires |records| % RECORD_BYTES == 0
    ensures d == Judge(Split(records), owner, expiry, now)
  {
    hide Split, LittleEndian;
    var offset := 0;
    SplitLength(records);
    ghost var all := Split(records);
    assert all[0..] == all;
    while offset < |records|
      invariant 0 <= offset <= |records| && offset % 17 == 0
      invariant Judge(all, owner, expiry, now) == Judge(all[offset / 17..], owner, expiry, now)
    {
      SplitAt(records, offset / 17);
      var oid, flags := records[offset..offset + 16], records[offset + 16];
      if oid == LittleEndian(owner.oid) && IsApplication(flags) == owner.kind.Application? {
        if IsDirect(flags) {
          return Direct;
        }
        return if now < expiry then Graph else Expired;
      }
      offset := offset + RECORD_BYTES;
    }
    return Absent;
  }

  method Lookup(site: Site, values: Values, owner: Owner, now: int) returns (r: Result<Decision>)
    ensures r == if IsEpoch(now) then Ok(Decide(site, values, owner, now)) else Error
  {
    if !IsEpoch(now) {
      return Error;
    }
    var manifest := site.Manifest(values);
    if manifest.Error? {
      return Ok(Invalid);
    }
    var (expiry, pointers) := manifest.value;
    ReadManifestWrites(values[site.ManifestName()], site.count);
    var bucket := site.BucketOf(owner);
    var pointer := pointers[bucket];
    var read := ReadShard(Get(values, site.ShardName(bucket, pointer.bank)), pointer.generation);
    if read.Error? {
      return Ok(Invalid);
    }
    var found := Search(read.value, owner, expiry, now);
    return Ok(found);
  }

  // What an owner's membership means, said of the list of members alone.
  ghost function Eligibility(members: seq<Member>, expiry: int, owner: Owner, now: int): (d: Decision)
    ensures d != Invalid
  {
    if !exists m :: m in members && m.owner == owner then Absent
    else if exists m :: m in members && m.owner == owner && m.direct then Direct
    else if now < expiry then Graph
    else Expired
  }

  lemma {:induction false} JudgeAbsent(rs: seq<Record>, owner: Owner, expiry: int, now: int)
    requires forall r :: r in rs ==> !Matches(r, owner)
    ensures Judge(rs, owner, expiry, now) == Absent
  {
    if rs == [] {
    } else {
      assert rs[0] in rs;
      JudgeAbsent(rs[1..], owner, expiry, now);
    }
  }

  lemma {:induction false} JudgeFound(rs: seq<Record>, i: nat, owner: Owner, expiry: int, now: int)
    requires i < |rs| && Matches(rs[i], owner) && Ascending(rs)
    ensures Judge(rs, owner, expiry, now) == Verdict(rs[i].flags, expiry, now)
  {
    if i == 0 {
    } else {
      LessIrreflexive(rs[i].oid);
      assert Less(rs[0].oid, rs[i].oid);
      JudgeFound(rs[1..], i - 1, owner, expiry, now);
    }
  }

  lemma JudgePresent(site: Site, members: seq<Member>, owner: Owner, m: Member, expiry: int, now: int)
    requires m in members && m.owner.oid == owner.oid
    ensures Judge(Bucket(members, site.BucketOf(owner), site.count, site.hash), owner, expiry, now)
         == if IsApplication(FlagsFor(members, owner.oid)) == owner.kind.Application?
            then Verdict(FlagsFor(members, owner.oid), expiry, now) else Absent
  {
    var b, flags := site.BucketOf(owner), FlagsFor(members, owner.oid);
    var rs := Bucket(members, b, site.count, site.hash);
    BucketMeaning(members, b, site.count, site.hash);
    var k :| 0 <= k < |members| && members[k] == m;
    var r := Record(LittleEndian(owner.oid), flags);
    assert RecordOf(r, members, b, site.count, site.hash);
    var i :| 0 <= i < |rs| && rs[i] == r;
    if Matches(r, owner) {
      JudgeFound(rs, i, owner, expiry, now);
    } else {
      forall j | 0 <= j < |rs| && j != i ensures rs[j].oid != r.oid {
        LessIrreflexive(r.oid);
      }
      JudgeAbsent(rs, owner, expiry, now);
    }
  }

  lemma JudgeMissing(site: Site, members: seq<Member>, owner: Owner, expiry: int, now: int)
    requires !exists m :: m in members && m.owner.oid == owner.oid
    ensures Judge(Bucket(members, site.BucketOf(owner), site.count, site.hash), owner, expiry, now) == Absent
  {
    var b := site.BucketOf(owner);
    var rs := Bucket(members, b, site.count, site.hash);
    BucketMeaning(members, b, site.count, site.hash);
    forall r | r in rs ensures !Matches(r, owner) {
      assert RecordOf(r, members, b, site.count, site.hash);
      var k :| 0 <= k < |members|
        && r == Record(LittleEndian(members[k].owner.oid), FlagsFor(members, members[k].owner.oid));
      assert members[k] in members;
      if r.oid == LittleEndian(owner.oid) {
        LittleEndianInjective(members[k].owner.oid, owner.oid);
      }
    }
    JudgeAbsent(rs, owner, expiry, now);
  }

  // Searching an owner's bucket decides what the list of members says.
  lemma JudgeMeaning(site: Site, members: seq<Member>, owner: Owner, expiry: int, now: int)
    requires Consistent(members)
    ensures JudgeRead(Ok(site.Data(members, site.BucketOf(owner))), owner, expiry, now)
         == Eligibility(members, expiry, owner, now)
  {
    hide Bucket, Join, Split, FlagsFor, BucketFor;
    BucketBytes(members, site.BucketOf(owner), site.count, site.hash);
    DirectMeaning(members, owner.oid);
    ApplicationMeaning(members, owner.oid);
    SameKind(members, owner);
    if m :| m in members && m.owner.oid == owner.oid {
      JudgePresent(site, members, owner, m, expiry, now);
    } else {
      JudgeMissing(site, members, owner, expiry, now);
    }
  }

  lemma SameKind(members: seq<Member>, owner: Owner)
    requires Consistent(members)
    ensures forall m, o :: m in members && o in members && m.owner.oid == o.owner.oid ==> m.owner.kind == o.owner.kind
    ensures forall m :: m in members && m.owner.oid == owner.oid && m.owner.kind == owner.kind ==> m.owner == owner
  {
  }
}
