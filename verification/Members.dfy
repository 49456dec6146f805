// Members of a cost center, and the membership records they become.
module Members {
  import opened Wrappers
  import opened Base64
  import opened Masks
  import opened Numerals
  import opened Records

  const SAMPLE_ID: seq<byte> := [1, 0, 0, 0, 0, 0, 0, 0, 0, 0, 0, 0, 0, 0, 0, 0]

  // A nonempty UUID, as its 16 bytes in printing order.
  type Oid = b: seq<byte> | |b| == 16 && Nonzero(b)
    witness (assert SAMPLE_ID[0] == 1; SAMPLE_ID)

  datatype Kind = User | Application
  datatype Owner = Owner(oid: Oid, kind: Kind)
  datatype MemberData = MemberData(owner: Owner, direct: bool, graph: bool)

  // A member has at least one source of eligibility.
  type Member = m: MemberData | m.direct || m.graph
    witness (assert SAMPLE_ID[0] == 1; MemberData(Owner(SAMPLE_ID, User), true, false))

  type BucketCount = n: nat | n in {8, 16, 32, 64, 128} witness 8

  function Flags(m: Member): (f: byte)
    ensures ValidFlags(f)
  {
    (if m.direct then 1 else 0) + (if m.graph then 2 else 0) + (if m.owner.kind.Application? then 4 else 0)
  }

  predicate IsDirect(flags: byte) { flags % 2 == 1 }
  predicate IsGraph(flags: byte) { flags / 2 % 2 == 1 }
  predicate IsApplication(flags: byte) { flags / 4 % 2 == 1 }

  // Bitwise or, of the three bits that flags use.
  function Or(a: byte, b: byte): (f: byte)
    ensures f < 8
    ensures IsDirect(f) <==> IsDirect(a) || IsDirect(b)
    ensures IsGraph(f) <==> IsGraph(a) || IsGraph(b)
    ensures IsApplication(f) <==> IsApplication(a) || IsApplication(b)
  {
    (if IsDirect(a) || IsDirect(b) then 1 else 0) + (if IsGraph(a) || IsGraph(b) then 2 else 0)
    + (if IsApplication(a) || IsApplication(b) then 4 else 0)
  }

  // UUID.bytes_le, the order of .NET's Guid.ToByteArray().
  function LittleEndian(oid: seq<byte>): (le: seq<byte>)
    requires |oid| == 16
    ensures |le| == 16
    ensures Nonzero(oid) <==> Nonzero(le)
  {
    var le := [oid[3], oid[2], oid[1], oid[0], oid[5], oid[4], oid[7], oid[6]] + oid[8..];
    assert oid[0] == le[3] && oid[1] == le[2] && oid[2] == le[1] && oid[3] == le[0];
    assert oid[4] == le[5] && oid[5] == le[4] && oid[6] == le[7] && oid[7] == le[6];
    assert forall i :: 8 <= i < 16 ==> oid[i] == le[i];
    le
  }

  lemma LittleEndianInjective(a: seq<byte>, b: seq<byte>)
    requires |a| == |b| == 16 && LittleEndian(a) == LittleEndian(b)
    ensures a == b
  {
    var x, y := LittleEndian(a), LittleEndian(b);
    assert a == [x[3], x[2], x[1], x[0], x[5], x[4], x[7], x[6]] + x[8..];
    assert b == [y[3], y[2], y[1], y[0], y[5], y[4], y[7], y[6]] + y[8..];
  }

  // UUID.hex: two lower-case digits a byte.
  function Hex(data: seq<byte>): string {
    if data == [] then "" else Numeral(data[0], 2, Hexadecimal) + Hex(data[1..])
  }

  // The bucket an owner hashes to: the first byte of the hash of its ID, masked to a power of two.
  function BucketFor(oid: Oid, n: BucketCount, hash: string -> byte): (b: nat)
    ensures b < n
  {
    hash(Hex(oid)) % n
  }

  // The counts are powers of two: so an owner's bucket is its hash's first byte, masked bit by bit.
  lemma BucketMask(oid: Oid, n: BucketCount, hash: string -> byte)
    ensures BucketFor(oid, n, hash) == Masked(hash(Hex(oid)), n)
  {
    hide Hex, Masked;
    MaskedRemainder(hash(Hex(oid)), n);
  }

  // One object is never both a user and an application.
  predicate Consistent(members: seq<Member>) {
    forall i, j :: 0 <= i < j < |members| && members[i].owner.oid == members[j].owner.oid
      ==> members[i].owner.kind == members[j].owner.kind
  }

  predicate Listed(members: seq<Member>, oid: Oid) {
    exists i :: 0 <= i < |members| && members[i].owner.oid == oid
  }

  // The flags of every member with this object ID, or-ed together.
  function FlagsFor(members: seq<Member>, oid: Oid): byte {
    if members == [] then 0
    else
      var last, front := members[|members| - 1], FlagsFor(members[..|members| - 1], oid);
      if last.owner.oid == oid then Or(Flags(last), front) else front
  }

  ghost predicate RecordOf(r: Record, members: seq<Member>, b: nat, n: BucketCount, hash: string -> byte) {
    exists i :: 0 <= i < |members| && BucketFor(members[i].owner.oid, n, hash) == b
      && r == Record(LittleEndian(members[i].owner.oid), FlagsFor(members, members[i].owner.oid))
  }

  // The records of one bucket: one for each object that hashes to it, with all its flags, in order.
  ghost predicate IsBucket(rs: seq<Record>, members: seq<Member>, b: nat, n: BucketCount, hash: string -> byte) {
    Ascending(rs) && forall r :: r in rs <==> RecordOf(r, members, b, n, hash)
  }

  lemma {:induction false} DirectMeaning(members: seq<Member>, oid: Oid)
    ensures IsDirect(FlagsFor(members, oid)) <==> exists m :: m in members && m.owner.oid == oid && m.direct
  {
    if members == [] {
    } else {
      var front, last := members[..|members| - 1], members[|members| - 1];
      DirectMeaning(front, oid);
      assert members == front + [last];
    }
  }

  lemma {:induction false} GraphMeaning(members: seq<Member>, oid: Oid)
    ensures IsGraph(FlagsFor(members, oid)) <==> exists m :: m in members && m.owner.oid == oid && m.graph
  {
    if members == [] {
    } else {
      var front, last := members[..|members| - 1], members[|members| - 1];
      GraphMeaning(front, oid);
      assert members == front + [last];
    }
  }

  lemma {:induction false} ApplicationMeaning(members: seq<Member>, oid: Oid)
    ensures IsApplication(FlagsFor(members, oid))
      <==> exists m :: m in members && m.owner.oid == oid && m.owner.kind.Application?
  {
    if members == [] {
    } else {
      var front, last := members[..|members| - 1], members[|members| - 1];
      ApplicationMeaning(front, oid);
      assert members == front + [last];
    }
  }

  // The flags of a listed object are valid: it has at least one source.
  lemma FlagsForValid(members: seq<Member>, m: Member)
    requires m in members
    ensures ValidFlags(FlagsFor(members, m.owner.oid))
  {
    DirectMeaning(members, m.owner.oid);
    GraphMeaning(members, m.owner.oid);
    FlagsForBound(members, m.owner.oid);
  }

  lemma FlagsForBound(members: seq<Member>, oid: Oid)
    ensures FlagsFor(members, oid) < 8
  {
  }

  lemma BucketUnique(a: seq<Record>, c: seq<Record>, members: seq<Member>, b: nat, n: BucketCount, hash: string -> byte)
    requires IsBucket(a, members, b, n, hash) && IsBucket(c, members, b, n, hash)
    ensures a == c
  {
    AscendingUnique(a, c);
  }

  // Every bucket is a valid list of records.
  lemma BucketValid(rs: seq<Record>, members: seq<Member>, b: nat, n: BucketCount, hash: string -> byte)
    requires IsBucket(rs, members, b, n, hash)
    ensures ValidRecords(rs)
  {
    forall r | r in rs ensures WellFormed(r) {
      RecordOfValid(r, members, b, n, hash);
    }
  }

  lemma RecordOfValid(r: Record, members: seq<Member>, b: nat, n: BucketCount, hash: string -> byte)
    requires RecordOf(r, members, b, n, hash)
    ensures WellFormed(r)
  {
    var i :| 0 <= i < |members| && BucketFor(members[i].owner.oid, n, hash) == b
      && r == Record(LittleEndian(members[i].owner.oid), FlagsFor(members, members[i].owner.oid));
    FlagsForValid(members, members[i]);
  }

  // Where a record belongs in an ascending list, by its bytes.
  function Insert(rs: seq<Record>, r: Record): seq<Record> {
    if rs == [] || !Less(rs[0].oid + [rs[0].flags], r.oid + [r.flags]) then [r] + rs
    else [rs[0]] + Insert(rs[1..], r)
  }

  // sorted(): by bytes.
  function Sorted(rs: seq<Record>): seq<Record> {
    if rs == [] then [] else Insert(Sorted(rs[..|rs| - 1]), rs[|rs| - 1])
  }

  lemma {:induction false} InsertMeaning(rs: seq<Record>, r: Record, x: Record)
    ensures x in Insert(rs, r) <==> x == r || x in rs
  {
    if rs != [] && Less(rs[0].oid + [rs[0].flags], r.oid + [r.flags]) {
      InsertMeaning(rs[1..], r, x);
      assert rs == [rs[0]] + rs[1..];
    }
  }

  lemma AscendingCons(head: Record, rs: seq<Record>)
    requires Ascending(rs) && forall x :: x in rs ==> Less(head.oid, x.oid)
    ensures Ascending([head] + rs)
  {
  }

  lemma {:induction false} InsertAscending(rs: seq<Record>, r: Record)
    requires Ascending(rs)
    requires |r.oid| == 16 && forall x :: x in rs ==> |x.oid| == 16 && x.oid != r.oid
    ensures Ascending(Insert(rs, r))
  {
    if rs == [] {
    } else {
      var head, tail := rs[0], rs[1..];
      assert head in rs && rs == [head] + tail;
      LessAppended(head.oid, r.oid, [head.flags], [r.flags]);
      LessTotal(head.oid, r.oid);
      if Less(head.oid, r.oid) {
        InsertAscending(tail, r);
        forall x | x in Insert(tail, r) ensures Less(head.oid, x.oid) {
          InsertMeaning(tail, r, x);
          if x in tail {
            var j :| 0 <= j < |tail| && tail[j] == x;
            assert rs[j + 1] == x;
          }
        }
        AscendingCons(head, Insert(tail, r));
      } else {
        forall x | x in rs ensures Less(r.oid, x.oid) {
          HeadIsLeast(rs, x);
          if x != head {
            LessTransitive(r.oid, head.oid, x.oid);
          }
        }
        AscendingCons(r, rs);
      }
    }
  }

  ghost predicate DistinctIds(rs: seq<Record>) {
    (forall r :: r in rs ==> |r.oid| == 16) && forall i, j :: 0 <= i < j < |rs| ==> rs[i].oid != rs[j].oid
  }

  lemma {:induction false} SortedAscending(rs: seq<Record>)
    requires DistinctIds(rs)
    ensures Ascending(Sorted(rs))
    ensures forall x :: x in Sorted(rs) <==> x in rs
  {
    if rs == [] {
    } else {
      var front, last := rs[..|rs| - 1], rs[|rs| - 1];
      assert rs == front + [last];
      SortedAscending(front);
      InsertAscending(Sorted(front), last);
      forall x ensures x in Sorted(rs) <==> x in rs {
        InsertMeaning(Sorted(front), last, x);
      }
    }
  }

  // The object IDs in the order they first appear: a Python dict's order.
  function Order(members: seq<Member>): seq<Oid> {
    if members == [] then []
    else
      var front, oid := Order(members[..|members| - 1]), members[|members| - 1].owner.oid;
      if oid in front then front else front + [oid]
  }

  function Gather(order: seq<Oid>, members: seq<Member>, b: nat, n: BucketCount, hash: string -> byte): seq<Record> {
    if order == [] then []
    else
      var front, oid := Gather(order[..|order| - 1], members, b, n, hash), order[|order| - 1];
      if BucketFor(oid, n, hash) == b then front + [Record(LittleEndian(oid), FlagsFor(members, oid))] else front
  }

  function Bucket(members: seq<Member>, b: nat, n: BucketCount, hash: string -> byte): seq<Record> {
    Sorted(Gather(Order(members), members, b, n, hash))
  }

  function BucketData(members: seq<Member>, n: BucketCount, hash: string -> byte): (r: Result<seq<seq<byte>>>)
    ensures r.Ok? ==> |r.value| == n
  {
    if Consistent(members) then
      Ok(seq(n, b requires 0 <= b => Join(Bucket(members, b, n, hash))))
    else Error
  }

  lemma {:induction false} OrderMeaning(members: seq<Member>)
    ensures forall oid: Oid :: oid in Order(members) <==> Listed(members, oid)
    ensures forall i, j :: 0 <= i < j < |Order(members)| ==> Order(members)[i] != Order(members)[j]
  {
    if members == [] {
    } else {
      var front, last := members[..|members| - 1], members[|members| - 1];
      OrderMeaning(front);
      forall oid: Oid ensures Listed(members, oid) <==> Listed(front, oid) || oid == last.owner.oid {
        ListedGrows(members, oid);
      }
    }
  }

  lemma ListedGrows(members: seq<Member>, oid: Oid)
    requires members != []
    ensures Listed(members, oid)
      <==> Listed(members[..|members| - 1], oid) || members[|members| - 1].owner.oid == oid
  {
    var front, last := members[..|members| - 1], members[|members| - 1];
    assert members == front + [last];
    if Listed(front, oid) {
      var i :| 0 <= i < |front| && front[i].owner.oid == oid;
      assert members[i].owner.oid == oid;
    }
  }

  lemma {:induction false} GatherMeaning(order: seq<Oid>, members: seq<Member>, b: nat, n: BucketCount,
                                         hash: string -> byte)
    requires forall i, j :: 0 <= i < j < |order| ==> order[i] != order[j]
    ensures DistinctIds(Gather(order, members, b, n, hash))
    ensures forall r :: r in Gather(order, members, b, n, hash) <==>
      exists oid: Oid :: oid in order && BucketFor(oid, n, hash) == b
        && r == Record(LittleEndian(oid), FlagsFor(members, oid))
  {
    if order == [] {
    } else {
      var front, last := order[..|order| - 1], order[|order| - 1];
      assert order == front + [last];
      GatherMeaning(front, members, b, n, hash);
      forall r | r in Gather(front, members, b, n, hash) ensures r.oid != LittleEndian(last) {
        var oid: Oid :| oid in front && r == Record(LittleEndian(oid), FlagsFor(members, oid));
        if LittleEndian(oid) == LittleEndian(last) {
          LittleEndianInjective(oid, last);
        }
      }
    }
  }

  // What a bucket holds, whatever the order of the members.
  lemma BucketMeaning(members: seq<Member>, b: nat, n: BucketCount, hash: string -> byte)
    ensures IsBucket(Bucket(members, b, n, hash), members, b, n, hash)
  {
    OrderMeaning(members);
    var gathered := Gather(Order(members), members, b, n, hash);
    GatherMeaning(Order(members), members, b, n, hash);
    SortedAscending(gathered);
    forall r ensures r in gathered <==> RecordOf(r, members, b, n, hash) {
      if r in gathered {
        var oid: Oid :| oid in Order(members) && BucketFor(oid, n, hash) == b
          && r == Record(LittleEndian(oid), FlagsFor(members, oid));
        assert Listed(members, oid);
      }
      if RecordOf(r, members, b, n, hash) {
        var i :| 0 <= i < |members| && BucketFor(members[i].owner.oid, n, hash) == b
          && r == Record(LittleEndian(members[i].owner.oid), FlagsFor(members, members[i].owner.oid));
        assert Listed(members, members[i].owner.oid);
      }
    }
  }

  lemma BucketBytes(members: seq<Member>, b: nat, n: BucketCount, hash: string -> byte)
    ensures var rs := Bucket(members, b, n, hash);
      |Join(rs)| == 17 * |rs| && Split(Join(rs)) == rs && ValidRecords(rs)
  {
    var rs := Bucket(members, b, n, hash);
    BucketMeaning(members, b, n, hash);
    BucketValid(rs, members, b, n, hash);
    SplitJoin(rs);
  }

  datatype Entry = Entry(kind: Kind, flags: byte)

  // What the dict of owners holds after some members.
  ghost predicate Collected(members: seq<Member>, owners: map<Oid, Entry>, order: seq<Oid>) {
    Consistent(members) && order == Order(members)
    && (forall oid: Oid :: oid in owners <==> oid in order)
    && (forall oid: Oid :: oid in owners ==> owners[oid].flags == FlagsFor(members, oid))
    && (forall m :: m in members ==> m.owner.oid in owners && owners[m.owner.oid].kind == m.owner.kind)
  }

  lemma {:induction false} UnlistedHasNoFlags(members: seq<Member>, oid: Oid)
    requires oid !in Order(members)
    ensures FlagsFor(members, oid) == 0
  {
    if members == [] {
    } else {
      UnlistedHasNoFlags(members[..|members| - 1], oid);
    }
  }

  lemma ConsistentGrows(front: seq<Member>, m: Member)
    requires Consistent(front)
    requires forall o :: o in front && o.owner.oid == m.owner.oid ==> o.owner.kind == m.owner.kind
    ensures Consistent(front + [m])
  {
    var members := front + [m];
    forall i, j | 0 <= i < j < |members| && members[i].owner.oid == members[j].owner.oid
      ensures members[i].owner.kind == members[j].owner.kind
    {
      assert members[i] == front[i] && front[i] in front;
      if j < |front| {
        assert front[i].owner.oid == front[j].owner.oid;
      }
    }
  }

  lemma CollectStep(front: seq<Member>, m: Member, owners: map<Oid, Entry>, order: seq<Oid>)
    requires Collected(front, owners, order)
    requires m.owner.oid in owners ==> owners[m.owner.oid].kind == m.owner.kind
    ensures Collected(front + [m],
              owners[m.owner.oid := Entry(m.owner.kind,
                Or(Flags(m), if m.owner.oid in owners then owners[m.owner.oid].flags else 0))],
              if m.owner.oid in owners then order else order + [m.owner.oid])
  {
    hide Or, Flags, Consistent, Hex, LittleEndian;
    var members := front + [m];
    assert members[..|members| - 1] == front && members[|members| - 1] == m;
    if m.owner.oid !in owners {
      UnlistedHasNoFlags(front, m.owner.oid);
    }
    ConsistentGrows(front, m);
  }

  lemma Conflict(members: seq<Member>, i: nat, owners: map<Oid, Entry>, order: seq<Oid>)
    requires i < |members| && Collected(members[..i], owners, order)
    requires members[i].owner.oid in owners && owners[members[i].owner.oid].kind != members[i].owner.kind
    ensures !Consistent(members)
  {
    OrderMeaning(members[..i]);
    var k :| 0 <= k < i && members[..i][k].owner.oid == members[i].owner.oid;
    assert members[..i][k] in members[..i];
    assert members[k].owner.oid == members[i].owner.oid;
  }

  // The dict of owners: each object's kind and all its flags, or the conflict the source raises.
  method CollectOwners(members: seq<Member>) returns (r: Result<(map<Oid, Entry>, seq<Oid>)>)
    ensures r.Ok? <==> Consistent(members)
    ensures r.Ok? ==> Collected(members, r.value.0, r.value.1)
  {
    var owners: map<Oid, Entry> := map[];
    var order: seq<Oid> := [];
    for i := 0 to |members|
      invariant Collected(members[..i], owners, order)
    {
      var m := members[i];
      var oid := m.owner.oid;
      if oid in owners && owners[oid].kind != m.owner.kind {
        Conflict(members, i, owners, order);
        return Error;
      }
      CollectStep(members[..i], m, owners, order);
      assert members[..i + 1] == members[..i] + [m];
      var before := if oid in owners then owners[oid].flags else 0;
      order := if oid in owners then order else order + [oid];
      owners := owners[oid := Entry(m.owner.kind, Or(Flags(m), before))];
    }
    assert members[..|members|] == members;
    r := Ok((owners, order));
  }

  // The records of every bucket: each owner in its bucket, each bucket sorted and joined.
  method MakeRecords(members: seq<Member>, n: BucketCount, hash: string -> byte) returns (r: Result<seq<seq<byte>>>)
    ensures r == BucketData(members, n, hash)
  {
    hide FlagsFor, LittleEndian, Hex, Sorted, Join, Consistent, Order;
    var collected := CollectOwners(members);
    if collected.Error? {
      return Error;
    }
    var (owners, order) := collected.value;
    var buckets: seq<seq<Record>> := seq(n, _ => []);
    for i := 0 to |order|
      invariant |buckets| == n
      invariant forall b :: 0 <= b < n ==> buckets[b] == Gather(order[..i], members, b, n, hash)
    {
      var oid := order[i];
      assert order[..i + 1][..i] == order[..i];
      var b := BucketFor(oid, n, hash);
      buckets := buckets[b := buckets[b] + [Record(LittleEndian(oid), owners[oid].flags)]];
    }
    assert order[..|order|] == order;
    var joined := seq(n, b requires 0 <= b < |buckets| => Join(Sorted(buckets[b])));
    assert joined == BucketData(members, n, hash).value;
    r := Ok(joined);
  }
}
