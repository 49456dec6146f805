// Membership records: 16 bytes of object ID in .NET order, then one byte of flags.
module Records {
  import opened Base64

  const RECORD_BYTES := 17

  datatype Record = Record(oid: seq<byte>, flags: byte)

  // The byte order Python sorts and compares bytes by.
  predicate Less(a: seq<byte>, b: seq<byte>) {
    b != [] && (a == [] || a[0] < b[0] || (a[0] == b[0] && Less(a[1..], b[1..])))
  }

  lemma {:induction false} LessTransitive(a: seq<byte>, b: seq<byte>, c: seq<byte>)
    requires Less(a, b) && Less(b, c)
    ensures Less(a, c)
  {
    if a != [] && a[0] == b[0] == c[0] {
      LessTransitive(a[1..], b[1..], c[1..]);
    }
  }

  lemma {:induction false} LessIrreflexive(a: seq<byte>)
    ensures !Less(a, a)
  {
    if a == [] {
    } else {
      LessIrreflexive(a[1..]);
    }
  }

  lemma {:induction false} LessTotal(a: seq<byte>, b: seq<byte>)
    ensures a == b || Less(a, b) || Less(b, a)
  {
    if a != [] && b != [] && a[0] == b[0] {
      LessTotal(a[1..], b[1..]);
      assert a == [a[0]] + a[1..] && b == [b[0]] + b[1..];
    }
  }

  // Appending flags does not change the order of two different object IDs.
  lemma {:induction false} LessAppended(a: seq<byte>, b: seq<byte>, x: seq<byte>, y: seq<byte>)
    requires |a| == |b| && a != b
    ensures Less(a + x, b + y) <==> Less(a, b)
  {
    if a[0] == b[0] {
      assert a == [a[0]] + a[1..] && b == [b[0]] + b[1..];
      assert (a + x)[1..] == a[1..] + x && (b + y)[1..] == b[1..] + y;
      LessAppended(a[1..], b[1..], x, y);
    }
  }

  predicate Nonzero(data: seq<byte>) {
    exists i :: 0 <= i < |data| && data[i] != 0
  }

  // flags & ~7 is zero, and flags & 3 is not.
  predicate ValidFlags(flags: byte) {
    flags < 8 && flags % 4 != 0
  }

  predicate WellFormed(r: Record) {
    |r.oid| == 16 && Nonzero(r.oid) && ValidFlags(r.flags)
  }

  ghost predicate Ascending(rs: seq<Record>) {
    forall i, j :: 0 <= i < j < |rs| ==> Less(rs[i].oid, rs[j].oid)
  }

  ghost predicate ValidRecords(rs: seq<Record>) {
    (forall r :: r in rs ==> WellFormed(r)) && Ascending(rs)
  }

  // The bytes of a list of records, one after another.
  function Join(rs: seq<Record>): seq<byte> {
    if rs == [] then [] else rs[0].oid + [rs[0].flags] + Join(rs[1..])
  }

  function Split(data: seq<byte>): seq<Record>
    requires |data| % RECORD_BYTES == 0
  {
    if data == [] then [] else [Record(data[..16], data[16])] + Split(data[RECORD_BYTES..])
  }

  lemma {:induction false} SplitAt(data: seq<byte>, i: nat)
    requires |data| % RECORD_BYTES == 0 && 17 * i < |data|
    ensures |Split(data)| == |data| / 17
    ensures Split(data)[i] == Record(data[17 * i..17 * i + 16], data[17 * i + 16])
  {
    var rest := data[17..];
    if i > 0 {
      SplitAt(rest, i - 1);
      assert rest[17 * (i - 1)..17 * (i - 1) + 16] == data[17 * i..17 * i + 16];
    } else if rest == [] {
    } else {
      SplitAt(rest, 0);
    }
  }

  lemma {:induction false} SplitLength(data: seq<byte>)
    requires |data| % RECORD_BYTES == 0
    ensures |Split(data)| == |data| / 17
  {
    if data != [] {
      SplitAt(data, 0);
    }
  }

  lemma {:induction false} SplitJoin(rs: seq<Record>)
    requires forall r :: r in rs ==> |r.oid| == 16
    ensures |Join(rs)| == 17 * |rs| && Split(Join(rs)) == rs
  {
    if rs == [] {
    } else {
      assert rs == [rs[0]] + rs[1..];
      SplitJoin(rs[1..]);
      var data := Join(rs);
      assert data[..16] == rs[0].oid && data[17..] == Join(rs[1..]);
    }
  }

  // Two ascending lists of the same records are the same list.
  lemma {:induction false} AscendingUnique(a: seq<Record>, b: seq<Record>)
    requires Ascending(a) && Ascending(b)
    requires forall r :: r in a <==> r in b
    ensures a == b
  {
    if a != [] {
      assert a[0] in b;
    }
    if b != [] {
      assert b[0] in a;
    }
    if a != [] && b != [] {
      HeadIsLeast(a, b[0]);
      HeadIsLeast(b, a[0]);
      if a[0] != b[0] {
        LessTransitive(a[0].oid, b[0].oid, a[0].oid);
        LessIrreflexive(a[0].oid);
      }
      forall r ensures r in a[1..] <==> r in b[1..] {
        InTail(a, r);
        InTail(b, r);
      }
      AscendingUnique(a[1..], b[1..]);
      assert a == [a[0]] + a[1..] && b == [b[0]] + b[1..];
    }
  }

  lemma HeadIsLeast(a: seq<Record>, r: Record)
    requires Ascending(a) && r in a
    ensures a[0] == r || Less(a[0].oid, r.oid)
  {
    var i :| 0 <= i < |a| && a[i] == r;
  }

  lemma InTail(a: seq<Record>, r: Record)
    requires Ascending(a) && a != []
    ensures r in a[1..] <==> r in a && r != a[0]
  {
    if r in a[1..] {
      var i :| 0 <= i < |a[1..]| && a[1..][i] == r;
      assert a[i + 1] == r;
      LessIrreflexive(r.oid);
    }
    if r in a && r != a[0] {
      var i :| 0 <= i < |a| && a[i] == r;
      assert a[1..][i - 1] == r;
    }
  }
}
