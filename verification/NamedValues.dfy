// The text of the two kinds of named value: a shard of records, and the manifest that points to shards.
module NamedValues {
  import opened Wrappers
  import opened Base64
  import opened Numerals
  import opened Records
  import opened Members

  const NAMED_VALUE_LIMIT := 4096
  const MAX_GENERATION := 0xFFFF_FFFF_FFFF_FFFF
  const MAX_EPOCH := 9_999_999_999

  type Bank = b: nat | b < 2

  // Where a bucket's current records are: one of its two banks, at a generation.
  datatype Pointer = Pointer(bank: Bank, generation: nat)

  function ShardText(generation: nat, records: seq<byte>): string {
    "1|" + Numeral(generation, 16, Hexadecimal) + "|" + Encode(records)
  }

  function ShardValue(generation: nat, records: seq<byte>): Result<string> {
    if generation > MAX_GENERATION || |ShardText(generation, records)| > NAMED_VALUE_LIMIT then Error
    else Ok(ShardText(generation, records))
  }

  // Everything a stored shard must be, said without reading it.
  ghost predicate IsShard(value: Option<string>, generation: nat, records: seq<byte>) {
    value == Some(ShardText(generation, records))
    && generation <= MAX_GENERATION && |value.value| <= NAMED_VALUE_LIMIT
    && |records| % RECORD_BYTES == 0 && ValidRecords(Split(records))
  }

  lemma ShardUnique(value: Option<string>, generation: nat, a: seq<byte>, b: seq<byte>)
    requires IsShard(value, generation, a) && IsShard(value, generation, b)
    ensures a == b
  {
    var prefix := "1|" + Numeral(generation, 16, Hexadecimal) + "|";
    assert value.value[|prefix|..] == Encode(a);
    assert value.value[|prefix|..] == Encode(b);
    EncodeInjective(a, b);
  }

  // What reading a shard at a generation gives: its records if it is one, and otherwise an error.
  ghost function ShardRecords(value: Option<string>, generation: nat): (r: Result<seq<byte>>)
    ensures r.Ok? ==> IsShard(value, generation, r.value)
  {
    if exists records :: IsShard(value, generation, records) then
      var records :| IsShard(value, generation, records);
      Ok(records)
    else Error
  }

  lemma ShardRecordsMeaning(value: Option<string>, generation: nat, records: seq<byte>)
    ensures ShardRecords(value, generation) == Ok(records) <==> IsShard(value, generation, records)
  {
    if IsShard(value, generation, records) {
      ShardUnique(value, generation, records, ShardRecords(value, generation).value);
    }
  }

  // A shard of one generation is not a shard of another.
  lemma OtherGeneration(generation: nat, records: seq<byte>, other: nat)
    requires other != generation && generation <= MAX_GENERATION
    ensures ShardRecords(Some(ShardText(generation, records)), other).Error?
  {
    hide ShardText, Numeral, Parse, MatchesShard, Encode, ValidRecords, Split;
    var value := ShardText(generation, records);
    if ShardRecords(Some(value), other).Ok? {
      var found := ShardRecords(Some(value), other).value;
      ShardTextMatches(generation, records);
      ShardTextMatches(other, found);
    }
  }

  lemma Widths()
    ensures Power(Hexadecimal, 16) == MAX_GENERATION + 1
    ensures Power(Decimal, 10) == MAX_EPOCH + 1
  {
    assert Power(Hexadecimal, 4) == 0x1_0000;
    assert Power(Hexadecimal, 8) == 0x1_0000_0000;
    assert Power(Hexadecimal, 12) == 0x1_0000_0000_0000;
    assert Power(Decimal, 5) == 100_000;
  }

  // The characters that the shard pattern allows after the second bar.
  predicate IsEncodedText(s: string) {
    forall i :: 0 <= i < |s| ==> IsSymbol(s[i]) || s[i] == '='
  }

  // re.fullmatch of a version, sixteen hexadecimal digits, and base64 characters.
  predicate MatchesShard(value: string) {
    |value| >= 19 && value[..2] == "1|" && AllDigits(value[2..18], Hexadecimal)
    && value[18] == '|' && IsEncodedText(value[19..])
  }

  lemma ShardTextMatches(generation: nat, records: seq<byte>)
    requires generation <= MAX_GENERATION
    ensures var v := ShardText(generation, records);
      MatchesShard(v) && Parse(v[2..18], Hexadecimal) == generation && v[19..] == Encode(records)
  {
    var v := ShardText(generation, records);
    Widths();
    NumeralLength(generation, 16, Hexadecimal);
    ParseNumeral(generation, 16, Hexadecimal);
    EncodeAlphabet(records);
    assert v[2..18] == Numeral(generation, 16, Hexadecimal) && v[19..] == Encode(records);
    forall i | 0 <= i < |v[19..]| ensures IsSymbol(v[19..][i]) || v[19..][i] == '=' {
      assert v[19..][i] in Encode(records);
    }
  }

  lemma MatchIsShardText(value: string, generation: nat, records: seq<byte>)
    requires MatchesShard(value) && Parse(value[2..18], Hexadecimal) == generation && value[19..] == Encode(records)
    ensures value == ShardText(generation, records) && generation <= MAX_GENERATION
  {
    Widths();
    NumeralParse(value[2..18], Hexadecimal);
    NumeralLength(generation, 16, Hexadecimal);
    assert value == value[..2] + value[2..18] + [value[18]] + value[19..];
  }

  // One more record keeps a list valid exactly when it is well formed and above the one before it.
  lemma ValidGrows(all: seq<Record>, i: nat)
    requires i < |all|
    ensures ValidRecords(all[..i + 1])
      <==> ValidRecords(all[..i]) && WellFormed(all[i]) && (i == 0 || Less(all[i - 1].oid, all[i].oid))
    ensures ValidRecords(all) ==> ValidRecords(all[..i + 1])
  {
    var front, grown := all[..i], all[..i + 1];
    assert grown == front + [all[i]];
    if ValidRecords(grown) {
      assert all[i] in grown && forall r :: r in front ==> r in grown;
      assert i > 0 ==> grown[i - 1] == all[i - 1];
      assert forall a, b :: 0 <= a < b < |front| ==> Less(grown[a].oid, grown[b].oid);
    }
    if ValidRecords(front) && WellFormed(all[i]) && (i == 0 || Less(all[i - 1].oid, all[i].oid)) {
      AscendingGrows(front, all[i]);
    }
  }

  lemma AscendingGrows(front: seq<Record>, r: Record)
    requires Ascending(front) && (front == [] || Less(front[|front| - 1].oid, r.oid))
    ensures Ascending(front + [r])
  {
    forall j | 0 <= j < |front| ensures Less(front[j].oid, r.oid) {
      if j < |front| - 1 {
        LessTransitive(front[j].oid, front[|front| - 1].oid, r.oid);
      }
    }
  }

  // The loop over records: each has a nonzero ID, valid flags, and an ID above the one before it.
  method CheckRecords(records: seq<byte>) returns (valid: bool)
    requires |records| % RECORD_BYTES == 0
    ensures valid <==> ValidRecords(Split(records))
  {
    hide Split, ValidRecords, Nonzero;
    ghost var all := Split(records);
    SplitLength(records);
    NothingIsValid();
    var previous: seq<byte> := [];
    var offset := 0;
    while offset < |records|
      invariant 0 <= offset <= |records| && offset % 17 == 0
      invariant ValidRecords(all[..offset / 17])
      invariant previous == if offset == 0 then [] else all[offset / 17 - 1].oid
    {
      SplitAt(records, offset / 17);
      ValidGrows(all, offset / 17);
      var oid, flags := records[offset..offset + 16], records[offset + 16];
      if !Nonzero(oid) || !Less(previous, oid) || flags >= 8 || flags % 4 == 0 {
        return false;
      }
      previous := oid;
      offset := offset + RECORD_BYTES;
    }
    assert all[..|all|] == all;
    return true;
  }

  lemma NothingIsValid()
    ensures ValidRecords([])
  {
  }

  // The strict reader of a shard: it accepts exactly what a writer of valid records writes.
  method ReadShard(value: Option<string>, generation: nat) returns (r: Result<seq<byte>>)
    ensures r == ShardRecords(value, generation)
  {
    if value.None? || |value.value| > NAMED_VALUE_LIMIT {
      return Error;
    }
    var text := value.value;
    forall g: nat, data: seq<byte> | text == ShardText(g, data) && g <= MAX_GENERATION ensures MatchesShard(text) {
      ShardTextMatches(g, data);
    }
    if !MatchesShard(text) {
      return Error;
    }
    forall data: seq<byte> | text == ShardText(generation, data) && generation <= MAX_GENERATION
      ensures Parse(text[2..18], Hexadecimal) == generation && text[19..] == Encode(data)
    {
      ShardTextMatches(generation, data);
    }
    if Parse(text[2..18], Hexadecimal) != generation {
      return Error;
    }
    var decoded := Decode(text[19..]);
    forall data: seq<byte> | text[19..] == Encode(data) ensures decoded == Ok(data) {
      DecodeEncode(data);
    }
    if decoded.Error? || Encode(decoded.value) != text[19..] || |decoded.value| % RECORD_BYTES != 0 {
      return Error;
    }
    var valid := CheckRecords(decoded.value);
    MatchIsShardText(text, generation, decoded.value);
    ShardRecordsMeaning(value, generation, decoded.value);
    return if valid then decoded else Error;
  }

  function PointerText(p: Pointer): string
  {
    [if p.bank == 0 then '0' else '1'] + Numeral(p.generation, 16, Hexadecimal)
  }

  function PointersText(pointers: seq<Pointer>): string
  {
    if pointers == [] then "" else PointerText(pointers[0]) + PointersText(pointers[1..])
  }

  function ManifestText(expiry: nat, pointers: seq<Pointer>): string
  {
    "1|" + Numeral(expiry, 10, Decimal) + "|" + PointersText(pointers)
  }

  function ManifestValue(expiry: int, pointers: seq<Pointer>): Result<string>
  {
    if !(0 <= expiry <= MAX_EPOCH) || |ManifestText(expiry, pointers)| > NAMED_VALUE_LIMIT then Error
    else Ok(ManifestText(expiry, pointers))
  }

  // Seventeen characters a pointer: a bank digit and sixteen hexadecimal digits.
  predicate MatchesPointers(s: string)
    requires |s| % 17 == 0
  {
    s == "" || (s[0] in "01" && AllDigits(s[1..17], Hexadecimal) && MatchesPointers(s[17..]))
  }

  function ParsePointers(s: string): seq<Pointer>
    requires |s| % 17 == 0 && MatchesPointers(s)
  {
    if s == "" then []
    else [Pointer(if s[0] == '0' then 0 else 1, Parse(s[1..17], Hexadecimal))] + ParsePointers(s[17..])
  }

  // re.fullmatch of a version, ten digits, and the pointers of n buckets.
  predicate MatchesManifest(value: string, n: BucketCount) {
    |value| == 13 + 17 * n && value[..2] == "1|" && AllDigits(value[2..12], Decimal)
    && value[12] == '|' && MatchesPointers(value[13..])
  }

  function ReadManifest(value: string, n: BucketCount): Result<(nat, seq<Pointer>)> {
    if MatchesManifest(value, n) then Ok((Parse(value[2..12], Decimal), ParsePointers(value[13..]))) else Error
  }

  ghost predicate ValidManifest(expiry: nat, pointers: seq<Pointer>, n: BucketCount) {
    expiry <= MAX_EPOCH && |pointers| == n && forall p :: p in pointers ==> p.generation <= MAX_GENERATION
  }

  lemma {:induction false} PointersTextLength(pointers: seq<Pointer>)
    requires forall p :: p in pointers ==> p.generation <= MAX_GENERATION
    ensures |PointersText(pointers)| == 17 * |pointers|
    ensures MatchesPointers(PointersText(pointers)) && ParsePointers(PointersText(pointers)) == pointers
  {
    if pointers == [] {
    } else {
      var head, tail := pointers[0], pointers[1..];
      PointersTextLength(tail);
      Widths();
      NumeralLength(head.generation, 16, Hexadecimal);
      ParseNumeral(head.generation, 16, Hexadecimal);
      var s := PointersText(pointers);
      assert s[1..17] == Numeral(head.generation, 16, Hexadecimal) && s[17..] == PointersText(tail);
    }
  }

  lemma {:induction false} ParsePointersText(s: string)
    requires |s| % 17 == 0 && MatchesPointers(s)
    ensures var pointers := ParsePointers(s);
      |s| == 17 * |pointers| && (forall p :: p in pointers ==> p.generation <= MAX_GENERATION)
        && PointersText(pointers) == s
  {
    if s == "" {
    } else {
      ParsePointersText(s[17..]);
      Widths();
      NumeralParse(s[1..17], Hexadecimal);
      NumeralLength(Parse(s[1..17], Hexadecimal), 16, Hexadecimal);
      assert s == [s[0]] + s[1..17] + s[17..];
    }
  }

  lemma ManifestSlices(digits: string, rest: string)
    requires |digits| == 10
    ensures var value := "1|" + digits + "|" + rest;
      |value| == 13 + |rest| && value[..2] == "1|" && value[2..12] == digits && value[12] == '|' && value[13..] == rest
  {
  }

  lemma WrittenManifestReads(n: BucketCount, expiry: nat, pointers: seq<Pointer>)
    requires ValidManifest(expiry, pointers, n)
    ensures ReadManifest(ManifestText(expiry, pointers), n) == Ok((expiry, pointers))
    ensures |ManifestText(expiry, pointers)| == 13 + 17 * n
  {
    Widths();
    NumeralLength(expiry, 10, Decimal);
    ParseNumeral(expiry, 10, Decimal);
    PointersTextLength(pointers);
    ManifestSlices(Numeral(expiry, 10, Decimal), PointersText(pointers));
  }

  lemma ReadManifestWrites(value: string, n: BucketCount)
    requires ReadManifest(value, n).Ok?
    ensures var (expiry, pointers) := ReadManifest(value, n).value;
      ValidManifest(expiry, pointers, n) && ManifestText(expiry, pointers) == value
  {
    hide Numeral, Parse, PointersText, ParsePointers, MatchesPointers;
    Widths();
    NumeralParse(value[2..12], Decimal);
    NumeralLength(Parse(value[2..12], Decimal), 10, Decimal);
    ParsePointersText(value[13..]);
    assert value == value[..2] + value[2..12] + [value[12]] + value[13..];
  }

  // Reading a manifest and writing one undo each other, over exactly the valid manifests.
  lemma ManifestCodec(value: string, n: BucketCount, expiry: nat, pointers: seq<Pointer>)
    ensures ReadManifest(value, n) == Ok((expiry, pointers))
      <==> ValidManifest(expiry, pointers, n) && ManifestValue(expiry, pointers) == Ok(value)
  {
    if ReadManifest(value, n) == Ok((expiry, pointers)) {
      ReadManifestWrites(value, n);
    }
    if ValidManifest(expiry, pointers, n) && ManifestValue(expiry, pointers) == Ok(value) {
      WrittenManifestReads(n, expiry, pointers);
    }
  }

  // Reading a shard and writing one undo each other, over exactly the valid lists of records.
  lemma ShardCodec(value: string, generation: nat, records: seq<byte>)
    ensures ShardRecords(Some(value), generation) == Ok(records)
      <==> |records| % RECORD_BYTES == 0 && ValidRecords(Split(records)) && ShardValue(generation, records) == Ok(value)
  {
    ShardRecordsMeaning(Some(value), generation, records);
  }

  lemma ShardLength(generation: nat, records: seq<byte>)
    requires generation <= MAX_GENERATION
    ensures |ShardText(generation, records)| == 19 + (|records| + 2) / 3 * 4
  {
    Widths();
    NumeralLength(generation, 16, Hexadecimal);
    EncodeAlphabet(records);
  }

  // Every bucket is written unless it has more than 179 records, and reads back as it was written.
  lemma BucketShard(members: seq<Member>, b: nat, n: BucketCount, hash: string -> byte, generation: nat)
    requires generation <= MAX_GENERATION
    ensures ShardValue(generation, Join(Bucket(members, b, n, hash))).Ok? <==> |Bucket(members, b, n, hash)| <= 179
    ensures ShardValue(generation, Join(Bucket(members, b, n, hash))).Ok? ==>
      ShardRecords(Some(ShardText(generation, Join(Bucket(members, b, n, hash)))), generation)
      == Ok(Join(Bucket(members, b, n, hash)))
  {
    hide Encode, Numeral, Bucket, Join, ValidRecords;
    var rs := Bucket(members, b, n, hash);
    BucketBytes(members, b, n, hash);
    ShardLength(generation, Join(rs));
    ShardRecordsMeaning(Some(ShardText(generation, Join(rs))), generation, Join(rs));
  }
}
