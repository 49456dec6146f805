// The gateway's own reader: the algorithm of the policy expression, which validates the records, their order
// and their flags while it scans them once, and decides at the end.
module Policy {
  import opened Wrappers
  import opened Base64
  import opened Masks
  import opened Numerals
  import opened Records
  import opened Members
  import opened NamedValues
  import opened Projections

  // string.Split('|')
  function SplitBars(s: string): (parts: seq<string>)
    ensures |parts| > 0
  {
    if s == "" then [""]
    else
      var rest := SplitBars(s[1..]);
      if s[0] == '|' then [""] + rest else [[s[0]] + rest[0]] + rest[1..]
  }

  lemma {:induction false} SplitPlain(s: string)
    requires '|' !in s
    ensures SplitBars(s) == [s]
  {
    if s == "" {
    } else {
      assert s == [s[0]] + s[1..];
      SplitPlain(s[1..]);
    }
  }

  lemma {:induction false} SplitFirst(a: string, s: string)
    requires '|' !in a
    ensures SplitBars(a + "|" + s) == [a] + SplitBars(s)
  {
    if a == "" {
      assert (a + "|" + s)[1..] == s;
    } else {
      assert a == [a[0]] + a[1..];
      assert (a + "|" + s)[1..] == a[1..] + "|" + s;
      SplitFirst(a[1..], s);
      assert ([a[1..]] + SplitBars(s))[1..] == SplitBars(s);
    }
  }

  function JoinBars(parts: seq<string>): string
    requires |parts| > 0
  {
    if |parts| == 1 then parts[0] else parts[0] + "|" + JoinBars(parts[1..])
  }

  lemma {:induction false} JoinSplitBars(s: string)
    ensures JoinBars(SplitBars(s)) == s
    ensures forall p :: p in SplitBars(s) ==> '|' !in p
  {
    if s == "" {
    } else {
      var rest := SplitBars(s[1..]);
      JoinSplitBars(s[1..]);
      assert s == [s[0]] + s[1..];
      if s[0] == '|' {
        assert ([""] + rest)[1..] == rest;
      } else {
        var parts := [[s[0]] + rest[0]] + rest[1..];
        assert parts[1..] == rest[1..] && rest[0] in rest;
        forall p | p in parts ensures '|' !in p {
          if p != parts[0] {
            assert p in rest[1..] && p in rest;
          }
        }
      }
    }
  }

  // Three parts are what two bars separate.
  lemma ThreeParts(s: string, a: string, b: string, c: string)
    requires '|' !in a && '|' !in b && '|' !in c
    ensures SplitBars(s) == [a, b, c] <==> s == a + "|" + b + "|" + c
  {
    JoinSplitBars(s);
    if SplitBars(s) == [a, b, c] {
      assert [a, b, c][1..] == [b, c] && [b, c][1..] == [c];
      assert JoinBars([c]) == c && JoinBars([b, c]) == b + "|" + c;
      assert a + "|" + (b + "|" + c) == a + "|" + b + "|" + c;
    }
    if s == a + "|" + b + "|" + c {
      assert s == a + "|" + (b + "|" + c);
      SplitFirst(a, b + "|" + c);
      SplitFirst(b, c);
      SplitPlain(c);
    }
  }

  // ---- The owner variable ----

  predicate IsOwnerText(s: string) {
    |s| == 34 && s[0] in "ua" && s[1] == '|' && AllDigits(s[2..], Hexadecimal)
  }

  // Guid.ParseExact(s, "N"), as bytes in printing order.
  function ParseBytes(s: string): (data: seq<byte>)
    requires |s| % 2 == 0 && AllDigits(s, Hexadecimal)
    ensures |data| == |s| / 2
  {
    if s == "" then []
    else
      assert s[..1] + [s[1]] == s[..2];
      [ValueOf(s[0]) * 16 + ValueOf(s[1])] + ParseBytes(s[2..])
  }

  function OwnerText(owner: Owner): string {
    [if owner.kind.User? then 'u' else 'a'] + "|" + Hex(owner.oid)
  }

  lemma TwoDigits(b: byte)
    ensures Numeral(b, 2, Hexadecimal) == [DigitOf(b / 16), DigitOf(b % 16)]
    ensures IsDigit(DigitOf(b / 16), Hexadecimal) && IsDigit(DigitOf(b % 16), Hexadecimal)
    ensures ValueOf(DigitOf(b / 16)) == b / 16 && ValueOf(DigitOf(b % 16)) == b % 16
  {
    assert Numeral(b / 16, 1, Hexadecimal) == [DigitOf(b / 16)];
  }

  lemma {:induction false} ParseHex(data: seq<byte>)
    ensures |Hex(data)| == 2 * |data| && AllDigits(Hex(data), Hexadecimal) && ParseBytes(Hex(data)) == data
  {
    if data == [] {
    } else {
      TwoDigits(data[0]);
      ParseHex(data[1..]);
      assert Hex(data)[2..] == Hex(data[1..]);
    }
  }

  lemma DigitOfValue(c: char)
    requires IsDigit(c, Hexadecimal)
    ensures ValueOf(c) < 16 && DigitOf(ValueOf(c)) == c
  {
  }

  lemma {:induction false} HexParse(s: string)
    requires |s| % 2 == 0 && AllDigits(s, Hexadecimal)
    ensures Hex(ParseBytes(s)) == s
  {
    hide ValueOf, DigitOf, IsDigit, Numeral;
    if s == "" {
    } else {
      var b := ValueOf(s[0]) * 16 + ValueOf(s[1]);
      DigitOfValue(s[0]);
      DigitOfValue(s[1]);
      TwoDigits(b);
      HexParse(s[2..]);
      assert s == [s[0], s[1]] + s[2..];
    }
  }

  // The owner texts the expression accepts are exactly those of an owner with a nonempty ID.
  lemma OwnerTextMeaning(s: string, owner: Owner)
    ensures s == OwnerText(owner) <==>
      IsOwnerText(s) && ParseBytes(s[2..]) == owner.oid && (s[0] == 'a' <==> owner.kind.Application?)
  {
    ParseHex(owner.oid);
    if s == OwnerText(owner) {
      assert s[2..] == Hex(owner.oid);
    }
    if IsOwnerText(s) && ParseBytes(s[2..]) == owner.oid && (s[0] == 'a' <==> owner.kind.Application?) {
      HexParse(s[2..]);
      assert s == [s[0]] + [s[1]] + s[2..];
    }
  }

  // ---- One pass over the records ----

  lemma {:induction false} LessAtDifference(a: seq<byte>, b: seq<byte>, k: nat)
    requires |a| == |b| && k < |a| && a[..k] == b[..k] && a[k] != b[k]
    ensures Less(a, b) <==> a[k] < b[k]
  {
    if k == 0 {
    } else {
      assert a[0] == a[..k][0] && b[0] == b[..k][0];
      assert a[1..][..k - 1] == a[..k][1..] && b[1..][..k - 1] == b[..k][1..];
      LessAtDifference(a[1..], b[1..], k - 1);
    }
  }

  // The inner loop, over one record's ID: is it the owner's, is it nonzero, and how does it compare with the last?
  method CompareIds(oid: seq<byte>, expected: seq<byte>, previous: seq<byte>)
    returns (same: bool, nonzero: bool, order: int)
    requires |oid| == |expected| == 16 && (previous == [] || |previous| == 16)
    ensures same <==> oid == expected
    ensures nonzero <==> Nonzero(oid)
    ensures previous != [] ==> (order > 0 <==> Less(previous, oid))
  {
    same, nonzero, order := true, false, 0;
    for j := 0 to 16
      invariant same <==> oid[..j] == expected[..j]
      invariant nonzero <==> exists i :: 0 <= i < j && oid[i] != 0
      invariant previous != [] && order == 0 ==> previous[..j] == oid[..j]
      invariant previous != [] && order != 0 ==>
        exists k :: 0 <= k < j && previous[..k] == oid[..k] && previous[k] != oid[k]
          && order == oid[k] as int - previous[k] as int
    {
      same := same && oid[j] == expected[j];
      nonzero := nonzero || oid[j] != 0;
      if previous != [] && order == 0 {
        order := oid[j] as int - previous[j] as int;
      }
    }
    if previous != [] {
      if order == 0 {
        assert previous == oid;
        LessIrreflexive(oid);
      } else {
        var k :| 0 <= k < 16 && previous[..k] == oid[..k] && previous[k] != oid[k]
          && order == oid[k] as int - previous[k] as int;
        LessAtDifference(previous, oid, k);
      }
    }
    assert oid[..16] == oid && expected[..16] == expected;
  }

  // What the scan remembers of some leading records: the flags of the owner's record, or none.
  ghost predicate Remembers(rs: seq<Record>, owner: Owner, matched: byte) {
    if exists i :: 0 <= i < |rs| && Matches(rs[i], owner) then
      exists i :: 0 <= i < |rs| && Matches(rs[i], owner) && matched == rs[i].flags
    else matched == 0
  }

  lemma NothingRemembered(owner: Owner)
    ensures Remembers([], owner, 0)
  {
  }

  lemma RemembersNext(rs: seq<Record>, r: Record, owner: Owner, matched: byte)
    requires Remembers(rs, owner, matched)
    ensures Remembers(rs + [r], owner, if Matches(r, owner) then r.flags else matched)
  {
    var all := rs + [r];
    if Matches(r, owner) {
      assert all[|rs|] == r;
    } else if exists i :: 0 <= i < |rs| && Matches(rs[i], owner) {
      var i :| 0 <= i < |rs| && Matches(rs[i], owner) && matched == rs[i].flags;
      assert all[i] == rs[i];
    }
  }

  // The decision the expression takes at the end of the scan.
  function Concluded(matched: byte, expiry: int, now: int): Decision {
    if IsDirect(matched) then Direct
    else if !IsGraph(matched) then Absent
    else if now < expiry then Graph
    else Expired
  }

  // Over valid records, remembering the match decides what searching for it does.
  lemma ConcludedMeaning(rs: seq<Record>, owner: Owner, matched: byte, expiry: int, now: int)
    requires ValidRecords(rs) && Remembers(rs, owner, matched)
    ensures Concluded(matched, expiry, now) == Judge(rs, owner, expiry, now)
  {
    if exists i :: 0 <= i < |rs| && Matches(rs[i], owner) {
      var i :| 0 <= i < |rs| && Matches(rs[i], owner) && matched == rs[i].flags;
      JudgeFound(rs, i, owner, expiry, now);
      assert rs[i] in rs;
    } else {
      JudgeAbsent(rs, owner, expiry, now);
    }
  }

  // The scan: None as soon as a record is malformed or out of order, and otherwise the remembered flags.
  method Scan(records: seq<byte>, owner: Owner) returns (r: Option<byte>)
    requires |records| % RECORD_BYTES == 0
    ensures r.None? <==> !ValidRecords(Split(records))
    ensures r.Some? ==> Remembers(Split(records), owner, r.value)
  {
    hide Split, ValidRecords, Remembers, Less, LittleEndian, Nonzero;
    ghost var all := Split(records);
    SplitLength(records);
    NothingIsValid();
    NothingRemembered(owner);
    var matched, offset := 0, 0;
    var expected := LittleEndian(owner.oid);
    while offset < |records|
      invariant 0 <= offset <= |records| && offset % 17 == 0
      invariant ValidRecords(all[..offset / 17]) && Remembers(all[..offset / 17], owner, matched)
    {
      ghost var i := offset / 17;
      SplitAt(records, i);
      ValidGrows(all, i);
      RemembersNext(all[..i], all[i], owner, matched);
      assert all[..i + 1] == all[..i] + [all[i]];
      var flags := records[offset + 16];
      if flags >= 8 || flags % 4 == 0 {
        return None;
      }
      var previous := if offset > 0 then records[offset - 17..offset - 1] else [];
      if i > 0 {
        SplitAt(records, i - 1);
      }
      var same, nonzero, order := CompareIds(records[offset..offset + 16], expected, previous);
      if !nonzero || (offset > 0 && order <= 0) {
        return None;
      }
      if same && IsApplication(flags) == owner.kind.Application? {
        matched := flags;
      }
      offset := offset + 17;
    }
    assert all[..|all|] == all;
    return Some(matched);
  }

  // ---- The manifest and the shard ----

  // A named value as it is substituted into the expression; one that is missing stands for no text.
  function Substituted(value: Option<string>): string {
    if value.Some? then value.value else ""
  }

  // The expression's checks of the manifest's three parts.
  predicate ManifestParts(parts: seq<string>, n: BucketCount) {
    |parts| == 3 && parts[0] == "1" && |parts[1]| == 10 && AllDigits(parts[1], Decimal)
    && |parts[2]| == 17 * n && MatchesPointers(parts[2])
  }

  lemma {:induction false} PointersHaveNoBar(s: string)
    requires |s| % 17 == 0 && MatchesPointers(s)
    ensures '|' !in s
  {
    if s == "" {
    } else {
      PointersHaveNoBar(s[17..]);
      assert s == [s[0]] + s[1..17] + s[17..];
    }
  }

  lemma ManifestPartsMeaning(m: string, n: BucketCount)
    ensures ManifestParts(SplitBars(m), n) <==> MatchesManifest(m, n)
    ensures MatchesManifest(m, n) ==> SplitBars(m) == ["1", m[2..12], m[13..]]
  {
    var parts := SplitBars(m);
    if ManifestParts(parts, n) {
      JoinSplitBars(m);
      assert parts == ["1", parts[1], parts[2]];
      ThreeParts(m, "1", parts[1], parts[2]);
      assert m == "1|" + parts[1] + "|" + parts[2];
      ManifestSlices(parts[1], parts[2]);
    }
    if MatchesManifest(m, n) {
      PointersHaveNoBar(m[13..]);
      assert m == "1" + "|" + m[2..12] + "|" + m[13..];
      ThreeParts(m, "1", m[2..12], m[13..]);
    }
  }

  lemma {:induction false} PointerAt(s: string, b: nat)
    requires |s| % 17 == 0 && MatchesPointers(s) && 17 * b < |s|
    ensures |ParsePointers(s)| == |s| / 17 && s[17 * b] in "01" && AllDigits(s[17 * b + 1..17 * b + 17], Hexadecimal)
    ensures ParsePointers(s)[b]
         == Pointer(if s[17 * b] == '0' then 0 else 1, Parse(s[17 * b + 1..17 * b + 17], Hexadecimal))
  {
    hide Parse, AllDigits;
    var rest := s[17..];
    assert ParsePointers(s) == [ParsePointers(s)[0]] + ParsePointers(rest);
    if b == 0 {
      PointersLength(rest);
    } else {
      PointerAt(rest, b - 1);
      BehindPointer(s, 17 * (b - 1));
    }
  }

  lemma {:induction false} PointersLength(s: string)
    requires |s| % 17 == 0 && MatchesPointers(s)
    ensures |ParsePointers(s)| == |s| / 17
  {
    if s == "" {
    } else {
      PointersLength(s[17..]);
    }
  }

  lemma BehindPointer(s: string, i: nat)
    requires i + 34 <= |s|
    ensures s[17..][i] == s[i + 17] && s[17..][i + 1..i + 17] == s[i + 18..i + 34]
  {
  }

  // The expression's checks of the shard's three parts: the generation's own digits, and canonical base64.
  predicate ShardParts(parts: seq<string>, generation: string) {
    |parts| == 3 && parts[0] == "1" && parts[1] == generation && Canonical(DecodeLoosely(parts[2]), parts[2])
  }

  lemma EncodedShardParts(shard: string, generation: string, data: seq<byte>)
    requires '|' !in generation
    ensures SplitBars(shard) == ["1", generation, Encode(data)] <==> shard == "1|" + generation + "|" + Encode(data)
  {
    hide Encode, SplitBars;
    EncodeAlphabet(data);
    assert '|' !in Encode(data) by {
      assert !IsSymbol('|');
    }
    ThreeParts(shard, "1", generation, Encode(data));
    assert "1" + "|" + generation + "|" + Encode(data) == "1|" + generation + "|" + Encode(data);
  }

  lemma ShardPartsMeaning(shard: string, generation: string, data: seq<byte>)
    requires |generation| == 16 && AllDigits(generation, Hexadecimal)
    ensures ShardParts(SplitBars(shard), generation) && DecodeLoosely(SplitBars(shard)[2]) == Ok(data)
      <==> shard == ShardText(Parse(generation, Hexadecimal), data)
  {
    hide Numeral, Parse, SplitBars, Encode, DecodeLoosely;
    var parts := SplitBars(shard);
    NumeralParse(generation, Hexadecimal);
    EncodedShardParts(shard, generation, data);
    CanonicalDecoding(Encode(data), data);
    if ShardParts(parts, generation) && DecodeLoosely(parts[2]) == Ok(data) {
      assert parts == ["1", generation, Encode(data)];
    }
  }

  // The expression's reading of a shard, up to the scan of its records.
  method ReadSubstituted(value: Option<string>, generation: string) returns (r: Option<seq<byte>>)
    requires |generation| == 16 && AllDigits(generation, Hexadecimal)
    ensures r.Some? ==> IsShardText(value, Parse(generation, Hexadecimal), r.value)
    ensures r.None? ==> forall data :: !IsShardText(value, Parse(generation, Hexadecimal), data)
  {
    var shard := Substituted(value);
    forall data ensures IsShardText(value, Parse(generation, Hexadecimal), data) ==>
      ShardParts(SplitBars(shard), generation) && DecodeLoosely(SplitBars(shard)[2]) == Ok(data)
    {
      ShardPartsMeaning(shard, generation, data);
    }
    hide SplitBars, ShardText;
    if |shard| > NAMED_VALUE_LIMIT {
      return None;
    }
    var parts := SplitBars(shard);
    if |parts| != 3 || parts[0] != "1" || parts[1] != generation {
      return None;
    }
    var decoded := DecodeLoosely(parts[2]);
    if decoded.Error? || |decoded.value| % 17 != 0 || Encode(decoded.value) != parts[2] {
      return None;
    }
    ShardPartsMeaning(shard, generation, decoded.value);
    NoShardIsEmpty(Parse(generation, Hexadecimal), decoded.value);
    return Some(decoded.value);
  }

  lemma NoShardIsEmpty(generation: nat, data: seq<byte>)
    ensures ShardText(generation, data) != ""
  {
  }

  ghost predicate IsShardText(value: Option<string>, generation: nat, data: seq<byte>) {
    value == Some(ShardText(generation, data)) && |value.value| <= NAMED_VALUE_LIMIT && |data| % RECORD_BYTES == 0
  }

  // Reading the text and scanning the records together accept exactly the shards of that generation.
  lemma ShardAccepted(value: Option<string>, generation: string, data: seq<byte>)
    requires |generation| == 16 && AllDigits(generation, Hexadecimal)
    requires IsShardText(value, Parse(generation, Hexadecimal), data)
    ensures ShardRecords(value, Parse(generation, Hexadecimal))
         == if ValidRecords(Split(data)) then Ok(data) else Error
  {
    var g := Parse(generation, Hexadecimal);
    NumeralParse(generation, Hexadecimal);
    NumeralLength(g, 16, Hexadecimal);
    Widths();
    hide Numeral, Parse, Split, ValidRecords;
    ShardRecordsMeaning(value, g, data);
    if ShardRecords(value, g).Ok? {
      var other := ShardRecords(value, g).value;
      var prefix := "1|" + Numeral(g, 16, Hexadecimal) + "|";
      assert value.value[|prefix|..] == Encode(data) && value.value[|prefix|..] == Encode(other);
      EncodeInjective(data, other);
    }
  }

  // ---- The whole expression ----

  // The shard, its records, and the decision they come to.
  method EvaluateShard(value: Option<string>, generation: string, owner: Owner, expiry: int, now: int)
    returns (d: Decision)
    requires |generation| == 16 && AllDigits(generation, Hexadecimal)
    ensures d == JudgeRead(ShardRecords(value, Parse(generation, Hexadecimal)), owner, expiry, now)
  {
    hide Parse, ShardRecords, JudgeRead, IsShardText, Concluded, ValidRecords, Split, AllDigits;
    var read := ReadSubstituted(value, generation);
    if read.None? {
      Unreadable(value, Parse(generation, Hexadecimal), owner, expiry, now);
      return Invalid;
    }
    ShardAccepted(value, generation, read.value);
    HasWholeRecords(value, Parse(generation, Hexadecimal), read.value);
    var matched := Scan(read.value, owner);
    if matched.None? {
      NoRecords(owner, expiry, now);
      return Invalid;
    }
    ConcludedMeaning(Split(read.value), owner, matched.value, expiry, now);
    JudgesSplit(read.value, owner, expiry, now);
    return Concluded(matched.value, expiry, now);
  }

  // The bucket of an owner, from the digits of the owner variable: the first byte of their hash, masked.
  method MaskedBucket(site: Site, digits: string) returns (bucket: nat)
    ensures forall owner: Owner :: digits == Hex(owner.oid) ==> bucket == site.BucketOf(owner)
  {
    hide Hex, BucketFor, Masked;
    MaskedRemainder(site.hash(digits), site.count);
    bucket := Masked(site.hash(digits), site.count);
    forall owner: Owner | digits == Hex(owner.oid) ensures bucket == site.BucketOf(owner) {
      BucketMask(owner.oid, site.count, site.hash);
    }
  }

  // Once the owner variable names an owner: the manifest, and the shard of the owner's bucket.
  method Evaluate(site: Site, values: Values, digits: string, owner: Owner, now: int) returns (d: Decision)
    requires digits == Hex(owner.oid)
    ensures d == Decide(site, values, owner, now)
  {
    hide JudgeRead, ShardRecords, Parse, ParsePointers, MatchesPointers, SplitBars, BucketFor, Hex;
    var bucket := MaskedBucket(site, digits);
    var manifest := Substituted(Get(values, site.ManifestName()));
    ManifestPartsMeaning(manifest, site.count);
    if |manifest| > NAMED_VALUE_LIMIT {
      return Invalid;
    }
    var parts := SplitBars(manifest);
    if !ManifestParts(parts, site.count) {
      return Invalid;
    }
    PointerAt(parts[2], bucket);
    var bank: Bank := if parts[2][bucket * 17] == '0' then 0 else 1;
    var generation := parts[2][bucket * 17 + 1..bucket * 17 + 17];
    d := EvaluateShard(Get(values, site.ShardName(bucket, bank)), generation, owner, Parse(parts[1], Decimal), now);
  }

  lemma Unreadable(value: Option<string>, generation: nat, owner: Owner, expiry: int, now: int)
    requires forall data :: !IsShardText(value, generation, data)
    ensures JudgeRead(ShardRecords(value, generation), owner, expiry, now) == Invalid
  {
    if ShardRecords(value, generation).Ok? {
      assert IsShardText(value, generation, ShardRecords(value, generation).value);
    }
  }

  lemma HasWholeRecords(value: Option<string>, generation: nat, data: seq<byte>)
    requires IsShardText(value, generation, data)
    ensures |data| % RECORD_BYTES == 0
  {
  }

  lemma NoRecords(owner: Owner, expiry: int, now: int)
    ensures JudgeRead(Error, owner, expiry, now) == Invalid
  {
  }

  lemma JudgesSplit(data: seq<byte>, owner: Owner, expiry: int, now: int)
    requires |data| % RECORD_BYTES == 0
    ensures JudgeRead(Ok(data), owner, expiry, now) == Judge(Split(data), owner, expiry, now)
  {
  }

  // The expression: for the text of an owner it decides what a lookup of that owner decides, in every store,
  // and for any other text it decides that there is no membership.
  method MembershipExpression(site: Site, values: Values, text: string, now: int) returns (d: Decision)
    ensures forall owner: Owner :: text == OwnerText(owner) ==> d == Decide(site, values, owner, now)
    ensures (forall owner: Owner :: text != OwnerText(owner)) ==> d == Absent
  {
    forall owner: Owner ensures text == OwnerText(owner) <==>
      IsOwnerText(text) && ParseBytes(text[2..]) == owner.oid && (text[0] == 'a' <==> owner.kind.Application?)
    {
      OwnerTextMeaning(text, owner);
    }
    if !IsOwnerText(text) {
      return Absent;
    }
    var oid := ParseBytes(text[2..]);
    if !Nonzero(oid) {
      return Absent;
    }
    var owner := Owner(oid, if text[0] == 'a' then Application else User);
    assert text == OwnerText(owner);
    assert text[2..] == Hex(owner.oid);
    d := Evaluate(site, values, text[2..], owner, now);
  }
}
