// What is stored, spelled out: the alphabets, the order of bits and bytes, and the texts, each said on its own.
module StoredForm {
  import opened Wrappers
  import opened Base64
  import opened Numerals
  import opened Records
  import opened Members
  import opened NamedValues
  import opened Projections

  // ---- Alphabets ----

  // Section 4 of RFC 4648: capital letters, small letters, digits, plus and slash.
  lemma SymbolTable(n: nat)
    requires n < 63
    ensures Symbol(0) == 'A' && Symbol(25) == 'Z' && Symbol(26) == 'a' && Symbol(51) == 'z' && Symbol(52) == '0'
    ensures Symbol(61) == '9' && Symbol(62) == '+' && Symbol(63) == '/'
    ensures n !in {25, 51, 61, 62} ==> Symbol(n + 1) as int == Symbol(n) as int + 1
  {
  }

  lemma DigitTable(n: nat)
    requires n < 15
    ensures DigitOf(0) == '0' && DigitOf(9) == '9' && DigitOf(10) == 'a' && DigitOf(15) == 'f'
    ensures n != 9 ==> DigitOf(n + 1) as int == DigitOf(n) as int + 1
  {
  }

  // ---- Bits and bytes ----

  // Four symbols hold three bytes, the first byte highest.
  lemma GroupBits(a: byte, b: byte, c: byte)
    ensures var s := EncodeGroup([a, b, c]);
      ((Sextet(s[0]) * 64 + Sextet(s[1])) * 64 + Sextet(s[2])) * 64 + Sextet(s[3]) == (a * 256 + b) * 256 + c
  {
    hide Symbol, IsSymbol, Sextet, EncodeGroup;
    EncodedSymbols(a, b, c);
    SextetOfSymbol(a / 4);
    SextetOfSymbol(a % 4 * 16 + b / 16);
    SextetOfSymbol(b % 16 * 4 + c / 64);
    SextetOfSymbol(c % 64);
  }

  // With padding, the bits that no byte needs are zero.
  lemma PaddedBits(a: byte, b: byte)
    ensures var s := EncodeGroup([a, b]);
      s[3] == '=' && (Sextet(s[0]) * 64 + Sextet(s[1])) * 64 + Sextet(s[2]) == (a * 256 + b) * 4
    ensures var s := EncodeGroup([a]); s[2] == s[3] == '=' && Sextet(s[0]) * 64 + Sextet(s[1]) == a * 16
  {
    hide Symbol, IsSymbol, Sextet;
    SextetOfSymbol(a / 4);
    SextetOfSymbol(a % 4 * 16);
    SextetOfSymbol(a % 4 * 16 + b / 16);
    SextetOfSymbol(b % 16 * 4);
  }

  // A .NET Guid stores its first three fields, of four, two and two bytes, lowest byte first.
  lemma GuidOrder(oid: seq<byte>)
    requires |oid| == 16
    ensures var le := LittleEndian(oid);
      && (forall i :: 0 <= i < 4 ==> le[i] == oid[3 - i]) && (forall i :: 4 <= i < 6 ==> le[i] == oid[9 - i])
      && (forall i :: 6 <= i < 8 ==> le[i] == oid[13 - i]) && le[8..] == oid[8..]
  {
  }

  // Direct is the lowest bit of the flags, graph the second and application the third.
  lemma FlagBits(m: Member, flags: byte)
    ensures Flags(m)
         == (if m.direct then 1 else 0) + (if m.graph then 2 else 0) + (if m.owner.kind == Application then 4 else 0)
    ensures flags < 8 ==>
      flags == (if IsDirect(flags) then 1 else 0) + (if IsGraph(flags) then 2 else 0)
               + (if IsApplication(flags) then 4 else 0)
    ensures ValidFlags(flags) <==> flags in {1, 2, 3, 5, 6, 7}
  {
  }

  // ---- Texts ----

  lemma ShardForm(generation: nat, records: seq<byte>)
    requires generation <= MAX_GENERATION
    ensures var text := ShardText(generation, records);
      && |text| >= 19 && text[..2] == "1|" && text[18] == '|' && text[19..] == Encode(records)
      && AllDigits(text[2..18], Hexadecimal) && Parse(text[2..18], Hexadecimal) == generation
  {
    Widths();
    NumeralLength(generation, 16, Hexadecimal);
    ParseNumeral(generation, 16, Hexadecimal);
    assert ShardText(generation, records)[2..18] == Numeral(generation, 16, Hexadecimal);
  }

  lemma ManifestForm(expiry: nat, pointers: seq<Pointer>, b: nat)
    requires expiry <= MAX_EPOCH && b < |pointers| && forall p :: p in pointers ==> p.generation <= MAX_GENERATION
    ensures var text := ManifestText(expiry, pointers);
      && |text| == 13 + 17 * |pointers| && text[..2] == "1|" && text[12] == '|'
      && AllDigits(text[2..12], Decimal) && Parse(text[2..12], Decimal) == expiry
      && IsPointerText(text[13..][17 * b..17 * b + 17], pointers[b])
  {
    Widths();
    NumeralLength(expiry, 10, Decimal);
    ParseNumeral(expiry, 10, Decimal);
    PointersTextLength(pointers);
    PointerForm(pointers, b);
    ManifestSlices(Numeral(expiry, 10, Decimal), PointersText(pointers));
  }

  predicate IsPointerText(text: string, p: Pointer) {
    |text| == 17 && text[0] == (if p.bank == 0 then '0' else '1') && AllDigits(text[1..], Hexadecimal)
    && Parse(text[1..], Hexadecimal) == p.generation
  }

  lemma OnePointer(p: Pointer)
    requires p.generation <= MAX_GENERATION
    ensures IsPointerText(PointerText(p), p)
  {
    Widths();
    NumeralLength(p.generation, 16, Hexadecimal);
    ParseNumeral(p.generation, 16, Hexadecimal);
    assert PointerText(p)[1..] == Numeral(p.generation, 16, Hexadecimal);
  }

  lemma {:induction false} PointerForm(pointers: seq<Pointer>, b: nat)
    requires b < |pointers| && forall p :: p in pointers ==> p.generation <= MAX_GENERATION
    ensures |PointersText(pointers)| == 17 * |pointers|
    ensures IsPointerText(PointersText(pointers)[17 * b..17 * b + 17], pointers[b])
  {
    hide IsPointerText, PointerText, MatchesPointers, ParsePointers;
    var (head, rest) := (PointerText(pointers[0]), PointersText(pointers[1..]));
    assert PointersText(pointers) == head + rest;
    PointersTextLength(pointers);
    PointersTextLength(pointers[1..]);
    OnePointer(pointers[0]);
    PointerLength(pointers[0]);
    hide PointersText;
    if b == 0 {
      assert (head + rest)[..17] == head;
    } else {
      PointerForm(pointers[1..], b - 1);
      Behind(head, rest, 17 * (b - 1));
    }
  }

  lemma PointerLength(p: Pointer)
    requires IsPointerText(PointerText(p), p)
    ensures |PointerText(p)| == 17
  {
  }

  lemma Behind(head: string, rest: string, i: nat)
    requires |head| == 17 && i + 17 <= |rest|
    ensures (head + rest)[17 + i..34 + i] == rest[i..i + 17]
  {
  }

  // A bucket's two banks have a name each, and the manifest another, all of the group.
  lemma NameForm(site: Site, bucket: nat, bank: Bank)
    requires bucket < 128
    ensures site.ManifestName() == "mosaic-cc-probe-v1-" + site.group + "-manifest"
    ensures site.ShardName(bucket, bank)
         == "mosaic-cc-probe-v1-" + site.group + "-" + [DigitOf(bucket / 16), DigitOf(bucket % 16)]
            + (if bank == 0 then "-0" else "-1")
  {
    assert Numeral(bucket / 16, 1, Hexadecimal) == [DigitOf(bucket / 16)];
    assert Numeral(bucket, 2, Hexadecimal) == [DigitOf(bucket / 16), DigitOf(bucket % 16)];
    assert "-" + [if bank == 0 then '0' else '1'] == if bank == 0 then "-0" else "-1";
    assert forall a: string, b: string, c: string :: (a + b) + c == a + (b + c);
  }

  // ---- One shard ----

  const SAMPLE_OID: seq<byte> := [0xfe, 0xdc, 0xba, 0x98, 0x76, 0x54, 0x32, 0x10,
                                  0x01, 0x23, 0x45, 0x67, 0x89, 0xab, 0xcd, 0xef]

  lemma SampleBytes()
    ensures LittleEndian(SAMPLE_OID) + [5]
         == [0x98, 0xba, 0xdc] + [0xfe, 0x54, 0x76] + [0x10, 0x32, 0x01] + [0x23, 0x45, 0x67] + [0x89, 0xab, 0xcd]
           + [0xef, 5]
  {
  }

  lemma SampleSymbols()
    ensures Symbol(38) == 'm' && Symbol(11) == 'L' && Symbol(43) == 'r' && Symbol(28) == 'c'
    ensures Symbol(63) == '/' && Symbol(37) == 'l' && Symbol(17) == 'R' && Symbol(54) == '2'
    ensures Symbol(4) == 'E' && Symbol(3) == 'D' && Symbol(8) == 'I' && Symbol(1) == 'B'
    ensures Symbol(8) == 'I' && Symbol(52) == '0' && Symbol(21) == 'V' && Symbol(39) == 'n'
    ensures Symbol(34) == 'i' && Symbol(26) == 'a' && Symbol(47) == 'v' && Symbol(13) == 'N'
    ensures Symbol(59) == '7' && Symbol(48) == 'w' && Symbol(20) == 'U'
  {
  }

  lemma SampleGroup1()
    ensures EncodeGroup([0x98, 0xba, 0xdc]) == "mLrc"
  {
    hide Symbol, EncodeGroup;
    SampleSymbols();
    EncodedSymbols(0x98, 0xba, 0xdc);
  }

  lemma SampleGroup2()
    ensures EncodeGroup([0xfe, 0x54, 0x76]) == "/lR2"
  {
    hide Symbol, EncodeGroup;
    SampleSymbols();
    EncodedSymbols(0xfe, 0x54, 0x76);
  }

  lemma SampleGroup3()
    ensures EncodeGroup([0x10, 0x32, 0x01]) == "EDIB"
  {
    hide Symbol, EncodeGroup;
    SampleSymbols();
    EncodedSymbols(0x10, 0x32, 0x01);
  }

  lemma SampleGroup4()
    ensures EncodeGroup([0x23, 0x45, 0x67]) == "I0Vn"
  {
    hide Symbol, EncodeGroup;
    SampleSymbols();
    EncodedSymbols(0x23, 0x45, 0x67);
  }

  lemma SampleGroup5()
    ensures EncodeGroup([0x89, 0xab, 0xcd]) == "iavN"
  {
    hide Symbol, EncodeGroup;
    SampleSymbols();
    EncodedSymbols(0x89, 0xab, 0xcd);
  }

  lemma SampleGroup6()
    ensures EncodeGroup([0xef, 5]) == "7wU="
  {
    hide Symbol;
    SampleSymbols();
  }

  lemma EncodeNext(group: seq<byte>, rest: seq<byte>)
    requires |group| == 3 && rest != []
    ensures Encode(group + rest) == EncodeGroup(group) + Encode(rest)
  {
    assert (group + rest)[..3] == group && (group + rest)[3..] == rest;
  }

  lemma SampleEncoded()
    ensures Encode(LittleEndian(SAMPLE_OID) + [5]) == "mLrc/lR2EDIBI0VniavN7wU="
  {
    hide EncodeGroup, LittleEndian, Encode;
    SampleBytes();
    var (a, b, c) := ([0x98, 0xba, 0xdc], [0xfe, 0x54, 0x76], [0x10, 0x32, 0x01]);
    var rest := [0x23, 0x45, 0x67] + [0x89, 0xab, 0xcd] + [0xef, 5];
    SampleEnd();
    SampleGroup1();
    SampleGroup2();
    SampleGroup3();
    EncodeNext(c, rest);
    EncodeNext(b, c + rest);
    EncodeNext(a, b + (c + rest));
    assert LittleEndian(SAMPLE_OID) + [5] == a + (b + (c + rest));
  }

  lemma SampleEnd()
    ensures Encode([0x23, 0x45, 0x67] + [0x89, 0xab, 0xcd] + [0xef, 5]) == "I0VniavN7wU="
  {
    hide EncodeGroup;
    SampleGroup4();
    SampleGroup5();
    SampleGroup6();
    var (d, e, f) := ([0x23, 0x45, 0x67], [0x89, 0xab, 0xcd], [0xef, 5]);
    assert Encode(f) == EncodeGroup(f);
    hide Encode;
    EncodeNext(e, f);
    EncodeNext(d, e + f);
    assert d + e + f == d + (e + f);
  }

  lemma {:induction false} Zeros(width: nat)
    requires width > 0
    ensures |Numeral(0, width, Hexadecimal)| == width
    ensures forall c :: c in Numeral(0, width, Hexadecimal) ==> c == '0'
  {
    if width == 1 {
    } else {
      Zeros(width - 1);
    }
  }

  lemma AllZeros(s: string)
    requires |s| == 14 && forall c :: c in s ==> c == '0'
    ensures s == "00000000000000"
  {
    assert forall i :: 0 <= i < 14 ==> s[i] in s;
  }

  lemma NumeralNext(n: nat, width: nat)
    requires width > 1
    ensures Numeral(n, width, Hexadecimal) == Numeral(n / 16, width - 1, Hexadecimal) + [DigitOf(n % 16)]
  {
  }

  lemma SampleNumeral()
    ensures Numeral(42, 16, Hexadecimal) == "000000000000002a"
  {
    hide Numeral;
    Zeros(14);
    NumeralNext(2, 15);
    NumeralNext(42, 16);
    AllZeros(Numeral(0, 14, Hexadecimal));
    assert DigitOf(2) == '2' && DigitOf(10) == 'a';
  }

  // The shard, at generation 42, of one record: a direct member that is an application.
  lemma SampleShard()
    ensures ShardText(42, Join([Record(LittleEndian(SAMPLE_OID), 5)])) == "1|000000000000002a|mLrc/lR2EDIBI0VniavN7wU="
  {
    hide Encode, Numeral, LittleEndian;
    SampleEncoded();
    SampleNumeral();
    var record := Record(LittleEndian(SAMPLE_OID), 5);
    assert [record][1..] == [];
    assert Join([record]) == record.oid + [record.flags] + Join([]);
    assert Join([record]) == LittleEndian(SAMPLE_OID) + [5];
  }
}
