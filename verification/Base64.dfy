// Base64 as in section 4 of RFC 4648, and the two decoders that read it here.
module Base64 {
  import opened Wrappers

  type byte = n: nat | n < 256

  function Symbol(n: nat): (c: char)
    requires n < 64
    ensures IsSymbol(c)
  {
    if n < 26 then 'A' + n as char
    else if n < 52 then 'a' + (n - 26) as char
    else if n < 62 then '0' + (n - 52) as char
    else if n == 62 then '+'
    else '/'
  }

  predicate IsSymbol(c: char) {
    'A' <= c <= 'Z' || 'a' <= c <= 'z' || '0' <= c <= '9' || c == '+' || c == '/'
  }

  function Sextet(c: char): (n: nat)
    requires IsSymbol(c)
    ensures n < 64 && Symbol(n) == c
  {
    if 'A' <= c <= 'Z' then (c - 'A') as nat
    else if 'a' <= c <= 'z' then 26 + (c - 'a') as nat
    else if '0' <= c <= '9' then 52 + (c - '0') as nat
    else if c == '+' then 62
    else 63
  }

  // Four characters for one, two or three bytes.
  function EncodeGroup(data: seq<byte>): (text: string)
    requires 1 <= |data| <= 3
    ensures |text| == 4
  {
    var second := if |data| > 1 then data[1] else 0;
    var third := if |data| > 2 then data[2] else 0;
    [Symbol(data[0] / 4), Symbol(data[0] % 4 * 16 + second / 16),
     if |data| > 1 then Symbol(second % 16 * 4 + third / 64) else '=',
     if |data| > 2 then Symbol(third % 64) else '=']
  }

  function Encode(data: seq<byte>): string {
    if data == [] then ""
    else if |data| <= 3 then EncodeGroup(data)
    else EncodeGroup(data[..3]) + Encode(data[3..])
  }

  // One group. Only the last may be padded; stray bits under the padding are ignored.
  function DecodeGroup(text: string, last: bool): Result<seq<byte>>
    requires |text| == 4
  {
    if !IsSymbol(text[0]) || !IsSymbol(text[1]) then Error
    else
      var first: byte := Sextet(text[0]) * 4 + Sextet(text[1]) / 16;
      if last && text[2] == '=' && text[3] == '=' then Ok([first])
      else if !IsSymbol(text[2]) then Error
      else
        var second: byte := Sextet(text[1]) % 16 * 16 + Sextet(text[2]) / 4;
        if last && text[3] == '=' then Ok([first, second])
        else if !IsSymbol(text[3]) then Error
        else
          var third: byte := Sextet(text[2]) % 4 * 64 + Sextet(text[3]);
          Ok([first, second, third])
  }

  function Decode(text: string): Result<seq<byte>> {
    if text == "" then Ok([])
    else if |text| < 4 then Error
    else
      var first :- DecodeGroup(text[..4], |text| == 4);
      var rest :- Decode(text[4..]);
      Ok(first + rest)
  }

  predicate IsSpace(c: char) {
    c == ' ' || c == '\t' || c == '\n' || c == '\r'
  }

  function WithoutSpaces(text: string): string {
    if text == "" then ""
    else if IsSpace(text[0]) then WithoutSpaces(text[1..])
    else [text[0]] + WithoutSpaces(text[1..])
  }

  // .NET's Convert.FromBase64String, which also skips white space anywhere.
  function DecodeLoosely(text: string): Result<seq<byte>> {
    Decode(WithoutSpaces(text))
  }

  lemma SextetOfSymbol(n: nat)
    requires n < 64
    ensures IsSymbol(Symbol(n)) && Sextet(Symbol(n)) == n && Symbol(n) != '='
  {
  }

  lemma GroupArithmetic(a: byte, b: byte, c: byte)
    ensures a / 4 * 4 + (a % 4 * 16 + b / 16) / 16 == a
    ensures (a % 4 * 16 + b / 16) % 16 * 16 + (b % 16 * 4 + c / 64) / 4 == b
    ensures (b % 16 * 4 + c / 64) % 4 * 64 + c % 64 == c
  {
  }

  lemma DecodeOne(a: byte)
    ensures DecodeGroup(EncodeGroup([a]), true) == Ok([a])
  {
    hide Symbol, IsSymbol, Sextet;
    SextetOfSymbol(a / 4);
    SextetOfSymbol(a % 4 * 16);
  }

  lemma DecodeTwo(a: byte, b: byte)
    ensures DecodeGroup(EncodeGroup([a, b]), true) == Ok([a, b])
  {
    hide Symbol, IsSymbol, Sextet;
    SextetOfSymbol(a / 4);
    SextetOfSymbol(a % 4 * 16 + b / 16);
    SextetOfSymbol(b % 16 * 4);
    GroupArithmetic(a, b, 0);
  }

  // Four symbols, the last two of them no padding, are three bytes.
  lemma DecodeSymbols(text: string, last: bool, a: byte, b: byte, c: byte)
    requires |text| == 4 && (forall i :: 0 <= i < 4 ==> IsSymbol(text[i])) && text[2] != '=' && text[3] != '='
    requires Sextet(text[0]) * 4 + Sextet(text[1]) / 16 == a
    requires Sextet(text[1]) % 16 * 16 + Sextet(text[2]) / 4 == b
    requires Sextet(text[2]) % 4 * 64 + Sextet(text[3]) == c
    ensures DecodeGroup(text, last) == Ok([a, b, c])
  {
    hide Symbol, IsSymbol, Sextet;
  }

  // The four symbols of three bytes.
  lemma EncodedSymbols(a: byte, b: byte, c: byte)
    ensures EncodeGroup([a, b, c])
         == [Symbol(a / 4), Symbol(a % 4 * 16 + b / 16), Symbol(b % 16 * 4 + c / 64), Symbol(c % 64)]
  {
    hide Symbol;
  }

  lemma DecodeThree(a: byte, b: byte, c: byte, last: bool)
    ensures DecodeGroup(EncodeGroup([a, b, c]), last) == Ok([a, b, c])
  {
    hide Symbol, IsSymbol, Sextet, EncodeGroup, DecodeGroup;
    EncodedSymbols(a, b, c);
    SextetOfSymbol(a / 4);
    SextetOfSymbol(a % 4 * 16 + b / 16);
    SextetOfSymbol(b % 16 * 4 + c / 64);
    SextetOfSymbol(c % 64);
    GroupArithmetic(a, b, c);
    DecodeSymbols(EncodeGroup([a, b, c]), last, a, b, c);
  }

  lemma DecodeEncodeGroup(data: seq<byte>, last: bool)
    requires 1 <= |data| <= 3 && (last || |data| == 3)
    ensures DecodeGroup(EncodeGroup(data), last) == Ok(data)
  {
    hide EncodeGroup, DecodeGroup;
    if |data| == 1 {
      assert data == [data[0]];
      DecodeOne(data[0]);
    } else if |data| == 2 {
      assert data == [data[0], data[1]];
      DecodeTwo(data[0], data[1]);
    } else {
      assert data == [data[0], data[1], data[2]];
      DecodeThree(data[0], data[1], data[2], last);
    }
  }

  // Decoding undoes encoding.
  lemma {:induction false} DecodeEncode(data: seq<byte>)
    ensures Decode(Encode(data)) == Ok(data)
  {
    hide EncodeGroup, DecodeGroup;
    if 1 <= |data| <= 3 {
      DecodeEncodeGroup(data, true);
      assert Encode(data)[..4] == Encode(data) && Encode(data)[4..] == "";
      assert data + [] == data;
    } else if data != [] {
      DecodeEncodeGroup(data[..3], false);
      DecodeEncode(data[3..]);
      assert Encode(data)[..4] == EncodeGroup(data[..3]) && Encode(data)[4..] == Encode(data[3..]);
      assert Encode(data[3..]) != "" && data[..3] + data[3..] == data;
    }
  }

  lemma {:induction false} EncodeInjective(a: seq<byte>, b: seq<byte>)
    requires Encode(a) == Encode(b)
    ensures a == b
  {
    DecodeEncode(a);
    DecodeEncode(b);
  }

  // Encoded text is made of the alphabet and padding only: no separator, no white space.
  lemma {:induction false} EncodeAlphabet(data: seq<byte>)
    ensures forall c :: c in Encode(data) ==> IsSymbol(c) || c == '='
    ensures |Encode(data)| == (|data| + 2) / 3 * 4
  {
    hide Symbol, IsSymbol;
    if |data| > 3 {
      EncodeAlphabet(data[3..]);
    }
  }

  lemma {:induction false} KeepsSpaceless(text: string)
    requires forall c :: c in text ==> !IsSpace(c)
    ensures WithoutSpaces(text) == text
  {
    if text == "" {
    } else {
      assert text[0] in text;
      KeepsSpaceless(text[1..]);
      assert text == [text[0]] + text[1..];
    }
  }

  // Text is accepted as canonical: it decodes, and encoding the result gives the text back
  // (section 3.5 of RFC 4648).
  predicate Canonical(decoded: Result<seq<byte>>, text: string) {
    decoded.Ok? && Encode(decoded.value) == text
  }

  // With the canonical check, both decoders accept exactly the encodings, and read the same bytes.
  lemma CanonicalDecoding(text: string, data: seq<byte>)
    ensures Decode(text) == Ok(data) && Encode(data) == text <==> text == Encode(data)
    ensures DecodeLoosely(text) == Ok(data) && Encode(data) == text <==> text == Encode(data)
    ensures Canonical(Decode(text), text) <==> Canonical(DecodeLoosely(text), text)
    ensures Canonical(Decode(text), text) ==> Decode(text) == DecodeLoosely(text)
  {
    DecodeEncode(data);
    EncodeAlphabet(data);
    KeepsSpaceless(Encode(data));
    if Canonical(Decode(text), text) {
      EncodeAlphabet(Decode(text).value);
      KeepsSpaceless(text);
    }
    if Canonical(DecodeLoosely(text), text) {
      EncodeAlphabet(DecodeLoosely(text).value);
      KeepsSpaceless(text);
    }
  }
}
