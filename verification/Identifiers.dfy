// IDs of carried prices: the suffix that says how they were carried, and the number that keeps them apart.
module Identifiers {
  import opened Numerals

  // Where the digits that s starts with end.
  function DigitsEnd(s: string): (k: nat)
    ensures k <= |s| && forall i :: 0 <= i < k ==> '0' <= s[i] <= '9'
  {
    if s != "" && '0' <= s[0] <= '9' then 1 + DigitsEnd(s[1..]) else 0
  }

  // (?:-\d+)?$
  predicate IsNumberSuffix(s: string) {
    s == "" || (s[0] == '-' && |s| > 1 && DigitsEnd(s[1..]) == |s| - 1)
  }

  // \d{4}-\d{2}-\d{2}
  predicate IsDate(s: string) {
    |s| == 10 && DigitsEnd(s[..4]) == 4 && s[4] == '-' && DigitsEnd(s[5..7]) == 2 && s[7] == '-'
      && DigitsEnd(s[8..]) == 2
  }

  // \.(?:last|until-\d{4}-\d{2}-\d{2})(?:-\d+)?$
  predicate IsCarriedSuffix(s: string) {
    (|s| >= 5 && s[..5] == ".last" && IsNumberSuffix(s[5..]))
    || (|s| >= 17 && s[..7] == ".until-" && IsDate(s[7..17]) && IsNumberSuffix(s[17..]))
  }

  // The ID without the leftmost suffix that matches.
  function Strip(id: string): string {
    if IsCarriedSuffix(id) then ""
    else if id == "" then ""
    else [id[0]] + Strip(id[1..])
  }

  predicate IsDigits(s: string, n: nat) {
    |s| == n && forall i :: 0 <= i < n ==> s[i] in "0123456789"
  }

  lemma {:induction false} DigitsMeaning(s: string)
    ensures DigitsEnd(s) == |s| <==> IsDigits(s, |s|)
  {
    if s != "" {
      DigitMeaning(s[0]);
      DigitsMeaning(s[1..]);
      assert forall i :: 0 < i < |s| ==> s[i] == s[1..][i - 1];
    }
  }

  lemma DigitMeaning(c: char)
    ensures '0' <= c <= '9' <==> c in "0123456789"
  {
    assert '0' <= c <= '9' ==> "0123456789"[c as int - 48] == c;
  }

  predicate IsDay(s: string, year: string, month: string, day: string) {
    s == year + "-" + month + "-" + day && IsDigits(year, 4) && IsDigits(month, 2) && IsDigits(day, 2)
  }

  // Four digits, two and two, with hyphens between.
  lemma DateMeaning(s: string)
    ensures IsDate(s) <==> exists year, month, day :: IsDay(s, year, month, day)
  {
    if IsDate(s) {
      DigitsMeaning(s[..4]);
      DigitsMeaning(s[5..7]);
      DigitsMeaning(s[8..]);
      hide IsDigits, DigitsEnd;
      assert s == s[..4] + "-" + s[5..7] + "-" + s[8..];
      assert IsDay(s, s[..4], s[5..7], s[8..]);
    }
    if year, month, day :| IsDay(s, year, month, day) {
      DigitsMeaning(year);
      DigitsMeaning(month);
      DigitsMeaning(day);
      assert s[..4] == year && s[5..7] == month && s[8..] == day;
    }
  }

  // A hyphen and digits, at least one; or nothing.
  lemma NumberMeaning(s: string)
    ensures IsNumberSuffix(s) <==> s == "" || exists digits :: digits != "" && s == "-" + digits
                                                               && IsDigits(digits, |digits|)
  {
    if s != "" {
      DigitsMeaning(s[1..]);
      if IsNumberSuffix(s) {
        assert s == "-" + s[1..];
      }
      if digits :| digits != "" && s == "-" + digits && IsDigits(digits, |digits|) {
        assert s[1..] == digits;
      }
    }
  }

  // How a price was carried, and then its number, if it has one.
  predicate IsCarried(s: string, head: string, number: string) {
    s == head + number && IsNumberSuffix(number) && (head == ".last" || IsUntil(head))
  }

  predicate IsUntil(head: string) {
    |head| >= 7 && head[..7] == ".until-" && IsDate(head[7..])
  }

  lemma CarriedSuffixMeaning(s: string)
    ensures IsCarriedSuffix(s) <==> exists head, number :: IsCarried(s, head, number)
    ensures forall date :: IsUntil(".until-" + date) <==> IsDate(date)
  {
    hide IsDate, IsNumberSuffix;
    if IsCarriedSuffix(s) {
      if s[..5] == ".last" && IsNumberSuffix(s[5..]) {
        assert IsCarried(s, s[..5], s[5..]);
      } else {
        assert s[..17][..7] == s[..7] && s[..17][7..] == s[7..17];
        assert IsCarried(s, s[..17], s[17..]);
      }
    }
    if head, number :| IsCarried(s, head, number) {
      if head == ".last" {
        assert s[..5] == head && s[5..] == number;
      } else {
        UntilLength(head);
        assert s[..7] == head[..7] && s[7..17] == head[7..] && s[17..] == number;
      }
    }
    forall date ensures IsUntil(".until-" + date) <==> IsDate(date) {
      assert (".until-" + date)[..7] == ".until-" && (".until-" + date)[7..] == date;
    }
  }

  lemma UntilLength(head: string)
    requires IsUntil(head)
    ensures |head| == 17
  {
  }

  // What is stripped is a suffix that matches, and no longer one does; or nothing, when none matches.
  lemma {:induction false} StripMeaning(id: string) returns (suffix: string)
    ensures id == Strip(id) + suffix && (suffix == "" || IsCarriedSuffix(suffix))
    ensures forall k :: 0 <= k < |Strip(id)| ==> !IsCarriedSuffix(id[k..])
  {
    hide IsCarriedSuffix;
    if IsCarriedSuffix(id) || id == "" {
      suffix := id;
    } else {
      suffix := StripMeaning(id[1..]);
      forall k | 0 <= k < |Strip(id)| ensures !IsCarriedSuffix(id[k..]) {
        assert k > 0 ==> id[k..] == id[1..][k - 1..];
        assert id[0..] == id;
      }
    }
  }

  lemma {:induction false} DigitsHaveNoDot(s: string)
    ensures DigitsEnd(s) == |s| ==> '.' !in s
  {
    if s == "" {
    } else {
      DigitsHaveNoDot(s[1..]);
      assert s == [s[0]] + s[1..];
    }
  }

  lemma NoDotInDate(s: string)
    requires IsDate(s)
    ensures '.' !in s
  {
    DigitsHaveNoDot(s[..4]);
    DigitsHaveNoDot(s[5..7]);
    DigitsHaveNoDot(s[8..]);
    assert s == s[..4] + [s[4]] + s[5..7] + [s[7]] + s[8..];
  }

  lemma NoDotAfterHead(s: string, head: string, rest: string)
    requires s == head + rest && head != "" && '.' !in head[1..] && '.' !in rest
    ensures '.' !in s[1..]
  {
    assert s[1..] == head[1..] + rest;
  }

  // A suffix starts with its only dot.
  lemma OneDot(s: string)
    requires IsCarriedSuffix(s)
    ensures s[0] == '.' && '.' !in s[1..]
  {
    if |s| >= 5 && s[..5] == ".last" && IsNumberSuffix(s[5..]) {
      NoDotInNumber(s[5..]);
      assert s[..5][1..] == "last" && s[0] == s[..5][0];
      NoDotAfterHead(s, s[..5], s[5..]);
    } else {
      NoDotInNumber(s[17..]);
      NoDotInDate(s[7..17]);
      assert s[..7][1..] == "until-" && s[0] == s[..7][0];
      NoDotAfterHead(s, s[..7], s[7..17] + s[17..]);
    }
  }

  lemma NoDotInNumber(s: string)
    requires IsNumberSuffix(s)
    ensures '.' !in s
  {
    if s != "" {
      DigitsHaveNoDot(s[1..]);
      assert s == [s[0]] + s[1..];
    }
  }

  // Stripping an ID that was given a suffix gives back the ID it was given to.
  lemma {:induction false} StripSuffixed(original: string, suffix: string)
    requires IsCarriedSuffix(suffix)
    ensures Strip(original + suffix) == original
  {
    var id := original + suffix;
    OneDot(suffix);
    if original == "" {
      assert id == suffix;
    } else {
      assert id[1..][|original| - 1] == '.';
      if IsCarriedSuffix(id) {
        OneDot(id);
      }
      assert id[1..] == original[1..] + suffix;
      StripSuffixed(original[1..], suffix);
      assert original == [original[0]] + original[1..];
    }
  }

  function NumberedId(base: string, number: nat): string {
    base + "-" + Numeral(number, 0, Decimal)
  }

  lemma NumberedIdInjective(base: string, a: nat, b: nat)
    requires NumberedId(base, a) == NumberedId(base, b)
    ensures a == b
  {
    assert NumberedId(base, a)[|base| + 1..] == Numeral(a, 0, Decimal);
    assert NumberedId(base, b)[|base| + 1..] == Numeral(b, 0, Decimal);
    ParseNumeral(a, 0, Decimal);
    ParseNumeral(b, 0, Decimal);
  }

  // The used IDs that the search from a number on could still meet.
  ghost function Ahead(base: string, number: nat, used: set<string>): set<string> {
    set id | id in used && exists k: nat :: k >= number && id == NumberedId(base, k)
  }

  lemma AheadShrinks(base: string, number: nat, used: set<string>)
    requires NumberedId(base, number) in used
    ensures Ahead(base, number + 1, used) < Ahead(base, number, used)
  {
    var id := NumberedId(base, number);
    assert id in Ahead(base, number, used);
    if id in Ahead(base, number + 1, used) {
      var k: nat :| k >= number + 1 && id == NumberedId(base, k);
      NumberedIdInjective(base, number, k);
    }
  }

  // Of the IDs numbered from a number on, this is number k, and those before it are used.
  ghost predicate IsFirstFree(base: string, number: nat, used: set<string>, id: string, k: nat) {
    k >= number && id == NumberedId(base, k) && forall m: nat :: number <= m < k ==> NumberedId(base, m) in used
  }

  lemma StillFirst(base: string, number: nat, next: nat, used: set<string>, id: string)
    requires next == number + 1 && NumberedId(base, number) in used
      && exists k: nat :: IsFirstFree(base, next, used, id, k)
    ensures exists k: nat :: IsFirstFree(base, number, used, id, k)
  {
    var k: nat :| IsFirstFree(base, next, used, id, k);
    assert IsFirstFree(base, number, used, id, k);
  }

  // The first numbered ID from a number on that is not used. The search ends, for the used IDs are finite.
  ghost function FirstFree(base: string, number: nat, used: set<string>): (id: string)
    ensures id !in used
    ensures exists k: nat :: IsFirstFree(base, number, used, id, k)
    decreases Ahead(base, number, used)
  {
    if NumberedId(base, number) !in used then
      assert IsFirstFree(base, number, used, NumberedId(base, number), number);
      NumberedId(base, number)
    else
      AheadShrinks(base, number, used);
      StillFirst(base, number, number + 1, used, FirstFree(base, number + 1, used));
      FirstFree(base, number + 1, used)
  }

  predicate IsBaseOrNumbered(id: string, base: string) {
    id == base || (|id| > |base| && id[..|base|] == base && IsNumberSuffix(id[|base|..]))
  }

  ghost function UniqueId(base: string, used: set<string>): (id: string)
    ensures id !in used
  {
    if base !in used then base else FirstFree(base, 2, used)
  }

  lemma {:induction false} DecimalDigitsEnd(s: string)
    requires AllDigits(s, Decimal)
    ensures DigitsEnd(s) == |s|
  {
    if s == "" {
    } else {
      DecimalDigitsEnd(s[1..]);
    }
  }

  // The ID found is the base where that is free, and otherwise the base with the first number from 2 on that is.
  lemma UniqueIdMeaning(base: string, used: set<string>)
    ensures IsBaseOrNumbered(UniqueId(base, used), base)
    ensures base !in used ==> UniqueId(base, used) == base
    ensures base in used ==> exists k: nat :: IsFirstFree(base, 2, used, UniqueId(base, used), k)
  {
    if base in used {
      var id := FirstFree(base, 2, used);
      var k: nat :| IsFirstFree(base, 2, used, id, k);
      ParseNumeral(k, 0, Decimal);
      NumeralNotEmpty(k, 0, Decimal);
      DecimalDigitsEnd(Numeral(k, 0, Decimal));
      assert id[..|base|] == base && id[|base|..][1..] == Numeral(k, 0, Decimal);
    }
  }

  method FindId(base: string, used: set<string>) returns (id: string)
    ensures id == UniqueId(base, used)
  {
    var number := 2;
    id := base;
    while id in used
      invariant number >= 2
      invariant id !in used ==> id == UniqueId(base, used)
      invariant id in used ==> UniqueId(base, used) == FirstFree(base, number, used)
      decreases id in used, Ahead(base, number, used)
    {
      if NumberedId(base, number) in used {
        AheadShrinks(base, number, used);
      }
      id, number := NumberedId(base, number), number + 1;
    }
  }
}
