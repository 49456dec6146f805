// Whether a plan's text mentions a name, and which of other publications' names it does.
module Mentions {
  import opened Names
  import opened Wrappers

  // How matching folds case: the canonical form of a character. Letters become upper case; no other character becomes
  // a character of a name, or stops being one.
  type Fold = char -> char

  predicate NameCharacter(c: char) {
    'A' <= c <= 'Z' || 'a' <= c <= 'z' || '0' <= c <= '9' || c == '.' || c == '_' || c == '-'
  }

  ghost predicate KeepsNames(fold: Fold) {
    forall c :: NameCharacter(fold(c)) <==> NameCharacter(c)
  }

  predicate NamedAt(text: string, i: int) {
    0 <= i < |text| && NameCharacter(text[i])
  }

  // ---- Mentions ----

  predicate Occurs(text: string, name: string, i: nat, fold: Fold) {
    i + |name| <= |text| && forall j :: 0 <= j < |name| ==> fold(text[i + j]) == fold(name[j])
  }

  // The occurrence from i to end is not inside a longer name. A full stop ends the name when no name goes on after it.
  predicate Whole(text: string, i: nat, end: nat) {
    !NamedAt(text, i - 1) && (!NamedAt(text, end) || (text[end] == '.' && !NamedAt(text, end + 1)))
  }

  // A name is mentioned where any occurrence of it is whole, whatever other occurrences it overlaps.
  predicate Mentioned(text: string, name: string, fold: Fold) {
    name != "" && exists i :: 0 <= i < |text| && Occurs(text, name, i, fold) && Whole(text, i, i + |name|)
  }

  // Letters, digits, the full stop, the underscore and the hyphen, by their codes.
  lemma NameCharacters(c: char)
    ensures var code := c as int;
      NameCharacter(c) <==> 64 < code < 91 || 96 < code < 123 || 47 < code < 58 || code in {45, 46, 95}
  {
  }

  predicate Same(found: string, name: string, fold: Fold) {
    |found| == |name| && forall j :: 0 <= j < |name| ==> fold(found[j]) == fold(name[j])
  }

  // A text comes to an end of a name here: nothing follows, or nothing that is in a name, or a full stop after which
  // the same is true.
  predicate EndsName(after: string) {
    after == "" || !NameCharacter(after[0]) || (after[0] == '.' && (|after| == 1 || !NameCharacter(after[1])))
  }

  // Nothing before is part of a longer name.
  predicate StartsName(before: string) {
    before == "" || !NameCharacter(before[|before| - 1])
  }

  // The text is cut into what is before, an occurrence, and what is after.
  predicate Cut(text: string, before: string, found: string, after: string, name: string, fold: Fold) {
    text == before + found + after && Same(found, name, fold)
  }

  // A name is mentioned exactly when some cut has no character of a name right before the occurrence, and comes to an
  // end of a name right after it.
  lemma MentionedMeaning(text: string, name: string, fold: Fold)
    ensures Mentioned(text, name, fold) <==>
      name != "" && exists before, found, after ::
        Cut(text, before, found, after, name, fold) && StartsName(before) && EndsName(after)
  {
    hide NameCharacter, Occurs, Whole, Cut, StartsName, EndsName, NamedAt, Same;
    if Mentioned(text, name, fold) {
      var i :| 0 <= i < |text| && Occurs(text, name, i, fold) && Whole(text, i, i + |name|);
      CutAt(text, name, i, fold);
      var end := i + |name|;
      assert Cut(text, text[..i], text[i..end], text[end..], name, fold);
    }
    if name != "" && exists before, found, after ::
      Cut(text, before, found, after, name, fold) && StartsName(before) && EndsName(after)
    {
      var before, found, after :|
        Cut(text, before, found, after, name, fold) && StartsName(before) && EndsName(after);
      CutAround(text, before, found, after, name, fold);
    }
  }

  lemma CutAt(text: string, name: string, i: nat, fold: Fold)
    requires Occurs(text, name, i, fold) && Whole(text, i, i + |name|)
    ensures var end := i + |name|;
      end <= |text| && Cut(text, text[..i], text[i..end], text[end..], name, fold) && StartsName(text[..i])
        && EndsName(text[end..])
  {
    hide NameCharacter;
    assert text == text[..i] + text[i..i + |name|] + text[i + |name|..];
  }

  lemma CutAround(text: string, before: string, found: string, after: string, name: string, fold: Fold)
    requires name != "" && Cut(text, before, found, after, name, fold) && StartsName(before) && EndsName(after)
    ensures |before| < |text| && Occurs(text, name, |before|, fold) && Whole(text, |before|, |before| + |name|)
  {
    hide NameCharacter;
    var end := |before| + |name|;
    assert forall j :: 0 <= j < |name| ==> text[|before| + j] == found[j];
    assert forall j :: 0 <= j < |after| ==> text[end + j] == after[j];
    assert before != "" ==> text[|before| - 1] == before[|before| - 1];
    assert end < |text| ==> text[end] == after[0];
    assert end + 1 < |text| ==> text[end + 1] == after[1];
  }

  // The first occurrence from a place on, as a matcher that goes on from there finds it.
  function Match(text: string, name: string, from: nat, fold: Fold): (found: Option<nat>)
    ensures found.Some? ==>
      from <= found.value && found.value + |name| <= |text| && Occurs(text, name, found.value, fold)
    ensures forall i :: from <= i < (if found.Some? then found.value else |text| + 1) ==> !Occurs(text, name, i, fold)
    decreases |text| + 1 - from
  {
    if from > |text| then None
    else if Occurs(text, name, from, fold) then Some(from)
    else Match(text, name, from + 1, fold)
  }

  method Mentions(text: string, name: string, fold: Fold) returns (r: bool)
    ensures r <==> Mentioned(text, name, fold)
  {
    hide Occurs;
    if name == "" {
      return false;
    }
    var lastIndex := 0;
    var found := Match(text, name, lastIndex, fold);
    while found.Some?
      invariant found == Match(text, name, lastIndex, fold)
      invariant forall i :: 0 <= i < lastIndex && Occurs(text, name, i, fold) ==> !Whole(text, i, i + |name|)
      decreases |text| + 1 - lastIndex
    {
      var (i, end) := (found.value, found.value + |name|);
      if !NamedAt(text, i - 1) && (!NamedAt(text, end) || (text[end] == '.' && !NamedAt(text, end + 1))) {
        return true;
      }
      lastIndex := i + 1;
      found := Match(text, name, lastIndex, fold);
    }
    return false;
  }

  // ---- Foreign names ----

  datatype Resource = Resource(kind: string, name: string)

  datatype Publication = Publication(id: string, displayName: string, deploymentName: string, apiName: string,
                                     backendName: string, fragmentName: string, productName: string,
                                     subscriptionName: string, backendKeyName: string, resources: seq<Resource>)

  const UNIQUE_KINDS := {"backend", "policyFragment", "api", "product", "subscription", "namedValue"}

  function ResourceNames(resources: seq<Resource>): seq<string> {
    if resources == [] then []
    else
      var last := resources[|resources| - 1];
      ResourceNames(resources[..|resources| - 1]) + if last.kind in UNIQUE_KINDS then [last.name] else []
  }

  // The names that tell a publication from others; a missing one is empty.
  function UniqueNames(p: Publication): seq<string> {
    [p.apiName, p.backendName, p.fragmentName, p.productName, p.subscriptionName, p.backendKeyName]
      + ResourceNames(p.resources)
  }

  lemma {:induction false} ResourceNamesMeaning(resources: seq<Resource>, name: string)
    ensures name in ResourceNames(resources) <==>
      exists r :: r in resources && r.name == name
        && r.kind in {"backend", "policyFragment", "api", "product", "subscription", "namedValue"}
  {
    if resources == [] {
    } else {
      var front, last := resources[..|resources| - 1], resources[|resources| - 1];
      assert resources == front + [last];
      ResourceNamesMeaning(front, name);
    }
  }

  // A publication's own names are those of its parts, and of its resources of the six kinds that have names of their
  // own.
  lemma UniqueNamesMeaning(p: Publication, name: string)
    ensures name in UniqueNames(p) <==>
      || name in {p.apiName, p.backendName, p.fragmentName, p.productName, p.subscriptionName, p.backendKeyName}
      || exists r :: r in p.resources && r.name == name
           && r.kind in {"backend", "policyFragment", "api", "product", "subscription", "namedValue"}
  {
    ResourceNamesMeaning(p.resources, name);
  }

  // The target's own names are those, and what it is called and deployed as; a missing name is not one.
  lemma OwnMeaning(target: Publication, name: string)
    ensures name in Own(target) <==>
      name != "" && (name in UniqueNames(target) || name in {target.displayName, target.deploymentName})
  {
  }

  function Own(target: Publication): seq<string> {
    NonEmpty(UniqueNames(target) + [target.displayName, target.deploymentName])
  }

  function NonEmpty(names: seq<string>): (r: seq<string>)
    ensures forall n :: n in r <==> n in names && n != ""
  {
    if names == [] then []
    else NonEmpty(names[..|names| - 1]) + if names[|names| - 1] != "" then [names[|names| - 1]] else []
  }

  // A name of another publication, of three characters or more, that no own name mentions.
  ghost predicate Foreign(name: string, target: Publication, others: seq<Publication>, fold: Fold) {
    && |name| >= 3 && (exists other :: other in others && other.id != target.id && name in UniqueNames(other))
    && forall mine :: mine in Own(target) ==> !Mentioned(mine, name, fold)
  }

  method AnyMentions(texts: seq<string>, name: string, fold: Fold) returns (any: bool)
    ensures any <==> exists text :: text in texts && Mentioned(text, name, fold)
  {
    for k := 0 to |texts|
      invariant forall text :: text in texts[..k] ==> !Mentioned(text, name, fold)
    {
      var here := Mentions(texts[k], name, fold);
      if here {
        assert texts[k] in texts;
        return true;
      }
      assert texts[..k + 1] == texts[..k] + [texts[k]];
    }
    assert texts[..|texts|] == texts;
    return false;
  }

  // In the order of a set that grows: each publication's names, and the sort at the end.
  method ForeignNames(target: Publication, others: seq<Publication>, fold: Fold) returns (r: seq<string>)
    ensures forall n :: n in r <==> Foreign(n, target, others, fold)
    ensures Ordered(r) && NoRepeats(r)
  {
    var own := Own(target);
    var names: seq<string> := [];
    for k := 0 to |others|
      invariant NoRepeats(names) && forall n :: n in names <==> Foreign(n, target, others[..k], fold)
    {
      var other := others[k];
      assert others[..k + 1] == others[..k] + [other];
      if other.id != target.id {
        var unique := UniqueNames(other);
        for m := 0 to |unique|
          invariant NoRepeats(names)
          invariant forall n :: n in names <==>
            Foreign(n, target, others[..k], fold) || (n in unique[..m] && Foreign(n, target, others[..k + 1], fold))
        {
          var name := unique[m];
          assert unique[..m + 1] == unique[..m] + [name];
          var mentioned := AnyMentions(own, name, fold);
          if |name| >= 3 && !mentioned && name !in names {
            names := names + [name];
          }
        }
        assert unique[..|unique|] == unique;
      }
    }
    assert others[..|others|] == others;
    SortNamesMeaning(names);
    return SortNames(names);
  }

  method ForeignMentions(text: string, target: Publication, others: seq<Publication>, fold: Fold)
    returns (r: seq<string>)
    ensures forall n :: n in r <==> Foreign(n, target, others, fold) && Mentioned(text, n, fold)
  {
    var names := ForeignNames(target, others, fold);
    r := [];
    for k := 0 to |names|
      invariant forall n :: n in r <==> n in names[..k] && Mentioned(text, n, fold)
    {
      assert names[..k + 1] == names[..k] + [names[k]];
      var mentioned := Mentions(text, names[k], fold);
      if mentioned {
        r := r + [names[k]];
      }
    }
    assert names[..|names|] == names;
  }

  // ---- Texts of own names ----

  // A text's pieces: a name, or a character that is in no name.
  datatype Piece = Name(name: string) | Gap(c: char)

  function Text(pieces: seq<Piece>): string {
    if pieces == [] then ""
    else
      var last := pieces[|pieces| - 1];
      Text(pieces[..|pieces| - 1]) + match last case Name(name) => name case Gap(c) => [c]
  }

  // Every name is one of these, and something that is in no name is between any two.
  predicate Separated(pieces: seq<Piece>, names: seq<string>) {
    && (forall k :: 0 <= k < |pieces| ==>
          if pieces[k].Name? then pieces[k].name in names && pieces[k].name != "" else !NameCharacter(pieces[k].c))
    && forall k :: 0 < k < |pieces| ==> !(pieces[k - 1].Name? && pieces[k].Name?)
  }

  lemma TextLast(pieces: seq<Piece>)
    requires pieces != []
    ensures var last := pieces[|pieces| - 1];
      Text(pieces) == Text(pieces[..|pieces| - 1]) + if last.Name? then last.name else [last.c]
  {
  }

  lemma {:induction false} TextSplit(pieces: seq<Piece>, k: nat)
    requires k <= |pieces|
    ensures Text(pieces) == Text(pieces[..k]) + Text(pieces[k..])
  {
    hide Text;
    if k == |pieces| {
      TextEmpty();
      assert pieces[..k] == pieces && pieces[k..] == [];
    } else {
      var front, back := pieces[..|pieces| - 1], pieces[k..];
      TextSplit(front, k);
      assert front[..k] == pieces[..k] && back[..|back| - 1] == front[k..] && back[|back| - 1] == pieces[|pieces| - 1];
      TextLast(pieces);
      TextLast(back);
    }
  }

  lemma TextOne(piece: Piece)
    ensures Text([piece]) == if piece.Name? then piece.name else [piece.c]
  {
    assert [piece][..0] == [];
    assert Text([]) == "";
  }

  // Where a piece is in a text.
  lemma TextAround(pieces: seq<Piece>, k: nat)
    requires k < |pieces|
    ensures Text(pieces) == Text(pieces[..k]) + Text([pieces[k]]) + Text(pieces[k + 1..])
  {
    hide Text;
    TextSplit(pieces, k);
    TextSplit(pieces[k..], 1);
    assert pieces[k..][..1] == [pieces[k]] && pieces[k..][1..] == pieces[k + 1..];
  }

  lemma TextBefore(pieces: seq<Piece>, k: nat)
    requires 0 < k <= |pieces|
    ensures Text(pieces[..k]) == Text(pieces[..k - 1]) + Text([pieces[k - 1]])
  {
    hide Text;
    TextSplit(pieces[..k], k - 1);
    assert pieces[..k][..k - 1] == pieces[..k - 1] && pieces[..k][k - 1..] == [pieces[k - 1]];
  }

  // A stretch of name characters lies within one name.
  lemma {:induction false} WithinOneName(pieces: seq<Piece>, names: seq<string>, i: nat, end: nat) returns (k: nat)
    requires Separated(pieces, names) && i < end <= |Text(pieces)|
    requires forall j :: i <= j < end ==> NameCharacter(Text(pieces)[j])
    ensures k < |pieces| && pieces[k].Name? && |Text(pieces[..k])| <= i && end <= |Text(pieces[..k])| + |pieces[k].name|
  {
    hide Text;
    TextEmpty();
    k := |pieces| - 1;
    var (text, front) := (Text(pieces), Text(pieces[..k]));
    TextAround(pieces, k);
    TextOne(pieces[k]);
    assert pieces[k + 1..] == [] && pieces[..0] == [];
    assert pieces[k].Gap? ==> text[|front|] == pieces[k].c;
    if k > 0 {
      TextOne(pieces[k - 1]);
      TextBefore(pieces, k);
      assert pieces[k - 1].Gap? ==> text[|front| - 1] == front[|front| - 1] == pieces[k - 1].c;
    }
    if i < |front| {
      forall j | i <= j < end ensures NameCharacter(front[j]) {
        assert NameCharacter(text[j]) && text[j] == front[j];
      }
      k := WithinOneName(pieces[..k], names, i, end);
      assert pieces[..|pieces| - 1][..k] == pieces[..k];
    }
  }

  lemma TextEmpty()
    ensures Text([]) == ""
  {
  }

  // A name ends where a text does, or before a character that is in no name.
  lemma Separations(pieces: seq<Piece>, names: seq<string>, k: nat)
    requires Separated(pieces, names) && k < |pieces| && pieces[k].Name?
    ensures var (text, start) := (Text(pieces), |Text(pieces[..k])|);
      var end := start + |pieces[k].name|;
      end <= |text| && text[start..end] == pieces[k].name && !NamedAt(text, start - 1) && !NamedAt(text, end)
  {
    hide Text;
    TextEmpty();
    TextAround(pieces, k);
    TextOne(pieces[k]);
    if k > 0 {
      TextOne(pieces[k - 1]);
      TextBefore(pieces, k);
      assert Text(pieces[..k])[|Text(pieces[..k])| - 1] == pieces[k - 1].c;
    } else {
      assert pieces[..k] == [];
    }
    if k + 1 < |pieces| {
      TextAround(pieces[k + 1..], 0);
      TextOne(pieces[k + 1]);
      assert pieces[k + 1..][..0] == [];
    } else {
      assert pieces[k + 1..] == [];
    }
  }

  // A whole occurrence of a name, made of characters of names, is one in a single name of the text.
  lemma MentionIsWithinOneName(pieces: seq<Piece>, names: seq<string>, name: string, i: nat, fold: Fold)
    returns (mine: string)
    requires KeepsNames(fold) && Separated(pieces, names)
    requires name != "" && forall c :: c in name ==> NameCharacter(c)
    requires Occurs(Text(pieces), name, i, fold) && Whole(Text(pieces), i, i + |name|)
    ensures mine in names && Mentioned(mine, name, fold)
  {
    var text, end := Text(pieces), i + |name|;
    forall j | i <= j < end ensures NameCharacter(text[j]) {
      assert fold(text[i + (j - i)]) == fold(name[j - i]) && name[j - i] in name;
    }
    var k := WithinOneName(pieces, names, i, end);
    mine := pieces[k].name;
    var start := |Text(pieces[..k])|;
    Separations(pieces, names, k);
    OccursWithin(text, start, mine, name, i, fold);
  }

  lemma OccursWithin(text: string, start: nat, mine: string, name: string, i: nat, fold: Fold)
    requires start <= i && i + |name| <= start + |mine| <= |text| && text[start..start + |mine|] == mine && name != ""
    requires !NamedAt(text, start - 1) && !NamedAt(text, start + |mine|)
    requires Occurs(text, name, i, fold) && Whole(text, i, i + |name|)
    ensures Mentioned(mine, name, fold)
  {
    var at := i - start;
    forall k | 0 <= k < |mine| ensures mine[k] == text[start + k] {
      assert text[start..start + |mine|][k] == text[start + k];
    }
    forall j | 0 <= j < |name| ensures fold(mine[at + j]) == fold(name[j]) {
      assert fold(text[i + j]) == fold(name[j]);
    }
    assert Occurs(mine, name, at, fold) && Whole(mine, at, at + |name|);
  }

  // A text made of the target's own names, with something that is in no name between any two, mentions no foreign
  // name made of characters of names.
  lemma OwnTextMentionsNothingForeign(pieces: seq<Piece>, name: string, target: Publication, others: seq<Publication>,
                                      fold: Fold)
    requires KeepsNames(fold) && Separated(pieces, Own(target))
    requires Foreign(name, target, others, fold) && forall c :: c in name ==> NameCharacter(c)
    ensures !Mentioned(Text(pieces), name, fold)
  {
    hide Own, UniqueNames, Text, Separated;
    if Mentioned(Text(pieces), name, fold) {
      var i: nat :| i < |Text(pieces)| && Occurs(Text(pieces), name, i, fold) && Whole(Text(pieces), i, i + |name|);
      var mine := MentionIsWithinOneName(pieces, Own(target), name, i, fold);
    }
  }

  // The restriction is needed: a foreign name with a space in it can be mentioned across two own names.
  lemma SpacedNamesCanMeet(target: Publication, others: seq<Publication>, fold: Fold)
    requires Own(target) == ["a", "b"] && Foreign("a b", target, others, fold)
    ensures Separated([Name("a"), Gap(' '), Name("b")], Own(target))
    ensures Mentioned(Text([Name("a"), Gap(' '), Name("b")]), "a b", fold)
  {
    var pieces := [Name("a"), Gap(' '), Name("b")];
    assert pieces[..2] == [Name("a"), Gap(' ')] && pieces[..2][..1] == [Name("a")];
    TextOne(Name("a"));
    assert Text(pieces[..2]) == "a ";
    assert Text(pieces) == "a b";
    assert Occurs("a b", "a b", 0, fold) && Whole("a b", 0, 3);
  }
}
