// How a rebuilt line is divided: regions belong together when they charge the same since the same day.
module Grouping {
  import opened Wrappers
  import opened Prices
  import opened Names
  import opened Coverage

  // What a region charges, and since when.
  datatype Key = Key(amounts: Amounts, day: Day)

  type Regions = map<string, Key>

  // A price of the line: everywhere, or in the regions it lists.
  datatype Entry = Entry(key: Key, regions: Option<seq<string>>)

  predicate Lists(entry: Entry, region: string) {
    entry.regions.Some? && region in entry.regions.value
  }

  // An entry lists its regions, each once and in order.
  ghost predicate WellListed(entry: Entry) {
    entry.regions.Some? && entry.regions.value != [] && Ordered(entry.regions.value)
    && NoRepeats(entry.regions.value)
  }

  function FirstRegion(entry: Entry): string {
    if entry.regions.Some? && entry.regions.value != [] then entry.regions.value[0] else ""
  }

  ghost predicate InOrder(entries: seq<Entry>) {
    OrderedBy(entries, FirstRegion)
  }

  // In order, an entry has a region that comes before every region of the entries after it.
  lemma FirstComesFirst(entries: seq<Entry>, i: nat, j: nat, region: string)
    requires InOrder(entries) && i < j < |entries| && WellListed(entries[i]) && WellListed(entries[j])
    requires region in entries[j].regions.value
    ensures exists first :: first in entries[i].regions.value && AtMost(first, region)
  {
    hide AtMost;
    var names := entries[j].regions.value;
    assert AtMost(FirstRegion(entries[i]), FirstRegion(entries[j]));
    var k :| 0 <= k < |names| && names[k] == region;
    if k > 0 {
      AtMostTransitive(FirstRegion(entries[i]), names[0], region);
    }
    assert entries[i].regions.value[0] in entries[i].regions.value;
  }

  // Every region is in the one entry of its price and day, and in no other.
  ghost predicate Partitions(regions: Regions, entries: seq<Entry>) {
    && (forall i, r :: 0 <= i < |entries| && Lists(entries[i], r) ==> r in regions && regions[r] == entries[i].key)
    && (forall r :: r in regions ==> exists i :: 0 <= i < |entries| && Lists(entries[i], r))
    && forall i, j :: 0 <= i < j < |entries| ==> entries[i].key != entries[j].key
  }

  ghost predicate OnePrice(regions: Regions, amounts: Amounts) {
    regions.Keys != {} && forall r :: r in regions ==> regions[r].amounts == amounts
  }

  ghost predicate IsEarliest(regions: Regions, day: Day) {
    (exists r :: r in regions && regions[r].day == day) && forall r :: r in regions ==> day <= regions[r].day
  }

  // A dict from keys to the regions that share them, in the order the regions were read.
  ghost predicate Collected(regions: Regions, seen: set<string>, groups: map<Key, seq<string>>) {
    && (forall k, r :: k in groups && r in groups[k] ==> r in seen && r in regions && regions[r] == k)
    && (forall r :: r in seen && r in regions ==> regions[r] in groups && r in groups[regions[r]])
    && (forall k, r :: k in groups ==> multiset(groups[k])[r] <= 1)
    && forall k :: k in groups ==> groups[k] != []
  }

  lemma CollectedNext(regions: Regions, seen: set<string>, groups: map<Key, seq<string>>, region: string)
    requires Collected(regions, seen, groups) && region in regions && region !in seen
    ensures var key := regions[region];
      Collected(regions, seen + {region}, groups[key := (if key in groups then groups[key] else []) + [region]])
  {
    var key := regions[region];
    var names := if key in groups then groups[key] else [];
    assert region !in names;
    assert multiset(names)[region] == 0;
  }

  lemma NothingCollected(regions: Regions)
    ensures Collected(regions, {}, map[])
  {
  }

  method Collect(regions: Regions) returns (groups: map<Key, seq<string>>)
    ensures Collected(regions, regions.Keys, groups)
  {
    hide Collected;
    groups := map[];
    NothingCollected(regions);
    assert regions.Keys - regions.Keys == {};
    var rest := regions.Keys;
    while rest != {}
      invariant rest <= regions.Keys && Collected(regions, regions.Keys - rest, groups)
      decreases |rest|
    {
      var region :| region in rest;
      var key := regions[region];
      var names := if key in groups then groups[key] else [];
      CollectedNext(regions, regions.Keys - rest, groups, region);
      assert regions.Keys - (rest - {region}) == regions.Keys - rest + {region};
      groups := groups[key := names + [region]];
      rest := rest - {region};
    }
    assert regions.Keys - rest == regions.Keys;
  }

  // The entries of the groups whose keys are done.
  ghost predicate EntriesOf(groups: map<Key, seq<string>>, done: set<Key>, entries: seq<Entry>) {
    && (forall e :: e in entries ==> e.key in done && e.key in groups && e.regions == Some(SortNames(groups[e.key])))
    && (forall k :: k in done && k in groups ==> Entry(k, Some(SortNames(groups[k]))) in entries)
    && forall e :: multiset(entries)[e] <= 1
  }

  method Order(groups: map<Key, seq<string>>) returns (entries: seq<Entry>)
    ensures EntriesOf(groups, groups.Keys, entries) && InOrder(entries)
  {
    entries := [];
    var rest := groups.Keys;
    while rest != {}
      invariant rest <= groups.Keys && EntriesOf(groups, groups.Keys - rest, entries) && InOrder(entries)
      decreases |rest|
    {
      var key :| key in rest;
      var entry := Entry(key, Some(SortNames(groups[key])));
      InsertByElements(entries, entry, FirstRegion);
      InsertByOrdered(entries, entry, FirstRegion);
      entries := InsertBy(entries, entry, FirstRegion);
      rest := rest - {key};
    }
    assert groups.Keys - rest == groups.Keys;
  }

  lemma EntryLists(regions: Regions, groups: map<Key, seq<string>>, entries: seq<Entry>, e: Entry)
    requires Collected(regions, regions.Keys, groups) && EntriesOf(groups, groups.Keys, entries) && e in entries
    ensures WellListed(e) && forall r :: Lists(e, r) ==> r in regions && regions[r] == e.key
  {
    hide SortNames;
    SortNamesMeaning(groups[e.key]);
  }

  lemma RegionListed(regions: Regions, groups: map<Key, seq<string>>, entries: seq<Entry>, r: string)
    requires Collected(regions, regions.Keys, groups) && EntriesOf(groups, groups.Keys, entries) && r in regions
    ensures exists i :: 0 <= i < |entries| && Lists(entries[i], r)
  {
    hide SortNames;
    var entry := Entry(regions[r], Some(SortNames(groups[regions[r]])));
    SortNamesMeaning(groups[regions[r]]);
    var i :| 0 <= i < |entries| && entries[i] == entry;
    assert Lists(entries[i], r);
  }

  lemma KeysDiffer(groups: map<Key, seq<string>>, entries: seq<Entry>, i: nat, j: nat)
    requires EntriesOf(groups, groups.Keys, entries) && i < j < |entries|
    ensures entries[i].key != entries[j].key
  {
    hide SortNames;
    assert entries[i] in entries && entries[j] in entries;
    Twice(entries, i, j);
  }

  lemma EntriesPartition(regions: Regions, groups: map<Key, seq<string>>, entries: seq<Entry>)
    requires Collected(regions, regions.Keys, groups) && EntriesOf(groups, groups.Keys, entries)
    ensures Partitions(regions, entries) && forall e :: e in entries ==> WellListed(e)
  {
    hide Collected, EntriesOf, WellListed;
    forall e | e in entries ensures WellListed(e) {
      EntryLists(regions, groups, entries, e);
    }
    forall i, r | 0 <= i < |entries| && Lists(entries[i], r) ensures r in regions && regions[r] == entries[i].key {
      EntryLists(regions, groups, entries, entries[i]);
    }
    forall r | r in regions ensures exists i :: 0 <= i < |entries| && Lists(entries[i], r) {
      RegionListed(regions, groups, entries, r);
    }
    forall i: nat, j: nat | i < j < |entries| ensures entries[i].key != entries[j].key {
      KeysDiffer(groups, entries, i, j);
    }
  }

  lemma Twice(entries: seq<Entry>, i: nat, j: nat)
    requires i < j < |entries|
    ensures entries[i] == entries[j] ==> multiset(entries)[entries[i]] >= 2
  {
    assert entries == entries[..j] + entries[j..] && entries[i] == entries[..j][i] && entries[j] == entries[j..][0];
    assert entries[i] in multiset(entries[..j]) && entries[j] in multiset(entries[j..]);
  }

  lemma PricesMeaning(regions: Regions, prices: set<Amounts>)
    requires prices == set r | r in regions :: regions[r].amounts
    ensures |prices| == 1 <==> exists amounts :: OnePrice(regions, amounts)
    ensures forall amounts :: |prices| == 1 && amounts in prices ==> OnePrice(regions, amounts)
  {
    forall amounts | |prices| == 1 && amounts in prices ensures OnePrice(regions, amounts) {
      assert |prices - {amounts}| == 0;
      forall r | r in regions ensures regions[r].amounts == amounts {
        assert regions[r].amounts in prices;
      }
    }
    if |prices| == 1 {
      var amounts :| amounts in prices;
    }
    if amounts :| OnePrice(regions, amounts) {
      assert prices == {amounts};
    }
  }

  ghost predicate IsGrouping(regions: Regions, regional: bool, entries: seq<Entry>) {
    if (exists amounts :: OnePrice(regions, amounts)) && !regional then
      |entries| == 1 && entries[0].regions.None? && OnePrice(regions, entries[0].key.amounts)
      && IsEarliest(regions, entries[0].key.day)
    else Partitions(regions, entries) && InOrder(entries) && forall e :: e in entries ==> WellListed(e)
  }

  lemma KeyOf(regions: Regions, entries: seq<Entry>, i: nat, region: string)
    requires Partitions(regions, entries) && i < |entries| && Lists(entries[i], region)
    ensures region in regions && regions[region] == entries[i].key
  {
  }

  lemma ListedOnce(regions: Regions, entries: seq<Entry>, i: nat, j: nat, region: string)
    requires Partitions(regions, entries) && i < j < |entries|
    ensures !(Lists(entries[i], region) && Lists(entries[j], region))
  {
    assert entries[i].key != entries[j].key;
    if Lists(entries[i], region) {
      KeyOf(regions, entries, i, region);
    }
    if Lists(entries[j], region) {
      KeyOf(regions, entries, j, region);
    }
  }

  // The prices of a rebuilt line meet what a refresh needs of it: one serves every region, or no two serve the same.
  lemma GroupedIsRebuilt(regions: Regions, regional: bool, entries: seq<Entry>, prices: seq<Price>, line: Line)
    requires IsGrouping(regions, regional, entries) && |prices| == |entries|
    requires forall i :: 0 <= i < |prices| ==>
      prices[i].line == line && prices[i].regions == entries[i].regions && prices[i].until.None?
    ensures OneRegionless(prices) && Endless(prices)
    ensures forall i, j, region :: 0 <= i < j < |prices| ==>
      !(prices[i].AppliesTo(region) && prices[j].AppliesTo(region))
  {
    if |entries| > 1 {
      forall i | 0 <= i < |prices| ensures prices[i].regions.Some? {
        assert entries[i] in entries;
      }
      forall i, j, region | 0 <= i < j < |prices|
        ensures !(prices[i].AppliesTo(region) && prices[j].AppliesTo(region)) {
        assert entries[i] in entries && entries[j] in entries;
        ListedOnce(regions, entries, i, j, region);
      }
    }
  }

  // One price everywhere, since the earliest day of any region, unless its type is regional; otherwise a list of
  // regions for each price and day.
  method Grouped(regions: Regions, regional: bool) returns (entries: seq<Entry>)
    ensures IsGrouping(regions, regional, entries)
  {
    hide OnePrice, Collected, EntriesOf, InOrder;
    var prices := set r | r in regions :: regions[r].amounts;
    PricesMeaning(regions, prices);
    if |prices| == 1 && !regional {
      var amounts :| amounts in prices;
      var day := Earliest(regions);
      return [Entry(Key(amounts, day), None)];
    }
    var groups := Collect(regions);
    entries := Order(groups);
    EntriesPartition(regions, groups, entries);
  }

  method Earliest(regions: Regions) returns (day: Day)
    requires regions.Keys != {}
    ensures IsEarliest(regions, day)
  {
    var rest := regions.Keys;
    var first :| first in rest;
    day := regions[first].day;
    while rest != {}
      invariant rest <= regions.Keys && exists r :: r in regions && regions[r].day == day
      invariant forall r :: r in regions.Keys - rest ==> day <= regions[r].day
      decreases |rest|
    {
      var region :| region in rest;
      if regions[region].day < day {
        day := regions[region].day;
      }
      rest := rest - {region};
    }
  }
}
