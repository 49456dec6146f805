// List prices with their days, the rows of the API, and how the rows date a price in a region.
module Prices {
  import opened Wrappers

  type Day = int

  // The fields two prices share when one can replace the other.
  datatype Line = Line(cloud: string, publisher: string, model: string, version: Option<string>,
                       deploymentType: Option<string>)

  datatype Amounts = Amounts(input: Option<real>, cachedInput: Option<real>, output: Option<real>,
                             ptuHourly: Option<real>)

  datatype Meters = Meters(product: Option<string>, input: Option<string>, output: Option<string>,
                           cachedInput: Option<string>, provisioned: Option<string>)

  datatype Price = Price(id: string, line: Line, aliases: Option<seq<string>>, regions: Option<seq<string>>,
                         amounts: Amounts, from: Day, until: Option<Day>, sourceIds: seq<string>,
                         meters: Option<Meters>, notes: Option<string>)
  {
    // Every field but the ID.
    predicate Same(other: Price) {
      this.(id := other.id) == other
    }

    predicate AppliesTo(region: string) {
      regions.None? || region in regions.value
    }

    // This price is in force in a region on a day.
    predicate Covers(region: string, day: Day) {
      AppliesTo(region) && from <= day && (until.None? || day <= until.value)
    }
  }

  // Two prices are the same when all that is said of them is, apart from their IDs.
  lemma SameMeaning(p: Price, q: Price)
    ensures p.Same(q) <==>
      && p.line == q.line && p.aliases == q.aliases && p.regions == q.regions && p.amounts == q.amounts
      && p.from == q.from && p.until == q.until && p.sourceIds == q.sourceIds && p.meters == q.meters
      && p.notes == q.notes
  {
  }

  // In each region that it names, or in all of them if it names none, a price is in force on no day before it begins,
  // on no day after it ends, and on every other.
  lemma CoversMeaning(price: Price, region: string, day: Day)
    ensures price.Covers(region, day) <==>
      && (price.regions == None || exists regions :: price.regions == Some(regions) && region in regions)
      && !(day < price.from) && !(exists last :: price.until == Some(last) && last < day)
  {
    assert price.regions.Some? ==> price.regions == Some(price.regions.value);
    assert price.until.Some? ==> price.until == Some(price.until.value);
  }

  // What the API has for a meter in a region: only the day matters here.
  datatype Row = Row(product: string, meter: string, region: string, effective: Day)

  // The API's rows, in the order they were read; no two have the same product, meter and region.
  type Index = seq<Row>

  function CloudOf(region: string): Option<string> {
    if region == "" || region == "Global" then None
    else if region in {"usgovarizona", "usgovtexas", "usgovvirginia"} then Some("government")
    else Some("commercial")
  }

  // Three regions are the government's; the others are commercial, where there is one.
  lemma CloudsMeaning(region: string)
    ensures CloudOf(region) == Some("government") <==> region in {"usgovvirginia", "usgovtexas", "usgovarizona"}
    ensures CloudOf(region) == None <==> region in {"Global", ""}
    ensures CloudOf(region) in {None, Some("government"), Some("commercial")}
  {
  }

  predicate RowFor(row: Row, product: string, meter: string, cloud: string) {
    row.product == product && row.meter == meter && CloudOf(row.region) == Some(cloud)
  }

  // A dict from regions to days, in the order the regions were first set.
  type Starts = seq<(string, Day)>

  predicate Has(starts: Starts, region: string) {
    starts != [] && (starts[0].0 == region || Has(starts[1..], region))
  }

  function StartOf(starts: Starts, region: string, default: Day): Day {
    if starts == [] then default
    else if starts[0].0 == region then starts[0].1
    else StartOf(starts[1..], region, default)
  }

  function MaxDay(a: Day, b: Day): Day {
    if a < b then b else a
  }

  // Raises a region's day to at least this one, or sets it.
  function Raise(starts: Starts, region: string, day: Day): Starts {
    if starts == [] then [(region, day)]
    else if starts[0].0 == region then [(region, MaxDay(starts[0].1, day))] + starts[1..]
    else [starts[0]] + Raise(starts[1..], region, day)
  }

  // The latest day among the rows of one meter, on top of the days already known.
  function MeterStarts(index: Index, product: string, meter: Option<string>, cloud: string, starts: Starts): Starts {
    if meter.None? || meter.value == "" || index == [] then starts
    else
      var row, front := index[|index| - 1], MeterStarts(index[..|index| - 1], product, meter, cloud, starts);
      if RowFor(row, product, meter.value, cloud) then Raise(front, row.region, row.effective) else front
  }

  function MeterList(meters: Meters): seq<Option<string>> {
    [meters.input, meters.output, meters.cachedInput, meters.provisioned]
  }

  function StartsUpTo(index: Index, product: string, meters: seq<Option<string>>, cloud: string): Starts {
    if meters == [] then []
    else
      MeterStarts(index, product, meters[|meters| - 1], cloud,
                  StartsUpTo(index, product, meters[..|meters| - 1], cloud))
  }

  // Where the rows of a price's meters date it: the regions, each with the latest of its rows' days.
  function RegionStarts(price: Price, index: Index): Starts {
    if price.meters.None? || price.meters.value.product.None? || price.meters.value.product.value == "" then []
    else StartsUpTo(index, price.meters.value.product.value, MeterList(price.meters.value), price.line.cloud)
  }

  // The loops of region_starts.
  method ComputeRegionStarts(price: Price, index: Index) returns (starts: Starts)
    ensures starts == RegionStarts(price, index)
  {
    starts := [];
    if price.meters.None? || price.meters.value.product.None? || price.meters.value.product.value == "" {
      return;
    }
    var product, meters := price.meters.value.product.value, MeterList(price.meters.value);
    for k := 0 to |meters|
      invariant starts == StartsUpTo(index, product, meters[..k], price.line.cloud)
    {
      assert meters[..k + 1][..k] == meters[..k];
      starts := AddMeter(index, product, meters[k], price.line.cloud, starts);
    }
    assert meters[..|meters|] == meters;
  }

  method AddMeter(index: Index, product: string, meter: Option<string>, cloud: string, before: Starts)
    returns (starts: Starts)
    ensures starts == MeterStarts(index, product, meter, cloud, before)
  {
    starts := before;
    if meter.None? || meter.value == "" {
      return;
    }
    for i := 0 to |index|
      invariant starts == MeterStarts(index[..i], product, meter, cloud, before)
    {
      assert index[..i + 1][..i] == index[..i];
      if RowFor(index[i], product, meter.value, cloud) {
        starts := Raise(starts, index[i].region, index[i].effective);
      }
    }
    assert index[..|index|] == index;
  }

  lemma {:induction false} RaiseMeaning(starts: Starts, region: string, day: Day, other: string, default: Day)
    ensures Has(Raise(starts, region, day), other) <==> Has(starts, other) || other == region
    ensures StartOf(Raise(starts, region, day), other, default)
         == if other == region then (if Has(starts, region) then MaxDay(StartOf(starts, region, default), day) else day)
            else StartOf(starts, other, default)
  {
    if starts != [] && starts[0].0 != region {
      RaiseMeaning(starts[1..], region, day, other, default);
    }
  }

  predicate MeterRow(row: Row, product: string, meter: Option<string>, cloud: string, region: string) {
    meter.Some? && meter.value != "" && RowFor(row, product, meter.value, cloud) && row.region == region
  }

  predicate MetersRow(row: Row, product: string, meters: seq<Option<string>>, cloud: string, region: string) {
    exists k :: 0 <= k < |meters| && MeterRow(row, product, meters[k], cloud, region)
  }

  // The rows that date a price in a region: those of its product and of one of its four meters there, in its cloud.
  lemma MetersRowMeaning(row: Row, product: string, meters: Meters, cloud: string, region: string)
    ensures MetersRow(row, product, MeterList(meters), cloud, region) <==>
      && row.meter != "" && Some(row.meter) in {meters.provisioned, meters.cachedInput, meters.output, meters.input}
      && row.product == product && row.region == region && CloudOf(region) == Some(cloud)
  {
    hide CloudOf;
    var list := MeterList(meters);
    var k := if list[0] == Some(row.meter) then 0 else if list[1] == Some(row.meter) then 1
             else if list[2] == Some(row.meter) then 2 else 3;
    assert MeterRow(row, product, list[k], cloud, region) ==> MetersRow(row, product, list, cloud, region);
  }

  // A day is the latest among some rows.
  ghost predicate IsLatest(day: Day, rows: iset<Row>) {
    (exists row :: row in rows && row.effective == day) && forall row :: row in rows ==> row.effective <= day
  }

  lemma {:induction false} MeterStartsMeaning(index: Index, product: string, meter: Option<string>, cloud: string,
                                              starts: Starts, known: iset<Row>, region: string)
    requires Has(starts, region) <==> exists row :: row in known
    requires Has(starts, region) ==> IsLatest(StartOf(starts, region, 0), known)
    ensures var all := known + iset row | row in index && MeterRow(row, product, meter, cloud, region);
      var result := MeterStarts(index, product, meter, cloud, starts);
      (Has(result, region) <==> exists row :: row in all)
        && (Has(result, region) ==> IsLatest(StartOf(result, region, 0), all))
  {
    var all := known + iset row | row in index && MeterRow(row, product, meter, cloud, region);
    if meter.None? || meter.value == "" || index == [] {
      assert all == known;
    } else {
      var front, row := index[..|index| - 1], index[|index| - 1];
      assert index == front + [row];
      MeterStartsMeaning(front, product, meter, cloud, starts, known, region);
      var before := MeterStarts(front, product, meter, cloud, starts);
      RaiseMeaning(before, row.region, row.effective, region, 0);
      var earlier := known + iset r | r in front && MeterRow(r, product, meter, cloud, region);
      assert all == if MeterRow(row, product, meter, cloud, region) then earlier + iset{row} else earlier;
    }
  }

  lemma {:induction false} StartsUpToMeaning(index: Index, product: string, meters: seq<Option<string>>, cloud: string,
                                             region: string)
    ensures var all := iset row | row in index && MetersRow(row, product, meters, cloud, region);
      var result := StartsUpTo(index, product, meters, cloud);
      (Has(result, region) <==> exists row :: row in all)
        && (Has(result, region) ==> IsLatest(StartOf(result, region, 0), all))
  {
    if meters == [] {
    } else {
      var front, last := meters[..|meters| - 1], meters[|meters| - 1];
      assert meters == front + [last];
      StartsUpToMeaning(index, product, front, cloud, region);
      var known := iset row | row in index && MetersRow(row, product, front, cloud, region);
      MeterStartsMeaning(index, product, last, cloud, StartsUpTo(index, product, front, cloud), known, region);
      forall row ensures MetersRow(row, product, meters, cloud, region)
        <==> MetersRow(row, product, front, cloud, region) || MeterRow(row, product, last, cloud, region)
      {
        if MeterRow(row, product, last, cloud, region) {
          assert meters[|front|] == last;
        }
        if MetersRow(row, product, front, cloud, region) {
          var k :| 0 <= k < |front| && MeterRow(row, product, front[k], cloud, region);
          assert meters[k] == front[k];
        }
      }
      assert known + (iset row | row in index && MeterRow(row, product, last, cloud, region))
          == iset row | row in index && MetersRow(row, product, meters, cloud, region);
    }
  }

  // A region is listed when a row of one of the price's meters prices it there, from the latest such row's day.
  lemma RegionStartsMeaning(price: Price, index: Index, region: string)
    requires price.meters.Some? && price.meters.value.product.Some? && price.meters.value.product.value != ""
    ensures var all := iset row | row in index
              && MetersRow(row, price.meters.value.product.value, MeterList(price.meters.value), price.line.cloud,
                           region);
      var starts := RegionStarts(price, index);
      (Has(starts, region) <==> exists row :: row in all)
        && (Has(starts, region) ==> IsLatest(StartOf(starts, region, 0), all))
  {
    StartsUpToMeaning(index, price.meters.value.product.value, MeterList(price.meters.value), price.line.cloud, region);
  }

  predicate DistinctRegions(starts: Starts) {
    forall i, j :: 0 <= i < j < |starts| ==> starts[i].0 != starts[j].0
  }

  lemma {:induction false} RaiseDistinct(starts: Starts, region: string, day: Day)
    requires DistinctRegions(starts)
    ensures DistinctRegions(Raise(starts, region, day))
    ensures forall i :: 0 <= i < |Raise(starts, region, day)| ==>
      Raise(starts, region, day)[i].0 == region
      || exists j :: 0 <= j < |starts| && starts[j].0 == Raise(starts, region, day)[i].0
  {
    if starts != [] && starts[0].0 != region {
      RaiseDistinct(starts[1..], region, day);
    }
  }

  lemma {:induction false} MeterStartsDistinct(index: Index, product: string, meter: Option<string>, cloud: string,
                                               starts: Starts)
    requires DistinctRegions(starts)
    ensures DistinctRegions(MeterStarts(index, product, meter, cloud, starts))
  {
    if !(meter.None? || meter.value == "" || index == []) {
      var front, row := index[..|index| - 1], index[|index| - 1];
      MeterStartsDistinct(front, product, meter, cloud, starts);
      RaiseDistinct(MeterStarts(front, product, meter, cloud, starts), row.region, row.effective);
    }
  }

  lemma {:induction false} StartsUpToDistinct(index: Index, product: string, meters: seq<Option<string>>, cloud: string)
    ensures DistinctRegions(StartsUpTo(index, product, meters, cloud))
  {
    if meters == [] {
    } else {
      var front := meters[..|meters| - 1];
      StartsUpToDistinct(index, product, front, cloud);
      MeterStartsDistinct(index, product, meters[|meters| - 1], cloud, StartsUpTo(index, product, front, cloud));
    }
  }
}
