// The API's rows, indexed as they are read: each meter's current row in each region.
module Indexing {
  import opened Names
  import opened Prices
  import opened Wrappers

  // A row as it is listed: when it took effect, as text and as a day, and the units its tier starts at.
  datatype ApiRow = ApiRow(meter: string, region: string, stamp: string, day: Day, tierMinimum: real)

  datatype Place = Place(product: string, meter: string, region: string)

  // A row that can be current: in a region of a cloud, of the first tier, and in effect.
  predicate Counts(row: ApiRow, today: Day) {
    CloudOf(row.region).Some? && row.tierMinimum <= 0.0 && row.day <= today
  }

  predicate After(a: ApiRow, b: ApiRow) {
    !AtMost(a.stamp, b.stamp)
  }

  // The row of a place that is current after these: the latest, and the first of those.
  function Latest(before: Option<ApiRow>, rows: seq<ApiRow>, today: Day, meter: string,
                  region: string): Option<ApiRow> {
    if rows == [] then before
    else
      var front, row := Latest(before, rows[..|rows| - 1], today, meter, region), rows[|rows| - 1];
      if row.meter == meter && row.region == region && Counts(row, today)
        && (front.None? || After(row, front.value)) then Some(row)
      else front
  }

  function Held(rows: map<Place, ApiRow>, place: Place): Option<ApiRow> {
    if place in rows then Some(rows[place]) else None
  }

  // What a place holds once a product's rows are read too.
  function HeldAfter(rows: map<Place, ApiRow>, product: string, added: seq<ApiRow>, today: Day,
                     p: Place): Option<ApiRow> {
    if p.product == product then Latest(Held(rows, p), added, today, p.meter, p.region) else Held(rows, p)
  }

  lemma HeldNext(rows: map<Place, ApiRow>, product: string, added: seq<ApiRow>, k: nat, today: Day, p: Place)
    requires k < |added|
    ensures var (row, held) := (added[k], HeldAfter(rows, product, added[..k], today, p));
      HeldAfter(rows, product, added[..k + 1], today, p)
      == if p == Place(product, row.meter, row.region) && Counts(row, today)
        && (held.None? || After(row, held.value)) then Some(row)
         else held
  {
    assert added[..k + 1][..k] == added[..k];
  }

  class Index {
    const today: Day
    var rows: map<Place, ApiRow>

    constructor (today: Day)
      ensures this.today == today && rows == map[]
    {
      this.today, rows := today, map[];
    }

    method Add(product: string, added: seq<ApiRow>)
      modifies this
      ensures forall p: Place :: Held(rows, p) == HeldAfter(old(rows), product, added, today, p)
    {
      for k := 0 to |added|
        invariant forall p: Place :: Held(rows, p) == HeldAfter(old(rows), product, added[..k], today, p)
      {
        var row := added[k];
        var place := Place(product, row.meter, row.region);
        ghost var before := rows;
        if CloudOf(row.region).Some? && row.tierMinimum <= 0.0 && row.day <= today {
          if place !in rows || After(row, rows[place]) {
            rows := rows[place := row];
          }
        }
        forall p: Place ensures Held(rows, p) == HeldAfter(old(rows), product, added[..k + 1], today, p) {
          HeldNext(old(rows), product, added, k, today, p);
          assert Held(before, p) == HeldAfter(old(rows), product, added[..k], today, p);
        }
      }
      assert added[..|added|] == added;
    }
  }

  // What the latest row means: it counts, it is one of those read, and none of its place took effect after it.
  lemma {:induction false} LatestMeaning(rows: seq<ApiRow>, today: Day, meter: string, region: string, other: ApiRow)
    ensures var latest := Latest(None, rows, today, meter, region);
      && (latest.Some? ==> latest.value in rows && latest.value.meter == meter && latest.value.region == region
                           && Counts(latest.value, today))
      && (other in rows && other.meter == meter && other.region == region && Counts(other, today) ==>
            latest.Some? && !After(other, latest.value))
  {
    if rows == [] {
    } else {
      var front, row := rows[..|rows| - 1], rows[|rows| - 1];
      assert rows == front + [row];
      LatestMeaning(front, today, meter, region, other);
      var before := Latest(None, front, today, meter, region);
      if before.Some? {
        AtMostTotal(row.stamp, before.value.stamp);
        if After(row, before.value) && AtMost(other.stamp, before.value.stamp) {
          AtMostTransitive(other.stamp, before.value.stamp, row.stamp);
        }
      }
      AtMostTotal(row.stamp, row.stamp);
    }
  }

  // Reading the same rows again changes nothing.
  lemma {:induction false} ReadAgain(rows: seq<ApiRow>, k: nat, today: Day, meter: string, region: string)
    requires k <= |rows|
    ensures var latest := Latest(None, rows, today, meter, region);
      Latest(latest, rows[..k], today, meter, region) == latest
  {
    if k == 0 {
    } else {
      ReadAgain(rows, k - 1, today, meter, region);
      assert rows[..k][..k - 1] == rows[..k - 1];
      LatestMeaning(rows, today, meter, region, rows[k - 1]);
    }
  }
}
