/** `DataPreprocessor` of the station-sales consolidation: per-station total
    sales from the forecast records, the join with the station list, the
    assignment of every station to its nearest township, and the per-township
    totals and sales proportions.  The geodesic distance is a parameter
    `dist`; a table is a sequence of rows; a missing number (NaN) is `None`. */
module StationSales {
  import opened Seqs

  type Coord = (real, real)

  // ---------------------------------------------------------------- station sales

  /** One forecast record after `to_numeric(errors='coerce')`. */
  datatype Record = Record(id: string, product: string, region: string, sales: Option<real>)

  /** One row of the pivoted table: a station, its per-product mean sales
      (in product-column order, `None` where missing) and their total. */
  datatype Station = Station(region: string, id: string, sales: seq<Option<real>>, total: real)

  function Sum(xs: seq<real>): real
  {
    if xs == [] then 0.0 else Sum(xs[..|xs| - 1]) + xs[|xs| - 1]
  }

  /** A record belongs to the (id, product, region) group. */
  predicate InGroup(r: Record, id: string, product: string, region: string)
  {
    r.id == id && r.product == product && r.region == region
  }

  /** The positions of the group's records with a numeric sale. */
  function GroupIndices(records: seq<Record>, id: string, product: string, region: string): set<nat>
  {
    set i: nat | i < |records| && InGroup(records[i], id, product, region) && records[i].sales.Some?
  }

  /** The numeric sales of the records of one (id, product, region) group:
      exactly the group's numeric values, one per record that has one. */
  function GroupSales(records: seq<Record>, id: string, product: string, region: string): (r: seq<real>)
    ensures forall x :: x in r <==>
              exists i :: 0 <= i < |records| && InGroup(records[i], id, product, region) && records[i].sales == Some(x)
  {
    if records == [] then []
    else
      var n := |records| - 1;
      var p := GroupSales(records[..n], id, product, region);
      assert forall i :: 0 <= i < n ==> records[..n][i] == records[i];
      var e := records[n];
      if InGroup(e, id, product, region) && e.sales.Some?
      then p + [e.sales.value] else p
  }

  /** One value per record of the group that has a numeric sale. */
  lemma {:induction false} GroupSalesCount(records: seq<Record>, id: string, product: string, region: string)
    ensures |GroupSales(records, id, product, region)| == |GroupIndices(records, id, product, region)|
  {
    if records != [] {
      GroupSalesCount(records[..|records| - 1], id, product, region);
      GroupIndicesSnoc(records, id, product, region);
    }
  }

  lemma GroupIndicesSnoc(records: seq<Record>, id: string, product: string, region: string)
    requires records != []
    ensures var n := |records| - 1;
            var e := records[n];
            GroupIndices(records, id, product, region) ==
              GroupIndices(records[..n], id, product, region) +
              (if InGroup(e, id, product, region) && e.sales.Some? then {n} else {})
  {
    var n := |records| - 1;
    assert forall i :: 0 <= i < n ==> records[..n][i] == records[i];
  }

  /** `mean()` of a group, which skips missing values and is missing when
      nothing is left. */
  function Mean(xs: seq<real>): Option<real>
  {
    if xs == [] then None else Some(Sum(xs) / (|xs| as real))
  }

  lemma {:induction false} SumBounds(xs: seq<real>, lo: real, hi: real)
    requires forall x :: x in xs ==> lo <= x <= hi
    ensures lo * (|xs| as real) <= Sum(xs) <= hi * (|xs| as real)
  {
    if xs != [] {
      var n := |xs| - 1;
      assert forall x :: x in xs[..n] ==> x in xs;
      assert xs[n] in xs;
      SumBounds(xs[..n], lo, hi);
      assert lo * ((n + 1) as real) == lo * (n as real) + lo;
      assert hi * ((n + 1) as real) == hi * (n as real) + hi;
    }
  }

  /** A group mean lies between any bounds of the group's sales. */
  lemma MeanBetween(xs: seq<real>, lo: real, hi: real)
    requires xs != []
    requires forall x :: x in xs ==> lo <= x <= hi
    ensures Mean(xs).Some? && lo <= Mean(xs).value <= hi
  {
    SumBounds(xs, lo, hi);
    var n := |xs| as real;
    assert lo * n / n == lo && hi * n / n == hi;
    DivideMonotone(lo * n, Sum(xs), n);
    DivideMonotone(Sum(xs), hi * n, n);
  }

  lemma DivideMonotone(a: real, b: real, n: real)
    requires a <= b && n > 0.0
    ensures a / n <= b / n
  {
  }

  /** `sum(axis=1)` over the product columns, which skips missing values. */
  function SumPresent(xs: seq<Option<real>>): real
  {
    if xs == [] then 0.0
    else SumPresent(xs[..|xs| - 1]) + (if xs[|xs| - 1].Some? then xs[|xs| - 1].value else 0.0)
  }

  function StationKey(r: Record): (string, string)
  {
    (r.region, r.id)
  }

  function Product(r: Record): string
  {
    r.product
  }

  /** The product columns of the pivot. */
  function Products(records: seq<Record>): seq<string>
  {
    Dedup(seq(|records|, i requires 0 <= i < |records| => records[i].product))
  }

  /** `get_station_sales` on the loaded records: one row per (region, id)
      pair, each with the mean sales of every product and their total. */
  function StationSalesOf(records: seq<Record>): (r: seq<Station>)
    ensures |r| == |DedupBy(records, StationKey)|
    ensures forall i :: 0 <= i < |r| ==> |r[i].sales| == |Products(records)|
  {
    var keys := DedupBy(records, StationKey);
    var products := Products(records);
    seq(|keys|, i requires 0 <= i < |keys| =>
      var sales := seq(|products|, j requires 0 <= j < |products| =>
        Mean(GroupSales(records, keys[i].id, products[j], keys[i].region)));
      Station(keys[i].region, keys[i].id, sales, SumPresent(sales)))
  }

  /** Every (region, id) pair of the records has exactly one station row. */
  lemma StationRowsUnique(records: seq<Record>)
    ensures forall i, j :: 0 <= i < j < |StationSalesOf(records)| ==>
              (StationSalesOf(records)[i].region, StationSalesOf(records)[i].id) !=
              (StationSalesOf(records)[j].region, StationSalesOf(records)[j].id)
    ensures forall r :: r in records ==>
              exists i :: 0 <= i < |StationSalesOf(records)| &&
                StationSalesOf(records)[i].region == r.region && StationSalesOf(records)[i].id == r.id
  {
    var keys := DedupBy(records, StationKey);
    DedupByFirstOccurrences(records, StationKey);
    forall r | r in records
      ensures exists i :: 0 <= i < |StationSalesOf(records)| &&
                StationSalesOf(records)[i].region == r.region && StationSalesOf(records)[i].id == r.id
    {
      var k :| 0 <= k < |records| && records[k] == r;
      assert StationKey(records[k]) == StationKey(r);
      DedupByKeys(records, StationKey, StationKey(r));
      var i :| 0 <= i < |keys| && StationKey(keys[i]) == StationKey(r);
      assert StationSalesOf(records)[i].region == keys[i].region;
    }
  }

  /** The product columns are the distinct product labels of the records. */
  lemma ProductsMeaning(records: seq<Record>)
    ensures forall p :: p in Products(records) <==> exists r :: r in records && r.product == p
    ensures forall i, j :: 0 <= i < j < |Products(records)| ==> Products(records)[i] != Products(records)[j]
  {
    var labels := seq(|records|, i requires 0 <= i < |records| => records[i].product);
    forall p
      ensures p in Products(records) <==> exists r :: r in records && r.product == p
    {
      DedupMembers(labels, p);
      if p in labels {
        var i :| 0 <= i < |labels| && labels[i] == p;
        assert records[i] in records;
      }
      if r :| r in records && r.product == p {
        var i :| 0 <= i < |records| && records[i] == r;
        assert labels[i] == p;
      }
    }
    DedupDistinct(labels);
  }

  /** Row i is a station of the records; its figure for product column j is
      the mean of the numeric sales of that (id, product, region) group,
      missing exactly when the group has no numeric sale; and its total is
      the sum of the figures that are present. */
  lemma StationSalesMeaning(records: seq<Record>, i: nat, j: nat)
    requires i < |StationSalesOf(records)| && j < |Products(records)|
    ensures var st := StationSalesOf(records)[i];
            exists k :: 0 <= k < |records| && records[k].region == st.region && records[k].id == st.id
    ensures var st := StationSalesOf(records)[i];
            |st.sales| == |Products(records)| &&
            st.sales[j] == Mean(GroupSales(records, st.id, Products(records)[j], st.region))
    ensures var st := StationSalesOf(records)[i];
            st.sales[j].None? <==>
              forall k :: 0 <= k < |records| && InGroup(records[k], st.id, Products(records)[j], st.region) ==>
                records[k].sales.None?
    ensures StationSalesOf(records)[i].total == SumPresent(StationSalesOf(records)[i].sales)
  {
    var st := StationSalesOf(records)[i];
    var keys := DedupBy(records, StationKey);
    DedupByElements(records, StationKey);
    assert keys[i] in keys;
    var xs := GroupSales(records, st.id, Products(records)[j], st.region);
    forall k | 0 <= k < |records| && InGroup(records[k], st.id, Products(records)[j], st.region) && records[k].sales.Some?
      ensures xs != []
    {
      assert records[k].sales.value in xs;
    }
    if xs != [] {
      assert xs[0] in xs;
    }
  }

  /** Every figure of the pivot lies between any bounds of its group's
      numeric sales. */
  lemma StationMeanBetween(records: seq<Record>, i: nat, j: nat, lo: real, hi: real)
    requires i < |StationSalesOf(records)| && j < |Products(records)|
    requires forall k ::
               (0 <= k < |records| && records[k].sales.Some? &&
                InGroup(records[k], StationSalesOf(records)[i].id, Products(records)[j], StationSalesOf(records)[i].region))
               ==> lo <= records[k].sales.value <= hi
    ensures StationSalesOf(records)[i].sales[j].Some? ==> lo <= StationSalesOf(records)[i].sales[j].value <= hi
  {
    var st := StationSalesOf(records)[i];
    StationSalesMeaning(records, i, j);
    var xs := GroupSales(records, st.id, Products(records)[j], st.region);
    if xs != [] {
      forall x | x in xs
        ensures lo <= x <= hi
      {
        var k :| 0 <= k < |records| && InGroup(records[k], st.id, Products(records)[j], st.region) && records[k].sales == Some(x);
      }
      MeanBetween(xs, lo, hi);
    }
  }

  /** With non-negative sales, every per-product mean is non-negative and at
      most the station's total, which is non-negative too. */
  lemma StationTotalBounds(records: seq<Record>, i: nat)
    requires forall r :: r in records && r.sales.Some? ==> r.sales.value >= 0.0
    requires i < |StationSalesOf(records)|
    ensures var st := StationSalesOf(records)[i];
            forall j :: 0 <= j < |st.sales| && st.sales[j].Some? ==> 0.0 <= st.sales[j].value <= st.total
    ensures StationSalesOf(records)[i].total >= 0.0
  {
    var st := StationSalesOf(records)[i];
    var keys := DedupBy(records, StationKey);
    var products := Products(records);
    forall j | 0 <= j < |st.sales| && st.sales[j].Some?
      ensures st.sales[j].value >= 0.0
    {
      var xs := GroupSales(records, keys[i].id, products[j], keys[i].region);
      forall x | x in xs
        ensures x >= 0.0
      {
        var k :| 0 <= k < |records| && records[k].sales == Some(x);
        assert records[k] in records;
      }
      assert xs != [];
      SumNonNegative(xs);
      DivideMonotone(0.0, Sum(xs), |xs| as real);
    }
    SumPresentBounds(st.sales);
  }

  lemma {:induction false} SumNonNegative(xs: seq<real>)
    requires forall x :: x in xs ==> x >= 0.0
    ensures Sum(xs) >= 0.0
  {
    if xs != [] {
      var p := xs[..|xs| - 1];
      forall x | x in p
        ensures x >= 0.0
      {
        var k :| 0 <= k < |p| && p[k] == x;
        assert xs[k] == x;
        assert xs[k] in xs;
      }
      assert xs[|xs| - 1] in xs;
      SumNonNegative(p);
    }
  }

  /** A sum of non-negative present values is non-negative and bounds each
      of them. */
  lemma {:induction false} SumPresentBounds(xs: seq<Option<real>>)
    requires forall k :: 0 <= k < |xs| && xs[k].Some? ==> xs[k].value >= 0.0
    ensures SumPresent(xs) >= 0.0
    ensures forall j :: 0 <= j < |xs| && xs[j].Some? ==> xs[j].value <= SumPresent(xs)
  {
    if xs != [] {
      var n := |xs| - 1;
      var p := xs[..n];
      assert forall k :: 0 <= k < n ==> p[k] == xs[k];
      SumPresentBounds(p);
    }
  }

  // ---------------------------------------------------------------- station list join

  /** One row of the station list: its fuel account and its coordinates. */
  datatype Site = Site(fuelAcc: string, latitude: real, longitude: real)

  /** One row of the inner join. */
  datatype Merged = Merged(site: Site, station: Station)

  /** The station rows whose id matches a site's fuel account, in order. */
  function Matches(site: Site, stations: seq<Station>): (r: seq<Merged>)
    ensures forall m :: m in r <==> m.site == site && m.station in stations && m.station.id == site.fuelAcc
  {
    if stations == [] then []
    else
      var n := |stations| - 1;
      var p := Matches(site, stations[..n]);
      assert forall s :: s in stations <==> s in stations[..n] || s == stations[n];
      if stations[n].id == site.fuelAcc then p + [Merged(site, stations[n])] else p
  }

  /** `merge(how='inner', left_on='Fuel Acc', right_on='id')`: for each site
      in order, its matching station rows. */
  function InnerJoin(sites: seq<Site>, stations: seq<Station>): (r: seq<Merged>)
    ensures forall m :: m in r <==> m.site in sites && m.station in stations && m.station.id == m.site.fuelAcc
  {
    if sites == [] then []
    else
      var n := |sites| - 1;
      assert forall s :: s in sites <==> s in sites[..n] || s == sites[n];
      InnerJoin(sites[..n], stations) + Matches(sites[n], stations)
  }

  // ---------------------------------------------------------------- nearest township

  /** One row of the district table. */
  datatype District = District(township: string, latitude: real, longitude: real)

  function DistanceTo(d: District, lat: real, long: real, dist: (Coord, Coord) -> real): real
  {
    dist((d.latitude, d.longitude), (lat, long))
  }

  /** The position of a district at the smallest distance. */
  function ClosestIndex(districts: seq<District>, lat: real, long: real,
                                           dist: (Coord, Coord) -> real): (k: nat)
    requires districts != []
    ensures k < |districts|
    ensures forall j :: 0 <= j < |districts| ==>
              DistanceTo(districts[k], lat, long, dist) <= DistanceTo(districts[j], lat, long, dist)
  {
    var n := |districts| - 1;
    if n == 0 then 0
    else
      var k := ClosestIndex(districts[..n], lat, long, dist);
      assert districts[..n][k] == districts[k];
      assert forall j :: 0 <= j < n ==> districts[..n][j] == districts[j];
      if DistanceTo(districts[n], lat, long, dist) < DistanceTo(districts[k], lat, long, dist) then n else k
  }

  /** `assign_closest_township`: the township of a district at the smallest
      distance from the station (which one among equals is not promised);
      `None` when there is no district, where `values[0]` raises. */
  function ClosestTownship(districts: seq<District>, lat: real, long: real,
                           dist: (Coord, Coord) -> real): (r: Option<string>)
    ensures r.None? <==> districts == []
    ensures r.Some? ==>
              (exists k :: 0 <= k < |districts| && districts[k].township == r.value &&
                 forall j :: 0 <= j < |districts| ==>
                   DistanceTo(districts[k], lat, long, dist) <= DistanceTo(districts[j], lat, long, dist))
  {
    if districts == [] then None
    else Some(districts[ClosestIndex(districts, lat, long, dist)].township)
  }

  /** A joined row with its assigned township. */
  datatype Assigned = Assigned(row: Merged, township: string)

  /** The `Assigned Township` column; `None` when a row finds no district. */
  function AssignTownships(rows: seq<Merged>, districts: seq<District>,
                           dist: (Coord, Coord) -> real): (r: Option<seq<Assigned>>)
    ensures r.None? <==> rows != [] && districts == []
    ensures r.Some? ==> |r.value| == |rows|
    ensures r.Some? ==> forall i :: 0 <= i < |rows| ==>
              r.value[i].row == rows[i] &&
              Some(r.value[i].township) ==
                ClosestTownship(districts, rows[i].site.latitude, rows[i].site.longitude, dist)
  {
    if rows == [] then Some([])
    else if districts == [] then None
    else
      Some(seq(|rows|, i requires 0 <= i < |rows| =>
        Assigned(rows[i], ClosestTownship(districts, rows[i].site.latitude, rows[i].site.longitude, dist).value)))
  }

  /** Every joined row is assigned the township of a district at minimal
      distance from its site. */
  lemma AssignedNearest(rows: seq<Merged>, districts: seq<District>, dist: (Coord, Coord) -> real, i: nat)
    requires AssignTownships(rows, districts, dist).Some? && i < |rows|
    ensures var a := AssignTownships(rows, districts, dist).value;
            var site := rows[i].site;
            exists k :: 0 <= k < |districts| && districts[k].township == a[i].township &&
              forall j :: 0 <= j < |districts| ==>
                DistanceTo(districts[k], site.latitude, site.longitude, dist) <=
                DistanceTo(districts[j], site.latitude, site.longitude, dist)
  {
    var site := rows[i].site;
    var c := ClosestTownship(districts, site.latitude, site.longitude, dist);
    assert c.Some?;
  }

  // ---------------------------------------------------------------- per-township totals

  /** `groupby('Assigned Township')['Total Sales'].sum()` for one township. */
  function TownshipTotal(rows: seq<Assigned>, t: string): real
  {
    if rows == [] then 0.0
    else
      var last := rows[|rows| - 1];
      TownshipTotal(rows[..|rows| - 1], t) + (if last.township == t then last.row.station.total else 0.0)
  }

  predicate HasStation(rows: seq<Assigned>, t: string)
  {
    exists i :: 0 <= i < |rows| && rows[i].township == t
  }

  /** The `Total Sales` column after the left merge: missing for a township
      no station is assigned to. */
  function DistrictTotal(rows: seq<Assigned>, t: string): Option<real>
  {
    if HasStation(rows, t) then Some(TownshipTotal(rows, t)) else None
  }

  /** A township without stations has a zero total. */
  lemma {:induction false} NoStationNoTotal(rows: seq<Assigned>, t: string)
    requires !HasStation(rows, t)
    ensures TownshipTotal(rows, t) == 0.0
  {
    if rows != [] {
      var n := |rows| - 1;
      assert rows[n].township != t;
      forall i | 0 <= i < n
        ensures rows[..n][i].township != t
      {
        assert rows[..n][i] == rows[i];
      }
      NoStationNoTotal(rows[..n], t);
    }
  }

  /** The districts kept by `loc[Total Sales > 0]`, with their totals. */
  function Kept(districts: seq<District>, rows: seq<Assigned>): (r: seq<(District, real)>)
    ensures forall e :: e in r <==>
              e.0 in districts && DistrictTotal(rows, e.0.township) == Some(e.1) && e.1 > 0.0
    ensures forall e :: e in r ==> e.1 > 0.0
  {
    if districts == [] then []
    else
      var n := |districts| - 1;
      var p := Kept(districts[..n], rows);
      assert forall d :: d in districts <==> d in districts[..n] || d == districts[n];
      var t := DistrictTotal(rows, districts[n].township);
      if t.Some? && t.value > 0.0 then p + [(districts[n], t.value)] else p
  }

  function KeptTotal(e: (District, real)): real
  {
    e.1
  }

  /** A kept district with its total and its share. */
  datatype Share = Share(district: District, total: real, proportion: real)

  /** `Proportion Sales`: each kept total divided by the sum of the kept
      totals. */
  function Shares(kept: seq<(District, real)>): (r: seq<Share>)
    requires forall e :: e in kept ==> e.1 > 0.0
    ensures |r| == |kept|
  {
    var sum := SumBy(kept, KeptTotal);
    PositiveSum(kept);
    seq(|kept|, i requires 0 <= i < |kept| => Share(kept[i].0, kept[i].1, kept[i].1 / sum))
  }

  function Proportion(s: Share): real
  {
    s.proportion
  }

  /** Positive totals have a positive sum. */
  lemma PositiveSum(kept: seq<(District, real)>)
    requires forall e :: e in kept ==> e.1 > 0.0
    ensures kept != [] ==> SumBy(kept, KeptTotal) > 0.0
  {
    if kept != [] {
      assert kept[0] in kept;
      PartBelowSum(kept, 0);
    }
  }

  /** Every proportion lies in (0, 1] and belongs to the district and total
      at the same position. */
  lemma ShareBounds(kept: seq<(District, real)>, i: nat)
    requires forall e :: e in kept ==> e.1 > 0.0
    requires i < |kept|
    ensures 0.0 < Shares(kept)[i].proportion <= 1.0
    ensures Shares(kept)[i].district == kept[i].0 && Shares(kept)[i].total == kept[i].1
  {
    var sum := SumBy(kept, KeptTotal);
    assert kept[i] in kept;
    PartBelowSum(kept, i);
    PositiveSum(kept);
    DivideMonotone(kept[i].1, sum, sum);
    assert sum / sum == 1.0;
  }

  /** The proportions add up to 1. */
  lemma ShareTotal(kept: seq<(District, real)>)
    requires forall e :: e in kept ==> e.1 > 0.0
    requires kept != []
    ensures SumBy(Shares(kept), Proportion) == 1.0
  {
    var sum := SumBy(kept, KeptTotal);
    PositiveSum(kept);
    ShareSum(kept, |kept|, sum);
    assert kept[..|kept|] == kept;
    assert Shares(kept)[..|kept|] == Shares(kept);
    assert sum / sum == 1.0;
  }

  /** With positive totals, each total is at most their sum. */
  lemma {:induction false} PartBelowSum(kept: seq<(District, real)>, i: nat)
    requires forall e :: e in kept ==> e.1 > 0.0
    requires i < |kept|
    ensures kept[i].1 <= SumBy(kept, KeptTotal)
  {
    var n := |kept| - 1;
    var p := kept[..n];
    assert forall e :: e in p ==> e in kept;
    assert kept[n] in kept;
    SumByNonNegative(p, KeptTotal);
    if i < n {
      assert p[i] == kept[i];
      PartBelowSum(p, i);
    }
  }

  /** The first m proportions add up to the first m totals over the sum. */
  lemma {:induction false} ShareSum(kept: seq<(District, real)>, m: nat, sum: real)
    requires forall e :: e in kept ==> e.1 > 0.0
    requires sum == SumBy(kept, KeptTotal) && sum > 0.0 && m <= |kept|
    ensures SumBy(Shares(kept)[..m], Proportion) == SumBy(kept[..m], KeptTotal) / sum
  {
    if m > 0 {
      ShareSum(kept, m - 1, sum);
      var s := Shares(kept);
      assert s[..m][..m - 1] == s[..m - 1];
      assert kept[..m][..m - 1] == kept[..m - 1];
      assert s[m - 1].proportion == kept[m - 1].1 / sum;
      DivideAdd(SumBy(kept[..m - 1], KeptTotal), kept[m - 1].1, sum);
    } else {
      assert Shares(kept)[..0] == [];
      assert kept[..0] == [];
    }
  }

  lemma DivideAdd(a: real, b: real, c: real)
    requires c > 0.0
    ensures a / c + b / c == (a + b) / c
  {
  }

  // ---------------------------------------------------------------- merge_data

  /** `merge_data` on the loaded tables: the districts with positive sales,
      their totals and proportions; `None` when a station finds no
      district. */
  function MergeData(sites: seq<Site>, records: seq<Record>, districts: seq<District>,
                     dist: (Coord, Coord) -> real): Option<seq<Share>>
  {
    var rows := InnerJoin(sites, StationSalesOf(records));
    match AssignTownships(rows, districts, dist)
    case None => None
    case Some(table) => Some(Shares(Kept(districts, table)))
  }

  /** The result lists exactly the districts whose assigned stations have a
      positive total, each with that total and a proportion in (0, 1], the
      proportions adding up to 1. */
  lemma MergeDataMeaning(sites: seq<Site>, records: seq<Record>, districts: seq<District>,
                         dist: (Coord, Coord) -> real)
    requires MergeData(sites, records, districts, dist).Some?
    ensures var out := MergeData(sites, records, districts, dist).value;
            var table := AssignTownships(InnerJoin(sites, StationSalesOf(records)), districts, dist).value;
            (forall i :: 0 <= i < |out| ==>
               out[i].district in districts &&
               DistrictTotal(table, out[i].district.township) == Some(out[i].total) &&
               out[i].total > 0.0 && 0.0 < out[i].proportion <= 1.0) &&
            (out != [] ==> SumBy(out, Proportion) == 1.0)
  {
    var table := AssignTownships(InnerJoin(sites, StationSalesOf(records)), districts, dist).value;
    var kept := Kept(districts, table);
    forall i | 0 <= i < |kept|
      ensures kept[i].0 in districts && DistrictTotal(table, kept[i].0.township) == Some(kept[i].1)
      ensures 0.0 < Shares(kept)[i].proportion <= 1.0
      ensures Shares(kept)[i].district == kept[i].0 && Shares(kept)[i].total == kept[i].1
    {
      assert kept[i] in kept;
      ShareBounds(kept, i);
    }
    if kept != [] {
      ShareTotal(kept);
    }
  }

  /** Sales are conserved by the township totals: when the district
      townships are distinct and every row's township is one of them, the
      township totals add up to the total sales of all rows. */
  lemma {:induction false} TownshipTotalsConserve(districts: seq<District>, rows: seq<Assigned>)
    requires forall i, j :: 0 <= i < j < |districts| ==> districts[i].township != districts[j].township
    requires forall r :: r in rows ==> exists d :: d in districts && d.township == r.township
    ensures SumTownships(districts, rows) == SumRows(rows)
  {
    if rows != [] {
      var n := |rows| - 1;
      assert forall r :: r in rows[..n] ==> r in rows;
      TownshipTotalsConserve(districts, rows[..n]);
      assert rows[n] in rows;
      var d :| d in districts && d.township == rows[n].township;
      var k :| 0 <= k < |districts| && districts[k] == d;
      assert districts[k].township == rows[n].township;
      SplitLastRow(districts, rows, |districts|);
      OneTownshipMatches(districts, rows[n].township, rows[n].row.station.total, |districts|);
      assert Indicator(districts, rows[n].township, rows[n].row.station.total, |districts|)
             == rows[n].row.station.total;
      assert SumRows(rows) == SumRows(rows[..n]) + rows[n].row.station.total;
    } else {
      NoRowsNoTotals(districts, |districts|);
    }
  }

  lemma {:induction false} NoRowsNoTotals(districts: seq<District>, m: nat)
    requires m <= |districts|
    ensures SumTownshipsUpTo(districts, [], m) == 0.0
  {
    if m > 0 {
      NoRowsNoTotals(districts, m - 1);
    }
  }

  /** The township totals of the first m districts. */
  function SumTownshipsUpTo(districts: seq<District>, rows: seq<Assigned>, m: nat): real
    requires m <= |districts|
  {
    if m == 0 then 0.0 else SumTownshipsUpTo(districts, rows, m - 1) + TownshipTotal(rows, districts[m - 1].township)
  }

  function SumTownships(districts: seq<District>, rows: seq<Assigned>): real
  {
    SumTownshipsUpTo(districts, rows, |districts|)
  }

  function SumRows(rows: seq<Assigned>): real
  {
    if rows == [] then 0.0 else SumRows(rows[..|rows| - 1]) + rows[|rows| - 1].row.station.total
  }

  /** The share of one value among the first m districts: the value once
      for each district of that township. */
  function Indicator(districts: seq<District>, t: string, v: real, m: nat): real
    requires m <= |districts|
  {
    if m == 0 then 0.0 else Indicator(districts, t, v, m - 1) + (if districts[m - 1].township == t then v else 0.0)
  }

  /** Removing the last row takes its total off its township only. */
  lemma {:induction false} SplitLastRow(districts: seq<District>, rows: seq<Assigned>, m: nat)
    requires rows != [] && m <= |districts|
    ensures SumTownshipsUpTo(districts, rows, m) ==
            SumTownshipsUpTo(districts, rows[..|rows| - 1], m) +
            Indicator(districts, rows[|rows| - 1].township, rows[|rows| - 1].row.station.total, m)
  {
    if m > 0 {
      SplitLastRow(districts, rows, m - 1);
    }
  }

  /** With distinct townships, a township listed among the first m
      districts counts its value exactly once. */
  lemma {:induction false} OneTownshipMatches(districts: seq<District>, t: string, v: real, m: nat)
    requires forall i, j :: 0 <= i < j < |districts| ==> districts[i].township != districts[j].township
    requires m <= |districts|
    ensures Indicator(districts, t, v, m) ==
            if exists k :: 0 <= k < m && districts[k].township == t then v else 0.0
  {
    if m > 0 {
      OneTownshipMatches(districts, t, v, m - 1);
      if districts[m - 1].township == t {
        assert !exists k :: 0 <= k < m - 1 && districts[k].township == t;
      }
    }
  }

  /** A township's total is non-negative when every row's total is. */
  lemma {:induction false} TownshipTotalNonNegative(rows: seq<Assigned>, t: string)
    requires forall r :: r in rows ==> r.row.station.total >= 0.0
    ensures TownshipTotal(rows, t) >= 0.0
  {
    if rows != [] {
      assert forall r :: r in rows[..|rows| - 1] ==> r in rows;
      assert rows[|rows| - 1] in rows;
      TownshipTotalNonNegative(rows[..|rows| - 1], t);
    }
  }

  /** With non-negative totals, the filter drops only zero totals, so the
      kept totals of the first m districts add up to their township totals. */
  lemma {:induction false} KeptSum(districts: seq<District>, rows: seq<Assigned>, m: nat)
    requires forall r :: r in rows ==> r.row.station.total >= 0.0
    requires m <= |districts|
    ensures SumBy(Kept(districts[..m], rows), KeptTotal) == SumTownshipsUpTo(districts, rows, m)
  {
    if m > 0 {
      KeptSum(districts, rows, m - 1);
      var d := districts[m - 1];
      assert districts[..m][..m - 1] == districts[..m - 1];
      assert districts[..m][m - 1] == d;
      var t := DistrictTotal(rows, d.township);
      TownshipTotalNonNegative(rows, d.township);
      if t.Some? && t.value > 0.0 {
        SumByAppend(Kept(districts[..m - 1], rows), [(d, t.value)], KeptTotal);
        SumBySingle((d, t.value), KeptTotal);
      } else if t.None? {
        NoStationNoTotal(rows, d.township);
      }
    } else {
      assert districts[..0] == [];
    }
  }

  function TotalOf(s: Share): real
  {
    s.total
  }

  lemma {:induction false} SharesTotalSum(kept: seq<(District, real)>, m: nat)
    requires forall e :: e in kept ==> e.1 > 0.0
    requires m <= |kept|
    ensures SumBy(Shares(kept)[..m], TotalOf) == SumBy(kept[..m], KeptTotal)
  {
    if m > 0 {
      SharesTotalSum(kept, m - 1);
      assert Shares(kept)[..m][..m - 1] == Shares(kept)[..m - 1];
      assert kept[..m][..m - 1] == kept[..m - 1];
    } else {
      assert Shares(kept)[..0] == [];
      assert kept[..0] == [];
    }
  }

  /** Every assigned row carries a non-negative total (given non-negative
      sales) and one of the district townships. */
  lemma AssignedRows(sites: seq<Site>, records: seq<Record>, districts: seq<District>,
                     dist: (Coord, Coord) -> real)
    requires AssignTownships(InnerJoin(sites, StationSalesOf(records)), districts, dist).Some?
    requires forall r :: r in records && r.sales.Some? ==> r.sales.value >= 0.0
    ensures forall r :: r in AssignTownships(InnerJoin(sites, StationSalesOf(records)), districts, dist).value ==>
              r.row.station.total >= 0.0 && exists d :: d in districts && d.township == r.township
  {
    var stations := StationSalesOf(records);
    var joined := InnerJoin(sites, stations);
    var table := AssignTownships(joined, districts, dist).value;
    forall r | r in table
      ensures r.row.station.total >= 0.0
      ensures exists d :: d in districts && d.township == r.township
    {
      var i :| 0 <= i < |table| && table[i] == r;
      assert joined[i] in joined;
      var k :| 0 <= k < |stations| && stations[k] == joined[i].station;
      StationTotalBounds(records, k);
      var c := ClosestTownship(districts, joined[i].site.latitude, joined[i].site.longitude, dist);
      var w :| 0 <= w < |districts| && districts[w].township == c.value &&
               forall j :: 0 <= j < |districts| ==>
                 DistanceTo(districts[w], joined[i].site.latitude, joined[i].site.longitude, dist) <=
                 DistanceTo(districts[j], joined[i].site.latitude, joined[i].site.longitude, dist);
      assert districts[w] in districts;
    }
  }

  /** No sales are lost: with non-negative sales and distinct township
      names, the totals of the listed districts add up to the total sales
      of all joined stations. */
  lemma MergeDataConserves(sites: seq<Site>, records: seq<Record>, districts: seq<District>,
                           dist: (Coord, Coord) -> real)
    requires MergeData(sites, records, districts, dist).Some?
    requires forall r :: r in records && r.sales.Some? ==> r.sales.value >= 0.0
    requires forall i, j :: 0 <= i < j < |districts| ==> districts[i].township != districts[j].township
    ensures SumBy(MergeData(sites, records, districts, dist).value, TotalOf) ==
            SumRows(AssignTownships(InnerJoin(sites, StationSalesOf(records)), districts, dist).value)
  {
    var table := AssignTownships(InnerJoin(sites, StationSalesOf(records)), districts, dist).value;
    AssignedRows(sites, records, districts, dist);
    TownshipTotalsConserve(districts, table);
    KeptSum(districts, table, |districts|);
    assert districts[..|districts|] == districts;
    var kept := Kept(districts, table);
    SharesTotalSum(kept, |kept|);
    assert Shares(kept)[..|kept|] == Shares(kept);
    assert kept[..|kept|] == kept;
  }
}
