/** The district and warehouse tables handed to the warehouse-location model
    (`InputHandler.get_districts_data` and `get_warehouse_options`), over rows
    that are already loaded.  A table is a sequence of records in file order. */
module InputHandler {
  import opened Seqs

  /** `total_demand` and `warehouse_storage_height` of the configuration. */
  const TOTAL_DEMAND: real := 100000.0
  const WAREHOUSE_STORAGE_HEIGHT: real := 1.0

  /** One row of the districts file: its township and its share of sales. */
  datatype DistrictRow = DistrictRow(township: string, proportion: real)

  /** A district row with its `Demand` column added. */
  datatype District = District(row: DistrictRow, demand: real)

  /** One row of the warehouse options file; `rest` stands for every column
      the function does not read. */
  datatype WarehouseRow = WarehouseRow(name: string, area: real, rest: seq<string>)

  /** A warehouse row with its `Capacity (ft3)` column added. */
  datatype WarehouseOption = WarehouseOption(row: WarehouseRow, capacity: real)

  function Proportion(r: DistrictRow): real { r.proportion }

  function Township(r: DistrictRow): string { r.township }

  /** The column total `data_df['Proportion Sales'].sum()`. */
  function TotalProportion(rows: seq<DistrictRow>): real
  {
    SumBy(rows, Proportion)
  }

  /** Divides every proportion by `total`, keeping the township. */
  function Scale(rows: seq<DistrictRow>, total: real): (r: seq<DistrictRow>)
    requires total != 0.0
    ensures |r| == |rows|
    ensures forall i :: 0 <= i < |r| ==> r[i].township == rows[i].township
    ensures forall i :: 0 <= i < |r| ==> r[i].proportion == rows[i].proportion / total
  {
    if rows == [] then []
    else
      Scale(rows[..|rows| - 1], total)
      + [DistrictRow(rows[|rows| - 1].township, rows[|rows| - 1].proportion / total)]
  }

  /** Normalisation: every proportion divided by the column total.  `None` when
      the total is zero, where pandas would produce NaN or infinite values. */
  function Normalise(rows: seq<DistrictRow>): Option<seq<DistrictRow>>
  {
    var total := TotalProportion(rows);
    if total == 0.0 then None else Some(Scale(rows, total))
  }

  /** `drop_duplicates(subset='Township', keep='first')`. */
  function DropDuplicateTownships(rows: seq<DistrictRow>): seq<DistrictRow>
  {
    DedupBy(rows, Township)
  }

  /** The `Demand` column: proportion times the total demand. */
  function WithDemand(rows: seq<DistrictRow>, totalDemand: real): (r: seq<District>)
    ensures |r| == |rows|
    ensures forall i :: 0 <= i < |r| ==> r[i].row == rows[i]
    ensures forall i :: 0 <= i < |r| ==>
              r[i].demand == rows[i].proportion * totalDemand
  {
    if rows == [] then []
    else
      WithDemand(rows[..|rows| - 1], totalDemand)
      + [District(rows[|rows| - 1], rows[|rows| - 1].proportion * totalDemand)]
  }

  function Demand(d: District): real { d.demand }

  /** `get_districts_data` as written: normalise over ALL rows, then drop
      repeated townships, then add the demand. */
  function DistrictsData(rows: seq<DistrictRow>): Option<seq<District>>
  {
    match Normalise(rows)
    case None => None
    case Some(normalised) => Some(WithDemand(DropDuplicateTownships(normalised), TOTAL_DEMAND))
  }

  /** `get_districts_data` with the de-duplication done first, so that the
      proportions that reach the model are normalised over the kept rows. */
  function DistrictsDataDedupFirst(rows: seq<DistrictRow>): Option<seq<District>>
  {
    match Normalise(DropDuplicateTownships(rows))
    case None => None
    case Some(normalised) => Some(WithDemand(normalised, TOTAL_DEMAND))
  }

  /** `get_warehouse_options`: capacity = area x storage height, nothing else
      changes. */
  function WarehouseOptions(rows: seq<WarehouseRow>, height: real): (r: seq<WarehouseOption>)
    ensures |r| == |rows|
    ensures forall i :: 0 <= i < |r| ==> r[i].row == rows[i]
  {
    if rows == [] then []
    else
      WarehouseOptions(rows[..|rows| - 1], height)
      + [WarehouseOption(rows[|rows| - 1], rows[|rows| - 1].area * height)]
  }

  // ----- properties -----

  /** Scaling divides the column total by the same factor. */
  lemma {:induction false} ScaleSum(rows: seq<DistrictRow>, total: real)
    requires total != 0.0
    ensures TotalProportion(Scale(rows, total)) == TotalProportion(rows) / total
    decreases |rows|
  {
    if rows != [] {
      var p := rows[..|rows| - 1];
      var x := rows[|rows| - 1];
      ScaleSum(p, total);
      var s := Scale(rows, total);
      assert s[..|s| - 1] == Scale(p, total);
      assert TotalProportion(s) == TotalProportion(Scale(p, total)) + x.proportion / total;
      assert TotalProportion(rows) == TotalProportion(p) + x.proportion;
      DivideStep(TotalProportion(p), x.proportion, total);
    }
  }

  lemma DivideStep(a: real, b: real, t: real)
    requires t != 0.0
    ensures (a + b) / t == a / t + b / t
  {
  }

  /** Normalisation keeps every township and divides every proportion by the
      total over all rows, duplicates included. */
  lemma NormaliseMeaning(rows: seq<DistrictRow>)
    requires TotalProportion(rows) != 0.0
    ensures Normalise(rows).Some?
    ensures |Normalise(rows).value| == |rows|
    ensures forall i :: 0 <= i < |rows| ==>
              Normalise(rows).value[i].township == rows[i].township &&
              Normalise(rows).value[i].proportion == rows[i].proportion / TotalProportion(rows)
  {
    assert Normalise(rows) == Some(Scale(rows, TotalProportion(rows)));
  }

  /** The normalised proportions sum to one. */
  lemma NormaliseSumsToOne(rows: seq<DistrictRow>)
    requires TotalProportion(rows) != 0.0
    ensures Normalise(rows).Some?
    ensures TotalProportion(Normalise(rows).value) == 1.0
  {
    var t := TotalProportion(rows);
    var n := Scale(rows, t);
    assert Normalise(rows) == Some(n);
    ScaleSum(rows, t);
    assert TotalProportion(n) == t / t;
    assert t / t == 1.0;
  }

  /** De-duplication keeps, for every township, its first row, in the order
      of those first rows; no township repeats and none is lost. */
  lemma DropDuplicateTownshipsMeaning(rows: seq<DistrictRow>)
    ensures forall i, j :: 0 <= i < j < |DropDuplicateTownships(rows)| ==>
              DropDuplicateTownships(rows)[i].township != DropDuplicateTownships(rows)[j].township
    ensures forall t :: HasKey(DropDuplicateTownships(rows), Township, t) <==> HasKey(rows, Township, t)
    ensures forall j :: 0 <= j < |DropDuplicateTownships(rows)| ==>
              HasKey(rows, Township, DropDuplicateTownships(rows)[j].township) &&
              DropDuplicateTownships(rows)[j] ==
                rows[FirstIndex(rows, Township, DropDuplicateTownships(rows)[j].township)]
    ensures forall i, j :: 0 <= i < j < |DropDuplicateTownships(rows)| ==>
              FirstIndex(rows, Township, DropDuplicateTownships(rows)[i].township) <
              FirstIndex(rows, Township, DropDuplicateTownships(rows)[j].township)
  {
    var d := DropDuplicateTownships(rows);
    DedupByFirstOccurrences(rows, Township);
    forall i, j | 0 <= i < j < |d|
      ensures d[i].township != d[j].township
    {
      assert Township(d[i]) != Township(d[j]);
    }
    forall t
      ensures HasKey(d, Township, t) <==> HasKey(rows, Township, t)
    {
      DedupByKeys(rows, Township, t);
    }
    forall j | 0 <= j < |d|
      ensures HasKey(rows, Township, d[j].township)
      ensures d[j] == rows[FirstIndex(rows, Township, d[j].township)]
    {
      assert Township(d[j]) == d[j].township;
    }
  }

  /** With non-negative shares, the proportions left after de-duplication sum
      to one minus the shares of the dropped rows, so to at most one. */
  lemma DistrictProportionsAtMostOne(rows: seq<DistrictRow>)
    requires TotalProportion(rows) != 0.0
    requires forall r :: r in rows ==> r.proportion >= 0.0
    ensures Normalise(rows).Some?
    ensures var n := Normalise(rows).value;
            TotalProportion(DropDuplicateTownships(n))
            == 1.0 - SumBy(DuplicatesBy(n, Township), Proportion)
    ensures TotalProportion(DropDuplicateTownships(Normalise(rows).value)) <= 1.0
  {
    NormaliseSumsToOne(rows);
    var n := Normalise(rows).value;
    DedupBySplitSum(n, Township, Proportion);
    NormalisedNonNegative(rows);
    DuplicatesByElements(n, Township);
    SumByNonNegative(DuplicatesBy(n, Township), Proportion);
  }

  /** Non-negative shares stay non-negative once normalised. */
  lemma NormalisedNonNegative(rows: seq<DistrictRow>)
    requires TotalProportion(rows) != 0.0
    requires forall r :: r in rows ==> r.proportion >= 0.0
    ensures Normalise(rows).Some?
    ensures forall r :: r in Normalise(rows).value ==> Proportion(r) >= 0.0
  {
    NormaliseMeaning(rows);
    var n := Normalise(rows).value;
    var t := TotalProportion(rows);
    TotalPositive(rows);
    forall i | 0 <= i < |n|
      ensures n[i].proportion >= 0.0
    {
      assert rows[i] in rows;
    }
  }

  lemma TotalPositive(rows: seq<DistrictRow>)
    requires TotalProportion(rows) != 0.0
    requires forall r :: r in rows ==> r.proportion >= 0.0
    ensures TotalProportion(rows) > 0.0
  {
    assert forall r :: r in rows ==> Proportion(r) >= 0.0;
    SumByNonNegative(rows, Proportion);
  }

  lemma {:induction false} DuplicatesByElements<T, K>(s: seq<T>, key: T -> K)
    ensures forall x :: x in DuplicatesBy(s, key) ==> x in s
    decreases |s|
  {
    if s != [] {
      DuplicatesByElements(s[..|s| - 1], key);
      assert forall x :: x in s[..|s| - 1] ==> x in s;
    }
  }

  /** The demand column of a non-empty table ends with the last row's demand. */
  lemma WithDemandSnoc(rows: seq<DistrictRow>)
    requires rows != []
    ensures SumBy(WithDemand(rows, TOTAL_DEMAND), Demand) ==
            SumBy(WithDemand(rows[..|rows| - 1], TOTAL_DEMAND), Demand) + rows[|rows| - 1].proportion * TOTAL_DEMAND
    ensures TotalProportion(rows) == TotalProportion(rows[..|rows| - 1]) + rows[|rows| - 1].proportion
  {
    var w := WithDemand(rows, TOTAL_DEMAND);
    assert w[..|w| - 1] == WithDemand(rows[..|rows| - 1], TOTAL_DEMAND);
  }

  /** The demand column sums to the total demand times the proportions' sum. */
  lemma {:induction false} WithDemandSum(rows: seq<DistrictRow>)
    ensures SumBy(WithDemand(rows, TOTAL_DEMAND), Demand) == TotalProportion(rows) * TOTAL_DEMAND
    decreases |rows|
  {
    if rows != [] {
      WithDemandSum(rows[..|rows| - 1]);
      WithDemandSnoc(rows);
    }
  }

  /** As written, the demand handed to the model never exceeds the total
      demand (for non-negative shares), and falls short of it by the demand
      of the dropped duplicate rows. */
  lemma DistrictsDemandAtMostTotal(rows: seq<DistrictRow>)
    requires TotalProportion(rows) != 0.0
    requires forall r :: r in rows ==> r.proportion >= 0.0
    ensures DistrictsData(rows).Some?
    ensures SumBy(DistrictsData(rows).value, Demand) <= TOTAL_DEMAND
  {
    DistrictProportionsAtMostOne(rows);
    var n := Normalise(rows).value;
    WithDemandSum(DropDuplicateTownships(n));
  }

  /** Two rows of one township with equal shares: as written only half of the
      total demand reaches the model. */
  lemma DistrictsDataLosesDemand()
    ensures var rows := [DistrictRow("A", 1.0), DistrictRow("A", 1.0)];
            DistrictsData(rows).Some? &&
            SumBy(DistrictsData(rows).value, Demand) == TOTAL_DEMAND / 2.0
  {
    var rows := [DistrictRow("A", 1.0), DistrictRow("A", 1.0)];
    assert rows[..1] == [rows[0]];
    SumBySingle(rows[0], Proportion);
    assert TotalProportion(rows) == 2.0;
    NormaliseMeaning(rows);
    var n := Normalise(rows).value;
    assert n[0] == DistrictRow("A", 0.5);
    assert n[..1] == [n[0]];
    assert DedupBy(n[..1], Township) == [n[0]] by { assert n[..1][..0] == []; }
    assert HasKey([n[0]], Township, Township(n[1]));
    assert DropDuplicateTownships(n) == [n[0]];
    WithDemandSum([n[0]]);
    SumBySingle(n[0], Proportion);
  }

  /** With the de-duplication first, the demand handed to the model is exactly
      the total demand, and every township appears once. */
  lemma DistrictsDataDedupFirstMeaning(rows: seq<DistrictRow>)
    requires TotalProportion(DropDuplicateTownships(rows)) != 0.0
    ensures DistrictsDataDedupFirst(rows).Some?
    ensures SumBy(DistrictsDataDedupFirst(rows).value, Demand) == TOTAL_DEMAND
    ensures forall i, j :: 0 <= i < j < |DistrictsDataDedupFirst(rows).value| ==>
              DistrictsDataDedupFirst(rows).value[i].row.township
              != DistrictsDataDedupFirst(rows).value[j].row.township
  {
    var d := DropDuplicateTownships(rows);
    NormaliseSumsToOne(d);
    var n := Normalise(d).value;
    WithDemandSum(n);
    DropDuplicateTownshipsMeaning(rows);
  }

  /** Every capacity is the area times the storage height; with the configured
      height of one, it is the area itself. */
  lemma {:induction false} WarehouseCapacity(rows: seq<WarehouseRow>, height: real)
    ensures forall i :: 0 <= i < |rows| ==>
              WarehouseOptions(rows, height)[i].capacity == rows[i].area * height
    ensures height == WAREHOUSE_STORAGE_HEIGHT ==>
              forall i :: 0 <= i < |rows| ==> WarehouseOptions(rows, height)[i].capacity == rows[i].area
    decreases |rows|
  {
    if rows != [] {
      WarehouseCapacity(rows[..|rows| - 1], height);
      var w := WarehouseOptions(rows, height);
      assert forall i :: 0 <= i < |rows| - 1 ==> w[i] == WarehouseOptions(rows[..|rows| - 1], height)[i];
    }
  }
}
