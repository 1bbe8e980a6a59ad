/** The routing profile's data loader (`Preprocessing`): the technicians,
    locations and customers sheets, already loaded, become the typed records
    `Technician`, `Job`, `Customer` and the symmetric distance map.  The
    loader class fills its lists and its map in loops; each loop is proved
    equal to a specification function over the sheet, and the properties of
    the records are lemmas about those functions. */
module Preprocessing {
  import opened Seqs

  datatype Technician = Technician(name: string, cap: real, depot: string)

  datatype Job = Job(name: string, priority: real, duration: real, coveredBy: seq<Technician>)

  datatype Customer = Customer(name: string, loc: string, job: Job, tStart: real, tEnd: real, tDue: real)

  /** A row of the technicians sheet: its first three cells (name, capacity,
      depot), then one cell per job column.  Rows 0 and 1 carry, in the job
      columns, each job's priority and duration; every later row is a
      technician whose job cells are 1 for the jobs it covers. */
  datatype TechnicianRow = TechnicianRow(name: string, cap: real, depot: string, cells: seq<real>)

  datatype TechnicianSheet = TechnicianSheet(jobColumns: seq<string>, rows: seq<TechnicianRow>)

  /** The locations sheet without its first (label) column: the location
      names heading the remaining columns, and the rows of travel times. */
  datatype LocationSheet = LocationSheet(columns: seq<string>, cells: seq<seq<real>>)

  /** A row of the customers sheet: name, location, job name, then the
      window start, window end and due time. */
  datatype CustomerRow = CustomerRow(name: string, loc: string, job: string, tStart: real, tEnd: real, tDue: real)

  /** A table is rectangular, and the priority and duration rows exist when
      there is any job column (otherwise pandas raises IndexError). */
  predicate ReadableTechnicians(sheet: TechnicianSheet)
  {
    && (forall r :: r in sheet.rows ==> |r.cells| == |sheet.jobColumns|)
    && (sheet.jobColumns != [] ==> |sheet.rows| >= 2)
  }

  /** A rectangular sheet with a row for every upper-triangle cell the
      loader reads (otherwise pandas raises IndexError). */
  predicate ReadableLocations(sheet: LocationSheet)
  {
    && (forall r :: r in sheet.cells ==> |r| == |sheet.columns|)
    && |sheet.cells| + 1 >= |sheet.columns|
  }

  // ---------------------------------------------------------------- technicians

  function TechnicianOf(r: TechnicianRow): Technician
  {
    Technician(r.name, r.cap, r.depot)
  }

  /** The technicians: one per row after the first two, in row order. */
  function Technicians(rows: seq<TechnicianRow>): (r: seq<Technician>)
    ensures |r| == if |rows| <= 2 then 0 else |rows| - 2
  {
    if |rows| <= 2 then [] else Technicians(rows[..|rows| - 1]) + [TechnicianOf(rows[|rows| - 1])]
  }

  lemma {:induction false} TechniciansFromRows(rows: seq<TechnicianRow>)
    ensures forall i :: 0 <= i < |Technicians(rows)| ==> Technicians(rows)[i] == TechnicianOf(rows[i + 2])
    decreases |rows|
  {
    if |rows| > 2 {
      var p := rows[..|rows| - 1];
      TechniciansFromRows(p);
      assert forall i :: 0 <= i < |p| ==> p[i] == rows[i];
    }
  }

  // ---------------------------------------------------------------- jobs

  /** The technician at position `i` covers the job in column `j`. */
  predicate Marked(rows: seq<TechnicianRow>, j: nat, i: nat)
    requires i + 2 < |rows| && j < |rows[i + 2].cells|
  {
    rows[i + 2].cells[j] == 1.0
  }

  predicate ColumnExists(rows: seq<TechnicianRow>, j: nat)
  {
    forall r :: r in rows ==> j < |r.cells|
  }

  /** The list comprehension of the job loop: the technicians whose cell in
      column `j` equals 1, in technician-list order. */
  function CoveredBy(techs: seq<Technician>, rows: seq<TechnicianRow>, j: nat): seq<Technician>
    requires |techs| + 2 <= |rows| && ColumnExists(rows, j)
  {
    if techs == [] then []
    else
      var i := |techs| - 1;
      assert rows[i + 2] in rows;
      CoveredBy(techs[..i], rows, j) + (if Marked(rows, j, i) then [techs[i]] else [])
  }

  /** The positions of the covering technicians among the first `n`. */
  function MarkedIndices(rows: seq<TechnicianRow>, j: nat, n: nat): seq<nat>
    requires n + 2 <= |rows| && ColumnExists(rows, j)
  {
    if n == 0 then []
    else
      assert rows[n + 1] in rows;
      MarkedIndices(rows, j, n - 1) + (if Marked(rows, j, n - 1) then [n - 1] else [])
  }

  /** The marked positions among the first `n`, increasing. */
  lemma {:induction false} MarkedIndicesSpec(rows: seq<TechnicianRow>, j: nat, n: nat)
    requires n + 2 <= |rows| && ColumnExists(rows, j)
    ensures forall p :: 0 <= p < |MarkedIndices(rows, j, n)| ==> MarkedIndices(rows, j, n)[p] < n
    ensures forall p, q :: 0 <= p < q < |MarkedIndices(rows, j, n)| ==> MarkedIndices(rows, j, n)[p] < MarkedIndices(rows, j, n)[q]
    ensures forall i :: 0 <= i < n ==> (i in MarkedIndices(rows, j, n) <==> (assert rows[i + 2] in rows; Marked(rows, j, i)))
    decreases n
  {
    if n > 0 {
      MarkedIndicesSpec(rows, j, n - 1);
      assert rows[n + 1] in rows;
    }
  }

  /** `CoveredBy` lists exactly the technicians at the marked positions, in
      technician-list order. */
  lemma {:induction false} CoveredByMarked(techs: seq<Technician>, rows: seq<TechnicianRow>, j: nat)
    requires |techs| + 2 <= |rows| && ColumnExists(rows, j)
    ensures |CoveredBy(techs, rows, j)| == |MarkedIndices(rows, j, |techs|)|
    ensures forall p :: 0 <= p < |CoveredBy(techs, rows, j)| ==>
      MarkedIndices(rows, j, |techs|)[p] < |techs| &&
      CoveredBy(techs, rows, j)[p] == techs[MarkedIndices(rows, j, |techs|)[p]]
    decreases |techs|
  {
    MarkedIndicesSpec(rows, j, |techs|);
    if techs != [] {
      var i := |techs| - 1;
      var p := techs[..i];
      CoveredByMarked(p, rows, j);
      assert forall m :: 0 <= m < |p| ==> p[m] == techs[m];
    }
  }

  function JobOf(sheet: TechnicianSheet, techs: seq<Technician>, j: nat): Job
    requires ReadableTechnicians(sheet) && j < |sheet.jobColumns| && |techs| + 2 <= |sheet.rows|
  {
    assert sheet.rows[0] in sheet.rows && sheet.rows[1] in sheet.rows;
    Job(sheet.jobColumns[j], sheet.rows[0].cells[j], sheet.rows[1].cells[j], CoveredBy(techs, sheet.rows, j))
  }

  /** The jobs of the first `n` job columns, in column order. */
  function JobsUpTo(sheet: TechnicianSheet, techs: seq<Technician>, n: nat): seq<Job>
    requires ReadableTechnicians(sheet) && n <= |sheet.jobColumns| && (n > 0 ==> |techs| + 2 <= |sheet.rows|)
  {
    if n == 0 then [] else JobsUpTo(sheet, techs, n - 1) + [JobOf(sheet, techs, n - 1)]
  }

  lemma {:induction false} JobsFromColumns(sheet: TechnicianSheet, techs: seq<Technician>, n: nat)
    requires ReadableTechnicians(sheet) && n <= |sheet.jobColumns| && (n > 0 ==> |techs| + 2 <= |sheet.rows|)
    ensures |JobsUpTo(sheet, techs, n)| == n
    ensures forall j :: 0 <= j < n ==> JobsUpTo(sheet, techs, n)[j] == JobOf(sheet, techs, j)
    decreases n
  {
    if n > 0 {
      JobsFromColumns(sheet, techs, n - 1);
    }
  }

  // ---------------------------------------------------------------- distances

  /** `{(l, l): 0 for l in locations}`. */
  function Diagonal(cols: seq<string>): map<(string, string), real>
  {
    map l | l in cols :: (l, l) := 0.0
  }

  /** The inner loop of row `i` over the first `n` columns: for every column
      `j` after `i`, both `(l_i, l_j)` and `(l_j, l_i)` get cell (i, j). */
  function FillRow(m: map<(string, string), real>, sheet: LocationSheet, i: nat, n: nat): map<(string, string), real>
    requires ReadableLocations(sheet) && n <= |sheet.columns|
  {
    if n == 0 then m
    else
      var m' := FillRow(m, sheet, i, n - 1);
      var j := n - 1;
      if i < j then
        assert sheet.cells[i] in sheet.cells;
        var v := sheet.cells[i][j];
        m'[(sheet.columns[i], sheet.columns[j]) := v][(sheet.columns[j], sheet.columns[i]) := v]
      else m'
  }

  /** The outer loop over the first `n` rows. */
  function FillRows(m: map<(string, string), real>, sheet: LocationSheet, n: nat): map<(string, string), real>
    requires ReadableLocations(sheet) && n <= |sheet.columns|
  {
    if n == 0 then m else FillRow(FillRows(m, sheet, n - 1), sheet, n - 1, |sheet.columns|)
  }

  /** The distance map the loader builds. */
  function DistanceMap(sheet: LocationSheet): map<(string, string), real>
    requires ReadableLocations(sheet)
  {
    FillRows(Diagonal(sheet.columns), sheet, |sheet.columns|)
  }

  function Lookup(m: map<(string, string), real>, k: (string, string)): Option<real>
  {
    if k in m then Some(m[k]) else None
  }

  predicate Distinct(s: seq<string>)
  {
    forall p, q :: 0 <= p < q < |s| ==> s[p] != s[q]
  }

  ghost predicate Symmetric(m: map<(string, string), real>)
  {
    forall a, b :: (a, b) in m ==> (b, a) in m && m[(a, b)] == m[(b, a)]
  }

  lemma {:induction false} FillRowSymmetric(m: map<(string, string), real>, sheet: LocationSheet, i: nat, n: nat)
    requires ReadableLocations(sheet) && n <= |sheet.columns| && Symmetric(m)
    ensures Symmetric(FillRow(m, sheet, i, n))
    decreases n
  {
    if n > 0 {
      FillRowSymmetric(m, sheet, i, n - 1);
    }
  }

  lemma {:induction false} FillRowsSymmetric(m: map<(string, string), real>, sheet: LocationSheet, n: nat)
    requires ReadableLocations(sheet) && n <= |sheet.columns| && Symmetric(m)
    ensures Symmetric(FillRows(m, sheet, n))
    decreases n
  {
    if n > 0 {
      FillRowsSymmetric(m, sheet, n - 1);
      FillRowSymmetric(FillRows(m, sheet, n - 1), sheet, n - 1, |sheet.columns|);
    }
  }

  /** The map is symmetric whatever the sheet holds, repeated names included. */
  lemma DistanceMapSymmetric(sheet: LocationSheet)
    requires ReadableLocations(sheet)
    ensures Symmetric(DistanceMap(sheet))
  {
    FillRowsSymmetric(Diagonal(sheet.columns), sheet, |sheet.columns|);
  }

  /** Both names head a column of the sheet. */
  predicate ColumnPair(sheet: LocationSheet, a: string, b: string)
  {
    a in sheet.columns && b in sheet.columns
  }

  lemma {:induction false} FillRowKeys(m: map<(string, string), real>, sheet: LocationSheet, i: nat, n: nat)
    requires ReadableLocations(sheet) && n <= |sheet.columns| && i < |sheet.columns|
    ensures m.Keys <= FillRow(m, sheet, i, n).Keys
    ensures forall j :: i < j < n ==>
      (sheet.columns[i], sheet.columns[j]) in FillRow(m, sheet, i, n) && (sheet.columns[j], sheet.columns[i]) in FillRow(m, sheet, i, n)
    ensures forall a, b :: (a, b) in FillRow(m, sheet, i, n) ==> (a, b) in m || ColumnPair(sheet, a, b)
    decreases n
  {
    if n > 0 {
      FillRowKeys(m, sheet, i, n - 1);
    }
  }

  lemma FillRowsKeys(m: map<(string, string), real>, sheet: LocationSheet, n: nat)
    requires ReadableLocations(sheet) && n <= |sheet.columns|
    ensures m.Keys <= FillRows(m, sheet, n).Keys
    ensures forall i, j :: 0 <= i < n && i < j < |sheet.columns| ==>
      (sheet.columns[i], sheet.columns[j]) in FillRows(m, sheet, n) && (sheet.columns[j], sheet.columns[i]) in FillRows(m, sheet, n)
    ensures forall a, b :: (a, b) in FillRows(m, sheet, n) ==> (a, b) in m || ColumnPair(sheet, a, b)
  {
    FillRowsGrows(m, sheet, n);
    FillRowsCovers(m, sheet, n);
    FillRowsWithin(m, sheet, n);
  }

  lemma {:induction false} FillRowsGrows(m: map<(string, string), real>, sheet: LocationSheet, n: nat)
    requires ReadableLocations(sheet) && n <= |sheet.columns|
    ensures m.Keys <= FillRows(m, sheet, n).Keys
    decreases n
  {
    if n > 0 {
      FillRowsGrows(m, sheet, n - 1);
      FillRowKeys(FillRows(m, sheet, n - 1), sheet, n - 1, |sheet.columns|);
    }
  }

  lemma {:induction false} FillRowsCovers(m: map<(string, string), real>, sheet: LocationSheet, n: nat)
    requires ReadableLocations(sheet) && n <= |sheet.columns|
    ensures forall i, j :: 0 <= i < n && i < j < |sheet.columns| ==>
      (sheet.columns[i], sheet.columns[j]) in FillRows(m, sheet, n) && (sheet.columns[j], sheet.columns[i]) in FillRows(m, sheet, n)
    decreases n
  {
    if n > 0 {
      var prev := FillRows(m, sheet, n - 1);
      FillRowsCovers(m, sheet, n - 1);
      FillRowKeys(prev, sheet, n - 1, |sheet.columns|);
    }
  }

  lemma {:induction false} FillRowsWithin(m: map<(string, string), real>, sheet: LocationSheet, n: nat)
    requires ReadableLocations(sheet) && n <= |sheet.columns|
    ensures forall a, b :: (a, b) in FillRows(m, sheet, n) ==> (a, b) in m || ColumnPair(sheet, a, b)
    decreases n
  {
    if n > 0 {
      FillRowsWithin(m, sheet, n - 1);
      FillRowKeys(FillRows(m, sheet, n - 1), sheet, n - 1, |sheet.columns|);
    }
  }

  /** The keys of the map are exactly the ordered pairs of location names. */
  lemma DistanceMapDomain(sheet: LocationSheet, a: string, b: string)
    requires ReadableLocations(sheet)
    ensures (a, b) in DistanceMap(sheet) <==> a in sheet.columns && b in sheet.columns
  {
    var cols := sheet.columns;
    FillRowsKeys(Diagonal(cols), sheet, |cols|);
    if a in cols && b in cols {
      var p :| 0 <= p < |cols| && cols[p] == a;
      var q :| 0 <= q < |cols| && cols[q] == b;
      if p == q {
        assert (a, b) in Diagonal(cols);
      } else if p < q {
        assert (cols[p], cols[q]) in DistanceMap(sheet);
      } else {
        assert (cols[q], cols[p]) in DistanceMap(sheet) && (cols[p], cols[q]) in DistanceMap(sheet);
      }
    }
  }

  lemma {:induction false} FillRowAt(m: map<(string, string), real>, sheet: LocationSheet, i: nat, n: nat, p: nat, q: nat)
    requires ReadableLocations(sheet) && Distinct(sheet.columns) && n <= |sheet.columns|
    requires i < |sheet.columns| && p < |sheet.columns| && q < |sheet.columns|
    ensures
      var k := (sheet.columns[p], sheet.columns[q]);
      Lookup(FillRow(m, sheet, i, n), k) ==
        if p == i && i < q < n then Some(sheet.cells[i][q])
        else if q == i && i < p < n then Some(sheet.cells[i][p])
        else Lookup(m, k)
    decreases n
  {
    if n > 0 {
      FillRowAt(m, sheet, i, n - 1, p, q);
    }
  }

  lemma {:induction false} FillRowsAt(m: map<(string, string), real>, sheet: LocationSheet, n: nat, p: nat, q: nat)
    requires ReadableLocations(sheet) && Distinct(sheet.columns) && n <= |sheet.columns|
    requires p < |sheet.columns| && q < |sheet.columns|
    ensures
      var k := (sheet.columns[p], sheet.columns[q]);
      Lookup(FillRows(m, sheet, n), k) ==
        if p < q && p < n then (assert sheet.cells[p] in sheet.cells; Some(sheet.cells[p][q]))
        else if q < p && q < n then (assert sheet.cells[q] in sheet.cells; Some(sheet.cells[q][p]))
        else Lookup(m, k)
    decreases n
  {
    if n > 0 {
      FillRowsAt(m, sheet, n - 1, p, q);
      FillRowAt(FillRows(m, sheet, n - 1), sheet, n - 1, |sheet.columns|, p, q);
    }
  }

  /** With distinct location names: the diagonal is 0, and for column
      positions p < q both (l_p, l_q) and (l_q, l_p) hold the upper-triangle
      cell (p, q). */
  lemma DistanceMapValues(sheet: LocationSheet, p: nat, q: nat)
    requires ReadableLocations(sheet) && Distinct(sheet.columns)
    requires p < q < |sheet.columns|
    ensures sheet.cells[p] in sheet.cells
    ensures (sheet.columns[p], sheet.columns[p]) in DistanceMap(sheet)
    ensures DistanceMap(sheet)[(sheet.columns[p], sheet.columns[p])] == 0.0
    ensures (sheet.columns[p], sheet.columns[q]) in DistanceMap(sheet)
    ensures DistanceMap(sheet)[(sheet.columns[p], sheet.columns[q])] == sheet.cells[p][q]
    ensures (sheet.columns[q], sheet.columns[p]) in DistanceMap(sheet)
    ensures DistanceMap(sheet)[(sheet.columns[q], sheet.columns[p])] == sheet.cells[p][q]
  {
    var cols := sheet.columns;
    FillRowsAt(Diagonal(cols), sheet, |cols|, p, p);
    FillRowsAt(Diagonal(cols), sheet, |cols|, p, q);
    FillRowsAt(Diagonal(cols), sheet, |cols|, q, p);
    assert (cols[p], cols[p]) in Diagonal(cols);
  }

  lemma {:induction false} FillRowUpperOnly(m: map<(string, string), real>, s1: LocationSheet, s2: LocationSheet, i: nat, n: nat)
    requires ReadableLocations(s1) && ReadableLocations(s2) && s1.columns == s2.columns && n <= |s1.columns|
    requires forall a, b :: 0 <= a < b < |s1.columns| ==>
      s1.cells[a] in s1.cells && s2.cells[a] in s2.cells && s1.cells[a][b] == s2.cells[a][b]
    ensures FillRow(m, s1, i, n) == FillRow(m, s2, i, n)
    decreases n
  {
    if n > 0 {
      FillRowUpperOnly(m, s1, s2, i, n - 1);
    }
  }

  lemma {:induction false} FillRowsUpperOnly(m: map<(string, string), real>, s1: LocationSheet, s2: LocationSheet, n: nat)
    requires ReadableLocations(s1) && ReadableLocations(s2) && s1.columns == s2.columns && n <= |s1.columns|
    requires forall a, b :: 0 <= a < b < |s1.columns| ==>
      s1.cells[a] in s1.cells && s2.cells[a] in s2.cells && s1.cells[a][b] == s2.cells[a][b]
    ensures FillRows(m, s1, n) == FillRows(m, s2, n)
    decreases n
  {
    if n > 0 {
      var m1, m2 := FillRows(m, s1, n - 1), FillRows(m, s2, n - 1);
      FillRowsUpperOnly(m, s1, s2, n - 1);
      FillRowUpperOnly(m1, s1, s2, n - 1, |s1.columns|);
      calc {
        FillRows(m, s1, n);
        FillRow(m1, s1, n - 1, |s1.columns|);
        FillRow(m1, s2, n - 1, |s1.columns|);
        { assert m1 == m2; }
        FillRow(m2, s2, n - 1, |s2.columns|);
        FillRows(m, s2, n);
      }
    }
  }

  /** Only the upper triangle is read: two sheets with the same columns
      that agree above the diagonal give the same map. */
  lemma DistanceMapReadsUpperTriangle(s1: LocationSheet, s2: LocationSheet)
    requires ReadableLocations(s1) && ReadableLocations(s2) && s1.columns == s2.columns
    requires forall a, b :: 0 <= a < b < |s1.columns| ==>
      s1.cells[a] in s1.cells && s2.cells[a] in s2.cells && s1.cells[a][b] == s2.cells[a][b]
    ensures DistanceMap(s1) == DistanceMap(s2)
  {
    FillRowsUpperOnly(Diagonal(s1.columns), s1, s2, |s1.columns|);
  }

  // ---------------------------------------------------------------- customers

  function CustomerOf(r: CustomerRow, b: Job): Customer
  {
    Customer(r.name, r.loc, b, r.tStart, r.tEnd, r.tDue)
  }

  /** The inner loop over the job list for one customer row: one customer per
      job whose name is the row's job name. */
  function CustomersFor(r: CustomerRow, jobs: seq<Job>): seq<Customer>
  {
    if jobs == [] then []
    else
      var b := jobs[|jobs| - 1];
      CustomersFor(r, jobs[..|jobs| - 1]) + (if b.name == r.job then [CustomerOf(r, b)] else [])
  }

  /** The customers of all rows, in row order. */
  function Customers(rows: seq<CustomerRow>, jobs: seq<Job>): seq<Customer>
  {
    FlatMap(rows, r => CustomersFor(r, jobs))
  }

  lemma {:induction false} CustomersForMembers(r: CustomerRow, jobs: seq<Job>, c: Customer)
    ensures c in CustomersFor(r, jobs) <==> exists b :: b in jobs && b.name == r.job && c == CustomerOf(r, b)
    decreases |jobs|
  {
    if jobs != [] {
      var p := jobs[..|jobs| - 1];
      CustomersForMembers(r, p, c);
      assert forall b :: b in p ==> b in jobs;
      if exists b :: b in jobs && b.name == r.job && c == CustomerOf(r, b) {
        var b :| b in jobs && b.name == r.job && c == CustomerOf(r, b);
        if b != jobs[|jobs| - 1] {
          var i :| 0 <= i < |jobs| && jobs[i] == b;
          assert p[i] == b;
        }
      }
    }
  }

  /** With distinct job names a row yields one customer when its job name is
      known and none (silently dropped) otherwise. */
  lemma {:induction false} CustomersForCount(r: CustomerRow, jobs: seq<Job>)
    requires forall i, j :: 0 <= i < j < |jobs| ==> jobs[i].name != jobs[j].name
    ensures |CustomersFor(r, jobs)| == if exists b :: b in jobs && b.name == r.job then 1 else 0
    decreases |jobs|
  {
    if jobs != [] {
      var p := jobs[..|jobs| - 1];
      CustomersForCount(r, p);
      assert forall b :: b in p ==> b in jobs;
      var last := jobs[|jobs| - 1];
      if last.name == r.job {
        forall b | b in p
          ensures b.name != r.job
        {
          var i :| 0 <= i < |p| && p[i] == b;
          assert jobs[i] == b;
        }
      } else if exists b :: b in jobs && b.name == r.job {
        var b :| b in jobs && b.name == r.job;
        var i :| 0 <= i < |jobs| && jobs[i] == b;
        assert p[i] == b;
      }
    }
  }

  /** Every customer comes from some row and a job of that row's name, with
      name and location from the row's first two cells, the three times from
      its last three, and the matched Job record. */
  lemma CustomersMembers(rows: seq<CustomerRow>, jobs: seq<Job>, c: Customer)
    ensures c in Customers(rows, jobs) <==>
      exists r, b :: r in rows && b in jobs && b.name == r.job && c == CustomerOf(r, b)
  {
    FlatMapMembers(rows, r => CustomersFor(r, jobs), c);
    if c in Customers(rows, jobs) {
      var r :| r in rows && c in CustomersFor(r, jobs);
      CustomersForMembers(r, jobs, c);
    }
    if exists r, b :: r in rows && b in jobs && b.name == r.job && c == CustomerOf(r, b) {
      var r, b :| r in rows && b in jobs && b.name == r.job && c == CustomerOf(r, b);
      CustomersForMembers(r, jobs, c);
    }
  }

  /** Customers follow row order: the customers of the first `n` rows come
      first. */
  lemma CustomersRowOrder(rows: seq<CustomerRow>, jobs: seq<Job>, n: nat)
    requires n <= |rows|
    ensures Customers(rows[..n], jobs) <= Customers(rows, jobs)
    decreases |rows| - n
  {
    if n < |rows| {
      CustomersRowOrder(rows, jobs, n + 1);
      assert rows[..n + 1][..n] == rows[..n];
    } else {
      assert rows[..n] == rows;
    }
  }

  // ---------------------------------------------------------------- the loader

  class Preprocessor {
    var technicianList: seq<Technician>
    var jobList: seq<Job>
    var customerList: seq<Customer>
    var dist: map<(string, string), real>
    /** The location names in column order: the order in which the first
        components of `dist`'s keys were inserted. */
    var locationColumns: seq<string>

    /** Runs the four processors in the source's order on the loaded sheets. */
    constructor (technicians: TechnicianSheet, locations: LocationSheet, customers: seq<CustomerRow>)
      requires ReadableTechnicians(technicians) && ReadableLocations(locations)
      ensures technicianList == Technicians(technicians.rows)
      ensures jobList == JobsUpTo(technicians, technicianList, |technicians.jobColumns|)
      ensures dist == DistanceMap(locations) && locationColumns == locations.columns
      ensures customerList == Customers(customers, jobList)
    {
      technicianList := [];
      jobList := [];
      customerList := [];
      dist := map[];
      locationColumns := [];
      new;
      ProcessTechnicians(technicians);
      ProcessJobs(technicians);
      ProcessLocation(locations);
      ProcessCustomer(customers);
    }

    method ProcessTechnicians(sheet: TechnicianSheet)
      modifies this`technicianList
      ensures technicianList == old(technicianList) + Technicians(sheet.rows)
    {
      var i := if |sheet.rows| < 2 then |sheet.rows| else 2;
      while i < |sheet.rows|
        invariant i <= |sheet.rows|
        invariant technicianList == old(technicianList) + Technicians(sheet.rows[..i])
      {
        assert sheet.rows[..i + 1][..i] == sheet.rows[..i];
        technicianList := technicianList + [TechnicianOf(sheet.rows[i])];
        i := i + 1;
      }
      assert sheet.rows[..i] == sheet.rows;
    }

    method ProcessJobs(sheet: TechnicianSheet)
      requires ReadableTechnicians(sheet) && technicianList == Technicians(sheet.rows)
      modifies this`jobList
      ensures jobList == old(jobList) + JobsUpTo(sheet, technicianList, |sheet.jobColumns|)
    {
      var j := 0;
      while j < |sheet.jobColumns|
        invariant j <= |sheet.jobColumns|
        invariant jobList == old(jobList) + JobsUpTo(sheet, technicianList, j)
      {
        var coveredBy := CoveredBy(technicianList, sheet.rows, j);
        assert sheet.rows[0] in sheet.rows && sheet.rows[1] in sheet.rows;
        jobList := jobList + [Job(sheet.jobColumns[j], sheet.rows[0].cells[j], sheet.rows[1].cells[j], coveredBy)];
        j := j + 1;
      }
    }

    method ProcessLocation(sheet: LocationSheet)
      requires ReadableLocations(sheet)
      modifies this`dist, this`locationColumns
      ensures dist == DistanceMap(sheet) && locationColumns == sheet.columns
    {
      var cols := sheet.columns;
      dist := Diagonal(cols);
      var i := 0;
      while i < |cols|
        invariant i <= |cols|
        invariant dist == FillRows(Diagonal(cols), sheet, i)
      {
        var j := 0;
        while j < |cols|
          invariant j <= |cols|
          invariant dist == FillRow(FillRows(Diagonal(cols), sheet, i), sheet, i, j)
        {
          if i < j {
            assert sheet.cells[i] in sheet.cells;
            dist := dist[(cols[i], cols[j]) := sheet.cells[i][j]];
            dist := dist[(cols[j], cols[i]) := dist[(cols[i], cols[j])]];
          }
          j := j + 1;
        }
        i := i + 1;
      }
      locationColumns := cols;
    }

    method ProcessCustomer(rows: seq<CustomerRow>)
      modifies this`customerList
      ensures customerList == old(customerList) + Customers(rows, jobList)
    {
      var i := 0;
      while i < |rows|
        invariant i <= |rows|
        invariant customerList == old(customerList) + Customers(rows[..i], jobList)
      {
        var n := 0;
        while n < |jobList|
          invariant n <= |jobList|
          invariant customerList == old(customerList) + Customers(rows[..i], jobList) + CustomersFor(rows[i], jobList[..n])
        {
          assert jobList[..n + 1][..n] == jobList[..n];
          var b := jobList[n];
          if b.name == rows[i].job {
            customerList := customerList + [CustomerOf(rows[i], b)];
          }
          n := n + 1;
        }
        assert jobList[..n] == jobList;
        assert rows[..i + 1][..i] == rows[..i];
        i := i + 1;
      }
      assert rows[..i] == rows;
    }
  }
}
