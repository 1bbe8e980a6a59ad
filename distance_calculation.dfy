/** `calculate_lat_long_distance`: every row whose name starts with `staff`
    is matched with the nearest of the other rows (the locations), the match
    is dropped when it lies farther than an optional radius, and the staff
    results are joined back to the non-coordinate columns of the input.  The
    geodesic distance is a parameter `dist`; a table is a sequence of rows
    and a row label is its position. */
module DistanceCalculation {
  import opened Seqs

  /** One input row: its name, its coordinates and its other columns. */
  datatype Row = Row(name: string, latitude: real, longitude: real, other: seq<string>)

  type Coord = (real, real)

  /** An entry of the distance matrix; the diagonal holds infinity. */
  datatype Cell = Km(km: real) | Infinity

  const STAFF_PREFIX: string := "staff"
  const UNASSIGNED: string := "Unassigned"

  predicate IsStaff(name: string)
  {
    STAFF_PREFIX <= name
  }

  function Coordinates(r: Row): Coord
  {
    (r.latitude, r.longitude)
  }

  /** `dm` after `fill_diagonal(dm.values, inf)`: entry (i, j). */
  function Matrix(rows: seq<Row>, dist: (Coord, Coord) -> real, i: nat, j: nat): (c: Cell)
    requires i < |rows| && j < |rows|
    ensures c.Infinity? <==> i == j
  {
    if i == j then Infinity else Km(dist(Coordinates(rows[i]), Coordinates(rows[j])))
  }

  /** The strict order on matrix entries, infinity above every distance. */
  predicate Below(a: Cell, b: Cell)
  {
    a.Km? && (b.Infinity? || a.km < b.km)
  }

  /** `Distance in KM > radius`. */
  predicate Exceeds(c: Cell, radius: real)
  {
    c.Infinity? || c.km > radius
  }

  // ---------------------------------------------------------------- staff and locations

  /** The positions of the staff rows (`staff == true`) or of the location
      rows, in input order. */
  function Positions(rows: seq<Row>, staff: bool): (r: seq<nat>)
    ensures forall p: int :: p in r <==> 0 <= p < |rows| && IsStaff(rows[p].name) == staff
    ensures forall a, b :: 0 <= a < b < |r| ==> r[a] < r[b]
    ensures forall a :: 0 <= a < |r| ==> r[a] < |rows|
  {
    if rows == [] then []
    else
      var n := |rows| - 1;
      var p := Positions(rows[..n], staff);
      assert forall q :: 0 <= q < n ==> rows[..n][q] == rows[q];
      if IsStaff(rows[n].name) == staff then p + [n] else p
  }

  /** Every row is either a staff row or a location row, never both. */
  lemma {:induction false} Partition(rows: seq<Row>)
    ensures |Positions(rows, true)| + |Positions(rows, false)| == |rows|
    ensures forall p: int :: p in Positions(rows, true) <==> 0 <= p < |rows| && p !in Positions(rows, false)
  {
    if rows != [] {
      Partition(rows[..|rows| - 1]);
    }
  }

  // ---------------------------------------------------------------- nearest location

  /** `idxmin` over the candidate rows `locs` for column `s`: the position in
      `locs` of the first smallest entry. */
  function Nearest(rows: seq<Row>, dist: (Coord, Coord) -> real, locs: seq<nat>, s: nat): (m: nat)
    requires locs != [] && s < |rows|
    requires forall a :: 0 <= a < |locs| ==> locs[a] < |rows|
    ensures m < |locs|
    ensures forall a :: 0 <= a < |locs| ==>
              !Below(Matrix(rows, dist, locs[a], s), Matrix(rows, dist, locs[m], s))
    ensures forall a :: 0 <= a < m ==>
              Below(Matrix(rows, dist, locs[m], s), Matrix(rows, dist, locs[a], s))
  {
    var n := |locs| - 1;
    if n == 0 then 0
    else
      var m := Nearest(rows, dist, locs[..n], s);
      assert locs[..n][m] == locs[m];
      if Below(Matrix(rows, dist, locs[n], s), Matrix(rows, dist, locs[m], s)) then n else m
  }

  /** A staff row is never its own candidate: every entry between a location
      and a staff row is a finite distance. */
  lemma NeverOwnCandidate(rows: seq<Row>, dist: (Coord, Coord) -> real, l: nat, s: nat)
    requires l in Positions(rows, false) && s in Positions(rows, true)
    ensures Matrix(rows, dist, l, s) == Km(Distance(rows, dist, l, s))
  {
  }

  /** The row of the location `idxmin` picks for staff row `s`. */
  function NearestLocation(rows: seq<Row>, dist: (Coord, Coord) -> real, s: nat): (l: nat)
    requires s in Positions(rows, true) && Positions(rows, false) != []
    ensures l in Positions(rows, false)
  {
    var locs := Positions(rows, false);
    var m := Nearest(rows, dist, locs, s);
    assert locs[m] in locs;
    locs[m]
  }

  /** The distance from a location row to staff row `s`. */
  function Distance(rows: seq<Row>, dist: (Coord, Coord) -> real, l: nat, s: nat): real
    requires l < |rows| && s < |rows|
  {
    dist(Coordinates(rows[l]), Coordinates(rows[s]))
  }

  /** The picked location is at the smallest distance from the staff row,
      and strictly nearer than every location listed before it (the first
      minimum wins ties). */
  lemma NearestLocationMinimal(rows: seq<Row>, dist: (Coord, Coord) -> real, s: nat)
    requires s in Positions(rows, true) && Positions(rows, false) != []
    ensures forall l :: l in Positions(rows, false) ==>
              Distance(rows, dist, NearestLocation(rows, dist, s), s) <= Distance(rows, dist, l, s)
    ensures forall l :: l in Positions(rows, false) && l < NearestLocation(rows, dist, s) ==>
              Distance(rows, dist, NearestLocation(rows, dist, s), s) < Distance(rows, dist, l, s)
  {
    var locs := Positions(rows, false);
    var m := Nearest(rows, dist, locs, s);
    var n := NearestLocation(rows, dist, s);
    assert n == locs[m];
    NeverOwnCandidate(rows, dist, n, s);
    forall l | l in locs
      ensures Distance(rows, dist, n, s) <= Distance(rows, dist, l, s)
    {
      var a :| 0 <= a < |locs| && locs[a] == l;
      NeverOwnCandidate(rows, dist, l, s);
      assert !Below(Matrix(rows, dist, locs[a], s), Matrix(rows, dist, locs[m], s));
    }
    forall l | l in locs && l < n
      ensures Distance(rows, dist, n, s) < Distance(rows, dist, l, s)
    {
      var a :| 0 <= a < |locs| && locs[a] == l;
      IncreasingOrder(locs, a, m);
      NeverOwnCandidate(rows, dist, l, s);
      assert Below(Matrix(rows, dist, locs[m], s), Matrix(rows, dist, locs[a], s));
    }
  }

  /** In a strictly increasing sequence, a smaller element comes earlier. */
  lemma IncreasingOrder(r: seq<nat>, a: nat, b: nat)
    requires forall x, y :: 0 <= x < y < |r| ==> r[x] < r[y]
    requires a < |r| && b < |r| && r[a] < r[b]
    ensures a < b
  {
  }

  /** The staff columns after the assignment: coordinates, the assigned
      location's name (or `Unassigned`) and the distance to it. */
  datatype StaffRow = StaffRow(latitude: real, longitude: real, location: string, distance: Cell)

  /** The radius filter of one staff row: `Unassigned` exactly when a radius
      is given and the distance is strictly greater; otherwise untouched. */
  function Relabel(nearest: string, distance: Cell, radius: Option<real>): (r: string)
    ensures r == nearest || r == UNASSIGNED
    ensures radius.None? ==> r == nearest
    ensures radius.Some? && distance.Km? && distance.km <= radius.value ==> r == nearest
    ensures radius.Some? && distance.Km? && distance.km > radius.value ==> r == UNASSIGNED
    ensures radius.Some? && distance.Infinity? ==> r == UNASSIGNED
  {
    if radius.Some? && Exceeds(distance, radius.value) then UNASSIGNED else nearest
  }

  /** The staff table: for each staff row in order, its nearest location and
      the distance, relabelled by the radius.  `None` when there are staff
      rows but no location, where `idxmin` has nothing to choose from. */
  function StaffTable(rows: seq<Row>, dist: (Coord, Coord) -> real, radius: Option<real>): (r: Option<seq<StaffRow>>)
    ensures r.None? <==> Positions(rows, true) != [] && Positions(rows, false) == []
    ensures r.Some? ==> |r.value| == |Positions(rows, true)|
  {
    var staff := Positions(rows, true);
    var locs := Positions(rows, false);
    if staff == [] then Some([])
    else if locs == [] then None
    else
      Some(seq(|staff|, i requires 0 <= i < |staff| =>
        assert staff[i] in staff;
        var l := NearestLocation(rows, dist, staff[i]);
        var d := Matrix(rows, dist, l, staff[i]);
        StaffRow(rows[staff[i]].latitude, rows[staff[i]].longitude, Relabel(rows[l].name, d, radius), d)))
  }

  /** Row i of the staff table belongs to the i-th staff row: its
      coordinates, the finite distance to its nearest location, and that
      location's name relabelled by the radius. */
  lemma StaffTableRow(rows: seq<Row>, dist: (Coord, Coord) -> real, radius: Option<real>, i: nat)
    requires StaffTable(rows, dist, radius).Some?
    requires i < |Positions(rows, true)|
    ensures var s := Positions(rows, true)[i];
            s in Positions(rows, true) && Positions(rows, false) != [] &&
            var l := NearestLocation(rows, dist, s);
            StaffTable(rows, dist, radius).value[i] ==
              StaffRow(rows[s].latitude, rows[s].longitude,
                       Relabel(rows[l].name, Km(Distance(rows, dist, l, s)), radius),
                       Km(Distance(rows, dist, l, s)))
  {
    var s := Positions(rows, true)[i];
    assert s in Positions(rows, true);
    NeverOwnCandidate(rows, dist, NearestLocation(rows, dist, s), s);
  }

  /** Without a radius nobody is relabelled; with one, a staff row is
      `Unassigned` when its distance is strictly greater, and keeps its
      nearest location at equality. */
  lemma RadiusFilter(rows: seq<Row>, dist: (Coord, Coord) -> real, radius: Option<real>, i: nat)
    requires StaffTable(rows, dist, radius).Some?
    requires i < |Positions(rows, true)|
    ensures var t := StaffTable(rows, dist, radius).value;
            var u := StaffTable(rows, dist, None).value;
            StaffTable(rows, dist, None).Some? && t[i].distance.Km? &&
            t[i].distance == u[i].distance &&
            (radius.None? ==> t[i].location == u[i].location) &&
            (radius.Some? && t[i].distance.km > radius.value ==> t[i].location == UNASSIGNED) &&
            (radius.Some? && t[i].distance.km <= radius.value ==> t[i].location == u[i].location)
  {
    StaffTableRow(rows, dist, radius, i);
    StaffTableRow(rows, dist, None, i);
  }

  // ---------------------------------------------------------------- output assembly

  /** One output row: the non-coordinate columns beside the staff columns. */
  datatype OutRow = OutRow(name: string, other: seq<string>, staff: StaffRow)

  /** `pd.concat([df_name_postal_code, Staffs], axis=1)` after both indexes
      are reset, then `dropna(subset=['latitude'])`: the i-th input row is
      put beside the i-th staff row, and the input rows beyond the staff
      table (whose latitude is missing) are dropped. */
  function JoinByPosition(rows: seq<Row>, table: seq<StaffRow>): (out: seq<OutRow>)
    requires |table| <= |rows|
    ensures |out| == |table|
    ensures forall i :: 0 <= i < |out| ==> out[i] == OutRow(rows[i].name, rows[i].other, table[i])
  {
    seq(|table|, i requires 0 <= i < |table| => OutRow(rows[i].name, rows[i].other, table[i]))
  }

  /** `calculate_lat_long_distance` as written. */
  function CalculateAsWritten(rows: seq<Row>, dist: (Coord, Coord) -> real, radius: Option<real>): Option<seq<OutRow>>
  {
    match StaffTable(rows, dist, radius)
    case None => None
    case Some(table) =>
      Partition(rows);
      Some(JoinByPosition(rows, table))
  }

  /** The staff results beside the columns of the staff row they belong to. */
  function JoinByStaff(rows: seq<Row>, table: seq<StaffRow>): (out: seq<OutRow>)
    requires |table| == |Positions(rows, true)|
    ensures |out| == |table|
  {
    var staff := Positions(rows, true);
    seq(|table|, i requires 0 <= i < |table| =>
      OutRow(rows[staff[i]].name, rows[staff[i]].other, table[i]))
  }

  /** `calculate_lat_long_distance` with each staff result beside its own
      row. */
  function Calculate(rows: seq<Row>, dist: (Coord, Coord) -> real, radius: Option<real>): Option<seq<OutRow>>
  {
    match StaffTable(rows, dist, radius)
    case None => None
    case Some(table) => Some(JoinByStaff(rows, table))
  }

  /** Each output row is a staff row, in input order, every staff row once,
      carrying its own nearest-location result. */
  lemma CalculateMeaning(rows: seq<Row>, dist: (Coord, Coord) -> real, radius: Option<real>)
    requires Calculate(rows, dist, radius).Some?
    ensures var out := Calculate(rows, dist, radius).value;
            var staff := Positions(rows, true);
            |out| == |staff| &&
            (forall i :: 0 <= i < |out| ==>
               IsStaff(out[i].name) && out[i].name == rows[staff[i]].name &&
               out[i].other == rows[staff[i]].other &&
               out[i].staff == StaffTable(rows, dist, radius).value[i])
  {
    var staff := Positions(rows, true);
    forall i | 0 <= i < |staff|
      ensures IsStaff(rows[staff[i]].name)
    {
      assert staff[i] in staff;
    }
  }

  /** When every staff row precedes every location row, the positional join
      pairs each staff result with its own row. */
  lemma StaffFirstAgrees(rows: seq<Row>, dist: (Coord, Coord) -> real, radius: Option<real>)
    requires forall p, q :: 0 <= p < q < |rows| && IsStaff(rows[q].name) ==> IsStaff(rows[p].name)
    ensures CalculateAsWritten(rows, dist, radius) == Calculate(rows, dist, radius)
  {
    var staff := Positions(rows, true);
    StaffPrefix(rows, staff);
    var t := StaffTable(rows, dist, radius);
    if t.Some? {
      Partition(rows);
      var byPosition := JoinByPosition(rows, t.value);
      var byStaff := JoinByStaff(rows, t.value);
      assert |byPosition| == |byStaff|;
      forall i | 0 <= i < |byStaff|
        ensures byPosition[i] == byStaff[i]
      {
        assert staff[i] == i;
      }
      assert byPosition == byStaff;
    }
  }

  /** Under the ordering above, the staff positions are 0, 1, 2, ... */
  lemma StaffPrefix(rows: seq<Row>, staff: seq<nat>)
    requires staff == Positions(rows, true)
    requires forall p, q :: 0 <= p < q < |rows| && IsStaff(rows[q].name) ==> IsStaff(rows[p].name)
    ensures forall i :: 0 <= i < |staff| ==> staff[i] == i
  {
    forall i | 0 <= i < |staff|
      ensures staff[i] == i
    {
      StaffPosition(rows, staff, i);
    }
  }

  lemma {:induction false} StaffPosition(rows: seq<Row>, staff: seq<nat>, i: nat)
    requires staff == Positions(rows, true)
    requires forall p, q :: 0 <= p < q < |rows| && IsStaff(rows[q].name) ==> IsStaff(rows[p].name)
    requires i < |staff|
    ensures staff[i] == i
    decreases i
  {
    assert staff[i] in staff;
    if i > 0 {
      StaffPosition(rows, staff, i - 1);
    }
    // staff[i] > staff[i - 1] == i - 1, and position i is a staff row, so it is in `staff`
    // at some index, which cannot be after i.
    assert IsStaff(rows[staff[i]].name);
    assert IsStaff(rows[i].name);
    assert i in staff;
  }

  /** A location listed first puts its own name on the first staff result:
      rows `[A, staff1]` give one output row named `A` carrying the match of
      `staff1`. */
  lemma PositionalJoinMislabels(dist: (Coord, Coord) -> real)
    ensures var rows := [Row("A", 0.0, 0.0, []), Row("staff1", 1.0, 1.0, [])];
            var out := CalculateAsWritten(rows, dist, None);
            out.Some? && |out.value| == 1 && out.value[0].name == "A" &&
            out.value[0].staff.location == "A" && !IsStaff(out.value[0].name) &&
            Calculate(rows, dist, None).value[0].name == "staff1"
  {
    var rows := [Row("A", 0.0, 0.0, []), Row("staff1", 1.0, 1.0, [])];
    assert !IsStaff("A");
    assert IsStaff("staff1");
    assert rows[..1] == [rows[0]];
    assert rows[..1][..0] == [];
    assert Positions(rows[..1], true) == [];
    assert Positions(rows[..1], false) == [0];
    assert Positions(rows, true) == [1];
    assert Positions(rows, false) == [0];
  }
}
