/** `Postprocessing`: reads the solved variables back into tables and
    reports.  Variable values are given as functions (an `Assignment` for the
    routing variables; `xw` and `xAssign` for the warehouse-location variables
    `x[w]` and `x_assign[w,t]`, whose formulation is not part of this model).
    Log messages are kept as structured pieces, not formatted text. */
module Postprocessing {
  import opened Seqs
  import opened Linear
  import opened Preprocessing
  import opened Model

  // ---------------------------------------------------------------- warehouse selection

  datatype SelectionRow = SelectionRow(name: string, selected: bool)

  /** One row per warehouse, in the order of W; selected exactly when the
      value of x[w] is exactly 1. */
  function SelectionRows(W: seq<string>, xw: string -> real): (r: seq<SelectionRow>)
    ensures |r| == |W|
    ensures forall i :: 0 <= i < |W| ==> r[i].name == W[i] && (r[i].selected <==> xw(W[i]) == 1.0)
  {
    if W == [] then []
    else SelectionRows(W[..|W| - 1], xw) + [SelectionRow(W[|W| - 1], xw(W[|W| - 1]) == 1.0)]
  }

  /** `__warehouse_selection_data`: the `pd.concat` accumulator loop. */
  method WarehouseSelection(W: seq<string>, xw: string -> real) returns (table: seq<SelectionRow>)
    ensures table == SelectionRows(W, xw)
  {
    table := [];
    for i := 0 to |W|
      invariant table == SelectionRows(W[..i], xw)
    {
      TakeSnoc(W, i);
      table := table + [SelectionRow(W[i], xw(W[i]) == 1.0)];
    }
    assert W[..|W|] == W;
  }

  // ---------------------------------------------------------------- warehouse-township assignment

  /** The column of warehouse w: the value of x_assign[w,t] for every t. */
  function AssignmentColumn(w: string, T: seq<string>, xAssign: (string, string) -> real): map<string, real>
  {
    map t | t in T :: xAssign(w, t)
  }

  /** The whole table, keyed by warehouse and then by township. */
  function AssignmentTable(W: seq<string>, T: seq<string>, xAssign: (string, string) -> real): map<string, map<string, real>>
  {
    map w | w in W :: AssignmentColumn(w, T, xAssign)
  }

  /** The table holds x_assign[w,t] at (t, w) for every warehouse and township,
      and nothing else. */
  lemma AssignmentTableEntries(W: seq<string>, T: seq<string>, xAssign: (string, string) -> real)
    ensures AssignmentTable(W, T, xAssign).Keys == set w | w in W
    ensures forall w :: w in W ==> AssignmentTable(W, T, xAssign)[w].Keys == set t | t in T
    ensures forall w, t :: w in W && t in T ==> AssignmentTable(W, T, xAssign)[w][t] == xAssign(w, t)
  {
  }

  /** The inner loop: `single_warehouse_dict[t] = x_assign[w, t]()`. */
  method WarehouseColumn(w: string, T: seq<string>, xAssign: (string, string) -> real)
    returns (column: map<string, real>)
    ensures column == AssignmentColumn(w, T, xAssign)
  {
    column := map[];
    for i := 0 to |T|
      invariant column == AssignmentColumn(w, T[..i], xAssign)
    {
      TakeSnoc(T, i);
      column := column[T[i] := xAssign(w, T[i])];
    }
    assert T[..|T|] == T;
  }

  /** `__warehouse_township_assignment_data`: the outer loop over warehouses. */
  method WarehouseTownshipAssignment(W: seq<string>, T: seq<string>, xAssign: (string, string) -> real)
    returns (table: map<string, map<string, real>>)
    ensures table == AssignmentTable(W, T, xAssign)
  {
    table := map[];
    for i := 0 to |W|
      invariant table == AssignmentTable(W[..i], T, xAssign)
    {
      TakeSnoc(W, i);
      var column := WarehouseColumn(W[i], T, xAssign);
      table := table[W[i] := column];
    }
    assert W[..|W|] == W;
  }

  // ---------------------------------------------------------------- utilisation

  /** `used/total if total > 0 else 0`. */
  function Ratio(used: real, total: real): (r: real)
    ensures total > 0.0 ==> r * total == used
    ensures total <= 0.0 ==> r == 0.0
  {
    if total > 0.0 then used / total else 0.0
  }

  /** A ratio of a part to a non-negative whole lies in [0, 1]. */
  lemma RatioBounds(used: real, total: real)
    requires 0.0 <= used <= total
    ensures 0.0 <= Ratio(used, total) <= 1.0
  {
    if total > 0.0 {
      assert Ratio(used, total) * total == used;
      FractionBound(Ratio(used, total), total, used);
    }
  }

  lemma FractionBound(r: real, t: real, u: real)
    requires t > 0.0 && r * t == u && 0.0 <= u <= t
    ensures 0.0 <= r <= 1.0
  {
  }

  /** A technician's load: its working time `capLHS[k]` and its capacity. */
  datatype Load = Load(used: real, total: real)

  function LoadUsed(l: Load): real { l.used }

  function LoadTotal(l: Load): real { l.total }

  /** The load of every technician, in the order of K. */
  function Loads(p: Params, a: Assignment): (r: seq<Load>)
    requires CapacityDefined(p)
    ensures |r| == |p.K|
    ensures forall i :: 0 <= i < |p.K| ==>
              r[i] == Load(Eval(CapLHS(p, p.K[i]), a), p.cap[p.K[i]])
  {
    seq(|p.K|, i requires 0 <= i < |p.K| => Load(Eval(CapLHS(p, p.K[i]), a), p.cap[p.K[i]]))
  }

  /** Every technician's utilisation, then the total one. */
  function Utilisation(loads: seq<Load>): (r: seq<real>)
    ensures |r| == |loads|
    ensures forall i :: 0 <= i < |loads| ==> r[i] == Ratio(loads[i].used, loads[i].total)
    ensures forall i :: 0 <= i < |loads| && loads[i].total > 0.0 ==> r[i] * loads[i].total == loads[i].used
    ensures forall i :: 0 <= i < |loads| && loads[i].total <= 0.0 ==> r[i] == 0.0
  {
    seq(|loads|, i requires 0 <= i < |loads| => Ratio(loads[i].used, loads[i].total))
  }

  function TotalUtilisation(loads: seq<Load>): real
  {
    Ratio(SumBy(loads, LoadUsed), SumBy(loads, LoadTotal))
  }

  lemma {:induction false} SumByMonotone(loads: seq<Load>)
    requires forall l :: l in loads ==> l.used <= l.total
    ensures SumBy(loads, LoadUsed) <= SumBy(loads, LoadTotal)
    decreases |loads|
  {
    if loads != [] {
      assert loads[|loads| - 1] in loads;
      assert forall l :: l in loads[..|loads| - 1] ==> l in loads;
      SumByMonotone(loads[..|loads| - 1]);
    }
  }

  /** When no technician works beyond its capacity, every utilisation and
      the total utilisation lie in [0, 1]. */
  lemma UtilisationBounds(loads: seq<Load>)
    requires forall l :: l in loads ==> 0.0 <= l.used <= l.total
    ensures forall r :: r in Utilisation(loads) ==> 0.0 <= r <= 1.0
    ensures 0.0 <= TotalUtilisation(loads) <= 1.0
  {
    forall i | 0 <= i < |loads|
      ensures 0.0 <= Utilisation(loads)[i] <= 1.0
    {
      assert loads[i] in loads;
      RatioBounds(loads[i].used, loads[i].total);
    }
    assert forall l :: l in loads ==> LoadUsed(l) >= 0.0;
    SumByNonNegative(loads, LoadUsed);
    SumByMonotone(loads);
    RatioBounds(SumBy(loads, LoadUsed), SumBy(loads, LoadTotal));
  }

  /** With non-negative durations and distances, working time is never
      negative. */
  lemma CapLHSNonNegative(p: Params, k: string, a: Assignment)
    requires CapacityDefined(p) && RespectsDomains(a)
    requires forall j :: j in p.C ==> p.dur[j] >= 0.0
    requires forall i, l :: i in p.L && l in p.L ==> p.dist[(i, l)] >= 0.0
    ensures Eval(CapLHS(p, k), a) >= 0.0
  {
    var durs := DurTerms(p, p.C, k);
    forall t | t in durs
      ensures t.1 * a(t.0) >= 0.0
    {
      var n :| 0 <= n < |durs| && durs[n] == t;
      assert p.C[n] in p.C;
      assert InDomain(t.0, a(t.0));
    }
    EvalNonNegative(durs, a);
    DistTermsNonNegative(p, k, a);
    EvalAppend(durs, DistTerms(p, k), a);
  }

  /** A technician that meets its capacity constraint, with non-negative
      durations, distances and capacity, works between zero and its capacity. */
  lemma LoadWithinCapacity(p: Params, a: Assignment, k: string)
    requires CapacityDefined(p) && RespectsDomains(a) && k in p.K
    requires forall j :: j in p.C ==> p.dur[j] >= 0.0
    requires forall i, l :: i in p.L && l in p.L ==> p.dist[(i, l)] >= 0.0
    requires p.cap[k] >= 0.0
    requires Eval(CapLHS(p, k), a) <= p.cap[k] * a(U(k))
    ensures 0.0 <= Eval(CapLHS(p, k), a) <= p.cap[k]
  {
    CapLHSNonNegative(p, k, a);
    assert InDomain(U(k), a(U(k)));
    ScaledCapacity(Eval(CapLHS(p, k), a), p.cap[k], a(U(k)));
  }

  lemma ScaledCapacity(used: real, cap: real, u: real)
    requires used <= cap * u && cap >= 0.0 && (u == 0.0 || u == 1.0)
    ensures used <= cap
  {
  }

  /** A solution that meets every capacity constraint, with non-negative
      durations, distances and capacities, has every technician's load within
      its capacity, so all utilisations lie in [0, 1]. */
  lemma SolvedUtilisationBounds(p: Params, a: Assignment)
    requires CapacityDefined(p) && RespectsDomains(a)
    requires forall j :: j in p.C ==> p.dur[j] >= 0.0
    requires forall i, l :: i in p.L && l in p.L ==> p.dist[(i, l)] >= 0.0
    requires forall k :: k in p.K ==> p.cap[k] >= 0.0
    requires HoldsAll(Capacity(p, p.K), a)
    ensures forall r :: r in Utilisation(Loads(p, a)) ==> 0.0 <= r <= 1.0
    ensures 0.0 <= TotalUtilisation(Loads(p, a)) <= 1.0
  {
    CapacityHolds(p, a);
    LoadsWithinCapacity(p, a);
    UtilisationBounds(Loads(p, a));
  }

  lemma LoadsWithinCapacity(p: Params, a: Assignment)
    requires CapacityDefined(p) && RespectsDomains(a)
    requires forall j :: j in p.C ==> p.dur[j] >= 0.0
    requires forall i, l :: i in p.L && l in p.L ==> p.dist[(i, l)] >= 0.0
    requires forall k :: k in p.K ==> p.cap[k] >= 0.0
    requires forall k :: k in p.K ==> Eval(CapLHS(p, k), a) <= p.cap[k] * a(U(k))
    ensures forall l :: l in Loads(p, a) ==> 0.0 <= l.used <= l.total
  {
    var loads := Loads(p, a);
    forall i | 0 <= i < |loads|
      ensures 0.0 <= loads[i].used <= loads[i].total
    {
      var k := p.K[i];
      assert k in p.K;
      LoadWithinCapacity(p, a, k);
    }
  }

  // ---------------------------------------------------------------- assignment report

  /** The parts of a report line: who serves the customer (or nobody), then
      the notes on lateness and corrected time windows. */
  datatype Piece =
    | Nobody(customer: string, job: string, location: string)
    | Assigned(technician: string, customer: string, job: string, location: string, start: real)
    | Late(minutes: real)
    | StartCorrected(minutes: real)
    | EndCorrected(minutes: real)

  /** The Python variable `jobStr`: not yet bound, bound to a text, or failed
      by reading it while unbound (NameError). */
  datatype JobStr = Unbound | Text(pieces: seq<Piece>) | NameError

  /** The threshold above which z, xa and xb are reported. */
  const NOTE_THRESHOLD: real := 0.000001

  /** The value of g, x above which a customer counts as left out or served. */
  const BINARY_THRESHOLD: real := 0.5

  /** The notes on customer c, in the order lateness, start, end. */
  function Notes(c: string, a: Assignment): seq<Piece>
  {
    (if a(Z(c)) > NOTE_THRESHOLD then [Late(a(Z(c)))] else [])
    + (if a(XA(c)) > NOTE_THRESHOLD then [StartCorrected(a(XA(c)))] else [])
    + (if a(XB(c)) > NOTE_THRESHOLD then [EndCorrected(a(XB(c)))] else [])
  }

  /** `jobStr += note` for each note: appending to an unbound name fails. */
  function Extend(s: JobStr, notes: seq<Piece>): JobStr
  {
    if notes == [] then s
    else match s
      case Text(p) => Text(p + notes)
      case _ => NameError
  }

  function AssignedPiece(c: Customer, k: string, a: Assignment): Piece
  {
    Assigned(k, c.name, c.job.name, c.loc, a(T(c.loc)))
  }

  function NobodyPiece(c: Customer): Piece
  {
    Nobody(c.name, c.job.name, c.loc)
  }

  /** One pass of the loop over technicians: rebind the text when k serves c,
      then append the notes (this is inside the loop, so it happens on every
      pass). */
  function TechnicianStep(c: Customer, k: string, a: Assignment, s: JobStr): JobStr
  {
    if s.NameError? then s
    else
      var s1 := if a(X(c.name, k)) > BINARY_THRESHOLD then Text([AssignedPiece(c, k, a)]) else s;
      Extend(s1, Notes(c.name, a))
  }

  function OverTechnicians(c: Customer, ks: seq<string>, a: Assignment, s: JobStr): JobStr
  {
    if ks == [] then s
    else TechnicianStep(c, ks[|ks| - 1], a, OverTechnicians(c, ks[..|ks| - 1], a, s))
  }

  /** The text after customer c, given the text left by the previous one. */
  function CustomerStep(c: Customer, K: seq<string>, a: Assignment, s: JobStr): JobStr
  {
    if a(G(c.name)) > BINARY_THRESHOLD then Text([NobodyPiece(c)])
    else OverTechnicians(c, K, a, s)
  }

  /** The text variable and the lines logged so far. */
  datatype ReportState = ReportState(jobStr: JobStr, lines: seq<seq<Piece>>)

  /** `__assignment_data` as written, over the customers `cs`: one logged
      line per customer, until a NameError ends the run. */
  function Report(cs: seq<Customer>, K: seq<string>, a: Assignment): ReportState
  {
    if cs == [] then ReportState(Unbound, [])
    else
      var r := Report(cs[..|cs| - 1], K, a);
      if r.jobStr.NameError? then r
      else
        var s := CustomerStep(cs[|cs| - 1], K, a, r.jobStr);
        if s.Text? then ReportState(s, r.lines + [s.pieces]) else ReportState(NameError, r.lines)
  }

  /** The inner loop over technicians for one customer. */
  method TechnicianLoop(c: Customer, K: seq<string>, a: Assignment, s0: JobStr) returns (s: JobStr)
    ensures s == OverTechnicians(c, K, a, s0)
  {
    s := s0;
    for i := 0 to |K|
      invariant s == OverTechnicians(c, K[..i], a, s0)
    {
      TakeSnoc(K, i);
      assert K[..i + 1][..i] == K[..i];
      if !s.NameError? {
        if a(X(c.name, K[i])) > BINARY_THRESHOLD {
          s := Text([AssignedPiece(c, K[i], a)]);
        }
        s := Extend(s, Notes(c.name, a));
      }
    }
    assert K[..|K|] == K;
  }

  /** `__assignment_data`: the logged lines, and whether it ended in a
      NameError. */
  method AssignmentData(cs: seq<Customer>, K: seq<string>, a: Assignment)
    returns (lines: seq<seq<Piece>>, failed: bool)
    ensures lines == Report(cs, K, a).lines
    ensures failed <==> Report(cs, K, a).jobStr.NameError?
  {
    var jobStr := Unbound;
    lines := [];
    var n := 0;
    while n < |cs|
      invariant 0 <= n <= |cs|
      invariant Report(cs[..n], K, a) == ReportState(jobStr, lines)
      invariant !jobStr.NameError?
    {
      TakeSnoc(cs, n);
      assert cs[..n + 1][..n] == cs[..n];
      var c := cs[n];
      if a(G(c.name)) > BINARY_THRESHOLD {
        jobStr := Text([NobodyPiece(c)]);
      } else {
        jobStr := TechnicianLoop(c, K, a, jobStr);
      }
      if !jobStr.Text? {
        ReportStops(cs, K, a, n + 1);
        failed := true;
        return;
      }
      lines := lines + [jobStr.pieces];
      n := n + 1;
    }
    assert cs[..n] == cs;
    failed := false;
  }

  /** Once a NameError is raised, no further customer is processed. */
  lemma {:induction false} ReportStops(cs: seq<Customer>, K: seq<string>, a: Assignment, n: nat)
    requires n <= |cs| && Report(cs[..n], K, a).jobStr.NameError?
    ensures Report(cs, K, a) == Report(cs[..n], K, a)
    decreases |cs| - n
  {
    if n < |cs| {
      TakeSnoc(cs, n);
      assert cs[..n + 1][..n] == cs[..n];
      ReportStops(cs, K, a, n + 1);
    } else {
      assert cs[..n] == cs;
    }
  }

  /** `s` repeated n times. */
  function Repeat<T>(s: seq<T>, n: nat): (r: seq<T>)
    ensures |r| == n * |s|
  {
    if n == 0 then [] else Repeat(s, n - 1) + s
  }

  /** A customer with g above 0.5 is reported as served by nobody, whatever
      came before. */
  lemma UnassignedReported(c: Customer, K: seq<string>, a: Assignment, s: JobStr)
    requires a(G(c.name)) > BINARY_THRESHOLD
    ensures CustomerStep(c, K, a, s) == Text([NobodyPiece(c)])
  {
  }

  /** As written: when K[m] is the last technician with x above 0.5, the
      line names K[m] and then carries the notes once for K[m] and once for
      every technician after it. */
  lemma {:induction false} AssignedReported(c: Customer, ks: seq<string>, a: Assignment, s: JobStr, m: nat)
    requires m < |ks| && a(X(c.name, ks[m])) > BINARY_THRESHOLD
    requires forall j :: m < j < |ks| ==> a(X(c.name, ks[j])) <= BINARY_THRESHOLD
    requires !OverTechnicians(c, ks[..m], a, s).NameError?
    ensures OverTechnicians(c, ks, a, s) ==
              Text([AssignedPiece(c, ks[m], a)] + Repeat(Notes(c.name, a), |ks| - m))
    decreases |ks|
  {
    var p := ks[..|ks| - 1];
    var notes := Notes(c.name, a);
    var first := [AssignedPiece(c, ks[m], a)];
    if |ks| == m + 1 {
      assert p == ks[..m];
      assert OverTechnicians(c, ks, a, s) == Extend(Text(first), notes);
      EmptyAppend(notes);
      assert Repeat(notes, 1) == notes;
    } else {
      assert p[..m] == ks[..m];
      AssignedReported(c, p, a, s, m);
      var r := Repeat(notes, |p| - m);
      assert a(X(c.name, ks[|ks| - 1])) <= BINARY_THRESHOLD;
      assert OverTechnicians(c, ks, a, s) == Extend(Text(first + r), notes);
      assert Repeat(notes, |ks| - m) == r + notes;
      AppendAssoc(first, r, notes);
    }
  }

  /** Customer "c" served by the first of two technicians and 5 minutes
      late: the lateness note appears twice. */
  lemma NotesRepeated()
    ensures var c := Customer("c", "l", Job("j", 1.0, 1.0, []), 0.0, 0.0, 0.0);
            var a: Assignment := v => if v == X("c", "k1") || v == Z("c") then 5.0 else 0.0;
            CustomerStep(c, ["k1", "k2"], a, Unbound)
            == Text([AssignedPiece(c, "k1", a), Late(5.0), Late(5.0)])
  {
    var c := Customer("c", "l", Job("j", 1.0, 1.0, []), 0.0, 0.0, 0.0);
    var a: Assignment := v => if v == X("c", "k1") || v == Z("c") then 5.0 else 0.0;
    var ks := ["k1", "k2"];
    assert ks[..0] == [];
    assert Notes("c", a) == [Late(5.0)];
    AssignedReported(c, ks, a, Unbound, 0);
    assert Repeat([Late(5.0)], 2) == [Late(5.0), Late(5.0)];
  }

  /** The last technician of `ks` with x above 0.5 for customer c. */
  function LastAssigned(c: string, ks: seq<string>, a: Assignment): (r: Option<string>)
    ensures r.Some? ==> r.value in ks && a(X(c, r.value)) > BINARY_THRESHOLD
    ensures r.None? <==> forall k :: k in ks ==> a(X(c, k)) <= BINARY_THRESHOLD
  {
    if ks == [] then None
    else if a(X(c, ks[|ks| - 1])) > BINARY_THRESHOLD then Some(ks[|ks| - 1])
    else
      assert forall k :: k in ks ==> k in ks[..|ks| - 1] || k == ks[|ks| - 1];
      LastAssigned(c, ks[..|ks| - 1], a)
  }

  /** The line meant for customer c: nobody when g is above 0.5, otherwise the
      serving technician followed by the notes exactly once; `None` when no
      technician serves c, a case the code as written reports with the text
      left over from the previous customer. */
  function CustomerLine(c: Customer, K: seq<string>, a: Assignment): Option<seq<Piece>>
  {
    if a(G(c.name)) > BINARY_THRESHOLD then Some([NobodyPiece(c)])
    else match LastAssigned(c.name, K, a)
      case Some(k) => Some([AssignedPiece(c, k, a)] + Notes(c.name, a))
      case None => None
  }

  /** `__assignment_data` with the notes appended once, after the loop over
      technicians: the line meant for every customer, in order. */
  method AssignmentLines(cs: seq<Customer>, K: seq<string>, a: Assignment)
    returns (lines: seq<Option<seq<Piece>>>)
    ensures |lines| == |cs|
    ensures forall i :: 0 <= i < |cs| ==> lines[i] == CustomerLine(cs[i], K, a)
  {
    lines := [];
    for n := 0 to |cs|
      invariant |lines| == n
      invariant forall i :: 0 <= i < n ==> lines[i] == CustomerLine(cs[i], K, a)
    {
      var c := cs[n];
      var line: Option<seq<Piece>>;
      if a(G(c.name)) > BINARY_THRESHOLD {
        line := Some([NobodyPiece(c)]);
      } else {
        var served: Option<string> := None;
        for i := 0 to |K|
          invariant served == LastAssigned(c.name, K[..i], a)
        {
          TakeSnoc(K, i);
          assert K[..i + 1][..i] == K[..i];
          if a(X(c.name, K[i])) > BINARY_THRESHOLD {
            served := Some(K[i]);
          }
        }
        assert K[..|K|] == K;
        line := if served.Some? then Some([AssignedPiece(c, served.value, a)] + Notes(c.name, a)) else None;
      }
      lines := lines + [line];
    }
  }

  /** In a solution that meets the customer's assignment constraint (g plus
      the x of the technicians able to cover it equals one), a customer with
      g at most 0.5 is served by a technician of K with x = 1, and its line
      names that technician and carries each note at most once. */
  lemma CustomerLineServed(p: Params, a: Assignment, c: Customer)
    requires CustomerParams(p) && c.name in p.C && RespectsDomains(a)
    requires forall k :: k in p.canCover[c.name] ==> k in p.K
    requires Holds(TechnicianJobRow(p, c.name), a)
    requires a(G(c.name)) <= BINARY_THRESHOLD
    ensures CustomerLine(c, p.K, a).Some?
    ensures var line := CustomerLine(c, p.K, a).value;
            line[0].Assigned? && line[0].technician in p.K &&
            a(X(c.name, line[0].technician)) == 1.0 &&
            line[1..] == Notes(c.name, a) && |line[1..]| <= 3
  {
    TechnicianJobRowHolds(p, c.name, a);
    var xs := AssignVars(c.name, p.canCover[c.name]);
    assert InDomain(G(c.name), a(G(c.name)));
    assert Total(xs, a) == 1.0;
    var i := TotalPositiveWitness(xs, a);
    assert xs[i] == X(c.name, p.canCover[c.name][i]);
    assert p.canCover[c.name][i] in p.canCover[c.name];
    assert InDomain(xs[i], a(xs[i]));
    var k := LastAssigned(c.name, p.K, a).value;
    assert InDomain(X(c.name, k), a(X(c.name, k)));
  }

  /** A positive total has a positive term. */
  lemma {:induction false} TotalPositiveWitness(vs: seq<Var>, a: Assignment) returns (i: nat)
    requires Total(vs, a) > 0.0
    ensures i < |vs| && a(vs[i]) > 0.0
    decreases |vs|
  {
    if a(vs[|vs| - 1]) > 0.0 {
      i := |vs| - 1;
    } else {
      i := TotalPositiveWitness(vs[..|vs| - 1], a);
    }
  }

  // ---------------------------------------------------------------- technician routes

  /** A technician's reported route: not used, a walk back to its depot, or a
      walk that has not returned within the given number of rounds. */
  datatype Route =
    | NotUsed(technician: string)
    | Closed(technician: string, stops: seq<string>)
    | Unfinished(technician: string, stops: seq<string>)

  /** The walk so far: the current location and the stops visited, which end
      at the current location. */
  datatype Walker = Walker(cur: string, stops: seq<string>)

  /** The pass over customers: each customer whose location is reached from
      the current location by an arc with y above 0.5 is visited, moving the
      current location (later customers see the new one). */
  function CustomerHops(k: string, cs: seq<Customer>, location: map<string, string>, a: Assignment, w: Walker): Walker
    requires forall c :: c in cs ==> c.name in location
  {
    if cs == [] then w
    else
      var w1 := CustomerHops(k, cs[..|cs| - 1], location, a, w);
      var j := cs[|cs| - 1];
      if a(Y(w1.cur, j.loc, k)) > BINARY_THRESHOLD
      then Walker(location[j.name], w1.stops + [location[j.name]])
      else w1
  }

  /** The pass over depots: the first depot reached by an arc with y above
      0.5 is visited, and the pass stops there. */
  function DepotHop(k: string, D: seq<string>, a: Assignment, w: Walker): Walker
  {
    if D == [] then w
    else if a(Y(w.cur, D[0], k)) > BINARY_THRESHOLD then Walker(D[0], w.stops + [D[0]])
    else DepotHop(k, D[1..], a, w)
  }

  /** The `while True` loop, for at most `fuel` rounds. */
  function Walk(k: string, depot: string, cs: seq<Customer>, location: map<string, string>,
                D: seq<string>, a: Assignment, w: Walker, fuel: nat): Route
    requires forall c :: c in cs ==> c.name in location
    decreases fuel
  {
    if fuel == 0 then Unfinished(k, w.stops)
    else
      var w2 := DepotHop(k, D, a, CustomerHops(k, cs, location, a, w));
      if w2.cur == depot then Closed(k, w2.stops)
      else Walk(k, depot, cs, location, D, a, w2, fuel - 1)
  }

  /** The route reported for technician t. */
  function TechnicianRoute(t: Technician, cs: seq<Customer>, location: map<string, string>,
                           D: seq<string>, a: Assignment, fuel: nat): Route
    requires forall c :: c in cs ==> c.name in location
  {
    if a(U(t.name)) > BINARY_THRESHOLD
    then Walk(t.name, t.depot, cs, location, D, a, Walker(t.depot, [t.depot]), fuel)
    else NotUsed(t.name)
  }

  /** Every step between consecutive stops follows an arc k uses (y above 0.5),
      and the walk ends where it stands. */
  predicate Chained(k: string, a: Assignment, w: Walker)
  {
    |w.stops| > 0 && w.stops[|w.stops| - 1] == w.cur &&
    forall i :: 0 <= i < |w.stops| - 1 ==> a(Y(w.stops[i], w.stops[i + 1], k)) > BINARY_THRESHOLD
  }

  lemma ChainedSnoc(k: string, a: Assignment, w: Walker, next: string)
    requires Chained(k, a, w) && a(Y(w.cur, next, k)) > BINARY_THRESHOLD
    ensures Chained(k, a, Walker(next, w.stops + [next]))
    ensures (w.stops + [next])[..|w.stops|] == w.stops
  {
    var s := w.stops + [next];
    forall i | 0 <= i < |s| - 1
      ensures a(Y(s[i], s[i + 1], k)) > BINARY_THRESHOLD
    {
      if i < |w.stops| - 1 {
        assert s[i] == w.stops[i] && s[i + 1] == w.stops[i + 1];
      }
    }
  }

  /** Customer hops keep the walk chained and its first stop. */
  lemma {:induction false} CustomerHopsChained(k: string, cs: seq<Customer>, location: map<string, string>, a: Assignment, w: Walker)
    requires forall c :: c in cs ==> c.name in location && location[c.name] == c.loc
    requires Chained(k, a, w)
    ensures Chained(k, a, CustomerHops(k, cs, location, a, w))
    ensures CustomerHops(k, cs, location, a, w).stops[0] == w.stops[0]
    decreases |cs|
  {
    if cs != [] {
      var p := cs[..|cs| - 1];
      assert forall c :: c in p ==> c in cs;
      CustomerHopsChained(k, p, location, a, w);
      var w1 := CustomerHops(k, p, location, a, w);
      var j := cs[|cs| - 1];
      assert j in cs;
      if a(Y(w1.cur, j.loc, k)) > BINARY_THRESHOLD {
        ChainedSnoc(k, a, w1, j.loc);
      }
    }
  }

  /** The depot hop keeps the walk chained and its first stop. */
  lemma {:induction false} DepotHopChained(k: string, D: seq<string>, a: Assignment, w: Walker)
    requires Chained(k, a, w)
    ensures Chained(k, a, DepotHop(k, D, a, w))
    ensures DepotHop(k, D, a, w).stops[0] == w.stops[0]
    decreases |D|
  {
    if D != [] {
      if a(Y(w.cur, D[0], k)) > BINARY_THRESHOLD {
        ChainedSnoc(k, a, w, D[0]);
      } else {
        DepotHopChained(k, D[1..], a, w);
      }
    }
  }

  /** A walk from a chained start stays chained; a closed walk ends back at
      the depot. */
  lemma {:induction false} WalkChained(k: string, depot: string, cs: seq<Customer>, location: map<string, string>,
                                       D: seq<string>, a: Assignment, w: Walker, fuel: nat)
    requires forall c :: c in cs ==> c.name in location && location[c.name] == c.loc
    requires Chained(k, a, w)
    ensures var r := Walk(k, depot, cs, location, D, a, w, fuel);
            !r.NotUsed? && |r.stops| > 0 && r.stops[0] == w.stops[0] &&
            (forall i :: 0 <= i < |r.stops| - 1 ==> a(Y(r.stops[i], r.stops[i + 1], k)) > BINARY_THRESHOLD) &&
            (r.Closed? ==> r.stops[|r.stops| - 1] == depot)
    decreases fuel
  {
    if fuel > 0 {
      var w1 := CustomerHops(k, cs, location, a, w);
      CustomerHopsChained(k, cs, location, a, w);
      DepotHopChained(k, D, a, w1);
      var w2 := DepotHop(k, D, a, w1);
      if w2.cur != depot {
        WalkChained(k, depot, cs, location, D, a, w2, fuel - 1);
      }
    }
  }

  /** A used technician's route starts at its depot and follows only arcs it
      uses (y above 0.5); when the walk closes, it ends at the depot again.
      A technician with u at most 0.5 is reported as not used. */
  lemma RouteFollowsArcs(t: Technician, cs: seq<Customer>, location: map<string, string>,
                         D: seq<string>, a: Assignment, fuel: nat)
    requires forall c :: c in cs ==> c.name in location && location[c.name] == c.loc
    ensures var r := TechnicianRoute(t, cs, location, D, a, fuel);
            (r.NotUsed? <==> a(U(t.name)) <= BINARY_THRESHOLD) &&
            (!r.NotUsed? ==>
               |r.stops| > 0 && r.stops[0] == t.depot &&
               (forall i :: 0 <= i < |r.stops| - 1 ==> a(Y(r.stops[i], r.stops[i + 1], t.name)) > BINARY_THRESHOLD) &&
               (r.Closed? ==> r.stops[|r.stops| - 1] == t.depot))
  {
    if a(U(t.name)) > BINARY_THRESHOLD {
      WalkChained(t.name, t.depot, cs, location, D, a, Walker(t.depot, [t.depot]), fuel);
    }
  }

  /** The loop over customers of one round. */
  method CustomerHopsLoop(k: string, cs: seq<Customer>, location: map<string, string>, a: Assignment,
                          cur0: string, stops0: seq<string>)
    returns (cur: string, stops: seq<string>)
    requires forall c :: c in cs ==> c.name in location
    ensures Walker(cur, stops) == CustomerHops(k, cs, location, a, Walker(cur0, stops0))
  {
    cur, stops := cur0, stops0;
    for n := 0 to |cs|
      invariant forall c :: c in cs[..n] ==> c in cs
      invariant Walker(cur, stops) == CustomerHops(k, cs[..n], location, a, Walker(cur0, stops0))
    {
      TakeSnoc(cs, n);
      assert cs[..n + 1][..n] == cs[..n];
      assert cs[n] in cs;
      var j := cs[n];
      if a(Y(cur, j.loc, k)) > BINARY_THRESHOLD {
        stops := stops + [location[j.name]];
        cur := location[j.name];
      }
    }
    assert cs[..|cs|] == cs;
  }

  /** The loop over depots of one round, left at the first arc used. */
  method DepotHopLoop(k: string, D: seq<string>, a: Assignment, cur0: string, stops0: seq<string>)
    returns (cur: string, stops: seq<string>)
    ensures Walker(cur, stops) == DepotHop(k, D, a, Walker(cur0, stops0))
  {
    cur, stops := cur0, stops0;
    for i := 0 to |D|
      invariant DepotHop(k, D, a, Walker(cur0, stops0)) == DepotHop(k, D[i..], a, Walker(cur0, stops0))
    {
      assert D[i..][1..] == D[i + 1..];
      if a(Y(cur, D[i], k)) > BINARY_THRESHOLD {
        stops := stops + [D[i]];
        cur := D[i];
        break;
      }
    }
  }

  /** One technician of `__technicians_data`, with at most `fuel` rounds of
      the `while True` loop. */
  method TechnicianRouteWalk(t: Technician, cs: seq<Customer>, location: map<string, string>,
                             D: seq<string>, a: Assignment, fuel: nat)
    returns (r: Route)
    requires forall c :: c in cs ==> c.name in location
    ensures r == TechnicianRoute(t, cs, location, D, a, fuel)
  {
    if a(U(t.name)) <= BINARY_THRESHOLD {
      return NotUsed(t.name);
    }
    var cur, stops := t.depot, [t.depot];
    var n := fuel;
    while true
      invariant Walk(t.name, t.depot, cs, location, D, a, Walker(cur, stops), n)
                == TechnicianRoute(t, cs, location, D, a, fuel)
      decreases n
    {
      if n == 0 {
        return Unfinished(t.name, stops);
      }
      cur, stops := CustomerHopsLoop(t.name, cs, location, a, cur, stops);
      cur, stops := DepotHopLoop(t.name, D, a, cur, stops);
      if cur == t.depot {
        return Closed(t.name, stops);
      }
      n := n - 1;
    }
  }

  /** The routes of all technicians, in the order of the technician list. */
  function Routes(ts: seq<Technician>, cs: seq<Customer>, location: map<string, string>,
                  D: seq<string>, a: Assignment, fuel: nat): (r: seq<Route>)
    requires forall c :: c in cs ==> c.name in location
    ensures |r| == |ts|
    ensures forall i :: 0 <= i < |ts| ==> r[i] == TechnicianRoute(ts[i], cs, location, D, a, fuel)
  {
    seq(|ts|, i requires 0 <= i < |ts| => TechnicianRoute(ts[i], cs, location, D, a, fuel))
  }

  /** `__technicians_data`: the loop over technicians. */
  method TechniciansData(ts: seq<Technician>, cs: seq<Customer>, location: map<string, string>,
                         D: seq<string>, a: Assignment, fuel: nat)
    returns (routes: seq<Route>)
    requires forall c :: c in cs ==> c.name in location
    ensures routes == Routes(ts, cs, location, D, a, fuel)
  {
    routes := [];
    for i := 0 to |ts|
      invariant routes == Routes(ts[..i], cs, location, D, a, fuel)
    {
      var r := TechnicianRouteWalk(ts[i], cs, location, D, a, fuel);
      routes := routes + [r];
    }
    assert ts[..|ts|] == ts;
  }
}
