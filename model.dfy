/** The technician-routing formulation that the optimisation model class
    builds from the preprocessed records: its index sets, parameters, the arcs
    it fixes to zero, its nine constraint families and its weighted objective.
    Every family is a specification function over `Params`; the class's
    generator methods are loops proved to emit exactly that family, and the
    lemmas state how many constraints each family has, where each one sits
    and what it demands of a candidate solution. */
module Model {
  import opened Seqs
  import opened Linear
  import opened Preprocessing

  /** Objective weight of one unit of priority of an unfilled job (`M`). */
  const GAP_WEIGHT: real := 6100.0
  /** Objective weight of one unit of time-window correction: 1% of `GAP_WEIGHT`. */
  const CORRECTION_WEIGHT: real := 0.01 * GAP_WEIGHT
  /** The constant part of every temporal big-M. */
  const TIME_SLACK: real := 600.0

  /** The index sets and the parameters of the formulation. */
  datatype Params = Params(
    K: seq<string>, C: seq<string>, J: seq<string>, L: seq<string>, D: seq<string>,
    cap: map<string, real>, location: map<string, string>, depot: map<string, string>,
    canCover: map<string, seq<string>>, dur: map<string, real>,
    tstart: map<string, real>, tend: map<string, real>, tDue: map<string, real>,
    priority: map<string, real>, dist: map<(string, string), real>)

  // ---------------------------------------------------------------- sets and parameters

  function TechnicianNames(ts: seq<Technician>): seq<string>
  {
    seq(|ts|, n requires 0 <= n < |ts| => ts[n].name)
  }

  function Depots(ts: seq<Technician>): seq<string>
  {
    seq(|ts|, n requires 0 <= n < |ts| => ts[n].depot)
  }

  function CustomerNames(cs: seq<Customer>): seq<string>
  {
    seq(|cs|, n requires 0 <= n < |cs| => cs[n].name)
  }

  function CustomerLocations(cs: seq<Customer>): seq<string>
  {
    seq(|cs|, n requires 0 <= n < |cs| => cs[n].loc)
  }

  /** One (customer name, field) item per customer record. */
  function CustomerItems<V>(cs: seq<Customer>, field: Customer -> V): seq<(string, V)>
  {
    seq(|cs|, n requires 0 <= n < |cs| => (cs[n].name, field(cs[n])))
  }

  /** One (technician name, field) item per technician record. */
  function TechnicianItems<V>(ts: seq<Technician>, field: Technician -> V): seq<(string, V)>
  {
    seq(|ts|, n requires 0 <= n < |ts| => (ts[n].name, field(ts[n])))
  }

  /** The sets (lists with repeats, de-duplicated in first-occurrence order)
      and the parameter dictionaries (later records win) built from the
      technician and customer records, the distance map and the location
      names in column order. */
  function Build(techs: seq<Technician>, customers: seq<Customer>,
                 dist: map<(string, string), real>, columns: seq<string>): Params
  {
    Params(
      Dedup(TechnicianNames(techs)), Dedup(CustomerNames(customers)),
      Dedup(CustomerLocations(customers)), Dedup(columns), Dedup(Depots(techs)),
      ToMap(TechnicianItems(techs, (t: Technician) => t.cap)),
      ToMap(CustomerItems(customers, (c: Customer) => c.loc)),
      ToMap(TechnicianItems(techs, (t: Technician) => t.depot)),
      ToMap(CustomerItems(customers, (c: Customer) => TechnicianNames(c.job.coveredBy))),
      ToMap(CustomerItems(customers, (c: Customer) => c.job.duration)),
      ToMap(CustomerItems(customers, (c: Customer) => c.tStart)),
      ToMap(CustomerItems(customers, (c: Customer) => c.tEnd)),
      ToMap(CustomerItems(customers, (c: Customer) => c.tDue)),
      ToMap(CustomerItems(customers, (c: Customer) => c.job.priority)),
      dist)
  }

  /** A customer's dictionary entry exists and comes from one of its records. */
  lemma CustomerEntry<V>(cs: seq<Customer>, field: Customer -> V, j: string)
    requires j in CustomerNames(cs)
    ensures j in ToMap(CustomerItems(cs, field))
    ensures exists c :: c in cs && c.name == j && ToMap(CustomerItems(cs, field))[j] == field(c)
  {
    var items := CustomerItems(cs, field);
    var n :| 0 <= n < |cs| && CustomerNames(cs)[n] == j;
    assert items[n].0 == j;
    ToMapValue(items, j);
    var m :| 0 <= m < |items| && items[m] == (j, ToMap(items)[j]);
    assert cs[m] in cs;
  }

  /** A technician's dictionary entry exists and comes from one of its records. */
  lemma TechnicianEntry<V>(ts: seq<Technician>, field: Technician -> V, k: string)
    requires k in TechnicianNames(ts)
    ensures k in ToMap(TechnicianItems(ts, field))
    ensures exists t :: t in ts && t.name == k && ToMap(TechnicianItems(ts, field))[k] == field(t)
  {
    var items := TechnicianItems(ts, field);
    var n :| 0 <= n < |ts| && TechnicianNames(ts)[n] == k;
    assert items[n].0 == k;
    ToMapValue(items, k);
    var m :| 0 <= m < |items| && items[m] == (k, ToMap(items)[k]);
    assert ts[m] in ts;
  }

  /** The records the formulation can index without a missing key: every
      customer location and every depot is a location, and the distance map
      holds exactly the pairs of locations. */
  predicate Consistent(techs: seq<Technician>, customers: seq<Customer>,
                       dist: map<(string, string), real>, columns: seq<string>)
  {
    (forall c :: c in customers ==> c.loc in columns) &&
    (forall t :: t in techs ==> t.depot in columns) &&
    (forall q :: q in dist ==> q.0 in columns && q.1 in columns) &&
    (forall a, b :: a in columns && b in columns ==> (a, b) in dist)
  }

  /** Every customer has all its parameters, and its location is a location. */
  predicate CustomerParams(p: Params)
  {
    forall j :: j in p.C ==>
      j in p.location && j in p.canCover && j in p.dur && j in p.tstart &&
      j in p.tend && j in p.tDue && j in p.priority && p.location[j] in p.L
  }

  /** Every technician has a capacity and a depot, and its depot is a location. */
  predicate TechnicianParams(p: Params)
  {
    forall k :: k in p.K ==> k in p.cap && k in p.depot && p.depot[k] in p.L
  }

  predicate DepotsKnown(p: Params)
  {
    forall d :: d in p.D ==> d in p.L
  }

  predicate CustomerLocationsKnown(p: Params)
  {
    forall l :: l in p.J ==> l in p.L
  }

  /** The distance map has every ordered pair of locations. */
  predicate DistanceDefined(p: Params)
  {
    forall a, b :: a in p.L && b in p.L ==> (a, b) in p.dist
  }

  /** Every lookup the constraint generators make is defined. */
  predicate Wellformed(p: Params)
  {
    CustomerParams(p) && TechnicianParams(p) && DepotsKnown(p) &&
    CustomerLocationsKnown(p) && DistanceDefined(p)
  }

  /** The lookups of the capacity constraints. */
  predicate CapacityDefined(p: Params)
  {
    CustomerParams(p) && TechnicianParams(p) && DistanceDefined(p)
  }

  /** The lookups of the temporal constraints. */
  predicate TemporalDefined(p: Params)
  {
    CustomerParams(p) && DepotsKnown(p) && DistanceDefined(p)
  }

  /** The distance map and location columns of the loader are consistent
      with any records whose locations and depots are among the columns. */
  lemma PreprocessedConsistent(sheet: LocationSheet, techs: seq<Technician>, customers: seq<Customer>)
    requires ReadableLocations(sheet)
    requires forall c :: c in customers ==> c.loc in sheet.columns
    requires forall t :: t in techs ==> t.depot in sheet.columns
    ensures Consistent(techs, customers, DistanceMap(sheet), sheet.columns)
  {
    forall a, b
      ensures (a, b) in DistanceMap(sheet) <==> a in sheet.columns && b in sheet.columns
    {
      DistanceMapDomain(sheet, a, b);
    }
    forall q | q in DistanceMap(sheet)
      ensures q.0 in sheet.columns && q.1 in sheet.columns
    {
      DistanceMapDomain(sheet, q.0, q.1);
    }
  }

  /** Every customer of consistent records has all its parameters. */
  lemma BuildCustomerParams(techs: seq<Technician>, customers: seq<Customer>,
                            dist: map<(string, string), real>, columns: seq<string>)
    requires forall c :: c in customers ==> c.loc in columns
    ensures CustomerParams(Build(techs, customers, dist, columns))
  {
    var p := Build(techs, customers, dist, columns);
    forall j | j in p.C
      ensures j in p.location && j in p.canCover && j in p.dur && j in p.tstart
      ensures j in p.tend && j in p.tDue && j in p.priority && p.location[j] in p.L
    {
      DedupMembers(CustomerNames(customers), j);
      CustomerEntry(customers, (c: Customer) => c.loc, j);
      CustomerEntry(customers, (c: Customer) => TechnicianNames(c.job.coveredBy), j);
      CustomerEntry(customers, (c: Customer) => c.job.duration, j);
      CustomerEntry(customers, (c: Customer) => c.tStart, j);
      CustomerEntry(customers, (c: Customer) => c.tEnd, j);
      CustomerEntry(customers, (c: Customer) => c.tDue, j);
      CustomerEntry(customers, (c: Customer) => c.job.priority, j);
      DedupMembers(columns, p.location[j]);
    }
  }

  /** Every technician of consistent records has a capacity and a known depot. */
  lemma BuildTechnicianParams(techs: seq<Technician>, customers: seq<Customer>,
                              dist: map<(string, string), real>, columns: seq<string>)
    requires forall t :: t in techs ==> t.depot in columns
    ensures TechnicianParams(Build(techs, customers, dist, columns))
  {
    var p := Build(techs, customers, dist, columns);
    forall k | k in p.K
      ensures k in p.cap && k in p.depot && p.depot[k] in p.L
    {
      DedupMembers(TechnicianNames(techs), k);
      TechnicianEntry(techs, (t: Technician) => t.cap, k);
      TechnicianEntry(techs, (t: Technician) => t.depot, k);
      DedupMembers(columns, p.depot[k]);
    }
  }

  /** Depots, customer locations and distances of consistent records are defined. */
  lemma BuildLocations(techs: seq<Technician>, customers: seq<Customer>,
                       dist: map<(string, string), real>, columns: seq<string>)
    requires Consistent(techs, customers, dist, columns)
    ensures var p := Build(techs, customers, dist, columns);
      DepotsKnown(p) && CustomerLocationsKnown(p) && DistanceDefined(p)
  {
    var p := Build(techs, customers, dist, columns);
    forall d | d in p.D
      ensures d in p.L
    {
      DedupMembers(Depots(techs), d);
      var n :| 0 <= n < |techs| && techs[n].depot == d;
      assert techs[n] in techs;
      DedupMembers(columns, d);
    }
    forall l | l in p.J
      ensures l in p.L
    {
      DedupMembers(CustomerLocations(customers), l);
      var n :| 0 <= n < |customers| && customers[n].loc == l;
      assert customers[n] in customers;
      DedupMembers(columns, l);
    }
    forall a, b | a in p.L && b in p.L
      ensures (a, b) in p.dist
    {
      DedupMembers(columns, a);
      DedupMembers(columns, b);
    }
  }

  /** Consistent records give a formulation whose every lookup is defined. */
  lemma BuildWellformed(techs: seq<Technician>, customers: seq<Customer>,
                        dist: map<(string, string), real>, columns: seq<string>)
    requires Consistent(techs, customers, dist, columns)
    ensures Wellformed(Build(techs, customers, dist, columns))
  {
    BuildCustomerParams(techs, customers, dist, columns);
    BuildTechnicianParams(techs, customers, dist, columns);
    BuildLocations(techs, customers, dist, columns);
  }

  // ---------------------------------------------------------------- variable lists

  /** x[j,k] for every technician name k of `ks`. */
  function AssignVars(j: string, ks: seq<string>): seq<Var>
  {
    seq(|ks|, n requires 0 <= n < |ks| => X(j, ks[n]))
  }

  /** y[l,b,k] for every location l of `ls`: the arcs into b. */
  function InArcs(ls: seq<string>, b: string, k: string): seq<Var>
  {
    seq(|ls|, n requires 0 <= n < |ls| => Y(ls[n], b, k))
  }

  /** y[a,l,k] for every location l of `ls`: the arcs out of a. */
  function OutArcs(a: string, ls: seq<string>, k: string): seq<Var>
  {
    seq(|ls|, n requires 0 <= n < |ls| => Y(a, ls[n], k))
  }

  /** y[a,b,k] for every technician name k of `ks`. */
  function ArcUsers(a: string, b: string, ks: seq<string>): seq<Var>
  {
    seq(|ks|, n requires 0 <= n < |ks| => Y(a, b, ks[n]))
  }

  // ---------------------------------------------------------------- fixed arcs

  /** The arcs into and out of depot `d` along the locations `ls`, for technician `k`. */
  function ArcsAt(k: Technician, d: string, ls: seq<string>): set<Var>
  {
    if ls == [] then {}
    else
      var i := ls[|ls| - 1];
      ArcsAt(k, d, ls[..|ls| - 1]) + {Y(i, d, k.name), Y(d, i, k.name)}
  }

  /** The arcs technician `k` may not use: those touching a depot of `ds` other than its own. */
  function ArcsFor(k: Technician, ds: seq<string>, ls: seq<string>): set<Var>
  {
    if ds == [] then {}
    else
      var d := ds[|ds| - 1];
      ArcsFor(k, ds[..|ds| - 1], ls) + (if k.depot != d then ArcsAt(k, d, ls) else {})
  }

  /** The arcs fixed to zero for the technicians `ts`. */
  function FixedArcs(ts: seq<Technician>, ds: seq<string>, ls: seq<string>): set<Var>
  {
    if ts == [] then {}
    else FixedArcs(ts[..|ts| - 1], ds, ls) + ArcsFor(ts[|ts| - 1], ds, ls)
  }

  lemma {:induction false} ArcsAtMembers(k: Technician, d: string, ls: seq<string>, v: Var)
    ensures v in ArcsAt(k, d, ls) <==>
      v.Y? && v.technician == k.name && ((v.to == d && v.from in ls) || (v.from == d && v.to in ls))
    decreases |ls|
  {
    if ls != [] {
      var p := ls[..|ls| - 1];
      ArcsAtMembers(k, d, p, v);
      assert forall x :: x in ls <==> x in p || x == ls[|ls| - 1];
    }
  }

  /** `v` is an arc of technician `k` with one end at a depot of `ds` other
      than k's own and the other end at a location of `ls`. */
  predicate Forbidden(k: Technician, ds: seq<string>, ls: seq<string>, v: Var)
  {
    v.Y? && v.technician == k.name &&
    ((v.to in ds && v.to != k.depot && v.from in ls) || (v.from in ds && v.from != k.depot && v.to in ls))
  }

  lemma {:induction false} ArcsForMembers(k: Technician, ds: seq<string>, ls: seq<string>, v: Var)
    ensures v in ArcsFor(k, ds, ls) <==> Forbidden(k, ds, ls, v)
    decreases |ds|
  {
    if ds != [] {
      var p := ds[..|ds| - 1];
      var d := ds[|ds| - 1];
      ArcsForMembers(k, p, ls, v);
      ArcsAtMembers(k, d, ls, v);
      assert forall x :: x in ds <==> x in p || x == d;
    }
  }

  /** An arc is fixed exactly when it belongs to one of the technicians and
      touches a depot of `ds` that is not that technician's depot, the other
      end being a location. */
  lemma {:induction false} FixedArcsMembers(ts: seq<Technician>, ds: seq<string>, ls: seq<string>, v: Var)
    ensures v in FixedArcs(ts, ds, ls) <==> exists t :: t in ts && Forbidden(t, ds, ls, v)
    decreases |ts|
  {
    if ts != [] {
      var p := ts[..|ts| - 1];
      var k := ts[|ts| - 1];
      FixedArcsMembers(p, ds, ls, v);
      ArcsForMembers(k, ds, ls, v);
      assert forall t :: t in ts <==> t in p || t == k;
    }
  }

  /** For a technician whose name no other technician with another depot
      shares: its arc from `a` to `b` is fixed exactly when one end is a
      foreign depot and the other a location.  In particular no arc between
      its own depot and a location that is not a depot is ever fixed. */
  lemma TechnicianArcsFixed(ts: seq<Technician>, ds: seq<string>, ls: seq<string>, k: Technician, a: string, b: string)
    requires k in ts
    requires forall t :: t in ts && t.name == k.name ==> t.depot == k.depot
    ensures Y(a, b, k.name) in FixedArcs(ts, ds, ls) <==>
      (b in ds && b != k.depot && a in ls) || (a in ds && a != k.depot && b in ls)
  {
    FixedArcsMembers(ts, ds, ls, Y(a, b, k.name));
  }

  // ---------------------------------------------------------------- technician_job and one_technician

  /** Customer j is served by one technician able to cover it, or declared a gap. */
  function TechnicianJobRow(p: Params, j: string): LinCon
    requires CustomerParams(p) && j in p.C
  {
    LinCon(Scaled(AssignVars(j, p.canCover[j]), 1.0) + [(G(j), 1.0)], Eq, 1.0)
  }

  function TechnicianJob(p: Params, js: seq<string>): seq<LinCon>
    requires CustomerParams(p) && forall j :: j in js ==> j in p.C
  {
    FlatMap(js, j requires CustomerParams(p) && j in p.C => [TechnicianJobRow(p, j)])
  }

  /** At most one technician serves customer j. */
  function OneTechnicianRow(p: Params, j: string): LinCon
  {
    LinCon(Scaled(AssignVars(j, p.K), 1.0), Le, 1.0)
  }

  function OneTechnician(p: Params, js: seq<string>): seq<LinCon>
  {
    FlatMap(js, j => [OneTechnicianRow(p, j)])
  }

  /** One constraint per customer, in customer order. */
  lemma TechnicianJobCount(p: Params)
    requires CustomerParams(p)
    ensures |TechnicianJob(p, p.C)| == |p.C|
    ensures forall n :: 0 <= n < |p.C| ==> TechnicianJob(p, p.C)[n] == TechnicianJobRow(p, p.C[n])
  {
    var f := j requires CustomerParams(p) && j in p.C => [TechnicianJobRow(p, j)];
    FlatMapLength(p.C, f, 1);
    forall n | 0 <= n < |p.C|
      ensures TechnicianJob(p, p.C)[n] == TechnicianJobRow(p, p.C[n])
    {
      FlatMapAt(p.C, f, 1, n, 0);
    }
  }

  /** The constraint of customer j holds exactly when the x of the
      technicians able to cover it and its gap variable sum to one. */
  lemma TechnicianJobRowHolds(p: Params, j: string, a: Assignment)
    requires CustomerParams(p) && j in p.C
    ensures Holds(TechnicianJobRow(p, j), a) <==> Total(AssignVars(j, p.canCover[j]), a) + a(G(j)) == 1.0
  {
    var xs := AssignVars(j, p.canCover[j]);
    EvalAppend(Scaled(xs, 1.0), [(G(j), 1.0)], a);
    EvalScaled(xs, 1.0, a);
  }

  /** The family holds exactly when every customer's constraint does. */
  lemma TechnicianJobHolds(p: Params, a: Assignment)
    requires CustomerParams(p)
    ensures HoldsAll(TechnicianJob(p, p.C), a) <==>
      forall j :: j in p.C ==> Total(AssignVars(j, p.canCover[j]), a) + a(G(j)) == 1.0
  {
    var f := j requires CustomerParams(p) && j in p.C => [TechnicianJobRow(p, j)];
    HoldsAllFlatMap(p.C, f, a);
    forall j | j in p.C
      ensures HoldsAll(f(j), a) <==> Total(AssignVars(j, p.canCover[j]), a) + a(G(j)) == 1.0
    {
      HoldsAllOne(TechnicianJobRow(p, j), a);
      TechnicianJobRowHolds(p, j, a);
    }
  }

  /** A customer that no technician can cover is necessarily a gap. */
  lemma UncoverableCustomerIsGap(p: Params, a: Assignment, j: string)
    requires CustomerParams(p) && j in p.C && p.canCover[j] == []
    requires HoldsAll(TechnicianJob(p, p.C), a)
    ensures a(G(j)) == 1.0
  {
    TechnicianJobHolds(p, a);
  }

  /** One constraint per customer, in customer order. */
  lemma OneTechnicianCount(p: Params)
    ensures |OneTechnician(p, p.C)| == |p.C|
    ensures forall n :: 0 <= n < |p.C| ==> OneTechnician(p, p.C)[n] == OneTechnicianRow(p, p.C[n])
  {
    var f := j => [OneTechnicianRow(p, j)];
    FlatMapLength(p.C, f, 1);
    forall n | 0 <= n < |p.C|
      ensures OneTechnician(p, p.C)[n] == OneTechnicianRow(p, p.C[n])
    {
      FlatMapAt(p.C, f, 1, n, 0);
    }
  }

  /** The family holds exactly when, for every customer, the x over all
      technicians sum to at most one. */
  lemma OneTechnicianHolds(p: Params, a: Assignment)
    ensures HoldsAll(OneTechnician(p, p.C), a) <==>
      forall j :: j in p.C ==> Total(AssignVars(j, p.K), a) <= 1.0
  {
    var f := j => [OneTechnicianRow(p, j)];
    HoldsAllFlatMap(p.C, f, a);
    forall j | j in p.C
      ensures HoldsAll(f(j), a) <==> Total(AssignVars(j, p.K), a) <= 1.0
    {
      HoldsAllOne(OneTechnicianRow(p, j), a);
      EvalScaled(AssignVars(j, p.K), 1.0, a);
    }
  }

  // ---------------------------------------------------------------- technician_capacity

  /** dur[c] * x[c,k] for every customer c of `cs`. */
  function DurTerms(p: Params, cs: seq<string>, k: string): seq<Term>
    requires forall c :: c in cs ==> c in p.dur
  {
    seq(|cs|, n requires 0 <= n < |cs| => (X(cs[n], k), p.dur[cs[n]]))
  }

  /** dist[i,l] * y[i,l,k] for every location l, for one location i. */
  function DistRow(p: Params, i: string, k: string): seq<Term>
    requires CapacityDefined(p) && i in p.L
  {
    seq(|p.L|, n requires 0 <= n < |p.L| => (Y(i, p.L[n], k), p.dist[(i, p.L[n])]))
  }

  /** dist[i,l] * y[i,l,k] for every pair of locations, i outer. */
  function DistTerms(p: Params, k: string): seq<Term>
    requires CapacityDefined(p)
  {
    FlatMap(p.L, i requires CapacityDefined(p) && i in p.L => DistRow(p, i, k))
  }

  /** The working time of technician k: service durations plus travel. */
  function CapLHS(p: Params, k: string): seq<Term>
    requires CapacityDefined(p)
  {
    DurTerms(p, p.C, k) + DistTerms(p, k)
  }

  /** capLHS[k] <= cap[k] * u[k]. */
  function CapacityRow(p: Params, k: string): LinCon
    requires CapacityDefined(p) && k in p.K
  {
    LinCon(CapLHS(p, k) + [(U(k), -p.cap[k])], Le, 0.0)
  }

  function Capacity(p: Params, ks: seq<string>): seq<LinCon>
    requires CapacityDefined(p) && forall k :: k in ks ==> k in p.K
  {
    FlatMap(ks, k requires CapacityDefined(p) && k in p.K => [CapacityRow(p, k)])
  }

  /** One step of the capacity loop: appending technician `p.K[n]`'s row,
      built from its precomputed left-hand side, extends the generated prefix. */
  lemma CapacityStep(p: Params, n: nat, t0: seq<LinCon>, t: seq<LinCon>, lhs: map<string, seq<Term>>)
    requires CapacityDefined(p) && n < |p.K|
    requires forall k :: k in p.K ==> k in lhs && lhs[k] == CapLHS(p, k)
    requires t == t0 + Capacity(p, p.K[..n])
    ensures p.K[n] in lhs && p.K[n] in p.cap
    ensures t + [LinCon(lhs[p.K[n]] + [(U(p.K[n]), -p.cap[p.K[n]])], Le, 0.0)] == t0 + Capacity(p, p.K[..n + 1])
  {
    var k := p.K[n];
    TakeSnoc(p.K, n);
    CapacitySnoc(p, p.K[..n], k);
    AppendAssoc(t0, Capacity(p, p.K[..n]), [CapacityRow(p, k)]);
  }

  /** Each generator step appends technician k's row. */
  lemma CapacitySnoc(p: Params, ks: seq<string>, k: string)
    requires CapacityDefined(p) && k in p.K && forall x :: x in ks ==> x in p.K
    ensures Capacity(p, ks + [k]) == Capacity(p, ks) + [CapacityRow(p, k)]
  {
    FlatMapSnoc(ks, k, k requires CapacityDefined(p) && k in p.K => [CapacityRow(p, k)]);
  }

  /** One constraint per technician, in technician order. */
  lemma CapacityCount(p: Params)
    requires CapacityDefined(p)
    ensures |Capacity(p, p.K)| == |p.K|
    ensures forall n :: 0 <= n < |p.K| ==> Capacity(p, p.K)[n] == CapacityRow(p, p.K[n])
  {
    var f := k requires CapacityDefined(p) && k in p.K => [CapacityRow(p, k)];
    FlatMapLength(p.K, f, 1);
    forall n | 0 <= n < |p.K|
      ensures Capacity(p, p.K)[n] == CapacityRow(p, p.K[n])
    {
      FlatMapAt(p.K, f, 1, n, 0);
    }
  }

  /** Technician k's constraint holds exactly when its working time is at
      most its capacity times u[k]. */
  lemma CapacityRowHolds(p: Params, k: string, a: Assignment)
    requires CapacityDefined(p) && k in p.K
    ensures Holds(CapacityRow(p, k), a) <==> Eval(CapLHS(p, k), a) <= p.cap[k] * a(U(k))
  {
    EvalSnoc(CapLHS(p, k), (U(k), -p.cap[k]), a);
  }

  lemma CapacityHolds(p: Params, a: Assignment)
    requires CapacityDefined(p)
    ensures HoldsAll(Capacity(p, p.K), a) <==>
      forall k :: k in p.K ==> Eval(CapLHS(p, k), a) <= p.cap[k] * a(U(k))
  {
    var f := k requires CapacityDefined(p) && k in p.K => [CapacityRow(p, k)];
    HoldsAllFlatMap(p.K, f, a);
    forall k | k in p.K
      ensures HoldsAll(f(k), a) <==> Eval(CapLHS(p, k), a) <= p.cap[k] * a(U(k))
    {
      HoldsAllOne(CapacityRow(p, k), a);
      CapacityRowHolds(p, k, a);
    }
  }

  /** With non-negative distances, travel time is never negative. */
  lemma DistTermsNonNegative(p: Params, k: string, a: Assignment)
    requires CapacityDefined(p) && RespectsDomains(a)
    requires forall i, l :: i in p.L && l in p.L ==> p.dist[(i, l)] >= 0.0
    ensures Eval(DistTerms(p, k), a) >= 0.0
  {
    var dists := DistTerms(p, k);
    forall t | t in dists
      ensures t.1 * a(t.0) >= 0.0
    {
      var f := i requires CapacityDefined(p) && i in p.L => DistRow(p, i, k);
      FlatMapMembers(p.L, f, t);
      var i :| i in p.L && t in DistRow(p, i, k);
      var n :| 0 <= n < |p.L| && DistRow(p, i, k)[n] == t;
      assert InDomain(t.0, a(t.0));
    }
    EvalNonNegative(dists, a);
  }

  /** With non-negative durations, each customer's service time for k is at
      most k's total service time. */
  lemma DurTermsBound(p: Params, k: string, a: Assignment, c: string)
    requires CapacityDefined(p) && RespectsDomains(a) && c in p.C
    requires forall j :: j in p.C ==> p.dur[j] >= 0.0
    ensures p.dur[c] * a(X(c, k)) <= Eval(DurTerms(p, p.C, k), a)
  {
    var durs := DurTerms(p, p.C, k);
    forall t | t in durs
      ensures t.1 * a(t.0) >= 0.0
    {
      var n :| 0 <= n < |durs| && durs[n] == t;
      assert p.C[n] in p.C;
      assert InDomain(t.0, a(t.0));
    }
    var m :| 0 <= m < |p.C| && p.C[m] == c;
    EvalBoundsEach(durs, a, m);
  }

  /** With non-negative durations and distances, each customer's service
      time for k is at most k's working time. */
  lemma WorkingTimeBoundsService(p: Params, k: string, a: Assignment, c: string)
    requires CapacityDefined(p) && RespectsDomains(a) && c in p.C
    requires forall j :: j in p.C ==> p.dur[j] >= 0.0
    requires forall i, l :: i in p.L && l in p.L ==> p.dist[(i, l)] >= 0.0
    ensures p.dur[c] * a(X(c, k)) <= Eval(CapLHS(p, k), a)
  {
    EvalAppend(DurTerms(p, p.C, k), DistTerms(p, k), a);
    DistTermsNonNegative(p, k, a);
    DurTermsBound(p, k, a, c);
  }

  /** With non-negative durations and distances, a technician that is not
      used (u[k] = 0) serves no customer of positive duration. */
  lemma UnusedTechnicianServesNobody(p: Params, a: Assignment, k: string, c: string)
    requires CapacityDefined(p) && k in p.K && c in p.C
    requires RespectsDomains(a)
    requires forall j :: j in p.C ==> p.dur[j] >= 0.0
    requires forall i, l :: i in p.L && l in p.L ==> p.dist[(i, l)] >= 0.0
    requires Holds(CapacityRow(p, k), a) && a(U(k)) == 0.0
    ensures p.dur[c] > 0.0 ==> a(X(c, k)) == 0.0
  {
    if p.dur[c] > 0.0 {
      var w := Eval(CapLHS(p, k), a);
      assert w <= 0.0 by {
        CapacityRowHolds(p, k, a);
        ZeroCapacityLoad(w, p.cap[k], a(U(k)));
      }
      ServedOnlyWithinLoad(p, k, a, c);
    }
  }

  /** A customer that technician k serves takes no more than k's working time. */
  lemma ServedOnlyWithinLoad(p: Params, k: string, a: Assignment, c: string)
    requires CapacityDefined(p) && RespectsDomains(a) && c in p.C
    requires forall j :: j in p.C ==> p.dur[j] >= 0.0
    requires forall i, l :: i in p.L && l in p.L ==> p.dist[(i, l)] >= 0.0
    ensures a(X(c, k)) == 0.0 || p.dur[c] <= Eval(CapLHS(p, k), a)
  {
    var x := a(X(c, k));
    assert x == 0.0 || x == 1.0 by { assert InDomain(X(c, k), x); }
    if x == 1.0 {
      WorkingTimeBoundsService(p, k, a, c);
      BinaryScale(p.dur[c], x, Eval(CapLHS(p, k), a));
    }
  }

  /** A load under a zero capacity bound is not positive. */
  lemma ZeroCapacityLoad(w: real, cap: real, u: real)
    requires w <= cap * u && u == 0.0
    ensures w <= 0.0
  {
  }

  /** A 0/1 multiple below a bound is 0 or its factor is below the bound. */
  lemma BinaryScale(d: real, x: real, w: real)
    requires d * x <= w && (x == 0.0 || x == 1.0)
    ensures x == 0.0 || d <= w
  {
  }

  // ---------------------------------------------------------------- technician_tour

  /** In-degree and out-degree of customer j's location for technician k equal x[j,k]. */
  function TourRows(p: Params, j: string, k: string): seq<LinCon>
    requires CustomerParams(p) && j in p.C
  {
    var l := p.location[j];
    [LinCon(Scaled(InArcs(p.L, l, k), 1.0) + [(X(j, k), -1.0)], Eq, 0.0),
     LinCon(Scaled(OutArcs(l, p.L, k), 1.0) + [(X(j, k), -1.0)], Eq, 0.0)]
  }

  function ToursOf(p: Params, j: string, ks: seq<string>): seq<LinCon>
    requires CustomerParams(p) && j in p.C
  {
    FlatMap(ks, k requires CustomerParams(p) && j in p.C => TourRows(p, j, k))
  }

  function Tour(p: Params, js: seq<string>): seq<LinCon>
    requires CustomerParams(p) && forall j :: j in js ==> j in p.C
  {
    FlatMap(js, j requires CustomerParams(p) && j in p.C => ToursOf(p, j, p.K))
  }

  /** Each inner generator step appends technician k's two rows. */
  lemma ToursOfSnoc(p: Params, j: string, ks: seq<string>, k: string)
    requires CustomerParams(p) && j in p.C
    ensures ToursOf(p, j, ks + [k]) == ToursOf(p, j, ks) + TourRows(p, j, k)
  {
    FlatMapSnoc(ks, k, k requires CustomerParams(p) && j in p.C => TourRows(p, j, k));
  }

  /** Each outer generator step appends customer j's block. */
  lemma TourSnoc(p: Params, js: seq<string>, j: string)
    requires CustomerParams(p) && j in p.C && forall x :: x in js ==> x in p.C
    ensures Tour(p, js + [j]) == Tour(p, js) + ToursOf(p, j, p.K)
  {
    FlatMapSnoc(js, j, j requires CustomerParams(p) && j in p.C => ToursOf(p, j, p.K));
  }

  /** Two constraints per (customer, technician) pair. */
  lemma TourCount(p: Params)
    requires CustomerParams(p)
    ensures |Tour(p, p.C)| == 2 * |p.K| * |p.C|
  {
    forall j | j in p.C
      ensures |ToursOf(p, j, p.K)| == 2 * |p.K|
    {
      FlatMapLength(p.K, k requires CustomerParams(p) && j in p.C => TourRows(p, j, k), 2);
    }
    FlatMapLength(p.C, j requires CustomerParams(p) && j in p.C => ToursOf(p, j, p.K), 2 * |p.K|);
  }

  /** The two constraints of customer i and technician n sit at block i,
      pair n: customers outer, technicians inner, in-degree first. */
  lemma TourAt(p: Params, i: nat, n: nat, r: nat)
    requires CustomerParams(p) && i < |p.C| && n < |p.K| && r < 2
    ensures 2 * |p.K| * i + (2 * n + r) < |Tour(p, p.C)|
    ensures Tour(p, p.C)[2 * |p.K| * i + (2 * n + r)] == TourRows(p, p.C[i], p.K[n])[r]
  {
    assert p.C[i] in p.C;
    ToursOfAt(p, p.C[i], n, r);
    MulStep(2, n, r, |p.K|);
    TourBlockAt(p, i, 2 * n + r);
  }

  /** Row r of technician n's pair sits at 2n + r of a customer's block. */
  lemma ToursOfAt(p: Params, j: string, n: nat, r: nat)
    requires CustomerParams(p) && j in p.C && n < |p.K| && r < 2
    ensures 2 * n + r < |ToursOf(p, j, p.K)|
    ensures ToursOf(p, j, p.K)[2 * n + r] == TourRows(p, j, p.K[n])[r]
  {
    var rows := k requires CustomerParams(p) && j in p.C => TourRows(p, j, k);
    assert ToursOf(p, j, p.K) == FlatMap(p.K, rows);
    FlatMapAt(p.K, rows, 2, n, r);
  }

  /** Customer i's block starts at 2|K|i, and every block has 2|K| rows. */
  lemma TourBlockAt(p: Params, i: nat, m: nat)
    requires CustomerParams(p) && i < |p.C| && m < 2 * |p.K|
    ensures 2 * |p.K| * i + m < |Tour(p, p.C)| && |ToursOf(p, p.C[i], p.K)| == 2 * |p.K|
    ensures Tour(p, p.C)[2 * |p.K| * i + m] == ToursOf(p, p.C[i], p.K)[m]
  {
    forall j | j in p.C
      ensures |ToursOf(p, j, p.K)| == 2 * |p.K|
    {
      FlatMapLength(p.K, k requires CustomerParams(p) && j in p.C => TourRows(p, j, k), 2);
    }
    assert p.C[i] in p.C;
    var blocks := j requires CustomerParams(p) && j in p.C => ToursOf(p, j, p.K);
    assert Tour(p, p.C) == FlatMap(p.C, blocks);
    FlatMapAt(p.C, blocks, 2 * |p.K|, i, m);
  }

  /** The two rows of (j, k) hold exactly when the arcs of k into j's
      location and those out of it each sum to x[j,k]. */
  lemma TourRowsHold(p: Params, j: string, k: string, a: Assignment)
    requires CustomerParams(p) && j in p.C
    ensures HoldsAll(TourRows(p, j, k), a) <==>
      Total(InArcs(p.L, p.location[j], k), a) == a(X(j, k)) &&
      Total(OutArcs(p.location[j], p.L, k), a) == a(X(j, k))
  {
    var l := p.location[j];
    var rows := TourRows(p, j, k);
    HoldsAllTwo(rows[0], rows[1], a);
    EvalAppend(Scaled(InArcs(p.L, l, k), 1.0), [(X(j, k), -1.0)], a);
    EvalScaled(InArcs(p.L, l, k), 1.0, a);
    EvalAppend(Scaled(OutArcs(l, p.L, k), 1.0), [(X(j, k), -1.0)], a);
    EvalScaled(OutArcs(l, p.L, k), 1.0, a);
  }

  /** Customer j's block holds exactly when its rows hold for every technician. */
  lemma ToursOfHold(p: Params, j: string, a: Assignment)
    requires CustomerParams(p) && j in p.C
    ensures HoldsAll(ToursOf(p, j, p.K), a) <==>
      forall k :: k in p.K ==>
        Total(InArcs(p.L, p.location[j], k), a) == a(X(j, k)) &&
        Total(OutArcs(p.location[j], p.L, k), a) == a(X(j, k))
  {
    HoldsAllFlatMap(p.K, k requires CustomerParams(p) && j in p.C => TourRows(p, j, k), a);
    forall k | k in p.K
      ensures HoldsAll(TourRows(p, j, k), a) <==>
        Total(InArcs(p.L, p.location[j], k), a) == a(X(j, k)) &&
        Total(OutArcs(p.location[j], p.L, k), a) == a(X(j, k))
    {
      TourRowsHold(p, j, k, a);
    }
  }

  /** The family holds exactly when, for every customer j and technician k,
      the arcs of k into j's location and those out of it each sum to x[j,k]. */
  lemma TourHolds(p: Params, a: Assignment)
    requires CustomerParams(p)
    ensures HoldsAll(Tour(p, p.C), a) <==>
      forall j, k :: j in p.C && k in p.K ==>
        Total(InArcs(p.L, p.location[j], k), a) == a(X(j, k)) &&
        Total(OutArcs(p.location[j], p.L, k), a) == a(X(j, k))
  {
    HoldsAllFlatMap(p.C, j requires CustomerParams(p) && j in p.C => ToursOf(p, j, p.K), a);
    forall j | j in p.C
      ensures HoldsAll(ToursOf(p, j, p.K), a) <==>
        forall k :: k in p.K ==>
          Total(InArcs(p.L, p.location[j], k), a) == a(X(j, k)) &&
          Total(OutArcs(p.location[j], p.L, k), a) == a(X(j, k))
    {
      ToursOfHold(p, j, a);
    }
  }

  // ---------------------------------------------------------------- same_depot

  /** The arcs of technician k from customer locations into its depot, and
      those out of its depot to customer locations, each sum to u[k]. */
  function SameDepotRows(p: Params, k: string): seq<LinCon>
    requires TechnicianParams(p) && k in p.K
  {
    var d := p.depot[k];
    [LinCon(Scaled(InArcs(p.J, d, k), 1.0) + [(U(k), -1.0)], Eq, 0.0),
     LinCon(Scaled(OutArcs(d, p.J, k), 1.0) + [(U(k), -1.0)], Eq, 0.0)]
  }

  function SameDepot(p: Params, ks: seq<string>): seq<LinCon>
    requires TechnicianParams(p) && forall k :: k in ks ==> k in p.K
  {
    FlatMap(ks, k requires TechnicianParams(p) && k in p.K => SameDepotRows(p, k))
  }

  /** Two constraints per technician, in technician order. */
  lemma SameDepotCount(p: Params)
    requires TechnicianParams(p)
    ensures |SameDepot(p, p.K)| == 2 * |p.K|
    ensures forall n, r :: 0 <= n < |p.K| && 0 <= r < 2 ==>
      SameDepot(p, p.K)[2 * n + r] == SameDepotRows(p, p.K[n])[r]
  {
    var f := k requires TechnicianParams(p) && k in p.K => SameDepotRows(p, k);
    FlatMapLength(p.K, f, 2);
    forall n, r | 0 <= n < |p.K| && 0 <= r < 2
      ensures SameDepot(p, p.K)[2 * n + r] == SameDepotRows(p, p.K[n])[r]
    {
      FlatMapAt(p.K, f, 2, n, r);
    }
  }

  lemma SameDepotHolds(p: Params, a: Assignment)
    requires TechnicianParams(p)
    ensures HoldsAll(SameDepot(p, p.K), a) <==>
      forall k :: k in p.K ==>
        Total(InArcs(p.J, p.depot[k], k), a) == a(U(k)) &&
        Total(OutArcs(p.depot[k], p.J, k), a) == a(U(k))
  {
    HoldsAllFlatMap(p.K, k requires TechnicianParams(p) && k in p.K => SameDepotRows(p, k), a);
    forall k | k in p.K
      ensures HoldsAll(SameDepotRows(p, k), a) <==>
        Total(InArcs(p.J, p.depot[k], k), a) == a(U(k)) &&
        Total(OutArcs(p.depot[k], p.J, k), a) == a(U(k))
    {
      var d := p.depot[k];
      var rows := SameDepotRows(p, k);
      HoldsAllTwo(rows[0], rows[1], a);
      EvalAppend(Scaled(InArcs(p.J, d, k), 1.0), [(U(k), -1.0)], a);
      EvalScaled(InArcs(p.J, d, k), 1.0, a);
      EvalAppend(Scaled(OutArcs(d, p.J, k), 1.0), [(U(k), -1.0)], a);
      EvalScaled(OutArcs(d, p.J, k), 1.0, a);
    }
  }

  // ---------------------------------------------------------------- temporal constraints

  /** A big-M row `t[to] - t[from] - m * (sum of users) >= rhs - m` says
      t[to] >= t[from] + rhs - m * (1 - sum of users). */
  lemma BigMMeaning(to: Var, from: Var, users: seq<Var>, m: real, rhs: real, a: Assignment)
    ensures Holds(LinCon([(to, 1.0), (from, -1.0)] + Scaled(users, -m), Ge, rhs - m), a) <==>
      a(to) >= a(from) + rhs - m * (1.0 - Total(users, a))
  {
    EvalAppend([(to, 1.0), (from, -1.0)], Scaled(users, -m), a);
    EvalScaled(users, -m, a);
    EvalTwo((to, 1.0), (from, -1.0), a);
    var s := Total(users, a);
    assert m * (1.0 - s) == m - m * s;
    assert (-m) * s == -(m * s);
  }

  /** The big-M of the ordered customer pair (i, j). */
  function CustomerBigM(p: Params, j: string, i: string): real
    requires TemporalDefined(p) && j in p.C && i in p.C
  {
    TIME_SLACK + p.dur[i] + p.dist[(p.location[i], p.location[j])]
  }

  /** t[loc j] >= t[loc i] + dur[i] + dist - M * (1 - sum over k of y[loc i, loc j, k]). */
  function TemporalCustomerRow(p: Params, j: string, i: string): LinCon
    requires TemporalDefined(p) && j in p.C && i in p.C
  {
    var li, lj := p.location[i], p.location[j];
    var m := CustomerBigM(p, j, i);
    LinCon([(T(lj), 1.0), (T(li), -1.0)] + Scaled(ArcUsers(li, lj, p.K), -m), Ge,
           p.dur[i] + p.dist[(li, lj)] - m)
  }

  function TemporalCustomerFor(p: Params, j: string, froms: seq<string>): seq<LinCon>
    requires TemporalDefined(p) && j in p.C && forall i :: i in froms ==> i in p.C
  {
    FlatMap(froms, i requires TemporalDefined(p) && j in p.C && i in p.C => [TemporalCustomerRow(p, j, i)])
  }

  function TemporalCustomer(p: Params, js: seq<string>): seq<LinCon>
    requires TemporalDefined(p) && forall j :: j in js ==> j in p.C
  {
    FlatMap(js, j requires TemporalDefined(p) && j in p.C => TemporalCustomerFor(p, j, p.C))
  }

  /** One step of the inner temporal customer loop: appending customer
      `p.C[m]`'s row for the travel to j extends the generated prefix. */
  lemma TemporalCustomerStep(p: Params, j: string, m: nat, t0: seq<LinCon>, t: seq<LinCon>)
    requires TemporalDefined(p) && j in p.C && m < |p.C|
    requires t == t0 + TemporalCustomerFor(p, j, p.C[..m])
    ensures t + [TemporalCustomerRow(p, j, p.C[m])] == t0 + TemporalCustomerFor(p, j, p.C[..m + 1])
  {
    var i := p.C[m];
    TakeSnoc(p.C, m);
    TemporalCustomerForSnoc(p, j, p.C[..m], i);
    AppendAssoc(t0, TemporalCustomerFor(p, j, p.C[..m]), [TemporalCustomerRow(p, j, i)]);
  }

  /** Each generator step appends one row to j's block. */
  lemma TemporalCustomerForSnoc(p: Params, j: string, froms: seq<string>, i: string)
    requires TemporalDefined(p) && j in p.C && i in p.C && forall x :: x in froms ==> x in p.C
    ensures TemporalCustomerFor(p, j, froms + [i]) == TemporalCustomerFor(p, j, froms) + [TemporalCustomerRow(p, j, i)]
  {
    FlatMapSnoc(froms, i, i requires TemporalDefined(p) && j in p.C && i in p.C => [TemporalCustomerRow(p, j, i)]);
  }

  /** Each outer generator step appends j's block. */
  lemma TemporalCustomerSnoc(p: Params, js: seq<string>, j: string)
    requires TemporalDefined(p) && j in p.C && forall x :: x in js ==> x in p.C
    ensures TemporalCustomer(p, js + [j]) == TemporalCustomer(p, js) + TemporalCustomerFor(p, j, p.C)
  {
    FlatMapSnoc(js, j, j requires TemporalDefined(p) && j in p.C => TemporalCustomerFor(p, j, p.C));
  }

  /** One constraint per customer i for customer j, in the order of `C`. */
  lemma TemporalCustomerForAt(p: Params, j: string, y: nat)
    requires TemporalDefined(p) && j in p.C && y < |p.C|
    ensures |TemporalCustomerFor(p, j, p.C)| == |p.C|
    ensures TemporalCustomerFor(p, j, p.C)[y] == TemporalCustomerRow(p, j, p.C[y])
  {
    var f := i requires TemporalDefined(p) && j in p.C && i in p.C => [TemporalCustomerRow(p, j, i)];
    FlatMapLength(p.C, f, 1);
    FlatMapAt(p.C, f, 1, y, 0);
  }

  /** One constraint per ordered customer pair, the pair (i, i) included:
      j outer, i inner. */
  lemma TemporalCustomerCount(p: Params, x: nat, y: nat)
    requires TemporalDefined(p) && x < |p.C| && y < |p.C|
    ensures |TemporalCustomer(p, p.C)| == |p.C| * |p.C|
    ensures |p.C| * x + y < |p.C| * |p.C|
    ensures TemporalCustomer(p, p.C)[|p.C| * x + y] == TemporalCustomerRow(p, p.C[x], p.C[y])
  {
    var g := j requires TemporalDefined(p) && j in p.C => TemporalCustomerFor(p, j, p.C);
    forall j | j in p.C
      ensures |g(j)| == |p.C|
    {
      TemporalCustomerForAt(p, j, y);
    }
    FlatMapLength(p.C, g, |p.C|);
    FlatMapAt(p.C, g, |p.C|, x, y);
    TemporalCustomerForAt(p, p.C[x], y);
  }

  /** What the constraint of the pair (i, j) demands. */
  lemma TemporalCustomerMeaning(p: Params, j: string, i: string, a: Assignment)
    requires TemporalDefined(p) && j in p.C && i in p.C
    ensures var li, lj := p.location[i], p.location[j];
      Holds(TemporalCustomerRow(p, j, i), a) <==>
        a(T(lj)) >= a(T(li)) + p.dur[i] + p.dist[(li, lj)]
                    - CustomerBigM(p, j, i) * (1.0 - Total(ArcUsers(li, lj, p.K), a))
  {
    var li, lj := p.location[i], p.location[j];
    BigMMeaning(T(lj), T(li), ArcUsers(li, lj, p.K), CustomerBigM(p, j, i), p.dur[i] + p.dist[(li, lj)], a);
  }

  /** When some technician drives from i's location to j's, service at j
      starts no earlier than the end of service at i plus the travel time. */
  lemma TemporalCustomerBinds(p: Params, j: string, i: string, a: Assignment)
    requires TemporalDefined(p) && j in p.C && i in p.C
    requires Total(ArcUsers(p.location[i], p.location[j], p.K), a) == 1.0
    ensures Holds(TemporalCustomerRow(p, j, i), a) <==>
      a(T(p.location[j])) >= a(T(p.location[i])) + p.dur[i] + p.dist[(p.location[i], p.location[j])]
  {
    TemporalCustomerMeaning(p, j, i, a);
  }

  /** When no technician drives from i's location to j's, the constraint
      only asks that service at j starts at most 600 before service at i. */
  lemma TemporalCustomerSlack(p: Params, j: string, i: string, a: Assignment)
    requires TemporalDefined(p) && j in p.C && i in p.C
    requires Total(ArcUsers(p.location[i], p.location[j], p.K), a) == 0.0
    ensures Holds(TemporalCustomerRow(p, j, i), a) <==>
      a(T(p.location[j])) >= a(T(p.location[i])) - TIME_SLACK
  {
    TemporalCustomerMeaning(p, j, i, a);
  }

  /** The pair (j, j) forbids every technician's loop from j's location back
      to itself when j's duration is positive. */
  lemma TemporalCustomerNoSelfLoop(p: Params, j: string, a: Assignment, k: string)
    requires TemporalDefined(p) && j in p.C && k in p.K
    requires p.dur[j] > 0.0 && p.dist[(p.location[j], p.location[j])] >= 0.0
    requires RespectsDomains(a)
    requires Holds(TemporalCustomerRow(p, j, j), a)
    ensures a(Y(p.location[j], p.location[j], k)) == 0.0
  {
    var l := p.location[j];
    var users := ArcUsers(l, l, p.K);
    var m := CustomerBigM(p, j, j);
    TemporalCustomerMeaning(p, j, j, a);
    var s := Total(users, a);
    assert m * (1.0 - s) >= p.dur[j] + p.dist[(l, l)] > 0.0;
    assert m > 0.0;
    assert s < 1.0;
    forall n | 0 <= n < |users|
      ensures a(users[n]) >= 0.0
    {
      assert InDomain(users[n], a(users[n]));
    }
    var n :| 0 <= n < |p.K| && p.K[n] == k;
    assert users[n] == Y(l, l, k);
    TotalBoundsEach(users, a, n);
    assert InDomain(Y(l, l, k), a(Y(l, l, k)));
  }

  /** The big-M of depot d and customer j. */
  function DepotBigM(p: Params, j: string, d: string): real
    requires TemporalDefined(p) && j in p.C && d in p.D
  {
    TIME_SLACK + p.dist[(d, p.location[j])]
  }

  /** t[loc j] >= t[d] + dist - M * (1 - sum over k of y[d, loc j, k]). */
  function TemporalDepotRow(p: Params, j: string, d: string): LinCon
    requires TemporalDefined(p) && j in p.C && d in p.D
  {
    var lj := p.location[j];
    var m := DepotBigM(p, j, d);
    LinCon([(T(lj), 1.0), (T(d), -1.0)] + Scaled(ArcUsers(d, lj, p.K), -m), Ge, p.dist[(d, lj)] - m)
  }

  function TemporalDepotFor(p: Params, j: string, ds: seq<string>): seq<LinCon>
    requires TemporalDefined(p) && j in p.C && forall d :: d in ds ==> d in p.D
  {
    FlatMap(ds, d requires TemporalDefined(p) && j in p.C && d in p.D => [TemporalDepotRow(p, j, d)])
  }

  function TemporalDepot(p: Params, js: seq<string>): seq<LinCon>
    requires TemporalDefined(p) && forall j :: j in js ==> j in p.C
  {
    FlatMap(js, j requires TemporalDefined(p) && j in p.C => TemporalDepotFor(p, j, p.D))
  }

  /** Each generator step appends one row to j's block. */
  lemma TemporalDepotForSnoc(p: Params, j: string, ds: seq<string>, d: string)
    requires TemporalDefined(p) && j in p.C && d in p.D && forall x :: x in ds ==> x in p.D
    ensures TemporalDepotFor(p, j, ds + [d]) == TemporalDepotFor(p, j, ds) + [TemporalDepotRow(p, j, d)]
  {
    FlatMapSnoc(ds, d, d requires TemporalDefined(p) && j in p.C && d in p.D => [TemporalDepotRow(p, j, d)]);
  }

  /** Each outer generator step appends j's block. */
  lemma TemporalDepotSnoc(p: Params, js: seq<string>, j: string)
    requires TemporalDefined(p) && j in p.C && forall x :: x in js ==> x in p.C
    ensures TemporalDepot(p, js + [j]) == TemporalDepot(p, js) + TemporalDepotFor(p, j, p.D)
  {
    FlatMapSnoc(js, j, j requires TemporalDefined(p) && j in p.C => TemporalDepotFor(p, j, p.D));
  }

  /** One constraint per depot for customer j, in the order of `D`. */
  lemma TemporalDepotForAt(p: Params, j: string, y: nat)
    requires TemporalDefined(p) && j in p.C && y < |p.D|
    ensures |TemporalDepotFor(p, j, p.D)| == |p.D|
    ensures TemporalDepotFor(p, j, p.D)[y] == TemporalDepotRow(p, j, p.D[y])
  {
    var f := d requires TemporalDefined(p) && j in p.C && d in p.D => [TemporalDepotRow(p, j, d)];
    FlatMapLength(p.D, f, 1);
    FlatMapAt(p.D, f, 1, y, 0);
  }

  /** One constraint per (customer, depot) pair: customers outer. */
  lemma TemporalDepotCount(p: Params, x: nat, y: nat)
    requires TemporalDefined(p) && x < |p.C| && y < |p.D|
    ensures |TemporalDepot(p, p.C)| == |p.D| * |p.C|
    ensures |p.D| * x + y < |p.D| * |p.C|
    ensures TemporalDepot(p, p.C)[|p.D| * x + y] == TemporalDepotRow(p, p.C[x], p.D[y])
  {
    var g := j requires TemporalDefined(p) && j in p.C => TemporalDepotFor(p, j, p.D);
    forall j | j in p.C
      ensures |g(j)| == |p.D|
    {
      TemporalDepotForAt(p, j, y);
    }
    FlatMapLength(p.C, g, |p.D|);
    FlatMapAt(p.C, g, |p.D|, x, y);
    TemporalDepotForAt(p, p.C[x], y);
  }

  lemma TemporalDepotMeaning(p: Params, j: string, d: string, a: Assignment)
    requires TemporalDefined(p) && j in p.C && d in p.D
    ensures var lj := p.location[j];
      Holds(TemporalDepotRow(p, j, d), a) <==>
        a(T(lj)) >= a(T(d)) + p.dist[(d, lj)] - DepotBigM(p, j, d) * (1.0 - Total(ArcUsers(d, lj, p.K), a))
  {
    var lj := p.location[j];
    BigMMeaning(T(lj), T(d), ArcUsers(d, lj, p.K), DepotBigM(p, j, d), p.dist[(d, lj)], a);
  }

  /** When some technician drives from depot d to j's location, service at j
      starts no earlier than t[d] plus the travel time. */
  lemma TemporalDepotBinds(p: Params, j: string, d: string, a: Assignment)
    requires TemporalDefined(p) && j in p.C && d in p.D
    requires Total(ArcUsers(d, p.location[j], p.K), a) == 1.0
    ensures Holds(TemporalDepotRow(p, j, d), a) <==>
      a(T(p.location[j])) >= a(T(d)) + p.dist[(d, p.location[j])]
  {
    TemporalDepotMeaning(p, j, d, a);
  }

  /** When nobody drives from depot d to j's location, the constraint only
      asks that service at j starts at most 600 before t[d]. */
  lemma TemporalDepotSlack(p: Params, j: string, d: string, a: Assignment)
    requires TemporalDefined(p) && j in p.C && d in p.D
    requires Total(ArcUsers(d, p.location[j], p.K), a) == 0.0
    ensures Holds(TemporalDepotRow(p, j, d), a) <==> a(T(p.location[j])) >= a(T(d)) - TIME_SLACK
  {
    TemporalDepotMeaning(p, j, d, a);
  }

  // ---------------------------------------------------------------- time windows and lateness

  /** t[loc j] + xa[j] >= tstart[j] and t[loc j] - xb[j] <= tend[j]. */
  function TimeWindowRows(p: Params, j: string): seq<LinCon>
    requires CustomerParams(p) && j in p.C
  {
    var l := p.location[j];
    [LinCon([(T(l), 1.0), (XA(j), 1.0)], Ge, p.tstart[j]),
     LinCon([(T(l), 1.0), (XB(j), -1.0)], Le, p.tend[j])]
  }

  function TimeWindow(p: Params, js: seq<string>): seq<LinCon>
    requires CustomerParams(p) && forall j :: j in js ==> j in p.C
  {
    FlatMap(js, j requires CustomerParams(p) && j in p.C => TimeWindowRows(p, j))
  }

  /** z[j] >= t[loc j] + dur[j] - tDue[j]. */
  function LatenessRow(p: Params, j: string): LinCon
    requires CustomerParams(p) && j in p.C
  {
    LinCon([(Z(j), 1.0), (T(p.location[j]), -1.0)], Ge, p.dur[j] - p.tDue[j])
  }

  function Lateness(p: Params, js: seq<string>): seq<LinCon>
    requires CustomerParams(p) && forall j :: j in js ==> j in p.C
  {
    FlatMap(js, j requires CustomerParams(p) && j in p.C => [LatenessRow(p, j)])
  }

  /** Two time-window constraints per customer, in the order of `C`. */
  lemma TimeWindowCount(p: Params)
    requires CustomerParams(p)
    ensures |TimeWindow(p, p.C)| == 2 * |p.C|
    ensures forall n, r :: 0 <= n < |p.C| && 0 <= r < 2 ==>
      TimeWindow(p, p.C)[2 * n + r] == TimeWindowRows(p, p.C[n])[r]
  {
    var f := j requires CustomerParams(p) && j in p.C => TimeWindowRows(p, j);
    FlatMapLength(p.C, f, 2);
    forall n, r | 0 <= n < |p.C| && 0 <= r < 2
      ensures TimeWindow(p, p.C)[2 * n + r] == TimeWindowRows(p, p.C[n])[r]
    {
      FlatMapAt(p.C, f, 2, n, r);
    }
  }

  /** One lateness constraint per customer, in the order of `C`. */
  lemma LatenessCount(p: Params)
    requires CustomerParams(p)
    ensures |Lateness(p, p.C)| == |p.C|
    ensures forall n :: 0 <= n < |p.C| ==> Lateness(p, p.C)[n] == LatenessRow(p, p.C[n])
  {
    var g := j requires CustomerParams(p) && j in p.C => [LatenessRow(p, j)];
    FlatMapLength(p.C, g, 1);
    forall n | 0 <= n < |p.C|
      ensures Lateness(p, p.C)[n] == LatenessRow(p, p.C[n])
    {
      FlatMapAt(p.C, g, 1, n, 0);
    }
  }

  /** The time-window rows of j hold exactly when j's service start, shifted
      by its corrections, lies in j's window. */
  lemma TimeWindowRowsHold(p: Params, j: string, a: Assignment)
    requires CustomerParams(p) && j in p.C
    ensures HoldsAll(TimeWindowRows(p, j), a) <==>
      a(T(p.location[j])) + a(XA(j)) >= p.tstart[j] && a(T(p.location[j])) - a(XB(j)) <= p.tend[j]
  {
    var l := p.location[j];
    var rows := TimeWindowRows(p, j);
    HoldsAllTwo(rows[0], rows[1], a);
    EvalTwo((T(l), 1.0), (XA(j), 1.0), a);
    EvalTwo((T(l), 1.0), (XB(j), -1.0), a);
  }

  /** The time-window family holds exactly when every customer's shifted
      service start lies in its window. */
  lemma TimeWindowHolds(p: Params, a: Assignment)
    requires CustomerParams(p)
    ensures HoldsAll(TimeWindow(p, p.C), a) <==>
      forall j :: j in p.C ==>
        a(T(p.location[j])) + a(XA(j)) >= p.tstart[j] && a(T(p.location[j])) - a(XB(j)) <= p.tend[j]
  {
    var f := j requires CustomerParams(p) && j in p.C => TimeWindowRows(p, j);
    HoldsAllFlatMap(p.C, f, a);
    forall j | j in p.C
      ensures HoldsAll(f(j), a) <==>
        a(T(p.location[j])) + a(XA(j)) >= p.tstart[j] && a(T(p.location[j])) - a(XB(j)) <= p.tend[j]
    {
      TimeWindowRowsHold(p, j, a);
    }
  }

  /** The lateness row of j holds exactly when z[j] is at least the overrun
      of j's due time. */
  lemma LatenessRowHolds(p: Params, j: string, a: Assignment)
    requires CustomerParams(p) && j in p.C
    ensures HoldsAll([LatenessRow(p, j)], a) <==> a(Z(j)) >= a(T(p.location[j])) + p.dur[j] - p.tDue[j]
  {
    HoldsAllOne(LatenessRow(p, j), a);
    EvalTwo((Z(j), 1.0), (T(p.location[j]), -1.0), a);
  }

  /** The lateness family holds exactly when every customer's lateness is at
      least the overrun of its due time. */
  lemma LatenessHolds(p: Params, a: Assignment)
    requires CustomerParams(p)
    ensures HoldsAll(Lateness(p, p.C), a) <==>
      forall j :: j in p.C ==> a(Z(j)) >= a(T(p.location[j])) + p.dur[j] - p.tDue[j]
  {
    var g := j requires CustomerParams(p) && j in p.C => [LatenessRow(p, j)];
    HoldsAllFlatMap(p.C, g, a);
    forall j | j in p.C
      ensures HoldsAll(g(j), a) <==> a(Z(j)) >= a(T(p.location[j])) + p.dur[j] - p.tDue[j]
    {
      LatenessRowHolds(p, j, a);
    }
  }

  // ---------------------------------------------------------------- objective

  /** priority[j] * z[j] for every customer of `cs`. */
  function LatenessTerms(p: Params, cs: seq<string>): seq<Term>
    requires forall j :: j in cs ==> j in p.priority
  {
    FlatMap(cs, j requires j in p.priority => [(Z(j), p.priority[j])])
  }

  /** 0.01 * M * priority[j] * (xa[j] + xb[j]) for every customer of `cs`. */
  function CorrectionTerms(p: Params, cs: seq<string>): seq<Term>
    requires forall j :: j in cs ==> j in p.priority
  {
    FlatMap(cs, j requires j in p.priority =>
      [(XA(j), CORRECTION_WEIGHT * p.priority[j]), (XB(j), CORRECTION_WEIGHT * p.priority[j])])
  }

  /** M * priority[j] * g[j] for every customer of `cs`. */
  function GapTerms(p: Params, cs: seq<string>): seq<Term>
    requires forall j :: j in cs ==> j in p.priority
  {
    FlatMap(cs, j requires j in p.priority => [(G(j), GAP_WEIGHT * p.priority[j])])
  }

  function ObjectiveTerms(p: Params, cs: seq<string>): seq<Term>
    requires forall j :: j in cs ==> j in p.priority
  {
    LatenessTerms(p, cs) + CorrectionTerms(p, cs) + GapTerms(p, cs)
  }

  /** The cost the objective assigns to a candidate solution: per customer,
      priority times (lateness + 61 per unit of correction + 6100 if unfilled). */
  function WeightedCost(p: Params, a: Assignment, cs: seq<string>): real
    requires forall j :: j in cs ==> j in p.priority
  {
    if cs == [] then 0.0
    else WeightedCost(p, a, cs[..|cs| - 1]) + CustomerCost(p, a, cs[|cs| - 1])
  }

  /** One customer's share of the cost. */
  function CustomerCost(p: Params, a: Assignment, j: string): real
    requires j in p.priority
  {
    p.priority[j] * (a(Z(j)) + 61.0 * (a(XA(j)) + a(XB(j))) + 6100.0 * a(G(j)))
  }

  /** Adding a customer appends its lateness term. */
  lemma LatenessTermsSnoc(p: Params, q: seq<string>, j: string)
    requires (forall x :: x in q ==> x in p.priority) && j in p.priority
    ensures LatenessTerms(p, q + [j]) == LatenessTerms(p, q) + [(Z(j), p.priority[j])]
  {
    FlatMapSnoc(q, j, j requires j in p.priority => [(Z(j), p.priority[j])]);
  }

  /** Adding a customer appends its two correction terms. */
  lemma CorrectionTermsSnoc(p: Params, q: seq<string>, j: string)
    requires (forall x :: x in q ==> x in p.priority) && j in p.priority
    ensures CorrectionTerms(p, q + [j]) == CorrectionTerms(p, q) +
      [(XA(j), CORRECTION_WEIGHT * p.priority[j]), (XB(j), CORRECTION_WEIGHT * p.priority[j])]
  {
    FlatMapSnoc(q, j, j requires j in p.priority =>
      [(XA(j), CORRECTION_WEIGHT * p.priority[j]), (XB(j), CORRECTION_WEIGHT * p.priority[j])]);
  }

  /** Adding a customer appends its gap term. */
  lemma GapTermsSnoc(p: Params, q: seq<string>, j: string)
    requires (forall x :: x in q ==> x in p.priority) && j in p.priority
    ensures GapTerms(p, q + [j]) == GapTerms(p, q) + [(G(j), GAP_WEIGHT * p.priority[j])]
  {
    FlatMapSnoc(q, j, j requires j in p.priority => [(G(j), GAP_WEIGHT * p.priority[j])]);
  }

  /** The value of three sums, each extended by a tail, regrouped. */
  lemma EvalRegroup(lz: seq<Term>, z: seq<Term>, lc: seq<Term>, c: seq<Term>,
                    lg: seq<Term>, g: seq<Term>, a: Assignment)
    ensures Eval((lz + z) + (lc + c) + (lg + g), a) ==
      Eval(lz + lc + lg, a) + Eval(z, a) + Eval(c, a) + Eval(g, a)
  {
    EvalAppend(lz + z, lc + c, a);
    EvalAppend((lz + z) + (lc + c), lg + g, a);
    EvalAppend(lz, z, a);
    EvalAppend(lc, c, a);
    EvalAppend(lg, g, a);
    EvalAppend(lz + lc, lg, a);
    EvalAppend(lz, lc, a);
  }

  /** The value of one term. */
  lemma EvalOne(t: Term, a: Assignment)
    ensures Eval([t], a) == t.1 * a(t.0)
  {
    assert [t][..0] == [];
  }

  /** One customer's three objective parts add up to its weighted cost. */
  lemma CustomerCostRegroup(w: real, z: real, xa: real, xb: real, g: real)
    ensures w * z + (CORRECTION_WEIGHT * w * xa + CORRECTION_WEIGHT * w * xb) + GAP_WEIGHT * w * g ==
      w * (z + 61.0 * (xa + xb) + 6100.0 * g)
  {
  }

  /** Adding a customer adds its weighted cost to the objective's value. */
  lemma ObjectiveStep(p: Params, a: Assignment, q: seq<string>, j: string)
    requires (forall x :: x in q ==> x in p.priority) && j in p.priority
    ensures Eval(ObjectiveTerms(p, q + [j]), a) == Eval(ObjectiveTerms(p, q), a) + CustomerCost(p, a, j)
  {
    var w := p.priority[j];
    LatenessTermsSnoc(p, q, j);
    CorrectionTermsSnoc(p, q, j);
    GapTermsSnoc(p, q, j);
    EvalRegroup(LatenessTerms(p, q), [(Z(j), w)],
                CorrectionTerms(p, q), [(XA(j), CORRECTION_WEIGHT * w), (XB(j), CORRECTION_WEIGHT * w)],
                GapTerms(p, q), [(G(j), GAP_WEIGHT * w)], a);
    EvalOne((Z(j), w), a);
    EvalOne((G(j), GAP_WEIGHT * w), a);
    EvalTwo((XA(j), CORRECTION_WEIGHT * w), (XB(j), CORRECTION_WEIGHT * w), a);
    CustomerCostRegroup(w, a(Z(j)), a(XA(j)), a(XB(j)), a(G(j)));
  }

  /** The objective expression evaluates to the weighted cost. */
  lemma {:induction false} ObjectiveValue(p: Params, a: Assignment, cs: seq<string>)
    requires forall j :: j in cs ==> j in p.priority
    ensures Eval(ObjectiveTerms(p, cs), a) == WeightedCost(p, a, cs)
    decreases |cs|
  {
    if cs == [] {
      assert ObjectiveTerms(p, cs) == [];
    } else {
      var q := cs[..|cs| - 1];
      var j := cs[|cs| - 1];
      assert cs == q + [j];
      assert forall x :: x in q ==> x in cs;
      ObjectiveValue(p, a, q);
      ObjectiveStep(p, a, q, j);
    }
  }

  // ---------------------------------------------------------------- the model

  class OptimisationModel {
    const technicians: seq<Technician>
    const K: seq<string>
    const C: seq<string>
    const J: seq<string>
    const L: seq<string>
    const D: seq<string>
    const cap: map<string, real>
    const location: map<string, string>
    const depot: map<string, string>
    const canCover: map<string, seq<string>>
    const dur: map<string, real>
    const tstart: map<string, real>
    const tend: map<string, real>
    const tDue: map<string, real>
    const priority: map<string, real>
    const dist: map<(string, string), real>

    var optimised: bool
    /** The y variables fixed to zero. */
    var fixed: set<Var>
    var obj: seq<Term>
    var capLHS: map<string, seq<Term>>
    var technicianJob: seq<LinCon>
    var oneTechnician: seq<LinCon>
    var technicianCapacity: seq<LinCon>
    var technicianTour: seq<LinCon>
    var sameDepot: seq<LinCon>
    var temporalCustomer: seq<LinCon>
    var temporalDepot: seq<LinCon>
    var timeWindow: seq<LinCon>
    var lateness: seq<LinCon>

    function Data(): Params
    {
      Params(K, C, J, L, D, cap, location, depot, canCover, dur, tstart, tend, tDue, priority, dist)
    }

    /** The objective, the fixed arcs and the nine constraint families are
        exactly those the formulation's parameters determine. */
    predicate Built()
      reads this
    {
      Wellformed(Data()) &&
      obj == ObjectiveTerms(Data(), C) && fixed == FixedArcs(technicians, D, L) &&
      technicianJob == TechnicianJob(Data(), C) && oneTechnician == OneTechnician(Data(), C) &&
      capLHS == (map k | k in K :: CapLHS(Data(), k)) && technicianCapacity == Capacity(Data(), K) &&
      technicianTour == Tour(Data(), C) && sameDepot == SameDepot(Data(), K) &&
      temporalCustomer == TemporalCustomer(Data(), C) && temporalDepot == TemporalDepot(Data(), C) &&
      timeWindow == TimeWindow(Data(), C) && lateness == Lateness(Data(), C)
    }

    /** Builds sets, parameters, objective and constraints, in the source's
        order, from the preprocessed records: sets and parameters first, then
        the objective and the constraints. */
    static method FromRecords(techs: seq<Technician>, customers: seq<Customer>,
                              distances: map<(string, string), real>, columns: seq<string>)
      returns (m: OptimisationModel)
      requires Consistent(techs, customers, distances, columns)
      ensures fresh(m)
      ensures m.technicians == techs && m.Data() == Build(techs, customers, distances, columns)
      ensures !m.optimised
      ensures m.Built()
    {
      BuildWellformed(techs, customers, distances, columns);
      m := new OptimisationModel(techs, Build(techs, customers, distances, columns));
    }

    /** A model over the given technician records and formulation data, with
        its objective and constraints built and not yet solved. */
    constructor (techs: seq<Technician>, p: Params)
      requires Wellformed(p)
      ensures technicians == techs && Data() == p
      ensures !optimised
      ensures Built()
    {
      technicians := techs;
      K, C, J, L, D := p.K, p.C, p.J, p.L, p.D;
      cap, location, depot, canCover := p.cap, p.location, p.depot, p.canCover;
      dur, tstart, tend, tDue, priority := p.dur, p.tstart, p.tend, p.tDue, p.priority;
      dist := p.dist;
      optimised := false;
      fixed := {};
      obj := [];
      capLHS := map[];
      technicianJob, oneTechnician, technicianCapacity := [], [], [];
      technicianTour, sameDepot, temporalCustomer := [], [], [];
      temporalDepot, timeWindow, lateness := [], [], [];
      new;
      BuildObjectiveAndConstraints();
    }

    /** The objective, then the fixed arcs and the constraint families, on a
        model that has none yet. */
    method BuildObjectiveAndConstraints()
      requires Wellformed(Data())
      requires fixed == {} && technicianJob == [] && oneTechnician == [] && technicianCapacity == []
      requires technicianTour == [] && sameDepot == [] && temporalCustomer == [] && temporalDepot == []
      requires timeWindow == [] && lateness == []
      modifies this`obj, this`fixed, this`technicianJob, this`oneTechnician, this`capLHS,
               this`technicianCapacity, this`technicianTour, this`sameDepot, this`temporalCustomer,
               this`temporalDepot, this`timeWindow, this`lateness
      ensures Built()
    {
      obj := Objective(Data());
      TechnicianConstraint();
      AddConstraints();
      ghost var q := Data();
      EmptyAppend(TechnicianJob(q, C));
      EmptyAppend(OneTechnician(q, C));
      EmptyAppend(Capacity(q, K));
      EmptyAppend(Tour(q, C));
      EmptyAppend(SameDepot(q, K));
      EmptyAppend(TemporalCustomer(q, C));
      EmptyAppend(TemporalDepot(q, C));
      EmptyAppend(TimeWindow(q, C));
      EmptyAppend(Lateness(q, C));
    }

    /** Adds the nine constraint families in the source's order: the
        assignment families, then the routing families, then the timing
        families. */
    method AddConstraints()
      requires Wellformed(Data())
      modifies this`technicianJob, this`oneTechnician, this`capLHS, this`technicianCapacity,
               this`technicianTour, this`sameDepot, this`temporalCustomer, this`temporalDepot,
               this`timeWindow, this`lateness
      ensures technicianJob == old(technicianJob) + TechnicianJob(Data(), C)
      ensures oneTechnician == old(oneTechnician) + OneTechnician(Data(), C)
      ensures capLHS == map k | k in K :: CapLHS(Data(), k)
      ensures technicianCapacity == old(technicianCapacity) + Capacity(Data(), K)
      ensures technicianTour == old(technicianTour) + Tour(Data(), C)
      ensures sameDepot == old(sameDepot) + SameDepot(Data(), K)
      ensures temporalCustomer == old(temporalCustomer) + TemporalCustomer(Data(), C)
      ensures temporalDepot == old(temporalDepot) + TemporalDepot(Data(), C)
      ensures timeWindow == old(timeWindow) + TimeWindow(Data(), C)
      ensures lateness == old(lateness) + Lateness(Data(), C)
    {
      ghost var p := Data();
      AddAssignmentConstraints();
      AddRoutingConstraints();
      AddTimingConstraints();
    }

    /** The job, one-technician and capacity families. */
    method AddAssignmentConstraints()
      requires Wellformed(Data())
      modifies this`technicianJob, this`oneTechnician, this`capLHS, this`technicianCapacity
      ensures technicianJob == old(technicianJob) + TechnicianJob(Data(), C)
      ensures oneTechnician == old(oneTechnician) + OneTechnician(Data(), C)
      ensures capLHS == map k | k in K :: CapLHS(Data(), k)
      ensures technicianCapacity == old(technicianCapacity) + Capacity(Data(), K)
    {
      AddTechnicianJob();
      AddOneTechnician();
      AddTechnicianCapacity();
    }

    /** The tour and same-depot families. */
    method AddRoutingConstraints()
      requires Wellformed(Data())
      modifies this`technicianTour, this`sameDepot
      ensures technicianTour == old(technicianTour) + Tour(Data(), C)
      ensures sameDepot == old(sameDepot) + SameDepot(Data(), K)
    {
      AddTechnicianTour();
      AddSameDepot();
    }

    /** The temporal, time-window and lateness families. */
    method AddTimingConstraints()
      requires Wellformed(Data())
      modifies this`temporalCustomer, this`temporalDepot, this`timeWindow, this`lateness
      ensures temporalCustomer == old(temporalCustomer) + TemporalCustomer(Data(), C)
      ensures temporalDepot == old(temporalDepot) + TemporalDepot(Data(), C)
      ensures timeWindow == old(timeWindow) + TimeWindow(Data(), C)
      ensures lateness == old(lateness) + Lateness(Data(), C)
    {
      AddTemporalCustomer();
      AddTemporalDepot();
      AddTimeWindow();
      AddLateness();
    }

    /** The weighted objective, accumulated customer by customer in three sums. */
    static method Objective(p: Params) returns (e: seq<Term>)
      requires forall j :: j in p.C ==> j in p.priority
      ensures e == ObjectiveTerms(p, p.C)
      ensures forall a :: Eval(e, a) == WeightedCost(p, a, p.C)
    {
      var e1, e2, e3 := [], [], [];
      for n := 0 to |p.C|
        invariant e1 == LatenessTerms(p, p.C[..n])
        invariant e2 == CorrectionTerms(p, p.C[..n])
        invariant e3 == GapTerms(p, p.C[..n])
      {
        var j := p.C[n];
        assert p.C[..n + 1] == p.C[..n] + [j];
        LatenessTermsSnoc(p, p.C[..n], j);
        CorrectionTermsSnoc(p, p.C[..n], j);
        GapTermsSnoc(p, p.C[..n], j);
        e1 := e1 + [(Z(j), p.priority[j])];
        e2 := e2 + [(XA(j), CORRECTION_WEIGHT * p.priority[j]), (XB(j), CORRECTION_WEIGHT * p.priority[j])];
        e3 := e3 + [(G(j), GAP_WEIGHT * p.priority[j])];
      }
      assert p.C[..|p.C|] == p.C;
      e := e1 + e2 + e3;
      forall a
        ensures Eval(e, a) == WeightedCost(p, a, p.C)
      {
        ObjectiveValue(p, a, p.C);
      }
    }

    /** Fixes to zero every arc of a technician into or out of a depot other than its own. */
    method TechnicianConstraint()
      modifies this`fixed
      ensures fixed == old(fixed) + FixedArcs(technicians, D, L)
    {
      for n := 0 to |technicians|
        invariant fixed == old(fixed) + FixedArcs(technicians[..n], D, L)
      {
        var k := technicians[n];
        for b := 0 to |D|
          invariant fixed == old(fixed) + FixedArcs(technicians[..n], D, L) + ArcsFor(k, D[..b], L)
        {
          var d := D[b];
          if k.depot != d {
            for c := 0 to |L|
              invariant fixed == old(fixed) + FixedArcs(technicians[..n], D, L) + ArcsFor(k, D[..b], L) + ArcsAt(k, d, L[..c])
            {
              var i := L[c];
              fixed := fixed + {Y(i, d, k.name)};
              fixed := fixed + {Y(d, i, k.name)};
              assert L[..c + 1][..c] == L[..c];
            }
            assert L[..|L|] == L;
          }
          assert D[..b + 1][..b] == D[..b];
        }
        assert D[..|D|] == D;
        assert technicians[..n + 1][..n] == technicians[..n];
      }
      assert technicians[..|technicians|] == technicians;
    }

    method AddTechnicianJob()
      requires CustomerParams(Data())
      modifies this`technicianJob
      ensures technicianJob == old(technicianJob) + TechnicianJob(Data(), C)
    {
      for n := 0 to |C|
        invariant technicianJob == old(technicianJob) + TechnicianJob(Data(), C[..n])
      {
        var j := C[n];
        assert C[..n + 1][..n] == C[..n];
        technicianJob := technicianJob + [LinCon(Scaled(AssignVars(j, canCover[j]), 1.0) + [(G(j), 1.0)], Eq, 1.0)];
      }
      assert C[..|C|] == C;
    }

    method AddOneTechnician()
      modifies this`oneTechnician
      ensures oneTechnician == old(oneTechnician) + OneTechnician(Data(), C)
    {
      for n := 0 to |C|
        invariant oneTechnician == old(oneTechnician) + OneTechnician(Data(), C[..n])
      {
        var j := C[n];
        assert C[..n + 1][..n] == C[..n];
        oneTechnician := oneTechnician + [LinCon(Scaled(AssignVars(j, K), 1.0), Le, 1.0)];
      }
      assert C[..|C|] == C;
    }

    /** Builds capLHS for every technician, then one capacity constraint each. */
    method AddTechnicianCapacity()
      requires CapacityDefined(Data())
      modifies this`capLHS, this`technicianCapacity
      ensures capLHS == map k | k in K :: CapLHS(Data(), k)
      ensures technicianCapacity == old(technicianCapacity) + Capacity(Data(), K)
    {
      capLHS := map k | k in K :: CapLHS(Data(), k);
      AddCapacityRows(capLHS);
    }

    /** The loop over K: capLHS[k] <= cap[k] * u[k] for every technician. */
    method AddCapacityRows(lhs: map<string, seq<Term>>)
      requires CapacityDefined(Data())
      requires forall k :: k in K ==> k in lhs && lhs[k] == CapLHS(Data(), k)
      modifies this`technicianCapacity
      ensures technicianCapacity == old(technicianCapacity) + Capacity(Data(), K)
    {
      ghost var p := Data();
      ghost var t0 := technicianCapacity;
      for n := 0 to |K|
        invariant technicianCapacity == t0 + Capacity(p, p.K[..n])
      {
        CapacityStep(p, n, t0, technicianCapacity, lhs);
        var k := K[n];
        technicianCapacity := technicianCapacity + [LinCon(lhs[k] + [(U(k), -cap[k])], Le, 0.0)];
      }
      assert K[..|K|] == K;
    }

    method AddTechnicianTour()
      requires CustomerParams(Data())
      modifies this`technicianTour
      ensures technicianTour == old(technicianTour) + Tour(Data(), C)
    {
      ghost var p := Data();
      ghost var t0 := technicianTour;
      for n := 0 to |C|
        invariant technicianTour == t0 + Tour(p, C[..n])
      {
        var j := C[n];
        AddTechnicianTourOf(j);
        TakeSnoc(C, n);
        TourSnoc(p, C[..n], j);
        AppendAssoc(t0, Tour(p, C[..n]), ToursOf(p, j, K));
      }
      assert C[..|C|] == C;
    }

    /** The inner loop of the tour constraints: flow into and out of customer
        j's location, for every technician. */
    method AddTechnicianTourOf(j: string)
      requires CustomerParams(Data()) && j in C
      modifies this`technicianTour
      ensures technicianTour == old(technicianTour) + ToursOf(Data(), j, K)
    {
      ghost var p := Data();
      ghost var t0 := technicianTour;
      var l := location[j];
      for m := 0 to |K|
        invariant technicianTour == t0 + ToursOf(p, j, K[..m])
      {
        var k := K[m];
        var exp1 := Scaled(InArcs(L, l, k), 1.0);
        var exp2 := Scaled(OutArcs(l, L, k), 1.0);
        TakeSnoc(K, m);
        ToursOfSnoc(p, j, K[..m], k);
        AppendAssoc(t0, ToursOf(p, j, K[..m]), TourRows(p, j, k));
        technicianTour := technicianTour + [LinCon(exp1 + [(X(j, k), -1.0)], Eq, 0.0)];
        technicianTour := technicianTour + [LinCon(exp2 + [(X(j, k), -1.0)], Eq, 0.0)];
      }
      assert K[..|K|] == K;
    }

    method AddSameDepot()
      requires TechnicianParams(Data())
      modifies this`sameDepot
      ensures sameDepot == old(sameDepot) + SameDepot(Data(), K)
    {
      for n := 0 to |K|
        invariant sameDepot == old(sameDepot) + SameDepot(Data(), K[..n])
      {
        var k := K[n];
        var exp1 := Scaled(InArcs(J, depot[k], k), 1.0);
        var exp2 := Scaled(OutArcs(depot[k], J, k), 1.0);
        assert K[..n + 1][..n] == K[..n];
        sameDepot := sameDepot + [LinCon(exp1 + [(U(k), -1.0)], Eq, 0.0)];
        sameDepot := sameDepot + [LinCon(exp2 + [(U(k), -1.0)], Eq, 0.0)];
      }
      assert K[..|K|] == K;
    }

    method AddTemporalCustomer()
      requires TemporalDefined(Data())
      modifies this`temporalCustomer
      ensures temporalCustomer == old(temporalCustomer) + TemporalCustomer(Data(), C)
    {
      ghost var p := Data();
      ghost var t0 := temporalCustomer;
      for n := 0 to |C|
        invariant temporalCustomer == t0 + TemporalCustomer(p, C[..n])
      {
        var j := C[n];
        AddTemporalCustomerTo(j);
        TakeSnoc(C, n);
        TemporalCustomerSnoc(p, C[..n], j);
        AppendAssoc(t0, TemporalCustomer(p, C[..n]), TemporalCustomerFor(p, j, C));
      }
      assert C[..|C|] == C;
    }

    /** The inner loop of the temporal customer constraints: one row per
        customer i, for the travel from i's location to j's. */
    method AddTemporalCustomerTo(j: string)
      requires TemporalDefined(Data()) && j in C
      modifies this`temporalCustomer
      ensures temporalCustomer == old(temporalCustomer) + TemporalCustomerFor(Data(), j, C)
    {
      ghost var p := Data();
      ghost var t0 := temporalCustomer;
      for m := 0 to |C|
        invariant temporalCustomer == t0 + TemporalCustomerFor(p, j, C[..m])
      {
        var i := C[m];
        var li, lj := location[i], location[j];
        var bigM := TIME_SLACK + dur[i] + dist[(li, lj)];
        TemporalCustomerStep(p, j, m, t0, temporalCustomer);
        temporalCustomer := temporalCustomer +
          [LinCon([(T(lj), 1.0), (T(li), -1.0)] + Scaled(ArcUsers(li, lj, K), -bigM), Ge, dur[i] + dist[(li, lj)] - bigM)];
      }
      assert C[..|C|] == C;
    }

    method AddTemporalDepot()
      requires TemporalDefined(Data())
      modifies this`temporalDepot
      ensures temporalDepot == old(temporalDepot) + TemporalDepot(Data(), C)
    {
      ghost var p := Data();
      ghost var t0 := temporalDepot;
      for n := 0 to |C|
        invariant temporalDepot == t0 + TemporalDepot(p, C[..n])
      {
        var j := C[n];
        AddTemporalDepotTo(j);
        TakeSnoc(C, n);
        TemporalDepotSnoc(p, C[..n], j);
        AppendAssoc(t0, TemporalDepot(p, C[..n]), TemporalDepotFor(p, j, D));
      }
      assert C[..|C|] == C;
    }

    /** The inner loop of the temporal depot constraints: one row per depot,
        for the travel from the depot to j's location. */
    method AddTemporalDepotTo(j: string)
      requires TemporalDefined(Data()) && j in C
      modifies this`temporalDepot
      ensures temporalDepot == old(temporalDepot) + TemporalDepotFor(Data(), j, D)
    {
      ghost var p := Data();
      ghost var t0 := temporalDepot;
      for m := 0 to |D|
        invariant temporalDepot == t0 + TemporalDepotFor(p, j, D[..m])
      {
        var i := D[m];
        var lj := location[j];
        var bigM := TIME_SLACK + dist[(i, lj)];
        TakeSnoc(D, m);
        TemporalDepotForSnoc(p, j, D[..m], i);
        AppendAssoc(t0, TemporalDepotFor(p, j, D[..m]), [TemporalDepotRow(p, j, i)]);
        temporalDepot := temporalDepot +
          [LinCon([(T(lj), 1.0), (T(i), -1.0)] + Scaled(ArcUsers(i, lj, K), -bigM), Ge, dist[(i, lj)] - bigM)];
      }
      assert D[..|D|] == D;
    }

    method AddTimeWindow()
      requires CustomerParams(Data())
      modifies this`timeWindow
      ensures timeWindow == old(timeWindow) + TimeWindow(Data(), C)
    {
      for n := 0 to |C|
        invariant timeWindow == old(timeWindow) + TimeWindow(Data(), C[..n])
      {
        var j := C[n];
        var l := location[j];
        assert C[..n + 1][..n] == C[..n];
        timeWindow := timeWindow + [LinCon([(T(l), 1.0), (XA(j), 1.0)], Ge, tstart[j])];
        timeWindow := timeWindow + [LinCon([(T(l), 1.0), (XB(j), -1.0)], Le, tend[j])];
      }
      assert C[..|C|] == C;
    }

    method AddLateness()
      requires CustomerParams(Data())
      modifies this`lateness
      ensures lateness == old(lateness) + Lateness(Data(), C)
    {
      for n := 0 to |C|
        invariant lateness == old(lateness) + Lateness(Data(), C[..n])
      {
        var j := C[n];
        assert C[..n + 1][..n] == C[..n];
        lateness := lateness + [LinCon([(Z(j), 1.0), (T(location[j]), -1.0)], Ge, dur[j] - tDue[j])];
      }
      assert C[..|C|] == C;
    }
  }
}
