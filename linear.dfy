/** The decision variables of the technician-routing formulation and linear
    constraints over them.  A Pyomo `ConstraintList` entry `lhs <= rhs`
    (or `==`, `>=`) is held as `LinCon(terms, op, rhs)`: the variable part
    moved to the left as coefficient/variable terms, the constant part to the
    right.  A candidate solution is an `Assignment` of a real value to every
    variable. */
module Linear {
  import opened Seqs

  /** Variables of the routing formulation: `x[c,k]` customer c served by
      technician k, `u[k]` technician k used, `y[i,l,k]` k drives from i to l,
      `t[l]` service start at location l, `z[c]` lateness, `xa[c]`/`xb[c]`
      time-window corrections, `g[c]` customer c left unserved. */
  datatype Var =
    | X(customer: string, technician: string)
    | U(technician: string)
    | Y(from: string, to: string, technician: string)
    | T(location: string)
    | Z(customer: string)
    | XA(customer: string)
    | XB(customer: string)
    | G(customer: string)

  /** The Pyomo domain each variable is declared with. */
  datatype Domain = Binary | PositiveReals

  function DomainOf(v: Var): Domain
  {
    match v
    case X(_, _) => Binary
    case U(_) => Binary
    case Y(_, _, _) => Binary
    case G(_) => Binary
    case T(_) => PositiveReals
    case Z(_) => PositiveReals
    case XA(_) => PositiveReals
    case XB(_) => PositiveReals
  }

  /** A value the solver may give `v`; a `PositiveReals` variable reaches the
      solver as a variable with lower bound 0. */
  predicate InDomain(v: Var, value: real)
  {
    match DomainOf(v)
    case Binary => value == 0.0 || value == 1.0
    case PositiveReals => value >= 0.0
  }

  datatype Op = Eq | Le | Ge

  type Term = (Var, real)

  datatype LinCon = LinCon(terms: seq<Term>, op: Op, rhs: real)

  type Assignment = Var -> real

  /** The value of the linear expression `sum coefficient * variable`. */
  function Eval(terms: seq<Term>, a: Assignment): real
  {
    if terms == [] then 0.0
    else Eval(terms[..|terms| - 1], a) + terms[|terms| - 1].1 * a(terms[|terms| - 1].0)
  }

  predicate Holds(c: LinCon, a: Assignment)
  {
    var lhs := Eval(c.terms, a);
    match c.op
    case Eq => lhs == c.rhs
    case Le => lhs <= c.rhs
    case Ge => lhs >= c.rhs
  }

  /** Every constraint of `cs` holds under `a`. */
  predicate HoldsAll(cs: seq<LinCon>, a: Assignment)
  {
    forall i :: 0 <= i < |cs| ==> Holds(cs[i], a)
  }

  /** The terms `coef * v` for every `v` in `vs`, in order (a `quicksum`
      with one coefficient). */
  function Scaled(vs: seq<Var>, coef: real): (r: seq<Term>)
    ensures |r| == |vs|
  {
    seq(|vs|, n requires 0 <= n < |vs| => (vs[n], coef))
  }

  /** Sum of the values of `vs` under `a`. */
  function Total(vs: seq<Var>, a: Assignment): real
  {
    if vs == [] then 0.0 else Total(vs[..|vs| - 1], a) + a(vs[|vs| - 1])
  }

  lemma {:induction false} EvalAppend(s: seq<Term>, t: seq<Term>, a: Assignment)
    ensures Eval(s + t, a) == Eval(s, a) + Eval(t, a)
    decreases |t|
  {
    if t == [] {
      assert s + t == s;
    } else {
      assert (s + t)[..|s + t| - 1] == s + t[..|t| - 1];
      assert (s + t)[|s + t| - 1] == t[|t| - 1];
      EvalAppend(s, t[..|t| - 1], a);
    }
  }

  /** A quicksum with coefficient `coef` evaluates to `coef` times the sum
      of its variables' values. */
  lemma {:induction false} EvalScaled(vs: seq<Var>, coef: real, a: Assignment)
    ensures Eval(Scaled(vs, coef), a) == coef * Total(vs, a)
    decreases |vs|
  {
    if vs != [] {
      var p := vs[..|vs| - 1];
      assert Scaled(vs, coef)[..|vs| - 1] == Scaled(p, coef);
      EvalScaled(p, coef, a);
    }
  }

  /** A sum of non-negative values is non-negative. */
  lemma {:induction false} TotalNonNegative(vs: seq<Var>, a: Assignment)
    requires forall i :: 0 <= i < |vs| ==> a(vs[i]) >= 0.0
    ensures Total(vs, a) >= 0.0
    decreases |vs|
  {
    if vs != [] {
      TotalNonNegative(vs[..|vs| - 1], a);
    }
  }

  /** In a sum of non-negative values, each value is at most the sum. */
  lemma {:induction false} TotalBoundsEach(vs: seq<Var>, a: Assignment, i: nat)
    requires forall j :: 0 <= j < |vs| ==> a(vs[j]) >= 0.0
    requires i < |vs|
    ensures a(vs[i]) <= Total(vs, a)
    decreases |vs|
  {
    var p := vs[..|vs| - 1];
    TotalNonNegative(p, a);
    if i < |p| {
      TotalBoundsEach(p, a, i);
    }
  }

  /** The candidate solution gives every variable a value of its declared domain. */
  ghost predicate RespectsDomains(a: Assignment)
  {
    forall v {:trigger InDomain(v, a(v))} :: InDomain(v, a(v))
  }

  /** A sum of non-negative products is non-negative. */
  lemma {:induction false} EvalNonNegative(terms: seq<Term>, a: Assignment)
    requires forall t :: t in terms ==> t.1 * a(t.0) >= 0.0
    ensures Eval(terms, a) >= 0.0
    decreases |terms|
  {
    if terms != [] {
      var p := terms[..|terms| - 1];
      assert forall t :: t in p ==> t in terms;
      assert terms[|terms| - 1] in terms;
      EvalNonNegative(p, a);
    }
  }

  /** In a sum of non-negative products, each product is at most the sum. */
  lemma {:induction false} EvalBoundsEach(terms: seq<Term>, a: Assignment, i: nat)
    requires forall t :: t in terms ==> t.1 * a(t.0) >= 0.0
    requires i < |terms|
    ensures terms[i].1 * a(terms[i].0) <= Eval(terms, a)
    decreases |terms|
  {
    var p := terms[..|terms| - 1];
    assert forall t :: t in p ==> t in terms;
    assert terms[|terms| - 1] in terms;
    EvalNonNegative(p, a);
    if i < |p| {
      assert p[i] == terms[i];
      EvalBoundsEach(p, a, i);
    }
  }

  lemma HoldsAllOne(c: LinCon, a: Assignment)
    ensures HoldsAll([c], a) <==> Holds(c, a)
  {
    assert [c][0] == c;
  }

  lemma HoldsAllTwo(c: LinCon, d: LinCon, a: Assignment)
    ensures HoldsAll([c, d], a) <==> Holds(c, a) && Holds(d, a)
  {
    assert [c, d][0] == c && [c, d][1] == d;
  }

  /** Appending one term adds its product. */
  lemma EvalSnoc(s: seq<Term>, t: Term, a: Assignment)
    ensures Eval(s + [t], a) == Eval(s, a) + t.1 * a(t.0)
  {
    assert (s + [t])[..|s|] == s;
  }

  /** The value of a two-term expression. */
  lemma EvalTwo(u: Term, w: Term, a: Assignment)
    ensures Eval([u, w], a) == u.1 * a(u.0) + w.1 * a(w.0)
  {
    assert [u, w][..1] == [u];
    assert [u][..0] == [];
    assert Eval([u], a) == Eval([], a) + u.1 * a(u.0);
    assert Eval([u, w], a) == Eval([u], a) + w.1 * a(w.0);
  }

  lemma HoldsAllAppend(cs: seq<LinCon>, ds: seq<LinCon>, a: Assignment)
    ensures HoldsAll(cs + ds, a) <==> HoldsAll(cs, a) && HoldsAll(ds, a)
  {
    if HoldsAll(cs, a) && HoldsAll(ds, a) {
      forall i | 0 <= i < |cs + ds|
        ensures Holds((cs + ds)[i], a)
      {
        if i >= |cs| {
          assert (cs + ds)[i] == ds[i - |cs|];
        }
      }
    }
    if HoldsAll(cs + ds, a) {
      forall i | 0 <= i < |ds|
        ensures Holds(ds[i], a)
      {
        assert (cs + ds)[|cs| + i] == ds[i];
      }
      forall i | 0 <= i < |cs|
        ensures Holds(cs[i], a)
      {
        assert (cs + ds)[i] == cs[i];
      }
    }
  }

  /** A family emitted block by block holds exactly when every block holds. */
  lemma {:induction false} HoldsAllFlatMap<T>(xs: seq<T>, f: T --> seq<LinCon>, a: Assignment)
    requires forall x :: x in xs ==> f.requires(x)
    ensures HoldsAll(FlatMap(xs, f), a) <==> forall x :: x in xs ==> HoldsAll(f(x), a)
    decreases |xs|
  {
    if xs != [] {
      var p := xs[..|xs| - 1];
      assert forall x :: x in p ==> x in xs;
      assert forall x :: x in xs ==> x in p || x == xs[|xs| - 1];
      HoldsAllFlatMap(p, f, a);
      HoldsAllAppend(FlatMap(p, f), f(xs[|xs| - 1]), a);
    }
  }
}
