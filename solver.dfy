/** `ModelSolver.__solve`: copies the configured options into a solver
    object, runs it, and decides from the reported status and termination
    condition whether the model counts as optimised.  The solver itself is an
    oracle: its report is a parameter. */
module Solver {
  import opened Seqs
  import Model

  /** The solver status reported back; only `ok` is told apart. */
  datatype Status = StatusOk | OtherStatus(name: string)

  /** The termination condition reported back; `optimal` and `infeasible` are
      told apart. */
  datatype Termination = Optimal | Infeasible | OtherTermination(name: string)

  /** What the call to the solver produced: a report, or an exception. */
  datatype Outcome = Solved(status: Status, termination: Termination) | Crashed(message: string)

  /** What `__solve` does after the call. */
  datatype Verdict =
    | WriteResults      // feasible and optimal: results are written out
    | Accept            // any other report that is not infeasible
    | RaiseInfeasible   // ValueError
    | RaiseFailure(solver: string, message: string)  // the solver's exception, re-raised

  /** A solver object: its name and its option dictionary. */
  class SolverHandle {
    const name: string
    var options: map<string, string>

    constructor (name: string)
      ensures this.name == name && options == map[]
    {
      this.name := name;
      options := map[];
    }

    /** The loop over the configured option items, `opt.options[k] = v`. */
    method SetOptions(items: seq<(string, string)>)
      modifies this
      ensures options == old(options) + ToMap(items)
    {
      var i := 0;
      while i < |items|
        invariant 0 <= i <= |items|
        invariant options == old(options) + ToMap(items[..i])
      {
        TakeSnoc(items, i);
        options := options[items[i].0 := items[i].1];
        MergeUpdate(old(options), ToMap(items[..i]), items[i].0, items[i].1);
        i := i + 1;
      }
      assert items[..i] == items;
    }
  }

  lemma MergeUpdate<K, V>(m: map<K, V>, n: map<K, V>, k: K, v: V)
    ensures (m + n)[k := v] == m + n[k := v]
  {
  }

  predicate Raises(v: Verdict)
  {
    v.RaiseInfeasible? || v.RaiseFailure?
  }

  /** The decision table: results are written exactly for an `ok`, optimal
      report; an exception is raised exactly for a crash (naming the solver)
      or an infeasible report, whatever the status; every other report is
      accepted. */
  function Decide(solver: string, outcome: Outcome): (v: Verdict)
    ensures v == WriteResults <==> outcome == Solved(StatusOk, Optimal)
    ensures v == RaiseInfeasible <==> outcome.Solved? && outcome.termination == Infeasible
    ensures v.RaiseFailure? <==> outcome.Crashed?
    ensures v.RaiseFailure? ==> v == RaiseFailure(solver, outcome.message)
    ensures v == Accept <==>
              outcome.Solved? && outcome != Solved(StatusOk, Optimal) &&
              outcome.termination != Infeasible
  {
    match outcome
    case Crashed(message) => RaiseFailure(solver, message)
    case Solved(status, termination) =>
      if status == StatusOk && termination == Optimal then WriteResults
      else if termination == Infeasible then RaiseInfeasible
      else Accept
  }

  /** The options of the chosen solver: its entry, or nothing. */
  function ChosenOptions(config: map<string, seq<(string, string)>>, solver: string): seq<(string, string)>
  {
    if solver in config then config[solver] else []
  }

  /** `__solve` with `outcome` standing for what `opt.solve` produced.  The
      `optimised` flag is set exactly when no exception is raised. */
  method Solve(model: Model.OptimisationModel, solver: string,
               config: map<string, seq<(string, string)>>, outcome: Outcome)
    returns (opt: SolverHandle, verdict: Verdict)
    modifies model`optimised
    ensures fresh(opt) && opt.name == solver
    ensures opt.options == ToMap(ChosenOptions(config, solver))
    ensures verdict == Decide(solver, outcome)
    ensures model.optimised == if Raises(verdict) then old(model.optimised) else true
  {
    opt := new SolverHandle(solver);
    if solver in config {
      opt.SetOptions(config[solver]);
    }
    verdict := Decide(solver, outcome);
    if !Raises(verdict) {
      model.optimised := true;
    }
  }

  /** Every item of the chosen entry reaches the solver, the last one winning
      for a repeated key. */
  lemma ChosenOptionsCopied(config: map<string, seq<(string, string)>>, solver: string, i: nat)
    requires solver in config && i < |config[solver]|
    requires forall j :: i < j < |config[solver]| ==> config[solver][j].0 != config[solver][i].0
    ensures config[solver][i].0 in ToMap(ChosenOptions(config, solver))
    ensures ToMap(ChosenOptions(config, solver))[config[solver][i].0] == config[solver][i].1
  {
    ToMapLastWins(config[solver], i);
  }
}
