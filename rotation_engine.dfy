/** `CSPEngine` of CSPEngine.py. Unlike the engine of the other two
    scripts it keeps the partial assignment in its own field
    `assignments`, and its consistency test inserts the candidate first
    and then hands the whole assignment to a single check, deleting the
    entry again when the check refuses.

    The search it performs is the search of the engine module, with the
    check read as a constraint over the assignment before insertion. */
module RotationEngine {
  import opened Wrappers
  import opened Backtracking

  /** `constraints(assignments, var, value)`: the check sees the assignment
      with the candidate already inserted. */
  type Check<!V(==), !D> = (map<V, D>, V, D) -> bool

  /** An insert-then-check test as a constraint list for the engine
      module's search. */
  function AsConstraints<V(==), D>(check: Check<V, D>): seq<Constraint<V, D>>
  {
    [(v, x, a) => check(a[v := x], v, x)]
  }

  /** The engine's constraint list accepts exactly what the check accepts
      once the candidate is inserted. */
  lemma InsertThenCheck<V, D>(check: Check<V, D>, v: V, x: D, a: map<V, D>)
    ensures AllHold(AsConstraints(check), v, x, a) <==> check(a[v := x], v, x)
  {
    assert AsConstraints(check)[0](v, x, a) == check(a[v := x], v, x);
  }

  class Solver<V(==), D(==)> {
    const variables: seq<V>
    const domains: map<V, seq<D>>
    const constraints: Check<V, D>
    var assignments: map<V, D>

    constructor (variables: seq<V>, domains: map<V, seq<D>>, constraints: Check<V, D>)
      ensures this.variables == variables && this.domains == domains && this.constraints == constraints
      ensures assignments == map[]
    {
      this.variables := variables;
      this.domains := domains;
      this.constraints := constraints;
      assignments := map[];
    }

    ghost predicate Ready()
    {
      Distinct(variables) && forall v :: v in variables ==> v in domains
    }

    /** `is_consistent`: insert, check, and delete again on refusal. On
        refusal the assignment is what it was with `v` unassigned. */
    method IsConsistent(v: V, x: D) returns (consistent: bool)
      modifies this
      ensures consistent == constraints(old(assignments)[v := x], v, x)
      ensures consistent ==> assignments == old(assignments)[v := x]
      ensures !consistent ==> assignments == old(assignments) - {v}
    {
      assignments := assignments[v := x];
      consistent := constraints(assignments, v, x);
      if !consistent {
        assignments := assignments - {v};
      }
    }

    /** `backtrack_and_solve`: the search of the engine module from the
        current assignments. On success the field holds the solution it
        returns; on failure the field is as it was on entry. */
    method BacktrackAndSolve() returns (result: Option<map<V, D>>)
      requires Ready()
      requires forall v :: v in assignments ==> v in variables
      modifies this
      ensures result == Search(variables, domains, AsConstraints(constraints), old(assignments))
      ensures result.Some? ==> assignments == result.value
      ensures result.None? ==> assignments == old(assignments)
      decreases |Unassigned(variables, assignments)|, 1
    {
      LengthMeansComplete(variables, assignments);
      if |assignments| == |variables| {
        return Some(assignments);
      }
      var unassignedVars := Unassigned(variables, assignments);
      var v := unassignedVars[0];
      ghost var a0 := assignments;
      ghost var cs := AsConstraints(constraints);
      var values := domains[v];
      var i := 0;
      while i < |values|
        invariant 0 <= i <= |values|
        invariant assignments == a0
        invariant TryValues(variables, domains, cs, a0, values[i..]) == TryValues(variables, domains, cs, a0, values)
      {
        assert values[i..][0] == values[i] && values[i..][1..] == values[i + 1..];
        TryValuesNext(variables, domains, cs, a0, values[i..]);
        var found := TryValue(v, values[i]);
        if found.Some? {
          return found;
        }
        i := i + 1;
      }
      return None;
    }

    /** One pass of the value loop of `backtrack_and_solve`: test `x` for
        the first unassigned variable `v`, and when it is consistent place
        it, search on, and take it back if the search below fails. */
    method TryValue(v: V, x: D) returns (found: Option<map<V, D>>)
      requires Ready()
      requires forall u :: u in assignments ==> u in variables
      requires Unassigned(variables, assignments) != [] && v == Unassigned(variables, assignments)[0]
      modifies this
      ensures var a0 := old(assignments);
              var next := a0[v := x];
              found == if AllHold(AsConstraints(constraints), v, x, a0) &&
                          Search(variables, domains, AsConstraints(constraints), next).Some?
                       then Search(variables, domains, AsConstraints(constraints), next)
                       else None
      ensures found.Some? ==> assignments == found.value
      ensures found.None? ==> assignments == old(assignments)
      decreases |Unassigned(variables, assignments)|, 0
    {
      ghost var a0 := assignments;
      UnassignedAfterFirst(variables, a0, x);
      InsertThenCheck(constraints, v, x, a0);
      var ok := IsConsistent(v, x);
      TakeBack(a0, v, x);
      if ok {
        assignments := assignments[v := x];
        found := BacktrackAndSolve();
        if found.None? {
          assignments := assignments - {v};
        }
      } else {
        found := None;
      }
    }
  }

  /** A run from an empty assignment succeeds exactly when the problem has
      a solution under the insert-then-check reading. */
  lemma SolverFindsIff<V, D>(variables: seq<V>, domains: map<V, seq<D>>, check: Check<V, D>)
    requires WellFormed(variables, domains, map[])
    ensures Search(variables, domains, AsConstraints(check), map[]).Some? <==>
            exists r :: Solves(variables, domains, AsConstraints(check), map[], r)
    ensures Search(variables, domains, AsConstraints(check), map[]).Some? ==>
            Solves(variables, domains, AsConstraints(check), map[], Search(variables, domains, AsConstraints(check), map[]).value)
  {
    SearchSucceedsIff(variables, domains, AsConstraints(check), map[]);
    SearchSound(variables, domains, AsConstraints(check), map[]);
  }

  /** Every value of a solution found from the empty assignment passed the
      check when it was placed, so whatever the check implies about a
      single placement holds of every variable. */
  lemma SolverPlacedEach<V, D>(variables: seq<V>, domains: map<V, seq<D>>, check: Check<V, D>,
                               P: (V, D) -> bool)
    requires WellFormed(variables, domains, map[])
    requires Search(variables, domains, AsConstraints(check), map[]).Some?
    requires forall a, v, x :: check(a, v, x) ==> P(v, x)
    ensures var r := Search(variables, domains, AsConstraints(check), map[]).value;
            forall v :: v in r ==> P(v, r[v])
  {
    var cs := AsConstraints(check);
    var r := Search(variables, domains, cs, map[]).value;
    var none: map<V, D> := map[];
    SearchSound(variables, domains, cs, none);
    UnassignedOfEmpty(variables, none);
    forall v, x, a | AllHold(cs, v, x, a) ensures P(v, x) {
      InsertThenCheck(check, v, x, a);
    }
    PlacedEach(cs, none, r, variables, P);
  }

  /** The variable placed last in a solution found from the empty
      assignment passed the constraints against all the other values. */
  lemma SearchPlacedLast<V, D>(variables: seq<V>, domains: map<V, seq<D>>, cs: seq<Constraint<V, D>>)
    requires WellFormed(variables, domains, map[])
    requires Search(variables, domains, cs, map[]).Some?
    requires variables != []
    ensures var r := Search(variables, domains, cs, map[]).value;
            var last := variables[|variables| - 1];
            last in r && AllHold(cs, last, r[last], r - {last})
  {
    var r := Search(variables, domains, cs, map[]).value;
    var none: map<V, D> := map[];
    SearchSound(variables, domains, cs, none);
    UnassignedOfEmpty(variables, none);
    PlacedLast(cs, none, r, variables);
  }

  /** The check of the variable placed last saw the complete solution. */
  lemma SolverLastSeesAll<V, D>(variables: seq<V>, domains: map<V, seq<D>>, check: Check<V, D>)
    requires WellFormed(variables, domains, map[])
    requires Search(variables, domains, AsConstraints(check), map[]).Some?
    requires variables != []
    ensures var r := Search(variables, domains, AsConstraints(check), map[]).value;
            var last := variables[|variables| - 1];
            last in r && check(r, last, r[last])
  {
    var r := Search(variables, domains, AsConstraints(check), map[]).value;
    var last := variables[|variables| - 1];
    SearchPlacedLast(variables, domains, AsConstraints(check));
    InsertThenCheck(check, last, r[last], r - {last});
    assert (r - {last})[last := r[last]] == r;
  }

  /** A solution found from the empty assignment assigns exactly the
      problem's variables. */
  lemma SolverKeys<V, D>(variables: seq<V>, domains: map<V, seq<D>>, check: Check<V, D>)
    requires WellFormed(variables, domains, map[])
    ensures var run := Search(variables, domains, AsConstraints(check), map[]);
            run.Some? ==> forall v :: v in run.value <==> v in variables
  {
    SearchSound(variables, domains, AsConstraints(check), map[]);
  }
}
