/** The chronological backtracking engine that CSVEngine.py (class
    CSPEngine) and main.py (class CSPEngine) both carry: pick the first
    unassigned variable in the fixed visiting order, try its domain values
    in order, check each against every constraint and the partial
    assignment, commit it, recurse, and undo the commit when the recursion
    fails.

    `Search` and `TryValues` are the functional reading of that recursion;
    the methods of `Engine` are proved to compute exactly them, and the
    lemmas below say what `Search` finds (soundness) and that it finds
    something whenever anything can be found (completeness). */
module Backtracking {
  import opened Wrappers

  /** A constraint sees the variable being placed, the candidate value and
      the partial assignment as it stands before the placement. */
  type Constraint<!V(==), !D> = (V, D, map<V, D>) -> bool

  /** Every constraint of `cs` accepts `x` for `v` against `a`. */
  predicate AllHold<V(==), D>(cs: seq<Constraint<V, D>>, v: V, x: D, a: map<V, D>)
  {
    forall i :: 0 <= i < |cs| ==> cs[i](v, x, a)
  }

  predicate Distinct<T(==)>(s: seq<T>)
  {
    forall i, j :: 0 <= i < j < |s| ==> s[i] != s[j]
  }

  /** The variables of `vars` that `a` leaves unassigned, in visiting order. */
  function Unassigned<V(==), D>(vars: seq<V>, a: map<V, D>): (u: seq<V>)
    ensures |u| <= |vars|
    ensures forall v :: v in u ==> v in vars && v !in a
    ensures forall v :: v in vars && v !in a ==> v in u
  {
    if vars == [] then []
    else if vars[0] in a then Unassigned(vars[1..], a)
    else [vars[0]] + Unassigned(vars[1..], a)
  }

  /** What the engine needs of its inputs: distinct variables, a domain for
      each of them, and an assignment over those variables only. */
  ghost predicate WellFormed<V, D>(vars: seq<V>, doms: map<V, seq<D>>, a: map<V, D>)
  {
    && Distinct(vars)
    && (forall v :: v in vars ==> v in doms)
    && (forall v :: v in a ==> v in vars)
  }

  /** The search, as a function: the first total assignment found by
      trying the domain of the first unassigned variable in order. */
  function Search<V(==), D>(vars: seq<V>, doms: map<V, seq<D>>, cs: seq<Constraint<V, D>>,
                            a: map<V, D>): Option<map<V, D>>
    requires WellFormed(vars, doms, a)
    decreases |Unassigned(vars, a)|, 1, 0
  {
    var u := Unassigned(vars, a);
    if u == [] then Some(a)
    else TryValues(vars, doms, cs, a, doms[u[0]])
  }

  /** The loop over the remaining candidate values `xs` of the first
      unassigned variable. */
  function TryValues<V(==), D>(vars: seq<V>, doms: map<V, seq<D>>, cs: seq<Constraint<V, D>>,
                               a: map<V, D>, xs: seq<D>): Option<map<V, D>>
    requires WellFormed(vars, doms, a)
    requires Unassigned(vars, a) != []
    decreases |Unassigned(vars, a)|, 0, |xs|
  {
    if xs == [] then None
    else
      var v := Unassigned(vars, a)[0];
      if AllHold(cs, v, xs[0], a) then
        UnassignedAfterFirst(vars, a, xs[0]);
        match Search(vars, doms, cs, a[v := xs[0]])
        case Some(r) => Some(r)
        case None => TryValues(vars, doms, cs, a, xs[1..])
      else
        TryValues(vars, doms, cs, a, xs[1..])
  }

  /** One step of the value loop: the first candidate is taken when it
      passes the constraints and the search below it succeeds; otherwise
      the loop goes on with the rest. */
  lemma TryValuesNext<V, D>(vars: seq<V>, doms: map<V, seq<D>>, cs: seq<Constraint<V, D>>,
                                a: map<V, D>, xs: seq<D>)
    requires WellFormed(vars, doms, a)
    requires Unassigned(vars, a) != [] && xs != []
    ensures WellFormed(vars, doms, a[Unassigned(vars, a)[0] := xs[0]])
    ensures |Unassigned(vars, a[Unassigned(vars, a)[0] := xs[0]])| < |Unassigned(vars, a)|
    ensures TryValues(vars, doms, cs, a, xs) ==
            if AllHold(cs, Unassigned(vars, a)[0], xs[0], a) &&
               Search(vars, doms, cs, a[Unassigned(vars, a)[0] := xs[0]]).Some?
            then Search(vars, doms, cs, a[Unassigned(vars, a)[0] := xs[0]])
            else TryValues(vars, doms, cs, a, xs[1..])
  {
    UnassignedAfterFirst(vars, a, xs[0]);
  }

  /** Inserting a key that is absent twice is inserting it once, and
      deleting it afterwards restores the map. */
  lemma TakeBack<K, W>(m: map<K, W>, k: K, x: W)
    requires k !in m
    ensures m[k := x][k := x] == m[k := x]
    ensures m[k := x] - {k} == m && m - {k} == m
  {
    assert m[k := x][k := x].Keys == m[k := x].Keys;
    assert (m[k := x] - {k}).Keys == m.Keys;
  }

  /** Placing the variables `u` one after another, starting from `a`, with
      the values `r` gives them, passes every constraint at each step. */
  ghost predicate PlacedConsistently<V, D>(cs: seq<Constraint<V, D>>, a: map<V, D>,
                                               r: map<V, D>, u: seq<V>)
    decreases |u|
  {
    u == [] ||
    (u[0] in r && AllHold(cs, u[0], r[u[0]], a) &&
     PlacedConsistently(cs, a[u[0] := r[u[0]]], r, u[1..]))
  }

  /** `r` is a solution reachable from `a`: it assigns exactly the
      variables, keeps what `a` assigned, takes each new value from the
      variable's domain, and every new value passed the constraints when it
      was placed in visiting order. */
  ghost predicate Solves<V, D>(vars: seq<V>, doms: map<V, seq<D>>, cs: seq<Constraint<V, D>>,
                                       a: map<V, D>, r: map<V, D>)
  {
    && (forall v :: v in r ==> v in vars)
    && (forall v :: v in vars ==> v in r)
    && (forall v :: v in a ==> v in r && r[v] == a[v])
    && (forall v :: v in vars && v !in a ==> v in r && v in doms && r[v] in doms[v])
    && PlacedConsistently(cs, a, r, Unassigned(vars, a))
  }

  lemma {:induction false} UnassignedIgnores<V, D>(vars: seq<V>, a: map<V, D>, v: V, x: D)
    requires v !in vars
    ensures Unassigned(vars, a[v := x]) == Unassigned(vars, a)
  {
    if vars != [] {
      UnassignedIgnores(vars[1..], a, v, x);
    }
  }

  /** Assigning the first unassigned variable leaves the rest, in order. */
  lemma {:induction false} UnassignedAfterFirst<V, D>(vars: seq<V>, a: map<V, D>, x: D)
    requires Distinct(vars)
    requires Unassigned(vars, a) != []
    ensures Unassigned(vars, a[Unassigned(vars, a)[0] := x]) == Unassigned(vars, a)[1..]
  {
    var v := Unassigned(vars, a)[0];
    assert Distinct(vars[1..]) by {
      forall i, j | 0 <= i < j < |vars[1..]| ensures vars[1..][i] != vars[1..][j] {
        assert vars[1..][i] == vars[i + 1] && vars[1..][j] == vars[j + 1];
      }
    }
    if vars[0] in a {
      UnassignedAfterFirst(vars[1..], a, x);
    } else {
      assert vars[0] !in vars[1..] by {
        forall k | 0 <= k < |vars[1..]| ensures vars[1..][k] != vars[0] {
          assert vars[1..][k] == vars[k + 1];
        }
      }
      UnassignedIgnores(vars[1..], a, v, x);
    }
  }

  lemma DistinctAppend<T>(s: seq<T>, t: seq<T>)
    requires Distinct(s) && Distinct(t)
    requires forall x :: x in s ==> x !in t
    ensures Distinct(s + t)
  {
    forall i, j | 0 <= i < j < |s + t| ensures (s + t)[i] != (s + t)[j] {
      if j < |s| {
        assert (s + t)[i] == s[i] && (s + t)[j] == s[j];
      } else if i < |s| {
        assert (s + t)[i] == s[i] && (s + t)[j] == t[j - |s|];
        assert s[i] in s && t[j - |s|] in t;
      } else {
        assert (s + t)[i] == t[i - |s|] && (s + t)[j] == t[j - |s|];
      }
    }
  }

  lemma SeqAssoc<T>(a: seq<T>, b: seq<T>, c: seq<T>)
    ensures (a + b) + c == a + (b + c)
  {
  }

  /** A distinct list without its last entry is distinct and lacks that entry. */
  lemma DistinctInit<T>(s: seq<T>)
    requires Distinct(s) && s != []
    ensures Distinct(s[..|s| - 1]) && s[|s| - 1] !in s[..|s| - 1]
  {
  }

  lemma {:induction false} UnassignedOfEmpty<V, D>(vars: seq<V>, a: map<V, D>)
    requires a == map[]
    ensures Unassigned(vars, a) == vars
  {
    if vars != [] {
      UnassignedOfEmpty(vars[1..], a);
    }
  }

  lemma {:induction false} DistinctCard<T>(s: seq<T>)
    requires Distinct(s)
    ensures |set x | x in s| == |s|
  {
    if s != [] {
      assert Distinct(s[1..]) by {
        forall i, j | 0 <= i < j < |s[1..]| ensures s[1..][i] != s[1..][j] {
          assert s[1..][i] == s[i + 1] && s[1..][j] == s[j + 1];
        }
      }
      DistinctCard(s[1..]);
      assert (set x | x in s) == (set x | x in s[1..]) + {s[0]};
      assert s[0] !in (set x | x in s[1..]) by {
        forall k | 0 <= k < |s[1..]| ensures s[1..][k] != s[0] {
          assert s[1..][k] == s[k + 1];
        }
      }
    }
  }

  lemma SubsetCard<T>(small: set<T>, big: set<T>)
    requires small <= big
    ensures |small| <= |big|
  {
    assert big == small + (big - small);
  }

  /** The engine's test `len(assignment) == len(variables)` means that no
      variable is left unassigned. */
  lemma LengthMeansComplete<V, D>(vars: seq<V>, a: map<V, D>)
    requires Distinct(vars)
    requires forall v :: v in a ==> v in vars
    ensures |a| == |vars| <==> Unassigned(vars, a) == []
  {
    var vs := set x | x in vars;
    DistinctCard(vars);
    assert a.Keys <= vs;
    if Unassigned(vars, a) == [] {
      assert vs <= a.Keys;
      assert a.Keys == vs;
    } else {
      var v := Unassigned(vars, a)[0];
      assert a.Keys <= vs - {v};
      SubsetCard(a.Keys, vs - {v});
    }
  }

  /** Soundness: whatever the search returns solves the problem. */
  lemma {:induction false} SearchSound<V, D>(vars: seq<V>, doms: map<V, seq<D>>,
                                                    cs: seq<Constraint<V, D>>, a: map<V, D>)
    requires WellFormed(vars, doms, a)
    ensures Search(vars, doms, cs, a).Some? ==> Solves(vars, doms, cs, a, Search(vars, doms, cs, a).value)
    decreases |Unassigned(vars, a)|, 1, 0
  {
    var u := Unassigned(vars, a);
    if u != [] {
      TryValuesSound(vars, doms, cs, a, doms[u[0]]);
    }
  }

  lemma {:induction false} TryValuesSound<V, D>(vars: seq<V>, doms: map<V, seq<D>>,
                                                       cs: seq<Constraint<V, D>>, a: map<V, D>, xs: seq<D>)
    requires WellFormed(vars, doms, a)
    requires Unassigned(vars, a) != []
    requires forall x :: x in xs ==> x in doms[Unassigned(vars, a)[0]]
    ensures TryValues(vars, doms, cs, a, xs).Some? ==>
            Solves(vars, doms, cs, a, TryValues(vars, doms, cs, a, xs).value)
    decreases |Unassigned(vars, a)|, 0, |xs|
  {
    if xs != [] {
      var u := Unassigned(vars, a);
      var v := u[0];
      if AllHold(cs, v, xs[0], a) {
        UnassignedAfterFirst(vars, a, xs[0]);
        var a' := a[v := xs[0]];
        SearchSound(vars, doms, cs, a');
        if Search(vars, doms, cs, a').Some? {
          var r := Search(vars, doms, cs, a').value;
          assert Unassigned(vars, a') == u[1..];
          assert PlacedConsistently(cs, a, r, u);
          return;
        }
      }
      TryValuesSound(vars, doms, cs, a, xs[1..]);
    }
  }

  /** Completeness: if any solution is reachable from `a`, the search
      returns one (not necessarily the same one). */
  lemma {:induction false} SearchComplete<V, D>(vars: seq<V>, doms: map<V, seq<D>>,
                                                       cs: seq<Constraint<V, D>>, a: map<V, D>, r: map<V, D>)
    requires WellFormed(vars, doms, a)
    requires Solves(vars, doms, cs, a, r)
    ensures Search(vars, doms, cs, a).Some?
    decreases |Unassigned(vars, a)|
  {
    var u := Unassigned(vars, a);
    if u != [] {
      var v := u[0];
      SolvesFirst(vars, doms, cs, a, r);
      UnassignedAfterFirst(vars, a, r[v]);
      SearchComplete(vars, doms, cs, a[v := r[v]], r);
      TryValuesComplete(vars, doms, cs, a, doms[v], r[v]);
    }
  }

  /** A solution gives the first unassigned variable a value of its domain
      that passes the constraints, and after placing that value it is still
      a solution of what remains. */
  lemma SolvesFirst<V, D>(vars: seq<V>, doms: map<V, seq<D>>, cs: seq<Constraint<V, D>>,
                          a: map<V, D>, r: map<V, D>)
    requires WellFormed(vars, doms, a) && Solves(vars, doms, cs, a, r)
    requires Unassigned(vars, a) != []
    ensures var v := Unassigned(vars, a)[0];
            && v in r && v in doms && r[v] in doms[v] && AllHold(cs, v, r[v], a)
            && WellFormed(vars, doms, a[v := r[v]]) && Solves(vars, doms, cs, a[v := r[v]], r)
  {
    var u := Unassigned(vars, a);
    var v := u[0];
    var a' := a[v := r[v]];
    UnassignedAfterFirst(vars, a, r[v]);
    assert PlacedConsistently(cs, a, r, u);
    assert AllHold(cs, v, r[v], a) && PlacedConsistently(cs, a', r, u[1..]);
    forall k | k in a' ensures k in vars && k in r && r[k] == a'[k] {
      if k != v {
        assert k in a;
      }
    }
    forall k | k in vars && k !in a' ensures k in r && k in doms && r[k] in doms[k] {
      assert k !in a;
    }
  }

  lemma {:induction false} TryValuesComplete<V, D>(vars: seq<V>, doms: map<V, seq<D>>,
                                                          cs: seq<Constraint<V, D>>, a: map<V, D>,
                                                          xs: seq<D>, x: D)
    requires WellFormed(vars, doms, a)
    requires Unassigned(vars, a) != []
    requires x in xs
    requires AllHold(cs, Unassigned(vars, a)[0], x, a)
    requires Search(vars, doms, cs, a[Unassigned(vars, a)[0] := x]).Some?
    ensures TryValues(vars, doms, cs, a, xs).Some?
    decreases |xs|
  {
    var v := Unassigned(vars, a)[0];
    if xs[0] != x && !(AllHold(cs, v, xs[0], a) && Search(vars, doms, cs, a[v := xs[0]]).Some?) {
      TryValuesComplete(vars, doms, cs, a, xs[1..], x);
    }
  }

  /** The search succeeds exactly when a solution is reachable. */
  lemma SearchSucceedsIff<V, D>(vars: seq<V>, doms: map<V, seq<D>>,
                                        cs: seq<Constraint<V, D>>, a: map<V, D>)
    requires WellFormed(vars, doms, a)
    ensures Search(vars, doms, cs, a).Some? <==> exists r :: Solves(vars, doms, cs, a, r)
  {
    SearchSound(vars, doms, cs, a);
    if exists r :: Solves(vars, doms, cs, a, r) {
      var r :| Solves(vars, doms, cs, a, r);
      SearchComplete(vars, doms, cs, a, r);
    }
  }

  /** A solution is the empty dictionary, which Python reads as false,
      exactly when there are no variables. */
  lemma SolutionEmptyIff<V, D>(vars: seq<V>, doms: map<V, seq<D>>, cs: seq<Constraint<V, D>>,
                               a: map<V, D>, r: map<V, D>)
    requires Solves(vars, doms, cs, a, r)
    ensures r == map[] <==> vars == []
  {
    if vars != [] {
      assert vars[0] in r;
    } else {
      assert r.Keys == {};
    }
  }

  /** A property that every accepted placement has, whatever the partial
      assignment, holds of every value placed. */
  lemma {:induction false} PlacedEach<V, D>(cs: seq<Constraint<V, D>>, a: map<V, D>, r: map<V, D>, u: seq<V>,
                                           P: (V, D) -> bool)
    requires PlacedConsistently(cs, a, r, u)
    requires forall v, x, b :: AllHold(cs, v, x, b) ==> P(v, x)
    ensures forall v :: v in u ==> v in r && P(v, r[v])
    decreases |u|
  {
    if u != [] {
      PlacedEach(cs, a[u[0] := r[u[0]]], r, u[1..], P);
      assert forall v :: v in u ==> v == u[0] || v in u[1..];
    }
  }

  /** The last placement is checked against everything else `r` assigns. */
  lemma {:induction false} PlacedLast<V, D>(cs: seq<Constraint<V, D>>, a: map<V, D>, r: map<V, D>, u: seq<V>)
    requires PlacedConsistently(cs, a, r, u) && u != []
    requires Distinct(u) && forall v :: v in u ==> v !in a
    requires forall v :: v in a ==> v in r && r[v] == a[v]
    requires forall v :: v in r ==> v in a || v in u
    ensures u[|u| - 1] in r && AllHold(cs, u[|u| - 1], r[u[|u| - 1]], r - {u[|u| - 1]})
    decreases |u|
  {
    if |u| == 1 {
      assert a == r - {u[0]} by {
        assert a.Keys == (r - {u[0]}).Keys;
      }
    } else {
      assert Distinct(u[1..]) by {
        forall i, j | 0 <= i < j < |u[1..]| ensures u[1..][i] != u[1..][j] {
          assert u[1..][i] == u[i + 1] && u[1..][j] == u[j + 1];
        }
      }
      assert forall v :: v in u[1..] ==> v != u[0] by {
        forall k | 0 <= k < |u[1..]| ensures u[1..][k] != u[0] {
          assert u[1..][k] == u[k + 1];
        }
      }
      PlacedLast(cs, a[u[0] := r[u[0]]], r, u[1..]);
      assert u[1..][|u[1..]| - 1] == u[|u| - 1];
    }
  }

  /** The dictionary the engine fills in place and hands back on success. */
  class Assignment<V(==), D> {
    var entries: map<V, D>

    constructor ()
      ensures entries == map[]
    {
      entries := map[];
    }
  }

  /** `CSPEngine` of CSVEngine.py and of main.py. */
  class Engine<V(==), D(==)> {
    const variables: seq<V>
    const domains: map<V, seq<D>>
    const constraints: seq<Constraint<V, D>>

    constructor (variables: seq<V>, domains: map<V, seq<D>>, constraints: seq<Constraint<V, D>>)
      ensures this.variables == variables && this.domains == domains && this.constraints == constraints
    {
      this.variables := variables;
      this.domains := domains;
      this.constraints := constraints;
    }

    ghost predicate Ready()
    {
      Distinct(variables) && forall v :: v in variables ==> v in domains
    }

    /** `is_consistent`: true when every constraint accepts, stopping at
        the first one that refuses. */
    method IsConsistent(v: V, x: D, a: map<V, D>) returns (ok: bool)
      ensures ok == AllHold(constraints, v, x, a)
    {
      var i := 0;
      while i < |constraints|
        invariant 0 <= i <= |constraints|
        invariant forall k :: 0 <= k < i ==> constraints[k](v, x, a)
      {
        if !constraints[i](v, x, a) {
          return false;
        }
        i := i + 1;
      }
      return true;
    }

    /** `select_unassigned_variable`: the first variable in visiting order
        that `a` does not assign, or None when there is none. */
    method SelectUnassignedVariable(a: map<V, D>) returns (r: Option<V>)
      ensures r.None? <==> forall v :: v in variables ==> v in a
      ensures r.Some? ==> exists i :: 0 <= i < |variables| && variables[i] == r.value && r.value !in a &&
                                      forall j :: 0 <= j < i ==> variables[j] in a
      ensures r == if Unassigned(variables, a) == [] then None else Some(Unassigned(variables, a)[0])
    {
      var i := 0;
      while i < |variables|
        invariant 0 <= i <= |variables|
        invariant forall j :: 0 <= j < i ==> variables[j] in a
        invariant Unassigned(variables, a) == Unassigned(variables[i..], a)
      {
        if variables[i] !in a {
          return Some(variables[i]);
        }
        assert variables[i..][1..] == variables[i + 1..];
        i := i + 1;
      }
      return None;
    }

    /** `_backtrack` (main.py: `do_the_thing`). It returns the very object
        it was given, completed, or null with that object exactly as it was
        on entry. The Python test `if result:` is kept literally: a returned
        dictionary counts only when it is non-empty, which it always is. */
    method Backtrack(assignment: Assignment<V, D>) returns (result: Assignment?<V, D>)
      requires Ready()
      requires forall v :: v in assignment.entries ==> v in variables
      modifies assignment
      ensures result == null || result == assignment
      ensures Search(variables, domains, constraints, old(assignment.entries)) ==
              if result == null then None else Some(assignment.entries)
      ensures result == null ==> assignment.entries == old(assignment.entries)
      decreases |Unassigned(variables, assignment.entries)|, 1
    {
      LengthMeansComplete(variables, assignment.entries);
      if |assignment.entries| == |variables| {
        return assignment;
      }
      var next := SelectUnassignedVariable(assignment.entries);
      var v := next.value;
      ghost var a0 := assignment.entries;
      var values := domains[v];
      var i := 0;
      while i < |values|
        invariant 0 <= i <= |values|
        invariant assignment.entries == a0
        invariant TryValues(variables, domains, constraints, a0, values[i..]) ==
                  TryValues(variables, domains, constraints, a0, values)
      {
        assert values[i..][0] == values[i] && values[i..][1..] == values[i + 1..];
        TryValuesNext(variables, domains, constraints, a0, values[i..]);
        var found := TryValue(assignment, v, values[i]);
        if found != null {
          return found;
        }
        i := i + 1;
      }
      return null;
    }

    /** One pass of the value loop of `backtrack`: test `x` for the first
        unassigned variable `v`; when it is consistent place it, search on,
        and delete it again unless the search below returned a non-empty
        assignment. */
    method TryValue(assignment: Assignment<V, D>, v: V, x: D) returns (found: Assignment?<V, D>)
      requires Ready()
      requires forall u :: u in assignment.entries ==> u in variables
      requires Unassigned(variables, assignment.entries) != []
      requires v == Unassigned(variables, assignment.entries)[0]
      modifies assignment
      ensures found == null || found == assignment
      ensures var a0 := old(assignment.entries);
              (if found == null then None else Some(assignment.entries)) ==
              if AllHold(constraints, v, x, a0) && Search(variables, domains, constraints, a0[v := x]).Some?
              then Search(variables, domains, constraints, a0[v := x])
              else None
      ensures found == null ==> assignment.entries == old(assignment.entries)
      decreases |Unassigned(variables, assignment.entries)|, 0
    {
      ghost var a0 := assignment.entries;
      UnassignedAfterFirst(variables, a0, x);
      TakeBack(a0, v, x);
      var ok := IsConsistent(v, x, assignment.entries);
      found := null;
      if ok {
        assignment.entries := assignment.entries[v := x];
        SearchSound(variables, domains, constraints, a0[v := x]);
        var result := Backtrack(assignment);
        if result != null && result.entries != map[] {
          found := result;
        } else {
          assignment.entries := assignment.entries - {v};
        }
      }
    }

    /** `backtracking_search` (main.py: `backtracking_and_solve`): run from
        an empty assignment. A non-null result is a solution; null means
        that no solution exists at all. */
    method BacktrackingSearch() returns (result: Assignment?<V, D>)
      requires Ready()
      ensures result == null <==> Search(variables, domains, constraints, map[]).None?
      ensures result != null ==> Search(variables, domains, constraints, map[]) == Some(result.entries)
      ensures result != null ==> Solves(variables, domains, constraints, map[], result.entries)
      ensures result == null ==> !exists r :: Solves(variables, domains, constraints, map[], r)
    {
      var assignment := new Assignment();
      result := Backtrack(assignment);
      SearchSound(variables, domains, constraints, map[]);
      SearchSucceedsIff(variables, domains, constraints, map[]);
    }
  }
}
