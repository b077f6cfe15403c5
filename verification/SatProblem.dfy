/** Running the SAT solver on a problem and handling its answer
    (libpkg/pkg_solve.c, pkg_solve_sat_problem; libpkg/pkg_jobs.c, the retry loop). */
module SatProblem {
  import opened Lists
  import opened Packages
  import opened Jobs
  import opened Solve

  /** What PicoSAT answers: the true variables, or the assumptions that failed. */
  datatype Answer = Satisfiable(trueVars: set<nat>) | Unsatisfiable(failed: seq<int>)

  type Clause = seq<int>

  predicate LiteralHolds(lit: int, trueVars: set<nat>) {
    if lit > 0 then lit in trueVars else lit < 0 && -lit !in trueVars
  }

  ghost predicate ClausesHold(clauses: seq<Clause>, trueVars: set<nat>) {
    forall c :: c in clauses ==> ClauseHolds(c, trueVars)
  }

  ghost predicate ClauseHolds(clause: Clause, trueVars: set<nat>) {
    exists l :: l in clause && LiteralHolds(l, trueVars)
  }

  ghost predicate LiteralsHold(lits: seq<int>, trueVars: set<nat>) {
    forall l :: l in lits ==> LiteralHolds(l, trueVars)
  }

  /** The solver's contract: a model of everything, or distinct assumptions that cannot
      all hold together with the clauses. */
  ghost predicate Correct(answer: Answer, clauses: seq<Clause>, assumptions: seq<int>) {
    match answer
    case Satisfiable(m) => ClausesHold(clauses, m) && LiteralsHold(assumptions, m)
    case Unsatisfiable(failed) =>
      && Distinct(failed)
      && (forall l :: l in failed ==> l in assumptions)
      && forall m :: !(ClausesHold(clauses, m) && LiteralsHold(failed, m))
  }

  /** The solver as seen from outside: one answer per call, whatever its internal state. */
  type Oracle = (nat, seq<Clause>, seq<int>) -> Answer

  ghost predicate Sound(oracle: Oracle) {
    forall n, clauses, assumptions :: Correct(oracle(n, clauses, assumptions), clauses, assumptions)
  }

  // ---------- variable numbers ----------

  /** var->order: position in the variable array, counted from one. */
  function Order(variables: seq<Unit>, u: Unit): (n: nat)
    ensures n <= |variables|
    ensures u in variables ==> n > 0 && variables[n - 1] == u
  {
    if variables == [] then 0
    else if variables[|variables| - 1] == u then |variables| else Order(variables[..|variables| - 1], u)
  }

  function Literal(variables: seq<Unit>, it: Item): int {
    Order(variables, it.unit) * it.inverse
  }

  /** The units whose variable is true. */
  function Chosen(variables: seq<Unit>, trueVars: set<nat>): set<Unit> {
    set k | 0 <= k < |variables| && k + 1 in trueVars :: variables[k]
  }

  /** The variables of the chosen units. */
  function Numbers(variables: seq<Unit>, chosen: set<Unit>): set<nat> {
    set k | 0 <= k < |variables| && variables[k] in chosen :: k + 1
  }

  predicate Proper(it: Item, variables: seq<Unit>) {
    it.unit in variables && (it.inverse == 1 || it.inverse == -1)
  }

  lemma LiteralMeaning(variables: seq<Unit>, it: Item, m: set<nat>)
    requires Distinct(variables) && Proper(it, variables)
    ensures LiteralHolds(Literal(variables, it), m) <==> ItemHolds(it, Chosen(variables, m))
  {
    var n := Order(variables, it.unit);
    assert it.unit in Chosen(variables, m) <==> n in m;
    assert it.inverse == -1 ==> n * it.inverse == -(n as int);
  }

  lemma NumbersInverse(variables: seq<Unit>, chosen: set<Unit>)
    requires forall u :: u in chosen ==> u in variables
    ensures Chosen(variables, Numbers(variables, chosen)) == chosen
  {
    forall u | u in chosen ensures u in Chosen(variables, Numbers(variables, chosen)) {
      var n := Order(variables, u);
      assert variables[n - 1] in chosen && n in Numbers(variables, chosen);
    }
  }

  function ClauseOf(variables: seq<Unit>, rule: Rule): Clause {
    seq(|rule|, k requires 0 <= k < |rule| => Literal(variables, rule[k]))
  }

  lemma ClauseMeaning(variables: seq<Unit>, rule: Rule, m: set<nat>)
    requires Distinct(variables) && forall it :: it in rule ==> Proper(it, variables)
    ensures ClauseHolds(ClauseOf(variables, rule), m) <==> RuleHolds(rule, Chosen(variables, m))
  {
    var clause := ClauseOf(variables, rule);
    if RuleHolds(rule, Chosen(variables, m)) {
      var it :| it in rule && ItemHolds(it, Chosen(variables, m));
      var k :| 0 <= k < |rule| && rule[k] == it;
      LiteralMeaning(variables, it, m);
      assert clause[k] in clause && LiteralHolds(clause[k], m);
    }
    if ClauseHolds(clause, m) {
      var k :| 0 <= k < |clause| && LiteralHolds(clause[k], m);
      assert rule[k] in rule;
      LiteralMeaning(variables, rule[k], m);
    }
  }

  ghost predicate RulesProper(rules: seq<Rule>, variables: seq<Unit>) {
    forall r, it :: r in rules && it in r ==> Proper(it, variables)
  }

  /** Feeding all rules to the solver. */
  method AddClauses(variables: seq<Unit>, rules: seq<Rule>) returns (clauses: seq<Clause>)
    requires Distinct(variables) && RulesProper(rules, variables)
    ensures forall m :: ClausesHold(clauses, m) <==> AllHold(rules, Chosen(variables, m))
  {
    clauses := [];
    var i := 0;
    while i < |rules|
      invariant 0 <= i <= |rules|
      invariant forall m :: ClausesHold(clauses, m) <==> AllHold(rules[..i], Chosen(variables, m))
    {
      assert rules[i] in rules;
      var clause := ClauseOf(variables, rules[i]);
      assert rules[..i + 1] == rules[..i] + [rules[i]];
      forall m
        ensures ClausesHold(clauses + [clause], m) <==> AllHold(rules[..i + 1], Chosen(variables, m))
      {
        ClauseMeaning(variables, rules[i], m);
        assert forall c :: c in clauses + [clause] <==> c in clauses || c == clause;
      }
      clauses := clauses + [clause];
      i := i + 1;
    }
    assert rules[..i] == rules;
  }

  /** The assumptions as literals. */
  function AssumedLiterals(variables: seq<Unit>, items: seq<Item>): seq<int> {
    seq(|items|, k requires 0 <= k < |items| => Literal(variables, items[k]))
  }

  lemma AssumptionMeaning(variables: seq<Unit>, items: seq<Item>, m: set<nat>)
    requires Distinct(variables) && forall it :: it in items ==> Proper(it, variables)
    ensures LiteralsHold(AssumedLiterals(variables, items), m)
       <==> forall it :: it in items ==> ItemHolds(it, Chosen(variables, m))
  {
    var lits := AssumedLiterals(variables, items);
    forall k | 0 <= k < |items|
      ensures LiteralHolds(lits[k], m) <==> ItemHolds(items[k], Chosen(variables, m))
    {
      assert items[k] in items;
      LiteralMeaning(variables, items[k], m);
    }
    if LiteralsHold(lits, m) {
      forall it | it in items ensures ItemHolds(it, Chosen(variables, m)) {
        var k :| 0 <= k < |items| && items[k] == it;
        assert lits[k] in lits;
      }
    }
    if forall it :: it in items ==> ItemHolds(it, Chosen(variables, m)) {
      forall l | l in lits ensures LiteralHolds(l, m) {
        var k :| 0 <= k < |lits| && lits[k] == l;
        assert items[k] in items;
      }
    }
  }

  /** The problem is the encoding of its universe and of the requests of the job. */
  ghost predicate Encodes(p: Problem, j: Job)
    reads p, j
  {
    && p.Ready() && Distinct(p.variables)
    && (forall u :: u in p.variables <==> p.table.Has(u))
    && (forall c :: AllHold(p.rules, c) <==> Consistent(p.table, c))
    && p.AssumesRequests(p.variables, j.requestAdd, j.requestDelete)
  }

  /** A choice of universe units that is consistent and grants every request. */
  ghost predicate Grants(t: Table, add: set<Unit>, delete: set<Unit>, chosen: set<Unit>) {
    && Consistent(t, chosen)
    && (forall u :: u in chosen ==> t.Has(u))
    && (forall u :: u in add && t.Has(u) ==> u in chosen)
    && (forall u :: u in delete && t.Has(u) ==> u !in chosen)
  }

  /** Since choosing nothing satisfies the rules, some failed assumption is violated by it. */
  lemma SomeFailedIsPositive(t: Table, rules: seq<Rule>, variables: seq<Unit>,
                             clauses: seq<Clause>, failed: seq<int>) returns (lit: int)
    requires AllWellShaped(rules, t)
    requires forall m :: ClausesHold(clauses, m) <==> AllHold(rules, Chosen(variables, m))
    requires forall m :: !(ClausesHold(clauses, m) && LiteralsHold(failed, m))
    ensures lit in failed && lit >= 0
  {
    NothingChosenHolds(rules, t);
    assert Chosen(variables, {}) == {};
    assert ClausesHold(clauses, {});
    lit :| lit in failed && !LiteralHolds(lit, {});
  }

  lemma LiteralSource(variables: seq<Unit>, items: seq<Item>, lit: int) returns (it: Item)
    requires lit in AssumedLiterals(variables, items)
    ensures it in items && lit == Literal(variables, it)
  {
    var k :| 0 <= k < |items| && AssumedLiterals(variables, items)[k] == lit;
    it := items[k];
  }

  lemma LiteralSign(variables: seq<Unit>, it: Item)
    requires Proper(it, variables)
    ensures Literal(variables, it) >= 0 <==> it.inverse == 1
  {
    assert Order(variables, it.unit) > 0;
  }

  /** With no install request the solver cannot answer "unsatisfiable"; otherwise every failed
      assumption is the positive literal of a requested unit, and there is at least one. */
  lemma FailedAssumptions(p: Problem, j: Job, clauses: seq<Clause>, failed: seq<int>)
    requires j.Valid() && Encodes(p, j)
    requires forall m :: ClausesHold(clauses, m) <==> AllHold(p.rules, Chosen(p.variables, m))
    requires Correct(Unsatisfiable(failed), clauses, AssumedLiterals(p.variables, p.assumptions))
    ensures !IsDelete(j.kind) && failed != []
    ensures forall l :: l in failed ==> 1 <= l <= |p.variables| && p.variables[l - 1] in j.requestAdd
    ensures forall l :: l in failed ==> p.variables[l - 1] in p.toInstall
  {
    var variables := p.variables;
    var lit := SomeFailedIsPositive(p.table, p.rules, variables, clauses, failed);
    var first := LiteralSource(variables, p.assumptions, lit);
    LiteralSign(variables, first);
    forall l | l in failed
      ensures 1 <= l <= |variables| && variables[l - 1] in j.requestAdd && variables[l - 1] in p.toInstall
    {
      var it := LiteralSource(variables, p.assumptions, l);
      assert it.inverse == 1;
    }
  }

  /** A choice that grants every request is a model of the clauses and the assumptions. */
  lemma GrantIsModel(p: Problem, j: Job, clauses: seq<Clause>, chosen: set<Unit>)
    requires Encodes(p, j)
    requires forall m :: ClausesHold(clauses, m) <==> AllHold(p.rules, Chosen(p.variables, m))
    requires Grants(p.table, j.requestAdd, j.requestDelete, chosen)
    ensures ClausesHold(clauses, Numbers(p.variables, chosen))
    ensures LiteralsHold(AssumedLiterals(p.variables, p.assumptions), Numbers(p.variables, chosen))
  {
    NumbersInverse(p.variables, chosen);
    AssumptionMeaning(p.variables, p.assumptions, Numbers(p.variables, chosen));
  }

  /** So when the solver finds no model, no consistent choice grants every request. */
  lemma UnsatisfiableMeansNoGrant(p: Problem, j: Job, clauses: seq<Clause>, failed: seq<int>)
    requires Encodes(p, j)
    requires forall m :: ClausesHold(clauses, m) <==> AllHold(p.rules, Chosen(p.variables, m))
    requires Correct(Unsatisfiable(failed), clauses, AssumedLiterals(p.variables, p.assumptions))
    ensures forall chosen :: !Grants(p.table, j.requestAdd, j.requestDelete, chosen)
  {
    forall chosen | Grants(p.table, j.requestAdd, j.requestDelete, chosen) ensures false {
      GrantIsModel(p, j, clauses, chosen);
    }
  }

  /** pkg_solve_sat_problem: ask the solver; on failure offer to drop the failed requests. */
  method SolveSat(p: Problem, j: Job, oracle: Oracle, round: nat, confirm: (nat, int) -> bool)
    returns (ret: Code)
    requires j.Valid() && Encodes(p, j) && Sound(oracle)
    modifies p`toInstall, j`requestAdd
    ensures j.Valid()
    ensures ret == Ok ==> Grants(p.table, j.requestAdd, j.requestDelete, p.toInstall)
    ensures ret == Ok ==> j.requestAdd == old(j.requestAdd)
    ensures j.requestAdd <= old(j.requestAdd) && (ret == Again ==> j.requestAdd < old(j.requestAdd))
    ensures ret != Ok ==> forall c :: !Grants(p.table, old(j.requestAdd), j.requestDelete, c)
    ensures ret == Fatal ==> exists l :: !confirm(round, l)
    ensures IsDelete(j.kind) ==> ret == Ok
  {
    var clauses := AddClauses(p.variables, p.rules);
    var assumed := AssumedLiterals(p.variables, p.assumptions);
    var answer := oracle(round, clauses, assumed);
    assert Correct(answer, clauses, assumed);
    match answer
    case Satisfiable(trueVars) =>
      AssumptionMeaning(p.variables, p.assumptions, trueVars);
      p.toInstall := Chosen(p.variables, trueVars);
      ret := Ok;
      forall u | u in j.requestAdd && p.table.Has(u) ensures u in p.toInstall {
        assert Item(u, 1) in p.assumptions;
      }
      forall u | u in j.requestDelete && p.table.Has(u) ensures u !in p.toInstall {
        assert Item(u, -1) in p.assumptions;
      }
    case Unsatisfiable(failed) =>
      FailedAssumptions(p, j, clauses, failed);
      UnsatisfiableMeansNoGrant(p, j, clauses, failed);
      ret := DropFailed(p, j, failed, round, confirm);
  }

  /** The dialogue over the failed assumptions. */
  method DropFailed(p: Problem, j: Job, failed: seq<int>, round: nat, confirm: (nat, int) -> bool)
    returns (ret: Code)
    requires j.Valid() && !IsDelete(j.kind) && Distinct(p.variables) && Distinct(failed) && failed != []
    requires forall l :: l in failed ==> 1 <= l <= |p.variables| && p.variables[l - 1] in j.requestAdd
    requires forall l :: l in failed ==> p.variables[l - 1] in p.toInstall
    modifies j`requestAdd
    ensures j.Valid()
    ensures j.requestAdd <= old(j.requestAdd) && (ret == Again ==> j.requestAdd < old(j.requestAdd))
    ensures ret == Again ==> j.requestAdd == old(j.requestAdd) - UnitsOf(p.variables, failed)
    ensures ret == Fatal ==> exists n: nat ::
      n < |failed| && !confirm(round, failed[n]) && j.requestAdd == Remaining(p.variables, failed, n, old(j.requestAdd))
    ensures ret == Fatal ==> exists l :: !confirm(round, l)
    ensures ret != Ok
  {
    var i := 0;
    while i < |failed|
      invariant 0 <= i <= |failed|
      invariant j.requestAdd == old(j.requestAdd) - UnitsOf(p.variables, failed[..i])
      invariant i > 0 ==> j.requestAdd != old(j.requestAdd)
    {
      var lit := failed[i];
      assert lit in failed && lit !in failed[..i] && failed[..i + 1] == failed[..i] + [lit];
      var u := p.variables[lit - 1];
      assert u in p.toInstall && u in old(j.requestAdd);
      UnitsOfStep(p.variables, failed, i);
      if !confirm(round, lit) {
        return Fatal;
      }
      if u !in j.requestAdd {
        assert false;
        return Fatal;
      }
      j.requestAdd := j.requestAdd - {u};
      i := i + 1;
    }
    assert failed[..i] == failed;
    return Again;
  }

  /** The requests once the first n failed ones are dropped. */
  function Remaining(variables: seq<Unit>, failed: seq<int>, n: nat, requests: set<Unit>): set<Unit>
    requires n <= |failed|
  {
    requests - UnitsOf(variables, failed[..n])
  }

  function UnitsOf(variables: seq<Unit>, lits: seq<int>): set<Unit> {
    set l | l in lits && 1 <= l <= |variables| :: variables[l - 1]
  }

  lemma UnitsOfStep(variables: seq<Unit>, lits: seq<int>, i: nat)
    requires i < |lits| && 1 <= lits[i] <= |variables|
    ensures UnitsOf(variables, lits[..i + 1]) == UnitsOf(variables, lits[..i]) + {variables[lits[i] - 1]}
  {
    assert lits[..i + 1] == lits[..i] + [lits[i]];
    assert lits[i] in lits[..i + 1];
    forall u | u in UnitsOf(variables, lits[..i]) ensures u in UnitsOf(variables, lits[..i + 1]) {
      var l :| l in lits[..i] && 1 <= l <= |variables| && variables[l - 1] == u;
      assert l in lits[..i + 1];
    }
  }
}
