/** Translation of the universe to clauses (libpkg/pkg_solve.c). */
module Solve {
  import opened Lists
  import opened Packages

  /** One literal of a rule: the unit chosen, or (inverse) not chosen. */
  datatype Item = Item(unit: Unit, inverse: int)

  type Rule = seq<Item>

  predicate ItemHolds(it: Item, chosen: set<Unit>) {
    if it.inverse > 0 then it.unit in chosen else it.unit !in chosen
  }

  ghost predicate RuleHolds(rule: Rule, chosen: set<Unit>) {
    exists it :: it in rule && ItemHolds(it, chosen)
  }

  ghost predicate AllHold(rules: seq<Rule>, chosen: set<Unit>) {
    forall r :: r in rules ==> RuleHolds(r, chosen)
  }

  // ---------- what the rules are meant to say ----------

  /** Some unit of the chain is chosen. */
  predicate Meets(chain: Chain, chosen: set<Unit>) {
    exists x :: x in chain && x in chosen
  }

  predicate DependencyMet(t: Table, u: Unit, dep: Uid, chosen: set<Unit>) {
    u in chosen && dep in t.chains ==> Meets(t.chains[dep], chosen)
  }

  /** Whether a conflict of the given kind, held by u, applies to y. */
  predicate ConflictApplies(kind: ConflictType, u: Unit, y: Unit) {
    match kind
    case RemoteLocal => u.pkg.installed != y.pkg.installed
    case RemoteRemote => !u.pkg.installed && !y.pkg.installed
    case _ => true
  }

  predicate ConflictRespected(t: Table, u: Unit, c: Conflict, chosen: set<Unit>) {
    u in chosen && c.uid in t.chains ==>
      forall y :: y in t.chains[c.uid] && ConflictApplies(c.kind, u, y) ==> y !in chosen
  }

  /** All units of the chains of the known providers of a library. */
  function Providers(t: Table, shlib: string): set<Unit> {
    if shlib in t.providers then
      set p, x | p in t.providers[shlib] && p.pkg.uid in t.chains && x in t.chains[p.pkg.uid] :: x
    else {}
  }

  predicate LibraryMet(t: Table, u: Unit, shlib: string, chosen: set<Unit>) {
    u in chosen && Providers(t, shlib) != {} ==> Overlap(Providers(t, shlib), chosen)
  }

  /** The head of a chain excludes the rest of it. */
  predicate HeadExclusive(chain: Chain, chosen: set<Unit>) {
    chain != [] && chain[0] in chosen ==> forall k :: 1 <= k < |chain| ==> chain[k] !in chosen
  }

  ghost predicate UnitConsistent(t: Table, u: Unit, chosen: set<Unit>) {
    && (forall d :: d in u.pkg.deps ==> DependencyMet(t, u, d, chosen))
    && (forall c :: c in u.pkg.conflicts ==> ConflictRespected(t, u, c, chosen))
    && (!u.pkg.installed ==> forall s :: s in u.pkg.shlibsRequired ==> LibraryMet(t, u, s, chosen))
  }

  ghost predicate ChainConsistent(t: Table, chain: Chain, chosen: set<Unit>) {
    && (forall k :: 0 <= k < |chain| ==> UnitConsistent(t, chain[k], chosen))
    && HeadExclusive(chain, chosen)
  }

  /** The meaning of a solvable universe, stated on sets of chosen units. */
  ghost predicate Consistent(t: Table, chosen: set<Unit>) {
    forall uid :: uid in t.chains ==> ChainConsistent(t, t.chains[uid], chosen)
  }

  // ---------- rules carry a negative literal and speak of known units ----------

  ghost predicate WellShaped(rule: Rule, t: Table) {
    && (forall it :: it in rule ==> t.Has(it.unit) && (it.inverse == 1 || it.inverse == -1))
    && exists it :: it in rule && it.inverse == -1
  }

  ghost predicate AllWellShaped(rules: seq<Rule>, t: Table) {
    forall r :: r in rules ==> WellShaped(r, t)
  }

  /** RULE_ITEM_PREPEND and LL_PREPEND */
  function Prepend<T(!new)>(x: T, list: seq<T>): (r: seq<T>)
    ensures x in r && forall y :: y in r <==> y == x || y in list
  {
    assert ([x] + list)[0] == x;
    [x] + list
  }

  // ---------- the encoder ----------

  /** Adds a positive literal for every unit of a chain. */
  method AddAlternatives(t: Table, start: Rule, chain: Chain) returns (rule: Rule)
    requires WellShaped(start, t) && forall x :: x in chain ==> t.Has(x)
    ensures WellShaped(rule, t) && |rule| == |start| + |chain|
    ensures forall c :: RuleHolds(rule, c) <==> RuleHolds(start, c) || Meets(chain, c)
  {
    rule := start;
    var i := 0;
    while i < |chain|
      invariant 0 <= i <= |chain|
      invariant WellShaped(rule, t) && |rule| == |start| + i
      invariant forall c :: RuleHolds(rule, c) <==> RuleHolds(start, c) || Meets(chain[..i], c)
    {
      var longer := Prepend(Item(chain[i], 1), rule);
      forall c ensures RuleHolds(longer, c) <==> RuleHolds(start, c) || Meets(chain[..i + 1], c) {
        assert chain[..i + 1] == chain[..i] + [chain[i]];
        assert ItemHolds(Item(chain[i], 1), c) <==> chain[i] in c;
        assert RuleHolds(longer, c) <==> RuleHolds(rule, c) || chain[i] in c;
      }
      rule := longer;
      i := i + 1;
    }
    assert chain[..i] == chain;
  }

  /** (!A | B1 | B2 | ...): the dependency rule. */
  method DependRule(t: Table, u: Unit, chain: Chain) returns (rule: Rule)
    requires t.Has(u) && forall x :: x in chain ==> t.Has(x)
    ensures WellShaped(rule, t)
    ensures forall c :: RuleHolds(rule, c) <==> u !in c || Meets(chain, c)
  {
    rule := Prepend(Item(u, -1), []);
    rule := AddAlternatives(t, rule, chain);
  }

  /** (!A | !B): explicit conflicts and upgrade chains. */
  method ExclusionRule(t: Table, u: Unit, y: Unit) returns (rule: Rule)
    requires t.Has(u) && t.Has(y)
    ensures WellShaped(rule, t)
    ensures forall c :: RuleHolds(rule, c) <==> !(u in c && y in c)
  {
    rule := Prepend(Item(u, -1), []);
    rule := Prepend(Item(y, -1), rule);
  }

  /** (!A | P1 | P2 | ...): the chains of every provider; no rule when there is none. */
  method RequireRule(t: Table, u: Unit, shlib: string) returns (rules: seq<Rule>)
    requires t.Valid() && t.Has(u)
    ensures AllWellShaped(rules, t) && |rules| <= 1
    ensures forall c :: AllHold(rules, c) <==> LibraryMet(t, u, shlib, c)
  {
    rules := [];
    if shlib !in t.providers {
      return;
    }
    var providers := t.providers[shlib];
    var rule := Prepend(Item(u, -1), []);
    var i := 0;
    while i < |providers|
      invariant 0 <= i <= |providers|
      invariant WellShaped(rule, t) && (|rule| > 1 <==> ChainUnion(t, providers[..i]) != {})
      invariant |rule| >= 1
      invariant forall c :: RuleHolds(rule, c) <==> u !in c || Overlap(ChainUnion(t, providers[..i]), c)
    {
      ChainUnionStep(t, providers, i);
      assert t.chains[providers[i].pkg.uid][0] in ChainUnion(t, providers[..i + 1]);
      rule := AddAlternatives(t, rule, t.chains[providers[i].pkg.uid]);
      i := i + 1;
    }
    assert providers[..i] == providers;
    if |rule| > 1 {
      rules := [rule];
    }
  }

  predicate Overlap(a: set<Unit>, c: set<Unit>) {
    exists x :: x in a && x in c
  }

  /** Everything on the chains of the given providers. */
  function ChainUnion(t: Table, providers: seq<Unit>): set<Unit> {
    set p, x | p in providers && p.pkg.uid in t.chains && x in t.chains[p.pkg.uid] :: x
  }

  lemma ChainUnionStep(t: Table, providers: seq<Unit>, i: nat)
    requires i < |providers| && providers[i].pkg.uid in t.chains
    ensures ChainUnion(t, providers[..i + 1])
         == ChainUnion(t, providers[..i]) + set x | x in t.chains[providers[i].pkg.uid]
  {
    assert providers[..i + 1] == providers[..i] + [providers[i]];
  }

  /** The problem handed to the SAT solver. */
  class Problem {
    const table: Table
    var variables: seq<Unit>            // variable number = index + 1
    var variablesByUid: map<Uid, Chain>
    var rules: seq<Rule>
    var assumptions: seq<Item>          // literals passed to picosat_assume
    var toInstall: set<Unit>            // variables whose to_install flag is set

    constructor (t: Table)
      ensures table == t && variables == [] && variablesByUid == map[] && rules == []
      ensures assumptions == [] && toInstall == {}
    {
      table := t;
      variables, variablesByUid, rules := [], map[], [];
      assumptions, toInstall := [], {};
    }

    /** Chains can be looked up by uid, and all rules are well shaped. */
    ghost predicate Ready()
      reads this
    {
      table.Valid() && variablesByUid == table.chains && AllWellShaped(rules, table)
    }

    method AddDependRule(u: Unit, dep: Uid)
      requires Ready() && table.Has(u)
      modifies this`rules
      ensures Ready()
      ensures forall c :: AllHold(rules, c) <==> AllHold(old(rules), c) && DependencyMet(table, u, dep, c)
    {
      if dep !in variablesByUid {
        return;
      }
      var rule := DependRule(table, u, variablesByUid[dep]);
      rules := Prepend(rule, rules);
    }

    method AddConflictRules(u: Unit, conflict: Conflict)
      requires Ready() && table.Has(u)
      modifies this`rules
      ensures Ready()
      ensures forall c :: AllHold(rules, c) <==> AllHold(old(rules), c) && ConflictRespected(table, u, conflict, c)
    {
      if conflict.uid !in variablesByUid {
        return;
      }
      var chain := variablesByUid[conflict.uid];
      var i := 0;
      while i < |chain|
        invariant 0 <= i <= |chain|
        invariant Ready()
        invariant forall c :: AllHold(rules, c) <==> (AllHold(old(rules), c) &&
          (u in c ==> forall k :: 0 <= k < i && ConflictApplies(conflict.kind, u, chain[k]) ==> chain[k] !in c))
      {
        var y := chain[i];
        i := i + 1;
        if conflict.kind == RemoteLocal {
          if u.pkg.installed {
            if y.pkg.installed { continue; }
          } else {
            if !y.pkg.installed { continue; }
          }
        } else if conflict.kind == RemoteRemote {
          if u.pkg.installed { continue; }
          if y.pkg.installed { continue; }
        }
        var rule := ExclusionRule(table, u, y);
        rules := Prepend(rule, rules);
      }
    }

    method AddRequireRule(u: Unit, shlib: string)
      requires Ready() && table.Has(u)
      modifies this`rules
      ensures Ready()
      ensures forall c :: AllHold(rules, c) <==> AllHold(old(rules), c) && LibraryMet(table, u, shlib, c)
    {
      var rule := RequireRule(table, u, shlib);
      rules := rule + rules;
    }

    /** The head of a chain against every later member. */
    method AddChainRules(chain: Chain)
      requires Ready() && chain != [] && forall x :: x in chain ==> table.Has(x)
      modifies this`rules
      ensures Ready()
      ensures forall c :: AllHold(rules, c) <==> AllHold(old(rules), c) && HeadExclusive(chain, c)
    {
      var i := 1;
      while i < |chain|
        invariant 1 <= i <= |chain|
        invariant Ready()
        invariant forall c :: AllHold(rules, c) <==> (AllHold(old(rules), c) &&
          (chain[0] in c ==> forall k :: 1 <= k < i ==> chain[k] !in c))
      {
        var rule := ExclusionRule(table, chain[0], chain[i]);
        rules := Prepend(rule, rules);
        i := i + 1;
      }
    }

    /** A request for u: assume its literal and remember which way it went. */
    method AddUnaryRule(u: Unit, inverse: int)
      modifies this`assumptions, this`toInstall
      ensures assumptions == old(assumptions) + [Item(u, inverse)]
      ensures toInstall == if inverse > 0 then old(toInstall) + {u} else old(toInstall) - {u}
    {
      assumptions := assumptions + [Item(u, inverse)];
      toInstall := if inverse > 0 then toInstall + {u} else toInstall - {u};
    }

    /** The rules of one unit of a chain. */
    method AddUnitRules(u: Unit)
      requires Ready() && table.Has(u)
      modifies this`rules
      ensures Ready()
      ensures forall c :: AllHold(rules, c) <==> AllHold(old(rules), c) && UnitConsistent(table, u, c)
    {
      var deps, conflicts, shlibs := u.pkg.deps, u.pkg.conflicts, u.pkg.shlibsRequired;
      var i := 0;
      while i < |deps|
        invariant 0 <= i <= |deps| && Ready()
        invariant forall c :: AllHold(rules, c) <==>
          (AllHold(old(rules), c) && forall k :: 0 <= k < i ==> DependencyMet(table, u, deps[k], c))
      {
        AddDependRule(u, deps[i]);
        i := i + 1;
      }
      label Conflicts:
      i := 0;
      while i < |conflicts|
        invariant 0 <= i <= |conflicts| && Ready()
        invariant forall c :: AllHold(rules, c) <==>
          (AllHold(old@Conflicts(rules), c) && forall k :: 0 <= k < i ==> ConflictRespected(table, u, conflicts[k], c))
      {
        AddConflictRules(u, conflicts[i]);
        i := i + 1;
      }
      label Shlibs:
      if !u.pkg.installed {
        i := 0;
        while i < |shlibs|
          invariant 0 <= i <= |shlibs| && Ready()
          invariant forall c :: AllHold(rules, c) <==>
            (AllHold(old@Shlibs(rules), c) && forall k :: 0 <= k < i ==> LibraryMet(table, u, shlibs[k], c))
        {
          AddRequireRule(u, shlibs[i]);
          i := i + 1;
        }
      }
    }

    /** The assumptions say exactly that the requests among the first n variables are granted. */
    ghost predicate AssumesRequests(units: seq<Unit>, add: set<Unit>, delete: set<Unit>)
      reads this
    {
      && (forall it :: it in assumptions <==> (it.unit in units
            && ((it.unit in add && it.inverse == 1) || (it.unit in delete && it.inverse == -1))))
      && (forall u :: u in toInstall <==> u in units && u in add && u !in delete)
    }

    /** Rules and requests of one unit. */
    method ProcessUnit(u: Unit, add: set<Unit>, delete: set<Unit>, ghost done: seq<Unit>)
      requires Ready() && table.Has(u)
      requires AssumesRequests(done, add, delete) && u !in done
      modifies this`rules, this`assumptions, this`toInstall
      ensures Ready() && AssumesRequests(done + [u], add, delete)
      ensures forall c :: AllHold(rules, c) <==> AllHold(old(rules), c) && UnitConsistent(table, u, c)
    {
      AddUnitRules(u);
      if u in add {
        AddUnaryRule(u, 1);
      }
      if u in delete {
        AddUnaryRule(u, -1);
      }
    }

    /** All rules and requests of one chain. */
    method ProcessUniverseVariable(chain: Chain, add: set<Unit>, delete: set<Unit>, ghost done: seq<Unit>)
      requires Ready() && chain != [] && forall x :: x in chain ==> table.Has(x)
      requires AssumesRequests(done, add, delete) && Distinct(done + chain)
      modifies this`rules, this`assumptions, this`toInstall
      ensures Ready() && AssumesRequests(done + chain, add, delete)
      ensures forall c :: AllHold(rules, c) <==> AllHold(old(rules), c) && ChainConsistent(table, chain, c)
    {
      var chainAdded := false;
      var i := 0;
      while i < |chain|
        invariant 0 <= i <= |chain| && Ready()
        invariant AssumesRequests(done + chain[..i], add, delete)
        invariant chainAdded <==> i > 0 && |chain| > 1
        invariant forall c :: AllHold(rules, c) <==>
          (AllHold(old(rules), c)
           && (forall k :: 0 <= k < i ==> UnitConsistent(table, chain[k], c))
           && (i > 0 ==> HeadExclusive(chain, c)))
      {
        assert done + chain[..i + 1] == done + chain[..i] + [chain[i]];
        assert (done + chain)[..|done| + i] == done + chain[..i] && (done + chain)[|done| + i] == chain[i];
        ProcessUnit(chain[i], add, delete, done + chain[..i]);
        if !chainAdded && i + 1 < |chain| {
          AddChainRules(chain[i..]);
          assert chain[0..] == chain;
          chainAdded := true;
        }
        i := i + 1;
      }
      assert chain[..i] == chain;
    }

    /** Variables for one chain; the head can be found by uid. */
    method AddVariables(chain: Chain, nvars: nat)
      requires chain != [] && chain[0].pkg.uid !in variablesByUid
      requires |variables| + |chain| <= nvars
      requires forall x :: x in chain ==> x.pkg.uid == chain[0].pkg.uid
      modifies this`variables, this`variablesByUid
      ensures variables == old(variables) + chain
      ensures variablesByUid == old(variablesByUid)[chain[0].pkg.uid := chain]
    {
      var uid := chain[0].pkg.uid;
      var i := 0;
      while i < |chain|
        invariant 0 <= i <= |chain|
        invariant variables == old(variables) + chain[..i]
        invariant variablesByUid == if i == 0 then old(variablesByUid) else old(variablesByUid)[uid := chain[..i]]
      {
        assert |variables| < nvars;
        variables := variables + [chain[i]];
        var grown := if i == 0 then [chain[i]] else variablesByUid[uid] + [chain[i]];
        assert grown == chain[..i + 1];
        variablesByUid := variablesByUid[uid := grown];
        i := i + 1;
      }
      assert chain[..i] == chain;
    }
  }

  lemma FlattenStep(uids: seq<Uid>, chains: map<Uid, Chain>, i: nat)
    requires i < |uids| && forall u :: u in uids ==> u in chains
    ensures Flatten(uids[..i + 1], chains) == Flatten(uids[..i], chains) + chains[uids[i]]
    ensures |Flatten(uids[..i + 1], chains)| <= |Flatten(uids, chains)|
    decreases |uids| - i
  {
    assert uids[..i + 1][..i] == uids[..i];
    if i + 1 < |uids| {
      FlattenStep(uids, chains, i + 1);
    } else {
      assert uids[..i + 1] == uids;
    }
  }

  /** The chains of the first n uids. */
  function FirstChains(t: Table, n: nat): map<Uid, Chain>
    requires n <= |t.uids| && forall u :: u in t.uids ==> u in t.chains
  {
    map u | u in t.uids[..n] :: t.chains[u]
  }

  /** All units of the first n chains. */
  function FirstUnits(t: Table, n: nat): seq<Unit>
    requires n <= |t.uids| && forall u :: u in t.uids ==> u in t.chains
  {
    Flatten(t.uids[..n], t.chains)
  }

  lemma NextUnits(t: Table, i: nat)
    requires t.Valid() && i < |t.uids|
    ensures FirstUnits(t, i + 1) == FirstUnits(t, i) + t.chains[t.uids[i]]
    ensures |FirstUnits(t, i + 1)| <= |Flatten(t.uids, t.chains)|
  {
    FlattenStep(t.uids, t.chains, i);
  }

  lemma NextChain(t: Table, i: nat)
    requires t.Valid() && i < |t.uids|
    ensures var uid := t.uids[i];
      && Table.ChainOf(uid, t.chains[uid]) && uid !in FirstChains(t, i)
      && FirstChains(t, i + 1) == FirstChains(t, i)[uid := t.chains[uid]]
  {
    assert t.uids[..i + 1] == t.uids[..i] + [t.uids[i]];
  }

  lemma NoAndAllChains(t: Table)
    requires t.Valid()
    ensures FirstChains(t, 0) == map[] && FirstUnits(t, 0) == []
    ensures FirstChains(t, |t.uids|) == t.chains && FirstUnits(t, |t.uids|) == Flatten(t.uids, t.chains)
  {
    assert t.uids[..|t.uids|] == t.uids;
  }

  /** The first pass: one variable per universe item, in table order. */
  method AddAllVariables(p: Problem, nitems: nat)
    requires p.table.Valid() && nitems == |Flatten(p.table.uids, p.table.chains)|
    requires p.variables == [] && p.variablesByUid == map[]
    modifies p`variables, p`variablesByUid
    ensures p.variables == Flatten(p.table.uids, p.table.chains)
    ensures p.variablesByUid == p.table.chains
  {
    var t := p.table;
    NoAndAllChains(t);
    var i := 0;
    while i < |t.uids|
      invariant 0 <= i <= |t.uids|
      invariant p.variables == FirstUnits(t, i) && p.variablesByUid == FirstChains(t, i)
    {
      NextChain(t, i);
      NextUnits(t, i);
      p.AddVariables(t.chains[t.uids[i]], nitems);
      i := i + 1;
    }
  }

  /** The problem built from a universe: its rules hold of exactly the consistent choices,
      and its assumptions are exactly the requests. */
  method JobsToSat(t: Table, nitems: nat, add: set<Unit>, delete: set<Unit>) returns (p: Problem)
    requires t.Valid() && nitems == |Flatten(t.uids, t.chains)|
    ensures fresh(p) && p.table == t && p.Ready()
    ensures p.variables == Flatten(t.uids, t.chains)
    ensures forall c :: AllHold(p.rules, c) <==> Consistent(t, c)
    ensures p.AssumesRequests(p.variables, add, delete)
  {
    p := new Problem(t);
    AddAllVariables(p, nitems);
    var uids := t.uids;
    var i := 0;
    FlattenIsDistinct(uids, t.chains);
    while i < |uids|
      invariant 0 <= i <= |uids|
      invariant fresh(p) && p.table == t && p.Ready() && p.variables == Flatten(uids, t.chains)
      invariant p.AssumesRequests(Flatten(uids[..i], t.chains), add, delete)
      invariant forall c :: AllHold(p.rules, c) <==> FirstConsistent(t, i, c)
    {
      AddChain(p, t, i, add, delete);
      i := i + 1;
    }
    assert uids[..i] == uids;
    ConsistentByPosition(t);
  }

  /** The first n chains are consistent. */
  ghost predicate FirstConsistent(t: Table, n: nat, chosen: set<Unit>)
    requires t.Valid() && n <= |t.uids|
  {
    forall k :: 0 <= k < n ==> ChainConsistent(t, t.chains[t.uids[k]], chosen)
  }

  /** One turn of the loop over all chains. */
  method AddChain(p: Problem, t: Table, i: nat, add: set<Unit>, delete: set<Unit>)
    requires t.Valid() && i < |t.uids| && p.table == t && p.Ready()
    requires p.AssumesRequests(Flatten(t.uids[..i], t.chains), add, delete)
    requires forall c :: AllHold(p.rules, c) <==> FirstConsistent(t, i, c)
    modifies p`rules, p`assumptions, p`toInstall
    ensures p.Ready()
    ensures p.AssumesRequests(Flatten(t.uids[..i + 1], t.chains), add, delete)
    ensures forall c :: AllHold(p.rules, c) <==> FirstConsistent(t, i + 1, c)
  {
    var chain := t.chains[t.uids[i]];
    FlattenStep(t.uids, t.chains, i);
    assert Distinct(t.uids[..i + 1]);
    FlattenIsDistinct(t.uids[..i + 1], t.chains);
    p.ProcessUniverseVariable(chain, add, delete, Flatten(t.uids[..i], t.chains));
  }

  lemma ConsistentByPosition(t: Table)
    requires t.Valid()
    ensures forall c :: Consistent(t, c) <==> FirstConsistent(t, |t.uids|, c)
  {
    forall c | FirstConsistent(t, |t.uids|, c) ensures Consistent(t, c) {
      forall uid | uid in t.chains ensures ChainConsistent(t, t.chains[uid], c) {
        assert uid in t.uids;
      }
    }
  }

  // ---------- consequences of the encoding ----------

  /** Every rule has a negative literal, so choosing nothing satisfies all of them. */
  lemma NothingChosenHolds(rules: seq<Rule>, t: Table)
    requires AllWellShaped(rules, t)
    ensures AllHold(rules, {})
  {
    forall r | r in rules ensures RuleHolds(r, {}) {
      var it :| it in r && it.inverse == -1;
      assert ItemHolds(it, {});
    }
  }

  /** Chains of at most two units have at most one chosen unit. */
  lemma ShortChainsExclude(t: Table, chain: Chain, chosen: set<Unit>, i: nat, j: nat)
    requires ChainConsistent(t, chain, chosen)
    requires |chain| <= 2 && i < j < |chain|
    ensures !(chain[i] in chosen && chain[j] in chosen)
  {
  }
}
