/** Building the universe of candidate packages (libpkg/pkg_jobs_universe.c).

    The depth-first search over dependencies is mutually recursive; it ends because every
    package that is really added has a digest that was not seen before. */
module Universe {
  import opened CStrings
  import opened Lists
  import opened Packages
  import opened Jobs
  import opened Version
  import opened Newest

  /** What the databases answer: the installed package of a uid, the candidates of the
      repositories for a uid, and the repository packages that provide a shared library. */
  datatype Db = Db(
    local: map<Uid, Pkg>,
    remote: map<Uid, seq<Pkg>>,
    libs: map<string, seq<Pkg>>,
    needUpgrade: (Pkg, Pkg) -> bool
  ) {
    function Packages(): set<Pkg> {
      local.Values
      + (set u, p | u in remote && p in remote[u] :: p)
      + (set s, p | s in libs && p in libs[s] :: p)
    }

    function Digests(): set<string> { set p | p in Packages() :: p.digest }

    /** Lookups by uid return that uid, and the digest of a package covers its uid. */
    ghost predicate Valid() {
      && (forall u :: u in local ==> local[u].uid == u && local[u].installed)
      && (forall u, p :: u in remote && p in remote[u] ==> p.uid == u && !p.installed)
      && (forall s, p :: s in libs && p in libs[s] ==> !p.installed)
      && (forall p, q :: p in Packages() && q in Packages() && p.digest == q.digest ==> p.uid == q.uid)
    }
  }

  /** Dependency flags of one pass. */
  datatype Flags = Flags(reverse: bool, mirror: bool, forceLocal: bool, forceMissing: bool)

  /** Everything that stays fixed while a universe is built. */
  datatype Config = Config(db: Db, kind: JobType, recursive: bool, forceMissing: bool) {

    predicate Resolves(flags: Flags, uid: Uid) {
      || (!flags.mirror && uid in db.local)
      || (!flags.forceLocal && uid in db.remote && db.remote[uid] != [])
    }

    /** The passes over dependencies that a job of this kind makes for each package. */
    function Passes(): seq<Flags> {
      match kind
      case Fetch => if recursive then [Flags(false, true, false, forceMissing)] else []
      case Install => [Flags(false, false, false, forceMissing), Flags(true, false, false, forceMissing)]
      case Upgrade => [Flags(false, false, false, forceMissing), Flags(true, false, false, forceMissing)]
      case Deinstall => if recursive then [Flags(true, false, true, forceMissing)] else []
      case Autoremove => []
    }
  }

  /** A package is done when its passes are; kinds of job with one pass, and with two. */
  lemma DoneByPasses(c: Config, t: Table, p: Pkg)
    requires Installs(c.kind) ==>
      && Covered(c, t, p, Flags(false, false, false, c.forceMissing))
      && Covered(c, t, p, Flags(true, false, false, c.forceMissing))
    requires c.kind == Fetch && c.recursive ==> Covered(c, t, p, Flags(false, true, false, c.forceMissing))
    requires c.kind == Deinstall && c.recursive ==> Covered(c, t, p, Flags(true, false, true, c.forceMissing))
    ensures PassesDone(c, t, p)
  {
  }

  lemma CoveredStays(c: Config, a: Table, b: Table, p: Pkg, flags: Flags)
    requires Grows(a, b) && Covered(c, a, p, flags)
    ensures Covered(c, b, p, flags)
  {
  }

  lemma IsPass(c: Config, reverse: bool)
    ensures Installs(c.kind) ==> Flags(reverse, false, false, c.forceMissing) in c.Passes()
    ensures c.kind == Fetch && c.recursive ==> Flags(false, true, false, c.forceMissing) in c.Passes()
    ensures c.kind == Deinstall && c.recursive ==> Flags(true, false, true, c.forceMissing) in c.Passes()
  {
    if Installs(c.kind) {
      assert c.Passes()[if reverse then 1 else 0] == Flags(reverse, false, false, c.forceMissing);
    }
  }

  lemma StaysWithin(c: Config, t: Table, seen: map<string, Unit>, bound: set<Uid>, u: Unit, flags: Flags, d: Uid)
    requires c.db.Valid() && Sourced(c, t, seen, bound) && (c.kind == Deinstall ==> RdepsStay(c.db, bound))
    requires t.Has(u) && flags in c.Passes() && d in Next(u.pkg, flags) && d in c.db.local
    ensures c.kind == Deinstall ==> d in bound
  {
    if c.kind == Deinstall {
      InstalledIsLocal(c.db, u.pkg);
    }
  }

  lemma DeinstallIsLocal(c: Config, flags: Flags)
    requires flags in c.Passes()
    ensures IsDelete(c.kind) ==> flags.forceLocal
  {
  }

  function Next(p: Pkg, flags: Flags): seq<Uid> {
    if flags.reverse then p.rdeps else p.deps
  }

  // ---------- closure, stated on tables ----------

  /** All uids this pass follows from p that the databases know are in the table. */
  ghost predicate Covered(c: Config, t: Table, p: Pkg, flags: Flags) {
    forall d :: d in Next(p, flags) && c.Resolves(flags, d) ==> d in t.chains
  }

  ghost predicate PassesDone(c: Config, t: Table, p: Pkg) {
    forall flags :: flags in c.Passes() ==> Covered(c, t, p, flags)
  }

  /** A library that the repositories provide has recorded providers. */
  predicate LibKnown(c: Config, t: Table, shlib: string) {
    shlib in c.db.libs && c.db.libs[shlib] != [] ==> shlib in t.providers
  }

  /** The libraries a package to be installed requires have been looked up. */
  ghost predicate LibsKnown(c: Config, t: Table, p: Pkg) {
    Installs(c.kind) && !p.installed ==> forall k :: 0 <= k < |p.shlibsRequired| ==> LibKnown(c, t, p.shlibsRequired[k])
  }

  /** The repositories have a candidate for the uid. */
  predicate Offered(db: Db, uid: Uid) {
    uid in db.remote && db.remote[uid] != []
  }

  /** A conflict of p with this uid cannot stay unnoticed: an installed package looks for repository
      candidates, any other for the installed package. */
  predicate ConflictKnown(c: Config, t: Table, p: Pkg, uid: Uid) {
    (if p.installed then Offered(c.db, uid) else uid in c.db.local) ==> uid in t.chains
  }

  /** The uids a package conflicts with have been looked up. */
  ghost predicate ConflictsKnown(c: Config, t: Table, p: Pkg) {
    Installs(c.kind) ==> forall k :: 0 <= k < |p.conflicts| ==> ConflictKnown(c, t, p, p.conflicts[k].uid)
  }

  ghost predicate Done(c: Config, t: Table, p: Pkg) {
    PassesDone(c, t, p) && LibsKnown(c, t, p) && ConflictsKnown(c, t, p)
  }

  /** A package of the table names a uid that cannot be found, and that is not tolerated. */
  ghost predicate Broken(c: Config, t: Table) {
    exists x, flags, d :: t.Has(x) && flags in c.Passes() && d in Next(x.pkg, flags)
      && !flags.forceMissing && !c.Resolves(flags, d)
  }

  ghost predicate Grows(a: Table, b: Table) {
    && (forall u :: u in a.chains ==> u in b.chains && a.chains[u] <= b.chains[u])
    && (forall x :: a.Has(x) ==> b.Has(x))
    && a.providers.Keys <= b.providers.Keys
  }

  /** Nothing is broken, and every unit that came in between a and b is done. */
  ghost predicate NewDone(c: Config, a: Table, b: Table) {
    forall x :: b.Has(x) && !a.Has(x) ==> Done(c, b, x.pkg)
  }

  /** The unit is the package that was added; with a repository candidate the installed package of the
      same uid is shut out. */
  ghost predicate Joined(a: Table, b: Table, pkg: Pkg, found: Unit) {
    && found.pkg == pkg && (!pkg.installed ==> NoneJoined(a, b, pkg.uid))
    && (pkg.uid !in a.chains ==> HeadIs(b, pkg.uid, found))
  }

  predicate HeadIs(t: Table, uid: Uid, u: Unit) {
    uid in t.chains && t.chains[uid] != [] && t.chains[uid][0] == u
  }

  lemma NewChainHead(a: Table, b: Table, d: Table, u: Unit)
    requires OneMore(a, b, u) && Grows(b, d) && u.pkg.uid !in a.chains
    ensures HeadIs(d, u.pkg.uid, u)
  {
    assert b.Has(u) && Table.ChainOf(u.pkg.uid, b.chains[u.pkg.uid]) && b.Has(b.chains[u.pkg.uid][0]);
  }

  lemma GrowsTransitive(a: Table, b: Table, d: Table)
    requires Grows(a, b) && Grows(b, d)
    ensures Grows(a, d)
  {
  }

  lemma BrokenStays(c: Config, a: Table, b: Table)
    requires Grows(a, b) && Broken(c, a)
    ensures Broken(c, b)
  {
    var x, flags, d :| a.Has(x) && flags in c.Passes() && d in Next(x.pkg, flags)
      && !flags.forceMissing && !c.Resolves(flags, d);
    assert b.Has(x);
  }

  lemma StaysDone(c: Config, a: Table, b: Table, p: Pkg)
    requires Grows(a, b) && Done(c, a, p)
    ensures Done(c, b, p)
  {
    forall flags | flags in c.Passes() ensures Covered(c, b, p, flags) {
      CoveredStays(c, a, b, p, flags);
    }
  }

  lemma NewDoneTransitive(c: Config, a: Table, b: Table, d: Table)
    requires Grows(a, b) && Grows(b, d) && NewDone(c, a, b) && NewDone(c, b, d)
    ensures NewDone(c, a, d)
  {
    forall x | d.Has(x) && !a.Has(x) ensures Done(c, d, x.pkg) {
      if b.Has(x) { StaysDone(c, b, d, x.pkg); }
    }
  }

  /** One stretch of the search: units only come in, and either something is broken or every
      unit that came in is done. */
  ghost predicate Step(c: Config, a: Table, b: Table) {
    Grows(a, b) && InstalledFirst(a, b) && (Broken(c, b) || NewDone(c, a, b))
  }

  /** An installed package comes in only while its uid has no chain. */
  ghost predicate InstalledFirst(a: Table, b: Table) {
    forall x :: b.Has(x) && !a.Has(x) && x.pkg.installed ==> x.pkg.uid !in a.chains
  }

  /** No installed package of this uid came in. */
  ghost predicate NoneJoined(a: Table, b: Table, uid: Uid) {
    forall x :: b.Has(x) && !a.Has(x) && x.pkg.installed ==> x.pkg.uid != uid
  }

  lemma StepTransitive(c: Config, a: Table, b: Table, d: Table)
    requires Step(c, a, b) && Step(c, b, d)
    ensures Step(c, a, d)
  {
    GrowsTransitive(a, b, d);
    if !Broken(c, d) {
      if Broken(c, b) { BrokenStays(c, b, d); }
      NewDoneTransitive(c, a, b, d);
    }
  }

  // ---------- adding one unit to the table ----------

  /** DL_APPEND to the chain of its uid, which is created when missing. */
  function AppendUnit(t: Table, item: Unit): Table {
    var uid := item.pkg.uid;
    if uid in t.chains
      then t.(chains := t.chains[uid := t.chains[uid] + [item]])
      else t.(uids := t.uids + [uid], chains := t.chains[uid := [item]])
  }

  lemma AppendUnitHas(t: Table, item: Unit)
    ensures forall x :: AppendUnit(t, item).Has(x) <==> t.Has(x) || x == item
  {
    var uid := item.pkg.uid;
    var chain := AppendUnit(t, item).chains[uid];
    assert forall x :: x in chain <==> (uid in t.chains && x in t.chains[uid]) || x == item;
  }

  lemma AppendUnitValid(t: Table, item: Unit)
    requires t.Valid() && !t.Has(item)
    ensures AppendUnit(t, item).Valid()
  {
    var uid := item.pkg.uid;
    if uid in t.chains {
      AppendedChain(uid, t.chains[uid], item);
    }
  }

  lemma AppendUnitEffect(t: Table, item: Unit)
    requires t.Valid() && !t.Has(item)
    ensures Grows(t, AppendUnit(t, item))
    ensures |Flatten(AppendUnit(t, item).uids, AppendUnit(t, item).chains)| == |Flatten(t.uids, t.chains)| + 1
  {
    AppendUnitHas(t, item);
    var uid := item.pkg.uid;
    if uid in t.chains {
      FlattenLongerChain(t.uids, t.chains, uid, item);
    } else {
      FlattenNewChain(t.uids, t.chains, uid, item);
    }
  }

  lemma AppendedChain(uid: Uid, chain: Chain, item: Unit)
    requires Table.ChainOf(uid, chain) && item !in chain && item.pkg.uid == uid
    ensures Table.ChainOf(uid, chain + [item])
  {
  }

  /** The digest table sends each digest of the universe to a unit with that digest, and
      nitems counts the units of all chains. */
  ghost predicate Indexed(t: Table, seen: map<string, Unit>, nitems: nat) {
    && t.Valid()
    && nitems == |Flatten(t.uids, t.chains)|
    && (forall x :: t.Has(x) ==> x.id < nitems && x.pkg.digest in seen)
    && (forall d :: d in seen ==> seen[d].pkg.digest == d && t.Has(seen[d]))
  }

  /** b is a with one more unit. */
  ghost predicate OneMore(a: Table, b: Table, item: Unit) {
    && a.Valid() && b.Valid() && Grows(a, b) && b.providers == a.providers
    && |Flatten(b.uids, b.chains)| == |Flatten(a.uids, a.chains)| + 1
    && forall x :: b.Has(x) <==> a.Has(x) || x == item
  }

  lemma AppendIsOneMore(t: Table, item: Unit)
    requires t.Valid() && !t.Has(item)
    ensures OneMore(t, AppendUnit(t, item), item)
  {
    AppendUnitHas(t, item);
    AppendUnitValid(t, item);
    AppendUnitEffect(t, item);
  }

  lemma IndexedStep(a: Table, b: Table, seen: map<string, Unit>, nitems: nat, item: Unit)
    requires Indexed(a, seen, nitems) && OneMore(a, b, item) && item.id == nitems
    ensures var d := item.pkg.digest;
      Indexed(b, if d in seen then seen else seen[d := item], nitems + 1)
  {
  }

  /** No installed package declares a conflict with an installed one that the repositories have a
      candidate for. */
  ghost predicate LocalsAgree(db: Db) {
    forall p, k :: p in db.local && k in db.local[p].conflicts ==> k.uid !in db.local || !Offered(db, k.uid)
  }

  /** The installed package of the uid is in the universe. */
  predicate LocalIn(db: Db, seen: map<string, Unit>, uid: Uid)
    requires uid in db.local
  {
    db.local[uid].digest in seen && seen[db.local[uid].digest].pkg.installed
  }

  /** A repository candidate joins only after the installed package of its uid, and an installed package
      only a chain of its own. */
  ghost predicate MayJoin(c: Config, t: Table, seen: map<string, Unit>, pkg: Pkg) {
    && (Installs(c.kind) && LocalsAgree(c.db) ==> pkg.installed || pkg.uid !in c.db.local || pkg.uid in t.chains)
    && (pkg.installed && pkg.uid in t.chains ==> pkg.digest in seen)
  }

  ghost predicate LocalsJoin(c: Config, t: Table, seen: map<string, Unit>) {
    Installs(c.kind) && LocalsAgree(c.db) ==>
      forall uid :: uid in t.chains && uid in c.db.local ==> LocalIn(c.db, seen, uid)
  }

  /** Units hold packages of the databases, and none is added twice: each is the unit its digest
      leads to. Jobs that delete only look at installed packages, and a deinstall job only at those
      within its bound. For other jobs installed packages come first. */
  ghost predicate Sourced(c: Config, t: Table, seen: map<string, Unit>, bound: set<Uid>) {
    && (forall x :: t.Has(x) ==> x.pkg in c.db.Packages())
    && (forall x :: t.Has(x) ==> x.pkg.digest in seen && seen[x.pkg.digest] == x)
    && (IsDelete(c.kind) ==> forall x :: t.Has(x) ==> x.pkg.installed)
    && (c.kind == Deinstall ==> forall x :: t.Has(x) ==> x.pkg.uid in bound)
    && LocalsJoin(c, t, seen)
  }

  lemma LocalsJoinStep(c: Config, a: Table, b: Table, seen: map<string, Unit>, item: Unit)
    requires c.db.Valid() && LocalsJoin(c, a, seen) && OneMore(a, b, item) && item.pkg.digest !in seen
    requires item.pkg in c.db.Packages() && MayJoin(c, a, seen, item.pkg)
    ensures LocalsJoin(c, b, seen[item.pkg.digest := item])
  {
    forall uid | uid in b.chains ensures uid in a.chains || uid == item.pkg.uid {
      assert Table.ChainOf(uid, b.chains[uid]) && b.Has(b.chains[uid][0]);
    }
    if item.pkg.installed {
      InstalledIsLocal(c.db, item.pkg);
    }
  }

  /** The installed package behind a unit. */
  lemma InstalledIsLocal(db: Db, p: Pkg)
    requires db.Valid() && p in db.Packages() && p.installed
    ensures p.uid in db.local && p == db.local[p.uid]
  {
  }

  lemma SourcedStep(c: Config, a: Table, b: Table, seen: map<string, Unit>, bound: set<Uid>, item: Unit)
    requires Sourced(c, a, seen, bound) && OneMore(a, b, item) && item.pkg.digest !in seen
    requires item.pkg in c.db.Packages() && (IsDelete(c.kind) ==> item.pkg.installed)
    requires c.kind == Deinstall ==> item.pkg.uid in bound
    requires c.db.Valid() && MayJoin(c, a, seen, item.pkg)
    ensures Sourced(c, b, seen[item.pkg.digest := item], bound)
  {
    LocalsJoinStep(c, a, b, seen, item);
  }

  lemma SourcedSame(c: Config, a: Table, b: Table, seen: map<string, Unit>, bound: set<Uid>)
    requires Sourced(c, a, seen, bound) && a.chains == b.chains && a.providers.Keys <= b.providers.Keys
    ensures Sourced(c, b, seen, bound) && Step(c, a, b) && Broken(c, b) == Broken(c, a)
  {
    assert forall x :: b.Has(x) <==> a.Has(x);
  }

  /** Reverse dependencies of installed packages within the bound are within it. */
  ghost predicate RdepsStay(db: Db, bound: set<Uid>) {
    forall q, d :: q in db.local && q in bound && d in db.local[q].rdeps && d in db.local ==> d in bound
  }

  // ---------- the universe ----------

  class Universe {
    const c: Config
    ghost const bound: set<Uid>         // what a deinstall job may reach
    var uids: seq<Uid>
    var chains: map<Uid, Chain>
    var providers: map<string, seq<Unit>>
    var seen: map<string, Unit>
    var nitems: nat

    constructor (config: Config, ghost reach: set<Uid>)
      ensures c == config && bound == reach && Valid()
      ensures uids == [] && chains == map[] && providers == map[] && seen == map[] && nitems == 0
    {
      c, bound := config, reach;
      uids, chains, providers, seen, nitems := [], map[], map[], map[], 0;
    }

    function T(): Table
      reads this
    {
      Table(uids, chains, providers)
    }

    ghost predicate Valid()
      reads this
    {
      Indexed(T(), seen, nitems)
    }

    ghost predicate FromDb()
      reads this
    {
      Sourced(c, T(), seen, bound) && (c.kind == Deinstall ==> RdepsStay(c.db, bound))
    }

    /** pkg_jobs_universe_add_pkg: add the package unless its digest was seen (or force). */
    method AddPkg(pkg: Pkg, force: bool) returns (added: bool, found: Unit)
      requires Valid()
      modifies this
      ensures Valid() && Grows(old(T()), T()) && providers == old(providers)
      ensures added == (force || pkg.digest !in old(seen))
      ensures !added ==> found == old(seen)[pkg.digest] && T() == old(T()) && seen == old(seen) && nitems == old(nitems)
      ensures added ==> found.pkg == pkg && nitems == old(nitems) + 1
      ensures added ==> OneMore(old(T()), T(), found)
      ensures added ==> seen == if pkg.digest in old(seen) then old(seen) else old(seen)[pkg.digest := found]
    {
      if pkg.digest in seen && !force {
        return false, seen[pkg.digest];
      }
      var item := Unit(nitems, pkg);
      Insert(item);
      IndexedStep(old(T()), T(), seen, nitems, item);
      if pkg.digest !in seen {
        seen := seen[pkg.digest := item];
      }
      nitems := nitems + 1;
      return true, item;
    }

    /** Between calls: the index is consistent and all units come from the databases. */
    ghost predicate Ready()
      reads this
    {
      Valid() && FromDb() && c.db.Valid()
    }

    /** Number of packages, by digest, that can still come in. */
    ghost function Left(): nat
      reads this
    {
      |c.db.Digests() - seen.Keys|
    }

    /** Adding a package of the databases that was not seen. */
    method AddNew(pkg: Pkg) returns (found: Unit)
      requires Ready() && pkg in c.db.Packages() && (IsDelete(c.kind) ==> pkg.installed) && pkg.digest !in seen
      requires (c.kind == Deinstall ==> pkg.uid in bound) && MayJoin(c, T(), seen, pkg)
      modifies this
      ensures Ready() && found.pkg == pkg && OneMore(old(T()), T(), found)
      ensures Left() < old(Left()) && old(seen.Keys) <= seen.Keys
    {
      var _, item := AddPkg(pkg, false);
      found := item;
      SourcedStep(c, old(T()), T(), old(seen), bound, found);
      LeftDecreases(c.db.Digests(), old(seen.Keys), seen.Keys, pkg.digest);
    }

    /** pkg_jobs_universe_process_item: add the package and everything its job has to look at. */
    method ProcessItem(pkg: Pkg) returns (rc: Code, found: Unit)
      requires Ready() && pkg in c.db.Packages() && (IsDelete(c.kind) ==> pkg.installed)
      requires (c.kind == Deinstall ==> pkg.uid in bound) && MayJoin(c, T(), seen, pkg)
      modifies this
      ensures Ready() && Step(c, old(T()), T()) && old(seen.Keys) <= seen.Keys
      ensures T().Has(found) && found.pkg.uid == pkg.uid && found.pkg.digest == pkg.digest
      ensures pkg.digest !in old(seen) ==> Joined(old(T()), T(), pkg, found)
      ensures !Broken(c, T()) ==> rc == Ok
      decreases Left(), 0
    {
      rc := Ok;
      if pkg.digest in seen {
        SeenHasChain(c, T(), seen, bound, pkg);
        return rc, seen[pkg.digest];
      }
      found := AddNew(pkg);
      ghost var t1 := T();
      rc := ProcessRest(found);
      ItemDone(c, old(T()), t1, T(), found);
    }

    /** The part of it that depends on the kind of job. */
    method ProcessRest(u: Unit) returns (rc: Code)
      requires Ready() && T().Has(u)
      modifies this
      ensures Ready() && Step(c, old(T()), T()) && old(seen.Keys) <= seen.Keys
      ensures !Broken(c, T()) ==> rc == Ok && Done(c, T(), u.pkg)
      decreases Left(), 9
    {
      rc := Ok;
      IsPass(c, true);
      match c.kind {
        case Fetch =>
          if c.recursive {
            rc := ProcessDeps(u, Flags(false, true, false, c.forceMissing));
          }
        case Install => rc := ProcessAll(u);
        case Upgrade => rc := ProcessAll(u);
        case Autoremove =>
        case Deinstall =>
          if c.recursive {
            rc := ProcessDeps(u, Flags(true, false, true, c.forceMissing));
          }
      }
      if !Installs(c.kind) && !Broken(c, T()) {
        DoneByPasses(c, T(), u.pkg);
      }
    }

    /** What install and upgrade jobs process: both passes, conflicts, shared libraries. */
    method ProcessAll(u: Unit) returns (rc: Code)
      requires Ready() && T().Has(u) && Installs(c.kind)
      modifies this
      ensures Ready() && Step(c, old(T()), T()) && old(seen.Keys) <= seen.Keys
      ensures !Broken(c, T()) ==> rc == Ok && Done(c, T(), u.pkg)
      decreases Left(), 8
    {
      rc := ProcessBothWays(u);
      if rc != Ok {
        return;
      }
      ghost var t1 := T();
      LeftMonotone(c.db.Digests(), old(seen.Keys), seen.Keys);
      rc := ProcessExtras(u);
      DoneStays(c, old(T()), t1, T(), u.pkg);
    }

    method ProcessExtras(u: Unit) returns (rc: Code)
      requires Ready() && T().Has(u) && Installs(c.kind)
      modifies this
      ensures Ready() && Step(c, old(T()), T()) && old(seen.Keys) <= seen.Keys
      ensures !Broken(c, T()) ==> rc == Ok && LibsKnown(c, T(), u.pkg)
      ensures ConflictsKnown(c, T(), u.pkg)
      decreases Left(), 7
    {
      rc := Ok;
      ProcessConflicts(u);
      if !u.pkg.installed {
        ghost var t1 := T();
        LeftMonotone(c.db.Digests(), old(seen.Keys), seen.Keys);
        rc := ProcessShlibs(u);
        StepTransitive(c, old(T()), t1, T());
      }
    }

    method ProcessBothWays(u: Unit) returns (rc: Code)
      requires Ready() && T().Has(u) && Installs(c.kind)
      modifies this
      ensures Ready() && Step(c, old(T()), T()) && old(seen.Keys) <= seen.Keys
      ensures !Broken(c, T()) ==> rc == Ok && PassesDone(c, T(), u.pkg)
      decreases Left(), 4
    {
      IsPass(c, false);
      IsPass(c, true);
      rc := ProcessDeps(u, Flags(false, false, false, c.forceMissing));
      ghost var t1 := T();
      if rc != Ok {
        return;
      }
      LeftMonotone(c.db.Digests(), old(seen.Keys), seen.Keys);
      rc := ProcessDeps(u, Flags(true, false, false, c.forceMissing));
      AllPasses(c, old(T()), t1, T(), u.pkg);
    }

    /** pkg_jobs_universe_process_conflicts */
    method ProcessConflicts(u: Unit)
      requires Ready() && T().Has(u) && Installs(c.kind)
      modifies this
      ensures Ready() && Step(c, old(T()), T()) && old(seen.Keys) <= seen.Keys
      ensures ConflictsKnown(c, T(), u.pkg)
      decreases Left(), 3
    {
      var i := 0;
      while i < |u.pkg.conflicts|
        invariant 0 <= i <= |u.pkg.conflicts|
        invariant Ready() && Step(c, old(T()), T()) && old(seen.Keys) <= seen.Keys
        invariant ConflictsKnownTo(c, T(), u.pkg, i)
      {
        ghost var t1 := T();
        LeftMonotone(c.db.Digests(), old(seen.Keys), seen.Keys);
        ProcessConflict(u, u.pkg.conflicts[i]);
        ConflictStep(c, old(T()), t1, T(), u.pkg, i);
        i := i + 1;
      }
    }

    method ProcessConflict(u: Unit, conflict: Conflict)
      requires Ready() && T().Has(u) && Installs(c.kind) && conflict in u.pkg.conflicts
      modifies this
      ensures Ready() && Step(c, old(T()), T()) && old(seen.Keys) <= seen.Keys
      ensures ConflictKnown(c, T(), u.pkg, conflict.uid)
      ensures u.pkg.installed && Offered(c.db, conflict.uid) && conflict.uid !in old(chains) ==>
        NoneJoined(old(T()), T(), conflict.uid)
      ensures conflict.uid !in old(chains) && BringsCandidate(c, u.pkg, conflict) ==>
        CandidateSeen(c, conflict.uid, seen) || Broken(c, T())
      decreases Left(), 2
    {
      var uid := conflict.uid;
      if uid in chains {
        return;
      }
      if u.pkg.installed {
        InstalledIsLocal(c.db, u.pkg);
        AddRemote(uid);
      } else if uid in c.db.local {
        assert c.db.local[uid] in c.db.Packages();
        var code, _ := ProcessItem(c.db.local[uid]);
        if code == Ok && conflict.kind != RemoteLocal {
          ghost var t1 := T();
          LeftMonotone(c.db.Digests(), old(seen.Keys), seen.Keys);
          AddRemote(uid);
          StepTransitive(c, old(T()), t1, T());
        }
      }
    }

    /** The repository candidate of a uid, if there is one. */
    method AddRemote(uid: Uid)
      requires Ready() && Installs(c.kind)
      requires LocalsAgree(c.db) ==> uid !in c.db.local || uid in chains || !Offered(c.db, uid)
      modifies this
      ensures Ready() && Step(c, old(T()), T()) && old(seen.Keys) <= seen.Keys
      ensures Offered(c.db, uid) ==> uid in chains
      ensures Offered(c.db, uid) && uid !in old(chains) ==> NoneJoined(old(T()), T(), uid)
      ensures Offered(c.db, uid) && !old(RemoteHead(uid)) ==> CandidateSeen(c, uid, seen)
      decreases Left(), 1
    {
      var npkg := GetRemote(uid);
      if npkg.Some? {
        SeenHasChain(c, T(), seen, bound, npkg.value);
        var _, _ := ProcessItem(npkg.value);
      }
    }

    /** pkg_jobs_universe_process_shlibs: bring in the providers of each required library. */
    method ProcessShlibs(u: Unit) returns (rc: Code)
      requires Ready() && T().Has(u) && Installs(c.kind)
      modifies this
      ensures Ready() && Step(c, old(T()), T()) && old(seen.Keys) <= seen.Keys
      ensures !Broken(c, T()) ==> rc == Ok && LibsKnown(c, T(), u.pkg)
      decreases Left(), 6
    {
      rc := Ok;
      var shlibs := u.pkg.shlibsRequired;
      var i := 0;
      while i < |shlibs|
        invariant 0 <= i <= |shlibs| && rc == Ok
        invariant Ready() && Step(c, old(T()), T()) && old(seen.Keys) <= seen.Keys
        invariant !Broken(c, T()) ==> LibsKnownTo(c, T(), shlibs, i)
      {
        ghost var t1 := T();
        if shlibs[i] !in providers && shlibs[i] in c.db.libs {
          LeftMonotone(c.db.Digests(), old(seen.Keys), seen.Keys);
          rc := ProcessShlib(shlibs[i]);
        }
        LibStep(c, old(T()), t1, T(), shlibs, i);
        if rc != Ok {
          return;
        }
        i := i + 1;
      }
    }

    /** All repository packages that provide one library. */
    method ProcessShlib(shlib: string) returns (rc: Code)
      requires Ready() && shlib in c.db.libs && Installs(c.kind)
      modifies this
      ensures Ready() && Step(c, old(T()), T()) && old(seen.Keys) <= seen.Keys
      ensures !Broken(c, T()) ==> rc == Ok && LibKnown(c, T(), shlib)
      decreases Left(), 5
    {
      rc := Ok;
      var first := true;
      var i := 0;
      while i < |c.db.libs[shlib]|
        invariant 0 <= i <= |c.db.libs[shlib]| && rc == Ok
        invariant Ready() && Step(c, old(T()), T()) && old(seen.Keys) <= seen.Keys
        invariant !Broken(c, T()) && i > 0 ==> shlib in providers
      {
        ghost var t1 := T();
        LeftMonotone(c.db.Digests(), old(seen.Keys), seen.Keys);
        rc, first := ProcessProvider(shlib, c.db.libs[shlib][i], first);
        StepTransitive(c, old(T()), t1, T());
        if rc != Ok {
          return;
        }
        i := i + 1;
      }
    }

    method ProcessProvider(shlib: string, rpkg: Pkg, first: bool) returns (rc: Code, stillFirst: bool)
      requires Ready() && shlib in c.db.libs && rpkg in c.db.libs[shlib] && Installs(c.kind)
      modifies this
      ensures Ready() && Step(c, old(T()), T()) && old(seen.Keys) <= seen.Keys
      ensures !Broken(c, T()) ==> rc == Ok && shlib in providers
      decreases Left(), 4
    {
      stillFirst := first;
      var found;
      rc, found := ProvidingUnit(rpkg);
      if rc == Ok && found.Some? {
        ghost var t1 := T();
        AddProvider(shlib, found.value, first);
        StepTransitive(c, old(T()), t1, T());
        stillFirst := false;
      }
    }

    /** The unit that stands for one provider; none when its processing failed. */
    method ProvidingUnit(rpkg: Pkg) returns (rc: Code, found: Option<Unit>)
      requires Ready() && rpkg in c.db.Packages() && !rpkg.installed && Installs(c.kind)
      modifies this
      ensures Ready() && Step(c, old(T()), T()) && old(seen.Keys) <= seen.Keys
      ensures !Broken(c, T()) ==> rc == Ok && found.Some?
      ensures found.Some? ==> T().Has(found.value)
      decreases Left(), 3
    {
      rc, found := Ok, None;
      if rpkg.uid in chains {
        var unit := chains[rpkg.uid][0];
        if c.db.needUpgrade(rpkg, unit.pkg) {
          found := TryUnit(rpkg);
        } else {
          found := Some(unit);
        }
      } else if rpkg.uid in c.db.local {
        rc, found := LocalOrNewer(rpkg);
      } else if rpkg.digest in seen {
        found := Some(seen[rpkg.digest]);
      } else {
        var _, unit := ProcessItem(rpkg);
        found := Some(unit);
      }
    }

    /** Process a provider that is newer than what is there; on failure it is skipped. */
    method TryUnit(rpkg: Pkg) returns (found: Option<Unit>)
      requires Ready() && rpkg in c.db.Packages() && !rpkg.installed && Installs(c.kind) && rpkg.uid in chains
      modifies this
      ensures Ready() && Step(c, old(T()), T()) && old(seen.Keys) <= seen.Keys
      ensures !Broken(c, T()) ==> found.Some?
      ensures found.Some? ==> T().Has(found.value)
      decreases Left(), 1
    {
      var code, unit := ProcessItem(rpkg);
      found := if code == Ok then Some(unit) else None;
    }

    /** The installed package of the provider's uid, then the provider itself if it is newer. */
    method LocalOrNewer(rpkg: Pkg) returns (rc: Code, found: Option<Unit>)
      requires Ready() && rpkg in c.db.Packages() && !rpkg.installed && Installs(c.kind)
      requires rpkg.uid in c.db.local && rpkg.uid !in chains
      modifies this
      ensures Ready() && Step(c, old(T()), T()) && old(seen.Keys) <= seen.Keys
      ensures !Broken(c, T()) ==> rc == Ok && found.Some?
      ensures found.Some? ==> T().Has(found.value)
      decreases Left(), 2
    {
      var npkg := c.db.local[rpkg.uid];
      assert npkg in c.db.Packages();
      var code, unit := ProcessItem(npkg);
      if code != Ok {
        return Fatal, None;
      }
      rc, found := Ok, Some(unit);
      if c.db.needUpgrade(rpkg, npkg) {
        ghost var t1 := T();
        LeftMonotone(c.db.Digests(), old(seen.Keys), seen.Keys);
        found := TryUnit(rpkg);
        StepTransitive(c, old(T()), t1, T());
      }
    }

    /** A fresh list for the library, or one more provider on the list just made. */
    method AddProvider(shlib: string, unit: Unit, first: bool)
      requires Ready() && T().Has(unit)
      modifies this`providers
      ensures Ready() && Step(c, old(T()), T()) && shlib in providers && Broken(c, T()) == Broken(c, old(T()))
    {
      var before := if first || shlib !in providers then [] else providers[shlib];
      ProviderAdded(T(), seen, nitems, shlib, before, unit);
      providers := providers[shlib := before + [unit]];
      SourcedSame(c, old(T()), T(), seen, bound);
    }

    /** pkg_jobs_universe_process_deps: one pass over the (reverse) dependencies of a unit. */
    method ProcessDeps(u: Unit, flags: Flags) returns (rc: Code)
      requires Ready() && T().Has(u) && flags in c.Passes()
      modifies this
      ensures Ready() && Step(c, old(T()), T()) && old(seen.Keys) <= seen.Keys
      ensures !Broken(c, T()) ==> rc == Ok && Covered(c, T(), u.pkg, flags)
      decreases Left(), 3
    {
      var next := Next(u.pkg, flags);
      rc := Ok;
      var i := 0;
      while i < |next|
        invariant 0 <= i <= |next| && rc == Ok
        invariant Ready() && Step(c, old(T()), T()) && old(seen.Keys) <= seen.Keys
        invariant !Broken(c, T()) ==> CoveredTo(c, T(), u.pkg, flags, i)
      {
        ghost var t1 := T();
        LeftMonotone(c.db.Digests(), old(seen.Keys), seen.Keys);
        rc := ProcessDep(u, flags, next[i]);
        CoveredStep(c, old(T()), t1, T(), u.pkg, flags, i);
        if rc != Ok {
          return;
        }
        i := i + 1;
      }
    }

    /** One round of that pass. */
    method ProcessDep(u: Unit, flags: Flags, uid: Uid) returns (rc: Code)
      requires Ready() && T().Has(u) && flags in c.Passes() && uid in Next(u.pkg, flags)
      modifies this
      ensures Ready() && Step(c, old(T()), T()) && old(seen.Keys) <= seen.Keys
      ensures !Broken(c, T()) ==> rc == Ok && (c.Resolves(flags, uid) ==> uid in chains)
      ensures !Broken(c, T()) && uid !in old(chains) ==> Considered(c, flags, uid, seen)
      decreases Left(), 2
    {
      rc := Ok;
      if uid in chains {
        return;
      }
      var npkg, rpkg := FindBoth(flags, uid);
      if npkg.None? && rpkg.None? {
        if !flags.forceMissing {
          Unresolved(c, T(), u, flags, uid);
          rc := Fatal;
        }
        return;
      }
      if npkg.Some? {
        StaysWithin(c, T(), seen, bound, u, flags, uid);
      }
      AddBoth(flags, uid, npkg, rpkg);
      if !Broken(c, T()) {
        FoundIsConsidered(c, flags, uid, npkg, rpkg, seen);
      }
    }

    /** The packages a followed uid stands for: the installed one, and the repository candidate
        when there is no installed one or it needs the upgrade. */
    method FindBoth(flags: Flags, uid: Uid) returns (npkg: Option<Pkg>, rpkg: Option<Pkg>)
      requires Ready() && flags in c.Passes() && uid !in chains
      ensures Found(c, flags, uid, npkg, rpkg)
    {
      npkg, rpkg := None, None;
      if !flags.mirror && uid in c.db.local {
        npkg := Some(c.db.local[uid]);
      }
      if !flags.forceLocal {
        rpkg := GetRemote(uid);
        if rpkg.Some? && npkg.Some? && !c.db.needUpgrade(rpkg.value, npkg.value) {
          rpkg := None;
        }
      }
    }

    method AddBoth(flags: Flags, uid: Uid, npkg: Option<Pkg>, rpkg: Option<Pkg>)
      requires Ready() && flags in c.Passes() && Found(c, flags, uid, npkg, rpkg) && (npkg.Some? || rpkg.Some?)
      requires uid !in chains && (c.kind == Deinstall && npkg.Some? ==> uid in bound)
      modifies this
      ensures Ready() && Step(c, old(T()), T()) && old(seen.Keys) <= seen.Keys
      ensures !Broken(c, T()) ==> uid in chains
      ensures !Broken(c, T()) ==> InSeen(npkg, seen) && InSeen(rpkg, seen)
      decreases Left(), 1
    {
      DeinstallIsLocal(c, flags);
      ghost var t1 := T();
      if npkg.Some? {
        var code, _ := ProcessItem(npkg.value);
        if code != Ok {
          return;
        }
        t1 := T();
      }
      if rpkg.Some? {
        LeftMonotone(c.db.Digests(), old(seen.Keys), seen.Keys);
        var _, _ := ProcessItem(rpkg.value);
        StepTransitive(c, old(T()), t1, T());
      }
    }

    /** The chain of a uid starts with a remote unit. */
    predicate RemoteHead(uid: Uid)
      requires Valid()
      reads this
    {
      uid in chains && !Head(uid).pkg.installed
    }

    function Head(uid: Uid): Unit
      requires Valid() && uid in chains
      reads this
    {
      assert Table.ChainOf(uid, T().chains[uid]);
      chains[uid][0]
    }

    /** pkg_jobs_universe_get_remote: the unit the chain of the uid starts with if it is remote,
        otherwise the first of the newest candidates. */
    method GetRemote(uid: Uid) returns (r: Option<Pkg>)
      requires Ready()
      ensures RemoteHead(uid) ==> r == Some(Head(uid).pkg)
      ensures !RemoteHead(uid) ==>
        && (r.Some? <==> uid in c.db.remote && c.db.remote[uid] != [])
        && (r.Some? ==> FirstNewest(c.db.remote[uid], r.value))
      ensures r.Some? ==> r.value in c.db.Packages() && r.value.uid == uid && !r.value.installed
    {
      r := None;
      if uid in chains && !Head(uid).pkg.installed {
        assert Table.ChainOf(uid, T().chains[uid]) && T().Has(Head(uid));
        return Some(Head(uid).pkg);
      }
      if uid in c.db.remote {
        r := NewestCandidate(c.db.remote[uid]);
      }
    }

    /** HASH_ADD when the uid is new, then DL_APPEND. */
    method Insert(item: Unit)
      requires T().Valid() && !T().Has(item)
      modifies this`uids, this`chains
      ensures OneMore(old(T()), T(), item)
    {
      AppendIsOneMore(T(), item);
      var pkg := item.pkg;
      if pkg.uid !in chains {
        uids := uids + [pkg.uid];
        chains := chains[pkg.uid := [item]];
      } else {
        chains := chains[pkg.uid := chains[pkg.uid] + [item]];
      }
      assert T() == AppendUnit(old(T()), item);
    }
  }

  /** An installed package looks for candidates it conflicts with; a new one does so when the other package
      is installed too, unless the conflict is with installed packages only. */
  predicate BringsCandidate(c: Config, p: Pkg, k: Conflict) {
    Offered(c.db, k.uid) && (p.installed || (k.kind != RemoteLocal && k.uid in c.db.local))
  }

  /** The first of the newest candidates of the uid came in. */
  ghost predicate CandidateSeen(c: Config, uid: Uid, seen: map<string, Unit>) {
    Offered(c.db, uid) && exists r :: FirstNewest(c.db.remote[uid], r) && r.digest in seen
  }

  /** The installed package of a uid was looked at, and the newest candidate of the repositories
      when there is no installed one or it needs the upgrade. */
  ghost predicate Considered(c: Config, flags: Flags, uid: Uid, seen: map<string, Unit>) {
    var localKnown := !flags.mirror && uid in c.db.local;
    && (localKnown ==> c.db.local[uid].digest in seen)
    && (!flags.forceLocal && uid in c.db.remote && c.db.remote[uid] != [] ==>
          exists r :: FirstNewest(c.db.remote[uid], r)
            && (!localKnown || c.db.needUpgrade(r, c.db.local[uid]) ==> r.digest in seen))
  }

  /** What a followed uid stands for. */
  ghost predicate Found(c: Config, flags: Flags, uid: Uid, npkg: Option<Pkg>, rpkg: Option<Pkg>) {
    && npkg == (if !flags.mirror && uid in c.db.local then Some(c.db.local[uid]) else None)
    && (rpkg.Some? ==>
          !flags.forceLocal && rpkg.value in c.db.Packages() && rpkg.value.uid == uid && !rpkg.value.installed)
    && (!flags.forceLocal && uid in c.db.remote && c.db.remote[uid] != [] ==>
          exists r :: FirstNewest(c.db.remote[uid], r)
            && rpkg == if npkg.None? || c.db.needUpgrade(r, npkg.value) then Some(r) else None)
  }

  predicate InSeen(p: Option<Pkg>, seen: map<string, Unit>) {
    p.Some? ==> p.value.digest in seen
  }

  lemma FoundIsConsidered(c: Config, flags: Flags, uid: Uid, npkg: Option<Pkg>, rpkg: Option<Pkg>,
                          seen: map<string, Unit>)
    requires Found(c, flags, uid, npkg, rpkg) && InSeen(npkg, seen) && InSeen(rpkg, seen)
    ensures Considered(c, flags, uid, seen)
  {
  }

  function VersionOf(p: Pkg): CString { p.version }

  predicate Any(p: Pkg) { true }

  /** p is the first of the newest candidates. */
  ghost predicate FirstNewest(candidates: seq<Pkg>, p: Pkg) {
    exists i: nat :: NewestOf(Any, OlderBy(VersionOf), candidates, |candidates|, i) && candidates[i] == p
  }

  /** The loop over the candidates of the repositories. */
  method NewestCandidate(candidates: seq<Pkg>) returns (r: Option<Pkg>)
    ensures r.Some? <==> candidates != []
    ensures r.Some? ==> r.value in candidates && FirstNewest(candidates, r.value)
  {
    r := None;
    var i := 0;
    ghost var at: nat := 0;
    ghost var older := OlderBy(VersionOf);
    OlderByIsWeakOrder(VersionOf);
    while i < |candidates|
      invariant 0 <= i <= |candidates|
      invariant (r.Some? <==> i > 0) && (r.None? ==> at == 0)
      invariant r.Some? ==> NewestOf(Any, older, candidates, i, at) && r.value == candidates[at]
    {
      if r.None? {
        r := Some(candidates[i]);
      } else {
        var cmp := VersionCmp(r.value.version, candidates[i].version);
        OlderByMeans(VersionOf, r.value, candidates[i]);
        if cmp == -1 {
          NewestMoves(Any, older, candidates, i, at);
          r, at := Some(candidates[i]), i;
        } else {
          NewestSkips(Any, older, candidates, i, at);
        }
      }
      i := i + 1;
    }
  }

  lemma LeftDecreases(all: set<string>, before: set<string>, after: set<string>, d: string)
    requires d in all && d !in before && after == before + {d}
    ensures |all - after| < |all - before|
  {
    assert all - before == (all - after) + {d};
  }

  lemma LeftMonotone(all: set<string>, before: set<string>, after: set<string>)
    requires before <= after
    ensures |all - after| <= |all - before|
  {
    assert all - before == (all - after) + (all * (after - before));
  }

  /** The unit just added is done when its passes are, so the whole stretch is. */
  lemma ItemDone(c: Config, a: Table, b: Table, d: Table, u: Unit)
    requires OneMore(a, b, u) && Step(c, b, d) && (u.pkg.installed ==> u.pkg.uid !in a.chains)
    requires !Broken(c, d) ==> Done(c, d, u.pkg)
    ensures Step(c, a, d) && Joined(a, d, u.pkg, u)
  {
    GrowsTransitive(a, b, d);
    assert b.Has(u);
    if u.pkg.uid !in a.chains {
      NewChainHead(a, b, d, u);
    }
  }

  /** A package whose digest was seen has a chain. */
  lemma SeenHasChain(c: Config, t: Table, seen: map<string, Unit>, bound: set<Uid>, p: Pkg)
    requires c.db.Valid() && Sourced(c, t, seen, bound) && p in c.db.Packages()
    requires forall d :: d in seen ==> seen[d].pkg.digest == d && t.Has(seen[d])
    ensures p.digest in seen ==> p.uid in t.chains && seen[p.digest].pkg.uid == p.uid
  {
  }

  /** The first n uids of the pass are covered. */
  ghost predicate CoveredTo(c: Config, t: Table, p: Pkg, flags: Flags, n: nat)
    requires n <= |Next(p, flags)|
  {
    forall k :: 0 <= k < n && c.Resolves(flags, Next(p, flags)[k]) ==> Next(p, flags)[k] in t.chains
  }

  lemma CoveredStep(c: Config, a: Table, b: Table, d: Table, p: Pkg, flags: Flags, i: nat)
    requires i < |Next(p, flags)| && Step(c, a, b) && Step(c, b, d)
    requires !Broken(c, b) ==> CoveredTo(c, b, p, flags, i)
    requires !Broken(c, d) && c.Resolves(flags, Next(p, flags)[i]) ==> Next(p, flags)[i] in d.chains
    ensures Step(c, a, d) && (!Broken(c, d) ==> CoveredTo(c, d, p, flags, i + 1))
  {
    StepTransitive(c, a, b, d);
    if !Broken(c, d) && Broken(c, b) {
      BrokenStays(c, b, d);
    }
  }

  lemma Unresolved(c: Config, t: Table, u: Unit, flags: Flags, uid: Uid)
    requires t.Has(u) && flags in c.Passes() && uid in Next(u.pkg, flags)
    requires !flags.forceMissing && !c.Resolves(flags, uid)
    ensures Broken(c, t)
  {
  }

  lemma ProviderAdded(t: Table, seen: map<string, Unit>, nitems: nat, shlib: string, before: seq<Unit>, unit: Unit)
    requires Indexed(t, seen, nitems) && t.Has(unit)
    requires before == [] || (shlib in t.providers && t.providers[shlib] == before)
    ensures Indexed(t.(providers := t.providers[shlib := before + [unit]]), seen, nitems)
  {
    var b := t.(providers := t.providers[shlib := before + [unit]]);
    assert forall x :: b.Has(x) <==> t.Has(x);
    forall s, p | s in b.providers && p in b.providers[s] ensures p.pkg.uid in b.chains {
      if s == shlib && p != unit { assert p in before; }
    }
  }

  lemma DoneStays(c: Config, a: Table, b: Table, d: Table, p: Pkg)
    requires Step(c, a, b) && Step(c, b, d)
    requires !Broken(c, b) ==> PassesDone(c, b, p)
    requires !Broken(c, d) ==> LibsKnown(c, d, p) && ConflictsKnown(c, d, p)
    ensures Step(c, a, d) && (!Broken(c, d) ==> Done(c, d, p))
  {
    StepTransitive(c, a, b, d);
    if !Broken(c, d) {
      if Broken(c, b) { BrokenStays(c, b, d); }
      forall flags | flags in c.Passes() ensures Covered(c, d, p, flags) {
        CoveredStays(c, b, d, p, flags);
      }
    }
  }

  ghost predicate ConflictsKnownTo(c: Config, t: Table, p: Pkg, n: nat)
    requires n <= |p.conflicts|
  {
    forall k :: 0 <= k < n ==> ConflictKnown(c, t, p, p.conflicts[k].uid)
  }

  lemma ConflictStep(c: Config, a: Table, b: Table, d: Table, p: Pkg, i: nat)
    requires i < |p.conflicts| && Step(c, a, b) && Step(c, b, d)
    requires ConflictsKnownTo(c, b, p, i) && ConflictKnown(c, d, p, p.conflicts[i].uid)
    ensures Step(c, a, d) && ConflictsKnownTo(c, d, p, i + 1)
  {
    StepTransitive(c, a, b, d);
  }

  ghost predicate LibsKnownTo(c: Config, t: Table, shlibs: seq<string>, n: nat)
    requires n <= |shlibs|
  {
    forall k :: 0 <= k < n ==> LibKnown(c, t, shlibs[k])
  }

  lemma LibStep(c: Config, a: Table, b: Table, d: Table, shlibs: seq<string>, i: nat)
    requires i < |shlibs| && Step(c, a, b) && (b == d || Step(c, b, d))
    requires !Broken(c, b) ==> LibsKnownTo(c, b, shlibs, i)
    requires !Broken(c, d) ==> LibKnown(c, d, shlibs[i])
    ensures Step(c, a, d) && (!Broken(c, d) ==> LibsKnownTo(c, d, shlibs, i + 1))
  {
    if b != d {
      StepTransitive(c, a, b, d);
      if Broken(c, b) { BrokenStays(c, b, d); }
    }
  }

  lemma AllPasses(c: Config, a: Table, b: Table, d: Table, p: Pkg)
    requires Installs(c.kind) && Step(c, a, b) && Step(c, b, d)
    requires !Broken(c, b) ==> Covered(c, b, p, Flags(false, false, false, c.forceMissing))
    requires !Broken(c, d) ==> Covered(c, d, p, Flags(true, false, false, c.forceMissing))
    ensures Step(c, a, d) && (!Broken(c, d) ==> PassesDone(c, d, p))
  {
    StepTransitive(c, a, b, d);
    if !Broken(c, d) {
      if Broken(c, b) { BrokenStays(c, b, d); }
      CoveredStays(c, b, d, p, Flags(false, false, false, c.forceMissing));
      DoneByPasses(c, d, p);
    }
  }

  lemma {:induction false} FlattenSame(uids: seq<Uid>, a: map<Uid, Chain>, b: map<Uid, Chain>)
    requires forall u :: u in uids ==> u in a && u in b && a[u] == b[u]
    ensures Flatten(uids, a) == Flatten(uids, b)
  {
    if uids != [] {
      FlattenSame(uids[..|uids| - 1], a, b);
    }
  }

  lemma FlattenNewChain(uids: seq<Uid>, chains: map<Uid, Chain>, uid: Uid, item: Unit)
    requires uid !in uids && forall u :: u in uids ==> u in chains
    ensures |Flatten(uids + [uid], chains[uid := [item]])| == |Flatten(uids, chains)| + 1
  {
    assert (uids + [uid])[..|uids|] == uids;
    FlattenSame(uids, chains, chains[uid := [item]]);
  }

  lemma {:induction false} FlattenLongerChain(uids: seq<Uid>, chains: map<Uid, Chain>, uid: Uid, item: Unit)
    requires uid in uids && Distinct(uids) && forall u :: u in uids ==> u in chains
    ensures |Flatten(uids, chains[uid := chains[uid] + [item]])| == |Flatten(uids, chains)| + 1
  {
    var front, last := uids[..|uids| - 1], uids[|uids| - 1];
    assert uids == front + [last];
    if last == uid {
      FlattenSame(front, chains, chains[uid := chains[uid] + [item]]);
    } else {
      FlattenLongerChain(front, chains, uid, item);
    }
  }
}
