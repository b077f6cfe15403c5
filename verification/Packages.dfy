/** Packages, universe units and the per-uid chains the solver works on
    (libpkg/private/pkg.h, libpkg/private/pkg_jobs.h). */
module Packages {
  import opened CStrings
  import opened Lists

  type Uid = string

  datatype ConflictType = All | RemoteLocal | RemoteRemote | LocalLocal

  datatype Conflict = Conflict(uid: Uid, kind: ConflictType)

  /** The fields of a package that the dependency solver reads. */
  datatype Pkg = Pkg(
    uid: Uid,
    digest: string,
    version: CString,
    installed: bool,
    locked: bool,
    automatic: bool,
    deps: seq<Uid>,
    rdeps: seq<Uid>,
    conflicts: seq<Conflict>,
    shlibsRequired: seq<string>
  )

  /** One universe item; `id` tells apart two items that hold the same package. */
  datatype Unit = Unit(id: nat, pkg: Pkg)

  type Chain = seq<Unit>

  /** All units of the listed chains, chain after chain. */
  function Flatten(uids: seq<Uid>, chains: map<Uid, Chain>): seq<Unit>
    requires forall u :: u in uids ==> u in chains
  {
    if uids == [] then []
    else Flatten(uids[..|uids| - 1], chains) + chains[uids[|uids| - 1]]
  }

  lemma {:induction false} FlattenIsDistinct(uids: seq<Uid>, chains: map<Uid, Chain>)
    requires Distinct(uids)
    requires forall u :: u in uids ==> u in chains && Table.ChainOf(u, chains[u])
    ensures Distinct(Flatten(uids, chains))
    ensures forall x :: x in Flatten(uids, chains) <==> x.pkg.uid in uids && x in chains[x.pkg.uid]
  {
    if uids != [] {
      var front, last := uids[..|uids| - 1], uids[|uids| - 1];
      FlattenIsDistinct(front, chains);
      assert uids == front + [last] && last !in front;
      var a, b := Flatten(front, chains), chains[last];
      forall x | x in b ensures x !in a {
      }
      assert forall i :: |a| <= i < |a + b| ==> (a + b)[i] in b;
      assert forall i :: 0 <= i < |a| ==> (a + b)[i] in a;
    }
  }

  /** The hash table of chains, in insertion order, and the providers of each shared library. */
  datatype Table = Table(uids: seq<Uid>, chains: map<Uid, Chain>, providers: map<string, seq<Unit>>) {

    ghost predicate Valid() {
      && Distinct(uids)
      && (forall u :: u in uids <==> u in chains)
      && (forall u :: u in chains ==> ChainOf(u, chains[u]))
      && (forall s, p :: s in providers && p in providers[s] ==> p.pkg.uid in chains)
      && (forall s :: s in providers ==> providers[s] != [])
    }

    static ghost predicate ChainOf(uid: Uid, chain: Chain) {
      && chain != []
      && Distinct(chain)
      && forall i :: 0 <= i < |chain| ==> chain[i].pkg.uid == uid
    }

    ghost predicate Has(u: Unit) {
      u.pkg.uid in chains && u in chains[u.pkg.uid]
    }

    function Units(): set<Unit> {
      set uid, u | uid in chains && u in chains[uid] :: u
    }
  }
}
