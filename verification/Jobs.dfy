/** A job: its requests and the list of actions it will carry out (libpkg/pkg_jobs.c). */
module Jobs {
  import opened Lists
  import opened Packages

  datatype JobType = Fetch | Install | Upgrade | Deinstall | Autoremove

  predicate IsDelete(t: JobType) { t == Deinstall || t == Autoremove }

  predicate Installs(t: JobType) { t == Install || t == Upgrade }

  /** EPKG_OK, EPKG_AGAIN and EPKG_FATAL. */
  datatype Code = Ok | Again | Fatal

  datatype SolvedType = SolvedInstall | SolvedDelete | SolvedUpgrade | SolvedUpgradeRemove | SolvedFetch

  /** One action: items[0], for an upgrade also the item it replaces, and whether an
      upgrade was already split. */
  datatype Solved = Solved(kind: SolvedType, item: Unit, old_item: Option<Unit>, alreadyDeleted: bool)

  class Job {
    const kind: JobType
    var requestAdd: set<Unit>
    var requestDelete: set<Unit>
    var jobs: seq<Solved>
    var count: nat

    constructor (k: JobType)
      ensures kind == k && Valid()
      ensures requestAdd == {} && requestDelete == {} && jobs == [] && count == 0
    {
      kind, requestAdd, requestDelete, jobs, count := k, {}, {}, [], 0;
    }

    /** Delete jobs request only installed units to go, other jobs only remote units to come. */
    ghost predicate Valid()
      reads this
    {
      && (IsDelete(kind) ==> requestAdd == {})
      && (!IsDelete(kind) ==> requestDelete == {})
      && (forall u :: u in requestAdd ==> !u.pkg.installed)
      && (forall u :: u in requestDelete ==> u.pkg.installed)
      && count == |jobs|
    }

    /** pkg_jobs_add_req: idempotent; its two assertions are the precondition. */
    method AddReq(item: Unit)
      requires Valid() && item.pkg.installed == IsDelete(kind)
      modifies this`requestAdd, this`requestDelete
      ensures Valid()
      ensures requestAdd == if IsDelete(kind) then old(requestAdd) else old(requestAdd) + {item}
      ensures requestDelete == if IsDelete(kind) then old(requestDelete) + {item} else old(requestDelete)
    {
      if !IsDelete(kind) {
        requestAdd := requestAdd + {item};
      } else {
        requestDelete := requestDelete + {item};
      }
    }
  }
}
