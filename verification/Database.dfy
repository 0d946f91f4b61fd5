/** The tables behind the job queue and the project planner, and a database session: what
    is committed, and what the open transaction has made of it. */
module Database {
  import opened Text

  type WorkerId = nat
  type JobId = nat
  type ItemId = nat
  type TaskId = nat
  type ProjectId = nat

  datatype JobStatus = Queued | Running | Paused | Completed | Failed | Cancelled

  predicate Terminal(s: JobStatus) {
    s == Completed || s == Failed || s == Cancelled
  }

  /** What a job asks its handler to do. */
  datatype Work = ExecuteProject(project: ProjectId) | DevelopTask(task: TaskId) | OtherWork(kind: string)

  /** `project-exec:<id>`, `dev-workflow:<id>`, or any other idempotency key. */
  datatype Key = ProjectExec(project: ProjectId) | DevWorkflow(task: TaskId) | OtherKey(name: string)

  datatype Job = Job(work: Work, status: JobStatus, priority: int, attempts: nat, maxAttempts: int,
                     key: Option<Key>, workerId: Option<WorkerId>, progressPct: int,
                     result: Option<string>, error: Option<string>,
                     createdAt: int, scheduledAt: Option<int>, startedAt: Option<int>,
                     heartbeatAt: Option<int>, completedAt: Option<int>)

  /** A work item of a project; `Elsewhere` stands for the statuses no job looks for - planned,
      assigned, blocked, review, testing, done, archived - and a deleted row stays as `Gone`. */
  datatype ItemStatus = Backlog | InProgress | Elsewhere(name: string) | Gone

  datatype WorkItem = WorkItem(project: ProjectId, status: ItemStatus)

  datatype PlanStatus = NoPlan | Decomposed | Approved

  /** Rows are numbered in the order in which they are committed. A development task is the
      work item it was created for. */
  datatype Store = Store(jobs: seq<Job>, items: seq<WorkItem>, tasks: seq<ItemId>,
                         plans: map<ProjectId, PlanStatus>)

  /** What commits may do between two readings: rows are added, and an item keeps its project. */
  predicate Later(a: Store, b: Store) {
    && |b.jobs| >= |a.jobs| && |b.items| >= |a.items|
    && forall i :: 0 <= i < |a.items| ==> b.items[i].project == a.items[i].project
  }

  function PlanOf(s: Store, p: ProjectId): PlanStatus {
    if p in s.plans then s.plans[p] else NoPlan
  }

  class Session {
    var committed: Store
    var working: Store

    constructor (store: Store)
      ensures committed == working == store
    {
      committed, working := store, store;
    }

    /** A new transaction, or the next statement of one that has written nothing yet, sees what
        others have committed. */
    method Refresh(latest: Store)
      requires working == committed
      modifies this
      ensures committed == working == latest
    {
      committed, working := latest, latest;
    }

    method Commit()
      modifies this
      ensures committed == working == old(working)
    {
      committed := working;
    }

    method Rollback()
      modifies this
      ensures committed == working == old(committed)
    {
      working := committed;
    }
  }
}
