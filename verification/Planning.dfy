/** `project_decomposition.py`: a project's plan is decomposed into work items, again and again
    until it is approved, and its approval enqueues the execution job. Like a control call, each
    request checks what it has loaded and writes to what the tables are by then. */
module Planning {
  import opened Text
  import opened Database
  import opened JobQueue
  import opened JobProtocol

  datatype PlanError = NoProject | PlanLocked | NothingToApprove

  /** The ids of the project's items. */
  function ItemsOf(items: seq<WorkItem>, p: ProjectId): (r: set<ItemId>) {
    set i: ItemId | i < |items| && items[i].project == p
  }

  /** The doomed rows deleted, the others as they are. */
  function Cleared(items: seq<WorkItem>, doomed: set<ItemId>): (r: seq<WorkItem>)
    ensures |r| == |items|
  {
    seq(|items|, i requires 0 <= i < |items| => if i in doomed then items[i].(status := Gone) else items[i])
  }

  function NewItems(p: ProjectId, count: nat): (r: seq<WorkItem>)
    ensures |r| == count
  {
    seq(count, _ => WorkItem(p, Backlog))
  }

  class DecompositionService {
    const db: Session

    constructor (db: Session)
      ensures this.db == db
    {
      this.db := db;
    }

    /** The delete loop. */
    method Clear(doomed: set<ItemId>)
      modifies db
      ensures db.committed == old(db.committed)
      ensures db.working == old(db.working).(items := Cleared(old(db.working.items), doomed))
    {
      ghost var start := db.working;
      for i := 0 to |db.working.items|
        invariant db.committed == old(db.committed) && db.working == start.(items := db.working.items)
        invariant |db.working.items| == |start.items|
        invariant forall j :: 0 <= j < |start.items| ==>
                    db.working.items[j] == if j < i then Cleared(start.items, doomed)[j] else start.items[j]
      {
        if i in doomed {
          db.working := db.working.(items := db.working.items[i := db.working.items[i].(status := Gone)]);
        }
      }
      assert db.working.items == Cleared(start.items, doomed);
    }

    /** The nested loops over epics and the task template. */
    method CreateItems(p: ProjectId, epics: nat, template: nat)
      modifies db
      ensures db.committed == old(db.committed)
      ensures db.working == old(db.working).(items := old(db.working.items) + NewItems(p, epics * template))
    {
      ghost var start := db.working;
      ghost var made: nat := 0;
      assert start.items + NewItems(p, 0) == start.items;
      for e := 0 to epics
        invariant db.committed == old(db.committed) && made == e * template
        invariant db.working == start.(items := start.items + NewItems(p, made))
      {
        for k := 0 to template
          invariant db.committed == old(db.committed) && made == e * template + k
          invariant db.working == start.(items := start.items + NewItems(p, made))
        {
          assert start.items + NewItems(p, made) + [WorkItem(p, Backlog)] == start.items + NewItems(p, made + 1);
          db.working := db.working.(items := db.working.items + [WorkItem(p, Backlog)]);
          made := made + 1;
        }
        assert e * template + template == (e + 1) * template;
      }
    }

    /** `decompose`: refused for a missing project and an approved plan, otherwise the protocol's
        step from what others have committed by the time of the write. */
    method Decompose(p: ProjectId, epics: nat, template: nat, latest: Store, ghost s: State) returns (r: Result<nat, PlanError>)
      requires db.working == db.committed && Later(db.working, latest) && s.store == latest
      modifies db
      ensures r == Err(NoProject) <==> p !in old(db.working.plans)
      ensures r == Err(PlanLocked) <==> p in old(db.working.plans) && PlanOf(old(db.working), p) == Approved
      ensures r.Err? ==> r != Err(NothingToApprove) && db.working == db.committed == old(db.working)
      ensures r.Ok? ==>
                var e := Event.Decompose(p, ItemsOf(old(db.working.items), p), epics * template,
                                         PlanOf(old(db.working), p) != Decomposed);
                Enabled(s, e) && r == Ok(epics * template) && db.committed == latest && db.working == NextStore(s, e)
    {
      if p !in db.working.plans {
        return Err(NoProject);
      }
      if PlanOf(db.working, p) == Approved {
        return Err(PlanLocked);
      }
      var doomed := ItemsOf(db.working.items, p);
      var marks := PlanOf(db.working, p) != Decomposed;
      db.Refresh(latest);
      Clear(doomed);
      CreateItems(p, epics, template);
      if marks {
        db.working := db.working.(plans := db.working.plans[p := Decomposed]);
      }
      assert db.working.items == Decomposition(latest, p, doomed, epics * template, marks).items;
      return Ok(epics * template);
    }

    /** `approve_plan`: refused without a decomposed plan, otherwise the protocol's step. */
    method ApprovePlan(p: ProjectId, now: int, latest: Store, ghost s: State) returns (r: Result<JobId, PlanError>)
      requires db.working == db.committed && Later(db.working, latest) && s.store == latest
      modifies db
      ensures r == Err(NoProject) <==> p !in old(db.working.plans)
      ensures r == Err(NothingToApprove) <==> p in old(db.working.plans) && PlanOf(old(db.working), p) != Decomposed
      ensures r.Err? ==> r != Err(PlanLocked) && db.working == db.committed == old(db.working)
      ensures r.Ok? ==> db.committed == latest && db.working == NextStore(s, Event.Approve(p, now))
                        && r.value < |db.working.jobs| && db.working.jobs[r.value].key == Some(ProjectExec(p))
    {
      if p !in db.working.plans {
        return Err(NoProject);
      }
      if PlanOf(db.working, p) != Decomposed {
        return Err(NothingToApprove);
      }
      db.Refresh(latest);
      db.working := db.working.(plans := db.working.plans[p := Approved]);
      var queue := new JobQueue(db);
      var id := queue.Enqueue(ExecuteProject(p), 3, 0, Some(ProjectExec(p)), now);
      return Ok(id);
    }
  }

  /** A decomposition deletes the project's items that it had read, adds the new ones, and touches no
      other project; a plan that is not yet marked as decomposed becomes so. */
  lemma DecomposedExactly(read: Store, st: Store, p: ProjectId, count: nat, marks: bool)
    requires Later(read, st)
    ensures var st' := Decomposition(st, p, ItemsOf(read.items, p), count, marks);
            && |st'.items| == |st.items| + count && st'.jobs == st.jobs && st'.tasks == st.tasks
            && (forall i :: 0 <= i < |st.items| ==>
                  st'.items[i].project == st.items[i].project
                  && st'.items[i].status == if i < |read.items| && st.items[i].project == p then Gone else st.items[i].status)
            && (forall i :: |st.items| <= i < |st'.items| ==> st'.items[i].project == p && st'.items[i].status == Backlog)
            && (forall q :: PlanOf(st', q) == if q == p && marks then Decomposed else PlanOf(st, q))
  {
  }

  /** An approval marks the plan and, unless the project's execution was enqueued before, enqueues
      it: one job, due at once, with three attempts. */
  lemma ApprovedExactly(st: Store, p: ProjectId, now: int)
    ensures var st' := Approval(st, p, now);
            && st'.items == st.items && st'.tasks == st.tasks
            && (forall q :: PlanOf(st', q) == if q == p then Approved else PlanOf(st, q))
            && (if exists j :: 0 <= j < |st.jobs| && st.jobs[j].key == Some(ProjectExec(p)) then st'.jobs == st.jobs
                else && |st'.jobs| == |st.jobs| + 1 && st.jobs <= st'.jobs
                     && st'.jobs[|st.jobs|].work == ExecuteProject(p) && st'.jobs[|st.jobs|].key == Some(ProjectExec(p))
                     && Due(st'.jobs[|st.jobs|], now) && st'.jobs[|st.jobs|].maxAttempts == 3)
  {
  }

  /** Decomposing again leaves a backlog of exactly the new items, whatever was there before - and
      of those that others have added since the old ones were read. */
  lemma BacklogIsNew(read: Store, st: Store, p: ProjectId, count: nat, marks: bool, i: ItemId)
    requires Later(read, st)
    ensures IsBacklog(Decomposition(st, p, ItemsOf(read.items, p), count, marks).items, p, i)
            <==> |st.items| <= i < |st.items| + count || (i >= |read.items| && IsBacklog(st.items, p, i))
  {
  }
}
