/** Exactly-once project execution (`job_worker.py`, `project_decomposition.py`): which items of a
    project get a development task and its workflow job, over every run of the protocol. */
module ExactlyOnce {
  import opened Text
  import opened Database
  import opened JobQueue
  import opened JobProtocol

  // ---------------------------------------------------------------------
  // Starting items
  // ---------------------------------------------------------------------

  lemma {:induction false} StartItemsEffect(st: Store, seen: seq<ItemId>, now: int)
    requires ItemsIn(st, seen)
    ensures var r := StartItems(st, seen, now);
            && r.plans == st.plans && r.tasks == st.tasks + seen
            && (forall i :: 0 <= i < |st.items| ==>
                  r.items[i] == if i in seen then st.items[i].(status := InProgress) else st.items[i])
    decreases |seen|
  {
    if seen != [] {
      var front, last := seen[..|seen| - 1], seen[|seen| - 1];
      StartItemsEffect(st, front, now);
      assert seen == front + [last];
      assert forall i :: i in seen <==> i in front || i == last;
      assert st.tasks + front + [last] == st.tasks + seen;
    }
  }

  lemma DistinctConcat(a: seq<ItemId>, b: seq<ItemId>)
    requires Distinct(a) && Distinct(b)
    ensures Distinct(a + b) <==> forall k :: 0 <= k < |b| ==> b[k] !in a
  {
    if k :| 0 <= k < |b| && b[k] in a {
      var l :| 0 <= l < |a| && a[l] == b[k];
      assert (a + b)[l] == (a + b)[|a| + k];
    }
  }

  /** The step commits a project execution. */
  ghost predicate Executes(s: State, e: Event) {
    e.Commit? && PhaseOf(s, e.w).Executing?
  }

  /** No item it read already has a task. */
  ghost predicate StartsNew(s: State, e: Event)
    requires Executes(s, e)
  {
    forall k :: 0 <= k < |PhaseOf(s, e.w).read.seen| ==> PhaseOf(s, e.w).read.seen[k] !in s.store.tasks
  }

  /** The commit of a project execution keeps at most one task for each item if and only if no
      item it read already has a task; no other step creates a task. */
  lemma ExecutionKeepsOnce(s: State, e: Event)
    requires Inv(s) && Enabled(s, e)
    ensures !Executes(s, e) ==> Next(s, e).store.tasks == s.store.tasks
    ensures Executes(s, e) ==> Next(s, e).store.tasks == s.store.tasks + PhaseOf(s, e.w).read.seen
    ensures Executes(s, e) && Distinct(s.store.tasks) ==> (Distinct(Next(s, e).store.tasks) <==> StartsNew(s, e))
  {
    hide Enumerates, IsCandidate, StartItems, AttemptsOk, WinOk, LookOk;
    if Executes(s, e) {
      assert PhaseOk(s, e.w, s.phases[e.w]);
      StartItemsEffect(s.store, PhaseOf(s, e.w).read.seen, e.now);
      if Distinct(s.store.tasks) {
        DistinctConcat(s.store.tasks, PhaseOf(s, e.w).read.seen);
      }
    }
  }

  /** Every project execution committed along the run starts new items only. */
  ghost predicate StartsNewAlong(s: State, es: seq<Event>)
    requires IsRun(s, es, false)
    decreases |es|
  {
    es == [] || ((Executes(s, es[0]) ==> StartsNew(s, es[0])) && StartsNewAlong(Next(s, es[0]), es[1..]))
  }

  lemma {:induction false} OnceAlongExactly(s: State, es: seq<Event>)
    requires Inv(s) && IsRun(s, es, false)
    ensures s.store.tasks <= After(s, es).store.tasks
    ensures Distinct(After(s, es).store.tasks) <==> Distinct(s.store.tasks) && StartsNewAlong(s, es)
    decreases |es|
  {
    hide Inv, Next, Enabled, StartsNew;
    if es != [] {
      InvStep(s, es[0]);
      ExecutionKeepsOnce(s, es[0]);
      OnceAlongExactly(Next(s, es[0]), es[1..]);
    }
  }

  /** Main result, for every interleaving: no item ever has two tasks if and only if no committed
      project execution had read an item that has a task by then. */
  lemma OncePerItemExactly(es: seq<Event>)
    requires IsRun(INIT, es, false)
    ensures (forall i: nat :: TasksOf(After(INIT, es).store.tasks, i) <= 1) <==> StartsNewAlong(INIT, es)
  {
    hide IsRun, After, Next, Enabled, StartsNewAlong;
    OnceAlongExactly(INIT, es);
    DistinctCounts(After(INIT, es).store.tasks);
  }

  /** How many tasks were created for the item. */
  ghost function TasksOf(tasks: seq<ItemId>, i: ItemId): nat {
    multiset(tasks)[i]
  }

  lemma {:induction false} DistinctCounts(tasks: seq<ItemId>)
    ensures Distinct(tasks) <==> forall i: nat :: TasksOf(tasks, i) <= 1
    ensures Distinct(tasks) ==> forall i: nat :: TasksOf(tasks, i) == if i in tasks then 1 else 0
  {
    if tasks != [] {
      var n := |tasks| - 1;
      var front, last := tasks[..n], tasks[n];
      DistinctCounts(front);
      assert tasks == front + [last];
      assert forall i: nat :: TasksOf(tasks, i) == TasksOf(front, i) + if i == last then 1 else 0;
      assert TasksOf(front, last) > 0 <==> last in front;
      if last in front {
        var l :| 0 <= l < n && front[l] == last;
        assert tasks[l] == tasks[n];
      }
    }
  }

  // ---------------------------------------------------------------------
  // Exactly-once project execution
  // ---------------------------------------------------------------------

  /** A key of these two kinds goes with the work it names, and only with it. */
  ghost predicate JobKeyOk(st: Store, job: Job) {
    && (job.key.Some? && job.key.value.DevWorkflow? ==> job.work == DevelopTask(job.key.value.task))
    && (job.work.DevelopTask? ==> job.key == Some(DevWorkflow(job.work.task)) && job.work.task < |st.tasks|)
    && (job.key.Some? && job.key.value.ProjectExec? ==> job.work == ExecuteProject(job.key.value.project))
    && (job.work.ExecuteProject? ==> job.key == Some(ProjectExec(job.work.project)))
  }

  /** An idempotency key names one job. */
  ghost predicate KeysOk(st: Store) {
    && (forall j :: 0 <= j < |st.jobs| ==> JobKeyOk(st, st.jobs[j]))
    && (forall i, j :: 0 <= i < j < |st.jobs| && st.jobs[i].key.Some? ==> st.jobs[i].key != st.jobs[j].key)
  }

  ghost predicate HasWorkflow(st: Store, t: TaskId) {
    exists j :: 0 <= j < |st.jobs| && st.jobs[j].key == Some(DevWorkflow(t))
  }

  /** No item has two tasks, and every task has its workflow job. */
  ghost predicate TasksOk(st: Store) {
    && Distinct(st.tasks)
    && (forall t :: 0 <= t < |st.tasks| ==> st.tasks[t] < |st.items| && HasWorkflow(st, t))
  }

  /** A reading of the project's backlog, from an item table that has only grown since. */
  ghost predicate ReadingOk(items: seq<WorkItem>, p: ProjectId, r: Reading) {
    && |r.items| <= |items|
    && (forall i :: 0 <= i < |r.items| ==> r.items[i].project == items[i].project)
    && Enumerates(r.items, p, r.seen)
  }

  ghost predicate ExecOk(s: State) {
    forall w :: w in s.phases && s.phases[w].Executing? ==>
      RunsProject(s.store, s.phases[w].job)
      && ReadingOk(s.store.items, s.store.jobs[s.phases[w].job].work.project, s.phases[w].read)
  }

  ghost predicate IsDone(st: Store, p: ProjectId, j: JobId) {
    RunsProject(st, j) && st.jobs[j].work.project == p && st.jobs[j].status == Completed
  }

  /** A committed execution has completed its job and given each item it had read a task. */
  ghost predicate ExecutedOk(st: Store, p: ProjectId, r: Reading) {
    && ReadingOk(st.items, p, r)
    && (exists j :: IsDone(st, p, j))
    && (forall k :: 0 <= k < |r.seen| ==> r.seen[k] in st.tasks)
  }

  /** The item's task comes from the committed execution of its project. */
  ghost predicate TaskOk(s: State, i: ItemId) {
    i < |s.store.items| && s.store.items[i].project in s.executed && i in s.executed[s.store.items[i].project].seen
  }

  ghost predicate DoneOk(s: State) {
    && (forall p :: p in s.executed ==> ExecutedOk(s.store, p, s.executed[p]))
    && (forall i :: i in s.store.tasks ==> TaskOk(s, i))
    && (forall p, j :: IsDone(s.store, p, j) ==> p in s.executed)
  }

  ghost predicate Once(s: State) {
    Inv(s) && Live(s) && KeysOk(s.store) && TasksOk(s.store) && ExecOk(s) && DoneOk(s)
  }

  // The keys and the tasks ----------------------------------------------

  lemma EnqueuedKeys(st: Store, work: Work, max: int, priority: int, key: Option<Key>, now: int)
    requires KeysOk(st) && TasksOk(st)
    requires JobKeyOk(st, NewJob(work, max, priority, key, now))
    ensures var st' := st.(jobs := Enqueued(st.jobs, work, max, priority, key, now));
            KeysOk(st') && TasksOk(st') && st'.jobs[..|st.jobs|] == st.jobs
  {
    var st' := st.(jobs := Enqueued(st.jobs, work, max, priority, key, now));
    forall j | 0 <= j < |st'.jobs| ensures JobKeyOk(st', st'.jobs[j]) {
      assert j < |st.jobs| ==> JobKeyOk(st, st.jobs[j]);
    }
    WorkflowsStay(st, st');
  }

  /** Workflow jobs stay when no key changes. */
  lemma WorkflowsStay(st: Store, st': Store)
    requires |st'.jobs| >= |st.jobs| && forall j :: 0 <= j < |st.jobs| ==> st'.jobs[j].key == st.jobs[j].key
    ensures forall t :: HasWorkflow(st, t) ==> HasWorkflow(st', t)
  {
    forall t | HasWorkflow(st, t) ensures HasWorkflow(st', t) {
      var j :| 0 <= j < |st.jobs| && st.jobs[j].key == Some(DevWorkflow(t));
      assert st'.jobs[j].key == Some(DevWorkflow(t));
    }
  }

  /** The handler's round for an item without a task. */
  lemma StartItemOnce(st: Store, i: ItemId, now: int)
    requires KeysOk(st) && TasksOk(st) && i < |st.items| && i !in st.tasks
    ensures KeysOk(StartItem(st, i, now)) && TasksOk(StartItem(st, i, now))
  {
    var t, r := |st.tasks|, StartItem(st, i, now);
    forall j | 0 <= j < |st.jobs| ensures JobKeyOk(r, st.jobs[j]) && st.jobs[j].key != Some(DevWorkflow(t)) {
      assert JobKeyOk(st, st.jobs[j]);
    }
    assert r.jobs == st.jobs + [NewJob(DevelopTask(t), 3, 0, Some(DevWorkflow(t)), now)];
    assert r.jobs[|st.jobs|].key == Some(DevWorkflow(t));
    WorkflowsStay(st, r);
  }

  lemma {:induction false} StartItemsOnce(st: Store, seen: seq<ItemId>, now: int)
    requires KeysOk(st) && TasksOk(st) && ItemsIn(st, seen) && Distinct(seen)
    requires forall k :: 0 <= k < |seen| ==> seen[k] !in st.tasks
    ensures KeysOk(StartItems(st, seen, now)) && TasksOk(StartItems(st, seen, now))
    decreases |seen|
  {
    hide KeysOk, TasksOk;
    if seen != [] {
      var front, last := seen[..|seen| - 1], seen[|seen| - 1];
      StartItemsOnce(st, front, now);
      StartItemsEffect(st, front, now);
      assert last !in front;
      StartItemOnce(StartItems(st, front, now), last, now);
    }
  }

  /** What starting items appends: for the k-th item its task, and a new job, due at once and with
      three attempts, that develops this task. */
  lemma {:induction false} StartedJobs(st: Store, seen: seq<ItemId>, now: int)
    requires KeysOk(st) && TasksOk(st) && ItemsIn(st, seen) && Distinct(seen)
    requires forall k :: 0 <= k < |seen| ==> seen[k] !in st.tasks
    ensures var r := StartItems(st, seen, now);
            && |r.jobs| == |st.jobs| + |seen| && r.jobs[..|st.jobs|] == st.jobs && r.tasks == st.tasks + seen
            && forall j :: |st.jobs| <= j < |r.jobs| ==> Develops(r.jobs[j], |st.tasks| + j - |st.jobs|, now)
    decreases |seen|
  {
    hide KeysOk, TasksOk;
    StartItemsEffect(st, seen, now);
    if seen != [] {
      var front, last := seen[..|seen| - 1], seen[|seen| - 1];
      StartedJobs(st, front, now);
      StartItemsOnce(st, front, now);
      StartItemsEffect(st, front, now);
      assert last !in front;
      KeyOfNewTask(StartItems(st, front, now));
    }
  }

  /** A job, not tried yet, for the development of the task. */
  predicate Develops(job: Job, t: TaskId, now: int) {
    && job.work == DevelopTask(t) && job.key == Some(DevWorkflow(t))
    && Due(job, now) && job.attempts == 0 && job.maxAttempts == 3
  }

  lemma KeyOfNewTask(st: Store)
    requires KeysOk(st)
    ensures FindKey(st.jobs, DevWorkflow(|st.tasks|)).None?
  {
    var found := FindKey(st.jobs, DevWorkflow(|st.tasks|));
    if found.Some? {
      assert JobKeyOk(st, st.jobs[found.value]);
    }
  }

  /** Tables with the same tasks and jobs with the same keys and work. */
  lemma SameKeys(st: Store, st': Store)
    requires KeysOk(st) && TasksOk(st)
    requires st'.tasks == st.tasks && |st'.items| >= |st.items| && |st'.jobs| == |st.jobs|
    requires forall j :: 0 <= j < |st.jobs| ==> st'.jobs[j].key == st.jobs[j].key && st'.jobs[j].work == st.jobs[j].work
    ensures KeysOk(st') && TasksOk(st')
  {
    forall j | 0 <= j < |st.jobs| ensures JobKeyOk(st', st'.jobs[j]) {
      assert JobKeyOk(st, st.jobs[j]);
    }
    WorkflowsStay(st, st');
  }

  lemma KeysStep(s: State, e: Event)
    requires Inv(s) && KeysOk(s.store) && TasksOk(s.store) && Enabled(s, e) && !Executes(s, e)
    ensures KeysOk(NextStore(s, e)) && TasksOk(NextStore(s, e))
  {
    hide Enumerates, IsCandidate, AttemptsOk, WinOk, PhaseOk, LookOk, KeysOk, TasksOk, AllMove;
    if e.Enqueue? {
      assert JobKeyOk(s.store, NewJob(e.work, e.maxAttempts, e.priority, e.key, e.now));
      EnqueuedKeys(s.store, e.work, e.maxAttempts, e.priority, e.key, e.now);
    } else if e.Approve? {
      var st := s.store.(plans := s.store.plans[e.project := Approved]);
      SameKeys(s.store, st);
      EnqueuedKeys(st, ExecuteProject(e.project), 3, 0, Some(ProjectExec(e.project)), e.now);
    } else {
      SameJobs(s, e);
      SameKeys(s.store, NextStore(s, e));
    }
  }

  lemma SameJobs(s: State, e: Event)
    requires Inv(s) && Enabled(s, e) && !Executes(s, e) && !e.Enqueue? && !e.Approve?
    ensures var st, st' := s.store, NextStore(s, e);
            && st'.tasks == st.tasks && |st'.items| >= |st.items| && |st'.jobs| == |st.jobs|
            && forall j :: 0 <= j < |st.jobs| ==> st'.jobs[j].key == st.jobs[j].key && st'.jobs[j].work == st.jobs[j].work
  {
    hide Enumerates, IsCandidate, AttemptsOk, WinOk, PhaseOk, LookOk;
  }

  // The readings and what was executed ----------------------------------

  lemma ReadingStays(items: seq<WorkItem>, items': seq<WorkItem>, p: ProjectId, r: Reading)
    requires ReadingOk(items, p, r) && |items'| >= |items|
    requires forall i :: 0 <= i < |items| ==> items'[i].project == items[i].project
    ensures ReadingOk(items', p, r)
  {
  }

  /** What a step other than the commit of an execution keeps. */
  lemma JobsStay(s: State, e: Event)
    requires Inv(s) && Live(s) && Enabled(s, e) && Disciplined(s, e) && !Executes(s, e)
    ensures var st, st' := s.store, NextStore(s, e);
            && |st'.items| >= |st.items| && (forall i :: 0 <= i < |st.items| ==> st'.items[i].project == st.items[i].project)
            && (forall j :: 0 <= j < |st.jobs| ==> st'.jobs[j].work == st.jobs[j].work)
            && (forall p, j :: IsDone(st', p, j) <==> IsDone(st, p, j))
  {
    hide AllMove, NextStore, NextHistory, NextPhases, NextLooks, AttemptsOk, WinOk, PhaseOk, LookOk, HolderOk, RunningOk;
    ItemsStay(s, e);
    ItemProjectsStay(s, e);
    JobsMove(s, e);
    forall p, j ensures IsDone(NextStore(s, e), p, j) <==> IsDone(s.store, p, j) {
      DoneStays(s, e, p, j);
    }
    WorkStays(s, e);
  }

  lemma WorkStays(s: State, e: Event)
    requires Inv(s) && Enabled(s, e)
    ensures forall j :: 0 <= j < |s.store.jobs| ==> NextStore(s, e).jobs[j].work == s.store.jobs[j].work
  {
    hide NextStore, NextHistory, NextPhases, NextLooks, AttemptsOk, WinOk, PhaseOk, LookOk, Enumerates, IsCandidate;
    JobsMove(s, e);
    forall j | 0 <= j < |s.store.jobs| ensures NextStore(s, e).jobs[j].work == s.store.jobs[j].work {
      assert Moves(s.store.jobs[j], s.history[j], Next(s, e).store.jobs[j], Next(s, e).history[j],
                   Wins(s, e) && PhaseOf(s, e.w).job == j);
    }
  }

  lemma ItemProjectsStay(s: State, e: Event)
    requires Enabled(s, e) && !Executes(s, e)
    ensures forall i :: 0 <= i < |s.store.items| ==> NextStore(s, e).items[i].project == s.store.items[i].project
  {
    hide Enumerates, IsCandidate;
  }

  lemma DoneStays(s: State, e: Event, p: ProjectId, j: JobId)
    requires Inv(s) && Live(s) && Enabled(s, e) && Disciplined(s, e) && !Executes(s, e)
    ensures IsDone(NextStore(s, e), p, j) <==> IsDone(s.store, p, j)
  {
    hide AttemptsOk, WinOk, PhaseOk, LookOk, Live, Enumerates, IsCandidate, Disciplined, NextStore;
    if j < |s.store.jobs| {
      WorkStays(s, e);
      if s.store.jobs[j].status == Completed {
        TerminalIsAbsorbing(s, e, j);
      } else if RunsProject(s.store, j) {
        NotCompleted(s, e, j);
      }
    } else if j < |NextStore(s, e).jobs| {
      NewJobsWait(s, e, j);
    }
  }

  lemma NewJobsWait(s: State, e: Event, j: JobId)
    requires Inv(s) && Enabled(s, e) && |s.store.jobs| <= j < |NextStore(s, e).jobs|
    ensures NextStore(s, e).jobs[j].status == Queued
  {
    hide Inv, NextStore, NextHistory, NextPhases, NextLooks, NextExecuted, Enabled, Moves;
    JobsMove(s, e);
  }

  /** Only the commit of an execution completes an execution job. */
  lemma NotCompleted(s: State, e: Event, j: JobId)
    requires Inv(s) && Live(s) && Enabled(s, e) && !Executes(s, e)
    requires RunsProject(s.store, j) && s.store.jobs[j].status != Completed
    ensures NextStore(s, e).jobs[j].status != Completed
  {
    hide AttemptsOk, WinOk, PhaseOk, RunningOk, Enumerates, IsCandidate;
    if e.Write? && j in Rows(s.looks[e.r]) {
      assert LookOk(s, s.looks[e.r]);
      LateWrite(s.looks[e.r], Rows(s.looks[e.r])[j], s.store.jobs[j], e.now);
    } else if e.Record? {
      assert HolderOk(s, e.w, s.phases[e.w]);
    }
  }

  lemma ExecStep(s: State, e: Event)
    requires Once(s) && Enabled(s, e) && Disciplined(s, e) && !Executes(s, e)
    ensures ExecOk(Next(s, e))
  {
    hide AttemptsOk, WinOk, PhaseOk, LookOk, Live, KeysOk, TasksOk, DoneOk, NextStore, NextHistory, NextLooks, IsCandidate, ReadingOk;
    var s' := Next(s, e);
    JobsStay(s, e);
    forall w | w in s'.phases && s'.phases[w].Executing?
      ensures RunsProject(s'.store, s'.phases[w].job)
      ensures ReadingOk(s'.store.items, s'.store.jobs[s'.phases[w].job].work.project, s'.phases[w].read)
    {
      var j := s'.phases[w].job;
      assert RunsProject(s.store, j);
      if e.Read? && e.w == w {
        FreshReading(s, e);
      }
      ReadingStays(s.store.items, s'.store.items, s.store.jobs[j].work.project, s'.phases[w].read);
    }
  }

  lemma FreshReading(s: State, e: Event)
    requires Enabled(s, e) && e.Read?
    ensures ReadingOk(s.store.items, s.store.jobs[PhaseOf(s, e.w).job].work.project, Reading(s.store.items, e.seen))
  {
  }

  lemma DoneStep(s: State, e: Event)
    requires Once(s) && Enabled(s, e) && Disciplined(s, e) && !Executes(s, e)
    ensures DoneOk(Next(s, e))
  {
    hide Live, KeysOk, TasksOk, ExecOk, NextStore, NextHistory, NextLooks, NextPhases, IsCandidate, Enumerates,
         ReadingOk, IsDone, AttemptsOk, WinOk, PhaseOk, LookOk;
    var s' := Next(s, e);
    JobsStay(s, e);
    ExecutionKeepsOnce(s, e);
    assert s'.executed == s.executed;
    forall p | p in s.executed ensures ExecutedOk(s'.store, p, s.executed[p]) {
      assert ExecutedOk(s.store, p, s.executed[p]);
      ReadingStays(s.store.items, s'.store.items, p, s.executed[p]);
      var j :| IsDone(s.store, p, j);
      assert IsDone(s'.store, p, j);
    }
    forall i | i in s.store.tasks ensures TaskOk(s', i) {
      assert TaskOk(s, i);
    }
  }

  // The commit of an execution ------------------------------------------

  lemma OneExecution(st: Store, p: ProjectId, i: JobId, j: JobId)
    requires KeysOk(st) && RunsProject(st, i) && RunsProject(st, j)
    requires st.jobs[i].work.project == p == st.jobs[j].work.project
    ensures i == j
  {
    assert JobKeyOk(st, st.jobs[i]) && JobKeyOk(st, st.jobs[j]);
  }

  /** A project whose execution job a worker holds has not been executed. */
  lemma NotExecutedYet(s: State, w: WorkerId, p: ProjectId)
    requires Once(s) && w in s.phases && IsHolder(s.phases[w])
    requires RunsProject(s.store, s.phases[w].job) && s.store.jobs[s.phases[w].job].work.project == p
    ensures p !in s.executed
  {
    hide AttemptsOk, WinOk, PhaseOk, LookOk, TasksOk, RunningOk;
    assert HolderOk(s, w, s.phases[w]);
    forall j: JobId ensures !IsDone(s.store, p, j) {
      if RunsProject(s.store, j) && s.store.jobs[j].work.project == p {
        OneExecution(s.store, p, j, s.phases[w].job);
      }
    }
  }

  /** The project of a worker that executes has not been executed, so its items have no task. */
  lemma ExecutionStartsNew(s: State, e: Event)
    requires Once(s) && Enabled(s, e) && Executes(s, e)
    ensures StartsNew(s, e) && s.store.jobs[PhaseOf(s, e.w).job].work.project !in s.executed
  {
    hide AttemptsOk, WinOk, PhaseOk, LookOk, TasksOk, NextStore, RunningOk;
    var own := s.phases[e.w];
    var p := s.store.jobs[own.job].work.project;
    assert HolderOk(s, e.w, own);
    NotExecutedYet(s, e.w, p);
    forall k | 0 <= k < |own.read.seen| ensures own.read.seen[k] !in s.store.tasks {
      var i := own.read.seen[k];
      assert IsBacklog(own.read.items, p, i);
      assert i in s.store.tasks ==> TaskOk(s, i);
    }
  }

  lemma ExecutionTables(s: State, e: Event)
    requires Once(s) && Enabled(s, e) && Executes(s, e)
    ensures KeysOk(NextStore(s, e)) && TasksOk(NextStore(s, e))
    ensures NextStore(s, e).tasks == s.store.tasks + PhaseOf(s, e.w).read.seen
    ensures |NextStore(s, e).items| == |s.store.items|
    ensures forall i :: 0 <= i < |s.store.items| ==> NextStore(s, e).items[i].project == s.store.items[i].project
  {
    hide StartItems, AttemptsOk, WinOk, LookOk, Live, ExecOk, DoneOk, KeysOk, TasksOk;
    var own := s.phases[e.w];
    assert PhaseOk(s, e.w, own);
    ExecutionStartsNew(s, e);
    StartItemsOnce(s.store, own.read.seen, e.now);
    StartItemsEffect(s.store, own.read.seen, e.now);
    SameKeys(StartItems(s.store, own.read.seen, e.now), NextStore(s, e));
  }

  lemma ExecutionJobs(s: State, e: Event)
    requires Once(s) && Enabled(s, e) && Executes(s, e)
    ensures var st, st', own := s.store, NextStore(s, e), PhaseOf(s, e.w).job;
            && RunsProject(st, own) && IsDone(st', st.jobs[own].work.project, own)
            && (forall j :: 0 <= j < |st.jobs| && j != own ==> st'.jobs[j] == st.jobs[j])
            && (forall j: nat :: |st.jobs| <= j ==> !RunsProject(st', j))
  {
    hide StartItems, AttemptsOk, WinOk, LookOk, Live, DoneOk, KeysOk, TasksOk, ReadingOk;
    var own := s.phases[e.w];
    assert PhaseOk(s, e.w, own);
    ExecutionMoves(s, e);
    WorkStays(s, e);
    StartItemsKeepsJobs(s.store, own.read.seen, e.now);
  }

  lemma ExecutionExec(s: State, e: Event)
    requires Once(s) && Enabled(s, e) && Disciplined(s, e) && Executes(s, e)
    ensures ExecOk(Next(s, e))
  {
    hide AttemptsOk, WinOk, PhaseOk, LookOk, Live, KeysOk, TasksOk, DoneOk, NextStore, NextHistory, NextLooks, ReadingOk;
    var s' := Next(s, e);
    ExecutionTables(s, e);
    WorkStays(s, e);
    forall w | w in s'.phases && s'.phases[w].Executing?
      ensures RunsProject(s'.store, s'.phases[w].job)
      ensures ReadingOk(s'.store.items, s'.store.jobs[s'.phases[w].job].work.project, s'.phases[w].read)
    {
      var j := s.phases[w].job;
      assert RunsProject(s.store, j);
      ReadingStays(s.store.items, s'.store.items, s.store.jobs[j].work.project, s.phases[w].read);
    }
  }

  lemma ExecutionDone(s: State, e: Event)
    requires Once(s) && Enabled(s, e) && Executes(s, e)
    ensures DoneOk(Next(s, e))
  {
    hide AttemptsOk, WinOk, PhaseOk, LookOk, Live, KeysOk, TasksOk, NextStore, NextHistory, NextLooks, NextPhases, Enumerates;
    var s', own := Next(s, e), s.phases[e.w];
    var p := s.store.jobs[own.job].work.project;
    ExecutionStartsNew(s, e);
    ExecutionTables(s, e);
    ExecutionJobs(s, e);
    assert s'.executed == s.executed[p := own.read];
    forall q | q in s'.executed ensures ExecutedOk(s'.store, q, s'.executed[q]) {
      ExecutedStays(s, e, q);
    }
    forall i | i in s'.store.tasks ensures TaskOk(s', i) {
      if i in s.store.tasks {
        assert TaskOk(s, i);
      } else {
        var k :| 0 <= k < |own.read.seen| && own.read.seen[k] == i;
        SeenProject(s.store.items, p, own.read, k);
      }
    }
    forall q, j | IsDone(s'.store, q, j) ensures q in s'.executed {
      assert j != own.job ==> IsDone(s.store, q, j);
    }
  }

  lemma SeenProject(items: seq<WorkItem>, p: ProjectId, r: Reading, k: nat)
    requires ReadingOk(items, p, r) && k < |r.seen|
    ensures r.seen[k] < |items| && items[r.seen[k]].project == p
  {
    assert IsBacklog(r.items, p, r.seen[k]);
  }

  lemma ExecutedStays(s: State, e: Event, q: ProjectId)
    requires Once(s) && Enabled(s, e) && Executes(s, e) && q in Next(s, e).executed
    ensures ExecutedOk(NextStore(s, e), q, Next(s, e).executed[q])
  {
    hide AttemptsOk, WinOk, PhaseOk, LookOk, Live, KeysOk, TasksOk, NextStore, NextHistory, NextLooks, NextPhases, Enumerates;
    var s', own := Next(s, e), s.phases[e.w];
    var p := s.store.jobs[own.job].work.project;
    ExecutionTables(s, e);
    ExecutionJobs(s, e);
    ReadingStays(s.store.items, s'.store.items, q, s'.executed[q]);
    if q == p {
      assert IsDone(s'.store, p, own.job);
    } else {
      assert ExecutedOk(s.store, q, s.executed[q]);
      var j :| IsDone(s.store, q, j);
      assert IsDone(s'.store, q, j);
    }
  }

  lemma OnceStep(s: State, e: Event)
    requires Once(s) && Enabled(s, e) && Disciplined(s, e)
    ensures Once(Next(s, e))
  {
    hide AttemptsOk, WinOk, PhaseOk, LookOk, Live, KeysOk, TasksOk, ExecOk, DoneOk, Enabled, Disciplined, NextStore;
    InvStep(s, e);
    LiveStep(s, e);
    if Executes(s, e) {
      ExecutionTables(s, e);
      ExecutionExec(s, e);
      ExecutionDone(s, e);
    } else {
      KeysStep(s, e);
      ExecStep(s, e);
      DoneStep(s, e);
    }
  }

  lemma {:induction false} OnceAlong(s: State, es: seq<Event>)
    requires Once(s) && IsRun(s, es, true)
    ensures IsRun(s, es, false) && Once(After(s, es))
    decreases |es|
  {
    hide Once, Next, Enabled, Disciplined;
    DropDiscipline(s, es);
    if es != [] {
      OnceStep(s, es[0]);
      OnceAlong(Next(s, es[0]), es[1..]);
    }
  }

  /** How many jobs carry the key. */
  ghost function JobsWith(jobs: seq<Job>, key: Key): nat {
    if jobs == [] then 0
    else JobsWith(jobs[..|jobs| - 1], key) + if jobs[|jobs| - 1].key == Some(key) then 1 else 0
  }

  lemma {:induction false} KeyCounts(jobs: seq<Job>, key: Key)
    requires forall i, j :: 0 <= i < j < |jobs| && jobs[i].key.Some? ==> jobs[i].key != jobs[j].key
    ensures JobsWith(jobs, key) == if exists j :: 0 <= j < |jobs| && jobs[j].key == Some(key) then 1 else 0
  {
    if jobs != [] {
      KeyCounts(jobs[..|jobs| - 1], key);
      if exists j :: 0 <= j < |jobs| && jobs[j].key == Some(key) {
        var j :| 0 <= j < |jobs| && jobs[j].key == Some(key);
        assert j < |jobs| - 1 ==> jobs[..|jobs| - 1][j].key == Some(key);
      }
    }
  }

  /** How many jobs do the work. */
  ghost function JobsFor(jobs: seq<Job>, work: Work): nat {
    if jobs == [] then 0
    else JobsFor(jobs[..|jobs| - 1], work) + if jobs[|jobs| - 1].work == work then 1 else 0
  }

  lemma {:induction false} WorkCounts(jobs: seq<Job>, work: Work, key: Key)
    requires forall j :: 0 <= j < |jobs| ==> (jobs[j].work == work <==> jobs[j].key == Some(key))
    ensures JobsFor(jobs, work) == JobsWith(jobs, key)
  {
    if jobs != [] {
      WorkCounts(jobs[..|jobs| - 1], work, key);
    }
  }

  /** The jobs that develop a task are those with its key. */
  lemma TaskJobs(s: State, t: TaskId)
    requires Once(s)
    ensures JobsFor(s.store.jobs, DevelopTask(t)) == JobsWith(s.store.jobs, DevWorkflow(t)) == if t < |s.store.tasks| then 1 else 0
  {
    hide Inv, Live, ExecOk, DoneOk, Distinct;
    forall j | 0 <= j < |s.store.jobs|
      ensures s.store.jobs[j].work == DevelopTask(t) <==> s.store.jobs[j].key == Some(DevWorkflow(t))
      ensures s.store.jobs[j].work == DevelopTask(t) ==> t < |s.store.tasks|
    {
      assert JobKeyOk(s.store, s.store.jobs[j]);
    }
    WorkCounts(s.store.jobs, DevelopTask(t), DevWorkflow(t));
    KeyCounts(s.store.jobs, DevWorkflow(t));
    if t < |s.store.tasks| {
      assert HasWorkflow(s.store, t);
    }
  }

  lemma ProjectJobs(s: State, p: ProjectId)
    requires Once(s)
    ensures JobsFor(s.store.jobs, ExecuteProject(p)) == JobsWith(s.store.jobs, ProjectExec(p)) <= 1
  {
    hide Inv, Live, ExecOk, DoneOk, TasksOk;
    forall j | 0 <= j < |s.store.jobs|
      ensures s.store.jobs[j].work == ExecuteProject(p) <==> s.store.jobs[j].key == Some(ProjectExec(p))
    {
      assert JobKeyOk(s.store, s.store.jobs[j]);
    }
    WorkCounts(s.store.jobs, ExecuteProject(p), ProjectExec(p));
    KeyCounts(s.store.jobs, ProjectExec(p));
  }

  /** The item was in the backlog of its project when the project's committed execution read it. */
  predicate WasRead(s: State, i: ItemId) {
    i < |s.store.items| && s.store.items[i].project in s.executed
    && IsBacklog(s.executed[s.store.items[i].project].items, s.store.items[i].project, i)
  }

  lemma StartedExactly(s: State, i: ItemId)
    requires Once(s)
    ensures i in s.store.tasks <==> WasRead(s, i)
  {
    hide AttemptsOk, WinOk, PhaseOk, LookOk, Live, KeysOk, ExecOk, IsDone;
    if i in s.store.tasks {
      assert TaskOk(s, i);
      assert ExecutedOk(s.store, s.store.items[i].project, s.executed[s.store.items[i].project]);
    }
    if WasRead(s, i) {
      assert ExecutedOk(s.store, s.store.items[i].project, s.executed[s.store.items[i].project]);
    }
  }

  /** Main result, over every disciplined run, whatever else is done to items and plans: an item
      has exactly one task if it was in its project's backlog when the project's completed
      execution read it, and none otherwise; exactly one job develops each task, and none a task
      that there is not; at most one job executes each project, and a completed one has committed
      an execution. */
  lemma ProjectExecutionIsExactlyOnce(es: seq<Event>)
    requires IsRun(INIT, es, true)
    ensures IsRun(INIT, es, false)
    ensures var s := After(INIT, es);
            && (forall i: nat :: TasksOf(s.store.tasks, i) == if WasRead(s, i) then 1 else 0)
            && (forall t: TaskId :: JobsFor(s.store.jobs, DevelopTask(t)) == if t < |s.store.tasks| then 1 else 0)
            && (forall t: TaskId :: JobsWith(s.store.jobs, DevWorkflow(t)) == JobsFor(s.store.jobs, DevelopTask(t)))
            && (forall p :: JobsWith(s.store.jobs, ProjectExec(p)) == JobsFor(s.store.jobs, ExecuteProject(p)) <= 1)
            && (forall p :: p in s.executed <==> exists j :: IsDone(s.store, p, j))
  {
    OnceAlong(INIT, es);
    TasksExact(After(INIT, es));
  }

  lemma TasksExact(s: State)
    requires Once(s)
    ensures forall i: nat :: TasksOf(s.store.tasks, i) == if WasRead(s, i) then 1 else 0
    ensures forall t: TaskId :: JobsFor(s.store.jobs, DevelopTask(t)) == if t < |s.store.tasks| then 1 else 0
    ensures forall t: TaskId :: JobsWith(s.store.jobs, DevWorkflow(t)) == JobsFor(s.store.jobs, DevelopTask(t))
    ensures forall p :: JobsWith(s.store.jobs, ProjectExec(p)) == JobsFor(s.store.jobs, ExecuteProject(p)) <= 1
    ensures forall p :: p in s.executed <==> exists j :: IsDone(s.store, p, j)
  {
    hide AttemptsOk, WinOk, PhaseOk, LookOk, Live, ExecOk, WasRead, TasksOf;
    DistinctCounts(s.store.tasks);
    forall i: nat ensures TasksOf(s.store.tasks, i) == if WasRead(s, i) then 1 else 0 {
      StartedExactly(s, i);
    }
    forall t: TaskId ensures JobsFor(s.store.jobs, DevelopTask(t)) == JobsWith(s.store.jobs, DevWorkflow(t)) == if t < |s.store.tasks| then 1 else 0 {
      TaskJobs(s, t);
    }
    forall p ensures JobsWith(s.store.jobs, ProjectExec(p)) == JobsFor(s.store.jobs, ExecuteProject(p)) <= 1 {
      ProjectJobs(s, p);
    }
    forall p | p in s.executed ensures exists j :: IsDone(s.store, p, j) {
      assert ExecutedOk(s.store, p, s.executed[p]);
    }
  }

  // ---------------------------------------------------------------------
  // Runs in which nobody else touches the items
  // ---------------------------------------------------------------------

  /** The work board is left alone, and an approved plan is not decomposed. */
  ghost predicate HandsOff(s: State, e: Event) {
    !e.AddItem? && !e.SetItem? && (e.Decompose? ==> PlanOf(s.store, e.project) != Approved)
  }

  ghost predicate HandsOffAlong(s: State, es: seq<Event>)
    requires IsRun(s, es, false)
    decreases |es|
  {
    es == [] || (HandsOff(s, es[0]) && HandsOffAlong(Next(s, es[0]), es[1..]))
  }

  /** Every item of the project that is not deleted is among the given ones. */
  ghost predicate Covers(items: seq<WorkItem>, p: ProjectId, ids: seq<ItemId>) {
    forall i :: 0 <= i < |items| && items[i].project == p && items[i].status != Gone ==> i in ids
  }

  ghost predicate PlansOk(st: Store) {
    forall j: JobId :: RunsProject(st, j) ==> PlanOf(st, st.jobs[j].work.project) == Approved
  }

  ghost predicate ItemsOk(st: Store) {
    forall i :: 0 <= i < |st.items| ==> st.items[i].status == Backlog || st.items[i].status == Gone || i in st.tasks
  }

  ghost predicate ReadersOk(s: State) {
    forall w :: w in s.phases && s.phases[w].Executing? && RunsProject(s.store, s.phases[w].job) ==>
      Covers(s.store.items, s.store.jobs[s.phases[w].job].work.project, s.phases[w].read.seen)
  }

  ghost predicate Untouched(s: State) {
    && PlansOk(s.store) && ItemsOk(s.store) && ReadersOk(s)
    && (forall p :: p in s.executed ==> Covers(s.store.items, p, s.store.tasks))
  }

  /** Only decomposing and executing change items, and only approving brings an execution job. */
  lemma QuietStep(s: State, e: Event)
    requires Inv(s) && Enabled(s, e) && HandsOff(s, e) && !e.Decompose? && !Executes(s, e)
    ensures NextStore(s, e).items == s.store.items && NextStore(s, e).tasks == s.store.tasks
    ensures forall j: nat :: |s.store.jobs| <= j && RunsProject(NextStore(s, e), j) ==>
              e.Approve? && NextStore(s, e).jobs[j].work.project == e.project
    ensures forall p :: PlanOf(s.store, p) == Approved ==> PlanOf(NextStore(s, e), p) == Approved
  {
    hide Enumerates, IsCandidate, AttemptsOk, WinOk, PhaseOk, LookOk;
  }

  lemma PlansStep(s: State, e: Event)
    requires Once(s) && PlansOk(s.store) && Enabled(s, e) && HandsOff(s, e)
    ensures PlansOk(NextStore(s, e))
  {
    hide AttemptsOk, WinOk, PhaseOk, LookOk, KeysOk, TasksOk, Live, DoneOk, StartItems;
    WorkStays(s, e);
    if Executes(s, e) {
      ExecutionJobs(s, e);
      StartItemsKeepsJobs(s.store, PhaseOf(s, e.w).read.seen, e.now);
    } else if !e.Decompose? {
      QuietStep(s, e);
    }
    forall j: JobId | RunsProject(NextStore(s, e), j) ensures PlanOf(NextStore(s, e), NextStore(s, e).jobs[j].work.project) == Approved {
      assert j < |s.store.jobs| ==> RunsProject(s.store, j);
    }
  }

  /** A worker that reads its project's backlog reads every item that is not deleted: none of
      them was started before. */
  lemma ReadsAll(s: State, e: Event)
    requires Once(s) && Untouched(s) && Enabled(s, e) && e.Read?
    ensures Covers(s.store.items, s.store.jobs[PhaseOf(s, e.w).job].work.project, e.seen)
  {
    hide AttemptsOk, WinOk, PhaseOk, LookOk, TasksOk, RunningOk;
    var own := s.phases[e.w];
    var p := s.store.jobs[own.job].work.project;
    NotExecutedYet(s, e.w, p);
    forall i: ItemId | i < |s.store.items| && s.store.items[i].project == p && s.store.items[i].status != Gone
      ensures i in e.seen
    {
      assert i !in s.store.tasks;
      assert IsBacklog(s.store.items, p, i);
    }
  }

  lemma QuietUntouched(s: State, e: Event)
    requires Once(s) && Untouched(s) && Enabled(s, e) && HandsOff(s, e) && !e.Decompose? && !Executes(s, e)
    ensures Untouched(Next(s, e))
  {
    hide AttemptsOk, WinOk, PhaseOk, LookOk, KeysOk, TasksOk, Live, DoneOk, ExecOk, Covers, NextStore, NextHistory, NextLooks;
    var s' := Next(s, e);
    PlansStep(s, e);
    QuietStep(s, e);
    WorkStays(s, e);
    if e.Read? {
      ReadsAll(s, e);
    }
    forall w | w in s'.phases && s'.phases[w].Executing? && RunsProject(s'.store, s'.phases[w].job)
      ensures Covers(s'.store.items, s'.store.jobs[s'.phases[w].job].work.project, s'.phases[w].read.seen)
    {
      ReaderKnown(s, e, w);
    }
  }

  /** The job of a worker that executes was in the table before the step. */
  lemma ReaderKnown(s: State, e: Event, w: WorkerId)
    requires Inv(s) && Enabled(s, e) && w in Next(s, e).phases && Next(s, e).phases[w].Executing?
    ensures Next(s, e).phases[w].job < |s.store.jobs|
  {
    hide NextStore, NextHistory, NextLooks, AttemptsOk, WinOk, LookOk, Enumerates, IsCandidate;
    if w in s.phases {
      assert PhaseOk(s, w, s.phases[w]);
    }
  }

  lemma DecomposeUntouched(s: State, e: Event)
    requires Once(s) && Untouched(s) && Enabled(s, e) && HandsOff(s, e) && e.Decompose?
    ensures Untouched(Next(s, e))
  {
    hide AttemptsOk, WinOk, LookOk, KeysOk, TasksOk, Live;
    var s' := Next(s, e);
    PlansStep(s, e);
    forall p | p in s.executed ensures p != e.project {
      assert ExecutedOk(s.store, p, s.executed[p]);
    }
    forall w | w in s.phases && s.phases[w].Executing?
      ensures Covers(s'.store.items, s.store.jobs[s.phases[w].job].work.project, s.phases[w].read.seen)
    {
      assert PhaseOk(s, w, s.phases[w]);
    }
  }

  lemma ExecutionUntouched(s: State, e: Event)
    requires Once(s) && Untouched(s) && Enabled(s, e) && HandsOff(s, e) && Executes(s, e)
    ensures Untouched(Next(s, e))
  {
    hide AttemptsOk, WinOk, LookOk, KeysOk, TasksOk, Live, DoneOk, NextStore, NextHistory, NextLooks;
    var s', own := Next(s, e), s.phases[e.w];
    assert PhaseOk(s, e.w, own);
    PlansStep(s, e);
    WorkStays(s, e);
    ExecutionTables(s, e);
    ExecutionItems(s, e);
    forall p | p in s'.executed ensures Covers(s'.store.items, p, s'.store.tasks) {}
    forall w | w in s'.phases && s'.phases[w].Executing? && RunsProject(s'.store, s'.phases[w].job)
      ensures Covers(s'.store.items, s'.store.jobs[s'.phases[w].job].work.project, s'.phases[w].read.seen)
    {
      ReaderKnown(s, e, w);
    }
  }

  lemma ExecutionItems(s: State, e: Event)
    requires Inv(s) && Enabled(s, e) && Executes(s, e)
    ensures |NextStore(s, e).items| == |s.store.items|
    ensures forall i :: 0 <= i < |s.store.items| ==>
              NextStore(s, e).items[i] == if i in PhaseOf(s, e.w).read.seen then s.store.items[i].(status := InProgress)
                                          else s.store.items[i]
  {
    hide StartItems, AttemptsOk, WinOk, PhaseOk, LookOk;
    StartItemsEffect(s.store, PhaseOf(s, e.w).read.seen, e.now);
  }

  lemma {:induction false} UntouchedAlong(s: State, es: seq<Event>)
    requires Once(s) && Untouched(s) && IsRun(s, es, true) && IsRun(s, es, false) && HandsOffAlong(s, es)
    ensures Untouched(After(s, es))
    decreases |es|
  {
    hide Once, Untouched, Next, Enabled, Disciplined, HandsOff;
    if es != [] {
      DropDiscipline(Next(s, es[0]), es[1..]);
      OnceStep(s, es[0]);
      UntouchedStep(s, es[0]);
      UntouchedAlong(Next(s, es[0]), es[1..]);
    }
  }

  lemma UntouchedStep(s: State, e: Event)
    requires Once(s) && Untouched(s) && Enabled(s, e) && HandsOff(s, e)
    ensures Untouched(Next(s, e))
  {
    hide Once, Untouched, Next, Enabled;
    if Executes(s, e) {
      ExecutionUntouched(s, e);
    } else if e.Decompose? {
      DecomposeUntouched(s, e);
    } else {
      QuietUntouched(s, e);
    }
  }

  /** Main result: when nobody touches the items on the work board, a completed execution has left
      every item of its project that was not deleted with exactly one task. */
  lemma ExecutionIsComplete(es: seq<Event>, p: ProjectId, j: JobId, i: ItemId)
    requires IsRun(INIT, es, true) && IsRun(INIT, es, false) && HandsOffAlong(INIT, es)
    requires IsDone(After(INIT, es).store, p, j)
    requires i < |After(INIT, es).store.items| && After(INIT, es).store.items[i].project == p
    ensures After(INIT, es).store.items[i].status != Gone ==> TasksOf(After(INIT, es).store.tasks, i) == 1
  {
    hide IsRun, After, HandsOffAlong, Once, Untouched;
    StartUntouched();
    OnceAlong(INIT, es);
    UntouchedAlong(INIT, es);
    CompleteAt(After(INIT, es), p, j, i);
  }

  lemma StartUntouched()
    ensures Once(INIT) && Untouched(INIT)
  {
  }

  lemma CompleteAt(s: State, p: ProjectId, j: JobId, i: ItemId)
    requires Once(s) && Untouched(s) && IsDone(s.store, p, j) && i < |s.store.items| && s.store.items[i].project == p
    ensures s.store.items[i].status != Gone ==> TasksOf(s.store.tasks, i) == 1
  {
    hide Inv, Live, KeysOk, ExecOk, TasksOf, PlansOk, ItemsOk, ReadersOk;
    DistinctCounts(s.store.tasks);
  }
}
