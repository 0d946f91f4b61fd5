/** Workers on the durable queue (`job_queue.py`, `job_worker.py`): any number of workers
    interleave the steps of `run_once`, may crash between any two of them, and leave their jobs
    to `recover_orphans`; control calls and recoveries look at rows and write them later; project
    plans (`project_decomposition.py`) and the work board (`work.py`) feed the queue. */
module JobProtocol {
  import opened Text
  import opened Database
  import opened JobQueue

  // ---------------------------------------------------------------------
  // State
  // ---------------------------------------------------------------------

  /** What a project execution has read: the item table, and the project's backlog in it. */
  datatype Reading = Reading(items: seq<WorkItem>, seen: seq<ItemId>)

  /** Where a worker stands in `run_once`; its open transaction is what it has read. */
  datatype Phase =
    | Idle
    | Picked(job: JobId, seenStart: Option<int>)               // selected, not yet claimed
    | Holding(job: JobId, stay: nat)                           // claim committed
    | Executing(job: JobId, stay: nat, read: Reading)          // project handler has read its items
    | Failing(job: JobId, stay: nat, row: Job)                 // rolled back, job row loaded again
    | Dead

  /** Bookkeeping of one job: how many times it entered `queued` after its creation, how often it
      was recovered and manually retried, and how many writes were overtaken: they found the row
      no longer as the check before them did. */
  datatype History = History(stay: nat, recoveries: nat, retries: nat, overtaken: nat)

  /** A claim whose guarded update changed the row. */
  datatype Win = Win(job: JobId, stay: nat, worker: WorkerId)

  type RequestId = nat

  /** `looks` are the control calls and recoveries that have looked and not yet written;
      `executed` is what the committed project executions had read. */
  datatype State = State(store: Store, phases: map<WorkerId, Phase>, looks: map<RequestId, Look>,
                         history: seq<History>, wins: seq<Win>, executed: map<ProjectId, Reading>)

  const INIT := State(Store([], [], [], map[]), map[], map[], [], [], map[])

  function PhaseOf(s: State, w: WorkerId): Phase {
    if w in s.phases then s.phases[w] else Idle
  }

  predicate IsHolder(ph: Phase) {
    ph.Holding? || ph.Executing? || ph.Failing?
  }

  predicate Holds(ph: Phase, j: JobId, stay: nat) {
    IsHolder(ph) && ph.job == j && ph.stay == stay
  }

  // ---------------------------------------------------------------------
  // The project handler
  // ---------------------------------------------------------------------

  /** One round of `_project_execution`: a task for the item, the item in progress, and the
      task's workflow enqueued under its key. */
  function StartItem(st: Store, i: ItemId, now: int): Store
    requires i < |st.items|
  {
    var t := |st.tasks|;
    st.(tasks := st.tasks + [i],
        items := st.items[i := st.items[i].(status := InProgress)],
        jobs := Enqueued(st.jobs, DevelopTask(t), 3, 0, Some(DevWorkflow(t)), now))
  }

  predicate ItemsIn(st: Store, seen: seq<ItemId>) {
    forall k :: 0 <= k < |seen| ==> seen[k] < |st.items|
  }

  predicate Distinct(ids: seq<ItemId>) {
    forall k, l :: 0 <= k < l < |ids| ==> ids[k] != ids[l]
  }

  function StartItems(st: Store, seen: seq<ItemId>, now: int): (r: Store)
    requires ItemsIn(st, seen)
    ensures |r.items| == |st.items| && |r.jobs| >= |st.jobs|
  {
    if seen == [] then st
    else StartItem(StartItems(st, seen[..|seen| - 1], now), seen[|seen| - 1], now)
  }

  predicate IsBacklog(items: seq<WorkItem>, p: ProjectId, i: ItemId) {
    i < |items| && items[i] == WorkItem(p, Backlog)
  }

  /** An answer to the handler's SELECT of the project's backlog. */
  ghost predicate Enumerates(items: seq<WorkItem>, p: ProjectId, seen: seq<ItemId>) {
    && (forall k :: 0 <= k < |seen| ==> IsBacklog(items, p, seen[k]))
    && (forall i: nat :: IsBacklog(items, p, i) ==> i in seen)
    && Distinct(seen)
  }

  // ---------------------------------------------------------------------
  // Steps
  // ---------------------------------------------------------------------

  /** A planning request is its write alone, whatever it had checked before: `doomed` are the
      items a decomposition deletes, `marks` tells whether it also sets the plan's status. */
  datatype Event =
    | Enqueue(work: Work, maxAttempts: int, priority: int, key: Option<Key>, now: int)
    | AddProject(project: ProjectId)
    | Decompose(project: ProjectId, doomed: set<ItemId>, count: nat, marks: bool)
    | Approve(project: ProjectId, now: int)
    | AddItem(item: WorkItem)
    | SetItem(item_: ItemId, status: ItemStatus)
    | Select(w: WorkerId, id: JobId, now: int)
    | Claim(w: WorkerId, now: int)
    | Read(w: WorkerId, seen: seq<ItemId>)
    | Beat(w: WorkerId, now: int)
    | Commit(w: WorkerId, result: string, now: int)
    | Raise(w: WorkerId)
    | Record(w: WorkerId, error: string, now: int)
    | Crash(w: WorkerId)
    | LookUp(r: RequestId, c: Control, id: JobId)
    | LookOrphans(r: RequestId, now: int, stale: int)
    | Write(r: RequestId, now: int)

  predicate RunsProject(st: Store, j: JobId) {
    j < |st.jobs| && st.jobs[j].work.ExecuteProject?
  }

  /** A worker's handler has come to its end and can commit: a project execution only if none of
      the items it read was deleted meanwhile. */
  predicate CanCommit(st: Store, ph: Phase) {
    && (ph.Executing? || ph.Holding?) && ph.job < |st.jobs|
    && (ph.Holding? ==> !RunsProject(st, ph.job))
    && (ph.Executing? ==> ItemsIn(st, ph.read.seen)
                          && forall k :: 0 <= k < |ph.read.seen| ==> st.items[ph.read.seen[k]].status != Gone)
  }

  ghost predicate Enabled(s: State, e: Event) {
    match e
    case Enqueue(work, _, _, key, _) =>
      && !work.ExecuteProject?
      && (work.DevelopTask? ==> work.task < |s.store.tasks| && key == Some(DevWorkflow(work.task)))
      && (key.Some? ==> !key.value.ProjectExec? && (key.value.DevWorkflow? ==> work == DevelopTask(key.value.task)))
    case AddProject(p) => p !in s.store.plans
    case Decompose(p, doomed, _, _) => forall i :: i in doomed ==> i < |s.store.items| && s.store.items[i].project == p
    case Approve(p, _) => true
    case AddItem(item) => item.status != Gone
    case SetItem(i, _) => i < |s.store.items| && s.store.items[i].status != Gone
    case Select(w, id, now) => PhaseOf(s, w) == Idle && IsCandidate(s.store.jobs, now, id)
    case Claim(w, _) => PhaseOf(s, w).Picked? && PhaseOf(s, w).job < |s.store.jobs|
    case Read(w, seen) =>
      && PhaseOf(s, w).Holding? && RunsProject(s.store, PhaseOf(s, w).job)
      && Enumerates(s.store.items, s.store.jobs[PhaseOf(s, w).job].work.project, seen)
    case Beat(w, _) =>
      PhaseOf(s, w).Holding? && PhaseOf(s, w).job < |s.store.jobs| && !RunsProject(s.store, PhaseOf(s, w).job)
    case Commit(w, _, _) => CanCommit(s.store, PhaseOf(s, w))
    case Raise(w) => (PhaseOf(s, w).Executing? || PhaseOf(s, w).Holding?) && PhaseOf(s, w).job < |s.store.jobs|
    case Record(w, _, _) => PhaseOf(s, w).Failing? && PhaseOf(s, w).job < |s.store.jobs|
    case Crash(w) => PhaseOf(s, w) != Dead
    case LookUp(r, c, id) => r !in s.looks && id < |s.store.jobs| && Allowed(c, s.store.jobs[id].status)
    case LookOrphans(r, _, _) => r !in s.looks
    case Write(r, _) => r in s.looks
  }

  function Decomposition(st: Store, p: ProjectId, doomed: set<ItemId>, count: nat, marks: bool): Store {
    st.(items := seq(|st.items|, i requires 0 <= i < |st.items| =>
                   if i in doomed then st.items[i].(status := Gone) else st.items[i])
                 + seq(count, _ => WorkItem(p, Backlog)),
        plans := if marks then st.plans[p := Decomposed] else st.plans)
  }

  function Approval(st: Store, p: ProjectId, now: int): Store {
    st.(plans := st.plans[p := Approved],
        jobs := Enqueued(st.jobs, ExecuteProject(p), 3, 0, Some(ProjectExec(p)), now))
  }

  /** The tables after a worker's commit. */
  function Committed(st: Store, ph: Phase, result: string, now: int): (r: Store)
    requires CanCommit(st, ph)
    ensures |r.jobs| >= |st.jobs| && |r.items| == |st.items|
  {
    var done := if ph.Executing? then StartItems(st, ph.read.seen, now) else st;
    done.(jobs := done.jobs[ph.job := Done(done.jobs[ph.job], result, now)])
  }

  ghost function NextStore(s: State, e: Event): (st: Store)
    requires Enabled(s, e)
    ensures |st.jobs| >= |s.store.jobs|
  {
    var st, jobs := s.store, s.store.jobs;
    match e
    case Enqueue(work, max, priority, key, now) => st.(jobs := Enqueued(jobs, work, max, priority, key, now))
    case AddProject(p) => st.(plans := st.plans[p := NoPlan])
    case Decompose(p, doomed, count, marks) => Decomposition(st, p, doomed, count, marks)
    case Approve(p, now) => Approval(st, p, now)
    case AddItem(item) => st.(items := st.items + [item])
    case SetItem(i, status) => st.(items := st.items[i := st.items[i].(status := status)])
    case Claim(w, now) =>
      var ph := PhaseOf(s, w);
      if jobs[ph.job].status == Queued then
        st.(jobs := jobs[ph.job := Claimed(jobs[ph.job], ph.seenStart, w, now)])
      else st
    case Beat(w, now) =>
      var j := PhaseOf(s, w).job;
      st.(jobs := jobs[j := jobs[j].(heartbeatAt := Some(now), progressPct := 10)])
    case Commit(w, result, now) => Committed(st, PhaseOf(s, w), result, now)
    case Record(w, error, now) =>
      var ph := PhaseOf(s, w);
      st.(jobs := jobs[ph.job := Flushed(ph.row, AfterFailure(ph.row, error, now), jobs[ph.job])])
    case Write(r, now) => st.(jobs := Written(jobs, s.looks[r], now))
    case _ => st
  }

  ghost predicate Wins(s: State, e: Event)
    requires Enabled(s, e)
  {
    e.Claim? && s.store.jobs[PhaseOf(s, e.w).job].status == Queued
  }

  ghost function NextPhases(s: State, e: Event): map<WorkerId, Phase>
    requires Enabled(s, e) && |s.history| == |s.store.jobs|
  {
    match e
    case Select(w, id, _) => s.phases[w := Picked(id, s.store.jobs[id].startedAt)]
    case Claim(w, _) =>
      var j := PhaseOf(s, w).job;
      s.phases[w := if Wins(s, e) then Holding(j, s.history[j].stay) else Idle]
    case Read(w, seen) =>
      s.phases[w := Executing(PhaseOf(s, w).job, PhaseOf(s, w).stay, Reading(s.store.items, seen))]
    case Commit(w, _, _) => s.phases[w := Idle]
    case Raise(w) =>
      s.phases[w := Failing(PhaseOf(s, w).job, PhaseOf(s, w).stay, s.store.jobs[PhaseOf(s, w).job])]
    case Record(w, _, _) => s.phases[w := Idle]
    case Crash(w) => s.phases[w := Dead]
    case _ => s.phases
  }

  ghost function NextLooks(s: State, e: Event): map<RequestId, Look>
    requires Enabled(s, e)
  {
    match e
    case LookUp(r, c, id) => s.looks[r := OneRow(c, id, s.store.jobs[id])]
    case LookOrphans(r, now, stale) => s.looks[r := Orphans(OrphanRows(s.store.jobs, now, stale))]
    case Write(r, _) => s.looks - {r}
    case _ => s.looks
  }

  /** The step writes job `j` after a check that no longer holds of its row: a control call or a
      recovery whose status no longer fits, or a recorded failure after a further claim. */
  ghost predicate Overtaken(s: State, e: Event, j: JobId)
    requires Enabled(s, e) && j < |s.store.jobs|
  {
    || (e.Write? && j in Rows(s.looks[e.r]) && !Fits(s.looks[e.r], s.store.jobs[j].status))
    || (e.Record? && PhaseOf(s, e.w).job == j && PhaseOf(s, e.w).row.attempts != s.store.jobs[j].attempts)
  }

  /** A recovery, or a manual retry, writes job `j`, and its check still holds. */
  ghost predicate Recovers(s: State, e: Event, j: JobId)
    requires Enabled(s, e) && j < |s.store.jobs|
  {
    e.Write? && s.looks[e.r].Orphans? && j in Rows(s.looks[e.r]) && Fits(s.looks[e.r], s.store.jobs[j].status)
  }

  ghost predicate Retries(s: State, e: Event, j: JobId)
    requires Enabled(s, e) && j < |s.store.jobs|
  {
    e.Write? && s.looks[e.r].OneRow? && s.looks[e.r].c == Retry && j == s.looks[e.r].id
    && Fits(s.looks[e.r], s.store.jobs[j].status)
  }

  /** A job's bookkeeping after the step: a stay in the queue begins when it becomes queued. */
  ghost function NextHistory(s: State, e: Event, after: seq<Job>): (h: seq<History>)
    requires Enabled(s, e) && |s.history| == |s.store.jobs| <= |after|
    ensures |h| == |after|
  {
    seq(|after|, j requires 0 <= j < |after| =>
      if j >= |s.history| then History(0, 0, 0, 0)
      else
        var h, before := s.history[j], s.store.jobs[j];
        History(if before.status != Queued && after[j].status == Queued then h.stay + 1 else h.stay,
                if Recovers(s, e, j) then h.recoveries + 1 else h.recoveries,
                if Retries(s, e, j) then h.retries + 1 else h.retries,
                if Overtaken(s, e, j) then h.overtaken + 1 else h.overtaken))
  }

  ghost function NextExecuted(s: State, e: Event): map<ProjectId, Reading>
    requires Enabled(s, e)
  {
    if e.Commit? && PhaseOf(s, e.w).Executing? && RunsProject(s.store, PhaseOf(s, e.w).job) then
      s.executed[s.store.jobs[PhaseOf(s, e.w).job].work.project := PhaseOf(s, e.w).read]
    else s.executed
  }

  ghost function Next(s: State, e: Event): State
    requires Enabled(s, e) && |s.history| == |s.store.jobs|
  {
    var st := NextStore(s, e);
    State(st, NextPhases(s, e), NextLooks(s, e), NextHistory(s, e, st.jobs),
          if Wins(s, e) then
            var j := PhaseOf(s, e.w).job;
            s.wins + [Win(j, s.history[j].stay, e.w)]
          else s.wins,
          NextExecuted(s, e))
  }

  // ---------------------------------------------------------------------
  // What holds over every run whatsoever
  // ---------------------------------------------------------------------

  ghost function CountWins(wins: seq<Win>, j: JobId): nat {
    if wins == [] then 0
    else CountWins(wins[..|wins| - 1], j) + if wins[|wins| - 1].job == j then 1 else 0
  }

  function Max(a: int, b: int): int { if a >= b then a else b }

  /** `max(1, max_attempts) + recoveries + manual retries`: the promised bound. */
  function Promised(job: Job, h: History): int {
    Max(1, job.maxAttempts) + h.recoveries + h.retries
  }

  /** The bound that holds: each overtaken write may grant one more attempt. */
  function Bound(job: Job, h: History): int {
    Promised(job, h) + h.overtaken
  }

  ghost predicate AttemptsOk(job: Job, h: History, wins: seq<Win>, j: JobId) {
    && job.attempts == CountWins(wins, j)
    && job.attempts <= Bound(job, h)
    && (job.status == Queued || job.status == Paused ==> job.attempts < Bound(job, h))
  }

  ghost predicate WinOk(s: State, x: Win)
    requires |s.history| == |s.store.jobs|
  {
    && x.job < |s.store.jobs|
    && x.stay <= s.history[x.job].stay
    && (s.store.jobs[x.job].status == Queued ==> x.stay < s.history[x.job].stay)
  }

  ghost predicate PhaseOk(s: State, w: WorkerId, ph: Phase) {
    match ph
    case Picked(j, _) => j < |s.store.jobs|
    case Holding(j, stay) => j < |s.store.jobs| && Win(j, stay, w) in s.wins
    case Executing(j, stay, read) =>
      && RunsProject(s.store, j) && Win(j, stay, w) in s.wins
      && ItemsIn(s.store, read.seen) && Distinct(read.seen)
    case Failing(j, stay, row) =>
      j < |s.store.jobs| && Win(j, stay, w) in s.wins && row.maxAttempts == s.store.jobs[j].maxAttempts
    case _ => true
  }

  ghost predicate LookOk(s: State, l: Look) {
    forall j :: j in Rows(l) ==> j < |s.store.jobs| && Fits(l, Rows(l)[j].status)
  }

  ghost predicate Inv(s: State) {
    && |s.history| == |s.store.jobs|
    && (forall j :: 0 <= j < |s.store.jobs| ==> AttemptsOk(s.store.jobs[j], s.history[j], s.wins, j))
    && (forall k :: 0 <= k < |s.wins| ==> WinOk(s, s.wins[k]))
    && (forall k, l :: 0 <= k < l < |s.wins| ==> s.wins[k].job != s.wins[l].job || s.wins[k].stay != s.wins[l].stay)
    && (forall w :: w in s.phases ==> PhaseOk(s, w, s.phases[w]))
    && (forall r :: r in s.looks ==> LookOk(s, s.looks[r]))
  }

  /** What a step may do to a job that is already in the table. */
  ghost predicate Moves(b: Job, h: History, b': Job, h': History, won: bool) {
    && b'.work == b.work && b'.key == b.key && b'.maxAttempts == b.maxAttempts
    && h'.stay == (if b.status != Queued && b'.status == Queued then h.stay + 1 else h.stay)
    && b'.attempts == b.attempts + (if won then 1 else 0)
    && h'.recoveries >= h.recoveries && h'.retries >= h.retries && h'.overtaken >= h.overtaken
    && ( (won && b.status == Queued && b'.status == Running)
      || (!won && b'.status == b.status)
      || (!won && Terminal(b'.status))
      || (!won && b'.status == Queued && b.attempts < b.maxAttempts)
      || (!won && b.status == Running && b'.status == Queued && h'.recoveries > h.recoveries)
      || (!won && b.status == Queued && b'.status == Paused)
      || (!won && b.status == Paused && b'.status == Queued)
      || (!won && b'.status == Queued && h'.retries > h.retries)
      || (!won && h'.overtaken > h.overtaken))
  }

  /** Every job in the table moves as it may, and a new one starts in the queue. */
  ghost predicate AllMove(s: State, e: Event)
    requires |s.history| == |s.store.jobs| && Enabled(s, e)
  {
    var s' := Next(s, e);
    && (forall j :: 0 <= j < |s.store.jobs| ==>
          Moves(s.store.jobs[j], s.history[j], s'.store.jobs[j], s'.history[j],
                Wins(s, e) && PhaseOf(s, e.w).job == j))
    && (forall j :: |s.store.jobs| <= j < |s'.store.jobs| ==>
          s'.store.jobs[j].attempts == 0 && s'.store.jobs[j].status == Queued && s'.history[j] == History(0, 0, 0, 0))
  }

  lemma JobsMove(s: State, e: Event)
    requires Inv(s) && Enabled(s, e)
    ensures AllMove(s, e)
  {
    hide AllMove, Enumerates, IsCandidate, AttemptsOk, WinOk, LookOk;
    if e.Commit? && PhaseOf(s, e.w).Executing? {
      ExecutionMoves(s, e);
    } else if e.Record? {
      RecordMoves(s, e);
    } else if e.Claim? {
      ClaimMoves(s, e);
    } else if e.Commit? || e.Beat? {
      WorkerMoves(s, e);
    } else if e.Write? {
      WriteMoves(s, e);
    } else if e.Enqueue? || e.Approve? {
      EnqueueMoves(s, e);
    } else {
      OtherMoves(s, e);
    }
  }

  lemma {:induction false} StartItemsKeepsJobs(st: Store, seen: seq<ItemId>, now: int)
    requires ItemsIn(st, seen)
    ensures var r := StartItems(st, seen, now);
            && r.jobs[..|st.jobs|] == st.jobs && r.plans == st.plans && |r.jobs| <= |st.jobs| + |seen|
            && (forall j :: |st.jobs| <= j < |r.jobs| ==>
                  r.jobs[j].attempts == 0 && r.jobs[j].status == Queued && r.jobs[j].maxAttempts == 3
                  && r.jobs[j].work.DevelopTask?)
    decreases |seen|
  {
    if seen != [] {
      StartItemsKeepsJobs(st, seen[..|seen| - 1], now);
    }
  }

  lemma ExecutionMoves(s: State, e: Event)
    requires |s.history| == |s.store.jobs| && Enabled(s, e) && e.Commit? && PhaseOf(s, e.w).Executing?
    ensures AllMove(s, e)
    ensures forall j :: 0 <= j < |s.store.jobs| && j != PhaseOf(s, e.w).job ==>
              Next(s, e).store.jobs[j] == s.store.jobs[j]
  {
    hide Enumerates, StartItems;
    var s' := Next(s, e);
    var r := StartItems(s.store, PhaseOf(s, e.w).read.seen, e.now);
    StartItemsKeepsJobs(s.store, PhaseOf(s, e.w).read.seen, e.now);
    forall j | 0 <= j < |s.store.jobs|
      ensures Moves(s.store.jobs[j], s.history[j], s'.store.jobs[j], s'.history[j], false)
      ensures j != PhaseOf(s, e.w).job ==> s'.store.jobs[j] == s.store.jobs[j]
    {
      assert r.jobs[j] == r.jobs[..|s.store.jobs|][j];
    }
  }

  lemma RecordMoves(s: State, e: Event)
    requires |s.history| == |s.store.jobs| && Enabled(s, e) && e.Record?
    requires PhaseOf(s, e.w).row.maxAttempts == s.store.jobs[PhaseOf(s, e.w).job].maxAttempts
    ensures AllMove(s, e)
  {
  }

  lemma WorkerMoves(s: State, e: Event)
    requires |s.history| == |s.store.jobs| && Enabled(s, e)
    requires e.Beat? || (e.Commit? && !PhaseOf(s, e.w).Executing?)
    ensures AllMove(s, e)
  {
    hide Enumerates, StartItems;
  }

  /** A heartbeat keeps its job from being taken for an orphan, and changes nobody else's. */
  lemma BeatHolds(s: State, e: Event, j: JobId, t: int, stale: int)
    requires |s.history| == |s.store.jobs| && Enabled(s, e) && e.Beat? && j < |s.store.jobs|
    ensures j == PhaseOf(s, e.w).job ==> (Orphan(NextStore(s, e).jobs[j], t, stale) ==> t - stale > e.now)
    ensures j != PhaseOf(s, e.w).job ==> NextStore(s, e).jobs[j] == s.store.jobs[j]
  {
  }

  lemma ClaimMoves(s: State, e: Event)
    requires |s.history| == |s.store.jobs| && Enabled(s, e) && e.Claim?
    ensures AllMove(s, e)
  {
  }

  lemma WriteMoves(s: State, e: Event)
    requires |s.history| == |s.store.jobs| && Enabled(s, e) && e.Write? && LookOk(s, s.looks[e.r])
    ensures AllMove(s, e)
  {
    var l, s' := s.looks[e.r], Next(s, e);
    forall j | 0 <= j < |s.store.jobs|
      ensures Moves(s.store.jobs[j], s.history[j], s'.store.jobs[j], s'.history[j], false)
    {
      if j in Rows(l) {
        WrittenMoves(s, e, j);
      }
    }
  }

  lemma WrittenMoves(s: State, e: Event, j: JobId)
    requires |s.history| == |s.store.jobs| && Enabled(s, e) && e.Write? && j < |s.store.jobs|
    requires j in Rows(s.looks[e.r]) && Fits(s.looks[e.r], Rows(s.looks[e.r])[j].status)
    ensures Moves(s.store.jobs[j], s.history[j], Next(s, e).store.jobs[j], Next(s, e).history[j], false)
  {
    LateWrite(s.looks[e.r], Rows(s.looks[e.r])[j], s.store.jobs[j], e.now);
  }

  lemma EnqueueMoves(s: State, e: Event)
    requires |s.history| == |s.store.jobs| && Enabled(s, e) && (e.Enqueue? || e.Approve?)
    ensures AllMove(s, e)
  {
  }

  lemma OtherMoves(s: State, e: Event)
    requires |s.history| == |s.store.jobs| && Enabled(s, e)
    requires !(e.Record? || e.Beat? || e.Claim? || e.Commit? || e.Write? || e.Enqueue? || e.Approve?)
    ensures AllMove(s, e)
  {
    hide Enumerates, IsCandidate;
  }

  lemma {:induction false} CountBeyond(wins: seq<Win>, j: JobId)
    requires forall k :: 0 <= k < |wins| ==> wins[k].job != j
    ensures CountWins(wins, j) == 0
  {
    if wins != [] {
      CountBeyond(wins[..|wins| - 1], j);
    }
  }

  /** Every step keeps the invariant: also cancelling a running job, recovering the job of a worker
      that is alive, a worker finishing a job that it lost long ago, and every overtaken write. */
  lemma InvStep(s: State, e: Event)
    requires Inv(s) && Enabled(s, e)
    ensures Inv(Next(s, e))
  {
    hide AttemptsOk, WinOk, PhaseOk, LookOk, NextStore, NextPhases, NextHistory, NextLooks, Enabled;
    AttemptsStep(s, e);
    WinsStep(s, e);
    PhasesStep(s, e);
    LooksStep(s, e);
  }

  lemma AttemptsStep(s: State, e: Event)
    requires Inv(s) && Enabled(s, e)
    ensures var s' := Next(s, e);
            forall j :: 0 <= j < |s'.store.jobs| ==> AttemptsOk(s'.store.jobs[j], s'.history[j], s'.wins, j)
  {
    hide NextStore, NextPhases, NextHistory, NextLooks, Enumerates, IsCandidate, PhaseOk, LookOk;
    var s' := Next(s, e);
    JobsMove(s, e);
    forall j | 0 <= j < |s'.store.jobs|
      ensures AttemptsOk(s'.store.jobs[j], s'.history[j], s'.wins, j)
    {
      if j < |s.store.jobs| {
        assert AttemptsOk(s.store.jobs[j], s.history[j], s.wins, j);
        assert Moves(s.store.jobs[j], s.history[j], s'.store.jobs[j], s'.history[j],
                     Wins(s, e) && PhaseOf(s, e.w).job == j);
        if Wins(s, e) { assert s'.wins[..|s.wins|] == s.wins; }
      } else {
        CountBeyond(s.wins, j);
      }
    }
  }

  lemma WinsStep(s: State, e: Event)
    requires Inv(s) && Enabled(s, e)
    ensures var s' := Next(s, e);
            && (forall k :: 0 <= k < |s'.wins| ==> WinOk(s', s'.wins[k]))
            && (forall k, l :: 0 <= k < l < |s'.wins| ==>
                  s'.wins[k].job != s'.wins[l].job || s'.wins[k].stay != s'.wins[l].stay)
  {
    hide NextStore, NextPhases, NextHistory, NextLooks, Enumerates, IsCandidate, AttemptsOk, PhaseOk, LookOk;
    var s' := Next(s, e);
    JobsMove(s, e);
    forall k | 0 <= k < |s'.wins| ensures WinOk(s', s'.wins[k]) {
      if k < |s.wins| {
        var j := s.wins[k].job;
        assert WinOk(s, s.wins[k]);
        assert Moves(s.store.jobs[j], s.history[j], s'.store.jobs[j], s'.history[j],
                     Wins(s, e) && PhaseOf(s, e.w).job == j);
      }
    }
    if Wins(s, e) {
      forall k | 0 <= k < |s.wins|
        ensures s.wins[k].job != PhaseOf(s, e.w).job || s.wins[k].stay != s.history[PhaseOf(s, e.w).job].stay
      {
        assert WinOk(s, s.wins[k]);
      }
    }
  }

  lemma ItemsStay(s: State, e: Event)
    requires Enabled(s, e)
    ensures |NextStore(s, e).items| >= |s.store.items|
    ensures forall i :: 0 <= i < |s.store.items| && !e.Commit? ==>
              NextStore(s, e).items[i].project == s.store.items[i].project
  {
    hide Enumerates, IsCandidate, StartItems;
  }

  lemma PhasesStep(s: State, e: Event)
    requires Inv(s) && Enabled(s, e)
    ensures forall w :: w in Next(s, e).phases ==> PhaseOk(Next(s, e), w, Next(s, e).phases[w])
  {
    hide AttemptsOk, WinOk, LookOk, NextPhases, NextStore, NextHistory, NextLooks, Enabled;
    forall w | w in Next(s, e).phases ensures PhaseOk(Next(s, e), w, Next(s, e).phases[w]) {
      PhaseStep(s, e, w);
    }
  }

  /** The worker that takes the step, if any. */
  predicate Takes(e: Event, w: WorkerId) {
    (e.Select? || e.Claim? || e.Read? || e.Beat? || e.Commit? || e.Raise? || e.Record? || e.Crash?) && e.w == w
  }

  lemma PhaseStep(s: State, e: Event, w: WorkerId)
    requires Inv(s) && Enabled(s, e) && w in Next(s, e).phases
    ensures PhaseOk(Next(s, e), w, Next(s, e).phases[w])
  {
    hide AttemptsOk, WinOk, LookOk, NextStore, NextHistory, NextLooks, NextPhases;
    if w in s.phases {
      PhaseStays(s, e, w, s.phases[w]);
    }
    if Takes(e, w) {
      OwnPhase(s, e, w);
    } else {
      OtherPhase(s, e, w);
    }
  }

  lemma OtherPhase(s: State, e: Event, w: WorkerId)
    requires |s.history| == |s.store.jobs| && Enabled(s, e) && !Takes(e, w) && w in Next(s, e).phases
    ensures w in s.phases && Next(s, e).phases[w] == s.phases[w]
  {
    hide NextStore, NextHistory, NextLooks, Enumerates, IsCandidate;
  }

  /** What is right about a worker's phase stays right while it stays the same. */
  lemma PhaseStays(s: State, e: Event, w: WorkerId, ph: Phase)
    requires Inv(s) && Enabled(s, e) && PhaseOk(s, w, ph)
    ensures PhaseOk(Next(s, e), w, ph)
  {
    hide AttemptsOk, WinOk, LookOk, NextStore, NextHistory, NextLooks, NextPhases, Enumerates, IsCandidate;
    JobsMove(s, e);
    ItemsStay(s, e);
    if IsHolder(ph) {
      assert Moves(s.store.jobs[ph.job], s.history[ph.job], Next(s, e).store.jobs[ph.job], Next(s, e).history[ph.job],
                   Wins(s, e) && PhaseOf(s, e.w).job == ph.job);
    }
  }

  lemma OwnPhase(s: State, e: Event, w: WorkerId)
    requires Inv(s) && Enabled(s, e) && Takes(e, w) && w in Next(s, e).phases
    requires w in s.phases ==> PhaseOk(Next(s, e), w, s.phases[w])
    ensures PhaseOk(Next(s, e), w, Next(s, e).phases[w])
  {
    hide AttemptsOk, WinOk, LookOk, NextHistory, NextLooks, StartItems;
    var s' := Next(s, e);
    if Wins(s, e) {
      assert s'.wins[|s.wins|] == Win(PhaseOf(s, w).job, s.history[PhaseOf(s, w).job].stay, w);
    }
    if w in s.phases {
      assert PhaseOk(s, w, s.phases[w]);
    }
  }

  lemma LooksStep(s: State, e: Event)
    requires Inv(s) && Enabled(s, e)
    ensures forall r :: r in Next(s, e).looks ==> LookOk(Next(s, e), Next(s, e).looks[r])
  {
    hide AttemptsOk, WinOk, PhaseOk, NextStore, NextHistory, NextPhases, Enumerates, IsCandidate;
    var s' := Next(s, e);
    forall r | r in s'.looks ensures LookOk(s', s'.looks[r]) {
      assert r in s.looks ==> LookOk(s, s.looks[r]);
    }
  }

  // ---------------------------------------------------------------------
  // Runs
  // ---------------------------------------------------------------------

  /** The discipline of recovery and control: a write finds the row in a status that fits its
      check, a recovery writes no row of a live worker's job, and a running job is not cancelled. */
  ghost predicate Disciplined(s: State, e: Event) {
    e.Write? && e.r in s.looks ==>
      forall j :: j in Rows(s.looks[e.r]) && j < |s.store.jobs| ==> MayWrite(s, s.looks[e.r], j)
  }

  ghost predicate MayWrite(s: State, l: Look, j: JobId)
    requires j < |s.store.jobs|
  {
    && Fits(l, s.store.jobs[j].status)
    && (l.OneRow? && l.c == Cancel ==> s.store.jobs[j].status != Running)
    && (l.Orphans? ==> forall w :: w in s.phases && IsHolder(s.phases[w]) ==> s.phases[w].job != j)
  }

  ghost predicate IsRun(s: State, es: seq<Event>, disciplined: bool)
    decreases |es|
  {
    es == [] ||
    (|s.history| == |s.store.jobs| && Enabled(s, es[0]) && (disciplined ==> Disciplined(s, es[0]))
     && IsRun(Next(s, es[0]), es[1..], disciplined))
  }

  ghost function After(s: State, es: seq<Event>): State
    requires IsRun(s, es, false)
    decreases |es|
  {
    if es == [] then s else After(Next(s, es[0]), es[1..])
  }

  lemma {:induction false} DropDiscipline(s: State, es: seq<Event>)
    requires IsRun(s, es, true)
    ensures IsRun(s, es, false)
    decreases |es|
  {
    if es != [] {
      DropDiscipline(Next(s, es[0]), es[1..]);
    }
  }

  lemma {:induction false} InvAlong(s: State, es: seq<Event>)
    requires Inv(s) && IsRun(s, es, false)
    ensures Inv(After(s, es))
    decreases |es|
  {
    hide Inv, Next, Enabled;
    if es != [] {
      InvStep(s, es[0]);
      InvAlong(Next(s, es[0]), es[1..]);
    }
  }

  /** Main result, for every interleaving: a stay of a job in the queue is ended by at most one
      winning claim; `attempts` counts the won claims; two workers that hold the same job won
      it in different stays, so it was re-queued in between. */
  lemma ClaimsAreExclusive(es: seq<Event>)
    requires IsRun(INIT, es, false)
    ensures var s := After(INIT, es);
            && |s.history| == |s.store.jobs|
            && (forall k, l :: 0 <= k < l < |s.wins| && s.wins[k].job == s.wins[l].job ==>
                  s.wins[k].stay != s.wins[l].stay)
            && (forall j :: 0 <= j < |s.store.jobs| ==> s.store.jobs[j].attempts == CountWins(s.wins, j))
            && (forall v, w, j, a, b :: v != w && Holds(PhaseOf(s, v), j, a) && Holds(PhaseOf(s, w), j, b) ==> a != b)
  {
    hide IsRun, After, WinOk, PhaseOk, LookOk;
    InvAlong(INIT, es);
    var s := After(INIT, es);
    forall j | 0 <= j < |s.store.jobs| ensures s.store.jobs[j].attempts == CountWins(s.wins, j) {
      assert AttemptsOk(s.store.jobs[j], s.history[j], s.wins, j);
    }
    forall v, w, j, a, b | v != w && Holds(PhaseOf(s, v), j, a) && Holds(PhaseOf(s, w), j, b)
      ensures a != b
    {
      HoldersDiffer(s, v, w, j, a, b);
    }
  }

  lemma HoldersDiffer(s: State, v: WorkerId, w: WorkerId, j: JobId, a: nat, b: nat)
    requires Inv(s) && v != w && Holds(PhaseOf(s, v), j, a) && Holds(PhaseOf(s, w), j, b)
    ensures a != b
  {
    hide AttemptsOk, WinOk, LookOk;
    assert PhaseOk(s, v, s.phases[v]) && PhaseOk(s, w, s.phases[w]);
    var k :| 0 <= k < |s.wins| && s.wins[k] == Win(j, a, v);
    var l :| 0 <= l < |s.wins| && s.wins[l] == Win(j, b, w);
  }

  /** Main result, for every interleaving: the retry bound. The promised bound holds of every job
      that no overtaken write has hit, and each overtaken write raises it by one at most. */
  lemma AttemptsAreBounded(es: seq<Event>, j: JobId)
    requires IsRun(INIT, es, false) && j < |After(INIT, es).store.jobs|
    ensures var s := After(INIT, es);
            |s.history| == |s.store.jobs| &&
            var job, h := s.store.jobs[j], s.history[j];
            && job.attempts <= Max(1, job.maxAttempts) + h.recoveries + h.retries + h.overtaken
            && (job.status == Queued || job.status == Paused ==>
                  job.attempts < Max(1, job.maxAttempts) + h.recoveries + h.retries + h.overtaken)
  {
    InvAlong(INIT, es);
    var s := After(INIT, es);
    assert AttemptsOk(s.store.jobs[j], s.history[j], s.wins, j);
  }

  /** The promised bound, for one job. */
  predicate Within(job: Job, h: History) {
    job.attempts <= Promised(job, h)
    && (job.status == Queued || job.status == Paused ==> job.attempts < Promised(job, h))
  }

  /** The step is an overtaken write that puts a job without attempts left into the queue or on
      pause: a pause, resume, retry or recovery, or a failure recorded for an earlier attempt. */
  ghost predicate GrantsAttempt(s: State, e: Event, j: JobId)
    requires |s.history| == |s.store.jobs| && Enabled(s, e) && j < |s.store.jobs|
  {
    && Overtaken(s, e, j) && s.store.jobs[j].attempts == Promised(s.store.jobs[j], s.history[j])
    && (Next(s, e).store.jobs[j].status == Queued || Next(s, e).store.jobs[j].status == Paused)
  }

  /** Main result: a job within the promised bound stays within it at a step if and only if the
      step is no overtaken write that grants it a further attempt. */
  lemma PromiseKept(s: State, e: Event, j: JobId)
    requires Inv(s) && Enabled(s, e) && j < |s.store.jobs| && Within(s.store.jobs[j], s.history[j])
    ensures Within(Next(s, e).store.jobs[j], Next(s, e).history[j]) <==> !GrantsAttempt(s, e, j)
  {
    hide NextStore, NextPhases, NextLooks, Enumerates, IsCandidate, AttemptsOk, WinOk, PhaseOk, LookOk;
    JobsMove(s, e);
    var s' := Next(s, e);
    assert Moves(s.store.jobs[j], s.history[j], s'.store.jobs[j], s'.history[j], Wins(s, e) && PhaseOf(s, e.w).job == j);
  }

  // ---------------------------------------------------------------------
  // What holds over every disciplined run
  // ---------------------------------------------------------------------

  /** A worker that holds a job is the one its row names, and the job is running. */
  ghost predicate HolderOk(s: State, w: WorkerId, ph: Phase) {
    IsHolder(ph) ==>
      && ph.job < |s.store.jobs| && ph.job < |s.history|
      && s.store.jobs[ph.job].status == Running
      && s.store.jobs[ph.job].workerId == Some(w)
      && s.history[ph.job].stay == ph.stay
      && (ph.Failing? ==> s.store.jobs[ph.job] == ph.row)
  }

  /** A running job is held by the worker its row names, unless that worker is dead. */
  ghost predicate RunningOk(s: State, job: Job, j: JobId) {
    job.status == Running ==>
      && job.workerId.Some? && job.workerId.value in s.phases
      && var ph := s.phases[job.workerId.value];
         ph.Dead? || (IsHolder(ph) && ph.job == j)
  }

  ghost predicate Live(s: State) {
    && (forall w :: w in s.phases ==> HolderOk(s, w, s.phases[w]))
    && (forall j :: 0 <= j < |s.store.jobs| ==> RunningOk(s, s.store.jobs[j], j))
  }

  /** With the discipline a step changes a running job only if its holder takes it, or nobody
      holds it and it is recovered. */
  lemma RunningStep(s: State, e: Event, j: JobId)
    requires Inv(s) && Enabled(s, e) && Disciplined(s, e)
    requires j < |s.store.jobs| && s.store.jobs[j].status == Running
    ensures var job := NextStore(s, e).jobs[j];
            || job == s.store.jobs[j]
            || ((e.Beat? || e.Commit? || e.Record?) && PhaseOf(s, e.w).job == j)
            || (job.status == Queued && forall w :: w in s.phases && IsHolder(s.phases[w]) ==> s.phases[w].job != j)
  {
    hide Enumerates, IsCandidate, StartItems, AttemptsOk, WinOk, PhaseOk;
    if e.Write? {
      RecoveredOnly(s, e, j);
    } else {
      OnlyOwn(s, e, j);
    }
  }

  /** No step but a write changes a row that is not the job of the worker that takes it, and a
      claim changes no running row. */
  lemma OnlyOwn(s: State, e: Event, j: JobId)
    requires |s.history| == |s.store.jobs| && Enabled(s, e) && j < |s.store.jobs| && !e.Write?
    ensures NextStore(s, e).jobs[j] == s.store.jobs[j]
            || ((e.Beat? || e.Commit? || e.Record? || (e.Claim? && s.store.jobs[j].status == Queued)) && PhaseOf(s, e.w).job == j)
  {
    hide Enumerates, IsCandidate, StartItems;
    if e.Commit? && PhaseOf(s, e.w).Executing? {
      ExecutionMoves(s, e);
    }
  }

  lemma RecoveredOnly(s: State, e: Event, j: JobId)
    requires Inv(s) && Enabled(s, e) && Disciplined(s, e) && e.Write?
    requires j < |s.store.jobs| && s.store.jobs[j].status == Running
    ensures var job := NextStore(s, e).jobs[j];
            job == s.store.jobs[j]
            || (job.status == Queued && forall w :: w in s.phases && IsHolder(s.phases[w]) ==> s.phases[w].job != j)
  {
    hide AttemptsOk, WinOk, PhaseOk;
    if j in Rows(s.looks[e.r]) {
      assert LookOk(s, s.looks[e.r]) && MayWrite(s, s.looks[e.r], j);
      LateWrite(s.looks[e.r], Rows(s.looks[e.r])[j], s.store.jobs[j], e.now);
    }
  }

  lemma LiveStep(s: State, e: Event)
    requires Inv(s) && Live(s) && Enabled(s, e) && Disciplined(s, e)
    ensures Live(Next(s, e))
  {
    hide NextStore, NextPhases, NextLooks, NextHistory, HolderOk, RunningOk, AttemptsOk, WinOk, PhaseOk, LookOk, Disciplined, Enabled;
    var s' := Next(s, e);
    forall w | w in s'.phases ensures HolderOk(s', w, s'.phases[w]) {
      HolderStep(s, e, w);
    }
    forall j | 0 <= j < |s'.store.jobs| ensures RunningOk(s', s'.store.jobs[j], j) {
      RunningKept(s, e, j);
    }
  }

  lemma HolderStep(s: State, e: Event, w: WorkerId)
    requires Inv(s) && Live(s) && Enabled(s, e) && Disciplined(s, e) && w in Next(s, e).phases
    ensures HolderOk(Next(s, e), w, Next(s, e).phases[w])
  {
    if Takes(e, w) {
      OwnHolderStep(s, e, w);
    } else {
      OtherHolderStep(s, e, w);
    }
  }

  lemma OwnHolderStep(s: State, e: Event, w: WorkerId)
    requires |s.history| == |s.store.jobs| && Live(s) && Enabled(s, e) && Takes(e, w)
    ensures w in Next(s, e).phases ==> HolderOk(Next(s, e), w, Next(s, e).phases[w])
  {
    hide Enumerates, IsCandidate, StartItems, RunningOk;
    if w in s.phases {
      assert HolderOk(s, w, s.phases[w]);
    }
  }

  lemma OtherHolderStep(s: State, e: Event, w: WorkerId)
    requires Inv(s) && Live(s) && Enabled(s, e) && Disciplined(s, e) && w in Next(s, e).phases && !Takes(e, w)
    ensures HolderOk(Next(s, e), w, Next(s, e).phases[w])
  {
    hide NextStore, NextLooks, NextHistory, Enumerates, IsCandidate, RunningOk, AttemptsOk, WinOk, PhaseOk, LookOk;
    assert w in s.phases && Next(s, e).phases[w] == s.phases[w];
    assert HolderOk(s, w, s.phases[w]);
    if IsHolder(s.phases[w]) {
      RunningStep(s, e, s.phases[w].job);
      StayKept(s, e, s.phases[w].job);
      if e.Beat? || e.Commit? || e.Record? {
        assert HolderOk(s, e.w, s.phases[e.w]);
      }
    }
  }

  lemma StayKept(s: State, e: Event, j: JobId)
    requires |s.history| == |s.store.jobs| && Enabled(s, e) && j < |s.store.jobs|
    ensures NextStore(s, e).jobs[j].status == s.store.jobs[j].status ==> Next(s, e).history[j].stay == s.history[j].stay
  {
    hide NextStore, NextLooks, NextPhases, Enumerates, IsCandidate;
  }

  /** With the discipline only a winning claim makes a job running. */
  lemma OnlyClaimsRun(s: State, e: Event, j: JobId)
    requires Inv(s) && Live(s) && Enabled(s, e) && Disciplined(s, e)
    requires j < |NextStore(s, e).jobs| && NextStore(s, e).jobs[j].status == Running
    ensures j < |s.store.jobs|
    ensures s.store.jobs[j].status == Running || (Wins(s, e) && PhaseOf(s, e.w).job == j)
  {
    hide Enumerates, IsCandidate, StartItems, AttemptsOk, WinOk, PhaseOk, RunningOk;
    JobsMove(s, e);
    if e.Commit? && PhaseOf(s, e.w).Executing? {
      ExecutionMoves(s, e);
    }
    if e.Commit? || e.Record? {
      assert HolderOk(s, e.w, s.phases[e.w]);
    }
    if e.Write? && j in Rows(s.looks[e.r]) && j < |s.store.jobs| {
      assert LookOk(s, s.looks[e.r]);
      LateWrite(s.looks[e.r], Rows(s.looks[e.r])[j], s.store.jobs[j], e.now);
    }
  }

  lemma RunningKept(s: State, e: Event, j: JobId)
    requires Inv(s) && Live(s) && Enabled(s, e) && Disciplined(s, e) && j < |Next(s, e).store.jobs|
    ensures RunningOk(Next(s, e), Next(s, e).store.jobs[j], j)
  {
    hide HolderOk, NextHistory, NextLooks, Enumerates, IsCandidate, StartItems, AttemptsOk, WinOk, PhaseOk, LookOk;
    if Next(s, e).store.jobs[j].status == Running {
      OnlyClaimsRun(s, e, j);
      if s.store.jobs[j].status == Running {
        StillHeld(s, e, j);
      }
    }
  }

  lemma StillHeld(s: State, e: Event, j: JobId)
    requires Inv(s) && Live(s) && Enabled(s, e) && Disciplined(s, e)
    requires j < |s.store.jobs| && s.store.jobs[j].status == Running && NextStore(s, e).jobs[j].status == Running
    ensures RunningOk(Next(s, e), NextStore(s, e).jobs[j], j)
  {
    hide NextStore, NextHistory, NextLooks, Enumerates, IsCandidate, AttemptsOk, WinOk, PhaseOk, LookOk;
    RunningStep(s, e, j);
    assert RunningOk(s, s.store.jobs[j], j);
    if e.Beat? || e.Commit? || e.Record? {
      assert HolderOk(s, e.w, s.phases[e.w]);
      EndedOrBeaten(s, e);
    }
  }

  /** How the job of a worker looks after the worker's own write. */
  lemma EndedOrBeaten(s: State, e: Event)
    requires Live(s) && Enabled(s, e) && (e.Beat? || e.Commit? || e.Record?)
    ensures var job, j := NextStore(s, e).jobs[PhaseOf(s, e.w).job], PhaseOf(s, e.w).job;
            && (e.Beat? ==> job == s.store.jobs[j].(heartbeatAt := job.heartbeatAt, progressPct := job.progressPct))
            && (e.Commit? ==> job.status == Completed)
            && (e.Record? ==> job == AfterFailure(s.store.jobs[j], e.error, e.now) && job.status != Running)
  {
    hide StartItems, RunningOk;
    assert HolderOk(s, e.w, s.phases[e.w]);
  }

  /** Main result: with the discipline, a job that has ended stays as it is until it is
      retried by hand. */
  lemma TerminalIsAbsorbing(s: State, e: Event, j: JobId)
    requires Inv(s) && Live(s) && Enabled(s, e) && Disciplined(s, e)
    requires j < |s.store.jobs| && Terminal(s.store.jobs[j].status) && !Retries(s, e, j)
    ensures j < |Next(s, e).store.jobs| && Next(s, e).store.jobs[j] == s.store.jobs[j]
  {
    hide Enumerates, IsCandidate, NextStore, NextHistory, NextPhases, AttemptsOk, WinOk, PhaseOk, LookOk, RunningOk;
    if e.Write? {
      EndedNotWritten(s, e, j);
    } else {
      OnlyOwn(s, e, j);
      if e.Commit? || e.Record? || e.Beat? {
        assert HolderOk(s, e.w, s.phases[e.w]);
      }
    }
  }

  lemma EndedNotWritten(s: State, e: Event, j: JobId)
    requires Enabled(s, e) && Disciplined(s, e) && e.Write?
    requires j < |s.store.jobs| && Terminal(s.store.jobs[j].status) && !Retries(s, e, j)
    ensures NextStore(s, e).jobs[j] == s.store.jobs[j]
  {
    assert j in Rows(s.looks[e.r]) ==> MayWrite(s, s.looks[e.r], j);
  }

  /** A step leaves the status of every ended job as it was. */
  ghost predicate KeepsEnded(s: State, e: Event)
    requires Enabled(s, e)
  {
    forall j :: 0 <= j < |s.store.jobs| && Terminal(s.store.jobs[j].status) ==>
      NextStore(s, e).jobs[j].status == s.store.jobs[j].status
  }

  /** Without the discipline it is not so: `complete`, `fail` and the writes of control calls and
      recoveries have no guard. A worker that finishes keeps every ended job as it was if and only
      if its own job had not been cancelled or failed meanwhile. */
  lemma CommitOverwrites(s: State, e: Event)
    requires Inv(s) && Enabled(s, e) && e.Commit?
    ensures KeepsEnded(s, e) <==> s.store.jobs[PhaseOf(s, e.w).job].status !in {Cancelled, Failed}
  {
    hide StartItems, AttemptsOk, WinOk, PhaseOk, LookOk;
    var own := PhaseOf(s, e.w).job;
    if PhaseOf(s, e.w).Executing? {
      ExecutionMoves(s, e);
    }
    assert NextStore(s, e).jobs[own].status == Completed;
  }

  /** A worker that records a failure does so if and only if the status it writes is the one it has
      loaded, its own job had not ended meanwhile, or had ended as the status it writes. */
  lemma RecordOverwrites(s: State, e: Event)
    requires Inv(s) && Enabled(s, e) && e.Record?
    ensures var seen, own := PhaseOf(s, e.w).row, s.store.jobs[PhaseOf(s, e.w).job];
            var status := if seen.attempts < seen.maxAttempts then Queued else Failed;
            KeepsEnded(s, e) <==> status == seen.status || !Terminal(own.status) || own.status == status
  {
    var j := PhaseOf(s, e.w).job;
    assert NextStore(s, e).jobs[j] == Flushed(PhaseOf(s, e.w).row, AfterFailure(PhaseOf(s, e.w).row, e.error, e.now), s.store.jobs[j]);
  }

  /** A control call or a recovery does so if and only if none of the rows it writes has ended by
      then, unless it cancels a row that is cancelled already. */
  lemma WriteOverwrites(s: State, e: Event)
    requires Inv(s) && Enabled(s, e) && e.Write?
    ensures KeepsEnded(s, e) <==>
              var l := s.looks[e.r];
              forall j :: j in Rows(l) && Terminal(s.store.jobs[j].status) ==>
                l.OneRow? && l.c == Cancel && s.store.jobs[j].status == Cancelled
  {
    hide AttemptsOk, WinOk, PhaseOk;
    var l := s.looks[e.r];
    assert LookOk(s, l);
    forall j | j in Rows(l)
      ensures NextStore(s, e).jobs[j].status == Changed(l, s.store.jobs[j], e.now).status
    {
      LateWrite(l, Rows(l)[j], s.store.jobs[j], e.now);
    }
  }
}
