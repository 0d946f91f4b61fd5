/** `job_queue.py`: the durable queue. Every operation is a function from the job table to
    the job table; the methods of the class apply them to the open transaction. */
module JobQueue {
  import opened Text
  import opened Database

  // ---------------------------------------------------------------------
  // The operations on the job table
  // ---------------------------------------------------------------------

  function Backoff(attempts: nat): int {
    match attempts case 0 => 0 case 1 => 5 case 2 => 15 case 3 => 60 case _ => 300
  }

  function FindKey(jobs: seq<Job>, key: Key): (r: Option<JobId>)
    ensures r.Some? ==> r.value < |jobs| && jobs[r.value].key == Some(key)
    ensures r.None? ==> forall j :: 0 <= j < |jobs| ==> jobs[j].key != Some(key)
  {
    if jobs == [] then None
    else if jobs[0].key == Some(key) then Some(0)
    else match FindKey(jobs[1..], key) case None => None case Some(j) => Some(j + 1)
  }

  function NewJob(work: Work, maxAttempts: int, priority: int, key: Option<Key>, now: int): Job {
    Job(work, Queued, priority, 0, maxAttempts, key, None, 0, None, None, now, Some(now), None, None, None)
  }

  /** `enqueue`: a key that is already in the table names the job that is already there. */
  function Enqueued(jobs: seq<Job>, work: Work, maxAttempts: int, priority: int, key: Option<Key>, now: int): seq<Job> {
    if key.Some? && FindKey(jobs, key.value).Some? then jobs
    else jobs + [NewJob(work, maxAttempts, priority, key, now)]
  }

  predicate Due(job: Job, now: int) {
    job.status == Queued && (job.scheduledAt.None? || job.scheduledAt.value <= now)
  }

  /** Ordered before or alongside: higher priority, then earlier creation. */
  predicate NotAfter(a: Job, b: Job) {
    a.priority > b.priority || (a.priority == b.priority && a.createdAt <= b.createdAt)
  }

  /** A row the claim's SELECT may return. */
  predicate IsCandidate(jobs: seq<Job>, now: int, id: JobId) {
    id < |jobs| && Due(jobs[id], now) && forall j :: 0 <= j < |jobs| && Due(jobs[j], now) ==> NotAfter(jobs[id], jobs[j])
  }

  /** The guarded UPDATE of a claim, when its guard holds. */
  function Claimed(job: Job, seenStart: Option<int>, w: WorkerId, now: int): Job {
    job.(status := Running, workerId := Some(w), attempts := job.attempts + 1,
         startedAt := if seenStart.Some? then seenStart else Some(now), heartbeatAt := Some(now))
  }

  function Done(job: Job, result: string, now: int): Job {
    job.(status := Completed, progressPct := 100, result := Some(result), completedAt := Some(now))
  }

  /** `fail`: back to the queue while attempts remain, otherwise failed for good. */
  function AfterFailure(job: Job, error: string, now: int): Job {
    var told := job.(error := Some(if |error| <= 2000 then error else error[..2000]));
    if job.attempts < job.maxAttempts then
      told.(status := Queued, workerId := None, scheduledAt := Some(now + Backoff(job.attempts)))
    else
      told.(status := Failed, completedAt := Some(now))
  }

  predicate Orphan(job: Job, now: int, stale: int) {
    job.status == Running && (job.heartbeatAt.None? || job.heartbeatAt.value < now - stale)
  }

  function Requeued(job: Job, now: int): Job {
    job.(status := Queued, workerId := None, scheduledAt := Some(now))
  }

  datatype Control = Cancel | Pause | Resume | Retry

  predicate Allowed(c: Control, s: JobStatus) {
    match c
    case Cancel => !Terminal(s)
    case Pause => s == Queued
    case Resume => s == Paused
    case Retry => s == Failed || s == Cancelled
  }

  function Controlled(c: Control, job: Job, now: int): Job {
    match c
    case Cancel => job.(status := Cancelled, completedAt := Some(now))
    case Pause => job.(status := Paused)
    case Resume => job.(status := Queued, scheduledAt := Some(now))
    case Retry => Requeued(job, now).(error := None)
  }

  // ---------------------------------------------------------------------
  // Looking at a row and writing it later
  // ---------------------------------------------------------------------

  /** What a request has read before it writes: the row a control call has loaded and found in
      a fitting status, or the orphans a recovery has selected. */
  datatype Look = OneRow(c: Control, id: JobId, row: Job) | Orphans(rows: map<JobId, Job>)

  function Rows(l: Look): map<JobId, Job> {
    match l case OneRow(_, id, row) => map[id := row] case Orphans(rows) => rows
  }

  /** The status the request looks for. */
  predicate Fits(l: Look, s: JobStatus) {
    match l case OneRow(c, _, _) => Allowed(c, s) case Orphans(_) => s == Running
  }

  /** What the request makes of a row it has loaded. */
  function Changed(l: Look, row: Job, now: int): Job {
    match l case OneRow(c, _, _) => Controlled(c, row, now) case Orphans(_) => Requeued(row, now)
  }

  /** The UPDATE of a flush: keyed by the id alone, it sets the columns in which the changed row
      differs from the row as it was loaded, whatever the row in the table is by then. */
  function Flushed(seen: Job, changed: Job, row: Job): Job {
    row.(status := if changed.status == seen.status then row.status else changed.status,
         workerId := if changed.workerId == seen.workerId then row.workerId else changed.workerId,
         error := if changed.error == seen.error then row.error else changed.error,
         scheduledAt := if changed.scheduledAt == seen.scheduledAt then row.scheduledAt else changed.scheduledAt,
         completedAt := if changed.completedAt == seen.completedAt then row.completedAt else changed.completedAt)
  }

  function Written(jobs: seq<Job>, l: Look, now: int): (r: seq<Job>)
    ensures |r| == |jobs|
  {
    seq(|jobs|, j requires 0 <= j < |jobs| =>
      if j in Rows(l) then Flushed(Rows(l)[j], Changed(l, Rows(l)[j], now), jobs[j]) else jobs[j])
  }

  function OrphanRows(jobs: seq<Job>, now: int, stale: int): map<JobId, Job> {
    map j: JobId | j < |jobs| && Orphan(jobs[j], now, stale) :: jobs[j]
  }

  /** A row that nobody has moved since it was loaded is written as the request means it. */
  lemma UnmovedRow(l: Look, row: Job, now: int)
    ensures Flushed(row, Changed(l, row, now), row) == Changed(l, row, now)
  {
  }

  /** The write sets the status it means to set whatever the status has become since, and leaves
      what a worker writes - attempts, heartbeat, progress and result - as it has become. */
  lemma LateWrite(l: Look, seen: Job, row: Job, now: int)
    requires Fits(l, seen.status)
    ensures var written := Flushed(seen, Changed(l, seen, now), row);
            && written.status == Changed(l, row, now).status
            && written == row.(status := written.status, workerId := written.workerId, error := written.error,
                               scheduledAt := written.scheduledAt, completedAt := written.completedAt)
  {
  }

  /** What a late write does to each column: a control call sets its own ones, a recovery takes the job
      from the worker it was seen with, and no other column is touched. */
  lemma LateColumns(l: Look, seen: Job, row: Job, now: int)
    requires Fits(l, seen.status)
    ensures var written := Flushed(seen, Changed(l, seen, now), row);
            && (l.OneRow? && l.c == Pause ==> written == row.(status := Paused))
            && (l.OneRow? && l.c == Cancel ==>
                  written == row.(status := Cancelled, completedAt := if seen.completedAt == Some(now) then row.completedAt else Some(now)))
            && (l.OneRow? && l.c == Resume ==>
                  written == row.(status := Queued, scheduledAt := if seen.scheduledAt == Some(now) then row.scheduledAt else Some(now)))
            && (l.Orphans? ==>
                  written == row.(status := Queued, workerId := if seen.workerId.None? then row.workerId else None,
                                  scheduledAt := if seen.scheduledAt == Some(now) then row.scheduledAt else Some(now)))
  {
  }

  /** Exactly the rows that were looked at are written. */
  lemma WrittenExactly(jobs: seq<Job>, l: Look, now: int, j: JobId)
    requires j < |jobs|
    ensures j !in Rows(l) ==> Written(jobs, l, now)[j] == jobs[j]
    ensures j in Rows(l) && Rows(l)[j] == jobs[j] ==> Written(jobs, l, now)[j] == Changed(l, jobs[j], now)
  {
    if j in Rows(l) && Rows(l)[j] == jobs[j] {
      UnmovedRow(l, jobs[j], now);
    }
  }

  /** A recovery finds every running job without a heartbeat since the cutoff, and no other. */
  lemma OrphansExactly(jobs: seq<Job>, now: int, stale: int, j: JobId)
    ensures j in OrphanRows(jobs, now, stale) <==>
              j < |jobs| && jobs[j].status == Running && (jobs[j].heartbeatAt.Some? ==> now - jobs[j].heartbeatAt.value > stale)
    ensures j in OrphanRows(jobs, now, stale) ==> OrphanRows(jobs, now, stale)[j] == jobs[j]
  {
  }

  /** Whenever some job is due, the SELECT finds a candidate. */
  lemma {:induction false} CandidateExists(jobs: seq<Job>, now: int) returns (id: JobId)
    requires exists j :: 0 <= j < |jobs| && Due(jobs[j], now)
    ensures IsCandidate(jobs, now, id)
  {
    var n := |jobs| - 1;
    var front := jobs[..n];
    if exists j :: 0 <= j < n && Due(front[j], now) {
      id := CandidateExists(front, now);
      forall j | 0 <= j < n && Due(jobs[j], now) ensures NotAfter(jobs[id], jobs[j]) {
        assert front[j] == jobs[j];
      }
      if Due(jobs[n], now) && !NotAfter(jobs[id], jobs[n]) {
        id := n;
      }
    } else {
      forall j | 0 <= j < n ensures !Due(jobs[j], now) {
        assert front[j] == jobs[j];
      }
      id := n;
    }
  }

  /** A paused job is never due; resuming it undoes the pause, due at once. */
  lemma PauseIsUndone(job: Job, then_: int, now: int)
    requires Allowed(Pause, job.status)
    ensures var paused := Controlled(Pause, job, then_);
            && (forall t: int :: !Due(paused, t))
            && Allowed(Resume, paused.status)
            && Controlled(Resume, paused, now) == job.(scheduledAt := Some(now))
            && Due(Controlled(Resume, paused, now), now)
  {
  }

  /** A retry does not give the attempts back: the job is due at once, and when the attempt it
      then gets fails it is failed for good if and only if that attempt was the last one. */
  lemma RetryKeepsAttempts(job: Job, w: WorkerId, error: string, now: int, later: int)
    requires Allowed(Retry, job.status)
    ensures var retried := Controlled(Retry, job, now);
            && Due(retried, now)
            && (AfterFailure(Claimed(retried, retried.startedAt, w, now), error, later).status == Failed
                <==> job.attempts + 1 >= job.maxAttempts)
  {
  }

  /** Which job comes first: a due one than which no due one has a higher priority, nor, among those
      of its priority, was created earlier. */
  lemma FirstDue(jobs: seq<Job>, now: int, id: JobId)
    ensures IsCandidate(jobs, now, id) <==>
              && id < |jobs| && Due(jobs[id], now)
              && (forall j :: 0 <= j < |jobs| && Due(jobs[j], now) ==> jobs[j].priority <= jobs[id].priority)
              && (forall j :: 0 <= j < |jobs| && Due(jobs[j], now) && jobs[j].priority == jobs[id].priority ==>
                    jobs[j].createdAt >= jobs[id].createdAt)
  {
  }

  /** A new job is due from its creation on, and nobody has tried it. */
  lemma NewIsDue(work: Work, maxAttempts: int, priority: int, key: Option<Key>, now: int, t: int)
    ensures var job := NewJob(work, maxAttempts, priority, key, now);
            && (Due(job, t) <==> now <= t) && job.attempts == 0 && job.createdAt == now
            && job.work == work && job.maxAttempts == maxAttempts && job.priority == priority && job.key == key
  {
  }

  /** A claimed job is its worker's, no longer due, one attempt on, and is taken for an orphan no
      earlier than its heartbeat is stale. The first claim sets its start. */
  lemma ClaimedExactly(job: Job, w: WorkerId, now: int, t: int, stale: int)
    ensures var c := Claimed(job, job.startedAt, w, now);
            && c.workerId == Some(w) && c.attempts == job.attempts + 1 && !Due(c, t)
            && (Orphan(c, t, stale) <==> t - stale > now)
            && c.startedAt == (if job.startedAt.Some? then job.startedAt else Some(now))
            && c.work == job.work && c.key == job.key && c.priority == job.priority && c.maxAttempts == job.maxAttempts
  {
  }

  /** A completed job carries its result and is never due or an orphan again. */
  lemma DoneExactly(job: Job, result: string, now: int, t: int, stale: int)
    ensures var d := Done(job, result, now);
            && d.result == Some(result) && d.progressPct == 100 && d.completedAt == Some(now)
            && d.status == Completed && !Due(d, t) && !Orphan(d, t, stale) && d.attempts == job.attempts
  {
  }

  /** A failed attempt: with attempts left the job is due again 5, 15, 60 and then always 300
      seconds later, and not before; without, it has failed. The first 2000 characters of the
      error are kept. */
  lemma FailureExactly(job: Job, error: string, now: int, t: int)
    ensures var f := AfterFailure(job, error, now);
            && (f.status == Failed <==> job.attempts >= job.maxAttempts)
            && (job.attempts < job.maxAttempts ==>
                  f.workerId.None?
                  && (Due(f, t) <==> now + (if job.attempts == 0 then 0 else if job.attempts == 1 then 5 else if job.attempts == 2 then 15
                                            else if job.attempts == 3 then 60 else 300) <= t))
            && f.error.Some? && f.error.value <= error && |f.error.value| == (if |error| < 2000 then |error| else 2000)
            && f.attempts == job.attempts
  {
  }

  /** Cancelling, pausing, resuming and retrying: for which jobs, and what becomes of them. */
  lemma ControlledExactly(c: Control, job: Job, now: int, t: int)
    requires Allowed(c, job.status)
    ensures c == Cancel ==> job.status !in {Completed, Failed, Cancelled} && Controlled(c, job, now).status == Cancelled
    ensures c == Pause ==> job.status == Queued && Controlled(c, job, now) == job.(status := Paused)
    ensures c == Resume ==> job.status == Paused && (Due(Controlled(c, job, now), t) <==> now <= t)
    ensures c == Retry ==>
              job.status in {Failed, Cancelled} && (Due(Controlled(c, job, now), t) <==> now <= t)
              && Controlled(c, job, now).error.None? && Controlled(c, job, now).workerId.None?
    ensures Controlled(c, job, now).attempts == job.attempts
  {
  }

  /** A recovered job is due at once, without a worker, and keeps its attempts. */
  lemma RequeuedExactly(job: Job, now: int, t: int, stale: int)
    ensures var r := Requeued(job, now);
            && (Due(r, t) <==> now <= t) && r.workerId.None? && r.attempts == job.attempts && !Orphan(r, t, stale)
    ensures Orphan(job, t, stale) <==> job.status == Running && (job.heartbeatAt.Some? ==> t - job.heartbeatAt.value > stale)
  {
  }

  // ---------------------------------------------------------------------
  // The queue object
  // ---------------------------------------------------------------------

  datatype ControlError = NotFound | NotAllowed

  class JobQueue {
    const db: Session

    constructor (db: Session)
      ensures this.db == db
    {
      this.db := db;
    }

    method Enqueue(work: Work, maxAttempts: int, priority: int, key: Option<Key>, now: int) returns (id: JobId)
      modifies db
      ensures db.committed == old(db.committed)
      ensures db.working == old(db.working).(jobs := Enqueued(old(db.working.jobs), work, maxAttempts, priority, key, now))
      ensures id < |db.working.jobs| && (key.Some? ==> db.working.jobs[id].key == key)
    {
      if key.Some? {
        var existing := FindKey(db.working.jobs, key.value);
        if existing.Some? {
          return existing.value;
        }
      }
      id := |db.working.jobs|;
      db.working := db.working.(jobs := db.working.jobs + [NewJob(work, maxAttempts, priority, key, now)]);
    }

    method SelectCandidate(now: int) returns (candidate: Option<JobId>)
      ensures candidate.None? ==> forall j :: 0 <= j < |db.working.jobs| ==> !Due(db.working.jobs[j], now)
      ensures candidate.Some? ==> IsCandidate(db.working.jobs, now, candidate.value)
    {
      var jobs := db.working.jobs;
      if !exists j :: 0 <= j < |jobs| && Due(jobs[j], now) {
        return None;
      }
      ghost var witness_ := CandidateExists(jobs, now);
      var id: nat :| id < |jobs| && IsCandidate(jobs, now, id);
      return Some(id);
    }

    /** Select, then the guarded update in the same transaction; `latest` is what others have
        committed by the time of the update. No claim: nothing is due, or the race is lost. */
    method ClaimNext(w: WorkerId, now: int, latest: Store) returns (claimed: Option<JobId>, candidate: Option<JobId>)
      requires db.working == db.committed && |latest.jobs| >= |db.working.jobs|
      modifies db
      ensures candidate.None? <==> forall j :: 0 <= j < |old(db.working.jobs)| ==> !Due(old(db.working.jobs)[j], now)
      ensures candidate.Some? ==> IsCandidate(old(db.working.jobs), now, candidate.value)
      ensures claimed == if candidate.Some? && latest.jobs[candidate.value].status == Queued then candidate else None
      ensures db.committed == if candidate.Some? then latest else old(db.committed)
      ensures db.working ==
                if claimed.None? then db.committed
                else var id := claimed.value;
                     latest.(jobs := latest.jobs[id := Claimed(latest.jobs[id], old(db.working.jobs)[id].startedAt, w, now)])
    {
      candidate := SelectCandidate(now);
      if candidate.None? {
        return None, None;
      }
      var seenStart := db.working.jobs[candidate.value].startedAt;
      db.Refresh(latest);
      var won := TryClaim(candidate.value, seenStart, w, now);
      claimed := if won then candidate else None;
    }

    /** The guarded UPDATE; its row count tells whether the row was still queued. */
    method TryClaim(id: JobId, seenStart: Option<int>, w: WorkerId, now: int) returns (won: bool)
      requires id < |db.working.jobs|
      modifies db
      ensures db.committed == old(db.committed)
      ensures won <==> old(db.working.jobs)[id].status == Queued
      ensures db.working == if won then old(db.working).(jobs := old(db.working.jobs)[id :=
                                          Claimed(old(db.working.jobs)[id], seenStart, w, now)])
                            else old(db.working)
    {
      var job := db.working.jobs[id];
      won := job.status == Queued;
      if won {
        db.working := db.working.(jobs := db.working.jobs[id := Claimed(job, seenStart, w, now)]);
      }
    }

    method Complete(id: JobId, result: string, now: int)
      requires id < |db.working.jobs|
      modifies db
      ensures db.committed == old(db.committed)
      ensures db.working == old(db.working).(jobs := old(db.working.jobs)[id := Done(old(db.working.jobs)[id], result, now)])
    {
      db.working := db.working.(jobs := db.working.jobs[id := Done(db.working.jobs[id], result, now)]);
    }

    /** `fail`, on the row as it was loaded after the rollback. */
    method Fail(id: JobId, seen: Job, error: string, now: int)
      requires id < |db.working.jobs|
      modifies db
      ensures db.committed == old(db.committed)
      ensures db.working == old(db.working).(jobs := old(db.working.jobs)[id :=
                              Flushed(seen, AfterFailure(seen, error, now), old(db.working.jobs)[id])])
    {
      var job := seen.(error := Some(if |error| <= 2000 then error else error[..2000]));
      if job.attempts < job.maxAttempts {
        var backoff := Backoff(job.attempts);
        job := job.(status := Queued, workerId := None, scheduledAt := Some(now + backoff));
      } else {
        job := job.(status := Failed, completedAt := Some(now));
      }
      Flush(id, seen, job);
    }

    method Flush(id: JobId, seen: Job, changed: Job)
      requires id < |db.working.jobs|
      modifies db
      ensures db.committed == old(db.committed)
      ensures db.working == old(db.working).(jobs := old(db.working.jobs)[id := Flushed(seen, changed, old(db.working.jobs)[id])])
    {
      db.working := db.working.(jobs := db.working.jobs[id := Flushed(seen, changed, db.working.jobs[id])]);
    }

    method SelectOrphans(now: int, stale: int) returns (rows: map<JobId, Job>)
      ensures rows == OrphanRows(db.working.jobs, now, stale)
    {
      rows := map[];
      for j := 0 to |db.working.jobs|
        invariant forall i: JobId :: i in rows <==> i < j && Orphan(db.working.jobs[i], now, stale)
        invariant forall i: JobId :: i in rows ==> rows[i] == db.working.jobs[i]
      {
        if Orphan(db.working.jobs[j], now, stale) {
          rows := rows[j := db.working.jobs[j]];
        }
      }
    }

    /** Select the orphans, then re-queue each of them; the answer is their number. */
    method RecoverOrphans(now: int, stale: int, latest: Store) returns (count: nat)
      requires db.working == db.committed && |latest.jobs| >= |db.working.jobs|
      modifies db
      ensures db.committed == latest
      ensures var rows := OrphanRows(old(db.working.jobs), now, stale);
              count == |rows| && db.working == latest.(jobs := Written(latest.jobs, Orphans(rows), now))
    {
      hide Flushed, Requeued, OrphanRows;
      var rows := SelectOrphans(now, stale);
      db.Refresh(latest);
      for j := 0 to |latest.jobs|
        invariant db.committed == latest && db.working == latest.(jobs := db.working.jobs)
        invariant |db.working.jobs| == |latest.jobs|
        invariant forall i :: 0 <= i < |latest.jobs| ==>
                    db.working.jobs[i] == if i < j then Written(latest.jobs, Orphans(rows), now)[i] else latest.jobs[i]
      {
        if j in rows {
          Flush(j, rows[j], Requeued(rows[j], now));
        }
      }
      assert db.working.jobs == Written(latest.jobs, Orphans(rows), now);
      return |rows|;
    }

    /** The row of a control call, loaded and found in a fitting status. */
    method Load(c: Control, id: JobId) returns (r: Result<Job, ControlError>)
      ensures r == if id >= |db.working.jobs| then Err(NotFound)
                   else if !Allowed(c, db.working.jobs[id].status) then Err(NotAllowed)
                   else Ok(db.working.jobs[id])
    {
      if id >= |db.working.jobs| {
        return Err(NotFound);
      }
      var job := db.working.jobs[id];
      if !Allowed(c, job.status) {
        return Err(NotAllowed);
      }
      return Ok(job);
    }

    /** `cancel`, `pause`, `resume` and `retry`: the check is made on the row as it was loaded, the
        write hits the row as it is by then. */
    method Apply(c: Control, id: JobId, now: int, latest: Store) returns (r: Result<Job, ControlError>)
      requires db.working == db.committed && |latest.jobs| >= |db.working.jobs|
      modifies db
      ensures r == Err(NotFound) <==> id >= |old(db.working.jobs)|
      ensures r == Err(NotAllowed) <==> id < |old(db.working.jobs)| && !Allowed(c, old(db.working.jobs)[id].status)
      ensures r.Err? ==> db.working == db.committed == old(db.working)
      ensures r.Ok? ==>
                var seen := old(db.working.jobs)[id];
                && r.value == Controlled(c, seen, now) && db.committed == latest
                && db.working == latest.(jobs := Written(latest.jobs, OneRow(c, id, seen), now))
      ensures r.Ok? && latest == old(db.working) ==>
                db.working == latest.(jobs := latest.jobs[id := Controlled(c, latest.jobs[id], now)])
    {
      r := Load(c, id);
      if r.Err? {
        return;
      }
      var seen := r.value;
      var job := seen;
      match c {
        case Cancel => job := job.(status := Cancelled, completedAt := Some(now));
        case Pause => job := job.(status := Paused);
        case Resume => job := job.(status := Queued, scheduledAt := Some(now));
        case Retry => job := job.(status := Queued, workerId := None, error := None, scheduledAt := Some(now));
      }
      db.Refresh(latest);
      Flush(id, seen, job);
      assert db.working.jobs == Written(latest.jobs, OneRow(c, id, seen), now);
      r := Ok(job);
    }
  }
}
