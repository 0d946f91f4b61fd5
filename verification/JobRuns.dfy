/** Consequences for whole runs of the job protocol: the queue drains, `run_once` is a run of the
    protocol, and what goes wrong when the discipline is broken. */
module JobRuns {
  import opened Text
  import opened Database
  import opened JobQueue
  import opened JobProtocol
  import opened ExactlyOnce

  // ---------------------------------------------------------------------
  // Draining
  // ---------------------------------------------------------------------

  ghost function Sum(ws: seq<int>): int {
    if ws == [] then 0 else Sum(ws[..|ws| - 1]) + ws[|ws| - 1]
  }

  lemma {:induction false} SumUpdate(ws: seq<int>, k: nat, v: int)
    requires k < |ws|
    ensures Sum(ws[k := v]) == Sum(ws) - ws[k] + v
    decreases |ws|
  {
    var n := |ws| - 1;
    if k < n {
      SumUpdate(ws[..n], k, v);
      assert ws[k := v][..n] == ws[..n][k := v];
    } else {
      assert ws[k := v][..n] == ws[..n];
    }
  }

  lemma {:induction false} SumAppend(ws: seq<int>, count: nat, v: int)
    ensures Sum(ws + seq(count, _ => v)) == Sum(ws) + count * v
    decreases count
  {
    var all := ws + seq(count, _ => v);
    if count == 0 {
      assert all == ws;
    } else {
      SumAppend(ws, count - 1, v);
      assert all[..|all| - 1] == ws + seq(count - 1, _ => v) && all[|all| - 1] == v;
      assert count * v == (count - 1) * v + v;
    }
  }

  lemma {:induction false} SumNotNegative(ws: seq<int>)
    requires forall k :: 0 <= k < |ws| ==> ws[k] >= 0
    ensures Sum(ws) >= 0
  {
    if ws != [] {
      SumNotNegative(ws[..|ws| - 1]);
    }
  }

  /** The steps a job has left: two for each attempt, one of them already taken when it runs; for
      a project execution also those of the workflow jobs it may bring, one for each of `n` items. */
  function Weight(job: Job, h: History, n: nat): int {
    if Terminal(job.status) then 0
    else 2 * (Bound(job, h) - job.attempts) + (if job.status == Running then 1 else 0)
         + (if job.work.ExecuteProject? then 6 * n else 0)
  }

  function Weights(jobs: seq<Job>, hs: seq<History>, n: nat): (ws: seq<int>)
    requires |jobs| == |hs|
    ensures |ws| == |jobs|
  {
    seq(|jobs|, j requires 0 <= j < |jobs| => Weight(jobs[j], hs[j], n))
  }

  /** What is left to do. */
  ghost function Measure(s: State): int
    requires |s.history| == |s.store.jobs|
  {
    Sum(Weights(s.store.jobs, s.history, |s.store.items|))
  }

  /** The steps of workers, any look, and cancelling: no new work, recovery, retry or pause. */
  ghost predicate Draining(s: State, e: Event)
    requires Enabled(s, e)
  {
    || e.Select? || e.Claim? || e.Read? || e.Beat? || e.Commit? || e.Raise? || e.Record? || e.Crash?
    || e.LookUp? || e.LookOrphans?
    || (e.Write? && s.looks[e.r].OneRow? && s.looks[e.r].c == Cancel)
  }

  /** The steps that move a job forward: a claim that wins, a job finished, failed or cancelled. */
  ghost predicate Productive(s: State, e: Event)
    requires Enabled(s, e)
  {
    Wins(s, e) || e.Commit? || e.Record? || e.Write?
  }

  /** The job a productive step of a drain moves. */
  ghost function Moved(s: State, e: Event): JobId
    requires Enabled(s, e) && Draining(s, e) && Productive(s, e)
  {
    if e.Write? then s.looks[e.r].id else PhaseOf(s, e.w).job
  }

  lemma PromiseUnchanged(s: State, e: Event, j: JobId)
    requires Inv(s) && Live(s) && Enabled(s, e) && Disciplined(s, e) && Draining(s, e) && j < |s.store.jobs|
    ensures !Recovers(s, e, j) && !Retries(s, e, j) && !Overtaken(s, e, j)
  {
    hide AttemptsOk, WinOk, PhaseOk, LookOk, RunningOk, NextStore;
    if e.Record? {
      assert HolderOk(s, e.w, s.phases[e.w]);
    }
    if e.Write? {
      assert j in Rows(s.looks[e.r]) ==> MayWrite(s, s.looks[e.r], j);
    }
  }

  /** The bookkeeping of a job that a step of a drain leaves in place. */
  lemma HistoryKept(s: State, e: Event, j: JobId)
    requires Inv(s) && Live(s) && Enabled(s, e) && Disciplined(s, e) && Draining(s, e) && j < |s.store.jobs|
    ensures var h, h' := s.history[j], Next(s, e).history[j];
            h'.recoveries == h.recoveries && h'.retries == h.retries && h'.overtaken == h.overtaken
  {
    hide AttemptsOk, WinOk, PhaseOk, LookOk, Live, NextStore, NextPhases, NextLooks;
    PromiseUnchanged(s, e, j);
  }

  /** The moved job gets lighter, by the weight of the jobs it brings if it is an execution. */
  lemma MovedLighter(s: State, e: Event)
    requires Inv(s) && Live(s) && Enabled(s, e) && Disciplined(s, e) && Draining(s, e) && Productive(s, e)
    ensures var s', j, n := Next(s, e), Moved(s, e), |s.store.items|;
            && j < |s.store.jobs|
            && Weight(s'.store.jobs[j], s'.history[j], n) < Weight(s.store.jobs[j], s.history[j], n)
                 - if Executes(s, e) then 6 * n else 0
  {
    hide WinOk, PhaseOk, LookOk, Live, NextPhases, NextLooks;
    var j := Moved(s, e);
    MovedIsThere(s, e);
    MovedEnds(s, e);
    HistoryKept(s, e, j);
    assert AttemptsOk(s.store.jobs[j], s.history[j], s.wins, j);
  }

  lemma MovedIsThere(s: State, e: Event)
    requires Inv(s) && Live(s) && Enabled(s, e) && Disciplined(s, e) && Draining(s, e) && Productive(s, e)
    ensures Moved(s, e) < |s.store.jobs|
    ensures !Wins(s, e) && !e.Write? ==> s.store.jobs[Moved(s, e)].status == Running
    ensures e.Write? ==> s.store.jobs[Moved(s, e)].status == Queued || s.store.jobs[Moved(s, e)].status == Paused
    ensures Executes(s, e) ==> s.store.jobs[Moved(s, e)].work.ExecuteProject?
  {
    hide AttemptsOk, WinOk, RunningOk, NextStore;
    if e.Write? {
      assert LookOk(s, s.looks[e.r]) && s.looks[e.r].id in Rows(s.looks[e.r]);
      assert MayWrite(s, s.looks[e.r], s.looks[e.r].id);
    } else {
      assert PhaseOk(s, e.w, s.phases[e.w]) && HolderOk(s, e.w, s.phases[e.w]);
    }
  }

  /** What has become of it. */
  lemma MovedEnds(s: State, e: Event)
    requires Inv(s) && Live(s) && Enabled(s, e) && Disciplined(s, e) && Draining(s, e) && Productive(s, e)
    ensures Moved(s, e) < |s.store.jobs|
    ensures var job, job' := s.store.jobs[Moved(s, e)], NextStore(s, e).jobs[Moved(s, e)];
            && job'.maxAttempts == job.maxAttempts && job'.work == job.work
            && (Wins(s, e) ==> job.status == Queued && job'.status == Running && job'.attempts == job.attempts + 1)
            && (e.Commit? || e.Write? ==> Terminal(job'.status))
            && (e.Record? ==> job'.attempts == job.attempts && (job'.status == Queued || job'.status == Failed))
  {
    hide AttemptsOk, WinOk, PhaseOk, RunningOk, StartItems;
    MovedIsThere(s, e);
    WorkStays(s, e);
    if Executes(s, e) {
      ExecutionMoves(s, e);
    } else if e.Record? {
      assert HolderOk(s, e.w, s.phases[e.w]);
    } else if e.Write? {
      var l := s.looks[e.r];
      assert LookOk(s, l);
      LateWrite(l, l.row, s.store.jobs[l.id], e.now);
    }
  }

  /** Every other job weighs what it did. */
  lemma OthersSame(s: State, e: Event, k: JobId)
    requires Inv(s) && Live(s) && Enabled(s, e) && Disciplined(s, e) && Draining(s, e)
    requires k < |s.store.jobs| && (Productive(s, e) ==> k != Moved(s, e))
    ensures var n := |s.store.items|;
            Weight(Next(s, e).store.jobs[k], Next(s, e).history[k], n) == Weight(s.store.jobs[k], s.history[k], n)
  {
    hide AttemptsOk, WinOk, PhaseOk, LookOk, Live, NextPhases, NextLooks;
    HistoryKept(s, e, k);
    OthersStay(s, e, k);
  }

  lemma OthersStay(s: State, e: Event, k: JobId)
    requires Inv(s) && Enabled(s, e) && Draining(s, e)
    requires k < |s.store.jobs| && (Productive(s, e) ==> k != Moved(s, e))
    ensures var job, job' := s.store.jobs[k], NextStore(s, e).jobs[k];
            job'.status == job.status && job'.attempts == job.attempts && job'.maxAttempts == job.maxAttempts
            && job'.work == job.work
  {
    hide AttemptsOk, WinOk, PhaseOk, LookOk, StartItems, Enumerates, IsCandidate;
    if Executes(s, e) {
      ExecutionMoves(s, e);
    }
  }

  lemma {:induction false} DistinctBounded(ids: seq<ItemId>, n: nat)
    requires Distinct(ids) && forall k :: 0 <= k < |ids| ==> ids[k] < n
    ensures |ids| <= n
  {
    if ids != [] {
      assert ids[0] < n;
      if k :| 0 <= k < |ids| && ids[k] == n - 1 {
        DistinctBounded(ids[..k] + ids[k + 1..], n - 1);
      } else {
        DistinctBounded(ids, n - 1);
      }
    }
  }

  /** A drain brings new jobs only at the commit of an execution: at most one for each item, each
      of weight 6. */
  lemma NewJobs(s: State, e: Event)
    requires Inv(s) && Live(s) && Enabled(s, e) && Draining(s, e)
    ensures |Next(s, e).store.items| == |s.store.items|
    ensures |Next(s, e).store.jobs| <= |s.store.jobs| + if Executes(s, e) then |s.store.items| else 0
    ensures forall j :: |s.store.jobs| <= j < |Next(s, e).store.jobs| ==>
              Weight(Next(s, e).store.jobs[j], Next(s, e).history[j], |s.store.items|) == 6
  {
    hide AttemptsOk, WinOk, LookOk, RunningOk, StartItems, Enumerates, IsCandidate;
    if Executes(s, e) {
      var own := s.phases[e.w];
      assert PhaseOk(s, e.w, own) && HolderOk(s, e.w, own);
      DistinctBounded(own.read.seen, |s.store.items|);
      StartItemsKeepsJobs(s.store, own.read.seen, e.now);
    }
  }

  /** The weights after one of them, `k`, was lowered by more than those of the `m` jobs that came. */
  lemma LoweredSum(ws: seq<int>, ws': seq<int>, k: nat, m: nat)
    requires k < |ws| && |ws'| == |ws| + m && ws'[k] + 6 * m < ws[k]
    requires forall j :: 0 <= j < |ws| && j != k ==> ws'[j] == ws[j]
    requires forall j :: |ws| <= j < |ws'| ==> ws'[j] == 6
    ensures Sum(ws') < Sum(ws)
  {
    SumUpdate(ws, k, ws'[k]);
    SumAppend(ws[k := ws'[k]], m, 6);
    assert ws' == ws[k := ws'[k]] + seq(m, _ => 6);
  }

  lemma DrainStep(s: State, e: Event)
    requires Inv(s) && Live(s) && Enabled(s, e) && Disciplined(s, e) && Draining(s, e)
    ensures Measure(Next(s, e)) + (if Productive(s, e) then 1 else 0) <= Measure(s)
  {
    hide AttemptsOk, WinOk, PhaseOk, LookOk, Live, NextStore, NextPhases, NextLooks, NextHistory, Enabled, Disciplined, Weight, Sum;
    var s', n := Next(s, e), |s.store.items|;
    var ws, ws' := Weights(s.store.jobs, s.history, n), Weights(s'.store.jobs, s'.history, n);
    NewJobs(s, e);
    forall k | 0 <= k < |ws| && (Productive(s, e) ==> k != Moved(s, e)) ensures ws'[k] == ws[k] {
      OthersSame(s, e, k);
    }
    if Productive(s, e) {
      MovedLighter(s, e);
      LoweredSum(ws, ws', Moved(s, e), |ws'| - |ws|);
    } else {
      assert ws' == ws;
    }
  }

  ghost predicate DrainingAlong(s: State, es: seq<Event>)
    requires IsRun(s, es, false)
    decreases |es|
  {
    es == [] || (Draining(s, es[0]) && DrainingAlong(Next(s, es[0]), es[1..]))
  }

  ghost function CountProductive(s: State, es: seq<Event>): nat
    requires IsRun(s, es, false)
    decreases |es|
  {
    if es == [] then 0
    else (if Productive(s, es[0]) then 1 else 0) + CountProductive(Next(s, es[0]), es[1..])
  }

  lemma {:induction false} DrainAlong(s: State, es: seq<Event>)
    requires Once(s) && IsRun(s, es, true) && IsRun(s, es, false) && DrainingAlong(s, es)
    ensures Once(After(s, es))
    ensures CountProductive(s, es) + Measure(After(s, es)) <= Measure(s)
    decreases |es|
  {
    hide Live, KeysOk, TasksOk, ExecOk, DoneOk, Next, Enabled, Disciplined, Draining, Productive, Measure,
         AttemptsOk, WinOk, PhaseOk, LookOk;
    if es != [] {
      DropDiscipline(Next(s, es[0]), es[1..]);
      DrainStep(s, es[0]);
      OnceStep(s, es[0]);
      DrainAlong(Next(s, es[0]), es[1..]);
    }
  }

  lemma MeasureNotNegative(s: State)
    requires Inv(s)
    ensures Measure(s) >= 0
  {
    forall j | 0 <= j < |s.store.jobs| ensures Weight(s.store.jobs[j], s.history[j], |s.store.items|) >= 0 {
      assert AttemptsOk(s.store.jobs[j], s.history[j], s.wins, j);
    }
    SumNotNegative(Weights(s.store.jobs, s.history, |s.store.items|));
  }

  // ---------------------------------------------------------------------
  // Where it stops
  // ---------------------------------------------------------------------

  /** The job has ended, is on pause, or was left running by a worker that died. */
  ghost predicate Settled(s: State, job: Job) {
    || Terminal(job.status) || job.status == Paused
    || (job.status == Running && job.workerId.Some? && PhaseOf(s, job.workerId.value) == Dead)
  }

  ghost predicate AllSettled(s: State) {
    forall j :: 0 <= j < |s.store.jobs| ==> Settled(s, s.store.jobs[j])
  }

  ghost predicate NobodyHolds(s: State) {
    forall w :: w in s.phases ==> !IsHolder(s.phases[w])
  }

  /** All jobs are settled exactly when none is queued and no worker holds one. */
  lemma SettledExactly(s: State)
    requires Live(s)
    ensures AllSettled(s) <==> NobodyHolds(s) && forall j :: 0 <= j < |s.store.jobs| ==> s.store.jobs[j].status != Queued
  {
    if w :| w in s.phases && IsHolder(s.phases[w]) {
      assert HolderOk(s, w, s.phases[w]);
      assert !Settled(s, s.store.jobs[s.phases[w].job]);
    }
    if NobodyHolds(s) && forall j :: 0 <= j < |s.store.jobs| ==> s.store.jobs[j].status != Queued {
      forall j | 0 <= j < |s.store.jobs| ensures Settled(s, s.store.jobs[j]) {
        assert RunningOk(s, s.store.jobs[j], j);
      }
    }
  }

  /** Main result: from any state a disciplined run has reached, without new work, recovery, retry
      or pause, at most `Measure` claims, completions, failures and cancellations can follow, in
      any interleaving; and where it stops - a worker is idle and can select nothing, none holds a
      job, and every schedule time has passed - each job has ended, is on pause, or was left
      running by a worker that died. */
  lemma QueueDrains(before: seq<Event>, es: seq<Event>, w: WorkerId, now: int)
    requires IsRun(INIT, before, true) && IsRun(INIT, before, false)
    requires IsRun(After(INIT, before), es, true) && IsRun(After(INIT, before), es, false)
    requires DrainingAlong(After(INIT, before), es)
    ensures |After(INIT, before).history| == |After(INIT, before).store.jobs|
    ensures CountProductive(After(INIT, before), es) <= Measure(After(INIT, before))
    ensures var s := After(After(INIT, before), es);
            && PhaseOf(s, w) == Idle && (forall id :: !Enabled(s, Select(w, id, now)))
            && NobodyHolds(s) && (forall j :: 0 <= j < |s.store.jobs| ==> Passed(s.store.jobs[j], now))
            ==> AllSettled(s)
  {
    hide IsRun, After, DrainingAlong, CountProductive, Measure, Once, Enabled, AllSettled;
    StartUntouched();
    OnceAlong(INIT, before);
    var s := After(INIT, before);
    DrainAlong(s, es);
    AfterDrain(After(s, es));
    WhereItStops(After(s, es), w, now);
    OnceHasHistory(s);
  }

  lemma OnceHasHistory(s: State)
    requires Once(s)
    ensures |s.history| == |s.store.jobs|
  {
  }

  lemma AfterDrain(s: State)
    requires Once(s)
    ensures |s.history| == |s.store.jobs| && Measure(s) >= 0
  {
    MeasureNotNegative(s);
  }

  predicate Passed(job: Job, now: int) {
    job.scheduledAt.Some? ==> job.scheduledAt.value <= now
  }

  lemma WhereItStops(s: State, w: WorkerId, now: int)
    requires Once(s)
    ensures PhaseOf(s, w) == Idle && (forall id :: !Enabled(s, Select(w, id, now)))
            && NobodyHolds(s) && (forall j :: 0 <= j < |s.store.jobs| ==> Passed(s.store.jobs[j], now))
            ==> AllSettled(s)
  {
    hide Inv, KeysOk, TasksOk, ExecOk, DoneOk, Live, IsCandidate;
    SettledExactly(s);
    if exists j :: 0 <= j < |s.store.jobs| && Due(s.store.jobs[j], now) {
      var id := CandidateExists(s.store.jobs, now);
      assert PhaseOf(s, w) == Idle ==> Enabled(s, Select(w, id, now));
    }
  }

  lemma RunCons(s: State, e: Event, es: seq<Event>)
    requires |s.history| == |s.store.jobs| && Enabled(s, e) && Disciplined(s, e) && Draining(s, e)
    requires IsRun(Next(s, e), es, true) && IsRun(Next(s, e), es, false) && DrainingAlong(Next(s, e), es)
    ensures IsRun(s, [e] + es, true) && IsRun(s, [e] + es, false) && DrainingAlong(s, [e] + es)
    ensures After(s, [e] + es) == After(Next(s, e), es)
  {
    assert ([e] + es)[1..] == es;
  }

  /** The time of an event that has one. */
  function TimeOf(e: Event): Option<int> {
    match e
    case Enqueue(_, _, _, _, now) => Some(now)
    case Approve(_, now) => Some(now)
    case Select(_, _, now) => Some(now)
    case Claim(_, now) => Some(now)
    case Beat(_, now) => Some(now)
    case Commit(_, _, now) => Some(now)
    case Record(_, _, now) => Some(now)
    case LookOrphans(_, now, _) => Some(now)
    case Write(_, now) => Some(now)
    case _ => None
  }

  /** The event has no time outside the bounds. */
  predicate Between(e: Event, from: int, to: int) {
    TimeOf(e).Some? ==> from <= TimeOf(e).value <= to
  }

  /** No event is before one that is earlier in time. */
  ghost predicate InOrder(es: seq<Event>) {
    forall i, j :: 0 <= i < j < |es| && TimeOf(es[i]).Some? && TimeOf(es[j]).Some? ==> TimeOf(es[i]).value <= TimeOf(es[j]).value
  }

  ghost predicate InOrderFrom(es: seq<Event>, t: int) {
    InOrder(es) && forall i :: 0 <= i < |es| && TimeOf(es[i]).Some? ==> t <= TimeOf(es[i]).value
  }

  ghost predicate InOrderUntil(es: seq<Event>, t: int) {
    InOrder(es) && forall i :: 0 <= i < |es| && TimeOf(es[i]).Some? ==> TimeOf(es[i]).value <= t
  }

  lemma OrderCons(e: Event, es: seq<Event>, t: int, u: int)
    requires t <= u && Between(e, t, u) && InOrderFrom(es, u)
    ensures InOrderFrom([e] + es, t)
  {
  }

  lemma OrderSnoc(es: seq<Event>, e: Event, t: int, u: int)
    requires t <= u && InOrderUntil(es, t) && Between(e, t, u)
    ensures InOrderUntil(es + [e], u)
  {
  }

  lemma FreshWorker(phases: map<WorkerId, Phase>) returns (w: WorkerId)
    ensures w !in phases
  {
    w := 0;
    var below: set<WorkerId> := {};
    while w in phases
      invariant below <= phases.Keys && forall v :: v in below ==> v < w
      decreases phases.Keys - below
    {
      below := below + {w};
      w := w + 1;
    }
  }

  /** Two steps of a drain, the second of them productive. */
  lemma TwoSteps(s: State, a: Event, b: Event)
    requires Once(s) && Enabled(s, a) && Disciplined(s, a) && Draining(s, a)
    requires |Next(s, a).history| == |Next(s, a).store.jobs| ==>
               Enabled(Next(s, a), b) && Disciplined(Next(s, a), b) && Draining(Next(s, a), b) && Productive(Next(s, a), b)
    ensures Once(Next(s, a)) && Once(Next(Next(s, a), b)) && Measure(Next(Next(s, a), b)) < Measure(s)
  {
    hide Live, KeysOk, TasksOk, ExecOk, DoneOk, Next, Enabled, Disciplined, Measure, AttemptsOk, WinOk, PhaseOk, LookOk;
    OnceStep(s, a);
    OnceStep(Next(s, a), b);
    DrainStep(s, a);
    DrainStep(Next(s, a), b);
  }

  /** What the workers can do next: a holder ends its job, or a fresh worker claims a queued one,
      when it is due. */
  lemma NextTwo(s: State, clock: int) returns (a: Event, b: Event, now: int)
    requires Once(s) && !AllSettled(s) && forall w :: w in s.phases ==> !s.phases[w].Failing?
    ensures Enabled(s, a) && Disciplined(s, a) && Draining(s, a)
    ensures |Next(s, a).history| == |Next(s, a).store.jobs| ==>
              Enabled(Next(s, a), b) && Disciplined(Next(s, a), b) && Draining(Next(s, a), b) && Productive(Next(s, a), b)
    ensures clock <= now && Between(a, clock, now) && Between(b, now, now)
  {
    hide AttemptsOk, WinOk, LookOk, KeysOk, TasksOk, ExecOk, DoneOk, RunningOk, AllSettled, NextHistory, NextLooks;
    SettledExactly(s);
    hide Disciplined, Draining, Productive, Enabled, Next, PhaseOk;
    if w :| w in s.phases && IsHolder(s.phases[w]) {
      now := clock;
      a, b := Raise(w), Record(w, "", now);
      RaiseThenRecord(s, w, now);
    } else {
      var j :| 0 <= j < |s.store.jobs| && s.store.jobs[j].status == Queued;
      var at := s.store.jobs[j].scheduledAt;
      now := if at.Some? && at.value > clock then at.value else clock;
      assert Due(s.store.jobs[j], now);
      var id := CandidateExists(s.store.jobs, now);
      var w := FreshWorker(s.phases);
      a, b := Select(w, id, now), Claim(w, now);
      SelectThenClaim(s, w, id, now);
    }
  }

  lemma RaiseThenRecord(s: State, w: WorkerId, now: int)
    requires Inv(s) && w in s.phases && IsHolder(s.phases[w]) && !s.phases[w].Failing?
    ensures var a, b := Raise(w), Record(w, "", now);
            && Enabled(s, a) && Disciplined(s, a) && Draining(s, a)
            && Enabled(Next(s, a), b) && Disciplined(Next(s, a), b) && Draining(Next(s, a), b) && Productive(Next(s, a), b)
  {
    hide AttemptsOk, WinOk, LookOk, NextHistory, NextLooks;
    assert PhaseOk(s, w, s.phases[w]);
    assert PhaseOf(Next(s, Raise(w)), w).Failing?;
  }

  lemma SelectThenClaim(s: State, w: WorkerId, id: JobId, now: int)
    requires |s.history| == |s.store.jobs| && w !in s.phases && IsCandidate(s.store.jobs, now, id)
    ensures var a, b := Select(w, id, now), Claim(w, now);
            && Enabled(s, a) && Disciplined(s, a) && Draining(s, a)
            && Enabled(Next(s, a), b) && Disciplined(Next(s, a), b) && Draining(Next(s, a), b) && Productive(Next(s, a), b)
  {
    hide NextHistory, NextLooks;
    assert PhaseOf(Next(s, Select(w, id, now)), w) == Picked(id, s.store.jobs[id].startedAt);
  }

  /** Main result: the drain can always be finished: from any time on, some steps of workers settle
      every job. */
  lemma {:induction false} CanDrain(s: State, clock: int) returns (es: seq<Event>)
    requires Once(s)
    ensures InOrderFrom(es, clock)
    ensures IsRun(s, es, true) && IsRun(s, es, false) && DrainingAlong(s, es) && AllSettled(After(s, es))
    decreases Measure(s)
  {
    hide Live, KeysOk, TasksOk, ExecOk, DoneOk, Next, Enabled, Disciplined, Measure, AttemptsOk, WinOk, PhaseOk, LookOk, Settled,
         TimeOf, InOrderFrom, Between;
    MeasureNotNegative(s);
    if AllSettled(s) {
      es := [];
      assert InOrderFrom(es, clock) by { OrderNone(clock); }
    } else if w :| w in s.phases && s.phases[w].Failing? {
      var e := Record(w, "", clock);
      FailingRecords(s, w, clock);
      OnceStep(s, e);
      DrainStep(s, e);
      var rest := CanDrain(Next(s, e), clock);
      RunCons(s, e, rest);
      OrderCons(e, rest, clock, clock);
      es := [e] + rest;
    } else {
      var a, b, now := NextTwo(s, clock);
      TwoSteps(s, a, b);
      var rest := CanDrain(Next(Next(s, a), b), now);
      OrderCons(b, rest, now, now);
      OrderCons(a, [b] + rest, clock, now);
      RunCons(Next(s, a), b, rest);
      RunCons(s, a, [b] + rest);
      es := [a] + ([b] + rest);
    }
  }

  lemma OrderNone(t: int)
    ensures InOrderFrom([], t) && InOrderUntil([], t)
  {
  }

  lemma FailingRecords(s: State, w: WorkerId, now: int)
    requires Inv(s) && w in s.phases && s.phases[w].Failing?
    ensures var e := Record(w, "", now);
            Between(e, now, now) && Enabled(s, e) && Disciplined(s, e) && Draining(s, e) && Productive(s, e)
  {
    assert PhaseOk(s, w, s.phases[w]);
  }

  // ---------------------------------------------------------------------
  // run_once
  // ---------------------------------------------------------------------

  /** The handler's SELECT: the ids of the project's backlog below `n`. */
  function BacklogOf(items: seq<WorkItem>, p: ProjectId, n: nat): (ids: seq<ItemId>)
    requires n <= |items|
    ensures forall k :: 0 <= k < |ids| ==> ids[k] < n && IsBacklog(items, p, ids[k])
    ensures forall i: nat :: i < n && IsBacklog(items, p, i) ==> i in ids
    ensures forall k, l :: 0 <= k < l < |ids| ==> ids[k] != ids[l]
  {
    if n == 0 then []
    else BacklogOf(items, p, n - 1) + if IsBacklog(items, p, n - 1) then [n - 1] else []
  }

  lemma BacklogEnumerates(items: seq<WorkItem>, p: ProjectId)
    ensures Enumerates(items, p, BacklogOf(items, p, |items|))
  {
  }

  /** One item: create its task, put it in progress, enqueue its workflow. */
  method StartOne(queue: JobQueue, wi: ItemId, now: int)
    requires wi < |queue.db.working.items|
    modifies queue.db
    ensures queue.db.committed == old(queue.db.committed)
    ensures queue.db.working == StartItem(old(queue.db.working), wi, now)
  {
    var db := queue.db;
    var t := |db.working.tasks|;
    db.working := db.working.(tasks := db.working.tasks + [wi]);
    db.working := db.working.(items := db.working.items[wi := db.working.items[wi].(status := InProgress)]);
    var id := queue.Enqueue(DevelopTask(t), 3, 0, Some(DevWorkflow(t)), now);
  }

  /** The loop of `_project_execution` over the items it has read. */
  method StartAll(queue: JobQueue, items: seq<ItemId>, now: int) returns (created: nat)
    requires ItemsIn(queue.db.working, items)
    modifies queue.db
    ensures queue.db.committed == old(queue.db.committed)
    ensures created == |items| && queue.db.working == StartItems(old(queue.db.working), items, now)
  {
    ghost var start := queue.db.working;
    created := 0;
    assert items[..0] == [];
    for k := 0 to |items|
      invariant created == k
      invariant queue.db.committed == old(queue.db.committed)
      invariant ItemsIn(start, items) && queue.db.working == StartItems(start, items[..k], now)
    {
      assert items[..k + 1][..k] == items[..k];
      StartOne(queue, items[k], now);
      created := created + 1;
    }
    assert items[..|items|] == items;
  }

  // The parts of run_once, one for each step of the protocol: each starts from whatever others have
  // committed by then, and is exactly the step from there. --------------------------------------

  /** The claim: the guarded update, committed. */
  method ClaimPart(queue: JobQueue, w: WorkerId, id: JobId, seenStart: Option<int>, now: int, ghost s: State) returns (won: bool)
    requires |s.history| == |s.store.jobs| && s.store == queue.db.committed == queue.db.working
    requires PhaseOf(s, w) == Picked(id, seenStart) && id < |s.store.jobs|
    modifies queue.db
    ensures queue.db.committed == queue.db.working == Next(s, Claim(w, now)).store
    ensures won <==> Wins(s, Claim(w, now))
    ensures won ==> Holds(PhaseOf(Next(s, Claim(w, now)), w), id, s.history[id].stay)
  {
    won := queue.TryClaim(id, seenStart, w, now);
    if won {
      queue.db.Commit();
    }
  }

  /** The handlers that commit a heartbeat before they work. */
  predicate BeatsFirst(work: Work) {
    work.DevelopTask? || work == OtherWork("devops_pipeline")
  }

  method BeatPart(queue: JobQueue, w: WorkerId, id: JobId, now: int, ghost s: State)
    requires |s.history| == |s.store.jobs| && s.store == queue.db.committed == queue.db.working
    requires PhaseOf(s, w).Holding? && PhaseOf(s, w).job == id < |s.store.jobs| && !RunsProject(s.store, id)
    modifies queue.db
    ensures queue.db.committed == queue.db.working == Next(s, Beat(w, now)).store
  {
    var db := queue.db;
    var job := db.working.jobs[id].(heartbeatAt := Some(now), progressPct := 10);
    db.working := db.working.(jobs := db.working.jobs[id := job]);
    db.Commit();
  }

  /** What a project execution reads. */
  method ReadPart(queue: JobQueue, w: WorkerId, id: JobId, ghost s: State) returns (items: seq<ItemId>)
    requires |s.history| == |s.store.jobs| && s.store == queue.db.committed == queue.db.working
    requires PhaseOf(s, w).Holding? && PhaseOf(s, w).job == id && RunsProject(s.store, id)
    ensures Enabled(s, Read(w, items))
  {
    var st := queue.db.working;
    items := BacklogOf(st.items, st.jobs[id].work.project, |st.items|);
    BacklogEnumerates(st.items, st.jobs[id].work.project);
  }

  /** The end of the handler, the completion and the commit; `items` is what an execution read. */
  method CommitPart(queue: JobQueue, w: WorkerId, id: JobId, items: Option<seq<ItemId>>, result: string, now: int, ghost s: State)
    requires |s.history| == |s.store.jobs| && s.store == queue.db.committed == queue.db.working
    requires CanCommit(s.store, PhaseOf(s, w)) && PhaseOf(s, w).job == id
    requires items == if PhaseOf(s, w).Executing? then Some(PhaseOf(s, w).read.seen) else None
    modifies queue.db
    ensures queue.db.committed == queue.db.working == Next(s, Event.Commit(w, result, now)).store
  {
    if items.Some? {
      var created := StartAll(queue, items.value, now);
    }
    queue.Complete(id, result, now);
    queue.db.Commit();
  }

  /** After an exception: the rollback, and the row loaded again. */
  method LoadPart(queue: JobQueue, w: WorkerId, id: JobId, ghost s: State) returns (row: Job)
    requires |s.history| == |s.store.jobs| && s.store == queue.db.committed
    requires Enabled(s, Raise(w)) && PhaseOf(s, w).job == id
    modifies queue.db
    ensures queue.db.committed == queue.db.working == s.store
    ensures PhaseOf(Next(s, Raise(w)), w) == Failing(id, PhaseOf(s, w).stay, row)
  {
    queue.db.Rollback();
    row := queue.db.working.jobs[id];
  }

  method RecordPart(queue: JobQueue, w: WorkerId, id: JobId, row: Job, error: string, now: int, ghost s: State)
    requires |s.history| == |s.store.jobs| && s.store == queue.db.committed == queue.db.working
    requires PhaseOf(s, w).Failing? && PhaseOf(s, w).job == id < |s.store.jobs| && PhaseOf(s, w).row == row
    modifies queue.db
    ensures queue.db.committed == queue.db.working == Next(s, Record(w, error, now)).store
  {
    queue.Fail(id, row, error, now);
    queue.db.Commit();
  }

  lemma {:induction false} RunSnoc(s: State, es: seq<Event>, e: Event, disciplined: bool)
    requires IsRun(s, es, disciplined) && IsRun(s, es, false) && Inv(s)
    requires Enabled(After(s, es), e) && (disciplined ==> Disciplined(After(s, es), e))
    ensures Inv(After(s, es)) && Inv(Next(After(s, es), e))
    ensures IsRun(s, es + [e], disciplined) && IsRun(s, es + [e], false)
    ensures After(s, es + [e]) == Next(After(s, es), e)
    decreases |es|
  {
    hide AttemptsOk, WinOk, PhaseOk, LookOk, Next, Enabled, Disciplined;
    if es == [] {
      assert [] + [e] == [e] && [e][1..] == [];
      InvStep(s, e);
    } else {
      InvStep(s, es[0]);
      assert (es + [e])[1..] == es[1..] + [e];
      RunSnoc(Next(s, es[0]), es[1..], e, disciplined);
    }
  }

  /** The run so far, from `s` to `t`. */
  ghost predicate Reached(s: State, es: seq<Event>, t: State) {
    IsRun(s, es, true) && IsRun(s, es, false) && After(s, es) == t && Inv(s) && Inv(t)
  }

  lemma ReachedStart(s: State)
    requires Inv(s)
    ensures Reached(s, [], s)
  {
  }

  lemma ReachedNext(s: State, es: seq<Event>, t: State, e: Event)
    requires Reached(s, es, t) && Enabled(t, e) && !e.Write?
    ensures |t.history| == |t.store.jobs| && Reached(s, es + [e], Next(t, e))
  {
    hide AttemptsOk, WinOk, PhaseOk, LookOk, Next, NextStore, Enabled;
    RunSnoc(s, es, e, true);
  }

  /** How a handler ends; an exception may come at any point before its result is committed. */
  datatype Outcome = Returns(result: string) | Raises(error: string)

  /** How an attempt leaves the job. */
  predicate Finished(attempts: nat, maxAttempts: int, outcome: Outcome, job: Job) {
    job.attempts == attempts
    && job.status == if outcome.Returns? then Completed else if attempts < maxAttempts then Queued else Failed
  }

  /** `run_once` when nobody else commits meanwhile, at the times of claim, work and end: exactly a
      run of the protocol by this worker, which is idle again at the end; nothing happens only if
      no job is due. */
  method RunOnce(db: Session, w: WorkerId, claimed: int, worked: int, ended: int, outcome: Outcome, ghost s: State)
    returns (handled: bool, ghost es: seq<Event>)
    requires Inv(s) && s.store == db.committed == db.working && PhaseOf(s, w) == Idle
    modifies db
    ensures IsRun(s, es, true) && IsRun(s, es, false)
    ensures After(s, es).store == db.committed == db.working && PhaseOf(After(s, es), w) == Idle
    ensures !handled ==> es == [] && forall j :: 0 <= j < |s.store.jobs| ==> !Due(s.store.jobs[j], claimed)
    ensures handled ==>
              exists id: nat :: IsCandidate(s.store.jobs, claimed, id) && id < |db.committed.jobs|
                                && Finished(s.store.jobs[id].attempts + 1, s.store.jobs[id].maxAttempts,
                                            outcome, db.committed.jobs[id])
  {
    hide IsRun, After, AttemptsOk, WinOk, PhaseOk, LookOk, Enumerates;
    var queue := new JobQueue(db);
    es := [];
    ReachedStart(s);
    var candidate := queue.SelectCandidate(claimed);
    if candidate.None? {
      return false, es;
    }
    var id := candidate.value;
    ghost var seenStart := s.store.jobs[id].startedAt;
    ReachedNext(s, es, s, Select(w, id, claimed));
    es := es + [Select(w, id, claimed)];
    ghost var t := Next(s, Select(w, id, claimed));
    var won := ClaimPart(queue, w, id, db.working.jobs[id].startedAt, claimed, t);
    ReachedNext(s, es, t, Claim(w, claimed));
    es := es + [Claim(w, claimed)];
    t := Next(t, Claim(w, claimed));
    assert db.working.jobs[id].attempts == s.store.jobs[id].attempts + 1 && db.working.jobs[id].maxAttempts == s.store.jobs[id].maxAttempts;
    es := Handle(queue, w, id, worked, ended, outcome, s, es, t);
    return true, es;
  }

  /** The rest of `run_once` after the claim is committed. */
  method Handle(queue: JobQueue, w: WorkerId, id: JobId, worked: int, ended: int, outcome: Outcome,
                ghost s: State, ghost before: seq<Event>, ghost t: State)
    returns (ghost es: seq<Event>)
    requires Reached(s, before, t) && t.store == queue.db.committed == queue.db.working
    requires PhaseOf(t, w).Holding? && PhaseOf(t, w).job == id && id < |t.store.jobs|
    modifies queue.db
    ensures IsRun(s, es, true) && IsRun(s, es, false)
    ensures After(s, es).store == queue.db.committed == queue.db.working && PhaseOf(After(s, es), w) == Idle
    ensures id < |queue.db.committed.jobs|
    ensures Finished(t.store.jobs[id].attempts, t.store.jobs[id].maxAttempts, outcome, queue.db.committed.jobs[id])
  {
    hide Inv, IsRun, After, CanCommit, Next, RunsProject;
    ghost var u: State;
    var items: Option<seq<ItemId>>;
    items, es, u := WorkUp(queue, w, id, worked, s, before, t);
    match outcome {
      case Returns(result) =>
        es, u := Succeed(queue, w, id, items, result, ended, s, es, u);
      case Raises(error) =>
        es, u := GiveUp(queue, w, id, error, ended, s, es, u);
    }
  }

  /** At the end of its handler: what an execution has read, and a worker that can commit. */
  ghost predicate AtEnd(u: State, w: WorkerId, id: JobId, items: Option<seq<ItemId>>) {
    && |u.history| == |u.store.jobs| && CanCommit(u.store, PhaseOf(u, w)) && PhaseOf(u, w).job == id
    && Enabled(u, Raise(w))
    && items == if PhaseOf(u, w).Executing? then Some(PhaseOf(u, w).read.seen) else None
  }

  method WorkUp(queue: JobQueue, w: WorkerId, id: JobId, now: int, ghost s: State, ghost before: seq<Event>, ghost t: State)
    returns (items: Option<seq<ItemId>>, ghost es: seq<Event>, ghost u: State)
    requires Reached(s, before, t) && t.store == queue.db.committed == queue.db.working
    requires PhaseOf(t, w).Holding? && PhaseOf(t, w).job == id && id < |t.store.jobs|
    modifies queue.db
    ensures Reached(s, es, u) && u.store == queue.db.committed == queue.db.working && AtEnd(u, w, id, items)
    ensures u.store.jobs[id].attempts == t.store.jobs[id].attempts && u.store.jobs[id].maxAttempts == t.store.jobs[id].maxAttempts
  {
    hide IsRun, After, AttemptsOk, WinOk, PhaseOk, LookOk, Enumerates;
    items, es, u := None, before, t;
    var work := queue.db.working.jobs[id].work;
    if work.ExecuteProject? {
      var read := ReadPart(queue, w, id, t);
      items := Some(read);
      ReachedNext(s, es, t, Read(w, read));
      es, u := es + [Read(w, read)], Next(t, Read(w, read));
      ReadyToCommit(t, w, read);
    } else if BeatsFirst(work) {
      BeatPart(queue, w, id, now, t);
      ReachedNext(s, es, t, Beat(w, now));
      es, u := es + [Beat(w, now)], Next(t, Beat(w, now));
    }
  }

  method Succeed(queue: JobQueue, w: WorkerId, id: JobId, items: Option<seq<ItemId>>, result: string, now: int,
                 ghost s: State, ghost before: seq<Event>, ghost t: State)
    returns (ghost es: seq<Event>, ghost u: State)
    requires Reached(s, before, t) && t.store == queue.db.committed == queue.db.working && AtEnd(t, w, id, items)
    modifies queue.db
    ensures Reached(s, es, u) && u.store == queue.db.committed == queue.db.working && PhaseOf(u, w) == Idle
    ensures IsRun(s, es, true) && IsRun(s, es, false) && After(s, es) == u
    ensures id < |u.store.jobs| && u.store.jobs[id].attempts == t.store.jobs[id].attempts && u.store.jobs[id].status == Completed
  {
    hide IsRun, After, Inv;
    CommittedJob(t, w, result, now);
    CommitPart(queue, w, id, items, result, now, t);
    ReachedNext(s, before, t, Event.Commit(w, result, now));
    es, u := before + [Event.Commit(w, result, now)], Next(t, Event.Commit(w, result, now));
  }

  method GiveUp(queue: JobQueue, w: WorkerId, id: JobId, error: string, now: int,
                ghost s: State, ghost before: seq<Event>, ghost t: State)
    returns (ghost es: seq<Event>, ghost u: State)
    requires Reached(s, before, t) && t.store == queue.db.committed && Enabled(t, Raise(w)) && PhaseOf(t, w).job == id
    modifies queue.db
    ensures Reached(s, es, u) && u.store == queue.db.committed == queue.db.working && PhaseOf(u, w) == Idle
    ensures IsRun(s, es, true) && IsRun(s, es, false) && After(s, es) == u
    ensures id < |u.store.jobs| && u.store.jobs[id].attempts == t.store.jobs[id].attempts
    ensures u.store.jobs[id].status == if t.store.jobs[id].attempts < t.store.jobs[id].maxAttempts then Queued else Failed
  {
    hide IsRun, After, AttemptsOk, WinOk, PhaseOk, LookOk;
    var row := LoadPart(queue, w, id, t);
    ReachedNext(s, before, t, Raise(w));
    ghost var mid := Next(t, Raise(w));
    RecordPart(queue, w, id, row, error, now, mid);
    ReachedNext(s, before + [Raise(w)], mid, Record(w, error, now));
    es, u := before + [Raise(w)] + [Record(w, error, now)], Next(mid, Record(w, error, now));
  }

  /** Right after its read, an execution finds its items as it read them. */
  lemma ReadyToCommit(t: State, w: WorkerId, seen: seq<ItemId>)
    requires |t.history| == |t.store.jobs| && Enabled(t, Read(w, seen))
    ensures CanCommit(t.store, PhaseOf(Next(t, Read(w, seen)), w))
  {
  }

  lemma CommittedJob(u: State, w: WorkerId, result: string, now: int)
    requires |u.history| == |u.store.jobs| && CanCommit(u.store, PhaseOf(u, w))
    ensures var j := PhaseOf(u, w).job;
            NextStore(u, Event.Commit(w, result, now)).jobs[j] == Done(u.store.jobs[j], result, now)
  {
    if PhaseOf(u, w).Executing? {
      StartItemsKeepsJobs(u.store, PhaseOf(u, w).read.seen, now);
      var r := StartItems(u.store, PhaseOf(u, w).read.seen, now);
      assert r.jobs[PhaseOf(u, w).job] == r.jobs[..|u.store.jobs|][PhaseOf(u, w).job];
    }
  }

  // ---------------------------------------------------------------------
  // Without the discipline
  // ---------------------------------------------------------------------

  /** The run so far; one job. */
  ghost predicate OneJob(es: seq<Event>, s: State, t: int) {
    && InOrderUntil(es, t)
    && IsRun(INIT, es, false) && After(INIT, es) == s && Inv(s)
    && |s.history| == |s.store.jobs| == 1
  }

  ghost predicate SameTables(s0: State, s: State) {
    s.store.items == s0.store.items && s.store.tasks == s0.store.tasks
  }

  /** One more step. */
  lemma Extend(es: seq<Event>, s: State, e: Event, t: int, u: int) returns (es': seq<Event>)
    requires InOrderUntil(es, t) && t <= u && Between(e, t, u) && IsRun(INIT, es, false) && After(INIT, es) == s && Inv(s) && Enabled(s, e)
    ensures InOrderUntil(es', u) && IsRun(INIT, es', false) && After(INIT, es') == Next(s, e) && Inv(Next(s, e))
  {
    hide AttemptsOk, WinOk, PhaseOk, LookOk, NextStore, NextPhases, NextLooks, NextHistory, Enabled;
    RunSnoc(INIT, es, e, false);
    OrderSnoc(es, e, t, u);
    es' := es + [e];
  }

  lemma StartInv()
    ensures Inv(INIT) && IsRun(INIT, [], false) && After(INIT, []) == INIT && InOrderUntil([], 0)
  {
  }

  /** A queued job, with nobody at work. */
  ghost predicate JustQueued(s: State, work: Work, maxAttempts: int) {
    && |s.store.jobs| == 1 && s.store.jobs[0] == NewJob(work, maxAttempts, 0, s.store.jobs[0].key, 0)
    && s.history == [History(0, 0, 0, 0)] && s.phases == map[] && s.looks == map[]
  }

  /** A job with one attempt. */
  lemma Submitted(work: Work) returns (es: seq<Event>, s: State)
    requires work.OtherWork?
    ensures OneJob(es, s, 0) && JustQueued(s, work, 1)
  {
    StartInv();
    var e := Enqueue(work, 1, 0, None, 0);
    es := Extend([], INIT, e, 0, 0);
    s := Next(INIT, e);
    assert s.store.jobs == [NewJob(work, 1, 0, None, 0)];
    assert s.history == [History(0, 0, 0, 0)];
  }

  /** The execution job of a project with one item. */
  lemma Planned() returns (es: seq<Event>, s: State)
    ensures OneJob(es, s, 0) && JustQueued(s, ExecuteProject(0), 3)
    ensures s.store.items == [WorkItem(0, Backlog)] && s.store.tasks == []
  {
    StartInv();
    hide InOrder, InOrderUntil, IsRun, After, Inv;
    var a, b := Decompose(0, {}, 1, true), Approve(0, 0);
    es := Extend([], INIT, a, 0, 0);
    var s1 := Next(INIT, a);
    OneItem();
    es := Extend(es, s1, b, 0, 0);
    s := Next(s1, b);
    FirstApproval(s1);
  }

  lemma OneItem()
    ensures var s1 := Next(INIT, Decompose(0, {}, 1, true));
            && s1.store.items == [WorkItem(0, Backlog)] && s1.store.jobs == [] && s1.store.tasks == []
            && s1.history == [] && s1.phases == map[] && s1.looks == map[]
  {
  }

  lemma FirstApproval(s1: State)
    requires s1.store.jobs == [] && s1.history == [] && s1.phases == map[] && s1.looks == map[]
    ensures var s := Next(s1, Approve(0, 0));
            JustQueued(s, ExecuteProject(0), 3) && SameTables(s1, s) && |s.history| == |s.store.jobs| == 1
  {
    var s := Next(s1, Approve(0, 0));
    assert s.store.jobs == [NewJob(ExecuteProject(0), 3, 0, Some(ProjectExec(0)), 0)];
    assert s.history == [History(0, 0, 0, 0)];
  }

  /** A worker selects the job and claims it. */
  lemma ClaimIt(es0: seq<Event>, s0: State, t: int, w: WorkerId, now: int) returns (es: seq<Event>, s: State)
    requires OneJob(es0, s0, t) && t <= now && Due(s0.store.jobs[0], now) && PhaseOf(s0, w) == Idle
    ensures OneJob(es, s, now) && SameTables(s0, s) && s.looks == s0.looks && s.history == s0.history
    ensures s.store.jobs[0] == Claimed(s0.store.jobs[0], s0.store.jobs[0].startedAt, w, now)
    ensures s.phases == s0.phases[w := Holding(0, s0.history[0].stay)]
  {
    hide InOrder, InOrderUntil, IsRun, After, AttemptsOk, WinOk, PhaseOk, LookOk;
    var a, b := Select(w, 0, now), Claim(w, now);
    assert NotAfter(s0.store.jobs[0], s0.store.jobs[0]);
    es := Extend(es0, s0, a, t, now);
    var s1 := Next(s0, a);
    SelectedState(s0, w, now);
    es := Extend(es, s1, b, now, now);
    s := Next(s1, b);
    assert s.history == s1.history;
    assert s.phases == s0.phases[w := Holding(0, s0.history[0].stay)];
  }

  lemma SelectedState(s0: State, w: WorkerId, now: int)
    requires |s0.history| == |s0.store.jobs| == 1 && Enabled(s0, Select(w, 0, now))
    ensures Next(s0, Select(w, 0, now)) == s0.(phases := s0.phases[w := Picked(0, s0.store.jobs[0].startedAt)])
  {
    var s1 := Next(s0, Select(w, 0, now));
    assert s1.history == s0.history;
  }

  /** It reads the item. */
  lemma ReadIt(es0: seq<Event>, s0: State, t: int, w: WorkerId) returns (es: seq<Event>, s: State)
    requires OneJob(es0, s0, t) && PhaseOf(s0, w).Holding? && PhaseOf(s0, w).job == 0
    requires s0.store.jobs[0].work == ExecuteProject(0) && s0.store.items == [WorkItem(0, Backlog)]
    ensures OneJob(es, s, t) && s.store == s0.store && s.looks == s0.looks && s.history == s0.history
    ensures s.phases == s0.phases[w := Executing(0, PhaseOf(s0, w).stay, Reading(s0.store.items, [0]))]
  {
    hide InOrder, InOrderUntil, IsRun, After, AttemptsOk, WinOk, PhaseOk, LookOk;
    assert Enumerates(s0.store.items, 0, [0]);
    es := Extend(es0, s0, Read(w, [0]), t, t);
    s := Next(s0, Read(w, [0]));
    assert s.history == s0.history;
  }

  /** A request looks at it. */
  lemma LookAtIt(es0: seq<Event>, s0: State, t: int, r: RequestId, c: Control) returns (es: seq<Event>, s: State)
    requires OneJob(es0, s0, t) && r !in s0.looks && Allowed(c, s0.store.jobs[0].status)
    ensures OneJob(es, s, t) && s == s0.(looks := s0.looks[r := OneRow(c, 0, s0.store.jobs[0])])
  {
    hide InOrder, InOrderUntil, IsRun, After, AttemptsOk, WinOk, PhaseOk, LookOk;
    es := Extend(es0, s0, LookUp(r, c, 0), t, t);
    s := Next(s0, LookUp(r, c, 0));
    assert s.history == s0.history;
  }

  /** And writes it, early or late. */
  lemma WriteIt(es0: seq<Event>, s0: State, t: int, r: RequestId, c: Control, row: Job, now: int) returns (es: seq<Event>, s: State)
    requires OneJob(es0, s0, t) && t <= now && r in s0.looks && s0.looks[r] == OneRow(c, 0, row) && Allowed(c, row.status)
    ensures OneJob(es, s, now) && SameTables(s0, s) && s.looks == s0.looks - {r} && s.phases == s0.phases
    ensures s.store.jobs[0] == Flushed(row, Controlled(c, row, now), s0.store.jobs[0])
    ensures s.history[0].recoveries == s0.history[0].recoveries
    ensures c != Retry ==> s.history[0].retries == s0.history[0].retries
    ensures es == es0 + [Write(r, now)]
  {
    hide InOrder, InOrderUntil, IsRun, After, AttemptsOk, WinOk, PhaseOk, LookOk;
    RunSnoc(INIT, es0, Write(r, now), false);
    OrderSnoc(es0, Write(r, now), t, now);
    es := es0 + [Write(r, now)];
    s := Next(s0, Write(r, now));
  }

  /** It commits the execution. */
  lemma CommitIt(es0: seq<Event>, s0: State, t: int, w: WorkerId, now: int) returns (es: seq<Event>, s: State)
    requires InOrderUntil(es0, t) && t <= now && IsRun(INIT, es0, false) && After(INIT, es0) == s0 && Inv(s0)
    requires |s0.store.items| == 1 && s0.store.items[0].status != Gone
    requires PhaseOf(s0, w).Executing? && PhaseOf(s0, w).read.seen == [0] && PhaseOf(s0, w).job < |s0.store.jobs|
    ensures InOrderUntil(es, now) && IsRun(INIT, es, false) && After(INIT, es) == s && Inv(s)
    ensures |s.store.items| == 1 && s.store.items[0].status != Gone && |s.store.jobs| >= |s0.store.jobs|
    ensures s.store.tasks == s0.store.tasks + [0] && s.phases == s0.phases[w := Idle]
    ensures NoRecoveries(s0) ==> NoRecoveries(s)
  {
    hide InOrder, InOrderUntil, IsRun, After, AttemptsOk, WinOk, PhaseOk, LookOk, StartItems;
    StartItemsEffect(s0.store, [0], now);
    es := Extend(es0, s0, Event.Commit(w, "", now), t, now);
    s := Next(s0, Event.Commit(w, "", now));
  }

  predicate NoRecoveries(s: State) {
    forall j :: 0 <= j < |s.history| ==> s.history[j].recoveries == 0
  }

  /** A recovery looks, */
  lemma FindIt(es0: seq<Event>, s0: State, t: int, r: RequestId, row: Job) returns (es: seq<Event>, s: State)
    requires OneJob(es0, s0, t) && t <= 1000 && r !in s0.looks && s0.store.jobs[0] == row && Orphan(row, 1000, 120)
    ensures OneJob(es, s, 1000) && s == s0.(looks := s0.looks[r := Orphans(map[0 := row])])
  {
    hide InOrder, InOrderUntil, IsRun, After, AttemptsOk, WinOk, PhaseOk, LookOk;
    es := Extend(es0, s0, LookOrphans(r, 1000, 120), t, 1000);
    s := Next(s0, LookOrphans(r, 1000, 120));
    assert s.history == s0.history;
    assert OrphanRows(s0.store.jobs, 1000, 120) == map[0 := row];
  }

  /** and writes, early or late. */
  lemma RecoverIt(es0: seq<Event>, s0: State, t: int, r: RequestId, row: Job, now: int) returns (es: seq<Event>, s: State)
    requires OneJob(es0, s0, t) && t <= now && r in s0.looks && s0.looks[r] == Orphans(map[0 := row]) && row.status == Running
    requires row.scheduledAt == Some(0) && now > 0 && s0.store.jobs[0].work == row.work
    ensures OneJob(es, s, now) && SameTables(s0, s) && s.looks == s0.looks - {r} && s.phases == s0.phases
    ensures s.store.jobs[0].status == Queued && s.store.jobs[0].scheduledAt == Some(now) && s.store.jobs[0].work == row.work
  {
    hide InOrder, InOrderUntil, IsRun, After, Inv;
    es := Extend(es0, s0, Write(r, now), t, now);
    s := Next(s0, Write(r, now));
    RecoveredRow(s0, r, row, now);
  }

  lemma RecoveredRow(s0: State, r: RequestId, row: Job, now: int)
    requires |s0.history| == |s0.store.jobs| == 1 && r in s0.looks && s0.looks[r] == Orphans(map[0 := row]) && row.status == Running
    ensures var s := Next(s0, Write(r, now));
            |s.history| == 1 && s.store == s0.store.(jobs := [Flushed(row, Requeued(row, now), s0.store.jobs[0])])
  {
    var s := Next(s0, Write(r, now));
    assert s.store.jobs == [Flushed(row, Requeued(row, now), s0.store.jobs[0])];
  }

  lemma CrashIt(es0: seq<Event>, s0: State, t: int, w: WorkerId) returns (es: seq<Event>, s: State)
    requires OneJob(es0, s0, t) && PhaseOf(s0, w) != Dead
    ensures OneJob(es, s, t) && s == s0.(phases := s0.phases[w := Dead])
  {
    hide InOrder, InOrderUntil, IsRun, After, AttemptsOk, WinOk, PhaseOk, LookOk;
    es := Extend(es0, s0, Crash(w), t, t);
    s := Next(s0, Crash(w));
    assert s.history == s0.history;
  }

  /** The heartbeat of a project execution is never renewed, so a worker that is only slow is taken
      for dead: its job runs twice, and the item gets two tasks. */
  lemma SlowWorkerDuplicates()
    ensures exists es :: InOrder(es) && IsRun(INIT, es, false) && TasksOf(After(INIT, es).store.tasks, 0) == 2
  {
    hide InOrder, IsRun, After, Inv, Due, Claimed;
    var es, s := Planned();
    es, s := ClaimFresh(es, s, 0, 1, ExecuteProject(0), 3);
    es, s := ReadIt(es, s, 0, 1);
    var row := s.store.jobs[0];
    es, s := FindIt(es, s, 0, 0, row);
    es, s := RecoverIt(es, s, 1000, 0, row, 1000);
    es, s := ClaimAgain(es, s, 1000, 2, 1000);
    es, s := ReadIt(es, s, 1000, 2);
    es, s := CommitIt(es, s, 1000, 2, 1000);
    es, s := CommitIt(es, s, 1000, 1, 1000);
    assert s.store.tasks == [0, 0];
  }

  /** Two recoveries find the job of a dead worker; the second writes when the next worker is at
      work on it already. */
  lemma StaleRecoveryDuplicates()
    ensures exists es :: InOrder(es) && IsRun(INIT, es, false) && TasksOf(After(INIT, es).store.tasks, 0) == 2
                    && forall w: WorkerId :: w != 1 ==> PhaseOf(After(INIT, es), w) != Dead
  {
    hide InOrder, IsRun, After, Inv, Due, Claimed, Flushed;
    var es, s, row := FoundTwice();
    es, s := RecoverIt(es, s, 1000, 0, row, 1000);
    es, s := ClaimAgain(es, s, 1000, 2, 1000);
    es, s := ReadIt(es, s, 1000, 2);
    es, s := RecoverIt(es, s, 1000, 1, row, 2000);
    es, s := ClaimAgain(es, s, 2000, 3, 2000);
    es, s := ReadIt(es, s, 2000, 3);
    es, s := CommitIt(es, s, 2000, 3, 2000);
    es, s := CommitIt(es, s, 2000, 2, 2000);
    assert s.store.tasks == [0, 0];
  }

  /** The job of a dead worker, found by two recoveries. */
  lemma FoundTwice() returns (es: seq<Event>, s: State, row: Job)
    ensures OneJob(es, s, 1000) && s.store.jobs == [row] && row.status == Running && row.scheduledAt == Some(0)
    ensures row.work == ExecuteProject(0) && s.store.items == [WorkItem(0, Backlog)] && s.store.tasks == []
    ensures s.looks == map[0 := Orphans(map[0 := row]), 1 := Orphans(map[0 := row])]
    ensures s.phases == map[1 := Dead]
  {
    hide InOrder, InOrderUntil, IsRun, After, Inv, Due, Claimed, Flushed;
    es, s := Planned();
    es, s := ClaimFresh(es, s, 0, 1, ExecuteProject(0), 3);
    row := s.store.jobs[0];
    es, s := CrashIt(es, s, 0, 1);
    es, s := FindIt(es, s, 0, 0, row);
    es, s := FindIt(es, s, 1000, 1, row);
  }

  lemma ClaimFresh(es0: seq<Event>, s0: State, t: int, w: WorkerId, work: Work, maxAttempts: int) returns (es: seq<Event>, s: State)
    requires OneJob(es0, s0, t) && t <= 0 && PhaseOf(s0, w) == Idle
    requires s0.store.jobs[0] == NewJob(work, maxAttempts, 0, s0.store.jobs[0].key, 0)
    ensures OneJob(es, s, 0) && SameTables(s0, s) && s.looks == s0.looks && s.history == s0.history
    ensures s.store.jobs[0] == Claimed(s0.store.jobs[0], None, w, 0)
    ensures s.store.jobs[0].work == work && s.store.jobs[0].status == Running
    ensures s.store.jobs[0].heartbeatAt == Some(0) == s.store.jobs[0].scheduledAt
    ensures s.phases == s0.phases[w := Holding(0, s0.history[0].stay)]
  {
    hide InOrder, InOrderUntil, IsRun, After, Inv;
    es, s := ClaimIt(es0, s0, t, w, 0);
  }

  lemma ClaimAgain(es0: seq<Event>, s0: State, t: int, w: WorkerId, now: int) returns (es: seq<Event>, s: State)
    requires OneJob(es0, s0, t) && t <= now && PhaseOf(s0, w) == Idle && s0.store.jobs[0].status == Queued && s0.store.jobs[0].scheduledAt == Some(now)
    ensures OneJob(es, s, now) && SameTables(s0, s) && s.looks == s0.looks && s.history == s0.history
    ensures s.store.jobs[0].work == s0.store.jobs[0].work && s.store.jobs[0].maxAttempts == s0.store.jobs[0].maxAttempts
    ensures s.store.jobs[0].attempts == s0.store.jobs[0].attempts + 1
    ensures s.phases == s0.phases[w := Holding(0, s0.history[0].stay)]
  {
    hide InOrder, InOrderUntil, IsRun, After, Inv;
    es, s := ClaimIt(es0, s0, t, w, now);
  }

  /** A pause that looked before a claim is written after it, and the job is resumed. */
  lemma OvertakenPause(es0: seq<Event>, s0: State, t: int, row: Job) returns (es: seq<Event>, s: State)
    requires OneJob(es0, s0, t) && t <= 0 && s0.looks == map[0 := OneRow(Pause, 0, row)] && row.status == Queued
    ensures OneJob(es, s, 1000) && SameTables(s0, s) && s.looks == map[] && s.phases == s0.phases
    ensures s.store.jobs[0].status == Queued && s.store.jobs[0].scheduledAt == Some(1000)
    ensures s.store.jobs[0].work == s0.store.jobs[0].work && s.store.jobs[0].maxAttempts == s0.store.jobs[0].maxAttempts
    ensures s.store.jobs[0].attempts == s0.store.jobs[0].attempts
    ensures s.history[0].recoveries == s0.history[0].recoveries && s.history[0].retries == s0.history[0].retries
  {
    hide InOrder, InOrderUntil, IsRun, After, Inv;
    es, s := WriteIt(es0, s0, t, 0, Pause, row, 0);
    assert s.store.jobs[0].status == Paused;
    var paused := s.store.jobs[0];
    es, s := LookAtIt(es, s, 0, 1, Resume);
    es, s := WriteIt(es, s, 0, 1, Resume, paused, 1000);
  }

  /** The promised bound broken: one attempt allowed, none recovered or retried, two made. */
  lemma StalePauseGrantsAttempt()
    ensures exists es :: InOrder(es) && IsRun(INIT, es, false) && |After(INIT, es).store.jobs| == |After(INIT, es).history| == 1
                    && After(INIT, es).store.jobs[0].attempts == 2
                    && Promised(After(INIT, es).store.jobs[0], After(INIT, es).history[0]) == 1
  {
    hide InOrder, IsRun, After, Inv, Due, Claimed, Flushed;
    var es, s := Submitted(OtherWork("report"));
    var row := s.store.jobs[0];
    es, s := LookAtIt(es, s, 0, 0, Pause);
    es, s := ClaimFresh(es, s, 0, 1, OtherWork("report"), 1);
    assert s.store.jobs[0].attempts == 1 && s.store.jobs[0].maxAttempts == 1 by { AfterClaim(row, 1); }
    es, s := OvertakenPause(es, s, 0, row);
    es, s := ClaimAgain(es, s, 1000, 2, 1000);
  }

  lemma AfterClaim(row: Job, w: WorkerId)
    ensures Claimed(row, None, w, 0).attempts == row.attempts + 1 && Claimed(row, None, w, 0).maxAttempts == row.maxAttempts
  {
  }

  /** An ended job not absorbed: the pause is written over a completion. */
  lemma StalePauseRevives()
    ensures exists es, e :: InOrder(es + [e]) && IsRun(INIT, es + [e], false) && IsRun(INIT, es, false)
                    && |After(INIT, es).store.jobs| == |After(INIT, es + [e]).store.jobs| == 1
                    && After(INIT, es).store.jobs[0].status == Completed
                    && After(INIT, es + [e]).store.jobs[0].status == Paused
  {
    hide InOrder, IsRun, After, Inv, Due, Claimed;
    var es, s := Submitted(OtherWork("report"));
    var row := s.store.jobs[0];
    es, s := LookAtIt(es, s, 0, 0, Pause);
    es, s := ClaimFresh(es, s, 0, 1, OtherWork("report"), 1);
    es, s := CompleteIt(es, s, 0, 1);
    var es', s' := WriteIt(es, s, 0, 0, Pause, row, 0);
  }

  lemma CompleteIt(es0: seq<Event>, s0: State, t: int, w: WorkerId) returns (es: seq<Event>, s: State)
    requires OneJob(es0, s0, t) && t <= 0 && PhaseOf(s0, w).Holding? && PhaseOf(s0, w).job == 0 && !s0.store.jobs[0].work.ExecuteProject?
    ensures OneJob(es, s, 0) && s.looks == s0.looks && s.store.jobs[0].status == Completed
  {
    hide InOrder, InOrderUntil, IsRun, After, AttemptsOk, WinOk, PhaseOk, LookOk;
    es := Extend(es0, s0, Event.Commit(w, "", 0), t, 0);
    s := Next(s0, Event.Commit(w, "", 0));
  }

  /** Two tasks for one item without any recovery: the pause and a resume put the execution job
      back into the queue after its first worker has read the item. */
  lemma StalePauseDuplicates()
    ensures exists es :: InOrder(es) && IsRun(INIT, es, false) && TasksOf(After(INIT, es).store.tasks, 0) == 2
                    && NoRecoveries(After(INIT, es))
  {
    hide InOrder, IsRun, After, Inv, Due, Claimed;
    var es, s := Planned();
    var row := s.store.jobs[0];
    es, s := LookAtIt(es, s, 0, 0, Pause);
    es, s := ClaimFresh(es, s, 0, 1, ExecuteProject(0), 3);
    es, s := ReadIt(es, s, 0, 1);
    es, s := OvertakenPause(es, s, 0, row);
    es, s := ClaimAgain(es, s, 1000, 2, 1000);
    es, s := ReadIt(es, s, 1000, 2);
    es, s := CommitIt(es, s, 1000, 2, 1000);
    es, s := CommitIt(es, s, 1000, 1, 1000);
    assert s.store.tasks == [0, 0];
  }
}
