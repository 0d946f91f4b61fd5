/** `dev_review.py`, `devops_pipeline.py` and `devops_deploy.py`: a task is approved behind its
    quality gate, runs through the pipeline, and is deployed, in production only with an
    approver. What builds, tests, scans and deployments yield are inputs. */
module Delivery {
  import opened Text

  type TaskId = nat
  type PipeId = nat
  type RunId = nat
  type ReleaseId = nat

  const PRODUCTION := "production"
  const STAGING := "staging"

  const STAGES := ["build", "unit_tests", "integration_tests", "security_scan", "docker_image", "artifact",
                   "release_candidate", "staging_deploy", "monitoring", "rollback_ready", "production_approval"]

  datatype TaskStatus = InWork | PrReady | Approved | Rejected | ChangesRequested

  datatype Decision = Approve | Reject | RequestChanges

  datatype Gate = Gate(eligible: bool)

  /** A decision, with the gate and the override it was taken with. */
  datatype Approval = Approval(task: TaskId, decision: Decision, gate: Option<Gate>, override_: bool)

  datatype StageStatus = Passed | Failed | Skipped | Pending

  datatype StageEntry = StageEntry(stage: string, status: StageStatus)

  datatype PipeStatus = Running | AwaitingProduction | PipePassed | PipeFailed

  datatype Pipe = Pipe(task: TaskId, status: PipeStatus, stages: seq<StageEntry>, release: Option<ReleaseId>)

  datatype RunStatus = Deploying | AwaitingApproval | Deployed | RunFailed | RolledBack

  /** `attempted` tells the runs that went past the approval check. */
  datatype DeployRun = DeployRun(pipe: Option<PipeId>, release: ReleaseId, environment: string, status: RunStatus,
                                 approvedBy: Option<string>, attempted: bool)

  datatype RollbackRow = RollbackRow(environment: string, from: Option<ReleaseId>, to: ReleaseId, completed: bool)

  datatype ReleaseStatus = Candidate | Released

  /** `gated` are the environments whose profile requires approval. */
  datatype World = World(gated: set<string>, tasks: map<TaskId, TaskStatus>, approvals: seq<Approval>, pipes: seq<Pipe>,
                         runs: seq<DeployRun>, releases: seq<ReleaseStatus>, rollbacks: seq<RollbackRow>)

  datatype DeliveryError = NotFound | GateMissing | GateFailed | NotApproved | NotAwaiting | NoRelease | DeployRaised

  // ---------------------------------------------------------------------
  // Decisions
  // ---------------------------------------------------------------------

  function StatusFor(d: Decision): TaskStatus {
    match d case Approve => Approved case Reject => Rejected case RequestChanges => ChangesRequested
  }

  function Decided(w: World, t: TaskId, d: Decision, gate: Option<Gate>, override_: bool): Result<World, DeliveryError> {
    if t !in w.tasks then Err(NotFound)
    else if d == Approve && gate.None? then Err(GateMissing)
    else if d == Approve && !gate.value.eligible && !override_ then Err(GateFailed)
    else Ok(w.(approvals := w.approvals + [Approval(t, d, gate, override_)], tasks := w.tasks[t := StatusFor(d)]))
  }

  /** A decision is accepted if and only if the task exists and, for an approval, its gate was
      evaluated and is eligible or overridden. The task gets the status that was decided, no other
      task moves, and the decision is on record with its gate. */
  lemma DecidedExactly(w: World, t: TaskId, d: Decision, gate: Option<Gate>, o: bool)
    ensures Decided(w, t, d, gate, o).Ok? <==>
              t in w.tasks && (d == Approve ==> gate.Some? && (gate.value.eligible || o))
    ensures Decided(w, t, d, gate, o).Ok? ==>
              var w' := Decided(w, t, d, gate, o).value;
              && w'.tasks.Keys == w.tasks.Keys && (forall x :: x in w.tasks && x != t ==> w'.tasks[x] == w.tasks[x])
              && (d == Approve <==> w'.tasks[t] == Approved) && (d == Reject <==> w'.tasks[t] == Rejected)
              && (d == RequestChanges <==> w'.tasks[t] == ChangesRequested)
              && |w'.approvals| == |w.approvals| + 1 && w.approvals <= w'.approvals
              && var x := w'.approvals[|w.approvals|];
                 x.task == t && x.decision == d && x.gate == gate && x.override_ == o
  {
  }

  // ---------------------------------------------------------------------
  // Deployments
  // ---------------------------------------------------------------------

  /** What comes of extracting and verifying the artifact; `Breaks` stands for an exception that
      the deployment does not catch, when its run is already in the table. */
  datatype Attempt = NoArtifact | ExtractRaised | Verified(ok: bool) | Breaks

  /** Python's truth of an optional text. */
  predicate Given(approver: Option<string>) {
    approver.Some? && approver.value != ""
  }

  function NewRun(w: World, release: ReleaseId, env: string, pipe: Option<PipeId>, approver: Option<string>, a: Attempt): DeployRun {
    if env in w.gated && !Given(approver) then DeployRun(pipe, release, env, AwaitingApproval, None, false)
    else
      match a
      case Verified(ok) => DeployRun(pipe, release, env, if ok then Deployed else RunFailed, approver, true)
      case Breaks => DeployRun(pipe, release, env, Deploying, None, true)
      case _ => DeployRun(pipe, release, env, RunFailed, None, true)
  }

  /** The exception leaves `deploy`. A request that does not catch it is rolled back. */
  predicate Stops(w: World, env: string, approver: Option<string>, a: Attempt) {
    a.Breaks? && (env in w.gated ==> Given(approver))
  }

  /** `deploy`: a run is added, and a release deployed in production is released. */
  function DeployedTo(w: World, release: ReleaseId, env: string, pipe: Option<PipeId>, approver: Option<string>, a: Attempt): World
    requires release < |w.releases|
  {
    var run := NewRun(w, release, env, pipe, approver, a);
    w.(runs := w.runs + [run],
       releases := if run.status == Deployed && env == PRODUCTION then w.releases[release := Released] else w.releases)
  }

  /** One run is added, for this release, environment and pipeline. It is deployed if and only if
      its artifact was verified and an approver was given where one is needed, and waits if and only
      if one is needed and none was given; a release becomes released only by being deployed in
      production. */
  lemma DeployedExactly(w: World, release: ReleaseId, env: string, pipe: Option<PipeId>, approver: Option<string>, a: Attempt)
    requires release < |w.releases|
    ensures var w' := DeployedTo(w, release, env, pipe, approver, a);
            && |w'.runs| == |w.runs| + 1 && w.runs <= w'.runs && |w'.releases| == |w.releases|
            && var run := w'.runs[|w.runs|];
               && run.release == release && run.environment == env && run.pipe == pipe
               && (run.status == Deployed <==> a == Verified(true) && (env in w.gated ==> approver !in {None, Some("")}))
               && (run.status == AwaitingApproval <==> env in w.gated && approver in {None, Some("")})
               && (run.attempted <==> run.status != AwaitingApproval)
               && (run.status == Deployed ==> run.approvedBy == approver)
               && forall x :: 0 <= x < |w.releases| ==>
                    (w'.releases[x] == Released
                     <==> w.releases[x] == Released || (x == release && run.status == Deployed && env == PRODUCTION))
  {
  }

  function ProductionApproved(w: World, id: RunId, approver: Option<string>, a: Attempt): Result<World, DeliveryError> {
    if id >= |w.runs| then Err(NotFound)
    else
      var run := w.runs[id];
      if run.status != AwaitingApproval then Err(NotAwaiting)
      else if run.release >= |w.releases| then Err(NoRelease)
      else if Stops(w, run.environment, approver, a) then Err(DeployRaised)
      else
        var w' := DeployedTo(w, run.release, run.environment, run.pipe, approver, a);
        Ok(w'.(runs := w'.runs[id := run.(status := RolledBack)]))
  }

  /** The deployment raises: it is not held back for want of an approver, and its work breaks. */
  predicate Breaking(w: World, env: string, approver: Option<string>, a: Attempt) {
    a == Breaks && (env !in w.gated || approver !in {None, Some("")})
  }

  /** A late approval is accepted if and only if the run waits, and its deployment does not raise;
      then a new run of the same release, environment and pipeline takes its place. */
  lemma ApprovedExactly(w: World, id: RunId, approver: Option<string>, a: Attempt)
    requires id < |w.runs| ==> w.runs[id].release < |w.releases|
    ensures ProductionApproved(w, id, approver, a).Ok? <==>
              id < |w.runs| && w.runs[id].status == AwaitingApproval && !Breaking(w, w.runs[id].environment, approver, a)
    ensures ProductionApproved(w, id, approver, a).Ok? ==>
              var old_, w', n := w.runs[id], ProductionApproved(w, id, approver, a).value, |w.runs|;
              && |w'.runs| == n + 1 && w'.runs[id].status == RolledBack
              && (forall k :: 0 <= k < n && k != id ==> w'.runs[k] == w.runs[k])
              && w'.runs[n].release == old_.release && w'.runs[n].environment == old_.environment && w'.runs[n].pipe == old_.pipe
              && (w'.runs[n].status == Deployed <==> a == Verified(true) && (old_.environment in w.gated ==> approver !in {None, Some("")}))
  {
    if ProductionApproved(w, id, approver, a).Ok? {
      DeployedExactly(w, w.runs[id].release, w.runs[id].environment, w.runs[id].pipe, approver, a);
    }
  }

  /** The latest deployed run of the environment. */
  function Current(runs: seq<DeployRun>, env: string): (r: Option<RunId>)
    ensures r.Some? ==> r.value < |runs| && runs[r.value].environment == env && runs[r.value].status == Deployed
  {
    if runs == [] then None
    else
      var n := |runs| - 1;
      if runs[n].environment == env && runs[n].status == Deployed then Some(n) else Current(runs[..n], env)
  }

  /** In service is the last run that is deployed in the environment. */
  lemma {:induction false} CurrentExactly(runs: seq<DeployRun>, env: string, k: RunId)
    ensures Current(runs, env) == Some(k) <==>
              && k < |runs| && runs[k].environment == env && runs[k].status == Deployed
              && forall j :: k < j < |runs| ==> !(runs[j].environment == env && runs[j].status == Deployed)
  {
    if runs != [] {
      var n := |runs| - 1;
      CurrentExactly(runs[..n], env, k);
      if k < n {
        assert runs[..n][k] == runs[k];
        assert forall j :: k < j < n ==> runs[..n][j] == runs[j];
      }
    }
  }

  function RolledBackTo(w: World, env: string, to: ReleaseId, actor: string, a: Attempt): Result<World, DeliveryError> {
    if to >= |w.releases| then Err(NotFound)
    else if Stops(w, env, Some(actor), a) then Err(DeployRaised)
    else
      var current := Current(w.runs, env);
      var w' := DeployedTo(w, to, env, None, Some(actor), a);
      var row := RollbackRow(env, if current.Some? then Some(w.runs[current.value].release) else None, to,
                             w'.runs[|w.runs|].status == Deployed);
      Ok(w'.(runs := if current.Some? then w'.runs[current.value := w.runs[current.value].(status := RolledBack)] else w'.runs,
             rollbacks := w.rollbacks + [row]))
  }

  /** A rollback is accepted if and only if its release exists and its deployment does not raise. */
  lemma RollbackAccepted(w: World, env: string, to: ReleaseId, actor: string, a: Attempt)
    ensures RolledBackTo(w, env, to, actor, a).Ok? <==> to < |w.releases| && !Breaking(w, env, Some(actor), a)
  {
  }

  /** A rollback puts the release in service if and only if it is recorded as completed. One
      that is not completed still takes the run that was in service out of it. */
  lemma RollbackServes(w: World, env: string, to: ReleaseId, actor: string, a: Attempt)
    requires RolledBackTo(w, env, to, actor, a).Ok?
    ensures var w', before, n := RolledBackTo(w, env, to, actor, a).value, Current(w.runs, env), |w.runs|;
            && |w'.runs| == |w.runs| + 1 && w'.runs[|w.runs|].release == to && |w'.rollbacks| == |w.rollbacks| + 1
            && (w'.rollbacks[|w.rollbacks|].completed <==> Current(w'.runs, env) == Some(|w.runs|))
            && (before.Some? ==> Current(w'.runs, env) != before)
            && w'.runs[n].environment == env && w'.rollbacks[|w.rollbacks|].environment == env
            && w'.rollbacks[|w.rollbacks|].to == to
            && w'.rollbacks[|w.rollbacks|].from == (if before.Some? then Some(w.runs[before.value].release) else None)
            && (w'.rollbacks[|w.rollbacks|].completed <==> a == Verified(true) && (env in w.gated ==> actor != ""))
            && (forall k :: 0 <= k < n && before != Some(k) ==> w'.runs[k] == w.runs[k])
  {
    var w', n := RolledBackTo(w, env, to, actor, a).value, |w.runs|;
    var run := NewRun(w, to, env, None, Some(actor), a);
    assert w'.runs[n] == run && run.environment == env;
    if run.status != Deployed {
      assert Current(w'.runs, env) == Current(w'.runs[..n], env);
    }
  }

  // ---------------------------------------------------------------------
  // The pipeline
  // ---------------------------------------------------------------------

  /** What the stages yield; `raises` is the stage, counted from 0, whose work raises, if any. */
  datatype Yield = Yield(build: bool, tests: bool, scan: bool, image: bool, staging: Attempt, raises: Option<nat>)

  predicate StagingOk(w: World, y: Yield) {
    STAGING !in w.gated && y.staging == Verified(true)
  }

  predicate StagingBreaks(w: World, y: Yield) {
    Stops(w, STAGING, None, y.staging)
  }

  /** The staging deployment has added its run. */
  predicate StagingTried(w: World, y: Yield) {
    LogLength(w, y) >= 8 || (LogLength(w, y) == 7 && StagingBreaks(w, y) && y.raises != Some(7))
  }

  function Check(ok: bool): StageStatus { if ok then Passed else Failed }

  /** The log of a pipeline that never stops. */
  function FullLog(w: World, y: Yield): (r: seq<StageEntry>)
    ensures |r| == |STAGES| == 11
  {
    [StageEntry("build", Check(y.build)), StageEntry("unit_tests", Check(y.tests)),
     StageEntry("integration_tests", if y.tests then Passed else Skipped), StageEntry("security_scan", Check(y.scan)),
     StageEntry("docker_image", if y.image then Passed else Skipped), StageEntry("artifact", Passed),
     StageEntry("release_candidate", Passed), StageEntry("staging_deploy", Check(StagingOk(w, y))),
     StageEntry("monitoring", Passed), StageEntry("rollback_ready", Passed), StageEntry("production_approval", Pending)]
  }

  /** How many stages are logged before the pipeline stops: it stops after a failed build, after
      both test stages, after a failed scan, after a failed staging deployment, or where it raises,
      also inside the staging deployment. */
  function LogLength(w: World, y: Yield): (n: nat)
    ensures n <= 11
  {
    var n := if !y.build then 1 else if !y.tests then 3 else if !y.scan then 4
             else if StagingBreaks(w, y) then 7 else if !StagingOk(w, y) then 8 else 11;
    if y.raises.Some? && y.raises.value < n then y.raises.value else n
  }

  function Names(stages: seq<StageEntry>): (r: seq<string>)
    ensures |r| == |stages|
  {
    seq(|stages|, k requires 0 <= k < |stages| => stages[k].stage)
  }

  /** The world after a pipeline run of an approved task. */
  function PipelineRun(w: World, t: TaskId, y: Yield): World {
    var n, id, release := LogLength(w, y), |w.pipes|, |w.releases|;
    var cut := if n >= 7 then w.(releases := w.releases + [Candidate]) else w;
    var staged := if StagingTried(w, y) then DeployedTo(cut, release, STAGING, Some(id), None, y.staging) else cut;
    staged.(pipes := w.pipes + [Pipe(t, if n == 11 then AwaitingProduction else PipeFailed, FullLog(w, y)[..n],
                                     if n >= 7 then Some(release) else None)])
  }

  /** Nothing raises in any of the stages. */
  predicate NoStageRaises(y: Yield) {
    y.raises.None? || y.raises.value >= |STAGES|
  }

  /** Main result for one pipeline run: the stages are logged in their declared order; each that
      checks something is logged as passed if and only if the check succeeded; a failed stage is
      the last one, but for failed tests, after which the integration tests are logged as skipped;
      and the pipeline waits for production if and only if the build, the tests and the scan
      succeeded, staging is not gated and was deployed and verified, and nothing raised. */
  lemma PipelineExactly(w: World, t: TaskId, y: Yield)
    ensures var w' := PipelineRun(w, t, y);
            && |w'.pipes| == |w.pipes| + 1 && w.pipes <= w'.pipes
            && var p := w'.pipes[|w.pipes|]; var log := p.stages;
               && p.task == t && |log| <= |STAGES| && (forall k :: 0 <= k < |log| ==> log[k].stage == STAGES[k])
               && (|log| > 0 ==> (log[0].status == Passed <==> y.build)) && (|log| > 1 ==> (log[1].status == Passed <==> y.tests))
               && (|log| > 3 ==> (log[3].status == Passed <==> y.scan)) && (|log| > 4 ==> (log[4].status == Passed <==> y.image))
               && (|log| > 7 ==> (log[7].status == Passed <==> y.staging == Verified(true) && STAGING !in w.gated))
               && (forall k :: 0 <= k < |log| && log[k].status == Failed ==>
                     k == |log| - 1 || (k == 1 && |log| <= 3 && (|log| == 3 ==> log[2].status == Skipped)))
               && (p.release.Some? <==> |log| >= 7) && (p.release.Some? ==> p.release.value == |w.releases|)
               && p.status == (if y.build && y.tests && y.scan && STAGING !in w.gated && y.staging == Verified(true) && NoStageRaises(y)
                               then AwaitingProduction else PipeFailed)
               && (p.status == AwaitingProduction ==>
                     |w'.runs| == |w.runs| + 1 && w'.runs[|w.runs|].status == Deployed && w'.runs[|w.runs|].environment == STAGING
                     && w'.runs[|w.runs|].release == |w.releases| && w'.runs[|w.runs|].pipe == Some(|w.pipes|))
  {
    StagesInOrder(w, y);
  }

  lemma StagesInOrder(w: World, y: Yield)
    ensures forall k :: 0 <= k < |STAGES| ==> FullLog(w, y)[k].stage == STAGES[k]
  {
  }

  function Started(w: World, t: TaskId, y: Yield): Result<World, DeliveryError> {
    if t !in w.tasks then Err(NotFound)
    else if w.tasks[t] != Approved then Err(NotApproved)
    else Ok(PipelineRun(w, t, y))
  }

  function Marked(stages: seq<StageEntry>, ok: bool): seq<StageEntry> {
    seq(|stages|, k requires 0 <= k < |stages| =>
      if stages[k].stage == "production_approval" then stages[k].(status := Check(ok)) else stages[k])
    + [StageEntry("production_deploy", Check(ok))]
  }

  /** `deploy_production`. */
  function DeployedToProduction(w: World, id: PipeId, approver: string, a: Attempt): Result<World, DeliveryError> {
    if id >= |w.pipes| then Err(NotFound)
    else
      var pipe := w.pipes[id];
      if pipe.status != AwaitingProduction then Err(NotAwaiting)
      else if pipe.release.None? || pipe.release.value >= |w.releases| then Err(NoRelease)
      else if Stops(w, PRODUCTION, Some(approver), a) then Err(DeployRaised)
      else
        var w' := DeployedTo(w, pipe.release.value, PRODUCTION, Some(id), Some(approver), a);
        var ok := w'.runs[|w.runs|].status == Deployed;
        Ok(w'.(pipes := w.pipes[id := pipe.(stages := Marked(pipe.stages, ok), status := if ok then PipePassed else PipeFailed)],
               releases := if ok then w'.releases[pipe.release.value := Released] else w'.releases))
  }

  /** A production deployment is accepted if and only if the pipeline waits, and the deployment does
      not raise. It adds a run of the pipeline's release in production, with the approver; the
      pipeline passes if and only if that run is deployed, and its log says so. */
  lemma ProductionExactly(w: World, id: PipeId, approver: string, a: Attempt)
    requires id < |w.pipes| ==> w.pipes[id].release.Some? && w.pipes[id].release.value < |w.releases|
    ensures var r := DeployedToProduction(w, id, approver, a);
            && (r.Ok? <==> id < |w.pipes| && w.pipes[id].status == AwaitingProduction && !Breaking(w, PRODUCTION, Some(approver), a))
            && (r.Ok? ==>
                  var p, p', n := w.pipes[id], r.value.pipes[id], |w.runs|;
                  var live := a == Verified(true) && (PRODUCTION in w.gated ==> approver != "");
                  && |r.value.runs| == n + 1 && w.runs <= r.value.runs
                  && r.value.runs[n].release == p.release.value && r.value.runs[n].environment == PRODUCTION
                  && r.value.runs[n].pipe == Some(id) && (r.value.runs[n].status == Deployed <==> live)
                  && p'.status == (if live then PipePassed else PipeFailed) && p'.task == p.task && p'.release == p.release
                  && |p'.stages| == |p.stages| + 1
                  && p'.stages[|p.stages|] == StageEntry("production_deploy", if live then Passed else Failed)
                  && (forall k :: 0 <= k < |p.stages| ==>
                        p'.stages[k].stage == p.stages[k].stage
                        && p'.stages[k].status == if p.stages[k].stage != "production_approval" then p.stages[k].status
                                                  else if live then Passed else Failed)
                  && (forall q :: 0 <= q < |w.pipes| && q != id ==> r.value.pipes[q] == w.pipes[q])
                  && (live ==> r.value.releases[p.release.value] == Released))
  {
    if DeployedToProduction(w, id, approver, a).Ok? {
      DeployedExactly(w, w.pipes[id].release.value, PRODUCTION, Some(id), Some(approver), a);
    }
  }

  // ---------------------------------------------------------------------
  // The services
  // ---------------------------------------------------------------------

  class DeliveryService {
    var w: World

    constructor (w: World)
      ensures this.w == w
    {
      this.w := w;
    }

    method Decide(t: TaskId, d: Decision, gate: Option<Gate>, override_: bool) returns (r: Result<nat, DeliveryError>)
      modifies this
      ensures match Decided(old(w), t, d, gate, override_)
              case Ok(w') => w == w' && r == Ok(|old(w).approvals|)
              case Err(e) => w == old(w) && r == Err(e)
    {
      if t !in w.tasks {
        return Err(NotFound);
      }
      if d == Approve {
        if gate.None? {
          return Err(GateMissing);
        }
        if !gate.value.eligible && !override_ {
          return Err(GateFailed);
        }
      }
      r := Ok(|w.approvals|);
      w := w.(approvals := w.approvals + [Approval(t, d, gate, override_)]);
      w := w.(tasks := w.tasks[t := StatusFor(d)]);
    }

    method Deploy(release: ReleaseId, env: string, pipe: Option<PipeId>, approver: Option<string>, a: Attempt) returns (id: RunId)
      requires release < |w.releases|
      modifies this
      ensures w == DeployedTo(old(w), release, env, pipe, approver, a) && id == |old(w).runs|
    {
      id := |w.runs|;
      var run := DeployRun(pipe, release, env, Deploying, None, false);
      w := w.(runs := w.runs + [run]);
      if env in w.gated && !Given(approver) {
        w := w.(runs := w.runs[id := run.(status := AwaitingApproval)]);
        return;
      }
      run := run.(attempted := true);
      if a.Breaks? {
        w := w.(runs := w.runs[id := run]);
        return;
      }
      if !a.Verified? {
        w := w.(runs := w.runs[id := run.(status := RunFailed)]);
        return;
      }
      run := run.(status := if a.ok then Deployed else RunFailed, approvedBy := approver);
      w := w.(runs := w.runs[id := run]);
      if a.ok && env == PRODUCTION {
        w := w.(releases := w.releases[release := Released]);
      }
    }

    method ApproveProduction(id: RunId, approver: Option<string>, a: Attempt) returns (r: Result<RunId, DeliveryError>)
      modifies this
      ensures match ProductionApproved(old(w), id, approver, a)
              case Ok(w') => w == w' && r == Ok(|old(w).runs|)
              case Err(e) => w == old(w) && r == Err(e)
    {
      if id >= |w.runs| {
        return Err(NotFound);
      }
      var run := w.runs[id];
      if run.status != AwaitingApproval {
        return Err(NotAwaiting);
      }
      if run.release >= |w.releases| {
        return Err(NoRelease);
      }
      var start := w;
      var approved := Deploy(run.release, run.environment, run.pipe, approver, a);
      if Stops(start, run.environment, approver, a) {
        w := start;
        return Err(DeployRaised);
      }
      w := w.(runs := w.runs[id := run.(status := RolledBack)]);
      return Ok(approved);
    }

    method Rollback(env: string, to: ReleaseId, actor: string, a: Attempt) returns (r: Result<bool, DeliveryError>)
      modifies this
      ensures match RolledBackTo(old(w), env, to, actor, a)
              case Ok(w') => w == w' && r == Ok(w'.rollbacks[|old(w).rollbacks|].completed)
              case Err(e) => w == old(w) && r == Err(e)
    {
      if to >= |w.releases| {
        return Err(NotFound);
      }
      var current := Current(w.runs, env);
      var row := RollbackRow(env, if current.Some? then Some(w.runs[current.value].release) else None, to, false);
      var at, start := |w.rollbacks|, w;
      w := w.(rollbacks := w.rollbacks + [row]);
      var run := Deploy(to, env, None, Some(actor), a);
      if Stops(start, env, Some(actor), a) {
        w := start;
        return Err(DeployRaised);
      }
      var done := w.runs[run].status == Deployed;
      if current.Some? {
        w := w.(runs := w.runs[current.value := w.runs[current.value].(status := RolledBack)]);
      }
      w := w.(rollbacks := w.rollbacks[at := row.(completed := done)]);
      return Ok(done);
    }

    /** `_finish`. */
    method Finish(id: PipeId, status: PipeStatus, stages: seq<StageEntry>)
      requires id < |w.pipes|
      modifies this
      ensures w == old(w).(pipes := old(w).pipes[id := old(w).pipes[id].(status := status, stages := stages)])
    {
      w := w.(pipes := w.pipes[id := w.pipes[id].(status := status, stages := stages)]);
    }

    method RunPipeline(t: TaskId, y: Yield) returns (r: Result<PipeId, DeliveryError>)
      modifies this
      ensures match Started(old(w), t, y)
              case Ok(w') => w == w' && r == Ok(|old(w).pipes|)
              case Err(e) => w == old(w) && r == Err(e)
    {
      if t !in w.tasks {
        return Err(NotFound);
      }
      if w.tasks[t] != Approved {
        return Err(NotApproved);
      }
      var id := |w.pipes|;
      ghost var start := w;
      w := w.(pipes := w.pipes + [Pipe(t, Running, [], None)]);
      var stages, going := TestStages(y);
      if going {
        stages, going := ReleaseStages(id, y, stages, start);
      }
      Finish(id, if going then AwaitingProduction else PipeFailed, stages);
      assert w.pipes == PipelineRun(start, t, y).pipes;
      return Ok(id);
    }

    /** Stages 1 to 6: build, tests, scan, image, artifact. */
    method TestStages(y: Yield) returns (stages: seq<StageEntry>, going: bool)
      ensures stages == FullLog(w, y)[..if LogLength(w, y) < 6 then LogLength(w, y) else 6]
      ensures going <==> LogLength(w, y) >= 6 && y.raises != Some(6)
    {
      ghost var log := FullLog(w, y);
      stages, going := [], false;
      if y.raises == Some(0) { return; }
      stages := stages + [StageEntry("build", Check(y.build))];
      assert stages == log[..1];
      if !y.build || y.raises == Some(1) { return; }
      stages := stages + [StageEntry("unit_tests", Check(y.tests))];
      assert stages == log[..2];
      if y.raises == Some(2) { return; }
      stages := stages + [StageEntry("integration_tests", if y.tests then Passed else Skipped)];
      assert stages == log[..3];
      if !y.tests || y.raises == Some(3) { return; }
      stages := stages + [StageEntry("security_scan", Check(y.scan))];
      assert stages == log[..4];
      if !y.scan || y.raises == Some(4) { return; }
      stages := stages + [StageEntry("docker_image", if y.image then Passed else Skipped)];
      assert stages == log[..5];
      if y.raises == Some(5) { return; }
      stages := stages + [StageEntry("artifact", Passed)];
      assert stages == log[..6];
      going := y.raises != Some(6);
    }

    /** Stages 7 to 11: release candidate, staging, monitoring, and the wait for approval. */
    method ReleaseStages(id: PipeId, y: Yield, done: seq<StageEntry>, ghost start: World)
      returns (stages: seq<StageEntry>, going: bool)
      requires LogLength(start, y) >= 6 && y.raises != Some(6) && done == FullLog(start, y)[..6]
      requires id == |start.pipes| && |w.pipes| == id + 1 && w == start.(pipes := w.pipes)
      requires w.pipes[id].release == None
      modifies this
      ensures var n, release := LogLength(start, y), |start.releases|;
              var cut := start.(releases := start.releases + [Candidate]);
              && n >= 7 && stages == FullLog(start, y)[..n] && (going <==> n == 11)
              && w == (if StagingTried(start, y) then DeployedTo(cut, release, STAGING, Some(id), None, y.staging) else cut).(pipes :=
                        old(w).pipes[id := old(w).pipes[id].(release := Some(release))])
    {
      ghost var log := FullLog(start, y);
      var release := |w.releases|;
      going := false;
      w := w.(releases := w.releases + [Candidate], pipes := w.pipes[id := w.pipes[id].(release := Some(release))]);
      stages := done + [StageEntry("release_candidate", Passed)];
      assert stages == log[..7];
      if y.raises == Some(7) { return; }
      var run := Deploy(release, STAGING, Some(id), None, y.staging);
      if Stops(w, STAGING, None, y.staging) { return; }
      var deployed := w.runs[run].status == Deployed;
      assert deployed == StagingOk(start, y);
      stages := stages + [StageEntry("staging_deploy", Check(deployed))];
      assert stages == log[..8];
      if !deployed || y.raises == Some(8) { return; }
      stages := stages + [StageEntry("monitoring", Passed)];
      assert stages == log[..9];
      if y.raises == Some(9) { return; }
      stages := stages + [StageEntry("rollback_ready", Passed)];
      assert stages == log[..10];
      if y.raises == Some(10) { return; }
      stages := stages + [StageEntry("production_approval", Pending)];
      assert stages == log;
      going := true;
    }

    method DeployProduction(id: PipeId, approver: string, a: Attempt) returns (r: Result<bool, DeliveryError>)
      modifies this
      ensures match DeployedToProduction(old(w), id, approver, a)
              case Ok(w') => w == w' && r == Ok(w'.pipes[id].status == PipePassed)
              case Err(e) => w == old(w) && r == Err(e)
    {
      if id >= |w.pipes| {
        return Err(NotFound);
      }
      var pipe := w.pipes[id];
      if pipe.status != AwaitingProduction {
        return Err(NotAwaiting);
      }
      if pipe.release.None? || pipe.release.value >= |w.releases| {
        return Err(NoRelease);
      }
      var start := w;
      var run := Deploy(pipe.release.value, PRODUCTION, Some(id), Some(approver), a);
      if Stops(start, PRODUCTION, Some(approver), a) {
        w := start;
        return Err(DeployRaised);
      }
      var deployed := w.runs[run].status == Deployed;
      var stages := pipe.stages;
      for k := 0 to |stages|
        invariant |stages| == |pipe.stages|
        invariant forall j :: 0 <= j < |stages| ==>
                    stages[j] == if j < k then Marked(pipe.stages, deployed)[j] else pipe.stages[j]
      {
        if stages[k].stage == "production_approval" {
          stages := stages[k := stages[k].(status := Check(deployed))];
        }
      }
      stages := stages + [StageEntry("production_deploy", Check(deployed))];
      assert stages == Marked(pipe.stages, deployed);
      w := w.(pipes := w.pipes[id := pipe.(stages := stages, status := if deployed then PipePassed else PipeFailed)]);
      if deployed {
        w := w.(releases := w.releases[pipe.release.value := Released]);
      }
      return Ok(deployed);
    }
  }

  // ---------------------------------------------------------------------
  // Runs
  // ---------------------------------------------------------------------

  datatype Request =
    | WorkOn(task: TaskId, status: TaskStatus)
    | DecideOn(task: TaskId, decision: Decision, gate: Option<Gate>, override_: bool)
    | RunFor(task: TaskId, y: Yield)
    | ToProduction(pipe: PipeId, approver: string, a: Attempt)
    | ApproveRun(run: RunId, approvedBy: Option<string>, a: Attempt)
    | RollBack(env: string, to: ReleaseId, actor: string, a: Attempt)

  /** The world after a request; work on a task never approves it. */
  function Handled(w: World, q: Request): World {
    var r := match q
      case WorkOn(t, s) => if s == Approved then Err(NotApproved) else Ok(w.(tasks := w.tasks[t := s]))
      case DecideOn(t, d, gate, o) => Decided(w, t, d, gate, o)
      case RunFor(t, y) => Started(w, t, y)
      case ToProduction(p, approver, a) => DeployedToProduction(w, p, approver, a)
      case ApproveRun(id, approver, a) => ProductionApproved(w, id, approver, a)
      case RollBack(env, to, actor, a) => RolledBackTo(w, env, to, actor, a);
    if r.Ok? then r.value else w
  }

  function HandledAll(w: World, qs: seq<Request>): World {
    if qs == [] then w else Handled(HandledAll(w, qs[..|qs| - 1]), qs[|qs| - 1])
  }

  /** An approval that the quality gate allowed, or that overrode it. */
  ghost predicate HasApproval(w: World, t: TaskId) {
    exists k :: 0 <= k < |w.approvals| && w.approvals[k].task == t && w.approvals[k].decision == Approve
                && w.approvals[k].gate.Some? && (w.approvals[k].gate.value.eligible || w.approvals[k].override_)
  }

  /** Past the approval check, or waiting before it, in production for the pipeline. */
  predicate InProduction(r: DeployRun, p: PipeId) {
    r.pipe == Some(p) && r.environment == PRODUCTION && (r.attempted || r.status == AwaitingApproval)
  }

  function Productions(runs: seq<DeployRun>, p: PipeId): nat {
    if runs == [] then 0
    else Productions(runs[..|runs| - 1], p) + if InProduction(runs[|runs| - 1], p) then 1 else 0
  }

  ghost predicate RunOk(w: World, r: DeployRun) {
    && (r.pipe.Some? ==> r.pipe.value < |w.pipes|)
    && r.release < |w.releases|
    && (r.status == Deployed ==> r.attempted && (r.environment in w.gated ==> Given(r.approvedBy)))
    && (r.status == AwaitingApproval ==> !r.attempted)
  }

  ghost predicate LogOk(p: Pipe) {
    var names := Names(p.stages);
    && (names <= STAGES || names == STAGES + ["production_deploy"])
    && (p.status == AwaitingProduction ==> names == STAGES)
    && (p.status == PipePassed ==> names == STAGES + ["production_deploy"])
  }

  const NEEDED := ["build", "unit_tests", "integration_tests", "security_scan", "artifact", "release_candidate",
                   "staging_deploy", "monitoring", "rollback_ready"]

  /** A pipeline that waits for production, or went there, has passed what it needs, and failed
      nothing. */
  predicate Sound(p: Pipe) {
    p.status == AwaitingProduction || p.status == PipePassed ==>
      && (forall e :: e in p.stages ==> e.status != Failed)
      && (forall name :: name in NEEDED ==> StageEntry(name, Passed) in p.stages)
      && StageEntry("production_approval", if p.status == PipePassed then Passed else Pending) in p.stages
      && (p.status == PipePassed ==> StageEntry("production_deploy", Passed) in p.stages)
  }

  predicate ShipsFor(r: DeployRun, p: PipeId) {
    r.pipe == Some(p) && r.environment == PRODUCTION && r.attempted && (r.status == Deployed || r.status == RolledBack)
  }

  /** Some run of the pipeline was deployed in production, whatever superseded it since. */
  ghost predicate WentLive(runs: seq<DeployRun>, p: PipeId) {
    exists k :: 0 <= k < |runs| && ShipsFor(runs[k], p)
  }

  ghost predicate PipesOk(w: World) {
    forall p :: 0 <= p < |w.pipes| ==> Sound(w.pipes[p]) && (w.pipes[p].status == PipePassed ==> WentLive(w.runs, p))
  }

  /** Runs are added, or marked as rolled back. */
  predicate RunsGrow(runs: seq<DeployRun>, runs': seq<DeployRun>) {
    |runs| <= |runs'| && forall k :: 0 <= k < |runs| ==> runs'[k] == runs[k] || runs'[k] == runs[k].(status := RolledBack)
  }

  lemma LiveStays(runs: seq<DeployRun>, runs': seq<DeployRun>)
    requires RunsGrow(runs, runs')
    ensures forall p :: WentLive(runs, p) ==> WentLive(runs', p)
  {
    forall p | WentLive(runs, p) ensures WentLive(runs', p) {
      var k :| 0 <= k < |runs| && ShipsFor(runs[k], p);
      assert ShipsFor(runs'[k], p);
    }
  }

  lemma PipesStay(w: World, w': World)
    requires PipesOk(w) && w'.pipes == w.pipes && RunsGrow(w.runs, w'.runs)
    ensures PipesOk(w')
  {
    LiveStays(w.runs, w'.runs);
  }

  ghost predicate Inv(w: World) {
    && PipesOk(w)
    && (forall t :: t in w.tasks && w.tasks[t] == Approved ==> HasApproval(w, t))
    && (forall p :: 0 <= p < |w.pipes| ==> LogOk(w.pipes[p]) && HasApproval(w, w.pipes[p].task))
    && (forall k :: 0 <= k < |w.runs| ==> RunOk(w, w.runs[k]))
    && (forall p :: 0 <= p < |w.pipes| ==>
          Productions(w.runs, p) <= if w.pipes[p].status == AwaitingProduction then 0 else 1)
    && (forall p :: |w.pipes| <= p ==> Productions(w.runs, p) == 0)
    && ReleasesOk(w)
  }

  /** The run brought the release into production, whatever superseded it since. */
  predicate Ships(r: DeployRun, release: ReleaseId) {
    r.release == release && r.environment == PRODUCTION && r.attempted && (r.status == Deployed || r.status == RolledBack)
  }

  ghost predicate Shipped(runs: seq<DeployRun>, release: ReleaseId) {
    exists k :: 0 <= k < |runs| && Ships(runs[k], release)
  }

  ghost predicate ReleasesOk(w: World) {
    forall x: ReleaseId :: x < |w.releases| ==> (w.releases[x] == Released <==> Shipped(w.runs, x))
  }

  lemma ShippedSnoc(runs: seq<DeployRun>, r: DeployRun, x: ReleaseId)
    ensures Shipped(runs + [r], x) <==> Shipped(runs, x) || Ships(r, x)
  {
    if Shipped(runs, x) {
      var k :| 0 <= k < |runs| && Ships(runs[k], x);
      assert (runs + [r])[k] == runs[k];
    }
    assert (runs + [r])[|runs|] == r;
  }

  /** Replacing a run by one that ships the same releases. */
  lemma ShippedUpdate(runs: seq<DeployRun>, k: nat, r: DeployRun, x: ReleaseId)
    requires k < |runs| && (Ships(runs[k], x) <==> Ships(r, x))
    ensures Shipped(runs[k := r], x) <==> Shipped(runs, x)
  {
    if Shipped(runs, x) {
      var j :| 0 <= j < |runs| && Ships(runs[j], x);
      assert Ships(runs[k := r][j], x);
    }
  }

  /** A deployment marks the release it ships, and no other. */
  lemma DeployKeepsReleases(w: World, release: ReleaseId, env: string, pipe: Option<PipeId>, approver: Option<string>, a: Attempt)
    requires ReleasesOk(w) && release < |w.releases|
    ensures ReleasesOk(DeployedTo(w, release, env, pipe, approver, a))
  {
    forall x: ReleaseId | x < |w.releases|
      ensures var w' := DeployedTo(w, release, env, pipe, approver, a);
              w'.releases[x] == Released <==> Shipped(w'.runs, x)
    {
      ShippedSnoc(w.runs, NewRun(w, release, env, pipe, approver, a), x);
    }
  }

  lemma {:induction false} ProductionsUpdate(runs: seq<DeployRun>, k: nat, r: DeployRun, p: PipeId)
    requires k < |runs|
    ensures Productions(runs[k := r], p) == Productions(runs, p)
              - (if InProduction(runs[k], p) then 1 else 0) + (if InProduction(r, p) then 1 else 0)
    decreases |runs|
  {
    var n := |runs| - 1;
    if k < n {
      ProductionsUpdate(runs[..n], k, r, p);
      assert runs[k := r][..n] == runs[..n][k := r];
    } else {
      assert runs[k := r][..n] == runs[..n];
    }
  }

  lemma ProductionsSnoc(runs: seq<DeployRun>, r: DeployRun, p: PipeId)
    ensures Productions(runs + [r], p) == Productions(runs, p) + if InProduction(r, p) then 1 else 0
  {
    assert (runs + [r])[..|runs|] == runs;
  }

  lemma DecideKeeps(w: World, t: TaskId, d: Decision, gate: Option<Gate>, o: bool)
    requires Inv(w) && Decided(w, t, d, gate, o).Ok?
    ensures Inv(Decided(w, t, d, gate, o).value)
  {
    var w' := Decided(w, t, d, gate, o).value;
    assert w'.approvals[|w.approvals|] == Approval(t, d, gate, o);
    forall x | HasApproval(w, x) ensures HasApproval(w', x) {
      var k :| 0 <= k < |w.approvals| && w.approvals[k].task == x && w.approvals[k].decision == Approve
               && w.approvals[k].gate.Some? && (w.approvals[k].gate.value.eligible || w.approvals[k].override_);
      assert w'.approvals[k] == w.approvals[k];
    }
    SameApprovalTables(w, w');
  }

  lemma SameApprovalTables(w: World, w': World)
    requires Inv(w) && w'.pipes == w.pipes && w'.runs == w.runs && w'.releases == w.releases && w'.gated == w.gated
    ensures forall k :: 0 <= k < |w'.runs| ==> RunOk(w', w'.runs[k])
  {
    forall k | 0 <= k < |w'.runs| ensures RunOk(w', w'.runs[k]) {
      assert RunOk(w, w.runs[k]);
    }
  }

  /** One more run, and no change to the pipelines: it must not be a second one in production. */
  lemma DeployKeeps(w: World, release: ReleaseId, env: string, pipe: Option<PipeId>, approver: Option<string>, a: Attempt)
    requires forall k :: 0 <= k < |w.runs| ==> RunOk(w, w.runs[k])
    requires release < |w.releases| && (pipe.Some? ==> pipe.value < |w.pipes|)
    ensures var w' := DeployedTo(w, release, env, pipe, approver, a);
            && (forall k :: 0 <= k < |w'.runs| ==> RunOk(w', w'.runs[k]))
            && (forall p: PipeId :: Productions(w'.runs, p) == Productions(w.runs, p) + if pipe == Some(p) && env == PRODUCTION then 1 else 0)
  {
    var w' := DeployedTo(w, release, env, pipe, approver, a);
    var run := NewRun(w, release, env, pipe, approver, a);
    forall p: PipeId ensures Productions(w'.runs, p) == Productions(w.runs, p) + if pipe == Some(p) && env == PRODUCTION then 1 else 0 {
      ProductionsSnoc(w.runs, run, p);
    }
    forall k | 0 <= k < |w'.runs| ensures RunOk(w', w'.runs[k]) {
      assert k < |w.runs| ==> RunOk(w, w.runs[k]);
    }
  }

  lemma SameApprovals(w: World, w': World)
    requires w'.approvals == w.approvals
    ensures forall t :: HasApproval(w, t) ==> HasApproval(w', t)
  {
  }

  lemma PipelinePipes(w: World, t: TaskId, y: Yield)
    requires PipesOk(w)
    ensures PipesOk(PipelineRun(w, t, y))
  {
    hide Sound, WentLive;
    var w' := PipelineRun(w, t, y);
    LoggedStages(w, y, w'.pipes[|w.pipes|]);
    LiveStays(w.runs, w'.runs);
  }

  lemma PipelineReleases(w: World, t: TaskId, y: Yield)
    requires ReleasesOk(w) && forall k :: 0 <= k < |w.runs| ==> RunOk(w, w.runs[k])
    ensures ReleasesOk(PipelineRun(w, t, y))
  {
    hide Shipped;
    CutKeepsReleases(w);
    if StagingTried(w, y) {
      DeployKeepsReleases(w.(releases := w.releases + [Candidate]), |w.releases|, STAGING, Some(|w.pipes|), None, y.staging);
    }
  }

  lemma PipelineKeeps(w: World, t: TaskId, y: Yield)
    requires Inv(w) && t in w.tasks && w.tasks[t] == Approved
    ensures Inv(PipelineRun(w, t, y))
  {
    hide PipesOk, ReleasesOk;
    var w' := PipelineRun(w, t, y);
    var n, id, release := LogLength(w, y), |w.pipes|, |w.releases|;
    var cut := w.(releases := w.releases + [Candidate], pipes := w'.pipes);
    SameApprovals(w, w');
    FullLogNames(w, y, n);
    PipelinePipes(w, t, y);
    PipelineReleases(w, t, y);
    forall k | 0 <= k < |w.runs| ensures RunOk(w', w.runs[k]) && RunOk(cut, w.runs[k]) {
      assert RunOk(w, w.runs[k]);
    }
    if StagingTried(w, y) {
      DeployKeeps(cut, release, STAGING, Some(id), None, y.staging);
      assert w'.runs == DeployedTo(cut, release, STAGING, Some(id), None, y.staging).runs;
    }
  }

  /** A new release candidate was not shipped yet. */
  lemma CutKeepsReleases(w: World)
    requires ReleasesOk(w) && forall k :: 0 <= k < |w.runs| ==> RunOk(w, w.runs[k])
    ensures ReleasesOk(w.(releases := w.releases + [Candidate]))
  {
    assert !Shipped(w.runs, |w.releases|) by {
      forall k | 0 <= k < |w.runs| ensures !Ships(w.runs[k], |w.releases|) {
        assert RunOk(w, w.runs[k]);
      }
    }
  }

  lemma LoggedStages(w: World, y: Yield, p: Pipe)
    requires var n := LogLength(w, y); p.stages == FullLog(w, y)[..n] && p.status == if n == 11 then AwaitingProduction else PipeFailed
    ensures Sound(p)
  {
    if p.status == AwaitingProduction {
      var log := FullLog(w, y);
      assert p.stages == log;
      assert log[0].stage == NEEDED[0] && log[1].stage == NEEDED[1] && log[2].stage == NEEDED[2] && log[3].stage == NEEDED[3];
      assert log[5].stage == NEEDED[4] && log[6].stage == NEEDED[5] && log[7].stage == NEEDED[6] && log[8].stage == NEEDED[7];
      assert log[9].stage == NEEDED[8] && log[10].status == Pending;
    }
  }

  lemma FullLogNames(w: World, y: Yield, n: nat)
    requires n <= 11
    ensures Names(FullLog(w, y)[..n]) <= STAGES && (n == 11 ==> Names(FullLog(w, y)[..n]) == STAGES)
  {
    assert Names(FullLog(w, y)) == STAGES;
    assert Names(FullLog(w, y)[..n]) == Names(FullLog(w, y))[..n];
  }

  lemma ProductionKeeps(w: World, id: PipeId, approver: string, a: Attempt)
    requires Inv(w) && DeployedToProduction(w, id, approver, a).Ok?
    ensures Inv(DeployedToProduction(w, id, approver, a).value)
  {
    hide Sound, WentLive, ShipsFor;
    var w' := DeployedToProduction(w, id, approver, a).value;
    var pipe := w.pipes[id];
    SameApprovals(w, w');
    DeployKeeps(w, pipe.release.value, PRODUCTION, Some(id), Some(approver), a);
    DeployKeepsReleases(w, pipe.release.value, PRODUCTION, Some(id), Some(approver), a);
    assert Names(w'.pipes[id].stages) == Names(pipe.stages) + ["production_deploy"];
    PassedLog(w, id, pipe, w');
    var mid := DeployedTo(w, pipe.release.value, PRODUCTION, Some(id), Some(approver), a);
    forall k | 0 <= k < |w'.runs| ensures RunOk(w', w'.runs[k]) {
      assert RunOk(mid, mid.runs[k]);
    }
    assert w'.runs == mid.runs && w'.releases == mid.releases;
  }

  /** The log of the pipeline after its production deployment. */
  lemma PassedLog(w: World, id: PipeId, pipe: Pipe, w': World)
    requires PipesOk(w) && id < |w.pipes| && Sound(pipe) && pipe.status == AwaitingProduction
    requires |w'.runs| == |w.runs| + 1 && w'.runs[..|w.runs|] == w.runs && w'.runs[|w.runs|].pipe == Some(id)
    requires w'.runs[|w.runs|].environment == PRODUCTION
    requires w'.runs[|w.runs|].status == Deployed ==> w'.runs[|w.runs|].attempted
    requires var ok := w'.runs[|w.runs|].status == Deployed;
             w'.pipes == w.pipes[id := w.pipes[id].(stages := Marked(pipe.stages, ok), status := if ok then PipePassed else PipeFailed)]
    ensures PipesOk(w')
  {
    var ok, n := w'.runs[|w.runs|].status == Deployed, |pipe.stages|;
    var marked := Marked(pipe.stages, ok);
    assert marked[n] == StageEntry("production_deploy", Check(ok));
    forall e | e in pipe.stages
      ensures (if e.stage == "production_approval" then e.(status := Check(ok)) else e) in marked
    {
      var k :| 0 <= k < n && pipe.stages[k] == e;
      assert marked[k] == if e.stage == "production_approval" then e.(status := Check(ok)) else e;
    }
    assert "production_approval" !in NEEDED;
    assert ok ==> ShipsFor(w'.runs[|w.runs|], id);
    LiveStays(w.runs, w'.runs);
  }

  lemma ApproveKeeps(w: World, id: RunId, approver: Option<string>, a: Attempt)
    requires Inv(w) && ProductionApproved(w, id, approver, a).Ok?
    ensures Inv(ProductionApproved(w, id, approver, a).value)
  {
    var w' := ProductionApproved(w, id, approver, a).value;
    var run := w.runs[id];
    assert RunOk(w, run);
    var mid := DeployedTo(w, run.release, run.environment, run.pipe, approver, a);
    SameApprovals(w, w');
    PipesStay(w, w');
    DeployKeeps(w, run.release, run.environment, run.pipe, approver, a);
    DeployKeepsReleases(w, run.release, run.environment, run.pipe, approver, a);
    forall x: ReleaseId | x < |w'.releases| ensures Shipped(w'.runs, x) <==> Shipped(mid.runs, x) {
      ShippedUpdate(mid.runs, id, run.(status := RolledBack), x);
    }
    forall p: PipeId ensures Productions(w'.runs, p) == Productions(w.runs, p) {
      ProductionsUpdate(mid.runs, id, run.(status := RolledBack), p);
    }
    forall k | 0 <= k < |w'.runs| ensures RunOk(w', w'.runs[k]) {
      assert RunOk(mid, mid.runs[k]);
    }
  }

  lemma RollbackKeeps(w: World, env: string, to: ReleaseId, actor: string, a: Attempt)
    requires Inv(w) && RolledBackTo(w, env, to, actor, a).Ok?
    ensures Inv(RolledBackTo(w, env, to, actor, a).value)
  {
    var w' := RolledBackTo(w, env, to, actor, a).value;
    var mid := DeployedTo(w, to, env, None, Some(actor), a);
    var current := Current(w.runs, env);
    SameApprovals(w, w');
    PipesStay(w, w');
    DeployKeeps(w, to, env, None, Some(actor), a);
    DeployKeepsReleases(w, to, env, None, Some(actor), a);
    if current.Some? {
      var run := w.runs[current.value];
      assert RunOk(w, run);
      forall x: ReleaseId | x < |w'.releases| ensures Shipped(w'.runs, x) <==> Shipped(mid.runs, x) {
        ShippedUpdate(mid.runs, current.value, run.(status := RolledBack), x);
      }
      forall p: PipeId ensures Productions(w'.runs, p) == Productions(w.runs, p) {
        ProductionsUpdate(mid.runs, current.value, run.(status := RolledBack), p);
      }
    }
    forall k | 0 <= k < |w'.runs| ensures RunOk(w', w'.runs[k]) {
      assert RunOk(mid, mid.runs[k]);
    }
  }

  lemma HandledKeeps(w: World, q: Request)
    requires Inv(w)
    ensures Inv(Handled(w, q))
  {
    if Handled(w, q) != w {
      match q {
        case WorkOn(t, s) =>
          SameApprovals(w, Handled(w, q));
          SameApprovalTables(w, Handled(w, q));
        case DecideOn(t, d, gate, o) => DecideKeeps(w, t, d, gate, o);
        case RunFor(t, y) => PipelineKeeps(w, t, y);
        case ToProduction(p, approver, a) => ProductionKeeps(w, p, approver, a);
        case ApproveRun(id, approver, a) => ApproveKeeps(w, id, approver, a);
        case RollBack(env, to, actor, a) => RollbackKeeps(w, env, to, actor, a);
      }
    }
  }

  function Start(gated: set<string>): World {
    World(gated, map[], [], [], [], [], [])
  }

  lemma {:induction false} InvOverRuns(gated: set<string>, qs: seq<Request>)
    ensures Inv(HandledAll(Start(gated), qs))
  {
    if qs != [] {
      InvOverRuns(gated, qs[..|qs| - 1]);
      HandledKeeps(HandledAll(Start(gated), qs[..|qs| - 1]), qs[|qs| - 1]);
    }
  }

  /** Production deployments of the pipeline that went past the approval check. */
  function Attempts(runs: seq<DeployRun>, p: PipeId): nat {
    if runs == [] then 0
    else
      var r := runs[|runs| - 1];
      Attempts(runs[..|runs| - 1], p) + if r.pipe == Some(p) && r.environment == PRODUCTION && r.attempted then 1 else 0
  }

  lemma {:induction false} AttemptsAreProductions(runs: seq<DeployRun>, p: PipeId)
    ensures Attempts(runs, p) <= Productions(runs, p)
  {
    if runs != [] {
      AttemptsAreProductions(runs[..|runs| - 1], p);
    }
  }

  /** Main result over every run: a pipeline's log is a prefix of the declared stages, followed
      by the production deployment at most; it waits for production only with all eleven
      logged; its task was approved behind an eligible or overridden gate; it is deployed to
      production at most once; while it waits for production, and once it went there, none of its
      stages failed and all that it needs passed, and it counts as passed only if it went live;
      what is deployed where approval is required has an approver; and
      a release is marked released if and only if it was brought into production. */
  lemma DeliveryOverRuns(gated: set<string>, qs: seq<Request>)
    ensures var w := HandledAll(Start(gated), qs);
            && (forall p :: 0 <= p < |w.pipes| ==>
                  LogOk(w.pipes[p]) && HasApproval(w, w.pipes[p].task) && Attempts(w.runs, p) <= 1)
            && (forall p :: 0 <= p < |w.pipes| ==> Sound(w.pipes[p]) && (w.pipes[p].status == PipePassed ==> WentLive(w.runs, p)))
            && (forall k :: 0 <= k < |w.runs| && w.runs[k].status == Deployed && w.runs[k].environment in w.gated ==>
                  Given(w.runs[k].approvedBy))
            && (forall x: ReleaseId :: x < |w.releases| ==> (w.releases[x] == Released <==> Shipped(w.runs, x)))
  {
    var w := HandledAll(Start(gated), qs);
    InvOverRuns(gated, qs);
    forall p | 0 <= p < |w.pipes| ensures Attempts(w.runs, p) <= 1 {
      AttemptsAreProductions(w.runs, p);
    }
    forall k | 0 <= k < |w.runs| && w.runs[k].status == Deployed && w.runs[k].environment in w.gated
      ensures Given(w.runs[k].approvedBy)
    {
      assert RunOk(w, w.runs[k]);
    }
  }
}
