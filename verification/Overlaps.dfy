/** Requests that overlap: `deploy_production` checks the pipeline's row as it read it, and other
    requests may be served before it writes. */
module Overlaps {
  import opened Text
  import opened Delivery

  type Session = nat

  /** The pipeline and its row, as a session has read them when its check passed. */
  datatype Held = Held(id: PipeId, pipe: Pipe)

  datatype State = State(w: World, held: map<Session, Held>)

  /** What a session writes over the world of that moment. */
  function Written(w: World, h: Held, approver: string, a: Attempt): World
    requires HeldOk(w, h)
  {
    if Stops(w, PRODUCTION, Some(approver), a) then w
    else
      var release := h.pipe.release.value;
      var w' := DeployedTo(w, release, PRODUCTION, Some(h.id), Some(approver), a);
      var ok := w'.runs[|w.runs|].status == Deployed;
      w'.(pipes := w.pipes[h.id := w.pipes[h.id].(stages := Marked(h.pipe.stages, ok),
                                                  status := if ok then PipePassed else PipeFailed)],
          releases := if ok then w'.releases[release := Released] else w'.releases)
  }

  predicate HeldOk(w: World, h: Held) {
    h.id < |w.pipes| && h.pipe.release.Some? && h.pipe.release.value < |w.releases|
  }

  /** The check passes on the row of the pipeline. */
  predicate Passes(w: World, id: PipeId) {
    id < |w.pipes| && w.pipes[id].status == AwaitingProduction
    && w.pipes[id].release.Some? && w.pipes[id].release.value < |w.releases|
  }

  /** A request served with nothing between its check and its write is the step of the service. */
  lemma UnmovedProduction(w: World, id: PipeId, approver: string, a: Attempt)
    requires Inv(w) && Passes(w, id)
    ensures Waited(w.pipes[id])
    ensures Handled(w, ToProduction(id, approver, a)) == Written(w, Held(id, w.pipes[id]), approver, a)
  {
    assert LogOk(w.pipes[id]);
  }

  datatype Step =
    | Serve(q: Request)
    | Read(s: Session, id: PipeId)
    | Write(s: Session, approver: string, a: Attempt)

  ghost predicate StateOk(st: State) {
    (forall k :: 0 <= k < |st.w.runs| ==> RunOk(st.w, st.w.runs[k])) && forall s :: s in st.held ==> HeldOk(st.w, st.held[s])
  }

  ghost predicate Kept(st: State) {
    Inv(st.w) && forall s :: s in st.held ==> Waited(st.held[s].pipe)
  }

  /** What a waiting pipeline is known to be. */
  predicate Waited(p: Pipe) {
    p.status == AwaitingProduction && Names(p.stages) == STAGES && Sound(p)
  }

  /** The write's second condition holds over every run, as `RunKeeps` shows. */
  function Stepped(st: State, step: Step): State {
    match step
    case Serve(q) => st.(w := Handled(st.w, q))
    case Read(s, id) =>
      if s !in st.held && Passes(st.w, id)
      then st.(held := st.held[s := Held(id, st.w.pipes[id])]) else st
    case Write(s, approver, a) =>
      if s in st.held && HeldOk(st.w, st.held[s])
      then State(Written(st.w, st.held[s], approver, a), st.held - {s}) else st
  }

  /** The run, from an empty world. */
  function Ran(gated: set<string>, steps: seq<Step>): State {
    if steps == [] then State(Start(gated), map[]) else Stepped(Ran(gated, steps[..|steps| - 1]), steps[|steps| - 1])
  }

  /** A write that goes through finds no production run of its pipeline in the table. */
  predicate FindsNone(st: State, step: Step) {
    step.Write? && step.s in st.held && !Stops(st.w, PRODUCTION, Some(step.approver), step.a) ==>
      Productions(st.w.runs, st.held[step.s].id) == 0
  }

  predicate AllFindNone(gated: set<string>, steps: seq<Step>) {
    steps == [] || (AllFindNone(gated, steps[..|steps| - 1]) && FindsNone(Ran(gated, steps[..|steps| - 1]), steps[|steps| - 1]))
  }

  /** No request takes a production run away, or a pipeline or a release. */
  lemma HandledGrows(w: World, q: Request)
    requires forall k :: 0 <= k < |w.runs| ==> RunOk(w, w.runs[k])
    ensures var w' := Handled(w, q);
            && (forall k :: 0 <= k < |w'.runs| ==> RunOk(w', w'.runs[k]))
            && |w.pipes| <= |w'.pipes| && |w.releases| <= |w'.releases|
            && forall p: PipeId :: Productions(w.runs, p) <= Productions(w'.runs, p)
  {
    if Handled(w, q) != w {
      match q {
        case WorkOn(_, _) => SameTables(w, Handled(w, q));
        case DecideOn(_, _, _, _) => SameTables(w, Handled(w, q));
        case RunFor(t, y) => PipelineGrows(w, t, y);
        case ToProduction(p, approver, a) =>
          DeployKeeps(w, w.pipes[p].release.value, PRODUCTION, Some(p), Some(approver), a);
          SameTables(DeployedTo(w, w.pipes[p].release.value, PRODUCTION, Some(p), Some(approver), a), Handled(w, q));
        case ApproveRun(id, approver, a) => ApproveGrows(w, id, approver, a);
        case RollBack(env, to, actor, a) => RollbackGrows(w, env, to, actor, a);
      }
    }
  }

  lemma SameTables(w: World, w': World)
    requires (forall k :: 0 <= k < |w.runs| ==> RunOk(w, w.runs[k])) && w'.runs == w.runs && w'.gated == w.gated
    requires |w.pipes| <= |w'.pipes| && |w.releases| <= |w'.releases|
    ensures forall k :: 0 <= k < |w'.runs| ==> RunOk(w', w'.runs[k])
  {
    forall k | 0 <= k < |w'.runs| ensures RunOk(w', w'.runs[k]) {
      assert RunOk(w, w.runs[k]);
    }
  }

  lemma PipelineGrows(w: World, t: TaskId, y: Yield)
    requires forall k :: 0 <= k < |w.runs| ==> RunOk(w, w.runs[k])
    ensures var w' := PipelineRun(w, t, y);
            && (forall k :: 0 <= k < |w'.runs| ==> RunOk(w', w'.runs[k]))
            && |w.pipes| <= |w'.pipes| && |w.releases| <= |w'.releases|
            && forall p: PipeId :: Productions(w.runs, p) <= Productions(w'.runs, p)
  {
    var w' := PipelineRun(w, t, y);
    var id, release := |w.pipes|, |w.releases|;
    var cut := w.(releases := w'.releases, pipes := w'.pipes);
    SameTables(w, cut);
    if StagingTried(w, y) {
      DeployKeeps(cut, release, STAGING, Some(id), None, y.staging);
      assert w'.runs == DeployedTo(cut, release, STAGING, Some(id), None, y.staging).runs;
      SameTables(DeployedTo(cut, release, STAGING, Some(id), None, y.staging), w');
    }
  }

  lemma ApproveGrows(w: World, id: RunId, approver: Option<string>, a: Attempt)
    requires forall k :: 0 <= k < |w.runs| ==> RunOk(w, w.runs[k])
    requires ProductionApproved(w, id, approver, a).Ok?
    ensures var w' := ProductionApproved(w, id, approver, a).value;
            && (forall k :: 0 <= k < |w'.runs| ==> RunOk(w', w'.runs[k]))
            && |w.pipes| == |w'.pipes| && |w.releases| == |w'.releases|
            && forall p: PipeId :: Productions(w.runs, p) == Productions(w'.runs, p)
  {
    var run := w.runs[id];
    assert RunOk(w, run);
    var mid := DeployedTo(w, run.release, run.environment, run.pipe, approver, a);
    DeployKeeps(w, run.release, run.environment, run.pipe, approver, a);
    Superseded(mid, id);
    assert mid.runs[id] == run;
  }

  lemma RollbackGrows(w: World, env: string, to: ReleaseId, actor: string, a: Attempt)
    requires forall k :: 0 <= k < |w.runs| ==> RunOk(w, w.runs[k])
    requires RolledBackTo(w, env, to, actor, a).Ok?
    ensures var w' := RolledBackTo(w, env, to, actor, a).value;
            && (forall k :: 0 <= k < |w'.runs| ==> RunOk(w', w'.runs[k]))
            && |w.pipes| == |w'.pipes| && |w.releases| == |w'.releases|
            && forall p: PipeId :: Productions(w.runs, p) == Productions(w'.runs, p)
  {
    var current := Current(w.runs, env);
    var mid := DeployedTo(w, to, env, None, Some(actor), a);
    var w' := RolledBackTo(w, env, to, actor, a).value;
    DeployKeeps(w, to, env, None, Some(actor), a);
    if current.Some? {
      assert RunOk(w, w.runs[current.value]) && mid.runs[current.value] == w.runs[current.value];
      Superseded(mid, current.value);
      SameTables(mid.(runs := mid.runs[current.value := mid.runs[current.value].(status := RolledBack)]), w');
    } else {
      SameTables(mid, w');
    }
  }

  /** Marking a run as rolled back takes it out of production only if it was waiting. */
  lemma Superseded(w: World, k: nat)
    requires (forall j :: 0 <= j < |w.runs| ==> RunOk(w, w.runs[j])) && k < |w.runs|
    ensures var w' := w.(runs := w.runs[k := w.runs[k].(status := RolledBack)]);
            && (forall j :: 0 <= j < |w'.runs| ==> RunOk(w', w'.runs[j]))
            && forall p: PipeId :: Productions(w'.runs, p) == Productions(w.runs, p)
                 - if InProduction(w.runs[k], p) && w.runs[k].status == AwaitingApproval then 1 else 0
  {
    var r := w.runs[k].(status := RolledBack);
    var w' := w.(runs := w.runs[k := r]);
    assert RunOk(w, w.runs[k]);
    forall j | 0 <= j < |w'.runs| ensures RunOk(w', w'.runs[j]) {
      assert RunOk(w, w.runs[j]);
    }
    forall p: PipeId ensures Productions(w'.runs, p) == Productions(w.runs, p)
                               - if InProduction(w.runs[k], p) && w.runs[k].status == AwaitingApproval then 1 else 0 {
      ProductionsUpdate(w.runs, k, r, p);
    }
  }

  /** A write that goes through adds one production run to its pipeline. */
  lemma WriteAddsOne(w: World, h: Held, approver: string, a: Attempt)
    requires (forall k :: 0 <= k < |w.runs| ==> RunOk(w, w.runs[k])) && HeldOk(w, h)
    ensures var w' := Written(w, h, approver, a);
            && (forall k :: 0 <= k < |w'.runs| ==> RunOk(w', w'.runs[k]))
            && |w.pipes| == |w'.pipes| && |w.releases| == |w'.releases|
            && forall p: PipeId :: Productions(w'.runs, p)
                 == Productions(w.runs, p) + if p == h.id && !Stops(w, PRODUCTION, Some(approver), a) then 1 else 0
  {
    if !Stops(w, PRODUCTION, Some(approver), a) {
      var mid := DeployedTo(w, h.pipe.release.value, PRODUCTION, Some(h.id), Some(approver), a);
      DeployKeeps(w, h.pipe.release.value, PRODUCTION, Some(h.id), Some(approver), a);
      SameTables(mid, Written(w, h, approver, a));
    }
  }

  /** A write keeps all that requests keep if and only if it finds no production run. */
  lemma WriteKeeps(w: World, h: Held, approver: string, a: Attempt)
    requires Inv(w) && HeldOk(w, h) && Waited(h.pipe)
    ensures Inv(Written(w, h, approver, a))
            <==> Stops(w, PRODUCTION, Some(approver), a) || Productions(w.runs, h.id) == 0
  {
    hide Sound, WentLive, ShipsFor;
    WriteAddsOne(w, h, approver, a);
    if !Stops(w, PRODUCTION, Some(approver), a) && Productions(w.runs, h.id) == 0 {
      var w' := Written(w, h, approver, a);
      SameApprovals(w, w');
      DeployKeepsReleases(w, h.pipe.release.value, PRODUCTION, Some(h.id), Some(approver), a);
      var mid := DeployedTo(w, h.pipe.release.value, PRODUCTION, Some(h.id), Some(approver), a);
      assert Names(w'.pipes[h.id].stages) == STAGES + ["production_deploy"];
      PassedLog(w, h.id, h.pipe, w');
      assert w'.runs == mid.runs && w'.releases == mid.releases;
    }
  }

  lemma StepGrows(st: State, step: Step)
    requires StateOk(st)
    ensures StateOk(Stepped(st, step))
    ensures forall p: PipeId :: Productions(st.w.runs, p) <= Productions(Stepped(st, step).w.runs, p)
    ensures !FindsNone(st, step) ==> Productions(Stepped(st, step).w.runs, st.held[step.s].id) > 1
    ensures Kept(st) && FindsNone(st, step) ==> Kept(Stepped(st, step))
  {
    hide Inv, Handled, Written, RunOk, LogOk, Productions;
    match step
    case Serve(q) =>
      HandledGrows(st.w, q);
      if Kept(st) { HandledKeeps(st.w, q); }
    case Read(s, id) =>
      if Kept(st) && Passes(st.w, id) { WaitingLog(st.w, id); }
    case Write(s, approver, a) =>
      if s in st.held {
        WriteAddsOne(st.w, st.held[s], approver, a);
        if Kept(st) { WriteKeeps(st.w, st.held[s], approver, a); }
      }
  }

  lemma WaitingLog(w: World, id: PipeId)
    requires Inv(w) && Passes(w, id)
    ensures Waited(w.pipes[id])
  {
    assert LogOk(w.pipes[id]);
  }

  lemma {:induction false} RunKeeps(gated: set<string>, steps: seq<Step>)
    ensures StateOk(Ran(gated, steps))
    ensures AllFindNone(gated, steps) ==> Kept(Ran(gated, steps))
    ensures !AllFindNone(gated, steps) ==> exists p: PipeId :: Productions(Ran(gated, steps).w.runs, p) > 1
  {
    assert Kept(State(Start(gated), map[]));
    if steps != [] {
      var before, step := steps[..|steps| - 1], steps[|steps| - 1];
      hide StateOk, Kept, Stepped, FindsNone, Productions;
      RunKeeps(gated, before);
      StepGrows(Ran(gated, before), step);
    }
  }

  /** Main result over every interleaving of requests with such checks and writes: every pipeline
      has at most one production run, past the approval check or waiting before it, if and only if
      no write finds one in the table; and then all that holds over runs of one request after the
      other holds. */
  lemma OnceIfFoundNone(gated: set<string>, steps: seq<Step>)
    ensures (forall p: PipeId :: Productions(Ran(gated, steps).w.runs, p) <= 1) <==> AllFindNone(gated, steps)
    ensures AllFindNone(gated, steps) ==> Inv(Ran(gated, steps).w)
  {
    RunKeeps(gated, steps);
  }

  /** Two requests that both read a waiting pipeline both deploy it; the second is refused when
      the first was served before. */
  lemma RacingDeployments(w: World, id: PipeId, a: string, b: string)
    requires Inv(w) && Passes(w, id) && a != "" && b != ""
    ensures HeldOk(w, Held(id, w.pipes[id]))
    ensures var h := Held(id, w.pipes[id]);
            var once := Written(w, h, a, Verified(true));
            && HeldOk(once, h) && Attempts(Written(once, h, b, Verified(true)).runs, id) >= 2
            && DeployedToProduction(once, id, b, Verified(true)) == Err(NotAwaiting)
  {
    assert LogOk(w.pipes[id]);
    var h := Held(id, w.pipes[id]);
    var once := Written(w, h, a, Verified(true));
    var twice := Written(once, h, b, Verified(true));
    assert once.runs[..|w.runs|] == w.runs && twice.runs[..|once.runs|] == once.runs;
  }
}
