/** `dev_maintenance.py`: one edit of one file of a git sandbox, committed, tested, and rolled
    back if the tests fail. Git is a stack of trees beside a working tree; the editing engine
    and the test runs are inputs. */
module Maintenance {
  import opened Text

  type Tree = map<string, string>

  datatype RunKind = Compile | Unit | Lint

  datatype RunStatus = Passed | FailedRun | Skipped

  datatype TestRun = TestRun(kind: RunKind, status: RunStatus, passed: nat, failed: nat)

  datatype ModifyError = Unsupported | FileMissing | EditRejected | NothingToCommit | Raised

  datatype Outcome = Outcome(ok: bool, passed: nat, failed: nat, rolledBack: bool)

  datatype ChangeStatus = Applied | Reverted

  datatype Change = Change(path: string, status: ChangeStatus)

  class Sandbox {
    /** Every commit's tree, oldest first; the last one is HEAD. */
    var commits: seq<Tree>
    var worktree: Tree

    constructor (tree: Tree)
      ensures commits == [tree] && worktree == tree
    {
      commits, worktree := [tree], tree;
    }

    method WriteFile(path: string, content: string)
      modifies this
      ensures old(commits) != [] ==> Git(commits, worktree) == Acted(Git(old(commits), old(worktree)), WriteAction(path, content))
      ensures commits == old(commits) && worktree == old(worktree)[path := content]
    {
      worktree := worktree[path := content];
    }

    /** `git add -A` and `git commit`, which fails when there is nothing to commit. */
    method CommitAll() returns (ok: bool)
      requires commits != []
      modifies this
      ensures worktree == old(worktree)
      ensures ok <==> old(worktree) != old(commits)[|old(commits)| - 1]
      ensures commits == if ok then old(commits) + [old(worktree)] else old(commits)
      ensures Git(commits, worktree) == Acted(Git(old(commits), old(worktree)), CommitAction)
    {
      ok := worktree != commits[|commits| - 1];
      if ok {
        commits := commits + [worktree];
      }
    }

    /** `git reset --hard` to an earlier commit, and `git clean`. */
    method RollbackTo(checkpoint: nat)
      requires checkpoint < |commits|
      modifies this
      ensures Git(commits, worktree) == RolledBack(Git(old(commits), old(worktree)), checkpoint)
    {
      commits := commits[..checkpoint + 1];
      worktree := commits[checkpoint];
    }
  }

  function PassedCount(runs: seq<TestRun>): nat {
    if runs == [] then 0 else runs[0].passed + PassedCount(runs[1..])
  }

  /** The failures that count: those of runs whose status is failed. */
  function FailedCount(runs: seq<TestRun>): nat {
    if runs == [] then 0
    else (if runs[0].status == FailedRun then runs[0].failed else 0) + FailedCount(runs[1..])
  }

  predicate CompileFailed(runs: seq<TestRun>) {
    exists i :: 0 <= i < |runs| && runs[i].kind == Compile && runs[i].status == FailedRun
  }

  /** The test gate. */
  predicate Refused(runs: seq<TestRun>) {
    FailedCount(runs) > 0 || CompileFailed(runs)
  }

  /** What the gate reads: it refuses exactly when a compile run failed, or a failed run
      counted a failure. */
  lemma {:induction false} GateExact(runs: seq<TestRun>)
    ensures Refused(runs) <==>
              exists i :: 0 <= i < |runs| && runs[i].status == FailedRun && (runs[i].failed > 0 || runs[i].kind == Compile)
  {
    FailedCountExact(runs);
  }

  lemma {:induction false} FailedCountExact(runs: seq<TestRun>)
    ensures FailedCount(runs) > 0 <==> exists i :: 0 <= i < |runs| && runs[i].status == FailedRun && runs[i].failed > 0
  {
    if runs != [] {
      FailedCountExact(runs[1..]);
      if FailedCount(runs[1..]) > 0 {
        var i :| 0 <= i < |runs[1..]| && runs[1..][i].status == FailedRun && runs[1..][i].failed > 0;
        assert runs[i + 1].status == FailedRun && runs[i + 1].failed > 0;
      }
      if i :| 0 <= i < |runs| && runs[i].status == FailedRun && runs[i].failed > 0 {
        assert i > 0 ==> runs[1..][i - 1] == runs[i];
      }
    }
  }

  /** So a unit run that failed without a counted failure - the runner crashed, say - passes. */
  lemma CrashedRunPasses()
    ensures !Refused([TestRun(Compile, Passed, 1, 0), TestRun(Unit, FailedRun, 0, 0)])
  {
    GateExact([TestRun(Compile, Passed, 1, 0), TestRun(Unit, FailedRun, 0, 0)]);
  }

  // ---------------------------------------------------------------------
  // One edit
  // ---------------------------------------------------------------------

  datatype Git = Git(commits: seq<Tree>, worktree: Tree)

  function Head(g: Git): Tree
    requires g.commits != []
  {
    g.commits[|g.commits| - 1]
  }

  /** The test runs: their results, and what they make of the working tree they run in. Compiling
      a Python file, for one, leaves its bytecode there, and no file of the sandbox ignores it. */
  datatype Tests = Tests(runs: seq<TestRun>, leave: Tree -> Tree)

  /** Where an exception stops the edit, if one does: after the file is written, after the commit,
      after the test runs but before the verdict is carried out, or at the change record. */
  datatype Stop = AtWrite | AtDiff | AtVerdict | AtRecord

  /** `transform` is what the engine makes of the file for this operation; `tests` are None when they
      are not to be run, and `record` tells whether there is a task to record the change for. */
  datatype Edit = Edit(path: string, supported: bool, transform: string -> Option<string>, tests: Option<Tests>,
                       stop: Option<Stop>, record: bool)

  predicate RecordFails(e: Edit) {
    e.record && e.stop == Some(AtRecord)
  }

  /** The sandbox after the edit, and the answer. */
  function Edited(g: Git, e: Edit): (Git, Result<Outcome, ModifyError>)
    requires g.commits != []
  {
    if !e.supported then (g, Err(Unsupported))
    else if e.path !in g.worktree then (g, Err(FileMissing))
    else
      match e.transform(g.worktree[e.path])
      case None => (g, Err(EditRejected))
      case Some(text) =>
        if text == g.worktree[e.path] then (g, Ok(Outcome(true, 0, 0, false)))
        else Tried(g, g.worktree[e.path := text], e)
  }

  /** The file is written and committed. */
  function Tried(g: Git, tree: Tree, e: Edit): (Git, Result<Outcome, ModifyError>)
    requires g.commits != []
  {
    if e.stop == Some(AtWrite) then (Git(g.commits, tree), Err(Raised))
    else if tree == Head(g) then (Git(g.commits, tree), Err(NothingToCommit))
    else if e.stop == Some(AtDiff) then (Git(g.commits + [tree], tree), Err(Raised))
    else Judged(g, tree, e)
  }

  /** It is tested, and kept or rolled back. */
  function Judged(g: Git, tree: Tree, e: Edit): (Git, Result<Outcome, ModifyError>)
    requires g.commits != []
  {
    match e.tests
    case None => (Git(g.commits + [tree], tree), Answer(e, Outcome(true, 0, 0, false)))
    case Some(t) =>
      var kept, passed, failed := Git(g.commits + [tree], t.leave(tree)), PassedCount(t.runs), FailedCount(t.runs);
      if e.stop == Some(AtVerdict) then (kept, Err(Raised))
      else if Refused(t.runs) then (Git(g.commits, Head(g)), Answer(e, Outcome(false, passed, failed, true)))
      else (kept, Answer(e, Outcome(true, passed, failed, false)))
  }

  function Answer(e: Edit, o: Outcome): Result<Outcome, ModifyError> {
    if RecordFails(e) then Err(Raised) else Ok(o)
  }

  class CodeMaintenanceService {
    var changes: seq<Change>

    constructor ()
      ensures changes == []
    {
      changes := [];
    }

    /** `modify_file`. */
    method ModifyFile(git: Sandbox, e: Edit) returns (r: Result<Outcome, ModifyError>)
      requires git.commits != []
      modifies this, git
      ensures (Git(git.commits, git.worktree), r) == Edited(Git(old(git.commits), old(git.worktree)), e)
      ensures changes == old(changes) + Recorded(e, old(git.commits), git.commits, r)
    {
      if !e.supported {
        return Err(Unsupported);
      }
      if e.path !in git.worktree {
        return Err(FileMissing);
      }
      var original := git.worktree[e.path];
      var checkpoint := |git.commits| - 1;
      var edited := e.transform(original);
      if edited.None? {
        return Err(EditRejected);
      }
      if edited.value == original {
        return Ok(Outcome(true, 0, 0, false));
      }
      git.WriteFile(e.path, edited.value);
      if e.stop == Some(AtWrite) {
        return Err(Raised);
      }
      var committed := git.CommitAll();
      if !committed {
        return Err(NothingToCommit);
      }
      if e.stop == Some(AtDiff) {
        return Err(Raised);
      }
      var passed, failed := 0, 0;
      if e.tests.Some? {
        git.worktree := e.tests.value.leave(git.worktree);
        passed, failed := PassedCount(e.tests.value.runs), FailedCount(e.tests.value.runs);
        if e.stop == Some(AtVerdict) {
          return Err(Raised);
        }
        if failed > 0 || CompileFailed(e.tests.value.runs) {
          git.RollbackTo(checkpoint);
          if RecordFails(e) {
            return Err(Raised);
          }
          if e.record {
            changes := changes + [Change(e.path, Reverted)];
          }
          return Ok(Outcome(false, passed, failed, true));
        }
      }
      if RecordFails(e) {
        return Err(Raised);
      }
      if e.record {
        changes := changes + [Change(e.path, Applied)];
      }
      return Ok(Outcome(true, passed, failed, false));
    }
  }

  /** The change record: one for an edit that was tried, none for a no-op or an error. */
  function Recorded(e: Edit, before: seq<Tree>, after: seq<Tree>, r: Result<Outcome, ModifyError>): seq<Change> {
    if !e.record || r.Err? then []
    else if r.value.rolledBack then [Change(e.path, Reverted)]
    else if after != before then [Change(e.path, Applied)]
    else []
  }

  // ---------------------------------------------------------------------
  // All or nothing
  // ---------------------------------------------------------------------

  /** The paths at which two trees differ. */
  function Differ(a: Tree, b: Tree): set<string> {
    set p | p in a.Keys + b.Keys && !(p in a && p in b && a[p] == b[p])
  }

  lemma DifferNowhere(a: Tree, b: Tree)
    ensures Differ(a, b) == {} <==> a == b
  {
    if Differ(a, b) == {} {
      forall p | p in a.Keys + b.Keys ensures p in a && p in b && a[p] == b[p] {
        assert p !in Differ(a, b);
      }
    }
  }

  /** What is in the working tree and not in the last commit, or the other way round. */
  function Dirt(g: Git): set<string>
    requires g.commits != []
  {
    Differ(g.worktree, Head(g))
  }

  /** The text the edit gives its file. */
  function NewText(g: Git, e: Edit): Option<string> {
    if e.supported && e.path in g.worktree then e.transform(g.worktree[e.path]) else None
  }

  /** The edit is refused at once or changes nothing. */
  predicate Idle(g: Git, e: Edit) {
    NewText(g, e).None? || NewText(g, e).value == g.worktree[e.path]
  }

  /** The edit comes to its commit. */
  predicate Commits(g: Git, e: Edit)
    requires g.commits != []
  {
    !Idle(g, e) && e.stop != Some(AtWrite) && g.worktree[e.path := NewText(g, e).value] != Head(g)
  }

  predicate TestsRefuse(e: Edit) {
    e.tests.Some? && Refused(e.tests.value.runs)
  }

  /** The commit is taken back: the tests refuse it, and nothing stops the edit before that. */
  predicate Undone(g: Git, e: Edit)
    requires g.commits != []
  {
    Commits(g, e) && TestsRefuse(e) && e.stop != Some(AtDiff) && e.stop != Some(AtVerdict)
  }

  predicate Kept(g: Git, e: Edit)
    requires g.commits != []
  {
    Commits(g, e) && !Undone(g, e)
  }

  /** What the edit leaves behind, in each of its ends. */
  lemma EditEnds(g: Git, e: Edit)
    requires g.commits != []
    ensures var g' := Edited(g, e).0;
            && g'.commits != []
            && (Idle(g, e) ==> g' == g)
            && (!Idle(g, e) && !Commits(g, e) ==> g' == g.(worktree := g.worktree[e.path := NewText(g, e).value]))
            && (Undone(g, e) ==> g' == Git(g.commits, Head(g)))
            && (Kept(g, e) ==> g'.commits == g.commits + [g.worktree[e.path := NewText(g, e).value]])
  {
  }

  /** Nothing: no new commit and the same tree. */
  predicate Nothing(g: Git, g': Git) {
    g' == g
  }

  /** All: one new commit that changes the file as edited and no other, not refused by the gate. */
  predicate All(g: Git, e: Edit, g': Git)
    requires g.commits != []
  {
    && |g'.commits| == |g.commits| + 1 && g'.commits[..|g.commits|] == g.commits
    && Differ(Head(g'), Head(g)) <= {e.path} && e.path in Head(g') && NewText(g, e) == Some(Head(g')[e.path])
    && !TestsRefuse(e)
  }

  /** A commit that stays is confined to its file if and only if nothing else was uncommitted; */
  lemma CommitConfined(g: Git, e: Edit)
    requires g.commits != [] && Kept(g, e)
    ensures Differ(Head(Edited(g, e).0), Head(g)) <= {e.path} <==> Dirt(g) <= {e.path}
  {
    CommitSweeps(g, e);
    Within(Differ(Head(Edited(g, e).0), Head(g)), e.path);
    Within(Dirt(g), e.path);
  }

  lemma Within(paths: set<string>, path: string)
    ensures paths <= {path} <==> paths - {path} == {}
  {
    assert paths <= {path} <==> forall p :: p in paths ==> p in {path};
  }

  /** Beside its own file the commit changes exactly what was uncommitted. */
  lemma CommitSweeps(g: Git, e: Edit)
    requires g.commits != [] && Kept(g, e)
    ensures Edited(g, e).0.commits != []
    ensures Differ(Head(Edited(g, e).0), Head(g)) - {e.path} == Dirt(g) - {e.path}
  {
    EditEnds(g, e);
    assert Head(Edited(g, e).0) == g.worktree[e.path := NewText(g, e).value];
  }

  /** and one that is taken back loses exactly what was. */
  lemma RollbackLoses(g: Git, e: Edit)
    requires g.commits != [] && Undone(g, e)
    ensures Differ(Edited(g, e).0.worktree, g.worktree) == Dirt(g)
  {
    EditEnds(g, e);
  }

  /** Main result, from any sandbox: the edit is all or nothing if and only if it is refused or
      changes nothing, or its commit is taken back and there were no uncommitted changes, or its
      commit stays, not refused, and there were none but to its file. Otherwise it is neither. */
  lemma EditIsAllOrNothing(g: Git, e: Edit)
    requires g.commits != []
    ensures Nothing(g, Edited(g, e).0) || All(g, e, Edited(g, e).0)
            <==> || Idle(g, e)
                 || (Undone(g, e) && Dirt(g) == {})
                 || (Kept(g, e) && !TestsRefuse(e) && Dirt(g) <= {e.path})
  {
    var g' := Edited(g, e).0;
    EditEnds(g, e);
    DifferNowhere(g.worktree, Head(g));
    if Kept(g, e) {
      CommitConfined(g, e);
      assert g'.commits[..|g.commits|] == g.commits;
    } else if !Idle(g, e) && !Commits(g, e) {
      assert g'.worktree[e.path] != g.worktree[e.path];
    }
  }

  /** So from a sandbox without uncommitted changes it is all or nothing, unless an exception stops
      it after the write, or after the commit when the tests refuse it. */
  lemma CleanEdit(g: Git, e: Edit)
    requires g.commits != [] && Dirt(g) == {}
    ensures Nothing(g, Edited(g, e).0) || All(g, e, Edited(g, e).0)
            <==> Idle(g, e) || (e.stop != Some(AtWrite)
                                && !(TestsRefuse(e) && (e.stop == Some(AtDiff) || e.stop == Some(AtVerdict))))
    ensures Edited(g, e).1.Ok? ==> Nothing(g, Edited(g, e).0) || All(g, e, Edited(g, e).0)
  {
    EditIsAllOrNothing(g, e);
    DifferNowhere(g.worktree, Head(g));
    if !Idle(g, e) {
      assert g.worktree[e.path := NewText(g, e).value][e.path] != Head(g)[e.path];
    }
  }

  /** An answer without an exception tells which it was. */
  lemma AnswerTells(g: Git, e: Edit)
    requires g.commits != [] && Edited(g, e).1.Ok?
    ensures var o := Edited(g, e).1.value;
            && (o.rolledBack <==> Undone(g, e)) && o.ok == !o.rolledBack
            && (Kept(g, e) ==> o.ok && o.failed == 0 && !TestsRefuse(e))
            && (!o.rolledBack && !Kept(g, e) ==> Idle(g, e))
  {
  }

  /** The change is on record as reverted exactly for an edit with a task whose commit was taken
      back, and as applied exactly for one whose commit stays, when the edit answers. */
  lemma RecordedExactly(g: Git, e: Edit)
    requires g.commits != []
    ensures var (g', r) := Edited(g, e);
            var told := Recorded(e, g.commits, g'.commits, r);
            && (told == [Change(e.path, Reverted)] <==> e.record && r.Ok? && Undone(g, e))
            && (told == [Change(e.path, Applied)] <==> e.record && r.Ok? && Kept(g, e))
            && (told == [] <==> !e.record || r.Err? || Idle(g, e))
  {
    var (g', r) := Edited(g, e);
    EditEnds(g, e);
    if Undone(g, e) {
      assert g'.commits == g.commits;
    }
    if r.Ok? {
      AnswerTells(g, e);
    }
  }

  /** The errors, in the order they are found; every other edit is tried. */
  lemma RefusedExactly(g: Git, e: Edit)
    requires g.commits != []
    ensures var r := Edited(g, e).1;
            && (r == Err(Unsupported) <==> !e.supported)
            && (r == Err(FileMissing) <==> e.supported && e.path !in g.worktree)
            && (r == Err(EditRejected) <==> e.supported && e.path in g.worktree && e.transform(g.worktree[e.path]).None?)
            && (r == Err(NothingToCommit) <==>
                  !Idle(g, e) && e.stop != Some(AtWrite) && g.worktree[e.path := NewText(g, e).value] == Head(g))
            && (r.Ok? && Idle(g, e) ==> r.value == Outcome(true, 0, 0, false))
            && (r.Ok? && Commits(g, e) && e.tests.Some? ==>
                  r.value.passed == PassedCount(e.tests.value.runs) && r.value.failed == FailedCount(e.tests.value.runs))
  {
  }

  /** The counts add up over the runs; a run that did not fail counts no failure. */
  lemma {:induction false} CountsAdd(a: seq<TestRun>, b: seq<TestRun>)
    ensures PassedCount(a + b) == PassedCount(a) + PassedCount(b) && FailedCount(a + b) == FailedCount(a) + FailedCount(b)
    ensures |a| == 1 ==> PassedCount(a) == a[0].passed && FailedCount(a) == if a[0].status == FailedRun then a[0].failed else 0
  {
    if a == [] {
      assert a + b == b;
    } else {
      assert (a + b)[1..] == a[1..] + b;
      CountsAdd(a[1..], b);
    }
  }

  // ---------------------------------------------------------------------
  // Rolling back
  // ---------------------------------------------------------------------

  /** Anything an edit may do to the sandbox, any number of times. */
  datatype Action = WriteAction(path: string, content: string) | DeleteAction(gone: string) | CommitAction

  function Acted(g: Git, a: Action): (r: Git)
    requires g.commits != []
    ensures g.commits <= r.commits
  {
    match a
    case WriteAction(path, content) => g.(worktree := g.worktree[path := content])
    case DeleteAction(path) => g.(worktree := g.worktree - {path})
    case CommitAction =>
      if g.worktree == g.commits[|g.commits| - 1] then g else g.(commits := g.commits + [g.worktree])
  }

  function ActedAll(g: Git, actions: seq<Action>): (r: Git)
    requires g.commits != []
    ensures g.commits <= r.commits
  {
    if actions == [] then g else Acted(ActedAll(g, actions[..|actions| - 1]), actions[|actions| - 1])
  }

  function RolledBack(g: Git, checkpoint: nat): Git
    requires checkpoint < |g.commits|
  {
    Git(g.commits[..checkpoint + 1], g.commits[checkpoint])
  }

  /** Main result: rolling back to the checkpoint undoes whatever was written, deleted and committed
      since, if and only if the sandbox had no uncommitted changes at the checkpoint. */
  lemma RollbackRestores(g: Git, actions: seq<Action>)
    requires g.commits != []
    ensures RolledBack(ActedAll(g, actions), |g.commits| - 1) == g <==> g.worktree == g.commits[|g.commits| - 1]
  {
    var r := ActedAll(g, actions);
    assert r.commits[..|g.commits|] == g.commits;
  }

  // ---------------------------------------------------------------------
  // Edits one after the other
  // ---------------------------------------------------------------------

  function After(g: Git, es: seq<Edit>): (r: Git)
    requires g.commits != []
    ensures r.commits != []
  {
    if es == [] then g
    else
      var before := After(g, es[..|es| - 1]);
      EditEnds(before, es[|es| - 1]);
      Edited(before, es[|es| - 1]).0
  }

  /** What the test run of an edit whose commit stays leaves beside the commit. */
  function TestsLeave(g: Git, e: Edit): set<string>
    requires g.commits != [] && Kept(g, e)
  {
    var tree := g.worktree[e.path := NewText(g, e).value];
    if e.tests.Some? && e.stop != Some(AtDiff) then Differ(e.tests.value.leave(tree), tree) else {}
  }

  /** What the edits so far have left in the sandbox beside its commits: a commit that stays sweeps
      up what was there, and its test run leaves what it leaves; a commit taken back takes all of it
      along; an edit stopped before its commit leaves its file. */
  function LeftBehind(g: Git, es: seq<Edit>): set<string>
    requires g.commits != []
  {
    if es == [] then {}
    else
      var n := |es| - 1;
      var before, e := After(g, es[..n]), es[n];
      if Idle(before, e) then LeftBehind(g, es[..n])
      else if Undone(before, e) then {}
      else if Kept(before, e) then TestsLeave(before, e)
      else LeftBehind(g, es[..n]) - {e.path}
           + if e.path in Head(before) && Head(before)[e.path] == NewText(before, e).value then {} else {e.path}
  }

  lemma {:induction false} LeftIsDirt(g: Git, es: seq<Edit>)
    requires g.commits != [] && Dirt(g) == {}
    ensures Dirt(After(g, es)) == LeftBehind(g, es)
    decreases |es|
  {
    if es != [] {
      var n := |es| - 1;
      LeftIsDirt(g, es[..n]);
      DirtStep(After(g, es[..n]), es[n]);
    }
  }

  /** The dirt after one edit. */
  lemma DirtStep(g: Git, e: Edit)
    requires g.commits != []
    ensures Edited(g, e).0.commits != []
    ensures Dirt(Edited(g, e).0) ==
              if Idle(g, e) then Dirt(g)
              else if Undone(g, e) then {}
              else if Kept(g, e) then TestsLeave(g, e)
              else Dirt(g) - {e.path} + if e.path in Head(g) && Head(g)[e.path] == NewText(g, e).value then {} else {e.path}
  {
    EditEnds(g, e);
    var g' := Edited(g, e).0;
    if Idle(g, e) {
    } else if Undone(g, e) {
      DifferNowhere(g'.worktree, Head(g'));
    } else if Kept(g, e) {
      DifferNowhere(g'.worktree, g'.worktree);
    } else {
      assert Head(g') == Head(g);
    }
  }

  /** Main result, over every sequence of edits from a sandbox without uncommitted changes: the
      commit of an edit is confined to its file if and only if the edits before it have left
      nothing behind but in that file. */
  lemma CommitsConfined(g: Git, es: seq<Edit>, k: nat)
    requires g.commits != [] && Dirt(g) == {} && k < |es| && Kept(After(g, es[..k]), es[k])
    ensures Differ(Head(After(g, es[..k + 1])), Head(After(g, es[..k]))) <= {es[k].path}
            <==> LeftBehind(g, es[..k]) <= {es[k].path}
  {
    assert es[..k + 1][..k] == es[..k];
    LeftIsDirt(g, es[..k]);
    CommitConfined(After(g, es[..k]), es[k]);
  }

  /** In particular, right after an edit whose commit stayed: if and only if its test run has left
      nothing but in the file that is edited next. */
  lemma NextCommitConfined(g: Git, es: seq<Edit>, k: nat)
    requires g.commits != [] && Dirt(g) == {} && k + 1 < |es|
    requires Kept(After(g, es[..k]), es[k]) && Kept(After(g, es[..k + 1]), es[k + 1])
    ensures Differ(Head(After(g, es[..k + 2])), Head(After(g, es[..k + 1]))) <= {es[k + 1].path}
            <==> TestsLeave(After(g, es[..k]), es[k]) <= {es[k + 1].path}
  {
    assert es[..k + 1][..k] == es[..k];
    CommitsConfined(g, es, k + 1);
  }

  /** What a test run has left goes into the next commit that stays, the bytecode of a compiled
      file for one: beside its own file that commit changes exactly these. */
  lemma NextCommitSweeps(g: Git, es: seq<Edit>, k: nat)
    requires g.commits != [] && Dirt(g) == {} && k + 1 < |es|
    requires Kept(After(g, es[..k]), es[k]) && Kept(After(g, es[..k + 1]), es[k + 1])
    ensures Differ(Head(After(g, es[..k + 2])), Head(After(g, es[..k + 1]))) - {es[k + 1].path}
            == TestsLeave(After(g, es[..k]), es[k]) - {es[k + 1].path}
  {
    assert es[..k + 1][..k] == es[..k] && es[..k + 2][..k + 1] == es[..k + 1];
    LeftIsDirt(g, es[..k + 1]);
    CommitSweeps(After(g, es[..k + 1]), es[k + 1]);
  }

  /** And when no test run leaves anything and no exception stops an edit at its write, every
      commit is confined to its file. */
  ghost predicate Tidy(e: Edit) {
    e.stop != Some(AtWrite) && (e.tests.Some? ==> forall t :: e.tests.value.leave(t) == t)
  }

  lemma TidyEdits(g: Git, es: seq<Edit>, k: nat)
    requires g.commits != [] && Dirt(g) == {} && forall i :: 0 <= i < |es| ==> Tidy(es[i])
    requires k < |es| && Kept(After(g, es[..k]), es[k])
    ensures Differ(Head(After(g, es[..k + 1])), Head(After(g, es[..k]))) <= {es[k].path}
  {
    hide Tidy, Kept, Differ, Dirt, After;
    StaysClean(g, es[..k]);
    LeftIsDirt(g, es[..k]);
    CommitsConfined(g, es, k);
  }

  lemma {:induction false} StaysClean(g: Git, es: seq<Edit>)
    requires g.commits != [] && Dirt(g) == {} && forall k :: 0 <= k < |es| ==> Tidy(es[k])
    ensures Dirt(After(g, es)) == {}
    decreases |es|
  {
    if es != [] {
      hide Tidy, Kept, Idle, Undone, Commits, Dirt, Edited;
      var n := |es| - 1;
      StaysClean(g, es[..n]);
      DirtStep(After(g, es[..n]), es[n]);
      TidyLeaves(After(g, es[..n]), es[n]);
    }
  }

  lemma TidyLeaves(g: Git, e: Edit)
    requires g.commits != [] && Dirt(g) == {} && Tidy(e)
    ensures Kept(g, e) ==> TestsLeave(g, e) == {}
    ensures !Idle(g, e) ==> Commits(g, e)
  {
    DifferNowhere(g.worktree, Head(g));
    if !Idle(g, e) {
      var tree := g.worktree[e.path := NewText(g, e).value];
      assert tree[e.path] != Head(g)[e.path];
      DifferNowhere(tree, tree);
    }
  }
}
