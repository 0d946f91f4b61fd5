/** `DevelopmentService`: the handoffs between the employees who act on a task, and the
    requirement gate in front of the pull request. */
module Workflow {
  import opened Text
  import Requirements
  import Splice
  import opened Intent

  type Id = nat
  type TaskId = nat

  // ---------------------------------------------------------------------
  // Handoffs
  // ---------------------------------------------------------------------

  /** A stage session; `employee` is who acted, if anyone could be assigned. */
  datatype Session = Session(stage: string, role: string, employee: Option<Id>, sequence: nat)

  predicate Sorted(sessions: seq<Session>) {
    forall i, j :: 0 <= i < j < |sessions| ==> sessions[i].sequence <= sessions[j].sequence
  }

  /** An answer to the query of a task's sessions, ordered by their sequence numbers. */
  ghost predicate IsOrder(table: seq<Session>, ordered: seq<Session>) {
    multiset(ordered) == multiset(table) && Sorted(ordered)
  }

  ghost predicate DistinctNumbers(sessions: seq<Session>) {
    forall s, t :: s in sessions && t in sessions && s.sequence == t.sequence ==> s == t
  }

  /** With distinct numbers there is one order. */
  lemma {:induction false} OneOrder(a: seq<Session>, b: seq<Session>)
    requires DistinctNumbers(a) && Sorted(a) && Sorted(b) && multiset(a) == multiset(b)
    ensures a == b
    decreases |a|
  {
    hide Sorted, DistinctNumbers;
    SameLength(a, b);
    if a != [] {
      SameLast(a, b);
      WithoutLasts(a, b);
      OneOrder(a[..|a| - 1], b[..|b| - 1]);
      SameButLast(a, b);
    }
  }

  lemma SameButLast(a: seq<Session>, b: seq<Session>)
    requires a != [] && |a| == |b| && a[|a| - 1] == b[|b| - 1] && a[..|a| - 1] == b[..|b| - 1]
    ensures a == b
  {
    assert a == a[..|a| - 1] + [a[|a| - 1]] && b == b[..|b| - 1] + [b[|b| - 1]];
  }

  lemma WithoutLasts(a: seq<Session>, b: seq<Session>)
    requires a != [] && |a| == |b| && a[|a| - 1] == b[|b| - 1]
    requires DistinctNumbers(a) && Sorted(a) && Sorted(b) && multiset(a) == multiset(b)
    ensures DistinctNumbers(a[..|a| - 1]) && Sorted(a[..|a| - 1]) && Sorted(b[..|b| - 1])
    ensures multiset(a[..|a| - 1]) == multiset(b[..|b| - 1])
  {
    hide Sorted, DistinctNumbers;
    WithoutLast(a);
    WithoutLast(b);
  }

  lemma SameLength(a: seq<Session>, b: seq<Session>)
    requires multiset(a) == multiset(b)
    ensures |a| == |b|
  {
    assert |a| == |multiset(a)| == |multiset(b)| == |b|;
  }

  lemma WithoutLast(a: seq<Session>)
    requires a != []
    ensures multiset(a[..|a| - 1]) == multiset(a) - multiset{a[|a| - 1]}
    ensures (Sorted(a) ==> Sorted(a[..|a| - 1])) && (DistinctNumbers(a) ==> DistinctNumbers(a[..|a| - 1]))
  {
    assert a == a[..|a| - 1] + [a[|a| - 1]];
  }

  lemma SameLast(a: seq<Session>, b: seq<Session>)
    requires DistinctNumbers(a) && Sorted(a) && Sorted(b)
    requires a != [] && |a| == |b| && multiset(a) == multiset(b)
    ensures a[|a| - 1] == b[|a| - 1]
  {
    var n := |a| - 1;
    assert a[n] in multiset(b) && b[n] in multiset(a);
    var k :| 0 <= k < |b| && b[k] == a[n];
    var l :| 0 <= l < |a| && a[l] == b[n];
  }

  /** So the handoffs of a task are determined when its sessions are numbered apart; a task run
      again numbers from 0 again, and sessions of equal numbers leave them open. */
  lemma OrderMatters(table: seq<Session>, a: seq<Session>, b: seq<Session>)
    requires IsOrder(table, a) && IsOrder(table, b)
    ensures DistinctNumbers(table) ==> a == b
  {
    if DistinctNumbers(table) {
      forall s | s in a ensures s in table {
        assert s in multiset(a) && s in multiset(table);
      }
      OneOrder(a, b);
    }
  }

  lemma EqualNumbersLeaveOpen()
    ensures exists table: seq<Session>, a: seq<Session>, b: seq<Session> ::
              IsOrder(table, a) && IsOrder(table, b) && Handoffs(Assigned(a)) != Handoffs(Assigned(b))
  {
    var s, t := Session("review", "", Some(1), 0), Session("review", "", Some(2), 0);
    var a, b := [s, t], [t, s];
    assert IsOrder(a, a);
    assert IsOrder(a, b);
    BothAssigned(s, t);
    BothAssigned(t, s);
  }

  lemma BothAssigned(s: Session, t: Session)
    requires s.employee.Some? && t.employee.Some? && s.employee != t.employee
    ensures Assigned([s, t]) == [s, t]
    ensures Handoffs([s, t]) == [Handoff(0, s.employee.value, t.employee.value, s.role, t.role, t.stage)]
  {
    assert [s, t][..1] == [s] && [s][..0] == [];
    assert Assigned([s]) == [s];
    assert Handoffs([s]) == [];
  }

  datatype Handoff = Handoff(sequence: nat, from: Id, to: Id, fromRole: string, toRole: string, stage: string)

  /** The stages someone was assigned to, in order. */
  function Assigned(sessions: seq<Session>): (r: seq<Session>)
    ensures forall k :: 0 <= k < |r| ==> r[k].employee.Some?
  {
    if sessions == [] then []
    else
      var n := |sessions| - 1;
      Assigned(sessions[..n]) + if sessions[n].employee.Some? then [sessions[n]] else []
  }

  /** The assigned stages are those with an employee, every one of them and in their order. */
  lemma {:induction false} AssignedExactly(a: seq<Session>, b: seq<Session>)
    ensures Assigned(a + b) == Assigned(a) + Assigned(b)
    ensures |a| == 1 ==> Assigned(a) == if a[0].employee.Some? then a else []
  {
    if b == [] {
      assert a + b == a;
    } else {
      var n := |b| - 1;
      assert (a + b)[..|a| + n] == a + b[..n];
      AssignedExactly(a, b[..n]);
    }
    if |a| == 1 {
      assert a[..0] == [] && a == [a[0]];
    }
  }

  function Employees(sessions: seq<Session>): (r: seq<Id>)
    requires forall k :: 0 <= k < |sessions| ==> sessions[k].employee.Some?
    ensures |r| == |sessions|
  {
    seq(|sessions|, k requires 0 <= k < |sessions| => sessions[k].employee.value)
  }

  /** Repeats collapsed: of every run of equal entries one is kept. */
  function Collapse(ids: seq<Id>): (r: seq<Id>)
    ensures ids != [] ==> r != [] && r[|r| - 1] == ids[|ids| - 1]
    ensures forall k :: 0 < k < |r| ==> r[k - 1] != r[k]
    ensures forall x :: x in r <==> x in ids
  {
    if |ids| <= 1 then ids
    else
      var n := |ids| - 1;
      assert ids == ids[..n] + [ids[n]];
      if ids[n - 1] == ids[n] then Collapse(ids[..n]) else Collapse(ids[..n]) + [ids[n]]
  }

  /** One handoff for each change of employee between neighbouring assigned stages. */
  function Handoffs(sessions: seq<Session>): seq<Handoff>
    requires forall k :: 0 <= k < |sessions| ==> sessions[k].employee.Some?
  {
    if |sessions| <= 1 then []
    else
      var n := |sessions| - 1;
      var before, a, b := Handoffs(sessions[..n]), sessions[n - 1], sessions[n];
      if a.employee == b.employee then before
      else before + [Handoff(|before|, a.employee.value, b.employee.value, a.role, b.role, b.stage)]
  }

  ghost predicate SameBut(a: map<TaskId, seq<Handoff>>, b: map<TaskId, seq<Handoff>>, task: TaskId) {
    a.Keys == b.Keys && forall t :: t in a && t != task ==> b[t] == a[t]
  }

  class HandoffTable {
    var rows: map<TaskId, seq<Handoff>>

    constructor ()
      ensures rows == map[]
    {
      rows := map[];
    }

    /** What the loop has written for the stages before it. */
    ghost predicate Written(task: TaskId, before: seq<Session>, prev: Option<Session>, sequence: nat)
      reads this
    {
      task in rows && rows[task] == Handoffs(Assigned(before)) && prev == LastOf(Assigned(before)) && sequence == |rows[task]|
    }

    method RecordOne(task: TaskId, s: Session, prev: Option<Session>, sequence: nat, ghost before: seq<Session>)
      returns (prev': Option<Session>, sequence': nat)
      requires Written(task, before, prev, sequence)
      modifies this
      ensures Written(task, before + [s], prev', sequence') && SameBut(old(rows), rows, task)
    {
      hide Handoffs, Assigned;
      AssignedSnoc(before, s);
      if s.employee.None? {
        return prev, sequence;
      }
      HandoffsSnoc(Assigned(before), s);
      prev', sequence' := Some(s), sequence;
      if prev.Some? && prev.value.employee != s.employee {
        var h := Handoff(sequence, prev.value.employee.value, s.employee.value, prev.value.role, s.role, s.stage);
        rows := rows[task := rows[task] + [h]];
        sequence' := sequence + 1;
      }
    }

    /** `_record_handoffs`: the task's rows are deleted and written again; `sessions` are the task's
        sessions as the query orders them. */
    method Record(task: TaskId, ghost table: seq<Session>, sessions: seq<Session>)
      requires IsOrder(table, sessions)
      modifies this
      ensures DistinctNumbers(table) ==> forall other :: IsOrder(table, other) ==> other == sessions
      ensures rows == old(rows)[task := Handoffs(Assigned(sessions))]
    {
      rows := rows[task := []];
      ghost var others := rows;
      var prev: Option<Session> := None;
      var sequence := 0;
      assert sessions[..0] == [];
      assert Written(task, sessions[..0], prev, sequence);
      hide Handoffs, Assigned;
      for k := 0 to |sessions|
        invariant Written(task, sessions[..k], prev, sequence) && SameBut(others, rows, task)
      {
        assert sessions[..k] + [sessions[k]] == sessions[..k + 1];
        prev, sequence := RecordOne(task, sessions[k], prev, sequence, sessions[..k]);
      }
      assert sessions[..|sessions|] == sessions;
      assert rows == others[task := rows[task]];
      forall other | IsOrder(table, other) ensures DistinctNumbers(table) ==> other == sessions {
        OrderMatters(table, other, sessions);
      }
    }
  }

  lemma AssignedSnoc(sessions: seq<Session>, s: Session)
    ensures Assigned(sessions + [s]) == if s.employee.Some? then Assigned(sessions) + [s] else Assigned(sessions)
  {
    assert (sessions + [s])[..|sessions|] == sessions;
  }

  /** The next assigned stage is handed to unless its employee is the one before. */
  lemma HandoffsSnoc(before: seq<Session>, s: Session)
    requires s.employee.Some? && forall k :: 0 <= k < |before| ==> before[k].employee.Some?
    ensures Handoffs(before + [s]) ==
              match LastOf(before)
              case None => Handoffs(before)
              case Some(a) =>
                if a.employee == s.employee then Handoffs(before)
                else Handoffs(before)
                     + [Handoff(|Handoffs(before)|, a.employee.value, s.employee.value, a.role, s.role, s.stage)]
  {
    assert (before + [s])[..|before|] == before;
  }

  function LastOf(sessions: seq<Session>): Option<Session> {
    if sessions == [] then None else Some(sessions[|sessions| - 1])
  }

  /** Main result: the handoffs are exactly the neighbours in the collapsed sequence of acting
      employees, numbered from 0: a contiguous chain from the first to the last of them. */
  lemma {:induction false} HandoffsAreNeighbours(sessions: seq<Session>)
    requires forall k :: 0 <= k < |sessions| ==> sessions[k].employee.Some?
    ensures var h, c := Handoffs(sessions), Collapse(Employees(sessions));
            && |h| == (if c == [] then 0 else |c| - 1)
            && (forall i :: 0 <= i < |h| ==> h[i].sequence == i && h[i].from == c[i] && h[i].to == c[i + 1])
  {
    if |sessions| > 1 {
      var n := |sessions| - 1;
      var before := Collapse(Employees(sessions[..n]));
      HandoffsAreNeighbours(sessions[..n]);
      assert Employees(sessions)[..n] == Employees(sessions[..n]);
      assert before[|before| - 1] == sessions[n - 1].employee.value;
      assert Collapse(Employees(sessions))
             == if sessions[n - 1].employee == sessions[n].employee then before else before + [sessions[n].employee.value];
    }
  }

  /** The handoff is made from the stage before `k` to the stage `k`. */
  predicate MadeAt(sessions: seq<Session>, h: Handoff, k: nat)
    requires forall k :: 0 <= k < |sessions| ==> sessions[k].employee.Some?
  {
    && 0 < k < |sessions| && h.from == sessions[k - 1].employee.value && h.to == sessions[k].employee.value && h.from != h.to
    && h.fromRole == sessions[k - 1].role && h.toRole == sessions[k].role && h.stage == sessions[k].stage
  }

  predicate Changes(sessions: seq<Session>, k: int) {
    0 < k < |sessions| && sessions[k - 1].employee != sessions[k].employee
  }

  /** Every change of employee between neighbouring stages has its handoff, with their roles and the
      stage that takes over, and there is no other. */
  lemma {:induction false} HandoffsExplained(sessions: seq<Session>)
    requires forall k :: 0 <= k < |sessions| ==> sessions[k].employee.Some?
    ensures forall h :: h in Handoffs(sessions) ==> exists k :: 0 < k < |sessions| && MadeAt(sessions, h, k)
    ensures forall k :: Changes(sessions, k) ==> exists h :: h in Handoffs(sessions) && MadeAt(sessions, h, k)
  {
    if |sessions| > 1 {
      var n := |sessions| - 1;
      var front, all := sessions[..n], Handoffs(sessions);
      HandoffsExplained(front);
      forall h | h in all ensures exists k :: 0 < k < |sessions| && MadeAt(sessions, h, k) {
        if h in Handoffs(front) {
          var k :| 0 < k < n && MadeAt(front, h, k);
          assert MadeAt(sessions, h, k);
        } else {
          assert MadeAt(sessions, h, n);
        }
      }
      forall k | Changes(sessions, k) ensures exists h :: h in all && MadeAt(sessions, h, k) {
        if k < n {
          assert Changes(front, k);
          var h :| h in Handoffs(front) && MadeAt(front, h, k);
          assert h in all && MadeAt(sessions, h, k);
        } else {
          assert MadeAt(sessions, all[|all| - 1], n);
        }
      }
    }
  }

  // ---------------------------------------------------------------------
  // The requirement gate
  // ---------------------------------------------------------------------

  datatype TaskStatus =
    | Queued | Planning | Implementing | Testing | Reviewing | Documenting
    | PrReady | Approved | Rejected | ChangesRequested | Failed

  /** `all(r["satisfied"] for r in report)`, for the joined contents of the changes. */
  predicate AllSatisfied(contents: seq<string>, reqs: seq<Requirements.Requirement>) {
    forall i :: 0 <= i < |reqs| ==> Requirements.SatisfiedBy(reqs[i], Requirements.JoinRows(contents))
  }

  class DevelopmentTask {
    var status: TaskStatus
    var drafts: nat

    constructor (s: TaskStatus)
      ensures status == s && drafts == 0
    {
      status, drafts := s, 0;
    }

    /** `run_workflow`. `explicit` tells whether the task brings a modification spec and `page` is the
        page found for it, if any; `generated` is what the implementation gives for an explicit spec
        or a new module, None when it raises. `others` tells whether the other stages before
        verification succeed, `drafted` whether drafting the pull request does, and `finished`
        whether what follows it does. The answer is false for a task that is not runnable. */
    method RunWorkflow(title: string, description: Option<string>, explicit: bool, page: Option<Page>, heading: string,
                       generated: Option<seq<string>>, others: bool, drafted: bool, finished: bool)
      returns (ran: bool, contents: Option<seq<string>>)
      modifies this
      ensures ran <==> old(status) in {Queued, ChangesRequested}
      ensures !ran ==> status == old(status) && drafts == old(drafts)
      ensures ran ==> Implemented(KindOf(title, description, explicit, page), title, description, heading, generated, contents)
      ensures ran ==>
                var passes := others && contents.Some?
                              && AllSatisfied(contents.value, Demanded(KindOf(title, description, explicit, page), title, description));
                && drafts == old(drafts) + (if passes && drafted then 1 else 0)
                && (status == PrReady <==> passes && drafted && finished)
                && (status == ChangesRequested <==> others && contents.Some? && !passes)
      ensures ran ==> status in {PrReady, ChangesRequested, Failed}
      ensures drafts > old(drafts) && (explicit || References(title, description)) ==>
                contents.Some? && AllSatisfied(contents.value, Asked(title, description))
    {
      hide AllSatisfied, Implemented, KindOf, Demanded, Asked, References;
      contents := None;
      if status != Queued && status != ChangesRequested {
        return false, None;
      }
      status := Planning;
      var kind, reqs := Resolve(title, description, explicit, page);
      DemandedOfKind(title, description, explicit, page);
      if kind.Unresolved? {
        status := Failed;
        contents := Implement(title, description, kind, reqs, heading, generated);
        return true, contents;
      }
      status := Implementing;
      contents := Implement(title, description, kind, reqs, heading, generated);
      if contents.None? || !others {
        status := Failed;
        return true, contents;
      }
      status := Documenting;
      NothingDemanded(contents.value);
      if reqs != [] {
        var satisfied := Verified(contents.value, reqs);
        if !satisfied {
          status := ChangesRequested;
          return true, contents;
        }
      }
      if !drafted {
        status := Failed;
        return true, contents;
      }
      drafts := drafts + 1;
      status := if finished then PrReady else Failed;
      return true, contents;
    }
  }

  /** What the implementation of a task of the kind gives: the page with the card inserted before
      its anchor, or what was generated. */
  ghost predicate Implemented(kind: Kind, title: string, description: Option<string>, heading: string,
                              generated: Option<seq<string>>, contents: Option<seq<string>>)
  {
    match kind
    case Unresolved => contents.None?
    case Modify(page) =>
      exists r :: Splice.AnchoredInsertion(page.source, page.anchor, Requirements.Card(heading, Asked(title, description)), 1, 0, r)
                  && contents == if r.Ok? then Some([r.value]) else None
    case _ => contents == generated
  }

  lemma NothingDemanded(contents: seq<string>)
    ensures AllSatisfied(contents, [])
  {
  }

  lemma DemandedOfKind(title: string, description: Option<string>, explicit: bool, page: Option<Page>)
    ensures var kind := KindOf(title, description, explicit, page);
            explicit || References(title, description) ==>
              kind.Unresolved? || Demanded(kind, title, description) == Asked(title, description)
  {
  }

  /** `resolve`: the requirements are read off the words only when there is code to change. */
  method Resolve(title: string, description: Option<string>, explicit: bool, page: Option<Page>)
    returns (kind: Kind, reqs: seq<Requirements.Requirement>)
    ensures kind == KindOf(title, description, explicit, page) && reqs == Demanded(kind, title, description)
  {
    kind := KindOf(title, description, explicit, page);
    reqs := [];
    if !kind.NewModule? && !kind.Unresolved? {
      var extracted := Requirements.Extract(title, description);
      reqs := Requirements.Reqs(extracted);
    }
  }

  method Implement(title: string, description: Option<string>, kind: Kind, reqs: seq<Requirements.Requirement>, heading: string,
                   generated: Option<seq<string>>)
    returns (contents: Option<seq<string>>)
    requires reqs == Demanded(kind, title, description)
    ensures Implemented(kind, title, description, heading, generated, contents)
    ensures kind.Unresolved? ==> contents.None?
  {
    if kind.Unresolved? {
      return None;
    }
    if !kind.Modify? {
      return generated;
    }
    var card := Requirements.BuildRequirementsCard(heading, reqs);
    var r := Splice.InsertBeforeAnchor(kind.page.source, kind.page.anchor, card, 1);
    contents := if r.Ok? then Some([r.value]) else None;
  }

  /** The verification report has no unsatisfied requirement. */
  method Verified(contents: seq<string>, reqs: seq<Requirements.Requirement>) returns (ok: bool)
    ensures ok <==> AllSatisfied(contents, reqs)
  {
    var report := Requirements.Verify(Requirements.JoinRows(contents), reqs);
    ok := false !in report;
    if !ok {
      var i :| 0 <= i < |report| && !report[i];
      assert !Requirements.SatisfiedBy(reqs[i], Requirements.JoinRows(contents));
    }
    forall i | 0 <= i < |reqs| ensures Requirements.SatisfiedBy(reqs[i], Requirements.JoinRows(contents)) || !ok {
      assert report[i] in report;
    }
  }

  /** Main result: passing the gate means that every requirement of the task's words holds of the
      generated sources, whatever these are, if and only if the task refers to existing code or
      brings a modification spec, or asks for nothing. The gate is not asked about a new module. */
  lemma GateCovers(title: string, description: Option<string>, explicit: bool, page: Option<Page>)
    requires !KindOf(title, description, explicit, page).Unresolved?
    ensures (forall contents :: AllSatisfied(contents, Demanded(KindOf(title, description, explicit, page), title, description))
                                ==> AllSatisfied(contents, Asked(title, description)))
            <==> explicit || References(title, description) || Asked(title, description) == []
  {
    if !explicit && !References(title, description) && Asked(title, description) != [] {
      AskedNotEmpty(title, description, 0);
      assert Requirements.JoinRows([]) == "";
      assert !AllSatisfied([], Asked(title, description));
    }
  }

  /** A task that asks for a quoted letter and is drafted without it. */
  lemma NewModuleUnchecked()
    ensures KindOf("\"x\"", None, false, None) == NewModule
    ensures AllSatisfied([], Demanded(NewModule, "\"x\"", None)) && !AllSatisfied([], Asked("\"x\"", None))
  {
    QuotedLetterRefersToNothing();
    QuotedLetterIsAsked();
    AskedNotEmpty("\"x\"", None, 0);
    assert Requirements.JoinRows([]) == "";
  }

  /** Main result, from the task's words to the pull request: a task for which a page is found, with
      its anchor in it, none of `< > { }` in its text markers, and texts that are neutral for the
      bracket check, is implemented and passes the gate. */
  lemma PageTaskPasses(title: string, description: Option<string>, page: Page, heading: string,
                       generated: Option<seq<string>>, contents: Option<seq<string>>)
    requires References(title, description) && Contains(page.source, page.anchor)
    requires page.anchor != [] && '\n' !in page.anchor
    requires Requirements.CleanMarkers(Asked(title, description)) && Requirements.NeutralTexts(heading, Asked(title, description))
    requires Implemented(KindOf(title, description, false, Some(page)), title, description, heading, generated, contents)
    ensures contents.Some?
            && AllSatisfied(contents.value, Demanded(KindOf(title, description, false, Some(page)), title, description))
  {
    hide Requirements.CleanMarkers, Requirements.NeutralTexts, Splice.AnchoredInsertion, AllSatisfied;
    var reqs := Asked(title, description);
    var r :| Splice.AnchoredInsertion(page.source, page.anchor, Requirements.Card(heading, reqs), 1, 0, r)
             && contents == if r.Ok? then Some([r.value]) else None;
    Requirements.CardIsNeverUnbalanced(heading, reqs, page.source, page.anchor, 1, r);
    Splice.AnchorFound(page.source, page.anchor, Requirements.Card(heading, reqs), 0, r);
    GeneratedChangePassesGate(title, description, heading, page.source, page.anchor, 1, 0, r, [r.value], 0);
  }

  /** When one of the changes is a file
      with the card generated for the task's requirements, and no text marker contains
      `< > { }`, the gate lets the pull request through. */
  lemma GeneratedChangePassesGate(title: string, description: Option<string>, heading: string, source: string,
                                  anchor: string, k: int, offset: nat, r: Result<string, Splice.EditError>,
                                  contents: seq<string>, at: nat)
    requires offset <= 1
    requires Requirements.CleanMarkers(Requirements.Reqs(Requirements.Extracted(title, description)))
    requires Splice.AnchoredInsertion(source, anchor,
               Requirements.Card(heading, Requirements.Reqs(Requirements.Extracted(title, description))), k, offset, r)
    requires r.Ok? && at < |contents| && contents[at] == r.value
    ensures AllSatisfied(contents, Requirements.Reqs(Requirements.Extracted(title, description)))
  {
    Requirements.GeneratedCardVerifies(title, description, heading, source, anchor, k, offset, r);
    OneFileSuffices(contents, at, Requirements.Reqs(Requirements.Extracted(title, description)));
  }

  lemma OneFileSuffices(contents: seq<string>, at: nat, reqs: seq<Requirements.Requirement>)
    requires at < |contents| && forall ok :: ok in Requirements.Verify(contents[at], reqs) ==> ok
    ensures AllSatisfied(contents, reqs)
  {
    forall i | 0 <= i < |reqs| ensures Requirements.SatisfiedBy(reqs[i], Requirements.JoinRows(contents)) {
      var report := Requirements.Verify(contents[at], reqs);
      assert report[i] in report;
      Requirements.JoinedRowsContain(contents, at, reqs[i].expected);
    }
  }
}
