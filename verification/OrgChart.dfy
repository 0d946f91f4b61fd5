/** `AIReportingService.org_chart`: one pass over the active employees builds the nested
    tree by appending every node to its manager's reports or to the roots. */
module OrgChart {
  import opened Text
  import opened Organization

  /** A node of the chart; its reports are appended to in place. */
  class Node {
    const id: Id
    var reports: seq<Node>

    constructor (id: Id)
      ensures this.id == id && reports == []
    {
      this.id := id;
      reports := [];
    }
  }

  /** `list_active()`: every active employee once. */
  predicate IsRoster(o: Org, ids: seq<Id>) {
    && (forall e :: e in ids ==> Active(o, e))
    && (forall e | e in o.employees :: Active(o, e) ==> e in ids)
    && (forall k, l :: 0 <= k < l < |ids| ==> ids[k] != ids[l])
  }

  /** The employee under whom `e` is drawn: its manager if that one is active. */
  function Parent(o: Org, e: Id): Option<Id> {
    if Active(o, e) && o.employees[e].manager.Some? && Active(o, o.employees[e].manager.value) then
      o.employees[e].manager
    else None
  }

  /** The employees of the list drawn under `p`, or as roots, in the order of the list. */
  function Under(o: Org, ids: seq<Id>, p: Option<Id>): (r: seq<Id>)
    ensures forall e :: e in r <==> e in ids && Parent(o, e) == p
    ensures (forall k, l :: 0 <= k < l < |ids| ==> ids[k] != ids[l]) ==>
              forall k, l :: 0 <= k < l < |r| ==> r[k] != r[l]
  {
    if ids == [] then []
    else
      var n := |ids| - 1;
      assert ids == ids[..n] + [ids[n]];
      Under(o, ids[..n], p) + if Parent(o, ids[n]) == p then [ids[n]] else []
  }

  /** They keep the order of the list. */
  lemma {:induction false} UnderInOrder(o: Org, a: seq<Id>, b: seq<Id>, p: Option<Id>)
    ensures Under(o, a + b, p) == Under(o, a, p) + Under(o, b, p)
  {
    if b == [] {
      assert a + b == a;
    } else {
      hide Under, Parent;
      var front, last := b[..|b| - 1], b[|b| - 1];
      UnderInOrder(o, a, front, p);
      LastApart(a, b);
      UnderLast(o, a + front, last, p);
      UnderLast(o, front, last, p);
    }
  }

  lemma LastApart(a: seq<Id>, b: seq<Id>)
    requires b != []
    ensures b == b[..|b| - 1] + [b[|b| - 1]] && a + b == (a + b[..|b| - 1]) + [b[|b| - 1]]
  {
  }

  lemma UnderLast(o: Org, done: seq<Id>, e: Id, p: Option<Id>)
    ensures Under(o, done + [e], p) == Under(o, done, p) + if Parent(o, e) == p then [e] else []
  {
    assert (done + [e])[..|done|] == done;
  }

  /** The nodes of `ids`, in order. */
  ghost predicate Lists(nodes: map<Id, Node>, list: seq<Node>, ids: seq<Id>) {
    |list| == |ids| && forall k :: 0 <= k < |ids| ==> ids[k] in nodes && list[k] == nodes[ids[k]]
  }

  /** The chart of a list of employees: every node has its reports, and the rest are roots. */
  ghost predicate Drawn(o: Org, ids: seq<Id>, nodes: map<Id, Node>, roots: seq<Node>)
    reads nodes.Values
  {
    && Lists(nodes, roots, Under(o, ids, None))
    && forall e :: e in nodes ==> Lists(nodes, nodes[e].reports, Under(o, ids, Some(e)))
  }

  /** A table of the nodes of the active employees, each under its own id. */
  ghost predicate IsTable(nodes: map<Id, Node>, ids: seq<Id>) {
    && (forall e :: e in nodes <==> e in ids)
    && (forall e :: e in nodes ==> nodes[e].id == e)
  }

  /** `{emp.id: self._node(emp) for emp in employees}`. */
  method MakeNodes(ids: seq<Id>) returns (nodes: map<Id, Node>)
    ensures IsTable(nodes, ids)
    ensures forall e :: e in nodes ==> fresh(nodes[e]) && nodes[e].reports == []
  {
    nodes := map[];
    for k := 0 to |ids|
      invariant IsTable(nodes, ids[..k])
      invariant forall e :: e in nodes ==> fresh(nodes[e]) && nodes[e].reports == []
    {
      var node := new Node(ids[k]);
      nodes := nodes[ids[k] := node];
    }
    assert ids[..|ids|] == ids;
  }

  /** One round of the pass: the next employee goes under its manager or to the roots. */
  method Place(o: Org, done: seq<Id>, e: Id, nodes: map<Id, Node>, roots: seq<Node>) returns (roots': seq<Node>)
    requires Active(o, e) && Drawn(o, done, nodes, roots)
    requires forall x :: x in nodes <==> Active(o, x)
    requires forall x :: x in nodes ==> nodes[x].id == x
    modifies nodes.Values
    ensures Drawn(o, done + [e], nodes, roots')
  {
    hide Under;
    var m := o.employees[e].manager;
    UnderSnoc(o, done, e);
    roots' := roots;
    if m.Some? && m.value in nodes {
      var parent := nodes[m.value];
      ghost var was := parent.reports;
      assert Lists(nodes, was, Under(o, done, m));
      assert parent in nodes.Values;
      parent.reports := parent.reports + [nodes[e]];
      ListsGrow(nodes, was, Under(o, done, m), e);
      forall x | x in nodes ensures Lists(nodes, nodes[x].reports, Under(o, done + [e], Some(x))) {
        if x != m.value {
          assert nodes[x] != parent;
        }
      }
    } else {
      ListsGrow(nodes, roots, Under(o, done, None), e);
      roots' := roots + [nodes[e]];
    }
  }

  lemma ListsGrow(nodes: map<Id, Node>, list: seq<Node>, ids: seq<Id>, e: Id)
    requires Lists(nodes, list, ids) && e in nodes
    ensures Lists(nodes, list + [nodes[e]], ids + [e])
  {
  }

  lemma UnderSnoc(o: Org, done: seq<Id>, e: Id)
    ensures forall p :: Under(o, done + [e], p)
                        == if Parent(o, e) == p then Under(o, done, p) + [e] else Under(o, done, p)
  {
    assert (done + [e])[..|done|] == done;
  }

  lemma NothingDrawn(o: Org, none: seq<Id>, nodes: map<Id, Node>)
    requires none == [] && forall e :: e in nodes ==> nodes[e].reports == []
    ensures Drawn(o, none, nodes, [])
  {
  }

  /** `org_chart`. The nodes are returned beside the roots to say what hangs where. */
  method Chart(o: Org, ids: seq<Id>) returns (roots: seq<Node>, nodes: map<Id, Node>)
    requires IsRoster(o, ids)
    ensures IsTable(nodes, ids) && Drawn(o, ids, nodes, roots)
    ensures forall e :: e in nodes ==> fresh(nodes[e])
  {
    nodes := MakeNodes(ids);
    roots := PlaceAll(o, ids, nodes);
  }

  method PlaceAll(o: Org, ids: seq<Id>, nodes: map<Id, Node>) returns (roots: seq<Node>)
    requires forall k :: 0 <= k < |ids| ==> Active(o, ids[k])
    requires forall x :: x in nodes <==> Active(o, x)
    requires forall x :: x in nodes ==> nodes[x].id == x && nodes[x].reports == []
    modifies nodes.Values
    ensures Drawn(o, ids, nodes, roots)
  {
    hide Under, Lists, Drawn;
    roots := [];
    NothingDrawn(o, ids[..0], nodes);
    for k := 0 to |ids|
      invariant Drawn(o, ids[..k], nodes, roots)
    {
      assert ids[..k] + [ids[k]] == ids[..k + 1];
      roots := Place(o, ids[..k], ids[k], nodes, roots);
    }
    assert ids[..|ids|] == ids;
  }

  // ---------------------------------------------------------------------
  // Walking the chart
  // ---------------------------------------------------------------------

  /** A visit of the walk from the roots: a root, then always a report of the one before. */
  ghost predicate IsVisit(o: Org, ids: seq<Id>, path: seq<Id>) {
    && path != []
    && path[0] in Under(o, ids, None)
    && forall k :: 0 < k < |path| ==> path[k] in Under(o, ids, Some(path[k - 1]))
  }

  ghost predicate Visits(o: Org, ids: seq<Id>, path: seq<Id>, e: Id) {
    IsVisit(o, ids, path) && path[|path| - 1] == e
  }

  /** The walk comes to `e` once, and every list it passes through names nobody twice. */
  ghost predicate VisitedOnce(o: Org, ids: seq<Id>, e: Id) {
    exists path :: Visits(o, ids, path, e) && forall other :: Visits(o, ids, other, e) ==> other == path
  }

  /** A visit goes up its own managers. */
  lemma {:induction false} VisitGoesUp(o: Org, ids: seq<Id>, path: seq<Id>, k: nat)
    requires IsRoster(o, ids) && IsVisit(o, ids, path) && k < |path|
    ensures Up(o, path[|path| - 1], k) == Some(path[|path| - 1 - k]) && Active(o, path[|path| - 1 - k])
    ensures k > 0 ==> Parent(o, path[|path| - k]) == Some(path[|path| - 1 - k])
  {
    if k == 0 {
      var last := |path| - 1;
      assert path[last] in ids by {
        if last > 0 { assert path[last] in Under(o, ids, Some(path[last - 1])); }
      }
    } else {
      VisitGoesUp(o, ids, path, k - 1);
    }
  }

  lemma VisitIsUnique(o: Org, ids: seq<Id>, p: seq<Id>, q: seq<Id>, e: Id)
    requires IsRoster(o, ids) && Visits(o, ids, p, e) && Visits(o, ids, q, e)
    ensures p == q
  {
    SameLength(o, ids, p, q, e);
    SameLength(o, ids, q, p, e);
    forall k | 0 <= k < |p| ensures p[k] == q[k] {
      VisitGoesUp(o, ids, p, |p| - 1 - k);
      VisitGoesUp(o, ids, q, |p| - 1 - k);
    }
  }

  lemma SameLength(o: Org, ids: seq<Id>, p: seq<Id>, q: seq<Id>, e: Id)
    requires IsRoster(o, ids) && Visits(o, ids, p, e) && Visits(o, ids, q, e)
    ensures |q| <= |p|
  {
    if |p| < |q| {
      VisitGoesUp(o, ids, p, |p| - 1);
      VisitGoesUp(o, ids, q, |p| - 1);
      VisitGoesUp(o, ids, q, |p|);
      assert false;
    }
  }

  /** In an acyclic hierarchy the way up ends at a root, and reversed it is a visit. `below`
      are the employees already met, from whom `e` is above. */
  lemma {:induction false} VisitTo(o: Org, ids: seq<Id>, e: Id, below: set<Id>) returns (path: seq<Id>)
    requires IsRoster(o, ids) && Acyclic(o) && Active(o, e)
    requires forall x :: x in below ==> Active(o, x) && Above(o, e, x)
    ensures Visits(o, ids, path, e)
    decreases ActiveSet(o) - below
  {
    var m := Parent(o, e);
    if m.None? {
      path := [e];
    } else {
      assert Up(o, e, 0) == Some(e) && Up(o, e, 1) == m;
      forall x | x in below + {e} ensures Active(o, x) && Above(o, m.value, x) {
        if x != e {
          var n: nat :| n >= 1 && Up(o, x, n) == Some(e);
          assert Up(o, x, n + 1) == m;
        }
      }
      assert e !in below;
      assert e in ActiveSet(o);
      var before := VisitTo(o, ids, m.value, below + {e});
      path := before + [e];
    }
  }

  /** On a cycle the way up never ends. */
  lemma {:induction false} CycleNeverEnds(o: Org, e: Id, n: nat, j: nat)
    requires n >= 1 && Up(o, e, n) == Some(e)
    ensures Up(o, e, j).Some?
    decreases j
  {
    if j <= n {
      UpPrefix(o, e, j, n);
    } else {
      UpAdds(o, e, n, j - n);
      CycleNeverEnds(o, e, n, j - n);
    }
  }

  lemma OnCycleNotVisited(o: Org, ids: seq<Id>, e: Id, n: nat, path: seq<Id>)
    requires IsRoster(o, ids) && n >= 1 && Up(o, e, n) == Some(e)
    ensures !Visits(o, ids, path, e)
  {
    if Visits(o, ids, path, e) {
      VisitGoesUp(o, ids, path, |path| - 1);
      CycleNeverEnds(o, e, n, |path| + 1);
      CycleNeverEnds(o, e, n, |path|);
      assert false;
    }
  }

  /** Main result: the walk from the roots visits every active employee exactly once, each
      under its own manager, if and only if the manager relation is acyclic. */
  lemma WalkIsExact(o: Org, ids: seq<Id>)
    requires IsRoster(o, ids)
    ensures (forall e :: Active(o, e) ==> VisitedOnce(o, ids, e)) <==> Acyclic(o)
  {
    if Acyclic(o) {
      forall e | Active(o, e) ensures VisitedOnce(o, ids, e) {
        var path := VisitTo(o, ids, e, {});
        forall other | Visits(o, ids, other, e) ensures other == path {
          VisitIsUnique(o, ids, other, path, e);
        }
      }
    } else {
      var e: Id, n: nat :| n >= 1 && Up(o, e, n) == Some(e);
      UpPrefix(o, e, 1, n);
      assert Active(o, e) by { assert Up(o, e, 0) == Some(e); }
      forall path ensures !Visits(o, ids, path, e) {
        OnCycleNotVisited(o, ids, e, n, path);
      }
    }
  }
}
