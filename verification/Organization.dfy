/** `ai_organization.py`: employees report to a manager by id; deleting one is a soft delete
    that promotes the direct reports. */
module Organization {
  import opened Text

  type Id = nat

  datatype Employee = Employee(code: string, role: Id, department: Id, manager: Option<Id>,
                               deleted: bool, version: nat)

  /** `heads` are the roles that may have no manager. */
  datatype Org = Org(employees: map<Id, Employee>, roles: set<Id>, heads: set<Id>, departments: set<Id>)

  predicate Active(o: Org, e: Id) {
    e in o.employees && !o.employees[e].deleted
  }

  // ---------------------------------------------------------------------
  // The hierarchy
  // ---------------------------------------------------------------------

  /** `n` steps up from `e`, each from an active employee to its manager. */
  ghost function Up(o: Org, e: Id, n: nat): Option<Id> {
    if n == 0 then Some(e)
    else
      match Up(o, e, n - 1)
      case None => None
      case Some(x) => if Active(o, x) then o.employees[x].manager else None
  }

  ghost predicate Above(o: Org, a: Id, b: Id) {
    exists n: nat :: n >= 1 && Up(o, b, n) == Some(a)
  }

  ghost predicate Acyclic(o: Org) {
    forall e: Id, n: nat :: n >= 1 ==> Up(o, e, n) != Some(e)
  }

  /** No active employee points at a deleted or unknown manager. */
  ghost predicate Closed(o: Org) {
    forall e :: Active(o, e) && o.employees[e].manager.Some? ==> Active(o, o.employees[e].manager.value)
  }

  lemma {:induction false} UpAdds(o: Org, e: Id, m: nat, n: nat)
    requires Up(o, e, m).Some?
    ensures Up(o, e, m + n) == Up(o, Up(o, e, m).value, n)
    decreases n
  {
    if n > 0 {
      UpAdds(o, e, m, n - 1);
      assert Up(o, e, m + n - 1) == Up(o, Up(o, e, m).value, n - 1);
    }
  }

  lemma {:induction false} UpPrefix(o: Org, e: Id, m: nat, n: nat)
    requires m <= n && Up(o, e, n).Some?
    ensures Up(o, e, m).Some?
    decreases n
  {
    if m < n {
      UpPrefix(o, e, m, n - 1);
    }
  }

  /** Two hierarchies that agree on the managers met on the way take the same way. */
  lemma {:induction false} SameWay(o: Org, o': Org, e: Id, n: nat)
    requires Up(o, e, n).Some?
    requires forall k, x :: 0 <= k < n && Up(o, e, k) == Some(x) && Active(o, x) ==>
               Active(o', x) && o'.employees[x].manager == o.employees[x].manager
    ensures Up(o', e, n) == Up(o, e, n)
    decreases n
  {
    if n > 0 {
      SameWay(o, o', e, n - 1);
    }
  }

  // ---------------------------------------------------------------------
  // The operations
  // ---------------------------------------------------------------------

  datatype OrgError = CodeTaken | UnknownRole | UnknownDepartment | ManagerRequired | OwnManager | UnknownManager | NotFound

  /** `_validate_manager`. */
  function ValidateManager(o: Org, role: Id, manager: Option<Id>, self: Option<Id>): Option<OrgError> {
    match manager
    case None => if role in o.heads then None else Some(ManagerRequired)
    case Some(m) =>
      if self == Some(m) then Some(OwnManager)
      else if !Active(o, m) then Some(UnknownManager)
      else None
  }

  /** The fields an update names; the manager may be left alone, changed or cleared. */
  datatype Patch = Patch(role: Option<Id>, department: Option<Id>, manager: Option<Option<Id>>)

  function Created(o: Org, id: Id, code: string, role: Id, department: Id, manager: Option<Id>): Result<Org, OrgError> {
    if exists e | e in o.employees :: o.employees[e].code == code then Err(CodeTaken)
    else if role !in o.roles then Err(UnknownRole)
    else if department !in o.departments then Err(UnknownDepartment)
    else match ValidateManager(o, role, manager, None)
         case Some(error) => Err(error)
         case None => Ok(o.(employees := o.employees[id := Employee(code, role, department, manager, false, 1)]))
  }

  function Updated(o: Org, id: Id, p: Patch): Result<Org, OrgError> {
    if !Active(o, id) then Err(NotFound)
    else if p.role.Some? && p.role.value !in o.roles then Err(UnknownRole)
    else if p.department.Some? && p.department.value !in o.departments then Err(UnknownDepartment)
    else
      var emp := o.employees[id];
      var role := if p.role.Some? then p.role.value else emp.role;
      var error := if p.manager.Some? then ValidateManager(o, role, p.manager.value, Some(id)) else None;
      if error.Some? then Err(error.value)
      else Ok(o.(employees := o.employees[id :=
                emp.(role := role, department := if p.department.Some? then p.department.value else emp.department,
                     manager := if p.manager.Some? then p.manager.value else emp.manager,
                     version := emp.version + 1)]))
  }

  /** The reports whose manager is rewritten: those the listing of active employees returned. */
  function Deleted(o: Org, id: Id, listed: set<Id>): Org
    requires Active(o, id)
  {
    var emp := o.employees[id];
    o.(employees := map e | e in o.employees ::
         if e == id then emp.(deleted := true, version := emp.version + 1)
         else if e in listed && o.employees[e].manager == Some(id) then o.employees[e].(manager := emp.manager)
         else o.employees[e])
  }

  /** Who may be the manager of an employee of the role, `self` itself not. */
  predicate MayManage(o: Org, role: Id, manager: Option<Id>, self: Option<Id>) {
    if manager.None? then role in o.heads else manager != self && Active(o, manager.value)
  }

  /** A creation is accepted if and only if the code is new among all employees, deleted ones
      included, role and department exist, and the manager is active, or missing for a head's role.
      It adds that employee and changes no other. */
  lemma CreatedExactly(o: Org, id: Id, code: string, role: Id, department: Id, manager: Option<Id>)
    requires id !in o.employees
    ensures Created(o, id, code, role, department, manager).Ok? <==>
              && (forall e :: e in o.employees ==> o.employees[e].code != code)
              && role in o.roles && department in o.departments && MayManage(o, role, manager, None)
    ensures Created(o, id, code, role, department, manager).Ok? ==>
              var o' := Created(o, id, code, role, department, manager).value;
              && o'.employees.Keys == o.employees.Keys + {id} && (forall e :: e in o.employees ==> o'.employees[e] == o.employees[e])
              && o'.employees[id].code == code && o'.employees[id].role == role && o'.employees[id].department == department
              && o'.employees[id].manager == manager && !o'.employees[id].deleted && o'.employees[id].version == 1
              && o'.roles == o.roles && o'.heads == o.heads && o'.departments == o.departments
  {
  }

  /** An update is accepted if and only if the employee is active, what it names exists, and the
      manager it names may manage the role the employee then has. It sets what it names, keeps the
      rest, and counts the version on. */
  lemma UpdatedExactly(o: Org, id: Id, p: Patch)
    ensures Updated(o, id, p).Ok? <==>
              && Active(o, id) && (p.role.Some? ==> p.role.value in o.roles)
              && (p.department.Some? ==> p.department.value in o.departments)
              && (p.manager.Some? ==>
                    MayManage(o, if p.role.Some? then p.role.value else o.employees[id].role, p.manager.value, Some(id)))
    ensures Updated(o, id, p).Ok? ==>
              var o', old_ := Updated(o, id, p).value, o.employees[id];
              && o'.employees.Keys == o.employees.Keys
              && (forall e :: e in o.employees && e != id ==> o'.employees[e] == o.employees[e])
              && (p.role.Some? ==> o'.employees[id].role == p.role.value) && (p.role.None? ==> o'.employees[id].role == old_.role)
              && (p.department.Some? ==> o'.employees[id].department == p.department.value)
              && (p.department.None? ==> o'.employees[id].department == old_.department)
              && (p.manager.Some? ==> o'.employees[id].manager == p.manager.value)
              && (p.manager.None? ==> o'.employees[id].manager == old_.manager)
              && o'.employees[id].code == old_.code && o'.employees[id].deleted == old_.deleted
              && o'.employees[id].version == old_.version + 1
              && o'.roles == o.roles && o'.heads == o.heads && o'.departments == o.departments
  {
  }

  /** A deletion marks the employee, hands its listed direct reports to its manager, and changes
      nothing else about anyone. */
  lemma DeletedExactly(o: Org, id: Id, listed: set<Id>)
    requires Active(o, id)
    ensures var o' := Deleted(o, id, listed);
            && o'.employees.Keys == o.employees.Keys && !Active(o', id)
            && (forall e :: e in o.employees && e != id ==>
                  && Active(o', e) == Active(o, e) && o'.employees[e].code == o.employees[e].code
                  && o'.employees[e].role == o.employees[e].role && o'.employees[e].department == o.employees[e].department
                  && o'.employees[e].manager == if e in listed && o.employees[e].manager == Some(id) then o.employees[id].manager
                                                else o.employees[e].manager)
            && o'.employees[id].code == o.employees[id].code && o'.employees[id].manager == o.employees[id].manager
            && o'.employees[id].version == o.employees[id].version + 1
  {
  }

  function ActiveSet(o: Org): set<Id> {
    set e | e in o.employees && !o.employees[e].deleted
  }

  /** What `list_filtered(limit=10_000)` may return: active employees, each once, and as many
      of them as the limit allows. */
  predicate IsListing(o: Org, ids: seq<Id>) {
    && |ids| == (if |ActiveSet(o)| <= 10_000 then |ActiveSet(o)| else 10_000)
    && (forall k :: 0 <= k < |ids| ==> Active(o, ids[k]))
    && (forall k, l :: 0 <= k < l < |ids| ==> ids[k] != ids[l])
  }

  function Members(ids: seq<Id>): set<Id> {
    set e | e in ids
  }

  class AIOrganization {
    var org: Org

    constructor (o: Org)
      ensures org == o
    {
      org := o;
    }

    method Create(id: Id, code: string, role: Id, department: Id, manager: Option<Id>) returns (r: Result<Id, OrgError>)
      requires id !in org.employees
      modifies this
      ensures match Created(old(org), id, code, role, department, manager)
              case Ok(o) => r == Ok(id) && org == o
              case Err(e) => r == Err(e) && org == old(org)
    {
      if exists e | e in org.employees :: org.employees[e].code == code {
        return Err(CodeTaken);
      }
      if role !in org.roles {
        return Err(UnknownRole);
      }
      if department !in org.departments {
        return Err(UnknownDepartment);
      }
      var error := ValidateManager(org, role, manager, None);
      if error.Some? {
        return Err(error.value);
      }
      org := org.(employees := org.employees[id := Employee(code, role, department, manager, false, 1)]);
      r := Ok(id);
    }

    method Update(id: Id, p: Patch) returns (r: Result<Id, OrgError>)
      modifies this
      ensures match Updated(old(org), id, p)
              case Ok(o) => r == Ok(id) && org == o
              case Err(e) => r == Err(e) && org == old(org)
    {
      if !Active(org, id) {
        return Err(NotFound);
      }
      var emp := org.employees[id];
      if p.role.Some? {
        if p.role.value !in org.roles {
          return Err(UnknownRole);
        }
        emp := emp.(role := p.role.value);
      }
      if p.department.Some? {
        if p.department.value !in org.departments {
          return Err(UnknownDepartment);
        }
        emp := emp.(department := p.department.value);
      }
      if p.manager.Some? {
        var error := ValidateManager(org, emp.role, p.manager.value, Some(id));
        if error.Some? {
          return Err(error.value);
        }
        emp := emp.(manager := p.manager.value);
      }
      org := org.(employees := org.employees[id := emp.(version := emp.version + 1)]);
      r := Ok(id);
    }

    /** Promote the listed direct reports, then mark the row deleted. */
    method Delete(id: Id, listing: seq<Id>) returns (r: Result<Id, OrgError>)
      requires IsListing(org, listing)
      modifies this
      ensures r == if Active(old(org), id) then Ok(id) else Err(NotFound)
      ensures org == if Active(old(org), id) then Deleted(old(org), id, Members(listing)) else old(org)
    {
      if !Active(org, id) {
        return Err(NotFound);
      }
      ghost var start := org;
      assert forall k :: 0 <= k < |listing| ==> listing[k] in org.employees;
      hide IsListing;
      for k := 0 to |listing|
        invariant org == start.(employees := org.employees) && org.employees.Keys == start.employees.Keys
        invariant forall e :: e in start.employees ==>
                    org.employees[e] == if e in listing[..k] && start.employees[e].manager == Some(id)
                                        then start.employees[e].(manager := start.employees[id].manager)
                                        else start.employees[e]
      {
        var e := listing[k];
        assert listing[..k + 1] == listing[..k] + [e];
        if org.employees[e].manager == Some(id) {
          org := org.(employees := org.employees[e := org.employees[e].(manager := org.employees[id].manager)]);
        }
      }
      assert listing[..|listing|] == listing;
      var emp := org.employees[id];
      org := org.(employees := org.employees[id := emp.(deleted := true, version := emp.version + 1)]);
      assert org.employees == Deleted(start, id, Members(listing)).employees;
      r := Ok(id);
    }
  }

  // ---------------------------------------------------------------------
  // Deleting keeps the hierarchy of the others
  // ---------------------------------------------------------------------

  /** Every direct report of `d` is in the listing. */
  predicate ReportsListed(o: Org, d: Id, listed: set<Id>) {
    forall e | e in o.employees :: Active(o, e) && o.employees[e].manager == Some(d) ==> e == d || e in listed
  }

  lemma {:induction false} WayAround(o: Org, d: Id, listed: set<Id>, b: Id, n: nat) returns (m: nat)
    requires Active(o, d) && o.employees[d].manager != Some(d) && ReportsListed(o, d, listed)
    requires b != d && Up(o, b, n).Some? && Up(o, b, n) != Some(d)
    ensures Up(Deleted(o, d, listed), b, m) == Up(o, b, n) && (n >= 1 ==> m >= 1)
    decreases n
  {
    if n == 0 {
      m := 0;
    } else {
      var y := Up(o, b, n - 1).value;
      if y != d {
        m := WayAround(o, d, listed, b, n - 1);
        m := m + 1;
      } else {
        var z := Up(o, b, n - 2).value;
        m := WayAround(o, d, listed, b, n - 2);
        assert o.employees[z].manager == Some(d);
        m := m + 1;
      }
    }
  }

  lemma {:induction false} WayThrough(o: Org, d: Id, listed: set<Id>, b: Id, m: nat) returns (n: nat)
    requires Active(o, d) && Up(Deleted(o, d, listed), b, m).Some?
    ensures Up(o, b, n) == Up(Deleted(o, d, listed), b, m) && n >= m
    decreases m
  {
    n := m;
    if m > 0 {
      var o' := Deleted(o, d, listed);
      var y := Up(o', b, m - 1).value;
      n := WayThrough(o, d, listed, b, m - 1);
      assert Active(o, y);
      if o.employees[y].manager == o'.employees[y].manager {
        n := n + 1;
      } else {
        assert Up(o, b, n + 1) == Some(d);
        n := n + 2;
      }
    }
  }

  /** Main result: deleting an employee whose reports are all listed preserves "is above"
      between the survivors, and keeps an acyclic hierarchy acyclic. */
  lemma DeletePreservesHierarchy(o: Org, d: Id, listed: set<Id>)
    requires Acyclic(o) && Active(o, d) && ReportsListed(o, d, listed)
    ensures Acyclic(Deleted(o, d, listed))
    ensures forall a, b :: a != d && b != d ==> (Above(Deleted(o, d, listed), a, b) <==> Above(o, a, b))
  {
    var o' := Deleted(o, d, listed);
    assert Up(o, d, 1) == o.employees[d].manager by { assert Up(o, d, 0) == Some(d); }
    forall a, b | a != d && b != d ensures Above(o', a, b) <==> Above(o, a, b) {
      if Above(o, a, b) {
        var n: nat :| n >= 1 && Up(o, b, n) == Some(a);
        var m := WayAround(o, d, listed, b, n);
      }
      if Above(o', a, b) {
        var m: nat :| m >= 1 && Up(o', b, m) == Some(a);
        var n := WayThrough(o, d, listed, b, m);
      }
    }
    forall e: Id, m: nat | m >= 1 ensures Up(o', e, m) != Some(e) {
      if Up(o', e, m) == Some(e) {
        var n := WayThrough(o, d, listed, e, m);
        assert false;
      }
    }
  }

  /** Exactly when no active employee is left pointing at the deleted one. */
  lemma DeleteKeepsClosed(o: Org, d: Id, listed: set<Id>)
    requires Closed(o) && Active(o, d) && o.employees[d].manager != Some(d)
    ensures Closed(Deleted(o, d, listed)) <==> ReportsListed(o, d, listed)
  {
    var o' := Deleted(o, d, listed);
    if !ReportsListed(o, d, listed) {
      var e :| e in o.employees && Active(o, e) && o.employees[e].manager == Some(d) && e != d && e !in listed;
      assert Active(o', e) && o'.employees[e].manager == Some(d);
    } else {
      forall e | Active(o', e) && o'.employees[e].manager.Some?
        ensures Active(o', o'.employees[e].manager.value)
      {
        assert Active(o, e);
      }
    }
  }

  lemma {:induction false} DistinctSize(ids: seq<Id>)
    requires forall k, l :: 0 <= k < l < |ids| ==> ids[k] != ids[l]
    ensures |Members(ids)| == |ids|
  {
    if ids == [] {
      assert Members(ids) == {};
    } else {
      var n := |ids| - 1;
      DistinctSize(ids[..n]);
      assert Members(ids) == Members(ids[..n]) + {ids[n]};
      assert ids[n] !in ids[..n];
    }
  }

  /** With at most 10,000 active employees the listing is complete, so every report is in it. */
  lemma ListingIsComplete(o: Org, d: Id, ids: seq<Id>)
    requires IsListing(o, ids) && |ActiveSet(o)| <= 10_000
    ensures ReportsListed(o, d, Members(ids))
  {
    DistinctSize(ids);
    var listed := Members(ids);
    assert listed <= ActiveSet(o);
    assert ActiveSet(o) == (ActiveSet(o) - listed) + listed;
    assert |ActiveSet(o) - listed| == 0;
    forall e | e in o.employees && Active(o, e) ensures e in listed {
      assert e in ActiveSet(o) && e !in ActiveSet(o) - listed;
    }
  }

  // ---------------------------------------------------------------------
  // Creating and updating
  // ---------------------------------------------------------------------

  lemma {:induction false} ClosedWay(o: Org, e: Id, n: nat)
    requires Closed(o) && Active(o, e) && Up(o, e, n).Some?
    ensures Active(o, Up(o, e, n).value)
  {
    if n > 0 {
      ClosedWay(o, e, n - 1);
    }
  }

  lemma CreateKeepsHierarchy(o: Org, id: Id, code: string, role: Id, department: Id, manager: Option<Id>)
    requires Acyclic(o) && Closed(o) && id !in o.employees
    requires Created(o, id, code, role, department, manager).Ok?
    ensures Acyclic(Created(o, id, code, role, department, manager).value)
    ensures Closed(Created(o, id, code, role, department, manager).value)
  {
    var o' := Created(o, id, code, role, department, manager).value;
    forall e | Active(o, e) ensures Active(o', e) && o'.employees[e].manager == o.employees[e].manager {}
    forall e: Id, n: nat | n >= 1 ensures Up(o', e, n) != Some(e) {
      if Up(o', e, n).Some? {
        UpPrefix(o', e, 1, n);
        assert Up(o', e, 0) == Some(e);
        if e == id {
          UpAdds(o', e, 1, n - 1);
          OldWay(o, o', id, manager.value, n - 1);
          ClosedWay(o, manager.value, n - 1);
        } else {
          OldWay(o, o', id, e, n);
        }
      }
    }
  }

  /** From an old employee only old ones are met. */
  lemma {:induction false} OldWay(o: Org, o': Org, id: Id, e: Id, n: nat)
    requires Closed(o) && id !in o.employees && Active(o, e) && Up(o', e, n).Some?
    requires forall x :: x != id ==> Active(o', x) == Active(o, x)
    requires forall x :: Active(o, x) ==> Active(o', x) && o'.employees[x].manager == o.employees[x].manager
    ensures Up(o, e, n) == Up(o', e, n)
  {
    if n > 0 {
      OldWay(o, o', id, e, n - 1);
      ClosedWay(o, e, n - 1);
    }
  }

  /** A way that returns to its start, started from any point of it. */
  lemma Rotate(o: Org, x: Id, n: nat, k: nat)
    requires Up(o, x, n) == Some(x) && k <= n && Up(o, x, k).Some?
    ensures Up(o, Up(o, x, k).value, n) == Up(o, x, k)
  {
    var e := Up(o, x, k).value;
    UpAdds(o, x, k, n - k);
    assert Up(o, e, n - k) == Some(x);
    UpAdds(o, e, n - k, k);
  }

  /** The first return. */
  lemma {:induction false} FirstReturn(o: Org, e: Id, n: nat) returns (j: nat)
    requires n >= 1 && Up(o, e, n) == Some(e)
    ensures 1 <= j <= n && Up(o, e, j) == Some(e) && forall k :: 1 <= k < j ==> Up(o, e, k) != Some(e)
    decreases n
  {
    if k: nat :| 1 <= k < n && Up(o, e, k) == Some(e) {
      j := FirstReturn(o, e, k);
    } else {
      j := n;
    }
  }

  /** Main result: giving `e` the manager `m` keeps an acyclic hierarchy acyclic if and only if
      `m` is neither `e` nor below `e`. The source checks only that `m` is not `e`. */
  lemma UpdateKeepsAcyclic(o: Org, e: Id, m: Id, o': Org)
    requires Acyclic(o) && Active(o, e)
    requires e in o'.employees && o'.employees == o.employees[e := o'.employees[e]]
    requires Active(o', e) && o'.employees[e].manager == Some(m)
    ensures Acyclic(o') <==> m != e && !Above(o, e, m)
  {
    assert forall x :: Active(o', x) == Active(o, x);
    assert Up(o', e, 0) == Some(e) && Up(o', e, 1) == Some(m);
    if m == e {
      assert !Acyclic(o');
    } else if Above(o, e, m) {
      var n: nat :| n >= 1 && Up(o, m, n) == Some(e);
      forall k | 0 <= k < n ensures Up(o, m, k) != Some(e) {
        MetOnce(o, m, k, n);
      }
      SameWay(o, o', m, n);
      UpAdds(o', e, 1, n);
      assert Up(o', e, 1 + n) == Some(e);
      assert !Acyclic(o');
    } else {
      forall x: Id, n: nat | n >= 1 ensures Up(o', x, n) != Some(x) {
        if Up(o', x, n) == Some(x) {
          NoNewCycle(o, o', e, m, x, n);
        }
      }
    }
  }

  lemma MetOnce(o: Org, m: Id, k: nat, n: nat)
    requires Acyclic(o) && k < n && Up(o, m, n).Some?
    ensures Up(o, m, k) != Up(o, m, n)
  {
    UpPrefix(o, m, k, n);
    UpAdds(o, m, k, n - k);
  }

  lemma NoNewCycle(o: Org, o': Org, e: Id, m: Id, x: Id, n: nat)
    requires Acyclic(o) && Active(o, e) && Active(o', e) && o'.employees[e].manager == Some(m)
    requires o'.employees == o.employees[e := o'.employees[e]]
    requires n >= 1 && Up(o', x, n) == Some(x)
    ensures m == e || Above(o, e, m)
  {
    if k: nat :| k < n && Up(o', x, k) == Some(e) {
      Rotate(o', x, n, k);
      var j := FirstReturn(o', e, n);
      assert Up(o', e, 0) == Some(e) && Up(o', e, 1) == Some(m);
      UpAdds(o', e, 1, j - 1);
      forall k | 0 <= k < j - 1 ensures Up(o', m, k) != Some(e) {
        UpAdds(o', e, 1, k);
      }
      SameWay(o', o, m, j - 1);
    } else {
      SameWay(o', o, x, n);
      assert false;
    }
  }

  /** The unchecked case: two updates, each allowed, that make two employees manage each other. */
  lemma UpdatesCanMakeACycle()
    ensures exists o: Org, o1: Org, o2: Org :: Acyclic(o)
              && Updated(o, 0, Patch(None, None, Some(Some(1)))) == Ok(o1)
              && Updated(o1, 1, Patch(None, None, Some(Some(0)))) == Ok(o2) && !Acyclic(o2)
  {
    var a, b := Employee("a", 0, 0, None, false, 1), Employee("b", 0, 0, None, false, 1);
    var o := Org(map[0 := a, 1 := b], {0}, {0}, {0});
    var o1 := Updated(o, 0, Patch(None, None, Some(Some(1)))).value;
    var o2 := Updated(o1, 1, Patch(None, None, Some(Some(0)))).value;
    forall e: Id, n: nat | n >= 1 ensures Up(o, e, n) != Some(e) {
      assert Up(o, e, 1).None? by { assert Up(o, e, 0) == Some(e); }
      if Up(o, e, n).Some? {
        UpPrefix(o, e, 1, n);
        assert false;
      }
    }
    assert Up(o2, 0, 0) == Some(0) && Up(o2, 0, 1) == Some(1);
    assert Up(o2, 0, 2) == Some(0);
    assert !Acyclic(o2);
  }

  // ---------------------------------------------------------------------
  // Runs
  // ---------------------------------------------------------------------

  datatype Request =
    | CreateRequest(id: Id, code: string, role: Id, department: Id, manager: Option<Id>)
    | UpdateRequest(id: Id, patch: Patch)
    | DeleteRequest(id: Id, listing: seq<Id>)

  /** The organization after a request; a refused request leaves it as it was. */
  function Handled(o: Org, q: Request): Org {
    match q
    case CreateRequest(id, code, role, department, manager) =>
      (match Created(o, id, code, role, department, manager) case Ok(o') => o' case Err(_) => o)
    case UpdateRequest(id, patch) => (match Updated(o, id, patch) case Ok(o') => o' case Err(_) => o)
    case DeleteRequest(id, listing) => if Active(o, id) then Deleted(o, id, Members(listing)) else o
  }

  /** New ids are new, no update puts anyone under their own descendant, and at most 10,000
      employees are active when one is deleted. */
  ghost predicate Sensible(o: Org, q: Request) {
    match q
    case CreateRequest(id, _, _, _, _) => id !in o.employees
    case UpdateRequest(id, patch) =>
      patch.manager.Some? && patch.manager.value.Some? ==> !Above(o, id, patch.manager.value.value)
    case DeleteRequest(id, listing) => IsListing(o, listing) && |ActiveSet(o)| <= 10_000
  }

  ghost predicate SensibleRun(o: Org, qs: seq<Request>)
    decreases |qs|
  {
    qs == [] || (Sensible(o, qs[0]) && SensibleRun(Handled(o, qs[0]), qs[1..]))
  }

  function HandledAll(o: Org, qs: seq<Request>): Org
    decreases |qs|
  {
    if qs == [] then o else HandledAll(Handled(o, qs[0]), qs[1..])
  }

  lemma RequestKeepsHierarchy(o: Org, q: Request)
    requires Acyclic(o) && Closed(o) && Sensible(o, q)
    ensures Acyclic(Handled(o, q)) && Closed(Handled(o, q))
  {
    match q {
      case CreateRequest(id, code, role, department, manager) =>
        if Created(o, id, code, role, department, manager).Ok? {
          CreateKeepsHierarchy(o, id, code, role, department, manager);
        }
      case UpdateRequest(id, patch) =>
        if Updated(o, id, patch).Ok? {
          UpdateKeepsHierarchy(o, id, patch);
        }
      case DeleteRequest(id, listing) =>
        if Active(o, id) {
          assert Up(o, id, 1) == o.employees[id].manager by { assert Up(o, id, 0) == Some(id); }
          ListingIsComplete(o, id, listing);
          DeletePreservesHierarchy(o, id, Members(listing));
          DeleteKeepsClosed(o, id, Members(listing));
        }
    }
  }

  lemma UpdateKeepsHierarchy(o: Org, id: Id, patch: Patch)
    requires Acyclic(o) && Closed(o) && Sensible(o, UpdateRequest(id, patch)) && Updated(o, id, patch).Ok?
    ensures Acyclic(Updated(o, id, patch).value) && Closed(Updated(o, id, patch).value)
  {
    var o' := Updated(o, id, patch).value;
    var manager := o'.employees[id].manager;
    if manager.Some? && patch.manager.Some? {
      UpdateKeepsAcyclic(o, id, manager.value, o');
    } else {
      forall x: Id, n: nat | n >= 1 ensures Up(o', x, n) != Some(x) {
        if Up(o', x, n) == Some(x) {
          FewerManagers(o, o', x, n);
        }
      }
    }
    forall e | Active(o', e) && o'.employees[e].manager.Some?
      ensures Active(o', o'.employees[e].manager.value)
    {
      assert Active(o, e);
    }
  }

  /** With no manager changed except to none, every way existed before. */
  lemma {:induction false} FewerManagers(o: Org, o': Org, x: Id, n: nat)
    requires Up(o', x, n).Some?
    requires forall e :: Active(o', e) ==>
               Active(o, e) && (o'.employees[e].manager == o.employees[e].manager || o'.employees[e].manager.None?)
    ensures Up(o, x, n) == Up(o', x, n)
  {
    if n > 0 {
      FewerManagers(o, o', x, n - 1);
    }
  }

  /** No two employees, deleted ones included, share a code. */
  ghost predicate CodesDistinct(o: Org) {
    forall a, b :: a in o.employees && b in o.employees && a != b ==> o.employees[a].code != o.employees[b].code
  }

  lemma CreateKeepsCodes(o: Org, id: Id, code: string, role: Id, department: Id, manager: Option<Id>)
    requires CodesDistinct(o) && Created(o, id, code, role, department, manager).Ok?
    ensures CodesDistinct(Created(o, id, code, role, department, manager).value)
  {
    hide ValidateManager;
  }

  lemma UpdateKeepsCodes(o: Org, id: Id, patch: Patch)
    requires CodesDistinct(o) && Updated(o, id, patch).Ok?
    ensures CodesDistinct(Updated(o, id, patch).value)
  {
    hide ValidateManager;
  }

  lemma DeleteKeepsCodes(o: Org, id: Id, listed: set<Id>)
    requires CodesDistinct(o) && Active(o, id)
    ensures CodesDistinct(Deleted(o, id, listed))
  {
  }

  lemma RequestKeepsCodes(o: Org, q: Request)
    requires CodesDistinct(o)
    ensures CodesDistinct(Handled(o, q))
  {
    hide CodesDistinct, Created, Updated, Deleted;
    match q {
      case CreateRequest(id, code, role, department, manager) =>
        if Created(o, id, code, role, department, manager).Ok? {
          CreateKeepsCodes(o, id, code, role, department, manager);
        }
      case UpdateRequest(id, patch) =>
        if Updated(o, id, patch).Ok? {
          UpdateKeepsCodes(o, id, patch);
        }
      case DeleteRequest(id, listing) =>
        if Active(o, id) {
          DeleteKeepsCodes(o, id, Members(listing));
        }
    }
  }

  /** Main result over every sensible run: the hierarchy stays acyclic, no active employee
      points at a deleted manager, and codes stay distinct. */
  lemma {:induction false} HierarchyOverRuns(o: Org, qs: seq<Request>)
    requires Acyclic(o) && Closed(o) && CodesDistinct(o) && SensibleRun(o, qs)
    ensures Acyclic(HandledAll(o, qs)) && Closed(HandledAll(o, qs)) && CodesDistinct(HandledAll(o, qs))
    decreases |qs|
  {
    if qs != [] {
      RequestKeepsHierarchy(o, qs[0]);
      RequestKeepsCodes(o, qs[0]);
      HierarchyOverRuns(Handled(o, qs[0]), qs[1..]);
    }
  }
}
