/** `auth.py`: login, refresh-token rotation and logout. Signing and expiry of tokens are
    outside: a refresh request carries the claims its token decodes to, or none. */
module Auth {
  import opened Text

  type Id = nat
  type Jti = nat

  const MAX_FAILED: nat := 5

  datatype Employee = Employee(active: bool, failedLogins: nat, tokenVersion: nat)

  /** A registered refresh token. */
  datatype Row = Row(owner: Id, revoked: bool)

  datatype Claims = Claims(subject: Id, version: nat, jti: Option<Jti>)

  datatype State = State(employees: map<Id, Employee>, tokens: map<Jti, Row>)

  datatype AuthError = InvalidCredentials | Disabled | Locked | InvalidToken | NoAccount | Revoked

  // ---------------------------------------------------------------------
  // The operations
  // ---------------------------------------------------------------------

  /** `_issue_tokens`: a new row, and a token that names it. */
  function Issued(s: State, e: Id, jti: Jti): State {
    s.(tokens := s.tokens[jti := Row(e, false)])
  }

  /** `login`, once the address is looked up and the password compared; `jti` is the new
      token's identifier. A failed attempt is counted, and committed. */
  function LoginStep(s: State, found: Option<Id>, passwordOk: bool, jti: Jti): (State, Result<Claims, AuthError>) {
    if found.None? || found.value !in s.employees then (s, Err(InvalidCredentials))
    else
      var emp := s.employees[found.value];
      if !emp.active then (s, Err(Disabled))
      else if emp.failedLogins >= MAX_FAILED then (s, Err(Locked))
      else if !passwordOk then
        (s.(employees := s.employees[found.value := emp.(failedLogins := emp.failedLogins + 1)]), Err(InvalidCredentials))
      else
        (Issued(s.(employees := s.employees[found.value := emp.(failedLogins := 0)]), found.value, jti),
         Ok(Claims(found.value, emp.tokenVersion, Some(jti))))
  }

  /** `refresh`; the claims are None when the token does not decode. */
  function RefreshStep(s: State, claims: Option<Claims>, jti: Jti): (State, Result<Claims, AuthError>) {
    if claims.None? then (s, Err(InvalidToken))
    else
      var c := claims.value;
      if c.subject !in s.employees || !s.employees[c.subject].active then (s, Err(NoAccount))
      else if c.version != s.employees[c.subject].tokenVersion then (s, Err(Revoked))
      else
        var renewed := Ok(Claims(c.subject, c.version, Some(jti)));
        if c.jti.None? then (Issued(s, c.subject, jti), renewed)
        else if c.jti.value !in s.tokens || s.tokens[c.jti.value].revoked then (s, Err(Revoked))
        else
          (Issued(s.(tokens := s.tokens[c.jti.value := s.tokens[c.jti.value].(revoked := true)]), c.subject, jti), renewed)
  }

  /** `logout`: the version moves on and every row of the employee is revoked. */
  function LogoutStep(s: State, e: Id): State {
    if e !in s.employees then s
    else
      State(s.employees[e := s.employees[e].(tokenVersion := s.employees[e].tokenVersion + 1)],
            map j | j in s.tokens :: if s.tokens[j].owner == e then s.tokens[j].(revoked := true) else s.tokens[j])
  }

  class AuthService {
    var state: State

    constructor (s: State)
      ensures state == s
    {
      state := s;
    }

    method Login(found: Option<Id>, passwordOk: bool, jti: Jti) returns (r: Result<Claims, AuthError>)
      modifies this
      ensures (state, r) == LoginStep(old(state), found, passwordOk, jti)
    {
      if found.None? || found.value !in state.employees {
        return Err(InvalidCredentials);
      }
      var e := found.value;
      var emp := state.employees[e];
      if !emp.active {
        return Err(Disabled);
      }
      if emp.failedLogins >= MAX_FAILED {
        return Err(Locked);
      }
      if !passwordOk {
        state := state.(employees := state.employees[e := emp.(failedLogins := emp.failedLogins + 1)]);
        return Err(InvalidCredentials);
      }
      state := state.(employees := state.employees[e := emp.(failedLogins := 0)]);
      state := Issued(state, e, jti);
      return Ok(Claims(e, emp.tokenVersion, Some(jti)));
    }

    method Refresh(claims: Option<Claims>, jti: Jti) returns (r: Result<Claims, AuthError>)
      modifies this
      ensures (state, r) == RefreshStep(old(state), claims, jti)
    {
      if claims.None? {
        return Err(InvalidToken);
      }
      var c := claims.value;
      if c.subject !in state.employees || !state.employees[c.subject].active {
        return Err(NoAccount);
      }
      if c.version != state.employees[c.subject].tokenVersion {
        return Err(Revoked);
      }
      if c.jti.Some? {
        if c.jti.value !in state.tokens || state.tokens[c.jti.value].revoked {
          return Err(Revoked);
        }
        var row := state.tokens[c.jti.value];
        state := state.(tokens := state.tokens[c.jti.value := row.(revoked := true)]);
      }
      state := Issued(state, c.subject, jti);
      return Ok(Claims(c.subject, c.version, Some(jti)));
    }

    method Logout(e: Id)
      modifies this
      ensures state == LogoutStep(old(state), e)
    {
      if e in state.employees {
        ghost var start := state;
        var emp := state.employees[e];
        state := state.(employees := state.employees[e := emp.(tokenVersion := emp.tokenVersion + 1)]);
        var rows: set<Jti> := set j: Jti | j in state.tokens && state.tokens[j].owner == e && !state.tokens[j].revoked;
        while rows != {}
          invariant state.employees == LogoutStep(start, e).employees && state.tokens.Keys == start.tokens.Keys
          invariant forall j :: j in rows ==> j in start.tokens && start.tokens[j].owner == e
          invariant forall j :: j in start.tokens ==>
                      state.tokens[j] == if j in rows then start.tokens[j] else LogoutStep(start, e).tokens[j]
          decreases |rows|
        {
          var j: Jti :| j in rows;
          state := state.(tokens := state.tokens[j := state.tokens[j].(revoked := true)]);
          rows := rows - {j};
        }
        assert state.tokens == LogoutStep(start, e).tokens;
      }
    }
  }

  // ---------------------------------------------------------------------
  // One operation
  // ---------------------------------------------------------------------

  /** The employee's rows that are not revoked. */
  function Live(s: State, e: Id): set<Jti> {
    set j: Jti | j in s.tokens && s.tokens[j].owner == e && !s.tokens[j].revoked
  }

  /** Main result for a login: it is accepted if and only if the employee exists, is active, has
      fewer than five failures counted and the password is right. Only then it issues a token, the
      one it answers with; a wrong password, and nothing else, is counted, and an accepted login
      sets the count back. */
  lemma LoginExactly(s: State, found: Option<Id>, passwordOk: bool, jti: Jti)
    ensures var (s', r) := LoginStep(s, found, passwordOk, jti);
            var known := found.Some? && found.value in s.employees;
            && (r.Ok? <==> known && s.employees[found.value].active && s.employees[found.value].failedLogins < 5 && passwordOk)
            && (r == Err(Disabled) <==> known && !s.employees[found.value].active)
            && (r == Err(Locked) <==> known && s.employees[found.value].active && s.employees[found.value].failedLogins >= 5)
            && (r.Ok? || r.error in {InvalidCredentials, Disabled, Locked})
            && (r.Err? ==> s'.tokens == s.tokens)
            && (r.Ok? ==> r.value.subject == found.value && r.value.jti == Some(jti)
                          && r.value.version == s.employees[found.value].tokenVersion
                          && s'.tokens == s.tokens[jti := Row(found.value, false)])
            && s'.employees.Keys == s.employees.Keys
            && forall e :: e in s.employees ==>
                 && s'.employees[e].active == s.employees[e].active && s'.employees[e].tokenVersion == s.employees[e].tokenVersion
                 && s'.employees[e].failedLogins ==
                      if found != Some(e) then s.employees[e].failedLogins
                      else if r.Ok? then 0
                      else if r == Err(InvalidCredentials) then s.employees[e].failedLogins + 1
                      else s.employees[e].failedLogins
  {
  }

  /** And for a refresh: it is accepted if and only if the token decodes, its employee exists and is
      active, it is of the employee's current version, and the row that it names, if it names one, is
      there and not revoked. Then exactly that row is revoked, and the answer is a new token of the
      same employee and version. */
  lemma RefreshExactly(s: State, claims: Option<Claims>, jti: Jti)
    requires jti !in s.tokens
    ensures var (s', r) := RefreshStep(s, claims, jti);
            && (r.Ok? <==>
                  && claims.Some? && claims.value.subject in s.employees && s.employees[claims.value.subject].active
                  && claims.value.version == s.employees[claims.value.subject].tokenVersion
                  && (claims.value.jti.Some? ==> claims.value.jti.value in s.tokens && !s.tokens[claims.value.jti.value].revoked))
            && s'.employees == s.employees && (r.Err? ==> s' == s)
            && (r.Ok? ==>
                  && r.value == claims.value.(jti := Some(jti)) && s'.tokens.Keys == s.tokens.Keys + {jti}
                  && s'.tokens[jti] == Row(claims.value.subject, false)
                  && forall j :: j in s.tokens ==>
                       && s'.tokens[j].owner == s.tokens[j].owner
                       && (s'.tokens[j].revoked <==> s.tokens[j].revoked || claims.value.jti == Some(j)))
  {
  }

  /** After a logout no token of an earlier version is accepted. */
  lemma LogoutOutdates(s: State, e: Id, c: Claims, jti: Jti)
    requires e in s.employees && c.subject == e && c.version <= s.employees[e].tokenVersion
    ensures RefreshStep(LogoutStep(s, e), Some(c), jti).1.Err?
    ensures LogoutStep(s, e).employees.Keys == s.employees.Keys && LogoutStep(s, e).tokens.Keys == s.tokens.Keys
    ensures forall x :: x in s.employees && x != e ==> LogoutStep(s, e).employees[x] == s.employees[x]
  {
  }

  /** A login adds one live token of the employee and touches nobody else's. */
  lemma LoginAddsOne(s: State, found: Option<Id>, passwordOk: bool, jti: Jti)
    requires jti !in s.tokens
    ensures var (s', r) := LoginStep(s, found, passwordOk, jti);
            forall e: Id :: |Live(s', e)| == |Live(s, e)| + if r.Ok? && found == Some(e) then 1 else 0
  {
    var (s', r) := LoginStep(s, found, passwordOk, jti);
    forall e: Id ensures |Live(s', e)| == |Live(s, e)| + if r.Ok? && found == Some(e) then 1 else 0 {
      assert Live(s', e) == if r.Ok? && found == Some(e) then Live(s, e) + {jti} else Live(s, e);
    }
  }

  /** Main result: an accepted refresh keeps the number of live tokens of every employee if and
      only if its token names a row of its own subject. (A token without a row identifier is
      accepted and adds one.) */
  lemma RefreshKeepsCount(s: State, claims: Option<Claims>, jti: Jti)
    requires jti !in s.tokens && RefreshStep(s, claims, jti).1.Ok?
    ensures (forall e: Id :: |Live(RefreshStep(s, claims, jti).0, e)| == |Live(s, e)|)
            <==> claims.value.jti.Some? && s.tokens[claims.value.jti.value].owner == claims.value.subject
  {
    var c := claims.value;
    forall e: Id ensures |Live(RefreshStep(s, claims, jti).0, e)| == |Live(s, e)| + Gain(s, c, e) {
      RefreshCount(s, c, jti, e);
    }
    assert Gain(s, c, c.subject) == 0 <==> c.jti.Some? && s.tokens[c.jti.value].owner == c.subject;
  }

  /** What an accepted refresh adds to an employee's live tokens: the new one, less the spent one. */
  function Gain(s: State, c: Claims, e: Id): int {
    (if e == c.subject then 1 else 0)
    - (if c.jti.Some? && c.jti.value in s.tokens && s.tokens[c.jti.value].owner == e then 1 else 0)
  }

  lemma IssuedCount(s: State, x: Id, jti: Jti, e: Id)
    requires jti !in s.tokens
    ensures |Live(Issued(s, x, jti), e)| == |Live(s, e)| + if e == x then 1 else 0
  {
    assert Live(Issued(s, x, jti), e) == if e == x then Live(s, e) + {jti} else Live(s, e);
  }

  lemma SpentCount(s: State, j: Jti, e: Id)
    requires j in s.tokens && !s.tokens[j].revoked
    ensures var s' := s.(tokens := s.tokens[j := s.tokens[j].(revoked := true)]);
            |Live(s', e)| == |Live(s, e)| - if s.tokens[j].owner == e then 1 else 0
  {
    var s' := s.(tokens := s.tokens[j := s.tokens[j].(revoked := true)]);
    if s.tokens[j].owner == e {
      assert Live(s, e) == Live(s', e) + {j};
    } else {
      assert Live(s, e) == Live(s', e);
    }
  }

  lemma RefreshCount(s: State, c: Claims, jti: Jti, e: Id)
    requires jti !in s.tokens && RefreshStep(s, Some(c), jti).1.Ok?
    ensures |Live(RefreshStep(s, Some(c), jti).0, e)| == |Live(s, e)| + Gain(s, c, e)
  {
    if c.jti.Some? {
      var j := c.jti.value;
      SpentCount(s, j, e);
      IssuedCount(s.(tokens := s.tokens[j := s.tokens[j].(revoked := true)]), c.subject, jti, e);
    } else {
      IssuedCount(s, c.subject, jti, e);
    }
  }

  /** A logout leaves the employee no live token, and the others theirs. */
  lemma LogoutZeroes(s: State, e: Id)
    requires e in s.employees
    ensures Live(LogoutStep(s, e), e) == {}
    ensures forall x :: x != e ==> Live(LogoutStep(s, e), x) == Live(s, x)
  {
  }

  // ---------------------------------------------------------------------
  // Runs
  // ---------------------------------------------------------------------

  datatype Event =
    | LoginEvent(found: Option<Id>, passwordOk: bool, jti: Jti)
    | RefreshEvent(claims: Option<Claims>, jti: Jti)
    | LogoutEvent(employee: Id)
    | SetActive(employee: Id, active: bool)

  function Step(s: State, e: Event): State {
    match e
    case LoginEvent(found, ok, jti) => LoginStep(s, found, ok, jti).0
    case RefreshEvent(claims, jti) => RefreshStep(s, claims, jti).0
    case LogoutEvent(id) => LogoutStep(s, id)
    case SetActive(id, active) =>
      if id in s.employees then s.(employees := s.employees[id := s.employees[id].(active := active)]) else s
  }

  /** New identifiers are new. */
  predicate FreshIds(s: State, e: Event) {
    (e.LoginEvent? || e.RefreshEvent?) ==> e.jti !in s.tokens
  }

  function After(s: State, es: seq<Event>): State {
    if es == [] then s else Step(After(s, es[..|es| - 1]), es[|es| - 1])
  }

  ghost predicate IsRun(s: State, es: seq<Event>) {
    forall i :: 0 <= i < |es| ==> FreshIds(After(s, es[..i]), es[i])
  }

  /** Step `i` of the run redeems the token `j`. */
  ghost predicate Redeems(s: State, es: seq<Event>, i: nat, j: Jti)
    requires i < |es|
  {
    && es[i].RefreshEvent? && es[i].claims.Some? && es[i].claims.value.jti == Some(j)
    && RefreshStep(After(s, es[..i]), es[i].claims, es[i].jti).1.Ok?
  }

  /** The wrong passwords of the employee since its last accepted login, as the answers tell. */
  function WrongSince(s: State, es: seq<Event>, e: Id): nat {
    if es == [] then 0
    else
      var before, last := es[..|es| - 1], es[|es| - 1];
      if last.LoginEvent? && last.found == Some(e) then
        match LoginStep(After(s, before), last.found, last.passwordOk, last.jti).1
        case Ok(_) => 0
        case Err(InvalidCredentials) => WrongSince(s, before, e) + 1
        case Err(_) => WrongSince(s, before, e)
      else WrongSince(s, before, e)
  }

  lemma {:induction false} CountIsWrong(s: State, es: seq<Event>, e: Id)
    requires e in s.employees && s.employees[e].failedLogins == 0
    ensures e in After(s, es).employees && After(s, es).employees[e].failedLogins == WrongSince(s, es, e)
  {
    if es != [] {
      var before, last := es[..|es| - 1], es[|es| - 1];
      CountIsWrong(s, before, e);
      if last.LoginEvent? {
        LoginExactly(After(s, before), last.found, last.passwordOk, last.jti);
      }
    }
  }

  /** Main result over every run: a login of an active employee is refused as locked if and only if
      five wrong passwords were given since its last accepted login, */
  lemma LockedExactly(s: State, es: seq<Event>, e: Id, passwordOk: bool, jti: Jti)
    requires e in s.employees && s.employees[e].failedLogins == 0
    ensures e in After(s, es).employees
    ensures After(s, es).employees[e].active ==>
              (LoginStep(After(s, es), Some(e), passwordOk, jti).1 == Err(Locked) <==> WrongSince(s, es, e) >= 5)
    ensures WrongSince(s, es, e) <= 5
  {
    CountIsWrong(s, es, e);
    AtMostFive(s, es, e);
  }

  lemma {:induction false} AtMostFive(s: State, es: seq<Event>, e: Id)
    requires e in s.employees && s.employees[e].failedLogins == 0
    ensures WrongSince(s, es, e) <= 5
  {
    if es != [] {
      AtMostFive(s, es[..|es| - 1], e);
      CountIsWrong(s, es[..|es| - 1], e);
    }
  }

  /** and nothing unlocks it again. */
  lemma {:induction false} LockedForever(s: State, es: seq<Event>, e: Id)
    requires e in s.employees && s.employees[e].failedLogins >= 5
    ensures e in After(s, es).employees && After(s, es).employees[e].failedLogins == s.employees[e].failedLogins
    ensures forall passwordOk, jti :: LoginStep(After(s, es), Some(e), passwordOk, jti).1.Err?
  {
    if es != [] {
      var before, last := es[..|es| - 1], es[|es| - 1];
      LockedForever(s, before, e);
    }
  }

  ghost predicate Spent(s: State, j: Jti) {
    j in s.tokens && s.tokens[j].revoked
  }

  /** A revoked token stays revoked. */
  lemma {:induction false} SpentForever(s: State, es: seq<Event>, i: nat, k: nat, j: Jti)
    requires IsRun(s, es) && i <= k <= |es| && Spent(After(s, es[..i]), j)
    ensures Spent(After(s, es[..k]), j)
    decreases k
  {
    if i < k {
      hide Step;
      SpentForever(s, es, i, k - 1, j);
      assert es[..k][..k - 1] == es[..k - 1];
      assert FreshIds(After(s, es[..k - 1]), es[k - 1]);
      assert After(s, es[..k]) == Step(After(s, es[..k - 1]), es[k - 1]);
      SpentStep(After(s, es[..k - 1]), es[k - 1], j);
    }
  }

  lemma SpentStep(s: State, e: Event, j: Jti)
    requires FreshIds(s, e) && Spent(s, j)
    ensures Spent(Step(s, e), j)
  {
  }

  /** Main result: over every run a refresh token is redeemed at most once. */
  lemma RedeemedAtMostOnce(s: State, es: seq<Event>, i: nat, k: nat, j: Jti)
    requires IsRun(s, es) && i < |es| && k < |es| && Redeems(s, es, i, j) && Redeems(s, es, k, j)
    ensures i == k
  {
    if i < k {
      NotRedeemedAgain(s, es, i, k, j);
    } else if k < i {
      NotRedeemedAgain(s, es, k, i, j);
    }
  }

  lemma NotRedeemedAgain(s: State, es: seq<Event>, i: nat, k: nat, j: Jti)
    requires IsRun(s, es) && i < k < |es| && Redeems(s, es, i, j)
    ensures !Redeems(s, es, k, j)
  {
    assert es[..i + 1][..i] == es[..i];
    assert FreshIds(After(s, es[..i]), es[i]);
    SpentForever(s, es, i + 1, k, j);
  }

  /** Main result: and never after a later logout of its owner. */
  lemma NeverAfterLogout(s: State, es: seq<Event>, i: nat, k: nat, j: Jti)
    requires IsRun(s, es) && i < k < |es| && es[i].LogoutEvent? && es[i].employee in After(s, es[..i]).employees
    requires j in After(s, es[..i]).tokens && After(s, es[..i]).tokens[j].owner == es[i].employee
    ensures !Redeems(s, es, k, j)
  {
    assert es[..i + 1][..i] == es[..i];
    SpentForever(s, es, i + 1, k, j);
  }

  // ---------------------------------------------------------------------
  // Overlapping refreshes
  // ---------------------------------------------------------------------

  type Session = nat

  /** What an accepted refresh writes, whatever became of the rows since its checks. */
  function Rotated(s: State, c: Claims, jti: Jti): State {
    var spent := if c.jti.Some? && c.jti.value in s.tokens
                 then s.(tokens := s.tokens[c.jti.value := s.tokens[c.jti.value].(revoked := true)]) else s;
    Issued(spent, c.subject, jti)
  }

  predicate Accepts(s: State, c: Claims) {
    RefreshStep(s, Some(c), 0).1.Ok?
  }

  /** A refresh served with nothing between its checks and its write is the step of the service. */
  lemma UnmovedRefresh(s: State, c: Claims, jti: Jti)
    requires Accepts(s, c)
    ensures RefreshStep(s, Some(c), jti) == (Rotated(s, c, jti), Ok(Claims(c.subject, c.version, Some(jti))))
  {
  }

  /** A request served at once, or the checks or the write of a refresh. */
  datatype Move = Serve(e: Event) | Check(s: Session, c: Claims) | Write(s: Session, jti: Jti)

  /** `held` are the refreshes whose checks passed; `redeemed` the tokens redeemed so far, and
      `closed` those whose owner was logged out. */
  datatype Race = Race(state: State, held: map<Session, Claims>, redeemed: set<Jti>, closed: set<Jti>)

  function Named(c: Claims): set<Jti> {
    if c.jti.Some? then {c.jti.value} else {}
  }

  /** The token that the move redeems, if it redeems one. */
  function Redeemed(r: Race, m: Move): set<Jti> {
    match m
    case Serve(RefreshEvent(Some(c), _)) => if Accepts(r.state, c) then Named(c) else {}
    case Write(s, _) => if s in r.held then Named(r.held[s]) else {}
    case _ => {}
  }

  function Closed(r: Race, m: Move): set<Jti> {
    match m
    case Serve(LogoutEvent(e)) => if e in r.state.employees then set j | j in r.state.tokens && r.state.tokens[j].owner == e else {}
    case _ => {}
  }

  function Moved(r: Race, m: Move): Race {
    var r' := r.(redeemed := r.redeemed + Redeemed(r, m), closed := r.closed + Closed(r, m));
    match m
    case Serve(e) => r'.(state := Step(r.state, e))
    case Check(s, c) => if s !in r.held && Accepts(r.state, c) then r'.(held := r.held[s := c]) else r'
    case Write(s, jti) =>
      if s in r.held then r'.(state := Rotated(r.state, r.held[s], jti), held := r.held - {s}) else r'
  }

  function MovedAll(s: State, ms: seq<Move>): Race {
    if ms == [] then Race(s, map[], {}, {}) else Moved(MovedAll(s, ms[..|ms| - 1]), ms[|ms| - 1])
  }

  predicate NewId(r: Race, m: Move) {
    match m
    case Serve(e) => FreshIds(r.state, e)
    case Check(_, _) => true
    case Write(_, jti) => jti !in r.state.tokens
  }

  predicate NewIds(s: State, ms: seq<Move>) {
    ms == [] || (NewIds(s, ms[..|ms| - 1]) && NewId(MovedAll(s, ms[..|ms| - 1]), ms[|ms| - 1]))
  }

  /** No token is redeemed that was redeemed before, or whose owner was logged out before. */
  predicate Promised(s: State, ms: seq<Move>) {
    ms == [] || (var r, m := MovedAll(s, ms[..|ms| - 1]), ms[|ms| - 1];
                 Promised(s, ms[..|ms| - 1]) && Redeemed(r, m) !! r.redeemed + r.closed)
  }

  /** The write of a refresh finds the row of its token unrevoked. */
  predicate FindsLive(r: Race, m: Move) {
    m.Write? && m.s in r.held ==> forall j :: j in Named(r.held[m.s]) && j in r.state.tokens ==> !r.state.tokens[j].revoked
  }

  predicate AllFindLive(s: State, ms: seq<Move>) {
    ms == [] || (AllFindLive(s, ms[..|ms| - 1]) && FindsLive(MovedAll(s, ms[..|ms| - 1]), ms[|ms| - 1]))
  }

  ghost predicate RaceOk(r: Race) {
    && (forall j :: j in r.redeemed + r.closed ==> Spent(r.state, j))
    && forall s, j :: s in r.held && j in Named(r.held[s]) ==>
         j in r.state.tokens && (r.state.tokens[j].revoked ==> j in r.redeemed + r.closed)
  }

  lemma RaceStep(r: Race, m: Move)
    requires RaceOk(r) && NewId(r, m)
    ensures RaceOk(Moved(r, m))
    ensures Redeemed(r, m) !! r.redeemed + r.closed <==> FindsLive(r, m)
  {
    hide RaceOk, Step, Rotated;
    match m
    case Serve(e) => ServeStep(r, e);
    case Check(s, c) => CheckStep(r, s, c);
    case Write(s, jti) =>
      if s in r.held { WriteStep(r, s, jti); } else { assert Moved(r, m) == r; }
  }

  lemma ServeStep(r: Race, e: Event)
    requires RaceOk(r) && FreshIds(r.state, e)
    ensures RaceOk(Moved(r, Serve(e))) && Redeemed(r, Serve(e)) !! r.redeemed + r.closed
  {
    var r' := Moved(r, Serve(e));
    forall j | j in r.redeemed + r.closed ensures Spent(r'.state, j) {
      SpentStep(r.state, e, j);
    }
    StepRevokes(r, e);
  }

  /** A request revokes a row by redeeming its token or by logging its owner out. */
  lemma StepRevokes(r: Race, e: Event)
    requires FreshIds(r.state, e)
    ensures forall j :: j in r.state.tokens ==>
              && j in Step(r.state, e).tokens
              && (Spent(Step(r.state, e), j) <==> Spent(r.state, j) || j in Redeemed(r, Serve(e)) + Closed(r, Serve(e)))
    ensures forall j :: j in Redeemed(r, Serve(e)) ==> j in r.state.tokens && !Spent(r.state, j)
  {
  }

  lemma CheckStep(r: Race, s: Session, c: Claims)
    requires RaceOk(r)
    ensures RaceOk(Moved(r, Check(s, c)))
  {
  }

  lemma WriteStep(r: Race, s: Session, jti: Jti)
    requires RaceOk(r) && jti !in r.state.tokens && s in r.held
    ensures RaceOk(Moved(r, Write(s, jti)))
    ensures Redeemed(r, Write(s, jti)) !! r.redeemed + r.closed <==> FindsLive(r, Write(s, jti))
  {
    hide Rotated;
    RotatedRevokes(r.state, r.held[s], jti);
  }

  lemma RotatedRevokes(s: State, c: Claims, jti: Jti)
    requires jti !in s.tokens
    ensures forall j :: j in s.tokens ==>
              j in Rotated(s, c, jti).tokens && (Spent(Rotated(s, c, jti), j) <==> Spent(s, j) || j in Named(c))
  {
  }

  lemma {:induction false} RaceRuns(s: State, ms: seq<Move>)
    requires NewIds(s, ms)
    ensures RaceOk(MovedAll(s, ms)) && (Promised(s, ms) <==> AllFindLive(s, ms))
  {
    if ms != [] {
      RaceRuns(s, ms[..|ms| - 1]);
      RaceStep(MovedAll(s, ms[..|ms| - 1]), ms[|ms| - 1]);
    }
  }

  /** Main result over every interleaving of requests with the checks and writes of refreshes:
      tokens are redeemed at most once, and never after a logout of their owner, if and only if
      every write of a refresh finds the row of its token unrevoked. */
  lemma OnceIfFoundLive(s: State, ms: seq<Move>)
    requires NewIds(s, ms)
    ensures Promised(s, ms) <==> AllFindLive(s, ms)
  {
    RaceRuns(s, ms);
  }

  lemma MovedSnoc(s: State, ms: seq<Move>, m: Move)
    ensures MovedAll(s, ms + [m]) == Moved(MovedAll(s, ms), m)
    ensures NewIds(s, ms + [m]) <==> NewIds(s, ms) && NewId(MovedAll(s, ms), m)
    ensures Promised(s, ms + [m]) ==> Redeemed(MovedAll(s, ms), m) !! MovedAll(s, ms).redeemed
  {
    assert (ms + [m])[..|ms|] == ms;
  }

  /** When two refreshes of one token both read its row before either writes it, both are accepted
      and both new tokens live; served one after the other the second is refused. */
  lemma RacingRefreshes(s: State, c: Claims, a: Jti, b: Jti)
    requires c.jti.Some? && Accepts(s, c) && a !in s.tokens && b !in s.tokens && a != b
    ensures var ms := [] + [Check(0, c)] + [Check(1, c)] + [Write(0, a)] + [Write(1, b)];
            NewIds(s, ms) && !Promised(s, ms) && {a, b} <= Live(MovedAll(s, ms).state, c.subject)
    ensures RefreshStep(Rotated(s, c, a), Some(c), b).1 == Err(Revoked)
  {
    hide MovedAll, NewIds, Promised;
    MovedNone(s);
    var checked := [] + [Check(0, c)] + [Check(1, c)];
    MovedSnoc(s, [], Check(0, c));
    MovedSnoc(s, [] + [Check(0, c)], Check(1, c));
    MovedSnoc(s, checked, Write(0, a));
    MovedSnoc(s, checked + [Write(0, a)], Write(1, b));
    assert MovedAll(s, checked) == Race(s, map[0 := c, 1 := c], {}, {});
    assert MovedAll(s, checked + [Write(0, a)]) == Race(Rotated(s, c, a), map[1 := c], {c.jti.value}, {});
  }

  lemma MovedNone(s: State)
    ensures NewIds(s, []) && MovedAll(s, []) == Race(s, map[], {}, {})
  {
  }

  /** The way around rotation: a token without an identifier, which this service no longer
      issues, is accepted again and again. */
  lemma TokenWithoutIdIsReusable(s: State, c: Claims, a: Jti, b: Jti)
    requires c.jti.None? && RefreshStep(s, Some(c), a).1.Ok?
    ensures RefreshStep(RefreshStep(s, Some(c), a).0, Some(c), b).1.Ok?
  {
  }
}
