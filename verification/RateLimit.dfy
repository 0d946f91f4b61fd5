/** `rate_limit.py`: per client and route group, a list of the hits of the last 60 seconds,
    pruned whenever the key is hit again. (Its documentation calls this a fixed window; the
    code slides the window with every hit, and rejected hits count as well.) */
module RateLimit {
  import opened Text

  const WINDOW := 60.0

  datatype Group = Auth | Default

  datatype Key = Key(ip: string, group: Group)

  datatype Settings = Settings(enabled: bool, authLimit: int, defaultLimit: int)

  datatype Request = Request(ip: Option<string>, path: string, now: real)

  function GroupOf(path: string): Group {
    if "/api/v1/auth" <= path then Auth else Default
  }

  function KeyOf(r: Request): Key {
    Key(if r.ip.Some? then r.ip.value else "unknown", GroupOf(r.path))
  }

  function LimitOf(s: Settings, k: Key): int {
    if k.group == Auth then s.authLimit else s.defaultLimit
  }

  /** `[t for t in hits if now - t < _WINDOW]`. */
  function Recent(hits: seq<real>, now: real): seq<real> {
    if hits == [] then []
    else
      var n := |hits| - 1;
      Recent(hits[..n], now) + if now - hits[n] < WINDOW then [hits[n]] else []
  }

  type Table = map<Key, seq<real>>

  function HitsOf(t: Table, k: Key): seq<real> {
    if k in t then t[k] else []
  }

  /** The table after a request, and whether the request was let through. */
  function Hit(s: Settings, t: Table, r: Request): (Table, bool) {
    if !s.enabled then (t, true)
    else
      var window := Recent(HitsOf(t, KeyOf(r)), r.now) + [r.now];
      (t[KeyOf(r) := window], |window| <= LimitOf(s, KeyOf(r)))
  }

  class RateLimiter {
    var hits: Table

    constructor ()
      ensures hits == map[]
    {
      hits := map[];
    }

    method Dispatch(settings: Settings, r: Request) returns (admitted: bool)
      modifies this
      ensures (hits, admitted) == Hit(settings, old(hits), r)
    {
      if !settings.enabled {
        return true;
      }
      var key := KeyOf(r);
      var window := Recent(HitsOf(hits, key), r.now);
      window := window + [r.now];
      hits := hits[key := window];
      if |window| > LimitOf(settings, key) {
        return false;
      }
      return true;
    }
  }

  // ---------------------------------------------------------------------
  // Runs
  // ---------------------------------------------------------------------

  function TableAfter(s: Settings, rs: seq<Request>): Table {
    if rs == [] then map[] else Hit(s, TableAfter(s, rs[..|rs| - 1]), rs[|rs| - 1]).0
  }

  /** The answer to request `i` of the run. */
  function Admitted(s: Settings, rs: seq<Request>, i: nat): bool
    requires i < |rs|
  {
    Hit(s, TableAfter(s, rs[..i]), rs[i]).1
  }

  /** `time.monotonic`. */
  predicate Monotone(rs: seq<Request>) {
    forall i, j :: 0 <= i < j < |rs| ==> rs[i].now <= rs[j].now
  }

  /** Every hit of the key, admitted or not. */
  function Times(rs: seq<Request>, k: Key): seq<real> {
    if rs == [] then []
    else
      var n := |rs| - 1;
      Times(rs[..n], k) + if KeyOf(rs[n]) == k then [rs[n].now] else []
  }

  lemma {:induction false} RecentConcat(a: seq<real>, b: seq<real>, now: real)
    ensures Recent(a + b, now) == Recent(a, now) + Recent(b, now)
    decreases |b|
  {
    if b == [] {
      assert a + b == a;
    } else {
      var n := |b| - 1;
      assert (a + b)[..|a| + n] == a + b[..n];
      RecentConcat(a, b[..n], now);
    }
  }

  /** Pruning earlier does not change what a later pruning keeps. */
  lemma {:induction false} PruneTwice(hits: seq<real>, t: real, now: real)
    requires t <= now
    ensures Recent(Recent(hits, t), now) == Recent(hits, now)
  {
    if hits != [] {
      var n := |hits| - 1;
      PruneTwice(hits[..n], t, now);
      var last := if t - hits[n] < WINDOW then [hits[n]] else [];
      RecentConcat(Recent(hits[..n], t), last, now);
      assert Recent(last, now) == if now - hits[n] < WINDOW then [hits[n]] else [];
    }
  }

  /** However old the pruning of a key's list, a fresh pruning of it is a pruning of the whole
      history of the key. */
  lemma {:induction false} ListIsHistory(s: Settings, rs: seq<Request>, k: Key, now: real)
    requires s.enabled && Monotone(rs) && forall i :: 0 <= i < |rs| ==> rs[i].now <= now
    ensures Recent(HitsOf(TableAfter(s, rs), k), now) == Recent(Times(rs, k), now)
    decreases |rs|
  {
    if rs != [] {
      var n := |rs| - 1;
      var front, last := rs[..n], rs[n];
      var before := HitsOf(TableAfter(s, front), k);
      ListIsHistory(s, front, k, now);
      if KeyOf(last) == k {
        RecentConcat(Recent(before, last.now), [last.now], now);
        PruneTwice(before, last.now, now);
        RecentConcat(Times(front, k), [last.now], now);
        assert HitsOf(TableAfter(s, rs), k) == Recent(before, last.now) + [last.now];
      } else {
        assert HitsOf(TableAfter(s, rs), k) == before && Times(rs, k) == Times(front, k);
      }
    }
  }

  /** Main result: right after a request its key's list is exactly the full hit history of the
      key, filtered to the last 60 seconds. */
  lemma PrunedListIsWindow(s: Settings, rs: seq<Request>)
    requires s.enabled && Monotone(rs) && rs != []
    ensures var last := rs[|rs| - 1];
            HitsOf(TableAfter(s, rs), KeyOf(last)) == Recent(Times(rs, KeyOf(last)), last.now)
  {
    var n := |rs| - 1;
    var last, k := rs[n], KeyOf(rs[n]);
    ListIsHistory(s, rs[..n], k, last.now);
    RecentConcat(Times(rs[..n], k), [last.now], last.now);
    assert Recent([last.now], last.now) == [last.now];
  }

  lemma AdmittedByHistory(s: Settings, rs: seq<Request>, i: nat)
    requires s.enabled && Monotone(rs) && i < |rs|
    ensures Admitted(s, rs, i)
            <==> |Recent(Times(rs[..i + 1], KeyOf(rs[i])), rs[i].now)| <= LimitOf(s, KeyOf(rs[i]))
  {
    assert rs[..i + 1][..i] == rs[..i];
    PrunedListIsWindow(s, rs[..i + 1]);
  }

  lemma RecentSnoc(rs: seq<Request>, k: Key, now: real)
    requires rs != []
    ensures var n := |rs| - 1;
            |Recent(Times(rs, k), now)| == |Recent(Times(rs[..n], k), now)|
              + if KeyOf(rs[n]) == k && now - rs[n].now < WINDOW then 1 else 0
  {
    var n := |rs| - 1;
    if KeyOf(rs[n]) == k {
      RecentConcat(Times(rs[..n], k), [rs[n].now], now);
    } else {
      assert Times(rs, k) == Times(rs[..n], k);
    }
  }

  /** The requests that count against request `i`: of the same client, known or not, and the same
      route group, made in the 60 seconds before it, and it itself. */
  predicate CountsAgainst(rs: seq<Request>, i: nat, j: nat)
    requires i < |rs|
  {
    && j <= i && rs[i].now - rs[j].now < 60.0
    && (rs[j].ip == rs[i].ip || (rs[j].ip in {None, Some("unknown")} && rs[i].ip in {None, Some("unknown")}))
    && ("/api/v1/auth" <= rs[j].path <==> "/api/v1/auth" <= rs[i].path)
  }

  function Counting(rs: seq<Request>, i: nat): set<nat>
    requires i < |rs|
  {
    set j: nat | j <= i && CountsAgainst(rs, i, j)
  }

  /** Main result: the limiter lets a request through if and only if it is switched off, or no more
      requests count against it than the limit of its route group allows. */
  lemma AdmittedExactly(s: Settings, rs: seq<Request>, i: nat)
    requires Monotone(rs) && i < |rs|
    ensures Admitted(s, rs, i) <==>
              !s.enabled || |Counting(rs, i)| <= if "/api/v1/auth" <= rs[i].path then s.authLimit else s.defaultLimit
  {
    hide Recent, Times, TableAfter, Monotone, CountsAgainst;
    if s.enabled {
      AdmittedByHistory(s, rs, i);
      CountIsWindow(rs[..i + 1], KeyOf(rs[i]), rs[i].now);
      CountingIsRecent(rs, i);
    }
  }

  lemma CountingIsRecent(rs: seq<Request>, i: nat)
    requires i < |rs|
    ensures RecentHits(rs[..i + 1], KeyOf(rs[i]), rs[i].now) == Counting(rs, i)
  {
    forall j: nat | j <= i ensures RecentHit(rs[..i + 1], KeyOf(rs[i]), rs[i].now, j) <==> CountsAgainst(rs, i, j) {
      assert rs[..i + 1][j] == rs[j];
    }
  }

  function RecentHits(rs: seq<Request>, k: Key, now: real): set<nat> {
    set j: nat | j < |rs| && RecentHit(rs, k, now, j)
  }

  lemma {:induction false} CountIsWindow(rs: seq<Request>, k: Key, now: real)
    ensures |Recent(Times(rs, k), now)| == |RecentHits(rs, k, now)|
    decreases |rs|
  {
    if rs == [] {
      assert RecentHits(rs, k, now) == {};
    } else {
      var n := |rs| - 1;
      hide Recent, Times;
      CountIsWindow(rs[..n], k, now);
      RecentSnoc(rs, k, now);
      HitsSnoc(rs, k, now);
    }
  }

  lemma HitsSnoc(rs: seq<Request>, k: Key, now: real)
    requires rs != []
    ensures var n := |rs| - 1;
            n !in RecentHits(rs[..n], k, now)
            && RecentHits(rs, k, now) == RecentHits(rs[..n], k, now) + if RecentHit(rs, k, now, n) then {n} else {}
  {
    var n := |rs| - 1;
    forall j: nat | j < n ensures RecentHit(rs, k, now, j) <==> RecentHit(rs[..n], k, now, j) {
      assert rs[..n][j] == rs[j];
    }
  }

  /** A hit of the key among the requests, recent at `now`. */
  predicate RecentHit(rs: seq<Request>, k: Key, now: real, i: nat) {
    i < |rs| && KeyOf(rs[i]) == k && now - rs[i].now < WINDOW
  }

  /** A set of hits of the key, all recent, is no larger than the recent history. */
  lemma {:induction false} SetWithinWindow(rs: seq<Request>, k: Key, now: real, hits: set<nat>)
    requires forall i :: i in hits ==> RecentHit(rs, k, now, i)
    ensures |hits| <= |Recent(Times(rs, k), now)|
    decreases |rs|
  {
    if rs == [] {
      assert hits == {};
    } else {
      var n := |rs| - 1;
      var rest := hits - {n};
      forall i | i in rest ensures RecentHit(rs[..n], k, now, i) {
        assert RecentHit(rs, k, now, i);
      }
      SetWithinWindow(rs[..n], k, now, rest);
      RecentSnoc(rs, k, now);
      if n in hits {
        assert hits == rest + {n} && RecentHit(rs, k, now, n);
      } else {
        assert hits == rest;
      }
    }
  }

  /** Main result: no set of admitted requests of one key that spans less than 60 seconds is
      larger than the limit. */
  lemma WindowNeverExceeded(s: Settings, rs: seq<Request>, k: Key, hits: set<nat>, last: nat)
    requires s.enabled && Monotone(rs)
    requires forall i :: i in hits ==> i < |rs| && KeyOf(rs[i]) == k && Admitted(s, rs, i)
    requires last in hits && forall i :: i in hits ==> i <= last
    requires forall i :: i in hits ==> rs[last].now - rs[i].now < WINDOW
    ensures |hits| <= LimitOf(s, k)
  {
    AdmittedByHistory(s, rs, last);
    forall i | i in hits ensures RecentHit(rs[..last + 1], k, rs[last].now, i) {}
    SetWithinWindow(rs[..last + 1], k, rs[last].now, hits);
  }

  /** The requests of one key. */
  function Only(rs: seq<Request>, k: Key): (r: seq<Request>)
    ensures forall q :: q in r ==> q in rs && KeyOf(q) == k
  {
    if rs == [] then []
    else
      var n := |rs| - 1;
      Only(rs[..n], k) + if KeyOf(rs[n]) == k then [rs[n]] else []
  }

  lemma MonotoneSnoc(rs: seq<Request>, front: seq<Request>)
    requires rs != [] && Monotone(rs) && Monotone(front) && forall q :: q in front ==> q in rs[..|rs| - 1]
    ensures Monotone(front + [rs[|rs| - 1]])
  {
    forall i | 0 <= i < |front| ensures front[i].now <= rs[|rs| - 1].now {
      var q := front[i];
      assert q in front && q in rs[..|rs| - 1];
    }
  }

  lemma {:induction false} OnlySameTimes(rs: seq<Request>, k: Key)
    ensures Times(Only(rs, k), k) == Times(rs, k)
    ensures Monotone(rs) ==> Monotone(Only(rs, k))
    decreases |rs|
  {
    if rs != [] {
      var n := |rs| - 1;
      OnlySameTimes(rs[..n], k);
      if KeyOf(rs[n]) == k {
        var front := Only(rs[..n], k);
        assert (front + [rs[n]])[..|front|] == front;
        if Monotone(rs) {
          MonotoneSnoc(rs, front);
        }
      } else {
        assert Only(rs, k) == Only(rs[..n], k);
      }
    }
  }

  /** Main result: other keys never affect a verdict - it is the one the key's requests alone
      would have got. */
  lemma KeysAreIndependent(s: Settings, rs: seq<Request>, i: nat)
    requires s.enabled && Monotone(rs) && i < |rs|
    ensures var own := Only(rs[..i + 1], KeyOf(rs[i]));
            own != [] && own[|own| - 1] == rs[i] && Admitted(s, rs, i) == Admitted(s, own, |own| - 1)
  {
    hide Recent, Times, TableAfter, Hit, Admitted;
    var k, upto := KeyOf(rs[i]), rs[..i + 1];
    var own := Only(upto, k);
    assert upto[..i] == rs[..i];
    assert own == Only(rs[..i], k) + [rs[i]];
    OnlySameTimes(upto, k);
    assert own[..|own|] == own;
    AdmittedByHistory(s, rs, i);
    AdmittedByHistory(s, own, |own| - 1);
  }
}
