/** The limiter of failed logins. Times are nanoseconds of one clock that does
    not run backwards; each call is told the time it reads. */
module RateLimit {
  const MAX_ATTEMPTS := 5
  const WINDOW := 60_000_000_000
  const BAN := 60_000_000_000

  type Time = int

  // ---------------------------------------------------------------- the state

  datatype State = State(attempts: map<string, seq<Time>>, bans: map<string, Time>)

  function Empty(): State {
    State(map[], map[])
  }

  function Attempts(s: State, ip: string): seq<Time> {
    if ip in s.attempts then s.attempts[ip] else []
  }

  predicate Banned(s: State, ip: string, now: Time) {
    ip in s.bans && now < s.bans[ip]
  }

  // The failures of the last window, in order.
  function Recent(ts: seq<Time>, now: Time): seq<Time> {
    if ts == [] then []
    else Recent(ts[..|ts| - 1], now) + (if now - ts[|ts| - 1] < WINDOW then [ts[|ts| - 1]] else [])
  }

  function Check(s: State, ip: string, now: Time): State {
    if Banned(s, ip, now) then s else s.(bans := s.bans - {ip})
  }

  function Fail(s: State, ip: string, now: Time): State {
    var recent := Recent(Attempts(s, ip), now) + [now];
    if |recent| >= MAX_ATTEMPTS
    then State(s.attempts - {ip}, s.bans[ip := now + BAN])
    else s.(attempts := s.attempts[ip := recent])
  }

  function Clear(s: State, ip: string): State {
    State(s.attempts - {ip}, s.bans - {ip})
  }

  class RateLimiter {
    var attempts: map<string, seq<Time>>
    var bans: map<string, Time>

    function View(): State
      reads this
    {
      State(attempts, bans)
    }

    constructor ()
      ensures View() == Empty()
    {
      attempts, bans := map[], map[];
    }

    method IsBanned(ip: string, now: Time) returns (banned: bool)
      modifies this
      ensures banned == Banned(old(View()), ip, now)
      ensures View() == Check(old(View()), ip, now)
    {
      if ip in bans {
        if now < bans[ip] { return true; }
      }
      bans := bans - {ip};
      return false;
    }

    method RecordFailure(ip: string, now: Time)
      modifies this
      ensures View() == Fail(old(View()), ip, now)
    {
      var recent: seq<Time> := [];
      var all := if ip in attempts then attempts[ip] else [];
      for i := 0 to |all|
        invariant recent == Recent(all[..i], now)
        invariant attempts == old(attempts) && bans == old(bans)
      {
        assert all[..i + 1][..i] == all[..i];
        if now - all[i] < WINDOW { recent := recent + [all[i]]; }
      }
      assert all[..|all|] == all;
      recent := recent + [now];
      attempts := attempts[ip := recent];
      if |recent| >= MAX_ATTEMPTS {
        bans := bans[ip := now + BAN];
        attempts := attempts - {ip};
        assert attempts == old(attempts) - {ip};
      }
    }

    method Reset(ip: string)
      modifies this
      ensures View() == Clear(old(View()), ip)
    {
      attempts := attempts - {ip};
      bans := bans - {ip};
    }
  }

  // ---------------------------------------------------------------- runs

  datatype Call = IsBanned(ip: string, now: Time) | RecordFailure(ip: string, now: Time) | Reset(ip: string, now: Time)

  function Apply(s: State, c: Call): State {
    match c
    case IsBanned(ip, now) => Check(s, ip, now)
    case RecordFailure(ip, now) => Fail(s, ip, now)
    case Reset(ip, _) => Clear(s, ip)
  }

  function After(calls: seq<Call>): State {
    if calls == [] then Empty() else Apply(After(calls[..|calls| - 1]), calls[|calls| - 1])
  }

  predicate Ordered(calls: seq<Call>) {
    forall i, j :: 0 <= i < j < |calls| ==> calls[i].now <= calls[j].now
  }

  // ---------------------------------------------------------------- the reference

  // The limiter that forgets nothing: per address, every failure since its last
  // ban or reset, and the ban in force, kept until it is replaced or reset.
  datatype Log = Log(failures: map<string, seq<Time>>, bans: map<string, Time>)

  function Failures(l: Log, ip: string): seq<Time> {
    if ip in l.failures then l.failures[ip] else []
  }

  // The failures of the last minute, counted rather than collected.
  function InWindow(ts: seq<Time>, now: Time): set<nat> {
    set i: nat | i < |ts| && now - ts[i] < WINDOW
  }

  function Logged(l: Log, c: Call): Log {
    match c
    case IsBanned(_, _) => l
    case RecordFailure(ip, now) =>
      var all := Failures(l, ip) + [now];
      if |InWindow(all, now)| >= MAX_ATTEMPTS
      then Log(l.failures[ip := []], l.bans[ip := now + BAN])
      else l.(failures := l.failures[ip := all])
    case Reset(ip, _) => Log(l.failures[ip := []], l.bans - {ip})
  }

  function LogAfter(calls: seq<Call>): Log {
    if calls == [] then Log(map[], map[]) else Logged(LogAfter(calls[..|calls| - 1]), calls[|calls| - 1])
  }

  predicate LogBanned(l: Log, ip: string, now: Time) {
    ip in l.bans && now < l.bans[ip]
  }

  predicate Sorted(ts: seq<Time>) {
    forall i, j :: 0 <= i < j < |ts| ==> ts[i] <= ts[j]
  }

  // What the pruned list still holds of the full history.
  function Kept(ts: seq<Time>): seq<Time> {
    if ts == [] then [] else Recent(ts, ts[|ts| - 1])
  }

  // The two limiters at time `now`: the list is the history less what had left
  // the window at the last failure; a ban is forgotten only once it is over.
  ghost predicate Agrees(s: State, l: Log, ip: string, now: Time) {
    && Attempts(s, ip) == Kept(Failures(l, ip))
    && |Attempts(s, ip)| < MAX_ATTEMPTS
    && Sorted(Failures(l, ip)) && (forall x <- Failures(l, ip) :: x <= now)
    && (ip in s.bans ==> ip in l.bans && l.bans[ip] == s.bans[ip])
    && (ip in l.bans && ip !in s.bans ==> l.bans[ip] <= now)
  }

  lemma {:induction false} RecentAppend(ts: seq<Time>, x: Time, now: Time)
    ensures Recent(ts + [x], now) == Recent(ts, now) + (if now - x < WINDOW then [x] else [])
  {
    assert (ts + [x])[..|ts|] == ts;
  }

  lemma {:induction false} RecentTwice(ts: seq<Time>, now: Time, later: Time)
    requires now <= later
    ensures Recent(Recent(ts, now), later) == Recent(ts, later)
  {
    if ts != [] {
      var init, last := ts[..|ts| - 1], ts[|ts| - 1];
      RecentTwice(init, now, later);
      RecentAppend(Recent(init, now), last, later);
      assert Recent(init, now) + [] == Recent(init, now);
    }
  }

  lemma {:induction false} RecentIsSorted(ts: seq<Time>, now: Time)
    requires Sorted(ts)
    ensures Sorted(Recent(ts, now)) && forall x <- Recent(ts, now) :: x in ts
  {
    if ts != [] {
      var r, last := Recent(ts[..|ts| - 1], now), ts[|ts| - 1];
      RecentIsSorted(ts[..|ts| - 1], now);
      forall x <- r ensures x in ts && x <= last {
        var j :| 0 <= j < |ts| - 1 && ts[..|ts| - 1][j] == x;
        assert ts[j] == x;
      }
      assert forall j :: 0 <= j < |r| ==> r[j] in r;
    }
  }

  // One more failure, pruned or not, leaves the same window.
  lemma KeptGrows(before: seq<Time>, now: Time)
    requires forall x <- before :: x <= now
    ensures Recent(Kept(before), now) + [now] == Recent(before + [now], now) == Kept(before + [now])
    ensures Kept([]) == []
  {
    RecentAppend(before, now, now);
    if before != [] {
      assert before[|before| - 1] in before;
      RecentTwice(before, before[|before| - 1], now);
    }
  }

  lemma {:induction false} WindowSize(ts: seq<Time>, now: Time)
    ensures |Recent(ts, now)| == |InWindow(ts, now)|
  {
    if ts != [] {
      var n: nat := |ts| - 1;
      WindowSize(ts[..n], now);
      assert InWindow(ts, now) == InWindow(ts[..n], now) + if now - ts[n] < WINDOW then {n} else {};
    }
  }

  lemma FailureAgrees(s: State, l: Log, ip: string, now: Time)
    requires Agrees(s, l, ip, now)
    ensures
      var c := RecordFailure(ip, now);
      Agrees(Apply(s, c), Logged(l, c), ip, now)
  {
    hide Recent, Kept, InWindow;
    var all := Failures(l, ip) + [now];
    WindowSize(all, now);
    KeptGrows(Failures(l, ip), now);
    assert forall x <- all :: x <= now;
    assert Sorted(all) by {
      assert forall i :: 0 <= i < |all| - 1 ==> all[i] in Failures(l, ip);
    }
  }

  // The same address at a later time, and another address at any call.
  lemma OthersAgree(s: State, l: Log, c: Call, ip: string, now: Time)
    requires Agrees(s, l, ip, now) && now <= c.now
    requires c.ip != ip || !c.RecordFailure?
    ensures Agrees(Apply(s, c), Logged(l, c), ip, c.now)
  {
    assert Attempts(Apply(s, c), ip) == if c.ip == ip && c.Reset? then [] else Attempts(s, ip);
    assert Failures(Logged(l, c), ip) == if c.ip == ip && c.Reset? then [] else Failures(l, ip);
  }

  // Pruning changes no answer: at every moment of every run with a clock that
  // does not run backwards, the limiter bans exactly when the reference does.
  // Its list stays sorted and below five.
  lemma {:induction false} PruningIsInvisible(calls: seq<Call>, ip: string, now: Time)
    requires Ordered(calls) && forall c <- calls :: c.now <= now
    ensures Banned(After(calls), ip, now) <==> LogBanned(LogAfter(calls), ip, now)
    ensures Sorted(Attempts(After(calls), ip)) && |Attempts(After(calls), ip)| < MAX_ATTEMPTS
    ensures Agrees(After(calls), LogAfter(calls), ip, now)
  {
    if calls != [] {
      var init, c := calls[..|calls| - 1], calls[|calls| - 1];
      assert c in calls;
      forall b <- init ensures b.now <= c.now {
        var j :| 0 <= j < |init| && init[j] == b;
        assert calls[j] == b;
      }
      PruningIsInvisible(init, ip, c.now);
      hide Agrees, Apply, Logged;
      if c == RecordFailure(ip, c.now) {
        FailureAgrees(After(init), LogAfter(init), ip, c.now);
      } else {
        OthersAgree(After(init), LogAfter(init), c, ip, c.now);
      }
      AgreesLater(After(calls), LogAfter(calls), ip, c.now, now);
    }
    AgreesMeans(After(calls), LogAfter(calls), ip, now);
  }

  lemma AgreesLater(s: State, l: Log, ip: string, now: Time, later: Time)
    requires Agrees(s, l, ip, now) && now <= later
    ensures Agrees(s, l, ip, later)
  {
    hide Kept, Sorted;
  }

  lemma AgreesMeans(s: State, l: Log, ip: string, now: Time)
    requires Agrees(s, l, ip, now)
    ensures Banned(s, ip, now) <==> LogBanned(l, ip, now)
    ensures Sorted(Attempts(s, ip)) && |Attempts(s, ip)| < MAX_ATTEMPTS
  {
    var all := Failures(l, ip);
    if all != [] { RecentIsSorted(all, all[|all| - 1]); }
  }

  // In numbers: a failure bans if and only if, with it, five lie in the last sixty
  // seconds, and then for sixty seconds to the nanosecond.
  lemma FifthBansForAMinute(s: State, ip: string, now: Time)
    ensures
      var recent := set i: nat | i < |Attempts(s, ip)| && now - Attempts(s, ip)[i] < 60_000_000_000;
      var s' := Fail(s, ip, now);
      if |recent| + 1 >= 5 then
        Attempts(s', ip) == [] && forall t :: Banned(s', ip, t) <==> t < now + 60_000_000_000
      else
        |Attempts(s', ip)| == |recent| + 1 && s'.bans == s.bans
  {
    var all := Attempts(s, ip);
    WindowSize(all, now);
    assert InWindow(all, now) == set i: nat | i < |all| && now - all[i] < 60_000_000_000;
    hide Recent, InWindow;
  }

  // Calls about one address leave every other address exactly as it was.
  lemma AddressesAreIndependent(s: State, c: Call, ip: string)
    requires c.ip != ip
    ensures Attempts(Apply(s, c), ip) == Attempts(s, ip)
    ensures ip in Apply(s, c).bans <==> ip in s.bans
    ensures ip in s.bans ==> Apply(s, c).bans[ip] == s.bans[ip]
  {
  }
}
