/** How often one address may fail the token check, for any interleaving of its
    own connections and of everybody else's. */
module Strikes {
  import opened Bytes
  import RL = RateLimit
  import opened FrontDoor

  // One recorded failure: when, whether at the front door, whether it set off a
  // ban, and how many connections of the address were left inside.
  datatype Strike = Strike(at: Time, door: bool, banned: bool, left: nat)

  predicate Trips(l: RL.State, ip: string, at: Time) {
    |RL.Recent(RL.Attempts(l, ip), at)| + 1 >= RL.MAX_ATTEMPTS
  }

  // What one event adds to the strikes of an address; a reset wipes them out.
  function NextStrikes(f: seq<Strike>, g: Gate, e: Event, ip: string): seq<Strike>
    requires Can(g, e)
  {
    if e.ip != ip then f
    else
      var struck := f + [Strike(e.at, e.Answer?, Trips(g.limiter, ip, e.at), Next(g, e).inside[ip])];
      match e
      case Door(_, _) => f
      case Answer(_, NotReached, _) => f
      case Answer(_, Right, _) => []
      case Answer(_, Wrong, _) => struck
      case Ssh(_, login, _) => if login.Refusal? then struck else []
  }

  // The failures of an address, at the front door and over SSH, since its last reset.
  ghost function Strikes(es: seq<Event>, ip: string): seq<Strike>
    requires IsRun(es)
    decreases |es|
  {
    if es == [] then []
    else NextStrikes(Strikes(es[..|es| - 1], ip), After(es[..|es| - 1]), es[|es| - 1], ip)
  }

  // The same since its last right token: a recognised key is none.
  ghost function Failures(es: seq<Event>, ip: string): seq<Strike>
    requires IsRun(es)
    decreases |es|
  {
    if es == [] then []
    else
      var before, e := Failures(es[..|es| - 1], ip), es[|es| - 1];
      if e.Ssh? && e.login.GoodKey? then before else NextStrikes(before, After(es[..|es| - 1]), e, ip)
  }

  // How many of the strikes from i on and below n are at the front door.
  function Doors(f: seq<Strike>, i: nat, n: nat): (d: nat)
    requires i <= n <= |f|
    ensures d <= n - i
  {
    if i == n then 0 else Doors(f, i, n - 1) + if f[n - 1].door then 1 else 0
  }

  // The most connections of an address that were ever inside at once.
  ghost function Peak(es: seq<Event>, ip: string): nat
    requires IsRun(es)
    decreases |es|
  {
    var now := After(es).inside[ip];
    if es == [] then now
    else
      var before := Peak(es[..|es| - 1], ip);
      if now > before then now else before
  }

  // ---------------------------------------------------------------- what the limiter knows

  ghost predicate Timed(f: seq<Strike>, now: Time) {
    && (forall i, j :: 0 <= i < j < |f| ==> f[i].at <= f[j].at)
    && (f != [] ==> f[|f| - 1].at <= now)
  }

  // An entry of the limiter's list stands for this strike.
  predicate StandsFor(t: Time, s: Strike) {
    t == s.at && !s.banned
  }

  // The limiter's list is the strikes from e on; the one before set off a ban or
  // had left the window at the last strike.
  ghost predicate TailFrom(a: seq<Time>, f: seq<Strike>, e: nat) {
    && |a| < RL.MAX_ATTEMPTS && |f| == e + |a|
    && (forall i :: 0 <= i < |a| ==> StandsFor(a[i], f[e + i]))
    && (e > 0 ==> f[e - 1].banned || f[e - 1].at + RL.WINDOW <= f[|f| - 1].at)
  }

  ghost predicate Tail(a: seq<Time>, f: seq<Strike>) {
    |a| <= |f| && TailFrom(a, f, |f| - |a|)
  }

  ghost predicate BanWithin(f: seq<Strike>, i: nat, j: nat)
    requires j < |f|
  {
    exists q :: i <= q <= j && f[q].banned
  }

  // Five strikes within a window include one that sets off a ban.
  ghost predicate FifthBans(f: seq<Strike>) {
    forall i: nat, j: nat :: i + 4 == j < |f| && f[j].at < f[i].at + RL.WINDOW ==> BanWithin(f, i, j)
  }

  // Within a window of a ban only those strike at the front door who were inside.
  ghost predicate OnlyThoseInside(f: seq<Strike>) {
    forall q: nat, r: nat :: q < r < |f| && f[q].banned && f[r].at < f[q].at + RL.WINDOW ==>
      Doors(f, q + 1, r + 1) <= f[q].left
  }

  function BanOf(l: RL.State, ip: string): Option<Time> {
    if ip in l.bans then Some(l.bans[ip]) else None
  }

  // While a ban's window lasts the door is shut, and those who strike are no
  // longer inside.
  ghost predicate Shut(f: seq<Strike>, ban: Option<Time>, inside: nat, now: Time) {
    forall q: nat :: q < |f| && f[q].banned && now < f[q].at + RL.WINDOW ==>
      && ban.Some? && ban.value >= f[q].at + RL.WINDOW
      && Doors(f, q + 1, |f|) + inside <= f[q].left
  }

  ghost predicate Account(l: RL.State, ip: string, f: seq<Strike>, inside: nat, now: Time) {
    && Timed(f, now) && Tail(RL.Attempts(l, ip), f) && FifthBans(f)
    && OnlyThoseInside(f) && Shut(f, BanOf(l, ip), inside, now)
  }

  // ---------------------------------------------------------------- pruning

  lemma LastOne(ts: seq<Time>, k: nat)
    requires k < |ts|
    ensures ts[k..] == ts[..|ts| - 1][k..] + [ts[|ts| - 1]]
  {
  }

  lemma SortedInit(ts: seq<Time>)
    requires RL.Sorted(ts) && ts != []
    ensures RL.Sorted(ts[..|ts| - 1]) && forall i :: 0 <= i < |ts| ==> ts[i] <= ts[|ts| - 1]
  {
  }

  // Pruning a sorted list leaves a tail of it.
  lemma {:induction false} RecentIsTail(ts: seq<Time>, now: Time) returns (k: nat)
    requires RL.Sorted(ts)
    ensures k <= |ts| && RL.Recent(ts, now) == ts[k..]
    ensures k > 0 ==> ts[k - 1] + RL.WINDOW <= now
  {
    hide RL.Sorted;
    k := |ts|;
    if ts != [] {
      var n := |ts| - 1;
      SortedInit(ts);
      if now - ts[n] < RL.WINDOW {
        assert RL.Recent(ts, now) == RL.Recent(ts[..n], now) + [ts[n]];
        hide RL.Recent;
        k := RecentIsTail(ts[..n], now);
        LastOne(ts, k);
      } else {
        NothingRecent(ts, now);
      }
    }
  }

  lemma {:induction false} NothingRecent(ts: seq<Time>, now: Time)
    requires forall i :: 0 <= i < |ts| ==> now - ts[i] >= RL.WINDOW
    ensures RL.Recent(ts, now) == []
  {
    if ts != [] { NothingRecent(ts[..|ts| - 1], now); }
  }

  lemma TailIsSorted(a: seq<Time>, f: seq<Strike>, now: Time)
    requires Timed(f, now) && Tail(a, f)
    ensures RL.Sorted(a)
  {
    var e := |f| - |a|;
    forall i, j | 0 <= i < j < |a| ensures a[i] <= a[j] {
      assert StandsFor(a[i], f[e + i]) && StandsFor(a[j], f[e + j]);
    }
  }

  // A strike cuts the first k entries, which are too old. So what is cut last, or
  // had been cut before, set off a ban or has left the window.
  lemma CutEntry(a: seq<Time>, f: seq<Strike>, e: nat, at: Time, k: nat)
    requires Timed(f, at) && TailFrom(a, f, e) && k <= |a| && (k > 0 ==> a[k - 1] + RL.WINDOW <= at)
    requires e + k > 0
    ensures f[e + k - 1].banned || f[e + k - 1].at + RL.WINDOW <= at
  {
    if k > 0 { assert StandsFor(a[k - 1], f[e + (k - 1)]); }
  }

  lemma StrikeTailFrom(a: seq<Time>, f: seq<Strike>, e: nat, at: Time, k: nat, s: Strike)
    requires Timed(f, at) && TailFrom(a, f, e) && s.at == at
    requires k <= |a| && (k > 0 ==> a[k - 1] + RL.WINDOW <= at)
    requires s.banned <==> |a| - k + 1 >= RL.MAX_ATTEMPTS
    ensures if s.banned then TailFrom([], f + [s], |f| + 1) else TailFrom(a[k..] + [at], f + [s], e + k)
  {
    var f', a' := f + [s], a[k..] + [at];
    assert f'[|f|] == s;
    if !s.banned {
      forall i | 0 <= i < |a'| ensures StandsFor(a'[i], f'[e + k + i]) {
        if i < |a'| - 1 {
          assert a'[i] == a[k + i] && f'[e + k + i] == f[e + (k + i)];
          assert StandsFor(a[k + i], f[e + (k + i)]);
        }
      }
      if e + k > 0 {
        CutEntry(a, f, e, at, k);
        assert f'[e + k - 1] == f[e + k - 1];
      }
    }
  }

  lemma StrikeTail(a: seq<Time>, f: seq<Strike>, at: Time, k: nat, s: Strike)
    requires Timed(f, at) && Tail(a, f) && s.at == at
    requires k <= |a| && (k > 0 ==> a[k - 1] + RL.WINDOW <= at)
    requires s.banned <==> |a| - k + 1 >= RL.MAX_ATTEMPTS
    ensures Tail(if s.banned then [] else a[k..] + [at], f + [s])
  {
    hide TailFrom, Timed;
    StrikeTailFrom(a, f, |f| - |a|, at, k, s);
    assert |f + [s]| == |f| + 1 && |a[k..] + [at]| == |a| - k + 1;
  }

  lemma StrikeFifth(a: seq<Time>, f: seq<Strike>, e: nat, at: Time, k: nat, s: Strike)
    requires Timed(f, at) && TailFrom(a, f, e) && s.at == at && FifthBans(f)
    requires k <= |a| && (k > 0 ==> a[k - 1] + RL.WINDOW <= at)
    requires s.banned <==> |a| - k + 1 >= RL.MAX_ATTEMPTS
    ensures FifthBans(f + [s])
  {
    var f' := f + [s];
    forall i: nat, j: nat | i + 4 == j < |f'| && f'[j].at < f'[i].at + RL.WINDOW ensures BanWithin(f', i, j) {
      if j < |f| {
        assert f'[i] == f[i] && f'[j] == f[j] && BanWithin(f, i, j);
        var q :| i <= q <= j && f[q].banned;
        assert f'[q].banned;
      } else if s.banned {
        assert f'[j].banned;
      } else {
        CutEntry(a, f, e, at, k);
        var q := e + k - 1;
        assert i <= q < |f| && f'[q] == f[q] && f[i].at <= f[q].at;
        assert f'[q].banned;
      }
    }
  }

  // ---------------------------------------------------------------- one event

  lemma Later(l: RL.State, ip: string, f: seq<Strike>, inside: nat, now: Time, later: Time)
    requires Account(l, ip, f, inside, now) && now <= later
    ensures Account(l, ip, f, inside, later)
  {
  }

  lemma DoorKeeps(l: RL.State, ip: string, f: seq<Strike>, inside: nat, at: Time)
    requires Account(l, ip, f, inside, at) && !RL.Banned(l, ip, at)
    ensures Account(RL.Check(l, ip, at), ip, f, inside + 1, at)
  {
    hide Tail, FifthBans, OnlyThoseInside;
  }

  lemma {:induction false} DoorsKept(f: seq<Strike>, s: Strike, i: nat, n: nat)
    requires i <= n <= |f|
    ensures Doors(f + [s], i, n) == Doors(f, i, n)
  {
    if i < n { DoorsKept(f, s, i, n - 1); }
  }

  lemma TimedOn(f: seq<Strike>, now: Time, s: Strike)
    requires Timed(f, now) && s.at == now
    ensures Timed(f + [s], now)
  {
  }

  // `inside` are those left behind: a strike at the door is one fewer than before.
  lemma StrikeShuts(f: seq<Strike>, ban: Option<Time>, ban': Option<Time>, inside: nat, s: Strike)
    requires Timed(f, s.at) && OnlyThoseInside(f) && s.left == inside
    requires Shut(f, ban, if s.door then inside + 1 else inside, s.at)
    requires if s.banned then ban' == Some(s.at + RL.BAN) else ban' == ban
    ensures OnlyThoseInside(f + [s]) && Shut(f + [s], ban', inside, s.at)
  {
    var f' := f + [s];
    forall q: nat, r: nat | q < r < |f'| && f'[q].banned && f'[r].at < f'[q].at + RL.WINDOW
      ensures Doors(f', q + 1, r + 1) <= f'[q].left
    {
      assert f'[q] == f[q];
      if r < |f| {
        assert f'[r] == f[r];
        DoorsKept(f, s, q + 1, r + 1);
      } else {
        DoorsKept(f, s, q + 1, r);
      }
    }
    forall q: nat | q < |f'| && f'[q].banned && s.at < f'[q].at + RL.WINDOW
      ensures ban'.Some? && ban'.value >= f'[q].at + RL.WINDOW && Doors(f', q + 1, |f'|) + inside <= f'[q].left
    {
      if q < |f| {
        assert f'[q] == f[q];
        DoorsKept(f, s, q + 1, |f|);
      }
    }
  }

  lemma FailMeans(l: RL.State, ip: string, at: Time)
    ensures RL.Attempts(RL.Fail(l, ip, at), ip) ==
      if Trips(l, ip, at) then [] else RL.Recent(RL.Attempts(l, ip), at) + [at]
    ensures BanOf(RL.Fail(l, ip, at), ip) == if Trips(l, ip, at) then Some(at + RL.BAN) else BanOf(l, ip)
  {
    hide RL.Recent;
  }

  lemma StrikeKeeps(l: RL.State, ip: string, f: seq<Strike>, inside: nat, at: Time, door: bool)
    requires Account(l, ip, f, if door then inside + 1 else inside, at)
    ensures Account(RL.Fail(l, ip, at), ip, f + [Strike(at, door, Trips(l, ip, at), inside)], inside, at)
  {
    hide TailFrom, FifthBans, OnlyThoseInside, Shut, RL.Recent, RL.Sorted, Timed, RL.Fail, RL.Attempts, BanOf;
    var a, s := RL.Attempts(l, ip), Strike(at, door, Trips(l, ip, at), inside);
    TailIsSorted(a, f, at);
    var k := RecentIsTail(a, at);
    FailMeans(l, ip, at);
    TimedOn(f, at, s);
    StrikeTail(a, f, at, k, s);
    StrikeFifth(a, f, |f| - |a|, at, k, s);
    hide Tail;
    StrikeShuts(f, BanOf(l, ip), BanOf(RL.Fail(l, ip, at), ip), inside, s);
  }

  lemma FreshStart(l: RL.State, ip: string, inside: nat, now: Time)
    requires RL.Attempts(l, ip) == []
    ensures Account(l, ip, [], inside, now)
  {
  }

  // Another address's event is not noticed.
  lemma OthersUnnoticed(g: Gate, e: Event, ip: string)
    requires Can(g, e) && e.ip != ip
    ensures
      var g' := Next(g, e);
      && RL.Attempts(g'.limiter, ip) == RL.Attempts(g.limiter, ip)
      && BanOf(g'.limiter, ip) == BanOf(g.limiter, ip)
      && g'.inside[ip] == g.inside[ip]
  {
    hide RL.Recent;
  }

  lemma SameAccount(l: RL.State, l': RL.State, ip: string, f: seq<Strike>, inside: nat, inside': nat, now: Time)
    requires Account(l, ip, f, inside, now) && inside' <= inside
    requires RL.Attempts(l', ip) == RL.Attempts(l, ip) && BanOf(l', ip) == BanOf(l, ip)
    ensures Account(l', ip, f, inside', now)
  {
    hide Tail, FifthBans, OnlyThoseInside;
  }

  lemma EventKeeps(g: Gate, e: Event, ip: string, f: seq<Strike>)
    requires Can(g, e) && Account(g.limiter, ip, f, g.inside[ip], e.at)
    ensures Account(Next(g, e).limiter, ip, NextStrikes(f, g, e, ip), Next(g, e).inside[ip], e.at)
  {
    hide Account, RL.Fail, RL.Recent, Trips;
    var l, l', n', n := g.limiter, Next(g, e).limiter, Next(g, e).inside[ip], g.inside[ip];
    if e.ip != ip {
      OthersUnnoticed(g, e, ip);
      SameAccount(l, l', ip, f, n, n', e.at);
    } else if e.Door? {
      if !RL.Banned(l, ip, e.at) { DoorKeeps(l, ip, f, n, e.at); }
    } else if e.Ssh? {
      if e.login.Refusal? { StrikeKeeps(l, ip, f, n', e.at, false); } else { FreshStart(l', ip, n', e.at); }
    } else if e.check.Wrong? {
      StrikeKeeps(l, ip, f, n', e.at, true);
    } else if e.check.Right? {
      FreshStart(l', ip, n', e.at);
    } else {
      SameAccount(l, l', ip, f, n, n', e.at);
    }
  }

  lemma {:induction false} AccountHolds(es: seq<Event>, ip: string, now: Time)
    requires IsRun(es) && Ordered(es) && (es != [] ==> es[|es| - 1].at <= now)
    ensures Account(After(es).limiter, ip, Strikes(es, ip), After(es).inside[ip], now)
  {
    if es == [] {
      FreshStart(After(es).limiter, ip, 0, now);
    } else {
      hide Account, Next, NextStrikes;
      var init, e := es[..|es| - 1], es[|es| - 1];
      AccountHolds(init, ip, e.at);
      EventKeeps(After(init), e, ip, Strikes(init, ip));
      Later(After(es).limiter, ip, Strikes(es, ip), After(es).inside[ip], e.at, now);
    }
  }

  // For sixty seconds from a strike that set off a ban nobody of the address gets
  // past the door, until a reset.
  lemma DoorStaysShut(es: seq<Event>, ip: string, q: nat, at: Time)
    requires IsRun(es) && Ordered(es) && (es != [] ==> es[|es| - 1].at <= at)
    requires q < |Strikes(es, ip)| && Strikes(es, ip)[q].banned && at < Strikes(es, ip)[q].at + 60_000_000_000
    ensures Next(After(es), Door(ip, at)) == After(es)
  {
    hide IsRun, Ordered, Strikes, Timed, TailFrom, FifthBans, OnlyThoseInside, Doors;
    AccountHolds(es, ip, at);
  }

  // ---------------------------------------------------------------- the bound

  // Whoever strikes at the door was inside, and the peak's last at most.
  lemma {:induction false} LeftBelowPeak(es: seq<Event>, ip: string)
    requires IsRun(es)
    ensures forall s <- Strikes(es, ip) :: s.left + (if s.door then 1 else 0) <= Peak(es, ip)
    ensures forall s <- Failures(es, ip) :: s.left + (if s.door then 1 else 0) <= Peak(es, ip)
    ensures After(es).inside[ip] <= Peak(es, ip)
  {
    hide RL.Fail, RL.Check, RL.Clear, Trips;
    if es != [] { LeftBelowPeak(es[..|es| - 1], ip); }
  }

  lemma {:induction false} DoorsSplit(f: seq<Strike>, i: nat, m: nat, n: nat)
    requires i <= m <= n <= |f|
    ensures Doors(f, i, n) == Doors(f, i, m) + Doors(f, m, n)
  {
    if m < n { DoorsSplit(f, i, m, n - 1); }
  }

  // Up to the ban at q and behind it.
  lemma AroundBan(f: seq<Strike>, k: nat, i: nat, q: nat, j: nat)
    requires i <= q <= j < |f| && q <= i + 4
    requires f[q].left + (if f[q].door then 1 else 0) <= k
    requires q < j ==> Doors(f, q + 1, j + 1) <= f[q].left
    ensures Doors(f, i, j + 1) <= 4 + k
  {
    DoorsSplit(f, i, q, j + 1);
    DoorsSplit(f, q, q + 1, j + 1);
    assert Doors(f, q, q) == 0;
  }

  lemma FewInAWindow(f: seq<Strike>, now: Time, k: nat, i: nat, j: nat)
    requires Timed(f, now) && FifthBans(f) && OnlyThoseInside(f) && i <= j < |f|
    requires forall s <- f :: s.left + (if s.door then 1 else 0) <= k
    requires f[j].at < f[i].at + RL.WINDOW
    ensures Doors(f, i, j + 1) <= 4 + k
  {
    hide Doors;
    if j - i >= 4 {
      assert f[i + 4].at <= f[j].at;
      assert BanWithin(f, i, i + 4);
      var q: nat :| i <= q <= i + 4 && f[q].banned;
      assert f[i].at <= f[q].at && f[q] in f;
      AroundBan(f, k, i, q, j);
    }
  }

  // Between two resets, by a right token or a recognised key, any half-open
  // minute holds at most four front-door failures more than connections of the
  // address were ever inside at once: five failures up to the first ban, then
  // those who were already inside, whatever fails over SSH in between.
  lemma FourMoreThanInside(es: seq<Event>, ip: string, from: Time, i: nat, j: nat)
    requires IsRun(es) && Ordered(es)
    requires i <= j < |Strikes(es, ip)|
    requires from <= Strikes(es, ip)[i].at && Strikes(es, ip)[j].at < from + RL.WINDOW
    ensures Doors(Strikes(es, ip), i, j + 1) <= 4 + Peak(es, ip)
  {
    var now := if es == [] then 0 else es[|es| - 1].at;
    AccountHolds(es, ip, now);
    LeftBelowPeak(es, ip);
    hide Tail, Shut, Strikes, Peak, Timed, FifthBans, OnlyThoseInside, Doors;
    FewInAWindow(Strikes(es, ip), now, Peak(es, ip), i, j);
  }

  // ---------------------------------------------------------------- runs that reach further

  ghost function FailuresAfter(es: seq<Event>, e: Event, ip: string): seq<Strike>
    requires IsRun(es) && Can(After(es), e)
  {
    if e.Ssh? && e.login.GoodKey? then Failures(es, ip) else NextStrikes(Failures(es, ip), After(es), e, ip)
  }

  lemma Extended(es: seq<Event>, e: Event, ip: string)
    requires IsRun(es) && Can(After(es), e)
    ensures IsRun(es + [e]) && After(es + [e]) == Next(After(es), e)
    ensures Failures(es + [e], ip) == FailuresAfter(es, e, ip)
    ensures
      var now, before := Next(After(es), e).inside[ip], Peak(es, ip);
      Peak(es + [e], ip) == if now > before then now else before
  {
    assert (es + [e])[..|es|] == es;
    hide Next, NextStrikes;
  }

  // Which SSH logins of an address there may be besides those with a right token.
  datatype Logins = Logins(refusals: bool, keys: bool)

  predicate Allows(logins: Logins, e: Event, ip: string) {
    e.Ssh? && e.ip == ip ==> (e.login.Refusal? ==> logins.refusals) && (e.login.GoodKey? ==> logins.keys)
  }

  ghost predicate Within(es: seq<Event>, ip: string, k: nat, logins: Logins) {
    && IsRun(es) && Ordered(es) && Peak(es, ip) <= k
    && forall i :: 0 <= i < |es| ==> Allows(logins, es[i], ip)
  }

  // A run that takes no time at all, with n failures, all at the door or none.
  ghost predicate Instant(es: seq<Event>, ip: string, n: nat, door: bool, inside: nat, peak: nat, logins: Logins) {
    && IsRun(es) && (forall i :: 0 <= i < |es| ==> es[i].at == 0 && Allows(logins, es[i], ip))
    && |Failures(es, ip)| == n && After(es).inside[ip] == inside && Peak(es, ip) == peak
    && (forall i :: 0 <= i < n ==> Failures(es, ip)[i].at == 0 && Failures(es, ip)[i].door == door)
  }

  lemma InstantDoor(es: seq<Event>, ip: string, n: nat, inside: nat, peak: nat, logins: Logins)
    requires Instant(es, ip, n, true, inside, peak, logins) && ip !in After(es).limiter.bans
    ensures
      var es' := es + [Door(ip, 0)];
      && Instant(es', ip, n, true, inside + 1, if inside + 1 > peak then inside + 1 else peak, logins)
      && After(es').limiter == After(es).limiter
  {
    hide Failures, Peak, IsRun, After;
    Extended(es, Door(ip, 0), ip);
    var l := After(es).limiter;
    assert l.bans - {ip} == l.bans;
  }

  lemma InstantWrong(es: seq<Event>, ip: string, n: nat, inside: nat, peak: nat, logins: Logins)
    requires Instant(es, ip, n, true, inside, peak, logins) && inside > 0 && peak >= inside
    ensures
      var es' := es + [Answer(ip, Wrong, 0)];
      && Instant(es', ip, n + 1, true, inside - 1, peak, logins)
      && After(es').limiter == RL.Fail(After(es).limiter, ip, 0)
  {
    hide RL.Fail, Trips, Failures, Peak, IsRun, After;
    var g, e := After(es), Answer(ip, Wrong, 0);
    assert Next(g, e).inside[ip] == inside - 1;
    Extended(es, e, ip);
  }

  lemma InstantKey(es: seq<Event>, ip: string, n: nat, inside: nat, peak: nat, logins: Logins)
    requires Instant(es, ip, n, true, inside, peak, logins) && peak >= inside && logins.keys
    ensures
      var es' := es + [Ssh(ip, GoodKey, 0)];
      Instant(es', ip, n, true, inside, peak, logins) && ip !in After(es').limiter.bans
  {
    hide Failures, Peak, IsRun, After;
    Extended(es, Ssh(ip, GoodKey, 0), ip);
  }

  lemma InstantRefusal(es: seq<Event>, ip: string, n: nat)
    requires Instant(es, ip, n, false, 0, 0, Logins(true, false))
    ensures Instant(es + [Ssh(ip, Refusal, 0)], ip, n + 1, false, 0, 0, Logins(true, false))
  {
    hide RL.Fail, Trips, Failures, Peak, IsRun, After;
    Extended(es, Ssh(ip, Refusal, 0), ip);
  }

  lemma {:induction false} RecentIsShorter(ts: seq<Time>, now: Time)
    ensures |RL.Recent(ts, now)| <= |ts|
  {
    if ts != [] { RecentIsShorter(ts[..|ts| - 1], now); }
  }

  lemma FailBelowFive(l: RL.State, ip: string, n: nat)
    requires ip !in l.bans && |RL.Attempts(l, ip)| <= n < 4
    ensures ip !in RL.Fail(l, ip, 0).bans && |RL.Attempts(RL.Fail(l, ip, 0), ip)| <= n + 1
  {
    RecentIsShorter(RL.Attempts(l, ip), 0);
    hide RL.Recent;
  }

  const NO_LOGINS := Logins(false, false)

  lemma NothingYet(ip: string, door: bool, logins: Logins)
    ensures Instant([], ip, 0, door, 0, 0, logins)
    ensures After([]).limiter == RL.Empty()
  {
  }

  // One more connection that is let in and fails.
  lemma InstantFailure(es: seq<Event>, ip: string, n: nat, peak: nat, logins: Logins) returns (es': seq<Event>)
    requires Instant(es, ip, n, true, 0, peak, logins) && ip !in After(es).limiter.bans && peak <= 1
    ensures Instant(es', ip, n + 1, true, 0, 1, logins)
    ensures After(es').limiter == RL.Fail(After(es).limiter, ip, 0)
  {
    hide Instant, IsRun, After, RL.Fail;
    InstantDoor(es, ip, n, 0, peak, logins);
    es' := es + [Door(ip, 0)];
    InstantWrong(es', ip, n, 1, 1, logins);
    es' := es' + [Answer(ip, Wrong, 0)];
  }

  // Up to four failures one after the other set off no ban.
  lemma {:induction false} FourInTurn(ip: string, n: nat) returns (es: seq<Event>)
    requires n <= 4
    ensures IsRun(es) && Instant(es, ip, n, true, 0, if n > 0 then 1 else 0, NO_LOGINS)
    ensures ip !in After(es).limiter.bans && |RL.Attempts(After(es).limiter, ip)| <= n
  {
    hide Instant, IsRun, After, RL.Fail;
    if n == 0 {
      es := [];
      NothingYet(ip, true, NO_LOGINS);
    } else {
      var before := FourInTurn(ip, n - 1);
      FailBelowFive(After(before).limiter, ip, n - 1);
      es := InstantFailure(before, ip, n - 1, if n > 1 then 1 else 0, NO_LOGINS);
      InstantIsWithin(es, ip, n, true, 0, 1, NO_LOGINS);
    }
  }

  lemma {:induction false} AllInside(ip: string, k: nat) returns (es: seq<Event>)
    ensures Instant(es, ip, 4, true, k, if k > 1 then k else 1, NO_LOGINS)
    ensures ip !in After(es).limiter.bans
  {
    if k == 0 {
      es := FourInTurn(ip, 4);
    } else {
      es := AllInside(ip, k - 1);
      hide Instant;
      InstantDoor(es, ip, 4, k - 1, if k > 2 then k - 1 else 1, NO_LOGINS);
      es := es + [Door(ip, 0)];
    }
  }

  lemma {:induction false} AllStrike(ip: string, k: nat, m: nat) returns (es: seq<Event>)
    requires 1 <= k && m <= k
    ensures Instant(es, ip, 4 + m, true, k - m, k, NO_LOGINS)
  {
    hide Instant;
    if m == 0 {
      es := AllInside(ip, k);
    } else {
      es := AllStrike(ip, k, m - 1);
      InstantWrong(es, ip, 4 + (m - 1), k - m + 1, k, NO_LOGINS);
      es := es + [Answer(ip, Wrong, 0)];
    }
  }

  // What a moment can hold.
  ghost predicate AtOneMoment(f: seq<Strike>, n: nat, door: bool) {
    |f| == n && forall i :: 0 <= i < n ==> f[i].at == 0 && f[i].door == door
  }

  lemma InstantIsWithin(es: seq<Event>, ip: string, n: nat, door: bool, inside: nat, peak: nat, logins: Logins)
    requires Instant(es, ip, n, door, inside, peak, logins)
    ensures Within(es, ip, peak, logins) && AtOneMoment(Failures(es, ip), n, door)
  {
    hide IsRun, Failures, Peak, Allows;
  }

  // For every k there is a run without SSH logins, with never more than k inside,
  // and 4 + k failures at one moment.
  lemma BoundIsReached(ip: string, k: nat) returns (es: seq<Event>)
    requires k >= 1
    ensures Within(es, ip, k, NO_LOGINS) && AtOneMoment(Failures(es, ip), 4 + k, true)
    ensures Strikes(es, ip) == Failures(es, ip)
  {
    es := AllStrike(ip, k, k);
    InstantIsWithin(es, ip, 4 + k, true, 0, k, NO_LOGINS);
    hide Instant;
    SameWithoutKeys(es, ip);
  }

  // For every n, with nobody ever inside, n refused SSH logins at one moment.
  lemma {:induction false} RefusalsUnbounded(ip: string, n: nat) returns (es: seq<Event>)
    ensures Instant(es, ip, n, false, 0, 0, Logins(true, false))
  {
    if n == 0 {
      es := [];
    } else {
      es := RefusalsUnbounded(ip, n - 1);
      hide Instant;
      InstantRefusal(es, ip, n - 1);
      es := es + [Ssh(ip, Refusal, 0)];
    }
  }

  // And with one inside at a time, no login refused and no token right, n
  // front-door failures at one moment: a recognised key opens the door again.
  lemma {:induction false} KeysReopen(ip: string, n: nat) returns (es: seq<Event>)
    ensures Instant(es, ip, n, true, 0, if n > 0 then 1 else 0, Logins(false, true))
  {
    hide Instant, IsRun, After, RL.Fail;
    var logins := Logins(false, true);
    if n == 0 {
      es := [];
      NothingYet(ip, true, logins);
    } else {
      var before := KeysReopen(ip, n - 1);
      var peak := if n > 1 then 1 else 0;
      InstantKey(before, ip, n - 1, 0, peak, logins);
      es := InstantFailure(before + [Ssh(ip, GoodKey, 0)], ip, n - 1, peak, logins);
    }
  }

  // ---------------------------------------------------------------- when five are guaranteed

  // Without recognised keys a reset is a right token.
  lemma {:induction false} SameWithoutKeys(es: seq<Event>, ip: string)
    requires IsRun(es)
    requires forall i :: 0 <= i < |es| ==> Allows(Logins(true, false), es[i], ip)
    ensures Strikes(es, ip) == Failures(es, ip)
  {
    if es != [] {
      var init, e := es[..|es| - 1], es[|es| - 1];
      assert forall i :: 0 <= i < |init| ==> init[i] == es[i];
      SameWithoutKeys(init, ip);
      assert Allows(Logins(true, false), e, ip);
    }
  }

  // Without refused logins every failure is at the front door.
  lemma {:induction false} AllAtTheDoor(es: seq<Event>, ip: string, keys: bool)
    requires IsRun(es)
    requires forall i :: 0 <= i < |es| ==> Allows(Logins(false, keys), es[i], ip)
    ensures forall s <- Failures(es, ip) :: s.door
  {
    if es != [] {
      var init, e := es[..|es| - 1], es[|es| - 1];
      assert forall i :: 0 <= i < |init| ==> init[i] == es[i];
      AllAtTheDoor(init, ip, keys);
      assert Allows(Logins(false, keys), e, ip);
    }
  }

  lemma {:induction false} AllCount(f: seq<Strike>, i: nat, n: nat)
    requires i <= n <= |f| && forall s <- f :: s.door
    ensures Doors(f, i, n) == n - i
  {
    if i < n {
      assert f[n - 1] in f;
      AllCount(f, i, n - 1);
    }
  }

  lemma {:induction false} NoneCount(f: seq<Strike>, i: nat, n: nat)
    requires i <= n <= |f| && forall s <- f :: !s.door
    ensures Doors(f, i, n) == 0
  {
    if i < n {
      assert f[n - 1] in f;
      NoneCount(f, i, n - 1);
    }
  }

  ghost predicate AtMostFiveAtTheDoor(f: seq<Strike>) {
    forall i: nat, j: nat :: i <= j < |f| && f[j].at < f[i].at + RL.WINDOW ==> Doors(f, i, j + 1) <= 5
  }

  ghost predicate AtMostFive(f: seq<Strike>) {
    forall i, j :: 0 <= i <= j < |f| && f[j].at < f[i].at + RL.WINDOW ==> j - i + 1 <= 5
  }

  lemma NoneAtTheDoor(f: seq<Strike>)
    requires forall s <- f :: !s.door
    ensures AtMostFiveAtTheDoor(f)
  {
    forall i: nat, j: nat | i <= j < |f| && f[j].at < f[i].at + RL.WINDOW ensures Doors(f, i, j + 1) <= 5 {
      NoneCount(f, i, j + 1);
    }
  }

  lemma AllCountAtTheDoor(f: seq<Strike>)
    requires AtMostFiveAtTheDoor(f) && forall s <- f :: s.door
    ensures AtMostFive(f)
  {
    forall i: nat, j: nat | i <= j < |f| && f[j].at < f[i].at + RL.WINDOW ensures j - i + 1 <= 5 {
      AllCount(f, i, j + 1);
    }
  }

  lemma OneInside(es: seq<Event>, ip: string)
    requires IsRun(es) && Ordered(es) && Peak(es, ip) <= 1
    ensures AtMostFiveAtTheDoor(Strikes(es, ip))
  {
    hide IsRun, Ordered, Strikes, Peak, Doors;
    var f := Strikes(es, ip);
    forall i: nat, j: nat | i <= j < |f| && f[j].at < f[i].at + RL.WINDOW ensures Doors(f, i, j + 1) <= 5 {
      FourMoreThanInside(es, ip, f[i].at, i, j);
    }
  }

  // Whatever keeps to the fewer logins keeps to the more.
  lemma WithinMore(es: seq<Event>, ip: string, k: nat, few: Logins, k': nat, more: Logins)
    requires Within(es, ip, k, few) && k <= k'
    requires (few.refusals ==> more.refusals) && (few.keys ==> more.keys)
    ensures Within(es, ip, k', more)
  {
    hide IsRun, Ordered, Peak;
    forall i | 0 <= i < |es| ensures Allows(more, es[i], ip) { assert Allows(few, es[i], ip); }
  }

  lemma FiveAtTheDoor(es: seq<Event>, ip: string, k: nat, logins: Logins)
    requires Within(es, ip, k, logins) && (k == 0 || (k == 1 && !logins.keys))
    ensures AtMostFiveAtTheDoor(Failures(es, ip))
  {
    hide IsRun, Ordered, Strikes, Failures, Peak, Doors, Allows, AtMostFiveAtTheDoor;
    if k == 0 {
      LeftBelowPeak(es, ip);
      NoneAtTheDoor(Failures(es, ip));
    } else {
      WithinMore(es, ip, k, logins, k, Logins(true, false));
      SameWithoutKeys(es, ip);
      OneInside(es, ip);
    }
  }

  lemma SixAreTooMany(f: seq<Strike>, door: bool)
    requires AtOneMoment(f, 6, door)
    ensures !AtMostFive(f) && (door ==> !AtMostFiveAtTheDoor(f))
  {
    assert f[0].at == 0 && f[5].at == 0;
    if door { AllCount(f, 0, 6); }
  }

  // The run of six failures at the door that overlap or a recognised key make possible.
  lemma SixAtTheDoor(ip: string, k: nat, logins: Logins) returns (es: seq<Event>)
    requires k >= 2 || (k == 1 && logins.keys)
    ensures Within(es, ip, k, logins) && AtOneMoment(Failures(es, ip), 6, true)
  {
    hide Within, AtOneMoment, Instant;
    if k >= 2 {
      es := BoundIsReached(ip, 2);
      WithinMore(es, ip, 2, NO_LOGINS, k, logins);
    } else {
      es := KeysReopen(ip, 6);
      InstantIsWithin(es, ip, 6, true, 0, 1, Logins(false, true));
      WithinMore(es, ip, 1, Logins(false, true), k, logins);
    }
  }

  // Five front-door failures a minute between two right tokens are guaranteed if
  // and only if connections of the address do not overlap and none of its SSH
  // logins is recognised by key. Refused logins make no difference.
  lemma FiveAtTheDoorExactly(ip: string, k: nat, logins: Logins)
    ensures
      (forall es :: Within(es, ip, k, logins) ==> AtMostFiveAtTheDoor(Failures(es, ip))) <==>
      k == 0 || (k == 1 && !logins.keys)
  {
    hide Allows, AtMostFiveAtTheDoor, Failures;
    if k == 0 || (k == 1 && !logins.keys) {
      forall es | Within(es, ip, k, logins) ensures AtMostFiveAtTheDoor(Failures(es, ip)) {
        FiveAtTheDoor(es, ip, k, logins);
      }
    } else {
      var es := SixAtTheDoor(ip, k, logins);
      SixAreTooMany(Failures(es, ip), true);
    }
  }

  lemma FiveInAll(es: seq<Event>, ip: string, k: nat, logins: Logins)
    requires Within(es, ip, k, logins) && !logins.refusals && (k == 0 || (k == 1 && !logins.keys))
    ensures AtMostFive(Failures(es, ip))
  {
    hide IsRun, Ordered, Failures, Peak, Doors, Allows, AtMostFiveAtTheDoor, AtMostFive;
    FiveAtTheDoor(es, ip, k, logins);
    WithinMore(es, ip, k, logins, k, Logins(false, logins.keys));
    AllAtTheDoor(es, ip, logins.keys);
    AllCountAtTheDoor(Failures(es, ip));
  }

  // Five failures a minute in all, as the documentation has it, are guaranteed if
  // and only if, besides, no SSH login of the address is refused.
  lemma FiveInAllExactly(ip: string, k: nat, logins: Logins)
    ensures
      (forall es :: Within(es, ip, k, logins) ==> AtMostFive(Failures(es, ip))) <==>
      !logins.refusals && (k == 0 || (k == 1 && !logins.keys))
  {
    hide Allows, AtMostFive, Failures, Instant;
    if !logins.refusals && (k == 0 || (k == 1 && !logins.keys)) {
      forall es | Within(es, ip, k, logins) ensures AtMostFive(Failures(es, ip)) {
        FiveInAll(es, ip, k, logins);
      }
    } else if logins.refusals {
      var es := RefusalsUnbounded(ip, 6);
      InstantIsWithin(es, ip, 6, false, 0, 0, Logins(true, false));
      WithinMore(es, ip, 0, Logins(true, false), k, logins);
      SixAreTooMany(Failures(es, ip), false);
    } else {
      var es := SixAtTheDoor(ip, k, logins);
      SixAreTooMany(Failures(es, ip), true);
    }
  }
}
