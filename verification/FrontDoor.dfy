/** What the server decides about a new connection before any traffic flows, and
    the moments at which anyone meets the limiter. */
module FrontDoor {
  import opened Bytes
  import RL = RateLimit
  import TK = Tokens

  type Time = int

  // The first frame, as far as it matters here.
  datatype Hello = ReadFailed | NotAuth | Undecodable | Auth(token: string, proxy: bool)

  datatype Outcome =
    | Blocked                    // banned, nothing read
    | Dropped                    // no usable AUTH frame
    | Refused                    // AUTH_FAIL, one strike
    | Admitted(name: string, proxy: bool)

  // The calls the clock is read in: the ban check, the token check, the strike.
  datatype Clock = Clock(atDoor: Time, atCheck: Time, atStrike: Time)

  class Server {
    const limiter: RL.RateLimiter
    const tokens: TK.Manager
    const whitelist: map<string, string>   // address to name
    var authFailures: nat

    constructor (limiter: RL.RateLimiter, tokens: TK.Manager, whitelist: map<string, string>)
      ensures this.limiter == limiter && this.tokens == tokens && this.whitelist == whitelist && authFailures == 0
    {
      this.limiter, this.tokens, this.whitelist := limiter, tokens, whitelist;
      authFailures := 0;
    }

    // A banned address is turned away before anything is read, and nobody else is;
    // a whitelisted one needs no token, any other one an entry that is alive.
    method HandleConn(ip: string, hello: Hello, clock: Clock) returns (out: Outcome)
      modifies this, limiter, tokens
      ensures out == Blocked <==> ip in old(limiter.bans) && clock.atDoor < old(limiter.bans)[ip]
      ensures out == Dropped <==> out != Blocked && !hello.Auth?
      ensures out.Admitted? ==> out.proxy == hello.proxy
      ensures out != Blocked && hello.Auth? && ip in whitelist ==> out.Admitted? && out.name == whitelist[ip]
      ensures out != Blocked && hello.Auth? && ip !in whitelist ==>
        var ts, h := old(tokens.tokens), tokens.hash(hello.token);
        && (out.Admitted? <==> exists i :: 0 <= i < |ts| && TK.FirstOf(ts, i, h) && TK.Alive(ts[i], clock.atCheck))
        && (forall i :: 0 <= i < |ts| && out.Admitted? && TK.FirstOf(ts, i, h) ==> out.name == ts[i].name)
      ensures
        var verdict := Verdict(whitelist, old(tokens.tokens), tokens.hash, ip, hello, clock);
        && out == Decide(old(limiter.View()), whitelist, old(tokens.tokens), tokens.hash, ip, hello, clock)
        && (out == Refused <==> verdict.Wrong? && !RL.Banned(old(limiter.View()), ip, clock.atDoor))
        && limiter.View() == Visited(old(limiter.View()), ip, clock.atDoor, verdict, clock.atStrike)
        && authFailures == old(authFailures) + (if out == Refused then 1 else 0)
        && tokens.tokens ==
             if hello.Auth? && !RL.Banned(old(limiter.View()), ip, clock.atDoor) && ip !in whitelist
             then TK.AfterCheck(old(tokens.tokens), tokens.hash(hello.token), clock.atCheck)
             else old(tokens.tokens)
    {
      var banned := limiter.IsBanned(ip, clock.atDoor);
      if banned { return Blocked; }
      if !hello.Auth? { return Dropped; }
      var name: string;
      if ip in whitelist {
        name := whitelist[ip];
      } else {
        var v := tokens.Validate(hello.token, clock.atCheck);
        if !v.Valid? {
          limiter.RecordFailure(ip, clock.atStrike);
          authFailures := authFailures + 1;
          return Refused;
        }
        limiter.Reset(ip);
        name := v.name;
      }
      return Admitted(name, hello.proxy);
    }

    // The password of an SSH login is checked as a token, banned or not.
    method SshPassword(ip: string, raw: string, atCheck: Time, atStrike: Time) returns (name: Option<string>)
      modifies this, limiter, tokens
      ensures
        var v := TK.Check(old(tokens.tokens), tokens.hash(raw), atCheck);
        && name == (if v.Valid? then Some(v.name) else None)
        && tokens.tokens == TK.AfterCheck(old(tokens.tokens), tokens.hash(raw), atCheck)
        && limiter.View() == Next(Gate(old(limiter.View()), multiset{}),
                                  Ssh(ip, if name.Some? then GoodPassword else Refusal, atStrike)).limiter
        && authFailures == old(authFailures) + (if name.Some? then 0 else 1)
    {
      var v := tokens.Validate(raw, atCheck);
      if !v.Valid? {
        limiter.RecordFailure(ip, atStrike);
        authFailures := authFailures + 1;
        return None;
      }
      limiter.Reset(ip);
      return Some(v.name);
    }

    // `managed` is the name a registered key goes by, `trusted` says that the
    // host's own list has the key for this user.
    method SshKey(ip: string, user: string, managed: Option<string>, trusted: bool, at: Time)
      returns (name: Option<string>)
      modifies this, limiter
      ensures name == if managed.Some? then managed else if trusted then Some(user) else None
      ensures limiter.View() == Next(Gate(old(limiter.View()), multiset{}),
                                     Ssh(ip, if name.Some? then GoodKey else Refusal, at)).limiter
      ensures authFailures == old(authFailures) + (if name.Some? then 0 else 1)
    {
      if managed.Some? {
        limiter.Reset(ip);
        return managed;
      }
      if trusted {
        limiter.Reset(ip);
        return Some(user);
      }
      limiter.RecordFailure(ip, at);
      authFailures := authFailures + 1;
      return None;
    }
  }

  function Decide(l: RL.State, whitelist: map<string, string>, ts: seq<TK.Token>, hash: string -> TK.Hash,
                  ip: string, hello: Hello, clock: Clock): Outcome
  {
    if RL.Banned(l, ip, clock.atDoor) then Blocked
    else if !hello.Auth? then Dropped
    else if ip in whitelist then Admitted(whitelist[ip], hello.proxy)
    else
      match TK.Check(ts, hash(hello.token), clock.atCheck)
      case Valid(name) => Admitted(name, hello.proxy)
      case _ => Refused
  }

  // ---------------------------------------------------------------- one connection

  // What a visitor who is let past the ban check would meet.
  datatype TokenCheck = NotReached | Right | Wrong

  function Verdict(whitelist: map<string, string>, ts: seq<TK.Token>, hash: string -> TK.Hash,
                   ip: string, hello: Hello, clock: Clock): TokenCheck
  {
    if !hello.Auth? || ip in whitelist then NotReached
    else if TK.Check(ts, hash(hello.token), clock.atCheck).Valid? then Right
    else Wrong
  }

  // The limiter after one connection that was alone from end to end.
  function Visited(l: RL.State, ip: string, atDoor: Time, check: TokenCheck, atStrike: Time): RL.State {
    if RL.Banned(l, ip, atDoor) then l
    else
      var l1 := RL.Check(l, ip, atDoor);
      match check
      case NotReached => l1
      case Right => RL.Clear(l1, ip)
      case Wrong => RL.Fail(l1, ip, atStrike)
  }

  // ---------------------------------------------------------------- many at once

  // How a login at the embedded SSH server ends. Its password is a token; a key
  // is recognised without one.
  datatype SshLogin = GoodPassword | GoodKey | Refusal

  // The moments at which anyone meets the limiter: the two of a connection at the
  // front door, and the one of an SSH login, which never asks whether the address
  // is banned. They may follow each other in any order.
  datatype Event =
    | Door(ip: string, at: Time)
    | Answer(ip: string, check: TokenCheck, at: Time)
    | Ssh(ip: string, login: SshLogin, at: Time)

  // The limiter, and how many connections of each address are past its door
  // and have not had their answer.
  datatype Gate = Gate(limiter: RL.State, inside: multiset<string>)

  predicate Can(g: Gate, e: Event) {
    e.Answer? ==> e.ip in g.inside
  }

  function Next(g: Gate, e: Event): Gate
    requires Can(g, e)
  {
    match e
    case Door(ip, at) =>
      if RL.Banned(g.limiter, ip, at) then g
      else Gate(RL.Check(g.limiter, ip, at), g.inside + multiset{ip})
    case Answer(ip, check, at) =>
      Gate(match check
           case NotReached => g.limiter
           case Right => RL.Clear(g.limiter, ip)
           case Wrong => RL.Fail(g.limiter, ip, at),
           g.inside - multiset{ip})
    case Ssh(ip, login, at) =>
      g.(limiter := if login.Refusal? then RL.Fail(g.limiter, ip, at) else RL.Clear(g.limiter, ip))
  }

  ghost predicate IsRun(es: seq<Event>)
    decreases |es|, 0
  {
    es == [] || (IsRun(es[..|es| - 1]) && Can(After(es[..|es| - 1]), es[|es| - 1]))
  }

  ghost function After(es: seq<Event>): Gate
    requires IsRun(es)
    decreases |es|, 1
  {
    if es == [] then Gate(RL.Empty(), multiset{}) else Next(After(es[..|es| - 1]), es[|es| - 1])
  }

  // The limiter reads one clock under its mutex, and the clock does not run backwards.
  ghost predicate Ordered(es: seq<Event>) {
    forall i, j :: 0 <= i < j < |es| ==> es[i].at <= es[j].at
  }

  // A connection handled from end to end is its two moments, whoever else is inside.
  lemma VisitIsTwoMoments(g: Gate, ip: string, atDoor: Time, check: TokenCheck, atStrike: Time)
    ensures
      var g1 := Next(g, Door(ip, atDoor));
      if RL.Banned(g.limiter, ip, atDoor)
      then g1 == g && Visited(g.limiter, ip, atDoor, check, atStrike) == g.limiter
      else
        var e := Answer(ip, check, atStrike);
        Can(g1, e) && Next(g1, e) == Gate(Visited(g.limiter, ip, atDoor, check, atStrike), g.inside)
  {
    assert g.inside + multiset{ip} - multiset{ip} == g.inside;
  }

  // The calls these events make, for the limiter's own theorems.
  function CallsOf(e: Event): seq<RL.Call> {
    match e
    case Door(ip, at) => [RL.IsBanned(ip, at)]
    case Answer(ip, NotReached, at) => []
    case Answer(ip, Right, at) => [RL.Reset(ip, at)]
    case Answer(ip, Wrong, at) => [RL.RecordFailure(ip, at)]
    case Ssh(ip, login, at) => [if login.Refusal? then RL.RecordFailure(ip, at) else RL.Reset(ip, at)]
  }

  function Calls(es: seq<Event>): seq<RL.Call> {
    if es == [] then [] else Calls(es[..|es| - 1]) + CallsOf(es[|es| - 1])
  }

  lemma CallsStep(g: Gate, e: Event, calls: seq<RL.Call>)
    requires Can(g, e) && g.limiter == RL.After(calls)
    ensures Next(g, e).limiter == RL.After(calls + CallsOf(e))
  {
    hide RL.Fail;
    if CallsOf(e) == [] {
      assert calls + [] == calls;
    } else {
      assert CallsOf(e) == [CallsOf(e)[0]];
      assert (calls + CallsOf(e))[..|calls|] == calls;
    }
  }

  lemma {:induction false} GateFollowsLimiter(es: seq<Event>)
    requires IsRun(es)
    ensures After(es).limiter == RL.After(Calls(es))
  {
    hide Next, CallsOf;
    if es != [] {
      GateFollowsLimiter(es[..|es| - 1]);
      CallsStep(After(es[..|es| - 1]), es[|es| - 1], Calls(es[..|es| - 1]));
    }
  }
}
