/** Tunnel mode as a transition system: the routing loop, the handler and the
    reader of every client ever connected, the registry they share and the
    server's counters. Each registry section, each atomic counter update, each
    queue operation and each write is one step; any enabled step may come next. */
module TunSystem {
  import opened Bytes
  import opened Dotted
  import opened Registry
  import opened TunSwitch
  import Acl
  import Expose

  // ---------------------------------------------------------------- state

  // Where handleConn stands from Assign on; `Leaving` is where its deferred calls begin.
  datatype Phase = Registered | Totalled | Counted | Serving | Leaving | Uncounted | Gone

  // The packet in the handler's hands, and how far it has been accounted for.
  datatype Sender = Idle | Holding(pkt: Bytes) | Sent(n: nat) | OutTallied(n: nat) | Broken(pkt: Bytes)

  // forwardToTUN: `Refusing` has turned a packet away and not counted it yet;
  // `Dead` has set the flag, `Closed` has also closed the queue.
  datatype Reader = Unborn | Reading | Refusing | Passed(n: nat) | InTallied(n: nat) | Dead | Closed

  // `written` is what was written to the client, `toTun` what it had written to
  // the TUN device; the two counters are its own.
  datatype Conn = Conn(
    name: string, ip: string, phase: Phase, sender: Sender, reader: Reader, queue: seq<Bytes>,
    written: seq<Bytes>, toTun: seq<Bytes>, bytesIn: nat, bytesOut: nat)
  {
    predicate IsDead() {
      reader.Dead? || reader.Closed?
    }

    predicate Live() {
      !phase.Gone?
    }
  }

  // One read from the TUN device: the packet, the registry and the policy it
  // met, and what became of it.
  datatype Event = Event(pkt: Bytes, table: map<string, nat>, policy: Option<Acl.Policy>, verdict: Verdict)
  {
    // The connection it was looked up to.
    function Destined(): Option<nat> {
      if |pkt| >= 20 && DestIp(pkt) in table then Some(table[DestIp(pkt)]) else None
    }
  }

  // One packet a reader got from its client: the exposed set it met, and whether
  // it was refused, written to the TUN device, or the device failed.
  datatype Arrival = Arrival(conn: nat, pkt: Bytes, expose: Option<Expose.Exposed>, fate: Fate)

  datatype Fate = TurnedAway | Taken | Failed

  // `log`, `arrivals` and `refusedIn` are histories: all TUN reads, all packets
  // from clients, and how many of those the exposed set refused. `owes` says that
  // the routing loop has decided to drop a packet and not counted it yet. The rest
  // is the server's own state.
  datatype State = State(
    base: string, table: map<string, nat>, conns: seq<Conn>,
    policy: Option<Acl.Policy>, expose: Option<Expose.Exposed>,
    log: seq<Event>, arrivals: seq<Arrival>, refusedIn: nat, owes: bool,
    dropped: nat, bytesIn: nat, bytesOut: nat, active: int, total: nat)

  function Init(base: string, policy: Option<Acl.Policy>, expose: Option<Expose.Exposed>): State {
    State(base, map[], [], policy, expose, [], [], 0, false, 0, 0, 0, 0, 0)
  }

  // ---------------------------------------------------------------- steps

  datatype HandlerStep =
    | CountTotal
    | CountActive
    | Greet(ok: bool)
    | TakePacket
    | WritePacket(ok: bool)
    | TallyOut
    | PublishOut
    | Drained
    | Uncount
    | Unregister

  datatype ReaderStep = Receive(pkt: Bytes, ok: bool) | PublishRefusal | TallyIn | PublishIn | StopReading | CloseQueue

  datatype Step =
    | Connect(name: string)
    | Route(pkt: Bytes)
    | PublishDrop
    | OfHandler(i: nat, hs: HandlerStep)
    | OfReader(i: nat, rs: ReaderStep)
    | ReloadAcl(policy: Acl.Policy)
    | RefreshExposed(fetch: Expose.Fetch)

  predicate HandlerCan(c: Conn, step: HandlerStep) {
    match step
    case CountTotal => c.phase.Registered?
    case CountActive => c.phase.Totalled?
    case Greet(_) => c.phase.Counted?
    case TakePacket => c.phase.Serving? && c.sender.Idle? && c.queue != []
    case WritePacket(_) => c.phase.Serving? && c.sender.Holding?
    case TallyOut => c.sender.Sent?
    case PublishOut => c.sender.OutTallied?
    case Drained => c.phase.Serving? && c.sender.Idle? && c.queue == [] && c.reader.Closed?
    case Uncount => c.phase.Leaving?
    case Unregister => c.phase.Uncounted?
  }

  predicate ReaderCan(c: Conn, step: ReaderStep) {
    match step
    case Receive(_, _) => c.reader.Reading?
    case PublishRefusal => c.reader.Refusing?
    case TallyIn => c.reader.Passed?
    case PublishIn => c.reader.InTallied?
    case StopReading => c.reader.Reading?
    case CloseQueue => c.reader.Dead?
  }

  predicate Enabled(s: State, step: Step) {
    match step
    case OfHandler(i, hs) => i < |s.conns| && HandlerCan(s.conns[i], hs)
    case OfReader(i, rs) => i < |s.conns| && ReaderCan(s.conns[i], rs)
    case ReloadAcl(_) => s.policy.Some?
    case RefreshExposed(_) => s.expose.Some?
    case PublishDrop => s.owes
    case Route(pkt) => !s.owes && (|pkt| < 20 || DestIp(pkt) !in s.table || s.table[DestIp(pkt)] < |s.conns|)
    case Connect(_) => true
  }

  function HandlerNext(c: Conn, step: HandlerStep): (c': Conn)
    requires HandlerCan(c, step)
    ensures c'.name == c.name && c'.ip == c.ip
  {
    match step
    case CountTotal => c.(phase := Totalled)
    case CountActive => c.(phase := Counted)
    case Greet(ok) => if ok then c.(phase := Serving, reader := Reading) else c.(phase := Leaving)
    case TakePacket => c.(sender := Holding(c.queue[0]), queue := c.queue[1..])
    case WritePacket(ok) =>
      if ok then c.(written := c.written + [c.sender.pkt], sender := Sent(|c.sender.pkt|))
      else c.(sender := Broken(c.sender.pkt), phase := Leaving)
    case TallyOut => c.(bytesOut := c.bytesOut + c.sender.n, sender := OutTallied(c.sender.n))
    case PublishOut => c.(sender := Idle)
    case Drained => c.(phase := Leaving)
    case Uncount => c.(phase := Uncounted)
    case Unregister => c.(phase := Gone)
  }

  predicate Accepts(e: Option<Expose.Exposed>, pkt: Bytes) {
    e.Some? ==> Expose.AllowPacket(e.value, pkt)
  }

  function ReaderNext(e: Option<Expose.Exposed>, c: Conn, step: ReaderStep): (c': Conn)
    requires ReaderCan(c, step)
    ensures c'.name == c.name && c'.ip == c.ip && c'.phase == c.phase
  {
    match step
    case Receive(pkt, ok) =>
      if !Accepts(e, pkt) then c.(reader := Refusing)
      else if ok then c.(toTun := c.toTun + [pkt], reader := Passed(|pkt|))
      else c.(reader := Dead)
    case PublishRefusal => c.(reader := Reading)
    case TallyIn => c.(bytesIn := c.bytesIn + c.reader.n, reader := InTallied(c.reader.n))
    case PublishIn => c.(reader := Reading)
    case StopReading => c.(reader := Dead)
    case CloseQueue => c.(reader := Closed)
  }

  function HandlerApply(s: State, i: nat, step: HandlerStep): State
    requires i < |s.conns| && HandlerCan(s.conns[i], step)
  {
    var c := s.conns[i];
    var s1 := s.(conns := s.conns[i := HandlerNext(c, step)]);
    match step
    case CountTotal => s1.(total := s.total + 1)
    case CountActive => s1.(active := s.active + 1)
    case PublishOut => s1.(bytesOut := s.bytesOut + c.sender.n)
    case Uncount => s1.(active := s.active - 1)
    case Unregister => s1.(table := s.table - {c.ip})
    case _ => s1
  }

  function ReaderApply(s: State, i: nat, step: ReaderStep): State
    requires i < |s.conns| && ReaderCan(s.conns[i], step)
  {
    var c := s.conns[i];
    var s1 := s.(conns := s.conns[i := ReaderNext(s.expose, c, step)]);
    match step
    case Receive(pkt, ok) =>
      var fate := if !Accepts(s.expose, pkt) then TurnedAway else if ok then Taken else Failed;
      s1.(arrivals := s.arrivals + [Arrival(i, pkt, s.expose, fate)],
          refusedIn := if fate.TurnedAway? then s.refusedIn + 1 else s.refusedIn)
    case PublishRefusal => s1.(dropped := s.dropped + 1)
    case PublishIn => s1.(bytesIn := s.bytesIn + c.reader.n)
    case _ => s1
  }

  function NewConn(name: string, ip: string): Conn {
    Conn(name, ip, Registered, Idle, Unborn, [], [], [], 0, 0)
  }

  // The handler that finds no free address answers AUTH_FAIL and returns.
  function ConnectApply(s: State, name: string): State {
    match LeastFree(s.table.Keys, s.base, FIRST_OCTET)
    case None => s
    case Some(o) =>
      var ip := InPool(s.base, o);
      s.(table := s.table[ip := |s.conns|],
         conns := s.conns + [NewConn(name, ip)])
  }

  ghost function RouteApply(s: State, pkt: Bytes): State
    requires Enabled(s, Route(pkt))
  {
    if |pkt| < 20 || DestIp(pkt) !in s.table then
      s.(log := s.log + [Event(pkt, s.table, s.policy, Unrouted)])
    else
      var k := s.table[DestIp(pkt)];
      var c := s.conns[k];
      var v := VerdictOn(s.policy, Peer(c.name, c.IsDead(), c.queue), pkt);
      s.(log := s.log + [Event(pkt, s.table, s.policy, v)],
         conns := if v.Queued? then s.conns[k := c.(queue := c.queue + [pkt])] else s.conns,
         owes := !v.Queued?)
  }

  ghost function Apply(s: State, step: Step): State
    requires Enabled(s, step)
  {
    match step
    case Connect(name) => ConnectApply(s, name)
    case Route(pkt) => RouteApply(s, pkt)
    case PublishDrop => s.(dropped := s.dropped + 1, owes := false)
    case OfHandler(i, hs) => HandlerApply(s, i, hs)
    case OfReader(i, rs) => ReaderApply(s, i, rs)
    case ReloadAcl(p) => s.(policy := Some(p))
    case RefreshExposed(fetch) => s.(expose := Some(Expose.Refreshed(s.expose.value, fetch)))
  }

  // ---------------------------------------------------------------- runs

  datatype Setup = Setup(base: string, policy: Option<Acl.Policy>, expose: Option<Expose.Exposed>)

  ghost predicate IsRun(u: Setup, steps: seq<Step>)
    decreases |steps|, 0
  {
    steps == [] ||
    (IsRun(u, steps[..|steps| - 1]) && Enabled(After(u, steps[..|steps| - 1]), steps[|steps| - 1]))
  }

  ghost function After(u: Setup, steps: seq<Step>): State
    requires IsRun(u, steps)
    decreases |steps|, 1
  {
    if steps == [] then Init(u.base, u.policy, u.expose)
    else Apply(After(u, steps[..|steps| - 1]), steps[|steps| - 1])
  }

  // ---------------------------------------------------------------- sums over all connections

  function Sum(cs: seq<Conn>, f: Conn -> int): int {
    if cs == [] then 0 else Sum(cs[..|cs| - 1], f) + f(cs[|cs| - 1])
  }

  lemma {:induction false} SumUpdate(cs: seq<Conn>, f: Conn -> int, i: nat, c: Conn)
    requires i < |cs|
    ensures Sum(cs[i := c], f) == Sum(cs, f) - f(cs[i]) + f(c)
  {
    var n := |cs| - 1;
    if i < n {
      SumUpdate(cs[..n], f, i, c);
      assert cs[i := c][..n] == cs[..n][i := c];
    } else {
      assert cs[i := c][..n] == cs[..n];
    }
  }

  lemma SumAppend(cs: seq<Conn>, f: Conn -> int, c: Conn)
    ensures Sum(cs + [c], f) == Sum(cs, f) + f(c)
  {
    assert (cs + [c])[..|cs|] == cs;
  }

  lemma {:induction false} SumMonotone(cs: seq<Conn>, f: Conn -> int, g: Conn -> int)
    requires forall i :: 0 <= i < |cs| ==> f(cs[i]) <= g(cs[i])
    ensures Sum(cs, f) <= Sum(cs, g)
  {
    if cs != [] { SumMonotone(cs[..|cs| - 1], f, g); }
  }
}
