/** What every step of tunnel mode keeps. */
module TunSafety {
  import opened Bytes
  import opened Dotted
  import opened Registry
  import opened TunSwitch
  import opened TunSystem
  import Acl
  import Expose

  // ---------------------------------------------------------------- the invariant

  function Alive(c: Conn): int {
    if c.Live() then 1 else 0
  }

  function Active(c: Conn): int {
    if c.phase.Counted? || c.phase.Serving? || c.phase.Leaving? then 1 else 0
  }

  function Established(c: Conn): int {
    if c.phase.Registered? then 0 else 1
  }

  function OutTally(c: Conn): int {
    c.bytesOut
  }

  function InTally(c: Conn): int {
    c.bytesIn
  }

  // Counted for the client, not yet for the server.
  function OutUnpublished(c: Conn): int {
    if c.sender.OutTallied? then c.sender.n else 0
  }

  function InUnpublished(c: Conn): int {
    if c.reader.InTallied? then c.reader.n else 0
  }

  // A packet refused and not counted as dropped yet.
  function RefusalLag(c: Conn): int {
    if c.reader.Refusing? then 1 else 0
  }

  function RouteLag(s: State): int {
    if s.owes then 1 else 0
  }

  function InHand(s: Sender): seq<Bytes> {
    match s
    case Holding(pkt) => [pkt]
    case Broken(pkt) => [pkt]
    case _ => []
  }

  // All packets that ever entered a client's queue, wherever they are now.
  function Accepted(c: Conn): seq<Bytes> {
    c.written + InHand(c.sender) + c.queue
  }

  function Held(c: Conn): int {
    |Accepted(c)|
  }

  // The registry holds exactly the live connections, each under its own address.
  ghost predicate Holds(base: string, table: map<string, nat>, conns: seq<Conn>) {
    && table.Keys <= Pool(base, FIRST_OCTET)
    && (forall i :: 0 <= i < |conns| && conns[i].Live() ==> conns[i].ip in table && table[conns[i].ip] == i)
    && (forall ip <- table :: table[ip] < |conns| && conns[table[ip]].ip == ip && conns[table[ip]].Live())
    && |table| == Sum(conns, Alive)
  }

  ghost predicate Owned(s: State) {
    Holds(s.base, s.table, s.conns)
  }

  ghost predicate Heads(s: State) {
    s.active == Sum(s.conns, Active) && s.total == Sum(s.conns, Established)
  }

  // A client's counters are the bytes written, but for an update under way. Its
  // reader is not started before the greeting.
  ghost predicate Ledger(c: Conn) {
    && (c.phase.Registered? || c.phase.Totalled? || c.phase.Counted? ==> c.reader.Unborn?)
    && c.bytesOut + (if c.sender.Sent? then c.sender.n else 0) == Total(c.written)
    && c.bytesIn + (if c.reader.Passed? then c.reader.n else 0) == Total(c.toTun)
  }

  ghost predicate Balanced(s: State) {
    && (forall i :: 0 <= i < |s.conns| ==> Ledger(s.conns[i]))
    && s.bytesOut + Sum(s.conns, OutUnpublished) == Sum(s.conns, OutTally)
    && s.bytesIn + Sum(s.conns, InUnpublished) == Sum(s.conns, InTally)
  }

  function QueuedFor(log: seq<Event>, i: nat): seq<Bytes> {
    if log == [] then []
    else
      var e := log[|log| - 1];
      QueuedFor(log[..|log| - 1], i) + (if e.verdict.Queued? && e.Destined() == Some(i) then [e.pkt] else [])
  }

  function Matched(log: seq<Event>): nat {
    if log == [] then 0
    else Matched(log[..|log| - 1]) + (if log[|log| - 1].Destined().Some? then 1 else 0)
  }

  function Drops(log: seq<Event>): nat {
    if log == [] then 0
    else Drops(log[..|log| - 1]) + (if Dropped(log[|log| - 1].verdict) then 1 else 0)
  }

  // Where an event went, and why it may have been refused.
  ghost predicate Truthful(e: Event, conns: seq<Conn>) {
    match e.Destined()
    case None => e.verdict.Unrouted?
    case Some(k) =>
      && !e.verdict.Unrouted?
      && k < |conns| && conns[k].ip == DestIp(e.pkt)
      && (e.verdict.Refused? <==> !Permitted(e.policy, conns[k].name, e.pkt))
  }

  ghost predicate Delivered(s: State) {
    && (forall i :: 0 <= i < |s.conns| ==>
          Accepted(s.conns[i]) == QueuedFor(s.log, i) && |s.conns[i].queue| <= QUEUE_CAP)
    && (forall e <- s.log :: Truthful(e, s.conns))
  }

  ghost predicate Conserved(s: State) {
    && s.dropped + RouteLag(s) + Sum(s.conns, RefusalLag) == s.refusedIn + Drops(s.log)
    && Matched(s.log) == Drops(s.log) + Sum(s.conns, Held)
  }

  function TakenFrom(arrivals: seq<Arrival>, i: nat): seq<Bytes> {
    if arrivals == [] then []
    else
      var a := arrivals[|arrivals| - 1];
      TakenFrom(arrivals[..|arrivals| - 1], i) + (if a.conn == i && a.fate.Taken? then [a.pkt] else [])
  }

  function TurnedBack(arrivals: seq<Arrival>): nat {
    if arrivals == [] then 0
    else TurnedBack(arrivals[..|arrivals| - 1]) + (if arrivals[|arrivals| - 1].fate.TurnedAway? then 1 else 0)
  }

  // What a client had written to the TUN device is what was taken of its packets;
  // the set each met decided.
  ghost predicate Admitted(s: State) {
    && (forall i :: 0 <= i < |s.conns| ==> s.conns[i].toTun == TakenFrom(s.arrivals, i))
    && (forall a <- s.arrivals :: a.conn < |s.conns| && (a.fate.TurnedAway? <==> !Accepts(a.expose, a.pkt)))
    && s.refusedIn == TurnedBack(s.arrivals)
  }

  ghost predicate Inv(s: State) {
    Owned(s) && Heads(s) && Balanced(s) && Delivered(s) && Conserved(s) && Admitted(s)
  }

  // ---------------------------------------------------------------- handler steps

  // Connections are only added, and keep their names and addresses.
  ghost predicate SameNames(conns: seq<Conn>, conns': seq<Conn>) {
    |conns| <= |conns'| &&
    forall i :: 0 <= i < |conns| ==> conns'[i].name == conns[i].name && conns'[i].ip == conns[i].ip
  }

  lemma StaysTruthful(log: seq<Event>, conns: seq<Conn>, conns': seq<Conn>)
    requires SameNames(conns, conns') && forall e <- log :: Truthful(e, conns)
    ensures forall e <- log :: Truthful(e, conns')
  {
    hide DestIp, Permitted;
  }

  lemma UpdateHolds(base: string, table: map<string, nat>, conns: seq<Conn>, i: nat, c: Conn)
    requires Holds(base, table, conns) && i < |conns|
    requires c.ip == conns[i].ip && c.Live() == conns[i].Live()
    ensures Holds(base, table, conns[i := c])
  {
    hide Pool, Sum;
    SumUpdate(conns, Alive, i, c);
  }

  lemma RemoveHolds(base: string, table: map<string, nat>, conns: seq<Conn>, i: nat, c: Conn)
    requires Holds(base, table, conns) && i < |conns|
    requires c.ip == conns[i].ip && conns[i].Live() && !c.Live()
    ensures Holds(base, table - {c.ip}, conns[i := c])
  {
    hide Pool, Sum;
    SumUpdate(conns, Alive, i, c);
    assert (table - {c.ip}).Keys == table.Keys - {c.ip};
  }

  lemma HandlerOwns(s: State, i: nat, hs: HandlerStep)
    requires Owned(s) && i < |s.conns| && HandlerCan(s.conns[i], hs)
    ensures Owned(HandlerApply(s, i, hs))
  {
    hide Holds;
    var c := HandlerNext(s.conns[i], hs);
    if hs.Unregister? {
      RemoveHolds(s.base, s.table, s.conns, i, c);
    } else {
      UpdateHolds(s.base, s.table, s.conns, i, c);
    }
  }

  lemma HandlerHeads(s: State, i: nat, hs: HandlerStep)
    requires Heads(s) && i < |s.conns| && HandlerCan(s.conns[i], hs)
    ensures Heads(HandlerApply(s, i, hs))
  {
    SumUpdate(s.conns, Active, i, HandlerNext(s.conns[i], hs));
    SumUpdate(s.conns, Established, i, HandlerNext(s.conns[i], hs));
  }

  lemma HandlerLedger(c: Conn, hs: HandlerStep)
    requires Ledger(c) && HandlerCan(c, hs)
    ensures Ledger(HandlerNext(c, hs)) && InUnpublished(HandlerNext(c, hs)) == InUnpublished(c)
  {
    hide Total;
    if hs.WritePacket? { TotalAppend(c.written, c.sender.pkt); }
  }

  lemma HandlerBalances(s: State, i: nat, hs: HandlerStep)
    requires Balanced(s) && i < |s.conns| && HandlerCan(s.conns[i], hs)
    ensures Balanced(HandlerApply(s, i, hs))
  {
    hide Ledger;
    var c := HandlerNext(s.conns[i], hs);
    HandlerLedger(s.conns[i], hs);
    SumUpdate(s.conns, OutUnpublished, i, c);
    SumUpdate(s.conns, OutTally, i, c);
    SumUpdate(s.conns, InUnpublished, i, c);
    SumUpdate(s.conns, InTally, i, c);
  }

  lemma HandlerAccepts(c: Conn, hs: HandlerStep)
    requires HandlerCan(c, hs)
    ensures Accepted(HandlerNext(c, hs)) == Accepted(c)
  {
  }

  lemma HandlerDelivers(s: State, i: nat, hs: HandlerStep)
    requires Delivered(s) && i < |s.conns| && HandlerCan(s.conns[i], hs)
    ensures Delivered(HandlerApply(s, i, hs))
  {
    HandlerAccepts(s.conns[i], hs);
    hide Accepted, Truthful, QueuedFor;
    StaysTruthful(s.log, s.conns, HandlerApply(s, i, hs).conns);
  }

  lemma HandlerConserves(s: State, i: nat, hs: HandlerStep)
    requires Conserved(s) && i < |s.conns| && HandlerCan(s.conns[i], hs) && Ledger(s.conns[i])
    ensures Conserved(HandlerApply(s, i, hs))
  {
    hide Accepted, Matched, Drops, Sum, Total;
    HandlerAccepts(s.conns[i], hs);
    SumUpdate(s.conns, RefusalLag, i, HandlerNext(s.conns[i], hs));
    SumUpdate(s.conns, Held, i, HandlerNext(s.conns[i], hs));
  }

  // ---------------------------------------------------------------- reader steps

  lemma ReaderOwns(s: State, i: nat, rs: ReaderStep)
    requires Owned(s) && i < |s.conns| && ReaderCan(s.conns[i], rs)
    ensures Owned(ReaderApply(s, i, rs))
  {
    hide Holds, Accepts, ReaderNext;
    UpdateHolds(s.base, s.table, s.conns, i, ReaderNext(s.expose, s.conns[i], rs));
  }

  lemma ReaderHeads(s: State, i: nat, rs: ReaderStep)
    requires Heads(s) && i < |s.conns| && ReaderCan(s.conns[i], rs)
    ensures Heads(ReaderApply(s, i, rs))
  {
    hide Accepts, ReaderNext;
    SumUpdate(s.conns, Active, i, ReaderNext(s.expose, s.conns[i], rs));
    SumUpdate(s.conns, Established, i, ReaderNext(s.expose, s.conns[i], rs));
  }

  lemma ReaderLedger(e: Option<Expose.Exposed>, c: Conn, rs: ReaderStep)
    requires Ledger(c) && ReaderCan(c, rs)
    ensures Ledger(ReaderNext(e, c, rs))
  {
    hide Accepts, Total;
    if rs.Receive? { TotalAppend(c.toTun, rs.pkt); }
  }

  lemma ReaderBalances(s: State, i: nat, rs: ReaderStep)
    requires Balanced(s) && i < |s.conns| && ReaderCan(s.conns[i], rs)
    ensures Balanced(ReaderApply(s, i, rs))
  {
    hide Ledger, Accepts;
    var c := ReaderNext(s.expose, s.conns[i], rs);
    ReaderLedger(s.expose, s.conns[i], rs);
    SumUpdate(s.conns, OutUnpublished, i, c);
    SumUpdate(s.conns, OutTally, i, c);
    SumUpdate(s.conns, InUnpublished, i, c);
    SumUpdate(s.conns, InTally, i, c);
  }

  lemma ReaderAccepts(e: Option<Expose.Exposed>, c: Conn, rs: ReaderStep)
    requires ReaderCan(c, rs)
    ensures Accepted(ReaderNext(e, c, rs)) == Accepted(c) && ReaderNext(e, c, rs).queue == c.queue
  {
    hide Accepts;
  }

  lemma ReaderDelivers(s: State, i: nat, rs: ReaderStep)
    requires Delivered(s) && i < |s.conns| && ReaderCan(s.conns[i], rs)
    ensures Delivered(ReaderApply(s, i, rs))
  {
    var c := ReaderNext(s.expose, s.conns[i], rs);
    ReaderAccepts(s.expose, s.conns[i], rs);
    hide Accepted, Truthful, QueuedFor, Accepts, ReaderNext;
    StaysTruthful(s.log, s.conns, s.conns[i := c]);
  }

  lemma ReaderConserves(s: State, i: nat, rs: ReaderStep)
    requires Conserved(s) && i < |s.conns| && ReaderCan(s.conns[i], rs)
    ensures Conserved(ReaderApply(s, i, rs))
  {
    ReaderAccepts(s.expose, s.conns[i], rs);
    hide Accepted, Accepts, Matched, Drops, Sum;
    var c := ReaderNext(s.expose, s.conns[i], rs);
    SumUpdate(s.conns, Held, i, c);
    SumUpdate(s.conns, RefusalLag, i, c);
  }

  // ---------------------------------------------------------------- connecting

  lemma {:induction false} UnusedNumber(log: seq<Event>, conns: seq<Conn>)
    requires forall e <- log :: Truthful(e, conns)
    ensures QueuedFor(log, |conns|) == []
  {
    if log != [] {
      assert log[|log| - 1] in log;
      UnusedNumber(log[..|log| - 1], conns);
    }
  }

  lemma AddHolds(base: string, table: map<string, nat>, conns: seq<Conn>, c: Conn)
    requires Holds(base, table, conns) && c.Live() && c.ip in Pool(base, FIRST_OCTET) && c.ip !in table
    ensures Holds(base, table[c.ip := |conns|], conns + [c])
  {
    hide Pool, Sum;
    SumAppend(conns, Alive, c);
    assert table[c.ip := |conns|].Keys == table.Keys + {c.ip};
  }

  lemma ConnectOwns(s: State, name: string)
    requires Owned(s)
    ensures Owned(ConnectApply(s, name))
  {
    LeastFreeIsLeast(s.table.Keys, s.base, FIRST_OCTET);
    if o :| LeastFree(s.table.Keys, s.base, FIRST_OCTET) == Some(o) {
      assert InPool(s.base, o) in Pool(s.base, FIRST_OCTET);
      hide Holds, LeastFree, InPool, Pool;
      AddHolds(s.base, s.table, s.conns, NewConn(name, InPool(s.base, o)));
    }
  }

  lemma ConnectCounts(s: State, name: string)
    requires Heads(s) && Balanced(s)
    ensures Heads(ConnectApply(s, name)) && Balanced(ConnectApply(s, name))
  {
    hide LeastFree, InPool;
    if o :| LeastFree(s.table.Keys, s.base, FIRST_OCTET) == Some(o) {
      var c := NewConn(name, InPool(s.base, o));
      SumAppend(s.conns, Active, c);
      SumAppend(s.conns, Established, c);
      SumAppend(s.conns, OutUnpublished, c);
      SumAppend(s.conns, OutTally, c);
      SumAppend(s.conns, InUnpublished, c);
      SumAppend(s.conns, InTally, c);
    }
  }

  lemma ConnectDelivers(s: State, name: string)
    requires Delivered(s)
    ensures Delivered(ConnectApply(s, name))
  {
    UnusedNumber(s.log, s.conns);
    hide LeastFree, InPool, Truthful, QueuedFor;
    if o :| LeastFree(s.table.Keys, s.base, FIRST_OCTET) == Some(o) {
      var c := NewConn(name, InPool(s.base, o));
      assert Accepted(c) == [];
      hide Accepted;
      StaysTruthful(s.log, s.conns, s.conns + [c]);
    }
  }

  lemma ConnectConserves(s: State, name: string)
    requires Conserved(s)
    ensures Conserved(ConnectApply(s, name))
  {
    hide LeastFree, InPool, Matched, Drops, Sum;
    if o :| LeastFree(s.table.Keys, s.base, FIRST_OCTET) == Some(o) {
      SumAppend(s.conns, Held, NewConn(name, InPool(s.base, o)));
      SumAppend(s.conns, RefusalLag, NewConn(name, InPool(s.base, o)));
    }
  }

  // ---------------------------------------------------------------- routing

  // A routing step leaves everything but queues and drops as it was.
  lemma RouteOwns(s: State, pkt: Bytes)
    requires Owned(s) && Heads(s) && Enabled(s, Route(pkt))
    ensures Owned(RouteApply(s, pkt)) && Heads(RouteApply(s, pkt))
  {
    hide DestIp, VerdictOn, Holds;
    var s' := RouteApply(s, pkt);
    if s'.conns != s.conns {
      var k := s.table[DestIp(pkt)];
      UpdateHolds(s.base, s.table, s.conns, k, s'.conns[k]);
      SumUpdate(s.conns, Active, k, s'.conns[k]);
      SumUpdate(s.conns, Established, k, s'.conns[k]);
    }
  }

  lemma RouteBalances(s: State, pkt: Bytes)
    requires Balanced(s) && Enabled(s, Route(pkt))
    ensures Balanced(RouteApply(s, pkt))
  {
    hide DestIp, VerdictOn, Total;
    var s' := RouteApply(s, pkt);
    if s'.conns != s.conns {
      var k := s.table[DestIp(pkt)];
      SumUpdate(s.conns, OutUnpublished, k, s'.conns[k]);
      SumUpdate(s.conns, OutTally, k, s'.conns[k]);
      SumUpdate(s.conns, InUnpublished, k, s'.conns[k]);
      SumUpdate(s.conns, InTally, k, s'.conns[k]);
    }
  }

  lemma LogAppend(log: seq<Event>, e: Event, i: nat)
    ensures QueuedFor(log + [e], i) ==
      QueuedFor(log, i) + if e.verdict.Queued? && e.Destined() == Some(i) then [e.pkt] else []
    ensures Matched(log + [e]) == Matched(log) + if e.Destined().Some? then 1 else 0
    ensures Drops(log + [e]) == Drops(log) + if Dropped(e.verdict) then 1 else 0
  {
    assert (log + [e])[..|log|] == log;
  }

  lemma RouteTruthful(s: State, pkt: Bytes)
    requires Owned(s) && Delivered(s) && Enabled(s, Route(pkt))
    ensures forall e <- RouteApply(s, pkt).log :: Truthful(e, RouteApply(s, pkt).conns)
  {
    hide DestIp, Permitted, Pool, Sum, QueuedFor, Accepted;
    var s' := RouteApply(s, pkt);
    StaysTruthful(s.log, s.conns, s'.conns);
    assert Truthful(s'.log[|s.log|], s'.conns);
  }

  lemma RouteDelivers(s: State, pkt: Bytes)
    requires Owned(s) && Delivered(s) && Enabled(s, Route(pkt))
    ensures Delivered(RouteApply(s, pkt))
  {
    hide DestIp, Permitted, Truthful, Holds, QueuedFor, Matched, Drops;
    var s' := RouteApply(s, pkt);
    RouteTruthful(s, pkt);
    forall i | 0 <= i < |s.conns|
      ensures Accepted(s'.conns[i]) == QueuedFor(s'.log, i) && |s'.conns[i].queue| <= QUEUE_CAP
    {
      LogAppend(s.log, s'.log[|s.log|], i);
    }
  }

  lemma RouteConserves(s: State, pkt: Bytes)
    requires Conserved(s) && Enabled(s, Route(pkt))
    ensures Conserved(RouteApply(s, pkt))
  {
    hide DestIp, Permitted, Matched, Drops, QueuedFor, Sum;
    var s' := RouteApply(s, pkt);
    LogAppend(s.log, s'.log[|s.log|], 0);
    if s'.conns != s.conns {
      var k := s.table[DestIp(pkt)];
      SumUpdate(s.conns, Held, k, s'.conns[k]);
      SumUpdate(s.conns, RefusalLag, k, s'.conns[k]);
    }
  }

  // ---------------------------------------------------------------- packets from clients

  lemma ArrivalAppend(arrivals: seq<Arrival>, a: Arrival, i: nat)
    ensures TakenFrom(arrivals + [a], i) ==
      TakenFrom(arrivals, i) + if a.conn == i && a.fate.Taken? then [a.pkt] else []
    ensures TurnedBack(arrivals + [a]) == TurnedBack(arrivals) + if a.fate.TurnedAway? then 1 else 0
  {
    assert (arrivals + [a])[..|arrivals|] == arrivals;
  }

  lemma {:induction false} NoneTaken(arrivals: seq<Arrival>, i: nat)
    requires forall a <- arrivals :: a.conn < i
    ensures TakenFrom(arrivals, i) == []
  {
    if arrivals != [] {
      assert arrivals[|arrivals| - 1] in arrivals;
      NoneTaken(arrivals[..|arrivals| - 1], i);
    }
  }

  lemma ReaderAdmits(s: State, i: nat, rs: ReaderStep)
    requires Admitted(s) && i < |s.conns| && ReaderCan(s.conns[i], rs)
    ensures Admitted(ReaderApply(s, i, rs))
  {
    hide Accepts, TakenFrom, TurnedBack;
    var s' := ReaderApply(s, i, rs);
    if rs.Receive? {
      var a := s'.arrivals[|s.arrivals|];
      forall k | 0 <= k < |s'.conns| ensures s'.conns[k].toTun == TakenFrom(s'.arrivals, k) {
        ArrivalAppend(s.arrivals, a, k);
      }
      ArrivalAppend(s.arrivals, a, 0);
    }
  }

  lemma HandlerAdmits(s: State, i: nat, hs: HandlerStep)
    requires Admitted(s) && i < |s.conns| && HandlerCan(s.conns[i], hs)
    ensures Admitted(HandlerApply(s, i, hs))
  {
    hide Accepts, TakenFrom, TurnedBack;
  }

  lemma ConnectAdmits(s: State, name: string)
    requires Admitted(s)
    ensures Admitted(ConnectApply(s, name))
  {
    NoneTaken(s.arrivals, |s.conns|);
    hide Accepts, TakenFrom, TurnedBack, LeastFree, InPool;
  }

  lemma RouteAdmits(s: State, pkt: Bytes)
    requires Admitted(s) && Enabled(s, Route(pkt))
    ensures Admitted(RouteApply(s, pkt))
  {
    hide Accepts, TakenFrom, TurnedBack, DestIp, VerdictOn;
  }

  // ---------------------------------------------------------------- every run

  lemma InvKept(s: State, step: Step)
    requires Inv(s) && Enabled(s, step)
    ensures Inv(Apply(s, step))
  {
    hide Owned, Heads, Balanced, Delivered, Conserved, Admitted, ConnectApply, RouteApply, HandlerApply, ReaderApply;
    match step {
      case Connect(name) =>
        ConnectOwns(s, name);
        ConnectCounts(s, name);
        ConnectDelivers(s, name);
        ConnectConserves(s, name);
        ConnectAdmits(s, name);
      case Route(pkt) =>
        RouteOwns(s, pkt);
        RouteBalances(s, pkt);
        RouteDelivers(s, pkt);
        RouteConserves(s, pkt);
        RouteAdmits(s, pkt);
      case PublishDrop => PublishKeeps(s);
      case OfHandler(i, hs) =>
        HandlerOwns(s, i, hs);
        HandlerHeads(s, i, hs);
        HandlerBalances(s, i, hs);
        HandlerDelivers(s, i, hs);
        assert Ledger(s.conns[i]) by { LedgerAt(s, i); }
        HandlerConserves(s, i, hs);
        HandlerAdmits(s, i, hs);
      case OfReader(i, rs) =>
        ReaderOwns(s, i, rs);
        ReaderHeads(s, i, rs);
        ReaderBalances(s, i, rs);
        ReaderDelivers(s, i, rs);
        ReaderConserves(s, i, rs);
        ReaderAdmits(s, i, rs);
      case ReloadAcl(p) => SettingsKeep(s, Some(p), s.expose);
      case RefreshExposed(fetch) => SettingsKeep(s, s.policy, Some(Expose.Refreshed(s.expose.value, fetch)));
    }
  }

  lemma LedgerAt(s: State, i: nat)
    requires Balanced(s) && i < |s.conns|
    ensures Ledger(s.conns[i])
  {
  }

  lemma PublishKeeps(s: State)
    requires Inv(s) && s.owes
    ensures Inv(s.(dropped := s.dropped + 1, owes := false))
  {
    hide Holds, Ledger, Truthful, QueuedFor, Accepted, Sum;
  }

  lemma SettingsKeep(s: State, policy: Option<Acl.Policy>, expose: Option<Expose.Exposed>)
    requires Inv(s)
    ensures Inv(s.(policy := policy, expose := expose))
  {
  }

  lemma {:induction false} InvHolds(u: Setup, steps: seq<Step>)
    requires IsRun(u, steps)
    ensures Inv(After(u, steps))
  {
    if steps != [] {
      InvHolds(u, steps[..|steps| - 1]);
      InvKept(After(u, steps[..|steps| - 1]), steps[|steps| - 1]);
    }
  }

  ghost predicate Reached(s: State) {
    exists u, steps :: IsRun(u, steps) && After(u, steps) == s
  }

  lemma ReachedIsSafe(s: State)
    requires Reached(s)
    ensures Inv(s)
  {
    var u, steps :| IsRun(u, steps) && After(u, steps) == s;
    InvHolds(u, steps);
  }
}
