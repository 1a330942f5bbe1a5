/** What tunnel mode guarantees in every state that any run reaches. */
module TunTheorems {
  import opened Bytes
  import opened Dotted
  import opened Registry
  import opened TunSwitch
  import opened TunSystem
  import opened TunSafety
  import Expose
  import Packets

  // ---------------------------------------------------------------- addresses

  // Every live handler is found under its own pool address, and nobody else is.
  lemma PoolIsOwned(s: State)
    requires Reached(s)
    ensures forall i :: 0 <= i < |s.conns| && s.conns[i].Live() ==>
      && s.conns[i].ip in s.table && s.table[s.conns[i].ip] == i
      && exists o :: 2 <= o <= 254 && s.conns[i].ip == InPool(s.base, o)
    ensures forall i, j :: 0 <= i < j < |s.conns| && s.conns[i].Live() && s.conns[j].Live() ==>
      s.conns[i].ip != s.conns[j].ip
    ensures forall ip <- s.table ::
      s.table[ip] < |s.conns| && s.conns[s.table[ip]].Live() && s.conns[s.table[ip]].ip == ip
  {
    ReachedIsSafe(s);
    forall i | 0 <= i < |s.conns| && s.conns[i].Live()
      ensures exists o :: 2 <= o <= 254 && s.conns[i].ip == InPool(s.base, o)
    {
      assert s.conns[i].ip in Pool(s.base, FIRST_OCTET);
    }
  }

  lemma InvNext(s: State, step: Step)
    requires Reached(s) && Enabled(s, step)
    ensures Inv(s) && Inv(Apply(s, step))
  {
    ReachedIsSafe(s);
    InvKept(s, step);
  }

  // Another handler, another reader and the router leave a client alone, but for
  // its queue.
  lemma OnlyOwnStepsMove(s: State, step: Step, i: nat)
    requires Enabled(s, step) && i < |s.conns|
    requires !(step.OfHandler? && step.i == i) && !(step.OfReader? && step.i == i)
    ensures
      var s' := Apply(s, step);
      i < |s'.conns| && s'.conns[i] == s.conns[i].(queue := s'.conns[i].queue)
  {
    hide LeastFree, DestIp, VerdictOn, Accepts, HandlerNext, ReaderNext;
  }

  // A handler only ever leaves through its own last step.
  lemma LeavesByItself(s: State, step: Step, i: nat)
    requires Enabled(s, step) && i < |s.conns|
    ensures
      var s' := Apply(s, step);
      && i < |s'.conns| && s'.conns[i].ip == s.conns[i].ip
      && (step != OfHandler(i, Unregister) ==> s'.conns[i].Live() == s.conns[i].Live())
  {
    hide LeastFree, DestIp, VerdictOn, Accepts, ConnectApply, RouteApply;
    if !(step.OfHandler? && step.i == i) && !(step.OfReader? && step.i == i) { OnlyOwnStepsMove(s, step, i); }
  }

  lemma LiveIsListed(s: State, i: nat)
    requires Inv(s) && i < |s.conns| && s.conns[i].Live()
    ensures s.conns[i].ip in s.table && s.table[s.conns[i].ip] == i
  {
  }

  // From Assign to its own deferred Remove a handler keeps its address, whatever
  // the others do; that Remove deletes its entry and no other.
  lemma OnlyOwnRemove(s: State, step: Step, i: nat)
    requires Reached(s) && Enabled(s, step) && i < |s.conns| && s.conns[i].Live()
    ensures
      var s', ip := Apply(s, step), s.conns[i].ip;
      if step == OfHandler(i, Unregister) then ip in s.table && s'.table == s.table - {ip}
      else i < |s'.conns| && s'.conns[i].Live() && s'.conns[i].ip == ip && ip in s'.table && s'.table[ip] == i
  {
    hide Inv, Reached;
    InvNext(s, step);
    LiveIsListed(s, i);
    if step == OfHandler(i, Unregister) {
      assert Apply(s, step).table == s.table - {s.conns[i].ip};
    } else {
      hide Apply, Enabled;
      LeavesByItself(s, step, i);
      LiveIsListed(Apply(s, step), i);
    }
  }

  // A connection is turned away exactly when all 253 addresses are taken, and
  // otherwise gets the lowest free one.
  lemma LowestFreeAddress(s: State, name: string)
    requires Reached(s)
    ensures |s.table| <= 253
    ensures Apply(s, Connect(name)) == s <==> |s.table| == 253
    ensures |s.table| < 253 ==>
      exists o :: 2 <= o <= 254 && InPool(s.base, o) !in s.table &&
        (forall p :: 2 <= p < o ==> InPool(s.base, p) in s.table) &&
        Apply(s, Connect(name)).conns == s.conns + [NewConn(name, InPool(s.base, o))]
  {
    ReachedIsSafe(s);
    ExhaustedAt253(s.table.Keys, s.base);
    LeastFreeIsLeast(s.table.Keys, s.base, FIRST_OCTET);
    hide Pool, InPool, Heads, Balanced, Delivered, Conserved, Sum;
  }

  // ---------------------------------------------------------------- delivery

  lemma {:induction false} Positions(log: seq<Event>, i: nat) returns (at: seq<nat>)
    ensures |at| == |QueuedFor(log, i)| && (forall j, k :: 0 <= j < k < |at| ==> at[j] < at[k])
    ensures forall j :: 0 <= j < |at| ==>
      && at[j] < |log| && log[at[j]].verdict.Queued? && log[at[j]].Destined() == Some(i)
      && log[at[j]].pkt == QueuedFor(log, i)[j]
  {
    at := [];
    if log != [] {
      var n: nat := |log| - 1;
      var before := Positions(log[..n], i);
      at := before + if log[n].verdict.Queued? && log[n].Destined() == Some(i) then [n] else [];
      QueuedGrows(log, i);
      hide QueuedFor;
      forall j | 0 <= j < |before| ensures log[..n][at[j]] == log[at[j]] {
        assert at[j] == before[j];
      }
    }
  }

  lemma QueuedGrows(log: seq<Event>, i: nat)
    requires log != []
    ensures
      var last := log[|log| - 1];
      QueuedFor(log, i) ==
        QueuedFor(log[..|log| - 1], i) + (if last.verdict.Queued? && last.Destined() == Some(i) then [last.pkt] else [])
  {
  }

  // In every interleaving of connects, disconnects, routing and draining, what is
  // written to a client is an in-order selection of the TUN packets: `at` gives
  // the places. Bytes 16 to 19 of each name the client's address, the client was
  // registered there when it came, and the policy in force let its name have it.
  lemma DeliveredInOrder(s: State, i: nat) returns (at: seq<nat>)
    requires Reached(s) && i < |s.conns|
    ensures |s.conns[i].queue| <= 256
    ensures |at| == |s.conns[i].written| && (forall j, k :: 0 <= j < k < |at| ==> at[j] < at[k])
    ensures forall j :: 0 <= j < |at| ==>
      && at[j] < |s.log|
      && var e := s.log[at[j]];
         && e.pkt == s.conns[i].written[j]
         && |e.pkt| >= 20 && Render(Ip4(e.pkt[16], e.pkt[17], e.pkt[18], e.pkt[19])) == s.conns[i].ip
         && s.conns[i].ip in e.table && e.table[s.conns[i].ip] == i
         && Permitted(e.policy, s.conns[i].name, e.pkt)
  {
    ReachedIsSafe(s);
    var all := Positions(s.log, i);
    at := all[..|s.conns[i].written|];
    forall j | 0 <= j < |at|
      ensures at[j] < |s.log| && s.log[at[j]].pkt == s.conns[i].written[j] && Truthful(s.log[at[j]], s.conns)
    {
      assert Accepted(s.conns[i])[j] == s.conns[i].written[j];
    }
    hide Owned, Heads, Balanced, Conserved, Render, Permitted, QueuedFor, Accepted;
  }

  // ---------------------------------------------------------------- conservation

  lemma {:induction false} NoRefusal(cs: seq<Conn>)
    requires forall c <- cs :: !c.reader.Refusing?
    ensures Sum(cs, RefusalLag) == 0
  {
    if cs != [] {
      assert cs[|cs| - 1] in cs;
      NoRefusal(cs[..|cs| - 1]);
    }
  }

  // Every TUN packet that finds a registered client is enqueued once or dropped
  // once: what ever entered a queue is written, in hand or still queued, and the
  // drop counter has the rest, next to what the exposed set refused, but for
  // updates under way: at most one of the routing loop and one of each reader.
  lemma EveryPacketIsAccountedFor(s: State)
    requires Reached(s)
    ensures forall e <- s.log ::
      e.verdict.Unrouted? <==>
        |e.pkt| < 20 || Render(Ip4(e.pkt[16], e.pkt[17], e.pkt[18], e.pkt[19])) !in e.table
    ensures forall i :: 0 <= i < |s.conns| ==> Accepted(s.conns[i]) == QueuedFor(s.log, i)
    ensures Matched(s.log) == Drops(s.log) + Sum(s.conns, Held)
    ensures s.dropped + RouteLag(s) + Sum(s.conns, RefusalLag) == Drops(s.log) + s.refusedIn
    ensures !s.owes && (forall c <- s.conns :: !c.reader.Refusing?) ==> s.dropped == Drops(s.log) + s.refusedIn
  {
    if forall c <- s.conns :: !c.reader.Refusing? { NoRefusal(s.conns); }
    ReachedIsSafe(s);
    hide Owned, Heads, Balanced, QueuedFor, Accepted, Matched, Drops;
    forall e <- s.log
      ensures e.verdict.Unrouted? <==>
        |e.pkt| < 20 || Render(Ip4(e.pkt[16], e.pkt[17], e.pkt[18], e.pkt[19])) !in e.table
    {
      assert Truthful(e, s.conns);
    }
  }

  // A packet for an address of the pool, by its four bytes, is looked up to the
  // live client that holds the address, and to nobody if there is none.
  lemma PoolPacketFindsItsHolder(s: State, net: Ip4, octet: Byte, pkt: Bytes, i: nat)
    requires Reached(s) && s.base == BaseOf(net) && Enabled(s, Route(pkt)) && i < |s.conns|
    requires |pkt| >= 20 && pkt[16] == net.a && pkt[17] == net.b && pkt[18] == net.c && pkt[19] == octet
    ensures
      var s' := Apply(s, Route(pkt));
      && |s'.log| == |s.log| + 1
      && (s'.log[|s.log|].Destined() == Some(i) <==> s.conns[i].Live() && s.conns[i].ip == InPool(s.base, octet))
  {
    hide Heads, Balanced, Delivered, Conserved, Admitted, Render, VerdictOn, BaseOf, InPool, Pool, Sum, Reached;
    ReachedIsSafe(s);
    PoolIsDotted(net, octet);
    assert Packets.Destination(pkt) == net.(d := octet);
  }

  // ---------------------------------------------------------------- packets from clients

  lemma {:induction false} TakenAt(arrivals: seq<Arrival>, i: nat) returns (at: seq<nat>)
    ensures |at| == |TakenFrom(arrivals, i)| && (forall j, k :: 0 <= j < k < |at| ==> at[j] < at[k])
    ensures forall j :: 0 <= j < |at| ==>
      && at[j] < |arrivals| && arrivals[at[j]].conn == i && arrivals[at[j]].fate.Taken?
      && arrivals[at[j]].pkt == TakenFrom(arrivals, i)[j]
    ensures forall k: nat :: k < |arrivals| && arrivals[k].conn == i && arrivals[k].fate.Taken? ==> k in at
  {
    at := [];
    if arrivals != [] {
      var n: nat := |arrivals| - 1;
      var before := TakenAt(arrivals[..n], i);
      at := before + if arrivals[n].conn == i && arrivals[n].fate.Taken? then [n] else [];
      hide TakenFrom;
      forall k: nat | k < |arrivals| && arrivals[k].conn == i && arrivals[k].fate.Taken? ensures k in at {
        if k < n {
          assert arrivals[..n][k] == arrivals[k];
        } else {
          assert at[|before|] == k;
        }
      }
      TakenGrows(arrivals, i);
    }
  }

  lemma TakenGrows(arrivals: seq<Arrival>, i: nat)
    requires arrivals != []
    ensures
      var last := arrivals[|arrivals| - 1];
      TakenFrom(arrivals, i) ==
        TakenFrom(arrivals[..|arrivals| - 1], i) + (if last.conn == i && last.fate.Taken? then [last.pkt] else [])
  {
  }

  // Whether a packet arriving in labeled mode may pass: section 3.1 of RFC 791,
  // TCP or UDP, and a target the set allows.
  ghost predicate MayPass(e: Option<Expose.Exposed>, pkt: Bytes) {
    e.None? || exists t ::
      Packets.HeadedFor(pkt, t) && Expose.Allowed(e.value, Render(t.dst), Packets.Name(t.proto), t.port)
  }

  // What a client had written to the TUN device are, in order, exactly those of its
  // packets that met a set they may pass and a device that took them; exactly the
  // packets that may not pass were turned away, and counted as refused.
  lemma FromClientsExactly(s: State, i: nat) returns (at: seq<nat>)
    requires Reached(s) && i < |s.conns|
    ensures |at| == |s.conns[i].toTun| && (forall j, k :: 0 <= j < k < |at| ==> at[j] < at[k])
    ensures forall j :: 0 <= j < |at| ==>
      && at[j] < |s.arrivals|
      && var a := s.arrivals[at[j]];
         a.conn == i && a.fate.Taken? && a.pkt == s.conns[i].toTun[j] && MayPass(a.expose, a.pkt)
    ensures forall k: nat :: k < |s.arrivals| && s.arrivals[k].conn == i && s.arrivals[k].fate.Taken? ==> k in at
    ensures forall a <- s.arrivals :: a.fate.TurnedAway? <==> !MayPass(a.expose, a.pkt)
    ensures s.refusedIn == TurnedBack(s.arrivals)
  {
    hide Reached, Owned, Heads, Balanced, Delivered, Conserved, TakenFrom, TurnedBack, MayPass, Accepts;
    ReachedIsSafe(s);
    at := TakenAt(s.arrivals, i);
    forall a <- s.arrivals ensures Accepts(a.expose, a.pkt) <==> MayPass(a.expose, a.pkt) {
      AcceptsExactly(a.expose, a.pkt);
    }
    assert forall j :: 0 <= j < |at| ==> s.arrivals[at[j]] in s.arrivals;
  }

  lemma AcceptsExactly(e: Option<Expose.Exposed>, pkt: Bytes)
    ensures Accepts(e, pkt) <==> MayPass(e, pkt)
  {
    hide Expose.AllowPacket, Packets.HeadedFor, Expose.Allowed, Render;
    if e.Some? { Expose.PacketCheckIsExact(e.value, pkt); }
  }

  // ---------------------------------------------------------------- counters

  // No counter update of the connection is under way.
  predicate Settled(c: Conn) {
    !c.sender.Sent? && !c.sender.OutTallied? && !c.reader.Passed? && !c.reader.InTallied?
  }

  function WrittenBytes(c: Conn): int {
    Total(c.written)
  }

  function TunBytes(c: Conn): int {
    Total(c.toTun)
  }

  // The bytes a connection moved that the server's own counter has not got yet.
  function OutLag(c: Conn): int {
    match c.sender
    case Sent(n) => n
    case OutTallied(n) => n
    case _ => 0
  }

  function InLag(c: Conn): int {
    match c.reader
    case Passed(n) => n
    case InTallied(n) => n
    case _ => 0
  }

  lemma {:induction false} LagsAddUp(cs: seq<Conn>)
    requires forall i :: 0 <= i < |cs| ==> Ledger(cs[i])
    ensures Sum(cs, WrittenBytes) == Sum(cs, OutTally) + Sum(cs, OutLag) - Sum(cs, OutUnpublished)
    ensures Sum(cs, TunBytes) == Sum(cs, InTally) + Sum(cs, InLag) - Sum(cs, InUnpublished)
  {
    if cs != [] {
      LagsAddUp(cs[..|cs| - 1]);
      hide Total;
      assert Ledger(cs[|cs| - 1]);
    }
  }

  lemma {:induction false} NoLag(cs: seq<Conn>)
    requires forall i :: 0 <= i < |cs| ==> Settled(cs[i])
    ensures Sum(cs, OutLag) == Sum(cs, InLag) == 0
  {
    if cs != [] {
      NoLag(cs[..|cs| - 1]);
      assert Settled(cs[|cs| - 1]);
    }
  }

  // The server's byte counters are the bytes written to and taken from all
  // clients ever connected, but for updates under way; and once those are
  // through, they are also the sums of the clients' counters.
  lemma ByteCountersBalance(s: State)
    requires Reached(s)
    ensures s.bytesOut + Sum(s.conns, OutLag) == Sum(s.conns, WrittenBytes)
    ensures s.bytesIn + Sum(s.conns, InLag) == Sum(s.conns, TunBytes)
    ensures (forall i :: 0 <= i < |s.conns| ==> Settled(s.conns[i])) ==>
      && s.bytesOut == Sum(s.conns, OutTally) == Sum(s.conns, WrittenBytes)
      && s.bytesIn == Sum(s.conns, InTally) == Sum(s.conns, TunBytes)
      && forall i :: 0 <= i < |s.conns| ==>
           s.conns[i].bytesOut == WrittenBytes(s.conns[i]) && s.conns[i].bytesIn == TunBytes(s.conns[i])
  {
    ReachedIsSafe(s);
    hide Owned, Heads, Delivered, Conserved, Total;
    LagsAddUp(s.conns);
    if forall i :: 0 <= i < |s.conns| ==> Settled(s.conns[i]) {
      NoLag(s.conns);
      SettledOnly(s.conns);
      assert forall i :: 0 <= i < |s.conns| ==> Ledger(s.conns[i]);
    }
  }

  lemma {:induction false} SettledOnly(cs: seq<Conn>)
    requires forall i :: 0 <= i < |cs| ==> Settled(cs[i])
    ensures Sum(cs, OutUnpublished) == Sum(cs, InUnpublished) == 0
  {
    if cs != [] {
      SettledOnly(cs[..|cs| - 1]);
      assert Settled(cs[|cs| - 1]);
    }
  }

  // The number of active connections never goes negative, and never exceeds the
  // registered clients or the connections ever established.
  lemma ActiveIsBounded(s: State)
    requires Reached(s)
    ensures 0 <= s.active <= |s.table| <= 253 && s.active <= s.total <= |s.conns|
  {
    hide Reached, Balanced, Delivered, Conserved, Pool, LeastFree, Sum;
    ReachedIsSafe(s);
    ExhaustedAt253(s.table.Keys, s.base);
    SumMonotone(s.conns, Active, Alive);
    SumMonotone(s.conns, Active, Established);
    AtMostOneEach(s.conns);
  }

  // The connections that were counted and have not begun to leave the count, and
  // those that were ever counted.
  function ActiveOnes(cs: seq<Conn>): set<nat> {
    set i: nat | i < |cs| && (cs[i].phase.Counted? || cs[i].phase.Serving? || cs[i].phase.Leaving?)
  }

  function EstablishedOnes(cs: seq<Conn>): set<nat> {
    set i: nat | i < |cs| && !cs[i].phase.Registered?
  }

  lemma OneMore(cs: seq<Conn>, c: Conn)
    ensures ActiveOnes(cs + [c]) == ActiveOnes(cs) + if Active(c) == 1 then {|cs| as nat} else {}
    ensures EstablishedOnes(cs + [c]) == EstablishedOnes(cs) + if Established(c) == 1 then {|cs| as nat} else {}
    ensures (|cs| as nat) !in ActiveOnes(cs) && (|cs| as nat) !in EstablishedOnes(cs)
  {
    assert forall i: nat :: i < |cs| ==> (cs + [c])[i] == cs[i];
  }

  lemma {:induction false} SumsAreCounts(cs: seq<Conn>)
    ensures Sum(cs, Active) == |ActiveOnes(cs)| && Sum(cs, Established) == |EstablishedOnes(cs)|
  {
    if cs == [] {
      assert ActiveOnes(cs) == {} && EstablishedOnes(cs) == {};
    } else {
      var init, last := cs[..|cs| - 1], cs[|cs| - 1];
      SumsAreCounts(init);
      OneMore(init, last);
      assert cs == init + [last];
      hide ActiveOnes, EstablishedOnes;
    }
  }

  // The counters are exactly these numbers.
  lemma CountersAreExact(s: State)
    requires Reached(s)
    ensures s.active == |ActiveOnes(s.conns)| && s.total == |EstablishedOnes(s.conns)|
  {
    hide Reached, Sum, ActiveOnes, EstablishedOnes;
    ReachedIsSafe(s);
    SumsAreCounts(s.conns);
  }

  // A handler stops serving only when a write fails, or when its queue is closed
  // and empty; a reader only when a read or a write to the TUN device fails.
  lemma ServesToTheEnd(s: State, step: Step, i: nat)
    requires Enabled(s, step) && i < |s.conns| && s.conns[i].phase.Serving?
    ensures i < |Apply(s, step).conns|
    ensures !Apply(s, step).conns[i].phase.Serving? ==>
      || step == OfHandler(i, WritePacket(false))
      || (step == OfHandler(i, Drained) && s.conns[i].reader.Closed? && s.conns[i].queue == [])
    ensures !s.conns[i].IsDead() && Apply(s, step).conns[i].IsDead() ==>
      || step == OfReader(i, StopReading)
      || (exists pkt :: step == OfReader(i, Receive(pkt, false)) && Accepts(s.expose, pkt))
  {
    hide LeastFree, DestIp, VerdictOn, Accepts, ConnectApply, RouteApply;
    if !(step.OfHandler? && step.i == i) && !(step.OfReader? && step.i == i) { OnlyOwnStepsMove(s, step, i); }
  }

  lemma {:induction false} AtMostOneEach(cs: seq<Conn>)
    ensures 0 <= Sum(cs, Active) && Sum(cs, Established) <= |cs|
  {
    if cs != [] { AtMostOneEach(cs[..|cs| - 1]); }
  }

  // ---------------------------------------------------------------- the routing loop

  function PeersOf(table: map<string, nat>, conns: seq<Conn>): map<string, Peer>
    requires forall ip <- table :: table[ip] < |conns|
  {
    map ip | ip in table :: Peer(conns[table[ip]].name, conns[table[ip]].IsDead(), conns[table[ip]].queue)
  }

  // The drop under way counted.
  function Board(s: State): Switchboard
    requires forall ip <- s.table :: s.table[ip] < |s.conns|
  {
    Switchboard(PeersOf(s.table, s.conns), s.dropped + if s.owes then 1 else 0)
  }

  // Changing one client changes one peer.
  lemma OnePeerChanges(s: State, k: nat, c: Conn)
    requires Owned(s) && k < |s.conns| && s.conns[k].Live()
    requires c.ip == s.conns[k].ip && c.name == s.conns[k].name && c.IsDead() == s.conns[k].IsDead()
    ensures
      var peers := PeersOf(s.table, s.conns);
      && c.ip in s.table && s.table[c.ip] == k
      && PeersOf(s.table, s.conns[k := c]) == peers[c.ip := peers[c.ip].(queue := c.queue)]
  {
    hide Pool, Sum;
    assert PeersOf(s.table, s.conns[k := c]).Keys == s.table.Keys;
  }

  lemma RouteIsATurn(s: State, pkt: Bytes)
    requires Enabled(s, Route(pkt)) && Owned(s) && Owned(RouteApply(s, pkt))
    ensures Board(RouteApply(s, pkt)) == Routed(Board(s), s.policy, pkt)
  {
    hide Pool, Sum, DestIp, VerdictOn;
    if |pkt| >= 20 && DestIp(pkt) in s.table {
      var k := s.table[DestIp(pkt)];
      var c := s.conns[k];
      OnePeerChanges(s, k, c.(queue := c.queue + [pkt]));
      assert PeersOf(s.table, s.conns)[DestIp(pkt)] == Peer(c.name, c.IsDead(), c.queue);
      hide Holds, PeersOf;
    }
  }

  // A routing step of the system is one turn of the switch's loop.
  lemma RouteStepIsATurn(s: State, pkt: Bytes)
    requires Reached(s) && Enabled(s, Route(pkt))
    ensures
      var s' := Apply(s, Route(pkt));
      && (forall ip <- s.table :: s.table[ip] < |s.conns|) && (forall ip <- s'.table :: s'.table[ip] < |s'.conns|)
      && Board(s') == Routed(Board(s), s.policy, pkt)
  {
    hide Reached, Board, Routed, RouteApply;
    InvNext(s, Route(pkt));
    RouteIsATurn(s, pkt);
  }
}
