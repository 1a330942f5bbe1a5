/** The packet switch between the TUN device and the connected clients: the loop
    that sorts packets into bounded queues, and the two loops of each client. */
module TunSwitch {
  import opened Bytes
  import opened Dotted
  import opened Registry
  import Acl
  import Expose
  import Packets

  const QUEUE_CAP := 256

  // What becomes of one packet read from the TUN device.
  datatype Verdict = Unrouted | Refused | Late | Full | Queued

  predicate Dropped(v: Verdict) {
    v.Refused? || v.Late? || v.Full?
  }

  // A client as the routing loop sees it.
  datatype Peer = Peer(name: string, dead: bool, queue: seq<Bytes>)

  function DestIp(pkt: Bytes): string
    requires |pkt| >= 20
  {
    Render(Packets.Destination(pkt))
  }

  // Whether the access list in force, if there is one, lets a packet through.
  ghost predicate Permitted(policy: Option<Acl.Policy>, name: string, pkt: Bytes) {
    policy.Some? ==> Acl.Permits(policy.value, name, pkt)
  }

  ghost function VerdictOn(policy: Option<Acl.Policy>, p: Peer, pkt: Bytes): Verdict {
    if !Permitted(policy, p.name, pkt) then Refused
    else if p.dead then Late
    else if |p.queue| >= QUEUE_CAP then Full
    else Queued
  }

  // ---------------------------------------------------------------- a batch of reads

  datatype Switchboard = Switchboard(peers: map<string, Peer>, dropped: nat)

  ghost function Routed(v: Switchboard, policy: Option<Acl.Policy>, pkt: Bytes): Switchboard {
    if |pkt| < 20 || DestIp(pkt) !in v.peers then v
    else
      var p := v.peers[DestIp(pkt)];
      if VerdictOn(policy, p, pkt).Queued?
      then v.(peers := v.peers[DestIp(pkt) := p.(queue := p.queue + [pkt])])
      else v.(dropped := v.dropped + 1)
  }

  ghost function RoutedAll(v: Switchboard, policy: Option<Acl.Policy>, pkts: seq<Bytes>): Switchboard {
    if pkts == [] then v else Routed(RoutedAll(v, policy, pkts[..|pkts| - 1]), policy, pkts[|pkts| - 1])
  }

  // Bytes 16 to 19 name the address.
  predicate AddressedTo(pkt: Bytes, ip: string) {
    |pkt| >= 20 && Render(Ip4(pkt[16], pkt[17], pkt[18], pkt[19])) == ip
  }

  // A packet built with any header is looked up under the address it was built for.
  lemma BuiltPacketIsLookedUp(h: Packets.Header, source: Bytes, port: Uint16, rest: Bytes)
    requires h.Legal() && |source| == 2
    ensures
      var pkt := Packets.Packet(h, source, port, rest);
      |pkt| >= 20 && DestIp(pkt) == Render(h.dst) && forall ip :: AddressedTo(pkt, ip) <==> ip == Render(h.dst)
  {
    Packets.AddressBytes(h, source, port, rest);
  }

  // The packets of a batch that one client is meant to get.
  ghost function MeantFor(policy: Option<Acl.Policy>, ip: string, name: string, pkts: seq<Bytes>): seq<Bytes> {
    if pkts == [] then []
    else
      var last := pkts[|pkts| - 1];
      MeantFor(policy, ip, name, pkts[..|pkts| - 1]) +
        (if AddressedTo(last, ip) && Permitted(policy, name, last) then [last] else [])
  }

  function Take(pkts: seq<Bytes>, n: int): seq<Bytes> {
    if n <= 0 then [] else if n >= |pkts| then pkts else pkts[..n]
  }

  lemma RoutedQueue(v: Switchboard, policy: Option<Acl.Policy>, pkt: Bytes, ip: string)
    requires ip in v.peers
    ensures
      var p, v' := v.peers[ip], Routed(v, policy, pkt);
      && v'.peers.Keys == v.peers.Keys
      && v'.peers[ip] ==
         if !p.dead && AddressedTo(pkt, ip) && Permitted(policy, p.name, pkt) && |p.queue| < QUEUE_CAP
         then p.(queue := p.queue + [pkt]) else p
  {
    hide Render, Permitted;
  }

  lemma TakeOneMore(q: seq<Bytes>, all: seq<Bytes>, pkt: Bytes, cap: nat)
    ensures
      var had := q + Take(all, cap - |q|);
      q + Take(all + [pkt], cap - |q|) == if |had| < cap then had + [pkt] else had
  {
  }

  // However packets are interleaved, a live client is queued the first of its
  // own that fit, in order, and a dead one nothing: no other client's traffic
  // shows in its queue.
  lemma {:induction false} QueueGetsItsOwn(v: Switchboard, policy: Option<Acl.Policy>, pkts: seq<Bytes>, ip: string)
    requires ip in v.peers
    ensures
      var p, v' := v.peers[ip], RoutedAll(v, policy, pkts);
      && v'.peers.Keys == v.peers.Keys
      && v'.peers[ip] == p.(queue := p.queue +
           if p.dead then [] else Take(MeantFor(policy, ip, p.name, pkts), QUEUE_CAP - |p.queue|))
  {
    hide Routed, AddressedTo, Permitted, Take;
    var p := v.peers[ip];
    assert p.queue + [] == p.queue;
    if pkts == [] {
      assert Take([], QUEUE_CAP - |p.queue|) == [] by { NothingToTake(QUEUE_CAP - |p.queue|); }
    } else {
      var init, last := pkts[..|pkts| - 1], pkts[|pkts| - 1];
      QueueGetsItsOwn(v, policy, init, ip);
      RoutedQueue(RoutedAll(v, policy, init), policy, last, ip);
      var before := MeantFor(policy, ip, p.name, init);
      TakeOneMore(p.queue, before, last, QUEUE_CAP);
      assert before + [] == before;
    }
  }

  lemma NothingToTake(n: int)
    ensures Take([], n) == []
  {
  }

  // In numbers: what is added is a prefix of the client's packets, as long as 256
  // allows.
  lemma QueueFillsTo256(v: Switchboard, policy: Option<Acl.Policy>, pkts: seq<Bytes>, ip: string)
    requires ip in v.peers && |v.peers[ip].queue| <= 256
    ensures ip in RoutedAll(v, policy, pkts).peers
    ensures
      var q, all := v.peers[ip].queue, v.peers[ip].queue + MeantFor(policy, ip, v.peers[ip].name, pkts);
      var q' := RoutedAll(v, policy, pkts).peers[ip].queue;
      if v.peers[ip].dead then q' == q else q' == all[..if |all| < 256 then |all| else 256]
  {
    hide RoutedAll, MeantFor;
    QueueGetsItsOwn(v, policy, pkts, ip);
  }

  // ---------------------------------------------------------------- frames from a client

  // A frame of a client; `written` says whether the TUN device took the packet.
  datatype Inbound = IpPacket(payload: Bytes, written: bool) | Ping | Disconnect | Other

  predicate Passes(e: Option<Expose.Exposed>, f: Inbound) {
    f.IpPacket? && (e.Some? ==> Expose.AllowPacket(e.value, f.payload))
  }

  // What ends the loop, besides a failed read.
  predicate Ends(e: Option<Expose.Exposed>, f: Inbound) {
    f.Disconnect? || (Passes(e, f) && !f.written)
  }

  function Passing(e: Option<Expose.Exposed>, fs: seq<Inbound>): seq<Bytes> {
    if fs == [] then []
    else
      var last := fs[|fs| - 1];
      Passing(e, fs[..|fs| - 1]) + (if Passes(e, last) then [last.payload] else [])
  }

  function Rejected(e: Option<Expose.Exposed>, fs: seq<Inbound>): nat {
    if fs == [] then 0
    else
      var last := fs[|fs| - 1];
      Rejected(e, fs[..|fs| - 1]) + (if last.IpPacket? && !Passes(e, last) then 1 else 0)
  }

  // In labeled mode a packet passes if and only if it is an unfragmented TCP or UDP
  // packet headed for an allowed target; otherwise every packet does.
  lemma PassesExactly(e: Option<Expose.Exposed>, f: Inbound)
    requires f.IpPacket?
    ensures Passes(e, f) <==> e.None? || exists t ::
      Packets.HeadedFor(f.payload, t) &&
      Expose.Allowed(e.value, Render(t.dst), Packets.Name(t.proto), t.port)
  {
    hide Expose.AllowPacket, Packets.HeadedFor, Expose.Allowed, Render;
    if e.Some? { Expose.PacketCheckIsExact(e.value, f.payload); }
  }

  lemma PassingGrows(e: Option<Expose.Exposed>, fs: seq<Inbound>)
    requires fs != []
    ensures
      var init, last := fs[..|fs| - 1], fs[|fs| - 1];
      Passing(e, fs) == Passing(e, init) + if Passes(e, last) then [last.payload] else []
  {
    hide Passes;
  }

  // Exactly the packets that pass get through, in order.
  lemma {:induction false} PassingIsExact(e: Option<Expose.Exposed>, fs: seq<Inbound>) returns (at: seq<nat>)
    ensures |at| == |Passing(e, fs)| && (forall i, j :: 0 <= i < j < |at| ==> at[i] < at[j])
    ensures forall i :: 0 <= i < |at| ==>
      at[i] < |fs| && fs[at[i]].IpPacket? && fs[at[i]].payload == Passing(e, fs)[i] && Passes(e, fs[at[i]])
    ensures forall k: nat :: k < |fs| && Passes(e, fs[k]) ==> k in at
  {
    hide Passes;
    at := [];
    if fs != [] {
      var n: nat := |fs| - 1;
      var before := PassingIsExact(e, fs[..n]);
      at := before + if Passes(e, fs[n]) then [n] else [];
      PassesIsPacket(e, fs[n]);
      PassingGrows(e, fs);
      hide Passing;
      forall k: nat | k < |fs| && Passes(e, fs[k]) ensures k in at {
        if k < n {
          assert fs[..n][k] == fs[k];
        } else {
          assert at[|before|] == k;
        }
      }
      forall i | 0 <= i < |before| ensures fs[..n][at[i]] == fs[at[i]] {
        assert at[i] == before[i];
      }
    }
  }

  function RefusedAt(e: Option<Expose.Exposed>, fs: seq<Inbound>): set<nat> {
    set k: nat | k < |fs| && fs[k].IpPacket? && !Passes(e, fs[k])
  }

  lemma RefusedGrows(e: Option<Expose.Exposed>, fs: seq<Inbound>, f: Inbound)
    ensures RefusedAt(e, fs + [f]) == RefusedAt(e, fs) + if f.IpPacket? && !Passes(e, f) then {|fs| as nat} else {}
  {
    hide Passes;
    assert forall k: nat :: k < |fs| ==> (fs + [f])[k] == fs[k];
  }

  // The others are counted; frames that carry no packet are not.
  lemma {:induction false} RejectedIsExact(e: Option<Expose.Exposed>, fs: seq<Inbound>)
    ensures Rejected(e, fs) == |RefusedAt(e, fs)|
  {
    if fs == [] {
      assert RefusedAt(e, fs) == {};
    } else {
      var init, last := fs[..|fs| - 1], fs[|fs| - 1];
      RejectedIsExact(e, init);
      RefusedGrows(e, init, last);
      assert fs == init + [last];
      assert (|init| as nat) !in RefusedAt(e, init);
      hide Passes, RefusedAt;
    }
  }

  lemma PassesIsPacket(e: Option<Expose.Exposed>, f: Inbound)
    ensures Passes(e, f) ==> f.IpPacket?
  {
  }

  function Total(pkts: seq<Bytes>): nat {
    if pkts == [] then 0 else Total(pkts[..|pkts| - 1]) + |pkts[|pkts| - 1]|
  }

  lemma TotalAppend(pkts: seq<Bytes>, pkt: Bytes)
    ensures Total(pkts + [pkt]) == Total(pkts) + |pkt|
  {
    assert (pkts + [pkt])[..|pkts|] == pkts;
  }

  class TunSwitch {
    const clients: ClientRegistry
    const acl: Acl.Engine?
    const expose: Expose.ExposeSet?
    var dropped: nat
    var bytesIn: nat
    var bytesOut: nat

    constructor (clients: ClientRegistry, acl: Acl.Engine?, expose: Expose.ExposeSet?)
      ensures this.clients == clients && this.acl == acl && this.expose == expose
      ensures dropped == bytesIn == bytesOut == 0
    {
      this.clients, this.acl, this.expose := clients, acl, expose;
      dropped, bytesIn, bytesOut := 0, 0, 0;
    }

    ghost predicate Valid()
      reads this, clients, acl
    {
      clients.Valid() && (acl != null ==> acl.Valid())
    }

    ghost function Policy(): Option<Acl.Policy>
      reads acl
    {
      if acl == null then None else Some(acl.policy)
    }

    ghost function Peers(): map<string, Peer>
      reads clients, clients.clients.Values
    {
      map ip | ip in clients.clients ::
        Peer(clients.clients[ip].name, clients.clients[ip].dead, clients.clients[ip].queue)
    }

    ghost function View(): Switchboard
      reads this, clients, clients.clients.Values
    {
      Switchboard(Peers(), dropped)
    }

    // The decisions of one turn: the access list, the dead flag, the full queue.
    method Judge(client: Client, pkt: Bytes) returns (v: Verdict)
      requires acl != null ==> acl.Valid()
      ensures v == VerdictOn(Policy(), Peer(client.name, client.dead, client.queue), pkt)
    {
      if acl != null {
        var ok := acl.Allow(client.name, pkt);
        if !ok { return Refused; }
      }
      if client.dead { return Late; }
      return if |client.queue| < QUEUE_CAP then Queued else Full;
    }

    twostate lemma OneQueueChanged(ip: string)
      requires unchanged(clients)
      requires clients.Valid() && ip in clients.clients
      requires forall c <- clients.clients.Values :: c.ip != ip ==> unchanged(c)
      ensures
        var c := clients.clients[ip];
        Peers() == old(Peers())[ip := Peer(c.name, c.dead, c.queue)]
    {
    }

    // One turn of the routing loop.
    method Route(pkt: Bytes)
      requires Valid()
      modifies this`dropped, clients.clients.Values`queue
      ensures View() == Routed(old(View()), Policy(), pkt)
    {
      if |pkt| < 20 { return; }
      var ip := Render(Packets.Destination(pkt));
      var client := clients.GetByIP(ip);
      if client == null { return; }
      hide Acl.Permits, Render;
      var v := Judge(client, pkt);
      hide VerdictOn, Acl.Engine.Valid, Permitted, Pool, DestIp;
      if v.Queued? {
        client.queue := client.queue + [pkt];
        OneQueueChanged(ip);
        hide Peers;
      } else {
        dropped := dropped + 1;
      }
    }

    method RouteFromTun(pkts: seq<Bytes>)
      requires Valid()
      modifies this`dropped, clients.clients.Values`queue
      ensures View() == RoutedAll(old(View()), Policy(), pkts)
    {
      for i := 0 to |pkts|
        invariant View() == RoutedAll(old(View()), Policy(), pkts[..i])
      {
        assert pkts[..i + 1][..i] == pkts[..i];
        Route(pkts[i]);
      }
      assert pkts[..|pkts|] == pkts;
    }

    ghost function Exposed(): Option<Expose.Exposed>
      reads expose
    {
      if expose == null then None else Some(expose.View())
    }

    // Reads the client's frames until one ends the connection or a read fails
    // behind the last; n is how many were dealt with. What was written to the
    // TUN device is counted twice, what was refused once, and the client is dead.
    method ForwardToTun(c: Client, frames: seq<Inbound>) returns (tun: seq<Bytes>, n: nat)
      modifies this`dropped, this`bytesIn, c`bytesIn, c`dead
      ensures n <= |frames| && (forall i :: 0 <= i < n ==> !Ends(Exposed(), frames[i]))
      ensures n < |frames| ==> Ends(Exposed(), frames[n])
      ensures tun == Passing(Exposed(), frames[..n]) && c.dead
      ensures dropped == old(dropped) + Rejected(Exposed(), frames[..n])
      ensures c.bytesIn == old(c.bytesIn) + Total(tun) && bytesIn == old(bytesIn) + Total(tun)
    {
      hide Expose.AllowPacket;
      tun, n := [], 0;
      while n < |frames|
        invariant n <= |frames| && (forall i :: 0 <= i < n ==> !Ends(Exposed(), frames[i]))
        invariant tun == Passing(Exposed(), frames[..n])
        invariant dropped == old(dropped) + Rejected(Exposed(), frames[..n])
        invariant c.bytesIn == old(c.bytesIn) + Total(tun) && bytesIn == old(bytesIn) + Total(tun)
      {
        assert frames[..n + 1][..n] == frames[..n];
        var f := frames[n];
        if f.Disconnect? { break; }
        if f.IpPacket? {
          if expose != null && !Expose.AllowPacket(expose.View(), f.payload) {
            dropped := dropped + 1;
          } else {
            if !f.written { break; }
            TotalAppend(tun, f.payload);
            tun := tun + [f.payload];
            c.bytesIn := c.bytesIn + |f.payload|;
            bytesIn := bytesIn + |f.payload|;
          }
        }
        n := n + 1;
      }
      c.dead := true;
    }

    // Drains the closed queue of a client; the write behind the first `good` ones
    // fails, if the queue is that long.
    method Serve(c: Client, good: nat) returns (sent: seq<Bytes>)
      modifies this`bytesOut, c`queue, c`bytesOut
      ensures sent == Take(old(c.queue), good)
      ensures sent == old(c.queue)[..if good < |old(c.queue)| then good else |old(c.queue)|]
      ensures c.queue == old(c.queue)[if good < |old(c.queue)| then good + 1 else |old(c.queue)|..]
      ensures c.bytesOut == old(c.bytesOut) + Total(sent) && bytesOut == old(bytesOut) + Total(sent)
    {
      ghost var all := c.queue;
      sent := [];
      while c.queue != []
        invariant |sent| <= good && |sent| <= |all|
        invariant sent == all[..|sent|] && c.queue == all[|sent|..]
        invariant c.bytesOut == old(c.bytesOut) + Total(sent) && bytesOut == old(bytesOut) + Total(sent)
        decreases |all| - |sent|
      {
        var pkt := c.queue[0];
        c.queue := c.queue[1..];
        assert c.queue == all[|sent| + 1..];
        if |sent| == good { break; }
        TotalAppend(sent, pkt);
        sent := sent + [pkt];
        c.bytesOut := c.bytesOut + |pkt|;
        bytesOut := bytesOut + |pkt|;
        hide Total;
      }
    }
  }
}
