/** Tunnel mode does carry packets: for every list of packets in either direction
    there is a run that brings each of them across. */
module TunTransfer {
  import opened Bytes
  import opened Dotted
  import opened Registry
  import opened TunSwitch
  import opened TunSystem

  datatype Transfer = ToClient(pkt: Bytes) | FromClient(pkt: Bytes)

  function Down(xs: seq<Transfer>): seq<Bytes> {
    if xs == [] then []
    else Down(xs[..|xs| - 1]) + if xs[|xs| - 1].ToClient? then [xs[|xs| - 1].pkt] else []
  }

  function Up(xs: seq<Transfer>): seq<Bytes> {
    if xs == [] then []
    else Up(xs[..|xs| - 1]) + if xs[|xs| - 1].FromClient? then [xs[|xs| - 1].pkt] else []
  }

  // The first client of a server without access list and labeled mode, at rest.
  ghost predicate Quiet(s: State, base: string, written: seq<Bytes>, toTun: seq<Bytes>) {
    && |s.conns| == 1 && s.table == map[InPool(base, 2) := 0]
    && s.policy.None? && s.expose.None? && !s.owes
    && var c := s.conns[0];
       c.phase.Serving? && c.sender.Idle? && c.reader.Reading? && c.queue == [] &&
       c.written == written && c.toTun == toTun
  }

  lemma Onward(u: Setup, steps: seq<Step>, step: Step)
    requires IsRun(u, steps) && Enabled(After(u, steps), step)
    ensures IsRun(u, steps + [step]) && After(u, steps + [step]) == Apply(After(u, steps), step)
  {
    assert (steps + [step])[..|steps|] == steps;
    hide Apply, Enabled;
  }

  lemma NothingDone(u: Setup)
    ensures IsRun(u, []) && After(u, []) == Init(u.base, u.policy, u.expose)
  {
  }

  lemma Welcome(base: string, name: string) returns (steps: seq<Step>)
    ensures IsRun(Setup(base, None, None), steps) && Quiet(After(Setup(base, None, None), steps), base, [], [])
  {
    hide IsRun, After, InPool;
    var u := Setup(base, None, None);
    NothingDone(u);
    steps := [];
    Onward(u, steps, Connect(name));
    steps := steps + [Connect(name)];
    Onward(u, steps, OfHandler(0, CountTotal));
    steps := steps + [OfHandler(0, CountTotal)];
    Onward(u, steps, OfHandler(0, CountActive));
    steps := steps + [OfHandler(0, CountActive)];
    Onward(u, steps, OfHandler(0, Greet(true)));
    steps := steps + [OfHandler(0, Greet(true))];
  }

  lemma RouteStep(s: State, base: string, written: seq<Bytes>, toTun: seq<Bytes>, pkt: Bytes)
    requires Quiet(s, base, written, toTun) && AddressedTo(pkt, InPool(base, 2))
    ensures Enabled(s, Route(pkt))
    ensures
      var s' := Apply(s, Route(pkt));
      s'.conns == [s.conns[0].(queue := [pkt])] && s'.table == s.table && s'.policy.None? && s'.expose.None? && !s'.owes
  {
    hide InPool, Render;
    assert [] + [pkt] == [pkt];
  }

  lemma SendStep(u: Setup, steps: seq<Step>, base: string, written: seq<Bytes>, toTun: seq<Bytes>, pkt: Bytes)
    returns (steps': seq<Step>)
    requires IsRun(u, steps) && Quiet(After(u, steps), base, written, toTun) && AddressedTo(pkt, InPool(base, 2))
    ensures IsRun(u, steps') && Quiet(After(u, steps'), base, written + [pkt], toTun)
  {
    hide IsRun, After, InPool, AddressedTo, RouteApply;
    RouteStep(After(u, steps), base, written, toTun, pkt);
    Onward(u, steps, Route(pkt));
    steps' := steps + [Route(pkt)];
    Onward(u, steps', OfHandler(0, TakePacket));
    steps' := steps' + [OfHandler(0, TakePacket)];
    Onward(u, steps', OfHandler(0, WritePacket(true)));
    steps' := steps' + [OfHandler(0, WritePacket(true))];
    Onward(u, steps', OfHandler(0, TallyOut));
    steps' := steps' + [OfHandler(0, TallyOut)];
    Onward(u, steps', OfHandler(0, PublishOut));
    steps' := steps' + [OfHandler(0, PublishOut)];
  }

  lemma ReceiveStep(u: Setup, steps: seq<Step>, base: string, written: seq<Bytes>, toTun: seq<Bytes>, pkt: Bytes)
    returns (steps': seq<Step>)
    requires IsRun(u, steps) && Quiet(After(u, steps), base, written, toTun)
    ensures IsRun(u, steps') && Quiet(After(u, steps'), base, written, toTun + [pkt])
  {
    hide IsRun, After, InPool;
    Onward(u, steps, OfReader(0, Receive(pkt, true)));
    steps' := steps + [OfReader(0, Receive(pkt, true))];
    Onward(u, steps', OfReader(0, TallyIn));
    steps' := steps' + [OfReader(0, TallyIn)];
    Onward(u, steps', OfReader(0, PublishIn));
    steps' := steps' + [OfReader(0, PublishIn)];
  }

  // Any packets, in any order of the two directions, arrive complete and in order,
  // as long as those for the client carry its address.
  lemma {:induction false} PacketsArrive(net: Ip4, name: string, xs: seq<Transfer>) returns (steps: seq<Step>)
    requires forall x <- xs :: x.ToClient? ==>
      |x.pkt| >= 20 && Ip4(x.pkt[16], x.pkt[17], x.pkt[18], x.pkt[19]) == net.(d := 2)
    ensures IsRun(Setup(BaseOf(net), None, None), steps)
    ensures
      var s := After(Setup(BaseOf(net), None, None), steps);
      |s.conns| == 1 && s.conns[0].written == Down(xs) && s.conns[0].toTun == Up(xs) && s.conns[0].phase.Serving?
    ensures Quiet(After(Setup(BaseOf(net), None, None), steps), BaseOf(net), Down(xs), Up(xs))
  {
    hide IsRun, After, InPool, BaseOf, Render;
    var u := Setup(BaseOf(net), None, None);
    if xs == [] {
      steps := Welcome(u.base, name);
    } else {
      var init, x := xs[..|xs| - 1], xs[|xs| - 1];
      assert x in xs;
      var before := PacketsArrive(net, name, init);
      assert Down(init) + [] == Down(init) && Up(init) + [] == Up(init);
      if x.ToClient? {
        PoolIsDotted(net, 2);
        steps := SendStep(u, before, u.base, Down(init), Up(init), x.pkt);
      } else {
        steps := ReceiveStep(u, before, u.base, Down(init), Up(init), x.pkt);
      }
    }
  }
}
