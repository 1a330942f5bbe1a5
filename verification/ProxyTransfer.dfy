/** Proxy mode does carry data: who serves goes on serving until a read or the
    connection fails, and for every list of chunks in the two directions there is
    a run that brings all of them across. */
module ProxyTransfer {
  import opened Bytes
  import opened ProxyWire
  import opened ProxySystem
  import opened ProxyTheorems
  import opened ProxyClosing
  import opened ProxyBanner

  // ---------------------------------------------------------------- going on

  // At the top of its loop, or between a read without error and its frame.
  predicate GoesOn(p: Phase) {
    p.Active? || (p.Holding? && !p.last)
  }

  predicate ReadsOn(r: Reader) {
    r.Reading? || (r.Carrying? && !r.last)
  }

  lemma ServerLeavesUpOk(s: State, ss: ServerStep)
    requires ServerCan(s, ss)
    ensures ServerApply(s, ss).upOk == s.upOk
  {
    hide ServerDispatch, TargetAfterWrite;
  }

  lemma ClientLeavesUpOk(s: State, cs: ClientStep)
    requires ClientCan(s, cs)
    ensures ClientApply(s, cs).upOk == s.upOk
  {
    hide ClientDispatch, LocalAfterWrite;
  }

  lemma UpOkNeverReturns(s: State, step: Step)
    requires Enabled(s, step) && Apply(s, step).upOk
    ensures s.upOk
  {
    hide HandlerTab, HandlerAfter, HandlerFrames, TargetAfter, ReaderFrames, CloseAll, ClientApply, ServerApply;
    if step.OfServer? { ServerLeavesUpOk(s, step.ss); }
    if step.OfClient? { ClientLeavesUpOk(s, step.cs); }
  }

  lemma StaysOn(s: State, step: Step, k: nat)
    requires Enabled(s, step) && k < |s.handlers| && GoesOn(s.handlers[k].phase) && s.upOk
    requires step.OfHandler? && step.h == k && step.hs.ReadLocal? ==> !step.hs.last
    ensures k < |Apply(s, step).handlers| && GoesOn(Apply(s, step).handlers[k].phase)
  {
    hide HandlerTab, HandlerFrames, ClientApply, ServerApply, ReaderApply, Only, DataOf;
    if step.OfClient? {
      SkippedByClient(s, step.cs, k);
    } else if !step.OfHandler? && !step.Accept? {
      ClientSideUntouched(s, step);
    }
  }

  lemma StartsServing(s: State, k: nat)
    requires Enabled(s, OfHandler(k, Register))
    ensures
      var s' := Apply(s, OfHandler(k, Register));
      k < |s'.handlers| && s'.handlers[k].phase.Active?
  {
    hide HandlerTab, Only, DataOf;
  }

  // A handler that has registered goes on until a read of its socket fails, as
  // long as the connection takes frames.
  lemma {:induction false} HandlerGoesOn(steps: seq<Step>, n: nat, k: nat)
    requires IsRun(steps) && After(steps).upOk
    requires n < |steps| && steps[n] == OfHandler(k, Register)
    requires forall step <- steps[n..] :: step.OfHandler? && step.h == k && step.hs.ReadLocal? ==> !step.hs.last
    ensures k < |After(steps).handlers|
    ensures
      var p := After(steps).handlers[k].phase;
      p.Active? || (p.Holding? && !p.last)
  {
    hide Apply, Enabled;
    var m := |steps| - 1;
    var s := After(steps[..m]);
    if n < m {
      assert steps[n..] == steps[..m][n..] + [steps[m]];
      UpOkNeverReturns(s, steps[m]);
      HandlerGoesOn(steps[..m], n, k);
      StaysOn(s, steps[m], k);
    } else {
      StartsServing(s, k);
    }
  }

  lemma ServerLetsRead(s: State, ss: ServerStep, t: nat)
    requires ServerCan(s, ss) && t < |s.targets| && ReadsOn(s.targets[t].reader)
    ensures t < |ServerApply(s, ss).targets| && ReadsOn(ServerApply(s, ss).targets[t].reader)
  {
    hide ServerDispatch;
  }

  lemma ReaderStays(s: State, step: Step, t: nat)
    requires Enabled(s, step) && t < |s.targets| && ReadsOn(s.targets[t].reader)
    requires step.OfReader? && step.t == t && step.rs.ReadTarget? ==> !step.rs.last
    ensures t < |Apply(s, step).targets| && ReadsOn(Apply(s, step).targets[t].reader)
  {
    hide HandlerApply, ClientApply, ServerApply, ReaderFrames, HandlerCan, ClientCan, ServerCan;
    if step.OfServer? {
      ServerLetsRead(s, step.ss, t);
    } else if !step.OfReader? && !step.SessionEnds? {
      hide ReaderApply;
      ServerSideUntouched(s, step);
    }
  }

  lemma StartsReading(s: State, t: nat)
    requires Enabled(s, OfServer(Spawn)) && s.sloop == Answered(t)
    ensures
      var s' := Apply(s, OfServer(Spawn));
      t < |s'.targets| && s'.targets[t].reader.Reading?
  {
    hide ServerDispatch;
  }

  // So does a target's reader once it has been started, even if its frames are lost.
  lemma {:induction false} ReaderGoesOn(steps: seq<Step>, n: nat, t: nat)
    requires IsRun(steps) && n < |steps| && steps[n] == OfServer(Spawn)
    requires IsRun(steps[..n]) && After(steps[..n]).sloop == Answered(t)
    requires forall step <- steps[n..] :: step.OfReader? && step.t == t && step.rs.ReadTarget? ==> !step.rs.last
    ensures t < |After(steps).targets|
    ensures
      var r := After(steps).targets[t].reader;
      r.Reading? || (r.Carrying? && !r.last)
  {
    hide Apply, Enabled;
    var m := |steps| - 1;
    var s := After(steps[..m]);
    if n < m {
      assert steps[n..] == steps[..m][n..] + [steps[m]];
      assert steps[..m][..n] == steps[..n];
      ReaderGoesOn(steps[..m], n, t);
      ReaderStays(s, steps[m], t);
    } else {
      StartsReading(s, t);
    }
  }

  // ---------------------------------------------------------------- bringing across

  datatype Chunk = FromLocal(data: Bytes) | FromTarget(data: Bytes)

  function LocalSaid(xs: seq<Chunk>): Bytes {
    if xs == [] then []
    else LocalSaid(xs[..|xs| - 1]) + if xs[|xs| - 1].FromLocal? then xs[|xs| - 1].data else []
  }

  function TargetSaid(xs: seq<Chunk>): Bytes {
    if xs == [] then []
    else TargetSaid(xs[..|xs| - 1]) + if xs[|xs| - 1].FromTarget? then xs[|xs| - 1].data else []
  }

  // One open stream at rest, with all frames read.
  ghost predicate Quiet(s: State, toTarget: Bytes, toLocal: Bytes) {
    && s.upOk && s.downOk && !s.cancelled && s.upGot == |s.up| && s.downGot == |s.down|
    && s.sloop == Turn(Skip) && s.cloop == Nothing
    && s.tab == LISTENING && s.streams == map[1 := 0]
    && |s.handlers| == 1 && |s.targets| == 1
    && var h, t := s.handlers[0], s.targets[0];
       h.id == 1 && h.phase.Active? && h.writable && h.wr == toLocal &&
       t.id == 1 && t.reader.Reading? && t.writable && t.wr == toTarget
  }

  lemma Connected() returns (steps: seq<Step>)
    ensures IsRun(steps) && Honest(steps) && Quiet(After(steps), [], [])
  {
    hide IsRun, After, Only, DataOf;
    steps := Opened();
    Onward(steps, OfClient(ClientRecv));
    steps := steps + [OfClient(ClientRecv)];
    Onward(steps, OfClient(ClientDeliver));
    steps := steps + [OfClient(ClientDeliver)];
    Onward(steps, OfHandler(0, TakeResult));
    steps := steps + [OfHandler(0, TakeResult)];
    Onward(steps, OfHandler(0, Register));
    steps := steps + [OfHandler(0, Register)];
  }

  lemma BringUp(steps: seq<Step>, a: Bytes, b: Bytes, data: Bytes) returns (steps': seq<Step>)
    requires IsRun(steps) && Honest(steps) && Quiet(After(steps), a, b) && 0 < |data| <= MAX_READ
    ensures IsRun(steps') && Honest(steps') && Quiet(After(steps'), a + data, b)
  {
    hide IsRun, After, Only, DataOf;
    Onward(steps, OfHandler(0, ReadLocal(data, false)));
    steps' := steps + [OfHandler(0, ReadLocal(data, false))];
    Onward(steps', OfHandler(0, SendData));
    steps' := steps' + [OfHandler(0, SendData)];
    Onward(steps', OfServer(ServerRecv));
    steps' := steps' + [OfServer(ServerRecv)];
    Onward(steps', OfServer(ServerWrite(|data|)));
    steps' := steps' + [OfServer(ServerWrite(|data|))];
    assert data[..|data|] == data;
  }

  lemma BringDown(steps: seq<Step>, a: Bytes, b: Bytes, data: Bytes) returns (steps': seq<Step>)
    requires IsRun(steps) && Honest(steps) && Quiet(After(steps), a, b) && 0 < |data| <= MAX_READ
    ensures IsRun(steps') && Honest(steps') && Quiet(After(steps'), a, b + data)
  {
    hide IsRun, After, Only, DataOf;
    Onward(steps, OfReader(0, ReadTarget(data, false)));
    steps' := steps + [OfReader(0, ReadTarget(data, false))];
    Onward(steps', OfReader(0, SendTargetData));
    steps' := steps' + [OfReader(0, SendTargetData)];
    Onward(steps', OfClient(ClientRecv));
    steps' := steps' + [OfClient(ClientRecv)];
    Onward(steps', OfClient(ClientWrite(|data|)));
    steps' := steps' + [OfClient(ClientWrite(|data|))];
    assert data[..|data|] == data;
  }

  // Any chunks, in any order of the two directions, arrive complete and in order.
  lemma {:induction false} ChunksArrive(xs: seq<Chunk>) returns (steps: seq<Step>)
    requires forall x <- xs :: 0 < |x.data| <= 32768
    ensures IsRun(steps) && Honest(steps)
    ensures
      var s := After(steps);
      && |s.handlers| == 1 && |s.targets| == 1 && s.handlers[0].id == s.targets[0].id
      && s.handlers[0].phase.Active? && s.targets[0].reader.Reading? && s.upOk && s.downOk
      && s.targets[0].wr == LocalSaid(xs) && s.handlers[0].wr == TargetSaid(xs)
    ensures Quiet(After(steps), LocalSaid(xs), TargetSaid(xs))
  {
    hide IsRun, After;
    if xs == [] {
      steps := Connected();
    } else {
      var init, x := xs[..|xs| - 1], xs[|xs| - 1];
      assert x in xs;
      var before := ChunksArrive(init);
      var a, b := LocalSaid(init), TargetSaid(init);
      assert a + [] == a && b + [] == b;
      if x.FromLocal? {
        steps := BringUp(before, a, b, x.data);
      } else {
        steps := BringDown(before, a, b, x.data);
      }
    }
  }
}
