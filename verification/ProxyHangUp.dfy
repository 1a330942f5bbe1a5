/** What becomes of the local connection when the target hangs up: the read loop
    closes it exactly if it reads the Close after the handler has registered. */
module ProxyHangUp {
  import opened ProxyWire
  import opened ProxySystem
  import opened ProxyStream
  import opened ProxyIsolation
  import opened ProxySafety
  import opened ProxyTheorems
  import opened ProxyAnswers
  import opened ProxyBanner

  // A serving handler's socket is out of the client's table exactly if it is
  // closed or the read loop is about to close it, which takes a Close.
  ghost predicate ShutInv(v: View) {
    && (Connecting(v.h.phase) ==> !v.reg && !v.h.closed && !v.cl.CloseLocal?)
    && (Serving(v.h.phase) ==> (v.reg <==> !v.h.closed && !v.cl.CloseLocal?))
    && (v.cl.CloseLocal? || (Serving(v.h.phase) && v.h.closed) ==> Closed(v.dgot))
    && (v.h.closed ==> !v.h.writable)
  }

  // `early` says that the Close had been read when the handler registered.
  ghost predicate Tracks(v: View, early: bool) {
    && HasRegistered(v.h.phase)
    && (early ==> Closed(v.dgot))
    && (Serving(v.h.phase) ==> (v.reg <==> early || !Closed(v.dgot)))
  }

  ghost predicate Follows(v: View, v': View) {
    && ShutInv(v')
    && (Tracks(v, true) ==> Tracks(v', true))
    && (Tracks(v, false) ==> Tracks(v', false))
  }

  lemma ShutByHandler(v: View, hs: HandlerStep)
    requires StreamInv(v) && ShutInv(v) && HandlerCan(v.upOk, v.cancelled, v.h, hs)
    ensures Follows(v, HandlerView(v, hs))
    ensures hs.Register? ==> Tracks(HandlerView(v, hs), Closed(v.dgot))
  {
    hide HandlerFrames, DataOf, UpShape, DownShape, ServerInv, PhaseInv, ResultInv, LocalReadInv,
      TargetWriteInv, TargetReadInv;
  }

  lemma ShutByLoop(v: View, cs: ClientStep)
    requires ShutInv(v)
    requires match cs
      case ClientDeliver => v.cl.Deliver?
      case ClientWrite(n) => v.cl.WriteLocal? && n <= |v.cl.data|
      case ClientHangUp => v.cl.CloseLocal?
      case _ => false
    ensures Follows(v, ClientView(v, cs))
  {
  }

  lemma ShutByRead(v: View, act: ClientAct)
    requires StreamInv(v) && ShutInv(v) && ClientMay(v, act)
    ensures Follows(v, ClientRecvView(v, act))
  {
    hide DataOf, UpShape, ServerInv, PhaseInv, ResultInv, LocalReadInv, TargetWriteInv, TargetReadInv;
    assert !Closed(v.dgot);
  }

  lemma ShutUntouched(v: View, v': View)
    requires ShutInv(v) && v'.h == v.h && v'.reg == v.reg && v'.cl == v.cl && v'.dgot == v.dgot
    ensures Follows(v, v')
  {
  }

  lemma ClientShuts(s: State, cs: ClientStep, k: nat)
    requires Bookkeeping(s) && ClientCan(s, cs) && k < |s.handlers|
    requires StreamInv(Stream(s, k)) && ShutInv(Stream(s, k))
    ensures Bookkeeping(s) && Follows(Stream(s, k), Stream(ClientApply(s, cs), k))
  {
    hide ShutInv, Follows, StreamInv, ClientDispatch, Only, DataOf, ServerOrder, TargetOf, ClientView, LoopIn;
    var v := Stream(s, k);
    if cs.ClientRecv? {
      ClientRecvStreams(s, k);
      if s.down[s.downGot].Carries(s.handlers[k].id) {
        ShutByRead(v, ClientDispatch(s.tab, s.down[s.downGot]).1);
      } else {
        ShutUntouched(v, v);
      }
    } else {
      ClientLoopStreams(s, cs, k);
      if ClientActsOn(s.cloop, k) { ShutByLoop(v, cs); } else { ShutUntouched(v, v); }
    }
  }

  lemma ShutKept(s: State, step: Step, k: nat)
    requires Inv(s) && Enabled(s, step) && !step.Forge? && k < |s.handlers| && ShutInv(Stream(s, k))
    ensures
      var s' := Apply(s, step);
      k < |s'.handlers| && s'.upGot <= |s'.up| && s'.downGot <= |s'.down| && Follows(Stream(s, k), Stream(s', k))
  {
    hide ShutInv, Follows, StreamInv, Stream, HandlerApply, ClientApply, ServerApply, ReaderApply, Only;
    var v, s' := Stream(s, k), Apply(s, step);
    assert StreamInv(v);
    QueuesGrow(s, step);
    StreamParts(s, k);
    if step.OfHandler? {
      IdsAreDistinct(k);
      IdsAreDistinct(step.h);
      HandlerStreams(s, step.h, step.hs, k);
      if k == step.h { ShutByHandler(v, step.hs); } else { ShutUntouched(v, v); }
    } else if step.OfClient? {
      ClientShuts(s, step.cs, k);
    } else {
      ReadingUntouched(s, step);
      assert s'.down[..s'.downGot] == s.down[..s.downGot];
      if !step.Accept? { ClientSideUntouched(s, step); }
      StreamParts(s', k);
      ShutUntouched(v, Stream(s', k));
    }
  }

  lemma ShutAtFirst(s: State, k: nat)
    requires Inv(s) && Enabled(s, Accept) && k == |s.handlers| < MAX_DIALS && Inv(Apply(s, Accept))
    ensures ShutInv(Stream(Apply(s, Accept), k))
  {
    hide HandlerApply, ClientApply, ServerApply, ReaderApply, StreamInv, Only, TargetOf, LoopStream;
    IdsAreDistinct(k);
  }

  lemma {:induction false} ShutHolds(steps: seq<Step>, k: nat)
    requires IsRun(steps) && Honest(steps) && k < |After(steps).handlers| <= MAX_DIALS
    ensures Inv(After(steps)) && ShutInv(Stream(After(steps), k))
  {
    hide Apply, Enabled, ShutInv, Stream, Bookkeeping, StreamInv;
    var n := |steps| - 1;
    var s := After(steps[..n]);
    DialsOnlyGrow(steps, n);
    InvHolds(steps);
    InvHolds(steps[..n]);
    if k < |s.handlers| {
      ShutHolds(steps[..n], k);
      ShutKept(s, steps[n], k);
    } else {
      OnlyAcceptAdds(s, steps[n]);
      ShutAtFirst(s, k);
    }
  }

  lemma OnlyAcceptAdds(s: State, step: Step)
    requires Inv(s) && Enabled(s, step) && |s.handlers| < |Apply(s, step).handlers|
    ensures step.Accept? && |Apply(s, step).handlers| == |s.handlers| + 1
  {
    QueuesGrow(s, step);
  }

  // No local socket is forgotten: a serving handler's socket is in the table, or
  // closed, or about to be closed, and exactly one of these.
  lemma NoLocalIsForgotten(s: State, k: nat)
    requires Reached(s) && k < |s.handlers| && Serving(s.handlers[k].phase)
    ensures s.handlers[k].id in s.tab.streams <==> !s.handlers[k].closed && s.cloop != CloseLocal(k)
  {
    hide StreamInv, Only;
    var steps :| IsRun(steps) && Honest(steps) && After(steps) == s;
    ShutHolds(steps, k);
    StreamParts(s, k);
  }

  // ---------------------------------------------------------------- the exact condition

  ghost predicate CloseWasRead(s: State, i: Id) {
    s.downGot <= |s.down| && Close(i) in s.down[..s.downGot]
  }

  lemma ReadCloseIsLast(s: State, k: nat)
    requires Inv(s) && k < |s.handlers|
    ensures Closed(Stream(s, k).dgot) <==> CloseWasRead(s, s.handlers[k].id)
  {
    var v := Stream(s, k);
    assert StreamInv(v);
    hide Bookkeeping, StreamInv, Only, Closed;
    PrefixShape(v);
    ClosedMeansClose(s.down[..s.downGot], s.handlers[k].id);
  }

  lemma PrefixShape(v: View)
    requires StreamInv(v)
    ensures DownShape(v.dgot)
  {
    assert forall j :: 0 <= j < |v.dgot| ==> v.dgot[j] == v.down[j];
  }

  lemma RegisteringTracks(s: State, k: nat)
    requires Inv(s) && Enabled(s, OfHandler(k, Register)) && ShutInv(Stream(s, k))
    ensures
      var s' := Apply(s, OfHandler(k, Register));
      && k < |s'.handlers| && s'.upGot <= |s'.up| && s'.downGot <= |s'.down|
      && Tracks(Stream(s', k), Closed(Stream(s, k).dgot))
  {
    hide ShutInv, Tracks, StreamInv, Stream, Closed, HandlerAfter, HandlerTab, HandlerFrames, Only;
    assert StreamInv(Stream(s, k)) && Stream(s, k).h == s.handlers[k] by { StreamParts(s, k); }
    StreamParts(s, k);
    HandlerStreams(s, k, Register, k);
    ShutByHandler(Stream(s, k), Register);
    QueuesGrow(s, OfHandler(k, Register));
  }

  lemma {:induction false} TracksHolds(steps: seq<Step>, n: nat, k: nat)
    requires IsRun(steps) && Honest(steps) && |After(steps).handlers| <= MAX_DIALS
    requires n < |steps| && steps[n] == OfHandler(k, Register)
    ensures IsRun(steps[..n]) && Inv(After(steps[..n])) && Inv(After(steps))
    ensures k < |After(steps[..n]).handlers| && k < |After(steps).handlers|
    ensures After(steps).handlers[k].id == After(steps[..n]).handlers[k].id
    ensures Tracks(Stream(After(steps), k), Closed(Stream(After(steps[..n]), k).dgot))
  {
    hide Apply, Enabled, ShutInv, Tracks, Stream, Bookkeeping, StreamInv, Closed;
    var m := |steps| - 1;
    var s := After(steps[..m]);
    SkippedForGood(steps, n, k);
    DialsOnlyGrow(steps, m);
    InvHolds(steps);
    InvHolds(steps[..m]);
    if n < m {
      assert steps[..m][..n] == steps[..n];
      TracksHolds(steps[..m], n, k);
      ShutHolds(steps[..m], k);
      ShutKept(s, steps[m], k);
    } else {
      HandlerIsThere(s, k);
      ShutHolds(steps[..m], k);
      RegisteringTracks(s, k);
    }
  }

  lemma HandlerIsThere(s: State, k: nat)
    requires Enabled(s, OfHandler(k, Register))
    ensures k < |s.handlers|
  {
  }

  lemma TrackedSocket(s: State, k: nat, early: bool)
    requires Inv(s) && k < |s.handlers| && Serving(s.handlers[k].phase)
    requires ShutInv(Stream(s, k)) && Tracks(Stream(s, k), early)
    ensures s.handlers[k].closed || s.cloop == CloseLocal(k) <==> Closed(Stream(s, k).dgot) && !early
  {
    hide StreamInv, Only, Closed;
    StreamParts(s, k);
  }

  // While the handler serves, its socket is closed by the read loop exactly if
  // the Close of its stream has been read, but had not been when the handler
  // registered. A Close that comes earlier is never heeded.
  lemma CloseIsHeededExactly(steps: seq<Step>, n: nat, k: nat)
    requires IsRun(steps) && Honest(steps) && |After(steps).handlers| <= MAX_DIALS
    requires n < |steps| && steps[n] == OfHandler(k, Register)
    requires k < |After(steps).handlers| && Serving(After(steps).handlers[k].phase)
    ensures IsRun(steps[..n])
    ensures
      var was, now, h := After(steps[..n]), After(steps), After(steps).handlers[k];
      h.closed || now.cloop == CloseLocal(k) <==> CloseWasRead(now, h.id) && !CloseWasRead(was, h.id)
  {
    hide Apply, Enabled, Stream, ClientOrder, ServerOrder, StreamInv, Closed, CloseWasRead;
    TracksHolds(steps, n, k);
    var was, now := After(steps[..n]), After(steps);
    ShutHolds(steps, k);
    ReadCloseIsLast(was, k);
    ReadCloseIsLast(now, k);
    TrackedSocket(now, k, Closed(Stream(was, k).dgot));
  }

  // ---------------------------------------------------------------- a Close that is missed

  function Waiting(slot: seq<bool>, results: nat): Handler {
    Handler(1, Awaiting, slot, results, [], [], [], true, false)
  }

  const GONE := Target(1, Ended, [], [], false, true)
  const BYE := [DialOk(1), Close(1)]

  function Left(tab: ClientTable, h: Handler, got: nat): State {
    State(tab, [h], Nothing, [Dial(1)], 1, BYE, got, map[], [GONE], Turn(Skip), true, true, false)
  }

  // The target hangs up before the client has read anything.
  lemma HungUpAtOnce() returns (steps: seq<Step>)
    ensures IsRun(steps) && Honest(steps)
    ensures After(steps) == Left(WAITING, Waiting([], 0), 0)
  {
    hide IsRun, After, Only, DataOf;
    steps := Opened();
    Onward(steps, OfReader(0, ReadTarget([], true)));
    steps := steps + [OfReader(0, ReadTarget([], true))];
    Onward(steps, OfReader(0, ReaderHangUp));
    steps := steps + [OfReader(0, ReaderHangUp)];
    Onward(steps, OfReader(0, DropTarget));
    steps := steps + [OfReader(0, DropTarget)];
    Onward(steps, OfReader(0, SayClose));
    steps := steps + [OfReader(0, SayClose)];
    assert After(steps).targets == [GONE] && After(steps).down == BYE && After(steps).streams == map[];
  }

  lemma ReadAtOnce() returns (steps: seq<Step>)
    ensures IsRun(steps) && Honest(steps)
    ensures After(steps) == Left(ANSWERED, Waiting([true], 1), 2)
  {
    hide IsRun, After, Only, DataOf;
    steps := HungUpAtOnce();
    Onward(steps, OfClient(ClientRecv));
    steps := steps + [OfClient(ClientRecv)];
    Onward(steps, OfClient(ClientDeliver));
    steps := steps + [OfClient(ClientDeliver)];
    Onward(steps, OfClient(ClientRecv));
    steps := steps + [OfClient(ClientRecv)];
    assert [] + [true] == [true];
    assert After(steps).tab.pending == map[] && After(steps).tab.streams == map[];
    assert After(steps).handlers == [Waiting([true], 1)];
  }

  // All frames are read and nothing has failed, the target is long closed, and the
  // local connection is served as if it were not.
  lemma CloseIsMissed() returns (steps: seq<Step>)
    ensures IsRun(steps) && Honest(steps)
    ensures
      var s := After(steps);
      && |s.handlers| == 1 && |s.targets| == 1 && s.handlers[0].id == s.targets[0].id
      && s.upOk && s.downOk && !s.cancelled && s.downGot == |s.down| && s.cloop == Nothing
      && s.targets[0].closed && s.targets[0].id !in s.streams
      && s.handlers[0].phase.Active? && !s.handlers[0].closed && s.handlers[0].id in s.tab.streams
  {
    hide IsRun, After, Only, DataOf;
    steps := ReadAtOnce();
    Onward(steps, OfHandler(0, TakeResult));
    steps := steps + [OfHandler(0, TakeResult)];
    Onward(steps, OfHandler(0, Register));
    steps := steps + [OfHandler(0, Register)];
  }
}
