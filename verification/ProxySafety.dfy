/** What every run of proxy mode guarantees, for every interleaving. */
module ProxySafety {
  import opened Bytes
  import opened ProxyWire
  import opened ProxySystem
  import opened ProxyStream
  import opened ProxyIsolation

  // ---------------------------------------------------------------- the invariant

  lemma AddedKnown(dials: nat, fs: seq<Frame>, got: nat, g: seq<Frame>, i: Id)
    requires QueueOrder(dials, fs, got) && DialOf(i) < dials && forall f <- g :: f.Carries(i)
    ensures QueueOrder(dials, fs + g, got)
  {
    hide DialOf;
    forall j | 0 <= j < |fs + g| ensures FrameKnownIn(dials, (fs + g)[j]) {
      if j >= |fs| { assert (fs + g)[j] in g; }
    }
  }

  lemma ReplyKnown(dials: nat, fs: seq<Frame>, got: nat, f: Frame)
    requires QueueOrder(dials, fs, got) && FrameKnownIn(dials, f)
    ensures QueueOrder(dials, fs + [f], got) && fs + [] == fs
  {
  }

  // A target that only changes its state keeps its place.
  lemma TargetsOrder(dials: nat, streams: map<Id, nat>, targets: seq<Target>, sloop: ServerLoop, t: nat, x: Target)
    requires ServerOrder(dials, streams, targets, sloop) && t < |targets| && x.id == targets[t].id
    ensures ServerOrder(dials, streams, targets[t := x], sloop)
  {
    hide DialOf;
    assert LoopIn(sloop, targets[t := x]) == LoopIn(sloop, targets);
  }

  lemma HandlerBooks(s: State, h: nat, hs: HandlerStep)
    requires Bookkeeping(s) && Enabled(s, OfHandler(h, hs))
    ensures Bookkeeping(HandlerApply(s, h, hs))
  {
    hide ServerOrder, QueueOrder, Only, DataOf;
    IdsAreDistinct(h);
    AddedKnown(|s.handlers|, s.up, s.upGot, HandlerFrames(s.handlers[h], hs), s.handlers[h].id);
    assert s.up + [] == s.up;
  }

  lemma ClientBooks(s: State, cs: ClientStep)
    requires Bookkeeping(s) && ClientCan(s, cs)
    ensures Bookkeeping(ClientApply(s, cs))
  {
    hide ServerOrder, IdOf, DialOf;
    if cs.ClientRecv? { ClientDispatchStays(s.tab, s.down[s.downGot]); }
    hide ClientDispatch;
    if cs.ClientAnswer? { ReplyKnown(|s.handlers|, s.up, s.upGot, Pong); }
  }

  lemma ClientDispatchStays(t: ClientTable, f: Frame)
    ensures
      var (t', act) := ClientDispatch(t, f);
      && t'.nextID == t.nextID
      && (forall i <- t'.pending :: i in t.pending && t'.pending[i] == t.pending[i])
      && (forall i <- t'.streams :: i in t.streams && t'.streams[i] == t.streams[i])
      && (act.Deliver? ==> exists i <- t.pending :: act.h == t.pending[i])
      && (act.WriteLocal? || act.CloseLocal? ==> exists i <- t.streams :: act.h == t.streams[i])
  {
  }

  lemma RegisterBooks(s: State)
    requires Bookkeeping(s) && ServerCan(s, RegisterTarget) && TargetOf(s.targets, s.sloop.id).None?
    ensures Bookkeeping(ServerApply(s, RegisterTarget))
  {
    hide DialOf, IdOf, TargetOf, ClientOrder, QueueOrder;
    TargetOfNone(s.targets, s.sloop.id);
    assert LoopIn(s.sloop, s.targets) == Some(s.sloop.id);
  }

  // What the server loop goes on to do concerns the frame's own stream.
  lemma ServerDispatchStays(streams: map<Id, nat>, f: Frame)
    ensures
      var (streams', act) := ServerDispatch(streams, f);
      && (forall i <- streams' :: i in streams && streams'[i] == streams[i])
      && (act.DialTarget? ==> f == Dial(act.id))
      && (act.WriteTarget? || act.CloseTarget? ==>
            (f.Data? || f.Close?) && f.id in streams && act.t == streams[f.id])
  {
  }

  lemma ServerRecvBooks(s: State)
    requires Bookkeeping(s) && ServerCan(s, ServerRecv)
    ensures Bookkeeping(ServerApply(s, ServerRecv))
  {
    hide DialOf, IdOf, ServerDispatch, ClientOrder;
    assert FrameKnownIn(|s.handlers|, s.up[s.upGot]);
    ServerDispatchStays(s.streams, s.up[s.upGot]);
  }

  lemma ServerReplyBooks(s: State, ss: ServerStep)
    requires Bookkeeping(s) && ServerCan(s, ss) && (ss.SendFail? || ss.SendOk? || ss.ServerAnswer?)
    ensures Bookkeeping(ServerApply(s, ss))
  {
    hide DialOf, IdOf, ClientOrder;
    var f :=
      match ss
      case SendFail => DialFail(s.sloop.id)
      case SendOk => DialOk(s.targets[s.sloop.t].id)
      case _ => Pong;
    ReplyKnown(|s.handlers|, s.down, s.downGot, f);
    hide QueueOrder;
  }

  lemma ServerWorkBooks(s: State, ss: ServerStep)
    requires Bookkeeping(s) && ServerCan(s, ss)
    requires ss.Dialed? || ss.Spawn? || ss.ServerWrite? || ss.ServerHangUp?
    ensures Bookkeeping(ServerApply(s, ss))
  {
    hide DialOf, IdOf, ClientOrder, QueueOrder;
    if !ss.Dialed? {
      var t := if ss.Spawn? then s.sloop.t else s.sloop.act.t;
      var s' := ServerApply(s, ss);
      assert s'.targets == s.targets[t := s'.targets[t]];
      TargetsOrder(|s.handlers|, s.streams, s.targets, s.sloop, t, s'.targets[t]);
      assert s'.sloop == Turn(Skip);
    }
  }

  lemma ServerBooks(s: State, ss: ServerStep)
    requires Bookkeeping(s) && ServerCan(s, ss)
    requires ss.RegisterTarget? ==> TargetOf(s.targets, s.sloop.id).None?
    ensures Bookkeeping(ServerApply(s, ss))
  {
    hide Bookkeeping, ServerApply;
    match ss {
      case ServerRecv => ServerRecvBooks(s);
      case RegisterTarget => RegisterBooks(s);
      case SendFail => ServerReplyBooks(s, ss);
      case SendOk => ServerReplyBooks(s, ss);
      case ServerAnswer => ServerReplyBooks(s, ss);
      case _ => ServerWorkBooks(s, ss);
    }
  }

  lemma ReaderBooks(s: State, t: nat, rs: ReaderStep)
    requires Bookkeeping(s) && Enabled(s, OfReader(t, rs))
    ensures Bookkeeping(ReaderApply(s, t, rs))
  {
    hide ClientOrder, IdOf, DialOf, QueueOrder, LoopIn;
    var x := s.targets[t];
    AddedKnown(|s.handlers|, s.down, s.downGot, ReaderFrames(x, rs), x.id);
    assert s.down + [] == s.down;
    TargetsOrder(|s.handlers|, s.streams, s.targets, s.sloop, t, TargetAfter(x, rs));
    hide ReaderFrames, TargetAfter;
  }

  // The target a dial is about to register is the first of its id.
  lemma DialIsNew(s: State)
    requires Inv(s) && s.sloop.Connected?
    ensures TargetOf(s.targets, s.sloop.id).None?
  {
    var k := DialOf(s.sloop.id);
    assert Known(s, s.sloop.id) && StreamInv(Stream(s, k));
    IdsAreDistinct(k);
    assert s.handlers[k].id == s.sloop.id;
  }

  lemma SessionBooks(s: State)
    requires Bookkeeping(s) && Enabled(s, SessionEnds)
    ensures Bookkeeping(Apply(s, SessionEnds))
  {
    hide ClientOrder, QueueOrder, DialOf;
  }

  lemma OtherBooks(s: State, step: Step)
    requires Bookkeeping(s) && Enabled(s, step) && !step.Forge? && |Apply(s, step).handlers| <= MAX_DIALS
    requires !step.OfHandler? && !step.OfClient? && !step.OfServer? && !step.OfReader? && !step.SessionEnds?
    ensures Bookkeeping(Apply(s, step))
  {
    hide HandlerApply, ClientApply, ServerApply, ReaderApply;
    ReplyKnown(|s.handlers|, s.up, s.upGot, Ping);
    ReplyKnown(|s.handlers|, s.up, s.upGot, Disconnect);
    hide LoopIn;
  }

  lemma BooksKept(s: State, step: Step)
    requires Inv(s) && Enabled(s, step) && !step.Forge? && |Apply(s, step).handlers| <= MAX_DIALS
    ensures Bookkeeping(Apply(s, step))
  {
    hide Bookkeeping, StreamInv, Stream, HandlerApply, ClientApply, ServerApply, ReaderApply;
    if step.OfHandler? {
      HandlerBooks(s, step.h, step.hs);
    } else if step.OfClient? {
      ClientBooks(s, step.cs);
    } else if step.OfServer? {
      if step.ss.RegisterTarget? { DialIsNew(s); }
      ServerBooks(s, step.ss);
    } else if step.OfReader? {
      ReaderBooks(s, step.t, step.rs);
    } else if step.SessionEnds? {
      SessionBooks(s);
    } else {
      OtherBooks(s, step);
    }
  }

  // Losing the connection, in one direction or from the client's end.
  lemma ConnectionKeeps(v: View, upOk: bool, downOk: bool, cancelled: bool)
    requires StreamInv(v)
    requires (upOk ==> v.upOk) && (downOk ==> v.downOk) && (v.cancelled ==> cancelled)
    ensures StreamInv(v.(upOk := upOk, downOk := downOk, cancelled := cancelled))
  {
  }

  lemma ClientStepKeeps(s: State, cs: ClientStep, k: nat)
    requires Bookkeeping(s) && k < |s.handlers| && ClientCan(s, cs) && StreamInv(Stream(s, k))
    ensures StreamInv(Stream(ClientApply(s, cs), k))
  {
    hide StreamInv, ClientDispatch, Only, DataOf, ServerOrder, TargetOf, ClientView, LoopIn;
    var v := Stream(s, k);
    if cs.ClientRecv? {
      ClientRecvStreams(s, k);
      if s.down[s.downGot].Carries(s.handlers[k].id) {
        ProxyStream.ClientRecvKeeps(v, ClientDispatch(s.tab, s.down[s.downGot]).1);
      }
    } else {
      ClientLoopStreams(s, cs, k);
      if ClientActsOn(s.cloop, k) {
        assert v.h == s.handlers[k];
        ClientKeeps(v, cs);
      }
    }
  }

  lemma ServerStepKeeps(s: State, ss: ServerStep, k: nat)
    requires Bookkeeping(s) && k < |s.handlers| && ServerCan(s, ss) && StreamInv(Stream(s, k))
    requires ss.RegisterTarget? ==> TargetOf(s.targets, s.sloop.id).None?
    ensures StreamInv(Stream(ServerApply(s, ss), k))
  {
    var v := Stream(s, k);
    if ss.ServerRecv? {
      ServerRecvStreams(s, k);
      if s.up[s.upGot].Carries(s.handlers[k].id) {
        ProxyStream.ServerRecvKeeps(v, ServerDispatch(s.streams, s.up[s.upGot]).1);
      }
    } else {
      ServerStreams(s, ss, k);
      if LoopStream(s) == Some(s.handlers[k].id) {
        ServerKeeps(v, ss, |s.targets|);
      }
    }
  }

  lemma ConnectionStepKeeps(s: State, step: Step, k: nat)
    requires s.upGot <= |s.up| && s.downGot <= |s.down| && k < |s.handlers| && StreamInv(Stream(s, k))
    requires step.UpBreaks? || step.DownBreaks? || step.Cancel?
    ensures StreamInv(Stream(Apply(s, step), k))
  {
    hide StreamInv, Only, DataOf, TargetOf, LoopIn, HandlerApply, ClientApply, ServerApply, ReaderApply;
    var v, s' := Stream(s, k), Apply(s, step);
    ConnectionKeeps(v, s'.upOk, s'.downOk, s'.cancelled);
    assert Stream(s', k) == v.(upOk := s'.upOk, downOk := s'.downOk, cancelled := s'.cancelled);
  }

  lemma StreamKept(s: State, step: Step, k: nat)
    requires Inv(s) && Enabled(s, step) && !step.Forge? && k < |s.handlers|
    ensures
      var s' := Apply(s, step);
      k < |s'.handlers| && s'.upGot <= |s'.up| && s'.downGot <= |s'.down| && StreamInv(Stream(s', k))
  {
    var v := Stream(s, k);
    assert StreamInv(v) && v.h == s.handlers[k];
    QueuesGrow(s, step);
    hide StreamInv, Stream, HandlerApply, ClientApply, ServerApply, ReaderApply;
    if step.OfHandler? {
      IdsAreDistinct(k); IdsAreDistinct(step.h);
      HandlerStreams(s, step.h, step.hs, k);
      if k == step.h { HandlerKeeps(v, step.hs); }
    } else if step.OfClient? {
      ClientStepKeeps(s, step.cs, k);
    } else if step.OfServer? {
      if step.ss.RegisterTarget? { DialIsNew(s); }
      ServerStepKeeps(s, step.ss, k);
    } else if step.OfReader? {
      ReaderStreams(s, step.t, step.rs, k);
      if s.handlers[k].id == s.targets[step.t].id { ReaderKeeps(v, step.rs); }
    } else if step.Accept? || step.KeepAlive? || step.SayDisconnect? {
      OtherStreams(s, step, k);
    } else if step.SessionEnds? {
      SessionStreams(s, k);
      if v.sreg { SessionEndKeeps(v); }
    } else {
      ConnectionStepKeeps(s, step, k);
    }
  }

  // No frame of an id that was never used has been sent or read.
  lemma {:induction false} OnlyUnused(fs: seq<Frame>, i: Id)
    requires forall j :: 0 <= j < |fs| ==> !fs[j].Carries(i)
    ensures Only(fs, i) == []
  {
    if fs != [] { OnlyUnused(fs[..|fs| - 1], i); }
  }

  lemma NewStream(s: State)
    requires Bookkeeping(s) && |s.handlers| < MAX_DIALS
    ensures
      var s' := Apply(s, Accept);
      StreamInv(Stream(s', |s.handlers|))
  {
    var s' := Apply(s, Accept);
    var k := |s.handlers|;
    var i := s'.handlers[k].id;
    IdsAreDistinct(k);
    assert i == IdOf(k) && !Known(s, i);
    OnlyUnused(s.up, i);
    OnlyUnused(s.up[..s.upGot], i);
    OnlyUnused(s.down, i);
    OnlyUnused(s.down[..s.downGot], i);
    TargetOfNone(s.targets, i);
  }

  lemma InvKept(s: State, step: Step)
    requires Inv(s) && Enabled(s, step) && !step.Forge? && |Apply(s, step).handlers| <= MAX_DIALS
    ensures Inv(Apply(s, step))
  {
    var s' := Apply(s, step);
    BooksKept(s, step);
    QueuesGrow(s, step);
    forall k | 0 <= k < |s'.handlers| ensures StreamInv(Stream(s', k)) {
      if k < |s.handlers| {
        StreamKept(s, step, k);
      } else {
        NewStream(s);
      }
    }
  }

  lemma HandlersOnlyGrow(s: State, step: Step)
    requires Enabled(s, step)
    ensures |s.handlers| <= |Apply(s, step).handlers|
  {
    hide HandlerApply, ClientApply, ServerApply, ReaderApply;
  }

  lemma {:induction false} DialsOnlyGrow(steps: seq<Step>, n: nat)
    requires IsRun(steps) && n <= |steps|
    ensures IsRun(steps[..n]) && |After(steps[..n]).handlers| <= |After(steps).handlers|
  {
    hide Apply, Enabled;
    if n < |steps| {
      var m := |steps| - 1;
      DialsOnlyGrow(steps[..m], n);
      assert steps[..m][..n] == steps[..n];
      HandlersOnlyGrow(After(steps[..m]), steps[m]);
    } else {
      assert steps[..n] == steps;
    }
  }

  // The invariant holds in every state an honest run reaches.
  lemma {:induction false} InvHolds(steps: seq<Step>)
    requires IsRun(steps) && Honest(steps) && |After(steps).handlers| <= MAX_DIALS
    ensures Inv(After(steps))
  {
    if steps != [] {
      var n := |steps| - 1;
      DialsOnlyGrow(steps, n);
      InvHolds(steps[..n]);
      assert steps[n] in steps;
      InvKept(After(steps[..n]), steps[n]);
    }
  }

  // The states of honest runs that have not yet reused an id.
  ghost predicate Reached(s: State) {
    |s.handlers| <= MAX_DIALS && exists steps :: IsRun(steps) && Honest(steps) && After(steps) == s
  }

  lemma ReachedIsSafe(s: State)
    requires Reached(s)
    ensures Inv(s)
  {
    var steps :| IsRun(steps) && Honest(steps) && After(steps) == s;
    InvHolds(steps);
  }

  lemma StreamAt(s: State, k: nat)
    requires Reached(s) && k < |s.handlers|
    ensures s.upGot <= |s.up| && s.downGot <= |s.down| && StreamInv(Stream(s, k))
  {
    ReachedIsSafe(s);
  }

  // The handler that dialled a target, and the target in that handler's stream.
  lemma TargetAt(s: State, t: nat)
    requires Reached(s) && t < |s.targets|
    ensures
      var k := DialOf(s.targets[t].id);
      && s.upGot <= |s.up| && s.downGot <= |s.down|
      && k < |s.handlers| && s.handlers[k].id == s.targets[t].id
      && Stream(s, k).t == Some(s.targets[t]) && StreamInv(Stream(s, k))
  {
    hide StreamInv, Only, DataOf;
    ReachedIsSafe(s);
    var k := DialOf(s.targets[t].id);
    assert Known(s, s.targets[t].id);
    IdsAreDistinct(k);
    TargetOfAt(s.targets, t);
  }

  // The entries of the server's table.
  lemma EntryAt(s: State, i: Id)
    requires Reached(s) && i in s.streams
    ensures s.streams[i] < |s.targets| && s.targets[s.streams[i]].id == i
  {
    ReachedIsSafe(s);
  }

  lemma HandlerIdsDiffer(s: State, k: nat, h: nat)
    requires Reached(s) && k < |s.handlers| && h < |s.handlers|
    ensures s.handlers[k].id == s.handlers[h].id <==> k == h
    ensures DialOf(s.handlers[k].id) == k
  {
    ReachedIsSafe(s);
    IdsAreDistinct(k);
    IdsAreDistinct(h);
  }
}
