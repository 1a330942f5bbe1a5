/** Nobody waits in vain while the connection is up: a dial the server has read is
    answered, a result the client has read reaches the handler that waits for it,
    and whoever leaves a stream says so. */
module ProxyAnswers {
  import opened Bytes
  import opened ProxyWire
  import opened ProxySystem
  import opened ProxyStream
  import opened ProxyIsolation
  import opened ProxySafety
  import opened ProxyTheorems

  // ---------------------------------------------------------------- the server's answers

  lemma {:induction false} HasOpening(fs: seq<Frame>, i: Id, f: Frame)
    requires f in fs && f.Carries(i)
    ensures f in Only(fs, i)
  {
    var init, last := fs[..|fs| - 1], fs[|fs| - 1];
    assert fs == init + [last];
    if f in init { HasOpening(init, i, f); }
  }

  lemma FirstIsThere(fs: seq<Frame>, i: Id)
    requires Only(fs, i) != []
    ensures Only(fs, i)[0] in fs && Only(fs, i)[0].Carries(i)
  {
    OnlyCarries(fs, i, 0);
  }

  // The answer to a Dial the server has read and is no longer busy with: OK if it
  // has opened a target for it, Fail if it has not, and never the other one.
  lemma DialsAreAnswered(s: State, k: nat)
    requires Reached(s) && k < |s.handlers| && s.downOk
    requires s.upGot <= |s.up| && Dial(s.handlers[k].id) in s.up[..s.upGot]
    requires LoopStream(s) != Some(s.handlers[k].id)
    ensures
      var i := s.handlers[k].id;
      var dialled := exists t <- s.targets :: t.id == i;
      && (DialOk(i) in s.down <==> dialled)
      && (DialFail(i) in s.down <==> !dialled)
  {
    hide Reached, Only, TargetOf, LoopStream;
    StreamAt(s, k);
    var v, i := Stream(s, k), s.handlers[k].id;
    HasOpening(s.up[..s.upGot], i, Dial(i));
    TargetOfNone(s.targets, i);
    if DialOk(i) in s.down { HasOpening(s.down, i, DialOk(i)); }
    if DialFail(i) in s.down { HasOpening(s.down, i, DialFail(i)); }
    AnswerIsFirst(v);
    FirstIsThere(s.down, i);
  }

  lemma AnswerIsFirst(v: View)
    requires StreamInv(v) && v.got != [] && v.sl == Turn(Skip) && v.downOk
    ensures v.down != []
    ensures v.down[0].DialOk? == v.t.Some? && v.down[0].DialFail? == v.t.None?
    ensures forall f <- v.down :: (f.DialOk? ==> v.t.Some?) && (f.DialFail? ==> v.t.None?)
  {
  }

  // ---------------------------------------------------------------- leaving

  // A target's reader that has ended has said Close, and a handler that has
  // finished has said Close or never had anything to close.
  lemma LeavingIsAnnounced(s: State)
    requires Reached(s)
    ensures s.downOk ==> forall t <- s.targets :: t.reader.Ended? ==> Close(t.id) in s.down
    ensures s.downGot <= |s.down|
    ensures s.upOk && !s.cancelled ==> forall h <- s.handlers :: h.phase.Finished? ==>
      Close(h.id) in s.up || Dial(h.id) !in s.up || DialFail(h.id) in s.down[..s.downGot]
  {
    hide Reached;
    ReachedIsSafe(s);
    if s.downOk {
      forall t <- s.targets | t.reader.Ended? ensures Close(t.id) in s.down { ReaderHasSaidClose(s, t); }
    }
    if s.upOk && !s.cancelled {
      forall h <- s.handlers | h.phase.Finished?
        ensures Close(h.id) in s.up || Dial(h.id) !in s.up || DialFail(h.id) in s.down[..s.downGot]
      {
        HandlerHasSaidClose(s, h);
      }
    }
  }

  // A Close is the last frame of its direction, so it is there or it is not.
  lemma ClosedMeansClose(fs: seq<Frame>, i: Id)
    requires UpShape(Only(fs, i)) || DownShape(Only(fs, i))
    ensures Closed(Only(fs, i)) <==> Close(i) in fs
  {
    if Closed(Only(fs, i)) { OnlyCarries(fs, i, |Only(fs, i)| - 1); }
    if Close(i) in fs { HasOpening(fs, i, Close(i)); }
  }

  lemma ReaderHasSaidClose(s: State, x: Target)
    requires Reached(s) && s.downOk && x in s.targets && x.reader.Ended?
    ensures Close(x.id) in s.down
  {
    hide Only, Reached;
    var t :| 0 <= t < |s.targets| && s.targets[t] == x;
    TargetAt(s, t);
    ClosedMeansClose(s.down, x.id);
  }

  lemma HandlerHasSaidClose(s: State, h: Handler)
    requires Reached(s) && s.upOk && !s.cancelled && h in s.handlers && h.phase.Finished? && s.downGot <= |s.down|
    ensures Close(h.id) in s.up || Dial(h.id) !in s.up || DialFail(h.id) in s.down[..s.downGot]
  {
    hide Only, Reached;
    var k :| 0 <= k < |s.handlers| && s.handlers[k] == h;
    StreamAt(s, k);
    var v := Stream(s, k);
    if Closed(v.up) {
      ClosedMeansClose(s.up, h.id);
    } else if v.up == [] {
      if Dial(h.id) in s.up { HasOpening(s.up, h.id, Dial(h.id)); }
    } else {
      assert SaysFail(v.dgot);
      FirstIsThere(s.down[..s.downGot], h.id);
    }
  }

  // ---------------------------------------------------------------- the client's results

  // A handler that waits has its result, or the read loop is about to hand it
  // over, or its entry is in `pending` and nothing of its stream has been read.
  ghost predicate Expects(s: State, k: nat)
    requires k < |s.handlers| && s.downGot <= |s.down|
  {
    var h := s.handlers[k];
    h.phase.Pending? || h.phase.Awaiting? ==>
      || h.slot != []
      || (s.cloop.Deliver? && s.cloop.h == k)
      || (h.id in s.tab.pending && s.tab.pending[h.id] == k && Only(s.down[..s.downGot], h.id) == [])
  }

  // Where nothing the invariant speaks of has changed.
  lemma ExpectsStill(s: State, s': State, k: nat)
    requires k < |s.handlers| && k < |s'.handlers| && s.downGot <= |s.down| && s'.downGot <= |s'.down|
    requires s'.handlers[k].id == s.handlers[k].id && s'.handlers[k].slot == s.handlers[k].slot
    requires s'.handlers[k].phase.Pending? || s'.handlers[k].phase.Awaiting? ==>
      s.handlers[k].phase.Pending? || s.handlers[k].phase.Awaiting?
    requires s.cloop.Deliver? && s.cloop.h == k ==> s'.cloop == s.cloop
    requires var p := s'.handlers[k].phase;
      (p.Pending? || p.Awaiting?) && s.handlers[k].id in s.tab.pending && s.tab.pending[s.handlers[k].id] == k ==>
      s.handlers[k].id in s'.tab.pending && s'.tab.pending[s.handlers[k].id] == k
    requires Only(s'.down[..s'.downGot], s.handlers[k].id) == Only(s.down[..s.downGot], s.handlers[k].id)
    requires Expects(s, k)
    ensures Expects(s', k)
  {
    hide Only;
  }

  lemma HandlerExpects(s: State, h: nat, hs: HandlerStep, k: nat)
    requires ClientOrder(s.tab, s.handlers, s.cloop) && Enabled(s, OfHandler(h, hs))
    requires k < |s.handlers| && Expects(s, k)
    requires s.handlers[k].phase.Allocated? ==> Only(s.down[..s.downGot], s.handlers[k].id) == []
    ensures Expects(HandlerApply(s, h, hs), k)
  {
    hide Only, DataOf, HandlerFrames, DialOf, IdOf;
    IdsAreDistinct(k);
    IdsAreDistinct(h);
    var s' := HandlerApply(s, h, hs);
    if k != h {
      assert s.handlers[k].id != s.handlers[h].id;
      hide HandlerAfter, HandlerCan, ClientOrder;
      ExpectsStill(s, s', k);
    } else if !hs.AddPending? {
      hide ClientOrder;
      if !hs.TakeResult? { ExpectsStill(s, s', k); }
    }
  }

  lemma NothingBeforeTheDial(v: View)
    requires StreamInv(v) && v.h.phase.Allocated?
    ensures v.dgot == []
  {
  }

  lemma ReadExpects(s: State, k: nat)
    requires Bookkeeping(s) && ClientCan(s, ClientRecv) && k < |s.handlers| && Expects(s, k)
    requires StreamInv(Stream(s, k))
    ensures Expects(ClientApply(s, ClientRecv), k)
  {
    hide Only, DataOf, StreamInv, DialOf, IdOf, ServerOrder;
    var v, f, i := Stream(s, k), s.down[s.downGot], s.handlers[k].id;
    IdsAreDistinct(k);
    Received(s.down, s.downGot, i);
    hide QueueOrder;
    if f.Carries(i) {
      if v.dgot == [] { FirstIsResult(v); }
    } else {
      hide ClientOrder;
      ExpectsStill(s, ClientApply(s, ClientRecv), k);
    }
  }

  lemma FirstIsResult(v: View)
    requires StreamInv(v) && v.dgot == [] && v.down != []
    ensures v.down[0].DialOk? || v.down[0].DialFail?
  {
  }

  lemma LoopExpects(s: State, cs: ClientStep, k: nat)
    requires s.downGot <= |s.down| && ClientCan(s, cs) && !cs.ClientRecv? && k < |s.handlers| && Expects(s, k)
    ensures Expects(ClientApply(s, cs), k)
  {
    hide Only;
  }

  lemma ServerOnlySends(s: State, ss: ServerStep)
    requires ServerCan(s, ss)
    ensures ServerApply(s, ss).downGot == s.downGot && s.down <= ServerApply(s, ss).down
  {
    hide ServerDispatch, TargetAfterWrite;
  }

  // The rest of the system takes no frame from the client's queue.
  lemma ReadingUntouched(s: State, step: Step)
    requires Enabled(s, step) && !step.OfHandler? && !step.OfClient?
    ensures Apply(s, step).downGot == s.downGot && s.down <= Apply(s, step).down
  {
    hide HandlerApply, ClientApply, ServerApply, TargetAfter, ReaderFrames, CloseAll;
    if step.OfServer? { ServerOnlySends(s, step.ss); }
  }

  lemma OtherExpects(s: State, step: Step, k: nat)
    requires s.downGot <= |s.down| && k < |s.handlers| && Expects(s, k)
    requires Enabled(s, step) && !step.OfHandler? && !step.OfClient?
    ensures
      var s' := Apply(s, step);
      k < |s'.handlers| && s'.downGot <= |s'.down| && Expects(s', k)
  {
    hide HandlerApply, ClientApply, ServerApply, ReaderApply, Only;
    ReadingUntouched(s, step);
    var s' := Apply(s, step);
    assert s'.down[..s'.downGot] == s.down[..s.downGot];
    if !step.Accept? { ClientSideUntouched(s, step); }
    hide Apply, Enabled;
    ExpectsStill(s, s', k);
  }

  lemma ExpectsKept(s: State, step: Step, k: nat)
    requires Inv(s) && Enabled(s, step) && k < |s.handlers| && Expects(s, k)
    ensures
      var s' := Apply(s, step);
      k < |s'.handlers| && s'.downGot <= |s'.down| && Expects(s', k)
  {
    hide Expects, HandlerApply, ClientApply, ServerApply, ReaderApply, Only, StreamInv;
    QueuesGrow(s, step);
    var v := Stream(s, k);
    assert StreamInv(v);
    if step.OfHandler? {
      if v.h.phase.Allocated? { NothingBeforeTheDial(v); }
      HandlerExpects(s, step.h, step.hs, k);
    } else if step.OfClient? {
      if step.cs.ClientRecv? { ReadExpects(s, k); } else { LoopExpects(s, step.cs, k); }
    } else {
      OtherExpects(s, step, k);
    }
  }

  lemma {:induction false} ExpectsHolds(steps: seq<Step>, k: nat)
    requires IsRun(steps) && Honest(steps) && k < |After(steps).handlers| <= MAX_DIALS
    ensures After(steps).downGot <= |After(steps).down| && Expects(After(steps), k)
  {
    hide Apply, Enabled, Inv, Expects;
    var n := |steps| - 1;
    var before := steps[..n];
    DialsOnlyGrow(steps, n);
    InvHolds(before);
    InvHolds(steps);
    if k < |After(before).handlers| {
      ExpectsHolds(before, k);
      ExpectsKept(After(before), steps[n], k);
    } else {
      JustAccepted(After(before), steps[n], k);
    }
  }

  lemma JustAccepted(s: State, step: Step, k: nat)
    requires Inv(s) && Enabled(s, step) && |s.handlers| <= k < |Apply(s, step).handlers|
    ensures Apply(s, step).downGot <= |Apply(s, step).down| && Expects(Apply(s, step), k)
  {
    hide HandlerApply, ClientApply, ServerApply, ReaderApply, StreamInv, Only;
    QueuesGrow(s, step);
  }

  // Once the read loop has read the result of a dial and is at its top, the
  // handler that is waiting for it has it in its channel.
  lemma ResultsReachTheirHandler(s: State, k: nat)
    requires Reached(s) && k < |s.handlers| && s.handlers[k].phase.Awaiting? && s.cloop == Nothing
    requires s.downGot <= |s.down|
    requires exists f <- s.down[..s.downGot] :: f == DialOk(s.handlers[k].id) || f == DialFail(s.handlers[k].id)
    ensures Enabled(s, OfHandler(k, TakeResult))
    ensures s.handlers[k].slot == [DialOk(s.handlers[k].id) in s.down[..s.downGot]]
  {
    hide Inv, Only, Honest, StreamInv;
    var steps :| IsRun(steps) && Honest(steps) && After(steps) == s;
    ExpectsHolds(steps, k);
    var got, i := s.down[..s.downGot], s.handlers[k].id;
    var f :| f in got && (f == DialOk(i) || f == DialFail(i));
    HasOpening(got, i, f);
    StreamAt(s, k);
    hide Reached;
    ResultIsTold(Stream(s, k), f);
    if DialOk(i) in got { HasOpening(got, i, DialOk(i)); }
    FirstIsThere(got, i);
  }

  // The channel holds what the first frame says, and only the first is a result.
  lemma ResultIsTold(v: View, f: Frame)
    requires StreamInv(v) && v.h.slot != [] && f in v.dgot && (f.DialOk? || f.DialFail?)
    ensures v.h.slot == [v.dgot[0].DialOk?]
    ensures forall g <- v.dgot :: g.DialOk? ==> v.dgot[0].DialOk?
  {
    if v.h.slot[0] { assert v.h.slot == [true]; } else { assert v.h.slot == [false]; }
    assert v.dgot[0] == v.down[0];
  }

  // ---------------------------------------------------------------- no stale entries

  // An entry in `pending` belongs to a dial still under way, or to one given up
  // when the connection was cancelled.
  ghost predicate Awaited(s: State) {
    forall i <- s.tab.pending :: s.tab.pending[i] < |s.handlers| && MayHear(s, s.tab.pending[i])
  }

  predicate MayHear(s: State, k: nat)
    requires k < |s.handlers|
  {
    var p := s.handlers[k].phase;
    p.Pending? || p.Awaiting? || (p.Finished? && s.cancelled)
  }

  lemma HandlerAwaits(s: State, h: nat, hs: HandlerStep)
    requires Awaited(s) && ResultsInv(s) && Enabled(s, OfHandler(h, hs))
    requires ClientOrder(s.tab, s.handlers, s.cloop)
    ensures Awaited(HandlerApply(s, h, hs))
  {
    hide Only, DataOf, HandlerFrames, IdOf;
    IdsAreDistinct(h);
    var s' := HandlerApply(s, h, hs);
    forall i <- s'.tab.pending ensures s'.tab.pending[i] < |s'.handlers| && MayHear(s', s'.tab.pending[i]) {
      if i in s.tab.pending { IdsAreDistinct(s.tab.pending[i]); }
    }
  }

  lemma ClientAwaits(s: State, cs: ClientStep)
    requires Awaited(s) && ClientCan(s, cs) && Bookkeeping(s)
    ensures Awaited(ClientApply(s, cs))
  {
    hide ServerOrder, QueueOrder, IdOf, DialOf;
    if cs.ClientRecv? { ClientDispatchStays(s.tab, s.down[s.downGot]); }
    hide ClientDispatch;
  }

  lemma AwaitedKept(s: State, step: Step)
    requires Awaited(s) && ResultsInv(s) && Bookkeeping(s) && Enabled(s, step)
    ensures Awaited(Apply(s, step))
  {
    hide ResultsInv, HandlerApply, ClientApply, ServerApply, ReaderApply, ClientOrder, ServerOrder, QueueOrder;
    if step.OfHandler? {
      HandlerAwaits(s, step.h, step.hs);
    } else if step.OfClient? {
      ClientAwaits(s, step.cs);
    } else if !step.Accept? {
      ClientSideUntouched(s, step);
      CancelLasts(s, step);
    }
  }

  lemma CancelLasts(s: State, step: Step)
    requires Enabled(s, step) && !step.OfHandler? && !step.OfClient?
    ensures s.cancelled ==> Apply(s, step).cancelled
  {
    hide HandlerApply, ClientApply, ServerDispatch, TargetAfter, ReaderFrames, CloseAll, TargetAfterWrite;
  }

  lemma {:induction false} AwaitedHolds(steps: seq<Step>)
    requires IsRun(steps) && Honest(steps) && |After(steps).handlers| <= MAX_DIALS
    ensures Awaited(After(steps))
  {
    hide Apply, Enabled, Inv, Awaited, ResultsInv;
    if steps != [] {
      var n := |steps| - 1;
      DialsOnlyGrow(steps, n);
      InvHolds(steps[..n]);
      EachDialHearsOnce(steps[..n]);
      AwaitedHolds(steps[..n]);
      assert Bookkeeping(After(steps[..n])) by { BooksOf(After(steps[..n])); }
      AwaitedKept(After(steps[..n]), steps[n]);
    } else {
      NothingAwaited();
    }
  }

  lemma NothingAwaited()
    ensures Awaited(Init())
  {
  }

  lemma BooksOf(s: State)
    requires Inv(s)
    ensures Bookkeeping(s)
  {
  }

  // A late result finds nobody: a dial that has timed out, failed or been answered
  // has no entry left.
  lemma NoEntryOutlivesItsDial(s: State, i: Id)
    requires Reached(s) && i in s.tab.pending
    ensures
      var k := s.tab.pending[i];
      && k < |s.handlers| && s.handlers[k].id == i
      && (s.handlers[k].phase.Pending? || s.handlers[k].phase.Awaiting? ||
          (s.handlers[k].phase.Finished? && s.cancelled))
  {
    hide Inv;
    var steps :| IsRun(steps) && Honest(steps) && After(steps) == s;
    AwaitedHolds(steps);
    EachDialHearsOnce(steps);
  }
}
