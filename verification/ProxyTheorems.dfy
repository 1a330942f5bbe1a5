/** Proxy mode's guarantees, read off the invariant: bytes stay with their
    stream and in order, the server keeps no stream the client has forgotten,
    the close handshake ends, and a dial never hears two answers. */
module ProxyTheorems {
  import opened ProxyWire
  import opened ProxySystem
  import opened ProxyStream
  import opened ProxyIsolation
  import opened ProxySafety

  // ---------------------------------------------------------------- data

  // Target to client: what reaches the local socket is one contiguous block of
  // what the server read from the target of the same id, and of no other. The
  // block starts where `skipped` ends.
  lemma LocalBytesAreABlock(s: State, k: nat, t: nat)
    requires Reached(s) && k < |s.handlers| && t < |s.targets| && s.targets[t].id == s.handlers[k].id
    ensures
      var h, from := s.handlers[k], |s.handlers[k].skipped|;
      && from + |h.wr| <= |s.targets[t].rd|
      && h.skipped == s.targets[t].rd[..from]
      && h.wr == s.targets[t].rd[from..from + |h.wr|]
  {
    HandlerIdsDiffer(s, k, k);
    TargetAt(s, t);
    var v, h := Stream(s, k), s.handlers[k];
    DataOfMonotone(v.dgot, v.down);
    assert h.skipped + h.wr <= s.targets[t].rd;
    assert h.skipped == (h.skipped + h.wr)[..|h.skipped|];
    assert h.wr == (h.skipped + h.wr)[|h.skipped|..];
  }

  // Nothing is written to a local socket whose dial never reached a target.
  lemma NoTargetNoBytes(s: State, k: nat)
    requires Reached(s) && k < |s.handlers|
    requires forall t <- s.targets :: t.id != s.handlers[k].id
    ensures s.handlers[k].wr == []
  {
    StreamAt(s, k);
    TargetOfNone(s.targets, s.handlers[k].id);
    NoOpeningNoData(Stream(s, k));
  }

  lemma NoOpeningNoData(v: View)
    requires StreamInv(v) && v.t.None?
    ensures DataOf(v.dgot) == []
  {
    if v.dgot != [] {
      assert v.dgot == [v.down[0]];
      assert DataOf(v.dgot[..0]) == [];
    }
  }

  lemma DataOfMonotone(a: seq<Frame>, b: seq<Frame>)
    requires a <= b
    ensures DataOf(a) <= DataOf(b)
  {
    assert b[..|a|] == a;
    DataOfPrefix(b, |a|);
  }

  // `skipped` is set when the handler enters `streams`, and by no other step.
  lemma OnlyRegisteringSkips(s: State, step: Step, k: nat)
    requires Enabled(s, step) && k < |s.handlers|
    ensures
      var s' := Apply(s, step);
      k < |s'.handlers| &&
      s'.handlers[k].skipped ==
        if step == OfHandler(k, Register)
        then DataOf(Only(s.down[..s.downGot], s.handlers[k].id))
        else s.handlers[k].skipped
  {
    hide Only, DataOf;
    if step.OfClient? {
      SkippedByClient(s, step.cs, k);
    } else if !step.OfHandler? && !step.Accept? {
      ClientSideUntouched(s, step);
    }
  }

  lemma SkippedByClient(s: State, cs: ClientStep, k: nat)
    requires ClientCan(s, cs) && k < |s.handlers|
    ensures
      var h, h' := s.handlers[k], ClientApply(s, cs).handlers[k];
      h'.id == h.id && h'.phase == h.phase && h'.skipped == h.skipped
  {
  }

  lemma ServerLeavesClient(s: State, ss: ServerStep)
    requires ServerCan(s, ss)
    ensures
      var s' := ServerApply(s, ss);
      s'.handlers == s.handlers && s'.tab == s.tab && s'.cloop == s.cloop
  {
    hide ServerDispatch;
  }

  lemma ReaderLeavesClient(s: State, t: nat, rs: ReaderStep)
    requires t < |s.targets| && ReaderCan(s.targets[t], rs)
    ensures
      var s' := ReaderApply(s, t, rs);
      s'.handlers == s.handlers && s'.tab == s.tab && s'.cloop == s.cloop
  {
  }

  // Nothing the server does, or fails to do, changes the client by itself.
  lemma ClientSideUntouched(s: State, step: Step)
    requires Enabled(s, step) && !step.OfHandler? && !step.OfClient? && !step.Accept?
    ensures
      var s' := Apply(s, step);
      s'.handlers == s.handlers && s'.tab == s.tab && s'.cloop == s.cloop
  {
    hide HandlerApply, ClientApply, ServerApply, ReaderApply;
    if step.OfServer? { ServerLeavesClient(s, step.ss); }
    if step.OfReader? { ReaderLeavesClient(s, step.t, step.rs); }
  }

  // The phases a handler is in once it has registered; it never registers again.
  predicate HasRegistered(p: Phase) {
    p.Active? || p.Holding? || p.Leaving? || p.Closing? || p.Finished?
  }

  lemma RegistersOnce(s: State, step: Step, k: nat)
    requires Enabled(s, step) && k < |s.handlers| && HasRegistered(s.handlers[k].phase)
    ensures step != OfHandler(k, Register)
    ensures
      var s' := Apply(s, step);
      k < |s'.handlers| && s'.handlers[k].id == s.handlers[k].id && HasRegistered(s'.handlers[k].phase)
  {
    hide Only, DataOf, ServerApply, ReaderApply, ClientApply;
    if step.OfClient? {
      SkippedByClient(s, step.cs, k);
    } else if !step.OfHandler? && !step.Accept? {
      ClientSideUntouched(s, step);
    }
  }

  lemma RegisterRegisters(s: State, k: nat)
    requires Enabled(s, OfHandler(k, Register))
    ensures
      var s' := Apply(s, OfHandler(k, Register));
      k < |s'.handlers| && s'.handlers[k].id == s.handlers[k].id && HasRegistered(s'.handlers[k].phase)
  {
    hide Only, DataOf;
  }

  // If step n of a run registers handler k, then in every later state what it
  // skipped is the data of its stream that had been read up to step n.
  lemma {:induction false} SkippedForGood(steps: seq<Step>, n: nat, k: nat)
    requires IsRun(steps) && n < |steps| && steps[n] == OfHandler(k, Register)
    ensures IsRun(steps[..n]) && Enabled(After(steps[..n]), steps[n])
    ensures
      var was, now := After(steps[..n]), After(steps);
      && k < |now.handlers| && now.handlers[k].id == was.handlers[k].id
      && HasRegistered(now.handlers[k].phase)
      && now.handlers[k].skipped == DataOf(Only(was.down[..was.downGot], was.handlers[k].id))
  {
    hide Apply, Only, DataOf, HasRegistered;
    var m := |steps| - 1;
    if n < m {
      SkippedForGood(steps[..m], n, k);
      assert steps[..m][..n] == steps[..n];
      RegistersOnce(After(steps[..m]), steps[m], k);
      OnlyRegisteringSkips(After(steps[..m]), steps[m], k);
    } else {
      RegisterRegisters(After(steps[..n]), k);
      OnlyRegisteringSkips(After(steps[..n]), steps[n], k);
    }
  }

  // So ever after, what had been read by then and what is written to the local
  // socket make up a prefix of the target's bytes.
  lemma BlockSinceRegistration(steps: seq<Step>, n: nat, k: nat, t: nat)
    requires IsRun(steps) && Honest(steps) && |After(steps).handlers| <= MAX_DIALS
    requires n < |steps| && steps[n] == OfHandler(k, Register)
    requires k < |After(steps).handlers| && t < |After(steps).targets|
    requires After(steps).targets[t].id == After(steps).handlers[k].id
    ensures IsRun(steps[..n]) && Enabled(After(steps[..n]), steps[n])
    ensures
      var was, now := After(steps[..n]), After(steps);
      DataOf(Only(was.down[..was.downGot], was.handlers[k].id)) + now.handlers[k].wr <= now.targets[t].rd
  {
    hide Enabled, Apply, Only, DataOf;
    SkippedForGood(steps, n, k);
    var now := After(steps);
    assert Reached(now);
    LocalBytesAreABlock(now, k, t);
    var h, rd := now.handlers[k], now.targets[t].rd;
    assert h.skipped + h.wr == rd[..|h.skipped| + |h.wr|];
  }

  predicate Brings(f: Frame, i: Id) {
    f.Data? && f.id == i && f.data != []
  }

  ghost predicate NoDataReadIn(steps: seq<Step>, i: Id) {
    IsRun(steps) &&
    var s := After(steps);
    s.downGot <= |s.down| && forall f <- s.down[..s.downGot] :: !Brings(f, i)
  }

  // The block starts at the target's first byte exactly if no data of the stream
  // had been read when the handler registered.
  lemma StartsAtFirstByteExactly(steps: seq<Step>, n: nat, k: nat)
    requires IsRun(steps) && n < |steps| && steps[n] == OfHandler(k, Register)
    ensures k < |After(steps).handlers|
    ensures After(steps).handlers[k].skipped == [] <==> NoDataReadIn(steps[..n], After(steps).handlers[k].id)
  {
    hide Apply, Only, DataOf, HasRegistered;
    SkippedForGood(steps, n, k);
    var was := After(steps[..n]);
    NoData(was.down[..was.downGot], was.handlers[k].id);
  }

  // A handler that registered before data of its stream were read gets the
  // target's bytes from the first one on, in every later state of the run.
  lemma EarlyRegistrationSkipsNothing(steps: seq<Step>, n: nat, k: nat, t: nat)
    requires IsRun(steps) && Honest(steps) && |After(steps).handlers| <= MAX_DIALS
    requires n < |steps| && steps[n] == OfHandler(k, Register)
    requires k < |After(steps).handlers| && t < |After(steps).targets|
    requires After(steps).targets[t].id == After(steps).handlers[k].id
    requires NoDataReadIn(steps[..n], After(steps).handlers[k].id)
    ensures After(steps).handlers[k].wr <= After(steps).targets[t].rd
  {
    hide Apply, Only, DataOf, Honest;
    SkippedForGood(steps, n, k);
    BlockSinceRegistration(steps, n, k, t);
    var was := After(steps[..n]);
    NoData(was.down[..was.downGot], was.handlers[k].id);
    assert [] + After(steps).handlers[k].wr == After(steps).handlers[k].wr;
  }

  lemma {:induction false} NoData(fs: seq<Frame>, i: Id)
    ensures DataOf(Only(fs, i)) == [] <==> forall f <- fs :: !Brings(f, i)
  {
    if fs != [] {
      var init, last := fs[..|fs| - 1], fs[|fs| - 1];
      NoData(init, i);
      assert fs == init + [last];
      assert forall f :: f in fs <==> f in init || f == last;
      OnlyAppend(init, last, i);
      DataOfAppend(Only(init, i), last);
      hide Only, DataOf;
      assert Only(init, i) + [] == Only(init, i);
      assert DataOf(Only(init, i)) + [] == DataOf(Only(init, i));
      assert (forall f <- fs :: !Brings(f, i)) <==> (forall f <- init :: !Brings(f, i)) && !Brings(last, i);
    } else {
      assert Only(fs, i) == [];
    }
  }

  // Client to target: what reaches a target is a prefix of what was read from
  // the local connection that dialled it.
  lemma TargetBytesAreAPrefix(s: State, t: nat)
    requires Reached(s) && t < |s.targets|
    ensures
      var k := DialOf(s.targets[t].id);
      k < |s.handlers| && s.handlers[k].id == s.targets[t].id && s.targets[t].wr <= s.handlers[k].rd
  {
    TargetAt(s, t);
    var v := Stream(s, DialOf(s.targets[t].id));
    DataOfMonotone(v.got, v.up);
  }

  // Nothing is held back: once the server has read all the client sent and is at
  // the top of its loop, a target in its table that takes writes has got all that
  // a serving handler read.
  lemma TargetGetsEverything(s: State, t: nat)
    requires Reached(s) && t < |s.targets| && s.upGot == |s.up| && s.sloop == Turn(Skip)
    requires s.targets[t].id in s.streams && s.targets[t].writable
    ensures
      var k := DialOf(s.targets[t].id);
      k < |s.handlers| && (s.handlers[k].phase.Active? ==> s.targets[t].wr == s.handlers[k].rd)
  {
    TargetAt(s, t);
    assert s.up[..|s.up|] == s.up;
  }

  // Likewise a registered handler whose socket takes writes has got, with what it
  // skipped, all that a target's reader at its next read has read.
  lemma HandlerGetsEverything(s: State, k: nat, t: nat)
    requires Reached(s) && k < |s.handlers| && t < |s.targets| && s.targets[t].id == s.handlers[k].id
    requires s.downOk && s.downGot == |s.down| && s.cloop == Nothing
    requires s.handlers[k].id in s.tab.streams && s.handlers[k].writable && s.targets[t].reader.Reading?
    ensures s.handlers[k].skipped + s.handlers[k].wr == s.targets[t].rd
  {
    HandlerIdsDiffer(s, k, k);
    TargetAt(s, t);
    assert s.down[..|s.down|] == s.down;
  }

  // Each direction of a stream carries at most one opening and one Close, the
  // opening first and the Close last; data follow an OK, also those of the
  // client, which has read it by then.
  lemma FramesComeInOrder(s: State, k: nat)
    requires Reached(s) && k < |s.handlers|
    ensures UpShape(Only(s.up, s.handlers[k].id)) && DownShape(Only(s.down, s.handlers[k].id))
    ensures s.downGot <= |s.down|
    ensures (exists f <- Only(s.up, s.handlers[k].id) :: f.Data?) ==>
      SaysOk(Only(s.down[..s.downGot], s.handlers[k].id))
  {
    hide Only, Reached;
    StreamAt(s, k);
    var up := Only(s.up, s.handlers[k].id);
    if f :| f in up && f.Data? {
      var j :| 0 <= j < |up| && up[j] == f;
      assert up[1].Data?;
    }
  }

  // ---------------------------------------------------------------- no orphans

  lemma {:induction false} CloseStillQueued(fs: seq<Frame>, n: nat, i: Id)
    requires n <= |fs| && Closed(Only(fs, i)) && !Closed(Only(fs[..n], i))
    ensures exists j :: n <= j < |fs| && fs[j] == Close(i)
  {
    assert fs[..|fs|] == fs;
    var m := |fs| - 1;
    if fs[m].Carries(i) {
      assert fs[m] == Close(i);
    } else {
      assert fs[..m][..n] == fs[..n];
      CloseStillQueued(fs[..m], n, i);
      var j :| n <= j < m && fs[..m][j] == Close(i);
      assert fs[j] == Close(i);
    }
  }

  // While the connection is up, a stream the server holds belongs to a handler
  // that is still at work, or its Close is on the way, behind the Dial.
  lemma NoOrphans(s: State, i: Id)
    requires Reached(s) && i in s.streams && s.upOk && !s.cancelled
    ensures
      var k := DialOf(i);
      && k < |s.handlers| && s.handlers[k].id == i
      && s.upGot <= |s.up| && Dial(i) in s.up[..s.upGot]
      && (s.handlers[k].phase.Finished? ==> exists j :: s.upGot <= j < |s.up| && s.up[j] == Close(i))
  {
    EntryAt(s, i);
    TargetAt(s, s.streams[i]);
    var k := DialOf(i);
    var v := Stream(s, k);
    hide StreamInv, Only;
    HeldStreamIsOpen(v);
    OnlyCarries(s.up[..s.upGot], i, 0);
    if v.h.phase.Finished? {
      CloseStillQueued(s.up, s.upGot, i);
    }
  }

  lemma HeldStreamIsOpen(v: View)
    requires StreamInv(v) && v.sreg
    ensures v.got != [] && v.got[0].Dial? && !Closed(v.got)
    ensures v.upOk && !v.cancelled && v.h.phase.Finished? ==> Closed(v.up)
  {
    assert v.got[0] == v.up[0];
    assert v.dgot != [] ==> v.dgot[0] == v.down[0];
  }

  // So once the server has read everything, it holds only live streams.
  lemma DrainedServerHoldsOnlyLiveStreams(s: State)
    requires Reached(s) && s.upOk && !s.cancelled && s.upGot == |s.up|
    ensures forall i <- s.streams :: DialOf(i) < |s.handlers| && !s.handlers[DialOf(i)].phase.Finished?
  {
    forall i <- s.streams ensures DialOf(i) < |s.handlers| && !s.handlers[DialOf(i)].phase.Finished? {
      NoOrphans(s, i);
    }
  }

  // ---------------------------------------------------------------- the close handshake

  // Close work left in one direction: to be sent and read, to be read, none.
  ghost function Side(sent: seq<Frame>, got: seq<Frame>): nat {
    if Closed(got) then 0 else if Closed(sent) then 1 else 2
  }

  ghost function CloseWork(v: View): nat {
    Side(v.up, v.got) + Side(v.down, v.dgot)
  }

  // A Close of stream i is sent or read by this step.
  ghost predicate CloseMoves(s: State, s': State, i: Id) {
    || (|s.up| < |s'.up| && s'.up[|s.up|] == Close(i))
    || (|s.down| < |s'.down| && s'.down[|s.down|] == Close(i))
    || (s.upGot < s'.upGot && s.upGot < |s.up| && s.up[s.upGot] == Close(i))
    || (s.downGot < s'.downGot && s.downGot < |s.down| && s.down[s.downGot] == Close(i))
  }

  lemma SideSettles(all: seq<Frame>, got: seq<Frame>, all': seq<Frame>, got': seq<Frame>, f: Frame)
    requires UpShape(all') || DownShape(all')
    requires got <= all && got' <= all'
    requires (all' == all && (got' == got || got' == got + [f])) || (all' == all + [f] && got' == got)
    ensures Side(all', got') + (if f.Close? && (all' != all || got' != got) then 1 else 0) <= Side(all, got)
  {
    assert forall j :: 0 <= j < |all| ==> all'[j] == all[j];
    assert forall j :: 0 <= j < |got'| ==> got'[j] == all'[j];
  }

  lemma QueueSettles(all: seq<Frame>, got: nat, all': seq<Frame>, got': nat, i: Id)
    requires got <= |all| && QueueStep(all, got, all', got')
    requires UpShape(Only(all', i)) || DownShape(Only(all', i))
    ensures
      Side(Only(all', i), Only(all'[..got'], i)) +
        (if (|all| < |all'| && all'[|all|] == Close(i)) || (got < got' && all[got] == Close(i)) then 1 else 0)
      <= Side(Only(all, i), Only(all[..got], i))
  {
    hide Only, UpShape, DownShape, Side;
    OnlyPrefix(all, got, i);
    OnlyPrefix(all', got', i);
    if |all| < |all'| {
      var f := all'[|all|];
      assert all' == all + [f];
      Sent(all, [f], got, i);
      SideSettles(Only(all, i), Only(all[..got], i), Only(all', i), Only(all'[..got'], i), f);
    } else if got < got' {
      Received(all, got, i);
      SideSettles(Only(all, i), Only(all[..got], i), Only(all', i), Only(all'[..got'], i), all[got]);
    }
  }

  // Every step that sends or reads a Close of a stream uses up some of the work
  // that is left for it, and no other step adds to it.
  lemma CloseWorkFalls(s: State, step: Step, k: nat)
    requires Inv(s) && Enabled(s, step) && Inv(Apply(s, step)) && k < |s.handlers|
    ensures
      var s' := Apply(s, step);
      k < |s'.handlers| &&
      CloseWork(Stream(s', k)) + (if CloseMoves(s, s', s.handlers[k].id) then 1 else 0) <= CloseWork(Stream(s, k))
  {
    QueuesGrow(s, step);
    var s', i := Apply(s, step), s.handlers[k].id;
    assert StreamInv(Stream(s', k)) && s'.handlers[k].id == IdOf(k) == i;
    QueueSettles(s.up, s.upGot, s'.up, s'.upGot, i);
    QueueSettles(s.down, s.downGot, s'.down, s'.downGot, i);
  }

  // How often a run sends or reads a Close of stream i.
  ghost function CloseEvents(steps: seq<Step>, i: Id): nat
    requires IsRun(steps)
    decreases |steps|
  {
    if steps == [] then 0
    else
      var before := steps[..|steps| - 1];
      CloseEvents(before, i) + (if CloseMoves(After(before), After(steps), i) then 1 else 0)
  }

  // The close handshake of a stream is at most four events, however long the run.
  lemma CloseHandshakeEnds(steps: seq<Step>, i: Id)
    requires IsRun(steps) && Honest(steps) && |After(steps).handlers| <= MAX_DIALS
    ensures CloseEvents(steps, i) <= 4
  {
    CloseEventsAreWork(steps, i);
  }

  ghost function WorkLeft(s: State, i: Id): nat
    requires Inv(s)
  {
    if Known(s, i) then CloseWork(Stream(s, DialOf(i))) else 4
  }

  lemma {:induction false} CloseEventsAreWork(steps: seq<Step>, i: Id)
    requires IsRun(steps) && Honest(steps) && |After(steps).handlers| <= MAX_DIALS
    ensures Inv(After(steps)) && CloseEvents(steps, i) + WorkLeft(After(steps), i) <= 4
  {
    InvHolds(steps);
    if steps != [] {
      var n := |steps| - 1;
      DialsOnlyGrow(steps, n);
      CloseEventsAreWork(steps[..n], i);
      WorkFalls(After(steps[..n]), steps[n], i);
    }
  }

  lemma WorkFalls(s: State, step: Step, i: Id)
    requires Inv(s) && Enabled(s, step) && Inv(Apply(s, step))
    ensures WorkLeft(Apply(s, step), i) + (if CloseMoves(s, Apply(s, step), i) then 1 else 0) <= WorkLeft(s, i)
  {
    var k := DialOf(i);
    IdsAreDistinct(k);
    if Known(s, i) {
      assert s.handlers[k].id == i;
      CloseWorkFalls(s, step, k);
    } else {
      NoCloseYet(s, step, i);
    }
  }

  // An id that no dial has used appears in no frame.
  lemma NoCloseYet(s: State, step: Step, i: Id)
    requires Inv(s) && Enabled(s, step) && Inv(Apply(s, step)) && !Known(s, i)
    ensures !CloseMoves(s, Apply(s, step), i)
  {
    hide StreamInv, Stream, DialOf;
    var s' := Apply(s, step);
    QueuesGrow(s, step);
    hide HandlerApply, ClientApply, ServerApply, ReaderApply;
    assert s.upGot < |s.up| ==> FrameKnown(s, s.up[s.upGot]);
    assert s.downGot < |s.down| ==> FrameKnown(s, s.down[s.downGot]);
    if step.Accept? {
      assert s'.up == s.up && s'.down == s.down;
    } else {
      assert |s.up| < |s'.up| ==> FrameKnown(s', s'.up[|s.up|]);
      assert |s.down| < |s'.down| ==> FrameKnown(s', s'.down[|s.down|]);
    }
  }

  // ---------------------------------------------------------------- dial results

  // The invariant of the result channels. It does not rely on the server, nor
  // on ids being distinct.
  ghost predicate ResultsInv(s: State) {
    && (forall h :: 0 <= h < |s.handlers| ==>
          s.handlers[h].results <= 1 && |s.handlers[h].slot| <= s.handlers[h].results)
    && (forall i <- s.tab.pending ::
          var h := s.tab.pending[i];
          h < |s.handlers| && s.handlers[h].id == i && s.handlers[h].results == 0 && !s.handlers[h].phase.Allocated?)
    && (forall h :: 0 <= h < |s.handlers| && s.handlers[h].phase.Allocated? ==> s.handlers[h].results == 0)
    && (forall i <- s.tab.streams :: s.tab.streams[i] < |s.handlers|)
    && (s.cloop.Deliver? || s.cloop.WriteLocal? || s.cloop.CloseLocal? ==> s.cloop.h < |s.handlers|)
    && (s.cloop.Deliver? ==>
          && s.handlers[s.cloop.h].results == 0 && !s.handlers[s.cloop.h].phase.Allocated?
          && forall i <- s.tab.pending :: s.tab.pending[i] != s.cloop.h)
  }

  lemma HandlerResults(s: State, h: nat, hs: HandlerStep)
    requires ResultsInv(s) && Enabled(s, OfHandler(h, hs))
    ensures ResultsInv(HandlerApply(s, h, hs))
  {
    hide Only, DataOf, HandlerFrames;
  }

  lemma ReadResults(s: State)
    requires ResultsInv(s) && ClientCan(s, ClientRecv)
    ensures ResultsInv(ClientApply(s, ClientRecv))
  {
    var f := s.down[s.downGot];
    var (tab, act) := ClientDispatch(s.tab, f);
    TablesShrink(s.tab, f);
    assert ClientApply(s, ClientRecv) == s.(tab := tab, cloop := act, downGot := s.downGot + 1);
    hide ClientDispatch, ClientApply, ClientCan;
  }

  lemma TablesShrink(t: ClientTable, f: Frame)
    ensures
      var (t', act) := ClientDispatch(t, f);
      && (forall i <- t'.pending :: i in t.pending && t'.pending[i] == t.pending[i])
      && (forall i <- t'.streams :: i in t.streams && t'.streams[i] == t.streams[i])
      && (act.Deliver? ==> FrameStream(f).Some?)
      && (act.Deliver? ==> var i := FrameStream(f).value; i in t.pending && i !in t'.pending && act.h == t.pending[i])
      && (act.WriteLocal? || act.CloseLocal? ==> exists i <- t.streams :: act.h == t.streams[i])
  {
  }

  lemma ClientResults(s: State, cs: ClientStep)
    requires ResultsInv(s) && ClientCan(s, cs) && !cs.ClientRecv?
    ensures ResultsInv(ClientApply(s, cs))
  {
  }

  lemma ResultsKept(s: State, step: Step)
    requires ResultsInv(s) && Enabled(s, step)
    ensures ResultsInv(Apply(s, step))
  {
    if step.OfHandler? {
      HandlerResults(s, step.h, step.hs);
    } else if step.OfClient? {
      if step.cs.ClientRecv? { ReadResults(s); } else { ClientResults(s, step.cs); }
    } else if !step.Accept? {
      ClientSideUntouched(s, step);
    }
  }

  // Whatever the server sends, in whatever order and however often, and however
  // many dials there are: a dial's channel gets at most one result, and the read
  // loop always finds room for it.
  lemma {:induction false} EachDialHearsOnce(steps: seq<Step>)
    requires IsRun(steps)
    ensures ResultsInv(After(steps))
    ensures forall h <- After(steps).handlers :: h.results <= 1
    ensures After(steps).cloop.Deliver? ==> Enabled(After(steps), OfClient(ClientDeliver))
  {
    if steps != [] {
      EachDialHearsOnce(steps[..|steps| - 1]);
      ResultsKept(After(steps[..|steps| - 1]), steps[|steps| - 1]);
    }
  }
}
