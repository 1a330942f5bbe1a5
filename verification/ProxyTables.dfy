/** The classes that hold the lookup tables go through a run step by step: at
    every point they hold what the transition system says. */
module ProxyTables {
  import opened ProxyWire
  import opened ProxySystem

  // One handler's part in the client's tables.
  method TakeHandlerStep(mux: ProxyMux, h: nat, id: Id, step: HandlerStep)
    modifies mux
    ensures mux.Table() == HandlerTab(old(mux.Table()), h, id, step)
  {
    match step {
      case AddPending => mux.AddPending(id, h);
      case DialUnsent => mux.DropPending(id);
      case TimeOut => mux.DropPending(id);
      case Register => mux.AddStream(id, h);
      case Unregister => mux.DropStream(id);
      case _ =>
    }
  }

  // The parts of the read loop, the frame loop and a target's reader.
  method TakeClientStep(mux: ProxyMux, s: State, step: ClientStep)
    requires ClientCan(s, step) && mux.Table() == s.tab
    modifies mux
    ensures mux.Table() == ClientApply(s, step).tab && ClientApply(s, step).streams == s.streams
  {
    hide ClientDispatch;
    if step.ClientRecv? { var act := mux.Dispatch(s.down[s.downGot]); }
  }

  method TakeServerStep(session: ProxySession, s: State, step: ServerStep)
    requires ServerCan(s, step) && session.streams == s.streams
    modifies session
    ensures session.streams == ServerApply(s, step).streams && ServerApply(s, step).tab == s.tab
  {
    hide ServerDispatch;
    if step.ServerRecv? {
      var act := session.Dispatch(s.up[s.upGot]);
    } else if step.RegisterTarget? {
      session.AddStream(s.sloop.id, |s.targets|);
    }
  }

  method TakeReaderStep(session: ProxySession, s: State, t: nat, step: ReaderStep)
    requires t < |s.targets| && ReaderCan(s.targets[t], step) && session.streams == s.streams
    modifies session
    ensures session.streams == ReaderApply(s, t, step).streams && ReaderApply(s, t, step).tab == s.tab
  {
    if step.DropTarget? { session.DropStream(s.targets[t].id); }
  }

  method TakeStep(mux: ProxyMux, session: ProxySession, s: State, step: Step)
    requires Enabled(s, step) && mux.Table() == s.tab && session.streams == s.streams
    modifies mux, session
    ensures mux.Table() == Apply(s, step).tab && session.streams == Apply(s, step).streams
  {
    hide Only, DataOf, HandlerTab, HandlerAfter, HandlerFrames, ClientApply, ServerApply, ReaderApply;
    match step {
      case Accept => var id := mux.NewId();
      case OfHandler(h, hs) => TakeHandlerStep(mux, h, s.handlers[h].id, hs);
      case OfClient(cs) => TakeClientStep(mux, s, cs);
      case OfServer(ss) => TakeServerStep(session, s, ss);
      case OfReader(t, rs) => TakeReaderStep(session, s, t, rs);
      case _ =>
    }
  }

  // So what is proved of the states of a run is true of the two objects.
  method Replay(steps: seq<Step>) returns (mux: ProxyMux, session: ProxySession)
    requires IsRun(steps)
    ensures fresh(mux) && fresh(session)
    ensures mux.Table() == After(steps).tab && session.streams == After(steps).streams
  {
    mux := new ProxyMux();
    session := new ProxySession();
    PrefixesRun(steps, 0);
    var state := Init();
    for i := 0 to |steps|
      invariant fresh(mux) && fresh(session)
      invariant IsRun(steps[..i]) && state == After(steps[..i])
      invariant mux.Table() == state.tab && session.streams == state.streams
    {
      PrefixesRun(steps, i + 1);
      assert steps[..i + 1][..i] == steps[..i];
      TakeStep(mux, session, state, steps[i]);
      state := Apply(state, steps[i]);
    }
    assert steps[..|steps|] == steps;
  }

  lemma {:induction false} PrefixesRun(steps: seq<Step>, n: nat)
    requires IsRun(steps) && n <= |steps|
    ensures IsRun(steps[..n])
  {
    hide Apply, Enabled;
    if n < |steps| {
      assert steps[..|steps| - 1][..n] == steps[..n];
      PrefixesRun(steps[..|steps| - 1], n);
    } else {
      assert steps[..n] == steps;
    }
  }
}
