/** No target connection is forgotten: whoever takes one out of the server's table
    closes it, and the end of the session closes the rest. */
module ProxyClosing {
  import opened ProxyWire
  import opened ProxySystem
  import opened ProxyIsolation
  import opened ProxySafety

  predicate InTable(s: State, t: nat)
    requires t < |s.targets|
  {
    s.targets[t].id in s.streams && s.streams[s.targets[t].id] == t
  }

  // A target is in the table, closed, or about to be closed by the frame loop.
  ghost predicate Minded(s: State, t: nat)
    requires t < |s.targets|
  {
    InTable(s, t) || s.targets[t].closed || s.sloop == Turn(CloseTarget(t))
  }

  // A reader that has hung up has closed its target.
  predicate HungUp(r: Reader) {
    r.Deregistering? || r.SayingClose? || r.Ended?
  }

  ghost predicate AllMinded(s: State) {
    && (forall t :: 0 <= t < |s.targets| ==> Minded(s, t))
    && (forall t :: 0 <= t < |s.targets| && HungUp(s.targets[t].reader) ==> s.targets[t].closed)
    && (s.sloop.Over? ==> forall t :: 0 <= t < |s.targets| ==> s.targets[t].closed)
  }

  lemma ReaderMinds(s: State, t: nat, rs: ReaderStep)
    requires AllMinded(s) && Enabled(s, OfReader(t, rs))
    requires ServerOrder(|s.handlers|, s.streams, s.targets, s.sloop)
    ensures AllMinded(ReaderApply(s, t, rs))
  {
    hide DialOf, LoopIn;
    var s' := ReaderApply(s, t, rs);
    hide ReaderFrames;
    forall u | 0 <= u < |s'.targets| ensures Minded(s', u) {
      assert Minded(s, u);
      if u != t { assert s.targets[u].id != s.targets[t].id; }
    }
  }

  lemma ServerReadMinds(s: State)
    requires AllMinded(s) && ServerCan(s, ServerRecv)
    requires ServerOrder(|s.handlers|, s.streams, s.targets, s.sloop)
    ensures AllMinded(ServerApply(s, ServerRecv))
  {
    hide DialOf, LoopIn;
    var s' := ServerApply(s, ServerRecv);
    forall u | 0 <= u < |s'.targets| ensures Minded(s', u) {
      assert Minded(s, u);
    }
  }

  lemma ServerMinds(s: State, ss: ServerStep)
    requires AllMinded(s) && ServerCan(s, ss) && !ss.ServerRecv?
    requires ss.RegisterTarget? ==> s.sloop.id !in s.streams
    ensures AllMinded(ServerApply(s, ss))
  {
    var s' := ServerApply(s, ss);
    forall u | 0 <= u < |s'.targets| ensures Minded(s', u) {
      if u < |s.targets| { assert Minded(s, u); }
    }
  }

  lemma SessionEndCloses(s: State)
    requires AllMinded(s) && Enabled(s, SessionEnds)
    ensures AllMinded(Apply(s, SessionEnds))
  {
    hide HandlerApply, ClientApply, ServerApply, ReaderApply;
    var s' := Apply(s, SessionEnds);
    forall u | 0 <= u < |s'.targets| ensures s'.targets[u].closed {
      assert Minded(s, u);
    }
  }

  lemma HandlerLeavesServer(s: State, h: nat, hs: HandlerStep)
    requires Enabled(s, OfHandler(h, hs))
    ensures
      var s' := HandlerApply(s, h, hs);
      s'.targets == s.targets && s'.streams == s.streams && s'.sloop == s.sloop
  {
    hide HandlerTab, HandlerAfter, HandlerFrames, Only, DataOf;
  }

  lemma ClientLeavesServer(s: State, cs: ClientStep)
    requires ClientCan(s, cs)
    ensures
      var s' := ClientApply(s, cs);
      s'.targets == s.targets && s'.streams == s.streams && s'.sloop == s.sloop
  {
    hide ClientDispatch, LocalAfterWrite;
  }

  // The rest of the system leaves the server's side alone.
  lemma ServerSideUntouched(s: State, step: Step)
    requires Enabled(s, step) && !step.OfServer? && !step.OfReader? && !step.SessionEnds?
    ensures
      var s' := Apply(s, step);
      s'.targets == s.targets && s'.streams == s.streams && s'.sloop == s.sloop
  {
    hide HandlerApply, ClientApply, ServerApply, ReaderApply;
    if step.OfHandler? { HandlerLeavesServer(s, step.h, step.hs); }
    if step.OfClient? { ClientLeavesServer(s, step.cs); }
  }

  // The id of a dial about to be registered is not in the table.
  lemma NewIdIsNew(s: State)
    requires Inv(s) && s.sloop.Connected?
    ensures s.sloop.id !in s.streams
  {
    hide ProxyStream.StreamInv, ClientOrder, QueueOrder;
    DialIsNew(s);
    TargetOfNone(s.targets, s.sloop.id);
  }

  lemma MindedKept(s: State, step: Step)
    requires Inv(s) && AllMinded(s) && Enabled(s, step)
    ensures AllMinded(Apply(s, step))
  {
    hide AllMinded, ServerOrder, ClientOrder, QueueOrder, ProxyStream.StreamInv, Stream,
      HandlerApply, ClientApply, ServerApply, ReaderApply;
    if step.OfServer? {
      if step.ss.ServerRecv? {
        ServerReadMinds(s);
      } else {
        if step.ss.RegisterTarget? { NewIdIsNew(s); }
        ServerMinds(s, step.ss);
      }
    } else if step.OfReader? {
      ReaderMinds(s, step.t, step.rs);
    } else if step.SessionEnds? {
      SessionEndCloses(s);
    } else {
      ServerSideUntouched(s, step);
      SameServerSide(s, Apply(s, step));
    }
  }

  lemma SameServerSide(s: State, s': State)
    requires AllMinded(s) && s'.targets == s.targets && s'.streams == s.streams && s'.sloop == s.sloop
    ensures AllMinded(s')
  {
    forall t | 0 <= t < |s'.targets| ensures Minded(s', t) {
      assert Minded(s, t);
    }
  }

  lemma {:induction false} MindedHolds(steps: seq<Step>)
    requires IsRun(steps) && Honest(steps) && |After(steps).handlers| <= MAX_DIALS
    ensures AllMinded(After(steps))
  {
    hide Apply, Enabled, Inv, AllMinded;
    if steps != [] {
      var n := |steps| - 1;
      DialsOnlyGrow(steps, n);
      MindedHolds(steps[..n]);
      InvHolds(steps[..n]);
      MindedKept(After(steps[..n]), steps[n]);
    } else {
      NothingToMind();
    }
  }

  lemma NothingToMind()
    ensures AllMinded(Init())
  {
  }

  // In every state a target that has left the table is closed, or the frame loop
  // is about to close it; and once the session is over every target is closed.
  lemma NoTargetIsForgotten(s: State)
    requires Reached(s)
    ensures forall t :: 0 <= t < |s.targets| && !InTable(s, t) ==>
      s.targets[t].closed || s.sloop == Turn(CloseTarget(t))
    ensures s.sloop.Over? ==> forall x <- s.targets :: x.closed
  {
    var steps :| IsRun(steps) && Honest(steps) && After(steps) == s;
    MindedHolds(steps);
    forall t | 0 <= t < |s.targets| && !InTable(s, t)
      ensures s.targets[t].closed || s.sloop == Turn(CloseTarget(t))
    {
      assert Minded(s, t);
    }
  }
}
