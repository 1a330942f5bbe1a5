/** The two frame loops over whole runs: what a Disconnect ends, and that every
    Ping gets its Pong. Both are said of the queues, whatever the tables do. */
module ProxyLoops {
  import opened ProxyWire
  import opened ProxySystem
  import opened ProxyIsolation
  import opened ProxySafety
  import opened ProxyClosing

  // No Disconnect lies behind the loop, and none right at it unless it has stopped.
  ghost predicate Heeds(fs: seq<Frame>, got: nat, stopped: bool) {
    && got <= |fs|
    && (forall j :: 0 <= j < got - 1 ==> !fs[j].Disconnect?)
    && (got > 0 && fs[got - 1].Disconnect? ==> stopped)
  }

  // One Pong per Ping read, but for one that is still owed and for lost ones.
  ghost predicate Answers(read: seq<Frame>, sent: seq<Frame>, owed: bool, ok: bool) {
    var pongs := multiset(sent)[Pong] + if owed then 1 else 0;
    pongs <= multiset(read)[Ping] && (ok ==> pongs == multiset(read)[Ping])
  }

  predicate ServerStopped(l: ServerLoop) {
    l == Turn(Return) || l.Over?
  }

  ghost predicate LoopsInv(s: State) {
    && Heeds(s.up, s.upGot, ServerStopped(s.sloop))
    && Heeds(s.down, s.downGot, s.cloop.Stop?)
    && Answers(s.down[..s.downGot], s.up, s.cloop.Answer?, s.upOk)
  }

  ghost predicate ServerAnswersPings(s: State) {
    s.upGot <= |s.up| && Answers(s.up[..s.upGot], s.down, s.sloop == Turn(Reply), s.downOk)
  }

  // ---------------------------------------------------------------- queues

  lemma ReadOne(fs: seq<Frame>, got: nat)
    requires got < |fs| && Heeds(fs, got, false)
    ensures Heeds(fs, got + 1, fs[got].Disconnect?)
    ensures multiset(fs[..got + 1])[Ping] == multiset(fs[..got])[Ping] + if fs[got].Ping? then 1 else 0
  {
    assert fs[..got + 1] == fs[..got] + [fs[got]];
  }

  lemma SentSome(fs: seq<Frame>, got: nat, g: seq<Frame>, stopped: bool)
    requires Heeds(fs, got, stopped) && |g| <= 1
    ensures Heeds(fs + g, got, stopped) && (fs + g)[..got] == fs[..got]
    ensures multiset(fs + g)[Pong] == multiset(fs)[Pong] + if g == [Pong] then 1 else 0
  {
    if g != [] { assert g == [g[0]]; }
  }

  // ---------------------------------------------------------------- steps

  // Frames may be added at either end, and a connection may fail.
  lemma LoopsUntouched(s: State, s': State, up: seq<Frame>, down: seq<Frame>)
    requires LoopsInv(s) && |up| <= 1 && |down| <= 1 && Pong !in up
    requires s'.up == s.up + up && s'.upGot == s.upGot && s'.down == s.down + down && s'.downGot == s.downGot
    requires s'.cloop == s.cloop && (s'.upOk ==> s.upOk)
    requires ServerStopped(s.sloop) ==> ServerStopped(s'.sloop)
    ensures LoopsInv(s')
  {
    hide ServerStopped;
    SentSome(s.up, s.upGot, up, ServerStopped(s.sloop));
    SentSome(s.down, s.downGot, down, s.cloop.Stop?);
  }

  lemma HandlerLoops(s: State, h: nat, hs: HandlerStep)
    requires LoopsInv(s) && Enabled(s, OfHandler(h, hs))
    ensures LoopsInv(HandlerApply(s, h, hs))
  {
    hide LoopsInv, Only, DataOf, HandlerAfter, HandlerTab;
    assert s.down + [] == s.down;
    LoopsUntouched(s, HandlerApply(s, h, hs), if s.upOk then HandlerFrames(s.handlers[h], hs) else [], []);
  }

  lemma ClientReads(t: ClientTable, f: Frame)
    ensures ClientDispatch(t, f).1.Stop? <==> f.Disconnect?
    ensures ClientDispatch(t, f).1.Answer? <==> f.Ping?
  {
  }

  lemma ClientLoops(s: State, cs: ClientStep)
    requires LoopsInv(s) && ClientCan(s, cs)
    ensures LoopsInv(ClientApply(s, cs))
  {
    hide LocalAfterWrite, ServerStopped, ClientDispatch;
    if cs.ClientRecv? {
      ReadOne(s.down, s.downGot);
      ClientReads(s.tab, s.down[s.downGot]);
    } else if cs.ClientAnswer? {
      var g := if s.upOk then [Pong] else [];
      SentSome(s.up, s.upGot, g, ServerStopped(s.sloop));
      assert s.up + [] == s.up;
    }
  }

  lemma ServerLoops(s: State, ss: ServerStep)
    requires LoopsInv(s) && ServerCan(s, ss)
    ensures LoopsInv(ServerApply(s, ss))
  {
    var s' := ServerApply(s, ss);
    if ss.ServerRecv? {
      ReadOne(s.up, s.upGot);
    } else {
      assert s.up + [] == s.up && s.down + [] == s.down;
      LoopsUntouched(s, s', [], if s'.down == s.down then [] else [s'.down[|s.down|]]);
    }
  }

  lemma LoopsKept(s: State, step: Step)
    requires LoopsInv(s) && Enabled(s, step)
    ensures LoopsInv(Apply(s, step))
  {
    hide LoopsInv, HandlerApply, ClientApply, ServerApply, ReaderFrames, TargetAfter, CloseAll;
    assert s.up + [] == s.up && s.down + [] == s.down;
    match step {
      case OfHandler(h, hs) => HandlerLoops(s, h, hs);
      case OfClient(cs) => ClientLoops(s, cs);
      case OfServer(ss) => ServerLoops(s, ss);
      case OfReader(t, rs) =>
        LoopsUntouched(s, Apply(s, step), [], if s.downOk then ReaderFrames(s.targets[t], rs) else []);
      case KeepAlive => LoopsUntouched(s, Apply(s, step), if s.upOk then [Ping] else [], []);
      case SayDisconnect => LoopsUntouched(s, Apply(s, step), if s.upOk then [Disconnect] else [], []);
      case Forge(f) => LoopsUntouched(s, Apply(s, step), [], [f]);
      case _ => LoopsUntouched(s, Apply(s, step), [], []);
    }
  }

  lemma {:induction false} LoopsHold(steps: seq<Step>)
    requires IsRun(steps)
    ensures LoopsInv(After(steps))
  {
    hide Apply, Enabled, LoopsInv;
    if steps != [] {
      LoopsHold(steps[..|steps| - 1]);
      LoopsKept(After(steps[..|steps| - 1]), steps[|steps| - 1]);
    } else {
      NothingRead();
    }
  }

  lemma NothingRead()
    ensures LoopsInv(Init()) && ServerAnswersPings(Init())
  {
  }

  // ---------------------------------------------------------------- the server's Pongs

  lemma ServerReads(streams: map<Id, nat>, f: Frame)
    ensures ServerDispatch(streams, f).1 == Return <==> f.Disconnect?
    ensures ServerDispatch(streams, f).1 == Reply <==> f.Ping?
  {
  }

  lemma ServerSends(s: State, ss: ServerStep) returns (g: seq<Frame>)
    requires ServerCan(s, ss) && !ss.ServerRecv?
    ensures
      var s' := ServerApply(s, ss);
      && s'.up == s.up && s'.upGot == s.upGot && s'.down == s.down + g && s'.downOk == s.downOk && |g| <= 1
      && s'.sloop != Turn(Reply) && (s.sloop == Turn(Reply) <==> ss.ServerAnswer?)
      && (g == [Pong] <==> ss.ServerAnswer? && s.downOk)
  {
    hide TargetAfterWrite;
    g := if !s.downOk then []
         else match ss
           case SendFail => [DialFail(s.sloop.id)]
           case SendOk => [DialOk(s.targets[s.sloop.t].id)]
           case ServerAnswer => [Pong]
           case _ => [];
    assert s.down + [] == s.down;
  }

  lemma ServerPongs(s: State, ss: ServerStep)
    requires LoopsInv(s) && ServerAnswersPings(s) && ServerCan(s, ss)
    ensures ServerAnswersPings(ServerApply(s, ss))
  {
    hide ServerDispatch;
    if ss.ServerRecv? {
      ReadOne(s.up, s.upGot);
      ServerReads(s.streams, s.up[s.upGot]);
    } else {
      var g := ServerSends(s, ss);
      hide ServerApply, ServerCan;
      SentSome(s.down, s.downGot, g, s.cloop.Stop?);
    }
  }

  // The server's part when others move.
  lemma PongsUntouched(s: State, s': State, up: seq<Frame>, down: seq<Frame>)
    requires LoopsInv(s) && ServerAnswersPings(s) && |up| <= 1 && |down| <= 1 && Pong !in down
    requires s'.up == s.up + up && s'.upGot == s.upGot && s'.down == s.down + down
    requires (s'.sloop == Turn(Reply) <==> s.sloop == Turn(Reply)) && (s'.downOk ==> s.downOk)
    ensures ServerAnswersPings(s')
  {
    SentSome(s.up, s.upGot, up, ServerStopped(s.sloop));
    SentSome(s.down, s.downGot, down, s.cloop.Stop?);
  }

  lemma ClientSends(s: State, cs: ClientStep)
    requires ClientCan(s, cs)
    ensures
      var s' := ClientApply(s, cs);
      && s'.up == s.up + (if cs.ClientAnswer? && s.upOk then [Pong] else []) && s'.upGot == s.upGot
      && s'.down == s.down && s'.sloop == s.sloop && s'.downOk == s.downOk
  {
    hide ClientDispatch, LocalAfterWrite;
    assert s.up + [] == s.up;
  }

  lemma PongsKept(s: State, step: Step)
    requires LoopsInv(s) && ServerAnswersPings(s) && Enabled(s, step) && !step.Forge?
    ensures ServerAnswersPings(Apply(s, step))
  {
    hide LoopsInv, ServerAnswersPings, ClientApply, ServerApply, HandlerAfter, HandlerTab, TargetAfter, CloseAll;
    var s' := Apply(s, step);
    assert s.up + [] == s.up && s.down + [] == s.down;
    match step {
      case OfHandler(h, hs) =>
        PongsUntouched(s, s', if s.upOk then HandlerFrames(s.handlers[h], hs) else [], []);
      case OfClient(cs) =>
        ClientSends(s, cs);
        PongsUntouched(s, s', if cs.ClientAnswer? && s.upOk then [Pong] else [], []);
      case OfServer(ss) => ServerPongs(s, ss);
      case OfReader(t, rs) => PongsUntouched(s, s', [], if s.downOk then ReaderFrames(s.targets[t], rs) else []);
      case KeepAlive => PongsUntouched(s, s', if s.upOk then [Ping] else [], []);
      case SayDisconnect => PongsUntouched(s, s', if s.upOk then [Disconnect] else [], []);
      case _ => PongsUntouched(s, s', [], []);
    }
  }

  lemma {:induction false} PongsHold(steps: seq<Step>)
    requires IsRun(steps) && Honest(steps)
    ensures ServerAnswersPings(After(steps))
  {
    hide Apply, Enabled, LoopsInv, ServerAnswersPings;
    if steps != [] {
      var n := |steps| - 1;
      PongsHold(steps[..n]);
      LoopsHold(steps[..n]);
      PongsKept(After(steps[..n]), steps[n]);
    } else {
      NothingRead();
    }
  }

  // ---------------------------------------------------------------- what follows

  lemma NothingLeftButTheEnd(s: State)
    requires ServerStopped(s.sloop)
    ensures forall ss: ServerStep :: !Enabled(s, OfServer(ss))
    ensures !s.sloop.Over? ==> Enabled(s, SessionEnds)
  {
    hide HandlerCan, ClientCan, ReaderCan;
  }

  // In every run, whatever was sent: the frame loop has read nothing behind a
  // Disconnect, and if that is what it read last, no step is left to it but to
  // end the session.
  lemma ServerStopsAtDisconnect(steps: seq<Step>)
    requires IsRun(steps)
    ensures
      var s := After(steps);
      && s.upGot <= |s.up|
      && (forall j :: 0 <= j < s.upGot - 1 ==> s.up[j] != Disconnect)
      && (s.upGot > 0 && s.up[s.upGot - 1] == Disconnect ==>
            && (forall ss: ServerStep :: !Enabled(s, OfServer(ss)))
            && (!s.sloop.Over? ==> Enabled(s, SessionEnds)))
  {
    hide Enabled;
    LoopsHold(steps);
    var s := After(steps);
    if s.upGot > 0 && s.up[s.upGot - 1] == Disconnect { NothingLeftButTheEnd(s); }
  }

  // Then every target is closed.
  lemma DisconnectClosesAll(s: State)
    requires Reached(s) && 0 < s.upGot <= |s.up| && s.up[s.upGot - 1] == Disconnect
    ensures !s.sloop.Over? ==>
      Enabled(s, SessionEnds) && forall x <- Apply(s, SessionEnds).targets :: x.closed
    ensures s.sloop.Over? ==> forall x <- s.targets :: x.closed
  {
    var steps :| IsRun(steps) && Honest(steps) && After(steps) == s;
    ServerStopsAtDisconnect(steps);
    hide Apply, Enabled;
    if s.sloop.Over? {
      NoTargetIsForgotten(s);
    } else {
      AllClosedNext(s, steps);
    }
  }

  lemma AllClosedNext(s: State, steps: seq<Step>)
    requires IsRun(steps) && Honest(steps) && After(steps) == s && |s.handlers| <= MAX_DIALS && Enabled(s, SessionEnds)
    ensures forall x <- Apply(s, SessionEnds).targets :: x.closed
  {
    MindedHolds(steps);
    SessionEndCloses(s);
    hide AllMinded;
    assert Apply(s, SessionEnds).sloop.Over?;
  }

  // The client's read loop stops at a Disconnect as well.
  lemma ClientStopsAtDisconnect(steps: seq<Step>)
    requires IsRun(steps)
    ensures
      var s := After(steps);
      && s.downGot <= |s.down|
      && (forall j :: 0 <= j < s.downGot - 1 ==> s.down[j] != Disconnect)
      && (s.downGot > 0 && s.down[s.downGot - 1] == Disconnect ==>
            forall cs: ClientStep :: !Enabled(s, OfClient(cs)))
  {
    LoopsHold(steps);
  }

  // Each loop writes one Pong for every Ping it reads, and no other, until its
  // connection fails; at most one is still to be written.
  lemma PingsAreAnswered(steps: seq<Step>)
    requires IsRun(steps)
    ensures After(steps).downGot <= |After(steps).down| && After(steps).upGot <= |After(steps).up|
    ensures
      var s := After(steps);
      var pings, pongs := multiset(s.down[..s.downGot])[Ping], multiset(s.up)[Pong];
      pongs <= pings && (s.upOk ==> pongs + (if s.cloop.Answer? then 1 else 0) == pings)
    ensures Honest(steps) ==>
      var s := After(steps);
      var pings, pongs := multiset(s.up[..s.upGot])[Ping], multiset(s.down)[Pong];
      pongs <= pings && (s.downOk ==> pongs + (if s.sloop == Turn(Reply) then 1 else 0) == pings)
  {
    LoopsHold(steps);
    if Honest(steps) { PongsHold(steps); }
  }
}
