/** The multiplexer is a bundle of separate streams: every step of the whole
    system is a step of at most one stream and leaves all the others as they
    were, so each keeps its own invariant over every run. */
module ProxyIsolation {
  import opened Bytes
  import opened ProxyWire
  import opened ProxySystem
  import opened ProxyStream

  // As many dials as there are 32-bit ids; one more would reuse an id.
  const MAX_DIALS := 0x1_0000_0000

  // The id of the k-th dial, counting from 0, and the dial an id belongs to.
  function IdOf(k: nat): Id {
    (k + 1) % MAX_DIALS
  }

  function DialOf(i: Id): nat {
    if i == 0 then MAX_DIALS - 1 else i - 1
  }

  // Ids are not confused up to the limit, and exactly up to the limit.
  lemma IdsAreDistinct(k: nat)
    ensures DialOf(IdOf(k)) == k <==> k < MAX_DIALS
    ensures IdOf(k + MAX_DIALS) == IdOf(k)
  {
  }

  function TargetOf(ts: seq<Target>, i: Id): Option<Target> {
    if ts == [] then None
    else if ts[|ts| - 1].id == i then Some(ts[|ts| - 1])
    else TargetOf(ts[..|ts| - 1], i)
  }

  predicate ClientActsOn(act: ClientAct, k: nat) {
    (act.Deliver? || act.WriteLocal? || act.CloseLocal?) && act.h == k
  }

  // The stream the server loop is busy with.
  function LoopStream(s: State): Option<Id> {
    LoopIn(s.sloop, s.targets)
  }

  function LoopIn(sloop: ServerLoop, targets: seq<Target>): Option<Id> {
    match sloop
    case Turn(DialTarget(id)) => Some(id)
    case Turn(WriteTarget(t, _)) => IdAt(targets, t)
    case Turn(CloseTarget(t)) => IdAt(targets, t)
    case Refused(id) => Some(id)
    case Connected(id) => Some(id)
    case Registered(t) => IdAt(targets, t)
    case Answered(t) => IdAt(targets, t)
    case _ => None
  }

  function IdAt(ts: seq<Target>, t: nat): Option<Id> {
    if t < |ts| then Some(ts[t].id) else None
  }

  // Stream k of the system.
  function Stream(s: State, k: nat): View
    requires k < |s.handlers| && s.upGot <= |s.up| && s.downGot <= |s.down|
  {
    var i := s.handlers[k].id;
    View(s.handlers[k], i in s.tab.streams, if ClientActsOn(s.cloop, k) then s.cloop else Nothing,
         Only(s.up, i), Only(s.up[..s.upGot], i), Only(s.down, i), Only(s.down[..s.downGot], i),
         TargetOf(s.targets, i), i in s.streams, if LoopStream(s) == Some(i) then s.sloop else Turn(Skip),
         s.upOk, s.downOk, s.cancelled)
  }

  predicate Known(s: State, i: Id) {
    DialOf(i) < |s.handlers|
  }

  predicate FrameKnown(s: State, f: Frame) {
    FrameKnownIn(|s.handlers|, f)
  }

  predicate FrameKnownIn(dials: nat, f: Frame) {
    f.Dial? || f.DialOk? || f.DialFail? || f.Data? || f.Close? ==> DialOf(f.id) < dials
  }

  // The client's tables and its read loop refer to dials that were made, and
  // under their own ids.
  ghost predicate ClientOrder(tab: ClientTable, handlers: seq<Handler>, cloop: ClientAct) {
    && |handlers| <= MAX_DIALS
    && tab.nextID == |handlers| % MAX_DIALS
    && (forall k :: 0 <= k < |handlers| ==> handlers[k].id == IdOf(k))
    && (forall i <- tab.pending :: tab.pending[i] == DialOf(i) < |handlers|)
    && (forall i <- tab.streams :: tab.streams[i] == DialOf(i) < |handlers|)
    && (cloop.Deliver? || cloop.WriteLocal? || cloop.CloseLocal? ==> cloop.h < |handlers|)
  }

  // So do the server's table, its targets and its loop.
  ghost predicate ServerOrder(dials: nat, streams: map<Id, nat>, targets: seq<Target>, sloop: ServerLoop) {
    && (forall i <- streams :: streams[i] < |targets| && targets[streams[i]].id == i)
    && (forall t :: 0 <= t < |targets| ==> DialOf(targets[t].id) < dials)
    && (forall t, u :: 0 <= t < u < |targets| ==> targets[t].id != targets[u].id)
    && (sloop.Turn? && (sloop.act.WriteTarget? || sloop.act.CloseTarget?) ==> sloop.act.t < |targets|)
    && (sloop.Registered? || sloop.Answered? ==> sloop.t < |targets|)
    && (LoopIn(sloop, targets).Some? ==> DialOf(LoopIn(sloop, targets).value) < dials)
  }

  // And so do the frames.
  ghost predicate QueueOrder(dials: nat, fs: seq<Frame>, got: nat) {
    got <= |fs| && forall j :: 0 <= j < |fs| ==> FrameKnownIn(dials, fs[j])
  }

  ghost predicate Bookkeeping(s: State) {
    && ClientOrder(s.tab, s.handlers, s.cloop)
    && ServerOrder(|s.handlers|, s.streams, s.targets, s.sloop)
    && QueueOrder(|s.handlers|, s.up, s.upGot)
    && QueueOrder(|s.handlers|, s.down, s.downGot)
  }

  ghost predicate Inv(s: State) {
    Bookkeeping(s) && forall k :: 0 <= k < |s.handlers| ==> StreamInv(Stream(s, k))
  }

  // ---------------------------------------------------------------- targets by id

  lemma {:induction false} TargetOfNone(ts: seq<Target>, i: Id)
    ensures TargetOf(ts, i).None? <==> forall t :: 0 <= t < |ts| ==> ts[t].id != i
  {
    if ts != [] {
      TargetOfNone(ts[..|ts| - 1], i);
      assert forall t :: 0 <= t < |ts| - 1 ==> ts[..|ts| - 1][t] == ts[t];
    }
  }

  ghost predicate DistinctIds(ts: seq<Target>) {
    forall t, u :: 0 <= t < u < |ts| ==> ts[t].id != ts[u].id
  }

  lemma {:induction false} TargetOfAt(ts: seq<Target>, t: nat)
    requires DistinctIds(ts) && t < |ts|
    ensures TargetOf(ts, ts[t].id) == Some(ts[t])
  {
    if t < |ts| - 1 {
      TargetOfAt(ts[..|ts| - 1], t);
    }
  }

  lemma {:induction false} TargetOfUpdate(ts: seq<Target>, t: nat, x: Target, i: Id)
    requires t < |ts| && x.id == ts[t].id && i != x.id
    ensures TargetOf(ts[t := x], i) == TargetOf(ts, i)
  {
    if t < |ts| - 1 {
      TargetOfUpdate(ts[..|ts| - 1], t, x, i);
      assert ts[t := x][..|ts| - 1] == ts[..|ts| - 1][t := x];
    } else {
      assert ts[t := x][..|ts| - 1] == ts[..|ts| - 1];
    }
  }

  lemma TargetOfAppend(ts: seq<Target>, x: Target, i: Id)
    ensures TargetOf(ts + [x], i) == if x.id == i then Some(x) else TargetOf(ts, i)
  {
    assert (ts + [x])[..|ts|] == ts;
  }

  // ---------------------------------------------------------------- isolation

  // The stream a step works on, if it works on one.
  function StreamOf(s: State, step: Step): Option<Id>
    requires Enabled(s, step)
  {
    match step
    case OfHandler(h, _) => Some(s.handlers[h].id)
    case OfClient(ClientRecv) => FrameStream(s.down[s.downGot])
    case OfClient(_) => if s.cloop.Answer? then None else Some(s.handlers[s.cloop.h].id)
    case OfServer(ServerRecv) => FrameStream(s.up[s.upGot])
    case OfServer(_) => LoopStream(s)
    case OfReader(t, _) => Some(s.targets[t].id)
    case _ => None
  }

  function FrameStream(f: Frame): Option<Id> {
    if f.Dial? || f.DialOk? || f.DialFail? || f.Data? || f.Close? then Some(f.id) else None
  }

  // Steps that touch the connection all streams share.
  predicate ConnectionStep(step: Step) {
    step.UpBreaks? || step.DownBreaks? || step.Cancel? || step.Forge? || step.SessionEnds?
  }

  // A frame is appended, or the write fails: the stream it carries gains it.
  lemma Sent(fs: seq<Frame>, g: seq<Frame>, n: nat, i: Id)
    requires n <= |fs| && |g| <= 1
    ensures (fs + g)[..n] == fs[..n]
    ensures Only(fs + g, i) == if g != [] && g[0].Carries(i) then Only(fs, i) + g else Only(fs, i)
  {
    if g != [] {
      assert g == [g[0]];
      OnlyAppend(fs, g[0], i);
    } else {
      assert fs + g == fs;
    }
  }

  lemma Received(fs: seq<Frame>, n: nat, i: Id)
    requires n < |fs|
    ensures Only(fs[..n + 1], i) == Only(fs[..n], i) + (if fs[n].Carries(i) then [fs[n]] else [])
    ensures fs[n].Carries(i) ==> |Only(fs[..n], i)| < |Only(fs, i)| && Only(fs, i)[|Only(fs[..n], i)|] == fs[n]
  {
    assert fs[..n + 1] == fs[..n] + [fs[n]];
    OnlyAppend(fs[..n], fs[n], i);
    OnlyPrefix(fs, n + 1, i);
  }

  lemma LoopUnmoved(s: State, s': State)
    requires s'.sloop == s.sloop && |s'.targets| == |s.targets|
    requires forall t :: 0 <= t < |s.targets| ==> s'.targets[t].id == s.targets[t].id
    ensures LoopStream(s') == LoopStream(s)
  {
  }

  // What a client-side step does to stream k, field by field.
  lemma ClientSideStreams(s: State, s': State, g: seq<Frame>, k: nat)
    requires k < |s.handlers| && s.upGot <= |s.up| && s.downGot <= |s.down| && |g| <= 1
    requires s' == s.(tab := s'.tab, handlers := s'.handlers, cloop := s'.cloop, up := s.up + g)
    requires k < |s'.handlers| && s'.handlers[k].id == s.handlers[k].id
    ensures s'.upGot <= |s'.up|
    ensures
      var v, i := Stream(s, k), s.handlers[k].id;
      Stream(s', k) ==
        v.(h := s'.handlers[k], reg := i in s'.tab.streams,
           cl := if ClientActsOn(s'.cloop, k) then s'.cloop else Nothing,
           up := if g != [] && g[0].Carries(i) then v.up + g else v.up)
  {
    hide Only, DataOf, TargetOf, LoopStream;
    Sent(s.up, g, s.upGot, s.handlers[k].id);
    LoopUnmoved(s, s');
  }

  // A handler's step as its own stream sees it, and as the others do.
  lemma HandlerStreams(s: State, h: nat, hs: HandlerStep, k: nat)
    requires k < |s.handlers| && h < |s.handlers| && s.upGot <= |s.up| && s.downGot <= |s.down|
    requires HandlerCan(s.upOk, s.cancelled, s.handlers[h], hs)
    requires k != h ==> s.handlers[k].id != s.handlers[h].id
    ensures Stream(HandlerApply(s, h, hs), k) == if k == h then HandlerView(Stream(s, h), hs) else Stream(s, k)
  {
    hide Only, DataOf, TargetOf, LoopStream, HandlerAfter, HandlerTab, HandlerFrames, Stream;
    var x, i, s' := s.handlers[h], s.handlers[k].id, HandlerApply(s, h, hs);
    var g := if s.upOk then HandlerFrames(x, hs) else [];
    ClientSideStreams(s, s', g, k);
    StreamParts(s, k);
    hide HandlerCan, ClientActsOn;
    assert g != [] ==> g[0] in g;
    assert Only(s.up, i) + [] == Only(s.up, i);
  }

  // What of a stream the client's side can change.
  lemma StreamParts(s: State, k: nat)
    requires k < |s.handlers| && s.upGot <= |s.up| && s.downGot <= |s.down|
    ensures
      var v, i := Stream(s, k), s.handlers[k].id;
      && v.h == s.handlers[k] && v.reg == (i in s.tab.streams) && v.up == Only(s.up, i)
      && v.cl == (if ClientActsOn(s.cloop, k) then s.cloop else Nothing)
      && v.dgot == Only(s.down[..s.downGot], i)
      && v.upOk == s.upOk && v.cancelled == s.cancelled
  {
    hide Only, LoopStream, TargetOf;
  }

  // What a server-side step does to stream k, field by field.
  lemma ServerSideStreams(s: State, s': State, g: seq<Frame>, k: nat)
    requires k < |s.handlers| && s.upGot <= |s.up| && s.downGot <= |s.down| && |g| <= 1
    requires s' == s.(targets := s'.targets, streams := s'.streams, sloop := s'.sloop, down := s.down + g)
    ensures s'.downGot <= |s'.down|
    ensures
      var v, i := Stream(s, k), s.handlers[k].id;
      Stream(s', k) ==
        v.(t := TargetOf(s'.targets, i), sreg := i in s'.streams,
           sl := if LoopStream(s') == Some(i) then s'.sloop else Turn(Skip),
           down := if g != [] && g[0].Carries(i) then v.down + g else v.down)
  {
    hide Only, DataOf, TargetOf, LoopStream;
    Sent(s.down, g, s.downGot, s.handlers[k].id);
  }

  lemma ReaderStreams(s: State, t: nat, rs: ReaderStep, k: nat)
    requires k < |s.handlers| && s.upGot <= |s.up| && s.downGot <= |s.down|
    requires t < |s.targets| && ReaderCan(s.targets[t], rs)
    requires DistinctIds(s.targets)
    ensures
      var v := Stream(s, k);
      if s.handlers[k].id == s.targets[t].id
      then v.t == Some(s.targets[t]) && Stream(ReaderApply(s, t, rs), k) == ReaderView(v, rs)
      else Stream(ReaderApply(s, t, rs), k) == v
  {
    hide Only, DataOf, TargetOf, LoopStream, TargetAfter, ReaderFrames;
    var x, i := s.targets[t], s.handlers[k].id;
    var g := if s.downOk then ReaderFrames(x, rs) else [];
    var s' := ReaderApply(s, t, rs);
    ServerSideStreams(s, s', g, k);
    LoopUnmoved(s, s');
    assert g != [] ==> g[0] in g;
    assert Only(s.down, i) + [] == Only(s.down, i);
    if i == x.id {
      TargetOfAt(s.targets, t);
      TargetOfAt(s'.targets, t);
    } else {
      TargetOfUpdate(s.targets, t, TargetAfter(x, rs), i);
    }
  }

  lemma LoopSends(s: State, cs: ClientStep)
    requires ClientCan(s, cs) && !cs.ClientRecv?
    ensures
      var s' := ClientApply(s, cs);
      s' == s.(handlers := s'.handlers, cloop := Nothing,
               up := s.up + if cs.ClientAnswer? && s.upOk then [Pong] else [])
  {
    hide LocalAfterWrite;
    assert s.up + [] == s.up;
  }

  lemma LoopHandlers(s: State, cs: ClientStep, k: nat)
    requires k < |s.handlers| && ClientCan(s, cs) && !cs.ClientRecv?
    ensures
      var h, h' := s.handlers[k], ClientApply(s, cs).handlers[k];
      if !ClientActsOn(s.cloop, k) then h' == h else
      match cs
      case ClientDeliver => s.cloop.Deliver? && h' == h.(slot := h.slot + [s.cloop.ok], results := h.results + 1)
      case ClientWrite(n) =>
        s.cloop.WriteLocal? && n <= |s.cloop.data| && h' == LocalAfterWrite(h, s.cloop.data, n)
      case ClientHangUp => h' == h.Shut()
      case _ => false
  {
    hide LocalAfterWrite;
  }

  // The same for the client's read loop, past the read itself.
  lemma ClientLoopStreams(s: State, cs: ClientStep, k: nat)
    requires k < |s.handlers| && s.upGot <= |s.up| && s.downGot <= |s.down|
    requires ClientCan(s, cs) && !cs.ClientRecv?
    ensures
      Stream(ClientApply(s, cs), k) ==
        if ClientActsOn(s.cloop, k) then ClientView(Stream(s, k), cs) else Stream(s, k)
  {
    hide Only, DataOf, TargetOf, LoopStream, Stream;
    var s' := ClientApply(s, cs);
    LoopSends(s, cs);
    ClientSideStreams(s, s', if cs.ClientAnswer? && s.upOk then [Pong] else [], k);
    StreamParts(s, k);
    LoopHandlers(s, cs, k);
    hide ClientApply, ClientCan;
  }

  // A frame the client reads belongs to at most one stream.
  lemma ClientRecvStreams(s: State, k: nat)
    requires Bookkeeping(s) && k < |s.handlers| && ClientCan(s, ClientRecv)
    ensures
      var v, f, act := Stream(s, k), s.down[s.downGot], ClientDispatch(s.tab, s.down[s.downGot]).1;
      if f.Carries(s.handlers[k].id)
      then ClientMay(v, act) && Stream(ClientApply(s, ClientRecv), k) == ClientRecvView(v, act)
      else Stream(ClientApply(s, ClientRecv), k) == v
  {
    hide Only, DataOf, TargetOf, LoopStream;
    var i, s' := s.handlers[k].id, ClientApply(s, ClientRecv);
    Received(s.down, s.downGot, i);
    LoopUnmoved(s, s');
    IdsAreDistinct(k);
    assert FrameKnown(s, s.down[s.downGot]);
  }

  lemma ServerRecvOther(s: State, k: nat)
    requires Bookkeeping(s) && k < |s.handlers| && ServerCan(s, ServerRecv)
    requires !s.up[s.upGot].Carries(s.handlers[k].id)
    ensures Stream(ServerApply(s, ServerRecv), k) == Stream(s, k)
  {
    hide Only, DataOf, TargetOf;
    Received(s.up, s.upGot, s.handlers[k].id);
    assert LoopStream(ServerApply(s, ServerRecv)) != Some(s.handlers[k].id);
  }

  lemma ServerRecvStreams(s: State, k: nat)
    requires Bookkeeping(s) && k < |s.handlers| && ServerCan(s, ServerRecv)
    ensures
      var v, f, act := Stream(s, k), s.up[s.upGot], ServerDispatch(s.streams, s.up[s.upGot]).1;
      if f.Carries(s.handlers[k].id)
      then ServerMay(v, act) && Stream(ServerApply(s, ServerRecv), k) == ServerRecvView(v, act)
      else Stream(ServerApply(s, ServerRecv), k) == v
  {
    hide Only, DataOf, TargetOf, ClientOrder, IdOf, DialOf;
    if !s.up[s.upGot].Carries(s.handlers[k].id) {
      ServerRecvOther(s, k);
    } else {
      Received(s.up, s.upGot, s.handlers[k].id);
    }
  }

  // The server loop between two reads works for one stream. First the steps
  // that leave the targets already there as they are.
  lemma ServerDialStreams(s: State, ss: ServerStep, k: nat)
    requires Bookkeeping(s) && k < |s.handlers| && ServerCan(s, ss)
    requires ss.Dialed? || ss.SendFail? || ss.RegisterTarget? || ss.ServerAnswer?
    ensures
      var v := Stream(s, k);
      if LoopStream(s) == Some(s.handlers[k].id)
      then ViewCan(v, ss) && Stream(ServerApply(s, ss), k) == ServerView(v, ss, |s.targets|)
      else Stream(ServerApply(s, ss), k) == v
  {
    hide Only, DataOf, TargetOf;
    var i, s' := s.handlers[k].id, ServerApply(s, ss);
    var g :=
      if ss.SendFail? && s.downOk then [DialFail(s.sloop.id)]
      else if ss.ServerAnswer? && s.downOk then [Pong]
      else [];
    ServerSideStreams(s, s', g, k);
    assert Only(s.down, i) + [] == Only(s.down, i);
    if ss.RegisterTarget? {
      TargetOfAppend(s.targets, s'.targets[|s.targets|], i);
    }
  }

  // Then those that work on one target.
  lemma ServerTargetStreams(s: State, ss: ServerStep, k: nat)
    requires DistinctIds(s.targets) && s.upGot <= |s.up| && s.downGot <= |s.down|
    requires k < |s.handlers| && ServerCan(s, ss)
    requires ss.SendOk? || ss.Spawn? || ss.ServerWrite? || ss.ServerHangUp?
    ensures
      var v := Stream(s, k);
      if LoopStream(s) == Some(s.handlers[k].id)
      then ViewCan(v, ss) && Stream(ServerApply(s, ss), k) == ServerView(v, ss, |s.targets|)
      else Stream(ServerApply(s, ss), k) == v
  {
    hide Only, DataOf, TargetOf;
    var i, s' := s.handlers[k].id, ServerApply(s, ss);
    var t := if s.sloop.Turn? then s.sloop.act.t else s.sloop.t;
    assert LoopStream(s) == Some(s.targets[t].id);
    var g := if ss.SendOk? && s.downOk then [DialOk(s.targets[t].id)] else [];
    ServerSideStreams(s, s', g, k);
    assert Only(s.down, i) + [] == Only(s.down, i);
    assert s'.targets == s.targets[t := s'.targets[t]];
    if s.targets[t].id != i {
      TargetOfUpdate(s.targets, t, s'.targets[t], i);
    } else {
      TargetOfAt(s.targets, t);
      TargetOfAt(s'.targets, t);
    }
  }

  // Accepting a connection, or a keepalive, shows in no existing stream.
  lemma OtherStreams(s: State, step: Step, k: nat)
    requires k < |s.handlers| && s.upGot <= |s.up| && s.downGot <= |s.down|
    requires step.Accept? || step.KeepAlive? || step.SayDisconnect?
    ensures Stream(Apply(s, step), k) == Stream(s, k)
  {
    hide Only, DataOf, TargetOf;
    var g := if step.Accept? || !s.upOk then [] else if step.KeepAlive? then [Ping] else [Disconnect];
    ClientSideStreams(s, Apply(s, step), g, k);
  }

  lemma ClosedById(ts: seq<Target>, streams: map<Id, nat>, i: Id)
    requires DistinctIds(ts) && forall j <- streams :: streams[j] < |ts| && ts[streams[j]].id == j
    ensures i in streams ==> TargetOf(ts, i).Some?
    ensures TargetOf(CloseAll(ts, streams), i) ==
      if i in streams then Some(TargetOf(ts, i).value.Shut()) else TargetOf(ts, i)
  {
    hide TargetOf, CloseAll;
    var ts' := CloseAll(ts, streams);
    TargetOfNone(ts, i);
    TargetOfNone(ts', i);
    if t :| 0 <= t < |ts| && ts[t].id == i {
      assert ts'[t].id == i;
      TargetOfAt(ts, t);
      TargetOfAt(ts', t);
    }
  }

  // The end of the session as every stream sees it.
  lemma SessionStreams(s: State, k: nat)
    requires Bookkeeping(s) && k < |s.handlers| && Enabled(s, SessionEnds)
    ensures
      var v := Stream(s, k);
      if v.sreg then v.t.Some? && Stream(Apply(s, SessionEnds), k) == v.(t := Some(v.t.value.Shut()))
      else Stream(Apply(s, SessionEnds), k) == v
  {
    hide Only, DataOf, TargetOf, CloseAll, ClientOrder, DialOf, HandlerApply, ClientApply, ServerApply, ReaderApply;
    ClosedById(s.targets, s.streams, s.handlers[k].id);
    assert Apply(s, SessionEnds) == s.(sloop := Over, targets := CloseAll(s.targets, s.streams));
    hide Apply, Enabled;
  }

  lemma ServerStreams(s: State, ss: ServerStep, k: nat)
    requires Bookkeeping(s) && k < |s.handlers| && ServerCan(s, ss) && !ss.ServerRecv?
    requires ss.RegisterTarget? ==> TargetOf(s.targets, s.sloop.id).None?
    ensures
      var v := Stream(s, k);
      if LoopStream(s) == Some(s.handlers[k].id)
      then ViewCan(v, ss) && Stream(ServerApply(s, ss), k) == ServerView(v, ss, |s.targets|)
      else Stream(ServerApply(s, ss), k) == v
  {
    hide Stream, ServerApply, ServerView, ViewCan, LoopStream;
    if ss.Dialed? || ss.SendFail? || ss.RegisterTarget? || ss.ServerAnswer? {
      ServerDialStreams(s, ss, k);
    } else {
      ServerTargetStreams(s, ss, k);
    }
  }

  lemma QueuesGrow(s: State, step: Step)
    requires s.upGot <= |s.up| && s.downGot <= |s.down| && Enabled(s, step)
    ensures
      var s' := Apply(s, step);
      && s'.upGot <= |s'.up| && s'.downGot <= |s'.down|
      && QueueStep(s.up, s.upGot, s'.up, s'.upGot) && QueueStep(s.down, s.downGot, s'.down, s'.downGot)
      && |s.handlers| <= |s'.handlers| <= |s.handlers| + 1
      && (step.Accept? <==> |s'.handlers| != |s.handlers|)
  {
    hide HandlerApply, ClientApply, ServerApply, ReaderApply;
  }

  // No step of one stream can be seen from another: ids are never confused.
  lemma StreamsAreIsolated(s: State, step: Step, k: nat)
    requires Bookkeeping(s) && Enabled(s, step) && !ConnectionStep(step)
    requires k < |s.handlers| && StreamOf(s, step) != Some(s.handlers[k].id)
    requires step == OfServer(RegisterTarget) ==> TargetOf(s.targets, s.sloop.id).None?
    ensures
      var s' := Apply(s, step);
      k < |s'.handlers| && s'.upGot <= |s'.up| && s'.downGot <= |s'.down| && Stream(s', k) == Stream(s, k)
  {
    QueuesGrow(s, step);
    hide Stream, ServerApply, ClientApply, HandlerApply, ReaderApply;
    match step {
      case OfHandler(h, hs) => HandlerStreams(s, h, hs, k);
      case OfClient(cs) => if cs.ClientRecv? { ClientRecvStreams(s, k); } else { ClientLoopStreams(s, cs, k); }
      case OfServer(ss) => if ss.ServerRecv? { ServerRecvStreams(s, k); } else { ServerStreams(s, ss, k); }
      case OfReader(t, rs) => ReaderStreams(s, t, rs, k);
      case _ => OtherStreams(s, step, k);
    }
  }
}
