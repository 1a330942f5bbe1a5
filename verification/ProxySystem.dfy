/** Proxy mode as a transition system: the goroutines of one client and of the
    server session it talks to, sharing two FIFO frame queues. Every critical
    section, every frame write and every socket operation is one step, and any
    enabled step may come next. */
module ProxySystem {
  import opened Bytes
  import opened ProxyWire

  // ---------------------------------------------------------------- client side

  // Where the goroutine of handleLocalConn stands, dialRemote included.
  datatype Phase =
    | Allocated                             // has an id
    | Pending                               // its channel is in `pending`
    | Awaiting                              // Dial sent, in the select
    | TimedOut                              // gave up waiting, Close not sent yet
    | Accepted                              // took nil from its channel
    | Active                                // in `streams`, about to read
    | Holding(data: Bytes, last: bool)      // has read, frame not written yet
    | Leaving                               // deferred cleanup begins
    | Closing                               // left `streams`, Close not sent yet
    | Finished

  // `slot` is the one-element channel and `results` counts the sends to it;
  // `rd` and `wr` are the bytes read from and written to the local connection;
  // `skipped` are the stream's bytes the read loop had passed by when the
  // handler entered `streams`. `writable` turns false for good when the
  // connection is closed or a write to it fails, `closed` when it is closed.
  datatype Handler = Handler(
    id: Id, phase: Phase, slot: seq<bool>, results: nat,
    rd: Bytes, wr: Bytes, skipped: Bytes, writable: bool, closed: bool)
  {
    function Shut(): (y: Handler)
      ensures y.id == id && y.closed && !y.writable
    {
      this.(writable := false, closed := true)
    }
  }

  function NewHandler(id: Id): Handler {
    Handler(id, Allocated, [], 0, [], [], [], true, false)
  }

  // ---------------------------------------------------------------- server side

  // The goroutine that ferries target bytes to the client.
  datatype Reader =
    | Unstarted
    | Reading
    | Carrying(data: Bytes, last: bool)
    | HangingUp
    | Deregistering
    | SayingClose
    | Ended

  // `closed` is set when the target's connection is closed, which ends writing too.
  datatype Target = Target(id: Id, reader: Reader, rd: Bytes, wr: Bytes, writable: bool, closed: bool) {
    function Shut(): (y: Target)
      ensures y.id == id && y.closed
    {
      this.(writable := false, closed := true)
    }
  }

  function NewTarget(id: Id): Target {
    Target(id, Unstarted, [], [], true, false)
  }

  // Where handleProxyConn stands; `Turn(Skip)` is the top of its loop, `Over` is
  // behind its deferred cleanup.
  datatype ServerLoop =
    | Turn(act: ServerAct)
    | Refused(id: Id)
    | Connected(id: Id)
    | Registered(t: nat)
    | Answered(t: nat)
    | Over

  // The queues are kept as histories: what was ever written, and how much of it
  // the other side has read. `upOk` and `downOk` say that frame writes of the
  // client and of the server still succeed.
  datatype State = State(
    tab: ClientTable, handlers: seq<Handler>, cloop: ClientAct,
    up: seq<Frame>, upGot: nat, down: seq<Frame>, downGot: nat,
    streams: map<Id, nat>, targets: seq<Target>, sloop: ServerLoop,
    upOk: bool, downOk: bool, cancelled: bool)

  function Init(): State {
    State(ClientTable(0, map[], map[]), [], Nothing, [], 0, [], 0, map[], [], Turn(Skip), true, true, false)
  }

  const MAX_READ := 32768

  datatype HandlerStep =
    | AddPending
    | SendDial
    | DialUnsent
    | TakeResult
    | TimeOut
    | SendTimeoutClose
    | GiveUp
    | Register
    | ReadLocal(data: Bytes, last: bool)
    | SendData
    | Unregister
    | SendClose
    | LocalHangUp
    | LocalBreaks

  // The client's read loop; the server's frame loop; a target's reader.
  datatype ClientStep = ClientRecv | ClientDeliver | ClientWrite(n: nat) | ClientHangUp | ClientAnswer

  datatype ServerStep =
    | ServerRecv
    | Dialed(ok: bool)
    | SendFail
    | RegisterTarget
    | SendOk
    | Spawn
    | ServerWrite(n: nat)
    | ServerHangUp
    | ServerAnswer

  datatype ReaderStep =
    | ReadTarget(data: Bytes, last: bool)
    | SendTargetData
    | ReaderHangUp
    | DropTarget
    | SayClose
    | TargetBreaks

  // `SayDisconnect` is what the client writes when it is told to stop; `Forge` is
  // a frame from a server that does not keep to the protocol.
  datatype Step =
    | Accept
    | OfHandler(h: nat, hs: HandlerStep)
    | OfClient(cs: ClientStep)
    | OfServer(ss: ServerStep)
    | OfReader(t: nat, rs: ReaderStep)
    | KeepAlive
    | SayDisconnect
    | SessionEnds
    | UpBreaks
    | DownBreaks
    | Cancel
    | Forge(f: Frame)

  // A socket read returns bytes, an error, or both.
  predicate ReadResult(data: Bytes, last: bool) {
    |data| <= MAX_READ && (data != [] || last)
  }

  predicate HandlerCan(upOk: bool, cancelled: bool, x: Handler, step: HandlerStep) {
    match step
    case AddPending => x.phase.Allocated?
    case SendDial => x.phase.Pending? && upOk
    case DialUnsent => x.phase.Pending?
    case TakeResult => x.phase.Awaiting? && x.slot != []
    case TimeOut => x.phase.Awaiting?
    case SendTimeoutClose => x.phase.TimedOut?
    case GiveUp => x.phase.Awaiting? && cancelled
    case Register => x.phase.Accepted?
    case ReadLocal(data, last) => x.phase.Active? && ReadResult(data, last)
    case SendData => x.phase.Holding?
    case Unregister => x.phase.Leaving?
    case SendClose => x.phase.Closing?
    case LocalHangUp => x.phase.Finished?
    case LocalBreaks => true
  }

  predicate ClientCan(s: State, step: ClientStep) {
    match step
    case ClientRecv => s.cloop == Nothing && s.downGot < |s.down|
    case ClientDeliver => s.cloop.Deliver? && s.cloop.h < |s.handlers| && |s.handlers[s.cloop.h].slot| < 1
    case ClientWrite(n) => s.cloop.WriteLocal? && s.cloop.h < |s.handlers| && n <= |s.cloop.data|
    case ClientHangUp => s.cloop.CloseLocal? && s.cloop.h < |s.handlers|
    case ClientAnswer => s.cloop.Answer?
  }

  predicate ServerCan(s: State, step: ServerStep) {
    match step
    case ServerRecv => s.sloop == Turn(Skip) && s.upGot < |s.up|
    case Dialed(ok) => s.sloop.Turn? && s.sloop.act.DialTarget?
    case SendFail => s.sloop.Refused?
    case RegisterTarget => s.sloop.Connected?
    case SendOk => s.sloop.Registered? && s.sloop.t < |s.targets|
    case Spawn => s.sloop.Answered? && s.sloop.t < |s.targets|
    case ServerWrite(n) =>
      s.sloop.Turn? && s.sloop.act.WriteTarget? && s.sloop.act.t < |s.targets| && n <= |s.sloop.act.data|
    case ServerHangUp => s.sloop.Turn? && s.sloop.act.CloseTarget? && s.sloop.act.t < |s.targets|
    case ServerAnswer => s.sloop == Turn(Reply)
  }

  predicate ReaderCan(x: Target, step: ReaderStep) {
    match step
    case ReadTarget(data, last) => x.reader.Reading? && ReadResult(data, last)
    case SendTargetData => x.reader.Carrying?
    case ReaderHangUp => x.reader.HangingUp?
    case DropTarget => x.reader.Deregistering?
    case SayClose => x.reader.SayingClose?
    case TargetBreaks => true
  }

  predicate Enabled(s: State, step: Step) {
    match step
    case OfHandler(h, hs) =>
      h < |s.handlers| && s.downGot <= |s.down| && HandlerCan(s.upOk, s.cancelled, s.handlers[h], hs)
    case OfClient(cs) => ClientCan(s, cs)
    case OfServer(ss) => ServerCan(s, ss)
    case OfReader(t, rs) => t < |s.targets| && ReaderCan(s.targets[t], rs)
    case SessionEnds => s.sloop == Turn(Return) || s.sloop == Turn(Skip)
    case _ => true
  }

  // A frame write: the frame enters the queue unless the connection has failed.
  function SendUp(s: State, f: Frame): State {
    s.(up := s.up + if s.upOk then [f] else [])
  }

  function SendDown(s: State, f: Frame): State {
    s.(down := s.down + if s.downOk then [f] else [])
  }

  function SetHandler(s: State, h: nat, x: Handler): State
    requires h < |s.handlers|
  {
    s.(handlers := s.handlers[h := x])
  }

  function SetTarget(s: State, t: nat, x: Target): State
    requires t < |s.targets|
  {
    s.(targets := s.targets[t := x])
  }

  // The handler itself after its step; `seen` are the frames of its stream that
  // the read loop has passed.
  function HandlerAfter(upOk: bool, seen: seq<Frame>, x: Handler, step: HandlerStep): (y: Handler)
    requires step.TakeResult? ==> x.slot != []
    requires step.SendData? ==> x.phase.Holding?
    ensures y.id == x.id
  {
    match step
    case AddPending => x.(phase := Pending)
    case SendDial => x.(phase := Awaiting)
    case DialUnsent => x.(phase := Finished)
    case TakeResult => x.(phase := if x.slot[0] then Accepted else Finished, slot := x.slot[1..])
    case TimeOut => x.(phase := TimedOut)
    case SendTimeoutClose => x.(phase := Finished)
    case GiveUp => x.(phase := Finished)
    case Register => x.(phase := Active, skipped := DataOf(seen))
    case ReadLocal(data, last) =>
      x.(rd := x.rd + data, phase := if data == [] then Leaving else Holding(data, last))
    case SendData => x.(phase := if upOk && !x.phase.last then Active else Leaving)
    case Unregister => x.(phase := Closing)
    case SendClose => x.(phase := Finished)
    case LocalHangUp => x.Shut()
    case LocalBreaks => x.(writable := false)
  }

  function HandlerTab(tab: ClientTable, h: nat, id: Id, step: HandlerStep): (r: ClientTable)
    ensures forall i :: i in r.streams <==>
      if i == id && (step.Register? || step.Unregister?) then step.Register? else i in tab.streams
  {
    match step
    case AddPending => tab.(pending := tab.pending[id := h])
    case DialUnsent => tab.(pending := tab.pending - {id})
    case TimeOut => tab.(pending := tab.pending - {id})
    case Register => tab.(streams := tab.streams[id := h])
    case Unregister => tab.(streams := tab.streams - {id})
    case _ => tab
  }

  // The frame the step writes, if any.
  function HandlerFrames(x: Handler, step: HandlerStep): (fs: seq<Frame>)
    requires step.SendData? ==> x.phase.Holding?
    ensures |fs| <= 1 && forall f <- fs :: f.Carries(x.id)
  {
    match step
    case SendDial => [Dial(x.id)]
    case SendTimeoutClose => [Close(x.id)]
    case SendData => [Data(x.id, x.phase.data)]
    case SendClose => [Close(x.id)]
    case _ => []
  }

  // A queue is only ever appended to or read on, one frame at a time.
  ghost predicate QueueStep(all: seq<Frame>, got: nat, all': seq<Frame>, got': nat) {
    || (all' == all && (got' == got || (got' == got + 1 <= |all|)))
    || (all < all' && |all'| == |all| + 1 && got' == got)
  }

  ghost predicate Grows(s: State, s': State) {
    && QueueStep(s.up, s.upGot, s'.up, s'.upGot)
    && QueueStep(s.down, s.downGot, s'.down, s'.downGot)
    && |s'.handlers| == |s.handlers|
  }

  function HandlerApply(s: State, h: nat, step: HandlerStep): (s': State)
    requires h < |s.handlers| && s.downGot <= |s.down|
    requires HandlerCan(s.upOk, s.cancelled, s.handlers[h], step)
    ensures Grows(s, s')
  {
    var x := s.handlers[h];
    s.(handlers := s.handlers[h := HandlerAfter(s.upOk, Only(s.down[..s.downGot], x.id), x, step)],
       tab := HandlerTab(s.tab, h, x.id, step),
       up := s.up + if s.upOk then HandlerFrames(x, step) else [])
  }

  function ClientApply(s: State, step: ClientStep): (s': State)
    requires ClientCan(s, step)
    ensures Grows(s, s')
  {
    match step
    case ClientRecv =>
      var (tab, act) := ClientDispatch(s.tab, s.down[s.downGot]);
      s.(tab := tab, cloop := act, downGot := s.downGot + 1)
    case ClientDeliver =>
      var x := s.handlers[s.cloop.h];
      SetHandler(s, s.cloop.h, x.(slot := x.slot + [s.cloop.ok], results := x.results + 1)).(cloop := Nothing)
    case ClientWrite(n) =>
      SetHandler(s, s.cloop.h, LocalAfterWrite(s.handlers[s.cloop.h], s.cloop.data, n)).(cloop := Nothing)
    case ClientHangUp =>
      SetHandler(s, s.cloop.h, s.handlers[s.cloop.h].Shut()).(cloop := Nothing)
    case ClientAnswer =>
      SendUp(s.(cloop := Nothing), Pong)
  }

  // A socket takes the first n bytes; taking fewer than all is an error for good.
  function LocalAfterWrite(x: Handler, data: Bytes, n: nat): Handler
    requires n <= |data|
  {
    if x.writable then x.(wr := x.wr + data[..n], writable := n == |data|) else x
  }

  function TargetAfterWrite(x: Target, data: Bytes, n: nat): Target
    requires n <= |data|
  {
    if x.writable then x.(wr := x.wr + data[..n], writable := n == |data|) else x
  }

  function ServerApply(s: State, step: ServerStep): (s': State)
    requires ServerCan(s, step)
    ensures Grows(s, s')
  {
    match step
    case ServerRecv =>
      var (streams, act) := ServerDispatch(s.streams, s.up[s.upGot]);
      s.(streams := streams, sloop := Turn(act), upGot := s.upGot + 1)
    case Dialed(ok) =>
      s.(sloop := if ok then Connected(s.sloop.act.id) else Refused(s.sloop.act.id))
    case SendFail =>
      SendDown(s.(sloop := Turn(Skip)), DialFail(s.sloop.id))
    case RegisterTarget =>
      s.(targets := s.targets + [NewTarget(s.sloop.id)],
         streams := s.streams[s.sloop.id := |s.targets|],
         sloop := Registered(|s.targets|))
    case SendOk =>
      SendDown(s.(sloop := Answered(s.sloop.t)), DialOk(s.targets[s.sloop.t].id))
    case Spawn =>
      SetTarget(s, s.sloop.t, s.targets[s.sloop.t].(reader := Reading)).(sloop := Turn(Skip))
    case ServerWrite(n) =>
      SetTarget(s, s.sloop.act.t, TargetAfterWrite(s.targets[s.sloop.act.t], s.sloop.act.data, n)).(sloop := Turn(Skip))
    case ServerHangUp =>
      SetTarget(s, s.sloop.act.t, s.targets[s.sloop.act.t].Shut()).(sloop := Turn(Skip))
    case ServerAnswer =>
      SendDown(s.(sloop := Turn(Skip)), Pong)
  }

  function TargetAfter(x: Target, step: ReaderStep): (y: Target)
    requires ReaderCan(x, step)
    ensures y.id == x.id
  {
    match step
    case ReadTarget(data, last) =>
      x.(rd := x.rd + data, reader := if data == [] then HangingUp else Carrying(data, last))
    case SendTargetData => x.(reader := if x.reader.last then HangingUp else Reading)
    case ReaderHangUp => x.Shut().(reader := Deregistering)
    case DropTarget => x.(reader := SayingClose)
    case SayClose => x.(reader := Ended)
    case TargetBreaks => x.(writable := false)
  }

  function ReaderFrames(x: Target, step: ReaderStep): (fs: seq<Frame>)
    requires step.SendTargetData? ==> x.reader.Carrying?
    ensures |fs| <= 1 && forall f <- fs :: f.Carries(x.id)
  {
    match step
    case SendTargetData => [Data(x.id, x.reader.data)]
    case SayClose => [Close(x.id)]
    case _ => []
  }

  function ReaderApply(s: State, t: nat, step: ReaderStep): (s': State)
    requires t < |s.targets| && ReaderCan(s.targets[t], step)
    ensures Grows(s, s')
  {
    var x := s.targets[t];
    s.(targets := s.targets[t := TargetAfter(x, step)],
       streams := if step.DropTarget? then s.streams - {x.id} else s.streams,
       down := s.down + if s.downOk then ReaderFrames(x, step) else [])
  }

  // The deferred cleanup closes what is still in the table, after a Disconnect or
  // a failed read.
  function CloseAll(ts: seq<Target>, streams: map<Id, nat>): (r: seq<Target>)
    ensures |r| == |ts|
    ensures forall t :: 0 <= t < |ts| ==>
      r[t] == if ts[t].id in streams && streams[ts[t].id] == t then ts[t].Shut() else ts[t]
  {
    if ts == [] then []
    else
      var t, x := |ts| - 1, ts[|ts| - 1];
      CloseAll(ts[..t], streams) + [if x.id in streams && streams[x.id] == t then x.Shut() else x]
  }

  function Apply(s: State, step: Step): State
    requires Enabled(s, step)
  {
    match step
    case Accept =>
      var id := NextId(s.tab);
      s.(tab := s.tab.(nextID := id),
         handlers := s.handlers + [NewHandler(id)])
    case OfHandler(h, hs) => HandlerApply(s, h, hs)
    case OfClient(cs) => ClientApply(s, cs)
    case OfServer(ss) => ServerApply(s, ss)
    case OfReader(t, rs) => ReaderApply(s, t, rs)
    case KeepAlive => SendUp(s, Ping)
    case SayDisconnect => SendUp(s, Disconnect)
    case SessionEnds => s.(sloop := Over, targets := CloseAll(s.targets, s.streams))
    case UpBreaks => s.(upOk := false)
    case DownBreaks => s.(downOk := false)
    case Cancel => s.(cancelled := true)
    case Forge(f) => s.(down := s.down + [f])
  }

  // ---------------------------------------------------------------- runs

  // The steps can be taken one after the other from the initial state.
  ghost predicate IsRun(steps: seq<Step>)
    decreases |steps|, 0
  {
    steps == [] ||
    (IsRun(steps[..|steps| - 1]) && Enabled(After(steps[..|steps| - 1]), steps[|steps| - 1]))
  }

  ghost function After(steps: seq<Step>): State
    requires IsRun(steps)
    decreases |steps|, 1
  {
    if steps == [] then Init() else Apply(After(steps[..|steps| - 1]), steps[|steps| - 1])
  }

  // A run in which the server only sends what its own code writes.
  ghost predicate Honest(steps: seq<Step>) {
    forall step <- steps :: !step.Forge?
  }

  // ---------------------------------------------------------------- histories

  // The frames of one stream, in order.
  function Only(fs: seq<Frame>, i: Id): seq<Frame> {
    if fs == [] then []
    else if fs[|fs| - 1].Carries(i) then Only(fs[..|fs| - 1], i) + [fs[|fs| - 1]]
    else Only(fs[..|fs| - 1], i)
  }

  // The payload bytes of the Data frames, in order.
  function DataOf(fs: seq<Frame>): Bytes {
    if fs == [] then []
    else DataOf(fs[..|fs| - 1]) + (if fs[|fs| - 1].Data? then fs[|fs| - 1].data else [])
  }

  lemma OnlyAppend(fs: seq<Frame>, f: Frame, i: Id)
    ensures Only(fs + [f], i) == Only(fs, i) + (if f.Carries(i) then [f] else [])
  {
    assert (fs + [f])[..|fs|] == fs;
  }

  lemma DataOfAppend(fs: seq<Frame>, f: Frame)
    ensures DataOf(fs + [f]) == DataOf(fs) + (if f.Data? then f.data else [])
  {
    assert (fs + [f])[..|fs|] == fs;
  }

  lemma {:induction false} OnlyCarries(fs: seq<Frame>, i: Id, j: nat)
    requires j < |Only(fs, i)|
    ensures Only(fs, i)[j].Carries(i) && Only(fs, i)[j] in fs
  {
    if !fs[|fs| - 1].Carries(i) || j < |Only(fs, i)| - 1 {
      OnlyCarries(fs[..|fs| - 1], i, j);
    }
  }

  // The part already read is a prefix also when seen from one stream, and the
  // next frame read is that stream's next frame or none of it.
  lemma {:induction false} OnlyPrefix(fs: seq<Frame>, n: nat, i: Id)
    requires n <= |fs|
    ensures Only(fs[..n], i) <= Only(fs, i)
  {
    if n < |fs| {
      OnlyPrefix(fs[..|fs| - 1], n, i);
      assert fs[..|fs| - 1][..n] == fs[..n];
    } else {
      assert fs[..n] == fs;
    }
  }

  lemma {:induction false} DataOfPrefix(fs: seq<Frame>, n: nat)
    requires n <= |fs|
    ensures DataOf(fs[..n]) <= DataOf(fs)
  {
    if n < |fs| {
      DataOfPrefix(fs[..|fs| - 1], n);
      assert fs[..|fs| - 1][..n] == fs[..n];
    } else {
      assert fs[..n] == fs;
    }
  }
}
