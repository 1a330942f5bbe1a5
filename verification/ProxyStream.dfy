/** One stream of the multiplexer, seen on its own, and the invariant it keeps
    whatever the other streams do. */
module ProxyStream {
  import opened Bytes
  import opened ProxyWire
  import opened ProxySystem

  // `reg` says that the client's `streams` maps the stream's id, `sreg` that the
  // server's does. `got` and `dgot` are the parts of `up` and `down` already
  // read. The loops show up only while they work on this stream.
  datatype View = View(
    h: Handler, reg: bool, cl: ClientAct,
    up: seq<Frame>, got: seq<Frame>, down: seq<Frame>, dgot: seq<Frame>,
    t: Option<Target>, sreg: bool, sl: ServerLoop,
    upOk: bool, downOk: bool, cancelled: bool)

  ghost predicate Closed(fs: seq<Frame>) {
    fs != [] && fs[|fs| - 1].Close?
  }

  // What the client writes for one stream: a Dial, then Data, then perhaps Close.
  ghost predicate UpShape(fs: seq<Frame>) {
    fs != [] ==>
      fs[0].Dial? && forall j :: 0 < j < |fs| ==> fs[j].Data? || (fs[j].Close? && j == |fs| - 1)
  }

  // What the server writes: Fail alone, or OK, then Data, then perhaps Close.
  ghost predicate DownShape(fs: seq<Frame>) {
    fs != [] ==>
      && (fs[0].DialFail? || fs[0].DialOk?)
      && (fs[0].DialFail? ==> |fs| == 1)
      && forall j :: 0 < j < |fs| ==> fs[j].Data? || (fs[j].Close? && j == |fs| - 1)
  }

  predicate Connecting(p: Phase) {
    p.Allocated? || p.Pending? || p.Awaiting? || p.TimedOut? || p.Accepted?
  }

  predicate Serving(p: Phase) {
    p.Active? || p.Holding? || p.Leaving?
  }

  // The server loop has read the Dial and the target is not in its table yet.
  predicate DialPending(sl: ServerLoop) {
    (sl.Turn? && sl.act.DialTarget?) || sl.Refused? || sl.Connected?
  }

  predicate Writing(sl: ServerLoop) {
    sl.Turn? && sl.act.WriteTarget?
  }

  ghost predicate SaysOk(fs: seq<Frame>) {
    fs != [] && fs[0].DialOk?
  }

  ghost predicate SaysFail(fs: seq<Frame>) {
    fs != [] && fs[0].DialFail?
  }

  // The handler's phase tells which frames it has sent.
  ghost predicate PhaseInv(p: Phase, up: seq<Frame>) {
    && (p.Allocated? || p.Pending? ==> up == [])
    && (p.Awaiting? || p.TimedOut? || p.Accepted? ==> |up| == 1)
    && (Serving(p) || p.Closing? ==> up != [])
    && (Closed(up) ==> p.Finished?)
  }

  // What the handler was told, the server has said. A handler that has finished
  // owes the server nothing unless the connection is going down.
  ghost predicate ResultInv(h: Handler, cl: ClientAct, up: seq<Frame>, dgot: seq<Frame>, upOk: bool, cancelled: bool) {
    && |h.slot| <= 1
    && (h.slot == [true] || (cl.Deliver? && cl.ok) || h.phase.Accepted? || Serving(h.phase) || h.phase.Closing? ==>
          SaysOk(dgot))
    && (h.slot == [false] || (cl.Deliver? && !cl.ok) ==> SaysFail(dgot))
    && (h.phase.Finished? ==> cancelled || !upOk || up == [] || Closed(up) || SaysFail(dgot))
  }

  ghost predicate ServerInv(sl: ServerLoop, t: Option<Target>, sreg: bool, got: seq<Frame>, down: seq<Frame>,
                            downOk: bool)
  {
    && (got == [] ==> t.None? && sl == Turn(Skip) && down == [])
    && (DialPending(sl) ==> t.None? && down == [] && |got| == 1)
    && (sl.Registered? || sl.Answered? ==> |got| == 1 && t.Some?)
    && (t.None? ==> (sl == Turn(Skip) || DialPending(sl)) && |down| <= 1 && !SaysOk(down))
    && (t.None? && downOk && got != [] && sl == Turn(Skip) ==> SaysFail(down))
    && (t.Some? ==>
          && (t.value.reader.Unstarted? <==> sl.Registered? || sl.Answered?)
          && (sl.Registered? ==> down == [])
          && (sl.Answered? ==> |down| <= 1)
          && (downOk && !sl.Registered? ==> down != [])
          && (Closed(down) ==> t.value.reader.Ended?)
          && (downOk && t.value.reader.Ended? ==> Closed(down))
          && !SaysFail(down))
    && (sreg ==> t.Some? && !Closed(got))
  }

  // Client to target: nothing is lost on the way while the socket takes writes.
  ghost predicate LocalReadInv(p: Phase, rd: Bytes, upData: Bytes) {
    && upData <= rd
    && (Connecting(p) ==> rd == [])
    && (p.Active? ==> upData == rd)
    && (p.Holding? ==> upData + p.data == rd)
  }

  ghost predicate TargetWriteInv(t: Target, sreg: bool, sl: ServerLoop, gotData: Bytes) {
    && t.wr <= gotData
    && (sreg && t.writable && !Writing(sl) ==> t.wr == gotData)
    && (t.writable && Writing(sl) ==> t.wr + sl.act.data == gotData)
  }

  // Target to client: the same from the moment the handler is in `streams`.
  ghost predicate TargetReadInv(t: Target, downOk: bool, downData: Bytes) {
    && downData <= t.rd
    && (t.reader.Unstarted? ==> t.rd == [])
    && (downOk && t.reader.Reading? ==> downData == t.rd)
    && (downOk && t.reader.Carrying? ==> downData + t.reader.data == t.rd)
  }

  ghost predicate LocalWriteInv(h: Handler, reg: bool, cl: ClientAct, dgotData: Bytes) {
    && (reg ==> Serving(h.phase))
    && (Connecting(h.phase) ==> h.wr == [] && h.skipped == [] && !cl.WriteLocal?)
    && h.skipped + h.wr <= dgotData
    && (reg && h.writable && !cl.WriteLocal? ==> h.skipped + h.wr == dgotData)
    && (cl.WriteLocal? && h.writable ==> h.skipped + h.wr + cl.data == dgotData)
  }

  // The client sends no data before it has read the OK.
  ghost predicate DataBehindOk(up: seq<Frame>, dgot: seq<Frame>) {
    |up| >= 2 && up[1].Data? ==> SaysOk(dgot)
  }

  ghost predicate StreamInv(v: View) {
    && v.got <= v.up && UpShape(v.up) && DataBehindOk(v.up, v.dgot)
    && v.dgot <= v.down && DownShape(v.down)
    && PhaseInv(v.h.phase, v.up)
    && ResultInv(v.h, v.cl, v.up, v.dgot, v.upOk, v.cancelled)
    && ServerInv(v.sl, v.t, v.sreg, v.got, v.down, v.downOk)
    && LocalReadInv(v.h.phase, v.h.rd, DataOf(v.up))
    && (v.t.Some? ==> TargetWriteInv(v.t.value, v.sreg, v.sl, DataOf(v.got)))
    && (v.t.Some? ==> TargetReadInv(v.t.value, v.downOk, DataOf(v.down)))
    && LocalWriteInv(v.h, v.reg, v.cl, DataOf(v.dgot))
  }

  // ---------------------------------------------------------------- one stream's steps

  function HandlerView(v: View, hs: HandlerStep): View
    requires HandlerCan(v.upOk, v.cancelled, v.h, hs)
  {
    v.(h := HandlerAfter(v.upOk, v.dgot, v.h, hs),
       reg := (v.reg || hs.Register?) && !hs.Unregister?,
       up := v.up + if v.upOk then HandlerFrames(v.h, hs) else [])
  }

  // The read loop finishing what it began for this stream.
  function ClientView(v: View, cs: ClientStep): View
    requires cs.ClientDeliver? ==> v.cl.Deliver?
    requires cs.ClientWrite? ==> v.cl.WriteLocal? && cs.n <= |v.cl.data|
  {
    match cs
    case ClientDeliver => v.(h := v.h.(slot := v.h.slot + [v.cl.ok], results := v.h.results + 1), cl := Nothing)
    case ClientWrite(n) => v.(h := LocalAfterWrite(v.h, v.cl.data, n), cl := Nothing)
    case ClientHangUp => v.(h := v.h.Shut(), cl := Nothing)
    case _ => v
  }

  // The server loop working for this stream; `n` numbers the next target.
  function ServerView(v: View, ss: ServerStep, n: nat): View
    requires ViewCan(v, ss)
  {
    match ss
    case Dialed(ok) => v.(sl := if ok then Connected(v.sl.act.id) else Refused(v.sl.act.id))
    case SendFail => v.(sl := Turn(Skip), down := v.down + if v.downOk then [DialFail(v.sl.id)] else [])
    case RegisterTarget => v.(sl := Registered(n), t := Some(NewTarget(v.sl.id)), sreg := true)
    case SendOk => v.(sl := Answered(v.sl.t), down := v.down + if v.downOk then [DialOk(v.t.value.id)] else [])
    case Spawn => v.(sl := Turn(Skip), t := Some(v.t.value.(reader := Reading)))
    case ServerWrite(n) => v.(sl := Turn(Skip), t := Some(TargetAfterWrite(v.t.value, v.sl.act.data, n)))
    case ServerHangUp => v.(sl := Turn(Skip), t := Some(v.t.value.Shut()))
    case _ => v
  }

  predicate ViewCan(v: View, ss: ServerStep) {
    match ss
    case Dialed(_) => v.sl.Turn? && v.sl.act.DialTarget?
    case SendFail => v.sl.Refused?
    case RegisterTarget => v.sl.Connected?
    case SendOk => v.sl.Registered? && v.t.Some?
    case Spawn => v.sl.Answered? && v.t.Some?
    case ServerWrite(n) => Writing(v.sl) && n <= |v.sl.act.data| && v.t.Some?
    case ServerHangUp => v.sl.Turn? && v.sl.act.CloseTarget? && v.t.Some?
    case _ => false
  }

  function ReaderView(v: View, rs: ReaderStep): View
    requires v.t.Some? && ReaderCan(v.t.value, rs)
  {
    v.(t := Some(TargetAfter(v.t.value, rs)),
       sreg := v.sreg && !rs.DropTarget?,
       down := v.down + if v.downOk then ReaderFrames(v.t.value, rs) else [])
  }

  // ---------------------------------------------------------------- frames sent

  // The handler appends a frame to what the client has sent.
  lemma HandlerSends(v: View, f: Frame, p: Phase)
    requires StreamInv(v)
    requires
      || (f.Dial? && v.h.phase.Pending? && p == Awaiting)
      || (f.Close? && (v.h.phase.TimedOut? || v.h.phase.Closing?) && p == Finished)
      || (f.Data? && v.h.phase.Holding? && f.data == v.h.phase.data && p == if v.h.phase.last then Leaving else Active)
    ensures StreamInv(v.(up := v.up + [f], h := v.h.(phase := p)))
  {
    hide ServerInv, TargetWriteInv, TargetReadInv, DownShape, DataOf;
    UpExtends(v, f);
  }

  lemma UpExtends(v: View, f: Frame)
    requires v.got <= v.up && UpShape(v.up)
    requires v.up == [] ==> f.Dial?
    requires v.up != [] ==> !Closed(v.up) && (f.Data? || f.Close?)
    ensures v.got <= v.up + [f] && UpShape(v.up + [f])
    ensures Closed(v.up + [f]) <==> f.Close?
    ensures DataOf(v.up + [f]) == DataOf(v.up) + (if f.Data? then f.data else [])
  {
    DataOfAppend(v.up, f);
    assert v.up == [] ==> v.up + [f] == [f];
  }

  lemma DownExtends(v: View, f: Frame)
    requires v.dgot <= v.down && DownShape(v.down)
    requires v.down == [] ==> f.DialOk? || f.DialFail?
    requires v.down != [] ==> SaysOk(v.down) && !Closed(v.down) && (f.Data? || f.Close?)
    ensures DownShape(v.down + [f]) && v.dgot <= v.down + [f]
    ensures SaysOk(v.down + [f]) <==> SaysOk(v.down) || f.DialOk?
    ensures SaysFail(v.down + [f]) <==> SaysFail(v.down) || f.DialFail?
    ensures Closed(v.down + [f]) <==> f.Close?
    ensures DataOf(v.down + [f]) == DataOf(v.down) + (if f.Data? then f.data else [])
  {
    DataOfAppend(v.down, f);
    assert v.down == [] ==> v.down + [f] == [f];
  }

  // The server loop answers a dial.
  lemma ServerAnswers(v: View, f: Frame, sl: ServerLoop)
    requires StreamInv(v) && v.downOk
    requires
      || (f.DialFail? && v.sl.Refused? && sl == Turn(Skip))
      || (f.DialOk? && v.sl.Registered? && sl == Answered(v.sl.t))
    ensures StreamInv(v.(down := v.down + [f], sl := sl))
  {
    hide UpShape, PhaseInv, ResultInv, LocalReadInv, LocalWriteInv, DataOf;
    DownExtends(v, f);
    hide DownShape;
  }

  // A reader sends what it has read, or says that it is done.
  lemma ReaderSends(v: View, f: Frame, r: Reader)
    requires StreamInv(v) && v.downOk && v.t.Some?
    requires
      var q := v.t.value.reader;
      || (f.Data? && q.Carrying? && f.data == q.data && r == if q.last then HangingUp else Reading)
      || (f.Close? && q.SayingClose? && r == Ended)
    ensures StreamInv(v.(down := v.down + [f], t := Some(v.t.value.(reader := r))))
  {
    DownExtends(v, f);
    assert DownShape(v.down);
    assert TargetReadInv(v.t.value.(reader := r), v.downOk, DataOf(v.down + [f]));
  }

  // ---------------------------------------------------------------- frames received

  lemma ReadsOn(got: seq<Frame>, all: seq<Frame>)
    requires got <= all && |got| < |all|
    ensures got + [all[|got|]] <= all
    ensures DataOf(got + [all[|got|]]) == DataOf(got) + (if all[|got|].Data? then all[|got|].data else [])
  {
    NextPrefix(got, all);
    DataOfAppend(got, all[|got|]);
  }

  lemma NextPrefix(got: seq<Frame>, all: seq<Frame>)
    requires got <= all && |got| < |all|
    ensures got + [all[|got|]] <= all
  {
  }

  ghost function ClientGot(v: View): View
    requires |v.dgot| < |v.down|
  {
    v.(dgot := v.dgot + [v.down[|v.dgot|]])
  }

  lemma ClientReadsResult(v: View, cl: ClientAct)
    requires StreamInv(v) && v.cl == Nothing && |v.dgot| < |v.down|
    requires v.down[|v.dgot|].DialOk? || v.down[|v.dgot|].DialFail?
    requires cl == Nothing || (cl.Deliver? && cl.ok == v.down[|v.dgot|].DialOk?)
    ensures StreamInv(ClientGot(v).(cl := cl))
  {
    hide ServerInv, UpShape, PhaseInv, LocalReadInv, TargetWriteInv, TargetReadInv, DataOf;
    ReadsOn(v.dgot, v.down);
    assert v.dgot == [] && ClientGot(v).dgot == [v.down[0]];
  }

  lemma ClientReadsData(v: View, cl: ClientAct)
    requires StreamInv(v) && v.cl == Nothing && |v.dgot| < |v.down|
    requires v.down[|v.dgot|].Data?
    requires
      var f := v.down[|v.dgot|];
      if v.reg && f.data != [] then cl.WriteLocal? && cl.data == f.data else cl == Nothing
    ensures StreamInv(ClientGot(v).(cl := cl))
  {
    ReadsOn(v.dgot, v.down);
    assert ResultInv(v.h, cl, v.up, ClientGot(v).dgot, v.upOk, v.cancelled);
    LocalDataArrives(v.h, v.reg, cl, DataOf(v.dgot), v.down[|v.dgot|].data);
  }

  lemma LocalDataArrives(h: Handler, reg: bool, cl: ClientAct, before: Bytes, data: Bytes)
    requires LocalWriteInv(h, reg, Nothing, before)
    requires if reg && data != [] then cl.WriteLocal? && cl.data == data else cl == Nothing
    ensures LocalWriteInv(h, reg, cl, before + data)
  {
    if data == [] { assert before + data == before; }
  }

  lemma ClientReadsClose(v: View, cl: ClientAct)
    requires StreamInv(v) && v.cl == Nothing && |v.dgot| < |v.down|
    requires v.down[|v.dgot|].Close?
    requires cl == Nothing || cl.CloseLocal?
    ensures StreamInv(ClientGot(v).(reg := false, cl := cl))
  {
    ReadsOn(v.dgot, v.down);
    assert DataOf(ClientGot(v).dgot) == DataOf(v.dgot);
    assert ResultInv(v.h, cl, v.up, ClientGot(v).dgot, v.upOk, v.cancelled);
    assert LocalWriteInv(v.h, false, cl, DataOf(v.dgot));
  }

  ghost function ServerGot(v: View): View
    requires |v.got| < |v.up|
  {
    v.(got := v.got + [v.up[|v.got|]])
  }

  lemma ServerReadsDial(v: View)
    requires StreamInv(v) && v.sl == Turn(Skip) && |v.got| < |v.up|
    requires v.up[|v.got|].Dial?
    ensures StreamInv(ServerGot(v).(sl := Turn(DialTarget(v.h.id))))
  {
    ReadsOn(v.got, v.up);
    assert v.got == [] && ServerGot(v).got == [v.up[0]];
  }

  lemma ServerReadsData(v: View, act: ServerAct)
    requires StreamInv(v) && v.sl == Turn(Skip) && |v.got| < |v.up|
    requires v.up[|v.got|].Data?
    requires
      var f := v.up[|v.got|];
      if v.sreg && f.data != [] then act.WriteTarget? && act.data == f.data else act == Skip
    ensures StreamInv(ServerGot(v).(sl := Turn(act)))
  {
    hide DownShape, PhaseInv, ResultInv, LocalReadInv, LocalWriteInv, TargetReadInv, DataOf;
    ReadsOn(v.got, v.up);
    assert ServerInv(Turn(act), v.t, v.sreg, ServerGot(v).got, v.down, v.downOk);
    if v.t.Some? {
      TargetDataArrives(v.t.value, v.sreg, act, DataOf(v.got), v.up[|v.got|].data);
    }
  }

  lemma TargetDataArrives(t: Target, sreg: bool, act: ServerAct, before: Bytes, data: Bytes)
    requires TargetWriteInv(t, sreg, Turn(Skip), before)
    requires if sreg && data != [] then act.WriteTarget? && act.data == data else act == Skip
    ensures TargetWriteInv(t, sreg, Turn(act), before + data)
  {
    if data == [] { assert before + data == before; }
  }

  lemma ServerReadsClose(v: View, act: ServerAct)
    requires StreamInv(v) && v.sl == Turn(Skip) && |v.got| < |v.up|
    requires v.up[|v.got|].Close?
    requires act == Skip || (act.CloseTarget? && v.sreg)
    ensures StreamInv(ServerGot(v).(sreg := false, sl := Turn(act)))
  {
    ReadsOn(v.got, v.up);
    assert DataOf(ServerGot(v).got) == DataOf(v.got);
    assert ServerInv(Turn(act), v.t, false, ServerGot(v).got, v.down, v.downOk);
  }

  // ---------------------------------------------------------------- tables and sockets

  // The dial has succeeded and the target enters the server's table.
  lemma TargetRegistered(v: View, t: nat)
    requires StreamInv(v) && v.sl.Connected?
    ensures StreamInv(v.(t := Some(NewTarget(v.h.id)), sreg := true, sl := Registered(t)))
  {
    assert v.got == [v.got[0]] && v.got[0] == v.up[0];
    assert DataOf(v.got[..0]) == [];
  }

  // The handler enters the client's table.
  lemma HandlerRegistered(v: View)
    requires StreamInv(v) && v.h.phase.Accepted?
    ensures StreamInv(v.(h := v.h.(phase := Active, skipped := DataOf(v.dgot)), reg := true))
  {
    assert v.up == [v.up[0]];
    assert DataOf(v.up[..0]) == [];
    assert LocalWriteInv(v.h.(phase := Active, skipped := DataOf(v.dgot)), true, v.cl, DataOf(v.dgot));
  }

  // A write to the local socket completes, in full or in part.
  lemma LocalWritten(v: View, n: nat)
    requires StreamInv(v) && v.cl.WriteLocal? && n <= |v.cl.data|
    ensures StreamInv(v.(cl := Nothing,
                         h := LocalAfterWrite(v.h, v.cl.data, n)))
  {
    assert v.h.skipped + (v.h.wr + v.cl.data[..n]) == v.h.skipped + v.h.wr + v.cl.data[..n];
    assert v.cl.data == v.cl.data[..n] + v.cl.data[n..];
  }

  lemma TargetWritten(v: View, n: nat)
    requires StreamInv(v) && Writing(v.sl) && n <= |v.sl.act.data| && v.t.Some?
    ensures StreamInv(v.(sl := Turn(Skip), t := Some(TargetAfterWrite(v.t.value, v.sl.act.data, n))))
  {
    assert v.sl.act.data == v.sl.act.data[..n] + v.sl.act.data[n..];
  }

  // The steps that only move the handler along, before and after it serves.
  lemma HandlerWaits(v: View, hs: HandlerStep)
    requires StreamInv(v) && HandlerCan(v.upOk, v.cancelled, v.h, hs)
    requires hs.AddPending? || hs.DialUnsent? || hs.TakeResult? || hs.TimeOut? || hs.GiveUp? || hs.LocalHangUp?
    ensures StreamInv(v.(h := HandlerAfter(v.upOk, v.dgot, v.h, hs)))
  {
    hide ServerInv, UpShape, DownShape, DataBehindOk, TargetWriteInv, TargetReadInv, DataOf, SaysOk, SaysFail, Closed;
  }

  lemma HandlerServes(v: View, hs: HandlerStep)
    requires StreamInv(v) && HandlerCan(v.upOk, v.cancelled, v.h, hs)
    requires hs.ReadLocal? || hs.Unregister? || hs.LocalBreaks?
    ensures StreamInv(v.(h := HandlerAfter(v.upOk, v.dgot, v.h, hs), reg := v.reg && !hs.Unregister?))
  {
    if hs.ReadLocal? && hs.data == [] { assert v.h.rd + [] == v.h.rd; }
  }

  // A frame that could not be written is lost, and the handler winds up.
  lemma HandlerCannotSend(v: View, p: Phase)
    requires StreamInv(v) && !v.upOk
    requires
      || (v.h.phase.TimedOut? && p == Finished)
      || (v.h.phase.Holding? && p == Leaving)
      || (v.h.phase.Closing? && p == Finished)
    ensures StreamInv(v.(h := v.h.(phase := p)))
  {
  }

  // A step that writes a frame, whether the write succeeds or not.
  lemma HandlerWrites(v: View, hs: HandlerStep, f: Frame, p: Phase)
    requires StreamInv(v) && HandlerCan(v.upOk, v.cancelled, v.h, hs)
    requires hs.SendDial? || hs.SendTimeoutClose? || hs.SendData? || hs.SendClose?
    requires HandlerFrames(v.h, hs) == [f] && HandlerAfter(v.upOk, v.dgot, v.h, hs) == v.h.(phase := p)
    ensures StreamInv(HandlerView(v, hs))
  {
    hide StreamInv;
    var w := HandlerView(v, hs);
    assert v.up + [] == v.up;
    if v.upOk {
      HandlerSends(v, f, p);
      assert w == v.(up := v.up + [f], h := v.h.(phase := p));
    } else {
      HandlerCannotSend(v, p);
      assert w == v.(h := v.h.(phase := p));
    }
  }

  lemma HandlerKeeps(v: View, hs: HandlerStep)
    requires StreamInv(v) && HandlerCan(v.upOk, v.cancelled, v.h, hs)
    ensures StreamInv(HandlerView(v, hs))
  {
    hide StreamInv;
    var w := HandlerView(v, hs);
    match hs {
      case SendDial => HandlerWrites(v, hs, Dial(v.h.id), Awaiting);
      case SendTimeoutClose => HandlerWrites(v, hs, Close(v.h.id), Finished);
      case SendData =>
        var next := if v.upOk && !v.h.phase.last then Active else Leaving;
        HandlerWrites(v, hs, Data(v.h.id, v.h.phase.data), next);
      case SendClose => HandlerWrites(v, hs, Close(v.h.id), Finished);
      case Register =>
        HandlerRegistered(v);
        assert w == v.(h := w.h, reg := true);
      case ReadLocal(_, _) => HandlerServes(v, hs); assert w == v.(h := w.h);
      case Unregister => HandlerServes(v, hs); assert w == v.(h := w.h, reg := false);
      case LocalBreaks => HandlerServes(v, hs); assert w == v.(h := w.h);
      case _ => HandlerWaits(v, hs); assert w == v.(h := w.h);
    }
  }

  lemma ReaderMoves(v: View, rs: ReaderStep)
    requires StreamInv(v) && v.t.Some? && ReaderCan(v.t.value, rs)
    requires v.downOk ==> ReaderFrames(v.t.value, rs) == []
    ensures StreamInv(v.(t := Some(TargetAfter(v.t.value, rs)), sreg := v.sreg && !rs.DropTarget?))
  {
    if rs.ReadTarget? && rs.data == [] { assert v.t.value.rd + [] == v.t.value.rd; }
  }

  lemma ReaderKeeps(v: View, rs: ReaderStep)
    requires StreamInv(v) && v.t.Some? && ReaderCan(v.t.value, rs)
    ensures StreamInv(ReaderView(v, rs))
  {
    hide StreamInv;
    var t := TargetAfter(v.t.value, rs);
    var fs := ReaderFrames(v.t.value, rs);
    if v.downOk && fs != [] {
      ReaderSends(v, fs[0], t.reader);
      assert ReaderView(v, rs) == v.(down := v.down + [fs[0]], t := Some(t));
    } else {
      ReaderMoves(v, rs);
      assert ReaderView(v, rs) == v.(t := Some(t), sreg := v.sreg && !rs.DropTarget?);
    }
  }

  lemma ClientKeeps(v: View, cs: ClientStep)
    requires StreamInv(v)
    requires match cs
      case ClientDeliver => v.cl.Deliver? && v.h.slot == []
      case ClientWrite(n) => v.cl.WriteLocal? && n <= |v.cl.data|
      case ClientHangUp => v.cl.CloseLocal?
      case _ => false
    ensures StreamInv(ClientView(v, cs))
  {
    hide ServerInv, UpShape, DownShape, PhaseInv, LocalReadInv, TargetWriteInv, TargetReadInv, DataOf;
    if cs.ClientWrite? { LocalWritten(v, cs.n); }
    if cs.ClientDeliver? { assert v.h.slot + [v.cl.ok] == [v.cl.ok]; }
  }

  // A dial decided, a reader started, a target closed, a reply lost.
  lemma ServerMoves(v: View, ss: ServerStep, n: nat)
    requires StreamInv(v) && ViewCan(v, ss)
    requires ss.Dialed? || ss.Spawn? || ss.ServerHangUp? || ((ss.SendFail? || ss.SendOk?) && !v.downOk)
    ensures StreamInv(ServerView(v, ss, n))
  {
    hide UpShape, DownShape, PhaseInv, ResultInv, LocalReadInv, LocalWriteInv, DataOf;
    assert v.down + [] == v.down;
  }

  lemma ServerKeeps(v: View, ss: ServerStep, n: nat)
    requires StreamInv(v) && ViewCan(v, ss)
    requires v.sl.Refused? || v.sl.Connected? ==> v.sl.id == v.h.id
    ensures StreamInv(ServerView(v, ss, n))
  {
    hide StreamInv;
    var w := ServerView(v, ss, n);
    match ss {
      case RegisterTarget => TargetRegistered(v, n);
      case ServerWrite(m) => TargetWritten(v, m);
      case SendFail =>
        if v.downOk {
          ServerAnswers(v, DialFail(v.sl.id), w.sl);
          assert w == v.(down := v.down + [DialFail(v.sl.id)], sl := w.sl);
        } else {
          ServerMoves(v, ss, n);
        }
      case SendOk =>
        if v.downOk {
          ServerAnswers(v, DialOk(v.t.value.id), w.sl);
          assert w == v.(down := v.down + [DialOk(v.t.value.id)], sl := w.sl);
        } else {
          ServerMoves(v, ss, n);
        }
      case _ => ServerMoves(v, ss, n);
    }
  }

  // The end of the session closes a target that is in the table.
  lemma SessionEndKeeps(v: View)
    requires StreamInv(v) && v.sreg
    ensures v.t.Some? && StreamInv(v.(t := Some(v.t.value.Shut())))
  {
    hide UpShape, DownShape, PhaseInv, ResultInv, LocalReadInv, LocalWriteInv, DataOf;
  }

  // What the read loop may do about the stream's next frame, and the outcome.
  predicate ClientMay(v: View, act: ClientAct) {
    && v.cl == Nothing && |v.dgot| < |v.down|
    && var f := v.down[|v.dgot|];
       match f
       case DialOk(_) => act == Nothing || (act.Deliver? && act.ok)
       case DialFail(_) => act == Nothing || (act.Deliver? && !act.ok)
       case Data(_, data) => if v.reg && data != [] then act.WriteLocal? && act.data == data else act == Nothing
       case Close(_) => if v.reg then act.CloseLocal? else act == Nothing
       case _ => true
  }

  function ClientRecvView(v: View, act: ClientAct): View
    requires ClientMay(v, act)
  {
    var f := v.down[|v.dgot|];
    v.(dgot := v.dgot + [f], reg := v.reg && !f.Close?, cl := act)
  }

  lemma ServerFrames(v: View, j: nat)
    requires StreamInv(v) && j < |v.down|
    ensures v.down[j].DialOk? || v.down[j].DialFail? || v.down[j].Data? || v.down[j].Close?
  {
  }

  lemma ClientRecvKeeps(v: View, act: ClientAct)
    requires StreamInv(v) && ClientMay(v, act)
    ensures StreamInv(ClientRecvView(v, act))
  {
    hide StreamInv;
    var f, w := v.down[|v.dgot|], ClientRecvView(v, act);
    ServerFrames(v, |v.dgot|);
    if f.Data? {
      ClientReadsData(v, act);
      assert w == ClientGot(v).(cl := act);
    } else if f.Close? {
      ClientReadsClose(v, act);
    } else {
      ClientReadsResult(v, act);
      assert w == ClientGot(v).(cl := act);
    }
  }

  predicate ServerMay(v: View, act: ServerAct) {
    && v.sl == Turn(Skip) && |v.got| < |v.up|
    && var f := v.up[|v.got|];
       match f
       case Dial(_) => act == DialTarget(v.h.id)
       case Data(_, data) => if v.sreg && data != [] then act.WriteTarget? && act.data == data else act == Skip
       case Close(_) => if v.sreg then act.CloseTarget? else act == Skip
       case _ => true
  }

  function ServerRecvView(v: View, act: ServerAct): View
    requires ServerMay(v, act)
  {
    var f := v.up[|v.got|];
    v.(got := v.got + [f], sreg := v.sreg && !f.Close?, sl := Turn(act))
  }

  lemma ClientFrames(v: View, j: nat)
    requires StreamInv(v) && j < |v.up|
    ensures v.up[j].Dial? || v.up[j].Data? || v.up[j].Close?
  {
  }

  lemma ServerRecvKeeps(v: View, act: ServerAct)
    requires StreamInv(v) && ServerMay(v, act)
    ensures StreamInv(ServerRecvView(v, act))
  {
    hide StreamInv;
    var f, w := v.up[|v.got|], ServerRecvView(v, act);
    ClientFrames(v, |v.got|);
    if f.Data? {
      ServerReadsData(v, act);
      assert w == ServerGot(v).(sl := Turn(act));
    } else if f.Close? {
      ServerReadsClose(v, act);
    } else {
      ServerReadsDial(v);
      assert w == ServerGot(v).(sl := Turn(act));
    }
  }
}
