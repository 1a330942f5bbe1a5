/** The frames of proxy mode and the two lookup tables that give them meaning:
    the client's `proxyMux` and the stream map of the server's `handleProxyConn`.
    A local connection is named by the number of the handler that owns it, a
    target connection by the number of the successful dial that opened it. */
module ProxyWire {
  import opened Bytes

  type Id = Uint32

  // `Ignored` stands for a frame the receiving switch skips: a payload that is
  // too short or does not decode, or a type it has no case for.
  datatype Frame =
    | Dial(id: Id)
    | DialOk(id: Id)
    | DialFail(id: Id)
    | Data(id: Id, data: Bytes)
    | Close(id: Id)
    | Ping
    | Pong
    | Disconnect
    | Ignored
  {
    predicate Carries(i: Id) {
      (Dial? || DialOk? || DialFail? || Data? || Close?) && id == i
    }
  }

  // ---------------------------------------------------------------- client

  datatype ClientTable = ClientTable(nextID: Id, pending: map<Id, nat>, streams: map<Id, nat>)

  // What the read loop goes on to do once it has left its critical section.
  datatype ClientAct =
    | Nothing
    | Deliver(h: nat, ok: bool)
    | WriteLocal(h: nat, data: Bytes)
    | CloseLocal(h: nat)
    | Answer
    | Stop

  // The number atomic.AddUint32 returns: it wraps around.
  function NextId(t: ClientTable): Id {
    (t.nextID + 1) % 0x1_0000_0000
  }

  function ClientDispatch(t: ClientTable, f: Frame): (ClientTable, ClientAct) {
    match f
    case DialOk(id) =>
      (t.(pending := t.pending - {id}), if id in t.pending then Deliver(t.pending[id], true) else Nothing)
    case DialFail(id) =>
      (t.(pending := t.pending - {id}), if id in t.pending then Deliver(t.pending[id], false) else Nothing)
    case Data(id, data) =>
      (t, if id in t.streams && |data| > 0 then WriteLocal(t.streams[id], data) else Nothing)
    case Close(id) =>
      (t.(streams := t.streams - {id}), if id in t.streams then CloseLocal(t.streams[id]) else Nothing)
    case Ping => (t, Answer)
    case Disconnect => (t, Stop)
    case _ => (t, Nothing)
  }

  function ClientDispatchAll(t: ClientTable, fs: seq<Frame>): (ClientTable, seq<ClientAct>) {
    if fs == [] then (t, []) else
    var (t1, acts) := ClientDispatchAll(t, fs[..|fs| - 1]);
    if acts != [] && acts[|acts| - 1] == Stop then (t1, acts) else
    var (t2, act) := ClientDispatch(t1, fs[|fs| - 1]);
    (t2, acts + [act])
  }

  // The frames up to and with the first Disconnect, all of them if there is none.
  function UpToDisconnect(fs: seq<Frame>): (n: nat)
    ensures n <= |fs| && forall i :: 0 <= i < n - 1 ==> !fs[i].Disconnect?
    ensures n < |fs| ==> n > 0 && fs[n - 1].Disconnect?
  {
    if fs == [] then 0
    else
      var n := UpToDisconnect(fs[..|fs| - 1]);
      if n > 0 && fs[n - 1].Disconnect? then n else |fs|
  }

  lemma StopMeansDisconnect(t: ClientTable, f: Frame)
    ensures ClientDispatch(t, f).1 == Stop <==> f.Disconnect?
  {
  }

  // Each act is the dispatch of its frame in the table its predecessors left.
  lemma {:induction false} ActsInOrder(t: ClientTable, fs: seq<Frame>, i: nat)
    requires i < |ClientDispatchAll(t, fs).1|
    ensures |ClientDispatchAll(t, fs).1| <= |fs|
    ensures ClientDispatchAll(t, fs).1[i] == ClientDispatch(ClientDispatchAll(t, fs[..i]).0, fs[i]).1
    decreases |fs|
  {
    hide ClientDispatch;
    var m := |fs| - 1;
    var acts := ClientDispatchAll(t, fs[..m]).1;
    if i < |acts| {
      ActsInOrder(t, fs[..m], i);
      assert fs[..m][..i] == fs[..i];
    } else if acts != [] {
      ActsInOrder(t, fs[..m], |acts| - 1);
      AllOrStopped(t, fs[..m]);
    }
  }

  lemma {:induction false} AllOrStopped(t: ClientTable, fs: seq<Frame>)
    ensures var acts := ClientDispatchAll(t, fs).1; |acts| == |fs| || (acts != [] && acts[|acts| - 1] == Stop)
    decreases |fs|
  {
    hide ClientDispatch;
    if fs != [] { AllOrStopped(t, fs[..|fs| - 1]); }
  }

  // The loop deals with exactly the frames up to the first Disconnect.
  lemma {:induction false} LoopEndsAtDisconnect(t: ClientTable, fs: seq<Frame>)
    ensures |ClientDispatchAll(t, fs).1| == UpToDisconnect(fs)
    ensures ClientDispatchAll(t, fs) == ClientDispatchAll(t, fs[..UpToDisconnect(fs)])
  {
    hide ClientDispatch;
    if fs != [] {
      var init := fs[..|fs| - 1];
      LoopEndsAtDisconnect(t, init);
      var n := UpToDisconnect(init);
      assert init[..n] == fs[..n] && fs[..|fs|] == fs;
      if n > 0 {
        ActsInOrder(t, init, n - 1);
        StopMeansDisconnect(ClientDispatchAll(t, init[..n - 1]).0, init[n - 1]);
      }
    }
  }

  class ProxyMux {
    var nextID: Id
    var pending: map<Id, nat>
    var streams: map<Id, nat>

    function Table(): ClientTable
      reads this
    {
      ClientTable(nextID, pending, streams)
    }

    constructor ()
      ensures Table() == ClientTable(0, map[], map[])
    {
      nextID, pending, streams := 0, map[], map[];
    }

    method NewId() returns (id: Id)
      modifies this`nextID
      ensures id == NextId(old(Table())) && nextID == id
    {
      nextID := (nextID + 1) % 0x1_0000_0000;
      id := nextID;
    }

    method AddPending(id: Id, h: nat)
      modifies this`pending
      ensures pending == old(pending)[id := h]
      ensures ClientDispatch(Table(), DialOk(id)).1 == Deliver(h, true)
      ensures ClientDispatch(Table(), DialFail(id)).1 == Deliver(h, false)
      ensures forall f: Frame :: !f.Carries(id) ==> ClientDispatch(Table(), f).1 == ClientDispatch(old(Table()), f).1
    {
      pending := pending[id := h];
    }

    method DropPending(id: Id)
      modifies this`pending
      ensures pending == old(pending) - {id}
      ensures ClientDispatch(Table(), DialOk(id)).1 == ClientDispatch(Table(), DialFail(id)).1 == Nothing
    {
      pending := pending - {id};
    }

    method AddStream(id: Id, h: nat)
      modifies this`streams
      ensures streams == old(streams)[id := h]
      ensures forall data: Bytes :: data != [] ==> ClientDispatch(Table(), Data(id, data)).1 == WriteLocal(h, data)
      ensures ClientDispatch(Table(), Close(id)).1 == CloseLocal(h)
      ensures forall f: Frame :: !f.Carries(id) ==> ClientDispatch(Table(), f).1 == ClientDispatch(old(Table()), f).1
    {
      streams := streams[id := h];
    }

    method DropStream(id: Id)
      modifies this`streams
      ensures streams == old(streams) - {id}
      ensures forall data: Bytes :: ClientDispatch(Table(), Data(id, data)).1 == Nothing
    {
      streams := streams - {id};
    }

    // The critical sections of one turn of readLoop.
    method Dispatch(f: Frame) returns (act: ClientAct)
      modifies this`pending, this`streams
      ensures (Table(), act) == ClientDispatch(old(Table()), f)
      ensures act == Stop <==> f == Disconnect
      ensures act == Answer <==> f == Ping
      ensures forall h, ok :: act == Deliver(h, ok) <==>
        (if ok then f.DialOk? else f.DialFail?) && f.id in old(pending) && old(pending)[f.id] == h
      ensures forall h, data :: act == WriteLocal(h, data) <==>
        f.Data? && f.data == data != [] && f.id in old(streams) && old(streams)[f.id] == h
      ensures forall h :: act == CloseLocal(h) <==> f.Close? && f.id in old(streams) && old(streams)[f.id] == h
      ensures pending == if f.DialOk? || f.DialFail? then old(pending) - {f.id} else old(pending)
      ensures streams == if f.Close? then old(streams) - {f.id} else old(streams)
    {
      act := Nothing;
      match f {
        case DialOk(id) =>
          if id in pending { act := Deliver(pending[id], true); }
          DropPending(id);
        case DialFail(id) =>
          if id in pending { act := Deliver(pending[id], false); }
          DropPending(id);
        case Data(id, data) =>
          if id in streams && |data| > 0 { act := WriteLocal(streams[id], data); }
        case Close(id) =>
          if id in streams { act := CloseLocal(streams[id]); }
          DropStream(id);
        case Ping => act := Answer;
        case Disconnect => act := Stop;
        case _ =>
      }
    }

    // The loop itself, while no handler interferes: it stops at a Disconnect.
    method ReadLoop(frames: seq<Frame>) returns (acts: seq<ClientAct>)
      modifies this`pending, this`streams
      ensures (Table(), acts) == ClientDispatchAll(old(Table()), frames)
      ensures |acts| == UpToDisconnect(frames)
    {
      acts := [];
      var stopped := false;
      for i := 0 to |frames|
        invariant (Table(), acts) == ClientDispatchAll(old(Table()), frames[..i])
        invariant stopped == (acts != [] && acts[|acts| - 1] == Stop)
      {
        assert frames[..i + 1][..i] == frames[..i];
        if !stopped {
          var act := Dispatch(frames[i]);
          acts := acts + [act];
          stopped := act == Stop;
        }
      }
      assert frames[..|frames|] == frames;
      hide ClientDispatchAll, UpToDisconnect;
      LoopEndsAtDisconnect(old(Table()), frames);
    }
  }

  // ---------------------------------------------------------------- server

  datatype ServerAct =
    | Skip
    | DialTarget(id: Id)
    | WriteTarget(t: nat, data: Bytes)
    | CloseTarget(t: nat)
    | Reply
    | Return

  function ServerDispatch(streams: map<Id, nat>, f: Frame): (map<Id, nat>, ServerAct) {
    match f
    case Dial(id) => (streams, DialTarget(id))
    case Data(id, data) =>
      (streams, if id in streams && |data| > 0 then WriteTarget(streams[id], data) else Skip)
    case Close(id) =>
      (streams - {id}, if id in streams then CloseTarget(streams[id]) else Skip)
    case Ping => (streams, Reply)
    case Disconnect => (streams, Return)
    case _ => (streams, Skip)
  }

  class ProxySession {
    var streams: map<Id, nat>

    constructor ()
      ensures streams == map[]
    {
      streams := map[];
    }

    method AddStream(id: Id, t: nat)
      modifies this
      ensures streams == old(streams)[id := t]
      ensures forall data: Bytes :: data != [] ==> ServerDispatch(streams, Data(id, data)).1 == WriteTarget(t, data)
      ensures ServerDispatch(streams, Close(id)).1 == CloseTarget(t)
      ensures forall f: Frame :: !f.Carries(id) ==> ServerDispatch(streams, f).1 == ServerDispatch(old(streams), f).1
    {
      streams := streams[id := t];
    }

    // The deferred cleanup of a target's reader.
    method DropStream(id: Id)
      modifies this
      ensures streams == old(streams) - {id}
      ensures forall data: Bytes :: ServerDispatch(streams, Data(id, data)).1 == Skip
    {
      streams := streams - {id};
    }

    // The critical sections of one turn of the frame loop.
    method Dispatch(f: Frame) returns (act: ServerAct)
      modifies this
      ensures (streams, act) == ServerDispatch(old(streams), f)
      ensures act == Return <==> f == Disconnect
      ensures act == Reply <==> f == Ping
      ensures forall id :: act == DialTarget(id) <==> f == Dial(id)
      ensures forall t, data :: act == WriteTarget(t, data) <==>
        f.Data? && f.data == data != [] && f.id in old(streams) && old(streams)[f.id] == t
      ensures forall t :: act == CloseTarget(t) <==> f.Close? && f.id in old(streams) && old(streams)[f.id] == t
      ensures streams == if f.Close? then old(streams) - {f.id} else old(streams)
    {
      act := Skip;
      match f {
        case Dial(id) => act := DialTarget(id);
        case Data(id, data) =>
          if id in streams && |data| > 0 { act := WriteTarget(streams[id], data); }
        case Close(id) =>
          if id in streams { act := CloseTarget(streams[id]); }
          DropStream(id);
        case Ping => act := Reply;
        case Disconnect => act := Return;
        case _ =>
      }
    }
  }

  // A Close for an id that is not in the table changes nothing at either end.
  lemma UnknownCloseIsIgnored(t: ClientTable, streams: map<Id, nat>, id: Id)
    ensures ClientDispatch(t, Close(id)) == (t, Nothing) <==> id !in t.streams
    ensures ServerDispatch(streams, Close(id)) == (streams, Skip) <==> id !in streams
  {
    if id !in t.streams { assert t.streams - {id} == t.streams; }
    if id !in streams { assert streams - {id} == streams; }
  }
}
