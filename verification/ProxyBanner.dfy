/** A run that loses bytes: the target speaks first, and the client reads what it
    said before the handler that dialled has entered its table. */
module ProxyBanner {
  import opened Bytes
  import opened ProxyWire
  import opened ProxySystem

  lemma Onward(steps: seq<Step>, step: Step)
    requires IsRun(steps) && Enabled(After(steps), step)
    ensures IsRun(steps + [step]) && After(steps + [step]) == Apply(After(steps), step)
  {
    assert (steps + [step])[..|steps|] == steps;
    hide Apply, Enabled;
  }

  // One handler and the target it has dialled; the queues as far as they got.
  function OneStream(tab: ClientTable, h: Handler, cloop: ClientAct, down: seq<Frame>, got: nat, t: Target): State {
    State(tab, [h], cloop, [Dial(1)], 1, down, got, map[1 := 0], [t], Turn(Skip), true, true, false)
  }

  const WAITING := ClientTable(1, map[1 := 0], map[])
  const ANSWERED := ClientTable(1, map[], map[])
  const LISTENING := ClientTable(1, map[], map[1 := 0])

  const BANNER := [Data(1, [7])]
  const REST := [Data(1, [8])]

  function Spoken(rd: Bytes): Target {
    NewTarget(1).(reader := Reading, rd := rd)
  }

  lemma NothingDone()
    ensures IsRun([]) && After([]) == Init()
  {
  }

  lemma Requested() returns (steps: seq<Step>)
    ensures IsRun(steps) && Honest(steps)
    ensures After(steps) ==
      State(WAITING, [Handler(1, Awaiting, [], 0, [], [], [], true, false)], Nothing, [Dial(1)], 1, [], 0,
            map[], [], Turn(DialTarget(1)), true, true, false)
  {
    hide IsRun, After, Only, DataOf;
    NothingDone();
    steps := [];
    Onward(steps, Accept);
    steps := steps + [Accept];
    Onward(steps, OfHandler(0, AddPending));
    steps := steps + [OfHandler(0, AddPending)];
    Onward(steps, OfHandler(0, SendDial));
    steps := steps + [OfHandler(0, SendDial)];
    Onward(steps, OfServer(ServerRecv));
    steps := steps + [OfServer(ServerRecv)];
  }

  lemma Opened() returns (steps: seq<Step>)
    ensures IsRun(steps) && Honest(steps)
    ensures After(steps) ==
      OneStream(WAITING, Handler(1, Awaiting, [], 0, [], [], [], true, false), Nothing, [DialOk(1)], 0, Spoken([]))
  {
    hide IsRun, After;
    steps := Requested();
    Onward(steps, OfServer(Dialed(true)));
    steps := steps + [OfServer(Dialed(true))];
    Onward(steps, OfServer(RegisterTarget));
    steps := steps + [OfServer(RegisterTarget)];
    Onward(steps, OfServer(SendOk));
    steps := steps + [OfServer(SendOk)];
    Onward(steps, OfServer(Spawn));
    steps := steps + [OfServer(Spawn)];
  }

  // The target speaks, and both frames wait for the client.
  lemma Greeted() returns (steps: seq<Step>)
    ensures IsRun(steps) && Honest(steps)
    ensures After(steps) ==
      OneStream(WAITING, Handler(1, Awaiting, [], 0, [], [], [], true, false), Nothing,
                [DialOk(1)] + BANNER, 0, Spoken([7]))
  {
    hide IsRun, After;
    steps := Opened();
    Onward(steps, OfReader(0, ReadTarget([7], false)));
    steps := steps + [OfReader(0, ReadTarget([7], false))];
    Onward(steps, OfReader(0, SendTargetData));
    steps := steps + [OfReader(0, SendTargetData)];
    assert [] + [7] == [7];
    assert After(steps).targets == [Spoken([7])];
    assert After(steps).down == [DialOk(1)] + BANNER;
  }

  // The read loop delivers the OK and passes the data by.
  lemma PassedBy() returns (steps: seq<Step>)
    ensures IsRun(steps) && Honest(steps)
    ensures After(steps) ==
      OneStream(ANSWERED, Handler(1, Awaiting, [true], 1, [], [], [], true, false), Nothing,
                [DialOk(1)] + BANNER, 2, Spoken([7]))
  {
    hide IsRun, After;
    steps := Greeted();
    Onward(steps, OfClient(ClientRecv));
    steps := steps + [OfClient(ClientRecv)];
    Onward(steps, OfClient(ClientDeliver));
    steps := steps + [OfClient(ClientDeliver)];
    Onward(steps, OfClient(ClientRecv));
    steps := steps + [OfClient(ClientRecv)];
    assert [] + [true] == [true] && After(steps).tab.pending == map[];
    assert After(steps).handlers == [Handler(1, Awaiting, [true], 1, [], [], [], true, false)];
  }

  lemma SkippedBanner()
    ensures DataOf(Only(([DialOk(1)] + BANNER)[..2], 1)) == [7]
  {
    var banner := BANNER[0];
    assert Only([], 1) == [] && DataOf([]) == [];
    hide Only, DataOf;
    OnlyAppend([], DialOk(1), 1);
    OnlyAppend([DialOk(1)], banner, 1);
    DataOfAppend([], DialOk(1));
    DataOfAppend([DialOk(1)], banner);
    assert [] + [DialOk(1)] == [DialOk(1)];
    assert ([DialOk(1)] + BANNER)[..2] == [DialOk(1)] + [banner];
    assert [] + banner.data == banner.data;
  }

  // Only now the handler registers, and the target speaks on.
  lemma Registered() returns (steps: seq<Step>)
    ensures IsRun(steps) && Honest(steps)
    ensures After(steps) ==
      OneStream(LISTENING, Handler(1, Active, [], 1, [], [], [7], true, false), Nothing,
                [DialOk(1)] + BANNER, 2, Spoken([7]))
  {
    hide IsRun, After, Only, DataOf;
    steps := PassedBy();
    Onward(steps, OfHandler(0, TakeResult));
    steps := steps + [OfHandler(0, TakeResult)];
    SkippedBanner();
    Onward(steps, OfHandler(0, Register));
    steps := steps + [OfHandler(0, Register)];
    assert [true][1..] == [];
    assert After(steps).tab.streams == map[1 := 0];
    assert After(steps).handlers == [Handler(1, Active, [], 1, [], [], [7], true, false)];
    assert After(steps).up == [Dial(1)];
  }

  lemma SpokenOn() returns (steps: seq<Step>)
    ensures IsRun(steps) && Honest(steps)
    ensures After(steps) ==
      OneStream(LISTENING, Handler(1, Active, [], 1, [], [], [7], true, false), Nothing,
                [DialOk(1)] + BANNER + REST, 2, Spoken([7, 8]))
  {
    hide IsRun, After, Only, DataOf;
    steps := Registered();
    Onward(steps, OfReader(0, ReadTarget([8], false)));
    steps := steps + [OfReader(0, ReadTarget([8], false))];
    Onward(steps, OfReader(0, SendTargetData));
    steps := steps + [OfReader(0, SendTargetData)];
    assert [7] + [8] == [7, 8];
    assert After(steps).targets == [Spoken([7, 8])];
    assert After(steps).down == [DialOk(1)] + BANNER + REST;
  }

  // The socket gets the second byte and never the first, though nothing has failed.
  lemma BannerIsLost() returns (steps: seq<Step>)
    ensures IsRun(steps) && Honest(steps)
    ensures
      var s := After(steps);
      && |s.handlers| == 1 && |s.targets| == 1 && s.handlers[0].id == s.targets[0].id
      && s.upOk && s.downOk && !s.cancelled && s.handlers[0].writable && s.downGot == |s.down|
      && s.targets[0].rd == [7, 8] && s.handlers[0].wr == [8]
  {
    hide IsRun, After, Only, DataOf;
    steps := SpokenOn();
    Onward(steps, OfClient(ClientRecv));
    steps := steps + [OfClient(ClientRecv)];
    Onward(steps, OfClient(ClientWrite(1)));
    steps := steps + [OfClient(ClientWrite(1))];
  }
}
