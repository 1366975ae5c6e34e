/** Open and close counting of the audio HAL device and its stream wrappers. */
module HalLifecycle {

  datatype Result = OK | INVALID_STATE | FAILED

  /** halCloses counts calls into the HAL's device close; fatal records a failed count check. */
  datatype DeviceState = DeviceState(openedStreams: int, isClosed: bool, halCloses: nat, fatal: bool)

  /** A stream wrapper; halCloses counts calls into the HAL's stream close for its stream. */
  datatype StreamState = StreamState(stop: bool, destroyed: bool, halCloses: nat)

  const NEW_DEVICE := DeviceState(0, false, 0, false)
  const NEW_STREAM := StreamState(false, false, 0)

  // ---------- What the methods do, on values ----------

  function HalClosed(d: DeviceState): DeviceState {
    if d.openedStreams == 0 then d.(fatal := true) else d.(openedStreams := d.openedStreams - 1)
  }

  /** Up to version 5 closing only stops the worker thread; from version 6 on it closes the HAL stream. */
  function Closed(version: nat, d: DeviceState, s: StreamState): (Result, DeviceState, StreamState) {
    if s.stop then (INVALID_STATE, d, s)
    else if version >= 6 then (OK, HalClosed(d), s.(stop := true, halCloses := s.halCloses + 1))
    else (OK, d, s.(stop := true))
  }

  function Destroyed(version: nat, d: DeviceState, s: StreamState): (DeviceState, StreamState) {
    var (_, d', s') := Closed(version, d, s);
    if version <= 5 then (HalClosed(d'), s'.(halCloses := s'.halCloses + 1, destroyed := true))
    else (d', s'.(destroyed := true))
  }

  function DeviceClosed(d: DeviceState): (Result, DeviceState) {
    if d.isClosed || d.openedStreams != 0 then (INVALID_STATE, d)
    else (OK, d.(isClosed := true, halCloses := d.halCloses + 1))
  }

  // ---------- The objects ----------

  class Device {
    var mOpenedStreamsCount: int
    var mIsClosed: bool
    var halCloses: nat
    var fatal: bool

    ghost function State(): DeviceState
      reads this
    {
      DeviceState(mOpenedStreamsCount, mIsClosed, halCloses, fatal)
    }

    constructor ()
      ensures State() == NEW_DEVICE
    {
      mOpenedStreamsCount, mIsClosed, halCloses, fatal := 0, false, 0, false;
    }

    method OpenOutputStream(halAccepts: bool) returns (stream: StreamOut?)
      modifies this
      ensures stream == null <==> !halAccepts
      ensures State() == if halAccepts then old(State()).(openedStreams := old(State()).openedStreams + 1) else old(State())
      ensures stream != null ==> fresh(stream) && stream.mDevice == this && stream.State() == NEW_STREAM
    {
      stream := null;
      if halAccepts {
        stream := new StreamOut(this);
        mOpenedStreamsCount := mOpenedStreamsCount + 1;
      }
    }

    method OpenInputStream(halAccepts: bool) returns (stream: StreamIn?)
      modifies this
      ensures stream == null <==> !halAccepts
      ensures State() == if halAccepts then old(State()).(openedStreams := old(State()).openedStreams + 1) else old(State())
      ensures stream != null ==> fresh(stream) && stream.mDevice == this && stream.State() == NEW_STREAM
    {
      stream := null;
      if halAccepts {
        stream := new StreamIn(this);
        mOpenedStreamsCount := mOpenedStreamsCount + 1;
      }
    }

    method CloseOutputStream(stream: StreamOut)
      modifies this, stream`halCloses
      ensures State() == HalClosed(old(State())) && stream.halCloses == old(stream.halCloses) + 1
      ensures if old(mOpenedStreamsCount) == 0 then fatal else mOpenedStreamsCount == old(mOpenedStreamsCount) - 1 && fatal == old(fatal)
    {
      stream.halCloses := stream.halCloses + 1;
      if mOpenedStreamsCount == 0 {
        fatal := true;
        return;
      }
      mOpenedStreamsCount := mOpenedStreamsCount - 1;
    }

    method CloseInputStream(stream: StreamIn)
      modifies this, stream`halCloses
      ensures State() == HalClosed(old(State())) && stream.halCloses == old(stream.halCloses) + 1
      ensures if old(mOpenedStreamsCount) == 0 then fatal else mOpenedStreamsCount == old(mOpenedStreamsCount) - 1 && fatal == old(fatal)
    {
      stream.halCloses := stream.halCloses + 1;
      if mOpenedStreamsCount == 0 {
        fatal := true;
        return;
      }
      mOpenedStreamsCount := mOpenedStreamsCount - 1;
    }

    /** `status` is what the HAL answers to the device close. */
    method DoClose(status: Result) returns (result: Result)
      modifies this
      ensures State() == DeviceClosed(old(State())).1
      ensures result == if DeviceClosed(old(State())).0 == OK then status else INVALID_STATE
      ensures old(mIsClosed) || old(mOpenedStreamsCount) != 0 ==> result == INVALID_STATE && halCloses == old(halCloses)
      ensures !old(mIsClosed) && old(mOpenedStreamsCount) == 0 ==>
                result == status && mIsClosed && halCloses == old(halCloses) + 1
    {
      if mIsClosed || mOpenedStreamsCount != 0 {
        return INVALID_STATE;
      }
      mIsClosed := true;
      halCloses := halCloses + 1;
      return status;
    }
  }

  class StreamOut {
    const mDevice: Device
    var mStopWriteThread: bool
    var halCloses: nat
    var destroyed: bool

    ghost function State(): StreamState
      reads this
    {
      StreamState(mStopWriteThread, destroyed, halCloses)
    }

    constructor (device: Device)
      ensures mDevice == device && State() == NEW_STREAM
    {
      mDevice := device;
      mStopWriteThread, halCloses, destroyed := false, 0, false;
    }

    method Close(version: nat) returns (result: Result)
      modifies this, mDevice
      ensures (result, mDevice.State(), State()) == Closed(version, old(mDevice.State()), old(State()))
      ensures result == (if old(mStopWriteThread) then INVALID_STATE else OK) && mStopWriteThread
      ensures halCloses == old(halCloses) + (if !old(mStopWriteThread) && version >= 6 then 1 else 0)
    {
      if mStopWriteThread {
        return INVALID_STATE;
      }
      mStopWriteThread := true;
      if version >= 6 {
        mDevice.CloseOutputStream(this);
      }
      return OK;
    }

    method Destroy(version: nat)
      modifies this, mDevice
      ensures (mDevice.State(), State()) == Destroyed(version, old(mDevice.State()), old(State()))
      ensures destroyed && mStopWriteThread
      ensures halCloses == old(halCloses) + (if version <= 5 || !old(mStopWriteThread) then 1 else 0)
    {
      var _ := Close(version);
      if version <= 5 {
        mDevice.CloseOutputStream(this);
      }
      destroyed := true;
    }
  }

  class StreamIn {
    const mDevice: Device
    var mStopReadThread: bool
    var halCloses: nat
    var destroyed: bool

    ghost function State(): StreamState
      reads this
    {
      StreamState(mStopReadThread, destroyed, halCloses)
    }

    constructor (device: Device)
      ensures mDevice == device && State() == NEW_STREAM
    {
      mDevice := device;
      mStopReadThread, halCloses, destroyed := false, 0, false;
    }

    method Close(version: nat) returns (result: Result)
      modifies this, mDevice
      ensures (result, mDevice.State(), State()) == Closed(version, old(mDevice.State()), old(State()))
      ensures result == (if old(mStopReadThread) then INVALID_STATE else OK) && mStopReadThread
      ensures halCloses == old(halCloses) + (if !old(mStopReadThread) && version >= 6 then 1 else 0)
    {
      if mStopReadThread {
        return INVALID_STATE;
      }
      mStopReadThread := true;
      if version >= 6 {
        mDevice.CloseInputStream(this);
      }
      return OK;
    }

    method Destroy(version: nat)
      modifies this, mDevice
      ensures (mDevice.State(), State()) == Destroyed(version, old(mDevice.State()), old(State()))
      ensures destroyed && mStopReadThread
      ensures halCloses == old(halCloses) + (if version <= 5 || !old(mStopReadThread) then 1 else 0)
    {
      var _ := Close(version);
      if version <= 5 {
        mDevice.CloseInputStream(this);
      }
      destroyed := true;
    }
  }

  // ---------- Runs ----------

  /** A device with every stream ever opened on it. */
  datatype World = World(device: DeviceState, streams: seq<StreamState>, gone: bool)

  datatype Event =
    | Open(halAccepts: bool)
    | Close(stream: nat)
    | Destroy(stream: nat)
    | CloseDevice
    | DestroyDevice

  /** Wrappers are used until destroyed; each holds a reference to the device, which dies after the last of them. */
  predicate Possible(version: nat, w: World, e: Event) {
    !w.gone &&
    match e
    case Open(_) => true
    case Close(i) => i < |w.streams| && !w.streams[i].destroyed
    case Destroy(i) => i < |w.streams| && !w.streams[i].destroyed
    case CloseDevice => version >= 6
    case DestroyDevice => forall s | s in w.streams :: s.destroyed
  }

  function Step(version: nat, w: World, e: Event): World
    requires Possible(version, w, e)
  {
    match e
    case Open(halAccepts) =>
      if halAccepts
      then w.(device := w.device.(openedStreams := w.device.openedStreams + 1), streams := w.streams + [NEW_STREAM])
      else w
    case Close(i) =>
      var (_, d, s) := Closed(version, w.device, w.streams[i]);
      w.(device := d, streams := w.streams[i := s])
    case Destroy(i) =>
      var (d, s) := Destroyed(version, w.device, w.streams[i]);
      w.(device := d, streams := w.streams[i := s])
    case CloseDevice => w.(device := DeviceClosed(w.device).1)
    case DestroyDevice => w.(device := DeviceClosed(w.device).1, gone := true)
  }

  /** `worlds` are the successive states of a run through `events`. */
  ghost predicate Run(version: nat, events: seq<Event>, worlds: seq<World>) {
    && |worlds| == |events| + 1
    && worlds[0] == World(NEW_DEVICE, [], false)
    && forall i: nat | i < |events| ::
         Possible(version, worlds[i], events[i]) && worlds[i + 1] == Step(version, worlds[i], events[i])
  }

  /** HAL streams opened and not yet closed. */
  function OpenCount(streams: seq<StreamState>): nat {
    if streams == [] then 0
    else OpenCount(streams[..|streams| - 1]) + if streams[|streams| - 1].halCloses == 0 then 1 else 0
  }

  lemma {:induction false} OpenCountUpdate(streams: seq<StreamState>, i: nat, s: StreamState)
    requires i < |streams|
    ensures OpenCount(streams[i := s]) + (if streams[i].halCloses == 0 then 1 else 0)
         == OpenCount(streams) + (if s.halCloses == 0 then 1 else 0)
  {
    var n := |streams| - 1;
    if i < n {
      OpenCountUpdate(streams[..n], i, s);
      assert streams[i := s][..n] == streams[..n][i := s];
    } else {
      assert streams[i := s][..n] == streams[..n];
    }
  }

  lemma {:induction false} NoneOpen(streams: seq<StreamState>)
    ensures OpenCount(streams) == 0 <==> forall s | s in streams :: s.halCloses != 0
  {
    if streams == [] {
    } else {
      NoneOpen(streams[..|streams| - 1]);
      assert streams == streams[..|streams| - 1] + [streams[|streams| - 1]];
    }
  }

  /** From version 6 on a HAL stream is closed with its stop flag, before that with its wrapper. */
  predicate StreamInv(version: nat, s: StreamState) {
    && s.halCloses == (if (if version >= 6 then s.stop else s.destroyed) then 1 else 0)
    && (s.destroyed ==> s.stop)
  }

  ghost predicate Inv(version: nat, w: World) {
    && w.device.openedStreams == OpenCount(w.streams)
    && !w.device.fatal
    && w.device.halCloses == (if w.device.isClosed then 1 else 0)
    && (forall s | s in w.streams :: StreamInv(version, s))
    && (w.gone ==> w.device.isClosed && w.device.openedStreams == 0)
  }

  lemma StreamUpdated(version: nat, w: World, i: nat, s: StreamState)
    requires Inv(version, w) && i < |w.streams| && StreamInv(version, s)
    ensures OpenCount(w.streams[i := s]) + (if w.streams[i].halCloses == 0 then 1 else 0)
         == OpenCount(w.streams) + (if s.halCloses == 0 then 1 else 0)
    ensures forall t | t in w.streams[i := s] :: StreamInv(version, t)
    ensures w.streams[i].halCloses == 0 ==> OpenCount(w.streams) > 0
    ensures StreamInv(version, w.streams[i])
  {
    OpenCountUpdate(w.streams, i, s);
    NoneOpen(w.streams);
  }

  lemma StepKeepsInv(version: nat, w: World, e: Event)
    requires Inv(version, w) && Possible(version, w, e)
    ensures Inv(version, Step(version, w, e))
    ensures Step(version, w, e).device.halCloses > w.device.halCloses ==> w.device.openedStreams == 0
  {
    match e
    case Open(_) =>
      assert (w.streams + [NEW_STREAM])[..|w.streams|] == w.streams;
    case Close(i) =>
      assert StreamInv(version, w.streams[i]);
      var (_, _, s) := Closed(version, w.device, w.streams[i]);
      StreamUpdated(version, w, i, s);
    case Destroy(i) =>
      assert StreamInv(version, w.streams[i]);
      var (_, s) := Destroyed(version, w.device, w.streams[i]);
      StreamUpdated(version, w, i, s);
    case CloseDevice =>
    case DestroyDevice =>
      NoneOpen(w.streams);
  }

  lemma {:induction false} RunKeepsInv(version: nat, events: seq<Event>, worlds: seq<World>, n: nat)
    requires Run(version, events, worlds) && n < |worlds|
    ensures Inv(version, worlds[n])
  {
    if n == 0 {
    } else {
      RunKeepsInv(version, events, worlds, n - 1);
      StepKeepsInv(version, worlds[n - 1], events[n - 1]);
    }
  }

  /** In every run, of either version: the count is exact, the fatal check never fires, a destroyed wrapper's HAL
      stream was closed exactly once, and the HAL device is closed at most once, only at count zero, and by the end. */
  lemma LifecycleSafe(version: nat, events: seq<Event>, worlds: seq<World>, n: nat)
    requires Run(version, events, worlds) && n < |worlds|
    ensures var w := worlds[n];
            && w.device.openedStreams == OpenCount(w.streams) && !w.device.fatal
            && (forall s | s in w.streams :: s.halCloses <= 1 && (s.destroyed ==> s.halCloses == 1))
            && w.device.halCloses <= 1
            && (w.gone ==> w.device.halCloses == 1 && w.device.openedStreams == 0)
    ensures n > 0 && worlds[n].device.halCloses > worlds[n - 1].device.halCloses ==>
              worlds[n - 1].device.openedStreams == 0
  {
    RunKeepsInv(version, events, worlds, n);
    assert forall s | s in worlds[n].streams :: StreamInv(version, s);
    if n > 0 {
      RunKeepsInv(version, events, worlds, n - 1);
      StepKeepsInv(version, worlds[n - 1], events[n - 1]);
    }
  }

  // ---------- Streams on a closed device ----------

  /** The device does not look at its closed flag when it opens a stream: from version 6 on a stream can live on a
      closed device. */
  lemma StreamOnClosedDevice(version: nat) returns (events: seq<Event>, worlds: seq<World>)
    requires version >= 6
    ensures Run(version, events, worlds) && events == [CloseDevice, Open(true)]
    ensures worlds[2].device.isClosed && OpenCount(worlds[2].streams) == 1
  {
    var w0 := World(NEW_DEVICE, [], false);
    var w1 := Step(version, w0, CloseDevice);
    var w2 := Step(version, w1, Open(true));
    events, worlds := [CloseDevice, Open(true)], [w0, w1, w2];
    assert w2.streams[..0] == [];
  }

  /** The caller's condition: no stream is opened while the device is closed. */
  ghost predicate OpensInTime(events: seq<Event>, worlds: seq<World>)
    requires |worlds| > |events|
  {
    forall i: nat | i < |events| && worlds[i].device.isClosed :: events[i] != Open(true)
  }

  ghost predicate EmptyWhenClosed(worlds: seq<World>) {
    forall n: nat | n < |worlds| && worlds[n].device.isClosed :: OpenCount(worlds[n].streams) == 0
  }

  lemma {:induction false} ClosedIsEmpty(version: nat, events: seq<Event>, worlds: seq<World>, n: nat)
    requires Run(version, events, worlds) && n < |worlds| && OpensInTime(events, worlds) && worlds[n].device.isClosed
    ensures OpenCount(worlds[n].streams) == 0
  {
    if n == 0 {
    } else {
      RunKeepsInv(version, events, worlds, n);
      RunKeepsInv(version, events, worlds, n - 1);
      if worlds[n - 1].device.isClosed {
        ClosedIsEmpty(version, events, worlds, n - 1);
      }
    }
  }

  /** In a run no HAL stream is ever open on a closed device if and only if none is opened while it is closed. */
  lemma NoStreamOnClosedDevice(version: nat, events: seq<Event>, worlds: seq<World>)
    requires Run(version, events, worlds)
    ensures EmptyWhenClosed(worlds) <==> OpensInTime(events, worlds)
  {
    if OpensInTime(events, worlds) {
      forall n: nat | n < |worlds| && worlds[n].device.isClosed ensures OpenCount(worlds[n].streams) == 0 {
        ClosedIsEmpty(version, events, worlds, n);
      }
    }
    forall i: nat | i < |events| && worlds[i].device.isClosed && events[i] == Open(true)
      ensures !EmptyWhenClosed(worlds)
    {
      RunKeepsInv(version, events, worlds, i);
      RunKeepsInv(version, events, worlds, i + 1);
      assert worlds[i + 1].device.isClosed && OpenCount(worlds[i + 1].streams) != 0;
    }
  }
}
