/** The device port: stream states, callbacks from the Bluetooth stack, and the waits of Start and Suspend. */
module AudioPort {
  import opened Wrappers
  import opened AudioSession

  datatype StreamState = DISABLED | STANDBY | STARTING | STARTED | SUSPENDING

  /** The handler distinguishes these three kinds of report. */
  datatype Status = SUCCESS | RECONFIGURATION | FAILURE

  datatype Callback = ControlResult(status: Status) | SessionChanged

  datatype AudioDevice =
    | OUT_BLUETOOTH_A2DP | OUT_BLUETOOTH_A2DP_HEADPHONES | OUT_BLUETOOTH_A2DP_SPEAKER
    | OUT_HEARING_AID | OUT_BLE_HEADSET | OUT_BLE_SPEAKER | IN_BLE_HEADSET | OUT_BLE_BROADCAST
    | OTHER_DEVICE

  function SessionTypeFor(device: AudioDevice): (t: Option<SessionType>)
    ensures t.Some? ==> t.value.Software()
  {
    match device
    case OUT_BLUETOOTH_A2DP => Some(A2DP_SOFTWARE_ENCODING_DATAPATH)
    case OUT_BLUETOOTH_A2DP_HEADPHONES => Some(A2DP_SOFTWARE_ENCODING_DATAPATH)
    case OUT_BLUETOOTH_A2DP_SPEAKER => Some(A2DP_SOFTWARE_ENCODING_DATAPATH)
    case OUT_HEARING_AID => Some(HEARING_AID_SOFTWARE_ENCODING_DATAPATH)
    case OUT_BLE_HEADSET => Some(LE_AUDIO_SOFTWARE_ENCODING_DATAPATH)
    case OUT_BLE_SPEAKER => Some(LE_AUDIO_SOFTWARE_ENCODING_DATAPATH)
    case IN_BLE_HEADSET => Some(LE_AUDIO_SOFTWARE_DECODING_DATAPATH)
    case OUT_BLE_BROADCAST => Some(LE_AUDIO_BROADCAST_SOFTWARE_ENCODING_DATAPATH)
    case OTHER_DEVICE => None
  }

  /** Which devices share a session: A2DP for its three output devices, LE Audio encoding for headset and speaker; every
      other known device has a session of its own. */
  lemma DevicesOfSessions(d: AudioDevice)
    ensures SessionTypeFor(d) == Some(A2DP_SOFTWARE_ENCODING_DATAPATH) <==>
              d in {OUT_BLUETOOTH_A2DP, OUT_BLUETOOTH_A2DP_HEADPHONES, OUT_BLUETOOTH_A2DP_SPEAKER}
    ensures SessionTypeFor(d) == Some(LE_AUDIO_SOFTWARE_ENCODING_DATAPATH) <==> d in {OUT_BLE_HEADSET, OUT_BLE_SPEAKER}
    ensures SessionTypeFor(d) == Some(HEARING_AID_SOFTWARE_ENCODING_DATAPATH) <==> d == OUT_HEARING_AID
    ensures SessionTypeFor(d) == Some(LE_AUDIO_SOFTWARE_DECODING_DATAPATH) <==> d == IN_BLE_HEADSET
    ensures SessionTypeFor(d) == Some(LE_AUDIO_BROADCAST_SOFTWARE_ENCODING_DATAPATH) <==> d == OUT_BLE_BROADCAST
    ensures SessionTypeFor(d) == None <==> d == OTHER_DEVICE
  {
  }

  /** The state after a control report or a session change. */
  function AfterCallback(s: StreamState, c: Callback): StreamState {
    match c
    case SessionChanged => DISABLED
    case ControlResult(status) =>
      match s
      case STARTED => if status == FAILURE then STARTED else STANDBY
      case STARTING => if status == SUCCESS then STARTED else STANDBY
      case SUSPENDING => if status == SUCCESS then STANDBY else DISABLED
      case _ => s
  }

  function AfterCallbacks(s: StreamState, cs: seq<Callback>): StreamState {
    if cs == [] then s else AfterCallback(AfterCallbacks(s, cs[..|cs| - 1]), cs[|cs| - 1])
  }

  // ---------- What the waits can observe ----------

  /** A wait from STARTING ends in STARTED exactly when the first report is a success and only failures follow it. */
  lemma {:induction false} StartedAfterWait(cs: seq<Callback>)
    ensures AfterCallbacks(STARTING, cs) == STARTED
       <==> cs != [] && cs[0] == ControlResult(SUCCESS)
            && forall i | 0 < i < |cs| :: cs[i] == ControlResult(FAILURE)
    ensures cs != [] ==> AfterCallbacks(STARTING, cs) in {STARTED, STANDBY, DISABLED}
  {
    if |cs| > 1 {
      StartedAfterWait(cs[..|cs| - 1]);
    } else if |cs| == 1 {
      assert cs[..0] == [];
    }
  }

  /** A wait from SUSPENDING ends in STANDBY exactly when the first report is a success and no session change follows. */
  lemma {:induction false} StandbyAfterWait(cs: seq<Callback>)
    ensures AfterCallbacks(SUSPENDING, cs) == STANDBY
       <==> cs != [] && cs[0] == ControlResult(SUCCESS) && forall i | 0 < i < |cs| :: cs[i] != SessionChanged
    ensures cs != [] ==> AfterCallbacks(SUSPENDING, cs) in {STANDBY, DISABLED}
  {
    if |cs| > 1 {
      StandbyAfterWait(cs[..|cs| - 1]);
    } else if |cs| == 1 {
      assert cs[..0] == [];
    }
  }

  lemma {:induction false} CallbacksKeepDisabled(cs: seq<Callback>)
    ensures AfterCallbacks(DISABLED, cs) == DISABLED
  {
    if cs == [] {
    } else {
      CallbacksKeepDisabled(cs[..|cs| - 1]);
    }
  }

  // ---------- The port ----------

  datatype PortState = PortState(cookie: Cookie, state: StreamState, sessionType: SessionType) {
    predicate InUse() {
      cookie != COOKIE_UNDEFINED
    }

    predicate A2dp() {
      sessionType in {A2DP_SOFTWARE_ENCODING_DATAPATH, A2DP_HARDWARE_OFFLOAD_ENCODING_DATAPATH}
    }

    /** A callback registered under `c` reaches the port only while the port is in use under that cookie. */
    function Called(c: Cookie, callback: Callback): PortState {
      if InUse() && cookie == c then this.(state := AfterCallback(state, callback)) else this
    }
  }

  /** The ports that answer to an A2DP suspension are those of the three A2DP output devices. */
  lemma A2dpDevices(port: PortState, d: AudioDevice)
    requires SessionTypeFor(d) == Some(port.sessionType)
    ensures port.A2dp() <==> d in {OUT_BLUETOOTH_A2DP, OUT_BLUETOOTH_A2DP_HEADPHONES, OUT_BLUETOOTH_A2DP_SPEAKER}
  {
  }

  const NEW_PORT := PortState(COOKIE_UNDEFINED, DISABLED, UNKNOWN)

  class BluetoothAudioPort {
    var cookie: Cookie
    var state: StreamState
    var sessionType: SessionType

    ghost function State(): PortState
      reads this
    {
      PortState(cookie, state, sessionType)
    }

    predicate InUse()
      reads this
    {
      cookie != COOKIE_UNDEFINED
    }

    predicate IsA2dp(): (a2dp: bool)
      reads this
      ensures a2dp == State().A2dp()
    {
      sessionType in {A2DP_SOFTWARE_ENCODING_DATAPATH, A2DP_HARDWARE_OFFLOAD_ENCODING_DATAPATH}
    }

    constructor ()
      ensures State() == NEW_PORT
    {
      cookie, state, sessionType := COOKIE_UNDEFINED, DISABLED, UNKNOWN;
    }

    /** Joins the device's session; succeeds exactly when the device is known, the session ready and a cookie free. */
    method SetUp(device: AudioDevice, session: BluetoothAudioSession, port: nat) returns (ok: bool)
      requires SessionTypeFor(device).Some? ==> session.sessionType == SessionTypeFor(device).value
      modifies this, session
      ensures ok <==> SessionTypeFor(device).Some? && old(session.State()).Ready()
                      && exists c: Cookie :: InCookieRange(session.sessionType, c) && c !in old(session.observers)
      ensures ok ==>
        && InUse() && State() == PortState(cookie, STANDBY, session.sessionType)
        && InCookieRange(session.sessionType, cookie) && IsNextCookie(session.sessionType, old(session.observers), cookie)
        && session.State() == old(session.State()).(observers := old(session.observers)[cookie := port])
      ensures !ok ==> session.State() == old(session.State())
      ensures !ok && SessionTypeFor(device).None? ==> State() == old(State())
      ensures !ok && SessionTypeFor(device).Some? && !old(session.State()).Ready() ==>
                State() == old(State()).(sessionType := session.sessionType)
      ensures !ok && SessionTypeFor(device).Some? && old(session.State()).Ready() ==>
                State() == PortState(COOKIE_UNDEFINED, STANDBY, session.sessionType)
    {
      var t := SessionTypeFor(device);
      if t.None? {
        return false;
      }
      sessionType := t.value;
      if !session.IsSessionReady() {
        return false;
      }
      state := STANDBY;
      cookie := session.RegisterStatusCback(port);
      return cookie != COOKIE_UNDEFINED;
    }

    method TearDown(session: BluetoothAudioSession)
      modifies this, session
      ensures State() == old(State()).(cookie := COOKIE_UNDEFINED)
      ensures session.State() == if old(InUse())
                                 then old(session.State()).(observers := old(session.observers) - {old(cookie)})
                                 else old(session.State())
    {
      if !InUse() {
        return;
      }
      session.UnregisterStatusCback(cookie);
      cookie := COOKIE_UNDEFINED;
    }

    method ControlResultHandler(status: Status)
      modifies this
      ensures State() == if old(InUse()) then old(State()).(state := AfterCallback(old(state), ControlResult(status)))
                         else old(State())
      ensures cookie == old(cookie) && sessionType == old(sessionType)
      ensures !old(InUse()) || old(state) in {DISABLED, STANDBY} ==> state == old(state)
      ensures old(InUse()) && old(state) == STARTED ==> state == if status == FAILURE then STARTED else STANDBY
      ensures old(InUse()) && old(state) == STARTING ==> state == if status == SUCCESS then STARTED else STANDBY
      ensures old(InUse()) && old(state) == SUSPENDING ==> state == if status == SUCCESS then STANDBY else DISABLED
    {
      if !InUse() {
        return;
      }
      match state
      case STARTED =>
        if status == RECONFIGURATION || status == SUCCESS {
          state := STANDBY;
        }
      case STARTING =>
        state := if status == SUCCESS then STARTED else STANDBY;
      case SUSPENDING =>
        state := if status == SUCCESS then STANDBY else DISABLED;
      case _ =>
    }

    method SessionChangedHandler()
      modifies this
      ensures State() == if old(InUse()) then old(State()).(state := DISABLED) else old(State())
    {
      if !InUse() {
        return;
      }
      state := DISABLED;
    }

    /** The callbacks handed to the session: ignored by a port that is not in use under the given cookie. */
    method Callback(c: Cookie, callback: Callback)
      modifies this
      ensures State() == old(State()).Called(c, callback)
    {
      if !InUse() || cookie != c {
        return;
      }
      match callback
      case ControlResult(status) => ControlResultHandler(status);
      case SessionChanged => SessionChangedHandler();
    }

    /** Everything the stack reports to this port while a call waits. */
    method Wait(during: seq<Callback>)
      modifies this
      ensures State() == if old(InUse()) then old(State()).(state := AfterCallbacks(old(state), during)) else old(State())
    {
      var i := 0;
      while i < |during|
        invariant 0 <= i <= |during|
        invariant State() == if old(InUse()) then old(State()).(state := AfterCallbacks(old(state), during[..i]))
                             else old(State())
      {
        assert during[..i + 1][..i] == during[..i];
        Callback(cookie, during[i]);
        i := i + 1;
      }
      assert during[..i] == during;
    }

    /** `halAccepts` is the answer to StartStream; `during` are the reports up to the end of the wait.
        True means that the first of them was a success, delivered to the STARTING port, and that it is STARTED. */
    method Start(halAccepts: bool, during: seq<Callback>) returns (ok: bool)
      modifies this
      ensures State() == if old(InUse()) && old(state) == STANDBY
                         then old(State()).(state := AfterCallbacks(STARTING, during)) else old(State())
      ensures ok <==> old(InUse()) && old(state) == STANDBY && halAccepts && state == STARTED
      ensures ok ==> during != [] && during[0] == ControlResult(SUCCESS)
    {
      if !InUse() {
        return false;
      }
      ok := false;
      if state == STANDBY {
        state := STARTING;
        Wait(during);
        ok := halAccepts && state != STARTING && state == STARTED;
        StartedAfterWait(during);
      }
    }

    /** True means that the first report was a success, delivered to the SUSPENDING port, and that it is STANDBY. */
    method Suspend(halAccepts: bool, during: seq<Callback>) returns (ok: bool)
      modifies this
      ensures State() == if old(InUse()) && old(state) == STARTED
                         then old(State()).(state := AfterCallbacks(SUSPENDING, during)) else old(State())
      ensures ok <==> old(InUse()) && old(state) == STARTED && halAccepts && state == STANDBY
      ensures ok ==> during != [] && during[0] == ControlResult(SUCCESS)
    {
      if !InUse() {
        return false;
      }
      ok := false;
      if state == STARTED {
        state := SUSPENDING;
        Wait(during);
        ok := halAccepts && state != SUSPENDING && state == STANDBY;
        StandbyAfterWait(during);
      }
    }

    method Stop()
      modifies this
      ensures State() == if old(InUse()) then old(State()).(state := DISABLED) else old(State())
    {
      if InUse() {
        state := DISABLED;
      }
    }

    method SetState(s: StreamState)
      modifies this
      ensures State() == old(State()).(state := s)
    {
      state := s;
    }
  }

  // ---------- Runs of one port's stream state ----------

  /** What can change the stream state: reports, the first step of Start and Suspend, Stop, and the two states
      that the stream's parameters set. */
  datatype PortEvent = Report(callback: Callback) | BeginStart | BeginSuspend | StopCalled | Disable | Enable

  function PortStep(s: StreamState, e: PortEvent): StreamState {
    match e
    case Report(c) => AfterCallback(s, c)
    case BeginStart => if s == STANDBY then STARTING else s
    case BeginSuspend => if s == STARTED then SUSPENDING else s
    case StopCalled => DISABLED
    case Disable => DISABLED
    case Enable => if s == DISABLED then STANDBY else s
  }

  function StateAfter(events: seq<PortEvent>): StreamState {
    if events == [] then STANDBY else PortStep(StateAfter(events[..|events| - 1]), events[|events| - 1])
  }

  /** Event i begins a start of the idle port, and no later event before k moves the port. */
  ghost predicate StartPending(events: seq<PortEvent>, i: nat, k: nat) {
    && i < k <= |events| && events[i] == BeginStart && StateAfter(events[..i]) == STANDBY
    && forall j: nat | i < j < k :: events[j] in {BeginStart, BeginSuspend, Enable}
  }

  lemma {:induction false} StartingIsPending(events: seq<PortEvent>) returns (i: nat)
    requires StateAfter(events) == STARTING
    ensures StartPending(events, i, |events|)
    decreases |events|
  {
    var n := |events| - 1;
    var earlier := events[..n];
    if StateAfter(earlier) == STARTING {
      i := StartingIsPending(earlier);
      assert events[..i] == earlier[..i];
      assert forall j: nat | i < j < n :: events[j] == earlier[j];
    } else {
      i := n;
    }
  }

  /** In every run a STARTED port got there through a start of the idle port whose next report was a success,
      and since then saw nothing but failures and calls that leave a started port alone. */
  lemma {:induction false} StartedHistory(events: seq<PortEvent>) returns (i: nat, k: nat)
    requires StateAfter(events) == STARTED
    ensures StartPending(events, i, k) && k < |events| && events[k] == Report(ControlResult(SUCCESS))
    ensures forall j: nat | k < j < |events| :: events[j] in {Report(ControlResult(FAILURE)), BeginStart, Enable}
    decreases |events|
  {
    var n := |events| - 1;
    var earlier := events[..n];
    if StateAfter(earlier) == STARTED {
      i, k := StartedHistory(earlier);
      assert forall j: nat | k < j < n :: events[j] == earlier[j];
    } else {
      i := StartingIsPending(earlier);
      k := n;
    }
    assert events[..i] == earlier[..i];
    assert forall j: nat | i < j < k :: events[j] == earlier[j];
  }

  /** In every run SUSPENDING is entered only from STARTED. */
  lemma {:induction false} SuspendingHistory(events: seq<PortEvent>) returns (i: nat)
    requires StateAfter(events) == SUSPENDING
    ensures i < |events| && events[i] == BeginSuspend && StateAfter(events[..i]) == STARTED
    ensures forall j: nat | i < j < |events| :: events[j] in {BeginStart, BeginSuspend, Enable}
    decreases |events|
  {
    var n := |events| - 1;
    var earlier := events[..n];
    if StateAfter(earlier) == SUSPENDING {
      i := SuspendingHistory(earlier);
      assert events[..i] == earlier[..i];
      assert forall j: nat | i < j < n :: events[j] == earlier[j];
    } else {
      i := n;
    }
  }
}
