/** Many ports and all sessions, interleaved: who owns which cookie, and who hears of a session's end. */
module PortProtocol {
  import opened Wrappers
  import opened AudioSession
  import opened AudioPort

  type PortId = nat

  /** How far a port has come: SetUp and TearDown take several steps between which others may run. */
  datatype Phase =
    | New                          // constructed
    | Idle                         // session found ready, state STANDBY, not yet registered
    | Registered(granted: Cookie)  // the session holds the callbacks, the port does not know its cookie yet
    | Live                         // set up
    | Leaving                      // unregistered, cookie not yet cleared
    | Dead                         // SetUp failed or TearDown finished: to be deleted

  datatype Port = Port(state: PortState, phase: Phase)

  datatype World = World(sessions: map<SessionType, SessionState>, ports: map<PortId, Port>)

  datatype Event =
    | SessionStart(t: SessionType, stackGiven: bool, mq: Option<bool>, config: AudioConfiguration)
    | SessionEnd(t: SessionType)
    | ConfigReport(t: SessionType, config: AudioConfiguration)
    | ControlReport(t: SessionType, status: Status)
    | CreatePort(p: PortId)
    | InitPort(p: PortId, device: AudioDevice)
    | Register(p: PortId, cookie: Cookie)
    | StoreCookie(p: PortId)
    | PortCall(p: PortId, call: PortEvent)
    | Unregister(p: PortId)
    | ClearCookie(p: PortId)

  const START: map<SessionType, SessionState> := map t: SessionType | true :: NewSession(t)

  ghost predicate Initial(w: World) {
    w == World(START, map[])
  }

  /** Of the observers only the entry under the port's own cookie can get through to it. */
  function Delivered(s: PortState, p: PortId, observers: Observers, callback: Callback): PortState {
    if s.cookie in observers && observers[s.cookie] == p then s.Called(s.cookie, callback) else s
  }

  /** The port is reached by a callback registered under the cookie. */
  function Deliver(ports: map<PortId, Port>, observers: Observers, callback: Callback): map<PortId, Port> {
    map p | p in ports :: ports[p].(state := Delivered(ports[p].state, p, observers, callback))
  }

  ghost predicate Possible(w: World, e: Event) {
    match e
    case SessionStart(_, _, _, _) => true
    case SessionEnd(_) => true
    case ConfigReport(_, _) => true
    case ControlReport(_, _) => true
    case CreatePort(p) => p !in w.ports
    case InitPort(p, _) => p in w.ports && w.ports[p].phase == New
    case Register(p, cookie) =>
      p in w.ports && w.ports[p].phase == Idle && w.ports[p].state.sessionType in w.sessions
      && IsNextCookie(w.ports[p].state.sessionType, w.sessions[w.ports[p].state.sessionType].observers, cookie)
    case StoreCookie(p) => p in w.ports && w.ports[p].phase.Registered?
    case PortCall(p, call) => p in w.ports && w.ports[p].phase == Live && !call.Report?
    case Unregister(p) => p in w.ports && w.ports[p].phase == Live && w.ports[p].state.sessionType in w.sessions
    case ClearCookie(p) => p in w.ports && w.ports[p].phase == Leaving
  }

  ghost predicate AllSessions(w: World) {
    forall t: SessionType :: t in w.sessions && w.sessions[t].typ == t
  }

  ghost function Step(w: World, e: Event): World
    requires AllSessions(w) && Possible(w, e)
  {
    match e
    case SessionStart(t, stackGiven, mq, config) =>
      var s := w.sessions[t];
      World(w.sessions[t := s.Started(stackGiven, mq, config)],
            if s.StartSucceeds(stackGiven, mq, config) then Deliver(w.ports, s.observers, SessionChanged) else w.ports)
    case SessionEnd(t) =>
      var s := w.sessions[t];
      World(w.sessions[t := s.Ended()],
            if s.Ready() then Deliver(w.ports, s.observers, SessionChanged) else w.ports)
    case ConfigReport(t, config) =>
      w.(sessions := w.sessions[t := w.sessions[t].ConfigChanged(config)])
    case ControlReport(t, status) =>
      w.(ports := Deliver(w.ports, w.sessions[t].observers, ControlResult(status)))
    case CreatePort(p) =>
      w.(ports := w.ports[p := Port(NEW_PORT, New)])
    case InitPort(p, device) =>
      var t := SessionTypeFor(device);
      var s := w.ports[p].state;
      w.(ports := w.ports[p :=
        if t.None? then Port(s, Dead)
        else if !w.sessions[t.value].Ready() then Port(s.(sessionType := t.value), Dead)
        else Port(s.(sessionType := t.value, state := STANDBY), Idle)])
    case Register(p, cookie) =>
      var t := w.ports[p].state.sessionType;
      if cookie == COOKIE_UNDEFINED then w.(ports := w.ports[p := w.ports[p].(phase := Dead)])
      else World(w.sessions[t := w.sessions[t].(observers := w.sessions[t].observers[cookie := p])],
                 w.ports[p := w.ports[p].(phase := Registered(cookie))])
    case StoreCookie(p) =>
      var port := w.ports[p];
      w.(ports := w.ports[p := Port(port.state.(cookie := port.phase.granted), Live)])
    case PortCall(p, call) =>
      var port := w.ports[p];
      w.(ports := w.ports[p := port.(state := port.state.(state := PortStep(port.state.state, call)))])
    case Unregister(p) =>
      var port := w.ports[p];
      var t := port.state.sessionType;
      World(w.sessions[t := w.sessions[t].(observers := w.sessions[t].observers - {port.state.cookie})],
            w.ports[p := port.(phase := Leaving)])
    case ClearCookie(p) =>
      w.(ports := w.ports[p := Port(w.ports[p].state.(cookie := COOKIE_UNDEFINED), Dead)])
  }

  // ---------- The invariant ----------

  /** The cookie under which a session holds the port's callbacks. */
  function HeldCookie(port: Port): Option<Cookie> {
    match port.phase
    case Registered(granted) => Some(granted)
    case Live => Some(port.state.cookie)
    case _ => None
  }

  ghost predicate HeldAt(s: SessionState, cookie: Cookie, p: PortId) {
    cookie in s.observers && s.observers[cookie] == p
  }

  /** A port that is held has its cookie as a key of its own session; one that is not yet set up has none itself. */
  ghost predicate PortInv(w: World, p: PortId)
    requires AllSessions(w) && p in w.ports
  {
    var port := w.ports[p];
    && (HeldCookie(port).Some? ==>
          HeldAt(w.sessions[port.state.sessionType], HeldCookie(port).value, p) && port.state.sessionType != UNKNOWN)
    && (port.phase in {New, Idle} || port.phase.Registered? ==> port.state.cookie == COOKIE_UNDEFINED)
    && (port.phase == Idle ==> port.state.sessionType != UNKNOWN)
    && (port.phase == Idle || port.phase.Registered? ==> port.state.state == STANDBY)
  }

  /** Every observer entry is in the session's cookie range and stands for a port that is held under it. */
  ghost predicate ObserverInv(w: World, t: SessionType, c: Cookie)
    requires AllSessions(w) && c in w.sessions[t].observers
  {
    var p := w.sessions[t].observers[c];
    && InCookieRange(t, c)
    && p in w.ports && HeldCookie(w.ports[p]) == Some(c) && w.ports[p].state.sessionType == t
  }

  ghost predicate Inv(w: World) {
    && AllSessions(w)
    && (forall p | p in w.ports :: PortInv(w, p))
    && forall t: SessionType, c: Cookie | c in w.sessions[t].observers :: ObserverInv(w, t, c)
  }

  lemma InitialInv(w: World)
    requires Initial(w)
    ensures Inv(w)
  {
  }

  predicate SamePlace(a: Port, b: Port) {
    && a.phase == b.phase && a.state.cookie == b.state.cookie && a.state.sessionType == b.state.sessionType
    && (a.phase != Live && a.state.cookie == COOKIE_UNDEFINED ==> a.state == b.state)
  }

  /** w and v differ at most in session readiness and in stream states. */
  ghost predicate SameHolding(w: World, v: World)
    requires AllSessions(w)
  {
    && AllSessions(v)
    && (forall t: SessionType :: v.sessions[t].observers == w.sessions[t].observers)
    && v.ports.Keys == w.ports.Keys
    && forall p | p in w.ports :: SamePlace(w.ports[p], v.ports[p])
  }

  predicate Quiet(e: Event) {
    e.SessionStart? || e.SessionEnd? || e.ConfigReport? || e.ControlReport? || e.PortCall?
  }

  lemma DeliverKeeps(ports: map<PortId, Port>, observers: Observers, callback: Callback)
    ensures var after := Deliver(ports, observers, callback);
            after.Keys == ports.Keys && forall p | p in ports :: SamePlace(ports[p], after[p])
  {
  }

  /** A session moves on with the observers it has and may report to them. */
  lemma SessionKeepsHolding(w: World, t: SessionType, s: SessionState, callback: Option<Callback>)
    requires AllSessions(w) && s.typ == t && s.observers == w.sessions[t].observers
    ensures SameHolding(w, World(w.sessions[t := s],
                                 if callback.Some? then Deliver(w.ports, s.observers, callback.value) else w.ports))
  {
    if callback.Some? {
      DeliverKeeps(w.ports, s.observers, callback.value);
    }
  }

  lemma QuietKeepsHolding(w: World, e: Event)
    requires AllSessions(w) && Possible(w, e) && Quiet(e)
    ensures SameHolding(w, Step(w, e))
  {
    match e
    case SessionStart(t, stackGiven, mq, config) =>
      var s := w.sessions[t];
      SessionKeepsHolding(w, t, s.Started(stackGiven, mq, config),
                          if s.StartSucceeds(stackGiven, mq, config) then Some(SessionChanged) else None);
    case SessionEnd(t) =>
      SessionKeepsHolding(w, t, w.sessions[t].Ended(), if w.sessions[t].Ready() then Some(SessionChanged) else None);
    case ControlReport(t, status) =>
      SessionKeepsHolding(w, t, w.sessions[t], Some(ControlResult(status)));
      assert w.sessions[t := w.sessions[t]] == w.sessions;
    case ConfigReport(t, config) =>
      SessionKeepsHolding(w, t, w.sessions[t].ConfigChanged(config), None);
    case PortCall(_, _) =>
  }

  lemma HoldingKeepsInv(w: World, v: World)
    requires Inv(w) && SameHolding(w, v)
    ensures Inv(v)
  {
    forall p | p in v.ports ensures PortInv(v, p) {
      assert PortInv(w, p) && SamePlace(w.ports[p], v.ports[p]);
    }
    forall t: SessionType, c: Cookie | c in v.sessions[t].observers ensures ObserverInv(v, t, c) {
      assert ObserverInv(w, t, c);
    }
  }

  /** One port changes, sessions do not, and the port holds what it held. */
  lemma PortMoves(w: World, p: PortId, port: Port)
    requires Inv(w)
    requires HeldCookie(port) == if p in w.ports then HeldCookie(w.ports[p]) else None
    requires HeldCookie(port).Some? ==> port.state.sessionType == w.ports[p].state.sessionType
    requires port.phase in {New, Idle} || port.phase.Registered? ==> port.state.cookie == COOKIE_UNDEFINED
    requires port.phase == Idle ==> port.state.sessionType != UNKNOWN
    requires port.phase == Idle || port.phase.Registered? ==> port.state.state == STANDBY
    ensures Inv(w.(ports := w.ports[p := port]))
  {
    var v := w.(ports := w.ports[p := port]);
    forall q | q in v.ports ensures PortInv(v, q) {
      assert q in w.ports ==> PortInv(w, q);
    }
    forall t: SessionType, c: Cookie | c in v.sessions[t].observers ensures ObserverInv(v, t, c) {
      assert ObserverInv(w, t, c);
    }
  }

  lemma RegisterKeepsInv(w: World, p: PortId, cookie: Cookie)
    requires Inv(w) && Possible(w, Register(p, cookie)) && cookie != COOKIE_UNDEFINED
    ensures Inv(Step(w, Register(p, cookie)))
  {
    var v, t := Step(w, Register(p, cookie)), w.ports[p].state.sessionType;
    assert PortInv(w, p);
    forall q | q in v.ports ensures PortInv(v, q) {
      assert PortInv(w, q);
    }
    forall u: SessionType, c: Cookie | c in v.sessions[u].observers ensures ObserverInv(v, u, c) {
      if !(u == t && c == cookie) {
        assert ObserverInv(w, u, c);
      }
    }
  }

  lemma UnregisterKeepsInv(w: World, p: PortId)
    requires Inv(w) && Possible(w, Unregister(p))
    ensures Inv(Step(w, Unregister(p)))
  {
    var v, t, gone := Step(w, Unregister(p)), w.ports[p].state.sessionType, w.ports[p].state.cookie;
    assert PortInv(w, p);
    forall q | q in v.ports ensures PortInv(v, q) {
      assert PortInv(w, q);
    }
    forall u: SessionType, c: Cookie | c in v.sessions[u].observers ensures ObserverInv(v, u, c) {
      assert ObserverInv(w, u, c);
      assert c == gone ==> u != t;
    }
  }

  lemma StepKeepsInv(w: World, e: Event)
    requires Inv(w) && Possible(w, e)
    ensures Inv(Step(w, e))
  {
    if Quiet(e) {
      QuietKeepsHolding(w, e);
      HoldingKeepsInv(w, Step(w, e));
    } else {
      match e
      case CreatePort(p) => PortMoves(w, p, Port(NEW_PORT, New));
      case InitPort(p, _) =>
        assert PortInv(w, p);
        PortMoves(w, p, Step(w, e).ports[p]);
      case Register(p, cookie) =>
        if cookie == COOKIE_UNDEFINED {
          PortMoves(w, p, w.ports[p].(phase := Dead));
        } else {
          RegisterKeepsInv(w, p, cookie);
        }
      case StoreCookie(p) => PortMoves(w, p, Step(w, e).ports[p]);
      case Unregister(p) => UnregisterKeepsInv(w, p);
      case ClearCookie(p) => PortMoves(w, p, Step(w, e).ports[p]);
    }
  }

  // ---------- Runs ----------

  ghost predicate Run(events: seq<Event>, worlds: seq<World>) {
    && |worlds| == |events| + 1 && Initial(worlds[0])
    && forall i: nat | i < |events| ::
         AllSessions(worlds[i]) && Possible(worlds[i], events[i]) && worlds[i + 1] == Step(worlds[i], events[i])
  }

  lemma {:induction false} RunKeepsInv(events: seq<Event>, worlds: seq<World>, n: nat)
    requires Run(events, worlds) && n < |worlds|
    ensures Inv(worlds[n])
  {
    if n == 0 {
      InitialInv(worlds[0]);
    } else {
      RunKeepsInv(events, worlds, n - 1);
      StepKeepsInv(worlds[n - 1], events[n - 1]);
    }
  }

  // ---------- Cookies ----------

  /** The port is set up on the session. */
  ghost predicate LiveOn(w: World, p: PortId, t: SessionType) {
    AllSessions(w) && p in w.ports && w.ports[p].phase == Live && w.ports[p].state.sessionType == t
  }

  /** Over all interleavings: a live port's cookie is a key of its own session's observers, stands for that port and
      is never the undefined one; two live ports, of whatever session types, never share a cookie. */
  lemma LiveCookies(events: seq<Event>, worlds: seq<World>, n: nat, p: PortId, q: PortId)
    requires Run(events, worlds) && n < |worlds|
    requires p in worlds[n].ports && worlds[n].ports[p].phase == Live
    requires q in worlds[n].ports && worlds[n].ports[q].phase == Live
    ensures AllSessions(worlds[n])
    ensures var s := worlds[n].ports[p].state;
            && HeldAt(worlds[n].sessions[s.sessionType], s.cookie, p)
            && InCookieRange(s.sessionType, s.cookie)
            && s.InUse()
    ensures p != q ==> worlds[n].ports[p].state.cookie != worlds[n].ports[q].state.cookie
  {
    var w := worlds[n];
    RunKeepsInv(events, worlds, n);
    assert PortInv(w, p) && PortInv(w, q);
    var s, t := w.ports[p].state, w.ports[q].state;
    assert ObserverInv(w, s.sessionType, s.cookie) && ObserverInv(w, t.sessionType, t.cookie);
    if s.cookie == t.cookie {
      CookieNamesType(s.sessionType, t.sessionType, s.cookie);
    }
  }

  lemma {:induction false} RangeBoundsSize(s: set<Cookie>, low: int, n: nat)
    requires forall c | c in s :: low <= c < low + n
    ensures |s| <= n
    decreases n
  {
    if n == 0 {
      assert s == {};
    } else if c: Cookie :| c in s && c == low + n - 1 {
      RangeBoundsSize(s - {c}, low, n - 1);
    } else {
      RangeBoundsSize(s, low, n - 1);
    }
  }

  /** At most sixteen observers per session, hence at most sixteen live ports. */
  lemma AtMostSixteen(events: seq<Event>, worlds: seq<World>, n: nat, t: SessionType)
    requires Run(events, worlds) && n < |worlds|
    ensures AllSessions(worlds[n]) && |worlds[n].sessions[t].observers| <= 16
  {
    RunKeepsInv(events, worlds, n);
    var keys := worlds[n].sessions[t].observers.Keys;
    forall c | c in keys ensures InCookieRange(t, c) {
      assert ObserverInv(worlds[n], t, c);
    }
    RangeBoundsSize(keys, CookieInit(t), COOKIE_SIZE);
    assert |worlds[n].sessions[t].observers| == |keys|;
  }

  lemma {:induction false} InjectionBounds(cookies: map<PortId, Cookie>, keys: set<Cookie>)
    requires forall p | p in cookies :: cookies[p] in keys
    requires forall p, q | p in cookies && q in cookies && p != q :: cookies[p] != cookies[q]
    ensures |cookies| <= |keys|
    decreases |cookies|
  {
    if p :| p in cookies {
      InjectionBounds(cookies - {p}, keys - {cookies[p]});
    } else {
      assert |cookies| == 0;
    }
  }

  /** Hence at most sixteen live ports per session. */
  lemma AtMostSixteenLive(events: seq<Event>, worlds: seq<World>, n: nat, t: SessionType, live: set<PortId>)
    requires Run(events, worlds) && n < |worlds|
    requires forall p | p in live :: LiveOn(worlds[n], p, t)
    ensures |live| <= 16
  {
    AtMostSixteen(events, worlds, n, t);
    var keys := worlds[n].sessions[t].observers.Keys;
    forall p, q | p in live && q in live
      ensures worlds[n].ports[p].state.cookie in keys
      ensures p != q ==> worlds[n].ports[p].state.cookie != worlds[n].ports[q].state.cookie
    {
      LiveCookies(events, worlds, n, p, q);
    }
    var cookies := map p | p in live :: worlds[n].ports[p].state.cookie;
    InjectionBounds(cookies, keys);
    assert cookies.Keys == live;
    assert |cookies| == |cookies.Keys|;
  }

  // ---------- The end of a session ----------

  /** A session holds a port under the port's own cookie exactly when the port is live on it. */
  lemma HeldIfLive(w: World, p: PortId, t: SessionType)
    requires Inv(w) && p in w.ports
    ensures HeldAt(w.sessions[t], w.ports[p].state.cookie, p) <==> LiveOn(w, p, t)
    ensures LiveOn(w, p, t) ==> w.ports[p].state.InUse()
  {
    var port, observers := w.ports[p], w.sessions[t].observers;
    assert PortInv(w, p);
    if port.phase == Live {
      assert ObserverInv(w, port.state.sessionType, port.state.cookie);
    }
    if HeldAt(w.sessions[t], port.state.cookie, p) {
      assert ObserverInv(w, t, port.state.cookie);
    }
  }

  /** A report reaches the live ports of the session that makes it, and no other port. */
  lemma DeliveredTo(w: World, p: PortId, t: SessionType, callback: Callback)
    requires Inv(w) && p in w.ports
    ensures var port := w.ports[p];
            Deliver(w.ports, w.sessions[t].observers, callback)[p]
            == if LiveOn(w, p, t) then port.(state := port.state.(state := AfterCallback(port.state.state, callback)))
               else port
  {
    HeldIfLive(w, p, t);
    var s, observers := w.ports[p].state, w.sessions[t].observers;
    assert Deliver(w.ports, observers, callback)[p] == w.ports[p].(state := Delivered(s, p, observers, callback));
  }

  /** A ready session's end leaves a port of that session DISABLED if it is live, and touches no other port. */
  lemma EndReachesLivePorts(events: seq<Event>, worlds: seq<World>, n: nat, t: SessionType, p: PortId)
    requires Run(events, worlds) && n < |events| && events[n] == SessionEnd(t)
    requires AllSessions(worlds[n]) && worlds[n].sessions[t].Ready() && p in worlds[n].ports
    ensures var before := worlds[n].ports[p];
            worlds[n + 1].ports.Keys == worlds[n].ports.Keys
            && worlds[n + 1].ports[p]
               == if before.phase == Live && before.state.sessionType == t
                  then before.(state := before.state.(state := DISABLED))
                  else before
  {
    RunKeepsInv(events, worlds, n);
    DeliveredTo(worlds[n], p, t, SessionChanged);
  }

  /** The port has found its session ready: it waits for its cookie or has it. */
  predicate Joining(phase: Phase) {
    phase == Idle || phase.Registered? || phase == Live
  }

  /** Of the ports that have found a session ready, its end disables exactly the live ones: neither a port that has not
      registered yet, nor one that has registered but not stored its cookie, is reached. */
  lemma EndDisablesExactlyLive(events: seq<Event>, worlds: seq<World>, n: nat, t: SessionType, p: PortId)
    requires Run(events, worlds) && n < |events| && events[n] == SessionEnd(t)
    requires AllSessions(worlds[n]) && worlds[n].sessions[t].Ready() && p in worlds[n].ports
    requires worlds[n].ports[p].state.sessionType == t && Joining(worlds[n].ports[p].phase)
    ensures p in worlds[n + 1].ports
    ensures worlds[n + 1].ports[p].state.state == DISABLED <==> worlds[n].ports[p].phase == Live
  {
    RunKeepsInv(events, worlds, n);
    assert PortInv(worlds[n], p);
    EndReachesLivePorts(events, worlds, n, t, p);
  }

  /** A live port that idles on a session that is over. */
  ghost predicate Stranded(w: World, p: PortId) {
    && AllSessions(w) && p in w.ports && w.ports[p].phase == Live && w.ports[p].state.state == STANDBY
    && !w.sessions[w.ports[p].state.sessionType].Ready()
  }

  const SOFTWARE := A2DP_SOFTWARE_ENCODING_DATAPATH

  const GOOD_START := SessionStart(SOFTWARE, true, Some(true), AudioConfiguration(PcmConfig, 0))

  lemma Extended(events: seq<Event>, worlds: seq<World>, e: Event) returns (more: seq<Event>, after: seq<World>)
    requires Run(events, worlds) && AllSessions(worlds[|events|]) && Possible(worlds[|events|], e)
    ensures more == events + [e] && after == worlds + [Step(worlds[|events|], e)]
    ensures Run(more, after)
  {
    more, after := events + [e], worlds + [Step(worlds[|events|], e)];
  }

  /** A ready session without observers, and one port that has found it ready. */
  ghost predicate PortFoundSession(w: World) {
    && AllSessions(w) && w.sessions[SOFTWARE].Ready() && w.sessions[SOFTWARE].observers == map[]
    && w.ports == map[0 := Port(NEW_PORT.(sessionType := SOFTWARE, state := STANDBY), Idle)]
  }

  /** The first three steps of both runs: a ready session, and a port that has found it so. */
  lemma PortFindsSession() returns (events: seq<Event>, worlds: seq<World>)
    ensures Run(events, worlds) && |events| == 3 && PortFoundSession(worlds[3])
  {
    events, worlds := [], [World(START, map[])];
    events, worlds := Extended(events, worlds, GOOD_START);
    assert worlds[1].sessions[SOFTWARE].Ready();
    events, worlds := Extended(events, worlds, CreatePort(0));
    events, worlds := Extended(events, worlds, InitPort(0, OUT_BLUETOOTH_A2DP));
  }

  const REGISTER := Register(0, CookieInit(SOFTWARE))

  lemma EndAfterRegistering(w3: World) returns (w4: World, w5: World, w6: World)
    requires PortFoundSession(w3)
    ensures Possible(w3, REGISTER) && w4 == Step(w3, REGISTER) && AllSessions(w4)
    ensures w4.sessions[SOFTWARE].Ready() && 0 in w4.ports && w4.ports[0].phase.Registered?
    ensures Possible(w4, SessionEnd(SOFTWARE)) && w5 == Step(w4, SessionEnd(SOFTWARE)) && AllSessions(w5)
    ensures Possible(w5, StoreCookie(0)) && w6 == Step(w5, StoreCookie(0)) && Stranded(w6, 0)
  {
    w4 := Step(w3, REGISTER);
    w5 := Step(w4, SessionEnd(SOFTWARE));
    w6 := Step(w5, StoreCookie(0));
  }

  lemma EndBeforeRegistering(w3: World) returns (w4: World, w5: World, w6: World)
    requires PortFoundSession(w3)
    ensures Possible(w3, SessionEnd(SOFTWARE)) && w4 == Step(w3, SessionEnd(SOFTWARE)) && AllSessions(w4)
    ensures Possible(w4, REGISTER) && w5 == Step(w4, REGISTER) && AllSessions(w5)
    ensures Possible(w5, StoreCookie(0)) && w6 == Step(w5, StoreCookie(0)) && Stranded(w6, 0)
  {
    w4 := Step(w3, SessionEnd(SOFTWARE));
    w5 := Step(w4, REGISTER);
    w6 := Step(w5, StoreCookie(0));
  }

  /** The window after registration: the session ends before the port has stored its cookie, and that goes unnoticed. */
  lemma MissedAfterRegistering() returns (events: seq<Event>, worlds: seq<World>)
    ensures Run(events, worlds) && |events| == 6 && events[4] == SessionEnd(SOFTWARE) && AllSessions(worlds[4])
    ensures worlds[4].sessions[SOFTWARE].Ready() && 0 in worlds[4].ports && worlds[4].ports[0].phase.Registered?
    ensures Stranded(worlds[6], 0)
  {
    events, worlds := PortFindsSession();
    var w4, w5, w6 := EndAfterRegistering(worlds[3]);
    events, worlds := Extended(events, worlds, REGISTER);
    events, worlds := Extended(events, worlds, SessionEnd(SOFTWARE));
    events, worlds := Extended(events, worlds, StoreCookie(0));
  }

  /** The window before registration: the session ends after the port has found it ready. */
  lemma MissedBeforeRegistering() returns (events: seq<Event>, worlds: seq<World>)
    ensures Run(events, worlds) && |events| == 6 && events[3] == SessionEnd(SOFTWARE) && AllSessions(worlds[3])
    ensures worlds[3].sessions[SOFTWARE].Ready() && 0 in worlds[3].ports && worlds[3].ports[0].phase == Idle
    ensures Stranded(worlds[6], 0)
  {
    events, worlds := PortFindsSession();
    var w4, w5, w6 := EndBeforeRegistering(worlds[3]);
    events, worlds := Extended(events, worlds, SessionEnd(SOFTWARE));
    events, worlds := Extended(events, worlds, REGISTER);
    events, worlds := Extended(events, worlds, StoreCookie(0));
  }

  // ---------- How live ports come to their states ----------

  /** What an event does to a live port, as an event of the port alone. */
  ghost function Touch(w: World, e: Event, p: PortId): Option<PortEvent>
    requires AllSessions(w) && p in w.ports
  {
    var t := w.ports[p].state.sessionType;
    match e
    case SessionStart(u, stackGiven, mq, config) =>
      if u == t && w.sessions[t].StartSucceeds(stackGiven, mq, config) then Some(Report(SessionChanged)) else None
    case SessionEnd(u) => if u == t && w.sessions[t].Ready() then Some(Report(SessionChanged)) else None
    case ControlReport(u, status) => if u == t then Some(Report(ControlResult(status))) else None
    case PortCall(q, call) => if q == p then Some(call) else None
    case _ => None
  }

  /** A port goes live by storing its cookie, in STANDBY; from then on only the events that touch it move its state. */
  lemma LiveStep(w: World, e: Event, p: PortId)
    requires Inv(w) && Possible(w, e) && p in Step(w, e).ports && Step(w, e).ports[p].phase == Live
    ensures p in w.ports
    ensures var before, after := w.ports[p], Step(w, e).ports[p];
            && after.state.sessionType == before.state.sessionType
            && (before.phase != Live ==> after.state.state == STANDBY)
            && (before.phase == Live ==>
                  after.state.state == if Touch(w, e, p).None? then before.state.state
                                       else PortStep(before.state.state, Touch(w, e, p).value))
  {
    match e
    case SessionStart(t, _, _, _) => DeliveredTo(w, p, t, SessionChanged);
    case SessionEnd(t) => DeliveredTo(w, p, t, SessionChanged);
    case ControlReport(t, status) => DeliveredTo(w, p, t, ControlResult(status));
    case StoreCookie(q) => assert PortInv(w, q);
    case _ =>
  }

  ghost predicate LiveIn(w: World, p: PortId, state: StreamState) {
    p in w.ports && w.ports[p].phase == Live && w.ports[p].state.state == state
  }

  /** The only ways into three of the states. */
  lemma LiveEntry(w: World, e: Event, p: PortId, t: SessionType)
    requires Inv(w) && Possible(w, e) && LiveOn(Step(w, e), p, t)
    ensures p in w.ports && (w.ports[p].phase == Live ==> LiveOn(w, p, t))
    ensures LiveIn(Step(w, e), p, STARTING) && !LiveIn(w, p, STARTING) ==> e == PortCall(p, BeginStart) && LiveIn(w, p, STANDBY)
    ensures LiveIn(Step(w, e), p, STARTED) && !LiveIn(w, p, STARTED) ==> LiveIn(w, p, STARTING) && e == ControlReport(t, SUCCESS)
    ensures LiveIn(Step(w, e), p, SUSPENDING) && !LiveIn(w, p, SUSPENDING) ==>
              e == PortCall(p, BeginSuspend) && LiveIn(w, p, STARTED)
  {
    LiveStep(w, e, p);
  }

  /** The step that leads to state n of a run, for a port that is live there. */
  lemma LiveEntryInRun(events: seq<Event>, worlds: seq<World>, p: PortId, t: SessionType, n: nat)
    requires Run(events, worlds) && n < |worlds| && LiveOn(worlds[n], p, t)
    ensures n > 0 && p in worlds[n - 1].ports && (worlds[n - 1].ports[p].phase == Live ==> LiveOn(worlds[n - 1], p, t))
    ensures var w, v, e := worlds[n - 1], worlds[n], events[n - 1];
            && (LiveIn(v, p, STARTING) && !LiveIn(w, p, STARTING) ==> e == PortCall(p, BeginStart) && LiveIn(w, p, STANDBY))
            && (LiveIn(v, p, STARTED) && !LiveIn(w, p, STARTED) ==> LiveIn(w, p, STARTING) && e == ControlReport(t, SUCCESS))
            && (LiveIn(v, p, SUSPENDING) && !LiveIn(w, p, SUSPENDING) ==>
                  e == PortCall(p, BeginSuspend) && LiveIn(w, p, STARTED))
  {
    if n > 0 {
      RunKeepsInv(events, worlds, n - 1);
      LiveEntry(worlds[n - 1], events[n - 1], p, t);
    }
  }

  /** In every interleaving a live port in STARTING got there by its own Start, from STANDBY. */
  lemma {:induction false} LiveStarting(events: seq<Event>, worlds: seq<World>, p: PortId, t: SessionType, n: nat)
    returns (i: nat)
    requires Run(events, worlds) && n < |worlds| && LiveOn(worlds[n], p, t) && LiveIn(worlds[n], p, STARTING)
    ensures i < n && events[i] == PortCall(p, BeginStart) && LiveIn(worlds[i], p, STANDBY)
    ensures forall m: nat | i < m <= n :: LiveIn(worlds[m], p, STARTING)
  {
    LiveEntryInRun(events, worlds, p, t, n);
    if LiveIn(worlds[n - 1], p, STARTING) {
      i := LiveStarting(events, worlds, p, t, n - 1);
    } else {
      i := n - 1;
    }
  }

  /** In every interleaving a live port in STARTED was STARTING when its own session reported a success. */
  lemma {:induction false} LiveStarted(events: seq<Event>, worlds: seq<World>, p: PortId, t: SessionType, n: nat)
    returns (k: nat)
    requires Run(events, worlds) && n < |worlds| && LiveOn(worlds[n], p, t) && LiveIn(worlds[n], p, STARTED)
    ensures k < n && events[k] == ControlReport(t, SUCCESS)
    ensures LiveOn(worlds[k], p, t) && LiveIn(worlds[k], p, STARTING)
    ensures forall m: nat | k < m <= n :: LiveIn(worlds[m], p, STARTED)
  {
    LiveEntryInRun(events, worlds, p, t, n);
    if LiveIn(worlds[n - 1], p, STARTED) {
      k := LiveStarted(events, worlds, p, t, n - 1);
    } else {
      k := n - 1;
    }
  }

  /** In every interleaving a live port in SUSPENDING got there by its own Suspend, from STARTED. */
  lemma {:induction false} LiveSuspending(events: seq<Event>, worlds: seq<World>, p: PortId, t: SessionType, n: nat)
    returns (i: nat)
    requires Run(events, worlds) && n < |worlds| && LiveOn(worlds[n], p, t) && LiveIn(worlds[n], p, SUSPENDING)
    ensures i < n && events[i] == PortCall(p, BeginSuspend) && LiveIn(worlds[i], p, STARTED)
    ensures forall m: nat | i < m <= n :: LiveIn(worlds[m], p, SUSPENDING)
  {
    LiveEntryInRun(events, worlds, p, t, n);
    if LiveIn(worlds[n - 1], p, SUSPENDING) {
      i := LiveSuspending(events, worlds, p, t, n - 1);
    } else {
      i := n - 1;
    }
  }

  // ---------- How a live port moves, state by state ----------

  /** A report of its own session moves a live port by its state: a started one leaves for STANDBY unless the report is a
      failure; a starting one starts or falls back; a suspending one suspends or is disabled; an idle one stays. */
  lemma ReportMoves(events: seq<Event>, worlds: seq<World>, n: nat, p: PortId, t: SessionType, status: Status)
    requires Run(events, worlds) && n < |events| && LiveOn(worlds[n], p, t) && events[n] == ControlReport(t, status)
    ensures LiveOn(worlds[n + 1], p, t)
    ensures var before, after := worlds[n].ports[p].state.state, worlds[n + 1].ports[p].state.state;
            && (before == STARTED && status == FAILURE ==> after == STARTED)
            && (before == STARTED && status != FAILURE ==> after == STANDBY)
            && (before == STARTING && status == SUCCESS ==> after == STARTED)
            && (before == STARTING && status != SUCCESS ==> after == STANDBY)
            && (before == SUSPENDING && status == SUCCESS ==> after == STANDBY)
            && (before == SUSPENDING && status != SUCCESS ==> after == DISABLED)
            && (before in {DISABLED, STANDBY} ==> after == before)
  {
    RunKeepsInv(events, worlds, n);
    RunKeepsInv(events, worlds, n + 1);
    DeliveredTo(worlds[n], p, t, ControlResult(status));
  }

  /** Its own calls: a start begins from STANDBY and a suspend from STARTED only, a stop and the stream's parameters
      disable, and the stream's parameters bring a disabled port back to STANDBY. */
  lemma CallMoves(events: seq<Event>, worlds: seq<World>, n: nat, p: PortId, t: SessionType, call: PortEvent)
    requires Run(events, worlds) && n < |events| && LiveOn(worlds[n], p, t) && events[n] == PortCall(p, call)
    ensures LiveOn(worlds[n + 1], p, t)
    ensures var before, after := worlds[n].ports[p].state.state, worlds[n + 1].ports[p].state.state;
            && (call == BeginStart ==> after == if before == STANDBY then STARTING else before)
            && (call == BeginSuspend ==> after == if before == STARTED then SUSPENDING else before)
            && (call in {StopCalled, Disable} ==> after == DISABLED)
            && (call == Enable ==> after == if before == DISABLED then STANDBY else before)
  {
    RunKeepsInv(events, worlds, n + 1);
  }

  /** The session change is reported: a ready session ends, or a start fully succeeds. */
  ghost predicate ChangeReported(w: World, e: Event, t: SessionType)
    requires AllSessions(w)
  {
    || (e == SessionEnd(t) && w.sessions[t].Ready())
    || (e.SessionStart? && e.t == t && e.stackGiven && LegalTag(t, e.config.tag) && e.mq != Some(false))
  }

  /** A session change that the port's own session reports disables it, whatever its state. */
  lemma ChangeMoves(events: seq<Event>, worlds: seq<World>, n: nat, p: PortId, t: SessionType)
    requires Run(events, worlds) && n < |events| && LiveOn(worlds[n], p, t) && ChangeReported(worlds[n], events[n], t)
    ensures LiveOn(worlds[n + 1], p, t) && worlds[n + 1].ports[p].state.state == DISABLED
  {
    RunKeepsInv(events, worlds, n);
    RunKeepsInv(events, worlds, n + 1);
    DeliveredTo(worlds[n], p, t, SessionChanged);
  }

  /** Nothing else moves a port that stays live. */
  lemma NothingElseMoves(events: seq<Event>, worlds: seq<World>, n: nat, p: PortId, t: SessionType)
    requires Run(events, worlds) && n < |events| && LiveOn(worlds[n], p, t) && LiveOn(worlds[n + 1], p, t)
    requires !ChangeReported(worlds[n], events[n], t)
    requires !(events[n].ControlReport? && events[n].t == t) && !(events[n].PortCall? && events[n].p == p)
    ensures worlds[n + 1].ports[p].state.state == worlds[n].ports[p].state.state
  {
    RunKeepsInv(events, worlds, n);
    LiveStep(worlds[n], events[n], p);
  }

  /** The ways into DISABLED, exactly: a reported session change, the port's own stop or disabling parameters, or a report
      other than success while SUSPENDING. */
  lemma EntersDisabled(events: seq<Event>, worlds: seq<World>, n: nat, p: PortId, t: SessionType)
    requires Run(events, worlds) && n < |events| && LiveOn(worlds[n], p, t) && LiveOn(worlds[n + 1], p, t)
    requires worlds[n].ports[p].state.state != DISABLED
    ensures worlds[n + 1].ports[p].state.state == DISABLED <==>
      || ChangeReported(worlds[n], events[n], t)
      || events[n] == PortCall(p, StopCalled) || events[n] == PortCall(p, Disable)
      || (worlds[n].ports[p].state.state == SUSPENDING && events[n].ControlReport? && events[n].t == t
          && events[n].status != SUCCESS)
  {
    if ChangeReported(worlds[n], events[n], t) {
      ChangeMoves(events, worlds, n, p, t);
    } else if events[n].ControlReport? && events[n].t == t {
      ReportMoves(events, worlds, n, p, t, events[n].status);
    } else if events[n].PortCall? && events[n].p == p {
      CallMoves(events, worlds, n, p, t, events[n].call);
    } else {
      NothingElseMoves(events, worlds, n, p, t);
    }
  }
}
