/** A Bluetooth audio session: readiness, its audio configuration and its observers. Every method holds the
    session's mutex from start to end, so each is one step. */
module AudioSession {
  import opened Wrappers

  datatype SessionType =
    | UNKNOWN
    | A2DP_SOFTWARE_ENCODING_DATAPATH
    | A2DP_HARDWARE_OFFLOAD_ENCODING_DATAPATH
    | HEARING_AID_SOFTWARE_ENCODING_DATAPATH
    | LE_AUDIO_SOFTWARE_ENCODING_DATAPATH
    | LE_AUDIO_SOFTWARE_DECODING_DATAPATH
    | LE_AUDIO_HARDWARE_OFFLOAD_ENCODING_DATAPATH
    | LE_AUDIO_HARDWARE_OFFLOAD_DECODING_DATAPATH
    | LE_AUDIO_BROADCAST_SOFTWARE_ENCODING_DATAPATH
    | LE_AUDIO_BROADCAST_HARDWARE_OFFLOAD_ENCODING_DATAPATH
    | A2DP_SOFTWARE_DECODING_DATAPATH
    | A2DP_HARDWARE_OFFLOAD_DECODING_DATAPATH
    | HFP_SOFTWARE_ENCODING_DATAPATH
    | HFP_SOFTWARE_DECODING_DATAPATH
    | HFP_HARDWARE_OFFLOAD_DATAPATH
  {
    /** The enumerators count up from UNKNOWN == 0. */
    function Code(): (code: nat)
      ensures code < 256
    {
      match this
      case UNKNOWN => 0
      case A2DP_SOFTWARE_ENCODING_DATAPATH => 1
      case A2DP_HARDWARE_OFFLOAD_ENCODING_DATAPATH => 2
      case HEARING_AID_SOFTWARE_ENCODING_DATAPATH => 3
      case LE_AUDIO_SOFTWARE_ENCODING_DATAPATH => 4
      case LE_AUDIO_SOFTWARE_DECODING_DATAPATH => 5
      case LE_AUDIO_HARDWARE_OFFLOAD_ENCODING_DATAPATH => 6
      case LE_AUDIO_HARDWARE_OFFLOAD_DECODING_DATAPATH => 7
      case LE_AUDIO_BROADCAST_SOFTWARE_ENCODING_DATAPATH => 8
      case LE_AUDIO_BROADCAST_HARDWARE_OFFLOAD_ENCODING_DATAPATH => 9
      case A2DP_SOFTWARE_DECODING_DATAPATH => 10
      case A2DP_HARDWARE_OFFLOAD_DECODING_DATAPATH => 11
      case HFP_SOFTWARE_ENCODING_DATAPATH => 12
      case HFP_SOFTWARE_DECODING_DATAPATH => 13
      case HFP_HARDWARE_OFFLOAD_DATAPATH => 14
    }

    predicate Offload() {
      this in {A2DP_HARDWARE_OFFLOAD_ENCODING_DATAPATH, LE_AUDIO_HARDWARE_OFFLOAD_ENCODING_DATAPATH,
               LE_AUDIO_HARDWARE_OFFLOAD_DECODING_DATAPATH, LE_AUDIO_BROADCAST_HARDWARE_OFFLOAD_ENCODING_DATAPATH,
               A2DP_HARDWARE_OFFLOAD_DECODING_DATAPATH, HFP_HARDWARE_OFFLOAD_DATAPATH}
    }

    predicate Software() {
      this in {A2DP_SOFTWARE_ENCODING_DATAPATH, HEARING_AID_SOFTWARE_ENCODING_DATAPATH, HFP_SOFTWARE_ENCODING_DATAPATH,
               HFP_SOFTWARE_DECODING_DATAPATH, LE_AUDIO_SOFTWARE_DECODING_DATAPATH, LE_AUDIO_SOFTWARE_ENCODING_DATAPATH,
               LE_AUDIO_BROADCAST_SOFTWARE_ENCODING_DATAPATH, A2DP_SOFTWARE_DECODING_DATAPATH}
    }

    predicate LeAudioUnicastOffload() {
      this in {LE_AUDIO_HARDWARE_OFFLOAD_ENCODING_DATAPATH, LE_AUDIO_HARDWARE_OFFLOAD_DECODING_DATAPATH}
    }
  }

  datatype ConfigTag = PcmConfig | A2dpConfig | A2dp | HfpConfig | LeAudioConfig | LeAudioBroadcastConfig

  /** A tagged configuration; the payload is opaque and 0 for a default one. */
  datatype AudioConfiguration = AudioConfiguration(tag: ConfigTag, payload: int)

  /** The configuration tags that fit a session type. */
  predicate LegalTag(t: SessionType, tag: ConfigTag) {
    match tag
    case PcmConfig => t.Software()
    case A2dpConfig => t in {A2DP_HARDWARE_OFFLOAD_ENCODING_DATAPATH, A2DP_HARDWARE_OFFLOAD_DECODING_DATAPATH}
    case A2dp => t in {A2DP_HARDWARE_OFFLOAD_ENCODING_DATAPATH, A2DP_HARDWARE_OFFLOAD_DECODING_DATAPATH}
    case HfpConfig => t == HFP_HARDWARE_OFFLOAD_DATAPATH
    case LeAudioConfig => t.LeAudioUnicastOffload()
    case LeAudioBroadcastConfig => t == LE_AUDIO_BROADCAST_HARDWARE_OFFLOAD_ENCODING_DATAPATH
  }

  // ---------- Cookies ----------

  type Cookie = x: int | 0 <= x < 0x1_0000

  const COOKIE_SIZE := 16

  const COOKIE_UNDEFINED: Cookie := UNKNOWN.Code() * 256

  function CookieInit(t: SessionType): Cookie {
    t.Code() * 256
  }

  function CookieUpperBound(t: SessionType): Cookie {
    CookieInit(t) + COOKIE_SIZE
  }

  predicate InCookieRange(t: SessionType, cookie: int) {
    CookieInit(t) <= cookie < CookieUpperBound(t)
  }

  /** The ranges of different session types never meet. */
  lemma CookieNamesType(t: SessionType, u: SessionType, cookie: int)
    requires InCookieRange(t, cookie) && InCookieRange(u, cookie)
    ensures t == u
  {
    assert cookie / 256 == t.Code() && cookie / 256 == u.Code();
  }

  type Observers = map<Cookie, nat>

  /** The lowest free cookie of the session's range, or COOKIE_UNDEFINED when none is free. */
  predicate IsNextCookie(t: SessionType, observers: Observers, cookie: Cookie) {
    || (InCookieRange(t, cookie) && cookie !in observers
        && forall c: Cookie | CookieInit(t) <= c < cookie :: c in observers)
    || (cookie == COOKIE_UNDEFINED && forall c: Cookie | InCookieRange(t, c) :: c in observers)
  }

  lemma NextCookieUnique(t: SessionType, observers: Observers, c: Cookie, d: Cookie)
    requires IsNextCookie(t, observers, c) && IsNextCookie(t, observers, d)
    ensures c == d
  {
    if InCookieRange(t, c) && InCookieRange(t, d) {
      assert !(c < d) && !(d < c);
    }
  }

  // ---------- The session ----------

  /** `queue` is the data queue with its validity; `observers` maps cookies to the ports that registered them. */
  datatype SessionState = SessionState(
    typ: SessionType, stack: bool, queue: Option<bool>, config: Option<AudioConfiguration>, observers: Observers)
  {
    predicate Ready() {
      stack && (typ.Offload() || queue == Some(true)) && config.Some?
    }

    /** A start request: stack interface present, queue descriptor with its validity, configuration. */
    predicate StartSucceeds(stackGiven: bool, mq: Option<bool>, audioConfig: AudioConfiguration) {
      stackGiven && LegalTag(typ, audioConfig.tag) && mq != Some(false)
    }

    function Started(stackGiven: bool, mq: Option<bool>, audioConfig: AudioConfiguration): SessionState {
      if !stackGiven || !LegalTag(typ, audioConfig.tag) then this
      else if mq == Some(false) then this.(config := None, queue := None)
      else this.(config := Some(audioConfig), queue := mq, stack := true)
    }

    function Ended(): SessionState {
      this.(config := None, stack := false, queue := None)
    }

    function ConfigChanged(audioConfig: AudioConfiguration): SessionState {
      if typ.LeAudioUnicastOffload() && audioConfig.tag == LeAudioConfig then this.(config := Some(audioConfig)) else this
    }

    function CurrentConfig(): AudioConfiguration {
      if Ready() then config.value
      else if typ in {A2DP_HARDWARE_OFFLOAD_ENCODING_DATAPATH, A2DP_HARDWARE_OFFLOAD_DECODING_DATAPATH}
        then AudioConfiguration(A2dpConfig, 0)
      else if typ == HFP_HARDWARE_OFFLOAD_DATAPATH then AudioConfiguration(HfpConfig, 0)
      else if typ.LeAudioUnicastOffload() then AudioConfiguration(LeAudioConfig, 0)
      else if typ == LE_AUDIO_BROADCAST_HARDWARE_OFFLOAD_ENCODING_DATAPATH then AudioConfiguration(LeAudioBroadcastConfig, 0)
      else AudioConfiguration(PcmConfig, 0)
    }
  }

  function NewSession(t: SessionType): SessionState {
    SessionState(t, false, None, None, map[])
  }

  class BluetoothAudioSession {
    const sessionType: SessionType
    var stackIface: bool
    var dataMq: Option<bool>
    var audioConfig: Option<AudioConfiguration>
    var observers: Observers

    ghost function State(): SessionState
      reads this
    {
      SessionState(sessionType, stackIface, dataMq, audioConfig, observers)
    }

    constructor (t: SessionType)
      ensures State() == NewSession(t)
    {
      sessionType := t;
      stackIface, dataMq, audioConfig, observers := false, None, None, map[];
    }

    predicate IsSessionReady(): (ready: bool)
      reads this
      ensures ready == State().Ready()
    {
      var isMqValid := sessionType.Offload() || (dataMq.Some? && dataMq.value);
      stackIface && isMqValid && audioConfig.Some?
    }

    method UpdateDataPath(mq: Option<bool>) returns (ok: bool)
      modifies this`dataMq
      ensures ok == (mq != Some(false))
      ensures dataMq == if ok then mq else None
    {
      if mq.None? {
        dataMq := None;
        return true;
      }
      if !mq.value {
        dataMq := None;
        return false;
      }
      dataMq := mq;
      return true;
    }

    method UpdateAudioConfig(config: AudioConfiguration) returns (ok: bool)
      modifies this`audioConfig
      ensures ok == LegalTag(sessionType, config.tag)
      ensures audioConfig == if ok then Some(config) else old(audioConfig)
    {
      var tag := config.tag;
      var isSoftwareConfig := sessionType.Software() && tag == PcmConfig;
      var isA2dpConfig := sessionType in {A2DP_HARDWARE_OFFLOAD_ENCODING_DATAPATH, A2DP_HARDWARE_OFFLOAD_DECODING_DATAPATH}
                          && (tag == A2dp || tag == A2dpConfig);
      var isHfpConfig := sessionType == HFP_HARDWARE_OFFLOAD_DATAPATH && tag == HfpConfig;
      var isUnicastConfig := sessionType.LeAudioUnicastOffload() && tag == LeAudioConfig;
      var isBroadcastConfig := sessionType == LE_AUDIO_BROADCAST_HARDWARE_OFFLOAD_ENCODING_DATAPATH
                               && tag == LeAudioBroadcastConfig;
      if !isSoftwareConfig && !isA2dpConfig && !isHfpConfig && !isUnicastConfig && !isBroadcastConfig {
        return false;
      }
      audioConfig := Some(config);
      return true;
    }

    /** `notify` says that the session change is reported to every observer. */
    method OnSessionStarted(stackGiven: bool, mq: Option<bool>, config: AudioConfiguration) returns (notify: bool)
      modifies this
      ensures State() == old(State()).Started(stackGiven, mq, config)
      ensures notify == (stackGiven && LegalTag(sessionType, config.tag) && mq != Some(false))
      ensures notify == old(State()).StartSucceeds(stackGiven, mq, config)
    {
      notify := false;
      if !stackGiven {
        return;
      }
      var configOk := UpdateAudioConfig(config);
      if !configOk {
        return;
      }
      var pathOk := UpdateDataPath(mq);
      if !pathOk {
        audioConfig := None;
      } else {
        stackIface := true;
        notify := true;
      }
    }

    method OnSessionEnded() returns (notify: bool)
      modifies this
      ensures State() == old(State()).Ended()
      ensures notify == old(State()).Ready()
    {
      notify := IsSessionReady();
      audioConfig, stackIface := None, false;
      var _ := UpdateDataPath(None);
    }

    method ReportAudioConfigChanged(config: AudioConfiguration)
      modifies this
      ensures State() == old(State()).ConfigChanged(config)
    {
      if !sessionType.LeAudioUnicastOffload() {
        return;
      }
      if config.tag != LeAudioConfig {
        return;
      }
      audioConfig := Some(config);
    }

    method GetAudioConfig() returns (config: AudioConfiguration)
      ensures config == State().CurrentConfig()
    {
      if !IsSessionReady() {
        match sessionType
        case A2DP_HARDWARE_OFFLOAD_ENCODING_DATAPATH => return AudioConfiguration(A2dpConfig, 0);
        case A2DP_HARDWARE_OFFLOAD_DECODING_DATAPATH => return AudioConfiguration(A2dpConfig, 0);
        case HFP_HARDWARE_OFFLOAD_DATAPATH => return AudioConfiguration(HfpConfig, 0);
        case LE_AUDIO_HARDWARE_OFFLOAD_ENCODING_DATAPATH => return AudioConfiguration(LeAudioConfig, 0);
        case LE_AUDIO_HARDWARE_OFFLOAD_DECODING_DATAPATH => return AudioConfiguration(LeAudioConfig, 0);
        case LE_AUDIO_BROADCAST_HARDWARE_OFFLOAD_ENCODING_DATAPATH => return AudioConfiguration(LeAudioBroadcastConfig, 0);
        case _ => return AudioConfiguration(PcmConfig, 0);
      }
      return audioConfig.value;
    }

    /** Takes the lowest free cookie; fails only when the whole range is taken. */
    method RegisterStatusCback(port: nat) returns (cookie: Cookie)
      modifies this
      ensures IsNextCookie(sessionType, old(observers), cookie)
      ensures State() == if forall c: Cookie | InCookieRange(sessionType, c) :: c in old(observers) then old(State())
                         else old(State()).(observers := old(observers)[cookie := port])
    {
      cookie := CookieInit(sessionType);
      var upperBound := CookieUpperBound(sessionType);
      while cookie < upperBound && cookie in observers
        invariant CookieInit(sessionType) <= cookie <= upperBound
        invariant forall c: Cookie | CookieInit(sessionType) <= c < cookie :: c in observers
        decreases upperBound - cookie
      {
        cookie := cookie + 1;
      }
      if cookie >= upperBound {
        return COOKIE_UNDEFINED;
      }
      observers := observers[cookie := port];
    }

    method UnregisterStatusCback(cookie: Cookie)
      modifies this
      ensures State() == old(State()).(observers := old(observers) - {cookie})
    {
      observers := observers - {cookie};
    }
  }

  // ---------- Runs of one session ----------

  datatype SessionEvent =
    | Start(stackGiven: bool, mq: Option<bool>, config: AudioConfiguration)
    | End
    | ChangeConfig(config: AudioConfiguration)

  function Step(s: SessionState, e: SessionEvent): SessionState {
    match e
    case Start(stackGiven, mq, config) => s.Started(stackGiven, mq, config)
    case End => s.Ended()
    case ChangeConfig(config) => s.ConfigChanged(config)
  }

  function After(t: SessionType, events: seq<SessionEvent>): SessionState {
    if events == [] then NewSession(t) else Step(After(t, events[..|events| - 1]), events[|events| - 1])
  }

  /** The start finds the session in a state where it fully succeeds. */
  predicate GoodStart(t: SessionType, before: seq<SessionEvent>, e: SessionEvent) {
    e.Start? && After(t, before).StartSucceeds(e.stackGiven, e.mq, e.config)
  }

  /** Event i is a start that fully succeeded, and no end came after it. */
  ghost predicate Unended(t: SessionType, events: seq<SessionEvent>, i: nat) {
    i < |events| && GoodStart(t, events[..i], events[i]) && forall j: nat | i < j < |events| :: events[j] != End
  }

  ghost predicate StartedAndNotEnded(t: SessionType, events: seq<SessionEvent>) {
    exists i: nat :: Unended(t, events, i)
  }

  lemma UnendedStep(t: SessionType, earlier: seq<SessionEvent>, e: SessionEvent)
    ensures StartedAndNotEnded(t, earlier + [e])
       <==> e != End && (GoodStart(t, earlier, e) || StartedAndNotEnded(t, earlier))
  {
    var events, n := earlier + [e], |earlier|;
    assert events[..n] == earlier && events[n] == e;
    forall i: nat | i < n ensures Unended(t, events, i) <==> e != End && Unended(t, earlier, i) {
      assert events[..i] == earlier[..i];
    }
    assert Unended(t, events, n) <==> GoodStart(t, earlier, e);
    assert e == End ==> !GoodStart(t, earlier, e);
    forall i: nat ensures Unended(t, earlier, i) ==> i < n {
    }
  }

  /** In every run: a stack interface means a good start without an end since, and a stored configuration fits the type. */
  lemma {:induction false} SessionInvariant(t: SessionType, events: seq<SessionEvent>)
    ensures var s := After(t, events);
            && s.typ == t
            && (s.stack <==> StartedAndNotEnded(t, events))
            && (s.config.Some? ==> LegalTag(t, s.config.value.tag))
    decreases |events|
  {
    if events == [] {
    } else {
      var n := |events| - 1;
      SessionInvariant(t, events[..n]);
      UnendedStep(t, events[..n], events[n]);
      assert events == events[..n] + [events[n]];
    }
  }

  /** Readiness means an unended good start; a ready software session has a valid queue; the configuration handed
      out always fits the session type. */
  lemma SessionTheorem(t: SessionType, events: seq<SessionEvent>)
    requires t != UNKNOWN
    ensures var s := After(t, events);
            && (s.Ready() ==> StartedAndNotEnded(t, events))
            && (s.Ready() && !t.Offload() ==> s.queue == Some(true))
            && LegalTag(t, s.CurrentConfig().tag)
  {
    SessionInvariant(t, events);
  }

  // ---------- The state as a reading of the history ----------

  /** Some event satisfies `on`, and no later one `off`. */
  ghost predicate Since(events: seq<SessionEvent>, on: SessionEvent -> bool, off: SessionEvent -> bool) {
    exists i: nat :: i < |events| && on(events[i]) && forall j: nat | i < j < |events| :: !off(events[j])
  }

  lemma SinceStep(earlier: seq<SessionEvent>, e: SessionEvent, on: SessionEvent -> bool, off: SessionEvent -> bool)
    ensures Since(earlier + [e], on, off) <==> on(e) || (Since(earlier, on, off) && !off(e))
  {
    var events, n := earlier + [e], |earlier|;
    if on(e) {
      assert on(events[n]);
    }
    if i: nat :| i < n && on(earlier[i]) && (forall j: nat | i < j < n :: !off(earlier[j])) && !off(e) {
      assert on(events[i]);
      assert forall j: nat | i < j < |events| :: !off(events[j]);
    }
    if i: nat :| i < |events| && on(events[i]) && (forall j: nat | i < j < |events| :: !off(events[j])) && i < n {
      assert on(earlier[i]);
      assert forall j: nat | i < j < n :: !off(earlier[j]) by {
        assert forall j: nat | i < j < n :: events[j] == earlier[j];
      }
      assert !off(events[n]);
    }
  }

  /** A start with a stack interface, a configuration that fits, and no invalid queue. */
  predicate Starts(t: SessionType, e: SessionEvent) {
    e.Start? && e.stackGiven && LegalTag(t, e.config.tag) && e.mq != Some(false)
  }

  /** A start that fails on its queue: it forgets the queue and the configuration, but not the stack interface. */
  predicate Spoils(t: SessionType, e: SessionEvent) {
    e.Start? && e.stackGiven && LegalTag(t, e.config.tag) && e.mq == Some(false)
  }

  /** A configuration change that the session takes, with or without having been started. */
  predicate Changes(t: SessionType, e: SessionEvent) {
    t in {LE_AUDIO_HARDWARE_OFFLOAD_ENCODING_DATAPATH, LE_AUDIO_HARDWARE_OFFLOAD_DECODING_DATAPATH}
    && e.ChangeConfig? && e.config.tag == LeAudioConfig
  }

  /** The last start that was not refused outright had a valid queue, and the session has not ended since. */
  ghost predicate QueueStands(t: SessionType, events: seq<SessionEvent>) {
    Since(events, e => Starts(t, e) && e.mq == Some(true), e => e == End || Starts(t, e) || Spoils(t, e))
  }

  /** The configuration is the one last started with or changed to, and neither an end nor a spoilt start came after. */
  ghost predicate ConfigStands(t: SessionType, events: seq<SessionEvent>, config: AudioConfiguration) {
    Since(events, e => (Starts(t, e) || Changes(t, e)) && e.config == config,
          e => e == End || Starts(t, e) || Spoils(t, e) || Changes(t, e))
  }

  ghost predicate StackStands(t: SessionType, events: seq<SessionEvent>) {
    Since(events, e => Starts(t, e), e => e == End)
  }

  lemma ConfigStep(t: SessionType, earlier: seq<SessionEvent>, e: SessionEvent, c: AudioConfiguration)
    ensures ConfigStands(t, earlier + [e], c) <==>
      || ((Starts(t, e) || Changes(t, e)) && e.config == c)
      || (ConfigStands(t, earlier, c) && !(e == End || Starts(t, e) || Spoils(t, e) || Changes(t, e)))
  {
    SinceStep(earlier, e, e => (Starts(t, e) || Changes(t, e)) && e.config == c,
              e => e == End || Starts(t, e) || Spoils(t, e) || Changes(t, e));
  }

  lemma QueueStep(t: SessionType, earlier: seq<SessionEvent>, e: SessionEvent)
    ensures QueueStands(t, earlier + [e]) <==>
      || (Starts(t, e) && e.mq == Some(true))
      || (QueueStands(t, earlier) && !(e == End || Starts(t, e) || Spoils(t, e)))
  {
    SinceStep(earlier, e, e => Starts(t, e) && e.mq == Some(true), e => e == End || Starts(t, e) || Spoils(t, e));
  }

  /** In every run the session's state is exactly this reading of its history. */
  lemma {:induction false} SessionIsHistory(t: SessionType, events: seq<SessionEvent>)
    ensures var s := After(t, events);
            && s.typ == t && s.queue != Some(false)
            && (s.stack <==> StackStands(t, events))
            && (s.queue == Some(true) <==> QueueStands(t, events))
            && forall c :: s.config == Some(c) <==> ConfigStands(t, events, c)
    decreases |events|
  {
    if events == [] {
    } else {
      var n := |events| - 1;
      var e := events[n];
      SessionIsHistory(t, events[..n]);
      assert events == events[..n] + [e];
      SinceStep(events[..n], e, e => Starts(t, e), e => e == End);
      QueueStep(t, events[..n], e);
      forall c ensures After(t, events).config == Some(c) <==> ConfigStands(t, events, c) {
        ConfigStep(t, events[..n], e, c);
      }
    }
  }

  /** Exactly when a session is ready, by its history; and the configuration it then hands out. */
  lemma ReadyExactly(t: SessionType, events: seq<SessionEvent>)
    ensures After(t, events).Ready() <==>
      && StackStands(t, events) && (exists c :: ConfigStands(t, events, c))
      && (QueueStands(t, events)
          || t in {A2DP_HARDWARE_OFFLOAD_ENCODING_DATAPATH, A2DP_HARDWARE_OFFLOAD_DECODING_DATAPATH,
                   HFP_HARDWARE_OFFLOAD_DATAPATH, LE_AUDIO_HARDWARE_OFFLOAD_ENCODING_DATAPATH,
                   LE_AUDIO_HARDWARE_OFFLOAD_DECODING_DATAPATH, LE_AUDIO_BROADCAST_HARDWARE_OFFLOAD_ENCODING_DATAPATH})
    ensures After(t, events).Ready() ==> ConfigStands(t, events, After(t, events).CurrentConfig())
  {
    SessionIsHistory(t, events);
    var s := After(t, events);
    if s.config.Some? {
      assert s.config == Some(s.config.value);
      assert ConfigStands(t, events, s.config.value);
    }
    if c :| ConfigStands(t, events, c) {
      assert s.config == Some(c);
    }
  }

  /** A start that succeeds makes the session ready at once, unless it is a software session started without a queue. */
  lemma StartMakesReady(t: SessionType, events: seq<SessionEvent>, e: SessionEvent)
    requires Starts(t, e)
    ensures After(t, events + [e]).Ready() <==> t.Offload() || e.mq == Some(true)
  {
    assert (events + [e])[..|events|] == events;
    SessionIsHistory(t, events);
  }

  /** Without a ready session a default configuration is handed out: of the session's own kind, and for A2DP offload the
      codec configuration. */
  lemma DefaultConfig(s: SessionState)
    requires !s.Ready()
    ensures s.CurrentConfig().payload == 0 && s.CurrentConfig().tag != A2dp
    ensures s.typ != UNKNOWN ==> LegalTag(s.typ, s.CurrentConfig().tag)
    ensures s.typ == UNKNOWN ==> s.CurrentConfig().tag == PcmConfig
  {
  }

  /** Every session type takes one kind of configuration, software sessions the PCM one; A2DP offload takes two tags. */
  lemma KindsOfSessions(t: SessionType, a: ConfigTag, b: ConfigTag)
    ensures LegalTag(t, a) && LegalTag(t, b) ==> a == b || {a, b} == {A2dp, A2dpConfig}
    ensures LegalTag(t, A2dp) <==> LegalTag(t, A2dpConfig)
    ensures t == UNKNOWN <==> forall tag :: !LegalTag(t, tag)
    ensures LegalTag(t, PcmConfig) <==> t != UNKNOWN && !t.Offload()
    ensures LegalTag(t, HfpConfig) <==> t == HFP_HARDWARE_OFFLOAD_DATAPATH
    ensures LegalTag(t, LeAudioConfig) <==>
              t in {LE_AUDIO_HARDWARE_OFFLOAD_ENCODING_DATAPATH, LE_AUDIO_HARDWARE_OFFLOAD_DECODING_DATAPATH}
    ensures LegalTag(t, LeAudioBroadcastConfig) <==> t == LE_AUDIO_BROADCAST_HARDWARE_OFFLOAD_ENCODING_DATAPATH
    ensures LegalTag(t, A2dp) <==>
              t in {A2DP_HARDWARE_OFFLOAD_ENCODING_DATAPATH, A2DP_HARDWARE_OFFLOAD_DECODING_DATAPATH}
  {
    if t != UNKNOWN {
      var tag := NewSession(t).CurrentConfig().tag;
      assert LegalTag(t, tag);
    }
  }
}
