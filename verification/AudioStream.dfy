/** The output stream of the Bluetooth audio HAL: frame counters, writes, suspends and presentation positions. */
module AudioStream {
  import opened Wrappers
  import opened AudioSession
  import opened AudioPort

  /** What the stack does while a HAL call waits: whether it accepts the request, and its reports up to the end of
      the wait. */
  datatype Env = Env(halAccepts: bool, during: seq<Callback>)

  /** The parameters the stream reacts to; None when the key is absent. */
  datatype Parameters = Parameters(a2dpSuspended: Option<string>, closing: Option<string>, exiting: Option<string>)

  datatype Outcome = OK | EIO | EBUSY | EINVAL

  /** Stream state as a value: the port's and the two frame counters. */
  datatype Out = Out(port: PortState, rendered: nat, presented: nat)

  // ---------- What the calls do, on values ----------

  function Reported(o: Out, cs: seq<Callback>): Out {
    if o.port.InUse() then o.(port := o.port.(state := AfterCallbacks(o.port.state, cs))) else o
  }

  function PortStarted(o: Out, env: Env): Out {
    if o.port.InUse() && o.port.state == STANDBY
    then o.(port := o.port.(state := AfterCallbacks(STARTING, env.during))) else o
  }

  function PortSuspended(o: Out, env: Env): Out {
    if o.port.InUse() && o.port.state == STARTED
    then o.(port := o.port.(state := AfterCallbacks(SUSPENDING, env.during))) else o
  }

  function Resumed(o: Out, env: Env): (Outcome, Out) {
    match o.port.state
    case STANDBY =>
      var o' := PortStarted(o, env);
      (if o.port.InUse() && env.halAccepts && o'.port.state == STARTED then OK else EIO, o')
    case STARTING => (EBUSY, o)
    case SUSPENDING => (EBUSY, o)
    case DISABLED => (EINVAL, o)
    case STARTED => (OK, o)
  }

  /** Standby and pause: the rendered counter restarts whenever a started stream is suspended. */
  function Suspended(o: Out, env: Env): (Outcome, Out) {
    match o.port.state
    case STARTED =>
      var o' := PortSuspended(o.(rendered := 0), env);
      (if o.port.InUse() && env.halAccepts && o'.port.state == STANDBY then OK else EIO, o')
    case STARTING => (EBUSY, o)
    case SUSPENDING => (EBUSY, o)
    case _ => (OK, o)
  }

  function Stopped(o: Out): Out {
    if o.port.InUse() then o.(port := o.port.(state := DISABLED)) else o
  }

  function ParametersSet(o: Out, p: Parameters, env: Env): Out {
    var o1 :=
      if p.a2dpSuspended.None? || !o.port.A2dp() then o
      else if p.a2dpSuspended == Some("true") then
        var r := o.(rendered := 0);
        if r.port.state == STARTED then
          var s := PortSuspended(r, env);
          s.(port := s.port.(state := DISABLED))
        else if r.port.state != DISABLED then Stopped(r)
        else r
      else if o.port.state == DISABLED then o.(port := o.port.(state := STANDBY))
      else o;
    var o2 :=
      if p.closing == Some("true") && o1.port.state != DISABLED then Stopped(o1.(rendered := 0, presented := 0)) else o1;
    if p.exiting == Some("1") && o2.port.state != DISABLED then Stopped(o2.(rendered := 0, presented := 0)) else o2
  }

  // ---------- Calls and writes, step by step ----------

  /** What the framework and the stack can do at any time, also while a write has let go of the stream's mutex. */
  datatype Call =
    | ResumeCall(env: Env)
    | SuspendCall(env: Env)
    | ParametersCall(p: Parameters, env: Env)
    | Reports(callbacks: seq<Callback>)

  function AfterCall(o: Out, c: Call): Out {
    match c
    case ResumeCall(env) => Resumed(o, env).1
    case SuspendCall(env) => Suspended(o, env).1
    case ParametersCall(p, env) => ParametersSet(o, p, env)
    case Reports(cs) => Reported(o, cs)
  }

  function AfterCalls(o: Out, cs: seq<Call>): Out {
    if cs == [] then o else AfterCall(AfterCalls(o, cs[..|cs| - 1]), cs[|cs| - 1])
  }

  /** How far a write has come; between any two of these steps it does not hold the mutex. */
  datatype Phase =
    | NotWriting
    | Asking(bytes: nat)                  // found the port not STARTED, is going to resume
    | Refused(bytes: nat)                 // could not resume
    | Cleared(bytes: nat)                 // may hand its buffer to the data path
    | Handed(bytes: nat, accepted: nat)   // the data path took `accepted` bytes

  datatype Stream = Stream(out: Out, phase: Phase)

  datatype Event =
    | Other(call: Call)
    | BeginWrite(bytes: nat)
    | ResumeWrite(env: Env)
    | GiveUp
    | HandOver(accepted: nat)
    | Count(frameSize: nat)

  predicate Possible(s: Stream, e: Event) {
    match e
    case Other(_) => true
    case BeginWrite(_) => s.phase == NotWriting
    case ResumeWrite(_) => s.phase.Asking?
    case GiveUp => s.phase.Refused?
    case HandOver(_) => s.phase.Cleared?
    case Count(frameSize) => s.phase.Handed? && frameSize > 0
  }

  /** The counters advance by the frames of the whole buffer as soon as anything was accepted. */
  function Counted(o: Out, bytes: nat, frameSize: nat, accepted: nat): Out
    requires frameSize > 0
  {
    if accepted == 0 then o
    else o.(rendered := o.rendered + bytes / frameSize, presented := o.presented + bytes / frameSize)
  }

  function Step(s: Stream, e: Event): Stream
    requires Possible(s, e)
  {
    match e
    case Other(call) => s.(out := AfterCall(s.out, call))
    case BeginWrite(bytes) => s.(phase := if s.out.port.state == STARTED then Cleared(bytes) else Asking(bytes))
    case ResumeWrite(env) =>
      var (outcome, o) := Resumed(s.out, env);
      Stream(o, if outcome == OK then Cleared(s.phase.bytes) else Refused(s.phase.bytes))
    case GiveUp => s.(phase := NotWriting)
    case HandOver(accepted) => s.(phase := Handed(s.phase.bytes, accepted))
    case Count(frameSize) => Stream(Counted(s.out, s.phase.bytes, frameSize, s.phase.accepted), NotWriting)
  }

  /** What the write reports as consumed when the event ends it. */
  function ReportedBytes(s: Stream, e: Event): Option<nat>
    requires Possible(s, e)
  {
    match e
    case GiveUp => Some(if s.out.port.state == DISABLED then s.phase.bytes else 0)
    case Count(_) => Some(s.phase.accepted)
    case _ => None
  }

  /** What happens at the three points where a write has let go of the mutex. */
  datatype Between = Between(beforeResume: seq<Call>, env: Env, afterResume: seq<Call>, beforeCount: seq<Call>)

  /** The first half of a write, up to the decision whether it hands its buffer over. */
  function Decided(o: Out, bytes: nat, w: Between): (s: Stream)
    ensures s.phase in {Cleared(bytes), Refused(bytes)}
  {
    var begun := Step(Stream(o, NotWriting), BeginWrite(bytes));
    var asked :=
      if begun.phase.Asking? then Step(begun.(out := AfterCalls(begun.out, w.beforeResume)), ResumeWrite(w.env)) else begun;
    asked.(out := AfterCalls(asked.out, w.afterResume))
  }

  /** A whole write: bytes reported, bytes handed to the data path, and the stream afterwards. */
  function Written(o: Out, bytes: nat, frameSize: nat, accepted: nat, w: Between): (nat, nat, Out)
    requires frameSize > 0
  {
    var decided := Decided(o, bytes, w);
    if decided.phase.Refused? then
      (ReportedBytes(decided, GiveUp).value, 0, Step(decided, GiveUp).out)
    else
      var handed := Step(decided, HandOver(accepted));
      var counting := handed.(out := AfterCalls(handed.out, w.beforeCount));
      (ReportedBytes(counting, Count(frameSize)).value, bytes, Step(counting, Count(frameSize)).out)
  }

  // ---------- Presentation position ----------

  const MINIMUM_DELAY_MS := 50
  const MAXIMUM_DELAY_MS := 1000
  const EXTRA_AUDIO_SYNC_MS := 200

  function Max(a: int, b: int): int {
    if a >= b then a else b
  }

  /** The answer to a query of the presentation position: delay and byte count are filled in even when it fails. */
  datatype Report = Report(ok: bool, delayNs: nat, bytes: nat)

  /** A successfully reported delay strictly between 50 and 1000 ms, else one buffer plus 200 ms. */
  function LatencyMs(report: Report, framesCount: nat, sampleRate: nat): nat
    requires sampleRate > 0
  {
    if report.ok && MINIMUM_DELAY_MS < report.delayNs / 1000000 < MAXIMUM_DELAY_MS then report.delayNs / 1000000
    else framesCount * 1000 / sampleRate + EXTRA_AUDIO_SYNC_MS
  }

  function LatencyFrames(report: Report, framesCount: nat, sampleRate: nat): nat
    requires sampleRate > 0
  {
    LatencyMs(report, framesCount, sampleRate) * sampleRate / 1000
  }

  lemma QuotientBounds(n: nat, d: nat)
    requires d > 0
    ensures n / d * d <= n < (n / d + 1) * d
  {
    var q := n / d;
    assert n == q * d + n % d;
    assert (q + 1) * d == q * d + d;
  }

  /** The latency in ms: the reported delay if the query succeeded with more than 50 and less than 1000 ms; otherwise 200 ms
      on top of the playing time of one buffer, rounded down. In frames it is rounded down as well. */
  lemma LatencyExact(report: Report, framesCount: nat, sampleRate: nat)
    requires sampleRate > 0
    ensures var ms, frames := LatencyMs(report, framesCount, sampleRate), LatencyFrames(report, framesCount, sampleRate);
            var delay := report.delayNs / 1000000;
            && (report.ok && 50 < delay < 1000 ==> ms == delay)
            && (!(report.ok && 50 < delay < 1000) ==>
                  ms >= 200 && (ms - 200) * sampleRate <= framesCount * 1000 < (ms - 199) * sampleRate)
            && frames * 1000 <= ms * sampleRate < (frames + 1) * 1000
  {
    QuotientBounds(framesCount * 1000, sampleRate);
    QuotientBounds(LatencyMs(report, framesCount, sampleRate) * sampleRate, 1000);
  }

  /** Positions are reported in 32 bits. */
  const FRAMES_WIDTH := 0x1_0000_0000

  /** How many of the rendered frames have left the latency behind. */
  function RenderPosition(o: Out, latency: nat): nat {
    if o.rendered >= latency then o.rendered - latency else 0
  }

  /** A stack counter ahead of the HAL's, or further behind than the latency, is obsolete; the HAL's own is used. */
  function Position(presented: nat, stackFrames: nat, latency: nat): nat {
    var frames := if presented < stackFrames then presented
                  else if presented - stackFrames > latency then presented
                  else stackFrames;
    if frames > latency then frames - latency else 0
  }

  /** Whatever the stack's counter says, the position lies between P - 2L and P - L; each value in between occurs. */
  lemma PositionBounds(presented: nat, stackFrames: nat, latency: nat)
    ensures Max(0, presented - 2 * latency) <= Position(presented, stackFrames, latency) <= Max(0, presented - latency)
  {
  }

  /** A stack counter that is not ahead, and not further behind than the latency, gives the position; otherwise the HAL's
      own counter does. */
  lemma PositionExact(presented: nat, stackFrames: nat, latency: nat)
    ensures stackFrames <= presented <= stackFrames + latency ==>
              Position(presented, stackFrames, latency) == Max(0, stackFrames - latency)
    ensures !(stackFrames <= presented <= stackFrames + latency) ==>
              Position(presented, stackFrames, latency) == Max(0, presented - latency)
  {
  }

  lemma PositionsReached(presented: nat, latency: nat, frames: nat)
    requires Max(0, presented - 2 * latency) <= frames <= Max(0, presented - latency)
    ensures exists stackFrames: nat :: Position(presented, stackFrames, latency) == frames
  {
    if presented <= latency {
      assert Position(presented, presented, latency) == 0;
    } else {
      assert Position(presented, frames + latency, latency) == frames;
    }
  }

  // ---------- The stream ----------

  class BluetoothStreamOut {
    const port: BluetoothAudioPort
    const frameSize: nat
    const sampleRate: nat
    const framesCount: nat
    var framesRendered: nat
    var framesPresented: nat

    ghost function State(): Out
      reads this, port
    {
      Out(port.State(), framesRendered, framesPresented)
    }

    constructor (p: BluetoothAudioPort, frameSize: nat, sampleRate: nat, framesCount: nat)
      ensures port == p && State() == Out(p.State(), 0, 0)
      ensures this.frameSize == frameSize && this.sampleRate == sampleRate && this.framesCount == framesCount
    {
      port := p;
      this.frameSize, this.sampleRate, this.framesCount := frameSize, sampleRate, framesCount;
      framesRendered, framesPresented := 0, 0;
    }

    method Resume(env: Env) returns (outcome: Outcome)
      modifies port
      ensures (outcome, State()) == Resumed(old(State()), env)
    {
      outcome := OK;
      match port.state
      case STANDBY =>
        var started := port.Start(env.halAccepts, env.during);
        outcome := if started then OK else EIO;
      case STARTING => outcome := EBUSY;
      case SUSPENDING => outcome := EBUSY;
      case DISABLED => outcome := EINVAL;
      case STARTED =>
    }

    method Standby(env: Env) returns (outcome: Outcome)
      modifies this, port
      ensures (outcome, State()) == Suspended(old(State()), env)
    {
      outcome := OK;
      if port.state == STARTED {
        framesRendered := 0;
        var suspended := port.Suspend(env.halAccepts, env.during);
        outcome := if suspended then OK else EIO;
      } else if port.state == STARTING || port.state == SUSPENDING {
        outcome := EBUSY;
      }
    }

    method Pause(env: Env) returns (outcome: Outcome)
      modifies this, port
      ensures (outcome, State()) == Suspended(old(State()), env)
    {
      outcome := OK;
      if port.state == STARTED {
        framesRendered := 0;
        var suspended := port.Suspend(env.halAccepts, env.during);
        outcome := if suspended then OK else EIO;
      } else if port.state == STARTING || port.state == SUSPENDING {
        outcome := EBUSY;
      }
    }

    method SetParameters(p: Parameters, env: Env)
      modifies this, port
      ensures State() == ParametersSet(old(State()), p, env)
    {
      if p.a2dpSuspended.Some? && port.IsA2dp() {
        if p.a2dpSuspended.value == "true" {
          framesRendered := 0;
          if port.state == STARTED {
            var _ := port.Suspend(env.halAccepts, env.during);
            port.SetState(DISABLED);
          } else if port.state != DISABLED {
            port.Stop();
          }
        } else if port.state == DISABLED {
          port.SetState(STANDBY);
        }
      }
      if p.closing.Some? && p.closing.value == "true" && port.state != DISABLED {
        framesRendered, framesPresented := 0, 0;
        port.Stop();
      }
      if p.exiting.Some? && p.exiting.value == "1" && port.state != DISABLED {
        framesRendered, framesPresented := 0, 0;
        port.Stop();
      }
    }

    /** Calls of other threads and reports of the stack, one after the other. */
    method Others(cs: seq<Call>)
      modifies this, port
      ensures State() == AfterCalls(old(State()), cs)
    {
      for i := 0 to |cs|
        invariant State() == AfterCalls(old(State()), cs[..i])
      {
        assert cs[..i + 1][..i] == cs[..i];
        match cs[i]
        case ResumeCall(env) => var _ := Resume(env);
        case SuspendCall(env) => var _ := Standby(env);
        case ParametersCall(p, env) => SetParameters(p, env);
        case Reports(callbacks) => port.Wait(callbacks);
      }
      assert cs[..|cs|] == cs;
    }

    method Decide(bytes: nat, w: Between) returns (resumed: bool)
      modifies this, port
      ensures Stream(State(), if resumed then Cleared(bytes) else Refused(bytes)) == Decided(old(State()), bytes, w)
    {
      resumed := true;
      if port.state != STARTED {
        Others(w.beforeResume);
        var outcome := Resume(w.env);
        resumed := outcome == OK;
      }
      Others(w.afterResume);
    }

    method Write(bytes: nat, accepted: nat, w: Between) returns (reported: nat, handed: nat)
      requires frameSize > 0
      modifies this, port
      ensures (reported, handed, State()) == Written(old(State()), bytes, frameSize, accepted, w)
      ensures old(port.state) == STARTED && w.afterResume == [] && w.beforeCount == [] ==>
        && reported == accepted && handed == bytes && port.State() == old(port.State())
        && framesRendered == old(framesRendered) + (if accepted > 0 then bytes / frameSize else 0)
        && framesPresented == old(framesPresented) + (if accepted > 0 then bytes / frameSize else 0)
      ensures old(port.state) == DISABLED && w.beforeResume == [] && w.afterResume == [] ==>
        reported == bytes && handed == 0 && State() == old(State())
    {
      var resumed := Decide(bytes, w);
      if !resumed {
        return if port.state == DISABLED then bytes else 0, 0;
      }
      handed, reported := bytes, accepted;
      Others(w.beforeCount);
      if accepted != 0 {
        var frames := bytes / frameSize;
        framesRendered := framesRendered + frames;
        framesPresented := framesPresented + frames;
      }
    }

    method CalculateLatency(report: Report) returns (latencyMs: nat)
      requires sampleRate > 0
      ensures latencyMs == LatencyMs(report, framesCount, sampleRate)
    {
      var fetched := false;
      latencyMs := 0;
      if report.ok {
        latencyMs := report.delayNs / 1000000;
        if latencyMs > MINIMUM_DELAY_MS && latencyMs < MAXIMUM_DELAY_MS {
          fetched := true;
        }
      }
      if !fetched {
        latencyMs := framesCount * 1000 / sampleRate + EXTRA_AUDIO_SYNC_MS;
      }
    }

    /** Gives the latency in ms and frames and the presentation position. */
    method CalculateFeedingDelay(report: Report) returns (latencyMs: nat, latencyFrames: nat, frames: nat)
      requires frameSize > 0 && sampleRate > 0
      ensures latencyMs == LatencyMs(report, framesCount, sampleRate)
      ensures latencyFrames == LatencyFrames(report, framesCount, sampleRate)
      ensures Max(0, framesPresented - 2 * latencyFrames) <= frames <= Max(0, framesPresented - latencyFrames)
      ensures var stackFrames := report.bytes / frameSize;
              frames == Max(0, (if stackFrames <= framesPresented <= stackFrames + latencyFrames then stackFrames
                                else framesPresented) - latencyFrames)
    {
      latencyMs := CalculateLatency(report);
      latencyFrames := latencyMs * sampleRate / 1000;
      var stackFrames := report.bytes / frameSize;
      frames := Position(framesPresented, stackFrames, latencyFrames);
      PositionBounds(framesPresented, stackFrames, latencyFrames);
      PositionExact(framesPresented, stackFrames, latencyFrames);
    }

    /** The 32-bit render position agrees, modulo 2^32, with a position that is 0 within the stream's own latency and
        lags the rendered frames by that latency afterwards; it is never ahead of what can have been presented. */
    method GetRenderPosition(report: Report) returns (dspFrames: nat)
      requires frameSize > 0 && sampleRate > 0
      ensures dspFrames < 0x1_0000_0000
      ensures exists wraps: nat ::
        Max(0, framesRendered - LatencyFrames(report, framesCount, sampleRate)) == wraps * 0x1_0000_0000 + dspFrames
      ensures framesRendered <= framesPresented ==>
                dspFrames <= Max(0, framesPresented - LatencyFrames(report, framesCount, sampleRate))
    {
      var _, latencyFrames, _ := CalculateFeedingDelay(report);
      if framesRendered >= latencyFrames {
        dspFrames := (framesRendered - latencyFrames) % FRAMES_WIDTH;
        assert framesRendered - latencyFrames == (framesRendered - latencyFrames) / FRAMES_WIDTH * FRAMES_WIDTH + dspFrames;
      } else {
        dspFrames := 0;
        assert Max(0, framesRendered - latencyFrames) == 0 * FRAMES_WIDTH + dspFrames;
      }
    }
  }

  class BluetoothStreamIn {
    const frameSize: nat
    const sampleRate: nat
    var framesPresented: nat

    constructor (frameSize: nat, sampleRate: nat)
      ensures this.frameSize == frameSize && this.sampleRate == sampleRate && framesPresented == 0
    {
      this.frameSize, this.sampleRate, framesPresented := frameSize, sampleRate, 0;
    }

    /** The input side takes the reported delay and byte count as they come. */
    method CalculateStarvingDelay(delayNs: nat, dispersedBytes: nat) returns (frames: nat)
      requires frameSize > 0
      ensures frames == Position(framesPresented, dispersedBytes / frameSize, delayNs / 1000000 * sampleRate / 1000)
      ensures var latency := delayNs / 1000000 * sampleRate / 1000;
              Max(0, framesPresented - 2 * latency) <= frames <= Max(0, framesPresented - latency)
      ensures var stackFrames, latency := dispersedBytes / frameSize, delayNs / 1000000 * sampleRate / 1000;
              frames == Max(0, (if stackFrames <= framesPresented <= stackFrames + latency then stackFrames
                                else framesPresented) - latency)
    {
      var delayMs := delayNs / 1000000;
      var latencyFrames := delayMs * sampleRate / 1000;
      frames := dispersedBytes / frameSize;
      PositionBounds(framesPresented, frames, latencyFrames);
      if framesPresented < frames {
        frames := framesPresented;
      } else if framesPresented - frames > latencyFrames {
        frames := framesPresented;
      }
      if frames > latencyFrames {
        frames := frames - latencyFrames;
      } else {
        frames := 0;
      }
    }
  }

  // ---------- Runs of one stream ----------

  ghost predicate Run(events: seq<Event>, streams: seq<Stream>) {
    && |streams| == |events| + 1
    && streams[0].phase == NotWriting && streams[0].out.rendered == 0 && streams[0].out.presented == 0
    && forall i: nat | i < |events| :: Possible(streams[i], events[i]) && streams[i + 1] == Step(streams[i], events[i])
  }

  /** Every call keeps the port's session and cookie and the order of the counters. */
  lemma StepKeeps(s: Stream, e: Event)
    requires Possible(s, e)
    ensures var o := Step(s, e).out;
            && o.port.cookie == s.out.port.cookie && o.port.sessionType == s.out.port.sessionType
            && (s.out.rendered <= s.out.presented ==> o.rendered <= o.presented)
  {
  }

  /** In every run, also in the middle of a write, rendered frames never exceed presented ones. */
  lemma {:induction false} RenderedWithinPresented(events: seq<Event>, streams: seq<Stream>, n: nat)
    requires Run(events, streams) && n < |streams|
    ensures streams[n].out.rendered <= streams[n].out.presented
    ensures streams[n].out.port.cookie == streams[0].out.port.cookie
    ensures streams[n].out.port.sessionType == streams[0].out.port.sessionType
  {
    if n == 0 {
    } else {
      RenderedWithinPresented(events, streams, n - 1);
      StepKeeps(streams[n - 1], events[n - 1]);
    }
  }

  // ---------- What the counters count ----------

  /** The parameters suspend an A2DP stream. */
  predicate Suspends(o: Out, c: Call) {
    c.ParametersCall? && o.port.A2dp() && c.p.a2dpSuspended == Some("true")
  }

  /** By the time the closing and exiting parameters are looked at, the port is DISABLED. */
  predicate DisabledFirst(o: Out, c: Call)
    requires c.ParametersCall?
  {
    if Suspends(o, c) then o.port.InUse() || o.port.state in {STARTED, DISABLED}
    else o.port.state == DISABLED && (c.p.a2dpSuspended.None? || !o.port.A2dp())
  }

  /** The parameters close or exit a stream that is not DISABLED. */
  predicate Closes(o: Out, c: Call) {
    c.ParametersCall? && (c.p.closing == Some("true") || c.p.exiting == Some("1")) && !DisabledFirst(o, c)
  }

  /** The rendered frames are counted anew: the stream closes, is suspended by its parameters, or stands by or pauses. */
  predicate Restarts(o: Out, c: Call) {
    Closes(o, c) || Suspends(o, c) || (c.SuspendCall? && o.port.state == STARTED)
  }

  /** What the parameters do, case by case. */
  lemma ParametersMeaning(o: Out, c: Call)
    requires c.ParametersCall?
    ensures var o' := AfterCall(o, c);
            && (Closes(o, c) || Suspends(o, c) ==> o'.rendered == 0 && (o.port.InUse() ==> o'.port.state == DISABLED))
            && (Closes(o, c) ==> o'.presented == 0)
            && (!Closes(o, c) ==> o'.presented == o.presented)
            && (!Closes(o, c) && !Suspends(o, c) ==>
                  && o'.rendered == o.rendered
                  && o'.port.state == if o.port.A2dp() && c.p.a2dpSuspended.Some? && o.port.state == DISABLED then STANDBY
                                      else o.port.state)
  {
  }

  /** The frames that an event adds: those of a whole buffer, if the data path took any of it. */
  function NewFrames(s: Stream, e: Event): nat {
    if e.Count? && s.phase.Handed? && s.phase.accepted > 0 && e.frameSize > 0 then s.phase.bytes / e.frameSize else 0
  }

  /** The frames of all buffers counted up to n since the stream last closed. */
  ghost function FramesSinceClosing(events: seq<Event>, streams: seq<Stream>, n: nat): nat
    requires n < |streams| == |events| + 1
  {
    if n == 0 || (events[n - 1].Other? && Closes(streams[n - 1].out, events[n - 1].call)) then 0
    else FramesSinceClosing(events, streams, n - 1) + NewFrames(streams[n - 1], events[n - 1])
  }

  /** The frames of all buffers counted up to n since the stream was last suspended or closed. */
  ghost function FramesSinceRestart(events: seq<Event>, streams: seq<Stream>, n: nat): nat
    requires n < |streams| == |events| + 1
  {
    if n == 0 || (events[n - 1].Other? && Restarts(streams[n - 1].out, events[n - 1].call)) then 0
    else FramesSinceRestart(events, streams, n - 1) + NewFrames(streams[n - 1], events[n - 1])
  }

  /** One step moves the counters by its new frames, or sets them back. */
  lemma StepCounts(s: Stream, e: Event)
    requires Possible(s, e)
    ensures var o := Step(s, e).out;
            && o.presented == (if e.Other? && Closes(s.out, e.call) then 0 else s.out.presented + NewFrames(s, e))
            && o.rendered == (if e.Other? && Restarts(s.out, e.call) then 0 else s.out.rendered + NewFrames(s, e))
  {
    if e.Other? && e.call.ParametersCall? {
      ParametersMeaning(s.out, e.call);
    }
  }

  /** In every run the presented counter is the frames of the buffers counted since the last closing, and the rendered one
      those since the last suspension or closing. */
  lemma {:induction false} CountersAreFrames(events: seq<Event>, streams: seq<Stream>, n: nat)
    requires Run(events, streams) && n < |streams|
    ensures streams[n].out.presented == FramesSinceClosing(events, streams, n)
    ensures streams[n].out.rendered == FramesSinceRestart(events, streams, n)
  {
    if n == 0 {
    } else {
      CountersAreFrames(events, streams, n - 1);
      StepCounts(streams[n - 1], events[n - 1]);
    }
  }

  /** The buffer of a write under way. */
  function BytesOf(phase: Phase): nat
    requires phase != NotWriting
  {
    match phase
    case Asking(bytes) => bytes
    case Refused(bytes) => bytes
    case Cleared(bytes) => bytes
    case Handed(bytes, _) => bytes
  }

  /** The write under way is the one begun last, and it has not ended. */
  lemma {:induction false} WriteUnderWay(events: seq<Event>, streams: seq<Stream>, n: nat) returns (b: nat)
    requires Run(events, streams) && n < |streams| && streams[n].phase != NotWriting
    ensures b < n && events[b] == BeginWrite(BytesOf(streams[n].phase))
    ensures forall i: nat | b < i < n :: !events[i].BeginWrite? && events[i] != GiveUp && !events[i].Count?
  {
    if n == 0 {
      assert false;
    } else if streams[n - 1].phase == NotWriting {
      b := n - 1;
    } else {
      b := WriteUnderWay(events, streams, n - 1);
    }
  }

  /** What the data path took is what it took when the buffer was handed over. */
  lemma {:induction false} HandedOver(events: seq<Event>, streams: seq<Stream>, n: nat) returns (h: nat)
    requires Run(events, streams) && n < |streams| && streams[n].phase.Handed?
    ensures h < n && events[h] == HandOver(streams[n].phase.accepted)
    ensures forall i: nat | h < i < n :: events[i].Other?
  {
    if n == 0 {
      assert false;
    } else if streams[n - 1].phase.Handed? {
      h := HandedOver(events, streams, n - 1);
    } else {
      h := n - 1;
    }
  }

  /** What the stack has to do for a resume to succeed. */
  lemma ResumeSucceeds(o: Out, env: Env)
    ensures Resumed(o, env).0 == OK
       <==> o.port.state == STARTED
            || (o.port.state == STANDBY && o.port.InUse() && env.halAccepts && env.during != []
                && env.during[0] == ControlResult(SUCCESS)
                && forall i | 0 < i < |env.during| :: env.during[i] == ControlResult(FAILURE))
    ensures Resumed(o, env).0 == OK ==> Resumed(o, env).1.port.state == STARTED
  {
    StartedAfterWait(env.during);
  }

  /** A buffer is handed over only after the port was seen STARTED, at the beginning of the write or by its resume. */
  lemma {:induction false} ClearedByStarted(events: seq<Event>, streams: seq<Stream>, n: nat) returns (k: nat)
    requires Run(events, streams) && n < |streams| && streams[n].phase.Cleared?
    ensures k < n && forall i: nat | k < i < n :: events[i].Other?
    ensures (events[k].BeginWrite? && streams[k].out.port.state == STARTED)
            || (events[k].ResumeWrite? && streams[k + 1].out.port.state == STARTED)
  {
    if n == 0 {
      assert false;
    } else if streams[n - 1].phase.Cleared? {
      k := ClearedByStarted(events, streams, n - 1);
    } else {
      k := n - 1;
      if events[k].ResumeWrite? {
        ResumeSucceeds(streams[k].out, events[k].env);
      }
    }
  }

  /** In every run the render position is the frames since the last suspension or closing that have left the latency. */
  lemma RenderPositionIsFrames(events: seq<Event>, streams: seq<Stream>, n: nat, latency: nat)
    requires Run(events, streams) && n < |streams|
    ensures RenderPosition(streams[n].out, latency) == Max(0, FramesSinceRestart(events, streams, n) - latency)
  {
    CountersAreFrames(events, streams, n);
  }

  // ---------- What holds of every run ----------

  /** In every run and for every latency the render position is at most the largest presentation position. */
  lemma RenderPositionInRuns(events: seq<Event>, streams: seq<Stream>, n: nat, latency: nat)
    requires Run(events, streams) && n < |streams|
    ensures RenderPosition(streams[n].out, latency) <= Max(0, streams[n].out.presented - latency)
  {
    RenderedWithinPresented(events, streams, n);
  }

  /** The render position advances only when a write is counted, and by at most the frames of its buffer. */
  lemma RenderPositionAdvances(s: Stream, e: Event, latency: nat)
    requires Possible(s, e)
    ensures RenderPosition(Step(s, e).out, latency)
         <= RenderPosition(s.out, latency) + if e.Count? && s.phase.accepted > 0 then s.phase.bytes / e.frameSize else 0
  {
  }

  /** The presented counter falls only when a stream closes, which clears both counters and disables the port;
      otherwise the two counters move together, or the rendered one restarts. */
  lemma CountersMove(s: Stream, e: Event)
    requires Possible(s, e)
    ensures var o, o' := s.out, Step(s, e).out;
            if o'.presented < o.presented
            then e.Other? && e.call.ParametersCall? && o'.presented == 0 && o'.rendered == 0
                 && (o.port.InUse() ==> o'.port.state == DISABLED)
            else o'.rendered == 0 || o'.rendered - o.rendered == o'.presented - o.presented
  {
  }

  /** What the stack has to do for a standby or a pause to succeed; an idle or disabled stream succeeds at once. */
  lemma SuspendSucceeds(o: Out, env: Env)
    ensures Suspended(o, env).0 == OK
       <==> o.port.state in {STANDBY, DISABLED}
            || (o.port.state == STARTED && o.port.InUse() && env.halAccepts && env.during != []
                && env.during[0] == ControlResult(SUCCESS)
                && forall i | 0 < i < |env.during| :: env.during[i] != SessionChanged)
    ensures Suspended(o, env).0 == OK ==> Suspended(o, env).1.port.state in {STANDBY, DISABLED}
  {
    StandbyAfterWait(env.during);
  }

  /** The outcomes of a resume by port state; only an idle port is touched, and it is left STARTING only unheard. */
  lemma ResumeOutcomes(o: Out, env: Env)
    ensures var (outcome, o') := Resumed(o, env);
            && (outcome == EBUSY <==> o.port.state in {STARTING, SUSPENDING})
            && (outcome == EINVAL <==> o.port.state == DISABLED)
            && (outcome == EIO ==> o.port.state == STANDBY)
            && o'.rendered == o.rendered && o'.presented == o.presented
            && (o.port.state != STANDBY ==> o' == o)
            && (o.port.state == STANDBY && o.port.InUse() ==>
                  if env.during == [] then o'.port.state == STARTING else o'.port.state in {STARTED, STANDBY, DISABLED})
  {
    StartedAfterWait(env.during);
  }

  /** The outcomes of a standby or a pause by port state; only a started port is touched. */
  lemma SuspendOutcomes(o: Out, env: Env)
    ensures var (outcome, o') := Suspended(o, env);
            && (outcome == EBUSY <==> o.port.state in {STARTING, SUSPENDING})
            && outcome != EINVAL && (outcome == EIO ==> o.port.state == STARTED)
            && o'.presented == o.presented
            && o'.rendered == (if o.port.state == STARTED then 0 else o.rendered)
            && (o.port.state != STARTED ==> o' == o)
            && (o.port.state == STARTED && o.port.InUse() ==>
                  if env.during == [] then o'.port.state == SUSPENDING else o'.port.state in {STANDBY, DISABLED})
  {
    StandbyAfterWait(env.during);
  }

  /** The call lifts the suspension of an A2DP stream and does not close it again. */
  predicate Lifts(o: Out, c: Call) {
    c.ParametersCall? && o.port.A2dp() && c.p.a2dpSuspended.Some? && c.p.a2dpSuspended.value != "true"
    && !(o.port.InUse() && (c.p.closing == Some("true") || c.p.exiting == Some("1")))
  }

  /** One step leaves DISABLED exactly when it is a call that lifts the suspension. */
  lemma DisabledStep(s: Stream, e: Event)
    requires Possible(s, e) && s.out.port.state == DISABLED
    ensures Step(s, e).out.port.state == DISABLED <==> !(e.Other? && Lifts(s.out, e.call))
  {
    match e
    case Other(Reports(cs)) => CallbacksKeepDisabled(cs);
    case _ =>
  }

  /** For a stream that is not A2DP nothing but the counting of a buffer that was handed over before touches it. */
  lemma DisabledStepKeeps(s: Stream, e: Event)
    requires Possible(s, e) && s.out.port.state == DISABLED && !s.out.port.A2dp()
    ensures !e.Count? ==> Step(s, e).out == s.out
    ensures Step(s, e).out.port == s.out.port
    ensures Step(s, e).phase.Cleared? ==> s.phase.Cleared?
  {
    match e
    case Other(Reports(cs)) => CallbacksKeepDisabled(cs);
    case _ =>
  }

  /** For a stream that is not A2DP, once DISABLED always DISABLED. */
  lemma {:induction false} DisabledForGood(events: seq<Event>, streams: seq<Stream>, m: nat, n: nat)
    requires Run(events, streams) && m <= n < |streams|
    requires !streams[0].out.port.A2dp() && streams[m].out.port.state == DISABLED
    ensures streams[n].out.port == streams[m].out.port
  {
    if n == m {
    } else {
      DisabledForGood(events, streams, m, n - 1);
      RenderedWithinPresented(events, streams, n - 1);
      DisabledStepKeeps(streams[n - 1], events[n - 1]);
    }
  }

  /** Event b begins a write of a stream that is not A2DP and DISABLED since m, and the write has not given up before n. */
  ghost predicate DisabledWrite(events: seq<Event>, streams: seq<Stream>, m: nat, b: nat, n: nat) {
    && Run(events, streams) && m <= b < n < |streams|
    && !streams[0].out.port.A2dp() && streams[m].out.port.state == DISABLED
    && events[b].BeginWrite? && forall i: nat | b < i < n :: events[i] != GiveUp
  }

  /** Whatever other calls come in between, such a write never reaches the data path and leaves the stream unchanged. */
  lemma {:induction false} DisabledWriteWaits(events: seq<Event>, streams: seq<Stream>, m: nat, b: nat, n: nat)
    requires DisabledWrite(events, streams, m, b, n)
    ensures streams[n].phase in {Asking(events[b].bytes), Refused(events[b].bytes)}
    ensures streams[n].out == streams[b].out
  {
    DisabledForGood(events, streams, m, n - 1);
    RenderedWithinPresented(events, streams, n - 1);
    if n == b + 1 {
      assert streams[n] == Step(streams[b], events[b]);
    } else {
      DisabledWriteWaits(events, streams, m, b, n - 1);
      DisabledStepKeeps(streams[n - 1], events[n - 1]);
    }
  }

  /** And when it ends, it reports all its bytes as consumed. */
  lemma DisabledWriteDrops(events: seq<Event>, streams: seq<Stream>, m: nat, b: nat, n: nat)
    requires DisabledWrite(events, streams, m, b, n) && n < |events|
    requires ReportedBytes(streams[n], events[n]).Some?
    ensures ReportedBytes(streams[n], events[n]) == Some(events[b].bytes)
    ensures streams[n + 1].out == streams[b].out
  {
    DisabledWriteWaits(events, streams, m, b, n);
    DisabledForGood(events, streams, m, n);
  }
}
