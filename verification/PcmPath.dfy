/** The polling loops that move PCM bytes over the shared message queue. */
module PcmPath {
  import opened Wrappers

  type Byte = x: int | -128 <= x < 128

  /** A bounded queue with the history of both of its ends. */
  datatype Queue = Queue(capacity: nat, content: seq<Byte>, sent: seq<Byte>, received: seq<Byte>) {
    /** Nothing is lost, duplicated or reordered between the two ends. */
    ghost predicate Valid() {
      |content| <= capacity && sent == received + content
    }

    function Space(): int {
      capacity - |content|
    }

    function Push(data: seq<Byte>): Queue {
      this.(content := content + data, sent := sent + data)
    }

    function Pop(n: nat): Queue
      requires n <= |content|
    {
      this.(content := content[n..], received := received + content[..n])
    }
  }

  function NewQueue(capacity: nat): Queue {
    Queue(capacity, [], [], [])
  }

  lemma PushPopKeepValid(q: Queue, data: seq<Byte>, n: nat)
    requires q.Valid()
    ensures |data| <= q.Space() ==> q.Push(data).Valid()
    ensures n <= |q.content| ==> q.Pop(n).Valid()
  {
    assert q.received + (q.content + data) == q.sent + data;
    if n <= |q.content| {
      assert q.received + q.content[..n] + q.content[n..] == q.received + q.content;
    }
  }

  function Min(a: int, b: int): int {
    if a <= b then a else b
  }

  // ---------- One turn of each loop ----------

  const TIMEOUT_MS := 1000
  const POLL_MS := 1

  /** Why a loop was left. */
  datatype Ending = Complete | NotReady | Failed | TimedOut

  /** A call of OutWritePcmData under way or over. `from` counts the bytes it moved before the present queue existed. */
  datatype WriteCall = WriteCall(buffer: seq<Byte>, from: nat, written: nat, timeoutMs: nat, ending: Option<Ending>) {
    predicate Valid() {
      from <= written <= |buffer| && timeoutMs <= TIMEOUT_MS && (ending == Some(Complete) <==> written == |buffer|)
    }

    /** The bytes that went into the present queue. */
    function Accepted(): seq<Byte>
      requires Valid()
    {
      buffer[from..written]
    }
  }

  /** A call of InReadPcmData under way or over. */
  datatype ReadCall = ReadCall(bytes: nat, from: nat, data: seq<Byte>, timeoutMs: nat, ending: Option<Ending>) {
    predicate Valid() {
      from <= |data| <= bytes && timeoutMs <= TIMEOUT_MS && (ending == Some(Complete) <==> |data| == bytes)
    }

    /** The bytes that came out of the present queue. */
    function Returned(): seq<Byte>
      requires Valid()
    {
      data[from..]
    }
  }

  function NewWrite(buffer: seq<Byte>): (c: WriteCall)
    ensures c.Valid()
  {
    WriteCall(buffer, 0, 0, TIMEOUT_MS, if buffer == [] then Some(Complete) else None)
  }

  function NewRead(bytes: nat): (c: ReadCall)
    ensures c.Valid()
  {
    ReadCall(bytes, 0, [], TIMEOUT_MS, if bytes == 0 then Some(Complete) else None)
  }

  function WriteTurn(q: Queue, c: WriteCall, ready: bool, fails: bool): (Queue, WriteCall)
    requires q.Space() >= 0 && c.Valid() && c.ending.None?
  {
    if !ready then (q, c.(ending := Some(NotReady)))
    else if q.Space() != 0 then
      var n := Min(q.Space(), |c.buffer| - c.written);
      if fails then (q, c.(ending := Some(Failed)))
      else (q.Push(c.buffer[c.written..c.written + n]),
            c.(written := c.written + n, ending := if c.written + n == |c.buffer| then Some(Complete) else None))
    else if c.timeoutMs >= POLL_MS then (q, c.(timeoutMs := c.timeoutMs - POLL_MS))
    else (q, c.(ending := Some(TimedOut)))
  }

  function ReadTurn(q: Queue, c: ReadCall, ready: bool, fails: bool): (Queue, ReadCall)
    requires c.Valid() && c.ending.None?
  {
    if !ready then (q, c.(ending := Some(NotReady)))
    else if |q.content| != 0 then
      var n := Min(|q.content|, c.bytes - |c.data|);
      if fails then (q, c.(ending := Some(Failed)))
      else (q.Pop(n), c.(data := c.data + q.content[..n], ending := if |c.data| + n == c.bytes then Some(Complete) else None))
    else if c.timeoutMs >= POLL_MS then (q, c.(timeoutMs := c.timeoutMs - POLL_MS))
    else (q, c.(ending := Some(TimedOut)))
  }

  /** One turn keeps queue and call sound, puts into the queue exactly what it adds to the accepted bytes, and leaves
      the other end alone. */
  lemma WriteTurnMoves(q: Queue, c: WriteCall, ready: bool, fails: bool)
    requires q.Valid() && c.Valid() && c.ending.None?
    ensures var (q', c') := WriteTurn(q, c, ready, fails);
            && q'.Valid() && q'.capacity == q.capacity && c'.Valid() && c'.buffer == c.buffer && c'.from == c.from
            && c.written <= c'.written && c'.timeoutMs <= c.timeoutMs
            && q'.sent == q.sent + c.buffer[c.written..c'.written]
            && c'.Accepted() == c.Accepted() + c.buffer[c.written..c'.written]
            && q'.received == q.received
  {
    var n := Min(q.Space(), |c.buffer| - c.written);
    PushPopKeepValid(q, c.buffer[c.written..c.written + n], 0);
  }

  lemma ReadTurnMoves(q: Queue, c: ReadCall, ready: bool, fails: bool)
    requires q.Valid() && c.Valid() && c.ending.None?
    ensures var (q', c') := ReadTurn(q, c, ready, fails);
            && q'.Valid() && q'.capacity == q.capacity && c'.Valid() && c'.bytes == c.bytes && c'.from == c.from
            && |c.data| <= |c'.data| && c'.data[..|c.data|] == c.data && c'.timeoutMs <= c.timeoutMs
            && q'.received == q.received + c'.data[|c.data|..]
            && c'.Returned() == c.Returned() + c'.data[|c.data|..]
            && q'.sent == q.sent
  {
    PushPopKeepValid(q, [], Min(|q.content|, c.bytes - |c.data|));
  }

  /** A turn, case by case: it ends an unready or failing call without moving anything, moves as much as the queue has room
      for or the buffer still holds, or finds the queue full and polls, 1000 times at most. */
  lemma WriteTurnCases(q: Queue, c: WriteCall, ready: bool, fails: bool)
    requires q.Valid() && c.Valid() && c.ending.None?
    ensures var (q', c') := WriteTurn(q, c, ready, fails);
            && (!ready ==> q' == q && c' == c.(ending := Some(NotReady)))
            && (ready && q.Space() > 0 && fails ==> q' == q && c' == c.(ending := Some(Failed)))
            && (ready && q.Space() > 0 && !fails ==>
                  && c'.written > c.written && c'.timeoutMs == c.timeoutMs
                  && (c'.ending == Some(Complete) || (c'.ending.None? && q'.Space() == 0)))
            && (ready && q.Space() == 0 && c.timeoutMs > 0 ==> q' == q && c' == c.(timeoutMs := c.timeoutMs - 1))
            && (ready && q.Space() == 0 && c.timeoutMs == 0 ==> q' == q && c' == c.(ending := Some(TimedOut)))
  {
  }

  lemma ReadTurnCases(q: Queue, c: ReadCall, ready: bool, fails: bool)
    requires q.Valid() && c.Valid() && c.ending.None?
    ensures var (q', c') := ReadTurn(q, c, ready, fails);
            && (!ready ==> q' == q && c' == c.(ending := Some(NotReady)))
            && (ready && q.content != [] && fails ==> q' == q && c' == c.(ending := Some(Failed)))
            && (ready && q.content != [] && !fails ==>
                  && |c'.data| > |c.data| && c'.timeoutMs == c.timeoutMs
                  && (c'.ending == Some(Complete) || (c'.ending.None? && q'.content == [])))
            && (ready && q.content == [] && c.timeoutMs > 0 ==> q' == q && c' == c.(timeoutMs := c.timeoutMs - 1))
            && (ready && q.content == [] && c.timeoutMs == 0 ==> q' == q && c' == c.(ending := Some(TimedOut)))
  {
  }

  /** A turn that moves nothing and does not end the call uses up one poll. */
  lemma WriteTurnProgress(q: Queue, c: WriteCall, ready: bool, fails: bool)
    requires q.Valid() && c.Valid() && c.ending.None?
    ensures var c' := WriteTurn(q, c, ready, fails).1;
            c'.ending.None? ==> (|c.buffer| - c'.written) + c'.timeoutMs < (|c.buffer| - c.written) + c.timeoutMs
  {
  }

  lemma ReadTurnProgress(q: Queue, c: ReadCall, ready: bool, fails: bool)
    requires q.Valid() && c.Valid() && c.ending.None?
    ensures var c' := ReadTurn(q, c, ready, fails).1;
            c'.ending.None? ==> (c.bytes - |c'.data|) + c'.timeoutMs < (c.bytes - |c.data|) + c.timeoutMs
  {
  }

  // ---------- What everyone else does ----------

  /** What everyone else does before one turn of a loop: the session may end, be ready again on another queue, or keep
      its queue while the peer works on it; and the turn's queue operation may fail. */
  datatype Turn = Turn(ready: bool, newQueue: Option<Queue>, peerPops: nat, peerPushes: seq<Byte>, fails: bool) {
    ghost predicate Sound() {
      newQueue.Some? ==> newQueue.value.Valid()
    }
  }

  function PeerRead(q: Queue, turn: Turn): Queue {
    if turn.newQueue.Some? then turn.newQueue.value else q.Pop(Min(turn.peerPops, |q.content|))
  }

  function PeerWrote(q: Queue, turn: Turn): Queue
    requires q.Space() >= 0
  {
    if turn.newQueue.Some? then turn.newQueue.value
    else q.Push(turn.peerPushes[..Min(|turn.peerPushes|, q.Space())])
  }

  lemma PeersKeepValid(q: Queue, turn: Turn)
    requires q.Valid() && turn.Sound()
    ensures PeerRead(q, turn).Valid() && PeerWrote(q, turn).Valid()
    ensures turn.newQueue.None? ==> PeerRead(q, turn).sent == q.sent && PeerWrote(q, turn).received == q.received
  {
    PushPopKeepValid(q, turn.peerPushes[..Min(|turn.peerPushes|, q.Space())], Min(turn.peerPops, |q.content|));
  }

  // ---------- The loops ----------

  datatype WriteState = WriteState(queue: Queue, call: WriteCall) {
    ghost predicate Valid() {
      queue.Valid() && call.Valid()
    }
  }

  datatype ReadState = ReadState(queue: Queue, call: ReadCall) {
    ghost predicate Valid() {
      queue.Valid() && call.Valid()
    }
  }

  /** One turn of an open call, after what everyone else does. */
  ghost function NextWrite(s: WriteState, turn: Turn): (r: WriteState)
    requires s.Valid() && turn.Sound() && s.call.ending.None?
    ensures r.Valid()
  {
    PeersKeepValid(s.queue, turn);
    WriteTurnMoves(PeerRead(s.queue, turn), s.call, turn.ready, turn.fails);
    var (q, c) := WriteTurn(PeerRead(s.queue, turn), s.call, turn.ready, turn.fails);
    WriteState(q, c)
  }

  ghost function NextRead(s: ReadState, turn: Turn): (r: ReadState)
    requires s.Valid() && turn.Sound() && s.call.ending.None?
    ensures r.Valid()
  {
    PeersKeepValid(s.queue, turn);
    ReadTurnMoves(PeerWrote(s.queue, turn), s.call, turn.ready, turn.fails);
    var (q, c) := ReadTurn(PeerWrote(s.queue, turn), s.call, turn.ready, turn.fails);
    ReadState(q, c)
  }

  /** The states of one call, turn by turn; only the last may be that of a call that is over. */
  ghost predicate WriteTrace(states: seq<WriteState>, env: nat -> Turn) {
    && |states| > 0
    && (forall i: nat | i < |states| :: states[i].Valid())
    && forall i: nat | i < |states| - 1 ::
         env(i).Sound() && states[i].call.ending.None? && states[i + 1] == NextWrite(states[i], env(i))
  }

  ghost predicate ReadTrace(states: seq<ReadState>, env: nat -> Turn) {
    && |states| > 0
    && (forall i: nat | i < |states| :: states[i].Valid())
    && forall i: nat | i < |states| - 1 ::
         env(i).Sound() && states[i].call.ending.None? && states[i + 1] == NextRead(states[i], env(i))
  }

  /** The turns up to n that moved nothing and left the call open. */
  ghost function WritePolls(states: seq<WriteState>, n: nat): nat
    requires n < |states|
  {
    if n == 0 then 0
    else WritePolls(states, n - 1)
         + if states[n].call.ending.None? && states[n].call.written == states[n - 1].call.written then 1 else 0
  }

  ghost function ReadPolls(states: seq<ReadState>, n: nat): nat
    requires n < |states|
  {
    if n == 0 then 0
    else ReadPolls(states, n - 1)
         + if states[n].call.ending.None? && |states[n].call.data| == |states[n - 1].call.data| then 1 else 0
  }

  lemma NextWritePolls(s: WriteState, turn: Turn)
    requires s.Valid() && turn.Sound() && s.call.ending.None?
    ensures var c := NextWrite(s, turn).call;
            s.call.timeoutMs == c.timeoutMs + if c.ending.None? && c.written == s.call.written then 1 else 0
  {
    PeersKeepValid(s.queue, turn);
    WriteTurnCases(PeerRead(s.queue, turn), s.call, turn.ready, turn.fails);
  }

  lemma NextReadPolls(s: ReadState, turn: Turn)
    requires s.Valid() && turn.Sound() && s.call.ending.None?
    ensures var c := NextRead(s, turn).call;
            s.call.timeoutMs == c.timeoutMs + if c.ending.None? && |c.data| == |s.call.data| then 1 else 0
  {
    PeersKeepValid(s.queue, turn);
    ReadTurnCases(PeerWrote(s.queue, turn), s.call, turn.ready, turn.fails);
  }

  /** Each of them uses up one of 1000 milliseconds, and nothing else does. */
  lemma {:induction false} WritePollsCounted(states: seq<WriteState>, env: nat -> Turn, n: nat)
    requires WriteTrace(states, env) && n < |states| && states[0].call == NewWrite(states[0].call.buffer)
    ensures states[n].call.timeoutMs + WritePolls(states, n) == 1000
  {
    if n == 0 {
    } else {
      WritePollsCounted(states, env, n - 1);
      assert states[n] == NextWrite(states[n - 1], env(n - 1));
      NextWritePolls(states[n - 1], env(n - 1));
    }
  }

  lemma {:induction false} ReadPollsCounted(states: seq<ReadState>, env: nat -> Turn, n: nat)
    requires ReadTrace(states, env) && n < |states| && states[0].call == NewRead(states[0].call.bytes)
    ensures states[n].call.timeoutMs + ReadPolls(states, n) == 1000
  {
    if n == 0 {
    } else {
      ReadPollsCounted(states, env, n - 1);
      assert states[n] == NextRead(states[n - 1], env(n - 1));
      NextReadPolls(states[n - 1], env(n - 1));
    }
  }

  lemma LongerWriteTrace(states: seq<WriteState>, env: nat -> Turn)
    requires WriteTrace(states, env) && env(|states| - 1).Sound() && states[|states| - 1].call.ending.None?
    ensures WriteTrace(states + [NextWrite(states[|states| - 1], env(|states| - 1))], env)
  {
  }

  lemma LongerReadTrace(states: seq<ReadState>, env: nat -> Turn)
    requires ReadTrace(states, env) && env(|states| - 1).Sound() && states[|states| - 1].call.ending.None?
    ensures ReadTrace(states + [NextRead(states[|states| - 1], env(|states| - 1))], env)
  {
  }

  /** While the session keeps its queue, a turn adds to the queue's history what it adds to the call. */
  lemma NextWriteMoves(s: WriteState, turn: Turn)
    requires s.Valid() && turn.Sound() && s.call.ending.None? && turn.newQueue.None?
    ensures var r := NextWrite(s, turn);
            && r.call.buffer == s.call.buffer && s.call.written <= r.call.written
            && r.queue.sent == s.queue.sent + s.call.buffer[s.call.written..r.call.written]
  {
    PeersKeepValid(s.queue, turn);
    WriteTurnMoves(PeerRead(s.queue, turn), s.call, turn.ready, turn.fails);
  }

  lemma NextReadMoves(s: ReadState, turn: Turn)
    requires s.Valid() && turn.Sound() && s.call.ending.None? && turn.newQueue.None?
    ensures var r := NextRead(s, turn);
            && |s.call.data| <= |r.call.data| && r.call.data[..|s.call.data|] == s.call.data
            && r.queue.received == s.queue.received + r.call.data[|s.call.data|..]
  {
    PeersKeepValid(s.queue, turn);
    ReadTurnMoves(PeerWrote(s.queue, turn), s.call, turn.ready, turn.fails);
  }

  lemma JoinedPrefix(before: seq<Byte>, s: seq<Byte>, i: nat, j: nat)
    requires i <= j <= |s|
    ensures (before + s[..i]) + s[i..j] == before + s[..j]
  {
  }

  lemma PrefixGrows(s: WriteState, turn: Turn, before: seq<Byte>)
    requires s.Valid() && turn.Sound() && s.call.ending.None? && turn.newQueue.None?
    requires s.queue.sent == before + s.call.buffer[..s.call.written]
    ensures var r := NextWrite(s, turn);
            r.call.buffer == s.call.buffer && r.queue.sent == before + s.call.buffer[..r.call.written]
  {
    NextWriteMoves(s, turn);
    JoinedPrefix(before, s.call.buffer, s.call.written, NextWrite(s, turn).call.written);
  }

  /** While the session keeps its queue, a call appends exactly the prefix of the buffer it counts as written. */
  lemma {:induction false} WritesPrefix(states: seq<WriteState>, env: nat -> Turn, q: Queue, buffer: seq<Byte>, n: nat)
    requires WriteTrace(states, env) && states[0] == WriteState(q, NewWrite(buffer)) && n < |states|
    requires forall i: nat | i < n :: env(i).newQueue.None?
    ensures states[n].call.buffer == buffer && states[n].queue.sent == q.sent + buffer[..states[n].call.written]
  {
    if n == 0 {
      assert buffer[..0] == [];
    } else {
      WritesPrefix(states, env, q, buffer, n - 1);
      assert states[n] == NextWrite(states[n - 1], env(n - 1));
      PrefixGrows(states[n - 1], env(n - 1), q.sent);
    }
  }

  /** While the session keeps its queue, a call takes exactly the bytes it hands out. */
  lemma {:induction false} ReadsNext(states: seq<ReadState>, env: nat -> Turn, q: Queue, bytes: nat, n: nat)
    requires ReadTrace(states, env) && states[0] == ReadState(q, NewRead(bytes)) && n < |states|
    requires forall i: nat | i < n :: env(i).newQueue.None?
    ensures states[n].queue.received == q.received + states[n].call.data
  {
    if n == 0 {
    } else {
      ReadsNext(states, env, q, bytes, n - 1);
      assert states[n] == NextRead(states[n - 1], env(n - 1));
      NextReadMoves(states[n - 1], env(n - 1));
      var data := states[n].call.data;
      JoinedPrefix(q.received, data, |states[n - 1].call.data|, |data|);
      assert data[..|data|] == data;
    }
  }

  predicate KeepsQueue(env: nat -> Turn, n: nat) {
    forall k: nat | k < n :: env(k).newQueue.None?
  }

  /** What the trace of a whole call says about its bytes while the session keeps its queue. */
  lemma WriteTraceBytes(states: seq<WriteState>, env: nat -> Turn, q: Queue, buffer: seq<Byte>)
    requires WriteTrace(states, env) && states[0] == WriteState(q, NewWrite(buffer))
    ensures var s := states[|states| - 1];
            KeepsQueue(env, |states| - 1) ==> s.call.buffer == buffer && s.queue.sent == q.sent + buffer[..s.call.written]
  {
    if KeepsQueue(env, |states| - 1) {
      WritesPrefix(states, env, q, buffer, |states| - 1);
    }
  }

  lemma ReadTraceBytes(states: seq<ReadState>, env: nat -> Turn, q: Queue, bytes: nat)
    requires ReadTrace(states, env) && states[0] == ReadState(q, NewRead(bytes))
    ensures var s := states[|states| - 1];
            KeepsQueue(env, |states| - 1) ==> s.queue.received == q.received + s.call.data
  {
    if KeepsQueue(env, |states| - 1) {
      ReadsNext(states, env, q, bytes, |states| - 1);
    }
  }

  /** What a last turn looks like that leaves a call unfinished. */
  predicate StopsShort(turn: Turn, exhausted: bool) {
    !turn.ready || turn.fails || exhausted
  }

  /** How the last turn of a call looks that is over without being complete. */
  lemma WriteStops(states: seq<WriteState>, env: nat -> Turn)
    requires WriteTrace(states, env) && states[0].call.ending.None?
    requires var c := states[|states| - 1].call; c.ending.Some? && c.written < |c.buffer|
    ensures var s := states[|states| - 1];
            |states| > 1 && StopsShort(env(|states| - 2), s.call.timeoutMs == 0 && s.queue.Space() == 0)
  {
    var n := |states| - 1;
    var s, turn := states[n - 1], env(n - 1);
    assert states[n] == NextWrite(s, turn);
    PeersKeepValid(s.queue, turn);
    WriteTurnCases(PeerRead(s.queue, turn), s.call, turn.ready, turn.fails);
  }

  lemma ReadStops(states: seq<ReadState>, env: nat -> Turn)
    requires ReadTrace(states, env) && states[0].call.ending.None?
    requires var c := states[|states| - 1].call; c.ending.Some? && |c.data| < c.bytes
    ensures var s := states[|states| - 1];
            |states| > 1 && StopsShort(env(|states| - 2), s.call.timeoutMs == 0 && s.queue.content == [])
  {
    var n := |states| - 1;
    var s, turn := states[n - 1], env(n - 1);
    assert states[n] == NextRead(s, turn);
    PeersKeepValid(s.queue, turn);
    ReadTurnCases(PeerWrote(s.queue, turn), s.call, turn.ready, turn.fails);
  }

  class PcmSession {
    var queue: Queue
    ghost var history: seq<Byte>  // all bytes this side moved, over every queue it had

    constructor (q: Queue)
      ensures queue == q && history == []
    {
      queue, history := q, [];
    }

    /** The body of the writer's loop; `ending` says whether and why the loop is left. */
    method WriteOnce(buffer: seq<Byte>, written: nat, timeoutMs: nat, ready: bool, fails: bool)
      returns (moved: nat, left: nat, ending: Option<Ending>)
      requires queue.Space() >= 0 && written < |buffer| && timeoutMs <= TIMEOUT_MS
      modifies this
      ensures (queue, WriteCall(buffer, 0, moved, left, ending))
           == WriteTurn(old(queue), WriteCall(buffer, 0, written, timeoutMs, None), ready, fails)
      ensures written <= moved <= |buffer| && history == old(history) + buffer[written..moved]
    {
      moved, left := written, timeoutMs;
      if !ready {
        return moved, left, Some(NotReady);
      }
      var n := queue.Space();
      if n != 0 {
        if n > |buffer| - written {
          n := |buffer| - written;
        }
        if fails {
          return moved, left, Some(Failed);
        }
        queue, history := queue.Push(buffer[written..written + n]), history + buffer[written..written + n];
        moved := moved + n;
      } else if timeoutMs >= POLL_MS {
        left := left - POLL_MS;
      } else {
        return moved, left, Some(TimedOut);
      }
      ending := if moved == |buffer| then Some(Complete) else None;
    }

    /** The body of the reader's loop. */
    method ReadOnce(bytes: nat, data: seq<Byte>, timeoutMs: nat, ready: bool, fails: bool)
      returns (moved: seq<Byte>, left: nat, ending: Option<Ending>)
      requires |data| < bytes && timeoutMs <= TIMEOUT_MS
      modifies this
      ensures (queue, ReadCall(bytes, 0, moved, left, ending))
           == ReadTurn(old(queue), ReadCall(bytes, 0, data, timeoutMs, None), ready, fails)
      ensures data <= moved && history == old(history) + moved[|data|..]
    {
      moved, left := data, timeoutMs;
      if !ready {
        return moved, left, Some(NotReady);
      }
      var n := |queue.content|;
      if n != 0 {
        if n > bytes - |data| {
          n := bytes - |data|;
        }
        if fails {
          return moved, left, Some(Failed);
        }
        moved, history := moved + queue.content[..n], history + queue.content[..n];
        queue := queue.Pop(n);
      } else if timeoutMs >= POLL_MS {
        left := left - POLL_MS;
      } else {
        return moved, left, Some(TimedOut);
      }
      ending := if |moved| == bytes then Some(Complete) else None;
    }

    /** Runs the turns of one call until one of them ends it. */
    method WriteAll(bytes: seq<Byte>, env: nat -> Turn) returns (written: nat, polls: nat, ghost states: seq<WriteState>)
      requires queue.Valid() && bytes != [] && forall k: nat :: env(k).Sound()
      modifies this
      ensures WriteTrace(states, env) && states[0] == WriteState(old(queue), NewWrite(bytes))
      ensures var s := states[|states| - 1];
              queue == s.queue && written == s.call.written && polls == TIMEOUT_MS - s.call.timeoutMs && s.call.ending.Some?
      ensures written <= |bytes| && history == old(history) + bytes[..written]
      ensures polls <= TIMEOUT_MS
      ensures written < |bytes| ==>
        |states| > 1 && StopsShort(env(|states| - 2), polls == TIMEOUT_MS && queue.Space() == 0)
    {
      written, states := 0, [WriteState(queue, NewWrite(bytes))];
      var turns, timeoutMs: nat, ending := 0, TIMEOUT_MS, None;
      while ending.None?
        invariant ending.None? ==> written < |bytes|
        invariant timeoutMs <= TIMEOUT_MS && turns == |states| - 1
        invariant WriteTrace(states, env) && states[0] == WriteState(old(queue), NewWrite(bytes))
        invariant states[turns] == WriteState(queue, WriteCall(bytes, 0, written, timeoutMs, ending))
        invariant written <= |bytes| && history == old(history) + bytes[..written]
        decreases if ending.None? then |bytes| - written + timeoutMs + 1 else 0
      {
        var turn := env(turns);
        LongerWriteTrace(states, env);
        PeersKeepValid(queue, turn);
        states := states + [NextWrite(states[turns], turn)];
        queue := PeerRead(queue, turn);
        WriteTurnProgress(queue, WriteCall(bytes, 0, written, timeoutMs, None), turn.ready, turn.fails);
        ghost var before := written;
        written, timeoutMs, ending := WriteOnce(bytes, written, timeoutMs, turn.ready, turn.fails);
        JoinedPrefix(old(history), bytes, before, written);
        turns := turns + 1;
      }
      if written < |bytes| {
        WriteStops(states, env);
      }
      polls := TIMEOUT_MS - timeoutMs;
    }

    /** Whatever everyone else does, there are at most 1000 polls, and the call stops short only when the session is not
        ready, a write fails, or the queue is still full after the last poll. */
    method OutWritePcmData(buffer: Option<seq<Byte>>, env: nat -> Turn)
      returns (written: nat, polls: nat, ghost states: seq<WriteState>)
      requires queue.Valid() && forall k: nat :: env(k).Sound()
      modifies this
      ensures buffer.None? ==> written == 0 && queue == old(queue)
      ensures buffer.Some? ==>
        && WriteTrace(states, env) && states[0] == WriteState(old(queue), NewWrite(buffer.value))
        && var s := states[|states| - 1];
           queue == s.queue && written == s.call.written && polls == TIMEOUT_MS - s.call.timeoutMs && s.call.ending.Some?
      ensures buffer.None? ==> history == old(history)
      ensures buffer.Some? ==> written <= |buffer.value| && history == old(history) + buffer.value[..written]
      ensures buffer.Some? && (forall k: nat :: env(k).newQueue.None?) ==>
                queue.sent == old(queue.sent) + buffer.value[..written]
      ensures polls <= 1000 && (buffer.Some? ==> polls == WritePolls(states, |states| - 1))
      ensures buffer.Some? && written < |buffer.value| ==>
        |states| > 1 && StopsShort(env(|states| - 2), polls == 1000 && queue.Space() == 0)
    {
      if buffer.None? {
        return 0, 0, [];
      }
      if |buffer.value| == 0 {
        return 0, 0, [WriteState(queue, NewWrite(buffer.value))];
      }
      written, polls, states := WriteAll(buffer.value, env);
      WritePollsCounted(states, env, |states| - 1);
      WriteTraceBytes(states, env, old(queue), buffer.value);
    }

    /** Runs the turns of one call until one of them ends it. */
    method ReadAll(bytes: nat, env: nat -> Turn)
      returns (data: seq<Byte>, polls: nat, ghost states: seq<ReadState>)
      requires queue.Valid() && bytes > 0 && forall k: nat :: env(k).Sound()
      modifies this
      ensures ReadTrace(states, env) && states[0] == ReadState(old(queue), NewRead(bytes))
      ensures var s := states[|states| - 1];
              queue == s.queue && data == s.call.data && polls == TIMEOUT_MS - s.call.timeoutMs && s.call.ending.Some?
      ensures |data| <= bytes && history == old(history) + data
      ensures polls <= TIMEOUT_MS
      ensures |data| < bytes ==>
        |states| > 1 && StopsShort(env(|states| - 2), polls == TIMEOUT_MS && queue.content == [])
    {
      data, states := [], [ReadState(queue, NewRead(bytes))];
      var turns, timeoutMs: nat, ending := 0, TIMEOUT_MS, None;
      while ending.None?
        invariant ending.None? ==> |data| < bytes
        invariant timeoutMs <= TIMEOUT_MS && turns == |states| - 1
        invariant ReadTrace(states, env) && states[0] == ReadState(old(queue), NewRead(bytes))
        invariant states[turns] == ReadState(queue, ReadCall(bytes, 0, data, timeoutMs, ending))
        invariant |data| <= bytes && history == old(history) + data
        decreases if ending.None? then bytes - |data| + timeoutMs + 1 else 0
      {
        var turn := env(turns);
        LongerReadTrace(states, env);
        PeersKeepValid(queue, turn);
        states := states + [NextRead(states[turns], turn)];
        queue := PeerWrote(queue, turn);
        ReadTurnProgress(queue, ReadCall(bytes, 0, data, timeoutMs, None), turn.ready, turn.fails);
        ghost var before := data;
        data, timeoutMs, ending := ReadOnce(bytes, data, timeoutMs, turn.ready, turn.fails);
        assert data == before + data[|before|..];
        turns := turns + 1;
      }
      if |data| < bytes {
        ReadStops(states, env);
      }
      polls := TIMEOUT_MS - timeoutMs;
    }

    /** The dual: the call stops short only when the session is not ready, a read fails, or the queue is still empty
        after the last poll. */
    method InReadPcmData(bytes: nat, env: nat -> Turn)
      returns (data: seq<Byte>, polls: nat, ghost states: seq<ReadState>)
      requires queue.Valid() && forall k: nat :: env(k).Sound()
      modifies this
      ensures ReadTrace(states, env) && states[0] == ReadState(old(queue), NewRead(bytes))
      ensures var s := states[|states| - 1];
              queue == s.queue && data == s.call.data && polls == TIMEOUT_MS - s.call.timeoutMs && s.call.ending.Some?
      ensures |data| <= bytes && history == old(history) + data
      ensures (forall k: nat :: env(k).newQueue.None?) ==> queue.received == old(queue.received) + data
      ensures polls <= 1000 && polls == ReadPolls(states, |states| - 1)
      ensures |data| < bytes ==>
        |states| > 1 && StopsShort(env(|states| - 2), polls == 1000 && queue.content == [])
    {
      if bytes == 0 {
        return [], 0, [ReadState(queue, NewRead(bytes))];
      }
      data, polls, states := ReadAll(bytes, env);
      ReadPollsCounted(states, env, |states| - 1);
      ReadTraceBytes(states, env, old(queue), bytes);
    }
  }

  // ---------- Calls of both loops on one session ----------

  /** The present queue with the calls of a writer and of a reader, one after the other on each side. */
  datatype World = World(queue: Queue, sends: seq<WriteCall>, receives: seq<ReadCall>)

  /** Ready and fails are what the session and the queue operation are for that turn. A restarted session has a new
      queue, on which calls under way go on. Steps that touch neither queue nor calls, like other sessions' starts and
      ends, may happen at any time. */
  datatype Event =
    | BeginWrite(buffer: seq<Byte>)
    | TurnOfWrite(ready: bool, fails: bool)
    | BeginRead(bytes: nat)
    | TurnOfRead(ready: bool, fails: bool)
    | Restart(capacity: nat)
    | Elsewhere

  predicate Writing(w: World) {
    w.sends != [] && w.sends[|w.sends| - 1].ending.None?
  }

  predicate Reading(w: World) {
    w.receives != [] && w.receives[|w.receives| - 1].ending.None?
  }

  predicate Possible(w: World, e: Event) {
    match e
    case BeginWrite(_) => !Writing(w)
    case TurnOfWrite(_, _) => Writing(w)
    case BeginRead(_) => !Reading(w)
    case TurnOfRead(_, _) => Reading(w)
    case Restart(_) => true
    case Elsewhere => true
  }

  ghost predicate Sound(w: World) {
    w.queue.Valid() && (forall c | c in w.sends :: c.Valid()) && forall c | c in w.receives :: c.Valid()
  }

  function Step(w: World, e: Event): World
    requires w.queue.Space() >= 0 && (forall c | c in w.sends :: c.Valid()) && (forall c | c in w.receives :: c.Valid())
    requires Possible(w, e)
  {
    match e
    case BeginWrite(buffer) => w.(sends := w.sends + [NewWrite(buffer)])
    case TurnOfWrite(ready, fails) =>
      var n := |w.sends| - 1;
      var (q, c) := WriteTurn(w.queue, w.sends[n], ready, fails);
      w.(queue := q, sends := w.sends[..n] + [c])
    case BeginRead(bytes) => w.(receives := w.receives + [NewRead(bytes)])
    case TurnOfRead(ready, fails) =>
      var n := |w.receives| - 1;
      var (q, c) := ReadTurn(w.queue, w.receives[n], ready, fails);
      w.(queue := q, receives := w.receives[..n] + [c])
    case Restart(capacity) =>
      World(NewQueue(capacity),
            if Writing(w) then var c := w.sends[|w.sends| - 1]; [c.(from := c.written)] else [],
            if Reading(w) then var c := w.receives[|w.receives| - 1]; [c.(from := |c.data|)] else [])
    case Elsewhere => w
  }

  /** The bytes that the calls put into the present queue, call after call. */
  ghost function Accepted(sends: seq<WriteCall>): seq<Byte>
    requires forall c | c in sends :: c.Valid()
  {
    if sends == [] then [] else Accepted(sends[..|sends| - 1]) + sends[|sends| - 1].Accepted()
  }

  /** The bytes that the calls handed out of the present queue, call after call. */
  ghost function Returned(receives: seq<ReadCall>): seq<Byte>
    requires forall c | c in receives :: c.Valid()
  {
    if receives == [] then [] else Returned(receives[..|receives| - 1]) + receives[|receives| - 1].Returned()
  }

  /** The queue's history is what the calls accepted and returned. */
  ghost predicate Inv(w: World) {
    Sound(w) && w.queue.sent == Accepted(w.sends) && w.queue.received == Returned(w.receives)
  }

  lemma AcceptedLast(sends: seq<WriteCall>, c: WriteCall)
    requires c.Valid() && forall d | d in sends :: d.Valid()
    ensures Accepted(sends + [c]) == Accepted(sends) + c.Accepted()
  {
    assert (sends + [c])[..|sends|] == sends;
  }

  lemma ReturnedLast(receives: seq<ReadCall>, c: ReadCall)
    requires c.Valid() && forall d | d in receives :: d.Valid()
    ensures Returned(receives + [c]) == Returned(receives) + c.Returned()
  {
    assert (receives + [c])[..|receives|] == receives;
  }

  lemma AcceptedMore(earlier: seq<WriteCall>, c: WriteCall, c': WriteCall, more: seq<Byte>)
    requires c.Valid() && c'.Valid() && (forall d | d in earlier :: d.Valid()) && c'.Accepted() == c.Accepted() + more
    ensures Accepted(earlier + [c']) == Accepted(earlier + [c]) + more
  {
    AcceptedLast(earlier, c);
    AcceptedLast(earlier, c');
  }

  lemma ReturnedMore(earlier: seq<ReadCall>, c: ReadCall, c': ReadCall, more: seq<Byte>)
    requires c.Valid() && c'.Valid() && (forall d | d in earlier :: d.Valid()) && c'.Returned() == c.Returned() + more
    ensures Returned(earlier + [c']) == Returned(earlier + [c]) + more
  {
    ReturnedLast(earlier, c);
    ReturnedLast(earlier, c');
  }

  lemma TurnOfWriteKeepsInv(w: World, ready: bool, fails: bool)
    requires Inv(w) && Writing(w)
    ensures Inv(Step(w, TurnOfWrite(ready, fails)))
  {
    var n := |w.sends| - 1;
    var earlier, c := w.sends[..n], w.sends[n];
    var c' := WriteTurn(w.queue, c, ready, fails).1;
    WriteTurnMoves(w.queue, c, ready, fails);
    assert w.sends == earlier + [c];
    AcceptedMore(earlier, c, c', c.buffer[c.written..c'.written]);
  }

  lemma TurnOfReadKeepsInv(w: World, ready: bool, fails: bool)
    requires Inv(w) && Reading(w)
    ensures Inv(Step(w, TurnOfRead(ready, fails)))
  {
    var n := |w.receives| - 1;
    var earlier, c := w.receives[..n], w.receives[n];
    var c' := ReadTurn(w.queue, c, ready, fails).1;
    ReadTurnMoves(w.queue, c, ready, fails);
    assert w.receives == earlier + [c];
    ReturnedMore(earlier, c, c', c'.data[|c.data|..]);
  }

  /** Calls under way have put nothing into a new queue yet, and taken nothing out of it. */
  lemma RestartKeepsInv(w: World, capacity: nat)
    requires Inv(w)
    ensures Inv(Step(w, Restart(capacity)))
  {
    if Writing(w) {
      var c := w.sends[|w.sends| - 1];
      assert c in w.sends;
      AcceptedLast([], c.(from := c.written));
      assert [] + [c.(from := c.written)] == [c.(from := c.written)];
    }
    if Reading(w) {
      var c := w.receives[|w.receives| - 1];
      assert c in w.receives;
      ReturnedLast([], c.(from := |c.data|));
      assert [] + [c.(from := |c.data|)] == [c.(from := |c.data|)];
    }
  }

  lemma StepKeepsInv(w: World, e: Event)
    requires Inv(w) && Possible(w, e)
    ensures Inv(Step(w, e))
  {
    match e
    case BeginWrite(buffer) => AcceptedLast(w.sends, NewWrite(buffer));
    case TurnOfWrite(ready, fails) => TurnOfWriteKeepsInv(w, ready, fails);
    case BeginRead(bytes) => ReturnedLast(w.receives, NewRead(bytes));
    case TurnOfRead(ready, fails) => TurnOfReadKeepsInv(w, ready, fails);
    case Restart(capacity) => RestartKeepsInv(w, capacity);
    case Elsewhere =>
  }

  ghost predicate Run(capacity: nat, events: seq<Event>, worlds: seq<World>) {
    && |worlds| == |events| + 1 && worlds[0] == World(NewQueue(capacity), [], [])
    && forall i: nat | i < |events| ::
         Sound(worlds[i]) && Possible(worlds[i], events[i]) && worlds[i + 1] == Step(worlds[i], events[i])
  }

  lemma {:induction false} RunKeepsInv(capacity: nat, events: seq<Event>, worlds: seq<World>, n: nat)
    requires Run(capacity, events, worlds) && n < |worlds|
    ensures Inv(worlds[n])
  {
    if n == 0 {
    } else {
      RunKeepsInv(capacity, events, worlds, n - 1);
      StepKeepsInv(worlds[n - 1], events[n - 1]);
    }
  }

  /** In every interleaving of the turns of both loops: what the reads have handed out of the present queue is a prefix
      of what the writes have put into it, accepted prefix after accepted prefix, at most one capacity behind. */
  lemma ReadIsPrefixOfWritten(capacity: nat, events: seq<Event>, worlds: seq<World>, n: nat)
    requires Run(capacity, events, worlds) && n < |worlds|
    ensures Sound(worlds[n])
    ensures Returned(worlds[n].receives) <= Accepted(worlds[n].sends)
    ensures |Accepted(worlds[n].sends)| - |Returned(worlds[n].receives)| <= worlds[n].queue.capacity
  {
    RunKeepsInv(capacity, events, worlds, n);
  }
}
