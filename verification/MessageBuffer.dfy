/** The stateful-reconnect message buffer of the SignalR client: what is buffered until it is
    acknowledged, which incoming messages are new, and who waits for the buffer to drain. */
module MessageBuffers {
  import opened Sums

  datatype MessageType =
    | Invocation | StreamItem | Completion | StreamInvocation | CancelInvocation
    | Ping | Close | Ack | Sequence

  /** `text` is the serialized message; `sequenceId` is used by Ack and Sequence. */
  datatype Message = Message(kind: MessageType, sequenceId: int, text: string)

  predicate IsInvocationMessage(m: Message) {
    match m.kind
    case Invocation => true
    case StreamItem => true
    case Completion => true
    case StreamInvocation => true
    case CancelInvocation => true
    case Close => false
    case Sequence => false
    case Ping => false
    case Ack => false
  }

  function AckOf(id: int): Message {
    Message(Ack, id, "")
  }

  function SequenceOf(id: int): Message {
    Message(Sequence, id, "")
  }

  /** The promise a send waits on: none was made, or it is pending, resolved or rejected. */
  datatype Waiter = NoWaiter | Pending | Resolved | Rejected

  function Resolve(w: Waiter): Waiter {
    if w == Pending then Resolved else w
  }

  function Reject(w: Waiter): Waiter {
    if w == Pending then Rejected else w
  }

  datatype BufferedItem = BufferedItem(message: Message, id: int, waiter: Waiter)

  function Size(i: BufferedItem): int {
    |i.message.text|
  }

  /** The fields of the buffer. */
  datatype Endpoint = Endpoint(
    bufferSize: int,
    messages: seq<BufferedItem>,
    totalMessageCount: int,
    waitForSequenceMessage: bool,
    nextReceivingSequenceId: int,
    latestReceivedSequenceId: int,
    bufferedByteCount: int,
    reconnectInProgress: bool,
    ackTimerSet: bool)

  function NewEndpoint(bufferSize: int): Endpoint {
    Endpoint(bufferSize, [], 0, false, 1, 0, 0, false, false)
  }

  // ---------- What each operation does to the fields ----------

  /** Buffer an invocation message; nothing happens to the buffer for other messages. */
  function Buffered(e: Endpoint, m: Message): Endpoint {
    if !IsInvocationMessage(m) then e
    else
      var count := e.bufferedByteCount + |m.text|;
      var waiter := if count >= e.bufferSize then Pending else NoWaiter;
      e.(totalMessageCount := e.totalMessageCount + 1,
         bufferedByteCount := count,
         messages := e.messages + [BufferedItem(m, e.totalMessageCount + 1, waiter)])
  }

  function Disconnected(e: Endpoint): Endpoint {
    e.(reconnectInProgress := true, waitForSequenceMessage := true)
  }

  /** How many buffered messages an acknowledgement of `s` covers: those at the front with an id up to `s`. */
  function Covered(items: seq<BufferedItem>, s: int): (n: nat)
    ensures n <= |items|
  {
    if items == [] || items[0].id > s then 0 else 1 + Covered(items[1..], s)
  }

  function ResolveAll(items: seq<BufferedItem>): (r: seq<BufferedItem>)
    ensures |r| == |items|
    ensures forall k :: 0 <= k < |r| ==> r[k] == items[k].(waiter := Resolve(items[k].waiter))
  {
    seq(|items|, k requires 0 <= k < |items| => items[k].(waiter := Resolve(items[k].waiter)))
  }

  function Bytes(items: seq<BufferedItem>): int {
    SumBy(items, Size)
  }

  /** An acknowledgement drops what it covers and, if the buffer is now under its limit, releases every waiter. */
  function Acked(e: Endpoint, s: int): Endpoint {
    var n := Covered(e.messages, s);
    var count := e.bufferedByteCount - Bytes(e.messages[..n]);
    var rest := if count < e.bufferSize then ResolveAll(e.messages[n..]) else e.messages[n..];
    e.(messages := rest, bufferedByteCount := count)
  }

  /** Whether an incoming message is to be processed; invocation messages are counted as they pass. */
  function Screened(e: Endpoint, m: Message): (Endpoint, bool) {
    if e.waitForSequenceMessage then
      if m.kind != Sequence then (e, false) else (e.(waitForSequenceMessage := false), true)
    else if !IsInvocationMessage(m) then (e, true)
    else
      var id := e.nextReceivingSequenceId;
      var e1 := e.(nextReceivingSequenceId := id + 1);
      if id <= e.latestReceivedSequenceId then
        (if id == e.latestReceivedSequenceId then e1.(ackTimerSet := true) else e1, false)
      else (e1.(latestReceivedSequenceId := id, ackTimerSet := true), true)
  }

  /** A sequence message rewinds the receiving id; one beyond it stops the connection instead. */
  function Rewound(e: Endpoint, s: int): (Endpoint, bool) {
    if s > e.nextReceivingSequenceId then (e, true) else (e.(nextReceivingSequenceId := s), false)
  }

  /** The id of the oldest buffered message, or of the next one when none is buffered. */
  function FirstBuffered(e: Endpoint): int {
    if e.messages != [] then e.messages[0].id else e.totalMessageCount + 1
  }

  function Texts(items: seq<BufferedItem>): (r: seq<Message>)
    ensures |r| == |items| && forall k :: 0 <= k < |r| ==> r[k] == items[k].message
  {
    seq(|items|, k requires 0 <= k < |items| => items[k].message)
  }

  /** What a resend puts on the connection. */
  function ResendFrames(e: Endpoint): seq<Message> {
    [SequenceOf(FirstBuffered(e))] + Texts(e.messages)
  }

  function RejectAll(items: seq<BufferedItem>): (r: seq<BufferedItem>)
    ensures |r| == |items|
    ensures forall k :: 0 <= k < |r| ==> r[k] == items[k].(waiter := Reject(items[k].waiter))
  {
    seq(|items|, k requires 0 <= k < |items| => items[k].(waiter := Reject(items[k].waiter)))
  }

  // ---------- Accounting ----------

  /** Buffered ids are the consecutive run that ends at the total. */
  predicate Consecutive(e: Endpoint) {
    && |e.messages| <= e.totalMessageCount
    && forall k :: 0 <= k < |e.messages| ==> e.messages[k].id == e.totalMessageCount - |e.messages| + 1 + k
  }

  /** A pending waiter means the buffer is at or above its limit: no wake-up has been lost. */
  predicate NoLostWakeUp(e: Endpoint) {
    (exists k :: 0 <= k < |e.messages| && e.messages[k].waiter == Pending) ==> e.bufferedByteCount >= e.bufferSize
  }

  predicate Accounted(e: Endpoint) {
    Consecutive(e) && e.bufferedByteCount == Bytes(e.messages) && NoLostWakeUp(e)
  }

  lemma BufferedAccounted(e: Endpoint, m: Message)
    requires Accounted(e)
    ensures Accounted(Buffered(e, m))
    ensures FirstBuffered(Buffered(e, m)) == FirstBuffered(e)
  {
    if IsInvocationMessage(m) {
      var i := BufferedItem(m, e.totalMessageCount + 1, Buffered(e, m).messages[|e.messages|].waiter);
      SumConcat(e.messages, [i], Size);
      SumOne(i, Size);
      assert Buffered(e, m).messages == e.messages + [i];
      var e' := Buffered(e, m);
      if k :| 0 <= k < |e.messages| && e'.messages[k].waiter == Pending {
        assert e.messages[k].waiter == Pending;
      }
    }
  }

  lemma BytesSnoc(items: seq<BufferedItem>, i: BufferedItem)
    ensures Bytes(items + [i]) == Bytes(items) + |i.message.text|
  {
    SumConcat(items, [i], Size);
    SumOne(i, Size);
  }

  /** A send of an invocation message puts it behind the others under the next id; it waits exactly if the buffer,
      with this message, has reached its limit. */
  lemma SendWaitsExactly(e: Endpoint, m: Message)
    requires Accounted(e) && IsInvocationMessage(m)
    ensures var e', n := Buffered(e, m), |e.messages|;
            && |e'.messages| == n + 1 && e'.messages[..n] == e.messages
            && e'.messages[n].message == m && e'.messages[n].id == e.totalMessageCount + 1
            && Bytes(e'.messages) == Bytes(e.messages) + |m.text|
            && (e'.messages[n].waiter == Pending <==> Bytes(e'.messages) >= e.bufferSize)
            && (e'.messages[n].waiter == NoWaiter <==> Bytes(e'.messages) < e.bufferSize)
  {
    var e' := Buffered(e, m);
    var i := e'.messages[|e.messages|];
    assert e'.messages == e.messages + [i];
    BytesSnoc(e.messages, i);
    hide Bytes, Size;
  }

  /** What becomes of each wait when an acknowledgement comes: a send still waiting on a message that stays is
      resolved exactly if the buffer is now below its limit, and goes on waiting otherwise. */
  lemma WaitersAfterAck(e: Endpoint, s: int, k: nat)
    requires Accounted(e) && k < |Acked(e, s).messages|
    ensures var e' := Acked(e, s);
            var j := |e.messages| - |e'.messages| + k;
            && 0 <= j < |e.messages| && e'.messages[k].id == e.messages[j].id > s
            && (e.messages[j].waiter == Pending ==>
                  e'.messages[k].waiter == if Bytes(e'.messages) < e.bufferSize then Resolved else Pending)
            && (e.messages[j].waiter != Pending ==> e'.messages[k].waiter == e.messages[j].waiter)
  {
    AckedItems(e, s);
    AckedBytes(e, s);
    CoveredAt(e, s, Covered(e.messages, s) + k);
    hide Covered, Bytes, Acked;
  }

  /** A message that brings the receiver to its latest id, or beyond it, leaves the acknowledgement timer set: the
      acknowledgement of what is replayed is owed again. A replayed message before that starts no timer. */
  lemma TimerForLatest(e: Endpoint, m: Message)
    requires !e.waitForSequenceMessage && IsInvocationMessage(m)
    ensures var (e', _) := Screened(e, m);
            && (e.nextReceivingSequenceId >= e.latestReceivedSequenceId ==> e'.ackTimerSet)
            && (e.nextReceivingSequenceId < e.latestReceivedSequenceId ==> e'.ackTimerSet == e.ackTimerSet)
            && e'.nextReceivingSequenceId == e.nextReceivingSequenceId + 1
  {
  }

  /** With consecutive ids the covered messages are exactly those with an id up to `s`. */
  lemma {:induction false} CoveredExactly(items: seq<BufferedItem>, s: int, base: int)
    requires forall k :: 0 <= k < |items| ==> items[k].id == base + k
    ensures forall k :: 0 <= k < |items| ==> (k < Covered(items, s) <==> items[k].id <= s)
  {
    if items != [] && items[0].id <= s {
      CoveredExactly(items[1..], s, base + 1);
      forall k | 1 <= k < |items| ensures k < Covered(items, s) <==> items[k].id <= s {
        assert items[1..][k - 1] == items[k];
      }
    }
  }

  lemma {:induction false} ResolveAllBytes(items: seq<BufferedItem>)
    ensures Bytes(ResolveAll(items)) == Bytes(items)
  {
    if items != [] {
      ResolveAllBytes(items[1..]);
      assert ResolveAll(items)[1..] == ResolveAll(items[1..]);
    }
  }

  /** The items left are a suffix, and their waiters are as they were or released. */
  lemma AckedItems(e: Endpoint, s: int)
    ensures var e', n := Acked(e, s), Covered(e.messages, s);
            && |e'.messages| == |e.messages| - n
            && (forall k :: 0 <= k < |e'.messages| ==>
                  && e'.messages[k].id == e.messages[n + k].id && e'.messages[k].message == e.messages[n + k].message
                  && e'.messages[k].waiter == (if e'.bufferedByteCount < e.bufferSize
                                               then Resolve(e.messages[n + k].waiter) else e.messages[n + k].waiter))
  {
  }

  lemma AckedItem(e: Endpoint, s: int, k: nat) returns (j: nat)
    requires k < |Acked(e, s).messages|
    ensures j < |e.messages| && Acked(e, s).messages[k].id == e.messages[j].id
    ensures Acked(e, s).messages[k].message == e.messages[j].message
  {
    hide Bytes, Covered, Resolve;
    var tail := e.messages[Covered(e.messages, s)..];
    j := Covered(e.messages, s) + k;
    assert tail[k] == e.messages[j];
  }

  lemma AckedBytes(e: Endpoint, s: int)
    requires e.bufferedByteCount == Bytes(e.messages)
    ensures Acked(e, s).bufferedByteCount == Bytes(Acked(e, s).messages)
  {
    var n := Covered(e.messages, s);
    assert e.messages == e.messages[..n] + e.messages[n..];
    SumConcat(e.messages[..n], e.messages[n..], Size);
    ResolveAllBytes(e.messages[n..]);
  }

  /** After an acknowledgement the accounts are still right; what is left is exactly what was not covered; and
      every waiter has been released if the count fell below the limit. */
  lemma AckedAccounted(e: Endpoint, s: int)
    requires Accounted(e)
    ensures Accounted(Acked(e, s))
    ensures var e' := Acked(e, s);
            && FirstBuffered(e') == (if s >= FirstBuffered(e)
                                     then (if s > e.totalMessageCount then e.totalMessageCount else s) + 1
                                     else FirstBuffered(e))
            && |e'.messages| == e'.totalMessageCount - FirstBuffered(e') + 1
            && (e'.bufferedByteCount < e'.bufferSize ==>
                  forall k :: 0 <= k < |e'.messages| ==> e'.messages[k].waiter != Pending)
  {
    var n, e' := Covered(e.messages, s), Acked(e, s);
    AckedItems(e, s);
    AckedBytes(e, s);
    CoveredExactly(e.messages, s, e.totalMessageCount - |e.messages| + 1);
    assert e'.totalMessageCount == e.totalMessageCount && e'.bufferSize == e.bufferSize;
    hide Covered, Bytes, Acked;
    if n < |e.messages| {
      assert e.messages[n].id > s;
    }
    if n > 0 {
      assert e.messages[n - 1].id <= s;
    }
  }

  lemma CoveredAt(e: Endpoint, s: int, k: nat)
    requires Accounted(e) && k < |e.messages|
    ensures k < Covered(e.messages, s) <==> e.messages[k].id <= s
  {
    CoveredExactly(e.messages, s, e.totalMessageCount - |e.messages| + 1);
  }

  lemma DisconnectedAccounted(e: Endpoint)
    requires Accounted(e)
    ensures Accounted(Disconnected(e))
  {
  }

  lemma BytesNext(items: seq<BufferedItem>, k: nat)
    requires k < |items|
    ensures Bytes(items[..k + 1]) == Bytes(items[..k]) + Size(items[k])
  {
    assert items[..k + 1] == items[..k] + [items[k]];
    SumConcat(items[..k], [items[k]], Size);
    SumOne(items[k], Size);
  }

  lemma BytesNone(items: seq<BufferedItem>)
    ensures Bytes(items[..0]) == 0
  {
  }

  /** The waiters of the first `index` items have been released. */
  predicate ReleasedUpTo(before: seq<BufferedItem>, now: seq<BufferedItem>, index: nat) {
    && index <= |now| == |before|
    && (forall k :: 0 <= k < index ==> now[k] == before[k].(waiter := Resolve(before[k].waiter)))
    && (forall k :: index <= k < |now| ==> now[k] == before[k])
  }

  lemma ReleasedNext(before: seq<BufferedItem>, now: seq<BufferedItem>, index: nat)
    requires ReleasedUpTo(before, now, index) && index < |now|
    ensures now[index] == before[index]
    ensures ReleasedUpTo(before, now[index := now[index].(waiter := Resolve(now[index].waiter))], index + 1)
  {
  }

  lemma ReleasedBefore(before: seq<BufferedItem>, now: seq<BufferedItem>, index: nat)
    requires ReleasedUpTo(before, now, index)
    ensures forall k :: 0 <= k < index ==> now[k] == before[k].(waiter := Resolve(before[k].waiter))
  {
  }

  /** What the loop of an acknowledgement leaves: it stopped at the end of the buffer, or behind the covered
      messages with the count still at the limit. */
  lemma AckLoopEnd(e: Endpoint, s: int, items: seq<BufferedItem>, index: nat, count: int)
    requires ReleasedUpTo(e.messages, items, index) && Covered(e.messages, s) <= index
    requires count == e.bufferedByteCount - Bytes(e.messages[..Covered(e.messages, s)])
    requires index > Covered(e.messages, s) ==> count < e.bufferSize
    requires index < |items| ==> index == Covered(e.messages, s) && count >= e.bufferSize
    ensures Acked(e, s) == e.(messages := items[Covered(e.messages, s)..], bufferedByteCount := count)
  {
    var n := Covered(e.messages, s);
    assert items[n..] == Acked(e, s).messages;
  }

  // ---------- The buffer object ----------

  /** The connection below: a send on a broken connection throws. */
  class Connection {
    var open: bool
    var stopped: bool
    var sent: seq<Message>

    constructor ()
      ensures open && !stopped && sent == []
    {
      open, stopped, sent := true, false, [];
    }

    method Send(m: Message) returns (ok: bool)
      modifies `sent
      ensures ok == open && sent == (if open then old(sent) + [m] else old(sent))
    {
      ok := open;
      if open {
        sent := sent + [m];
      }
    }

    method Stop()
      modifies `stopped
      ensures stopped
    {
      stopped := true;
    }
  }

  class MessageBuffer {
    const connection: Connection
    const bufferSize: int
    var messages: seq<BufferedItem>
    var totalMessageCount: int
    var waitForSequenceMessage: bool
    var nextReceivingSequenceId: int
    var latestReceivedSequenceId: int
    var bufferedByteCount: int
    var reconnectInProgress: bool
    var ackTimerSet: bool

    ghost function State(): Endpoint
      reads this
    {
      Endpoint(bufferSize, messages, totalMessageCount, waitForSequenceMessage, nextReceivingSequenceId,
               latestReceivedSequenceId, bufferedByteCount, reconnectInProgress, ackTimerSet)
    }

    constructor (connection: Connection, bufferSize: int)
      ensures State() == NewEndpoint(bufferSize) && this.connection == connection && Accounted(State())
    {
      this.connection := connection;
      this.bufferSize := bufferSize;
      messages := [];
      totalMessageCount := 0;
      waitForSequenceMessage := false;
      nextReceivingSequenceId := 1;
      latestReceivedSequenceId := 0;
      bufferedByteCount := 0;
      reconnectInProgress := false;
      ackTimerSet := false;
    }

    /** Buffer the message, and send it unless a reconnect is going on; a failed send starts one. */
    method Send(message: Message)
      requires Accounted(State())
      modifies this, connection`sent
      ensures Accounted(State())
      ensures var e := Buffered(old(State()), message);
              State() == if !e.reconnectInProgress && !connection.open then Disconnected(e) else e
      ensures connection.sent ==
              if old(reconnectInProgress) || !connection.open then old(connection.sent)
              else old(connection.sent) + [message]
      ensures IsInvocationMessage(message) ==>
                && messages != [] && messages[..|messages| - 1] == old(messages)
                && messages[|messages| - 1].message == message
                && messages[|messages| - 1].waiter == (if Bytes(messages) >= bufferSize then Pending else NoWaiter)
    {
      hide Accounted, Bytes;
      BufferedAccounted(State(), message);
      if IsInvocationMessage(message) {
        SendWaitsExactly(State(), message);
      }
      if IsInvocationMessage(message) {
        totalMessageCount := totalMessageCount + 1;
        bufferedByteCount := bufferedByteCount + |message.text|;
        var waiter := NoWaiter;
        if bufferedByteCount >= bufferSize {
          waiter := Pending;
        }
        messages := messages + [BufferedItem(message, totalMessageCount, waiter)];
      }
      assert Accounted(State());
      if !reconnectInProgress {
        var ok := connection.Send(message);
        if !ok {
          DisconnectedAccounted(State());
          SetDisconnected();
        }
      }
    }

    method SetDisconnected()
      modifies `reconnectInProgress, `waitForSequenceMessage
      ensures State() == Disconnected(old(State())) && reconnectInProgress && waitForSequenceMessage
    {
      reconnectInProgress := true;
      waitForSequenceMessage := true;
    }

    /** The loop over the buffer: uncount and release what is acknowledged, then release what fits again;
        the position of the newest acknowledged message, or -1. */
    method ScanAcked(sequenceId: int) returns (newestAckedMessage: int)
      requires Accounted(State())
      modifies `messages, `bufferedByteCount
      ensures newestAckedMessage + 1 == Covered(old(messages), sequenceId) && |messages| == |old(messages)|
      ensures forall k :: 0 <= k <= newestAckedMessage ==>
                messages[k] == old(messages)[k].(waiter := Resolve(old(messages)[k].waiter))
      ensures Acked(old(State()), sequenceId) ==
              old(State()).(messages := messages[newestAckedMessage + 1..], bufferedByteCount := bufferedByteCount)
    {
      ghost var e := State();
      ghost var covered := Covered(messages, sequenceId);
      assert ReleasedUpTo(messages, messages, 0);
      hide Accounted, Covered, Bytes, Acked, Resolve, ReleasedUpTo;
      newestAckedMessage := -1;
      var index := 0;
      BytesNone(e.messages);
      while index < |messages|
        invariant 0 <= index <= |messages| == |e.messages|
        invariant newestAckedMessage == (if index <= covered then index else covered) - 1
        invariant newestAckedMessage + 1 <= |e.messages|
        invariant bufferedByteCount == e.bufferedByteCount - Bytes(e.messages[..newestAckedMessage + 1])
        invariant index > covered ==> bufferedByteCount < bufferSize
        invariant ReleasedUpTo(e.messages, messages, index)
      {
        ReleasedNext(e.messages, messages, index);
        CoveredAt(e, sequenceId, index);
        if messages[index].id <= sequenceId {
          newestAckedMessage := index;
          BytesNext(e.messages, index);
          bufferedByteCount := bufferedByteCount - |messages[index].message.text|;
          messages := messages[index := messages[index].(waiter := Resolve(messages[index].waiter))];
        } else if bufferedByteCount < bufferSize {
          messages := messages[index := messages[index].(waiter := Resolve(messages[index].waiter))];
        } else {
          break;
        }
        index := index + 1;
      }
      assert newestAckedMessage + 1 == covered;
      ReleasedBefore(e.messages, messages, index);
      AckLoopEnd(e, sequenceId, messages, index, bufferedByteCount);
    }

    /** Drop what is acknowledged, and release whoever may go on. No send is left waiting on a dropped item. */
    method ProcessAck(sequenceId: int) returns (ghost dropped: seq<BufferedItem>)
      requires Accounted(State())
      modifies `messages, `bufferedByteCount
      ensures Accounted(State()) && State() == Acked(old(State()), sequenceId)
      ensures |dropped| + |messages| == |old(messages)|
      ensures forall k :: 0 <= k < |dropped| ==>
                && dropped[k].id == old(messages)[k].id <= sequenceId
                && dropped[k].waiter ==
                   if old(messages)[k].waiter == Pending then Resolved else old(messages)[k].waiter
      ensures forall k :: 0 <= k < |messages| ==>
                && messages[k].id == old(messages)[|dropped| + k].id > sequenceId
                && (old(messages)[|dropped| + k].waiter == Pending ==>
                      messages[k].waiter == if Bytes(messages) < bufferSize then Resolved else Pending)
    {
      hide Accounted, Acked, Covered;
      AckedAccounted(State(), sequenceId);
      ghost var e := State();
      var newestAckedMessage := ScanAcked(sequenceId);
      dropped := messages[..newestAckedMessage + 1];
      forall k | 0 <= k < |dropped|
        ensures dropped[k].id <= sequenceId
      {
        CoveredAt(e, sequenceId, k);
      }
      AckedItems(e, sequenceId);
      forall k | 0 <= k < |Acked(e, sequenceId).messages|
        ensures var e', j := Acked(e, sequenceId), |e.messages| - |Acked(e, sequenceId).messages| + k;
                && 0 <= j < |e.messages| && e'.messages[k].id == e.messages[j].id > sequenceId
                && (e.messages[j].waiter == Pending ==>
                      e'.messages[k].waiter == if Bytes(e'.messages) < e.bufferSize then Resolved else Pending)
      {
        WaitersAfterAck(e, sequenceId, k);
      }
      if newestAckedMessage != -1 {
        messages := messages[newestAckedMessage + 1..];
      }
    }

    /** Whether to process an incoming message. */
    method ShouldProcessMessage(message: Message) returns (process: bool)
      modifies `waitForSequenceMessage, `nextReceivingSequenceId, `latestReceivedSequenceId, `ackTimerSet
      ensures (State(), process) == Screened(old(State()), message)
      ensures process <==> if old(waitForSequenceMessage) then message.kind == Sequence
                           else !IsInvocationMessage(message) || old(nextReceivingSequenceId > latestReceivedSequenceId)
      ensures old(waitForSequenceMessage) && !process ==> State() == old(State())
      ensures (&& !old(waitForSequenceMessage) && IsInvocationMessage(message)
               && old(nextReceivingSequenceId) >= old(latestReceivedSequenceId)) ==> ackTimerSet
    {
      if waitForSequenceMessage {
        if message.kind != Sequence {
          return false;
        } else {
          waitForSequenceMessage := false;
          return true;
        }
      }
      if !IsInvocationMessage(message) {
        return true;
      }
      var currentId := nextReceivingSequenceId;
      nextReceivingSequenceId := nextReceivingSequenceId + 1;
      if currentId <= latestReceivedSequenceId {
        if currentId == latestReceivedSequenceId {
          AckTimer();
        }
        return false;
      }
      latestReceivedSequenceId := currentId;
      AckTimer();
      return true;
    }

    method AckTimer()
      modifies `ackTimerSet
      ensures ackTimerSet
    {
      if !ackTimerSet {
        ackTimerSet := true;
      }
    }

    /** The acknowledgement timer fires. */
    method AckTimerFires()
      modifies `ackTimerSet, connection`sent
      ensures State() == old(State()).(ackTimerSet := false)
      ensures connection.sent ==
              if reconnectInProgress || !connection.open then old(connection.sent)
              else old(connection.sent) + [AckOf(latestReceivedSequenceId)]
    {
      if !reconnectInProgress {
        var ok := connection.Send(AckOf(latestReceivedSequenceId));
      }
      ackTimerSet := false;
    }

    method ResetSequence(sequenceId: int)
      modifies `nextReceivingSequenceId, connection`stopped
      ensures State() == Rewound(old(State()), sequenceId).0
      ensures connection.stopped == (old(connection.stopped) || Rewound(old(State()), sequenceId).1)
    {
      if sequenceId > nextReceivingSequenceId {
        connection.Stop();
        return;
      }
      nextReceivingSequenceId := sequenceId;
    }

    /** Announce the first buffered id and send everything that is buffered; false when a send failed. */
    method Resend() returns (ok: bool)
      modifies `reconnectInProgress, connection`sent
      ensures ok == connection.open
      ensures State() == if ok then old(State()).(reconnectInProgress := false) else old(State())
      ensures connection.sent ==
              if ok then old(connection.sent) + ResendFrames(old(State())) else old(connection.sent)
    {
      var sequenceId := if |messages| != 0 then messages[0].id else totalMessageCount + 1;
      ok := connection.Send(SequenceOf(sequenceId));
      if !ok {
        return;
      }
      var captured := messages;
      var i := 0;
      while i < |captured|
        invariant 0 <= i <= |captured| && connection.open && captured == messages && ok
        invariant connection.sent == old(connection.sent) + [SequenceOf(sequenceId)] + Texts(captured)[..i]
      {
        ok := connection.Send(captured[i].message);
        if !ok {
          return;
        }
        i := i + 1;
      }
      assert Texts(captured)[..i] == Texts(captured);
      reconnectInProgress := false;
    }

    /** Give up: reject every send that still waits. */
    method Dispose()
      modifies `messages
      ensures State() == old(State()).(messages := RejectAll(old(messages)))
      ensures forall k :: 0 <= k < |messages| ==>
                messages[k].waiter == (if old(messages)[k].waiter == Pending then Rejected else old(messages)[k].waiter)
    {
      var i := 0;
      while i < |messages|
        invariant 0 <= i <= |messages| == |old(messages)|
        invariant forall k :: 0 <= k < i ==> messages[k] == RejectAll(old(messages))[k]
        invariant forall k :: i <= k < |messages| ==> messages[k] == old(messages)[k]
      {
        messages := messages[i := messages[i].(waiter := Reject(messages[i].waiter))];
        i := i + 1;
      }
    }
  }
}
