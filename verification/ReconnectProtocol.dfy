/** Two ends that both run the message buffer over a connection that drops. Each end sends, takes frames off its
    channel, acknowledges by its timer, notices that the connection is gone and resends; the connection itself drops
    and is made again. The invariant says, in one direction, what the sender's buffer holds, what the receiver handed
    on, and that the frames in flight are what the receiver will take them for. Each step keeps it both ways. */
module ReconnectProtocol {
  import opened MessageBuffers

  /** One end. `sent` and `delivered` are histories of invocation messages: what this end was asked to
      send, and what it handed on from the other end. */
  datatype Peer = Peer(e: Endpoint, sent: seq<Message>, delivered: seq<Message>)

  /** `ab` and `ba` are the frames in flight on the current connection. */
  datatype System = System(a: Peer, b: Peer, ab: seq<Message>, ba: seq<Message>, up: bool, stopped: bool)

  function Init(sizeA: int, sizeB: int): System {
    System(Peer(NewEndpoint(sizeA), [], []), Peer(NewEndpoint(sizeB), [], []), [], [], true, false)
  }

  /** The system seen from the other end. */
  function Flip(s: System): System {
    System(s.b, s.a, s.ba, s.ab, s.up, s.stopped)
  }

  /** Steps of end A. The hub sends invocation messages, pings and close messages through the buffer;
      acknowledgements and sequence frames go out by the timer and by a resend. `fails` says whether a send on
      the connection throws; on a connection that is down a send that does not throw is lost. */
  datatype Action =
    | Send(m: Message, fails: bool)
    | Deliver
    | AckTimerFires
    | NoticeDisconnect
    | Resend

  datatype Event = A(action: Action) | B(action: Action) | Drop | Reconnect

  /** What end A puts on the connection reaches the channel when the connection is up. */
  function Put(s: System, frames: seq<Message>): System {
    if s.up then s.(ab := s.ab + frames) else s
  }

  function DoSend(s: System, m: Message, fails: bool): System {
    var e := Buffered(s.a.e, m);
    var s1 := s.(a := s.a.(e := e, sent := if IsInvocationMessage(m) then s.a.sent + [m] else s.a.sent));
    if e.reconnectInProgress then s1
    else if fails then s1.(a := s1.a.(e := Disconnected(e)))
    else Put(s1, [m])
  }

  /** End A takes the next frame off its incoming channel. */
  function DoDeliver(s: System): System {
    if s.ba == [] then s
    else
      var m, s1 := s.ba[0], s.(ba := s.ba[1..]);
      var (e, process) := Screened(s.a.e, m);
      if !process then s1.(a := s.a.(e := e))
      else
        match m.kind
        case Ack => s1.(a := s.a.(e := Acked(e, m.sequenceId)))
        case Sequence =>
          var (e', stop) := Rewound(e, m.sequenceId);
          s1.(a := s.a.(e := e'), stopped := stop)
        case Close => s1.(a := s.a.(e := e), stopped := true)
        case Ping => s1.(a := s.a.(e := e))
        case _ => s1.(a := s.a.(e := e, delivered := s.a.delivered + [m]))
  }

  function DoAckTimer(s: System): System {
    if !s.a.e.ackTimerSet then s
    else
      var s1 := s.(a := s.a.(e := s.a.e.(ackTimerSet := false)));
      if s.a.e.reconnectInProgress then s1 else Put(s1, [AckOf(s.a.e.latestReceivedSequenceId)])
  }

  /** A resend, taken as one step; on a connection that is down it fails and the connection is given up. */
  function DoResend(s: System): System {
    if !s.a.e.reconnectInProgress then s
    else if !s.up then s.(stopped := true)
    else Put(s, ResendFrames(s.a.e)).(a := s.a.(e := s.a.e.(reconnectInProgress := false)))
  }

  function Act(s: System, action: Action): System {
    match action
    case Send(m, fails) => if m.kind == Ack || m.kind == Sequence then s else DoSend(s, m, fails)
    case Deliver => DoDeliver(s)
    case AckTimerFires => DoAckTimer(s)
    case NoticeDisconnect => s.(a := s.a.(e := Disconnected(s.a.e)))
    case Resend => DoResend(s)
  }

  /** A stopped connection stays as it is. A new connection is made once both ends noticed the loss of the old. */
  function Next(s: System, ev: Event): System {
    if s.stopped then s
    else
      match ev
      case A(action) => Act(s, action)
      case B(action) => Flip(Act(Flip(s), action))
      case Drop => s.(up := false, ab := [], ba := [])
      case Reconnect =>
        if !s.up && s.a.e.reconnectInProgress && s.b.e.reconnectInProgress then s.(up := true) else s
  }

  function Run(s: System, evs: seq<Event>): System
    decreases evs
  {
    if evs == [] then s else Run(Next(s, evs[0]), evs[1..])
  }

  // ---------- Frames in flight ----------

  /** The id the receiver gives to the next invocation message; `Unknown` while it waits for a sequence frame. */
  datatype Position = Unknown | At(id: int)

  function PositionOf(e: Endpoint): Position {
    if e.waitForSequenceMessage then Unknown else At(e.nextReceivingSequenceId)
  }

  function Advance(p: Position, m: Message): Position {
    if m.kind == Sequence then At(m.sequenceId)
    else if p.At? && IsInvocationMessage(m) then At(p.id + 1)
    else p
  }

  /** Position after all frames in flight. */
  function End(p: Position, frames: seq<Message>): Position
    decreases frames
  {
    if frames == [] then p else End(Advance(p, frames[0]), frames[1..])
  }

  /** The frame is what was sent under the id the receiver will give it. */
  predicate Fits(p: Position, m: Message, sent: seq<Message>) {
    IsInvocationMessage(m) && p.At? ==> 1 <= p.id <= |sent| && m == sent[p.id - 1]
  }

  predicate AllFit(p: Position, frames: seq<Message>, sent: seq<Message>)
    decreases frames
  {
    frames != [] ==> Fits(p, frames[0], sent) && AllFit(Advance(p, frames[0]), frames[1..], sent)
  }

  lemma {:induction false} EndConcat(p: Position, xs: seq<Message>, ys: seq<Message>)
    ensures End(p, xs + ys) == End(End(p, xs), ys)
    decreases xs
  {
    if xs == [] {
      assert xs + ys == ys;
    } else {
      assert (xs + ys)[1..] == xs[1..] + ys;
      EndConcat(Advance(p, xs[0]), xs[1..], ys);
    }
  }

  lemma {:induction false} FitConcat(p: Position, xs: seq<Message>, ys: seq<Message>, sent: seq<Message>)
    ensures AllFit(p, xs + ys, sent) <==> AllFit(p, xs, sent) && AllFit(End(p, xs), ys, sent)
    decreases xs
  {
    if xs == [] {
      assert xs + ys == ys;
    } else {
      assert (xs + ys)[0] == xs[0] && (xs + ys)[1..] == xs[1..] + ys;
      FitConcat(Advance(p, xs[0]), xs[1..], ys, sent);
    }
  }

  /** Sending more keeps what is in flight in place. */
  lemma {:induction false} FitMore(p: Position, frames: seq<Message>, sent: seq<Message>, m: Message)
    requires AllFit(p, frames, sent)
    ensures AllFit(p, frames, sent + [m])
    decreases frames
  {
    if frames != [] {
      FitMore(Advance(p, frames[0]), frames[1..], sent, m);
    }
  }

  /** A receiver that falls back to waiting sees a subset of what it would have seen. */
  lemma {:induction false} FitUnknown(p: Position, frames: seq<Message>, sent: seq<Message>)
    requires AllFit(p, frames, sent)
    ensures AllFit(Unknown, frames, sent)
    ensures End(Unknown, frames) == Unknown || End(Unknown, frames) == End(p, frames)
    decreases frames
  {
    if frames != [] {
      if frames[0].kind == Sequence {
        assert Advance(Unknown, frames[0]) == Advance(p, frames[0]);
      } else {
        FitUnknown(Advance(p, frames[0]), frames[1..], sent);
      }
    }
  }

  /** The buffered messages, sent in order from their first id, all fit. */
  lemma {:induction false} BufferFits(frames: seq<Message>, sent: seq<Message>, id: int)
    requires 1 <= id && |sent| == id - 1 + |frames|
    requires forall k :: 0 <= k < |frames| ==> IsInvocationMessage(frames[k]) && frames[k] == sent[id - 1 + k]
    ensures AllFit(At(id), frames, sent) && End(At(id), frames) == At(|sent| + 1)
  {
    if frames != [] {
      forall k | 0 <= k < |frames[1..]| ensures frames[1..][k] == sent[id + k] && IsInvocationMessage(frames[1..][k]) {
        assert frames[1..][k] == frames[k + 1];
      }
      BufferFits(frames[1..], sent, id + 1);
    }
  }

  // ---------- The invariant, from A to B ----------

  /** The sender's buffer holds the last messages it sent, numbered from one, and counts all of them. */
  predicate Holds(p: Peer) {
    && Accounted(p.e) && p.e.totalMessageCount == |p.sent|
    && (forall k :: 0 <= k < |p.sent| ==> IsInvocationMessage(p.sent[k]))
    && forall k :: 0 <= k < |p.e.messages| ==> p.e.messages[k].message == p.sent[p.e.messages[k].id - 1]
  }

  /** The receiver handed on exactly the messages up to the latest id it received. */
  predicate HandedOn(from: Peer, to: Peer) {
    && 0 <= to.e.latestReceivedSequenceId <= |from.sent|
    && to.delivered == from.sent[..to.e.latestReceivedSequenceId]
    && 1 <= to.e.nextReceivingSequenceId <= to.e.latestReceivedSequenceId + 1
  }

  /** Nothing is dropped from the buffer, or acknowledged in flight, before it was received. */
  predicate KeptUntilReceived(s: System) {
    && FirstBuffered(s.a.e) <= s.b.e.latestReceivedSequenceId + 1
    && (forall k :: 0 <= k < |s.ba| && s.ba[k].kind == Ack ==> s.ba[k].sequenceId <= s.b.e.latestReceivedSequenceId)
    && (forall k :: 0 <= k < |s.ab| && s.ab[k].kind == Sequence ==>
          1 <= s.ab[k].sequenceId <= s.b.e.latestReceivedSequenceId + 1)
  }

  /** The frames in flight fit, and unless A is reconnecting everything it sent is received, in flight, or
      beyond a receiver that waits. */
  predicate InFlight(s: System) {
    s.up && !s.stopped ==>
      && AllFit(PositionOf(s.b.e), s.ab, s.a.sent)
      && (s.a.e.reconnectInProgress || End(PositionOf(s.b.e), s.ab) == Unknown
          || End(PositionOf(s.b.e), s.ab) == At(|s.a.sent| + 1))
  }

  predicate Direction(s: System) {
    Holds(s.a) && HandedOn(s.a, s.b) && KeptUntilReceived(s) && InFlight(s)
    && (!s.up ==> s.ab == [] && s.ba == [])
  }

  predicate Inv(s: System) {
    Direction(s) && Direction(Flip(s))
  }

  // ---------- Each step keeps the invariant ----------

  /** Frames that carry no id change nothing about the flight. */
  lemma OneMore(p: Position, frames: seq<Message>, m: Message, sent: seq<Message>)
    requires AllFit(p, frames, sent) && Fits(End(p, frames), m, sent)
    ensures AllFit(p, frames + [m], sent) && End(p, frames + [m]) == Advance(End(p, frames), m)
  {
    FitConcat(p, frames, [m], sent);
    EndConcat(p, frames, [m]);
    assert [m][1..] == [];
  }

  lemma SendHolds(s: System, m: Message, fails: bool)
    requires Holds(s.a)
    ensures Holds(DoSend(s, m, fails).a)
  {
    BufferedHolds(s.a, m);
    BufferedAccounted(s.a.e, m);
    DisconnectedAccounted(Buffered(s.a.e, m));
    hide Accounted;
  }

  lemma SendKept(s: System, m: Message, fails: bool)
    requires Holds(s.a) && HandedOn(s.a, s.b) && KeptUntilReceived(s) && m.kind != Sequence
    ensures HandedOn(DoSend(s, m, fails).a, s.b) && KeptUntilReceived(DoSend(s, m, fails))
  {
    BufferedAccounted(s.a.e, m);
    hide Accounted, Buffered, Holds;
    assert FirstBuffered(Disconnected(Buffered(s.a.e, m))) == FirstBuffered(Buffered(s.a.e, m));
  }

  lemma SendInFlight(s: System, m: Message, fails: bool)
    requires Holds(s.a) && InFlight(s) && m.kind != Sequence
    ensures InFlight(DoSend(s, m, fails))
  {
    var s' := DoSend(s, m, fails);
    if s.up && !s.stopped {
      var p := PositionOf(s.b.e);
      hide PositionOf, Holds;
      if IsInvocationMessage(m) {
        FitMore(p, s.ab, s.a.sent, m);
      }
      if !s.a.e.reconnectInProgress && !fails {
        OneMore(p, s.ab, m, s'.a.sent);
      }
    }
  }

  lemma SendKeepsSender(s: System, m: Message, fails: bool)
    requires Inv(s) && !s.stopped && m.kind != Ack && m.kind != Sequence
    ensures Direction(DoSend(s, m, fails))
  {
    SendHolds(s, m, fails);
    SendKept(s, m, fails);
    SendInFlight(s, m, fails);
    hide Holds, HandedOn, KeptUntilReceived, InFlight, Buffered;
  }

  lemma BufferedHolds(p: Peer, m: Message)
    requires Holds(p)
    ensures Holds(Peer(Buffered(p.e, m), if IsInvocationMessage(m) then p.sent + [m] else p.sent, p.delivered))
  {
    BufferedAccounted(p.e, m);
    hide Accounted;
    if IsInvocationMessage(m) {
      var e' := Buffered(p.e, m);
      var n := |p.e.messages|;
      assert forall k :: 0 <= k < n ==> e'.messages[k] == p.e.messages[k];
      assert Consecutive(p.e);
    }
  }

  /** Buffering touches nothing that receiving uses. */
  lemma BufferedSame(e: Endpoint, m: Message)
    ensures var e' := Buffered(e, m);
            && e'.nextReceivingSequenceId == e.nextReceivingSequenceId
            && e'.latestReceivedSequenceId == e.latestReceivedSequenceId
            && e'.waitForSequenceMessage == e.waitForSequenceMessage
            && e'.reconnectInProgress == e.reconnectInProgress && e'.ackTimerSet == e.ackTimerSet
  {
  }

  lemma SendKeepsReceiver(s: System, m: Message, fails: bool)
    requires Inv(s) && !s.stopped && m.kind != Ack && m.kind != Sequence
    ensures Direction(Flip(DoSend(s, m, fails)))
  {
    if s.up {
      FitUnknown(PositionOf(s.a.e), s.ba, s.b.sent);
    }
    BufferedSame(s.a.e, m);
    hide Holds, AllFit, End, Buffered;
  }

  // Delivery: end A takes a frame. As a sender it may learn of an acknowledgement; as a receiver it counts.

  /** Only the buffer matters to a sender's side of the invariant. */
  predicate SameBuffer(e: Endpoint, e': Endpoint) {
    && e'.messages == e.messages && e'.totalMessageCount == e.totalMessageCount && e'.bufferSize == e.bufferSize
    && e'.bufferedByteCount == e.bufferedByteCount && e'.reconnectInProgress == e.reconnectInProgress
  }

  lemma BufferedRange(p: Peer, k: nat)
    requires Holds(p) && k < |p.e.messages|
    ensures 1 <= p.e.messages[k].id <= |p.sent| && p.e.messages[k].message == p.sent[p.e.messages[k].id - 1]
  {
  }

  lemma AckedRange(p: Peer, id: int, k: nat)
    requires Holds(p) && k < |Acked(p.e, id).messages|
    ensures var i := Acked(p.e, id).messages[k]; 1 <= i.id <= |p.sent| && i.message == p.sent[i.id - 1]
  {
    hide Acked, Accounted;
    var j := AckedItem(p.e, id, k);
    BufferedRange(p, j);
  }

  lemma AckHolds(p: Peer, id: int)
    requires Holds(p)
    ensures Holds(p.(e := Acked(p.e, id)))
  {
    AckedAccounted(p.e, id);
    AckedSame(p.e, id);
    forall k | 0 <= k < |Acked(p.e, id).messages|
      ensures var i := Acked(p.e, id).messages[k]; 1 <= i.id <= |p.sent| && i.message == p.sent[i.id - 1]
    {
      AckedRange(p, id, k);
    }
    hide Acked, Accounted, Covered;
  }

  lemma AckedSame(e: Endpoint, id: int)
    ensures Acked(e, id).totalMessageCount == e.totalMessageCount
    ensures Acked(e, id).reconnectInProgress == e.reconnectInProgress
    ensures Acked(e, id).nextReceivingSequenceId == e.nextReceivingSequenceId
    ensures Acked(e, id).latestReceivedSequenceId == e.latestReceivedSequenceId
    ensures Acked(e, id).waitForSequenceMessage == e.waitForSequenceMessage
    ensures Acked(e, id).ackTimerSet == e.ackTimerSet
  {
  }

  lemma ScreenedSame(e: Endpoint, m: Message)
    ensures SameBuffer(e, Screened(e, m).0)
    ensures m.kind == Ack ==> Screened(e, m).0 == e
  {
  }

  lemma HoldsSame(p: Peer, p': Peer)
    requires Holds(p) && SameBuffer(p.e, p'.e) && p'.sent == p.sent
    ensures Holds(p')
  {
  }

  /** A delivery either acknowledges or leaves the buffer as it is. */
  lemma DeliverBuffer(s: System)
    ensures var p := DoDeliver(s).a;
            && p.sent == s.a.sent
            && (SameBuffer(s.a.e, p.e)
                || (s.ba != [] && s.ba[0].kind == Ack && p == s.a.(e := Acked(s.a.e, s.ba[0].sequenceId))))
  {
    if s.ba != [] {
      ScreenedSame(s.a.e, s.ba[0]);
    }
    hide Acked, Screened;
  }

  lemma DeliverHolds(s: System)
    requires Holds(s.a)
    ensures Holds(DoDeliver(s).a)
  {
    DeliverBuffer(s);
    hide DoDeliver, Acked, Holds, SameBuffer;
    if SameBuffer(s.a.e, DoDeliver(s).a.e) {
      HoldsSame(s.a, DoDeliver(s).a);
    } else {
      AckHolds(s.a, s.ba[0].sequenceId);
    }
  }

  lemma FirstSame(e: Endpoint, e': Endpoint)
    requires SameBuffer(e, e')
    ensures FirstBuffered(e') == FirstBuffered(e)
  {
  }

  lemma AckedFirst(e: Endpoint, id: int)
    requires Accounted(e)
    ensures FirstBuffered(Acked(e, id)) <= FirstBuffered(e) || FirstBuffered(Acked(e, id)) <= id + 1
  {
    AckedAccounted(e, id);
    hide Acked, Accounted, FirstBuffered;
  }

  /** What A drops on an acknowledgement, B has received. */
  lemma DeliverFirst(s: System)
    requires Holds(s.a) && KeptUntilReceived(s)
    ensures FirstBuffered(DoDeliver(s).a.e) <= s.b.e.latestReceivedSequenceId + 1
  {
    hide Acked, Screened, Accounted, FirstBuffered;
    DeliverBuffer(s);
    hide DoDeliver, SameBuffer;
    if SameBuffer(s.a.e, DoDeliver(s).a.e) {
      FirstSame(s.a.e, DoDeliver(s).a.e);
    } else {
      AckedFirst(s.a.e, s.ba[0].sequenceId);
    }
  }

  lemma DeliverChannels(s: System)
    ensures var s' := DoDeliver(s);
            && s'.ab == s.ab && s'.a.sent == s.a.sent && s'.b == s.b && s'.up == s.up
            && s'.ba == (if s.ba == [] then [] else s.ba[1..])
  {
  }

  lemma DeliverKept(s: System)
    requires Direction(s)
    ensures KeptUntilReceived(DoDeliver(s)) && HandedOn(DoDeliver(s).a, s.b)
  {
    DeliverFirst(s);
    DeliverChannels(s);
    hide DoDeliver, FirstBuffered, InFlight, Holds;
    var s' := DoDeliver(s);
    if s.ba != [] {
      assert forall k :: 0 <= k < |s'.ba| ==> s'.ba[k] == s.ba[k + 1];
    }
  }

  lemma DeliverKeepsSender(s: System)
    requires Inv(s) && !s.stopped
    ensures Direction(DoDeliver(s))
  {
    DeliverHolds(s);
    DeliverKept(s);
    if s.ba != [] {
      ScreenedSame(s.a.e, s.ba[0]);
      AckedSame(s.a.e, s.ba[0].sequenceId);
    }
    hide Holds, HandedOn, KeptUntilReceived, Acked, Screened, AllFit, End, PositionOf;
  }

  /** What A's position and history become when it takes an expected frame. */
  lemma TakeInvocation(s: System)
    requires Direction(Flip(s)) && !s.stopped && s.ba != [] && IsInvocationMessage(s.ba[0])
    ensures Direction(Flip(DoDeliver(s)))
  {
    var m, e := s.ba[0], s.a.e;
    var s' := DoDeliver(s);
    assert s'.b == s.b && s'.ab == s.ab && s'.ba == s.ba[1..];
    assert forall k :: 0 <= k < |s'.ba| ==> s'.ba[k] == s.ba[k + 1];
    assert Fits(PositionOf(e), m, s.b.sent);
    assert PositionOf(s'.a.e) == Advance(PositionOf(e), m);
    hide Holds, Accounted;
    if !e.waitForSequenceMessage && e.nextReceivingSequenceId > e.latestReceivedSequenceId {
      var n := e.nextReceivingSequenceId;
      assert s.b.sent[..n] == s.b.sent[..n - 1] + [s.b.sent[n - 1]];
    }
  }

  lemma TakeOther(s: System)
    requires Direction(Flip(s)) && !s.stopped && s.ba != [] && !IsInvocationMessage(s.ba[0])
    ensures Direction(Flip(DoDeliver(s)))
  {
    var m, e := s.ba[0], s.a.e;
    var s' := DoDeliver(s);
    AckedSame(e, m.sequenceId);
    hide Holds, Accounted, Acked;
    assert s'.b == s.b && s'.ab == s.ab && s'.ba == s.ba[1..];
    assert forall k :: 0 <= k < |s'.ba| ==> s'.ba[k] == s.ba[k + 1];
    assert !s'.stopped ==> PositionOf(s'.a.e) == Advance(PositionOf(e), m);
  }

  lemma DeliverKeepsReceiver(s: System)
    requires Inv(s) && !s.stopped
    ensures Direction(Flip(DoDeliver(s)))
  {
    hide Direction;
    if s.ba != [] {
      if IsInvocationMessage(s.ba[0]) {
        TakeInvocation(s);
      } else {
        TakeOther(s);
      }
    }
  }

  // The timer, the loss of the connection, and the resend.

  lemma AckTimerKeepsSender(s: System)
    requires Inv(s) && !s.stopped
    ensures Direction(DoAckTimer(s))
  {
    var s' := DoAckTimer(s);
    var ack := AckOf(s.a.e.latestReceivedSequenceId);
    if s'.ab != s.ab {
      OneMore(PositionOf(s.b.e), s.ab, ack, s.a.sent);
    }
    hide AllFit, End;
    HoldsSame(s.a, s'.a);
    hide Holds;
  }

  lemma AckTimerKeepsReceiver(s: System)
    requires Inv(s) && !s.stopped
    ensures Direction(Flip(DoAckTimer(s)))
  {
    hide AllFit, End, Holds;
  }

  lemma NoticeKeeps(s: System)
    requires Inv(s) && !s.stopped
    ensures Inv(s.(a := s.a.(e := Disconnected(s.a.e))))
  {
    if s.up {
      FitUnknown(PositionOf(s.a.e), s.ba, s.b.sent);
    }
    DisconnectedAccounted(s.a.e);
    hide AllFit, End;
  }

  /** A resend brings the receiver, whatever its position, to the id after the last message sent. */
  lemma ResendFits(p: Peer, at: Position)
    requires Holds(p)
    ensures AllFit(at, ResendFrames(p.e), p.sent) && End(at, ResendFrames(p.e)) == At(|p.sent| + 1)
  {
    var frames := ResendFrames(p.e);
    assert frames[0] == SequenceOf(FirstBuffered(p.e)) && frames[1..] == Texts(p.e.messages);
    BufferFits(Texts(p.e.messages), p.sent, FirstBuffered(p.e));
  }

  lemma ResendKeepsSender(s: System)
    requires Inv(s) && !s.stopped
    ensures Direction(DoResend(s))
  {
    var s' := DoResend(s);
    if s.up && s.a.e.reconnectInProgress {
      var frames := ResendFrames(s.a.e);
      ResendFits(s.a, End(PositionOf(s.b.e), s.ab));
      FitConcat(PositionOf(s.b.e), s.ab, frames, s.a.sent);
      EndConcat(PositionOf(s.b.e), s.ab, frames);
      ResendKinds(s.a);
      hide ResendFrames;
    }
    hide AllFit, End;
    assert Holds(s'.a) by {
      HoldsResent(s.a);
    }
    hide Holds;
  }

  lemma HoldsResent(p: Peer)
    requires Holds(p)
    ensures Holds(p.(e := p.e.(reconnectInProgress := false)))
  {
  }

  lemma ResendKinds(p: Peer)
    requires Holds(p)
    ensures var frames := ResendFrames(p.e);
            && frames != [] && frames[0] == SequenceOf(FirstBuffered(p.e)) && FirstBuffered(p.e) >= 1
            && forall k :: 1 <= k < |frames| ==> IsInvocationMessage(frames[k])
  {
    var frames := ResendFrames(p.e);
    assert forall k :: 1 <= k < |frames| ==> frames[k] == p.e.messages[k - 1].message;
  }

  lemma ResendKeepsReceiver(s: System)
    requires Inv(s) && !s.stopped
    ensures Direction(Flip(DoResend(s)))
  {
    ResendKinds(s.a);
    hide AllFit, End, Holds, ResendFrames;
  }

  // ---------- All steps ----------

  lemma ActKeeps(s: System, action: Action)
    requires Inv(s) && !s.stopped
    ensures Inv(Act(s, action))
  {
    hide Direction, DoSend, DoDeliver, DoAckTimer, DoResend;
    match action
    case Send(m, fails) =>
      if m.kind != Ack && m.kind != Sequence {
        SendKeepsSender(s, m, fails);
        SendKeepsReceiver(s, m, fails);
      }
    case Deliver =>
      DeliverKeepsSender(s);
      DeliverKeepsReceiver(s);
    case AckTimerFires =>
      AckTimerKeepsSender(s);
      AckTimerKeepsReceiver(s);
    case NoticeDisconnect =>
      NoticeKeeps(s);
    case Resend =>
      ResendKeepsSender(s);
      ResendKeepsReceiver(s);
  }

  lemma FlipTwice(s: System)
    ensures Flip(Flip(s)) == s
    ensures Inv(Flip(s)) <==> Inv(s)
  {
  }
}
