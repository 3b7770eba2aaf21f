/** What each step of the reconnect protocol does to the acknowledgement that a sender is owed: whether one is under
    way, by a timer that runs or a frame in flight, whenever the sender still holds a message that was received; what
    the deliveries of a replay do to the receiver's place and its timer; and which steps leave a sender alone for which
    nothing is under way. Messages go from A to B here, and acknowledgements from B to A. */
module AcknowledgementSteps {
  import opened MessageBuffers
  import opened Reconnect
  import opened ReconnectProtocol

  // ---------- The size of a buffer ----------

  predicate SameSizes(s: System, s': System) {
    s'.a.e.bufferSize == s.a.e.bufferSize && s'.b.e.bufferSize == s.b.e.bufferSize
  }

  lemma DeliverSizes(s: System)
    ensures SameSizes(s, DoDeliver(s))
  {
    if s.ba != [] {
      var m := s.ba[0];
      var (e, _) := Screened(s.a.e, m);
      assert e.bufferSize == s.a.e.bufferSize;
      hide Screened, Covered, Bytes, ResolveAll;
    }
  }

  lemma ActSizes(s: System, action: Action)
    ensures SameSizes(s, Act(s, action))
  {
    hide DoDeliver, Texts, IsInvocationMessage, ResendFrames;
    match action
    case Deliver => DeliverSizes(s);
    case _ =>
  }

  lemma NextSizes(s: System, ev: Event)
    ensures SameSizes(s, Next(s, ev))
  {
    hide Act;
    match ev
    case A(action) => ActSizes(s, action);
    case B(action) => ActSizes(Flip(s), action);
    case _ =>
  }

  lemma {:induction false} RunSizes(s: System, evs: seq<Event>)
    ensures SameSizes(s, Run(s, evs))
    decreases evs
  {
    hide Next;
    if evs != [] {
      NextSizes(s, evs[0]);
      RunSizes(Next(s, evs[0]), evs[1..]);
    }
  }

  // ---------- What is owed ----------

  /** The two ways to lose an acknowledgement: B's timer fires while B reconnects, which sends nothing and clears
      the timer; or it reaches A while A waits for a sequence frame, which drops it. */
  predicate Loses(s: System, ev: Event) {
    && !s.stopped
    && (|| (ev == B(AckTimerFires) && s.b.e.ackTimerSet && s.b.e.reconnectInProgress)
        || (ev == A(Deliver) && s.ba != [] && s.ba[0].kind == Ack && s.a.e.waitForSequenceMessage))
  }

  predicate NoSequence(frames: seq<Message>) {
    forall k :: 0 <= k < |frames| ==> frames[k].kind != Sequence
  }

  /** A sequence frame in flight rewinds B no further than A's buffer reaches back. */
  predicate Rewinds(s: System) {
    forall k :: 0 <= k < |s.ab| && s.ab[k].kind == Sequence ==> s.ab[k].sequenceId <= FirstBuffered(s.a.e)
  }

  /** The connection works from A to B, and B is not in the middle of a replay. */
  predicate CaughtUp(s: System) {
    && s.up && !s.stopped && !s.a.e.reconnectInProgress && !s.b.e.waitForSequenceMessage
    && s.b.e.nextReceivingSequenceId == s.b.e.latestReceivedSequenceId + 1 && NoSequence(s.ab)
  }

  predicate UnderWay(s: System) {
    s.b.e.ackTimerSet || AckOf(s.b.e.latestReceivedSequenceId) in s.ba
  }

  /** If A still has a message in its buffer that B received, the acknowledgement for it is under way. */
  predicate Owed(s: System) {
    CaughtUp(s) && FirstBuffered(s.a.e) <= s.b.e.latestReceivedSequenceId ==> UnderWay(s)
  }

  lemma FirstGrows(e: Endpoint, id: int)
    requires Accounted(e)
    ensures FirstBuffered(Acked(e, id)) >= FirstBuffered(e)
    ensures id <= e.totalMessageCount ==> FirstBuffered(Acked(e, id)) > id
  {
    AckedAccounted(e, id);
    hide Acked, Accounted;
  }

  lemma NoSequenceMore(frames: seq<Message>, m: Message)
    requires m.kind != Sequence
    ensures NoSequence(frames + [m]) ==> NoSequence(frames)
  {
    assert forall k :: 0 <= k < |frames| ==> (frames + [m])[k] == frames[k];
  }

  lemma SendOwes(s: System, m: Message, fails: bool)
    requires Inv(s) && !s.stopped && Rewinds(s) && Owed(s) && m.kind != Sequence
    ensures Rewinds(DoSend(s, m, fails)) && Owed(DoSend(s, m, fails))
  {
    BufferedAccounted(s.a.e, m);
    BufferedSame(s.a.e, m);
    NoSequenceMore(s.ab, m);
    var s' := DoSend(s, m, fails);
    assert FirstBuffered(s'.a.e) == FirstBuffered(s.a.e);
    hide Inv, Buffered, Accounted, FirstBuffered, NoSequence;
  }

  /** What A's delivery does, as far as it matters here. */
  lemma DeliverFirstGrows(s: System)
    requires Holds(s.a)
    ensures var s' := DoDeliver(s);
            && FirstBuffered(s'.a.e) >= FirstBuffered(s.a.e)
            && s'.a.e.reconnectInProgress == s.a.e.reconnectInProgress
            && ((&& s.ba != [] && s.ba[0].kind == Ack && !s.a.e.waitForSequenceMessage
                 && s.ba[0].sequenceId <= |s.a.sent|) ==> FirstBuffered(s'.a.e) > s.ba[0].sequenceId)
  {
    if s.ba != [] {
      FirstGrows(s.a.e, s.ba[0].sequenceId);
      AckedSame(s.a.e, s.ba[0].sequenceId);
    }
    hide Acked, Accounted, FirstBuffered;
    DeliverBuffer(s);
    if SameBuffer(s.a.e, DoDeliver(s).a.e) {
      FirstSame(s.a.e, DoDeliver(s).a.e);
    }
  }

  lemma DeliverOwes(s: System)
    requires Inv(s) && !s.stopped && Rewinds(s) && Owed(s) && !Loses(s, A(Deliver))
    ensures Rewinds(DoDeliver(s)) && Owed(DoDeliver(s))
  {
    DeliverFirstGrows(s);
    DeliverChannels(s);
    assert s.b.e.latestReceivedSequenceId <= |s.a.sent|;
    hide Inv, FirstBuffered, DoDeliver, NoSequence;
    var id := s.b.e.latestReceivedSequenceId;
    if AckOf(id) in s.ba && s.ba[0] != AckOf(id) {
      assert AckOf(id) in s.ba[1..];
    }
  }

  lemma AckTimerOwes(s: System)
    requires !s.stopped && Rewinds(s) && Owed(s)
    ensures Rewinds(DoAckTimer(s)) && Owed(DoAckTimer(s))
  {
    NoSequenceMore(s.ab, AckOf(s.a.e.latestReceivedSequenceId));
    hide NoSequence;
  }

  lemma ResendOwes(s: System)
    requires Inv(s) && !s.stopped && Rewinds(s) && Owed(s)
    ensures Rewinds(DoResend(s)) && Owed(DoResend(s))
  {
    ResendKinds(s.a);
    var s' := DoResend(s);
    assert FirstBuffered(s'.a.e) == FirstBuffered(s.a.e);
    hide Inv, ResendFrames, FirstBuffered;
    if s.up && s.a.e.reconnectInProgress {
      assert s'.ab[|s.ab|].kind == Sequence;
    }
  }

  /** What B's delivery does to its place and to its timer. */
  lemma TakeOwes(s: System)
    requires Inv(s) && !s.stopped && Rewinds(s) && Owed(s)
    ensures var s' := Flip(DoDeliver(Flip(s))); Rewinds(s') && Owed(s')
  {
    var s' := Flip(DoDeliver(Flip(s)));
    DeliverChannels(Flip(s));
    if s.ab != [] {
      var m := s.ab[0];
      AckedSame(s.b.e, m.sequenceId);
      assert forall k :: 0 <= k < |s'.ab| ==> s'.ab[k] == s.ab[k + 1];
      hide Inv, FirstBuffered, Acked;
      if CaughtUp(s') && FirstBuffered(s.a.e) <= s'.b.e.latestReceivedSequenceId && !s'.b.e.ackTimerSet {
        assert m.kind != Sequence && !IsInvocationMessage(m);
        assert NoSequence(s.ab);
      }
    }
  }

  lemma ReplyOwes(s: System, m: Message, fails: bool)
    requires !s.stopped && Rewinds(s) && Owed(s)
    ensures var s' := Flip(DoSend(Flip(s), m, fails)); Rewinds(s') && Owed(s')
  {
    BufferedSame(s.b.e, m);
    hide Buffered, FirstBuffered, NoSequence;
    var s' := Flip(DoSend(Flip(s), m, fails));
    assert CaughtUp(s') ==> CaughtUp(s);
    assert AckOf(s.b.e.latestReceivedSequenceId) in s.ba ==> AckOf(s.b.e.latestReceivedSequenceId) in s'.ba;
  }

  lemma FireOwes(s: System)
    requires !s.stopped && Rewinds(s) && Owed(s) && !Loses(s, B(AckTimerFires))
    ensures var s' := Flip(DoAckTimer(Flip(s))); Rewinds(s') && Owed(s')
  {
    hide FirstBuffered, NoSequence;
  }

  lemma ResendBackOwes(s: System)
    requires !s.stopped && Rewinds(s) && Owed(s)
    ensures var s' := Flip(DoResend(Flip(s))); Rewinds(s') && Owed(s')
  {
    hide FirstBuffered, NoSequence, ResendFrames;
  }

  // ---------- Taking a replay ----------

  lemma {:induction false} RunStopped(s: System, evs: seq<Event>)
    requires s.stopped
    ensures Run(s, evs) == s
    decreases evs
  {
    if evs != [] {
      RunStopped(s, evs[1..]);
    }
  }

  /** B took everything off its channel: it has received all A sent, and its timer runs. */
  predicate Taken(s: System, t: System) {
    && t.ab == [] && t.ba == s.ba && t.a == s.a && t.up && !t.b.e.waitForSequenceMessage && t.b.e.ackTimerSet
    && t.b.e.reconnectInProgress == s.b.e.reconnectInProgress && t.b.e.latestReceivedSequenceId == |s.a.sent|
  }

  lemma ScreenedPlace(e: Endpoint, m: Message)
    ensures var (e', process) := Screened(e, m);
            && e'.reconnectInProgress == e.reconnectInProgress
            && (m.kind == Sequence ==> process)
            && (m.kind != Sequence ==> PositionOf(e') == Advance(PositionOf(e), m))
            && (m.kind == Sequence ==> !e'.waitForSequenceMessage)
  {
  }

  lemma TakeOne(s: System)
    requires s.up && !s.stopped && s.ab != []
    ensures var t := Next(s, B(Deliver));
            && t.ab == s.ab[1..] && t.ba == s.ba && t.a == s.a && t.up
            && t.b.e.reconnectInProgress == s.b.e.reconnectInProgress
            && (!t.stopped ==> PositionOf(t.b.e) == Advance(PositionOf(s.b.e), s.ab[0]))
  {
    DeliverChannels(Flip(s));
    AckedSame(s.b.e, s.ab[0].sequenceId);
    ScreenedPlace(s.b.e, s.ab[0]);
    hide Acked, IsInvocationMessage, Screened;
  }

  /** The last frame in flight is an invocation message: when it has arrived, B's timer runs. */
  lemma TakeLast(s: System)
    requires Inv(s) && s.up && !s.stopped && !s.a.e.reconnectInProgress && |s.ab| == 1
    requires IsInvocationMessage(s.ab[0]) && End(PositionOf(s.b.e), s.ab) != Unknown
    ensures Taken(s, Next(s, B(Deliver)))
  {
    TakeOne(s);
    assert s.ab[1..] == [];
    assert End(PositionOf(s.b.e), s.ab) == Advance(PositionOf(s.b.e), s.ab[0]);
    hide Holds, AllFit;
  }

  function Deliveries(n: nat): seq<Event> {
    if n == 0 then [] else [B(Deliver)] + Deliveries(n - 1)
  }

  /** However B stood: once everything in flight has arrived, ending in an invocation message, its timer runs. */
  lemma {:induction false} TakeAll(s: System)
    requires Inv(s) && s.up && !s.stopped && !s.a.e.reconnectInProgress && s.ab != []
    requires IsInvocationMessage(s.ab[|s.ab| - 1]) && End(PositionOf(s.b.e), s.ab) != Unknown
    ensures var t := Run(s, Deliveries(|s.ab|)); t.stopped || Taken(s, t)
    decreases |s.ab|
  {
    var t := Next(s, B(Deliver));
    assert Deliveries(|s.ab|) == [B(Deliver)] + Deliveries(|s.ab| - 1);
    assert Deliveries(|s.ab|)[1..] == Deliveries(|s.ab| - 1);
    NextKeeps(s, B(Deliver));
    TakeOne(s);
    hide Inv, Next;
    if |s.ab| == 1 {
      TakeLast(s);
    } else if t.stopped {
      RunStopped(t, Deliveries(|s.ab| - 1));
    } else {
      TakeAll(t);
    }
  }

  /** The acknowledgement: B's timer fires, and A takes what arrives. */
  lemma AckArrives(s: System)
    requires Holds(s.a) && s.up && !s.stopped && s.ba == [] && !s.a.e.waitForSequenceMessage
    requires s.b.e.ackTimerSet && s.b.e.latestReceivedSequenceId == |s.a.sent| && s.a.e.messages != []
    ensures Run(s, [B(AckTimerFires), A(Deliver)]).a.e.messages == [] <==> !s.b.e.reconnectInProgress
  {
    var evs := [B(AckTimerFires), A(Deliver)];
    var t := Next(s, evs[0]);
    RunOne(s, evs);
    RunOne(t, evs[1..]);
    assert evs[1..][1..] == [];
    AckedAccounted(s.a.e, |s.a.sent|);
    hide Accounted, Acked, FirstBuffered;
    if s.b.e.reconnectInProgress {
      assert t.a == s.a && t.ba == [];
    } else {
      assert t.a == s.a && t.ba == [AckOf(|s.a.sent|)];
    }
  }

  lemma TakenIsLevel(s: System, t: System)
    requires Inv(t) && Taken(s, t)
    ensures t.b.delivered == t.a.sent && Holds(t.a)
  {
    hide Holds, InFlight;
    assert t.a.sent[..|t.a.sent|] == t.a.sent;
  }

  lemma ReplayReady(r: System)
    requires Inv(r) && r.up && !r.stopped && r.a.e.reconnectInProgress && r.a.e.messages != []
    ensures var s := Next(r, A(Resend));
            && s.up && !s.stopped && !s.a.e.reconnectInProgress && s.ab != [] && s.a.e.messages == r.a.e.messages
            && IsInvocationMessage(s.ab[|s.ab| - 1]) && End(PositionOf(s.b.e), s.ab) != Unknown
  {
    var frames := ResendFrames(r.a.e);
    ResendKinds(r.a);
    ResendFits(r.a, End(PositionOf(r.b.e), r.ab));
    EndConcat(PositionOf(r.b.e), r.ab, frames);
    assert |frames| == 1 + |r.a.e.messages|;
    hide Inv, ResendFrames, End;
    var s := Next(r, A(Resend));
    assert s.ab[|s.ab| - 1] == frames[|frames| - 1];
  }

  // ---------- Nothing under way ----------

  /** No acknowledgement, timer or message that is under way will take anything from A's buffer. */
  predicate Stuck(s: System) {
    && !s.b.e.ackTimerSet
    && (forall k :: 0 <= k < |s.ab| ==> !IsInvocationMessage(s.ab[k]))
    && (forall k :: 0 <= k < |s.ba| && s.ba[k].kind == Ack ==> s.ba[k].sequenceId < FirstBuffered(s.a.e))
  }

  /** The two things that bring a new acknowledgement about: A sends another message, or resends. */
  predicate Revives(ev: Event) {
    ev.A? && (ev.action.Resend? || (ev.action.Send? && IsInvocationMessage(ev.action.m)))
  }

  /** An acknowledgement of what is gone already changes nothing, not even who waits. */
  lemma AckOfNothing(e: Endpoint, id: int)
    requires Accounted(e) && id < FirstBuffered(e)
    ensures Acked(e, id) == e
  {
    assert e.messages != [] ==> e.messages[0].id > id;
    assert e.messages[0..] == e.messages;
    if e.bufferedByteCount < e.bufferSize {
      assert ResolveAll(e.messages) == e.messages;
    }
  }

  lemma StuckDeliver(s: System)
    requires Inv(s) && Stuck(s) && !s.stopped
    ensures Stuck(DoDeliver(s)) && DoDeliver(s).a.e.messages == s.a.e.messages
  {
    DeliverBuffer(s);
    DeliverChannels(s);
    var s' := DoDeliver(s);
    if !SameBuffer(s.a.e, s'.a.e) {
      AckOfNothing(s.a.e, s.ba[0].sequenceId);
    }
    assert forall k :: 0 <= k < |s'.ba| ==> s'.ba[k] == s.ba[k + 1];
    assert s'.b == s.b && s'.a.e.totalMessageCount == s.a.e.totalMessageCount;
    hide Inv, DoDeliver, Acked, IsInvocationMessage;
  }

  lemma StuckSender(s: System, action: Action)
    requires Stuck(s) && !action.Deliver? && !Revives(A(action))
    ensures Stuck(Act(s, action)) && Act(s, action).a.e.messages == s.a.e.messages
  {
    hide Acked;
  }

  lemma StuckTake(s: System)
    requires Stuck(s)
    ensures var s' := Flip(DoDeliver(Flip(s))); Stuck(s') && s'.a.e.messages == s.a.e.messages
  {
    var s' := Flip(DoDeliver(Flip(s)));
    DeliverChannels(Flip(s));
    if s.ab != [] {
      AckedSame(s.b.e, s.ab[0].sequenceId);
      assert forall k :: 0 <= k < |s'.ab| ==> s'.ab[k] == s.ab[k + 1];
      hide Acked, FirstBuffered;
    }
  }

  lemma StuckResend(s: System)
    requires Inv(s) && Stuck(s)
    ensures var s' := Flip(DoResend(Flip(s))); Stuck(s') && s'.a.e.messages == s.a.e.messages
  {
    ResendKinds(s.b);
    hide Inv, FirstBuffered, ResendFrames;
  }

  lemma StuckReceiver(s: System, action: Action)
    requires Stuck(s) && !action.Deliver? && !action.Resend?
    ensures var s' := Flip(Act(Flip(s), action)); Stuck(s') && s'.a.e.messages == s.a.e.messages
  {
    if action.Send? {
      BufferedSame(s.b.e, action.m);
    }
    hide FirstBuffered, Buffered;
  }

  lemma StuckDropped(s: System)
    requires Stuck(s)
    ensures Stuck(s.(up := false, ab := [], ba := []))
  {
  }

  lemma StuckUp(s: System)
    requires Stuck(s)
    ensures Stuck(s.(up := true))
  {
  }

  lemma StuckNext(s: System, ev: Event)
    requires Inv(s) && Stuck(s) && !Revives(ev)
    ensures Stuck(Next(s, ev)) && Next(s, ev).a.e.messages == s.a.e.messages
  {
    if !s.stopped {
      hide Inv, Holds, DoDeliver, Stuck;
      match ev
      case A(Deliver) =>
        StuckDeliver(s);
      case A(action) =>
        StuckSender(s, action);
      case B(Deliver) =>
        StuckTake(s);
      case B(Resend) =>
        StuckResend(s);
      case B(action) =>
        StuckReceiver(s, action);
      case Drop =>
        StuckDropped(s);
      case _ =>
        StuckUp(s);
    }
  }

  lemma {:induction false} StuckRun(s: System, evs: seq<Event>)
    requires Inv(s) && Stuck(s) && forall k :: 0 <= k < |evs| ==> !Revives(evs[k])
    ensures Run(s, evs).a.e.messages == s.a.e.messages
    decreases evs
  {
    if evs != [] {
      assert !Revives(evs[0]);
      NextKeeps(s, evs[0]);
      StuckNext(s, evs[0]);
      hide Inv, Next, Stuck;
      StuckRun(Next(s, evs[0]), evs[1..]);
    }
  }
}
