/** When a send waits and when the sender's buffer drains: every acknowledgement that is owed
    is under way, unless one of two steps of the code loses it. */
module Acknowledgement {
  import opened MessageBuffers
  import opened Reconnect
  import opened ReconnectProtocol
  import opened AcknowledgementSteps

  // ---------- Sends wait at the limit ----------

  /** In every state a run reaches: a message that is sent waits exactly if with it the messages in the buffer have
      reached the size the buffer was made with. */
  lemma SendWaits(sizeA: int, sizeB: int, evs: seq<Event>, m: Message, fails: bool)
    requires !Run(Init(sizeA, sizeB), evs).stopped && IsInvocationMessage(m)
    ensures var s := Run(Init(sizeA, sizeB), evs);
            var items, before := Next(s, A(Send(m, fails))).a.e.messages, s.a.e.messages;
            && items != [] && items[..|items| - 1] == before && items[|items| - 1].message == m
            && (items[|items| - 1].waiter == Pending <==> Bytes(before) + |m.text| >= sizeA)
  {
    InitInv(sizeA, sizeB);
    RunKeeps(Init(sizeA, sizeB), evs);
    RunSizes(Init(sizeA, sizeB), evs);
    var s := Run(Init(sizeA, sizeB), evs);
    hide Run, Bytes;
    SendWaitsExactly(s.a.e, m);
    assert Next(s, A(Send(m, fails))).a.e.messages == Buffered(s.a.e, m).messages;
    hide Buffered, Accounted;
  }

  // ---------- An acknowledgement that is owed is under way ----------

  predicate Lossless(s: System, evs: seq<Event>)
    decreases evs
  {
    evs != [] ==> !Loses(s, evs[0]) && Lossless(Next(s, evs[0]), evs[1..])
  }

  lemma NextOwes(s: System, ev: Event)
    requires Inv(s) && Rewinds(s) && Owed(s) && !Loses(s, ev)
    ensures Rewinds(Next(s, ev)) && Owed(Next(s, ev))
  {
    hide Inv, DoSend, DoDeliver, DoAckTimer, DoResend, UnderWay;
    if !s.stopped {
      match ev
      case A(Send(m, fails)) =>
        if m.kind != Ack && m.kind != Sequence {
          SendOwes(s, m, fails);
        }
      case A(Deliver) =>
        DeliverOwes(s);
      case A(AckTimerFires) =>
        AckTimerOwes(s);
      case A(Resend) =>
        ResendOwes(s);
      case B(Send(m, fails)) =>
        if m.kind != Ack && m.kind != Sequence {
          ReplyOwes(s, m, fails);
        }
      case B(Deliver) =>
        TakeOwes(s);
      case B(AckTimerFires) =>
        FireOwes(s);
      case B(Resend) =>
        ResendBackOwes(s);
      case _ =>
    }
  }

  lemma {:induction false} RunOwes(s: System, evs: seq<Event>)
    requires Inv(s) && Rewinds(s) && Owed(s) && Lossless(s, evs)
    ensures Rewinds(Run(s, evs)) && Owed(Run(s, evs))
    decreases evs
  {
    hide Inv, Rewinds, Owed, Loses, Next;
    if evs != [] {
      NextKeeps(s, evs[0]);
      NextOwes(s, evs[0]);
      RunOwes(Next(s, evs[0]), evs[1..]);
    }
  }

  /** Nothing is under way: no frame from A, no acknowledgement from B, no timer, and no end is reconnecting or
      waiting on the way from A to B. */
  predicate Quiet(s: System) {
    && s.up && !s.stopped && s.ab == [] && !s.a.e.reconnectInProgress && !s.b.e.waitForSequenceMessage
    && !s.b.e.ackTimerSet && forall k :: 0 <= k < |s.ba| ==> s.ba[k].kind != Ack
  }

  lemma QuietIsLevel(s: System)
    requires Inv(s) && Quiet(s)
    ensures s.b.e.latestReceivedSequenceId == |s.a.sent| && CaughtUp(s)
    ensures s.a.e.messages != [] ==> FirstBuffered(s.a.e) <= |s.a.sent|
  {
    assert End(PositionOf(s.b.e), []) == At(s.b.e.nextReceivingSequenceId);
  }

  /** A run that loses no acknowledgement and has come to rest has emptied the sender's buffer: everything was
      acknowledged, and no send waits. */
  lemma QuietIsAcknowledged(sizeA: int, sizeB: int, evs: seq<Event>)
    requires Lossless(Init(sizeA, sizeB), evs) && Quiet(Run(Init(sizeA, sizeB), evs))
    ensures Run(Init(sizeA, sizeB), evs).a.e.messages == []
  {
    InitInv(sizeA, sizeB);
    RunKeeps(Init(sizeA, sizeB), evs);
    RunOwes(Init(sizeA, sizeB), evs);
    var s := Run(Init(sizeA, sizeB), evs);
    hide Run, Inv, Lossless;
    QuietIsLevel(s);
    hide FirstBuffered, CaughtUp;
  }

  // ---------- After a replay ----------

  /** After a replay that has arrived in full B's timer runs, whatever B had received before. When it fires and
      what it sends is taken, A's buffer is empty exactly if B was not reconnecting at that moment. */
  lemma ReplayIsAcknowledged(sizeA: int, sizeB: int, evs: seq<Event>)
    requires var s := Run(Init(sizeA, sizeB), evs);
             s.up && !s.stopped && s.a.e.reconnectInProgress && s.a.e.messages != []
    ensures var s := Next(Run(Init(sizeA, sizeB), evs), A(Resend));
            var t := Run(s, Deliveries(|s.ab|));
            t.stopped
            || (&& t.ab == [] && t.b.e.ackTimerSet && t.b.delivered == t.a.sent
                && (t.ba == [] && !t.a.e.waitForSequenceMessage ==>
                      (Run(t, [B(AckTimerFires), A(Deliver)]).a.e.messages == [] <==> !t.b.e.reconnectInProgress)))
  {
    InitInv(sizeA, sizeB);
    RunKeeps(Init(sizeA, sizeB), evs);
    var r := Run(Init(sizeA, sizeB), evs);
    var s := Next(r, A(Resend));
    NextKeeps(r, A(Resend));
    ReplayReady(r);
    TakeAll(s);
    var t := Run(s, Deliveries(|s.ab|));
    RunKeeps(s, Deliveries(|s.ab|));
    if !t.stopped {
      TakenIsLevel(s, t);
      if t.ba == [] && !t.a.e.waitForSequenceMessage {
        hide Run, Next;
        AckArrives(t);
      }
    }
  }

  // ---------- A lost acknowledgement stays lost ----------

  /** From such a state on, and so from every quiet one, whatever happens short of another message or another resend,
      A keeps what it has in its buffer, and a send that waits on it goes on waiting. */
  lemma LostAckStays(sizeA: int, sizeB: int, before: seq<Event>, after: seq<Event>)
    requires var s := Run(Init(sizeA, sizeB), before); Quiet(s) || Stuck(s)
    requires forall k :: 0 <= k < |after| ==> !Revives(after[k])
    ensures var s := Run(Init(sizeA, sizeB), before); Run(s, after).a.e.messages == s.a.e.messages
  {
    InitInv(sizeA, sizeB);
    RunKeeps(Init(sizeA, sizeB), before);
    StuckRun(Run(Init(sizeA, sizeB), before), after);
  }

  // ---------- A run that loses one ----------

  /** A message arrives; the connection drops, and both ends notice. */
  const LOSE := [A(Send(FIRST, false)), B(Deliver), Drop, A(NoticeDisconnect), B(NoticeDisconnect)]

  /** A resends; B takes the replay, and its timer fires before its own resend. */
  const FIRE := [Event.Reconnect, A(Resend), B(Deliver), B(Deliver), B(AckTimerFires)]

  const SETTLE := [B(Resend), A(Deliver)]

  function Sender(wait: bool, reconnecting: bool): Peer {
    Peer(Endpoint(1, [BufferedItem(FIRST, 1, Pending)], 1, wait, 1, 0, 1, reconnecting, false), [FIRST], [])
  }

  function Receiver(wait: bool, reconnecting: bool, timer: bool): Peer {
    Peer(Endpoint(1, [], 0, wait, 2, 1, 0, reconnecting, timer), [], [FIRST])
  }

  lemma ExampleLose()
    ensures Run(Init(1, 1), LOSE) == System(Sender(true, true), Receiver(true, true, true), [], [], false, false)
  {
    var s1 := Next(Init(1, 1), LOSE[0]);
    assert s1.a == Sender(false, false) && s1.ab == [FIRST];
    var s2 := Next(s1, LOSE[1]);
    assert s2 == System(Sender(false, false), Receiver(false, false, true), [], [], true, false);
    RunFive(Init(1, 1), LOSE);
  }

  lemma ExampleResend()
    ensures var s := System(Sender(true, true), Receiver(true, true, true), [], [], false, false);
            Next(Next(s, FIRE[0]), FIRE[1]) ==
            System(Sender(true, false), Receiver(true, true, true), [SequenceOf(1), FIRST], [], true, false)
  {
    var s := System(Sender(true, true), Receiver(true, true, true), [], [], false, false);
    assert Texts(s.a.e.messages) == [FIRST];
    assert Next(s, FIRE[0]) == s.(up := true);
  }

  lemma ExampleFire()
    ensures Run(System(Sender(true, true), Receiver(true, true, true), [], [], false, false), FIRE) ==
            System(Sender(true, false), Receiver(false, true, false), [], [], true, false)
  {
    var s := System(Sender(true, true), Receiver(true, true, true), [], [], false, false);
    ExampleResend();
    hide ResendFrames;
    var s2 := System(Sender(true, false), Receiver(true, true, true), [SequenceOf(1), FIRST], [], true, false);
    var s3 := Next(s2, FIRE[2]);
    assert s3.ab == [FIRST] && s3.b.e == Receiver(false, true, true).e.(nextReceivingSequenceId := 1);
    var s4 := Next(s3, FIRE[3]);
    assert s4 == System(Sender(true, false), Receiver(false, true, true), [], [], true, false);
    RunFive(s, FIRE);
  }

  lemma ExampleSettle()
    ensures Run(System(Sender(true, false), Receiver(false, true, false), [], [], true, false), SETTLE) ==
            System(Sender(false, false), Receiver(false, false, false), [], [], true, false)
  {
    var s := System(Sender(true, false), Receiver(false, true, false), [], [], true, false);
    var s1 := Next(s, SETTLE[0]);
    assert s1 == System(Sender(true, false), Receiver(false, false, false), [], [SequenceOf(1)], true, false) by {
      assert Texts(s.b.e.messages) == [];
    }
    RunOne(s, SETTLE);
    RunOne(s1, SETTLE[1..]);
    assert SETTLE[1..][1..] == [];
  }

  /** A run of two correct ends that comes to rest with the message still in the sender's buffer and its send still
      waiting: the timer fired while the receiver was reconnecting. */
  lemma LostAckExample()
    ensures var s := Run(Init(1, 1), LOSE + (FIRE + SETTLE));
            && Quiet(s) && s.ba == [] && s.b.delivered == s.a.sent == [FIRST]
            && |s.a.e.messages| == 1 && s.a.e.messages[0].waiter == Pending
  {
    ExampleLose();
    ExampleFire();
    ExampleSettle();
    RunConcat(Init(1, 1), LOSE, FIRE + SETTLE);
    RunConcat(Run(Init(1, 1), LOSE), FIRE, SETTLE);
    hide Run;
  }
}
