/** Two ends that both run the message buffer over a connection that drops: whatever is
    sent, delivered, acknowledged, dropped and resent, each end hands on exactly the first
    messages the other sent, in order, with no gap and no duplicate. */
module Reconnect {
  import opened MessageBuffers
  import opened ReconnectProtocol

  // ---------- All runs ----------

  lemma NextKeeps(s: System, ev: Event)
    requires Inv(s)
    ensures Inv(Next(s, ev))
  {
    if !s.stopped {
      match ev
      case A(action) =>
        ActKeeps(s, action);
      case B(action) =>
        FlipTwice(s);
        ActKeeps(Flip(s), action);
        FlipTwice(Act(Flip(s), action));
      case Drop =>
        hide Holds;
      case Reconnect =>
        hide Holds;
    }
  }

  lemma {:induction false} RunKeeps(s: System, evs: seq<Event>)
    requires Inv(s)
    ensures Inv(Run(s, evs))
    decreases evs
  {
    if evs != [] {
      NextKeeps(s, evs[0]);
      RunKeeps(Next(s, evs[0]), evs[1..]);
    }
  }

  lemma InitInv(sizeA: int, sizeB: int)
    ensures Inv(Init(sizeA, sizeB))
  {
  }

  /** Over any run, in both directions: what an end handed on is exactly the first messages the other end sent,
      as many as its latest received id says. */
  lemma ExactlyOnceInOrder(sizeA: int, sizeB: int, evs: seq<Event>)
    ensures var s := Run(Init(sizeA, sizeB), evs);
            && 0 <= s.b.e.latestReceivedSequenceId <= |s.a.sent|
            && s.b.delivered == s.a.sent[..s.b.e.latestReceivedSequenceId]
            && 0 <= s.a.e.latestReceivedSequenceId <= |s.b.sent|
            && s.a.delivered == s.b.sent[..s.a.e.latestReceivedSequenceId]
  {
    InitInv(sizeA, sizeB);
    RunKeeps(Init(sizeA, sizeB), evs);
  }

  /** And until it is acknowledged, every message an end sent is in its buffer: what was not handed on yet is
      still there to be resent. */
  lemma NothingForgotten(sizeA: int, sizeB: int, evs: seq<Event>, k: nat)
    requires var s := Run(Init(sizeA, sizeB), evs); |s.b.delivered| <= k < |s.a.sent|
    ensures var s := Run(Init(sizeA, sizeB), evs);
            exists j :: 0 <= j < |s.a.e.messages| && s.a.e.messages[j].id == k + 1
                        && s.a.e.messages[j].message == s.a.sent[k]
  {
    InitInv(sizeA, sizeB);
    RunKeeps(Init(sizeA, sizeB), evs);
    var s := Run(Init(sizeA, sizeB), evs);
    hide Run, InFlight;
    var first := s.a.e.totalMessageCount - |s.a.e.messages| + 1;
    assert first == FirstBuffered(s.a.e);
    assert s.a.e.messages[k + 1 - first].id == k + 1;
  }

  /** When nothing is under way, everything sent has been handed on: the connection is up with no frame in flight, and
      neither the sender is reconnecting nor the receiver waiting. */
  lemma QuietIsDelivered(sizeA: int, sizeB: int, evs: seq<Event>)
    requires var s := Run(Init(sizeA, sizeB), evs);
             s.up && !s.stopped && s.ab == [] && !s.a.e.reconnectInProgress && !s.b.e.waitForSequenceMessage
    ensures var s := Run(Init(sizeA, sizeB), evs); s.b.delivered == s.a.sent
  {
    InitInv(sizeA, sizeB);
    RunKeeps(Init(sizeA, sizeB), evs);
    var s := Run(Init(sizeA, sizeB), evs);
    hide Run, Holds;
    assert End(PositionOf(s.b.e), []) == At(s.b.e.nextReceivingSequenceId);
    assert s.a.sent[..|s.a.sent|] == s.a.sent;
  }

  /** The accounts of both ends are right at every moment: ids, bytes, and no send left waiting below the limit. */
  lemma AccountsAlwaysRight(sizeA: int, sizeB: int, evs: seq<Event>)
    ensures var s := Run(Init(sizeA, sizeB), evs); Accounted(s.a.e) && Accounted(s.b.e)
  {
    InitInv(sizeA, sizeB);
    RunKeeps(Init(sizeA, sizeB), evs);
  }

  function FlipEvent(ev: Event): Event {
    match ev
    case A(action) => B(action)
    case B(action) => A(action)
    case _ => ev
  }

  function FlipEvents(evs: seq<Event>): (r: seq<Event>)
    ensures |r| == |evs|
  {
    if evs == [] then [] else [FlipEvent(evs[0])] + FlipEvents(evs[1..])
  }

  /** The two ends play the same part: whatever is stated of messages from A to B holds from B to A. */
  lemma {:induction false} BothWays(s: System, evs: seq<Event>)
    ensures Run(Flip(s), FlipEvents(evs)) == Flip(Run(s, evs))
    decreases evs
  {
    if evs != [] {
      FlipTwice(s);
      var t := Next(s, evs[0]);
      assert Next(Flip(s), FlipEvent(evs[0])) == Flip(t);
      assert FlipEvents(evs)[1..] == FlipEvents(evs[1..]);
      BothWays(t, evs[1..]);
    }
  }

  // ---------- When the connection is given up ----------

  /** A sequence frame stops the connection exactly when its id is beyond the receiver's position. In every
      reachable state the receiver has then already handed on every message before that id, so nothing is
      missing; and it can only happen in the middle of a replay. */
  lemma StopExactly(sizeA: int, sizeB: int, evs: seq<Event>)
    requires var s := Run(Init(sizeA, sizeB), evs); !s.stopped && s.up && s.ab != [] && s.ab[0].kind == Sequence
    ensures var s := Run(Init(sizeA, sizeB), evs);
            var n := s.ab[0].sequenceId;
            && (Next(s, B(Deliver)).stopped <==> n > s.b.e.nextReceivingSequenceId)
            && n - 1 <= |s.b.delivered|
            && (s.b.e.nextReceivingSequenceId == s.b.e.latestReceivedSequenceId + 1 ==> !Next(s, B(Deliver)).stopped)
  {
    InitInv(sizeA, sizeB);
    RunKeeps(Init(sizeA, sizeB), evs);
    var s := Run(Init(sizeA, sizeB), evs);
    hide Run, Holds, AllFit, End;
    assert s.ab[0].sequenceId <= s.b.e.latestReceivedSequenceId + 1;
  }

  const FIRST := Message(Invocation, 0, "a")
  const SECOND := Message(Invocation, 0, "b")

  /** Two messages arrive; the connection drops. */
  const ARRIVE := [A(Send(FIRST, false)), A(Send(SECOND, false)), B(Deliver), B(Deliver), Drop]

  /** Both ends notice, reconnect and resend. */
  const RECONNECTING := [A(NoticeDisconnect), B(NoticeDisconnect), Reconnect, A(Resend), B(Resend)]

  /** B replays the first message; its acknowledgement of both reaches A; the connection drops again. */
  const REPLAY := [B(Deliver), B(Deliver), B(AckTimerFires), A(Deliver), A(Deliver), Drop]

  lemma {:induction false} RunConcat(s: System, xs: seq<Event>, ys: seq<Event>)
    ensures Run(s, xs + ys) == Run(Run(s, xs), ys)
    decreases xs
  {
    if xs == [] {
      assert xs + ys == ys;
    } else {
      assert (xs + ys)[0] == xs[0] && (xs + ys)[1..] == xs[1..] + ys;
      RunConcat(Next(s, xs[0]), xs[1..], ys);
    }
  }

  function ExampleA(messages: seq<BufferedItem>, bytes: int, wait: bool, reconnecting: bool): Peer {
    Peer(Endpoint(1000, messages, 2, wait, 1, 0, bytes, reconnecting, false), [FIRST, SECOND], [])
  }

  function ExampleB(wait: bool, next: int, reconnecting: bool, timer: bool): Peer {
    Peer(Endpoint(1000, [], 0, wait, next, 2, 0, reconnecting, timer), [], [FIRST, SECOND])
  }

  const BOTH := [BufferedItem(FIRST, 1, NoWaiter), BufferedItem(SECOND, 2, NoWaiter)]

  lemma ExampleArrive()
    ensures Run(Init(1000, 1000), ARRIVE) ==
            System(ExampleA(BOTH, 2, false, false), ExampleB(false, 3, false, true), [], [], false, false)
  {
    var s1 := Next(Init(1000, 1000), ARRIVE[0]);
    var s2 := Next(s1, ARRIVE[1]);
    assert s2.ab == [FIRST, SECOND];
    var s3 := Next(s2, ARRIVE[2]);
    assert s3.ab == [SECOND];
    var s4 := Next(s3, ARRIVE[3]);
    assert s4.b == ExampleB(false, 3, false, true);
    assert s4.a == ExampleA(BOTH, 2, false, false);
    RunFive(Init(1000, 1000), ARRIVE);
  }

  lemma RunOne(s: System, evs: seq<Event>)
    requires evs != []
    ensures Run(s, evs) == Run(Next(s, evs[0]), evs[1..])
  {
  }

  lemma RunFive(s: System, evs: seq<Event>)
    requires |evs| == 5
    ensures Run(s, evs) == Next(Next(Next(Next(Next(s, evs[0]), evs[1]), evs[2]), evs[3]), evs[4])
  {
    hide Next;
    var s1 := Next(s, evs[0]);
    var s2 := Next(s1, evs[1]);
    var s3 := Next(s2, evs[2]);
    RunOne(s, evs);
    RunOne(s1, evs[1..]);
    RunOne(s2, evs[1..][1..]);
    RunOne(s3, evs[1..][1..][1..]);
    RunOne(Next(s3, evs[3]), evs[1..][1..][1..][1..]);
  }

  lemma ExampleReconnect(messages: seq<BufferedItem>, bytes: int, wait: bool, next: int, timer: bool)
    ensures var s := System(ExampleA(messages, bytes, wait, false), ExampleB(wait, next, false, timer),
                            [], [], false, false);
            Run(s, RECONNECTING) ==
            System(ExampleA(messages, bytes, true, false), ExampleB(true, next, false, timer),
                   ResendFrames(s.a.e), [SequenceOf(1)], true, false)
  {
    var s := System(ExampleA(messages, bytes, wait, false), ExampleB(wait, next, false, timer), [], [], false, false);
    var s3 := Next(Next(Next(s, RECONNECTING[0]), RECONNECTING[1]), RECONNECTING[2]);
    assert s3 == System(ExampleA(messages, bytes, true, true), ExampleB(true, next, true, timer), [], [], true, false);
    assert ResendFrames(s3.a.e) == ResendFrames(s.a.e) && ResendFrames(s3.b.e) == [SequenceOf(1)];
    RunFive(s, RECONNECTING);
  }

  lemma ExampleReplay()
    ensures Run(System(ExampleA(BOTH, 2, true, false), ExampleB(true, 3, false, true),
                       [SequenceOf(1), FIRST, SECOND], [SequenceOf(1)], true, false), REPLAY) ==
            System(ExampleA([], 0, false, false), ExampleB(false, 2, false, false), [], [], false, false)
  {
    var s := System(ExampleA(BOTH, 2, true, false), ExampleB(true, 3, false, true),
                    [SequenceOf(1), FIRST, SECOND], [SequenceOf(1)], true, false);
    var s1 := Next(s, REPLAY[0]);
    assert s1 == System(s.a, ExampleB(false, 1, false, true), [FIRST, SECOND], [SequenceOf(1)], true, false);
    var s2 := Next(s1, REPLAY[1]);
    assert s2 == System(s.a, ExampleB(false, 2, false, true), [SECOND], [SequenceOf(1)], true, false);
    var s3 := Next(s2, REPLAY[2]);
    assert s3 == System(s.a, ExampleB(false, 2, false, false), [SECOND], [SequenceOf(1), AckOf(2)], true, false);
    var s4 := Next(s3, REPLAY[3]);
    assert s4 == System(ExampleA(BOTH, 2, false, false), s3.b, [SECOND], [AckOf(2)], true, false);
    var s5 := Next(s4, REPLAY[4]);
    assert Covered(BOTH, 2) == 2;
    BytesBoth();
    assert s5 == System(ExampleA([], 0, false, false), s3.b, [SECOND], [], true, false);
    RunConcat(s, REPLAY[..5], REPLAY[5..]);
    assert REPLAY[..5] + REPLAY[5..] == REPLAY;
    RunFive(s, REPLAY[..5]);
    assert REPLAY[5..] == [Drop];
  }

  lemma BytesBoth()
    ensures Bytes(BOTH[..2]) == 2
  {
    assert BOTH[..2] == [BOTH[0]] + [BOTH[1]];
    BytesNext(BOTH[..2], 0);
    BytesNext(BOTH[..2], 1);
    assert BOTH[..2][..2] == BOTH[..2];
  }

  lemma ExampleStop()
    ensures var s := System(ExampleA([], 0, false, false), ExampleB(false, 2, false, false), [], [], false, false);
            var r := Run(s, RECONNECTING + [B(Deliver)]);
            r.stopped && r.a.sent == [FIRST, SECOND] == r.b.delivered
  {
    var s := System(ExampleA([], 0, false, false), ExampleB(false, 2, false, false), [], [], false, false);
    ExampleReconnect([], 0, false, 2, false);
    var s4 := Run(s, RECONNECTING);
    assert s4.ab == [SequenceOf(3)];
    RunConcat(s, RECONNECTING, [B(Deliver)]);
    RunOne(s4, [B(Deliver)]);
    assert [B(Deliver)][1..] == [];
  }

  /** A run of two correct ends in which the connection is given up although both messages were received: the
      second loss comes in the middle of the replay, after the acknowledgement of what is being replayed. */
  lemma NeedlessStop()
    ensures var s := Run(Init(1000, 1000), ARRIVE + (RECONNECTING + (REPLAY + (RECONNECTING + [B(Deliver)]))));
            s.stopped && s.a.sent == [FIRST, SECOND] == s.b.delivered
  {
    var last := RECONNECTING + [B(Deliver)];
    var s1 := System(ExampleA(BOTH, 2, false, false), ExampleB(false, 3, false, true), [], [], false, false);
    ExampleArrive();
    ExampleReconnect(BOTH, 2, false, 3, true);
    assert ResendFrames(s1.a.e) == [SequenceOf(1), FIRST, SECOND];
    ExampleReplay();
    ExampleStop();
    hide Run, Next, ResendFrames, Init, ExampleA, ExampleB;
    RunConcat(Init(1000, 1000), ARRIVE, RECONNECTING + (REPLAY + last));
    RunConcat(s1, RECONNECTING, REPLAY + last);
    RunConcat(Run(s1, RECONNECTING), REPLAY, last);
  }
}
