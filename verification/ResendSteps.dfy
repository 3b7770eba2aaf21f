/** The resend as the loop it is, with sends and acknowledgements coming in between its awaits, and exactly when it
    still does what it does in one step. A send during the loop pushes onto the array that the loop goes over; an
    acknowledgement that drops something gives the buffer a new array, and the loop goes on over the old one, so that
    what is sent after that is in the buffer and not in the loop. */
module ResendSteps {
  import opened MessageBuffers
  import opened Reconnect
  import opened ReconnectProtocol

  /** Before the buffer's array is captured, in the loop over it, and after the loop. */
  datatype Stage = Announced | Sending | Done

  /** `captured` are the messages in the array the loop goes over, and `shared` says that it is still the array of
      the buffer: a send pushes onto that array, an acknowledgement that drops something makes a new one.
      `frames` is what was sent after the announcement of the id `announced`. */
  datatype Replay = Replay(p: Peer, announced: int, stage: Stage, captured: seq<Message>, shared: bool, index: nat,
                           frames: seq<Message>)

  datatype Step = Capture | SendNext | Finish | Buffer(m: Message) | TakeAck(id: int)

  function Begin(p: Peer): Replay {
    Replay(p, FirstBuffered(p.e), Announced, [], false, 0, [])
  }

  function Pushed(p: Peer, m: Message): Peer {
    Peer(Buffered(p.e, m), if IsInvocationMessage(m) then p.sent + [m] else p.sent, p.delivered)
  }

  function Do(r: Replay, step: Step): Replay {
    if r.stage == Done then r
    else
      match step
      case Capture =>
        if r.stage == Announced then r.(stage := Sending, captured := Texts(r.p.e.messages), shared := true) else r
      case SendNext =>
        if r.stage == Sending && r.index < |r.captured|
          then r.(frames := r.frames + [r.captured[r.index]], index := r.index + 1)
        else r
      case Finish =>
        if r.stage == Sending && r.index >= |r.captured|
          then r.(stage := Done, p := r.p.(e := r.p.e.(reconnectInProgress := false)))
        else r
      case Buffer(m) =>
        r.(p := Pushed(r.p, m),
           captured := if r.shared && IsInvocationMessage(m) then r.captured + [m] else r.captured)
      case TakeAck(id) =>
        r.(p := r.p.(e := Acked(r.p.e, id)), shared := r.shared && Covered(r.p.e.messages, id) == 0)
  }

  function Replayed(r: Replay, steps: seq<Step>): Replay
    decreases steps
  {
    if steps == [] then r else Replayed(Do(r, steps[0]), steps[1..])
  }

  /** The step drives a wedge between what was announced and what will be sent: an acknowledgement drops messages
      before the array is captured, or a message is buffered that is not in the captured array. */
  predicate Skips(r: Replay, step: Step) {
    || (r.stage == Announced && step.TakeAck? && Covered(r.p.e.messages, step.id) > 0)
    || (r.stage == Sending && !r.shared && step.Buffer? && IsInvocationMessage(step.m))
  }

  predicate NeverSkips(r: Replay, steps: seq<Step>)
    decreases steps
  {
    steps != [] ==> !Skips(r, steps[0]) && NeverSkips(Do(r, steps[0]), steps[1..])
  }

  // ---------- The loop ----------

  /** What is still to be sent, or was: everything from the announced id on, unless a step skipped something. */
  predicate InStep(r: Replay, skipped: bool) {
    && Holds(r.p) && 1 <= r.announced <= |r.p.sent| + 1 && r.announced <= FirstBuffered(r.p.e)
    && (forall k :: 0 <= k < |r.captured| ==> IsInvocationMessage(r.captured[k]))
    && r.index <= |r.captured| && r.frames == r.captured[..r.index]
    && (r.stage == Announced ==> r.index == 0 && !r.shared && (skipped <==> r.announced < FirstBuffered(r.p.e)))
    && (r.stage != Announced ==> if skipped then |r.captured| < |r.p.sent| - r.announced + 1
                                 else r.captured == r.p.sent[r.announced - 1..])
    && (r.stage == Done ==> r.index == |r.captured|)
  }

  lemma BeginInStep(p: Peer)
    requires Holds(p)
    ensures InStep(Begin(p), false)
  {
  }

  /** The buffer holds the messages from its first id on. */
  lemma BufferIs(p: Peer)
    requires Holds(p)
    ensures 1 <= FirstBuffered(p.e) <= |p.sent| + 1 && Texts(p.e.messages) == p.sent[FirstBuffered(p.e) - 1..]
    ensures forall k :: 0 <= k < |p.sent| ==> IsInvocationMessage(p.sent[k])
  {
    hide Bytes;
    var first := p.e.totalMessageCount - |p.e.messages| + 1;
    assert first == FirstBuffered(p.e);
    forall k | 0 <= k < |p.e.messages| ensures Texts(p.e.messages)[k] == p.sent[first - 1..][k] {
      assert p.e.messages[k].id == first + k;
    }
  }

  lemma HoldsAccounted(p: Peer)
    requires Holds(p)
    ensures Accounted(p.e)
  {
  }

  lemma CaptureInStep(r: Replay, skipped: bool)
    requires InStep(r, skipped)
    ensures InStep(Do(r, Capture), skipped)
  {
    BufferIs(r.p);
    hide Holds, FirstBuffered, Texts;
  }

  lemma FinishInStep(r: Replay, skipped: bool)
    requires InStep(r, skipped)
    ensures InStep(Do(r, Finish), skipped)
  {
    HoldsResent(r.p);
    assert FirstBuffered(r.p.e.(reconnectInProgress := false)) == FirstBuffered(r.p.e);
    hide Holds, FirstBuffered;
  }

  lemma BufferInStep(r: Replay, skipped: bool, m: Message)
    requires InStep(r, skipped)
    ensures InStep(Do(r, Buffer(m)), skipped || Skips(r, Buffer(m)))
  {
    hide Holds, FirstBuffered, Buffered, Accounted;
    BufferedHolds(r.p, m);
    assert Accounted(r.p.e) by {
      HoldsAccounted(r.p);
    }
    BufferedAccounted(r.p.e, m);
    if IsInvocationMessage(m) {
      assert (r.p.sent + [m])[r.announced - 1..] == r.p.sent[r.announced - 1..] + [m];
    }
  }

  lemma AckInStep(r: Replay, skipped: bool, id: int)
    requires InStep(r, skipped)
    ensures InStep(Do(r, TakeAck(id)), skipped || Skips(r, TakeAck(id)))
  {
    AckHolds(r.p, id);
    AckedAccounted(r.p.e, id);
    FirstMoves(r.p.e, id);
    hide Holds, FirstBuffered, Acked, Covered, Accounted;
  }

  lemma FirstMoves(e: Endpoint, id: int)
    requires Accounted(e)
    ensures FirstBuffered(Acked(e, id)) >= FirstBuffered(e)
    ensures Covered(e.messages, id) > 0 <==> FirstBuffered(Acked(e, id)) > FirstBuffered(e)
  {
    AckedItems(e, id);
    AckedAccounted(e, id);
    hide Acked, Covered, Bytes;
  }

  lemma DoInStep(r: Replay, skipped: bool, step: Step)
    requires InStep(r, skipped)
    ensures InStep(Do(r, step), skipped || Skips(r, step))
  {
    hide InStep;
    match step
    case Capture => CaptureInStep(r, skipped);
    case SendNext => SendInStep(r, skipped);
    case Finish => FinishInStep(r, skipped);
    case Buffer(m) => BufferInStep(r, skipped, m);
    case TakeAck(id) => AckInStep(r, skipped, id);
  }

  lemma SendInStep(r: Replay, skipped: bool)
    requires InStep(r, skipped)
    ensures InStep(Do(r, SendNext), skipped)
  {
    hide Holds, FirstBuffered;
  }

  lemma {:induction false} ReplayedInStep(r: Replay, skipped: bool, steps: seq<Step>)
    requires InStep(r, skipped)
    ensures InStep(Replayed(r, steps), skipped || !NeverSkips(r, steps))
    decreases steps
  {
    hide InStep, Do, Skips;
    if steps != [] {
      DoInStep(r, skipped, steps[0]);
      ReplayedInStep(Do(r, steps[0]), skipped || Skips(r, steps[0]), steps[1..]);
    }
  }

  /** For every interleaving: what a finished resend has put on the connection brings the receiver, wherever it stood,
      to the id after the last message sent, each message under its own id, if and only if no step skipped. */
  lemma ResendExactly(p: Peer, steps: seq<Step>, at: Position)
    requires Holds(p) && Replayed(Begin(p), steps).stage == Done
    ensures var r := Replayed(Begin(p), steps);
            var frames := [SequenceOf(FirstBuffered(p.e))] + r.frames;
            AllFit(at, frames, r.p.sent) && End(at, frames) == At(|r.p.sent| + 1) <==> NeverSkips(Begin(p), steps)
  {
    hide Replayed, NeverSkips, FirstBuffered, Accounted;
    BeginInStep(p);
    ReplayedInStep(Begin(p), false, steps);
    var r := Replayed(Begin(p), steps);
    SameAnnounced(Begin(p), steps);
    var id := r.announced;
    var frames := [SequenceOf(id)] + r.frames;
    assert frames[0] == SequenceOf(id) && frames[1..] == r.frames;
    assert AllFit(at, frames, r.p.sent) == AllFit(At(id), r.frames, r.p.sent);
    assert End(at, frames) == End(At(id), r.frames);
    assert r.frames == r.captured;
    if r.captured == r.p.sent[id - 1..] {
      BufferFits(r.frames, r.p.sent, id);
    } else {
      CountsUp(id, r.frames);
    }
  }

  lemma {:induction false} CountsUp(id: int, frames: seq<Message>)
    requires forall k :: 0 <= k < |frames| ==> IsInvocationMessage(frames[k])
    ensures End(At(id), frames) == At(id + |frames|)
    decreases frames
  {
    if frames != [] {
      assert forall k :: 0 <= k < |frames[1..]| ==> frames[1..][k] == frames[k + 1];
      CountsUp(id + 1, frames[1..]);
    }
  }

  lemma {:induction false} SameAnnounced(r: Replay, steps: seq<Step>)
    ensures Replayed(r, steps).announced == r.announced
    decreases steps
  {
    if steps != [] {
      hide Acked, Covered, Buffered;
      SameAnnounced(Do(r, steps[0]), steps[1..]);
    }
  }

  // ---------- When nothing is skipped, and when something is ----------

  /** Sends alone skip nothing: as long as no acknowledgement comes in between, the loop does what one step would. */
  lemma {:induction false} SendsNeverSkip(r: Replay, steps: seq<Step>)
    requires r.stage == Sending ==> r.shared
    requires forall k :: 0 <= k < |steps| ==> !steps[k].TakeAck?
    ensures NeverSkips(r, steps)
    decreases steps
  {
    if steps != [] {
      assert !steps[0].TakeAck?;
      hide Buffered, Texts, FirstBuffered;
      SendsNeverSkip(Do(r, steps[0]), steps[1..]);
    }
  }

  const THIRD := Message(Invocation, 0, "c")
  const FOURTH := Message(Invocation, 0, "d")

  /** The acknowledgement of both messages comes after the first is sent again; then a third message is sent. */
  const INTERRUPTED := [Capture, SendNext, TakeAck(2), Buffer(THIRD), SendNext, Finish]

  /** The fourth message is sent; the receiver takes everything and acknowledges it. */
  const AFTERWARDS := [A(Send(FOURTH, false)), B(Deliver), B(Deliver), B(Deliver), B(Deliver)]

  function Resender(items: seq<BufferedItem>, total: nat, bytes: nat, reconnecting: bool, sent: seq<Message>): Peer {
    Peer(Endpoint(1000, items, total, false, 1, 0, bytes, reconnecting, false), sent, [])
  }

  function Taker(wait: bool, next: nat, latest: nat, timer: bool, delivered: seq<Message>): Peer {
    Peer(Endpoint(1000, [], 0, wait, next, latest, 0, false, timer), [], delivered)
  }

  lemma DoOne(r: Replay, steps: seq<Step>)
    requires steps != []
    ensures Replayed(r, steps) == Replayed(Do(r, steps[0]), steps[1..])
  {
  }

  lemma DoThree(r: Replay, steps: seq<Step>)
    requires |steps| >= 3
    ensures Replayed(r, steps) == Replayed(Do(Do(Do(r, steps[0]), steps[1]), steps[2]), steps[3..])
  {
    hide Do, Replayed;
    DoOne(r, steps);
    DoOne(Do(r, steps[0]), steps[1..]);
    DoOne(Do(Do(r, steps[0]), steps[1]), steps[1..][1..]);
    assert steps[1..][1..][1..] == steps[3..];
  }

  lemma InterruptedReplay()
    ensures var r := Replayed(Begin(Resender(BOTH, 2, 2, true, [FIRST, SECOND])), INTERRUPTED);
            r.stage == Done && r.frames == [FIRST, SECOND]
            && r.p == Resender([BufferedItem(THIRD, 3, NoWaiter)], 3, 1, false, [FIRST, SECOND, THIRD])
  {
    var p := Resender(BOTH, 2, 2, true, [FIRST, SECOND]);
    var r2 := Do(Do(Begin(p), Capture), SendNext);
    assert r2 == Replay(p, 1, Sending, [FIRST, SECOND], true, 1, [FIRST]) by {
      assert Texts(BOTH) == [FIRST, SECOND];
    }
    var r3 := Do(r2, TakeAck(2));
    assert r3 == Replay(Resender([], 2, 0, true, [FIRST, SECOND]), 1, Sending, [FIRST, SECOND], false, 1, [FIRST]) by {
      assert Covered(BOTH, 2) == 2;
      BytesBoth();
    }
    var r4 := Do(r3, Buffer(THIRD));
    assert r4.p == Resender([BufferedItem(THIRD, 3, NoWaiter)], 3, 1, true, [FIRST, SECOND, THIRD]);
    var r6 := Do(Do(r4, SendNext), Finish);
    assert r6.frames == [FIRST, SECOND];
    DoThree(Begin(p), INTERRUPTED);
    DoThree(r3, INTERRUPTED[3..]);
    assert INTERRUPTED[3..][3..] == [];
  }

  lemma SkippedDelivery()
    ensures var items := [BufferedItem(THIRD, 3, NoWaiter)];
            var s := System(Resender(items, 3, 1, false, [FIRST, SECOND, THIRD]),
                            Taker(true, 3, 2, false, [FIRST, SECOND]),
                            [SequenceOf(1), FIRST, SECOND], [], true, false);
            var items' := items + [BufferedItem(FOURTH, 4, NoWaiter)];
            Run(s, AFTERWARDS) ==
            System(Resender(items', 4, 2, false, [FIRST, SECOND, THIRD, FOURTH]),
                   Taker(false, 4, 3, true, [FIRST, SECOND, FOURTH]), [], [], true, false)
  {
    var items := [BufferedItem(THIRD, 3, NoWaiter)];
    var s := System(Resender(items, 3, 1, false, [FIRST, SECOND, THIRD]), Taker(true, 3, 2, false, [FIRST, SECOND]),
                    [SequenceOf(1), FIRST, SECOND], [], true, false);
    var a := Resender(items + [BufferedItem(FOURTH, 4, NoWaiter)], 4, 2, false, [FIRST, SECOND, THIRD, FOURTH]);
    var s1 := Next(s, AFTERWARDS[0]);
    assert s1 == System(a, s.b, [SequenceOf(1), FIRST, SECOND, FOURTH], [], true, false);
    var s2 := Next(s1, AFTERWARDS[1]);
    assert s2 == System(a, Taker(false, 1, 2, false, [FIRST, SECOND]), [FIRST, SECOND, FOURTH], [], true, false);
    var s3 := Next(s2, AFTERWARDS[2]);
    assert s3 == System(a, Taker(false, 2, 2, false, [FIRST, SECOND]), [SECOND, FOURTH], [], true, false);
    var s4 := Next(s3, AFTERWARDS[3]);
    assert s4 == System(a, Taker(false, 3, 2, true, [FIRST, SECOND]), [FOURTH], [], true, false);
    RunFive(s, AFTERWARDS);
  }

  lemma SkippedForgotten()
    ensures var items := [BufferedItem(THIRD, 3, NoWaiter), BufferedItem(FOURTH, 4, NoWaiter)];
            var a := Resender(items, 4, 2, false, [FIRST, SECOND, THIRD, FOURTH]);
            var s := System(a, Taker(false, 4, 3, true, [FIRST, SECOND, FOURTH]), [], [], true, false);
            Run(s, [B(AckTimerFires), A(Deliver)]) ==
            System(Resender([items[1]], 4, 1, false, a.sent), Taker(false, 4, 3, false, [FIRST, SECOND, FOURTH]),
                   [], [], true, false)
  {
    var items := [BufferedItem(THIRD, 3, NoWaiter), BufferedItem(FOURTH, 4, NoWaiter)];
    var a := Resender(items, 4, 2, false, [FIRST, SECOND, THIRD, FOURTH]);
    var s := System(a, Taker(false, 4, 3, true, [FIRST, SECOND, FOURTH]), [], [], true, false);
    var evs := [B(AckTimerFires), A(Deliver)];
    var s1 := Next(s, evs[0]);
    assert s1.a == a && s1.ba == [AckOf(3)];
    assert Covered(items, 3) == 1 && Covered(items[1..], 3) == 0;
    assert items[..1] == [items[0]];
    BytesNext(items, 0);
    RunOne(s, evs);
    RunOne(s1, evs[1..]);
    assert evs[1..][1..] == [];
  }

  /** What a skip does: after an interrupted resend of two messages, the receiver takes the fourth message for the
      third, and the third is dropped from the buffer without ever having been sent. */
  lemma SkipExample()
    ensures var r := Replayed(Begin(Resender(BOTH, 2, 2, true, [FIRST, SECOND])), INTERRUPTED);
            var s := System(r.p, Taker(true, 3, 2, false, [FIRST, SECOND]), [SequenceOf(r.announced)] + r.frames, [],
                            true, false);
            var t := Run(s, AFTERWARDS + [B(AckTimerFires), A(Deliver)]);
            && t.a.sent == [FIRST, SECOND, THIRD, FOURTH] && t.b.delivered == [FIRST, SECOND, FOURTH]
            && t.a.e.messages == [BufferedItem(FOURTH, 4, NoWaiter)] && t.ab == t.ba == []
  {
    var p := Resender(BOTH, 2, 2, true, [FIRST, SECOND]);
    var r := Replayed(Begin(p), INTERRUPTED);
    assert r.announced == 1 by {
      SameAnnounced(Begin(p), INTERRUPTED);
    }
    hide Replayed, Begin, Run;
    InterruptedReplay();
    assert [SequenceOf(1)] + r.frames == [SequenceOf(1), FIRST, SECOND];
    SkippedDelivery();
    var items := [BufferedItem(THIRD, 3, NoWaiter)] + [BufferedItem(FOURTH, 4, NoWaiter)];
    assert items == [BufferedItem(THIRD, 3, NoWaiter), BufferedItem(FOURTH, 4, NoWaiter)];
    SkippedForgotten();
    var s := System(r.p, Taker(true, 3, 2, false, [FIRST, SECOND]), [SequenceOf(1)] + r.frames, [], true, false);
    RunConcat(s, AFTERWARDS, [B(AckTimerFires), A(Deliver)]);
  }
}
