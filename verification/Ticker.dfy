/** The ticker keeps only the newest trade: the consume loop writes every trade into a small channel that drops
    the oldest when full, and the publisher drains it and publishes the last trade it saw. */
module Ticker {
  import opened Models
  import opened Options
  import opened Sums

  const CAPACITY: nat := 10_000

  /** A trade the publisher holds, and which of the trades written it is. */
  datatype Pick = Pick(at: nat, trade: Trade)

  /** `written` and `picks` are histories: the trades written, and those selected for publishing. */
  datatype State = State(written: seq<Trade>, channel: seq<Trade>, draining: bool, latest: Option<Pick>,
                         picks: seq<Pick>)

  datatype Event = Write(trade: Trade) | StartDrain | Read | EndDrain

  function Init(): State {
    State([], [], false, None, [])
  }

  function Pushed(channel: seq<Trade>, trade: Trade): seq<Trade> {
    (if |channel| < CAPACITY then channel else channel[1..]) + [trade]
  }

  /** A drain begins when the channel has something and ends at the first read that finds nothing. */
  function Next(s: State, ev: Event): State {
    match ev
    case Write(trade) => s.(written := s.written + [trade], channel := Pushed(s.channel, trade))
    case StartDrain => if !s.draining && s.channel != [] then s.(draining := true, latest := None) else s
    case Read =>
      if s.draining && s.channel != [] && |s.channel| <= |s.written|
        then s.(latest := Some(Pick(|s.written| - |s.channel|, s.channel[0])), channel := s.channel[1..])
      else s
    case EndDrain =>
      if s.draining && s.channel == []
        then s.(draining := false, picks := if s.latest.Some? then s.picks + [s.latest.value] else s.picks)
      else s
  }

  function Run(s: State, evs: seq<Event>): State
    decreases evs
  {
    if evs == [] then s else Run(Next(s, evs[0]), evs[1..])
  }

  lemma {:induction false} RunSnoc(s: State, evs: seq<Event>, ev: Event)
    ensures Run(s, evs + [ev]) == Next(Run(s, evs), ev)
    decreases evs
  {
    if evs == [] {
      assert evs + [ev] == [ev] && [ev][1..] == [];
    } else {
      assert (evs + [ev])[1..] == evs[1..] + [ev];
      RunSnoc(Next(s, evs[0]), evs[1..], ev);
    }
  }

  /** The pick is the trade that was written at that place. */
  predicate Genuine(written: seq<Trade>, pick: Pick) {
    pick.at < |written| && written[pick.at] == pick.trade
  }

  predicate Advancing(written: seq<Trade>, picks: seq<Pick>) {
    && (forall i :: 0 <= i < |picks| ==> Genuine(written, picks[i]))
    && (forall i, j :: 0 <= i < j < |picks| ==> picks[i].at < picks[j].at)
  }

  /** All picks were made before place `at`. */
  predicate Before(picks: seq<Pick>, at: nat) {
    picks != [] ==> picks[|picks| - 1].at < at
  }

  predicate Inv(s: State) {
    && |s.channel| <= |s.written| && |s.channel| <= CAPACITY
    && s.channel == s.written[|s.written| - |s.channel|..]
    && Advancing(s.written, s.picks) && Before(s.picks, |s.written| - |s.channel|)
    && (s.draining && s.latest.None? ==> s.channel != [])
    && (s.draining && s.latest.Some? ==>
          && Genuine(s.written, s.latest.value) && Before(s.picks, s.latest.value.at)
          && s.latest.value.at < |s.written| - |s.channel|
          && (s.channel == [] ==> s.latest.value.at == |s.written| - 1))
    && (!s.draining && s.channel == [] && s.written != [] ==>
          s.picks != [] && s.picks[|s.picks| - 1].at == |s.written| - 1)
  }

  /** What is left in the channel is the end of what was written, as much of it as the channel holds. */
  lemma PushedIsTheEnd(written: seq<Trade>, channel: seq<Trade>, trade: Trade)
    requires |channel| <= |written| && |channel| <= CAPACITY && channel == written[|written| - |channel|..]
    ensures var c, w := Pushed(channel, trade), written + [trade];
            && |c| <= |w| && c == w[|w| - |c|..]
            && |c| == (if |channel| < CAPACITY then |channel| + 1 else CAPACITY)
            && |w| - |c| >= |written| - |channel|
  {
    var from := |written| - |channel|;
    if |channel| < CAPACITY {
      assert (written + [trade])[from..] == written[from..] + [trade];
    } else {
      assert (written + [trade])[from + 1..] == written[from..][1..] + [trade];
    }
  }

  lemma AdvancingStays(written: seq<Trade>, picks: seq<Pick>, trade: Trade)
    requires Advancing(written, picks)
    ensures Advancing(written + [trade], picks)
  {
    forall i | 0 <= i < |picks|
      ensures Genuine(written + [trade], picks[i])
    {
      assert Genuine(written, picks[i]);
    }
  }

  lemma WriteKeeps(s: State, trade: Trade)
    requires Inv(s)
    ensures Inv(Next(s, Write(trade)))
  {
    hide Pushed, Advancing;
    PushedIsTheEnd(s.written, s.channel, trade);
    AdvancingStays(s.written, s.picks, trade);
  }

  lemma ReadKeeps(s: State)
    requires Inv(s)
    ensures Inv(Next(s, Read))
  {
    var t := Next(s, Read);
    if t != s {
      assert s.channel[0] == s.written[|s.written| - |s.channel|];
      assert t.channel == t.written[|t.written| - |t.channel|..];
    }
  }

  lemma PickJoins(written: seq<Trade>, picks: seq<Pick>, pick: Pick)
    requires Advancing(written, picks) && Genuine(written, pick) && Before(picks, pick.at)
    ensures Advancing(written, picks + [pick])
  {
    forall i, j | 0 <= i < j < |picks + [pick]|
      ensures (picks + [pick])[i].at < (picks + [pick])[j].at
    {
      if j == |picks| {
        assert i == |picks| - 1 || picks[i].at < picks[|picks| - 1].at;
      }
    }
  }

  lemma EndDrainKeeps(s: State)
    requires Inv(s)
    ensures Inv(Next(s, EndDrain))
  {
    if s.draining && s.channel == [] {
      PickJoins(s.written, s.picks, s.latest.value);
      hide Advancing;
    }
  }

  lemma NextKeeps(s: State, ev: Event)
    requires Inv(s)
    ensures Inv(Next(s, ev))
  {
    hide Advancing, Genuine, Before;
    match ev
    case Write(trade) => WriteKeeps(s, trade);
    case Read => ReadKeeps(s);
    case StartDrain =>
    case EndDrain => EndDrainKeeps(s);
  }

  lemma {:induction false} RunKeeps(s: State, evs: seq<Event>)
    requires Inv(s)
    ensures Inv(Run(s, evs))
    decreases evs
  {
    if evs != [] {
      NextKeeps(s, evs[0]);
      RunKeeps(Next(s, evs[0]), evs[1..]);
    }
  }

  /** Whatever is dropped, and however writes fall into a drain: when a drain ends the trade it holds is the last one
      ever written, and the trades published are trades that were written, each later than the one before. */
  lemma DrainEndsAtTheNewest(evs: seq<Event>)
    ensures var s := Run(Init(), evs);
            && Advancing(s.written, s.picks)
            && (s.draining && s.channel == [] ==>
                  s.written != [] && s.latest == Some(Pick(|s.written| - 1, s.written[|s.written| - 1])))
  {
    RunKeeps(Init(), evs);
  }

  /** Between drains, the last trade published is the last one written exactly when the channel is empty. */
  lemma QuietExactly(evs: seq<Event>)
    ensures var s := Run(Init(), evs);
            !s.draining && s.written != [] ==>
              (s.channel == [] <==> s.picks != [] && s.picks[|s.picks| - 1].at == |s.written| - 1)
  {
    RunKeeps(Init(), evs);
    hide Run, Inv;
    var s := Run(Init(), evs);
    if !s.draining && s.written != [] {
      Quiet(s);
    }
  }

  lemma Quiet(s: State)
    requires Inv(s) && !s.draining && s.written != []
    ensures s.channel == [] <==> s.picks != [] && s.picks[|s.picks| - 1].at == |s.written| - 1
  {
    hide Advancing;
  }

  function DrainEvents(n: nat): seq<Event> {
    [StartDrain] + Reads(n) + [EndDrain]
  }

  function Reads(n: nat): seq<Event> {
    if n == 0 then [] else Reads(n - 1) + [Read]
  }

  class TickerPublisher {
    var channel: seq<Trade>
    ghost var written: seq<Trade>
    ghost var draining: bool
    ghost var latest: Option<Pick>
    ghost var picks: seq<Pick>

    ghost function Contents(): State
      reads this
    {
      State(written, channel, draining, latest, picks)
    }

    constructor ()
      ensures Contents() == Init()
    {
      channel, written, draining, latest, picks := [], [], false, None, [];
    }

    /** Never waits: a full channel gives up its oldest trade. */
    method TryWrite(trade: Trade)
      modifies this
      ensures Contents() == Next(old(Contents()), Write(trade))
    {
      if |channel| >= CAPACITY {
        channel := channel[1..];
      }
      channel := channel + [trade];
      written := written + [trade];
    }

    method TryRead() returns (trade: Trade)
      requires Inv(Contents()) && draining && channel != []
      modifies this
      ensures Inv(Contents()) && Contents() == Next(old(Contents()), Read)
      ensures channel == old(channel)[1..] && latest.Some? && latest.value.trade == trade
      ensures written == old(written) && picks == old(picks) && draining
    {
      ReadKeeps(Contents());
      hide Inv;
      trade := channel[0];
      latest := Some(Pick(|written| - |channel|, channel[0]));
      channel := channel[1..];
    }

    /** Read until nothing is left; the trade to publish is the last one written. */
    method Drain() returns (latestTrade: Option<Trade>)
      requires Inv(Contents()) && !draining && channel != []
      modifies this
      ensures Inv(Contents()) && Contents() == Run(old(Contents()), DrainEvents(old(|channel|)))
      ensures channel == [] && written == old(written) != [] && !draining
      ensures latestTrade == Some(written[|written| - 1])
      ensures |picks| == old(|picks|) + 1
    {
      hide Run, Advancing, Genuine, Before;
      ghost var s0, n := Contents(), |channel|;
      latestTrade := None;
      RunKeeps(s0, [StartDrain]);
      StartDraining(s0);
      draining, latest := true, None;
      ghost var done := 0;
      while channel != []
        invariant done + |channel| == n && draining && written == s0.written && picks == s0.picks
        invariant Inv(Contents()) && Contents() == Run(s0, [StartDrain] + Reads(done))
        invariant latestTrade == if latest.Some? then Some(latest.value.trade) else None
        invariant done > 0 ==> latest.Some?
        decreases |channel|
      {
        NextRead(s0, done);
        var trade := TryRead();
        latestTrade := Some(trade);
        done := done + 1;
      }
      EndDrainKeeps(Contents());
      RunSnoc(s0, [StartDrain] + Reads(n), EndDrain);
      NewestHeld(Contents());
      draining, picks := false, picks + [latest.value];
    }
  }

  lemma StartDraining(s: State)
    ensures Run(s, [StartDrain] + Reads(0)) == Next(s, StartDrain)
  {
    assert [StartDrain] + Reads(0) == [StartDrain] && [StartDrain][1..] == [];
  }

  lemma NextRead(s: State, n: nat)
    ensures Run(s, [StartDrain] + Reads(n + 1)) == Next(Run(s, [StartDrain] + Reads(n)), Read)
  {
    ConcatAssoc([StartDrain], Reads(n), [Read]);
    RunSnoc(s, [StartDrain] + Reads(n), Read);
  }

  lemma NewestHeld(s: State)
    requires Inv(s) && s.draining && s.channel == []
    ensures s.written != [] && s.latest == Some(Pick(|s.written| - 1, s.written[|s.written| - 1]))
  {
  }
}
