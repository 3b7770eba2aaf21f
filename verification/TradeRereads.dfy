/** Which trades are read again. A consumer that gets a partition back goes on at the committed offset: it takes again
    exactly the trades from there on that it comes by. Over a whole run, a trade is taken twice exactly when one is
    passed on that lies before the end of what was passed on of its partition. */
module TradeRereads {
  import opened Options
  import opened Sums
  import opened TradePipeline
  import opened TradeBatches
  import opened TradeExactness

  // ---------- The end of what was passed on ----------

  /** `marks` is, for each partition, the end of what was passed on so far. */
  function Raised(marks: seq<nat>, s: System, ev: Event): seq<nat> {
    if Passes(s, ev) && s.hand.value.partition < |marks| && s.hand.value.offset >= marks[s.hand.value.partition]
    then marks[s.hand.value.partition := s.hand.value.offset + 1]
    else marks
  }

  predicate Passes(s: System, ev: Event) {
    ev.Deliver? && s.hand.Some? && |s.channel| < TRADE_CHANNEL_CAPACITY
  }

  /** The trade passed on lies before the end of what was passed on of its partition. */
  predicate GoesBack(marks: seq<nat>, s: System, ev: Event) {
    Passes(s, ev) && s.hand.value.partition < |marks| && s.hand.value.offset < marks[s.hand.value.partition]
  }

  predicate EverGoesBack(marks: seq<nat>, s: System, evs: seq<Event>)
    decreases evs
  {
    evs != [] && (GoesBack(marks, s, evs[0]) || EverGoesBack(Raised(marks, s, evs[0]), Next(s, evs[0]), evs[1..]))
  }

  // ---------- What was passed on of a partition has no holes ----------

  /** Offsets are stored only for what was passed on. */
  predicate BoundedAt(s: System, from: seq<nat>, marks: seq<nat>, p: nat) {
    && p < |from| && p < |marks| && p < |s.log| && p < |s.positions| && p < |s.committed| && p < |s.stored|
    && from[p] <= marks[p] <= |s.log[p]| && from[p] <= s.positions[p] <= |s.log[p]|
    && from[p] <= s.committed[p] <= marks[p] && from[p] <= s.stored[p] <= marks[p]
  }

  predicate InRange(log: seq<seq<Record>>, x: Item, from: seq<nat>) {
    FromLog(log, x) && x.partition < |from| && from[x.partition] <= x.offset
  }

  /** The item lies before the mark of its partition. */
  predicate Below(x: Item, marks: seq<nat>) {
    x.partition < |marks| && x.offset < marks[x.partition]
  }

  ghost predicate TakenBelow(s: System, from: seq<nat>, marks: seq<nat>) {
    && (forall x :: x in s.history.taken ==> InRange(s.log, x, from) && Below(x, marks))
    && (forall x :: x in s.acks + s.batch + s.channel ==> x in s.history.taken)
    && (s.hand.Some? ==> InRange(s.log, s.hand.value, from))
  }

  /** Below its mark every trade of a partition was passed on. */
  ghost predicate NoHoles(s: System, from: seq<nat>, marks: seq<nat>) {
    forall x :: InRange(s.log, x, from) && Below(x, marks) ==> x in s.history.taken
  }

  /** What was read of a partition, ahead of its mark or not. */
  function ReadUpTo(s: System, p: nat): nat {
    if s.hand.Some? && s.hand.value.partition == p && (p >= |s.positions| || s.hand.value.offset >= s.positions[p])
    then s.hand.value.offset + 1
    else if p < |s.positions| then s.positions[p]
    else 0
  }

  /** From the mark on the only trade that was read is the one in hand. */
  ghost predicate OnlyHandAhead(s: System, marks: seq<nat>) {
    forall x :: FromLog(s.log, x) && !Below(x, marks) && x.offset < ReadUpTo(s, x.partition) ==> s.hand == Some(x)
  }

  ghost predicate Marked(s: System, from: seq<nat>, marks: seq<nat>) {
    && |from| == |marks| == |s.log| == |s.positions| == |s.committed| == |s.stored|
    && (forall p :: 0 <= p < |marks| ==> BoundedAt(s, from, marks, p))
    && TakenBelow(s, from, marks) && NoHoles(s, from, marks)
    && (s.consuming ==> OnlyHandAhead(s, marks)) && (s.hand.Some? ==> s.consuming)
  }

  lemma ReadIsInLog(s: System, from: seq<nat>, marks: seq<nat>, p: nat)
    requires Marked(s, from, marks) && p < |marks|
    ensures ReadUpTo(s, p) <= |s.log[p]|
  {
    assert BoundedAt(s, from, marks, p);
  }

  lemma ProduceMarked(s: System, q: nat, record: Record, from: seq<nat>, marks: seq<nat>)
    requires Marked(s, from, marks)
    ensures Marked(Next(s, Produce(q, record)), from, marks)
  {
    if q < |s.log| {
      var t := Next(s, Produce(q, record));
      forall p | 0 <= p < |marks| ensures BoundedAt(t, from, marks, p) {
        assert BoundedAt(s, from, marks, p);
      }
      forall x | FromLog(t.log, x) && x.offset < |s.log[x.partition]| ensures FromLog(s.log, x) {
      }
      forall x | InRange(t.log, x, from) && Below(x, marks) ensures x in s.history.taken {
        assert BoundedAt(s, from, marks, x.partition) && InRange(s.log, x, from);
      }
      if s.consuming {
        forall x | FromLog(t.log, x) && !Below(x, marks) && x.offset < ReadUpTo(s, x.partition)
          ensures s.hand == Some(x)
        {
          ReadIsInLog(s, from, marks, x.partition);
          assert FromLog(s.log, x);
        }
      }
      assert forall x :: FromLog(s.log, x) ==> FromLog(t.log, x);
    }
  }

  lemma PollMarked(s: System, q: nat, from: seq<nat>, marks: seq<nat>)
    requires Marked(s, from, marks)
    ensures Marked(Polled(s, q), from, marks)
  {
    var t := Polled(s, q);
    if t != s {
      assert BoundedAt(s, from, marks, q);
      forall p | 0 <= p < |marks| ensures BoundedAt(t, from, marks, p) {
        assert BoundedAt(s, from, marks, p);
      }
    }
  }

  lemma DeliverMarked(s: System, from: seq<nat>, marks: seq<nat>)
    requires Marked(s, from, marks)
    ensures Marked(Delivered(s), from, Raised(marks, s, Deliver))
  {
    var t, raised := Delivered(s), Raised(marks, s, Deliver);
    if t != s {
      forall p | 0 <= p < |marks| ensures BoundedAt(t, from, raised, p) {
        assert BoundedAt(s, from, marks, p);
      }
    }
  }

  lemma StoreMarked(s: System, accepted: bool, from: seq<nat>, marks: seq<nat>)
    requires Marked(s, from, marks)
    ensures Marked(OffsetStored(s, accepted), from, marks)
  {
    var t := OffsetStored(s, accepted);
    if t != s {
      assert s.acks[0] in s.acks + s.batch + s.channel;
      forall p | 0 <= p < |marks| ensures BoundedAt(t, from, marks, p) {
        assert BoundedAt(s, from, marks, p);
      }
    }
  }

  lemma CommitMarked(s: System, q: nat, from: seq<nat>, marks: seq<nat>)
    requires Marked(s, from, marks)
    ensures Marked(Next(s, AutoCommit(q)), from, marks)
  {
    forall p | 0 <= p < |marks| ensures BoundedAt(Next(s, AutoCommit(q)), from, marks, p) {
      assert BoundedAt(s, from, marks, p);
    }
  }

  lemma ReassignMarked(s: System, q: nat, from: seq<nat>, marks: seq<nat>)
    requires Marked(s, from, marks)
    ensures Marked(Next(s, Reassign(q)), from, marks)
  {
    var t := Next(s, Reassign(q));
    forall p | 0 <= p < |marks|
      ensures BoundedAt(t, from, marks, p)
      ensures ReadUpTo(t, p) <= marks[p] || ReadUpTo(t, p) <= ReadUpTo(s, p)
    {
      assert BoundedAt(s, from, marks, p);
    }
    if s.consuming {
      forall x | FromLog(s.log, x) && !Below(x, marks) && x.offset < ReadUpTo(t, x.partition)
        ensures s.hand == Some(x)
      {
        assert x.partition < |marks| && x.offset < ReadUpTo(s, x.partition);
      }
    }
  }

  lemma TakeMarked(s: System, from: seq<nat>, marks: seq<nat>)
    requires Marked(s, from, marks)
    ensures Marked(Taken(s), from, marks)
  {
    var t := Taken(s);
    if t != s {
      assert s.channel == [s.channel[0]] + s.channel[1..];
      assert forall x :: x in t.acks + t.batch + t.channel ==> x in s.acks + s.batch + s.channel;
      forall p | 0 <= p < |marks| ensures BoundedAt(t, from, marks, p) {
        assert BoundedAt(s, from, marks, p);
      }
    }
  }

  lemma AttemptMarked(s: System, outcome: Outcome, from: seq<nat>, marks: seq<nat>)
    requires Marked(s, from, marks)
    ensures Marked(Attempted(s, outcome), from, marks)
  {
    var t := Attempted(s, outcome);
    AttemptOnward(s, outcome);
    forall p | 0 <= p < |marks| ensures BoundedAt(t, from, marks, p) {
      assert BoundedAt(s, from, marks, p);
    }
    hide Attempted, FromLog;
  }

  /** An attempt changes nothing about what was read, and hands on only what was on its way. */
  lemma AttemptOnward(s: System, outcome: Outcome)
    ensures var t := Attempted(s, outcome);
            && t.log == s.log && t.positions == s.positions && t.committed == s.committed && t.stored == s.stored
            && t.hand == s.hand && t.consuming == s.consuming && t.history.taken == s.history.taken
            && forall x :: x in t.acks + t.batch + t.channel ==> x in s.acks + s.batch + s.channel
  {
  }

  lemma OtherMarked(s: System, ev: Event, from: seq<nat>, marks: seq<nat>)
    requires Marked(s, from, marks) && (ev.EndConsuming? || ev.StartWriting? || ev.EndWriting?)
    ensures Marked(Next(s, ev), from, marks)
  {
    forall p | 0 <= p < |marks| ensures BoundedAt(Next(s, ev), from, marks, p) {
      assert BoundedAt(s, from, marks, p);
    }
  }

  lemma NextMarked(s: System, ev: Event, from: seq<nat>, marks: seq<nat>)
    requires Marked(s, from, marks) && !ev.Restart?
    ensures Marked(Next(s, ev), from, Raised(marks, s, ev))
  {
    hide Marked;
    match ev
    case Produce(q, record) => ProduceMarked(s, q, record, from, marks);
    case Poll(q) => PollMarked(s, q, from, marks);
    case Deliver => DeliverMarked(s, from, marks);
    case StoreOffset(accepted) => StoreMarked(s, accepted, from, marks);
    case AutoCommit(q) => CommitMarked(s, q, from, marks);
    case Reassign(q) => ReassignMarked(s, q, from, marks);
    case Take => TakeMarked(s, from, marks);
    case Attempt(outcome) => AttemptMarked(s, outcome, from, marks);
    case _ => OtherMarked(s, ev, from, marks);
  }

  /** A trade is passed on again exactly when it lies before the mark. */
  lemma BackIsAgain(s: System, ev: Event, from: seq<nat>, marks: seq<nat>)
    requires Marked(s, from, marks)
    ensures TakesAgain(s, ev) <==> GoesBack(marks, s, ev)
  {
    if Passes(s, ev) {
      var x := s.hand.value;
      assert BoundedAt(s, from, marks, x.partition);
      assert s.log[x.partition][x.offset].Executed?;
    }
  }

  lemma {:induction false} RunBack(s: System, evs: seq<Event>, from: seq<nat>, marks: seq<nat>)
    requires Marked(s, from, marks) && NoRestart(evs)
    ensures TakesATradeAgain(s, evs) <==> EverGoesBack(marks, s, evs)
    decreases evs
  {
    hide Marked, TakesAgain, GoesBack, Raised, Next;
    if evs != [] {
      BackIsAgain(s, evs[0], from, marks);
      NextMarked(s, evs[0], from, marks);
      RunBack(Next(s, evs[0]), evs[1..], from, Raised(marks, s, evs[0]));
    }
  }

  lemma StartMarked(s: System)
    requires s == Started(s) && |s.committed| == |s.log|
    requires forall p :: 0 <= p < |s.log| ==> s.committed[p] <= |s.log[p]|
    ensures Marked(s, s.committed, s.committed)
  {
    forall p | 0 <= p < |s.log| ensures BoundedAt(s, s.committed, s.committed, p) {
    }
  }

  /** For every run without a restart, at every moment: no trade is in what the run wrote or still has to write twice,
      if and only if no answer was lost and each trade passed on lies beyond all that were passed on of its partition
      before. */
  lemma ExactlyOnceExactly(partitions: nat, before: seq<Event>, evs: seq<Event>)
    requires NoRestart(evs)
    ensures var s0 := Started(Run(Init(partitions), before));
            var s := Run(s0, evs);
            && s.history.start <= |s.table|
            && (NoRepeats(Onward(s)) <==> !LosesAnAnswer(s0, evs) && !EverGoesBack(s0.committed, s0, evs))
  {
    var r := Run(Init(partitions), before);
    InitKeeps(partitions);
    RunKeeps(Init(partitions), before);
    var s0 := Started(r);
    forall p | 0 <= p < |r.log| ensures r.committed[p] <= |r.log[p]| {
      assert Reached(r.log, r.table, p, r.committed[p]);
    }
    StartMarked(s0);
    RunBack(s0, evs, s0.committed, s0.committed);
    StartedCut(r);
    RunCut(s0, evs);
    OneCopyExactly(s0, evs);
    TakenOnceExactly(s0, evs);
    OnwardOnce(Run(s0, evs));
  }

  // ---------- What a partition taken away repeats ----------

  /** Everything taken, and the trade in hand. */
  function ReadSoFar(s: System): seq<Item> {
    s.history.taken + InHand(s)
  }

  /** Beyond `base`, what was read of partition `p` is what it holds from `from` up to the position. A consume loop that
      has ended may have given up the last of it. */
  ghost predicate ReadOn(s: System, base: seq<Item>, p: nat, from: nat) {
    && p < |s.log| && p < |s.positions| && from <= s.positions[p] <= |s.log[p]|
    && (base <= ReadSoFar(s) ==>
          Only(ReadSoFar(s)[|base|..], p) <= Trades(s.log[p], p, from, s.positions[p]))
    && (s.consuming ==>
          base <= ReadSoFar(s) && Only(ReadSoFar(s)[|base|..], p) == Trades(s.log[p], p, from, s.positions[p]))
  }

  lemma PollReadOn(s: System, q: nat, base: seq<Item>, p: nat, from: nat)
    requires ReadOn(s, base, p, from)
    ensures ReadOn(Polled(s, q), base, p, from)
  {
    var t := Polled(s, q);
    if t != s && s.log[q][s.positions[q]].Executed? {
      var x := Item(q, s.positions[q], s.log[q][s.positions[q]].trade);
      assert ReadSoFar(t) == ReadSoFar(s) + [x];
      assert ReadSoFar(t)[|base|..] == ReadSoFar(s)[|base|..] + [x];
      OnlySnoc(ReadSoFar(s)[|base|..], x, p);
    }
  }

  lemma EndReadOn(s: System, base: seq<Item>, p: nat, from: nat)
    requires ReadOn(s, base, p, from)
    ensures ReadOn(Next(s, EndConsuming), base, p, from)
  {
    var t := Next(s, EndConsuming);
    assert ReadSoFar(t) == s.history.taken;
    if base <= s.history.taken && s.hand.Some? {
      assert ReadSoFar(s)[|base|..] == s.history.taken[|base|..] + [s.hand.value];
      OnlySnoc(s.history.taken[|base|..], s.hand.value, p);
    }
  }

  lemma ProduceReadOn(s: System, q: nat, record: Record, base: seq<Item>, p: nat, from: nat)
    requires ReadOn(s, base, p, from)
    ensures ReadOn(Next(s, Produce(q, record)), base, p, from)
  {
    if q == p {
      TradesStay(s.log[p], s.log[p] + [record], p, from, s.positions[p]);
    }
    hide Only, Trades;
  }

  lemma SameReadOn(s: System, t: System, base: seq<Item>, p: nat, from: nat)
    requires ReadOn(s, base, p, from) && t.log == s.log && t.positions == s.positions && t.consuming == s.consuming
    requires ReadSoFar(t) == ReadSoFar(s)
    ensures ReadOn(t, base, p, from)
  {
  }

  lemma NextReadOn(s: System, ev: Event, base: seq<Item>, p: nat, from: nat)
    requires ReadOn(s, base, p, from) && Undisturbed(ev)
    ensures ReadOn(Next(s, ev), base, p, from)
  {
    hide ReadOn, Polled;
    match ev
    case Produce(q, record) => ProduceReadOn(s, q, record, base, p, from);
    case Poll(q) => PollReadOn(s, q, base, p, from);
    case Deliver =>
      assert ReadSoFar(Delivered(s)) == ReadSoFar(s);
      SameReadOn(s, Delivered(s), base, p, from);
    case EndConsuming => EndReadOn(s, base, p, from);
    case _ => SameReadOn(s, Next(s, ev), base, p, from);
  }

  lemma {:induction false} RunReadOn(s: System, evs: seq<Event>, base: seq<Item>, p: nat, from: nat)
    requires ReadOn(s, base, p, from) && AllUndisturbed(evs)
    ensures ReadOn(Run(s, evs), base, p, from)
    decreases evs
  {
    if evs != [] {
      NextReadOn(s, evs[0], base, p, from);
      hide ReadOn, Next, Undisturbed;
      RunReadOn(Next(s, evs[0]), evs[1..], base, p, from);
    }
  }

  lemma {:induction false} RunKeepsTaken(s: System, evs: seq<Event>)
    requires NoRestart(evs)
    ensures s.history.taken <= Run(s, evs).history.taken
    decreases evs
  {
    if evs != [] {
      TakenNext(s, evs[0]);
      RunKeepsTaken(Next(s, evs[0]), evs[1..]);
    }
  }

  /** From any state with a working consumer, as long as no partition is taken away: of what a partition holds, exactly
      what lies between the two positions is read from there on, be it for the first time or again. */
  lemma ReadExactly(m: System, evs: seq<Event>, x: Item)
    requires Inv(m) && m.consuming && FromLog(m.log, x) && AllUndisturbed(evs)
    ensures var s := Run(m, evs);
            && x.partition < |m.positions| == |s.positions|
            && (s.consuming ==>
                  && |ReadSoFar(m)| <= |ReadSoFar(s)|
                  && (x in ReadSoFar(s)[|ReadSoFar(m)|..] <==>
                      m.positions[x.partition] <= x.offset < s.positions[x.partition]))
            && (m.hand.None? ==>
                  && |m.history.taken| <= |s.history.taken|
                  && (x in s.history.taken[|m.history.taken|..] ==> m.positions[x.partition] <= x.offset))
  {
    var p, s := x.partition, Run(m, evs);
    var base, from := ReadSoFar(m), m.positions[p];
    RunKeeps(m, evs);
    LogStays(m, evs);
    LogGrows(m, evs, p);
    assert Reached(m.log, m.table + Line(m), p, m.positions[p]);
    assert base[|base|..] == [];
    RunReadOn(m, evs, base, p, from);
    RunKeepsTaken(m, evs);
    assert FromLog(s.log, x) && |m.positions| == |s.positions|;
    hide Run, Inv;
    InTrades(s.log[p], p, from, s.positions[p], x);
    if base <= ReadSoFar(s) {
      InOnly(ReadSoFar(s)[|base|..], x);
    }
    if m.hand.None? {
      assert base == m.history.taken && base <= ReadSoFar(s);
      assert ReadSoFar(s)[|base|..] == s.history.taken[|base|..] + InHand(s);
    }
  }

  /** What a partition that is taken away and comes back repeats: of the trades read before, exactly those at or above
      its committed offset that the consumer comes by again. */
  lemma ReassignRepeatsExactly(partitions: nat, before: seq<Event>, p: nat, evs: seq<Event>, x: Item)
    requires var m := Run(Init(partitions), before);
             m.consuming && p < |m.log| && x in ReadSoFar(m) && x.partition == p
    requires AllUndisturbed(evs)
    ensures var m := Run(Init(partitions), before);
            var s := Run(Next(m, Reassign(p)), evs);
            && p < |m.committed| && p < |s.positions|
            && (s.consuming ==>
                  && |ReadSoFar(m)| <= |ReadSoFar(s)|
                  && (x in ReadSoFar(s)[|ReadSoFar(m)|..] <==> m.committed[p] <= x.offset < s.positions[p]))
            && (m.hand.None? ==>
                  && |m.history.taken| <= |s.history.taken|
                  && (x in s.history.taken[|m.history.taken|..] ==> m.committed[p] <= x.offset))
  {
    var m := Run(Init(partitions), before);
    InitKeeps(partitions);
    RunKeeps(Init(partitions), before);
    RunKnown(Init(partitions), before);
    assert FromLog(m.log, x);
    ReassignKeeps(m, p);
    var m' := Next(m, Reassign(p));
    assert ReadSoFar(m') == ReadSoFar(m) && m'.positions[p] == m.committed[p];
    ReadExactly(m', evs, x);
  }
}
