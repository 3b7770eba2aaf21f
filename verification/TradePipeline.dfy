/** From the trades topic to the trades table: a consume loop and a batch writer joined by two channels.
    Whatever fails, and however often the worker restarts, no offset is stored past a trade that is not in
    the table; and within one run the table gets the consumed trades in order, cut into batches, each
    written at most five times. */
module TradePipeline {
  import opened Models
  import opened Options

  const BATCH_SIZE: nat := 10_000
  const MAX_RETRIES: nat := 5
  const TRADE_CHANNEL_CAPACITY: nat := 500_000

  /** A record of the topic: a trade, one without a value, or one that cannot be parsed. */
  datatype Record = Executed(trade: Trade) | Tombstone | Malformed

  /** A trade and where it was read. */
  datatype Item = Item(partition: nat, offset: nat, trade: Trade)

  /** The writer collects a batch, tries to write it, or has ended. */
  datatype Phase = Gathering | Writing(attempt: nat) | Halted

  /** A batch that was acknowledged, and how many copies of it went into the table. */
  datatype Saved = Saved(rows: seq<Item>, copies: nat)

  /** History of the current run: rows in the table when it began, the trades put into the trade channel, the
      batches acknowledged, and the copies of the current batch already in the table. */
  datatype History = History(start: nat, taken: seq<Item>, saved: seq<Saved>, copies: nat)

  /** `log`, `committed` and `table` survive a restart; everything else is memory of the worker.
      `hand` is the record read but not yet in the trade channel. */
  datatype System = System(
    log: seq<seq<Record>>, committed: seq<nat>, table: seq<Item>,
    consuming: bool, positions: seq<nat>, stored: seq<nat>, hand: Option<Item>,
    channel: seq<Item>, batch: seq<Item>, phase: Phase, acks: seq<Item>,
    history: History)

  /** How one attempt to write a batch ends. A copy is atomic, but it can be committed and the answer lost. An
      exception other than a database or socket error ends the writer. */
  datatype Outcome = Written | Failed(committed: bool) | Aborted(committed: bool)

  datatype Event =
    | Produce(partition: nat, record: Record)
    | Poll(partition: nat)
    | Deliver
    | EndConsuming
    | StoreOffset(accepted: bool)
    | AutoCommit(partition: nat)
    | Reassign(partition: nat)
    | Take
    | StartWriting
    | Attempt(outcome: Outcome)
    | EndWriting
    | Restart

  /** A worker that just started resumes at the committed offsets, with nothing in memory. */
  function Fresh(log: seq<seq<Record>>, committed: seq<nat>, table: seq<Item>): System {
    System(log, committed, table, true, committed, committed, None, [], [], Gathering, [],
           History(|table|, [], [], 0))
  }

  /** The first worker on an empty topic with `partitions` partitions. */
  function Init(partitions: nat): System {
    Fresh(seq(partitions, p => []), seq(partitions, p => 0), [])
  }

  function Started(s: System): System {
    Fresh(s.log, s.committed, s.table)
  }

  /** Read the next record of a partition. A record without a value is skipped; one that cannot be parsed ends the
      consume loop. */
  function Polled(s: System, p: nat): System {
    if !s.consuming || s.hand.Some? || p >= |s.log| || p >= |s.positions| || s.positions[p] >= |s.log[p]| then s
    else
      var o := s.positions[p];
      var s1 := s.(positions := s.positions[p := o + 1]);
      match s.log[p][o]
      case Executed(trade) => s1.(hand := Some(Item(p, o, trade)))
      case Tombstone => s1
      case Malformed => s1.(consuming := false)
  }

  /** Put the trade in hand into the trade channel, which makes the writer wait while it is full. */
  function Delivered(s: System): System {
    if s.hand.None? || |s.channel| >= TRADE_CHANNEL_CAPACITY then s
    else
      s.(hand := None, channel := s.channel + [s.hand.value],
         history := s.history.(taken := s.history.taken + [s.hand.value]))
  }

  /** Take the next acknowledged batch end off its channel and store its offset, if the consumer accepts that. */
  function OffsetStored(s: System, accepted: bool): System {
    if !s.consuming || s.hand.Some? || s.acks == [] then s
    else
      var a, s1 := s.acks[0], s.(acks := s.acks[1..]);
      if accepted && a.partition < |s.stored| then s1.(stored := s.stored[a.partition := a.offset + 1]) else s1
  }

  function Taken(s: System): System {
    if !s.phase.Gathering? || |s.batch| >= BATCH_SIZE || s.channel == [] then s
    else s.(batch := s.batch + [s.channel[0]], channel := s.channel[1..])
  }

  /** The batch is closed when it is full or the channel has nothing more right now. */
  function WritingStarted(s: System): System {
    if s.phase.Gathering? && s.batch != [] && (|s.batch| == BATCH_SIZE || s.channel == [])
      then s.(phase := Writing(0))
    else s
  }

  function Copied(s: System): System {
    s.(table := s.table + s.batch, history := s.history.(copies := s.history.copies + 1))
  }

  /** One attempt. On success the last trade of the batch goes to the offset channel, unless that was closed. */
  function Attempted(s: System, outcome: Outcome): System {
    if !s.phase.Writing? || s.phase.attempt >= MAX_RETRIES || s.batch == [] then s
    else
      match outcome
      case Written =>
        var h := s.history.(saved := s.history.saved + [Saved(s.batch, s.history.copies + 1)], copies := 0);
        s.(table := s.table + s.batch, history := h, batch := [], phase := Gathering,
           acks := if s.consuming then s.acks + [s.batch[|s.batch| - 1]] else s.acks)
      case Failed(committed) =>
        (if committed then Copied(s) else s).(phase := Writing(s.phase.attempt + 1))
      case Aborted(committed) =>
        (if committed then Copied(s) else s).(phase := Halted)
  }

  /** One step; an event that is not enabled changes nothing. */
  function Next(s: System, ev: Event): System {
    match ev
    case Produce(p, record) =>
      if p < |s.log| then s.(log := s.log[p := s.log[p] + [record]]) else s
    case Poll(p) => Polled(s, p)
    case Deliver => Delivered(s)
    case EndConsuming => s.(consuming := false, hand := None)
    case StoreOffset(accepted) => OffsetStored(s, accepted)
    case AutoCommit(p) =>
      if p < |s.committed| && p < |s.stored| then s.(committed := s.committed[p := s.stored[p]]) else s
    case Reassign(p) =>
      if p < |s.committed| && p < |s.stored| && p < |s.positions|
        then s.(positions := s.positions[p := s.committed[p]], stored := s.stored[p := s.committed[p]])
      else s
    case Take => Taken(s)
    case StartWriting => WritingStarted(s)
    case Attempt(outcome) => Attempted(s, outcome)
    case EndWriting => s.(phase := Halted)
    case Restart => Started(s)
  }

  function Run(s: System, evs: seq<Event>): System
    decreases evs
  {
    if evs == [] then s else Run(Next(s, evs[0]), evs[1..])
  }

  lemma {:induction false} RunSnoc(s: System, evs: seq<Event>, ev: Event)
    ensures Run(s, evs + [ev]) == Next(Run(s, evs), ev)
    decreases evs
  {
    if evs == [] {
      assert evs + [ev] == [ev] && [ev][1..] == [];
    } else {
      assert (evs + [ev])[1..] == evs[1..] + [ev];
      RunSnoc(Next(s, evs[0]), evs[1..], ev);
    }
  }

  // ---------- Nothing is passed over ----------

  predicate Passed(record: Record, rows: seq<Item>, p: nat, o: nat) {
    record.Tombstone? || (record.Executed? && Item(p, o, record.trade) in rows)
  }

  /** Below offset `k` of partition `p` there are only records without a value and trades among `rows`. */
  ghost predicate Reached(log: seq<seq<Record>>, rows: seq<Item>, p: nat, k: nat) {
    p < |log| && k <= |log[p]| && forall o {:trigger log[p][o]} :: 0 <= o < k ==> Passed(log[p][o], rows, p, o)
  }

  ghost predicate AllReached(log: seq<seq<Record>>, rows: seq<Item>, offsets: seq<nat>) {
    |offsets| == |log| && forall p :: 0 <= p < |log| ==> Reached(log, rows, p, offsets[p])
  }

  /** Every trade before and at an item of the line is in the table or not later in the line. */
  ghost predicate LineReached(log: seq<seq<Record>>, table: seq<Item>, line: seq<Item>) {
    forall i {:trigger line[i]} :: 0 <= i < |line| ==>
      Reached(log, table + line[..i + 1], line[i].partition, line[i].offset + 1)
  }

  ghost predicate AcksReached(log: seq<seq<Record>>, table: seq<Item>, acks: seq<Item>) {
    forall i :: 0 <= i < |acks| ==> Reached(log, table, acks[i].partition, acks[i].offset + 1)
  }

  predicate FromLog(log: seq<seq<Record>>, x: Item) {
    x.partition < |log| && x.offset < |log[x.partition]| && log[x.partition][x.offset] == Executed(x.trade)
  }

  /** The items on their way to the table. */
  function InHand(s: System): seq<Item> {
    if s.hand.Some? then [s.hand.value] else []
  }

  function Line(s: System): seq<Item> {
    s.batch + s.channel + InHand(s)
  }

  ghost predicate Inv(s: System) {
    && AllReached(s.log, s.table, s.committed)
    && AllReached(s.log, s.table, s.stored)
    && AcksReached(s.log, s.table, s.acks)
    && LineReached(s.log, s.table, Line(s))
    && |s.positions| == |s.log|
    && (s.consuming ==> AllReached(s.log, s.table + Line(s), s.positions))
    && (!s.consuming ==> s.hand.None?)
    && (forall x :: x in s.table ==> FromLog(s.log, x))
    && (forall x :: x in Line(s) ==> FromLog(s.log, x))
  }

  /** A topic only grows. */
  ghost predicate Extends(log: seq<seq<Record>>, longer: seq<seq<Record>>) {
    |log| == |longer| && forall p {:trigger longer[p]} :: 0 <= p < |log| ==> log[p] <= longer[p]
  }

  ghost predicate Among(rows: seq<Item>, more: seq<Item>) {
    forall x :: x in rows ==> x in more
  }

  lemma ReachedGrows(log: seq<seq<Record>>, rows: seq<Item>, longer: seq<seq<Record>>, more: seq<Item>, p: nat, k: nat)
    requires Reached(log, rows, p, k) && Extends(log, longer) && Among(rows, more)
    ensures Reached(longer, more, p, k)
  {
    assert log[p] <= longer[p];
    forall o | 0 <= o < k
      ensures Passed(longer[p][o], more, p, o)
    {
      assert Passed(log[p][o], rows, p, o);
      assert longer[p][o] == log[p][o];
    }
  }

  lemma AllReachedGrows(log: seq<seq<Record>>, rows: seq<Item>, longer: seq<seq<Record>>, more: seq<Item>,
                        offsets: seq<nat>)
    requires AllReached(log, rows, offsets) && Extends(log, longer) && Among(rows, more)
    ensures AllReached(longer, more, offsets)
  {
    forall p | 0 <= p < |log|
      ensures Reached(longer, more, p, offsets[p])
    {
      ReachedGrows(log, rows, longer, more, p, offsets[p]);
    }
  }

  lemma AcksGrow(log: seq<seq<Record>>, table: seq<Item>, longer: seq<seq<Record>>, more: seq<Item>, acks: seq<Item>)
    requires AcksReached(log, table, acks) && Extends(log, longer) && Among(table, more)
    ensures AcksReached(longer, more, acks)
  {
    forall i | 0 <= i < |acks|
      ensures Reached(longer, more, acks[i].partition, acks[i].offset + 1)
    {
      ReachedGrows(log, table, longer, more, acks[i].partition, acks[i].offset + 1);
    }
  }

  lemma LineGrows(log: seq<seq<Record>>, table: seq<Item>, longer: seq<seq<Record>>, more: seq<Item>, line: seq<Item>)
    requires LineReached(log, table, line) && Extends(log, longer) && Among(table, more)
    ensures LineReached(longer, more, line)
  {
    forall i {:trigger line[i]} | 0 <= i < |line|
      ensures Reached(longer, more + line[..i + 1], line[i].partition, line[i].offset + 1)
    {
      ReachedGrows(log, table + line[..i + 1], longer, more + line[..i + 1], line[i].partition, line[i].offset + 1);
    }
  }

  /** Items at the end of the line may be given up. */
  lemma LineShrinks(log: seq<seq<Record>>, table: seq<Item>, line: seq<Item>, last: seq<Item>)
    requires LineReached(log, table, line + last)
    ensures LineReached(log, table, line)
  {
    forall i {:trigger line[i]} | 0 <= i < |line|
      ensures Reached(log, table + line[..i + 1], line[i].partition, line[i].offset + 1)
    {
      assert (line + last)[i] == line[i];
      assert (line + last)[..i + 1] == line[..i + 1];
    }
  }

  lemma LineExtended(log: seq<seq<Record>>, table: seq<Item>, line: seq<Item>, x: Item)
    requires LineReached(log, table, line)
    requires Reached(log, table + (line + [x]), x.partition, x.offset + 1)
    ensures LineReached(log, table, line + [x])
  {
    var longer := line + [x];
    forall i {:trigger longer[i]} | 0 <= i < |longer|
      ensures Reached(log, table + longer[..i + 1], longer[i].partition, longer[i].offset + 1)
    {
      if i < |line| {
        assert longer[..i + 1] == line[..i + 1] && longer[i] == line[i];
      } else {
        assert longer[..i + 1] == longer;
      }
    }
  }

  /** When the front of the line is in the table, the rest is still in order, and the last item written can be
      acknowledged. */
  lemma LineWritten(log: seq<seq<Record>>, table: seq<Item>, batch: seq<Item>, rest: seq<Item>)
    requires LineReached(log, table, batch + rest) && batch != []
    ensures LineReached(log, table + batch, rest)
    ensures var last := batch[|batch| - 1]; Reached(log, table + batch, last.partition, last.offset + 1)
  {
    var line := batch + rest;
    assert line[|batch| - 1] == batch[|batch| - 1] && line[..|batch|] == batch;
    forall i {:trigger rest[i]} | 0 <= i < |rest|
      ensures Reached(log, table + batch + rest[..i + 1], rest[i].partition, rest[i].offset + 1)
    {
      assert line[|batch| + i] == rest[i];
      assert line[..|batch| + i + 1] == batch + rest[..i + 1];
      ReachedGrows(log, table + line[..|batch| + i + 1], log, table + batch + rest[..i + 1],
                   rest[i].partition, rest[i].offset + 1);
    }
  }

  // ---------- Every step keeps it ----------

  lemma StartedKeeps(s: System)
    requires Inv(s)
    ensures Inv(Started(s))
  {
    AllReachedGrows(s.log, s.table, s.log, s.table + Line(Started(s)), s.committed);
  }

  lemma ProduceKeeps(s: System, p: nat, record: Record)
    requires Inv(s)
    ensures Inv(Next(s, Produce(p, record)))
  {
    if p < |s.log| {
      var log := s.log[p := s.log[p] + [record]];
      AllReachedGrows(s.log, s.table, log, s.table, s.committed);
      AllReachedGrows(s.log, s.table, log, s.table, s.stored);
      AcksGrow(s.log, s.table, log, s.table, s.acks);
      LineGrows(s.log, s.table, log, s.table, Line(s));
      if s.consuming {
        AllReachedGrows(s.log, s.table + Line(s), log, s.table + Line(s), s.positions);
      }
      FromLogGrows(s.log, log, s.table);
      FromLogGrows(s.log, log, Line(s));
    }
  }

  lemma FromLogGrows(log: seq<seq<Record>>, longer: seq<seq<Record>>, rows: seq<Item>)
    requires Extends(log, longer) && forall x :: x in rows ==> FromLog(log, x)
    ensures forall x :: x in rows ==> FromLog(longer, x)
  {
    forall x | x in rows
      ensures FromLog(longer, x)
    {
      assert FromLog(log, x);
      assert log[x.partition] <= longer[x.partition];
    }
  }

  /** One record further: it is a tombstone, or its trade is now among the rows. */
  lemma ReachedNext(log: seq<seq<Record>>, rows: seq<Item>, p: nat, k: nat)
    requires Reached(log, rows, p, k) && k < |log[p]| && Passed(log[p][k], rows, p, k)
    ensures Reached(log, rows, p, k + 1)
  {
  }

  lemma PositionAdvances(log: seq<seq<Record>>, rows: seq<Item>, more: seq<Item>, positions: seq<nat>, p: nat)
    requires AllReached(log, rows, positions) && Among(rows, more) && p < |log| && positions[p] < |log[p]|
    requires Passed(log[p][positions[p]], more, p, positions[p])
    ensures AllReached(log, more, positions[p := positions[p] + 1])
    ensures Reached(log, more, p, positions[p] + 1)
  {
    AllReachedGrows(log, rows, log, more, positions);
    ReachedNext(log, more, p, positions[p]);
  }

  /** The trade that was read joins the end of the line. */
  lemma TradeJoins(s: System, p: nat, x: Item)
    requires Inv(s) && s.consuming && p < |s.log| && x.partition == p && x.offset == s.positions[p]
    requires FromLog(s.log, x)
    ensures LineReached(s.log, s.table, Line(s) + [x])
    ensures AllReached(s.log, s.table + (Line(s) + [x]), s.positions[p := s.positions[p] + 1])
    ensures forall y :: y in Line(s) + [x] ==> FromLog(s.log, y)
  {
    var rows, more := s.table + Line(s), s.table + (Line(s) + [x]);
    assert Among(rows, more) && x in more && x == Item(p, s.positions[p], s.log[p][s.positions[p]].trade);
    PositionAdvances(s.log, rows, more, s.positions, p);
    LineExtended(s.log, s.table, Line(s), x);
  }

  lemma PollKeeps(s: System, p: nat)
    requires Inv(s)
    ensures Inv(Polled(s, p))
  {
    hide AllReached, LineReached, AcksReached, FromLog;
    var t := Polled(s, p);
    if t != s {
      var o := s.positions[p];
      match s.log[p][o]
      case Executed(trade) =>
        var x := Item(p, o, trade);
        assert Line(t) == Line(s) + [x];
        ReadFromLog(s.log, x);
        TradeJoins(s, p, x);
      case Tombstone =>
        assert Line(t) == Line(s);
        PositionAdvances(s.log, s.table + Line(s), s.table + Line(s), s.positions, p);
      case Malformed =>
        assert Line(t) == Line(s);
    }
  }

  lemma ReadFromLog(log: seq<seq<Record>>, x: Item)
    requires x.partition < |log| && x.offset < |log[x.partition]|
    requires log[x.partition][x.offset] == Executed(x.trade)
    ensures FromLog(log, x)
  {
  }

  lemma DeliverKeeps(s: System)
    requires Inv(s)
    ensures Inv(Delivered(s))
  {
    assert Line(Delivered(s)) == Line(s);
  }

  lemma TakeKeeps(s: System)
    requires Inv(s)
    ensures Inv(Taken(s))
  {
    if Taken(s) != s {
      assert s.channel == [s.channel[0]] + s.channel[1..];
      assert Line(Taken(s)) == Line(s);
    }
  }

  lemma EndConsumingKeeps(s: System)
    requires Inv(s)
    ensures Inv(Next(s, EndConsuming))
  {
    LineShrinks(s.log, s.table, s.batch + s.channel, InHand(s));
    assert Line(Next(s, EndConsuming)) == s.batch + s.channel;
  }

  lemma StoreOffsetKeeps(s: System, accepted: bool)
    requires Inv(s)
    ensures Inv(OffsetStored(s, accepted))
  {
    if OffsetStored(s, accepted) != s {
      assert Reached(s.log, s.table, s.acks[0].partition, s.acks[0].offset + 1);
      assert forall i :: 0 <= i < |s.acks[1..]| ==> s.acks[1..][i] == s.acks[i + 1];
    }
  }

  lemma ReassignKeeps(s: System, p: nat)
    requires Inv(s)
    ensures Inv(Next(s, Reassign(p)))
  {
    if s.consuming && p < |s.log| {
      ReachedGrows(s.log, s.table, s.log, s.table + Line(s), p, s.committed[p]);
    }
  }

  /** Rows of the batch in the table, acknowledged or not. */
  lemma RowsAdded(s: System)
    requires Inv(s)
    ensures var table := s.table + s.batch;
            && AllReached(s.log, table, s.committed) && AllReached(s.log, table, s.stored)
            && AcksReached(s.log, table, s.acks) && LineReached(s.log, table, Line(s))
            && (s.consuming ==> AllReached(s.log, table + Line(s), s.positions))
            && (forall x :: x in table ==> FromLog(s.log, x))
  {
    var table := s.table + s.batch;
    AllReachedGrows(s.log, s.table, s.log, table, s.committed);
    AllReachedGrows(s.log, s.table, s.log, table, s.stored);
    AcksGrow(s.log, s.table, s.log, table, s.acks);
    LineGrows(s.log, s.table, s.log, table, Line(s));
    if s.consuming {
      AllReachedGrows(s.log, s.table + Line(s), s.log, table + Line(s), s.positions);
    }
    forall x | x in table
      ensures FromLog(s.log, x)
    {
      assert x in s.table || x in Line(s);
    }
  }

  lemma AttemptKeeps(s: System, outcome: Outcome)
    requires Inv(s)
    ensures Inv(Attempted(s, outcome))
  {
    var t := Attempted(s, outcome);
    if t != s {
      RowsAdded(s);
      if outcome.Written? {
        var rest := s.channel + InHand(s);
        assert Line(s) == s.batch + rest;
        assert Line(t) == rest;
        LineWritten(s.log, s.table, s.batch, rest);
        if s.consuming {
          AllReachedGrows(s.log, s.table + Line(s), s.log, t.table + rest, s.positions);
        }
      } else {
        assert Line(t) == Line(s);
      }
    }
  }

  lemma NextKeeps(s: System, ev: Event)
    requires Inv(s)
    ensures Inv(Next(s, ev))
  {
    match ev
    case Produce(p, record) => ProduceKeeps(s, p, record);
    case Poll(p) => PollKeeps(s, p);
    case Deliver => DeliverKeeps(s);
    case EndConsuming => EndConsumingKeeps(s);
    case StoreOffset(accepted) => StoreOffsetKeeps(s, accepted);
    case AutoCommit(p) =>
    case Reassign(p) => ReassignKeeps(s, p);
    case Take => TakeKeeps(s);
    case StartWriting =>
    case Attempt(outcome) => AttemptKeeps(s, outcome);
    case EndWriting =>
    case Restart => StartedKeeps(s);
  }

  lemma {:induction false} RunKeeps(s: System, evs: seq<Event>)
    requires Inv(s)
    ensures Inv(Run(s, evs))
    decreases evs
  {
    if evs != [] {
      NextKeeps(s, evs[0]);
      RunKeeps(Next(s, evs[0]), evs[1..]);
    }
  }

  lemma InitKeeps(partitions: nat)
    ensures Inv(Init(partitions))
  {
  }

  /** At every moment of every run, each record below a stored or committed offset is one without a value or a trade
      that is in the table. In particular no offset ever passes a record that cannot be parsed. */
  lemma NoTradeLost(partitions: nat, evs: seq<Event>, p: nat, o: nat)
    ensures var s := Run(Init(partitions), evs);
            && |s.log| == |s.stored| == |s.committed|
            && (p < |s.log| && (o < s.stored[p] || o < s.committed[p]) ==>
                  o < |s.log[p]| && Passed(s.log[p][o], s.table, p, o))
  {
    InitKeeps(partitions);
    RunKeeps(Init(partitions), evs);
  }

  /** Nothing is made up: each row of the table is a trade of the topic. */
  lemma NoTradeInvented(partitions: nat, evs: seq<Event>, x: Item)
    requires x in Run(Init(partitions), evs).table
    ensures FromLog(Run(Init(partitions), evs).log, x)
  {
    InitKeeps(partitions);
    RunKeeps(Init(partitions), evs);
  }

  /** Once a working consumer has read everything and the writer has nothing left to write, every trade of the topic
      is in the table. */
  lemma DrainedIsPersisted(partitions: nat, evs: seq<Event>, p: nat, o: nat)
    requires var s := Run(Init(partitions), evs);
             && s.consuming && Line(s) == [] && p < |s.log| && o < |s.log[p]|
             && |s.positions| == |s.log| && s.positions[p] == |s.log[p]|
    ensures var s := Run(Init(partitions), evs); Passed(s.log[p][o], s.table, p, o)
  {
    InitKeeps(partitions);
    RunKeeps(Init(partitions), evs);
    var s := Run(Init(partitions), evs);
    assert s.table + Line(s) == s.table;
    assert Reached(s.log, s.table, p, s.positions[p]);
  }
}
