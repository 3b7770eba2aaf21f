/** What one run of the trade worker writes: the trades it consumed, in order, cut into consecutive batches. */
module TradeBatches {
  import opened Options
  import opened Sums
  import opened TradePipeline

  /** The trades of the batches, one behind the other. */
  function Rows(saved: seq<Saved>): seq<Item> {
    if saved == [] then [] else Rows(saved[..|saved| - 1]) + saved[|saved| - 1].rows
  }

  function Copies(rows: seq<Item>, n: nat): seq<Item> {
    if n == 0 then [] else Copies(rows, n - 1) + rows
  }

  /** The same with each batch as often as it was written. */
  function RowsWritten(saved: seq<Saved>): seq<Item> {
    if saved == [] then []
    else RowsWritten(saved[..|saved| - 1]) + Copies(saved[|saved| - 1].rows, saved[|saved| - 1].copies)
  }

  predicate ProperBatch(b: Saved) {
    1 <= |b.rows| <= BATCH_SIZE && 1 <= b.copies <= MAX_RETRIES
  }

  /** The rows this run added to the table are its batches, each one to five times, and after them the batch in work,
      zero to five times; the trades taken are the same batches once, the batch in work and the channel. */
  predicate CutIntoBatches(s: System) {
    var h := s.history;
    && h.start <= |s.table|
    && s.table[h.start..] == RowsWritten(h.saved) + Copies(s.batch, h.copies)
    && h.taken == Rows(h.saved) + s.batch + s.channel
    && (forall i :: 0 <= i < |h.saved| ==> ProperBatch(h.saved[i]))
    && |s.batch| <= BATCH_SIZE && h.copies <= MAX_RETRIES
    && |s.channel| <= TRADE_CHANNEL_CAPACITY
  }

  /** The writer retries only a batch with trades, and at most one copy of it per failed attempt is in the table. */
  predicate RetriesCounted(s: System) {
    match s.phase
    case Gathering => s.history.copies == 0
    case Writing(attempt) => s.batch != [] && s.history.copies <= attempt <= MAX_RETRIES
    case Halted => s.history.copies > 0 ==> s.batch != []
  }

  predicate BatchInv(s: System) {
    CutIntoBatches(s) && RetriesCounted(s)
  }

  lemma RowsSnoc(saved: seq<Saved>, b: Saved)
    ensures Rows(saved + [b]) == Rows(saved) + b.rows
    ensures RowsWritten(saved + [b]) == RowsWritten(saved) + Copies(b.rows, b.copies)
  {
    assert (saved + [b])[..|saved|] == saved;
  }

  /** Another copy of the batch at the end of the table. */
  lemma CopyAdded(table: seq<Item>, start: nat, written: seq<Item>, batch: seq<Item>, copies: nat)
    requires start <= |table| && table[start..] == written + Copies(batch, copies)
    ensures (table + batch)[start..] == written + Copies(batch, copies + 1)
  {
    assert (table + batch)[start..] == table[start..] + batch;
    ConcatAssoc(written, Copies(batch, copies), batch);
  }

  lemma WrittenCut(s: System)
    requires BatchInv(s)
    ensures BatchInv(Attempted(s, Written))
  {
    hide Rows, RowsWritten, Copies;
    var t, h := Attempted(s, Written), s.history;
    if t != s {
      var b := Saved(s.batch, h.copies + 1);
      CopyAdded(s.table, h.start, RowsWritten(h.saved), s.batch, h.copies);
      RowsSnoc(h.saved, b);
      NothingAfter(RowsWritten(t.history.saved));
      assert Rows(t.history.saved) + [] == Rows(h.saved) + s.batch;
    }
  }

  lemma NothingAfter(rows: seq<Item>)
    ensures rows + Copies([], 0) == rows
  {
  }

  lemma FailedCut(s: System, outcome: Outcome)
    requires BatchInv(s) && !outcome.Written?
    ensures BatchInv(Attempted(s, outcome))
  {
    if Attempted(s, outcome) != s {
      CopyAdded(s.table, s.history.start, RowsWritten(s.history.saved), s.batch, s.history.copies);
    }
  }

  lemma TakenCut(s: System)
    requires BatchInv(s)
    ensures BatchInv(Taken(s))
  {
    var t := Taken(s);
    if t != s {
      assert s.batch + s.channel == t.batch + t.channel;
      ConcatAssoc(Rows(s.history.saved), s.batch, s.channel);
      ConcatAssoc(Rows(s.history.saved), t.batch, t.channel);
    }
  }

  lemma DeliveredCut(s: System)
    requires BatchInv(s)
    ensures BatchInv(Delivered(s))
  {
    if Delivered(s) != s {
      ConcatAssoc(Rows(s.history.saved) + s.batch, s.channel, [s.hand.value]);
    }
  }

  lemma PolledCut(s: System, p: nat)
    requires BatchInv(s)
    ensures BatchInv(Polled(s, p))
  {
  }

  lemma StartedCut(s: System)
    ensures BatchInv(Started(s))
  {
  }

  lemma NextCut(s: System, ev: Event)
    requires BatchInv(s)
    ensures BatchInv(Next(s, ev))
  {
    hide Rows, RowsWritten, Copies, ProperBatch, Polled, Delivered, Taken, Attempted, Started;
    match ev
    case Poll(p) => PolledCut(s, p);
    case Deliver => DeliveredCut(s);
    case Take => TakenCut(s);
    case Attempt(outcome) =>
      if outcome.Written? {
        WrittenCut(s);
      } else {
        FailedCut(s, outcome);
      }
    case Restart => StartedCut(s);
    case _ =>
  }

  lemma {:induction false} RunCut(s: System, evs: seq<Event>)
    requires BatchInv(s)
    ensures BatchInv(Run(s, evs))
    decreases evs
  {
    if evs != [] {
      NextCut(s, evs[0]);
      RunCut(Next(s, evs[0]), evs[1..]);
    }
  }

  /** At every moment of every run. */
  lemma TableIsBatches(partitions: nat, evs: seq<Event>)
    ensures CutIntoBatches(Run(Init(partitions), evs))
  {
    StartedCut(Init(partitions));
    RunCut(Init(partitions), evs);
  }

  // ---------- What was taken is what the topic holds ----------

  /** The items of one partition. */
  function Only(items: seq<Item>, p: nat): seq<Item> {
    if items == [] then []
    else
      var front, x := items[..|items| - 1], items[|items| - 1];
      Only(front, p) + if x.partition == p then [x] else []
  }

  /** The trades of a partition between two offsets. */
  function Trades(records: seq<Record>, p: nat, from: nat, to: nat): seq<Item>
    requires from <= to <= |records|
  {
    if from == to then []
    else
      Trades(records, p, from, to - 1)
      + if records[to - 1].Executed? then [Item(p, to - 1, records[to - 1].trade)] else []
  }

  lemma {:induction false} TradesStay(records: seq<Record>, longer: seq<Record>, p: nat, from: nat, to: nat)
    requires from <= to <= |records| && records <= longer
    ensures Trades(records, p, from, to) == Trades(longer, p, from, to)
  {
    if from < to {
      TradesStay(records, longer, p, from, to - 1);
    }
  }

  lemma OnlySnoc(items: seq<Item>, x: Item, p: nat)
    ensures Only(items + [x], p) == Only(items, p) + if x.partition == p then [x] else []
  {
    assert (items + [x])[..|items|] == items;
  }

  /** For partition `p`: the trades put into the channel and the one in hand are all trades of the topic from where the
      run began up to the position. A consume loop that has ended may have given up the last of them. */
  ghost predicate InStep(s: System, p: nat, from: nat) {
    && p < |s.log| && p < |s.positions| && from <= s.positions[p] <= |s.log[p]|
    && Only(s.history.taken + InHand(s), p) <= Trades(s.log[p], p, from, s.positions[p])
    && (s.consuming ==> Only(s.history.taken + InHand(s), p) == Trades(s.log[p], p, from, s.positions[p]))
  }

  /** A partition is not taken away and the worker does not start anew. */
  predicate Undisturbed(ev: Event) {
    !ev.Reassign? && !ev.Restart?
  }

  predicate AllUndisturbed(evs: seq<Event>) {
    forall i :: 0 <= i < |evs| ==> Undisturbed(evs[i])
  }

  lemma PolledInStep(s: System, q: nat, p: nat, from: nat)
    requires InStep(s, p, from)
    ensures InStep(Polled(s, q), p, from)
  {
    var t := Polled(s, q);
    if t != s {
      assert s.history.taken + InHand(s) == s.history.taken;
      match s.log[q][s.positions[q]]
      case Executed(trade) =>
        var x := Item(q, s.positions[q], trade);
        assert s.history.taken + InHand(t) == s.history.taken + [x];
        OnlySnoc(s.history.taken, x, p);
      case Tombstone =>
      case Malformed =>
    }
  }

  lemma ConsumingEndsInStep(s: System, p: nat, from: nat)
    requires InStep(s, p, from)
    ensures InStep(Next(s, EndConsuming), p, from)
  {
    assert s.history.taken + [] == s.history.taken;
    if s.hand.Some? {
      OnlySnoc(s.history.taken, s.hand.value, p);
    }
  }

  lemma ProducedInStep(s: System, q: nat, record: Record, p: nat, from: nat)
    requires InStep(s, p, from)
    ensures InStep(Next(s, Produce(q, record)), p, from)
  {
    if q < |s.log| {
      var log := s.log[q := s.log[q] + [record]];
      assert s.log[p] <= log[p];
      TradesStay(s.log[p], log[p], p, from, s.positions[p]);
    }
  }

  lemma DeliveredInStep(s: System, p: nat, from: nat)
    requires InStep(s, p, from)
    ensures InStep(Delivered(s), p, from)
  {
    var t := Delivered(s);
    assert s.history.taken + InHand(s) == t.history.taken + InHand(t);
  }

  lemma NextInStep(s: System, ev: Event, p: nat, from: nat)
    requires InStep(s, p, from) && Undisturbed(ev)
    ensures InStep(Next(s, ev), p, from)
  {
    hide Only, Trades, Polled, Delivered;
    match ev
    case Produce(q, record) => ProducedInStep(s, q, record, p, from);
    case Poll(q) => PolledInStep(s, q, p, from);
    case Deliver => DeliveredInStep(s, p, from);
    case EndConsuming => ConsumingEndsInStep(s, p, from);
    case _ =>
  }

  lemma {:induction false} RunInStep(s: System, evs: seq<Event>, p: nat, from: nat)
    requires InStep(s, p, from) && AllUndisturbed(evs)
    ensures InStep(Run(s, evs), p, from)
    decreases evs
  {
    if evs != [] {
      NextInStep(s, evs[0], p, from);
      RunInStep(Next(s, evs[0]), evs[1..], p, from);
    }
  }

  // ---------- Without lost acknowledgements: exactly once, in order ----------

  /** No commit without its acknowledgement. */
  predicate Answered(ev: Event) {
    ev.Attempt? ==> ev.outcome.Written? || !ev.outcome.committed
  }

  predicate AllAnswered(evs: seq<Event>) {
    forall i :: 0 <= i < |evs| ==> Answered(evs[i])
  }

  predicate OneCopyEach(s: System) {
    s.history.copies == 0 && forall i :: 0 <= i < |s.history.saved| ==> s.history.saved[i].copies == 1
  }

  lemma {:induction false} RunOneCopy(s: System, evs: seq<Event>)
    requires OneCopyEach(s) && AllAnswered(evs)
    ensures OneCopyEach(Run(s, evs))
    decreases evs
  {
    if evs != [] {
      assert Answered(evs[0]);
      RunOneCopy(Next(s, evs[0]), evs[1..]);
    }
  }

  lemma OneCopy(rows: seq<Item>)
    ensures Copies(rows, 1) == rows
  {
    assert Copies(rows, 1) == Copies(rows, 0) + rows;
  }

  lemma {:induction false} OneCopyRows(saved: seq<Saved>)
    requires forall i :: 0 <= i < |saved| ==> saved[i].copies == 1
    ensures RowsWritten(saved) == Rows(saved)
  {
    if saved != [] {
      var last := saved[|saved| - 1];
      var front := saved[..|saved| - 1];
      OneCopyRows(front);
      OneCopy(last.rows);
    }
  }

  /** A worker that starts where the committed offsets say, and is neither restarted nor loses a partition nor an
      acknowledgement, takes the trades of each partition exactly once and in order: what it added to the table, with
      what is still on the way, is what the partition holds from the committed offset to the position. */
  lemma ExactlyOnceInOrder(partitions: nat, before: seq<Event>, evs: seq<Event>, p: nat)
    requires p < |Run(Init(partitions), before).log|
    requires AllUndisturbed(evs) && AllAnswered(evs)
    ensures var s0 := Started(Run(Init(partitions), before));
            var s := Run(s0, evs);
            && |s0.committed| == |s0.log| == |s.log| == |s.positions| && |s0.table| <= |s.table|
            && s0.committed[p] <= s.positions[p] <= |s.log[p]|
            && var consumed := Only(s.table[|s0.table|..] + Line(s), p);
               && consumed <= Trades(s.log[p], p, s0.committed[p], s.positions[p])
               && (s.consuming ==> consumed == Trades(s.log[p], p, s0.committed[p], s.positions[p]))
  {
    var r := Run(Init(partitions), before);
    InitKeeps(partitions);
    RunKeeps(Init(partitions), before);
    var s0 := Started(r);
    StartedKeeps(r);
    RunKeeps(s0, evs);
    assert InStep(s0, p, s0.committed[p]) by {
      assert Reached(r.log, r.table, p, r.committed[p]);
    }
    RunInStep(s0, evs, p, s0.committed[p]);
    StartedCut(r);
    RunCut(s0, evs);
    RunOneCopy(s0, evs);
    StartStays(s0, evs);
    var s := Run(s0, evs);
    TableThenLine(s);
    LogStays(s0, evs);
  }

  lemma {:induction false} StartStays(s: System, evs: seq<Event>)
    requires AllUndisturbed(evs)
    ensures Run(s, evs).history.start == s.history.start
    decreases evs
  {
    if evs != [] {
      assert Undisturbed(evs[0]);
      StartStays(Next(s, evs[0]), evs[1..]);
    }
  }

  lemma {:induction false} LogStays(s: System, evs: seq<Event>)
    ensures |Run(s, evs).log| == |s.log|
    decreases evs
  {
    if evs != [] {
      LogStays(Next(s, evs[0]), evs[1..]);
    }
  }

  lemma TableThenLine(s: System)
    requires CutIntoBatches(s) && OneCopyEach(s)
    ensures s.table[s.history.start..] + Line(s) == s.history.taken + InHand(s)
  {
    OneCopyRows(s.history.saved);
    var done := Rows(s.history.saved);
    assert s.table[s.history.start..] == done;
    assert done + (s.batch + s.channel + InHand(s)) == done + s.batch + s.channel + InHand(s);
  }

  lemma RunAt(s: System, evs: seq<Event>, i: nat)
    requires i < |evs|
    ensures Run(s, evs[i..]) == Run(Next(s, evs[i]), evs[i + 1..])
  {
    assert evs[i..][1..] == evs[i + 1..];
  }

  lemma OneTradeWaiting(record: Record) returns (s: System)
    requires record.Executed?
    ensures var evs := [Produce(0, record), Poll(0), Deliver, Take];
            s == Run(Init(1), evs)
    ensures s.table == [] && s.batch == [Item(0, 0, record.trade)] && s.channel == [] && s.phase == Gathering
    ensures s.log == [[record]] && s.committed == [0] && s.consuming && s.hand == None
    ensures s.positions == [1] && s.stored == [0] && s.history.taken == s.batch
  {
    var evs := [Produce(0, record), Poll(0), Deliver, Take];
    assert evs[0..] == evs;
    assert Init(1).log[0] + [record] == [record];
    s := Init(1);
    RunAt(s, evs, 0);
    s := Next(s, Produce(0, record));
    RunAt(s, evs, 1);
    s := Next(s, Poll(0));
    RunAt(s, evs, 2);
    s := Next(s, Deliver);
    RunAt(s, evs, 3);
    s := Next(s, Take);
  }

  /** With a lost acknowledgement the trades of a batch are in the table twice. */
  lemma LostAnswerExample(record: Record)
    requires record.Executed?
    ensures var x := Item(0, 0, record.trade);
            var waiting := Run(Init(1), [Produce(0, record), Poll(0), Deliver, Take]);
            Run(waiting, [StartWriting, Attempt(Failed(true)), Attempt(Written)]).table == [x, x]
  {
    var s := OneTradeWaiting(record);
    var evs := [StartWriting, Attempt(Failed(true)), Attempt(Written)];
    assert evs[0..] == evs;
    RunAt(s, evs, 0);
    s := Next(s, StartWriting);
    RunAt(s, evs, 1);
    s := Next(s, Attempt(Failed(true)));
    RunAt(s, evs, 2);
  }
}
