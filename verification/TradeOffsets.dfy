/** How far the stored offsets lag behind the table. Only the last trade of a batch hands its offset back, so the offset
    of a partition moves only when a batch ends in it. */
module TradeOffsets {
  import opened Options
  import opened TradePipeline
  import opened TradeBatches
  import opened TradeExactness
  import opened TradeRereads

  /** A batch ends in the partition of its last trade. */
  predicate EndsIn(b: Saved, p: nat) {
    b.rows != [] && b.rows[|b.rows| - 1].partition == p
  }

  /** Where the offset of partition `p` is after these batches: behind the last one that ended in it. */
  function StoredEnd(saved: seq<Saved>, p: nat, from: nat): nat {
    if saved == [] then from
    else
      var b := saved[|saved| - 1];
      if EndsIn(b, p) then b.rows[|b.rows| - 1].offset + 1 else StoredEnd(saved[..|saved| - 1], p, from)
  }

  /** No batch behind the last one that ended in partition `p` has a trade of it. */
  predicate Settled(saved: seq<Saved>, p: nat) {
    saved == [] || EndsIn(saved[|saved| - 1], p)
    || (Only(saved[|saved| - 1].rows, p) == [] && Settled(saved[..|saved| - 1], p))
  }

  /** The offset of partition `p` once all waiting acknowledgements are stored. */
  function AfterAcks(stored: nat, acks: seq<Item>, p: nat): nat {
    if acks == [] then stored
    else
      var last := acks[|acks| - 1];
      if last.partition == p then last.offset + 1 else AfterAcks(stored, acks[..|acks| - 1], p)
  }

  lemma {:induction false} FirstAck(stored: nat, acks: seq<Item>, p: nat)
    requires acks != []
    ensures AfterAcks(stored, acks, p) ==
            AfterAcks(if acks[0].partition == p then acks[0].offset + 1 else stored, acks[1..], p)
  {
    var front := acks[..|acks| - 1];
    if |acks| > 1 {
      FirstAck(stored, front, p);
      assert acks[1..][..|acks| - 2] == front[1..];
    } else {
      assert front == [] && acks[1..] == [];
    }
  }

  /** The partition is kept, the worker goes on, and the consumer stores what it is given. */
  predicate Smooth(ev: Event) {
    Undisturbed(ev) && (ev.StoreOffset? ==> ev.accepted)
  }

  predicate AllSmooth(evs: seq<Event>) {
    forall i :: 0 <= i < |evs| ==> Smooth(evs[i])
  }

  predicate Handed(s: System, p: nat, from: nat) {
    && p < |s.stored|
    && (s.consuming ==> AfterAcks(s.stored[p], s.acks, p) == StoredEnd(s.history.saved, p, from))
  }

  lemma AckSnoc(stored: nat, acks: seq<Item>, a: Item, p: nat)
    ensures AfterAcks(stored, acks + [a], p) == if a.partition == p then a.offset + 1 else AfterAcks(stored, acks, p)
  {
    assert (acks + [a])[..|acks|] == acks;
  }

  lemma SavedSnoc(saved: seq<Saved>, b: Saved, p: nat, from: nat)
    ensures StoredEnd(saved + [b], p, from) ==
            if EndsIn(b, p) then b.rows[|b.rows| - 1].offset + 1 else StoredEnd(saved, p, from)
  {
    assert (saved + [b])[..|saved|] == saved;
  }

  lemma StoreHanded(s: System, p: nat, from: nat)
    requires Handed(s, p, from)
    ensures Handed(OffsetStored(s, true), p, from)
  {
    if OffsetStored(s, true) != s {
      FirstAck(s.stored[p], s.acks, p);
      hide AfterAcks, StoredEnd;
    }
  }

  lemma AttemptHanded(s: System, outcome: Outcome, p: nat, from: nat)
    requires Handed(s, p, from)
    ensures Handed(Attempted(s, outcome), p, from)
  {
    hide AfterAcks, StoredEnd;
    var t := Attempted(s, outcome);
    if t != s && outcome.Written? {
      SavedSnoc(s.history.saved, Saved(s.batch, s.history.copies + 1), p, from);
      AckSnoc(s.stored[p], s.acks, s.batch[|s.batch| - 1], p);
    }
  }

  lemma NextHanded(s: System, ev: Event, p: nat, from: nat)
    requires Handed(s, p, from) && Smooth(ev)
    ensures Handed(Next(s, ev), p, from)
  {
    hide AfterAcks, StoredEnd, OffsetStored, Attempted;
    match ev
    case StoreOffset(accepted) => StoreHanded(s, p, from);
    case Attempt(outcome) => AttemptHanded(s, outcome, p, from);
    case _ =>
  }

  lemma {:induction false} RunHanded(s: System, evs: seq<Event>, p: nat, from: nat)
    requires Handed(s, p, from) && AllSmooth(evs)
    ensures Handed(Run(s, evs), p, from)
    decreases evs
  {
    if evs != [] {
      NextHanded(s, evs[0], p, from);
      hide Handed, Next;
      RunHanded(Next(s, evs[0]), evs[1..], p, from);
    }
  }

  predicate Increasing(items: seq<Item>, from: nat) {
    && (forall i :: 0 <= i < |items| ==> from <= items[i].offset)
    && forall i, j :: 0 <= i < j < |items| ==> items[i].offset < items[j].offset
  }

  lemma {:induction false} TradesIncreasing(records: seq<Record>, p: nat, from: nat, to: nat)
    requires from <= to <= |records|
    ensures Increasing(Trades(records, p, from, to), from)
    ensures forall i :: 0 <= i < |Trades(records, p, from, to)| ==> Trades(records, p, from, to)[i].offset < to
  {
    if from < to {
      TradesIncreasing(records, p, from, to - 1);
    }
  }

  lemma IncreasingParts(xs: seq<Item>, ys: seq<Item>, from: nat)
    requires Increasing(xs + ys, from)
    ensures Increasing(xs, from) && forall j :: 0 <= j < |ys| ==> from <= ys[j].offset
    ensures forall i, j :: 0 <= i < |xs| && 0 <= j < |ys| ==> xs[i].offset < ys[j].offset
  {
    var all := xs + ys;
    assert forall i :: 0 <= i < |xs| ==> all[i] == xs[i];
    forall j | 0 <= j < |ys| ensures all[|xs| + j] == ys[j] && from <= ys[j].offset {
    }
    forall i, j | 0 <= i < |xs| && 0 <= j < |ys| ensures xs[i].offset < ys[j].offset {
      assert all[i].offset < all[|xs| + j].offset;
    }
  }

  /** The offset is never beyond the last trade of the partition in the batches, and behind it exactly when no batch is
      left over. */
  ghost predicate EndExact(saved: seq<Saved>, p: nat, from: nat) {
    var os := Only(Rows(saved), p);
    && from <= StoredEnd(saved, p, from)
    && (os == [] ==> StoredEnd(saved, p, from) == from && Settled(saved, p))
    && (os != [] ==>
          && StoredEnd(saved, p, from) <= os[|os| - 1].offset + 1
          && (StoredEnd(saved, p, from) == os[|os| - 1].offset + 1 <==> Settled(saved, p)))
  }

  lemma {:induction false} StoredEndExactly(saved: seq<Saved>, p: nat, from: nat)
    requires Increasing(Only(Rows(saved), p), from)
    ensures EndExact(saved, p, from)
  {
    if saved != [] {
      var front, b := saved[..|saved| - 1], saved[|saved| - 1];
      var of, ob := Only(Rows(front), p), Only(b.rows, p);
      OnlyConcat(Rows(front), b.rows, p);
      IncreasingParts(of, ob, from);
      StoredEndExactly(front, p, from);
      assert EndsIn(b, p) ==> ob != [] && ob[|ob| - 1] == b.rows[|b.rows| - 1];
      hide Only, Rows;
    }
  }

  // ---------- A quiet pipeline ----------

  /** No trade of partition `p` at or above its stored offset has been read. */
  predicate FullyStored(s: System, p: nat)
    requires p < |s.stored| && p < |s.positions| && p < |s.log| && s.positions[p] <= |s.log[p]|
  {
    forall o :: s.stored[p] <= o < s.positions[p] ==> !s.log[p][o].Executed?
  }

  predicate Quiet(s: System) {
    s.consuming && Line(s) == [] && s.acks == []
  }

  lemma LastTrade(records: seq<Record>, p: nat, from: nat, to: nat, o: nat)
    requires from <= o < to <= |records| && records[o].Executed?
    ensures var ts := Trades(records, p, from, to); ts != [] && o <= ts[|ts| - 1].offset
  {
    var x := Item(p, o, records[o].trade);
    InTrades(records, p, from, to, x);
    TradesIncreasing(records, p, from, to);
    var ts := Trades(records, p, from, to);
    var i :| 0 <= i < |ts| && ts[i] == x;
  }

  lemma EndsInRange(s: System, p: nat, from: nat)
    requires p < |s.stored| && p < |s.positions| && p < |s.log| && from <= s.positions[p] <= |s.log[p]|
    requires s.stored[p] == StoredEnd(s.history.saved, p, from)
    requires Only(Rows(s.history.saved), p) == Trades(s.log[p], p, from, s.positions[p])
    ensures FullyStored(s, p) <==> Settled(s.history.saved, p)
  {
    var ts := Trades(s.log[p], p, from, s.positions[p]);
    TradesIncreasing(s.log[p], p, from, s.positions[p]);
    StoredEndExactly(s.history.saved, p, from);
    forall o | s.stored[p] <= o < s.positions[p] && s.log[p][o].Executed?
      ensures ts != [] && o <= ts[|ts| - 1].offset
    {
      LastTrade(s.log[p], p, from, s.positions[p], o);
    }
    if ts != [] {
      var x := ts[|ts| - 1];
      InTrades(s.log[p], p, from, s.positions[p], x);
    }
    hide Only, Trades, Rows, StoredEnd, Settled;
  }

  /** In a quiet state all that was read of the partition is in the batches, and the offset is behind the last of them
      that ended in it. */
  lemma QuietState(partitions: nat, before: seq<Event>, evs: seq<Event>, p: nat)
    requires var r := Run(Init(partitions), before);
             p < |r.log| && AllSmooth(evs) && Quiet(Run(Started(r), evs))
    ensures var s0 := Started(Run(Init(partitions), before));
            var s := Run(s0, evs);
            && |s0.committed| == |s.stored| == |s.positions| == |s.log| == |s0.log|
            && s0.committed[p] <= s.positions[p] <= |s.log[p]|
            && Only(Rows(s.history.saved), p) == Trades(s.log[p], p, s0.committed[p], s.positions[p])
            && s.stored[p] == StoredEnd(s.history.saved, p, s0.committed[p])
  {
    var r := Run(Init(partitions), before);
    var s0 := Started(r);
    var s := Run(s0, evs);
    assert forall i :: 0 <= i < |evs| ==> Smooth(evs[i]) ==> Undisturbed(evs[i]);
    InitKeeps(partitions);
    RunKeeps(Init(partitions), before);
    StartedKeeps(r);
    RunKeeps(s0, evs);
    LogStays(s0, evs);
    UndisturbedTaken(partitions, before, evs);
    StartedCut(r);
    RunCut(s0, evs);
    RunHanded(s0, evs, p, s0.committed[p]);
    assert InStep(s, p, s0.committed[p]);
    hide Run, Inv, Only, Trades, Rows, RowsWritten, Copies, StoredEnd;
    QuietTaken(s);
  }

  lemma QuietTaken(s: System)
    requires CutIntoBatches(s) && Quiet(s)
    ensures s.history.taken + InHand(s) == Rows(s.history.saved)
  {
    assert s.batch == [] && s.channel == [] && InHand(s) == [] by {
      assert |Line(s)| == |s.batch| + |s.channel| + |InHand(s)|;
    }
  }

  /** When everything read is written and every acknowledgement stored, the offset of a partition is behind the last
      batch that ended in it; no trade of the partition is left above it exactly when no later batch has one. */
  lemma StoredWhenQuiet(partitions: nat, before: seq<Event>, evs: seq<Event>, p: nat)
    requires var r := Run(Init(partitions), before);
             p < |r.log| && AllSmooth(evs) && Quiet(Run(Started(r), evs))
    ensures var s0 := Started(Run(Init(partitions), before));
            var s := Run(s0, evs);
            && p < |s0.committed| && p < |s.stored| && p < |s.positions| && p < |s.log| && s.positions[p] <= |s.log[p]|
            && s.stored[p] == StoredEnd(s.history.saved, p, s0.committed[p])
            && (FullyStored(s, p) <==> Settled(s.history.saved, p))
  {
    QuietState(partitions, before, evs, p);
    var s0 := Started(Run(Init(partitions), before));
    EndsInRange(Run(s0, evs), p, s0.committed[p]);
  }

  /** A worker that comes to rest, commits and is started again reads a trade of the partition again exactly when a
      later batch than the last that ended in it has one. */
  lemma CleanRestart(partitions: nat, before: seq<Event>, evs: seq<Event>, p: nat)
    requires var r := Run(Init(partitions), before);
             p < |r.log| && AllSmooth(evs) && Quiet(Run(Started(r), evs))
    ensures var s := Run(Started(Run(Init(partitions), before)), evs);
            var t := Next(Next(s, AutoCommit(p)), Restart);
            && t.table == s.table && t.log == s.log
            && p < |t.positions| && p < |s.positions| && p < |s.log| && s.positions[p] <= |s.log[p]|
            && ((forall o :: t.positions[p] <= o < s.positions[p] ==> !s.log[p][o].Executed?) <==>
                  Settled(s.history.saved, p))
  {
    StoredWhenQuiet(partitions, before, evs, p);
    InitKeeps(partitions);
    RunKeeps(Init(partitions), before);
    var r := Run(Init(partitions), before);
    StartedKeeps(r);
    RunKeeps(Started(r), evs);
    var s := Run(Started(r), evs);
    assert |s.committed| == |s.log|;
    hide Run, Inv, Settled, StoredEnd;
    assert Next(Next(s, AutoCommit(p)), Restart).positions[p] == s.stored[p];
  }

  /** With a single partition every batch ends in it: a quiet worker has stored everything. */
  lemma OnePartitionIsStored(before: seq<Event>, evs: seq<Event>)
    requires AllSmooth(evs) && Quiet(Run(Started(Run(Init(1), before)), evs))
    ensures var s := Run(Started(Run(Init(1), before)), evs);
            && |s.stored| == |s.positions| == |s.log| == 1 && s.positions[0] <= |s.log[0]| && FullyStored(s, 0)
  {
    var r := Run(Init(1), before);
    LogStays(Init(1), before);
    StoredWhenQuiet(1, before, evs, 0);
    QuietState(1, before, evs, 0);
    var s := Run(Started(r), evs);
    RunKnown(Started(r), evs);
    StartedCut(r);
    RunCut(Started(r), evs);
    hide Run, Inv;
    QuietTaken(s);
    var saved := s.history.saved;
    if saved != [] {
      var b := saved[|saved| - 1];
      assert ProperBatch(b) && b.rows[|b.rows| - 1] in Rows(saved);
    }
  }

  // ---------- Two partitions ----------

  /** Two trades, one in each partition, written as one batch that ends in partition 1. */
  const READ_BOTH := [Poll(0), Deliver, Poll(1), Deliver]
  const WRITE_BOTH := [Take, Take, StartWriting, Attempt(Written)]
  const STORE_ALL := [StoreOffset(true), AutoCommit(0), AutoCommit(1)]

  /** The worker on two partitions with one trade each. */
  function Worker(record: Record, positions: seq<nat>, channel: seq<Item>): System {
    System([[record], [record]], [0, 0], [], true, positions, [0, 0], None, channel, [], Gathering, [],
           History(0, channel, [], 0))
  }

  lemma BothProduced(record: Record)
    ensures Run(Init(2), [Produce(0, record), Produce(1, record)]) == Worker(record, [0, 0], [])
  {
    var evs := [Produce(0, record), Produce(1, record)];
    assert evs[0..] == evs;
    var s := Init(2);
    assert s.log == [[], []] && s.positions == [0, 0];
    assert s.log[0] + [record] == [record];
    RunAt(s, evs, 0);
    s := Next(s, Produce(0, record));
    assert s.log == [[record], []];
    assert s.log[1] + [record] == [record];
    RunAt(s, evs, 1);
  }

  lemma BothRead(record: Record)
    requires record.Executed?
    ensures Run(Worker(record, [0, 0], []), READ_BOTH) ==
            Worker(record, [1, 1], [Item(0, 0, record.trade), Item(1, 0, record.trade)])
  {
    assert READ_BOTH[0..] == READ_BOTH;
    var s := Worker(record, [0, 0], []);
    RunAt(s, READ_BOTH, 0);
    s := Next(s, Poll(0));
    RunAt(s, READ_BOTH, 1);
    s := Next(s, Deliver);
    RunAt(s, READ_BOTH, 2);
    s := Next(s, Poll(1));
    RunAt(s, READ_BOTH, 3);
    s := Next(s, Deliver);
  }

  lemma BothWritten(m: System, x: Item, y: Item) returns (s: System)
    requires m.channel == [x, y] && m.batch == [] && m.acks == [] && m.phase == Gathering && m.consuming
    ensures s == Run(m, WRITE_BOTH)
    ensures s == m.(channel := [], acks := [y], table := m.table + [x, y], history := s.history)
  {
    assert WRITE_BOTH[0..] == WRITE_BOTH;
    s := m;
    RunAt(s, WRITE_BOTH, 0);
    s := Next(s, Take);
    assert s.batch == [x] && s.channel == [y];
    RunAt(s, WRITE_BOTH, 1);
    s := Next(s, Take);
    assert s.batch == [x, y] && s.channel == [];
    RunAt(s, WRITE_BOTH, 2);
    s := Next(s, StartWriting);
    RunAt(s, WRITE_BOTH, 3);
    s := Next(s, Attempt(Written));
  }

  /** Everything is read, written, acknowledged, stored and committed, and still the offset of partition 0 stays where
      it was: a clean restart reads its trade again. */
  lemma LaggingExample(record: Record)
    requires record.Executed?
    ensures var read := Run(Run(Init(2), [Produce(0, record), Produce(1, record)]), READ_BOTH);
            var s := Run(Run(read, WRITE_BOTH), STORE_ALL);
            Quiet(s) && s.positions == [1, 1] && s.stored == s.committed == [0, 1]
            && s.table == [Item(0, 0, record.trade), Item(1, 0, record.trade)]
  {
    BothProduced(record);
    BothRead(record);
    var x, y := Item(0, 0, record.trade), Item(1, 0, record.trade);
    var s := BothWritten(Worker(record, [1, 1], [x, y]), x, y);
    assert STORE_ALL[0..] == STORE_ALL;
    RunAt(s, STORE_ALL, 0);
    s := Next(s, StoreOffset(true));
    RunAt(s, STORE_ALL, 1);
    s := Next(s, AutoCommit(0));
    RunAt(s, STORE_ALL, 2);
    s := Next(s, AutoCommit(1));
  }
}
