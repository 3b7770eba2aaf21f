/** When a trade goes into the table twice. Within one run it happens exactly when the answer to a committed write is
    lost or a partition that was taken away makes a trade be taken again; across a restart exactly for the trades at or
    above the committed offset that are written again. */
module TradeExactness {
  import opened Sums
  import opened TradePipeline
  import opened TradeBatches

  predicate NoRepeats(items: seq<Item>) {
    forall i, j :: 0 <= i < j < |items| ==> items[i] != items[j]
  }

  lemma NoRepeatsParts(xs: seq<Item>, ys: seq<Item>)
    requires NoRepeats(xs + ys)
    ensures NoRepeats(xs) && NoRepeats(ys) && forall x :: x in xs ==> x !in ys
  {
    var all := xs + ys;
    forall i, j | 0 <= i < j < |xs| ensures xs[i] != xs[j] {
      assert all[i] == xs[i] && all[j] == xs[j];
    }
    forall i, j | 0 <= i < j < |ys| ensures ys[i] != ys[j] {
      assert all[|xs| + i] == ys[i] && all[|xs| + j] == ys[j];
    }
    forall i, j | 0 <= i < |xs| && 0 <= j < |ys| ensures xs[i] != ys[j] {
      assert all[i] == xs[i] && all[|xs| + j] == ys[j];
    }
  }

  lemma NoRepeatsConcat(xs: seq<Item>, ys: seq<Item>)
    ensures NoRepeats(xs + ys) <==> NoRepeats(xs) && NoRepeats(ys) && forall x :: x in xs ==> x !in ys
  {
    if NoRepeats(xs + ys) {
      NoRepeatsParts(xs, ys);
    } else {
      var all := xs + ys;
      var i, j :| 0 <= i < j < |all| && all[i] == all[j];
      assert all[i] == if i < |xs| then xs[i] else ys[i - |xs|];
      assert all[j] == if j < |xs| then xs[j] else ys[j - |xs|];
      assert i < |xs| <= j ==> xs[i] in xs && ys[j - |xs|] in ys;
    }
  }

  // ---------- Steps that repeat a trade ----------

  predicate NoRestart(evs: seq<Event>) {
    forall i :: 0 <= i < |evs| ==> !evs[i].Restart?
  }

  /** A write is committed, but the writer does not get the answer. */
  predicate Loses(s: System, ev: Event) {
    && ev.Attempt? && !ev.outcome.Written? && ev.outcome.committed
    && s.phase.Writing? && s.phase.attempt < MAX_RETRIES && s.batch != []
  }

  predicate LosesAnAnswer(s: System, evs: seq<Event>)
    decreases evs
  {
    evs != [] && (Loses(s, evs[0]) || LosesAnAnswer(Next(s, evs[0]), evs[1..]))
  }

  /** A trade that was taken before in this run is put into the trade channel again. */
  predicate TakesAgain(s: System, ev: Event) {
    ev.Deliver? && s.hand.Some? && |s.channel| < TRADE_CHANNEL_CAPACITY && s.hand.value in s.history.taken
  }

  predicate TakesATradeAgain(s: System, evs: seq<Event>)
    decreases evs
  {
    evs != [] && (TakesAgain(s, evs[0]) || TakesATradeAgain(Next(s, evs[0]), evs[1..]))
  }

  // ---------- Lost answers ----------

  /** Once a batch has more than one copy, or a copy without its answer, this stays so until a restart. */
  lemma CopiesStay(s: System, ev: Event)
    requires !OneCopyEach(s) && !ev.Restart?
    ensures !OneCopyEach(Next(s, ev))
  {
    var t := Next(s, ev);
    if s.history.copies == 0 {
      var i :| 0 <= i < |s.history.saved| && s.history.saved[i].copies != 1;
      assert t.history.saved[i] == s.history.saved[i];
    } else if t.history.copies == 0 {
      assert t.history.saved[|s.history.saved|].copies == s.history.copies + 1;
    }
  }

  lemma OneCopyNext(s: System, ev: Event)
    requires OneCopyEach(s) && !ev.Restart?
    ensures OneCopyEach(Next(s, ev)) <==> !Loses(s, ev)
  {
  }

  lemma {:induction false} CopiesStayLong(s: System, evs: seq<Event>)
    requires !OneCopyEach(s) && NoRestart(evs)
    ensures !OneCopyEach(Run(s, evs))
    decreases evs
  {
    if evs != [] {
      CopiesStay(s, evs[0]);
      CopiesStayLong(Next(s, evs[0]), evs[1..]);
    }
  }

  /** Every batch is written once, and acknowledged then, exactly when no answer is lost. */
  lemma {:induction false} OneCopyExactly(s: System, evs: seq<Event>)
    requires OneCopyEach(s) && NoRestart(evs)
    ensures OneCopyEach(Run(s, evs)) <==> !LosesAnAnswer(s, evs)
    decreases evs
  {
    if evs != [] {
      OneCopyNext(s, evs[0]);
      if Loses(s, evs[0]) {
        CopiesStayLong(Next(s, evs[0]), evs[1..]);
      } else {
        OneCopyExactly(Next(s, evs[0]), evs[1..]);
      }
    }
  }

  // ---------- Trades taken again ----------

  lemma TakenNext(s: System, ev: Event)
    requires !ev.Restart?
    ensures s.history.taken <= Next(s, ev).history.taken
    ensures NoRepeats(s.history.taken) ==> (NoRepeats(Next(s, ev).history.taken) <==> !TakesAgain(s, ev))
  {
    if ev.Deliver? && Delivered(s) != s {
      NoRepeatsConcat(s.history.taken, [s.hand.value]);
    }
  }

  lemma {:induction false} RepeatsStay(s: System, evs: seq<Event>)
    requires !NoRepeats(s.history.taken) && NoRestart(evs)
    ensures !NoRepeats(Run(s, evs).history.taken)
    decreases evs
  {
    if evs != [] {
      TakenNext(s, evs[0]);
      var i, j :| 0 <= i < j < |s.history.taken| && s.history.taken[i] == s.history.taken[j];
      assert Next(s, evs[0]).history.taken[i] == Next(s, evs[0]).history.taken[j];
      RepeatsStay(Next(s, evs[0]), evs[1..]);
    }
  }

  lemma {:induction false} TakenOnceExactly(s: System, evs: seq<Event>)
    requires NoRepeats(s.history.taken) && NoRestart(evs)
    ensures NoRepeats(Run(s, evs).history.taken) <==> !TakesATradeAgain(s, evs)
    decreases evs
  {
    if evs != [] {
      TakenNext(s, evs[0]);
      if TakesAgain(s, evs[0]) {
        RepeatsStay(Next(s, evs[0]), evs[1..]);
      } else {
        TakenOnceExactly(Next(s, evs[0]), evs[1..]);
      }
    }
  }

  // ---------- The table of one run ----------

  lemma CopiesEnd(rows: seq<Item>, n: nat)
    requires n > 0 && rows != []
    ensures rows[0] in Copies(rows, n)
  {
  }

  lemma TwoCopies(before: seq<Item>, rows: seq<Item>, n: nat)
    requires n >= 2 && rows != []
    ensures !NoRepeats(before + Copies(rows, n))
  {
    CopiesEnd(rows, n - 1);
    NoRepeatsConcat(Copies(rows, n - 1), rows);
    NoRepeatsConcat(before, Copies(rows, n));
  }

  lemma {:induction false} BatchesOnce(saved: seq<Saved>)
    requires forall i :: 0 <= i < |saved| ==> ProperBatch(saved[i])
    requires NoRepeats(RowsWritten(saved))
    ensures forall i :: 0 <= i < |saved| ==> saved[i].copies == 1
  {
    if saved != [] {
      var front, last := saved[..|saved| - 1], saved[|saved| - 1];
      NoRepeatsConcat(RowsWritten(front), Copies(last.rows, last.copies));
      BatchesOnce(front);
      assert forall i :: 0 <= i < |front| ==> saved[i] == front[i];
      if last.copies >= 2 {
        TwoCopies(RowsWritten(front), last.rows, last.copies);
      }
    }
  }

  lemma CopyThenBatch(before: seq<Item>, batch: seq<Item>, copies: nat)
    requires copies > 0 ==> batch != []
    ensures copies > 0 ==> !NoRepeats(before + Copies(batch, copies) + batch)
  {
    if copies > 0 {
      CopiesEnd(batch, copies);
      NoRepeatsConcat(before + Copies(batch, copies), batch);
      assert batch[0] in before + Copies(batch, copies) && batch[0] in batch;
    }
  }

  /** What this run put into the table, and what it still has to put there. */
  function Onward(s: System): seq<Item>
    requires s.history.start <= |s.table|
  {
    s.table[s.history.start..] + s.batch + s.channel
  }

  lemma OnwardOnce(s: System)
    requires BatchInv(s)
    ensures NoRepeats(Onward(s)) <==> OneCopyEach(s) && NoRepeats(s.history.taken)
  {
    var h := s.history;
    var written := RowsWritten(h.saved) + Copies(s.batch, h.copies);
    NoRepeatsConcat(written + s.batch, s.channel);
    NoRepeatsConcat(written, s.batch);
    NoRepeatsConcat(RowsWritten(h.saved), Copies(s.batch, h.copies));
    if NoRepeats(Onward(s)) {
      BatchesOnce(h.saved);
      CopyThenBatch(RowsWritten(h.saved), s.batch, h.copies);
    }
    if OneCopyEach(s) {
      OneCopyRows(h.saved);
      assert written == Rows(h.saved);
    }
  }

  // ---------- Without reassignment nothing is taken again ----------

  lemma {:induction false} InTrades(records: seq<Record>, p: nat, from: nat, to: nat, x: Item)
    requires from <= to <= |records|
    ensures x in Trades(records, p, from, to) <==>
            x.partition == p && from <= x.offset < to && records[x.offset] == Executed(x.trade)
  {
    if from < to {
      InTrades(records, p, from, to - 1, x);
    }
  }

  lemma {:induction false} TradesOnce(records: seq<Record>, p: nat, from: nat, to: nat)
    requires from <= to <= |records|
    ensures NoRepeats(Trades(records, p, from, to))
  {
    if from < to {
      TradesOnce(records, p, from, to - 1);
      if records[to - 1].Executed? {
        var x := Item(p, to - 1, records[to - 1].trade);
        InTrades(records, p, from, to - 1, x);
        NoRepeatsConcat(Trades(records, p, from, to - 1), [x]);
      }
    }
  }

  lemma {:induction false} InOnly(items: seq<Item>, x: Item)
    ensures x in items <==> x in Only(items, x.partition)
  {
    if items != [] {
      var front, y := items[..|items| - 1], items[|items| - 1];
      InOnly(front, x);
      assert items == front + [y];
    }
  }

  lemma {:induction false} OnlyConcat(xs: seq<Item>, ys: seq<Item>, p: nat)
    ensures Only(xs + ys, p) == Only(xs, p) + Only(ys, p)
  {
    if ys == [] {
      assert xs + ys == xs;
    } else {
      var front, y := ys[..|ys| - 1], ys[|ys| - 1];
      OnlyConcat(xs, front, p);
      assert xs + ys == (xs + front) + [y] && ys == front + [y];
      OnlySnoc(xs + front, y, p);
    }
  }

  lemma OnceInEach(items: seq<Item>)
    requires forall x :: x in items ==> NoRepeats(Only(items, x.partition))
    ensures NoRepeats(items)
  {
    forall i, j | 0 <= i < j < |items|
      ensures items[i] != items[j]
    {
      var x, xs, ys := items[j], items[..j], items[j..];
      assert items == xs + ys && x == ys[0] && x in items;
      OnlyConcat(xs, ys, x.partition);
      NoRepeatsConcat(Only(xs, x.partition), Only(ys, x.partition));
      InOnly(xs, x);
      InOnly(ys, x);
      assert items[i] == xs[i];
    }
  }

  /** Everything taken, and in hand, is a trade of the topic. */
  predicate Known(s: System) {
    && (forall x :: x in s.history.taken ==> FromLog(s.log, x))
    && (s.hand.Some? ==> FromLog(s.log, s.hand.value))
  }

  lemma NextKnown(s: System, ev: Event)
    requires Known(s)
    ensures Known(Next(s, ev))
  {
    hide Polled;
    match ev
    case Produce(p, record) => ProduceKnown(s, p, record);
    case Poll(p) => PollKnown(s, p);
    case _ =>
      hide FromLog;
  }

  lemma ProduceKnown(s: System, p: nat, record: Record)
    requires Known(s)
    ensures Known(Next(s, Produce(p, record)))
  {
    if p < |s.log| {
      var longer := Next(s, Produce(p, record)).log;
      FromLogGrows(s.log, longer, s.history.taken);
      FromLogGrows(s.log, longer, InHand(s));
      assert s.hand.Some? ==> s.hand.value in InHand(s);
    }
  }

  lemma PollKnown(s: System, p: nat)
    requires Known(s)
    ensures Known(Polled(s, p))
  {
  }

  lemma {:induction false} RunKnown(s: System, evs: seq<Event>)
    requires Known(s)
    ensures Known(Run(s, evs))
    decreases evs
  {
    if evs != [] {
      NextKnown(s, evs[0]);
      hide Known, Next;
      RunKnown(Next(s, evs[0]), evs[1..]);
    }
  }

  /** Without reassignment and restart nothing is taken twice, and what is taken or in hand of a partition is what it
      holds from the committed offset to the position; a consumer that has ended may have given up the last. */
  lemma UndisturbedTaken(partitions: nat, before: seq<Event>, evs: seq<Event>)
    requires AllUndisturbed(evs)
    ensures var s0 := Started(Run(Init(partitions), before));
            var s := Run(s0, evs);
            && NoRepeats(s.history.taken + InHand(s))
            && |s0.committed| == |s.log| == |s.positions|
            && forall p :: 0 <= p < |s.log| ==> InStep(s, p, s0.committed[p])
  {
    var r := Run(Init(partitions), before);
    InitKeeps(partitions);
    RunKeeps(Init(partitions), before);
    var s0 := Started(r);
    StartedKeeps(r);
    RunKeeps(s0, evs);
    LogStays(s0, evs);
    RunKnown(s0, evs);
    var s := Run(s0, evs);
    var items := s.history.taken + InHand(s);
    assert Known(s) && |s0.committed| == |s.log| == |s.positions| && AllReached(r.log, r.table, r.committed);
    hide Inv, Run, Only, Trades;
    forall p | 0 <= p < |s.log|
      ensures InStep(s, p, s0.committed[p]) && NoRepeats(Only(items, p))
    {
      assert Reached(r.log, r.table, p, r.committed[p]);
      StartInStep(s0, p);
      RunInStep(s0, evs, p, s0.committed[p]);
      TradesOnce(s.log[p], p, s0.committed[p], s.positions[p]);
    }
    OnceInEach(items);
  }

  lemma StartInStep(s: System, p: nat)
    requires s == Started(s) && p < |s.log| && p < |s.committed| && s.committed[p] <= |s.log[p]|
    ensures InStep(s, p, s.committed[p])
  {
  }

  /** So a trade is taken again only if a partition was taken away. */
  lemma TakenAgainNeedsReassign(partitions: nat, before: seq<Event>, evs: seq<Event>)
    requires NoRestart(evs) && TakesATradeAgain(Started(Run(Init(partitions), before)), evs)
    ensures exists i :: 0 <= i < |evs| && evs[i].Reassign?
  {
    var s0 := Started(Run(Init(partitions), before));
    TakenOnceExactly(s0, evs);
    if AllUndisturbed(evs) {
      UndisturbedTaken(partitions, before, evs);
      NoRepeatsConcat(Run(s0, evs).history.taken, InHand(Run(s0, evs)));
    }
  }

  /** A partition taken away and given back before its offset was stored makes a trade be taken again. */
  lemma TakenAgainExample(record: Record)
    requires record.Executed?
    ensures var waiting := Run(Init(1), [Produce(0, record), Poll(0), Deliver, Take]);
            TakesATradeAgain(waiting, [Reassign(0), Poll(0), Deliver])
  {
    var s := OneTradeWaiting(record);
    var evs := [Reassign(0), Poll(0), Deliver];
    assert evs[1..] == [Poll(0), Deliver] && evs[1..][1..] == [Deliver];
    var t := Next(Next(s, Reassign(0)), Poll(0));
    assert TakesATradeAgain(t, [Deliver]);
    assert TakesATradeAgain(Next(s, Reassign(0)), [Poll(0), Deliver]);
  }

  // ---------- A restart ----------

  /** The trades read that are not in the table yet as far as this run knows. */
  function StillToWrite(s: System): seq<Item> {
    (if s.history.copies == 0 then s.batch else []) + s.channel + InHand(s)
  }

  lemma {:induction false} InRowsWritten(saved: seq<Saved>, x: Item)
    requires forall i :: 0 <= i < |saved| ==> ProperBatch(saved[i])
    ensures x in RowsWritten(saved) <==> x in Rows(saved)
  {
    if saved != [] {
      var last := saved[|saved| - 1];
      var front := saved[..|saved| - 1];
      assert forall i :: 0 <= i < |front| ==> front[i] == saved[i];
      InRowsWritten(front, x);
      InCopies(last.rows, last.copies, x);
    }
  }

  lemma {:induction false} InCopies(rows: seq<Item>, n: nat, x: Item)
    ensures x in Copies(rows, n) <==> n > 0 && x in rows
  {
    if n > 0 {
      InCopies(rows, n - 1, x);
    }
  }

  lemma WrittenExactly(s: System, x: Item)
    requires BatchInv(s) && NoRepeats(s.history.taken + InHand(s))
    ensures x in s.table[s.history.start..] <==> x in s.history.taken + InHand(s) && x !in StillToWrite(s)
  {
    var h := s.history;
    InRowsWritten(h.saved, x);
    InCopies(s.batch, h.copies, x);
    NoRepeatsConcat(h.taken, InHand(s));
    NoRepeatsConcat(Rows(h.saved) + s.batch, s.channel);
    NoRepeatsConcat(Rows(h.saved), s.batch);
  }

  /** After a restart, in a run without reassignments: a row of the table gets another copy only if its offset is at or
      above the committed offset of its partition; and while the consumer works, exactly if it is also below the
      position and no longer on its way to the table. */
  lemma RestartRepeatsExactly(partitions: nat, before: seq<Event>, evs: seq<Event>, x: Item)
    requires AllUndisturbed(evs) && x in Run(Init(partitions), before).table
    ensures var r := Run(Init(partitions), before);
            var s := Run(Started(r), evs);
            && x.partition < |r.committed| == |s.positions| && |r.table| <= |s.table|
            && var again := x in s.table[|r.table|..];
               && (again ==> r.committed[x.partition] <= x.offset)
               && (s.consuming ==>
                     (again <==> r.committed[x.partition] <= x.offset < s.positions[x.partition]
                                 && x !in StillToWrite(s)))
  {
    var r := Run(Init(partitions), before);
    var s0 := Started(r);
    var s := Run(s0, evs);
    NoTradeInvented(partitions, before, x);
    StartedCut(r);
    RunCut(s0, evs);
    StartStays(s0, evs);
    UndisturbedTaken(partitions, before, evs);
    LogGrows(s0, evs, x.partition);
    hide Run, Inv;
    WrittenExactly(s, x);
    var p := x.partition;
    assert InStep(s, p, s0.committed[p]);
    InOnly(s.history.taken + InHand(s), x);
    InTrades(s.log[p], p, s0.committed[p], s.positions[p], x);
  }

  lemma {:induction false} LogGrows(s: System, evs: seq<Event>, p: nat)
    requires p < |s.log|
    ensures p < |Run(s, evs).log| && s.log[p] <= Run(s, evs).log[p]
    decreases evs
  {
    if evs != [] {
      LogGrows(Next(s, evs[0]), evs[1..], p);
    }
  }

  /** A trade that is in the table, but whose offset was not committed, is written again after a restart. */
  lemma RestartExample(record: Record)
    requires record.Executed?
    ensures var x := Item(0, 0, record.trade);
            var waiting := Run(Init(1), [Produce(0, record), Poll(0), Deliver, Take]);
            var written := Run(waiting, [StartWriting, Attempt(Written)]);
            && written.table == [x]
            && Run(Started(written), [Poll(0), Deliver, Take, StartWriting, Attempt(Written)]).table == [x, x]
  {
    var s := OneTradeWaiting(record);
    s := WriteIt(s);
    s := Started(s);
    var evs := [Poll(0), Deliver, Take, StartWriting, Attempt(Written)];
    assert evs[0..] == evs;
    RunAt(s, evs, 0);
    s := Next(s, Poll(0));
    RunAt(s, evs, 1);
    s := Next(s, Deliver);
    RunAt(s, evs, 2);
    s := Next(s, Take);
    assert evs[3..] == [StartWriting, Attempt(Written)];
    s := WriteIt(s);
  }

  lemma WriteIt(s: System) returns (t: System)
    requires s.phase == Gathering && s.channel == [] && 0 < |s.batch| <= BATCH_SIZE
    ensures t == Run(s, [StartWriting, Attempt(Written)])
    ensures t.table == s.table + s.batch && t.batch == [] && t.channel == []
    ensures t.log == s.log && t.committed == s.committed
  {
    var evs := [StartWriting, Attempt(Written)];
    assert evs[0..] == evs;
    RunAt(s, evs, 0);
    t := Next(s, StartWriting);
    RunAt(t, evs, 1);
    t := Next(t, Attempt(Written));
  }
}
