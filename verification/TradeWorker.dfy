/** The loops of the trade worker, one method for each stretch a loop runs without giving way to the other. Each is
    proved to be a run of the pipeline, so whatever is proved of all runs holds however the loops interleave. */
module TradeWorkers {
  import opened Models
  import opened Options
  import opened TradePipeline

  /** `n` times the same event. */
  function Times(ev: Event, n: nat): (evs: seq<Event>)
    ensures |evs| == n
  {
    seq(n, i => ev)
  }

  /** Offsets stored one after the other, accepted or refused as `accepts` says. */
  function Stores(accepts: nat -> bool, n: nat): (evs: seq<Event>)
    ensures |evs| == n
  {
    seq(n, i requires 0 <= i < n => StoreOffset(accepts(i)))
  }

  function Attempts(outcomes: seq<Outcome>): (evs: seq<Event>)
    ensures |evs| == |outcomes|
  {
    seq(|outcomes|, i requires 0 <= i < |outcomes| => Attempt(outcomes[i]))
  }

  /** What the writer does with a batch when the attempts end as in `outcomes`. */
  function WriteEvents(outcomes: seq<Outcome>, success: bool): seq<Event> {
    [StartWriting] + Attempts(outcomes) + if success then [] else [EndWriting]
  }

  /** One record after the other read from the partitions in `polled` and passed on. */
  function Reads(polled: seq<nat>): seq<Event> {
    if polled == [] then [] else Reads(polled[..|polled| - 1]) + [Poll(polled[|polled| - 1])] + [Deliver]
  }

  /** All attempts before the `i`-th failed in a way that is tried again. */
  predicate OnlyFailures(outcomes: seq<Outcome>, cancelled: nat -> bool, i: nat) {
    i <= |outcomes| && forall j :: 0 <= j < i ==> outcomes[j].Failed? && !cancelled(j)
  }

  /** `n` attempts are made: none is cancelled, and each but the last failed in a way that is tried again. */
  predicate AttemptsMade(outcomes: seq<Outcome>, cancelled: nat -> bool, n: nat) {
    n <= |outcomes| && forall j :: 0 <= j < n ==> !cancelled(j) && (j < n - 1 ==> outcomes[j].Failed?)
  }

  /** One of the attempts the loop gets to is acknowledged. */
  ghost predicate Succeeds(outcomes: seq<Outcome>, cancelled: nat -> bool) {
    exists i ::
      && 0 <= i < MAX_RETRIES && i < |outcomes|
      && outcomes[i].Written? && !cancelled(i) && OnlyFailures(outcomes, cancelled, i)
  }

  class TradeWorker {
    var log: seq<seq<Record>>
    var committed: seq<nat>
    var table: seq<Item>
    var consuming: bool
    var positions: seq<nat>
    var stored: seq<nat>
    var hand: Option<Item>
    var channel: seq<Item>
    var batch: seq<Item>
    var phase: Phase
    var acks: seq<Item>
    ghost var history: History

    ghost function State(): System
      reads this
    {
      System(log, committed, table, consuming, positions, stored, hand, channel, batch, phase, acks, history)
    }

    constructor (log: seq<seq<Record>>, committed: seq<nat>, table: seq<Item>)
      ensures State() == Fresh(log, committed, table)
    {
      this.log, this.committed, this.table := log, committed, table;
      consuming, positions, stored, hand := true, committed, committed, None;
      channel, batch, phase, acks := [], [], Gathering, [];
      history := History(|table|, [], [], 0);
    }

    /** Store every offset that waits in the offset channel; the consumer may refuse one, which is only logged. */
    method StoreOffsets(accepts: nat -> bool)
      requires consuming && hand.None?
      modifies this
      ensures acks == []
      ensures State() == Run(old(State()), Stores(accepts, old(|acks|)))
    {
      hide Run;
      ghost var s0, n := State(), |acks|;
      ghost var evs := [];
      RunNone(s0);
      var k := 0;
      while acks != []
        invariant k + |acks| == n && k == |evs| && consuming && hand.None?
        invariant evs == Stores(accepts, n)[..k] && State() == Run(s0, evs)
        decreases |acks|
      {
        var a := acks[0];
        acks := acks[1..];
        if accepts(k) {
          if a.partition < |stored| {
            stored := stored[a.partition := a.offset + 1];
          }
        }
        RunSnoc(s0, evs, StoreOffset(accepts(k)));
        evs := evs + [StoreOffset(accepts(k))];
        k := k + 1;
      }
      assert Stores(accepts, n)[..n] == Stores(accepts, n);
    }

    /** Fill the batch with what is in the trade channel. */
    method GatherBatch()
      requires phase.Gathering? && |batch| <= BATCH_SIZE
      modifies this
      ensures var n := Min(BATCH_SIZE - old(|batch|), old(|channel|));
              && batch == old(batch + channel[..n]) && channel == old(channel[n..])
              && State() == Run(old(State()), Times(Take, n))
    {
      hide Run;
      RunNone(State());
      ghost var s0, all, n := State(), channel, Min(BATCH_SIZE - |batch|, |channel|);
      ghost var evs := [];
      while |batch| < BATCH_SIZE && channel != []
        invariant |evs| <= n && evs == Times(Take, n)[..|evs|] && phase.Gathering?
        invariant batch == s0.batch + all[..|evs|] && channel == all[|evs|..]
        invariant State() == Run(s0, evs)
        decreases |channel|
      {
        RunSnoc(s0, evs, Take);
        evs := evs + [Take];
        batch := batch + [channel[0]];
        channel := channel[1..];
      }
      assert Times(Take, n)[..n] == Times(Take, n);
    }

    /** The write was acknowledged: the batch is done, and its last trade goes to the offset channel. */
    method Acknowledged()
      requires phase.Writing? && phase.attempt < MAX_RETRIES && batch != []
      modifies this
      ensures State() == Attempted(old(State()), Written)
    {
      table := table + batch;
      history := history.(saved := history.saved + [Saved(batch, history.copies + 1)], copies := 0);
      if consuming {
        acks := acks + [batch[|batch| - 1]];
      }
      batch, phase := [], Gathering;
    }

    /** One attempt to copy the batch into the table; `outcome` is how the database and the connection behave. */
    method AttemptBatch(outcome: Outcome) returns (success: bool)
      requires phase.Writing? && phase.attempt < MAX_RETRIES && batch != []
      modifies this
      ensures State() == Next(old(State()), Attempt(outcome)) && success == outcome.Written?
      ensures success ==> phase == Gathering && batch == []
      ensures success ==> acks == if consuming then old(acks + [batch[|batch| - 1]]) else old(acks)
      ensures !success ==> batch == old(batch) && acks == old(acks)
      ensures !success ==> phase == if outcome.Aborted? then Halted else Writing(old(phase.attempt) + 1)
      ensures consuming == old(consuming)
    {
      success := outcome.Written?;
      match outcome
      case Written =>
        Acknowledged();
      case Failed(answerLost) =>
        if answerLost {
          table, history := table + batch, history.(copies := history.copies + 1);
        }
        phase := Writing(phase.attempt + 1);
      case Aborted(answerLost) =>
        if answerLost {
          table, history := table + batch, history.(copies := history.copies + 1);
        }
        phase := Halted;
    }

    /** Write the batch, at most five times. `outcomes` says how each attempt would end; `cancelled` whether the worker
        is told to stop before it. The offset of the last trade is handed back only after an acknowledged write;
        otherwise the writer ends and keeps the batch. */
    method PersistBatch(outcomes: seq<Outcome>, cancelled: nat -> bool) returns (success: bool, ghost n: nat)
      requires phase.Gathering? && batch != [] && (|batch| == BATCH_SIZE || channel == [])
      requires |outcomes| == MAX_RETRIES
      modifies this
      ensures n <= MAX_RETRIES && State() == Run(old(State()), WriteEvents(outcomes[..n], success))
      ensures success <==> Succeeds(outcomes, cancelled)
      ensures AttemptsMade(outcomes, cancelled, n)
      ensures success ==> n > 0 && outcomes[n - 1].Written?
      ensures !success ==> n == MAX_RETRIES || cancelled(n) || (n > 0 && outcomes[n - 1].Aborted?)
      ensures success ==> phase == Gathering && batch == []
      ensures success ==> acks == if consuming then old(acks + [batch[|batch| - 1]]) else old(acks)
      ensures !success ==> phase == Halted && batch == old(batch) && acks == old(acks)
    {
      hide Run, Attempted, Attempts, Succeeds, AttemptsMade, OnlyFailures;
      NoneFailed(outcomes, cancelled);
      ghost var s0 := State();
      StartingToWrite(s0, outcomes);
      success, n := false, 0;
      var attempt, aborted := 0, false;
      phase := Writing(0);
      while !success && !aborted && attempt < MAX_RETRIES && !cancelled(attempt)
        invariant attempt <= n <= MAX_RETRIES && OnlyFailures(outcomes, cancelled, attempt)
        invariant success || aborted ==> n == attempt + 1 && !cancelled(attempt)
        invariant State() == Run(s0, [StartWriting] + Attempts(outcomes[..n]))
        invariant success ==> attempt < MAX_RETRIES && outcomes[attempt].Written? && !cancelled(attempt)
        invariant aborted ==> attempt < MAX_RETRIES && outcomes[attempt].Aborted?
        invariant success ==> !aborted && phase == Gathering && batch == []
        invariant success ==> acks == if consuming then s0.acks + [s0.batch[|s0.batch| - 1]] else s0.acks
        invariant consuming == s0.consuming
        invariant !success ==> batch == s0.batch && acks == s0.acks
        invariant !success && !aborted ==> phase == Writing(attempt) && n == attempt
        decreases MAX_RETRIES - n
      {
        NextAttempt(s0, outcomes, n);
        OneMoreFailed(outcomes, cancelled, attempt);
        n := n + 1;
        success := AttemptBatch(outcomes[attempt]);
        aborted := phase.Halted?;
        if !success && !aborted {
          attempt := attempt + 1;
        }
      }
      AttemptsReached(outcomes, cancelled, attempt, n);
      if !success {
        NoSuccess(outcomes, cancelled, attempt, aborted);
        RunSnoc(s0, [StartWriting] + Attempts(outcomes[..n]), EndWriting);
        phase := Halted;
      } else {
        SuccessAt(outcomes, cancelled, attempt);
        assert WriteEvents(outcomes[..n], true) == [StartWriting] + Attempts(outcomes[..n]);
      }
    }

    /** Read the next record of a partition and pass its trade on. `more` is whether the consume loop goes on at once:
        not when the record has no trade, and not while the trade channel is full and the trade stays in hand. */
    method PassOn(p: nat) returns (more: bool)
      requires consuming && hand.None? && |positions| == |log| && p < |log| && positions[p] < |log[p]|
      modifies this
      ensures State() == Next(Next(old(State()), Poll(p)), Deliver)
      ensures log == old(log) && positions == old(positions[p := positions[p] + 1])
      ensures more <==> old(log[p][positions[p]].Executed? && |channel| < TRADE_CHANNEL_CAPACITY)
      ensures more ==> consuming && hand.None?
      ensures hand.Some? ==> |channel| >= TRADE_CHANNEL_CAPACITY
      ensures |positions| == |log|
    {
      more := false;
      var o := positions[p];
      positions := positions[p := o + 1];
      match log[p][o]
      case Executed(trade) =>
        var workItem := Item(p, o, trade);
        if |channel| < TRADE_CHANNEL_CAPACITY {
          channel, history := channel + [workItem], history.(taken := history.taken + [workItem]);
          more := true;
        } else {
          hand := Some(workItem);
        }
      case Tombstone =>
      case Malformed =>
        consuming := false;
    }

    /** Nothing more is there to read next: no answer, no such partition, or one that is read to its end. */
    predicate NothingNext(answer: Option<nat>)
      reads this
    {
      answer.None? || answer.value >= |log| || answer.value >= |positions|
      || positions[answer.value] >= |log[answer.value]|
    }

    /** The record of partition `p` read last was no trade. */
    predicate NoTradeLast(p: nat)
      reads this
    {
      p < |log| && p < |positions| && 0 < positions[p] <= |log[p]| && !log[p][positions[p] - 1].Executed?
    }

    /** Read and pass on records until nothing more is there, a record has no trade, or the trade channel is full, and
        not less: the loop stops before the end of `answers` only for one of these reasons. `answers` are the partitions
        the consumer would read from next. */
    method ConsumeBurst(answers: seq<Option<nat>>) returns (ghost polled: seq<nat>)
      requires consuming && hand.None? && |positions| == |log|
      modifies this
      ensures State() == Run(old(State()), Reads(polled))
      ensures |polled| <= |answers| && forall i :: 0 <= i < |polled| ==> answers[i] == Some(polled[i])
      ensures hand.Some? ==> |channel| >= TRADE_CHANNEL_CAPACITY
      ensures |polled| < |answers| ==>
                || NothingNext(answers[|polled|])
                || (polled != [] && NoTradeLast(polled[|polled| - 1]))
                || hand.Some?
    {
      hide Run;
      ghost var s0 := State();
      RunNone(s0);
      polled := [];
      var i, more := 0, true;
      while more && i < |answers|
        invariant |polled| <= i <= |answers| && |positions| == |log|
        invariant more ==> consuming && hand.None? && i == |polled|
        invariant !more ==> || (|polled| < |answers| && NothingNext(answers[|polled|]))
                            || (polled != [] && NoTradeLast(polled[|polled| - 1])) || hand.Some?
        invariant State() == Run(s0, Reads(polled))
        invariant forall j :: 0 <= j < |polled| ==> answers[j] == Some(polled[j])
        invariant hand.Some? ==> |channel| >= TRADE_CHANNEL_CAPACITY
        decreases |answers| - i
      {
        if answers[i].None? {
          more := false;
        } else {
          var p := answers[i].value;
          if p >= |log| || positions[p] >= |log[p]| {
            more := false;
          } else {
            NextRead(s0, polled, p);
            polled := polled + [p];
            more := PassOn(p);
          }
        }
        i := i + 1;
      }
    }

    /** The end of the consume loop, when the worker is told to stop: the trade in hand is given up. */
    method Close()
      modifies this
      ensures State() == Next(old(State()), EndConsuming)
    {
      consuming, hand := false, None;
    }
  }

  lemma RunNone(s: System)
    ensures Run(s, []) == s
  {
  }

  lemma StartingToWrite(s: System, outcomes: seq<Outcome>)
    ensures Run(s, [StartWriting] + Attempts(outcomes[..0])) == Next(s, StartWriting)
  {
    assert [StartWriting] + Attempts(outcomes[..0]) == [] + [StartWriting];
    RunSnoc(s, [], StartWriting);
  }

  lemma NextRead(s: System, polled: seq<nat>, p: nat)
    ensures Run(s, Reads(polled + [p])) == Next(Next(Run(s, Reads(polled)), Poll(p)), Deliver)
  {
    assert (polled + [p])[..|polled|] == polled;
    RunSnoc(s, Reads(polled), Poll(p));
    RunSnoc(s, Reads(polled) + [Poll(p)], Deliver);
  }

  lemma NextAttempt(s: System, outcomes: seq<Outcome>, n: nat)
    requires n < |outcomes|
    ensures Run(s, [StartWriting] + Attempts(outcomes[..n + 1]))
         == Next(Run(s, [StartWriting] + Attempts(outcomes[..n])), Attempt(outcomes[n]))
  {
    assert [StartWriting] + Attempts(outcomes[..n + 1])
        == ([StartWriting] + Attempts(outcomes[..n])) + [Attempt(outcomes[n])];
    RunSnoc(s, [StartWriting] + Attempts(outcomes[..n]), Attempt(outcomes[n]));
  }

  lemma NoneFailed(outcomes: seq<Outcome>, cancelled: nat -> bool)
    ensures OnlyFailures(outcomes, cancelled, 0)
  {
  }

  lemma OneMoreFailed(outcomes: seq<Outcome>, cancelled: nat -> bool, n: nat)
    requires OnlyFailures(outcomes, cancelled, n) && n < |outcomes| && !cancelled(n)
    ensures outcomes[n].Failed? ==> OnlyFailures(outcomes, cancelled, n + 1)
  {
  }

  lemma AttemptsReached(outcomes: seq<Outcome>, cancelled: nat -> bool, attempt: nat, n: nat)
    requires OnlyFailures(outcomes, cancelled, attempt)
    requires n == attempt || (n == attempt + 1 && attempt < |outcomes| && !cancelled(attempt))
    ensures AttemptsMade(outcomes, cancelled, n)
  {
  }

  lemma SuccessAt(outcomes: seq<Outcome>, cancelled: nat -> bool, attempt: nat)
    requires attempt < MAX_RETRIES && OnlyFailures(outcomes, cancelled, attempt)
    requires attempt < |outcomes| && outcomes[attempt].Written? && !cancelled(attempt)
    ensures Succeeds(outcomes, cancelled)
  {
  }

  lemma NoSuccess(outcomes: seq<Outcome>, cancelled: nat -> bool, attempt: nat, aborted: bool)
    requires |outcomes| == MAX_RETRIES && OnlyFailures(outcomes, cancelled, attempt)
    requires if aborted then attempt < MAX_RETRIES && outcomes[attempt].Aborted?
             else attempt == MAX_RETRIES || cancelled(attempt)
    ensures !Succeeds(outcomes, cancelled)
  {
  }
}
