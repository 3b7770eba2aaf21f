/** The transport send queue: sends are buffered, and a loop gives everything buffered to the
    transport as one piece whenever it wakes up. */
module SendQueue {
  import opened Sums

  /** A string or an array buffer. */
  datatype Data = Text(chars: string) | Binary(bytes: seq<bv8>)

  predicate SameType(x: Data, y: Data) {
    x.Text? == y.Text?
  }

  predicate OneType(items: seq<Data>) {
    forall k :: 0 <= k < |items| ==> SameType(items[0], items[k])
  }

  predicate AllText(items: seq<Data>) {
    forall k :: 0 <= k < |items| ==> items[k].Text?
  }

  predicate AllBinary(items: seq<Data>) {
    forall k :: 0 <= k < |items| ==> items[k].Binary?
  }

  function JoinText(items: seq<Data>): string
    requires AllText(items)
  {
    if items == [] then "" else items[0].chars + JoinText(items[1..])
  }

  function JoinBinary(items: seq<Data>): seq<bv8>
    requires AllBinary(items)
  {
    if items == [] then [] else items[0].bytes + JoinBinary(items[1..])
  }

  /** The single piece of data made of one batch. */
  function Join(items: seq<Data>): Data
    requires items != [] && OneType(items)
  {
    if items[0].Text? then Text(JoinText(items)) else Binary(JoinBinary(items))
  }

  lemma FirstOf<T>(xs: seq<T>, ys: seq<T>)
    requires xs != []
    ensures (xs + ys)[0] == xs[0] && (xs + ys)[1..] == xs[1..] + ys
  {
  }

  /** Joining keeps the order: each item's own characters, one item behind the other. */
  lemma {:induction false} JoinTextConcat(xs: seq<Data>, ys: seq<Data>)
    requires AllText(xs) && AllText(ys)
    ensures AllText(xs + ys) && JoinText(xs + ys) == JoinText(xs) + JoinText(ys)
    decreases |xs|
  {
    if xs == [] {
      assert xs + ys == ys;
    } else {
      FirstOf(xs, ys);
      JoinTextConcat(xs[1..], ys);
      ConcatAssoc(xs[0].chars, JoinText(xs[1..]), JoinText(ys));
    }
  }

  lemma {:induction false} JoinBinaryConcat(xs: seq<Data>, ys: seq<Data>)
    requires AllBinary(xs) && AllBinary(ys)
    ensures AllBinary(xs + ys) && JoinBinary(xs + ys) == JoinBinary(xs) + JoinBinary(ys)
    decreases |xs|
  {
    if xs == [] {
      assert xs + ys == ys;
    } else {
      FirstOf(xs, ys);
      JoinBinaryConcat(xs[1..], ys);
      ConcatAssoc(xs[0].bytes, JoinBinary(xs[1..]), JoinBinary(ys));
    }
  }

  lemma JoinOne(d: Data)
    ensures d.Text? ==> JoinText([d]) == d.chars
    ensures d.Binary? ==> JoinBinary([d]) == d.bytes
  {
    assert [d][1..] == [];
  }

  /** A buffered send and the promise it returned. */
  datatype Entry = Entry(data: Data, promise: nat)

  /** One call of the transport: the sends it carried, and the promise it settles. */
  datatype Batch = Batch(entries: seq<Entry>, promise: nat)

  datatype Phase = Waiting | Sending | Finished

  /** No promise, as the field is undefined between a wake-up and the next send. */
  datatype MaybePromise = NoPromise | ThePromise(id: nat)

  /** `signalled` says that the wake-up promise is resolved. `given` is the history of transport calls, of which
      the last one is still open while sending; `accepted` is the history of sends; `results` says how the
      finished calls ended; `outcomes` says how promises were settled. */
  datatype Queue = Queue(
    buffer: seq<Entry>,
    executing: bool,
    signalled: bool,
    transportResult: MaybePromise,
    nextPromise: nat,
    phase: Phase,
    accepted: seq<Entry>,
    given: seq<Batch>,
    results: seq<bool>,
    outcomes: map<nat, bool>)

  function NewQueue(): Queue {
    Queue([], true, false, ThePromise(0), 1, Waiting, [], [], [], map[])
  }

  function Datas(entries: seq<Entry>): (r: seq<Data>)
    ensures |r| == |entries| && forall k :: 0 <= k < |r| ==> r[k] == entries[k].data
  {
    seq(|entries|, k requires 0 <= k < |entries| => entries[k].data)
  }

  predicate Accepts(q: Queue, d: Data) {
    q.buffer == [] || SameType(q.buffer[0].data, d)
  }

  /** A send of another type than what is buffered throws and changes nothing. */
  function Sent(q: Queue, d: Data): Queue {
    if !Accepts(q, d) then q
    else
      var p := if q.transportResult.ThePromise? then q.transportResult.id else q.nextPromise;
      q.(buffer := q.buffer + [Entry(d, p)],
         accepted := q.accepted + [Entry(d, p)],
         signalled := true,
         nextPromise := if q.transportResult.ThePromise? then q.nextPromise else q.nextPromise + 1,
         transportResult := ThePromise(p))
  }

  function Stopped(q: Queue): Queue {
    q.(executing := false, signalled := true)
  }

  predicate CanWake(q: Queue) {
    q.phase == Waiting && q.signalled
  }

  /** The loop wakes up: it ends if the queue was stopped, and otherwise gives the buffer to the transport. */
  function Woken(q: Queue): Queue
    requires CanWake(q) && q.executing ==> q.transportResult.ThePromise?
  {
    if !CanWake(q) then q
    else if !q.executing then
      q.(phase := Finished,
         outcomes := if q.transportResult.ThePromise? then q.outcomes[q.transportResult.id := false] else q.outcomes)
    else
      q.(signalled := false,
         transportResult := NoPromise,
         given := q.given + [Batch(q.buffer, q.transportResult.id)],
         buffer := [],
         phase := Sending)
  }

  /** The transport call ends. */
  function Settled(q: Queue, ok: bool): Queue
    requires q.phase == Sending ==> q.given != []
  {
    if q.phase != Sending then q
    else
      q.(phase := Waiting, results := q.results + [ok], outcomes := q.outcomes[q.given[|q.given| - 1].promise := ok])
  }

  // ---------- The invariant ----------

  function Flatten(batches: seq<Batch>): seq<Entry> {
    if batches == [] then [] else batches[0].entries + Flatten(batches[1..])
  }

  lemma {:induction false} FlattenSnoc(batches: seq<Batch>, b: Batch)
    ensures Flatten(batches + [b]) == Flatten(batches) + b.entries
  {
    if batches == [] {
      assert [b][1..] == [];
      assert batches + [b] == [b];
    } else {
      assert (batches + [b])[1..] == batches[1..] + [b];
      FlattenSnoc(batches[1..], b);
    }
  }

  /** A batch is what the transport can be given: some sends, of one type, that all returned its promise. */
  predicate GoodBatch(b: Batch) {
    && b.entries != [] && OneType(Datas(b.entries))
    && forall k :: 0 <= k < |b.entries| ==> b.entries[k].promise == b.promise
  }

  /** Promises of transport calls grow, so no two calls share one; the pending one is newer than all of them. */
  predicate Numbered(q: Queue) {
    && (forall i, j :: 0 <= i < j < |q.given| ==> q.given[i].promise < q.given[j].promise)
    && (forall i :: 0 <= i < |q.given| ==> q.given[i].promise < q.nextPromise)
    && (forall p :: p in q.outcomes ==> p < q.nextPromise)
    && (q.transportResult.ThePromise? ==>
          && q.transportResult.id < q.nextPromise
          && forall i :: 0 <= i < |q.given| ==> q.given[i].promise < q.transportResult.id)
  }

  /** A promise is resolved only by the successful transport call that carried its data. */
  predicate SettledByCalls(q: Queue) {
    && |q.results| == (if q.phase == Sending then |q.given| - 1 else |q.given|)
    && (forall p :: p in q.outcomes && q.outcomes[p] ==>
          exists i :: 0 <= i < |q.results| && q.results[i] && q.given[i].promise == p)
    && (forall i :: 0 <= i < |q.results| ==> q.given[i].promise in q.outcomes
                                             && q.outcomes[q.given[i].promise] == q.results[i])
  }

  /** Buffered data always has a wake-up pending while the loop runs, and a wake-up always finds data. */
  predicate Awake(q: Queue) {
    && (q.buffer != [] ==> q.transportResult.ThePromise?)
    && (q.buffer != [] && q.phase != Finished ==> q.signalled)
    && (q.signalled && q.executing ==> q.buffer != [])
    && (!q.executing ==> q.signalled)
    && (q.executing ==> q.phase != Finished)
  }

  predicate Valid(q: Queue) {
    && q.accepted == Flatten(q.given) + q.buffer
    && (forall i :: 0 <= i < |q.given| ==> GoodBatch(q.given[i]))
    && (q.buffer != [] ==> q.transportResult.ThePromise? && GoodBatch(Batch(q.buffer, q.transportResult.id)))
    && Numbered(q) && SettledByCalls(q) && Awake(q)
    && (q.phase == Sending ==> q.given != [])
  }

  lemma NewQueueValid()
    ensures Valid(NewQueue())
  {
  }

  /** The new entry joins the batch that the pending promise stands for. */
  lemma SendJoins(q: Queue, d: Data)
    requires Valid(q) && Accepts(q, d)
    ensures var q' := Sent(q, d);
            && q'.transportResult.ThePromise? && q'.accepted == Flatten(q'.given) + q'.buffer
            && GoodBatch(Batch(q'.buffer, q'.transportResult.id))
  {
    hide Numbered, SettledByCalls;
    var q' := Sent(q, d);
    var p := q'.transportResult.id;
    assert Flatten(q.given) + (q.buffer + [Entry(d, p)]) == (Flatten(q.given) + q.buffer) + [Entry(d, p)];
    hide Flatten, Awake;
    if q.buffer == [] {
      assert Datas(q'.buffer) == [d];
    }
  }

  lemma SendNumbers(q: Queue, d: Data)
    requires Numbered(q) && SettledByCalls(q) && (q.buffer != [] ==> q.transportResult.ThePromise?)
    ensures Numbered(Sent(q, d)) && SettledByCalls(Sent(q, d))
  {
  }

  lemma SendValid(q: Queue, d: Data)
    requires Valid(q)
    ensures Valid(Sent(q, d))
  {
    if Accepts(q, d) {
      SendJoins(q, d);
      SendNumbers(q, d);
      hide Flatten, GoodBatch, Numbered, SettledByCalls;
    }
  }

  predicate OfItsType(buffer: seq<Entry>, d: Data) {
    forall k :: 0 <= k < |buffer| ==> buffer[k].data.Text? == d.Text?
  }

  lemma SentFields(q: Queue, d: Data)
    ensures Accepts(q, d) <==> q.buffer == [] || SameType(q.buffer[0].data, d)
    ensures !Accepts(q, d) ==> Sent(q, d) == q
    ensures Accepts(q, d) ==>
              var p := if q.transportResult != NoPromise then q.transportResult.id else q.nextPromise;
              Sent(q, d) ==
              Queue(q.buffer + [Entry(d, p)], q.executing, true, ThePromise(p),
                    if q.transportResult == NoPromise then q.nextPromise + 1 else q.nextPromise,
                    q.phase, q.accepted + [Entry(d, p)], q.given, q.results, q.outcomes)
  {
  }

  /** A send is accepted exactly if everything in the buffer is of its type. */
  lemma AcceptsExactly(q: Queue, d: Data)
    requires Valid(q)
    ensures Accepts(q, d) <==> OfItsType(q.buffer, d)
  {
    hide Flatten, Numbered, SettledByCalls, Awake;
    assert forall k :: 0 <= k < |q.buffer| ==> Datas(q.buffer)[k] == q.buffer[k].data;
  }

  lemma StopValid(q: Queue)
    requires Valid(q)
    ensures Valid(Stopped(q))
  {
  }

  /** A stopped loop that has not ended wakes up, at once or when its transport call ends, and then ends. */
  lemma StopEnds(q: Queue, ok: bool)
    requires Valid(q) && q.phase != Finished
    ensures var idle := Settled(Stopped(q), ok); CanWake(idle) && !idle.executing && Woken(idle).phase == Finished
  {
  }

  lemma SettleSettles(q: Queue, ok: bool)
    requires q.phase == Sending && q.given != [] && Numbered(q) && SettledByCalls(q)
    ensures SettledByCalls(Settled(q, ok))
  {
    var n, q' := |q.given| - 1, Settled(q, ok);
    var last := q.given[n].promise;
    assert forall i :: 0 <= i < n ==> q.given[i].promise != last;
    assert q'.results[n] == ok && forall i :: 0 <= i < n ==> q'.results[i] == q.results[i];
    forall p | p in q'.outcomes && q'.outcomes[p]
      ensures exists i :: 0 <= i < |q'.results| && q'.results[i] && q'.given[i].promise == p
    {
      if p != last {
        var i :| 0 <= i < |q.results| && q.results[i] && q.given[i].promise == p;
        assert q'.results[i];
      }
    }
  }

  /** Every send the finished call carried is resolved or rejected as the call went, and no other promise is touched. */
  lemma SettlesItsSends(q: Queue, ok: bool)
    requires Valid(q) && q.phase == Sending
    ensures var q', last := Settled(q, ok), q.given[|q.given| - 1];
            && q'.results == q.results + [ok]
            && (forall e :: e in last.entries ==> e.promise in q'.outcomes && q'.outcomes[e.promise] == ok)
            && (forall p :: p in q.outcomes && p != last.promise ==>
                  p in q'.outcomes && q'.outcomes[p] == q.outcomes[p])
            && (forall p :: p in q'.outcomes && p !in q.outcomes ==> p == last.promise)
  {
    var last := q.given[|q.given| - 1];
    assert GoodBatch(last);
    hide Flatten, SettledByCalls, Numbered, OneType;
    forall e | e in last.entries ensures e.promise == last.promise {
      var k :| 0 <= k < |last.entries| && last.entries[k] == e;
    }
  }

  lemma SettleValid(q: Queue, ok: bool)
    requires Valid(q)
    ensures Valid(Settled(q, ok))
  {
    if q.phase == Sending {
      SettleSettles(q, ok);
      hide Flatten, GoodBatch, SettledByCalls;
    }
  }

  lemma WakeSettles(q: Queue)
    requires Valid(q) && CanWake(q) && !q.executing
    ensures SettledByCalls(Woken(q))
  {
    var q' := Woken(q);
    forall p | p in q'.outcomes && q'.outcomes[p]
      ensures exists i :: 0 <= i < |q'.results| && q'.results[i] && q'.given[i].promise == p
    {
      var i :| 0 <= i < |q.results| && q.results[i] && q.given[i].promise == p;
      assert q'.results[i];
    }
  }

  /** The transport is given the buffer: one more batch, behind all others. */
  lemma WakeGives(q: Queue)
    requires Valid(q) && CanWake(q) && q.executing
    ensures q.transportResult.ThePromise?
    ensures var q' := Woken(q);
            && q'.accepted == Flatten(q'.given) + q'.buffer && Numbered(q')
            && (forall i :: 0 <= i < |q'.given| ==> GoodBatch(q'.given[i]))
  {
    hide SettledByCalls;
    var q' := Woken(q);
    FlattenSnoc(q.given, Batch(q.buffer, q.transportResult.id));
    hide Flatten, GoodBatch;
    assert Flatten(q'.given) + q'.buffer == q.accepted;
  }

  /** The calls that have ended are the same as before. */
  lemma WakeKeepsSettled(q: Queue)
    requires Valid(q) && CanWake(q) && q.executing
    ensures q.transportResult.ThePromise? && SettledByCalls(Woken(q))
  {
    hide Flatten, GoodBatch, Numbered;
    var q' := Woken(q);
    forall p | p in q'.outcomes && q'.outcomes[p]
      ensures exists i :: 0 <= i < |q'.results| && q'.results[i] && q'.given[i].promise == p
    {
      var i :| 0 <= i < |q.results| && q.results[i] && q.given[i].promise == p;
      assert q'.results[i] && q'.given[i] == q.given[i];
    }
  }

  lemma WakeValid(q: Queue)
    requires Valid(q)
    ensures CanWake(q) && q.executing ==> q.transportResult.ThePromise?
    ensures Valid(Woken(q))
  {
    if CanWake(q) {
      if q.executing {
        WakeGives(q);
        WakeKeepsSettled(q);
      } else {
        WakeSettles(q);
      }
    }
    hide Flatten, GoodBatch, SettledByCalls;
  }

  // ---------- Runs ----------

  datatype Event = DoSend(d: Data) | DoStop | DoWake | DoSettle(ok: bool)

  function Next(q: Queue, ev: Event): Queue
    requires Valid(q)
  {
    match ev
    case DoSend(d) => Sent(q, d)
    case DoStop => Stopped(q)
    case DoWake => WakeValid(q); Woken(q)
    case DoSettle(ok) => Settled(q, ok)
  }

  lemma NextValid(q: Queue, ev: Event)
    requires Valid(q)
    ensures Valid(Next(q, ev))
  {
    hide Valid;
    match ev
    case DoSend(d) => SendValid(q, d);
    case DoStop => StopValid(q);
    case DoWake => WakeValid(q);
    case DoSettle(ok) => SettleValid(q, ok);
  }

  function Run(q: Queue, evs: seq<Event>): (r: Queue)
    requires Valid(q)
    ensures Valid(r)
    decreases evs
  {
    if evs == [] then q
    else
      NextValid(q, evs[0]);
      Run(Next(q, evs[0]), evs[1..])
  }

  /** Everything the transport was ever given, in order. */
  function Delivered(q: Queue): seq<Entry> {
    Flatten(q.given)
  }

  /** For every interleaving of sends, stops, wake-ups and ends of transport calls: what the transport was given is
      a prefix of what was sent, in order and cut into batches of one type; what is missing is the buffer; and
      while the loop runs, a buffer with data has a wake-up pending. */
  lemma InOrderPrefix(evs: seq<Event>)
    ensures Valid(NewQueue())
    ensures var q := Run(NewQueue(), evs);
            && Delivered(q) <= q.accepted && q.accepted[|Delivered(q)|..] == q.buffer
            && (forall i :: 0 <= i < |q.given| ==> GoodBatch(q.given[i]))
            && (q.buffer != [] && q.phase != Finished ==> q.signalled)
  {
    NewQueueValid();
    var q := Run(NewQueue(), evs);
    hide Run, GoodBatch, SettledByCalls, Numbered;
    assert q.accepted[|Delivered(q)|..] == q.buffer;
  }

  // ---------- What the transport is called with ----------

  function CallOf(b: Batch): Data
    requires GoodBatch(b)
  {
    Join(Datas(b.entries))
  }

  /** The data of each transport call, in order. */
  function Calls(batches: seq<Batch>): (r: seq<Data>)
    requires forall i :: 0 <= i < |batches| ==> GoodBatch(batches[i])
    ensures |r| == |batches| && forall i :: 0 <= i < |r| ==> r[i] == CallOf(batches[i])
  {
    seq(|batches|, i requires 0 <= i < |batches| => CallOf(batches[i]))
  }

  /** The data of the sends in a run, in order. */
  function SentData(evs: seq<Event>): seq<Data> {
    if evs == [] then [] else (if evs[0].DoSend? then [evs[0].d] else []) + SentData(evs[1..])
  }

  lemma SentDataFirst(evs: seq<Event>)
    requires evs != []
    ensures SentData(evs) == SentData([evs[0]]) + SentData(evs[1..])
  {
    assert [evs[0]][1..] == [];
    assert SentData([evs[0]]) == (if evs[0].DoSend? then [evs[0].d] else []);
  }

  lemma DatasConcat(xs: seq<Entry>, ys: seq<Entry>)
    ensures Datas(xs + ys) == Datas(xs) + Datas(ys)
  {
  }

  lemma SplitFirst(batches: seq<Batch>)
    requires batches != [] && forall i :: 0 <= i < |batches| ==> GoodBatch(batches[i])
    ensures Datas(Flatten(batches)) == Datas(batches[0].entries) + Datas(Flatten(batches[1..]))
    ensures Calls(batches) == [CallOf(batches[0])] + Calls(batches[1..])
  {
    DatasConcat(batches[0].entries, Flatten(batches[1..]));
    hide GoodBatch, CallOf;
  }

  lemma BothText(xs: seq<Data>, ys: seq<Data>)
    requires AllText(xs + ys)
    ensures AllText(xs) && AllText(ys)
  {
    assert (xs + ys)[..|xs|] == xs && (xs + ys)[|xs|..] == ys;
  }

  lemma BothBinary(xs: seq<Data>, ys: seq<Data>)
    requires AllBinary(xs + ys)
    ensures AllBinary(xs) && AllBinary(ys)
  {
    assert (xs + ys)[..|xs|] == xs && (xs + ys)[|xs|..] == ys;
  }

  lemma {:induction false} CallsJoinText(batches: seq<Batch>)
    requires forall i :: 0 <= i < |batches| ==> GoodBatch(batches[i])
    requires AllText(Datas(Flatten(batches)))
    ensures AllText(Calls(batches)) && JoinText(Calls(batches)) == JoinText(Datas(Flatten(batches)))
    decreases |batches|
  {
    if batches != [] {
      var first, rest := Datas(batches[0].entries), Datas(Flatten(batches[1..]));
      SplitFirst(batches);
      BothText(first, rest);
      var call := CallOf(batches[0]);
      assert call == Text(JoinText(first));
      hide Flatten, Calls, Datas, GoodBatch, CallOf;
      CallsJoinText(batches[1..]);
      JoinTextConcat(first, rest);
      JoinTextConcat([call], Calls(batches[1..]));
      JoinOne(call);
    }
  }

  lemma {:induction false} CallsJoinBinary(batches: seq<Batch>)
    requires forall i :: 0 <= i < |batches| ==> GoodBatch(batches[i])
    requires AllBinary(Datas(Flatten(batches)))
    ensures AllBinary(Calls(batches)) && JoinBinary(Calls(batches)) == JoinBinary(Datas(Flatten(batches)))
    decreases |batches|
  {
    if batches != [] {
      var first, rest := Datas(batches[0].entries), Datas(Flatten(batches[1..]));
      SplitFirst(batches);
      BothBinary(first, rest);
      var call := CallOf(batches[0]);
      assert call == Binary(JoinBinary(first));
      hide Flatten, Calls, Datas, GoodBatch, CallOf;
      CallsJoinBinary(batches[1..]);
      JoinBinaryConcat(first, rest);
      JoinBinaryConcat([call], Calls(batches[1..]));
      JoinOne(call);
    }
  }

  lemma AcceptedNext(q: Queue, ev: Event)
    requires Valid(q) && OneType(Datas(q.accepted) + SentData([ev]))
    ensures Datas(Next(q, ev).accepted) == Datas(q.accepted) + SentData([ev])
  {
    assert [ev][1..] == [];
    if ev.DoSend? {
      var all := Datas(q.accepted) + [ev.d];
      assert SentData([ev]) == [ev.d] && all[|q.accepted|] == ev.d;
      if q.buffer != [] {
        var k := |Flatten(q.given)|;
        assert q.accepted[k] == q.buffer[0];
        assert all[k] == q.buffer[0].data;
      }
      DatasConcat(q.accepted, [Entry(ev.d, Sent(q, ev.d).transportResult.id)]);
    }
  }

  /** While all data is of one type every send is accepted: the history of sends holds the data sent, in order. */
  lemma {:induction false} AcceptedIsSent(q: Queue, evs: seq<Event>)
    requires Valid(q) && OneType(Datas(q.accepted) + SentData(evs))
    ensures Datas(Run(q, evs).accepted) == Datas(q.accepted) + SentData(evs)
    decreases evs
  {
    hide Valid, Next;
    if evs != [] {
      var now, later := SentData([evs[0]]), SentData(evs[1..]);
      SentDataFirst(evs);
      assert Datas(q.accepted) + SentData(evs) == (Datas(q.accepted) + now) + later;
      var all := Datas(q.accepted) + SentData(evs);
      assert all[..|q.accepted| + |now|] == Datas(q.accepted) + now;
      AcceptedNext(q, evs[0]);
      NextValid(q, evs[0]);
      AcceptedIsSent(Next(q, evs[0]), evs[1..]);
    }
  }

  /** For every interleaving of text sends: the data of all transport calls, one behind the other, is the text sent so
      far, in order, up to what is still in the buffer. */
  lemma TextInOrder(evs: seq<Event>)
    requires AllText(SentData(evs))
    ensures Valid(NewQueue())
    ensures var q := Run(NewQueue(), evs);
            && AllText(Calls(q.given)) && AllText(Datas(q.buffer))
            && JoinText(SentData(evs)) == JoinText(Calls(q.given)) + JoinText(Datas(q.buffer))
  {
    NewQueueValid();
    AcceptedIsSent(NewQueue(), evs);
    var q := Run(NewQueue(), evs);
    assert Datas(q.accepted) == SentData(evs);
    DatasConcat(Flatten(q.given), q.buffer);
    hide Run, Numbered, SettledByCalls, Awake, Flatten;
    var given, left := Datas(Flatten(q.given)), Datas(q.buffer);
    assert given == SentData(evs)[..|given|] && left == SentData(evs)[|given|..];
    CallsJoinText(q.given);
    JoinTextConcat(given, left);
  }

  lemma BinaryInOrder(evs: seq<Event>)
    requires AllBinary(SentData(evs))
    ensures Valid(NewQueue())
    ensures var q := Run(NewQueue(), evs);
            && AllBinary(Calls(q.given)) && AllBinary(Datas(q.buffer))
            && JoinBinary(SentData(evs)) == JoinBinary(Calls(q.given)) + JoinBinary(Datas(q.buffer))
  {
    NewQueueValid();
    AcceptedIsSent(NewQueue(), evs);
    var q := Run(NewQueue(), evs);
    assert Datas(q.accepted) == SentData(evs);
    DatasConcat(Flatten(q.given), q.buffer);
    hide Run, Numbered, SettledByCalls, Awake, Flatten;
    var given, left := Datas(Flatten(q.given)), Datas(q.buffer);
    assert given == SentData(evs)[..|given|] && left == SentData(evs)[|given|..];
    CallsJoinBinary(q.given);
    JoinBinaryConcat(given, left);
  }

  lemma {:induction false} InFlatten(batches: seq<Batch>, e: Entry)
    requires e in Flatten(batches)
    ensures exists i :: 0 <= i < |batches| && e in batches[i].entries
  {
    if e in batches[0].entries {
    } else {
      InFlatten(batches[1..], e);
      var i :| 0 <= i < |batches[1..]| && e in batches[1..][i].entries;
      assert e in batches[i + 1].entries;
    }
  }

  /** If the promise of a send is resolved, then the send was carried by a transport call that succeeded. */
  lemma ResolvedWasCarried(evs: seq<Event>, e: Entry)
    requires Valid(NewQueue())
    requires var q := Run(NewQueue(), evs); e in q.accepted && e.promise in q.outcomes && q.outcomes[e.promise]
    ensures var q := Run(NewQueue(), evs);
            exists i :: 0 <= i < |q.results| && q.results[i] && e in q.given[i].entries
  {
    var q := Run(NewQueue(), evs);
    hide Run, OneType;
    var i :| 0 <= i < |q.results| && q.results[i] && q.given[i].promise == e.promise;
    if e in q.buffer {
      assert false;
    }
    InFlatten(q.given, e);
    var j :| 0 <= j < |q.given| && e in q.given[j].entries;
    assert GoodBatch(q.given[j]);
  }

  lemma EndedNext(q: Queue, ev: Event)
    requires Valid(q) && q.phase == Finished
    ensures var q' := Next(q, ev);
            q'.phase == Finished && q'.outcomes == q.outcomes && q'.given == q.given
  {
  }

  /** Once the loop has ended nothing is given to the transport and no promise is settled any more. */
  lemma {:induction false} EndedForever(q: Queue, evs: seq<Event>)
    requires Valid(q) && q.phase == Finished
    ensures Run(q, evs).outcomes == q.outcomes && Run(q, evs).given == q.given
    decreases evs
  {
    hide Valid;
    if evs != [] {
      NextValid(q, evs[0]);
      EndedNext(q, evs[0]);
      hide Next;
      EndedForever(Next(q, evs[0]), evs[1..]);
    }
  }

  /** A send after the loop has ended gets a promise that is ever settled exactly when a promise was pending at the
      wake-up that ended the loop; it is then the rejected one. Otherwise the send waits for ever. */
  lemma LateSend(q: Queue, d: Data, evs: seq<Event>)
    requires Valid(q) && CanWake(q) && !q.executing && Accepts(q, d)
    ensures var late := Sent(Woken(q), d);
            && Valid(late) && late.transportResult.ThePromise?
            && (late.transportResult.id in Run(late, evs).outcomes <==> q.transportResult.ThePromise?)
            && (q.transportResult.ThePromise? ==> !late.outcomes[late.transportResult.id])
  {
    WakeValid(q);
    SendValid(Woken(q), d);
    EndedForever(Sent(Woken(q), d), evs);
    hide Flatten, GoodBatch, SettledByCalls, Run;
  }

  lemma RunStep(q: Queue, evs: seq<Event>)
    requires Valid(q) && evs != []
    ensures Valid(Next(q, evs[0])) && Run(q, evs) == Run(Next(q, evs[0]), evs[1..])
  {
    NextValid(q, evs[0]);
    hide Valid, Next;
  }

  lemma RunEnd(q: Queue, evs: seq<Event>)
    requires Valid(q) && evs == []
    ensures Run(q, evs) == q
  {
    hide Valid;
  }

  /** A run that ends in a state where a late send waits for ever: the queue is stopped while the transport call
      is open, and no send comes in between. */
  lemma LateSendExample(d: Data)
    ensures Valid(NewQueue())
    ensures var q := Run(NewQueue(), [DoSend(d), DoWake, DoStop, DoSettle(true)]);
            CanWake(q) && !q.executing && q.transportResult == NoPromise && Accepts(q, d)
  {
    NewQueueValid();
    hide Valid, Run;
    var evs := [DoSend(d), DoWake, DoStop, DoSettle(true)];
    var q := NewQueue();
    RunStep(q, evs);
    q := Sent(q, d);
    assert evs[1..][0] == DoWake;
    RunStep(q, evs[1..]);
    q := Woken(q);
    assert q.phase == Sending && evs[1..][1..][0] == DoStop;
    RunStep(q, evs[1..][1..]);
    q := Stopped(q);
    assert evs[1..][1..][1..][0] == DoSettle(true);
    RunStep(q, evs[1..][1..][1..]);
    q := Settled(q, true);
    RunEnd(q, evs[1..][1..][1..][1..]);
  }

  // ---------- The queue object ----------

  lemma {:induction false} JoinBinaryPrefix(items: seq<Data>, k: nat)
    requires k <= |items| && AllBinary(items)
    ensures |JoinBinary(items[..k])| <= |JoinBinary(items)|
    ensures k < |items| ==> JoinBinary(items[..k + 1]) == JoinBinary(items[..k]) + items[k].bytes
    decreases |items| - k
  {
    if k < |items| {
      assert items[..k + 1] == items[..k] + [items[k]];
      JoinBinaryConcat(items[..k], [items[k]]);
      JoinOne(items[k]);
      JoinBinaryPrefix(items, k + 1);
    } else {
      assert items[..k] == items;
    }
  }

  /** Copy the buffers one behind the other into one array. */
  method ConcatBuffers(items: seq<Data>) returns (result: array<bv8>)
    requires AllBinary(items)
    ensures fresh(result) && result[..] == JoinBinary(items)
  {
    assert JoinBinary(items[..0]) == [];
    hide JoinBinary;
    var totalLength := 0;
    var i := 0;
    while i < |items|
      invariant 0 <= i <= |items| && totalLength == |JoinBinary(items[..i])|
    {
      JoinBinaryPrefix(items, i);
      totalLength := totalLength + |items[i].bytes|;
      i := i + 1;
    }
    assert items[..i] == items;
    result := new bv8[totalLength](_ => 0);
    var offset := 0;
    i := 0;
    while i < |items|
      invariant 0 <= i <= |items| && result.Length == |JoinBinary(items)| && fresh(result)
      invariant offset == |JoinBinary(items[..i])| <= result.Length
      invariant result[..offset] == JoinBinary(items[..i])
    {
      JoinBinaryPrefix(items, i);
      JoinBinaryPrefix(items, i + 1);
      var bytes := items[i].bytes;
      forall k | 0 <= k < |bytes| {
        result[offset + k] := bytes[k];
      }
      assert result[..offset + |bytes|] == JoinBinary(items[..i]) + bytes;
      offset := offset + |bytes|;
      i := i + 1;
    }
    assert items[..i] == items && result[..offset] == result[..];
  }

  /** Join strings. */
  method JoinStrings(items: seq<Data>) returns (result: string)
    requires AllText(items)
    ensures result == JoinText(items)
  {
    result := "";
    var i := |items|;
    while i > 0
      invariant 0 <= i <= |items| && result == JoinText(items[i..])
    {
      i := i - 1;
      assert items[i..][1..] == items[i + 1..];
      result := items[i].chars + result;
    }
  }

  method JoinItems(items: seq<Data>) returns (data: Data)
    requires items != [] && OneType(items)
    ensures data == Join(items)
  {
    if items[0].Text? {
      var text := JoinStrings(items);
      data := Text(text);
    } else {
      var bytes := ConcatBuffers(items);
      data := Binary(bytes[..]);
    }
  }

  /** What a wake-up calls the transport with. */
  function WokenCalls(q: Queue): seq<Data>
    requires Valid(q)
  {
    if CanWake(q) && q.executing then BufferOneType(q); [Join(Datas(q.buffer))] else []
  }

  lemma BufferOneType(q: Queue)
    requires Valid(q)
    ensures q.buffer != [] ==> OneType(Datas(q.buffer))
    ensures CanWake(q) && q.executing ==> q.buffer != [] && q.transportResult.ThePromise?
  {
  }

  /** The calls made are the calls of the history. */
  lemma WokenCallsGiven(q: Queue)
    requires Valid(q)
    ensures CanWake(q) && q.executing ==> q.transportResult.ThePromise?
    ensures Valid(Woken(q)) && Calls(Woken(q).given) == Calls(q.given) + WokenCalls(q)
  {
    WakeValid(q);
    BufferOneType(q);
    hide Flatten, SettledByCalls, Numbered, Join, OneType;
  }

  /** The transport below: it is given one piece of data a call. */
  class Transport {
    var calls: seq<Data>

    constructor ()
      ensures calls == []
    {
      calls := [];
    }

    method Send(data: Data)
      modifies this
      ensures calls == old(calls) + [data]
    {
      calls := calls + [data];
    }
  }

  class TransportSendQueue {
    const transport: Transport
    var buffer: seq<Entry>
    var executing: bool
    var signalled: bool
    var transportResult: MaybePromise
    var nextPromise: nat
    var phase: Phase
    var outcomes: map<nat, bool>
    ghost var accepted: seq<Entry>
    ghost var given: seq<Batch>
    ghost var results: seq<bool>

    ghost function State(): Queue
      reads this
    {
      Queue(buffer, executing, signalled, transportResult, nextPromise, phase, accepted, given, results, outcomes)
    }

    constructor (transport: Transport)
      ensures State() == NewQueue() && Valid(State()) && this.transport == transport
    {
      this.transport := transport;
      buffer, executing, signalled := [], true, false;
      transportResult, nextPromise, phase := ThePromise(0), 1, Waiting;
      accepted, given, results, outcomes := [], [], [], map[];
      new;
      NewQueueValid();
    }

    /** Put data behind the buffer and wake the loop, unless the buffer holds data of another type. */
    method BufferData(data: Data, promise: nat) returns (ok: bool)
      modifies `buffer, `accepted, `signalled
      ensures ok <==> old(buffer) == [] || SameType(old(buffer)[0].data, data)
      ensures ok ==>
                && buffer == old(buffer) + [Entry(data, promise)] && signalled
                && accepted == old(accepted) + [Entry(data, promise)]
      ensures !ok ==> buffer == old(buffer) && accepted == old(accepted) && signalled == old(signalled)
    {
      ok := !(|buffer| != 0 && !SameType(buffer[0].data, data));
      if ok {
        buffer := buffer + [Entry(data, promise)];
        accepted := accepted + [Entry(data, promise)];
        signalled := true;
      }
    }

    /** Buffer data for the loop; the promise of the transport call that will carry it, or none if it throws. */
    method Send(data: Data) returns (promise: MaybePromise)
      requires Valid(State())
      modifies this
      ensures Valid(State()) && State() == Sent(old(State()), data)
      ensures promise == if OfItsType(old(buffer), data) then transportResult else NoPromise
      ensures promise == NoPromise ==> buffer == old(buffer)
      ensures promise != NoPromise ==> buffer == old(buffer) + [Entry(data, promise.id)]
    {
      hide Valid, OfItsType, SameType, Sent, Accepts;
      ghost var q := State();
      SendValid(q, data);
      AcceptsExactly(q, data);
      SentFields(q, data);
      var pending := if transportResult != NoPromise then transportResult.id else nextPromise;
      var ok := BufferData(data, pending);
      if !ok {
        return NoPromise;
      }
      if transportResult == NoPromise {
        transportResult, nextPromise := ThePromise(nextPromise), nextPromise + 1;
      }
      return transportResult;
    }

    method Stop()
      requires Valid(State())
      modifies this
      ensures Valid(State()) && State() == Stopped(old(State()))
      ensures phase != Finished ==> forall ok :: var idle := Settled(State(), ok);
                CanWake(idle) && !idle.executing && Woken(idle).phase == Finished
    {
      if phase != Finished {
        forall ok ensures var idle := Settled(Stopped(State()), ok);
                          CanWake(idle) && !idle.executing && Woken(idle).phase == Finished {
          StopEnds(State(), ok);
        }
      }
      StopValid(State());
      executing := false;
      signalled := true;
    }

    /** One pass of the loop while the queue runs: everything buffered goes to the transport in one call. */
    method GiveBuffer()
      requires Valid(State()) && CanWake(State()) && executing
      modifies this, transport
      ensures Valid(old(State())) && old(transportResult).ThePromise? && old(buffer) != []
      ensures State() == Woken(old(State()))
      ensures OneType(Datas(old(buffer))) && transport.calls == old(transport.calls) + [Join(Datas(old(buffer)))]
    {
      BufferOneType(State());
      hide Valid, Join, OneType;
      signalled := false;
      ghost var batch := Batch(buffer, transportResult.id);
      transportResult := NoPromise;
      var items := Datas(buffer);
      var data := JoinItems(items);
      buffer := [];
      phase := Sending;
      given := given + [batch];
      transport.Send(data);
    }

    /** The loop after its wake-up promise resolved, up to the call of the transport. */
    method WakeUp()
      requires Valid(State()) && CanWake(State())
      modifies this, transport
      ensures Valid(State()) && Valid(old(State())) && State() == Woken(old(State()))
      ensures transport.calls == old(transport.calls) + WokenCalls(old(State()))
      ensures old(transport.calls) == Calls(old(given)) ==> transport.calls == Calls(given)
    {
      hide Valid, Join, OneType, Datas;
      WakeValid(State());
      WokenCallsGiven(State());
      if !executing {
        if transportResult != NoPromise {
          outcomes := outcomes[transportResult.id := false];
        }
        phase := Finished;
        return;
      }
      GiveBuffer();
    }

    /** The transport call ended: settle the promise of what it carried. */
    method TransportDone(ok: bool, promise: nat)
      requires Valid(State()) && phase == Sending && promise == given[|given| - 1].promise
      modifies this
      ensures Valid(State()) && Valid(old(State())) && State() == Settled(old(State()), ok)
      ensures results == old(results) + [ok]
      ensures forall e :: e in given[|given| - 1].entries ==> e.promise in outcomes && outcomes[e.promise] == ok
    {
      SettlesItsSends(State(), ok);
      SettleValid(State(), ok);
      hide Valid;
      outcomes := outcomes[promise := ok];
      results := results + [ok];
      phase := Waiting;
    }
  }
}
