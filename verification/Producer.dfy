/** The gateway's Kafka producer: callers enqueue requests, one loop batches and writes them, and `Close`
    drains what was accepted. Callers and closers act between any two steps of the loop. */
module Producer {
  import opened Envelopes

  /** A queued message: its place in the order of acceptance, and its key and value bytes. */
  datatype Request = Request(ticket: nat, size: nat)

  /** A batch handed to the writer, and whether the write succeeded. */
  datatype Batch = Batch(requests: seq<Request>, ok: bool)

  datatype Answer = TooLarge | Closed | Cancelled | QueueFull | Accepted(ticket: nat)

  datatype Options = Options(maxMessages: int, maxBytes: int, queueCapacity: int)

  function NormalizedOptions(o: Options): (r: Options)
    ensures r.maxMessages > 0 && r.maxBytes > 0 && r.queueCapacity > 0
    ensures o.maxMessages > 0 ==> r.maxMessages == o.maxMessages
    ensures o.maxBytes > 0 ==> r.maxBytes == o.maxBytes
    ensures o.queueCapacity > 0 ==> r.queueCapacity == o.queueCapacity
    ensures o.maxMessages <= 0 ==> r.maxMessages == 1000
    ensures o.maxBytes <= 0 ==> r.maxBytes == 1048576
    ensures o.queueCapacity <= 0 ==> r.queueCapacity == 20000
  {
    Options(if o.maxMessages <= 0 then 1000 else o.maxMessages,
            if o.maxBytes <= 0 then 0x10_0000 else o.maxBytes,
            if o.queueCapacity <= 0 then 20000 else o.queueCapacity)
  }

  function TotalSize(rs: seq<Request>): nat {
    if |rs| == 0 then 0 else TotalSize(rs[..|rs| - 1]) + rs[|rs| - 1].size
  }

  /** All requests written, in the order of the batches. */
  function Sent(batches: seq<Batch>): seq<Request> {
    if |batches| == 0 then [] else Sent(batches[..|batches| - 1]) + batches[|batches| - 1].requests
  }

  function BatchReplies(rs: seq<Request>, ok: bool): (r: seq<(nat, bool)>)
    ensures |r| == |rs|
  {
    seq(|rs|, i requires 0 <= i < |rs| => (rs[i].ticket, ok))
  }

  /** The results sent back, in order: one for each request of each batch. */
  function Replies(batches: seq<Batch>): seq<(nat, bool)> {
    if |batches| == 0 then []
    else Replies(batches[..|batches| - 1]) + BatchReplies(batches[|batches| - 1].requests, batches[|batches| - 1].ok)
  }

  predicate WithinBounds(rs: seq<Request>, maxMessages: int, maxBytes: int) {
    0 < |rs| <= maxMessages && TotalSize(rs) <= maxBytes
  }

  function ToList(pending: Option<Request>): seq<Request> {
    if pending.Some? then [pending.value] else []
  }

  /** Tickets are places in the acceptance order, and nothing accepted is too large for a batch. */
  predicate TicketsOk(accepted: seq<Request>, maxBytes: int) {
    forall i :: 0 <= i < |accepted| ==> accepted[i].ticket == i && accepted[i].size <= maxBytes
  }

  predicate BatchesOk(batches: seq<Batch>, maxMessages: int, maxBytes: int) {
    forall i :: 0 <= i < |batches| ==> WithinBounds(batches[i].requests, maxMessages, maxBytes)
  }

  /** Replies go out in ticket order. */
  lemma {:induction false} RepliesFollowTickets(batches: seq<Batch>, accepted: seq<Request>)
    requires Sent(batches) <= accepted && forall i :: 0 <= i < |accepted| ==> accepted[i].ticket == i
    ensures |Replies(batches)| == |Sent(batches)|
    ensures forall i :: 0 <= i < |Replies(batches)| ==> Replies(batches)[i].0 == i
  {
    if |batches| > 0 {
      var n := |batches| - 1;
      RepliesFollowTickets(batches[..n], accepted);
      var before, rs := Sent(batches[..n]), batches[n].requests;
      forall i | |before| <= i < |Sent(batches)| ensures Replies(batches)[i].0 == i {
        assert Sent(batches)[i] == rs[i - |before|] && Sent(batches)[i] == accepted[i];
      }
    }
  }

  /** Each request is told how the write of its own batch went. */
  ghost predicate Truthful(batches: seq<Batch>, results: seq<(nat, bool)>) {
    forall b, k :: 0 <= b < |batches| && 0 <= k < |batches[b].requests| ==>
      ReplyIs(batches, results, b, k)
  }

  ghost predicate ReplyIs(batches: seq<Batch>, results: seq<(nat, bool)>, b: nat, k: nat)
    requires b < |batches| && k < |batches[b].requests|
  {
    var at := |Sent(batches[..b])| + k;
    at < |results| && results[at] == (batches[b].requests[k].ticket, batches[b].ok)
  }

  lemma {:induction false} RepliesAreTruthful(batches: seq<Batch>)
    ensures Truthful(batches, Replies(batches)) && |Replies(batches)| == |Sent(batches)|
  {
    if |batches| > 0 {
      var n := |batches| - 1;
      RepliesAreTruthful(batches[..n]);
      forall b, k | 0 <= b < |batches| && 0 <= k < |batches[b].requests|
        ensures ReplyIs(batches, Replies(batches), b, k)
      {
        if b < n {
          assert ReplyIs(batches[..n], Replies(batches[..n]), b, k);
          assert batches[..n][..b] == batches[..b];
        }
      }
    }
  }

  lemma TotalSizePush(rs: seq<Request>, r: Request)
    ensures TotalSize(rs + [r]) == TotalSize(rs) + r.size
  {
    assert (rs + [r])[..|rs|] == rs;
  }

  lemma PushBatch(batches: seq<Batch>, b: Batch)
    ensures Sent(batches + [b]) == Sent(batches) + b.requests
    ensures Replies(batches + [b]) == Replies(batches) + BatchReplies(b.requests, b.ok)
  {
    assert (batches + [b])[..|batches|] == batches;
  }

  /** The client. `accepted` and `written` are logs of what was accepted and handed to the writer;
      the loop's own variables `pending`, `stopping` and `batch` are passed between its parts. */
  class MessageClient {
    const maxMessages: int
    const maxBytes: int
    const capacity: int
    var queue: seq<Request>
    var closed: bool
    var accepted: seq<Request>
    var written: seq<Batch>
    var results: seq<(nat, bool)>

    /** Nothing accepted is lost, repeated or reordered: it is written, in the loop's hands, or queued. */
    ghost predicate Holds(inHand: seq<Request>)
      reads `queue, `written, `accepted
    {
      && maxMessages > 0 && maxBytes > 0 && capacity > 0
      && accepted == Sent(written) + inHand + queue
      && |queue| <= capacity
      && TicketsOk(accepted, maxBytes)
      && BatchesOk(written, maxMessages, maxBytes)
    }

    ghost predicate Valid(inHand: seq<Request>)
      reads `queue, `written, `accepted, `results
    {
      Holds(inHand) && results == Replies(written)
    }

    constructor (options: Options)
      ensures Valid([]) && !closed && accepted == [] && written == []
      ensures Options(maxMessages, maxBytes, capacity) == NormalizedOptions(options)
    {
      var o := NormalizedOptions(options);
      maxMessages, maxBytes, capacity := o.maxMessages, o.maxBytes, o.queueCapacity;
      queue, closed, written, results, accepted := [], false, [], [], [];
    }

    /** The enqueueing half of `HandleIncomingMessageAt`, one step under the state lock. The caller's context
        may be done already; if the queue has room as well, `cancelFirst` is the choice between the two. */
    method Enqueue(size: nat, done: bool, cancelFirst: bool, ghost inHand: seq<Request>) returns (answer: Answer)
      requires Holds(inHand)
      modifies `queue, `accepted
      ensures Holds(inHand)
      ensures answer == TooLarge <==> size > maxBytes
      ensures answer == Closed <==> size <= maxBytes && closed
      ensures size <= maxBytes && !closed ==>
                && (answer == Cancelled <==> done && (cancelFirst || |old(queue)| == capacity))
                && (answer == QueueFull <==> !done && |old(queue)| == capacity)
      ensures answer.Accepted? ==> answer.ticket == |old(accepted)|
      ensures var added := if answer.Accepted? then [Request(answer.ticket, size)] else [];
              queue == old(queue) + added && accepted == old(accepted) + added
    {
      if size > maxBytes {
        return TooLarge;
      }
      if closed {
        return Closed;
      }
      if done && (cancelFirst || |queue| == capacity) {
        return Cancelled;
      }
      if |queue| == capacity {
        return QueueFull;
      }
      hide Sent, BatchesOk;
      var r := Request(|accepted|, size);
      answer := Accepted(|accepted|);
      accepted, queue := accepted + [r], queue + [r];
    }

    /** What callers and closers may do between two steps of the loop. */
    method Interfere(ghost inHand: seq<Request>)
      requires Holds(inHand)
      modifies `queue, `accepted, `closed
      ensures Holds(inHand)
      ensures old(closed) ==> closed && queue == old(queue) && accepted == old(accepted)
      ensures old(queue) <= queue && old(accepted) <= accepted
    {
      hide Holds;
      var calls: nat :| true;
      for i := 0 to calls
        invariant Holds(inHand)
        invariant old(closed) ==> closed && queue == old(queue) && accepted == old(accepted)
        invariant old(queue) <= queue && old(accepted) <= accepted
      {
        var size: nat :| true;
        var done: bool, cancelFirst: bool := *, *;
        var _ := Enqueue(size, done, cancelFirst, inHand);
        var close: bool := *;
        closed := closed || close;
      }
    }

    /** A receive from the queue. */
    method Receive(ghost inHand: seq<Request>) returns (next: Request)
      requires Holds(inHand) && |queue| > 0
      modifies `queue
      ensures next == old(queue)[0] && queue == old(queue)[1..] && Holds(inHand + [next])
    {
      hide Sent, BatchesOk, TicketsOk;
      next := queue[0];
      queue := queue[1..];
      assert old(queue) == [next] + queue;
    }

    /** The first request of the next batch; `exit` once stopping has found the queue empty. */
    method TakeFirst(pending: Option<Request>, wasStopping: bool)
      returns (first: Option<Request>, stopping: bool, exit: bool)
      requires Holds(ToList(pending)) && (wasStopping ==> closed)
      modifies `queue, `accepted, `closed
      ensures Holds(ToList(first)) && (stopping ==> closed) && (wasStopping ==> stopping)
      ensures old(closed) ==> closed && accepted == old(accepted)
      ensures old(accepted) <= accepted
      ensures exit ==> stopping && first == None && queue == []
      ensures old(closed) && !exit && first.None? ==> stopping && !wasStopping
      ensures pending.Some? || (old(queue) != [] && !closed) ==> first.Some?
      ensures old(closed) ==> |ToList(first)| + |queue| == |ToList(pending)| + |old(queue)|
    {
      hide Holds;
      stopping, exit, first := wasStopping, false, pending;
      if pending.Some? {
        return;
      }
      Interfere([]);
      if stopping {
        if |queue| > 0 {
          var next := Receive([]);
          first := Some(next);
          assert [] + [next] == [next];
        } else {
          exit := true;
        }
      } else {
        var receive: bool := *;
        if |queue| > 0 && (receive || !closed) {
          var next := Receive([]);
          first := Some(next);
          assert [] + [next] == [next];
        } else if closed {
          stopping := true;
        }
      }
    }

    /** Adds requests to the batch until a bound, the timer or, while stopping, an empty queue ends it; a
        request that does not fit is kept for the next batch. */
    method Collect(first: Request, wasStopping: bool)
      returns (batch: seq<Request>, pending: Option<Request>, stopping: bool, timeUp: bool)
      requires Holds([first]) && first.size <= maxBytes && maxMessages > 0 && (wasStopping ==> closed)
      modifies `queue, `accepted, `closed
      ensures Holds(batch + ToList(pending)) && WithinBounds(batch, maxMessages, maxBytes)
      ensures (stopping ==> closed) && (wasStopping ==> stopping)
      ensures old(closed) ==> closed && accepted == old(accepted)
      ensures old(accepted) <= accepted
      ensures old(closed) ==> |batch| + |ToList(pending)| + |queue| == 1 + |old(queue)|
      ensures pending.Some? ==> TotalSize(batch) + pending.value.size > maxBytes
      ensures || pending.Some? || |batch| == maxMessages || TotalSize(batch) == maxBytes
              || (if stopping then queue == [] else timeUp)
    {
      hide Holds, TotalSize;
      batch, pending, stopping, timeUp := [first], None, wasStopping, false;
      var bytes := first.size;
      TotalSizePush([], first);
      NoSize();
      assert [] + [first] == [first] && batch + ToList(pending) == [first];
      while |batch| < maxMessages && bytes < maxBytes
        invariant pending == None && Holds(batch) && bytes == TotalSize(batch) <= maxBytes && 0 < |batch| <= maxMessages
        invariant (stopping ==> closed) && (wasStopping ==> stopping) && !timeUp
        invariant old(closed) ==> closed && accepted == old(accepted) && |batch| + |queue| == 1 + |old(queue)|
        invariant old(accepted) <= accepted
        decreases maxMessages - |batch|, !stopping
      {
        Interfere(batch);
        var receive: bool, timer: bool := *, *;
        if |queue| > 0 && (stopping || receive) {
          var next := Receive(batch);
          if bytes + next.size > maxBytes {
            pending := Some(next);
            break;
          }
          TotalSizePush(batch, next);
          batch, bytes := batch + [next], bytes + next.size;
        } else if stopping {
          break;
        } else if closed && !timer {
          stopping := true;
        } else {
          timeUp := true;
          break;
        }
      }
      assert pending == None ==> batch + ToList(pending) == batch;
    }

    /** Hands the batch to the writer, which may fail, and answers every request of it. */
    method Write(batch: seq<Request>, ghost pending: seq<Request>)
      requires Valid(batch + pending) && WithinBounds(batch, maxMessages, maxBytes)
      modifies `written, `results
      ensures Valid(pending) && |written| == |old(written)| + 1 && old(written) <= written
      ensures written[|old(written)|].requests == batch
    {
      hide WithinBounds, TicketsOk;
      var ok: bool := *;
      PushBatch(written, Batch(batch, ok));
      ghost var sent := Sent(written);
      assert sent + (batch + pending) + queue == sent + batch + pending + queue;
      written := written + [Batch(batch, ok)];
      Reply(batch, ok);
    }

    method Reply(batch: seq<Request>, ok: bool)
      modifies `results
      ensures results == old(results) + BatchReplies(batch, ok)
    {
      for i := 0 to |batch|
        invariant results == old(results) + BatchReplies(batch, ok)[..i]
      {
        results := results + [(batch[i].ticket, ok)];
      }
      assert BatchReplies(batch, ok)[..|batch|] == BatchReplies(batch, ok);
    }

    /** One round of the loop: a batch is written, or the round found nothing to do, or the loop ends. */
    method Round(pending: Option<Request>, wasStopping: bool)
      returns (left: Option<Request>, stopping: bool, exit: bool)
      requires Valid(ToList(pending)) && (wasStopping ==> closed)
      modifies this
      ensures Valid(ToList(left)) && (stopping ==> closed) && (wasStopping ==> stopping)
      ensures old(accepted) <= accepted && old(written) <= written
      ensures old(closed) ==> closed && accepted == old(accepted)
      ensures old(closed) && !exit ==>
                Left(ToList(left), stopping) + |queue| < Left(ToList(pending), wasStopping) + |old(queue)|
      ensures exit ==> closed && left == None && queue == [] && Sent(written) == accepted
      ensures pending.Some? || (old(queue) != [] && !closed) ==>
                |written| == |old(written)| + 1 && written[|old(written)|].requests != []
    {
      hide WithinBounds, TicketsOk, Sent, Replies, BatchesOk;
      var first: Option<Request>;
      first, stopping, exit := TakeFirst(pending, wasStopping);
      left := None;
      if first.None? {
        if exit {
          assert Sent(written) + [] + [] == accepted;
        }
        return;
      }
      FirstFits(first.value);
      var batch: seq<Request>, timeUp: bool;
      batch, left, stopping, timeUp := Collect(first.value, stopping);
      NonEmpty(batch);
      Write(batch, ToList(left));
    }

    lemma FirstFits(first: Request)
      requires Holds([first])
      ensures first.size <= maxBytes && maxMessages > 0
    {
      hide Sent;
      assert accepted[|Sent(written)|] == first;
    }

    lemma NonEmpty(batch: seq<Request>)
      requires WithinBounds(batch, maxMessages, maxBytes)
      ensures |batch| > 0
    {
    }

    /** The loop, for any number of rounds and whatever callers do meanwhile. When it ends, every
        accepted request was written, in the order of acceptance, and answered exactly once. */
    method Run(rounds: nat) returns (exit: bool)
      requires Valid([])
      modifies this
      ensures exists inHand :: |inHand| <= 1 && Valid(inHand)
      ensures exit ==> closed && queue == [] && Sent(written) == accepted && Valid([])
      ensures exit ==> AnsweredOnce(accepted, results) && Truthful(written, results)
    {
      hide Valid, Sent;
      var pending: Option<Request>, stopping := None, false;
      exit := false;
      var i := 0;
      while i < rounds && !exit
        invariant Valid(ToList(pending)) && (stopping ==> closed)
        invariant exit ==> closed && pending == None && queue == [] && Sent(written) == accepted
      {
        pending, stopping, exit := Round(pending, stopping);
        i := i + 1;
      }
      if exit {
        AllAnswered();
      }
    }

    /** Once closed, the loop ends: no call can keep it from draining the queue. */
    method Drain(pending: Option<Request>, wasStopping: bool)
      requires Valid(ToList(pending)) && closed && (wasStopping ==> closed)
      modifies this
      ensures closed && queue == [] && accepted == old(accepted) && Sent(written) == accepted && Valid([])
      ensures AnsweredOnce(accepted, results) && Truthful(written, results)
    {
      hide Valid, Sent;
      var left, stopping, exit := pending, wasStopping, false;
      while !exit
        invariant Valid(ToList(left)) && closed && accepted == old(accepted)
        invariant exit ==> left == None && queue == [] && Sent(written) == accepted
        decreases !exit, Left(ToList(left), stopping) + |queue|
      {
        left, stopping, exit := Round(left, stopping);
      }
      AllAnswered();
    }

    /** `Close` between two rounds: nothing more is accepted, and it returns with everything answered. */
    method Close(pending: Option<Request>, stopping: bool)
      requires Valid(ToList(pending)) && (stopping ==> closed)
      modifies this
      ensures closed && queue == [] && accepted == old(accepted) && Sent(written) == accepted && Valid([])
      ensures AnsweredOnce(accepted, results) && Truthful(written, results)
    {
      closed := true;
      Drain(pending, stopping);
    }

    lemma AllAnswered()
      requires Valid([]) && Sent(written) == accepted
      ensures AnsweredOnce(accepted, results) && Truthful(written, results)
    {
      hide BatchesOk, Truthful;
      RepliesFollowTickets(written, accepted);
      RepliesAreTruthful(written);
    }
  }

  /** Work left to the loop besides the queue. */
  function Left(inHand: seq<Request>, stopping: bool): nat {
    |inHand| + (if stopping then 0 else 1)
  }

  lemma NoSize()
    ensures TotalSize([]) == 0
  {
  }

  /** Every accepted request has exactly one result. */
  predicate AnsweredOnce(accepted: seq<Request>, results: seq<(nat, bool)>) {
    && |results| == |accepted|
    && forall i :: 0 <= i < |accepted| ==> results[i].0 == accepted[i].ticket == i
  }
}
