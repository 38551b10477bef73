/** One gateway connection: a bounded send queue that dispatch fills and eviction closes, and the write
    pump that gathers queued messages into text frames. Dispatch, eviction and the flush timer act
    between any two steps of the pump. */
module WritePump {
  import opened Envelopes

  const MAX_MESSAGES: nat := 64
  const MAX_BYTES: nat := 64 * 1024

  // ---------- frames ----------

  /** The text of a frame: its payloads, one per line. */
  function Join(ps: seq<string>): string {
    if |ps| == 0 then "" else if |ps| == 1 then ps[0] else Join(ps[..|ps| - 1]) + "\n" + ps[|ps| - 1]
  }

  /** The index of the first newline, or the length. */
  function FirstBreak(s: string): (k: nat)
    ensures k <= |s| && (k < |s| ==> s[k] == '\n') && forall i :: 0 <= i < k ==> s[i] != '\n'
  {
    if |s| == 0 || s[0] == '\n' then 0 else 1 + FirstBreak(s[1..])
  }

  /** What a client gets by splitting a frame at newlines. */
  function Lines(s: string): seq<string>
    decreases |s|
  {
    var k := FirstBreak(s);
    if k == |s| then [s] else [s[..k]] + Lines(s[k + 1..])
  }

  predicate OneLine(p: string) {
    '\n' !in p
  }

  lemma BreakIsFirst(s: string, k: nat)
    requires k <= |s| && (k < |s| ==> s[k] == '\n') && forall i :: 0 <= i < k ==> s[i] != '\n'
    ensures FirstBreak(s) == k
  {
    var f := FirstBreak(s);
  }

  lemma {:induction false} LinesAppend(s: string, p: string)
    requires OneLine(p)
    ensures Lines(s + "\n" + p) == Lines(s) + [p]
    decreases |s|
  {
    hide FirstBreak;
    var all, k := s + "\n" + p, FirstBreak(s);
    assert forall i :: 0 <= i < |s| ==> all[i] == s[i];
    assert all[|s|] == '\n';
    BreakIsFirst(all, k);
    if k == |s| {
      assert all[..k] == s && all[k + 1..] == p;
      BreakIsFirst(p, |p|);
    } else {
      assert all[..k] == s[..k] && all[k + 1..] == s[k + 1..] + "\n" + p;
      LinesAppend(s[k + 1..], p);
    }
  }

  /** Splitting a frame at newlines gives back the payloads it was made of. */
  lemma {:induction false} LinesOfJoin(ps: seq<string>)
    requires |ps| > 0 && forall i :: 0 <= i < |ps| ==> OneLine(ps[i])
    ensures Lines(Join(ps)) == ps
  {
    var n := |ps| - 1;
    if n == 0 {
      BreakIsFirst(ps[0], |ps[0]|);
    } else {
      LinesOfJoin(ps[..n]);
      LinesAppend(Join(ps[..n]), ps[n]);
      assert ps == ps[..n] + [ps[n]];
    }
  }

  function Bytes(ps: seq<string>): nat {
    if |ps| == 0 then 0 else Bytes(ps[..|ps| - 1]) + |ps[|ps| - 1]|
  }

  function Texts(frames: seq<seq<string>>): seq<string> {
    seq(|frames|, i requires 0 <= i < |frames| => Join(frames[i]))
  }

  /** Not empty, at most 64 messages, and below 64 KiB but for its last message. */
  predicate FrameOk(ps: seq<string>) {
    0 < |ps| <= MAX_MESSAGES && (|ps| > 1 ==> Bytes(ps[..|ps| - 1]) < MAX_BYTES)
  }

  predicate FramesOk(frames: seq<seq<string>>) {
    forall i :: 0 <= i < |frames| ==> FrameOk(frames[i])
  }

  lemma BytesPush(ps: seq<string>, p: string)
    ensures Bytes(ps + [p]) == Bytes(ps) + |p|
  {
    assert (ps + [p])[..|ps|] == ps;
  }

  lemma FlattenPush(frames: seq<seq<string>>, ps: seq<string>)
    ensures Flatten(frames + [ps]) == Flatten(frames) + ps
  {
    assert (frames + [ps])[..|frames|] == frames;
  }

  // ---------- the connection ----------

  datatype End = Running | Closed | Failed

  /** What a round of the pump took up. */
  datatype Case = Message | Drained | Flushed | Idle

  /** `accepted` and `frames` are logs: what was queued, and what each written frame was made of; `wire`
      holds the frames' texts and `closes` counts closings of the channel. The flush timer is running,
      has a tick waiting, or neither; `armed` says the pump listens to it. */
  class Connection {
    const capacity: nat
    var queue: seq<string>
    var sendClosed: bool
    var closes: nat
    var accepted: seq<string>
    var batch: seq<string>
    var batchBytes: nat
    var armed: bool
    var running: bool
    var ticked: bool
    var frames: seq<seq<string>>
    var wire: seq<string>

    /** Queued messages are written, in the batch, or waiting, in the order of acceptance; the channel is
        closed once at most. */
    ghost predicate QueueOk()
      reads `queue, `sendClosed, `closes, `accepted, `batch, `frames
    {
      && accepted == Flatten(frames) + batch + queue
      && |queue| <= capacity
      && closes == if sendClosed then 1 else 0
    }

    ghost predicate WireOk()
      reads `frames, `wire
    {
      FramesOk(frames) && wire == Texts(frames)
    }

    /** A timer that is listened to is running or has ticked; no stale tick is left otherwise. */
    ghost predicate TimerSane()
      reads `armed, `running, `ticked
    {
      (armed ==> running != ticked) && (!armed ==> !running && !ticked)
    }

    /** The timer is listened to exactly while a batch waits. */
    ghost predicate TimerOk()
      reads `batch, `armed, `running, `ticked
    {
      TimerSane() && (armed <==> batch != [])
    }

    ghost predicate Valid()
      reads this
    {
      && QueueOk() && WireOk() && TimerOk()
      && |batch| < MAX_MESSAGES && batchBytes == Bytes(batch) < MAX_BYTES
    }

    constructor (capacity: nat)
      ensures Valid() && accepted == [] && !sendClosed
    {
      this.capacity := capacity;
      queue, sendClosed, closes, accepted, batch, batchBytes := [], false, 0, [], [], 0;
      armed, running, ticked, frames, wire := false, false, false, [], [];
    }

    method TrySend(payload: string) returns (sent: bool)
      requires QueueOk()
      modifies `queue, `accepted
      ensures QueueOk()
      ensures sent <==> !sendClosed && |old(queue)| < capacity
      ensures var added := if sent then [payload] else [];
              queue == old(queue) + added && accepted == old(accepted) + added
    {
      hide Flatten;
      if sendClosed || |queue| == capacity {
        return false;
      }
      queue, accepted := queue + [payload], accepted + [payload];
      return true;
    }

    /** `closeSend`, however many of disconnect, eviction and shutdown call it. */
    method CloseSend()
      requires QueueOk()
      modifies `sendClosed, `closes
      ensures QueueOk() && sendClosed && queue == old(queue)
    {
      hide Flatten;
      if sendClosed {
        return;
      }
      sendClosed, closes := true, closes + 1;
    }

    method Tick()
      requires TimerSane()
      modifies `running, `ticked
      ensures TimerSane() && !running && (ticked <==> old(running) || old(ticked))
    {
      if running {
        running, ticked := false, true;
      }
    }

    /** Any sequence of dispatches, closings and timer ticks. */
    method Interfere()
      requires QueueOk() && TimerSane()
      modifies `queue, `accepted, `sendClosed, `closes, `running, `ticked
      ensures QueueOk() && TimerSane() && old(queue) <= queue
      ensures old(sendClosed) ==> sendClosed && queue == old(queue) && accepted == old(accepted)
      ensures old(accepted) <= accepted && (old(ticked) ==> ticked)
    {
      hide QueueOk, TimerSane;
      var n: nat :| true;
      for i := 0 to n
        invariant QueueOk() && TimerSane() && old(queue) <= queue
        invariant old(sendClosed) ==> sendClosed && queue == old(queue) && accepted == old(accepted)
        invariant old(accepted) <= accepted && (old(ticked) ==> ticked)
      {
        var payload: string :| true;
        var _ := TrySend(payload);
        var close: bool := *;
        if close { CloseSend(); }
        var tick: bool := *;
        if tick { Tick(); }
      }
    }

    /** `stopFlushTimer`: stops a running timer, or takes the tick that it left. */
    method StopFlushTimer()
      requires TimerSane()
      modifies `armed, `running, `ticked
      ensures !armed && !running && !ticked
    {
      if !armed {
        return;
      }
      if running {
        running := false;
      } else if ticked {
        ticked := false;
      }
      armed := false;
    }

    /** Writes the batch as one text frame, a newline between payloads; unless the connection is `healthy`
        any write may fail, and other goroutines act between the writes. */
    method Flush(healthy: bool) returns (ok: bool)
      requires QueueOk() && WireOk() && (batch != [] ==> FrameOk(batch)) && batchBytes == Bytes(batch)
      requires !armed && TimerSane()
      modifies this
      ensures QueueOk() && WireOk() && TimerSane() && !armed && Grown(old(sendClosed), old(queue), old(accepted))
      ensures ok ==> batch == [] && batchBytes == 0
      ensures healthy ==> ok
      ensures frames == if ok && old(batch) != [] then old(frames) + [old(batch)] else old(frames)
      ensures !ok ==> batch == old(batch)
    {
      if |batch| == 0 {
        return true;
      }
      hide Flatten, FrameOk, QueueOk, WireOk, TimerSane;
      var text := "";
      for i := 0 to |batch|
        invariant QueueOk() && WireOk() && TimerSane() && !armed && Grown(old(sendClosed), old(queue), old(accepted))
        invariant batch == old(batch) && frames == old(frames) && wire == old(wire)
        invariant text == Join(batch[..i])
      {
        Interfere();
        var failed: bool := *;
        if failed && !healthy {
          return false;
        }
        if i > 0 {
          text := text + "\n";
        }
        assert batch[..i + 1][..i] == batch[..i];
        text := text + batch[i];
      }
      assert batch[..|batch|] == batch;
      Emit(text);
      return true;
    }

    /** The finished frame goes out. */
    method Emit(text: string)
      requires QueueOk() && WireOk() && FrameOk(batch) && text == Join(batch)
      modifies `batch, `batchBytes, `frames, `wire
      ensures QueueOk() && WireOk() && batch == [] && batchBytes == 0 && frames == old(frames) + [old(batch)]
    {
      hide Flatten, FrameOk;
      FlattenPush(frames, batch);
      frames, wire := frames + [batch], wire + [text];
      assert wire == Texts(frames);
      batch, batchBytes := [], 0;
    }

    /** What other goroutines may have done since: nothing once the channel was closed. */
    ghost predicate Grown(wasClosed: bool, was: seq<string>, had: seq<string>)
      reads `sendClosed, `queue, `accepted
    {
      had <= accepted && was <= queue && (wasClosed ==> sendClosed && queue == was && accepted == had)
    }

    /** Moves the next queued message into the batch. */
    method Append()
      requires QueueOk() && |queue| > 0 && batchBytes == Bytes(batch)
      modifies `queue, `batch, `batchBytes
      ensures QueueOk() && batch == old(batch) + [old(queue)[0]] && batchBytes == Bytes(batch)
              && queue == old(queue)[1..]
    {
      hide Flatten;
      var message := queue[0];
      BytesPush(batch, message);
      queue, batch := queue[1..], batch + [message];
      batchBytes := batchBytes + |message|;
      assert old(queue) == [message] + queue;
    }

    /** Stops the timer and writes the batch, with others acting in between. */
    method FlushNow(healthy: bool) returns (ok: bool)
      requires QueueOk() && WireOk() && (batch != [] ==> FrameOk(batch)) && batchBytes == Bytes(batch) && TimerSane()
      modifies this
      ensures QueueOk() && WireOk() && Grown(old(sendClosed), old(queue), old(accepted))
      ensures ok ==> TimerOk() && batch == [] && batchBytes == 0
      ensures healthy ==> ok
      ensures frames == if ok && old(batch) != [] then old(frames) + [old(batch)] else old(frames)
      ensures !ok ==> batch == old(batch)
    {
      hide QueueOk, WireOk, Bytes, FrameOk;
      StopFlushTimer();
      Interfere();
      ok := Flush(healthy);
    }

    /** A message has joined what was gathered, and a batch of 64 messages or 64 KiB has gone out. */
    ghost predicate Took(hadFrames: seq<seq<string>>, had: seq<string>, message: string)
      reads `frames, `batch
    {
      var gathered := had + [message];
      if |gathered| >= 64 || Bytes(gathered) >= 65536
      then batch == [] && frames == hadFrames + [gathered]
      else batch == gathered && frames == hadFrames
    }

    /** Moves a message into the batch and arms the timer for the first one. */
    method Gather()
      requires Valid() && |queue| > 0
      modifies this
      ensures QueueOk() && WireOk() && TimerOk() && Grown(old(sendClosed), old(queue)[1..], old(accepted))
      ensures batch == old(batch) + [old(queue)[0]] && batchBytes == Bytes(batch) && frames == old(frames)
    {
      hide QueueOk, WireOk, Bytes;
      Append();
      Interfere();
      if |batch| == 1 {
        armed, running := true, true;
      }
      Interfere();
    }

    /** The message case of the loop, with others acting between its steps: the message joins the batch, and
        the batch is written exactly if that makes it full. */
    method TakeMessage(healthy: bool) returns (end: End)
      requires Valid() && |queue| > 0
      modifies this
      ensures end == Running ==> Valid()
      ensures end != Closed && QueueOk() && WireOk()
      ensures Grown(old(sendClosed), old(queue)[1..], old(accepted))
      ensures end == Running ==> Took(old(frames), old(batch), old(queue)[0])
      ensures end == Failed ==> !healthy && frames == old(frames)
    {
      hide QueueOk, WireOk, Bytes;
      Gather();
      assert batch[..|batch| - 1] == old(batch);
      if |batch| >= MAX_MESSAGES || batchBytes >= MAX_BYTES {
        var ok := FlushNow(healthy);
        if !ok {
          return Failed;
        }
        NoBytes();
      }
      return Running;
    }

    /** The timer case: the batch goes out. */
    method TakeTick(healthy: bool) returns (end: End)
      requires Valid() && armed && ticked
      modifies this
      ensures end == Running ==> Valid()
      ensures end == Running ==> batch == [] && frames == old(frames) + [old(batch)]
      ensures end == Failed ==> !healthy && frames == old(frames)
      ensures end != Closed && QueueOk() && WireOk() && Grown(old(sendClosed), old(queue), old(accepted))
    {
      hide QueueOk, WireOk, Bytes;
      ticked, armed := false, false;
      Interfere();
      WaitingBatchOk(batch);
      var ok := Flush(healthy);
      if !ok {
        return Failed;
      }
      NoBytes();
      return Running;
    }

    /** The closed channel: the rest is written, then the close frame. */
    method Finish(healthy: bool) returns (end: End)
      requires Valid() && sendClosed && queue == []
      modifies this
      ensures end != Running && QueueOk() && WireOk() && accepted == old(accepted)
      ensures end == Closed ==> sendClosed && queue == [] && batch == []
      ensures end == Failed ==> !healthy && frames == old(frames)
    {
      hide QueueOk, WireOk, Bytes;
      WaitingBatchOk(batch);
      var ok := FlushNow(healthy);
      end := if ok then Closed else Failed;
    }

    /** How many messages have left the queue. */
    ghost function Gathered(): nat
      reads `frames, `batch
    {
      |Flatten(frames)| + |batch|
    }

    /** One round of the pump: a message, the closed channel, the timer, or a ping, as `pick` chooses among
        those that are ready. However it ends, the frames on the wire are a prefix of what was accepted;
        when it ends because the channel is closed, they are all of it. A message taken up is the next one
        accepted and joins the batch; when the timer is taken up, all that was gathered goes on the wire. */
    method Round(pick: Case, healthy: bool) returns (end: End, what: Case)
      requires Valid()
      modifies this
      ensures end == Running ==> Valid()
      ensures QueueOk() && WireOk() && old(accepted) <= accepted && Flatten(frames) <= accepted
      ensures what == pick || what == Idle
      ensures pick == Message && old(queue) != [] ==> what == Message
      ensures pick == Flushed && old(armed) && old(ticked) ==> what == Flushed
      ensures pick == Drained && old(sendClosed) && old(queue) == [] ==> what == Drained
      ensures end == Closed ==> sendClosed && queue == [] && batch == [] && Flatten(frames) == accepted
      ensures what == Drained ==> end != Running
      ensures end == Failed ==> !healthy && frames == old(frames)
      ensures end == Running && what == Message ==>
                old(Gathered()) < |accepted| && Took(old(frames), old(batch), accepted[old(Gathered())])
      ensures end == Running && what == Flushed ==> batch == [] && frames == old(frames) + [old(batch)]
      ensures end == Running && what == Idle ==> batch == old(batch) && frames == old(frames)
    {
      hide Bytes, Flatten, WireOk, Valid, FramesOk;
      RoundStart();
      end, what := Running, Idle;
      if pick == Message && |queue| > 0 {
        assert accepted[Gathered()] == queue[0];
        what := Message;
        end := TakeMessage(healthy);
      } else if pick == Drained && |queue| == 0 && sendClosed {
        what := Drained;
        end := Finish(healthy);
        assert end == Closed ==> Flatten(frames) + [] + [] == Flatten(frames);
      } else if pick == Flushed && armed && ticked {
        what := Flushed;
        end := TakeTick(healthy);
      } else {
        var pingFailed: bool := *;
        if pingFailed && !healthy {
          end := Failed;
        }
      }
    }

    method RoundStart()
      requires Valid()
      modifies `queue, `accepted, `sendClosed, `closes, `running, `ticked
      ensures Valid() && QueueOk() && WireOk() && old(accepted) <= accepted && old(queue) <= queue
      ensures old(armed) && old(ticked) ==> ticked
      ensures old(sendClosed) ==> sendClosed && queue == old(queue)
    {
      hide QueueOk, WireOk, Bytes;
      Interfere();
    }

    /** The pump for any sequence of choices; `cases` says what each round took up. Messages leave the queue
        one at a time as they are taken up, and whatever had left it when the timer was taken up is on
        the wire. On a healthy connection the pump ends only because the channel was closed. */
    method Run(picks: seq<Case>, healthy: bool) returns (end: End, cases: seq<Case>)
      requires Valid()
      modifies this
      ensures end == Running ==> Valid() && |cases| == |picks|
      ensures WireOk() && old(accepted) <= accepted && Flatten(frames) <= accepted
      ensures end == Closed ==> sendClosed && queue == [] && batch == [] && Flatten(frames) == accepted
      ensures healthy ==> end != Failed
      ensures |cases| <= |picks| && forall i :: 0 <= i < |cases| ==> cases[i] == picks[i] || cases[i] == Idle
      ensures end == Running ==> Gathered() == old(Gathered()) + Messages(cases)
      ensures forall i :: 0 <= i < |cases| && cases[i] == Flushed && (end == Running || i < |cases| - 1) ==>
                old(Gathered()) + Messages(cases[..i]) <= |Flatten(frames)|
    {
      hide Flatten, Bytes, WireOk, TimerOk, Messages, Valid, QueueOk;
      end, cases := Running, [];
      NoMessages();
      FramesInOrder();
      while |cases| < |picks| && end == Running
        invariant |cases| <= |picks| && (end == Running ==> Valid()) && (healthy ==> end != Failed)
        invariant WireOk() && old(accepted) <= accepted && Flatten(frames) <= accepted
        invariant end == Closed ==> sendClosed && queue == [] && batch == [] && Flatten(frames) == accepted
        invariant forall k :: 0 <= k < |cases| ==> cases[k] == picks[k] || cases[k] == Idle
        invariant end == Running ==> Gathered() == old(Gathered()) + Messages(cases)
        invariant forall k :: 0 <= k < |cases| && cases[k] == Flushed && (end == Running || k < |cases| - 1) ==>
                    old(Gathered()) + Messages(cases[..k]) <= |Flatten(frames)|
      {
        ghost var before, had, done := frames, batch, cases;
        var what: Case;
        end, what := Round(picks[|cases|], healthy);
        cases := cases + [what];
        assert cases[..|done|] == done && forall k :: 0 <= k < |done| ==> cases[..k] == done[..k];
        MessagesPush(done, what);
        if end == Running {
          FlattenPush(before, had);
          if what == Message {
            FlattenPush(before, had + [accepted[|Flatten(before)| + |had|]]);
          }
        }
      }
    }

    lemma FramesInOrder()
      requires Valid()
      ensures WireOk() && Flatten(frames) <= accepted
    {
      hide Flatten;
    }

    /** A client that splits the frames of a closed connection at newlines has the accepted messages. */
    lemma ClientRecovers()
      requires WireOk() && Flatten(frames) == accepted && forall i :: 0 <= i < |accepted| ==> OneLine(accepted[i])
      ensures AllLines(wire) == accepted
    {
      hide Join, Lines, FrameOk;
      SplitAll(frames);
    }
  }

  /** How many rounds took up a message. */
  function Messages(cases: seq<Case>): nat {
    if |cases| == 0 then 0 else Messages(cases[..|cases| - 1]) + (if cases[|cases| - 1] == Message then 1 else 0)
  }

  lemma NoMessages()
    ensures Messages([]) == 0
  {
  }

  lemma MessagesPush(cases: seq<Case>, what: Case)
    ensures Messages(cases + [what]) == Messages(cases) + (if what == Message then 1 else 0)
  {
    assert (cases + [what])[..|cases|] == cases;
  }

  lemma NoBytes()
    ensures Bytes([]) == 0
  {
  }

  lemma WaitingBatchOk(ps: seq<string>)
    requires |ps| < MAX_MESSAGES && Bytes(ps) < MAX_BYTES
    ensures ps != [] ==> FrameOk(ps)
  {
  }

  function AllLines(texts: seq<string>): seq<string> {
    if |texts| == 0 then [] else AllLines(texts[..|texts| - 1]) + Lines(texts[|texts| - 1])
  }

  lemma {:induction false} SplitAll(frames: seq<seq<string>>)
    requires FramesOk(frames) && forall i :: 0 <= i < |Flatten(frames)| ==> OneLine(Flatten(frames)[i])
    ensures AllLines(Texts(frames)) == Flatten(frames)
  {
    hide Join, Lines, OneLine;
    if |frames| > 0 {
      var n := |frames| - 1;
      var before := Flatten(frames[..n]);
      forall i | 0 <= i < |before| ensures OneLine(before[i]) { assert Flatten(frames)[i] == before[i]; }
      forall i | 0 <= i < |frames[n]| ensures OneLine(frames[n][i]) {
        assert Flatten(frames)[|before| + i] == frames[n][i];
      }
      SplitAll(frames[..n]);
      LinesOfJoin(frames[n]);
      assert Texts(frames)[..n] == Texts(frames[..n]);
    }
  }
}
