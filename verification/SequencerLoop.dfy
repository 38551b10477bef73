/** The sequencer's consume loops: `RunBatched` over `consumeBatches`, and the one-at-a-time `Run`.
    The Kafka output topic is a log on which any failed write may have left a prefix of its batch; the
    committed input position is a number. Fetch failures, expired batch windows, cancellation, lost
    acknowledgements and failed commits are all nondeterministic choices, so what is proved holds for
    every run of one process lifetime. */
module SequencerLoop {
  import opened Envelopes
  import opened Sequencing

  /** An input record: key and value bytes, whether its value decodes, and what it decodes to. */
  datatype Record = Record(size: nat, decodable: bool, input: Input)

  function Inputs(topic: seq<Record>): (log: seq<Input>)
    ensures |log| == |topic|
    ensures forall i :: 0 <= i < |topic| ==> log[i] == topic[i].input
  {
    seq(|topic|, i requires 0 <= i < |topic| => topic[i].input)
  }

  function ToList(answer: Option<Envelope>): seq<Envelope> {
    match answer case None => [] case Some(e) => [e]
  }

  /** The messages emitted for the first `n` inputs, in input order; a retried request emits again. */
  function Emitted(log: seq<Input>, n: nat): seq<Envelope>
    requires n <= |log|
  {
    if n == 0 then [] else Emitted(log, n - 1) + ToList(Answer(log, n - 1))
  }

  /** One formal message for each new request among the first `n` inputs, in order of acceptance. */
  ghost function News(log: seq<Input>, n: nat): seq<Envelope>
    requires n <= |log|
  {
    if n == 0 then []
    else News(log, n - 1) + (if IsFirst(log, n - 1) then [Formal(log, n - 1)] else [])
  }

  lemma AnswerAsList(answer: Option<Envelope>)
    ensures ToList(answer) == if answer.Some? then [answer.value] else []
  {
  }

  lemma OneMore(log: seq<Input>, n: nat)
    requires n < |log|
    ensures (StateAfter(log, n + 1), Answer(log, n)) == AssignStep(StateAfter(log, n), log[n])
    ensures Emitted(log, n + 1) == Emitted(log, n) + ToList(Answer(log, n))
    ensures News(log, n + 1) == News(log, n) + (if IsFirst(log, n) then [Formal(log, n)] else [])
  {
  }

  // ---------- keeping the first copy of each message id ----------

  predicate HasId(s: seq<Envelope>, id: int) {
    exists i :: 0 <= i < |s| && s[i].messageId == id
  }

  /** What a reader who drops repeated message ids keeps. */
  function FirstCopies(s: seq<Envelope>): seq<Envelope> {
    if |s| == 0 then []
    else
      var last := |s| - 1;
      FirstCopies(s[..last]) + (if HasId(s[..last], s[last].messageId) then [] else [s[last]])
  }

  lemma CopiesPush(s: seq<Envelope>, x: Envelope)
    ensures FirstCopies(s + [x]) == FirstCopies(s) + (if HasId(s, x.messageId) then [] else [x])
  {
    assert (s + [x])[..|s|] == s;
  }

  lemma HasIdAppend(a: seq<Envelope>, b: seq<Envelope>, id: int)
    ensures HasId(a + b, id) <==> HasId(a, id) || HasId(b, id)
  {
    if HasId(a, id) {
      var i :| 0 <= i < |a| && a[i].messageId == id;
      assert (a + b)[i] == a[i];
    }
    if HasId(b, id) {
      var i :| 0 <= i < |b| && b[i].messageId == id;
      assert (a + b)[|a| + i] == b[i];
    }
  }

  lemma {:induction false} CopiesHaveSameIds(s: seq<Envelope>, id: int)
    ensures HasId(FirstCopies(s), id) <==> HasId(s, id)
  {
    if |s| > 0 {
      var last := |s| - 1;
      CopiesHaveSameIds(s[..last], id);
      assert s == s[..last] + [s[last]];
      assert [s[last]][0] == s[last];
      HasIdAppend(s[..last], [s[last]], id);
      HasIdAppend(FirstCopies(s[..last]), [s[last]], id);
      assert FirstCopies(s[..last]) + [] == FirstCopies(s[..last]);
    }
  }

  /** What follows a log is kept or dropped according to the copies kept so far. */
  lemma {:induction false} CopiesAppend(a: seq<Envelope>, b: seq<Envelope>, x: seq<Envelope>)
    requires FirstCopies(a) == FirstCopies(b)
    ensures FirstCopies(a + x) == FirstCopies(b + x)
  {
    if |x| == 0 {
      assert a + x == a && b + x == b;
    } else {
      var last := |x| - 1;
      var head, id := x[..last], x[last].messageId;
      CopiesAppend(a, b, head);
      assert (a + x)[..|a + x| - 1] == a + head && (b + x)[..|b + x| - 1] == b + head;
      CopiesHaveSameIds(a + head, id);
      CopiesHaveSameIds(b + head, id);
    }
  }

  /** Repeating messages already in the log adds no copy. */
  lemma {:induction false} CopiesAbsorb(a: seq<Envelope>, x: seq<Envelope>)
    requires forall i :: 0 <= i < |x| ==> HasId(a, x[i].messageId)
    ensures FirstCopies(a + x) == FirstCopies(a)
  {
    if |x| == 0 {
      assert a + x == a;
    } else {
      hide FirstCopies;
      var last := |x| - 1;
      CopiesAbsorb(a, x[..last]);
      assert a + x == (a + x[..last]) + [x[last]];
      CopiesPush(a + x[..last], x[last]);
      HasIdAppend(a, x[..last], x[last].messageId);
    }
  }

  lemma {:induction false} CopiesOfPrefix(a: seq<Envelope>, b: seq<Envelope>)
    requires a <= b
    ensures FirstCopies(a) <= FirstCopies(b)
  {
    if |a| < |b| {
      CopiesOfPrefix(a, b[..|b| - 1]);
    } else {
      assert a == b;
    }
  }

  // ---------- what the emitted log contains ----------

  lemma {:induction false} EmittedGrows(log: seq<Input>, m: nat, n: nat)
    requires m <= n <= |log|
    ensures Emitted(log, m) <= Emitted(log, n)
  {
    if m < n {
      EmittedGrows(log, m, n - 1);
    }
  }

  lemma {:induction false} NewsGrows(log: seq<Input>, m: nat, n: nat)
    requires m <= n <= |log|
    ensures News(log, m) <= News(log, n)
  {
    if m < n {
      NewsGrows(log, m, n - 1);
    }
  }

  /** Every answer given among the first `n` inputs is in the emitted log. */
  lemma {:induction false} AnswerIsEmitted(log: seq<Input>, i: nat, n: nat)
    requires i < n <= |log| && Answer(log, i).Some?
    ensures Answer(log, i).value in Emitted(log, n)
  {
    hide Answer;
    if i < n - 1 {
      AnswerIsEmitted(log, i, n - 1);
    } else {
      var e := Answer(log, i).value;
      assert Emitted(log, n)[|Emitted(log, n)| - 1] == e;
    }
  }

  /** Every emitted message answers some input. */
  lemma {:induction false} EmittedIsAnswer(log: seq<Input>, n: nat, k: nat) returns (i: nat)
    requires n <= |log| && k < |Emitted(log, n)|
    ensures i < n && Answer(log, i) == Some(Emitted(log, n)[k])
  {
    hide Answer;
    if k < |Emitted(log, n - 1)| {
      i := EmittedIsAnswer(log, n - 1, k);
    } else {
      i := n - 1;
    }
  }

  /** The id of a new message is in no earlier answer. */
  lemma NewIdIsFresh(log: seq<Input>, n: nat)
    requires n < |log| && IsFirst(log, n) && IdsSuffice(log)
    ensures !HasId(Emitted(log, n), Formal(log, n).messageId)
  {
    if HasId(Emitted(log, n), Formal(log, n).messageId) {
      var k :| 0 <= k < |Emitted(log, n)| && Emitted(log, n)[k].messageId == Formal(log, n).messageId;
      var i := EmittedIsAnswer(log, n, k);
      AssignMatchesReference(log, i);
      FormalIdsIncrease(log, FirstIndex(log, i), n);
    }
  }

  /** An answer to a repeated request was emitted before. */
  lemma RepeatedIdIsKnown(log: seq<Input>, n: nat)
    requires n < |log| && !IsFirst(log, n) && Answer(log, n).Some?
    ensures HasId(Emitted(log, n), Answer(log, n).value.messageId)
  {
    AssignMatchesReference(log, n);
    var j := FirstIndex(log, n);
    AssignMatchesReference(log, j);
    AnswerIsEmitted(log, j, n);
  }

  lemma CopiesStep(log: seq<Input>, n: nat)
    requires n < |log| && IdsSuffice(log)
    requires FirstCopies(Emitted(log, n)) == News(log, n)
    ensures FirstCopies(Emitted(log, n + 1)) == News(log, n + 1)
  {
    hide *;
    NewRequestIsAccepted(log, n);
    OneMore(log, n);
    AnswerAsList(Answer(log, n));
    if Answer(log, n).None? {
      assert Emitted(log, n) + [] == Emitted(log, n);
    } else {
      CopiesPush(Emitted(log, n), Answer(log, n).value);
      if IsFirst(log, n) {
        NewIdIsFresh(log, n);
      } else {
        RepeatedIdIsKnown(log, n);
      }
    }
  }

  /** Dropping repeated ids from everything emitted leaves one message per new request. */
  lemma {:induction false} EmittedCopiesAreNews(log: seq<Input>, n: nat)
    requires n <= |log| && IdsSuffice(log)
    ensures FirstCopies(Emitted(log, n)) == News(log, n)
  {
    hide FirstCopies, Emitted, News, IdsSuffice;
    if n == 0 {
      NothingYet(log, 0);
    } else {
      EmittedCopiesAreNews(log, n - 1);
      CopiesStep(log, n - 1);
    }
  }

  lemma NothingYet(log: seq<Input>, room: int)
    ensures FirstCopies(Emitted(log, 0)) == News(log, 0) == []
    ensures |InRoom(News(log, 0), room)| == RoomCount(log, 0, room) && Dense(InRoom(News(log, 0), room))
  {
  }

  // ---------- rooms ----------

  function InRoom(s: seq<Envelope>, room: int): seq<Envelope> {
    if |s| == 0 then []
    else InRoom(s[..|s| - 1], room) + (if s[|s| - 1].roomId == room then [s[|s| - 1]] else [])
  }

  /** The messages are numbered 1, 2, 3, ... */
  predicate Dense(s: seq<Envelope>) {
    forall k :: 0 <= k < |s| ==> s[k].roomSeq == k + 1
  }

  lemma RoomPush(s: seq<Envelope>, e: Envelope, room: int)
    ensures InRoom(s + [e], room) == InRoom(s, room) + (if e.roomId == room then [e] else [])
  {
    assert (s + [e])[..|s|] == s;
  }

  lemma OneMoreInRoom(log: seq<Input>, n: nat, room: int)
    requires n < |log|
    ensures IsFirst(log, n) && Formal(log, n).roomId == room ==>
              RoomCount(log, n + 1, room) == RoomCount(log, n, room) + 1 == Formal(log, n).roomSeq
    ensures !(IsFirst(log, n) && Formal(log, n).roomId == room) ==>
              RoomCount(log, n + 1, room) == RoomCount(log, n, room)
  {
    hide IsFirst;
  }

  lemma {:induction false} NewsAreDense(log: seq<Input>, n: nat, room: int)
    requires n <= |log|
    ensures |InRoom(News(log, n), room)| == RoomCount(log, n, room)
    ensures Dense(InRoom(News(log, n), room))
  {
    hide News, InRoom, RoomCount, Dense;
    if n == 0 {
      NothingYet(log, room);
    } else {
      NewsAreDense(log, n - 1, room);
      DenseStep(log, n - 1, room);
    }
  }

  lemma DenseStep(log: seq<Input>, n: nat, room: int)
    requires n < |log|
    requires |InRoom(News(log, n), room)| == RoomCount(log, n, room) && Dense(InRoom(News(log, n), room))
    ensures |InRoom(News(log, n + 1), room)| == RoomCount(log, n + 1, room) && Dense(InRoom(News(log, n + 1), room))
  {
    hide InRoom, RoomCount, Formal, IsFirst;
    OneMoreInRoom(log, n, room);
    var before := News(log, n);
    if IsFirst(log, n) {
      RoomPush(before, Formal(log, n), room);
      assert News(log, n + 1) == before + [Formal(log, n)];
    } else {
      assert News(log, n + 1) == before;
    }
  }

  lemma {:induction false} RoomOfPrefix(a: seq<Envelope>, b: seq<Envelope>, room: int)
    requires a <= b
    ensures InRoom(a, room) <= InRoom(b, room)
  {
    if |a| < |b| {
      RoomOfPrefix(a, b[..|b| - 1], room);
    } else {
      assert a == b;
    }
  }

  /** Every new message belongs to the first input of its own request. */
  lemma {:induction false} NewsIsFormal(log: seq<Input>, n: nat, k: nat) returns (i: nat)
    requires n <= |log| && k < |News(log, n)|
    ensures i < n && IsFirst(log, i) && News(log, n)[k] == Formal(log, i)
    ensures |News(log, i)| == k
  {
    if k < |News(log, n - 1)| {
      i := NewsIsFormal(log, n - 1, k);
    } else {
      i := n - 1;
    }
  }

  lemma NewsKeysDiffer(log: seq<Input>, n: nat, k: nat, l: nat)
    requires n <= |log| && k < l < |News(log, n)|
    ensures KeyOf(News(log, n)[k]) != KeyOf(News(log, n)[l])
  {
    var i := NewsIsFormal(log, n, k);
    var j := NewsIsFormal(log, n, l);
    if j <= i {
      NewsGrows(log, j, i);
      assert false;
    }
    assert !SameRequest(log, i, j);
  }

  // ---------- the protocol ----------

  /** How far a run has come: outputs are acknowledged for the first `acked` inputs, the input offset
      is committed up to `committed`, numbers are assigned up to `numbered`, `landed` counts the
      messages of the emission that reached the output topic, and `output` is that topic. */
  datatype Progress = Progress(committed: nat, acked: nat, numbered: nat, landed: nat, output: seq<Envelope>)

  /** The output topic holds the first `landed` emitted messages, possibly with repetitions. */
  ghost predicate Consistent(log: seq<Input>, p: Progress) {
    && p.committed <= p.acked <= p.numbered <= |log|
    && |Emitted(log, p.acked)| <= p.landed <= |Emitted(log, p.numbered)|
    && FirstCopies(p.output) == FirstCopies(Emitted(log, p.numbered)[..p.landed])
    && forall e :: e in p.output ==> e in Emitted(log, p.numbered)
  }

  /** What a reader of the output topic that drops repeated ids sees, in every consistent state: the
      new messages of a prefix of the inputs, so in each room exactly the numbers 1 to n in order of
      acceptance, one message per (sender, client id). */
  lemma ReaderSeesDenseRooms(log: seq<Input>, p: Progress, room: int)
    requires IdsSuffice(log) && Consistent(log, p)
    ensures News(log, p.acked) <= FirstCopies(p.output) <= News(log, p.numbered)
    ensures Dense(InRoom(FirstCopies(p.output), room))
    ensures forall k, l :: 0 <= k < l < |FirstCopies(p.output)| ==>
              KeyOf(FirstCopies(p.output)[k]) != KeyOf(FirstCopies(p.output)[l])
  {
    hide FirstCopies, News, InRoom;
    var seen := FirstCopies(p.output);
    var all := Emitted(log, p.numbered);
    EmittedGrows(log, p.acked, p.numbered);
    CopiesOfPrefix(Emitted(log, p.acked), all[..p.landed]);
    CopiesOfPrefix(all[..p.landed], all);
    EmittedCopiesAreNews(log, p.acked);
    EmittedCopiesAreNews(log, p.numbered);
    RoomOfPrefix(seen, News(log, p.numbered), room);
    NewsAreDense(log, p.numbered, room);
    forall k, l | 0 <= k < l < |seen| ensures KeyOf(seen[k]) != KeyOf(seen[l]) {
      NewsKeysDiffer(log, p.numbered, k, l);
    }
  }

  /** Every committed input was rejected or has its answer's message in the output topic. */
  lemma CommittedIsWritten(log: seq<Input>, p: Progress, i: nat)
    requires Consistent(log, p) && i < p.committed
    ensures Reference(log, i) == None || HasId(p.output, Reference(log, i).value.messageId)
  {
    hide FirstCopies, Answer, Reference;
    AssignMatchesReference(log, i);
    if Answer(log, i) != None {
      var e := Answer(log, i).value;
      EmittedGrows(log, p.acked, p.numbered);
      AnswerIsEmitted(log, i, p.acked);
      var sent := Emitted(log, p.numbered)[..p.landed];
      assert e in sent;
      CopiesHaveSameIds(sent, e.messageId);
      CopiesHaveSameIds(p.output, e.messageId);
    }
  }

  /** Every message on the output topic passes the number checks of the relay and of the archiver. */
  lemma OutputPassesGuards(log: seq<Input>, p: Progress, k: nat)
    requires IdsSuffice(log) && Consistent(log, p) && k < |p.output|
    ensures p.output[k].roomId > 0 && p.output[k].messageId > 0 && p.output[k].roomSeq > 0
  {
    hide Emitted, FirstCopies, Answer;
    var all := Emitted(log, p.numbered);
    assert p.output[k] in p.output;
    var j :| 0 <= j < |all| && all[j] == p.output[k];
    var i := EmittedIsAnswer(log, p.numbered, j);
    AssignMatchesReference(log, i);
    var first := FirstIndex(log, i);
    IdsIncrease(log, 0, first + 1);
  }

  /** Two runs over the same inputs and clock readings, batched however they are, make the same
      decisions: one reader's view continues the other's, and they agree after the same inputs. */
  lemma BatchingIsInvisible(log: seq<Input>, p: Progress, q: Progress)
    requires IdsSuffice(log) && Consistent(log, p) && Consistent(log, q)
    ensures FirstCopies(p.output) <= FirstCopies(q.output) || FirstCopies(q.output) <= FirstCopies(p.output)
    ensures p.acked == p.numbered == q.acked == q.numbered ==>
              FirstCopies(p.output) == FirstCopies(q.output) == News(log, p.acked)
  {
    hide *;
    ReaderSeesDenseRooms(log, p, 0);
    ReaderSeesDenseRooms(log, q, 0);
    ProgressInRange(log, p);
    ProgressInRange(log, q);
    if p.numbered <= q.numbered {
      NewsGrows(log, p.numbered, q.numbered);
    } else {
      NewsGrows(log, q.numbered, p.numbered);
    }
  }

  lemma ProgressInRange(log: seq<Input>, p: Progress)
    requires Consistent(log, p)
    ensures p.committed <= p.acked <= p.numbered <= |log|
  {
  }

  /** A write attempt that lands the first `count` messages of the batch in flight. */
  function Attempt(log: seq<Input>, p: Progress, count: nat): Progress
    requires p.acked <= |log| && p.numbered <= |log|
    requires |Emitted(log, p.acked)| + count <= |Emitted(log, p.numbered)|
  {
    var start := |Emitted(log, p.acked)|;
    p.(landed := if p.landed < start + count then start + count else p.landed,
       output := p.output + Emitted(log, p.numbered)[start..start + count])
  }

  lemma AttemptKeepsConsistent(log: seq<Input>, p: Progress, count: nat)
    requires Consistent(log, p) && |Emitted(log, p.acked)| + count <= |Emitted(log, p.numbered)|
    ensures Consistent(log, Attempt(log, p, count))
  {
    hide FirstCopies, Emitted;
    var start, all := |Emitted(log, p.acked)|, Emitted(log, p.numbered);
    var sent, attempt := all[..p.landed], all[start..start + count];
    CopiesAppend(p.output, sent, attempt);
    if start + count <= p.landed {
      SliceOfPrefix(all, start, start + count, p.landed);
      AbsorbPart(sent, start, start + count);
    } else {
      SliceOfPrefix(all, start, p.landed, p.landed);
      SliceParts(all, start, p.landed, start + count);
      var known, rest := all[start..p.landed], all[p.landed..start + count];
      AbsorbPart(sent, start, p.landed);
      CopiesAppend(sent + known, sent, rest);
    }
  }

  lemma SliceOfPrefix(s: seq<Envelope>, i: nat, j: nat, n: nat)
    requires i <= j <= n <= |s|
    ensures s[..n][i..j] == s[i..j]
  {
  }

  lemma SliceParts(s: seq<Envelope>, i: nat, n: nat, j: nat)
    requires i <= n <= j <= |s|
    ensures s[..n] + s[i..j] == s[..n] + s[i..n] + s[n..j] && s[..n] + s[n..j] == s[..j]
  {
    assert s[i..j] == s[i..n] + s[n..j];
  }

  /** Numbering one more input puts nothing on the output topic. */
  lemma NumberingKeepsConsistent(log: seq<Input>, p: Progress)
    requires Consistent(log, p) && p.numbered < |log|
    ensures Consistent(log, p.(numbered := p.numbered + 1))
  {
    hide FirstCopies, Emitted;
    EmittedGrows(log, p.numbered, p.numbered + 1);
    assert Emitted(log, p.numbered)[..p.landed] == Emitted(log, p.numbered + 1)[..p.landed];
  }

  lemma AbsorbPart(s: seq<Envelope>, i: nat, j: nat)
    requires i <= j <= |s|
    ensures FirstCopies(s + s[i..j]) == FirstCopies(s)
  {
    forall k | 0 <= k < |s[i..j]| ensures HasId(s, s[i..j][k].messageId) {
      assert s[i + k] == s[i..j][k];
    }
    CopiesAbsorb(s, s[i..j]);
  }

  // ---------- the loops ----------

  function TotalSize(records: seq<Record>): nat {
    if |records| == 0 then 0 else TotalSize(records[..|records| - 1]) + records[|records| - 1].size
  }

  lemma SizePush(records: seq<Record>, next: Record)
    ensures TotalSize(records + [next]) == TotalSize(records) + next.size && TotalSize([]) == 0
  {
    assert (records + [next])[..|records|] == records;
  }

  predicate WithinBounds(batch: seq<Record>, maxMessages: nat, maxBytes: nat) {
    0 < |batch| <= maxMessages && TotalSize(batch) <= maxBytes
  }

  lemma FetchedParts(topic: seq<Record>, from: nat, to: nat, records: seq<Record>, rest: seq<Record>)
    requires from <= to <= |topic| && topic[from..to] == records + rest
    ensures topic[..to] == topic[..from] + records + rest
  {
    assert topic[..to] == topic[..from] + topic[from..to];
  }

  lemma SliceOfConcat(a: seq<Envelope>, b: seq<Envelope>, count: nat)
    requires count <= |b|
    ensures (a + b)[|a|..|a| + count] == b[..count]
  {
  }

  datatype Outcome = Continue | Stop

  /** Every record decodes and fits a batch by itself. */
  predicate Handleable(topic: seq<Record>, maxBytes: nat) {
    forall i :: 0 <= i < |topic| ==> topic[i].decodable && topic[i].size <= maxBytes
  }

  /** One process lifetime over one input topic. `maxMessages == 1` is not `Run`: see `RunOne`. */
  class Loop {
    const topic: seq<Record>
    const maxMessages: nat
    const maxBytes: nat
    const state: Sequencer

    var fetched: nat
    var pending: Option<Record>
    var committed: nat
    ghost var acked: nat
    ghost var numbered: nat
    var output: seq<Envelope>
    ghost var landed: nat
    ghost var batches: seq<seq<Record>>

    ghost function Now(): Progress
      reads this
    {
      Progress(committed, acked, numbered, landed, output)
    }

    /** What holds whenever the loop may be stopped. */
    ghost predicate Safe()
      reads this
    {
      && Consistent(Inputs(topic), Now())
      && acked <= fetched <= |topic|
    }

    /** The batches handled so far are within the bounds and make up the handled input. */
    ghost predicate Batched()
      reads this
    {
      && acked <= |topic|
      && Flatten(batches) == topic[..acked]
      && forall b :: b in batches ==> WithinBounds(b, maxMessages, maxBytes)
    }

    /** What holds before each round: nothing is in flight and nothing fetched is lost. */
    ghost predicate Ready()
      reads this, state
    {
      && Safe()
      && committed == acked == numbered && landed == |Emitted(Inputs(topic), acked)|
      && state.Value() == StateAfter(Inputs(topic), acked)
      && topic[..fetched] == topic[..acked] + (if pending.Some? then [pending.value] else [])
    }

    constructor (topic: seq<Record>, maxMessages: nat, maxBytes: nat)
      ensures Ready() && Batched() && fresh(state) && acked == 0 && output == [] && pending == None
      ensures this.topic == topic && this.maxMessages == maxMessages && this.maxBytes == maxBytes
    {
      this.topic, this.maxMessages, this.maxBytes := topic, maxMessages, maxBytes;
      state := new Sequencer();
      fetched, pending, committed, output := 0, None, 0, [];
      acked, numbered, landed, batches := 0, 0, 0, [];
    }

    /** `consumeBatches`, first half: one batch, with the record that did not fit kept as pending. A `calm`
        environment does not cancel, fail a fetch or let the window expire while records are left; the
        batch then ends only at a bound or at the end of the topic. */
    method Collect(calm: bool) returns (outcome: Outcome, records: seq<Record>, terminal: bool)
      requires Ready() && maxMessages >= 1
      modifies `fetched, `pending
      ensures Safe()
      ensures outcome == Continue ==>
                && |records| > 0 && WithinBounds(records, maxMessages, maxBytes)
                && acked + |records| <= fetched && records == topic[acked..acked + |records|]
                && topic[..fetched] == topic[..acked] + records + (if pending.Some? then [pending.value] else [])
      ensures outcome == Continue && pending.Some? ==> TotalSize(records) + pending.value.size > maxBytes
      ensures calm && acked < |topic| && topic[acked].size <= maxBytes ==>
                && outcome == Continue && !terminal
                && (|| |records| == maxMessages || TotalSize(records) == maxBytes || pending.Some?
                    || acked + |records| == |topic|)
    {
      hide Consistent, Emitted, StateAfter, Flatten, WithinBounds, TotalSize;
      records, terminal := [], false;
      var ok, first := TakeFirst(calm);
      if !ok || first.size > maxBytes {
        return Stop, records, terminal;
      }
      records, terminal := Fill(first, calm);
      FetchedParts(topic, acked, fetched, records, if pending.Some? then [pending.value] else []);
      var cancelled: bool := *;
      outcome := if cancelled && !calm then Stop else Continue;
    }

    /** The rest of the batch that `first` opens. */
    method Fill(first: Record, calm: bool) returns (records: seq<Record>, terminal: bool)
      requires pending == None && fetched == acked + 1 <= |topic| && topic[acked] == first
      requires first.size <= maxBytes && maxMessages >= 1
      modifies `fetched, `pending
      ensures |records| > 0 && WithinBounds(records, maxMessages, maxBytes) && acked + |records| <= fetched <= |topic|
      ensures topic[acked..fetched] == records + (if pending.Some? then [pending.value] else [])
      ensures records == topic[acked..acked + |records|]
      ensures pending.Some? ==> TotalSize(records) + pending.value.size > maxBytes
      ensures calm ==> !terminal
      ensures calm ==> || |records| == maxMessages || TotalSize(records) == maxBytes || pending.Some?
                       || acked + |records| == |topic|
    {
      hide TotalSize;
      records, terminal := [first], false;
      SizePush([], first);
      assert [] + [first] == [first];
      var bytes := first.size;
      while |records| < maxMessages && bytes < maxBytes
        invariant WithinBounds(records, maxMessages, maxBytes) && bytes == TotalSize(records)
        invariant pending == None && fetched == acked + |records| <= |topic|
        invariant records == topic[acked..fetched] && !terminal
        decreases maxMessages - |records|
        modifies `fetched, `pending
      {
        var expired: bool, failed: bool := *, *;
        if expired && !calm {
          break;
        }
        if (failed && !calm) || fetched == |topic| {
          terminal := *;
          terminal := terminal && !calm;
          break;
        }
        var next := topic[fetched];
        fetched := fetched + 1;
        SizePush(records, next);
        assert topic[acked..fetched] == records + [next];
        if bytes + next.size > maxBytes {
          pending := Some(next);
          break;
        }
        records := records + [next];
        bytes := bytes + next.size;
      }
      assert pending == None ==> records + [] == records;
    }

    /** The record that opens a batch: the pending one, or a fetched one. */
    method TakeFirst(calm: bool) returns (ok: bool, first: Record)
      requires Ready()
      modifies `fetched, `pending
      ensures Safe() && pending == None
      ensures ok ==> fetched == acked + 1 && topic[acked] == first
      ensures calm && acked < |topic| ==> ok
    {
      hide Consistent, Emitted, StateAfter, Flatten;
      if pending.Some? {
        first := pending.value;
        pending := None;
        assert topic[..fetched][acked] == first;
        return true, first;
      }
      first := *;
      var available: bool := *;
      if fetched == |topic| || !(available || calm) {
        return false, first;
      }
      first := topic[fetched];
      fetched := fetched + 1;
      return true, first;
    }

    /** The handler's loop: numbers the records in input order, stopping at one that does not decode. */
    method NumberBatch(records: seq<Record>) returns (outcome: Outcome, outputs: seq<Envelope>)
      requires Safe() && numbered == acked && state.Value() == StateAfter(Inputs(topic), numbered)
      requires acked + |records| <= |topic| && records == topic[acked..acked + |records|]
      modifies `numbered, state
      ensures Safe() && acked <= numbered && numbered <= acked + |records|
      ensures state.Value() == StateAfter(Inputs(topic), numbered)
      ensures outcome == Continue ==> numbered == acked + |records|
      ensures outcome == Continue <==> forall i :: 0 <= i < |records| ==> records[i].decodable
      ensures Emitted(Inputs(topic), numbered) == Emitted(Inputs(topic), acked) + outputs
    {
      hide Consistent, AssignStep, Flatten, Emitted, StateAfter, Answer;
      ghost var log := Inputs(topic);
      outputs := [];
      for i := 0 to |records|
        invariant numbered == acked + i && Safe()
        invariant forall j :: 0 <= j < i ==> records[j].decodable
        invariant state.Value() == StateAfter(log, numbered)
        invariant Emitted(log, numbered) == Emitted(log, acked) + outputs
      {
        var record := records[i];
        if !record.decodable {
          return Stop, outputs;
        }
        var answer := state.Assign(record.input.envelope, record.input.nowMs);
        assert record.input == log[numbered];
        OneMore(log, numbered);
        NumberOne();
        if answer.Some? {
          outputs := outputs + [answer.value];
        }
      }
      outcome := Continue;
    }

    /** Moves past one numbered record; the topic gains nothing. */
    ghost method NumberOne()
      requires Safe() && numbered < |topic|
      modifies `numbered
      ensures Safe() && numbered == old(numbered) + 1
    {
      hide Consistent, Flatten;
      NumberingKeepsConsistent(Inputs(topic), Now());
      numbered := numbered + 1;
    }

    /** `Retry` around a batch write: each failed attempt may have landed a prefix of the batch. */
    method WriteWithRetry(outputs: seq<Envelope>, calm: bool) returns (acknowledged: bool)
      requires Safe() && Emitted(Inputs(topic), numbered) == Emitted(Inputs(topic), acked) + outputs
      modifies `output, `landed
      ensures Safe()
      ensures acknowledged ==> landed == |Emitted(Inputs(topic), numbered)|
      ensures calm ==> acknowledged
    {
      hide Consistent, Flatten, Emitted;
      var failures: nat :| true;
      for i := 0 to failures
        invariant Safe()
        modifies `output, `landed
      {
        var cancelled: bool := *;
        if cancelled && !calm {
          return false;
        }
        var count :| 0 <= count <= |outputs|;
        Land(outputs, count);
      }
      var cancelled: bool := *;
      if cancelled && !calm {
        return false;
      }
      Land(outputs, |outputs|);
      acknowledged := true;
    }

    /** One attempt that puts the first `count` messages on the output topic. */
    method Land(outputs: seq<Envelope>, count: nat)
      requires Safe() && count <= |outputs|
      requires Emitted(Inputs(topic), numbered) == Emitted(Inputs(topic), acked) + outputs
      modifies `output, `landed
      ensures Safe()
      ensures count == |outputs| ==> landed == |Emitted(Inputs(topic), numbered)|
    {
      hide Flatten, Emitted, FirstCopies;
      ghost var before, start := Now(), |Emitted(Inputs(topic), acked)|;
      AttemptKeepsConsistent(Inputs(topic), before, count);
      SliceOfConcat(Emitted(Inputs(topic), acked), outputs, count);
      output := output + outputs[..count];
      landed := if landed < start + count then start + count else landed;
      assert Now() == Attempt(Inputs(topic), before, count);
    }

    /** The batch is on the output topic: it becomes part of the handled input. */
    ghost method Acknowledge(records: seq<Record>)
      requires Safe() && landed == |Emitted(Inputs(topic), numbered)| && numbered <= fetched
      requires records == topic[acked..numbered]
      modifies `acked, `batches
      ensures Safe() && acked == numbered && batches == old(batches) + [records]
      ensures old(Batched()) && WithinBounds(records, maxMessages, maxBytes) ==> Batched()
    {
      hide Emitted, FirstCopies;
      assert topic[..numbered] == topic[..acked] + records;
      batches := batches + [records];
      assert batches[..|batches| - 1] == old(batches);
      acked := numbered;
    }

    /** `Retry` around the offset commit; after a cancellation it is unknown whether it took effect. */
    method CommitWithRetry(count: nat, calm: bool) returns (done: bool)
      requires Safe() && committed + count == acked
      modifies `committed
      ensures Safe() && (done ==> committed == acked) && (calm ==> done)
    {
      hide Emitted, FirstCopies, Flatten;
      var cancelled: bool, tookEffect: bool := *, *;
      cancelled := cancelled && !calm;
      if !cancelled || tookEffect {
        committed := committed + count;
      }
      done := !cancelled;
    }

    /** Nothing is in flight. */
    ghost predicate Settled()
      reads this, state
    {
      && committed == acked == numbered <= |topic| && landed == |Emitted(Inputs(topic), acked)|
      && state.Value() == StateAfter(Inputs(topic), acked)
    }

    /** What both loops do with fetched records: number, write until acknowledged, commit. */
    method Handle(records: seq<Record>, calm: bool) returns (done: bool)
      requires Safe() && Settled() && acked + |records| <= fetched && records == topic[acked..acked + |records|]
      modifies `committed, `acked, `numbered, `output, `landed, `batches, state
      ensures Safe() && old(acked) <= acked
      ensures done ==> Settled() && acked == old(acked) + |records|
      ensures old(Batched()) && WithinBounds(records, maxMessages, maxBytes) ==> Batched()
      ensures calm && (forall i :: 0 <= i < |records| ==> records[i].decodable) ==> done
    {
      hide Consistent, Emitted, StateAfter, Flatten, WithinBounds;
      var numberedAll, outputs := NumberBatch(records);
      if numberedAll == Stop {
        return false;
      }
      if |outputs| > 0 {
        var acknowledged := WriteWithRetry(outputs, calm);
        if !acknowledged {
          return false;
        }
      }
      Acknowledge(records);
      done := CommitWithRetry(|records|, calm);
    }

    /** One round of `RunBatched`. */
    method Round(calm: bool) returns (outcome: Outcome)
      requires Ready() && Batched() && maxMessages >= 1
      modifies this, state
      ensures Safe() && Batched() && old(acked) <= acked
      ensures outcome == Continue ==> Ready() && old(acked) < acked
      ensures calm && old(acked) < |topic| && Handleable(topic, maxBytes) ==> outcome == Continue
    {
      hide Consistent, Emitted, StateAfter, Flatten, WithinBounds, TotalSize;
      var collected, records, terminal := Collect(calm);
      if collected == Stop {
        return Stop;
      }
      assert topic[..acked] + records == topic[..acked + |records|];
      var done := Handle(records, calm);
      return if done && !terminal then Continue else Stop;
    }

    /** One step of the one-at-a-time `Run`. */
    method RunOne(calm: bool) returns (outcome: Outcome)
      requires Ready() && pending == None
      modifies this, state
      ensures Safe() && old(acked) <= acked
      ensures outcome == Continue ==> Ready() && acked == old(acked) + 1 && pending == None
      ensures calm && old(acked) < |topic| && topic[old(acked)].decodable ==> outcome == Continue
    {
      hide Consistent, Emitted, StateAfter, Flatten;
      var ok, first := TakeFirst(calm);
      if !ok {
        return Stop;
      }
      assert [first] == topic[acked..acked + 1];
      var done := Handle([first], calm);
      return if done then Continue else Stop;
    }
  }

  /** A run that has not stopped shows its readers exactly the new messages of the committed inputs. */
  lemma SettledView(log: seq<Input>, p: Progress)
    requires Consistent(log, p) && p.acked == p.numbered && IdsSuffice(log)
    ensures FirstCopies(p.output) == News(log, p.acked)
  {
    hide Consistent, IdsSuffice, FirstCopies, News;
    BatchingIsInvisible(log, p, p);
  }

  /** The committed position and output topic of some consistent state; of one with nothing in flight if
      the run has not stopped, so that its view is the new messages of what it committed. */
  ghost predicate Reached(log: seq<Input>, committed: nat, output: seq<Envelope>, outcome: Outcome) {
    && (exists p :: Consistent(log, p) && p.committed == committed && p.output == output)
    && (outcome == Continue ==> committed <= |log| && (IdsSuffice(log) ==> FirstCopies(output) == News(log, committed)))
  }

  /** `RunBatched`, from start-up through at most `rounds` batches of one process lifetime; at the end of the
      topic it waits. In a calm environment it handles the whole topic. */
  method RunBatched(topic: seq<Record>, maxMessages: nat, maxBytes: nat, rounds: nat, calm: bool)
    returns (committed: nat, output: seq<Envelope>, outcome: Outcome, ghost p: Progress,
      ghost batches: seq<seq<Record>>)
    ensures Reached(Inputs(topic), committed, output, outcome)
    ensures Consistent(Inputs(topic), p) && p.committed == committed && p.output == output
    ensures outcome == Continue ==> p.acked == p.numbered == committed
    ensures Flatten(batches) == topic[..p.acked]
    ensures forall b :: b in batches ==> WithinBounds(b, maxMessages, maxBytes)
    ensures maxMessages < 1 || maxMessages > 10000 || maxBytes < 1 ==> output == []
    ensures calm && 1 <= maxMessages <= 10000 && maxBytes >= 1 && Handleable(topic, maxBytes) && rounds >= |topic| ==>
              outcome == Continue && committed == |topic|
  {
    hide Consistent, Flatten, WithinBounds, IdsSuffice, FirstCopies, News;
    var loop := new Loop(topic, maxMessages, maxBytes);
    outcome := if maxMessages < 1 || maxMessages > 10000 || maxBytes < 1 then Stop else Continue;
    var left := rounds;
    while outcome == Continue && left > 0 && loop.committed < |topic|
      invariant fresh(loop) && fresh(loop.state) && loop.topic == topic
      invariant calm && 1 <= maxMessages <= 10000 && maxBytes >= 1 && Handleable(topic, maxBytes)
                && rounds >= |topic| ==>
                  outcome == Continue && left + loop.committed >= |topic|
      invariant loop.maxMessages == maxMessages && loop.maxBytes == maxBytes
      invariant loop.Safe() && loop.Batched() && (outcome == Continue ==> loop.Ready())
      invariant outcome == Continue ==> maxMessages >= 1
      invariant maxMessages < 1 || maxMessages > 10000 || maxBytes < 1 ==> outcome == Stop && loop.output == []
      decreases left
    {
      outcome := loop.Round(calm);
      left := left - 1;
    }
    p := loop.Now();
    ProgressInRange(Inputs(topic), p);
    assert p.committed == loop.committed && p.output == loop.output;
    if outcome == Continue && IdsSuffice(Inputs(topic)) {
      SettledView(Inputs(topic), p);
    }
    return loop.committed, loop.output, outcome, p, loop.batches;
  }

  /** `Run`, from start-up through at most `rounds` records. */
  method Run(topic: seq<Record>, rounds: nat, calm: bool)
    returns (committed: nat, output: seq<Envelope>, outcome: Outcome, ghost p: Progress)
    ensures Reached(Inputs(topic), committed, output, outcome)
    ensures Consistent(Inputs(topic), p) && p.committed == committed && p.output == output
    ensures outcome == Continue ==> p.acked == p.numbered == committed
    ensures calm && rounds >= |topic| && (forall i :: 0 <= i < |topic| ==> topic[i].decodable) ==>
              outcome == Continue && committed == |topic|
  {
    hide Consistent, IdsSuffice, FirstCopies, News;
    var loop := new Loop(topic, 1, 0);
    outcome := Continue;
    var left := rounds;
    while outcome == Continue && left > 0 && loop.committed < |topic|
      invariant fresh(loop) && fresh(loop.state) && loop.topic == topic
      invariant calm && rounds >= |topic| && (forall i :: 0 <= i < |topic| ==> topic[i].decodable) ==>
                  outcome == Continue && left + loop.committed >= |topic|
      invariant loop.Safe() && (outcome == Continue ==> loop.Ready() && loop.pending == None)
      decreases left
    {
      outcome := loop.RunOne(calm);
      left := left - 1;
    }
    p := loop.Now();
    ProgressInRange(Inputs(topic), p);
    assert p.committed == loop.committed && p.output == loop.output;
    if outcome == Continue && IdsSuffice(Inputs(topic)) {
      SettledView(Inputs(topic), p);
    }
    return loop.committed, loop.output, outcome, p;
  }
}
