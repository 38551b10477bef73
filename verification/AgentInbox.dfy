/** The agent's inbox: messages are taken from Kafka into rows, claimed in batches by workers, moderated,
    and chunked once approved. Records may be redelivered, leases may go stale and be requeued, and
    several workers hold batches at once; each database transaction is one step, with unique keys on
    the event of a row and on the row of a moderation record. */
module AgentInbox {
  // ---------- event ids ----------

  datatype Payload = Payload(messageId: string, clientId: string, sender: nat, room: int)

  function Digit(d: nat): char
    requires d < 10
  {
    '0' + d as char
  }

  function Decimal(n: nat): string {
    if n < 10 then [Digit(n)] else Decimal(n / 10) + [Digit(n % 10)]
  }

  /** `inbox_event_id`: redelivery changes the offset, so it comes last. */
  function EventId(p: Payload, topic: string, partition: nat, offset: nat): string {
    if p.messageId != "" then "message:" + p.messageId
    else if p.clientId != "" then "client:" + Decimal(p.sender) + ":" + p.clientId
    else topic + ":" + Decimal(partition) + ":" + Decimal(offset)
  }

  lemma SameSuffix(head: string, a: string, b: string)
    ensures head + a == head + b <==> a == b
  {
    if head + a == head + b {
      assert (head + a)[|head|..] == a && (head + b)[|head|..] == b;
    }
  }

  /** A formal message has one event wherever it is delivered, and no other record shares it. Kafka topic
      names hold no colon, and message ids are digits. */
  lemma FormalEvents(p: Payload, q: Payload, topic: string, i: nat, j: nat, partition: nat, other: nat)
    requires p.messageId != "" && ':' !in p.messageId && ':' !in topic
    ensures EventId(p, topic, partition, i) == EventId(q, topic, other, j) <==> p.messageId == q.messageId
  {
    var e, f := EventId(p, topic, partition, i), EventId(q, topic, other, j);
    if q.messageId != "" {
      SameSuffix("message:", p.messageId, q.messageId);
    } else if q.clientId != "" {
      assert e[0] == 'm' && f[0] == 'c';
    } else {
      var k := |topic| + 1 + |Decimal(other)|;
      assert f == topic + ":" + Decimal(other) + ":" + Decimal(j);
      assert f[|topic|] == ':' && f[k] == ':';
      assert forall x :: 8 <= x < |e| ==> e[x] == p.messageId[x - 8];
    }
  }

  lemma {:induction false} DecimalDigits(n: nat)
    ensures |Decimal(n)| > 0 && ':' !in Decimal(n)
  {
    if n >= 10 {
      DecimalDigits(n / 10);
    }
  }

  lemma {:induction false} DecimalIsInjective(a: nat, b: nat)
    requires Decimal(a) == Decimal(b)
    ensures a == b
  {
    DecimalDigits(a / 10);
    DecimalDigits(b / 10);
    var s := Decimal(a);
    assert s[|s| - 1] == Digit(a % 10) && s[|s| - 1] == Digit(b % 10);
    if a >= 10 && b >= 10 {
      assert s[..|s| - 1] == Decimal(a / 10) && s[..|s| - 1] == Decimal(b / 10);
      DecimalIsInjective(a / 10, b / 10);
    }
  }

  /** Texts before the first colon and after it are determined by the whole. */
  lemma SplitColon(a: string, x: string, b: string, y: string)
    requires ':' !in a && ':' !in b && a + ":" + x == b + ":" + y
    ensures a == b && x == y
  {
    var s := a + ":" + x;
    assert s[|a|] == ':' && s[|b|] == ':';
    assert s[..|a|] == a && s[..|b|] == b && s[|a| + 1..] == x && s[|b| + 1..] == y;
  }

  /** Records without message id share an event iff they have the same sender and client id; without a
      client id either, iff they are the same record. The topic is not called "client". */
  lemma OtherEvents(p: Payload, q: Payload, topic: string, i: nat, j: nat, partition: nat, other: nat)
    requires p.messageId == "" && q.messageId == "" && ':' !in topic && topic != "client"
    ensures EventId(p, topic, partition, i) == EventId(q, topic, other, j) <==>
              && p.clientId == q.clientId
              && (if p.clientId != "" then p.sender == q.sender else partition == other && i == j)
  {
    hide Decimal;
    if EventId(p, topic, partition, i) == EventId(q, topic, other, j) {
      if p.clientId != "" && q.clientId != "" {
        ClientEvent(p, q);
      } else if p.clientId == "" && q.clientId == "" {
        RecordEvent(topic, partition, i, other, j);
      } else if p.clientId != "" {
        ClientIsNoRecord(p, topic, other, j);
      } else {
        ClientIsNoRecord(q, topic, partition, i);
      }
    }
  }

  lemma SplitAfter(head: string, a: string, x: string, b: string, y: string)
    requires ':' !in a && ':' !in b && head + a + ":" + x == head + b + ":" + y
    ensures a == b && x == y
  {
    assert head + a + ":" + x == head + (a + ":" + x) && head + b + ":" + y == head + (b + ":" + y);
    SameSuffix(head, a + ":" + x, b + ":" + y);
    SplitColon(a, x, b, y);
  }

  lemma RecordEvent(topic: string, partition: nat, i: nat, other: nat, j: nat)
    requires topic + ":" + Decimal(partition) + ":" + Decimal(i) == topic + ":" + Decimal(other) + ":" + Decimal(j)
    ensures partition == other && i == j
  {
    hide Decimal;
    DecimalDigits(partition);
    DecimalDigits(other);
    SplitAfter(topic + ":", Decimal(partition), Decimal(i), Decimal(other), Decimal(j));
    DecimalIsInjective(partition, other);
    DecimalIsInjective(i, j);
  }

  lemma ClientIsNoRecord(p: Payload, topic: string, partition: nat, i: nat)
    requires ':' !in topic && topic != "client"
    ensures "client:" + Decimal(p.sender) + ":" + p.clientId != topic + ":" + Decimal(partition) + ":" + Decimal(i)
  {
    hide Decimal;
    var e, f := "client:" + Decimal(p.sender) + ":" + p.clientId, topic + ":" + Decimal(partition) + ":" + Decimal(i);
    var a, b := Decimal(p.sender) + ":" + p.clientId, Decimal(partition) + ":" + Decimal(i);
    if e == f {
      assert e == "client" + ":" + a && f == topic + ":" + b;
      SplitColon("client", a, topic, b);
    }
  }

  lemma ClientEvent(p: Payload, q: Payload)
    requires "client:" + Decimal(p.sender) + ":" + p.clientId == "client:" + Decimal(q.sender) + ":" + q.clientId
    ensures p.clientId == q.clientId && p.sender == q.sender
  {
    hide Decimal;
    DecimalDigits(p.sender);
    DecimalDigits(q.sender);
    SplitAfter("client:", Decimal(p.sender), p.clientId, Decimal(q.sender), q.clientId);
    DecimalIsInjective(p.sender, q.sender);
  }

  // ---------- rows and steps ----------

  datatype Status = Pending | Processing | Ignored | Approved | Rejected | NeedsReview | Chunked

  predicate IsDecision(s: Status) {
    s == Approved || s == Rejected || s == NeedsReview
  }

  /** What the moderation agent may say; its results are validated against these three. */
  type Decision = s: Status | IsDecision(s) witness NeedsReview

  datatype Row = Row(event: string, payload: Payload, status: Status)

  /** The tables, the batches workers hold (`claims` before moderation, `approved` after), and how far the
      consumer has come. `skipped` lists the offsets of records no agent takes. */
  datatype State = State(
    rows: map<nat, Row>, records: map<nat, Decision>, claims: seq<seq<nat>>, approved: seq<seq<nat>>,
    position: nat, committed: nat, skipped: set<nat>)

  const EMPTY: State := State(map[], map[], [], [], 0, 0, {})

  predicate HasEvent(rows: map<nat, Row>, event: string) {
    exists id :: id in rows && rows[id].event == event
  }

  predicate Distinct(ids: seq<nat>) {
    forall i, j :: 0 <= i < j < |ids| ==> ids[i] != ids[j]
  }

  function Mark(rows: map<nat, Row>, ids: seq<nat>, status: Status): map<nat, Row> {
    map id | id in rows :: if id in ids then rows[id].(status := status) else rows[id]
  }

  /** The `message_id` column. */
  function MessageKey(row: Row): string {
    if row.payload.messageId != "" then row.payload.messageId else row.event
  }

  /** A missing result counts as needing review. */
  function Decide(decisions: map<string, Decision>, row: Row): Decision {
    if MessageKey(row) in decisions then decisions[MessageKey(row)] else NeedsReview
  }

  predicate AllHave(rows: map<nat, Row>, ids: seq<nat>, status: Status) {
    forall i :: 0 <= i < |ids| ==> ids[i] in rows && rows[ids[i]].status == status
  }

  predicate Known(rows: map<nat, Row>, ids: seq<nat>) {
    forall i :: 0 <= i < |ids| ==> ids[i] in rows
  }

  /** The saved batch: statuses and records, if the unique key lets every record in. */
  function Moderated(rows: map<nat, Row>, ids: seq<nat>, decisions: map<string, Decision>): map<nat, Row> {
    map id | id in rows :: if id in ids then rows[id].(status := Decide(decisions, rows[id])) else rows[id]
  }

  function Recorded(rows: map<nat, Row>, records: map<nat, Decision>, ids: seq<nat>, decisions: map<string, Decision>)
    : map<nat, Decision>
    requires Known(rows, ids)
  {
    records + map id | id in ids :: Decide(decisions, rows[id])
  }

  function ApprovedOf(rows: map<nat, Row>, ids: seq<nat>, decisions: map<string, Decision>): seq<nat>
    requires Known(rows, ids)
  {
    if |ids| == 0 then []
    else
      var n := |ids| - 1;
      ApprovedOf(rows, ids[..n], decisions) + (if Decide(decisions, rows[ids[n]]) == Approved then [ids[n]] else [])
  }

  function Drop(lists: seq<seq<nat>>, k: nat): seq<seq<nat>>
    requires k < |lists|
  {
    lists[..k] + lists[k + 1..]
  }

  /** The partition the consumer reads. */
  datatype Feed = Feed(topic: string, partition: nat, log: seq<Payload>)

  function EventAt(feed: Feed, offset: nat): string
    requires offset < |feed.log|
  {
    EventId(feed.log[offset], feed.topic, feed.partition, offset)
  }

  datatype Step =
    | Consume(skip: bool, id: nat, commit: bool)
    | Restart
    | Requeue(ids: seq<nat>)
    | Claim(users: seq<nat>, bots: seq<nat>)
    | Save(claim: nat, decisions: map<string, Decision>)
    | Abandon(claim: nat)
    | Retry(ids: seq<nat>)
    | MarkChunked(batch: nat)

  /** The insert of one record; a row with the same event is left as it is. */
  function Inserted(rows: map<nat, Row>, id: nat, event: string, p: Payload): map<nat, Row> {
    if HasEvent(rows, event) then rows else rows[id := Row(event, p, Pending)]
  }

  /** One transaction; a step that is not enabled changes nothing. */
  function Apply(feed: Feed, s: State, step: Step): State {
    match step
    case Consume(skip, id, commit) =>
      if s.position >= |feed.log| || id in s.rows then s
      else
        var event := EventAt(feed, s.position);
        s.(rows := if skip then s.rows else Inserted(s.rows, id, event, feed.log[s.position]),
           skipped := if skip then s.skipped + {s.position} else s.skipped,
           position := s.position + 1,
           committed := if commit then s.position + 1 else s.committed)
    case Restart => s.(position := s.committed)
    case Requeue(ids) => if AllHave(s.rows, ids, Processing) then s.(rows := Mark(s.rows, ids, Pending)) else s
    case Claim(users, bots) =>
      if AllHave(s.rows, users + bots, Pending) && Distinct(users + bots)
      then s.(rows := Mark(Mark(s.rows, bots, Ignored), users, Processing), claims := s.claims + [users])
      else s
    case Save(k, decisions) =>
      if k >= |s.claims| || !Known(s.rows, s.claims[k]) then s
      else
        var ids := s.claims[k];
        if exists id :: id in ids && id in s.records then s.(claims := Drop(s.claims, k))
        else s.(rows := Moderated(s.rows, ids, decisions), records := Recorded(s.rows, s.records, ids, decisions),
                claims := Drop(s.claims, k), approved := s.approved + [ApprovedOf(s.rows, ids, decisions)])
    case Abandon(k) => if k < |s.claims| then s.(claims := Drop(s.claims, k)) else s
    case Retry(ids) => if AllHave(s.rows, ids, Approved) then s.(approved := s.approved + [ids]) else s
    case MarkChunked(k) => if k < |s.approved| then s.(rows := Mark(s.rows, s.approved[k], Chunked)) else s
  }

  function Run(feed: Feed, steps: seq<Step>): State {
    if |steps| == 0 then EMPTY else Apply(feed, Run(feed, steps[..|steps| - 1]), steps[|steps| - 1])
  }

  // ---------- what every run keeps ----------

  /** A row has a moderation record exactly if it was decided on, and the record says what was decided. */
  predicate RowOk(row: Row, id: nat, records: map<nat, Decision>) {
    match row.status
    case Pending => id !in records
    case Processing => id !in records
    case Ignored => id !in records
    case Chunked => id in records && records[id] == Approved
    case _ => id in records && records[id] == row.status
  }

  predicate RowsOk(rows: map<nat, Row>, records: map<nat, Decision>) {
    && records.Keys <= rows.Keys
    && forall id :: id in rows ==> RowOk(rows[id], id, records)
  }

  predicate EventsUnique(rows: map<nat, Row>) {
    forall i, j :: i in rows && j in rows && rows[i].event == rows[j].event ==> i == j
  }

  /** Batches handed on to chunking were approved. */
  predicate ListsOk(rows: map<nat, Row>, lists: seq<seq<nat>>) {
    forall k, i :: 0 <= k < |lists| && 0 <= i < |lists[k]| ==>
      lists[k][i] in rows && (rows[lists[k][i]].status == Approved || rows[lists[k][i]].status == Chunked)
  }

  predicate ClaimsOk(rows: map<nat, Row>, lists: seq<seq<nat>>) {
    forall k :: 0 <= k < |lists| ==> Known(rows, lists[k]) && Distinct(lists[k])
  }

  /** Every record read was skipped or has its row; so has every committed one. */
  ghost predicate FeedOk(feed: Feed, s: State) {
    && s.committed <= s.position <= |feed.log|
    && forall o: nat :: o < s.position ==> o in s.skipped || HasEvent(s.rows, EventAt(feed, o))
  }

  /** Every row was taken from a record of the feed. */
  ghost predicate Sourced(feed: Feed, rows: map<nat, Row>) {
    forall id :: id in rows ==> FromFeed(feed, rows[id].event, rows[id].payload)
  }

  ghost predicate FromFeed(feed: Feed, event: string, p: Payload) {
    exists o: nat :: o < |feed.log| && feed.log[o] == p && EventAt(feed, o) == event
  }

  ghost predicate Inv(feed: Feed, s: State) {
    && Sourced(feed, s.rows) && RowsOk(s.rows, s.records) && EventsUnique(s.rows)
    && ListsOk(s.rows, s.approved) && ClaimsOk(s.rows, s.claims) && FeedOk(feed, s)
  }

  /** The rows keep their ids and events. */
  predicate SameEvents(a: map<nat, Row>, b: map<nat, Row>) {
    a.Keys == b.Keys && forall id :: id in a ==> a[id].event == b[id].event && a[id].payload == b[id].payload
  }

  lemma EventsCarryOver(feed: Feed, s: State, t: State)
    requires EventsUnique(s.rows) && FeedOk(feed, s) && SameEvents(s.rows, t.rows) && Sourced(feed, s.rows)
    requires t.committed == s.committed && t.position == s.position && t.skipped == s.skipped
    ensures EventsUnique(t.rows) && FeedOk(feed, t) && Sourced(feed, t.rows)
  {
    hide EventAt, FromFeed;
    forall o: nat | o < t.position ensures o in t.skipped || HasEvent(t.rows, EventAt(feed, o)) {
      if o !in s.skipped {
        var id :| id in s.rows && s.rows[id].event == EventAt(feed, o);
        assert id in t.rows && t.rows[id].event == EventAt(feed, o);
      }
    }
  }

  lemma ConsumeKeeps(feed: Feed, s: State, skip: bool, id: nat, commit: bool)
    requires Inv(feed, s)
    ensures Inv(feed, Apply(feed, s, Consume(skip, id, commit)))
  {
    hide EventId;
    var t := Apply(feed, s, Consume(skip, id, commit));
    if t != s {
      var event := EventAt(feed, s.position);
      forall e | HasEvent(s.rows, e) ensures HasEvent(t.rows, e) {
        var k :| k in s.rows && s.rows[k].event == e;
        assert k in t.rows && t.rows[k].event == e;
      }
      assert FromFeed(feed, event, feed.log[s.position]);
      if !skip && !HasEvent(s.rows, event) {
        assert t.rows[id].event == event;
      }
      assert HasEvent(t.rows, event) || s.position in t.skipped;
    }
  }

  predicate Undecided(status: Status) {
    status == Pending || status == Processing || status == Ignored
  }

  /** Moving rows among the undecided statuses. */
  lemma MarkUndecided(rows: map<nat, Row>, records: map<nat, Decision>, lists: seq<seq<nat>>, claims: seq<seq<nat>>,
                      ids: seq<nat>, status: Status)
    requires RowsOk(rows, records) && ListsOk(rows, lists) && ClaimsOk(rows, claims) && Undecided(status)
    requires forall id :: id in ids ==> id in rows && Undecided(rows[id].status)
    ensures var after := Mark(rows, ids, status);
            RowsOk(after, records) && ListsOk(after, lists) && ClaimsOk(after, claims) && SameEvents(rows, after)
  {
    hide ClaimsOk;
    MarkKeepsClaims(rows, claims, ids, status);
    forall id | id in rows ensures RowOk(Mark(rows, ids, status)[id], id, records) {
      assert RowOk(rows[id], id, records);
    }
  }

  lemma HaveMembers(rows: map<nat, Row>, ids: seq<nat>, status: Status)
    requires AllHave(rows, ids, status)
    ensures forall id :: id in ids ==> id in rows && rows[id].status == status
  {
  }

  lemma RequeueKeeps(feed: Feed, s: State, ids: seq<nat>)
    requires Inv(feed, s)
    ensures Inv(feed, Apply(feed, s, Requeue(ids)))
  {
    hide FeedOk, RowsOk, ListsOk, ClaimsOk, EventsUnique, SameEvents, AllHave, Sourced;
    if AllHave(s.rows, ids, Processing) {
      HaveMembers(s.rows, ids, Processing);
      MarkUndecided(s.rows, s.records, s.approved, s.claims, ids, Pending);
      EventsCarryOver(feed, s, Apply(feed, s, Requeue(ids)));
    }
  }

  lemma MarkKeepsClaims(rows: map<nat, Row>, lists: seq<seq<nat>>, ids: seq<nat>, status: Status)
    requires ClaimsOk(rows, lists)
    ensures ClaimsOk(Mark(rows, ids, status), lists)
  {
  }

  lemma ClaimKeeps(feed: Feed, s: State, users: seq<nat>, bots: seq<nat>)
    requires Inv(feed, s)
    ensures Inv(feed, Apply(feed, s, Claim(users, bots)))
  {
    hide FeedOk, RowsOk, ListsOk, ClaimsOk, EventsUnique, SameEvents, AllHave, Distinct, Sourced;
    if AllHave(s.rows, users + bots, Pending) && Distinct(users + bots) {
      HaveMembers(s.rows, users + bots, Pending);
      MarkUndecided(s.rows, s.records, s.approved, s.claims, bots, Ignored);
      var once := Mark(s.rows, bots, Ignored);
      MarkUndecided(once, s.records, s.approved, s.claims, users, Processing);
      var twice := Mark(once, users, Processing);
      SameTwice(s.rows, once, twice);
      NewClaim(twice, s.claims, users, bots);
      EventsCarryOver(feed, s, Apply(feed, s, Claim(users, bots)));
    }
  }

  lemma SameTwice(a: map<nat, Row>, b: map<nat, Row>, c: map<nat, Row>)
    requires SameEvents(a, b) && SameEvents(b, c)
    ensures SameEvents(a, c)
  {
  }

  lemma NewClaim(rows: map<nat, Row>, claims: seq<seq<nat>>, users: seq<nat>, bots: seq<nat>)
    requires ClaimsOk(rows, claims) && Distinct(users + bots) && forall id :: id in users ==> id in rows
    ensures ClaimsOk(rows, claims + [users])
  {
    assert forall i :: 0 <= i < |users| ==> (users + bots)[i] == users[i];
  }

  lemma {:induction false} ApprovedMembers(rows: map<nat, Row>, ids: seq<nat>, decisions: map<string, Decision>)
    requires Known(rows, ids)
    ensures forall id :: id in ApprovedOf(rows, ids, decisions) <==>
              id in ids && Decide(decisions, rows[id]) == Approved
  {
    if |ids| > 0 {
      ApprovedMembers(rows, ids[..|ids| - 1], decisions);
      assert ids == ids[..|ids| - 1] + [ids[|ids| - 1]];
    }
  }

  lemma DropKeepsClaims(rows: map<nat, Row>, lists: seq<seq<nat>>, k: nat)
    requires ClaimsOk(rows, lists) && k < |lists|
    ensures ClaimsOk(rows, Drop(lists, k))
  {
    hide Known, Distinct;
    var d := Drop(lists, k);
    forall i | 0 <= i < |d| ensures Known(rows, d[i]) && Distinct(d[i]) {
      assert d[i] == lists[if i < k then i else i + 1];
    }
  }

  lemma ModeratedKeeps(rows: map<nat, Row>, records: map<nat, Decision>, ids: seq<nat>,
                       decisions: map<string, Decision>)
    requires RowsOk(rows, records) && Known(rows, ids) && forall id :: id in ids ==> id !in records
    ensures RowsOk(Moderated(rows, ids, decisions), Recorded(rows, records, ids, decisions))
  {
    hide Decide;
    var after, recorded := Moderated(rows, ids, decisions), Recorded(rows, records, ids, decisions);
    forall id | id in after ensures RowOk(after[id], id, recorded) {
      assert RowOk(rows[id], id, records);
    }
  }

  lemma ModeratedKeepsLists(s: State, ids: seq<nat>, decisions: map<string, Decision>)
    requires RowsOk(s.rows, s.records) && ListsOk(s.rows, s.approved) && Known(s.rows, ids)
    requires forall id :: id in ids ==> id !in s.records
    ensures ListsOk(Moderated(s.rows, ids, decisions), s.approved + [ApprovedOf(s.rows, ids, decisions)])
  {
    hide Decide, ApprovedOf;
    ApprovedMembers(s.rows, ids, decisions);
    var after, lists := Moderated(s.rows, ids, decisions), s.approved + [ApprovedOf(s.rows, ids, decisions)];
    forall k, i | 0 <= k < |lists| && 0 <= i < |lists[k]|
      ensures lists[k][i] in after && (after[lists[k][i]].status == Approved || after[lists[k][i]].status == Chunked)
    {
      var id := lists[k][i];
      if k < |s.approved| {
        assert s.approved[k][i] == id;
        assert RowOk(s.rows[id], id, s.records);
      } else {
        assert id in ApprovedOf(s.rows, ids, decisions);
      }
    }
  }

  lemma SaveKeeps(feed: Feed, s: State, k: nat, decisions: map<string, Decision>)
    requires Inv(feed, s)
    ensures Inv(feed, Apply(feed, s, Save(k, decisions)))
  {
    hide FeedOk, ListsOk, RowsOk, EventsUnique, Drop, ApprovedOf, Decide, Recorded, Sourced;
    var t := Apply(feed, s, Save(k, decisions));
    if k < |s.claims| && Known(s.rows, s.claims[k]) {
      var ids := s.claims[k];
      DropKeepsClaims(s.rows, s.claims, k);
      EventsCarryOver(feed, s, t);
      if !exists id :: id in ids && id in s.records {
        ModeratedKeeps(s.rows, s.records, ids, decisions);
        ModeratedKeepsLists(s, ids, decisions);
      }
    }
  }

  lemma ChunkKeeps(feed: Feed, s: State, k: nat)
    requires Inv(feed, s)
    ensures Inv(feed, Apply(feed, s, MarkChunked(k)))
  {
    hide FeedOk, Sourced;
    var t := Apply(feed, s, MarkChunked(k));
    if k < |s.approved| {
      EventsCarryOver(feed, s, t);
      MarkKeepsClaims(s.rows, s.claims, s.approved[k], Chunked);
      forall id | id in t.rows ensures RowOk(t.rows[id], id, t.records) {
        assert RowOk(s.rows[id], id, s.records);
      }
    }
  }

  lemma StepKeeps(feed: Feed, s: State, step: Step)
    requires Inv(feed, s)
    ensures Inv(feed, Apply(feed, s, step))
  {
    match step
    case Consume(skip, id, commit) => ConsumeKeeps(feed, s, skip, id, commit);
    case Restart =>
    case Requeue(ids) => RequeueKeeps(feed, s, ids);
    case Claim(users, bots) => ClaimKeeps(feed, s, users, bots);
    case Save(k, decisions) => SaveKeeps(feed, s, k, decisions);
    case Abandon(k) => if k < |s.claims| { DropKeepsClaims(s.rows, s.claims, k); }
    case Retry(ids) => if AllHave(s.rows, ids, Approved) { RetryKeeps(s, ids); }
    case MarkChunked(k) => ChunkKeeps(feed, s, k);
  }

  lemma RetryKeeps(s: State, ids: seq<nat>)
    requires ListsOk(s.rows, s.approved) && AllHave(s.rows, ids, Approved)
    ensures ListsOk(s.rows, s.approved + [ids])
  {
  }

  lemma {:induction false} RunKeepsInv(feed: Feed, steps: seq<Step>)
    ensures Inv(feed, Run(feed, steps))
  {
    if |steps| > 0 {
      hide Inv, Apply;
      RunKeepsInv(feed, steps[..|steps| - 1]);
      StepKeeps(feed, Run(feed, steps[..|steps| - 1]), steps[|steps| - 1]);
    }
  }

  // ---------- what follows ----------

  /** However often it is delivered, a formal message has at most one row. */
  lemma OneRowPerMessage(feed: Feed, steps: seq<Step>, i: nat, j: nat)
    requires var rows := Run(feed, steps).rows;
             i in rows && j in rows && rows[i].payload.messageId == rows[j].payload.messageId != ""
    ensures i == j
  {
    hide Run;
    RunKeepsInv(feed, steps);
    var rows := Run(feed, steps).rows;
    assert FromFeed(feed, rows[i].event, rows[i].payload) && FromFeed(feed, rows[j].event, rows[j].payload);
    var a: nat :| a < |feed.log| && feed.log[a] == rows[i].payload && EventAt(feed, a) == rows[i].event;
    var b: nat :| b < |feed.log| && feed.log[b] == rows[j].payload && EventAt(feed, b) == rows[j].event;
  }

  /** A row has a moderation record iff it is approved, rejected, up for review or chunked; a chunked
      row's record is an approval. */
  lemma RecordIffDecided(feed: Feed, steps: seq<Step>, id: nat)
    requires id in Run(feed, steps).rows
    ensures var s := Run(feed, steps);
            && (id in s.records <==> s.rows[id].status in {Approved, Rejected, NeedsReview, Chunked})
            && (s.rows[id].status == Chunked ==> s.records[id] == Approved)
            && (IsDecision(s.rows[id].status) ==> s.records[id] == s.rows[id].status)
  {
    hide Run, Inv;
    RunKeepsInv(feed, steps);
    RowFromInv(feed, Run(feed, steps), id);
  }

  lemma RowFromInv(feed: Feed, s: State, id: nat)
    requires Inv(feed, s) && id in s.rows
    ensures RowOk(s.rows[id], id, s.records)
  {
    hide FeedOk, Sourced, ListsOk, ClaimsOk, EventsUnique, RowOk;
  }

  /** A row becomes chunked only from approved. */
  lemma ChunkedOnlyFromApproved(feed: Feed, steps: seq<Step>, step: Step, id: nat)
    requires var s := Run(feed, steps); var t := Apply(feed, s, step);
             id in t.rows && t.rows[id].status == Chunked
    ensures var s := Run(feed, steps); id in s.rows && (s.rows[id].status == Approved || s.rows[id].status == Chunked)
  {
    hide Run;
    RunKeepsInv(feed, steps);
    var s := Run(feed, steps);
    hide Inv;
    ChunkStep(feed, s, step, id);
  }

  lemma ChunkStep(feed: Feed, s: State, step: Step, id: nat)
    requires Inv(feed, s) && id in Apply(feed, s, step).rows && Apply(feed, s, step).rows[id].status == Chunked
    ensures id in s.rows && (s.rows[id].status == Approved || s.rows[id].status == Chunked)
  {
    hide FeedOk, Sourced, ClaimsOk, EventsUnique, RowsOk;
    if step.MarkChunked? && step.batch < |s.approved| && id in s.approved[step.batch] {
      var i :| 0 <= i < |s.approved[step.batch]| && s.approved[step.batch][i] == id;
    }
  }

  /** The moderation results say `d` of the row: under its message id, or under its event if it has none. */
  predicate Says(decisions: map<string, Decision>, row: Row, d: Decision) {
    var key := if row.payload.messageId != "" then row.payload.messageId else row.event;
    key in decisions && decisions[key] == d
  }

  predicate Silent(decisions: map<string, Decision>, row: Row) {
    (if row.payload.messageId != "" then row.payload.messageId else row.event) !in decisions
  }

  /** The results lead to `d`: they say it, or they say nothing and `d` is review. */
  predicate Told(decisions: map<string, Decision>, row: Row, d: Decision) {
    Says(decisions, row, d) || (d == NeedsReview && Silent(decisions, row))
  }

  /** Step `n` saves the results of a batch that holds row `id`, and they lead to `d`. */
  ghost predicate SaidAt(feed: Feed, steps: seq<Step>, n: nat, id: nat, row: Row, d: Decision)
    requires n < |steps|
  {
    && steps[n].Save? && steps[n].claim < |Run(feed, steps[..n]).claims|
    && id in Run(feed, steps[..n]).claims[steps[n].claim]
    && Told(steps[n].decisions, row, d)
  }

  lemma RowStays(feed: Feed, s: State, step: Step, id: nat)
    requires id in s.rows
    ensures var t := Apply(feed, s, step);
            id in t.rows && t.rows[id].event == s.rows[id].event && t.rows[id].payload == s.rows[id].payload
  {
  }

  lemma NewRecord(feed: Feed, s: State, step: Step, id: nat)
    requires id !in s.records && id in Apply(feed, s, step).records
    ensures step.Save? && step.claim < |s.claims| && id in s.claims[step.claim] && id in s.rows
    ensures Told(step.decisions, s.rows[id], Apply(feed, s, step).records[id])
  {
    if step.Save? && step.claim < |s.claims| && Known(s.rows, s.claims[step.claim]) {
      RecordedKeys(s.rows, s.records, s.claims[step.claim], step.decisions);
    }
  }

  /** Every moderation record is what some saved batch said of that row; a record no result was given for
      says that review is needed. */
  lemma {:induction false} DecisionWasSaid(feed: Feed, steps: seq<Step>, id: nat)
    requires id in Run(feed, steps).records
    ensures id in Run(feed, steps).rows
    ensures exists n: nat :: n < |steps| && SaidAt(feed, steps, n, id, Run(feed, steps).rows[id],
                                                   Run(feed, steps).records[id])
  {
    hide Apply, Told;
    var m := |steps| - 1;
    var head := steps[..m];
    var s := Run(feed, head);
    if id in s.records {
      DecisionWasSaid(feed, head, id);
      DecisionsStand(feed, s, steps[m], id);
      RowStays(feed, s, steps[m], id);
      var n: nat :| n < m && SaidAt(feed, head, n, id, s.rows[id], s.records[id]);
      assert head[..n] == steps[..n];
      SaidOfRow(feed, head, steps, n, id, s.rows[id], Run(feed, steps).rows[id], s.records[id]);
    } else {
      NewRecord(feed, s, steps[m], id);
      RowStays(feed, s, steps[m], id);
      SaysOfRow(steps[m].decisions, s.rows[id], Run(feed, steps).rows[id]);
      assert SaidAt(feed, steps, m, id, Run(feed, steps).rows[id], Run(feed, steps).records[id]);
    }
  }

  lemma SaysOfRow(decisions: map<string, Decision>, a: Row, b: Row)
    requires a.event == b.event && a.payload == b.payload
    ensures forall d: Decision :: Told(decisions, a, d) <==> Told(decisions, b, d)
  {
  }

  lemma SaidOfRow(feed: Feed, head: seq<Step>, steps: seq<Step>, n: nat, id: nat, a: Row, b: Row, d: Decision)
    requires n < |head| <= |steps| && head[n] == steps[n] && head[..n] == steps[..n]
    requires SaidAt(feed, head, n, id, a, d) && a.event == b.event && a.payload == b.payload
    ensures SaidAt(feed, steps, n, id, b, d)
  {
    SaysOfRow(steps[n].decisions, a, b);
  }

  /** A row is approved, chunked or rejected only after a saved result that says so of its message. */
  lemma NothingPassesUnsaid(feed: Feed, steps: seq<Step>, id: nat)
    requires id in Run(feed, steps).rows
    ensures var row := Run(feed, steps).rows[id];
            && (row.status in {Approved, Chunked} ==>
                  exists n :: 0 <= n < |steps| && steps[n].Save? && Says(steps[n].decisions, row, Approved))
            && (row.status == Rejected ==>
                  exists n :: 0 <= n < |steps| && steps[n].Save? && Says(steps[n].decisions, row, Rejected))
  {
    hide Run, Says, Silent;
    RecordIffDecided(feed, steps, id);
    var s := Run(feed, steps);
    if id in s.records {
      DecisionWasSaid(feed, steps, id);
      var n: nat :| n < |steps| && SaidAt(feed, steps, n, id, s.rows[id], s.records[id]);
    }
  }

  // ---------- no row is stuck ----------

  lemma RunMore(feed: Feed, steps: seq<Step>, step: Step)
    ensures Run(feed, steps + [step]) == Apply(feed, Run(feed, steps), step)
  {
    assert (steps + [step])[..|steps|] == steps;
  }

  /** Whatever happened before, lost leases included, a waiting row can still get any decision. */
  lemma CanBeDecided(feed: Feed, steps: seq<Step>, id: nat, d: Decision) returns (more: seq<Step>)
    requires id in Run(feed, steps).rows && Run(feed, steps).rows[id].status in {Pending, Processing}
    ensures var s := Run(feed, steps + more); id in s.rows && s.rows[id].status == d
  {
    hide Run;
    if Run(feed, steps).rows[id].status == Processing {
      RunMore(feed, steps, Requeue([id]));
      var rest := CanBeClaimed(feed, steps + [Requeue([id])], id, d);
      more := [Requeue([id])] + rest;
      assert steps + more == steps + [Requeue([id])] + rest;
    } else {
      more := CanBeClaimed(feed, steps, id, d);
    }
  }

  lemma CanBeClaimed(feed: Feed, steps: seq<Step>, id: nat, d: Decision) returns (more: seq<Step>)
    requires id in Run(feed, steps).rows && Run(feed, steps).rows[id].status == Pending
    ensures var s := Run(feed, steps + more); id in s.rows && s.rows[id].status == d
  {
    hide Run, Inv;
    RunKeepsInv(feed, steps);
    var s := Run(feed, steps);
    var claim, save := Claim([id], []), Save(|s.claims|, map[MessageKey(s.rows[id]) := d]);
    more := [claim, save];
    RunMore(feed, steps, claim);
    RunMore(feed, steps + [claim], save);
    assert steps + more == steps + [claim] + [save];
    RowFromInv(feed, s, id);
    ClaimThenSave(feed, s, id, d);
  }

  lemma ClaimThenSave(feed: Feed, s: State, id: nat, d: Decision)
    requires id in s.rows && s.rows[id].status == Pending && id !in s.records
    ensures var save := Save(|s.claims|, map[MessageKey(s.rows[id]) := d]);
            var t := Apply(feed, Apply(feed, s, Claim([id], [])), save);
            id in t.rows && t.rows[id].status == d
  {
    assert [id] + [] == [id];
  }

  /** An approved row can still be chunked. */
  lemma CanBeChunked(feed: Feed, steps: seq<Step>, id: nat) returns (more: seq<Step>)
    requires id in Run(feed, steps).rows && Run(feed, steps).rows[id].status == Approved
    ensures var s := Run(feed, steps + more); id in s.rows && s.rows[id].status == Chunked
  {
    hide Run;
    var retry, mark := Retry([id]), MarkChunked(|Run(feed, steps).approved|);
    more := [retry, mark];
    RunMore(feed, steps, retry);
    RunMore(feed, steps + [retry], mark);
    assert steps + more == steps + [retry] + [mark];
  }

  /** A decision, once recorded, stands: a worker that saves later on a lost lease changes nothing. */
  lemma DecisionsStand(feed: Feed, s: State, step: Step, id: nat)
    requires id in s.records
    ensures id in Apply(feed, s, step).records && Apply(feed, s, step).records[id] == s.records[id]
  {
  }

  /** Every committed record was skipped or has its row. */
  lemma CommittedIsHandled(feed: Feed, steps: seq<Step>, o: nat)
    requires o < Run(feed, steps).committed
    ensures o < |feed.log| && (o in Run(feed, steps).skipped || HasEvent(Run(feed, steps).rows, EventAt(feed, o)))
  {
    RunKeepsInv(feed, steps);
  }

  // ---------- the transactions ----------

  /** Pending rows of a room: those of bots are ignored, the others go to the worker. */
  method ClaimBatch(rows: map<nat, Row>, ids: seq<nat>, isBot: nat -> bool)
    returns (after: map<nat, Row>, users: seq<nat>, bots: seq<nat>)
    requires AllHave(rows, ids, Pending) && Distinct(ids)
    ensures forall id :: id in users <==> id in ids && !isBot(id)
    ensures forall id :: id in bots <==> id in ids && isBot(id)
    ensures after == Mark(Mark(rows, bots, Ignored), users, Processing)
    ensures after.Keys == rows.Keys && forall id :: id in rows ==>
              after[id] == if id !in ids then rows[id]
                           else rows[id].(status := if isBot(id) then Ignored else Processing)
    ensures Distinct(users + bots) && AllHave(rows, users + bots, Pending)
  {
    hide Mark;
    after, users, bots := rows, [], [];
    MarkNone(rows, Ignored);
    MarkNone(rows, Processing);
    for i := 0 to |ids|
      invariant Distinct(users + bots) && after == Mark(Mark(rows, bots, Ignored), users, Processing)
      invariant forall id :: id in users <==> id in ids[..i] && !isBot(id)
      invariant forall id :: id in bots <==> id in ids[..i] && isBot(id)
    {
      var id := ids[i];
      assert id !in ids[..i];
      if isBot(id) {
        BotMore(rows, bots, users, id);
        assert users + (bots + [id]) == (users + bots) + [id];
        after := after[id := rows[id].(status := Ignored)];
        bots := bots + [id];
      } else {
        UserMore(rows, bots, users, id);
        MoveIn(users, bots, id);
        after := after[id := rows[id].(status := Processing)];
        users := users + [id];
      }
    }
    assert ids[..|ids|] == ids;
    forall i | 0 <= i < |users + bots| ensures (users + bots)[i] in ids {
      assert (users + bots)[i] in users || (users + bots)[i] in bots;
    }
    MarkedTwice(rows, bots, users);
  }

  lemma MarkedTwice(rows: map<nat, Row>, bots: seq<nat>, users: seq<nat>)
    ensures var after := Mark(Mark(rows, bots, Ignored), users, Processing);
            after.Keys == rows.Keys && forall id :: id in rows ==>
              after[id] == if id in users then rows[id].(status := Processing)
                           else if id in bots then rows[id].(status := Ignored) else rows[id]
  {
  }

  lemma BotMore(rows: map<nat, Row>, bots: seq<nat>, users: seq<nat>, id: nat)
    requires id in rows && id !in users
    ensures Mark(Mark(rows, bots + [id], Ignored), users, Processing)
            == Mark(Mark(rows, bots, Ignored), users, Processing)[id := rows[id].(status := Ignored)]
  {
  }

  lemma UserMore(rows: map<nat, Row>, bots: seq<nat>, users: seq<nat>, id: nat)
    requires id in rows
    ensures Mark(Mark(rows, bots, Ignored), users + [id], Processing)
            == Mark(Mark(rows, bots, Ignored), users, Processing)[id := rows[id].(status := Processing)]
  {
  }

  lemma MarkNone(rows: map<nat, Row>, status: Status)
    ensures Mark(rows, [], status) == rows
  {
  }

  lemma RowsMore(rows: map<nat, Row>, ids: seq<nat>, id: nat, decisions: map<string, Decision>)
    requires id in rows
    ensures Moderated(rows, ids + [id], decisions)
            == Moderated(rows, ids, decisions)[id := rows[id].(status := Decide(decisions, rows[id]))]
  {
    hide Decide;
  }

  lemma RecordsMore(rows: map<nat, Row>, records: map<nat, Decision>, ids: seq<nat>, id: nat,
                    decisions: map<string, Decision>)
    requires Known(rows, ids) && id in rows && Known(rows, ids + [id])
    ensures Recorded(rows, records, ids + [id], decisions)
            == Recorded(rows, records, ids, decisions)[id := Decide(decisions, rows[id])]
  {
    hide Decide;
  }

  lemma ApprovedMore(rows: map<nat, Row>, ids: seq<nat>, id: nat, decisions: map<string, Decision>)
    requires Known(rows, ids) && id in rows && Known(rows, ids + [id])
    ensures ApprovedOf(rows, ids + [id], decisions)
            == ApprovedOf(rows, ids, decisions) + (if Decide(decisions, rows[id]) == Approved then [id] else [])
  {
    hide Decide;
    assert (ids + [id])[..|ids|] == ids;
  }

  lemma RecordedKeys(rows: map<nat, Row>, records: map<nat, Decision>, ids: seq<nat>, decisions: map<string, Decision>)
    requires Known(rows, ids)
    ensures forall id :: id in Recorded(rows, records, ids, decisions) <==> id in records || id in ids
  {
  }

  lemma NothingModerated(rows: map<nat, Row>, records: map<nat, Decision>, decisions: map<string, Decision>)
    ensures Known(rows, []) && Moderated(rows, [], decisions) == rows
            && Recorded(rows, records, [], decisions) == records
    ensures ApprovedOf(rows, [], decisions) == []
  {
  }

  /** After a save: rows outside the batch are as before; a row of the batch has the status and the record the
      results say, review where they say nothing; and the approved rows of the batch are handed on. */
  ghost predicate SavedOk(rows: map<nat, Row>, records: map<nat, Decision>, ids: seq<nat>,
                          decisions: map<string, Decision>,
                          newRows: map<nat, Row>, newRecords: map<nat, Decision>, good: seq<nat>) {
    && newRows.Keys == rows.Keys
    && (forall id :: id in newRecords <==> id in records || id in ids)
    && (forall id :: id in records && id !in ids ==> newRecords[id] == records[id])
    && (forall id :: id in rows ==>
          if id in ids
          then newRows[id] == rows[id].(status := newRecords[id]) && Told(decisions, rows[id], newRecords[id])
          else newRows[id] == rows[id])
    && (forall id :: id in good <==> id in ids && newRecords[id] == Approved)
  }

  lemma SavedIsOk(rows: map<nat, Row>, records: map<nat, Decision>, ids: seq<nat>, decisions: map<string, Decision>)
    requires Known(rows, ids)
    ensures SavedOk(rows, records, ids, decisions, Moderated(rows, ids, decisions),
                    Recorded(rows, records, ids, decisions), ApprovedOf(rows, ids, decisions))
  {
    hide ApprovedOf, Told, Decide, Moderated, Recorded;
    ApprovedMembers(rows, ids, decisions);
    ModeratedAt(rows, ids, decisions);
    RecordedKeys(rows, records, ids, decisions);
    RecordedAt(rows, records, ids, decisions);
    forall id | id in rows ensures Told(decisions, rows[id], Decide(decisions, rows[id])) {
      DecideIsTold(decisions, rows[id]);
    }
  }

  lemma ModeratedAt(rows: map<nat, Row>, ids: seq<nat>, decisions: map<string, Decision>)
    ensures var after := Moderated(rows, ids, decisions);
            after.Keys == rows.Keys && forall id :: id in rows ==>
              after[id] == if id in ids then rows[id].(status := Decide(decisions, rows[id])) else rows[id]
  {
    hide Decide;
  }

  lemma RecordedAt(rows: map<nat, Row>, records: map<nat, Decision>, ids: seq<nat>, decisions: map<string, Decision>)
    requires Known(rows, ids)
    ensures var after := Recorded(rows, records, ids, decisions);
            && (forall id :: id in ids ==> id in rows && id in after && after[id] == Decide(decisions, rows[id]))
            && (forall id :: id in records && id !in ids ==> id in after && after[id] == records[id])
  {
    hide Decide;
  }

  lemma DecideIsTold(decisions: map<string, Decision>, row: Row)
    ensures Told(decisions, row, Decide(decisions, row))
  {
  }

  /** Decisions and records of a batch, undone as a whole when some row already has a record. */
  method ModerateBatch(rows: map<nat, Row>, records: map<nat, Decision>, ids: seq<nat>,
                       decisions: map<string, Decision>)
    returns (saved: bool, newRows: map<nat, Row>, newRecords: map<nat, Decision>, good: seq<nat>)
    requires Known(rows, ids) && Distinct(ids)
    ensures saved <==> !exists id :: id in ids && id in records
    ensures !saved ==> newRows == rows && newRecords == records
    ensures saved ==> newRows == Moderated(rows, ids, decisions)
    ensures saved ==> newRecords == Recorded(rows, records, ids, decisions)
    ensures saved ==> good == ApprovedOf(rows, ids, decisions)
    ensures saved ==> SavedOk(rows, records, ids, decisions, newRows, newRecords, good)
  {
    hide Decide, Moderated, Recorded, ApprovedOf, SavedOk;
    good, newRows, newRecords := [], rows, records;
    NothingModerated(rows, records, decisions);
    for i := 0 to |ids|
      invariant Known(rows, ids[..i]) && newRows == Moderated(rows, ids[..i], decisions)
      invariant newRecords == Recorded(rows, records, ids[..i], decisions)
      invariant good == ApprovedOf(rows, ids[..i], decisions)
      invariant forall id :: id in ids[..i] ==> id !in records
    {
      var id := ids[i];
      assert id !in ids[..i];
      RecordedKeys(rows, records, ids[..i], decisions);
      if id in newRecords {
        return false, rows, records, [];
      }
      var decision := Decide(decisions, rows[id]);
      assert ids[..i + 1] == ids[..i] + [id];
      RowsMore(rows, ids[..i], id, decisions);
      RecordsMore(rows, records, ids[..i], id, decisions);
      ApprovedMore(rows, ids[..i], id, decisions);
      newRecords := newRecords[id := decision];
      newRows := newRows[id := rows[id].(status := decision)];
      if decision == Approved {
        good := good + [id];
      }
    }
    assert ids[..|ids|] == ids;
    SavedIsOk(rows, records, ids, decisions);
    saved := true;
  }

  class AgentStore {
    const feed: Feed
    var rows: map<nat, Row>
    var records: map<nat, Decision>
    var position: nat
    var committed: nat
    var skipped: set<nat>

    ghost function Value(claims: seq<seq<nat>>, approved: seq<seq<nat>>): State
      reads this
    {
      State(rows, records, claims, approved, position, committed, skipped)
    }

    constructor (feed: Feed)
      ensures this.feed == feed && Value([], []) == EMPTY
    {
      this.feed := feed;
      rows, records, position, committed, skipped := map[], map[], 0, 0, {};
    }

    /** One record of `InboxConsumer.run`. A violated unique key is fine only if the event is there; the
        offset is committed afterwards, if the process lives. `id` is the next free key. */
    method ConsumeOne(agentTakes: bool, id: nat, ghost claims: seq<seq<nat>>, ghost approved: seq<seq<nat>>)
      returns (commit: bool)
      requires position < |feed.log| && id !in rows
      modifies this
      ensures Value(claims, approved) == Apply(feed, old(Value(claims, approved)), Consume(!agentTakes, id, commit))
      ensures var event, o := EventAt(feed, old(position)), old(position);
              && position == o + 1 && committed == (if commit then o + 1 else old(committed))
              && rows == (if agentTakes && !HasEvent(old(rows), event)
                          then old(rows)[id := Row(event, feed.log[o], Pending)] else old(rows))
    {
      var p, event := feed.log[position], EventAt(feed, position);
      if !agentTakes {
        skipped := skipped + {position};
      } else {
        var duplicate := HasEvent(rows, event);
        if !duplicate {
          rows := rows[id := Row(event, p, Pending)];
        }
      }
      commit := *;
      position := position + 1;
      if commit {
        committed := position;
      }
    }

    /** The claim of `_process_room`. */
    method ClaimRoom(ids: seq<nat>, isBot: nat -> bool, ghost claims: seq<seq<nat>>, ghost approved: seq<seq<nat>>)
      returns (users: seq<nat>, bots: seq<nat>)
      requires AllHave(rows, ids, Pending) && Distinct(ids)
      modifies `rows
      ensures forall id :: id in users <==> id in ids && !isBot(id)
      ensures forall id :: id in bots <==> id in ids && isBot(id)
      ensures Value(claims + [users], approved) == Apply(feed, old(Value(claims, approved)), Claim(users, bots))
      ensures rows.Keys == old(rows).Keys && forall id :: id in rows ==>
                rows[id] == if id !in ids then old(rows)[id]
                            else old(rows)[id].(status := if isBot(id) then Ignored else Processing)
    {
      rows, users, bots := ClaimBatch(rows, ids, isBot);
    }

    /** `_save_moderation`: one transaction over the batch. */
    method SaveModeration(ids: seq<nat>, decisions: map<string, Decision>, k: nat,
                          ghost claims: seq<seq<nat>>, ghost approved: seq<seq<nat>>)
      returns (saved: bool, good: seq<nat>)
      requires k < |claims| && claims[k] == ids && Known(rows, ids) && Distinct(ids)
      modifies `rows, `records
      ensures Value(Drop(claims, k), if saved then approved + [good] else approved)
              == Apply(feed, old(Value(claims, approved)), Save(k, decisions))
      ensures saved <==> !exists id :: id in ids && id in old(records)
      ensures if saved then SavedOk(old(rows), old(records), ids, decisions, rows, records, good)
              else rows == old(rows) && records == old(records)
    {
      hide Drop, Moderated, Recorded, ApprovedOf, Known, SavedOk;
      saved, rows, records, good := ModerateBatch(rows, records, ids, decisions);
    }

    /** `_mark_chunked`. */
    method MarkBatchChunked(ids: seq<nat>, k: nat, ghost claims: seq<seq<nat>>, ghost approved: seq<seq<nat>>)
      requires k < |approved| && approved[k] == ids && Known(rows, ids)
      modifies `rows
      ensures Value(claims, approved) == Apply(feed, old(Value(claims, approved)), MarkChunked(k))
      ensures rows.Keys == old(rows).Keys && forall id :: id in rows ==>
                rows[id] == if id in ids then old(rows)[id].(status := Chunked) else old(rows)[id]
    {
      var after := rows;
      for i := 0 to |ids|
        invariant after == Mark(rows, ids[..i], Chunked)
      {
        after := after[ids[i] := after[ids[i]].(status := Chunked)];
        assert ids[..i + 1] == ids[..i] + [ids[i]];
      }
      assert ids[..|ids|] == ids;
      rows := after;
    }
  }

  lemma MoveIn(users: seq<nat>, bots: seq<nat>, id: nat)
    requires Distinct(users + bots) && id !in users && id !in bots
    ensures Distinct(users + [id] + bots) && forall x :: x in users + [id] + bots <==> x == id || x in users + bots
  {
    var a, b, n := users + bots, users + [id] + bots, |users|;
    forall i, j | 0 <= i < j < |b| ensures b[i] != b[j] {
      if i == n {
        assert b[j] == bots[j - n - 1] && b[j] in bots;
      } else if j == n {
        assert b[i] == users[i] && b[i] in users;
      } else {
        assert b[i] == a[if i < n then i else i - 1] && b[j] == a[if j < n then j else j - 1];
      }
    }
  }
}
