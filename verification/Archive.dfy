/** The archiver and the message store. `Repository.SaveMessageBatch` is the store transaction: insert
    what conflicts with nothing, read back, reconcile. The worker around it reads the formal topic,
    flushes batches and saves its offset; `Apply` is one step of that system, with a crash, a failed
    call or a soft delete possible between any two of them. */
module Archive {
  import opened Envelopes

  const BATCH_SIZE: nat := 1000

  /** The message table, by its unique (sender, client id); soft-delete times are kept beside it. */
  type Messages = map<RequestKey, Envelope>

  datatype Table = Table(messages: Messages, deletedAt: map<RequestKey, int>)

  function DeletedAt(t: Table, k: RequestKey): int {
    if k in t.deletedAt then t.deletedAt[k] else 0
  }

  /** A row as the application holds it. */
  datatype Row = Row(message: Envelope, deletedAt: int)

  /** Two rows that a unique index forbids together: same id, same request, or same place in a room. */
  predicate Collide(a: Envelope, b: Envelope) {
    || a.messageId == b.messageId
    || KeyOf(a) == KeyOf(b)
    || (a.roomSeq > 0 && a.roomId == b.roomId && a.roomSeq == b.roomSeq)
  }

  predicate Conflicts(ms: Messages, m: Envelope) {
    exists k :: k in ms && Collide(m, ms[k])
  }

  /** `INSERT ... ON CONFLICT DO NOTHING`. */
  function InsertIgnore(ms: Messages, m: Envelope): Messages {
    if Conflicts(ms, m) then ms else ms[KeyOf(m) := m]
  }

  function InsertAll(ms: Messages, batch: seq<Envelope>): Messages {
    if |batch| == 0 then ms else InsertIgnore(InsertAll(ms, batch[..|batch| - 1]), batch[|batch| - 1])
  }

  /** The seven fields of a formal message that may never differ between two copies. */
  predicate SameFormal(a: Envelope, b: Envelope) {
    && a.messageId == b.messageId && a.roomSeq == b.roomSeq && a.roomId == b.roomId
    && a.senderId == b.senderId && a.clientId == b.clientId && a.content == b.content && a.kind == b.kind
  }

  /** `ReconcileMessage`: accepts a legacy message without number, or an identical formal one. */
  predicate Reconciles(incoming: Envelope, stored: Envelope) {
    incoming.roomSeq > 0 ==> SameFormal(incoming, stored)
  }

  predicate AllReconcile(ms: Messages, batch: seq<Envelope>) {
    forall i :: 0 <= i < |batch| ==> KeyOf(batch[i]) in ms && Reconciles(batch[i], ms[KeyOf(batch[i])])
  }

  /** The transaction commits exactly when every message of the batch reconciles. */
  predicate Commits(t: Table, batch: seq<Envelope>) {
    AllReconcile(InsertAll(t.messages, batch), batch)
  }

  function Committed(t: Table, batch: seq<Envelope>): Table {
    Table(InsertAll(t.messages, batch), t.deletedAt)
  }

  /** The stored rows of a batch, in batch order. */
  function StoredRows(t: Table, batch: seq<Envelope>): seq<Row>
    requires forall i :: 0 <= i < |batch| ==> KeyOf(batch[i]) in t.messages
  {
    seq(|batch|, i requires 0 <= i < |batch| => Row(t.messages[KeyOf(batch[i])], DeletedAt(t, KeyOf(batch[i]))))
  }

  method ReconcileMessage(incoming: Row, stored: Row) returns (ok: bool, reconciled: Row)
    ensures ok == Reconciles(incoming.message, stored.message)
    ensures var a, b := incoming.message, stored.message;
            ok <==> a.roomSeq <= 0 || a.(createdAt := 0) == b.(createdAt := 0)
    ensures reconciled == if ok then stored else incoming
  {
    var a, b := incoming.message, stored.message;
    if a.roomSeq > 0 && (a.messageId != b.messageId || a.roomSeq != b.roomSeq || a.roomId != b.roomId
                         || a.senderId != b.senderId || a.clientId != b.clientId
                         || a.content != b.content || a.kind != b.kind) {
      return false, incoming;
    }
    return true, stored;
  }

  /** How a store transaction ends for its caller; after `Failed` it may or may not have committed. */
  datatype SaveOutcome = Saved | Refused | Failed

  class Repository {
    var table: Table

    constructor ()
      ensures table == Table(map[], map[])
    {
      table := Table(map[], map[]);
    }

    /** Commits the whole batch and hands back the stored rows, or refuses it and changes nothing. A
        database that is not `healthy` may fail at any point, also after the commit. */
    method SaveMessageBatch(batch: seq<Envelope>, healthy: bool) returns (outcome: SaveOutcome, rows: seq<Row>)
      modifies this
      ensures outcome == Saved ==> Commits(old(table), batch) && table == Committed(old(table), batch)
      ensures outcome == Refused ==> !Commits(old(table), batch) && table == old(table)
      ensures outcome == Failed ==>
                table == old(table) || (Commits(old(table), batch) && table == Committed(old(table), batch))
      ensures outcome == Saved ==> forall i :: 0 <= i < |batch| ==> KeyOf(batch[i]) in table.messages
      ensures rows == if outcome == Saved then StoredRows(table, batch) else []
      ensures healthy ==> outcome != Failed
    {
      hide InsertAll, AllReconcile;
      if |batch| == 0 {
        NothingToSave(table.messages);
        return Saved, [];
      }
      var failed: bool := *;
      if failed && !healthy {
        return Failed, [];
      }
      var inserted := InsertBatch(table.messages, batch);
      var after := Table(inserted, table.deletedAt);
      var ok: bool;
      ok, rows := ReconcileBatch(after, batch);
      if !ok {
        return Refused, rows;
      }
      var rolledBack: bool, answered: bool := *, *;
      if rolledBack && !healthy {
        return Failed, [];
      }
      table := after;
      if !answered && !healthy {
        return Failed, [];
      }
      outcome := Saved;
    }
  }

  lemma NothingToSave(ms: Messages)
    ensures InsertAll(ms, []) == ms && AllReconcile(ms, [])
  {
  }

  /** `CreateInBatches` with conflicting rows skipped. */
  method InsertBatch(ms: Messages, batch: seq<Envelope>) returns (inserted: Messages)
    ensures inserted == InsertAll(ms, batch)
  {
    hide InsertIgnore;
    inserted := ms;
    for i := 0 to |batch|
      invariant inserted == InsertAll(ms, batch[..i])
    {
      assert batch[..i + 1][..i] == batch[..i];
      inserted := InsertIgnore(inserted, batch[i]);
    }
    assert batch[..|batch|] == batch;
  }

  /** Reads the rows back by client id and reconciles every message with the row of its request. */
  method ReconcileBatch(t: Table, batch: seq<Envelope>) returns (ok: bool, rows: seq<Row>)
    ensures ok == AllReconcile(t.messages, batch)
    ensures ok ==> forall i :: 0 <= i < |batch| ==> KeyOf(batch[i]) in t.messages
    ensures rows == if ok then StoredRows(t, batch) else []
  {
    hide Reconciles, DeletedAt;
    var clients := set m | m in batch :: m.clientId;
    var byKey := map k | k in t.messages && k.client in clients :: Row(t.messages[k], DeletedAt(t, k));
    rows := [];
    for i := 0 to |batch|
      invariant |rows| == i
      invariant forall j :: 0 <= j < i ==> KeyOf(batch[j]) in t.messages
      invariant forall j :: 0 <= j < i ==> Reconciles(batch[j], t.messages[KeyOf(batch[j])])
      invariant forall j :: 0 <= j < i ==>
        rows[j] == Row(t.messages[KeyOf(batch[j])], DeletedAt(t, KeyOf(batch[j])))
    {
      var key := KeyOf(batch[i]);
      assert batch[i] in batch && key.client in clients;
      if key !in byKey {
        return false, [];
      }
      var reconciled, row := ReconcileMessage(Row(batch[i], 0), byKey[key]);
      if !reconciled {
        return false, [];
      }
      rows := rows + [row];
    }
    ok := true;
  }

  // ---------- inserting ----------

  /** The table is keyed by (sender, client id). */
  predicate Keyed(ms: Messages) {
    forall k :: k in ms ==> KeyOf(ms[k]) == k
  }

  /** No stored message is changed or removed by inserting. */
  lemma {:induction false} InsertAllKeeps(ms: Messages, batch: seq<Envelope>)
    requires Keyed(ms)
    ensures Keyed(InsertAll(ms, batch))
    ensures forall k :: k in ms ==> k in InsertAll(ms, batch) && InsertAll(ms, batch)[k] == ms[k]
  {
    if |batch| > 0 {
      InsertAllKeeps(ms, batch[..|batch| - 1]);
      var before := InsertAll(ms, batch[..|batch| - 1]);
      var m := batch[|batch| - 1];
      if KeyOf(m) in before {
        assert Collide(m, before[KeyOf(m)]);
      }
    }
  }

  lemma {:induction false} InsertAllAppend(ms: Messages, a: seq<Envelope>, b: seq<Envelope>)
    ensures InsertAll(ms, a + b) == InsertAll(InsertAll(ms, a), b)
  {
    if |b| == 0 {
      assert a + b == a;
    } else {
      InsertAllAppend(ms, a, b[..|b| - 1]);
      assert (a + b)[..|a + b| - 1] == a + b[..|b| - 1];
    }
  }

  /** After a batch, each of its messages is in the table or collides with one that is. */
  lemma {:induction false} InsertedOrBlocked(ms: Messages, batch: seq<Envelope>, m: Envelope)
    requires Keyed(ms) && m in batch
    ensures Conflicts(InsertAll(ms, batch), m)
  {
    var head, last := batch[..|batch| - 1], batch[|batch| - 1];
    var before, after := InsertAll(ms, head), InsertAll(ms, batch);
    InsertAllKeeps(ms, head);
    if m == last {
      if !Conflicts(before, m) {
        assert Collide(m, after[KeyOf(m)]);
      }
    } else {
      assert m in head;
      InsertedOrBlocked(ms, head, m);
      var k :| k in before && Collide(m, before[k]);
      if KeyOf(last) in before {
        assert Collide(last, before[KeyOf(last)]);
      }
      assert k in after && after[k] == before[k];
    }
  }

  /** Replaying part of what was inserted changes nothing. */
  lemma {:induction false} ReplayIsNoOp(ms: Messages, batch: seq<Envelope>, again: seq<Envelope>)
    requires Keyed(ms) && forall m :: m in again ==> m in batch
    ensures InsertAll(InsertAll(ms, batch), again) == InsertAll(ms, batch)
  {
    if |again| > 0 {
      var last := again[|again| - 1];
      assert last in again;
      ReplayIsNoOp(ms, batch, again[..|again| - 1]);
      InsertedOrBlocked(ms, batch, last);
    }
  }

  function Max(a: nat, b: nat): nat { if a < b then b else a }

  /** Inserting a stretch that starts inside what was inserted only adds what lies beyond it. */
  lemma ReplayExtends(ms: Messages, topic: seq<Envelope>, from: nat, reached: nat, to: nat)
    requires Keyed(ms) && from <= reached <= |topic| && from <= to <= |topic|
    ensures InsertAll(InsertAll(ms, topic[..reached]), topic[from..to]) == InsertAll(ms, topic[..Max(reached, to)])
  {
    if to <= reached {
      forall m | m in topic[from..to] ensures m in topic[..reached] {
        var i :| 0 <= i < to - from && topic[from..to][i] == m;
        assert topic[..reached][from + i] == m;
      }
      ReplayIsNoOp(ms, topic[..reached], topic[from..to]);
    } else {
      var again, beyond := topic[from..reached], topic[reached..to];
      assert topic[from..to] == again + beyond && topic[..to] == topic[..reached] + beyond;
      ReplayExtends(ms, topic, from, reached, reached);
      InsertAllAppend(InsertAll(ms, topic[..reached]), again, beyond);
      InsertAllAppend(ms, topic[..reached], beyond);
    }
  }

  // ---------- the worker ----------

  /** Where a flush stands. `Persisted` carries the reconciled rows of the batch. */
  datatype Phase = Reading | Persisted(rows: seq<Row>) | Pushed

  /** A running worker has read the topic up to `pos` and holds the last `count` records as its batch. */
  datatype Worker = Down | Up(pos: nat, count: nat, phase: Phase)

  /** `saved` is the offset in Redis, -1 when there is none; `cached` lists what was pushed to the room
      caches; `covered` remembers how much of the topic store transactions have ever covered; `fills`
      holds the history pages that were read and are still to be put into the cache. */
  datatype System = System(
    table: Table, saved: int, cached: seq<Envelope>, worker: Worker, covered: nat, fills: seq<seq<Envelope>>)

  datatype Step =
    | Start
    | StartOver
    | Read
    | Persist
    | Push(landed: nat)
    | SaveOffset
    | Crash
    | SoftDelete(key: RequestKey, at: int)
    | ReadPage(keys: seq<RequestKey>)
    | Fill(page: nat, landed: nat)

  predicate NumbersOk(e: Envelope) {
    e.messageId > 0 && e.roomSeq > 0
  }

  predicate Pushable(r: Row) {
    r.deletedAt == 0 && 0 < r.message.roomSeq <= MAX_SCORE
  }

  /** The rows `pushLatestToRedis` sends, in batch order. */
  function PushList(rows: seq<Row>): seq<Envelope> {
    if |rows| == 0 then []
    else PushList(rows[..|rows| - 1])
         + (if Pushable(rows[|rows| - 1]) then [rows[|rows| - 1].message] else [])
  }

  /** The rows of a history page: whatever was asked for, without the deleted ones. */
  function Undeleted(t: Table, keys: seq<RequestKey>): seq<Envelope> {
    if |keys| == 0 then []
    else
      var k := keys[|keys| - 1];
      Undeleted(t, keys[..|keys| - 1])
      + (if k in t.messages && DeletedAt(t, k) == 0 then [t.messages[k]] else [])
  }

  /** The messages of a page `BackfillRoomCache` sends; it does not look at deletion again. */
  function FillList(page: seq<Envelope>): seq<Envelope> {
    if |page| == 0 then []
    else FillList(page[..|page| - 1])
         + (if 0 < page[|page| - 1].roomSeq <= MAX_SCORE then [page[|page| - 1]] else [])
  }

  function Cut(s: seq<Envelope>, n: nat): seq<Envelope> {
    if n < |s| then s[..n] else s
  }

  /** One step; a step that is not enabled changes nothing. A failed call stops the worker, as a crash does. */
  function Apply(topic: seq<Envelope>, s: System, step: Step): System {
    match step
    case Start =>
      if s.worker.Down? && s.saved >= -1 then s.(worker := Up(s.saved + 1, 0, Reading)) else s
    case StartOver =>
      if s.worker.Down? then s.(worker := Up(0, 0, Reading)) else s
    case Read =>
      if s.worker.Up? && s.worker.phase == Reading && s.worker.count < BATCH_SIZE && s.worker.pos < |topic| then
        if NumbersOk(topic[s.worker.pos]) then s.(worker := Up(s.worker.pos + 1, s.worker.count + 1, Reading))
        else s.(worker := Down)
      else s
    case Persist =>
      if s.worker.Up? && s.worker.phase == Reading && 0 < s.worker.count <= s.worker.pos <= |topic| then
        var pos := s.worker.pos;
        var batch := topic[pos - s.worker.count..pos];
        if Commits(s.table, batch) then
          var after := Committed(s.table, batch);
          s.(table := after, covered := Max(s.covered, pos),
             worker := Up(pos, s.worker.count, Persisted(StoredRows(after, batch))))
        else s.(worker := Down)
      else s
    case Push(landed) =>
      if s.worker.Up? && s.worker.phase.Persisted? then
        var all := PushList(s.worker.phase.rows);
        s.(cached := s.cached + Cut(all, landed),
           worker := Up(s.worker.pos, s.worker.count, Pushed))
      else s
    case SaveOffset =>
      if s.worker.Up? && s.worker.phase == Pushed then
        s.(saved := s.worker.pos - 1, worker := Up(s.worker.pos, 0, Reading))
      else s
    case Crash => s.(worker := Down)
    case SoftDelete(key, at) =>
      if key in s.table.messages && at != 0 then
        s.(table := s.table.(deletedAt := s.table.deletedAt[key := at]))
      else s
    case ReadPage(keys) => s.(fills := s.fills + [Undeleted(s.table, keys)])
    case Fill(k, landed) =>
      if k < |s.fills| then
        s.(cached := s.cached + Cut(FillList(s.fills[k]), landed), fills := s.fills[..k] + s.fills[k + 1..])
      else s
  }

  function Run(topic: seq<Envelope>, s: System, steps: seq<Step>): System {
    if |steps| == 0 then s else Apply(topic, Run(topic, s, steps[..|steps| - 1]), steps[|steps| - 1])
  }

  function Boot(table: Table): System {
    System(table, -1, [], Down, 0, [])
  }

  predicate Archived(ms: Messages, e: Envelope) {
    KeyOf(e) in ms && SameFormal(ms[KeyOf(e)], e)
  }

  /** The batch the worker holds starts no later than right after the saved offset. */
  predicate WorkerOk(topic: seq<Envelope>, s: System) {
    s.worker.Up? ==>
      && s.worker.count <= s.worker.pos <= |topic|
      && s.worker.pos - s.worker.count <= s.saved + 1
      && (forall i :: s.worker.pos - s.worker.count <= i < s.worker.pos ==> NumbersOk(topic[i]))
      && (s.worker.phase != Reading ==>
            && s.worker.count > 0 && s.worker.pos <= s.covered
            && AllReconcile(s.table.messages, topic[s.worker.pos - s.worker.count..s.worker.pos]))
  }

  predicate Inv(topic: seq<Envelope>, initial: Messages, s: System) {
    && Keyed(initial)
    && s.covered <= |topic| && -1 <= s.saved < s.covered
    && s.table.messages == InsertAll(initial, topic[..s.covered])
    && (forall i :: 0 <= i <= s.saved ==> Archived(s.table.messages, topic[i]))
    && WorkerOk(topic, s)
  }

  /** The store transaction of a batch that overlaps what was stored before. */
  lemma PersistKeepsInv(topic: seq<Envelope>, initial: Messages, s: System)
    requires Inv(topic, initial, s)
    ensures Inv(topic, initial, Apply(topic, s, Persist))
  {
    hide InsertAll, AllReconcile;
    if s.worker.Up? && s.worker.phase == Reading && s.worker.count > 0 {
      var from, pos := s.worker.pos - s.worker.count, s.worker.pos;
      var batch := topic[from..pos];
      if Commits(s.table, batch) {
        ReplayExtends(initial, topic, from, s.covered, pos);
        InsertAllKeeps(initial, topic[..s.covered]);
        InsertAllKeeps(s.table.messages, batch);
      }
    }
  }

  lemma SaveKeepsInv(topic: seq<Envelope>, initial: Messages, s: System)
    requires Inv(topic, initial, s)
    ensures Inv(topic, initial, Apply(topic, s, SaveOffset))
  {
    hide InsertAll;
    if s.worker.Up? && s.worker.phase == Pushed {
      var from, pos := s.worker.pos - s.worker.count, s.worker.pos;
      var batch := topic[from..pos];
      forall i | 0 <= i < pos ensures Archived(s.table.messages, topic[i]) {
        if i >= from {
          assert batch[i - from] == topic[i] && NumbersOk(topic[i]);
        }
      }
    }
  }

  lemma StepKeepsInv(topic: seq<Envelope>, initial: Messages, s: System, step: Step)
    requires Inv(topic, initial, s)
    ensures Inv(topic, initial, Apply(topic, s, step))
  {
    match step
    case Persist => PersistKeepsInv(topic, initial, s);
    case SaveOffset => SaveKeepsInv(topic, initial, s);
    case _ => hide InsertAll, AllReconcile, Archived;
  }

  /** Every run from start-up, with crashes and soft deletes anywhere, keeps the invariant. */
  lemma {:induction false} RunKeepsInv(topic: seq<Envelope>, table: Table, steps: seq<Step>)
    requires Keyed(table.messages)
    ensures Inv(topic, table.messages, Run(topic, Boot(table), steps))
  {
    if |steps| == 0 {
      assert topic[..0] == [];
    } else {
      hide Inv, Apply;
      RunKeepsInv(topic, table, steps[..|steps| - 1]);
      StepKeepsInv(topic, table.messages, Run(topic, Boot(table), steps[..|steps| - 1]), steps[|steps| - 1]);
    }
  }

  // ---------- what every run guarantees ----------

  /** No record up to the saved offset is missing from the store, and once the offset reaches the end
      of the topic the store is the one a run without crashes builds. */
  lemma OffsetNeverPassesStore(topic: seq<Envelope>, table: Table, steps: seq<Step>)
    requires Keyed(table.messages)
    ensures var s := Run(topic, Boot(table), steps);
            && -1 <= s.saved < |topic|
            && (forall i :: 0 <= i <= s.saved ==> Archived(s.table.messages, topic[i]))
            && (s.saved == |topic| - 1 ==> s.table.messages == InsertAll(table.messages, topic))
  {
    hide InsertAll, Run;
    RunKeepsInv(topic, table, steps);
    assert topic[..|topic|] == topic;
  }

  lemma StepKeepsStored(topic: seq<Envelope>, initial: Messages, s: System, step: Step)
    requires Inv(topic, initial, s)
    ensures forall k :: k in s.table.messages ==>
              && k in Apply(topic, s, step).table.messages
              && Apply(topic, s, step).table.messages[k] == s.table.messages[k]
  {
    hide InsertAll, AllReconcile;
    InsertAllKeeps(initial, topic[..s.covered]);
    if step.Persist? && s.worker.Up? {
      InsertAllKeeps(s.table.messages, topic[s.worker.pos - s.worker.count..s.worker.pos]);
    }
  }

  /** No stored message ever changes or disappears, whatever the topic holds. */
  lemma {:induction false} StoredNeverChanges(topic: seq<Envelope>, table: Table, steps: seq<Step>, n: nat,
                                              k: RequestKey)
    requires Keyed(table.messages) && n <= |steps|
    requires k in Run(topic, Boot(table), steps[..n]).table.messages
    ensures k in Run(topic, Boot(table), steps).table.messages
    ensures Run(topic, Boot(table), steps).table.messages[k] == Run(topic, Boot(table), steps[..n]).table.messages[k]
  {
    if n == |steps| {
      assert steps[..n] == steps;
    } else {
      hide Inv, Apply;
      var head := steps[..|steps| - 1];
      assert head[..n] == steps[..n];
      StoredNeverChanges(topic, table, head, n, k);
      RunKeepsInv(topic, table, head);
      StepKeepsStored(topic, table.messages, Run(topic, Boot(table), head), steps[|steps| - 1]);
    }
  }

  // ---------- recovery ----------

  /** The unique indexes: two stored rows that collide are the same row. */
  predicate UniqueRows(ms: Messages) {
    forall k, l :: k in ms && l in ms && Collide(ms[k], ms[l]) ==> k == l
  }

  lemma {:induction false} InsertAllKeepsUnique(ms: Messages, batch: seq<Envelope>)
    requires Keyed(ms) && UniqueRows(ms)
    ensures UniqueRows(InsertAll(ms, batch))
    ensures var after := InsertAll(ms, batch);
            forall k, l :: k in after && l in after && k != l ==>
              && after[k].messageId != after[l].messageId
              && !(after[k].roomSeq == after[l].roomSeq > 0 && after[k].roomId == after[l].roomId)
  {
    if |batch| > 0 {
      var head, m := batch[..|batch| - 1], batch[|batch| - 1];
      InsertAllKeepsUnique(ms, head);
      InsertAllKeeps(ms, head);
      var before, after := InsertAll(ms, head), InsertAll(ms, batch);
      if !Conflicts(before, m) {
        assert forall l :: l in before ==> !Collide(m, before[l]) && !Collide(before[l], m);
      }
    }
  }

  /** A topic whose every message is the stored one in the end: what the sequencer writes. */
  predicate Clean(initial: Messages, topic: seq<Envelope>) {
    && Keyed(initial) && UniqueRows(initial)
    && (forall i :: 0 <= i < |topic| ==> NumbersOk(topic[i]))
    && AllReconcile(InsertAll(initial, topic), topic)
  }

  /** On a clean topic every message is stored as soon as it was inserted. */
  lemma CleanPrefixIsStored(initial: Messages, topic: seq<Envelope>, n: nat, i: nat)
    requires Clean(initial, topic) && i < n <= |topic|
    ensures Archived(InsertAll(initial, topic[..n]), topic[i])
  {
    hide InsertAll;
    var m, part, final := topic[i], InsertAll(initial, topic[..n]), InsertAll(initial, topic);
    assert topic[..n][i] == m && m in topic[..n];
    InsertedOrBlocked(initial, topic[..n], m);
    var k :| k in part && Collide(m, part[k]);
    assert topic == topic[..n] + topic[n..];
    InsertAllAppend(initial, topic[..n], topic[n..]);
    InsertAllKeeps(initial, topic[..n]);
    InsertAllKeeps(part, topic[n..]);
    InsertAllKeepsUnique(initial, topic);
    assert NumbersOk(m) && SameFormal(m, final[KeyOf(m)]);
    assert Collide(final[KeyOf(m)], final[k]);
  }

  /** So no flush of a clean topic is ever refused, wherever the worker was restarted. */
  lemma CleanFlushCommits(topic: seq<Envelope>, initial: Messages, s: System)
    requires Inv(topic, initial, s) && Clean(initial, topic) && s.worker.Up?
    ensures s.worker.count <= s.worker.pos <= |topic|
            && Commits(s.table, topic[s.worker.pos - s.worker.count..s.worker.pos])
  {
    hide InsertAll;
    var from, pos := s.worker.pos - s.worker.count, s.worker.pos;
    var batch := topic[from..pos];
    ReplayExtends(initial, topic, from, s.covered, pos);
    forall i | 0 <= i < |batch|
      ensures Archived(InsertAll(s.table.messages, batch), batch[i])
    {
      CleanPrefixIsStored(initial, topic, Max(s.covered, pos), from + i);
    }
  }

  /** Flushing one record from a freshly flushed worker moves the offset by one. */
  lemma FlushOne(topic: seq<Envelope>, initial: Messages, s: System)
    requires Inv(topic, initial, s) && Clean(initial, topic)
    requires s.worker == Up(s.saved + 1, 0, Reading) && s.saved + 1 < |topic|
    ensures var t := Apply(topic, Apply(topic, Apply(topic, Apply(topic, s, Read), Persist), Push(0)), SaveOffset);
            t.saved == s.saved + 1 && t.worker == Up(t.saved + 1, 0, Reading)
  {
    hide InsertAll, AllReconcile;
    StepKeepsInv(topic, initial, s, Read);
    CleanFlushCommits(topic, initial, Apply(topic, s, Read));
  }

  lemma CrashAndStart(topic: seq<Envelope>, s: System)
    requires s.saved >= -1
    ensures var t := Apply(topic, Apply(topic, s, Crash), Start);
            t.saved == s.saved && t.worker == Up(s.saved + 1, 0, Reading)
  {
  }

  lemma RunAppend(topic: seq<Envelope>, s: System, steps: seq<Step>, step: Step)
    ensures Run(topic, s, steps + [step]) == Apply(topic, Run(topic, s, steps), step)
  {
    assert (steps + [step])[..|steps|] == steps;
  }

  /** From the state left by any run, a restart and replay can bring the offset to any later record. */
  lemma {:induction false} RecoveryReaches(topic: seq<Envelope>, table: Table, steps: seq<Step>, target: int)
    returns (more: seq<Step>)
    requires Clean(table.messages, topic)
    requires -1 <= target && Run(topic, Boot(table), steps).saved <= target < |topic|
    ensures Run(topic, Boot(table), steps + more).saved == target
    ensures Run(topic, Boot(table), steps + more).worker == Up(target + 1, 0, Reading)
    decreases target
  {
    hide *;
    CleanIsKeyed(table.messages, topic);
    RunKeepsInv(topic, table, steps);
    var s := Run(topic, Boot(table), steps);
    SavedInRange(topic, table.messages, s);
    if s.saved == target {
      more := [Crash, Start];
      CrashAndStart(topic, s);
      RunAppend(topic, Boot(table), steps, Crash);
      RunAppend(topic, Boot(table), steps + [Crash], Start);
      assert steps + more == (steps + [Crash]) + [Start];
    } else {
      var before := RecoveryReaches(topic, table, steps, target - 1);
      var so := steps + before;
      RunKeepsInv(topic, table, so);
      FlushOne(topic, table.messages, Run(topic, Boot(table), so));
      RunAppend(topic, Boot(table), so, Read);
      RunAppend(topic, Boot(table), so + [Read], Persist);
      RunAppend(topic, Boot(table), so + [Read] + [Persist], Push(0));
      RunAppend(topic, Boot(table), so + [Read] + [Persist] + [Push(0)], SaveOffset);
      more := before + [Read, Persist, Push(0), SaveOffset];
      assert steps + more == so + [Read] + [Persist] + [Push(0)] + [SaveOffset];
    }
  }

  lemma SavedInRange(topic: seq<Envelope>, initial: Messages, s: System)
    requires Inv(topic, initial, s)
    ensures -1 <= s.saved < |topic|
  {
  }

  lemma CleanIsKeyed(initial: Messages, topic: seq<Envelope>)
    requires Clean(initial, topic)
    ensures Keyed(initial)
  {
  }

  /** Wherever a run stopped, restart and replay reach the store of a run without crashes. */
  lemma RecoveryCompletes(topic: seq<Envelope>, table: Table, steps: seq<Step>) returns (more: seq<Step>)
    requires Clean(table.messages, topic)
    ensures Run(topic, Boot(table), steps + more).saved == |topic| - 1
    ensures Run(topic, Boot(table), steps + more).table.messages == InsertAll(table.messages, topic)
  {
    hide Run, InsertAll, Inv;
    RunKeepsInv(topic, table, steps);
    SavedInRange(topic, table.messages, Run(topic, Boot(table), steps));
    more := RecoveryReaches(topic, table, steps, |topic| - 1);
    OffsetNeverPassesStore(topic, table, steps + more);
  }

  // ---------- the cache push ----------

  lemma {:induction false} PushListIsPushable(rows: seq<Row>, e: Envelope)
    ensures e in PushList(rows) <==> exists i :: 0 <= i < |rows| && Pushable(rows[i]) && rows[i].message == e
  {
    if |rows| > 0 {
      PushListIsPushable(rows[..|rows| - 1], e);
    }
  }

  predicate OnlyDeletes(steps: seq<Step>) {
    forall i :: 0 <= i < |steps| ==> steps[i].SoftDelete?
  }

  lemma {:induction false} DeletesKeepWorker(topic: seq<Envelope>, s: System, steps: seq<Step>)
    requires OnlyDeletes(steps)
    ensures Run(topic, s, steps).worker == s.worker && Run(topic, s, steps).cached == s.cached
  {
    if |steps| > 0 {
      DeletesKeepWorker(topic, s, steps[..|steps| - 1]);
    }
  }

  lemma PersistStep(topic: seq<Envelope>, initial: Messages, s: System)
    requires Inv(topic, initial, s) && s.worker.Up? && s.worker.phase == Reading && s.worker.count > 0
    requires Commits(s.table, topic[s.worker.pos - s.worker.count..s.worker.pos])
    ensures var batch := topic[s.worker.pos - s.worker.count..s.worker.pos];
            var t := Committed(s.table, batch);
            && (forall i :: 0 <= i < |batch| ==>
                  KeyOf(batch[i]) in t.messages && Reconciles(batch[i], t.messages[KeyOf(batch[i])]))
            && Keyed(t.messages)
            && Apply(topic, s, Persist) == s.(table := t, covered := Max(s.covered, s.worker.pos),
                 worker := Up(s.worker.pos, s.worker.count, Persisted(StoredRows(t, batch))))
  {
    hide InsertAll, Reconciles;
    InsertAllKeeps(initial, topic[..s.covered]);
    InsertAllKeeps(s.table.messages, topic[s.worker.pos - s.worker.count..s.worker.pos]);
  }

  lemma StoredRowOf(t: Table, batch: seq<Envelope>, i: nat)
    requires i < |batch| && Keyed(t.messages) && forall j :: 0 <= j < |batch| ==> KeyOf(batch[j]) in t.messages
    ensures StoredRows(t, batch)[i].message == t.messages[KeyOf(batch[i])]
    ensures KeyOf(StoredRows(t, batch)[i].message) == KeyOf(batch[i])
    ensures StoredRows(t, batch)[i].deletedAt == DeletedAt(t, KeyOf(batch[i]))
  {
  }

  /** A flush that starts in `s` caches only messages that were not soft-deleted when its store transaction
      ran, however much of the push lands, and all of those when it lands whole; deletes that arrive
      before the push do not change that. */
  lemma FlushCachesUndeleted(topic: seq<Envelope>, initial: Messages, s: System, deletes: seq<Step>, landed: nat,
                             i: nat)
    requires Inv(topic, initial, s) && OnlyDeletes(deletes)
    requires s.worker.Up? && s.worker.phase == Reading && s.worker.pos - s.worker.count <= i < s.worker.pos
    requires Commits(s.table, topic[s.worker.pos - s.worker.count..s.worker.pos])
    ensures var stored := Apply(topic, s, Persist);
            var after := Apply(topic, Run(topic, stored, deletes), Push(landed));
            var key := KeyOf(topic[i]);
            var cacheable := DeletedAt(s.table, key) == 0 && topic[i].roomSeq <= MAX_SCORE;
            && key in stored.table.messages && s.cached <= after.cached
            && (stored.table.messages[key] in after.cached[|s.cached|..] ==> cacheable)
            && (landed >= s.worker.count && cacheable ==> stored.table.messages[key] in after.cached[|s.cached|..])
  {
    hide InsertAll, Inv, Commits, StoredRows, PushList, Reconciles;
    var from, pos := s.worker.pos - s.worker.count, s.worker.pos;
    BatchOk(topic, initial, s, i);
    PersistStep(topic, initial, s);
    var batch := topic[from..pos];
    var stored := Apply(topic, s, Persist);
    DeletesKeepWorker(topic, stored, deletes);
    var rows := StoredRows(stored.table, batch);
    assert batch[i - from] == topic[i];
    StoredRowOf(stored.table, batch, i - from);
    RowPushed(topic[i], rows, i - from, stored.table, batch);
    PushListIsShort(rows);
    RowsLength(stored.table, batch);
    var all := PushList(rows);
    var after := Apply(topic, Run(topic, stored, deletes), Push(landed));
    assert after.cached[|s.cached|..] == Cut(all, landed);
  }

  lemma BatchOk(topic: seq<Envelope>, initial: Messages, s: System, i: nat)
    requires Inv(topic, initial, s) && s.worker.Up? && s.worker.pos - s.worker.count <= i < s.worker.pos
    ensures 0 < s.worker.count <= s.worker.pos <= |topic| && NumbersOk(topic[i])
  {
    hide InsertAll, AllReconcile;
  }

  /** Row `j` is pushed exactly if the message was not deleted and its number is an exact score. */
  lemma RowPushed(e: Envelope, rows: seq<Row>, j: nat, t: Table, batch: seq<Envelope>)
    requires Keyed(t.messages) && j < |batch| && batch[j] == e && NumbersOk(e)
    requires forall i :: 0 <= i < |batch| ==>
               KeyOf(batch[i]) in t.messages && Reconciles(batch[i], t.messages[KeyOf(batch[i])])
    requires rows == StoredRows(t, batch)
    ensures t.messages[KeyOf(e)] in PushList(rows) <==> DeletedAt(t, KeyOf(e)) == 0 && e.roomSeq <= MAX_SCORE
  {
    hide PushList;
    var m := t.messages[KeyOf(e)];
    PushListIsPushable(rows, m);
    assert rows[j] == Row(m, DeletedAt(t, KeyOf(e)));
    if i :| 0 <= i < |rows| && Pushable(rows[i]) && rows[i].message == m {
      StoredRowOf(t, batch, i);
    }
  }

  lemma {:induction false} PushListIsShort(rows: seq<Row>)
    ensures |PushList(rows)| <= |rows|
  {
    if |rows| > 0 {
      PushListIsShort(rows[..|rows| - 1]);
    }
  }

  // ---------- soft-deleted messages over whole runs ----------

  predicate Mentions(es: seq<Envelope>, key: RequestKey) {
    exists i :: 0 <= i < |es| && KeyOf(es[i]) == key
  }

  /** A flush whose transaction ran before the message was deleted is about to push it. */
  predicate PushPending(s: System, key: RequestKey) {
    s.worker.Up? && s.worker.phase.Persisted? && Mentions(PushList(s.worker.phase.rows), key)
  }

  /** A page read before the message was deleted is about to be put into the cache. */
  predicate FillPending(s: System, key: RequestKey) {
    exists k :: 0 <= k < |s.fills| && Mentions(FillList(s.fills[k]), key)
  }

  /** Deleted, and in nobody's hands any more. */
  predicate Gone(s: System, key: RequestKey) {
    DeletedAt(s.table, key) != 0 && !PushPending(s, key) && !FillPending(s, key)
  }

  lemma PersistKeepsGone(topic: seq<Envelope>, initial: Messages, s: System, key: RequestKey)
    requires Inv(topic, initial, s) && Gone(s, key)
    ensures Gone(Apply(topic, s, Persist), key) && Apply(topic, s, Persist).cached == s.cached
  {
    hide InsertAll, AllReconcile, StoredRows, PushList, FillList;
    if s.worker.Up? && s.worker.phase == Reading && s.worker.count > 0 {
      var batch := topic[s.worker.pos - s.worker.count..s.worker.pos];
      if Commits(s.table, batch) {
        PersistStep(topic, initial, s);
        var t := Committed(s.table, batch);
        var rows := StoredRows(t, batch);
        forall i | 0 <= i < |PushList(rows)| ensures KeyOf(PushList(rows)[i]) != key {
          PushListIsPushable(rows, PushList(rows)[i]);
          var j :| 0 <= j < |rows| && Pushable(rows[j]) && rows[j].message == PushList(rows)[i];
          RowsLength(t, batch);
          StoredRowOf(t, batch, j);
        }
      }
    }
  }

  lemma RowsLength(t: Table, batch: seq<Envelope>)
    requires forall j :: 0 <= j < |batch| ==> KeyOf(batch[j]) in t.messages
    ensures |StoredRows(t, batch)| == |batch|
  {
  }

  lemma PushKeepsGone(topic: seq<Envelope>, s: System, key: RequestKey, landed: nat)
    requires Gone(s, key)
    ensures var t := Apply(topic, s, Push(landed));
            Gone(t, key) && s.cached <= t.cached && !Mentions(t.cached[|s.cached|..], key)
  {
    hide PushList, FillList;
    var t := Apply(topic, s, Push(landed));
    if s.worker.Up? && s.worker.phase.Persisted? {
      AppendedIs(s.cached, Cut(PushList(s.worker.phase.rows), landed));
    }
  }

  lemma AppendedIs(a: seq<Envelope>, b: seq<Envelope>)
    ensures (a + b)[|a|..] == b
  {
  }

  lemma FillKeepsGone(topic: seq<Envelope>, s: System, key: RequestKey, k: nat, landed: nat)
    requires Gone(s, key)
    ensures var t := Apply(topic, s, Fill(k, landed));
            Gone(t, key) && s.cached <= t.cached && !Mentions(t.cached[|s.cached|..], key)
  {
    hide PushList, FillList;
    var t := Apply(topic, s, Fill(k, landed));
    if k < |s.fills| {
      AppendedIs(s.cached, Cut(FillList(s.fills[k]), landed));
      forall i | 0 <= i < |t.fills| ensures !Mentions(FillList(t.fills[i]), key) {
        assert t.fills[i] == s.fills[if i < k then i else i + 1];
      }
    }
  }

  /** A backfill sends the messages of the page whose number is an exact score. */
  lemma {:induction false} FillListIff(page: seq<Envelope>, e: Envelope)
    ensures e in FillList(page) <==> e in page && 0 < e.roomSeq <= MAX_SCORE
  {
    if |page| > 0 {
      var n := |page| - 1;
      FillListIff(page[..n], e);
      assert page == page[..n] + [page[n]];
    }
  }

  /** A page holds the rows asked for that are stored and not deleted. */
  lemma {:induction false} PageRowsIff(t: Table, keys: seq<RequestKey>, e: Envelope)
    requires Keyed(t.messages)
    ensures e in Undeleted(t, keys) <==>
              KeyOf(e) in keys && KeyOf(e) in t.messages && t.messages[KeyOf(e)] == e && DeletedAt(t, KeyOf(e)) == 0
  {
    hide DeletedAt;
    if |keys| > 0 {
      var n := |keys| - 1;
      PageRowsIff(t, keys[..n], e);
      assert keys == keys[..n] + [keys[n]];
    }
  }

  lemma PageHasNoDeleted(t: Table, keys: seq<RequestKey>, key: RequestKey)
    requires Keyed(t.messages) && DeletedAt(t, key) != 0
    ensures !Mentions(FillList(Undeleted(t, keys)), key)
  {
    hide DeletedAt, FillList, Undeleted;
    var list := FillList(Undeleted(t, keys));
    forall i | 0 <= i < |list| ensures KeyOf(list[i]) != key {
      assert list[i] in list;
      FillListIff(Undeleted(t, keys), list[i]);
      PageRowsIff(t, keys, list[i]);
    }
  }

  lemma {:induction false} InvStays(topic: seq<Envelope>, initial: Messages, s: System, more: seq<Step>)
    requires Inv(topic, initial, s)
    ensures Inv(topic, initial, Run(topic, s, more)) && Keyed(Run(topic, s, more).table.messages)
  {
    if |more| > 0 {
      hide Inv, Apply;
      InvStays(topic, initial, s, more[..|more| - 1]);
      StepKeepsInv(topic, initial, Run(topic, s, more[..|more| - 1]), more[|more| - 1]);
    }
    InvIsKeyed(topic, initial, Run(topic, s, more));
  }

  lemma InvIsKeyed(topic: seq<Envelope>, initial: Messages, s: System)
    requires Inv(topic, initial, s)
    ensures Keyed(s.table.messages)
  {
    hide InsertAll;
    InsertAllKeeps(initial, topic[..s.covered]);
  }

  /** Once deleted, always deleted. */
  lemma {:induction false} DeletionStands(topic: seq<Envelope>, s: System, more: seq<Step>, key: RequestKey)
    requires DeletedAt(s.table, key) != 0
    ensures DeletedAt(Run(topic, s, more).table, key) != 0
  {
    hide InsertAll, StoredRows, Commits;
    if |more| > 0 {
      DeletionStands(topic, s, more[..|more| - 1], key);
    }
  }

  /** After a soft delete of a stored message, no page read at any later point of the run holds it. */
  lemma DeletedFromPages(topic: seq<Envelope>, initial: Messages, s: System, key: RequestKey, at: int,
                         more: seq<Step>, keys: seq<RequestKey>)
    requires Inv(topic, initial, s) && key in s.table.messages && at != 0
    ensures var t := Run(topic, Apply(topic, s, SoftDelete(key, at)), more);
            !Mentions(Undeleted(t.table, keys), key)
  {
    hide Run, Inv, Undeleted;
    StepKeepsInv(topic, initial, s, SoftDelete(key, at));
    InvStays(topic, initial, Apply(topic, s, SoftDelete(key, at)), more);
    DeletionStands(topic, Apply(topic, s, SoftDelete(key, at)), more, key);
    var t := Run(topic, Apply(topic, s, SoftDelete(key, at)), more);
    var page := Undeleted(t.table, keys);
    forall i | 0 <= i < |page| ensures KeyOf(page[i]) != key {
      assert page[i] in page;
      PageRowsIff(t.table, keys, page[i]);
    }
  }

  lemma ReadKeepsGone(topic: seq<Envelope>, initial: Messages, s: System, key: RequestKey, keys: seq<RequestKey>)
    requires Inv(topic, initial, s) && Gone(s, key)
    ensures Gone(Apply(topic, s, ReadPage(keys)), key)
  {
    hide PushList, FillList, InsertAll, Undeleted;
    InsertAllKeeps(initial, topic[..s.covered]);
    PageHasNoDeleted(s.table, keys, key);
  }

  lemma StepKeepsGone(topic: seq<Envelope>, initial: Messages, s: System, key: RequestKey, step: Step)
    requires Inv(topic, initial, s) && Gone(s, key)
    ensures var t := Apply(topic, s, step);
            Gone(t, key) && s.cached <= t.cached && !Mentions(t.cached[|s.cached|..], key)
  {
    match step
    case Persist => PersistKeepsGone(topic, initial, s, key);
    case Push(landed) => PushKeepsGone(topic, s, key, landed);
    case Fill(k, landed) => FillKeepsGone(topic, s, key, k, landed);
    case ReadPage(keys) => ReadKeepsGone(topic, initial, s, key, keys);
    case _ => hide Inv, InsertAll, AllReconcile, PushList, FillList;
  }

  /** From the moment a message is deleted and no flush or page that holds it from before is still to be
      pushed, nothing in any continuation puts it into the cache again: not crashes, restarts, replays,
      cut-off pushes or backfills. */
  lemma {:induction false} DeletedStaysOut(topic: seq<Envelope>, table: Table, steps: seq<Step>, n: nat,
                                           key: RequestKey)
    requires Keyed(table.messages) && n <= |steps|
    requires Gone(Run(topic, Boot(table), steps[..n]), key)
    ensures var before, after := Run(topic, Boot(table), steps[..n]), Run(topic, Boot(table), steps);
            && Gone(after, key) && before.cached <= after.cached
            && !Mentions(after.cached[|before.cached|..], key)
  {
    hide Inv, Apply, Gone;
    if n == |steps| {
      assert steps[..n] == steps;
    } else {
      var head := steps[..|steps| - 1];
      assert head[..n] == steps[..n];
      DeletedStaysOut(topic, table, head, n, key);
      RunKeepsInv(topic, table, head);
      var s := Run(topic, Boot(table), head);
      StepKeepsGone(topic, table.messages, s, key, steps[|steps| - 1]);
      MentionsAppend(Run(topic, Boot(table), steps[..n]).cached, s.cached, Run(topic, Boot(table), steps).cached, key);
    }
  }

  lemma {:induction false} RunKeepsGone(topic: seq<Envelope>, initial: Messages, s: System, more: seq<Step>,
                                        key: RequestKey)
    requires Inv(topic, initial, s) && Gone(s, key)
    ensures Inv(topic, initial, Run(topic, s, more)) && Gone(Run(topic, s, more), key)
    ensures s.cached <= Run(topic, s, more).cached && !Mentions(Run(topic, s, more).cached[|s.cached|..], key)
  {
    hide Inv, Apply, Gone;
    if |more| > 0 {
      var head := more[..|more| - 1];
      RunKeepsGone(topic, initial, s, head, key);
      StepKeepsGone(topic, initial, Run(topic, s, head), key, more[|more| - 1]);
      StepKeepsInv(topic, initial, Run(topic, s, head), more[|more| - 1]);
      MentionsAppend(s.cached, Run(topic, s, head).cached, Run(topic, s, more).cached, key);
    }
  }

  /** Some continuation puts the message into the cache. */
  ghost predicate CanReturn(topic: seq<Envelope>, s: System, key: RequestKey) {
    exists more :: s.cached <= Run(topic, s, more).cached && Mentions(Run(topic, s, more).cached[|s.cached|..], key)
  }

  /** A deleted message can get into the cache again exactly if a flush or a page still holds it. */
  lemma ReturnsIffHeld(topic: seq<Envelope>, initial: Messages, s: System, key: RequestKey)
    requires Inv(topic, initial, s) && DeletedAt(s.table, key) != 0
    ensures CanReturn(topic, s, key) <==> PushPending(s, key) || FillPending(s, key)
  {
    hide Inv, PushList, FillList;
    if PushPending(s, key) {
      var all := PushList(s.worker.phase.rows);
      OneStep(topic, s, Push(|all|));
      AppendedIs(s.cached, all);
      assert Mentions(Run(topic, s, [Push(|all|)]).cached[|s.cached|..], key);
    } else if FillPending(s, key) {
      var k: nat :| k < |s.fills| && Mentions(FillList(s.fills[k]), key);
      var all := FillList(s.fills[k]);
      OneStep(topic, s, Fill(k, |all|));
      AppendedIs(s.cached, all);
      assert Mentions(Run(topic, s, [Fill(k, |all|)]).cached[|s.cached|..], key);
    } else {
      forall more
        ensures s.cached <= Run(topic, s, more).cached && !Mentions(Run(topic, s, more).cached[|s.cached|..], key)
      {
        RunKeepsGone(topic, initial, s, more, key);
      }
    }
  }

  lemma OneStep(topic: seq<Envelope>, s: System, step: Step)
    ensures Run(topic, s, [step]) == Apply(topic, s, step)
  {
    assert [step][..0] == [];
    assert Run(topic, s, []) == s;
  }

  lemma {:induction false} CacheGrows(topic: seq<Envelope>, table: Table, steps: seq<Step>, n: nat)
    requires n <= |steps|
    ensures Run(topic, Boot(table), steps[..n]).cached <= Run(topic, Boot(table), steps).cached
  {
    if n == |steps| {
      assert steps[..n] == steps;
    } else {
      var head := steps[..|steps| - 1];
      assert head[..n] == steps[..n];
      hide Apply;
      CacheGrows(topic, table, head, n);
      StepGrowsCache(topic, Run(topic, Boot(table), head), steps[|steps| - 1]);
    }
  }

  lemma StepGrowsCache(topic: seq<Envelope>, s: System, step: Step)
    ensures s.cached <= Apply(topic, s, step).cached
  {
    hide Commits, Committed, StoredRows, PushList, FillList, Undeleted;
  }

  lemma MentionsAppend(a: seq<Envelope>, b: seq<Envelope>, c: seq<Envelope>, key: RequestKey)
    requires a <= b <= c && !Mentions(b[|a|..], key) && !Mentions(c[|b|..], key)
    ensures !Mentions(c[|a|..], key)
  {
    forall i | 0 <= i < |c| - |a| ensures KeyOf(c[|a|..][i]) != key {
      if i < |b| - |a| {
        assert b[|a|..][i] == c[|a|..][i];
      } else {
        assert c[|b|..][i - (|b| - |a|)] == c[|a|..][i];
      }
    }
  }
}
