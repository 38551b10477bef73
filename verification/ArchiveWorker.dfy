/** The archiver's consume-and-flush loop, with the store, the cache push and the saved offset as it calls
    them. Every run of the loop, wherever it fails or is cut off and whatever is soft-deleted meanwhile,
    is a run of the step machine of `Archive`, so what is proved there holds of the loop. */
module ArchiveWorker {
  import opened Envelopes
  import opened Archive

  lemma ReadStep(topic: seq<Envelope>, s: System)
    requires s.worker.Up? && s.worker.phase == Reading && s.worker.count < BATCH_SIZE && s.worker.pos < |topic|
    ensures Apply(topic, s, Read) ==
              s.(worker := if NumbersOk(topic[s.worker.pos]) then Up(s.worker.pos + 1, s.worker.count + 1, Reading)
                           else Down)
  {
  }

  lemma BatchGrows(topic: seq<Envelope>, pos: nat, count: nat)
    requires count <= pos < |topic|
    ensures topic[pos - count..pos] + [topic[pos]] == topic[pos - count..pos + 1]
  {
  }

  lemma CommittedKeys(t: Table, batch: seq<Envelope>)
    ensures Commits(t, batch) ==> forall i :: 0 <= i < |batch| ==> KeyOf(batch[i]) in Committed(t, batch).messages
  {
    hide InsertAll;
  }

  lemma Resumes(topic: seq<Envelope>, initial: Table, before: seq<Step>, offsetRead: bool)
    requires Keyed(initial.messages) && Run(topic, Boot(initial), before).worker == Down
    ensures var s := Run(topic, Boot(initial), before);
            && -1 <= s.saved < |topic|
            && Run(topic, Boot(initial), before + [if offsetRead then Start else StartOver])
               == s.(worker := Up(if offsetRead then s.saved + 1 else 0, 0, Reading))
  {
    hide Run, Inv;
    RunKeepsInv(topic, initial, before);
    SavedInRange(topic, initial.messages, Run(topic, Boot(initial), before));
    RunAppend(topic, Boot(initial), before, if offsetRead then Start else StartOver);
  }

  /** What a round of the loop meets: a cancellation, a tick, a record within the read timeout. */
  datatype Event = Event(cancelled: bool, ticked: bool, arrived: bool)

  function Arrivals(events: seq<Event>): nat {
    if |events| == 0 then 0 else Arrivals(events[..|events| - 1]) + (if events[|events| - 1].arrived then 1 else 0)
  }

  /** Enough records arrive to reach the end of the topic, and the last round flushes. */
  predicate Suffices(events: seq<Event>, missing: int) {
    && |events| > 0 && Arrivals(events) >= missing
    && (forall i :: 0 <= i < |events| - 1 ==> !events[i].cancelled)
    && var last := events[|events| - 1]; (last.ticked || last.cancelled) && !last.arrived
  }

  class ArchiverLoop {
    const topic: seq<Envelope>
    const repository: Repository
    ghost const initial: Table

    var saved: int
    var cached: seq<Envelope>
    var msgBatch: seq<Envelope>
    var lastOffset: int
    var position: nat
    ghost var worker: Worker
    ghost var covered: nat
    var fills: seq<seq<Envelope>>
    ghost var steps: seq<Step>

    ghost function Value(): System
      reads this, repository
    {
      System(repository.table, saved, cached, worker, covered, fills)
    }

    /** The object's state is the state of a run of the step machine. */
    ghost predicate Traced()
      reads this, repository
    {
      Keyed(initial.messages) && Value() == Run(topic, Boot(initial), steps)
    }

    /** Between flushes: the batch is what was read since the saved offset. */
    ghost predicate Reading()
      reads this, repository
    {
      && Traced()
      && worker == Up(position, |msgBatch|, Phase.Reading)
      && |msgBatch| <= position <= |topic| && msgBatch == topic[position - |msgBatch|..position]
      && (|msgBatch| > 0 ==> lastOffset == position - 1)
    }

    /** `NewWorker` after any earlier lifetimes: the store, cache and offset they left, and the steps that
        led there. Reading starts after the saved offset, or at the first record when the offset cannot
        be read. */
    constructor (topic: seq<Envelope>, repository: Repository, ghost initial: Table, ghost before: seq<Step>,
                 saved: int, cached: seq<Envelope>, ghost covered: nat, fills: seq<seq<Envelope>>, offsetRead: bool)
      requires Keyed(initial.messages)
      requires Run(topic, Boot(initial), before) == System(repository.table, saved, cached, Down, covered, fills)
      ensures Reading() && msgBatch == [] && position == if offsetRead then saved + 1 else 0
      ensures this.topic == topic && this.repository == repository && this.initial == initial
    {
      hide Run;
      Resumes(topic, initial, before, offsetRead);
      this.topic, this.repository, this.initial := topic, repository, initial;
      this.saved, this.cached, this.covered, this.fills := saved, cached, covered, fills;
      var startOffset := if offsetRead then saved + 1 else 0;
      msgBatch, lastOffset, position := [], 0, startOffset;
      worker := Up(startOffset, 0, Phase.Reading);
      steps := before + [if offsetRead then Step.Start else StartOver];
      new;
      assert topic[position..position] == [];
    }

    /** Soft deletes by other services, and history requests that read a page and later backfill it. */
    method Interfere()
      requires Traced()
      modifies repository, `steps, `cached, `fills
      ensures old(steps) <= steps
      ensures Traced()
      ensures repository.table.messages == old(repository.table.messages)
    {
      hide Run;
      var count: nat :| true;
      for i := 0 to count
        invariant Traced() && repository.table.messages == old(repository.table.messages) && old(steps) <= steps
      {
        var deletion: bool, request: bool := *, *;
        if deletion {
          Delete();
        } else if request {
          var keys: seq<RequestKey> :| true;
          RunAppend(topic, Boot(initial), steps, ReadPage(keys));
          fills := fills + [Undeleted(repository.table, keys)];
          steps := steps + [ReadPage(keys)];
        } else if |fills| > 0 {
          var k: nat :| k < |fills|;
          var landed: nat :| true;
          RunAppend(topic, Boot(initial), steps, Fill(k, landed));
          cached := cached + Cut(FillList(fills[k]), landed);
          fills := fills[..k] + fills[k + 1..];
          steps := steps + [Fill(k, landed)];
        }
      }
    }

    method Delete()
      requires Traced()
      modifies repository, `steps
      ensures old(steps) <= steps
      ensures Traced()
      ensures repository.table.messages == old(repository.table.messages)
    {
      hide Run;
      var sender: int :| true;
      var client: string :| true;
      var at: int :| true;
      var key := RequestKey(sender, client);
      RunAppend(topic, Boot(initial), steps, SoftDelete(key, at));
      if key in repository.table.messages && at != 0 {
        var t := repository.table;
        repository.table := t.(deletedAt := t.deletedAt[key := at]);
      }
      steps := steps + [SoftDelete(key, at)];
    }

    /** The worker stops where it is. */
    ghost method Stop()
      requires Traced()
      modifies `worker, `steps
      ensures old(steps) <= steps
      ensures Traced() && worker == Down
    {
      RunAppend(topic, Boot(initial), steps, Crash);
      worker, steps := Down, steps + [Crash];
    }

    /** The store transaction of the flush; after a database error it may have committed or not. */
    method Persist(healthy: bool) returns (ok: bool, rows: seq<Row>)
      requires Reading() && |msgBatch| > 0
      modifies repository, `worker, `covered, `steps
      ensures old(steps) <= steps
      ensures Traced()
      ensures ok ==> worker == Up(position, |msgBatch|, Persisted(rows))
      ensures !ok ==> worker == Down
      ensures healthy && Clean(initial.messages, topic) ==> ok
    {
      hide Run, Commits, InsertAll, StoredRows, Clean;
      RunAppend(topic, Boot(initial), steps, Step.Persist);
      ghost var before := Value();
      if Clean(initial.messages, topic) {
        hide Inv;
        RunKeepsInv(topic, initial, steps);
        CleanFlushCommits(topic, initial.messages, before);
      }
      var outcome: SaveOutcome;
      outcome, rows := repository.SaveMessageBatch(msgBatch, healthy);
      ok := outcome == Saved;
      if outcome != Failed || repository.table != before.table {
        CommittedKeys(before.table, msgBatch);
        if outcome == Refused {
          worker := Down;
        } else {
          worker := Up(position, |msgBatch|, Persisted(StoredRows(repository.table, msgBatch)));
          covered := Max(covered, position);
        }
        steps := steps + [Step.Persist];
        assert Value() == Apply(topic, before, Step.Persist);
      }
      if !ok {
        Stop();
      }
    }

    /** `pushLatestToRedis`: unless all is healthy the pipeline may be cut off anywhere. */
    method PushLatest(rows: seq<Row>, healthy: bool)
      requires Traced() && worker.Up? && worker.phase == Persisted(rows)
      modifies `cached, `worker, `steps
      ensures old(steps) <= steps
      ensures Traced() && worker == Up(old(worker).pos, old(worker).count, Pushed)
      ensures healthy ==> cached == old(cached) + PushList(rows)
    {
      hide Run;
      var list: seq<Envelope> := [];
      for i := 0 to |rows|
        invariant list == PushList(rows[..i])
      {
        assert rows[..i + 1][..i] == rows[..i];
        if rows[i].deletedAt != 0 || rows[i].message.roomSeq <= 0 || rows[i].message.roomSeq > MAX_SCORE {
          continue;
        }
        list := list + [rows[i].message];
      }
      assert rows[..|rows|] == rows;
      var landed: nat :| landed <= |list|;
      if healthy {
        landed := |list|;
      }
      RunAppend(topic, Boot(initial), steps, Push(landed));
      cached := cached + list[..landed];
      worker, steps := Up(worker.pos, worker.count, Pushed), steps + [Push(landed)];
    }

    /** `saveOffset`; an error may come back although the offset was stored. */
    method SaveOffset(healthy: bool) returns (ok: bool)
      requires Traced() && worker == Up(position, |msgBatch|, Pushed) && lastOffset == position - 1
      modifies `saved, `worker, `steps
      ensures old(steps) <= steps
      ensures Traced() && worker == if ok then Up(position, 0, Phase.Reading) else Down
      ensures (ok ==> saved == lastOffset) && (healthy ==> ok)
    {
      hide Run;
      var stored: bool := *;
      stored := stored || healthy;
      ok := stored;
      if stored {
        RunAppend(topic, Boot(initial), steps, Step.SaveOffset);
        saved := lastOffset;
        worker, steps := Up(position, 0, Phase.Reading), steps + [Step.SaveOffset];
        var answered: bool := *;
        ok := answered || healthy;
      }
      if !ok {
        Stop();
      }
    }

    /** `flush`: store, then cache, then offset; an error stops the worker. */
    method Flush(healthy: bool) returns (ok: bool)
      requires Reading()
      modifies this, repository
      ensures old(steps) <= steps
      ensures Traced() && (ok ==> Reading() && msgBatch == []) && (!ok ==> worker == Down)
      ensures ok ==> position == old(position) && saved == if |old(msgBatch)| > 0 then old(lastOffset) else old(saved)
      ensures healthy && Clean(initial.messages, topic) ==> ok
    {
      hide Run, PushList, Clean;
      if |msgBatch| == 0 {
        return true;
      }
      var rows: seq<Row>;
      ok, rows := Persist(healthy);
      if !ok {
        return;
      }
      Interfere();
      PushLatest(rows, healthy);
      Interfere();
      ok := SaveOffset(healthy);
      if !ok {
        return;
      }
      msgBatch := [];
      assert topic[position..position] == [];
    }

    /** Takes the next record into the batch; one that lacks its numbers stops the worker. */
    method ReadMessage() returns (ok: bool)
      requires Reading() && |msgBatch| < BATCH_SIZE && position < |topic|
      modifies `msgBatch, `lastOffset, `position, `worker, `steps
      ensures old(steps) <= steps
      ensures Traced() && (ok ==> Reading() && |msgBatch| == |old(msgBatch)| + 1) && (!ok ==> worker == Down)
      ensures ok <==> topic[old(position)].messageId > 0 && topic[old(position)].roomSeq > 0
      ensures ok ==> position == old(position) + 1 && msgBatch == old(msgBatch) + [topic[old(position)]]
    {
      hide Run, Apply;
      RunAppend(topic, Boot(initial), steps, Read);
      ReadStep(topic, Value());
      BatchGrows(topic, position, |msgBatch|);
      var envelope := topic[position];
      steps := steps + [Read];
      if envelope.messageId <= 0 || envelope.roomSeq <= 0 {
        worker := Down;
        return false;
      }
      msgBatch, lastOffset, position := msgBatch + [envelope], position, position + 1;
      worker := Up(position, |msgBatch|, Phase.Reading);
      return true;
    }

    /** One round of the loop: a flush if it is due, then a read, and a flush of a full batch. */
    method Round(event: Event, healthy: bool) returns (ok: bool)
      requires Reading() && |msgBatch| < BATCH_SIZE
      modifies this, repository
      ensures old(steps) <= steps
      ensures Traced() && (ok ==> Reading() && |msgBatch| < BATCH_SIZE)
      ensures healthy && Clean(initial.messages, topic) ==> ok
      ensures ok ==>
                position == if event.arrived && !event.cancelled && old(position) < |topic| then old(position) + 1
                            else old(position)
      ensures ok && !event.ticked && !event.cancelled && event.arrived && old(position) < |topic| ==>
                msgBatch == if |old(msgBatch)| < 999 then old(msgBatch) + [topic[old(position)]] else []
      ensures ok ==> Kept(old(position), old(saved))
      ensures ok && old(msgBatch) != [] ==> msgBatch != [] || saved == position - 1
      ensures ok && (event.ticked || event.cancelled) && !event.arrived ==> msgBatch == []
    {
      hide Run, Clean, Traced;
      Interfere();
      ok := true;
      if event.cancelled || event.ticked {
        ok := Flush(healthy);
      }
      if ok && !event.cancelled && event.arrived && position < |topic| {
        CleanNumbers(position);
        ok := ReadMessage();
        if ok && |msgBatch| >= BATCH_SIZE {
          ok := Flush(healthy);
        }
      }
    }

    lemma CleanNumbers(i: nat)
      requires i < |topic|
      ensures Clean(initial.messages, topic) ==> NumbersOk(topic[i])
    {
      hide InsertAll, AllReconcile;
    }

    /** A batch is held, or the offset is that of the last record read, or nothing was read since. */
    ghost predicate Kept(start: nat, offset: int)
      reads `position, `msgBatch, `saved
    {
      |msgBatch| > 0 || saved == position - 1 || (position == start && saved == offset)
    }

    /** The loop over any events. The saved offset never passes a record missing from the store, and a
        message that was deleted before, with no push of it pending, does not get into the cache. While all
        is healthy and the topic is clean, the loop stores every record that arrives and, once it flushes
        after the last one, has saved the end of the topic. */
    method Start(events: seq<Event>, healthy: bool)
      requires Reading() && |msgBatch| < BATCH_SIZE
      modifies this, repository
      ensures Traced()
      ensures -1 <= saved < |topic| && forall i :: 0 <= i <= saved ==> Archived(repository.table.messages, topic[i])
      ensures saved == |topic| - 1 ==> repository.table.messages == InsertAll(initial.messages, topic)
      ensures old(cached) <= cached
      ensures forall key :: old(Gone(Value(), key)) ==> !Mentions(cached[|old(cached)|..], key)
      ensures (&& healthy && Clean(initial.messages, topic) && Suffices(events, |topic| - old(position))
               && (old(saved) + 1 == old(position) || old(position) < |topic|)) ==>
                saved == |topic| - 1
    {
      hide Run, Archived, InsertAll, Gone, Clean;
      Rounds(events, healthy);
      OffsetNeverPassesStore(topic, initial, steps);
      assert steps[..|old(steps)|] == old(steps);
      CacheGrows(topic, initial, steps, |old(steps)|);
      forall key | old(Gone(Value(), key)) ensures !Mentions(cached[|old(cached)|..], key) {
        DeletedStaysOut(topic, initial, steps, |old(steps)|, key);
      }
    }

    method Rounds(events: seq<Event>, healthy: bool)
      requires Reading() && |msgBatch| < BATCH_SIZE
      modifies this, repository
      ensures Traced() && old(steps) <= steps
      ensures healthy && Clean(initial.messages, topic) && Suffices(events, |topic| - old(position)) ==>
                position == |topic| && msgBatch == [] && Kept(old(position), old(saved))
    {
      hide Run, Clean, Arrivals, Traced;
      var ok, i := true, 0;
      ghost var calm := healthy && Clean(initial.messages, topic) && Suffices(events, |topic| - position);
      assert events[..0] == [];
      NoArrivals();
      while ok && i < |events|
        invariant 0 <= i <= |events| && Traced() && (ok ==> Reading() && |msgBatch| < BATCH_SIZE) && old(steps) <= steps
        invariant calm ==> ok && Kept(old(position), old(saved)) && position == Reach(old(position), events[..i])
        invariant calm && i == |events| ==> msgBatch == []
        decreases |events| - i
      {
        ArrivalsPush(events, i);
        ok := Round(events[i], healthy);
        i := i + 1;
        if events[i - 1].cancelled {
          break;
        }
      }
      assert events[..|events|] == events;
    }

    /** Where reading stands after the arrivals. */
    ghost function Reach(start: nat, events: seq<Event>): nat {
      if start + Arrivals(events) < |topic| then start + Arrivals(events) else |topic|
    }
  }

  lemma NoArrivals()
    ensures Arrivals([]) == 0
  {
  }

  lemma ArrivalsPush(events: seq<Event>, i: nat)
    requires i < |events|
    ensures Arrivals(events[..i + 1]) == Arrivals(events[..i]) + (if events[i].arrived then 1 else 0)
  {
    assert events[..i + 1][..i] == events[..i];
  }
}
