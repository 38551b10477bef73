/** From the sequencer's output topic to the store and to the screen: what the three parts promise each
    other, and what a member of a room sees in the end. */
module EndToEnd {
  import opened Envelopes
  import opened Sequencing
  import opened SequencerLoop
  import Archive
  import Merging = MergeMessages

  /** Every message on the output topic is the formal message of a first request. */
  lemma OutputIsFormal(log: seq<Input>, p: Progress, e: Envelope) returns (f: nat)
    requires Consistent(log, p) && e in p.output
    ensures f < |log| && IsFirst(log, f) && e == Formal(log, f)
  {
    hide Answer, FirstCopies, Emitted, Formal, IsFirst;
    var all := Emitted(log, p.numbered);
    var k :| 0 <= k < |all| && all[k] == e;
    var i := EmittedIsAnswer(log, p.numbered, k);
    AssignMatchesReference(log, i);
    f := FirstIndex(log, i);
  }

  lemma {:induction false} RoomCountGrows(log: seq<Input>, m: nat, n: nat, room: int)
    requires m <= n <= |log|
    ensures RoomCount(log, m, room) <= RoomCount(log, n, room)
  {
    if m < n {
      RoomCountGrows(log, m, n - 1, room);
    }
  }

  /** Two messages that agree on an id, a request or a place in a room are one message. */
  lemma FormalsAreUnique(log: seq<Input>, f: nat, g: nat)
    requires IdsSuffice(log) && f < |log| && g < |log| && IsFirst(log, f) && IsFirst(log, g)
    requires Archive.Collide(Formal(log, f), Formal(log, g))
    ensures f == g
  {
    if f < g {
      FormalsDiffer(log, f, g);
    } else if g < f {
      FormalsDiffer(log, g, f);
    }
  }

  lemma FormalsDiffer(log: seq<Input>, f: nat, g: nat)
    requires IdsSuffice(log) && f < g < |log| && IsFirst(log, f) && IsFirst(log, g)
    ensures Formal(log, f).messageId != Formal(log, g).messageId && KeyOf(Formal(log, f)) != KeyOf(Formal(log, g))
    ensures Formal(log, f).roomId == Formal(log, g).roomId ==> Formal(log, f).roomSeq < Formal(log, g).roomSeq
  {
    hide IdsSuffice, LastId;
    FormalIdsIncrease(log, f, g);
    assert !SameRequest(log, f, g);
    RoomCountGrows(log, f + 1, g, log[g].envelope.roomId);
  }

  lemma OutputIsUnique(log: seq<Input>, p: Progress, a: Envelope, b: Envelope)
    requires IdsSuffice(log) && Consistent(log, p) && a in p.output && b in p.output && Archive.Collide(a, b)
    ensures a == b
  {
    hide Consistent, IdsSuffice, Formal, IsFirst;
    var f := OutputIsFormal(log, p, a);
    var g := OutputIsFormal(log, p, b);
    FormalsAreUnique(log, f, g);
  }

  // ---------- the store ----------

  lemma {:induction false} StoredIsWritten(topic: seq<Envelope>, k: RequestKey)
    requires k in Archive.InsertAll(map[], topic)
    ensures Archive.InsertAll(map[], topic)[k] in topic
  {
    var last := |topic| - 1;
    var before := Archive.InsertAll(map[], topic[..last]);
    if k in before && Archive.InsertAll(map[], topic)[k] == before[k] {
      StoredIsWritten(topic[..last], k);
    }
  }

  /** The archiver stores every output message as it was written, whatever repetitions the topic holds. */
  lemma OutputIsStored(log: seq<Input>, p: Progress, e: Envelope)
    requires IdsSuffice(log) && Consistent(log, p) && e in p.output
    ensures KeyOf(e) in Archive.InsertAll(map[], p.output) && Archive.InsertAll(map[], p.output)[KeyOf(e)] == e
  {
    hide Consistent, IdsSuffice, Archive.InsertAll;
    var ms := Archive.InsertAll(map[], p.output);
    Archive.InsertedOrBlocked(map[], p.output, e);
    var k :| k in ms && Archive.Collide(e, ms[k]);
    StoredIsWritten(p.output, k);
    OutputIsUnique(log, p, e, ms[k]);
    Archive.InsertAllKeeps(map[], p.output);
  }

  /** So the topic is one on which archiving from an empty store never stops, and recovery completes. */
  lemma OutputIsClean(log: seq<Input>, p: Progress)
    requires IdsSuffice(log) && Consistent(log, p)
    ensures Archive.Clean(map[], p.output)
  {
    hide Consistent, IdsSuffice, Archive.InsertAll;
    forall i | 0 <= i < |p.output|
      ensures Archive.NumbersOk(p.output[i])
      ensures KeyOf(p.output[i]) in Archive.InsertAll(map[], p.output)
      ensures Archive.Reconciles(p.output[i], Archive.InsertAll(map[], p.output)[KeyOf(p.output[i])])
    {
      OutputPassesGuards(log, p, i);
      OutputIsStored(log, p, p.output[i]);
    }
  }

  // ---------- the screen ----------

  /** A message as the browser receives it, live or from history. */
  function ToObject(e: Envelope): Merging.Object {
    map["id" := Merging.Num(e.messageId), "room_seq" := Merging.Num(e.roomSeq), "room_id" := Merging.Num(e.roomId),
        "sender_id" := Merging.Num(e.senderId), "client_msg_id" := Merging.Str(e.clientId),
        "type" := Merging.Num(e.kind), "content" := Merging.Str(e.content), "created_at" := Merging.Num(e.createdAt)]
  }

  /** Nothing of a message is lost on the way to the screen. */
  lemma ObjectsAreFaithful(a: Envelope, b: Envelope)
    ensures ToObject(a) == ToObject(b) <==> a == b
  {
    var x, y := ToObject(a), ToObject(b);
    if x == y {
      assert x["id"] == y["id"] && x["room_seq"] == y["room_seq"] && x["room_id"] == y["room_id"];
      assert x["sender_id"] == y["sender_id"] && x["client_msg_id"] == y["client_msg_id"];
      assert x["type"] == y["type"] && x["content"] == y["content"] && x["created_at"] == y["created_at"];
    }
  }

  function ToObjects(es: seq<Envelope>): (os: seq<Merging.Object>)
    ensures |os| == |es| && forall i :: 0 <= i < |es| ==> os[i] == ToObject(es[i])
  {
    seq(|es|, i requires 0 <= i < |es| => ToObject(es[i]))
  }

  predicate Keyed(e: Envelope) {
    e.messageId > 0 && e.roomSeq > 0 && e.clientId != ""
  }

  lemma ObjectKeys(e: Envelope)
    requires Keyed(e)
    ensures Merging.Formal(ToObject(e)) && Merging.Number(ToObject(e)) == e.roomSeq
    ensures Merging.Keys(ToObject(e)) == [
              Merging.ById(Merging.Num(e.roomId), e.messageId), Merging.BySeq(Merging.Num(e.roomId), e.roomSeq),
              Merging.ByClient(Merging.Num(e.roomId), Merging.Num(e.senderId), e.clientId)]
    ensures Merging.Ident(ToObject(e)) == Merging.ById(Merging.Num(e.roomId), e.messageId)
    ensures Merging.Field(ToObject(e), "room_id") == Merging.Num(e.roomId)
  {
  }

  lemma OutputIsKeyed(log: seq<Input>, p: Progress, e: Envelope)
    requires IdsSuffice(log) && Consistent(log, p) && e in p.output
    ensures Keyed(e)
  {
    hide Consistent, IdsSuffice;
    var f := OutputIsFormal(log, p, e);
    var k :| 0 <= k < |p.output| && p.output[k] == e;
    OutputPassesGuards(log, p, k);
  }

  lemma SharedAliasCollides(a: Envelope, b: Envelope)
    requires Keyed(a) && Keyed(b) && Merging.Shares(ToObject(a), ToObject(b))
    ensures Archive.Collide(a, b)
  {
    hide Merging.Keys, ToObject;
    ObjectKeys(a);
    ObjectKeys(b);
    var x :| x in Merging.Keys(ToObject(a)) && x in Merging.Keys(ToObject(b));
  }

  /** Copies of one room's output messages, in any order and number. */
  ghost predicate CopiesOf(output: seq<Envelope>, room: int, copies: seq<Envelope>) {
    && (forall e :: e in copies ==> e in output && e.roomId == room)
    && (forall e :: e in output && e.roomId == room ==> e in copies)
  }

  lemma CopiesAreConsistent(log: seq<Input>, p: Progress, room: int, copies: seq<Envelope>)
    requires IdsSuffice(log) && Consistent(log, p) && CopiesOf(p.output, room, copies)
    ensures Merging.Consistent(ToObjects(copies)) && Merging.OneRoom(ToObjects(copies))
  {
    hide Consistent, IdsSuffice, ToObject, Merging.Keys, Merging.Formal, Merging.Shares, Merging.Field, Keyed,
         Archive.Collide;
    var os := ToObjects(copies);
    forall i | 0 <= i < |os| ensures Merging.Formal(os[i]) && Merging.Field(os[i], "room_id") == Merging.Num(room) {
      assert copies[i] in copies;
      OutputIsKeyed(log, p, copies[i]);
      ObjectKeys(copies[i]);
    }
    forall i, j | 0 <= i < |os| && 0 <= j < |os| && Merging.Shares(os[i], os[j])
      ensures Merging.Keys(os[i]) == Merging.Keys(os[j])
    {
      assert copies[i] in copies && copies[j] in copies;
      OutputIsKeyed(log, p, copies[i]);
      OutputIsKeyed(log, p, copies[j]);
      SharedAliasCollides(copies[i], copies[j]);
      OutputIsUnique(log, p, copies[i], copies[j]);
    }
  }

  lemma {:induction false} RoomMembers(s: seq<Envelope>, room: int, e: Envelope)
    ensures e in InRoom(s, room) <==> e in s && e.roomId == room
  {
    if |s| > 0 {
      RoomMembers(s[..|s| - 1], room, e);
      assert s == s[..|s| - 1] + [s[|s| - 1]];
    }
  }

  lemma {:induction false} KeptIsWritten(s: seq<Envelope>, e: Envelope)
    requires e in FirstCopies(s)
    ensures e in s
  {
    if e in FirstCopies(s[..|s| - 1]) {
      KeptIsWritten(s[..|s| - 1], e);
    }
  }

  /** A reader who drops repeated ids loses no message. */
  lemma WrittenIsKept(log: seq<Input>, p: Progress, e: Envelope)
    requires IdsSuffice(log) && Consistent(log, p) && e in p.output
    ensures e in FirstCopies(p.output)
  {
    hide Consistent, IdsSuffice, FirstCopies;
    var kept := FirstCopies(p.output);
    CopiesHaveSameIds(p.output, e.messageId);
    var i :| 0 <= i < |kept| && kept[i].messageId == e.messageId;
    KeptIsWritten(p.output, kept[i]);
    OutputIsUnique(log, p, e, kept[i]);
  }

  lemma {:induction false} OverlayOfEqual(ms: seq<Merging.Object>, x: Merging.Object)
    requires forall i :: 0 <= i < |ms| && Merging.Ident(ms[i]) == Merging.Ident(x) ==> ms[i] == x
    ensures Merging.Overlay(ms, Merging.Ident(x)) == if x in ms then x else map[]
  {
    hide Merging.Ident;
    if |ms| > 0 {
      OverlayOfEqual(ms[..|ms| - 1], x);
      assert x + x == x;
      assert ms == ms[..|ms| - 1] + [ms[|ms| - 1]];
    }
  }

  /** The entry that shows a message is that message, unchanged. */
  lemma EntryIsMessage(log: seq<Input>, p: Progress, room: int, copies: seq<Envelope>, entry: Merging.Object, j: nat)
    requires IdsSuffice(log) && Consistent(log, p) && CopiesOf(p.output, room, copies) && j < |copies|
    requires Merging.Formal(entry) && Merging.Keys(entry) == Merging.Keys(ToObject(copies[j]))
    requires entry == Merging.Overlay(ToObjects(copies), Merging.Ident(entry))
    ensures entry == ToObject(copies[j])
  {
    hide Consistent, IdsSuffice, ToObject, Merging.Keys, Merging.Formal, Merging.Overlay, Merging.Ident, Keyed;
    var os, x := ToObjects(copies), ToObject(copies[j]);
    assert copies[j] in copies;
    OutputIsKeyed(log, p, copies[j]);
    ObjectKeys(copies[j]);
    Merging.RoomFromKeys(entry, x);
    forall i | 0 <= i < |os| && Merging.Ident(os[i]) == Merging.Ident(x) ensures os[i] == x {
      assert copies[i] in copies;
      OutputIsKeyed(log, p, copies[i]);
      ObjectKeys(copies[i]);
      OutputIsUnique(log, p, copies[i], copies[j]);
    }
    OverlayOfEqual(os, x);
    assert os[j] == x && x in os;
    Merging.RoomFromKeys(x, entry);
  }

  /** The messages of the room a reader of the topic keeps, as a member's screen should show them. */
  ghost function Expected(p: Progress, room: int): seq<Envelope> {
    InRoom(FirstCopies(p.output), room)
  }

  lemma ExpectedMembers(log: seq<Input>, p: Progress, room: int, copies: seq<Envelope>, e: Envelope)
    requires IdsSuffice(log) && Consistent(log, p) && CopiesOf(p.output, room, copies)
    ensures e in Expected(p, room) <==> e in copies
  {
    hide Consistent, IdsSuffice, FirstCopies, InRoom;
    RoomMembers(FirstCopies(p.output), room, e);
    if e in FirstCopies(p.output) {
      KeptIsWritten(p.output, e);
    } else if e in p.output {
      WrittenIsKept(log, p, e);
    }
  }

  lemma ShownIsCopy(log: seq<Input>, p: Progress, room: int, copies: seq<Envelope>, r: seq<Merging.Object>,
                    x: Merging.Object)
    requires IdsSuffice(log) && Consistent(log, p) && CopiesOf(p.output, room, copies)
    requires Merging.View(ToObjects(copies), r) && x in r
    ensures x in ToObjects(copies)
  {
    hide Consistent, IdsSuffice, CopiesOf, ToObject, Merging.Keys, Merging.Formal, Merging.Overlay, Merging.Ident;
    var i :| 0 <= i < |r| && r[i] == x;
    var j := Merging.EntryOrigin(ToObjects(copies), r, i);
    EntryIsMessage(log, p, room, copies, x, j);
    assert ToObjects(copies)[j] == x;
  }

  lemma CopyIsShown(log: seq<Input>, p: Progress, room: int, copies: seq<Envelope>, r: seq<Merging.Object>,
                    x: Merging.Object)
    requires IdsSuffice(log) && Consistent(log, p) && CopiesOf(p.output, room, copies)
    requires Merging.View(ToObjects(copies), r) && x in ToObjects(copies)
    ensures x in r
  {
    hide Consistent, IdsSuffice, CopiesOf, ToObject, Merging.Keys, Merging.Formal, Merging.Overlay, Merging.Ident;
    var j :| 0 <= j < |copies| && ToObjects(copies)[j] == x;
    var i := Merging.OriginEntry(ToObjects(copies), r, j);
    EntryIsMessage(log, p, room, copies, r[i], j);
  }

  lemma ObjectMembers(a: seq<Envelope>, b: seq<Envelope>, x: Merging.Object)
    requires (forall e :: e in a ==> e in b) && x in ToObjects(a)
    ensures x in ToObjects(b)
  {
    hide ToObject;
    var i :| 0 <= i < |a| && ToObjects(a)[i] == x;
    assert a[i] in b;
    var j :| 0 <= j < |b| && b[j] == a[i];
    assert ToObjects(b)[j] == x;
  }

  lemma ExpectedAscends(log: seq<Input>, p: Progress, room: int)
    requires IdsSuffice(log) && Consistent(log, p)
    ensures Merging.Ascending(ToObjects(Expected(p, room))) && Dense(Expected(p, room))
  {
    hide Consistent, IdsSuffice, FirstCopies, InRoom, ToObject, Merging.Number;
    ReaderSeesDenseRooms(log, p, room);
    var seen := Expected(p, room);
    forall i | 0 <= i < |seen| ensures Merging.Number(ToObjects(seen)[i]) == i + 1 {
      RoomNumber(seen[i]);
    }
  }

  lemma RoomNumber(e: Envelope)
    ensures Merging.Number(ToObject(e)) == e.roomSeq
  {
  }

  /** What a member sees: after any retries on the way in, lost acknowledgements, repeated deliveries and
      overlapping pages, the merged view of the room is its messages numbered 1 to n, in order, once
      each and unchanged. */
  lemma ScreenShowsTheRoom(log: seq<Input>, p: Progress, room: int, copies: seq<Envelope>,
                           collate: (Merging.Value, Merging.Value) -> bool)
    requires IdsSuffice(log) && Consistent(log, p) && CopiesOf(p.output, room, copies)
    ensures Merging.Merge(ToObjects(copies), collate) == ToObjects(Expected(p, room))
    ensures Dense(Expected(p, room))
  {
    hide *;
    var os, seen := ToObjects(copies), Expected(p, room);
    var r := Merging.Merge(os, collate);
    CopiesAreConsistent(log, p, room, copies);
    Merging.MergeIsView(os, collate);
    ViewAscends(os, r);
    ExpectedAscends(log, p, room);
    forall e ensures e in seen <==> e in copies { ExpectedMembers(log, p, room, copies, e); }
    forall x ensures x in r <==> x in ToObjects(seen) {
      if x in r {
        ShownIsCopy(log, p, room, copies, r, x);
        ObjectMembers(copies, seen, x);
      }
      if x in ToObjects(seen) {
        ObjectMembers(seen, copies, x);
        CopyIsShown(log, p, room, copies, r, x);
      }
    }
    Merging.AscendingIsUnique(r, ToObjects(seen));
  }

  lemma ViewAscends(ms: seq<Merging.Object>, r: seq<Merging.Object>)
    requires Merging.View(ms, r)
    ensures Merging.Ascending(r)
  {
  }
}
