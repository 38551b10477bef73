/** The single-process message sequencer. `Sequencer` is the object the service keeps: a counter per
    room, a table of accepted requests and the last id. `Reference` says what it answers without any
    state at all, from the log of inputs alone; `AssignMatchesReference` connects the two. */
module Sequencing {
  import opened Envelopes

  const EPOCH_MS: int := 1750000000000
  const TWO_63: int := 0x8000_0000_0000_0000
  const MAX_ID: int := TWO_63 - 1

  /** Two's complement 64-bit wrap-around. */
  function Wrap64(x: int): (r: int)
    ensures -TWO_63 <= r < TWO_63
    ensures (r - x) % TWO_64 == 0
    ensures -TWO_63 <= x < TWO_63 ==> r == x
  {
    var m := x % TWO_64;
    if m >= TWO_63 then m - TWO_64 else m
  }

  /** `(now - epoch) << 12` in 64 bits; any clock reading, before the epoch included. */
  function ClockId(nowMs: int): int {
    Wrap64((nowMs - EPOCH_MS) * 4096)
  }

  function NextId(lastId: int, nowMs: int): int {
    if ClockId(nowMs) <= lastId then Wrap64(lastId + 1) else ClockId(nowMs)
  }

  /** Whatever the clock says, the next id is positive and larger, unless the id space is used up. */
  lemma NextIdAdvances(lastId: int, nowMs: int)
    requires 0 <= lastId <= MAX_ID
    ensures lastId < MAX_ID <==> NextId(lastId, nowMs) > lastId
    ensures lastId < MAX_ID ==> 0 < NextId(lastId, nowMs) <= MAX_ID
  {
    assert ClockId(nowMs) <= MAX_ID;
    if lastId == MAX_ID {
      assert Wrap64(lastId + 1) == -TWO_63;
    }
  }

  /** One input together with the clock reading taken if it is numbered. */
  datatype Input = Input(envelope: Envelope, nowMs: int)

  datatype State = State(rooms: map<int, int>, requests: map<RequestKey, Envelope>, lastId: int)

  const INITIAL: State := State(map[], map[], 0)

  predicate IdentityOk(e: Envelope) {
    e.roomId > 0 && e.senderId > 0 && 0 < |e.clientId| <= 64
  }

  predicate SamePayload(a: Envelope, b: Envelope) {
    a.roomId == b.roomId && a.content == b.content && a.kind == b.kind
  }

  function Counter(rooms: map<int, int>, room: int): int {
    if room in rooms then rooms[room] else 0
  }

  /** What `Assign` does to the state and what it answers; `None` is a rejection. */
  function AssignStep(s: State, input: Input): (State, Option<Envelope>) {
    var e := input.envelope;
    if !IdentityOk(e) then (s, None)
    else if KeyOf(e) in s.requests then
      var first := s.requests[KeyOf(e)];
      (s, if SamePayload(first, e) then Some(first) else None)
    else
      var id := NextId(s.lastId, input.nowMs);
      var number := Counter(s.rooms, e.roomId) + 1;
      var accepted := e.(messageId := id, roomSeq := number);
      (State(s.rooms[e.roomId := number], s.requests[KeyOf(e) := accepted], id), Some(accepted))
  }

  class Sequencer {
    var rooms: map<int, int>
    var requests: map<RequestKey, Envelope>
    var lastId: int

    ghost function Value(): State
      reads this
    {
      State(rooms, requests, lastId)
    }

    constructor ()
      ensures Value() == INITIAL
    {
      rooms, requests, lastId := map[], map[], 0;
    }

    method Assign(e: Envelope, nowMs: int) returns (answer: Option<Envelope>)
      modifies this
      ensures (Value(), answer) == AssignStep(old(Value()), Input(e, nowMs))
    {
      if e.roomId <= 0 || e.senderId <= 0 || e.clientId == "" || |e.clientId| > 64 {
        return None;
      }
      var key := RequestKey(e.senderId, e.clientId);
      if key in requests {
        var first := requests[key];
        if first.roomId != e.roomId || first.content != e.content || first.kind != e.kind {
          return None;
        }
        return Some(first);
      }
      var id := Wrap64((nowMs - EPOCH_MS) * 4096);
      if id <= lastId {
        id := Wrap64(lastId + 1);
      }
      lastId := id;
      rooms := rooms[e.roomId := Counter(rooms, e.roomId) + 1];
      var accepted := e.(messageId := id, roomSeq := rooms[e.roomId]);
      requests := requests[key := accepted];
      return Some(accepted);
    }
  }

  // ---------- a whole log of inputs ----------

  /** The sequencer's state after the first `n` inputs. */
  function StateAfter(log: seq<Input>, n: nat): State
    requires n <= |log|
  {
    if n == 0 then INITIAL else AssignStep(StateAfter(log, n - 1), log[n - 1]).0
  }

  /** The answer to input `i`. */
  function Answer(log: seq<Input>, i: nat): Option<Envelope>
    requires i < |log|
  {
    AssignStep(StateAfter(log, i), log[i]).1
  }

  // ---------- the stateless reference ----------

  predicate SameRequest(log: seq<Input>, i: nat, j: nat)
    requires i < |log| && j < |log|
  {
    && IdentityOk(log[i].envelope) && IdentityOk(log[j].envelope)
    && KeyOf(log[i].envelope) == KeyOf(log[j].envelope)
  }

  /** Input `i` is the first well-formed one with its (sender, client id). */
  ghost predicate IsFirst(log: seq<Input>, i: nat)
    requires i < |log|
  {
    IdentityOk(log[i].envelope) && forall j: nat :: j < i ==> !SameRequest(log, j, i)
  }

  /** The first well-formed input with the same (sender, client id) as input `i`. */
  ghost function FirstIndex(log: seq<Input>, i: nat): (j: nat)
    requires i < |log| && IdentityOk(log[i].envelope)
    ensures j <= i && SameRequest(log, j, i) && IsFirst(log, j)
  {
    if IsFirst(log, i) then i
    else
      var j: nat :| j < i && SameRequest(log, j, i);
      FirstIndex(log, j)
  }

  /** How many of the first `n` inputs open a new request in `room`. */
  ghost function RoomCount(log: seq<Input>, n: nat, room: int): (count: nat)
    requires n <= |log|
  {
    if n == 0 then 0
    else RoomCount(log, n - 1, room)
         + (if IsFirst(log, n - 1) && log[n - 1].envelope.roomId == room then 1 else 0)
  }

  /** The last id handed out in the first `n` inputs. */
  ghost function LastId(log: seq<Input>, n: nat): int
    requires n <= |log|
  {
    if n == 0 then 0
    else if IsFirst(log, n - 1) then NextId(LastId(log, n - 1), log[n - 1].nowMs)
    else LastId(log, n - 1)
  }

  /** The formal message of a first input. */
  ghost function Formal(log: seq<Input>, j: nat): Envelope
    requires j < |log|
  {
    var e := log[j].envelope;
    e.(messageId := LastId(log, j + 1), roomSeq := RoomCount(log, j + 1, e.roomId))
  }

  /** Input `i` is answered with the formal message of its first occurrence, if the payload agrees. */
  ghost function Reference(log: seq<Input>, i: nat): Option<Envelope>
    requires i < |log|
  {
    if !IdentityOk(log[i].envelope) then None
    else
      var j := FirstIndex(log, i);
      if SamePayload(log[j].envelope, log[i].envelope) then Some(Formal(log, j)) else None
  }

  /** The request table holds exactly the first occurrences. */
  ghost predicate TableMatches(log: seq<Input>, n: nat, requests: map<RequestKey, Envelope>)
    requires n <= |log|
  {
    && (forall i: nat :: i < n && IdentityOk(log[i].envelope) ==>
          KeyOf(log[i].envelope) in requests
          && requests[KeyOf(log[i].envelope)] == Formal(log, FirstIndex(log, i)))
    && (forall k :: k in requests ==>
          exists i: nat :: i < n && IdentityOk(log[i].envelope) && KeyOf(log[i].envelope) == k)
  }

  lemma FirstIndexIsUnique(log: seq<Input>, i: nat, j: nat)
    requires i < |log| && j < |log| && SameRequest(log, i, j)
    ensures FirstIndex(log, i) == FirstIndex(log, j)
  {
    var a, b := FirstIndex(log, i), FirstIndex(log, j);
    assert SameRequest(log, a, b) && SameRequest(log, b, a);
  }

  lemma KeyKnownIffNotFirst(log: seq<Input>, i: nat, requests: map<RequestKey, Envelope>)
    requires i < |log| && IdentityOk(log[i].envelope)
    requires TableMatches(log, i, requests)
    ensures KeyOf(log[i].envelope) in requests <==> !IsFirst(log, i)
    ensures KeyOf(log[i].envelope) in requests ==>
              requests[KeyOf(log[i].envelope)] == Formal(log, FirstIndex(log, i))
  {
    if !IsFirst(log, i) {
      var j: nat :| j < i && SameRequest(log, j, i);
      FirstIndexIsUnique(log, i, j);
    } else if KeyOf(log[i].envelope) in requests {
      var j: nat :| j < i && IdentityOk(log[j].envelope) && KeyOf(log[j].envelope) == KeyOf(log[i].envelope);
      assert SameRequest(log, j, i);
    }
  }

  /** State and log agree after every prefix. */
  lemma {:induction false} StateMatchesLog(log: seq<Input>, n: nat)
    requires n <= |log|
    ensures TableMatches(log, n, StateAfter(log, n).requests)
    ensures StateAfter(log, n).lastId == LastId(log, n)
    ensures forall r :: Counter(StateAfter(log, n).rooms, r) == RoomCount(log, n, r)
  {
    hide TableMatches, IsFirst, NextId, Formal, FirstIndex;
    if n == 0 {
      EmptyTableMatches(log);
    } else {
      var i := n - 1;
      StateMatchesLog(log, i);
      var s := StateAfter(log, i);
      var e := log[i].envelope;
      if !IdentityOk(e) {
        MalformedKeepsTable(log, i, s.requests);
      } else {
        KeyKnownIffNotFirst(log, i, s.requests);
        if IsFirst(log, i) {
          FormalIsAccepted(log, i, s);
          TableGrows(log, i, s.requests);
        } else {
          RepeatKeepsTable(log, i, s.requests);
        }
      }
    }
  }

  lemma EmptyTableMatches(log: seq<Input>)
    ensures TableMatches(log, 0, map[])
  {
  }

  lemma MalformedKeepsTable(log: seq<Input>, i: nat, requests: map<RequestKey, Envelope>)
    requires i < |log| && !IdentityOk(log[i].envelope) && TableMatches(log, i, requests)
    ensures TableMatches(log, i + 1, requests) && !IsFirst(log, i)
  {
  }

  lemma RepeatKeepsTable(log: seq<Input>, i: nat, requests: map<RequestKey, Envelope>)
    requires i < |log| && IdentityOk(log[i].envelope) && !IsFirst(log, i) && TableMatches(log, i, requests)
    ensures TableMatches(log, i + 1, requests)
  {
    KeyKnownIffNotFirst(log, i, requests);
  }

  lemma FormalIsAccepted(log: seq<Input>, i: nat, s: State)
    requires i < |log| && IsFirst(log, i)
    requires s.lastId == LastId(log, i)
    requires Counter(s.rooms, log[i].envelope.roomId) == RoomCount(log, i, log[i].envelope.roomId)
    ensures Formal(log, i) == log[i].envelope.(messageId := NextId(s.lastId, log[i].nowMs),
                                               roomSeq := Counter(s.rooms, log[i].envelope.roomId) + 1)
  {
  }

  lemma TableGrows(log: seq<Input>, i: nat, requests: map<RequestKey, Envelope>)
    requires i < |log| && IsFirst(log, i)
    requires TableMatches(log, i, requests)
    ensures TableMatches(log, i + 1, requests[KeyOf(log[i].envelope) := Formal(log, i)])
  {
    forall j: nat | j < i && IdentityOk(log[j].envelope)
      ensures KeyOf(log[j].envelope) != KeyOf(log[i].envelope)
    {
      assert !SameRequest(log, j, i);
    }
  }

  /** The stateful sequencer answers every input as the stateless reference does. */
  lemma AssignMatchesReference(log: seq<Input>, i: nat)
    requires i < |log|
    ensures Answer(log, i) == Reference(log, i)
  {
    StateMatchesLog(log, i);
    if IdentityOk(log[i].envelope) {
      KeyKnownIffNotFirst(log, i, StateAfter(log, i).requests);
    }
  }

  /** A new request is accepted at once, and only its id and number are set. */
  lemma NewRequestIsAccepted(log: seq<Input>, i: nat)
    requires i < |log|
    ensures IsFirst(log, i) ==> Answer(log, i) == Some(Formal(log, i))
    ensures IsFirst(log, i) ==>
              exists id, number :: Formal(log, i) == log[i].envelope.(messageId := id, roomSeq := number)
  {
    AssignMatchesReference(log, i);
    if IsFirst(log, i) {
      assert FirstIndex(log, i) == i;
    }
  }

  /** An input with a known (sender, client id) gets the first answer again if room, content and kind are
      those of the first input, and is rejected otherwise, however much came in between. */
  lemma RetryGetsFirstAnswer(log: seq<Input>, i: nat, j: nat)
    requires i < j < |log|
    requires var a, b := log[i].envelope, log[j].envelope;
             a.roomId > 0 && b.roomId > 0 && a.senderId == b.senderId > 0 && a.clientId == b.clientId
    requires 0 < |log[i].envelope.clientId| <= 64 && Answer(log, i).Some?
    ensures var a, b := log[i].envelope, log[j].envelope;
            Answer(log, j) == if a.roomId == b.roomId && a.content == b.content && a.kind == b.kind
                              then Answer(log, i) else None
  {
    hide Formal, FirstIndex;
    AssignMatchesReference(log, i);
    AssignMatchesReference(log, j);
    assert SameRequest(log, i, j);
    FirstIndexIsUnique(log, i, j);
  }

  /** An input without room, sender or client id, or with too long a client id, is rejected, and no
      other input is unless its request was taken with another payload. */
  lemma RejectedIff(log: seq<Input>, i: nat)
    requires i < |log|
    ensures var e := log[i].envelope;
            Answer(log, i) == None <==>
              || e.roomId <= 0 || e.senderId <= 0 || e.clientId == "" || |e.clientId| > 64
              || exists j: nat :: j < i && Answer(log, j).Some? && Clashes(log[j].envelope, e)
  {
    hide Formal;
    var e := log[i].envelope;
    AssignMatchesReference(log, i);
    if IdentityOk(e) {
      var f := FirstIndex(log, i);
      NewRequestIsAccepted(log, f);
      if Answer(log, i) == None {
        assert Clashes(log[f].envelope, e);
      }
      if j: nat :| j < i && Answer(log, j).Some? && Clashes(log[j].envelope, e) {
        AssignMatchesReference(log, j);
        RetryGetsFirstAnswer(log, j, i);
      }
    }
  }

  /** The same request with another payload. */
  predicate Clashes(a: Envelope, b: Envelope) {
    && a.senderId == b.senderId && a.clientId == b.clientId
    && (a.roomId != b.roomId || a.content != b.content || a.kind != b.kind)
  }

  // ---------- what follows from the reference ----------

  /** The id space suffices for the log: before each input there is an id left. */
  ghost predicate IdsSuffice(log: seq<Input>) {
    forall n: nat :: n < |log| ==> LastId(log, n) < MAX_ID
  }

  /** A clock that stays one log length below the largest id never uses the space up. */
  lemma {:induction false} BoundedClockSuffices(log: seq<Input>, n: nat)
    requires n <= |log|
    requires forall i :: 0 <= i < |log| ==> ClockId(log[i].nowMs) + |log| <= MAX_ID
    requires |log| <= MAX_ID
    ensures 0 <= LastId(log, n) <= MAX_ID - |log| + n
  {
    if n > 0 {
      BoundedClockSuffices(log, n - 1);
      NextIdAdvances(LastId(log, n - 1), log[n - 1].nowMs);
    }
  }

  /** Ids are positive, and larger than every id handed out before. */
  lemma {:induction false} IdsIncrease(log: seq<Input>, m: nat, n: nat)
    requires m <= n <= |log| && IdsSuffice(log)
    ensures 0 <= LastId(log, m) <= LastId(log, n) <= MAX_ID
    ensures (exists i: nat :: m <= i < n && IsFirst(log, i)) ==> LastId(log, m) < LastId(log, n)
  {
    if m < n {
      IdsIncrease(log, m, n - 1);
      NextIdAdvances(LastId(log, n - 1), log[n - 1].nowMs);
    } else if n > 0 {
      IdsIncrease(log, n - 1, n - 1);
      NextIdAdvances(LastId(log, n - 1), log[n - 1].nowMs);
    }
  }

  /** New messages get distinct, increasing ids in the order of their first acceptance. */
  lemma FormalIdsIncrease(log: seq<Input>, i: nat, j: nat)
    requires i < j < |log| && IsFirst(log, i) && IsFirst(log, j) && IdsSuffice(log)
    ensures 0 < Formal(log, i).messageId < Formal(log, j).messageId <= MAX_ID
  {
    IdsIncrease(log, 0, i + 1);
    IdsIncrease(log, i + 1, j + 1);
  }

  // ---------- ids in closed form ----------

  /** How many of the inputs from `m` to `n` open a new request. */
  ghost function NewBetween(log: seq<Input>, m: nat, n: nat): (count: nat)
    requires m <= n <= |log|
  {
    if m == n then 0 else NewBetween(log, m, n - 1) + (if IsFirst(log, n - 1) then 1 else 0)
  }

  /** Milliseconds since the epoch of ids, with twelve bits to spare. */
  function Shifted(input: Input): int {
    (input.nowMs - 1750000000000) * 4096
  }

  /** The clock id of a new request `j`, plus one for each new request since, up to input `n`. */
  ghost function Pushed(log: seq<Input>, j: nat, n: nat): int
    requires j < n <= |log|
  {
    Shifted(log[j]) + NewBetween(log, j + 1, n)
  }

  ghost predicate ClocksFit(log: seq<Input>) {
    forall i :: 0 <= i < |log| ==> -TWO_63 <= Shifted(log[i]) < TWO_63
  }

  /** The last id is the least one can do: at least one per new request, and for each new request its
      clock id and one for each since; one of these is met exactly. */
  lemma {:induction false} IdsAreLeast(log: seq<Input>, n: nat)
    requires n <= |log| && IdsSuffice(log) && ClocksFit(log)
    ensures LastId(log, n) >= NewBetween(log, 0, n)
    ensures forall j: nat :: j < n && IsFirst(log, j) ==> LastId(log, n) >= Pushed(log, j, n)
    ensures || LastId(log, n) == NewBetween(log, 0, n)
            || exists j: nat :: j < n && IsFirst(log, j) && LastId(log, n) == Pushed(log, j, n)
  {
    hide IsFirst;
    if n > 0 {
      var m := n - 1;
      IdsAreLeast(log, m);
      IdsIncrease(log, m, m);
      assert Pushed(log, m, n) == Shifted(log[m]);
      assert forall j: nat :: j < m ==>
        Pushed(log, j, n) == Pushed(log, j, m) + (if IsFirst(log, m) then 1 else 0);
    }
  }

  /** A new message gets the clock's id if that is larger than the last one, else the next id. */
  lemma FormalIdFollowsClock(log: seq<Input>, i: nat)
    requires i < |log| && IsFirst(log, i) && IdsSuffice(log) && -TWO_63 <= Shifted(log[i]) < TWO_63
    ensures Formal(log, i).messageId >= Shifted(log[i])
    ensures Formal(log, i).messageId ==
              if Shifted(log[i]) > LastId(log, i) then Shifted(log[i]) else LastId(log, i) + 1
  {
    IdsIncrease(log, i, i);
  }
}
