/** The Redis cache of each room's newest messages: a sorted set that archiver pushes and cache
    backfills add to and trim, one atomic command at a time, in any interleaving, and that can expire. */
module RoomCache {
  import opened Envelopes
  import opened History

  const ROOM_LATEST_MAX: nat := 100

  /** A stored message as the writers see it. */
  datatype Stored = Stored(room: int, msg: Msg, deletedAt: int)

  /** The commands that reach the server; `Lapse` is the key's expiry. */
  datatype Command = Add(room: int, msg: Msg) | Trim(room: int) | Lapse(room: int)

  type Cache = map<int, set<Msg>>

  function Entries(c: Cache, room: int): set<Msg> {
    if room in c then c[room] else {}
  }

  function Rivals(s: set<Msg>, m: Msg): set<Msg> {
    set x | x in s && Above(x, m)
  }

  /** The `k` entries with the highest scores: those with fewer than `k` entries above them. */
  function Newest(s: set<Msg>, k: nat): set<Msg> {
    set m | m in s && |Rivals(s, m)| < k
  }

  /** `ZADD`, `ZREMRANGEBYRANK key 0 -101`, and expiry. */
  function Exec(c: Cache, command: Command): Cache {
    match command
    case Add(room, m) => c[room := Entries(c, room) + {m}]
    case Trim(room) => c[room := Newest(Entries(c, room), ROOM_LATEST_MAX)]
    case Lapse(room) => c - {room}
  }

  function ExecAll(commands: seq<Command>): Cache {
    if |commands| == 0 then map[] else Exec(ExecAll(commands[..|commands| - 1]), commands[|commands| - 1])
  }

  /** What was added to a room since its key last expired. */
  function Added(commands: seq<Command>, room: int): set<Msg> {
    if |commands| == 0 then {}
    else
      var before := Added(commands[..|commands| - 1], room);
      match commands[|commands| - 1]
      case Add(r, m) => if r == room then before + {m} else before
      case Trim(_) => before
      case Lapse(r) => if r == room then {} else before
  }

  // ---------- ranks ----------

  function Members(s: seq<Msg>): set<Msg> {
    set m | m in s
  }

  /** The entry at place `i` of the sorted list has the `i` before it as rivals. */
  lemma RankInList(s: set<Msg>, i: nat)
    requires Ordered(s) && i < |s|
    ensures Rivals(s, SortDown(s)[i]) == Members(SortDown(s)[..i])
    ensures |Rivals(s, SortDown(s)[i])| == i
  {
    hide SortDown, Above;
    var r := SortDown(s);
    forall x ensures x in Rivals(s, r[i]) <==> x in Members(r[..i]) {
      RankOf(r, x, i);
    }
    assert StrictlyDown(r[..i]);
    DistinctSize(r[..i]);
  }

  lemma AboveIsStrict(a: Msg, b: Msg)
    ensures !(Above(a, b) && Above(b, a)) && !Above(a, a)
  {
  }

  lemma RankOf(r: seq<Msg>, x: Msg, i: nat)
    requires StrictlyDown(r) && i < |r|
    ensures x in r && Above(x, r[i]) <==> x in r[..i]
  {
    hide Above;
    if x in r && Above(x, r[i]) {
      var k :| 0 <= k < |r| && r[k] == x;
      AboveIsStrict(x, r[i]);
      assert k < i;
      assert r[..i][k] == x;
    }
    if x in r[..i] {
      var k :| 0 <= k < i && r[..i][k] == x;
      assert r[k] == x;
    }
  }

  function Cut(s: seq<Msg>, k: nat): seq<Msg> {
    if |s| <= k then s else s[..k]
  }

  /** The newest `k` are the first `k` of the sorted list. */
  lemma NewestIsPrefix(s: set<Msg>, k: nat)
    requires Ordered(s)
    ensures Newest(s, k) == Members(Cut(SortDown(s), k))
    ensures |Newest(s, k)| == if |s| <= k then |s| else k
  {
    hide SortDown, Rivals;
    var r := SortDown(s);
    forall m ensures m in Newest(s, k) <==> m in Members(Cut(r, k)) {
      if m in s {
        var i :| 0 <= i < |r| && r[i] == m;
        RankInList(s, i);
        if i < k {
          assert Cut(r, k)[i] == m;
        } else {
          NotBefore(r, i, k);
        }
      }
    }
    assert StrictlyDown(Cut(r, k));
    DistinctSize(Cut(r, k));
  }

  lemma NotBefore(r: seq<Msg>, i: nat, k: nat)
    requires StrictlyDown(r) && k <= i < |r|
    ensures r[i] !in r[..k]
  {
    hide Above;
    if r[i] in r[..k] {
      var j :| 0 <= j < k && r[..k][j] == r[i];
      AboveIsStrict(r[j], r[i]);
    }
  }

  /** Command `i` adds the message, and the key does not expire later. */
  predicate AddedAt(commands: seq<Command>, i: int, room: int, m: Msg) {
    0 <= i < |commands| && commands[i] == Add(room, m) && forall j :: i < j < |commands| ==> commands[j] != Lapse(room)
  }

  lemma {:induction false} AddedIff(commands: seq<Command>, room: int, m: Msg)
    ensures m in Added(commands, room) <==> exists i :: AddedAt(commands, i, room, m)
  {
    if |commands| > 0 {
      var n := |commands| - 1;
      AddedIff(commands[..n], room, m);
      if i :| AddedAt(commands[..n], i, room, m) {
        assert commands[n] != Lapse(room) ==> AddedAt(commands, i, room, m);
      }
      if i :| AddedAt(commands, i, room, m) {
        assert i < n ==> commands[n] != Lapse(room) && AddedAt(commands[..n], i, room, m);
      }
      assert commands[n] == Add(room, m) ==> AddedAt(commands, n, room, m);
    }
  }

  /** An expired key leaves nothing behind. */
  lemma LapseEmpties(commands: seq<Command>, room: int)
    ensures Entries(ExecAll(commands + [Lapse(room)]), room) == {}
  {
  }

  // ---------- what every interleaving keeps ----------

  /** Between what was added and the newest of what was added. */
  predicate Bracketed(s: set<Msg>, added: set<Msg>) {
    s <= added && Newest(added, ROOM_LATEST_MAX) <= s
  }

  lemma NewestShrinks(a: set<Msg>, b: set<Msg>, k: nat, m: Msg)
    requires a <= b && m in a && m in Newest(b, k)
    ensures m in Newest(a, k)
  {
    SubsetSize(Rivals(a, m), Rivals(b, m));
  }

  lemma AddKeeps(s: set<Msg>, added: set<Msg>, m: Msg)
    requires Bracketed(s, added)
    ensures Bracketed(s + {m}, added + {m})
  {
    hide Newest;
    forall x | x in Newest(added + {m}, ROOM_LATEST_MAX) ensures x in s + {m} {
      NewestAreMembers(added + {m}, ROOM_LATEST_MAX);
      if x != m {
        NewestShrinks(added, added + {m}, ROOM_LATEST_MAX, x);
      }
    }
  }

  lemma NewestAreMembers(s: set<Msg>, k: nat)
    ensures Newest(s, k) <= s
  {
  }

  /** A trim leaves exactly the newest of everything added, however many were trimmed before. */
  lemma TrimIsExact(s: set<Msg>, added: set<Msg>)
    requires Bracketed(s, added) && Ordered(added)
    ensures Newest(s, ROOM_LATEST_MAX) == Newest(added, ROOM_LATEST_MAX)
  {
    hide Newest;
    var top := Newest(added, ROOM_LATEST_MAX);
    NewestIsPrefix(added, ROOM_LATEST_MAX);
    NewestIsPrefix(s, ROOM_LATEST_MAX);
    NewestAreMembers(added, ROOM_LATEST_MAX);
    NewestAreMembers(s, ROOM_LATEST_MAX);
    forall m | m in top ensures m in Newest(s, ROOM_LATEST_MAX) {
      NewestShrinks(s, added, ROOM_LATEST_MAX, m);
    }
    SameSize(top, Newest(s, ROOM_LATEST_MAX));
    SubsetSize(s, added);
    if |added| <= ROOM_LATEST_MAX {
      SameSize(top, added);
    }
  }

  lemma SameSize<T>(a: set<T>, b: set<T>)
    requires a <= b
    ensures |a| <= |b| && (|a| == |b| ==> a == b)
  {
    SubsetSize(a, b);
    if x :| x in b && x !in a {
      SubsetSize(a, b - {x});
    }
  }

  predicate SameMessage(a: Command, b: Command) {
    a.Add? && b.Add? && a.room == b.room && a.msg.id == b.msg.id
  }

  /** Any message is always added with the same number. */
  ghost predicate Formal(commands: seq<Command>) {
    forall i, j :: 0 <= i < |commands| && 0 <= j < |commands| && SameMessage(commands[i], commands[j]) ==>
      commands[i] == commands[j]
  }

  lemma {:induction false} AddedAreOrdered(commands: seq<Command>, room: int)
    requires Formal(commands)
    ensures Ordered(Added(commands, room))
    ensures forall m :: m in Added(commands, room) ==> exists i :: 0 <= i < |commands| && commands[i] == Add(room, m)
  {
    if |commands| > 0 {
      var n := |commands| - 1;
      AddedAreOrdered(commands[..n], room);
      forall m | m in Added(commands, room) ensures exists i :: 0 <= i < |commands| && commands[i] == Add(room, m) {
        if m in Added(commands[..n], room) {
          var i :| 0 <= i < n && commands[..n][i] == Add(room, m);
          assert commands[i] == Add(room, m);
        } else {
          assert commands[n] == Add(room, m);
        }
      }
    }
  }

  /** In every interleaving of pushes and backfills, after every command: the room's set holds only
      what was added since the last expiry, and all of its hundred highest numbers. */
  lemma {:induction false} CacheStaysBracketed(commands: seq<Command>, room: int)
    requires Formal(commands)
    ensures Bracketed(Entries(ExecAll(commands), room), Added(commands, room))
  {
    hide Bracketed, Newest;
    if |commands| == 0 {
      EmptyBracketed();
    } else {
      var n := |commands| - 1;
      CacheStaysBracketed(commands[..n], room);
      var s, added := Entries(ExecAll(commands[..n]), room), Added(commands[..n], room);
      match commands[n] {
        case Add(r, m) => AddKeeps(s, added, m);
        case Trim(r) =>
          AddedAreOrdered(commands[..n], room);
          TrimIsExact(s, added);
          TrimmedIsBracketed(added);
        case Lapse(r) => EmptyBracketed();
      }
    }
  }

  lemma EmptyBracketed()
    ensures Bracketed({}, {})
  {
  }

  lemma TrimmedIsBracketed(added: set<Msg>)
    ensures Bracketed(Newest(added, ROOM_LATEST_MAX), added)
  {
  }

  // ---------- pipelines and quiescence ----------

  predicate Cacheable(row: Stored) {
    row.msg.number.Some? && 0 < row.msg.number.value <= MAX_SCORE
  }

  /** The commands of one writer: an add and a trim for every message it caches. */
  function Pipeline(rows: seq<Stored>, skipDeleted: bool): seq<Command> {
    if |rows| == 0 then []
    else
      var row := rows[|rows| - 1];
      Pipeline(rows[..|rows| - 1], skipDeleted)
      + (if Cacheable(row) && (skipDeleted ==> row.deletedAt == 0) then [Add(row.room, row.msg), Trim(row.room)]
         else [])
  }

  /** `pushLatestToRedis`: soft-deleted messages are not cached. */
  method PushLatest(rows: seq<Stored>) returns (pipe: seq<Command>)
    ensures pipe == Pipeline(rows, true)
  {
    pipe := [];
    for i := 0 to |rows|
      invariant pipe == Pipeline(rows[..i], true)
    {
      var m := rows[i];
      assert rows[..i + 1][..i] == rows[..i];
      if m.deletedAt != 0 || m.msg.number.None? || m.msg.number.value <= 0 || m.msg.number.value > MAX_SCORE {
        continue;
      }
      pipe := pipe + [Add(m.room, m.msg), Trim(m.room)];
    }
    assert rows[..|rows|] == rows;
  }

  /** `BackfillRoomCache`: the rows of a page, which holds no deleted ones. */
  method Backfill(rows: seq<Stored>) returns (pipe: seq<Command>)
    ensures pipe == Pipeline(rows, false)
  {
    pipe := [];
    for i := 0 to |rows|
      invariant pipe == Pipeline(rows[..i], false)
    {
      var m := rows[i];
      assert rows[..i + 1][..i] == rows[..i];
      if m.msg.number.None? || m.msg.number.value <= 0 || m.msg.number.value > MAX_SCORE {
        continue;
      }
      pipe := pipe + [Add(m.room, m.msg), Trim(m.room)];
    }
    assert rows[..|rows|] == rows;
  }

  /** Every add to the room is followed by a trim of it. */
  ghost predicate TrimmedLater(commands: seq<Command>, room: int) {
    forall i, m :: 0 <= i < |commands| && commands[i] == Add(room, m) ==> Trim(room) in commands[i + 1..]
  }

  lemma {:induction false} PipelineTrims(rows: seq<Stored>, skipDeleted: bool, room: int)
    ensures TrimmedLater(Pipeline(rows, skipDeleted), room)
    ensures forall c :: c in Pipeline(rows, skipDeleted) ==> !c.Lapse?
  {
    if |rows| > 0 {
      hide Cacheable;
      var n := |rows| - 1;
      PipelineTrims(rows[..n], skipDeleted, room);
      var before, pipe := Pipeline(rows[..n], skipDeleted), Pipeline(rows, skipDeleted);
      forall i, m | 0 <= i < |pipe| && pipe[i] == Add(room, m) ensures Trim(room) in pipe[i + 1..] {
        if i < |before| {
          assert before[i] == Add(room, m);
          var j :| 0 <= j < |before| - i - 1 && before[i + 1..][j] == Trim(room);
          assert pipe[i + 1..][j] == Trim(room);
        } else {
          assert pipe[i + 1..][0] == Trim(room);
        }
      }
    }
  }

  /** The pipeline adds exactly the cacheable messages, and the archiver's adds no deleted one. */
  lemma {:induction false} PipelineAdds(rows: seq<Stored>, skipDeleted: bool, row: Stored)
    ensures Add(row.room, row.msg) in Pipeline(rows, skipDeleted) <==>
              && row.msg.number.Some? && 0 < row.msg.number.value <= 0x20_0000_0000_0000
              && exists r :: r in rows && r.room == row.room && r.msg == row.msg && (skipDeleted ==> r.deletedAt == 0)
  {
    if |rows| > 0 {
      var n := |rows| - 1;
      PipelineAdds(rows[..n], skipDeleted, row);
      assert rows == rows[..n] + [rows[n]];
    }
  }

  /** A run of the server that executes every pipeline to its end, in any interleaving, with expiries. */
  ghost predicate Interleaves(run: seq<Command>, pipes: seq<seq<Command>>)
    decreases |run|
  {
    if |run| == 0 then forall p :: 0 <= p < |pipes| ==> |pipes[p]| == 0
    else
      || (run[0].Lapse? && Interleaves(run[1..], pipes))
      || exists p :: 0 <= p < |pipes| && |pipes[p]| > 0 && pipes[p][0] == run[0]
                     && Interleaves(run[1..], pipes[p := pipes[p][1..]])
  }

  function CommandsLeft(pipes: seq<seq<Command>>): nat {
    if |pipes| == 0 then 0 else |pipes[0]| + CommandsLeft(pipes[1..])
  }

  lemma {:induction false} OneCommandLess(pipes: seq<seq<Command>>, p: nat)
    requires p < |pipes| && |pipes[p]| > 0
    ensures CommandsLeft(pipes[p := pipes[p][1..]]) == CommandsLeft(pipes) - 1
  {
    var after := pipes[p := pipes[p][1..]];
    if p == 0 {
      assert after[1..] == pipes[1..];
    } else {
      OneCommandLess(pipes[1..], p - 1);
      assert after[1..] == pipes[1..][p - 1 := pipes[p][1..]];
    }
  }

  /** Whatever pipeline the server serves next, the rest can always be run to the end. */
  lemma {:induction false} CanBeCompleted(pipes: seq<seq<Command>>) returns (run: seq<Command>)
    ensures Interleaves(run, pipes)
    decreases CommandsLeft(pipes)
  {
    run := [];
    if p: nat :| p < |pipes| && |pipes[p]| > 0 {
      OneCommandLess(pipes, p);
      var rest := CanBeCompleted(pipes[p := pipes[p][1..]]);
      run := [pipes[p][0]] + rest;
      assert run[1..] == rest;
    }
  }

  lemma {:induction false} CommandsAppear(run: seq<Command>, pipes: seq<seq<Command>>, p: nat, c: Command)
    requires Interleaves(run, pipes) && p < |pipes| && c in pipes[p]
    ensures c in run
    decreases |run|
  {
    if run[0].Lapse? && Interleaves(run[1..], pipes) {
      CommandsAppear(run[1..], pipes, p, c);
    } else {
      var q :| 0 <= q < |pipes| && |pipes[q]| > 0 && pipes[q][0] == run[0]
               && Interleaves(run[1..], pipes[q := pipes[q][1..]]);
      if c != run[0] {
        assert q == p ==> pipes[p] == [pipes[p][0]] + pipes[p][1..];
        CommandsAppear(run[1..], pipes[q := pipes[q][1..]], p, c);
      }
    }
  }

  lemma TailTrimsLater(commands: seq<Command>, room: int)
    requires TrimmedLater(commands, room) && |commands| > 0
    ensures TrimmedLater(commands[1..], room)
    ensures commands[0].Add? && commands[0].room == room ==> Trim(room) in commands[1..]
  {
    var rest := commands[1..];
    forall i, m | 0 <= i < |rest| && rest[i] == Add(room, m) ensures Trim(room) in rest[i + 1..] {
      assert commands[i + 1] == Add(room, m) && commands[i + 1 + 1..] == rest[i + 1..];
    }
    if commands[0].Add? && commands[0].room == room {
      assert commands[0] == Add(room, commands[0].msg);
    }
  }

  lemma {:induction false} InterleavingTrims(run: seq<Command>, pipes: seq<seq<Command>>, room: int)
    requires Interleaves(run, pipes) && forall p :: 0 <= p < |pipes| ==> TrimmedLater(pipes[p], room)
    ensures TrimmedLater(run, room)
    decreases |run|
  {
    hide TrimmedLater;
    if |run| == 0 {
      EmptyTrims(room);
      assert run == [];
    } else if run[0].Lapse? && Interleaves(run[1..], pipes) {
      InterleavingTrims(run[1..], pipes, room);
      FirstTrims(run, room);
    } else {
      var q :| 0 <= q < |pipes| && |pipes[q]| > 0 && pipes[q][0] == run[0]
               && Interleaves(run[1..], pipes[q := pipes[q][1..]]);
      var rest := pipes[q := pipes[q][1..]];
      TailTrimsLater(pipes[q], room);
      InterleavingTrims(run[1..], rest, room);
      if run[0].Add? && run[0].room == room {
        CommandsAppear(run[1..], rest, q, Trim(room));
      }
      FirstTrims(run, room);
    }
  }

  lemma EmptyTrims(room: int)
    ensures TrimmedLater([], room)
  {
  }

  lemma FirstTrims(run: seq<Command>, room: int)
    requires |run| > 0 && TrimmedLater(run[1..], room)
    requires run[0].Add? && run[0].room == room ==> Trim(room) in run[1..]
    ensures TrimmedLater(run, room)
  {
    forall i, m | 0 <= i < |run| && run[i] == Add(room, m) ensures Trim(room) in run[i + 1..] {
      if i > 0 {
        assert run[1..][i - 1] == Add(room, m) && run[1..][i - 1 + 1..] == run[i + 1..];
      }
    }
  }

  /** Once no add waits for its trim, the room's set is exactly the newest of what was added. */
  lemma {:induction false} SettledIsExact(run: seq<Command>, room: int)
    requires Formal(run) && TrimmedLater(run, room)
    ensures Entries(ExecAll(run), room) == Newest(Added(run, room), ROOM_LATEST_MAX)
  {
    hide Newest, Bracketed;
    if |run| == 0 {
      NewestAreMembers({}, ROOM_LATEST_MAX);
    } else {
      var n := |run| - 1;
      assert Formal(run[..n]);
      if run[n] == Trim(room) {
        CacheStaysBracketed(run[..n], room);
        AddedAreOrdered(run[..n], room);
        TrimIsExact(Entries(ExecAll(run[..n]), room), Added(run[..n], room));
      } else if run[n] == Lapse(room) {
        NewestAreMembers({}, ROOM_LATEST_MAX);
      } else {
        NoTrimAtEnd(run, room);
        SettledIsExact(run[..n], room);
      }
    }
  }

  lemma NoTrimAtEnd(run: seq<Command>, room: int)
    requires |run| > 0 && TrimmedLater(run, room) && run[|run| - 1] != Trim(room)
    ensures TrimmedLater(run[..|run| - 1], room) && !(run[|run| - 1].Add? && run[|run| - 1].room == room)
  {
    var n := |run| - 1;
    forall i, m | 0 <= i < n && run[..n][i] == Add(room, m) ensures Trim(room) in run[..n][i + 1..] {
      assert run[i] == Add(room, m);
      var j :| 0 <= j < |run| - i - 1 && run[i + 1..][j] == Trim(room);
      assert run[i + 1 + j] == Trim(room) && i + 1 + j != n;
      assert run[..n][i + 1..][j] == Trim(room);
    }
  }

  /** The commands of an archiver push or of a backfill. */
  ghost predicate IsPipeline(commands: seq<Command>) {
    exists rows, skip :: commands == Pipeline(rows, skip)
  }

  /** So at quiescence, whatever the interleaving of complete pushes and backfills was, each room's
      cache is exactly the hundred newest messages added since its last expiry. */
  lemma QuiescentIsExact(run: seq<Command>, pipes: seq<seq<Command>>, room: int)
    requires Formal(run) && Interleaves(run, pipes)
    requires forall p :: 0 <= p < |pipes| ==> IsPipeline(pipes[p])
    ensures Entries(ExecAll(run), room) == Newest(Added(run, room), ROOM_LATEST_MAX)
    ensures |Entries(ExecAll(run), room)| == if |Added(run, room)| < 100 then |Added(run, room)| else 100
  {
    AddedAreOrdered(run, room);
    hide Formal, Interleaves, Newest;
    NewestIsPrefix(Added(run, room), ROOM_LATEST_MAX);
    forall p | 0 <= p < |pipes| ensures TrimmedLater(pipes[p], room) {
      var rows, skip :| pipes[p] == Pipeline(rows, skip);
      PipelineTrims(rows, skip, room);
    }
    InterleavingTrims(run, pipes, room);
    SettledIsExact(run, room);
  }

  // ---------- reading the cache ----------

  /** `ZREVRANGE key 0 stop`: a negative stop counts from the end. */
  function RevRange(sorted: seq<Msg>, stop: int): seq<Msg> {
    var count := if stop < 0 then |sorted| + stop + 1 else stop + 1;
    if count <= 0 then [] else Cut(sorted, count)
  }

  /** The members of a reply that decode; others are skipped. */
  function Decoded(vals: seq<Option<Msg>>): seq<Msg> {
    if |vals| == 0 then []
    else Decoded(vals[..|vals| - 1]) + (if vals[|vals| - 1].Some? then [vals[|vals| - 1].value] else [])
  }

  lemma {:induction false} AllDecode(ms: seq<Msg>)
    ensures Decoded(seq(|ms|, i requires 0 <= i < |ms| => Some(ms[i]))) == ms
  {
    if |ms| > 0 {
      var n := |ms| - 1;
      AllDecode(ms[..n]);
      var vals := seq(|ms|, i requires 0 <= i < |ms| => Some(ms[i]));
      assert vals[..n] == seq(n, i requires 0 <= i < n => Some(ms[..n][i]));
    }
  }

  /** `GetLatestMessages`: the members of the reply that decode, turned from newest first to oldest first
      in place; of an exact reply all decode. */
  method GetLatestMessages(ghost s: set<Msg>, vals: seq<Option<Msg>>, limit: int) returns (out: seq<Msg>)
    ensures out == Reversed(Decoded(vals))
    ensures Ordered(s) && (var reply := RevRange(SortDown(s), limit - 1);
                           vals == seq(|reply|, i requires 0 <= i < |reply| => Some(reply[i]))) ==>
              out == Reversed(RevRange(SortDown(s), limit - 1))
  {
    hide SortDown, RevRange;
    var found: seq<Msg> := [];
    for i := 0 to |vals|
      invariant found == Decoded(vals[..i])
    {
      assert vals[..i + 1][..i] == vals[..i];
      if vals[i].Some? {
        found := found + [vals[i].value];
      }
    }
    assert vals[..|vals|] == vals;
    if Ordered(s) {
      AllDecode(RevRange(SortDown(s), limit - 1));
    }
    var rows := new Msg[|found|](i requires 0 <= i < |found| => found[i]);
    assert rows[..] == found;
    ReverseInPlace(rows);
    out := rows[..];
  }

  lemma {:induction false} DownIsUnique(a: seq<Msg>, b: seq<Msg>)
    requires StrictlyDown(a) && StrictlyDown(b) && Members(a) == Members(b)
    ensures a == b
  {
    hide Above;
    DistinctSize(a);
    DistinctSize(b);
    if |a| > 0 {
      assert a[0] in Members(b) && b[0] in Members(a);
      AboveIsStrict(a[0], b[0]);
      assert a[0] == b[0];
      TailMembers(a);
      TailMembers(b);
      DownIsUnique(a[1..], b[1..]);
    }
  }

  lemma TailMembers(s: seq<Msg>)
    requires StrictlyDown(s) && |s| > 0
    ensures Members(s[1..]) == Members(s) - {s[0]} && StrictlyDown(s[1..])
  {
    hide Above;
    NotBefore(s, 0, 0);
    forall x ensures x in s[1..] <==> x in s && x != s[0] {
      if x in s[1..] {
        var i :| 0 <= i < |s| - 1 && s[1..][i] == x;
        assert s[i + 1] == x;
        AboveIsStrict(s[0], x);
      }
      if x in s && x != s[0] {
        var i :| 0 <= i < |s| && s[i] == x;
        assert s[1..][i - 1] == x;
      }
    }
  }

  ghost function Numbered(t: RoomTable): set<Msg> {
    set m | m in t.rows && m.number.Some?
  }

  /** The sorted live rows start with the sorted numbered ones. */
  lemma NumberedFirst(t: RoomTable)
    requires WellFormed(t) && t.deleted == {}
    ensures Ordered(Numbered(t)) && Candidates(t, 0) == t.rows && Ordered(t.rows)
    ensures SortDown(Numbered(t)) <= SortDown(t.rows)
  {
    hide SortDown, Above;
    assert Candidates(t, 0) == t.rows;
    var others := t.rows - Numbered(t);
    var a, b := SortDown(Numbered(t)), SortDown(others);
    assert Members(a + b) == Members(SortDown(t.rows));
    forall x, y | x in a && y in b ensures Above(x, y) {
      NumberedIsAbove(t, x, y);
    }
    DownAppend(a, b);
    DownIsUnique(a + b, SortDown(t.rows));
  }

  lemma NumberedIsAbove(t: RoomTable, x: Msg, y: Msg)
    requires WellFormed(t) && x in Numbered(t) && y in t.rows && y !in Numbered(t)
    ensures Above(x, y)
  {
  }

  lemma DownAppend(a: seq<Msg>, b: seq<Msg>)
    requires StrictlyDown(a) && StrictlyDown(b) && forall x, y :: x in a && y in b ==> Above(x, y)
    ensures StrictlyDown(a + b)
  {
    hide Above;
    forall i, j | 0 <= i < j < |a + b| ensures Above((a + b)[i], (a + b)[j]) {
      if i < |a| <= j {
        assert a[i] in a && b[j - |a|] in b;
      }
    }
  }

  lemma SortedNewest(s: set<Msg>, k: nat)
    requires Ordered(s)
    ensures Ordered(Newest(s, k)) && SortDown(Newest(s, k)) == Cut(SortDown(s), k)
  {
    hide SortDown, Newest;
    NewestAreMembers(s, k);
    NewestIsPrefix(s, k);
    DownIsUnique(SortDown(Newest(s, k)), Cut(SortDown(s), k));
  }

  /** A full answer from an exact cache of all numbered messages is the store's first page, also when
      the room has unnumbered messages that the cache does not hold. */
  lemma CacheHitIsFirstPage(t: RoomTable, limit: nat)
    requires WellFormed(t) && t.deleted == {} && 1 <= limit <= ROOM_LATEST_MAX
    ensures var s := Newest(Numbered(t), ROOM_LATEST_MAX);
            && Ordered(s)
            && (|RevRange(SortDown(s), limit - 1)| == limit ==> RevRange(SortDown(s), limit - 1) == Page(t, 0, limit))
            && |RevRange(SortDown(s), limit - 1)| == if |Numbered(t)| < limit then |Numbered(t)| else limit
  {
    hide SortDown, Newest;
    NumberedFirst(t);
    SortedNewest(Numbered(t), ROOM_LATEST_MAX);
  }

  lemma {:induction false} RunIsFromPipes(run: seq<Command>, pipes: seq<seq<Command>>, c: Command)
    requires Interleaves(run, pipes) && c in run && !c.Lapse?
    ensures exists p :: 0 <= p < |pipes| && c in pipes[p]
    decreases |run|
  {
    if run[0].Lapse? && Interleaves(run[1..], pipes) {
      assert run == [run[0]] + run[1..];
      RunIsFromPipes(run[1..], pipes, c);
    } else {
      var q :| 0 <= q < |pipes| && |pipes[q]| > 0 && pipes[q][0] == run[0]
               && Interleaves(run[1..], pipes[q := pipes[q][1..]]);
      if c == run[0] {
        assert pipes[q][0] in pipes[q];
      } else {
        assert run == [run[0]] + run[1..];
        var rest := pipes[q := pipes[q][1..]];
        RunIsFromPipes(run[1..], rest, c);
        var p :| 0 <= p < |rest| && c in rest[p];
        assert c in pipes[p];
      }
    }
  }

  lemma {:induction false} AddedUnlessLapsed(run: seq<Command>, room: int, m: Msg)
    requires Lapse(room) !in run
    ensures m in Added(run, room) <==> Add(room, m) in run
  {
    if |run| > 0 {
      var n := |run| - 1;
      AddedUnlessLapsed(run[..n], room, m);
      assert run == run[..n] + [run[n]];
    }
  }

  /** The writers have added exactly the numbered rows of the room. */
  ghost predicate AllWritten(pipes: seq<seq<Command>>, room: int, t: RoomTable) {
    forall m :: m in Numbered(t) <==> exists p :: 0 <= p < |pipes| && Add(room, m) in pipes[p]
  }

  /** After any interleaving of pushes and backfills that together wrote the room's numbered rows, with the
      key not expired, the cache answers in full if there are enough rows, and that is the store's first
      page. */
  lemma SettledCacheServesFirstPage(run: seq<Command>, pipes: seq<seq<Command>>, room: int, t: RoomTable, limit: nat)
    requires Formal(run) && Interleaves(run, pipes) && Lapse(room) !in run
    requires forall p :: 0 <= p < |pipes| ==> IsPipeline(pipes[p])
    requires WellFormed(t) && t.deleted == {} && AllWritten(pipes, room, t) && 1 <= limit <= ROOM_LATEST_MAX
    ensures var s := Entries(ExecAll(run), room);
            && Ordered(s)
            && (|RevRange(SortDown(s), limit - 1)| == limit ==> RevRange(SortDown(s), limit - 1) == Page(t, 0, limit))
            && |RevRange(SortDown(s), limit - 1)| == if |Numbered(t)| < limit then |Numbered(t)| else limit
  {
    hide Formal, Interleaves, IsPipeline, SortDown, RevRange, Page, Newest, ExecAll, Added;
    QuiescentIsExact(run, pipes, room);
    forall m ensures m in Added(run, room) <==> m in Numbered(t) {
      AddedUnlessLapsed(run, room, m);
      if Add(room, m) in run {
        RunIsFromPipes(run, pipes, Add(room, m));
      }
      if p: nat :| p < |pipes| && Add(room, m) in pipes[p] {
        CommandsAppear(run, pipes, p, Add(room, m));
      }
    }
    assert Added(run, room) == Numbered(t);
    CacheHitIsFirstPage(t, limit);
  }

  /** The first page of `GetChatHistory`: from the cache when that answers in full, else from the store.
      With an exact cache the two answers are the same, so the caller cannot tell. */
  method GetFirstPage(ghost t: RoomTable, requested: int, cached: seq<Msg>, found: seq<Msg>)
    returns (messages: seq<Msg>, nextCursor: int, hasMore: bool, fromCache: bool)
    requires WellFormed(t) && t.deleted == {} && found == Page(t, 0, ClampLimit(requested))
    requires var s := Newest(Numbered(t), ROOM_LATEST_MAX);
             Ordered(s) && cached == Reversed(RevRange(SortDown(s), ClampLimit(requested) - 1))
    ensures messages == Reversed(found)
    ensures hasMore <==> |found| == ClampLimit(requested)
    ensures |found| == 0 ==> nextCursor == 0
    ensures |found| > 0 ==> nextCursor == found[|found| - 1].id
    ensures fromCache <==> |Numbered(t)| >= ClampLimit(requested)
  {
    hide SortDown, Newest, Page, RevRange;
    var limit := ClampLimit(requested);
    ghost var s := Newest(Numbered(t), ROOM_LATEST_MAX);
    ReversedAt(RevRange(SortDown(s), limit - 1));
    CacheHitIsFirstPage(t, limit);
    fromCache := |cached| == limit;
    if fromCache {
      messages := cached;
      hasMore := |cached| == limit;
      nextCursor := 0;
      if hasMore && |cached| > 0 {
        nextCursor := cached[0].id;
      }
      return;
    }
    messages, nextCursor, hasMore := GetChatHistory(t, 0, requested, found);
  }
}
