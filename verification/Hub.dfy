/** The gateway's hub: connections indexed by user and by room over a number of shards. Every operation,
    taken as one step, is proved against a hub without shards that keeps no room index at all. */
module Hub {
  import opened Envelopes

  const DEFAULT_SHARD_COUNT: nat := 64

  /** A connection; two connections of one user are different clients. */
  datatype Client = Client(id: nat, user: int)

  datatype Shard = Shard(users: map<int, Client>, rooms: map<int, set<Client>>)

  /** `uint64(id) % uint64(len(shards))`. */
  function ShardOf(id: int, count: nat): (s: nat)
    requires count > 0
    ensures s < count
  {
    id % TWO_64 % count
  }

  lemma ShardIsRemainder(id: int, count: nat)
    requires count > 0 && -TWO_64 <= id < TWO_64
    ensures ShardOf(id, count) == (if id < 0 then id + TWO_64 else id) % count
  {
  }

  // ---------- the hub without shards ----------

  /** The newest connection of each user, and the rooms each active client lists. */
  datatype Flat = Flat(users: map<int, Client>, rooms: map<Client, set<int>>)

  function ToSet(ids: seq<int>): set<int> {
    set r | r in ids
  }

  function Members(rooms: map<Client, set<int>>, room: int): set<Client> {
    set c | c in rooms && room in rooms[c]
  }

  datatype Op =
    | Register(client: Client, ids: seq<int>)
    | Unregister(client: Client)
    | UpdateRooms(client: Client, ids: seq<int>)
    | JoinRoom(user: int, room: int)
    | LeaveRoom(user: int, room: int)
    | DisbandRoom(room: int)

  function Without(users: map<int, Client>, c: Client): map<int, Client> {
    if c.user in users && users[c.user] == c then users - {c.user} else users
  }

  function Apply(f: Flat, op: Op): Flat {
    match op
    case Register(c, ids) => Flat(f.users[c.user := c], f.rooms[c := ToSet(ids)])
    case Unregister(c) => if c in f.rooms then Flat(Without(f.users, c), f.rooms - {c}) else f
    case UpdateRooms(c, ids) => if c in f.rooms then f.(rooms := f.rooms[c := ToSet(ids)]) else f
    case JoinRoom(u, r) =>
      if u in f.users && f.users[u] in f.rooms then f.(rooms := f.rooms[f.users[u] := f.rooms[f.users[u]] + {r}]) else f
    case LeaveRoom(u, r) =>
      if u in f.users && f.users[u] in f.rooms then f.(rooms := f.rooms[f.users[u] := f.rooms[f.users[u]] - {r}]) else f
    case DisbandRoom(r) => f.(rooms := map c | c in f.rooms :: f.rooms[c] - {r})
  }

  /** Every user entry is an active client of that user. */
  predicate UsersOk(f: Flat) {
    forall u :: u in f.users ==> f.users[u].user == u && f.users[u] in f.rooms
  }

  function Run(ops: seq<Op>): Flat {
    if |ops| == 0 then Flat(map[], map[]) else Apply(Run(ops[..|ops| - 1]), ops[|ops| - 1])
  }

  lemma ApplyKeepsUsers(f: Flat, op: Op)
    requires UsersOk(f)
    ensures UsersOk(Apply(f, op))
  {
  }

  lemma {:induction false} RunKeepsUsers(ops: seq<Op>)
    ensures UsersOk(Run(ops))
  {
    if |ops| > 0 {
      RunKeepsUsers(ops[..|ops| - 1]);
      ApplyKeepsUsers(Run(ops[..|ops| - 1]), ops[|ops| - 1]);
    }
  }

  /** However late an old connection is unregistered, the user's newer one stays, with its rooms. */
  lemma OldConnectionLeavesNewer(f: Flat, older: Client, newer: Client)
    requires older != newer && newer.user in f.users && f.users[newer.user] == newer && newer in f.rooms
    ensures var g := Apply(f, Unregister(older));
            && newer.user in g.users && g.users[newer.user] == newer && newer in g.rooms
            && g.rooms[newer] == f.rooms[newer]
  {
  }

  // ---------- what a run leaves, read off its operations ----------

  ghost predicate Registers(op: Op, c: Client) {
    op.Register? && op.client == c
  }

  /** Registered and not unregistered since. */
  ghost predicate Active(ops: seq<Op>, c: Client) {
    exists i :: 0 <= i < |ops| && Registers(ops[i], c) && NoneAfter(ops, i, c)
  }

  ghost predicate NoneAfter(ops: seq<Op>, i: int, c: Client) {
    forall j :: 0 <= j && i < j < |ops| ==> ops[j] != Unregister(c)
  }

  /** The user's last registered connection, if it is not unregistered since. */
  ghost predicate Current(ops: seq<Op>, u: int, c: Client) {
    c.user == u && exists i :: 0 <= i < |ops| && Registers(ops[i], c) && NoneAfter(ops, i, c) && LastOf(ops, i, u)
  }

  ghost predicate LastOf(ops: seq<Op>, i: int, u: int) {
    forall j :: 0 <= j && i < j < |ops| ==> !(ops[j].Register? && ops[j].client.user == u)
  }

  /** Operation `k` decides whether `c` is in room `q`. */
  ghost predicate Decides(ops: seq<Op>, k: nat, c: Client, q: int)
    requires k < |ops|
  {
    match ops[k]
    case Register(d, _) => d == c
    case Unregister(d) => d == c
    case UpdateRooms(d, _) => d == c && Active(ops[..k], c)
    case JoinRoom(u, r) => r == q && Current(ops[..k], u, c)
    case LeaveRoom(u, r) => r == q && Current(ops[..k], u, c)
    case DisbandRoom(r) => r == q
  }

  predicate PutsIn(op: Op, q: int) {
    match op
    case Register(_, ids) => q in ids
    case UpdateRooms(_, ids) => q in ids
    case JoinRoom(_, _) => true
    case Unregister(_) => false
    case LeaveRoom(_, _) => false
    case DisbandRoom(_) => false
  }

  /** The last operation that decides it puts `c` into room `q`. */
  ghost predicate PutLast(ops: seq<Op>, c: Client, q: int) {
    exists k: nat :: k < |ops| && Decides(ops, k, c, q) && PutsIn(ops[k], q)
                     && forall j: nat :: k < j < |ops| ==> !Decides(ops, j, c, q)
  }

  lemma ActiveGrows(ops: seq<Op>, c: Client)
    requires |ops| > 0
    ensures var n := |ops| - 1;
            Active(ops, c) <==> Registers(ops[n], c) || (ops[n] != Unregister(c) && Active(ops[..n], c))
  {
    var n := |ops| - 1;
    var head := ops[..n];
    if Active(head, c) && ops[n] != Unregister(c) {
      var i :| 0 <= i < n && Registers(head[i], c) && NoneAfter(head, i, c);
      assert Registers(ops[i], c) && NoneAfter(ops, i, c);
    }
    if Registers(ops[n], c) {
      assert NoneAfter(ops, n, c);
    }
    if Active(ops, c) && !Registers(ops[n], c) {
      var i :| 0 <= i < |ops| && Registers(ops[i], c) && NoneAfter(ops, i, c);
      assert Registers(head[i], c) && NoneAfter(head, i, c);
    }
  }

  lemma CurrentGrows(ops: seq<Op>, u: int, c: Client)
    requires |ops| > 0 && c.user == u
    ensures var n := |ops| - 1;
            Current(ops, u, c) <==>
              || Registers(ops[n], c)
              || (ops[n] != Unregister(c) && !(ops[n].Register? && ops[n].client.user == u) && Current(ops[..n], u, c))
  {
    var n := |ops| - 1;
    var head := ops[..n];
    if Current(head, u, c) && ops[n] != Unregister(c) && !(ops[n].Register? && ops[n].client.user == u) {
      var i :| 0 <= i < n && Registers(head[i], c) && NoneAfter(head, i, c) && LastOf(head, i, u);
      assert Registers(ops[i], c) && NoneAfter(ops, i, c) && LastOf(ops, i, u);
    }
    if Registers(ops[n], c) {
      assert NoneAfter(ops, n, c) && LastOf(ops, n, u);
    }
    if Current(ops, u, c) && !Registers(ops[n], c) {
      var i :| 0 <= i < |ops| && Registers(ops[i], c) && NoneAfter(ops, i, c) && LastOf(ops, i, u);
      assert Registers(head[i], c) && NoneAfter(head, i, c) && LastOf(head, i, u);
    }
  }

  lemma {:induction false} ActiveIsListed(ops: seq<Op>, c: Client)
    ensures c in Run(ops).rooms <==> Active(ops, c)
  {
    hide Active;
    if |ops| == 0 {
      assert !Active(ops, c) by { NothingActive(c); }
    } else {
      RunKeepsUsers(ops[..|ops| - 1]);
      ActiveGrows(ops, c);
      ActiveIsListed(ops[..|ops| - 1], c);
    }
  }

  lemma NothingActive(c: Client)
    ensures !Active([], c)
  {
  }

  /** The user table holds each user's last registered connection, if it is still registered. */
  lemma {:induction false} CurrentIsEntry(ops: seq<Op>, u: int, c: Client)
    ensures u in Run(ops).users && Run(ops).users[u] == c <==> Current(ops, u, c)
  {
    RunKeepsUsers(ops);
    if |ops| > 0 && c.user == u {
      hide Current, Active;
      CurrentGrows(ops, u, c);
      CurrentIsEntry(ops[..|ops| - 1], u, c);
      RunKeepsUsers(ops[..|ops| - 1]);
      ActiveIsListed(ops[..|ops| - 1], c);
    }
  }

  lemma DecidesPrefix(ops: seq<Op>, k: nat, c: Client, q: int)
    requires k < |ops| - 1
    ensures Decides(ops[..|ops| - 1], k, c, q) <==> Decides(ops, k, c, q)
  {
    hide Active, Current;
    assert ops[..|ops| - 1][..k] == ops[..k];
  }

  lemma PutLastGrows(ops: seq<Op>, c: Client, q: int)
    requires |ops| > 0
    ensures var n := |ops| - 1;
            PutLast(ops, c, q) <==> if Decides(ops, n, c, q) then PutsIn(ops[n], q) else PutLast(ops[..n], c, q)
  {
    hide Decides, PutsIn;
    var n := |ops| - 1;
    var head := ops[..n];
    forall k: nat | k < n ensures Decides(head, k, c, q) <==> Decides(ops, k, c, q) {
      DecidesPrefix(ops, k, c, q);
    }
  }

  /** A client is in a room after any run iff the last operation that decides it puts it there. */
  lemma {:induction false} MemberIffPutLast(ops: seq<Op>, c: Client, q: int)
    ensures c in Members(Run(ops).rooms, q) <==> PutLast(ops, c, q)
  {
    if |ops| > 0 {
      hide PutLast, Active, Current;
      var n := |ops| - 1;
      var f := Run(ops[..n]);
      PutLastGrows(ops, c, q);
      MemberIffPutLast(ops[..n], c, q);
      ActiveIsListed(ops[..n], c);
      RunKeepsUsers(ops[..n]);
      match ops[n] {
        case JoinRoom(u, r) => CurrentIsEntry(ops[..n], u, c);
        case LeaveRoom(u, r) => CurrentIsEntry(ops[..n], u, c);
        case _ =>
      }
    }
  }

  // ---------- the index over the shards ----------

  function Listed(shards: seq<Shard>, room: int): set<Client>
    requires |shards| > 0
  {
    var s := shards[ShardOf(room, |shards|)];
    if room in s.rooms then s.rooms[room] else {}
  }

  /** Room entries are in their own shards, and none is empty. */
  ghost predicate Placed(shards: seq<Shard>) {
    forall i: nat, r :: i < |shards| ==> RoomPlaced(shards, i, r)
  }

  ghost predicate RoomPlaced(shards: seq<Shard>, i: nat, r: int)
    requires i < |shards|
  {
    r in shards[i].rooms ==> i == ShardOf(r, |shards|) && shards[i].rooms[r] != {}
  }

  /** Each room's entry is in its own shard, holds exactly the clients that list the room, and exists
      only if there are any. */
  ghost predicate Indexed(shards: seq<Shard>, rooms: map<Client, set<int>>) {
    |shards| > 0 && Placed(shards) && forall r :: Listed(shards, r) == Members(rooms, r)
  }

  /** Each user's entry is in its own shard. */
  ghost predicate UsersIndexed(shards: seq<Shard>, users: map<int, Client>) {
    && |shards| > 0
    && (forall i, u :: 0 <= i < |shards| && u in shards[i].users ==>
          i == ShardOf(u, |shards|) && u in users && users[u] == shards[i].users[u])
    && (forall u :: u in users ==> u in shards[ShardOf(u, |shards|)].users)
  }

  function SetRoom(shards: seq<Shard>, room: int, clients: set<Client>): seq<Shard>
    requires |shards| > 0
  {
    var i := ShardOf(room, |shards|);
    var s := shards[i];
    shards[i := s.(rooms := if clients == {} then s.rooms - {room} else s.rooms[room := clients])]
  }

  lemma SetRoomPlaced(shards: seq<Shard>, room: int, clients: set<Client>, after: seq<Shard>)
    requires |shards| > 0 && Placed(shards) && after == SetRoom(shards, room, clients)
    ensures Placed(after)
  {
    hide ShardOf;
    forall i: nat, r | i < |after| ensures RoomPlaced(after, i, r) {
      assert RoomPlaced(shards, i, r);
    }
  }

  lemma ListedAfter(shards: seq<Shard>, room: int, clients: set<Client>, r: int)
    requires |shards| > 0
    ensures Listed(SetRoom(shards, room, clients), r) == if r == room then clients else Listed(shards, r)
  {
    hide ShardOf;
  }

  lemma SetRoomIndexes(shards: seq<Shard>, before: map<Client, set<int>>, after: map<Client, set<int>>, room: int)
    requires Indexed(shards, before)
    requires forall r :: r != room ==> Members(before, r) == Members(after, r)
    ensures Indexed(SetRoom(shards, room, Members(after, room)), after)
  {
    hide Members, ShardOf, Placed, Listed;
    var clients := Members(after, room);
    SetRoomPlaced(shards, room, clients, SetRoom(shards, room, clients));
    forall r ensures Listed(SetRoom(shards, room, clients), r) == Members(after, r) {
      ListedAfter(shards, room, clients, r);
    }
  }

  lemma SetRoomKeepsUsers(shards: seq<Shard>, users: map<int, Client>, room: int, clients: set<Client>)
    requires UsersIndexed(shards, users)
    ensures UsersIndexed(SetRoom(shards, room, clients), users)
  {
    hide ShardOf;
  }

  lemma JoinChanges(rooms: map<Client, set<int>>, c: Client, room: int)
    requires c in rooms
    ensures Members(rooms[c := rooms[c] + {room}], room) == Members(rooms, room) + {c}
    ensures forall r :: r != room ==> Members(rooms[c := rooms[c] + {room}], r) == Members(rooms, r)
  {
  }

  lemma LeaveChanges(rooms: map<Client, set<int>>, c: Client, room: int)
    requires c in rooms
    ensures Members(rooms[c := rooms[c] - {room}], room) == Members(rooms, room) - {c}
    ensures forall r :: r != room ==> Members(rooms[c := rooms[c] - {room}], r) == Members(rooms, r)
  {
  }

  lemma DisbandChanges(rooms: map<Client, set<int>>, room: int)
    ensures var after := map c | c in rooms :: rooms[c] - {room};
            Members(after, room) == {} && forall r :: r != room ==> Members(after, r) == Members(rooms, r)
  {
  }

  /** A client that lists no room does not matter to the index. */
  lemma SilentClient(shards: seq<Shard>, rooms: map<Client, set<int>>, c: Client)
    requires c in rooms ==> rooms[c] == {}
    ensures Indexed(shards, rooms) <==> Indexed(shards, rooms[c := {}])
    ensures Indexed(shards, rooms) <==> Indexed(shards, rooms - {c})
  {
    forall r ensures Members(rooms, r) == Members(rooms[c := {}], r) == Members(rooms - {c}, r) {}
    SameIndex(shards, rooms, rooms[c := {}]);
    SameIndex(shards, rooms, rooms - {c});
  }

  /** The room index does not depend on the user tables. */
  lemma SameRooms(a: seq<Shard>, b: seq<Shard>, rooms: map<Client, set<int>>)
    requires Indexed(a, rooms) && |a| == |b| && forall i :: 0 <= i < |a| ==> a[i].rooms == b[i].rooms
    ensures Indexed(b, rooms)
  {
    hide ShardOf, Members;
    forall r ensures Listed(b, r) == Members(rooms, r) {
      assert Listed(a, r) == Members(rooms, r);
    }
    forall i: nat, r | i < |b| ensures RoomPlaced(b, i, r) {
      assert RoomPlaced(a, i, r);
    }
  }

  lemma SameIndex(shards: seq<Shard>, a: map<Client, set<int>>, b: map<Client, set<int>>)
    requires forall r :: Members(a, r) == Members(b, r)
    ensures Indexed(shards, a) <==> Indexed(shards, b)
  {
    hide Members, Placed, Listed;
  }

  // ---------- counting over the shards ----------

  function UserKeys(shards: seq<Shard>): set<int> {
    if |shards| == 0 then {} else UserKeys(shards[..|shards| - 1]) + shards[|shards| - 1].users.Keys
  }

  function RoomKeys(shards: seq<Shard>): set<int> {
    if |shards| == 0 then {} else RoomKeys(shards[..|shards| - 1]) + shards[|shards| - 1].rooms.Keys
  }

  lemma {:induction false} UserKeysMembers(shards: seq<Shard>, u: int)
    ensures u in UserKeys(shards) <==> exists i :: 0 <= i < |shards| && u in shards[i].users
  {
    if |shards| > 0 {
      UserKeysMembers(shards[..|shards| - 1], u);
    }
  }

  lemma {:induction false} RoomKeysMembers(shards: seq<Shard>, r: int)
    ensures r in RoomKeys(shards) <==> exists i :: 0 <= i < |shards| && r in shards[i].rooms
  {
    if |shards| > 0 {
      RoomKeysMembers(shards[..|shards| - 1], r);
    }
  }

  /** The rooms someone lists. */
  function OccupiedRooms(rooms: map<Client, set<int>>): set<int> {
    set c, r | c in rooms && r in rooms[c] :: r
  }

  lemma OccupiedHasMembers(rooms: map<Client, set<int>>, r: int)
    ensures r in OccupiedRooms(rooms) <==> Members(rooms, r) != {}
  {
    if Members(rooms, r) != {} {
      var c :| c in Members(rooms, r);
      assert r in rooms[c];
    }
    if r in OccupiedRooms(rooms) {
      var c :| c in rooms && r in rooms[c];
      assert c in Members(rooms, r);
    }
  }

  lemma ShardsHoldUsers(shards: seq<Shard>, users: map<int, Client>)
    requires UsersIndexed(shards, users)
    ensures UserKeys(shards) == users.Keys
  {
    hide UserKeys, ShardOf;
    forall u ensures u in UserKeys(shards) <==> u in users {
      UserKeysMembers(shards, u);
      if u in users {
        assert u in shards[ShardOf(u, |shards|)].users;
      }
    }
  }

  lemma ShardsHoldRooms(shards: seq<Shard>, rooms: map<Client, set<int>>)
    requires Indexed(shards, rooms)
    ensures RoomKeys(shards) == OccupiedRooms(rooms)
  {
    hide RoomKeys, ShardOf, Members, OccupiedRooms;
    forall r ensures r in RoomKeys(shards) <==> r in OccupiedRooms(rooms) {
      RoomKeysMembers(shards, r);
      OccupiedHasMembers(rooms, r);
      assert Listed(shards, r) == Members(rooms, r);
      if Members(rooms, r) != {} {
        assert r in shards[ShardOf(r, |shards|)].rooms;
      }
      if i: nat :| i < |shards| && r in shards[i].rooms {
        assert RoomPlaced(shards, i, r);
      }
    }
  }

  lemma DisjointSizes<T>(a: set<T>, b: set<T>)
    requires a !! b
    ensures |a + b| == |a| + |b|
  {
  }

  datatype Counts = Counts(clients: nat, rooms: nat)

  /** What is reported equals the counts of the hub without shards, for every number of shards. */
  method CountShards(shards: seq<Shard>, ghost f: Flat) returns (stats: Counts)
    requires Indexed(shards, f.rooms) && UsersIndexed(shards, f.users)
    ensures stats == Counts(|f.users|, |OccupiedRooms(f.rooms)|)
  {
    hide Indexed, UsersIndexed, OccupiedRooms;
    var clients, rooms := 0, 0;
    for i := 0 to |shards|
      invariant clients == |UserKeys(shards[..i])| && rooms == |RoomKeys(shards[..i])|
    {
      assert shards[..i + 1][..i] == shards[..i];
      NextShardIsDisjoint(shards, f, i);
      DisjointSizes(UserKeys(shards[..i]), shards[i].users.Keys);
      DisjointSizes(RoomKeys(shards[..i]), shards[i].rooms.Keys);
      clients, rooms := clients + |shards[i].users|, rooms + |shards[i].rooms|;
    }
    assert shards[..|shards|] == shards;
    ShardsHoldUsers(shards, f.users);
    ShardsHoldRooms(shards, f.rooms);
    return Counts(clients, rooms);
  }

  lemma NextShardIsDisjoint(shards: seq<Shard>, f: Flat, i: nat)
    requires Indexed(shards, f.rooms) && UsersIndexed(shards, f.users) && i < |shards|
    ensures UserKeys(shards[..i]) !! shards[i].users.Keys && RoomKeys(shards[..i]) !! shards[i].rooms.Keys
  {
    hide ShardOf, Members, UserKeys, RoomKeys;
    forall u | u in UserKeys(shards[..i]) ensures u !in shards[i].users {
      UserKeysMembers(shards[..i], u);
      var j :| 0 <= j < i && u in shards[..i][j].users;
      assert u in shards[j].users;
      assert ShardOf(u, |shards|) == j;
    }
    forall r | r in RoomKeys(shards[..i]) ensures r !in shards[i].rooms {
      RoomKeysMembers(shards[..i], r);
      var j: nat :| j < i && r in shards[..i][j].rooms;
      assert r in shards[j].rooms;
      assert RoomPlaced(shards, j, r) && RoomPlaced(shards, i, r);
    }
  }

  // ---------- the operations ----------

  /** `clients` holds, for each active client, its own room set; `users` is the unsharded user table the
      shards stand for. */
  class ShardedHub {
    var shards: seq<Shard>
    var clients: map<Client, set<int>>
    ghost var users: map<int, Client>

    ghost function Value(): Flat
      reads `users, `clients
    {
      Flat(users, clients)
    }

    ghost predicate Valid()
      reads this
    {
      Indexed(shards, clients) && UsersIndexed(shards, users) && UsersOk(Value())
    }

    constructor (count: int)
      ensures Valid() && Value() == Run([]) && |shards| == if count <= 0 then DEFAULT_SHARD_COUNT else count
    {
      var n: nat := if count <= 0 then DEFAULT_SHARD_COUNT else count;
      shards, clients, users := seq(n, _ => Shard(map[], map[])), map[], map[];
    }

    /** `addClientToRoom`; `rooms` is the index's view of the clients meanwhile. */
    method AddClientToRoom(c: Client, room: int, ghost rooms: map<Client, set<int>>)
      requires Indexed(shards, rooms) && UsersIndexed(shards, users) && c in rooms
      modifies `shards
      ensures Indexed(shards, rooms[c := rooms[c] + {room}]) && UsersIndexed(shards, users)
    {
      hide ShardOf, Members, Indexed, UsersIndexed;
      ListedIsMembers(shards, rooms, room);
      var i := ShardOf(room, |shards|);
      var before := if room in shards[i].rooms then shards[i].rooms[room] else {};
      JoinChanges(rooms, c, room);
      SetRoomIndexes(shards, rooms, rooms[c := rooms[c] + {room}], room);
      SetRoomKeepsUsers(shards, users, room, before + {c});
      shards := shards[i := shards[i].(rooms := shards[i].rooms[room := before + {c}])];
    }

    /** `removeClientFromRoom`: an emptied room entry is deleted. */
    method RemoveClientFromRoom(c: Client, room: int, ghost rooms: map<Client, set<int>>)
      requires Indexed(shards, rooms) && UsersIndexed(shards, users) && c in rooms
      modifies `shards
      ensures Indexed(shards, rooms[c := rooms[c] - {room}]) && UsersIndexed(shards, users)
    {
      hide ShardOf, Members, Indexed, UsersIndexed;
      ListedIsMembers(shards, rooms, room);
      var i := ShardOf(room, |shards|);
      LeaveChanges(rooms, c, room);
      SetRoomIndexes(shards, rooms, rooms[c := rooms[c] - {room}], room);
      if room in shards[i].rooms {
        var left := shards[i].rooms[room] - {c};
        SetRoomKeepsUsers(shards, users, room, left);
        var kept := if left == {} then shards[i].rooms - {room} else shards[i].rooms[room := left];
        shards := shards[i := shards[i].(rooms := kept)];
      } else {
        assert shards[i].rooms - {room} == shards[i].rooms;
        assert shards[i := shards[i].(rooms := shards[i].rooms)] == shards;
      }
    }

    method PutUser(c: Client)
      requires Indexed(shards, clients) && UsersIndexed(shards, users)
      modifies `shards, `users
      ensures Indexed(shards, clients) && UsersIndexed(shards, users) && users == old(users)[c.user := c]
    {
      hide ShardOf, Members, Placed, Listed;
      var i := ShardOf(c.user, |shards|);
      ghost var before := shards;
      shards := shards[i := shards[i].(users := shards[i].users[c.user := c])];
      users := users[c.user := c];
      SameRooms(before, shards, clients);
    }

    method DropUser(c: Client)
      requires Indexed(shards, clients) && UsersIndexed(shards, users)
      modifies `shards, `users
      ensures Indexed(shards, clients) && UsersIndexed(shards, users) && users == Without(old(users), c)
    {
      hide ShardOf, Members, Placed, Listed;
      var i := ShardOf(c.user, |shards|);
      if c.user in shards[i].users && shards[i].users[c.user] == c {
        ghost var before := shards;
        shards := shards[i := shards[i].(users := shards[i].users - {c.user})];
        users := users - {c.user};
        SameRooms(before, shards, clients);
      }
    }

    /** A new connection; the caller hands in clients that are not registered. */
    method Register(c: Client, ids: seq<int>)
      requires Valid() && c !in clients
      modifies this
      ensures Valid() && Value() == Apply(old(Value()), Op.Register(c, ids))
    {
      hide Indexed, UsersIndexed, Listed;
      PutUser(c);
      ghost var before := clients;
      SilentClient(shards, before, c);
      clients := clients[c := ToSet(ids)];
      assert ToSet(ids[..0]) == {};
      for i := 0 to |ids|
        invariant Indexed(shards, before[c := ToSet(ids[..i])]) && UsersIndexed(shards, users)
        invariant clients == before[c := ToSet(ids)] && users == old(users)[c.user := c]
      {
        ghost var rooms := before[c := ToSet(ids[..i])];
        AddClientToRoom(c, ids[i], rooms);
        assert ToSet(ids[..i + 1]) == ToSet(ids[..i]) + {ids[i]};
        assert rooms[c := rooms[c] + {ids[i]}] == before[c := ToSet(ids[..i + 1])];
      }
      assert ids[..|ids|] == ids;
    }

    method Unregister(c: Client)
      requires Valid()
      modifies this
      ensures Valid() && Value() == Apply(old(Value()), Op.Unregister(c))
    {
      hide Indexed, UsersIndexed, Listed;
      if c !in clients {
        return;
      }
      DropUser(c);
      var left := clients[c];
      ghost var before := clients;
      assert before[c := left] == before;
      while left != {}
        invariant Indexed(shards, before[c := left]) && UsersIndexed(shards, users)
        invariant clients == before && users == Without(old(users), c)
        decreases left
      {
        HasElement(left);
        var room :| room in left;
        ghost var rooms := before[c := left];
        RemoveClientFromRoom(c, room, rooms);
        left := left - {room};
        assert rooms[c := rooms[c] - {room}] == before[c := left];
      }
      SilentClient(shards, before[c := {}], c);
      assert before[c := {}] - {c} == before - {c};
      clients := clients - {c};
    }

    method UpdateRooms(c: Client, ids: seq<int>)
      requires Valid()
      modifies this
      ensures Valid() && Value() == Apply(old(Value()), Op.UpdateRooms(c, ids))
    {
      hide Indexed, UsersIndexed, Listed;
      if c !in clients {
        return;
      }
      var wanted := ToSet(ids);
      var gone, kept := clients[c] - wanted, clients[c];
      ghost var before := clients;
      assert before[c := kept] == before;
      while gone != {}
        invariant kept == before[c] * wanted + gone && gone !! wanted && gone <= before[c]
        invariant Indexed(shards, before[c := kept]) && UsersIndexed(shards, users)
        invariant clients == before && users == old(users)
        decreases gone
      {
        HasElement(gone);
        var room :| room in gone;
        ghost var rooms := before[c := kept];
        RemoveClientFromRoom(c, room, rooms);
        gone, kept := gone - {room}, kept - {room};
        assert rooms[c := rooms[c] - {room}] == before[c := kept];
      }
      var missing := wanted - clients[c];
      while missing != {}
        invariant kept == wanted - missing && missing <= wanted
        invariant Indexed(shards, before[c := kept]) && UsersIndexed(shards, users)
        invariant clients == before && users == old(users)
        decreases missing
      {
        HasElement(missing);
        var room :| room in missing;
        ghost var rooms := before[c := kept];
        AddClientToRoom(c, room, rooms);
        missing, kept := missing - {room}, kept + {room};
        assert rooms[c := rooms[c] + {room}] == before[c := kept];
      }
      assert kept == wanted;
      clients := clients[c := wanted];
    }

    /** `clientByUser`. */
    method ClientByUser(user: int) returns (c: Option<Client>)
      requires Valid()
      ensures c == if user in users then Some(users[user]) else None
    {
      hide ShardOf, Indexed;
      var s := shards[ShardOf(user, |shards|)];
      c := if user in s.users then Some(s.users[user]) else None;
    }

    method JoinRoom(user: int, room: int)
      requires Valid()
      modifies this
      ensures Valid() && Value() == Apply(old(Value()), Op.JoinRoom(user, room))
    {
      hide Indexed, UsersIndexed, Listed;
      var found := ClientByUser(user);
      if found.None? || found.value !in clients {
        return;
      }
      var c := found.value;
      if room in clients[c] {
        assert clients[c] + {room} == clients[c];
        assert clients[c := clients[c]] == clients;
        return;
      }
      AddClientToRoom(c, room, clients);
      clients := clients[c := clients[c] + {room}];
    }

    method LeaveRoom(user: int, room: int)
      requires Valid()
      modifies this
      ensures Valid() && Value() == Apply(old(Value()), Op.LeaveRoom(user, room))
    {
      hide Indexed, UsersIndexed, Listed;
      var found := ClientByUser(user);
      if found.None? || found.value !in clients {
        return;
      }
      var c := found.value;
      if room !in clients[c] {
        assert clients[c] - {room} == clients[c];
        assert clients[c := clients[c]] == clients;
        return;
      }
      RemoveClientFromRoom(c, room, clients);
      clients := clients[c := clients[c] - {room}];
    }

    /** Drops the room's entry, then the room from each client the entry listed. */
    method DisbandRoom(room: int)
      requires Valid()
      modifies this
      ensures Valid() && Value() == Apply(old(Value()), Op.DisbandRoom(room))
    {
      hide Indexed, UsersIndexed, Members, ShardOf;
      ListedIsMembers(shards, clients, room);
      var i := ShardOf(room, |shards|);
      var members := if room in shards[i].rooms then shards[i].rooms[room] else {};
      ghost var after := map c | c in clients :: clients[c] - {room};
      DisbandChanges(clients, room);
      SetRoomIndexes(shards, clients, after, room);
      SetRoomKeepsUsers(shards, users, room, {});
      shards := shards[i := shards[i].(rooms := shards[i].rooms - {room})];
      MembersList(clients, room);
      var rooms := clients;
      while members != {}
        invariant members <= rooms.Keys && rooms.Keys == clients.Keys
        invariant forall c :: c in clients ==> rooms[c] == if c in members then clients[c] else clients[c] - {room}
        decreases members
      {
        var c :| c in members;
        rooms := rooms[c := rooms[c] - {room}];
        members := members - {c};
      }
      assert forall c :: c in clients ==> rooms[c] == after[c];
      assert rooms == after;
      clients := rooms;
    }

    method Stats() returns (stats: Counts)
      requires Valid()
      ensures stats == Counts(|users|, |OccupiedRooms(clients)|)
    {
      stats := CountShards(shards, Value());
    }

    /** The snapshot `dispatchMessage` takes. */
    method RoomClients(room: int) returns (members: set<Client>)
      requires Valid()
      ensures members == Members(clients, room)
    {
      hide ShardOf, Members, UsersIndexed;
      ListedIsMembers(shards, clients, room);
      var s := shards[ShardOf(room, |shards|)];
      members := if room in s.rooms then s.rooms[room] else {};
    }
  }

  lemma HasElement(s: set<int>)
    requires s != {}
    ensures exists x :: x in s
  {
    var x := AnyElement(s);
    assert x in s;
  }

  lemma AnyElement<T>(s: set<T>) returns (x: T)
    requires s != {}
    ensures x in s
  {
    x :| x in s;
  }

  lemma ListedIsMembers(shards: seq<Shard>, rooms: map<Client, set<int>>, room: int)
    requires Indexed(shards, rooms)
    ensures |shards| > 0 && Listed(shards, room) == Members(rooms, room)
  {
  }

  lemma MembersList(rooms: map<Client, set<int>>, room: int)
    ensures forall c :: c in Members(rooms, room) <==> c in rooms && room in rooms[c]
  {
  }

  /** Clients are registered only while they are not. */
  predicate RegistersFresh(ops: seq<Op>) {
    forall i :: 0 <= i < |ops| && ops[i].Register? ==> ops[i].client !in Run(ops[..i]).rooms
  }

  /** Any run of operations, over any number of shards, is the run of the hub without shards. */
  method Execute(count: int, ops: seq<Op>) returns (hub: ShardedHub)
    requires RegistersFresh(ops)
    ensures fresh(hub) && hub.Valid() && hub.Value() == Run(ops)
    ensures forall c, q :: c in Members(hub.clients, q) <==> PutLast(ops, c, q)
  {
    hide Indexed, UsersIndexed, UsersOk, Apply, Members, PutLast;
    hub := new ShardedHub(count);
    for i := 0 to |ops|
      invariant fresh(hub) && hub.Valid() && hub.Value() == Run(ops[..i])
    {
      assert ops[..i + 1][..i] == ops[..i];
      match ops[i] {
        case Register(c, ids) => hub.Register(c, ids);
        case Unregister(c) => hub.Unregister(c);
        case UpdateRooms(c, ids) => hub.UpdateRooms(c, ids);
        case JoinRoom(u, r) => hub.JoinRoom(u, r);
        case LeaveRoom(u, r) => hub.LeaveRoom(u, r);
        case DisbandRoom(r) => hub.DisbandRoom(r);
      }
    }
    assert ops[..|ops|] == ops;
    forall c, q ensures c in Members(hub.clients, q) <==> PutLast(ops, c, q) { MemberIffPutLast(ops, c, q); }
  }
}
