/** How a message is fanned out to the clients of a room: one by one in a small room, in balanced batches
    on a worker pool in a large one. */
module Fanout {
  import opened Envelopes
  import opened Hub

  function CeilDiv(n: nat, d: nat): nat
    requires d > 0
  {
    (n + d - 1) / d
  }

  /** At least two tasks, and enough that no task exceeds the batch size. */
  function TaskCount(n: nat, batchSize: nat): nat
    requires batchSize > 0
  {
    var count := CeilDiv(n, batchSize);
    if count < 2 then 2 else count
  }

  function BalancedSize(n: nat, batchSize: nat): nat
    requires batchSize > 0
  {
    CeilDiv(n, TaskCount(n, batchSize))
  }

  /** The quotient rounded up is the least one that covers `n`. */
  lemma CeilDivIsLeast(n: nat, d: nat, q: nat)
    requires d > 0
    ensures CeilDiv(n, d) <= q <==> n <= q * d
  {
    var c := CeilDiv(n, d);
    assert (c - 1) * d < n <= c * d by {
      assert n + d - 1 == c * d + (n + d - 1) % d;
      assert (c - 1) * d == c * d - d;
    }
    if c <= q {
      MulMonotone(c, q, d);
    } else {
      MulMonotone(q, c - 1, d);
    }
  }

  lemma MulMonotone(a: int, b: int, d: nat)
    requires a <= b
    ensures a * d <= b * d
  {
    assert (b - a) * d >= 0;
  }

  /** A balanced batch fits the batch size, and `TaskCount` of them cover the list. */
  lemma BalancedFits(n: nat, batchSize: nat)
    requires batchSize > 0
    ensures BalancedSize(n, batchSize) <= batchSize
    ensures n <= BalancedSize(n, batchSize) * TaskCount(n, batchSize)
    ensures n > 0 ==> BalancedSize(n, batchSize) > 0
    ensures n >= 2 ==> BalancedSize(n, batchSize) < n
  {
    hide CeilDiv;
    var t := TaskCount(n, batchSize);
    var s := CeilDiv(n, t);
    CeilDivIsLeast(n, batchSize, t);
    assert t * batchSize == batchSize * t;
    CeilDivIsLeast(n, t, batchSize);
    CeilDivIsLeast(n, t, s);
    CeilDivIsLeast(n, t, 0);
    if n >= 2 {
      MulMonotone(2, t, n - 1);
      CeilDivIsLeast(n, t, n - 1);
    }
  }

  /** The batches, in order, are the list; each fits and none is empty. There are at least two for two or
      more clients, and no more than two or the fewest that fit; all but the last are of one size, which
      the last does not exceed. */
  ghost predicate Partition(clients: seq<Client>, batchSize: nat, batches: seq<seq<Client>>)
    requires batchSize > 0
  {
    && Flatten(batches) == clients
    && (forall i :: 0 <= i < |batches| ==> 0 < |batches[i]| <= batchSize)
    && (|batches| <= 2 || (|batches| - 1) * batchSize < |clients|)
    && (|clients| >= 2 ==> |batches| >= 2)
    && (forall i, j :: 0 <= i < j < |batches| ==>
          |batches[j]| <= |batches[i]| && (j < |batches| - 1 ==> |batches[j]| == |batches[i]|))
  }

  /** More tasks than two only if fewer would not fit. */
  lemma TaskCountIsLeast(n: nat, batchSize: nat, count: nat)
    requires batchSize > 0 && count <= TaskCount(n, batchSize)
    ensures count <= 2 || (count - 1) * batchSize < n
  {
    hide CeilDiv;
    if count > 2 {
      CeilDivIsLeast(n, batchSize, count - 1);
    }
  }

  function Least(a: int, b: int): int {
    if a < b then a else b
  }

  lemma PushBatch(batches: seq<seq<Client>>, clients: seq<Client>, start: nat, end: nat)
    requires start <= end <= |clients| && Flatten(batches) == clients[..start]
    ensures Flatten(batches + [clients[start..end]]) == clients[..end]
  {
    assert (batches + [clients[start..end]])[..|batches|] == batches;
  }

  /** `start` is where batch `count` begins. */
  ghost predicate StartsAt(start: nat, count: nat, size: nat) {
    start == count * size
  }

  lemma NextStart(start: nat, count: nat, size: nat)
    ensures StartsAt(0, 0, size) && (StartsAt(start, count, size) ==> StartsAt(start + size, count + 1, size))
  {
    assert (count + 1) * size == count * size + size;
  }

  /** The number of tasks and the size of a balanced batch. */
  method BatchPlan(n: nat, batchSize: nat) returns (taskCount: nat, size: nat)
    requires batchSize > 0
    ensures taskCount == TaskCount(n, batchSize) && size == BalancedSize(n, batchSize)
  {
    taskCount := (n + batchSize - 1) / batchSize;
    if taskCount < 2 {
      taskCount := 2;
    }
    size := (n + taskCount - 1) / taskCount;
  }

  method SplitBatches(clients: seq<Client>, batchSize: nat) returns (batches: seq<seq<Client>>)
    requires batchSize > 0 && |clients| > 0
    ensures Partition(clients, batchSize, batches)
  {
    hide CeilDiv, TaskCount, BalancedSize, StartsAt, Flatten;
    var n := |clients|;
    var taskCount, size := BatchPlan(n, batchSize);
    BalancedFits(n, batchSize);
    batches := [];
    var start := 0;
    NextStart(0, 0, size);
    NothingFlat();
    while start < n
      invariant StartsAt(start, |batches|, size) && Flatten(batches) == clients[..Least(start, n)]
      invariant forall i :: 0 <= i < |batches| ==> 0 < |batches[i]| <= batchSize
      invariant |batches| > 0 ==> start - size < n && |batches[|batches| - 1]| == Least(start, n) - (start - size)
      invariant forall i :: 0 <= i < |batches| - 1 ==> |batches[i]| == size
    {
      var end := Least(start + size, n);
      PushBatch(batches, clients, start, end);
      NextStart(start, |batches|, size);
      batches := batches + [clients[start..end]];
      start := start + size;
    }
    assert clients[..Least(start, n)] == clients;
    CountBatches(n, size, batchSize, start, |batches|);
    TaskCountIsLeast(n, batchSize, |batches|);
  }

  lemma NothingFlat()
    ensures Flatten<Client>([]) == []
  {
  }

  lemma CountBatches(n: nat, size: nat, batchSize: nat, start: nat, count: nat)
    requires n > 0 && batchSize > 0 && size == BalancedSize(n, batchSize)
    requires StartsAt(start, count, size) && start >= n && (count > 0 ==> start - size < n)
    ensures count <= TaskCount(n, batchSize) && (n >= 2 ==> count >= 2)
  {
    hide CeilDiv, TaskCount, BalancedSize;
    BalancedFits(n, batchSize);
    var taskCount := TaskCount(n, batchSize);
    assert size * taskCount == taskCount * size;
    assert (count - 1) * size == count * size - size;
    if count > taskCount {
      MulMonotone(taskCount, count - 1, size);
    }
  }

  lemma {:induction false} SomeTaskLeft(rest: seq<seq<Client>>)
    requires |Flatten(rest)| > 0
    ensures exists t :: 0 <= t < |rest| && |rest[t]| > 0
  {
    var n := |rest| - 1;
    if |rest[n]| == 0 {
      SomeTaskLeft(rest[..n]);
      var t :| 0 <= t < n && |rest[..n][t]| > 0;
      assert rest[t] == rest[..n][t];
    }
  }

  /** One task attempts its next client; the other tasks stay as they are. */
  lemma {:induction false} OneAttempt(rest: seq<seq<Client>>, t: nat)
    requires t < |rest| && |rest[t]| > 0
    ensures multiset(Flatten(rest)) == multiset(Flatten(rest[t := rest[t][1..]])) + multiset{rest[t][0]}
    ensures |Flatten(rest[t := rest[t][1..]])| == |Flatten(rest)| - 1
  {
    hide Flatten;
    var n := |rest| - 1;
    var after := rest[t := rest[t][1..]];
    LastBatch(rest);
    LastBatch(after);
    if t == n {
      assert after[..n] == rest[..n];
      assert rest[n] == [rest[n][0]] + rest[n][1..];
    } else {
      OneAttempt(rest[..n], t);
      assert after[..n] == rest[..n][t := rest[t][1..]];
    }
  }

  lemma LastBatch(rest: seq<seq<Client>>)
    requires |rest| > 0
    ensures Flatten(rest) == Flatten(rest[..|rest| - 1]) + rest[|rest| - 1]
  {
  }

  /** The sends attempted, whatever way the pool interleaves the tasks; a task the pool does not take
      runs in place. */
  method Dispatch(clients: seq<Client>, threshold: nat, batchSize: nat) returns (attempts: multiset<Client>)
    requires batchSize > 0
    ensures attempts == multiset(clients)
  {
    attempts := multiset{};
    if |clients| == 0 {
      return;
    }
    if |clients| < threshold {
      for i := 0 to |clients|
        invariant attempts == multiset(clients[..i])
      {
        assert clients[..i + 1] == clients[..i] + [clients[i]];
        attempts := attempts + multiset{clients[i]};
      }
      assert clients[..|clients|] == clients;
      return;
    }
    var rest := SplitBatches(clients, batchSize);
    while |Flatten(rest)| > 0
      invariant attempts + multiset(Flatten(rest)) == multiset(clients)
      decreases |Flatten(rest)|
    {
      SomeTaskLeft(rest);
      var t :| 0 <= t < |rest| && |rest[t]| > 0;
      OneAttempt(rest, t);
      attempts := attempts + multiset{rest[t][0]};
      rest := rest[t := rest[t][1..]];
    }
  }

  lemma Listed(members: set<Client>, list: seq<Client>, left: set<Client>, c: Client)
    requires c in left && left <= members && multiset(list) == multiset(members - left)
    ensures multiset(list + [c]) == multiset(members - (left - {c}))
  {
    assert members - (left - {c}) == (members - left) + {c};
  }

  /** `dispatchMessage`: one attempt for each active client that lists the room, and for no other. */
  method DispatchMessage(hub: ShardedHub, room: int, threshold: nat, batchSize: nat)
    returns (attempts: multiset<Client>)
    requires hub.Valid() && batchSize > 0
    ensures attempts == multiset(Members(hub.clients, room))
  {
    hide Members, Indexed, UsersIndexed, UsersOk;
    var members := hub.RoomClients(room);
    var list: seq<Client>, left := [], members;
    assert members - left == {};
    while left != {}
      invariant left <= members && multiset(list) == multiset(members - left)
      decreases left
    {
      var c :| c in left;
      Listed(members, list, left, c);
      list, left := list + [c], left - {c};
    }
    assert members - left == members;
    attempts := Dispatch(list, threshold, batchSize);
  }
}
