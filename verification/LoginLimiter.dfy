/** The login limiter: fixed windows per IP and per (IP, user name), with expired entries swept now and
    then. The sweep is shown never to change an answer, and the windows to bound what any interval of
    one window length lets through. */
module LoginLimiter {
  /** Times are positive; zero is the zero time, as in an entry that is not there. */
  datatype Entry = Entry(start: int, count: nat)

  const ZERO: Entry := Entry(0, 0)

  function Get<K>(m: map<K, Entry>, k: K): Entry {
    if k in m then m[k] else ZERO
  }

  predicate Expired(e: Entry, now: int, window: int) {
    now - e.start >= window
  }

  function IncrementWindow(e: Entry, now: int, window: int): Entry {
    if e.start == 0 || Expired(e, now, window) then Entry(now, 1) else Entry(e.start, e.count + 1)
  }

  // ---------- one key ----------

  /** The entry of a key after attempts at the given times. */
  function Trace(times: seq<int>, window: int): Entry {
    if |times| == 0 then ZERO else IncrementWindow(Trace(times[..|times| - 1], window), times[|times| - 1], window)
  }

  predicate Chronological(times: seq<int>) {
    && (forall i :: 0 <= i < |times| ==> times[i] > 0)
    && (forall i, j :: 0 <= i < j < |times| ==> times[i] <= times[j])
  }

  function At(times: seq<int>, i: nat, window: int): Entry
    requires i < |times|
  {
    Trace(times[..i + 1], window)
  }

  predicate Within(t: int, from: int, window: int) {
    from <= t < from + window
  }

  /** How many attempts pass in the half-open interval of one window length from `from`. */
  function PassedWithin(times: seq<int>, from: int, window: int, limit: nat): nat {
    if |times| == 0 then 0
    else
      var n := |times| - 1;
      PassedWithin(times[..n], from, window, limit)
      + (if Within(times[n], from, window) && Trace(times, window).count <= limit then 1 else 0)
  }

  /** The same, for attempts counted in the window that started at `start`. */
  function PassedOf(times: seq<int>, start: int, from: int, window: int, limit: nat): nat {
    if |times| == 0 then 0
    else
      var n := |times| - 1;
      PassedOf(times[..n], start, from, window, limit)
      + (if Trace(times, window).start == start && Within(times[n], from, window)
            && Trace(times, window).count <= limit then 1 else 0)
  }

  /** All attempts that pass in the window that started at `start`. */
  function PassedIn(times: seq<int>, start: int, window: int, limit: nat): nat {
    if |times| == 0 then 0
    else
      var n := |times| - 1;
      PassedIn(times[..n], start, window, limit)
      + (if Trace(times, window).start == start && Trace(times, window).count <= limit then 1 else 0)
  }

  lemma PrefixOk(times: seq<int>)
    requires Chronological(times) && |times| > 0
    ensures Chronological(times[..|times| - 1])
  {
  }

  lemma {:induction false} StartIsPast(times: seq<int>, window: int)
    requires Chronological(times) && |times| > 0 && window > 0
    ensures 0 < Trace(times, window).start <= times[|times| - 1] && Trace(times, window).count > 0
    ensures times[|times| - 1] < Trace(times, window).start + window
  {
    if |times| > 1 {
      PrefixOk(times);
      StartIsPast(times[..|times| - 1], window);
    }
  }

  /** A counter counts the attempts since attempt `k`, which opened the window because it was the first or
      came a window length or more after the start of the window before. */
  lemma {:induction false} EntryIsWindow(times: seq<int>, window: int) returns (k: nat)
    requires Chronological(times) && |times| > 0 && window > 0
    ensures k < |times| && Trace(times, window) == Entry(times[k], |times| - k)
    ensures times[|times| - 1] < times[k] + window
    ensures k > 0 ==> times[k] >= Trace(times[..k], window).start + window
  {
    var n := |times| - 1;
    k := n;
    if n > 0 {
      PrefixOk(times);
      var earlier := EntryIsWindow(times[..n], window);
      if times[n] < times[earlier] + window {
        k := earlier;
        assert times[..n][..k] == times[..k];
      }
    }
  }

  /** A later window starts at least one window length after an earlier one, and not before an attempt
      counted in the earlier one. */
  lemma {:induction false} WindowsJump(times: seq<int>, i: nat, window: int)
    requires Chronological(times) && i < |times| && window > 0
    ensures At(times, i, window).start <= Trace(times, window).start
    ensures At(times, i, window).start < Trace(times, window).start ==>
              Trace(times, window).start >= At(times, i, window).start + window
                && Trace(times, window).start >= times[i]
  {
    var n := |times| - 1;
    if i == n {
      assert times[..i + 1] == times;
    } else {
      PrefixOk(times);
      WindowsJump(times[..n], i, window);
      assert times[..n][..i + 1] == times[..i + 1];
      StartIsPast(times[..n], window);
      StartIsPast(times, window);
    }
  }

  /** A window lets at most `limit` attempts through. */
  lemma {:induction false} WindowIsBounded(times: seq<int>, start: int, window: int, limit: nat)
    requires Chronological(times) && window > 0
    ensures PassedIn(times, start, window, limit) <= limit
    ensures |times| > 0 && Trace(times, window).start == start ==>
              PassedIn(times, start, window, limit) <= Trace(times, window).count
    ensures |times| > 0 && Trace(times, window).start < start ==> PassedIn(times, start, window, limit) == 0
  {
    if |times| > 0 {
      var n := |times| - 1;
      PrefixOk(times);
      WindowIsBounded(times[..n], start, window, limit);
      StartIsPast(times, window);
      if n > 0 {
        StartIsPast(times[..n], window);
      }
    }
  }

  /** When a window started before the interval, its first attempt is not in the interval. */
  lemma {:induction false} StarterIsOutside(times: seq<int>, start: int, from: int, window: int, limit: nat)
    requires Chronological(times) && window > 0 && limit > 0 && start < from
    ensures PassedOf(times, start, from, window, limit) <= PassedIn(times, start, window, limit)
    ensures PassedOf(times, start, from, window, limit) > 0 ==>
              PassedOf(times, start, from, window, limit) < PassedIn(times, start, window, limit)
    ensures |times| > 0 && Trace(times, window).start == start ==>
              PassedOf(times, start, from, window, limit) < PassedIn(times, start, window, limit)
  {
    if |times| > 0 {
      PrefixOk(times);
      StarterIsOutside(times[..|times| - 1], start, from, window, limit);
      if |times| > 1 {
        StartIsPast(times[..|times| - 1], window);
      }
    }
  }

  lemma {:induction false} OfIsPartOfIn(times: seq<int>, start: int, from: int, window: int, limit: nat)
    ensures PassedOf(times, start, from, window, limit) <= PassedIn(times, start, window, limit)
  {
    if |times| > 0 {
      OfIsPartOfIn(times[..|times| - 1], start, from, window, limit);
    }
  }

  /** If every attempt of the interval is counted in one of two windows, so is every one that passes. */
  lemma {:induction false} TwoWindowsCover(times: seq<int>, from: int, window: int, limit: nat, first: int, last: int)
    requires forall i: nat :: i < |times| && Within(times[i], from, window) ==>
               At(times, i, window).start in {first, last}
    ensures PassedWithin(times, from, window, limit) <=
              PassedOf(times, first, from, window, limit)
                + (if last == first then 0 else PassedOf(times, last, from, window, limit))
  {
    if |times| > 0 {
      var n := |times| - 1;
      forall i: nat | i < n && Within(times[..n][i], from, window)
        ensures At(times[..n], i, window).start in {first, last}
      {
        assert times[..n][..i + 1] == times[..i + 1];
        assert At(times, i, window) == At(times[..n], i, window);
      }
      TwoWindowsCover(times[..n], from, window, limit, first, last);
      assert times[..n + 1] == times;
      assert At(times, n, window) == Trace(times, window);
    }
  }

  lemma {:induction false} FirstWithin(times: seq<int>, from: int, window: int, limit: nat) returns (f: nat, l: nat)
    requires PassedWithin(times, from, window, limit) > 0 && Chronological(times)
    ensures f <= l < |times| && Within(times[f], from, window) && Within(times[l], from, window)
    ensures forall i: nat :: i < |times| && Within(times[i], from, window) ==> f <= i <= l
  {
    var n := |times| - 1;
    PrefixOk(times);
    if PassedWithin(times[..n], from, window, limit) > 0 {
      f, l := FirstWithin(times[..n], from, window, limit);
      assert forall i: nat :: i < n ==> times[..n][i] == times[i];
      if Within(times[n], from, window) {
        l := n;
      }
    } else {
      f := FirstOf(times, from, window, n);
      l := n;
    }
  }

  lemma {:induction false} FirstOf(times: seq<int>, from: int, window: int, n: nat) returns (f: nat)
    requires n < |times| && Within(times[n], from, window) && Chronological(times)
    ensures f <= n && Within(times[f], from, window) && forall i: nat :: i < f ==> !Within(times[i], from, window)
    decreases n
  {
    if n > 0 && Within(times[n - 1], from, window) {
      f := FirstOf(times, from, window, n - 1);
    } else {
      f := n;
    }
  }

  /** In any half-open interval of one window length at most twice the limit, less one, passes. */
  lemma IntervalIsBounded(times: seq<int>, from: int, window: int, limit: nat)
    requires Chronological(times) && window > 0 && limit > 0
    ensures PassedWithin(times, from, window, limit) <= 2 * limit - 1
  {
    hide Trace, PassedIn, PassedOf, PassedWithin;
    if PassedWithin(times, from, window, limit) > 0 {
      var f, l := FirstWithin(times, from, window, limit);
      var first, last := At(times, f, window).start, At(times, l, window).start;
      forall i: nat | i < |times| && Within(times[i], from, window)
        ensures At(times, i, window).start in {first, last}
      {
        OnlyTwoWindows(times, f, i, l, from, window);
      }
      TwoWindowsCover(times, from, window, limit, first, last);
      WindowIsBounded(times, first, window, limit);
      WindowIsBounded(times, last, window, limit);
      OfIsPartOfIn(times, first, from, window, limit);
      OfIsPartOfIn(times, last, from, window, limit);
      if first != last {
        OnlyTwoWindows(times, f, f, l, from, window);
        StarterIsOutside(times, first, from, window, limit);
      }
    }
  }

  lemma OnlyTwoWindows(times: seq<int>, f: nat, i: nat, l: nat, from: int, window: int)
    requires Chronological(times) && window > 0 && f <= i <= l < |times|
    requires Within(times[f], from, window) && Within(times[l], from, window)
    ensures At(times, i, window).start in {At(times, f, window).start, At(times, l, window).start}
    ensures At(times, f, window).start != At(times, l, window).start ==> At(times, f, window).start < from
  {
    hide Trace;
    JumpBetween(times, f, i, window);
    JumpBetween(times, i, l, window);
    JumpBetween(times, f, l, window);
    StartAt(times, l, window);
  }

  lemma JumpBetween(times: seq<int>, i: nat, j: nat, window: int)
    requires Chronological(times) && window > 0 && i <= j < |times|
    ensures var a, b := At(times, i, window).start, At(times, j, window).start;
            a <= b && (a < b ==> b >= a + window && b >= times[i])
  {
    hide Trace;
    var part := times[..j + 1];
    assert part[..i + 1] == times[..i + 1] && part[i] == times[i];
    assert Chronological(part);
    WindowsJump(part, i, window);
    assert At(part, i, window) == At(times, i, window);
  }

  lemma StartAt(times: seq<int>, l: nat, window: int)
    requires Chronological(times) && window > 0 && l < |times|
    ensures At(times, l, window).start <= times[l]
  {
    hide Trace;
    assert Chronological(times[..l + 1]);
    StartIsPast(times[..l + 1], window);
  }

  function Copies(k: nat, t: int): seq<int> {
    seq(k, _ => t)
  }

  lemma PushTime(times: seq<int>, t: int, from: int, window: int, limit: nat)
    ensures Trace(times + [t], window) == IncrementWindow(Trace(times, window), t, window)
    ensures PassedWithin(times + [t], from, window, limit) == PassedWithin(times, from, window, limit)
              + (if Within(t, from, window) && IncrementWindow(Trace(times, window), t, window).count <= limit then 1
                 else 0)
  {
    assert (times + [t])[..|times|] == times;
  }

  /** One attempt at time 1 and `k` at the end of its window. */
  lemma {:induction false} EarlyAttempts(k: nat, window: int, limit: nat)
    requires window >= 2 && k < limit
    ensures Trace([1] + Copies(k, window), window) == Entry(1, k + 1)
    ensures PassedWithin([1] + Copies(k, window), 2, window, limit) == k
  {
    hide Trace, PassedWithin;
    if k == 0 {
      NoAttempts(window);
      PushTime([], 1, 2, window, limit);
      NonePassed(2, window, limit);
      assert [1] + Copies(0, window) == [] + [1];
    } else {
      EarlyAttempts(k - 1, window, limit);
      PushTime([1] + Copies(k - 1, window), window, 2, window, limit);
      assert [1] + Copies(k, window) == [1] + Copies(k - 1, window) + [window];
    }
  }

  lemma NonePassed(from: int, window: int, limit: nat)
    ensures PassedWithin([], from, window, limit) == 0
  {
  }

  /** Then `k` attempts as soon as the next window opens. */
  lemma {:induction false} LateAttempts(k: nat, window: int, limit: nat)
    requires window >= 2 && k <= limit && limit > 0
    ensures var times := [1] + Copies(limit - 1, window) + Copies(k, window + 1);
            && PassedWithin(times, 2, window, limit) == limit - 1 + k
            && Trace(times, window) == if k == 0 then Entry(1, limit) else Entry(window + 1, k)
  {
    hide Trace, PassedWithin;
    var early := [1] + Copies(limit - 1, window);
    if k == 0 {
      EarlyAttempts(limit - 1, window, limit);
      assert early + Copies(0, window + 1) == early;
    } else {
      LateAttempts(k - 1, window, limit);
      PushTime(early + Copies(k - 1, window + 1), window + 1, 2, window, limit);
      assert early + Copies(k, window + 1) == early + Copies(k - 1, window + 1) + [window + 1];
    }
  }

  /** The bound is reached for every limit and window: one early attempt, the rest of its window at its
      end, and a whole new window. */
  lemma BoundIsTight(window: int, limit: nat)
    requires window >= 2 && limit > 0
    ensures var times := [1] + Copies(limit - 1, window) + Copies(limit, window + 1);
            Chronological(times) && PassedWithin(times, 2, window, limit) == 2 * limit - 1
  {
    hide Trace, PassedWithin;
    LateAttempts(limit, window, limit);
  }

  // ---------- the whole limiter ----------

  datatype Config = Config(disabled: bool, ipLimit: int, ipWindow: int, pairLimit: int, pairWindow: int)

  /** What the constructor insists on. */
  predicate ConfigOk(c: Config) {
    c.ipLimit > 0 && c.ipWindow > 0 && c.pairLimit > 0 && c.pairWindow > 0
  }

  type PairKey = (string, string)

  /** A login attempt; the user name is already normalised. */
  datatype Attempt = Attempt(time: int, ip: string, user: string)

  datatype Verdict = Allowed | IpLimited | PairLimited

  datatype State = State(ips: map<string, Entry>, pairs: map<PairKey, Entry>)

  /** The limiter that never deletes an entry. */
  function Step(c: Config, s: State, a: Attempt): (State, Verdict) {
    if c.disabled then (s, Allowed)
    else
      var ip := IncrementWindow(Get(s.ips, a.ip), a.time, c.ipWindow);
      var ips := s.ips[a.ip := ip];
      if ip.count > c.ipLimit then (State(ips, s.pairs), IpLimited)
      else
        var pair := IncrementWindow(Get(s.pairs, (a.ip, a.user)), a.time, c.pairWindow);
        (State(ips, s.pairs[(a.ip, a.user) := pair]), if pair.count > c.pairLimit then PairLimited else Allowed)
  }

  function After(c: Config, history: seq<Attempt>): State {
    if |history| == 0 then State(map[], map[])
    else Step(c, After(c, history[..|history| - 1]), history[|history| - 1]).0
  }

  function Last(c: Config, history: seq<Attempt>): Verdict
    requires |history| > 0
  {
    Step(c, After(c, history[..|history| - 1]), history[|history| - 1]).1
  }

  predicate InOrder(history: seq<Attempt>) {
    && (forall i :: 0 <= i < |history| ==> history[i].time > 0)
    && (forall i, j :: 0 <= i < j < |history| ==> history[i].time <= history[j].time)
  }

  /** The times of the attempts from an IP. */
  function IpTimes(history: seq<Attempt>, ip: string): seq<int> {
    if |history| == 0 then []
    else
      var a := history[|history| - 1];
      IpTimes(history[..|history| - 1], ip) + (if a.ip == ip then [a.time] else [])
  }

  /** The times of the attempts for an IP and user that the IP limit let through. */
  function PairTimes(c: Config, history: seq<Attempt>, key: PairKey): seq<int> {
    if |history| == 0 then []
    else
      var a := history[|history| - 1];
      PairTimes(c, history[..|history| - 1], key)
      + (if (a.ip, a.user) == key && Last(c, history) != IpLimited then [a.time] else [])
  }

  /** How many attempts of an IP are allowed in the interval. */
  function IpAllowed(c: Config, history: seq<Attempt>, ip: string, from: int): nat {
    if |history| == 0 then 0
    else
      var a := history[|history| - 1];
      IpAllowed(c, history[..|history| - 1], ip, from)
      + (if a.ip == ip && Within(a.time, from, c.ipWindow) && Last(c, history) == Allowed then 1 else 0)
  }

  function PairAllowed(c: Config, history: seq<Attempt>, key: PairKey, from: int): nat {
    if |history| == 0 then 0
    else
      var a := history[|history| - 1];
      PairAllowed(c, history[..|history| - 1], key, from)
      + (if (a.ip, a.user) == key && Within(a.time, from, c.pairWindow) && Last(c, history) == Allowed then 1 else 0)
  }

  lemma TracePush(times: seq<int>, t: int, window: int)
    ensures Trace(times + [t], window) == IncrementWindow(Trace(times, window), t, window)
  {
    assert (times + [t])[..|times|] == times;
  }

  lemma WithinPush(times: seq<int>, t: int, from: int, window: int, limit: nat)
    ensures PassedWithin(times + [t], from, window, limit) ==
              PassedWithin(times, from, window, limit)
              + (if Within(t, from, window) && Trace(times + [t], window).count <= limit then 1 else 0)
  {
    assert (times + [t])[..|times|] == times;
  }

  /** Each key's entry is that of its own attempts. */
  lemma {:induction false} EntriesAreTraces(c: Config, history: seq<Attempt>, ip: string, key: PairKey)
    requires !c.disabled
    ensures Get(After(c, history).ips, ip) == Trace(IpTimes(history, ip), c.ipWindow)
    ensures Get(After(c, history).pairs, key) == Trace(PairTimes(c, history, key), c.pairWindow)
  {
    hide Trace, IncrementWindow;
    if |history| == 0 {
      NoAttempts(c.ipWindow);
      NoAttempts(c.pairWindow);
    } else {
      var n, a := |history| - 1, history[|history| - 1];
      EntriesAreTraces(c, history[..n], ip, key);
      TracePush(IpTimes(history[..n], ip), a.time, c.ipWindow);
      TracePush(PairTimes(c, history[..n], key), a.time, c.pairWindow);
      assert IpTimes(history[..n], ip) + [] == IpTimes(history[..n], ip);
      assert PairTimes(c, history[..n], key) + [] == PairTimes(c, history[..n], key);
    }
  }

  /** An attempt is refused for its IP iff it exceeds the IP limit in the window of the IP's attempts; else
      for IP and user iff it exceeds the limit in the window of those the IP limit let through. */
  lemma VerdictIff(c: Config, history: seq<Attempt>)
    requires |history| > 0
    ensures var a := history[|history| - 1];
            var ip := Trace(IpTimes(history, a.ip), c.ipWindow);
            var pair := Trace(PairTimes(c, history, (a.ip, a.user)), c.pairWindow);
            Last(c, history) == if c.disabled then Allowed
                                else if ip.count > c.ipLimit then IpLimited
                                else if pair.count > c.pairLimit then PairLimited
                                else Allowed
  {
    hide Trace, IncrementWindow;
    var n, a := |history| - 1, history[|history| - 1];
    if !c.disabled {
      EntriesAreTraces(c, history[..n], a.ip, (a.ip, a.user));
      TracePush(IpTimes(history[..n], a.ip), a.time, c.ipWindow);
      TracePush(PairTimes(c, history[..n], (a.ip, a.user)), a.time, c.pairWindow);
    }
  }

  lemma NoAttempts(window: int)
    ensures Trace([], window) == ZERO
  {
  }

  lemma ChronologicalPush(times: seq<int>, t: int)
    requires Chronological(times) && t > 0 && forall x :: x in times ==> x <= t
    ensures Chronological(times + [t])
  {
    forall i | 0 <= i < |times| ensures times[i] <= t { assert times[i] in times; }
  }

  lemma {:induction false} IpTimesInOrder(history: seq<Attempt>, ip: string, bound: int)
    requires InOrder(history) && forall i :: 0 <= i < |history| ==> history[i].time <= bound
    ensures Chronological(IpTimes(history, ip)) && forall t :: t in IpTimes(history, ip) ==> t <= bound
  {
    if |history| > 0 {
      var n, t := |history| - 1, history[|history| - 1].time;
      IpTimesInOrder(history[..n], ip, t);
      ChronologicalPush(IpTimes(history[..n], ip), t);
      assert IpTimes(history[..n], ip) + [] == IpTimes(history[..n], ip);
    }
  }

  lemma {:induction false} PairTimesInOrder(c: Config, history: seq<Attempt>, key: PairKey, bound: int)
    requires InOrder(history) && forall i :: 0 <= i < |history| ==> history[i].time <= bound
    ensures Chronological(PairTimes(c, history, key)) && forall t :: t in PairTimes(c, history, key) ==> t <= bound
  {
    if |history| > 0 {
      var n, t := |history| - 1, history[|history| - 1].time;
      PairTimesInOrder(c, history[..n], key, t);
      ChronologicalPush(PairTimes(c, history[..n], key), t);
      assert PairTimes(c, history[..n], key) + [] == PairTimes(c, history[..n], key);
    }
  }

  lemma {:induction false} IpAllowedPassed(c: Config, history: seq<Attempt>, ip: string, from: int)
    requires !c.disabled && c.ipLimit > 0
    ensures IpAllowed(c, history, ip, from) <= PassedWithin(IpTimes(history, ip), from, c.ipWindow, c.ipLimit)
  {
    hide Trace, IncrementWindow, PassedWithin, Within, After;
    if |history| > 0 {
      var n, a := |history| - 1, history[|history| - 1];
      var before := IpTimes(history[..n], ip);
      IpAllowedPassed(c, history[..n], ip, from);
      EntriesAreTraces(c, history[..n], ip, (ip, ""));
      TracePush(before, a.time, c.ipWindow);
      WithinPush(before, a.time, from, c.ipWindow, c.ipLimit);
      assert before + [] == before;
    }
  }

  lemma {:induction false} PairAllowedPassed(c: Config, history: seq<Attempt>, key: PairKey, from: int)
    requires !c.disabled && c.pairLimit > 0
    ensures PairAllowed(c, history, key, from)
            == PassedWithin(PairTimes(c, history, key), from, c.pairWindow, c.pairLimit)
  {
    hide Trace, IncrementWindow, PassedWithin, Within, After;
    if |history| > 0 {
      var n, a := |history| - 1, history[|history| - 1];
      var before := PairTimes(c, history[..n], key);
      PairAllowedPassed(c, history[..n], key, from);
      EntriesAreTraces(c, history[..n], key.0, key);
      TracePush(before, a.time, c.pairWindow);
      WithinPush(before, a.time, from, c.pairWindow, c.pairLimit);
      assert before + [] == before;
    } else {
      NonePassed(from, c.pairWindow, c.pairLimit);
    }
  }

  /** In every run with times that do not go back: any half-open interval of one window length allows at
      most 2 * limit - 1 attempts of one IP, and of one IP and user. */
  lemma LimiterBounds(c: Config, history: seq<Attempt>, ip: string, key: PairKey, from: int)
    requires ConfigOk(c) && !c.disabled && InOrder(history)
    ensures IpAllowed(c, history, ip, from) <= 2 * c.ipLimit - 1
    ensures PairAllowed(c, history, key, from) <= 2 * c.pairLimit - 1
  {
    hide PassedWithin, IpAllowed, PairAllowed, IpTimes, PairTimes;
    var bound := if |history| == 0 then 0 else history[|history| - 1].time;
    IpTimesInOrder(history, ip, bound);
    PairTimesInOrder(c, history, key, bound);
    IpAllowedPassed(c, history, ip, from);
    PairAllowedPassed(c, history, key, from);
    IntervalIsBounded(IpTimes(history, ip), from, c.ipWindow, c.ipLimit);
    IntervalIsBounded(PairTimes(c, history, key), from, c.pairWindow, c.pairLimit);
  }

  // ---------- the bounds are reached ----------

  /** The times of `BoundIsTight`. */
  function TightTimes(window: int, limit: int): seq<int>
    requires limit > 0
  {
    [1] + Copies(limit - 1, window) + Copies(limit, window + 1)
  }

  function Name(k: nat): string {
    seq(k, _ => 'x')
  }

  /** Attempts from one IP, each for a user of its own. */
  function FreshUsers(times: seq<int>, ip: string): seq<Attempt> {
    seq(|times|, i requires 0 <= i < |times| => Attempt(times[i], ip, Name(i)))
  }

  /** Attempts from one IP for one user. */
  function OneUser(times: seq<int>, ip: string, user: string): seq<Attempt> {
    seq(|times|, i requires 0 <= i < |times| => Attempt(times[i], ip, user))
  }

  lemma FirstPassesPair(c: Config, s: State, a: Attempt)
    requires ConfigOk(c) && !c.disabled && (a.ip, a.user) !in s.pairs
    ensures Step(c, s, a).1 == Allowed <==> IncrementWindow(Get(s.ips, a.ip), a.time, c.ipWindow).count <= c.ipLimit
    ensures forall k :: k in Step(c, s, a).0.pairs ==> k in s.pairs || k == (a.ip, a.user)
  {
  }

  lemma FreshUsersPrefix(times: seq<int>, ip: string)
    requires |times| > 0
    ensures var n, h := |times| - 1, FreshUsers(times, ip);
            |h| == |times| && h[..n] == FreshUsers(times[..n], ip) && h[n] == Attempt(times[n], ip, Name(n))
  {
  }

  lemma {:induction false} FreshUsersTimes(c: Config, times: seq<int>, ip: string)
    requires ConfigOk(c) && !c.disabled
    ensures IpTimes(FreshUsers(times, ip), ip) == times
    ensures forall k :: k in After(c, FreshUsers(times, ip)).pairs ==> |k.1| < |times|
  {
    if |times| > 0 {
      hide Step, FreshUsers;
      var n, h := |times| - 1, FreshUsers(times, ip);
      FreshUsersPrefix(times, ip);
      FreshUsersTimes(c, times[..n], ip);
      assert times == times[..n] + [times[n]];
      FirstPassesPair(c, After(c, h[..n]), h[n]);
    }
  }

  lemma {:induction false} FreshUsersPass(c: Config, times: seq<int>, ip: string, from: int)
    requires ConfigOk(c) && !c.disabled
    ensures IpAllowed(c, FreshUsers(times, ip), ip, from) == PassedWithin(times, from, c.ipWindow, c.ipLimit)
  {
    if |times| > 0 {
      hide Trace, IncrementWindow, Within, Step, FreshUsers, After, IpTimes, Name;
      var n, h := |times| - 1, FreshUsers(times, ip);
      FreshUsersPrefix(times, ip);
      FreshUsersPass(c, times[..n], ip, from);
      FreshUsersTimes(c, times[..n], ip);
      assert times == times[..n] + [times[n]];
      EntriesAreTraces(c, h[..n], ip, (ip, ""));
      NameLength(n);
      FirstPassesPair(c, After(c, h[..n]), h[n]);
      TracePush(times[..n], times[n], c.ipWindow);
    }
  }

  lemma NameLength(k: nat)
    ensures |Name(k)| == k
  {
  }

  lemma {:induction false} TraceCountsAttempts(times: seq<int>, window: int)
    ensures Trace(times, window).count <= |times|
  {
    if |times| > 0 {
      TraceCountsAttempts(times[..|times| - 1], window);
    }
  }

  lemma IpPasses(c: Config, s: State, a: Attempt)
    requires !c.disabled && IncrementWindow(Get(s.ips, a.ip), a.time, c.ipWindow).count <= c.ipLimit
    ensures Step(c, s, a).1 != IpLimited
    ensures Step(c, s, a).1 == Allowed <==>
              IncrementWindow(Get(s.pairs, (a.ip, a.user)), a.time, c.pairWindow).count <= c.pairLimit
  {
  }

  lemma OneUserPrefix(times: seq<int>, ip: string, user: string)
    requires |times| > 0
    ensures var n, h := |times| - 1, OneUser(times, ip, user);
            |h| == |times| && h[..n] == OneUser(times[..n], ip, user) && h[n] == Attempt(times[n], ip, user)
  {
  }

  /** Within the IP limit, every attempt reaches the pair's counter. */
  lemma {:induction false} OneUserPasses(c: Config, times: seq<int>, ip: string, user: string)
    requires ConfigOk(c) && !c.disabled && |times| <= c.ipLimit
    ensures IpTimes(OneUser(times, ip, user), ip) == times
    ensures PairTimes(c, OneUser(times, ip, user), (ip, user)) == times
  {
    hide Trace, IncrementWindow, Step, After;
    var h := OneUser(times, ip, user);
    if |times| > 0 {
      var n := |times| - 1;
      OneUserPrefix(times, ip, user);
      OneUserPasses(c, times[..n], ip, user);
      assert times == times[..n] + [times[n]];
      EntriesAreTraces(c, h[..n], ip, (ip, user));
      TracePush(times[..n], times[n], c.ipWindow);
      TraceCountsAttempts(times, c.ipWindow);
      IpPasses(c, After(c, h[..n]), h[n]);
    }
  }

  /** For every configuration whose IP window is at least two, some run allows one IP 2 * limit - 1 attempts
      within one window length. */
  lemma IpBoundIsReached(c: Config, ip: string)
    requires ConfigOk(c) && !c.disabled && c.ipWindow >= 2
    ensures var h := FreshUsers(TightTimes(c.ipWindow, c.ipLimit), ip);
            InOrder(h) && IpAllowed(c, h, ip, 2) == 2 * c.ipLimit - 1
  {
    hide IpAllowed, PassedWithin, IpTimes;
    BoundIsTight(c.ipWindow, c.ipLimit);
    FreshUsersPass(c, TightTimes(c.ipWindow, c.ipLimit), ip, 2);
  }

  /** So for one IP and user, when the IP limit leaves room for the attempts. */
  lemma PairBoundIsReached(c: Config, ip: string, user: string)
    requires ConfigOk(c) && !c.disabled && c.pairWindow >= 2 && 2 * c.pairLimit <= c.ipLimit
    ensures var h := OneUser(TightTimes(c.pairWindow, c.pairLimit), ip, user);
            InOrder(h) && PairAllowed(c, h, (ip, user), 2) == 2 * c.pairLimit - 1
  {
    hide PairAllowed, PassedWithin, IpTimes, PairTimes;
    BoundIsTight(c.pairWindow, c.pairLimit);
    var times := TightTimes(c.pairWindow, c.pairLimit);
    OneUserPasses(c, times, ip, user);
    PairAllowedPassed(c, OneUser(times, ip, user), (ip, user), 2);
  }

  // ---------- the limiter with its sweep ----------

  predicate IsSpace(ch: char) {
    ch == ' ' || '\t' <= ch <= '\r'
  }

  function TrimLeft(s: string): string {
    if |s| > 0 && IsSpace(s[0]) then TrimLeft(s[1..]) else s
  }

  function TrimRight(s: string): string {
    if |s| > 0 && IsSpace(s[|s| - 1]) then TrimRight(s[..|s| - 1]) else s
  }

  /** Trimmed and in lower case, over ASCII. */
  function NormalizeUsername(s: string): string {
    var t := TrimLeft(TrimRight(s));
    seq(|t|, i requires 0 <= i < |t| => if 'A' <= t[i] <= 'Z' then t[i] - 'A' + 'a' else t[i])
  }

  predicate AllSpace(s: string) {
    forall i :: 0 <= i < |s| ==> IsSpace(s[i])
  }

  lemma {:induction false} TrimLeftFrom(s: string) returns (k: nat)
    ensures k <= |s| && TrimLeft(s) == s[k..] && AllSpace(s[..k]) && (k < |s| ==> !IsSpace(s[k]))
  {
    hide IsSpace;
    k := 0;
    if |s| > 0 && IsSpace(s[0]) {
      var rest := TrimLeftFrom(s[1..]);
      k := rest + 1;
      assert s[1..][rest..] == s[k..] && s[..k] == [s[0]] + s[1..][..rest];
    }
  }

  lemma {:induction false} TrimRightTo(s: string) returns (k: nat)
    ensures k <= |s| && TrimRight(s) == s[..k] && AllSpace(s[k..]) && (k > 0 ==> !IsSpace(s[k - 1]))
  {
    hide IsSpace;
    k := |s|;
    if |s| > 0 && IsSpace(s[|s| - 1]) {
      var n := |s| - 1;
      k := TrimRightTo(s[..n]);
      assert s[..n][..k] == s[..k] && s[k..] == s[..n][k..] + [s[n]];
    }
  }

  /** The normalised name is the name without spaces around it, each capital letter made small. */
  lemma NormalizedParts(s: string) returns (a: string, m: string, b: string)
    ensures s == a + m + b && AllSpace(a) && AllSpace(b)
    ensures m != "" ==> !IsSpace(m[0]) && !IsSpace(m[|m| - 1])
    ensures |NormalizeUsername(s)| == |m|
    ensures forall i :: 0 <= i < |m| ==>
              NormalizeUsername(s)[i] == if 'A' <= m[i] <= 'Z' then m[i] + 32 as char else m[i]
  {
    hide TrimLeft, TrimRight, AllSpace, IsSpace;
    var end := TrimRightTo(s);
    var from := TrimLeftFrom(s[..end]);
    assert s[..end][..from] == s[..from] && s[..end][from..] == s[from..end];
    a, m, b := s[..from], s[from..end], s[end..];
  }

  /** The names people may type for one account: other case, other spaces around. */
  predicate SameSpelling(s: string, t: string) {
    |s| == |t| && forall i :: 0 <= i < |s| ==>
      || s[i] == t[i]
      || ('A' <= s[i] <= 'Z' && t[i] == s[i] + 32 as char)
      || ('A' <= t[i] <= 'Z' && s[i] == t[i] + 32 as char)
  }

  /** From `from` up to `to` lies what is left when the spaces around `s` go. */
  predicate Core(s: string, from: nat, to: nat) {
    && from <= to <= |s|
    && (forall i :: 0 <= i < |s| && (i < from || to <= i) ==> IsSpace(s[i]))
    && (from < to ==> !IsSpace(s[from]) && !IsSpace(s[to - 1]))
  }

  lemma CoreOf(a: string, m: string, b: string)
    requires AllSpace(a) && AllSpace(b) && (m != "" ==> !IsSpace(m[0]) && !IsSpace(m[|m| - 1]))
    ensures Core(a + m + b, |a|, |a| + |m|) && (a + m + b)[|a|..|a| + |m|] == m
  {
    hide IsSpace;
    var s := a + m + b;
    assert forall i :: 0 <= i < |a| ==> s[i] == a[i];
    assert forall i :: |a| + |m| <= i < |s| ==> s[i] == b[i - |a| - |m|];
    assert m != "" ==> s[|a|] == m[0] && s[|a| + |m| - 1] == m[|m| - 1];
  }

  lemma SpellingKeepsSpaces(s: string, t: string)
    requires SameSpelling(s, t)
    ensures |s| == |t| && forall i :: 0 <= i < |s| ==> (IsSpace(s[i]) <==> IsSpace(t[i]))
  {
  }

  /** Texts that agree up to case have their cores in the same place. */
  lemma SameCore(s: string, t: string, from: nat, to: nat, other: nat, end: nat)
    requires SameSpelling(s, t) && Core(s, from, to) && Core(t, other, end)
    ensures from < to || other < end ==> from == other && to == end
  {
    SpellingKeepsSpaces(s, t);
    hide IsSpace, SameSpelling;
  }

  /** What is between the spaces is determined by the text. */
  lemma SameParts(a: string, m: string, b: string, c: string, n: string, d: string)
    requires AllSpace(a) && AllSpace(b) && AllSpace(c) && AllSpace(d) && SameSpelling(a + m + b, c + n + d)
    requires m != "" ==> !IsSpace(m[0]) && !IsSpace(m[|m| - 1])
    requires n != "" ==> !IsSpace(n[0]) && !IsSpace(n[|n| - 1])
    ensures SameSpelling(m, n)
  {
    var s, t := a + m + b, c + n + d;
    CoreOf(a, m, b);
    CoreOf(c, n, d);
    SameCore(s, t, |a|, |a| + |m|, |c|, |c| + |n|);
    hide AllSpace, IsSpace, Core;
    assert forall i :: 0 <= i < |m| ==> m[i] == s[|a| + i];
    assert forall i :: 0 <= i < |n| ==> n[i] == t[|c| + i];
  }

  /** Neither case nor spaces around a name lead to another counter. */
  lemma SpellingDoesNotMatter(s: string, t: string, a: string, b: string)
    requires SameSpelling(s, t) && AllSpace(a) && AllSpace(b)
    ensures NormalizeUsername(a + s + b) == NormalizeUsername(t)
  {
    hide NormalizeUsername;
    var a1, m, b1 := NormalizedParts(a + s + b);
    var c, n, d := NormalizedParts(t);
    var w := a + t + b;
    assert w == (a + c) + n + (d + b) && SameSpelling(a + s + b, w);
    SameParts(a1, m, b1, a + c, n, d + b);
    assert NormalizeUsername(a + s + b) == NormalizeUsername(t);
  }

  /** What the sweeping limiter still holds: an entry is there unchanged, or it has expired. */
  ghost predicate Covers<K(!new)>(m: map<K, Entry>, full: map<K, Entry>, now: int, window: int) {
    && (forall k :: k in m ==> k in full && full[k] == m[k])
    && (forall k :: k in full && k !in m ==> Expired(full[k], now, window))
  }

  /** One map of `cleanupLocked`. */
  method Cleanup<K(!new, ==)>(m: map<K, Entry>, now: int, window: int, ghost full: map<K, Entry>)
    returns (kept: map<K, Entry>)
    requires Covers(m, full, now, window)
    ensures Covers(kept, full, now, window)
    ensures forall k :: k in kept <==> k in m && !Expired(m[k], now, window)
    ensures forall k :: k in kept ==> kept[k] == m[k]
  {
    kept := m;
    var left := m.Keys;
    while left != {}
      invariant left <= m.Keys && Covers(kept, full, now, window)
      invariant forall k :: k in kept <==> k in m && (k in left || !Expired(m[k], now, window))
      invariant forall k :: k in kept ==> kept[k] == m[k]
      decreases left
    {
      var k :| k in left;
      if now - kept[k].start >= window {
        kept := kept - {k};
      }
      left := left - {k};
    }
  }

  lemma LaterCovers<K(!new)>(m: map<K, Entry>, full: map<K, Entry>, before: int, now: int, window: int)
    requires Covers(m, full, before, window) && before <= now
    ensures Covers(m, full, now, window)
  {
  }

  /** An entry that was swept counts on exactly as if it were still there. */
  lemma IncrementAgrees<K(!new)>(m: map<K, Entry>, full: map<K, Entry>, now: int, window: int, k: K)
    requires Covers(m, full, now, window) && now > 0
    ensures IncrementWindow(Get(m, k), now, window) == IncrementWindow(Get(full, k), now, window)
    ensures var e := IncrementWindow(Get(m, k), now, window); Covers(m[k := e], full[k := e], now, window)
  {
  }

  class LoginProtector {
    const config: Config
    var ips: map<string, Entry>
    var pairs: map<PairKey, Entry>
    var nextGC: int
    ghost var history: seq<Attempt>

    ghost function Now(): int
      reads `history
    {
      if |history| == 0 then 0 else history[|history| - 1].time
    }

    ghost predicate Valid()
      reads this
    {
      && ConfigOk(config) && InOrder(history)
      && Covers(ips, After(config, history).ips, Now(), config.ipWindow)
      && Covers(pairs, After(config, history).pairs, Now(), config.pairWindow)
    }

    constructor (config: Config)
      requires ConfigOk(config)
      ensures Valid() && history == [] && this.config == config
    {
      this.config := config;
      ips, pairs, nextGC, history := map[], map[], 0, [];
    }

    /** `cleanupLocked`, when it is due. */
    method Sweep(now: int, ghost full: State)
      requires ConfigOk(config)
      requires Covers(ips, full.ips, now, config.ipWindow) && Covers(pairs, full.pairs, now, config.pairWindow)
      modifies `ips, `pairs, `nextGC
      ensures Covers(ips, full.ips, now, config.ipWindow) && Covers(pairs, full.pairs, now, config.pairWindow)
      ensures if old(nextGC) == 0 || now >= old(nextGC)
              then (forall k :: k in ips <==> k in old(ips) && now - old(ips)[k].start < config.ipWindow)
                && (forall k :: k in pairs <==> k in old(pairs) && now - old(pairs)[k].start < config.pairWindow)
                && now < nextGC <= now + config.ipWindow && nextGC <= now + config.pairWindow
              else ips == old(ips) && pairs == old(pairs) && nextGC == old(nextGC)
    {
      if nextGC == 0 || now >= nextGC {
        ips := Cleanup(ips, now, config.ipWindow, full.ips);
        pairs := Cleanup(pairs, now, config.pairWindow, full.pairs);
        nextGC := now + (if config.ipWindow < config.pairWindow then config.ipWindow else config.pairWindow);
      }
    }

    /** The counting part of `Allow`, for any contents the sweep may have left. */
    method Count(now: int, ip: string, user: string, ghost full: State) returns (verdict: Verdict)
      requires now > 0 && !config.disabled
      requires Covers(ips, full.ips, now, config.ipWindow) && Covers(pairs, full.pairs, now, config.pairWindow)
      modifies `ips, `pairs
      ensures var next := Step(config, full, Attempt(now, ip, user));
              && verdict == next.1 && Covers(ips, next.0.ips, now, config.ipWindow)
              && Covers(pairs, next.0.pairs, now, config.pairWindow)
    {
      hide Covers, IncrementWindow, Get;
      var ipState := IncrementWindow(Get(ips, ip), now, config.ipWindow);
      IncrementAgrees(ips, full.ips, now, config.ipWindow, ip);
      ips := ips[ip := ipState];
      if ipState.count > config.ipLimit {
        return IpLimited;
      }
      var pairKey := (ip, user);
      var pairState := IncrementWindow(Get(pairs, pairKey), now, config.pairWindow);
      IncrementAgrees(pairs, full.pairs, now, config.pairWindow, pairKey);
      pairs := pairs[pairKey := pairState];
      if pairState.count > config.pairLimit {
        return PairLimited;
      }
      return Allowed;
    }

    /** Answers as the limiter that never deletes. */
    method Allow(now: int, ip: string, username: string) returns (verdict: Verdict)
      requires Valid() && now > 0 && Now() <= now
      modifies this
      ensures Valid() && history == old(history) + [Attempt(now, ip, NormalizeUsername(username))]
      ensures verdict == Last(config, history)
    {
      hide Covers, IncrementWindow, NormalizeUsername, InOrder, After, Last;
      var user := NormalizeUsername(username);
      ghost var full, a := After(config, history), Attempt(now, ip, user);
      LaterCovers(ips, full.ips, Now(), now, config.ipWindow);
      LaterCovers(pairs, full.pairs, Now(), now, config.pairWindow);
      PushAttempt(config, history, a);
      history := history + [a];
      if config.disabled {
        return Allowed;
      }
      Sweep(now, full);
      verdict := Count(now, ip, user, full);
    }
  }

  lemma PushAttempt(c: Config, history: seq<Attempt>, a: Attempt)
    requires InOrder(history) && a.time > 0 && (|history| > 0 ==> history[|history| - 1].time <= a.time)
    ensures InOrder(history + [a])
    ensures (After(c, history + [a]), Last(c, history + [a])) == Step(c, After(c, history), a)
  {
    assert (history + [a])[..|history|] == history;
  }
}
