/** Cursor pagination over the message history of one room, newest page first. The two repositories
    build different filters; both are shown to select the rows below the cursor in one total order.
    A walk that follows `next_cursor` reads each page from a later snapshot of the table. */
module History {
  import opened Envelopes

  /** A message row of the room. `number` is its room sequence, `None` for old messages that were never numbered. */
  datatype Msg = Msg(id: int, number: Option<int>)

  /** The room's rows, including soft-deleted ones, which stay in the table. */
  datatype RoomTable = RoomTable(rows: set<Msg>, deleted: set<Msg>)

  function Rank(m: Msg): int {
    if m.number.Some? then m.number.value else 0
  }

  /** `ORDER BY room_seq DESC, id DESC`; unnumbered rows come last. */
  predicate Above(a: Msg, b: Msg) {
    Rank(a) > Rank(b) || (Rank(a) == Rank(b) && a.id > b.id)
  }

  predicate WellFormed(t: RoomTable) {
    && (forall m :: m in t.rows ==> m.id > 0 && (m.number.Some? ==> m.number.value > 0))
    && (forall a, b :: a in t.rows && b in t.rows && a.id == b.id ==> a == b)
  }

  // ---------- the two filters ----------

  ghost predicate Found(t: RoomTable, cursor: int) {
    exists c :: c in t.rows && c.id == cursor
  }

  /** The cursor row, looked up without regard to soft deletion. */
  ghost function CursorRow(t: RoomTable, cursor: int): (c: Msg)
    requires Found(t, cursor)
    ensures c in t.rows && c.id == cursor
  {
    var c :| c in t.rows && c.id == cursor; c
  }

  /** The MySQL `WHERE` clause; a comparison with NULL is not true. */
  ghost predicate MysqlFilter(t: RoomTable, cursor: int, m: Msg) {
    cursor > 0 ==>
      if Found(t, cursor) then
        var at := CursorRow(t, cursor).number;
        if at.Some? && at.value > 0 then
          || (m.number.Some? && m.number.value < at.value)
          || m.number.None?
          || (m.number.Some? && m.number.value == at.value && m.id < cursor)
        else
          (m.number.None? || m.number.value == 0) && m.id < cursor
      else m.id < cursor
  }

  /** The MongoDB filter; a comparison with a missing field does not match. */
  ghost predicate MongoFilter(t: RoomTable, cursor: int, m: Msg) {
    cursor > 0 ==>
      if Found(t, cursor) then
        var at := Rank(CursorRow(t, cursor));
        || (m.number.Some? && m.number.value < at)
        || (m.number.Some? && m.number.value == at && m.id < cursor)
        || (if at > 0 then m.number.None? else m.number.None? && m.id < cursor)
      else m.id < cursor
  }

  /** Both filters select the rows below the cursor row in the page order; below the cursor's id if there
      is no such row, and everything without a cursor. */
  lemma FiltersAgree(t: RoomTable, cursor: int, m: Msg)
    requires WellFormed(t) && m in t.rows
    ensures MysqlFilter(t, cursor, m) <==> MongoFilter(t, cursor, m)
    ensures cursor > 0 && Found(t, cursor) ==>
              (MysqlFilter(t, cursor, m) <==> Above(CursorRow(t, cursor), m))
    ensures cursor > 0 && !Found(t, cursor) ==> (MysqlFilter(t, cursor, m) <==> m.id < cursor)
    ensures cursor <= 0 ==> MysqlFilter(t, cursor, m)
  {
    if cursor > 0 && Found(t, cursor) {
      assert CursorRow(t, cursor) in t.rows;
    }
  }

  // ---------- one page ----------

  /** What the query may return before `LIMIT`. */
  ghost function Candidates(t: RoomTable, cursor: int): set<Msg> {
    set m | m in t.rows && m !in t.deleted && MysqlFilter(t, cursor, m)
  }

  predicate StrictlyDown(s: seq<Msg>) {
    forall i, j :: 0 <= i < j < |s| ==> Above(s[i], s[j])
  }

  predicate IsTop(m: Msg, s: set<Msg>) {
    m in s && forall x :: x in s && x != m ==> Above(m, x)
  }

  /** No two rows share a place in the order. */
  predicate Ordered(s: set<Msg>) {
    forall a, b :: a in s && b in s && a.id == b.id ==> a == b
  }

  lemma {:induction false} TopExists(s: set<Msg>)
    requires s != {} && Ordered(s)
    ensures exists m :: IsTop(m, s)
  {
    var x :| x in s;
    if s == {x} {
      assert IsTop(x, s);
    } else {
      var rest := s - {x};
      TopExists(rest);
      var m :| IsTop(m, rest);
      if Above(m, x) {
        assert IsTop(m, s);
      } else {
        assert x.id != m.id && Above(x, m);
        assert forall y :: y in s && y != x ==> y == m || (y in rest && Above(m, y));
        assert IsTop(x, s);
      }
    }
  }

  /** The rows of `s` in page order. */
  ghost function SortDown(s: set<Msg>): (r: seq<Msg>)
    requires Ordered(s)
    ensures |r| == |s| && StrictlyDown(r) && (forall m :: m in r <==> m in s)
  {
    if s == {} then []
    else
      TopExists(s);
      var m :| IsTop(m, s);
      [m] + SortDown(s - {m})
  }

  /** `ORDER BY ... LIMIT`: at most `limit` candidates, newest first. */
  ghost function Page(t: RoomTable, cursor: int, limit: nat): (page: seq<Msg>)
    requires WellFormed(t)
    ensures |page| <= limit && StrictlyDown(page)
    ensures forall m :: m in page ==> m in Candidates(t, cursor)
    ensures |page| < limit ==> forall m :: m in Candidates(t, cursor) ==> m in page
  {
    var sorted := SortDown(Candidates(t, cursor));
    if |sorted| <= limit then sorted else sorted[..limit]
  }

  /** What a full page leaves out lies below its last row. */
  lemma LeftOutIsBelow(t: RoomTable, cursor: int, limit: nat, m: Msg)
    requires WellFormed(t) && limit > 0 && m in Candidates(t, cursor)
    ensures var page := Page(t, cursor, limit);
            m in page || (|page| == limit && Above(page[limit - 1], m))
  {
    var sorted := SortDown(Candidates(t, cursor));
    if |sorted| > limit && m !in sorted[..limit] {
      var i :| 0 <= i < |sorted| && sorted[i] == m;
      assert forall k :: 0 <= k < limit ==> sorted[..limit][k] == sorted[k];
    }
  }

  // ---------- the request handler ----------

  function ClampLimit(requested: int): (limit: nat)
    ensures 1 <= limit <= 100
    ensures 1 <= requested <= 100 ==> limit == requested
    ensures requested <= 0 ==> limit == 50
    ensures requested > 100 ==> limit == 100
  {
    if requested > 100 then 100 else if requested <= 0 then 50 else requested
  }

  function Reversed(s: seq<Msg>): seq<Msg> {
    if |s| == 0 then [] else Reversed(s[1..]) + [s[0]]
  }

  lemma {:induction false} ReversedAt(s: seq<Msg>)
    ensures |Reversed(s)| == |s|
    ensures forall k :: 0 <= k < |s| ==> Reversed(s)[k] == s[|s| - 1 - k]
  {
    if |s| > 0 {
      ReversedAt(s[1..]);
    }
  }

  /** The repositories' in-place turn from newest-first to oldest-first. */
  method ReverseInPlace(a: array<Msg>)
    modifies a
    ensures a[..] == Reversed(old(a[..]))
  {
    var i, j := 0, a.Length - 1;
    ghost var n := a.Length;
    while i < j
      invariant 0 <= i <= n && j == n - 1 - i
      invariant forall k :: 0 <= k < i && k <= n - 1 - k ==> a[k] == old(a[n - 1 - k]) && a[n - 1 - k] == old(a[k])
      invariant forall k :: i <= k < n - i ==> a[k] == old(a[k])
      invariant i <= n - i || n == 0
    {
      a[i], a[j] := a[j], a[i];
      i, j := i + 1, j - 1;
    }
    ReversedAt(old(a[..]));
    assert forall k :: 0 <= k < n ==> a[k] == old(a[..])[n - 1 - k];
  }

  /** The handler around a repository page: oldest message first, the cursor for the next request and
      whether to make one. The cursor is the last row of the page in page order. */
  method GetChatHistory(ghost t: RoomTable, ghost cursor: int, requested: int, found: seq<Msg>)
    returns (messages: seq<Msg>, nextCursor: int, hasMore: bool)
    requires WellFormed(t) && found == Page(t, cursor, ClampLimit(requested))
    ensures messages == Reversed(found)
    ensures hasMore <==> |found| == ClampLimit(requested)
    ensures |found| == 0 ==> nextCursor == 0
    ensures |found| > 0 ==> nextCursor == found[|found| - 1].id
  {
    var limit := requested;
    if limit > 100 {
      limit := 100;
    } else if limit <= 0 {
      limit := 50;
    }
    var rows := new Msg[|found|](i requires 0 <= i < |found| => found[i]);
    assert rows[..] == found;
    ReverseInPlace(rows);
    ReversedAt(found);
    messages := rows[..];
    nextCursor := 0;
    if |messages| > 0 {
      nextCursor := messages[0].id;
    }
    hasMore := |messages| == limit;
  }

  // ---------- a walk over a changing table ----------

  /** Between two pages rows may be soft-deleted and newer messages appended; nothing is renumbered. */
  predicate Evolves(a: RoomTable, b: RoomTable) {
    && a.rows <= b.rows && a.deleted <= b.deleted
    && forall m, x :: m in b.rows - a.rows && x in a.rows ==> Above(m, x)
  }

  predicate History(snaps: seq<RoomTable>) {
    && (forall i :: 0 <= i < |snaps| ==> WellFormed(snaps[i]))
    && (forall i, j :: 0 <= i <= j < |snaps| ==> Evolves(snaps[i], snaps[j]))
  }

  /** The pages of a client that follows the cursor until `has_more` is false; page `i` reads snapshot `i`. */
  ghost function Walk(snaps: seq<RoomTable>, cursor: int, limit: nat): (pages: seq<seq<Msg>>)
    requires limit > 0 && History(snaps)
    ensures |pages| <= |snaps|
  {
    if |snaps| == 0 then []
    else
      var page := Page(snaps[0], cursor, limit);
      if |page| < limit then [page] else [page] + Walk(snaps[1..], page[limit - 1].id, limit)
  }

  function Flatten(pages: seq<seq<Msg>>): seq<Msg> {
    if |pages| == 0 then [] else pages[0] + Flatten(pages[1..])
  }

  /** The rows a walk that stands at `cursor` has not passed yet. */
  ghost function Ahead(base: set<Msg>, cursor: Option<Msg>): set<Msg> {
    set m | m in base && (cursor.Some? ==> Above(cursor.value, m))
  }

  function CursorId(cursor: Option<Msg>): int {
    if cursor.Some? then cursor.value.id else 0
  }

  /** `base` holds every row the walk can still meet. */
  ghost predicate Started(snaps: seq<RoomTable>, base: set<Msg>, cursor: Option<Msg>) {
    && |snaps| > 0 && History(snaps) && base <= snaps[0].rows
    && (cursor.Some? ==> cursor.value in base)
    && (cursor.None? ==> base == snaps[0].rows)
    && forall m, x :: m in snaps[0].rows - base && x in base ==> Above(m, x)
  }

  lemma CandidatesAreAhead(snaps: seq<RoomTable>, base: set<Msg>, cursor: Option<Msg>)
    requires Started(snaps, base, cursor)
    ensures Candidates(snaps[0], CursorId(cursor)) == Ahead(base, cursor) - snaps[0].deleted
  {
    var t := snaps[0];
    if cursor.Some? {
      assert cursor.value in t.rows && Found(t, CursorId(cursor));
      assert CursorRow(t, CursorId(cursor)) == cursor.value;
    }
    forall m | m in t.rows
      ensures MysqlFilter(t, CursorId(cursor), m) <==> (cursor.Some? ==> Above(cursor.value, m))
    {
      FiltersAgree(t, CursorId(cursor), m);
    }
    forall m | m in Candidates(t, CursorId(cursor)) ensures m in base {
      assert cursor.Some? ==> m in base || Above(m, cursor.value);
    }
  }

  lemma NextStarted(snaps: seq<RoomTable>, base: set<Msg>, cursor: Option<Msg>, last: Msg)
    requires Started(snaps, base, cursor) && |snaps| > 1 && last in base
    ensures Started(snaps[1..], base, Some(last))
  {
    var later := snaps[1..];
    assert forall i :: 0 <= i < |later| ==> later[i] == snaps[i + 1];
    assert Evolves(snaps[0], snaps[1]);
    forall m, x | m in later[0].rows - base && x in base ensures Above(m, x) {
      if m in snaps[0].rows {
        assert m in snaps[0].rows - base;
      } else {
        assert m in snaps[1].rows - snaps[0].rows && x in snaps[0].rows;
      }
    }
  }

  /** `has_more` was false on the last page read. */
  predicate Ended(pages: seq<seq<Msg>>, limit: nat) {
    |pages| > 0 && |pages[|pages| - 1]| < limit
  }

  /** Rows never deleted in the snapshots the walk read are delivered. */
  ghost predicate Delivers(snaps: seq<RoomTable>, pages: seq<seq<Msg>>, rows: set<Msg>)
    requires 0 < |pages| <= |snaps|
  {
    forall m :: m in rows && m !in snaps[|pages| - 1].deleted ==> m in Flatten(pages)
  }

  /** No page holds a row that was deleted when it was read. */
  ghost predicate NoDeleted(snaps: seq<RoomTable>, pages: seq<seq<Msg>>) {
    |pages| <= |snaps| && forall i, m :: 0 <= i < |pages| && m in pages[i] ==> m !in snaps[i].deleted
  }

  lemma NoDeletedMore(snaps: seq<RoomTable>, page: seq<Msg>, rest: seq<seq<Msg>>)
    requires |snaps| > 0 && NoDeleted(snaps[1..], rest) && forall m :: m in page ==> m !in snaps[0].deleted
    ensures NoDeleted(snaps, [page] + rest)
  {
    var pages := [page] + rest;
    forall i, m | 0 <= i < |pages| && m in pages[i] ensures m !in snaps[i].deleted {
      assert i > 0 ==> m in rest[i - 1];
    }
  }

  lemma DivideStep(n: nat, limit: nat, rest: nat)
    requires limit > 0 && rest + limit <= n
    ensures rest / limit + 1 <= n / limit
  {
    var q := rest / limit;
    assert rest == q * limit + rest % limit;
    assert (q + 1) * limit == q * limit + limit <= n;
    QuotientAtLeast(n, limit, q + 1);
  }

  lemma QuotientAtLeast(n: nat, limit: nat, q: nat)
    requires limit > 0 && q * limit <= n
    ensures q <= n / limit
  {
    var r := n / limit;
    assert r * limit + limit > n;
    if r < q {
      MultiplyKeepsOrder(r + 1, q, limit);
    }
  }

  lemma MultiplyKeepsOrder(a: nat, b: nat, c: nat)
    requires a <= b
    ensures a * c <= b * c
  {
  }

  /** A full page takes `limit` rows off what lies ahead. */
  lemma PageShrinksAhead(base: set<Msg>, cursor: Option<Msg>, page: seq<Msg>)
    requires |page| > 0 && StrictlyDown(page) && forall m :: m in page ==> m in Ahead(base, cursor)
    ensures |Ahead(base, Some(page[|page| - 1]))| + |page| <= |Ahead(base, cursor)|
  {
    var last := page[|page| - 1];
    var taken := set m | m in page;
    DistinctSize(page);
    assert forall m :: m in taken ==> m == last || Above(m, last);
    assert taken !! Ahead(base, Some(last));
    forall m | m in Ahead(base, Some(last)) ensures m in Ahead(base, cursor) {
      assert last in Ahead(base, cursor);
    }
    SubsetSize(taken + Ahead(base, Some(last)), Ahead(base, cursor));
  }

  lemma {:induction false} DistinctSize(s: seq<Msg>)
    requires StrictlyDown(s)
    ensures |set m | m in s| == |s|
  {
    if |s| > 0 {
      var head, last := s[..|s| - 1], s[|s| - 1];
      DistinctSize(head);
      assert (set m | m in s) == (set m | m in head) + {last};
      assert last !in head;
    }
  }

  lemma {:induction false} SubsetSize<T>(a: set<T>, b: set<T>)
    requires a <= b
    ensures |a| <= |b|
  {
    if x :| x in a {
      SubsetSize(a - {x}, b - {x});
    }
  }

  lemma {:induction false} WalkFrom(snaps: seq<RoomTable>, base: set<Msg>, cursor: Option<Msg>, limit: nat)
    requires Started(snaps, base, cursor) && limit > 0
    ensures var pages := Walk(snaps, CursorId(cursor), limit);
            && |pages| > 0
            && StrictlyDown(Flatten(pages)) && (forall m :: m in Flatten(pages) ==> m in Ahead(base, cursor))
            && NoDeleted(snaps, pages)
            && (|snaps| > |Ahead(base, cursor)| / limit ==> Ended(pages, limit))
            && (Ended(pages, limit) ==> Delivers(snaps, pages, Ahead(base, cursor)))
    decreases |snaps|
  {
    hide MysqlFilter, Page, Above, Candidates, StrictlyDown;
    CandidatesAreAhead(snaps, base, cursor);
    var t := snaps[0];
    var page := Page(t, CursorId(cursor), limit);
    var pages := Walk(snaps, CursorId(cursor), limit);
    if |page| < limit {
      assert pages[1..] == [] && Flatten(pages) == page;
    } else {
      var last := page[limit - 1];
      assert last in page && last in Ahead(base, cursor);
      PageShrinksAhead(base, cursor, page);
      DivideStep(|Ahead(base, cursor)|, limit, |Ahead(base, Some(last))|);
      if |snaps| == 1 {
        assert pages[1..] == [] && Flatten(pages) == page;
      } else {
        NextStarted(snaps, base, cursor, last);
        WalkFrom(snaps[1..], base, Some(last), limit);
        var rest := Walk(snaps[1..], last.id, limit);
        assert pages == [page] + rest;
        NoDeletedMore(snaps, page, rest);
        JoinPages(snaps, base, cursor, limit, rest);
        if Ended(pages, limit) {
          JoinDelivers(snaps, base, cursor, limit, rest);
        }
      }
    }
  }

  /** A full page and the pages after it, in order. */
  lemma JoinPages(snaps: seq<RoomTable>, base: set<Msg>, cursor: Option<Msg>, limit: nat, rest: seq<seq<Msg>>)
    requires Started(snaps, base, cursor) && limit > 0 && |snaps| > 1
    requires var page := Page(snaps[0], CursorId(cursor), limit);
             && |page| == limit && 0 < |rest| < |snaps|
             && StrictlyDown(Flatten(rest))
             && (forall m :: m in Flatten(rest) ==> m in Ahead(base, Some(page[limit - 1])))
    ensures var all := Flatten([Page(snaps[0], CursorId(cursor), limit)] + rest);
            StrictlyDown(all) && forall m :: m in all ==> m in Ahead(base, cursor)
  {
    hide MysqlFilter, Page, Candidates, StrictlyDown;
    var page := Page(snaps[0], CursorId(cursor), limit);
    var last := page[limit - 1];
    var pages := [page] + rest;
    assert pages[1..] == rest && Flatten(pages) == page + Flatten(rest);
    CandidatesAreAhead(snaps, base, cursor);
    assert last in page && last in Ahead(base, cursor);
    JoinDown(page, Flatten(rest));
    forall m | m in Flatten(rest) ensures m in Ahead(base, cursor) {
      assert Above(last, m);
    }
  }

  lemma JoinDown(page: seq<Msg>, tail: seq<Msg>)
    requires |page| > 0 && StrictlyDown(page) && StrictlyDown(tail)
    requires forall m :: m in tail ==> Above(page[|page| - 1], m)
    ensures StrictlyDown(page + tail)
  {
    var all, n := page + tail, |page|;
    forall i, j | 0 <= i < j < |all| ensures Above(all[i], all[j]) {
      if i < n <= j {
        assert all[j] in tail && Above(page[n - 1], all[j]);
        assert i == n - 1 || Above(page[i], page[n - 1]);
      }
    }
  }

  lemma JoinDelivers(snaps: seq<RoomTable>, base: set<Msg>, cursor: Option<Msg>, limit: nat, rest: seq<seq<Msg>>)
    requires Started(snaps, base, cursor) && limit > 0 && |snaps| > 1
    requires var page := Page(snaps[0], CursorId(cursor), limit);
             && |page| == limit && 0 < |rest| < |snaps|
             && Delivers(snaps[1..], rest, Ahead(base, Some(page[limit - 1])))
    ensures Delivers(snaps, [Page(snaps[0], CursorId(cursor), limit)] + rest, Ahead(base, cursor))
  {
    hide MysqlFilter, Page, Above;
    var page := Page(snaps[0], CursorId(cursor), limit);
    var pages := [page] + rest;
    assert pages[1..] == rest && Flatten(pages) == page + Flatten(rest);
    CandidatesAreAhead(snaps, base, cursor);
    assert snaps[1..][|rest| - 1] == snaps[|pages| - 1];
    assert Evolves(snaps[0], snaps[|pages| - 1]);
    forall m | m in Ahead(base, cursor) && m !in snaps[|pages| - 1].deleted ensures m in Flatten(pages) {
      LeftOutIsBelow(snaps[0], CursorId(cursor), limit, m);
    }
  }

  /** A client that follows the cursor to the end gets every message that was there at the start and is
      not deleted meanwhile, exactly once, newest first across all pages, and nothing else, nothing
      deleted when its page was read included; it needs at most one page more than the full ones. */
  lemma WalkDeliversHistory(snaps: seq<RoomTable>, requested: int)
    requires |snaps| > 0 && History(snaps)
    ensures var limit := ClampLimit(requested);
            var pages := Walk(snaps, 0, limit);
            && |pages| > 0
            && StrictlyDown(Flatten(pages))
            && (forall m :: m in Flatten(pages) ==> m in snaps[0].rows)
            && NoDeleted(snaps, pages)
            && (|snaps| > |snaps[0].rows| / limit ==> Ended(pages, limit))
            && (Ended(pages, limit) ==> Delivers(snaps, pages, snaps[0].rows))
  {
    WalkFrom(snaps, snaps[0].rows, None, ClampLimit(requested));
    assert Ahead(snaps[0].rows, None) == snaps[0].rows;
  }
}
