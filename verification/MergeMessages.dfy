/** The browser's merge of history pages, live copies and replays into one ordered view. Messages are
    plain objects; each has up to three aliases, and a table of aliases finds the entry to fold a copy
    into. For fully keyed messages the view does not depend on how the copies arrived. */
module MergeMessages {
  import opened Envelopes

  datatype Value = Null | Num(n: int) | Str(s: string)

  /** A decoded JSON object; identifiers are decoded to exact integers. */
  type Object = map<string, Value>

  datatype Alias =
    | ById(room: Value, id: int)
    | BySeq(room: Value, number: int)
    | ByClient(room: Value, sender: Value, client: string)

  function Field(m: Object, name: string): Value {
    if name in m then m[name] else Null
  }

  /** `integer`: anything that is not an integer counts as zero. */
  function Integer(v: Value): int {
    if v.Num? then v.n else 0
  }

  function Id(m: Object): int { Integer(Field(m, "id")) }

  function Number(m: Object): int { Integer(Field(m, "room_seq")) }

  function Sender(m: Object): Value {
    if Field(m, "sender_id") != Null then Field(m, "sender_id") else Field(m, "user_id")
  }

  predicate HasClient(m: Object) {
    Field(m, "client_msg_id").Str? && Field(m, "client_msg_id").s != ""
  }

  /** `keys`: the aliases of a message, the strongest first. */
  function Keys(m: Object): seq<Alias> {
    var room := Field(m, "room_id");
    (if Id(m) > 0 then [ById(room, Id(m))] else [])
    + (if Number(m) > 0 then [BySeq(room, Number(m))] else [])
    + (if HasClient(m) then [ByClient(room, Sender(m), Field(m, "client_msg_id").s)] else [])
  }

  // ---------- the merge ----------

  datatype State = State(result: seq<Object>, positions: map<Alias, nat>)

  predicate StateOk(s: State) {
    forall a :: a in s.positions ==> s.positions[a] < |s.result|
  }

  function Find(aliases: seq<Alias>, positions: map<Alias, nat>): (found: Option<nat>)
  {
    if |aliases| == 0 then None
    else if aliases[0] in positions then Some(positions[aliases[0]])
    else Find(aliases[1..], positions)
  }

  function Record(aliases: seq<Alias>, positions: map<Alias, nat>, index: nat): map<Alias, nat> {
    if |aliases| == 0 then positions
    else Record(aliases[..|aliases| - 1], positions, index)[aliases[|aliases| - 1] := index]
  }

  /** One message: folded into the entry of its first known alias, the entry's own fields winning. */
  function Step(s: State, m: Object): State
    requires StateOk(s)
  {
    match Find(Keys(m), s.positions)
    case None => State(s.result + [m], Record(Keys(m), s.positions, |s.result|))
    case Some(i) =>
      FindInRange(Keys(m), s);
      State(s.result[i := m + s.result[i]], Record(Keys(m), s.positions, i))
  }

  lemma {:induction false} FindInRange(aliases: seq<Alias>, s: State)
    requires StateOk(s)
    ensures var f := Find(aliases, s.positions); f.Some? ==> f.value < |s.result|
  {
    if |aliases| > 0 && aliases[0] !in s.positions {
      FindInRange(aliases[1..], s);
    }
  }

  lemma {:induction false} RecordAll(aliases: seq<Alias>, positions: map<Alias, nat>, index: nat)
    ensures forall a :: a in Record(aliases, positions, index) <==> a in aliases || a in positions
    ensures forall a :: a in Record(aliases, positions, index) ==>
              Record(aliases, positions, index)[a] == if a in aliases then index else positions[a]
  {
    if |aliases| > 0 {
      RecordAll(aliases[..|aliases| - 1], positions, index);
    }
  }

  lemma StepKeepsOk(s: State, m: Object)
    requires StateOk(s)
    ensures StateOk(Step(s, m))
  {
    var aliases := Keys(m);
    FindInRange(aliases, s);
    match Find(aliases, s.positions) {
      case None => RecordAll(aliases, s.positions, |s.result|);
      case Some(i) => RecordAll(aliases, s.positions, i);
    }
  }

  /** The entries and the alias table after a list of messages. */
  function Fold(ms: seq<Object>): (s: State)
    ensures StateOk(s)
  {
    if |ms| == 0 then State([], map[])
    else
      StepKeepsOk(Fold(ms[..|ms| - 1]), ms[|ms| - 1]);
      Step(Fold(ms[..|ms| - 1]), ms[|ms| - 1])
  }

  /** The comparison of the final sort; `collate` orders the creation times of equal numbers. */
  predicate Before(a: Object, b: Object, collate: (Value, Value) -> bool) {
    if Number(a) != Number(b) then Number(a) < Number(b)
    else if Id(a) != Id(b) then Id(a) < Id(b)
    else collate(Field(a, "created_at"), Field(b, "created_at"))
  }

  function Insert(x: Object, s: seq<Object>, collate: (Value, Value) -> bool): seq<Object> {
    if |s| == 0 then [x]
    else if Before(x, s[0], collate) then [x] + s
    else [s[0]] + Insert(x, s[1..], collate)
  }

  /** The sort of the entries: stable, as the library's is. */
  function Sort(s: seq<Object>, collate: (Value, Value) -> bool): seq<Object> {
    if |s| == 0 then [] else Insert(s[|s| - 1], Sort(s[..|s| - 1], collate), collate)
  }

  function Merge(ms: seq<Object>, collate: (Value, Value) -> bool): seq<Object> {
    Sort(Fold(ms).result, collate)
  }

  method Locate(aliases: seq<Alias>, positions: map<Alias, nat>) returns (found: Option<nat>)
    ensures found == Find(aliases, positions)
  {
    var k := 0;
    while k < |aliases|
      invariant 0 <= k <= |aliases| && Find(aliases, positions) == Find(aliases[k..], positions)
    {
      if aliases[k] in positions {
        return Some(positions[aliases[k]]);
      }
      assert aliases[k..][1..] == aliases[k + 1..];
      k := k + 1;
    }
    return None;
  }

  /** `mergeMessages`. */
  method MergeBatches(batches: seq<seq<Object>>, collate: (Value, Value) -> bool) returns (r: seq<Object>)
    ensures r == Merge(Flatten(batches), collate)
  {
    hide Sort, Keys, Find, Record, Step;
    var result: seq<Object>, positions: map<Alias, nat> := [], map[];
    for b := 0 to |batches|
      invariant State(result, positions) == Fold(Flatten(batches[..b]))
    {
      assert batches[..b + 1][..b] == batches[..b];
      assert Flatten(batches[..b]) + batches[b][..0] == Flatten(batches[..b]);
      for k := 0 to |batches[b]|
        invariant State(result, positions) == Fold(Flatten(batches[..b]) + batches[b][..k])
      {
        result, positions := MergeOne(result, positions, batches[b][k]);
        PushFold(Flatten(batches[..b]), batches[b], k);
      }
      assert Flatten(batches[..b]) + batches[b][..|batches[b]|] == Flatten(batches[..b + 1]);
    }
    assert batches[..|batches|] == batches;
    return Sort(result, collate);
  }

  lemma PushFold(before: seq<Object>, batch: seq<Object>, k: nat)
    requires k < |batch|
    ensures Fold(before + batch[..k + 1]) == Step(Fold(before + batch[..k]), batch[k])
  {
    var all := before + batch[..k + 1];
    assert all[..|all| - 1] == before + batch[..k];
  }

  method MergeOne(result: seq<Object>, positions: map<Alias, nat>, m: Object)
    returns (r: seq<Object>, p: map<Alias, nat>)
    requires StateOk(State(result, positions))
    ensures State(r, p) == Step(State(result, positions), m)
  {
    hide Keys;
    var aliases := Keys(m);
    var found := Locate(aliases, positions);
    FindInRange(aliases, State(result, positions));
    var index := if found.Some? then found.value else |result|;
    if found.None? {
      r := result + [m];
    } else {
      r := result[index := m + result[index]];
    }
    p := positions;
    for k := 0 to |aliases|
      invariant p == Record(aliases[..k], positions, index)
    {
      assert aliases[..k + 1][..k] == aliases[..k];
      p := p[aliases[k] := index];
    }
    assert aliases[..|aliases|] == aliases;
  }

  // ---------- fully keyed messages ----------

  /** A formal message carries its id, its number in the room and its sender's own id for it. */
  predicate Formal(m: Object) {
    Id(m) > 0 && Number(m) > 0 && HasClient(m)
  }

  predicate Shares(a: Object, b: Object) {
    exists x :: x in Keys(a) && x in Keys(b)
  }

  /** Copies that share one alias share all of them. */
  predicate Consistent(ms: seq<Object>) {
    && (forall i :: 0 <= i < |ms| ==> Formal(ms[i]))
    && (forall i, j :: 0 <= i < |ms| && 0 <= j < |ms| && Shares(ms[i], ms[j]) ==> Keys(ms[i]) == Keys(ms[j]))
  }

  /** The identity of a formal message: its room and id. */
  function Ident(m: Object): Alias {
    ById(Field(m, "room_id"), Id(m))
  }

  /** All copies of one message, the earlier copy's fields winning. */
  function Overlay(ms: seq<Object>, d: Alias): Object {
    if |ms| == 0 then map[]
    else
      var before := Overlay(ms[..|ms| - 1], d);
      if Ident(ms[|ms| - 1]) == d then ms[|ms| - 1] + before else before
  }

  lemma FormalKeys(m: Object)
    requires Formal(m)
    ensures |Keys(m)| == 3 && Keys(m)[0] == Ident(m) && Keys(m)[1] == BySeq(Field(m, "room_id"), Number(m))
    ensures Keys(m)[2].ByClient?
  {
  }

  /** Spreading a copy under an entry with the same aliases changes no alias. */
  lemma SpreadKeepsKeys(m: Object, entry: Object)
    requires Formal(m) && Formal(entry) && Keys(m) == Keys(entry)
    ensures Formal(m + entry) && Keys(m + entry) == Keys(entry)
  {
    FormalKeys(m);
    FormalKeys(entry);
    assert Field(m, "room_id") == Field(entry, "room_id");
    assert Keys(m)[2] == Keys(entry)[2];
    assert Sender(m) == Sender(entry);
  }

  /** The alias table leads every alias of an entry to that entry. */
  ghost predicate Indexed(s: State) {
    && StateOk(s)
    && (forall i, a :: 0 <= i < |s.result| && a in Keys(s.result[i]) ==> a in s.positions && s.positions[a] == i)
    && (forall a :: a in s.positions ==> a in Keys(s.result[s.positions[a]]))
  }

  /** Every entry has the aliases of some message seen. */
  ghost predicate Drawn(ms: seq<Object>, s: State) {
    forall i :: 0 <= i < |s.result| ==> Formal(s.result[i]) && DrawnFrom(ms, s.result[i])
  }

  ghost predicate DrawnFrom(ms: seq<Object>, entry: Object) {
    exists j :: 0 <= j < |ms| && Keys(ms[j]) == Keys(entry)
  }

  /** Every message seen has an entry, and every entry is the overlay of its copies. */
  ghost predicate Folded(ms: seq<Object>, s: State) {
    && (forall j :: 0 <= j < |ms| ==> Ident(ms[j]) in s.positions)
    && (forall i :: 0 <= i < |s.result| ==> s.result[i] == Overlay(ms, Ident(s.result[i])))
  }

  ghost predicate Inv(ms: seq<Object>, s: State) {
    Indexed(s) && Drawn(ms, s) && Folded(ms, s)
  }

  lemma {:induction false} FindKnown(aliases: seq<Alias>, s: State)
    requires StateOk(s)
    ensures var f := Find(aliases, s.positions);
            if f.Some? then exists a :: a in aliases && a in s.positions && s.positions[a] == f.value
            else forall a :: a in aliases ==> a !in s.positions
  {
    if |aliases| > 0 {
      if aliases[0] !in s.positions {
        FindKnown(aliases[1..], s);
        var f := Find(aliases[1..], s.positions);
        if f.Some? {
          var a :| a in aliases[1..] && a in s.positions && s.positions[a] == f.value;
          assert a in aliases;
        }
      } else {
        assert aliases[0] in aliases;
      }
    }
  }

  lemma ConsistentPrefix(ms: seq<Object>, n: nat)
    requires Consistent(ms) && n <= |ms|
    ensures Consistent(ms[..n])
  {
  }

  lemma {:induction false} FoldKeepsInv(ms: seq<Object>)
    requires Consistent(ms)
    ensures Inv(ms, Fold(ms))
  {
    hide Inv, Consistent, Step;
    if |ms| == 0 {
      EmptyInv();
      assert ms == [];
    } else {
      var n := |ms| - 1;
      ConsistentPrefix(ms, n);
      FoldKeepsInv(ms[..n]);
      ConsistentLast(ms);
      StepKeepsInv(ms[..n], Fold(ms[..n]), ms[n]);
      assert ms == ms[..n] + [ms[n]];
    }
  }

  lemma EmptyInv()
    ensures Inv([], State([], map[]))
  {
  }

  lemma ConsistentLast(ms: seq<Object>)
    requires Consistent(ms) && |ms| > 0
    ensures Formal(ms[|ms| - 1])
    ensures forall j :: 0 <= j < |ms| - 1 && Shares(ms[j], ms[|ms| - 1]) ==>
              Keys(ms[..|ms| - 1][j]) == Keys(ms[|ms| - 1])
  {
  }

  lemma StepKeepsInv(ms: seq<Object>, s: State, m: Object)
    requires Inv(ms, s) && Formal(m)
    requires forall j :: 0 <= j < |ms| && Shares(ms[j], m) ==> Keys(ms[j]) == Keys(m)
    ensures Inv(ms + [m], Step(s, m))
  {
    hide Keys, Find, Record, Overlay, Formal, Ident, Folded, Drawn, Indexed, Shares;
    var aliases := Keys(m);
    assert StateOk(s) by { IndexedOk(s); }
    FindInRange(aliases, s);
    FindKnown(aliases, s);
    match Find(aliases, s.positions)
    case None =>
      AppendIndexed(s, m);
      AppendDrawn(ms, s, m);
      RecordAll(aliases, s.positions, |s.result|);
      AppendFolded(ms, s, m, Appended(s, m));
    case Some(i) =>
      FoundAgrees(ms, s, m, i);
      FoldIndexed(s, m, i);
      FoldDrawn(ms, s, m, i);
      FoldFolded(ms, s, m, i);
  }

  lemma IndexedOk(s: State)
    requires Indexed(s)
    ensures StateOk(s)
  {
  }

  lemma FoundAgrees(ms: seq<Object>, s: State, m: Object, i: nat)
    requires Indexed(s) && Drawn(ms, s) && i < |s.result|
    requires exists a :: a in Keys(m) && a in s.positions && s.positions[a] == i
    requires forall j :: 0 <= j < |ms| && Shares(ms[j], m) ==> Keys(ms[j]) == Keys(m)
    ensures Keys(s.result[i]) == Keys(m) && Formal(s.result[i])
  {
    hide Keys, Formal;
    var a :| a in Keys(m) && a in s.positions && s.positions[a] == i;
    var j :| 0 <= j < |ms| && Keys(ms[j]) == Keys(s.result[i]);
    assert Shares(ms[j], m);
  }

  lemma OverlayPush(ms: seq<Object>, m: Object, d: Alias)
    ensures Overlay(ms + [m], d) == if Ident(m) == d then m + Overlay(ms, d) else Overlay(ms, d)
  {
    assert (ms + [m])[..|ms|] == ms;
  }

  lemma {:induction false} OverlayOfNone(ms: seq<Object>, d: Alias)
    requires forall j :: 0 <= j < |ms| ==> Ident(ms[j]) != d
    ensures Overlay(ms, d) == map[]
  {
    if |ms| > 0 {
      OverlayOfNone(ms[..|ms| - 1], d);
    }
  }

  function Appended(s: State, m: Object): State {
    State(s.result + [m], Record(Keys(m), s.positions, |s.result|))
  }

  lemma AppendIndexed(s: State, m: Object)
    requires Indexed(s) && forall a :: a in Keys(m) ==> a !in s.positions
    ensures Indexed(Appended(s, m))
  {
    hide Keys, Record;
    RecordAll(Keys(m), s.positions, |s.result|);
  }

  lemma AppendDrawn(ms: seq<Object>, s: State, m: Object)
    requires Drawn(ms, s) && Formal(m)
    ensures Drawn(ms + [m], Appended(s, m))
  {
    hide Keys, Record, Formal;
    var after := ms + [m];
    assert after[|ms|] == m;
    assert DrawnFrom(after, m);
    forall i | 0 <= i < |s.result| ensures DrawnFrom(after, s.result[i]) {
      var j :| 0 <= j < |ms| && Keys(ms[j]) == Keys(s.result[i]);
      assert after[j] == ms[j];
    }
  }

  lemma AppendFolded(ms: seq<Object>, s: State, m: Object, after: State)
    requires Indexed(s) && Drawn(ms, s) && Folded(ms, s) && Formal(m) && forall a :: a in Keys(m) ==> a !in s.positions
    requires after.result == s.result + [m] && forall a :: a in Keys(m) || a in s.positions ==> a in after.positions
    ensures Folded(ms + [m], after)
  {
    hide Keys, Formal, Overlay, Ident, DrawnFrom;
    FormalKeys(m);
    assert Ident(m) in Keys(m);
    OverlayPush(ms, m, Ident(m));
    OverlayOfNone(ms, Ident(m));
    forall i | 0 <= i < |s.result| ensures s.result[i] == Overlay(ms + [m], Ident(s.result[i])) {
      FormalKeys(s.result[i]);
      assert Ident(s.result[i]) in Keys(s.result[i]);
      OverlayPush(ms, m, Ident(s.result[i]));
    }
  }

  function Refolded(s: State, m: Object, i: nat): State
    requires i < |s.result|
  {
    State(s.result[i := m + s.result[i]], Record(Keys(m), s.positions, i))
  }

  lemma FoldIndexed(s: State, m: Object, i: nat)
    requires Indexed(s) && Formal(m) && i < |s.result| && Formal(s.result[i]) && Keys(s.result[i]) == Keys(m)
    ensures Indexed(Refolded(s, m, i)) && Refolded(s, m, i).positions == s.positions
  {
    hide Keys, Record, Formal;
    RecordAll(Keys(m), s.positions, i);
    SpreadKeepsKeys(m, s.result[i]);
    assert Record(Keys(m), s.positions, i) == s.positions;
  }

  lemma FoldDrawn(ms: seq<Object>, s: State, m: Object, i: nat)
    requires Drawn(ms, s) && Formal(m) && i < |s.result| && Keys(s.result[i]) == Keys(m)
    ensures Drawn(ms + [m], Refolded(s, m, i))
  {
    hide Keys, Record, Formal;
    SpreadKeepsKeys(m, s.result[i]);
    var after := ms + [m];
    assert after[|ms|] == m;
    forall k | 0 <= k < |s.result| ensures DrawnFrom(after, s.result[k]) {
      var j :| 0 <= j < |ms| && Keys(ms[j]) == Keys(s.result[k]);
      assert after[j] == ms[j];
    }
    assert DrawnFrom(after, m + s.result[i]);
  }

  lemma FoldFolded(ms: seq<Object>, s: State, m: Object, i: nat)
    requires Indexed(s) && Drawn(ms, s) && Folded(ms, s) && Formal(m) && i < |s.result| && Keys(s.result[i]) == Keys(m)
    ensures Folded(ms + [m], Refolded(s, m, i))
  {
    hide Keys, Record, Formal, Overlay, Ident, DrawnFrom;
    RecordAll(Keys(m), s.positions, i);
    SpreadKeepsKeys(m, s.result[i]);
    FormalKeys(m);
    assert Ident(m) in Keys(m);
    FormalKeys(s.result[i]);
    FormalKeys(m + s.result[i]);
    forall k | 0 <= k < |s.result| && k != i ensures s.result[k] == Overlay(ms + [m], Ident(s.result[k])) {
      FormalKeys(s.result[k]);
      assert Ident(s.result[k]) in Keys(s.result[k]);
      assert s.positions[Ident(s.result[k])] == k && s.positions[Ident(m)] == i;
      OverlayPush(ms, m, Ident(s.result[k]));
    }
    OverlayPush(ms, m, Ident(m));
  }

  // ---------- the sorted view ----------

  predicate Ascending(s: seq<Object>) {
    forall i, j :: 0 <= i < j < |s| ==> Number(s[i]) < Number(s[j])
  }

  predicate DistinctNumbers(s: seq<Object>) {
    forall i, j :: 0 <= i < j < |s| ==> Number(s[i]) != Number(s[j])
  }

  predicate OneRoom(ms: seq<Object>) {
    forall i, j :: 0 <= i < |ms| && 0 <= j < |ms| ==> Field(ms[i], "room_id") == Field(ms[j], "room_id")
  }

  lemma {:induction false} InsertMembers(x: Object, s: seq<Object>, collate: (Value, Value) -> bool)
    ensures forall y :: y in Insert(x, s, collate) <==> y == x || y in s
    ensures |Insert(x, s, collate)| == |s| + 1
  {
    hide Before;
    if |s| > 0 && !Before(x, s[0], collate) {
      InsertMembers(x, s[1..], collate);
      assert s == [s[0]] + s[1..];
    }
  }

  lemma {:induction false} InsertKeeps(x: Object, s: seq<Object>, collate: (Value, Value) -> bool)
    requires Ascending(s) && forall i :: 0 <= i < |s| ==> Number(s[i]) != Number(x)
    ensures Ascending(Insert(x, s, collate))
  {
    hide Number, Before;
    if |s| > 0 {
      BeforeByNumber(x, s[0], collate);
      if !Before(x, s[0], collate) {
        InsertKeeps(x, s[1..], collate);
        InsertMembers(x, s[1..], collate);
        var rest := Insert(x, s[1..], collate);
        forall k | 0 <= k < |rest| ensures Number(s[0]) < Number(rest[k]) {
          assert rest[k] in rest;
        }
      }
    }
  }

  lemma BeforeByNumber(a: Object, b: Object, collate: (Value, Value) -> bool)
    requires Number(a) != Number(b)
    ensures Before(a, b, collate) <==> Number(a) < Number(b)
  {
  }

  lemma {:induction false} SortMembers(s: seq<Object>, collate: (Value, Value) -> bool)
    ensures |Sort(s, collate)| == |s| && forall y :: y in Sort(s, collate) <==> y in s
  {
    hide Insert;
    if |s| > 0 {
      var n := |s| - 1;
      SortMembers(s[..n], collate);
      InsertMembers(s[n], Sort(s[..n], collate), collate);
      assert s == s[..n] + [s[n]];
    }
  }

  lemma {:induction false} SortKeeps(s: seq<Object>, collate: (Value, Value) -> bool)
    requires DistinctNumbers(s)
    ensures Ascending(Sort(s, collate))
  {
    hide Insert, Number;
    if |s| > 0 {
      var n := |s| - 1;
      var rest := Sort(s[..n], collate);
      SortKeeps(s[..n], collate);
      SortMembers(s[..n], collate);
      forall i | 0 <= i < |rest| ensures Number(rest[i]) != Number(s[n]) {
        assert rest[i] in s[..n];
        var j :| 0 <= j < n && s[..n][j] == rest[i];
        assert s[j] == rest[i];
      }
      InsertKeeps(s[n], rest, collate);
    }
  }

  lemma SameAliasSameEntry(s: State, i: nat, j: nat, a: Alias)
    requires Indexed(s) && i < |s.result| && j < |s.result| && a in Keys(s.result[i]) && a in Keys(s.result[j])
    ensures i == j
  {
    hide Keys;
    assert s.positions[a] == i && s.positions[a] == j;
  }

  lemma EntryRoom(ms: seq<Object>, s: State, i: nat)
    requires Drawn(ms, s) && OneRoom(ms) && i < |s.result|
    ensures |ms| > 0 && Field(s.result[i], "room_id") == Field(ms[0], "room_id")
    ensures BySeq(Field(ms[0], "room_id"), Number(s.result[i])) in Keys(s.result[i])
  {
    hide Keys, Number;
    assert DrawnFrom(ms, s.result[i]);
    var a :| 0 <= a < |ms| && Keys(ms[a]) == Keys(s.result[i]);
    RoomFromKeys(ms[a], s.result[i]);
    FormalKeys(s.result[i]);
    assert Keys(s.result[i])[1] in Keys(s.result[i]);
  }

  lemma EntriesDiffer(ms: seq<Object>, s: State)
    requires Inv(ms, s) && OneRoom(ms)
    ensures DistinctNumbers(s.result)
  {
    hide Indexed, Drawn, Folded, Keys, Number, OneRoom;
    forall i, j | 0 <= i < j < |s.result| ensures Number(s.result[i]) != Number(s.result[j]) {
      EntryRoom(ms, s, i);
      EntryRoom(ms, s, j);
      if Number(s.result[i]) == Number(s.result[j]) {
        SameAliasSameEntry(s, i, j, BySeq(Field(ms[0], "room_id"), Number(s.result[i])));
      }
    }
  }

  lemma RoomFromKeys(m: Object, entry: Object)
    requires Formal(entry) && Keys(m) == Keys(entry)
    ensures Formal(m) && Field(m, "room_id") == Field(entry, "room_id") && Ident(m) == Ident(entry)
            && Number(m) == Number(entry)
  {
    FormalKeys(entry);
    assert Keys(entry)[0].ById? && Keys(entry)[1].BySeq? && Keys(entry)[2].ByClient?;
    assert |Keys(m)| == 3;
  }

  /** The view of a list of copies: what it holds, once each, and in what order. */
  ghost predicate View(ms: seq<Object>, r: seq<Object>) {
    && Ascending(r)
    && (forall i :: 0 <= i < |r| ==> Formal(r[i]) && DrawnFrom(ms, r[i]) && r[i] == Overlay(ms, Ident(r[i])))
    && (forall j :: 0 <= j < |ms| ==> DrawnFrom(r, ms[j]))
  }

  /** One entry per message, in strictly increasing number, for any order, repetition and overlap of
      the copies. */
  lemma MergeIsView(ms: seq<Object>, collate: (Value, Value) -> bool)
    requires Consistent(ms) && OneRoom(ms)
    ensures View(ms, Merge(ms, collate))
  {
    hide Keys, Formal, Overlay, Number, DrawnFrom, Sort, Fold, OneRoom, Ident, Consistent, Ascending;
    FoldKeepsInv(ms);
    var s := Fold(ms);
    EntriesDiffer(ms, s);
    SortKeeps(s.result, collate);
    SortMembers(s.result, collate);
    var r := Merge(ms, collate);
    forall i | 0 <= i < |r| ensures Formal(r[i]) && DrawnFrom(ms, r[i]) && r[i] == Overlay(ms, Ident(r[i])) {
      assert r[i] in s.result;
    }
    forall j | 0 <= j < |ms| ensures DrawnFrom(r, ms[j]) {
      EntryOf(ms, s, j);
      InSorted(r, s.result[s.positions[Ident(ms[j])]], ms[j]);
    }
  }

  lemma InSorted(r: seq<Object>, entry: Object, m: Object)
    requires entry in r && Keys(entry) == Keys(m)
    ensures DrawnFrom(r, m)
  {
    hide Keys;
    var i :| 0 <= i < |r| && r[i] == entry;
  }

  lemma EntryOf(ms: seq<Object>, s: State, j: nat)
    requires Consistent(ms) && Inv(ms, s) && j < |ms|
    ensures Ident(ms[j]) in s.positions && Keys(s.result[s.positions[Ident(ms[j])]]) == Keys(ms[j])
  {
    hide Keys, Formal, Overlay;
    var entry := s.result[s.positions[Ident(ms[j])]];
    var k: nat :| k < |ms| && Keys(ms[k]) == Keys(entry);
    FormalKeys(ms[j]);
    assert Ident(ms[j]) in Keys(ms[j]);
    SharedMeansSame(ms, k, j, Ident(ms[j]));
  }

  // ---------- independence of arrival ----------

  lemma {:induction false} SortedPairsUnique<T>(a: seq<(T, int)>, b: seq<(T, int)>)
    requires forall i, j :: 0 <= i < j < |a| ==> a[i].1 < a[j].1
    requires forall i, j :: 0 <= i < j < |b| ==> b[i].1 < b[j].1
    requires forall x :: x in a <==> x in b
    ensures a == b
  {
    if |a| == 0 {
      if |b| > 0 { HasMember(b); }
    } else if |b| == 0 {
      HasMember(a);
    } else {
      assert a[0] in b && b[0] in a;
      assert a[0] == b[0];
      TailMembers(a, b);
      TailMembers(b, a);
      SortedPairsUnique(a[1..], b[1..]);
    }
  }

  lemma HasMember<T>(s: seq<T>)
    requires |s| > 0
    ensures exists x :: x in s
  {
    assert s[0] in s;
  }

  lemma TailMembers<T>(a: seq<(T, int)>, b: seq<(T, int)>)
    requires |a| > 0 && |b| > 0 && a[0] == b[0] && (forall x :: x in a ==> x in b)
    requires forall i, j :: 0 <= i < j < |a| ==> a[i].1 < a[j].1
    ensures forall x :: x in a[1..] ==> x in b[1..]
  {
    forall x | x in a[1..] ensures x in b[1..] {
      var i :| 0 <= i < |a| - 1 && a[1..][i] == x;
      assert x == a[i + 1] && x in b && x.1 > a[0].1;
    }
  }

  lemma AscendingIsUnique(a: seq<Object>, b: seq<Object>)
    requires Ascending(a) && Ascending(b) && forall x :: x in a <==> x in b
    ensures a == b
  {
    hide Number;
    var p := seq(|a|, i requires 0 <= i < |a| => (a[i], Number(a[i])));
    var q := seq(|b|, i requires 0 <= i < |b| => (b[i], Number(b[i])));
    forall x ensures x in p <==> x in q {
      if x in p {
        assert x.0 in a;
        var i :| 0 <= i < |b| && b[i] == x.0;
        assert q[i] == x;
      }
      if x in q {
        assert x.0 in b;
        var i :| 0 <= i < |a| && a[i] == x.0;
        assert p[i] == x;
      }
    }
    SortedPairsUnique(p, q);
    forall i | 0 <= i < |a| ensures a[i] == b[i] { assert p[i] == q[i]; }
  }

  /** Two lists with the same messages and the same overlay of each have the same view. */
  lemma SameView(ms: seq<Object>, ns: seq<Object>, a: seq<Object>, b: seq<Object>)
    requires View(ms, a) && View(ns, b)
    requires forall m :: m in ms ==> exists n :: n in ns && Keys(n) == Keys(m)
    requires forall n :: n in ns ==> exists m :: m in ms && Keys(m) == Keys(n)
    requires forall d :: Overlay(ms, d) == Overlay(ns, d)
    ensures a == b
  {
    hide Overlay, Keys, Ascending, Formal, Ident;
    forall x | x in a ensures x in b { InOtherView(ms, ns, a, b, x); }
    forall x | x in b ensures x in a { InOtherView(ns, ms, b, a, x); }
    AscendingIsUnique(a, b);
  }

  lemma EntryOrigin(ms: seq<Object>, a: seq<Object>, e: nat) returns (j: nat)
    requires View(ms, a) && e < |a|
    ensures j < |ms| && Keys(ms[j]) == Keys(a[e]) && Formal(a[e])
  {
    hide Overlay, Keys, Ascending, Formal, Ident;
    assert DrawnFrom(ms, a[e]);
    j :| 0 <= j < |ms| && Keys(ms[j]) == Keys(a[e]);
  }

  lemma OriginEntry(ms: seq<Object>, a: seq<Object>, j: nat) returns (e: nat)
    requires View(ms, a) && j < |ms|
    ensures e < |a| && Keys(a[e]) == Keys(ms[j]) && Formal(a[e])
  {
    hide Overlay, Keys, Ascending, Formal, Ident;
    assert DrawnFrom(a, ms[j]);
    e :| 0 <= e < |a| && Keys(a[e]) == Keys(ms[j]);
  }

  /** The entry of one view that shows the same message as entry `e` of the other. */
  lemma Counterpart(ms: seq<Object>, ns: seq<Object>, a: seq<Object>, b: seq<Object>, e: nat) returns (i: nat)
    requires View(ms, a) && View(ns, b) && e < |a|
    requires forall m :: m in ms ==> exists n :: n in ns && Keys(n) == Keys(m)
    ensures i < |b| && Keys(b[i]) == Keys(a[e]) && Ident(b[i]) == Ident(a[e]) && Number(b[i]) == Number(a[e])
  {
    hide View, Keys, Ident, Number, Formal;
    var j := EntryOrigin(ms, a, e);
    assert ms[j] in ms;
    var n :| n in ns && Keys(n) == Keys(ms[j]);
    var k :| 0 <= k < |ns| && ns[k] == n;
    i := OriginEntry(ns, b, k);
    RoomFromKeys(b[i], a[e]);
  }

  lemma InOtherView(ms: seq<Object>, ns: seq<Object>, a: seq<Object>, b: seq<Object>, x: Object)
    requires View(ms, a) && View(ns, b) && x in a
    requires forall m :: m in ms ==> exists n :: n in ns && Keys(n) == Keys(m)
    requires forall d :: Overlay(ms, d) == Overlay(ns, d)
    ensures x in b
  {
    hide Overlay, Keys, Ascending, Formal, Ident, DrawnFrom, Number;
    var e :| 0 <= e < |a| && a[e] == x;
    var i := Counterpart(ms, ns, a, b, e);
    assert b[i] == x;
  }

  lemma {:induction false} OverlayAppend(a: seq<Object>, b: seq<Object>, d: Alias)
    ensures Overlay(a + b, d) == Overlay(b, d) + Overlay(a, d)
  {
    if |b| == 0 {
      assert a + b == a;
    } else {
      hide Overlay, Ident;
      var n := |b| - 1;
      OverlayAppend(a, b[..n], d);
      assert a + b == a + b[..n] + [b[n]] && b == b[..n] + [b[n]];
      OverlayPush(a + b[..n], b[n], d);
      OverlayPush(b[..n], b[n], d);
      SpreadTwice(b[n], Overlay(b[..n], d), Overlay(a, d));
    }
  }

  lemma SpreadTwice(a: Object, b: Object, c: Object)
    ensures a + (b + c) == a + b + c
  {
  }

  /** A view holds one copy of each message, so it overlays like the list it came from. */
  lemma ViewOverlay(ms: seq<Object>, r: seq<Object>, d: Alias)
    requires Consistent(ms) && View(ms, r)
    ensures Overlay(r, d) == Overlay(ms, d)
  {
    hide Keys, Overlay, Formal, Consistent;
    if i :| 0 <= i < |r| && Ident(r[i]) == d {
      forall k | 0 <= k < |r| && Ident(r[k]) == d ensures k == i {
        SameIdentSameNumber(ms, r, i, k);
      }
      OverlayOfOne(r, i, d);
    } else {
      OverlayOfNone(r, d);
      forall j | 0 <= j < |ms| ensures Ident(ms[j]) != d {
        var i := OriginEntry(ms, r, j);
        RoomFromKeys(ms[j], r[i]);
      }
      OverlayOfNone(ms, d);
    }
  }

  lemma SharedMeansSame(ms: seq<Object>, a: nat, b: nat, x: Alias)
    requires Consistent(ms) && a < |ms| && b < |ms| && x in Keys(ms[a]) && x in Keys(ms[b])
    ensures Keys(ms[a]) == Keys(ms[b])
  {
    hide Keys, Formal;
    assert Shares(ms[a], ms[b]);
  }

  lemma SameIdentSameNumber(ms: seq<Object>, r: seq<Object>, i: nat, k: nat)
    requires Consistent(ms) && View(ms, r) && i < |r| && k < |r| && Ident(r[i]) == Ident(r[k])
    ensures i == k
  {
    hide Keys, Overlay, Formal, Number, Ident, DrawnFrom;
    var a := EntryOrigin(ms, r, i);
    var b := EntryOrigin(ms, r, k);
    FormalKeys(r[i]);
    FormalKeys(r[k]);
    SharedMeansSame(ms, a, b, Ident(r[i]));
    RoomFromKeys(r[i], r[k]);
  }

  lemma {:induction false} OverlayOfOne(r: seq<Object>, i: nat, d: Alias)
    requires i < |r| && Ident(r[i]) == d && forall k :: 0 <= k < |r| && Ident(r[k]) == d ==> k == i
    ensures Overlay(r, d) == r[i]
  {
    var n := |r| - 1;
    if i == n {
      OverlayOfNone(r[..n], d);
    } else {
      OverlayOfOne(r[..n], i, d);
    }
  }

  /** Some message of the list has the same aliases and room. */
  ghost predicate LikeIn(all: seq<Object>, x: Object) {
    exists k :: 0 <= k < |all| && Keys(all[k]) == Keys(x) && Field(all[k], "room_id") == Field(x, "room_id")
  }

  lemma ViewIsLike(ms: seq<Object>, r: seq<Object>, more: seq<Object>, i: nat)
    requires Consistent(ms + more) && View(ms, r) && i < |r + more|
    ensures LikeIn(ms + more, (r + more)[i]) && Formal((r + more)[i])
  {
    hide View, Keys, Formal, Shares;
    var all, view := ms + more, r + more;
    if i < |r| {
      var j := EntryOrigin(ms, r, i);
      RoomFromKeys(ms[j], r[i]);
      assert all[j] == ms[j];
    } else {
      assert all[|ms| + i - |r|] == view[i];
    }
  }

  lemma ViewIsConsistent(ms: seq<Object>, r: seq<Object>, more: seq<Object>)
    requires Consistent(ms + more) && OneRoom(ms + more) && View(ms, r)
    ensures Consistent(r + more) && OneRoom(r + more)
    ensures forall x :: x in r + more ==> exists y :: y in ms + more && Keys(y) == Keys(x)
    ensures forall y :: y in ms + more ==> exists x :: x in r + more && Keys(x) == Keys(y)
  {
    hide View, Keys, Formal, LikeIn, Consistent, OneRoom;
    var all, view := ms + more, r + more;
    forall i | 0 <= i < |view| ensures LikeIn(all, view[i]) && Formal(view[i]) {
      ViewIsLike(ms, r, more, i);
    }
    ConsistentLike(all, view);
    forall y | y in all ensures exists x :: x in view && Keys(x) == Keys(y) {
      if y in ms {
        var j :| 0 <= j < |ms| && ms[j] == y;
        var i := OriginEntry(ms, r, j);
        assert r[i] in view;
      } else {
        assert y in view;
      }
    }
  }

  lemma ConsistentLike(all: seq<Object>, view: seq<Object>)
    requires Consistent(all) && OneRoom(all)
    requires forall i :: 0 <= i < |view| ==> LikeIn(all, view[i]) && Formal(view[i])
    ensures Consistent(view) && OneRoom(view)
    ensures forall x :: x in view ==> exists y :: y in all && Keys(y) == Keys(x)
  {
    hide Keys, Formal;
    forall i, j | 0 <= i < |view| && 0 <= j < |view|
      ensures Shares(view[i], view[j]) ==> Keys(view[i]) == Keys(view[j])
      ensures Field(view[i], "room_id") == Field(view[j], "room_id")
    {
      var k :| 0 <= k < |all| && Keys(all[k]) == Keys(view[i]) && Field(all[k], "room_id") == Field(view[i], "room_id");
      var l :| 0 <= l < |all| && Keys(all[l]) == Keys(view[j]) && Field(all[l], "room_id") == Field(view[j], "room_id");
      if Shares(view[i], view[j]) {
        assert Shares(all[k], all[l]);
      }
    }
    forall x | x in view ensures exists y :: y in all && Keys(y) == Keys(x) {
      var i :| 0 <= i < |view| && view[i] == x;
      var k :| 0 <= k < |all| && Keys(all[k]) == Keys(view[i]);
      assert all[k] in all;
    }
  }

  /** Merging as copies arrive gives the same view, fields included, as merging everything at once. */
  lemma IncrementalMerge(ms: seq<Object>, more: seq<Object>, collate: (Value, Value) -> bool)
    requires Consistent(ms + more) && OneRoom(ms + more)
    ensures Merge(Merge(ms, collate) + more, collate) == Merge(ms + more, collate)
  {
    hide Merge, View, Keys, Overlay;
    ConsistentPrefix(ms + more, |ms|);
    assert (ms + more)[..|ms|] == ms;
    assert OneRoom(ms) by { assert forall i :: 0 <= i < |ms| ==> (ms + more)[i] == ms[i]; }
    var first := Merge(ms, collate);
    MergeIsView(ms, collate);
    ViewIsConsistent(ms, first, more);
    MergeIsView(first + more, collate);
    MergeIsView(ms + more, collate);
    forall d ensures Overlay(first + more, d) == Overlay(ms + more, d) {
      OverlayAppend(first, more, d);
      OverlayAppend(ms, more, d);
      ViewOverlay(ms, first, d);
    }
    SameView(first + more, ms + more, Merge(first + more, collate), Merge(ms + more, collate));
  }

  /** The identities and numbers of a view, in order. */
  function Summary(r: seq<Object>): seq<(Alias, int)> {
    seq(|r|, i requires 0 <= i < |r| => (Ident(r[i]), Number(r[i])))
  }

  /** The order in which copies arrive, and how often, does not change which messages are shown or in
      what order. */
  lemma ArrivalDoesNotMatter(ms: seq<Object>, ns: seq<Object>, collate: (Value, Value) -> bool)
    requires Consistent(ms) && Consistent(ns) && OneRoom(ms) && OneRoom(ns)
    requires forall m :: m in ms ==> exists n :: n in ns && Keys(n) == Keys(m)
    requires forall n :: n in ns ==> exists m :: m in ms && Keys(m) == Keys(n)
    ensures Summary(Merge(ms, collate)) == Summary(Merge(ns, collate))
  {
    hide Merge, Keys, Overlay, Ascending, Ident, Number;
    MergeIsView(ms, collate);
    MergeIsView(ns, collate);
    SummariesAgree(ms, ns, Merge(ms, collate), Merge(ns, collate));
  }

  lemma SummariesAgree(ms: seq<Object>, ns: seq<Object>, a: seq<Object>, b: seq<Object>)
    requires View(ms, a) && View(ns, b)
    requires forall m :: m in ms ==> exists n :: n in ns && Keys(n) == Keys(m)
    requires forall n :: n in ns ==> exists m :: m in ms && Keys(m) == Keys(n)
    ensures Summary(a) == Summary(b)
  {
    hide View, Keys, Ident, Number, Summary;
    SummaryAscends(ms, a);
    SummaryAscends(ns, b);
    forall x | x in Summary(a) ensures x in Summary(b) { InOtherSummary(ms, ns, a, b, x); }
    forall x | x in Summary(b) ensures x in Summary(a) { InOtherSummary(ns, ms, b, a, x); }
    SortedPairsUnique(Summary(a), Summary(b));
  }

  lemma SummaryAscends(ms: seq<Object>, a: seq<Object>)
    requires View(ms, a)
    ensures forall i, j :: 0 <= i < j < |Summary(a)| ==> Summary(a)[i].1 < Summary(a)[j].1
  {
    hide Overlay, Keys, Formal, Ident, Number, DrawnFrom;
  }

  lemma InOtherSummary(ms: seq<Object>, ns: seq<Object>, a: seq<Object>, b: seq<Object>, x: (Alias, int))
    requires View(ms, a) && View(ns, b) && x in Summary(a)
    requires forall m :: m in ms ==> exists n :: n in ns && Keys(n) == Keys(m)
    ensures x in Summary(b)
  {
    hide View, Keys, Ident, Number;
    var e :| 0 <= e < |a| && Summary(a)[e] == x;
    var i := Counterpart(ms, ns, a, b, e);
    assert Summary(b)[i] == x;
  }

  // ---------- when copies are folded at all ----------

  /** The entry message `i` of a list is put into. */
  function EntryOfMessage(ms: seq<Object>, i: nat): nat
    requires i < |ms|
  {
    var s := Fold(ms[..i]);
    var found := Find(Keys(ms[i]), s.positions);
    if found.Some? then found.value else |s.result|
  }

  /** Copies that share an alias, keyed fully or not, end in one entry. */
  ghost predicate CopiesFold(ms: seq<Object>) {
    forall i: nat, j: nat :: i < j < |ms| && Shares(ms[i], ms[j]) ==> EntryOfMessage(ms, i) == EntryOfMessage(ms, j)
  }

  /** Message `n` has two aliases that lead to different entries when it arrives. */
  ghost predicate BridgesAt(ms: seq<Object>, n: nat)
    requires n < |ms|
  {
    var p := Fold(ms[..n]).positions;
    exists a, b :: a in Keys(ms[n]) && b in Keys(ms[n]) && a in p && b in p && p[a] != p[b]
  }

  /** A message arrives that would join two entries. */
  ghost predicate Bridged(ms: seq<Object>) {
    exists n: nat :: n < |ms| && BridgesAt(ms, n)
  }

  /** One more message: its aliases lead to its entry, the others where they did. */
  lemma PositionsAfter(ms: seq<Object>, n: nat)
    requires n < |ms|
    ensures var before, after := Fold(ms[..n]).positions, Fold(ms[..n + 1]).positions;
            && (forall a :: a in after <==> a in Keys(ms[n]) || a in before)
            && (forall a :: a in after ==> after[a] == if a in Keys(ms[n]) then EntryOfMessage(ms, n) else before[a])
  {
    hide Keys, Find, Record;
    var s := Fold(ms[..n]);
    assert ms[..n + 1][..n] == ms[..n];
    FindInRange(Keys(ms[n]), s);
    RecordAll(Keys(ms[n]), s.positions, EntryOfMessage(ms, n));
  }

  /** An alias leads to the entry of some message that has it. */
  lemma {:induction false} AliasOrigin(ms: seq<Object>, n: nat, a: Alias) returns (i: nat)
    requires n <= |ms| && a in Fold(ms[..n]).positions
    ensures i < n && a in Keys(ms[i]) && EntryOfMessage(ms, i) == Fold(ms[..n]).positions[a]
  {
    hide Keys, Find, Fold, EntryOfMessage;
    NoPositions(ms);
    if n > 0 {
      PositionsAfter(ms, n - 1);
      if a in Keys(ms[n - 1]) {
        i := n - 1;
      } else {
        i := AliasOrigin(ms, n - 1, a);
      }
    }
  }

  lemma NoPositions(ms: seq<Object>)
    ensures Fold(ms[..0]).positions == map[]
  {
  }

  /** Without bridges no alias is ever led elsewhere. */
  lemma {:induction false} AliasesStay(ms: seq<Object>, i: nat, n: nat, a: Alias)
    requires i < n <= |ms| && a in Keys(ms[i]) && forall k: nat :: k < n ==> !BridgesAt(ms, k)
    ensures a in Fold(ms[..n]).positions && Fold(ms[..n]).positions[a] == EntryOfMessage(ms, i)
  {
    hide Keys, Find, Fold, EntryOfMessage, BridgesAt;
    PositionsAfter(ms, n - 1);
    if i < n - 1 {
      AliasesStay(ms, i, n - 1, a);
      if a in Keys(ms[n - 1]) {
        EntryWithoutBridge(ms, n - 1, a);
      }
    }
  }

  lemma EntryWithoutBridge(ms: seq<Object>, n: nat, a: Alias)
    requires n < |ms| && a in Keys(ms[n]) && a in Fold(ms[..n]).positions && !BridgesAt(ms, n)
    ensures EntryOfMessage(ms, n) == Fold(ms[..n]).positions[a]
  {
    hide Keys, Find;
    FindKnown(Keys(ms[n]), Fold(ms[..n]));
  }

  /** Copies that share an alias are folded into one entry exactly if no message bridges two entries. */
  lemma CopiesFoldUnlessBridged(ms: seq<Object>)
    ensures CopiesFold(ms) <==> !Bridged(ms)
    ensures CopiesFold(ms) <==> !exists n: nat :: n < |ms| && JoinsUnlinked(ms, n)
  {
    BridgedIffJoinsUnlinked(ms);
    hide Keys, Find, Fold, EntryOfMessage, JoinsUnlinked;
    if !Bridged(ms) {
      forall i: nat, j: nat | i < j < |ms| && Shares(ms[i], ms[j])
        ensures EntryOfMessage(ms, i) == EntryOfMessage(ms, j)
      {
        var a :| a in Keys(ms[i]) && a in Keys(ms[j]);
        AliasesStay(ms, i, j, a);
        EntryWithoutBridge(ms, j, a);
      }
    } else {
      var n: nat :| n < |ms| && BridgesAt(ms, n);
      BridgeSplits(ms, n);
    }
  }

  lemma BridgeSplits(ms: seq<Object>, n: nat)
    requires n < |ms| && BridgesAt(ms, n)
    ensures !CopiesFold(ms)
  {
    hide Keys, Find, Fold, EntryOfMessage;
    var p := Fold(ms[..n]).positions;
    var a, b :| a in Keys(ms[n]) && b in Keys(ms[n]) && a in p && b in p && p[a] != p[b];
    var i := AliasOrigin(ms, n, a);
    var j := AliasOrigin(ms, n, b);
    assert Shares(ms[i], ms[n]) && Shares(ms[j], ms[n]);
  }

  // ---------- the same condition over the messages alone ----------

  /** A chain of messages among the first `n`, each sharing an alias with the next. */
  predicate IsChain(ms: seq<Object>, n: nat, path: seq<nat>)
    requires n <= |ms|
  {
    && |path| > 0
    && (forall k :: 0 <= k < |path| ==> path[k] < n)
    && (forall k :: 0 <= k < |path| - 1 ==> Shares(ms[path[k]], ms[path[k + 1]]))
  }

  ghost predicate Linked(ms: seq<Object>, n: nat, i: nat, j: nat)
    requires n <= |ms|
  {
    exists path :: IsChain(ms, n, path) && path[0] == i && path[|path| - 1] == j
  }

  /** Message `n` shares aliases with two earlier messages that no chain of earlier ones links. */
  ghost predicate JoinsUnlinked(ms: seq<Object>, n: nat)
    requires n < |ms|
  {
    exists i: nat, j: nat :: i < n && j < n && Shares(ms[i], ms[n]) && Shares(ms[j], ms[n]) && !Linked(ms, n, i, j)
  }

  lemma SharesBothWays(a: Object, b: Object)
    ensures Shares(a, b) <==> Shares(b, a)
  {
    hide Keys;
  }

  lemma LinkedToItself(ms: seq<Object>, n: nat, i: nat)
    requires i < n <= |ms|
    ensures Linked(ms, n, i, i)
  {
    assert IsChain(ms, n, [i]);
  }

  /** One more message at either end of a chain. */
  lemma LinkedOneMore(ms: seq<Object>, n: nat, i: nat, j: nat)
    requires i < n < |ms| && j < n && Linked(ms, n, i, j) && Linked(ms, n, j, i) && Shares(ms[i], ms[n])
    ensures Linked(ms, n + 1, n, j) && Linked(ms, n + 1, j, n)
  {
    hide Shares;
    SharesBothWays(ms[i], ms[n]);
    var p :| IsChain(ms, n, p) && p[0] == i && p[|p| - 1] == j;
    var q :| IsChain(ms, n, q) && q[0] == j && q[|q| - 1] == i;
    var front, back := [n] + p, q + [n];
    assert forall k :: 0 < k < |front| ==> front[k] == p[k - 1];
    assert forall k :: 0 <= k < |q| ==> back[k] == q[k];
    assert IsChain(ms, n + 1, front) && front[0] == n && front[|front| - 1] == j;
    assert IsChain(ms, n + 1, back) && back[0] == j && back[|back| - 1] == n;
  }

  lemma LinkedGrows(ms: seq<Object>, n: nat, i: nat, j: nat)
    requires n < |ms| && Linked(ms, n, i, j)
    ensures Linked(ms, n + 1, i, j)
  {
    hide Shares;
    var path :| IsChain(ms, n, path) && path[0] == i && path[|path| - 1] == j;
    assert IsChain(ms, n + 1, path);
  }

  lemma EntryIsNewOrKnown(ms: seq<Object>, n: nat)
    requires n < |ms|
    ensures |Fold(ms[..n]).result| <= |Fold(ms[..n + 1]).result| && EntryOfMessage(ms, n) < |Fold(ms[..n + 1]).result|
  {
    hide Keys, Find, Record;
    assert ms[..n + 1][..n] == ms[..n];
    FindInRange(Keys(ms[n]), Fold(ms[..n]));
  }

  lemma {:induction false} EntriesAreBelow(ms: seq<Object>, n: nat, i: nat)
    requires i < n <= |ms|
    ensures EntryOfMessage(ms, i) < |Fold(ms[..n]).result|
  {
    hide Fold, EntryOfMessage;
    EntryIsNewOrKnown(ms, n - 1);
    if i < n - 1 {
      EntriesAreBelow(ms, n - 1, i);
    }
  }

  /** A message that joins an old entry shares an alias with an earlier message of that entry. */
  lemma JoinedThrough(ms: seq<Object>, n: nat) returns (known: bool, i: nat)
    requires n < |ms|
    ensures known ==> i < n && Shares(ms[i], ms[n]) && EntryOfMessage(ms, i) == EntryOfMessage(ms, n)
    ensures !known ==> EntryOfMessage(ms, n) == |Fold(ms[..n]).result|
  {
    hide Keys, Find, Fold;
    var s := Fold(ms[..n]);
    FindKnown(Keys(ms[n]), s);
    known, i := false, 0;
    if Find(Keys(ms[n]), s.positions).Some? {
      var a :| a in Keys(ms[n]) && a in s.positions && s.positions[a] == Find(Keys(ms[n]), s.positions).value;
      known := true;
      i := AliasOrigin(ms, n, a);
    }
  }

  /** Messages of one entry are linked. */
  lemma {:induction false} EntryIsLinked(ms: seq<Object>, n: nat, i: nat, j: nat)
    requires i < n <= |ms| && j < n && EntryOfMessage(ms, i) == EntryOfMessage(ms, j)
    ensures Linked(ms, n, i, j)
    decreases n
  {
    hide Fold, EntryOfMessage, Linked, Shares;
    var m := n - 1;
    if i == j {
      LinkedToItself(ms, n, i);
    } else if i < m && j < m {
      EntryIsLinked(ms, m, i, j);
      LinkedGrows(ms, m, i, j);
    } else {
      var other := if i == m then j else i;
      var known, k := JoinedThrough(ms, m);
      EntriesAreBelow(ms, m, other);
      EntryIsLinked(ms, m, k, other);
      EntryIsLinked(ms, m, other, k);
      LinkedOneMore(ms, m, k, other);
    }
  }

  /** As long as nothing bridges, messages that share an alias are in one entry. */
  lemma SharersFold(ms: seq<Object>, n: nat, i: nat, j: nat)
    requires i < n <= |ms| && j < n && Shares(ms[i], ms[j]) && forall k: nat :: k < n ==> !BridgesAt(ms, k)
    ensures EntryOfMessage(ms, i) == EntryOfMessage(ms, j)
  {
    hide Keys, Find, Fold, EntryOfMessage, BridgesAt;
    if i != j {
      var a :| a in Keys(ms[i]) && a in Keys(ms[j]);
      AliasesStay(ms, i, n, a);
      AliasesStay(ms, j, n, a);
    }
  }

  lemma {:induction false} ChainFolds(ms: seq<Object>, n: nat, path: seq<nat>)
    requires n <= |ms| && IsChain(ms, n, path) && forall k: nat :: k < n ==> !BridgesAt(ms, k)
    ensures EntryOfMessage(ms, path[0]) == EntryOfMessage(ms, path[|path| - 1])
  {
    hide EntryOfMessage, BridgesAt, Shares;
    if |path| > 1 {
      assert IsChain(ms, n, path[1..]);
      ChainFolds(ms, n, path[1..]);
      SharersFold(ms, n, path[0], path[1]);
    }
  }

  lemma {:induction false} FirstBridge(ms: seq<Object>, n: nat) returns (m: nat)
    requires n < |ms| && BridgesAt(ms, n)
    ensures m <= n && BridgesAt(ms, m) && forall k: nat :: k < m ==> !BridgesAt(ms, k)
  {
    hide BridgesAt;
    if k: nat :| k < n && BridgesAt(ms, k) {
      m := FirstBridge(ms, k);
    } else {
      m := n;
    }
  }

  /** A bridge is a message that joins two so far unlinked groups: a caller can tell from the messages. */
  lemma BridgedIffJoinsUnlinked(ms: seq<Object>)
    ensures Bridged(ms) <==> exists n: nat :: n < |ms| && JoinsUnlinked(ms, n)
  {
    hide BridgesAt, JoinsUnlinked;
    if Bridged(ms) {
      var any: nat :| any < |ms| && BridgesAt(ms, any);
      var n := FirstBridge(ms, any);
      BridgeJoins(ms, n);
    }
    if n: nat :| n < |ms| && JoinsUnlinked(ms, n) {
      JoinBridges(ms, n);
    }
  }

  lemma BridgeJoins(ms: seq<Object>, n: nat)
    requires n < |ms| && BridgesAt(ms, n) && forall k: nat :: k < n ==> !BridgesAt(ms, k)
    ensures JoinsUnlinked(ms, n)
  {
    hide Keys, Fold, EntryOfMessage, IsChain;
    var p := Fold(ms[..n]).positions;
    var a, b :| a in Keys(ms[n]) && b in Keys(ms[n]) && a in p && b in p && p[a] != p[b];
    var i := AliasOrigin(ms, n, a);
    var j := AliasOrigin(ms, n, b);
    assert Shares(ms[i], ms[n]) && Shares(ms[j], ms[n]);
    if Linked(ms, n, i, j) {
      LinkedFolds(ms, n, i, j);
    }
  }

  lemma LinkedFolds(ms: seq<Object>, n: nat, i: nat, j: nat)
    requires i < n <= |ms| && j < n && Linked(ms, n, i, j) && forall k: nat :: k < n ==> !BridgesAt(ms, k)
    ensures EntryOfMessage(ms, i) == EntryOfMessage(ms, j)
  {
    hide EntryOfMessage, BridgesAt;
    var path :| IsChain(ms, n, path) && path[0] == i && path[|path| - 1] == j;
    ChainFolds(ms, n, path);
  }

  lemma JoinBridges(ms: seq<Object>, n: nat)
    requires n < |ms| && JoinsUnlinked(ms, n)
    ensures Bridged(ms)
  {
    hide Linked, BridgesAt, EntryOfMessage, Shares;
    var i: nat, j: nat :| i < n && j < n && Shares(ms[i], ms[n]) && Shares(ms[j], ms[n]) && !Linked(ms, n, i, j);
    if !Bridged(ms) {
      SharersFold(ms, n + 1, i, n);
      SharersFold(ms, n + 1, j, n);
      EntryIsLinked(ms, n, i, j);
    }
  }

  /** Fully keyed copies never bridge. */
  lemma ConsistentNeverBridged(ms: seq<Object>)
    requires Consistent(ms)
    ensures !Bridged(ms)
  {
    hide Keys, Fold, Inv, Consistent;
    forall n: nat | n < |ms| ensures !BridgesAt(ms, n) {
      var s := Fold(ms[..n]);
      ConsistentPrefix(ms, n);
      FoldKeepsInv(ms[..n]);
      forall a, b | a in Keys(ms[n]) && b in Keys(ms[n]) && a in s.positions && b in s.positions
        ensures s.positions[a] == s.positions[b]
      {
        AliasesLeadToOne(ms, n, s, a, b);
      }
    }
  }

  lemma AliasesLeadToOne(ms: seq<Object>, n: nat, s: State, a: Alias, b: Alias)
    requires Consistent(ms) && n < |ms| && Inv(ms[..n], s)
    requires a in Keys(ms[n]) && b in Keys(ms[n]) && a in s.positions && b in s.positions
    ensures s.positions[a] == s.positions[b]
  {
    hide Keys, Formal, Overlay, Ident, Consistent, Folded;
    var entry := s.result[s.positions[a]];
    assert DrawnFrom(ms[..n], entry);
    var j: nat :| j < n && Keys(ms[..n][j]) == Keys(entry);
    assert ms[..n][j] == ms[j];
    SharedMeansSame(ms, j, n, a);
    assert b in Keys(entry);
  }

  // ---------- partly keyed copies ----------

  /** A bridge does happen: a copy with the id alone and a copy with the client id alone stay two entries,
      even after a copy that carries both. */
  lemma PartlyKeyedCopiesStayApart(room: int, id: int, sender: int, client: string)
    requires id > 0 && client != ""
    ensures var stored: Object := map["room_id" := Num(room), "id" := Num(id)];
            var sent: Object := map["room_id" := Num(room), "sender_id" := Num(sender), "client_msg_id" := Str(client)];
            var full: Object := stored + sent;
            && Shares(stored, full) && Shares(sent, full) && |Fold([stored, sent, full]).result| == 2
            && Bridged([stored, sent, full])
  {
    var stored: Object := map["room_id" := Num(room), "id" := Num(id)];
    var sent: Object := map["room_id" := Num(room), "sender_id" := Num(sender), "client_msg_id" := Str(client)];
    var full: Object := stored + sent;
    hide Keys, Step;
    var byId, byClient := ById(Num(room), id), ByClient(Num(room), Num(sender), client);
    PartlyKeyed(room, id, sender, client);
    assert byId in Keys(full) && byClient in Keys(full);
    var one, two, three := [stored], [stored, sent], [stored, sent, full];
    assert one[..0] == [] && two[..1] == one && three[..2] == two;
    StepNew(Fold([]), stored);
    StepNew(Fold(one), sent);
    StepKnown(Fold(two), full);
    assert Fold(two).positions == map[byId := 0, byClient := 1];
    assert BridgesAt(three, 2);
  }

  lemma PartlyKeyed(room: int, id: int, sender: int, client: string)
    requires id > 0 && client != ""
    ensures var stored: Object := map["room_id" := Num(room), "id" := Num(id)];
            var sent: Object := map["room_id" := Num(room), "sender_id" := Num(sender), "client_msg_id" := Str(client)];
            var byId, byClient := ById(Num(room), id), ByClient(Num(room), Num(sender), client);
            Keys(stored) == [byId] && Keys(sent) == [byClient] && Keys(stored + sent) == [byId, byClient]
  {
  }

  lemma StepNew(s: State, m: Object)
    requires StateOk(s) && |Keys(m)| == 1 && Keys(m)[0] !in s.positions
    ensures Step(s, m) == State(s.result + [m], s.positions[Keys(m)[0] := |s.result|])
  {
    hide Keys;
    var aliases := Keys(m);
    assert aliases[1..] == [] && aliases[..0] == [];
    assert Find(aliases, s.positions) == None;
    assert Record(aliases[..0], s.positions, |s.result|) == s.positions;
    assert Record(aliases, s.positions, |s.result|) == s.positions[aliases[0] := |s.result|];
  }

  lemma StepKnown(s: State, m: Object)
    requires StateOk(s) && |Keys(m)| > 0 && Keys(m)[0] in s.positions
    ensures |Step(s, m).result| == |s.result|
  {
    hide Keys;
  }

  // ---------- any messages, keyed fully or not ----------

  /** Two messages share an alias iff they are of one room and agree on a positive id, on a positive number,
      or on sender and client id; the sender is `sender_id`, or `user_id` where that is missing. */
  lemma SharesIff(a: Object, b: Object)
    ensures Shares(a, b) <==>
              && Field(a, "room_id") == Field(b, "room_id")
              && (|| Id(a) == Id(b) > 0
                  || Number(a) == Number(b) > 0
                  || (&& HasClient(a) && Field(a, "client_msg_id") == Field(b, "client_msg_id")
                      && (if Field(a, "sender_id") == Null then Field(a, "user_id") else Field(a, "sender_id"))
                         == (if Field(b, "sender_id") == Null then Field(b, "user_id") else Field(b, "sender_id"))))
  {
    hide Id, Number, Keys, Shares;
    KeysOf(a);
    KeysOf(b);
    SharesKinds(a, b);
    var room := Field(a, "room_id");
    if room == Field(b, "room_id") {
      if Id(a) == Id(b) > 0 {
        assert ById(room, Id(a)) in Keys(a) && ById(room, Id(a)) in Keys(b);
      }
      if Number(a) == Number(b) > 0 {
        assert BySeq(room, Number(a)) in Keys(a) && BySeq(room, Number(a)) in Keys(b);
      }
      if HasClient(a) && Field(a, "client_msg_id") == Field(b, "client_msg_id") && Sender(a) == Sender(b) {
        var x := ByClient(room, Sender(a), Field(a, "client_msg_id").s);
        assert x in Keys(a) && x in Keys(b);
      }
    }
  }

  lemma KeysOf(m: Object)
    ensures forall room, id :: ById(room, id) in Keys(m) <==> room == Field(m, "room_id") && id == Id(m) > 0
    ensures forall room, number ::
              BySeq(room, number) in Keys(m) <==> room == Field(m, "room_id") && number == Number(m) > 0
    ensures forall room, sender, client ::
              ByClient(room, sender, client) in Keys(m) <==>
                && room == Field(m, "room_id") && sender == Sender(m)
                && HasClient(m) && Field(m, "client_msg_id") == Str(client)
  {
    hide Id, Number, Sender;
  }

  lemma SharesKinds(a: Object, b: Object)
    ensures Shares(a, b) <==>
              || (exists room, id :: ById(room, id) in Keys(a) && ById(room, id) in Keys(b))
              || (exists room, number :: BySeq(room, number) in Keys(a) && BySeq(room, number) in Keys(b))
              || (exists room, sender, client ::
                    ByClient(room, sender, client) in Keys(a) && ByClient(room, sender, client) in Keys(b))
  {
    hide Keys;
    if Shares(a, b) {
      var x :| x in Keys(a) && x in Keys(b);
      match x {
        case ById(room, id) => assert ById(room, id) in Keys(a);
        case BySeq(room, number) => assert BySeq(room, number) in Keys(a);
        case ByClient(room, sender, client) => assert ByClient(room, sender, client) in Keys(a);
      }
    }
  }

  lemma {:induction false} FindIsFirst(aliases: seq<Alias>, positions: map<Alias, nat>, k: nat)
    requires k < |aliases| && aliases[k] in positions && forall j :: 0 <= j < k ==> aliases[j] !in positions
    ensures Find(aliases, positions) == Some(positions[aliases[k]])
  {
    if k > 0 {
      FindIsFirst(aliases[1..], positions, k - 1);
    }
  }

  /** A message goes where its id leads, else where its number leads, else where its client id leads. */
  lemma StrongestAliasLeads(ms: seq<Object>, i: nat, a: Alias)
    requires i < |ms| && a in Keys(ms[i])
    requires var p := Fold(ms[..i]).positions;
             a in p && match a
                       case ById(_, _) => true
                       case BySeq(room, _) => ById(room, Id(ms[i])) !in p
                       case ByClient(room, _, _) => ById(room, Id(ms[i])) !in p && BySeq(room, Number(ms[i])) !in p
    ensures EntryOfMessage(ms, i) == Fold(ms[..i]).positions[a]
  {
    hide Id, Number, Fold;
    var k :| 0 <= k < |Keys(ms[i])| && Keys(ms[i])[k] == a;
    FindIsFirst(Keys(ms[i]), Fold(ms[..i]).positions, k);
  }

  lemma FoldPush(ms: seq<Object>)
    requires |ms| > 0
    ensures var n := |ms| - 1;
            var e, before, after := EntryOfMessage(ms, n), Fold(ms[..n]).result, Fold(ms).result;
            && e <= |before| && |after| == (if e == |before| then e + 1 else |before|)
            && after[e] == (if e == |before| then ms[n] else ms[n] + before[e])
            && forall k :: 0 <= k < |after| && k != e ==> after[k] == before[k]
  {
    hide Keys, Find, Record;
    var n := |ms| - 1;
    FindInRange(Keys(ms[n]), Fold(ms[..n]));
    FindBelow(ms);
  }

  lemma FindBelow(ms: seq<Object>)
    requires |ms| > 0
    ensures var f := Find(Keys(ms[|ms| - 1]), Fold(ms[..|ms| - 1]).positions);
            f.Some? ==> f.value < |Fold(ms[..|ms| - 1]).result|
  {
    hide Keys, Find;
    FindInRange(Keys(ms[|ms| - 1]), Fold(ms[..|ms| - 1]));
  }

  lemma EntryInPrefix(ms: seq<Object>, n: nat, i: nat)
    requires i < n <= |ms|
    ensures EntryOfMessage(ms[..n], i) == EntryOfMessage(ms, i)
  {
    hide Keys, Find, Fold;
    assert ms[..n][..i] == ms[..i];
  }

  /** Message `i` is the first of those put into entry `e` that has the field. */
  ghost predicate FirstWith(ms: seq<Object>, e: nat, name: string, i: nat) {
    && i < |ms| && EntryOfMessage(ms, i) == e && name in ms[i]
    && forall k: nat :: k < i && EntryOfMessage(ms, k) == e ==> name !in ms[k]
  }

  /** An entry has the fields of the messages put into it, each as the first of them that has it says. */
  lemma {:induction false} EntryFields(ms: seq<Object>, e: nat, name: string)
    requires e < |Fold(ms).result|
    ensures name in Fold(ms).result[e] <==> exists i: nat :: FirstWith(ms, e, name, i)
    ensures forall i: nat :: FirstWith(ms, e, name, i) ==> Fold(ms).result[e][name] == ms[i][name]
  {
    hide Fold, EntryOfMessage;
    if |ms| == 0 {
      NothingFolded(ms);
    } else {
      var n := |ms| - 1;
      var head := ms[..n];
      FoldPush(ms);
      forall i: nat | i < n ensures EntryOfMessage(head, i) == EntryOfMessage(ms, i) { EntryInPrefix(ms, n, i); }
      if e < |Fold(head).result| {
        EntryFields(head, e, name);
        FirstGrows(ms, e, name);
      } else {
        forall i: nat | i < n ensures EntryOfMessage(ms, i) != e { EntriesAreBelow(ms, n, i); }
        assert EntryOfMessage(ms, n) == e;
        assert FirstWith(ms, e, name, n) <==> name in ms[n];
      }
    }
  }

  lemma NothingFolded(ms: seq<Object>)
    requires |ms| == 0
    ensures Fold(ms).result == []
  {
  }

  lemma FirstGrows(ms: seq<Object>, e: nat, name: string)
    requires |ms| > 0
    ensures var n := |ms| - 1;
            && (forall i: nat :: i < n ==> (FirstWith(ms[..n], e, name, i) <==> FirstWith(ms, e, name, i)))
            && (FirstWith(ms, e, name, n) <==>
                  EntryOfMessage(ms, n) == e && name in ms[n] && !exists i: nat :: FirstWith(ms[..n], e, name, i))
  {
    hide EntryOfMessage;
    var n := |ms| - 1;
    forall i: nat | i < n ensures EntryOfMessage(ms[..n], i) == EntryOfMessage(ms, i) { EntryInPrefix(ms, n, i); }
    if k: nat :| k < n && EntryOfMessage(ms, k) == e && name in ms[k] {
      var f := FirstOf(ms, e, name, k);
      assert FirstWith(ms[..n], e, name, f);
    }
  }

  lemma {:induction false} FirstOf(ms: seq<Object>, e: nat, name: string, k: nat) returns (f: nat)
    requires k < |ms| && EntryOfMessage(ms, k) == e && name in ms[k]
    ensures f <= k && FirstWith(ms, e, name, f)
  {
    hide EntryOfMessage;
    f := k;
    if j: nat :| j < k && EntryOfMessage(ms, j) == e && name in ms[j] {
      f := FirstOf(ms, e, name, j);
    }
  }

  /** By number, then by id. */
  predicate NotAfter(a: Object, b: Object) {
    Number(a) < Number(b) || (Number(a) == Number(b) && Id(a) <= Id(b))
  }

  predicate InOrder(s: seq<Object>) {
    forall i, j :: 0 <= i < j < |s| ==> NotAfter(s[i], s[j])
  }

  lemma BeforeOrders(a: Object, b: Object, collate: (Value, Value) -> bool)
    ensures if Before(a, b, collate) then NotAfter(a, b) else NotAfter(b, a)
  {
  }

  lemma NotAfterChains(a: Object, b: Object, c: Object)
    requires NotAfter(a, b) && NotAfter(b, c)
    ensures NotAfter(a, c)
  {
  }

  lemma {:induction false} InsertAdds(x: Object, s: seq<Object>, collate: (Value, Value) -> bool)
    ensures multiset(Insert(x, s, collate)) == multiset(s) + multiset{x}
  {
    hide Before;
    if |s| > 0 && !Before(x, s[0], collate) {
      InsertAdds(x, s[1..], collate);
      assert s == [s[0]] + s[1..];
    }
  }

  lemma InOrderPush(x: Object, s: seq<Object>)
    requires InOrder(s) && forall y :: y in s ==> NotAfter(x, y)
    ensures InOrder([x] + s)
  {
    hide NotAfter;
  }

  lemma InOrderTail(s: seq<Object>)
    requires InOrder(s) && |s| > 0
    ensures InOrder(s[1..]) && forall y :: y in s[1..] ==> NotAfter(s[0], y)
  {
    hide NotAfter;
    forall y | y in s[1..] ensures NotAfter(s[0], y) {
      var k :| 0 <= k < |s| - 1 && s[1..][k] == y;
      assert y == s[k + 1];
    }
  }

  lemma {:induction false} InsertInOrder(x: Object, s: seq<Object>, collate: (Value, Value) -> bool)
    requires InOrder(s)
    ensures InOrder(Insert(x, s, collate))
  {
    hide NotAfter, Before, InOrder;
    if |s| == 0 {
      assert InOrder([x]) by { OneInOrder(x); }
    } else {
      InOrderTail(s);
      BeforeOrders(x, s[0], collate);
      if Before(x, s[0], collate) {
        forall y | y in s ensures NotAfter(x, y) {
          if y != s[0] { NotAfterChains(x, s[0], y); }
        }
        InOrderPush(x, s);
      } else {
        InsertInOrder(x, s[1..], collate);
        InsertMembers(x, s[1..], collate);
        InOrderPush(s[0], Insert(x, s[1..], collate));
      }
    }
  }

  lemma OneInOrder(x: Object)
    ensures InOrder([x])
  {
  }

  lemma {:induction false} SortInOrder(s: seq<Object>, collate: (Value, Value) -> bool)
    ensures InOrder(Sort(s, collate)) && multiset(Sort(s, collate)) == multiset(s)
  {
    hide Insert, NotAfter;
    if |s| > 0 {
      var n := |s| - 1;
      SortInOrder(s[..n], collate);
      InsertInOrder(s[n], Sort(s[..n], collate), collate);
      InsertAdds(s[n], Sort(s[..n], collate), collate);
      assert s == s[..n] + [s[n]];
    }
  }

  /** A comparison as a locale's: asymmetric, and what is not before never comes before through a third. */
  ghost predicate StrictWeak(collate: (Value, Value) -> bool) {
    && (forall a, b :: collate(a, b) ==> !collate(b, a))
    && (forall a, b, c :: !collate(a, b) && !collate(b, c) ==> !collate(a, c))
  }

  ghost predicate Settled(s: seq<Object>, collate: (Value, Value) -> bool) {
    forall i, j :: 0 <= i < j < |s| ==> !Before(s[j], s[i], collate)
  }

  lemma BeforeIsStrictWeak(a: Object, b: Object, c: Object, collate: (Value, Value) -> bool)
    requires StrictWeak(collate)
    ensures Before(a, b, collate) ==> !Before(b, a, collate)
    ensures !Before(a, b, collate) && !Before(b, c, collate) ==> !Before(a, c, collate)
  {
    hide Number, Id, Field;
  }

  lemma {:induction false} InsertSettles(x: Object, s: seq<Object>, collate: (Value, Value) -> bool)
    requires Settled(s, collate) && StrictWeak(collate)
    ensures Settled(Insert(x, s, collate), collate)
  {
    hide Before, StrictWeak;
    if |s| > 0 {
      if Before(x, s[0], collate) {
        BeforeIsStrictWeak(x, s[0], x, collate);
        forall k | 0 <= k < |s| ensures !Before(s[k], x, collate) {
          BeforeIsStrictWeak(s[k], s[0], x, collate);
        }
      } else {
        InsertSettles(x, s[1..], collate);
        InsertMembers(x, s[1..], collate);
        var rest := Insert(x, s[1..], collate);
        forall k | 0 <= k < |rest| ensures !Before(rest[k], s[0], collate) { assert rest[k] in rest; }
      }
    }
  }

  lemma {:induction false} SortSettles(s: seq<Object>, collate: (Value, Value) -> bool)
    requires StrictWeak(collate)
    ensures Settled(Sort(s, collate), collate)
  {
    hide Insert, Before, StrictWeak;
    if |s| > 0 {
      SortSettles(s[..|s| - 1], collate);
      InsertSettles(s[|s| - 1], Sort(s[..|s| - 1], collate), collate);
    }
  }

  /** Whatever the messages carry, the view holds each entry once, ordered by number, then by id, then by
      creation time. */
  lemma MergeIsInOrder(ms: seq<Object>, collate: (Value, Value) -> bool)
    ensures InOrder(Merge(ms, collate)) && multiset(Merge(ms, collate)) == multiset(Fold(ms).result)
    ensures var r := Merge(ms, collate);
            StrictWeak(collate) ==>
              forall i, j :: 0 <= i < j < |r| && Number(r[i]) == Number(r[j]) && Id(r[i]) == Id(r[j]) ==>
                !collate(Field(r[j], "created_at"), Field(r[i], "created_at"))
  {
    hide Fold, Number, Id, StrictWeak, Sort;
    SortInOrder(Fold(ms).result, collate);
    if StrictWeak(collate) {
      SortSettles(Fold(ms).result, collate);
    }
  }
}
