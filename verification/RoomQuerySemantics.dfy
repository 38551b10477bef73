/** What an accepted statement can read: a relational semantics for the statements of `RoomQuery`, and
    the soundness of acceptance for every database, room and interpretation of the other operators. */
module RoomQuerySemantics {
  import opened Envelopes
  import opened RoomQuery

  type Row = map<string, Value>

  type Db = map<string, set<Row>>

  /** A joined tuple: the row of each alias, `None` where an outer join found no partner. */
  type Binding = map<string, Option<Row>>

  /** Any total meaning of the operators the validator does not look into. */
  type Interp = (string, seq<Value>) -> Value

  /** The room the marker is bound to and the meaning of the other operators. */
  datatype Env = Env(room: int, interp: Interp)

  function Rows(db: Db, table: string): set<Row> {
    if table in db then db[table] else {}
  }

  function Get(r: Row, column: string): Value {
    if column in r then r[column] else Null
  }

  function Lookup(t: Binding, alias: string, column: string): Value {
    if alias in t && t[alias].Some? then Get(t[alias].value, column) else Null
  }

  /** The truth of a value as a condition; NULL is unknown. */
  function Truth(v: Value, env: Env): Option<bool> {
    match v
    case Null => None
    case Num(n) => Some(n != 0)
    case Text(_) => Some(env.interp("bool", [v]) != Num(0))
  }

  function Bool(b: bool): Value {
    Num(if b then 1 else 0)
  }

  function EqValue(a: Value, b: Value, env: Env): Value {
    if a == Null || b == Null then Null
    else if a.Num? && b.Num? then Bool(a.n == b.n)
    else env.interp("=", [a, b])
  }

  function AndValue(a: Value, b: Value, env: Env): Value {
    var x, y := Truth(a, env), Truth(b, env);
    if x == Some(false) || y == Some(false) then Bool(false)
    else if x.None? || y.None? then Null
    else Bool(true)
  }

  function Eval(e: Expr, t: Binding, env: Env): Value
    decreases e, 1
  {
    match e
    case Column(table, name) =>
      if IsRoomMarker(e) then Num(env.room) else Lookup(t, Lower(table), Lower(name))
    case Literal(v) => v
    case Eq(l, r) => EqValue(Eval(l, t, env), Eval(r, t, env), env)
    case And(l, r) => AndValue(Eval(l, t, env), Eval(r, t, env), env)
    case Paren(i) => Eval(i, t, env)
    case Node(op, args) => env.interp(op, EvalAll(args, t, env))
  }

  function EvalAll(es: seq<Expr>, t: Binding, env: Env): (vs: seq<Value>)
    ensures |vs| == |es|
    decreases es, 0
  {
    if |es| == 0 then [] else [Eval(es[0], t, env)] + EvalAll(es[1..], t, env)
  }

  predicate Passes(e: Expr, t: Binding, env: Env) {
    Truth(Eval(e, t, env), env) == Some(true)
  }

  predicate Matches(clause: Option<Expr>, t: Binding, env: Env) {
    clause.Some? ==> Passes(clause.value, t, env)
  }

  /** The first `n + 1` tables, all without a row. */
  function NoRows(q: Select, n: nat): Binding
    requires n <= |q.joins|
  {
    if n == 0 then map[AliasOf(q.from) := None]
    else NoRows(q, n - 1)[AliasOf(q.joins[n - 1].table) := None]
  }

  /** No row matches the tuple. */
  predicate Unpaired(t: Binding, rows: set<Row>, alias: string, on: Option<Expr>, env: Env) {
    forall r :: r in rows ==> !Matches(on, t[alias := Some(r)], env)
  }

  /** No tuple matches the row. */
  predicate Alone(r: Row, left: set<Binding>, alias: string, on: Option<Expr>, env: Env) {
    forall t :: t in left ==> !Matches(on, t[alias := Some(r)], env)
  }

  /** One join of the tuples `left` with the rows of a table; `blank` is a tuple without rows. */
  ghost function JoinStep(left: set<Binding>, blank: Binding, rows: set<Row>, j: Join, env: Env): set<Binding> {
    var alias := AliasOf(j.table);
    var matched := set t, r | t in left && r in rows && Matches(j.on, t[alias := Some(r)], env) :: t[alias := Some(r)];
    match j.kind
    case Inner => matched
    case Cross => matched
    case Left => matched + set t | t in left && Unpaired(t, rows, alias, j.on, env) :: t[alias := None]
    case Right => matched + set r | r in rows && Alone(r, left, alias, j.on, env) :: blank[alias := Some(r)]
  }

  /** The tuples after the first `n` joins. */
  ghost function Tuples(db: Db, q: Select, n: nat, env: Env): set<Binding>
    requires n <= |q.joins|
  {
    if n == 0 then
      set r | r in Rows(db, Lower(q.from.name)) :: map[AliasOf(q.from) := Some(r)]
    else
      var j := q.joins[n - 1];
      JoinStep(Tuples(db, q, n - 1, env), NoRows(q, n - 1), Rows(db, Lower(j.table.name)), j, env)
  }

  /** The tuples that reach projection, grouping and ordering. */
  ghost function Qualifying(db: Db, q: Select, env: Env): set<Binding> {
    set t | t in Tuples(db, q, |q.joins|, env) && Matches(q.where, t, env)
  }

  // ---------- conditions ----------

  /** AND passes iff both sides do, parentheses change nothing, and an equality of numeric values passes iff
      both are there and equal. */
  lemma ConditionsMean(l: Expr, r: Expr, t: Binding, env: Env)
    ensures Passes(And(l, r), t, env) <==> Passes(l, t, env) && Passes(r, t, env)
    ensures Eval(Paren(l), t, env) == Eval(l, t, env)
    ensures var a, b := Eval(l, t, env), Eval(r, t, env);
            IsNumber(a) && IsNumber(b) ==> (Passes(Eq(l, r), t, env) <==> a == b && a != Null)
  {
  }

  /** A condition that holds makes each of its terms hold. */
  lemma {:induction false} ConjunctPasses(e: Expr, c: Expr, t: Binding, env: Env)
    requires Passes(e, t, env) && Conjunct(e, c)
    ensures Passes(c, t, env)
  {
    if c != e {
      if e.And? {
        if Conjunct(e.left, c) {
          ConjunctPasses(e.left, c, t, env);
        } else {
          ConjunctPasses(e.right, c, t, env);
        }
      } else {
        ConjunctPasses(e.inner, c, t, env);
      }
    }
  }

  lemma LowerTwice(s: string)
    ensures Lower(Lower(s)) == Lower(s)
  {
  }

  lemma LowerNames()
    ensures Lower("id") == "id" && Lower("user_id") == "user_id" && Lower("room_id") == "room_id"
  {
  }

  predicate IsNumber(v: Value) {
    v == Null || v.Num?
  }

  /** Room and user references are numbers or NULL, as their BIGINT columns are. */
  predicate Typed(db: Db, schema: Schema) {
    && (forall table, r :: table in schema && table != "users" && schema[table].scope.Some? && r in Rows(db, table) ==>
          IsNumber(Get(r, schema[table].scope.value)))
    && (forall r :: r in Rows(db, "users") ==> IsNumber(Get(r, "id")))
    && (forall r :: r in Rows(db, "room_members") ==> IsNumber(Get(r, "user_id")))
  }

  /** An equality of two numeric columns that holds makes them equal numbers. */
  lemma EqualityHolds(a: Value, b: Value, env: Env)
    requires IsNumber(a) && IsNumber(b) && Truth(EqValue(a, b, env), env) == Some(true)
    ensures a == b && a.Num?
  {
  }

  lemma ColumnValue(e: Expr, alias: string, column: string, t: Binding, env: Env)
    requires IsColumn(e, alias, column) && !IsRoomMarker(e) && Lower(alias) == alias && Lower(column) == column
    ensures Eval(e, t, env) == Lookup(t, alias, column)
  {
  }

  // ---------- tuples ----------

  function Alias(q: Select, i: nat): string
    requires i < |Tables(q)|
  {
    AliasOf(Tables(q)[i])
  }

  function Name(q: Select, i: nat): string
    requires i < |Tables(q)|
  {
    Lower(Tables(q)[i].name)
  }

  /** Each of the first `n + 1` aliases is bound, to a row of its own table if to any. */
  ghost predicate Shaped(db: Db, q: Select, n: nat, t: Binding)
    requires n <= |q.joins|
  {
    forall i: nat :: i <= n ==>
      && Alias(q, i) in t
      && (t[Alias(q, i)].Some? ==> t[Alias(q, i)].value in Rows(db, Name(q, i)))
  }

  predicate DistinctAliases(q: Select) {
    forall i: nat, j: nat :: i < j < |Tables(q)| ==> Alias(q, i) != Alias(q, j)
  }

  lemma {:induction false} NoRowsShaped(db: Db, q: Select, n: nat)
    requires n <= |q.joins| && DistinctAliases(q)
    ensures Shaped(db, q, n, NoRows(q, n))
    ensures forall i: nat :: i <= n ==> NoRows(q, n)[Alias(q, i)] == None
  {
    hide AliasOf, Rows;
    if n > 0 {
      NoRowsShaped(db, q, n - 1);
      assert Alias(q, n) == AliasOf(q.joins[n - 1].table);
    }
  }

  lemma ExtendShaped(db: Db, q: Select, n: nat, t: Binding, r: Option<Row>)
    requires 0 < n <= |q.joins| && DistinctAliases(q) && Shaped(db, q, n - 1, t)
    requires r.Some? ==> r.value in Rows(db, Name(q, n))
    ensures Shaped(db, q, n, t[Alias(q, n) := r])
    ensures forall i: nat :: i < n ==> t[Alias(q, n) := r][Alias(q, i)] == t[Alias(q, i)]
  {
  }

  lemma {:induction false} TuplesShaped(db: Db, q: Select, n: nat, env: Env, t: Binding)
    requires n <= |q.joins| && DistinctAliases(q) && t in Tuples(db, q, n, env)
    ensures Shaped(db, q, n, t)
  {
    hide Matches, Shaped, DistinctAliases, Tuples, NoRows, Rows;
    if n == 0 {
      FirstShaped(db, q, t, env);
    } else {
      var left, from, origin := JoinParts(db, q, n, env, t);
      if origin == NoPartner {
        NoRowsShaped(db, q, n - 1);
      } else {
        TuplesShaped(db, q, n - 1, env, left);
      }
      ExtendShaped(db, q, n, left, from);
    }
  }

  lemma FirstShaped(db: Db, q: Select, t: Binding, env: Env)
    requires t in Tuples(db, q, 0, env)
    ensures Shaped(db, q, 0, t)
  {
  }

  /** Where a joined tuple comes from: a match, a left row without partner, a right row without partner. */
  datatype Origin = Matched | LeftOnly | NoPartner

  lemma StepParts(before: set<Binding>, blank: Binding, rows: set<Row>, j: Join, env: Env, t: Binding)
    returns (left: Binding, from: Option<Row>, origin: Origin)
    requires t in JoinStep(before, blank, rows, j, env)
    ensures t == left[AliasOf(j.table) := from] && (from.Some? ==> from.value in rows)
    ensures match origin
            case Matched => left in before && from.Some? && Matches(j.on, t, env)
            case LeftOnly =>
              left in before && from.None? && j.kind == Left && Unpaired(left, rows, AliasOf(j.table), j.on, env)
            case NoPartner =>
              left == blank && from.Some? && j.kind == Right && Alone(from.value, before, AliasOf(j.table), j.on, env)
  {
    hide Matches, Unpaired, Alone, AliasOf;
    var alias := AliasOf(j.table);
    if l, r :| l in before && r in rows && Matches(j.on, l[alias := Some(r)], env) && t == l[alias := Some(r)] {
      left, from, origin := l, Some(r), Matched;
    } else if l :| j.kind == Left && l in before && Unpaired(l, rows, alias, j.on, env) && t == l[alias := None] {
      left, from, origin := l, None, LeftOnly;
    } else {
      var r :| r in rows && Alone(r, before, alias, j.on, env) && t == blank[alias := Some(r)];
      left, from, origin := blank, Some(r), NoPartner;
    }
  }

  lemma JoinParts(db: Db, q: Select, n: nat, env: Env, t: Binding)
    returns (left: Binding, from: Option<Row>, origin: Origin)
    requires 0 < n <= |q.joins| && t in Tuples(db, q, n, env)
    ensures t == left[Alias(q, n) := from]
    ensures from.Some? ==> from.value in Rows(db, Name(q, n))
    ensures match origin
            case Matched => left in Tuples(db, q, n - 1, env) && from.Some? && Matches(q.joins[n - 1].on, t, env)
            case LeftOnly => left in Tuples(db, q, n - 1, env) && from.None? && q.joins[n - 1].kind == Left
            case NoPartner => left == NoRows(q, n - 1) && from.Some? && q.joins[n - 1].kind == Right
  {
    hide Matches, JoinStep, AliasOf, Lower, Rows;
    var j := q.joins[n - 1];
    assert Alias(q, n) == AliasOf(j.table) && Name(q, n) == Lower(j.table.name);
    left, from, origin :=
      StepParts(Tuples(db, q, n - 1, env), NoRows(q, n - 1), Rows(db, Lower(j.table.name)), j, env, t);
  }

  // ---------- soundness of acceptance ----------

  lemma AliasIsProper(schema: Schema, q: Select, i: nat)
    requires SchemaOk(schema) && TablesKnown(schema, Tables(q)) && i < |Tables(q)|
    ensures Lower(Alias(q, i)) == Alias(q, i) && Alias(q, i) != "" && Name(q, i) in schema && DistinctAliases(q)
  {
    var table := Tables(q)[i];
    LowerTwice(if table.alias == "" then table.name else table.alias);
    assert Lower(table.name) != "";
  }

  /** In a tuple that passes WHERE, every table but `users` contributes a row of the current room,
      whatever the joins are: the room equality is not true of a missing row. */
  lemma ScopedRowsAreInRoom(schema: Schema, db: Db, q: Select, env: Env, t: Binding, i: nat)
    requires SchemaOk(schema) && Accepts(schema, q) && Typed(db, schema)
    requires t in Qualifying(db, q, env) && i < |Tables(q)| && Name(q, i) != "users"
    ensures Name(q, i) in schema && Alias(q, i) in t && t[Alias(q, i)].Some?
    ensures t[Alias(q, i)].value in Rows(db, Name(q, i))
    ensures Get(t[Alias(q, i)].value, schema[Name(q, i)].scope.value) == Num(env.room)
  {
    hide Tuples, Conjunct, Lower;
    AliasIsProper(schema, q, i);
    TuplesShaped(db, q, |q.joins|, env, t);
    var alias, column := Alias(q, i), schema[Name(q, i)].scope.value;
    assert Scoped(q.where, alias, column);
    var c :| Conjunct(q.where.value, c) && IsScopeEquality(c, alias, column);
    ConjunctPasses(q.where.value, c, t, env);
    ScopeEqualityBinds(c, alias, column, t, env);
  }

  lemma ScopeEqualityBinds(c: Expr, alias: string, column: string, t: Binding, env: Env)
    requires IsScopeEquality(c, alias, column) && Passes(c, t, env) && alias != ""
    requires Lower(alias) == alias && Lower(column) == column && IsNumber(Lookup(t, alias, column))
    ensures Lookup(t, alias, column) == Num(env.room)
  {
    hide Lookup;
    var room := Num(env.room);
    if IsColumn(c.left, alias, column) && IsRoomMarker(c.right) {
      assert |Lower(c.left.table)| == |c.left.table|;
      ColumnValue(c.left, alias, column, t, env);
      assert Eval(c.right, t, env) == room;
      EqualityHolds(Lookup(t, alias, column), room, env);
    } else {
      assert |Lower(c.right.table)| == |c.right.table|;
      ColumnValue(c.right, alias, column, t, env);
      assert Eval(c.left, t, env) == room;
      EqualityHolds(room, Lookup(t, alias, column), env);
    }
  }

  lemma LinkBinds(c: Expr, user: string, member: string, t: Binding, env: Env)
    requires IsLink(c, user, member) && Passes(c, t, env) && user != "" && member != ""
    requires Lower(user) == user && Lower(member) == member
    requires IsNumber(Lookup(t, user, "id")) && IsNumber(Lookup(t, member, "user_id"))
    ensures Lookup(t, user, "id") == Lookup(t, member, "user_id") && Lookup(t, user, "id").Num?
  {
    hide Lookup;
    LowerNames();
    var id, user_id := Lookup(t, user, "id"), Lookup(t, member, "user_id");
    assert |Lower(c.left.table)| == |c.left.table| && |Lower(c.right.table)| == |c.right.table|;
    if IsColumn(c.left, user, "id") && IsColumn(c.right, member, "user_id") {
      ColumnValue(c.left, user, "id", t, env);
      ColumnValue(c.right, member, "user_id", t, env);
      EqualityHolds(id, user_id, env);
    } else {
      ColumnValue(c.right, user, "id", t, env);
      ColumnValue(c.left, member, "user_id", t, env);
      EqualityHolds(user_id, id, env);
    }
  }

  /** The user has a membership row in the room. */
  ghost predicate IsMember(db: Db, user: Row, room: int) {
    exists m :: m in Rows(db, "room_members") && Get(m, "room_id") == Num(room)
                && Get(m, "user_id") == Get(user, "id") && Get(user, "id").Num?
  }

  /** `p` agrees with `t` on the first `n + 1` aliases. */
  ghost predicate Agrees(q: Select, n: nat, p: Binding, t: Binding)
    requires n <= |q.joins|
  {
    forall i: nat :: i <= n ==> Alias(q, i) in p && Alias(q, i) in t && p[Alias(q, i)] == t[Alias(q, i)]
  }

  /** What a joined tuple says about the ON condition of join `j`: it held when the join was made, or
      the join found no partner for its left side, or a later right join dropped everything before it. */
  ghost predicate OnStory(db: Db, q: Select, env: Env, n: nat, t: Binding, j: nat)
    requires j < n <= |q.joins|
  {
    || (exists p :: p in Tuples(db, q, j + 1, env) && Matches(q.joins[j].on, p, env) && Agrees(q, j + 1, p, t))
    || (q.joins[j].kind == Left && Alias(q, j + 1) in t && t[Alias(q, j + 1)] == None)
    || (forall i: nat :: i <= j ==> Alias(q, i) in t && t[Alias(q, i)] == None)
  }

  lemma {:induction false} OnHeld(db: Db, q: Select, n: nat, env: Env, t: Binding, j: nat)
    requires j < n <= |q.joins| && DistinctAliases(q) && t in Tuples(db, q, n, env)
    ensures OnStory(db, q, env, n, t, j)
  {
    hide Tuples, Matches, DistinctAliases, Alias, Name, NoRows;
    var left, from, origin := JoinParts(db, q, n, env, t);
    TuplesShaped(db, q, n, env, t);
    if origin == NoPartner {
      NoRowsShaped(db, q, n - 1);
      ExtendShaped(db, q, n, left, from);
      assert forall i: nat :: i < n ==> t[Alias(q, i)] == None;
    } else if j == n - 1 {
      assert Agrees(q, j + 1, t, t);
    } else {
      OnHeld(db, q, n - 1, env, left, j);
      TuplesShaped(db, q, n - 1, env, left);
      ExtendShaped(db, q, n, left, from);
      StoryExtends(db, q, env, n, left, t, j);
    }
  }

  lemma StoryExtends(db: Db, q: Select, env: Env, n: nat, left: Binding, t: Binding, j: nat)
    requires j < n - 1 < |q.joins| && OnStory(db, q, env, n - 1, left, j)
    requires forall i: nat :: i < n ==> Alias(q, i) in t && Alias(q, i) in left && t[Alias(q, i)] == left[Alias(q, i)]
    ensures OnStory(db, q, env, n, t, j)
  {
    hide Tuples, Matches, Alias;
    if p :| p in Tuples(db, q, j + 1, env) && Matches(q.joins[j].on, p, env) && Agrees(q, j + 1, p, left) {
      assert Agrees(q, j + 1, p, t);
    }
  }

  /** ON conditions name tables joined by then, as the database itself demands. */
  predicate OnInScope(schema: Schema, q: Select) {
    forall j :: 0 <= j < |q.joins| && q.joins[j].on.Some? ==>
      ColumnsOk(q.joins[j].on.value, AliasMap(Tables(q)[..j + 2]), schema)
  }

  /** The link is a term of WHERE, or of the ON of a join, other than a LEFT JOIN of another users table. */
  ghost predicate Enforced(q: Select, user: string, member: string) {
    || LinkedBy(q.where, user, member)
    || exists j :: 0 <= j < |q.joins| && LinkedBy(q.joins[j].on, user, member)
                   && (q.joins[j].kind != Left || AliasOf(q.joins[j].table) == user
                      || Lower(q.joins[j].table.name) != "users")
  }

  lemma {:induction false} TermColumnsOk(e: Expr, c: Expr, aliases: map<string, string>, schema: Schema)
    requires ColumnsOk(e, aliases, schema) && Conjunct(e, c)
    ensures ColumnsOk(c, aliases, schema)
  {
    if c != e {
      if e.And? {
        if Conjunct(e.left, c) {
          TermColumnsOk(e.left, c, aliases, schema);
        } else {
          TermColumnsOk(e.right, c, aliases, schema);
        }
      } else {
        TermColumnsOk(e.inner, c, aliases, schema);
      }
    }
  }

  lemma {:induction false} AliasMapKeys(tables: seq<TableRef>, a: string)
    requires a in AliasMap(tables)
    ensures exists i: nat :: i < |tables| && AliasOf(tables[i]) == a
  {
    hide AliasOf;
    var n := |tables| - 1;
    if a != AliasOf(tables[n]) {
      AliasMapKeys(tables[..n], a);
      var i: nat :| i < n && AliasOf(tables[..n][i]) == a;
      assert tables[i] == tables[..n][i];
    }
  }

  /** Both ends of a link in ON `j` are tables joined by then. */
  lemma LinkInScope(schema: Schema, q: Select, j: nat, i: nat, k: nat, c: Expr)
    requires SchemaOk(schema) && TablesKnown(schema, Tables(q)) && OnInScope(schema, q)
    requires j < |q.joins| && q.joins[j].on.Some? && Conjunct(q.joins[j].on.value, c)
    requires i < |Tables(q)| && k < |Tables(q)| && IsLink(c, Alias(q, i), Alias(q, k))
    ensures i <= j + 1 && k <= j + 1
  {
    hide Lower, Conjunct, AliasOf, SchemaOk, TablesKnown, ColumnsOk;
    AliasIsProper(schema, q, i);
    AliasIsProper(schema, q, k);
    var seen := Tables(q)[..j + 2];
    TermColumnsOk(q.joins[j].on.value, c, AliasMap(seen), schema);
    LinkAliases(schema, c, Alias(q, i), Alias(q, k), AliasMap(seen));
    AliasMapKeys(seen, Alias(q, i));
    AliasMapKeys(seen, Alias(q, k));
    var x: nat :| x < |seen| && AliasOf(seen[x]) == Alias(q, i);
    var y: nat :| y < |seen| && AliasOf(seen[y]) == Alias(q, k);
    assert Alias(q, x) == Alias(q, i) && Alias(q, y) == Alias(q, k);
  }

  lemma LinkAliases(schema: Schema, c: Expr, user: string, member: string, aliases: map<string, string>)
    requires IsLink(c, user, member) && ColumnsOk(c, aliases, schema)
    requires Lower(user) == user && Lower(member) == member && user != "" && member != ""
    ensures user in aliases && member in aliases
  {
    assert |Lower(c.left.table)| == |c.left.table| && |Lower(c.right.table)| == |c.right.table|;
  }

  /** A link that holds of a user row and a membership row of the room makes the user a member. */
  lemma LinkMakesMember(schema: Schema, db: Db, q: Select, env: Env, n: nat, p: Binding, clause: Option<Expr>, i: nat,
                        k: nat)
    requires SchemaOk(schema) && TablesKnown(schema, Tables(q)) && Typed(db, schema)
    requires n <= |q.joins| && i <= n && k <= n && Shaped(db, q, n, p)
    requires Name(q, i) == "users" && Name(q, k) == "room_members"
    requires p[Alias(q, i)].Some? && p[Alias(q, k)].Some?
    requires Get(p[Alias(q, k)].value, "room_id") == Num(env.room)
    requires LinkedBy(clause, Alias(q, i), Alias(q, k)) && Matches(clause, p, env)
    ensures IsMember(db, p[Alias(q, i)].value, env.room)
  {
    hide Conjunct, Lower, IsLink, AliasOf, Passes;
    AliasIsProper(schema, q, i);
    AliasIsProper(schema, q, k);
    var user, member := Alias(q, i), Alias(q, k);
    var c :| Conjunct(clause.value, c) && IsLink(c, user, member);
    ConjunctPasses(clause.value, c, p, env);
    LinkBinds(c, user, member, p, env);
    var m := p[member].value;
    assert m in Rows(db, "room_members") && Get(m, "user_id") == Get(p[user].value, "id");
  }

  /** A link in an ON makes the users row of a qualifying tuple a member's, unless the join was a LEFT JOIN
      that found no partner for this tuple. */
  lemma JoinedUserIsMember(schema: Schema, db: Db, q: Select, env: Env, t: Binding, i: nat, k: nat, j: nat)
    requires SchemaOk(schema) && Accepts(schema, q) && Typed(db, schema) && OnInScope(schema, q)
    requires t in Qualifying(db, q, env) && i < |Tables(q)| && Name(q, i) == "users"
    requires k < |Tables(q)| && Name(q, k) == "room_members"
    requires j < |q.joins| && LinkedBy(q.joins[j].on, Alias(q, i), Alias(q, k))
    requires Alias(q, i) in t && t[Alias(q, i)].Some?
    requires q.joins[j].kind == Left ==> Alias(q, j + 1) in t && t[Alias(q, j + 1)].Some?
    ensures IsMember(db, t[Alias(q, i)].value, env.room)
  {
    hide Tuples, Lower, IsLink, OnInScope, Matches, AliasOf, LinkedBy, Conjunct, ColumnsOk, EveryScopeBound,
         EveryUserLinked;
    AliasIsProper(schema, q, i);
    ScopedRowsAreInRoom(schema, db, q, env, t, k);
    LinkIsInScope(schema, q, j, i, k);
    OnHeld(db, q, |q.joins|, env, t, j);
    var p :| p in Tuples(db, q, j + 1, env) && Matches(q.joins[j].on, p, env) && Agrees(q, j + 1, p, t);
    TuplesShaped(db, q, j + 1, env, p);
    LinkMakesMember(schema, db, q, env, j + 1, p, q.joins[j].on, i, k);
  }

  /** A users row of a qualifying tuple belongs to a member of the room, for every join kind, when its
      link is enforced. */
  lemma UserIsMember(schema: Schema, db: Db, q: Select, env: Env, t: Binding, i: nat, k: nat)
    requires SchemaOk(schema) && Accepts(schema, q) && Typed(db, schema) && OnInScope(schema, q)
    requires t in Qualifying(db, q, env) && i < |Tables(q)| && Name(q, i) == "users"
    requires k < |Tables(q)| && Name(q, k) == "room_members" && Enforced(q, Alias(q, i), Alias(q, k))
    requires Alias(q, i) in t && t[Alias(q, i)].Some?
    ensures IsMember(db, t[Alias(q, i)].value, env.room)
  {
    hide Tuples, Lower, IsLink, OnInScope, Matches, AliasOf, LinkedBy, Conjunct, ColumnsOk, EveryScopeBound,
         EveryUserLinked;
    if LinkedBy(q.where, Alias(q, i), Alias(q, k)) {
      AliasIsProper(schema, q, i);
      TuplesShaped(db, q, |q.joins|, env, t);
      ScopedRowsAreInRoom(schema, db, q, env, t, k);
      LinkMakesMember(schema, db, q, env, |q.joins|, t, q.where, i, k);
    } else {
      var j: nat :| j < |q.joins| && LinkedBy(q.joins[j].on, Alias(q, i), Alias(q, k))
                    && (|| q.joins[j].kind != Left || AliasOf(q.joins[j].table) == Alias(q, i)
                        || Lower(q.joins[j].table.name) != "users");
      assert Name(q, j + 1) == Lower(q.joins[j].table.name) && Alias(q, j + 1) == AliasOf(q.joins[j].table);
      if q.joins[j].kind == Left && AliasOf(q.joins[j].table) != Alias(q, i) {
        ScopedRowsAreInRoom(schema, db, q, env, t, j + 1);
      }
      JoinedUserIsMember(schema, db, q, env, t, i, k, j);
    }
  }

  lemma LinkIsInScope(schema: Schema, q: Select, j: nat, i: nat, k: nat)
    requires SchemaOk(schema) && TablesKnown(schema, Tables(q)) && OnInScope(schema, q)
    requires j < |q.joins| && i < |Tables(q)| && k < |Tables(q)| && LinkedBy(q.joins[j].on, Alias(q, i), Alias(q, k))
    ensures i <= j + 1 && k <= j + 1
  {
    hide Conjunct, IsLink, OnInScope, SchemaOk, TablesKnown;
    var c :| Conjunct(q.joins[j].on.value, c) && IsLink(c, Alias(q, i), Alias(q, k));
    LinkInScope(schema, q, j, i, k, c);
  }

  // ---------- deleting everything outside the room ----------

  predicate OnlyInner(q: Select) {
    forall j :: 0 <= j < |q.joins| ==> q.joins[j].kind == Inner || q.joins[j].kind == Cross
  }

  /** The row belongs to the room: by its own room column, or for a user by a membership. */
  ghost predicate InRoom(schema: Schema, db: Db, room: int, table: string, r: Row) {
    if table == "users" then IsMember(db, r, room)
    else table in schema && schema[table].scope.Some? && Get(r, schema[table].scope.value) == Num(room)
  }

  /** The database with every other row deleted. */
  ghost function Restrict(schema: Schema, db: Db, room: int): Db {
    map table | table in db :: set r | r in db[table] && InRoom(schema, db, room, table, r)
  }

  /** All rows of the first `n + 1` tables of a tuple are in the room. */
  ghost predicate AllInRoom(schema: Schema, db: Db, room: int, q: Select, n: nat, t: Binding)
    requires n <= |q.joins|
  {
    forall i: nat :: i <= n && Alias(q, i) in t && t[Alias(q, i)].Some? ==>
      InRoom(schema, db, room, Name(q, i), t[Alias(q, i)].value)
  }

  lemma {:induction false} FewerRowsFewerTuples(small: Db, db: Db, q: Select, n: nat, env: Env, t: Binding)
    requires n <= |q.joins| && OnlyInner(q) && (forall table :: Rows(small, table) <= Rows(db, table))
    requires t in Tuples(small, q, n, env)
    ensures t in Tuples(db, q, n, env)
  {
    hide Matches, Rows;
    if n > 0 {
      var left, from, origin := JoinParts(small, q, n, env, t);
      FewerRowsFewerTuples(small, db, q, n - 1, env, left);
      assert from.value in Rows(db, Name(q, n));
    }
  }

  lemma {:induction false} RoomTuplesRemain(schema: Schema, db: Db, q: Select, n: nat, env: Env, t: Binding)
    requires n <= |q.joins| && OnlyInner(q) && DistinctAliases(q)
    requires t in Tuples(db, q, n, env) && AllInRoom(schema, db, env.room, q, n, t)
    ensures t in Tuples(Restrict(schema, db, env.room), q, n, env)
  {
    hide Matches, InRoom, DistinctAliases, Shaped;
    var small := Restrict(schema, db, env.room);
    TuplesShaped(db, q, n, env, t);
    if n > 0 {
      var left, from, origin := JoinParts(db, q, n, env, t);
      TuplesShaped(db, q, n - 1, env, left);
      ExtendShaped(db, q, n, left, from);
      RoomTuplesRemain(schema, db, q, n - 1, env, left);
      RemainingRow(schema, db, env.room, q, n, t);
    } else {
      RemainingRow(schema, db, env.room, q, n, t);
    }
  }

  lemma RemainingRow(schema: Schema, db: Db, room: int, q: Select, n: nat, t: Binding)
    requires n <= |q.joins| && Shaped(db, q, n, t) && AllInRoom(schema, db, room, q, n, t)
    ensures t[Alias(q, n)].Some? ==> t[Alias(q, n)].value in Rows(Restrict(schema, db, room), Name(q, n))
  {
    hide InRoom;
  }

  /** For inner and cross joins, a row of a qualifying tuple is in the room. */
  lemma QualifyingInRoom(schema: Schema, db: Db, q: Select, env: Env, t: Binding)
    requires SchemaOk(schema) && Accepts(schema, q) && Typed(db, schema) && OnInScope(schema, q) && OnlyInner(q)
    requires t in Qualifying(db, q, env)
    ensures AllInRoom(schema, db, env.room, q, |q.joins|, t) && DistinctAliases(q)
  {
    hide Qualifying, SchemaOk, Typed, OnInScope, ColumnsOk, EveryScopeBound, EveryUserLinked, Enforced, IsMember,
         LinkedBy, Lower, AliasOf, TablesKnown;
    AliasIsProper(schema, q, 0);
    forall i: nat | i <= |q.joins| && Alias(q, i) in t && t[Alias(q, i)].Some?
      ensures InRoom(schema, db, env.room, Name(q, i), t[Alias(q, i)].value)
    {
      if Name(q, i) == "users" {
        var k := MemberOf(q, i);
        UserIsMember(schema, db, q, env, t, i, k);
      } else {
        HasScope(schema, q, i);
        ScopedRowsAreInRoom(schema, db, q, env, t, i);
      }
    }
  }

  /** Without outer joins every link the validator finds is enforced. */
  lemma MemberOf(q: Select, i: nat) returns (k: nat)
    requires OnlyInner(q) && EveryUserLinked(q) && i < |Tables(q)| && Name(q, i) == "users"
    ensures k < |Tables(q)| && Name(q, k) == "room_members" && Enforced(q, Alias(q, i), Alias(q, k))
  {
    hide Lower, AliasOf, LinkedBy;
    var tables := Tables(q);
    assert Lower(tables[i].name) == "users" && HasMember(q, AliasOf(tables[i]));
    k :| 0 <= k < |Tables(q)| && Lower(Tables(q)[k].name) == "room_members"
         && Linked(q, Alias(q, i), AliasOf(Tables(q)[k]));
    if !LinkedBy(q.where, Alias(q, i), Alias(q, k)) {
      var j :| 0 <= j < |q.joins| && LinkedBy(q.joins[j].on, Alias(q, i), Alias(q, k));
      assert q.joins[j].kind != Left;
    }
  }

  lemma HasScope(schema: Schema, q: Select, i: nat)
    requires SchemaOk(schema) && TablesKnown(schema, Tables(q)) && i < |Tables(q)| && Name(q, i) != "users"
    ensures Name(q, i) in schema && schema[Name(q, i)].scope.Some?
  {
  }

  /** An accepted statement with inner and cross joins only cannot tell the database from the one in
      which every row outside the room is deleted. */
  lemma OtherRoomsAreInvisible(schema: Schema, db: Db, q: Select, env: Env)
    requires SchemaOk(schema) && Accepts(schema, q) && Typed(db, schema) && OnInScope(schema, q) && OnlyInner(q)
    ensures Qualifying(db, q, env) == Qualifying(Restrict(schema, db, env.room), q, env)
  {
    hide SchemaOk, Accepts, Typed, OnInScope, Tuples, Matches, InRoom, AllInRoom, DistinctAliases;
    var small := Restrict(schema, db, env.room);
    var n := |q.joins|;
    forall t | t in Qualifying(db, q, env) ensures t in Qualifying(small, q, env) {
      QualifyingInRoom(schema, db, q, env, t);
      RoomTuplesRemain(schema, db, q, n, env, t);
    }
    forall t | t in Qualifying(small, q, env) ensures t in Qualifying(db, q, env) {
      FewerRowsFewerTuples(small, db, q, n, env, t);
    }
  }

  // ---------- columns outside the schema ----------

  /** A row without the columns the validator does not allow for its table. */
  function MaskRow(schema: Schema, table: string, r: Row): Row {
    map c | c in r && table in schema && c in schema[table].columns :: r[c]
  }

  /** A tuple with the columns the validator does not allow blanked out. */
  function Mask(schema: Schema, aliases: map<string, string>, t: Binding): Binding {
    map a | a in t ::
      if t[a].None? then None
      else if a in aliases then Some(MaskRow(schema, aliases[a], t[a].value))
      else Some(map[])
  }

  /** No expression of an accepted statement depends on a column outside the schema. */
  lemma {:induction false} HiddenColumnsDoNotMatter(schema: Schema, aliases: map<string, string>, e: Expr, t: Binding,
                                                    env: Env)
    requires ColumnsOk(e, aliases, schema)
    ensures Eval(e, t, env) == Eval(e, Mask(schema, aliases, t), env)
    decreases e, 1
  {
    match e
    case Column(_, _) =>
    case Literal(_) =>
    case Eq(l, r) =>
      HiddenColumnsDoNotMatter(schema, aliases, l, t, env);
      HiddenColumnsDoNotMatter(schema, aliases, r, t, env);
    case And(l, r) =>
      HiddenColumnsDoNotMatter(schema, aliases, l, t, env);
      HiddenColumnsDoNotMatter(schema, aliases, r, t, env);
    case Paren(i) =>
      HiddenColumnsDoNotMatter(schema, aliases, i, t, env);
    case Node(_, args) =>
      HiddenColumnsInAll(schema, aliases, args, t, env);
  }

  lemma {:induction false} HiddenColumnsInAll(schema: Schema, aliases: map<string, string>, es: seq<Expr>, t: Binding,
                                              env: Env)
    requires forall i :: 0 <= i < |es| ==> ColumnsOk(es[i], aliases, schema)
    ensures EvalAll(es, t, env) == EvalAll(es, Mask(schema, aliases, t), env)
    decreases es, 0
  {
    hide Mask;
    if |es| > 0 {
      HiddenColumnsDoNotMatter(schema, aliases, es[0], t, env);
      HiddenColumnsInAll(schema, aliases, es[1..], t, env);
    }
  }
}
