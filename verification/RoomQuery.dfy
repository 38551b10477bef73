/** The validator of room-scoped SELECT statements. It takes the parsed statement, finds the equalities
    that tie every table to the current room by walking from each equality up to its clause, and
    accepts or rejects. What acceptance means is stated against a small relational semantics: joins,
    NULLs, three-valued conditions, and an arbitrary interpretation of every other operator. */
module RoomQuery {
  import opened Envelopes

  const ROOM_MARKER: string := "__ROOM_ID__"

  // ---------- statements ----------

  datatype Value = Null | Num(n: int) | Text(s: string)

  /** A condition tree. `Node` is any operator other than `=`, `AND` and parentheses: OR, NOT, functions. */
  datatype Expr =
    | Column(table: string, name: string)
    | Literal(value: Value)
    | Eq(left: Expr, right: Expr)
    | And(left: Expr, right: Expr)
    | Paren(inner: Expr)
    | Node(op: string, args: seq<Expr>)

  datatype JoinKind = Inner | Cross | Left | Right

  datatype TableRef = TableRef(name: string, alias: string)

  datatype Join = Join(kind: JoinKind, table: TableRef, on: Option<Expr>)

  /** One level of SELECT; `others` are the GROUP BY, HAVING and ORDER BY expressions. */
  datatype Select = Select(
    projections: seq<Expr>, from: TableRef, joins: seq<Join>, where: Option<Expr>, others: seq<Expr>)

  function LowerChar(c: char): char {
    if 'A' <= c <= 'Z' then c - 'A' + 'a' else c
  }

  function UpperChar(c: char): char {
    if 'a' <= c <= 'z' then c - 'a' + 'A' else c
  }

  function Lower(s: string): string {
    seq(|s|, i requires 0 <= i < |s| => LowerChar(s[i]))
  }

  function Upper(s: string): string {
    seq(|s|, i requires 0 <= i < |s| => UpperChar(s[i]))
  }

  predicate SameUpToCase(a: char, b: char) {
    a == b || ('A' <= a <= 'Z' && b == a + 32 as char) || ('A' <= b <= 'Z' && a == b + 32 as char)
  }

  /** Names are compared without regard to case, and otherwise exactly. */
  lemma CaseDoesNotMatter(s: string, t: string)
    ensures Lower(s) == Lower(t) <==> |s| == |t| && forall i :: 0 <= i < |s| ==> SameUpToCase(s[i], t[i])
    ensures Upper(s) == Upper(t) <==> |s| == |t| && forall i :: 0 <= i < |s| ==> SameUpToCase(s[i], t[i])
  {
    if Lower(s) == Lower(t) {
      forall i | 0 <= i < |s| ensures SameUpToCase(s[i], t[i]) {
        assert Lower(s)[i] == Lower(t)[i];
      }
    }
    if Upper(s) == Upper(t) {
      forall i | 0 <= i < |s| ensures SameUpToCase(s[i], t[i]) {
        assert Upper(s)[i] == Upper(t)[i];
      }
    }
  }

  function AliasOf(t: TableRef): string {
    Lower(if t.alias == "" then t.name else t.alias)
  }

  /** Table `i` of the statement: the FROM table, then the joined ones. */
  function Tables(q: Select): seq<TableRef> {
    [q.from] + seq(|q.joins|, i requires 0 <= i < |q.joins| => q.joins[i].table)
  }

  // ---------- the schema the validator allows ----------

  /** `scope` is the column that holds the room; `users` has none. */
  datatype TableSpec = TableSpec(scope: Option<string>, columns: set<string>)

  type Schema = map<string, TableSpec>

  /** Every table but `users` has a scope column, and members link users to rooms. */
  predicate SchemaOk(schema: Schema) {
    && "" !in schema
    && "users" in schema && schema["users"].scope == None && "id" in schema["users"].columns
    && "room_members" in schema && schema["room_members"].scope == Some("room_id")
    && "room_id" in schema["room_members"].columns && "user_id" in schema["room_members"].columns
    && forall t :: t in schema && t != "users" ==>
         && schema[t].scope.Some? && schema[t].scope.value in schema[t].columns
         && Lower(schema[t].scope.value) == schema[t].scope.value
  }

  // ---------- finding equalities ----------

  predicate IsRoomMarker(e: Expr) {
    e.Column? && e.table == "" && Upper(e.name) == ROOM_MARKER
  }

  predicate IsColumn(e: Expr, alias: string, column: string) {
    e.Column? && Lower(e.table) == Lower(alias) && Lower(e.name) == Lower(column)
  }

  /** A node together with its chain of parents, nearest first, up to the clause that holds it. */
  datatype Occurrence = Occurrence(node: Expr, parents: seq<Expr>)

  function Under(parent: Expr, occs: seq<Occurrence>): seq<Occurrence> {
    seq(|occs|, i requires 0 <= i < |occs| => Occurrence(occs[i].node, occs[i].parents + [parent]))
  }

  /** Every node of a tree: `find_all`. */
  function Occurrences(e: Expr): seq<Occurrence>
    decreases e, 1
  {
    [Occurrence(e, [])] +
    match e
    case Column(_, _) => []
    case Literal(_) => []
    case Eq(l, r) => Under(e, Occurrences(l) + Occurrences(r))
    case And(l, r) => Under(e, Occurrences(l) + Occurrences(r))
    case Paren(i) => Under(e, Occurrences(i))
    case Node(_, args) => Under(e, OccurrencesOfAll(args))
  }

  function OccurrencesOfAll(es: seq<Expr>): seq<Occurrence>
    decreases es, 0
  {
    if |es| == 0 then [] else Occurrences(es[0]) + OccurrencesOfAll(es[1..])
  }

  predicate Transparent(e: Expr) {
    e.And? || e.Paren?
  }

  predicate AllTransparent(parents: seq<Expr>) {
    forall i :: 0 <= i < |parents| ==> Transparent(parents[i])
  }

  /** The walk from an equality up to its WHERE or ON clause. */
  method IsUnconditionalTerm(occ: Occurrence) returns (r: bool)
    ensures r == AllTransparent(occ.parents)
  {
    var i := 0;
    while i < |occ.parents|
      invariant 0 <= i <= |occ.parents| && AllTransparent(occ.parents[..i])
    {
      if !Transparent(occ.parents[i]) {
        return false;
      }
      i := i + 1;
    }
    return true;
  }

  /** `c` is a term of the conjunction `e`. */
  predicate Conjunct(e: Expr, c: Expr) {
    || c == e
    || (e.And? && (Conjunct(e.left, c) || Conjunct(e.right, c)))
    || (e.Paren? && Conjunct(e.inner, c))
  }

  ghost predicate ReachedBy(occs: seq<Occurrence>, c: Expr) {
    exists i :: 0 <= i < |occs| && occs[i].node == c && AllTransparent(occs[i].parents)
  }

  lemma ReachedUnder(e: Expr, occs: seq<Occurrence>, c: Expr)
    ensures ReachedBy(Under(e, occs), c) <==> Transparent(e) && ReachedBy(occs, c)
  {
    var u := Under(e, occs);
    if ReachedBy(u, c) {
      var i :| 0 <= i < |u| && u[i].node == c && AllTransparent(u[i].parents);
      var ps := occs[i].parents;
      assert u[i].parents[|ps|] == e;
      assert forall j :: 0 <= j < |ps| ==> u[i].parents[j] == ps[j];
    }
    if Transparent(e) && ReachedBy(occs, c) {
      var i :| 0 <= i < |occs| && occs[i].node == c && AllTransparent(occs[i].parents);
      assert u[i].node == c && AllTransparent(u[i].parents);
    }
  }

  lemma ReachedConcat(a: seq<Occurrence>, b: seq<Occurrence>, c: Expr)
    ensures ReachedBy(a + b, c) <==> ReachedBy(a, c) || ReachedBy(b, c)
  {
    if ReachedBy(a, c) {
      var i :| 0 <= i < |a| && a[i].node == c && AllTransparent(a[i].parents);
      assert (a + b)[i] == a[i];
    }
    if ReachedBy(b, c) {
      var i :| 0 <= i < |b| && b[i].node == c && AllTransparent(b[i].parents);
      assert (a + b)[|a| + i] == b[i];
    }
  }

  /** The upward walk finds exactly the terms of the conjunction. */
  lemma {:induction false} WalkFindsConjuncts(e: Expr, c: Expr)
    ensures ReachedBy(Occurrences(e), c) <==> Conjunct(e, c)
  {
    hide ReachedBy;
    var self := [Occurrence(e, [])];
    SelfReached(e, c);
    match e
    case Column(_, _) =>
      ReachedConcat(self, [], c); NothingReached(c);
    case Literal(_) =>
      ReachedConcat(self, [], c); NothingReached(c);
    case Eq(l, r) =>
      ReachedConcat(self, Under(e, Occurrences(l) + Occurrences(r)), c);
      ReachedUnder(e, Occurrences(l) + Occurrences(r), c);
    case And(l, r) =>
      ReachedConcat(self, Under(e, Occurrences(l) + Occurrences(r)), c);
      ReachedUnder(e, Occurrences(l) + Occurrences(r), c);
      ReachedConcat(Occurrences(l), Occurrences(r), c);
      WalkFindsConjuncts(l, c);
      WalkFindsConjuncts(r, c);
    case Paren(i) =>
      ReachedConcat(self, Under(e, Occurrences(i)), c);
      ReachedUnder(e, Occurrences(i), c);
      WalkFindsConjuncts(i, c);
    case Node(_, args) =>
      ReachedConcat(self, Under(e, OccurrencesOfAll(args)), c);
      ReachedUnder(e, OccurrencesOfAll(args), c);
  }

  lemma SelfReached(e: Expr, c: Expr)
    ensures ReachedBy([Occurrence(e, [])], c) <==> c == e
  {
    var s := [Occurrence(e, [])];
    assert s[0].node == e && AllTransparent(s[0].parents);
  }

  lemma NothingReached(c: Expr)
    ensures !ReachedBy([], c)
  {
  }

  // ---------- what is accepted ----------

  /** `alias.column = __ROOM_ID__`, either way round. */
  predicate IsScopeEquality(e: Expr, alias: string, column: string) {
    e.Eq? && (|| (IsColumn(e.left, alias, column) && IsRoomMarker(e.right))
              || (IsColumn(e.right, alias, column) && IsRoomMarker(e.left)))
  }

  /** `user.id = member.user_id`, either way round. */
  predicate IsLink(e: Expr, user: string, member: string) {
    e.Eq? && (|| (IsColumn(e.left, user, "id") && IsColumn(e.right, member, "user_id"))
              || (IsColumn(e.right, user, "id") && IsColumn(e.left, member, "user_id")))
  }

  ghost predicate Scoped(where: Option<Expr>, alias: string, column: string) {
    where.Some? && exists c :: Conjunct(where.value, c) && IsScopeEquality(c, alias, column)
  }

  ghost predicate LinkedBy(clause: Option<Expr>, user: string, member: string) {
    clause.Some? && exists c :: Conjunct(clause.value, c) && IsLink(c, user, member)
  }

  /** The link is a term of WHERE or of some ON. */
  ghost predicate Linked(q: Select, user: string, member: string) {
    || LinkedBy(q.where, user, member)
    || exists j :: 0 <= j < |q.joins| && LinkedBy(q.joins[j].on, user, member)
  }

  /** Columns name a known alias and an allowed column of its table; the room marker is no column. */
  predicate ColumnsOk(e: Expr, aliases: map<string, string>, schema: Schema) {
    match e
    case Column(table, name) =>
      IsRoomMarker(e) || (Lower(table) in aliases && aliases[Lower(table)] in schema
                          && Lower(name) in schema[aliases[Lower(table)]].columns)
    case Literal(_) => true
    case Eq(l, r) => ColumnsOk(l, aliases, schema) && ColumnsOk(r, aliases, schema)
    case And(l, r) => ColumnsOk(l, aliases, schema) && ColumnsOk(r, aliases, schema)
    case Paren(i) => ColumnsOk(i, aliases, schema)
    case Node(_, args) => forall i :: 0 <= i < |args| ==> ColumnsOk(args[i], aliases, schema)
  }

  /** A column that is allowed: the room marker, or an allowed column of the table its alias names. */
  predicate ColumnOk(e: Expr, aliases: map<string, string>, schema: Schema) {
    e.Column? ==>
      || IsRoomMarker(e)
      || (Lower(e.table) in aliases && aliases[Lower(e.table)] in schema
          && Lower(e.name) in schema[aliases[Lower(e.table)]].columns)
  }

  ghost predicate AllColumnsOk(occs: seq<Occurrence>, aliases: map<string, string>, schema: Schema) {
    forall i :: 0 <= i < |occs| ==> ColumnOk(occs[i].node, aliases, schema)
  }

  lemma ColumnsUnder(e: Expr, occs: seq<Occurrence>, aliases: map<string, string>, schema: Schema)
    ensures AllColumnsOk([Occurrence(e, [])] + Under(e, occs), aliases, schema)
            <==> ColumnOk(e, aliases, schema) && AllColumnsOk(occs, aliases, schema)
  {
    hide ColumnOk;
    var all := [Occurrence(e, [])] + Under(e, occs);
    assert all[0].node == e && forall i :: 0 <= i < |occs| ==> all[i + 1].node == occs[i].node;
    if AllColumnsOk(all, aliases, schema) {
      forall i | 0 <= i < |occs| ensures ColumnOk(occs[i].node, aliases, schema) {
        assert ColumnOk(all[i + 1].node, aliases, schema);
      }
    }
  }

  lemma ColumnsConcat(a: seq<Occurrence>, b: seq<Occurrence>, aliases: map<string, string>, schema: Schema)
    ensures AllColumnsOk(a + b, aliases, schema)
            <==> AllColumnsOk(a, aliases, schema) && AllColumnsOk(b, aliases, schema)
  {
    hide ColumnOk;
    var all := a + b;
    assert (forall i :: 0 <= i < |a| ==> all[i] == a[i]) && forall i :: 0 <= i < |b| ==> all[|a| + i] == b[i];
  }

  /** The check passes exactly if every column anywhere in the tree is allowed. */
  lemma {:induction false} ColumnsOkIff(e: Expr, aliases: map<string, string>, schema: Schema)
    ensures ColumnsOk(e, aliases, schema) <==> AllColumnsOk(Occurrences(e), aliases, schema)
    decreases e, 1
  {
    hide AllColumnsOk, Under, IsRoomMarker, Lower;
    match e
    case Eq(l, r) =>
      ColumnsUnder(e, Occurrences(l) + Occurrences(r), aliases, schema);
      ColumnsConcat(Occurrences(l), Occurrences(r), aliases, schema);
      ColumnsOkIff(l, aliases, schema);
      ColumnsOkIff(r, aliases, schema);
    case And(l, r) =>
      ColumnsUnder(e, Occurrences(l) + Occurrences(r), aliases, schema);
      ColumnsConcat(Occurrences(l), Occurrences(r), aliases, schema);
      ColumnsOkIff(l, aliases, schema);
      ColumnsOkIff(r, aliases, schema);
    case Paren(i) =>
      ColumnsUnder(e, Occurrences(i), aliases, schema);
      ColumnsOkIff(i, aliases, schema);
    case Node(_, args) =>
      ColumnsUnder(e, OccurrencesOfAll(args), aliases, schema);
      ArgsOkIff(args, aliases, schema);
    case _ =>
      LeafColumns(e, aliases, schema);
  }

  lemma LeafColumns(e: Expr, aliases: map<string, string>, schema: Schema)
    requires e.Column? || e.Literal?
    ensures AllColumnsOk(Occurrences(e), aliases, schema) <==> ColumnOk(e, aliases, schema)
  {
    hide ColumnOk;
    assert Occurrences(e) == [Occurrence(e, [])];
    assert Occurrences(e)[0].node == e;
  }

  lemma {:induction false} ArgsOkIff(es: seq<Expr>, aliases: map<string, string>, schema: Schema)
    ensures (forall i :: 0 <= i < |es| ==> ColumnsOk(es[i], aliases, schema))
            <==> AllColumnsOk(OccurrencesOfAll(es), aliases, schema)
    decreases es, 0
  {
    hide ColumnsOk, ColumnOk;
    if |es| > 0 {
      ColumnsConcat(Occurrences(es[0]), OccurrencesOfAll(es[1..]), aliases, schema);
      ColumnsOkIff(es[0], aliases, schema);
      ArgsOkIff(es[1..], aliases, schema);
    }
  }

  function OptionList(e: Option<Expr>): seq<Expr> {
    if e.Some? then [e.value] else []
  }

  /** Every expression of the statement. */
  function Clauses(q: Select): seq<Expr> {
    q.projections + OptionList(q.where) + q.others + OnClauses(q.joins)
  }

  function OnClauses(joins: seq<Join>): seq<Expr> {
    if |joins| == 0 then [] else OptionList(joins[0].on) + OnClauses(joins[1..])
  }

  predicate TablesKnown(schema: Schema, tables: seq<TableRef>) {
    && (forall i :: 0 <= i < |tables| ==> Lower(tables[i].name) in schema)
    && (forall i, j :: 0 <= i < j < |tables| ==> AliasOf(tables[i]) != AliasOf(tables[j]))
  }

  /** The alias table of a statement whose aliases are distinct. */
  function AliasMap(tables: seq<TableRef>): map<string, string> {
    if |tables| == 0 then map[]
    else AliasMap(tables[..|tables| - 1])[AliasOf(tables[|tables| - 1]) := Lower(tables[|tables| - 1].name)]
  }

  ghost predicate EveryScopeBound(schema: Schema, q: Select)
    requires TablesKnown(schema, Tables(q))
  {
    forall i :: 0 <= i < |Tables(q)| ==>
      var spec := schema[Lower(Tables(q)[i].name)];
      spec.scope.Some? ==> Scoped(q.where, AliasOf(Tables(q)[i]), spec.scope.value)
  }

  /** A member alias the user alias is linked to. */
  ghost predicate HasMember(q: Select, user: string) {
    exists j :: 0 <= j < |Tables(q)| && Lower(Tables(q)[j].name) == "room_members"
                && Linked(q, user, AliasOf(Tables(q)[j]))
  }

  ghost predicate EveryUserLinked(q: Select) {
    forall i :: 0 <= i < |Tables(q)| && Lower(Tables(q)[i].name) == "users" ==> HasMember(q, AliasOf(Tables(q)[i]))
  }

  /** What `validate_room_select` demands of the tables, columns and room conditions. */
  ghost predicate Accepts(schema: Schema, q: Select) {
    && TablesKnown(schema, Tables(q))
    && (forall i :: 0 <= i < |Clauses(q)| ==> ColumnsOk(Clauses(q)[i], AliasMap(Tables(q)), schema))
    && EveryScopeBound(schema, q)
    && EveryUserLinked(q)
  }

  method FindScopeEquality(where: Option<Expr>, alias: string, column: string) returns (found: bool)
    ensures found == Scoped(where, alias, column)
  {
    hide IsScopeEquality;
    if where.None? {
      return false;
    }
    var occs := Occurrences(where.value);
    for i := 0 to |occs|
      invariant forall k :: 0 <= k < i ==>
                  !(IsScopeEquality(occs[k].node, alias, column) && AllTransparent(occs[k].parents))
    {
      if IsScopeEquality(occs[i].node, alias, column) {
        var unconditional := IsUnconditionalTerm(occs[i]);
        if unconditional {
          WalkFindsConjuncts(where.value, occs[i].node);
          return true;
        }
      }
    }
    forall c | Conjunct(where.value, c) ensures !IsScopeEquality(c, alias, column) {
      WalkFindsConjuncts(where.value, c);
    }
    return false;
  }

  method FindLink(clause: Option<Expr>, user: string, member: string) returns (found: bool)
    ensures found == LinkedBy(clause, user, member)
  {
    hide IsLink;
    if clause.None? {
      return false;
    }
    var occs := Occurrences(clause.value);
    for i := 0 to |occs|
      invariant forall k :: 0 <= k < i ==> !(IsLink(occs[k].node, user, member) && AllTransparent(occs[k].parents))
    {
      if IsLink(occs[i].node, user, member) {
        var unconditional := IsUnconditionalTerm(occs[i]);
        if unconditional {
          WalkFindsConjuncts(clause.value, occs[i].node);
          return true;
        }
      }
    }
    forall c | Conjunct(clause.value, c) ensures !IsLink(c, user, member) {
      WalkFindsConjuncts(clause.value, c);
    }
    return false;
  }

  method HasEquality(q: Select, user: string, member: string) returns (found: bool)
    ensures found == Linked(q, user, member)
  {
    hide LinkedBy;
    found := FindLink(q.where, user, member);
    var j := 0;
    while j < |q.joins| && !found
      invariant 0 <= j <= |q.joins|
      invariant found ==> Linked(q, user, member)
      invariant !found ==> !LinkedBy(q.where, user, member)
      invariant !found ==> forall k :: 0 <= k < j ==> !LinkedBy(q.joins[k].on, user, member)
    {
      found := FindLink(q.joins[j].on, user, member);
      j := j + 1;
    }
  }

  /** The alias loop: rejects unknown tables and repeated aliases. */
  method CollectAliases(schema: Schema, tables: seq<TableRef>) returns (ok: bool, aliases: map<string, string>)
    ensures ok == TablesKnown(schema, tables)
    ensures ok ==> aliases == AliasMap(tables)
  {
    hide Lower, AliasOf;
    aliases := map[];
    for i := 0 to |tables|
      invariant TablesKnown(schema, tables[..i]) && aliases == AliasMap(tables[..i])
      invariant forall a :: a in aliases <==> exists k :: 0 <= k < i && AliasOf(tables[k]) == a
    {
      var name, alias := Lower(tables[i].name), AliasOf(tables[i]);
      if name !in schema || alias in aliases {
        return false, aliases;
      }
      assert tables[..i + 1][..i] == tables[..i];
      aliases := aliases[alias := name];
    }
    assert tables[..|tables|] == tables;
    return true, aliases;
  }

  method CheckUsers(q: Select) returns (ok: bool)
    ensures ok == EveryUserLinked(q)
  {
    hide Linked;
    var tables := Tables(q);
    for i := 0 to |tables|
      invariant forall k :: 0 <= k < i && Lower(tables[k].name) == "users" ==> HasMember(q, AliasOf(tables[k]))
    {
      if Lower(tables[i].name) == "users" {
        var linked := false;
        var j := 0;
        while j < |tables| && !linked
          invariant 0 <= j <= |tables|
          invariant linked ==> HasMember(q, AliasOf(tables[i]))
          invariant !linked ==> forall k :: 0 <= k < j && Lower(tables[k].name) == "room_members" ==>
                                  !Linked(q, AliasOf(tables[i]), AliasOf(tables[k]))
        {
          if Lower(tables[j].name) == "room_members" {
            linked := HasEquality(q, AliasOf(tables[i]), AliasOf(tables[j]));
          }
          j := j + 1;
        }
        if !linked {
          return false;
        }
      }
    }
    return true;
  }

  /** The table, column and room-condition checks of `validate_room_select`. */
  method ValidateRoomSelect(schema: Schema, q: Select) returns (ok: bool)
    ensures ok == Accepts(schema, q)
  {
    hide ColumnsOk, Scoped, EveryUserLinked, AliasMap, TablesKnown, Clauses;
    var tables := Tables(q);
    var known, aliases := CollectAliases(schema, tables);
    if !known {
      return false;
    }
    var clauses := Clauses(q);
    for i := 0 to |clauses|
      invariant forall k :: 0 <= k < i ==> ColumnsOk(clauses[k], aliases, schema)
    {
      if !ColumnsOk(clauses[i], aliases, schema) {
        return false;
      }
    }
    var bound := CheckScopes(schema, q);
    if !bound {
      return false;
    }
    ok := CheckUsers(q);
  }

  method CheckScopes(schema: Schema, q: Select) returns (ok: bool)
    requires TablesKnown(schema, Tables(q))
    ensures ok == EveryScopeBound(schema, q)
  {
    hide Scoped;
    var tables := Tables(q);
    for i := 0 to |tables|
      invariant forall k :: 0 <= k < i ==>
        var spec := schema[Lower(tables[k].name)];
        spec.scope.Some? ==> Scoped(q.where, AliasOf(tables[k]), spec.scope.value)
    {
      var spec := schema[Lower(tables[i].name)];
      if spec.scope.Some? {
        var found := FindScopeEquality(q.where, AliasOf(tables[i]), spec.scope.value);
        if !found {
          return false;
        }
      }
    }
    return true;
  }
}
