/** What the validator accepts, read off the nodes of the statement alone: no more is rejected, and no
    less, than its checks of tables, columns and room conditions demand. */
module RoomQueryAcceptance {
  import opened Envelopes
  import opened RoomQuery
  import opened RoomQuerySemantics
  import opened RoomQueryMasking

  /** `e` is a whole expression of the statement. */
  ghost predicate IsClause(q: Select, e: Expr) {
    || e in q.projections || q.where == Some(e) || e in q.others
    || exists j :: 0 <= j < |q.joins| && q.joins[j].on == Some(e)
  }

  /** The column belongs to a table of the statement that allows it. */
  ghost predicate ColumnAllowed(schema: Schema, q: Select, table: string, name: string) {
    || (table == "" && Upper(name) == "__ROOM_ID__")
    || exists i :: 0 <= i < |Tables(q)| && Lower(Tables(q)[i].name) in schema && AliasOf(Tables(q)[i]) == Lower(table)
                   && Lower(name) in schema[Lower(Tables(q)[i].name)].columns
  }

  /** Every column node of the statement is allowed. */
  ghost predicate EveryColumnAllowed(schema: Schema, q: Select) {
    forall e, i :: IsClause(q, e) && 0 <= i < |Occurrences(e)| && Occurrences(e)[i].node.Column? ==>
      ColumnAllowed(schema, q, Occurrences(e)[i].node.table, Occurrences(e)[i].node.name)
  }

  predicate Names(e: Expr, alias: string, column: string) {
    e.Column? && Lower(e.table) == alias && Lower(e.name) == column
  }

  predicate IsMarker(e: Expr) {
    e.Column? && e.table == "" && Upper(e.name) == "__ROOM_ID__"
  }

  /** A node of the clause above which there is nothing but AND and parentheses. */
  ghost predicate TopTerm(clause: Option<Expr>, c: Expr) {
    clause.Some? && exists i :: 0 <= i < |Occurrences(clause.value)| && Occurrences(clause.value)[i].node == c
                                && OnlyAndParen(Occurrences(clause.value)[i].parents)
  }

  predicate OnlyAndParen(parents: seq<Expr>) {
    forall k :: 0 <= k < |parents| ==> parents[k].And? || parents[k].Paren?
  }

  ghost predicate RoomFixed(q: Select, alias: string, column: string) {
    exists c: Expr :: TopTerm(q.where, c) && c.Eq?
      && ((Names(c.left, alias, column) && IsMarker(c.right)) || (Names(c.right, alias, column) && IsMarker(c.left)))
  }

  ghost predicate TopLink(clause: Option<Expr>, user: string, member: string) {
    exists c: Expr :: TopTerm(clause, c) && c.Eq?
      && (|| (Names(c.left, user, "id") && Names(c.right, member, "user_id"))
          || (Names(c.right, user, "id") && Names(c.left, member, "user_id")))
  }

  ghost predicate TopLinked(q: Select, user: string, member: string) {
    || TopLink(q.where, user, member)
    || exists j :: 0 <= j < |q.joins| && TopLink(q.joins[j].on, user, member)
  }

  ghost predicate TablesOk(schema: Schema, q: Select) {
    && (forall i :: 0 <= i < |Tables(q)| ==> Lower(Tables(q)[i].name) in schema)
    && (forall i, j :: 0 <= i < j < |Tables(q)| ==> AliasOf(Tables(q)[i]) != AliasOf(Tables(q)[j]))
  }

  ghost predicate RoomsFixed(schema: Schema, q: Select) {
    forall i :: 0 <= i < |Tables(q)| && Lower(Tables(q)[i].name) in schema ==>
      var scope := schema[Lower(Tables(q)[i].name)].scope;
      scope.Some? ==> RoomFixed(q, AliasOf(Tables(q)[i]), scope.value)
  }

  ghost predicate UsersLinked(q: Select) {
    forall i :: 0 <= i < |Tables(q)| && Lower(Tables(q)[i].name) == "users" ==>
      exists j :: 0 <= j < |Tables(q)| && Lower(Tables(q)[j].name) == "room_members"
                  && TopLinked(q, AliasOf(Tables(q)[i]), AliasOf(Tables(q)[j]))
  }

  // ---------- terms ----------

  lemma TopTermIsConjunct(e: Expr, c: Expr)
    ensures TopTerm(Some(e), c) <==> Conjunct(e, c)
  {
    hide Occurrences, Conjunct;
    WalkFindsConjuncts(e, c);
    var occs := Occurrences(e);
    assert forall i :: 0 <= i < |occs| ==> (AllTransparent(occs[i].parents) <==> OnlyAndParen(occs[i].parents));
  }

  lemma RoomFixedIff(q: Select, alias: string, column: string)
    requires Lower(alias) == alias && Lower(column) == column
    ensures RoomFixed(q, alias, column) <==> Scoped(q.where, alias, column)
  {
    hide TopTerm, Conjunct, Lower, Upper;
    if q.where.Some? {
      forall c ensures TopTerm(q.where, c) <==> Conjunct(q.where.value, c) { TopTermIsConjunct(q.where.value, c); }
    } else {
      forall c ensures !TopTerm(q.where, c) { NoTerms(c); }
    }
  }

  lemma NoTerms(c: Expr)
    ensures !TopTerm(None, c)
  {
  }

  lemma TopLinkIff(clause: Option<Expr>, user: string, member: string)
    requires Lower(user) == user && Lower(member) == member
    ensures TopLink(clause, user, member) <==> LinkedBy(clause, user, member)
  {
    LowerNames();
    hide TopTerm, Conjunct, Lower;
    if clause.Some? {
      forall c ensures TopTerm(clause, c) <==> Conjunct(clause.value, c) { TopTermIsConjunct(clause.value, c); }
    } else {
      forall c ensures !TopTerm(clause, c) { NoTerms(c); }
    }
  }

  lemma TopLinkedIff(q: Select, user: string, member: string)
    requires Lower(user) == user && Lower(member) == member
    ensures TopLinked(q, user, member) <==> Linked(q, user, member)
  {
    hide TopLink, LinkedBy, Lower;
    TopLinkIff(q.where, user, member);
    forall j | 0 <= j < |q.joins|
      ensures TopLink(q.joins[j].on, user, member) <==> LinkedBy(q.joins[j].on, user, member)
    {
      TopLinkIff(q.joins[j].on, user, member);
    }
  }

  lemma AliasIsLower(t: TableRef)
    ensures Lower(AliasOf(t)) == AliasOf(t)
  {
    LowerTwice(if t.alias == "" then t.name else t.alias);
  }

  lemma RoomsFixedIff(schema: Schema, q: Select)
    requires SchemaOk(schema) && TablesKnown(schema, Tables(q))
    ensures RoomsFixed(schema, q) <==> EveryScopeBound(schema, q)
  {
    hide RoomFixed, Scoped, Lower, AliasOf;
    forall i | 0 <= i < |Tables(q)|
      ensures var scope := schema[Lower(Tables(q)[i].name)].scope;
              scope.Some? ==>
                (RoomFixed(q, AliasOf(Tables(q)[i]), scope.value)
                 <==> Scoped(q.where, AliasOf(Tables(q)[i]), scope.value))
    {
      var scope := schema[Lower(Tables(q)[i].name)].scope;
      if scope.Some? {
        AliasIsLower(Tables(q)[i]);
        RoomFixedIff(q, AliasOf(Tables(q)[i]), scope.value);
      }
    }
  }

  lemma UsersLinkedIff(q: Select)
    ensures UsersLinked(q) <==> EveryUserLinked(q)
  {
    hide TopLinked, Linked, Lower, AliasOf;
    forall i, j | 0 <= i < |Tables(q)| && 0 <= j < |Tables(q)|
      ensures TopLinked(q, AliasOf(Tables(q)[i]), AliasOf(Tables(q)[j]))
              <==> Linked(q, AliasOf(Tables(q)[i]), AliasOf(Tables(q)[j]))
    {
      AliasIsLower(Tables(q)[i]);
      AliasIsLower(Tables(q)[j]);
      TopLinkedIff(q, AliasOf(Tables(q)[i]), AliasOf(Tables(q)[j]));
    }
  }

  // ---------- columns ----------

  lemma {:induction false} OnClauseOf(joins: seq<Join>, e: Expr)
    ensures e in OnClauses(joins) <==> exists j :: 0 <= j < |joins| && joins[j].on == Some(e)
  {
    if |joins| > 0 {
      OnClauseOf(joins[1..], e);
      if j :| 0 <= j < |joins| && joins[j].on == Some(e) {
        assert j > 0 ==> joins[1..][j - 1].on == Some(e);
      }
      if j :| 0 <= j < |joins[1..]| && joins[1..][j].on == Some(e) {
        assert joins[j + 1].on == Some(e);
      }
    }
  }

  lemma ClauseIff(q: Select, e: Expr)
    ensures e in Clauses(q) <==> IsClause(q, e)
  {
    hide OnClauses;
    OnClauseOf(q.joins, e);
  }

  lemma ColumnAllowedIff(schema: Schema, q: Select, e: Expr)
    requires TablesKnown(schema, Tables(q)) && e.Column?
    ensures ColumnOk(e, AliasMap(Tables(q)), schema) <==> ColumnAllowed(schema, q, e.table, e.name)
  {
    hide Lower, Upper, AliasMap, AliasOf;
    var tables := Tables(q);
    forall i | 0 <= i < |tables|
      ensures AliasOf(tables[i]) in AliasMap(tables) && AliasMap(tables)[AliasOf(tables[i])] == Lower(tables[i].name)
    {
      AliasMapAt(tables, i);
    }
    if Lower(e.table) in AliasMap(tables) {
      AliasMapKeys(tables, Lower(e.table));
    }
  }

  lemma ColumnsAllowedIff(schema: Schema, q: Select)
    requires TablesKnown(schema, Tables(q))
    ensures EveryColumnAllowed(schema, q)
            <==> forall i :: 0 <= i < |Clauses(q)| ==> ColumnsOk(Clauses(q)[i], AliasMap(Tables(q)), schema)
  {
    hide AliasMap, Occurrences, ColumnsOk, ColumnAllowed, Clauses, TablesKnown, IsClause;
    var aliases := AliasMap(Tables(q));
    forall e ensures ColumnsOk(e, aliases, schema) <==> AllColumnsOk(Occurrences(e), aliases, schema) {
      ColumnsOkIff(e, aliases, schema);
    }
    forall e ensures e in Clauses(q) <==> IsClause(q, e) { ClauseIff(q, e); }
    forall e: Expr | e.Column? ensures ColumnOk(e, aliases, schema) <==> ColumnAllowed(schema, q, e.table, e.name) {
      ColumnAllowedIff(schema, q, e);
    }
    AllowedInClauses(schema, q, aliases);
  }

  lemma AllowedInClauses(schema: Schema, q: Select, aliases: map<string, string>)
    requires forall e: Expr :: e.Column? ==>
               (ColumnOk(e, aliases, schema) <==> ColumnAllowed(schema, q, e.table, e.name))
    requires forall e :: e in Clauses(q) <==> IsClause(q, e)
    ensures EveryColumnAllowed(schema, q)
            <==> forall i :: 0 <= i < |Clauses(q)| ==> AllColumnsOk(Occurrences(Clauses(q)[i]), aliases, schema)
  {
    hide ColumnAllowed, Occurrences, Clauses, IsClause;
    if EveryColumnAllowed(schema, q) {
      forall i, k | 0 <= i < |Clauses(q)| && 0 <= k < |Occurrences(Clauses(q)[i])|
        ensures ColumnOk(Occurrences(Clauses(q)[i])[k].node, aliases, schema)
      {
        assert IsClause(q, Clauses(q)[i]);
      }
    } else {
      var e, i :| IsClause(q, e) && 0 <= i < |Occurrences(e)| && Occurrences(e)[i].node.Column?
                  && !ColumnAllowed(schema, q, Occurrences(e)[i].node.table, Occurrences(e)[i].node.name);
      assert e in Clauses(q) && !ColumnOk(Occurrences(e)[i].node, aliases, schema);
    }
  }

  /** A statement is accepted iff its tables are known and its aliases distinct, every column anywhere in it
      is allowed, every scoped table is tied to the room by a top-level term of WHERE, and every users table
      to a membership by one of WHERE or an ON. */
  lemma AcceptsIff(schema: Schema, q: Select)
    requires SchemaOk(schema)
    ensures Accepts(schema, q) <==>
              TablesOk(schema, q) && EveryColumnAllowed(schema, q) && RoomsFixed(schema, q) && UsersLinked(q)
  {
    assert TablesOk(schema, q) <==> TablesKnown(schema, Tables(q));
    hide SchemaOk, EveryColumnAllowed, RoomsFixed, UsersLinked, EveryScopeBound, EveryUserLinked, TablesKnown, TablesOk,
      ColumnsOk, Clauses;
    if TablesKnown(schema, Tables(q)) {
      RoomsFixedIff(schema, q);
      UsersLinkedIff(q);
      ColumnsAllowedIff(schema, q);
    }
  }
}
