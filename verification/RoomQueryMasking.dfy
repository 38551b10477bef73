/** Columns outside the schema do not influence a whole accepted statement: over a database in which they
    are blanked out it qualifies the same tuples, blanked out, for every kind of join. */
module RoomQueryMasking {
  import opened Envelopes
  import opened RoomQuery
  import opened RoomQuerySemantics

  function MaskRows(schema: Schema, table: string, rows: set<Row>): set<Row> {
    set r | r in rows :: MaskRow(schema, table, r)
  }

  /** The database without the columns the validator does not allow. */
  function MaskDb(schema: Schema, db: Db): Db {
    map table | table in db :: MaskRows(schema, table, db[table])
  }

  function MaskAll(schema: Schema, aliases: map<string, string>, ts: set<Binding>): set<Binding> {
    set t | t in ts :: Mask(schema, aliases, t)
  }

  lemma MaskedRows(schema: Schema, db: Db, table: string)
    ensures Rows(MaskDb(schema, db), table) == MaskRows(schema, table, Rows(db, table))
  {
    hide MaskRow;
  }

  lemma MaskExtends(schema: Schema, aliases: map<string, string>, t: Binding, alias: string, from: Option<Row>)
    requires alias in aliases && aliases[alias] in schema
    ensures Mask(schema, aliases, t[alias := from]) == Mask(schema, aliases, t)[alias :=
              if from.None? then None else Some(MaskRow(schema, aliases[alias], from.value))]
  {
    hide MaskRow;
  }

  /** The clause reads allowed columns only. */
  predicate ClauseOk(clause: Option<Expr>, aliases: map<string, string>, schema: Schema) {
    clause.Some? ==> ColumnsOk(clause.value, aliases, schema)
  }

  lemma MatchesMasked(schema: Schema, aliases: map<string, string>, clause: Option<Expr>, t: Binding, env: Env)
    requires ClauseOk(clause, aliases, schema)
    ensures Matches(clause, t, env) <==> Matches(clause, Mask(schema, aliases, t), env)
  {
    hide Mask, Eval;
    if clause.Some? {
      HiddenColumnsDoNotMatter(schema, aliases, clause.value, t, env);
    }
  }

  /** A pairing matches exactly if the blanked-out pairing does. */
  lemma PairMasked(schema: Schema, aliases: map<string, string>, j: Join, t: Binding, r: Row, env: Env)
    requires ClauseOk(j.on, aliases, schema)
    requires AliasOf(j.table) in aliases && aliases[AliasOf(j.table)] in schema
    ensures var alias := AliasOf(j.table);
            && Mask(schema, aliases, t[alias := Some(r)])
               == Mask(schema, aliases, t)[alias := Some(MaskRow(schema, aliases[alias], r))]
            && (Matches(j.on, t[alias := Some(r)], env) <==>
                Matches(j.on, Mask(schema, aliases, t)[alias := Some(MaskRow(schema, aliases[alias], r))], env))
  {
    hide Mask, MaskRow, Matches, AliasOf, ClauseOk;
    var alias := AliasOf(j.table);
    MaskExtends(schema, aliases, t, alias, Some(r));
    MatchesMasked(schema, aliases, j.on, t[alias := Some(r)], env);
  }

  lemma UnpairedMasked(schema: Schema, aliases: map<string, string>, j: Join, t: Binding, rows: set<Row>, env: Env)
    requires ClauseOk(j.on, aliases, schema)
    requires AliasOf(j.table) in aliases && aliases[AliasOf(j.table)] in schema
    ensures var alias := AliasOf(j.table);
            Unpaired(t, rows, alias, j.on, env) <==>
            Unpaired(Mask(schema, aliases, t), MaskRows(schema, aliases[alias], rows), alias, j.on, env)
  {
    hide Mask, MaskRow, Matches, AliasOf, ClauseOk;
    var alias := AliasOf(j.table);
    forall r | r in rows
      ensures MaskRow(schema, aliases[alias], r) in MaskRows(schema, aliases[alias], rows)
      ensures Matches(j.on, t[alias := Some(r)], env) <==>
              Matches(j.on, Mask(schema, aliases, t)[alias := Some(MaskRow(schema, aliases[alias], r))], env)
    {
      PairMasked(schema, aliases, j, t, r, env);
    }
  }

  lemma AloneMasked(schema: Schema, aliases: map<string, string>, j: Join, r: Row, left: set<Binding>, env: Env)
    requires ClauseOk(j.on, aliases, schema)
    requires AliasOf(j.table) in aliases && aliases[AliasOf(j.table)] in schema
    ensures var alias := AliasOf(j.table);
            Alone(r, left, alias, j.on, env) <==>
            Alone(MaskRow(schema, aliases[alias], r), MaskAll(schema, aliases, left), alias, j.on, env)
  {
    hide Mask, MaskRow, Matches, AliasOf, ClauseOk;
    var alias := AliasOf(j.table);
    forall t | t in left
      ensures Mask(schema, aliases, t) in MaskAll(schema, aliases, left)
      ensures Matches(j.on, t[alias := Some(r)], env) <==>
              Matches(j.on, Mask(schema, aliases, t)[alias := Some(MaskRow(schema, aliases[alias], r))], env)
    {
      PairMasked(schema, aliases, j, t, r, env);
    }
  }

  // ---------- one join ----------

  lemma MatchedIn(before: set<Binding>, blank: Binding, rows: set<Row>, j: Join, env: Env, t: Binding, r: Row)
    requires t in before && r in rows && Matches(j.on, t[AliasOf(j.table) := Some(r)], env)
    ensures t[AliasOf(j.table) := Some(r)] in JoinStep(before, blank, rows, j, env)
  {
    hide Matches, Unpaired, Alone, AliasOf;
  }

  lemma LeftIn(before: set<Binding>, blank: Binding, rows: set<Row>, j: Join, env: Env, t: Binding)
    requires j.kind == Left && t in before && Unpaired(t, rows, AliasOf(j.table), j.on, env)
    ensures t[AliasOf(j.table) := None] in JoinStep(before, blank, rows, j, env)
  {
    hide Matches, Unpaired, Alone, AliasOf;
  }

  lemma RightIn(before: set<Binding>, blank: Binding, rows: set<Row>, j: Join, env: Env, r: Row)
    requires j.kind == Right && r in rows && Alone(r, before, AliasOf(j.table), j.on, env)
    ensures blank[AliasOf(j.table) := Some(r)] in JoinStep(before, blank, rows, j, env)
  {
    hide Matches, Unpaired, Alone, AliasOf;
  }

  /** The blanked-out tuple of a join is a tuple of the join of blanked-out parts. */
  lemma StepForward(schema: Schema, aliases: map<string, string>, before: set<Binding>, blank: Binding,
                    rows: set<Row>, j: Join, env: Env, t: Binding)
    requires ClauseOk(j.on, aliases, schema) && Mask(schema, aliases, blank) == blank
    requires AliasOf(j.table) in aliases && aliases[AliasOf(j.table)] in schema
    requires t in JoinStep(before, blank, rows, j, env)
    ensures Mask(schema, aliases, t) in
              JoinStep(MaskAll(schema, aliases, before), blank,
                       MaskRows(schema, aliases[AliasOf(j.table)], rows), j, env)
  {
    hide Mask, MaskRow, Matches, AliasOf, ClauseOk, JoinStep, Unpaired, Alone;
    var alias := AliasOf(j.table);
    var table := aliases[alias];
    var left, from, origin := StepParts(before, blank, rows, j, env, t);
    var lefts, masked := MaskAll(schema, aliases, before), MaskRows(schema, table, rows);
    MaskExtends(schema, aliases, left, alias, from);
    match origin
    case Matched =>
      PairMasked(schema, aliases, j, left, from.value, env);
      MatchedIn(lefts, blank, masked, j, env, Mask(schema, aliases, left), MaskRow(schema, table, from.value));
    case LeftOnly =>
      UnpairedMasked(schema, aliases, j, left, rows, env);
      LeftIn(lefts, blank, masked, j, env, Mask(schema, aliases, left));
    case NoPartner =>
      AloneMasked(schema, aliases, j, from.value, before, env);
      RightIn(lefts, blank, masked, j, env, MaskRow(schema, table, from.value));
  }

  /** And every tuple of that join is the blanked-out form of one. */
  lemma StepBack(schema: Schema, aliases: map<string, string>, before: set<Binding>, blank: Binding,
                 rows: set<Row>, j: Join, env: Env, x: Binding) returns (t: Binding)
    requires ClauseOk(j.on, aliases, schema) && Mask(schema, aliases, blank) == blank
    requires AliasOf(j.table) in aliases && aliases[AliasOf(j.table)] in schema
    requires x in JoinStep(MaskAll(schema, aliases, before), blank,
                           MaskRows(schema, aliases[AliasOf(j.table)], rows), j, env)
    ensures t in JoinStep(before, blank, rows, j, env) && Mask(schema, aliases, t) == x
  {
    hide Mask, MaskRow, Matches, AliasOf, ClauseOk, JoinStep, Unpaired, Alone;
    var alias := AliasOf(j.table);
    var table := aliases[alias];
    var lefts, masked := MaskAll(schema, aliases, before), MaskRows(schema, table, rows);
    var left, from, origin := StepParts(lefts, blank, masked, j, env, x);
    match origin
    case Matched =>
      var l :| l in before && Mask(schema, aliases, l) == left;
      var r :| r in rows && MaskRow(schema, table, r) == from.value;
      PairMasked(schema, aliases, j, l, r, env);
      MatchedIn(before, blank, rows, j, env, l, r);
      t := l[alias := Some(r)];
    case LeftOnly =>
      var l :| l in before && Mask(schema, aliases, l) == left;
      UnpairedMasked(schema, aliases, j, l, rows, env);
      LeftIn(before, blank, rows, j, env, l);
      MaskExtends(schema, aliases, l, alias, None);
      t := l[alias := None];
    case NoPartner =>
      var r :| r in rows && MaskRow(schema, table, r) == from.value;
      AloneMasked(schema, aliases, j, r, before, env);
      RightIn(before, blank, rows, j, env, r);
      MaskExtends(schema, aliases, blank, alias, Some(r));
      t := blank[alias := Some(r)];
  }

  lemma StepMasks(schema: Schema, aliases: map<string, string>, before: set<Binding>, blank: Binding,
                  rows: set<Row>, j: Join, env: Env)
    requires ClauseOk(j.on, aliases, schema) && Mask(schema, aliases, blank) == blank
    requires AliasOf(j.table) in aliases && aliases[AliasOf(j.table)] in schema
    ensures JoinStep(MaskAll(schema, aliases, before), blank, MaskRows(schema, aliases[AliasOf(j.table)], rows), j, env)
            == MaskAll(schema, aliases, JoinStep(before, blank, rows, j, env))
  {
    hide Mask, MaskRow, AliasOf, ClauseOk, JoinStep, MaskRows;
    var whole := JoinStep(before, blank, rows, j, env);
    var maskedRows := MaskRows(schema, aliases[AliasOf(j.table)], rows);
    var masked := JoinStep(MaskAll(schema, aliases, before), blank, maskedRows, j, env);
    forall x | x in masked ensures x in MaskAll(schema, aliases, whole) {
      var t := StepBack(schema, aliases, before, blank, rows, j, env, x);
    }
    forall x | x in MaskAll(schema, aliases, whole) ensures x in masked {
      var t :| t in whole && Mask(schema, aliases, t) == x;
      StepForward(schema, aliases, before, blank, rows, j, env, t);
    }
  }

  // ---------- the statement ----------

  lemma {:induction false} AliasMapAt(tables: seq<TableRef>, i: nat)
    requires i < |tables| && forall k, l :: 0 <= k < l < |tables| ==> AliasOf(tables[k]) != AliasOf(tables[l])
    ensures AliasOf(tables[i]) in AliasMap(tables) && AliasMap(tables)[AliasOf(tables[i])] == Lower(tables[i].name)
  {
    hide AliasOf, Lower;
    var n := |tables| - 1;
    if i < n {
      AliasMapAt(tables[..n], i);
    }
  }

  lemma {:induction false} OnIsClause(joins: seq<Join>, j: nat)
    requires j < |joins| && joins[j].on.Some?
    ensures joins[j].on.value in OnClauses(joins)
  {
    if j == 0 {
      assert OptionList(joins[0].on)[0] == joins[0].on.value;
    } else {
      OnIsClause(joins[1..], j - 1);
    }
  }

  /** Every clause of an accepted statement reads allowed columns only. */
  lemma ClausesOk(schema: Schema, q: Select, j: nat)
    requires Accepts(schema, q)
    ensures ClauseOk(q.where, AliasMap(Tables(q)), schema)
    ensures j < |q.joins| ==> ClauseOk(q.joins[j].on, AliasMap(Tables(q)), schema)
  {
    hide ColumnsOk, AliasMap, EveryScopeBound, EveryUserLinked, TablesKnown, OnClauses;
    var all := Clauses(q);
    if q.where.Some? {
      assert OptionList(q.where)[0] == q.where.value;
      assert q.where.value in all;
    }
    if j < |q.joins| && q.joins[j].on.Some? {
      OnIsClause(q.joins, j);
      assert q.joins[j].on.value in all;
    }
  }

  lemma TableOk(schema: Schema, q: Select, i: nat)
    requires TablesKnown(schema, Tables(q)) && i < |Tables(q)|
    ensures Alias(q, i) in AliasMap(Tables(q)) && AliasMap(Tables(q))[Alias(q, i)] == Name(q, i) && Name(q, i) in schema
  {
    hide AliasOf, Lower;
    AliasMapAt(Tables(q), i);
  }

  lemma {:induction false} BlankIsMasked(schema: Schema, aliases: map<string, string>, q: Select, n: nat)
    requires n <= |q.joins|
    ensures Mask(schema, aliases, NoRows(q, n)) == NoRows(q, n)
    ensures forall a :: a in NoRows(q, n) ==> NoRows(q, n)[a] == None
  {
    hide AliasOf;
    if n > 0 {
      BlankIsMasked(schema, aliases, q, n - 1);
    }
  }

  lemma FirstMasks(schema: Schema, db: Db, q: Select, env: Env)
    requires TablesKnown(schema, Tables(q))
    ensures Tuples(MaskDb(schema, db), q, 0, env) == MaskAll(schema, AliasMap(Tables(q)), Tuples(db, q, 0, env))
  {
    hide AliasOf, Lower, AliasMap, MaskRow, Mask, MaskDb;
    var aliases, alias, table := AliasMap(Tables(q)), Alias(q, 0), Name(q, 0);
    TableOk(schema, q, 0);
    MaskedRows(schema, db, table);
    forall r ensures Mask(schema, aliases, map[alias := Some(r)]) == map[alias := Some(MaskRow(schema, table, r))] {
      MaskExtends(schema, aliases, map[], alias, Some(r));
      MaskNothing(schema, aliases);
      assert map[][alias := Some(r)] == map[alias := Some(r)];
    }
  }

  lemma MaskNothing(schema: Schema, aliases: map<string, string>)
    ensures Mask(schema, aliases, map[]) == map[]
  {
  }

  lemma {:induction false} TuplesMask(schema: Schema, db: Db, q: Select, n: nat, env: Env)
    requires Accepts(schema, q) && n <= |q.joins|
    ensures Tuples(MaskDb(schema, db), q, n, env) == MaskAll(schema, AliasMap(Tables(q)), Tuples(db, q, n, env))
  {
    hide Mask, MaskAll, MaskDb, MaskRows, AliasMap, JoinStep, Rows, NoRows, ClauseOk;
    hide ColumnsOk, EveryScopeBound, EveryUserLinked, TablesKnown, AliasOf, Lower;
    if n == 0 {
      FirstMasks(schema, db, q, env);
    } else {
      var aliases, j := AliasMap(Tables(q)), q.joins[n - 1];
      TuplesMask(schema, db, q, n - 1, env);
      TableOk(schema, q, n);
      assert Alias(q, n) == AliasOf(j.table) && Name(q, n) == Lower(j.table.name);
      ClausesOk(schema, q, n - 1);
      BlankIsMasked(schema, aliases, q, n - 1);
      MaskedRows(schema, db, Name(q, n));
      StepMasks(schema, aliases, Tuples(db, q, n - 1, env), NoRows(q, n - 1), Rows(db, Name(q, n)), j, env);
    }
  }

  /** An accepted statement qualifies, over the database without the hidden columns, exactly the tuples it
      qualifies over the whole database, without those columns: for every join kind and every database. */
  lemma HiddenColumnsAreInvisible(schema: Schema, db: Db, q: Select, env: Env)
    requires Accepts(schema, q)
    ensures Qualifying(MaskDb(schema, db), q, env) == MaskAll(schema, AliasMap(Tables(q)), Qualifying(db, q, env))
  {
    hide Mask, MaskDb, AliasMap, Tuples, Accepts, ClauseOk, Matches;
    var aliases, n := AliasMap(Tables(q)), |q.joins|;
    TuplesMask(schema, db, q, n, env);
    ClausesOk(schema, q, 0);
    forall t ensures Matches(q.where, t, env) <==> Matches(q.where, Mask(schema, aliases, t), env) {
      MatchesMasked(schema, aliases, q.where, t, env);
    }
  }
}
