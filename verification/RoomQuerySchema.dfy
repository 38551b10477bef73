/** The validator's own schema, and a statement it accepts whose ON does not filter the users rows. */
module RoomQuerySchema {
  import opened Envelopes
  import opened RoomQuery
  import opened RoomQuerySemantics

  /** The tables and columns a statement may name. */
  const ROOM_QUERY_SCHEMA: Schema := map[
    "rooms" := TableSpec(Some("id"), {
        "id", "type", "name", "creator_id", "agent_enabled", "moderation_enabled", "status", "last_active_at",
        "bot_user_id", "created_at", "updated_at", "deleted_at"}),
    "room_members" := TableSpec(Some("room_id"), {
        "id", "room_id", "user_id", "role", "joined_at", "deleted_at"}),
    "users" := TableSpec(None, {
        "id", "username", "avatar", "role", "is_bot", "status", "last_login_at", "last_active_at", "created_at",
        "updated_at", "deleted_at"}),
    "messages" := TableSpec(Some("room_id"), {
        "id", "room_id", "sender_id", "client_msg_id", "type", "content", "created_at", "deleted_at"}),
    "file_records" := TableSpec(Some("room_id"), {
        "id", "object_key", "original_name", "sha256", "size", "uploader_id", "room_id", "backend", "status",
        "message_id", "created_at", "updated_at"}),
    "agent_configs" := TableSpec(Some("room_id"), {
        "id", "room_id", "system_prompt", "trigger_mode", "trigger_words", "max_history", "temperature",
        "model_name", "rag_enabled", "top_k", "similarity_thold", "rerank_enabled", "max_chunk_tokens",
        "topic_chunk_min_msgs", "topic_chunk_model", "created_at", "updated_at", "deleted_at"}),
    "agent_message_inbox" := TableSpec(Some("room_id"), {
        "id", "event_id", "topic", "partition_id", "kafka_offset", "room_id", "message_id", "sender_id",
        "sender_type", "content", "message_time", "status", "error_message", "created_at", "updated_at"}),
    "moderation_records" := TableSpec(Some("room_id"), {
        "id", "inbox_id", "room_id", "message_id", "sender_id", "status", "rule_code", "reason", "evidence",
        "confidence", "created_at"}),
    "removal_requests" := TableSpec(Some("room_id"), {
        "id", "room_id", "target_user_id", "moderation_record_id", "reason", "evidence", "status",
        "reviewed_by_user_id", "reviewed_at", "created_at", "updated_at", "deleted_at"}),
    "agent_chunks" := TableSpec(Some("room_id"), {
        "id", "room_id", "binding_id", "topic_name", "content", "message_ids", "start_time", "end_time",
        "qdrant_point_id", "created_at"}),
    "room_agent_bindings" := TableSpec(Some("room_id"), {
        "id", "room_id", "bot_id", "legacy_bot_user_id", "enabled", "priority", "created_at", "updated_at",
        "deleted_at"})]

  lemma SchemaIsOk()
    ensures SchemaOk(ROOM_QUERY_SCHEMA)
  {
    LowerNames();
  }

  function Link(user: string): Expr {
    Eq(Column(user, "id"), Column("rm", "user_id"))
  }

  /** FROM room_members rm CROSS JOIN users u LEFT JOIN users v ON u.id = rm.user_id AND v.id = rm.user_id
      WHERE rm.room_id = __ROOM_ID__ */
  const UNFILTERED: Select := Select(
    [Column("u", "id")],
    TableRef("room_members", "rm"),
    [Join(Cross, TableRef("users", "u"), None),
     Join(Left, TableRef("users", "v"), Some(And(Link("u"), Link("v"))))],
    Some(Eq(Column("rm", "room_id"), Column("", ROOM_MARKER))),
    [])

  lemma Words()
    ensures Lower("rm") == "rm" && Lower("u") == "u" && Lower("v") == "v" && Lower("users") == "users"
    ensures Lower("room_members") == "room_members" && Lower("") == "" && Upper(ROOM_MARKER) == ROOM_MARKER
    ensures Upper("id") != ROOM_MARKER && Upper("user_id") != ROOM_MARKER && Upper("room_id") != ROOM_MARKER
    ensures Lower("id") == "id" && Lower("user_id") == "user_id" && Lower("room_id") == "room_id"
  {
    assert |Upper("id")| == 2 && |Upper("user_id")| == 7 && |Upper("room_id")| == 7;
  }

  lemma UnfilteredTables()
    ensures Tables(UNFILTERED) == [TableRef("room_members", "rm"), TableRef("users", "u"), TableRef("users", "v")]
  {
  }

  lemma UnfilteredAliases()
    ensures AliasMap(Tables(UNFILTERED)) == map["rm" := "room_members", "u" := "users", "v" := "users"]
    ensures Alias(UNFILTERED, 0) == "rm" && Alias(UNFILTERED, 1) == "u" && Alias(UNFILTERED, 2) == "v"
    ensures Name(UNFILTERED, 0) == "room_members" && Name(UNFILTERED, 1) == "users" && Name(UNFILTERED, 2) == "users"
  {
    hide Lower;
    Words();
    UnfilteredTables();
    var tables := Tables(UNFILTERED);
    var two, one := tables[..2], tables[..1];
    assert two[..1] == one && one[..0] == [];
    assert AliasMap(one) == map["rm" := "room_members"];
    assert AliasMap(two) == map["rm" := "room_members", "u" := "users"];
  }

  lemma UnfilteredClauses()
    ensures Clauses(UNFILTERED) == [Column("u", "id"), UNFILTERED.where.value, And(Link("u"), Link("v"))]
  {
    var q := UNFILTERED;
    assert q.joins[1..] == [q.joins[1]];
    assert q.joins[1..][1..] == [];
  }

  lemma UnfilteredLinks()
    ensures EveryUserLinked(UNFILTERED)
  {
    hide Lower, Upper, AliasMap;
    Words();
    UnfilteredTables();
    UserIsLinked("u");
    UserIsLinked("v");
    hide HasMember;
  }

  lemma UserIsLinked(user: string)
    requires (user == "u" || user == "v")
    ensures HasMember(UNFILTERED, user)
  {
    hide Lower, Upper, AliasMap;
    Words();
    UnfilteredTables();
    var q := UNFILTERED;
    var on := q.joins[1].on;
    assert Conjunct(on.value, Link(user)) && IsLink(Link(user), user, "rm");
    assert LinkedBy(on, user, "rm");
    assert Linked(q, user, "rm");
    assert AliasOf(Tables(q)[0]) == "rm";
  }

  lemma UnfilteredScope(schema: Schema)
    requires SchemaOk(schema)
    ensures TablesKnown(schema, Tables(UNFILTERED)) && EveryScopeBound(schema, UNFILTERED)
  {
    hide Lower, Upper;
    Words();
    UnfilteredTables();
    var where := UNFILTERED.where.value;
    assert Conjunct(where, where) && IsScopeEquality(where, "rm", "room_id");
    assert Scoped(UNFILTERED.where, "rm", "room_id");
  }

  lemma UnfilteredColumns(schema: Schema)
    requires SchemaOk(schema)
    ensures forall i :: 0 <= i < |Clauses(UNFILTERED)| ==>
              ColumnsOk(Clauses(UNFILTERED)[i], AliasMap(Tables(UNFILTERED)), schema)
  {
    hide Lower, Upper, AliasMap, Clauses;
    Words();
    UnfilteredAliases();
    UnfilteredClauses();
    var aliases := AliasMap(Tables(UNFILTERED));
    LinkColumns(schema, aliases, "u");
    LinkColumns(schema, aliases, "v");
  }

  lemma LinkColumns(schema: Schema, aliases: map<string, string>, user: string)
    requires SchemaOk(schema) && Lower(user) == user && "rm" in aliases && aliases["rm"] == "room_members"
    requires user in aliases && aliases[user] == "users"
    ensures ColumnsOk(Link(user), aliases, schema)
  {
    hide Lower, Upper;
    Words();
    assert ColumnsOk(Column(user, "id"), aliases, schema);
    assert ColumnsOk(Column("rm", "user_id"), aliases, schema);
  }

  lemma UnfilteredIsAccepted(schema: Schema)
    requires SchemaOk(schema)
    ensures Accepts(schema, UNFILTERED)
  {
    hide ColumnsOk, AliasMap, Clauses, EveryUserLinked, EveryScopeBound, TablesKnown, SchemaOk;
    UnfilteredColumns(schema);
    UnfilteredScope(schema);
    UnfilteredLinks();
  }

  function UserRow(id: int): Row {
    map["id" := Num(id)]
  }

  function MemberRow(room: int, user: int): Row {
    map["room_id" := Num(room), "user_id" := Num(user)]
  }

  /** Two users, of whom only the first is in the room. */
  function TwoUsers(room: int, member: int, stranger: int): Db {
    map["users" := {UserRow(member), UserRow(stranger)}, "room_members" := {MemberRow(room, member)}]
  }

  /** The tuple that pairs the membership with the stranger. */
  function StrangerTuple(room: int, member: int, stranger: int): Binding {
    map["rm" := Some(MemberRow(room, member)), "u" := Some(UserRow(stranger)), "v" := None]
  }

  lemma StrangerFailsOn(env: Env, member: int, stranger: int, v: Row)
    requires member != stranger
    ensures !Matches(UNFILTERED.joins[1].on, StrangerTuple(env.room, member, stranger)["v" := Some(v)], env)
  {
    hide Lower, Upper;
    Words();
    var t := StrangerTuple(env.room, member, stranger)["v" := Some(v)];
    assert Eval(Link("u"), t, env) == Num(0);
  }

  lemma StrangerJoins(env: Env, member: int, stranger: int)
    requires member != stranger
    ensures StrangerTuple(env.room, member, stranger)
            in Tuples(TwoUsers(env.room, member, stranger), UNFILTERED, 2, env)
  {
    hide Lower, Upper, Matches;
    Words();
    var q, db := UNFILTERED, TwoUsers(env.room, member, stranger);
    var first: Binding := map["rm" := Some(MemberRow(env.room, member))];
    assert first in Tuples(db, q, 0, env);
    var second: Binding := first["u" := Some(UserRow(stranger))];
    assert Matches(q.joins[0].on, second, env) by { NoCondition(second, env); }
    assert second in Tuples(db, q, 1, env);
    var t := StrangerTuple(env.room, member, stranger);
    assert second["v" := None] == t;
    forall r | r in Rows(db, "users") ensures !Matches(q.joins[1].on, second["v" := Some(r)], env) {
      StrangerFailsOn(env, member, stranger, r);
      assert second["v" := Some(r)] == t["v" := Some(r)];
    }
  }

  lemma NoCondition(t: Binding, env: Env)
    ensures Matches(UNFILTERED.joins[0].on, t, env)
  {
  }

  /** The users part of the claim does need enforced links: the statement is accepted, and a user
      who is no member of the room appears in a qualifying tuple. */
  lemma UnenforcedLinkShowsStranger(schema: Schema, env: Env, member: int, stranger: int)
    requires SchemaOk(schema) && member != stranger
    ensures var db, t := TwoUsers(env.room, member, stranger), StrangerTuple(env.room, member, stranger);
            && Accepts(schema, UNFILTERED) && t in Qualifying(db, UNFILTERED, env)
            && t["u"] == Some(UserRow(stranger)) && !IsMember(db, UserRow(stranger), env.room)
  {
    hide Lower, Upper, Tuples, Accepts;
    Words();
    UnfilteredIsAccepted(schema);
    StrangerJoins(env, member, stranger);
    var t := StrangerTuple(env.room, member, stranger);
    assert Eval(UNFILTERED.where.value, t, env) == Num(1);
  }
}
