/**
 * Soft deletes: every call flags the rows of one subtree, table by table, in place of the database's
 * own `ON DELETE CASCADE`.
 */
module SoftDelete {
  import opened Wrappers

  type Id = nat

  type Time = int

  datatype Table =
    | Project | Agent | Conversation | Message | Evaluation | Upload | Flow | FlowVersion
    | Audit | AuditConversation | MessageEvaluation | Improvement | ImprovementConversation
    | Supervisor | AgentReputation | UserReputation | Notification

  datatype Key = Key(table: Table, id: Id)

  /** A row: its non-null foreign keys by target table, and the soft-delete columns. */
  datatype Row = Row(refs: map<Table, Id>, isDeleted: bool, deletedAt: Option<Time>)

  type Rows = map<Key, Row>

  const PROJECT_CHILDREN: seq<Table> := [
    Agent, Conversation, Message, Evaluation, Upload, Flow, FlowVersion, Audit, AuditConversation,
    MessageEvaluation, Improvement, ImprovementConversation, Supervisor, AgentReputation, UserReputation]

  const CONVERSATION_CHILDREN: seq<Table> := [
    Message, Evaluation, AuditConversation, MessageEvaluation, ImprovementConversation]

  predicate Refers(r: Row, table: Table, ids: set<Id>) {
    table in r.refs && r.refs[table] in ids
  }

  // ----- The calls ------------------------------------------------------------------------------

  datatype Call =
    | DeleteProject(project: Id)
    | DeleteConversations(conversations: seq<Id>)
    | DeleteUpload(upload: Id)
    | DeleteSupervisor(supervisor: Id)
    | DeleteFlow(flow: Id)

  /** A call and the clock readings of its updates; no call updates a table twice. */
  datatype Request = Request(call: Call, at: Table -> Time)

  function IdsIn(ids: seq<Id>): set<Id> {
    set i | i in ids
  }

  /** The ids of the rows of `table` that refer to `id`, deleted or not. */
  function Referring(rows: Rows, table: Table, parent: Table, id: Id): set<Id> {
    set k | k in rows && k.table == table && Refers(rows[k], parent, {id}) :: k.id
  }

  predicate UnderConversations(rows: Rows, ids: set<Id>, k: Key)
    requires k in rows
  {
    || (k.table in CONVERSATION_CHILDREN && Refers(rows[k], Conversation, ids))
    || (k.table == Conversation && k.id in ids)
  }

  function ConversationTrees(rows: Rows, ids: set<Id>): set<Key> {
    set k | k in rows && UnderConversations(rows, ids, k)
  }

  /** The row is one that the call's updates select. */
  predicate Covers(rows: Rows, call: Call, k: Key)
    requires k in rows
  {
    match call
    case DeleteProject(p) =>
      (k.table in PROJECT_CHILDREN && Refers(rows[k], Project, {p})) || k == Key(Project, p)
    case DeleteConversations(ids) => UnderConversations(rows, IdsIn(ids), k)
    case DeleteUpload(u) =>
      UnderConversations(rows, Referring(rows, Conversation, Upload, u), k) || k == Key(Upload, u)
    case DeleteSupervisor(s) => k == Key(Supervisor, s)
    case DeleteFlow(f) =>
      || (k.table == ImprovementConversation && Refers(rows[k], Improvement, Referring(rows, Improvement, Flow, f)))
      || (k.table == Improvement && Refers(rows[k], Flow, {f}))
      || (k.table == FlowVersion && Refers(rows[k], Flow, {f}))
      || k == Key(Flow, f)
  }

  function Closure(rows: Rows, call: Call): set<Key> {
    set k | k in rows && Covers(rows, call, k)
  }

  function Flagged(r: Row, now: Time): Row {
    if r.isDeleted then r else r.(isDeleted := true, deletedAt := Some(now))
  }

  /** The rows after the selected ones have been flagged, each table at its own instant. */
  function Apply(rows: Rows, selected: set<Key>, at: Table -> Time): Rows {
    map k | k in rows :: if k in selected then Flagged(rows[k], at(k.table)) else rows[k]
  }

  /** The `where` of an update: rows that refer to certain parents, or rows with certain ids. */
  datatype Where = RefersTo(parent: Table, parents: set<Id>) | HasId(ids: set<Id>)

  predicate Matches(w: Where, k: Key, r: Row) {
    match w
    case RefersTo(parent, parents) => Refers(r, parent, parents)
    case HasId(ids) => k.id in ids
  }

  function Selected(rows: Rows, tables: seq<Table>, w: Where): set<Key> {
    set k | k in rows && k.table in tables && Matches(w, k, rows[k])
  }

  lemma ApplyTwice(rows: Rows, a: set<Key>, b: set<Key>, at: Table -> Time)
    ensures Apply(Apply(rows, a, at), b, at) == Apply(rows, a + b, at)
  {
  }

  /** Flags do not change what an update selects. */
  lemma SelectionStable(rows: Rows, chosen: set<Key>, at: Table -> Time, tables: seq<Table>, w: Where)
    ensures Selected(Apply(rows, chosen, at), tables, w) == Selected(rows, tables, w)
  {
    var after := Apply(rows, chosen, at);
    forall k | k in rows ensures Matches(w, k, after[k]) == Matches(w, k, rows[k]) {
      assert after[k].refs == rows[k].refs;
    }
  }

  /** `UPDATE table SET is_deleted, deleted_at = now WHERE w AND NOT is_deleted`. */
  function Update(rows: Rows, table: Table, w: Where, now: Time): Rows {
    map k | k in rows ::
      if k.table == table && Matches(w, k, rows[k]) && !rows[k].isDeleted
      then rows[k].(isDeleted := true, deletedAt := Some(now)) else rows[k]
  }

  lemma UpdateFlagsSelected(rows: Rows, table: Table, w: Where, at: Table -> Time)
    ensures Update(rows, table, w, at(table)) == Apply(rows, Selected(rows, [table], w), at)
  {
    forall k | k in rows
      ensures Update(rows, table, w, at(table))[k] == Apply(rows, Selected(rows, [table], w), at)[k]
    {
      assert k in Selected(rows, [table], w) <==> k.table == table && Matches(w, k, rows[k]);
    }
  }

  // ----- The code -------------------------------------------------------------------------------

  class Session {
    var rows: Rows

    /** `_flag`, for one table. */
    method Flag(table: Table, w: Where, at: Table -> Time)
      modifies this
      ensures rows == Apply(old(rows), Selected(old(rows), [table], w), at)
    {
      UpdateFlagsSelected(rows, table, w, at);
      rows := Update(rows, table, w, at(table));
    }

    /** The updates of a list of tables, one after the other. */
    method FlagAll(tables: seq<Table>, w: Where, at: Table -> Time)
      modifies this
      ensures rows == Apply(old(rows), Selected(old(rows), tables, w), at)
    {
      ghost var before := rows;
      assert Selected(before, tables[..0], w) == {};
      for i := 0 to |tables|
        invariant rows == Apply(before, Selected(before, tables[..i], w), at)
      {
        SelectionStable(before, Selected(before, tables[..i], w), at, [tables[i]], w);
        Flag(tables[i], w, at);
        ApplyTwice(before, Selected(before, tables[..i], w), Selected(before, [tables[i]], w), at);
        assert tables[..i + 1] == tables[..i] + [tables[i]];
        assert Selected(before, tables[..i + 1], w)
              == Selected(before, tables[..i], w) + Selected(before, [tables[i]], w);
      }
      assert tables[..|tables|] == tables;
    }

    method FlagProject(project: Id, at: Table -> Time)
      modifies this
      ensures rows == Apply(old(rows), Closure(old(rows), DeleteProject(project)), at)
    {
      ghost var before := rows;
      ghost var children := Selected(before, PROJECT_CHILDREN, RefersTo(Project, {project}));
      ghost var root := Selected(before, [Project], HasId({project}));
      FlagAll(PROJECT_CHILDREN, RefersTo(Project, {project}), at);
      SelectionStable(before, children, at, [Project], HasId({project}));
      Flag(Project, HasId({project}), at);
      ApplyTwice(before, children, root, at);
      assert children + root == Closure(before, DeleteProject(project));
    }

    method FlagConversations(conversations: set<Id>, at: Table -> Time)
      modifies this
      ensures rows == Apply(old(rows), ConversationTrees(old(rows), conversations), at)
    {
      ghost var before := rows;
      ghost var children := Selected(before, CONVERSATION_CHILDREN, RefersTo(Conversation, conversations));
      ghost var roots := Selected(before, [Conversation], HasId(conversations));
      assert children + roots == ConversationTrees(before, conversations);
      if conversations == {} {
        return;
      }
      FlagAll(CONVERSATION_CHILDREN, RefersTo(Conversation, conversations), at);
      SelectionStable(before, children, at, [Conversation], HasId(conversations));
      Flag(Conversation, HasId(conversations), at);
      ApplyTwice(before, children, roots, at);
    }

    method FlagUpload(upload: Id, at: Table -> Time)
      modifies this
      ensures rows == Apply(old(rows), Closure(old(rows), DeleteUpload(upload)), at)
    {
      ghost var before := rows;
      var conversations := Referring(rows, Conversation, Upload, upload);
      ghost var trees := ConversationTrees(before, conversations);
      ghost var root := Selected(before, [Upload], HasId({upload}));
      FlagConversations(conversations, at);
      SelectionStable(before, trees, at, [Upload], HasId({upload}));
      Flag(Upload, HasId({upload}), at);
      ApplyTwice(before, trees, root, at);
      assert trees + root == Closure(before, DeleteUpload(upload));
    }

    method FlagSupervisor(supervisor: Id, at: Table -> Time)
      modifies this
      ensures rows == Apply(old(rows), Closure(old(rows), DeleteSupervisor(supervisor)), at)
    {
      assert Selected(rows, [Supervisor], HasId({supervisor})) == Closure(rows, DeleteSupervisor(supervisor));
      Flag(Supervisor, HasId({supervisor}), at);
    }

    method FlagFlow(flow: Id, at: Table -> Time)
      modifies this
      ensures rows == Apply(old(rows), Closure(old(rows), DeleteFlow(flow)), at)
    {
      ghost var before := rows;
      var improvements := Referring(rows, Improvement, Flow, flow);
      ghost var links := Selected(before, [ImprovementConversation], RefersTo(Improvement, improvements));
      ghost var owned := Selected(before, [Improvement], HasId(improvements));
      ghost var versions := Selected(before, [FlowVersion], RefersTo(Flow, {flow}));
      ghost var root := Selected(before, [Flow], HasId({flow}));
      if improvements != {} {
        Flag(ImprovementConversation, RefersTo(Improvement, improvements), at);
        SelectionStable(before, links, at, [Improvement], HasId(improvements));
        Flag(Improvement, HasId(improvements), at);
        ApplyTwice(before, links, owned, at);
      }
      assert rows == Apply(before, links + owned, at);
      SelectionStable(before, links + owned, at, [FlowVersion], RefersTo(Flow, {flow}));
      Flag(FlowVersion, RefersTo(Flow, {flow}), at);
      ApplyTwice(before, links + owned, versions, at);
      SelectionStable(before, links + owned + versions, at, [Flow], HasId({flow}));
      Flag(Flow, HasId({flow}), at);
      ApplyTwice(before, links + owned + versions, root, at);
      FlowClosure(before, flow);
    }

    /** Any of the soft-delete entry points. */
    method Delete(request: Request)
      modifies this
      ensures rows == Apply(old(rows), Closure(old(rows), request.call), request.at)
    {
      match request.call {
        case DeleteProject(p) => FlagProject(p, request.at);
        case DeleteConversations(ids) =>
          assert ConversationTrees(rows, IdsIn(ids)) == Closure(rows, request.call);
          FlagConversations(IdsIn(ids), request.at);
        case DeleteUpload(u) => FlagUpload(u, request.at);
        case DeleteSupervisor(s) => FlagSupervisor(s, request.at);
        case DeleteFlow(f) => FlagFlow(f, request.at);
      }
    }
  }

  lemma FlowClosure(rows: Rows, flow: Id)
    ensures Selected(rows, [ImprovementConversation], RefersTo(Improvement, Referring(rows, Improvement, Flow, flow)))
            + Selected(rows, [Improvement], HasId(Referring(rows, Improvement, Flow, flow)))
            + Selected(rows, [FlowVersion], RefersTo(Flow, {flow}))
            + Selected(rows, [Flow], HasId({flow}))
         == Closure(rows, DeleteFlow(flow))
  {
    var improvements := Referring(rows, Improvement, Flow, flow);
    forall k | k in rows && k.table == Improvement ensures k.id in improvements <==> Refers(rows[k], Flow, {flow}) {
      if k.id in improvements {
        var j :| j in rows && j.table == Improvement && Refers(rows[j], Flow, {flow}) && j.id == k.id;
        assert j == k;
      }
    }
  }
}
