/** Soft deletes over whole runs of calls, and against the cascades of the database schema. */
module SoftDeleteRuns {
  import opened Wrappers
  import opened SoftDelete

  // ----- Runs -----------------------------------------------------------------------------------

  /** The rows after the first `n` requests. */
  function After(rows: Rows, requests: seq<Request>, n: nat): Rows
    requires n <= |requests|
  {
    if n == 0 then rows
    else
      var before := After(rows, requests, n - 1);
      Apply(before, Closure(before, requests[n - 1].call), requests[n - 1].at)
  }

  /** The executable run: one call of the session after the other. */
  method Run(session: Session, requests: seq<Request>)
    modifies session
    ensures session.rows == After(old(session.rows), requests, |requests|)
  {
    for i := 0 to |requests|
      invariant session.rows == After(old(session.rows), requests, i)
    {
      session.Delete(requests[i]);
    }
  }

  /** Two states of the same rows: the same keys and references. */
  predicate SameShape(a: Rows, b: Rows) {
    a.Keys == b.Keys && forall k :: k in a ==> a[k].refs == b[k].refs
  }

  lemma ClosureOfShape(a: Rows, b: Rows, call: Call)
    requires SameShape(a, b)
    ensures Closure(a, call) == Closure(b, call)
  {
    forall table, parent, id ensures Referring(a, table, parent, id) == Referring(b, table, parent, id) {
    }
    forall k | k in a ensures Covers(a, call, k) == Covers(b, call, k) {
    }
  }

  lemma {:induction false} RunKeepsShape(rows: Rows, requests: seq<Request>, n: nat)
    requires n <= |requests|
    ensures SameShape(rows, After(rows, requests, n))
  {
    if n == 0 {
    } else {
      RunKeepsShape(rows, requests, n - 1);
    }
  }

  /** One of the first `n` requests selects the row, as the fixed rows were laid out. */
  predicate Covered(rows: Rows, requests: seq<Request>, n: nat, k: Key)
    requires n <= |requests|
  {
    exists i :: 0 <= i < n && k in Closure(rows, requests[i].call)
  }

  /** The first request among the first `n` that selects the row. */
  function FirstCover(rows: Rows, requests: seq<Request>, n: nat, k: Key): (i: nat)
    requires n <= |requests| && Covered(rows, requests, n, k)
    ensures i < n && k in Closure(rows, requests[i].call)
    ensures forall j :: 0 <= j < i ==> k !in Closure(rows, requests[j].call)
  {
    if n > 1 && Covered(rows, requests, n - 1, k) then FirstCover(rows, requests, n - 1, k) else n - 1
  }

  /** What becomes of a row: the time of the first request that selects it, if any does. */
  function Fate(rows: Rows, requests: seq<Request>, n: nat, k: Key): Row
    requires n <= |requests| && k in rows
  {
    if !Covered(rows, requests, n, k) then rows[k]
    else Flagged(rows[k], requests[FirstCover(rows, requests, n, k)].at(k.table))
  }

  lemma CoveredStep(rows: Rows, requests: seq<Request>, n: nat, k: Key)
    requires 0 < n <= |requests|
    ensures Covered(rows, requests, n, k)
       <==> Covered(rows, requests, n - 1, k) || k in Closure(rows, requests[n - 1].call)
    ensures Covered(rows, requests, n - 1, k)
        ==> FirstCover(rows, requests, n, k) == FirstCover(rows, requests, n - 1, k)
    ensures Covered(rows, requests, n, k) && !Covered(rows, requests, n - 1, k)
        ==> FirstCover(rows, requests, n, k) == n - 1
  {
  }

  lemma FateStep(rows: Rows, requests: seq<Request>, n: nat, k: Key)
    requires 0 < n <= |requests| && k in rows
    ensures var before, last := Fate(rows, requests, n - 1, k), requests[n - 1];
            Fate(rows, requests, n, k) ==
            (if k in Closure(rows, last.call) then Flagged(before, last.at(k.table)) else before)
  {
    CoveredStep(rows, requests, n, k);
  }

  lemma {:induction false} RunIsFate(rows: Rows, requests: seq<Request>, n: nat, k: Key)
    requires n <= |requests| && k in rows
    ensures k in After(rows, requests, n) && After(rows, requests, n)[k] == Fate(rows, requests, n, k)
  {
    if n == 0 {
    } else {
      RunIsFate(rows, requests, n - 1, k);
      RunKeepsShape(rows, requests, n - 1);
      ClosureOfShape(rows, After(rows, requests, n - 1), requests[n - 1].call);
      FateStep(rows, requests, n, k);
    }
  }

  /**
   * After any run: a live row is deleted exactly when some request's closure, computed on the
   * original rows, contains it, and then its time is the one of the first such request; a row that
   * was deleted before keeps its time.
   */
  lemma RunDeletesUnion(rows: Rows, requests: seq<Request>, n: nat, k: Key)
    requires n <= |requests| && k in rows
    ensures k in After(rows, requests, n) && After(rows, requests, n)[k] == Fate(rows, requests, n, k)
    ensures var r := Fate(rows, requests, n, k);
            && r.refs == rows[k].refs
            && (rows[k].isDeleted || !Covered(rows, requests, n, k) ==> r == rows[k])
            && (!rows[k].isDeleted && Covered(rows, requests, n, k) ==>
                  r.isDeleted && r.deletedAt == Some(requests[FirstCover(rows, requests, n, k)].at(k.table)))
  {
    RunIsFate(rows, requests, n, k);
  }

  function DeletedKeys(rows: Rows): set<Key> {
    set k | k in rows && rows[k].isDeleted
  }

  lemma DeletedIff(rows: Rows, requests: seq<Request>, n: nat, k: Key)
    requires n <= |requests| && k in rows
    ensures k in DeletedKeys(After(rows, requests, n)) <==> rows[k].isDeleted || Covered(rows, requests, n, k)
  {
    RunDeletesUnion(rows, requests, n, k);
  }

  function Calls(requests: seq<Request>): set<Call> {
    set i | 0 <= i < |requests| :: requests[i].call
  }

  lemma MoreCallsDeleteMore(rows: Rows, a: seq<Request>, b: seq<Request>)
    requires Calls(a) <= Calls(b)
    ensures DeletedKeys(After(rows, a, |a|)) <= DeletedKeys(After(rows, b, |b|))
  {
    RunKeepsShape(rows, a, |a|);
    forall k | k in DeletedKeys(After(rows, a, |a|)) ensures k in DeletedKeys(After(rows, b, |b|)) {
      DeletedIff(rows, a, |a|, k);
      DeletedIff(rows, b, |b|, k);
      CoveredByCalls(rows, a, b, k);
    }
  }

  /** Neither the order of the calls nor how often each is made matters for what ends up deleted. */
  lemma OrderDoesNotMatter(rows: Rows, a: seq<Request>, b: seq<Request>)
    requires Calls(a) == Calls(b)
    ensures DeletedKeys(After(rows, a, |a|)) == DeletedKeys(After(rows, b, |b|))
  {
    MoreCallsDeleteMore(rows, a, b);
    MoreCallsDeleteMore(rows, b, a);
  }

  lemma CoveredByCalls(rows: Rows, a: seq<Request>, b: seq<Request>, k: Key)
    requires Calls(a) <= Calls(b)
    ensures Covered(rows, a, |a|, k) ==> Covered(rows, b, |b|, k)
  {
    if Covered(rows, a, |a|, k) {
      var i :| 0 <= i < |a| && k in Closure(rows, a[i].call);
      assert a[i].call in Calls(a);
      var j :| 0 <= j < |b| && b[j].call == a[i].call;
      assert k in Closure(rows, b[j].call);
    }
  }

  // ----- Against the cascades of the schema ----------------------------------------------------

  /**
   * The foreign keys declared `ON DELETE CASCADE`, and the one from a conversation to its upload,
   * which the schema sets to null but the service cascades along.
   */
  predicate Cascades(child: Table, parent: Table) {
    match parent
    case Project => child != Project
    case Agent => child in {Conversation, Evaluation, Upload, AgentReputation}
    case Upload => child == Conversation
    case Conversation => child in {Message, Evaluation, AuditConversation, MessageEvaluation, ImprovementConversation}
    case Message => child == MessageEvaluation
    case Flow => child in {FlowVersion, Improvement}
    case Audit => child == AuditConversation
    case Improvement => child == ImprovementConversation
    case _ => false
  }

  /** `k` hangs from `parent` along a cascading foreign key. */
  predicate HangsFrom(rows: Rows, k: Key, parent: Key)
    requires k in rows
  {
    Cascades(k.table, parent.table) && Refers(rows[k], parent.table, {parent.id})
  }

  /**
   * What the service keeps true of its rows: references exist, a child has its parent's project, and
   * a message evaluation has its message's conversation. Only a notification may have no project.
   */
  predicate Consistent(rows: Rows) {
    && (forall k, t :: k in rows && t in rows[k].refs ==> Key(t, rows[k].refs[t]) in rows)
    && (forall k :: k in rows && k.table != Project && k.table != Notification ==> Project in rows[k].refs)
    && (forall k, t :: (k in rows && t in rows[k].refs && Cascades(k.table, t) && t != Project) ==>
          rows[Key(t, rows[k].refs[t])].refs[Project] == rows[k].refs[Project])
    && (forall k :: k in rows && k.table == Message ==> Conversation in rows[k].refs)
    && (forall k :: k in rows && k.table == MessageEvaluation ==>
          Message in rows[k].refs && Conversation in rows[k].refs)
    && (forall k :: k in rows && k.table == MessageEvaluation ==>
          rows[Key(Message, rows[k].refs[Message])].refs[Conversation] == rows[k].refs[Conversation])
  }

  predicate CascadeClosed(rows: Rows, s: set<Key>) {
    forall k, parent :: k in rows && parent in s && HangsFrom(rows, k, parent) ==> k in s
  }

  /** The rows a call names. */
  function Roots(rows: Rows, call: Call): set<Key> {
    set k | k in rows &&
      match call
      case DeleteProject(p) => k == Key(Project, p)
      case DeleteConversations(ids) => k.table == Conversation && k.id in ids
      case DeleteUpload(u) => k == Key(Upload, u)
      case DeleteSupervisor(s) => k == Key(Supervisor, s)
      case DeleteFlow(f) => k == Key(Flow, f)
  }

  // ----- The table that the cascades leave out --------------------------------------------------

  /** The notifications of the project a call deletes; the code flags none of them. */
  function Missed(rows: Rows, call: Call): set<Key> {
    set k | k in rows && k.table == Notification && call.DeleteProject? && Refers(rows[k], Project, {call.project})
  }

  lemma NotificationNeverCovered(rows: Rows, call: Call, k: Key)
    requires k in rows && k.table == Notification
    ensures !Covers(rows, call, k)
  {
    ConversationChild(Notification);
    if call.DeleteProject? && Covers(rows, call, k) {
      CoveredByProject(rows, call.project, k);
    }
  }

  /** A notification hangs from a row of a call's closure exactly when the call deletes its project. */
  lemma NotificationMissed(rows: Rows, call: Call, k: Key, parent: Key)
    requires k in rows && parent in rows && k.table == Notification && HangsFrom(rows, k, parent)
    ensures Covers(rows, call, parent) <==> k in Missed(rows, call) && parent == Key(Project, call.project)
  {
    assert parent.table == Project;
    ConversationChild(Project);
    if call.DeleteProject? && Covers(rows, call, parent) {
      CoveredByProject(rows, call.project, parent);
    }
  }

  /** With the missed notifications, if any, the closure of a call is closed under the schema's cascades. */
  lemma ClosureWithMissedIsClosed(rows: Rows, call: Call)
    requires Consistent(rows)
    ensures CascadeClosed(rows, Closure(rows, call) + Missed(rows, call))
  {
    forall k, parent | k in rows && parent in Closure(rows, call) + Missed(rows, call) && HangsFrom(rows, k, parent)
      ensures k in Closure(rows, call) + Missed(rows, call)
    {
      assert parent in Closure(rows, call);
      if k.table == Notification {
        NotificationMissed(rows, call, k, parent);
      } else {
        ChildCovered(rows, call, k, parent);
      }
    }
  }

  /** On its own it is closed exactly when the call misses nothing. */
  lemma ClosureIsClosedIff(rows: Rows, call: Call)
    requires Consistent(rows)
    ensures CascadeClosed(rows, Closure(rows, call)) <==> Missed(rows, call) == {}
  {
    ClosureWithMissedIsClosed(rows, call);
    if Missed(rows, call) == {} {
      assert Closure(rows, call) + Missed(rows, call) == Closure(rows, call);
    } else {
      var k :| k in Missed(rows, call);
      var parent := Key(Project, call.project);
      assert Key(Project, rows[k].refs[Project]) in rows;
      assert parent in Closure(rows, call) && HangsFrom(rows, k, parent);
      NotificationNeverCovered(rows, call, k);
    }
  }

  lemma ProjectOfChild(rows: Rows, k: Key, parent: Key)
    requires Consistent(rows) && k in rows && parent in rows && HangsFrom(rows, k, parent) && parent.table != Project
    ensures Project in rows[k].refs && Project in rows[parent].refs
    ensures rows[parent].refs[Project] == rows[k].refs[Project]
  {
    assert Key(parent.table, rows[k].refs[parent.table]) == parent;
  }

  lemma ChildCovered(rows: Rows, call: Call, k: Key, parent: Key)
    requires Consistent(rows) && k in rows && parent in rows
    requires HangsFrom(rows, k, parent) && Covers(rows, call, parent) && k.table != Notification
    ensures Covers(rows, call, k)
  {
    match call {
      case DeleteProject(p) => ChildInProject(rows, p, k, parent);
      case DeleteConversations(ids) => ChildUnderConversations(rows, IdsIn(ids), k, parent);
      case DeleteUpload(u) => ChildUnderUpload(rows, u, k, parent);
      case DeleteSupervisor(s) =>
      case DeleteFlow(f) => ChildUnderFlow(rows, f, k, parent);
    }
  }

  lemma InProject(rows: Rows, p: Id, k: Key)
    requires k in rows && k.table != Project && k.table != Notification && Refers(rows[k], Project, {p})
    ensures Covers(rows, DeleteProject(p), k)
  {
    EveryTableIsAProjectChild(k.table);
  }

  lemma CoveredByProject(rows: Rows, p: Id, k: Key)
    requires k in rows && Covers(rows, DeleteProject(p), k)
    ensures k.table != Notification
    ensures if k.table == Project then k.id == p else Refers(rows[k], Project, {p})
  {
    assert forall i :: 0 <= i < |PROJECT_CHILDREN| ==> PROJECT_CHILDREN[i] != Project;
    assert forall i :: 0 <= i < |PROJECT_CHILDREN| ==> PROJECT_CHILDREN[i] != Notification;
  }

  lemma ChildInProject(rows: Rows, p: Id, k: Key, parent: Key)
    requires Consistent(rows) && k in rows && parent in rows
    requires HangsFrom(rows, k, parent) && Covers(rows, DeleteProject(p), parent) && k.table != Notification
    ensures Covers(rows, DeleteProject(p), k)
  {
    CoveredByProject(rows, p, parent);
    if parent.table != Project {
      ProjectOfChild(rows, k, parent);
    }
    InProject(rows, p, k);
  }

  lemma ChildUnderUpload(rows: Rows, u: Id, k: Key, parent: Key)
    requires Consistent(rows) && k in rows && parent in rows
    requires HangsFrom(rows, k, parent) && Covers(rows, DeleteUpload(u), parent)
    ensures Covers(rows, DeleteUpload(u), k)
  {
    var ids := Referring(rows, Conversation, Upload, u);
    if UnderConversations(rows, ids, parent) {
      ChildUnderConversations(rows, ids, k, parent);
    } else {
      assert k.id in ids;
    }
  }

  lemma ChildUnderFlow(rows: Rows, f: Id, k: Key, parent: Key)
    requires k in rows && parent in rows
    requires HangsFrom(rows, k, parent) && Covers(rows, DeleteFlow(f), parent)
    ensures Covers(rows, DeleteFlow(f), k)
  {
    assert parent.table in {ImprovementConversation, Improvement, FlowVersion, Flow};
    if parent.table == Improvement {
      assert parent.id in Referring(rows, Improvement, Flow, f);
    }
  }

  lemma EveryTableIsAProjectChild(t: Table)
    ensures t != Project && t != Notification ==> t in PROJECT_CHILDREN
  {
    match t {
      case Project =>
      case Agent => assert PROJECT_CHILDREN[0] == t;
      case Conversation => assert PROJECT_CHILDREN[1] == t;
      case Message => assert PROJECT_CHILDREN[2] == t;
      case Evaluation => assert PROJECT_CHILDREN[3] == t;
      case Upload => assert PROJECT_CHILDREN[4] == t;
      case Flow => assert PROJECT_CHILDREN[5] == t;
      case FlowVersion => assert PROJECT_CHILDREN[6] == t;
      case Audit => assert PROJECT_CHILDREN[7] == t;
      case AuditConversation => assert PROJECT_CHILDREN[8] == t;
      case MessageEvaluation => assert PROJECT_CHILDREN[9] == t;
      case Improvement => assert PROJECT_CHILDREN[10] == t;
      case ImprovementConversation => assert PROJECT_CHILDREN[11] == t;
      case Supervisor => assert PROJECT_CHILDREN[12] == t;
      case AgentReputation => assert PROJECT_CHILDREN[13] == t;
      case UserReputation => assert PROJECT_CHILDREN[14] == t;
      case Notification =>
    }
  }

  lemma ConversationOfEvaluation(rows: Rows, k: Key, parent: Key)
    requires Consistent(rows) && k in rows && parent in rows && parent.table == Message && HangsFrom(rows, k, parent)
    ensures Conversation in rows[k].refs && Conversation in rows[parent].refs
    ensures rows[k].refs[Conversation] == rows[parent].refs[Conversation]
  {
    assert Key(Message, rows[k].refs[Message]) == parent;
  }

  lemma ConversationChild(t: Table)
    ensures t in CONVERSATION_CHILDREN
       <==> t in {Message, Evaluation, AuditConversation, MessageEvaluation, ImprovementConversation}
  {
    assert CONVERSATION_CHILDREN[0] == Message && CONVERSATION_CHILDREN[1] == Evaluation
        && CONVERSATION_CHILDREN[2] == AuditConversation && CONVERSATION_CHILDREN[3] == MessageEvaluation
        && CONVERSATION_CHILDREN[4] == ImprovementConversation;
  }

  lemma ChildUnderConversations(rows: Rows, ids: set<Id>, k: Key, parent: Key)
    requires Consistent(rows) && k in rows && parent in rows
    requires HangsFrom(rows, k, parent) && UnderConversations(rows, ids, parent)
    ensures UnderConversations(rows, ids, k)
  {
    ConversationChild(k.table);
    ConversationChild(parent.table);
    if parent.table == Message {
      ConversationOfEvaluation(rows, k, parent);
    }
  }

  lemma ProjectTreeIn(rows: Rows, p: Id, s: set<Key>, k: Key)
    requires Consistent(rows) && CascadeClosed(rows, s) && Roots(rows, DeleteProject(p)) <= s
    requires k in Closure(rows, DeleteProject(p)) && k != Key(Project, p)
    ensures k in s
  {
    var root := Key(Project, p);
    CoveredByProject(rows, p, k);
    assert rows[k].refs[Project] == p && root in rows;
    assert root in Roots(rows, DeleteProject(p)) && HangsFrom(rows, k, root);
  }

  lemma UploadTreeIn(rows: Rows, u: Id, s: set<Key>, k: Key)
    requires Consistent(rows) && CascadeClosed(rows, s) && Roots(rows, DeleteUpload(u)) <= s
    requires k in Closure(rows, DeleteUpload(u)) && k != Key(Upload, u)
    ensures k in s
  {
    var root := Key(Upload, u);
    var conversations := Referring(rows, Conversation, Upload, u);
    forall c | c in rows && c.table == Conversation && c.id in conversations ensures c in s {
      var j :| j in rows && j.table == Conversation && Refers(rows[j], Upload, {u}) && j.id == c.id;
      assert j == c && root in Roots(rows, DeleteUpload(u)) && HangsFrom(rows, c, root);
    }
    UnderConversationsIn(rows, conversations, s, k);
  }

  lemma ConversationTreesIn(rows: Rows, ids: seq<Id>, s: set<Key>, k: Key)
    requires Consistent(rows) && CascadeClosed(rows, s) && Roots(rows, DeleteConversations(ids)) <= s
    requires k in Closure(rows, DeleteConversations(ids))
    ensures k in s
  {
    forall c | c in rows && c.table == Conversation && c.id in IdsIn(ids) ensures c in s {
      assert c in Roots(rows, DeleteConversations(ids));
    }
    UnderConversationsIn(rows, IdsIn(ids), s, k);
  }

  lemma CallTreeIn(rows: Rows, call: Call, s: set<Key>, k: Key)
    requires Consistent(rows) && CascadeClosed(rows, s) && Roots(rows, call) <= s && k in Closure(rows, call)
    ensures k in s
  {
    if k !in Roots(rows, call) {
      match call {
        case DeleteProject(p) => ProjectTreeIn(rows, p, s, k);
        case DeleteConversations(ids) => ConversationTreesIn(rows, ids, s, k);
        case DeleteUpload(u) => UploadTreeIn(rows, u, s, k);
        case DeleteSupervisor(_) =>
        case DeleteFlow(f) => FlowTreeIn(rows, f, s, k);
      }
    }
  }

  /** Nothing beyond the cascades: any closed set with the named rows contains the closure. */
  lemma ClosureIsLeast(rows: Rows, call: Call, s: set<Key>)
    requires Consistent(rows) && CascadeClosed(rows, s) && Roots(rows, call) <= s
    ensures Closure(rows, call) <= s
  {
    forall k | k in Closure(rows, call) ensures k in s {
      CallTreeIn(rows, call, s, k);
    }
  }

  lemma UnderConversationsIn(rows: Rows, ids: set<Id>, s: set<Key>, k: Key)
    requires Consistent(rows) && CascadeClosed(rows, s) && k in rows && UnderConversations(rows, ids, k)
    requires forall c :: c in rows && c.table == Conversation && c.id in ids ==> c in s
    ensures k in s
  {
    if k.table != Conversation {
      var parent := Key(Conversation, rows[k].refs[Conversation]);
      assert parent in s && HangsFrom(rows, k, parent);
    }
  }

  lemma FlowChildIn(rows: Rows, f: Id, s: set<Key>, k: Key)
    requires Consistent(rows) && CascadeClosed(rows, s) && Roots(rows, DeleteFlow(f)) <= s
    requires k in rows && k.table in {Improvement, FlowVersion} && Refers(rows[k], Flow, {f})
    ensures k in s
  {
    var root := Key(Flow, f);
    assert Key(Flow, rows[k].refs[Flow]) == root;
    assert root in Roots(rows, DeleteFlow(f)) && HangsFrom(rows, k, root);
  }

  lemma ImprovementLinkIn(rows: Rows, f: Id, s: set<Key>, k: Key)
    requires Consistent(rows) && CascadeClosed(rows, s) && Roots(rows, DeleteFlow(f)) <= s
    requires k in rows && k.table == ImprovementConversation
    requires Refers(rows[k], Improvement, Referring(rows, Improvement, Flow, f))
    ensures k in s
  {
    var parent := Key(Improvement, rows[k].refs[Improvement]);
    var j :| j in rows && j.table == Improvement && Refers(rows[j], Flow, {f}) && j.id == parent.id;
    assert j == parent;
    FlowChildIn(rows, f, s, parent);
    assert HangsFrom(rows, k, parent);
  }

  lemma FlowTreeIn(rows: Rows, f: Id, s: set<Key>, k: Key)
    requires Consistent(rows) && CascadeClosed(rows, s) && Roots(rows, DeleteFlow(f)) <= s
    requires k in Closure(rows, DeleteFlow(f)) && k != Key(Flow, f)
    ensures k in s
  {
    if k.table == ImprovementConversation {
      ImprovementLinkIn(rows, f, s, k);
    } else {
      FlowChildIn(rows, f, s, k);
    }
  }

  lemma MissedIn(rows: Rows, call: Call, s: set<Key>)
    requires Consistent(rows) && CascadeClosed(rows, s) && Roots(rows, call) <= s
    ensures Missed(rows, call) <= s
  {
    forall k | k in Missed(rows, call) ensures k in s {
      var root := Key(Project, call.project);
      assert Key(Project, rows[k].refs[Project]) in rows;
      assert root in Roots(rows, call) && HangsFrom(rows, k, root);
    }
  }

  /**
   * What the schema's cascades take along with a call is its coded closure and, for a project, the
   * project's notifications: together they are the least closed set with the named rows. So the code
   * does what the schema would exactly when there are none.
   */
  lemma CascadeIsExact(rows: Rows, call: Call)
    requires Consistent(rows)
    ensures var all := Closure(rows, call) + Missed(rows, call);
            && Roots(rows, call) <= all && CascadeClosed(rows, all)
            && (forall s :: CascadeClosed(rows, s) && Roots(rows, call) <= s ==> all <= s)
    ensures CascadeClosed(rows, Closure(rows, call)) <==> Missed(rows, call) == {}
  {
    ClosureIsClosedIff(rows, call);
    ClosureWithMissedIsClosed(rows, call);
    forall s | CascadeClosed(rows, s) && Roots(rows, call) <= s
      ensures Closure(rows, call) + Missed(rows, call) <= s
    {
      ClosureIsLeast(rows, call, s);
      MissedIn(rows, call, s);
    }
  }

  /** No live row hangs from a deleted one. */
  predicate NoLiveOrphans(rows: Rows) {
    forall k, parent :: k in rows && parent in rows && HangsFrom(rows, k, parent) && rows[parent].isDeleted
      ==> rows[k].isDeleted
  }

  /** The `i`-th request deletes the project of a live notification. */
  predicate Strands(rows: Rows, requests: seq<Request>, i: nat, k: Key)
    requires i < |requests| && k in rows
  {
    k in Missed(rows, requests[i].call) && !rows[k].isDeleted
  }

  lemma {:induction false} NotificationStays(rows: Rows, requests: seq<Request>, n: nat, k: Key)
    requires n <= |requests| && k in rows && k.table == Notification
    ensures k in After(rows, requests, n) && After(rows, requests, n)[k] == rows[k]
  {
    RunDeletesUnion(rows, requests, n, k);
    forall i | 0 <= i < n ensures k !in Closure(rows, requests[i].call) {
      NotificationNeverCovered(rows, requests[i].call, k);
    }
  }

  lemma StrandedIsOrphan(rows: Rows, requests: seq<Request>, n: nat, i: nat, k: Key)
    requires Consistent(rows) && i < n <= |requests| && k in rows && Strands(rows, requests, i, k)
    ensures !NoLiveOrphans(After(rows, requests, n))
  {
    var after, parent := After(rows, requests, n), Key(Project, requests[i].call.project);
    NotificationStays(rows, requests, n, k);
    RunKeepsShape(rows, requests, n);
    assert Key(Project, rows[k].refs[Project]) in rows;
    RunDeletesUnion(rows, requests, n, parent);
    assert parent in Closure(rows, requests[i].call);
    assert HangsFrom(after, k, parent) && after[parent].isDeleted && !after[k].isDeleted;
  }

  lemma OrphanIsStranded(rows: Rows, requests: seq<Request>, n: nat, k: Key, parent: Key)
    requires Consistent(rows) && NoLiveOrphans(rows) && n <= |requests| && k in rows && parent in rows
    requires HangsFrom(rows, k, parent) && Fate(rows, requests, n, parent).isDeleted
    requires !Fate(rows, requests, n, k).isDeleted
    ensures exists i :: 0 <= i < n && Strands(rows, requests, i, k)
  {
    assert !rows[parent].isDeleted;
    var i := FirstCover(rows, requests, n, parent);
    assert k !in Closure(rows, requests[i].call);
    if k.table != Notification {
      ChildCovered(rows, requests[i].call, k, parent);
    } else {
      NotificationMissed(rows, requests[i].call, k, parent);
      assert Strands(rows, requests, i, k);
    }
  }

  /**
   * A run of deletes on consistent rows leaves no live row under a deleted parent exactly when none of
   * its calls deletes the project of a live notification.
   */
  lemma RunLeavesNoOrphansIff(rows: Rows, requests: seq<Request>, n: nat)
    requires Consistent(rows) && NoLiveOrphans(rows) && n <= |requests|
    ensures NoLiveOrphans(After(rows, requests, n))
       <==> forall i, k :: 0 <= i < n && k in rows ==> !Strands(rows, requests, i, k)
  {
    var after := After(rows, requests, n);
    RunKeepsShape(rows, requests, n);
    if i, k :| 0 <= i < n && k in rows && Strands(rows, requests, i, k) {
      StrandedIsOrphan(rows, requests, n, i, k);
    } else {
      forall k, parent | k in after && parent in after && HangsFrom(after, k, parent) && after[parent].isDeleted
        ensures after[k].isDeleted
      {
        assert HangsFrom(rows, k, parent);
        RunDeletesUnion(rows, requests, n, k);
        RunDeletesUnion(rows, requests, n, parent);
        if !after[k].isDeleted {
          OrphanIsStranded(rows, requests, n, k, parent);
        }
      }
    }
  }

  /** One project and its notification: deleting the project leaves the notification live. */
  function Notified(): Rows {
    map[Key(Project, 1) := Row(map[], false, None),
        Key(Notification, 2) := Row(map[Project := 1], false, None)]
  }

  lemma NotifiedIsFine()
    ensures Consistent(Notified()) && NoLiveOrphans(Notified())
  {
    var rows := Notified();
    var project, notification := Key(Project, 1), Key(Notification, 2);
    assert forall k :: k in rows <==> k == project || k == notification;
    assert rows[project].refs == map[] && rows[notification].refs == map[Project := 1];
    assert !rows[project].isDeleted && !rows[notification].isDeleted;
  }

  lemma ProjectDeleteStrandsNotification(at: Table -> Time)
    ensures Consistent(Notified()) && NoLiveOrphans(Notified())
    ensures !NoLiveOrphans(After(Notified(), [Request(DeleteProject(1), at)], 1))
  {
    var request := Request(DeleteProject(1), at);
    NotifiedIsFine();
    assert Key(Notification, 2) in Missed(Notified(), request.call);
    StrandedIsOrphan(Notified(), [request], 1, 0, Key(Notification, 2));
  }
}
