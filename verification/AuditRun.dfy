/**
 * The audit worker's loop: one transaction a conversation, which evaluates it if nobody has, and
 * accounts for the new evaluation in the reputations of its agent and its user.
 */
module AuditRun {
  import opened Wrappers
  import opened Reputation

  type ConvId = nat

  datatype Conv = Conv(agent: nat, user: nat)

  /** What the judge and the deterministic checks say of one conversation. */
  datatype Verdict = Verdict(score: int, satisfaction: int, hasVeto: bool, isFraud: bool, isLead: bool)

  datatype EvalRow = EvalRow(conv: ConvId, agent: nat, score: int, satisfaction: int, hasVeto: Option<bool>)

  /** The tables the loop reads and writes; evaluations in the order of their insertion. */
  datatype Db = Db(convs: map<ConvId, Conv>, evals: seq<EvalRow>, agents: map<nat, AgentRep>, users: map<nat, UserRep>)

  /** Where in the transaction something raises, if anything does. */
  datatype Step = InJudge | AfterEvaluation | AfterRubric | AfterAgent | AtCommit

  datatype Outcome = Outcome(verdict: Verdict, raises: Option<Step>)

  function Find<V>(m: map<nat, V>, k: nat): Option<V> {
    if k in m then Some(m[k]) else None
  }

  predicate Evaluated(evals: seq<EvalRow>, c: ConvId) {
    exists i :: 0 <= i < |evals| && evals[i].conv == c
  }

  /** The effect of a committed transaction. */
  function Commit(db: Db, c: ConvId, v: Verdict): Db {
    if c !in db.convs || Evaluated(db.evals, c) then db
    else
      var conv := db.convs[c];
      Db(
        db.convs,
        db.evals + [EvalRow(c, conv.agent, v.score, v.satisfaction, Some(v.hasVeto))],
        db.agents[conv.agent := AgentAfter(Find(db.agents, conv.agent), Some(v.score), v.hasVeto)],
        db.users[conv.user := UserAfter(Find(db.users, conv.user), Some(v.satisfaction), v.isLead, v.isFraud)])
  }

  /** The effect of an evaluation outside any audit: its rubric columns stay null, and nobody counts it. */
  function Evaluate(db: Db, c: ConvId, v: Verdict): Db {
    if c !in db.convs || Evaluated(db.evals, c) then db
    else db.(evals := db.evals + [EvalRow(c, db.convs[c].agent, v.score, v.satisfaction, None)])
  }

  function WithVeto(evals: seq<EvalRow>, c: ConvId, hasVeto: bool): (r: seq<EvalRow>)
    ensures |r| == |evals|
  {
    seq(|evals|, i requires 0 <= i < |evals| =>
      if evals[i].conv == c then evals[i].(hasVeto := Some(hasVeto)) else evals[i])
  }

  predicate OnePerConversation(evals: seq<EvalRow>) {
    forall i, j :: 0 <= i < j < |evals| ==> evals[i].conv != evals[j].conv
  }

  lemma EvaluatedAfter(evals: seq<EvalRow>, e: EvalRow, d: ConvId)
    ensures Evaluated(evals + [e], d) <==> Evaluated(evals, d) || d == e.conv
  {
    assert (evals + [e])[|evals|] == e;
    if i :| 0 <= i < |evals| && evals[i].conv == d {
      assert (evals + [e])[i].conv == d;
    }
  }

  class Worker {
    var convs: map<ConvId, Conv>
    var evals: seq<EvalRow>
    var agents: map<nat, AgentRep>
    var users: map<nat, UserRep>

    ghost function State(): Db
      reads this
    {
      Db(convs, evals, agents, users)
    }

    /** `INSERT ... ON CONFLICT (conversation_id) DO NOTHING`; the rubric columns stay null. */
    method PersistEvaluation(c: ConvId, agent: nat, v: Verdict)
      modifies this`evals
      ensures evals == if Evaluated(old(evals), c) then old(evals)
                       else old(evals) + [EvalRow(c, agent, v.score, v.satisfaction, None)]
      ensures Evaluated(evals, c) && (OnePerConversation(old(evals)) ==> OnePerConversation(evals))
      ensures forall d :: d != c ==> (Evaluated(evals, d) <==> Evaluated(old(evals), d))
    {
      if !Evaluated(evals, c) {
        forall d {
          EvaluatedAfter(evals, EvalRow(c, agent, v.score, v.satisfaction, None), d);
        }
        evals := evals + [EvalRow(c, agent, v.score, v.satisfaction, None)];
      }
    }

    /** `UPDATE evaluations SET has_veto ... WHERE conversation_id = c`. */
    method PersistRubric(c: ConvId, hasVeto: bool)
      modifies this`evals
      ensures |evals| == |old(evals)|
      ensures forall i :: 0 <= i < |evals| && evals[i].conv != c ==> evals[i] == old(evals)[i]
      ensures forall i :: 0 <= i < |evals| && evals[i].conv == c
                ==> evals[i] == old(evals)[i].(hasVeto := Some(hasVeto))
    {
      evals := WithVeto(evals, c, hasVeto);
    }

    /** The evaluation task for one conversation: an unknown one raises, an evaluated one is left alone. */
    method EvaluateConversation(c: ConvId, v: Verdict) returns (inserted: bool)
      modifies this`evals
      ensures State() == Evaluate(old(State()), c, v)
      ensures inserted <==> c in convs && !Evaluated(old(evals), c)
    {
      if c !in convs || Evaluated(evals, c) {
        return false;
      }
      PersistEvaluation(c, convs[c].agent, v);
      inserted := true;
    }

    /** One conversation: everything it writes is committed together, or nothing is. */
    method AuditConversation(c: ConvId, o: Outcome) returns (ok: bool)
      modifies this
      ensures State() == if ok then Commit(old(State()), c, o.verdict) else old(State())
      ensures o.raises.None? ==> ok
    {
      var saved := (evals, agents, users);
      if c !in convs {
        return true;
      }
      var conv, v := convs[c], o.verdict;
      var fresh_ := !Evaluated(evals, c);
      if o.raises == Some(InJudge) {
        return false;
      }
      if fresh_ {
        PersistEvaluation(c, conv.agent, v);
        if o.raises == Some(AfterEvaluation) {
          evals := saved.0;
          return false;
        }
        PersistRubric(c, v.hasVeto);
        if o.raises == Some(AfterRubric) {
          evals := saved.0;
          return false;
        }
        var rep := UpdateAgent(Find(agents, conv.agent), Some(v.score), v.hasVeto);
        agents := agents[conv.agent := rep];
        if o.raises == Some(AfterAgent) {
          evals, agents := saved.0, saved.1;
          return false;
        }
        var user := UpdateUser(Find(users, conv.user), Some(v.satisfaction), v.isLead, v.isFraud);
        users := users[conv.user := user];
      }
      if o.raises == Some(AtCommit) {
        evals, agents, users := saved.0, saved.1, saved.2;
        return false;
      }
      ok := true;
    }

    /** The loop of one audit run; it stops at the first transaction that raises. */
    method RunAudit(ids: seq<ConvId>, outcomes: seq<Outcome>) returns (done: nat)
      requires |ids| == |outcomes|
      modifies this
      ensures done <= |ids|
      ensures State() == Commits(old(State()), ids, outcomes, done)
      ensures done < |ids| ==> outcomes[done].raises.Some?
    {
      done := 0;
      while done < |ids|
        invariant done <= |ids|
        invariant State() == Commits(old(State()), ids, outcomes, done)
      {
        var ok := AuditConversation(ids[done], outcomes[done]);
        if !ok {
          return;
        }
        done := done + 1;
      }
    }
  }

  /** The first `n` conversations committed. */
  function Commits(db: Db, ids: seq<ConvId>, outcomes: seq<Outcome>, n: nat): Db
    requires n <= |ids| == |outcomes|
  {
    if n == 0 then db else Commit(Commits(db, ids, outcomes, n - 1), ids[n - 1], outcomes[n - 1].verdict)
  }

  // ----- Counted once ---------------------------------------------------------------------------

  /** An audit has stored the row: it has set the veto column. */
  predicate Audited(e: EvalRow) {
    e.hasVeto.Some?
  }

  /** The scores of an agent's audited rows, in the order of their insertion. */
  function ScoresOf(evals: seq<EvalRow>, agent: nat): seq<int> {
    if evals == [] then []
    else
      var e := evals[|evals| - 1];
      ScoresOf(evals[..|evals| - 1], agent) + if e.agent == agent && Audited(e) then [e.score] else []
  }

  /** All of an agent's rows. */
  function RowsOf(evals: seq<EvalRow>, agent: nat): nat {
    if evals == [] then 0
    else RowsOf(evals[..|evals| - 1], agent) + if evals[|evals| - 1].agent == agent then 1 else 0
  }

  function VetoesOf(evals: seq<EvalRow>, agent: nat): nat {
    if evals == [] then 0
    else
      var last := |evals| - 1;
      VetoesOf(evals[..last], agent) + if evals[last].agent == agent && evals[last].hasVeto == Some(true) then 1 else 0
  }

  function SentimentsOf(convs: map<ConvId, Conv>, evals: seq<EvalRow>, user: nat): seq<int> {
    if evals == [] then []
    else
      var e := evals[|evals| - 1];
      SentimentsOf(convs, evals[..|evals| - 1], user)
      + if e.conv in convs && convs[e.conv].user == user && Audited(e) then [e.satisfaction] else []
  }

  /** The record accounts for these scores, in order, and this number of vetoes. */
  predicate AgentAccounts(rep: Option<AgentRep>, scores: seq<int>, vetoes: nat) {
    if rep.Some? then scores != [] && rep.value == AgentRep(RunningAverage(scores), |scores|, vetoes)
    else scores == [] && vetoes == 0
  }

  predicate UserAccounts(rep: Option<UserRep>, sentiments: seq<int>) {
    if rep.Some? then
      && sentiments != []
      && rep.value.avgSentiment == RunningAverage(sentiments) && rep.value.sentimentCount == |sentiments|
      && (rep.value.risky <==> rep.value.fraudAttempts >= 2)
    else sentiments == []
  }

  predicate AgentCounted(db: Db, a: nat) {
    AgentAccounts(Find(db.agents, a), ScoresOf(db.evals, a), VetoesOf(db.evals, a))
  }

  predicate UserCounted(db: Db, u: nat) {
    UserAccounts(Find(db.users, u), SentimentsOf(db.convs, db.evals, u))
  }

  /** Every reputation accounts for its audited evaluations, each once; no conversation has two. */
  ghost predicate Counted(db: Db) {
    && (forall a :: AgentCounted(db, a))
    && (forall u :: UserCounted(db, u))
    && OnePerConversation(db.evals)
  }

  lemma TalliesExtend(convs: map<ConvId, Conv>, evals: seq<EvalRow>, e: EvalRow, a: nat, u: nat)
    ensures ScoresOf(evals + [e], a) == ScoresOf(evals, a) + if e.agent == a && Audited(e) then [e.score] else []
    ensures VetoesOf(evals + [e], a) == VetoesOf(evals, a) + if e.agent == a && e.hasVeto == Some(true) then 1 else 0
    ensures SentimentsOf(convs, evals + [e], u)
         == SentimentsOf(convs, evals, u)
            + if e.conv in convs && convs[e.conv].user == u && Audited(e) then [e.satisfaction] else []
  {
    assert (evals + [e])[..|evals|] == evals;
  }

  lemma AgentExtends(rep: Option<AgentRep>, scores: seq<int>, vetoes: nat, score: int, hasVeto: bool)
    requires AgentAccounts(rep, scores, vetoes)
    ensures AgentAccounts(Some(AgentAfter(rep, Some(score), hasVeto)), scores + [score],
                          vetoes + if hasVeto then 1 else 0)
  {
    AverageExtends(RunningAverage(scores), scores, score);
  }

  lemma UserExtends(rep: Option<UserRep>, sentiments: seq<int>, v: Verdict)
    requires UserAccounts(rep, sentiments)
    ensures UserAccounts(Some(UserAfter(rep, Some(v.satisfaction), v.isLead, v.isFraud)), sentiments + [v.satisfaction])
  {
    AverageExtends(RunningAverage(sentiments), sentiments, v.satisfaction);
  }

  /** Storing an evaluation with the record of its agent that accounts for it. */
  lemma StoreAgent(db: Db, after: Db, e: EvalRow, rep: AgentRep, a: nat)
    requires AgentCounted(db, a) && Audited(e)
    requires after.evals == db.evals + [e] && after.agents == db.agents[e.agent := rep]
    requires e.agent == a ==>
               AgentAccounts(Some(rep), ScoresOf(db.evals, a) + [e.score],
                             VetoesOf(db.evals, a) + if e.hasVeto == Some(true) then 1 else 0)
    ensures AgentCounted(after, a)
  {
    TalliesExtend(db.convs, db.evals, e, a, 0);
    assert ScoresOf(db.evals, a) + [] == ScoresOf(db.evals, a);
  }

  lemma StoreUser(db: Db, after: Db, e: EvalRow, user: nat, rep: UserRep, u: nat)
    requires UserCounted(db, u) && e.conv in db.convs && db.convs[e.conv].user == user && Audited(e)
    requires after.convs == db.convs && after.evals == db.evals + [e] && after.users == db.users[user := rep]
    requires user == u ==> UserAccounts(Some(rep), SentimentsOf(db.convs, db.evals, u) + [e.satisfaction])
    ensures UserCounted(after, u)
  {
    TalliesExtend(db.convs, db.evals, e, 0, u);
    assert SentimentsOf(db.convs, db.evals, u) + [] == SentimentsOf(db.convs, db.evals, u);
  }

  lemma CommitKeepsAgent(db: Db, c: ConvId, v: Verdict, a: nat)
    requires AgentCounted(db, a)
    ensures AgentCounted(Commit(db, c, v), a)
  {
    if c in db.convs && !Evaluated(db.evals, c) {
      var agent := db.convs[c].agent;
      var rep := AgentAfter(Find(db.agents, agent), Some(v.score), v.hasVeto);
      if agent == a {
        AgentExtends(Find(db.agents, a), ScoresOf(db.evals, a), VetoesOf(db.evals, a), v.score, v.hasVeto);
      }
      StoreAgent(db, Commit(db, c, v), EvalRow(c, agent, v.score, v.satisfaction, Some(v.hasVeto)), rep, a);
    }
  }

  lemma CommitKeepsUser(db: Db, c: ConvId, v: Verdict, u: nat)
    requires UserCounted(db, u)
    ensures UserCounted(Commit(db, c, v), u)
  {
    if c in db.convs && !Evaluated(db.evals, c) {
      var conv := db.convs[c];
      var rep := UserAfter(Find(db.users, conv.user), Some(v.satisfaction), v.isLead, v.isFraud);
      if conv.user == u {
        UserExtends(Find(db.users, u), SentimentsOf(db.convs, db.evals, u), v);
      }
      var e := EvalRow(c, conv.agent, v.score, v.satisfaction, Some(v.hasVeto));
      StoreUser(db, Commit(db, c, v), e, conv.user, rep, u);
    }
  }

  lemma CommitKeepsCounted(db: Db, c: ConvId, v: Verdict)
    requires Counted(db)
    ensures Counted(Commit(db, c, v))
  {
    forall a ensures AgentCounted(Commit(db, c, v), a) {
      CommitKeepsAgent(db, c, v, a);
    }
    forall u ensures UserCounted(Commit(db, c, v), u) {
      CommitKeepsUser(db, c, v, u);
    }
  }

  lemma {:induction false} CommitsKeepCounted(db: Db, ids: seq<ConvId>, outcomes: seq<Outcome>, n: nat)
    requires Counted(db) && n <= |ids| == |outcomes|
    ensures Counted(Commits(db, ids, outcomes, n))
  {
    if n == 0 {
    } else {
      CommitsKeepCounted(db, ids, outcomes, n - 1);
      CommitKeepsCounted(Commits(db, ids, outcomes, n - 1), ids[n - 1], outcomes[n - 1].verdict);
    }
  }

  // ----- Among evaluations outside any audit ----------------------------------------------------

  lemma EvaluateKeepsCounted(db: Db, c: ConvId, v: Verdict)
    requires Counted(db)
    ensures Counted(Evaluate(db, c, v))
  {
    if c in db.convs && !Evaluated(db.evals, c) {
      var e := EvalRow(c, db.convs[c].agent, v.score, v.satisfaction, None);
      forall a ensures AgentCounted(Evaluate(db, c, v), a) {
        TalliesExtend(db.convs, db.evals, e, a, 0);
        assert AgentCounted(db, a) && ScoresOf(db.evals, a) + [] == ScoresOf(db.evals, a);
      }
      forall u ensures UserCounted(Evaluate(db, c, v), u) {
        TalliesExtend(db.convs, db.evals, e, 0, u);
        assert UserCounted(db, u) && SentimentsOf(db.convs, db.evals, u) + [] == SentimentsOf(db.convs, db.evals, u);
      }
    }
  }

  /** A transaction that committed: an audit's, or an evaluation's outside any audit. */
  datatype Txn = AuditOne(conv: ConvId, verdict: Verdict) | EvaluateOne(conv: ConvId, verdict: Verdict)

  function Perform(db: Db, txn: Txn): Db {
    match txn
    case AuditOne(c, v) => Commit(db, c, v)
    case EvaluateOne(c, v) => Evaluate(db, c, v)
  }

  function Execute(db: Db, txns: seq<Txn>): Db {
    if txns == [] then db else Perform(Execute(db, txns[..|txns| - 1]), txns[|txns| - 1])
  }

  /**
   * After any serial interleaving of audits and other evaluations: every reputation accounts for exactly
   * the rows whose veto column is set.
   */
  lemma {:induction false} TransactionsCountOnce(db: Db, txns: seq<Txn>)
    requires Counted(db)
    ensures Counted(Execute(db, txns))
  {
    if txns == [] {
    } else {
      var before := Execute(db, txns[..|txns| - 1]);
      TransactionsCountOnce(db, txns[..|txns| - 1]);
      match txns[|txns| - 1]
      case AuditOne(c, v) => CommitKeepsCounted(before, c, v);
      case EvaluateOne(c, v) => EvaluateKeepsCounted(before, c, v);
    }
  }

  // ----- What the transactions say --------------------------------------------------------------

  /** Transaction number `i` stores the evaluation of its conversation: no other has, and it is known. */
  predicate Stores(db: Db, txns: seq<Txn>, i: nat)
    requires i < |txns|
  {
    && txns[i].conv in db.convs && !Evaluated(db.evals, txns[i].conv)
    && forall j :: 0 <= j < i ==> txns[j].conv != txns[i].conv
  }

  /** The verdicts of the audits among the first `n` transactions that stored one, on conversations with this user. */
  function UserVerdicts(db: Db, txns: seq<Txn>, n: nat, u: nat): seq<Verdict>
    requires n <= |txns|
  {
    if n == 0 then []
    else
      UserVerdicts(db, txns, n - 1, u)
      + if txns[n - 1].AuditOne? && Stores(db, txns, n - 1) && db.convs[txns[n - 1].conv].user == u
        then [txns[n - 1].verdict] else []
  }

  /** The same on conversations with this agent. */
  function AgentVerdicts(db: Db, txns: seq<Txn>, n: nat, a: nat): seq<Verdict>
    requires n <= |txns|
  {
    if n == 0 then []
    else
      AgentVerdicts(db, txns, n - 1, a)
      + if txns[n - 1].AuditOne? && Stores(db, txns, n - 1) && db.convs[txns[n - 1].conv].agent == a
        then [txns[n - 1].verdict] else []
  }

  function FraudCount(verdicts: seq<Verdict>): nat {
    if verdicts == [] then 0
    else FraudCount(verdicts[..|verdicts| - 1]) + if verdicts[|verdicts| - 1].isFraud then 1 else 0
  }

  function VetoCount(verdicts: seq<Verdict>): nat {
    if verdicts == [] then 0
    else VetoCount(verdicts[..|verdicts| - 1]) + if verdicts[|verdicts| - 1].hasVeto then 1 else 0
  }

  function ScoresIn(verdicts: seq<Verdict>): (r: seq<int>)
    ensures |r| == |verdicts| && forall i :: 0 <= i < |r| ==> r[i] == verdicts[i].score
  {
    seq(|verdicts|, i requires 0 <= i < |verdicts| => verdicts[i].score)
  }

  function SatisfactionIn(verdicts: seq<Verdict>): (r: seq<int>)
    ensures |r| == |verdicts| && forall i :: 0 <= i < |r| ==> r[i] == verdicts[i].satisfaction
  {
    seq(|verdicts|, i requires 0 <= i < |verdicts| => verdicts[i].satisfaction)
  }

  lemma VerdictsExtend(verdicts: seq<Verdict>, v: Verdict)
    ensures FraudCount(verdicts + [v]) == FraudCount(verdicts) + if v.isFraud then 1 else 0
    ensures VetoCount(verdicts + [v]) == VetoCount(verdicts) + if v.hasVeto then 1 else 0
    ensures ScoresIn(verdicts + [v]) == ScoresIn(verdicts) + [v.score]
    ensures SatisfactionIn(verdicts + [v]) == SatisfactionIn(verdicts) + [v.satisfaction]
  {
    assert (verdicts + [v])[..|verdicts|] == verdicts;
  }

  /** A conversation is evaluated once some transaction named it, or if it was before. */
  lemma {:induction false} EvaluatedExactly(db: Db, txns: seq<Txn>, n: nat, c: ConvId)
    requires n <= |txns|
    ensures Execute(db, txns[..n]).convs == db.convs
    ensures Evaluated(Execute(db, txns[..n]).evals, c) <==>
              Evaluated(db.evals, c) || (c in db.convs && exists j :: 0 <= j < n && txns[j].conv == c)
  {
    if n == 0 {
      assert txns[..0] == [];
    } else {
      var before := Execute(db, txns[..n - 1]);
      EvaluatedExactly(db, txns, n - 1, c);
      EvaluatedExactly(db, txns, n - 1, txns[n - 1].conv);
      ExecuteStep(db, txns, n);
      StoredIsEvaluated(before, txns[n - 1], c);
    }
  }

  lemma ExecuteStep(db: Db, txns: seq<Txn>, n: nat)
    requires 0 < n <= |txns|
    ensures Execute(db, txns[..n]) == Perform(Execute(db, txns[..n - 1]), txns[n - 1])
  {
    assert txns[..n][..n - 1] == txns[..n - 1];
  }

  lemma StoredIsEvaluated(db: Db, txn: Txn, c: ConvId)
    ensures Perform(db, txn).convs == db.convs
    ensures Evaluated(Perform(db, txn).evals, c) <==> Evaluated(db.evals, c) || (c == txn.conv && c in db.convs)
  {
    if txn.conv in db.convs && !Evaluated(db.evals, txn.conv) {
      var e := Perform(db, txn).evals[|db.evals|];
      EvaluatedAfter(db.evals, e, c);
    }
  }

  lemma StoresIff(db: Db, txns: seq<Txn>, n: nat)
    requires n < |txns|
    ensures var before, c := Execute(db, txns[..n]), txns[n].conv;
            before.convs == db.convs && (Stores(db, txns, n) <==> c in before.convs && !Evaluated(before.evals, c))
  {
    EvaluatedExactly(db, txns, n, txns[n].conv);
  }

  /** The record of a user for these audits, oldest first; before them there was none. */
  predicate UserHistory(rep: Option<UserRep>, verdicts: seq<Verdict>) {
    if rep.None? then verdicts == []
    else
      && verdicts != []
      && rep.value.avgSentiment == RunningAverage(SatisfactionIn(verdicts))
      && rep.value.sentimentCount == |verdicts|
      && rep.value.fraudAttempts == FraudCount(verdicts)
      && (rep.value.risky <==> FraudCount(verdicts) >= 2)
      && Labelled(rep.value, verdicts[|verdicts| - 1].isLead)
  }

  predicate AgentHistory(rep: Option<AgentRep>, verdicts: seq<Verdict>) {
    if rep.None? then verdicts == []
    else
      && verdicts != []
      && rep.value == AgentRep(RunningAverage(ScoresIn(verdicts)), |verdicts|, VetoCount(verdicts))
  }

  lemma UserHistoryExtends(rep: Option<UserRep>, verdicts: seq<Verdict>, v: Verdict)
    requires UserHistory(rep, verdicts)
    ensures UserHistory(Some(UserAfter(rep, Some(v.satisfaction), v.isLead, v.isFraud)), verdicts + [v])
  {
    VerdictsExtend(verdicts, v);
    AverageExtends(RunningAverage(SatisfactionIn(verdicts)), SatisfactionIn(verdicts), v.satisfaction);
    UserUpdate(rep, Some(v.satisfaction), v.isLead, v.isFraud);
  }

  lemma AgentHistoryExtends(rep: Option<AgentRep>, verdicts: seq<Verdict>, v: Verdict)
    requires AgentHistory(rep, verdicts)
    ensures AgentHistory(Some(AgentAfter(rep, Some(v.score), v.hasVeto)), verdicts + [v])
  {
    VerdictsExtend(verdicts, v);
    AverageExtends(RunningAverage(ScoresIn(verdicts)), ScoresIn(verdicts), v.score);
  }

  /**
   * Under any serial interleaving, a user's record is that of exactly the audits that stored an
   * evaluation of a conversation with that user: fraud attempts are the fraudulent ones among them,
   * two make the user risky, and the label is that of the latest.
   */
  lemma {:induction false} UserIsItsAudits(db: Db, txns: seq<Txn>, n: nat, u: nat)
    requires n <= |txns| && u !in db.users
    ensures UserHistory(Find(Execute(db, txns[..n]).users, u), UserVerdicts(db, txns, n, u))
  {
    if n == 0 {
      assert txns[..0] == [];
    } else {
      var before := Execute(db, txns[..n - 1]);
      UserIsItsAudits(db, txns, n - 1, u);
      StoresIff(db, txns, n - 1);
      ExecuteStep(db, txns, n);
      UserRunStep(before, txns[n - 1], u, UserVerdicts(db, txns, n - 1, u));
    }
  }

  lemma UserRunStep(db: Db, txn: Txn, u: nat, verdicts: seq<Verdict>)
    requires UserHistory(Find(db.users, u), verdicts)
    ensures UserHistory(Find(Perform(db, txn).users, u),
              verdicts + if txn.AuditOne? && txn.conv in db.convs && !Evaluated(db.evals, txn.conv)
                            && db.convs[txn.conv].user == u then [txn.verdict] else [])
  {
    assert verdicts + [] == verdicts;
    UserHistoryExtends(Find(db.users, u), verdicts, txn.verdict);
  }

  /** Whatever the user's record was before, these audits have added exactly their fraudulent ones to it. */
  lemma {:induction false} FraudsAddUp(db: Db, txns: seq<Txn>, n: nat, u: nat)
    requires n <= |txns|
    ensures FraudsOf(Find(Execute(db, txns[..n]).users, u))
         == FraudsOf(Find(db.users, u)) + FraudCount(UserVerdicts(db, txns, n, u))
  {
    if n == 0 {
      assert txns[..0] == [];
    } else {
      var before := Execute(db, txns[..n - 1]);
      FraudsAddUp(db, txns, n - 1, u);
      StoresIff(db, txns, n - 1);
      ExecuteStep(db, txns, n);
      FraudStep(before, txns[n - 1], u, UserVerdicts(db, txns, n - 1, u));
    }
  }

  lemma FraudStep(db: Db, txn: Txn, u: nat, verdicts: seq<Verdict>)
    ensures FraudsOf(Find(Perform(db, txn).users, u)) + FraudCount(verdicts)
         == FraudsOf(Find(db.users, u))
            + FraudCount(verdicts + if txn.AuditOne? && txn.conv in db.convs && !Evaluated(db.evals, txn.conv)
                                       && db.convs[txn.conv].user == u then [txn.verdict] else [])
  {
    assert verdicts + [] == verdicts;
    VerdictsExtend(verdicts, txn.verdict);
    UserUpdate(Find(db.users, u), Some(txn.verdict.satisfaction), txn.verdict.isLead, txn.verdict.isFraud);
  }

  /** An agent's record is that of exactly the audits that stored an evaluation of one of its conversations. */
  lemma {:induction false} AgentIsItsAudits(db: Db, txns: seq<Txn>, n: nat, a: nat)
    requires n <= |txns| && a !in db.agents
    ensures AgentHistory(Find(Execute(db, txns[..n]).agents, a), AgentVerdicts(db, txns, n, a))
  {
    if n == 0 {
      assert txns[..0] == [];
    } else {
      var before := Execute(db, txns[..n - 1]);
      AgentIsItsAudits(db, txns, n - 1, a);
      StoresIff(db, txns, n - 1);
      ExecuteStep(db, txns, n);
      AgentRunStep(before, txns[n - 1], a, AgentVerdicts(db, txns, n - 1, a));
    }
  }

  lemma AgentRunStep(db: Db, txn: Txn, a: nat, verdicts: seq<Verdict>)
    requires AgentHistory(Find(db.agents, a), verdicts)
    ensures AgentHistory(Find(Perform(db, txn).agents, a),
              verdicts + if txn.AuditOne? && txn.conv in db.convs && !Evaluated(db.evals, txn.conv)
                            && db.convs[txn.conv].agent == a then [txn.verdict] else [])
  {
    assert verdicts + [] == verdicts;
    AgentHistoryExtends(Find(db.agents, a), verdicts, txn.verdict);
  }

  lemma {:induction false} ScoresAtMostRows(evals: seq<EvalRow>, a: nat)
    ensures |ScoresOf(evals, a)| <= RowsOf(evals, a)
    ensures |ScoresOf(evals, a)| == RowsOf(evals, a)
       <==> forall i :: 0 <= i < |evals| && evals[i].agent == a ==> Audited(evals[i])
  {
    if evals == [] {
    } else {
      ScoresAtMostRows(evals[..|evals| - 1], a);
    }
  }

  /** The score count is the number of all the agent's evaluations exactly when audits stored them all. */
  lemma AllCountedIff(db: Db, a: nat)
    requires Counted(db)
    ensures (if a in db.agents then db.agents[a].scoreCount else 0) == RowsOf(db.evals, a)
       <==> forall i :: 0 <= i < |db.evals| && db.evals[i].agent == a ==> Audited(db.evals[i])
  {
    assert AgentCounted(db, a);
    ScoresAtMostRows(db.evals, a);
  }

  // ----- Runs of audits -------------------------------------------------------------------------

  predicate AllAudited(evals: seq<EvalRow>) {
    forall i :: 0 <= i < |evals| ==> Audited(evals[i])
  }

  lemma {:induction false} CommitsKeepAudited(db: Db, ids: seq<ConvId>, outcomes: seq<Outcome>, n: nat)
    requires n <= |ids| == |outcomes| && AllAudited(db.evals)
    ensures AllAudited(Commits(db, ids, outcomes, n).evals)
  {
    if n == 0 {
    } else {
      CommitsKeepAudited(db, ids, outcomes, n - 1);
    }
  }

  /** One audit run: the conversations it was to visit, what came out, and how many were committed. */
  datatype Audit = Audit(ids: seq<ConvId>, outcomes: seq<Outcome>, done: nat)

  predicate IsAudit(x: Audit) {
    x.done <= |x.ids| == |x.outcomes|
  }

  function Audits(db: Db, runs: seq<Audit>): Db
    requires forall i :: 0 <= i < |runs| ==> IsAudit(runs[i])
  {
    if runs == [] then db
    else
      var last := runs[|runs| - 1];
      assert IsAudit(last);
      Commits(Audits(db, runs[..|runs| - 1]), last.ids, last.outcomes, last.done)
  }

  /**
   * After any sequence of audit runs, wherever each was aborted: `score_count` is the number of the
   * agent's audited rows, all of them if there were no others before, `veto_count` the number of those
   * with a veto, and the stored average is the re-rounded average of exactly their scores; users'
   * sentiment likewise.
   */
  lemma {:induction false} AuditsCountOnce(db: Db, runs: seq<Audit>)
    requires Counted(db) && forall i :: 0 <= i < |runs| ==> IsAudit(runs[i])
    ensures Counted(Audits(db, runs)) && (AllAudited(db.evals) ==> AllAudited(Audits(db, runs).evals))
  {
    if runs == [] {
    } else {
      var init, last := runs[..|runs| - 1], runs[|runs| - 1];
      AuditsCountOnce(db, init);
      assert IsAudit(last);
      CommitsKeepCounted(Audits(db, init), last.ids, last.outcomes, last.done);
      if AllAudited(db.evals) {
        CommitsKeepAudited(Audits(db, init), last.ids, last.outcomes, last.done);
      }
    }
  }

  lemma EmptyCounted(convs: map<ConvId, Conv>)
    ensures Counted(Db(convs, [], map[], map[]))
  {
  }

  lemma ReputationOfRuns(convs: map<ConvId, Conv>, runs: seq<Audit>, a: nat, low: int, high: int)
    requires forall i :: 0 <= i < |runs| ==> IsAudit(runs[i])
    requires var scores := ScoresOf(Audits(Db(convs, [], map[], map[]), runs).evals, a);
             scores != [] && AllWithin(scores, low, high)
    ensures var db := Audits(Db(convs, [], map[], map[]), runs);
            var scores := ScoresOf(db.evals, a);
            && a in db.agents
            && db.agents[a].scoreCount == |scores| == RowsOf(db.evals, a)
            && db.agents[a].vetoCount == VetoesOf(db.evals, a)
            && db.agents[a].avgScore.Some? && low as real <= db.agents[a].avgScore.value <= high as real
            && CloseToMean(db.agents[a].avgScore, |scores|, SumOf(scores))
  {
    EmptyCounted(convs);
    AuditsCountOnce(Db(convs, [], map[], map[]), runs);
    var db := Audits(Db(convs, [], map[], map[]), runs);
    assert AgentCounted(db, a);
    var scores := ScoresOf(db.evals, a);
    ScoresAtMostRows(db.evals, a);
    AverageWithinScores(scores, low, high);
    AverageDrift(scores);
  }

  lemma {:induction false} CommittedAreEvaluated(db: Db, ids: seq<ConvId>, outcomes: seq<Outcome>, n: nat, i: nat)
    requires i < n <= |ids| == |outcomes| && ids[i] in db.convs
    ensures Commits(db, ids, outcomes, n).convs == db.convs
    ensures Evaluated(Commits(db, ids, outcomes, n).evals, ids[i])
  {
    CommitsKeepConvs(db, ids, outcomes, n - 1);
    var before := Commits(db, ids, outcomes, n - 1);
    if i < n - 1 {
      CommittedAreEvaluated(db, ids, outcomes, n - 1, i);
      CommitKeepsEvaluated(before, ids[n - 1], outcomes[n - 1].verdict, ids[i]);
    } else {
      CommitEvaluates(before, ids[i], outcomes[i].verdict);
    }
  }

  lemma {:induction false} CommitsKeepConvs(db: Db, ids: seq<ConvId>, outcomes: seq<Outcome>, n: nat)
    requires n <= |ids| == |outcomes|
    ensures Commits(db, ids, outcomes, n).convs == db.convs
  {
    if n == 0 {
    } else {
      CommitsKeepConvs(db, ids, outcomes, n - 1);
    }
  }

  lemma CommitKeepsEvaluated(db: Db, c: ConvId, v: Verdict, d: ConvId)
    requires Evaluated(db.evals, d)
    ensures Evaluated(Commit(db, c, v).evals, d)
  {
    var i :| 0 <= i < |db.evals| && db.evals[i].conv == d;
    assert Commit(db, c, v).evals[i] == db.evals[i];
  }

  lemma CommitEvaluates(db: Db, c: ConvId, v: Verdict)
    requires c in db.convs
    ensures Evaluated(Commit(db, c, v).evals, c)
  {
    if !Evaluated(db.evals, c) {
      assert Commit(db, c, v).evals[|db.evals|].conv == c;
    }
  }

  /** Auditing conversations that were all evaluated before changes no evaluation and no reputation. */
  lemma {:induction false} ReauditChangesNothing(db: Db, ids: seq<ConvId>, outcomes: seq<Outcome>, n: nat)
    requires n <= |ids| == |outcomes|
    requires forall i :: 0 <= i < |ids| ==> ids[i] in db.convs ==> Evaluated(db.evals, ids[i])
    ensures Commits(db, ids, outcomes, n) == db
  {
    if n == 0 {
    } else {
      ReauditChangesNothing(db, ids, outcomes, n - 1);
    }
  }
}
