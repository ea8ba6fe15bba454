/** Any number of deliveries of one upload, crashing anywhere and interleaved transaction by transaction. */
module IngestionRuns {
  import opened Wrappers
  import opened Ingestion

  /** Where a run is: past its load, in the loop, finished, or dead. */
  datatype Phase = Loaded | Looping | Finished | Dead

  datatype Run = Run(phase: Phase, pc: nat, newCount: nat, dupCount: nat, msgCount: nat)

  datatype World = World(db: Db, upload: Upload, runs: seq<Run>)

  /** What is the same for every delivery. */
  datatype Setting = Setting(job: Job, tools: Tools, parsed: seq<ConversationDto>)

  /**
   * One transaction, or one crash. `Deliver` loads the content into a new run. `Die` stops a run, with
   * or without the chance to mark the upload failed.
   */
  datatype Step = Deliver | Begin(r: nat) | IngestNext(r: nat, newId: nat) | ShowProgress(r: nat) | Complete(r: nat)
                | Die(r: nat, marked: bool)

  function Failing(u: Upload): Upload {
    u.(status := Failed)
  }

  function IngestStep(s: Setting, w: World, r: nat, newId: nat): World
    requires r < |w.runs| && w.runs[r].pc < |s.parsed|
  {
    var run := w.runs[r];
    var dto := s.parsed[run.pc];
    match Ingest(w.db, s.job, s.tools, dto, newId)
    case Aborted => w.(runs := w.runs[r := run.(phase := Dead)], upload := Failing(w.upload))
    case Committed(db, true) =>
      w.(db := db, runs := w.runs[r := run.(pc := run.pc + 1, newCount := run.newCount + 1,
                                            msgCount := run.msgCount + |dto.messages|)])
    case Committed(db, false) =>
      w.(runs := w.runs[r := run.(pc := run.pc + 1, dupCount := run.dupCount + 1)])
  }

  /** The effect of a step; a step that cannot be taken changes nothing. */
  function Next(s: Setting, w: World, step: Step): World {
    match step
    case Deliver =>
      if w.upload.agent.None? || w.upload.blob.None? then w.(upload := Failing(w.upload))
      else w.(runs := w.runs + [Run(Loaded, 0, 0, 0, 0)])
    case Begin(r) =>
      if r < |w.runs| && w.runs[r].phase == Loaded then
        if s.parsed == [] then
          w.(upload := Failing(w.upload).(rowsTotal := 0, rowsProcessed := 0),
             runs := w.runs[r := w.runs[r].(phase := Finished)])
        else
          w.(upload := w.upload.(status := Processing, rowsTotal := |s.parsed|, rowsProcessed := 0),
             runs := w.runs[r := w.runs[r].(phase := Looping)])
      else w
    case IngestNext(r, newId) =>
      if r < |w.runs| && w.runs[r].phase == Looping && w.runs[r].pc < |s.parsed| then IngestStep(s, w, r, newId) else w
    case ShowProgress(r) =>
      if r < |w.runs| && w.runs[r].phase == Looping && w.runs[r].pc % PROGRESS_STEP == 0 then
        w.(upload := w.upload.(rowsProcessed := w.runs[r].newCount + w.runs[r].dupCount))
      else w
    case Complete(r) =>
      if r < |w.runs| && w.runs[r].phase == Looping && w.runs[r].pc == |s.parsed| then
        w.(upload := w.upload.(status := Completed, rowsProcessed := w.runs[r].newCount + w.runs[r].dupCount,
                               blob := None),
           runs := w.runs[r := w.runs[r].(phase := Finished)])
      else w
    case Die(r, marked) =>
      if r < |w.runs| && w.runs[r].phase in {Loaded, Looping} then
        w.(upload := if marked then Failing(w.upload) else w.upload, runs := w.runs[r := w.runs[r].(phase := Dead)])
      else w
  }

  function Exec(s: Setting, w: World, steps: seq<Step>): World {
    if steps == [] then w else Next(s, Exec(s, w, steps[..|steps| - 1]), steps[|steps| - 1])
  }

  // ----- The database ---------------------------------------------------------------------------

  function MessagesOf(messages: seq<MessageRow>, id: nat): seq<MessageRow> {
    if messages == [] then []
    else (if messages[0].conversation == id then [messages[0]] else []) + MessagesOf(messages[1..], id)
  }

  /** The primary key of conversations, and the reference from a message to its conversation. */
  ghost predicate WellFormed(db: Db) {
    && (forall k, k' :: k in db.conversations && k' in db.conversations && k != k'
          ==> db.conversations[k].id != db.conversations[k'].id)
    && (forall i :: 0 <= i < |db.messages| ==> db.messages[i].conversation in Ids(db))
  }

  lemma {:induction false} MessagesOfConcat(a: seq<MessageRow>, b: seq<MessageRow>, id: nat)
    ensures MessagesOf(a + b, id) == MessagesOf(a, id) + MessagesOf(b, id)
  {
    if a == [] {
      assert a + b == b;
    } else {
      MessagesOfConcat(a[1..], b, id);
      assert (a + b)[0] == a[0] && (a + b)[1..] == a[1..] + b;
      var head := if a[0].conversation == id then [a[0]] else [];
      assert head + (MessagesOf(a[1..], id) + MessagesOf(b, id)) == head + MessagesOf(a[1..], id) + MessagesOf(b, id);
    }
  }

  lemma {:induction false} MessagesOfOther(a: seq<MessageRow>, id: nat)
    requires forall i :: 0 <= i < |a| ==> a[i].conversation != id
    ensures MessagesOf(a, id) == []
  {
    if a == [] {
    } else {
      MessagesOfOther(a[1..], id);
    }
  }

  lemma {:induction false} MessagesOfOwn(a: seq<MessageRow>, id: nat)
    requires forall i :: 0 <= i < |a| ==> a[i].conversation == id
    ensures MessagesOf(a, id) == a
  {
    if a == [] {
    } else {
      MessagesOfOwn(a[1..], id);
      assert a == [a[0]] + a[1..];
    }
  }

  // ----- What is kept ---------------------------------------------------------------------------

  /** The first conversation of the upload with the external id. */
  function First(parsed: seq<ConversationDto>, externalId: string): Option<ConversationDto> {
    if parsed == [] then None
    else if parsed[0].externalId == externalId then Some(parsed[0])
    else First(parsed[1..], externalId)
  }

  lemma {:induction false} FirstIsFirst(parsed: seq<ConversationDto>, i: nat)
    requires i < |parsed|
    requires forall j :: 0 <= j < i ==> parsed[j].externalId != parsed[i].externalId
    ensures First(parsed, parsed[i].externalId) == Some(parsed[i])
  {
    if i == 0 {
    } else {
      FirstIsFirst(parsed[1..], i - 1);
    }
  }

  lemma {:induction false} FirstExists(parsed: seq<ConversationDto>, externalId: string)
    ensures First(parsed, externalId).Some? <==> exists i :: 0 <= i < |parsed| && parsed[i].externalId == externalId
  {
    if parsed == [] {
    } else {
      FirstExists(parsed[1..], externalId);
      if First(parsed[1..], externalId).Some? {
        var i :| 0 <= i < |parsed[1..]| && parsed[1..][i].externalId == externalId;
        assert parsed[i + 1].externalId == externalId;
      }
      forall i | 0 <= i < |parsed| && parsed[i].externalId == externalId ensures First(parsed, externalId).Some? {
        if i > 0 {
          assert parsed[1..][i - 1].externalId == externalId;
        }
      }
    }
  }

  /** The conversation `k` and its messages are those of the first conversation of the upload with that id. */
  ghost predicate IngestedOnce(s: Setting, db: Db, k: Key)
    requires k in db.conversations
  {
    var id := db.conversations[k].id;
    && k.agent == s.job.agent
    && First(s.parsed, k.externalId).Some?
    && var dto := First(s.parsed, k.externalId).value;
       && HoldsConversation(db.conversations[k], id, dto, s.job, s.tools)
       && HoldsMessages(MessagesOf(db.messages, id), id, dto.messages, s.tools)
  }

  /** The conversation `k` and its messages are as they were. */
  ghost predicate Untouched(db0: Db, db: Db, k: Key)
    requires k in db0.conversations && k in db.conversations
  {
    var id := db0.conversations[k].id;
    db.conversations[k] == db0.conversations[k] && MessagesOf(db.messages, id) == MessagesOf(db0.messages, id)
  }

  /** Old conversations are untouched; each new one holds exactly one conversation of the upload. */
  ghost predicate ExactlyOnce(s: Setting, db0: Db, db: Db) {
    && db0.conversations.Keys <= db.conversations.Keys
    && (forall k :: k in db0.conversations ==> Untouched(db0, db, k))
    && (forall k :: k in db.conversations && k !in db0.conversations ==> IngestedOnce(s, db, k))
  }

  ghost predicate Covers(s: Setting, db: Db, n: nat)
    requires n <= |s.parsed|
  {
    forall j :: 0 <= j < n ==> Key(s.job.agent, s.parsed[j].externalId) in db.conversations
  }

  ghost predicate RunKept(s: Setting, db: Db, run: Run) {
    && run.pc <= |s.parsed|
    && Covers(s, db, run.pc)
    && run.newCount + run.dupCount == run.pc
  }

  ghost predicate Kept(s: Setting, db0: Db, w: World) {
    && WellFormed(w.db)
    && ExactlyOnce(s, db0, w.db)
    && (forall r :: 0 <= r < |w.runs| ==> RunKept(s, w.db, w.runs[r]))
    && (w.upload.blob == Some(s.parsed) || (w.upload.blob.None? && Covers(s, w.db, |s.parsed|)))
  }

  // ----- One transaction ------------------------------------------------------------------------

  lemma NewMessagesApart(db: Db, job: Job, tools: Tools, dto: ConversationDto, newId: nat, id: nat)
    requires WellFormed(db) && newId !in Ids(db)
    ensures var after := db.messages + MessageRows(newId, dto.messages, tools);
            MessagesOf(after, id) ==
            (if id == newId then MessageRows(newId, dto.messages, tools) else MessagesOf(db.messages, id))
  {
    var rows := MessageRows(newId, dto.messages, tools);
    MessagesOfConcat(db.messages, rows, id);
    if id == newId {
      MessagesOfOther(db.messages, id);
      MessagesOfOwn(rows, id);
    } else {
      MessagesOfOther(rows, id);
    }
  }

  lemma IngestKeepsWellFormed(db: Db, job: Job, tools: Tools, dto: ConversationDto, newId: nat)
    requires WellFormed(db) && Ingest(db, job, tools, dto, newId).Committed?
    ensures WellFormed(Ingest(db, job, tools, dto, newId).db)
  {
    var key := Key(job.agent, dto.externalId);
    if key !in db.conversations {
      var after := Ingest(db, job, tools, dto, newId).db;
      assert forall k :: k in db.conversations ==> db.conversations[k].id in Ids(db);
      assert after.conversations[key].id == newId;
      forall id | id in Ids(db) + {newId} ensures id in Ids(after) {
        if id in Ids(db) {
          var k :| k in db.conversations && db.conversations[k].id == id;
          assert after.conversations[k].id == id;
        }
      }
    }
  }

  /** A transaction of the conversation at `i`, all earlier ones being there, keeps what is promised. */
  lemma IngestKeeps(s: Setting, db0: Db, db: Db, i: nat, newId: nat)
    requires WellFormed(db) && ExactlyOnce(s, db0, db)
    requires i < |s.parsed| && Covers(s, db, i)
    requires Ingest(db, s.job, s.tools, s.parsed[i], newId).Committed?
    ensures var after := Ingest(db, s.job, s.tools, s.parsed[i], newId).db;
            && WellFormed(after) && ExactlyOnce(s, db0, after) && Covers(s, after, i + 1)
            && db.conversations.Keys <= after.conversations.Keys
  {
    var dto := s.parsed[i];
    var key := Key(s.job.agent, dto.externalId);
    var after := Ingest(db, s.job, s.tools, dto, newId).db;
    IngestKeepsWellFormed(db, s.job, s.tools, dto, newId);
    if key !in db.conversations {
      FirstIsFirst(s.parsed, i);
      assert forall k :: k in db.conversations ==> db.conversations[k].id in Ids(db);
      forall k | k in db0.conversations ensures Untouched(db0, after, k) {
        assert Untouched(db0, db, k);
        NewMessagesApart(db, s.job, s.tools, dto, newId, db0.conversations[k].id);
      }
      forall k | k in after.conversations && k !in db0.conversations ensures IngestedOnce(s, after, k) {
        NewMessagesApart(db, s.job, s.tools, dto, newId, after.conversations[k].id);
        if k == key {
          ConversationRow(after.conversations[k], newId, dto, s.job, s.tools);
          MessageRowsHold(MessagesOf(after.messages, newId), newId, dto.messages, s.tools);
        } else {
          assert IngestedOnce(s, db, k);
        }
      }
    }
  }

  // ----- Every run ------------------------------------------------------------------------------

  lemma CoversMore(s: Setting, db: Db, after: Db, n: nat)
    requires n <= |s.parsed| && Covers(s, db, n) && db.conversations.Keys <= after.conversations.Keys
    ensures Covers(s, after, n)
  {
  }

  lemma RunsKeptByMore(s: Setting, db: Db, after: Db, runs: seq<Run>)
    requires db.conversations.Keys <= after.conversations.Keys
    requires forall q :: 0 <= q < |runs| ==> RunKept(s, db, runs[q])
    ensures forall q :: 0 <= q < |runs| ==> RunKept(s, after, runs[q])
  {
  }

  /** The run that has had its transaction is past one more conversation, if it was not aborted. */
  lemma IngestStepRun(s: Setting, w: World, r: nat, newId: nat)
    requires r < |w.runs| && w.runs[r].pc < |s.parsed|
    ensures var run, after := w.runs[r], IngestStep(s, w, r, newId);
            var outcome := Ingest(w.db, s.job, s.tools, s.parsed[run.pc], newId);
            && |after.runs| == |w.runs| && (forall q :: 0 <= q < |w.runs| && q != r ==> after.runs[q] == w.runs[q])
            && after.db == (if outcome.Committed? && outcome.wasNew then outcome.db else w.db)
            && after.upload.blob == w.upload.blob
            && after.runs[r].pc == run.pc + (if outcome.Committed? then 1 else 0)
            && (run.newCount + run.dupCount == run.pc ==>
                  after.runs[r].newCount + after.runs[r].dupCount == after.runs[r].pc)
  {
  }

  lemma DuplicateChangesNothing(db: Db, job: Job, tools: Tools, dto: ConversationDto, newId: nat)
    ensures var outcome := Ingest(db, job, tools, dto, newId);
            outcome.Committed? && !outcome.wasNew ==> outcome.db == db
  {
  }

  lemma IngestStepKeeps(s: Setting, db0: Db, w: World, r: nat, newId: nat)
    requires Kept(s, db0, w) && r < |w.runs| && w.runs[r].pc < |s.parsed|
    ensures Kept(s, db0, IngestStep(s, w, r, newId))
  {
    var run := w.runs[r];
    var after := IngestStep(s, w, r, newId);
    assert RunKept(s, w.db, run);
    IngestStepRun(s, w, r, newId);
    DuplicateChangesNothing(w.db, s.job, s.tools, s.parsed[run.pc], newId);
    if Ingest(w.db, s.job, s.tools, s.parsed[run.pc], newId).Committed? {
      IngestKeeps(s, db0, w.db, run.pc, newId);
    }
    RunsKeptByMore(s, w.db, after.db, w.runs);
    if w.upload.blob.None? {
      CoversMore(s, w.db, after.db, |s.parsed|);
    }
  }

  lemma NextKeeps(s: Setting, db0: Db, w: World, step: Step)
    requires Kept(s, db0, w)
    ensures Kept(s, db0, Next(s, w, step))
  {
    match step
    case IngestNext(r, newId) =>
      if r < |w.runs| && w.runs[r].phase == Looping && w.runs[r].pc < |s.parsed| {
        IngestStepKeeps(s, db0, w, r, newId);
      }
    case Complete(r) =>
      assert r < |w.runs| ==> RunKept(s, w.db, w.runs[r]);
    case _ =>
  }

  /** The content as it was uploaded, and nothing running yet. */
  ghost predicate Initial(s: Setting, w: World) {
    w.upload.blob == Some(s.parsed) && w.runs == [] && WellFormed(w.db)
  }

  lemma {:induction false} AlwaysKept(s: Setting, w: World, steps: seq<Step>)
    requires Initial(s, w)
    ensures Kept(s, w.db, Exec(s, w, steps))
  {
    if steps == [] {
    } else {
      var n := |steps| - 1;
      AlwaysKept(s, w, steps[..n]);
      NextKeeps(s, w.db, Exec(s, w, steps[..n]), steps[n]);
    }
  }

  // ----- Against one uninterrupted run ----------------------------------------------------------

  /** What a conversation holds, whatever id it was given. */
  function ContentOf(db: Db, k: Key): (Conversation, seq<MessageRow>)
    requires k in db.conversations
  {
    var rows := MessagesOf(db.messages, db.conversations[k].id);
    (db.conversations[k].(id := 0), seq(|rows|, i requires 0 <= i < |rows| => rows[i].(conversation := 0)))
  }

  function Content(db: Db): map<Key, (Conversation, seq<MessageRow>)> {
    map k | k in db.conversations :: ContentOf(db, k)
  }

  /** Exactly once, and complete. */
  ghost predicate Settled(s: Setting, db0: Db, db: Db) {
    ExactlyOnce(s, db0, db) && Covers(s, db, |s.parsed|)
  }

  lemma SettledKeys(s: Setting, db0: Db, db: Db, k: Key)
    requires Settled(s, db0, db)
    ensures k in db.conversations <==>
            k in db0.conversations || (k.agent == s.job.agent && First(s.parsed, k.externalId).Some?)
  {
    FirstExists(s.parsed, k.externalId);
    if k in db.conversations && k !in db0.conversations {
      assert IngestedOnce(s, db, k);
    }
    if k.agent == s.job.agent && First(s.parsed, k.externalId).Some? {
      var i :| 0 <= i < |s.parsed| && s.parsed[i].externalId == k.externalId;
      assert Key(s.job.agent, s.parsed[i].externalId) == k;
    }
  }

  /** What the columns promise of a conversation leaves only its id open. */
  lemma SameConversation(s: Setting, db: Db, db': Db, k: Key)
    requires k in db.conversations && k in db'.conversations && IngestedOnce(s, db, k) && IngestedOnce(s, db', k)
    ensures ContentOf(db, k) == ContentOf(db', k)
  {
    var dto := First(s.parsed, k.externalId).value;
    var id, id' := db.conversations[k].id, db'.conversations[k].id;
    ConversationRow(db.conversations[k], id, dto, s.job, s.tools);
    ConversationRow(db'.conversations[k], id', dto, s.job, s.tools);
    MessageRowsHold(MessagesOf(db.messages, id), id, dto.messages, s.tools);
    MessageRowsHold(MessagesOf(db'.messages, id'), id', dto.messages, s.tools);
    assert ContentOf(db, k).1 == ContentOf(db', k).1;
  }

  lemma SettledContent(s: Setting, db0: Db, db: Db, db': Db, k: Key)
    requires Settled(s, db0, db) && Settled(s, db0, db') && k in db.conversations && k in db'.conversations
    ensures ContentOf(db, k) == ContentOf(db', k)
  {
    if k in db0.conversations {
      assert Untouched(db0, db, k) && Untouched(db0, db', k);
    } else {
      SameConversation(s, db, db', k);
    }
  }

  /** The settled content is unique, but for the ids that were generated. */
  lemma SettledIsUnique(s: Setting, db0: Db, db: Db, db': Db)
    requires Settled(s, db0, db) && Settled(s, db0, db')
    ensures Content(db) == Content(db')
  {
    forall k ensures k in Content(db) <==> k in Content(db') {
      SettledKeys(s, db0, db, k);
      SettledKeys(s, db0, db', k);
    }
    forall k | k in Content(db) ensures Content(db)[k] == Content(db')[k] {
      SettledContent(s, db0, db, db', k);
    }
  }

  ghost predicate SettledUpTo(s: Setting, db0: Db, db: Db, n: nat) {
    n <= |s.parsed| && WellFormed(db) && ExactlyOnce(s, db0, db) && Covers(s, db, n)
  }

  lemma AdvanceSettles(s: Setting, db0: Db, p: Progress, n: nat, newId: nat, after: Progress)
    requires 0 < n <= |s.parsed| && SettledUpTo(s, db0, p.db, n - 1)
    requires after == Advance(p, s.job, s.tools, s.parsed[n - 1], newId) && !after.aborted
    ensures SettledUpTo(s, db0, after.db, n)
  {
    IngestKeeps(s, db0, p.db, n - 1, newId);
  }

  lemma IngestAllStep(s: Setting, db0: Db, ids: seq<nat>, n: nat)
    requires 0 < n <= |s.parsed| <= |ids|
    ensures var before := IngestAll(db0, s.job, s.tools, s.parsed, ids, n - 1);
            && IngestAll(db0, s.job, s.tools, s.parsed, ids, n)
               == Advance(before, s.job, s.tools, s.parsed[n - 1], ids[n - 1])
            && (before.aborted ==> IngestAll(db0, s.job, s.tools, s.parsed, ids, n).aborted)
  {
  }

  lemma SettlesOneMore(s: Setting, db0: Db, ids: seq<nat>, n: nat)
    requires 0 < n <= |s.parsed| <= |ids|
    requires SettledUpTo(s, db0, IngestAll(db0, s.job, s.tools, s.parsed, ids, n - 1).db, n - 1)
    requires !IngestAll(db0, s.job, s.tools, s.parsed, ids, n).aborted
    ensures SettledUpTo(s, db0, IngestAll(db0, s.job, s.tools, s.parsed, ids, n).db, n)
  {
    IngestAllStep(s, db0, ids, n);
    AdvanceSettles(s, db0, IngestAll(db0, s.job, s.tools, s.parsed, ids, n - 1), n, ids[n - 1],
                   IngestAll(db0, s.job, s.tools, s.parsed, ids, n));
  }

  lemma {:induction false} SingleRunSettles(s: Setting, db0: Db, ids: seq<nat>, n: nat)
    requires n <= |s.parsed| <= |ids| && WellFormed(db0)
    requires !IngestAll(db0, s.job, s.tools, s.parsed, ids, n).aborted
    ensures SettledUpTo(s, db0, IngestAll(db0, s.job, s.tools, s.parsed, ids, n).db, n)
  {
    if n == 0 {
      NothingIngested(s, db0);
    } else {
      IngestAllStep(s, db0, ids, n);
      SingleRunSettles(s, db0, ids, n - 1);
      SettlesOneMore(s, db0, ids, n);
    }
  }

  lemma NothingIngested(s: Setting, db0: Db)
    requires WellFormed(db0)
    ensures SettledUpTo(s, db0, db0, 0)
  {
  }

  /** Generated ids that are all different and not in use. */
  ghost predicate FreshIds(db: Db, ids: seq<nat>) {
    && (forall i, j :: 0 <= i < j < |ids| ==> ids[i] != ids[j])
    && (forall i :: 0 <= i < |ids| ==> ids[i] !in Ids(db))
  }

  lemma IngestUsesOneId(db: Db, job: Job, tools: Tools, dto: ConversationDto, newId: nat)
    requires Ingest(db, job, tools, dto, newId).Committed?
    ensures Ids(Ingest(db, job, tools, dto, newId).db) <= Ids(db) + {newId}
  {
    var after := Ingest(db, job, tools, dto, newId).db;
    forall id | id in Ids(after) ensures id in Ids(db) + {newId} {
      var k :| k in after.conversations && after.conversations[k].id == id;
      assert k in db.conversations ==> db.conversations[k].id in Ids(db);
    }
  }

  lemma {:induction false} FreshIdsNeverAbort(s: Setting, db0: Db, ids: seq<nat>, n: nat)
    requires n <= |s.parsed| <= |ids| && FreshIds(db0, ids)
    ensures var p := IngestAll(db0, s.job, s.tools, s.parsed, ids, n);
            !p.aborted && forall id :: id in Ids(p.db) ==> id in Ids(db0) || id in ids[..n]
  {
    if n == 0 {
    } else {
      var before := IngestAll(db0, s.job, s.tools, s.parsed, ids, n - 1);
      FreshIdsNeverAbort(s, db0, ids, n - 1);
      assert ids[..n] == ids[..n - 1] + [ids[n - 1]];
      IngestUsesOneId(before.db, s.job, s.tools, s.parsed[n - 1], ids[n - 1]);
    }
  }

  /** With fresh ids the uninterrupted run does go through, so the comparison below is never empty. */
  lemma SingleRunCompletes(s: Setting, w: World, ids: seq<nat>)
    requires Initial(s, w) && |s.parsed| <= |ids| && FreshIds(w.db, ids)
    ensures var p := IngestAll(w.db, s.job, s.tools, s.parsed, ids, |s.parsed|);
            !p.aborted && Settled(s, w.db, p.db)
  {
    FreshIdsNeverAbort(s, w.db, ids, |s.parsed|);
    SingleRunSettles(s, w.db, ids, |s.parsed|);
  }

  /**
   * Exactly-once ingestion. After any steps whatever, old conversations are untouched and each new one
   * holds exactly the first conversation of the upload with its id, messages numbered from 0; and once
   * any run has completed, the content is that of a single uninterrupted run.
   */
  lemma ExactlyOnceIngestion(s: Setting, w: World, steps: seq<Step>)
    requires Initial(s, w)
    ensures var after := Exec(s, w, steps);
            && ExactlyOnce(s, w.db, after.db)
            && (forall ids, p :: after.upload.blob.None? && |s.parsed| <= |ids|
                  && p == IngestAll(w.db, s.job, s.tools, s.parsed, ids, |s.parsed|) && !p.aborted
                  ==> Content(after.db) == Content(p.db))
  {
    AlwaysKept(s, w, steps);
    var after := Exec(s, w, steps);
    forall ids, p | after.upload.blob.None? && |s.parsed| <= |ids|
        && p == IngestAll(w.db, s.job, s.tools, s.parsed, ids, |s.parsed|) && !p.aborted
      ensures Content(after.db) == Content(p.db)
    {
      SingleRunSettles(s, w.db, ids, |s.parsed|);
      SettledIsUnique(s, w.db, after.db, p.db);
    }
  }

  // ----- What the runs counted ------------------------------------------------------------------

  function TotalNew(runs: seq<Run>): nat {
    if runs == [] then 0 else runs[0].newCount + TotalNew(runs[1..])
  }

  function TotalMessages(runs: seq<Run>): nat {
    if runs == [] then 0 else runs[0].msgCount + TotalMessages(runs[1..])
  }

  lemma {:induction false} TotalsUpdate(runs: seq<Run>, r: nat, run: Run)
    requires r < |runs|
    ensures TotalNew(runs[r := run]) == TotalNew(runs) - runs[r].newCount + run.newCount
    ensures TotalMessages(runs[r := run]) == TotalMessages(runs) - runs[r].msgCount + run.msgCount
  {
    if r > 0 {
      TotalsUpdate(runs[1..], r - 1, run);
      assert runs[r := run][1..] == runs[1..][r - 1 := run];
    } else {
      assert runs[r := run][1..] == runs[1..];
    }
  }

  lemma {:induction false} TotalsExtend(runs: seq<Run>)
    ensures TotalNew(runs + [Run(Loaded, 0, 0, 0, 0)]) == TotalNew(runs)
    ensures TotalMessages(runs + [Run(Loaded, 0, 0, 0, 0)]) == TotalMessages(runs)
  {
    var more := runs + [Run(Loaded, 0, 0, 0, 0)];
    if runs == [] {
      assert more[1..] == [];
    } else {
      assert more[1..] == runs[1..] + [Run(Loaded, 0, 0, 0, 0)];
      TotalsExtend(runs[1..]);
    }
  }

  ghost predicate Balanced(db0: Db, w: World) {
    && |w.db.conversations| == |db0.conversations| + TotalNew(w.runs)
    && |w.db.messages| == |db0.messages| + TotalMessages(w.runs)
  }

  /** What a transaction adds to the two tables. */
  lemma IngestAdds(db: Db, job: Job, tools: Tools, dto: ConversationDto, newId: nat)
    ensures match Ingest(db, job, tools, dto, newId)
            case Aborted => true
            case Committed(after, true) =>
              |after.conversations| == |db.conversations| + 1 && |after.messages| == |db.messages| + |dto.messages|
            case Committed(after, false) => after == db
  {
    var key := Key(job.agent, dto.externalId);
    if key !in db.conversations && newId !in Ids(db) {
      var after := Ingest(db, job, tools, dto, newId).db;
      assert after.conversations.Keys == db.conversations.Keys + {key};
      assert |after.conversations| == |after.conversations.Keys|;
    }
  }

  lemma IngestStepBalanced(s: Setting, db0: Db, w: World, r: nat, newId: nat)
    requires Balanced(db0, w) && r < |w.runs| && w.runs[r].pc < |s.parsed|
    ensures Balanced(db0, IngestStep(s, w, r, newId))
  {
    TotalsUpdate(w.runs, r, IngestStep(s, w, r, newId).runs[r]);
    IngestAdds(w.db, s.job, s.tools, s.parsed[w.runs[r].pc], newId);
  }

  lemma NextBalanced(s: Setting, db0: Db, w: World, step: Step)
    requires Balanced(db0, w)
    ensures Balanced(db0, Next(s, w, step))
  {
    var after := Next(s, w, step);
    match step
    case Deliver =>
      TotalsExtend(w.runs);
    case IngestNext(r, newId) =>
      if r < |w.runs| && w.runs[r].phase == Looping && w.runs[r].pc < |s.parsed| {
        IngestStepBalanced(s, db0, w, r, newId);
      }
    case ShowProgress(_) =>
    case _ =>
      if step.r < |w.runs| {
        TotalsUpdate(w.runs, step.r, after.runs[step.r]);
        assert w.runs[step.r := w.runs[step.r]] == w.runs;
      }
  }

  /** Over all runs, dead ones too, the counters add up to the rows that were written. */
  lemma {:induction false} NothingCountedTwice(s: Setting, w: World, steps: seq<Step>)
    requires w.runs == []
    ensures Balanced(w.db, Exec(s, w, steps))
  {
    if steps == [] {
    } else {
      var n := |steps| - 1;
      NothingCountedTwice(s, w, steps[..n]);
      NextBalanced(s, w.db, Exec(s, w, steps[..n]), steps[n]);
    }
  }
}
