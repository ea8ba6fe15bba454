/** Ingesting the conversations of an upload, each in one transaction and once per (agent, external id). */
module Ingestion {
  import opened Wrappers
  import opened Text

  datatype MessageDto = MessageDto(role: string, content: string, timestamp: int)

  /** A conversation as a parser reads it from the upload. */
  datatype ConversationDto = ConversationDto(externalId: string, platform: string, startedAt: Option<int>,
                                             contactName: Option<string>, contactPhone: Option<string>,
                                             messages: seq<MessageDto>)

  datatype MessageRow = MessageRow(conversation: nat, seqNo: nat, role: string, content: string,
                                   anonymized: Option<string>, timestamp: int)

  /** A row of the conversations table; its agent and external id are its key there. */
  datatype Conversation = Conversation(id: nat, project: nat, org: nat, platform: string, startedAt: Option<int>,
                                       upload: Option<nat>, preview: string, messageCount: nat, status: string,
                                       contactName: Option<string>, contactPhone: Option<string>, endedAt: Option<int>)

  /** The columns of the unique constraint on conversations. */
  datatype Key = Key(agent: nat, externalId: string)

  datatype Db = Db(conversations: map<Key, Conversation>, messages: seq<MessageRow>)

  /** What every conversation of an upload shares. */
  datatype Job = Job(agent: nat, project: nat, org: nat, upload: Option<nat>)

  /** The anonymiser, and the recogniser of external ids that are phone numbers. */
  datatype Tools = Tools(anonymize: string -> string, phone: string -> Option<string>)

  const PREVIEW_LIMIT := 160

  // ----- The rows of a conversation -------------------------------------------------------------

  /** The first non-empty message, of a user if `users`, clipped. */
  function FirstText(messages: seq<MessageDto>, users: bool): Option<string> {
    if messages == [] then None
    else if messages[0].content != "" && (users ==> messages[0].role == "user")
    then Some(Clip(messages[0].content, PREVIEW_LIMIT))
    else FirstText(messages[1..], users)
  }

  function PreviewOf(messages: seq<MessageDto>): string {
    match FirstText(messages, true)
    case Some(text) => text
    case None => if FirstText(messages, false).Some? then FirstText(messages, false).value else ""
  }

  method FindText(messages: seq<MessageDto>, users: bool) returns (text: Option<string>)
    ensures text == FirstText(messages, users)
  {
    for i := 0 to |messages|
      invariant FirstText(messages, users) == FirstText(messages[i..], users)
    {
      if messages[i].content != "" && (users ==> messages[i].role == "user") {
        return Some(Clip(messages[i].content, PREVIEW_LIMIT));
      }
    }
    text := None;
  }

  /** `_preview`. */
  method Preview(messages: seq<MessageDto>) returns (text: string)
    ensures text == PreviewOf(messages)
    ensures Previews(text, messages)
  {
    PreviewExactly(messages);
    var found := FindText(messages, true);
    if found.None? {
      found := FindText(messages, false);
    }
    text := if found.Some? then found.value else "";
  }

  /** `dto.contact_phone or _phone_from_external(dto.external_id)`: an empty number is no number. */
  function PhoneOf(dto: ConversationDto, tools: Tools): Option<string> {
    if dto.contactPhone.Some? && dto.contactPhone.value != "" then dto.contactPhone else tools.phone(dto.externalId)
  }

  function RowOf(dto: ConversationDto, job: Job, tools: Tools, id: nat): Conversation {
    Conversation(id, job.project, job.org, dto.platform, dto.startedAt, job.upload, PreviewOf(dto.messages),
                 |dto.messages|, "completed", dto.contactName, PhoneOf(dto, tools),
                 if dto.messages == [] then None else Some(dto.messages[|dto.messages| - 1].timestamp))
  }

  function MessageRowOf(id: nat, seqNo: nat, dto: MessageDto, tools: Tools): MessageRow {
    MessageRow(id, seqNo, dto.role, dto.content, if dto.content == "" then None else Some(tools.anonymize(dto.content)),
               dto.timestamp)
  }

  /** The messages of a conversation, numbered from 0. */
  function MessageRows(id: nat, dtos: seq<MessageDto>, tools: Tools): seq<MessageRow> {
    seq(|dtos|, i requires 0 <= i < |dtos| => MessageRowOf(id, i, dtos[i], tools))
  }

  // ----- The rows column by column --------------------------------------------------------------

  predicate Speaks(m: MessageDto, users: bool) {
    m.content != "" && (users ==> m.role == "user")
  }

  predicate SpeaksFirst(messages: seq<MessageDto>, users: bool, i: int) {
    0 <= i < |messages| && Speaks(messages[i], users) && forall j :: 0 <= j < i ==> !Speaks(messages[j], users)
  }

  predicate Nobody(messages: seq<MessageDto>, users: bool) {
    forall i :: 0 <= i < |messages| ==> !Speaks(messages[i], users)
  }

  /** The beginning of `s`, whole if it has at most 160 characters. */
  predicate Begins(text: string, s: string) {
    text <= s && |text| == if |s| <= 160 then |s| else 160
  }

  /** The first text of a user; if there is none, of anybody; if there is none, nothing. */
  ghost predicate Previews(text: string, messages: seq<MessageDto>) {
    && (forall i :: SpeaksFirst(messages, true, i) ==> Begins(text, messages[i].content))
    && (forall i :: Nobody(messages, true) && SpeaksFirst(messages, false, i) ==> Begins(text, messages[i].content))
    && (Nobody(messages, false) ==> text == "")
  }

  /** The row of one message: the text as it came, and its redacted form unless it is empty. */
  predicate HoldsMessage(row: MessageRow, id: nat, seqNo: nat, dto: MessageDto, tools: Tools) {
    && row.conversation == id && row.seqNo == seqNo
    && row.role == dto.role && row.content == dto.content && row.timestamp == dto.timestamp
    && (row.anonymized.None? <==> dto.content == "")
    && (row.anonymized.Some? ==> row.anonymized.value == tools.anonymize(dto.content))
  }

  predicate HoldsMessages(rows: seq<MessageRow>, id: nat, dtos: seq<MessageDto>, tools: Tools) {
    |rows| == |dtos| && forall i :: 0 <= i < |dtos| ==> HoldsMessage(rows[i], id, i, dtos[i], tools)
  }

  /** The row of one conversation; an empty number is no number, and then the external id may be one. */
  ghost predicate HoldsConversation(row: Conversation, id: nat, dto: ConversationDto, job: Job, tools: Tools) {
    && row.id == id && row.project == job.project && row.org == job.org && row.upload == job.upload
    && row.platform == dto.platform && row.startedAt == dto.startedAt && row.contactName == dto.contactName
    && row.messageCount == |dto.messages| && row.status == "completed" && Previews(row.preview, dto.messages)
    && (dto.contactPhone.Some? && dto.contactPhone.value != "" ==> row.contactPhone == dto.contactPhone)
    && (dto.contactPhone in {None, Some("")} ==> row.contactPhone == tools.phone(dto.externalId))
    && (dto.messages == [] ==> row.endedAt == None)
    && (dto.messages != [] ==> row.endedAt == Some(dto.messages[|dto.messages| - 1].timestamp))
  }

  lemma {:induction false} FirstTextIsFirst(messages: seq<MessageDto>, users: bool)
    ensures FirstText(messages, users).None? ==> Nobody(messages, users)
    ensures FirstText(messages, users).Some? ==>
              var text := FirstText(messages, users).value;
              exists i :: SpeaksFirst(messages, users, i) && Begins(text, messages[i].content)
  {
    if messages == [] {
    } else if Speaks(messages[0], users) {
      assert SpeaksFirst(messages, users, 0);
    } else {
      var rest := messages[1..];
      FirstTextIsFirst(rest, users);
      assert forall j :: 0 < j < |messages| ==> messages[j] == rest[j - 1];
      if FirstText(rest, users).Some? {
        var i :| SpeaksFirst(rest, users, i) && Begins(FirstText(rest, users).value, rest[i].content);
        assert SpeaksFirst(messages, users, i + 1);
      }
    }
  }

  lemma OneSpeaksFirst(messages: seq<MessageDto>, users: bool, i: int, k: int)
    requires SpeaksFirst(messages, users, i) && SpeaksFirst(messages, users, k)
    ensures i == k
  {
  }

  lemma BeginsOnce(a: string, b: string, s: string)
    requires Begins(a, s) && Begins(b, s)
    ensures a == b
  {
    assert a == s[..|a|] && b == s[..|b|];
  }

  lemma PreviewExactly(messages: seq<MessageDto>)
    ensures Previews(PreviewOf(messages), messages)
  {
    var text := PreviewOf(messages);
    FirstTextIsFirst(messages, true);
    FirstTextIsFirst(messages, false);
    forall i | SpeaksFirst(messages, true, i) ensures Begins(text, messages[i].content) {
      var k :| SpeaksFirst(messages, true, k) && Begins(text, messages[k].content);
      OneSpeaksFirst(messages, true, i, k);
    }
    forall i | Nobody(messages, true) && SpeaksFirst(messages, false, i) ensures Begins(text, messages[i].content) {
      var k :| SpeaksFirst(messages, false, k) && Begins(text, messages[k].content);
      OneSpeaksFirst(messages, false, i, k);
    }
  }

  /** No other text is a preview. */
  lemma PreviewUnique(text: string, messages: seq<MessageDto>)
    requires Previews(text, messages)
    ensures text == PreviewOf(messages)
  {
    PreviewExactly(messages);
    FirstTextIsFirst(messages, true);
    FirstTextIsFirst(messages, false);
    if FirstText(messages, true).Some? {
      var k :| SpeaksFirst(messages, true, k) && Begins(PreviewOf(messages), messages[k].content);
      BeginsOnce(text, PreviewOf(messages), messages[k].content);
    } else if FirstText(messages, false).Some? {
      var k :| SpeaksFirst(messages, false, k) && Begins(PreviewOf(messages), messages[k].content);
      BeginsOnce(text, PreviewOf(messages), messages[k].content);
    }
  }

  /** The columns say all there is in the rows. */
  lemma ConversationRow(row: Conversation, id: nat, dto: ConversationDto, job: Job, tools: Tools)
    ensures HoldsConversation(row, id, dto, job, tools) <==> row == RowOf(dto, job, tools, id)
  {
    PreviewExactly(dto.messages);
    if HoldsConversation(row, id, dto, job, tools) {
      PreviewUnique(row.preview, dto.messages);
    }
  }

  lemma MessageRowsHold(rows: seq<MessageRow>, id: nat, dtos: seq<MessageDto>, tools: Tools)
    ensures HoldsMessages(rows, id, dtos, tools) <==> rows == MessageRows(id, dtos, tools)
  {
    var all := MessageRows(id, dtos, tools);
    if HoldsMessages(rows, id, dtos, tools) {
      forall i | 0 <= i < |dtos| ensures rows[i] == all[i] {
        assert HoldsMessage(rows[i], id, i, dtos[i], tools);
      }
    }
    forall i | 0 <= i < |dtos| ensures HoldsMessage(all[i], id, i, dtos[i], tools) {
      assert all[i] == MessageRowOf(id, i, dtos[i], tools);
    }
  }

  // ----- One transaction ------------------------------------------------------------------------

  function Ids(db: Db): set<nat> {
    set k | k in db.conversations :: db.conversations[k].id
  }

  datatype Outcome = Aborted | Committed(db: Db, wasNew: bool)

  /**
   * The transaction of one conversation. The key decides before the row is written, so an existing
   * conversation is left alone; a generated id that is taken violates the primary key and aborts.
   */
  function Ingest(db: Db, job: Job, tools: Tools, dto: ConversationDto, newId: nat): Outcome {
    var key := Key(job.agent, dto.externalId);
    if key in db.conversations then Committed(db, false)
    else if newId in Ids(db) then Aborted
    else Committed(Db(db.conversations[key := RowOf(dto, job, tools, newId)],
                      db.messages + MessageRows(newId, dto.messages, tools)), true)
  }

  // ----- A whole run ----------------------------------------------------------------------------

  /** How far a run has come: the database, its counters, and whether a transaction has failed. */
  datatype Progress = Progress(db: Db, newCount: nat, dupCount: nat, msgCount: nat, aborted: bool)

  function Advance(p: Progress, job: Job, tools: Tools, dto: ConversationDto, newId: nat): Progress {
    if p.aborted then p
    else match Ingest(p.db, job, tools, dto, newId)
      case Aborted => p.(aborted := true)
      case Committed(db, true) => p.(db := db, newCount := p.newCount + 1, msgCount := p.msgCount + |dto.messages|)
      case Committed(db, false) => p.(dupCount := p.dupCount + 1)
  }

  /** The first `n` conversations, one after the other. */
  function IngestAll(db: Db, job: Job, tools: Tools, parsed: seq<ConversationDto>, ids: seq<nat>, n: nat): Progress
    requires n <= |parsed| <= |ids|
  {
    if n == 0 then Progress(db, 0, 0, 0, false)
    else Advance(IngestAll(db, job, tools, parsed, ids, n - 1), job, tools, parsed[n - 1], ids[n - 1])
  }

  /** One more conversation, by what its transaction does. */
  lemma AdvanceFollows(db: Db, job: Job, tools: Tools, parsed: seq<ConversationDto>, ids: seq<nat>, i: nat)
    requires i < |parsed| <= |ids| && !IngestAll(db, job, tools, parsed, ids, i).aborted
    ensures var p, q := IngestAll(db, job, tools, parsed, ids, i), IngestAll(db, job, tools, parsed, ids, i + 1);
            var outcome := Ingest(p.db, job, tools, parsed[i], ids[i]);
            && (outcome.Aborted? ==> q == p.(aborted := true))
            && (outcome.Committed? && outcome.wasNew ==> q == Progress(outcome.db, p.newCount + 1, p.dupCount,
                                                                       p.msgCount + |parsed[i].messages|, false))
            && (outcome.Committed? && !outcome.wasNew ==>
                  outcome.db == p.db && q == Progress(p.db, p.newCount, p.dupCount + 1, p.msgCount, false))
  {
  }

  lemma {:induction false} AbortedStays(db: Db, job: Job, tools: Tools, parsed: seq<ConversationDto>, ids: seq<nat>,
      i: nat, n: nat)
    requires i <= n <= |parsed| <= |ids| && IngestAll(db, job, tools, parsed, ids, i).aborted
    ensures IngestAll(db, job, tools, parsed, ids, n) == IngestAll(db, job, tools, parsed, ids, i)
  {
    if i < n {
      AbortedStays(db, job, tools, parsed, ids, i, n - 1);
    }
  }

  const PROGRESS_STEP := 5

  /** The progress on show after `n` conversations: the last multiple of the step, once there is one. */
  function Shown(before: nat, job: Job, n: nat): nat {
    if job.upload.None? || n < PROGRESS_STEP then before else n - n % PROGRESS_STEP
  }

  lemma ShownStep(before: nat, job: Job, n: nat)
    ensures Shown(before, job, n + 1)
         == if job.upload.Some? && (n + 1) % PROGRESS_STEP == 0 then n + 1 else Shown(before, job, n)
  {
  }

  datatype Status = Pending | Processing | Completed | Failed

  /** The upload; its blob stands for the conversations the parser reads from it. */
  datatype Upload = Upload(agent: Option<nat>, status: Status, rowsTotal: nat, rowsProcessed: nat,
                           blob: Option<seq<ConversationDto>>)

  datatype Summary = Summary(newCount: nat, dupCount: nat, msgCount: nat)

  datatype IngestError = NoAgent | NoContent | TransactionFailed

  class Store {
    var conversations: map<Key, Conversation>
    var messages: seq<MessageRow>
    var upload: Upload

    ghost function Database(): Db
      reads this
    {
      Db(conversations, messages)
    }

    /** `upsert_conversation_idempotent`: `INSERT ... ON CONFLICT DO NOTHING`, or the row that is there. */
    method UpsertConversation(key: Key, row: Conversation) returns (r: Result<(Conversation, bool), IngestError>)
      modifies this`conversations
      ensures key in old(conversations) ==>
                conversations == old(conversations) && r == Ok((conversations[key], false))
      ensures key !in old(conversations) && row.id in Ids(old(Database())) ==>
                conversations == old(conversations) && r == Err(TransactionFailed)
      ensures key !in old(conversations) && row.id !in Ids(old(Database())) ==>
                conversations == old(conversations)[key := row] && r == Ok((row, true))
    {
      if key in conversations {
        r := Ok((conversations[key], false));
      } else if row.id in Ids(Db(conversations, messages)) {
        r := Err(TransactionFailed);
      } else {
        conversations := conversations[key := row];
        r := Ok((row, true));
      }
    }

    /** `_persist_messages`. */
    method PersistMessages(id: nat, dtos: seq<MessageDto>, tools: Tools) returns (count: nat)
      modifies this`messages
      ensures messages == old(messages) + MessageRows(id, dtos, tools)
      ensures HoldsMessages(messages[|old(messages)|..], id, dtos, tools)
      ensures count == |dtos|
    {
      var rows: seq<MessageRow> := [];
      for i := 0 to |dtos|
        invariant rows == MessageRows(id, dtos, tools)[..i]
      {
        rows := rows + [MessageRowOf(id, i, dtos[i], tools)];
      }
      assert rows == MessageRows(id, dtos, tools);
      MessageRowsHold(rows, id, dtos, tools);
      assert (messages + rows)[|messages|..] == rows;
      if rows == [] {
        return 0;
      }
      messages := messages + rows;
      count := |rows|;
    }

    /** The transaction of one conversation: it commits whole, or leaves no trace. */
    method IngestConversation(dto: ConversationDto, job: Job, tools: Tools, newId: nat)
      returns (r: Result<(bool, nat), IngestError>)
      modifies this`conversations, this`messages
      ensures var outcome := Ingest(old(Database()), job, tools, dto, newId);
              if outcome.Aborted? then r == Err(TransactionFailed) && Database() == old(Database())
              else && r == Ok((outcome.wasNew, if outcome.wasNew then |dto.messages| else 0))
                   && Database() == outcome.db
    {
      var text := Preview(dto.messages);
      var row := Conversation(newId, job.project, job.org, dto.platform, dto.startedAt, job.upload, text,
                              |dto.messages|, "completed", dto.contactName, PhoneOf(dto, tools),
                              if dto.messages == [] then None else Some(dto.messages[|dto.messages| - 1].timestamp));
      var upserted := UpsertConversation(Key(job.agent, dto.externalId), row);
      if upserted.Err? {
        return Err(TransactionFailed);
      }
      var count := 0;
      if upserted.value.1 {
        count := PersistMessages(upserted.value.0.id, dto.messages, tools);
      }
      r := Ok((upserted.value.1, count));
    }

    /** `process_conversations`: the loop, its counters and the progress written every five conversations. */
    method ProcessConversations(parsed: seq<ConversationDto>, job: Job, tools: Tools, ids: seq<nat>)
      returns (r: Result<Summary, IngestError>)
      requires |parsed| <= |ids|
      modifies this
      ensures var p := IngestAll(old(Database()), job, tools, parsed, ids, |parsed|);
              && Database() == p.db
              && r == (if p.aborted then Err(TransactionFailed) else Ok(Summary(p.newCount, p.dupCount, p.msgCount)))
              && (!p.aborted ==> p.newCount + p.dupCount == |parsed|)
              && upload == old(upload).(rowsProcessed := Shown(old(upload).rowsProcessed, job, p.newCount + p.dupCount))
    {
      var newCount, dupCount, msgCount := 0, 0, 0;
      ghost var before := Database();
      for i := 0 to |parsed|
        invariant IngestAll(before, job, tools, parsed, ids, i)
               == Progress(Database(), newCount, dupCount, msgCount, false)
        invariant newCount + dupCount == i
        invariant upload == old(upload).(rowsProcessed := Shown(old(upload).rowsProcessed, job, i))
      {
        AdvanceFollows(before, job, tools, parsed, ids, i);
        var outcome := IngestConversation(parsed[i], job, tools, ids[i]);
        if outcome.Err? {
          AbortedStays(before, job, tools, parsed, ids, i + 1, |parsed|);
          return Err(TransactionFailed);
        }
        if outcome.value.0 {
          msgCount := msgCount + outcome.value.1;
          newCount := newCount + 1;
        } else {
          dupCount := dupCount + 1;
        }
        ShownStep(old(upload).rowsProcessed, job, i);
        if job.upload.Some? && (i + 1) % PROGRESS_STEP == 0 {
          upload := upload.(rowsProcessed := newCount + dupCount);
        }
      }
      r := Ok(Summary(newCount, dupCount, msgCount));
    }

    /** `_run` with its handler: any failure marks the upload failed, and keeps its content. */
    method Run(project: nat, org: nat, uploadId: nat, tools: Tools, ids: seq<nat>)
      returns (r: Result<Summary, IngestError>)
      requires upload.blob.Some? ==> |upload.blob.value| <= |ids|
      modifies this
      ensures upload.agent == old(upload).agent
      ensures old(upload).agent.None? || old(upload).blob.None? ==>
                Database() == old(Database()) && upload == old(upload).(status := Failed) && r.Err?
      ensures old(upload).agent.Some? && old(upload).blob == Some([]) ==>
                && Database() == old(Database())
                && upload == old(upload).(status := Failed, rowsTotal := 0, rowsProcessed := 0)
                && r == Ok(Summary(0, 0, 0))
      ensures old(upload).agent.Some? && old(upload).blob.Some? && old(upload).blob.value != [] ==>
                var parsed := old(upload).blob.value;
                var job := Job(old(upload).agent.value, project, org, Some(uploadId));
                var p := IngestAll(old(Database()), job, tools, parsed, ids, |parsed|);
                && Database() == p.db
                && (if p.aborted then
                      && upload == Upload(old(upload).agent, Failed, |parsed|, Shown(0, job, p.newCount + p.dupCount),
                                          old(upload).blob)
                      && r == Err(TransactionFailed)
                    else
                      && upload == Upload(old(upload).agent, Completed, |parsed|, |parsed|, None)
                      && r == Ok(Summary(p.newCount, p.dupCount, p.msgCount)))
    {
      if upload.agent.None? {
        upload := upload.(status := Failed);
        return Err(NoAgent);
      }
      if upload.blob.None? {
        upload := upload.(status := Failed);
        return Err(NoContent);
      }
      var parsed := upload.blob.value;
      if parsed == [] {
        upload := upload.(status := Failed, rowsTotal := 0, rowsProcessed := 0);
        return Ok(Summary(0, 0, 0));
      }
      upload := upload.(status := Processing, rowsTotal := |parsed|, rowsProcessed := 0);
      r := ProcessConversations(parsed, Job(upload.agent.value, project, org, Some(uploadId)), tools, ids);
      if r.Err? {
        upload := upload.(status := Failed);
      } else {
        upload := upload.(status := Completed, rowsProcessed := r.value.newCount + r.value.dupCount, blob := None);
      }
    }
  }
}
