# A verified model of the insyta-api kernels

insyta-api audits customer-service conversations: it ingests chat exports, redacts personal data before a
language model reads them, scores each conversation with a rubric, checks the prices and bank accounts a bot
states, charts each agent's scores, and keeps the history of the flows behind the bots. Below its HTTP and
SQL layers are a number of deterministic algorithms and small transactional protocols. This project models
them in Dafny and proves what they promise, for all inputs and all runs.

`dafny verify dfyconfig.toml` checks the whole project. Modules follow the source files:

| module | models |
|---|---|
| `Luhn`, `DigitText`, `Text`, `TokenText`, `Anonymizer`, `AnonymizerRoundTrip`, `AnonymizerCollision`, `AnonymizerRedaction` | the reversible tokeniser of personal data |
| `Quotes`, `Prices` | the price contradiction checker and the tariff quotes that feed it |
| `Spc`, `SpcBounds` | the control charts per agent |
| `SoftDelete`, `SoftDeleteRuns` | the soft-delete cascades |
| `Ingestion`, `IngestionRuns` | the upload processor and its idempotent insert |
| `Reputation`, `AuditRun` | the reputation counters and the audit loop that feeds them |
| `FlowHistory` | the version history of flows |
| `Cursors`, `Pagination` | keyset pagination of conversations |
| `RubricScoring`, `Rounding`, `Arithmetic` | the rubric score with its veto cap |
| `WhatsApp`, `Sorting` | the WhatsApp export line machine |
| `Cbu` | bank account check digits |

How the parts are modelled:

- Code that changes variables or rows step by step is a method or a class with fields, proved against a
  function or a predicate on values; the theorems are lemmas about those.
- A `tenant_txn` block is one step that commits whole or leaves no trace. Runs of several workers interleave
  such steps.
- Regular expressions, the named-entity recogniser, the hash, stop words, phone recognition and the square
  root are function parameters. `Anonymizer.Lawful` says what is taken from the libraries: spans
  lie in the text, in order; a pattern's match has no bracket and takes no part of a token-shaped piece of
  text; the hash suffix is four hexadecimal characters. About the recogniser only non-empty spans inside the
  text are assumed: they may overlap, nest, and come in any order.
- Scores, averages and tariffs are exact reals; `round` is round-half-even (`Rounding.PyRound`).
- Generated ids are parameters of the steps that store them; an id that is taken makes the transaction fail.

Five promises do not hold on all inputs. The model keeps the code as it is, shows a failing input, and proves
exactly when each holds:

- The anonymiser's round trip. `AnonymizerCollision` gives a run in which the four-character hash collides, and
  one whose token was already in the text; neither comes back. With entities that miss what looks like a token,
  `RoundTripIff` says that the text comes back exactly when the hash did not collide and no used token was in
  it. That takes originals whose lengths cannot make up for one another: when several share a token, the one
  stored last is the longest or the shortest of each. `LengthsMayCompensate` shows a collision that does not
  show, since three lengths add up by chance. `RoundTripOfCheckedText` is the form to check before the call.
- Deleting a project does not delete its notifications, although their foreign key is declared
  `ON DELETE CASCADE` (app/models/notifications.py:30-34) and the module comment says that the code repeats the
  schema's cascades. `CascadeIsExact` says that this is all the code leaves out, and `RunLeavesNoOrphansIff`
  that a run of deletes leaves no live row under a deleted parent exactly when it deletes no project of a live
  notification.
- The first control-chart rule stays silent on short series exactly when there is no chart or no point comes
  after the values that the limits are computed from (`TenPointsNeverBeyond`, `FewPointsAreStable`). The
  production caller drops gaps before the call (app/services/reputation.py:66), so its series of at most twenty
  scores meet this; a series with gaps reaches the function from other callers only.
- Adding prices to the catalogue can create no contradiction exactly when it had a price: nothing is checked
  against an empty one (`MoreCatalogueFewerContradictions`).
- More veto flags or confidence can raise no final score exactly when the rubric has a score or its veto is
  firm on the flags, detections and confidence given; otherwise a flag reports the cap where there was no
  score (`VetoNeverRaisesIff`).

The upload status "completed" is not an end state: an upload delivered again finds its content gone and is
marked as failed. `IngestionRuns` has that step (`Deliver` without content), and its theorem is about the
content stored, not about the status.

## Model

| member | source | states |
|---|---|---|
| Luhn.LuhnCheck | app/services/anonymizer.py:55-67 | the left-to-right loop, with its length-dependent parity, accepts exactly the strings of at least 13 digits whose right-to-left sum of Annex B of ISO/IEC 7812-1 is a multiple of ten |
| Luhn.SingleSubstitutionDetected | app/services/anonymizer.py:55-67 | replacing any one digit of a valid number makes it invalid |
| Luhn.AdjacentSwapUndetectedIff | app/services/anonymizer.py:55-67 | swapping two neighbours of a valid number goes unnoticed exactly when they are equal or are 0 and 9 |
| Luhn.KnownCard | app/services/anonymizer.py:55-67 | 4111 1111 1111 1111 is valid, the same with two ones more is not, and twelve digits never are |
| Anonymizer.SubPass | app/services/anonymizer.py:201-224 | the `re.sub` callback loop, with the card check, builds the text and the dictionary of one simultaneous pass over the original offsets |
| Anonymizer.SubDni | app/services/anonymizer.py:227-233 | replacing the digit group inside the match equals a pass over the digit spans, prefix kept |
| Anonymizer.FindRanges | app/services/anonymizer.py:253-261 | the `find` loops collect every non-overlapping occurrence of every token, in order |
| Anonymizer.SubEntities | app/services/anonymizer.py:266-286 | substituting right to left in the text being changed equals replacing the greedily chosen spans of the redacted text all at once, dictionary included |
| Anonymizer.RightToLeftIsSimultaneous | app/services/anonymizer.py:266-286 | replacing disjoint spans from the right keeps the offsets of the others: the result is the simultaneous replacement |
| Anonymizer.Anonymize | app/services/anonymizer.py:188-288 | text and dictionary are those of the four passes followed by the recogniser's layer; the empty text is returned as it is |
| AnonymizerRedaction.MatchIsRedacted | app/services/anonymizer.py:188-233 | what the pattern of one kind finds in a text, the earlier ones of e-mail, card, phone and DNI finding nothing, has the token of that kind and its hash in its place in the result, and in the dictionary, whatever the later patterns and the recogniser find; cards only with a valid number |
| AnonymizerRedaction.RunHasStages | app/services/anonymizer.py:188-288 | on any text each pattern in turn redacts all it finds in what the earlier ones have left, moves no token placed before, and leaves alone a text in which it finds nothing; then every entity of a known type that is plain, no stop word and off the placed tokens becomes its token, or overlaps one that does |
| AnonymizerRedaction.EntityIsRedacted | app/services/anonymizer.py:250-286 | so, where no pattern finds anything, such an entity has its token in its place in the result, or one that it overlaps has |
| Anonymizer.ReverseText | app/services/anonymizer.py:75-80 | `reverse` is the fold of `str.replace` over the dictionary in insertion order |
| TokenText.ReplaceToken | app/services/anonymizer.py:75-80 | one `str.replace` on text that mixes literals and tokens turns back exactly the placed tokens, and changes nothing else when the token was not in the original |
| TokenText.ReverseRestores | app/services/anonymizer.py:75-80 | replacing one token after the other, in any dictionary order, on partly restored text gives the original |
| AnonymizerRoundTrip.EntitySpansSound | app/services/anonymizer.py:250-286 | for any spans: each accepted one comes from the recogniser, reads the redacted text at its own offsets, has no bracket, overlaps no regex token and no other accepted one |
| AnonymizerRoundTrip.EntityReplacedOrClashes | app/services/anonymizer.py:266-286 | an eligible span is left out only for an accepted one that clashes with it |
| AnonymizerRoundTrip.RoundTrip | app/services/anonymizer.py:75-80 | `reverse(anonymize(t).text) == t` for every text, recogniser included, when no two originals share a token and no token used is in the text |
| AnonymizerRoundTrip.TokenInTextIsLost | app/services/anonymizer.py:75-80 | a used token that was already in the text comes back as an original, collision or not, when entities miss what looks like a token: the result has fewer brackets than the text |
| AnonymizerRoundTrip.CollisionIsLost | app/services/anonymizer.py:75-95 | a run in which two originals share a token does not come back, whatever kinds, further matches, recogniser or tokens in the text there are, when the originals' lengths are one-sided |
| AnonymizerRoundTrip.RoundTripIff | app/services/anonymizer.py:75-95 | with entities that miss what looks like a token and one-sided lengths (`InjectiveIsOneSided`: always so without a collision), the round trip succeeds exactly when no two originals share a token and no used token was in the text |
| AnonymizerRoundTrip.PatternsRoundTripIff | app/services/anonymizer.py:75-95 | so it does with the patterns alone |
| AnonymizerRoundTrip.RunAccounted | app/services/anonymizer.py:188-288 | every original in the dictionary is a piece of the text that a pattern (with a valid number if a card) or the recogniser can find, and its token carries that kind and its own hash, though the passes read texts already changed |
| AnonymizerRoundTrip.RoundTripOfCheckedText | app/services/anonymizer.py:75-95 | a text in which nothing looks like a token comes back, whatever is matched, when the hash tells apart those of its pieces that can be found as things of one kind |
| AnonymizerCollision.CollisionExists | app/services/anonymizer.py:86-95 | a concrete lawful run with a collision and no token in the text: both addresses come back as the second |
| AnonymizerCollision.LengthsMayCompensate | app/services/anonymizer.py:75-95 | a concrete lawful run with a collision, of lengths that are not one-sided, whose text does come back |
| AnonymizerCollision.TokenAlreadyThere | app/services/anonymizer.py:75-80 | a concrete lawful run, without a collision, that does not come back because its token was in the text |
| Prices.FlattenPrices | app/services/validators/prices.py:61-78 | the recursion collects exactly the integers, the rounded fractions and the strings that read as numbers, anywhere in the catalogue; flags are not numbers |
| Prices.NormalizeReads | app/services/validators/prices.py:54-58 | a number in decimal notation reads as itself |
| Prices.NormalizeSkips | app/services/validators/prices.py:54-58 | a point or comma anywhere makes no difference |
| Prices.NormalizeFails | app/services/validators/prices.py:54-58 | a text reads as a number exactly when it has a digit and nothing but digits, points and commas |
| Prices.StatedPrices | app/services/validators/prices.py:81-99 | the figures that have a currency mark or a separator, in order, repeats kept |
| Prices.StatedAre | app/services/validators/prices.py:81-99 | an amount is stated exactly when some figure reads as it and has a currency mark or a separator |
| Prices.StatedInOrder | app/services/validators/prices.py:81-99 | the amounts of a text come in its order, repetitions included |
| Prices.Derivable | app/services/validators/prices.py:102-139 | true exactly when something is cited and the amount is 2 to 100 times a cited price or a sum of at most ten cited prices, repetition allowed |
| Prices.Reachable | app/services/validators/prices.py:124-139 | pruning at the amount and stopping when nothing new is reached lose no sum |
| Prices.FindContradictions | app/services/validators/prices.py:157-172 | the loop with its three exits keeps exactly the amounts that contradict |
| Prices.CheckPrices | app/services/validators/prices.py:148-172 | the contradictions are, in order and with repeats, exactly the stated amounts off every catalogue price, off every quote, and not derivable from the cited ones; none on an empty catalogue |
| Prices.ReportedAre | app/services/validators/prices.py:148-172 | an amount is reported exactly when the catalogue is not empty and it is stated, farther than the tolerance from every catalogue price, farther than that and than 1 from every quote, not 2 to 100 times a stated catalogue price, and no sum of at most ten of them |
| Prices.LargerCatalogueCreatesNone | app/services/validators/prices.py:148-172 | more prices in a catalogue that has one strike entries out of the report, and add none |
| Prices.MoreCatalogueFewerContradictions | app/services/validators/prices.py:148-172 | for all stated amounts, quotes and tolerances, no enlargement of a catalogue creates a contradiction exactly when it is not empty |
| Prices.FirstPriceMayContradict | app/services/validators/prices.py:151-154 | the failing input: against an empty catalogue a stated 7 is not reported, against one price it is |
| Quotes.Surfaces | app/services/validators/quotes.py:53-64 | each rounded figure within (0, 100000], once, ascending |
| Quotes.Derivables | app/services/validators/quotes.py:97-137 | an amount is a quote exactly when some service has a numeric rate in `precio_m2`, a factor that is 1 or one plus a numeric `recargo_` entry from 0 to 5, a factor that is 1 or a numeric frequency above 0 and up to 2, and a mentioned surface, whose rounded product it is, with the service's minimum applied before or after the frequency; every combination is counted |
| Quotes.ServiceQuotes | app/services/validators/quotes.py:109-136 | the same for the tariff of one service |
| Quotes.SurchargedQuote | app/services/validators/quotes.py:129-135 | with 100 for the square metre and an urgent surcharge of 0.30, sixty square metres are quoted at 6000 and at 7800 |
| Spc.CheckSides | app/services/spc.py:62-74 | the run counter fires at a point exactly when it and the seven before it are all above, or all below, the mean |
| Spc.CheckTrends | app/services/spc.py:76-88 | the two counters fire at a point exactly when the six points ending there strictly rise, or strictly fall |
| Spc.CheckRules | app/services/spc.py:50-90 | the three rules in order: points beyond the limits, sides, trends |
| Spc.ViolationsExactly | app/services/spc.py:50-90 | an alarm is reported exactly when its window satisfies its rule |
| Spc.ShortestRuns | app/services/spc.py:62-88 | six rising points or eight above the mean are enough for their alarms, and nothing shorter is |
| Spc.Summarize | app/services/spc.py:115-121 | no summary without two points; otherwise the alarms and the trend, low alarms before high ones |
| Spc.TrendOfAlarms | app/services/spc.py:93-121 | the label is "degradacion" exactly with some low alarm among the windows of the series, "mejora" exactly with a high one and no low one, "estable" exactly with neither |
| SpcBounds.BaselineCharted | app/services/spc.py:40-47 | the limits are the mean of the first points plus and minus three sample deviations |
| SpcBounds.FarCountBound | app/services/spc.py:40-60 | k points of the sample beyond its own limits need more than 9k + 1 points |
| SpcBounds.FarPointNeedsEleven | app/services/spc.py:40-60 | one such point needs at least eleven |
| SpcBounds.ElevenPointsCanFire | app/services/spc.py:40-60 | eleven are enough |
| SpcBounds.OnlyLatePointsFire | app/services/spc.py:40-60 | limits computed from at most ten points are left exactly by later points outside them: the rule fires if and only if there is one, whatever the length of the baseline |
| SpcBounds.AtMostTwoOfTheSample | app/services/spc.py:40-60 | of the points that the limits are computed from, the first twenty values less their gaps, at most two fire the rule |
| SpcBounds.TwoOfTwentyCanFire | app/services/spc.py:40-60 | two of twenty points can |
| SpcBounds.TenPointsNeverBeyond | app/services/spc.py:40-60 | with at most ten points, no scores in these places fire the rule exactly when there is no chart or no point comes after the values charted |
| SpcBounds.FewPointsAreStable | app/services/spc.py:93-121 | with at most five points, whatever scores are in these places are labelled "estable" under exactly the same condition |
| SpcBounds.LatePointCanFire | app/services/spc.py:40-60 | with a point outside the baseline, three points can fire it |
| SpcBounds.MirrorViolations | app/services/spc.py:50-90 | reflecting the series about the mean keeps every rule and index and swaps "alto" with "bajo" |
| SpcBounds.MirrorCharted | app/services/spc.py:40-47 | the reflected sample has the same mean, deviation and limits |
| SpcBounds.MirrorSummary | app/services/spc.py:115-121 | a reflected series, gaps included, gets the same chart and the flipped alarms |
| SoftDelete.Session.Flag | app/services/soft_delete.py:60-67 | flags the live rows selected, keeping the time of those already deleted |
| SoftDelete.Session.FlagProject | app/services/soft_delete.py:70-73 | flags the project and its rows in the fifteen listed child tables; notifications are not among them |
| SoftDelete.Session.FlagConversations | app/services/soft_delete.py:76-83 | flags the conversations and what hangs from them; nothing for an empty list |
| SoftDelete.Session.FlagUpload | app/services/soft_delete.py:86-99 | flags the upload, its conversations, deleted ones included, and what hangs from those |
| SoftDelete.Session.FlagFlow | app/services/soft_delete.py:109-129 | flags the flow, its versions, its improvements and their links |
| SoftDelete.Session.Delete | app/services/soft_delete.py:60-129 | any entry point flags exactly its closure |
| SoftDeleteRuns.Run | app/services/soft_delete.py:60-129 | any sequence of calls, one after the other |
| SoftDeleteRuns.RunDeletesUnion | app/services/soft_delete.py:60-129 | after any run a live row is deleted exactly when some call's closure, on the original rows, has it, with the time of the first such call; a row deleted before is as it was, and references never change |
| SoftDeleteRuns.OrderDoesNotMatter | app/services/soft_delete.py:60-129 | neither order nor repetition of the calls changes what is deleted |
| SoftDeleteRuns.CascadeIsExact | app/services/soft_delete.py:60-129 | on consistent rows the coded closure and the notifications of the deleted project are together the least set with the named rows that is closed under the schema's cascades; the closure alone is closed exactly when there are no such notifications |
| SoftDeleteRuns.RunLeavesNoOrphansIff | app/services/soft_delete.py:60-129 | on consistent rows a run leaves no live row under a deleted parent exactly when none of its calls deletes the project of a live notification |
| SoftDeleteRuns.ProjectDeleteStrandsNotification | app/services/soft_delete.py:70-73 | the failing input: a project and its notification |
| Ingestion.Preview | app/workers/processor.py:101-108 | the first non-empty user message, else the first non-empty one, cut at 160 |
| Ingestion.Store.UpsertConversation | app/services/idempotency.py:29-104 | inserts under a new (agent, external id), or returns the row that is there, untouched |
| Ingestion.Store.PersistMessages | app/workers/processor.py:111-142 | appends one row for each message: its conversation, its number from 0, role, content and time as they came, and the redacted content exactly when there is content |
| Ingestion.ConversationRow | app/workers/processor.py:160-190 | the columns of a conversation row, written out: preview, count, status, phone (the one given if not empty, else the one in the external id), end time; they determine the row |
| Ingestion.Store.IngestConversation | app/workers/processor.py:160-198 | the transaction of one conversation commits whole or leaves no trace |
| Ingestion.Store.ProcessConversations | app/workers/processor.py:145-206 | the loop equals the fold of transactions; new plus duplicate counts are the conversations done, shown every five |
| Ingestion.Store.Run | app/workers/processor.py:216-296 | status, totals and content of the upload for every outcome: no agent, no content, nothing parsed, failed half-way, completed |
| IngestionRuns.IngestKeeps | app/workers/processor.py:160-198 | a transaction at any position, all earlier ones being there, keeps every conversation that of the first entry with its id |
| IngestionRuns.ExactlyOnceIngestion | app/workers/processor.py:119-296 | for any number of runs of one upload, crashing anywhere and interleaved by transaction: older conversations are untouched, each new one has, column by column, the conversation and the numbered, redacted messages of the first entry with its id; once any run completes, the content is that of one uninterrupted run |
| IngestionRuns.SingleRunCompletes | app/workers/processor.py:145-206 | with fresh ids the uninterrupted run does go through |
| IngestionRuns.NothingCountedTwice | app/workers/processor.py:153-206 | over all runs the counters of new conversations and messages add up to the rows written |
| Reputation.UpdateAgent | app/services/reputation.py:110-139 | the stored average, counts and vetoes after one more score, or without one |
| Reputation.UpdateUser | app/services/reputation.py:142-185 | the stored record with one more sentiment, and its fraud attempts, risk flag and label |
| Reputation.UserUpdate | app/services/reputation.py:178-185 | attempts grow by one exactly with a fraud; a user is risky exactly with two; the label is "problematico" exactly then, else the lead's, else "recurrente" exactly with an average of at least 4, else neutral |
| Reputation.AverageWithinScores | app/services/reputation.py:34-38 | re-rounded at every step, the average stays between the smallest and the largest score |
| Reputation.TotalDrift | app/services/reputation.py:34-38 | n times the stored average is off the sum of the n scores by at most 0.0025 (n (n + 1) - 2) |
| Reputation.AverageDrift | app/services/reputation.py:34-38 | the stored average is off the true mean by at most 0.0025 (n + 1) |
| AuditRun.Worker.PersistEvaluation | app/workers/audit.py:130-163 | afterwards the conversation is evaluated, no other becomes so, an earlier evaluation stands, and one row a conversation stays one row a conversation |
| AuditRun.Worker.PersistRubric | app/workers/audit.py:334-367 | sets the veto column of that conversation's evaluation and leaves every other row and column as it was |
| AuditRun.Worker.AuditConversation | app/workers/audit.py:506-771 | commits the evaluation and both reputations together, or, wherever it raises, nothing; an evaluated conversation is left alone |
| AuditRun.Worker.RunAudit | app/workers/audit.py:505-771 | the run commits its conversations in order; if it stops before the end, the one it stopped at raised, and nothing of it stays |
| AuditRun.Worker.EvaluateConversation | app/workers/evaluator.py:49-86 | an evaluation outside any audit adds a row without a veto column for a known conversation that has none, and touches nothing else |
| AuditRun.CommitKeepsCounted | app/workers/audit.py:539-746 | a committed transaction keeps every reputation in step with the audited evaluations, those whose veto column is set |
| AuditRun.TransactionsCountOnce | app/workers/evaluator.py:49-86 | under any serial interleaving of audits and evaluations outside them, an agent's count is the number of its audited rows, its vetoes the number of those with a veto, its average the re-rounded one of exactly their scores |
| AuditRun.EvaluatedExactly | app/workers/audit.py:539-556 | after any transactions a conversation is evaluated exactly when it was before, or is known and some transaction named it |
| AuditRun.UserIsItsAudits | app/services/reputation.py:142-185 | under any serial interleaving a user's record is that of exactly the audits that stored an evaluation, being the first transaction on their conversation: average and count of their satisfaction, the number of fraudulent ones, risky with two, the label of the latest |
| AuditRun.FraudsAddUp | app/services/reputation.py:178-185 | whatever was recorded before, attempts grow by exactly the fraudulent ones among those audits |
| AuditRun.AgentIsItsAudits | app/services/reputation.py:110-139 | an agent's average, count and vetoes are those of exactly the verdicts of such audits |
| AuditRun.AllCountedIff | app/workers/evaluator.py:49-86 | so the count is the number of all the agent's rows exactly when audits stored all of them |
| AuditRun.AuditsCountOnce | app/workers/audit.py:505-771 | after any sequence of audits, each aborted anywhere, counts, vetoes and averages are those of the audited rows, and of all rows if there were no others before; the same for users' sentiment |
| AuditRun.ReputationOfRuns | app/workers/audit.py:505-771 | so the stored average lies within the scores and within 0.0025 (n + 1) of their mean |
| AuditRun.CommittedAreEvaluated | app/workers/audit.py:505-771 | every conversation a run got past has its evaluation |
| AuditRun.ReauditChangesNothing | app/workers/audit.py:539-556 | auditing evaluated conversations again changes no table |
| RubricScoring.GroupScores | app/services/rubric_scoring.py:70-76 | the dictionary has exactly the categories with a score, each with its scores in order |
| RubricScoring.GrossScore | app/services/rubric_scoring.py:78-90 | the weights are renormalised over the categories present |
| RubricScoring.ComputeScores | app/services/rubric_scoring.py:62-108 | gross, final and firm veto, with and without scores |
| RubricScoring.ScoresAre | app/services/rubric_scoring.py:84-108 | the flags are all of both kinds; the final score is the gross one, or with a firm veto the smaller of it and 20, or 20 where there is none |
| RubricScoring.GrossFormula | app/services/rubric_scoring.py:25-90 | the gross score is the rounded quotient of 0.30 A + 0.10 B + 0.20 C + 0.15 D + 0.15 E + 0.10 F over the same weights, absent categories left out of both |
| RubricScoring.SumOfNormsIs | app/services/rubric_scoring.py:57-59 | the norms of n scores add up to 25 (sum - n): 1 is 0, 3 is 50, 5 is 100 |
| RubricScoring.FirmExactly | app/services/rubric_scoring.py:92-101 | a veto is firm exactly when some flag is deterministic, is one of the two that always are, or meets the confidence threshold |
| RubricScoring.GrossWithin | app/services/rubric_scoring.py:57-90 | the gross score lies between the rounded extremes of the normalised dimensions |
| RubricScoring.GrossIsPercentage | app/services/rubric_scoring.py:57-90 | hence, for scores from 1 to 5, between 0 and 100 |
| RubricScoring.ScoresOfPermutation | app/services/rubric_scoring.py:62-108 | reordering the dimensions changes nothing |
| RubricScoring.GrossMonotone | app/services/rubric_scoring.py:62-90 | the gross score never falls when a dimension rises |
| RubricScoring.FirmMonotone | app/services/rubric_scoring.py:92-101 | more flags or more confidence keep a firm veto firm |
| RubricScoring.FinalAntitone | app/services/rubric_scoring.py:92-108 | more flags or more confidence never raise the final score of a scored rubric |
| RubricScoring.CapIff | app/services/rubric_scoring.py:92-108 | the final score is at most 20 exactly when the veto is firm or the gross score is |
| RubricScoring.VetoNeverRaisesIff | app/services/rubric_scoring.py:92-108 | more flags and more confidence can never raise the final score exactly when the rubric has a score or its flags, the detections and its confidence make a veto firm |
| Cursors.DecodeEncode | app/routers/conversations.py:97-104 | base64url decoding inverts encoding for every byte string (sections 4 and 5 of RFC 4648) |
| Cursors.KnownEncodings | app/routers/conversations.py:97-98 | the test vectors of section 10 of RFC 4648, and the two characters of the URL-safe alphabet (section 5) |
| Cursors.RepadRestores | app/routers/conversations.py:97-104 | the padding stripped (section 3.2 of RFC 4648) is recomputed from the length |
| Cursors.NumberOrder | app/routers/conversations.py:164-166 | comparing ids as numbers is comparing their bytes from the first on |
| Cursors.CursorRoundTrip | app/routers/conversations.py:97-106 | every row id survives its cursor |
| Pagination.PageIsSound | app/routers/conversations.py:146-178 | a page is sorted, below its cursor, complete down to its last row, and has a next cursor exactly when rows are left |
| Pagination.BadCursorRefused | app/routers/conversations.py:101-106 | a cursor is refused exactly when it does not decode into sixteen bytes |
| Pagination.TraversalOfChangingTable | app/routers/conversations.py:146-178 | whatever is inserted or deleted between requests, no row is listed twice, each was there when its page was read, and every row that stays is listed |
| Pagination.FullListing | app/routers/conversations.py:146-178 | over n unchanging rows the cursors list every row once, in descending order, in max(1, ceil(n / limit)) pages |
| Pagination.TraversalEnds | app/routers/conversations.py:146-178 | however the table changes at every request, following the cursors comes to an end, within as many full pages as fit below the first bound |
| Pagination.TraversalExists | app/routers/conversations.py:146-178 | following the cursors comes to an end |
| WhatsApp.DetectDayFirst | app/workers/parsers/whatsapp.py:70-86 | day first, unless some second field is over 12 and no first field is |
| WhatsApp.FileOrder | app/workers/parsers/whatsapp.py:70-86 | some first field over 12 makes the file day first; without one it is exactly when no second field is over 12 |
| WhatsApp.KindExactly | app/workers/parsers/whatsapp.py:128-160 | a line starts a message, is a system one, raises or is text by its two patterns and its date, in which the first field is the day exactly if the file is day first; senders are trimmed |
| WhatsApp.ReadMessages | app/workers/parsers/whatsapp.py:128-166 | the line loop with its skip flag equals the grouping by nearest header; an impossible iOS date raises |
| WhatsApp.Parse | app/workers/parsers/whatsapp.py:123-195 | nothing without messages; otherwise one conversation, the first sender as the agent, sorted by time |
| WhatsApp.InkConserved | app/workers/parsers/whatsapp.py:156-166 | the non-blank characters of a message are those of its header and its lines, in order |
| WhatsApp.ParsedConversation | app/workers/parsers/whatsapp.py:123-195 | one message for each line that starts one, with that line's sender, time and exactly its own text, assistant exactly for the first sender, in stable time order |
| WhatsApp.ContactOfFile | app/workers/parsers/whatsapp.py:172-173 | the contact is the first sender that is not the agent, the agent if there is no other |
| Sorting.StableSortProperties | app/workers/parsers/whatsapp.py:184-188 | the sort orders, keeps the elements, and keeps the order of equal keys |
| Cbu.UniqueCheckDigit | app/services/validators/cbu.py:25-27 | of the ten digits exactly one completes a prefix to a weighted multiple of ten, and it is the one accepted |
| Cbu.BlockOkIff | app/services/validators/cbu.py:25-40 | a block is accepted exactly when its weighted sum, check digit included, is a multiple of ten |
| Cbu.CbuFormula | app/services/validators/cbu.py:18-40 | the two conditions written out, digit by digit |
| Cbu.CbuSubstitutionUndetectedIff | app/services/validators/cbu.py:30-40 | replacing one character of a valid CBU, separators included, leaves it valid exactly when neither the old nor the new one is a digit: every change of a digit is seen |
| Cbu.CbuSwapUndetectedIff | app/services/validators/cbu.py:30-40 | swapping two neighbouring digits of a valid CBU, whatever separators it has, goes unnoticed exactly when they are equal, or differ by 5 inside one block |
| FlowHistory.Flow.CreateFlow | app/routers/flows.py:194-228 | a new flow has its measures and its first version, or is refused |
| FlowHistory.Flow.TakeSnapshot | app/routers/flows.py:82-116 | stores the flow as it is under the next number |
| FlowHistory.Flow.UpdateFlow | app/routers/flows.py:242-286 | changes the given fields, and stores a version when the document is given; a refused request changes nothing |
| FlowHistory.UpdateStores | app/routers/flows.py:242-286 | a given name or version is the one stored, an omitted one stays; a given document and its measures are the flow's and those of version n + 1, with the title and source given or their defaults; without one document and versions stay; and when it is refused |
| FlowHistory.DocumentOfRun | app/routers/flows.py:242-498 | over any run the flow holds the document, size and agent count of the last accepted update with a document or restore, and what it held at the start before the first |
| FlowHistory.Flow.RenameVersion | app/routers/flows.py:431-460 | sets the stripped, cut label of one version, unless it is blank |
| FlowHistory.RenameSets | app/routers/flows.py:431-460 | the label of that version becomes the text asked for without the white space around it, cut at 200, unless that is empty; nothing else changes |
| FlowHistory.Flow.RestoreVersion | app/routers/flows.py:467-498 | copies a version to the flow and stores it anew |
| FlowHistory.Flow.ListVersions | app/routers/flows.py:332-380 | stores a first version if there is none, and lists newest first |
| FlowHistory.ListStores | app/routers/flows.py:332-380 | listing stores the flow as it is as version 1 if there is none, and otherwise changes nothing |
| FlowHistory.SnapshotAppends | app/routers/flows.py:82-116 | on a numbered history the highest number plus one is n + 1 and is free |
| FlowHistory.HistoryIsAppendOnly | app/routers/flows.py:82-498 | over any run of update, rename, restore and list: numbers are exactly 1..n, a stored snapshot never changes but for its label, and document, size and agent count are those of version n |
| FlowHistory.CreatedIsValid | app/routers/flows.py:194-228 | a new flow has the name, version (1.0 if blank), document and measures given, and version 1 with them |
| FlowHistory.CreatedIff | app/routers/flows.py:194-228 | it is refused exactly when name or version are too long |
| FlowHistory.RestoreAppends | app/routers/flows.py:467-498 | restoring version k appends version n + 1 with k's document, size and agent count |
| FlowHistory.RestoreBringsBack | app/routers/flows.py:467-498 | whatever was done since, restoring the version current at some time brings that state back |
| FlowHistory.WhenAVersionIsStored | app/routers/flows.py:242-498 | a version is stored exactly by a new document, a restore, or listing an empty history |
| FlowHistory.ListingIsNewestFirst | app/routers/flows.py:332-380 | the listing goes from n down to 1 and marks version n alone as current |

## Left out

- AnonymizerRoundTrip.RoundTripIff: requires that the recogniser's accepted spans miss what looks like a token. A span inside the brackets of a token that the recogniser itself uses, already in the text, may be replaced too, and then whether the text comes back depends on that replacement.
- AuditRun.TransactionsCountOnce: transactions run one at a time, those of `AuditsCountOnce` too. The evaluation gate is a read before a separate insert, so overlapping audits of one conversation are not covered.
- SoftDeleteRuns.RunLeavesNoOrphansIff: over a fixed set of rows; rows inserted between the calls are not modelled, nor soft-deleted evaluations in the audit loop.
- Quotes.Derivables: the helper lists of surcharges and frequencies are built as values, without their loops and their sorting; the quotes form a set, so neither shows in it.
- FlowHistory.HistoryIsAppendOnly: requests on one flow run one at a time; two at once would collide on the unique version number, and one would be refused. Deleting a flow, and the metadata blob beside its measures, are not modelled.
- FlowHistory.RestoreAppends: the label limit of 200 appears as a condition; `RestoreTitleFits` shows that it holds for every 32-bit number.
- IngestionRuns.ExactlyOnceIngestion: the upload row exists throughout and its content is parsed the same way every time; public ids and message ids are left out.
- Pagination.FullListing: one row for each conversation; a second evaluation of a conversation would repeat it in the outer join. Display fields of a row are left out.
- Matching of the regular expressions, the recogniser and the hash: parameters with a contract.
- Floating point, `statistics.stdev` and Decimal conversion: exact reals, and a deviation whose square is the sample variance.
- Digits are ASCII digits and letter case is ASCII; `isdigit` and `upper` accept more.
- The order in which veto flags are reported, and the confidence text of the judge.
- `update_agent_spc`, user notes and risk messages: reads of stored fields and labels.
- Parsing of dates and time zones, CSV tokenising and file decoding: parsed lines, instants and rows are given.
- Language-model calls, prompts, fraud and adversarial keyword detectors, report texts, dashboards, routing, authentication, row-level security and migrations: inputs, lookups or infrastructure.
