# Denpie: verified core

A Dafny model of the parts of Denpie in which order, failure and truncation matter, and
proofs of what they promise. Each module follows one component:

- `Idempotency`, `IdempotentCall`, `IdempotentRuns`, `IdempotentAnswers`: the idempotency protocol of API v1. Calls race on one
  record per actor and key through claim, execute, complete, poll and replay; processes
  crash and database calls fail anywhere, also after taking effect. The protocol is a step
  relation over a record table and one phase per call; the code of a call and
  its statements, which change the records themselves, are proved to follow it while other
  calls act between its steps.
- `Json`, `JsonTables`, `JsonPrint`, `CardBatch`, `CardBatchCuts`, `CardBatchPrint`, `CardBatchFences`,
  `CardBatchArrays`, `CardBatchKeys`, `CardContents`: the reader of card batches that a language model may have cut off, wrapped in prose or put in a code fence.
- `ProtoParser`, `ProtoGrammar`, `ProtoRoundTrip`, `ProtoAccepts`, `ProtoTables`,
  `ProtoNumbers`: the parser of the public
  schema as a class with a cursor and two tables, the schema language as trees, and the
  round trip in both directions.
- `Contract`, `SchemaContract`, `SchemaGrowth`: the additive-only contract check and its ledger.
- `Markdown`, `CompressCard`, `JoinedLines`: splitting a card into prose and fenced code, compressing the
  prose concurrently, and joining the pieces again.
- `ImageStore`, `ImageDisk`: image files and the rows that name them, as a step relation
  over all interleavings and as methods that run alone.
- `ImageJobs`, `ImageJobRuns`, `EnrichmentWorker`: the leased jobs of automatic image
  enrichment, as a step relation and as the code and the statements of one worker.
- `LabRun`: the resumable image bench.
- `Grounding`: grounding settings, patched through typed and legacy fields.
- `Paging`, `Delegation`, `DailyWindow`, `TitleLines`, `NormalWhitespace`, `NormalProse`: page tokens, API
  key chains, daily windows, prompt titles and white space.
- `Text`, `Ink`, `Decimal`, `Sequences`, `Ordering`, `SortedTexts`, `Options`: shared vocabulary.

`dafny verify dfyconfig.toml` checks the whole project.

## Where the code does less than one would expect

- A run whose result was recorded may run again once its record has expired; a process
  that ends between its claim and the recording locks its key for good, even if the
  operation never ran.
- A fenced batch whose card text contains a code fence loses the cards after that fence
  when the closing fence of the response is cut off.
- In a cut bare array a card whose title is the word that names a batch hides the finished
  cards from the salvage loop, all of them or those up to the next bracket.
- Two declarations that come to the same qualified name, such as a nested `B` in `A` and a
  top-level `A.B`, replace each other in the schema tables without an error; adding the second takes the
  first one's fields out of the contract.
- Recreating a deleted ledger records the current contract without comparing it.
- A replacement of card images that meets a bad image after a good one leaves the good
  one's file in the directory; a commit that takes effect but is reported as failed makes
  the cleanup remove files that rows name.
- An enrichment worker replaces images that were uploaded after it looked; crashes do not
  count as attempts; a worker that outlived its lease can reopen another's job.
- A patch with a legacy strategy and a contradicting verification mode leaves the user's
  verification mode and behavior apart, and is read differently for a topic; an update of
  the settings file never recomputes the legacy strategy.
- Pages of a hundred cards end after the first page, because the repository caps the one
  extra row that would show that there are more.

## Model

| member | source | states |
|---|---|---|
| `Idempotency.StepKeepsInv` | src/api/transport.rs:221-384 | every step of claim, execute, complete, poll, replay, fault and crash keeps the protocol invariant: one owner per key, sound records, sound answers |
| `Idempotency.RunKeepsInv` | src/api/transport.rs:221-384 | so does every interleaving of any number of calls |
| `Idempotency.RunsAtMostOncePerRetention` | src/api/transport.rs:221-339 | in every interleaving a second run for one (actor, key) starts only after the first was recorded and its 24 h retention is over; a run whose recording was lost is the last |
| `Idempotency.ClaimsExactlyWhenSettled` | src/db/repositories/api_idempotency.rs:19-67 | a claim acquires the key if and only if no call holds it and all earlier runs were recorded and have outlived their retention |
| `Idempotency.AnswersAreFaithful` | src/api/transport.rs:243-338 | every answer taken from a run repeats that run's status and outcome for the same actor, key and payload hash, under the asker's own request id; every other answer is a refusal |
| `Idempotency.ReplayRepeatsFirstAnswer` | src/api/transport.rs:716-762 | two calls answered from one run asked the same and got the same status and outcome, unless the run was a one-time secret |
| `Idempotency.SecretsAreNeverStored` | src/api/transport.rs:302-307 | no reachable record holds the body of a successful one-time secret; every other completed record holds its run's outcome |
| `Idempotency.RetryWithinRetentionReplays` | src/db/repositories/api_idempotency.rs:69-102 | while a recorded run is retained, a retry with its hash is answered from it and a retry with another hash is refused without seeing it |
| `Idempotency.LostRunOrphansKey` | src/api/transport.rs:308-332 | a run whose caller ended without recording it leaves its key locked by nobody |
| `Idempotency.LostResultLocksForever` | src/api/transport.rs:268-299 | a locked key stays locked in every continuation: its record never changes and nothing runs for it again |
| `Idempotency.LostResultRefusesRetries` | src/api/transport.rs:275-299 | every retry of a locked key that meets no database fault of its own is answered 409 |
| `IdempotentAnswers.RecordsTellResults` | src/api/transport.rs:302-307 | in every run of the protocol a completed record holds, for 24 h, status 200 and the payload of its run's success, or the status and message of its error, retryable if that is 429 or 500 to 599; the body is missing if and only if the run is a one-time secret that succeeded |
| `IdempotentAnswers.AnswersTellResults` | src/api/transport.rs:668-714 | every answer from a run tells that same status and outcome under the asker's own id, first hand or marked as replayed; a secret is told to its own caller only, to others 409 |
| `IdempotentAnswers.SuccessIsTold` | src/api/transport.rs:675-681 | the caller whose operation succeeded, if told anything of the run, is told 200 and the payload |
| `IdempotentAnswers.RefusalsAreSpelled` | src/api/transport.rs:243-338 | every other answer is one of the protocol's refusals, each with its own status, whether to retry, and headers |
| `IdempotentAnswers.GiveUpTellsAge` | src/api/transport.rs:268-299 | a call that waited in vain is told to retry later up to five minutes after the record was made, and afterwards that the outcome is unknown |
| `IdempotentAnswers.ReadsAreTold` | src/api/transport.rs:246-299 | what each state of the record read leads to: reuse, vanished, waiting from the first poll, or the replay of its run |
| `IdempotentAnswers.PollsAreTen` | src/api/transport.rs:341-384 | in every run of the protocol a call polls at most ten times, and gives up exactly after the tenth |
| `IdempotentCall.World.Sweep` | src/db/repositories/api_idempotency.rs:29-37 | one claim sweeps expired records only, at most a hundred, none that expired after one it leaves behind, and all of them if they are fewer |
| `IdempotentCall.World.ClaimStatement` | src/db/repositories/api_idempotency.rs:26-65 | the statement sweeps, and writes the caller's record if and only if the key is free or its record expired |
| `IdempotentCall.World.Lookup` | src/db/repositories/api_idempotency.rs:69-102 | the record read back: gone, under another hash, in progress or completed |
| `IdempotentCall.World.CompleteStatement` | src/db/repositories/api_idempotency.rs:104-138 | the result is recorded if and only if the record is in progress under the caller's hash; no other record changes |
| `IdempotentCall.World.WaitForIdempotentResult` | src/api/transport.rs:341-384 | under any interference each poll is a step of the protocol: the call ends with the answer, its process ends, or all ten polls found the record in progress |
| `IdempotentCall.World.ExecuteAndComplete` | src/api/transport.rs:302-338 | owning the record, the code is a run of the protocol: unless the process ends before it, its run with the operation's result is in the log; the response is that result at first hand or the report that it could not be recorded |
| `IdempotentCall.World.AnswerFromRecord` | src/api/transport.rs:246-299 | without the record, the code replays, refuses or waits as the protocol says |
| `IdempotentCall.World.RunIdempotentCall` | src/api/transport.rs:221-339 | what the statements of the call do to the records, on every path, with faults and the end of the process anywhere and other calls acting between its steps, is a run of the protocol that ends with the response the call returns |
| `IdempotentRuns.RetryIsReplayed` | src/api/transport.rs:221-339 | a run: a call that goes well and a retry within the retention; the operation has run once and the retry is answered from its record |
| `IdempotentRuns.RetryRunsAgain` | src/db/repositories/api_idempotency.rs:42-52 | a run: the same retry when the retention is over runs the operation a second time for the same request |
| `IdempotentRuns.LostCallLocksKey` | src/db/repositories/api_idempotency.rs:42-52 | a run: a process that ends between its claim and the recording, before or after the operation, leaves a key nobody holds and no later claim gets |
| `CardBatch.SpanIsShortest` | src/llm/cards.rs:399-427 | a scanner returns the shortest span from its opener at which the depth outside strings is zero, the depth being positive all the way, and nothing if and only if there is none |
| `CardBatch.CutScan` | src/llm/cards.rs:399-427 | cutting or extending a text never changes a span found in both |
| `CardBatch.BalancedObjectSpan` | src/llm/cards.rs:399-427 | the byte loop finds what the scanner specification finds |
| `CardBatch.ExtractDelimited` | src/llm/cards.rs:451-532 | the object and the array extractor, one loop with two pairs of delimiters, return the span of the first opener or nothing |
| `CardBatch.SalvageTruncatedCardArray` | src/llm/cards.rs:366-394 | the salvage loop collects the cards of the finished objects after the array opener, in order, and stops at the first unfinished one |
| `CardBatch.ParseCardArray` | src/llm/cards.rs:336-358 | the fallbacks are tried in the order whole text, first object, first array, salvage |
| `CardContents.EveryCardTells` | src/llm/cards.rs:438-447 | whatever the response, every card returned has a content with a character that is not white space |
| `CardContents.CardByPosition` | src/llm/cards.rs:83-92 | an array is a card exactly if it has three to five items, texts or null first; title, content, compressed text and the two flags are read by position |
| `CardContents.CardByName` | src/llm/cards.rs:83-92 | an object is a card exactly if no field name repeats and the three texts are texts or null; each field is the member of its name, wherever it stands |
| `CardContents.CardsAreItems` | src/llm/cards.rs:94-97 | a list is one of cards exactly if each of its values is a card |
| `CardContents.BatchByName` | src/llm/cards.rs:94-97 | an object is a batch exactly if it has its cards once, and then those; an array only if the list is all it has |
| `CardBatchCuts.ScannerAgreesWithReader` | src/llm/cards.rs:399-532 | on a JSON object or array all scanners stop exactly where a JSON reader does, strings and escapes included |
| `CardBatchCuts.SalvageItems` | src/llm/cards.rs:366-394 | over the items of a cut array the salvage loop collects exactly the finished ones |
| `CardBatchCuts.ReadCardsOfCut` | src/llm/cards.rs:336-358 | whichever fallback fires on a cut batch behind any prose, the result is the finished cards with content |
| `CardBatchCuts.CutBatchRecoversFinishedCards` | src/llm/cards.rs:336-447 | for every well-formed batch, every cut position, any blanks and any delimiter-free prose before it, the reader returns exactly the finished cards with content, in order |
| `CardBatchCuts.WholeBatchInProse` | src/llm/cards.rs:336-358 | a complete batch in a raw response, with delimiter-free prose before it and any text after it, yields all cards with content |
| `CardContents.CutBatchSelects` | src/llm/cards.rs:336-447 | a cut batch yields the finished cards at exactly the positions whose content has a character that is not white space, in order |
| `CardContents.WholeBatchSelects` | src/llm/cards.rs:336-447 | so does a whole batch, in prose or in a closed fence, of all its cards |
| `CardBatchCuts.FencedCutRecovers` | src/llm/cards.rs:486-497 | a batch in an opening JSON fence is cut once more at the last fence inside it: exactly the cards finished before that fence survive |
| `CardContents.FencedCutSelects` | src/llm/cards.rs:486-497 | and a cut batch in an opening fence of the cards finished by the last fence inside |
| `CardBatchFences.FenceLosesCardsIff` | src/llm/cards.rs:486-497 | so cards are lost if and only if that fence stands before the end of the last card finished by the cut, and content if and only if a card between has any |
| `CardBatchFences.FenceLosesCard` | src/llm/cards.rs:486-497 | a concrete fenced response whose only card, finished and with content, is lost to the fence in its text |
| `CardBatchCuts.WholeFencedBatch` | src/llm/cards.rs:486-497 | a complete fenced response yields all cards with content, whatever fences their texts contain |
| `CardBatchCuts.SalvageFromGrows` | src/llm/cards.rs:366-394 | on any text, what the loop collects from a cut is a prefix of what it collects from the whole |
| `CardBatchCuts.SalvageGrows` | src/llm/cards.rs:366-394 | once the array opener is settled a longer response never loses a salvaged card |
| `CardBatchPrint.PrintedBatchIsBatchText` | src/llm/cards.rs:83-97 | every printed list of cards is a well-formed batch of those cards |
| `CardBatchPrint.CutPrintedBatch` | src/llm/cards.rs:336-447 | cutting a printed batch after k characters returns the cards with content among the first n, n counting exactly the cards whose text ends by k |
| `CardBatchArrays.CutArraySalvages` | src/llm/cards.rs:336-397 | a bare array of cards, whole or cut anywhere, behind blanks and prose, yields all its cards with content, or what the salvage loop finds in the cut |
| `CardBatchArrays.CutArrayRecoversFinishedCards` | src/llm/cards.rs:336-447 | and that is the finished cards with content if the array is whole or the quoted key of a batch does not stand in what is left of it |
| `CardContents.CutArraySelects` | src/llm/cards.rs:336-447 | spelled out: the finished cards at exactly the positions whose content has a character that is not white space |
| `CardBatchKeys.StrayKeyLosesCards` | src/llm/cards.rs:367-371 | if the key stands in the cut array and no bracket follows it, nothing is returned, which is wrong if and only if a finished card has content |
| `CardBatchKeys.StrayKeyMovesStart` | src/llm/cards.rs:367-371 | if a bracket follows it, the result is what the salvage loop finds from that bracket on |
| `CardBatchKeys.StrayKeyKeepsLaterCards` | src/llm/cards.rs:367-394 | if every brace that stands in that bracket's card after it closes in the card, the result is what the loop salvages from the rest of the card, then the finished cards after it; this is wrong if and only if that rest has another content than the finished cards up to and including this one |
| `CardBatchKeys.StrayKeyLosesUpToCard` | src/llm/cards.rs:367-394 | in particular, if the card opens no object after the bracket, it and all before it are lost, which is wrong if and only if one of them is finished and has content |
| `CardBatchKeys.StrayKeyStopsAtBrace` | src/llm/cards.rs:374-394 | if a brace after the bracket does not close by the cut, all from it on is lost, which is wrong if and only if what was collected before it has another content than the finished cards |
| `CardBatchKeys.StrayKeyJumpsOverCards` | src/llm/cards.rs:374-394 | if it closes only later, the text up to there counts as one object, a card or none, and the result goes on behind it |
| `CardBatchKeys.StrayKeyLosesCard` | src/llm/cards.rs:367-371 | a concrete cut array that loses its only card, finished and with content, to its title |
| `Json.PrefixIsNoDocument` | src/llm/cards.rs:429-436 | no proper prefix of an object or array text is itself accepted |
| `Json.ValueTextIsDocument` | src/llm/cards.rs:379-389 | the text of a value cut out of its surroundings is a document with that value |
| `JsonPrint.PrintedDocumentReadsBack` | src/llm/cards.rs:429-436 | printing and reading a JSON document is the identity |
| `JsonTables.DocumentIsAll` | src/llm/cards.rs:429-436 | a printed value between white space is a document, and with anything else behind it none |
| `JsonTables.EscapesAre` | src/llm/cards.rs:429-436 | the two-character escapes are those of RFC 8259, section 7, and no others |
| `JsonTables.UnitsAre` | src/llm/cards.rs:429-436 | an escaped code unit is its character unless it is a surrogate; a low surrogate alone, and a high one without another escape after it, are refused |
| `JsonTables.PairsAre` | src/llm/cards.rs:429-436 | an escaped high surrogate is read only with an escaped low one after it, as the one character the two encode |
| `JsonTables.NumbersAre` | src/llm/cards.rs:429-436 | a text is a number exactly if it is one by the grammar of RFC 8259, section 6: minus, integer part without leading zeros, fraction, exponent |
| `JsonTables.NumberIsDocument` | src/llm/cards.rs:429-436 | and every such text is a document that stands for itself |
| `ProtoParser.Parser.constructor` | scripts/check-api-contract.py:26-32 | a parser starts before the first token with empty tables |
| `ProtoParser.Parser.TakeToken` | scripts/check-api-contract.py:34-44 | takes the token at the cursor, or reports the end |
| `ProtoParser.Parser.TakeThis` | scripts/check-api-contract.py:37-44 | takes an expected token, or reports what was found instead |
| `ProtoParser.Parser.SkipToSemicolon` | scripts/check-api-contract.py:46-48 | skips to the position after the next semicolon |
| `ProtoParser.Parser.SkipBracketed` | scripts/check-api-contract.py:150-157 | skips bracketed options to the bracket that brings the depth back to zero |
| `ProtoParser.Parser.TypeName` | scripts/check-api-contract.py:129-137 | reads a plain or map type |
| `ProtoParser.Parser.FieldLine` | scripts/check-api-contract.py:139-164 | reads one field; a cardinality inside a oneof is an error |
| `ProtoParser.Parser.ReservedLine` | scripts/check-api-contract.py:166-171 | joins the tokens of a reservation |
| `ProtoParser.Parser.OneofBlock` | scripts/check-api-contract.py:115-127 | adds a oneof's fields to those of its message; a taken name is an error |
| `ProtoParser.Parser.EnumBlock` | scripts/check-api-contract.py:173-203 | reads an enum into the table under its qualified name |
| `ProtoParser.Parser.MessageBlock` | scripts/check-api-contract.py:83-113 | reads a message and all nested declarations into the tables |
| `ProtoParser.Parser.ParseSchema` | scripts/check-api-contract.py:50-78 | the whole parser computes what the grammar says, or the same error |
| `ProtoRoundTrip.ReadsField` | scripts/check-api-contract.py:139-164 | a written field reads back with its number, type, cardinality and oneof |
| `ProtoRoundTrip.ReadsBody` | scripts/check-api-contract.py:83-113 | a written message body reads back as its fields, reservations and nested definitions |
| `ProtoAccepts.ParseReadsWritten` | scripts/check-api-contract.py:50-203 | for every well-formed schema, parsing its tokens consumes them all and yields exactly its flattened, qualified tables |
| `ProtoAccepts.ParseAcceptsOnlyWritten` | scripts/check-api-contract.py:50-203 | whatever token stream the parser accepts is the writing of a well-formed schema, and the answer is its meaning |
| `ProtoGrammar.FreshIsDistinct` | scripts/check-api-contract.py:104-107 | the duplicate check accepts exactly the messages whose fields have distinct names |
| `ProtoGrammar.EnteredIsEntries` | scripts/check-api-contract.py:107-113 | a message's table entry holds exactly its own fields and those of its oneofs |
| `ProtoTables.TablesHoldLast` | scripts/check-api-contract.py:110-113 | of several messages, or several enums, with one qualified name the last one is in the table |
| `ProtoTables.ParserKeepsAllIff` | scripts/check-api-contract.py:83-113 | every message and enum of an accepted schema is in its table if and only if no two different ones of a kind share a qualified name; nothing else is |
| `ProtoTables.EnumHoldsAllIff` | scripts/check-api-contract.py:173-203 | every value of an enum is in its entry if and only if no two different numbers share a name |
| `ProtoNumbers.ParsedPlainNumber` | scripts/check-api-contract.py:139-164 | whatever number, positive or negative, a plain field is written with, the parsed table has it under that number, type and cardinality |
| `ProtoNumbers.ParsedOneofNumber` | scripts/check-api-contract.py:115-127 | so for a field of a oneof, with the oneof's name |
| `ProtoNumbers.ParsedEnumNumber` | scripts/check-api-contract.py:173-203 | and so for an enum's value |
| `ProtoNumbers.RenumberedBreaksContract` | scripts/check-api-contract.py:139-164 | two accepted schemas that differ in the number of one field, at any depth, and give no qualified name twice have contracts of which neither is additive over the other |
| `ProtoNumbers.ReservationsDiffer` | scripts/check-api-contract.py:166-171 | two reservations of tokens without spaces become the same text only if their tokens are the same in the same order |
| `ProtoNumbers.MapTypesDiffer` | scripts/check-api-contract.py:129-137 | two map types become the same text only if key and value types are the same |
| `ProtoNumbers.QualifiedDiffer` | scripts/check-api-contract.py:80-81 | names without dots get the same qualified name only under the same parent |
| `ProtoNumbers.LiteralsAre` | scripts/check-api-contract.py:50-78 | the literal after the syntax keyword is the text it spells as JSON, and refused if it is no JSON |
| `ProtoNumbers.InsideIs` | scripts/check-api-contract.py:150-157 | skipped options end at the first bracket after which as many close as open |
| `Decimal.PrintedIntReadsBack` | scripts/check-api-contract.py:151-151 | every printed number, with or without a minus sign, is read as itself |
| `ProtoTables.ClashLosesMessage` | scripts/check-api-contract.py:20-113 | a concrete accepted schema: a message nested in another is lost to a later one whose dotted name is its qualified name |
| `Contract.ItemErrors` | scripts/check-api-contract.py:252-265 | the problems of one message or enum: removed or changed members and removed reservations, each once and nothing else |
| `Contract.CategoryErrors` | scripts/check-api-contract.py:245-265 | the same over all messages or enums, removed ones included |
| `Contract.OperationErrors` | scripts/check-api-contract.py:267-277 | every removed or changed operation once, and nothing else |
| `Contract.CompatibilityErrors` | scripts/check-api-contract.py:234-278 | lists every problem between two contracts exactly once and nothing else |
| `Contract.NoProblemsIffAdditive` | scripts/check-api-contract.py:234-278 | there is no problem if and only if the old contract is part of the new one |
| `Contract.AdditiveTransitive` | scripts/check-api-contract.py:234-278 | the relation is transitive |
| `Contract.RunTool` | scripts/check-api-contract.py:311-366 | the tool's verdict and the ledger it leaves, for every combination of ledger, history and update flag |
| `Contract.HistoryIsAdditive` | scripts/check-api-contract.py:331-347 | over a chain of checked revisions every later contract keeps everything any earlier one promised |
| `Contract.UpdateThenCheckPasses` | scripts/check-api-contract.py:349-366 | a recorded update keeps the history and leaves a ledger that passes the next check |
| `Contract.LedgerWrites` | scripts/check-api-contract.py:311-354 | the ledger is written exactly when an update is asked for and nothing is broken, or there was no ledger |
| `Contract.RecreatedLedgerForgetsHistory` | scripts/check-api-contract.py:322-328 | recreating a deleted ledger compares nothing: a concrete removed message is recorded, and the next check reports it |
| `Contract.RecreatedLedgerChecks` | scripts/check-api-contract.py:322-343 | a recreated ledger passes the next check if and only if the contract is additive over history |
| `Contract.OperationContract` | scripts/check-api-contract.py:206-225 | accepted if and only if the operation names are unique and the result fields cover them exactly; then one policy per operation |
| `SchemaContract.AdditiveIffLastExtend` | scripts/check-api-contract.py:228-278 | for any two accepted schemas, the second's contract promises all that the first's does if and only if the last definition of each kind and name in the first is extended by the last one of that name in the second |
| `SchemaContract.AddedDeclarationsAreAdditive` | scripts/check-api-contract.py:228-278 | parsing a schema and the same schema with further declarations of new names gives contracts of which the second extends the first |
| `SchemaGrowth.GrownSchemaIsAdditive` | scripts/check-api-contract.py:228-278 | so does adding declarations anywhere, fields, oneof fields, enum values, reservations and nested types at any depth included, as long as no two different definitions share a qualified name and no enum names two numbers alike |
| `SchemaGrowth.ClashBreaksContract` | scripts/check-api-contract.py:228-278 | a concrete schema that only grows and yet fails the check: the added message has the qualified name of a nested one |
| `Markdown.SplitMarkdownSegments` | src/llm/markdown.rs:7-49 | the line loop computes the segments of the specification |
| `Markdown.SplitKeepsEveryLine` | src/llm/markdown.rs:7-49 | the lines of the segments, put together, are exactly the lines of the input, unclosed fences included |
| `Ink.SpacesAre` | src/llm/markdown.rs:7-49 | white space is that of the Unicode property White_Space |
| `Markdown.LinesRead` | src/llm/markdown.rs:7-49 | lines end at each newline, with the carriage return before it, and an empty one at the end is none |
| `Markdown.FenceIs` | src/llm/markdown.rs:7-49 | a line is a fence exactly if it has three backticks behind nothing but blanks |
| `Markdown.JoinMarkdownSegments` | src/llm/markdown.rs:51-65 | the join loop computes the specified text |
| `Markdown.BlocksAreBlocks` | src/llm/markdown.rs:22-45 | every code block starts and ends with a fence and has none inside |
| `Markdown.CodeSegmentsAreBlocks` | src/llm/markdown.rs:22-45 | the code segments are exactly the closed blocks, in order |
| `Markdown.JoinKeepsBlocks` | src/llm/markdown.rs:51-65 | joining segments whose prose opens no block gives a text with exactly their code blocks, up to outer blanks; a carriage return at a line's end is lost |
| `JoinedLines.JoinKeepsLines` | src/llm/markdown.rs:51-65 | the non-blank lines of the joined text are those of all segments, code and prose, in order, the outer trim only taking blanks off the first and the last |
| `Markdown.TrimAlike` | src/llm/markdown.rs:64-64 | the outer trim changes at most the first opening and the last closing line, and those only in blanks |
| `CompressCard.CompressCard` | src/llm/cards.rs:579-667 | the result is the trimmed card, an error if a task failed, or the join of code and replies in the order of the segments |
| `CompressCard.ArrivalOrderIrrelevant` | src/llm/cards.rs:656-657 | sorting by index restores the order of the segments from any order of arrival |
| `CompressCard.CompressionKeepsBlocks` | src/llm/cards.rs:603-667 | a compressed card holds exactly the code blocks of the original, whatever the replies say as long as they open no block |
| `JoinedLines.CompressedKeepsLines` | src/llm/cards.rs:579-664 | the non-blank lines of a compressed card are those of its code and of the replies in place of its prose, in order |
| `JoinedLines.KeptWholeIff` | src/llm/cards.rs:669-678 | a card is kept uncompressed exactly if, between outer blanks, it has at most 420 characters or at most seventy words |
| `CompressCard.KeptProseIsQuiet` | src/llm/cards.rs:542-551 | prose that is returned as it was, only trimmed, opens no block |
| `CompressCard.TrimmingKeepsBlocks` | src/llm/cards.rs:593-601 | a card that is kept whole keeps its blocks |
| `CompressCard.StrippedIsSame` | src/llm/markdown.rs:21-21 | carriage returns are lost if and only if a line of code ends in one |
| `ImageStore.StepKeepsInv` | src/image_store.rs:28-111 | every step of every upload, append, deletion and cleanup keeps every row backed by its file, short of a commit that takes effect and is reported as failed |
| `ImageStore.EveryRowHasItsFile` | src/image_store.rs:28-111 | in every reachable state, crashes and failures anywhere but for such commits, each row names an existing file of its size that no other row names, rows are numbered from zero and no card has more than four |
| `ImageStore.FalseAlarmLosesFiles` | src/image_store.rs:62-69 | a commit that takes effect but is reported as failed breaks this: the cleanup removes a file a row names |
| `ImageStore.FalseAlarmRun` | src/image_store.rs:28-69 | a run from the start that ends with a row without its file |
| `ImageStore.CommitStoresImages` | src/db/repositories/tipcards/images.rs:76-190 | a committed replacement stores exactly its images in order, an append adds them after the others, a deletion leaves none |
| `ImageStore.CommitsAre` | src/db/repositories/tipcards/images.rs:76-190 | what a commit leaves in the tables: a replacement its own rows, an append its rows behind the old ones up to four, a deletion none of the cards if all are there; else the tables stay |
| `ImageStore.WritesAre` | src/image_store.rs:28-50 | a replacement stops at its bad image, the others look at all images first |
| `ImageStore.OthersImagesStay` | src/image_store.rs:28-111 | no step, not even a failing one, changes the images of an owner it does not concern |
| `ImageStore.QuietDiskMatchesTables` | src/image_store.rs:373-412 | after any run without crash, failed removal, partial write or late rejected image, once all calls are done the directory holds exactly the files the tables name |
| `ImageStore.RejectAbandons` | src/image_store.rs:41-50 | a replacement whose later image is bad abandons every file it had written |
| `ImageStore.RejectRun` | src/image_store.rs:41-50 | a run from the start that ends with an abandoned file |
| `ImageStore.AbandonedForever` | src/image_store.rs:440-462 | no later step of any call removes an abandoned file, in any run, false alarms included |
| `ImageDisk.Disk.AppendCardImages` | src/image_store.rs:373-412 | an append stores all its images or none; failing, it leaves tables and files as they were but for the part of a file a failed write left |
| `ImageDisk.Disk.ReplaceCardImages` | src/image_store.rs:28-74 | a replacement swaps rows and files or leaves the tables as they were; what a failure leaves in the directory, case by case |
| `ImageDisk.PlainNamesAreSafe` | src/image_store.rs:448-465 | a stored name without slashes is accepted unless it is empty, a dot or two dots |
| `ImageDisk.NamesWithSlashes` | src/image_store.rs:448-465 | a name with slashes is accepted exactly if an ordinary name stands before the first and only slashes and single dots follow: no root, no second name, no parent |
| `ImageDisk.Disk.RemoveStoredFiles` | src/image_store.rs:448-465 | removes exactly the named files whose path is a single plain component |
| `ImageDisk.FailedReplaceIsClean` | src/image_store.rs:41-69 | a failed replacement, a failed commit included, leaves the directory as it was if and only if no written image precedes a bad one and no write left a part |
| `ImageJobs.AtMostOneAutomaticImage` | src/services/image_enrichment.rs:21-70 | however workers, crashes and expired leases interleave, a card never has two automatic images |
| `ImageJobs.EnqueueIs` | src/db/repositories/image_jobs.rs:25-71 | enqueuing a card leaves a job whose lease still runs and all other jobs; any other job of the card waits again from now, without attempts and as old as it was |
| `ImageJobs.RequeueIs` | src/db/repositories/image_jobs.rs:166-189 | running failed jobs again resets exactly the failed ones and those completed without an image |
| `ImageJobs.NoTwoAutomatic` | src/services/image_enrichment.rs:21-70 | in every run from the start two automatic images of a card are one and the same, and its first image |
| `ImageJobs.NoSecondStore` | src/services/image_enrichment.rs:53-63 | once a card has an image, no worker that had not yet looked stores another, so a job claimed again after a crash between storing and marking does not store again |
| `ImageJobRuns.SecondClaimCompletes` | src/services/image_enrichment.rs:26-63 | a worker that finds an image completes the job as attached and changes no image, whatever others do between its look and its mark |
| `ImageJobRuns.CrashAfterStore` | src/services/image_enrichment.rs:21-63 | a run: a worker crashes after its store, the job is claimed again, and ends completed with the one image |
| `ImageJobRuns.FalseStoreIsTriedAgain` | src/services/image_enrichment.rs:36-63 | a run: a store takes effect and reports an error, the job is tried again, and ends completed with the one image |
| `ImageJobRuns.UploadSurvivesIff` | src/image_store.rs:78-111 | in every run in which the user leaves it alone, an uploaded file stays on its card if and only if none of the workers that were past the look at the card's images when it came stores |
| `ImageJobRuns.LateUploadIsLost` | src/image_store.rs:78-111 | a run: an upload between a worker's look and its store is replaced |
| `ImageJobs.ThreeAttempts` | src/services/image_enrichment.rs:36-49 | as long as no lease runs out on its holder, a job has at most one live worker and at most three attempts, is failed after exactly three, and only a third attempt gives up |
| `ImageJobs.CrashesAreNotCounted` | src/db/repositories/image_jobs.rs:73-96 | a job whose workers keep crashing is claimed any number of times and never fails |
| `ImageJobRuns.StaleFailureReopensIff` | src/db/repositories/image_jobs.rs:132-161 | in every run a failure marked under another number than the job's, short of the last attempt, makes a job claimable that another worker holds; if the job was never enqueued or asked for anew, only such a mark does |
| `ImageJobRuns.StaleFailureRun` | src/db/repositories/image_jobs.rs:73-161 | a run: a worker outlives its lease, a second one claims the job, the first fails, and a third one claims the job that the second still holds |
| `ImageJobRuns.NumbersRepeatAfterRestart` | src/db/repositories/image_jobs.rs:29-71 | a run: a job enqueued anew starts its numbers over, so a late failure bears the number of the new holder's claim |
| `EnrichmentWorker.World.ClaimNext` | src/db/repositories/image_jobs.rs:73-96 | the statement takes the due job that is available longest, of those the oldest, of those the lowest card, among those no other claim has locked, and nothing if and only if there is none |
| `EnrichmentWorker.SoonestIs` | src/db/repositories/image_jobs.rs:73-96 | the job claimed is due before all others, or was enqueued before those due with it, or has the lower card |
| `EnrichmentWorker.World.MarkRetryOrFailed` | src/db/repositories/image_jobs.rs:132-161 | the mark changes a job in work, whoever holds it, to failed from the third attempt on and to waiting before |
| `EnrichmentWorker.World.ProcessOne` | src/services/image_enrichment.rs:21-51 | what the statements of one pass do to jobs and images, on every path, with errors that come with or without an effect, the end of the process anywhere and others acting between its steps, is a run of the job protocol that ends with the report it returns; giving up means three attempts or more |
| `EnrichmentWorker.World.EnrichClaimedCard` | src/services/image_enrichment.rs:53-153 | looking, searching and storing follow the protocol and tell whether an image is attached, unless the process ends |
| `LabRun.UniqueStrategies` | src/lab/mod.rs:426-431 | strategies without repetitions, in the order they came |
| `LabRun.OneJobEach` | src/lab/images.rs:139-163 | there is exactly one job per case, strategy and sample |
| `LabRun.PlanJobs` | src/lab/images.rs:132-167 | the planning loops keep exactly the rows that are not to be retried, in job order, and find the rows outside the job set |
| `LabRun.RunImages` | src/lab/images.rs:132-190 | a run is refused if and only if a loaded row belongs to no job; otherwise each arrival writes the scorecard of the kept and arrived rows |
| `LabRun.CheckpointIsOrderedSublist` | src/lab/images.rs:184-188 | every checkpoint is a sublist of the jobs in job order and holds the arrived rows and every kept row, unchanged |
| `LabRun.CompleteRun` | src/lab/images.rs:190-190 | when all spawned jobs have arrived there is exactly one row per job, in job order |
| `LabRun.ArrivalOrderIrrelevant` | src/lab/images.rs:522-526 | the scorecard does not depend on the order of completion |
| `LabRun.ResumeFindsCheckpoint` | src/lab/images.rs:132-163 | resuming from a checkpoint keeps exactly its rows |
| `LabRun.ResumeContinues` | src/lab/images.rs:132-190 | a run interrupted anywhere and resumed ends with the scorecard of the uninterrupted run |
| `LabRun.RetrySelects` | src/lab/images.rs:212-218 | with a retry policy, exactly the rows it selects are run again |
| `LabRun.PoliciesAre` | src/lab/images.rs:212-218 | which rows each retry policy selects |
| `Ordering.SortedIsUnique` | src/lab/images.rs:522-526 | entries of different positions have one sorted order |
| `Grounding.ApplyPatch` | src/config/store.rs:412-524 | the sequence of assignments gives each field by a fixed precedence of the patch's fields |
| `Grounding.PatchesKeepConsistent` | src/config/store.rs:412-524 | after any patches the legacy strategy is that of the typed policy, and the model as source forces the standard modes |
| `Grounding.PatchesFromDefaults` | src/config/store.rs:412-524 | so it is from the default settings on, and verification matches the behavior unless a patch was torn |
| `Grounding.PatchesApply` | src/config/store.rs:412-524 | patches apply one after the other, and a series is free of torn ones exactly if each is not torn where it applies |
| `Grounding.PatchRepairs` | src/config/store.rs:514-524 | a patch that touches the grounding makes any settings consistent |
| `Grounding.MatchedUnlessTorn` | src/config/store.rs:489-510 | verification and behavior stay matched under a patch if and only if it does not set a legacy strategy and a different verification mode without a behavior |
| `Grounding.TornPatchExists` | src/config/store.rs:489-510 | a concrete such patch leaves fact checking next to a standard verification mode |
| `Grounding.PatchIdempotent` | src/config/store.rs:412-524 | every patch applied twice does what it does once |
| `Grounding.LegacyRoundTrip` | src/domain/grounding.rs:152-184 | a legacy strategy survives the way through the typed policy |
| `Grounding.SourcesRead` | src/domain/grounding.rs:6-42 | each source and verification mode is named by one word between blanks, and every other text names the default |
| `Grounding.NamesRead` | src/domain/grounding.rs:44-48 | so for the behaviors and the legacy strategies |
| `Grounding.LegacyTable` | src/domain/grounding.rs:142-157 | the source and the behavior of each legacy strategy |
| `Grounding.StrategyTable` | src/domain/grounding.rs:159-179 | the legacy strategy of each policy, and the verification mode of each behavior |
| `Grounding.SavedSettingsLoad` | src/config/store.rs:600-634 | saved settings load as they were if and only if they are matched and the model has the standard behavior |
| `Grounding.LegacyFileLoads` | src/config/store.rs:600-634 | a file with only the legacy strategy loads consistently; only the agentic behavior is lost |
| `Grounding.UpdateFile` | src/config/store.rs:128-278 | the settings file after an update, field by field, other keys untouched |
| `Grounding.FileAgreesOnLegacyPatches` | src/config/store.rs:128-278 | without typed fields, updating the file and patching the loaded settings come to the same |
| `Grounding.FileConsistentIff` | src/config/store.rs:128-278 | an update of any file leaves consistent settings if and only if, for a typed patch, the strategy the patch or else the file spells is that of the source and behavior they spell, and otherwise the patch sets a strategy or the file was consistent; it always leaves matched ones |
| `Grounding.FileConsistentWithStrategyIff` | src/config/store.rs:128-278 | with a legacy strategy in the patch: if and only if the typed fields beside it do not contradict it, whatever the file |
| `Grounding.FileConsistentWithoutStrategyIff` | src/config/store.rs:128-278 | without one, on a consistent file: if and only if the patch is not typed or the file's strategy is that of the new source and behavior |
| `Grounding.FileAgreesButStrategy` | src/config/store.rs:128-278 | for any file, missing keys included, and any patch: but for the strategy, file and patch agree if and only if the source becomes the model, or no behavior in the file outlives a verification mode, none comes back with a new source, and the patch is not torn |
| `Grounding.FileAndPatchDiffer` | src/config/store.rs:128-278 | a concrete file and patch for either way to differ |
| `Grounding.FileForgetsStrategy` | src/config/store.rs:128-278 | a concrete update: the web as source leaves the factual strategy in the file, where the patch makes it agentic |
| `Grounding.UpdateTopic` | src/services/topics.rs:80-191 | the topic's three-valued version of the patch |
| `Grounding.TopicPatchKeepsSound` | src/services/topics.rs:80-191 | a topic names a strategy exactly when it has a whole policy, and its verification always matches its behavior, under every patch |
| `Grounding.TopicPatchIdempotent` | src/services/topics.rs:80-191 | every topic patch is idempotent |
| `Grounding.ServicesAgree` | src/services/topics.rs:111-160 | on any settings, the user's and the topic's services treat a patch alike if and only if it clears no field of the topic by a blank text and does not pit a legacy strategy against a verification mode |
| `Grounding.NormalProfileTwice` | src/domain/grounding.rs:122-134 | a normalised search profile lists its cleaned domains once each, sorted, and is a fixed point |
| `SortedTexts.LessAtDifference` | src/domain/grounding.rs:130-130 | the order of the sorted texts is decided by the first character in which two differ, a proper beginning coming first |
| `Paging.TokenRoundTrip` | src/api/resources.rs:558-579 | the token parser inverts the printer if and only if the id is positive and fits and the timestamp is non-empty and has no bar |
| `Paging.DeckIsOrdered` | src/db/repositories/tipcards/flow.rs:95-110 | the decks are exactly the lists with the pinned cards first, then the newest, then the highest id |
| `Paging.PageAt` | src/api/resources.rs:226-252 | the page behind any card shows exactly the next cards and a token to the one after |
| `Paging.FollowTokens` | src/api/resources.rs:226-252 | following the tokens visits every card once, in order, in the fewest pages, unless pages of a hundred are asked of more than a hundred cards: then it ends after the first |
| `Paging.PagesAreFewest` | src/api/resources.rs:231-252 | the number of pages is the ceiling, and one for an empty deck |
| `Paging.HundredStopsEarly` | src/db/repositories/tipcards/flow.rs:35-35 | the repository's limit of a hundred rows hides that there are more, so a page of a hundred never has a successor |
| `Delegation.NormalizeScopes` | src/services/api_keys.rs:168-188 | the loop computes the normalised scopes or the first error |
| `Delegation.NormalizeStops` | src/services/api_keys.rs:168-188 | a star results exactly if one stands before any unsupported scope; otherwise the first unsupported one is refused, or the result has exactly the scopes of the list |
| `Delegation.ScopesRead` | src/services/api_keys.rs:168-188 | a scope is compared without the blanks around it and with its letters small |
| `Delegation.DelegatedIff` | src/services/api_keys.rs:57-102 | a key is accepted exactly if its scopes normalise, its creator has each of them or a star, and it ends no later |
| `Delegation.NormalizedIsNormal` | src/services/api_keys.rs:168-188 | normalised scopes are everything, or non-empty, sorted, known and without repetitions |
| `Delegation.NormalizeTwice` | src/services/api_keys.rs:168-188 | normalised scopes are a fixed point |
| `Delegation.ValidateDelegation` | src/services/api_keys.rs:76-102 | the first scope the parent lacks, or an end later than its own, refuses the request |
| `Delegation.SecondNormalizeIsIdle` | src/services/api_keys.rs:148-157 | the second normalisation before storing changes and refuses nothing |
| `Delegation.BuiltIsGrown` | src/api/auth.rs:73-110 | after any series of creations every key is bounded by its creator |
| `Delegation.BuiltAre` | src/api/auth.rs:73-110 | each accepted request adds one key, of its creator, with the rights normalised from it; a refused one adds none |
| `Delegation.CreationsAre` | src/api/auth.rs:73-110 | an unrestricted key takes a creator with a star and no end; an end that has passed is refused; any other request adds the key its creator may delegate |
| `Delegation.AncestorsBound` | src/services/api_keys.rs:57-102 | over any chain of creations a key's scopes and end stay within those of every ancestor |
| `Delegation.UnrestrictedAncestry` | src/services/api_keys.rs:72-74 | an unrestricted key has only unrestricted ancestors |
| `DailyWindow.OffsetIsBounded` | src/domain/scheduling.rs:16-38 | a parsed offset is a whole number of minutes of at most 14:59 hours |
| `Decimal.SignedReadsBack` | src/domain/scheduling.rs:29-34 | a printed number behind a sign is read with that sign as long as 64 bits hold it |
| `DailyWindow.OffsetsRead` | src/domain/scheduling.rs:16-38 | a zone name with a sign, hours and maybe minutes is that far ahead of UTC behind a plus and behind it after a minus; more than 14 hours or 59 minutes are refused |
| `DailyWindow.DailyWindowStart` | src/domain/scheduling.rs:40-53 | the window starts at the update time, at or before now and less than a day ago |
| `DailyWindow.WindowStartIsUnique` | src/domain/scheduling.rs:40-53 | there is only one such instant |
| `DailyWindow.WindowIsMonotone` | src/domain/scheduling.rs:40-53 | a later instant lies in the same window or in a later one |
| `TitleLines.LabeledTitleLines` | src/context.rs:88-140 | the two loops list the titles of the specification, each with its label |
| `TitleLines.TitlesAre` | src/context.rs:88-140 | no title is listed twice; listed are exactly the labelled and dismissed ones and those of the first 24 unlabelled entries |
| `TitleLines.LinesSay` | src/context.rs:88-140 | which label a title gets: skip for the uninterested and the dismissed, else hard, else known, else none |
| `TitleLines.SameLineIff` | src/context.rs:88-140 | two titles give one line if and only if one is labelled and the other, which is not, is spelled like the labelled one's line |
| `TitleLines.LinesDistinctIff` | src/context.rs:88-140 | the lines of the prompt are all different if and only if no listed title without a label is spelled like the line of a listed one with a label |
| `TitleLines.LinesMayRepeat` | src/context.rs:110-113 | two different titles may indeed give the same line |
| `NormalWhitespace.NormalizeWhitespace` | src/services/documents.rs:1098-1126 | the line loop computes the normalised text |
| `NormalWhitespace.NormalizeTwice` | src/services/documents.rs:1098-1126 | normalising text without carriage returns a second time changes nothing |
| `NormalWhitespace.NormalizedKeepsCode` | src/services/documents.rs:1102-1116 | every closed code block is kept, in order, its inner lines as they were |
| `NormalProse.NormalizedKeepsInk` | src/services/documents.rs:1098-1126 | for every text, the characters that are not white space stay, all of them and in order |
| `NormalProse.NormalizedFollows` | src/services/documents.rs:1102-1124 | for every text, each prose line with a word stays as its words with single spaces between them, those without are dropped, lines of code stay as they are and fences are trimmed |

## Left out

- HTTP routing, sessions, rate limiting, protobuf encoding and the request hash: taken as given; a request's hash stands for its payload.
- `resolve_idempotency_key` and `execute_v1_request`: validation in front of the protocol, a few branches each.
- PostgreSQL itself: a statement or transaction is one step that takes effect or not; a commit may take effect although its error is reported.
- Numbers beyond a 64-bit float, such as 1e999, and lone surrogate escapes: the JSON library refuses the first anywhere but in a skipped field, and passes the second there; here numbers of any size are values, and lone surrogates are refused everywhere.
- The nesting limit of the JSON library, and texts that are not valid UTF-8: texts are sequences of characters, and byte positions are character positions.
- CardBatchCuts.CutBatchRecoversFinishedCards: batches are objects with the one member `cards`, spelled without escapes, as the prompt demands; prose in front of them holds no brace, bracket or quote.
- CardBatch.ExtractDelimited: the source has this loop twice, once per pair of delimiters.
- The tokenizer of the schema parser and its comment stripping, which also strips inside string literals: parsing starts from tokens.
- ProtoParser.Parser.ParseSchema: the literal after `syntax` is read as RFC 8259 JSON plus NaN and Infinity; lone surrogate escapes, which Python accepts, are errors here.
- Decimal.PrintedIntReadsBack: numbers are ASCII digits behind an optional minus; Python's underscores, plus signs, blanks and other scripts' digits, of which the tokenizer passes only the last, are errors here.
- ProtoParser.Parser.MessageBlock: the body of its loop is a method of its own, MessageLine.
- Contract.CompatibilityErrors: the order of the listed problems, and other JSON types in a hand-edited ledger, are not modelled.
- CompressCard.CompressCard: token usage and the model calls; a reply is any text, or none for a failed task.
- ImageStore.EveryRowHasItsFile: random file names and new row ids are taken never to repeat.
- ImageDisk.Disk.ReplaceCardImages: alone, a removal always succeeds; failing removals, crashes and other calls are in ImageStore.
- The image codecs and the downloads: an image is its prepared bytes, or none.
- EnrichmentWorker.World.EnrichClaimedCard: the two queries of the look are one step; a card deleted between them is a failure of the search.
- LabRun.RunImages: when nothing is left to run the file is not rewritten and stays in its old order; the retrieval itself, the semaphores and the printed lines are not modelled.
- Grounding.ApplyPatch: the fields of the settings that have nothing to do with grounding.
- Paging.FollowTokens: the deck does not change while it is read, and timestamps are texts read by any function.
- Delegation.AncestorsBound: deleting a key, which leaves the keys it created alone.
- DailyWindow.DailyWindowStart: the named time zones, the text of the update time and the first day of the calendar.
- NormalWhitespace.NormalizeTwice: texts with carriage returns, of which each pass strips one per line of code.
- `strip_html`, `strip_inline_tags` and link extraction: termination and bounds only, and entity decoding.
- The review state machine and the retry loop of the model client: their repositories and formulas would only add easy members.
