# Verified model of the NLP-to-SQL service

A Dafny model of the service that turns questions into bounded, read-only SQL, with
proofs of what it promises: what safety review accepts and what the row cap does to a
query's meaning; what concurrent schema loads, concurrent generations and arbitrary
driver failures can and cannot do; and how a schema snapshot is assembled, narrowed,
serialized and a result laid out.

`dafny verify dfyconfig.toml` checks the whole project.

## Layout

| file | what it models |
|---|---|
| `Sequences.dfy`, `Distinct.dfy`, `Text.dfy` | filters, windows, first-of-a-kind, string operations |
| `JsonTree.dfy` | the parser's syntax tree as plain JSON objects, and the depth-first walk |
| `SqlReview.dfy` | the tree checks, the table rules, collapsing repeated findings |
| `RowCap.dfy` | reading and rewriting the limit node, wrapping a set operation |
| `SqlValidator.dfy` | `validate` as a whole, and reviewing its own output again |
| `Queries.dfy` | a denotation of selects as row sequences, with WITH scopes and LIMIT/OFFSET |
| `BoundedQueries.dfy`, `RowBounds.dfy` | the meaning of the row cap, and which queries fit under it |
| `EncodedTrees.dfy` | where the objects of a query's tree come from |
| `ReviewedQueries.dfy` | the review's table list against scope-correct name resolution |
| `AcceptedQueries.dfy` | which queries are accepted, and which are not accepted a second time |
| `SchemaTypes.dfy`, `SchemaCache.dfy`, `SingleFlight.dfy` | the TTL cache and single-flight loading in front of it |
| `ConversationStore.dfy`, `ConversationBounds.dfy` | the conversation store and its bounds |
| `Prompt.dfy`, `Generation.dfy` | the prompt, and interleaved `generate` calls over one store |
| `QueryAudit.dfy`, `ResultTypes.dfy`, `QueryExecutor.dfy`, `Ask.dfy`, `AskRuns.dfy`, `Pipeline.dfy` | audit ring, transaction lifecycle, `ask`, questions at the same time, and all of it end to end |
| `SchemaAssembly.dfy`, `Visibility.dfy`, `Serializer.dfy`, `ResultTable.dfy` | snapshot shaping, narrowing, prompt DDL, table layout |

Loops and objects of the source are methods and classes here. Each is proved against a
specification function of its inputs or old state, and the lemmas are about those functions.

## How SQL is represented

A statement's text is represented by the tree it parses to, so parsing and rebuilding
text are inverse by construction. `Queries.Query` is the language of selects: WITH
(plain or RECURSIVE), table and derived sources, sub-queries, a limit clause, and a tail
of set operations with its own limit. `BoundedQueries.Encode` gives the parser's tree for
one; sub-queries of expressions, those of LIMIT and OFFSET included, are listed beside the
expressions, and the chain of a set operation is one list under `_next`. Everything the
cap does not touch (joins, filters, select lists, grouping, ordering, set operators) is an
arbitrary function of the rows of the sources and sub-queries, and so is the number an
expression after LIMIT or OFFSET comes to, so the theorems hold whatever they do. LIMIT, OFFSET
and the scope of WITH names follow sections 7.6 and 7.8 of the PostgreSQL 16
documentation.

## Where the code does less than its documentation says

- The row cap keeps the author's meaning exactly under `CapIsExact`: the bound is a
  literal within the cap, or no offset is lost and no smaller bound is hidden in an
  expression. A computed OFFSET is dropped when the cap is applied, and a computed LIMIT
  is replaced by it (`CapKeepsTheMeaningExactly`, `ComputedOffsetIsLost`). The clause alone
  guarantees it exactly when the cap leaves it alone or nothing in it is computed
  (`CapIsAlwaysRightExactlyWhen`). That the parser accepts an expression there is not
  documented either.
- CTE names are subtracted from the table list wherever they are defined. A table read
  inside or outside the scope of a CTE of the same name is then not checked
  (`SelfNamedCteIsMissed`, `SelfNamedCteIsNotChecked`); the list is right exactly when no
  table read shares its name with a CTE (`BaseTablesAgainstScope`).
- The introspected schema is documented as the default boundary, but a table is judged by its
  bare name: one of a schema that was never introspected is accepted on the strength of a
  namesake (`OtherSchemasAreNotChecked`). What is accepted reads permitted, introspected
  tables only, exactly when every reference that names a schema names a table of the
  snapshot, and the tables read under a CTE's name pass
  (`AcceptedReadsArePermittedExactlyWhen`).
- `truncated` is documented as telling a reader that the row cap cut the result. Since the
  statement itself is bounded first, the flag is false for every query, however many rows
  the cap cut away (`TruncatedIsNeverTrue`, `CutRowsGoUnflagged`). It can be relied on
  exactly when the query's own limits keep it within the cap
  (`TruncatedIsReliableExactlyWhen`); for a statement that combines rows and has no set
  operation, that is when the limit origin is `author` (`AuthorsBoundFits`).
- A question adds two audit lines when the formatter throws after its rows are in
  (`OneLinePerQuestion`).
- Two tables share a grouping key when one's schema name goes on with a dot and the text that
  opens the other's table name (`KeysCollideExactlyWhen`, `DottedSchemasCollide`). A table name padded with blanks can be hidden by narrowing and
  yet pass review against the full schema (`PaddedNamesDisagree`): exactly when there is no
  allow list and the name is denied only once trimmed (`GatesAgreeExactlyWhen`).
- A column comment with a line break of its own puts text into the table body, and nothing
  else does (`BrokenCommentsLeak`, `CommasSeparateTheBody`).
- `validate` checks tables before the cap overwrites the limit node and computes the reported
  ones after. The two agree when the limit node holds no WITH clause (`CappedAstKeepsCtes`).
  Otherwise a table the check never saw can be reported, and the statement that comes out is
  accepted again only if it passes (`RevalidationIsStable`, `WithInsideLimitIsForgotten`).
  A table named by the overwritten limit alone is reported although the statement that runs
  no longer reads it (`LimitTablesAreReportedOnce`). Both cases depend on the parser
  accepting a sub-query after LIMIT, which the shapes documented at
  src/sql-safety/sql-validator.service.ts:451-455 do not show.

## Model

| member | source | states |
|---|---|---|
| `JsonTree.WalkVisitsExactlyTheNodes` | src/sql-safety/sql-validator.service.ts:410-428 | the walk yields an object node if and only if some path from the root leads to it |
| `SqlReview.CheckStatementShape` | src/sql-safety/sql-validator.service.ts:200-237 | the loop reports a non-select root by its type as text, then every forbidden type and INTO target of the walk, in walk order |
| `SqlReview.ShownAsText` | src/sql-safety/sql-validator.service.ts:205-213 | how a root type that is no string reads in the finding: undefined, null, a number by its digits, an array by its elements between commas |
| `SqlReview.FunctionNames` | src/sql-safety/sql-validator.service.ts:338-366 | every part of every called name in the walk, lower-cased, in order |
| `SqlReview.CheckFunctions` | src/sql-safety/sql-validator.service.ts:239-253 | one finding per called name on the forbidden list |
| `SqlReview.CollectCteNames` | src/sql-safety/sql-validator.service.ts:318-336 | the nested loops collect the names of every WITH clause in the tree |
| `SqlReview.CheckTables` | src/sql-safety/sql-validator.service.ts:255-297 | deny list, then allow list, then schema, with at most one finding per base table |
| `SqlReview.FindingKeySeparates` | src/sql-safety/sql-validator.service.ts:149-150 | two findings have the same key exactly when code and subject agree |
| `SqlReview.Dedupe` | src/sql-safety/sql-validator.service.ts:146-157 | the seen-set loop keeps the first finding of each key |
| `Distinct.KeepsFirstOccurrences` | src/sql-safety/sql-validator.service.ts:146-157 | what is kept is the subsequence of exactly the first element of each key, in order |
| `Distinct.DropsNoKind` | src/sql-safety/sql-validator.service.ts:146-157 | no key is lost, none is left twice, and a non-empty list is never emptied |
| `SqlReview.AcceptanceCharacterised` | src/sql-safety/sql-validator.service.ts:117-128 | no violations if and only if the root is a select, every object at every path is harmless and every base table passes |
| `SqlReview.RefusalsSayExactlyWhatIsWrong` | src/sql-safety/sql-validator.service.ts:200-297 | every finding is a fault the tree has, under the right code and of the right subject; every fault is among the findings, and none twice |
| `SqlReview.CalledNamesAreCalls` | src/sql-safety/sql-validator.service.ts:338-366 | the names collected from a node are exactly the parts, in lower case, of the function or aggregate it calls, schema-qualified or not |
| `SqlValidator.BaseTablesMember` | src/sql-safety/sql-validator.service.ts:306-316 | a name is a base table if and only if it is non-empty, reported and no CTE's; the list is sorted without repeats |
| `Text.LowerLowersLetters` | src/sql-safety/sql-validator.service.ts:306-316 | lower-casing moves each capital to its small letter and leaves everything else |
| `Text.TrimTakesOffTheBlanks` | src/sql-safety/sql-validator.service.ts:104-112 | trimming takes off the blanks at both ends, all of them, and nothing else |
| `SqlValidator.Validate` | src/sql-safety/sql-validator.service.ts:104-139 | the whole of validate, its error branches and the in-place rewrite before the tables are read again |
| `SqlValidator.AcceptedExactlyWhenSafe` | src/sql-safety/sql-validator.service.ts:104-139 | whatever the text and whatever the parser makes of it: accepted if and only if the text is not blank, it parses, to one statement and no more, and that statement is a harmless select over passing tables; a bound within the cap on whatever is accepted, and at least one violation otherwise |
| `SqlValidator.RejectionsSayWhy` | src/sql-safety/sql-validator.service.ts:104-128 | a blank text, one that does not parse and a second statement are each reported by their one code, a parse error by its first line; any other rejection reports exactly what is wrong with the tree |
| `RowCap.ParsedStatement.EnforceRowLimit` | src/sql-safety/sql-validator.service.ts:375-407 | the tree mutated in place, the statement returned and the origin, for every tree |
| `RowCap.WriteThenRead` | src/sql-safety/sql-validator.service.ts:460-487 | reading a written limit node gives back the cap and the offset |
| `RowCap.CappingIsStable` | src/sql-safety/sql-validator.service.ts:375-407 | for every tree the result is bounded by the cap, counts as the author's bound and is left alone by a second pass |
| `BoundedQueries.ReadsTheLiterals` | src/sql-safety/sql-validator.service.ts:441-475 | in each documented shape the reader takes the literal bound for a bound and the literal offset for an offset |
| `BoundedQueries.CapKeepsTheMeaningExactly` | src/sql-safety/sql-validator.service.ts:389-401 | the rewritten clause yields the first maxRows of the original's rows on every result set if and only if CapIsExact |
| `BoundedQueries.CapIsAlwaysRightExactlyWhen` | src/sql-safety/sql-validator.service.ts:389-401 | it does so whatever expressions, tables and names mean if and only if the cap leaves the clause alone or nothing in it is computed |
| `BoundedQueries.DocumentedShapesAreExact` | src/sql-safety/sql-validator.service.ts:451-455 | every documented shape with literals meets CapIsExact |
| `BoundedQueries.ComputedOffsetIsLost` | src/sql-safety/sql-validator.service.ts:463-475 | an offset that is an expression is dropped when a bound is injected, and the meaning with it |
| `BoundedQueries.TheCodeBuildsTheBoundedQuery` | src/sql-safety/sql-validator.service.ts:375-407 | the tree returned is the tree of the bounded query, in which an overwritten limit takes its sub-queries with it: wrapped if and only if there is a set operation |
| `BoundedQueries.OriginsOfQueries` | src/sql-safety/sql-validator.service.ts:375-407 | the origin of a query: wrapped if and only if there is a set operation, otherwise injected where no literal bound stands, clamped where one above the cap does, author where one within it does |
| `BoundedQueries.BoundedMeansFirstRows` | src/sql-safety/sql-validator.service.ts:368-407 | the bounded query evaluates to exactly the first maxRows rows of the original, for every database and every meaning of the rest of SQL, wherever the cap is exact |
| `BoundedQueries.BoundedIsShort` | src/sql-safety/sql-validator.service.ts:368-407 | exact or not, the bounded query has at most maxRows rows |
| `RowBounds.AlwaysFitsExactlyWhen` | src/sql-safety/sql-validator.service.ts:368-407 | a query has at most max rows whatever tables and the rest of SQL mean if and only if the bound computed from its literal limits, through copies, WITH and derived tables, says so |
| `RowBounds.AuthorsBoundFits` | src/sql-safety/sql-validator.service.ts:389-401 | a statement whose limit origin is author always fits; one that combines rows and has no set operation, only then |
| `BoundedQueries.BoundingTheHeadWouldNotDo` | src/sql-safety/sql-validator.service.ts:371-373 | a limit put on the first branch of a set operation does not bound the whole |
| `SqlValidator.CappedTreeIsHarmless` | src/sql-safety/sql-validator.service.ts:381-401 | the rewrite introduces no node a check objects to |
| `SqlValidator.CappedAstKeepsCtes` | src/sql-safety/sql-validator.service.ts:130-136 | overwriting a limit node without CTEs leaves the CTE names, hence the reported tables, as checked |
| `SqlValidator.RevalidationIsStable` | src/sql-safety/sql-validator.service.ts:130-138 | with any second report that names nothing new, the statement that comes out is accepted again if and only if the names it still reports, hidden at first by a WITH in the overwritten limit alone, pass; then unchanged, as the author's bound, with no new table, and with the same tables if and only if no reported name is gone |
| `AcceptedQueries.WithInsideLimitIsForgotten` | src/sql-safety/sql-validator.service.ts:117-138 | a table hidden from the check by a WITH clause inside the limit is reported afterwards, and the statement is rejected the second time |
| `AcceptedQueries.LimitTablesAreReportedOnce` | src/sql-safety/sql-validator.service.ts:130-138 | a table named only inside an overwritten limit is among the first verdict's tables and not among the second's |
| `AcceptedQueries.SelfNamedCteIsNotChecked` | src/sql-safety/sql-validator.service.ts:306-336 | a table under a CTE of its own name is accepted whatever the gate says of it, and decides the rows |
| `AcceptedQueries.SafeQueriesHaveSafeTrees` | src/sql-safety/sql-validator.service.ts:200-253 | no node of a query's tree is objected to if and only if none of its own expressions, at any depth, holds one |
| `AcceptedQueries.QueriesAreAcceptedExactlyWhen` | src/sql-safety/sql-validator.service.ts:104-139 | a query is accepted if and only if its expressions are harmless and every reference that is no CTE name passes the gate, whatever its structure |
| `ReviewedQueries.BoundedQueriesRevalidate` | src/sql-safety/sql-validator.service.ts:130-138 | the same for every query and the parser's own two reports, in terms of the names the query and its bounded form refer to and introduce; where the cap overwrites no sub-query it is accepted again with the same tables |
| `Queries.GlobalSubtractionAgainstScope` | src/sql-safety/sql-validator.service.ts:299-316 | references less all CTE names never exceed the tables read, miss only tables bearing a CTE's name, and are right exactly when none does |
| `Queries.SelfNamedCteIsMissed` | src/sql-safety/sql-validator.service.ts:306-336 | a table read under a CTE of its own name is not among the base tables |
| `Queries.ReadsDetermineTheResult` | src/sql-safety/sql-validator.service.ts:299-305 | a query's rows, its limits included, depend on nothing but the tables the scoped resolver says it reads, each with its schema |
| `EncodedTrees.EncodedNodes` | src/sql-safety/sql-validator.service.ts:410-428 | the objects the walk meets in a query's tree are its root, those of its own expressions, those of the queries inside it, and objects no check looks at |
| `ReviewedQueries.WalkFindsEveryCte` | src/sql-safety/sql-validator.service.ts:318-336 | the names collected from the tree are exactly the CTE names defined at any depth of the query |
| `ReviewedQueries.BaseTablesAreGlobal` | src/sql-safety/sql-validator.service.ts:306-316 | splitting, lower-casing and filtering the parser's report gives the references less every CTE name |
| `ReviewedQueries.BaseTablesAgainstScope` | src/sql-safety/sql-validator.service.ts:306-336 | the computed base tables against scoped resolution, in all three directions |
| `ReviewedQueries.AcceptedReadsArePermittedExactlyWhen` | src/sql-safety/sql-validator.service.ts:255-336 | an accepted query reads permitted tables of the snapshot only, schemas included, if and only if the tables it reads under the name of one of its own CTEs pass and every schema it names holds the table named there |
| `ReviewedQueries.AcceptedQueriesReadOnlyPermittedTables` | src/sql-safety/sql-validator.service.ts:255-297 | under that condition the rows of an accepted query, and of its bounded form, are the same on any two databases that agree on the introspected tables the gate passes |
| `AcceptedQueries.OtherSchemasAreNotChecked` | src/sql-safety/sql-validator.service.ts:306-316 | a table of another schema is accepted when a namesake passes, and decides the rows |
| `SchemaCache.SchemaCacheService.Get` | src/schema/schema-cache.service.ts:45-58 | the snapshot if present, enabled and unexpired; an expired entry is dropped |
| `SchemaCache.SchemaCacheService.Set` | src/schema/schema-cache.service.ts:60-67 | the new entry and its expiry, or nothing when disabled |
| `SchemaCache.SchemaCacheService.Invalidate` | src/schema/schema-cache.service.ts:69-72 | the cache is empty |
| `SchemaCache.SchemaCacheService.Status` | src/schema/schema-cache.service.ts:74-83 | what get would answer, and the expiry when there is one |
| `SingleFlight.SchemaService.Load` | src/schema/schema.service.ts:65-90 | cached snapshot, the shared promise, or a new introspection, in that order |
| `SingleFlight.SchemaService.Refresh` | src/schema/schema.service.ts:93-97 | the cache is emptied and the load joins a running introspection or starts one |
| `SingleFlight.SchemaService.OnLoaded` | src/schema/schema.service.ts:81-84 | the then callback stores the snapshot and leaves the promise in place |
| `SingleFlight.SchemaService.OnSettled` | src/schema/schema.service.ts:85-87 | the finally callback clears the field whatever it holds |
| `SingleFlight.StepKeeps` | src/schema/schema.service.ts:65-97 | every step keeps: the field holds the one uncleared introspection, and the cache holds the latest success until its TTL |
| `SingleFlight.NeverTwoAtOnce` | src/schema/schema.service.ts:75-89 | over every run at most one introspection is running, and each finally clears its own promise |
| `SingleFlight.JoinersShareTheOutcome` | src/schema/schema.service.ts:75-89 | a caller that joined an introspection is answered with its outcome, after it cleared |
| `SingleFlight.CachedAnswersAreFresh` | src/schema/schema-cache.service.ts:45-66 | a cached answer comes from an introspection that settled less than one TTL before the call |
| `SingleFlight.FailureLeavesNoTrace` | src/schema/schema.service.ts:79-87 | once the finally of a failed introspection has run, at no later time is it in flight or cached, and no later call waits for it |
| `SingleFlight.NextCallStartsAfresh` | src/schema/schema.service.ts:65-89 | the first call after that, if the cache does not answer it, starts a newer introspection of its own |
| `SingleFlight.ReadsNeverGoBack` | src/schema/schema.service.ts:65-97 | over every interleaving, a call made after another was answered gets the same or a later introspection |
| `SingleFlight.SuccessIsServedUntilItExpires` | src/schema/schema.service.ts:65-73 | over every run, a plain call less than one TTL after the latest success, with no refresh since, is a hit with exactly the snapshot that was loaded, and starts no introspection |
| `SingleFlight.ExpiredIsDropped` | src/schema/schema-cache.service.ts:45-58 | one TTL after it settled a snapshot is dropped by the next call or status request that looks |
| `SingleFlight.RefreshForgetsTheOld` | src/schema/schema.service.ts:93-97 | a refresh is never answered from the cache, and no later hit returns what had settled before it |
| `ConversationStore.ConversationService.Create` | src/nl-to-sql/conversation.service.ts:37-54 | expired conversations go, then a slot is freed, then the new one is added last with its owner |
| `ConversationStore.ConversationService.Get` | src/nl-to-sql/conversation.service.ts:67-82 | found, or not found for unknown, expired (then forgotten) and someone else's |
| `ConversationStore.ConversationService.Resolve` | src/nl-to-sql/conversation.service.ts:88-90 | an id continues, none or an empty one starts afresh |
| `ConversationStore.ConversationService.Record` | src/nl-to-sql/conversation.service.ts:101-120 | the turn is pushed, the window trimmed, the time set and the entry moved to the end |
| `ConversationStore.ConversationService.Delete` | src/nl-to-sql/conversation.service.ts:122-132 | removed with its owner, or not found for unknown and someone else's, expiry ignored |
| `ConversationStore.ConversationService.Stats` | src/nl-to-sql/conversation.service.ts:140-148 | the count left after expired conversations are swept |
| `ConversationStore.ConversationService.EvictExpired` | src/nl-to-sql/conversation.service.ts:155-161 | iterating the map while entries leave it keeps exactly the live ones, in order |
| `ConversationStore.ConversationService.EvictOverflow` | src/nl-to-sql/conversation.service.ts:164-176 | the loop terminates and drops just enough from the front, every entry when no session is allowed |
| `ConversationBounds.CreateStaysValid` | src/nl-to-sql/conversation.service.ts:37-54 | create keeps order by recency, the session cap, the window and owners within live ids |
| `ConversationBounds.RecordStaysValid` | src/nl-to-sql/conversation.service.ts:101-120 | so does record, its re-insertion included |
| `ConversationBounds.CreateEvictsExactly` | src/nl-to-sql/conversation.service.ts:37-39 | create evicts exactly the expired, and one live conversation only when live ones fill every slot: the least recently active |
| `Prompt.PromptShape` | src/nl-to-sql/prompt-builder.service.ts:86-111 | k turns give 2k+1 alternating messages in order, the question last |
| `Prompt.TurnsAreReplayed` | src/nl-to-sql/prompt-builder.service.ts:86-111 | each turn is replayed as its question and its query, or a text ending in why there was none |
| `Generation.AnswerableMeansQuery` | src/nl-to-sql/sql-generation.service.ts:167-219 | an answer that passes the shape rules is answerable if and only if it carries a query |
| `Generation.UnderstoodExactlyWhen` | src/nl-to-sql/sql-generation.service.ts:167-219 | an answer is understood if and only if it is an object with a boolean `answerable` and a textual query, not blank where it answers; an explanation or tables missing or of another kind count as none |
| `Generation.OnlyStringsAreTaken` | src/nl-to-sql/sql-generation.service.ts:213-217 | of the listed tables exactly the strings are taken, in order |
| `Generation.AnswersAreUnderstood` | src/nl-to-sql/sql-generation.service.ts:167-219 | an answer written out property by property is understood as it was meant, its query trimmed; an answerable one with a blank query is refused |
| `Generation.GenerateCall.constructor` | src/nl-to-sql/sql-generation.service.ts:84-89 | up to the first await: resolve the conversation or fail |
| `Generation.GenerateCall.OnSchema` | src/nl-to-sql/sql-generation.service.ts:91-97 | the prompt is built from the conversation object as it is by then |
| `Generation.GenerateCall.OnCompletion` | src/nl-to-sql/sql-generation.service.ts:97-105 | parse, then record, which may find the conversation gone |
| `Generation.RunKeeps` | src/nl-to-sql/sql-generation.service.ts:84-120 | every interleaving of generations, session requests and time keeps the store's bounds, the windows and the one-turn rule |
| `Generation.WindowIsTheLastTurns` | src/nl-to-sql/conversation.service.ts:101-110 | a conversation holds exactly the last maxTurns turns ever recorded for it, and the store never exceeds its cap |
| `Generation.OneTurnOrNone` | src/nl-to-sql/sql-generation.service.ts:84-120 | a generation has appended its own turn exactly once if it completed and nothing otherwise |
| `Generation.GoneForGood` | src/nl-to-sql/sql-generation.service.ts:84-120 | a conversation that left the map never comes back, whatever was suspended on it |
| `Generation.GoneCallsDoNotComplete` | src/nl-to-sql/sql-generation.service.ts:101-105 | a generation whose conversation has gone fails when the model answers and records nothing |
| `Generation.PromptReplaysTheWindow` | src/nl-to-sql/sql-generation.service.ts:91-97 | the prompt replays the last maxTurns turns recorded by the time the schema arrives, other calls' included |
| `Generation.OwnershipIsForLife` | src/nl-to-sql/conversation.service.ts:92-98 | a conversation keeps its owner, or its lack of one, for as long as it exists |
| `Generation.StrangersFindNothing` | src/nl-to-sql/conversation.service.ts:67-82 | any other client is told it does not exist, for get and delete alike |
| `Generation.FoundExactlyWhileActive` | src/nl-to-sql/conversation.service.ts:67-82 | over every run, a conversation in the map is found by whoever may ask for it if and only if no more than one TTL has passed since its last recorded turn, or since its creation if it has none |
| `Generation.StatsDropExactlyTheInactive` | src/nl-to-sql/conversation.service.ts:140-161 | a sweep keeps exactly the conversations active in that sense, in order |
| `Generation.CreationDropsExactly` | src/nl-to-sql/conversation.service.ts:37-54 | creating drops the inactive ones, and of the active ones at most the one inactive for longest, only if they fill every slot; the new one is last and is its client's |
| `Generation.AskingForgetsTheInactive` | src/nl-to-sql/conversation.service.ts:67-75 | asking for a conversation takes it out of the map if and only if it is no longer active, and no other |
| `Generation.DeletingTakesOutOne` | src/nl-to-sql/conversation.service.ts:122-132 | deleting takes out exactly the one asked for, active or not, if and only if whoever asks may |
| `Generation.QuestionsStartWhere` | src/nl-to-sql/sql-generation.service.ts:84-89 | a question on a conversation starts if and only if its client finds it; one without starts a conversation of its own |
| `Generation.CompletesExactlyWhen` | src/nl-to-sql/sql-generation.service.ts:97-120 | when the model answers, the call completes and records its question with that answer if and only if the answer is understood and the conversation is in the map and active; otherwise it fails and records nothing |
| `QueryAudit.QueryAuditService.Record` | src/execution/query-audit.service.ts:30-39 | the ring is the last entries of the full history |
| `QueryAudit.QueryAuditService.Recent` | src/execution/query-audit.service.ts:67-73 | the newest visible entries of the ring, newest first |
| `QueryAudit.RecentIsGapFree` | src/execution/query-audit.service.ts:67-73 | what a client sees is the reverse of a suffix of its own full history, as long as asked or as the ring holds; zero asks for all |
| `QueryAudit.NobodyElsesEntries` | src/execution/query-audit.service.ts:60-73 | a client with an identity sees exactly its own entries, in order, none of another's or of nobody's and none of its own left out; a caller without one sees all |
| `QueryExecutor.Shape` | src/execution/query-executor.service.ts:86-108 | rows are a prefix of at most maxRows, counted, and flagged exactly when cut |
| `QueryExecutor.Executed` | src/execution/query-executor.service.ts:45-75 | rows come back exactly when every call worked; a failing release escapes untranslated |
| `QueryExecutor.QueryExecutorService.RunInTransaction` | src/execution/query-executor.service.ts:49-68 | the try block: the requests made, the first error and the runner's flag, for every failure |
| `QueryExecutor.QueryExecutorService.RollbackQuietly` | src/execution/query-executor.service.ts:110-121 | a rollback if and only if the runner believes a transaction is active |
| `QueryExecutor.QueryExecutorService.Execute` | src/execution/query-executor.service.ts:45-75 | the outcome and the complete list of requests for every pattern of failures |
| `QueryExecutor.LifecycleIsSound` | src/execution/query-executor.service.ts:45-121 | replayed by the database: the statement goes out once at most and only read-only and timed, nothing commits, release is once and last, and a transaction is open at the end only if a rollback failed |
| `QueryExecutor.FailuresAreReported` | src/execution/query-executor.service.ts:45-148 | where release works the rows come back if and only if every request did; otherwise the first request that failed decides: timeout if and only if its error's code is 57014, read_only if and only if 25006, with that error's own words, whatever the rollback after it does |
| `Ask.ReviewFollowsSafety` | src/nl-to-sql/sql-generation.service.ts:128-158 | valid if and only if the answer carries a query that is a harmless select over permitted tables, and then bounded by the cap; a refusal always has a reason |
| `Ask.AskCall.OnGenerated` | src/nl-to-sql/ask.service.ts:74-139 | after generation: the line and the answer of a question that is not executed, or nothing yet |
| `Ask.AskCall.OnExecuted` | src/nl-to-sql/ask.service.ts:141-207 | after execution: the success line, the formatter inside the try, and both catch branches |
| `Ask.AskService.Ask` | src/nl-to-sql/ask.service.ts:74-208 | a question nothing comes between: the answer, the audit lines added and the requests sent, for every outcome; the executor runs only for a valid, non-dry-run query with the validated statement |
| `AskRuns.EachQuestionHasItsLine` | src/nl-to-sql/ask.service.ts:74-208 | however questions interleave, each has written nothing until it is answered and then its one line, two if its formatter threw |
| `AskRuns.TrailOnlyGrows` | src/execution/query-audit.service.ts:30-39 | over every run, lines once written stay where they are in the full history, and each bears the time it was written at |
| `Ask.OneLinePerQuestion` | src/nl-to-sql/ask.service.ts:74-208 | one line of the matching outcome, two exactly when the formatter throws after a success |
| `Ask.ResponsesTellWhatHappened` | src/nl-to-sql/ask.service.ts:81-208 | the response carries this question's conversation, all its violations, the statement that was bounded and the executor's result or reason, each status if and only if its case applies; an error is rethrown only from an escaped execution or the formatter |
| `Ask.ResponsesAgreeWithTheTrail` | src/nl-to-sql/ask.service.ts:88-207 | the last line written agrees with the response: statement, row count, duration, reason, and the code of each violation in order |
| `Ask.FailuresReachTheTrail` | src/nl-to-sql/ask.service.ts:169-189 | the one line of a failed question gives the reason its caller is given, timeout and read_only exactly by the first failing request's code |
| `Pipeline.AnswersAreTheFirstRows` | src/nl-to-sql/ask.service.ts:141-167 | an answered question returns the first maxRows rows of the proposed query, wherever the cap is exact |
| `Pipeline.TruncatedIsNeverTrue` | src/execution/execution.types.ts:7-11 | for every query truncated is false and no more than maxRows rows are answered |
| `Pipeline.TruncatedIsReliableExactlyWhen` | src/execution/execution.types.ts:7-11 | the flag is right whatever the database holds if and only if the query's literal limits keep it within the cap |
| `Pipeline.CutRowsGoUnflagged` | src/execution/execution.types.ts:7-11 | a query and databases where rows are cut and the flag is false |
| `SchemaAssembly.GroupBy` | src/schema/schema-introspection.service.ts:116-136 | the map-building loop gives each id exactly its rows in input order |
| `SchemaAssembly.Assemble` | src/schema/schema-introspection.service.ts:109-186 | one table per table row, built from the groups |
| `SchemaAssembly.GroupingIsFilteringExactly` | src/schema/schema-introspection.service.ts:114-136 | for columns and constraints alike, grouping equals filtering by schema and name if and only if no other table's row has the same key |
| `SchemaAssembly.KeysCollideExactlyWhen` | src/schema/schema-introspection.service.ts:114-114 | two tables share a key if and only if they are one, or the longer schema name continues the shorter with a dot and the text that opens the other's table name |
| `SchemaAssembly.UndottedKeysAreTheirOwn` | src/schema/schema-introspection.service.ts:114-114 | schema names without a dot are enough for a table's key to be its own |
| `SchemaAssembly.UndottedTablesAreTheirOwn` | src/schema/schema-introspection.service.ts:114-114 | and so are table names without one |
| `SchemaAssembly.DottedSchemasCollide` | src/schema/schema-introspection.service.ts:114-114 | a schema name with a dot is given another table's rows |
| `SchemaAssembly.AssembleGivesEachTableItsRows` | src/schema/schema-introspection.service.ts:138-185 | where no other table has its key a table has one column for each of its own rows, in order and field by field, the columns of its first primary-key row as its key, primary flags that follow it, and its own foreign keys and unique constraints, each field from its row |
| `SchemaAssembly.GivenToOneTable` | src/schema/schema-introspection.service.ts:109-186 | a row of a listed table, column or constraint, is given to it, and rows go to no other table if and only if no keys collide |
| `SchemaAssembly.NoRowLostOrShared` | src/schema/schema-introspection.service.ts:109-186 | the assembled tables together hold at least as many columns, foreign keys and unique constraints as catalog rows belong to a listed table, and exactly as many if and only if no keys collide |
| `Visibility.NarrowingIsIdempotent` | src/schema/schema-visibility.ts:29-60 | narrowing twice is narrowing once |
| `Visibility.NarrowingKeepsExactlyTheVisible` | src/schema/schema-visibility.ts:52-80 | narrowing leaves exactly the visible tables, each once and in order, of each exactly the foreign keys to visible tables, and everything else as it was |
| `Visibility.NarrowingKeepsKeysClosed` | src/schema/schema-visibility.ts:69-80 | closed foreign keys stay closed, and none names a hidden table |
| `Visibility.NarrowAcceptanceIsFullAcceptance` | src/sql-safety/sql-validator.service.ts:255-297 | what review accepts against the narrowed schema it accepts against the full one |
| `Visibility.GatesAgreeExactlyWhen` | src/schema/schema-visibility.ts:29-83 | with lists as configured, review accepts a table against the full schema as against the narrowed one, except exactly for a known table with no allow list that is denied only once trimmed |
| `Visibility.NarrowedReviewPassesTheVisible` | src/schema/schema-visibility.ts:29-83 | review against the narrowed schema passes the tables narrowing shows; with an allow list, those without blanks around the name |
| `Visibility.PaddedNamesDisagree` | src/schema/schema-visibility.ts:82-83 | a padded table name is hidden by one gate and passed by the other |
| `Serializer.SerializeTable` | src/schema/schema-serializer.service.ts:58-129 | the pushes build the table's DDL text |
| `Serializer.Columns` | src/schema/schema-serializer.service.ts:73-87 | one line a column, with its nullability and default |
| `Serializer.Constraints` | src/schema/schema-serializer.service.ts:89-109 | primary key, unique and foreign keys of a real table, and nothing of a view |
| `Serializer.PromptDescribesEveryTable` | src/schema/schema-serializer.service.ts:35-129 | the text is that of exactly the tables asked for, in order and a blank line apart; each has its comment, its name, qualified exactly when there are several schemas, one line for each column with its comment, and on a real table one for each constraint |
| `Serializer.CommasSeparateTheBody` | src/schema/schema-serializer.service.ts:111-125 | with comments or without, the body with each line cut at its comment is its lines joined by commas if and only if no comment shown has a line break of its own |
| `Serializer.BrokenCommentsLeak` | src/schema/schema-serializer.service.ts:118-120 | a comment with a line break of its own leaves text in the body |
| `Serializer.HiddenTablesDoNotReachThePrompt` | src/schema/schema-visibility.ts:52-80 | no sequence of edits to hidden tables, or to foreign keys pointing at one, changes the serialized text |
| `ResultTable.Render` | src/execution/result-formatter.service.ts:86-109 | a cell that is not a date is at most 40 characters |
| `ResultTable.WidthsAreLeast` | src/execution/result-formatter.service.ts:27-34 | each width fits its header and cells and is that of one of them |
| `ResultTable.TableIsRectangular` | src/execution/result-formatter.service.ts:18-50 | header, rule and rows have one length; each column has one place on every line, where the whole header or cell stands followed by blanks, or dashes |
| `ResultTable.CellsShowTheValues` | src/execution/result-formatter.service.ts:23-25 | each cell shows its row's value for its column: NULL for none, a text whole up to 40 characters, a longer one by its first 39 and an ellipsis |
| `ResultTable.PrintedColumnsAlign` | src/execution/result-formatter.service.ts:38-49 | in the printed text the lines start at even distances, and each column stands in one place below its header |

## Left out

- Queries.Eval: sub-queries are evaluated once for a query, not once for each outer row, so correlation is not modelled; WITH RECURSIVE is re-evaluation from no rows for any given number of rounds.
- Queries.Core: a query is a function of its tables, and copying a derived table keeps its row order; PostgreSQL promises neither without an outer ORDER BY, and the wrapped case of BoundedMeansFirstRows rests on both.
- Queries.EvalSource: an unqualified name stands for one table of the database, whichever schema it is found in; table aliases are not names that can be referred to, and quoted identifiers differing only in case are one name, as the code treats them.
- BoundedQueries.Encode: limit literals are non-negative integers; the parser's own layout of set-operation chains and of sub-queries inside expressions is replaced by lists of the same content.
- BoundedQueries.BoundedMeansFirstRows: where CapIsExact fails the rewrite changes the meaning, so the equality is not claimed there; CapKeepsTheMeaningExactly says when.
- AcceptedQueries.QueriesAreAcceptedExactlyWhen: expressions carry no WITH clause of their own, since their sub-queries are listed beside them.
- ReviewedQueries.BaseTablesAgainstScope: the parser's report is taken to list every table reference of the tree once or more, with names free of colons.
- Text.Lower, Text.Trim: ASCII letters and blanks only.
- SqlReview.Shown: numbers in a tree are integers; messages are not modelled.
- Serializer.CommasSeparateTheBody: names, types and defaults that hold `--` are not covered, and a table's own comment line stands outside the body.
- ConversationStore.ConversationService.Create: the identifier is a parameter that must be fresh; a synchronous operation happens at one instant.
- QueryExecutor.QueryExecutorService.Execute: creating the runner never fails; how the driver answers each call is a parameter.
- Ask.AskService.Ask: the formatter is a flag saying whether it throws; log lines and summaries are not modelled.
- SqlValidator.Validate: the parser's outcome is a parameter with at least one statement.
- ResultTable.TableIsRectangular: a cell's own line breaks and wide characters are ordinary characters.
- SQL text, the parser, PostgreSQL itself, the catalog queries, language-model clients and their transport.
- Controllers, guards, throttling, configuration loading, health checks and module wiring.
- JSON text and code fences around the model's answer: the shape rules start from the parsed value.
