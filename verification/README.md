# Verification of the sales agent

A Dafny 4.11 project that models the stateful core of the sales agent backend and proves what its design relies on.
The database is modelled as maps and sequences of rows with their unique constraints, a transaction as a step that
commits whole or leaves the tables as they were, and the clock as an integer. Everything the services call but do not
own (Meta, Telegram, password hashing, the chat engine) is an argument: every theorem holds for all its answers.

| files | subject |
|---|---|
| `DependencyGraph`, `ModuleCatalog`, `BulkCapabilities`, `AdminModules` | Modules, dependencies and capabilities: a recursive resolver over possibly cyclic graphs, its bulk twin, activation and deactivation |
| `Authentication`, `AuthenticationHistory` | Password login with lockout, opaque sessions, and what whole runs guarantee |
| `InstagramInterleaving`, `InstagramWebhook`, `TelegramPolling` | Webhook and polling delivery: claims by unique insert, retries, at-most-once effects under interleaving |
| `CatalogText`, `CatalogAliases`, `CatalogAnalysis`, `CatalogPublication`, `CatalogRuntime` | Training drafts, alias lists, conflict detection, versioned publication and the resolver that depends on it |
| `ContentPublishing` | Social content: revisions, approval, and the job around an irreversible call |
| `Authorization`, `Revisions` | Role histories and effective permissions; optimistic concurrency under any interleaving |
| `JpegScanner`, `Dotenv`, `MigrationGraph` | Three self-contained algorithms |
| `Sequences`, `Options` | Ordered query results, stable sorting, optional values |

Objects whose methods update rows are classes; each method is proved equal to a step function of the old state, and
the theorems are about those functions and about runs of them. Read-only code is functions; loops in the source are
loops here.

What the proofs found out about the code, beyond what it promises. Each has the input that shows it and the condition
under which the code does meet the expectation:

- Two overlapping webhook requests that both find the same failed direct message send it twice: a first delivery that
  Meta refuses and two overlapping redeliveries do it (`OverlappingRetriesSendTwice`). As long as no two handlers that
  still act work on a message at once, at most one successful send of it is recorded, whatever else overlaps and wherever
  others crashed (`SendsOnceWithoutOverlap`).
- A comment is answered at its first delivery or never: a refused private reply, or an exception on the way to it, is not
  tried again by any redelivery (`CommentAnsweredExactly`), under any interleaving (`FailedPrivateReplyIsFinal`).
- A Telegram update whose chat run raised is announced as "will be retried" (app/telegram_polling.py, line 42), but its
  failed row has no reply to send, so the next round counts it as a duplicate and moves past it (`ChatErrorIsPassedOver`).
  In every run a private text below the offset is unanswered exactly when, at its first contact, the chat run raised or
  an empty reply could not be sent (`UnansweredExactly`).
- A signing secret left at the placeholder of the example environment file passes the readiness check and then fails to
  sign, which counts an attempt without a call (`PlaceholderCountsWithoutCall`). In every run attempts are calls exactly
  when no attempt was made with the placeholder (`AttemptsAreCalls`).
- After a timed-out publish call the job asks for reconciliation, but approving the draft again is enough to send it a
  second time (`ReapprovalSendsAgain`); without an approval it is never sent again (`RetryNeedsApproval`). After a handled
  error not even that is needed, although Meta may have accepted the first call (`ErrorAllowsRetry`).
- Products whose categories have one normal form share the category row of the first, so a product answers to the
  category as another one spells it, slash-separated parts included (`OtherSpellingAnswers`,
  `PublishedCategoryIsShared`).
- Hashtags that pass every check can be longer than a caption may be, and nothing cuts them: 22 tags are saved, approved
  and sent (`LongHashtagsOverflow`). The sent caption fits exactly when the joined hashtags do (`SentCaptionFits`).
- Two overlapping rule creations exceed the store's limit (`OverlappingCreatesExceedLimit`). A creation keeps it exactly
  when the rules counted at its check and those created since leave room (`CreationKeepsLimit`).
- Deleting a rule checks the revision but not how many rows its statement deleted: with an update in between, the rule
  survives, and the answer and the audit row say it was deleted (`DeletionIsLost`). In every run a deletion takes effect
  exactly when the rule was not updated between its check and its statement (`DeletionTakesEffect`).
- A role assigned to a user before the user was added to the tenant makes a membership without a user id: adding, suspending
  and enabling never reach it (`RoleMadeMembershipIsOutOfReach`). They work exactly on memberships made by adding the user
  (`MembershipInReachExactly`).

Two more limits. A session token longer than 2048 characters would be issued and never accepted
(`ResolvesExactlyLiveTokens`), but the default token factory gives 64 (app/authentication/service.py, line 89). A dotenv
value loses white space at its end when its line is the last one that is not blank (`UpdatedValues`,
`TrailingBlankIsLost`): never a value the setup page writes, since those are stripped and matched against patterns
without blanks (app/instagram_setup.py, lines 22-25 and 94-119), but the old value of another key does, when its line
comes last and the file already has every key that the page updates.

## Model

| member | source | states |
|---|---|---|
| DependencyGraph.ResolveIsLfp | app/module_catalog.py:239-271 | The depth-first walk with a copied path set, on any finite graph, accepts exactly the codes of the least fixed point |
| DependencyGraph.LfpIsLeast | app/module_catalog.py:239-271 | The iterated set is a fixed point of "live and all dependencies in the set" and lies in every closed set |
| DependencyGraph.DependencyOrderIrrelevant | app/module_catalog.py:262-271 | Order and repetition of declared dependencies do not change what resolves |
| DependencyGraph.CycleNeverResolved | app/module_catalog.py:246-250 | A code from which a cycle can be reached never resolves |
| DependencyGraph.LfpWithout | app/module_catalog.py:239-271 | Taking one live code away turns off exactly the codes that reach it |
| ModuleCatalog.ModuleEnabledIsLfp | app/module_catalog.py:218-271 | `module_enabled`, with its store, entitlement and time checks, decides the least fixed point of the store's graph; `EnabledExactly` spells the checks out |
| ModuleCatalog.EnabledExactly | app/module_catalog.py:218-271 | A module is enabled exactly when the store is operational, its entitlement is active or on trial and within all its dates (an expired trial or period is not), it is not planned, and every dependency is enabled |
| ModuleCatalog.MoreLiveNeverDisables | app/module_catalog.py:239-271 | More live entitlements and no new dependencies never disable a module |
| ModuleCatalog.CyclicModuleNeverEnabled | app/module_catalog.py:246-250 | A module that can reach a dependency cycle is never enabled |
| ModuleCatalog.EffectiveSubscriptionIsNewest | app/module_catalog.py:311-342 | The per-family query returns the newest eligible subscription, ties by id, and nothing exactly when none is eligible |
| BulkCapabilities.GrantedExactly | app/module_catalog.py:311-342 | A code is granted exactly by the plan of a current subscription of the store, in one of the three families, that no other current one of its family is newer than |
| BulkCapabilities.FirstBulkRowIsEffective | app/module_catalog.py:404-430 | The first row of the one bulk query for a store and family is what that store's own query returns |
| BulkCapabilities.SelectSubscriptions | app/module_catalog.py:404-430 | The setdefault pass selects, for every store and family, what the store gets alone |
| BulkCapabilities.LoadedIsModuleEnabled | app/module_catalog.py:457-477 | The in-memory walk over the loaded rows agrees with `module_enabled` |
| BulkCapabilities.CapabilityEnabledIsLfp | app/module_catalog.py:457-494 | The two nested walks decide the least fixed point of "granted, live, dependencies in the set" |
| BulkCapabilities.CapabilitiesExactly | app/module_catalog.py:447-502 | A store has exactly the canonical codes that it holds, and holds a code exactly when a current plan grants it, its module is enabled, and it holds every dependency |
| BulkCapabilities.SortedCodes | app/module_catalog.py:496-502 | The result tuple is the strictly sorted listing of the set |
| BulkCapabilities.StoreCapabilities | app/module_catalog.py:449-502 | One store's answer is the sorted canonical codes of that fixed point |
| BulkCapabilities.EffectiveCapabilitiesForStores | app/module_catalog.py:385-503 | For any collection of distinct stores, every store gets exactly the answer it would get alone, and no other store gets one |
| BulkCapabilities.EffectiveCapabilities | app/module_catalog.py:369-382 | One trusted scope gets that answer; an unknown store or another tenant's gets nothing |
| AdminModules.ModuleAdmin.UpdateStoreModule | app/admin_modules.py:170-234 | Outcome and new tables for every request; a refused request changes nothing |
| AdminModules.EnsureKeepsEnabled | app/module_catalog.py:184-215 | Seeding definitions and rows disables nothing, and enables nothing either unless a default module had no row yet |
| AdminModules.ActivationEnables | app/admin_modules.py:194-217 | An accepted activation enables the module at once, exactly when the store operates and the untouched dates allow it |
| AdminModules.TrialRunsOut | app/admin_modules.py:209-217 | After an accepted trial the module is enabled at any later time exactly while fewer days have passed than were granted (7 by default), the store and the other dates allow it, and every dependency is enabled then |
| AdminModules.PaidPeriodRunsOut | app/module_catalog.py:224-236 | After an accepted activation it is the paid period, and the start and end dates, that bound the module at any later time |
| AdminModules.AcceptedExactly | app/admin_modules.py:191-208 | An update is accepted exactly when the row exists and, to activate it, the module is not planned and every dependency is enabled; a refusal names exactly those that are not |
| AdminModules.SeedingExactly | app/module_catalog.py:157-215 | Seeding keeps every row and adds an inactive one for each definition without one, active for defaults |
| AdminModules.DeactivationIsExact | app/admin_modules.py:194-217 | Deactivation turns off exactly the module and the enabled modules that depend on it, directly or not |
| Authentication.AuthenticationService.CreateUser | app/authentication/service.py:120-165 | The new user, or a refusal that changes nothing |
| Authentication.AuthenticationService.AuthenticatePassword | app/authentication/service.py:167-258 | Every branch of a login: unknown, disabled, locked, wrong password with its counter and lock, and a new session; from the history, `LoginAnswersExactly` |
| Authentication.AuthenticationService.ResolveSession | app/authentication/service.py:260-286 | Accepts or rejects a token, and marks an expired session |
| Authentication.AuthenticationService.RevokeSession | app/authentication/service.py:337-366 | Revokes one session of its owner, once |
| Authentication.AuthenticationService.RevokeAllUserSessions | app/authentication/service.py:368-380 | Revokes all active sessions of the user and counts them |
| Authentication.AuthenticationService.RevokeSessionsInTransaction | app/authentication/service.py:382-392 | The conditional update and its row count |
| Authentication.AuthenticationService.SetPassword | app/authentication/service.py:394-414 | New hash, counters reset, sessions revoked, or nothing changed |
| Authentication.AuthenticationService.ChangePassword | app/authentication/service.py:416-461 | The same after the current password was verified |
| Authentication.AuthenticationService.SetUserEnabled | app/authentication/service.py:463-478 | Sets the status; disabling revokes every session |
| AuthenticationHistory.ResolvesExactlyLiveTokens | app/authentication/service.py:260-286 | After any run a token is accepted exactly when a login issued it less than the session lifetime ago, its user is active, nothing since ended the session, and its length is within the limits |
| AuthenticationHistory.AccountFollowsHistory | app/authentication/service.py:167-258 | In every run each account row, with its hash, counter and lock, is what the requests and answers so far make of it |
| AuthenticationHistory.LoginAnswersExactly | app/authentication/service.py:167-258 | The answer to a login, from the history: locked exactly when at least the limit of comparisons failed since the last reset and the last of them less than a lockout ago; otherwise the right password with a fresh token and id logs in |
| AuthenticationHistory.PasswordAnswersExactly | app/authentication/service.py:394-461 | When a password is set or changed, from the history |
| AuthenticationHistory.CreationAnswersExactly | app/authentication/service.py:120-165 | A user is created exactly when neither the id nor the address is taken |
| AuthenticationHistory.ResolveAnswersExactly | app/authentication/service.py:260-286 | The answer to a resolve, error cases included, is decided by the login that handed the token out and what ended or outlived it since |
| AuthenticationHistory.RevocationAnswersExactly | app/authentication/service.py:337-366 | Revoking one session is refused to anyone but its owner, and otherwise reports whether it was open |
| AuthenticationHistory.RevokingAllCountsOpen | app/authentication/service.py:368-392 | Revoking all sessions of a user counts exactly those handed out and neither ended nor found expired |
| AuthenticationHistory.RowFollowsHistory | app/authentication/service.py:226-258 | A session row follows its history: revoked exactly after an ending event, expired only past its expiry |
| AuthenticationHistory.RowHasOrigin | app/authentication/service.py:226-258 | Every session row was created by a login of the run |
| AuthenticationHistory.ReenablingRevivesNothing | app/authentication/service.py:463-478 | Disabling a user ends the sessions issued so far for good, whatever follows |
| AuthenticationHistory.GuessesAreBounded | app/authentication/service.py:195-222 | Between resets, the passwords that logins compare for one account in a window number at most the failure limit plus the lockouts that fit in the window |
| AuthenticationHistory.LockAdvances | app/authentication/service.py:195-222 | Past the limit each further failure pushes the lock a full lockout further |
| InstagramInterleaving.AtMostOnce | app/instagram.py:418-553 | Under every interleaving of handlers and any duplication: one chat run per message, one private and one public reply call per comment |
| InstagramInterleaving.SentRowsAreReal | app/instagram.py:251-355 | Under every interleaving a row that says a message, a private or a public reply was sent has a call that Meta accepted behind it |
| InstagramInterleaving.NothingIsSentWhenOff | app/instagram.py:246-355 | While sending is off Meta is never called, under any interleaving |
| InstagramInterleaving.PublicReplyFollowsPrivate | app/instagram.py:280-355 | Under every interleaving, each real public reply follows an accepted private reply to the same comment |
| InstagramInterleaving.FailedPrivateReplyIsFinal | app/instagram.py:280-307 | Under every interleaving, a private reply that was not accepted is never followed by an accepted one |
| InstagramInterleaving.SendsOnceWithoutOverlap | app/instagram.py:418-484 | In every run in which no two handlers that still act work on a direct message at once, at most one successful send of it is recorded, however else requests overlap or crash |
| InstagramInterleaving.OverlappingRetriesSendTwice | app/instagram.py:418-427 | From the empty tables: a refused first delivery and two overlapping redeliveries record two sends of one message |
| InstagramWebhook.InstagramWebhook.DeliverResponse | app/instagram.py:251-277 | The row and the outcome of sending a direct message |
| InstagramWebhook.InstagramWebhook.HandleMessage | app/instagram.py:418-484 | The row and the count of one direct message, new or seen before |
| InstagramWebhook.InstagramWebhook.EnsurePublicReply | app/instagram.py:310-355 | The public reply is claimed once, and what its row says afterwards |
| InstagramWebhook.InstagramWebhook.DeliverCommentResponse | app/instagram.py:280-307 | The row and the outcome of the private reply |
| InstagramWebhook.InstagramWebhook.HandleComment | app/instagram.py:486-553 | The rows and the count of one comment |
| InstagramWebhook.InstagramWebhook.ReceiveWebhook | app/instagram.py:396-555 | A whole request: the tables and the summary are those of serving its items in order, by steps of the interleaving machine only |
| InstagramWebhook.SummaryAddsUp | app/instagram.py:409-416 | The three counts are those of the outcomes, and with the skipped and the raising item they add up to the items served: all of them, unless an exception ended the batch |
| InstagramWebhook.ServingSettles | app/instagram.py:418-484 | After an item is served no redelivery tries to send anything for it, except exactly when a direct message's stored reply could not be sent |
| InstagramWebhook.CommentAnsweredExactly | app/instagram.py:486-553 | After any further requests a comment is answered exactly when at its first delivery it was routed to a product, sending was enabled and Meta accepted the reply |
| InstagramWebhook.CommentRowsExactly | app/instagram.py:486-553 | What the rows of a comment say for good after its first delivery, whatever follows, and how it is counted: the public reply is attempted exactly when the private one was accepted or sending is off |
| InstagramWebhook.MessageAnsweredExactly | app/instagram.py:418-484 | What the row of a message says for good after its first delivery, unless its reply awaits a retry, and how it is counted |
| InstagramWebhook.RetryAnswersExactly | app/instagram.py:418-440 | A stored reply is tried again at each redelivery until it is sent or sending is off; then its row stays |
| InstagramWebhook.RequestsKeepSettled | app/instagram.py:418-553 | No further request, whatever it contains, changes the rows of such an item |
| InstagramWebhook.RedeliveryIsDuplicate | app/instagram.py:418-430 | From then on, after any further requests, a redelivery of the item is a duplicate that changes nothing; only a stored reply that could not be sent is tried again |
| InstagramWebhook.ValidIsSafe | app/instagram.py:396-553 | Requests that do not overlap record at most one successful send per message, besides the limits of the machine |
| TelegramPolling.TelegramPoller.DeliverResponse | app/telegram.py:183-210 | The row after a send, and which exceptions pass through |
| TelegramPolling.TelegramPoller.ProcessPayload | app/telegram.py:213-286 | The row one update leaves behind and whether the poller may move on; at most one chat run and one recorded send per update |
| TelegramPolling.TelegramPoller.PollOnce | app/telegram_polling.py:31-46 | One round: the offset passes exactly the settled prefix of the batch, the first update that fails ends it, and only the rows of the updates looked at change |
| TelegramPolling.NextKeepsSound | app/telegram_polling.py:31-46 | After every round each private text below the offset has its one row and nothing left to retry |
| TelegramPolling.NextMovesForward | app/telegram_polling.py:44 | The offset never moves back |
| TelegramPolling.RoundKeepsRow | app/telegram.py:230-241 | A settled row never changes again, and a message is given up at its first contact or never |
| TelegramPolling.FirstContactDecides | app/telegram.py:262-284 | In every run the first contact decides for good whether a message is given up: exactly when the chat run raised, or its empty reply could not be sent |
| TelegramPolling.UnansweredExactly | app/telegram_polling.py:31-46 | So a private text below the offset is unanswered exactly in that case |
| TelegramPolling.AnswerFollowsRounds | app/telegram.py:213-286 | In every run the row of a message keeps the reply of its first contact and is sent exactly once some round since then delivered it; an empty reply has only the first |
| TelegramPolling.ChatErrorIsPassedOver | app/telegram_polling.py:40-44 | The shortest such run: the round that announces a retry, and the round that moves past the message |
| CatalogText.NormalizeIdempotent | app/catalog_text.py:9-25 | Normalizing twice is normalizing once |
| CatalogText.NormalizeIsNormal | app/catalog_text.py:9-25 | The result is folded, with single inner spaces and none at the ends |
| CatalogText.NormalizeStrip | app/catalog_text.py:9-25 | Surrounding blanks do not matter |
| CatalogText.NormalizeIsJoin | app/catalog_text.py:9-25 | The normal form of a text is the words of its folded characters with one space between them |
| CatalogText.ContainsIsReflexive | app/catalog_text.py:28-35 | A phrase contains itself |
| CatalogText.ContainsIsAntisymmetric | app/catalog_text.py:28-35 | Phrases that contain each other are equal |
| CatalogText.ContainsIsTransitive | app/catalog_text.py:28-35 | Containment is transitive, word boundaries included |
| CatalogText.ContainsIsWordsInARow | app/catalog_text.py:28-35 | Between normal forms of words and blanks, containing a phrase is having its words in a row: no word is found inside another |
| CatalogAliases.BuildAliases | app/catalog_training.py:137-174 | The loops compute the stable sort of all candidates without later duplicates |
| CatalogAliases.BuildIsBest | app/catalog_training.py:170-174 | The list holds, in order, the best candidate of every normal form: lowest priority number, then earliest |
| CatalogAliases.BestIsUnique | app/catalog_training.py:170-174 | There is only one such list |
| CatalogAliases.AliasesExactly | app/catalog_training.py:76-174 | Every alias comes from the name, a keyword, an entry of the list or a derived variant, with that source's priority and approval; every source is represented by an alias of its normal form with no greater priority number |
| CatalogAliases.AliasesWellMade | app/catalog_training.py:76-93 | Every alias is stripped, carries its own normal form, and no two share one |
| CatalogAliases.BuildAliasesIdempotent | app/catalog_training.py:137-174 | Handing the list back as the product's aliases gives the same list, order included |
| CatalogAliases.CanonicalNameWins | app/catalog_training.py:137-174 | The canonical name stays an approved alias unless the client lists its normal form under a better priority |
| CatalogAliases.CanonicalNameApproved | app/catalog_training.py:137-174 | A product's own name is among its approved aliases exactly when no disapproved entry of a better priority overrides it |
| CatalogAnalysis.AnalyzeCatalog | app/catalog_training.py:196-290 | The proposal, and exactly the blocking warnings: products without an alias, normal forms approved under two client ids, repeated knowledge titles |
| CatalogAnalysis.AnalyzeProducts | app/catalog_training.py:205-245 | The product loop, and the table of who claims each normal form |
| CatalogAnalysis.AnalyzeKnowledge | app/catalog_training.py:261-287 | The knowledge loop, and which entries repeat an earlier one |
| CatalogAnalysis.ManyOwnersConflict | app/catalog_training.py:247-250 | More than one owner means two products with different keys that claim the form |
| CatalogAnalysis.KeyAgain | app/catalog_training.py:177-184 | Keying a keyed product again keeps the key exactly when the cut at 100 characters left no blank at its end |
| CatalogAnalysis.CleanKeywordsExactly | app/catalog_training.py:208 | The keywords kept are the stripped ones that are not empty |
| CatalogAnalysis.ReanalysisReproduces | app/catalog_training.py:196-290 | Analysing a stored proposal gives the same proposal exactly when every client id was cut cleanly |
| CatalogAnalysis.SchemaKeepsKeys | app/admin_schemas.py:4-6 | Client ids within the limit of the admin schema are never cut |
| CatalogAnalysis.ReanalysisBlocksTheSame | app/catalog_training.py:367-370 | So for every payload the schema lets through, publishing sees the draft's own proposal and warnings, and blocks exactly when they did |
| CatalogPublication.FiledUnderFirst | app/catalog_training.py:394-412 | Every product is filed under the category as the first product of its normal form spells it |
| CatalogPublication.SharedCategory | app/catalog_training.py:394-412 | Two products share a category row exactly when their categories have one normal form |
| CatalogPublication.PlaceProducts | app/catalog_training.py:394-464 | The loop, with its table of categories, writes exactly these rows and products, or fails exactly when two rows would share a key or a product |
| CatalogPublication.Publisher.CreateDraft | app/catalog_training.py:293-320 | A new draft in review with its proposal and warnings |
| CatalogPublication.Publisher.UpdateDraft | app/catalog_training.py:323-349 | Replaces the proposal of an unpublished draft only |
| CatalogPublication.Publisher.LargestNumber | app/catalog_training.py:377-384 | The maximal version number of a store is the number of its versions |
| CatalogPublication.Publisher.PublishDraft | app/catalog_training.py:356-500 | Every outcome of publishing; the missing-store error cannot occur; what the rows carry is `PublishedRowsCarryAliases`, and when it succeeds `PublishesExactly` |
| CatalogPublication.Publisher.LoadCatalog | app/catalog_runtime.py:34-72 | A store answers from the version published last for it |
| CatalogPublication.NextKeepsSound | app/catalog_training.py:293-500 | Every event keeps the invariant of numbers, published drafts, active versions and sound rows |
| CatalogPublication.RunProgresses | app/catalog_training.py:356-500 | Over any run versions are only appended and published drafts never change |
| CatalogPublication.PublishingTwiceAddsNothing | app/catalog_training.py:364-365 | Publishing a published draft, however late, returns the same version and changes nothing |
| CatalogPublication.NumbersHaveNoGaps | app/catalog_training.py:377-384 | The version numbers of a store are exactly 1 to n |
| CatalogPublication.ActiveVersionIsLatest | app/catalog_runtime.py:34-57 | The active version is the one published last for the store, and the ownership check never refuses it |
| CatalogPublication.CarriedKeyKeepsProduct | app/catalog_training.py:395-423 | A key of the active version published again without an explicit product keeps its product |
| CatalogPublication.NewRowsSound | app/catalog_training.py:367-464 | A version that passes has distinct keys and products, and no two products share an approved alias |
| CatalogPublication.SoundRowsAreUnambiguous | app/catalog_runtime.py:105-140 | With canonical names approved, what publishing guarantees is what the resolver needs |
| CatalogPublication.PublishedAliasResolves | app/catalog_runtime.py:105-183 | In any reachable state a message that is a term of a product, of the strongest matching priority, resolves to it alone, unless it names the stored category of another strongest match and not this product's |
| CatalogPublication.PublishDecidesAsDrafted | app/catalog_training.py:367-370 | In every run publishing a draft is blocked exactly when the analysis of the payload it was last drafted from was, whatever else happened in between |
| CatalogPublication.MustBlockExactly | app/catalog_training.py:196-290 | What blocks, in terms of the payload: a product without an alias, approved aliases of one normal form under two keys, two entries of one kind and title |
| CatalogPublication.PublishesExactly | app/catalog_training.py:394-464 | A draft that is not blocked and whose explicit product ids exist is published exactly when its keys differ and no two of its products ask for the same one |
| CatalogPublication.PublishedProductExactly | app/catalog_training.py:413-430 | The product of each published row is the known one it asks for, by id or by its key in the active version, or else a new one |
| CatalogPublication.PublishingRenames | app/catalog_training.py:417-430 | Publishing gives the products of its rows the rows' names and leaves all others as they are |
| CatalogPublication.PublishedRowsCarryAliases | app/catalog_training.py:404-463 | In every run row i of a published draft carries exactly the approved aliases of product i of the payload it was drafted from, and that product's key and name |
| CatalogPublication.PublishedAliasIsHit | app/catalog_runtime.py:113-137 | So in every run a message that contains an approved alias of a published product hits that product in the loaded catalogue, at the alias's priority or better |
| CatalogPublication.PublishedNameIsHit | app/catalog_runtime.py:113-137 | A message that contains the product's own name hits it at priority 10, also when the name is not approved |
| CatalogPublication.PublishedNamesApproved | app/catalog_training.py:137-174 | In every run a published catalogue approves all its own product names exactly when no product of the payload had its name overridden by a disapproved entry |
| CatalogPublication.PublishedCategoryIsShared | app/catalog_runtime.py:139-146 | In every run a published product answers to its category as the first product of the payload with that normal form spells it |
| CatalogPublication.OtherSpellingAnswers | app/catalog_runtime.py:139-146 | A product in category "a b" answers to "b" once an earlier product spells that category "a/b" |
| CatalogPublication.PublishedPayloadResolves | app/catalog_runtime.py:105-183 | From the payload to the customer: then the resolver answers a term of a product as stated for the active version, with no assumption on the stored rows |
| CatalogRuntime.Scan | app/catalog_runtime.py:113-145 | The loop over the catalogue collects exactly the term hits and category matches |
| CatalogRuntime.StrongestHits | app/catalog_runtime.py:147-151 | The hits of the best priority |
| CatalogRuntime.DominantAliasProduct | app/catalog_runtime.py:94-102 | The one product with an alias that contains every competing alias, if there is exactly one |
| CatalogRuntime.ResolveProduct | app/catalog_runtime.py:105-201 | The whole decision: narrowing by category, then by dominance, then the candidates in catalogue order; `ResolveExactly` states it through containment |
| CatalogRuntime.ResolveExactly | app/catalog_runtime.py:105-201 | The answer to every message, through containment on normal forms: the products of the terms of best priority that occur, narrowed to a named category and then to the term that contains all others; without a term, the products of the named categories; each once, in catalogue order, ambiguous exactly when there are several |
| CatalogRuntime.OneStrongProductResolves | app/catalog_runtime.py:147-183 | When terms occur anywhere in a message and those of best priority belong to one product, the answer is that product alone |
| CatalogRuntime.CategoriesAnswer | app/catalog_runtime.py:185-199 | When no term occurs the candidates are exactly the products of the named categories |
| CatalogRuntime.NothingExactly | app/catalog_runtime.py:201 | Nothing is offered exactly when neither a term nor a category occurs |
| CatalogRuntime.CandidatesAreNamed | app/catalog_runtime.py:147-199 | Every candidate has a strongest term that occurs or, when no term does, a category that does |
| CatalogRuntime.SplitExactly | app/catalog_runtime.py:140-141 | The parts of a category are free of slashes, and with slashes between them give its name back |
| CatalogRuntime.AtMostOneDominates | app/catalog_runtime.py:94-102 | In an unambiguous catalogue two dominating aliases belong to one product |
| CatalogRuntime.ExactAliasResolves | app/catalog_runtime.py:146-183 | An exact alias of the strongest priority resolves to its product, if and only if the category narrowing does not remove it |
| ContentPublishing.TakeUnique | app/content_generation.py:73-85 | The first values of distinct normal form, up to the limit |
| ContentPublishing.CleanHashtagsIdempotent | app/content_generation.py:184-189 | Saving saved hashtags changes nothing |
| ContentPublishing.UniqueKeepsFirst | app/content_generation.py:73-85 | Of the values with one normal form the first is kept, stripped |
| ContentPublishing.SentCaptionFits | app/instagram_publishing.py:200-204 | The sent caption keeps to the limit exactly when the hashtags alone do |
| ContentPublishing.SentCaptionIsCut | app/instagram_publishing.py:200-204 | It is exactly as much of the approved caption as fits, followed by all the hashtags |
| ContentPublishing.LongHashtagsOverflow | app/instagram_publishing.py:200-204 | A run in which 22 distinct hashtags of at most 100 characters are saved, approved and sent in a caption longer than the limit |
| ContentPublishing.ContentStudio.CreateDraft | app/content_generation.py:139-165 | A first revision in draft, or a refusal |
| ContentPublishing.ContentStudio.UpdateDraft | app/content_generation.py:168-196 | Edits raise the revision and withdraw the approval; frozen or stale drafts are refused |
| ContentPublishing.ContentStudio.ApproveDraft | app/content_generation.py:199-212 | Approves the expected revision of unchanged product data |
| ContentPublishing.ContentStudio.PublishDraft | app/instagram_publishing.py:120-247 | Every outcome of a publish call; the lost-record error cannot occur |
| ContentPublishing.ContentStudio.RunJob | app/instagram_publishing.py:157-209 | The job is reused or queued, the attempt counted and committed before the call |
| ContentPublishing.ContentStudio.AwaitPublisher | app/instagram_publishing.py:205-247 | What each answer of the publisher commits |
| ContentPublishing.StepKeepsSound | app/instagram_publishing.py:192-233 | The attempt count is the number of attempts, and draft and job are published together with a mapped media id |
| ContentPublishing.DraftFollowsItsEvents | app/instagram_publishing.py:120-247 | In every run each draft, its job and its attempts are what the events that name it make of them, whatever happens to the others |
| ContentPublishing.MappingGrowsByPublishing | app/instagram_publishing.py:214-228 | The media mapping only grows, by the publication of a draft, which maps its media id to its product |
| ContentPublishing.PublishingMapsProduct | app/instagram_publishing.py:210-233 | The step that publishes leaves the media id mapped to the draft's product exactly when it was not mapped to another one before |
| ContentPublishing.GuardsNeverFire | app/instagram_publishing.py:136-190 | A published draft has its job; an unpublished one has no media id |
| ContentPublishing.ReadySignsUnlessPlaceholder | app/media_storage.py:216-228 | Settings that pass the readiness check sign the image URL exactly when the secret is not the placeholder |
| ContentPublishing.CallsExactly | app/instagram_publishing.py:192-209 | A publish call reaches the publisher exactly by an attempt without the placeholder secret, and with the draft's own post |
| ContentPublishing.AttemptsAreCalls | app/instagram_publishing.py:192-209 | In every run the attempt count of a job is the number of its publisher calls exactly when no attempt was made with the placeholder secret |
| ContentPublishing.PlaceholderCountsWithoutCall | app/instagram_publishing.py:96-107 | A run with the example settings, ready by the check, that counts an attempt and calls nobody |
| ContentPublishing.PublishedIsFrozen | app/instagram_publishing.py:136-144 | Once published, content, job and media id never change and the publisher is never called again |
| ContentPublishing.SentContentWasApproved | app/instagram_publishing.py:134-209 | Every caption sent is built from the revision approved last, unchanged since, with the module enabled and the product data as generated |
| ContentPublishing.RetryNeedsApproval | app/instagram_publishing.py:234-241 | After a call that timed out or ended in an escaped exception there is no further call before a new approval |
| ContentPublishing.ErrorAllowsRetry | app/instagram_publishing.py:242-247 | After a handled error the next publish call sends the same post again without one |
| ContentPublishing.ReapprovalSendsAgain | app/content_generation.py:199-212 | A new approval is enough for a second call |
| Authorization.AccessService.Decide | app/authz/service.py:23-68 | The decision and its reason, in the order of the checks |
| Authorization.AccessService.EffectivePermissions | app/authz/service.py:86-101 | The loop returns exactly the catalogued codes that are allowed |
| Authorization.EffectiveExactly | app/authz/repository.py:23-72 | What gives a permission, down to the rows: a bootstrap role or an active assignment of a role of the right scope that carries it, in a tenant with an active membership and a session bound nowhere else |
| Authorization.RefusalsExactly | app/authz/service.py:23-68 | Why a check refuses, case by case, and that it refuses exactly what is not effective |
| Authorization.AssignersExactly | app/authz/access.py:154-169 | After any run an actor may assign exactly with the platform permission from a bootstrap or last-assigned role, or with members management earned in that tenant while its membership is active and its session bound nowhere else |
| Authorization.AuthorityHasRoot | app/authz/access.py:87-169 | Before any role is assigned or revoked an actor with a bootstrap role has done so: without one every mutation fails |
| Authorization.AccessService.MutateRole | app/authz/access.py:87-152 | Every outcome of an assignment or revocation |
| Authorization.AccessService.WriteAssignment | app/authz/access.py:171-245 | The rows written, and the rollback that keeps the tables on failure |
| Authorization.AccessService.AddTenantMembership | app/authentication/service.py:480-516 | A new membership, or a conflict with an existing one |
| Authorization.AccessService.SetMembershipEnabled | app/authentication/service.py:518-544 | Suspends or enables the user's membership |
| Authorization.HeldRolesFollowHistory | app/authz/access.py:171-245 | After any run a role is held exactly when its last successful mutation assigned it |
| Authorization.MutationSucceedsExactly | app/authz/access.py:87-152 | In every run when a role is assigned or revoked; it reports a change exactly when the role was not as asked before |
| Authorization.AuditsFollowHistory | app/authz/access.py:120-152 | In every run the audit rows are those of the successful mutations, in order |
| Authorization.StandingFollowsHistory | app/authentication/service.py:480-544 | In every run a membership exists, is active or is suspended exactly as its history says |
| Authorization.EffectiveFollowsHistory | app/authz/service.py:23-101 | After any run the effective permissions are exactly the catalogued ones of bootstrap or last-assigned roles of the right scope, in a tenant only while membership is active and the session bound nowhere else |
| Authorization.SuspensionFreezesRoles | app/authz/access.py:223-224 | No role of a suspended membership can be assigned or revoked |
| Authorization.EnablingRestores | app/authentication/service.py:518-544 | Suspending and later enabling restores exactly the permissions held before |
| Authorization.MembershipFollowsHistory | app/authentication/service.py:480-516 | A user's membership exists once the user was added or given a role there, and carries the user's id exactly when it was added |
| Authorization.MembershipInReachExactly | app/authentication/service.py:518-544 | After any run suspending and enabling work exactly when the user was added, and adding exactly when neither that nor a role assignment there came before |
| Authorization.RoleMadeMembershipIsOutOfReach | app/authz/access.py:212-222 | A run from the empty tables: a role assigned first makes adding the user a conflict and suspending find nothing |
| Revisions.RevisionService.WriteSwitch | app/automation/service.py:44-79 | The conditional update of a switch with its audit row, or a stale revision; the value is the one asked for (`SwitchFollowsRequests`) |
| Revisions.RevisionService.WriteRule | app/automation_rules/service.py:143-153 | The conditional update of a rule with its audit row, or a stale revision |
| Revisions.RevisionService.FinishRequest | app/automation_rules/service.py:117-167 | The write of what a client has checked, whatever happened in between |
| Revisions.RevisionCountsUpdates | app/automation/service.py:44-60 | Under any interleaving a revision is its initial value plus the successful writes |
| Revisions.NoTwoWritesExpectTheSame | app/ai_assistant/service.py:53-65 | No two successful writes of a stream expect the same revision |
| Revisions.AuditFollowsRow | app/ai_assistant/service.py:66-73 | Audit revisions are consecutive up to the current one, and the switch has the value of its last audit row |
| Revisions.SwitchFollowsRequests | app/automation/service.py:44-60 | In every run a switch has the value asked for by its last written request, and its initial value before the first |
| Revisions.RulesFollowRequests | app/automation_rules/service.py:117-167 | In every run the stored rules are, field by field, those that the written requests make |
| Revisions.AuditsFollowRequests | app/automation/service.py:61-78 | In every run the audit rows of a target are those of its written requests, with the value each asked for |
| Revisions.CheckedExactly | app/automation_rules/service.py:91-142 | When a request passes its check, from the rows it reads |
| Revisions.WrittenExactly | app/automation_rules/service.py:117-167 | In every run a checked request is written exactly when its target is still at the revision it was checked at |
| Revisions.RulesStayCompatible | app/automation_rules/service.py:62-66 | Every stored rule has an action that fits its trigger, although clients check against what they read earlier |
| Revisions.SwitchesCommute | app/automation/service.py:39-81 | Steps of two clients on the automation and the assistant switch commute, replies included |
| Revisions.GrowthCountsRules | app/automation_rules/service.py:105-107 | The number of a store's rules changes exactly by the creations and deletions written |
| Revisions.CreationKeepsLimit | app/automation_rules/service.py:91-123 | In every run a creation leaves its store within the limit exactly when the rules counted at its check and those added since leave room; so it always does when none were added in between |
| Revisions.OverlappingCreatesExceedLimit | app/automation_rules/service.py:105-121 | A run in which two overlapping creations leave two rules in a store with a limit of one |
| Revisions.DeletionTakesEffect | app/automation_rules/service.py:156-167 | In every run a deletion is answered and audited whatever it finds, and its rule survives exactly when it is still there and was updated since the check |
| Revisions.DeletionIsLost | app/automation_rules/service.py:156-167 | A run in which a deleted rule survives |
| JpegScanner.JpegDimensions | app/media_storage.py:53-85 | The nested loops terminate inside the buffer and compute the scan |
| JpegScanner.DimensionsInvertEncoding | app/media_storage.py:53-85 | A file with the right ends has a size exactly when it is an encoding (stray bytes, bare markers, segments) up to a frame header with that size |
| JpegScanner.EncoderOutputIsRead | app/media_storage.py:53-85 | The output of an encoder, fill bytes included, is accepted and its frame's size returned |
| JpegScanner.ScanAcceptsEncodings | app/media_storage.py:58-84 | Whatever is accepted can be read back into items, a frame and a tail |
| Dotenv.UpdateDotenv | app/instagram_setup.py:78-92 | The two loops, the join and the stripping |
| Dotenv.OutputValues | app/instagram_setup.py:78-91 | Each updated key is on exactly one line with its new value; every other key keeps all its values |
| Dotenv.UpdateKeepsOtherLines | app/instagram_setup.py:78-92 | All other lines stay, in order, up to white space at the end of the file |
| Dotenv.UpdatedLines | app/instagram_setup.py:92 | The lines of the new text are the output lines, trimmed at the end |
| Dotenv.UpdatedValues | app/instagram_setup.py:78-92 | The values read back are exactly the new and the old ones, but for white space at the end of the value on the last line that is not blank |
| Dotenv.UpdatesCompose | app/instagram_setup.py:78-92 | After two updates a key has exactly the second value, else the first, else its original ones, unless its value ends in white space and was on such a last line |
| Dotenv.UpdateIdempotent | app/instagram_setup.py:78-92 | Updating twice with the same values is updating once |
| Dotenv.TrailingBlankIsLost | app/instagram_setup.py:92 | In any file, white space at the end of a new value that comes last is lost |
| MigrationGraph.ValidateGraph | tools/migration_policy.py:357-472 | The loops report exactly the issues that hold, and none exactly when the revisions form one chain |
| MigrationGraph.CleanIsChain | tools/migration_policy.py:384-472 | No issue means: some order of the revisions links each to the one before, numbers consecutive, no labels or dependencies |
| MigrationGraph.OrderedCheckImpliesGraphChecks | tools/migration_policy.py:429-461 | With unique ids the ordered-chain check implies the merge, missing-down, root-count, branch and head-count checks |
| MigrationGraph.WalkVisitsEachOnce | tools/migration_policy.py:442-446 | Then walking down from the head ends and visits every revision exactly once |

## Left out

- HTTP routes, cookies, middleware, schemas beyond the limits quoted above, static pages and logging.
- Meta, Telegram and image-hosting clients: each call is an arbitrary outcome. The extraction of items from webhook JSON.
- Argon2, SHA-256 and token generation: arbitrary functions, the token digest injective where tokens are looked up. The rehash of an outdated password hash is an argument.
- Time zones: naive datetimes are compared as the code's `comparable` reads them, as one integer clock.
- Password comparisons by `change_password`, which the code neither counts nor limits.
- `normalize_email`, request metadata, `last_seen_at` and the audit rows of the identity service, which no decision reads.
- Unicode normalization and regular expressions: one mapping per character and two character classes. `_generated_product_aliases`, `infer_category` and the digest-based product key are arbitrary functions of what they read.
- Descriptions, prices, availability and knowledge keywords of catalogue products, which publishing copies unchanged; content hashes; the order and the wording of warnings.
- CatalogRuntime.ResolveProduct: does not return `matched_terms`, which no decision reads.
- `find_knowledge_answer` and `list_products`.
- ContentPublishing.ContentStudio.CreateDraft: the generated copy and the ownership of product and image are arguments; the draft is created with any copy.
- Authentication.AuthenticationService.CreateUser: the refusals of a blank or long display name and of service accounts, which come before everything else and change nothing, are not modelled.
- InstagramWebhook.InstagramWebhook.ReceiveWebhook: the signature check and the parsing of the JSON body, which come before the loops and touch no table, are not modelled.
- TelegramPolling.TelegramPoller.DeliverResponse: the branch with sending disabled is not modelled, because polling refuses to start then (app/telegram_polling.py, lines 20-21).
- CatalogText.NormalizeIdempotent: Unicode normalization is one mapping per character, so expansion and composition of characters are not modelled.
- CatalogText.NormalizeIsNormal: the same.
- CatalogText.NormalizeStrip: the same.
- Overlapping publish calls on one draft or of one store, and the integrity errors they can raise at commit; a crash of the poller between two commits.
- The reply engine `process_chat`: one committed step that answers or raises.
- The legacy query `effective_subscription`, price and marketplace views, and `list_sessions`.
- Memberships written by tenant management and commerce, and the other states a membership can have there.
- The token and request quotas of the assistant. Identifiers of new rules are random; the model takes them as never used before.
- File names, revision-id syntax and the statement checks on migration files; the graph is checked on well-formed ids. Alembic itself.
- Saving, deleting and signing media.
