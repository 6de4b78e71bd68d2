# Verified model of mychatter's servers

mychatter is a chat system of several C++ servers. This project models the parts of ChatServer, ResourceServer and GateServer whose guarantees span many functions, threads and two processes, and proves those guarantees in Dafny.

| file | what it models |
|---|---|
| `UploadFile.dfy` | the `.part` file of an upload as an object: chunk writes, truncation, recovery, with every disk fault a parameter |
| `UploadRuns.dfy` | the life of one upload: chunks, torn writes, evictions, crashes, reloads, whole-file hash, copy-back |
| `CasProtocol.dfy`, `CasLinks.dfy`, `CasSafety.dfy` | uploads, instant proofs, publication, garbage collection and crashes side by side on the content-addressed store; part and blob as two names of one file |
| `CasProgress.dfy` | that every run can be continued without a fault until an upload or a proof is published and an orphan collected |
| `CasExample.dfy` | a run that loses published content |
| `Completion.dfy` | the worker code that takes chunks, installs the blob, publishes, repairs the part file, and the ways of an honest and of a mistaken client |
| `Store.dfy`, `EventLog.dfy`, `Replies.dfy`, `FriendGraph.dfy` | the shared MySQL tables, every transaction of both servers, and what all histories keep |
| `Outcomes.dfy` | which answer each transaction gives when, and what it writes, said of the tables alone |
| `Dao.dfy` | both `MysqlDao.cpp` as an object that issues the statements, rolls back and retries |
| `Sync.dfy` | incremental synchronisation over the event log |
| `PresenceProgress.dfy` | whom a kick drains, and that logins and clean-ups reach their end |
| `Presence.dfy`, `PresenceExample.dfy`, `Lifecycle.dfy` | logins, kicks, closes and delayed clean-ups of one user on many servers, and a run in which a late kick hits the newest session; session states, user table, Redis lock |
| `SendQueue.dfy` | the outgoing queues, send budget and task quota of both kinds of session |
| `Executors.dfy`, `ExecutorsProgress.dfy` | task queues, the bounded pool, and the shutdown order of the two worker layers, which always comes to its end |
| `Download.dfy` | permission cache, file handles and chunked download |
| `CleanupScan.dfy` | the keyset scan that expires abandoned uploads |
| `Base64.dfy`, `Wire.dfy` | the codecs |

`dafny verify dfyconfig.toml` checks the whole project.

## How to read it

- Code that interleaves is a state machine: a state, one predicate per kind of step, an invariant that every step keeps, and theorems about every state of every run. A step is one system call, one section under a mutex, or one transaction.
- Beside the safety theorems stand continuations: from every state of every run with the stated premises there is a longer run, of fault-free steps, that reaches the promised state. They say what the steps achieve, not that a scheduler takes them.
- Code that changes things in place is a class whose methods follow the source statement by statement. The methods of `UploadFile`, `Dao`, `Executors` and the session, chunk and hash methods of `Completion` are proved against the step or the transaction function they stand for; the others state what they promise to their callers.
- SHA-256 is any function from bytes to digests. No theorem assumes that it is injective. Where a client's own file has to be recognised in the store, the assumption is spelled out (`Completion.Upload.Honest`).
- Disk, database and network faults are parameters. A commit may take effect and still be reported as failed. A rename may take effect and still be reported as failed.
- Transactions are serializable, and rows of `chat_messages` are never deleted.
- `acked`, `posted`, `written` and similar fields record what happened. They never influence a transition.

## Findings

- server/ResourceServer/src/ResourceUploadFile.cpp:300-317: a blob is installed by `link` followed by `unlink`. When the process dies between the two, or the unlink fails, the part file and the blob stay one file. Rebuilding the upload's session then truncates the blob, also when another message has been published with it meanwhile (`CasExample.ReloadDestroysPublishedContent`). Bytes in the store are kept if and only if no truncation or write hits a part that is still linked (`CasLinks.ContentIsKeptIff`), and the safety theorems hold up to the first such hit. Restarting after a whole-file mismatch removes the part's name and edits nothing.
- server/ResourceServer/src/FileWorker.cpp:497-512: the restore compares only lengths before it copies a blob over the part file. Up to the first such hit this is enough (`CasSafety.CopyBackIsTrusted`).
- server/ResourceServer/src/FileWorker.cpp:513-527: after a roll-back the server reports the length of the truncated file, but the reload that follows gives up one more chunk, so the chunk at the reported offset is refused (`Completion.ReportedOffsetIsRefused`). It is accepted if and only if the offset is zero, the session survived, or the message is already published (`Completion.Upload.SendAtReported`). A client that goes back to the offset of the refusal still gets published (`Completion.Upload.ResumeFromReported`).
- server/ChatServer/src/ChatServiceImpl.cpp:49-69: a kick for a session on another server is a queued task that looks its target up when it runs. It can drain the newest session (`PresenceExample.LateKickDrainsTheNewest`). It finds the session it was meant for if and only if no login has listed itself on that server and that session has not been unlisted in between (`Presence.LateKickFindsIff`).
- server/ResourceServer/src/base64.cpp:131-156: `base64_encode` counts in a 32-bit `pos`. Its loop ends if and only if the input is shorter than 2^32 bytes (`Base64.EncodeHaltsIff`).
- server/ResourceServer/src/ResourceUploadFile.cpp:302-305: a comment says that an existing blob is trusted content. The caller does not rely on it and checks length and hash again (server/ResourceServer/src/FileWorker.cpp:556-585); the model follows the code.
- server/ResourceServer/src/MysqlDao.cpp:235-251: `MarkResourceFailed` reports failure for a row that is already final, and the client of the third mismatch is then told that the message is still pending (`Completion.Upload.OnMismatch`).
- server/ChatServer/src/MysqlDao.cpp:672-683: a stored request is compared with the row, which keeps no text for a resource and no resource for a text. A request that carries such a field is stored and then conflicts with itself when it is sent again; every other request is answered as a duplicate with the same id (`Outcomes.ResendIsDuplicateIff`). The two callers never fill the field in (server/ChatServer/src/LogicSystem.cpp:626-634 and 1128-1141).
- server/ResourceServer/src/FileWorker.cpp:1075-1082: a download cache entry lets a null session in once the session it remembers is gone. For every real session the cache answers like the database (`Download.DownloadWorker.ResolvePublished`).

## Model

| member | source | states |
|---|---|---|
| UploadFile.PartFile.Truncate | server/ResourceServer/src/ResourceUploadFile.cpp:111-124 | discards what follows the offset, never extends the file, never touches the prefix; when exactly it fails |
| UploadFile.PartFile.Recover | server/ResourceServer/src/ResourceUploadFile.cpp:126-138 | resumes at the last chunk boundary the length can prove and keeps exactly that prefix; a failure changes nothing |
| UploadFile.PartFile.WriteAndVerify | server/ResourceServer/src/ResourceUploadFile.cpp:50-70 | the bytes end up at the offset and everything before it is kept; a torn write leaves what reached the disk |
| UploadFile.PartFile.WriteUploadChunk | server/ResourceServer/src/ResourceUploadFile.cpp:140-179 | each of the rejection, duplicate and append outcomes with file, confirmed offset and code; a rejection carries the code of the first guard it fails; failures keep the confirmed prefix |
| UploadFile.ResumeOffsetBounds | server/ResourceServer/src/ResourceUploadFile.cpp:126-138 | the resume offset is a chunk multiple strictly below the end of a non-empty file and at most one chunk below it |
| UploadFile.IsValidSha256Hex | server/common/src/Sha256.cpp:75-86 | accepts exactly the strings of 64 characters from 0123456789abcdef |
| UploadRuns.StepKeepsInv | server/ResourceServer/src/FileWorker.cpp:234-386 | every event keeps file, session, streaming hash and vouched content in step |
| UploadRuns.ConfirmedOffsetIsBacked | server/ResourceServer/src/ResourceUploadFile.cpp:126-179 | in every run in which nobody takes the file away, with chunks, duplicates, torn writes, evictions, crashes, restarts and repairs: confirmed offset <= file length <= declared size, and the offset is a chunk multiple or the end |
| UploadRuns.ReloadTrustsOnlyConfirmedBytes | server/ResourceServer/src/FileWorker.cpp:234-257 | a reload resumes aligned, at or below the last confirmed offset, gives up at most one chunk of the file and keeps confirmed bytes only |
| UploadRuns.StreamingHashAgrees | server/ResourceServer/src/FileWorker.cpp:354-430 | in every state of every run the incremental hash has absorbed exactly the confirmed prefix and a cached digest is the hash of the whole file |
| UploadRuns.DifferingChunkIsReplaced | server/ResourceServer/src/ResourceUploadFile.cpp:156-178 | a repeated chunk that differs from the disk is refused, the upload goes back to its start keeping everything before it, and the same chunk is then taken |
| UploadRuns.SessionIsLost | server/ResourceServer/src/FileWorker.cpp:513-527 | an eviction, a crash inside a write and a roll-back end the session and leave every byte that was confirmed and is not taken back |
| UploadRuns.RewritesIff | server/ResourceServer/src/ResourceUploadFile.cpp:111-179 | the guards under which recovery, a repeated chunk or a write changes the bytes of an existing file, both ways |
| CasLinks.StepKeepsBase | server/ResourceServer/src/ResourceUploadFile.cpp:297-318 | in every interleaving a linked part and its blob are the same bytes, and no two parts share a blob |
| CasLinks.BlobIsRewrittenIff | server/ResourceServer/src/ResourceUploadFile.cpp:111-179 | a step changes the bytes of a blob if and only if it truncates or overwrites a part still linked to it; only the cleaner removes a blob |
| CasLinks.ContentIsKeptIff | server/ResourceServer/src/ResourceUploadFile.cpp:297-318 | over every run: the bytes in the store are kept if and only if no truncation or write hits a linked part |
| CasExample.ReloadDestroysPublishedContent | server/ResourceServer/src/FileWorker.cpp:234-257 | a run in which a crash between link and unlink and a later reload leave a published message with a blob that is too short |
| CasSafety.StepKeepsInv | server/ResourceServer/src/FileWorker.cpp:392-847 | the protocol invariant survives every step of every worker, proof, cleaner, transaction and crash that does not edit a linked part |
| CasSafety.PublishedContentIsStored | server/ResourceServer/src/FileWorker.cpp:392-665 | in every interleaving up to the first hit on a linked part every blob hashes to its name and every published resource has its blob with exactly the declared size |
| CasSafety.PublishedContentIsForever | server/ResourceServer/src/ResourceServer.cpp:164-188 | once a resource is published, its bytes stay the same in every later state up to the first hit on a linked part |
| CasSafety.PublishedBlobChangesIff | server/ResourceServer/src/ResourceServer.cpp:164-188 | a published blob is never collected, and its bytes change in a step if and only if the step hits a part linked to it |
| CasSafety.CopyBackIsTrusted | server/ResourceServer/src/FileWorker.cpp:490-527 | up to the first hit, whenever a worker restores a part file, the blob it would copy matches the cached whole-file digest |
| CasSafety.InstallKeepsInv | server/ResourceServer/src/FileWorker.cpp:537-585 | link, unlink, sync failures and deduplication keep the invariant under the mutex |
| CasSafety.ProofKeepsInv | server/ResourceServer/src/FileWorker.cpp:667-847 | challenges and instant proofs, confirmed or not, keep the invariant |
| CasSafety.CleanKeepsInv | server/ResourceServer/src/ResourceServer.cpp:129-188 | removing stale parts and orphan blobs keeps the invariant |
| CasProgress.UploadGetsPublished | server/ResourceServer/src/FileWorker.cpp:271-665 | every run in which a message waits for a file, with its worker idle and the mutex free, evicted, half-way or complete, can be continued without a fault until the message is published, the store holds the file (added, or the sound blob it had), the part is gone and unlinked, and nothing else has changed |
| CasProgress.EveryFileCanBePublished | server/ResourceServer/src/FileWorker.cpp:271-665 | for every non-empty file and every hash there is a run from empty tables that ends with it published and stored |
| CasProgress.RestartedUploadGetsPublished | server/ResourceServer/src/FileWorker.cpp:234-665 | wherever workers, mutex and cleaner stand, after a process restart the upload can be completed |
| CasProgress.BrokenCompletionGetsRepaired | server/ResourceServer/src/FileWorker.cpp:490-527 | a completion that broke off with the blob stored can be continued until the whole part and the session are back and the mutex is free |
| CasProgress.GivingUpFailsTheRow | server/ResourceServer/src/FileWorker.cpp:446-457 | the give-up step fails this row, ends its session and changes neither the store nor any other row |
| CasProgress.UnconfirmedPublicationStands | server/ResourceServer/src/FileWorker.cpp:590-643 | a committed publication stands whether or not the worker learns of it; if not, the worker goes on to repair the part |
| CasProgress.ProofGetsPublished | server/ResourceServer/src/FileWorker.cpp:667-847 | every run in which the sender has published the same content and the store has it can be continued by a challenge and a proof until the message is published; the store is as before |
| CasProgress.OrphanGetsCollected | server/ResourceServer/src/ResourceServer.cpp:164-188 | a blob that no published message names can be collected, and only it and the links to it go |
| Completion.Upload.LoadUploadSession | server/ResourceServer/src/FileWorker.cpp:234-257 | is the reload step of the upload's life; the session is backed by the file and starts without mismatches; the store changes exactly when a non-empty linked part is reloaded |
| Completion.Upload.WriteChunk | server/ResourceServer/src/FileWorker.cpp:351-377 | is the chunk step of the upload's life, with the streaming hash kept or dropped |
| Completion.Upload.FullHash | server/ResourceServer/src/FileWorker.cpp:417-437 | whichever source it uses, the digest is the hash of the vouched content |
| Completion.Upload.OnMismatch | server/ResourceServer/src/FileWorker.cpp:438-472 | the first two mismatches start over from zero without the part, the third marks the row Failed, removes the part, ends the session and says Failed; a part that cannot be removed or a row that cannot be marked is answered as retryable; a row that is already final is answered as pending; the store is left as it is |
| Completion.Upload.StopUpload | server/ResourceServer/src/FileWorker.cpp:446-457 | a pending row that can be marked is Failed afterwards, with the session gone and the part removed unless that fails; otherwise nothing has changed but possibly an unconfirmed mark |
| Completion.Upload.RemovePart | server/ResourceServer/src/FileWorker.cpp:461-466 | unlinking the part's name leaves the store as every reader sees it unchanged |
| Completion.Upload.Install | server/ResourceServer/src/FileWorker.cpp:539-585 | never replaces a blob; success means the digest is stored with the declared size and the part is gone; a new digest is stored and linked exactly when unlinking fails; a lost part implies a stored blob |
| Completion.Upload.RestorePart | server/ResourceServer/src/FileWorker.cpp:490-527 | the offset it reports is backed by the file; only the roll-back of a linked part changes the store; the session is kept only with all bytes on disk |
| Completion.Upload.RollBackPart | server/ResourceServer/src/FileWorker.cpp:513-527 | the file is cut to a boundary it can prove, the session is gone, and the store changes exactly when a linked part is cut |
| Completion.Upload.CopyBlob | server/ResourceServer/src/FileWorker.cpp:497-512 | a full copy restores the whole file; a partial one leaves a prefix that recovery can trust |
| Completion.Upload.PublishRow | server/ResourceServer/src/FileWorker.cpp:590-643 | answers Published with the number of the event, Failed only for a failed row, or nothing when a call was transient |
| Completion.Upload.CompleteResourceUpload | server/ResourceServer/src/FileWorker.cpp:392-665 | a retryable reply reports an offset the server stands by and the file backs; Published and Failed are true of the tables; other blobs are kept; without faults an honest upload is published; a file with another hash gets the answer of OnMismatch and stores nothing |
| Completion.Upload.OpenSession | server/ResourceServer/src/FileWorker.cpp:298-339 | a cache miss is decided by the row: idempotent success for a published one, Failed for a failed one, refusal, or a rebuilt session for a pending one |
| Completion.Upload.StoreChunk | server/ResourceServer/src/FileWorker.cpp:351-377 | accepted or refused exactly by the frontier for the client's own chunk; the store changes exactly when a linked part is rewritten |
| Completion.Upload.TakeChunk | server/ResourceServer/src/FileWorker.cpp:351-386 | tables, store, backing and final status of one chunk; the client's own chunk is refused past the frontier, accepted before the end, and at the end published or answered as a mismatch |
| Completion.Upload.HandleResourceChunk | server/ResourceServer/src/FileWorker.cpp:271-386 | the same from any state, with or without a session; a chunk for a published or failed row says so; another user changes neither tables nor store |
| Completion.Upload.HandleUploadProgress | server/ResourceServer/src/ResourceLogicWorker.cpp:399-541 | reports the session's offset, the published event number or the failure, re-checked against the row |
| Completion.Upload.SendFrom | server/ResourceServer/src/FileWorker.cpp:271-386 | a client that starts at any chunk boundary, goes back when refused and on when accepted, ends Published with the event's number, whatever became of session and row |
| Completion.Upload.SendAtReported | server/ResourceServer/src/FileWorker.cpp:481-527 | the chunk for the offset of a retryable reply is accepted if and only if the offset is zero, the session survived or the message is published; a refusal names the offset one chunk earlier |
| Completion.Upload.ResumeFromReported | server/ResourceServer/src/FileWorker.cpp:481-643 | a failure-free round that begins at the reported offset ends Published with the number of the one event row |
| Completion.ReportedOffsetIsRefused | server/ResourceServer/src/FileWorker.cpp:513-527 | an upload of three chunks whose reported offset is refused after the reload |
| Completion.Upload.ResumeUpload | server/ResourceServer/src/FileWorker.cpp:481-643 | the same for a client that asks for the offset first |
| Completion.Upload.SendWrongFile | server/ResourceServer/src/FileWorker.cpp:438-472 | a client that sends a whole file with another hash ends in a mismatch, whatever the number of chunks |
| Completion.Upload.KeepSendingWrongFile | server/ResourceServer/src/FileWorker.cpp:438-472 | told to start over twice, then Failed at the third completion; row failed, part and session gone, store untouched |
| Completion.PublishAnswers | server/ResourceServer/src/MysqlDao.cpp:119-233 | for a resource row the transaction publishes, repeats the earlier number, or finds the row failed, and nothing else |
| EventLog.TransactionKeepsLog | server/ChatServer/src/MysqlDao.cpp:651-752 | every transaction of both servers, committed or rolled back, keeps the log invariants and undoes nothing |
| EventLog.HistoryKeepsLog | server/ChatServer/src/MysqlDao.cpp:115-152 | the log invariants hold after every history that starts from empty tables |
| EventLog.NumbersAreConsecutive | server/ChatServer/src/MysqlDao.cpp:115-152 | each user's events carry 1..last_event_seq once each; events and final statuses never change |
| EventLog.OneEventPerPublishedMessage | server/ResourceServer/src/MysqlDao.cpp:119-233 | a message has an event if and only if it is published; the event is unique and goes to the member of the chat who did not send it |
| EventLog.SaveKeepsLog | server/ChatServer/src/MysqlDao.cpp:651-752 | storing a message keeps the log |
| EventLog.PublishKeepsLog | server/ResourceServer/src/MysqlDao.cpp:119-233 | publishing a resource keeps the log |
| EventLog.ExpireKeepsLog | server/ResourceServer/src/MysqlDao.cpp:408-436 | expiring resources keeps the log |
| EventLog.ApplyKeepsLog | server/ChatServer/src/MysqlDao.cpp:273-380 | a friend request keeps the log |
| EventLog.AnswerKeepsLog | server/ChatServer/src/MysqlDao.cpp:382-477 | accepting or rejecting keeps the log |
| EventLog.CreateChatKeepsLog | server/ChatServer/src/MysqlDao.cpp:585-608 | creating a private chat keeps the log |
| Replies.ReplyDescribesTables | server/ChatServer/src/MysqlDao.cpp:651-752 | a success reply names the canonical row, its status and the number of its event |
| Replies.RepliesAgree | server/ChatServer/src/MysqlDao.cpp:623-752 | any two success replies for one (sender, client_message_id) agree on message and, once published, event number |
| Replies.RetriesStoreOnce | server/ChatServer/src/MysqlDao.cpp:623-752 | a key owns at most one row and that row at most one event, after any retries |
| Replies.ConflictIff | server/ChatServer/src/MysqlDao.cpp:651-700 | Conflict exactly when a member reuses a key for other content, and it commits nothing |
| Outcomes.RecipientIsTheOther | server/ChatServer/src/MysqlDao.cpp:661-661 | sender and recipient are the two different users of the chat |
| Outcomes.SaveAnswers | server/ChatServer/src/MysqlDao.cpp:651-752 | Stored, Duplicate, Conflict and failure, each if and only if a condition on request and tables; only Stored writes |
| Outcomes.StoredRowIsTheRequest | server/ChatServer/src/MysqlDao.cpp:705-750 | the stored row has the thread, sender, key, kind and time of the request, its text or its resource; a text is published and announced to the other member under the next number, a resource waits |
| Outcomes.ResendIsDuplicateIff | server/ChatServer/src/MysqlDao.cpp:663-703 | in every later state of every history the same request is answered Duplicate with the same id if and only if it has no field that the row drops, and Conflict otherwise |
| Outcomes.PublishAnswers | server/ResourceServer/src/MysqlDao.cpp:119-233 | each of the four answers if and only if a condition on the row; the first publication writes the status and one event for the other member under the next number |
| Outcomes.CreatedChat | server/ChatServer/src/MysqlDao.cpp:585-608 | two different registered users share exactly one chat afterwards, the one they had or the new one; nothing else is written |
| Outcomes.ApplyAnswers | server/ChatServer/src/MysqlDao.cpp:273-380 | each answer to a friend request if and only if a condition on the tables; a stored one writes one waiting row and one event for the target |
| Outcomes.HandleAnswers | server/ChatServer/src/MysqlDao.cpp:395-414 | each answer to a handler if and only if a condition on the request; only Stored writes |
| Outcomes.AnswerSettlesRequests | server/ChatServer/src/MysqlDao.cpp:416-458 | the request gets the answer; a yes also accepts every other waiting request between the two users, all with the thread of their chat; no other request changes |
| Outcomes.AnswerMakesFriendsIff | server/ChatServer/src/MysqlDao.cpp:416-471 | the two users are friends if and only if the answer is yes, then with a chat; the requester gets FriendAccept or FriendReject under the next number |
| FriendGraph.TransactionKeepsGraph | server/ChatServer/src/MysqlDao.cpp:273-477 | every transaction keeps the friend graph consistent |
| FriendGraph.HistoryKeepsGraph | server/ChatServer/src/MysqlDao.cpp:273-477 | friends have a chat; an accepted request means friendship and that chat; friends have no pending request; one pending request per ordered pair; one chat per pair |
| FriendGraph.FriendNewsIsUnique | server/ChatServer/src/MysqlDao.cpp:340-470 | one announcement per request to its target, at most one answer to its requester, of the kind the request ended with |
| Dao.Database.AllocateEventSeq | server/ChatServer/src/MysqlDao.cpp:115-128 | takes the next number of the user and leaves other users alone |
| Dao.Database.AddChatMsgTransaction | server/ChatServer/src/MysqlDao.cpp:651-752 | the statements commit exactly the transaction that Outcomes.SaveAnswers and Outcomes.StoredRowIsTheRequest describe; when any of them throws, the rollback restores the tables |
| Dao.Database.AddChatMsg | server/ChatServer/src/MysqlDao.cpp:623-649 | bounded deadlock retries commit at most once; any reply but failure is the one Outcomes.SaveAnswers describes; it succeeds whenever the retries reach a clean attempt |
| Dao.Database.AddFriendApply | server/ChatServer/src/MysqlDao.cpp:273-380 | commits exactly the request transaction that Outcomes.ApplyAnswers describes; a throw after any statement is rolled back |
| Dao.Database.HandleFriendApply | server/ChatServer/src/MysqlDao.cpp:382-477 | commits exactly the answer transaction that Outcomes.HandleAnswers, AnswerSettlesRequests and AnswerMakesFriendsIff describe; a throw after any statement is rolled back |
| Dao.Database.CompleteResourceUploadOnce | server/ResourceServer/src/MysqlDao.cpp:119-233 | commits exactly the publication; a throw after any statement is rolled back; a lost commit is reported as transient |
| Dao.Database.CompleteResourceUpload | server/ResourceServer/src/MysqlDao.cpp:101-117 | at most three attempts publish at most once; a definite answer is the transaction's answer |
| Dao.Database.GetChatMsgById | server/ResourceServer/src/MysqlDao.cpp:308-354 | the row with its event number, or nothing when a join fails |
| Dao.Database.MarkResourceFailed | server/ResourceServer/src/MysqlDao.cpp:235-251 | fails a pending row only, and reports success only for its own change |
| Dao.Database.MarkResourceExpired | server/ResourceServer/src/MysqlDao.cpp:408-436 | fails exactly the pending rows of the list, or none when one of the updates throws |
| Sync.AnswerIsConsecutive | server/ChatServer/src/MysqlDao.cpp:824-871 | the rows of one query are the numbers that follow the cursor |
| Sync.ReferenceSurvives | server/ChatServer/src/MysqlDao.cpp:824-871 | what an event refers to can still be loaded in every later state |
| Sync.GetEventsAfterSeq | server/ChatServer/src/MysqlDao.cpp:824-871 | loads all rows or fails exactly when a reference dangles |
| Sync.BuildPage | server/ChatServer/src/LogicSystem.cpp:1308-1330 | cuts the extra row, announces more exactly then, and moves the cursor to the last row kept |
| Sync.DealSyncMessage | server/ChatServer/src/LogicSystem.cpp:1263-1332 | answers exactly the page after the cursor, an invalid cursor, or a store failure, and never fails on a dangling reference |
| Sync.PageHoldsTheNext | server/ChatServer/src/LogicSystem.cpp:1295-1330 | a page holds min(requested, 200, remaining) events, at least one being requested, numbered on from the cursor; the new cursor is its last number and more is announced exactly when some remain |
| Sync.SyncReturnsEverythingOnce | server/ChatServer/src/LogicSystem.cpp:1295-1330 | paging until has_more is false returns the events after the cursor in order without gap or repeat, even while the log grows |
| Sync.FullPagesAdvance | server/ChatServer/src/LogicSystem.cpp:1295-1330 | a page that announces more is full, so the cursor strictly advances |
| Presence.StepKeepsInv | server/ChatServer/src/LogicSystem.cpp:391-436 | every step of logins, kicks, closes and clean-ups on all servers keeps the presence invariant |
| Presence.LatestStaysRegistered | server/ChatServer/src/CSession.cpp:20-42 | the session that logged in last keeps its uip, usession and UserMgr entries whatever older clean-ups do |
| Presence.CleanedUpIsGone | server/ChatServer/src/CSession.cpp:193-231 | after a session's clean-up no entry names it, and none its server if it was the latest |
| Presence.CleanupRemovesOnlyItsOwn | server/ChatServer/src/CSession.cpp:20-42 | a clean-up step removes only entries of its own session |
| Presence.KickIsAddressedToThePredecessor | server/ChatServer/src/LogicSystem.cpp:403-423 | a login holding the lock addresses its kick to the server that lists exactly the previous session, unless that one is already being cleaned up |
| PresenceProgress.LoginKicks | server/ChatServer/src/LogicSystem.cpp:403-423 | in every run the kick of a login drains the other open session listed on its own server and no other; a delivered remote kick joins the queue of the server the entry names and no other |
| PresenceProgress.PredecessorIsKicked | server/ChatServer/src/LogicSystem.cpp:403-423 | the session that logged in before is Draining after a local kick, or has the kick in its server's queue, unless its clean-up has begun; no other session changes |
| PresenceProgress.QueuedKickDrains | server/ChatServer/src/ChatServiceImpl.cpp:49-69 | when a queued kick runs, the open session its server lists then is Draining and nothing else changes |
| PresenceProgress.DrainIsOfOne | server/ChatServer/src/CSession.cpp:148-191 | draining one session leaves every other session and all entries alone |
| PresenceProgress.NewSessionTakesOver | server/ChatServer/src/LogicSystem.cpp:391-436 | every run can be continued by a login on a free server until the new session is bound and has all entries, the old one drains or has a kick waiting, and no other session is touched |
| PresenceProgress.ClosedSessionIsCleanedUp | server/ChatServer/src/CSession.cpp:20-42 | every run can be continued until a bound session is closed and cleaned up: its own entries are gone, those of a newer one stand |
| Presence.PostedKickNamesASettledSession | server/ChatServer/src/LogicSystem.cpp:415-422 | when a remote kick is posted, its server lists the previous session, which no login will list again |
| Presence.LateKickFindsIff | server/ChatServer/src/ChatServiceImpl.cpp:49-69 | a queued kick finds the session it was meant for if and only if no login has listed itself on that server and the session was not unlisted in between |
| PresenceExample.LateKickDrainsTheNewest | server/ChatServer/src/ChatServiceImpl.cpp:49-69 | a run in which a queued kick drains the session that logged in last |
| Lifecycle.SessionLifecycle.BeginDrain | server/common/include/SessionLifecycle.h:49-56 | only from Open, once |
| Lifecycle.SessionLifecycle.BeginClose | server/common/include/SessionLifecycle.h:58-69 | wins from Open and Draining whatever spurious failures occur, and only once |
| Lifecycle.SessionLifecycle.CompleteClose | server/common/include/SessionLifecycle.h:71-77 | only from Closing |
| Lifecycle.UserTable.RmvUserSession | server/ChatServer/src/UserMgr.cpp:27-43 | removes the entry of this very session and no other |
| Lifecycle.DistLock.AcquireLock | server/common/src/DistLock.cpp:26-48 | succeeds exactly when an answered attempt finds the key free, whatever other clients do in between, and then this client is the only owner |
| Lifecycle.DistLock.SetIfAbsent | server/common/src/DistLock.cpp:32-42 | takes a free key only, so at most one client ever owns it |
| Lifecycle.DistLock.ReleaseLock | server/common/src/DistLock.cpp:51-72 | frees the key only for the identifier that holds it |
| SendQueue.DrainedMeansTerminalWritten | server/ChatServer/src/CSession.cpp:382-414 | when everything accepted is written, so is the frame of SendAndClose, which is the last of the queue until then |
| SendQueue.ChatSession.TrySetUserId | server/ChatServer/src/CSession.cpp:63-73 | binds once, and only while open |
| SendQueue.ChatSession.Send | server/ChatServer/src/CSession.cpp:112-146 | when exactly a frame is accepted; order and the single write in flight are kept |
| SendQueue.ChatSession.SendAndClose | server/ChatServer/src/CSession.cpp:148-191 | the winning frame is the last ever queued; when the caller must close at once |
| SendQueue.ChatSession.HandleWrite | server/ChatServer/src/CSession.cpp:382-414 | frames leave in acceptance order; a drain closes only after the terminal frame is written |
| SendQueue.ChatSession.Close | server/ChatServer/src/CSession.cpp:193-231 | removal and clean-up happen exactly once |
| SendQueue.ResourceSession.Post | server/ResourceServer/src/CSession.cpp:76-95 | reserves the budget exactly when the limits allow it |
| SendQueue.ResourceSession.ReturnReservation | server/ResourceServer/include/CSession.h:76-91 | a guard that did not hand over its frame returns exactly its reservation |
| SendQueue.ResourceSession.RunSend | server/ResourceServer/src/CSession.cpp:93-117 | the frame is queued with its reservation, or the reservation returns |
| SendQueue.ResourceSession.RunSendAndClose | server/ResourceServer/src/CSession.cpp:131-168 | the same for the terminal frame; the drain is won once |
| SendQueue.ResourceSession.HandleWrite | server/ResourceServer/src/CSession.cpp:319-380 | counters equal queued plus posted frames through success, failure and clearing; a drain closes only after the terminal frame |
| SendQueue.ResourceSession.WriteThrows | server/ResourceServer/src/CSession.cpp:370-379 | the exception path returns every queued frame's reservation while a write may still be in flight |
| SendQueue.ResourceSession.ClearSendQueue | server/ResourceServer/src/CSession.cpp:382-398 | returns every frame's reservation |
| SendQueue.ResourceSession.PopFront | server/ResourceServer/src/CSession.cpp:325-340 | the counters drop by exactly the frame: neither underflow clamp is reached |
| SendQueue.ResourceSession.AcquireTaskBytes | server/ResourceServer/src/CSession.cpp:431-446 | in-flight bytes are the sum of live tokens and at most 8 MiB, with stale loads and spurious failures |
| SendQueue.ResourceSession.ReleaseTaskBytes | server/ResourceServer/src/CSession.cpp:448-453 | a token's end returns its bytes |
| Executors.WorkerStepKeepsOk | server/common/src/LogicWorker.cpp:15-63 | tasks finish in post order, one at a time, none lost or repeated |
| Executors.JoinedWorkerIsDrained | server/common/src/LogicWorker.cpp:27-41 | when the join returns every accepted task has run |
| Executors.LogicWorker.Post | server/common/src/LogicWorker.cpp:15-25 | accepts exactly until the stop flag is set |
| Executors.LogicWorker.WakeUp | server/common/src/LogicWorker.cpp:43-63 | takes the front task, or exits exactly when stopping with an empty queue |
| Executors.StopDrainsEverything | server/ChatServer/src/LogicSystem.cpp:202-222 | when the system's Stop returns, every accepted task of both layers has run once in post order |
| Executors.DeliveriesAreAccepted | server/ChatServer/src/LogicSystem.cpp:194-222 | no delivery posted by a running logic task is refused, also during shutdown |
| Executors.NothingAcceptedAfterStop | server/common/src/LogicWorker.cpp:15-25 | a worker told to stop accepts nothing more |
| ExecutorsProgress.ShutdownCompletes | server/ChatServer/src/LogicSystem.cpp:202-222 | from every state of every run Stop can come to its end, and then both layers have run exactly the tasks accepted before, in order |
| ExecutorsProgress.PostedTaskRuns | server/ChatServer/src/LogicSystem.cpp:188-222 | a task posted before the stop is accepted and runs after everything accepted before it |
| ExecutorsProgress.PostedDeliveryRuns | server/ChatServer/src/LogicSystem.cpp:194-222 | so is a delivery posted by a running logic task, also while the logic layer is being stopped |
| Executors.HandlerExecutor.Post | server/GateServer/src/HandlerExecutor.cpp:22-37 | accepts exactly while queued plus running is below the capacity and the pool is not stopping |
| Executors.HandlerExecutor.WakeUp | server/GateServer/src/HandlerExecutor.cpp:60-78 | starts tasks in post order, or leaves once drained |
| Executors.HandlerExecutor.TaskDone | server/GateServer/src/HandlerExecutor.cpp:79-89 | each started task finishes once |
| Executors.HandlerExecutor.Settle | server/GateServer/src/HandlerExecutor.cpp:90-96 | counts down by exactly one: the underflow guard is never needed |
| Executors.HandlerExecutor.JoinedPoolIsDrained | server/GateServer/src/HandlerExecutor.cpp:39-54 | when Stop has joined all threads, the finished tasks are exactly the accepted ones |
| Download.DownloadWorker.ResolvePublished | server/ResourceServer/src/FileWorker.cpp:1068-1127 | for every real session the cached answer equals a fresh look-up; when exactly a null session is let in; the cache stays bounded |
| Download.FreshAnswers | server/ResourceServer/src/FileWorker.cpp:1090-1106 | a published file goes to the two users of its chat and nobody else; which of forbidden, not ready and not found is answered when, both ways |
| Download.WorldKeepsDownloads | server/ResourceServer/src/FileWorker.cpp:1068-1127 | transactions, new blobs and authentications by others leave cache and handles correct |
| Download.DownloadWorker.EvictIdleFileHandles | server/ResourceServer/src/FileWorker.cpp:1129-1139 | drops exactly the handles idle for more than 60 seconds |
| Download.DownloadWorker.LeastRecent | server/ResourceServer/src/FileWorker.cpp:1204-1215 | the victim is the least recently used handle other than the current one |
| Download.DownloadWorker.OpenHandle | server/ResourceServer/src/FileWorker.cpp:1190-1221 | the table never exceeds 64 handles and other handles are untouched |
| Download.DownloadWorker.HandleResourceChunkDown | server/ResourceServer/src/FileWorker.cpp:1141-1241 | a successful reply carries the next bytes of the published file with their hash and the right is_last; it succeeds whenever the content is stored and nothing fails; a request without access gets its error and no bytes |
| Download.DownloadWorker.DownloadAll | server/ResourceServer/src/FileWorker.cpp:1222-1241 | advancing from 0 until is_last reassembles exactly the blob in ceil(total / chunk) rounds |
| CleanupScan.PageAdvances | server/ResourceServer/src/MysqlDao.cpp:356-406 | a page skips no candidate before its last row and the next cursor leaves all of it behind |
| CleanupScan.Cleaner.GetExpiredResourceIds | server/ResourceServer/src/MysqlDao.cpp:356-406 | the first 200 candidates past the cursor, in key order |
| CleanupScan.PageKeepsScan | server/ResourceServer/src/ResourceServer.cpp:91-111 | failing rows of the page just read does not disturb what the cursor has yet to see |
| CleanupScan.Cleaner.Scan | server/ResourceServer/src/ResourceServer.cpp:77-116 | terminates; a row whose part was modified within seven days is never changed; without faults every pending resource row older than that is visited once in key order and exactly those with a missing or older part are failed; with faults only such rows change |
| Base64.EncodeHaltsIff | server/ResourceServer/src/base64.cpp:131-156 | the loop's 32-bit position reaches the length if and only if the input is shorter than 2^32 bytes |
| Base64.Encode | server/ResourceServer/src/base64.cpp:111-160 | the encoding of section 4 of RFC 4648 in the chosen alphabet, padded with '=' or '.' |
| Base64.DigitIsTheTable | server/ResourceServer/src/base64.cpp:44-53 | the 64 characters of each alphabet are those of tables 1 and 2 of RFC 4648 |
| Base64.EncodingShape | server/ResourceServer/src/base64.cpp:111-160 | four characters per three bytes begun, one padding character at the very end for each byte that the last group lacks, only characters of the alphabet before it |
| Base64.Decode | server/ResourceServer/src/base64.cpp:163-241 | group by group, with the first error met |
| Base64.DecodeInvertsEncode | server/ResourceServer/src/base64.cpp:111-241 | decoding returns every byte string in both alphabets |
| Base64.InsertLinebreaks | server/ResourceServer/src/base64.cpp:73-89 | lines of the given width, the last one possibly shorter |
| Base64.BreaksAreRegular | server/ResourceServer/src/base64.cpp:73-89 | exactly every (width + 1)-th character is a line break, so no line is longer |
| Base64.JoiningUndoesBreaking | server/ResourceServer/src/base64.cpp:171-178 | removing line breaks gives back the unbroken text |
| Base64.EncodeWithLinebreaks | server/ResourceServer/src/base64.cpp:91-104 | the broken form decodes back after line-break removal and has regular lines |
| Wire.EncodeFrame | proto/resource_wire.h:40-69 | accepts exactly the pairs within the budget and leaves the output alone otherwise; the first byte is the high half of the meta length, then come meta and raw |
| Wire.PeekMetaLen | proto/resource_wire.h:72-81 | the big-endian length, or nothing for a short buffer |
| Wire.DecodeFrame | proto/resource_wire.h:87-118 | accepts exactly the encodings of pairs within the budget and returns that pair; otherwise the outputs are untouched |
| Wire.LayoutIsInjective | proto/resource_wire.h:40-118 | two pairs never share an encoding |
| Wire.SendNode.constructor | server/ResourceServer/src/MsgNode.cpp:8-17 | the buffer holds type, length and body, most significant byte first |
| Wire.ScanInvertsConcat | server/ResourceServer/src/CSession.cpp:256-317 | concatenated encodings of acceptable messages contain exactly those messages |
| Wire.Reader.ReadSome | server/ResourceServer/src/CSession.cpp:408-429 | any partial read keeps deliveries equal to the messages of the stream that the task quota admits; an illegal header or a refusal closes |
| Wire.Reader.Deliver | server/ResourceServer/src/CSession.cpp:224-247 | a whole message is delivered, or the quota refuses it and the session closes |
| Wire.Reader.Feed | server/ResourceServer/src/CSession.cpp:200-317 | so does a segment of any size, also after the close |
| Wire.Reader.Receive | server/ResourceServer/src/CSession.cpp:200-317 | whatever the segmentation, an authenticated session delivers exactly the messages sent, in order, up to the first one the quota refuses; all of them when it never refuses |

## Left out

- Power-loss durability: only process crashes are modelled; fsync chains and `EnsureDirectoryDurable` are a single call that may fail.
- The Windows rename: the model follows the POSIX branch of `DurableRename`; the Windows branch moves a file without a second name.
- SHA-256, PBKDF2, random nonces and constant-time comparison: foreign library calls; the hash is a parameter.
- CasSafety.ProofKeepsInv: an instant proof is a step that may fail or succeed; the hash over the challenged range and the binding of a challenge to its connection are not modelled, because publication rests on the published twin alone.
- Completion as actions of CasProtocol: that one call of CompleteResourceUpload is a sequence of the protocol's actions is not proved; both follow the same code.
- Redis lock expiry, failed lock acquisition by a clean-up and the inline clean-up during shutdown: outside the presence theorems, as assumptions.
- Lifecycle.DistLock.AcquireLock: an attempt without an answer is taken to have had no effect, because a lost reply to a successful SET is settled by the lock's time-out. Presence models the lock and one user's table entries as fields of its state.
- SQL text, isolation-level anomalies, connection pools: a transaction is one serializable step with a fault.
- Network delivery of a sync page and best-effort live notifications: they may be dropped by design, and the event log carries the guarantee.
- Completion.Upload.ResumeUpload, ResumeFromReported and SendFrom: the client's file and a stored blob of its digest are taken to be the same bytes (`Honest`), because nothing else excludes a hash collision; the cleaner has not removed the part file of a live session (`Backed`), because every chunk touches it and it is stale only after seven days; a declared size of zero is excluded by the schema.
- Completion.Upload.CompleteResourceUpload: after a whole-file mismatch on a part that is still linked, nothing is promised about the files, because the blob then keeps bytes that are not the declared ones.
- Completion.Upload.HandleUploadProgress: does not model the instant-upload challenge, because it is the Challenge step of CasProtocol; the offset it reports is the same.
- Completion.Upload.HandleResourceChunk: the early return for a closed connection has no effect and no reply and is not modelled.
- CasProgress, PresenceProgress and ExecutorsProgress: they prove that the promised state can be reached from every state with the premises, not that a scheduler gets there, because the source promises nothing about scheduling.
- Executors: the wait on the condition variable is the precondition of WakeUp; that a waiting thread is eventually scheduled is not proved. A LogicWorker task that throws ends the process and is not modelled.
- ChatServer's HandleWrite when starting a write throws: only the callback's error is modelled there.
- The avatar protocol, HTTP handlers, configuration, mail service, JSON parsing and the Qt client: input and output plumbing without state that spans calls.
