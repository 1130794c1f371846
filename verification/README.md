# Verified models of Grotto

Grotto is an encrypted chat system: a desktop client, a relay server, a directory service and some
tools around them. This project models the parts of it that keep books, and proves what those books
guarantee. The cryptographic primitives, the sockets and the screens are parameters or absent.

| file | what it models |
|---|---|
| `Prelude.dfy` | options, sequences, decimal numbers |
| `DeliveryTables.dfy` | the tables `MessageHandler` shares between threads, as a class and as functions |
| `DeliveryProtocol.dfy` | the delivery protocol as a state machine over single loads, stores, critical sections and hand-overs |
| `DeliveryProofs.dfy` | what each step keeps |
| `DeliveryRuns.dfy` | the guarantees over every interleaving |
| `DeliveryOrder.dfy` | which entries wait, and in which order messages and envelopes leave |
| `DeliveryGates.dfy` | what is read before anything is handed over |
| `DeliveryBooks.dfy` | what becomes of each message and session, step by step |
| `DeliveryTiming.dfy` | the clock and the budget of the timeout watchers |
| `DeliveryDrops.dfy` | when a message can be dropped before its ten seconds |
| `DeliveryScenarios.dfy` | concrete runs that show what is not guaranteed |
| `SenderKeys.dfy` | when a channel envelope carries its sender key, and who can decrypt |
| `PreKeys.dfy` | numbering of one-time pre-keys across restarts and crashes |
| `PreKeyReuse.dfy` | when a pre-key id is given out or published twice |
| `PreKeyTable.dfy` | which published pre-keys have their private half in the table |
| `CryptoEngine.dfy` | the classes `Engine` and `LocalStore` behind the two models above |
| `FileTransfer.dfy` | chunking and reassembly |
| `ProtoWire.dfy`, `ProtoRead.dfy` | the serialized form of a chunk, its size, and reading it back |
| `TransferRuns.dfy`, `TransferHistory.dfy` | what becomes of a transfer over arbitrary events |
| `Framing.dfy` | length-prefixed frames, the client's writer and reader, the admin codec |
| `RateLimit.dfy` | the fixed-window limiter with idle cleanup |
| `CommandLine.dfy`, `CommandWords.dfy` | the command tokenizer, the quoting of dropped paths, and what can be typed |
| `Placeholders.dfy` | substitution of `{0}`, `{1}`, … in translated texts |
| `ReadMarker.dfy`, `MarkHistory.dfy` | bounded history and read marker, and what they hold, told from the events |
| `Presence.dfy`, `PresenceHistory.dfy` | replicated presence, and what it holds, told from the operations |
| `AppState.dfy` | the class that holds history, marker and presence |
| `Directory.dfy`, `DirectoryHistory.dfy` | the public server directory, and what it says of a server, told from the events |

Where the source changes fields in place, the model is a class whose methods are proved equal to a
step function; the lemmas about runs are about the step functions.

## What is assumed

- Delivery: sequential consistency. A thread id stands for one call or one watcher. Repair requests
  and disconnects may come from any thread at any time, which allows more interleavings than the
  client has. A flush runs on the network thread, so connection events wait for it.
- A watcher sleeps at least its 200 ms; the clock may have advanced by any larger amount. Reading the
  clock, the flag and the link after a sleep are three steps.
- A store write of the network thread may throw at the key upload of an AUTH_OK and in a flush; the
  read loop catches it. A throw elsewhere leaves a state that another step leaves too, and one while
  disconnecting ends the network thread, which is a run without further steps of it.
- Sender keys: a ratchet is a chain and a position; a receiver that knows a chain can decrypt any
  later position of it once. A failing cipher may leave the stored key anywhere, or drop it.
- Pre-keys: a crash may strike after any store write; the counter is written after the loop.
  `HasKeyIffNotOverwritten` and `HasKeyIffStored` take key pairs to be generated only once.
- Rate limiter: a monotone clock that is past 0, the value the code takes for "unset". Ticks are
  nanoseconds.
- Directory: a generated identifier is not in use when it is generated.
- Reading a serialized chunk or envelope follows the Protocol Buffers encoding for the two wire types
  they use: any order of fields, the last one of a number counting, an absent one at its default.
- Messages arrive unread, as every call of `push_message` in the client makes them.

## Where the code and its documentation differ, and what turned out false

- An envelope can be stranded: `send_or_queue_authenticated` checks first and pushes later, so a
  push can miss the flush of AUTH_OK and wait for the next one; and a key upload that throws skips
  the flush. `StrandedIff` gives the exact condition, `StrandingRun` and `ThrowingUploadRun` runs.
- A KEY_REQUEST can be lost: a key upload that throws also skips the resend. `ForgottenIffOrphan` says
  which waiting entries nobody asks for; `ThrowingUploadRun` leaves one.
- A store write that throws in a flush loses the rest of its batch without counting it as failed; in
  `MessagesConserved` that is a place of its own.
- A watcher belongs to a user, not to an entry, and charges a sleep in one piece, so it can drop a
  message queued long after it was spawned, or during its sleep. `EarlyDropIffThreat` is the exact
  condition in every reachable state. `EarlyDropRun` drops a message 200 ms after it was queued.
- A pre-key id can be published without its private key, or with another key pair's private key in
  the table: the id is added before the record is serialized (`PublishedWithoutKey`,
  `StaleKeyUnderPublishedId`). `HasKeyIffNotOverwritten` is the exact condition over all histories;
  while the counter is read, it comes down to the record having been stored (`HasKeyIffStored`).
- Pre-key ids stay distinct only as long as the counter can be read: a failed read counts as a missing
  counter, and the next upload starts at 1 again (`FailedReadRun`). `GivenOutOnceIff` and
  `PublishedOnceIff` give the exact histories, as long as no counter write throws.
- An upload marks exactly its final chunk as last only if the file still fits the recorded size;
  `LastMarkExact` is the exact condition.
- Cancelling is not final. `CancelledStaysIff` says through which events a transfer stays cancelled,
  `ReceivesAllIffNoneLost` when a file is complete nevertheless; `RevivedDownloadHasGap` is a case
  where it is not.
- `send` accepts an empty body, which the reader refuses; `StreamRoundTrip` holds if and only if no
  body is empty.
- Quoting a dropped path does not escape backslashes: `UploadRoundTrip` gives the exact paths that
  come back, `NetworkPathIsMangled` one that does not.
- An argument that contains a later placeholder is substituted again; `TwoArgumentsExact` says for
  which pairs of arguments every template still comes out right.
- The read time of a message is meant never to go back (`std::max` with the old time), but the old
  time has been reset just before; `RepeatedReceiptTime` says when it goes back.
- A user list made from the online users shows every voice badge as off; `VoiceReplicated` gives
  the exact runs on which badges are right.
- Registering a server again does not bring it back online, although its time is renewed
  (`ReregisteredIsListedIffStillMarked`). The comment there says servers are removed after ten minutes;
  the code marks them offline then and removes them after twenty.

## Model

| member | source | states |
|---|---|---|
| DeliveryRuns.NoLostKeyRequest | grotto-chat-client/src/net/message_handler.cpp:765-798 | in every interleaving, once the resend of an AUTH_OK is over, whoever still waits on a ready link has been sent a KEY_REQUEST since the entry was opened and since that AUTH_OK, or a caller is about to send it, or the entry waited already when the key upload of that AUTH_OK threw |
| DeliveryRuns.ForgottenIffOrphan | grotto-chat-client/src/net/message_handler.cpp:109-115 | a waiting entry has neither been asked for nor a caller on its way if and only if it is one that an upload which threw has marked and no caller is on its way; such an upload marks exactly the waiting entries nobody has asked for since that AUTH_OK (`ThrowForgets`) |
| DeliveryScenarios.ThrowingUploadRun | grotto-chat-client/src/net/message_handler.cpp:98-115 | a run, for any user, message and envelope, after which the client is ready, the message waits with nobody asking, and the envelope is stranded without a late push |
| DeliveryRuns.EveryEntryWatched | grotto-chat-client/src/net/message_handler.cpp:373-395 | no pending send or repair entry exists without a live watcher or a caller that will spawn one |
| DeliveryRuns.WatcherBudget | grotto-chat-client/src/net/message_handler.cpp:800-853 | a sleeping watcher has budget left, no watcher counts more than 50 ticks on a ready link, and one about to close its entry has counted some |
| DeliveryTiming.AtMostFiftyReadyWakes | grotto-chat-client/src/net/message_handler.cpp:800-853 | in any run a watcher wakes up on a ready link at most 50 times |
| DeliveryTiming.BudgetIsTimeoutLessCharges | grotto-chat-client/src/net/message_handler.cpp:800-849 | in every state of every run the budget left to a running watcher is 10 s less the ready time it has slept; one about to close its entry has slept at least 10 s |
| DeliveryTiming.EndedWatcherLeftNoEntry | grotto-chat-client/src/net/message_handler.cpp:811-826 | between a moment when a watcher runs and one when it does not, there is a moment at which it ended and its entry was gone |
| DeliveryTiming.FullTimeUnlessWorn | grotto-chat-client/src/net/message_handler.cpp:373-395 | if every watcher of an entry has its whole budget and no sleep begun before some moment, the entry is closed only by a watcher that has slept 10 s on a ready link after that moment, so at least 10 s later |
| DeliveryDrops.EarlyDropIffThreat | grotto-chat-client/src/net/message_handler.cpp:373-395 | in every reachable state: a message queued next can be dropped within 10 s, or with less than 10 s of ready time slept since, if and only if a watcher of that user runs that has used some of its budget or sleeps since before now, and needs no link any more or the network thread can get the link ready before it takes or clears the entry |
| DeliveryDrops.EarlyDropNeedsThreat | grotto-chat-client/src/net/message_handler.cpp:800-832 | a message that stays queued and is dropped with less than 10 s of ready time slept since was under such a threat when it was queued |
| DeliveryDrops.GetReady | grotto-chat-client/src/net/message_handler.cpp:98-145 | unless the network thread is about to take or clear the entry, it can get the link ready with the entry still there and no time passed |
| DeliveryTiming.ChargedAtMostPassed | grotto-chat-client/src/net/message_handler.cpp:803-809 | a watcher is charged at most for the time that has passed |
| DeliveryDrops.ThreatDropsSoon | grotto-chat-client/src/net/message_handler.cpp:800-832 | from every such state a continuation that drops any given message within 10 s |
| DeliveryRuns.RunKeeps | grotto-chat-client/src/net/message_handler.hpp:158-172 | flags, queues, watchers, requests, message and envelope accounts hold their invariant in every state of every run |
| DeliveryRuns.MessagesConserved | grotto-chat-client/src/net/message_handler.cpp:337-395 | in every reachable state the plaintexts given for a user are, as a multiset, exactly those waiting, in the running flush, sent, failed, timed out, erased by reset, dropped as not found, cleared on disconnect, or lost to a flush that threw |
| DeliveryRuns.FlushOrdered | grotto-chat-client/src/net/message_handler.cpp:350-367 | when a flush ends, sent and failed add up to its batch and the sent messages kept their order |
| DeliveryRuns.FlushIsDelivered | grotto-chat-client/src/net/message_handler.cpp:350-367 | in every interleaving, what a running flush has handed over is what the flush loop delivers for the same answers of the cipher, as long as nothing else touches the session |
| DeliveryRuns.EnvelopesConserved | grotto-chat-client/src/net/message_handler.cpp:736-763 | each submitted envelope is in its caller's hands or exactly once among queued, draining, sent and cleared; none is sent twice |
| DeliveryRuns.DrainOrdered | grotto-chat-client/src/net/message_handler.cpp:746-763 | a drained batch went out whole and in queue order, whatever was sent in between |
| DeliveryOrder.EntryLife | grotto-chat-client/src/net/message_handler.cpp:337-395 | at every step of every run, an entry of a user is there afterwards if and only if the step asks for that user, or it was there and the step is none of those that end it: the user's bundle or reset, the watcher of that kind and user, an error naming the user or leaving no other, a clearing disconnect |
| DeliveryOrder.QueueIsRequests | grotto-chat-client/src/net/message_handler.cpp:373-395 | while an entry stays open, its queue is the sequence of the messages requested for the user since the step that opened it |
| DeliveryOrder.SentAsRequested | grotto-chat-client/src/net/message_handler.cpp:337-367 | what a flush has sent is a subsequence of the messages requested for the user from the opening of the entry up to the key bundle, in the order of the requests |
| DeliveryOrder.BatchIsPushes | grotto-chat-client/src/net/message_handler.cpp:736-758 | a drained batch is exactly what was pushed between the moment the outbox was last empty and the swap, in the order of the pushes |
| DeliveryOrder.ReconnectKeepsAll | grotto-chat-client/src/net/message_handler.cpp:135-145 | a client that reconnects by itself never loses a message or an envelope to a disconnect |
| DeliveryOrder.DisconnectClears | grotto-chat-client/src/net/message_handler.cpp:135-145 | without reconnecting, a disconnect is over only after it has emptied the tables and then the outbox, and no session is left |
| DeliveryGates.SendsAfterReading | grotto-chat-client/src/net/message_handler.cpp:723-744 | whoever is about to send a KEY_REQUEST or an envelope has read the authenticated flag as on, and later the link |
| DeliveryGates.QueuesOnlyTurnedAway | grotto-chat-client/src/net/message_handler.cpp:736-744 | whoever is about to queue an envelope has read the flag or the link as off |
| DeliveryGates.RequestsUnlessTurnedAway | grotto-chat-client/src/net/message_handler.cpp:373-395 | whoever has opened an entry and goes on to start its watcher has sent a KEY_REQUEST, or has read the flag or the link as off |
| DeliveryGates.HandsOverAfterReading | grotto-chat-client/src/net/message_handler.cpp:746-798 | the network thread hands over the requests of a resend, or the outbox, only after it has read the flag as on, and later the link |
| DeliveryBooks.BookedAsMet | grotto-chat-client/src/net/message_handler.cpp:337-395 | in every state the messages booked as sent are exactly those whose turn of a flush met a session and a working cipher, those booked as failed are those of all other turns, and so for every other end of a message |
| DeliveryBooks.SentAsHandedOver | grotto-chat-client/src/net/message_handler.cpp:736-763 | the envelopes that count as sent are those handed over directly or in their turn of a drain, in that order |
| DeliveryBooks.SessionLife | grotto-chat-client/src/net/message_handler.cpp:303-348 | a user has a session after a step if and only if the step establishes one, or there was one and the step neither resets nor breaks it nor ends a disconnect |
| DeliveryRuns.StrandedIff | grotto-chat-client/src/net/message_handler.cpp:109-115 | an envelope becomes stranded on a ready link by exactly those pushes that were judged before the AUTH_OK and land after its swap, and by a key upload that throws while envelopes are queued |
| DeliveryRuns.StrandedIsLate | grotto-chat-client/src/net/message_handler.cpp:736-744 | every stranded envelope was judged unsendable before the current AUTH_OK, and pushed after its swap unless its key upload threw |
| DeliveryScenarios.StrandingRun | grotto-chat-client/src/net/message_handler.cpp:736-763 | a run, for any envelope, that ends with it stranded on an authenticated, connected link |
| DeliveryScenarios.EarlyDropRun | grotto-chat-client/src/net/message_handler.cpp:800-832 | a concrete run in which a message is dropped as timed out 200 ms after it was queued on a ready link |
| DeliveryTables.DeliveredInOrder | grotto-chat-client/src/net/message_handler.cpp:350-366 | what a flush hands over is a subsequence of its batch |
| DeliveryTables.DeliversAllIffNeverRefused | grotto-chat-client/src/net/message_handler.cpp:350-366 | a flush delivers its whole batch if and only if there is a session and the cipher never refuses |
| DeliveryTables.NothingWithoutSession | grotto-chat-client/src/crypto/crypto_engine.cpp:658-666 | without a session nothing of a batch is sent |
| DeliveryTables.NothingAfterBreak | grotto-chat-client/src/crypto/crypto_engine.cpp:681-685 | a failed encryption drops the session, so nothing behind it in the batch is sent |
| DeliveryTables.DeliveredExactly | grotto-chat-client/src/crypto/crypto_engine.cpp:652-694 | a flush delivers exactly the messages whose answer is a ciphertext, unless there was no session or an earlier answer broke it |
| DeliveryTables.SessionAfterIff | grotto-chat-client/src/crypto/crypto_engine.cpp:652-694 | the session survives a batch if and only if it was there and no answer breaks it; an unavailable cipher does not |
| DeliveryTables.MessageHandler.QueuePlaintext | grotto-chat-client/src/net/message_handler.cpp:376-381 | the plaintext is appended to the user's queue; the result tells whether the entry is new |
| DeliveryTables.MessageHandler.InsertRepair | grotto-chat-client/src/net/message_handler.cpp:515-522 | a repair entry is added unless a send or a repair is pending for the user |
| DeliveryTables.MessageHandler.TakeForBundle | grotto-chat-client/src/net/message_handler.cpp:338-348 | the queue is handed over whole and both entries vanish in one section |
| DeliveryTables.MessageHandler.FlushQueue | grotto-chat-client/src/net/message_handler.cpp:350-371 | delivered messages are a subsequence of the batch, sent and failed add up to it, and the session survives unless the cipher broke |
| DeliveryTables.MessageHandler.ForgetUser | grotto-chat-client/src/net/message_handler.cpp:494-498 | an identity reset removes both entries of the user and nothing else |
| DeliveryTables.MessageHandler.DropNotFound | grotto-chat-client/src/net/message_handler.cpp:679-688 | the entry dropped is the named user's, else that of the only one waiting |
| DeliveryTables.MessageHandler.ExpireSend | grotto-chat-client/src/net/message_handler.cpp:817-826 | the entry is gone and the number of dropped messages is its queue's length |
| DeliveryTables.MessageHandler.RequestTargets | grotto-chat-client/src/net/message_handler.cpp:770-784 | the targets are exactly the users with something queued and the users under repair, none listed twice; together they are a target list of the protocol |
| DeliveryTables.MessageHandler.ClearOnDisconnect | grotto-chat-client/src/net/message_handler.cpp:137-143 | without auto-reconnect every table is emptied |
| DeliveryTables.MessageHandler.PushOutbound | grotto-chat-client/src/net/message_handler.cpp:742-743 | the envelope goes to the end of the outbox |
| DeliveryTables.MessageHandler.SwapOutbound | grotto-chat-client/src/net/message_handler.cpp:751-758 | the whole outbox is taken in order and left empty |
| SenderKeys.SentIsAnnounced | grotto-chat-client/src/crypto/crypto_engine.cpp:616-650 | `sent_skdm_channels_` is, after every run, exactly the channels whose SKDM went out with neither a reset nor a failure on the channel since, and each has a stored key |
| SenderKeys.SkdmExactlyWhenNeeded | grotto-chat-client/src/crypto/crypto_engine.cpp:618-643 | an envelope carries an SKDM if and only if its channel is not announced |
| SenderKeys.ReceiverDecryptsAll | grotto-chat-client/src/crypto/crypto_engine.cpp:616-650 | a receiver fed any run in order decrypts every envelope to its plaintext, whatever failed and whenever sessions were reset |
| SenderKeys.NothingLost | grotto-chat-client/src/crypto/crypto_engine.cpp:616-650 | a call whose cipher works yields an envelope with its channel and text, and no other call does |
| PreKeys.IdsNeverReused | grotto-chat-client/src/crypto/crypto_engine.cpp:514-565 | over uploads, restarts, crashes and throwing writes with fewer than 2^32 ids, published ids strictly increase and each stored private half stays until it is consumed, as long as no upload is prepared in a session that failed to read a counter above 1 |
| PreKeyReuse.GivenOutOnceIff | grotto-chat-client/src/crypto/crypto_engine.cpp:492-565 | over every history with fewer than 2^32 ids, whose uploads have rounds and in which no counter write throws, failed reads, crashes and restarts included: no id is given out twice if and only if no upload gives out ids in a session that began with a failed read of the counter after ids had been given out |
| PreKeyReuse.NumberedUntilBadGift | grotto-chat-client/src/crypto/crypto_engine.cpp:492-565 | until that happens, the ids given out are exactly 1, 2, 3, … in order, the stored counter is the next one, and every session counts from there, or from 1 after such a read |
| PreKeyReuse.PublishedOnceIff | grotto-chat-client/src/crypto/crypto_engine.cpp:514-565 | if moreover every round yields a pair and no upload is lost to a crash, no id is published twice if and only if that condition holds |
| PreKeyReuse.GapHidesBadRead | grotto-chat-client/src/crypto/crypto_engine.cpp:562-563 | a concrete history with a throwing counter write that breaks the condition and still gives out no id twice |
| PreKeyReuse.FailedReadRun | grotto-chat-client/src/db/local_store.cpp:142-151 | a concrete run with a failed read after which id 1 is published twice and the first private key is gone |
| PreKeys.IssuedInOrder | grotto-chat-client/src/crypto/crypto_engine.cpp:521-530 | the ids of one upload strictly increase and lie in its range |
| PreKeys.IssuedExactly | grotto-chat-client/src/crypto/crypto_engine.cpp:521-530 | an upload has one entry for each round that yields a pair, with that round's id, key and fate |
| PreKeys.WrittenKeeps | grotto-chat-client/src/crypto/crypto_engine.cpp:542-554 | the loop stores what it reports stored and touches no id outside its range |
| PreKeyTable.HasKeyIffNotOverwritten | grotto-chat-client/src/crypto/crypto_engine.cpp:521-561 | over every history that generates no key pair twice, a published unconsumed id has its own private key in the table if and only if its record was stored and no record has been written under the same number since |
| PreKeyTable.HasKeyIffStored | grotto-chat-client/src/crypto/crypto_engine.cpp:521-561 | over every history that fits, prepares no upload in a session that failed to read a counter above 1, and generates no key pair twice, a published unconsumed id has its own private key in the table if and only if its record could be stored |
| PreKeyTable.RunOrigins | grotto-chat-client/src/crypto/crypto_engine.cpp:521-561 | after every history the table holds only generated keys whose record was stored, and only generated keys are published |
| PreKeyReuse.ReuseAtTheLimit | grotto-chat-client/src/crypto/crypto_engine.cpp:492-494 | the bound is sharp: after a start and an upload of 2^32 - 1 ids, which fits, the next start hands out id 1 again |
| PreKeyTable.PublishedWithoutKey | grotto-chat-client/src/crypto/crypto_engine.cpp:529-554 | a concrete run after which an id is published and the table has no key for it |
| PreKeyTable.StaleKeyUnderPublishedId | grotto-chat-client/src/crypto/crypto_engine.cpp:529-565 | a concrete run with a crash after which an id is published with one key pair while the table holds the private key of another under it |
| CryptoEngine.Engine.constructor | grotto-chat-client/src/crypto/crypto_engine.cpp:492-494 | a start reads the counter back, a missing, unreadable or zero one as 1, keeps stored sessions and sender keys, and has nothing announced |
| CryptoEngine.Engine.PrepareKeyUpload | grotto-chat-client/src/crypto/crypto_engine.cpp:514-565 | upload, table and counter are those of the numbering model, also when a write in the loop or the counter write throws |
| CryptoEngine.ReturnedDecrypts | grotto-chat-client/src/crypto/crypto_engine.cpp:616-650 | over any sequence of calls from a start of the engine on, however they end, a receiver fed in order with the returned envelopes decrypts every one and gets exactly the texts of the calls that worked |
| CryptoEngine.Engine.EncryptGroup | grotto-chat-client/src/crypto/crypto_engine.cpp:616-650 | a returned envelope carries the given channel and text, and an SKDM if and only if the channel was not announced; the stored key moves on by one, other channels keep theirs; the channel is announced afterwards if and only if an envelope was returned |
| CryptoEngine.Engine.EncryptDirect | grotto-chat-client/src/crypto/crypto_engine.cpp:652-694 | a key bundle is requested exactly for users without a session, and then nothing is sent |
| CryptoEngine.Engine.Encrypt | grotto-chat-client/src/crypto/crypto_engine.cpp:606-694 | a channel call leaves direct sessions alone and returns its own channel and text, with an SKDM if and only if the channel was not announced; a direct call leaves channels alone |
| CryptoEngine.Engine.ResetGroupSessions | grotto-chat-client/src/crypto/crypto_engine.hpp:83-83 | only the set of announced channels is emptied |
| CryptoEngine.Engine.ResetDmSession | grotto-chat-client/src/crypto/crypto_engine.cpp:584-589 | session and pending plaintext of the peer go, and nothing for an empty peer |
| CryptoEngine.Engine.ResetAllDmSessions | grotto-chat-client/src/crypto/crypto_engine.cpp:597-602 | all sessions and pending plaintexts go |
| CryptoEngine.LocalStore.StorePreKey | grotto-chat-client/src/db/local_store.cpp:123-129 | the row is inserted or replaced |
| CryptoEngine.LocalStore.RemovePreKey | grotto-chat-client/src/db/local_store.cpp:131-136 | the row is removed |
| CryptoEngine.LocalStore.StorePreKeyCounter | grotto-chat-client/src/db/local_store.cpp:153-159 | the counter is overwritten |
| CryptoEngine.LocalStore.LoadPreKeyCounter | grotto-chat-client/src/db/local_store.cpp:142-151 | the stored counter, or 1 if there is none or the query throws |
| CryptoEngine.LocalStore.DeleteSession | grotto-chat-client/src/db/local_store.cpp:86-92 | the row is removed |
| CryptoEngine.LocalStore.DeleteAllSessions | grotto-chat-client/src/db/local_store.cpp:94-97 | every session is removed |
| FileTransfer.ChunkingRoundTrip | grotto-chat-client/src/file/file_transfer.cpp:505-540 | appending all chunks of a nonempty unchanged file to an empty local file restores its bytes, counts them and reports the last chunk |
| FileTransfer.UploadRestores | grotto-chat-client/src/file/file_transfer.cpp:505-540 | what the upload loop emits, uncancelled and unfailed, for a nonempty unchanged file is ceil(n / 60 KiB) chunks whose appending to an empty local file restores the bytes, counts them and reports the last chunk |
| FileTransfer.UnchangedMarks | grotto-chat-client/src/file/file_transfer.cpp:531-531 | in an unchanged file exactly the final chunk is marked last |
| FileTransfer.ChunkShapes | grotto-chat-client/src/file/file_transfer.cpp:505-536 | there are ceil(n / 60 KiB) chunks, none for an empty file, numbered from 0, all full but the final one |
| FileTransfer.LastMarkExact | grotto-chat-client/src/file/file_transfer.cpp:531-531 | for any recorded size, exactly the final chunk is marked last if and only if the size reaches past the earlier pieces and the file ends off a boundary or is as long as recorded |
| FileTransfer.EmitsPrefix | grotto-chat-client/src/file/file_transfer.cpp:509-536 | an upload stopped early has emitted a prefix of the chunks |
| FileTransfer.UndisturbedReadsAll | grotto-chat-client/src/file/file_transfer.cpp:509-529 | an uncancelled, unfailed upload reads every piece |
| FileTransfer.StopsAtFirstHalt | grotto-chat-client/src/file/file_transfer.cpp:509-529 | the loop reads exactly the pieces before the first turn that meets a shutdown or sees the transfer cancelled or failed |
| FileTransfer.CancelledUploadStops | grotto-chat-client/src/file/file_transfer.cpp:509-536 | no chunk of the turn that sees an upload cancelled, or of a later one, is sent |
| FileTransfer.DoUpload | grotto-chat-client/src/file/file_transfer.cpp:505-543 | the loop emits the pieces read before it stops, and every frame fits |
| FileTransfer.SendFileChunk | grotto-chat-client/src/file/file_transfer.cpp:566-606 | nothing is sent exactly when the record is gone; the oversize branch is never taken |
| FileTransfer.AppendsAll | grotto-chat-client/src/file/file_transfer.cpp:315-352 | chunks of an open download append their bytes in arrival order, whatever their index, and the byte count follows modulo 2^64 |
| TransferRuns.CancelledStaysIff | grotto-chat-client/src/file/file_transfer.cpp:315-431 | through any sequence of chunk, progress, completion, error, cancel and upload events a cancelled transfer stays cancelled if and only if none is a progress message with status uploading or downloading, a completion or an error for it, or the upload thread setting its state |
| TransferRuns.ReceivesAllIffNoneLost | grotto-chat-client/src/file/file_transfer.cpp:315-352 | over any sequence of events a local file ends up with every chunk that arrived for the transfers that write to it, in order, if and only if no nonempty one arrived while its transfer was cancelled or the file could not be opened, or was written short |
| TransferRuns.LostIsMissing | grotto-chat-client/src/file/file_transfer.cpp:325-340 | one lost or short chunk leaves the file short for good, and nothing is written that did not arrive |
| TransferHistory.LastWriterDecides | grotto-chat-client/src/file/file_transfer.cpp:315-431 | after any events, state and error of a transfer are those of the last event that writes them, told from the events: a completion leaves it completed if its checksum is absent or matches, else failed with the mismatch message |
| TransferHistory.CompletedIff | grotto-chat-client/src/file/file_transfer.cpp:381-411 | a transfer is completed if and only if that event is a completion whose checksum is absent or matches, or nothing has written since it was completed |
| TransferHistory.CountsFollow | grotto-chat-client/src/file/file_transfer.cpp:354-392 | the size is the one last announced; the byte count follows chunks, progress and completion, and progress never lowers that of an upload |
| FileTransfer.FileTransferManager.OnFileChunk | grotto-chat-client/src/file/file_transfer.cpp:315-352 | maps and files are those of one chunk step; unknown and cancelled transfers are untouched |
| FileTransfer.FileTransferManager.OnFileProgress | grotto-chat-client/src/file/file_transfer.cpp:354-379 | size and byte count are taken over, two statuses set the state |
| FileTransfer.FileTransferManager.OnFileComplete | grotto-chat-client/src/file/file_transfer.cpp:381-411 | size and count are taken over; the state is completed if the checksum is absent or matches, else failed with the mismatch message |
| FileTransfer.FileTransferManager.OnFileError | grotto-chat-client/src/file/file_transfer.cpp:413-431 | the state is failed with the message, the verification entry goes; a repeated error changes nothing |
| FileTransfer.FileTransferManager.CancelTransfer | grotto-chat-client/src/file/file_transfer.cpp:223-231 | a known transfer is marked cancelled |
| ProtoWire.EnvelopeFits | grotto-chat-client/src/file/file_transfer.cpp:580-592 | for every legal numbering of the fields, chunk index, flag, sequence number and time, the envelope around a chunk of at most 60 KiB is at most 65536 bytes |
| ProtoWire.VarintSize | grotto-chat-client/src/proto/grotto.proto:4-9 | a number below 128^k takes at most k bytes |
| ProtoRead.ChunkReadsBack | grotto-chat-client/src/proto/grotto.proto:279-285 | every upload chunk comes back from its bytes, its default fields too |
| ProtoRead.SentChunkReadsBack | grotto-chat-client/src/file/file_transfer.cpp:566-606 | the chunk inside the envelope that an upload hands to the transport is the chunk that was cut |
| ProtoWire.RandomIdFaithful | grotto-chat-client/src/file/file_transfer.cpp:20-28 | file ids have 32 characters and are equal only for equal draws |
| Framing.StreamRoundTrip | grotto-chat-client/src/net/net_client.cpp:167-242 | the reader gets back exactly the bodies sent if and only if none is empty, and a prefix of them in any case |
| Framing.TruncatedStream | grotto-chat-client/src/net/net_client.cpp:167-184 | any truncation of a stream yields a prefix of the bodies and no protocol error |
| Framing.DecodeIsInverse | grotto-chat-client/src/net/net_client.cpp:167-184 | a stream without a refused size is the frames of what was read, followed by the rest |
| Framing.DecodeFrame | grotto-chat-client/src/net/net_client.cpp:173-184 | a whole frame is read off the front; an empty one is refused |
| Framing.OversizeRefused | grotto-chat-client/src/net/net_client.cpp:173-184 | a frame over 65536 bytes is refused, whatever follows |
| Framing.HeaderRoundTrip | grotto-chat-client/src/net/net_client.cpp:230-234 | four big-endian bytes carry the size modulo 2^32 |
| Framing.AdminAgrees | grotto-chat-server-tui/src/admin_protocol.cpp:7-25 | the admin codec writes the same bytes as the client, and reads the length back if and only if it is below 2^32 |
| Framing.BuildFrame | grotto-chat-client/src/net/net_client.cpp:230-236 | the buffer holds header and body |
| Framing.ReadLoop | grotto-chat-client/src/net/net_client.cpp:167-204 | the loop returns exactly the decoding of the stream |
| Framing.NetClient.Send | grotto-chat-client/src/net/net_client.cpp:222-242 | a body over 65536 bytes is dropped, any other is queued last |
| Framing.NetClient.WriteFront | grotto-chat-client/src/net/net_client.cpp:214-218 | the front frame leaves the queue and, as far as the socket takes it, extends the stream |
| Framing.NetClient.Disconnected | grotto-chat-client/src/net/net_client.cpp:87-90 | nothing of the old queue reaches the next connection |
| Framing.NetClient.PeerReadsPrefix | grotto-chat-client/src/net/net_client.cpp:206-242 | at any moment the peer has read a prefix of the posted bodies in order, and all of them once the queue has drained unbroken |
| RateLimit.EvictionUnobservable | grotto-chat-server-api/src/middleware.cpp:60-100 | for every monotone sequence of requests the limiter with idle cleanup gives the answers of one that never forgets |
| RateLimit.BelowTwiceTheLimit | grotto-chat-server-api/src/middleware.cpp:60-100 | no address gets more than 2 * limit - 1 requests through in any half-open minute of any run |
| RateLimit.BoundIsTight | grotto-chat-server-api/src/middleware.cpp:85-99 | for every positive limit a burst of 2 * limit requests passes whole, 2 * limit - 1 of them in one half-open minute |
| RateLimit.ModestNeverRefused | grotto-chat-server-api/src/middleware.cpp:60-100 | an address with at most limit requests in every half-open minute is never refused |
| RateLimit.RememberedIff | grotto-chat-server-api/src/middleware.cpp:60-100 | an address is remembered if and only if it has asked less than ten minutes before the last cleanup or since, with the time it last asked; when the cleanups run is told from the requests |
| RateLimit.IdleAreForgotten | grotto-chat-server-api/src/middleware.cpp:68-77 | nobody is remembered who has not asked for twenty minutes |
| RateLimit.RateLimiter.Process | grotto-chat-server-api/src/middleware.cpp:60-100 | the closure's state and answer are those of one limiter step |
| RateLimit.RateLimiter.EraseIdle | grotto-chat-server-api/src/middleware.cpp:68-77 | exactly the clients idle for ten minutes are erased |
| CommandLine.UploadRoundTrip | grotto-chat-client/src/input/command_parser.cpp:160-224 | a dropped path comes back as the one argument of `/upload` if and only if it is nonempty and no backslash in it precedes a backslash, a double quote or the end |
| CommandLine.SafeComesBack | grotto-chat-client/src/input/command_parser.cpp:97-158 | from inside its quotes such a path is read as itself |
| CommandLine.ScanWeight | grotto-chat-client/src/input/command_parser.cpp:97-158 | reading a quoted path never adds weight in quotes and backslashes outside single quotes, and loses some on an unsafe path |
| CommandLine.NetworkPathIsMangled | grotto-chat-client/src/input/command_parser.cpp:108-119 | a network path is changed by the round trip |
| CommandLine.ParsedNameIsFinal | grotto-chat-client/src/input/command_parser.cpp:177-194 | the name of every parsed command is no alias and has no upper-case letter |
| CommandLine.ParsedExactly | grotto-chat-client/src/input/command_parser.cpp:177-194 | a line is a command if and only if it begins with a slash and a word can be read behind it; its name is that word with the slash in lower case, character by character, or what this is an alias for; its arguments are the other words |
| CommandWords.TypedLineIsRead | grotto-chat-client/src/input/command_parser.cpp:97-158 | words typed bare with backslashes, or in either kind of quotes, and separated by any blank come back in order, but for empty ones |
| CommandWords.EveryArgumentArrives | grotto-chat-client/src/input/command_parser.cpp:97-194 | every command can be given every list of nonempty arguments, typed in any of these ways |
| CommandLine.Tokenize | grotto-chat-client/src/input/command_parser.cpp:97-158 | the loop computes the tokens of the recursive scanner |
| CommandLine.QuoteForUpload | grotto-chat-client/src/input/command_parser.cpp:160-173 | the loop wraps the text and escapes its double quotes |
| Placeholders.SequentialIsSimultaneous | grotto-chat-client/src/i18n/strings.cpp:541-552 | for every template whose opening braces all belong to placeholders, and arguments none of which holds or ends in a beginning of the placeholder of a later argument other than that placeholder, substituting one after the other is substituting all at once |
| Placeholders.BraceFreeIsIndependent | grotto-chat-client/src/i18n/strings.cpp:541-552 | arguments without opening braces meet that condition, whatever the last one holds |
| Placeholders.TwoArgumentsExact | grotto-chat-client/src/i18n/strings.cpp:572-574 | with two arguments every template comes out right if and only if the arguments meet that condition |
| Placeholders.DependenceCanCancel | grotto-chat-client/src/i18n/strings.cpp:576-578 | with three arguments the condition is sufficient but not necessary: three arguments that break it, with which every template comes out right |
| Placeholders.ArgumentIsRescanned | grotto-chat-client/src/i18n/strings.cpp:543-550 | an argument that spells a later placeholder is replaced itself |
| Placeholders.Round | grotto-chat-client/src/i18n/strings.cpp:543-550 | one round of the loop fills exactly one placeholder everywhere |
| Placeholders.ReplacingChanges | grotto-chat-client/src/i18n/strings.cpp:546-549 | where a placeholder occurs, putting in anything but itself changes the text |
| Placeholders.Find | grotto-chat-client/src/i18n/strings.cpp:546-546 | the first occurrence at or after a position |
| Placeholders.ReplaceOne | grotto-chat-client/src/i18n/strings.cpp:544-549 | the inner loop ends for every template and argument and replaces every occurrence once |
| Placeholders.ApplyPlaceholders | grotto-chat-client/src/i18n/strings.cpp:541-552 | the loops compute the rounds one after the other |
| ReadMarker.DequeIsTail | grotto-chat-client/src/state/app_state.cpp:31-42 | after every run the deque is, apart from the read flags, exactly the last min(1000, n) pushes |
| ReadMarker.AtMostOneMarked | grotto-chat-client/src/state/app_state.cpp:75-86 | at most one message of the local user is marked read |
| ReadMarker.MarkNeverMovesBack | grotto-chat-client/src/state/app_state.cpp:44-87 | between any two moments of a run the mark does not move back in the full history, also across the cap |
| ReadMarker.MarkIsFurthest | grotto-chat-client/src/state/app_state.cpp:31-87 | a retained mark is the furthest ever set; once dropped, everything retained lies beyond it |
| ReadMarker.ReceiptReaches | grotto-chat-client/src/state/app_state.cpp:68-86 | after an accepted receipt the named message or a later one is marked |
| MarkHistory.AcceptedIffNamed | grotto-chat-client/src/state/app_state.cpp:44-66 | a receipt is accepted if and only if it carries an identifier that a chat message of the local user bears among the last 1000 of the channel |
| MarkHistory.MarkIsNamed | grotto-chat-client/src/state/app_state.cpp:44-87 | after every run the marked message is the furthest that any receipt has named; there is no mark if and only if none was named or the cap has dropped that message |
| MarkHistory.TimeIsNamed | grotto-chat-client/src/state/app_state.cpp:75-86 | the mark carries the time of the last receipt that named a message no nearer than all before |
| ReadMarker.RepeatedReceiptTime | grotto-chat-client/src/state/app_state.cpp:75-85 | a repeated receipt does not lower the read time if and only if its own time is not lower, or the first was not positive |
| ReadMarker.LastMarked | grotto-chat-client/src/state/app_state.cpp:54-63 | the index found is that of the last marked chat message of the local user, -1 if there is none |
| ReadMarker.LastTarget | grotto-chat-client/src/state/app_state.cpp:54-66 | the index found is that of the last chat message of the local user with the identifier, -1 if there is none |
| AppState.AppState.Scan | grotto-chat-client/src/state/app_state.cpp:54-66 | one pass finds both indices |
| AppState.AppState.ClearMarks | grotto-chat-client/src/state/app_state.cpp:75-80 | every chat message of the local user loses mark and read time, others nothing |
| Presence.PresenceReplicated | grotto-chat-client/src/state/app_state.cpp:171-321 | after every run, each list entry of a user with a known status carries it under that user's id |
| PresenceHistory.KnownIsLast | grotto-chat-client/src/state/app_state.cpp:171-321 | after every run a status is known of a user if and only if one was set, and it is the one last set; so for the voice status |
| PresenceHistory.EntriesShowLastStatus | grotto-chat-client/src/state/app_state.cpp:171-321 | every entry of a user in any list shows the status last set |
| PresenceHistory.EntriesShowLastVoice | grotto-chat-client/src/state/app_state.cpp:208-321 | and the voice status last set, on the runs on which the badges are right |
| PresenceHistory.ListsAreHistory | grotto-chat-client/src/state/app_state.cpp:208-380 | every list holds exactly the entries the operations say, entry by entry: who was last given or added and not removed, with the role last given |
| Presence.StepAgrees | grotto-chat-client/src/state/app_state.cpp:171-321 | each operation keeps every list in line with the known statuses |
| Presence.VoiceReplicated | grotto-chat-client/src/state/app_state.cpp:208-321 | the voice badges are right at every moment of a run if and only if no list is made from online users while one of them has a voice status other than off |
| Presence.StepVoiceAgrees | grotto-chat-client/src/state/app_state.cpp:293-309 | one operation keeps the badges right if and only if it is not such a creation |
| Presence.ListedExactly | grotto-chat-client/src/state/app_state.cpp:208-226 | a set list holds exactly the given users, each as last given, with role kept and status current |
| Presence.EnsuredBadgeIsOff | grotto-chat-client/src/state/app_state.cpp:293-309 | a talking user is shown with the badge off |
| AppState.AppState.PushMessage | grotto-chat-client/src/state/app_state.cpp:31-42 | the channel's deque and unread count, and no other channel |
| AppState.AppState.MarkDirectMessagesRead | grotto-chat-client/src/state/app_state.cpp:44-87 | answer and messages are those of one receipt; only the channel's messages change |
| AppState.AppState.SetPresence | grotto-chat-client/src/state/app_state.cpp:171-182 | the given status is known afterwards and synced into every list |
| AppState.AppState.SetUserVoiceStatus | grotto-chat-client/src/state/app_state.cpp:311-321 | voice status set and synced into every list |
| AppState.AppState.SetChannelUsers | grotto-chat-client/src/state/app_state.cpp:208-226 | the list is replaced by the synced users |
| AppState.AppState.AddChannelUser | grotto-chat-client/src/state/app_state.cpp:228-242 | the synced user is entered |
| AppState.AppState.RemoveChannelUser | grotto-chat-client/src/state/app_state.cpp:244-250 | the user leaves that list only |
| AppState.AppState.SetUserRole | grotto-chat-client/src/state/app_state.cpp:252-261 | only the role of an existing entry changes |
| AppState.AppState.SetDirectMessageUsers | grotto-chat-client/src/state/app_state.cpp:350-380 | the list is the local user and a different, named peer, both synced |
| AppState.AppState.EnsureChannelUsersFromOnline | grotto-chat-client/src/state/app_state.cpp:293-309 | a missing list is made of the users that are not offline; an existing one stays |
| Directory.AddressesDistinct | grotto-chat-infra/grotto-chat-directory/server.js:105-164 | starting empty, entries never share an address, and each address is that of its host and legal port |
| Directory.OneEntryPerServer | grotto-chat-infra/grotto-chat-directory/server.js:125-155 | no two entries are ever for the same host and port |
| Directory.AddressInjective | grotto-chat-infra/grotto-chat-directory/server.js:125-125 | host and port can be read back from an address |
| Directory.OnlineAtEveryMoment | grotto-chat-infra/grotto-chat-directory/server.js:105-297 | a newly registered server that is never unregistered and whose touches follow each other at gaps strictly under ten minutes is present and listed online at every moment |
| Directory.GapsKeepUp | grotto-chat-infra/grotto-chat-directory/server.js:277-297 | such gaps leave no cleanup that finds the server untouched for more than ten minutes |
| Directory.ListedWhilePinging | grotto-chat-infra/grotto-chat-directory/server.js:222-297 | a server never unregistered whose cleanups all find it touched within ten minutes is present, and listed online exactly while its last touch is under ten minutes old |
| Directory.StaysOnline | grotto-chat-infra/grotto-chat-directory/server.js:166-193 | with such cleanups the server is present and marked online after every event |
| Directory.LastPingIsTouch | grotto-chat-infra/grotto-chat-directory/server.js:131-184 | the recorded time is that of the last ping or registration |
| Directory.SurvivorsAreRecent | grotto-chat-infra/grotto-chat-directory/server.js:277-297 | whatever survives a cleanup was touched within twenty minutes, and is marked online only if within ten |
| Directory.AbandonedIsRemoved | grotto-chat-infra/grotto-chat-directory/server.js:277-297 | a cleanup later than twenty minutes after the last touch removes the entry |
| Directory.OfflineUntilPinged | grotto-chat-infra/grotto-chat-directory/server.js:127-193 | an entry marked offline stays so through any registrations until it is pinged or removed |
| DirectoryHistory.RegisterExactly | grotto-chat-infra/grotto-chat-directory/server.js:105-164 | a registration is refused if and only if the host is missing or the port illegal; else it renews the entry of that host and port or enters a new one if there is none, with the texts given or the defaults, and touches no other entry |
| DirectoryHistory.PresentIff | grotto-chat-infra/grotto-chat-directory/server.js:105-297 | a server is in the table if and only if it was entered and has since neither been unregistered nor been silent for more than twenty minutes when a cleanup came |
| DirectoryHistory.UnregisteredIsGone | grotto-chat-infra/grotto-chat-directory/server.js:196-220 | an unregistered server is gone until its identifier is entered again |
| DirectoryHistory.ShownAsGiven | grotto-chat-infra/grotto-chat-directory/server.js:131-297 | a server is shown with the texts last given, and is marked online if and only if it was entered or pinged since the last cleanup that found it silent for more than ten minutes |
| Directory.Directory.HandleRegister | grotto-chat-infra/grotto-chat-directory/server.js:105-164 | missing or illegal fields are refused; a known address is renewed, a new one entered online |
| Directory.Directory.HolderOf | grotto-chat-infra/grotto-chat-directory/server.js:127-140 | an entry with the address, or none if no entry has it |
| Directory.Directory.HandlePing | grotto-chat-infra/grotto-chat-directory/server.js:167-193 | refused without id, not found if unknown, else renewed and online |
| Directory.Directory.HandleUnregister | grotto-chat-infra/grotto-chat-directory/server.js:196-220 | refused without id, not found if unknown, else removed |
| Directory.Directory.List | grotto-chat-infra/grotto-chat-directory/server.js:223-249 | every entry is shown with its online flag of this moment |
| Directory.Directory.CleanupStaleServers | grotto-chat-infra/grotto-chat-directory/server.js:277-297 | entries past twenty minutes go, entries past ten are marked offline, the rest stays |

## Left out

- The cryptographic libraries, key storage formats, X3DH and the double ratchet: a session exists or not, and a cipher call says how it ends.
- Decryption, link previews, typing notices, history and everything a handler only shows on screen.
- TLS, sockets, reconnect back-off and the wake-up of the write loop: `WriteFront` is one turn of the loop whenever it comes.
- The handler's locks inside the class: its methods are single critical sections; their interleaving is the state machine's.
- Envelopes that bypass the outbox, such as key uploads and chat messages, on the transport: only hand-over is modelled there, and a later message may overtake a batch.
- Messages lost between the transport and the server: a message counts as sent when it is handed over.
- The 100 rounds of one key upload: any number of rounds is allowed.
- A receiver that misses or reorders envelopes, or joins a channel late: the model receives in order from the start.
- Float progress values and timestamps of transfers, how a checksum is compared, and removing finished transfers.
- Character sets of file identifiers on the wire: an identifier is 32 bytes.
- PreKeyReuse.GivenOutOnceIff: histories in which the write of the counter throws are left out, because such a throw leaves numbers that were counted past and never given out, and a session that starts at 1 again may run through those first (`GapHidesBadRead`); for them `IdsNeverReused` gives the sufficient condition.
- PreKeyReuse.PublishedOnceIff: histories in which a round yields no pair or an upload is lost to a crash are left out for the same reason: a number given out there is not published.
- FileTransfer.FileTransferManager.OnFileError: whether a verification entry is there after several events is not told from the events; no code reads it.
- FileTransfer.DoUpload: an upload whose file cannot be opened, or without a send function, ends before the modelled loop.
- FileTransfer.AppendsAll: the local file opens and takes every chunk whole; the failing cases are in `TransferRuns`.
- Placeholders.SequentialIsSimultaneous: the condition on the arguments is proved exact for two arguments only; for the overload with three, and for more, it is sufficient but not necessary (`DependenceCanCancel`), and no exact one is given.
- ReadMarker.MarkNeverMovesBack: one channel between its creation and its removal, for a fixed local user.
- Status texts and times of presence, sorting of user lists, and voice rooms.
- Directory: order of the list, persistence of the table, hosts that are not strings.
- User interface, configuration, plugins, voice engine, link fetching, antivirus, database text and migrations, the command line tools and the server's administration.
