# Spaceless: the connection pipeline, the worker, deferred formatting and the file tree

This project models four parts of Spaceless and proves what they keep over whole runs.

**Connections.** An endpoint is fed by partial reads and drained by partial writes. `Session` is its
reference behaviour, one received byte at a time; `Connection` is the object with its socket, receive
buffer, package table, send queue and two pending lists, and every method is proved against `Session`.
`Framing` shows that however the input is cut, the packages completed are those of a one-shot parse.
`Endpoints` joins two of them by a byte channel in each direction: after any run each worker has been
handed a prefix of what was submitted at the other end, unchanged, and with security on nothing before
both ends hold the same key. `Handshake` shows that this needs both messages of the key exchange to
be whole 16-byte blocks, and `Versions` what two ends of different versions say to each other. `Aes` is the electronic-codebook mode of section 6.1 of NIST SP 800-38A over any
invertible block function; `Packages` is the growing receive buffer and the package table; `Wire` the
packed header.

**Worker.** `WorkerState` says what one message or one expired timer does; handlers are scripts, so
theorems hold whatever handlers do. `WorkerRuns` has the theorems, `Worker` the object, `Timers` the
binary heap, `TimerRuns` what the timer queue guarantees, `WorkerTimers` that a worker run is a timer
run, `EarlyTimeouts` when waits time out, and `Conservation` the balance of requests and replies.
`Requesters` says where replies go, `Dispatch` what each message and timeout leads to, and `Clients`
what a client sees of its request.

**Formatting.** `IntegerText` writes integers in bases 10, 2, 8 and 16, `TextWriter` is the bounded
text writer, `Formatting` specifies direct and deferred formatting, `Deferred` compares them,
`BinaryFormat` has the string table and the storing and restoring writers.

**File tree and upload.** `Forest`, `ForestChanges` and `Sharing` are the table of directories and
files. `FileSessions` is what the handlers of the four put and get transactions do to the sessions,
`SessionManager` the objects, `FileTransactions` the worker running these handlers; `Upload` and
`StorageNode` are the fragment upload with resume.

Each object's methods are proved equal to a specification function of its old state; the run theorems
are about those functions.

## What does not hold of the code

- An error handler that throws inside a timeout skips the removal of its transaction
  (`foundation/transaction.cpp:161-168` under the catch of `foundation/worker.cpp:441-444`).
  The transaction stays registered without waiting, and a late answer activates it.
  `WorkerRuns.NoTransactionIsLeftOver` gives the exact condition, `LateAnswerActivatesLeftOver` a run.
- The timer of an earlier phase is not cancelled and does not look at the phase, so it can end a later
  wait before that is due: `EarlyTimeouts.WaitsCanEndEarly` says exactly when, `EarlyTimeoutHappens` is
  a run.
- The key exchange stalls, or packages get lost after it, unless the public key and the wrapped session
  key are both whole 16-byte blocks (`Handshake.ExchangeNeedsWholeBlocks`).
- An argument that renders nothing is not stored, so deferred formatting gives its placeholder to the
  next argument and ends with one placeholder more (`Deferred.EqualIffNoneIsSilent`).
- Shrinking decryption gives back the plaintext exactly if that does not end in a zero byte
  (`Aes.DecryptionRestoresPlaintext`).
- Encryption into a buffer longer than the cipher reads past the plaintext or puts the last block in the
  wrong place (`Aes.RightBufferLengths`, `Aes.LargerBufferGoesWrong`).
- A header announcing a negative length is not refused. Without security, -17 to -1 make the growth loop
  of the receive buffer run forever, and for -18 and less it ends with zero bytes, into which the header
  is copied. With security the length is rounded first: -15 to -1 become an empty content, which is
  delivered, -31 to -16 never end, and -32 and less give the empty buffer (`Packages.NegativeLength`,
  `Framing.SmallNegativeIsEmpty`).
- A text writer of one byte with a handler loses characters, and its string loop does not end
  (`TextWriter.FlushLoopEnds`, `TextWriter.TextWriter.AppendChar`). Integers are not flushed: one arrives
  exactly if it fits what is left of the buffer at its turn (`TextWriter.IntegersSurviveIff`,
  `TextWriter.WrittenInFullIff`).
- A put session whose directory part leads to a file fails only after both files have been
  registered; they stay in the table, unlisted and for good (`ForestChanges.FailedPutLeavesFiles`,
  `ForestChanges.LeftoversStay`).
- An upload that is asked for again is found only if no other session has been registered for the path
  since, not even one for reading (`FileSessions.ReopensIff`). A client that has kept the session's id
  gets its fragments through all the same (`FileSessions.AskingOrKnowing`,
  `FileSessions.ReaderTakesThePath`). A fragment is counted before the group and the node are looked up,
  so it is lost when one of them is gone (`SessionManager.FileSessionManager.PutFileOnInit`).
- The node's session for an empty file is never removed, as there is no last fragment; the name cannot be
  put with another number of fragments any more (`Upload.SessionEndsWithUpload`). Asking to read a file the
  node does not have, or an empty one, leaves such a session too, as it is registered before the file is
  opened (`storage_node/core.cpp:154-158`): the file cannot be put any more (`Upload.AskedForNothing`).
- At the node a reader who asks during an upload gets the uploader's session, and by reading the last
  fragment ends it (`StorageNode.StorageNode.OnGetFileSession`, `Upload.ReadingEndsAnUpload`).
- A node file written into a stream that was open on a longer file keeps the old end
  (`Upload.WholeFile`), and reading a file whose stream is not cached empties it
  (`Upload.ReadingBack`).

## Model

| member | source | states |
|---|---|---|
| Wire.HeaderRoundTrip | foundation/package.h:27-66 | any header whose fields fit their widths is read back from its packed image, whatever follows it |
| Aes.CipherLength | crypto/aes.cpp:76-81 | the least whole number of blocks that holds the plaintext |
| Aes.CipherLengthWraps | crypto/aes.cpp:76-81 | in 64 bits the length wraps, and is then zero, exactly for plaintexts within a block of 2 to the 64 |
| Aes.DecryptEncrypt | crypto/aes.cpp:84-128 | for every invertible block function, decryption undoes encryption and keeps the length |
| Aes.DecryptionRestoresPlaintext | crypto/aes.cpp:131-163 | decryption gives the plaintext with its zero padding; with shrink the plaintext exactly if its last byte is not zero |
| Aes.EncryptBuffer | crypto/aes.cpp:84-111 | for any length of the buffer: too small a one is refused and left alone, one longer than the plaintext by a block is read past, and in between the whole blocks are encrypted in place and the padded last block goes to the end |
| Aes.RightBufferLengths | crypto/aes.cpp:84-111 | where the loop ends, the buffer starts with the encrypted plaintext, whatever it held before, exactly if the plaintext is whole blocks or the buffer has the cipher length |
| Aes.LargerBufferGoesWrong | crypto/aes.cpp:84-111 | 16 bytes into 32 are read past; of 20 bytes into 33 the last block lands at 17 |
| Aes.DecryptBuffer | crypto/aes.cpp:114-128 | for any lengths: too small a buffer is refused, one with room for another block is read past, and in between the whole blocks are decrypted and the rest is left alone |
| Aes.EncryptString | crypto/aes.cpp:131-138 | the string form encrypts the padded plaintext |
| Aes.DecryptString | crypto/aes.cpp:141-163 | the string form decrypts the whole blocks, leaves zeros for an incomplete one, and strips at most one block of zeros when asked to; a text shorter than a block is shrunk past its front |
| Aes.EncryptStream | crypto/aes.cpp:166-185 | reading block by block from a stream gives the string form's result |
| Aes.DecryptStream | crypto/aes.cpp:188-236 | the stream form with one block of lookahead gives the string form's result, and fails exactly on a length that is not whole blocks |
| Packages.PackageBuffer.ExpectContentLength | foundation/package.cpp:16-48 | in 64-bit arithmetic, for every request for which the loop ends: room exactly for requests up to the maximum, refusal up to half the range, an empty buffer above; keeps the header and the lengths 338 or 512 doubled up to 65536, grows no further than needed |
| Packages.GrowthEnds | foundation/package.cpp:26-31 | the doubling ends exactly for requests up to 2 to the 64 minus 18 |
| Packages.GrowthHasRoom | foundation/package.cpp:26-36 | the length found has room exactly for requests up to half the range minus the header, is zero for all above, and is refused exactly between the maximum and there |
| Packages.NegativeLength | foundation/details/network_impl.cpp:405-418 | the exact fates of a negative announced length after rounding: plain, -17 to -1 do not end and less gives an empty buffer; secure, -15 to -1 need no buffer, -31 to -16 do not end and less gives an empty buffer |
| Packages.RequestedIsRounded | foundation/details/network_impl.cpp:757-761 | rounding in 64 bits and casting back is rounding up to whole blocks for every 32-bit length, but the largest become the least |
| Session.BrokenExactly | foundation/details/network_impl.cpp:405-418 | in both modes an endpoint expects the bytes the buffer grows for, and its range is left exactly where growth ends with an empty buffer or does not end |
| Packages.PackageManager.RegisterPackage | foundation/package.cpp:61-83 | a new id, a fresh header, and storage rounded up to whole blocks; other packages stay |
| Packages.PackageManager.RemovePackage | foundation/package.cpp:86-96 | exactly that package leaves the table |
| Session.FeedConcat | foundation/details/network_impl.cpp:367-461 | feeding two pieces is feeding their concatenation |
| Session.SegmentationIndependent | foundation/details/network_impl.cpp:367-461 | any cutting of the input into reads gives the same endpoint state |
| Session.FeedBytePartial | foundation/details/network_impl.cpp:367-496 | after every byte the reading position is before a package, in a header of the right version, or in a content that fits |
| Session.FeedWrongVersion | foundation/details/network_impl.cpp:464-496 | a wrong version is rejected as soon as the base header is complete, wherever the reads are cut: the end closes, and has written the notice unless the package is one |
| Session.ForeignVersion | foundation/details/network_impl.cpp:464-496 | after a base header of another version, whatever follows: closed, nothing delivered, and on the wire one notice exactly if the package was none |
| Session.OpeningTakesTheSetting | foundation/details/network_impl.cpp:507-547 | an active end that waits for the setting ignores everything else, refuses an empty one, and is secure afterwards exactly if the setting says so |
| Session.SettingOnce | foundation/details/network_impl.cpp:507-522 | a setting for a passive or opened end closes it without an answer |
| Session.ExchangeTakesItsMessage | foundation/details/network_impl.cpp:670-733 | before the exchange is over only the message this role waits for has any effect, and it starts the encryption |
| Session.ClosedForGood | foundation/details/network_impl.cpp:256-265 | a closed end writes and delivers nothing more |
| Session.FeedImage | foundation/details/network_impl.cpp:367-461 | a whole package image fed between packages completes exactly that package |
| Framing.FramingIsParsing | foundation/details/network_impl.cpp:367-496 | header and content machine against a one-shot parse: the same packages, end, answer and unparsed tail, plain and padded, with empty contents and rejected versions |
| Framing.SmallNegativeIsEmpty | foundation/details/network_impl.cpp:405-459 | on a settled secure connection a header announcing -15 to -1 is a whole package with an empty content |
| Versions.OneNoticeEach | foundation/details/network_impl.cpp:464-496 | in every run of two ends of different versions each sends at most one notice, exactly if it has read a package that is none, and is closed once it has read anything |
| Versions.HeardIsFed | foundation/details/network_impl.cpp:464-496 | an end of this version fed with a package of another does what that system says |
| Endpoints.DeliveredIsPrefixOfSubmitted | foundation/details/network_impl.cpp:227-784 | in every reachable state of two endpoints each has delivered a prefix of the other's submissions with their headers and content bytes, none has closed, and with security on nothing is delivered before both hold the same key |
| Endpoints.AllReadMeansAllDelivered | foundation/details/network_impl.cpp:227-784 | when everything written has been read and the exchange is over, everything submitted has been delivered |
| Endpoints.WireIsSubmissionOrder | foundation/details/network_impl.cpp:256-285 | packages leave in submission order through the pending lists and the queue, each encrypted exactly once when security is on, and none before the key exchange is over |
| Handshake.OddKeyDeliversNothing | foundation/details/network_impl.cpp:592-618 | with a public key that is not whole blocks, or too long, no run delivers anything or agrees on a key |
| Handshake.ExchangeNeedsWholeBlocks | foundation/details/network_impl.cpp:592-728 | with working cryptography, everything read means everything delivered in all runs exactly if both messages of the key exchange are whole blocks that fit a receive buffer |
| ConnectionState.WrittenSoFar | foundation/details/network_impl.cpp:227-253 | under the send invariant the bytes the socket has taken are a prefix of finished and queued images, and all of them when the queue is empty |
| ConnectionState.TableChange | foundation/package.cpp:86-122 | packages no queue holds do not matter to a connection |
| Connection.Connection.constructor | foundation/details/network_impl.cpp:105-165 | a new connection is the two-endpoint system's initial end; a passive one has announced its setting and, with security, its public key |
| Connection.Connection.AnnounceSetting | foundation/details/network_impl.cpp:136-160 | the setting goes out raw before the key exchange is begun and before opening ends |
| Connection.Connection.CreateSecureConnection | foundation/details/network_impl.cpp:592-618 | a passive secure connection starts unstarted and sends the public key raw |
| Connection.Connection.SendRawPackage | foundation/details/network_impl.cpp:227-253 | appends the package's image to the wire and keeps the send invariant, however little the socket takes |
| Connection.Connection.EncryptContent | foundation/details/network_impl.cpp:649-662 | the loop encrypts the registered storage in place, whole padded content and nothing else, and sets the length calculator |
| Connection.Connection.SecureSendPackage | foundation/details/network_impl.cpp:637-667 | waits in the pending list until started, and is then encrypted once and sent |
| Connection.Connection.SendPackage | foundation/details/network_impl.cpp:256-285 | the branch by closing, secure connection and opening; a closing connection drops the package; a connection at rest stays so, ready to receive |
| Connection.Connection.SendAllPendingPackage | foundation/details/network_impl.cpp:569-589 | drains the opening list in order through SendPackage, skipping removed packages, and ends |
| Connection.Connection.SendAllSecurePending | foundation/details/network_impl.cpp:764-784 | drains the secure list in order, each package encrypted, and ends |
| Connection.Connection.Destroy | foundation/details/network_impl.cpp:168-224 | queued packages are forgotten; what has been written is all there is |
| Connection.Connection.Close | foundation/details/network_impl.cpp:288-298 | destroys at once exactly if the queue is empty, and then everything has been written |
| Connection.Connection.OnWritable | foundation/details/network_impl.cpp:312-356 | writing changes nothing but how far the socket is; a delayed close ends only with everything written |
| Connection.Connection.SendControl | foundation/details/network_impl.cpp:474-481 | registers, fills and sends one of the connection's own packages |
| Connection.Connection.SecureReceivePackage | foundation/details/network_impl.cpp:670-754 | decrypts and delivers when started; before that only the expected exchange message of the other role counts |
| Connection.Connection.StartCrypto | foundation/details/network_impl.cpp:680-728 | takes the key, is started before the pending packages are sent again |
| Connection.Connection.DeliverDecrypted | foundation/details/network_impl.cpp:737-751 | the worker gets the header as received and the decrypted content |
| Connection.Connection.DeliverPlain | foundation/details/network_impl.cpp:550-560 | the worker gets the package as received |
| Connection.Connection.ReceiveSecuritySetting | foundation/details/network_impl.cpp:507-541 | refused for a passive, opened or too short package; otherwise ends opening and drains the list in the announced mode |
| Connection.Connection.OnReceiveCompletePackage | foundation/details/network_impl.cpp:499-566 | dispatch of a complete package; packages while opening are ignored |
| Connection.Connection.ProcessCheckPackageVersion | foundation/details/network_impl.cpp:464-496 | accepts short headers and the own version; otherwise closes, with the notice written exactly if the package is not one itself |
| Connection.Connection.ReceiveHeaderPart | foundation/details/network_impl.cpp:371-403 | one read inside the header has the effect of feeding its bytes |
| Connection.Connection.ReceiveContentPart | foundation/details/network_impl.cpp:405-459 | one round of the content state has the effect of feeding its bytes, with growth before the first content byte |
| Connection.Connection.ReceiveForState | foundation/details/network_impl.cpp:367-461 | the loop consumes a prefix of the input, feeds exactly it, ends, and leaves a sensible reading position; a closed peer destroys the connection |
| Connection.Connection.OnReadable | foundation/details/network_impl.cpp:301-309 | feeds what it consumes unless closing, and leaves the connection at rest, as sending and writing do |
| PreciseTime.PlusIsExact | lights/precise_time.h:43-52 | the sum of normalised times is normalised and exact |
| PreciseTime.OrderIsExact | lights/precise_time.h:101-121 | comparisons of normalised times are those of their values |
| Timers.FrontIsFirst | foundation/worker.cpp:427-440 | the front of the heap expires first |
| Timers.TimerManager.PushHeap | foundation/worker.cpp:396-397 | sifting up restores the heap, keeps the timers, and leaves a front that is not later in place |
| Timers.TimerManager.SiftDown | foundation/worker.cpp:446-447 | sifting down extends the heap by one position and keeps the timers |
| Timers.TimerManager.PopHeap | foundation/worker.cpp:446-447 | exactly the front leaves, and the rest is a heap |
| Timers.TimerManager.MakeHeap | foundation/worker.cpp:423-424 | any arrangement becomes a heap of the same timers |
| Timers.TimerManager.RegisterTimer | foundation/worker.cpp:372-398 | the new timer has a new id and expires a delay after now, where a delay below a second means the interval |
| Timers.TimerManager.RemoveTimer | foundation/worker.cpp:410-424 | exactly the timer with that id leaves |
| TimerRuns.TimersKeepTheirWord | foundation/worker.cpp:372-456 | over every run no action is early, actions run in expiry order, a one-shot runs at most once |
| TimerRuns.RemovedNeverRuns | foundation/worker.cpp:410-424 | a removed timer never runs again |
| TimerRuns.FrequentTimersStay | foundation/worker.cpp:449-454 | a frequent timer stays armed until it is removed |
| TimerRuns.FirstDue | foundation/worker.cpp:372-398 | after every run a registered timer is due the delay after the clock reading, in nanoseconds, or the interval when the delay is below a second |
| TimerRuns.NextDue | foundation/worker.cpp:446-455 | after every run a frequent timer that has been called is due the interval after the reading that follows its action, and one to be called once is gone |
| TimerRuns.FiringsAreSpaced | foundation/worker.cpp:427-456 | over every run two calls of one timer are its interval or more apart |
| WorkerRuns.NoTransactionIsLeftOver | foundation/transaction.cpp:145-169 | every registered transaction waits and has an outstanding one-shot timer after every step exactly if no timeout's error handler throws without having waited |
| WorkerRuns.FiredTimerEndsOrRenews | foundation/transaction.cpp:145-169 | once its timer has fired, a transaction is gone or in a later phase |
| WorkerRuns.LateAnswerActivatesLeftOver | foundation/transaction.cpp:161-168 | a run in which a throwing error handler leaves a transaction behind that a late answer activates |
| WorkerRuns.DispatchIsSafe | foundation/worker.cpp:146-281 | on_active runs only for a package the live transaction has bound, from the end and with the command it waits for, once for each such package, never after it ended |
| WorkerRuns.OnlyWaitingAreActivated | foundation/worker.cpp:209-281 | in runs without leftovers every activated transaction was waiting |
| WorkerRuns.LateAnswersIff | foundation/worker.cpp:146-175 | the next message can activate a transaction that does not wait exactly if such a one has a package bound |
| WorkerTimers.TimersOfRun | foundation/transaction.cpp:123-170 | the timer queue of every worker run is a run of the timer queue |
| EarlyTimeouts.TimeoutsOfRun | foundation/transaction.cpp:144-169 | over every run a timeout comes from a timer a wait of that transaction has set, not before its expiry and only once, and before the expiry of the wait it ends only from an earlier phase's timer |
| EarlyTimeouts.WaitTimersKeepTheirWord | foundation/transaction.cpp:144-169 | over every run timeout timers are one-shot, are processed at most once, never early, and in expiry order |
| EarlyTimeouts.WaitsCanEndEarly | foundation/transaction.cpp:144-169 | after every run a wait can be ended by a timeout before it is due exactly if a timer of an earlier phase is outstanding that expires sooner |
| EarlyTimeouts.EarlyTimeoutHappens | foundation/transaction.cpp:144-169 | a run in which the first phase's timer ends the second wait 99 seconds early |
| Worker.MultiplyPhaseTransactionManager.RegisterTransaction | foundation/transaction.cpp:183-196 | a new id and a transaction that does not wait |
| Worker.MultiplyPhaseTransactionManager.FindBoundTransaction | foundation/transaction.cpp:246-255 | the transaction bound to a package, if it is still registered |
| Worker.Worker.SendProtocol | foundation/transaction.cpp:34-81 | oversize and unencodable messages are not sent and not bound; others get a new id, the binding and the trigger |
| Worker.Worker.WaitNextPhase | foundation/transaction.cpp:123-170 | records the wait, counts the phase, and registers the timeout |
| Worker.Worker.SendBack | foundation/transaction.h:486-531 | replies to the first connection with the first trigger |
| Worker.Worker.RunHandler | foundation/worker.cpp:189-192 | the handler's calls take effect in order |
| Worker.Worker.CallTransaction | foundation/worker.cpp:287-313 | a throwing handler runs the error handler; what that throws is swallowed |
| Worker.Worker.StartTransaction | foundation/worker.cpp:155-207 | one-phase and multi-phase dispatch by command; a new transaction that does not wait is removed |
| Worker.Worker.TriggerTransaction | foundation/worker.cpp:137-284 | dispatch of a message to a bound transaction or a new one; the binding used is removed whether or not it fitted |
| Worker.Worker.RemoveTimer | foundation/worker.cpp:410-424 | the removal step of the timer runs |
| Worker.Worker.RunTimeout | foundation/transaction.cpp:145-169 | the timeout action, left at once by an exception |
| Worker.Worker.ProcessExpiryTimer | foundation/worker.cpp:427-456 | runs the front exactly if it is due, removes that timer although its action may have added others, and re-arms a frequent one |
| Conservation.AnsweredOnceOrWaiting | foundation/worker.cpp:175-266 | a disciplined transaction has exactly one reply in the out queue if it is gone and none while it waits, whatever others do |
| Conservation.RequestsAreConserved | foundation/worker.cpp:175-266 | dispatched requests are replies in the out queue plus transactions still waiting |
| Requesters.RepliesGoBack | foundation/transaction.h:486-531 | over every run each reply is one entry of the out queue, and the entries of a transaction go to the connection of the message that started it, to no service, and name that message |
| Requesters.RequestIsAnsweredOnce | foundation/transaction.cpp:110-120 | a disciplined request has exactly one such entry when its transaction is gone and none before |
| Dispatch.MessageLeadsTo | foundation/worker.cpp:137-284 | over every run what a message leads to, in terms of the calls of the handlers that run: which transaction goes on or starts, every package sent and where to, every binding made and the one used up, what is waited for next; one-phase replies go to the sender of the message |
| Dispatch.TimeoutLeadsTo | foundation/transaction.cpp:145-169 | over every run what the error handler of an expired timeout sends goes to the sender of the request |
| Dispatch.CallsAskFor | foundation/transaction.cpp:123-144 | after its calls a transaction waits for what the last wait among them asked for, and is otherwise unchanged |
| Dispatch.WaitIsDue | foundation/transaction.cpp:123-170 | a wait sets a timer to be called once, due its timeout in seconds after the clock reading |
| Clients.ClientIsAnsweredOnce | foundation/transaction.h:486-531 | over every run a client whose request has a package id of its own finds exactly one answer among its packages when the transaction is gone, and none before |
| FileTransactions.ShapesAreDisciplined | resource_server/transaction.cpp:348-651 | handlers that throw first, ask and wait, or answer once keep that discipline |
| FileTransactions.NodeIsAwaited | resource_server/transaction.cpp:395-406 | after asking, the request is in the out queue and bound, and of the messages that name it exactly those of the node's service with the command of the response go on with the transaction |
| FileTransactions.FileRequestsAreAnswered | resource_server/transaction.cpp:348-651 | over every run of the server, in which the worker runs the session handlers, a request to one of the four transactions has exactly one reply in the out queue, to its connection and naming it, or is still waiting, across errors, exceptions and timeouts |
| FileTransactions.ErrorsGiveUp | resource_server/transaction.cpp:401-436 | a session transaction that times out, or whose node answers with an error or with something that does not parse, gives up its own session and no other; put file and get file leave all sessions as they are |
| FileTransactions.NoNodeNoSession | resource_server/transaction.cpp:348-436 | a session request that finds no node leaves no session of its own behind and no other changes |
| FileTransactions.FragmentsGoThroughInOrder | resource_server/transaction.cpp:451-478 | over every run of the server the fragments one put session lets through are 0, 1, 2, ..., and it counts them |
| FileSessions.FragmentsOfSession | resource_server/transaction.cpp:451-478 | over every run of session handlers, of however many sessions, the fragments one of them lets through are 0, 1, 2, ..., and it counts them |
| FileSessions.ReopensIff | resource_server/transaction.cpp:348-406 | asking for an upload again finds its session exactly if no session, not even one for reading, has been registered for the path since and it has not been given up; then the next fragment is the number let through |
| FileSessions.AskingOrKnowing | resource_server/transaction.cpp:348-478 | after any run: asking again finds the session exactly if it was not given up and no other was registered for the path; a client holding the id gets exactly the next fragment through, exactly if it was not given up |
| FileSessions.ReaderTakesThePath | resource_server/transaction.cpp:504-554 | a run in which a session for reading takes the path at fragment 2: asking for the upload is refused, fragment 2 with the old id is let through |
| FileSessions.SessionIsOnesOwn | resource_server/transaction.cpp:348-638 | the session a transaction goes on with is its user's, of the kind, group and path asked for; for writing one must be a manager, for reading a member |
| FileSessions.RefusalChangesNothing | resource_server/transaction.cpp:348-638 | a request without one changes no session and asks nothing of the node |
| FileSessions.AcceptedIff | resource_server/transaction.cpp:348-638 | exactly which requests of the four kinds are accepted, and whether for the session there is or for a new one |
| FileSessions.AcceptedGoesOn | resource_server/transaction.cpp:348-638 | an accepted request goes to the node if there is one; a session there was stays as it is, apart from the count of a fragment, and a new one takes its path with nothing sent and no session of the node |
| FileSessions.NodeIsNoted | resource_server/transaction.cpp:409-429 | an answer without an error changes the node's session of its own session, and nothing else |
| FileSessions.OthersGetNothingThrough | resource_server/transaction.cpp:451-465 | over every run no fragment goes through for a session on requests of anybody but its user |
| SessionManager.FileSessionManager.FindUserSession | resource_server/core.cpp:1323-1366 | the session registered last for the path, if it is of the kind and the user asked for; a dead entry is dropped |
| SessionManager.FileSessionManager.PutFileSessionOnInit | resource_server/transaction.cpp:348-406 | goes on with a session of the same fragment count or begins one at fragment 0, then asks the node |
| SessionManager.FileSessionManager.SessionOnActive | resource_server/transaction.cpp:409-429 | a node error gives the session up; otherwise the node's session is noted; a session removed meanwhile is a null pointer |
| SessionManager.FileSessionManager.SessionOnError | resource_server/transaction.cpp:432-436 | the session is given up and the error answered |
| SessionManager.FileSessionManager.PutFileOnInit | resource_server/transaction.cpp:451-478 | lets exactly the next fragment through and counts it before the lookups that may fail |
| SessionManager.FileSessionManager.GetFileSessionOnInit | resource_server/transaction.cpp:504-554 | goes on with the user's session for reading or begins one, which takes the path's place in the index |
| SessionManager.FileSessionManager.GetFileOnInit | resource_server/transaction.cpp:600-638 | the step of the session runs for a fragment asked for: no session changes, and the node is asked only for the reader's own session of a general file |
| IntegerText.DecimalRoundTrip | lights/format.cpp:59-119 | the decimal text of any integer parses to it and has no leading zeros |
| IntegerText.DigitsUnique | lights/format.cpp:59-119 | no other canonical digits denote the number |
| IntegerText.AbsoluteIsAbs | lights/format.cpp:64-71 | the negation in the unsigned type is the absolute value, for every value of every width |
| IntegerText.MinimumNegatesToItself | lights/format.cpp:64-71 | the minimum of each width is its own negation there, which is its absolute value although the signed type has none |
| IntegerText.DecimalFits | lights/format.h:253-284 | 8- to 64-bit integers of either sign fit the formater's usable characters |
| IntegerText.FormatNeedSpace | lights/format.cpp:14-51 | the count of characters, computed in the fixed-width unsigned type, is the length of the decimal text |
| IntegerText.FormatInteger | lights/format.cpp:59-119 | writes the decimal text backwards, two digits at a time, from the fixed-width absolute value, and touches nothing else |
| IntegerText.FormatInBuffer | lights/format.h:241-284 | the formater's buffer holds the text of every 8- to 64-bit integer |
| IntegerText.BaseRoundTrip | lights/format.h:367-513 | parsing the binary, octal or hexadecimal text of any integer gives the integer, and the text has no leading zeros |
| IntegerText.FormatBinary | lights/format.h:366-398 | counting the digits and walking a mask down writes fill, sign and the binary digits, at most one for each bit |
| IntegerText.FormatBits | lights/format.h:413-513 | octal and hexadecimal text is fill, sign and the digits of the value, which fit the array |
| IntegerText.FormatBased | lights/format.h:516-542 | for integers of either sign of every width, the minimum included, the text is sign and digits of the value in its field |
| IntegerText.FieldFillsLeft | lights/format.h:380-391 | the text stands at the right of its field, with the fill before it, and a field too narrow does not cut it |
| TextWriter.FlushLoopEnds | lights/format.cpp:228-238 | the loop that flushes full buffers ends exactly if there is room for a character or nothing to append |
| TextWriter.NothingIsLost | lights/format.cpp:172-240 | with a handler, after any sequence of appends, flushed text plus buffer is everything appended, for every capacity with room for a character |
| TextWriter.FirstCharactersStay | lights/format.cpp:172-240 | without a handler, after any sequence of appends, the buffer holds the first characters that fit |
| TextWriter.WrittenWithHandler | lights/format.h:857-878 | with a handler, arguments without integers are formatted in full, whatever the capacity |
| TextWriter.WrittenWithoutHandler | lights/format.h:857-878 | without a handler the written text is the bounded direct text |
| TextWriter.OthersArrive | lights/format.cpp:172-253 | with a handler, after any list of operations, flushed text plus buffer is the text of all of them in order without the integers that did not fit |
| TextWriter.IntegersSurviveIff | lights/format.cpp:172-253 | with a handler, for every capacity with room for a character, nothing is lost exactly if each integer's length fits what is left at its turn, reckoned from lengths alone |
| TextWriter.WrittenInFullIff | lights/format.h:857-878 | with a handler a format and its arguments are written in full exactly if each integer fits at its turn |
| TextWriter.IntegersAreNotFlushed | lights/format.cpp:243-253 | ten characters and a four-digit number in twelve: the number is lost although there is a handler |
| TextWriter.TextWriter.AppendChar | lights/format.cpp:172-191 | what is flushed and what the buffer holds afterwards; a one-byte buffer with a handler loses the character |
| TextWriter.TextWriter.AppendString | lights/format.cpp:194-211 | what is flushed and what the buffer holds afterwards, with a handler and without |
| TextWriter.TextWriter.HandleFull | lights/format.cpp:214-240 | the rest of a string goes through the handler in full buffers, in order |
| TextWriter.TextWriter.InsertInteger | lights/format.cpp:243-253 | an integer is inserted whole or not at all |
| TextWriter.TextWriter.Write | lights/format.h:857-878 | each placeholder takes the next argument, extra placeholders are copied and extra arguments ignored, with a handler and without |
| Deferred.DeferredEqualsDirect | lights/format/binary_format.cpp:277-303 | restoring what was stored gives the text of the direct form, for every format, every mismatch of placeholders and arguments, and every room in the text writer, when each argument a placeholder takes renders something |
| Deferred.WhatFittedIsRestored | lights/format/binary_format.h:391-425 | for every capacity what is read back is exactly what fitted, piece by piece, in order |
| Deferred.StoreStaysInBuffer | lights/format/binary_format.h:391-425 | the store never exceeds its buffer although the header is reserved unchecked |
| Deferred.PieceRestores | lights/format/binary_format.cpp:145-414 | a character, string, table reference or narrowed integer is read back, whatever follows it |
| Deferred.ArgumentRestores | lights/format/binary_format.cpp:380-389 | a composed argument is read back member by member, with its width in a byte |
| Deferred.EqualIffNoneIsSilent | lights/format/binary_format.h:391-425 | with room for both texts the deferred one is longer by one placeholder for each argument taken that renders nothing, so they are equal exactly if there is none |
| Deferred.EmptyArgumentShifts | lights/format/binary_format.h:416-419 | a concrete format and argument list for which they differ |
| BinaryFormat.StringTable.GetIndex | lights/string_table.cpp:108-119 | a string has one index for good, and the index leads back to it |
| BinaryFormat.StringTable.AddStr | lights/string_table.cpp:122-132 | a new string goes to the end |
| BinaryFormat.BinaryStoreWriter.AppendChar | lights/format/binary_format.cpp:145-156 | stores the code and the character if both fit, else nothing |
| BinaryFormat.BinaryStoreWriter.AppendString | lights/format/binary_format.cpp:159-201 | stores a single character, a reference or the string itself if it fits, else nothing, not even in the table; nothing for an empty string |
| BinaryFormat.BinaryStoreWriter.InsertInteger | lights/format/binary_format.cpp:204-270 | stores the smallest type that holds the value if it fits |
| BinaryFormat.BinaryStoreWriter.AddComposedType | lights/format/binary_format.h:391-425 | reserves the header, stores the pieces that fit, and writes the header, moves one piece back or stores nothing, as long as the 16-bit count does not wrap |
| BinaryFormat.SmallBuffersCount | lights/format/binary_format.h:391-425 | in buffers below 131072 bytes the 16-bit count of members never wraps |
| BinaryFormat.BinaryStoreWriter.Write | lights/format/binary_format.h:236-256 | an argument for each placeholder and nothing else |
| BinaryFormat.BinaryRestoreWriter.WriteArgument | lights/format/binary_format.cpp:306-414 | renders the argument at the front and returns its width as computed in a byte |
| BinaryFormat.BinaryRestoreWriter.WriteBinary | lights/format/binary_format.cpp:277-303 | renders stored arguments into the placeholders |
| Forest.PathsAreUnique | resource_server/core.cpp:542-565 | in a sound table no file is reached in two ways, from whatever roots |
| Forest.CreatePath | resource_server/core.cpp:588-613 | the created path leads somewhere, every path that led somewhere leads to the same file, nothing but its fronts appears, a failure changes nothing |
| Forest.CreateRegisters | resource_server/core.cpp:588-613 | creation enters directories only, and only those the fronts of the path lead to; other files are as before, apart from directories that list more at the end |
| Forest.CreateFailsIff | resource_server/core.cpp:588-613 | creation fails exactly if a proper front of the path leads to something that is no directory |
| ForestChanges.RemoveOutcome | resource_server/core.cpp:616-653 | removal succeeds exactly on paths that lead to something other than the root, and a failure changes nothing |
| ForestChanges.RemoveKills | resource_server/core.cpp:616-653 | removal kills the path and its extensions and no other path of any group |
| ForestChanges.RemoveErases | resource_server/core.cpp:616-653 | removal takes exactly the file, and with a general file its storage file, out of the table; of the rest only the listing directory changes, and only in that |
| ForestChanges.PutNewFile | resource_server/transaction.cpp:372-389 | a new file appears exactly where a directory has no such name, and every other path is as before |
| ForestChanges.PutRegisters | resource_server/transaction.cpp:383-389 | it enters a general file of the name and a storage file of the name on the group's node, in use once, and changes no other file but the directory |
| ForestChanges.FailedPutLeavesFiles | resource_server/transaction.cpp:383-388 | exactly where the directory part leads to a file, two files no path leads to stay behind |
| ForestChanges.LeftoversStay | resource_server/transaction.cpp:383-389 | after any run the two files of such a put stay in the table unlisted through every further run |
| ForestChanges.ForestStaysSound | resource_server/core.cpp:542-653 | after every run from the empty table listed files exist and have one parent, sibling names differ, and each general file has its own storage file in use once |
| ForestChanges.EachStorageBelongs | resource_server/core.cpp:892-956 | after every run each storage file in the table belongs to exactly one general file in it and is in use once |
| ForestChanges.GroupsShareNothing | resource_server/core.cpp:542-653 | after every run from the empty table two paths of two groups never lead to the same file |
| ForestChanges.PathsLast | resource_server/core.cpp:542-653 | after every run, and through any further one, a path goes on leading to the same file until it or a front of it is removed, and leads nowhere right after that |
| Sharing.LookupResolves | resource_server/core.cpp:542-565 | the id found is where the path leads, and the invalid id means nowhere |
| Sharing.SharingFileManager.RegisterFile | resource_server/core.cpp:892-934 | a new id and file of the type asked for; a general file counts as a use of its storage file, and without one nothing is registered and the call throws |
| Sharing.SharingFileManager.RemoveFile | resource_server/core.cpp:937-956 | the file leaves the table, a general file with its storage file, whatever its count; without one the call throws with the general file already erased |
| Sharing.SharingFileManager.FindIn | resource_server/core.cpp:859-880 | the first listed file of that name |
| Sharing.SharingFileManager.RemoveFrom | resource_server/core.cpp:883-889 | every occurrence of the id leaves the list, in order |
| Sharing.SharingGroup.GetFileId | resource_server/core.cpp:542-565 | the descent through the directories, with its two ways to fail |
| Sharing.SharingGroup.ExistPath | resource_server/core.cpp:568-571 | true exactly if the path leads somewhere |
| Sharing.SharingGroup.CreatePath | resource_server/core.cpp:588-613 | the loop is the creation that Forest describes |
| Sharing.SharingGroup.RemovePath | resource_server/core.cpp:616-653 | the loop is the removal that ForestChanges describes |
| Sharing.SharingGroup.PutNewFile | resource_server/transaction.cpp:372-389 | checks, two registrations and add_file in this order |
| Upload.FragmentsInOrder | resource_server/transaction.cpp:451-478 | whatever session handlers the server runs, one session forwards 0, 1, 2, ... and after k of them the node's stream starts with the first k fragments of the source |
| Upload.WholeFile | storage_node/transaction.cpp:44-70 | with all fragments forwarded the node's stream is the source exactly if it was not open on a longer file |
| Upload.SessionEndsWithUpload | storage_node/transaction.cpp:20-70 | over every run in which nobody else opens or ends sessions for the file, the node's session is registered exactly while fragments are to come, or the file is empty; so afterwards exactly then another number of fragments is refused |
| Upload.PutEnds | storage_node/transaction.cpp:44-70 | a fragment is refused exactly for an unknown session or an index too large, without effect, and only the last one ends the session |
| Upload.SessionEndsWithReading | storage_node/transaction.cpp:92-119 | the session is registered until the last fragment has been read, and no other session changes |
| Upload.PutAfterReading | storage_node/transaction.cpp:20-41 | after the last read the file can be put with any number of fragments |
| Upload.ResumesIff | resource_server/transaction.cpp:348-429 | after any run, asking again finds the upload exactly if it has not been disturbed, and then the next fragment is the number forwarded |
| Upload.ResumeChangesNothing | resource_server/transaction.cpp:360-406 | if undisturbed, stopping, asking again and sending the rest gives the same indices and the same file as going through at once |
| Upload.AllAreForwarded | client/core.cpp:168-184 | the requests of a client that starts at the session's next fragment are all forwarded |
| Upload.ReadingBack | storage_node/core.cpp:71-120 | the node returns the fragments exactly if it still has the stream open; otherwise it empties the file |
| Upload.WhatWasPutIsRead | storage_node/transaction.cpp:92-119 | after a complete upload the node answers the requests for all fragments with the whole source, as long as it has the stream open |
| Upload.UploadThenDownload | storage_node/transaction.cpp:20-119 | a complete upload during which nobody else has a session for the file, then asking for it and reading all fragments: the whole source comes back, and the file can be put with any number of fragments |
| Upload.ReadingEndsAnUpload | storage_node/transaction.cpp:73-119 | reading the last fragment in the session of an upload ends it: no fragment is taken any more |
| Upload.NoFragmentsForGood | storage_node/transaction.cpp:20-119 | a session for no fragments stays through every run of the node |
| Upload.AskedForNothing | storage_node/core.cpp:152-162 | a file that was not there or empty when asked for cannot be put with any fragments, after any run; any other can be put with its own number of fragments |
| StorageNode.StorageNode.GetFileStream | storage_node/core.cpp:106-119 | a stream that is not cached is opened from scratch |
| StorageNode.StorageNode.PutFile | storage_node/core.cpp:56-68 | writes the content at the position and nothing else |
| StorageNode.StorageNode.OnPutFileSession | storage_node/transaction.cpp:20-41 | the file's session is kept; another fragment count is refused |
| StorageNode.StorageNode.OnGetFileSession | storage_node/transaction.cpp:73-89 | a file's session, also one for writing, is handed out; a new one counts the fragments of the file, and stays with a count of 0 when there is no file |
| StorageNode.StorageNode.OnPutFile | storage_node/transaction.cpp:44-70 | writes the fragment at its place, ends the session with the last one, refuses unknown sessions and indices |
| StorageNode.StorageNode.OnGetFile | storage_node/transaction.cpp:92-119 | reads up to a fragment at its place, ends the session with the last one |
| StorageNode.StartPutFile | client/core.cpp:168-184 | one request for each fragment from the next one on, with its content |

## Left out

- Poco sockets, reactor, observers and threads: reads and writes take any number of bytes, every handler and queue operation is one atomic step.
- The block function, RSA and the message encoding are parameters; RSA failures and failing key loads are not modelled.
- Connection.Connection.SendRawPackage: `sendBytes` is taken to return between 0 and the length offered; a -1, which the source would keep as the number of bytes sent, and exceptions are not modelled.
- Connection.Connection.OnWritable: the same assumption on `sendBytes`.
- Deleting a connection is a flag; what its fields hold afterwards has no meaning, and packages left in pending lists stay in the table.
- A received length that is negative, or 2 to the 31 and more, after the rounding of a secure connection sets `broken` in Session: nothing is claimed after it, since the source then writes outside its buffer or does not return (`Session.BrokenExactly`).
- An exchange message of length -15 to -1 makes a string constructor throw; the reactor is taken to catch that and go on. A delivered package with such a length has no content here; what a worker reads through its view of it is not modelled.
- Connection.Connection.ReceiveForState: requires that the available input announces no such length.
- Connection.Connection.ReceiveContentPart: requires that the header in the buffer announces no such length.
- The pending lists are empty sequences where the source has null pointers; queues hold package ids, as the source does.
- Package ids, transaction ids and timer ids are unbounded; clock values do not overflow.
- The header is laid out for a little-endian machine with two's complement, as the packed structure is on the supported platforms.
- Packages.PackageBuffer.ExpectContentLength: excludes the requests for which the loop does not end; `Overrun` stands for the copy into an empty buffer, after which nothing is claimed.
- Endpoints.DeliveredIsPrefixOfSubmitted: assumes a key exchange of whole blocks, submitted contents that fit a receive buffer, and that nobody closes.
- Handshake.ExchangeNeedsWholeBlocks: the lengths of both messages fit the header's field, rounded up too.
- Transactions are values in the manager's map, not separate objects; handlers are scripts that bind only to their own transaction and do not remove others.
- std::push_heap, pop_heap and make_heap are sifting loops; only heap order and contents are claimed, not which of two equal expiry times comes first.
- Timers with negative delays or intervals, and actions that remove timers: with them the source may remove another timer than the one that ran.
- TextWriter.TextWriter.AppendString: excludes a one-byte buffer with a handler, where the loop does not end.
- TextWriter.TextWriter.HandleFull: the same exclusion.
- TextWriter.TextWriter.Write: the same exclusion.
- BinaryFormat.BinaryStoreWriter.AddComposedType: says nothing of the bytes once the 16-bit member count has wrapped.
- BinaryFormat.BinaryStoreWriter.Write: the same.
- Deferred.DeferredEqualsDirect: strings stored in place have at most 253 bytes, stored arguments at most 255, and everything fits; these are the widths the source computes in a byte.
- Deferred.WhatFittedIsRestored: the same widths for what fitted.
- The pair table of the decimal writer is a function of the index.
- A text writer of capacity 0 is excluded.
- Path strings: paths are lists of names; trimming and repeated separators are not modelled.
- Logins, groups and nodes appear in FileSessions as the results of their lookups; request and command numbers are parameters.
- FileTransactions.FileRequestsAreAnswered: replies are within the size limit, and no session is removed from under a transaction that goes on, which would dereference a null pointer.
- Upload assumes that no forwarded fragment is lost, one upload for each node file name, and offsets below 2 to the 31; the number of fragments is the integer ceiling, which agrees with the source's float for files up to 2 to the 24.
- StorageNode.StorageNode.OnPutFile: fragment indices are not negative; for a negative one the seek fails and the position of the stream, which is not modelled, decides.
- StorageNode.StorageNode.OnGetFile: the same.
- Writes to a node's stream are taken to reach the file at once; flushing is not modelled.
- Serialization, configuration, consoles, loggers and membership lists: input and output or easy.
