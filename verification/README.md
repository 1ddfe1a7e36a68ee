# Secure cloud storage: the operations session

This project models one session of the secure cloud storage between `Client` and `Server`: login, then list, download,
upload, rename, delete and logout over an unframed byte stream, every message sealed with AES-GCM under a 32-bit
counter, with a new handshake in the middle of whatever is going on each time the counter is exhausted.

How the modules build on each other:

- `Config`, `Bytes`, `Chunks`, `FloatCeil`, `Listing`, `Codecs`: sizes, integers and padded names, chunk arithmetic
  (with the floating-point quotient), the comma list, the plaintext layouts, each with its round trip.
- `Names`: `isStringValid`, and what the commands make of the names they are given.
- `Env`: the foreign parts as tables (AES-GCM, Diffie-Hellman, signatures, certificates, the directory iterator, the
  floating-point unit). `Ideal` is what an honest run relies on.
- `Store`: the specification. Each user command is one atomic operation on two maps, the user's directory on the server
  and the client's local directory; its outcome is the code, the list and the number of messages.
- `Protocol`: the two parties as step functions. A program counter says where in a conversation a party is; `auth` says
  whether `incrementCounter` (or login) has a handshake running. `index` is the logical counter, epoch * 2^32 + counter.
- `Lockstep`, `Rendezvous`: if every message were received as it is sent, both parties would stay in matching places.
- `Network`: the real semantics, two asynchronous parties and two byte streams. One side may run ahead; the invariant
  says that replaying what is in flight leads to a matching pair.
- `Guarantees`, `StepCount`, `Theorems`: lock step, framing, refinement of `Store`, absence of deadlock, and the exact
  number of steps, of every state the invariant allows and of every run.
- `Models`: an environment and sessions that satisfy everything the main results assume.
- `Reaching`, `Asking`: building runs message by message, with a handshake wherever the counter calls for one, and every
  run of one more command after a finished session.
- `Boundaries`, `Transfers`: where the code stops behaving atomically, as equivalences over runs, each with a run that
  shows the failure: lists and deletes, uploads and downloads.
- `Turns`, `ServerHistory`, `ClientHistory`: what a party reads and sends, step by step, whoever its peer is.
- `Authentication`, `Certification`: over every such history, what the server has verified of the client and the client
  of the server before any operation message counts.
- `Answers`: what each party makes of wrong codes, refused messages and unknown commands.
- `Replay`, `Containment`, `Logout`: the same parties when an adversary delivers the counted messages, and what is left
  of a session after its logout.
- `Conservation`, `Threads`: what a server step can do to stored files whatever it is sent, and threads for different
  users on one file system of paths.
- `Memory`, `Messages`, `FileManager`, `SocketManager`: the imperative classes, against the functions above.
- `Running`, `ServerClass`, `ClientClass`: the handlers and request functions as they are written, blocking calls and
  chunk loops included. Each class carries a ghost run of the step function that moves only when a message is sent or
  received. `Valid()` says that the bytes taken from the socket and the frames given to it are exactly those of that
  run; a method verifies only if it waits for exactly the lengths, sends exactly the frames and makes exactly the
  changes of the step function, so what is proved of the step functions holds of the sequential code.

The main results are about every interleaving of a session whose commands are in reach (`Store.InReach`): valid or
invalid names, present or missing files, empty files, every size but those excluded below, any number of commands, any
number of counter wrap-arounds.

Where the code and its comments or documentation disagree, the code is followed:

- An upload of exactly 4,000,000,000 bytes passes the client's check and is announced as 0. The server stores an empty
  file and keeps it (`Transfers.UploadConfirmedIff`, `Transfers.UploadLost`, `Transfers.EmptyUploadKept`).
- A directory whose only file is called `error` looks like a failure to the server, which then sends no reply
  (`Boundaries.ListAnsweredIff`, `Boundaries.LoneErrorDeadlock`).
- A confirmed delete of a missing file gets no final reply (`Boundaries.DeleteAnsweredIff`); the client avoids it by
  looking into the server's directory first (src/modules/Client.cpp:1320-1324), which `Network.StepBegin` shows to be
  free of races.
- A download of 2^32 bytes or more is announced by its low 32 bits (`Transfers.DownloadWholeIff`,
  `Transfers.DownloadTakenForEmpty`); no sequence of uploads creates such a file (`Boundaries.DownloadsStayInReach`).
- The length of a list is a `uint32_t`, of a plaintext to seal an `int`, and of what a receive returns an `int`. With n
  = length of the list text: up to n + 34 = 2^31 - 1 the list arrives; from there to n + 2 = 2^31 - 1 it is sent, but
  the client gives up with RECEIVE_FAILURE and the counters are apart for good (`Boundaries.ListTooLongToReceive`); from
  n + 2 = 2^31 the server announces the list and cannot seal it, and the client waits for ever
  (`Boundaries.LongListDeadlock`); from n + 1 = 2^32 the announced size wraps around, to 0 for two lengths, which the
  client takes for no files (`Boundaries.ListAnnouncedIff`, `Boundaries.ListTakenForEmpty`).
- The server takes names as they come: only the client's validity check keeps a name with a slash, and so a path outside
  the user's directory, from being asked for (`Threads.StaysInDirectoryIff`, `Threads.SlashCanLeave`).
- The counter travels big-endian in sealed messages and in host order in the handshake messages M3 and M4.

## Model

| member | source | states |
|---|---|---|
| Guarantees.LockStep | src/modules/Server.cpp:509-549 | in every reachable state at most one direction has messages in flight, the logical counters differ by exactly the counted messages in flight, and those carry consecutive counters; also while chunks stream unacknowledged |
| Guarantees.CountersAreIndices | src/modules/Client.cpp:1378-1388 | with nothing in flight and no handshake running, both 32-bit counters equal the logical counter modulo 2^32 and both sides hold the same key; `Theorems.AlwaysCounted` is for states with messages in flight |
| Guarantees.HandshakesTogether | src/modules/Server.cpp:33-42 | with nothing in flight, both sides are in a handshake or neither, and then at the same message, a multiple of 2^32; `Theorems.AlwaysCounted` is for states with messages in flight |
| Guarantees.Framing | src/utils/SocketManager.cpp:113-144 | the reads made are exactly the first messages sent, and the unread stream is exactly the concatenation of the rest |
| Guarantees.FirstRequestsFillThePacket | src/modules/Server.cpp:994-999 | every first request has the one length the dispatch loop reads |
| Guarantees.OutcomesAreAtomic | src/modules/Client.cpp:334-1160 | finished commands have exactly the codes, lists and message counts of the atomic commands, whatever the interleaving and however many handshakes interrupted them |
| Guarantees.FilesAreAtomic | src/modules/Server.cpp:356-933 | whenever the client is between commands both directories are what the atomic commands made them |
| Guarantees.NoDeadlock | src/modules/Server.cpp:454-983 | a reachable state in which nothing can happen is a finished session, and conversely |
| Theorems.AlwaysInLockStep | src/modules/Server.cpp:637-695 | `LockStep` after every run of a session |
| Theorems.AlwaysCounted | src/modules/Server.cpp:33-42 | after every run, messages in flight or not, each side's 32-bit counter is its logical counter modulo 2^32 outside a handshake, and a handshake runs only at a multiple of 2^32 |
| Theorems.AlwaysFramed | src/messages/Generic.cpp:132-137 | `Framing` after every run of a session |
| Theorems.AlwaysAtomic | src/modules/Client.cpp:1209-1363 | after every run the outcomes so far are those of the atomic commands, and between commands so are both directories |
| Theorems.NeverStuck | src/modules/Server.cpp:985-1068 | after every run something can happen unless the session is complete |
| StepCount.CountStep | src/modules/Server.cpp:512-549 | every step keeps the invariant and uses up exactly one of the steps left |
| StepCount.EveryRunEndsAlike | src/modules/Client.cpp:1209-1363 | every run that cannot go on has exactly the number of steps that the atomic message counts and the handshakes give, has finished every command with its atomic outcome, and no run is longer |
| Network.StepInv | src/modules/Server.cpp:1000-1024 | each of the five events keeps the asynchronous invariant |
| Network.EveryRun | src/modules/Server.cpp:985-1068 | the invariant holds after every run from the initial state |
| Network.StepBegin | src/modules/Client.cpp:1320-1324 | the client's look into the server's directory before a delete sees the atomic directory although messages may be in flight |
| Network.AbortKeepsFiles | src/modules/Client.cpp:1079-1113 | an aborted delete leaves the server's directory as it was |
| Rendezvous.IncrementGood | src/modules/Server.cpp:33-42 | moving both counters past a message keeps the parties matched, and at the maximum both enter the handshake with the interrupted place kept |
| Rendezvous.OpClientSends | src/modules/Client.cpp:575-602 | every operation message of the client has the length the server waits for, is accepted under its counter and keeps the parties matched |
| Rendezvous.OpServerSends | src/modules/Server.cpp:509-549 | every operation message of the server has the length the client computed, is accepted and keeps the parties matched |
| Rendezvous.LogoutServerSends | src/modules/Server.cpp:943-983 | the logout reply is accepted, counted by neither side, ends the session, and leaves the server with a key of 16 zero bytes |
| Rendezvous.M3Delivered | src/modules/Server.cpp:121-225 | M3 delivered: both sides hold the key of the two secrets, `Env.SharedKey`, and what client key followed by server key is to be signed; which other M3 the client accepts is `Certification.M3AcceptedIff` |
| Rendezvous.M1Delivered | src/modules/Client.cpp:59-120 | from any state, delivery of M1 leaves the server with the client's user name and public key |
| Rendezvous.M4Delivered | src/modules/Server.cpp:243-289 | from any state, delivery of a conforming client's M4 is accepted, with both counters at 2; which other M4 the server accepts is `Authentication.M4AcceptedIff` |
| Rendezvous.M4Good | src/modules/Server.cpp:243-289 | a conforming client's M4 is accepted and keeps the parties matched |
| Rendezvous.M5Good | src/modules/Client.cpp:279-318 | the verdict under counter 2 is accepted, both counters restart at 0 and the interrupted command resumes |
| Rendezvous.BeginGood | src/modules/Client.cpp:1226-1335 | a command starts its conversation or is refused with its atomic outcome |
| Rendezvous.Turn | src/modules/Server.cpp:454-983 | a matched pair is never both waiting |
| Lockstep.Advance | src/modules/Server.cpp:356-933 | past the counter, both sides reach the next place of the command or end it with the atomic outcome and effect |
| Lockstep.SentinelIffLoneError | src/modules/Server.cpp:367-370 | the list text is the failure sentinel exactly when the only file is called "error" |
| Reaching.Handshake | src/modules/Server.cpp:66-341 | from any place of a conversation the five messages can be delivered, and then both sides go on where they were, with counter 0 and as key the first 16 bytes of the digest of g^(a*b) mod p for the secrets a and b they chose |
| Reaching.UpMessage | src/modules/Server.cpp:671-683 | whatever the counter, the client's next message can be delivered and both sides go past it, a handshake in between at the maximum |
| Reaching.DownMessage | src/modules/Client.cpp:588-602 | the same of the server's next message |
| Asking.AskedEnds | src/modules/Client.cpp:1204-1371 | after a finished session, every run of one more command in reach that cannot go on has given its atomic outcome and files |
| Boundaries.ListSentIff | src/modules/Server.cpp:406-420 | a list is announced with its true size and followed by the third message exactly when that message's length fits in an int |
| Boundaries.ListAnnouncedIff | src/modules/Server.cpp:372-378 | the announced size is the true one exactly below 2^32, and which lengths wrap around to 0 |
| Boundaries.ListReceivedIff | src/utils/SocketManager.cpp:130-144 | a third message that is sent is counted by the client exactly when its sealed length fits in an int; otherwise the client returns RECEIVE_FAILURE |
| Boundaries.ListWholeIff | src/modules/Client.cpp:334-454 | below the wrap-around of the size, every run of a list request that cannot go on ends with the directory's names exactly when the directory is not the lone file "error" and the sealed third message fits in an int |
| Boundaries.LongListDeadlock | src/modules/Server.cpp:406-420 | after any finished session whose list needs a third message that does not fit in an int, asking for the list leads to a state in which neither party can move, the client waiting for the announced message |
| Boundaries.ListTooLongToReceive | src/utils/SocketManager.cpp:130-144 | when the third message fits in an int only without its envelope, the client ends with RECEIVE_FAILURE and the server has counted one message more |
| Boundaries.ListTakenForEmpty | src/modules/Client.cpp:403-406 | a list whose announced size wraps around to 0 ends with SUCCESS and no names although there are files |
| Boundaries.ListAnsweredIff | src/modules/Server.cpp:367-370 | a list request is answered exactly when the directory is not the lone file "error" |
| Boundaries.LoneErrorDeadlock | src/modules/Client.cpp:360-380 | after any finished session whose directory is the lone file "error", asking for the list leads, whatever the counter, to a state in which neither party can move |
| Boundaries.DeleteAnsweredIff | src/modules/Server.cpp:884-901 | the answer to a delete question is replied to exactly when it confirms and the file is there |
| Transfers.UploadConfirmedIff | src/modules/Server.cpp:622-706 | in every run of an accepted upload, when the server first comes to confirm, the stored file is the client's exactly when the size is not four billion; at that size it is empty |
| Transfers.UploadStored | src/modules/Client.cpp:650-830 | every run of an upload below four billion bytes that cannot go on has stored the client's bytes, and the client has SUCCESS and every message counted |
| Transfers.UploadLost | src/messages/Upload.cpp:30-32 | with four billion bytes, whatever the counter, some run does come to the server confirming an empty file while the client is about to send its first chunk |
| Transfers.EmptyUploadKept | src/modules/Server.cpp:584-619 | that empty file stays, whatever bytes follow, until renamed away or deleted with confirmation |
| Transfers.UploadStartsIff | src/modules/Client.cpp:646-655 | one step: past a positive reply the server waits for the client's first chunk exactly when the size is not four billion; then it confirms an empty file |
| Transfers.DownloadWholeIff | src/modules/Client.cpp:540-619 | every run of a download that cannot go on leaves the client with the stored file exactly when its size fits in 32 bits |
| Transfers.DownloadStaysShort | src/modules/Client.cpp:540-619 | at no moment of a download, whatever the stored size, does the client hold 2^32 bytes or more |
| Transfers.DownloadTakenForEmpty | src/modules/Server.cpp:502-509 | a stored file of a positive multiple of 2^32 bytes is downloaded as an empty file, with SUCCESS |
| Transfers.DownloadAnnouncedIff | src/messages/Download.cpp:95-98 | one step: the announced chunk count is the file's exactly when the size fits in 32 bits |
| Boundaries.DownloadsStayInReach | src/messages/Upload.cpp:32 | from files within the upload limit, every later download is announced with its true size |
| Models.AssumptionsHold | src/crypto/AesGcm.cpp:45-157 | for every valid user some environment meets all the contracts asked of the foreign parts, so no result is about nothing |
| Models.SessionsExist | src/modules/Client.cpp:1163-1371 | any valid user, any listable files below four billion bytes and any uploads, downloads, renames and deletes make a session the main results apply to |
| Models.FinishedSessionsExist | src/modules/Server.cpp:985-999 | any listable directory and any local files, of any size, are those of a finished session, so the results about one more command speak of every directory |
| Names.IsStringValid | src/utils/FileManager.cpp:209-236 | accepts exactly the names all of whose characters are in the 66-character whitelist, of 1 to 34 bytes, other than "." and ".." |
| Names.Strspn | src/utils/FileManager.cpp:212-212 | the longest start whose characters are all in the whitelist |
| Names.ValidNameIff | src/utils/FileManager.cpp:209-236 | the specification and the step functions go by exactly those names |
| Names.SkippedIff | src/modules/Client.cpp:1233-1328 | the menu and the specification skip a command exactly when one of its names is not accepted or a file to delete is missing |
| Authentication.M1AcceptedIff | src/modules/Server.cpp:77-97 | the server goes on from a first message exactly when it names a registered user, with the key it gives |
| Authentication.M4AcceptedIff | src/modules/Server.cpp:243-289 | of all byte strings, the server reaches the ACK verdict on exactly those that carry counter 1, open under the session key and hold a signature that verifies under the user's registered key over client key and server key; the others by cause |
| Authentication.VerdictSent | src/modules/Server.cpp:291-340 | M5 opens to ACK exactly for a verified signature; otherwise it opens to NACK and the server has failed with AUTHENTICATION_FAILURE |
| Authentication.SignedIn | src/modules/Server.cpp:66-341 | whatever bytes a server was sent, outside a handshake its latest handshake was five turns whose M4 verified under the registered key of its user, and its key is the one of the two secrets or erased |
| Authentication.RunsAreSignedIn | src/modules/Server.cpp:985-1068 | the same of every run of the step function against an arbitrary peer |
| Authentication.StrangersChangeNothing | src/modules/Server.cpp:985-995 | a peer that never signs in changes no file and has no operation message counted |
| Certification.M2AcceptedIff | src/modules/Client.cpp:108-117 | the client goes on from M2 exactly when it says ACK |
| Certification.M3AcceptedIff | src/modules/Client.cpp:119-242 | of all byte strings, the client goes on to sign from exactly those with counter field 0, a readable key, a signature that opens, a certificate that verifies, and a signature that verifies under its key over client key and server key; the others by cause |
| Certification.M5AcceptedIff | src/modules/Client.cpp:279-318 | the handshake ends well exactly when M5 opens under the session key, carries counter 2 and says ACK; otherwise nothing more is sent |
| Certification.Certified | src/modules/Client.cpp:59-319 | whatever bytes a client was sent, outside a handshake its latest handshake had such an M2, M3 and M5, and its key is the one made there |
| Certification.OperationsFollowCertification | src/modules/Client.cpp:1204-1371 | every operation message a client ever sends is sealed under the key of a handshake, the latest before it, that authenticated the server |
| Answers.ReplyDecides | src/modules/Client.cpp:385-1160 | whatever it is told, a client reports SUCCESS exactly for the last reply of a command, goes on exactly for a middle one, and otherwise ends with the error of that reply and its files untouched |
| Answers.LogoutReplyDecides | src/modules/Client.cpp:961-990 | the reply to a logout ends the session, with SUCCESS exactly when it says ACK |
| Answers.ClientRefuses | src/modules/Client.cpp:378-391 | a message that does not open or carries another counter ends the command with the code that says so and changes no file, key or counter |
| Answers.ServerRefuses | src/modules/Server.cpp:1016-1024 | such a message ends the request, or in the dispatch loop the session, and changes no file, key or counter |
| Answers.CommandsKnown | src/modules/Server.cpp:1028-1067 | an accepted message is counted in the dispatch loop exactly when its first byte is one of the six commands; another is ignored |
| Answers.LocalFileKept | src/modules/Client.cpp:472-560 | whatever bytes a client is sent, a local file keeps its bytes: a download never writes over a file |
| Logout.LogoutErases | src/modules/Server.cpp:968-969 | after any run of a session, once the server has replied to the logout its key is 16 zero bytes for good |
| Logout.NothingAfterLogout | src/modules/Server.cpp:968-1024 | under attack, too, the key stays erased, and from the reply on the server accepts no message, acts on none and changes no file |
| Replay.NoReplay | src/modules/Server.cpp:1018-1024 | under attack, refused messages or not, the counters a side acts on strictly increase between handshakes and no message is acted on twice, even epochs apart, unless one frame of the run was sealed under two keys or one key was agreed on twice |
| Replay.RunLocal | src/modules/Client.cpp:1378-1388 | each side's counter is its logical counter modulo 2^32 and its key belongs to its epoch, whatever the adversary delivers |
| Containment.ServerFed | src/modules/Server.cpp:671-674 | the only counted message the server can be made to accept is the next one the client sent |
| Containment.ClientFed | src/modules/Client.cpp:588-591 | the only counted message the client can be made to accept is the next one the server sent |
| Containment.UntilRefusal | src/modules/Client.cpp:564-602 | until a side first refuses a message, the attacked parties are in a state of an undisturbed run and what each accepted is a prefix of what its peer sent |
| Conservation.StepEffect | src/modules/Server.cpp:622-683 | a server step changes the directory exactly by the effect of the place it resumes at |
| Conservation.StoredFileKept | src/modules/Server.cpp:584-619 | over any run of the server, whatever bytes it is sent, a stored file keeps its bytes until it is renamed away or deleted with a received confirmation; no upload touches it |
| Conservation.RenameStep | src/modules/Server.cpp:760-772 | a rename moves one file's bytes to a free name and keeps every other file, or changes nothing |
| Threads.PathsInjective | src/modules/Server.cpp:468-468 | paths of slash-free users are equal only for the same user and name |
| Threads.OwnDir | src/modules/Server.cpp:756-768 | a request's effect on paths is its effect on the user's own directory |
| Threads.OtherDir | src/modules/Server.cpp:890-899 | and leaves every other user's directory unchanged |
| Threads.PathChecks | src/modules/Server.cpp:472-490 | the handlers' existence checks on paths decide exactly as checks on the user's own directory |
| Threads.RunsAsIfAlone | src/modules/ServerMain.cpp:72-79 | for every interleaving of threads of different users, each thread goes through the same states, sends the same messages and leaves the same directory as when its turns are taken alone |
| Threads.StaysInDirectoryIff | src/modules/Server.cpp:468-468 | the path of a request lies directly in its user's directory exactly when the name holds no slash |
| Threads.CreatedInDirectoryIff | src/modules/Server.cpp:583-590 | an uploaded file shows up in its user's directory exactly when its name holds no slash |
| Threads.SlashCanLeave | src/modules/Server.cpp:468-468 | with the dots resolved, the name "../" + other user + "/" + file of any user is the file of the other user |
| Threads.ValidNamesArePlain | src/utils/FileManager.cpp:209-236 | a valid name has no slash |
| Store.RenameConserves | src/modules/Server.cpp:760-772 | rename keeps the number of copies of every content, never overwrites, and moves exactly one file |
| Store.FilesStay | src/modules/Server.cpp:584-619 | over any sequence of commands a stored file keeps its bytes until renamed away or deleted with confirmation |
| Store.StoredSizesStay | src/modules/Client.cpp:646-649 | uploads keep stored files within four billion bytes, so the 32-bit announcement is their size |
| Store.SmallFilesInReach | src/modules/Client.cpp:646-649 | with every file below four billion bytes, no sequence of commands leads to an upload or download outside the main results |
| Chunks.ChunkBounds | src/modules/Client.cpp:558-563 | each chunk has between 1 and CHUNK_SIZE bytes and the chunks tile the file |
| Chunks.ChunkEnds | src/utils/FileManager.cpp:98-106 | (chunks - 1) * CHUNK_SIZE + last == size, and there is no chunk exactly when the file is empty |
| Chunks.SplitConcat | src/modules/Client.cpp:546-613 | the chunks written one after another give the file back |
| Chunks.UploadPlanAgrees | src/messages/Upload.cpp:24-33 | both sides plan the same chunks for an accepted upload exactly when it is not four billion bytes |
| Chunks.DownloadPlanAgrees | src/messages/Download.cpp:95-98 | both sides plan the same chunks for a download exactly when the size fits in 32 bits |
| FloatCeil.ChunkCountExact | src/utils/FileManager.cpp:98-101 | for every size below 2^53 the ceiling of the quotient rounded to nearest (section 4.3.1 of IEEE 754-2008) is the integer ceiling |
| Listing.SplitJoin | src/modules/Client.cpp:445-449 | repeated getline on commas undoes the comma join |
| Listing.JoinDropsComma | src/utils/FileManager.cpp:122-131 | appending a comma after each name and dropping the last one is the comma join |
| Listing.ListRoundTrip | src/modules/Server.cpp:406-416 | the names come back from the NUL-terminated text exactly |
| Listing.SentinelOnlyAlone | src/utils/FileManager.cpp:132-135 | a list of names joins to "error" exactly when it is the lone name |
| Listing.GetFilesList | src/utils/FileManager.cpp:116-136 | the appending loop returns the comma join of the entries, or "error" when the directory is missing |
| Listing.GetLine | src/modules/Client.cpp:445-449 | the name before the next comma |
| Listing.ReadFileNames | src/modules/Client.cpp:445-449 | the getline loop returns the split of the text |
| Bytes.ByteOrders | src/messages/Generic.cpp:144-148 | which byte counts most in network order and in host order |
| Bytes.BE32RoundTrip | src/messages/Generic.cpp:144-148 | a counter survives network byte order |
| Bytes.LE32RoundTrip | src/messages/Upload.cpp:58-93 | a size survives the raw copy of a 32-bit integer |
| Bytes.NameSurvives | src/messages/Rename.cpp:24-25 | a NUL-free name shorter than its field survives strncpy and the conversion back |
| Codecs.NamedRoundTrip | src/messages/Delete.cpp:31-76 | delete and download requests give the name back whatever the random tail |
| Codecs.UploadRoundTrip | src/messages/Upload.cpp:40-97 | an upload request gives name and size back whatever the random tail |
| Codecs.RenameRoundTrip | src/messages/Rename.cpp:34-79 | a rename request gives both names back |
| Codecs.SizedRoundTrip | src/messages/List.cpp:29-62 | ListM2 and DownloadM2 give the size back |
| Codecs.AuthM1RoundTrip | src/messages/Authentication.cpp:51-109 | M1 gives key (up to 1024 bytes) and user name back |
| Codecs.AuthM3RoundTrip | src/messages/Authentication.cpp:186-267 | M3 gives key, IV, AAD, tag, signature and certificate (up to 1500 bytes) back |
| Codecs.NamedLayout | src/messages/Delete.cpp:31-56 | the bytes of delete and download requests: code, NUL-padded name, random tail |
| Codecs.UploadLayout | src/messages/Upload.cpp:40-67 | the bytes of an upload request, the size with its low byte first |
| Codecs.RenameLayout | src/messages/Rename.cpp:34-53 | the bytes of a rename request |
| Codecs.SizedLayout | src/messages/List.cpp:29-44 | the bytes of ListM2 and DownloadM2 |
| Codecs.AuthM1Layout | src/messages/Authentication.cpp:51-78 | the bytes of M1, the key length with its high byte first |
| Codecs.AuthM3Layout | src/messages/Authentication.cpp:186-222 | the bytes of M3 |
| Env.WrapAccepted | src/messages/Generic.cpp:38-148 | a sealed message has the length 32 + plaintext, carries the given IV, its counter, tag and ciphertext in order, opens to the plaintext and is accepted |
| Env.FramesDiffer | src/crypto/AesGcm.cpp:57-62 | two messages under one key with different IVs differ on the wire, whatever they say |
| Env.SecretsAgree | src/crypto/DiffieHellman.cpp:214-244 | modular exponentiation commutes, so both sides derive the same secret |
| Env.SecretIs | src/crypto/DiffieHellman.cpp:214-244 | and that secret is g^(a*b) mod p |
| Env.SessionKeysAgree | src/modules/Server.cpp:121-144 | through the written and read keys, both sides derive the same session key: the first 16 bytes of the digest of g^(a*b) mod p |
| Env.SessionKeyIs | src/modules/Client.cpp:152-174 | the key derived from a secret and whatever key the peer sent, readable or not |
| Memory.CopyTo | src/messages/Rename.cpp:45-52 | memcpy into a buffer at a position replaces exactly those bytes |
| Memory.CopyString | src/messages/Upload.cpp:29-29 | the strncpy loop fills the array with the C string and NULs, cut at the array's length |
| Messages.WriteSimple | src/messages/SimpleMessage.cpp:28-49 | constructor and buffer filling give the code and the random tail |
| Messages.WriteDelete | src/messages/Delete.cpp:19-56 | constructor and buffer filling give the delete request layout |
| Messages.ReadDelete | src/messages/Delete.cpp:63-76 | reading at the advancing position gives the name field |
| Messages.WriteDownloadM1 | src/messages/Download.cpp:19-52 | the download request layout |
| Messages.ReadDownloadM1 | src/messages/Download.cpp:59-73 | its name field |
| Messages.WriteDownloadM2 | src/messages/Download.cpp:95-121 | the reply with the low 32 bits of the size |
| Messages.ReadDownloadM2 | src/messages/Download.cpp:129-142 | its code and size |
| Messages.WriteDownloadMi | src/messages/Download.cpp:162-209 | a download chunk of any size |
| Messages.WriteUploadM1 | src/messages/Upload.cpp:24-67 | the upload request, with the size announced as 0 from four billion bytes up |
| Messages.ReadUploadM1 | src/messages/Upload.cpp:75-97 | its name and size |
| Messages.WriteUploadMi | src/messages/Upload.cpp:140-186 | an upload chunk of any size |
| Messages.ReadUploadMi | src/messages/Upload.cpp:195-216 | its payload |
| Messages.WriteListM2 | src/messages/List.cpp:20-44 | the five message bytes of the list announcement |
| Messages.WriteListM3 | src/messages/List.cpp:91-124 | the list text of the announced length |
| Messages.ReadListM3 | src/messages/List.cpp:132-144 | its code and text |
| Messages.WriteRename | src/messages/Rename.cpp:19-53 | the rename request, which fills the packet |
| Messages.ReadRename | src/messages/Rename.cpp:60-78 | its two names |
| Messages.WriteM1 | src/messages/Authentication.cpp:20-78 | M1 with its zero-padded key and user name |
| Messages.AuthenticationM1.Deserialize | src/messages/Authentication.cpp:85-109 | the key cut to its announced length, and the user name |
| Messages.WriteM3 | src/messages/Authentication.cpp:140-222 | M3 with its zero-padded key and certificate |
| Messages.AuthenticationM3.Deserialize | src/messages/Authentication.cpp:229-267 | all fields of M3 |
| Messages.WriteM4 | src/messages/Authentication.cpp:320-372 | M4 |
| Messages.AuthenticationM4.Deserialize | src/messages/Authentication.cpp:379-398 | all fields of M4 |
| Messages.Generic.Serialize | src/messages/Generic.cpp:72-94 | IV, AAD, tag and ciphertext in order |
| Messages.Generic.Deserialize | src/messages/Generic.cpp:102-125 | the four fields, cut at the same places |
| Messages.Generic.Encrypt | src/messages/Generic.cpp:38-54 | fails exactly for a negative length; otherwise seals that many bytes under the message's AAD |
| Messages.SealFrame | src/messages/Generic.cpp:18-94 | sealing under a counter and writing out gives the frame of the protocol |
| Messages.OpenFrame | src/messages/Generic.cpp:62-125 | what a frame opens to when cut up at the same places |
| SocketManager.Socket.Send | src/utils/SocketManager.cpp:113-120 | the message is sent whole |
| SocketManager.Socket.Receive | src/utils/SocketManager.cpp:130-144 | the next bytes fill the buffer exactly, or the stream has ended or more bytes were read than an int counts, with the code that says how |
| FileManager.FileManager.constructor | src/utils/FileManager.cpp:51-76 | opening to read plans the chunks; opening to write creates an empty file and never touches an existing one |
| FileManager.FileManager.InitFileInfo | src/utils/FileManager.cpp:98-106 | size, chunk count and last chunk size are the integer ones below 2^53 bytes |
| FileManager.FileManager.ReadChunk | src/utils/FileManager.cpp:168-176 | the next bytes of the file, in order |
| FileManager.FileManager.WriteChunk | src/utils/FileManager.cpp:184-192 | the chunk is appended to the file being written and to no other |
| FileManager.Transfer | src/modules/Client.cpp:736-778 | the sender's loop, each chunk in a message sealed and opened again, and the receiver's loop together copy the file byte for byte and change nothing else |
| ServerClass.Server.IncrementCounter | src/modules/Server.cpp:33-42 | the counter moves, or a complete handshake has run, and the server is where the step function is |
| ServerClass.Server.AuthenticationRequest | src/modules/Server.cpp:66-341 | the five messages of a handshake, ending with counter 0 and the new key, or with a recorded failure |
| ServerClass.Server.ListRequest | src/modules/Server.cpp:356-437 | the handler sends the frames and makes the changes of the step function |
| ServerClass.Server.DownloadRequest | src/modules/Server.cpp:454-554 | announces the file or its absence and, unless the announced size is 0, sends its chunks, frame for frame as the step function |
| ServerClass.Server.SendChunks | src/modules/Server.cpp:512-549 | the loop sends chunk i of the file under the counter of message i and ends after the last |
| ServerClass.Server.UploadRequest | src/modules/Server.cpp:568-729 | refuses an existing name, otherwise writes the received chunks to a new file and confirms; the directory is the step function's at every exit |
| ServerClass.Server.TakeChunks | src/modules/Server.cpp:637-695 | the loop has written the chunks before i, and keeps every other file's size bound |
| ServerClass.Server.RenameRequest | src/modules/Server.cpp:742-796 | the directory and the reply code are the step function's, for a missing source, a taken target and a free one |
| ServerClass.Server.DeleteRequest | src/modules/Server.cpp:810-933 | asks, hears the answer and removes the file only when confirmed and present; the directory is the step function's at every exit |
| ServerClass.Server.LogoutRequest | src/modules/Server.cpp:943-983 | the request is counted and the reply is not; once it is sent the object's key is 16 zero bytes |
| ServerClass.Server.Run | src/modules/Server.cpp:985-1075 | whatever bytes arrive, the frames sent, the bytes read and the directory left are those of a run of the step function, which stops only when the peer is gone, a handshake fails or a message is refused |
| ServerHistory.HistoryIsARun | src/modules/Server.cpp:985-1075 | the turns a server object has taken are a run of the step function, so `Conservation.StoredFileKept` is about the object |
| ServerHistory.RunIsAHistory | src/modules/Server.cpp:985-1075 | and every run of the step function is such a history |
| ClientClass.Client.IncrementCounter | src/modules/Client.cpp:1378-1388 | the counter moves, or a complete handshake has run, and the client is where the step function is |
| ClientClass.Client.AuthenticationRequest | src/modules/Client.cpp:59-319 | the client's side of the handshake |
| ClientClass.Client.ListRequest | src/modules/Client.cpp:334-454 | the returned code and names are the outcome the step function records |
| ClientClass.Client.DownloadRequest | src/modules/Client.cpp:472-619 | the returned code is the outcome on record and the local directory the step function's |
| ClientClass.Client.UploadRequest | src/modules/Client.cpp:650-830 | the returned code is the outcome on record |
| ClientClass.Client.SendChunks | src/modules/Client.cpp:736-778 | the loop sends chunk i of the file and ends after the last |
| ClientClass.Client.RenameRequest | src/modules/Client.cpp:842-912 | the returned code is the outcome on record |
| ClientClass.Client.DeleteRequest | src/modules/Client.cpp:1004-1160 | the returned code is the outcome on record |
| ClientClass.Client.LogoutRequest | src/modules/Client.cpp:920-990 | the returned code is the outcome on record |
| ClientClass.Client.Command | src/modules/Client.cpp:1209-1363 | the menu's checks and the checks before the first message, then the request |
| ClientClass.Client.Run | src/modules/Client.cpp:1204-1371 | whatever bytes arrive, the frames sent, the bytes read and the local directory left are those of a run of the step function over the user's commands, up to the logout or the end of the commands |

## Left out

- The inside of AES-GCM, SHA-256, RSA, X.509 and PEM: tables in `Env`, with `SealOpens`, `KeysReadBack`,
  `SignaturesVerify` as the contracts an honest run uses, and `Plausible`, `Fresh`, `SealedOnce` as those used against
  an adversary: no forged message opens, and the run's session keys, and the frames sealed under different keys, differ.
- Replay.NoReplay: counted messages only. The handshake messages and the logout reply are delivered intact and in order,
  because the last handshake message is sealed under the new key with counter 2 before both counters restart at 0.
- Threads.RunsAsIfAlone: one session per user, slash-free names and users, and a path is a string of bytes; only
  `Threads.SlashCanLeave` resolves `..`.
- Guarantees.OutcomesAreAtomic: for commands in reach (`Store.InReach`); what happens outside is stated in `Boundaries`
  and `Transfers`.
- Boundaries.ListWholeIff: below the wrap-around of the announced size; beyond it only the lengths announced as 0 are
  followed to the end of the command. A third message of exactly 2^32 bytes, whose length narrows to 0, counts as one
  that cannot be sealed.
- Transfers.UploadConfirmedIff: speaks of the server's first confirmation. After a four-billion-byte upload the client's
  chunks reach a server that waits for commands; what it makes of them depends on the client's bytes.
- Transfers.DownloadWholeIff: assumes that opening a message keeps its length, as AES-GCM does.
- The limit some operating systems put on the bytes of one send or receive call.
- ServerClass.Server.Run: stored files are below 2^53 bytes, beyond which the floating-point chunk count is not exact.
- ServerClass.Server.TakeAnswer: a peer that closes the connection in the middle of a request ends the request; the
  code's checks for -1 only let it go on with an uninitialised buffer.
- Failing sends, allocations and encryptions, other than of a negative length, and file system calls that fail for
  reasons other than a missing or existing file.
- Sub-directories, links and permissions; a user's directory exists and holds regular files only.
- A download sends the file as it was when it was opened, and an upload likewise; nothing else changes either directory
  meanwhile.
- A registered user's public key that cannot be parsed (the server's negative answer M2); unregistered users are
  modelled.
- Key and certificate lengths announced beyond their fields are cut to the field; a C string without terminator ends
  with its field.
- Raw copies of 32-bit integers are those of a little-endian host on both sides.
- A handshake in the middle of a session that names another user, which a conforming client never sends.
- Raw random bytes, menus, prompts, progress output, signals, socket creation, memory cleansing and object copying.
- The client's and the server's directories are on one machine, as the delete command's look into the server's directory
  assumes.
- Commands after a logout; the menu's exit entry, which is a logout.
