# Commit-Craft: push protocol, wire format and request parser

A Dafny model of the parts of Commit-Craft that carry its promises, with proofs of those promises.
`dafny verify dfyconfig.toml` checks the whole project.

Three parts of the program are modelled.

**The push server** (`Main_Server.c`). Workers take connections from a linked FIFO guarded by a mutex
and a condition variable. A PUSH compares the branch head with the parent that the client names,
stores each file under its hash, merges the files into the manifest of the branch, stores the manifest
as an object and moves the head, all under `branch_lock`. A PULL reads a head and an object without a
lock.

- `Manifest`: the text of a manifest, its loader, and the merge into the 1024-entry array in place.
- `Store`: heads, objects and one push as a single atomic step; the invariant `Closed` (every object is
  stored under its hash, every head names a stored manifest that parses to at most 1024 distinct names
  whose hashes are all stored).
- `PushOutcome`: what one push leaves behind, in terms of heads, objects and manifest lines alone.
- `PushServer`: the connection handler statement by statement on a live socket, proved equal to `Serve`.
- `Commands`: from the bytes of each command line to the reply.
- `WorkQueue`: the linked list with its two ends.
- `Protocol` and the modules named after it: one acceptor and any number of workers as a transition
  system with one step per statement on shared state. The network is part of it: a worker in `recv` can
  go on only when the next part of its client's stream has come. A run is any finite interleaving. The
  invariants are split by concern (`ProtocolQueue`, `ProtocolPush`, `ProtocolStore`, `ProtocolHistory`);
  `ProtocolRuns` puts them together. The consequences are in `ProtocolTheorems` (chains and races),
  `ProtocolPulls` (what a PULL sees), `ProtocolProgress` (when the program cannot go on), `ProtocolBound`
  (how long it can go on by itself, and that everyone is answered), `ProtocolParts` (nothing is accepted
  before it has come) and `ProtocolStalls` (a client that stops sending). `ProtocolRequests` ties the
  requests of the system to byte streams.

**The push wire format** (sender in `ProxyServer.c`, receiver in `Main_Server.c`). `Wire` has the sender,
the receiving loops over arbitrary `recv` fragments, and the decoder as a function of the byte stream;
`WireSender` says in bytes what is sent; `WireRoundTrip` proves that the decoder undoes the sender;
`PushEndToEnd` connects bytes and repository, and `PushCuts` says what becomes of a push whose stream
ends early, at any byte. `SingleFileServer` is the older server (`real_project_repo/Main_Server.c`),
which accepts one file per push, joins the bytes that came with the header to the rest, and aborts on a
short stream.

**The HTTP request library** (`proxy_api.c`). The request line is the absolute form of section 3.2.2 of
RFC 9112 with GET only; header lines are those of section 5 of RFC 9112 in the shape `key: value`.

- `HttpText`, `HttpMessage`, `HttpRequest`: what the parser reads and the printer writes, on strings;
  round trip and normal form. `HttpLines` has the irregular request lines, `HttpRefusals` what is refused;
  `HttpNormal` and `HttpReread` treat header keys that span lines.
- `Tokenizer`, `LineTokenizer`: `strtok_r` on one buffer in place, and the nested calls of the parser.
- `HeaderTable`, `HeaderRuns`: the growable header array with tombstones, and whole histories of calls.
- `HeaderReader`, `RequestPrinter`, `RequestObject`: the parser's header loop, the printer into a
  caller's buffer, and the request object with its buffer, path copy and header table.

`CStrings` holds the library functions these parts share (`strspn`, `strcspn`, `strstr`, `%s`, `%d`, `%lu`),
`Sums` sums of lists.

## What the statements rest on

- **Hash.** SHA-1 is a parameter `Hasher` of which only the shape of the result is known. That it does not
  collide on stored contents is a side condition where it is needed: `CollisionFree` on each step of a
  run, `FilesFree` on the files of a push, `Injective` on a set of contents in `Store`.
- **Characters.** A C `char` is a Dafny `char`; no statement depends on the size of the alphabet.
- **Head writes.** `write_branch_head` opens the file for writing and then prints (`Main_Server.c:137-142`)
  while PULL reads it without the lock (`Main_Server.c:160`). The write is taken as one step.
- **Unchecked calls.** `mkstemp` for files and `rename` in the root server are taken to succeed
  (`Main_Server.c:249`, `Main_Server.c:270`), as are its writes to disk and its hashing. The failures that
  the code does check are modelled: `Luck` in the root server, `Faults` in the older one.
- **Sends.** `send` does not block: a reply, and an object on PULL, fit what the socket takes. Receiving
  does block, and `ProtocolProgress` and `ProtocolStalls` say what follows from that.
- **Conflict reply.** It is sent before `branch_lock` is released (`Main_Server.c:204-205`); the transition
  system records it after the release.
- **Unset memory.** Where `sscanf` leaves a variable unset or a word overruns its array, the decoder
  answers `Unset`, `NotSet` or `None`, and the handlers are specified for the other outcomes. In the same
  way `OutOfBounds` and `Undefined` mark request texts on which the parser leaves its buffer. A manifest
  name of exactly 255 characters, which no push can produce, is left without a terminator by `strncpy`
  (`Main_Server.c:223`); here it ends where its characters end.
- **Allocation.** `malloc` can fail in `enqueue_client` and for the receive buffer of a push, as the code
  provides for; every other allocation is taken to succeed.
- **errno.** The branch that rejects a port when `strtol` leaves `EINVAL` behind (`proxy_api.c:503-514`) is
  taken as dead: base 10 does not set it, and no earlier call is taken to have left it.

## Where the code and its documents part

`DECS_Report_Updated.tex:256` promises that a push whose connection drops is discarded. The root server
only leaves its receive loop (`Main_Server.c:255`) and goes on. `PushCuts.CutPushCommits` has the exact
condition, for every byte at which the stream can end: a push that is not rejected and gets its receive
buffer is committed, with what came of its last file, exactly when the stream ends behind the terminator
of the last file header; and a cut between the command word and the count commits an empty manifest on
what is left of the branch name, if that branch has no commits. The terminator counts, not the 256 bytes
of the header, because the length that `recv` returns is not looked at (`Main_Server.c:242`): a header
that is cut in its padding stores an empty file. At every other byte nothing is committed as far as the
code is defined: the loop reads a header whose terminator has not come and goes on with unset bytes, as
in the report's own case of a cut in the fifth of ten files. The older server does abort
(`SingleFileServer.ServeOneFile`).

All this is about a stream that ends. While a client keeps its connection open and sends nothing more, a
push is neither accepted nor discarded (`ProtocolParts.UnfinishedNotAccepted`), and it holds up more than
itself: `ProtocolStalls.SilentClientStalls`.

The sender announces the number of status entries before it knows which files open
(`ProxyServer.c:384`, `ProxyServer.c:402`). `WireRoundTrip.PushRoundTrip` shows that the server rebuilds
the push if and only if no entry was skipped. If one was, the proxy waits for the reply and the server for
a header, with `branch_lock` held: `ProtocolStalls.SkippedEntryStalls`.

"At most one accepted push per parent" does not hold, since a head can return to an earlier hash:
`Store.ParentAcceptedTwice` has four pushes that show it. `ProtocolTheorems.SharedParentMovedBack` says
exactly when a second one gets through, and `ProtocolTheorems.ExactlyOneWinner`
proves the race of `test_race.sh` for any number of clients and any interleaving under the condition
that the shared parent is no manifest's hash.

Printing an accepted request and parsing it again gives the same request exactly when the printed form
fits the parser's own size limit; `HttpRequest.PrintingCanOverflow` has an accepted request for which it
does not, because one delimiter between protocol and host is accepted and three are printed.

## Model

| member | source | states |
|---|---|---|
| `Manifest.LoadPrint` | Main_Server.c:217-228 | For every list of at most 1024 entries with word names of at most 255 characters and 40-character hashes, the line loader gives back exactly the list the writer printed |
| `Manifest.LoadBounded` | Main_Server.c:217-219 | However long the manifest file is, loading never goes past the 1024 entries of the table |
| `Manifest.LineScans` | Main_Server.c:218-222 | One printed line is one `fgets` line, and its two conversions give back name and hash, whatever follows it |
| `Manifest.PrintAt` | Main_Server.c:297-299 | For every list of entries and every k, the text of entry k, name, blank, hash and newline, stands behind the text of the entries before it |
| `Manifest.LoadLines` | Main_Server.c:217-228 | The loader on any text: a line is what `fgets` takes, at most 511 characters; a line that does not scan is skipped; nothing is read once 1024 entries are in |
| `Manifest.EntryScans` | Main_Server.c:218-225 | Two words on a line, with any white space around them, are name and hash; a hash is cut at 40 characters |
| `Manifest.EntryMissing` | Main_Server.c:218-225 | Fewer than two words on a line give no entry |
| `Manifest.LoadManifest` | Main_Server.c:209-231 | The loading loop leaves in the array exactly the entries that the text denotes, and counts them |
| `Manifest.PrintManifest` | Main_Server.c:297-299 | The printing loop writes the text form of the entries in use, in order |
| `Manifest.UpsertInPlace` | Main_Server.c:272-286 | The search loop replaces the hash of the first entry with the name, else appends while fewer than 1024 are used, else drops; all other entries stay |
| `Manifest.MergeExact` | Main_Server.c:272-286 | After merging any list of pushed files: old entries keep their positions, new names follow in order of first occurrence until the table is full, every listed name has its last pushed hash or else its old one, and names stay distinct |
| `Manifest.AppendExact` | Main_Server.c:281-286 | A name that is not listed is appended below the limit and dropped at the limit, and either way the merge stays exact |
| `Manifest.MergeIsOverride` | Main_Server.c:272-286 | While every new name fits, the merged table as a map is the old map overridden by the pushed files, the last occurrence of a name winning |
| `Manifest.MergeWellFormed` | Main_Server.c:272-286 | Merging keeps every entry printable and the count within 1024 |
| `Manifest.MergeEntries` | Main_Server.c:272-286 | The outcome of a merge entry by entry, for any list of pushed files: old entries keep their place, and their hash unless their name is pushed; the last pushed hash of a name counts; every added name is pushed, in order of first occurrence; below 1024 entries every pushed name is listed |
| `Wire.Socket.Recv` | Main_Server.c:254-255 | A `recv` returns at least one byte unless the stream has ended, at most what was asked for, and never reorders or loses bytes |
| `Wire.Socket.RecvAll` | Main_Server.c:242 | `MSG_WAITALL` returns exactly the size asked for unless the stream ends first, for every fragmentation |
| `Wire.SendFile` | ProxyServer.c:415-421 | However little each `sendfile` takes, the loop sends on until the file is through or a call fails: what goes out is the file up to the sum of what the calls before the first failing one take |
| `Wire.SendPush` | ProxyServer.c:382-424 | The sending loop puts on the wire the command line and, for each entry that is changed and opens, a 256-byte header and its body; other entries are skipped |
| `WireSender.FileOnWire` | ProxyServer.c:408-421 | A file on the wire byte by byte: size and name in text, NULs up to 256 bytes, then the content |
| `WireSender.SkippedAddsNothing` | ProxyServer.c:390-403 | Anywhere in a list, an entry without a path, one that is not changed and one that does not open add no byte |
| `WireSender.ChangedIsSent` | ProxyServer.c:410-421 | A changed file that opens is sent with a header that announces its whole size, and with as many bytes as the kernel takes before a call fails |
| `WireSender.ListedFilesDecode` | ProxyServer.c:382-424 | For any list of changed files that open and that the kernel takes whole, in however many calls: the bytes sent are the command line with their number and then every file, and the server rebuilds exactly these names and contents |
| `Wire.ReadLine` | Main_Server.c:357-364 | Reading byte by byte gives, for every fragmentation, the text before the first newline, at most 255 bytes, and consumes no byte behind it |
| `Wire.ReceiveBody` | Main_Server.c:251-258 | For every fragmentation the receive loop gives the first `file_size` bytes, or all there are when the stream is cut |
| `WireRoundTrip.HeaderIsText` | ProxyServer.c:410-413 | Any first bytes of a header that fits its 256-byte array are a terminated string equal to what was printed if they reach behind the printed text, and hold no terminator otherwise |
| `WireRoundTrip.DecodeOneFile` | Main_Server.c:241-258 | A file header and body in front of any bytes decode to that name and content and leave those bytes |
| `WireRoundTrip.DecodeFileBody` | Main_Server.c:241-258 | With a body of any length behind the header, the declared size or what there is of it is taken as content |
| `WireRoundTrip.DecodeCutHeader` | Main_Server.c:241-258 | A stream that ends inside a header gives an empty file of that name if the terminator has come, and nothing that is defined otherwise, since the returned length is not looked at |
| `WireRoundTrip.DecodeAllFiles` | Main_Server.c:240-258 | Any list of files sent one after the other is decoded to the same list, in front of any further bytes |
| `WireRoundTrip.TooFewFiles` | Main_Server.c:240-246 | A receiver told to expect more files than were sent ends on a header that is not there |
| `WireRoundTrip.LineReads` | Main_Server.c:356-372 | The command line is decoded to branch, count and parent, and the bytes behind its newline are left in the stream |
| `WireRoundTrip.PushRoundTrip` | ProxyServer.c:382-424 | The server rebuilds branch, parent and every name and content that the proxy sent, with no byte over, if and only if the sender skipped no entry |
| `WireRoundTrip.PushDecodes` | Main_Server.c:356-372 | The same for any branch name and any list of files, in front of any further bytes |
| `WireRoundTrip.CutFiles` | Main_Server.c:240-258 | For every byte at which a stream of files can end: once the last header has come with its terminator, all files decode, the last one with the bytes of its body that came; at any earlier byte the receiver ends on a header without a terminator |
| `WireRoundTrip.CutBodyDecodes` | Main_Server.c:242-255 | A push whose stream ends inside its files is still decoded if and only if the last header has come with its terminator, and then exactly the last file is reduced to what came of its body |
| `Store.ClosedHead` | Main_Server.c:312 | Moving a head to a stored manifest of well-formed, distinct, stored entries keeps the store closed |
| `Store.PutFilesClosed` | Main_Server.c:240-270 | Storing any list of files keeps the store closed and every earlier object, and afterwards holds every file |
| `Store.MergeGood` | Main_Server.c:272-286 | Once their files are stored, the merged entries are well formed, distinct, at most 1024 and all stored |
| `Store.CommitManifest` | Main_Server.c:290-312 | Storing the manifest and then moving the head keeps the store closed; this needs the files to be stored first |
| `Store.AtomicPushKeepsClosed` | Main_Server.c:193-320 | Every push, accepted, rejected or failed, keeps the store closed under references and never loses or rewrites an object, given that SHA-1 does not collide on what is stored |
| `Store.PullAfterPush` | Main_Server.c:158-187 | After an accepted push, PULL returns bytes that hash to the head and parse to the exact merge of the entries of the manifest that the head named before, or of none, with the pushed files |
| `Store.PullAnswers` | Main_Server.c:158-175 | A branch without a head, or with an empty one, has no commits; a head with a stored object is answered with that object; a head without one with its own error |
| `Store.ParentAcceptedTwice` | Main_Server.c:196-207 | For every hash function: writing a file, changing it and changing it back brings the head back to an earlier manifest, after which a second push on the same parent is accepted |
| `Store.DecodedNamesGood` | Main_Server.c:244-246 | Whatever bytes a client sends, every file name that scans is a word the manifest can hold |
| `PushOutcome.FileIsStored` | Main_Server.c:262-270 | Every file of a push is stored under the hash of its content, unless a later one with another content has the same hash |
| `PushOutcome.OtherObjectsStay` | Main_Server.c:262-270 | No other object is added, changed or lost by storing files |
| `PushOutcome.PushStops` | Main_Server.c:196-239 | A head that is neither empty nor the parent: conflict and nothing changes; no buffer: dropped and nothing changes; no temporary file for the manifest: the files are stored, no head moves and the hash in the reply is empty |
| `PushOutcome.PushMoves` | Main_Server.c:289-320 | Any other push moves the head of its own branch alone, to the hash in the reply, of a text that is stored; nothing but that text and the files is added |
| `PushOutcome.ManifestAfterPush` | Main_Server.c:209-312 | What an accepted push makes of the manifest that the head named, or of none, line by line: its lines keep place and hash unless a file of that name is pushed, a pushed name has the hash of its last content, below 1024 lines every pushed name is listed, and nothing else is |
| `PushServer.Server.ReceiveFile` | Main_Server.c:241-258 | One round of receiving gives the file that the byte stream denotes and leaves exactly the bytes behind it |
| `PushServer.Server.StoreFile` | Main_Server.c:241-286 | One round of the file loop stores the received content under its hash and enters name and hash in the table, and changes nothing else |
| `PushServer.Server.ReceiveFiles` | Main_Server.c:240-287 | After the loop the object store, the table and the unread bytes are those of the decoded list of files |
| `PushServer.Server.LoadOldEntries` | Main_Server.c:212-231 | The table holds the entries of the manifest that the head names, and none for a missing head or object |
| `PushServer.Server.CommitEntries` | Main_Server.c:290-313 | The manifest is stored under its hash and the head of that branch alone moves to it; without a temporary file nothing changes and the reply carries an empty hash |
| `PushServer.Server.HandlePush` | Main_Server.c:193-320 | The whole critical section has on heads, objects and reply the effect of one atomic push; a rejected push reads no byte and changes nothing |
| `PushServer.Server.HandlePull` | Main_Server.c:158-187 | PULL answers with the object of the head, or says that there are no commits or no object, and changes nothing |
| `PushServer.Server.HandleClient` | Main_Server.c:356-382 | For every fragmentation a connection has the effect, the reply and the unread bytes of `Serve` on its byte stream; on a branch without commits a missing parent is not read, and HISTORY answers that there are none |
| `Commands.BranchCommands` | Main_Server.c:356-376 | `PULL` and `HISTORY` followed by a branch decode to that command and that branch, and the bytes behind the line are left in the stream |
| `Commands.OtherCommands` | Main_Server.c:356-379 | Any other first word, alone or with one more word, decodes to no command |
| `Commands.ServePull` | Main_Server.c:158-187 | From the bytes `PULL`, branch, newline to the reply: the object that the head of that branch names, no commits for a branch without a head, missing for a head without an object; nothing changes |
| `Commands.ServeOthers` | Main_Server.c:369-379 | HISTORY of a branch without a head and a line that is no command get their error, and nothing changes |
| `Commands.ServePushBytes` | Main_Server.c:193-320 | From the bytes of a complete push to the reply: conflict when the head of the branch is neither missing nor the parent, dropped without a buffer, and else one atomic push of exactly the files behind the line |
| `Commands.ServeNegativeCount` | Main_Server.c:240 | A negative number of files counts as none: no byte behind the line is read, and the push stores no file |
| `PushEndToEnd.ServeSentPush` | ProxyServer.c:382-424 | What the proxy sends has on the repository the effect of one atomic push of the listed files, with no byte over, if and only if the sender skipped no entry; a rejected or dropped push leaves every file unread |
| `PushEndToEnd.ServeCompletePush` | Main_Server.c:356-372 | A complete push on the wire has the effect of one atomic push of exactly the files sent, and leaves the following bytes alone |
| `PushCuts.CutPushCommits` | Main_Server.c:356-372 | For every byte at which the stream of a push can end: it is committed in exactly two cases, with what came of its last file when the stream ends behind the terminator of the last header and the push is not rejected and has a buffer, and as an empty manifest on what is left of the branch name when it ends between the command word and the count on a branch without commits; every other outcome that the program defines leaves the repository as it was |
| `PushEndToEnd.ServeKeepsClosed` | Main_Server.c:356-382 | Whatever bytes a client sends, a closed repository stays closed and keeps every object, given that SHA-1 does not collide on what is stored |
| `SingleFileServer.Server.ReceiveToTemp` | real_project_repo/Main_Server.c:192-251 | The first failure wins: no temporary file, the write that fails, or too few bytes; without one, the temporary file holds the bytes written; the bytes that came with the header are written first, and a `recv` is called only while bytes are missing |
| `SingleFileServer.Server.HandlePush` | real_project_repo/Main_Server.c:185-281 | For every combination of failures the answer is exactly the one of the first that is met; success stores the bytes written under their hash and moves the head to it, every failure changes nothing, and in every outcome the temporary file is gone |
| `SingleFileServer.Server.HandleClient` | real_project_repo/Main_Server.c:317-352 | The payload is the bytes that came behind the header line in the first `recv`, then the rest of the stream; a connection that sends nothing or another command changes nothing |
| `SingleFileServer.FirstDecodes` | real_project_repo/Main_Server.c:334-350 | A first buffer that begins with the header line decodes to branch, size, name and exactly the bytes behind its newline, whatever these are |
| `SingleFileServer.FirstWithoutLine` | real_project_repo/Main_Server.c:334-350 | Without a newline before the terminator, no byte of the first buffer is taken for the file |
| `SingleFileServer.FirstOther` | real_project_repo/Main_Server.c:322-336 | Nothing at all and any word that is no command are not a push |
| `SingleFileServer.SplitDecodes` | real_project_repo/Main_Server.c:324-352 | For every split whose first `recv` holds the header line, the bytes handed over together with the unread ones are the payload |
| `SingleFileServer.ServeOneFile` | real_project_repo/Main_Server.c:317-352 | For every split of the stream whose first `recv` holds the header line and every failure of the file system: a stream cut before the declared size, or any failure, changes neither heads nor objects; a stream of exactly that size that is saved stores exactly those bytes under their hash and moves the head to it; without failures it is saved exactly when enough bytes came; the temporary file is gone in every case |
| `WorkQueue.ClientQueue.Enqueue` | Main_Server.c:40-60 | The connection joins the end of the queue and nothing else moves; when malloc fails the queue is as before |
| `WorkQueue.ClientQueue.Dequeue` | Main_Server.c:62-76 | The oldest connection is taken and the order of the others kept; an empty queue stays empty; the two ends are null together |
| `WorkQueue.ClientQueue.Follow` | Main_Server.c:35-57 | The rear is the last node that is reachable from the front, and following the links visits the queue in order |
| `ProtocolQueue.QueueInvNext` | Main_Server.c:40-76 | Every step of every thread keeps lock ownership, the order of the queue, the wakeup bound and the ownership of connections |
| `ProtocolPush.RefPush` | Main_Server.c:193-320 | Every step inside the critical section keeps the repository equal to that of the atomic pushes, up to what the current push has done so far |
| `ProtocolStore.StorePush` | Main_Server.c:264-312 | Every step inside the critical section keeps the store closed, in the middle of a push too |
| `ProtocolRuns.InvRun` | Main_Server.c:384-390 | All invariants hold in every state of every run, for any number of workers |
| `ProtocolRuns.PushesAreAtomic` | Main_Server.c:193-320 | In every reachable state the heads are those that the finished pushes leave when run one by one in lock order; with `branch_lock` free the whole repository is; and every reply to a push is the one it gets in that order |
| `ProtocolRuns.StoreAlwaysClosed` | Main_Server.c:264-312 | In every reachable state, also in the middle of a push, each head names a stored manifest of at most 1024 distinct names whose hashes are all stored, and every object hashes to its name |
| `ProtocolRuns.RejectedChangesNothing` | Main_Server.c:199-207 | In every run a push gets the conflict reply if and only if the head it finds is not empty and differs from its parent, and then neither heads nor objects change |
| `ProtocolRuns.PullIsConsistent` | Main_Server.c:158-187 | Every answer to a PULL, racing with any pushes, is the answer on the repository that some number of complete pushes left, at least those finished when its connection was accepted, and its bytes are a good manifest |
| `ProtocolRuns.BadIsInvalid` | Main_Server.c:377-379 | In every run a connection whose line is no command gets the error for it and nothing else |
| `ProtocolPulls.PullNotStale` | Main_Server.c:158-187 | In every run a PULL that connects after some state answers from the repository left by all pushes finished in that state, and possibly later ones |
| `ProtocolPulls.AnsweredBeforePull` | Main_Server.c:314-319 | A push that was answered before a PULL connected stands in the order of the pushes before whatever that PULL sees |
| `ProtocolPulls.PullReadsLastPush` | Main_Server.c:158-187 | In every run, if a finished push was the last to move the head of a branch, a PULL of that branch that connects later gets bytes that hash to the head it left and parse to the exact merge of the entries of the manifest whose hash was the head before, or of none, with its files |
| `ProtocolRuns.NoLostWakeup` | Main_Server.c:50-66 | In every reachable state no worker waits, or the queue is no longer than the number of woken workers that have not rechecked plus the signal still to come; so a nonempty queue never meets only sleeping workers, spurious wakeups included |
| `ProtocolRuns.Conservation` | Main_Server.c:384-388 | Every accepted connection is with the acceptor, in the queue in order of acceptance, with exactly one worker, or answered |
| `ProtocolTheorems.HeadStep` | Main_Server.c:201-207 | One finished push moves the head of its own branch exactly when it is accepted and its manifest is written; its parent is then the head it found, or there was none |
| `ProtocolTheorems.AcceptedPushesChain` | Main_Server.c:196-207 | In every run each accepted push on a branch names as parent the head that the accepted push before it left |
| `ProtocolTheorems.SharedParentMovedBack` | Main_Server.c:196-207 | In every run a push to a branch after an accepted one is let through if and only if the last accepted push before it left the head that it names as parent; so a second push on a parent off which the first moved the head gets through exactly when a third one in between moved it back |
| `ProtocolTheorems.ExactlyOneWinner` | test_race.sh:8-36 | When any number of clients push to an empty branch with one parent that is no manifest's hash, among any other pulls and pushes, every interleaving in which these pushes finish has exactly one accepted push and its manifest as head, and all others get the conflict reply, if some of them meets no failure of the server (no receive buffer, no temporary file for the manifest); pushes that do meet one get its reply, and if all do the branch stays empty |
| `ProtocolTheorems.TakenInOrder` | Main_Server.c:62-76 | Workers take connections in the order in which they were accepted |
| `ProtocolProgress.StallsOnlyOnClients` | Main_Server.c:384-390 | In every reachable state no step of the program is enabled if and only if every worker with a connection waits for bytes of its client, or for `branch_lock` held by such a worker, the other workers sleep on the queue and the main thread is in `accept`; then the queue is empty or every worker is blocked, and an unanswered connection means that some worker waits for its client |
| `ProtocolBound.StepSpends` | Main_Server.c:384-390 | Every step of the program takes away at least one unit of the work that is left, signals that wake every worker included; only a new connection and a spurious wakeup add some, by the amounts given |
| `ProtocolBound.OwnStepsBounded` | Main_Server.c:384-390 | In every run the number of steps of the program is at most two for each worker, fifteen and two for each worker and for each file for every connection, and two for every spurious wakeup |
| `ProtocolBound.EveryoneAnswered` | Main_Server.c:384-390 | From any state of any run in which all streams have come in full, the program alone takes at most as many steps as there is work left, whatever the schedule; where it stops everyone has been answered, the queue is empty, all workers sleep and both locks are free |
| `ProtocolParts.AcceptedCameInFull` | Main_Server.c:240-312 | In every state of every run, an accepted push, answered or not, has sent its command line and all the files it announced |
| `ProtocolParts.UnfinishedNotAccepted` | Main_Server.c:240-312 | As long as a part of a push is missing it is not accepted in any run, and it has no answer but a rejection or that it was dropped for want of a buffer |
| `ProtocolStalls.SilentClientStalls` | Main_Server.c:193-255 | For any number of workers, any push and any number of its files but all: a client that sends these and then nothing brings the server into a reachable state in which no step of the program is enabled, `branch_lock` is held, the connection is unanswered, the files that came are stored and the head has not moved |
| `ProtocolStalls.AnnouncedIsRequest` | ProxyServer.c:382-424 | What a proxy that skips entries sends, followed by as many files as it skips, would decode to the push it announces |
| `ProtocolStalls.SkippedEntryStalls` | ProxyServer.c:428-432 | For any number of workers, a proxy that skips an entry and waits for the reply on the open connection brings the server into a reachable state in which no step of the program is enabled: everything that is sent has been received and stored, the reply is not given, the head has not moved and `branch_lock` is held |
| `ProtocolRequests.ServeIsRequest` | Main_Server.c:356-382 | What a byte stream does to the repository, and its reply, are those of the request that it decodes to in the transition system, which accepts that request |
| `HttpText.TokStops` | proxy_api.c:392 | One `strtok_r` call on leading delimiters, a token and a rest gives the token and leaves the rest behind one delimiter |
| `HttpText.LineRoundTrip` | proxy_api.c:391-501 | Parsing a printed request line gives back method, protocol, host, optional port, path and version |
| `HttpText.AcceptedLineGood` | proxy_api.c:391-501 | Every accepted request line, with extra spaces, slashes, an empty path or an empty port, is parsed into separator-free fields, a path with a single leading slash and an `HTTP/` version |
| `HttpText.AddressTokens` | proxy_api.c:438-450 | A protocol, `://`, host with port and path are cut at the right places, and the rest starts behind the slash of the path |
| `HttpText.RemIsHostAndPath` | proxy_api.c:447-465 | The length compared with the host's is that of host, port and path together, although the delimiters before it have been overwritten |
| `HttpLines.OtherMethodRefused` | proxy_api.c:392-407 | A line without a word, or whose first word is not GET, is refused, whatever follows |
| `HttpLines.NoAddressRefused` | proxy_api.c:409-417 | A line of GET and blanks alone is refused |
| `HttpLines.LooseLine` | proxy_api.c:391-436 | Any number of blanks before GET and before the address makes no difference; what follows the one blank behind the address is the version, refused unless it begins with HTTP/ |
| `HttpLines.NoHostRefused` | proxy_api.c:438-457 | An address that is all slashes and colons, or has only slashes behind its protocol, is refused |
| `HttpLines.NoPathRefused` | proxy_api.c:447-465 | A host without a slash behind it is refused, for want of a path |
| `HttpLines.LooseAddress` | proxy_api.c:438-465 | With any delimiters around it, an address is cut into protocol, host with port and path; the length check refuses it exactly when the delimiters in excess and the path are one character together, or when those before the protocol are as many as the host is long and three more |
| `HttpLines.TwoSlashesRefused` | proxy_api.c:472-480 | A path that begins with a second slash is refused |
| `HttpLines.TailAccepted` | proxy_api.c:467-491 | An empty path becomes a slash, a colon without a port counts as none, and all that follows the first colon is the port |
| `HttpMessage.HeaderLineReads` | proxy_api.c:227-254 | A printed header line is read as setting its key to its value, and reading goes on behind it |
| `HttpMessage.PrintedHeadersRead` | proxy_api.c:517-535 | Reading printed headers with distinct keys appends exactly them, in order |
| `HttpMessage.ColonLinesRead` | proxy_api.c:517-535 | Header lines that each hold a colon are read into colon-free, CRLF-free keys without duplicates and CRLF-free values |
| `HttpRequest.RoundTrip` | proxy_api.c:351-538 | Parsing the printed form of every well-formed request gives back every field and the same ordered headers, when that form fits the size limit; otherwise it is refused |
| `HttpRequest.PrintHeadersAt` | proxy_api.c:167-196 | The text of header k, key, colon, blank, value and CRLF, stands behind those of the headers before it |
| `HttpRequest.PrintedForm` | proxy_api.c:572-601 | The printed request is method, address in the absolute form with or without port, version and CRLF, then the headers and CRLF |
| `HttpRefusals.IncompleteRefused` | proxy_api.c:375-380 | A text without a blank line is refused, whatever else it is |
| `HttpRefusals.SizeRefused` | proxy_api.c:365-368 | A text of fewer than 4 or more than 65535 characters is refused |
| `HttpRefusals.PrefixRefused` | proxy_api.c:375-380 | No proper prefix of a printed request is accepted, so one that has come only in part is refused |
| `HttpRefusals.ColonlessRefused` | proxy_api.c:517-527 | When a line without a colon follows good headers, -1 is returned while the request line and those headers stay in the object |
| `HttpNormal.ChainReads` | proxy_api.c:227-254 | A key that spans lines is set, then its second line is read as a key again, and so on, all with the same value, until a line end behind the value or a blank line inside the key |
| `HttpNormal.ParsedIsNormal` | proxy_api.c:517-535 | Whatever is parsed as header lines leaves a table in which the later lines of every key are keys further on, except that one key may swallow the blank line, which ends the list |
| `HttpReread.NormalRoundTrip` | proxy_api.c:167-196 | The headers of every such table come back from their printed form, in order |
| `HttpRequest.AcceptedIsGood` | proxy_api.c:351-538 | Every accepted input with a colon on each header line is parsed into a well-formed request |
| `HttpRequest.Normaliser` | proxy_api.c:351-538 | For every accepted input, parsing the printed form gives the same request if and only if that form fits the size limit, and is refused otherwise |
| `HttpRequest.ShortAddressSplits` | proxy_api.c:438-465 | One delimiter between protocol and host does as well as three, except that a path of two characters is then refused as missing |
| `HttpRequest.ShortFormParses` | proxy_api.c:438-491 | Every well-formed request whose path is not two characters long also parses from a text two characters shorter than its printed form |
| `HttpRequest.PrintingCanOverflow` | proxy_api.c:365-368 | There is an accepted request whose printed form is one character over the limit and is refused |
| `Tokenizer.StrTokR` | proxy_api.c:392 | In place: token and remainder are terminated strings of their own afterwards, at most one character is overwritten, and nothing outside the string walked over changes |
| `Tokenizer.CutHalves` | proxy_api.c:438-450 | A terminator written into a string makes two strings of it, one on either side |
| `LineTokenizer.PathInPlace` | proxy_api.c:467-488 | The path copy is a slash followed by the token behind the host, or a slash alone; a path that begins with a second slash is refused; only the tail of the address is written to |
| `LineTokenizer.HostInPlace` | proxy_api.c:490-491 | The host token is cut at its colon and the port behind it, without damage to each other and to anything outside |
| `LineTokenizer.ProtocolInPlace` | proxy_api.c:438-448 | The protocol is cut off, and the measured remainder is that of the overwritten memory |
| `LineTokenizer.AddressInPlace` | proxy_api.c:438-501 | The calls on the address leave exactly the fields of `SplitAddress` as disjoint strings, or refuse exactly when it does, and write only inside the address |
| `LineTokenizer.LineInPlace` | proxy_api.c:391-501 | After all `strtok_r` calls on one buffer, method, protocol, host, port and version are terminated strings, each behind the terminator of the one before, equal to the intended pieces of the line, none damaged by a later call; the path copy is as it should be; refusals are exact |
| `HeaderTable.SetThenLookup` | proxy_api.c:41-70 | A key that is set is found with its value in the last place, keys stay distinct, and every other key keeps its value and its order |
| `HeaderTable.LookupWithout` | proxy_api.c:92-103 | Removing a key leaves every other key's value alone |
| `HeaderTable.LiveAbsent` | proxy_api.c:77-88 | A key is missing from the live headers exactly when no slot carries it, tombstones notwithstanding |
| `HeaderTable.LiveWithout` | proxy_api.c:92-103 | Nulling the key of a slot removes exactly that header from the live ones |
| `HeaderTable.Table.constructor` | proxy_api.c:133-139 | A new table is empty, with room for eight headers |
| `HeaderTable.Table.Get` | proxy_api.c:74-89 | The loop finds the slot of a live key with its value, and none exactly when the key is not set |
| `HeaderTable.Table.Remove` | proxy_api.c:92-103 | The live headers lose exactly that key; 0 if it was there and -1 if not; the array neither moves nor shrinks |
| `HeaderTable.Table.Grow` | proxy_api.c:48-51 | The array doubles and every slot in use keeps its content |
| `HeaderTable.Table.Set` | proxy_api.c:41-70 | The live headers become the old ones without the key, then the new header; afterwards used slots stay below the capacity, the capacity is at most max(8, twice the used slots), and no key is live twice |
| `HeaderRuns.RunIsLastWrite` | proxy_api.c:41-103 | After any sequence of set and remove, a key has the value of the last call about it if that was a set and is absent otherwise, no key is there twice, and keys stand in the order in which they were last set |
| `HeaderReader.StrStr` | proxy_api.c:375-383 | `strstr` in the buffer finds the first occurrence, or none |
| `HeaderReader.CutHeader` | proxy_api.c:227-248 | The key is the text before the first colon, the value the text from two characters behind it up to the next CRLF; without a colon there is no header |
| `HeaderReader.ReadHeaderLines` | proxy_api.c:517-537 | The loop over the lines leaves in the table exactly the headers of the text, and returns -1 exactly when it meets a text without a colon |
| `RequestPrinter.HeadersLen` | proxy_api.c:142-165 | For any mix of live and removed slots the sum is the exact length of the printed headers and the blank line |
| `RequestPrinter.WriteHeaders` | proxy_api.c:167-196 | Printing succeeds exactly when the length suffices, writes exactly the live headers in order and the blank line, and nothing behind them; on failure nothing is written |
| `RequestPrinter.RequestLineLen` | proxy_api.c:544-559 | With or without a port the sum is the exact length of the printed request line |
| `RequestPrinter.WriteLine` | proxy_api.c:572-601 | The copies put together exactly the request line and its CRLF, and write nothing behind it |
| `RequestObject.ParsedRequest.constructor` | proxy_api.c:276-293 | A new object has no buffer and no headers |
| `RequestObject.ParsedRequest.ParseLine` | proxy_api.c:382-501 | An accepted line leaves its fields as strings of the object's buffer; a refused one leaves no buffer |
| `RequestObject.ParsedRequest.Parse` | proxy_api.c:351-538 | The object ends up with exactly the request, return value and buffer that `ParseRequest` gives for the input; an object in use is left alone and answers -1 |
| `RequestObject.ParsedRequest.TotalLen` | proxy_api.c:330-335 | The exact length of the printed request, 0 without a buffer |
| `RequestObject.ParsedRequest.Unparse` | proxy_api.c:299-311 | Success exactly when the buffer length is at least the total length; then exactly the printed request is written and nothing behind it; on failure at most the request line has been written |
| `RequestObject.ParsedRequest.UnparseHeaders` | proxy_api.c:317-326 | Success exactly when the buffer length is at least the length of the headers; then exactly these are written, otherwise nothing |

## Left out

- Atomicity of root-server pushes on truncated streams: the code does not give it; what it does give is `PushCuts.CutPushCommits`.
- A PULL that reads the head file while it is being written: the write is one step here.
- `handle_history` on a branch with commits (`Main_Server.c:332-353`): it takes the first 40 bytes of an object for the next hash, but a manifest begins with a file name, so it walks no history and need not end.
- How the proxy picks the parent (`ProxyServer.c:377-380`): it sends a Git commit id, which is not a manifest hash; the parent is any word here.
- Which entries libgit2 lists and with what status: `StatusEntry` is given, `changed` standing for the status test of `ProxyServer.c:397`.
- SHA-1, Redis, message queues, sockets and the file system beyond hash function, fragments, object map and head map; a branch name is a plain map key, although the code makes a path of it.
- The wording of replies: each message is a constructor of `Reply` or `Saved`.
- Connections whose node cannot be allocated are closed at once and do not enter the transition system; `WorkQueue.ClientQueue.Enqueue` has that branch.
- In the transition system a push carries its files already decoded, its stream comes in parts of one command line or one file, and receiving a part and storing it is one step: other threads see nothing in between; `PushServer` has the byte level, and `ProtocolRequests` the tie. A PUSH without a parent word and HISTORY are not among its requests.
- `sscanf` conversions that overrun their arrays or leave variables unset, and texts on which the request parser leaves its buffer: they are told apart from the other outcomes and nothing is claimed about them.
- File headers padded with blanks up to 256 bytes without a terminator, as `test_race.sh:14` sends them: the code scans past the array, so they count as unset.
- PULL and HISTORY in the older server.
- A body behind the blank line, of which the parser takes no note.
- Tokenizer.StrTokR: the saved position is a result, not a variable shared by all calls as `saveptr` is; the nested calls use it in the same order.
- HeaderTable.Table.Set: `realloc` and `malloc` succeed, and keys and values are values instead of separate heap strings.
- RequestPrinter.HeadersLen: the `int` accumulator is unbounded.
- `ParsedRequest_destroy` and the dangling fields of a refused object.
- `cli.c`, `ProxyServ.c`, `Client.c`, `Server.c` and `real_project_repo/ProxyServer.c`: command dispatch, dead code or an older protocol.
