# Verification of the Warble stack

A Dafny model of the server stack behind the `warble` command: a key-value server that keeps a multimap in
memory and an append-only log on disk, the warble service that stores a whole social network in that
multimap, the function server that dispatches events to the service, and the command-line client.

`dafny verify dfyconfig.toml` checks everything.

## How the model is laid out

| file | what it holds |
|---|---|
| Results, Search, Decimal, FileStream | statuses; first positions; decimal text and `std::stoi`; `std::ifstream` with its cursor, its flags and its stale characters |
| KeyValueDataStructure | the multimap, its two mutations, replay, `Storage` |
| KeyValueLog | the text of a log record, the loader as a function of arbitrary bytes, and how they fit together |
| KeyValueService | `KeyValueStoreImpl` over a disk; runs with restarts |
| KeyValueConcurrency | concurrent mutations as steps: apply, append, acknowledge, crash |
| KeyValueClient | the client of that server |
| WarbleModel | messages, keys, id minting, and the platform: a hash function and a codec, both arbitrary |
| SocialNetwork | the abstract network: registered users, follows in order, posts in order |
| WarbleService, WarbleRefinement, WarbleStack | the service over the store; store and calls against the network; whole runs with restarts |
| PutHistory | the puts of the service as a history, and the walk of `Read` at different times in it |
| WarbleFlows | each call as a sequence of requests to the key-value store |
| WarbleInterleaving | calls of many clients, interleaved request by request, abandoned anywhere, with restarts |
| WarbleDurability | the history over a server that crashes in the middle of calls, and `Read` at any moment of it |
| WarbleCrashes, WarbleCircle | calls of many clients over that server, and reads that span crashes; a run that ends in a circle |
| FuncService, FuncClient, FuncProtocol | hooks and dispatch; the client's query-then-event; many clients at once |
| CommandLine | the command-line client |

The classes follow the classes of the source, field by field. Their methods are proved against functions of
the old state (`Apply`, `ParseLog`, `AfterOp`, `Fetch`, `Decide`, `AfterCall`, `Unpack`), and the theorems are
about those functions.

## Main results

1. **The stack is a social network, with the exact condition** (`WarbleStack.StackRefinesNetwork`). For every
   hash function, every codec with a round trip, and every sequence of the five calls with restarts of the
   persistent server anywhere between them: all calls return, all restarts succeed, and all answers are those
   of an abstract network that knows neither keys nor logs nor restarts, if and only if no call replies to, or
   reads, the key of a user or list that is there at that time. (Names and messages must be short enough for
   the log to be read back.) `SocialNetwork.NetworkIsHistory` says that the network is just the observable
   history, and `WarbleStack.StackExplained` gives each answer from the calls and answers before it.
   `WarbleRefinement.ServedRefines` carries the result to the objects: the contracts of the service methods and
   of the command handlers are its hypothesis. `WarbleStack.MemoryStackForgets` is the same for a server without
   a log.
2. **`Read` ends** whatever collides: in sequential runs (`WarbleRefinement.WalkIsThread`), while any number of
   other clients do what they like and the server restarts (`WarbleInterleaving.InterleavedReadEnds`), and over a
   server that crashes in the middle of calls, at every moment and also when the read itself spans crashes, unless
   a warble was lost and another one has its id (`WarbleCrashes.ServiceReadEnds`,
   `WarbleCrashes.ReadEndsAcrossCrashes`). The measure is the time of the first put of an id in the history over
   all crashes. The answer of a read that ran among others lies between the threads at its two ends
   (`WarbleInterleaving.AnswerLiesBetweenThreads`). Run alone, the steps of a call do what the call does
   (`WarbleInterleaving.CallRunsAlone`, `WarbleCrashes.CallRunsAlone`).
3. **Recovery.** The log is uniquely decodable without any bound; loading a printed log gives back the map if
   and only if every length fits an `int`; restarts are unobservable under exactly that condition; acknowledged
   mutations survive crashes at any step; live map and log agree, in whatever order calls finish, if and only
   if no two different mutations of one key overlap (`KeyValueConcurrency.ExactIffCareful`).
4. **Threads** are characterised by their links alone, and a later post leaves a thread unchanged if and only
   if its id is not the id of a warble on it.

## Where the code does less than one would expect

Each point is a lemma with the failing input or the exact condition.

- A log that ends within the value of a put is accepted with a made-up value, and one that ends within the key of
  a removal removes a made-up key; within the key of a put the start fails (`KeyValueLog.TornValue`,
  `KeyValueLog.TornKey`).
- A key or value longer than 2147483647 characters makes the next start of the server fail
  (`KeyValueService.RestartsUnobservable`).
- The loader tolerates an unknown tail and a lost last newline, but whatever is appended behind them is lost at
  the next start (`KeyValueLog.AppendedBehindTail`, `KeyValueLog.MissingNewlineHidesLaterRecords`).
- The append is outside the storage lock: two overlapping, acknowledged mutations of one key can be logged in
  the opposite order (`KeyValueConcurrency.OverlapRevivesRemovedKey`). Any two different mutations of one key
  that overlap can end up so (`KeyValueConcurrency.OverlapCanDiffer`), and nothing else can
  (`KeyValueConcurrency.ExactIffCareful`); the same mutation twice does no harm.
- `WarbleMethod` and `Read` do not look at the shape of an id. The service answers differently from the network,
  or not at all, exactly when a registered user replies to, or reads, the key of a user or list that is there
  (`WarbleRefinement.CallRefines`). Such a read can go round for ever from the list of any user
  (`WarbleStack.ReadOfListKeyCanDiverge`); it ends unless there is one name under the key and it parses to a
  warble that answers such a key again (`WarbleRefinement.AnyKeyHalts`, which covers lists too). An id of this
  shape that is not there is answered as any other unknown id.
- A reply to a warble that was never acknowledged can survive a crash that the warble does not. If the id of the
  lost warble was also that of a later one, the recovered replies can form a circle. It takes both
  (`WarbleDurability.LoopNeedsLossAndCollision`), and with every hash function some run of the service does it
  (`WarbleCircle.CrashMakesCircle`, with `WarbleCircle.SmallTalkExists` for its premise). Which runs with a loss
  and a collision close a circle depends on which contents the hash function maps to one id, so for an arbitrary
  hash function there is no sharper condition on the run short of following the links.
- A follow that is abandoned between its two puts leaves the two lists different by one entry for good
  (`WarbleInterleaving.FollowListsAreConverses`).
- A foreign hook between the client's query and its event runs another function on the payload
  (`FuncProtocol.RehookMisdirects`, exact condition in `FuncProtocol.DispatchAsPacked`).
- The comment on `remove` promises NOT_FOUND for an absent key, but the status is always OK and the removal is
  logged (`KeyValueService.KeyValueStoreImpl.Remove`). The comment on `RegisterUser` speaks of non-blank names,
  but the empty name is accepted. The comment on `Storage::Get` speaks of a null pointer, but the result is an
  empty list. The model follows the code.

## Assumptions

- Strings are sequences of characters; nothing depends on the alphabet beyond digits, newline and the ASCII
  letters of the prefixes, so byte strings are included.
- `std::hash` is any function with 64-bit results. The message codec is any pair with `parse(serialize(w)) == w`;
  `WarbleModel.FaithfulPlatformExists` gives a concrete one, so nothing is assumed without an instance.
- Timestamps are the 64-bit numbers of the protocol. Texts and names are ones that a protobuf `string` can hold.
- The time of day is a parameter of the calls. An RPC is a call, or a step where interleaving matters, and does
  not fail by itself. The reply of a failed call is the empty message.
- A protobuf message is itself limited to 2147483647 bytes, so no RPC can deliver a key or value that is too long
  for the log; the condition on lengths is that of the log format and of the methods as they are written.
- One access to the storage map is one step, and so is one record append.
- The variable that the loader leaves uninitialised starts with an arbitrary character (`stale`), the same one
  in every call: at most one call of a load can let it show and still go on to apply a mutation.

## Model

| member | source | states |
|---|---|---|
| Decimal.ValueOfPrint | key_value_store/key_value_service.cc:143 | the printed length has the value of the length |
| Decimal.StoIOfPrint | key_value_store/key_value_service.cc:120-122 | `stoi` reads a printed length back exactly when an `int` can hold it, and throws otherwise |
| Decimal.StoIReads | key_value_store/key_value_service.cc:120 | `stoi` skips blanks, takes a sign and ignores what stands behind the digits, and throws exactly outside the range of `int` |
| Decimal.PrintedDigits | key_value_store/key_value_service.cc:143 | digits are printed in decimal, most significant first |
| FileStream.TakeLineOf | key_value_store/key_value_service.cc:119 | `getline` returns the text before a newline and leaves the stream just behind it |
| FileStream.TakeLineAtEnd | key_value_store/key_value_service.cc:116-120 | a last line without a newline is read in full, an empty one is a failure, and a stream that is not good yields nothing |
| FileStream.TakeNOf | key_value_store/key_value_service.cc:34-44 | reading exactly the characters present returns them and drops one more; at the end of the file the text is still complete |
| FileStream.TakeNShort | key_value_store/key_value_service.cc:34-44 | reading more characters than there are repeats the last one, or the stale one, up to the number asked for |
| FileStream.InFile.Get | key_value_store/key_value_service.cc:38 | `get(ch)` advances, or at the end sets the flags and leaves `ch` alone |
| FileStream.InFile.GetLine | key_value_store/key_value_service.cc:116 | `getline` with its flags, found by a scan of the bytes |
| FileStream.ReadNCharacter | key_value_store/key_value_service.cc:34-44 | the loop returns the text and leaves the cursor and flags that the value model `TakeN` predicts, for any count and any stale character |
| KeyValueDataStructure.Storage.Put | key_value_store/key_value_data_structure.cc:6-14 | appends the value to the key's list, creating it if needed; never fails |
| KeyValueDataStructure.Storage.Get | key_value_store/key_value_data_structure.cc:16-21 | the key's list, or the empty list |
| KeyValueDataStructure.Storage.DeleteKey | key_value_store/key_value_data_structure.cc:23-28 | drops the key; true even if it was absent |
| KeyValueDataStructure.ReplayNoEmptyLists | key_value_store/key_value_data_structure.cc:6-28 | no mutation ever leaves a key with an empty list |
| KeyValueDataStructure.ReplayPerKey | key_value_store/key_value_service.cc:116-132 | what replay leaves under a key depends only on that key's mutations |
| KeyValueDataStructure.ReplayIgnoresOtherKeys | key_value_store/key_value_service.cc:116-132 | logs with the same mutations of each key replay to the same map, however keys are interleaved |
| KeyValueDataStructure.ValuesSinceRemoval | key_value_store/key_value_data_structure.cc:6-28 | after any history a key holds the values put since its last removal, in order |
| KeyValueDataStructure.ValueCount | key_value_store/key_value_data_structure.cc:6-14 | in a history of puts a value is stored as often as it was put |
| KeyValueLog.ParseRecord | key_value_store/key_value_service.cc:116-132 | one turn of the loader undoes one printed record, whatever follows and whatever key and value contain |
| KeyValueLog.ParseThrough | key_value_store/key_value_service.cc:116-132 | a printed log followed by any bytes loads as its mutations followed by what those bytes load as |
| KeyValueLog.LoadPrintedLog | key_value_store/key_value_service.cc:93-136 | any printed log loads as its mutations before the first over-long one, and throws exactly if there is one |
| KeyValueLog.RecoveryRoundTrip | key_value_store/key_value_service.cc:93-150 | recovery returns the map that the mutations built if and only if every length fits an `int` |
| KeyValueLog.SplitRecord | key_value_store/key_value_service.cc:140-150 | no record is a prefix of another record with different content |
| KeyValueLog.UniquelyDecodable | key_value_store/key_value_service.cc:140-150 | two lists of mutations with the same log are equal |
| KeyValueLog.RecordsSpelledOut | key_value_store/key_value_service.cc:140-150 | two records, byte by byte |
| KeyValueLog.TornValue | key_value_store/key_value_service.cc:34-44 | a put that was cut off within its value is applied with its last character repeated up to the announced length |
| KeyValueLog.TornKey | key_value_store/key_value_service.cc:116-132 | cut off within its key, a put makes the start fail and a removal removes a made-up key |
| KeyValueLog.UnknownTailIgnored | key_value_store/key_value_service.cc:128-131 | bytes whose first line is no command, behind a valid log, do not matter |
| KeyValueLog.MissingNewlineTolerated | key_value_store/key_value_service.cc:42-43 | a log without its last newline loads fully |
| KeyValueLog.AppendedBehindTail | key_value_store/key_value_service.cc:128-131 | records appended behind an ignored tail are recovered if and only if the tail is empty |
| KeyValueLog.MissingNewlineHidesLaterRecords | key_value_store/key_value_service.cc:42-43 | records appended after a lost last newline are never recovered |
| KeyValueService.StartOverLog | key_value_store/key_value_service.cc:93-136 | a start over the log of some mutations reproduces the server, or throws if a length is out of range |
| KeyValueService.RestartsUnobservable | key_value_store/key_value_service.cc:46-54 | restarts between mutations change nothing, unless one follows an over-long mutation, and then the run ends there |
| KeyValueService.MemoryComesUp | key_value_store/key_value_service.cc:93-97 | a server without a log always comes up again, whatever was put into it, and writes nothing |
| KeyValueService.RestartForgets | key_value_store/key_value_service.cc:93-97 | and a restart forgets what it held: the map is built by the mutations since the last restart |
| KeyValueService.KeyValueStoreImpl.Construct | key_value_store/key_value_service.h:44-47 | a new server is what `Start` computes from the bytes on disk; without a file name it is an empty server in memory; a missing file is created and gives an empty server; no object if the loader throws |
| KeyValueService.KeyValueStoreImpl.PersistentLoad | key_value_store/key_value_service.cc:93-136 | the loading loop over any bytes ends, and leaves the map, mode and files of the value model; without a file name or a file there is nothing to load and nothing is thrown |
| KeyValueService.KeyValueStoreImpl.LoadTurn | key_value_store/key_value_service.cc:116-131 | one turn of the loop: stop, throw, or one mutation applied |
| KeyValueService.ReadField | key_value_store/key_value_service.cc:119-120 | a length line and that many characters, or the exception of `stoi` |
| KeyValueService.KeyValueStoreImpl.PersistentStore | key_value_store/key_value_service.cc:140-150 | appends exactly the record of the mutation to its file and touches no other file |
| KeyValueService.KeyValueStoreImpl.Put | key_value_store/key_value_service.cc:46-54 | OK; map and log both advance by this put |
| KeyValueService.KeyValueStoreImpl.Remove | key_value_store/key_value_service.cc:79-89 | OK always; map and log both advance by this removal |
| KeyValueService.KeyValueStoreImpl.Get | key_value_store/key_value_service.cc:57-76 | OK with all values in order if every key has some, else NOT_FOUND with the values of the keys before the first missing one |
| KeyValueConcurrency.CrashIsRestart | key_value_store/key_value_service.cc:93-136 | the crash step is exactly a start over the bytes of the log, failing when that throws |
| KeyValueConcurrency.CrashForgetsCalls | key_value_store/key_value_service.cc:93-136 | a crash ends all calls in flight and leaves the records and the acknowledgements |
| KeyValueConcurrency.MachineIsHistory | key_value_store/key_value_service.cc:46-89 | records and acknowledgements are those of all appends and acknowledgements of the schedule, over all crashes |
| KeyValueConcurrency.AcknowledgedIsDurable | key_value_store/key_value_service.cc:46-54 | at every step of every schedule with crashes, each acknowledged mutation has its own record |
| KeyValueConcurrency.LogLagsBehindMap | key_value_store/key_value_service.cc:46-89 | at every such step the map is built by the applied mutations, and these are the logged ones plus those not yet appended |
| KeyValueConcurrency.PutsAreConserved | key_value_store/key_value_service.cc:46-54 | with puts only, each value is in memory as often as in the recovered map plus in the puts not yet appended |
| KeyValueConcurrency.QuiescentLogIsExact | key_value_store/key_value_service.cc:46-89 | if two different mutations of one key never wait to be appended at once, the log replays to the live map whenever nothing waits |
| KeyValueConcurrency.ConflictCanDiffer | key_value_store/key_value_service.cc:46-89 | if two such mutations do wait at once, some order of the remaining appends leaves a log that does not replay to the live map |
| KeyValueConcurrency.OverlapCanDiffer | key_value_store/key_value_service.cc:46-89 | the same for two mutations that have only been called |
| KeyValueConcurrency.ExactWithoutOverlap | key_value_store/key_value_service.cc:46-89 | from one moment on, every way to finish the calls in flight leaves an exact log if and only if no two different ones have the same key |
| KeyValueConcurrency.ExactIffCareful | key_value_store/key_value_service.cc:46-89 | over whole schedules: log and map agree however calls finish, at every moment, if and only if callers never overlap different mutations of one key |
| KeyValueConcurrency.OverlapRevivesRemovedKey | key_value_store/key_value_service.cc:79-89 | an overlapping put and removal, both acknowledged, after which a crash brings the value back |
| KeyValueClient.FetchOne | key_value_store/key_value_client.cc:44-77 | asking for one key gives null exactly when it has no values |
| KeyValueClient.FetchIsAllOrNothing | key_value_store/key_value_client.cc:60-76 | on every store that mutations can build, the result is null exactly if some key is absent, else the lists one after another |
| KeyValueClient.KeyValueClient.Get | key_value_store/key_value_client.cc:44-77 | all values of all keys in order, or null |
| KeyValueClient.KeyValueClient.Put | key_value_store/key_value_client.cc:32-41 | true, and the server advances by this put |
| KeyValueClient.KeyValueClient.Remove | key_value_store/key_value_client.cc:80-88 | true, and the server advances by this removal |
| WarbleModel.NameKeys | warble/warble_service_impl.cc:97-99 | the three keys of a name are of three kinds, and each gives the name back |
| WarbleModel.MintedId | warble/warble_service_impl.cc:79-83 | minted ids are non-empty decimals and never look like the key of a name |
| WarbleModel.NewWarbleHolds | warble/warble_service_impl.cc:67-87 | a new warble holds the name, text, parent and time of the call, and the decimal hash of all of these as its id |
| WarbleModel.SameIdSameHash | warble/warble_service_impl.cc:79-83 | two posts get the same id if and only if the hash sends their serialized contents, text and time included, to the same number |
| WarbleModel.DifferentPostsDifferentIds | warble/warble_service_impl.cc:79-83 | posts that differ anywhere get different ids if the hash separates their serializations |
| WarbleModel.FaithfulPlatformExists | warble/warble_service_impl.cc:79-86 | a codec with a round trip exists for every hash function |
| SocialNetwork.NetStepKeepsInv | warble/warble_service_impl.cc:31-188 | every call keeps: ids are content hashes, parents come before replies, followers and followed are registered and distinct |
| SocialNetwork.ParentIsEarlier | warble/warble_service_impl.cc:57-65 | the parent of the only post with an id was first posted strictly before it |
| SocialNetwork.ThreadCharacterized | warble/warble_service_impl.cc:134-148 | a list is the thread of an id if and only if it starts there, its links match, each warble is alone with its id, and it stops at no parent or a shared id |
| SocialNetwork.ThreadEndsAtRoot | warble/warble_service_impl.cc:134-148 | without collisions every thread of a posted id ends at a warble without a parent |
| SocialNetwork.ThreadGoesBack | warble/warble_service_impl.cc:141-148 | each warble of a thread is older than the one that answers it |
| SocialNetwork.ThreadAfterPost | warble/warble_service_impl.cc:77-87 | a new post cuts an existing thread exactly where its id occurs on it |
| SocialNetwork.ThreadUnchangedByPost | warble/warble_service_impl.cc:77-87 | a thread survives a post if and only if the new id is not on it |
| SocialNetwork.ThreadAfterPosts | warble/warble_service_impl.cc:77-87 | the same for any number of posts |
| SocialNetwork.ThreadsNeverChange | warble/warble_service_impl.cc:77-148 | over any later calls a readable id stays readable and its thread is unchanged if and only if no new id is on it |
| SocialNetwork.NetworkIsHistory | warble/warble_service_impl.cc:31-188 | users, follow lists and posts are exactly those of the accepted calls, with the arguments of the calls, in order and with repetitions |
| SocialNetwork.AnswersFollowHistory | warble/warble_service_impl.cc:31-188 | every answer is told by the earlier calls and answers: what is accepted, the stored warble, the thread of the posts made, the lists of the accepted follows |
| WarbleService.WalkInAgrees | warble/warble_service_impl.cc:141-148 | the walk has one result, however many turns it is allowed |
| WarbleService.WarbleService.RegisterUser | warble/warble_service_impl.cc:31-45 | the effect and answer of `Decide`, on the server object |
| WarbleService.WarbleService.WarbleMethod | warble/warble_service_impl.cc:48-90 | the effect and answer of `Decide`, with the id minted from the content |
| WarbleService.WarbleService.Follow | warble/warble_service_impl.cc:93-119 | the effect and answer of `Decide`: two puts or none |
| WarbleService.WarbleService.Read | warble/warble_service_impl.cc:122-151 | the loop returns the walk of the store wherever that walk is finite |
| WarbleService.WarbleService.Profile | warble/warble_service_impl.cc:154-188 | both lists complete and in order |
| WarbleRefinement.WalkIsThread | warble/warble_service_impl.cc:134-148 | on a store that represents a network, from any id that is not the key of a user or list that is there, the loop ends after one turn per warble of the abstract thread, with that thread |
| WarbleRefinement.AnyKeyHalts | warble/warble_service_impl.cc:134-148 | from any id, even the key of a user or list, the loop ends, unless the one value there parses to a warble that answers the key of a user or list that is there |
| WarbleRefinement.CallRefines | warble/warble_service_impl.cc:31-188 | one call returns and answers as the network does if and only if it does not reply to, or read, the key of a user or list that is there; then its puts represent the next network |
| WarbleRefinement.ServedRefines | warble/warble_service_impl.cc:31-188 | the same, both directions, for every call of the service methods on a server object |
| WarbleStack.ServeImplements | warble/warble_service_impl.cc:31-188 | a call within the exact condition, on a server with a readable log, leaves a server with a readable log, and the answers so far are those of the network |
| WarbleStack.StackRefinesNetwork | warble/warble_service_impl.cc:31-188 | whole runs with restarts answer as the abstract network does if and only if no call in them names the key of a user or list that is there |
| WarbleStack.StackExplained | warble/warble_service_impl.cc:31-188 | so every answer of the stack is the one that the calls and answers before it tell |
| WarbleStack.MemoryStackForgets | key_value_store/key_value_service.cc:93-97 | without a log the stack answers as a network that every restart empties, under the same exact condition and with no bound on lengths |
| WarbleStack.ReadOfListKeyCanDiverge | warble/warble_service_impl.cc:141-148 | for every user, list and codec, two registrations and a follow after which a `Read` of the list's key never returns |
| WarbleFlows.PutIsServed | warble/warble_service_impl.cc:31-119 | what a call puts after its checks is what the service may put, with users and parent that were put before, whatever happened since |
| WarbleFlows.CallAlone | warble/warble_service_impl.cc:31-151 | run alone, the requests of a registration, post, follow or read put what the call puts and end with its answer |
| WarbleInterleaving.CallRunsAlone | warble/warble_service_impl.cc:31-151 | in any world of the interleaving, a call whose requests run with nothing in between does what the call does, and leaves everybody else alone |
| WarbleInterleaving.DoKeepsServed | warble/warble_service_impl.cc:31-151 | every request of every call, whatever ids it names, every abandoned call and every restart keeps the history one of such puts |
| WarbleInterleaving.DoKeepsInv | warble/warble_service_impl.cc:31-151 | as long as no reply to the key of a user or list passes, it also keeps each answer between the threads at its two ends |
| PutHistory.HeldWarble | warble/warble_service_impl.cc:141-147 | whatever ids clients name, a single-valued id holds its first warble, whose parent was first put strictly earlier |
| PutHistory.HaltsBy | warble/warble_service_impl.cc:141-148 | on the store of any legal history the walk ends within a computable number of turns |
| PutHistory.ChainBeginsThread | warble/warble_service_impl.cc:141-148 | warbles linked by their parents, each alone with its id at some time, begin the thread of that time |
| PutHistory.ThreadWithinChain | warble/warble_service_impl.cc:141-148 | at any later time the thread is at most that chain and what follows it, cut where an id came to be shared |
| PutHistory.ThreadStaysUnlessTouched | warble/warble_service_impl.cc:77-148 | over any later puts, made in any interleaving, a thread stays the same if and only if none gives another value to an id on it |
| WarbleInterleaving.KeyLayout | warble/warble_service_impl.cc:35-99 | in every reachable store, whatever ids clients name, every key is of exactly one kind, none is empty; values are what the kind says, and warbles hash to their key |
| WarbleInterleaving.FollowListsAreConverses | warble/warble_service_impl.cc:115-116 | at every moment of every interleaving, for any codec, occurrences in one list equal those in the other plus the follows between their two puts plus those abandoned there |
| WarbleInterleaving.TurnsLeftDecrease | warble/warble_service_impl.cc:141-148 | no request of anybody and no restart raises the bound on the turns of a walk, and each turn that asks for an id lowers it |
| WarbleInterleaving.InterleavedReadEnds | warble/warble_service_impl.cc:141-148 | the number of turns of a walk is bounded by the time of the first put of its id, under every interleaving, as long as the walk itself does not come to the key of a user or list |
| WarbleInterleaving.ReadWasAsked | warble/warble_service_impl.cc:122-134 | a read in progress or finished is about the id its client asked for last, and its turns come after that |
| WarbleInterleaving.AnswerLiesBetweenThreads | warble/warble_service_impl.cc:134-151 | if no reply to the key of a user or list passed, the answer of an interleaved read begins the thread of the id asked for at its first turn and is begun by that thread at its last; the two are equal if and only if no put in between gave another value to an id on the thread |
| WarbleInterleaving.RestartBetweenRequests | key_value_store/key_value_service.cc:93-136 | the restart step of an interleaving is a start over the bytes of the log, possible exactly when these can be read back, and then changes nothing |
| WarbleDurability.ReadEndsThroughCrashes | key_value_store/key_value_service.cc:46-54 | if calls refer only to acknowledged users and warbles, `Read` ends at every moment of every run with crashes at any step, for any collisions and any order of records |
| WarbleDurability.ExecEverServed | key_value_store/key_value_service.cc:46-54 | if each put referred to what had ever taken effect when it was sent, then so does the whole history over all crashes, and the map is built of that history |
| WarbleDurability.EverWasApplied | key_value_store/key_value_service.cc:46-54 | the history over all crashes holds exactly the mutations that built the map at some moment |
| WarbleDurability.LoopNeedsLossAndCollision | key_value_store/key_value_service.cc:46-54 | then, if some `Read` does not end at any moment, during or after any crashes, the first warble of some id was lost and a later one with that id was not |
| WarbleDurability.ReadEndsUnlessBoth | key_value_store/key_value_service.cc:46-54 | so `Read` ends at every moment if no two warbles ever shared an id, or if no warble that took effect is missing |
| WarbleCrashes.ServiceIsServed | warble/warble_service_impl.cc:31-119 | whatever clients do and whenever the server crashes, also between a check and its put, the service sends only such puts |
| WarbleCrashes.CallRunsAlone | warble/warble_service_impl.cc:31-151 | at any moment, whatever the server went through, a call whose requests run with nothing in between sends the puts of the call and ends with its answer |
| WarbleCrashes.ServiceIsLegal | warble/warble_service_impl.cc:31-119 | and none of them replies to the key of a user or list if no such reply passes the check |
| WarbleCrashes.ServiceReadEnds | warble/warble_service_impl.cc:141-148 | at every moment of every such run of the service a `Read` ends unless a warble was lost and its id collides |
| WarbleCrashes.TurnsLeftDecrease | warble/warble_service_impl.cc:141-148 | no request and no crash raises the bound on the turns of a walk; each turn lowers it, unless the first warble of the id asked for is lost while a colliding one is there |
| WarbleCrashes.ReadEndsAcrossCrashes | warble/warble_service_impl.cc:141-148 | so a read that spans any number of crashes takes no more turns than the time of the first put of its id |
| WarbleCircle.IdsRepeat | warble/warble_service_impl.cc:79-83 | with any 64-bit hash, a conversation that is long enough repeats an id |
| WarbleCircle.LostParentCanLoop | warble/warble_service_impl.cc:31-90 | with any hash, a run of the service's requests, all puts logged and acknowledged but one, that leaves a log with a circle of replies |
| WarbleCircle.CrashMakesCircle | warble/warble_service_impl.cc:31-90 | if that log can be read back, a crash makes the circle the live map |
| WarbleCircle.SmallTalkExists | warble/warble_service_impl.cc:79-86 | with any hash there is a codec and, for every name that leaves a little room, a log that can be read back |
| FuncService.HooksAreHistory | func/func_service_impl.cc:83-105 | the function of a type is decided by the last accepted hook or unhook of it, and is one of the five |
| FuncService.FuncServiceImpl.constructor | func/func_service_impl.cc:59-78 | the method table is complete and nothing is hooked |
| FuncService.FuncServiceImpl.Hook | func/func_service_impl.cc:83-95 | accepts exactly the names in the method table |
| FuncService.FuncServiceImpl.Unhook | func/func_service_impl.cc:99-105 | drops the type, always OK |
| FuncService.FuncServiceImpl.Query | func/func_service_impl.cc:130-140 | the hooked name, or NOT_FOUND |
| FuncService.FuncServiceImpl.Event | func/func_service_impl.cc:111-127 | runs the hooked function on the unpacked request; nothing happens if the type is not hooked |
| FuncClient.PackedCall | func/func_client_impl.cc:65-196 | a payload means the intended call for the function it was packed for, and a call with empty parameters for any other |
| FuncClient.FuncClientImpl.Hook | func/func_client_impl.cc:7-16 | true exactly for the names in the method table |
| FuncClient.FuncClientImpl.Unhook | func/func_client_impl.cc:20-28 | drops the type |
| FuncClient.FuncClientImpl.Event | func/func_client_impl.cc:31-62 | the parameters reach the hooked function, and its answer the caller's structure, whose lists grow at the end, whatever they held |
| FuncClient.FuncClientImpl.UnpackReply | func/func_client_impl.cc:140-196 | the copying loops append complete lists in order |
| FuncProtocol.DispatchAsPacked | func/func_client_impl.cc:31-62 | the event runs the function the client packed for if and only if the last touch of the type in between hooks the same function |
| FuncProtocol.EventsRunAsPacked | command_line_tool/command_line.cc:14-23 | with any number of clients interleaved, every event runs the function its payload was packed for |
| FuncProtocol.RehookMisdirects | func/func_service_impl.cc:111-127 | a foreign hook in between turns a read into a registration of the empty name |
| CommandLine.CommandLineClient.constructor | command_line_tool/command_line.cc:14-23 | the five hooks are installed and other types are untouched |
| CommandLine.CommandLineClient.RegisterHandler | command_line_tool/command_line.cc:26-39 | the command is served as a registration |
| CommandLine.CommandLineClient.WarbleHandler | command_line_tool/command_line.cc:42-58 | the command is served as a post, and the stored warble is printed |
| CommandLine.CommandLineClient.FollowHandler | command_line_tool/command_line.cc:61-72 | the command is served as a follow |
| CommandLine.CommandLineClient.ReadHandler | command_line_tool/command_line.cc:75-98 | the command is served as a read, the thread is printed backwards, and an empty thread counts as missing |
| CommandLine.CommandLineClient.ProfileHandler | command_line_tool/command_line.cc:101-114 | the command is served as a profile |
| CommandLine.PrintedOldestFirst | command_line_tool/command_line.cc:90-93 | the printed thread runs from the oldest post to the one asked for |

## Left out

- gRPC transport, threads, logging, flags, `main`, memory freeing and the C++ memory model: each map access is one atomic step.
- The protobuf wire format and `Any` packing: the codec is abstract, payloads are tagged values.
- Failed file opens, buffering and partially written records: the file is a byte sequence and a record append is one step.
- Logs cut inside a command or a length line: the loader's behaviour on them is modelled, stale characters included, but nothing is promised about it.
- WarbleStack.StackRefinesNetwork: is about persistent servers; `WarbleStack.MemoryStackForgets` is its twin for servers without a log.
- WarbleStack.StackRefinesNetwork: names and messages are bounded so that the log can be read back; `KeyValueService.RestartsUnobservable` says exactly what happens otherwise.
- WarbleService.WarbleService.Read: requires that the walk is finite, since a method here must end; `WarbleService.Decide` answers `Diverges` otherwise, and `WarbleRefinement.CallRefines` says when.
- FuncService.FuncServiceImpl.Event: requires that the call it runs returns, for the same reason.
- FuncClient.FuncClientImpl.Event: requires that the call it causes returns, for the same reason.
- CommandLine.CommandLineClient.ReadHandler: requires that the read returns, for the same reason.
- WarbleDurability.LoopNeedsLossAndCollision: one way for a single run, with `WarbleCircle.LostParentCanLoop` for the other; a lost warble whose id is shared makes a circle only if replies lead back to it.
- WarbleInterleaving.AnswerLiesBetweenThreads: one put of the service is one step there; puts split into apply, append and acknowledge, with crashes, are the subject of WarbleCrashes, which speaks of the end of `Read` and not of its answer.
- WarbleInterleaving.FollowListsAreConverses: the same; a crash of the server can lose either of the two puts.
- WarbleInterleaving.KeyLayout: does not claim that a `user_` key has one value, because two registrations of one name can both pass their check before either puts.
- `Profile` has no steps in WarbleInterleaving, since it only reads.
- `ParseFlag`, `PrintWarble`, `PrintUser` and `PrintOptions`: user interface with easy case splits only.
