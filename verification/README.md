# A verified model of the RPC transport, the option maps and the provider configuration

This project models four parts of the repository in Dafny and proves what they promise. Code that
runs between two `await` points is one atomic step; timers, sockets, servers and other processes
are arbitrary environments.

* **RPC transport** (`packages/rpc`): reassembly of frames (`Buffers`, `Framing`), the
  reliability layer with its two endpoints (`Reliability`, `PersistentEndpoint`, `FlowControl`,
  `EndpointHistory`, `ReliableSession`, `SocketOrder`) down to the bytes on their sockets
  (`ByteSession`), the binary serializer (`Serialization`, `WireFormat`) and the client's request
  table (`ChannelRequests`, `ChannelHistory`, `ChannelEvents`).
* **Option maps** (`packages/model-option-map`): JSON merge patches (`Json`, `MergePatch`,
  `PatchAlgebra`), the restricted CEL language from text to value (`CodeUnits`, `Tokenizer`,
  `Lexicon`, `Grammar`, `Parsing`, `Evaluation`, `Rules`, `Failures`, `Compilation`), what writing
  an expression down and reading it back gives (`Printing`, `RoundTrip`, `TextAccounting`,
  `RoundTripLimits`, `Meaning`), what the parser accepts and refuses (`Precedence`, `Derivation`,
  `Refusals`), and the two option maps together (`OptionMaps`).
* **Provider services** (`packages/provider`): the two refresh loops alone and together
  (`ProviderSources`, `Waiters`, `RegistryRefresh`, `RegistryService`, `RegistryWaiters`,
  `RegistryAnswers`, `AccountRefresh`, `AccountService`, `AccountWaiters`, `AccountAnswers`,
  `RefreshSystem`), entitlement (`AccountResolution`, `AccountReports`, `Entitlement`), the
  published registry (`ProviderRegistry`), ordered membership (`OwnedOrder`, `OrderLaws`,
  `OrderPositions`, `ModelMembership`, `ModelRefusals`).
* **Files shared by processes** (`packages/provider-node`): the polling repository
  (`PersonalRepository`, `RepositoryHistory`, `PollingHistory`), the refresh lease (`RefreshLease`,
  `LeaseHistory`) and the Built-in release cache (`ReleaseCache`).

A class of the source is a class here, and each of its methods is proved against a function on its
state; the lemmas about whole runs speak about these functions. The functions in turn are held to
descriptions that do not mention them: histories, a wire format, lexical patterns, rules that
derive expressions and values, tables of operators and reasons. Actions in a run carry arbitrary
arguments, and an action that is not possible in a state changes nothing. `Wrappers` and `Powers`
hold the few definitions that several parts share.

## What does not hold, and when it does

* The high and low watermarks bound the unacknowledged bytes exactly if the low one is not above
  the high one, or the session is abandoned before the high one can be passed; the constructor
  checks neither (`FlowControl.MarksHoldExactlyWhenOrdered`).
* A printed expression is read back exactly if no array starts with the text `]` and no object
  with the key `}`, because the parser compares token texts and not kinds
  (`RoundTripLimits.ReadBackExactlyWhenPlain`).
* The observed revision of the personal file can move back: a failing `update()` starts polling
  before anything was observed. A poll is harmless exactly if it begins when something is observed
  or the process's own update is already written
  (`RepositoryHistory.PollIsHarmlessExactlyWhenAnchored`).
* In a run every request is settled at most once, left alone afterwards, and pending exactly
  while it is unsettled, exactly if no call on an idle channel carries an argument that cannot be
  serialized: such a call throws, which rejects its promise, but its id stays in the tables and
  `dispose` rejects it again. Every other request of the run is as it should be. A queued request
  with such an argument is never sent, and waits until it is cancelled or disposed
  (`ChannelHistory.RequestsAreOrderlyExactlyWhenNoneThrows`,
  `ChannelHistory.RequestsAreOrderly`).
* After `dispose` every issued request is settled, those too whose argument could not be
  serialized, exactly if no error response with an unreadable body ever reached the handler of an
  unsettled request: the handler forgets the request before it reads the body, and throws on a
  missing body, on a message that cannot become a string and on a stack that is no list
  (`ChannelHistory.DisposeSettlesExactlyWhenErrorsAreReadable`).
* The edits of a provider's models leave own ids distinct and apart from the inherited ones, and
  the order complete, in every run exactly if the own ids they start from are so, the same models
  are inherited at every edit, and no edit meets a Built-in provider without a list of models
  that also names a template with one; reordering and saving look for inherited models in fewer
  places than the other edits (`ModelMembership.EveryRunEndsWellExactlyWhen`). A model that is
  added before it becomes inherited is own and inherited from then on, until the provider is
  saved (`ModelMembership.OverlapsStay`, `ModelMembership.SavingRepairs`).
* Adding a model and deleting it again, or renaming one and renaming it back, restores the
  overlay exactly if its order listed every model once; the order of a provider that was just
  created is empty (`ModelMembership.AddThenDeleteRestoresExactlyWhenListed`,
  `ModelMembership.RenameIsUndoneExactlyWhenListed`).
* Of `<`, `==` and `>` exactly one holds, except between 0 and -0, where none does; `<=` and `>=`
  hold there (`Rules.ComparisonsExclude`, `Rules.ZeroAndItsNegative`).
* A serialized value is deserialized to itself, between whatever bytes it stands, exactly if no
  text, buffer, object or array in it has a length of 2^31 or more
  (`Serialization.RoundTripsExactlyWhenItFits`).
* A Built-in revision keeps its content in the active file, in every run, exactly if no process's
  bundle shares its revision, with other content, with another bundle or with an offer above some
  bundle (`ReleaseCache.ContentIsStableExactlyWhenBundlesAgree`).
* `ProviderRegistry.replace` throws on a duplicate after it has replaced the list, and then lookups
  still answer from the old one (`ProviderRegistry.Registry.Replace`).
* The account service never leaves the Built-in revisions apart when it comes to rest after a round
  that did not fail, so the registry needs no separate assumption about it
  (`RefreshSystem.NoUpdateIsLost`).

## Model

| member | source | states |
|---|---|---|
| Buffers.ReadBE32OfBE32 | packages/rpc/src/buffer.ts:72-87 | a 32-bit field that is written between any bytes is read back as the value modulo 2^32 |
| Buffers.BE32OfReadBE32 | packages/rpc/src/buffer.ts:72-87 | writing a field that was read restores its four bytes |
| Buffers.WriteUInt32BE | packages/rpc/src/buffer.ts:82-87 | the four bytes from the offset on make the value modulo 2^32, the first weighing most, and no others change |
| Buffers.Set | packages/rpc/src/buffer.ts:59-62 | the source bytes replace those from the offset on, the rest stays |
| Buffers.Concat | packages/rpc/src/buffer.ts:36-45 | the result is all buffers in order, in one new allocation |
| Framing.WriteProtocolMessage | packages/rpc/src/protocol.ts:222-230 | a kind byte, then id, acknowledgement and payload length modulo 2^32 in four bytes each, the first weighing most, then the payload |
| Framing.HeadOfEncoded | packages/rpc/src/protocol.ts:222-230 | the head of a stream that begins with an encoded frame is that frame, with 32-bit fields, and what follows is untouched |
| Framing.ScanOfEncoded | packages/rpc/src/protocol.ts:260-297 | a stream of encoded frames and an unfinished one is read as exactly those frames and that rest |
| Framing.ScanLosesNothing | packages/rpc/src/protocol.ts:260-297 | on every byte string the frames found and the rest rebuild the string, and the rest holds no whole frame |
| Framing.ScanInPieces | packages/rpc/src/protocol.ts:260-297 | cutting a stream anywhere changes neither the frames nor the rest |
| Framing.ChunkStream.AcceptChunk | packages/rpc/src/protocol.ts:93-96 | the unread bytes grow by the chunk |
| Framing.ChunkStream.Peek | packages/rpc/src/protocol.ts:106-129 | the first bytes, however they were cut, or nothing if there are fewer |
| Framing.ChunkStream.Read | packages/rpc/src/protocol.ts:140-176 | the first bytes are taken off, however they were cut; with fewer there nothing changes |
| Framing.ChunkStream.Skip | packages/rpc/src/protocol.ts:132-137 | the first bytes are dropped |
| Framing.ChunkStream.NextFrame | packages/rpc/src/protocol.ts:260-297 | a frame is consumed only when the whole of it has arrived |
| Framing.SocketProtocol.OnData | packages/rpc/src/protocol.ts:243-250 | delivers the Regular payloads of all frames that a chunk completes and keeps the rest |
| Framing.SocketProtocol.ReadMessages | packages/rpc/src/protocol.ts:260-297 | reads until no whole frame is left |
| Framing.ChunkingIsInvisible | packages/rpc/src/protocol.ts:243-297 | many chunks, empty ones included, have the effect of their concatenation |
| Framing.EveryCuttingDeliversEveryFrame | packages/rpc/src/protocol.ts:85-297 | for every frame list, unfinished tail and cutting of the bytes: exactly the Regular payloads come out, in order, and exactly the tail is kept |
| PersistentEndpoint.PersistentProtocol.constructor | packages/rpc/src/persistent-protocol.ts:82-101 | nothing is queued or received yet; the high mark is 1 MiB, the low one a quarter of the high one, the replay limit 8 MiB and the grace period 45 seconds unless given |
| PersistentEndpoint.PersistentProtocol.Send | packages/rpc/src/persistent-protocol.ts:123-143 | queues and writes the message under the next id; abandons or saturates by the byte limits |
| PersistentEndpoint.PersistentProtocol.ReplaceSocket | packages/rpc/src/persistent-protocol.ts:149-160 | replays the whole queue on the new socket and forgets what the old one left unread |
| PersistentEndpoint.PersistentProtocol.ProcessAck | packages/rpc/src/persistent-protocol.ts:224-234 | removes the acknowledged front of the queue; drains at the low mark |
| PersistentEndpoint.PersistentProtocol.OnData | packages/rpc/src/persistent-protocol.ts:108-121 | every frame that a chunk completes is received, in order |
| PersistentEndpoint.PersistentProtocol.ReadMessages | packages/rpc/src/persistent-protocol.ts:166-221 | receives frames until no whole one is left |
| PersistentEndpoint.PersistentProtocol.AbandonSession | packages/rpc/src/persistent-protocol.ts:240-249 | writes Disconnect and closes, the first time only |
| PersistentEndpoint.PersistentProtocol.OnAckCheckTimer | packages/rpc/src/persistent-protocol.ts:264-275 | reports a silent peer, and abandons the session when the oldest message is too old |
| FlowControl.EveryRunIsAccounted | packages/rpc/src/persistent-protocol.ts:123-249 | in every run the byte counter is the size of the queue, saturated and drained events strictly alternate, and Disconnect is written once if the session was abandoned, else never |
| FlowControl.MarksHoldExactlyWhenOrdered | packages/rpc/src/persistent-protocol.ts:91-143 | saturation implies more than the low mark, and neither saturated nor abandoned implies at most the high mark, in every run, exactly for the stated options |
| EndpointHistory.EndpointIsItsHistory | packages/rpc/src/persistent-protocol.ts:123-234 | in every run the queue is exactly what was sent and not acknowledged, each message with its number and what had been received when it was sent |
| EndpointHistory.WritesSayWhatHappened | packages/rpc/src/persistent-protocol.ts:123-275 | exactly the frames that each step of every run writes: the message sent, all that wait on a new socket, signs of life, and one disconnection when too many bytes wait or a message waits too long |
| EndpointHistory.EventsSayWhatHappened | packages/rpc/src/persistent-protocol.ts:123-275 | exactly what listeners hear in each step of every run, saturation above the high mark, relief at the low one and a silence of more than 20 seconds included |
| EndpointHistory.SaturationEndsAtTheLowMark | packages/rpc/src/persistent-protocol.ts:123-234 | a step that tells of saturation ends above the high mark, one that tells of relief at or below the low one, and a saturated endpoint with more bytes than that stays so |
| ReliableSession.NothingIsLostOrReordered | packages/rpc/src/persistent-protocol.ts:123-234 | two endpoints, sockets replaced at any time on either side: first deliveries are a prefix of what was sent, every message is delivered or queued under its id, no acknowledgement under way exceeds what was received, and a reader that has caught up misses nothing |
| ByteSession.NothingIsLostOrReordered | packages/rpc/src/persistent-protocol.ts:108-234 | the same down to the bytes, which arrive in chunks of any size: whatever is under way or unfinished is lost with the socket it was on, and the bytes that may still be read stand for whole frames whose acknowledgements do not exceed what was received |
| ByteSession.RepetitionsNeedAnotherSocket | packages/rpc/src/persistent-protocol.ts:108-221 | the order of deliveries within a socket, for bytes cut anywhere |
| ByteSession.EveryRunRefines | packages/rpc/src/persistent-protocol.ts:108-221 | every run over bytes has the same endpoints as some run over frames, and its bytes stand for those frames |
| ByteSession.ReadingSome | packages/rpc/src/persistent-protocol.ts:166-221 | reading any part of the bytes of some frames takes whole frames off the front, and what is left stands for the others |
| ByteSession.ArrivalIsReceipt | packages/rpc/src/persistent-protocol.ts:166-221 | an arrival takes the endpoint where its read loop does and delivers the messages that loop emits |
| ReliableSession.MoveKeeps | packages/rpc/src/persistent-protocol.ts:123-275 | every step of either endpoint keeps both directions gapless |
| ReliableSession.ReplayKeepsWires | packages/rpc/src/persistent-protocol.ts:149-160 | a replay starts no later than right after what the peer has received and reaches the latest message |
| ReliableSession.FirstsAfter | packages/rpc/src/persistent-protocol.ts:203-207 | a Regular frame, whose id is not checked, repeats an old message or is the next one |
| SocketOrder.RepetitionsNeedAnotherSocket | packages/rpc/src/persistent-protocol.ts:149-207 | in every run the messages delivered from one socket carry consecutive ids, and sockets are read one after the other: a message is delivered twice only from two sockets |
| Serialization.FiveBytesSuffice | packages/rpc/src/serialization.ts:84-103 | a variable-length integer takes one to five bytes for every 32-bit integer |
| Serialization.IntIsRead | packages/rpc/src/serialization.ts:67-103 | every 32-bit integer, negative ones included, is read back, whatever follows |
| Serialization.EncodedIsDecoded | packages/rpc/src/serialization.ts:152-218 | a serialized value without an overlong part, between any bytes, is deserialized to that value, and exactly its bytes are consumed; arrays nest arbitrarily |
| Serialization.RoundTripsExactlyWhenItFits | packages/rpc/src/serialization.ts:67-218 | a value survives the round trip, whatever stands around it, if and only if no length in it reaches 2^31 |
| Serialization.EncodingsAreSelfDelimiting | packages/rpc/src/serialization.ts:152-218 | no encoding is the beginning of another one |
| Serialization.LongArraysAreLost | packages/rpc/src/serialization.ts:205-212 | an array of 2^31 to 2^32 - 1 items comes back empty |
| WireFormat.NumbersAreUnique | packages/rpc/src/serialization.ts:78-103 | the bytes of a number are the only ones with seven bits each, the low ones first, the top bit on all but the last, and no needless last byte |
| WireFormat.EncodingIsTheFormat | packages/rpc/src/serialization.ts:109-188 | what is written for a value is exactly its type byte from 0 to 6, the length where there is one, and the data, arrays nested arbitrarily; nothing else stands for it |
| WireFormat.OtherDataIsRead | packages/rpc/src/serialization.ts:193-218 | the end of the data and type bytes not in use are read as undefined, and data that ends before its announced length as far as it goes |
| Serialization.BufferReader.Read | packages/rpc/src/serialization.ts:36-40 | the slice from the position on, cut at the end of the data, and the position behind it |
| Serialization.BufferWriter.Write | packages/rpc/src/serialization.ts:54-56 | what is written so far grows by the buffer |
| Serialization.ReadIntVQL | packages/rpc/src/serialization.ts:67-76 | the loop gives the number that the grammar of the encoding gives, past the end of the data included |
| Serialization.WriteInt32VQL | packages/rpc/src/serialization.ts:84-103 | the two loops write the encoding of the number modulo 2^32 |
| Serialization.Serialize | packages/rpc/src/serialization.ts:152-188 | writes exactly the encoding of the value |
| Serialization.Deserialize | packages/rpc/src/serialization.ts:193-218 | reads, on every byte string, the value that decoding gives, and stops where it ends |
| ChannelRequests.ChannelClient.RequestPromise | packages/rpc/src/channelClient.ts:54-140 | issues an id; sends at once, waits for Initialize, rejects a cancelled call, or throws on an argument that cannot be serialized |
| ChannelRequests.ChannelClient.Send | packages/rpc/src/channelClient.ts:69-121 | registers the handler and writes the frame, unless the request is no longer pending or its argument cannot be serialized |
| ChannelRequests.ChannelClient.Initialized | packages/rpc/src/channelClient.ts:123-127 | a queued request has its turn; nobody hears of it if it throws |
| ChannelRequests.ChannelClient.OnResponse | packages/rpc/src/channelClient.ts:232-240 | unknown, late and repeated responses change nothing |
| ChannelRequests.ChannelClient.RemoveLastListener | packages/rpc/src/channelClient.ts:164-168 | the handler of an event goes with its last listener |
| ChannelRequests.ChannelClient.HandlePromise | packages/rpc/src/channelClient.ts:73-117 | forgets the request, then resolves or rejects it, or throws on an error body that cannot be read |
| ChannelRequests.ChannelClient.CannotBeRead | packages/rpc/src/channelClient.ts:86-107 | exactly which bodies make building the error throw |
| ChannelRequests.ChannelClient.OnCancellationRequested | packages/rpc/src/channelClient.ts:129-137 | sends the cancellation and rejects, if the request is still pending |
| ChannelRequests.ChannelClient.DisposeClient | packages/rpc/src/channelClient.ts:249-274 | rejects every pending request, in the order of the ids |
| ChannelHistory.RequestsAreOrderlyExactlyWhenNoneThrows | packages/rpc/src/channelClient.ts:54-274 | against any server, with cancellations and dispose at any step: after every step of a run all requests are settled at most once, left alone afterwards, and pending exactly while issued and neither settled nor lost, if and only if no idle call carries an unserializable argument |
| ChannelHistory.RequestsAreOrderly | packages/rpc/src/channelClient.ts:54-274 | the same for each request whose own call did not throw, whatever other calls do |
| ChannelHistory.UnserializableArgumentsAreSettledTwice | packages/rpc/src/channelClient.ts:178-193 | the shortest run in which a promise is rejected twice |
| ChannelHistory.DisposeSettlesExactlyWhenErrorsAreReadable | packages/rpc/src/channelClient.ts:83-111 | after dispose all issued requests are settled, unsent and throwing ones included, if and only if no error response with an unreadable body reached the handler of an unsettled request |
| ChannelHistory.TextStacksLoseRequests | packages/rpc/src/channelClient.ts:83-111 | a run of four steps with an error whose stack is a text, which leaves a caller waiting for ever |
| ChannelEvents.IdsKeepTheirRoles | packages/rpc/src/channelClient.ts:54-240 | in every run calls and listenings are numbered in one sequence; an event has its handler exactly until its last listener goes, and only requests are pending, queued, cancellable or noted |
| ChannelEvents.EventsPassRequestsBy | packages/rpc/src/channelClient.ts:171-240 | in every run a response under the id of an event changes nothing about requests |
| MergePatch.CloneJson | packages/model-option-map/src/merge-patch.ts:80-93 | the copy equals the value |
| MergePatch.MergeObject | packages/model-option-map/src/merge-patch.ts:63-78 | the result is MergePatch of section 2 of RFC 7396, whatever order the keys are visited in |
| MergePatch.MergeTwice | packages/model-option-map/src/merge-patch.ts:63-78 | merging the same patch again changes nothing |
| MergePatch.CollectWrittenPaths | packages/model-option-map/src/merge-patch.ts:35-49 | exactly the leaf paths of the patch, each once |
| MergePatch.OnePatchHasDistinctPaths | packages/model-option-map/src/merge-patch.ts:35-57 | two different paths of one patch never overlap, so a conflict involves two patches |
| MergePatch.PathsOverlap | packages/model-option-map/src/merge-patch.ts:51-57 | one path is a prefix of the other |
| MergePatch.ApplyOrderedJsonMergePatches | packages/model-option-map/src/merge-patch.ts:13-33 | accepts exactly the lists whose patches write to different places, then gives the fold; otherwise names a conflict that really exists |
| PatchAlgebra.DisjointIsApart | packages/model-option-map/src/merge-patch.ts:20-57 | patches whose paths do not overlap are exactly those that part ways key by key |
| PatchAlgebra.OrderDoesNotMatter | packages/model-option-map/src/merge-patch.ts:13-33 | every permutation of an accepted list is accepted, with the same result |
| PatchAlgebra.NothingIsOverwritten | packages/model-option-map/src/merge-patch.ts:13-33 | merging any patch of an accepted list into the result once more changes nothing |
| PatchAlgebra.ElsewhereIsUnchanged | packages/model-option-map/src/merge-patch.ts:63-78 | a merge leaves the value at every path that overlaps no written one |
| PatchAlgebra.WrittenPathsHoldThePatch | packages/model-option-map/src/merge-patch.ts:63-78 | at a written path stands what the patch says, a deletion or an empty object included |
| Tokenizer.Tokenize | packages/model-option-map/src/tokenizer.ts:22-73 | the loop gives exactly the tokens, or the first error, of the lexical grammar |
| Tokenizer.ReadStringTail | packages/model-option-map/src/tokenizer.ts:83-135 | the value of a literal with its escapes, or what is wrong with it and where |
| Tokenizer.ScanIsWellEnded | packages/model-option-map/src/tokenizer.ts:22-73 | every token list ends with the only end-of-input token |
| Lexicon.NumeralsAreLongest | packages/model-option-map/src/tokenizer.ts:75-81 | on every text that begins with a digit: what is taken is a numeral of the pattern, and no longer one begins there |
| Lexicon.NamesAreLongest | packages/model-option-map/src/tokenizer.ts:46-51 | a name goes on over letters, digits and underscores, and stops at anything else |
| Lexicon.LiteralsAreSpelledOut | packages/model-option-map/src/tokenizer.ts:83-135 | what follows an opening quote is a literal of a value if and only if it spells the value unit by unit, as itself, by one of the eight short escapes or by four hexadecimal digits, up to the closing quote |
| Lexicon.LiteralTokens | packages/model-option-map/src/tokenizer.ts:32-37 | either quote opens a literal that the same quote closes, and the token covers both |
| Parsing.Parser.ParseWhole | packages/model-option-map/src/parser.ts:61-77 | the outcome is the grammar's; success means that every token up to the end was consumed |
| Parsing.Parser.ParseConditionalExpression | packages/model-option-map/src/parser.ts:79-86 | follows the grammar, position included, and terminates on every list that the tokenizer leaves |
| Parsing.Parser.ParseBinary | packages/model-option-map/src/parser.ts:112-128 | the loop builds the left-associative tree of its level |
| Parsing.Parser.ParseUnaryExpression | packages/model-option-map/src/parser.ts:130-145 | prefix operators nest to the right |
| Parsing.Parser.ParsePrimaryExpression | packages/model-option-map/src/parser.ts:147-180 | literals, names, parentheses, arrays and objects, or the stated error |
| Parsing.Parser.ParseArrayBody | packages/model-option-map/src/parser.ts:182-190 | the elements up to the closing bracket |
| Parsing.Parser.ParseObjectBody | packages/model-option-map/src/parser.ts:192-214 | the entries up to the closing brace; a repeated key is an error |
| Printing.ReadBack | packages/model-option-map/src/parser.ts:61-239 | the tokens of a printed expression, followed by any token that cannot continue it, are parsed to the same tree up to offsets |
| RoundTrip.RenderedIsTokenized | packages/model-option-map/src/tokenizer.ts:22-141 | rendering any lexemes as text and tokenizing gives exactly these lexemes |
| RoundTripLimits.WrittenIsRead | packages/model-option-map/src/parser.ts:61-239 | printing a plain expression and reading the text gives the same tree up to offsets |
| TextAccounting.ParseAccounts | packages/model-option-map/src/parser.ts:61-239 | the texts in a parsed tree and those still unread are at most those of the input |
| RoundTripLimits.ReadBackExactlyWhenPlain | packages/model-option-map/src/parser.ts:182-229 | an expression is read back if and only if no array starts with the text "]" and no object with the key "}" |
| RoundTripLimits.ClosingTextsAreNotReadBack | packages/model-option-map/src/parser.ts:182-229 | the two smallest expressions that are not read back |
| Precedence.ChainsSplitAtTheLoosest | packages/model-option-map/src/parser.ts:88-128 | operands with binary operators between them and no parentheses, in any number, are read as the tree that splits at the last of the loosest operators, by a table of the six strengths |
| Precedence.TighterFirst | packages/model-option-map/src/parser.ts:88-128 | `a p b q c` is read as `(a p b) q c` if p binds at least as tightly as q in that table, and else as `a p (b q c)` |
| Precedence.PrefixesBindTightest | packages/model-option-map/src/parser.ts:130-145 | `!`, `-` and `+` before an operand bind more tightly than every binary operator |
| Precedence.ConditionalsBindLoosest | packages/model-option-map/src/parser.ts:79-86 | the condition is the whole chain before the question mark, and each branch a whole expression, conditionals included |
| Derivation.OnlyDerivedIsRead | packages/model-option-map/src/parser.ts:61-239 | every expression that is read has a derivation from all the tokens by the rules of the grammar, with the strengths of that table, the offsets, distinct keys and safe numbers |
| Refusals.BadStartsAreRefused | packages/model-option-map/src/parser.ts:130-180 | where an expression should begin, behind any prefix operators: which tokens are refused, with which error and where, at every level |
| Refusals.NothingMayFollow | packages/model-option-map/src/parser.ts:61-77 | behind a whole expression only the end of the input may follow; a dot is told from other tokens |
| Refusals.BracketsMustClose | packages/model-option-map/src/parser.ts:147-190 | a parenthesis or a bracket that is not closed behind an expression is reported at the token that stands there |
| Refusals.BranchesNeedAColon | packages/model-option-map/src/parser.ts:79-86 | so is a branch without the other one |
| Refusals.KeysAreChecked | packages/model-option-map/src/parser.ts:192-214 | a key that is no text, repeated or without a colon is reported where it stands, in this order, and an object that neither goes on nor ends behind its value |
| Evaluation.EqualityIsStructural | packages/model-option-map/src/evaluator.ts:180-199 | equality is sameness of values, independent of key order, with 0 and -0 distinct |
| Evaluation.ResultsAreSafe | packages/model-option-map/src/evaluator.ts:17-178 | safe literals and a safe input give a value all of whose numbers are safe |
| Evaluation.ObjectExpressionsGiveObjects | packages/model-option-map/src/compiler.ts:80-88 | an expression that passes the static check evaluates to an object or fails |
| Evaluation.EvaluateObject | packages/model-option-map/src/evaluator.ts:25-36 | the loop gives the members in order, the first error first |
| Rules.EvaluatesByTheRules | packages/model-option-map/src/evaluator.ts:17-199 | the evaluator gives a value exactly if rules for each form and operator derive it: short-circuit connectives, the last entry for a key, arithmetic with JSON-safe results, comparison of equal types only |
| Rules.RulesGiveOneValue | packages/model-option-map/src/evaluator.ts:17-199 | the rules derive at most one value for an expression and an input |
| Failures.FailsByTheRules | packages/model-option-map/src/evaluator.ts:17-178 | the evaluator fails if and only if rules for faults say so, with the same error at the same place: parts from left to right, operands before results |
| Failures.RunsFailByTheRules | packages/model-option-map/src/evaluator.ts:9-178 | for every input, scalar or not, which error a run ends with, and where |
| Rules.TextLessIsBefore | packages/model-option-map/src/evaluator.ts:129-140 | the order of texts is decided at the first unit where they differ, or by the one that ends first |
| Rules.TextOrderIsTransitive | packages/model-option-map/src/evaluator.ts:129-140 | the order of texts is transitive |
| Rules.ComparisonsExclude | packages/model-option-map/src/evaluator.ts:122-145 | exactly one of `<`, `==`, `>` holds between two texts or two JSON-safe numbers, if and only if they are not the two zeros |
| Rules.ZeroAndItsNegative | packages/model-option-map/src/evaluator.ts:52-145 | `0 op -0` is false for `<`, `==` and `>` and true for `<=` and `>=` |
| Compilation.OptionMapsGiveObjects | packages/model-option-map/src/compiler.ts:35-57 | the runtime check of the result never fires |
| Compilation.ProgramsGiveSafeValues | packages/model-option-map/src/evaluator.ts:9-199 | for every source text and input, every number anywhere in the result is JSON-safe |
| Compilation.CacheKeysDiffer | packages/model-option-map/src/compiler.ts:76-78 | no two expressions share a cache key |
| Compilation.Compiler.CompileRestrictedCel | packages/model-option-map/src/compiler.ts:17-33 | over any sequence of calls the outcome is that of compiling afresh |
| Compilation.Compiler.CompileModelOptionMap | packages/model-option-map/src/compiler.ts:35-57 | over any sequence of calls the outcome is that of compiling afresh, with the static check |
| Compilation.Compiler.ParseExpression | packages/model-option-map/src/compiler.ts:67-74 | the shared expression cache never answers for another expression |
| OptionMaps.Apply | packages/model-option-map/src/option-maps.ts:20-42 | a body comes out exactly if both maps give patches that write to different places; a conflict names the two options |
| OptionMaps.BothOptionsTakeEffect | packages/model-option-map/src/option-maps.ts:20-42 | for all sources and values: both options take effect in full, in either order, with JSON-safe numbers only |
| Meaning.ShapeDecidesValue | packages/model-option-map/src/evaluator.ts:17-166 | offsets do not influence values |
| Meaning.WrittenMeansTheSame | packages/model-option-map/src/evaluator.ts:17-50 | printing and reading back preserves the value for every input |
| Meaning.BothLanguagesAreGood | packages/model-option-map/src/option-maps.ts:20-42 | the languages of both option maps are among those that can be written and read back |
| ProviderSources.FailClosed | packages/provider/src/sources.ts:35-53 | the first snapshot after a failure covers exactly the account providers and entitles none |
| RegistryService.ProviderRegistryService.RequestRefresh | packages/provider/src/registry-service.ts:150-172 | every request gets its own generation and a running loop |
| RegistryService.ProviderRegistryService.ResumeWithReads | packages/provider/src/registry-service.ts:202-254 | reads that a later request has outdated are dropped; others are published, matched or refused |
| RegistryService.ProviderRegistryService.ResumeWithError | packages/provider/src/registry-service.ts:194-200 | a failed read ends the loop unless a later request is waiting |
| RegistryService.ProviderRegistryService.FinishRefresh | packages/provider/src/registry-service.ts:163-178 | a loop that ended with requests left is started again |
| RegistryService.ProviderRegistryService.ResolveRefreshWaiters | packages/provider/src/registry-service.ts:257-264 | exactly the waiters up to the generation are answered, in order |
| RegistryService.ProviderRegistryService.DisposeService | packages/provider/src/registry-service.ts:133-141 | every waiter is rejected |
| AccountService.AccountProviderService.RequestRefresh | packages/provider/src/account-provider-service.ts:112-124 | the reason is pending until a round that began later takes it |
| AccountService.AccountProviderService.ResumeWithCurrentConfig | packages/provider/src/account-provider-service.ts:169-198 | a round that new facts have outdated is discarded; otherwise the snapshot is published |
| AccountService.AccountProviderService.ResumeWithError | packages/provider/src/account-provider-service.ts:199-213 | the first failure publishes a fail-closed snapshot, later ones keep the last good one |
| AccountService.AccountProviderService.FinishRefresh | packages/provider/src/account-provider-service.ts:136-146 | reasons that arrived during a failing round start another one |
| RefreshSystem.NoUpdateIsLost | packages/provider/src/registry-service.ts:143-255 | whenever both loops have come to rest without failure and no event is on its way, the registry shows exactly what the two sources hold, and both belong to one Built-in revision |
| RefreshSystem.NobodyIsStranded | packages/provider/src/account-provider-service.ts:102-217 | a waiter of the account service is covered by the round under way or has a reason pending; at rest there is none, nor in the registry once a snapshot exists |
| RefreshSystem.PublishedPartsBelongTogether | packages/provider/src/registry-service.ts:205-245 | no published snapshot has an account part that is based on another Built-in revision |
| RefreshSystem.StepKeeps | packages/provider/src/registry-service.ts:143-255 | every step of the composed system keeps the invariant behind these three |
| RegistryWaiters.EveryRequestIsServed | packages/provider/src/registry-service.ts:150-273 | each request is settled at most once and waits until then; an answer rests on reads that began after the request; after dispose all are settled |
| RegistryAnswers.AnswersAreTheLatest | packages/provider/src/registry-service.ts:180-273 | in every run each answer is the snapshot that was published last before it, and what is stored is what was published last |
| RegistryAnswers.RoundsEndAsTheyShould | packages/provider/src/registry-service.ts:180-255 | in every run, for each outcome of the reads: a round that a later request has outdated tells nobody and starts over; a failed read or a refused combination refuses every caller; reads of one Built-in revision are what is published afterwards and what every caller is told; others change nothing |
| AccountWaiters.EveryRequestIsServed | packages/provider/src/account-provider-service.ts:91-240 | the same for the account service: each request is settled at most once and waits until then; an answer comes from a round that began after the request; after dispose all are settled |
| AccountAnswers.AnswersAreTheLatest | packages/provider/src/account-provider-service.ts:148-235 | in every run each answer is the snapshot that was published last before it |
| AccountAnswers.EveryRoundEnds | packages/provider/src/account-provider-service.ts:148-217 | in any state, for each outcome of a step of a round: an outdated round tells nobody and starts over; what was resolved is published and told; the first failure publishes and tells that nobody is entitled, a later one refuses |
| AccountResolution.ResolveAccountProviderConfigs | packages/provider/src/account-provider-resolution.ts:92-141 | the overlay has exactly the account providers, each as its connection says; ill-formed connections are refused with the first fault |
| AccountResolution.NormalizeModelIds | packages/provider/src/account-provider-resolution.ts:172-180 | model ids are trimmed and empty ones dropped, in order |
| AccountResolution.EntitledExactlyWhenGranted | packages/provider/src/account-provider-resolution.ts:92-141 | a provider is entitled exactly if some round granted it and every later round was silent: a reset or a gap in the configuration revokes |
| AccountReports.TheLastWordHolds | packages/provider/src/account-provider-resolution.ts:92-170 | over any rounds a provider's overlay, its models included, is what the last round that said anything about it reported |
| AccountReports.ModelsAreTakenOneByOne | packages/provider/src/account-provider-resolution.ts:172-180 | each reported model id is trimmed, and gone if nothing is left, whatever stands around it |
| Entitlement.PublishedEntitlementWasGranted | packages/provider/src/account-provider-service.ts:148-217 | in every run a provider is entitled in the published snapshot exactly if an accepted round granted it and all accepted rounds since were silent |
| ProviderRegistry.Registry.Replace | packages/provider/src/registry.ts:94-126 | succeeds exactly without duplicates, and then lookups answer from the new list; after a failure it stands beside lookups from the old one |
| ProviderRegistry.Registry.GetProvider | packages/provider/src/registry.ts:66-68 | finds a provider exactly if the indexed list has one of that id, after a failed replacement too |
| ProviderRegistry.Registry.GetModel | packages/provider/src/registry.ts:70-72 | finds a model exactly if the provider of that id in the indexed list has it |
| OwnedOrder.OrderListsEveryMemberOnce | packages/provider/src/owned-order.ts:7-24 | the order lists the members of both owners, each exactly once |
| OwnedOrder.OrderFollowsTheRequest | packages/provider/src/owned-order.ts:7-24 | requested members keep their order; Built-in ones nobody asked for come first, Personal ones last |
| OwnedOrder.ListedOrderIsKept | packages/provider/src/owned-order.ts:7-24 | an order that lists every member once is left alone |
| OwnedOrder.UniqueInOrder | packages/provider/src/owned-order.ts:26-35 | the loop keeps exactly the first occurrences |
| OrderLaws.OrderWithNew | packages/provider/src/owned-order.ts:7-24 | a new Personal member goes to the end, unless the request still names it, and moves no other |
| OrderLaws.OrderWithoutOne | packages/provider/src/owned-order.ts:7-24 | without one Personal member the order is what it was, without that member |
| OrderLaws.OrderOfRenamed | packages/provider/src/owned-order.ts:7-24 | resolving commutes with renaming a Personal member |
| OrderLaws.OrderIsEnough | packages/provider/src/owned-order.ts:7-24 | for fewer members the resolved order serves as well as the request it came from |
| OrderPositions.OrderIsByGroups | packages/provider/src/owned-order.ts:7-35 | of any two members the one of the earlier group comes first, within a group the one its list names first: Built-in ones nobody asked for, requested ones, Personal ones |
| ModelMembership.EveryRunEndsWellExactlyWhen | packages/provider/src/config-service.ts:186-559 | each edit of every run leaves own ids distinct and apart from the models inherited at that edit, and the order a permutation of both, if and only if the start does and the inherited models are the same for all edits, or nothing can be edited |
| ModelMembership.CreatedRunsEndWellExactlyWhen | packages/provider/src/config-service.ts:250-559 | the same for a provider that was just created, whose order is empty |
| ModelMembership.OwnIdsStayDistinct | packages/provider/src/config-service.ts:186-559 | own ids stay distinct over all edits, however the inherited models change in between |
| ModelMembership.WrittenOrderListsTheModels | packages/provider/src/config-service.ts:186-559 | whatever was there before, an order that an edit writes lists the inherited models of its moment and the own ones, each once |
| ModelMembership.OverlapsStay | packages/provider/src/config-service.ts:296-559 | an edit of the models neither makes nor repairs an overlap of own and inherited ids |
| ModelMembership.SavingRepairs | packages/provider/src/config-service.ts:186-195 | saving the provider drops repeated and inherited ids and completes a written order |
| ModelMembership.DraftsRename | packages/provider/src/config-service.ts:449-519 | a draft with another id is accepted exactly when a renaming is, and does the same |
| ModelMembership.RenameKeepsPlaces | packages/provider/src/config-service.ts:368-414 | from any overlay, a renamed model keeps its place in both lists; a leftover of the new name in the order counts as the model |
| ModelMembership.RenamingBack | packages/provider/src/config-service.ts:368-414 | from any overlay, renaming back gives the old own ids and a complete order |
| ModelMembership.RenameIsUndoneExactlyWhenListed | packages/provider/src/config-service.ts:368-414 | renaming back restores the overlay if and only if its order listed every model once |
| ModelMembership.AddAppends | packages/provider/src/config-service.ts:322-366 | from any overlay, a new model goes to the end, unless the order has a leftover of its name, and moves no other |
| ModelMembership.DeleteRemoves | packages/provider/src/config-service.ts:521-559 | from any overlay, a deleted model leaves both lists and moves no other |
| ModelMembership.AddThenDelete | packages/provider/src/config-service.ts:322-559 | from any overlay, adding a model and deleting it gives the old own ids and the completed order |
| ModelMembership.AddThenDeleteRestoresExactlyWhenListed | packages/provider/src/config-service.ts:322-559 | it restores the overlay if and only if its order listed every model once |
| ModelMembership.EditsSeeTheNormalOrder | packages/provider/src/config-service.ts:296-559 | an order without leftovers, missing and empty ones included, is treated by every edit of the models as its completion |
| ModelMembership.NoOrderIsTheDefaultOrder | packages/provider/src/config-service.ts:296-559 | a missing or empty order stands for the inherited models followed by the own ones |
| ModelMembership.ProviderOrderListsEachOnce | packages/provider/src/resolver.ts:355-376 | the resolver visits every effective provider exactly once, family members first |
| OrderPositions.ProvidersAreByGroups | packages/provider/src/resolver.ts:355-376 | of any two providers: those of a family come first, as they are listed, and the others by the groups of two owners' members |
| ModelRefusals.EditsGoThroughExactlyWhen | packages/provider/src/config-service.ts:186-559 | in any context and from any overlay an edit goes through exactly as a table over own and inherited models says, and is otherwise refused for a reason that is true; an empty name is reported first |
| PersonalRepository.Repository.FinishRead | packages/provider-node/src/personal-provider-config-repository.ts:54-67 | only the first observation is noted here; polling is armed |
| PersonalRepository.Repository.FinishUpdate | packages/provider-node/src/personal-provider-config-repository.ts:69-95 | a written update is observed and told; a failed one only arms polling |
| PersonalRepository.Repository.EndPoll | packages/provider-node/src/personal-provider-config-repository.ts:190-217 | listeners hear of a poll exactly when it changes what was observed |
| PersonalRepository.Repository.FailPoll | packages/provider-node/src/personal-provider-config-repository.ts:201-213 | listeners hear of the first failure in a row only |
| RepositoryHistory.AnchoredRunsNeverMoveBack | packages/provider-node/src/personal-provider-config-repository.ts:190-217 | with other processes writing under the same lock, the observed revision never moves back if every poll begins anchored |
| RepositoryHistory.PollIsHarmlessExactlyWhenAnchored | packages/provider-node/src/personal-provider-config-repository.ts:69-217 | for every reachable state in which a poll begins: no continuation moves back if and only if the poll begins anchored |
| RepositoryHistory.FailedUpdateLetsItMoveBack | packages/provider-node/src/personal-provider-config-repository.ts:69-217 | from every start there is a run that moves back |
| PollingHistory.RepositoryIsItsHistory | packages/provider-node/src/personal-provider-config-repository.ts:54-217 | in every run, with other processes writing, what is observed, which poll is under way or due and whether polling is known to fail are told by the calls that ended, what the polls read and what was written meanwhile |
| PollingHistory.PollingGoesOn | packages/provider-node/src/personal-provider-config-repository.ts:54-217 | in every run that was not disposed of, a poll is under way or the timer of the next one set, exactly if polling is enabled and some read or update has ended |
| PollingHistory.OthersAreHeard | packages/provider-node/src/personal-provider-config-repository.ts:172-217 | from every such state with the lock free, what another process commits is observed once the poll under way, if any, and the next one have completed |
| RefreshLease.ControlFile.TryAcquire | packages/provider-node/src/zcode-builtin-remote-synchronizer.ts:86-103 | decides by lease and due time of the same endpoint; writes only when granted |
| RefreshLease.ControlFile.FinishLease | packages/provider-node/src/zcode-builtin-remote-synchronizer.ts:141-168 | a finisher that no longer holds the lease writes nothing |
| LeaseHistory.RecordIsItsHistory | packages/provider-node/src/zcode-builtin-remote-synchronizer.ts:81-168 | in every run of any processes the record is a function of the leases taken and finished |
| LeaseHistory.LeasesAreApart | packages/provider-node/src/zcode-builtin-remote-synchronizer.ts:86-103 | two leases on one endpoint are a lease duration apart unless the first was finished or another endpoint took over |
| LeaseHistory.OnlyTheCurrentLeaseFinishes | packages/provider-node/src/zcode-builtin-remote-synchronizer.ts:141-168 | finishing has an effect exactly for the latest lease while it is unfinished |
| LeaseHistory.EachLeaseFinishesOnceAtMost | packages/provider-node/src/zcode-builtin-remote-synchronizer.ts:141-168 | with fresh ids, an effective finish comes right after its lease was taken, and only once |
| LeaseHistory.UnforcedLeasesWait | packages/provider-node/src/zcode-builtin-remote-synchronizer.ts:86-168 | no unforced lease precedes the time set by the last effective finish; after k failures in a row the wait is min(base * 2^(k-1), max) |
| LeaseHistory.RefusedOnlyWhileHeldOrNotDue | packages/provider-node/src/zcode-builtin-remote-synchronizer.ts:86-103 | a lease is refused exactly while one is held or, unforced, before it is due |
| ReleaseCache.SelectionIsNewest | packages/provider-node/src/zcode-builtin-provider-config-source.ts:180-206 | the newer candidate, the bundled one if both are equally new |
| ReleaseCache.BuiltinProviderConfigSource.ApplyRemoteRelease | packages/provider-node/src/zcode-builtin-provider-config-source.ts:64-84 | stale, unchanged, conflicting and newer releases; listeners hear of the last kind only; after dispose nothing is written |
| ReleaseCache.BuiltinProviderConfigSource.RefreshAfterWatch | packages/provider-node/src/zcode-builtin-provider-config-source.ts:133-148 | listeners hear of a changed file once per release |
| ReleaseCache.FileNeverGoesBack | packages/provider-node/src/zcode-builtin-provider-config-source.ts:64-121 | whatever bundles the processes have, the active file never goes back to an older revision |
| ReleaseCache.FileHoldsTheNewest | packages/provider-node/src/zcode-builtin-provider-config-source.ts:64-121 | whatever bundles the processes have, a fresh cache comes to hold the newest revision ever bundled or offered, in the last bundled content in use, else in the first one offered |
| ReleaseCache.TakenExactlyWhenNewer | packages/provider-node/src/zcode-builtin-provider-config-source.ts:64-84 | an offer is taken exactly if it is newer than everything bundled or offered before |
| ReleaseCache.ContentIsStableExactlyWhenBundlesAgree | packages/provider-node/src/zcode-builtin-provider-config-source.ts:64-206 | for any bundles and offers: no run changes the content of a revision if and only if no bundle shares its revision, with other content, with another bundle or with an offer above some bundle |
| ReleaseCache.ContentChangesExactlyWhenOverruled | packages/provider-node/src/zcode-builtin-provider-config-source.ts:64-206 | a step changes the content of the file's revision if and only if its process's bundle has that revision with other content and nothing newer is offered |

## Left out

- Sockets, timers, MessagePort, WebSocket and stdio: channels and steps of the model take their place; time is an argument of the steps.
- ReliableSession.NothingIsLostOrReordered: message ids and payload lengths stay below 2^32, since the frame fields wrap there.
- Framing.ChunkStream.NextFrame: the body that the read loops of `SocketProtocol` and `PersistentProtocol` share, written once.
- Framing.ChunkStream.Peek: an empty list of chunks is only allowed for a positive count, where the source looks at the first chunk.
- Buffers and frames are sequences of bytes where they are only read; sharing of one underlying buffer is not modelled.
- FlowControl.MarksHoldExactlyWhenOrdered: watermarks and limits are natural numbers; the source also takes fractions and negative ones.
- Serialization.EncodedIsDecoded: strings stand for their UTF-8 bytes and JSON objects for the bytes of their JSON text; both conversions, the base64 marker of nested binaries and the sign of zero are outside; lengths from 2^31 on do not survive (Serialization.RoundTripsExactlyWhenItFits).
- ChannelRequests.ChannelClient.RequestEvent: the frames of event subscriptions, what arguments and results contain, and callbacks that call the client again; events matter here for the ids and handlers they share with requests.
- `ChannelServer`, proxy channels, IPC routing, logging and telemetry.
- Json.Number is an opaque type: numerals, safety and arithmetic are parameters, so IEEE rounding is outside; where an order of numbers matters, Rules.ComparisonsExclude assumes the one of doubles.
- MergePatch.CloneJson: values are immutable here, so that the copy shares nothing with the original cannot be said.
- JSON objects are maps: the order of their keys is not observable; `formatPath` only shapes an error message.
- Parsing.Parser.ParseConditionalExpression: the token list ends with the end-of-input token, as the tokenizer always leaves it (Tokenizer.ScanIsWellEnded).
- Printing.ReadBack: a negative number is a unary minus, and numbers without a numeral have no printed form.
- Freezing of values and programs: values are immutable here.
- RefreshSystem.NoUpdateIsLost: a source tells its subscribers of every change that a read may have seen. The personal file does not when it goes back to its observed revision between two polls: a read in between leaves the registry at what it saw.
- Reasons, labels and error events of the registry's refreshes, listeners that call the services again, and the display states of accounts.
- AccountService.AccountProviderService.ResumeWithCurrentConfig: two account snapshots have the same revision exactly if they are equal, which the source's JSON revision string gives for equal key orders.
- Zod schemas and the provider configuration classes: overlays are unions of keys with opaque values.
- ModelMembership.EveryRunEndsWellExactlyWhen: revisions and currency of the membership that a caller passes; a stale one throws and writes nothing. Lists of ids are trimmed before they are stored, as the configuration's constructor does.
- Deletion, labels and the order of whole providers in `ProviderConfigService`, the enablement of models, and the checks of groups, account access and labels that refuse a provider's fields.
- RepositoryHistory.AnchoredRunsNeverMoveBack: revisions identify contents; another process's locked section is one commit; an update that has written its last content does not fail any more.
- RefreshLease.ControlFile.TryAcquire: a damaged control file counts as an empty one; the network request, the coalescing of `refresh()` calls and reporting are outside.
- ReleaseCache.FileHoldsTheNewest: the active file is separate from the bundled one, and nobody else damages it; a read that cannot lock the file falls back on the bundled release without touching it.
- File watching, hashing, encoding and the atomic replacement of files.
- `packages/formal-proof`, the desktop and web applications, and the services built on these packages.
