# SystemPort core, modelled in Dafny

This project models four sequential parts of the SystemPort library (`SystemAbstractions`) and proves properties of them.

- **DataQueue** (`data_queue.dfy`, module `DataQueues`) is a FIFO of byte buffers.
  - The queue is a sequence of `Element(data, consumed)` plus a running `totalBytes`.
  - Its abstract content, `Bytes`, is the concatenation of every element's unconsumed suffix.
  - One traversal, `ImplDequeue`, serves `Dequeue`, `Peek` and `Drop`. It has a whole-element fast path and a general byte-copy path, the latter in `CopyFromElement`.
  - The traversal is proved to hand out exactly the first `min(n, totalBytes)` bytes. When removing, it leaves the element state `DropFront` and the remaining suffix of the content.
- **DiagnosticsSender** (`diagnostics_sender.dfy`, module `Diagnostics`) is a class holding:
  - the token-keyed subscriber map;
  - the next token;
  - the cached minimum level, with `SIZE_MAX` meaning no subscriber;
  - the context stack;
  - a liveness flag that stands for the sender's shared state still existing.
  - The class invariant `Valid` says that the cached minimum is the real minimum and that every token in use was handed out before the next one.
  - Delegates are values: `Callback(id)` is a subscriber's own function, and `Chained(outer)` is what `Chain()` returns. Publishing returns the delegate calls it makes, in token order; a `Chained` call is performed by `ReceiveChained` on the outer sender.
- **DiagnosticsContext** (`diagnostics_context.dfy`, module `DiagnosticsScopes`) is a scope guard. Its constructor pushes a context onto a sender and `Destroy` (the destructor) pops it.
- **FileLinux path helpers** (`file_linux.dfy`, module `FilePaths`):
  - `GetExeParentDirectory` works in place on a `PATH_MAX` character buffer, with the source's `while (--length > 0)` scan. The result of `realpath` is a parameter.
  - The `"%s/%s"` and `"%s/.%s"` joins are pure functions.
- `diagnostics_traces.dfy` (module `DiagnosticsTraces`) replays the unit tests of DiagnosticsSender and DiagnosticsContext against the model. What a test's subscriber records is proved equal to the messages the tests expect.
- `types.dfy` (module `Types`) holds `size_t` as `SizeT` (0 to `SIZE_MAX`), bytes, and `Min`.

## Model

| member | source | states |
|---|---|---|
| DataQueues.Bytes | SystemPort/src/DataQueue.cpp:22-38 | The content has as many bytes as the sum over elements of `data.size() - consumed`, the quantity `totalBytes` tracks |
| DataQueues.DropFront | SystemPort/src/DataQueue.cpp:67-89 | Removing `k` bytes from the front leaves well-formed elements holding exactly `k` fewer bytes |
| DataQueues.EraseAt | SystemPort/src/DataQueue.cpp:62 | The deque's `erase` (also at line 83) removes exactly element `i`: one element fewer, those before it kept in place, those after it moved up by one |
| DataQueues.ConsumeAt | SystemPort/src/DataQueue.cpp:80-84 | Advancing element `i` by `n` keeps it, with its offset raised by `n` and all other elements unchanged, while bytes of it remain; once it is used up it is erased, with the elements before and after it kept in order |
| DataQueues.BytesAppend | SystemPort/src/DataQueue.cpp:104-116 | Appending an element appends its unconsumed bytes to the content and its size to the byte count |
| DataQueues.DropFrontBytes | SystemPort/src/DataQueue.cpp:47-91 | After removing `k` bytes the content is the old content without its first `k` bytes, wherever the element boundaries fall |
| DataQueues.DropFrontCompose | SystemPort/src/DataQueue.cpp:118-128 | Removing `a` bytes and then `b` bytes leaves the same elements as removing `a + b` at once |
| DataQueues.FastPathAgrees | SystemPort/src/DataQueue.cpp:49-66 | For an untouched front element of exactly the requested size, handing it out whole and erasing it gives the same bytes and the same elements as the byte-copy path |
| DataQueues.ConsumeFrontState | SystemPort/src/DataQueue.cpp:67-84 | Consuming `min(left, unconsumed)` bytes of the front element, and erasing it once used up, keeps the elements well formed, lowers the count by that much, and does not change where the rest of the request ends |
| DataQueues.ConsumeFrontBytes | SystemPort/src/DataQueue.cpp:79-84 | After that step the content starts with the front element's bytes past the new offset |
| DataQueues.ConsumeFrontContent | SystemPort/src/DataQueue.cpp:67-84 | When removing, copying and consuming `min(left, unconsumed)` bytes of the front element appends the next bytes of the content to the buffer, and the remaining elements hold the rest of the content and still end where the request ends |
| DataQueues.TraversalStart | SystemPort/src/DataQueue.cpp:45-47 | Before the loop, with an empty buffer and `min(n, totalBytes)` bytes wanted, the traversal invariant holds |
| DataQueues.RemovingStep | SystemPort/src/DataQueue.cpp:67-84 | One general step when removing keeps the invariant: the buffer is the content's prefix so far, and the elements still end where the whole request ends |
| DataQueues.PeekingStep | SystemPort/src/DataQueue.cpp:67-89 | One general step when only peeking keeps the invariant: the elements are untouched, and those from the cursor on hold the bytes still wanted |
| DataQueues.TraversalFastPath | SystemPort/src/DataQueue.cpp:49-66 | The fast path ends the traversal in the final state the general path promises |
| DataQueues.TraversalDone | SystemPort/src/DataQueue.cpp:48-91 | When no byte is left to want, the buffer holds the requested prefix and the elements are the removal result, or unchanged when peeking |
| DataQueues.CopyFromElement | SystemPort/src/DataQueue.cpp:67-89 | The general path's body keeps the traversal invariant and moves the loop's measure down |
| DataQueues.ImplDequeue | SystemPort/src/DataQueue.cpp:40-92 | Returns the first `min(n, totalBytes)` bytes of the content when `returnData` and nothing otherwise. When `removeData` it leaves `DropFront` of that many bytes, `totalBytes` lowered by as much, and the suffix of the content; otherwise the state is unchanged. A request for 0 bytes returns nothing and changes nothing |
| DataQueues.DataQueue.constructor | SystemPort/src/DataQueue.cpp:99-102 | A new queue is empty, with a zero byte count |
| DataQueues.DataQueue.Enqueue | SystemPort/src/DataQueue.cpp:104-116 | Appends one element holding `data` with nothing consumed, adds `data.size()` to the byte count and one to the buffer count, and appends `data` to the content |
| DataQueues.DataQueue.Dequeue | SystemPort/src/DataQueue.cpp:118-120 | Returns the first `min(n, GetBytesQueued())` bytes and leaves the rest of the content. A request of at least `GetBytesQueued()` returns everything and empties the queue |
| DataQueues.DataQueue.Peek | SystemPort/src/DataQueue.cpp:122-124 | Returns the bytes `Dequeue` would return and changes nothing |
| DataQueues.DataQueue.Drop | SystemPort/src/DataQueue.cpp:126-128 | Leaves the state `Dequeue` would leave: `DropFront` of `min(n, GetBytesQueued())` bytes |
| DataQueues.DataQueue.GetBuffersQueued | SystemPort/src/DataQueue.cpp:130-132 | The number of elements held |
| DataQueues.DataQueue.GetBytesQueued | SystemPort/src/DataQueue.cpp:134-136 | The running count equals the length of the content |
| Diagnostics.LeastExists | SystemPort/src/DiagnosticsSender.cpp:122 | Every non-empty set of tokens has a least token, the one `std::map` visits first |
| Diagnostics.Ascending | SystemPort/src/DiagnosticsSender.cpp:122 | The walk order of a token set lists as many tokens as the set holds |
| Diagnostics.AscendingExact | SystemPort/src/DiagnosticsSender.cpp:122 | The token order holds every subscribed token exactly once, strictly ascending |
| Diagnostics.SelectedExact | SystemPort/src/DiagnosticsSender.cpp:122-126 | Filtering an ascending token list keeps exactly the tokens whose minimum level the message meets, in order |
| Diagnostics.Selected | SystemPort/src/DiagnosticsSender.cpp:122-126 | The filter keeps no more tokens than it is given, and each kept token is subscribed at a minimum level the message meets |
| Diagnostics.Recipients | SystemPort/src/DiagnosticsSender.cpp:122-126 | No more recipients than subscribers, and each recipient is subscribed at a minimum level the message meets |
| Diagnostics.SelectedPush | SystemPort/src/DiagnosticsSender.cpp:122-126 | Visiting one more subscriber extends the selection by that token exactly when `level >= minLevel` of its subscription |
| Diagnostics.Deliveries | SystemPort/src/DiagnosticsSender.cpp:122-126 | Calling the subscribers `ts` in order makes one call per token, the `k`-th with the delegate of `ts[k]` and the given name, level and message |
| Diagnostics.RecipientsExact | SystemPort/src/DiagnosticsSender.cpp:122-126 | A message at `level` reaches a subscriber if and only if `level >= minLevel` of its subscription, once each, in ascending token order |
| Diagnostics.RecipientsBelowMin | SystemPort/src/DiagnosticsSender.cpp:111-113 | Below the cached minimum nobody would be reached, so the early return loses no message |
| Diagnostics.SelectedNone | SystemPort/src/DiagnosticsSender.cpp:122-126 | A level below every listed subscriber's minimum selects nobody |
| Diagnostics.RecipientsOfOne | SystemPort/src/DiagnosticsSender.cpp:122-126 | A lone subscriber is reached exactly when the level meets its minimum |
| Diagnostics.SubscribeKeepsMin | SystemPort/src/DiagnosticsSender.cpp:146-147 | Adding a subscription under a fresh token and taking `min(old, level)` keeps the cached value the minimum |
| Diagnostics.UnsubscribeKeepsMin | SystemPort/src/DiagnosticsSender.cpp:161-163 | Removing a subscription whose level differs from the cached minimum leaves it the minimum without a rescan |
| Diagnostics.ContextPrefix | SystemPort/src/DiagnosticsSender.cpp:115-121 | The prefix is empty for an empty stack; otherwise it ends in `": "`, and it is at least two characters per context long |
| Diagnostics.ContextChain | SystemPort/src/DiagnosticsSender.cpp:116-119 | The loop over the stack, bottom first, builds exactly `ContextPrefix` of the stack |
| Diagnostics.DeliverToSubscribers | SystemPort/src/DiagnosticsSender.cpp:122-126 | The walk over the map makes one call per recipient, in ascending token order, each with that subscriber's delegate and the given name, level and message |
| Diagnostics.ContextPrefixFront | SystemPort/src/DiagnosticsSender.cpp:115-121 | The prefix starts with the bottom context and `": "` |
| Diagnostics.ContextPrefixPush | SystemPort/src/DiagnosticsSender.cpp:117-119 | Pushing a context appends it and `": "` to the prefix |
| Diagnostics.Decorated | SystemPort/src/DiagnosticsSender.cpp:115-121 | With an empty context stack the message goes out undecorated |
| Diagnostics.ChainedMessage | SystemPort/src/DiagnosticsSender.cpp:185 | The republished message is the sender's name, then `": "`, then the message |
| Diagnostics.DiagnosticsSender.constructor | SystemPort/src/DiagnosticsSender.cpp:134-138 | A new sender has the given name, no subscribers, next token 1, minimum `SIZE_MAX` and no context |
| Diagnostics.DiagnosticsSender.SubscribeToDiagnostics | SystemPort/src/DiagnosticsSender.cpp:143-147 | `level` defaults to 0, as in the declaration. Returns the next token, which is not yet in use, and advances it by one. Stores `Subscription(delegate, level)` under it and sets the minimum to `min(old, level)`. The invariant and the context stack are kept |
| Diagnostics.DiagnosticsSender.Unsubscribe | SystemPort/src/DiagnosticsSender.cpp:150-169 | Once the sender is gone, or for a token no longer subscribed, nothing changes. Otherwise only that token's subscription is removed, and the cached minimum is the minimum of the rest (rescanned when the removed one held it) |
| Diagnostics.DiagnosticsSender.SendDiagnosticInformationString | SystemPort/src/DiagnosticsSender.cpp:110-127 | Makes one call per recipient, in ascending token order. Each call is the recipient's delegate with the sender's name, the level, and the context prefix followed by the message |
| Diagnostics.DiagnosticsSender.SendDiagnosticInformationFormatted | SystemPort/src/DiagnosticsSender.cpp:198-207 | Below the cached minimum it calls nobody; otherwise it publishes the formatted message as `SendDiagnosticInformationString` does |
| Diagnostics.DiagnosticsSender.Chain | SystemPort/src/DiagnosticsSender.cpp:172-174 | The delegate refers back to this sender |
| Diagnostics.DiagnosticsSender.ReceiveChained | SystemPort/src/DiagnosticsSender.cpp:178-187 | Once this sender is gone, nothing is delivered. Otherwise it publishes `senderName: message` at the same level, under this sender's name, to its recipients |
| Diagnostics.DiagnosticsSender.GetMinLevel | SystemPort/src/DiagnosticsSender.cpp:190-192 | The lowest level any subscriber wants, or `SIZE_MAX` when there is none |
| Diagnostics.DiagnosticsSender.PushContext | SystemPort/src/DiagnosticsSender.cpp:209-212 | Appends the context to the top of the stack; subscriptions, minimum and token are unchanged |
| Diagnostics.DiagnosticsSender.PopContext | SystemPort/src/DiagnosticsSender.cpp:214-217 | Removes the top context of a non-empty stack; subscriptions, minimum and token are unchanged |
| Diagnostics.DiagnosticsSender.Destroy | SystemPort/src/DiagnosticsSender.cpp:130 | The destructor releases the shared state, so every weak reference to it (the unsubscribe closure's at lines 148-153, the chained delegate's at 179-182) expires; nothing else changes |
| DiagnosticsScopes.DiagnosticsContext.constructor | SystemPort/src/DiagnosticsContext.cpp:35-42 | Pushes exactly the given context onto the sender's stack and changes nothing else about the sender |
| DiagnosticsScopes.DiagnosticsContext.Destroy | SystemPort/src/DiagnosticsContext.cpp:44-46 | Pops exactly one entry from the sender's stack and changes nothing else about the sender |
| DiagnosticsScopes.GuardedScope | SystemPort/src/DiagnosticsContext.cpp:35-46 | Inside the guard the stack is the old one plus the context; after it, the stack is as before, and the subscriptions, the minimum and the next token are unchanged |
| DiagnosticsTraces.Record | SystemPort/test/src/DiagnosticsSenderTests.cpp:50-60 | Every call made to callback `id` is recorded, and every record comes from such a call |
| DiagnosticsTraces.RecordAppend | SystemPort/test/src/DiagnosticsSenderTests.cpp:50-60 | The record keeps the order of the calls: recording two runs of calls is recording the first and then the second |
| DiagnosticsTraces.RecipientsOfNone | SystemPort/src/DiagnosticsSender.cpp:122-126 | With no subscribers, nobody is reached |
| DiagnosticsTraces.SendToOne | SystemPort/src/DiagnosticsSender.cpp:110-127 | A lone subscriber at `minLevel` records the decorated message exactly when `level >= minLevel` |
| DiagnosticsTraces.BasicSubscriptionAndTransmission | SystemPort/test/src/DiagnosticsSenderTests.cpp:45-82 | `GetMinLevel()` is 5 after subscribing at 5. The subscriber receives exactly (10, "PogChamp"), (5, "spam: Level 5, can you dig it?") and (6, "Level 6 FOR THE WIN"), all from "Joe" |
| DiagnosticsTraces.BasicTransmissions | SystemPort/test/src/DiagnosticsSenderTests.cpp:65-80 | The publishes made while the test's subscription is in place deliver those three messages |
| DiagnosticsTraces.FormattedMessage | SystemPort/test/src/DiagnosticsSenderTests.cpp:84-107 | A formatted message at level 0 reaches a level-0 subscriber unchanged |
| DiagnosticsTraces.Chaining | SystemPort/test/src/DiagnosticsSenderTests.cpp:109-134 | A message published on "inner" reaches the outer subscriber as ("outer", 0, "inner: The answer is 42.") |
| DiagnosticsTraces.ContextApplied | SystemPort/src/DiagnosticsSender.cpp:115-121 | Under a single context `c`, a message `m` goes out as `c: m` |
| DiagnosticsTraces.SpamApplied | SystemPort/test/src/DiagnosticsSenderTests.cpp:67-78 | Under "spam" the level-5 message reads "spam: Level 5, can you dig it?" |
| DiagnosticsTraces.BarApplied | SystemPort/test/src/DiagnosticsContextTests.cpp:61-74 | Under "bar" the message "world" reads "bar: world" |
| DiagnosticsTraces.ChainedAnswer | SystemPort/src/DiagnosticsSender.cpp:185 | The chained message of the test reads "inner: The answer is 42." |
| DiagnosticsTraces.PublishAfterChainedSenderDestroyed | SystemPort/test/src/DiagnosticsSenderTests.cpp:157-182 | With the outer sender destroyed, the chained message reaches nobody |
| DiagnosticsTraces.UnsubscribeAfterSenderDestroyed | SystemPort/test/src/DiagnosticsSenderTests.cpp:136-154 | Unsubscribing after the sender is destroyed changes nothing |
| DiagnosticsTraces.UnsubscribeRescan | SystemPort/src/DiagnosticsSender.cpp:157-168 | Removing the subscriber that held the minimum rescans to the next lowest level (5); removing it again changes nothing; a message at 4 then reaches nobody |
| DiagnosticsTraces.PushAndPopContext | SystemPort/test/src/DiagnosticsContextTests.cpp:45-75 | Before, inside and after a "bar" guard, the subscriber receives "hello", "bar: world" and "last message" |
| FilePaths.StrLen | SystemPort/src/Linux/FileLinux.cpp:42 | `strlen`: no NUL before the result, and a NUL at it when that is inside the buffer |
| FilePaths.CString | SystemPort/src/Linux/FileLinux.cpp:52 | The string read out of a buffer has no NUL, and is the whole buffer when it held none |
| FilePaths.StrLenAt | SystemPort/src/Linux/FileLinux.cpp:42-52 | A buffer whose first NUL is at `n` reads back as its first `n` characters |
| FilePaths.ParentOf | SystemPort/src/Linux/FileLinux.cpp:39-53 | The parent directory is a non-empty prefix of the resolved path |
| FilePaths.ScanBack | SystemPort/src/Linux/FileLinux.cpp:43-47 | The backwards scan from `n` stops at the last `/` at an index between 1 and `n`, or at 0 when there is none |
| FilePaths.ParentLength | SystemPort/src/Linux/FileLinux.cpp:43-50 | The cut is at the last `/` past index 0 when there is one, and at 1 otherwise; no `/` lies past the cut |
| FilePaths.ParentAtLastSlash | SystemPort/src/Linux/FileLinux.cpp:43-51 | With its last `/` at `k > 0`, the parent is `path[0..k)`: the final component and its separator are dropped |
| FilePaths.ParentWithoutSlash | SystemPort/src/Linux/FileLinux.cpp:48-51 | With no `/` past the first character, the parent is that first character: "/" for an absolute path such as "/exe" or "/" |
| FilePaths.GetExeParentDirectory | SystemPort/src/Linux/FileLinux.cpp:39-53 | The in-place scan and NUL truncation of the buffer return exactly `ParentOf` of the resolved path |
| FilePaths.ResourceFilePath | SystemPort/src/Linux/FileLinux.cpp:55-57 | For strings without NUL the path is `parent + "/" + name` |
| FilePaths.LocalPerUserConfigDirectory | SystemPort/src/Linux/FileLinux.cpp:59-61 | For strings without NUL the path is `home + "/." + key` |
| FilePaths.ResourceInParent | SystemPort/src/Linux/FileLinux.cpp:43-57 | A resource named without `/` sits directly in the directory: the parent of its path is that directory again |
| FilePaths.ConfigInHome | SystemPort/src/Linux/FileLinux.cpp:43-61 | A key without `/` names a hidden entry directly in the home directory: the parent of the path is the home directory, and the last component is the key behind a dot |
| FilePaths.GetResourceFilePath | SystemPort/src/Linux/FileLinux.cpp:39-57 | The resource path is the executable's parent directory, `/`, and the name up to its first NUL, where `%s` stops; for a name without NUL, the whole name |

## Left out

- The deque is modelled as a sequence, and a `std::vector` buffer as a `seq` of bytes. `std::move` and copying do the same thing on values, so the two `Enqueue` overloads are one method, and the fast path's move and copy of the element's data are one assignment.
- DataQueues.DataQueue.Enqueue: `totalBytes` is an unbounded natural number. The model does not cover the `size_t` wrap-around once more than `SIZE_MAX` bytes are queued, because such a queue cannot be held in memory.
- Diagnostics.DiagnosticsSender.SubscribeToDiagnostics: tokens are unbounded natural numbers. The source's `unsigned int` token wraps after 2^32 subscriptions and could then reuse a token still in use; the model does not capture that wrap, and so its freshness guarantee holds only below it.
- The mutex in DiagnosticsSender is not modelled. The model is single-threaded, so each operation is atomic.
- The `weak_ptr` handles are not modelled as objects. An unsubscribe closure and a `Chain()` delegate outliving their sender are modelled through the `alive` flag, which `Destroy` clears.
- Delegates are foreign functions. A subscriber's own delegate is a `Callback(id)` value. A publish returns the calls it makes instead of making them, so the caller carries out a chained call one level at a time.
- The `vsprintf` formatting in `SendDiagnosticInformationFormatted` is a foreign call: the formatted message is a parameter. Only the level gate in front of it is modelled.
- The `UnsubscribeDelegate` closure is the method `Unsubscribe(token)` on the sender it was created from.
- `realpath("/proc/self/exe")` and the home-directory lookup are foreign calls. Their results are parameters: the resolved path and the home directory. The `sprintf` joins `"%s/%s"` and `"%s/.%s"` are not parameters: `ResourceFilePath` and `LocalPerUserConfigDirectory` compute them, each `%s` stopping at the first NUL of its argument.
- FilePaths.GetExeParentDirectory requires a non-empty resolved path. With `strlen == 0`, `--length` on a `size_t` wraps around and the source indexes far outside the buffer, which `realpath` never produces. The path must also fit in `PATH_MAX` and hold no NUL. For the rare relative path without another `/`, the result is its first character, as the source computes; "/" is stated only for absolute paths.
- `GetExeImagePath` (SystemPort/src/Linux/FileLinux.cpp:30-37) is only the `realpath` call, so it is not a separate member.
- NetworkConnection, NetworkEndpoint, PipeSignal, Subprocess, Time, Clipboard, CryptoRandom, DynamicLibrary, Service, the other `File` operations, CppStringPlus and DiagnosticsStreamReporter are not part of this model. They are sockets, threads, processes, clocks or code whose bodies are not shown.
- The parser and console glue are not part of this model either.
