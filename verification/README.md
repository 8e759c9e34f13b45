# Telegram Desktop: verified cores

This project models the parts of this Telegram Desktop fork that carry the hardest promises, and proves those promises
for every input or in every run.

- **SHA-1 of the packer** (`Sha1`, `PackerSha1`). The hand-written hash, array by array, against FIPS 180-4.
- **V2 update envelope** (`Envelope*`). The builder, the client's parser, and the two programs that sign and build again.
- **Allocation trace reader** (`AllocationTrace`, `TraceReader`, `TraceAccounting`, `TraceRecords`, `TraceOutput`). A
  refilled buffer against one pass over the file, and the file against the records written to it.
- **Mesh tools** (`Mesh*`). Text and binary meshes, there and back.
- **List hash** (`ListHash`, `ApiHash`). Which changes of a list always change its hash.
- **Request protocols** (`MessageData*`, `WebPages*`, `Drafts*`, `Dialogs*`, `StickerSets`, `StickerSave`,
  `Forwarding*`, `Albums*`, `Blocked*`). State machines over maps of request ids.
- **Event queue of the web app shell** (`FrameQueue`, `FrameSteps`).

Where the program changes state step by step, a class or an in-place method does the same steps and is proved against a
function or a relation on states; the theorems are about those. Lemmas named `...Exactly` say on the fields alone what
one step does, without its function. In the protocols the server is any environment: ids are
fresh and positive, a request that is not cancelled is answered once, later, in any order. Callbacks are tokens, and what
a callback does is a later step. A run is any sequence of steps from the initial state.

Some promises turned out to hold on a condition only. The condition is then proved to be exact, or a reachable state
shows the failure:

- `hashSha1` keeps 32 bits of the length in bits, so it is SHA-1 for messages below 2^29 bytes; longer ones are padded
  differently from the standard.
- The mesh tools say that their round trip is byte-identical. It is, exactly for files with whole xyz triples, uv pairs
  and triangles; leftover numbers are accepted by the reader and dropped by the printer.
- A delayed draft save is noted exactly when no older one is pending, and is dropped exactly by a pass that skips or
  fails its thread or finds it destroyed, or by the repeat of an older save. An entry dangles exactly when a save of
  another thread object of the same draft cancelled what it names, and nothing repaired it since. A cancelled save never
  leaves the count of running saves, which then keeps out the server's drafts of that chat.
- A not-modified reply stops the loading of a chats list for good, and nothing else does.
- The stars paid for forwarding are the whole price, or all that was approved, exactly when that price fits an int or the
  last batch's cost, wrapped or not, covers what is left. Each batch pays what is due exactly when its
  own cost fits or wraps to enough.
- Reading a featured set changes the hash of the featured sets, except in a fixed state of the hash; one is given.
- An album whose last unfinished file fails to be prepared is not sent, although all its remaining items are ready, and
  stays unsent exactly until one of its messages is destroyed.
- An unblock callback is told while its own request may still succeed exactly by a new block call or by the answer to
  another request of the peer. An unblocked peer stays in the list of blocked peers exactly when it was listed twice.
- The shell loses events in four cases, which are named.

## Model

| member | source | states |
|---|---|---|
| PackerSha1.Sha1PartHash | Telegram/SourceFiles/_other/packer.cpp:91-123 | the fused schedule and rounds, in place on `sha` and `temp`, are one compression of FIPS 180-4 section 6.1.2 |
| PackerSha1.NextRound | Telegram/SourceFiles/_other/packer.cpp:94-102 | after t rounds, `_shiftswap` with round t's function, constant and word gives the state after t + 1 rounds |
| PackerSha1.NextWord | Telegram/SourceFiles/_other/packer.cpp:104-107 | the word written over `temp[round]` is the next word of the standard's message schedule |
| PackerSha1.Choose | Telegram/SourceFiles/_other/packer.cpp:109-110 | the or-form of the first 20 rounds is the standard's Ch |
| PackerSha1.Majority | Telegram/SourceFiles/_other/packer.cpp:112 | the or-form of rounds 40 to 59 is the standard's Maj |
| PackerSha1.PutByteAppends | Telegram/SourceFiles/_other/packer.cpp:145-148 | or-ing a shifted byte into a zeroed word appends that byte in big-endian order |
| PackerSha1.PaddingExact | Telegram/SourceFiles/_other/packer.cpp:142-154 | the padding built in place is that of section 5.1.1 if and only if the message is shorter than 2^29 bytes |
| PackerSha1.ShortTail | Telegram/SourceFiles/_other/packer.cpp:142-154 | a tail of fewer than 56 bytes, packed and marked, with the length word, is the last padded block |
| PackerSha1.LongTail | Telegram/SourceFiles/_other/packer.cpp:149-152 | a longer tail is the last block but one, without the length |
| PackerSha1.LengthBlock | Telegram/SourceFiles/_other/packer.cpp:151-154 | and the cleared block with the length word is the last one |
| PackerSha1.HashTail | Telegram/SourceFiles/_other/packer.cpp:142-154 | after whole blocks, the tail code hashes exactly the remaining padded blocks |
| PackerSha1.StoreDigest | Telegram/SourceFiles/_other/packer.cpp:156-160 | the digest is stored big-endian |
| PackerSha1.HashSha1 | Telegram/SourceFiles/_other/packer.cpp:127-163 | for every message below 2^29 bytes `dest` receives SHA-1 of the message, and `data` is unchanged |
| Sha1Spec.BitsCount | Telegram/SourceFiles/_other/packer.cpp:131-154 | the length words count: the word of n + 1 is that of n plus one, modulo 2^32 |
| Envelope.ParseBuilt | Telegram/SourceFiles/_other/packer.cpp:283-318 | what is built from acceptable fields parses back to the same fields and signed region |
| Envelope.BuildParsed | Telegram/SourceFiles/core/update_verify.cpp:609-739 | building from the fields of any accepted envelope gives its bytes back, all of them |
| Envelope.RoundTripExact | Telegram/SourceFiles/core/update_verify.cpp:609-739 | an envelope reads back as its fields if and only if all sizes are within the client's limits |
| Envelope.BuildInjective | Telegram/SourceFiles/_other/packer.cpp:283-318 | different fields give different bytes, as long as all sizes fit 32 bits |
| EnvelopeErrors.CutPackage | Telegram/SourceFiles/core/update_verify.cpp:609-680 | a package that ends early is refused at the first header field, or the part of the manifest, that is not there |
| EnvelopeErrors.SizeRefused | Telegram/SourceFiles/core/update_verify.cpp:663-728 | a size of zero or above the limit is a size error, whether its bytes are there or not |
| EnvelopeErrors.LongPackage | Telegram/SourceFiles/core/update_verify.cpp:724-739 | bytes left over are an error of the payload |
| EnvelopePacker.AppendLeU64 | Telegram/SourceFiles/_other/packer.cpp:179-182 | the two halves are appended low first, each little-endian |
| EnvelopePacker.BuildV2Envelope | Telegram/SourceFiles/_other/packer.cpp:283-318 | the appends write the envelope layout |
| EnvelopePacker.ParseEnvelope | Telegram/SourceFiles/core/update_verify.cpp:609-739 | the cursor-based parser computes the parse function, error by error: a bad size and missing bytes are told apart |
| EnvelopePacker.RebuildChangesOneSection | Telegram/SourceFiles/_other/packer.cpp:534-542 | rebuilding with other signatures replaces the signature section of the bytes and nothing else |
| EnvelopePacker.RebuildParses | Telegram/SourceFiles/_other/packer.cpp:534-542 | the rebuilt envelope parses to the same header, manifest, payload and signed region if and only if the new signatures fit |
| EnvelopePacker.InputOfPackage | Telegram/SourceFiles/core/update_verify.cpp:741-747 | what is signed in an accepted package is its bytes from the magic through the manifest, followed by the hash of its payload |
| EnvelopePacker.SameInputExactly | Telegram/SourceFiles/core/update_verify.cpp:741-747 | with hashes of one length, two accepted packages ask for the same signature if and only if header, manifest and payload hash are the same |
| EnvelopePacker.EmbedV2Signatures | Telegram/SourceFiles/_other/packer.cpp:467-542 | which inputs are refused, and what is built otherwise: its own key, too, signs the bytes through the manifest and the payload's hash (`EmbeddedExactly`) |
| EnvelopePacker.EmbeddedExactly | Telegram/SourceFiles/_other/packer.cpp:498-542 | embedding into an accepted package succeeds exactly when no check fails, and a local signature is that of `bytes[..27 + 4 + manifest size] + sha256(payload)` |
| EnvelopePacker.EmbeddedKeepsSigningInput | Telegram/SourceFiles/_other/packer.cpp:498-542 | the embedded package asks for the very signing input that the unsigned one asked for |
| EnvelopePacker.WriteV2Update | Telegram/SourceFiles/_other/packer.cpp:405-457 | build, parse back, then write the unsigned package with its signing input, or sign and build again; the input is the package through its manifest, followed by the hash of its payload |
| EnvelopePacker.HeaderStays | Telegram/SourceFiles/_other/packer.cpp:449-457 | the parsed creation time is the one that was built in |
| EnvelopePacker.WrittenIsSignedOver | Telegram/SourceFiles/_other/packer.cpp:423-457 | the signature in the written package is over the bytes that its reader will check: the written package through its manifest, then the payload's hash |
| AllocationTrace.ParseInTwo | cmake/linux_allocation_tracer/linux_allocation_trace_reader.cpp:120-163 | parsing a concatenation is parsing the first part, then the unparsed rest of it with the second part |
| AllocationTrace.ReportInTwo | cmake/linux_allocation_tracer/linux_allocation_trace_reader.cpp:182-213 | and so is the whole report |
| TraceReader.RestIsIncomplete | cmake/linux_allocation_tracer/linux_allocation_trace_reader.cpp:137-139 | what a parse leaves is one incomplete record |
| TraceReader.Refilled | cmake/linux_allocation_tracer/linux_allocation_trace_reader.cpp:182-202 | one refill, parse and move keeps the final report |
| TraceReader.Reader.Parse | cmake/linux_allocation_tracer/linux_allocation_trace_reader.cpp:120-163 | the pointer loop does to the map, the counters and the output what the parse function says, and consumes as much |
| TraceReader.Reader.SumSizes | cmake/linux_allocation_tracer/linux_allocation_trace_reader.cpp:46-49 | the sizes are summed modulo 2^64, in any order of the map |
| TraceReader.Reader.Turn | cmake/linux_allocation_tracer/linux_allocation_trace_reader.cpp:182-202 | one turn of the loop leaves fewer than 29 bytes, so the buffer never fills |
| TraceReader.Reader.Run | cmake/linux_allocation_tracer/linux_allocation_trace_reader.cpp:182-214 | however `fread` splits the file, map, counters, snapshots and warnings are those of one pass over the whole file; the loop ends at end of file or at the first garbage command |
| TraceRecords.ParseWritten | cmake/linux_allocation_tracer/linux_allocation_trace_reader.cpp:120-163 | the bytes of any records whose fields fit 32 and 64 bits, each byte given by its digit, parse to exactly those records, in order and whole, whatever follows them |
| TraceRecords.ReportWritten | cmake/linux_allocation_tracer/linux_allocation_trace_reader.cpp:182-214 | the report on such a file is that of its records; a torn last record is noted with its length, a byte that is no command with its signed value |
| TraceRecords.EveryFile | cmake/linux_allocation_tracer/linux_allocation_trace_reader.cpp:120-163 | any bytes at all are the bytes of the records in them, followed by nothing, by a torn record or by a byte that is no command |
| TraceReader.Reader.RunWritten | cmake/linux_allocation_tracer/linux_allocation_trace_reader.cpp:182-214 | and so is what the buffered reader prints for that file |
| TraceOutput.PrintsExactly | cmake/linux_allocation_tracer/linux_allocation_trace_reader.cpp:39-66 | the lines of one record: the state before it when its time is later, a note when it is earlier, a note for an address that the map has |
| TraceOutput.LiveExactly | cmake/linux_allocation_tracer/linux_allocation_trace_reader.cpp:69-118 | what one record does to the entry of every address |
| TraceOutput.CountersExactly | cmake/linux_allocation_tracer/linux_allocation_trace_reader.cpp:80-118 | after any trace the clock shows its latest time, and the counters of each kind come to the number of its records |
| TraceAccounting.ReportBalanced | cmake/linux_allocation_tracer/linux_allocation_trace_reader.cpp:69-118 | for every file: live entries + frees + repeated-entry warnings = mallocs + unknown reallocs, and the five counters sum to the records parsed |
| TraceAccounting.AgreesStep | cmake/linux_allocation_tracer/linux_allocation_trace_reader.cpp:69-118 | one record keeps the map equal to the last-event meaning if and only if it does not add a live address under another size |
| TraceAccounting.MapIsLastEvent | cmake/linux_allocation_tracer/linux_allocation_trace_reader.cpp:69-118 | over every prefix of a trace, the map is the last-event meaning if and only if no record adds a live address under another size |
| MeshBinary.EncodeDecode | Telegram/cmake/binobj2obj.py:31-55 | an accepted .binobj file is the encoding of what is decoded from it |
| MeshBinary.DecodeEncode | Telegram/cmake/obj2binobj.py:60-69 | a mesh whose counts and indices fit 32 bits decodes from its encoding |
| MeshCuts.CutFile | Telegram/cmake/binobj2obj.py:31-55 | a file that is cut off anywhere is a struct error |
| MeshCuts.LongFile | Telegram/cmake/binobj2obj.py:51-55 | one with bytes left over has trailing bytes |
| MeshObj.FanTriangles | Telegram/cmake/obj2binobj.py:56-58 | an n-cornered face becomes n - 2 triangles, the t-th of corners 0, t + 1 and t + 2 |
| MeshObj.ParsePrintVertex | Telegram/cmake/binobj2obj.py:75-80 | a printed corner parses back, missing (-1) and negative indices included |
| MeshObj.ParseObjLines | Telegram/cmake/obj2binobj.py:36-58 | the printed lines parse to the mesh with its incomplete groups cut off |
| MeshObj.ParsePrintObj | Telegram/cmake/binobj2obj.py:57-80 | so does the printed text, split into lines and words again |
| MeshObj.ByteIdentical | Telegram/cmake/binobj2obj.py:9-20 | text and back gives identical bytes if and only if xyz triples, uv pairs and triangles are whole |
| MeshObj.BakedIsStable | Telegram/cmake/obj2binobj.py:35-69 | a baked file always survives the trip to text and back |
| MeshObj.ParsedIsWhole | Telegram/cmake/obj2binobj.py:41-58 | parsing a text only ever yields whole groups |
| MeshTools.ConvertToObj | Telegram/cmake/binobj2obj.py:31-80 | the reader with its offset and the index loops print that text, with the same errors |
| MeshTools.Triangulate | Telegram/cmake/obj2binobj.py:56-58 | the loop builds the fan |
| MeshTools.ConvertToBin | Telegram/cmake/obj2binobj.py:30-69 | the line loop and the writers produce that encoding, or fail; `MeshFaces` says which corners the lines stand for |
| MeshFaces.ParseCorner | Telegram/cmake/obj2binobj.py:48-55 | a corner with any of its indices left out, or with more than three, parses to these indices, with -1 in each missing place |
| MeshFaces.ShortForms | Telegram/cmake/obj2binobj.py:48-55 | the words p, p/u, p//n and /u/n, with -1 for the missing indices |
| MeshFaces.FaceIsBaked | Telegram/cmake/obj2binobj.py:46-69 | a face line of such corners adds its triangles to what the file decodes to, and the file is written if and only if that fits 32 bits |
| MeshFaces.FloatsExactly | Telegram/cmake/obj2binobj.py:40-45 | a line of numbers stops the program if and only if there are too few or one is no number; further words are not looked at |
| MeshFaces.OthersSkipped | Telegram/cmake/obj2binobj.py:35-39 | comments and lines of any other kind change nothing |
| MeshText.ParseIntExactly | Telegram/cmake/obj2binobj.py:51-53 | which words are whole numbers, and what they are worth: digits with single underscores between them, and one sign |
| ListHash.HashUpdate | Telegram/SourceFiles/api/api_hash.h:40-45 | the result and the value determine the state before: only this one gives that result |
| ListHash.KnownUpdate | Telegram/SourceFiles/api/api_hash.h:40-45 | the update of three given words |
| ListHash.UnmixMix | Telegram/SourceFiles/api/api_hash.h:41-43 | the xor-shifts can be undone |
| ListHash.UpdateInjective | Telegram/SourceFiles/api/api_hash.h:40-45 | different states stay different under one value, and different values give different states |
| ListHash.UpdateOnto | Telegram/SourceFiles/api/api_hash.h:40-45 | and every state is reached: the update is a bijection of the 64-bit states |
| ListHash.CountHash | Telegram/SourceFiles/api/api_hash.h:63-70 | the loop is the fold |
| ListHash.HashFromInjective | Telegram/SourceFiles/api/api_hash.h:63-70 | any list of values permutes the states |
| ListHash.OnePositionDecides | Telegram/SourceFiles/api/api_hash.h:63-70 | lists of any length that differ in one position hash differently |
| ListHash.LeadingZeroInvisible | Telegram/SourceFiles/api/api_hash.h:36-38 | lists of different lengths can collide: zeros in front change nothing |
| ApiHash.CountDocumentVectorHash | Telegram/SourceFiles/api/api_hash.cpp:18-25 | the loop hashes the ids |
| ApiHash.OneDocumentDecides | Telegram/SourceFiles/api/api_hash.cpp:18-25 | replacing one document changes the hash |
| ApiHash.CountStickersOrderHash | Telegram/SourceFiles/api/api_hash.cpp:38-61 | the loop hashes the contributing sets, or answers 0 |
| ApiHash.OneSetDecides | Telegram/SourceFiles/api/api_hash.cpp:38-61 | a new hash of one set changes the answer if and only if that set contributes and no outdated default set suppresses it |
| ApiHash.OrderHashExactly | Telegram/SourceFiles/api/api_hash.cpp:38-61 | set by set: which sets count, and that the default set makes a checked answer 0 |
| ApiHash.CountFeaturedHash | Telegram/SourceFiles/api/api_hash.cpp:63-78 | the loop hashes ids and unread marks |
| ApiHash.FeaturedExactly | Telegram/SourceFiles/api/api_hash.cpp:63-78 | set by set: its id, and then 1 if it is unread |
| ApiHash.ReadingOneSet | Telegram/SourceFiles/api/api_hash.cpp:63-78 | reading an unread featured set changes the hash if and only if the state after its id is no fixed point of the update by 1 |
| ApiHash.FixedState | Telegram/SourceFiles/api/api_hash.h:40-45 | 0xb8d242cfb371a437 is such a fixed point, and the state after that very id alone |
| ApiHash.ReadingUnnoticed | Telegram/SourceFiles/api/api_hash.cpp:63-78 | so reading the set of that id, first in the order, leaves the hash as it was, whatever follows it |
| MessageDataApi.ApiWrap.RequestMessageData | Telegram/SourceFiles/apiwrap.cpp:656-669 | an entry is made or extended, and the resolve step queued when it is unsent |
| MessageDataApi.ApiWrap.ResolveMessageDatas | Telegram/SourceFiles/apiwrap.cpp:701-755 | one request for each scope with unsent messages, whose entries all get its id; no empty channel map is left |
| MessageDataApi.ApiWrap.FinalizeMessageDataRequest | Telegram/SourceFiles/apiwrap.cpp:757-787 | exactly the entries of the request leave, exactly their callbacks run, and an emptied channel map goes |
| MessageDataProtocol.RunKeeps | Telegram/SourceFiles/apiwrap.cpp:656-787 | the invariant of the lookups holds in every run |
| MessageDataProtocol.OneRequestPerMessage | Telegram/SourceFiles/apiwrap.cpp:701-755 | in every run a message is in at most one outstanding request of its scope |
| MessageDataProtocol.UnsentIsQueued | Telegram/SourceFiles/apiwrap.cpp:656-669 | an entry without a request has the resolve step queued; any other entry's request is outstanding |
| MessageDataProtocol.EveryCallbackOnce | Telegram/SourceFiles/apiwrap.cpp:757-787 | no callback is called twice, and when nothing is outstanding every registered one has been called |
| MessageDataProtocol.RequestedExactly | Telegram/SourceFiles/apiwrap.cpp:656-669 | a callback joins those that wait for its message, and the resolve step is queued unless a request for that message is in flight |
| MessageDataProtocol.ResolvedExactly | Telegram/SourceFiles/apiwrap.cpp:701-755 | the new requests ask for exactly the messages that nobody asked for yet, with one request for each scope |
| MessageDataProtocol.CalledWithItsMessage | Telegram/SourceFiles/apiwrap.cpp:757-787 | in every run a waiting callback is called by the answer of the request that asks for its message, and by no other |
| WebPagesApi.Collect | Telegram/SourceFiles/apiwrap.cpp:2723-2759 | temporary ids name the scope of each due page, channel indices are a permutation, and the timer gets the least remaining time |
| WebPagesApi.SendAll | Telegram/SourceFiles/apiwrap.cpp:2761-2781 | one request for each scope, remembered by index |
| WebPagesApi.ReplaceTemporary | Telegram/SourceFiles/apiwrap.cpp:2782-2794 | each page gets what its temporary id stands for; other ids stay |
| WebPagesApi.ReplacedPages | Telegram/SourceFiles/apiwrap.cpp:2782-2794 | the temporary ids are in range, and replacing them gives every due page the request of its own scope |
| WebPagesApi.ApiWrap.ResolveWebPages | Telegram/SourceFiles/apiwrap.cpp:2722-2798 | the whole step, keeping the invariant |
| WebPagesApi.ApiWrap.GotWebPages | Telegram/SourceFiles/apiwrap.cpp:3076-3094 | the erase loop removes the pages of the request and fails those still pending |
| WebPagesProtocol.RunKeeps | Telegram/SourceFiles/apiwrap.cpp:2699-2798 | between calls no negative id is left, and a positive id is that of a request sent for the page, in every run |
| WebPagesProtocol.DuePagesAreRequested | Telegram/SourceFiles/apiwrap.cpp:2722-2798 | a due page with an item ends with the real id of the one request that contains its message, for its own channel; other pages keep their id |
| WebPagesProtocol.ResponseRemovesItsPages | Telegram/SourceFiles/apiwrap.cpp:3076-3094 | a response removes exactly the pages of its request |
| WebPagesProtocol.NoRetryWithoutResponse | Telegram/SourceFiles/apiwrap.cpp:2761-2781 | there is no fail handler: a requested page keeps waiting until that request is answered or the page is cleared |
| WebPagesProtocol.ResolveExactly | Telegram/SourceFiles/apiwrap.cpp:2722-2798 | in every run, one request at most for each scope, for exactly the messages of its waiting pages whose time is over; those pages, and no others, now wait for it |
| WebPagesProtocol.DelayedExactly | Telegram/SourceFiles/apiwrap.cpp:2699-2708 | a page starts to wait, for no request yet, unless it failed or is there |
| WebPagesProtocol.GotExactly | Telegram/SourceFiles/apiwrap.cpp:3084-3094 | of the pages of the answered request, those still pending have failed; all others are as the answer left them |
| DraftsApi.ApiWrap.SaveDraftToCloudDelayed | Telegram/SourceFiles/apiwrap.cpp:2163-2171 | `emplace` keeps an existing entry and the timer runs; every non-zero entry of a live thread is still awaited |
| DraftsApi.ApiWrap.SaveDraftToCloud | Telegram/SourceFiles/apiwrap.cpp:2386-2403 | a direct save takes over its thread's entry, and the saver's invariant is kept although the slot's older save is cancelled |
| DraftsApi.ApiWrap.SavePreparedDraftToCloud | Telegram/SourceFiles/apiwrap.cpp:2405-2611 | with the new id in the thread's entry, every live thread's save is tracked and the running saves are counted, although the slot's previous save was cancelled |
| DraftsApi.ApiWrap.SaveDraftsToCloud | Telegram/SourceFiles/apiwrap.cpp:2613-2652 | the erase-while-iterating loop over the entries |
| DraftsApi.ApiWrap.IsQuitPrevent | Telegram/SourceFiles/apiwrap.cpp:2654-2661 | it answers true if and only if a live thread's own save is pending after the pass |
| DraftsApi.ApiWrap.Done | Telegram/SourceFiles/apiwrap.cpp:2555-2577 | a save that succeeded releases the draft that names it and changes no other; its entry leaves, and quitting may go on if that was the last one |
| DraftsApi.ApiWrap.Fail | Telegram/SourceFiles/apiwrap.cpp:2510-2597 | a failed save waits for its file reference, or is finished: the draft that names it is removed for a save of the timer's and released for a direct one |
| DraftsApi.ApiWrap.FileReferenceRefreshed | Telegram/SourceFiles/apiwrap.cpp:2583-2593 | the save is repeated under a new id that its thread's entry and its slot's draft follow, or finished as a failed one |
| DraftsCloud.AnswerDecides | Telegram/SourceFiles/apiwrap.cpp:2510-2597 | in every run: the draft that names an answered save is there afterwards, with no request, if and only if the save succeeded or was a direct one; a draft that names another request is unchanged |
| DraftsCloud.RefreshDecides | Telegram/SourceFiles/apiwrap.cpp:2504-2597 | a repeated save is named by its slot's draft; one that no longer serializes is settled as a failed one |
| DraftsCloud.DirectNames | Telegram/SourceFiles/apiwrap.cpp:2386-2611 | a direct save is named by its slot's draft, is not cleared on failure, and replaces in flight only the save that the draft named |
| DraftsCloud.PassNames | Telegram/SourceFiles/apiwrap.cpp:2613-2652 | a pass leaves the draft of a waiting thread there and named by the save it sends, which will clear it on failure; it creates a missing draft also when nothing can be sent |
| DraftsCloud.SignalsWhenEmptied | Telegram/SourceFiles/apiwrap.cpp:2663-2670 | in every run, only a step that empties the entries signals that quitting may go on |
| DraftsProtocol.PreparedKeeps | Telegram/SourceFiles/apiwrap.cpp:2487-2508 | cancelling and sending for one slot leaves every other live thread's save tracked |
| DraftsProtocol.RunKeeps | Telegram/SourceFiles/apiwrap.cpp:2163-2670 | the invariant of the saver holds in every run |
| DraftsProtocol.EntriesAreAwaited | Telegram/SourceFiles/apiwrap.cpp:2504-2508 | in every run a live thread's non-zero entry names its own save, still awaiting its response or its file reference, and a zero entry has the timer running |
| DraftsProtocol.DeadEntryDangles | Telegram/SourceFiles/apiwrap.cpp:2487-2494 | for destroyed threads this fails: a reachable state in which such an entry names a save cancelled by a new thread of the same slot |
| DraftsProtocol.DirectKeepsAwaited | Telegram/SourceFiles/apiwrap.cpp:2487-2494 | when every entry is awaited, a direct save keeps it so if and only if no other entry names the save it cancels; such an entry is that of a destroyed thread of the same slot |
| DraftsProtocol.DanglesSince | Telegram/SourceFiles/apiwrap.cpp:2405-2652 | in every run an entry dangles if and only if a direct save of another thread cancelled its save, and neither a pass over the entries nor a repeat of its thread's save came since |
| DraftsProtocol.QuitWaitsForSaves | Telegram/SourceFiles/apiwrap.cpp:2654-2661 | after `isQuitPrevent` every remaining entry is that of a live thread whose own save is pending |
| DraftsProtocol.QuitIsReleased | Telegram/SourceFiles/apiwrap.cpp:2613-2661 | once the timer has fired and everything has arrived, `isQuitPrevent` empties the map |
| DraftsProtocol.CounterReturnsToZero | Telegram/SourceFiles/history/history.cpp:472-492 | running saves = pending saves + other requests that clear the draft + cancelled saves; so the slot's entry, which keeps out the server's drafts, exists if and only if one of the three is there |
| DraftsApi.ApiWrap.SendClearingDraft | Telegram/SourceFiles/apiwrap.cpp:4601-4606 | a send clears the cloud draft and is counted, keeping the saver's invariant |
| DraftsApi.ApiWrap.SendAnswered | Telegram/SourceFiles/apiwrap.cpp:4631-4638 | its response takes it off the count, keeping the invariant |
| DraftsProtocol.CancelIsForever | Telegram/SourceFiles/history/history.cpp:466-469 | after one cancelled save the server's drafts of the slot are kept out for the rest of the run |
| DraftsProtocol.DelayedIsNoted | Telegram/SourceFiles/apiwrap.cpp:2167 | in every run a delayed save is noted, with the timer running, if and only if no save of the thread is awaited |
| DraftsProtocol.DelayedIsLost | Telegram/SourceFiles/apiwrap.cpp:2163-2171 | otherwise it is lost: the pending save's response clears the entry and nothing newer was sent |
| DraftsProtocol.RepeatDropsDelayed | Telegram/SourceFiles/apiwrap.cpp:2504-2597 | a state is reached in which a delayed save waits while an older save of the thread is repeated: the repeat takes over the entry, and its response clears it with nothing newer sent |
| DraftsProtocol.WhatDrops | Telegram/SourceFiles/apiwrap.cpp:2613-2652 | in every step of every run, a noted save stops waiting with nothing newer sent for it if and only if a pass skips or fails the thread or finds it destroyed, or an older save of the thread is repeated |
| DraftsProtocol.EmptiedByResponse | Telegram/SourceFiles/apiwrap.cpp:2663-2670 | a step that empties the map signals that quitting may go on, unless the step is a pass over the entries |
| DialogsApi.NextOffset | Telegram/SourceFiles/apiwrap.cpp:1044-1079 | the reverse scan: the date of the last dialog with a dated message, with peer and message of the last valid dialog |
| DialogsApi.ApiWrap.RequestMoreDialogs | Telegram/SourceFiles/apiwrap.cpp:938-1010 | which requests are sent and remembered; at most one list and one pinned request of a folder stay in flight, by the invariant |
| DialogsApi.ApiWrap.ListRequestDone | Telegram/SourceFiles/apiwrap.cpp:964-999 | the done handler for all three kinds of replies, keeping the invariant |
| DialogsApi.ApiWrap.ListRequestFailed | Telegram/SourceFiles/apiwrap.cpp:1000-1002 | the unguarded lookup finds the state |
| DialogsApi.ApiWrap.PinnedRequestAnswered | Telegram/SourceFiles/apiwrap.cpp:1126-1132 | the pinned half, on success and failure |
| DialogsApi.ApiWrap.SupportChatsTimeSliceChanged | Telegram/SourceFiles/apiwrap.cpp:295-302 | the boundary is set and refreshed; it is positive only while the slice is |
| DialogsApi.ApiWrap.RequestMoreBlockedByDateDialogs | Telegram/SourceFiles/apiwrap.cpp:1167-1177 | called at the boundary, it always sends the next request of the main list |
| DialogsProtocol.RunKeeps | Telegram/SourceFiles/apiwrap.cpp:931-1133 | the invariant of the loader holds in every run |
| DialogsProtocol.FailFindsItsState | Telegram/SourceFiles/apiwrap.cpp:1000-1002 | a list request in flight has a load state that remembers this very request |
| DialogsProtocol.OneRequestPerHalf | Telegram/SourceFiles/apiwrap.cpp:938-943 | at most one list and one pinned request of a folder are in flight |
| DialogsProtocol.FinishedWhenBothArrived | Telegram/SourceFiles/apiwrap.cpp:1101-1118 | `chatsListDone` was posted for a folder exactly min(lists completed, pinned halves received) times, also when it is loaded again; nothing of a finished folder is in flight |
| DialogsProtocol.BlockedIsIdle | Telegram/SourceFiles/apiwrap.cpp:1012-1022 | while the main list waits at the date boundary, no list request of it is in flight |
| DialogsProtocol.MoreIsRequested | Telegram/SourceFiles/apiwrap.cpp:1167-1177 | in every run the list waits at the boundary only while the slice is positive, so asking for more leaves the boundary and sends the next request |
| DialogsProtocol.NotModifiedSticks | Telegram/SourceFiles/apiwrap.cpp:967-970 | after a not-modified reply the list is incomplete, remembers an answered request, and cannot be requested again |
| DialogsProtocol.StuckExactly | Telegram/SourceFiles/apiwrap.cpp:938-970 | in every run the stuck lists are exactly those that got a not-modified reply, however long ago |
| DialogsProtocol.StuckForever | Telegram/SourceFiles/apiwrap.cpp:938-943 | a stuck list stays stuck, and its folder is never finished, for the rest of the run |
| DialogsSteps.MainPartExactly | Telegram/SourceFiles/apiwrap.cpp:964-1043 | a part of the main list sets the offset where it ends, and the next part is asked for at once unless filters load first or the part ends at or before the date boundary, where the list waits |
| DialogsSteps.FolderPartExactly | Telegram/SourceFiles/apiwrap.cpp:964-1043 | a part of another list sets its offset, and then the main list, or the archive once the main list is complete, goes on |
| DialogsSteps.LastPartExactly | Telegram/SourceFiles/apiwrap.cpp:964-1118 | the last part finishes the folder if its pinned chats are there, and waits for them otherwise |
| DialogsSteps.PinnedExactly | Telegram/SourceFiles/apiwrap.cpp:1101-1132 | and the pinned chats finish it if its list is there |
| DialogsSteps.DialogsExactly | Telegram/SourceFiles/apiwrap.cpp:931-1010 | which requests one call sends, what is remembered of them, and that nothing else changes |
| DialogsSteps.SliceExactly | Telegram/SourceFiles/apiwrap.cpp:295-302 | the list may wait while it is incomplete and the slice ends after time zero, and waits if it has come that far with nothing in flight |
| DialogsSteps.BlockedExactly | Telegram/SourceFiles/apiwrap.cpp:1167-1177 | asking for more moves the boundary one slice before the offset and sends one request |
| StickerSets.RemoveSets | Telegram/SourceFiles/apiwrap.cpp:1737-1818 | which sets survive the removals and how they change, what remains of the recent stickers, and the uninstall requests in order |
| StickerSets.UninstallCount | Telegram/SourceFiles/apiwrap.cpp:1772-1812 | a set that nothing else keeps is uninstalled once, one that is kept once for every mention, and an archived or unknown one never |
| StickerSets.InstallOrder | Telegram/SourceFiles/apiwrap.cpp:1833-1867 | the order is the requested one filtered to known sets; its sets are installed, and the archived ones not being removed are installed on the server, once each |
| StickerSets.EraseUnneeded | Telegram/SourceFiles/apiwrap.cpp:1869-1881 | exactly the sets that nothing keeps are erased |
| StickerSets.SaveSets | Telegram/SourceFiles/apiwrap.cpp:1737-1881 | the final sets, order, recent stickers and requests, in terms of the state before |
| StickerSets.SavedIsSound | Telegram/SourceFiles/apiwrap.cpp:1820-1881 | every id in the order exists and is installed, as often as in the local order; no other set with the flags of the kind is installed unless archived; every set has a reason to be kept |
| StickerSets.SavedExactly | Telegram/SourceFiles/apiwrap.cpp:1772-1867 | flag by flag: which sets are installed and archived afterwards, and since when |
| StickerSets.OtherKindsStay | Telegram/SourceFiles/apiwrap.cpp:1820-1881 | a set of another kind, neither in the order nor removed, is unchanged if anything keeps it, and erased otherwise |
| StickerSets.SurvivesExactly | Telegram/SourceFiles/apiwrap.cpp:1737-1818 | which sets the removals leave |
| StickerSets.WithoutCounts | Telegram/SourceFiles/apiwrap.cpp:1772-1784 | the recent stickers lose those of the removed sets, in every copy, and no others |
| StickerSave.ApiWrap.SaveStickerSets | Telegram/SourceFiles/apiwrap.cpp:1646-1920 | all loops and requests of one save |
| StickerSave.ApiWrap.StickerSetDisenabled | Telegram/SourceFiles/apiwrap.cpp:1705-1715 | the response of an install or uninstall request |
| StickerSave.RunKeeps | Telegram/SourceFiles/apiwrap.cpp:1646-1920 | the invariant of the saves holds in every run |
| StickerSave.ReorderIsAlone | Telegram/SourceFiles/apiwrap.cpp:1705-1715 | a reorder request is never outstanding together with any other request of its kind |
| StickerSave.OneReorderPerSave | Telegram/SourceFiles/apiwrap.cpp:1669-1704 | a save sends at most one reorder, with its own order; the save that was not superseded has sent it if and only if it has two ids and its last install or uninstall was answered |
| Forwarding.CollectForwardRanges | Telegram/SourceFiles/history/history_item_helpers.cpp:675-694 | the ranges are uniform and maximal, and concatenate to the sendable items sorted by position |
| Forwarding.SortSorts | Telegram/SourceFiles/history/history_item_helpers.cpp:677-678 | the sort is a sorted permutation |
| Forwarding.TakeSavedMusic | Telegram/SourceFiles/apiwrap.cpp:3886-3894 | the erase-while-iterating loop |
| Forwarding.Forward.SendAccumulated | Telegram/SourceFiles/apiwrap.cpp:3994-4095 | one batch: its ids, its peer, its flag, its stars, and one more request that the callback waits for |
| Forwarding.Forward.ForwardRanges | Telegram/SourceFiles/apiwrap.cpp:4099-4140 | the nested loops: batches concatenate to the ranges, each has one peer and one flag, and no two neighbours could be one |
| Forwarding.ForwardMessages | Telegram/SourceFiles/apiwrap.cpp:3886-4140 | the same from the chosen messages on; the callback runs at once if and only if nothing is sent, and otherwise once if all batches succeed, never if one fails |
| Forwarding.PaidIsMissing | Telegram/SourceFiles/apiwrap.cpp:4003-4015 | what the batches pay is what is missing from the approved stars |
| Forwarding.TotalIsExact | Telegram/SourceFiles/apiwrap.cpp:4003-4015 | the batches pay min(approved, price times count) in total if and only if that price fits an int, or the last batch's cost, wrapped or not, covers what the others left |
| Forwarding.OverflowPays | Telegram/SourceFiles/apiwrap.cpp:4003-4005 | a batch pays the right amount if and only if its cost fits an int or the wrapped cost covers what is left |
| Forwarding.BatchesPay | Telegram/SourceFiles/apiwrap.cpp:4003-4015 | every batch pays min(what is left, its cost) if and only if each cost fits an int or wraps to enough |
| Forwarding.OverflowMayRefund | Telegram/SourceFiles/apiwrap.cpp:4003-4005 | a price at which two messages pay minus two stars |
| Forwarding.CallbackRunsOnce | Telegram/SourceFiles/apiwrap.cpp:4061-4077 | in any order of the n responses the callback runs once, after the last, if all succeed, and never otherwise |
| ForwardingIds.ForwardedExactly | Telegram/SourceFiles/apiwrap.cpp:3886-4140 | the requests together send exactly the chosen messages that are neither saved music nor unnamed ephemeral ones, by position, an ephemeral one under the server's id and any other under its own |
| ForwardingIds.BatchIsUniform | Telegram/SourceFiles/apiwrap.cpp:4099-4140 | each request is for messages of the peer and the kind it names |
| AlbumsApi.CollectMedias | Telegram/SourceFiles/apiwrap.cpp:5585-5595 | the loop of `sendAlbumIfReady` |
| AlbumsApi.ApiWrap.SendAlbumIfReady | Telegram/SourceFiles/apiwrap.cpp:5576-5692 | when an album is sent, how, with which items, and when it leaves |
| AlbumsApi.ApiWrap.UploadDone | Telegram/SourceFiles/apiwrap.cpp:5228-5320 | an upload's response: all Asserts on its way hold, and the invariant is kept |
| AlbumsApi.ApiWrap.DestroyMessage | Telegram/SourceFiles/history/history.cpp:685-711 | a destroyed message is cancelled in its album first |
| AlbumsApi.ApiWrap.MultiMediaFail | Telegram/SourceFiles/apiwrap.cpp:5683-5691 | the album is always found, and its messages are marked |
| AlbumsApi.ApiWrap.PaidMediaDone | Telegram/SourceFiles/apiwrap.cpp:5524-5536 | the remaining messages are destroyed |
| AlbumsApi.ApiWrap.PaidMediaFail | Telegram/SourceFiles/apiwrap.cpp:5537-5540 | only one message is marked; the album stays in the map |
| AlbumsProtocol.SendIfReadyKeeps | Telegram/SourceFiles/apiwrap.cpp:5576-5692 | sending, or dropping an album, keeps the invariant |
| AlbumsProtocol.UnregisterFirst | Telegram/SourceFiles/apiwrap.cpp:5558-5574 | the message being destroyed plays no part in whether its album is sent |
| AlbumsProtocol.RunKeeps | Telegram/SourceFiles/apiwrap.cpp:4394-4400 | the invariant of the albums holds in every run |
| AlbumsProtocol.SentAtMostOnce | Telegram/SourceFiles/apiwrap.cpp:5576-5579 | in every run an album is sent at most once |
| AlbumsProtocol.SentIsComplete | Telegram/SourceFiles/apiwrap.cpp:5576-5692 | in every run, a step that sends something sends every item that the album then holds, each with media; nothing of the album is being prepared or uploaded, and it was not sent before |
| AlbumsProtocol.UploadAssertsHold | Telegram/SourceFiles/apiwrap.cpp:5543-5556 | the Assert in `sendAlbumWithUploaded` and the two in `fillMedia` hold in every run |
| AlbumsProtocol.CancelAssertHolds | Telegram/SourceFiles/storage/localimageloader.cpp:433-438 | so does the one in `removeItem` |
| AlbumsProtocol.TaskAssertsHold | Telegram/SourceFiles/api/api_sending.cpp:1184-1192 | and those for a prepared or failed file |
| AlbumsProtocol.ReadyButUnsent | Telegram/SourceFiles/storage/localimageloader.cpp:454-458 | an unsent album with all media is left only after the preparation of one of its files failed |
| AlbumsProtocol.FailureMayStrand | Telegram/SourceFiles/storage/localimageloader.cpp:1292-1303 | a failed preparation leaves a non-empty album ready and unsent if and only if the failed file was the only one without media, and not the only one |
| AlbumsProtocol.StrandedIsReached | Telegram/SourceFiles/storage/localimageloader.cpp:1292-1303 | it happens: of two files one is uploaded, then the other fails to be prepared, and nothing is at work any more |
| AlbumsProtocol.StrandedUntilDestroyed | Telegram/SourceFiles/apiwrap.cpp:5558-5579 | in every run such an album stays as it is, and unsent, for as long as none of its messages is destroyed |
| AlbumsProtocol.TouchReleases | Telegram/SourceFiles/apiwrap.cpp:5558-5692 | destroying one of several of its messages sends the rest; destroying the last one drops the album |
| AlbumsSteps.SendExactly | Telegram/SourceFiles/apiwrap.cpp:5576-5692 | when an album is dropped, sent or left alone; one message goes by itself, more go together, a paid album as one and an ephemeral one by its remaining messages; it is kept exactly for a response that needs it |
| AlbumsSteps.ResponseExactly | Telegram/SourceFiles/apiwrap.cpp:5524-5691 | which messages a response destroys or marks, and whether the album is forgotten |
| FrameQueue.Shell.PostToFrame | Telegram/Resources/bot_webview_shell_html/page.js:152-166 | an event is queued, with the oldest dropped beyond 64, or sent; it is lost exactly in the named cases |
| FrameQueue.Shell.FlushPendingEvents | Telegram/Resources/bot_webview_shell_html/page.js:214-221 | the queue is sent in order |
| FrameQueue.Shell.OnMessage | Telegram/Resources/bot_webview_shell_html/page.js:858-883 | messages of the current frame with the right origin only; none of them loses an event, and the queue's invariant is kept |
| FrameQueue.Shell.ReloadFrame | Telegram/Resources/bot_webview_shell_html/page.js:978-995 | the frame is asked to reload, or replaced; events are lost exactly when the frame has no origin, or when some wait for the replaced frame |
| FrameQueue.StepGoes | Telegram/Resources/bot_webview_shell_html/page.js:152-166 | one input keeps the invariant, and loses an event if and only if it is one of four named cases |
| FrameQueue.QueueKeeps | Telegram/Resources/bot_webview_shell_html/page.js:944-972 | after any inputs at most 64 events wait, all for the current frame and only while it is not loaded, and sent plus waiting events are in the order of posting |
| FrameQueue.NothingIsLost | Telegram/Resources/bot_webview_shell_html/page.js:152-166 | everything posted was sent or waits if and only if no input lost an event |
| FrameQueue.FrameGetsItsOwn | Telegram/Resources/bot_webview_shell_html/page.js:136-150 | the frame of each generation gets a subsequence of what was posted during that generation |
| FrameSteps.FlagsExactly | Telegram/Resources/bot_webview_shell_html/page.js:858-995 | field by field: what makes a frame, loads it, starts and stops the reload timer, and sets the origin |
| FrameSteps.EventsExactly | Telegram/Resources/bot_webview_shell_html/page.js:136-221 | what one input posts, hands to the frame and keeps waiting, event by event |
| FrameSteps.LoadedMeans | Telegram/Resources/bot_webview_shell_html/page.js:867-995 | after any inputs the frame counts as loaded, or the timer runs, if and only if the frame was loaded, or asked to reload, since it was made and since it last said that it reloads |
| BlockedPeers.Blocker.BlockAlreadySent | Telegram/SourceFiles/api/api_blocked_peers.cpp:168-187 | joining or replacing a pending entry |
| BlockedPeers.Blocker.Block | Telegram/SourceFiles/api/api_blocked_peers.cpp:75-114 | the block call: a pending unblock is replaced and its callbacks are told false, keeping the invariant of requests and callbacks |
| BlockedPeers.Blocker.Unblock | Telegram/SourceFiles/api/api_blocked_peers.cpp:116-166 | the unblock call: its callback waits for the pending request that it joins, or for the one it sends, keeping the invariant |
| BlockedPeers.Blocker.UnblockDone | Telegram/SourceFiles/api/api_blocked_peers.cpp:127-149 | the entry of the peer is taken, the list and the total shrink, the callbacks are told |
| BlockedPeers.RunKeeps | Telegram/SourceFiles/api/api_blocked_peers.cpp:75-187 | the invariant of the requests holds in every run |
| BlockedPeers.TotalCoversList | Telegram/SourceFiles/api/api_blocked_peers.cpp:24-50 | the total is at least the length of the list |
| BlockedPeers.EntryIsPending | Telegram/SourceFiles/api/api_blocked_peers.cpp:168-187 | an entry's own request is still in flight, and is the one that every callback in the entry was put there for |
| BlockedPeers.EveryCallbackOnce | Telegram/SourceFiles/api/api_blocked_peers.cpp:116-187 | a stored callback is called at most once, and exactly once when no change request is in flight |
| BlockedPeers.WhoTells | Telegram/SourceFiles/api/api_blocked_peers.cpp:75-187 | in every step of every run, a waiting callback is told while its own request is still in flight if and only if its peer is to be blocked, or another request of its peer is answered |
| BlockedPeers.ToldTrue | Telegram/SourceFiles/api/api_blocked_peers.cpp:127-157 | it is told true if and only if the step is the answer that unblocks its peer |
| BlockedPeers.FalseAlarm | Telegram/SourceFiles/api/api_blocked_peers.cpp:87-187 | both happen: the callback is told false by a block call, or by the answer to an older block request, and then its own request succeeds |
| BlockedPeers.StaysListed | Telegram/SourceFiles/api/api_blocked_peers.cpp:131-149 | a peer is still listed after its own unblock request succeeded if and only if it was listed twice or more |
| BlockedPeers.ListedAgain | Telegram/SourceFiles/api/api_blocked_peers.cpp:87-96 | between two loads of the list, a second copy of a peer comes if and only if a block request of it succeeds while it is listed |
| BlockedPeers.ListMayRepeat | Telegram/SourceFiles/api/api_blocked_peers.cpp:75-149 | two block calls around an unblock call, answered before it: the peer is listed twice, and is still listed, not blocked and with nothing in flight, after its unblock request succeeded |
| BlockedSteps.AnswerExactly | Telegram/SourceFiles/api/api_blocked_peers.cpp:85-157 | an answer changes the peers, the list and the total only if it is a success; what is counted beyond the list stays, unless an unblocked peer was not in the list |
| BlockedSteps.BlockExactly | Telegram/SourceFiles/api/api_blocked_peers.cpp:75-114 | when a block call asks the server, and whom it tells |
| BlockedSteps.UnblockExactly | Telegram/SourceFiles/api/api_blocked_peers.cpp:116-166 | when an unblock call does nothing, joins the waiting request or sends one |

## Left out

- Signing, SHA-256, LZMA and the verification of the written package: signatures, hashes and the payload are opaque bytes, and signing is a parameter for which empty means failure.
- Files, key loading and command lines of the packer.
- PackerSha1.HashSha1: does not cover messages of 2^32 - 64 bytes and more, where the 32-bit cursor wraps in the block loop.
- TraceReader.Reader.Run: the counters are unbounded here and 32 or 64 bits wide in the program; the printed numbers are output lines of a datatype, without formatting and local time.
- MeshObj.ByteIdentical: printing and parsing one 32-bit float is a parameter, with the premise that the printed form of each float in the file is one word that parses back.
- MeshTools.ConvertToBin: only ASCII digits and white space are read; every failure is one error value; the partial file that is left when packing fails is not modelled.
- ListHash.HashUpdate: the overloads for narrower and signed integers, which only widen their argument, are not modelled.
- Timers of the web page lookups, except for the time until the next page is due; `WebPageData::ApplyChanges` is a parameter.
- MessageDataApi.ApiWrap.ResolveMessageDatas: one queued call; coalescing of several queued calls is the `queued` flag.
- DraftsApi.ApiWrap.SavePreparedDraftToCloud: flags, texts and entities of a draft are not modelled; whether it serializes, is rich or is skipped are parameters, and so is whether a new cloud draft replaces the old one; its done and fail callbacks are not modelled.
- DraftsProtocol.EntriesAreAwaited: for live threads only, because it is false for destroyed ones; `DanglesSince` says exactly when.
- DraftsProtocol.CounterReturnsToZero: the time until which the server's drafts stay refused after a save, and the open compose box, which refuses them too, are not modelled.
- DialogsApi.ApiWrap.ListRequestDone: what the loaded chats do, such as asking for a folder's list, is a later step; `reloadPinnedDialogs`, which changes no load state, is not modelled.
- DialogsApi.ApiWrap.SupportChatsTimeSliceChanged: a negative slice in the stored settings is not modelled.
- DialogsApi.ApiWrap.RequestMoreBlockedByDateDialogs: called at the boundary only, where alone the "Load more" button is enabled (`dialogs/dialogs_widget.cpp:3085-3091`).
- StickerSets.RemoveSets: the recent pack is a list of documents without ratings; writing the local storage and the requests that clear the cloud recent stickers are not modelled.
- StickerSave.ApiWrap.SaveStickerSets: one kind of sets; the three kinds use separate requests.
- Forwarding.ForwardMessages: message flags, random ids and the local copy of a single forwarded message are not modelled, nor the fork's own forwarding; positions of different messages differ.
- Forwarding.TotalIsExact: the remaining stars are unbounded integers, although a wrapped, negative payment may raise them beyond an int.
- AlbumsProtocol.RunKeeps: an item is being sent until its album was sent, and is uploaded once; captions, music that is batched while it is prepared, and early returns of `destroyMessage` are not modelled.
- FrameQueue.Shell.PostToFrame: an attached frame always has a window; what the browser does with a message for another origin is not modelled.
- BlockedPeers.Blocker.Unblock: an unforced call for a peer that is not blocked forgets its callback; only stored callbacks are promised a call.
- Widgets, menus, boxes, settings, translations and thin request wrappers: not modelled.
- Colour arithmetic of the shell page: floating point.
