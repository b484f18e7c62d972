# A model of Libranet's bundles, peers and storage

Libranet nodes keep content by the hash of its bytes, describe files and directories in
JSON bundles, and fetch what they lack from peers. This project models the parts of it
whose behaviour is decided across several functions, loops or threads, and proves what
they promise. One module models one component, and its file is named after it.

**Directory bundles.** `Shapes` has the entries a directory holds, `None` being a
tombstone. `Overlay` has the reader's loop over a stack of iterators, and `Reach` and
`Meaning` prove that it answers what the recursive definition does. `Splitting`, `Vaults`
and `Storing` store a directory in chunks, in a vault of content-addressed objects.
`Layerings` stores a new version as a layer over the last, or whole; `Histories` runs any
number of versions over one another, however each was come by, and `Backups` looks at a
directory again and again, crashing between its two saves where it may. `Outlines` says
what a change to content is. `Storable`, `Layered` and `Looks` say exactly when a directory
is stored whole or split, a version as a layer or whole, and a bundle kept or published.
`Spellings` and `LargeBundles` have bundles that are stored or read, and then refused.
`SomeVaults` gives a vault that keeps every law asked of one, by the texts `Encodings`
spells values as. `Bundles` reads and writes the JSON of a bundle, and `Grammar` says
exactly which values are bundles.

**Responses and connections.** `Responses` states what a response is at the front of some
bytes (sections 6.3 and 7.1 of RFC 9112), and `ResponseParsers` has the parser that cuts
responses off its buffer. `Cutting` proves that the cuts between pieces do not matter,
`Wires` and `Heads` that what a peer writes is what is read, `LongNumbers` when a length is
too long to read, `Syntax` exactly which lines are read and `Framings` where a body ends.
`Connections` has the pipelining connection, both as the class whose methods change it and
as the steps its threads take (section 9.3.2 of RFC 9112); `Pipelining` and `Pairings`
prove what every interleaving keeps, and `Transports` what each thing that befalls a
connection comes to.

**Searches, pushes and the peers dialed.** `Searches` has a search and the searches kept,
`Searching` the steps of its workers and of the module's thread, and `Seeking`, `Pacing`,
`Holding` and `Passing` what every run of them keeps and does. `Pushes` sends a batch of
new content, and `PeerMixes` chooses whom to dial, by the `Buckets` that the first bits of
an identifier name.

**Eviction.** `Pressure` counts bytes, `Evictions` has the module and its messages, and
`Letting` proves what any order of messages keeps, `Attending` what each is answered with.

**Paths, nonces and files.** `Symlinks` follows a path, and proves it a recursive walk.
`Nonces` and `Drops` share a search among processes, over the numbers in `Bits`. `Parts`
cuts a file up and stores it; `Reassembly` writes it back; `Files` proves that this gives
the file again, and `Checked` exactly what is stored and what may be read.

What the source changes step by step is a method or a class here, proved to do what a
function says; what it promises is proved of that function, or of every run of those
steps. `Wrappers`, `Text`, `Hex`, `Octets`, `Ordering`, `TimeLists`, `Counting` and
`PartPaths` hold what the others share.

Hashes, compression, ciphers, clocks, free space and the network are parameters. A hash
and the clock are any that keep the laws stated; the network is any outcome at each step.

Where the code and what is written about it part, the model follows the code:

- A bundle larger than a reader decompresses is stored all the same, as the writer limits
  only what is stored. `Histories.NewestReadsBack` gives the exact condition, and
  `LargeBundles.SomeVersionIsRefused` such a version, however much is decompressed.
- `Superseded.expand` raises a `ValueError`, which its documentation does not name, where a
  bundle lists more layers beneath it than it reaches extensions: `Expand` gives
  `Contradictory` then. `Histories.ContradictoryExactly` says when; only naming one extension
  in two spellings makes it so, and not where enough others are reached.
  `Spellings.NamedTwiceContradicts` is such a bundle, and it is read as well-formed.
- A Content-Length of more digits than `int()` takes raises an error in the parser that the
  receive loop does not catch. It is `NumberTooLong` here, and the loop's `finally` runs all
  the same. `LongNumbers.NextTooLongExactly` says when, and
  `LongNumbers.LongLengthIsUncaught` is a response that does it.
- Shunning content that is no key needed forgets when it was stored, so that an
  acknowledgement may delete it within its grace: `Letting.ShunningForgetsGrace` is such a
  run, and `Letting.AcknowledgedExactly` shows that this is the only way.
- The places counted as covered can be one more than the peers covering them, this node's
  own bucket being counted for a neighbor that covers its neighborhood bucket as well:
  `PeerMixes.TwoCoverThree` is such a case, and `PeerMixes.CoveredIsNoMore` says exactly when.

## Model

| member | source | states |
|---|---|---|
| Overlay.ResolveDirectory | src/libranet/bundle/extensions.py:53-96 | The loop over a stack of open iterators ends for any load function, and answers, and loads, what the walk over names still to do does. |
| Reach.ResolvedAnswers | src/libranet/bundle/extensions.py:53-96 | Every path is loaded once. An overlay was made of everything reachable, within the limit. Missing ids are exactly those lacking among what is reachable through held bundles, each once. A refusal or an error has its cause there. |
| Reach.OverlaysWhatItCan | src/libranet/bundle/extensions.py:67-96 | If all that is reachable is held, well named and within the limit, the answer is an overlay. |
| Meaning.ResolvedMeans | src/libranet/bundle/extensions.py:53-96 | Over any acyclic store the first-found-wins walk gives what the recursive definition does: the last extension laid first, each before it replacing whole entries, and tombstones dropped only at the end. |
| Splitting.SplitEntries | src/libranet/bundle/splitting.py:36-66 | The loop gives the entries of the paths each chunk is specified to hold. |
| Splitting.ChunksHold | src/libranet/bundle/splitting.py:43-66 | Chunks hold every path once, in order; each holds something, and only one of a single entry exceeds the limit. |
| Splitting.LargeEntryEnds | src/libranet/bundle/splitting.py:69-79 | An entry as large as the size chunks are meant to be ends its chunk whatever its path hashes to. |
| Splitting.EntryEndsExactly | src/libranet/bundle/splitting.py:75-79 | An entry ends its chunk if and only if what its path hashes to, times the target, is below its bytes times all there are. |
| Splitting.ChunksAreTheSplit | src/libranet/bundle/splitting.py:43-79 | The chunks are the one way to split the paths in order so that each goes on as long as it may: nothing but its last entry ends it, and it ends before another for that or for want of room. |
| Splitting.SplitComposes | src/libranet/bundle/splitting.py:43-66 | Splitting A followed by B is splitting A and then B, where A's last entry ends its chunk. |
| Splitting.ChunkingIsLocal | src/libranet/bundle/splitting.py:43-66 | Two directories that differ only between two entries ending chunks share every chunk up to the first and every one after the second, path for path and entry for entry. |
| Splitting.ChunksBeforeAreShared | src/libranet/bundle/splitting.py:43-66 | Two directories the same up to an entry that ends a chunk share every chunk up to it, whatever follows. |
| Splitting.ChunksAfterAreShared | src/libranet/bundle/splitting.py:43-66 | Two directories the same from an entry that ends a chunk on share every chunk after it, whatever comes before. |
| Storing.ContentSink.Write | src/libranet/bundle/storing.py:209-234 | One bundle is written unless it is held, or refused where it is too large once encoded. |
| Storing.ContentSink.WriteDirectory | src/libranet/bundle/storing.py:148-198 | A directory is written whole, or where it is too large, in chunks with the margin for each left, until one is refused. |
| Storing.StoreDirectoryStores | src/libranet/bundle/storing.py:148-198 | However it is split, what is stored holds its entries over its extensions'; nothing held is lost, and chunks keep within the limit on extensions. |
| Storable.OneExactly | src/libranet/bundle/storing.py:85-106 | A bundle is stored if and only if it can be protected and is held already or no larger than allowed; it is then held under its name, and nothing else changes. |
| Storable.StoredExactly | src/libranet/bundle/storing.py:171-198 | A directory is stored if and only if it fits whole, or its chunks and extensions are few enough and each chunk fits and so does what names them; it is then that, in as many chunks as the split gives, with its own metadata and versions. |
| Reading.ReadsBack | src/libranet/bundle/loading.py:31-80 | A reader with everything reachable at hand, none of it too large, overlays exactly what the bundle holds. |
| Reading.OverlaidIsContents | src/libranet/bundle/loading.py:31-80 | A reader that overlays a directory at all gets what it holds, and read all that it leads to. |
| Layerings.PresentOfChanges | src/libranet/bundle/layering.py:354-363 | What changed, laid over what a bundle holds, leaves exactly the new entries, deletions included. |
| Layerings.LayerStacks | src/libranet/bundle/layering.py:365-428 | Listing every extension beneath a bundle after the bundle adds nothing to what the bundle alone holds. |
| Layerings.LayerIsVersion | src/libranet/bundle/layering.py:385-428 | A layer over a bundle holds the new version exactly, lists exactly as many beneath as its layers, and keeps within both limits. |
| Layerings.StoreVersionStores | src/libranet/bundle/layering.py:461-509 | Layered or whole, split or not, a stored version holds exactly its entries, keeps within the limits, and is kept wherever all it grew from is. |
| Layered.ChangesAreTheDiff | src/libranet/bundle/layering.py:354-363 | What is stored as changed has an entry exactly where the version is not as before, and what it is there. |
| Layered.VersionExactly | src/libranet/bundle/layering.py:385-428 | A version is stored as a layer if and only if where the last one sits is known, both limits and its key allow it, and the layer can be stored: one layer more, over that bundle and all beneath it. Otherwise it is stored whole, if and only if it can be. |
| Layered.LayerHolds | src/libranet/bundle/layering.py:402-428 | A layer that fits in one object holds an entry at a path if and only if the version differs from the last one there. |
| Layered.NextIsStoredAsItMay | src/libranet/bundle/layering.py:487-518 | So it is in every history, over what is known of the newest; and what is then known is where it was stored and all it holds. |
| Layerings.WriteVersion | src/libranet/bundle/layering.py:461-509 | Storing in place gives what is specified: a layer where the limits allow it and it fits, or the whole version. |
| Histories.ExpandBundle | src/libranet/bundle/layering.py:227-271 | Counting each path as it is loaded gives where the bundle sits as specified: what is reached, and which of its extensions are layers. |
| Histories.ContradictoryNamesTwice | src/libranet/bundle/layering.py:79-104 | Where a bundle is refused for listing more layers than it reads, it names one extension in two spellings. |
| Histories.ContradictoryExactly | src/libranet/bundle/layering.py:249-271 | A bundle is refused so if and only if everything reachable is overlaid, no layer is listed twice as spelled, and fewer paths are reachable than layers are listed. |
| Layered.ExpandExactly | src/libranet/bundle/layering.py:227-271 | Expanded, a bundle sits on as many layers as it lists from the first version it supersedes on, reaches what is reachable, and holds what it means; not known where one is listed twice; unreadable exactly where not all can be overlaid. |
| Layered.ReadExactly | src/libranet/bundle/layering.py:172-223 | Read with a record, it sits as recorded, unless it lists fewer extensions than layers recorded; it is read exactly where all can be overlaid. |
| Layered.RecordRecovers | src/libranet/bundle/layering.py:172-223 | In every history, read back from its record the newest version is known as when it was stored. |
| Layered.ExpandingKnows | src/libranet/bundle/layering.py:227-271 | In every history, expanded again it is known if and only if it is read and expanding says where it sits. |
| Spellings.TwoTextsOfOne | src/libranet/bundle/parts.py:123-167 | Every path with a key and the default IV has a second text, saying that IV, and both are read as that path. |
| Spellings.NamedTwiceContradicts | src/libranet/bundle/layering.py:249-271 | A bundle listing one such extension by both texts is refused when it is expanded. |
| Spellings.NamedTwiceIsRead | src/libranet/bundle/content.py:57-66 | That bundle is read from its JSON as it is, both spellings kept. |
| Histories.EveryHistoryKeeps | src/libranet/bundle/layering.py:461-518 | Every history of versions, each over what the store before it returned, or what expanding, resolving or reading a record gave, keeps what is known of each true. |
| Histories.NewestReadsBack | src/libranet/bundle/layering.py:172-271 | After every history the newest bundle holds exactly the newest version's entries; a reader gets them if and only if no bundle read is larger than it decompresses. |
| LargeBundles.LargeIsRefused | src/libranet/bundle/loading.py:59-70 | A first version that fits in one object, but not in what a reader decompresses, is stored and then refused. |
| LargeBundles.SomeVersionIsRefused | src/libranet/bundle/loading.py:59-70 | However much a reader decompresses, there is a vault and a version, stored within one byte, that it refuses. |
| Histories.NewestKeepsWithinLimits | src/libranet/bundle/layering.py:385-428 | In every history a version has at most the writer's layers and lists exactly that many; distinct extensions visited are at most its recorded count, which is at most the limit; the reader never refuses it for too many. |
| Outlines.OutlinesTell | src/libranet/bundle/layering.py:550-575 | Two outlines are equal if and only if the entries make the same paths, kinds, bytes and targets, implied directories included. |
| Outlines.AncestorsAreAbove | src/libranet/bundle/shapes.py:85-98 | A directory is an ancestor if and only if some path lies beneath it. |
| Backups.JobFiles.LookAt | src/libranet/backup/module.py:1006-1036 | A look saves the expanded bundle first and the job after, or less where it crashes; both files and the store are then as specified. |
| Backups.Make | src/libranet/backup/runs.py:200-278 | A backup kept or stored, its record, and what is to be kept expanded are as specified. |
| Backups.KeptIsKept | src/libranet/backup/runs.py:281-314 | A bundle kept with changes held back is still named, held and seen truly, and differs from what was found in metadata alone. |
| Backups.EveryRunKeeps | src/libranet/backup/module.py:1006-1036 | After every run of looks, crashes, evictions, fetches and other writes, what is on disk is true of the latest bundle. |
| Backups.UsedIsLatest | src/libranet/backup/jobs.py:232-274 | An expanded bundle that is used names the job's latest bundle and agrees with resolving it. |
| Backups.LookSettles | src/libranet/backup/runs.py:200-314 | After each completed look what is seen equals the directory walked, and the published bundle differs from it in metadata only. |
| Backups.PublishingHoldsNothingBack | src/libranet/backup/runs.py:281-314 | After a look asked to publish, the bundle holds exactly the directory walked. |
| Looks.KeptExactly | src/libranet/backup/runs.py:281-314 | The latest bundle is kept if and only if what is found is what it holds, or it is at hand, only metadata differs and none is to be published. |
| Looks.LookExactly | src/libranet/backup/runs.py:255-314 | After every run, a completed look leaves the bundle, when it was made, its digest, where it sits and all that is held unchanged if and only if that is so; otherwise another bundle is published. |
| Looks.PublishedAsItMay | src/libranet/backup/runs.py:265-278 | What is published is stored over what is known of the latest bundle, as a layer or whole, with its record and it expanded; and the look completes if and only if it can be stored. |
| Looks.RecordNeverRunsAhead | src/libranet/backup/module.py:1028-1034 | Wherever a look stops, the record changes only to name a bundle that is kept expanded already. |
| SomeVaults.SomeVaultIs | src/libranet/bundle/storing.py:85-106 | Injective addresses, ranks by which no bundle leads back to itself, and names that read back can all be had together: there is such a vault. |
| SomeVaults.SomeNodeIs | src/libranet/backup/runs.py:317-319 | And a node whose digests tell entries apart. |
| PartPaths.ParseOfText | src/libranet/bundle/parts.py:123-167 | A path printed reads back as it was; only a path with no key loses its IV. |
| PartPaths.PathExactly | src/libranet/bundle/parts.py:131-167 | A path is read if and only if it is two segments that name content, or four that name its cipher, with or without an IV, and a key too. |
| ResponseParsers.ResponseParser.Feed | src/libranet/connections/response_parser.py:119-121 | Bytes go to the end of the buffer. |
| ResponseParsers.ResponseParser.FinalHead | src/libranet/connections/response_parser.py:180-233 | Interim heads are cut off the buffer until one is final, not yet whole, or in error. |
| ResponseParsers.ResponseParser.ChunkedBody | src/libranet/connections/response_parser.py:275-346 | The loop over chunks and trailers reads the body specified, or waits, or fails, within the same limits. |
| ResponseParsers.ResponseParser.NextResponse | src/libranet/connections/response_parser.py:123-150 | The response, the wait or the error, and the buffer left, are those specified. |
| ResponseParsers.ResponseParser.Finish | src/libranet/connections/response_parser.py:152-171 | So are they once the peer has closed the connection. |
| Framings.LengthIsTaken | src/libranet/connections/response_parser.py:235-273 | From the bytes sent: to any method but HEAD, with any status from 200 but 204 and 304, a body as long as its Content-Length says is taken whole, and what follows is left. |
| Framings.ChunksAreTaken | src/libranet/connections/response_parser.py:241-328 | With Transfer-Encoding chunked alone, the chunks' data is taken, and what follows is left. |
| Framings.NoneIsTaken | src/libranet/connections/response_parser.py:238-240 | To HEAD, or with 204 or 304, there is no body whatever the fields say. |
| Framings.InterimIsDropped | src/libranet/connections/response_parser.py:180-191 | A status below 200 is dropped, head and all, but for 101, which fails. |
| Framings.RestIsTaken | src/libranet/connections/response_parser.py:152-171 | With neither field it waits, and all the bytes after the head are given once the peer closes; too many fail. |
| Framings.TwoFramingsFail | src/libranet/connections/response_parser.py:241-250 | Both fields together fail. |
| Framings.OtherCodingsFail | src/libranet/connections/response_parser.py:246-250 | A coding other than chunked fails. |
| Framings.LongBodiesFail | src/libranet/connections/response_parser.py:258-273 | A length over the limit fails. |
| Framings.OtherLengthsFail | src/libranet/connections/response_parser.py:258-273 | A Content-Length that is no number fails, and so do two that differ. |
| Framings.HeadsEndOrFail | src/libranet/connections/response_parser.py:193-202 | A head not ended within 65536 bytes fails; one that may yet end is waited for. |
| Framings.HelloIsTaken | src/libranet/connections/response_parser.py:123-150 | A GET answered with a Content-Length of 5 takes "hello" and leaves the rest. |
| Syntax.StatusLineExactly | src/libranet/connections/response_parser.py:204-211 | A status line is read if and only if it is one, with or without a reason, and as what it gives. |
| Syntax.FieldLineIsRead | src/libranet/connections/response_parser.py:213-220 | A field's line adds its value, without the blanks about it, under its name. |
| Syntax.OtherLinesFail | src/libranet/connections/response_parser.py:213-220 | Fields are refused at the first line that is none. |
| Syntax.ChunkSizeExactly | src/libranet/connections/response_parser.py:275-300 | A chunk's size is read if and only if its line gives up to sixteen hexadecimal digits, blanks and extensions aside, and as that number. |
| Syntax.ChunkExactly | src/libranet/connections/response_parser.py:275-346 | A chunk is its line, its data and a line break, each within its limit; each yet to come is waited for, and each fails in its own way. |
| Syntax.ClosesExactly | src/libranet/connections/response_parser.py:222-223 | A response closes the connection if and only if its Connection field lists "close", or it is of HTTP/1.0 and that does not list "keep-alive". |
| Cutting.NextMore | src/libranet/connections/response_parser.py:123-233 | A response or an error, once there, is there however much follows; while it waits, what was dropped does not matter. |
| Cutting.CutsDoNotMatter | src/libranet/connections/response_parser.py:119-346 | For any stream, requests and segmentation, taking responses piece by piece gives the same responses, leftover and first error as feeding all at once. |
| Cutting.HeldIsBounded | src/libranet/connections/response_parser.py:283-346 | While the next response is not there yet, fewer than twice the head limit, the body limit and two more bytes are buffered. |
| Cutting.TakenIsBounded | src/libranet/connections/response_parser.py:195-346 | A response taken has a body within the limit, and a head limit of framing at most beyond its head and data. |
| Cutting.FinishedIsBounded | src/libranet/connections/response_parser.py:152-171 | One that the closing ended has a body within the limit, once no other was left to take. |
| Responses.HttpIsLimited | src/libranet/connections/response_parser.py:235-273 | The rules of HTTP refuse a body longer than the limit by its head, as those bounds ask. |
| Wires.ChunksRead | src/libranet/connections/response_parser.py:275-328 | Every chunked body as sent, extensions and trailers included, is read as its data to its last byte. |
| Wires.ChunksWritten | src/libranet/connections/response_parser.py:275-328 | Every chunked body read is the data of a chunked body sent, to its last byte. |
| Wires.LengthResponseReads | src/libranet/connections/response_parser.py:123-150 | A response as long as its head says is taken whole, and nothing after it. |
| Wires.ChunkedResponseReads | src/libranet/connections/response_parser.py:123-150 | A chunked response is taken as its data, and nothing after it. |
| Wires.PipelinedAnswersRead | src/libranet/connections/response_parser.py:123-150 | Pipelined answers are each given to the request they answer, in order, whatever follows. |
| Heads.SentFieldsAreHeld | src/libranet/connections/response_parser.py:193-233 | Header fields as sent are held under their names lower-cased, in order, those sent twice joined. |
| Heads.SentHeadReads | src/libranet/connections/response_parser.py:193-256 | A head as sent is read as its status, its reason and its fields, framed and closing as those say. |
| Heads.UnsaidConnectionCloses | src/libranet/connections/response_parser.py:193-233 | Without a Connection field, only HTTP/1.0 closes the connection. |
| LongNumbers.TooLongExactly | src/libranet/connections/response_parser.py:235-273 | A head fails as having too long a number if and only if its lines are read, its method and status allow a body, and its Content-Length, without Transfer-Encoding, says one number of more than 4300 digits. |
| LongNumbers.NextTooLongExactly | src/libranet/connections/response_parser.py:123-150 | Taking a response fails so if and only if a head that is not interim has arrived whole and says so. |
| LongNumbers.LengthSentExactly | src/libranet/connections/response_parser.py:258-273 | A response sent with a Content-Length of decimal digits alone fails so if and only if there are more than 4300. |
| LongNumbers.LongLengthIsUncaught | src/libranet/connections/peer_connection.py:278-348 | With one digit more it fails so where it is delivered, with an error that is none of those caught, and completes nothing. |
| Connections.PeerConnection.Request | src/libranet/connections/peer_connection.py:195-211 | A request is accepted, waiting and queued last, if and only if the connection is open. |
| Connections.PeerConnection.Fail | src/libranet/connections/peer_connection.py:241-260 | The first failure closes the connection and is kept; a later one changes nothing. |
| Connections.PeerConnection.Complete | src/libranet/connections/peer_connection.py:366-386 | The oldest request is completed with the response, and the connection closes if that says so. |
| Connections.PeerConnection.Deliver | src/libranet/connections/peer_connection.py:332-348 | Every response that has arrived is delivered, and the error raised, if any, is the one specified. |
| Connections.PeerConnection.FailWaiting | src/libranet/connections/peer_connection.py:388-401 | Every request left fails once, the first with the failure itself and the rest as following it. |
| Pipelining.EveryRunPipelines | src/libranet/connections/peer_connection.py:195-401 | In every interleaving the k-th future completed is the k-th request accepted, with the k-th response, to that request; the k-th sent is the k-th accepted; when the receive thread is done each has completed exactly once. |
| Transports.EveryRunHears | src/libranet/connections/peer_connection.py:195-211 | In every run the requests accepted are those made while it was open, and the bytes received those the socket gave. |
| Transports.RequestIsAccepted | src/libranet/connections/peer_connection.py:195-211 | While it is open a request waits last and is queued last; later it is refused. |
| Transports.ErrorsClose | src/libranet/connections/peer_connection.py:278-318 | An error in receiving, or no progress, closes it for that, if it was open. |
| Transports.MalformedCloses | src/libranet/connections/peer_connection.py:332-348 | A response that cannot be read closes it as malformed, or for the error nothing catches, as closed by the peer. |
| Transports.UnaskedCloses | src/libranet/connections/peer_connection.py:332-348 | Bytes nobody asked for close it. |
| Transports.EofEnds | src/libranet/connections/peer_connection.py:350-364 | The peer's closing leaves what remains to the oldest request, if one waits. |
| Transports.ResponseIsTheOldests | src/libranet/connections/peer_connection.py:366-386 | A response completes the oldest request, and closes the connection as turned away if it says so. |
| Transports.FirstIsSent | src/libranet/connections/peer_connection.py:266-276 | What is queued first is sent while it is open; failing to closes it; told to stop, or closed, nothing more is. |
| Transports.CloseCloses | src/libranet/connections/peer_connection.py:213-222 | Closed by this node, it is closed for that. |
| Pipelining.ClosedForGood | src/libranet/connections/peer_connection.py:195-260 | Once closed it stays closed for the same reason, and accepts no request. |
| Pipelining.ClosingResponseIsLast | src/libranet/connections/peer_connection.py:366-386 | A response that closes the connection is the last given, and only one makes it turned away. |
| Pipelining.ActionWindsDown | src/libranet/connections/peer_connection.py:266-318 | Every step of a closed connection's threads lessens its rank. |
| Pipelining.ClosingIsShort | src/libranet/connections/peer_connection.py:266-401 | However scheduled, a closed connection's threads are done within its rank of steps, and some thread can step until then. |
| Pairings.EveryRunGivesWhatCame | src/libranet/connections/peer_connection.py:278-364 | In every interleaving, whatever the pieces, responses given are the first of those all the bytes received hold for the requests accepted, and all of them while it waits for more. |
| Pairings.AnswersReachTheirRequests | src/libranet/connections/peer_connection.py:278-386 | Answers sent in the order of their requests each reach their own request once they have come. |
| Pairings.DeliveringIsItsSteps | src/libranet/connections/peer_connection.py:332-348 | What delivering does in one go, the receive thread's steps do where no other comes between. |
| Searches.SearchRun.NextPeer | src/libranet/connections/module.py:267-282 | The search and the peer asked next are as specified; peers not due are passed over for the pass. |
| Searches.ChoosesBest | src/libranet/connections/module.py:267-282 | The peer asked is the best that this pass has not asked and that may be asked now; none only if there is none. |
| Searches.SearchRun.StartNextPass | src/libranet/connections/module.py:284-295 | A pass more, with nobody asked in it, resumed at the latest due time or after the pause. |
| Searches.SearchRun.NotFound | src/libranet/connections/module.py:297-304 | The peer may be asked again after what it asked for, or else after the pause. |
| Searches.SearchesKept.End | src/libranet/connections/module.py:349-355 | A search ends if and only if it is the one under way. |
| Searches.SearchesKept.WaitUntil | src/libranet/connections/module.py:357-359 | It waits in its place, those of one time in the order they came. |
| Searches.SearchesKept.Resumed | src/libranet/connections/module.py:361-368 | The soonest whose wait is over are handed on, in order, and the rest wait. |
| Searches.OverAreDue | src/libranet/connections/module.py:361-368 | Those handed on are all whose wait is over, and no other. |
| Searches.SearchesKept.HoldUntil | src/libranet/connections/module.py:370-372 | What is held is noted until then, and no other hold changes. |
| Searches.SearchesKept.Release | src/libranet/connections/module.py:374-376 | Content is held no more, and no other hold changes. |
| Searches.SearchesKept.HeldUntil | src/libranet/connections/module.py:378-386 | Holds that are over are forgotten from the front, and the time given is what is then held. |
| Seeking.EveryRunPlaces | src/libranet/connections/module.py:329-386 | In every interleaving a search is in at most one place, publishes at most one outcome and is nowhere after; at most one is under way for content, and it is not lost while the module runs. |
| Pacing.EveryRunPaces | src/libranet/connections/module.py:1265-1333 | In every run a search asks each peer at most once a pass and at most once for each pass, never before that peer's due time. |
| Passing.EveryRunMakesItsPasses | src/libranet/connections/module.py:1265-1306 | In every run a search that publishes it found nothing has made all its passes, if none of its steps crashed. |
| Passing.NobodyLeftPassesOn | src/libranet/connections/module.py:1274-1306 | With nobody left to ask and passes left, a search starts its next, nobody asked in it, once all may be asked again but no later than a pause from now; after its last it is given up. |
| Passing.SomebodyIsAsked | src/libranet/connections/module.py:267-282 | With a peer to ask, the best is, and it is noted. |
| Passing.RefusalIsNoted | src/libranet/connections/module.py:1308-1333 | A peer that did not send the content may be asked again once it said, or after a pause. |
| Passing.FindingEnds | src/libranet/connections/module.py:1325-1333 | A peer that sent it ends the search, which then says so. |
| Passing.FailingHoldsOff | src/libranet/connections/module.py:1335-1353 | A search given up ends, if it is under way, and holds its content off if and only if it asked anybody. |
| Passing.StartsIfItMay | src/libranet/connections/module.py:878-903 | A search starts if and only if none is under way for its content and that is not held off till later. |
| Passing.ArrivingEnds | src/libranet/connections/module.py:957-968 | Content that arrives is sought no more, nor held off, and nothing else changes. |
| Passing.StoppingTellsEach | src/libranet/connections/module.py:388-393 | Told to stop, it runs no more, and is to tell each worker. |
| Passing.EachIsTold | src/libranet/connections/module.py:388-393 | Each worker is told, one after another. |
| Passing.EveryRunTakesInOrder | src/libranet/connections/module.py:1249-1256 | In every run the searches made ready are taken up in their order, each once, whichever worker takes it. |
| Holding.StaleForGood | src/libranet/connections/module.py:1265-1306 | A search no longer under way never is again, and asks no further peer. |
| Holding.EveryRunHolds | src/libranet/connections/module.py:878-903 | In every run no search starts before what the last to find nothing held its content off until, unless it arrived meanwhile. |
| Holding.EveryRunResumes | src/libranet/connections/module.py:639-668 | An idle tick hands on every search whose wait is over by then, and no other. |
| Pushes.PushCarried.Next | src/libranet/connections/module.py:234-241 | The best peer not tried yet, now counted as tried. |
| Pushes.FateIsFair | src/libranet/connections/module.py:1551-1588 | An item is delivered to the last peer it is sent to, and reached at no other; returned exactly if the next best is its source; kept or queued again only when all have been tried. |
| Pushes.KeptExactly | src/libranet/connections/module.py:1570-1588 | What is kept for a later connection is what was, and what met that fate, with where it came from. |
| Pushes.Pushing.PushBatch | src/libranet/connections/module.py:1511-1616 | A batch ends; each item that can be read meets one fate, that it would meet by itself, sent to the first of its ranking, each once; a peer is sent to once a round; nothing else meets a fate. What is kept and queued again is what met those fates. |
| Pressure.LettingGoIsEnough | src/libranet/eviction/pressure.py:99-122 | Letting go of the excess leaves the node within its limits, with the headroom to spare. |
| Pressure.ExcessIsLeast | src/libranet/eviction/pressure.py:99-122 | Letting go of any less than the excess leaves the node short of the headroom or over a limit. |
| Pressure.StoragePressure.Deleted | src/libranet/eviction/pressure.py:88-90 | Bytes held are fewer by those deleted, never below none. |
| Evictions.EvictionModule.EvictSome | src/libranet/eviction/module.py:594-642 | Evicting reads the clock and the free space, reclaims, asks or starts hand-offs as specified. |
| Evictions.EvictionModule.StartAll | src/libranet/eviction/module.py:594-642 | Candidates are popped and handed off until enough is under way, asking for more where they run out. |
| Evictions.EvictionModule.DataStored | src/libranet/eviction/module.py:461-468 | The bytes, the time it was stored and what is then evicted are as specified. |
| Evictions.EvictionModule.EvictionAcknowledged | src/libranet/eviction/module.py:470-503 | A hand-off ends; content some node holds is deleted unless it is a key needed or in its grace. |
| Evictions.EvictionModule.EvictionCandidates | src/libranet/eviction/module.py:505-554 | What stats lists is handed off; with nothing listed, it waits for the grace or a retry. |
| Evictions.EvictionModule.DataShunned | src/libranet/eviction/module.py:556-575 | Shunned content is deleted, and its hand-off forgotten. |
| Evictions.EvictionModule.Begin | src/libranet/eviction/module.py:403-416 | Whether storage is full is said, and then what is over is let go of. |
| Evictions.EvictionModule.PeersConnected | src/libranet/eviction/module.py:580-582 | The peers named take the place of those named before in that direction, and no other. |
| Evictions.EvictionModule.ResolvedReclaimed | src/libranet/eviction/module.py:584-592 | The pending reclaim is answered, and eviction carries on. |
| Evictions.EvictionModule.IdleTick | src/libranet/eviction/module.py:418-452 | What has timed out is given up on, a pause that is over ends, and eviction goes on. |
| Letting.EveryRunLetsGoSafely | src/libranet/eviction/module.py:461-726 | In every run content is deleted only on an acknowledgement naming a holder, past the grace of its last store unless that is forgotten, or a shunning, never a key needed; hand-offs are of distinct content, at most so many, none started during a pause; no request is sent while one is pending. |
| Letting.EveryDeletionIsPastGrace | src/libranet/eviction/module.py:470-503 | In every run each deletion on an acknowledgement is past the grace of the last store, unless the content was shunned since, while it was no key needed. |
| Letting.AcknowledgedExactly | src/libranet/eviction/module.py:470-503 | In every run an acknowledgement naming a holder deletes content held that is no key needed if and only if it is past the grace of its last store, or was so shunned since. |
| Letting.StartsWhatIsNeeded | src/libranet/eviction/module.py:594-642 | A hand-off starts only while the bytes under way fall short of the excess, and starting stops short of it only at the limit or with none to start. |
| Letting.EvictStartsWhatIsNeeded | src/libranet/eviction/module.py:594-642 | So it is for evicting as a whole, the excess being that of the free space read next once it has been said whether storage is full. |
| Attending.EvictAttends | src/libranet/eviction/module.py:594-642 | Evicting leaves nothing to start, by readings taken then: it is paused, as much as may be is under way or frees the excess, files are being reclaimed, or all listed is started and more is asked for. |
| Attending.MessagesAreAttended | src/libranet/eviction/module.py:418-592 | So does each message that may leave something to start. |
| Attending.FirstAreTaken | src/libranet/eviction/module.py:622-642 | What was listed first is handed off first, unless it is a key needed, under way or in its grace. |
| Attending.ReclaimsExactly | src/libranet/eviction/module.py:613-620 | Resolved files are reclaimed first if and only if that is due and free space is short. |
| Attending.RestIsAskedFor | src/libranet/eviction/module.py:628-631 | Where the list runs out, as much is asked for as falls short of the excess. |
| Attending.MoreIsAskedFor | src/libranet/eviction/module.py:644-662 | What is asked for leaves out what is under way, peers' keys and what is in its grace. |
| Attending.FullIsSaid | src/libranet/eviction/module.py:671-680 | Whether storage is full is said if and only if that changed, or it is asked for. |
| Attending.IdleGivesUp | src/libranet/eviction/module.py:418-452 | An idle tick gives up on exactly the hand-offs overdue and the requests unanswered too long, and ends a pause that is over. |
| Attending.IdleWaitsOn | src/libranet/eviction/module.py:418-452 | With nothing over it does no more than say whether storage is full. |
| Attending.NothingListedWaits | src/libranet/eviction/module.py:527-554 | With nothing listed or under way, it waits for the first store to be out of its grace, or for a retry. |
| Attending.NobodyTookIt | src/libranet/eviction/module.py:480-487 | Taken by nobody, content stays, and nothing is started until a retry. |
| Attending.ShunningDeletes | src/libranet/eviction/module.py:556-575 | Shunned content is deleted if it is no key needed, and its bytes no longer counted. |
| Attending.StoringNotes | src/libranet/eviction/module.py:461-468 | What is stored is noted as stored now, and its bytes counted. |
| Letting.ShunningForgetsGrace | src/libranet/eviction/module.py:556-575 | A run in which content shunned, and then held again, is deleted on an acknowledgement within its grace. |
| Letting.GraceHoldsUnlessShunned | src/libranet/eviction/module.py:556-575 | When content was last stored is forgotten if and only if it was shunned since, while it was no key needed. |
| Buckets.BucketIsBits | src/libranet/cas/content_id.py:157-160 | Identifiers fall in one bucket if and only if their hashes share that many first bits. |
| Buckets.BucketDivides | src/libranet/cas/content_id.py:157-160 | Buckets of more bits divide up those of fewer: shifted they are those, and masked they are the bits that follow. |
| PeerMixes.NeighborsPlace | src/libranet/connections/peer_mix.py:139-153 | A node has a neighborhood bucket if and only if it shares this node's first bits, and it is the bits that follow those. |
| PeerMixes.NeighborhoodsPartition | src/libranet/connections/peer_mix.py:139-153 | Neighbors share a neighborhood bucket if and only if they share that many bits more. |
| PeerMixes.SpreadTakesBest | src/libranet/connections/peer_mix.py:108-137 | Each peer chosen for a place is the best candidate there is for it. |
| PeerMixes.CoveredIsNoMore | src/libranet/connections/peer_mix.py:84-106 | Places covered are at most one more than the peers covering them; more than they if and only if each peer is alone in its place and there are more neighbors than wanted; never more, of the neighborhood buckets wanted. |
| PeerMixes.TwoCoverThree | src/libranet/connections/peer_mix.py:84-106 | With one neighborhood bucket wanted, two neighbors in two of them are counted as covering three places. |
| PeerMixes.MixIsSpread | src/libranet/connections/peer_mix.py:40-137 | Those chosen are distinct and not yet connected; either enough buckets are covered, or every known candidate left lies in a covered one, for both sets; the mix is full, or no candidate is left, and it is never larger. |
| PeerMixes.MixTakesBest | src/libranet/connections/peer_mix.py:68-82 | Past the two sets, each chosen is the best left. |
| PeerMixes.FilledIsNoMore | src/libranet/connections/peer_mix.py:40-106 | Places filled after choosing are no more than the peers filling them, or one more, exactly where it was so of those connected. |
| PeerMixes.Choose | src/libranet/connections/peer_mix.py:40-82 | The loops choose the mix specified. |
| Symlinks.PathReached | src/libranet/bundle/symlinks.py:46-97 | The loop over pending segments ends, and gives what the recursive walk gives with the hops allowed. |
| Symlinks.WalkComposes | src/libranet/bundle/symlinks.py:60-97 | Walking one path and then another is walking both with the links left over. |
| Symlinks.RootReachesNoLink | src/libranet/bundle/symlinks.py:60-97 | From the root a path never ends on a symlink, beneath a file or where nothing is. |
| Symlinks.SeesWhatIsThere | src/libranet/bundle/symlinks.py:75-95 | What stands at a path is its own entry, if that is a link or a file, or else whether it is a directory. |
| Symlinks.RootReachesWhatIsThere | src/libranet/bundle/symlinks.py:60-97 | Every path on the way from the root to what is reached is that of no symlink, of no file but the last, and of a directory there is. |
| Symlinks.MoreLinksChangeNothing | src/libranet/bundle/symlinks.py:60-97 | Raising the limit changes no answer but "too many links". |
| Symlinks.LoopEnds | src/libranet/bundle/symlinks.py:60-97 | A link to itself is too many links whatever the limit. |
| Symlinks.WithoutLinksIsSpelled | src/libranet/bundle/symlinks.py:60-97 | Without links a path leads where it is spelled to, and outside exactly if that climbs above the root. |
| Bits.MatchingBits | src/libranet/cas/prefix.py:20-32 | Counting a digit at a time gives how many leading bits two hashes share. |
| Bits.DistanceTellsShared | src/libranet/cas/prefix.py:20-32 | The bits shared are the length less the bit length of the exclusive or. |
| Nonces.Nearest | src/libranet/cas/nonce_search.py:106-139 | The pruned loop gives the first count of least distance, and none exactly where there are no counts. |
| Nonces.PatternIsNonceAndSuffix | src/libranet/cas/nonce_search.py:106-139 | A suffix's pattern, formatted with a count, is the nonce and the suffix whatever percent signs it holds. |
| Nonces.NonceIsItsCount | src/libranet/cas/nonce_search.py:91-94 | A nonce tells its count, so that different counts have different nonces. |
| Nonces.FirstByteTells | src/libranet/cas/nonce_search.py:106-139 | Hashes whose first byte is not the target's are further than any whose first byte is. |
| Drops.DistanceIsOfTheHash | src/libranet/cas/nonce_search.py:100-104 | A nonce is as far off as the prefix, it and the suffix together hash to, bit against bit of the target. |
| Nonces.SentIsRead | src/libranet/cas/nonce_search.py:82-98 | A search encoded is decoded as it was. |
| Drops.NonceSearchers.Round | src/libranet/cas/drops.py:248-260 | Each process answers the nearest of its share for the search asked, whether sent it now or held before. |
| Drops.NonceSearchers.RoundNearest | src/libranet/cas/drops.py:172-198 | The first nearest count of the whole round, whatever the number of processes; it fails if and only if a fault befalls a process, and every one is then stopped. |
| Drops.FindNonce | src/libranet/cas/drops.py:200-241 | Refused if and only if the seconds are negative or more bits are asked for than a hash has. Otherwise the nonce found is the first of least distance among the empty one and every count tried, of the fewest rounds after which it might stop. |
| Drops.NearestSharesMost | src/libranet/cas/drops.py:333-335 | Least distance is most leading bits shared. |
| Drops.MatchingBitsAreDigits | src/libranet/cas/drops.py:333-335 | The bits matched by distance are those counted a hex digit at a time. |
| Drops.BestIsOne | src/libranet/cas/drops.py:200-241 | There is one best nonce, however many processes found it. |
| Bundles.WrittenIsRead | src/libranet/bundle/serialization.py:23-55 | Every bundle whose CAS paths and hashes are lower-case is read back as it was, its kind by shape alone. |
| Bundles.ReadIsLower | src/libranet/bundle/parsing.py:74-267 | Whatever is read is a bundle that could be built, with its CAS paths and hashes lower-case. |
| Bundles.ReadAgainIsRead | src/libranet/bundle/parsing.py:74-148 | Parse, write, parse is parse for every JSON value accepted. |
| Grammar.ReadExactly | src/libranet/bundle/parsing.py:74-267 | A JSON value is read as a bundle if and only if it describes that one, field by field, by its shape. |
| Grammar.SignedIsUnsupported | src/libranet/bundle/parsing.py:90-99 | What is refused may be so as not supported if and only if it, or what it holds, is signed; else it is malformed. |
| Grammar.NormalExactly | src/libranet/bundle/content.py:57-66 | Of a CAS path the algorithm and the hash are lower-cased, and what follows is kept. |
| Bundles.ReadBackExactlyIfLower | src/libranet/bundle/parsing.py:205-267 | A bundle is read back as it was if and only if its CAS paths and hashes are lower-case. |
| Bundles.AsciiLowers | src/libranet/bundle/parsing.py:205-208 | Lower-casing ASCII text is the lower-casing asked for here. |
| Parts.PartWriter.Keep | src/libranet/bundle/parts.py:298-323 | A part is stored as it is or under its own hash, unless held, and named as specified. |
| Parts.PartWriter.FileOf | src/libranet/bundle/parts.py:334-361 | Every part is stored in turn, and the bundle describes them. |
| Parts.CutIsWhole | src/libranet/bundle/parts.py:363-366 | A file cut up is its parts in order, each as long as may be but the last. |
| Checked.PartIsStoredExactly | src/libranet/bundle/parts.py:298-323 | A part is stored under its own hash, compressed if that is smaller, or encrypted with its hash as the key; if and only if it is held or small enough. |
| Checked.PartsAreAsLargeAsMayBe | src/libranet/bundle/parts.py:293-296 | Parts are as large as allowed, a block less where encrypted. |
| Checked.FileIsDescribed | src/libranet/bundle/parts.py:334-361 | A file is described by its parts, their sizes, its size and its hash. |
| Reassembly.WholeFileCheck.Update | src/libranet/bundle/reassembly.py:56-69 | Bytes are counted and hashed until they are too many. |
| Reassembly.WholeFileCheck.Finish | src/libranet/bundle/reassembly.py:71-93 | A file passes if and only if it has the size and the hash its metadata gives. |
| Reassembly.WriteFile | src/libranet/bundle/reassembly.py:96-124 | Writing gives the bytes specified, or fails as specified; all parts are looked for before any is written. |
| Checked.PartExactly | src/libranet/bundle/parts.py:223-269 | Whatever is held, a part is read as some content if and only if what is held is that, checked and decrypted. |
| Checked.NoMoreIsRead | src/libranet/bundle/parts.py:184-220 | Of a part no more is read than its size as recorded, whether it passes in the end or not. |
| Checked.ReadIsChecked | src/libranet/bundle/reassembly.py:113-124 | Whatever is held, what a file is read as has every part, the size and the hash that its bundle gives. |
| Checked.CheckedIsRead | src/libranet/bundle/reassembly.py:113-124 | And a file that passes every check is read. |
| Checked.LackingIsNamed | src/libranet/bundle/reassembly.py:113-118 | A file some of whose parts are not held fails naming exactly those, each once. |
| Files.PartReads | src/libranet/bundle/parts.py:184-269 | A part held is read back whole if its ciphertext is within what a reader takes, and is refused otherwise. |
| Files.FileReads | src/libranet/bundle/reassembly.py:96-124 | From any genuine store that holds its parts a file is read back whole. |
| Files.FileReadsBack | src/libranet/bundle/parts.py:293-366 | A file written from the bundle made for it is its bytes, plain or encrypted, beside any other content; every object stored is within the limit and none held is changed. |
| Files.SomeCodecIs | src/libranet/bundle/parts.py:293-366 | There is a codec with which all that is asked of hash, compression and cipher holds of every file cut into parts shorter than its hash, and such a file is written and read back. |
| Files.TwoPartsDiffer | src/libranet/bundle/parts.py:363-366 | One such file is of two parts that differ, and hash apart. |

## Left out

- Sockets, selectors, threads, pipes and files: their steps are atomic here, and what they give at each step is arbitrary. Saving a file replaces it whole, or not at all.
- AES, Argon2id, RSA, Ed25519, SHA-256 and zlib: parameters. Directory bundles are stored in a vault whose addresses are injective and ranked, so that identifiers in it are of no fixed length; files are read back where no two of the finitely many byte strings that are hashed collide.
- Passwords, protection by signature and drops of bundles; each version stored says whether it is encrypted.
- The JSON text of a bundle, and of what is kept expanded: bundles are modelled as JSON values, and what is saved is read as it was saved or not at all.
- Lower-casing, base64, media types and UTF-8: parameters of reading a bundle. Which of several errors in a directory is raised depends on the order of its entries, which JSON objects here do not keep; it is one of a set.
- Histories.NewestReadsBack: a newest version is read back only where no bundle is larger than a reader decompresses, as the writer does not limit that; the condition is exact.
- Drops.FindNonce: a search for more bits than any nonce gives never ends, so where it is not refused it is proved for a number of rounds that would do, which the code never knows.
- Letting.EveryRunLetsGoSafely: the grace is that of a last store not forgotten, as the code forgets it on shunning what is no key needed; the exact condition is that of Letting.AcknowledgedExactly.
- Reassembly.WriteFile: part sizes, where given, are as many as the parts, which building the bundle checks.
- Pushes.Pushing.PushBatch: pushes are values told apart by their place in the batch; two references to one push are not.
- Searches.SearchesKept.WaitUntil: the heap of waits is a sequence kept sorted, so how the heap lays them out is not modelled.
- Connections.PeerConnection.Fail: callbacks told of the closing, and the socket's shutting down, are left out.
- Nonces and distances are numbers of any size and masks and shifts are halvings, so no machine word bounds them.
- Timeouts of a connection are steps that may come at any time it waits; how long each is, is not modelled.
- Encoding and signing requests, and checking the signatures of responses.
- Searches by prefix, passing searches on, hand-offs by the connections module, dialing, trust and Karma: they would add easier members.
- Sorting identifiers by a prefix, a drop's text form, and the fields that pack a nonce's count: single expressions.
- Walking directories, restoring them, extended attributes, archives, configuration, logging and the pages that report progress.
